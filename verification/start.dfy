/** The /start command: greets a known user (refreshing the stored language), or registers a new
    one with default preferences and asks whether to enable notifications. */
module StartCommand {
  import opened Common
  import opened Models
  import opened LangPack
  import opened BotUtils
  import opened Users
  import opened Replies

  /** Python truthiness of an optional string. */
  predicate Filled(s: Option<string>) { s.Some? && s.value != [] }

  /** The name in the greeting: the first name, else the username, else the pack's word for "user". */
  function WelcomeNameOf(user: TgUser): (r: WelcomeName)
    ensures r.Named? ==> r.name != []
    ensures r == DefaultUserWord <==> (!Filled(user.firstName) && !Filled(user.username))
    ensures Filled(user.firstName) ==> r == Named(user.firstName.value)
    ensures !Filled(user.firstName) && Filled(user.username) ==> r == Named(user.username.value)
  {
    if Filled(user.firstName) then Named(user.firstName.value)
    else if Filled(user.username) then Named(user.username.value)
    else DefaultUserWord
  }

  /** The row a new user gets: the Telegram profile, not an admin, notifications and night sound on. */
  function NewUserRow(user: TgUser): (r: UserRow)
    ensures r.id == user.id && r.username == user.username && r.firstName == user.firstName
    ensures r.isBot == user.isBot && r.languageCode == user.languageCode
    ensures !r.isAdmin && r.notifsEnabled && r.nightSoundEnabled
  {
    UserRow(user.id, user.username, user.firstName, user.isBot, user.languageCode, false, true, true)
  }

  /** `start`. */
  method Start(languages: LangContainer, effectiveUser: Option<TgUser>, users: UserTable, ctx: UserContext)
    returns (outcome: Outcome)
    requires users.Valid()
    modifies users, ctx
    ensures users.Valid()
    ensures effectiveUser.None? ==>
      outcome == Done([]) && users.rows == old(users.rows) && ctx.data == old(ctx.data)
    ensures effectiveUser.Some? && FindUser(old(users.rows), effectiveUser.value.id).Some? ==>
      var user := effectiveUser.value;
      var i := FindUser(old(users.rows), user.id).value;
      && outcome == Done([Say(languages.FromLangcode(user.languageCode),
                              [Welcome(WelcomeNameOf(user)), Lit("\n\n"), Key(MsgUseKeyboard)], MainKeyboard)])
      && ctx.data == old(ctx.data)
      && (old(users.rows)[i].languageCode == user.languageCode ==> users.rows == old(users.rows))
      && (old(users.rows)[i].languageCode != user.languageCode ==>
            users.rows == old(users.rows)[i := old(users.rows)[i].(languageCode := user.languageCode)])
    ensures effectiveUser.Some? && FindUser(old(users.rows), effectiveUser.value.id).None? ==>
      var user := effectiveUser.value;
      && outcome == Done([Say(languages.FromLangcode(user.languageCode),
                              [Welcome(WelcomeNameOf(user)), Lit("\n\n"), Key(MsgQEnableNotifs)],
                              NotificationChoiceKeyboard)])
      && users.rows == old(users.rows) + [NewUserRow(user)]
      && ctx.data == old(ctx.data)[RegisteringUserIdKey := IntValue(user.id)]
  {
    if effectiveUser.None? {
      return Done([]);
    }
    var user := effectiveUser.value;
    var lang := languages.FromLangcode(user.languageCode);
    var existing := FindUser(users.rows, user.id);
    var welcome := Welcome(WelcomeNameOf(user));
    if existing.Some? {
      outcome := Done([Say(lang, [welcome, Lit("\n\n"), Key(MsgUseKeyboard)], MainKeyboard)]);
      var i := existing.value;
      if users.rows[i].languageCode != user.languageCode {
        users.SetRow(i, users.rows[i].(languageCode := user.languageCode));
      }
      return;
    }
    users.AddUser(NewUserRow(user));
    outcome := Done([Say(lang, [welcome, Lit("\n\n"), Key(MsgQEnableNotifs)], NotificationChoiceKeyboard)]);
    ctx.data := ctx.data[RegisteringUserIdKey := IntValue(user.id)];
  }
}
