/** The answer to "sound at night?": stores the choice and closes the flow. */
module NightSoundChoice {
  import opened Common
  import opened Models
  import opened LangPack
  import opened BotUtils
  import opened Users
  import opened Replies

  const NightSoundYes := "night_sound_yes"

  /** `handle_night_sound_choice`. */
  method HandleNightSoundChoice(languages: LangContainer, query: Option<CallbackQuery>, users: UserTable,
                                ctx: UserContext)
    returns (outcome: Outcome)
    requires users.Valid()
    modifies users, ctx
    ensures users.Valid()
    ensures query.None? ==> outcome == Done([]) && users.rows == old(users.rows) && ctx.data == old(ctx.data)
    ensures query.Some? && query.value.fromUser.None? ==>
      outcome == Raised("AttributeError") && users.rows == old(users.rows) && ctx.data == old(ctx.data)
    ensures query.Some? && query.value.fromUser.Some? ==>
      var lang := languages.FromLangcode(query.value.fromUser.value.languageCode);
      && (old(ctx.RegisteringUserId()).None? ==>
            && outcome == Done([Reply(EditedMessage, lang, [Key(ErrSessionExpired)], NoMarkup, false)])
            && users.rows == old(users.rows) && ctx.data == old(ctx.data))
      && (old(ctx.RegisteringUserId()).Some? ==>
            var found := FindUser(old(users.rows), StoredUserId(old(ctx.RegisteringUserId()).value));
            && (found.None? ==>
                  && outcome == Done([Reply(EditedMessage, lang, [Key(ErrUserNotFound)], NoMarkup, false)])
                  && users.rows == old(users.rows) && ctx.data == old(ctx.data))
            && (found.Some? ==>
                  var enabled := query.value.data == NightSoundYes;
                  && users.rows == old(users.rows)[found.value := old(users.rows)[found.value].(nightSoundEnabled := enabled)]
                  && outcome == Done([Reply(EditedMessage, lang, CompletionMessage(old(ctx.IsReconfiguration()), true, Some(enabled)), NoMarkup, false),
                                      Say(lang, [Key(MsgUseKeyboard)], MainKeyboard)])
                  && ctx.data == old(ctx.data) - {RegisteringUserIdKey, IsReconfigurationKey}))
  {
    if query.None? {
      return Done([]);
    }
    var q := query.value;
    var identity := IdentityFromQuery(query);
    if q.fromUser.None? {
      return Raised("AttributeError");
    }
    var lang := languages.FromLangcode(q.fromUser.value.languageCode);
    var userId := ctx.RegisteringUserId();
    if userId.None? {
      return Done([Reply(EditedMessage, lang, [Key(ErrSessionExpired)], NoMarkup, false)]);
    }
    var enabled := q.data == NightSoundYes;
    var found := FindUser(users.rows, StoredUserId(userId.value));
    if found.None? {
      return Done([Reply(EditedMessage, lang, [Key(ErrUserNotFound)], NoMarkup, false)]);
    }
    users.SetRow(found.value, users.rows[found.value].(nightSoundEnabled := enabled));
    var isReconfiguration := ctx.IsReconfiguration();
    var completion := CompletionMessage(isReconfiguration, true, Some(enabled));
    outcome := Done([Reply(EditedMessage, lang, completion, NoMarkup, false), Say(lang, [Key(MsgUseKeyboard)], MainKeyboard)]);
    var _ := ctx.CleanupRegistrationContext(identity);
  }
}
