/** The "notification settings" button: a registered user re-enters the preference flow. */
module SettingsButton {
  import opened Common
  import opened Models
  import opened LangPack
  import opened BotUtils
  import opened Users
  import opened Replies

  /** `handle_settings`. It reads the user table and writes only the conversation context. */
  method HandleSettings(languages: LangContainer, effectiveUser: Option<TgUser>, users: UserTable, ctx: UserContext)
    returns (outcome: Outcome)
    modifies ctx
    ensures effectiveUser.None? ==> outcome == Done([]) && ctx.data == old(ctx.data)
    ensures effectiveUser.Some? && users.GetUserFromDb(effectiveUser.value.id).None? ==>
      && outcome == Done([Say(languages.FromLangcode(effectiveUser.value.languageCode), [Key(MsgUserNotFound)], MainKeyboard)])
      && ctx.data == old(ctx.data)
    ensures effectiveUser.Some? && users.GetUserFromDb(effectiveUser.value.id).Some? ==>
      && outcome == Done([Say(languages.FromLangcode(effectiveUser.value.languageCode), [Key(MsgQEnableNotifs)],
                              NotificationChoiceKeyboard)])
      && ctx.data == old(ctx.data)[RegisteringUserIdKey := IntValue(effectiveUser.value.id)]
                                  [IsReconfigurationKey := BoolValue(true)]
      && ctx.RegisteringUserId() == Some(IntValue(effectiveUser.value.id))
      && ctx.IsReconfiguration()
  {
    if effectiveUser.None? {
      return Done([]);
    }
    var user := effectiveUser.value;
    var lang := languages.FromLangcode(user.languageCode);
    var existing := users.GetUserFromDb(user.id);
    if existing.None? {
      return Done([Say(lang, [Key(MsgUserNotFound)], MainKeyboard)]);
    }
    outcome := Done([Say(lang, [Key(MsgQEnableNotifs)], NotificationChoiceKeyboard)]);
    ctx.data := ctx.data[RegisteringUserIdKey := IntValue(user.id)];
    ctx.data := ctx.data[IsReconfigurationKey := BoolValue(true)];
  }
}
