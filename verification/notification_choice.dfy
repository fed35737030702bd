/** The answer to "enable notifications?": stores the choice, then asks about night sound or, for a
    "no", closes the flow. */
module NotificationChoice {
  import opened Common
  import opened Models
  import opened LangPack
  import opened BotUtils
  import opened Users
  import opened Replies

  const NotifYes := "notif_yes"

  /** `handle_notification_choice`. The user is the one who pressed the button; the user whose row
      changes is the one named by `registering_user_id`. */
  method HandleNotificationChoice(languages: LangContainer, query: Option<CallbackQuery>, users: UserTable,
                                  ctx: UserContext)
    returns (outcome: Outcome)
    requires users.Valid()
    modifies users, ctx
    ensures users.Valid()
    ensures query.None? ==> outcome == Done([]) && users.rows == old(users.rows) && ctx.data == old(ctx.data)
    ensures query.Some? && query.value.fromUser.None? ==>
      outcome == Raised("AttributeError") && users.rows == old(users.rows) && ctx.data == old(ctx.data)
    ensures query.Some? && query.value.fromUser.Some? ==>
      var lang := languages.FromLangcode(query.value.fromUser.value.languageCode);
      && (old(ctx.RegisteringUserId()).None? ==>
            && outcome == Done([Reply(EditedMessage, lang, [Key(ErrSessionExpired)], NoMarkup, false)])
            && users.rows == old(users.rows) && ctx.data == old(ctx.data))
      && (old(ctx.RegisteringUserId()).Some? ==>
            var found := FindUser(old(users.rows), StoredUserId(old(ctx.RegisteringUserId()).value));
            && (found.None? ==>
                  && outcome == Done([Reply(EditedMessage, lang, [Key(ErrUserNotFound)], NoMarkup, false)])
                  && users.rows == old(users.rows) && ctx.data == old(ctx.data))
            && (found.Some? ==>
                  var enabled := query.value.data == NotifYes;
                  && users.rows == old(users.rows)[found.value := old(users.rows)[found.value].(notifsEnabled := enabled)]
                  && (enabled ==>
                        && outcome == Done([Reply(EditedMessage, lang, [Key(MsgNotificationsOn)], NightSoundChoiceKeyboard, false)])
                        && ctx.data == old(ctx.data))
                  && (!enabled ==>
                        && outcome == Done([Reply(EditedMessage, lang, CompletionMessage(old(ctx.IsReconfiguration()), false, None), NoMarkup, false),
                                            Say(lang, [Key(MsgUseKeyboard)], MainKeyboard)])
                        && ctx.data == old(ctx.data) - {RegisteringUserIdKey, IsReconfigurationKey})))
  {
    if query.None? {
      return Done([]);
    }
    var q := query.value;
    var identity := IdentityFromQuery(query);
    if q.fromUser.None? {
      return Raised("AttributeError");
    }
    var lang := languages.FromLangcode(q.fromUser.value.languageCode);
    var userId := ctx.RegisteringUserId();
    if userId.None? {
      return Done([Reply(EditedMessage, lang, [Key(ErrSessionExpired)], NoMarkup, false)]);
    }
    var enabled := q.data == NotifYes;
    var found := FindUser(users.rows, StoredUserId(userId.value));
    if found.None? {
      return Done([Reply(EditedMessage, lang, [Key(ErrUserNotFound)], NoMarkup, false)]);
    }
    users.SetRow(found.value, users.rows[found.value].(notifsEnabled := enabled));
    if enabled {
      outcome := Done([Reply(EditedMessage, lang, [Key(MsgNotificationsOn)], NightSoundChoiceKeyboard, false)]);
    } else {
      var isReconfiguration := ctx.IsReconfiguration();
      var completion := CompletionMessage(isReconfiguration, false, None);
      outcome := Done([Reply(EditedMessage, lang, completion, NoMarkup, false), Say(lang, [Key(MsgUseKeyboard)], MainKeyboard)]);
      var _ := ctx.CleanupRegistrationContext(identity);
    }
  }
}
