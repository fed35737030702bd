/** The registration flow end to end: /start, then the answer to "enable notifications?", then,
    after a "yes", the answer to "sound at night?". */
module RegistrationFlow {
  import opened Common
  import opened Models
  import opened LangPack
  import opened BotUtils
  import opened Users
  import opened Replies
  import opened StartCommand
  import opened NotificationChoice
  import opened NightSoundChoice
  import SettingsButton

  /** The user at row `i`, whose registration or reconfiguration is under way, answers "sound at night?". */
  method AnswerNightSound(languages: LangContainer, user: TgUser, users: UserTable, ctx: UserContext, i: nat,
                          reconfiguring: bool, wantsNightSound: bool)
    returns (completion: seq<Token>)
    requires users.Valid() && FindUser(users.rows, user.id) == Some(i)
    requires ctx.RegisteringUserId() == Some(IntValue(user.id)) && ctx.IsReconfiguration() == reconfiguring
    modifies users, ctx
    ensures users.Valid()
    ensures users.rows == old(users.rows)[i := old(users.rows)[i].(nightSoundEnabled := wantsNightSound)]
    ensures ctx.data == old(ctx.data) - {RegisteringUserIdKey, IsReconfigurationKey}
    ensures completion == CompletionMessage(reconfiguring, true, Some(wantsNightSound))
  {
    var answer := CallbackQuery(Some(user), if wantsNightSound then NightSoundYes else "night_sound_no");
    var closed := HandleNightSoundChoice(languages, Some(answer), users, ctx);
    completion := closed.replies[0].text;
  }

  /** The user at row `i`, whose registration or reconfiguration is under way, answers "enable notifications?" and,
      after a "yes", "sound at night?". */
  method AnswerNotifications(languages: LangContainer, user: TgUser, users: UserTable, ctx: UserContext, i: nat,
                             reconfiguring: bool, wantsNotifications: bool, wantsNightSound: bool)
    returns (completion: seq<Token>)
    requires users.Valid() && FindUser(users.rows, user.id) == Some(i)
    requires ctx.RegisteringUserId() == Some(IntValue(user.id)) && ctx.IsReconfiguration() == reconfiguring
    modifies users, ctx
    ensures users.Valid()
    ensures users.rows == old(users.rows)[i := old(users.rows)[i].(notifsEnabled := wantsNotifications,
                                                                  nightSoundEnabled := if wantsNotifications then wantsNightSound
                                                                                       else old(users.rows)[i].nightSoundEnabled)]
    ensures ctx.data == old(ctx.data) - {RegisteringUserIdKey, IsReconfigurationKey}
    ensures completion == CompletionMessage(reconfiguring, wantsNotifications, if wantsNotifications then Some(wantsNightSound) else None)
  {
    var answer := CallbackQuery(Some(user), if wantsNotifications then NotifYes else "notif_no");
    var chosen := HandleNotificationChoice(languages, Some(answer), users, ctx);
    if wantsNotifications {
      assert FindUser(users.rows, user.id) == Some(i) by {
        assert users.rows[i].id == user.id;
      }
      completion := AnswerNightSound(languages, user, users, ctx, i, reconfiguring, wantsNightSound);
    } else {
      completion := chosen.replies[0].text;
    }
  }

  /** A new user who answers the questions ends up with a row holding the answers (night sound stays
      on after a "no" to notifications), a conversation context without the registration keys, and
      a last message that completes the registration. */
  method RegisterNewUser(languages: LangContainer, user: TgUser, users: UserTable, ctx: UserContext,
                         wantsNotifications: bool, wantsNightSound: bool)
    returns (completion: seq<Token>)
    requires users.Valid() && FindUser(users.rows, user.id).None?
    requires !ctx.IsReconfiguration()
    modifies users, ctx
    ensures users.Valid()
    ensures users.rows == old(users.rows) + [NewUserRow(user).(notifsEnabled := wantsNotifications,
                                                               nightSoundEnabled := !wantsNotifications || wantsNightSound)]
    ensures ctx.data == old(ctx.data) - {RegisteringUserIdKey, IsReconfigurationKey}
    ensures completion == CompletionMessage(false, wantsNotifications, if wantsNotifications then Some(wantsNightSound) else None)
    ensures completion[|completion| - 1] == Key(MsgRegistrationCompleted)
  {
    var n := |users.rows|;
    var started := Start(languages, Some(user), users, ctx);
    assert FindUser(users.rows, user.id) == Some(n) by {
      assert users.rows[n].id == user.id;
    }
    completion := AnswerNotifications(languages, user, users, ctx, n, false, wantsNotifications, wantsNightSound);
    assert ctx.data == old(ctx.data) - {RegisteringUserIdKey, IsReconfigurationKey};
    CompletionMessageSays(false, wantsNotifications, if wantsNotifications then Some(wantsNightSound) else None);
  }

  /** A registered user who reconfigures through the settings button gets the answers stored in
      their row and nothing else changed, a conversation context without the registration keys, and
      a last message that never says "registration completed". */
  method Reconfigure(languages: LangContainer, user: TgUser, users: UserTable, ctx: UserContext,
                     wantsNotifications: bool, wantsNightSound: bool)
    returns (completion: seq<Token>)
    requires users.Valid() && FindUser(users.rows, user.id).Some?
    modifies users, ctx
    ensures users.Valid()
    ensures var i := FindUser(old(users.rows), user.id).value;
      users.rows == old(users.rows)[i := old(users.rows)[i].(notifsEnabled := wantsNotifications,
                                                            nightSoundEnabled := if wantsNotifications then wantsNightSound
                                                                                 else old(users.rows)[i].nightSoundEnabled)]
    ensures ctx.data == old(ctx.data) - {RegisteringUserIdKey, IsReconfigurationKey}
    ensures completion == CompletionMessage(true, wantsNotifications, if wantsNotifications then Some(wantsNightSound) else None)
    ensures completion != [] && completion[|completion| - 1] != Key(MsgRegistrationCompleted)
  {
    var i := FindUser(users.rows, user.id).value;
    var asked := SettingsButton.HandleSettings(languages, Some(user), users, ctx);
    completion := AnswerNotifications(languages, user, users, ctx, i, true, wantsNotifications, wantsNightSound);
    assert ctx.data == old(ctx.data) - {RegisteringUserIdKey, IsReconfigurationKey};
    CompletionMessageSays(true, wantsNotifications, if wantsNotifications then Some(wantsNightSound) else None);
  }
}
