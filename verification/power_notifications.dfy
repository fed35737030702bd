/** The notification job: on each tick it compares the two most recent power statuses with the
    cursor of the last status it notified about, and on a genuine change sends one message to each
    user who has notifications enabled. */
module PowerNotifications {
  import opened Common
  import opened Constants
  import opened Models
  import opened Elapsed
  import opened Retry
  import opened LangPack

  // ---------------------------------------------------------------------------
  // The message text
  // ---------------------------------------------------------------------------

  const GreenCircle := "\U{1F7E2}"
  const RedCircle := "\U{1F534}"

  /** "Attention" and the new state of the electricity, ON or OFF, between two coloured circles. */
  function Header(toStatus: bool): seq<Token>
  {
    var toText := if toStatus then "ON" else "OFF";
    var toEmoji := if toStatus then GreenCircle else RedCircle;
    [Key(NotifAttention), Lit("\n\n" + toEmoji + "  "), Key(WordElectricity), Lit(" " + toText + "  " + toEmoji + "\n")]
  }

  /** How long the previous state lasted, for a transition with a non-zero time difference. */
  function ElapsedLine(fromStatus: bool, toStatus: bool, timeDiff: Option<int>): seq<Token>
  {
    match Phrase(timeDiff)
    case None => []
    case Some(span) =>
      if fromStatus && !toStatus then [Key(NotifPowerTurnOnTime), Lit(" ")] + Render(span) + [Lit("\n\n")]
      else if !fromStatus && toStatus then [Key(NotifPowerTurnOffTime), Lit(" ")] + Render(span) + [Lit("\n\n")]
      else []
  }

  /** The whole notification: header, elapsed line, footer. */
  function NotificationText(fromStatus: bool, toStatus: bool, timeDiff: Option<int>): seq<Token>
  {
    Header(toStatus) + ElapsedLine(fromStatus, toStatus, timeDiff) + [Key(NotifFooter)]
  }

  /** The text opens with the header for the new state and closes with the footer, and it carries an
      elapsed line exactly for a real change with a non-zero time difference. */
  lemma NotificationTextFrame(fromStatus: bool, toStatus: bool, timeDiff: Option<int>)
    ensures var t := NotificationText(fromStatus, toStatus, timeDiff);
      && |t| >= 5 && t[..4] == Header(toStatus) && t[|t| - 1] == Key(NotifFooter)
      && (|t| > 5 <==> fromStatus != toStatus && Phrase(timeDiff).Some?)
  {
    var t := NotificationText(fromStatus, toStatus, timeDiff);
    assert t[..4] == Header(toStatus);
  }

  /** The text says how long the power was on exactly for an on-to-off change with a non-zero
      difference, and how long it was off exactly for an off-to-on change with a non-zero difference;
      in either case the span can be read back from the text. */
  lemma NotificationTextSays(fromStatus: bool, toStatus: bool, timeDiff: Option<int>)
    ensures var t := NotificationText(fromStatus, toStatus, timeDiff);
      && (Key(NotifPowerTurnOnTime) in t <==> fromStatus && !toStatus && Phrase(timeDiff).Some?)
      && (Key(NotifPowerTurnOffTime) in t <==> !fromStatus && toStatus && Phrase(timeDiff).Some?)
      && (|t| > 5 ==> Parse(t[6..|t| - 2]) == Phrase(timeDiff))
  {
    var t := NotificationText(fromStatus, toStatus, timeDiff);
    var line := ElapsedLine(fromStatus, toStatus, timeDiff);
    assert t == Header(toStatus) + line + [Key(NotifFooter)];
    if line != [] {
      var span := Phrase(timeDiff).value;
      assert line == [line[0], Lit(" ")] + Render(span) + [Lit("\n\n")];
      assert t[6..|t| - 2] == Render(span);
      ParseRender(span);
      assert Key(line[0].key) in t;
    }
    assert Key(NotifPowerTurnOnTime) !in Header(toStatus) && Key(NotifPowerTurnOffTime) !in Header(toStatus);
    if Phrase(timeDiff).Some? {
      var span := Phrase(timeDiff).value;
      assert Key(NotifPowerTurnOnTime) !in Render(span) && Key(NotifPowerTurnOffTime) !in Render(span);
    }
  }

  // ---------------------------------------------------------------------------
  // The call into the send helper
  // ---------------------------------------------------------------------------

  /** The parameters of `send_message_with_retry`, in declaration order. */
  datatype SendParam = BotApp | Semaphore | RateLimiter | UserId | MessageText | DisableSound | Markdown

  /** The caller's values that can be passed. */
  datatype CallerValue = BotAppValue | SemaphoreValue | RateLimiterValue | UserIdValue | FinalTextValue | DisableSoundValue

  const SendParams: seq<SendParam> := [BotApp, Semaphore, RateLimiter, UserId, MessageText, DisableSound, Markdown]

  /** Only `markdown` has a default (True). */
  predicate HasDefault(p: SendParam) { p == Markdown }

  /** The i-th positional argument goes to the i-th parameter. */
  function BindPositional(params: seq<SendParam>, args: seq<CallerValue>): map<SendParam, CallerValue>
    requires |args| <= |params|
    decreases |args|
  {
    if args == [] then map[] else BindPositional(params[1..], args[1..])[params[0] := args[0]]
  }

  /** Python's argument binding for a call of the helper; None where Python raises TypeError: too
      many positional arguments, a parameter given both positionally and by keyword, or a parameter
      without a default left unbound. */
  function BindArguments(args: seq<CallerValue>, kwargs: map<SendParam, CallerValue>): (b: Option<map<SendParam, CallerValue>>)
    ensures b.Some? ==> forall p :: p in SendParams && !HasDefault(p) ==> p in b.value
  {
    if |args| > |SendParams| then None
    else
      var positional := BindPositional(SendParams, args);
      if exists p :: p in kwargs && p in positional then None
      else
        var bound := positional + kwargs;
        if exists p :: p in SendParams && !HasDefault(p) && p !in bound then None
        else Some(bound)
  }

  /** The call as written passes (rate_limiter, semaphore, user_id, final_text, disable_sound)
      positionally: the rate limiter lands in `bot_app`, the user id in `rate_limiter`, the text in
      `user_id`, the sound flag in `message_text`, and `disable_sound` gets nothing, so the call
      raises TypeError. */
  lemma CallAsWrittenRaisesTypeError()
    ensures var positional := BindPositional(SendParams, [RateLimiterValue, SemaphoreValue, UserIdValue, FinalTextValue, DisableSoundValue]);
      && positional[BotApp] == RateLimiterValue && positional[RateLimiter] == UserIdValue
      && positional[UserId] == FinalTextValue && positional[MessageText] == DisableSoundValue
      && DisableSound !in positional
    ensures BindArguments([RateLimiterValue, SemaphoreValue, UserIdValue, FinalTextValue, DisableSoundValue], map[]) == None
  {
    var positional := BindPositional(SendParams, [RateLimiterValue, SemaphoreValue, UserIdValue, FinalTextValue, DisableSoundValue]);
    assert DisableSound in SendParams && !HasDefault(DisableSound) && DisableSound !in positional;
  }

  /** The intended call, by keyword, binds every parameter to the matching value and leaves
      `markdown` at its default. */
  const IntendedKeywords: map<SendParam, CallerValue> :=
    map[BotApp := BotAppValue, Semaphore := SemaphoreValue, RateLimiter := RateLimiterValue,
        UserId := UserIdValue, MessageText := FinalTextValue, DisableSound := DisableSoundValue]

  lemma CallByKeywordBinds()
    ensures BindArguments([], IntendedKeywords) == Some(IntendedKeywords)
    ensures Markdown !in IntendedKeywords
  {
    assert BindPositional(SendParams, []) + IntendedKeywords == IntendedKeywords;
    assert forall p :: p in SendParams && !HasDefault(p) ==> p in IntendedKeywords;
  }

  /** A notification send as written: every attempt raises the same TypeError `e` before any request
      is made, so the message is never delivered, whatever the network does; the error is re-raised
      after one attempt if it is not classed as retryable and after three if it is. */
  function SendAsWritten(e: Exc): SendResult
  {
    SendResultOf(RetryOutcomeOf<()>(SendPolicy, (n: nat) => Raised(e), IsRetryableTelegramException))
  }

  lemma SendAsWrittenNeverDelivers(e: Exc)
    ensures SendAsWritten(e) == SendFailed(e, if IsRetryableTelegramException(e) then 3 else 1)
  {
    RetryOutcomeWellFormed<()>(SendPolicy, (n: nat) => Raised(e), IsRetryableTelegramException);
  }

  /** The class name of the error, lower-cased as the classifier reads it. */
  lemma LowerTypeError()
    ensures Lower("TypeError") == "typeerror"
  {
  }

  /** "typeerror" holds none of the words the classifier looks for in a class name: it has no 'n',
      'i' or 'a', and no 'r' followed by 'e'. */
  lemma TypeErrorNameHasNoNetworkWord()
    ensures !Contains("typeerror", "network")
  {
    NotContainsWithoutChar("typeerror", "network", 0);
  }

  lemma TypeErrorNameHasNoConnectionWord()
    ensures !Contains("typeerror", "connection")
  {
    NotContainsWithoutChar("typeerror", "connection", 0);
  }

  lemma TypeErrorNameHasNoTimeoutWord()
    ensures !Contains("typeerror", "timeout")
  {
    NotContainsWithoutChar("typeerror", "timeout", 1);
  }

  lemma TypeErrorNameHasNoRetryWord()
    ensures !Contains("typeerror", "retry")
  {
    NotContainsWithoutPair("typeerror", "retry", 0);
  }

  lemma TypeErrorNameHasNoRateWord()
    ensures !Contains("typeerror", "rate")
  {
    NotContainsWithoutChar("typeerror", "rate", 1);
  }

  /** The error the call as written raises is Python's TypeError for the unbound `disable_sound`,
      whose text ("send_message_with_retry() missing 1 required positional argument:
      'disable_sound'") mentions none of the classifier's words. The class name "TypeError" holds
      none of them either, so the error is not retried and every notification send fails after
      exactly one attempt. */
  lemma AsWrittenTypeErrorFailsAtOnce(message: string)
    requires !Contains(Lower(message), "network") && !Contains(Lower(message), "timeout")
    requires !Contains(Lower(message), "connection") && !Contains(Lower(message), "429")
    ensures var e := Exc(OtherKind, "TypeError", message, None, None);
      && !IsRetryableTelegramException(e)
      && SendAsWritten(e) == SendFailed(e, 1)
  {
    var e := Exc(OtherKind, "TypeError", message, None, None);
    LowerTypeError();
    TypeErrorNameHasNoNetworkWord();
    TypeErrorNameHasNoConnectionWord();
    TypeErrorNameHasNoTimeoutWord();
    TypeErrorNameHasNoRetryWord();
    TypeErrorNameHasNoRateWord();
    SendAsWrittenNeverDelivers(e);
  }

  // ---------------------------------------------------------------------------
  // One notification per user
  // ---------------------------------------------------------------------------

  /** What the send job for one user sends: the user's pack, the text, and whether the sound is off. */
  datatype Notification = Notification(userId: int, lang: Lang, disableSound: bool, text: seq<Token>)

  /** A notification and how its send ended. */
  datatype Delivery = Delivery(notification: Notification, result: SendResult)

  /** A notification is silent when it is night and the user has turned night sound off. */
  predicate Silent(isNight: bool, user: UserRow) { isNight && !user.nightSoundEnabled }

  function NotificationFor(languages: LangContainer, user: UserRow, previous: StatusEvent, latest: StatusEvent,
                           timeDiff: Option<int>, isNight: bool): Notification
  {
    Notification(user.id, languages.FromLangcode(user.languageCode), Silent(isNight, user),
                 NotificationText(previous.value, latest.value, timeDiff))
  }

  /** One notification per user, in order (the list of send jobs). */
  function NotificationsFor(languages: LangContainer, users: seq<UserRow>, previous: StatusEvent, latest: StatusEvent,
                            timeDiff: Option<int>, isNight: bool): (r: seq<Notification>)
    ensures |r| == |users|
    ensures forall i :: 0 <= i < |users| ==> r[i] == NotificationFor(languages, users[i], previous, latest, timeDiff, isNight)
    decreases |users|
  {
    if users == [] then []
    else [NotificationFor(languages, users[0], previous, latest, timeDiff, isNight)]
         + NotificationsFor(languages, users[1..], previous, latest, timeDiff, isNight)
  }

  /** The request for a notification, with the helper called by keyword (markdown on). */
  function NotificationRequest(n: Notification): SendRequest
  {
    MessageRequest(n.userId, n.text, n.disableSound, true)
  }

  /** How the send of a notification ends, given how the Bot API answers each request. */
  function DeliveryOutcome(api: SendRequest -> (nat -> Attempt<()>), n: Notification): SendResult
  {
    SendResultOf(RetryOutcomeOf(SendPolicy, api(NotificationRequest(n)), IsRetryableTelegramException))
  }

  /** Sends one notification; a failure after the retries is logged and not raised. This is the
      corrected send, with the helper called by keyword: as written, the positional call raises
      TypeError before any request is made (`CallAsWrittenRaisesTypeError`,
      `AsWrittenTypeErrorFailsAtOnce`). */
  method SendStatusNotification(api: SendRequest -> (nat -> Attempt<()>), n: Notification) returns (r: SendResult)
    ensures r == DeliveryOutcome(api, n)
    ensures NotificationRequest(n).chatId == n.userId && NotificationRequest(n).disableNotification == n.disableSound
  {
    r := SendMessageWithRetry(api, n.userId, n.text, n.disableSound, true);
  }

  // ---------------------------------------------------------------------------
  // The decision of one tick
  // ---------------------------------------------------------------------------

  /** The users with notifications enabled, in table order. */
  function OptedIn(users: seq<UserRow>): (r: seq<UserRow>)
    ensures forall i :: 0 <= i < |r| ==> r[i].notifsEnabled
    ensures r == [] <==> forall i :: 0 <= i < |users| ==> !users[i].notifsEnabled
    ensures |r| <= |users|
    decreases |users|
  {
    if users == [] then []
    else (if users[0].notifsEnabled then [users[0]] else []) + OptedIn(users[1..])
  }

  /** Exactly the users with notifications enabled are selected. */
  lemma {:induction false} OptedInMembers(users: seq<UserRow>)
    ensures forall u :: u in OptedIn(users) <==> u in users && u.notifsEnabled
    decreases |users|
  {
    if users != [] {
      OptedInMembers(users[1..]);
      assert users == [users[0]] + users[1..];
    }
  }

  /** The two most recent statuses, newest first, of a table kept in creation order. */
  function LatestTwo(table: seq<StatusEvent>): (r: seq<StatusEvent>)
    ensures |r| == if |table| < 2 then |table| else 2
    ensures forall i :: 0 <= i < |r| ==> r[i] == table[|table| - 1 - i]
  {
    if |table| == 0 then []
    else if |table| == 1 then [table[0]]
    else [table[|table| - 1], table[|table| - 2]]
  }

  /** The new cursor and the notifications to send. */
  datatype Plan = Plan(cursor: Option<int>, notifications: seq<Notification>)

  /** What a tick decides. `statuses` is the status table (None when reading it raises), `users` the
      user table (None when reading it raises); an exception is caught at the top of the job. */
  function TickPlan(cursor: Option<int>, statuses: Option<seq<StatusEvent>>, users: Option<seq<UserRow>>,
                    isNight: bool, languages: LangContainer): Plan
  {
    if statuses.None? then Plan(cursor, [])
    else
      var recent := LatestTwo(statuses.value);
      if recent == [] then Plan(cursor, [])
      else
        var latest := recent[0];
        var c := if cursor.None? then Some(latest.id) else cursor;
        if c == Some(latest.id) then Plan(c, [])
        else if |recent| < 2 || latest.value == recent[1].value then Plan(Some(latest.id), [])
        else if users.None? then Plan(c, [])
        else ChangePlan(latest, recent[1], users.value, isNight, languages)
  }

  /** The plan for a genuine change from `previous` to `latest`: one notification per opted-in user,
      and the cursor moves to `latest`. */
  function ChangePlan(latest: StatusEvent, previous: StatusEvent, users: seq<UserRow>, isNight: bool,
                      languages: LangContainer): Plan
  {
    var opted := OptedIn(users);
    var timeDiff := Some(TimedeltaSeconds(latest.createdAt - previous.createdAt));
    if opted == [] then Plan(Some(latest.id), [])
    else Plan(Some(latest.id), NotificationsFor(languages, opted, previous, latest, timeDiff, isNight))
  }

  /** Whether a tick sees a genuine, not yet notified change: the two most recent statuses differ
      and the newest is not the one the cursor points at (and the cursor is set). */
  predicate PendingChange(cursor: Option<int>, table: seq<StatusEvent>)
  {
    && |table| >= 2
    && cursor.Some?
    && cursor.value != table[|table| - 1].id
    && table[|table| - 1].value != table[|table| - 2].value
  }

  /** With no statuses, or when the statuses cannot be read, the tick keeps the cursor and sends
      nothing. */
  lemma NoStatusesNoop(cursor: Option<int>, statuses: Option<seq<StatusEvent>>, users: Option<seq<UserRow>>,
                       isNight: bool, languages: LangContainer)
    requires statuses.None? || statuses.value == []
    ensures TickPlan(cursor, statuses, users, isNight, languages) == Plan(cursor, [])
  {
  }

  /** Once the statuses are read, the cursor ends on the newest status, except when the user table
      cannot be read during a pending change, when it stays put so the change is retried. */
  lemma CursorAdvancesToLatest(cursor: Option<int>, table: seq<StatusEvent>, users: Option<seq<UserRow>>,
                               isNight: bool, languages: LangContainer)
    requires table != []
    ensures !(PendingChange(cursor, table) && users.None?) ==>
      TickPlan(cursor, Some(table), users, isNight, languages).cursor == Some(table[|table| - 1].id)
    ensures PendingChange(cursor, table) && users.None? ==>
      TickPlan(cursor, Some(table), users, isNight, languages) == Plan(cursor, [])
  {
  }

  /** The first tick after start only sets the cursor, so statuses recorded before start are never
      announced; and a tick whose newest status is the cursor's sends nothing and keeps the cursor. */
  lemma FirstTickAndSameIdSilent(cursor: Option<int>, table: seq<StatusEvent>, users: Option<seq<UserRow>>,
                                 isNight: bool, languages: LangContainer)
    requires table != []
    requires cursor.None? || cursor == Some(table[|table| - 1].id)
    ensures TickPlan(cursor, Some(table), users, isNight, languages) == Plan(Some(table[|table| - 1].id), [])
  {
  }

  /** A tick sends something exactly when there is a pending change, the users can be read and at
      least one of them has notifications enabled. */
  lemma BroadcastIff(cursor: Option<int>, table: seq<StatusEvent>, users: Option<seq<UserRow>>,
                     isNight: bool, languages: LangContainer)
    ensures TickPlan(cursor, Some(table), users, isNight, languages).notifications != [] <==>
      (PendingChange(cursor, table) && users.Some? && exists u :: u in users.value && u.notifsEnabled)
  {
    if PendingChange(cursor, table) && users.Some? {
      OptedInMembers(users.value);
      if exists u :: u in users.value && u.notifsEnabled {
        var u :| u in users.value && u.notifsEnabled;
        assert u in OptedIn(users.value);
      }
    }
  }

  /** On a genuine change the tick plans the notifications for the opted-in users, in order, for the
      change from the previous to the newest status, with the time between them taken modulo a day. */
  lemma OneNotificationPerOptedInUser(cursor: Option<int>, table: seq<StatusEvent>, users: seq<UserRow>,
                                      isNight: bool, languages: LangContainer)
    requires PendingChange(cursor, table)
    ensures var previous, latest := table[|table| - 2], table[|table| - 1];
      TickPlan(cursor, Some(table), Some(users), isNight, languages).notifications
        == NotificationsFor(languages, OptedIn(users), previous, latest,
                            Some(TimedeltaSeconds(latest.createdAt - previous.createdAt)), isNight)
  {
    var recent := LatestTwo(table);
    assert TickPlan(cursor, Some(table), Some(users), isNight, languages)
      == ChangePlan(recent[0], recent[1], users, isNight, languages);
  }

  /** Each planned notification goes to its user, in the user's language, silent exactly when it is
      night and the user turned night sound off, with the text for the change. */
  lemma NotificationsForSays(languages: LangContainer, users: seq<UserRow>, previous: StatusEvent, latest: StatusEvent,
                             timeDiff: Option<int>, isNight: bool)
    ensures var ns := NotificationsFor(languages, users, previous, latest, timeDiff, isNight);
      && |ns| == |users|
      && forall i :: 0 <= i < |ns| ==>
        && ns[i].userId == users[i].id
        && ns[i].lang == languages.FromLangcode(users[i].languageCode)
        && (ns[i].disableSound <==> isNight && !users[i].nightSoundEnabled)
        && ns[i].text == NotificationText(previous.value, latest.value, timeDiff)
  {
  }

  /** A second tick over the same statuses announces nothing: a change is notified at most once. */
  lemma NoRenotify(cursor: Option<int>, table: seq<StatusEvent>, users: Option<seq<UserRow>>, users2: Option<seq<UserRow>>,
                   isNight: bool, isNight2: bool, languages: LangContainer)
    requires TickPlan(cursor, Some(table), users, isNight, languages).notifications != []
    ensures var next := TickPlan(cursor, Some(table), users, isNight, languages).cursor;
      TickPlan(next, Some(table), users2, isNight2, languages).notifications == []
  {
    BroadcastIff(cursor, table, users, isNight, languages);
  }

  // ---------------------------------------------------------------------------
  // The job
  // ---------------------------------------------------------------------------

  /** Runs one send task per notification and collects how each ended; a failed task does not stop
      the others. Each task is the corrected send of `SendStatusNotification`. */
  method SendAll(api: SendRequest -> (nat -> Attempt<()>), notifications: seq<Notification>) returns (deliveries: seq<Delivery>)
    ensures |deliveries| == |notifications|
    ensures forall i :: 0 <= i < |deliveries| ==>
      deliveries[i] == Delivery(notifications[i], DeliveryOutcome(api, notifications[i]))
  {
    deliveries := [];
    var i := 0;
    while i < |notifications|
      invariant 0 <= i <= |notifications|
      invariant |deliveries| == i
      invariant forall j :: 0 <= j < i ==> deliveries[j] == Delivery(notifications[j], DeliveryOutcome(api, notifications[j]))
    {
      var r := SendStatusNotification(api, notifications[i]);
      deliveries := deliveries + [Delivery(notifications[i], r)];
      i := i + 1;
    }
  }

  /** The job's state between ticks: `bot_data["last_notified_status_id"]`. */
  class Notifier {
    var lastNotifiedStatusId: Option<int>

    constructor ()
      ensures lastNotifiedStatusId == None
    {
      lastNotifiedStatusId := None;
    }

    /** One tick. The cursor moves as the tick's plan says whatever happens to the sends: each send
        failure is caught inside its own task. The sends are the corrected ones of
        `SendStatusNotification`; as written every one of them fails, which changes the deliveries
        but neither the plan nor the cursor. */
    method CheckAndSendNotifications(statuses: Option<seq<StatusEvent>>, users: Option<seq<UserRow>>, isNight: bool,
                                     languages: LangContainer, api: SendRequest -> (nat -> Attempt<()>))
      returns (deliveries: seq<Delivery>)
      modifies this
      ensures var plan := TickPlan(old(lastNotifiedStatusId), statuses, users, isNight, languages);
        && lastNotifiedStatusId == plan.cursor
        && |deliveries| == |plan.notifications|
        && forall i :: 0 <= i < |deliveries| ==>
             deliveries[i] == Delivery(plan.notifications[i], DeliveryOutcome(api, plan.notifications[i]))
    {
      ghost var plan := TickPlan(lastNotifiedStatusId, statuses, users, isNight, languages);
      deliveries := [];
      if statuses.None? {
        return;
      }
      var recent := LatestTwo(statuses.value);
      if recent == [] {
        return;
      }
      var latest := recent[0];
      if lastNotifiedStatusId.None? {
        lastNotifiedStatusId := Some(latest.id);
      }
      if lastNotifiedStatusId == Some(latest.id) {
        return;
      }
      if |recent| < 2 || latest.value == recent[1].value {
        lastNotifiedStatusId := Some(latest.id);
        return;
      }
      if users.None? {
        return;
      }
      var opted := OptedIn(users.value);
      if opted == [] {
        lastNotifiedStatusId := Some(latest.id);
        return;
      }
      var previous := recent[1];
      var timeDiff := Some(TimedeltaSeconds(latest.createdAt - previous.createdAt));
      var notifications := NotificationsFor(languages, opted, previous, latest, timeDiff, isNight);
      assert notifications == plan.notifications;
      deliveries := SendAll(api, notifications);
      lastNotifiedStatusId := Some(latest.id);
    }
  }
}
