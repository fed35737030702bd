/** The bot's helpers: the night window, the generator schedule lookups, the completion text of the
    registration flow, the registration keys of a user's conversation context, and the identity
    string used in log lines. (The send retry lives in module Retry.) */
module BotUtils {
  import opened Common
  import opened Constants
  import opened Models

  // ---------------------------------------------------------------------------
  // Night window
  // ---------------------------------------------------------------------------

  /** Night is from 22:00 until 08:00, given the Kyiv-time hour. */
  predicate IsNighttime(hour: int)
  {
    hour >= NightStartHour || hour < NightEndHour
  }

  /** Over a day, night is the ten hours that follow 22:00, wrapping past midnight. */
  lemma NighttimeIsTenHoursFromTwentyTwo(hour: int)
    requires 0 <= hour < 24
    ensures IsNighttime(hour) <==> (hour - NightStartHour) % 24 < 24 - NightStartHour + NightEndHour
  {
    if hour >= NightStartHour {
      assert (hour - NightStartHour) % 24 == hour - NightStartHour;
    } else {
      assert (hour - NightStartHour) % 24 == hour + 24 - NightStartHour;
    }
  }

  // ---------------------------------------------------------------------------
  // Generator schedule
  // ---------------------------------------------------------------------------

  /** The table for a day given its weekday (Monday is 0): the weekend table on days 5 and 6. */
  function GenScheduleForDate(weekday: int): seq<Interval>
  {
    if weekday >= 5 then GenWorktimeScheduleWeekend else GenWorktimeScheduleWeekday
  }

  /** Either table tiles the day and alternates break and work; the weekend table is chosen exactly
      on weekdays 5 and 6, which is where the first work interval starts at 07:00 instead of 06:30. */
  lemma GenScheduleForDateShape(weekday: int)
    ensures TilesDay(GenScheduleForDate(weekday)) && Alternates(GenScheduleForDate(weekday))
    ensures |GenScheduleForDate(weekday)| == 10
    ensures GenScheduleForDate(weekday)[1].start == (if weekday >= 5 then 7 * 60 else 6 * 60 + 30)
  {
    WeekdayTilesDay();
    WeekendTilesDay();
    WeekdayAlternates();
    WeekendAlternates();
  }

  /** The minute of the day the lookups use. */
  function MinuteOfDay(hour: int, minute: int): int { hour * MinsInHour + minute }

  /** The index of the first row whose [start, end) holds minute `m`, as the lookup loops scan. */
  function FindInterval(s: seq<Interval>, m: int): (r: Option<nat>)
    ensures r.Some? ==> r.value < |s| && s[r.value].start <= m < s[r.value].end
    ensures r.Some? ==> forall j :: 0 <= j < r.value ==> !(s[j].start <= m < s[j].end)
    ensures r.None? ==> forall j :: 0 <= j < |s| ==> !(s[j].start <= m < s[j].end)
    decreases |s|
  {
    if s == [] then None
    else if s[0].start <= m < s[0].end then Some(0)
    else
      match FindInterval(s[1..], m)
      case None => None
      case Some(i) => Some(i + 1)
  }

  /** Whether the generator should be running at the given time; false when no row matches. */
  function GeneratorScheduleStatus(weekday: int, hour: int, minute: int): bool
  {
    var s := GenScheduleForDate(weekday);
    match FindInterval(s, MinuteOfDay(hour, minute))
    case Some(i) => s[i].isOn
    case None => false
  }

  /** Minutes until the schedule next switches (the `timedelta` in minutes); zero when no row matches. */
  function GeneratorTimeToNextSwitch(weekday: int, hour: int, minute: int): int
  {
    var s := GenScheduleForDate(weekday);
    var m := MinuteOfDay(hour, minute);
    match FindInterval(s, m)
    case Some(i) => s[i].end - m
    case None => 0
  }

  /** For any valid clock time the lookups find a row, so neither safety fallback is reached. Both
      lookups are determined by the one row that holds the minute: the status is that row's flag and
      the time to the switch is what remains of it, more than zero and at most the row's length. */
  lemma ScheduleLookupsTotal(weekday: int, hour: int, minute: int)
    requires 0 <= hour < 24 && 0 <= minute < 60
    ensures FindInterval(GenScheduleForDate(weekday), MinuteOfDay(hour, minute)).Some?
    ensures forall i ::
      (0 <= i < |GenScheduleForDate(weekday)|
       && GenScheduleForDate(weekday)[i].start <= MinuteOfDay(hour, minute) < GenScheduleForDate(weekday)[i].end) ==>
      && GeneratorScheduleStatus(weekday, hour, minute) == GenScheduleForDate(weekday)[i].isOn
      && GeneratorTimeToNextSwitch(weekday, hour, minute) == GenScheduleForDate(weekday)[i].end - MinuteOfDay(hour, minute)
      && 0 < GeneratorTimeToNextSwitch(weekday, hour, minute) <= GenScheduleForDate(weekday)[i].end - GenScheduleForDate(weekday)[i].start
  {
    var s := GenScheduleForDate(weekday);
    var m := MinuteOfDay(hour, minute);
    GenScheduleForDateShape(weekday);
    ChainCovers(s, 0, MinutesInDay, m);
    forall i | 0 <= i < |s| && s[i].start <= m < s[i].end
      ensures GeneratorScheduleStatus(weekday, hour, minute) == s[i].isOn
      ensures GeneratorTimeToNextSwitch(weekday, hour, minute) == s[i].end - m
    {
      ChainUnique(s, 0, MinutesInDay, m, i, FindInterval(s, m).value);
    }
  }

  /** The schedule keeps its status until the reported switch, and (unless the switch is midnight)
      the status at the switch minute is the opposite one. `hour2:minute2` is the clock time `d`
      minutes later on the same day. */
  lemma ScheduleSwitchesWhenReported(weekday: int, hour: int, minute: int, d: int, hour2: int, minute2: int)
    requires 0 <= hour < 24 && 0 <= minute < 60 && 0 <= hour2 < 24 && 0 <= minute2 < 60
    requires MinuteOfDay(hour2, minute2) == MinuteOfDay(hour, minute) + d
    requires 0 <= d <= GeneratorTimeToNextSwitch(weekday, hour, minute)
    ensures d < GeneratorTimeToNextSwitch(weekday, hour, minute) ==>
      GeneratorScheduleStatus(weekday, hour2, minute2) == GeneratorScheduleStatus(weekday, hour, minute)
    ensures d == GeneratorTimeToNextSwitch(weekday, hour, minute) ==>
      GeneratorScheduleStatus(weekday, hour2, minute2) != GeneratorScheduleStatus(weekday, hour, minute)
  {
    GenScheduleForDateShape(weekday);
    SwitchInTable(GenScheduleForDate(weekday), MinuteOfDay(hour, minute), MinuteOfDay(hour2, minute2));
  }

  /** In a table that tiles the day and alternates, a later minute lies in the same row while it is
      before the row's end, and the row's end minute (when inside the day) lies in the next row,
      whose flag is the opposite. */
  lemma SwitchInTable(s: seq<Interval>, m: int, m2: int)
    requires TilesDay(s) && Alternates(s) && 0 <= m <= m2 < MinutesInDay
    ensures FindInterval(s, m).Some? && FindInterval(s, m2).Some?
    ensures m2 < s[FindInterval(s, m).value].end ==> s[FindInterval(s, m2).value].isOn == s[FindInterval(s, m).value].isOn
    ensures m2 == s[FindInterval(s, m).value].end ==> s[FindInterval(s, m2).value].isOn != s[FindInterval(s, m).value].isOn
  {
    ChainCovers(s, 0, MinutesInDay, m);
    ChainCovers(s, 0, MinutesInDay, m2);
    var i, j := FindInterval(s, m).value, FindInterval(s, m2).value;
    if m2 < s[i].end {
      ChainUnique(s, 0, MinutesInDay, m2, i, j);
    } else if m2 == s[i].end {
      ChainAdjacent(s, 0, MinutesInDay, i);
      ChainAdjacent(s, 0, MinutesInDay, i + 1);
      ChainUnique(s, 0, MinutesInDay, m2, i + 1, j);
    }
  }

  // ---------------------------------------------------------------------------
  // Completion text of the registration flow
  // ---------------------------------------------------------------------------

  const SpeakerEmoji := "\U{1F50A}"
  const MutedSpeakerEmoji := "\U{1F507}"

  /** The closing text of registration or reconfiguration, given the user's choices so far. */
  function CompletionMessage(isReconfiguration: bool, notificationsEnabled: bool, nightSoundEnabled: Option<bool>): seq<Token>
  {
    if !notificationsEnabled then
      if isReconfiguration then [Key(MsgNotifsDisabled)]
      else [Key(MsgNotifsDisabled), Lit("\n\n"), Key(MsgRegistrationCompleted)]
    else if nightSoundEnabled.Some? then
      var on := nightSoundEnabled.value;
      [Key(MsgNotifNightSound), Lit(" "), Key(if on then WordEnabledLower else WordDisabledLower),
       Lit(" " + (if on then SpeakerEmoji else MutedSpeakerEmoji) + "\n\n"),
       Key(if isReconfiguration then MsgSettingsUpdated else MsgRegistrationCompleted)]
    else []
  }

  /** What the completion text says:
      it is empty exactly when notifications are on and no night-sound choice was given;
      it reports notifications off exactly when they are off, and then nothing about night sound;
      it reports the night-sound choice, enabled or disabled, exactly as given;
      a first registration always ends with "registration completed", a reconfiguration never says it
      and says "settings updated" exactly when it reports a night-sound choice; a reconfiguration
      that turns notifications off gets the "notifications disabled" text alone. */
  lemma CompletionMessageSays(isReconfiguration: bool, notificationsEnabled: bool, nightSoundEnabled: Option<bool>)
    ensures CompletionMessage(isReconfiguration, notificationsEnabled, nightSoundEnabled) == [] <==>
      (notificationsEnabled && nightSoundEnabled.None?)
    ensures Key(MsgNotifsDisabled) in CompletionMessage(isReconfiguration, notificationsEnabled, nightSoundEnabled) <==>
      !notificationsEnabled
    ensures Key(MsgNotifNightSound) in CompletionMessage(isReconfiguration, notificationsEnabled, nightSoundEnabled) <==>
      (notificationsEnabled && nightSoundEnabled.Some?)
    ensures Key(WordEnabledLower) in CompletionMessage(isReconfiguration, notificationsEnabled, nightSoundEnabled) <==>
      (notificationsEnabled && nightSoundEnabled == Some(true))
    ensures Key(WordDisabledLower) in CompletionMessage(isReconfiguration, notificationsEnabled, nightSoundEnabled) <==>
      (notificationsEnabled && nightSoundEnabled == Some(false))
    ensures CompletionMessage(isReconfiguration, notificationsEnabled, nightSoundEnabled) != [] ==>
      ((CompletionMessage(isReconfiguration, notificationsEnabled, nightSoundEnabled)[|CompletionMessage(isReconfiguration, notificationsEnabled, nightSoundEnabled)| - 1]
        == Key(MsgRegistrationCompleted)) <==> !isReconfiguration)
    ensures Key(MsgSettingsUpdated) in CompletionMessage(isReconfiguration, notificationsEnabled, nightSoundEnabled) <==>
      (isReconfiguration && notificationsEnabled && nightSoundEnabled.Some?)
    ensures isReconfiguration && !notificationsEnabled ==>
      CompletionMessage(isReconfiguration, notificationsEnabled, nightSoundEnabled) == [Key(MsgNotifsDisabled)]
  {
  }

  // ---------------------------------------------------------------------------
  // Conversation context
  // ---------------------------------------------------------------------------

  /** A value kept in `context.user_data`. */
  datatype CtxValue = IntValue(i: int) | BoolValue(b: bool)

  const RegisteringUserIdKey := "registering_user_id"
  const IsReconfigurationKey := "is_reconfiguration"

  /** Python truthiness of a stored value. */
  predicate Truthy(v: CtxValue)
  {
    match v
    case IntValue(i) => i != 0
    case BoolValue(b) => b
  }

  /** The user id a stored value stands for in a query (a Python bool is the integer 0 or 1). */
  function StoredUserId(v: CtxValue): int
  {
    match v
    case IntValue(i) => i
    case BoolValue(b) => if b then 1 else 0
  }

  /** The per-user conversation data the handlers keep between updates. */
  class UserContext {
    var data: map<string, CtxValue>

    constructor ()
      ensures data == map[]
    {
      data := map[];
    }

    /** `user_data.get("registering_user_id")`. */
    function RegisteringUserId(): (r: Option<CtxValue>)
      reads this
      ensures r.Some? <==> RegisteringUserIdKey in data
      ensures r.Some? ==> r.value == data[RegisteringUserIdKey]
    {
      if RegisteringUserIdKey in data then Some(data[RegisteringUserIdKey]) else None
    }

    /** `user_data.get("is_reconfiguration", False)`, read for its truth value. */
    function IsReconfiguration(): (r: bool)
      reads this
      ensures r <==> (IsReconfigurationKey in data && Truthy(data[IsReconfigurationKey]))
    {
      IsReconfigurationKey in data && Truthy(data[IsReconfigurationKey])
    }

    /** Ends the registration or reconfiguration flow: removes both registration keys, keeps every
        other entry, and reports which flow the completion log line names. */
    method CleanupRegistrationContext(userIdentity: string) returns (wasReconfiguration: bool)
      modifies this
      ensures wasReconfiguration == old(IsReconfiguration())
      ensures data == old(data) - {RegisteringUserIdKey, IsReconfigurationKey}
      ensures RegisteringUserIdKey !in data && IsReconfigurationKey !in data
      ensures forall k :: k in old(data) && k != RegisteringUserIdKey && k != IsReconfigurationKey ==>
        k in data && data[k] == old(data)[k]
    {
      wasReconfiguration := IsReconfiguration();
      data := data - {RegisteringUserIdKey};
      data := data - {IsReconfigurationKey};
    }
  }

  // ---------------------------------------------------------------------------
  // Identity string for log lines
  // ---------------------------------------------------------------------------

  const UnknownIdentity := "Unknown(null)"

  /** The name shown for a user: the username, or "User" when it is missing or empty. */
  function DisplayUsername(user: TgUser): (r: string)
    ensures r != []
    ensures user.username.Some? && user.username.value != [] ==> r == user.username.value
  {
    if user.username.Some? && user.username.value != [] then user.username.value else "User"
  }

  /** "username(id)" for a known user. */
  function UserIdentity(user: TgUser): string
  {
    DisplayUsername(user) + "(" + IntToString(user.id) + ")"
  }

  function IdentityFromUpdate(effectiveUser: Option<TgUser>): string
  {
    if effectiveUser.None? then UnknownIdentity else UserIdentity(effectiveUser.value)
  }

  function IdentityFromQuery(query: Option<CallbackQuery>): string
  {
    if query.None? || query.value.fromUser.None? then UnknownIdentity else UserIdentity(query.value.fromUser.value)
  }

  /** The identity of a known user is never mistaken for the missing-user text (its last character
      before the closing parenthesis is a digit, not 'l'), and after the name it carries the user's id
      in parentheses. */
  lemma {:induction false} IdentityOfKnownUser(user: TgUser)
    ensures IdentityFromUpdate(Some(user)) != UnknownIdentity
    ensures "(" + IntToString(user.id) + ")" <= IdentityFromUpdate(Some(user))[|DisplayUsername(user)|..]
  {
    var r := IdentityFromUpdate(Some(user));
    var digits := IntToString(user.id);
    assert r == DisplayUsername(user) + "(" + digits + ")";
    assert r[|r| - 2] == digits[|digits| - 1];
    assert UnknownIdentity[|UnknownIdentity| - 2] == 'l';
    assert r[|DisplayUsername(user)|..] == "(" + digits + ")";
  }

  /** The query form agrees with the update form for the user who pressed the button, and a missing
      query reads like a missing user. */
  lemma IdentityFromQueryAgrees(query: Option<CallbackQuery>)
    ensures query.Some? ==> IdentityFromQuery(query) == IdentityFromUpdate(query.value.fromUser)
    ensures query.None? ==> IdentityFromQuery(query) == IdentityFromUpdate(None)
  {
  }
}
