/** The "generator status" button: whether the generator runs, whether that matches the work-time
    schedule, and how long until the schedule next switches. */
module GenStatus {
  import opened Common
  import opened Constants
  import opened Models
  import opened Elapsed
  import opened LangPack
  import opened BotUtils
  import opened Replies

  /** The minutes to the next switch as the handler derives them: the `seconds` of the timedelta,
      floor-divided by 60. */
  function NextSwitchMinutes(weekday: int, hour: int, minute: int): int
  {
    TimedeltaSeconds(GeneratorTimeToNextSwitch(weekday, hour, minute) * SecsInMinute) / SecsInMinute
  }

  /** The warning shown when the generator's state differs from the schedule's. */
  function Mismatch(genOn: bool, schedOn: bool): seq<Token>
  {
    if genOn == schedOn then []
    else [Key(if genOn then MsgGenShouldBeOff else MsgGenShouldBeOn), Lit("\n\n")]
  }

  /** The if/elif chain over the generator's state and the schedule's, with its fallback. */
  function GenMessage(genOn: bool, schedOn: bool, nextSwitch: seq<Token>): seq<Token>
  {
    if genOn && schedOn then
      [Key(MsgGenOn), Lit("\n\n"), Key(MsgGenTimeTillOff), Lit(" ")] + nextSwitch
    else if genOn && !schedOn then
      [Key(MsgGenOn), Lit("\n\n"), Key(MsgGenShouldBeOff), Lit("\n\n"), Key(MsgGenTimeTillOn), Lit(" ")] + nextSwitch
    else if !genOn && schedOn then
      [Key(MsgGenOff), Lit("\n\n"), Key(MsgGenShouldBeOn), Lit("\n\n"), Key(MsgGenTimeTillOff), Lit(" ")] + nextSwitch
    else if !genOn && !schedOn then
      [Key(MsgGenOff), Lit("\n\n"), Key(MsgGenTimeTillOn), Lit(" ")] + nextSwitch
    else
      [Lit("Error")]
  }

  /** The four cases are exhaustive, so the "Error" text is never produced: the message states the
      generator's state, warns exactly when it disagrees with the schedule, and then gives the time
      until the schedule turns off (when it says on) or on (when it says off). */
  lemma GenMessageCases(genOn: bool, schedOn: bool, nextSwitch: seq<Token>)
    ensures GenMessage(genOn, schedOn, nextSwitch)
      == [Key(if genOn then MsgGenOn else MsgGenOff), Lit("\n\n")]
         + Mismatch(genOn, schedOn)
         + [Key(if schedOn then MsgGenTimeTillOff else MsgGenTimeTillOn), Lit(" ")]
         + nextSwitch
    ensures GenMessage(genOn, schedOn, nextSwitch) != [Lit("Error")]
  {
  }

  /** No row of either table lasts a whole day. */
  lemma RowsShorterThanDay(weekday: int)
    ensures forall i :: 0 <= i < |GenScheduleForDate(weekday)| ==>
      GenScheduleForDate(weekday)[i].end - GenScheduleForDate(weekday)[i].start < MinutesInDay
  {
  }

  /** At a valid clock time the timedelta's `seconds` keep the whole time to the switch, so the
      minutes shown are the minutes the schedule reports. */
  lemma NextSwitchMinutesExact(weekday: int, hour: int, minute: int)
    requires 0 <= hour < 24 && 0 <= minute < 60
    ensures NextSwitchMinutes(weekday, hour, minute) == GeneratorTimeToNextSwitch(weekday, hour, minute)
    ensures 0 < NextSwitchMinutes(weekday, hour, minute) < MinutesInDay
  {
    var s := GenScheduleForDate(weekday);
    var m := MinuteOfDay(hour, minute);
    ScheduleLookupsTotal(weekday, hour, minute);
    RowsShorterThanDay(weekday);
    var i := FindInterval(s, m).value;
    var t := GeneratorTimeToNextSwitch(weekday, hour, minute);
    assert 0 < t < MinutesInDay;
    assert TimedeltaSeconds(t * SecsInMinute) == t * SecsInMinute;
  }

  /** The handler: no reply without a user; "not required" while the power is on, without looking
      at the generator; no reply when the generator has no status; otherwise the generator message in
      MarkdownV2. `check_generator_schedule` is taken to be the pair of schedule lookups. */
  function GenStatusReply(languages: LangContainer, effectiveUser: Option<TgUser>,
                          latestPower: Option<StatusEvent>, latestGen: Option<StatusEvent>,
                          weekday: int, hour: int, minute: int): (r: Outcome)
    ensures r.Done? && |r.replies| <= 1
    ensures effectiveUser.None? ==> r == Done([])
    ensures |r.replies| == 1 ==>
      && effectiveUser.Some?
      && r.replies[0].channel == NewMessage
      && r.replies[0].markup == MainKeyboard
      && r.replies[0].lang == languages.FromLangcode(effectiveUser.value.languageCode)
  {
    if effectiveUser.None? then Done([])
    else
      var lang := languages.FromLangcode(effectiveUser.value.languageCode);
      if latestPower.Some? && latestPower.value.value then
        Done([Say(lang, [Key(MsgGenNotRequired)], MainKeyboard)])
      else if latestGen.None? then Done([])
      else
        var nextSwitch := Render(SplitMinutes(NextSwitchMinutes(weekday, hour, minute)));
        var message := GenMessage(latestGen.value.value, GeneratorScheduleStatus(weekday, hour, minute), nextSwitch);
        Done([Reply(NewMessage, lang, message, MainKeyboard, true)])
  }

  /** While the power is on the reply is "generator not required", whatever the generator's status
      and the time; with the power off or unknown, a missing generator status means no reply. */
  lemma GenStatusGates(languages: LangContainer, user: TgUser, latestPower: Option<StatusEvent>,
                       latestGen: Option<StatusEvent>, weekday: int, hour: int, minute: int)
    ensures latestPower.Some? && latestPower.value.value ==>
      GenStatusReply(languages, Some(user), latestPower, latestGen, weekday, hour, minute)
        == Done([Say(languages.FromLangcode(user.languageCode), [Key(MsgGenNotRequired)], MainKeyboard)])
    ensures !(latestPower.Some? && latestPower.value.value) ==>
      ((GenStatusReply(languages, Some(user), latestPower, latestGen, weekday, hour, minute) == Done([]))
       <==> latestGen.None?)
  {
  }

  /** With the power off or unknown and a generator status present, the reply at a valid clock time
      is the four-way message for the generator's state against the schedule, and its last part
      reads back as the phrase of exactly the minutes to the next switch. */
  lemma GenStatusReplySays(languages: LangContainer, user: TgUser, latestPower: Option<StatusEvent>,
                           gen: StatusEvent, weekday: int, hour: int, minute: int)
    requires 0 <= hour < 24 && 0 <= minute < 60
    requires !(latestPower.Some? && latestPower.value.value)
    ensures var r := GenStatusReply(languages, Some(user), latestPower, Some(gen), weekday, hour, minute);
      var sched := GeneratorScheduleStatus(weekday, hour, minute);
      var prefix := [Key(if gen.value then MsgGenOn else MsgGenOff), Lit("\n\n")]
                    + Mismatch(gen.value, sched)
                    + [Key(if sched then MsgGenTimeTillOff else MsgGenTimeTillOn), Lit(" ")];
      && |r.replies| == 1 && r.replies[0].markdown
      && r.replies[0].text[..|prefix|] == prefix
      && Parse(r.replies[0].text[|prefix|..]) == Some(SplitMinutes(GeneratorTimeToNextSwitch(weekday, hour, minute)))
  {
    var sched := GeneratorScheduleStatus(weekday, hour, minute);
    var span := SplitMinutes(NextSwitchMinutes(weekday, hour, minute));
    NextSwitchMinutesExact(weekday, hour, minute);
    GenMessageCases(gen.value, sched, Render(span));
    ParseRender(span);
  }
}
