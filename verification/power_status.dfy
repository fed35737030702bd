/** The "power status" button: the latest power status, when it was recorded and how long ago. */
module PowerStatus {
  import opened Common
  import opened Models
  import opened Elapsed
  import opened LangPack
  import opened Replies

  /** How long the current state has lasted: absent when the difference is zero, otherwise the
      state's header and the phrase on the next line. */
  function TimeSince(isOn: bool, timeDiff: int): seq<Token>
  {
    match Phrase(Some(timeDiff))
    case None => []
    case Some(span) => [Key(if isOn then MsgTimeSincePowerOn else MsgTimeSinceShutdown), Lit("\n")] + Render(span)
  }

  /** The block is there exactly for a non-zero difference; it names the state and reads back as the
      phrase of the whole difference, which is not cut to a day. */
  lemma TimeSinceSays(isOn: bool, timeDiff: int)
    ensures var b := TimeSince(isOn, timeDiff);
      && (b == [] <==> timeDiff == 0)
      && (b != [] ==>
            && |b| > 2
            && b[0] == Key(if isOn then MsgTimeSincePowerOn else MsgTimeSinceShutdown)
            && b[1] == Lit("\n")
            && Parse(b[2..]) == Phrase(Some(timeDiff)))
  {
    var b := TimeSince(isOn, timeDiff);
    if timeDiff != 0 {
      var span := Phrase(Some(timeDiff)).value;
      assert b[2..] == Render(span);
      ParseRender(span);
    }
  }

  /** The status text for the latest power status, `now` being the current Unix time. */
  function StatusText(latest: StatusEvent, now: int): seq<Token>
  {
    [Key(if latest.value then MsgPowerIsOn else MsgPowerIsOff), Lit("\n\n"),
     Key(if latest.value then MsgPowerTurnOnTime else MsgPowerTurnOffTime), Lit("\n"),
     Timestamp(latest.createdAt), Lit(" \n\n")]
    + TimeSince(latest.value, now - latest.createdAt)
  }

  /** The text names the state twice (state and the label of the time it began), shows when the
      status was recorded, and ends with the time-since block of the whole elapsed time. */
  lemma StatusTextSays(latest: StatusEvent, now: int)
    ensures var t := StatusText(latest, now);
      && |t| >= 6
      && (t[0] == Key(MsgPowerIsOn) <==> latest.value)
      && (t[0] == Key(MsgPowerIsOff) <==> !latest.value)
      && (t[2] == Key(MsgPowerTurnOnTime) <==> latest.value)
      && (t[2] == Key(MsgPowerTurnOffTime) <==> !latest.value)
      && t[4] == Timestamp(latest.createdAt)
      && t[6..] == TimeSince(latest.value, now - latest.createdAt)
  {
  }

  /** The handler, with the missing-status case handled: no reply without a user; the
      "not available" text when there is no power status; otherwise the status text in MarkdownV2. */
  function PowerStatusReply(languages: LangContainer, effectiveUser: Option<TgUser>,
                            latest: Option<StatusEvent>, now: int): (r: Outcome)
    ensures effectiveUser.None? <==> r == Done([])
    ensures effectiveUser.Some? ==>
      && r.Done? && |r.replies| == 1
      && r.replies[0].channel == NewMessage
      && r.replies[0].markup == MainKeyboard
      && r.replies[0].lang == languages.FromLangcode(effectiveUser.value.languageCode)
      && (r.replies[0].text == [Key(MsgPowerStatusNotAvailable)] <==> latest.None?)
      && (r.replies[0].markdown <==> latest.Some?)
  {
    if effectiveUser.None? then Done([])
    else
      var lang := languages.FromLangcode(effectiveUser.value.languageCode);
      match latest
      case None => Done([Say(lang, [Key(MsgPowerStatusNotAvailable)], MainKeyboard)])
      case Some(e) => Done([Reply(NewMessage, lang, StatusText(e, now), MainKeyboard, true)])
  }

  /** The handler as written: the log line ahead of the None check reads the status's fields, so a
      missing status raises AttributeError before any reply. */
  function PowerStatusReplyAsWritten(languages: LangContainer, effectiveUser: Option<TgUser>,
                                     latest: Option<StatusEvent>, now: int): Outcome
  {
    if effectiveUser.None? then Done([])
    else if latest.None? then Raised("AttributeError")
    else PowerStatusReply(languages, effectiveUser, latest, now)
  }

  /** As written, the "not available" reply is never sent: a user asking while the table is empty
      gets an exception instead, and with a status present the two versions agree. */
  lemma NotAvailableUnreachableAsWritten(languages: LangContainer, effectiveUser: Option<TgUser>,
                                         latest: Option<StatusEvent>, now: int)
    ensures var r := PowerStatusReplyAsWritten(languages, effectiveUser, latest, now);
      && (effectiveUser.Some? && latest.None? ==> r == Raised("AttributeError"))
      && (r.Done? ==> forall i :: 0 <= i < |r.replies| ==> r.replies[i].text != [Key(MsgPowerStatusNotAvailable)])
      && (latest.Some? ==> r == PowerStatusReply(languages, effectiveUser, latest, now))
  {
    var r := PowerStatusReplyAsWritten(languages, effectiveUser, latest, now);
    if effectiveUser.Some? && latest.Some? {
      assert r.replies[0].text == StatusText(latest.value, now);
      StatusTextSays(latest.value, now);
    }
  }
}
