/** The /msgAll admin command: forwards the admin's text to every other user and reports how many
    users the table holds. */
module MsgAllCommand {
  import opened Common
  import opened Models
  import opened LangPack
  import opened Retry
  import opened Users
  import opened Replies

  const MsgAllPrefix := "/msgAll "

  /** The text to forward: the command text with every "/msgAll " removed. */
  function AdminMessage(commandText: string): (r: string)
    ensures |r| <= |commandText|
  {
    RemoveAll(commandText, MsgAllPrefix)
  }

  /** For a body in which "/msgAll " does not occur, the forwarded text is exactly the body typed
      after the command. */
  lemma AdminMessageOfCommand(body: string)
    requires !Contains(body, MsgAllPrefix)
    ensures AdminMessage(MsgAllPrefix + body) == body
  {
    var s := MsgAllPrefix + body;
    assert MsgAllPrefix <= s;
    assert s[|MsgAllPrefix|..] == body;
    RemoveAllNoOccurrence(body, MsgAllPrefix);
  }

  /** Every user except the sender, in table order. */
  function Recipients(allUsers: seq<UserRow>, senderId: int): (r: seq<UserRow>)
    ensures forall i :: 0 <= i < |r| ==> r[i].id != senderId
    ensures |r| <= |allUsers|
    decreases |allUsers|
  {
    if allUsers == [] then []
    else (if allUsers[0].id != senderId then [allUsers[0]] else []) + Recipients(allUsers[1..], senderId)
  }

  /** Exactly the users other than the sender receive the message. */
  lemma {:induction false} RecipientsMembers(allUsers: seq<UserRow>, senderId: int)
    ensures forall u :: u in Recipients(allUsers, senderId) <==> u in allUsers && u.id != senderId
    decreases |allUsers|
  {
    if allUsers != [] {
      RecipientsMembers(allUsers[1..], senderId);
      assert allUsers == [allUsers[0]] + allUsers[1..];
    }
  }

  /** Without the sender in the table, everyone receives the message. */
  lemma {:induction false} RecipientsWithoutSender(allUsers: seq<UserRow>, senderId: int)
    requires forall i :: 0 <= i < |allUsers| ==> allUsers[i].id != senderId
    ensures Recipients(allUsers, senderId) == allUsers
    decreases |allUsers|
  {
    if allUsers != [] {
      RecipientsWithoutSender(allUsers[1..], senderId);
      assert allUsers == [allUsers[0]] + allUsers[1..];
    }
  }

  /** With distinct ids and the sender in the table, one user fewer than the table holds receives it. */
  lemma {:induction false} RecipientsCount(allUsers: seq<UserRow>, senderId: int)
    requires UniqueIds(allUsers) && FindUser(allUsers, senderId).Some?
    ensures |Recipients(allUsers, senderId)| == |allUsers| - 1
    decreases |allUsers|
  {
    var tail := allUsers[1..];
    assert UniqueIds(tail) by {
      forall i, j | 0 <= i < |tail| && 0 <= j < |tail| && tail[i].id == tail[j].id
        ensures i == j
      {
        assert allUsers[i + 1].id == allUsers[j + 1].id;
      }
    }
    if allUsers[0].id == senderId {
      forall i | 0 <= i < |tail|
        ensures tail[i].id != senderId
      {
        assert allUsers[i + 1].id != allUsers[0].id;
      }
      RecipientsWithoutSender(tail, senderId);
    } else {
      RecipientsCount(tail, senderId);
    }
  }

  /** The text of the final report. */
  function Report(count: int): seq<Token>
  {
    [Lit("Message successfully sent to "), Num(count), Lit(" users")]
  }

  /** `msg_all`: nothing happens unless the sender is a known admin; then each other user gets the
      forwarded text (with sound, in MarkdownV2, the sender's default), every failure is kept as a result rather than raised,
      and the report counts all users of the table, the sender included, so with distinct ids it
      reports one more than the number of messages sent. */
  method MsgAll(languages: LangContainer, effectiveUser: Option<TgUser>, commandText: string, users: UserTable,
                api: SendRequest -> (nat -> Attempt<()>))
    returns (outcome: Outcome, deliveries: seq<SendResult>)
    ensures effectiveUser.None? ==> outcome == Done([]) && deliveries == []
    ensures effectiveUser.Some? && (users.GetUserFromDb(effectiveUser.value.id).None? || !users.GetUserFromDb(effectiveUser.value.id).value.isAdmin) ==>
      outcome == Done([]) && deliveries == []
    ensures effectiveUser.Some? && users.GetUserFromDb(effectiveUser.value.id).Some? && users.GetUserFromDb(effectiveUser.value.id).value.isAdmin ==>
      var recipients := Recipients(users.rows, effectiveUser.value.id);
      && outcome == Done([Say(languages.FromLangcode(effectiveUser.value.languageCode), Report(|users.rows|), MainKeyboard)])
      && |deliveries| == |recipients|
      && (forall i :: 0 <= i < |deliveries| ==>
            deliveries[i] == SendResultOf(RetryOutcomeOf(SendPolicy,
                               api(MessageRequest(recipients[i].id, [Lit(AdminMessage(commandText))], false, true)),
                               IsRetryableTelegramException)))
      && (users.Valid() ==> |deliveries| + 1 == |users.rows|)
  {
    deliveries := [];
    if effectiveUser.None? {
      return Done([]), [];
    }
    var user := effectiveUser.value;
    var lang := languages.FromLangcode(user.languageCode);
    var existing := users.GetUserFromDb(user.id);
    if existing.None? || !existing.value.isAdmin {
      return Done([]), [];
    }
    var allUsers := users.rows;
    var message := AdminMessage(commandText);
    var recipients := Recipients(allUsers, user.id);
    var i := 0;
    while i < |recipients|
      invariant 0 <= i <= |recipients|
      invariant |deliveries| == i
      invariant forall j :: 0 <= j < i ==>
        deliveries[j] == SendResultOf(RetryOutcomeOf(SendPolicy,
                           api(MessageRequest(recipients[j].id, [Lit(message)], false, true)),
                           IsRetryableTelegramException))
    {
      var r := SendMessageWithRetry(api, recipients[i].id, [Lit(message)], false, true);
      deliveries := deliveries + [r];
      i := i + 1;
    }
    if users.Valid() {
      RecipientsCount(allUsers, user.id);
    }
    outcome := Done([Say(lang, Report(|allUsers|), MainKeyboard)]);
  }
}
