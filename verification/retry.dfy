/** Error classification and the bounded retry-with-backoff policy used around outgoing Telegram
    messages (and, with other parameters, around device reads in the scheduler). */
module Retry {
  import opened Common

  // ---------------------------------------------------------------------------
  // Exceptions and their classification
  // ---------------------------------------------------------------------------

  /** The exception classes the classifier tests with `isinstance`. */
  datatype ExcKind =
    | ConnectionErrorKind | TimeoutErrorKind | OSErrorKind   // Python built-ins
    | TimedOutKind | NetworkErrorKind                        // python-telegram-bot
    | OtherKind

  /** An exception as the classifier sees it: its class, class name, `str()` text, and the optional
      `status_code` / `error_code` attributes (None when absent or None). */
  datatype Exc = Exc(kind: ExcKind, name: string, message: string, statusCode: Option<int>, errorCode: Option<int>)

  predicate NameOrMessageMentions(e: Exc, word: string)
  {
    Contains(Lower(e.name), word) || Contains(Lower(e.message), word)
  }

  /** Whether a failed send is worth another attempt. */
  function IsRetryableTelegramException(e: Exc): bool
  {
    if e.kind == ConnectionErrorKind || e.kind == TimeoutErrorKind || e.kind == OSErrorKind then true
    else if e.kind == TimedOutKind || e.kind == NetworkErrorKind then true
    else if NameOrMessageMentions(e, "network") then true
    else if NameOrMessageMentions(e, "timeout") then true
    else if NameOrMessageMentions(e, "connection") then true
    else if Contains(Lower(e.name), "retry") || Contains(Lower(e.name), "rate") || Contains(Lower(e.message), "429") then true
    else if e.statusCode.Some? && e.statusCode.value != 0 && e.statusCode.value >= 500 then true
    else if e.errorCode.Some? && e.errorCode.value in {500, 502, 503, 504} then true
    else false
  }

  /** Each of the documented reasons makes an exception retryable. */
  lemma RetryableReasons(e: Exc)
    ensures e.kind != OtherKind ==> IsRetryableTelegramException(e)
    ensures Contains(Lower(e.message), "429") ==> IsRetryableTelegramException(e)
    ensures e.statusCode.Some? && e.statusCode.value >= 500 ==> IsRetryableTelegramException(e)
    ensures e.errorCode == Some(503) ==> IsRetryableTelegramException(e)
  {
  }

  /** A plain exception with no network wording, a 4xx status code and error code 501 is not
      retried: 501 is missing from the error-code list even though a 5xx status code is retried. */
  lemma NotRetryableWithout(e: Exc)
    requires e.kind == OtherKind
    requires !NameOrMessageMentions(e, "network") && !NameOrMessageMentions(e, "timeout")
    requires !NameOrMessageMentions(e, "connection")
    requires !Contains(Lower(e.name), "retry") && !Contains(Lower(e.name), "rate") && !Contains(Lower(e.message), "429")
    requires e.statusCode.None? || e.statusCode.value < 500
    requires e.errorCode.None? || e.errorCode == Some(501)
    ensures !IsRetryableTelegramException(e)
  {
  }

  /** The classification ignores letter case in the class name and the message. */
  lemma {:induction false} ClassificationIgnoresCase(e: Exc)
    ensures IsRetryableTelegramException(e) == IsRetryableTelegramException(e.(name := Lower(e.name), message := Lower(e.message)))
  {
    LowerIdempotent(e.name);
    LowerIdempotent(e.message);
  }

  // ---------------------------------------------------------------------------
  // Bounded retry with exponential backoff
  // ---------------------------------------------------------------------------

  /** What one attempt of the wrapped call did. */
  datatype Attempt<T> = Returned(value: T) | Raised(error: Exc)

  /** Stop after `maxAttempts` attempts; before attempt n+1 wait `2^(n-1)` seconds clamped to [minWait, maxWait]. */
  datatype Policy = Policy(maxAttempts: nat, minWait: nat, maxWait: nat)

  /** How a retried call ended: it returned, it raised an error the policy does not retry (re-raised at
      once), or it ran out of attempts. Each records the attempts made and the waits between them. */
  datatype RetryOutcome<T> =
    | Succeeded(value: T, attempts: nat, waits: seq<nat>)
    | Rejected(error: Exc, attempts: nat, waits: seq<nat>)
    | Exhausted(error: Exc, attempts: nat, waits: seq<nat>)

  function Pow2(n: nat): (r: nat)
    ensures r >= 1
  {
    if n == 0 then 1 else 2 * Pow2(n - 1)
  }

  /** The wait after failed attempt number n (counted from 1). */
  function Backoff(p: Policy, n: nat): (w: nat)
    requires n >= 1
    ensures p.minWait <= p.maxWait ==> p.minWait <= w <= p.maxWait
  {
    var exp := Pow2(n - 1);
    if exp < p.maxWait then (if exp > p.minWait then exp else p.minWait)
    else (if p.maxWait > p.minWait then p.maxWait else p.minWait)
  }

  /** The outcome of running the call from attempt `n` on, with `waits` already spent. */
  function RetryFrom<T>(p: Policy, attempt: nat -> Attempt<T>, retryable: Exc -> bool, n: nat, waits: seq<nat>): RetryOutcome<T>
    requires n >= 1
    decreases p.maxAttempts - n
  {
    match attempt(n)
    case Returned(v) => Succeeded(v, n, waits)
    case Raised(e) =>
      if !retryable(e) then Rejected(e, n, waits)
      else if n >= p.maxAttempts then Exhausted(e, n, waits)
      else RetryFrom(p, attempt, retryable, n + 1, waits + [Backoff(p, n)])
  }

  /** The outcome of a retried call. */
  function RetryOutcomeOf<T>(p: Policy, attempt: nat -> Attempt<T>, retryable: Exc -> bool): RetryOutcome<T>
  {
    RetryFrom(p, attempt, retryable, 1, [])
  }

  function MaxAttempts(p: Policy): nat { if p.maxAttempts >= 1 then p.maxAttempts else 1 }

  function OutcomeAttempts<T>(r: RetryOutcome<T>): nat
  {
    match r
    case Succeeded(_, k, _) => k
    case Rejected(_, k, _) => k
    case Exhausted(_, k, _) => k
  }

  function OutcomeWaits<T>(r: RetryOutcome<T>): seq<nat>
  {
    match r
    case Succeeded(_, _, w) => w
    case Rejected(_, _, w) => w
    case Exhausted(_, _, w) => w
  }

  /** The attempt that ended the call matches how the call ended, every earlier attempt raised a
      retryable error, at most `maxAttempts` attempts are made (at least one), and one clamped wait
      separates consecutive attempts. */
  ghost predicate WellFormedRun<T>(p: Policy, attempt: nat -> Attempt<T>, retryable: Exc -> bool, r: RetryOutcome<T>)
  {
    var k := OutcomeAttempts(r);
    && 1 <= k <= MaxAttempts(p)
    && |OutcomeWaits(r)| == k - 1
    && (forall i :: 0 <= i < k - 1 ==> OutcomeWaits(r)[i] == Backoff(p, i + 1))
    && (forall j :: 1 <= j < k ==> attempt(j).Raised? && retryable(attempt(j).error))
    && (r.Succeeded? ==> attempt(k) == Returned(r.value))
    && (r.Rejected? ==> attempt(k) == Raised(r.error) && !retryable(r.error))
    && (r.Exhausted? ==> attempt(k) == Raised(r.error) && retryable(r.error) && k == MaxAttempts(p))
  }

  lemma {:induction false} RetryFromWellFormed<T>(p: Policy, attempt: nat -> Attempt<T>, retryable: Exc -> bool, n: nat, waits: seq<nat>)
    requires n >= 1 && n <= MaxAttempts(p)
    requires |waits| == n - 1
    requires forall i :: 0 <= i < n - 1 ==> waits[i] == Backoff(p, i + 1)
    requires forall j :: 1 <= j < n ==> attempt(j).Raised? && retryable(attempt(j).error)
    ensures WellFormedRun(p, attempt, retryable, RetryFrom(p, attempt, retryable, n, waits))
    decreases p.maxAttempts - n
  {
    match attempt(n)
    case Returned(v) =>
    case Raised(e) =>
      if retryable(e) && n < p.maxAttempts {
        RetryFromWellFormed(p, attempt, retryable, n + 1, waits + [Backoff(p, n)]);
      }
  }

  /** Every retried call is a well-formed run of its policy. */
  lemma RetryOutcomeWellFormed<T>(p: Policy, attempt: nat -> Attempt<T>, retryable: Exc -> bool)
    ensures WellFormedRun(p, attempt, retryable, RetryOutcomeOf(p, attempt, retryable))
  {
    RetryFromWellFormed(p, attempt, retryable, 1, []);
  }

  /** Runs the call under the policy: attempts until it returns, raises an error the policy does not
      retry, or the attempt budget is spent. */
  method Run<T>(p: Policy, attempt: nat -> Attempt<T>, retryable: Exc -> bool) returns (r: RetryOutcome<T>)
    ensures r == RetryOutcomeOf(p, attempt, retryable)
  {
    var n: nat := 1;
    var waits: seq<nat> := [];
    var outcome := attempt(n);
    while outcome.Raised? && retryable(outcome.error) && n < p.maxAttempts
      invariant n >= 1
      invariant outcome == attempt(n)
      invariant RetryFrom(p, attempt, retryable, n, waits) == RetryOutcomeOf(p, attempt, retryable)
      decreases p.maxAttempts - n
    {
      waits := waits + [Backoff(p, n)];
      n := n + 1;
      outcome := attempt(n);
    }
    match outcome
    case Returned(v) =>
      r := Succeeded(v, n, waits);
    case Raised(e) =>
      if !retryable(e) {
        r := Rejected(e, n, waits);
      } else {
        r := Exhausted(e, n, waits);
      }
  }

  // ---------------------------------------------------------------------------
  // send_message_with_retry
  // ---------------------------------------------------------------------------

  /** Three attempts, waits of 2^(n-1) seconds clamped to [1, 5], classified errors retried. */
  const SendPolicy := Policy(3, 1, 5)

  /** How a send ended: delivered, or the error re-raised to the caller. */
  datatype SendResult = Sent(attempts: nat) | SendFailed(error: Exc, attempts: nat)

  function SendResultOf(r: RetryOutcome<()>): SendResult
  {
    match r
    case Succeeded(_, k, _) => Sent(k)
    case Rejected(e, k, _) => SendFailed(e, k)
    case Exhausted(e, k, _) => SendFailed(e, k)
  }

  /** The parse mode of an outgoing message. */
  datatype ParseMode = MarkdownV2

  /** The Bot API `send_message` call the helper makes. */
  datatype SendRequest = SendRequest(chatId: int, text: seq<Token>, parseMode: Option<ParseMode>, disableNotification: bool)

  /** The request for a message: MarkdownV2 exactly when `markdown` is set, and the sound switched
      off exactly when `disableSound` is set. */
  function MessageRequest(userId: int, messageText: seq<Token>, disableSound: bool, markdown: bool): (q: SendRequest)
    ensures q.chatId == userId && q.text == messageText
    ensures q.parseMode == Some(MarkdownV2) <==> markdown
    ensures q.parseMode.None? <==> !markdown
    ensures q.disableNotification == disableSound
  {
    SendRequest(userId, messageText, if markdown then Some(MarkdownV2) else None, disableSound)
  }

  /** Sends one message with retries; `api(q)(n)` is what the Bot API does with request `q` on
      attempt n. */
  method SendMessageWithRetry(api: SendRequest -> (nat -> Attempt<()>), userId: int, messageText: seq<Token>,
                              disableSound: bool, markdown: bool) returns (r: SendResult)
    ensures r == SendResultOf(RetryOutcomeOf(SendPolicy, api(MessageRequest(userId, messageText, disableSound, markdown)), IsRetryableTelegramException))
  {
    var request := MessageRequest(userId, messageText, disableSound, markdown);
    var outcome := Run(SendPolicy, api(request), IsRetryableTelegramException);
    r := SendResultOf(outcome);
  }

  /** A send makes one to three attempts; it fails after a single attempt exactly when the first
      attempt raises an error that is not retryable, and after three only on retryable errors. */
  lemma SendAttempts(attempt: nat -> Attempt<()>)
    ensures var r := SendResultOf(RetryOutcomeOf(SendPolicy, attempt, IsRetryableTelegramException));
      && 1 <= r.attempts <= 3
      && (r.SendFailed? && r.attempts == 1 <==> attempt(1).Raised? && !IsRetryableTelegramException(attempt(1).error))
      && (r.Sent? <==> exists k :: 1 <= k <= 3 && attempt(k).Returned? && forall j :: 1 <= j < k ==> attempt(j).Raised? && IsRetryableTelegramException(attempt(j).error))
  {
    var o := RetryOutcomeOf(SendPolicy, attempt, IsRetryableTelegramException);
    RetryOutcomeWellFormed(SendPolicy, attempt, IsRetryableTelegramException);
    var r := SendResultOf(o);
    if r.Sent? {
      assert attempt(o.attempts).Returned?;
    }
  }

  /** The waits between send attempts are 1 s and then 2 s: the 4 s step of the doubling is never reached. */
  lemma SendWaits(attempt: nat -> Attempt<()>)
    ensures OutcomeWaits(RetryOutcomeOf(SendPolicy, attempt, IsRetryableTelegramException)) <= [1, 2]
  {
    var o := RetryOutcomeOf(SendPolicy, attempt, IsRetryableTelegramException);
    RetryOutcomeWellFormed(SendPolicy, attempt, IsRetryableTelegramException);
    assert Backoff(SendPolicy, 1) == 1 && Backoff(SendPolicy, 2) == 2;
  }

  /** A send that fails twice with a transient error and then goes through is a success after
      exactly three attempts. */
  lemma TransientTwiceThenSent(attempt: nat -> Attempt<()>)
    requires attempt(1).Raised? && IsRetryableTelegramException(attempt(1).error)
    requires attempt(2).Raised? && IsRetryableTelegramException(attempt(2).error)
    requires attempt(3).Returned?
    ensures SendResultOf(RetryOutcomeOf(SendPolicy, attempt, IsRetryableTelegramException)) == Sent(3)
  {
  }
}
