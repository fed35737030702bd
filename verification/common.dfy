/** Values and string helpers shared by every module of the model. */
module Common {

  datatype Option<T> = None | Some(value: T)

  /** Attributes of a language pack. Their texts stay opaque: a reply names the
      attribute and the chosen language, never the words themselves. */
  datatype MsgKey =
    | NotifAttention | WordElectricity | NotifPowerTurnOnTime | NotifPowerTurnOffTime | NotifFooter
    | WordHours | WordMinutes | WordAnd | WordUser | WordEnabledLower | WordDisabledLower
    | MsgPowerIsOn | MsgPowerIsOff | MsgPowerTurnOnTime | MsgPowerTurnOffTime
    | MsgTimeSincePowerOn | MsgTimeSinceShutdown | MsgPowerStatusNotAvailable
    | MsgGenNotRequired | MsgGenOn | MsgGenOff | MsgGenTimeTillOff | MsgGenTimeTillOn
    | MsgGenShouldBeOff | MsgGenShouldBeOn
    | MsgNotifsDisabled | MsgRegistrationCompleted | MsgNotifNightSound | MsgSettingsUpdated
    | MsgWelcomeUser | MsgUseKeyboard | MsgQEnableNotifs | MsgNotificationsOn | MsgUserNotFound
    | ErrUserNotFound | ErrSessionExpired

  /** The name substituted into MSG_WELCOME_USER: a literal name or the pack's WORD_USER. */
  datatype WelcomeName = Named(name: string) | DefaultUserWord

  /** One piece of an outgoing text. */
  datatype Token =
    | Key(key: MsgKey)
    | Lit(text: string)
    | Num(n: int)
    | Welcome(name: WelcomeName)
    | Timestamp(unixSeconds: int)

  // ---------------------------------------------------------------------------
  // Characters and strings (ASCII view of Python's str methods)
  // ---------------------------------------------------------------------------

  predicate IsUpper(c: char) { 'A' <= c <= 'Z' }

  function LowerChar(c: char): (r: char)
    ensures !IsUpper(r)
    ensures IsUpper(c) ==> r as int == c as int + 32
    ensures !IsUpper(c) ==> r == c
  {
    if IsUpper(c) then (c as int + 32) as char else c
  }

  /** Python's `str.lower()`, restricted to ASCII letters. */
  function Lower(s: string): (r: string)
    ensures |r| == |s|
    ensures forall i :: 0 <= i < |s| ==> r[i] == LowerChar(s[i])
  {
    if s == [] then [] else [LowerChar(s[0])] + Lower(s[1..])
  }

  lemma {:induction false} LowerIdempotent(s: string)
    ensures Lower(Lower(s)) == Lower(s)
  {
    var l := Lower(s);
    assert forall i :: 0 <= i < |s| ==> Lower(l)[i] == LowerChar(LowerChar(s[i])) == l[i];
  }

  /** Python's `pat in s`. */
  predicate Contains(s: string, pat: string)
    decreases |s|
  {
    pat <= s || (s != [] && Contains(s[1..], pat))
  }

  /** A string with an upper-case letter never occurs in a lower-cased string. */
  lemma {:induction false} NoUpperInLowered(s: string, pat: string, k: nat)
    requires k < |pat| && IsUpper(pat[k])
    ensures !Contains(Lower(s), pat)
    decreases |s|
  {
    var l := Lower(s);
    assert |pat| > |l| || l[k] != pat[k];
    if s != [] {
      assert Lower(s)[1..] == Lower(s[1..]);
      NoUpperInLowered(s[1..], pat, k);
    }
  }

  predicate StartsWith(s: string, prefix: string) { prefix <= s }

  /** Python's default whitespace set for `str.strip()`, ASCII part. */
  predicate IsSpace(c: char) { c == ' ' || c == '\t' || c == '\n' || c == '\r' || c == '\U{0B}' || c == '\U{0C}' }

  function TrimLeft(s: string): (r: string)
    ensures |r| <= |s| && r == s[|s| - |r|..]
    ensures r == [] || !IsSpace(r[0])
    ensures forall i :: 0 <= i < |s| - |r| ==> IsSpace(s[i])
  {
    if s != [] && IsSpace(s[0]) then TrimLeft(s[1..]) else s
  }

  function TrimRight(s: string): (r: string)
    ensures |r| <= |s| && r == s[..|r|]
    ensures r == [] || !IsSpace(r[|r| - 1])
    ensures forall i :: |r| <= i < |s| ==> IsSpace(s[i])
  {
    if s != [] && IsSpace(s[|s| - 1]) then TrimRight(s[..|s| - 1]) else s
  }

  /** Python's `str.strip()`. */
  function Strip(s: string): (r: string)
    ensures r == [] || (!IsSpace(r[0]) && !IsSpace(r[|r| - 1]))
    ensures |r| <= |s|
  {
    TrimRight(TrimLeft(s))
  }

  /** Stripping a string that has no surrounding whitespace leaves it alone. */
  lemma StripUnchanged(s: string)
    requires s == [] || (!IsSpace(s[0]) && !IsSpace(s[|s| - 1]))
    ensures Strip(s) == s
  {
  }

  /** Stripping twice is stripping once. */
  lemma StripIdempotent(s: string)
    ensures Strip(Strip(s)) == Strip(s)
  {
    StripUnchanged(Strip(s));
  }

  /** Python's `str.replace(pat, "")`: every non-overlapping occurrence, scanned left to right, is removed. */
  function RemoveAll(s: string, pat: string): (r: string)
    requires pat != []
    ensures |r| <= |s|
    decreases |s|
  {
    if s == [] then []
    else if pat <= s then RemoveAll(s[|pat|..], pat)
    else [s[0]] + RemoveAll(s[1..], pat)
  }

  /** Removing a pattern from a text in which it does not occur changes nothing. */
  lemma {:induction false} RemoveAllNoOccurrence(s: string, pat: string)
    requires pat != []
    requires !Contains(s, pat)
    ensures RemoveAll(s, pat) == s
    decreases |s|
  {
    if s != [] {
      RemoveAllNoOccurrence(s[1..], pat);
    }
  }

  /** A pattern with a character the text lacks does not occur in it. */
  lemma {:induction false} NotContainsWithoutChar(s: string, pat: string, j: nat)
    requires j < |pat|
    requires forall i :: 0 <= i < |s| ==> s[i] != pat[j]
    ensures !Contains(s, pat)
    decreases |s|
  {
    if |pat| <= |s| {
      assert s[j] != pat[j];
    }
    if s != [] {
      NotContainsWithoutChar(s[1..], pat, j);
    }
  }

  /** A pattern with two adjacent characters that are never adjacent in the text does not occur in it. */
  lemma {:induction false} NotContainsWithoutPair(s: string, pat: string, j: nat)
    requires j + 1 < |pat|
    requires forall i :: 0 <= i < |s| - 1 ==> !(s[i] == pat[j] && s[i + 1] == pat[j + 1])
    ensures !Contains(s, pat)
    decreases |s|
  {
    if |pat| <= |s| {
      assert !(s[j] == pat[j] && s[j + 1] == pat[j + 1]);
    }
    if s != [] {
      NotContainsWithoutPair(s[1..], pat, j);
    }
  }

  function DigitChar(d: nat): (c: char)
    requires d < 10
    ensures '0' <= c <= '9'
  {
    ('0' as int + d) as char
  }

  /** Python's `str(n)` for a natural number. */
  function NatToString(n: nat): (r: string)
    ensures r != []
    ensures forall i :: 0 <= i < |r| ==> '0' <= r[i] <= '9'
  {
    if n < 10 then [DigitChar(n)] else NatToString(n / 10) + [DigitChar(n % 10)]
  }

  /** Python's `str(n)` for an integer. */
  function IntToString(n: int): (r: string)
    ensures r != [] && !IsSpace(r[0]) && '0' <= r[|r| - 1] <= '9'
  {
    if n < 0 then "-" + NatToString(-n) else NatToString(n)
  }
}
