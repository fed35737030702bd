/** The heartbeat listener on the droplet: the Raspberry Pi pings it with the current Unix time, and
    it keeps that time in the single heartbeat row. */
module PiServer {
  import opened Common
  import opened Models

  const DefaultHeartbeatPath := "/heartbeat"
  const HeartbeatId := 1

  /** The configured path with a leading slash, "/heartbeat" when empty. */
  function NormalizePath(path: string): (r: string)
    ensures r != [] && r[0] == '/'
    ensures path == [] ==> r == DefaultHeartbeatPath
    ensures path != [] ==> |path| <= |r| <= |path| + 1 && r[|r| - |path|..] == path
  {
    if path == [] then DefaultHeartbeatPath
    else if !StartsWith(path, "/") then "/" + path
    else path
  }

  /** Normalising twice is normalising once, and a path that already starts with a slash is kept. */
  lemma NormalizePathIdempotent(path: string)
    ensures NormalizePath(NormalizePath(path)) == NormalizePath(path)
    ensures path != [] && path[0] == '/' ==> NormalizePath(path) == path
  {
    var r := NormalizePath(path);
    assert StartsWith(r, "/");
    if path != [] && path[0] == '/' {
      assert StartsWith(path, "/");
    }
  }

  /** A response: its status code and JSON body. */
  datatype Body = StatusOk | HeartbeatAck(timestamp: int, receivedAt: int) | Detail(text: string)
  datatype Response = Response(status: int, body: Body)

  const Unauthorized := Response(401, Detail("Unauthorized"))

  /** `_validate_token`: no response when the presented token is the configured one, 401 otherwise. */
  function ValidateToken(configuredToken: string, token: string): (r: Option<Response>)
    ensures r.None? <==> token == configuredToken
    ensures r.Some? ==> r.value.status == 401
  {
    if token != configuredToken then Some(Unauthorized) else None
  }

  // ---------------------------------------------------------------------------
  // The bearer dependency (FastAPI's HTTPBearer, with its default auto_error)
  // ---------------------------------------------------------------------------

  /** `str.partition(" ")`: the text before the first space and the text after it. */
  function PartitionAtSpace(s: string): (r: (string, string))
    ensures ' ' !in r.0
    ensures ' ' in s ==> s == r.0 + " " + r.1
    ensures ' ' !in s ==> r == (s, "")
    decreases |s|
  {
    if s == [] then ([], [])
    else if s[0] == ' ' then ([], s[1..])
    else
      var rest := PartitionAtSpace(s[1..]);
      assert s == [s[0]] + s[1..];
      assert ' ' in s ==> ' ' in s[1..];
      ([s[0]] + rest.0, rest.1)
  }

  /** A word without spaces, a space and a tail partition back into the word and the tail. */
  lemma {:induction false} PartitionAfterWord(word: string, tail: string)
    requires ' ' !in word
    ensures PartitionAtSpace(word + " " + tail) == (word, tail)
    decreases |word|
  {
    if word == [] {
      assert word + " " + tail == [' '] + tail;
    } else {
      var x := word + " " + tail;
      assert x[0] == word[0] && x[0] != ' ';
      assert x[1..] == word[1..] + " " + tail;
      PartitionAfterWord(word[1..], tail);
      assert [word[0]] + word[1..] == word;
    }
  }

  datatype Auth = Credentials(token: string) | Refused(response: Response)

  /** What the bearer dependency hands to the endpoint: the credentials of an "Authorization:
      Bearer <token>" header, or a 403 before the endpoint runs. */
  function BearerCredentials(authorization: Option<string>): (r: Auth)
    ensures r.Credentials? ==> authorization.Some? && r.token != []
    ensures r.Refused? ==> r.response.status == 403
  {
    if authorization.None? || authorization.value == [] then Refused(Response(403, Detail("Not authenticated")))
    else
      var (scheme, credentials) := PartitionAtSpace(authorization.value);
      if scheme == [] || credentials == [] then Refused(Response(403, Detail("Not authenticated")))
      else if Lower(scheme) != "bearer" then Refused(Response(403, Detail("Invalid authentication credentials")))
      else Credentials(credentials)
  }

  /** The header a client builds from a non-empty token yields that token. */
  lemma BearerOfClientHeader(token: string)
    requires token != []
    ensures BearerCredentials(Some("Bearer " + token)) == Credentials(token)
  {
    PartitionAfterWord("Bearer", token);
    assert "Bearer " + token == "Bearer" + " " + token;
  }

  /** The authorization of a heartbeat as written: the bearer dependency always runs, and the token
      is compared only when one is configured. */
  function Authorize(configuredToken: string, authorization: Option<string>): (r: Option<Response>)
    ensures r.None? <==>
      (BearerCredentials(authorization).Credentials?
       && (configuredToken == [] || BearerCredentials(authorization).token == configuredToken))
  {
    match BearerCredentials(authorization)
    case Refused(response) => Some(response)
    case Credentials(token) => if configuredToken != [] then ValidateToken(configuredToken, token) else None
  }

  /** As written, a listener without a configured token still refuses a ping that carries no
      Authorization header, which is what a client without a token sends. */
  lemma TokenlessPingRefusedAsWritten()
    ensures Authorize("", None) == Some(Response(403, Detail("Not authenticated")))
  {
  }

  /** The authorization the `if HEARTBEAT_TOKEN:` guard evidently intends: no check at all without a
      configured token, the bearer token compared with it otherwise. */
  function AuthorizeIntended(configuredToken: string, authorization: Option<string>): (r: Option<Response>)
    ensures r.Some? ==> r.value.status == 401 || r.value.status == 403
  {
    if configuredToken == [] then None
    else
      match BearerCredentials(authorization)
      case Refused(response) => Some(response)
      case Credentials(token) => ValidateToken(configuredToken, token)
  }

  /** A ping is let through exactly when no token is configured or it carries the configured token
      as its bearer credentials; both versions agree whenever a token is configured. */
  lemma AuthorizeIntendedIff(configuredToken: string, authorization: Option<string>)
    ensures AuthorizeIntended(configuredToken, authorization).None? <==>
      (configuredToken == [] || BearerCredentials(authorization) == Credentials(configuredToken))
    ensures configuredToken != [] ==>
      AuthorizeIntended(configuredToken, authorization) == Authorize(configuredToken, authorization)
  {
  }

  /** Which admission check the listener runs: the one as written, or the corrected one. */
  datatype Gate = AsWrittenGate | IntendedGate

  function Admission(gate: Gate, configuredToken: string, authorization: Option<string>): Option<Response>
  {
    match gate
    case AsWrittenGate => Authorize(configuredToken, authorization)
    case IntendedGate => AuthorizeIntended(configuredToken, authorization)
  }

  // ---------------------------------------------------------------------------
  // The heartbeat table
  // ---------------------------------------------------------------------------

  /** The position of the row with the given id, as the primary-key query finds it. */
  function FindRow(rows: seq<HeartbeatRow>, id: int): (r: Option<nat>)
    ensures r.Some? ==> r.value < |rows| && rows[r.value].id == id
    ensures r.None? ==> forall i :: 0 <= i < |rows| ==> rows[i].id != id
    decreases |rows|
  {
    if rows == [] then None
    else if rows[0].id == id then Some(0)
    else
      match FindRow(rows[1..], id)
      case None => None
      case Some(i) => Some(i + 1)
  }

  /** No two rows share an id (the primary key). */
  ghost predicate UniqueIds(rows: seq<HeartbeatRow>)
  {
    forall i, j :: 0 <= i < |rows| && 0 <= j < |rows| && rows[i].id == rows[j].id ==> i == j
  }

  class HeartbeatStore {
    var rows: seq<HeartbeatRow>

    ghost predicate Valid()
      reads this
    {
      UniqueIds(rows)
    }

    constructor ()
      ensures rows == [] && Valid()
    {
      rows := [];
    }

    /** The row with id 1, added empty when missing; the index says where it is. */
    method GetOrCreateHeartbeat() returns (index: nat)
      requires Valid()
      modifies this
      ensures Valid()
      ensures index < |rows| && rows[index].id == HeartbeatId
      ensures FindRow(old(rows), HeartbeatId).Some? ==> rows == old(rows) && index == FindRow(old(rows), HeartbeatId).value
      ensures FindRow(old(rows), HeartbeatId).None? ==>
        rows == old(rows) + [HeartbeatRow(HeartbeatId, None, None)] && index == |old(rows)|
    {
      var found := FindRow(rows, HeartbeatId);
      if found.Some? {
        index := found.value;
      } else {
        rows := rows + [HeartbeatRow(HeartbeatId, None, None)];
        index := |rows| - 1;
      }
    }

    /** The heartbeat endpoint, under either admission check: `AsWrittenGate` runs the bearer
        dependency on every ping, as the listener is written; `IntendedGate` is the corrected check
        that skips it when no token is configured. An admitted ping gives the row with id 1 its
        timestamp, and the response echoes it with the time it was received. Every other row is
        untouched, and a refused ping changes nothing. */
    method ListenHeartbeat(gate: Gate, configuredToken: string, authorization: Option<string>, timestamp: int, now: int)
      returns (response: Response)
      requires Valid()
      modifies this
      ensures Valid()
      ensures Admission(gate, configuredToken, authorization).Some? ==>
        response == Admission(gate, configuredToken, authorization).value && rows == old(rows)
      ensures Admission(gate, configuredToken, authorization).None? ==>
        && response == Response(200, HeartbeatAck(timestamp, now))
        && FindRow(rows, HeartbeatId).Some?
        && rows[FindRow(rows, HeartbeatId).value].timestamp == Some(timestamp)
        && |rows| == |old(rows)| + (if FindRow(old(rows), HeartbeatId).Some? then 0 else 1)
        && forall i :: 0 <= i < |old(rows)| && old(rows)[i].id != HeartbeatId ==> rows[i] == old(rows)[i]
    {
      var refusal := Admission(gate, configuredToken, authorization);
      if refusal.Some? {
        return refusal.value;
      }
      var index := GetOrCreateHeartbeat();
      rows := rows[index := rows[index].(timestamp := Some(timestamp))];
      response := Response(200, HeartbeatAck(rows[index].timestamp.value, now));
      assert FindRow(rows, HeartbeatId) == Some(index) by {
        var f := FindRow(rows, HeartbeatId);
        assert f.Some? && rows[f.value].id == HeartbeatId;
      }
    }
  }

  /** `/health` answers 200 with status "ok", whatever the state. */
  function Health(): (r: Response)
    ensures r.status == 200 && r.body.StatusOk?
  {
    Response(200, StatusOk)
  }
}
