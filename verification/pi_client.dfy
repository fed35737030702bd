/** The heartbeat client on the Raspberry Pi: the URL it pings and the headers it sends. */
module PiClient {
  import opened Common
  import opened PiServer

  /** The path part of the URL: stripped, "/heartbeat" when blank, with a leading slash. */
  function ClientPath(heartbeatPath: string): string
  {
    var path := if Strip(heartbeatPath) == [] then DefaultHeartbeatPath else Strip(heartbeatPath);
    if !StartsWith(path, "/") then "/" + path else path
  }

  /** The client and the listener read the same configured path the same way: the client's path is
      the listener's normalisation of the stripped setting, so it always starts with a slash. */
  lemma ClientPathAgreesWithServer(heartbeatPath: string)
    ensures ClientPath(heartbeatPath) == NormalizePath(Strip(heartbeatPath))
    ensures ClientPath(heartbeatPath) != [] && ClientPath(heartbeatPath)[0] == '/'
    ensures Strip(heartbeatPath) == [] ==> ClientPath(heartbeatPath) == DefaultHeartbeatPath
  {
  }

  /** `_build_heartbeat_url`. */
  function BuildHeartbeatUrl(dropletIp: string, dropletPort: int, heartbeatPath: string): (r: string)
    ensures r == "http://" + Strip(dropletIp) + ":" + IntToString(dropletPort) + NormalizePath(Strip(heartbeatPath))
  {
    var host := Strip(dropletIp);
    var port := Strip(IntToString(dropletPort));
    StripUnchanged(IntToString(dropletPort));
    ClientPathAgreesWithServer(heartbeatPath);
    "http://" + host + ":" + port + ClientPath(heartbeatPath)
  }

  /** The headers of every ping: an Authorization bearer header exactly when a token is set, and
      no headers at all otherwise. */
  method BuildHeaders(heartbeatToken: string) returns (headers: Option<map<string, string>>)
    ensures headers.Some? <==> heartbeatToken != []
    ensures headers.Some? ==> headers.value == map["Authorization" := "Bearer " + heartbeatToken]
  {
    var h: map<string, string> := map[];
    if heartbeatToken != [] {
      h := h["Authorization" := "Bearer " + heartbeatToken];
      assert "Authorization" in h;
    }
    if h == map[] {
      headers := None;
    } else {
      headers := Some(h);
    }
  }

  /** The Authorization header a ping carries, given the client's headers. */
  function AuthorizationHeader(headers: Option<map<string, string>>): Option<string>
  {
    if headers.Some? && "Authorization" in headers.value then Some(headers.value["Authorization"]) else None
  }

  /** A client with a token is let through by a listener with no token or the same token. As
      written, a client without a token is refused even by a listener without one; the intended
      listener lets it through. */
  lemma ClientPingAuthorized(clientToken: string, serverToken: string)
    ensures var auth := AuthorizationHeader(if clientToken != [] then Some(map["Authorization" := "Bearer " + clientToken]) else None);
      && (Authorize(serverToken, auth).None? <==> clientToken != [] && (serverToken == [] || clientToken == serverToken))
      && (AuthorizeIntended(serverToken, auth).None? <==> (serverToken == [] || clientToken == serverToken))
  {
    if clientToken != [] {
      BearerOfClientHeader(clientToken);
    }
    AuthorizeIntendedIff(serverToken, AuthorizationHeader(if clientToken != [] then Some(map["Authorization" := "Bearer " + clientToken]) else None));
  }
}
