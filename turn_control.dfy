/**
 * `GET /api/turn`: the ICE servers (STUN/TURN) a browser should use for its
 * WebRTC peer connections, chosen from the server's environment.
 *
 * The environment is a map from variable name to value, the Authorization
 * header an optional string, and the outcome of `JSON.parse` on
 * TURN_ICE_SERVERS_JSON an input.
 */
module TurnControl {
  import opened Wrappers
  import opened JsStrings
  import opened Environment

  /** The `urls` of an ICE server: one URL or a list of them. */
  datatype Urls = OneUrl(url: string) | UrlList(list: seq<string>)

  datatype IceServer = IceServer(urls: Urls, username: Option<string>, credential: Option<string>)

  /**
   * What parsing TURN_ICE_SERVERS_JSON gives. The elements of an array are
   * passed through as they are; their shape is not checked.
   */
  datatype Parsed = InvalidJson | NotAnArray | JsonArray(servers: seq<IceServer>)

  /** A 401 `Unauthorized`, or 200 with `{ iceServers }`. */
  datatype TurnReply = Unauthorized | IceServers(servers: seq<IceServer>)

  /** The public STUN server every answer outside the JSON override starts with. */
  const Stun := IceServer(OneUrl("stun:stun.l.google.com:19302"), None, None)

  /** Authentication is demanded only by TURN_REQUIRE_AUTH set to exactly `true`. */
  predicate RequireAuth(env: Env) {
    Var(env, "TURN_REQUIRE_AUTH") == Some("true")
  }

  predicate HasCredentials(env: Env) {
    IsSet(env, "TURN_USERNAME") && IsSet(env, "TURN_PASSWORD")
  }

  /** The TURN entry for some `urls`, carrying TURN_USERNAME and TURN_PASSWORD. */
  function TurnServer(env: Env, urls: Urls): IceServer {
    IceServer(urls, Var(env, "TURN_USERNAME"), Var(env, "TURN_PASSWORD"))
  }

  /** `TURN_URLS.split(',').map((s) => s.trim()).filter(Boolean)`: non-empty, trimmed, comma-free URLs. */
  function TurnUrls(s: string): (r: seq<string>)
    ensures forall u :: u in r ==> u != "" && Trimmed(u) && ',' !in u
  {
    var pieces := Split(s, ',');
    TrimmedPieces(pieces);
    NonEmptyOnly(TrimAll(pieces))
  }

  /** Trimming comma-free pieces leaves them comma-free. */
  lemma TrimmedPieces(pieces: seq<string>)
    requires forall i :: 0 <= i < |pieces| ==> ',' !in pieces[i]
    ensures forall u :: u in TrimAll(pieces) ==> Trimmed(u) && ',' !in u
  {
    var trimmed := TrimAll(pieces);
    forall u | u in trimmed ensures Trimmed(u) && ',' !in u {
      var i :| 0 <= i < |trimmed| && trimmed[i] == u;
      assert trimmed[i] == Trim(pieces[i]);
    }
  }

  /** TURN_URLS written as comma-free pieces serves exactly those pieces, trimmed, the empty ones dropped. */
  lemma TurnUrlsOfPieces(pieces: seq<string>)
    requires |pieces| >= 1 && forall i :: 0 <= i < |pieces| ==> ',' !in pieces[i]
    ensures TurnUrls(Join(pieces, ',')) == NonEmptyOnly(TrimAll(pieces))
  {
    SplitJoin(pieces, ',');
  }

  /** A list of URLs TURN_URLS can carry: at least one, each non-empty, trimmed and comma-free. */
  predicate CommaListable(urls: seq<string>) {
    |urls| >= 1 && forall i :: 0 <= i < |urls| ==> urls[i] != "" && Trimmed(urls[i]) && ',' !in urls[i]
  }

  /** A list written back with commas reads as the same list. */
  lemma TurnUrlsJoin(urls: seq<string>)
    requires CommaListable(urls)
    ensures TurnUrls(Join(urls, ',')) == urls
  {
    SplitJoin(urls, ',');
    forall i | 0 <= i < |urls| ensures Trim(urls[i]) == urls[i] {
      TrimTrimmed(urls[i]);
    }
    assert TrimAll(urls) == urls;
    NonEmptyOnlyAll(urls);
  }

  /** `getTurnCredentials` */
  function GetTurnCredentials(env: Env, authorization: Option<string>, parsed: Parsed): (r: TurnReply)
    // the auth gate, in both directions
    ensures r.Unauthorized? <==> RequireAuth(env) && !Truthy(authorization)
    // a JSON array replaces everything, STUN included
    ensures r.IceServers? && IsSet(env, "TURN_ICE_SERVERS_JSON") && parsed.JsonArray? ==>
      r.servers == parsed.servers
    // unusable JSON drops to STUN alone; the URL variables are not consulted
    ensures r.IceServers? && IsSet(env, "TURN_ICE_SERVERS_JSON") && !parsed.JsonArray? ==>
      r.servers == [Stun]
    // TURN_URL wins over TURN_URLS
    ensures r.IceServers? && !IsSet(env, "TURN_ICE_SERVERS_JSON") && IsSet(env, "TURN_URL") && HasCredentials(env) ==>
      r.servers == [Stun, TurnServer(env, OneUrl(env["TURN_URL"]))]
    ensures r.IceServers? && !IsSet(env, "TURN_ICE_SERVERS_JSON") && !IsSet(env, "TURN_URL") && IsSet(env, "TURN_URLS") && HasCredentials(env) ==>
      r.servers == if TurnUrls(env["TURN_URLS"]) == [] then [Stun] else [Stun, TurnServer(env, UrlList(TurnUrls(env["TURN_URLS"])))]
    // without both credentials, or without any URL variable, only STUN
    ensures r.IceServers? && !IsSet(env, "TURN_ICE_SERVERS_JSON") && (!HasCredentials(env) || (!IsSet(env, "TURN_URL") && !IsSet(env, "TURN_URLS"))) ==>
      r.servers == [Stun]
    // outside the override the answer starts with STUN and has at most one TURN entry
    ensures r.IceServers? && !(IsSet(env, "TURN_ICE_SERVERS_JSON") && parsed.JsonArray?) ==>
      1 <= |r.servers| <= 2 && r.servers[0] == Stun
  {
    if RequireAuth(env) && !Truthy(authorization) then Unauthorized
    else if IsSet(env, "TURN_ICE_SERVERS_JSON") then
      if parsed.JsonArray? then IceServers(parsed.servers) else IceServers([Stun])
    else IceServers(FromUrlVariables(env))
  }

  /** The servers chosen from TURN_URL / TURN_URLS when no JSON override is set. */
  function FromUrlVariables(env: Env): (r: seq<IceServer>)
    ensures IsSet(env, "TURN_URL") && HasCredentials(env) ==>
      r == [Stun, TurnServer(env, OneUrl(env["TURN_URL"]))]
    ensures !IsSet(env, "TURN_URL") && IsSet(env, "TURN_URLS") && HasCredentials(env) ==>
      r == if TurnUrls(env["TURN_URLS"]) == [] then [Stun] else [Stun, TurnServer(env, UrlList(TurnUrls(env["TURN_URLS"])))]
    ensures !HasCredentials(env) || (!IsSet(env, "TURN_URL") && !IsSet(env, "TURN_URLS")) ==> r == [Stun]
    ensures 1 <= |r| <= 2 && r[0] == Stun
  {
    var iceServers := [Stun];
    if IsSet(env, "TURN_URL") && HasCredentials(env) then
      iceServers + [TurnServer(env, OneUrl(env["TURN_URL"]))]
    else if IsSet(env, "TURN_URLS") && HasCredentials(env) then
      var urls := TurnUrls(env["TURN_URLS"]);
      if |urls| > 0 then iceServers + [TurnServer(env, UrlList(urls))] else iceServers
    else iceServers
  }

  /** The reply never depends on the parse outcome when no JSON override is set. */
  lemma ParseIgnoredWithoutOverride(env: Env, authorization: Option<string>, p1: Parsed, p2: Parsed)
    requires !IsSet(env, "TURN_ICE_SERVERS_JSON")
    ensures GetTurnCredentials(env, authorization, p1) == GetTurnCredentials(env, authorization, p2)
  {
  }

  /** A comma list of well-formed TURN URLs comes back as the same list, after STUN. */
  lemma TurnUrlsListServed(env: Env, authorization: Option<string>, parsed: Parsed, urls: seq<string>)
    requires !RequireAuth(env) && !IsSet(env, "TURN_ICE_SERVERS_JSON") && !IsSet(env, "TURN_URL") && HasCredentials(env)
    requires CommaListable(urls)
    requires "TURN_URLS" in env && env["TURN_URLS"] == Join(urls, ',')
    ensures GetTurnCredentials(env, authorization, parsed) == IceServers([Stun, TurnServer(env, UrlList(urls))])
  {
    TurnUrlsJoin(urls);
    UrlListServed(env, authorization, parsed);
  }

  lemma UrlListServed(env: Env, authorization: Option<string>, parsed: Parsed)
    requires !RequireAuth(env) && !IsSet(env, "TURN_ICE_SERVERS_JSON") && !IsSet(env, "TURN_URL") && HasCredentials(env)
    requires "TURN_URLS" in env && TurnUrls(env["TURN_URLS"]) != []
    ensures GetTurnCredentials(env, authorization, parsed) == IceServers([Stun, TurnServer(env, UrlList(TurnUrls(env["TURN_URLS"])))])
  {
  }
}
