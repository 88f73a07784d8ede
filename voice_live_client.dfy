/**
 * The Voice Live client `AsyncAzureVoiceLive` (api/azure_voice_live.py): where the
 * constructor finds its endpoint and credentials, and what `connect` builds.
 * The process environment is a map parameter; token acquisition and the request id
 * are parameters too.
 */
module VoiceLiveClient {
  import opened Wrappers

  const EndpointVar: string := "AZURE_VOICE_LIVE_ENDPOINT"
  const ApiKeyVar: string := "AZURE_VOICE_LIVE_API_KEY"
  const DefaultApiVersion: string := "2025-05-01-preview"

  /** A token credential, reduced to the token its `get_token` call yields. */
  datatype TokenCredential = TokenCredential(token: string)

  datatype ConfigError =
    | MissingEndpoint       // neither the argument nor the environment gives an endpoint
    | MissingCredentials    // no api key and no token credential
    | DuplicateCredentials  // a non-empty api key and a token credential

  /** The fields the constructor stores. */
  datatype ClientConfig = ClientConfig(
    endpoint: string,
    apiVersion: Option<string>,
    apiKey: Option<string>,
    credential: Option<TokenCredential>,
    token: Option<string>)

  /** The stored token is the one the stored credential yields, and there is none without one. */
  predicate TokenFromCredential(c: ClientConfig)
  {
    c.token == if c.credential.Some? then Some(c.credential.value.token) else None
  }

  function EnvGet(env: map<string, string>, name: string): Option<string>
  {
    if name in env then Some(env[name]) else None
  }

  /** Python truthiness of an optional string: present and non-empty. */
  predicate Truthy(s: Option<string>)
  {
    s.Some? && s.value != ""
  }

  /** The checks of `AsyncAzureVoiceLive.__init__`, in the order it makes them. */
  function Configure(endpointArg: Option<string>, apiVersion: Option<string>, apiKeyArg: Option<string>,
                     credential: Option<TokenCredential>, env: map<string, string>): (r: Result<ClientConfig, ConfigError>)
    ensures r.Success? ==> r.value.apiKey.Some? || r.value.credential.Some?
    ensures r.Success? ==> !(Truthy(r.value.apiKey) && r.value.credential.Some?)
    ensures r.Success? ==> (r.value.token.Some? <==> r.value.credential.Some?)
    ensures r.Success? ==> TokenFromCredential(r.value)
  {
    var endpoint := if endpointArg.None? then EnvGet(env, EndpointVar) else endpointArg;
    if endpoint.None? then Failure(MissingEndpoint)
    else
      var apiKey := if apiKeyArg.None? && credential.None? then EnvGet(env, ApiKeyVar) else apiKeyArg;
      if apiKey.None? && credential.None? then Failure(MissingCredentials)
      else if Truthy(apiKey) && credential.Some? then Failure(DuplicateCredentials)
      else Success(ClientConfig(endpoint.value, apiVersion, apiKey, credential,
                                if credential.Some? then Some(credential.value.token) else None))
  }

  /** Construction fails exactly when no endpoint is given or found, whatever else is passed. */
  lemma ConfigureMissingEndpoint(endpointArg: Option<string>, apiVersion: Option<string>, apiKeyArg: Option<string>,
                                 credential: Option<TokenCredential>, env: map<string, string>)
    ensures Configure(endpointArg, apiVersion, apiKeyArg, credential, env) == Failure(MissingEndpoint)
        <==> endpointArg.None? && EndpointVar !in env
  {
  }

  /**
   * With an endpoint, construction fails for missing credentials exactly when no key is
   * passed, no credential is passed and the environment has no key either.
   */
  lemma ConfigureMissingCredentials(endpointArg: Option<string>, apiVersion: Option<string>, apiKeyArg: Option<string>,
                                    credential: Option<TokenCredential>, env: map<string, string>)
    ensures Configure(endpointArg, apiVersion, apiKeyArg, credential, env) == Failure(MissingCredentials)
        <==> (endpointArg.Some? || EndpointVar in env) &&
             apiKeyArg.None? && credential.None? && ApiKeyVar !in env
  {
  }

  /**
   * With an endpoint, construction fails for duplicate credentials exactly when a non-empty
   * key and a credential are both passed; an environment key is never consulted then.
   */
  lemma ConfigureDuplicateCredentials(endpointArg: Option<string>, apiVersion: Option<string>, apiKeyArg: Option<string>,
                                      credential: Option<TokenCredential>, env: map<string, string>)
    ensures Configure(endpointArg, apiVersion, apiKeyArg, credential, env) == Failure(DuplicateCredentials)
        <==> (endpointArg.Some? || EndpointVar in env) && Truthy(apiKeyArg) && credential.Some?
  {
  }

  /**
   * A constructed client takes arguments over the environment, holds a key or a credential
   * (never a non-empty key together with a credential), and has a token exactly when it
   * has a credential.
   */
  lemma ConfigurePrecedence(endpointArg: Option<string>, apiVersion: Option<string>, apiKeyArg: Option<string>,
                            credential: Option<TokenCredential>, env: map<string, string>)
    requires Configure(endpointArg, apiVersion, apiKeyArg, credential, env).Success?
    ensures var c := Configure(endpointArg, apiVersion, apiKeyArg, credential, env).value;
      c.endpoint == (if endpointArg.Some? then endpointArg.value else env[EndpointVar]) &&
      c.apiKey == (if apiKeyArg.None? && credential.None? then Some(env[ApiKeyVar]) else apiKeyArg) &&
      c.apiVersion == apiVersion && c.credential == credential &&
      (c.apiKey.Some? || c.credential.Some?) && !(Truthy(c.apiKey) && c.credential.Some?) &&
      (c.token.Some? <==> c.credential.Some?)
  {
  }

  // ---- connect: URL and headers ----

  datatype Header = Header(name: string, value: Option<string>)
  /** What `connect` hands to the websocket connection: its URL and extra headers. */
  datatype Connection = Connection(url: string, headers: seq<Header>)

  datatype ConnectError =
    | AlreadyConnected  // a connection was made before
    | MissingModel      // the model name is empty

  /** `s.rstrip('/')`. */
  function RStripSlash(s: string): (r: string)
    ensures |r| <= |s| && r == s[..|r|]
    ensures r == "" || r[|r| - 1] != '/'
    ensures forall i :: |r| <= i < |s| ==> s[i] == '/'
  {
    if s != "" && s[|s| - 1] == '/' then RStripSlash(s[..|s| - 1]) else s
  }

  const HttpsScheme: string := "https://"
  const WssScheme: string := "wss://"

  /** `s.replace("https://", "wss://")`: every occurrence, scanning left to right. */
  function ReplaceHttps(s: string): (r: string)
    ensures |r| <= |s|
  {
    if |s| < 8 then s
    else if s[..8] == HttpsScheme then WssScheme + ReplaceHttps(s[8..])
    else [s[0]] + ReplaceHttps(s[1..])
  }

  predicate HttpsAt(s: string, i: nat)
  {
    i + 8 <= |s| && s[i..i + 8] == HttpsScheme
  }

  /** A replaced string can start with a w-free text only if the original starts with it. */
  lemma {:induction false} ReplacedPrefix(u: string, p: string)
    requires forall j :: 0 <= j < |p| ==> p[j] != 'w'
    ensures |p| <= |ReplaceHttps(u)| && ReplaceHttps(u)[..|p|] == p ==> |p| <= |u| && u[..|p|] == p
    decreases |u|
  {
    if p != "" && |u| >= 8 {
      if u[..8] == HttpsScheme {
        // a replacement at the front puts a 'w' where p has none
        assert ReplaceHttps(u)[0] == 'w';
      } else if |p| <= |ReplaceHttps(u)| && ReplaceHttps(u)[..|p|] == p {
        assert ReplaceHttps(u)[1..][..|p| - 1] == p[1..];
        ReplacedPrefix(u[1..], p[1..]);
        assert u[..|p|] == [u[0]] + u[1..][..|p| - 1];
      }
    }
  }

  /** After the replacement no "https://" is left, not even one formed across a replacement. */
  lemma {:induction false} ReplaceHttpsLeavesNone(s: string)
    ensures forall i: nat :: !HttpsAt(ReplaceHttps(s), i)
    decreases |s|
  {
    var r := ReplaceHttps(s);
    if |s| >= 8 {
      if s[..8] == HttpsScheme {
        var t := ReplaceHttps(s[8..]);
        ReplaceHttpsLeavesNone(s[8..]);
        forall i: nat ensures !HttpsAt(r, i) {
          if i >= 6 {
            assert !HttpsAt(t, i - 6);
            if i + 8 <= |r| {
              assert r[i..i + 8] == t[i - 6..i - 6 + 8];
            }
          } else if i + 8 <= |r| {
            assert r[i] == WssScheme[i] != 'h';
            assert r[i..i + 8][0] != HttpsScheme[0];
          }
        }
      } else {
        var t := ReplaceHttps(s[1..]);
        ReplaceHttpsLeavesNone(s[1..]);
        forall i: nat ensures !HttpsAt(r, i) {
          if i >= 1 {
            assert !HttpsAt(t, i - 1);
            if i + 8 <= |r| {
              assert r[i..i + 8] == t[i - 1..i - 1 + 8];
            }
          } else if 8 <= |r| {
            ReplacedPrefix(s[1..], HttpsScheme[1..]);
            if s[0] == 'h' {
              assert s[..8] == [s[0]] + s[1..][..7];
              assert s[1..][..7] != HttpsScheme[1..];
              assert t[..7] != HttpsScheme[1..];
              assert r[..8][1..] == t[..7];
            } else {
              assert r[..8][0] != HttpsScheme[0];
            }
          }
        }
      }
    }
  }

  /** Dropping the first character creates no "https://". */
  lemma ShiftNoOccurrence(s: string)
    requires s != [] && forall i: nat :: !HttpsAt(s, i)
    ensures forall i: nat :: !HttpsAt(s[1..], i)
  {
    forall i: nat ensures !HttpsAt(s[1..], i) {
      assert !HttpsAt(s, i + 1);
      if i + 8 <= |s[1..]| {
        assert s[1..][i..i + 8] == s[i + 1..i + 1 + 8];
      }
    }
  }

  /** A string without "https://" is left as it is. */
  lemma {:induction false} ReplaceHttpsNoOccurrence(s: string)
    requires forall i: nat :: !HttpsAt(s, i)
    ensures ReplaceHttps(s) == s
    decreases |s|
  {
    if |s| >= 8 {
      assert !HttpsAt(s, 0);
      ShiftNoOccurrence(s);
      ReplaceHttpsNoOccurrence(s[1..]);
    }
  }

  /** A leading "https://" becomes "wss://". */
  lemma ReplaceHttpsScheme(t: string)
    ensures ReplaceHttps(HttpsScheme + t) == WssScheme + ReplaceHttps(t)
  {
    assert (HttpsScheme + t)[..8] == HttpsScheme;
    assert (HttpsScheme + t)[8..] == t;
  }

  /** Dropping the first character shifts the positions known to hold no "https://". */
  lemma ShiftPrefixFree(s: string, n: nat)
    requires s != [] && forall i: nat :: i < n ==> !HttpsAt(s, i)
    ensures forall i: nat :: i + 1 < n ==> !HttpsAt(s[1..], i)
  {
    forall i: nat | i + 1 < n
      ensures !HttpsAt(s[1..], i)
    {
      assert !HttpsAt(s, i + 1);
      if i + 8 <= |s[1..]| {
        assert s[1..][i..i + 8] == s[i + 1..i + 1 + 8];
      }
    }
  }

  /** A first character that does not start "https://" is copied. */
  lemma ReplaceHttpsCopies(s: string)
    requires s != [] && !HttpsAt(s, 0)
    ensures ReplaceHttps(s) == [s[0]] + ReplaceHttps(s[1..])
  {
    if |s| < 8 {
      assert s == [s[0]] + s[1..];
    }
  }

  /**
   * Occurrences after a prefix that holds none are replaced too: the first "https://"
   * becomes "wss://", what comes before it is kept and the replacement goes on after it.
   */
  lemma {:induction false} ReplaceFirst(a: string, b: string)
    requires forall i: nat :: i < |a| ==> !HttpsAt(a + HttpsScheme + b, i)
    ensures ReplaceHttps(a + HttpsScheme + b) == a + WssScheme + ReplaceHttps(b)
    decreases |a|
  {
    var s := a + HttpsScheme + b;
    if a == [] {
      assert s == HttpsScheme + b;
      ReplaceHttpsScheme(b);
    } else {
      assert s[1..] == a[1..] + HttpsScheme + b;
      ShiftPrefixFree(s, |a|);
      ReplaceFirst(a[1..], b);
      ReplaceHttpsCopies(s);
      assert [a[0]] + (a[1..] + WssScheme + ReplaceHttps(b)) == a + WssScheme + ReplaceHttps(b);
    }
  }

  /** The `api_version` as the f-string renders it: None prints as "None". */
  function VersionText(v: Option<string>): string
  {
    if v.Some? then v.value else "None"
  }

  /** The realtime URL, before the scheme replacement. */
  function RealtimeUrl(endpoint: string, apiVersion: Option<string>, model: string): (u: string)
    ensures |RStripSlash(endpoint)| <= |u| && u[..|RStripSlash(endpoint)|] == RStripSlash(endpoint)
    ensures |model| <= |u| && u[|u| - |model|..] == model
  {
    RStripSlash(endpoint) + "/voice-agent/realtime?api-version=" + VersionText(apiVersion) + "&model=" + model
  }

  function ConnectUrl(endpoint: string, apiVersion: Option<string>, model: string): (u: string)
    ensures forall i: nat :: !HttpsAt(u, i)
  {
    ReplaceHttpsLeavesNone(RealtimeUrl(endpoint, apiVersion, model));
    ReplaceHttps(RealtimeUrl(endpoint, apiVersion, model))
  }

  /**
   * The URL `connect` builds: the endpoint without trailing slashes, then the realtime path
   * with the api version and model, every "https://" in it turned into "wss://".
   */
  lemma ConnectUrlShape(endpoint: string, apiVersion: Option<string>, model: string)
    ensures forall i: nat :: !HttpsAt(ConnectUrl(endpoint, apiVersion, model), i)
    ensures (forall i: nat :: !HttpsAt(RealtimeUrl(endpoint, apiVersion, model), i)) ==>
      ConnectUrl(endpoint, apiVersion, model) == RealtimeUrl(endpoint, apiVersion, model)
    ensures var plain := RealtimeUrl(endpoint, apiVersion, model);
      |plain| >= 8 && plain[..8] == HttpsScheme ==>
        ConnectUrl(endpoint, apiVersion, model) == WssScheme + ReplaceHttps(plain[8..])
  {
    var plain := RealtimeUrl(endpoint, apiVersion, model);
    ReplaceHttpsLeavesNone(plain);
    if forall i: nat :: !HttpsAt(plain, i) {
      ReplaceHttpsNoOccurrence(plain);
    }
    if |plain| >= 8 && plain[..8] == HttpsScheme {
      assert plain == HttpsScheme + plain[8..];
      ReplaceHttpsScheme(plain[8..]);
    }
  }

  /** `Bearer <token>` when there is a non-empty token, else the api key (possibly None). */
  function AuthHeader(token: Option<string>, apiKey: Option<string>): Header
  {
    if Truthy(token) then Header("Authorization", Some("Bearer " + token.value)) else Header("api-key", apiKey)
  }

  /** The connection `connect(model)` opens for a client configured by c. */
  function ConnectionFor(c: ClientConfig, model: string, requestId: string): (conn: Connection)
    ensures conn.url == ConnectUrl(c.endpoint, c.apiVersion, model)
    ensures |conn.headers| == 2 && conn.headers[0] == Header("x-ms-client-request-id", Some(requestId))
  {
    Connection(ConnectUrl(c.endpoint, c.apiVersion, model),
               [Header("x-ms-client-request-id", Some(requestId)), AuthHeader(c.token, c.apiKey)])
  }

  /** A client whose key-based connection never carries a credential's token, and vice versa. */
  lemma ConnectionAuth(c: ClientConfig, model: string, requestId: string)
    requires TokenFromCredential(c)
    ensures var h := ConnectionFor(c, model, requestId).headers;
      |h| == 2 && h[0] == Header("x-ms-client-request-id", Some(requestId)) &&
      h[1] == if c.credential.Some? && c.credential.value.token != ""
              then Header("Authorization", Some("Bearer " + c.credential.value.token))
              else Header("api-key", c.apiKey)
  {
  }

  class Client {
    const config: ClientConfig
    /** The connection made by `connect`, if any. */
    var connection: Option<Connection>

    constructor (config: ClientConfig)
      requires TokenFromCredential(config)
      ensures this.config == config && connection == None
    {
      this.config := config;
      connection := None;
    }

    /**
     * `connect(model)`: refuses a second connection and an empty model name; otherwise
     * records and returns the connection for the realtime URL with the request id and
     * the auth header.
     */
    method Connect(model: string, requestId: string) returns (r: Result<Connection, ConnectError>)
      modifies this`connection
      ensures old(connection).Some? ==> r == Failure(AlreadyConnected) && connection == old(connection)
      ensures old(connection).None? && model == "" ==> r == Failure(MissingModel) && connection == None
      ensures old(connection).None? && model != "" ==>
        r == Success(ConnectionFor(config, model, requestId)) && connection == Some(r.value)
      ensures r.Success? ==> connection.Some?
    {
      if connection.Some? {
        return Failure(AlreadyConnected);
      }
      if model == "" {
        return Failure(MissingModel);
      }
      var url := RStripSlash(config.endpoint) + "/voice-agent/realtime?api-version="
                 + VersionText(config.apiVersion) + "&model=" + model;
      url := ReplaceHttps(url);
      var auth := AuthHeader(config.token, config.apiKey);
      var conn := Connection(url, [Header("x-ms-client-request-id", Some(requestId)), auth]);
      connection := Some(conn);
      r := Success(conn);
    }
  }
}
