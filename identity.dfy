/**
 * Google OAuth helpers of src/identity.ts: the authorization URL, the
 * id-token flow, and token extraction from a redirected URL.
 *
 * `chrome.identity.getRedirectURL`, `encodeURIComponent`,
 * `decodeURIComponent`, the random nonce and `launchWebAuthFlow` are
 * inputs: functions and values handed to the model.
 */
module Identity {
  import opened Wrappers
  import opened Js

  datatype ResponseType = IdToken | AccessToken

  /** `Partial<GetGoogleOAuthURLOptions>`; options left out altogether are `NoOptions`. */
  datatype OAuthOptions = OAuthOptions(
    redirectPath: Prop<string>,
    responseType: Prop<ResponseType>,
    scopes: Prop<seq<string>>)

  const NoOptions := OAuthOptions(Omitted, Omitted, Omitted)

  /** The options after defaulting; any of them may still be `undefined`. */
  datatype ResolvedOptions = ResolvedOptions(
    redirectPath: Option<string>,
    responseType: Option<ResponseType>,
    scopes: Option<seq<string>>)

  const DefaultScopes: seq<string> := ["profile", "email"]

  /** `{redirectPath: undefined, responseType: 'id_token', scopes: ['profile', 'email'], ...options}`. */
  function Defaults(o: OAuthOptions): (r: ResolvedOptions)
    ensures r.redirectPath == Spread(None, o.redirectPath)
    ensures r.responseType == Spread(Some(IdToken), o.responseType)
    ensures r.scopes == Spread(Some(DefaultScopes), o.scopes)
  {
    ResolvedOptions(
      Spread(None, o.redirectPath),
      Spread(Some(IdToken), o.responseType),
      Spread(Some(DefaultScopes), o.scopes))
  }

  /** Omitted options take their defaults; supplied ones override them. */
  lemma DefaultsApplied(o: OAuthOptions)
    ensures Defaults(NoOptions) == ResolvedOptions(None, Some(IdToken), Some(["profile", "email"]))
    ensures o.responseType == Present(Some(AccessToken)) ==> Defaults(o).responseType == Some(AccessToken)
    ensures o.scopes.Present? ==> Defaults(o).scopes == o.scopes.value
    ensures o.redirectPath.Present? ==> Defaults(o).redirectPath == o.redirectPath.value
  {
  }

  /** `parts.join(sep)`. */
  function Join(parts: seq<string>, sep: string): string
  {
    if |parts| == 0 then ""
    else if |parts| == 1 then parts[0]
    else parts[0] + sep + Join(parts[1..], sep)
  }

  /** The `response_type` parameter: `token` exactly for access tokens, else `id_token`. */
  function ResponseTypeParam(rt: Option<ResponseType>): (p: string)
    ensures p == "token" <==> rt == Some(AccessToken)
    ensures p != "token" ==> p == "id_token"
  {
    if rt == Some(AccessToken) then "token" else "id_token"
  }

  /** The host and library functions the URL is assembled from. */
  datatype UrlEnv = UrlEnv(
    redirectUrl: Option<string> -> string,  // chrome.identity.getRedirectURL
    encode: string -> string,               // encodeURIComponent
    nonce: string)                          // Math.random().toString(36).substring(2)

  const Endpoint: string := "https://accounts.google.com/o/oauth2/v2/auth"

  /** The error `scopes.join` throws when the scopes were explicitly `undefined`. */
  const ScopesUndefined: string := "TypeError: Cannot read properties of undefined (reading 'join')"

  /** `getGoogleOauthURL`. */
  function OAuthUrl(clientId: string, options: OAuthOptions, env: UrlEnv): (r: Result<string, string>)
    ensures r.Failure? <==> Defaults(options).scopes.None?
  {
    var o := Defaults(options);
    match o.scopes
    case None => Failure(ScopesUndefined)
    case Some(scopes) =>
      Success(Endpoint
        + "?client_id=" + env.encode(clientId)
        + "&response_type=" + ResponseTypeParam(o.responseType)
        + "&redirect_uri=" + env.encode(env.redirectUrl(o.redirectPath))
        + "&scope=" + env.encode(Join(scopes, " "))
        + (if o.responseType == Some(IdToken) then "&nonce=" + env.nonce else ""))
  }

  /** One query parameter. */
  datatype Param = Param(name: string, value: string)

  /** `url` followed by the parameters as `name=value`, the first after `sep` and the others after `&`. */
  function AppendParams(url: string, sep: string, ps: seq<Param>): string
    decreases |ps|
  {
    if |ps| == 0 then url
    else AppendParams(url + sep + ps[0].name + "=" + ps[0].value, "&", ps[1..])
  }

  /** The parameter names of a parameter list, in order. */
  function Names(ps: seq<Param>): (r: seq<string>)
    ensures |r| == |ps| && forall k :: 0 <= k < |ps| ==> r[k] == ps[k].name
  {
    seq(|ps|, k requires 0 <= k < |ps| => ps[k].name)
  }

  /** The query parameters of the authorization URL, independently of how the string is built. */
  function OAuthParams(clientId: string, o: ResolvedOptions, scopes: seq<string>, env: UrlEnv): seq<Param>
  {
    [ Param("client_id", env.encode(clientId)),
      Param("response_type", ResponseTypeParam(o.responseType)),
      Param("redirect_uri", env.encode(env.redirectUrl(o.redirectPath))),
      Param("scope", env.encode(Join(scopes, " ")))
    ] + (if o.responseType == Some(IdToken) then [Param("nonce", env.nonce)] else [])
  }

  /**
   * The URL is the fixed endpoint and a query whose parameters are
   * `client_id`, `response_type`, `redirect_uri` and `scope` in that order,
   * followed by `nonce` exactly when id tokens are requested; the scope
   * value is the scopes joined by one space, then encoded.
   */
  lemma OAuthUrlShape(clientId: string, options: OAuthOptions, env: UrlEnv)
    requires Defaults(options).scopes.Some?
    ensures var o := Defaults(options);
            var ps := OAuthParams(clientId, o, o.scopes.value, env);
            && OAuthUrl(clientId, options, env) == Success(AppendParams(Endpoint, "?", ps))
            && Names(ps) == ["client_id", "response_type", "redirect_uri", "scope"]
                            + (if o.responseType == Some(IdToken) then ["nonce"] else [])
            && ps[1].value == (if o.responseType == Some(AccessToken) then "token" else "id_token")
            && ps[3].value == env.encode(Join(o.scopes.value, " "))
  {
    var o := Defaults(options);
    TemplateIsQuery(Endpoint, env.encode(clientId), ResponseTypeParam(o.responseType),
      env.encode(env.redirectUrl(o.redirectPath)), env.encode(Join(o.scopes.value, " ")),
      o.responseType == Some(IdToken), env.nonce);
  }

  /** The source's string template is the parameter list appended in order. */
  lemma TemplateIsQuery(e: string, v0: string, v1: string, v2: string, v3: string, withNonce: bool, nonce: string)
    ensures e + "?client_id=" + v0 + "&response_type=" + v1 + "&redirect_uri=" + v2 + "&scope=" + v3
            + (if withNonce then "&nonce=" + nonce else "")
            == AppendParams(e, "?", [Param("client_id", v0), Param("response_type", v1),
                                     Param("redirect_uri", v2), Param("scope", v3)]
                                    + (if withNonce then [Param("nonce", nonce)] else []))
  {
    var t := if withNonce then [Param("nonce", nonce)] else [];
    var ps := [Param("client_id", v0), Param("response_type", v1), Param("redirect_uri", v2), Param("scope", v3)] + t;
    var u0 := e + "?client_id=" + v0;
    assert u0 == e + "?" + "client_id" + "=" + v0;
    var u1 := u0 + "&response_type=" + v1;
    assert u1 == u0 + "&" + "response_type" + "=" + v1;
    var u2 := u1 + "&redirect_uri=" + v2;
    assert u2 == u1 + "&" + "redirect_uri" + "=" + v2;
    var u3 := u2 + "&scope=" + v3;
    assert u3 == u2 + "&" + "scope" + "=" + v3;
    assert ps[1..][1..][1..][1..] == t;
    assert AppendParams(e, "?", ps) == AppendParams(u0, "&", ps[1..]);
    assert AppendParams(u0, "&", ps[1..]) == AppendParams(u1, "&", ps[1..][1..]);
    assert AppendParams(u1, "&", ps[1..][1..]) == AppendParams(u2, "&", ps[1..][1..][1..]);
    assert AppendParams(u2, "&", ps[1..][1..][1..]) == AppendParams(u3, "&", t);
    if withNonce {
      var u4 := u3 + "&nonce=" + nonce;
      assert u4 == u3 + "&" + "nonce" + "=" + nonce;
      assert AppendParams(u3, "&", t) == u4;
    }
  }

  /** With no options the URL asks for an id token, with a nonce, for the scopes `profile email`. */
  lemma DefaultUrl(clientId: string, env: UrlEnv)
    ensures OAuthUrl(clientId, NoOptions, env) == Success(AppendParams(Endpoint, "?", [
              Param("client_id", env.encode(clientId)),
              Param("response_type", "id_token"),
              Param("redirect_uri", env.encode(env.redirectUrl(None))),
              Param("scope", env.encode("profile email")),
              Param("nonce", env.nonce)]))
  {
    assert Join(DefaultScopes, " ") == "profile email";
    OAuthUrlShape(clientId, NoOptions, env);
    assert OAuthParams(clientId, Defaults(NoOptions), DefaultScopes, env) == [
      Param("client_id", env.encode(clientId)),
      Param("response_type", "id_token"),
      Param("redirect_uri", env.encode(env.redirectUrl(None))),
      Param("scope", env.encode("profile email")),
      Param("nonce", env.nonce)];
  }

  // ---------------------------------------------------------------------
  // Token extraction: the regular expression /[#&]KEY=([^&]+)/
  // ---------------------------------------------------------------------

  /** Where the captured run starts for a match at position i. */
  function CaptureStart(key: string, i: nat): nat
  {
    i + |key| + 2
  }

  /** `[#&]KEY=` followed by at least one character other than `&` starts at position i. */
  predicate MatchesAt(s: string, key: string, i: nat)
  {
    && CaptureStart(key, i) < |s|
    && (s[i] == '#' || s[i] == '&')
    && s[i + 1..i + 1 + |key|] == key
    && s[i + 1 + |key|] == '='
    && s[CaptureStart(key, i)] != '&'
  }

  /** The end of the run of characters other than `&` that starts at j: `[^&]+` is greedy. */
  function RunEnd(s: string, j: nat): (e: nat)
    requires j <= |s|
    ensures j <= e <= |s|
    ensures forall k :: j <= k < e ==> s[k] != '&'
    ensures e == |s| || s[e] == '&'
    decreases |s| - j
  {
    if j == |s| || s[j] == '&' then j else RunEnd(s, j + 1)
  }

  /** The leftmost match at or after position i. */
  function FindMatch(s: string, key: string, i: nat): (r: Option<nat>)
    ensures r.Some? ==> i <= r.value && MatchesAt(s, key, r.value)
    ensures r.Some? ==> forall j :: i <= j < r.value ==> !MatchesAt(s, key, j)
    ensures r.None? ==> forall j :: i <= j ==> !MatchesAt(s, key, j)
    decreases |s| - i
  {
    if i >= |s| then None
    else if MatchesAt(s, key, i) then Some(i)
    else FindMatch(s, key, i + 1)
  }

  /** The captured group of the first match, before decoding. */
  function Capture(s: string, key: string): (c: Option<string>)
    ensures c.None? <==> forall i :: !MatchesAt(s, key, i)
    ensures c.Some? ==> exists i :: MatchesAt(s, key, i) && (forall j :: j < i ==> !MatchesAt(s, key, j))
                                    && c.value == s[CaptureStart(key, i)..RunEnd(s, CaptureStart(key, i))]
    ensures c.Some? ==> |c.value| > 0 && '&' !in c.value
  {
    match FindMatch(s, key, 0)
    case None => None
    case Some(i) => Some(s[CaptureStart(key, i)..RunEnd(s, CaptureStart(key, i))])
  }

  /**
   * `redirectedUrl.match(/[#&]KEY=([^&]+)/)` then `decodeURIComponent` of
   * the group; `decode` fails where `decodeURIComponent` throws.
   */
  function ExtractToken(redirectedUrl: string, key: string, decode: string -> Result<string, string>)
    : (r: Result<Option<string>, string>)
    ensures r == Success(None) <==> forall i :: !MatchesAt(redirectedUrl, key, i)
    ensures Capture(redirectedUrl, key).Some? ==>
              r == (match decode(Capture(redirectedUrl, key).value)
                    case Success(t) => Success(Some(t))
                    case Failure(e) => Failure(e))
  {
    match Capture(redirectedUrl, key)
    case None => Success(None)
    case Some(c) =>
      match decode(c)
      case Success(t) => Success(Some(t))
      case Failure(e) => Failure(e)
  }

  /** `extractIdToken`. */
  function ExtractIdToken(redirectedUrl: string, decode: string -> Result<string, string>)
    : (r: Result<Option<string>, string>)
    ensures r == Success(None) <==> forall i :: !MatchesAt(redirectedUrl, "id_token", i)
  {
    ExtractToken(redirectedUrl, "id_token", decode)
  }

  /** `extractAccessToken`. */
  function ExtractAccessToken(redirectedUrl: string, decode: string -> Result<string, string>)
    : (r: Result<Option<string>, string>)
    ensures r == Success(None) <==> forall i :: !MatchesAt(redirectedUrl, "access_token", i)
  {
    ExtractToken(redirectedUrl, "access_token", decode)
  }

  /** No character of s is `#` or `&`. */
  predicate NoDelimiters(s: string)
  {
    forall k :: 0 <= k < |s| ==> s[k] != '#' && s[k] != '&'
  }

  /** RunEnd stops exactly at the first `&` or at the end. */
  lemma {:induction false} RunEndIs(s: string, j: nat, e: nat)
    requires j <= e <= |s|
    requires forall k :: j <= k < e ==> s[k] != '&'
    requires e == |s| || s[e] == '&'
    ensures RunEnd(s, j) == e
    decreases e - j
  {
    if j < e {
      RunEndIs(s, j + 1, e);
    }
  }

  /** In `prefix + "#KEY=" + token + rest`, the leftmost match is where the fragment starts. */
  lemma FragmentMatch(s: string, prefix: string, key: string, token: string, rest: string)
    requires s == prefix + ("#" + key + "=") + token + rest
    requires NoDelimiters(prefix) && |token| > 0 && token[0] != '&'
    ensures MatchesAt(s, key, |prefix|)
    ensures forall j: nat :: j < |prefix| ==> !MatchesAt(s, key, j)
  {
    var i := |prefix|;
    assert s[i + 1..i + 1 + |key|] == key;
    assert s[CaptureStart(key, i)] == token[0];
    forall j: nat | j < i
      ensures !MatchesAt(s, key, j)
    {
      assert s[j] == prefix[j];
    }
  }

  /** ... and the run captured there is exactly the token. */
  lemma FragmentRun(s: string, prefix: string, key: string, token: string, rest: string)
    requires s == prefix + ("#" + key + "=") + token + rest
    requires '&' !in token
    requires rest == [] || rest[0] == '&'
    ensures var c := CaptureStart(key, |prefix|);
            c + |token| <= |s| && RunEnd(s, c) == c + |token| && s[c..c + |token|] == token
  {
    var c := CaptureStart(key, |prefix|);
    forall k | c <= k < c + |token|
      ensures s[k] != '&'
    {
      assert s[k] == token[k - c];
    }
    RunEndIs(s, c, c + |token|);
    assert s[c..c + |token|] == token;
  }

  /**
   * The shape the host redirects to: a URL with no `#` or `&`, then the
   * fragment `#KEY=TOKEN`, then nothing or further `&...` parameters. The
   * whole token is captured, and nothing after it.
   */
  lemma FragmentToken(prefix: string, key: string, token: string, rest: string)
    requires NoDelimiters(prefix)
    requires |token| > 0 && '&' !in token
    requires rest == [] || rest[0] == '&'
    ensures Capture(prefix + ("#" + key + "=") + token + rest, key) == Some(token)
  {
    var s := prefix + ("#" + key + "=") + token + rest;
    FragmentMatch(s, prefix, key, token, rest);
    FragmentRun(s, prefix, key, token, rest);
    var i' :| MatchesAt(s, key, i') && (forall j :: j < i' ==> !MatchesAt(s, key, j))
              && Capture(s, key).value == s[CaptureStart(key, i')..RunEnd(s, CaptureStart(key, i'))];
    assert i' == |prefix|;
  }

  /** On that shape the id token is the decoded fragment value. */
  lemma ExtractIdTokenFromFragment(prefix: string, token: string, rest: string,
                                   decode: string -> Result<string, string>)
    requires NoDelimiters(prefix)
    requires |token| > 0 && '&' !in token
    requires rest == [] || rest[0] == '&'
    requires decode(token).Success?
    ensures ExtractIdToken(prefix + "#id_token=" + token + rest, decode) == Success(Some(decode(token).value))
  {
    assert "#id_token=" == "#" + "id_token" + "=";
    FragmentToken(prefix, "id_token", token, rest);
  }

  // ---------------------------------------------------------------------
  // getGoogleIdToken
  // ---------------------------------------------------------------------

  /** `Partial<Omit<GetGoogleOAuthURLOptions, 'responseType'>>`. */
  datatype IdTokenOptions = IdTokenOptions(redirectPath: Prop<string>, scopes: Prop<seq<string>>)

  /** The options `getGoogleIdToken` passes on: `{...options, responseType: 'id_token'}`. */
  function IdTokenUrlOptions(options: IdTokenOptions): (o: OAuthOptions)
    ensures Defaults(o).responseType == Some(IdToken)
    ensures o.redirectPath == options.redirectPath && o.scopes == options.scopes
  {
    OAuthOptions(options.redirectPath, Present(Some(IdToken)), options.scopes)
  }

  /** The details `launchWebAuthFlow` hands to the host. */
  datatype WebAuthFlowDetails = WebAuthFlowDetails(url: string, interactive: bool)

  function LaunchWebAuthFlow(url: string): (d: WebAuthFlowDetails)
    ensures d.url == url && d.interactive
  {
    WebAuthFlowDetails(url, true)
  }

  /**
   * `getGoogleIdToken`. `flow` is the host's web-auth flow: it fails when
   * the flow throws, and otherwise gives the redirected URL or `undefined`.
   * A URL that cannot be built rejects the call before the flow starts.
   */
  function GoogleIdToken(
    clientId: string, options: IdTokenOptions, env: UrlEnv,
    flow: WebAuthFlowDetails -> Result<Option<string>, string>,
    decode: string -> Result<string, string>): (r: Result<Option<string>, string>)
    ensures Defaults(IdTokenUrlOptions(options)).scopes.None? ==> r == Failure(ScopesUndefined)
    ensures Defaults(IdTokenUrlOptions(options)).scopes.Some? && r.Failure? ==>
              var result := flow(LaunchWebAuthFlow(OAuthUrl(clientId, IdTokenUrlOptions(options), env).value));
              result.Success? && result.value.Some? && result.value.value != ""
              && ExtractIdToken(result.value.value, decode) == r
  {
    match OAuthUrl(clientId, IdTokenUrlOptions(options), env)
    case Failure(e) => Failure(e)
    case Success(url) =>
      match flow(LaunchWebAuthFlow(url))
      case Failure(_) => Success(None)
      case Success(result) =>
        if result.None? || result.value == "" then Success(None)
        else ExtractIdToken(result.value, decode)
  }

  /**
   * The flow always starts from an id-token URL with a nonce; a failing
   * flow or an empty result gives `undefined`; otherwise the result is
   * `extractIdToken` of what the flow returned.
   */
  lemma GoogleIdTokenFlow(
    clientId: string, options: IdTokenOptions, env: UrlEnv,
    flow: WebAuthFlowDetails -> Result<Option<string>, string>,
    decode: string -> Result<string, string>)
    requires Defaults(IdTokenUrlOptions(options)).scopes.Some?
    ensures var o := Defaults(IdTokenUrlOptions(options));
            var url := AppendParams(Endpoint, "?", OAuthParams(clientId, o, o.scopes.value, env));
            && Names(OAuthParams(clientId, o, o.scopes.value, env))
               == ["client_id", "response_type", "redirect_uri", "scope", "nonce"]
            && OAuthParams(clientId, o, o.scopes.value, env)[1].value == "id_token"
            && GoogleIdToken(clientId, options, env, flow, decode) ==
               match flow(WebAuthFlowDetails(url, true))
               case Failure(_) => Success(None)
               case Success(result) =>
                 if result.None? || result.value == "" then Success(None)
                 else ExtractIdToken(result.value, decode)
  {
    OAuthUrlShape(clientId, IdTokenUrlOptions(options), env);
  }

  /** Explicitly `undefined` scopes make the call reject before any flow starts. */
  lemma GoogleIdTokenUndefinedScopes(
    clientId: string, redirectPath: Prop<string>, env: UrlEnv,
    flow: WebAuthFlowDetails -> Result<Option<string>, string>,
    decode: string -> Result<string, string>)
    ensures GoogleIdToken(clientId, IdTokenOptions(redirectPath, Present(None)), env, flow, decode)
            == Failure(ScopesUndefined)
  {
  }
}
