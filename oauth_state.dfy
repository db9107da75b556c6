/** The deterministic OAuth `state` value that binds an authorization redirect to one twin,
    and the parameter set of the authorization URL that carries it. */
module OAuthState {
  import opened Wrappers
  import opened Text
  import opened Twins
  import opened Credentials

  /** The fixed salt appended to the hashed text. */
  const Salt: string := "oura_twin_study"

  /** Number of hex characters of the digest kept in the state. */
  const DigestLength: nat := 16

  /** Python's `s[:n]`: the first `n` characters, or all of `s` when it is shorter. */
  function Take(s: string, n: nat): (r: string)
    ensures |r| == if |s| < n then |s| else n
    ensures r == s[..|r|]
  {
    if |s| <= n then s else s[..n]
  }

  /** The text whose SHA-256 digest is taken: `f"{client_id}_{twin}_oura_twin_study"`. */
  function DigestInput(clientId: string, twin: Twin): string {
    clientId + "_" + twin.Name() + "_" + Salt
  }

  /** `generate_oauth_state`: `twin + "_" + hexdigest(...)[:16]`. `hexdigest` stands for
      `hashlib.sha256(text.encode()).hexdigest()`, which is not modelled. */
  function GenerateOAuthState(hexdigest: string -> string, clientId: string, twin: Twin): (state: string)
    ensures StartsWith(state, twin.Name() + "_")
    ensures state[|twin.Name()| + 1..] == Take(hexdigest(DigestInput(clientId, twin)), DigestLength)
  {
    twin.Name() + "_" + Take(hexdigest(DigestInput(clientId, twin)), DigestLength)
  }

  /** The two twins never share a state, whatever the digest. */
  lemma {:induction false} StatesDiffer(hexdigest: string -> string, clientId: string, t: Twin)
    ensures GenerateOAuthState(hexdigest, clientId, t) != GenerateOAuthState(hexdigest, clientId, t.Other())
  {
    NamesDiffer(t);
    DistinctPrefixes(GenerateOAuthState(hexdigest, clientId, t), t.Name(), t.Other().Name());
  }

  /** The state is accepted for twin `t` exactly when it equals the state regenerated for `t`;
      a state accepted for `t` carries `t`'s prefix and is refused for the other twin. */
  function CheckState(hexdigest: string -> string, clientId: string, state: string, t: Twin): (r: Option<Twin>)
    ensures r.Some? <==> state == GenerateOAuthState(hexdigest, clientId, t)
    ensures r.Some? ==> r.value == t && StartsWith(state, t.Name() + "_")
    ensures r.Some? ==> state != GenerateOAuthState(hexdigest, clientId, t.Other())
  {
    StatesDiffer(hexdigest, clientId, t);
    if state == GenerateOAuthState(hexdigest, clientId, t) then Some(t) else None
  }

  /** `parse_oauth_state`: read the `twin_a_`/`twin_b_` prefix, regenerate the state for that
      twin and require an exact match. The result is a twin exactly when the state is one of
      the two generated states, and then it is that state's twin. */
  function ParseOAuthState(hexdigest: string -> string, clientId: string, state: string): (r: Option<Twin>)
    ensures r.Some? ==> state == GenerateOAuthState(hexdigest, clientId, r.value)
    ensures r.None? <==> (state != GenerateOAuthState(hexdigest, clientId, TwinA) &&
                          state != GenerateOAuthState(hexdigest, clientId, TwinB))
    ensures state == "" ==> r == None
    ensures !StartsWith(state, "twin_a_") && !StartsWith(state, "twin_b_") ==> r == None
  {
    StatesDiffer(hexdigest, clientId, TwinA);
    if state == "" then None
    else if StartsWith(state, "twin_a_") then
      assert "twin_a" != "twin_b";
      DistinctPrefixes(state, "twin_a", "twin_b");
      CheckState(hexdigest, clientId, state, TwinA)
    else if StartsWith(state, "twin_b_") then
      CheckState(hexdigest, clientId, state, TwinB)
    else
      None
  }

  /** Round trip: for a fixed client id, parsing a generated state gives back its twin. */
  lemma {:induction false} StateRoundTrip(hexdigest: string -> string, clientId: string, t: Twin)
    ensures ParseOAuthState(hexdigest, clientId, GenerateOAuthState(hexdigest, clientId, t)) == Some(t)
  {
    StatesDiffer(hexdigest, clientId, t);
  }

  /** The authorization endpoint and the scope set requested. */
  const OuraAuthUrl: string := "https://cloud.ouraring.com/oauth/authorize"
  const OuraScopes: string := "email personal daily heartrate spo2"

  /** The query parameters of the authorization URL. */
  datatype QueryKey = ResponseType | ClientId | RedirectUri | Scope | State | Prompt {
    /** The parameter's name on the wire. */
    function Name(): string {
      match this
      case ResponseType => "response_type"
      case ClientId => "client_id"
      case RedirectUri => "redirect_uri"
      case Scope => "scope"
      case State => "state"
      case Prompt => "prompt"
    }
  }

  /** An authorization URL as its base and its query parameters, in order. The URL text is
      `base + "?" + urlencode(...)` over the parameters' names and values; `urlencode` is not
      modelled. */
  datatype AuthorizationUrl = AuthorizationUrl(base: string, params: seq<(QueryKey, string)>)

  /** The value of the first parameter under `key`. */
  function Param(params: seq<(QueryKey, string)>, key: QueryKey): Option<string> {
    if params == [] then None
    else if params[0].0 == key then Some(params[0].1)
    else Param(params[1..], key)
  }

  /** A found value is one of the parameters under the key; nothing is found exactly when no
      parameter has the key. */
  lemma {:induction false} ParamFound(params: seq<(QueryKey, string)>, key: QueryKey)
    ensures Param(params, key).Some? ==> (key, Param(params, key).value) in params
    ensures Param(params, key).None? <==> forall i :: 0 <= i < |params| ==> params[i].0 != key
  {
    if params != [] && params[0].0 != key {
      ParamFound(params[1..], key);
      if Param(params, key).None? {
        forall i | 0 <= i < |params|
          ensures params[i].0 != key
        {
          if i > 0 {
            assert params[i] == params[1..][i - 1];
          }
        }
      }
    }
  }

  /** A parameter is found at the first position that holds its key. */
  lemma {:induction false} ParamAt(params: seq<(QueryKey, string)>, i: nat)
    requires i < |params|
    requires forall j :: 0 <= j < i ==> params[j].0 != params[i].0
    ensures Param(params, params[i].0) == Some(params[i].1)
  {
    if i > 0 {
      ParamAt(params[1..], i - 1);
    }
  }

  /** The query parameters of the authorization URL, in the order the source builds them. */
  function AuthorizationParams(clientId: string, redirectUri: string, state: string): seq<(QueryKey, string)> {
    [(ResponseType, "code"),
     (ClientId, clientId),
     (RedirectUri, redirectUri),
     (Scope, OuraScopes),
     (State, state),
     (Prompt, "login")]
  }

  /** In a parameter list that holds each key once, in the order of the authorization URL,
      each value is found under its own key. */
  lemma ParamsByKey(code: string, clientId: string, redirectUri: string, scope: string, state: string, prompt: string)
    ensures var params := [(ResponseType, code), (ClientId, clientId), (RedirectUri, redirectUri),
                           (Scope, scope), (State, state), (Prompt, prompt)];
            && Param(params, ResponseType) == Some(code)
            && Param(params, ClientId) == Some(clientId)
            && Param(params, RedirectUri) == Some(redirectUri)
            && Param(params, Scope) == Some(scope)
            && Param(params, State) == Some(state)
            && Param(params, Prompt) == Some(prompt)
  {
    var params := [(ResponseType, code), (ClientId, clientId), (RedirectUri, redirectUri),
                   (Scope, scope), (State, state), (Prompt, prompt)];
    ParamAt(params, 0);
    ParamAt(params, 1);
    ParamAt(params, 2);
    ParamAt(params, 3);
    ParamAt(params, 4);
    ParamAt(params, 5);
  }

  /** Each parameter of the authorization URL is found under its own key. */
  lemma AuthorizationParamsLookup(clientId: string, redirectUri: string, state: string)
    ensures Param(AuthorizationParams(clientId, redirectUri, state), ResponseType) == Some("code")
    ensures Param(AuthorizationParams(clientId, redirectUri, state), ClientId) == Some(clientId)
    ensures Param(AuthorizationParams(clientId, redirectUri, state), RedirectUri) == Some(redirectUri)
    ensures Param(AuthorizationParams(clientId, redirectUri, state), Scope) == Some(OuraScopes)
    ensures Param(AuthorizationParams(clientId, redirectUri, state), State) == Some(state)
    ensures Param(AuthorizationParams(clientId, redirectUri, state), Prompt) == Some("login")
  {
    ParamsByKey("code", clientId, redirectUri, OuraScopes, state, "login");
  }

  /** `get_authorization_url`: the code-flow parameters for the saved client, the fixed scope
      set, the twin's state and a forced fresh login. Its state parses back to the same twin
      under the same client id. */
  function GetAuthorizationUrl(hexdigest: string -> string, cred: Credential, twin: Twin): (u: AuthorizationUrl)
    ensures u.base == OuraAuthUrl
    ensures Param(u.params, ResponseType) == Some("code")
    ensures Param(u.params, ClientId) == Some(cred.clientId)
    ensures Param(u.params, RedirectUri) == Some(cred.redirectUri)
    ensures Param(u.params, Scope) == Some(OuraScopes)
    ensures Param(u.params, Prompt) == Some("login")
    ensures Param(u.params, State).Some?
    ensures ParseOAuthState(hexdigest, cred.clientId, Param(u.params, State).value) == Some(twin)
  {
    var state := GenerateOAuthState(hexdigest, cred.clientId, twin);
    StateRoundTrip(hexdigest, cred.clientId, twin);
    AuthorizationParamsLookup(cred.clientId, cred.redirectUri, state);
    AuthorizationUrl(OuraAuthUrl, AuthorizationParams(cred.clientId, cred.redirectUri, state))
  }
}
