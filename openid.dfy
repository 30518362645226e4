/** The OpenID Connect side of a login or refresh: the authorization request
    built for the browser, the token endpoint's responses, and the provider
    itself as an oracle whose calls are logged. Discovery, HTTP, JWT
    signature and claims checks happen in the `openidconnect` crate and are
    supplied as results. */
module OpenId {
  import opened Wrappers
  import opened Errors

  const DiscoveryFailed: string := "Failed to discover OpenID Provider"
  const TokenEndpointFailed: string := "Failed to access token endpoint"
  const IdTokenUnverified: string := "Failed to verify ID token"

  /** What the token endpoint returned: the access token, its lifetime in
      seconds, and the optional refresh token, ID token and granted scopes. */
  datatype TokenResponse = TokenResponse(
    accessToken: string,
    expiresIn: Option<nat>,
    refreshToken: Option<string>,
    idToken: Option<string>,
    scopes: Option<seq<string>>)

  /** The random values drawn for one login: the CSRF `state`, the nonce and
      the PKCE verifier with its challenge. */
  datatype Secrets = Secrets(csrfState: string, nonce: string, pkceVerifier: string, pkceChallenge: string)

  datatype Prompt = Consent

  /** The authorization request as built before `url()` renders it. */
  datatype AuthRequest = AuthRequest(
    csrfState: string,
    nonce: string,
    extraParams: seq<(string, string)>,
    prompts: seq<Prompt>,
    pkceChallenge: Option<string>,
    scopes: seq<string>)

  /** `client.authorize_url(AuthorizationCode, state, nonce)`. */
  function NewAuthRequest(state: string, nonce: string): AuthRequest {
    AuthRequest(state, nonce, [], [], None, [])
  }

  function AddExtraParam(r: AuthRequest, key: string, value: string): AuthRequest {
    r.(extraParams := r.extraParams + [(key, value)])
  }

  function AddPrompt(r: AuthRequest, p: Prompt): AuthRequest {
    r.(prompts := r.prompts + [p])
  }

  function SetPkceChallenge(r: AuthRequest, challenge: string): AuthRequest {
    r.(pkceChallenge := Some(challenge))
  }

  function AddScope(r: AuthRequest, scope: string): AuthRequest {
    r.(scopes := r.scopes + [scope])
  }

  /** The left fold `scopes.iter().fold(request, add_scope)`. */
  function AddScopes(r: AuthRequest, scopes: seq<string>): AuthRequest
    decreases |scopes|
  {
    if scopes == [] then r else AddScopes(AddScope(r, scopes[0]), scopes[1..])
  }

  /** Folding `add_scope` appends the scopes in order and touches nothing else. */
  lemma {:induction false} AddScopesAppends(r: AuthRequest, scopes: seq<string>)
    ensures AddScopes(r, scopes) == r.(scopes := r.scopes + scopes)
    decreases |scopes|
  {
    if scopes == [] {
      assert r.scopes + scopes == r.scopes;
    } else {
      AddScopesAppends(AddScope(r, scopes[0]), scopes[1..]);
      assert r.scopes + [scopes[0]] + scopes[1..] == r.scopes + scopes;
    }
  }

  /** A refresh-token grant with the scopes added to it. */
  datatype RefreshRequest = RefreshRequest(refreshToken: string, scopes: seq<string>) {
    function AddScope(scope: string): RefreshRequest {
      this.(scopes := scopes + [scope])
    }
  }

  /** How the provider and the `openidconnect` client answer: whether
      discovery succeeds, the token endpoint's answer to a code (with or
      without a PKCE verifier) and to a refresh request, and the expiry of
      an ID token whose claims verify (with the nonce to match, or none). */
  datatype ProviderOracle = ProviderOracle(
    discovers: bool,
    codeGrant: (string, Option<string>) -> Option<TokenResponse>,
    refreshGrant: RefreshRequest -> Option<TokenResponse>,
    claimsExpiry: (string, Option<string>) -> Option<nat>)

  /** A request sent to the provider. */
  datatype Call =
    | Discovery
    | CodeExchange(code: string, pkceVerifier: Option<string>)
    | RefreshExchange(request: RefreshRequest)

  /** The provider, with the log of requests sent to it. */
  class Provider {
    const oracle: ProviderOracle
    var calls: seq<Call>

    constructor (oracle: ProviderOracle)
      ensures this.oracle == oracle && calls == []
    {
      this.oracle := oracle;
      calls := [];
    }

    /** `CoreProviderMetadata::discover` for `https://accounts.google.com`. */
    method Discover() returns (ok: bool)
      modifies this
      ensures ok == oracle.discovers
      ensures calls == old(calls) + [Discovery]
    {
      calls := calls + [Discovery];
      ok := oracle.discovers;
    }

    /** `exchange_code(code)`, with `set_pkce_verifier` when a verifier is given. */
    method ExchangeCode(code: string, verifier: Option<string>) returns (r: Option<TokenResponse>)
      modifies this
      ensures r == oracle.codeGrant(code, verifier)
      ensures calls == old(calls) + [CodeExchange(code, verifier)]
    {
      calls := calls + [CodeExchange(code, verifier)];
      r := oracle.codeGrant(code, verifier);
    }

    /** `exchange_refresh_token(..).request(..)`. */
    method ExchangeRefresh(request: RefreshRequest) returns (r: Option<TokenResponse>)
      modifies this
      ensures r == oracle.refreshGrant(request)
      ensures calls == old(calls) + [RefreshExchange(request)]
    {
      calls := calls + [RefreshExchange(request)];
      r := oracle.refreshGrant(request);
    }
  }

  /** `webbrowser::open`, with the requests it was asked to show. */
  class Browser {
    const failure: Option<IoKind>
    var shown: seq<AuthRequest>

    constructor (failure: Option<IoKind>)
      ensures this.failure == failure && shown == []
    {
      this.failure := failure;
      shown := [];
    }

    method Open(request: AuthRequest) returns (r: Result<(), IoKind>)
      modifies this
      ensures r == (if failure.Some? then Err(failure.value) else Ok(()))
      ensures shown == old(shown) + [request]
    {
      shown := shown + [request];
      if failure.Some? {
        return Err(failure.value);
      }
      return Ok(());
    }
  }

  /** The access token's absolute expiry: `now + expires_in`, or 0 when the
      response gives no lifetime. */
  function AccessExpiry(now: nat, expiresIn: Option<nat>): nat {
    match expiresIn
    case None => 0
    case Some(seconds) => now + seconds
  }
}
