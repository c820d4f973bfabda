/**
 * lib/api/auth.ts: `generateToken`, which posts the app credentials to the
 * token endpoint and turns the reply into a token with an absolute expiry in
 * seconds. The environment variables, the clock (`Date.now()`, in
 * milliseconds) and the reply (its text, and its parse when it is JSON) enter
 * as values.
 */
module Auth {
  import opened Js
  import opened Form

  const GenerateTokenUrl := "https://aysha.erpgulf.com/api/method/gpos.gpos.pos.generate_token_secure"
  /** Seconds subtracted from the server's lifetime. */
  const ExpiryMargin := 30
  const NotJsonPrefix := "generateToken failed: Response was not JSON -> "

  /** The three environment variables after `|| ""`. */
  datatype Credentials = Credentials(apiKey: string, apiSecret: string, appKey: string)

  /** The declared `TokenResponse` shape; `None` stands for a field that is absent or null. */
  datatype TokenData = TokenData(accessToken: Option<string>, expiresIn: Option<int>)
  datatype TokenResponse = TokenResponse(data: Option<TokenData>)

  /** The reply: its raw text and, when `JSON.parse` accepts it, the parsed value. */
  datatype TokenReply = TokenReply(text: string, parsed: Option<TokenResponse>)

  /** `{ access_token, expires_at }` */
  datatype Grant = Grant(accessToken: string, expiresAt: int)

  predicate HasCredentials(c: Credentials)
  {
    c.apiKey != "" && c.apiSecret != "" && c.appKey != ""
  }

  /**
   * The form body of the token request, or `None` when a credential is empty
   * and no request is made at all.
   */
  method TokenRequestBody(c: Credentials) returns (body: Option<seq<Field>>)
    ensures body.None? <==> !HasCredentials(c)
    ensures body.Some? ==> body.value == [("api_key", c.apiKey), ("api_secret", c.apiSecret), ("app_key", c.appKey)]
    ensures body.Some? ==> Names(body.value) == ["api_key", "api_secret", "app_key"]
  {
    if c.apiKey == "" || c.apiSecret == "" || c.appKey == "" {
      return None;
    }
    var b := new SearchParams();
    b.Append("api_key", c.apiKey);
    b.Append("api_secret", c.apiSecret);
    b.Append("app_key", c.appKey);
    body := Some(b.entries);
  }

  /** `Math.floor(Date.now() / 1000) + expires_in - 30` (Dafny's `/` by a positive divisor is the floor). */
  function ExpiresAt(nowMs: int, expiresIn: int): int
  {
    nowMs / 1000 + expiresIn - ExpiryMargin
  }

  /** `json?.data?.access_token ?? ""` */
  function AccessTokenOf(r: TokenResponse): string
  {
    match r.data
    case Some(TokenData(Some(t), _)) => t
    case _ => ""
  }

  /** `Number(json?.data?.expires_in ?? 0)` */
  function ExpiresInOf(r: TokenResponse): int
  {
    match r.data
    case Some(TokenData(_, Some(e))) => e
    case _ => 0
  }

  /** What `generateToken` yields from the reply once the request was made. */
  function GrantFromReply(reply: TokenReply, nowMs: int): Result<Option<Grant>>
  {
    match reply.parsed
    case None => Err(NotJsonPrefix + reply.text)
    case Some(json) =>
      var token := AccessTokenOf(json);
      if token == "" then Ok(None)
      else Ok(Some(Grant(token, ExpiresAt(nowMs, ExpiresInOf(json)))))
  }

  /** `generateToken()`: null without a request when a credential is missing. */
  function GenerateToken(c: Credentials, reply: TokenReply, nowMs: int): (r: Result<Option<Grant>>)
    ensures r.Err? <==> HasCredentials(c) && reply.parsed.None?
    ensures r.Ok? && r.value.Some? ==>
      && HasCredentials(c) && r.value.value.accessToken != ""
      && r.value.value.accessToken == AccessTokenOf(reply.parsed.value)
  {
    if !HasCredentials(c) then Ok(None) else GrantFromReply(reply, nowMs)
  }

  /** A missing credential yields null, whatever the reply would have been. */
  lemma MissingCredentialsYieldNull(c: Credentials, reply: TokenReply, nowMs: int)
    requires c.apiKey == "" || c.apiSecret == "" || c.appKey == ""
    ensures forall other: TokenReply :: GenerateToken(c, other, nowMs) == Ok(None)
    ensures GenerateToken(c, reply, nowMs) == Ok(None)
  {
  }

  /** A reply that is not JSON makes `generateToken` throw; it never yields null. */
  lemma NonJsonThrows(c: Credentials, reply: TokenReply, nowMs: int)
    requires HasCredentials(c) && reply.parsed.None?
    ensures GenerateToken(c, reply, nowMs).Err?
    ensures GenerateToken(c, reply, nowMs).error == NotJsonPrefix + reply.text
  {
  }

  /**
   * With credentials and a JSON reply, the result is null exactly when
   * `data.access_token` is missing or empty; otherwise the token is that
   * access token, unchanged.
   */
  lemma GrantCarriesAccessToken(c: Credentials, reply: TokenReply, nowMs: int)
    requires HasCredentials(c) && reply.parsed.Some?
    ensures GenerateToken(c, reply, nowMs).Ok?
    ensures GenerateToken(c, reply, nowMs).value.None? <==>
      match reply.parsed.value.data
      case Some(TokenData(Some(t), _)) => t == ""
      case _ => true
    ensures GenerateToken(c, reply, nowMs).value.Some? ==>
      reply.parsed.value.data.Some? && reply.parsed.value.data.value.accessToken ==
        Some(GenerateToken(c, reply, nowMs).value.value.accessToken)
      && GenerateToken(c, reply, nowMs).value.value.accessToken != ""
  {
  }

  /**
   * The expiry is the current time in whole seconds (rounded down) plus the
   * reported lifetime (0 when missing) minus the 30-second margin.
   */
  lemma ExpiryArithmetic(c: Credentials, reply: TokenReply, nowMs: int)
    requires HasCredentials(c) && reply.parsed.Some? && AccessTokenOf(reply.parsed.value) != ""
    ensures GenerateToken(c, reply, nowMs).Ok? && GenerateToken(c, reply, nowMs).value.Some?
    ensures var g := GenerateToken(c, reply, nowMs).value.value;
      var seconds := g.expiresAt - ExpiresInOf(reply.parsed.value) + ExpiryMargin;
      seconds * 1000 <= nowMs < seconds * 1000 + 1000
    ensures reply.parsed.value.data.None? || reply.parsed.value.data.value.expiresIn.None? ==>
      GenerateToken(c, reply, nowMs).value.value.expiresAt == nowMs / 1000 - ExpiryMargin
  {
    var q := nowMs / 1000;
    assert nowMs == q * 1000 + nowMs % 1000;
  }
}
