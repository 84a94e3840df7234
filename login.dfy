/**
 * `login_with_credentials` and its stages: bootstrap, credential login,
 * extraction of the `glt_` login token, JWT retrieval, and the login callback.
 * Every request goes through the transport, which answers with a tagged
 * outcome per stage; the session's cookie jar after the credential login and
 * after the callback is part of that answer.
 */
module Login {
  import opened Wrappers
  import opened Cookies
  import opened Jwt

  /** The monitor's settings: `username`, `password`, `cookies`, `bark_key`. */
  type Config = map<string, string>

  /** The fields of a JSON reply the pipeline reads: `errorCode` and `id_token`. */
  datatype ApiBody = ApiBody(errorCode: Option<int>, idToken: Option<string>)

  /**
   * The outcome of one POST: it raised (network error, timeout), or it came
   * back with a status code and a body that is a JSON object (`Some`) or not.
   */
  datatype PostOutcome = PostFailed | Posted(status: int, body: Option<ApiBody>)

  /** What the transport answers during one run of the pipeline. */
  datatype LoginAttempt = LoginAttempt(
    bootstrap: PostOutcome,
    login: PostOutcome,
    jarAfterLogin: Jar,
    jwt: PostOutcome,
    callback: PostOutcome,
    jarAfterCallback: Jar)

  /** The pipeline's checks, in the order the code performs them. */
  datatype Stage =
    | Bootstrap        // the bootstrap POST answered 200
    | CredentialLogin  // credentials are configured; the login POST answered 200 with `errorCode == 0`
    | TokenExtraction  // the jar holds a `glt_` cookie with a non-empty value
    | JwtRetrieval     // the JWT POST answered 200 with `errorCode == 0` and a non-empty `id_token`
    | TokenDecode      // the token's payload decodes to non-empty claims
    | CallbackRequest  // the callback POST answered 200
    | IdentityCookie   // the jar holds `UcasIdentity`
    | CookieCollection // the jar is not empty

  /** Position of a stage in the pipeline. */
  function Rank(s: Stage): nat
  {
    match s
    case Bootstrap => 0
    case CredentialLogin => 1
    case TokenExtraction => 2
    case JwtRetrieval => 3
    case TokenDecode => 4
    case CallbackRequest => 5
    case IdentityCookie => 6
    case CookieCollection => 7
  }

  /** The result of one run: the new cookie header, or the first stage that failed. */
  datatype PipelineResult = LoggedIn(header: string) | Failed(stage: Stage)

  const StatusOk: int := 200

  /** `get_bootstrap_cookies` returned a session. */
  predicate BootstrapAccepted(reply: PostOutcome)
  {
    reply.Posted? && reply.status == StatusOk
  }

  /** Both credentials can be read from the settings (otherwise the lookup raises). */
  predicate CredentialsPresent(config: Config)
  {
    "username" in config && "password" in config
  }

  /** The POST answered 200 with `errorCode == 0` (the login and token replies share this shape). */
  predicate LoginAccepted(reply: PostOutcome)
  {
    reply.Posted? && reply.status == StatusOk && reply.body.Some? && reply.body.value.errorCode == Some(0)
  }

  /** `get_jwt_token`: the non-empty `id_token` of a 200 reply with `errorCode == 0`. */
  function IssuedJwt(reply: PostOutcome): (token: Option<string>)
    ensures token.Some? <==>
      LoginAccepted(reply) && reply.body.value.idToken.Some? && reply.body.value.idToken.value != ""
    ensures token.Some? ==> token == reply.body.value.idToken
  {
    if reply.Posted? && reply.status == StatusOk && reply.body.Some? && reply.body.value.errorCode == Some(0) then
      match reply.body.value.idToken
      case Some(t) => if t != "" then Some(t) else None
      case None => None
    else None
  }

  /** `parse_jwt_token` gave a truthy (non-empty) claims object. */
  predicate TokenDecodes(token: string, decode: string -> Option<Claims>)
  {
    var claims := ParseJwt(token, decode);
    claims.Some? && claims.value != map[]
  }

  /** `login_callback`: claims decode, the POST answers 200, and `UcasIdentity` is set. */
  predicate CallbackSucceeds(attempt: LoginAttempt, token: string, decode: string -> Option<Claims>)
  {
    && TokenDecodes(token, decode)
    && attempt.callback.Posted? && attempt.callback.status == StatusOk
    && HasIdentityCookie(attempt.jarAfterCallback)
  }

  /** The callback stage as the code runs it: parse, POST, then scan the jar. */
  method LoginCallback(attempt: LoginAttempt, token: string, decode: string -> Option<Claims>)
    returns (ok: bool)
    ensures ok == CallbackSucceeds(attempt, token, decode)
  {
    var claims := ParseJwt(token, decode);
    if claims.None? || claims.value == map[] {
      return false;
    }
    if !(attempt.callback.Posted? && attempt.callback.status == StatusOk) {
      return false;
    }
    ok := FindIdentityCookie(attempt.jarAfterCallback);
  }

  /**
   * One run of `login_with_credentials`, following the code's nesting: each
   * check is made only when every earlier one passed.
   */
  function Pipeline(config: Config, attempt: LoginAttempt, decode: string -> Option<Claims>): (r: PipelineResult)
    ensures r.LoggedIn? ==>
      && CredentialsPresent(config)
      && r.header == CookieHeader(attempt.jarAfterCallback)
      && r.header != ""
  {
    if !BootstrapAccepted(attempt.bootstrap) then Failed(Bootstrap)
    else if !CredentialsPresent(config) || !LoginAccepted(attempt.login) then Failed(CredentialLogin)
    else
      match FirstLoginToken(attempt.jarAfterLogin)
      case None => Failed(TokenExtraction)
      case Some(loginToken) =>
        if loginToken == "" then Failed(TokenExtraction)
        else
          match IssuedJwt(attempt.jwt)
          case None => Failed(JwtRetrieval)
          case Some(jwt) =>
            if !TokenDecodes(jwt, decode) then Failed(TokenDecode)
            else if !(attempt.callback.Posted? && attempt.callback.status == StatusOk) then Failed(CallbackRequest)
            else if !HasIdentityCookie(attempt.jarAfterCallback) then Failed(IdentityCookie)
            else if attempt.jarAfterCallback == [] then Failed(CookieCollection)
            else LoggedIn(CookieHeader(attempt.jarAfterCallback))
  }

  /** Whether one stage's own check passes, judged on its own. */
  predicate StagePasses(config: Config, attempt: LoginAttempt, decode: string -> Option<Claims>, s: Stage)
  {
    match s
    case Bootstrap => BootstrapAccepted(attempt.bootstrap)
    case CredentialLogin => CredentialsPresent(config) && LoginAccepted(attempt.login)
    case TokenExtraction =>
      FirstLoginToken(attempt.jarAfterLogin).Some? && FirstLoginToken(attempt.jarAfterLogin).value != ""
    case JwtRetrieval => IssuedJwt(attempt.jwt).Some?
    case TokenDecode => IssuedJwt(attempt.jwt).Some? && TokenDecodes(IssuedJwt(attempt.jwt).value, decode)
    case CallbackRequest => attempt.callback.Posted? && attempt.callback.status == StatusOk
    case IdentityCookie => HasIdentityCookie(attempt.jarAfterCallback)
    case CookieCollection => attempt.jarAfterCallback != []
  }

  /** Every stage ranked before `s` passes. */
  predicate EarlierStagesPass(config: Config, attempt: LoginAttempt, decode: string -> Option<Claims>, s: Stage)
  {
    forall t: Stage :: Rank(t) < Rank(s) ==> StagePasses(config, attempt, decode, t)
  }

  /** The pipeline fails at stage `s` exactly when `s` is the first stage whose check fails. */
  lemma PipelineStopsAtFirstFailure(
    config: Config, attempt: LoginAttempt, decode: string -> Option<Claims>, s: Stage)
    ensures Pipeline(config, attempt, decode) == Failed(s) <==>
      !StagePasses(config, attempt, decode, s) && EarlierStagesPass(config, attempt, decode, s)
  {
    if EarlierStagesPass(config, attempt, decode, s) {
      if Rank(s) > 0 { assert StagePasses(config, attempt, decode, Bootstrap); }
      if Rank(s) > 1 { assert StagePasses(config, attempt, decode, CredentialLogin); }
      if Rank(s) > 2 { assert StagePasses(config, attempt, decode, TokenExtraction); }
      if Rank(s) > 3 { assert StagePasses(config, attempt, decode, JwtRetrieval); }
      if Rank(s) > 4 { assert StagePasses(config, attempt, decode, TokenDecode); }
      if Rank(s) > 5 { assert StagePasses(config, attempt, decode, CallbackRequest); }
      if Rank(s) > 6 { assert StagePasses(config, attempt, decode, IdentityCookie); }
    }
    if Pipeline(config, attempt, decode) == Failed(s) {
      forall t: Stage | Rank(t) < Rank(s)
        ensures StagePasses(config, attempt, decode, t)
      {
      }
    }
  }

  /**
   * The pipeline logs in exactly when every stage passes, and then yields the
   * header built from the jar after the callback, which is never empty.
   */
  lemma PipelineSucceedsWhenAllStagesPass(config: Config, attempt: LoginAttempt, decode: string -> Option<Claims>)
    ensures Pipeline(config, attempt, decode).LoggedIn? <==>
      forall s: Stage :: StagePasses(config, attempt, decode, s)
    ensures Pipeline(config, attempt, decode).LoggedIn? ==>
      Pipeline(config, attempt, decode).header == CookieHeader(attempt.jarAfterCallback)
      && attempt.jarAfterCallback != []
  {
    if forall s: Stage :: StagePasses(config, attempt, decode, s) {
      assert StagePasses(config, attempt, decode, Bootstrap);
      assert StagePasses(config, attempt, decode, CredentialLogin);
      assert StagePasses(config, attempt, decode, TokenExtraction);
      assert StagePasses(config, attempt, decode, TokenDecode);
      assert StagePasses(config, attempt, decode, CallbackRequest);
      assert StagePasses(config, attempt, decode, IdentityCookie);
      assert StagePasses(config, attempt, decode, CookieCollection);
    }
  }

  /**
   * The "logged in but no cookies" branch cannot be taken: a jar holding
   * `UcasIdentity` is never empty.
   */
  lemma CookieCollectionNeverFails(config: Config, attempt: LoginAttempt, decode: string -> Option<Claims>)
    ensures Pipeline(config, attempt, decode) != Failed(CookieCollection)
  {
  }
}
