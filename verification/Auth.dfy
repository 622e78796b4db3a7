/**
 * Authentication of a call and its binding to the asserted context.
 * Models `config/config.py` and the `auth` package except `request_state.py`.
 */
module Auth {
  import opened Contexts
  import opened Errors
  import opened Outcomes
  import opened Redaction
  import opened Text

  const MAX_AUTH_SUBJECT_LEN := 128
  const MAX_CONCURRENCY := 256
  const MAX_TIMEOUT := 120
  const VALID_LOG_LEVELS := {"DEBUG", "INFO", "WARNING", "ERROR", "CRITICAL"}
  const AUTH_TOKEN_KWARG := "_yasin_auth_token"
  const SCHEME := "shared_secret"

  /** The fields of the server configuration that are validated. */
  datatype ServerConfig = ServerConfig(
    logLevel: string, requestTimeoutSeconds: int, maxConcurrentRequests: int,
    authToken: Option<string>, authSubjectId: string, requireAuthentication: bool,
    remoteEnabled: bool, remotePort: int, tlsCertfile: Option<string>, tlsKeyfile: Option<string>,
      allowInsecureHttp: bool)
  {
    predicate Configured() {
      authToken.Some? && authToken.value != ""
    }

    ghost predicate Valid() {
      && logLevel in VALID_LOG_LEVELS && 1 <= requestTimeoutSeconds <= MAX_TIMEOUT
      && 1 <= maxConcurrentRequests <= MAX_CONCURRENCY && 1 <= remotePort <= 65535
      && 1 <= |authSubjectId| <= MAX_AUTH_SUBJECT_LEN && Trimmed(authSubjectId)
      && (requireAuthentication ==> Configured())
      && (remoteEnabled ==> allowInsecureHttp || (NonEmpty(tlsCertfile).Some? && NonEmpty(tlsKeyfile).Some?))
    }
  }

  /**
   * `ServerConfig.__post_init__`: reject, or accept with the subject stripped. What is rejected
   * is exactly what would not be valid with its subject stripped.
   */
  function Configure(raw: ServerConfig): (r: Result<ServerConfig, string>)
    ensures r.Ok? <==> raw.(authSubjectId := Strip(raw.authSubjectId)).Valid()
    ensures r.Ok? <==>
      && raw.logLevel in {"DEBUG", "INFO", "WARNING", "ERROR", "CRITICAL"}
      && 1 <= raw.requestTimeoutSeconds <= 120 && 1 <= raw.maxConcurrentRequests <= 256 && 1 <= raw.remotePort <= 65535
      && 1 <= |Strip(raw.authSubjectId)| <= 128
      && (raw.requireAuthentication ==> raw.authToken.Some? && raw.authToken.value != "")
      && (raw.remoteEnabled && !raw.allowInsecureHttp ==>
            raw.tlsCertfile !in {None, Some("")} && raw.tlsKeyfile !in {None, Some("")})
    ensures r.Ok? ==> r.value.Valid()
    ensures r.Ok? ==> r.value == raw.(authSubjectId := Strip(raw.authSubjectId))
  {
    var subject := Strip(raw.authSubjectId);
    StripIdempotent(raw.authSubjectId);
    if raw.logLevel !in VALID_LOG_LEVELS then Err("log_level out of range")
    else if !(1 <= raw.requestTimeoutSeconds <= MAX_TIMEOUT) then Err("request_timeout_seconds out of range")
    else if !(1 <= raw.maxConcurrentRequests <= MAX_CONCURRENCY) then Err("max_concurrent_requests out of range")
    else if subject == "" || |subject| > MAX_AUTH_SUBJECT_LEN then Err("auth_subject_id must be a non-empty string")
    else if raw.requireAuthentication && !raw.Configured() then Err("require_authentication needs a token")
    else if !(1 <= raw.remotePort <= 65535) then Err("remote_port out of range")
    else if raw.remoteEnabled && raw.requireAuthentication && !raw.Configured() then Err("remote_enabled needs a token")
    else if raw.remoteEnabled && !raw.allowInsecureHttp
      && (NonEmpty(raw.tlsCertfile).None? || NonEmpty(raw.tlsKeyfile).None?) then
      Err("remote TLS needs certfile and keyfile")
    else Ok(raw.(authSubjectId := subject))
  }

  datatype AuthStatus =
    | Authenticated | Unauthenticated | InvalidCredential | MissingCredential | ContextMismatch
    | UnknownScheme | Malformed | TransportUnavailable

  function StatusValue(status: AuthStatus): string {
    match status
    case Authenticated => "authenticated"
    case Unauthenticated => "unauthenticated"
    case InvalidCredential => "invalid_credential"
    case MissingCredential => "missing_credential"
    case ContextMismatch => "context_mismatch"
    case UnknownScheme => "unknown_scheme"
    case Malformed => "malformed"
    case TransportUnavailable => "transport_unavailable"
  }

  datatype Identity = Identity(subjectId: string, scheme: string)

  /** An outcome carries an identity exactly when it is `Authenticated`. */
  datatype AuthOutcome = AuthOutcome(status: AuthStatus, identity: Option<Identity>, reasonCode: string) {
    predicate IsAuthenticated() {
      status == Authenticated && identity.Some?
    }
  }

  /** `hmac.compare_digest` on text: equality for ASCII, a `TypeError` otherwise. */
  function CompareDigest(a: string, b: string): Option<bool> {
    if IsAscii(a) && IsAscii(b) then Some(a == b) else None
  }

  /** `authenticate_shared_secret`. */
  function AuthenticateSharedSecret(configured: Option<string>, presented: Option<string>, subjectId: string)
    : Result<AuthOutcome, McpError>
  {
    if configured.None? || configured.value == "" then
      Ok(AuthOutcome(TransportUnavailable, None, "shared_secret_not_configured"))
    else if presented.None? || presented.value == "" then
      Ok(AuthOutcome(MissingCredential, None, "credential_missing"))
    else
      var matches := CompareDigest(presented.value, configured.value);
      if matches.None? then Ok(AuthOutcome(Malformed, None, "credential_malformed"))
      else if !matches.value then Ok(AuthOutcome(InvalidCredential, None, "credential_invalid"))
      else if Strip(subjectId) == "" then Err(Reject("auth subject_id must be non-empty when secret is configured"))
      else Ok(AuthOutcome(Authenticated, Some(Identity(Strip(subjectId), SCHEME)), "shared_secret_ok"))
  }

  datatype Bound = Bound(asserted: IntegrationContext, auth: AuthOutcome, governance: GovernanceContext)

  predicate Conflicts(id: Option<string>, subjectId: string) {
    id.Some? && id.value != subjectId
  }

  function ConflictError(field: string, asserted: string, subjectId: string): McpError {
    McpError(ValidationError, "asserted " + field + " conflicts with authenticated subject",
             map["field" := Str(field), "reason_code" := Str("context_mismatch"),
                 "asserted" := Str(asserted), "subject_id" := Str(subjectId)])
  }

  /** `_enforce_no_impersonation`: the first conflicting field, agent before client. */
  function Impersonation(asserted: IntegrationContext, identity: Identity): Option<McpError> {
    if Conflicts(asserted.ids.agentId, identity.subjectId) then
      Some(ConflictError("agent_id", asserted.ids.agentId.value, identity.subjectId))
    else if Conflicts(asserted.ids.clientId, identity.subjectId) then
      Some(ConflictError("client_id", asserted.ids.clientId.value, identity.subjectId))
    else None
  }

  /** The copy of `extra` that `bind_context` fills key by key. */
  function BoundExtra(extra: Fields, auth: AuthOutcome): Fields {
    var withStatus := extra["auth_status" := Str(StatusValue(auth.status))];
    match auth.identity
    case Some(identity) =>
      var withSubject := withStatus["auth_subject_id" := Str(identity.subjectId)];
      withSubject["auth_scheme" := Str(identity.scheme)]["auth_trust" := Str("trusted")]
    case None => withStatus["auth_trust" := Str("asserted")]
  }

  function NotEstablished(auth: AuthOutcome): McpError {
    McpError(ErrorKind.Unauthenticated, "authentication required but not established",
             map["status" := Str(StatusValue(auth.status)), "reason_code" := Str(auth.reasonCode),
               "transport" := Str("stdio")])
  }

  /** `bind_context`. */
  function BindContext(asserted: IntegrationContext, auth: AuthOutcome, required: bool): Result<Bound, McpError> {
    if required && !auth.IsAuthenticated() then Err(NotEstablished(auth))
    else if auth.status == ContextMismatch then
      Err(McpError(ValidationError, "authentication context mismatch", map["reason_code" := Str(auth.reasonCode)]))
    else
      var impersonation := if auth.identity.Some? then Impersonation(asserted, auth.identity.value) else None;
      if impersonation.Some? then Err(impersonation.value)
      else
        var governance := asserted.ToGovernanceContext();
        Ok(Bound(asserted, auth, governance.(extra := BoundExtra(governance.extra, auth))))
  }

  const EMPTY_CONTEXT := IntegrationContext(NO_IDS, map[], Asserted)

  /** The outcome `resolve_authentication` binds with. */
  function SelectOutcome(config: ServerConfig, presented: Option<string>, secret: AuthOutcome): AuthOutcome {
    if secret.status == Authenticated then secret
    else if presented.Some? && presented.value != "" then secret
    else if config.requireAuthentication then
      if secret.status == TransportUnavailable then AuthOutcome(MissingCredential, None, "auth_required_no_credential")
      else secret
    else AuthOutcome(AuthStatus.Unauthenticated, None, "stdio_unauthenticated_asserted_context")
  }

  /** `resolve_authentication`. */
  function ResolveAuthentication(config: ServerConfig, asserted: Option<IntegrationContext>, presented: Option<string>)
    : Result<Bound, McpError>
  {
    var secret :- AuthenticateSharedSecret(config.authToken, presented, config.authSubjectId);
    BindContext(asserted.GetOr(EMPTY_CONTEXT), SelectOutcome(config, presented, secret), config.requireAuthentication)
  }

  /** What a call finds around it: the request-scoped variables and the process environment. */
  datatype Ambient = Ambient(
    secretVar: Option<string>, assertedVar: Option<IntegrationContext>,
    envSecret: Option<string>, envApproval: Option<string>)

  function NonEmpty(value: Option<string>): Option<string> {
    if value == Some("") then None else value
  }

  /** `get_presented_secret`: the request-scoped value, else a non-empty environment one. */
  function PresentedSecret(ambient: Ambient): Option<string> {
    if ambient.secretVar.Some? then ambient.secretVar else NonEmpty(ambient.envSecret)
  }

  /**
   * The value of a reserved argument, rendered by `render` (Python's `str`) unless it is text; null
   * counts as absent.
   */
  function ReservedArgument(kwargs: Fields, name: string, render: Value -> string): Option<string> {
    if name !in kwargs || kwargs[name] == Null then None
    else if kwargs[name].Str? then Some(kwargs[name].text)
    else Some(render(kwargs[name]))
  }

  /** `extract_credential`: the argument first, then the ambient secret. */
  function ExtractCredential(kwargs: Fields, ambient: Ambient, render: Value -> string): Option<string> {
    var argument := ReservedArgument(kwargs, AUTH_TOKEN_KWARG, render);
    if argument.Some? then argument else PresentedSecret(ambient)
  }

  /** `resolve_execution_auth`: nothing to do without a security configuration. */
  function ResolveExecutionAuth(
    config: Option<ServerConfig>, context: Option<GovernanceContext>, presented: Option<string>, ambient: Ambient)
    : Result<Option<Bound>, McpError>
  {
    if config.None? then Ok(None)
    else
      var asserted :-
        if ambient.assertedVar.Some? || context.None? then Ok(ambient.assertedVar)
        else var rebuilt :- Rebuild(context.value); Ok(Some(rebuilt));
      var secret := if presented.Some? then presented else PresentedSecret(ambient);
      var bound :- ResolveAuthentication(config.value, asserted, secret);
      Ok(Some(bound))
  }

  // ----- What binding guarantees

  /** The caller proved knowledge of the configured secret. */
  predicate Proves(config: ServerConfig, presented: Option<string>) {
    config.Configured() && presented == config.authToken && IsAscii(presented.value)
  }

  /** The caller asserts an agent or client other than the configured subject. */
  predicate Impersonates(config: ServerConfig, asserted: IntegrationContext) {
    || (asserted.ids.agentId.Some? && asserted.ids.agentId.value != config.authSubjectId)
    || (asserted.ids.clientId.Some? && asserted.ids.clientId.value != config.authSubjectId)
  }

  /**
   * The shared secret authenticates exactly those who prove it, as the configured subject. To
   * everyone else it says what is wrong: no secret is configured, none was presented, one of the
   * two is not ASCII, or they differ.
   */
  lemma SecretIsExact(config: ServerConfig, presented: Option<string>)
    requires config.Valid()
    ensures
      var r := AuthenticateSharedSecret(config.authToken, presented, config.authSubjectId);
      && r.Ok?
      && r.value.status in {Authenticated, InvalidCredential, MissingCredential, Malformed, TransportUnavailable}
      && (r.value.status == Authenticated <==> Proves(config, presented))
      && (r.value.status == TransportUnavailable <==> !config.Configured())
      && (r.value.status == MissingCredential <==> config.Configured() && NonEmpty(presented).None?)
      && (r.value.status == Malformed <==>
            && config.Configured() && NonEmpty(presented).Some?
            && !(IsAscii(presented.value) && IsAscii(config.authToken.value)))
      && (r.value.status == InvalidCredential <==>
            && config.Configured() && NonEmpty(presented).Some?
            && IsAscii(presented.value) && IsAscii(config.authToken.value) && presented != config.authToken)
      && (if Proves(config, presented)
          then
            r.value == AuthOutcome(
              Authenticated, Some(Identity(config.authSubjectId, "shared_secret")), "shared_secret_ok")
          else r.value.identity == None)
      && (r.value.status == MissingCredential ==> r.value.reasonCode == "credential_missing")
      && (r.value.status == Malformed ==> r.value.reasonCode == "credential_malformed")
      && (r.value.status == InvalidCredential ==> r.value.reasonCode == "credential_invalid")
  {
    StripOfPadded("", config.authSubjectId, "");
    assert "" + config.authSubjectId + "" == config.authSubjectId;
  }

  /**
   * Binding is exact: it fails only for a required secret that was not proved or for an
   * impersonation by someone who did prove it, and what it binds is authenticated exactly when
   * the secret was proved. The subject then is the configured one; ids are never altered.
   */
  lemma BindingIsExact(config: ServerConfig, asserted: Option<IntegrationContext>, presented: Option<string>)
    requires config.Valid()
    ensures
      var r := ResolveAuthentication(config, asserted, presented);
      var claimed := asserted.GetOr(EMPTY_CONTEXT);
      && (r.Err? <==> if Proves(config, presented) then Impersonates(config, claimed) else config.requireAuthentication)
      && (r.Ok? ==>
            && r.value.asserted == claimed
            && r.value.governance.ids == claimed.ids
            && (r.value.auth.status == Authenticated <==> Proves(config, presented))
            && r.value.auth.identity
                 == if Proves(config, presented) then Some(Identity(config.authSubjectId, SCHEME)) else None)
  {
    hide AuthenticateSharedSecret, BoundExtra, ConflictError, NotEstablished;
    SecretIsExact(config, presented);
  }

  /** Binding never alters the ids. */
  lemma BoundIds(config: ServerConfig, asserted: Option<IntegrationContext>, presented: Option<string>)
    requires ResolveAuthentication(config, asserted, presented).Ok?
    ensures ResolveAuthentication(config, asserted, presented).value.governance.ids == asserted.GetOr(EMPTY_CONTEXT).ids
  {
    hide AuthenticateSharedSecret, SelectOutcome, Impersonation, BoundExtra;
  }

  ghost predicate SameAt(a: Fields, b: Fields, key: string) {
    (key in a <==> key in b) && (key in a ==> a[key] == b[key])
  }

  lemma BindingSucceeds(config: ServerConfig, asserted: Option<IntegrationContext>, presented: Option<string>)
    requires ResolveAuthentication(config, asserted, presented).Ok?
    ensures var bound := ResolveAuthentication(config, asserted, presented).value;
            bound.governance.extra == BoundExtra(asserted.GetOr(EMPTY_CONTEXT).extra, bound.auth)
  {
    hide AuthenticateSharedSecret, SelectOutcome, Impersonation, BoundExtra;
  }

  /** What authentication has to say about a call it lets through. */
  function AuthStatusText(config: ServerConfig, presented: Option<string>): string {
    if Proves(config, presented) then "authenticated"
    else if presented in {None, Some("")} then "unauthenticated"
    else if !config.Configured() then "transport_unavailable"
    else if IsAscii(presented.value) && IsAscii(config.authToken.value) then "invalid_credential" else "malformed"
  }

  /**
   * The bound `extra` cannot be forged on the keys that state the trust level: whatever the
   * caller put there, they say what authentication established. Subject and scheme are
   * overwritten only for an authenticated caller; otherwise the caller's own values stay.
   */
  lemma BoundExtraIsTruthful(
    config: ServerConfig, asserted: Option<IntegrationContext>, presented: Option<string>, key: string)
    requires config.Valid()
    requires ResolveAuthentication(config, asserted, presented).Ok?
    ensures
      var extra := ResolveAuthentication(config, asserted, presented).value.governance.extra;
      var claimed := asserted.GetOr(EMPTY_CONTEXT).extra;
      && "auth_status" in extra && extra["auth_status"] == Str(AuthStatusText(config, presented))
      && "auth_trust" in extra
      && extra["auth_trust"] == Str(if Proves(config, presented) then "trusted" else "asserted")
      && (Proves(config, presented) ==>
            && "auth_subject_id" in extra && extra["auth_subject_id"] == Str(config.authSubjectId)
            && "auth_scheme" in extra && extra["auth_scheme"] == Str("shared_secret"))
      && (key in ["auth_status", "auth_trust"]
          || (Proves(config, presented) && key in ["auth_subject_id", "auth_scheme"])
          || SameAt(extra, claimed, key))
  {
    hide ResolveAuthentication, Proves, Impersonates, AuthStatusText;
    BindingIsExact(config, asserted, presented);
    BindingSucceeds(config, asserted, presented);
    BoundStatus(config, asserted, presented);
  }

  lemma BoundStatus(config: ServerConfig, asserted: Option<IntegrationContext>, presented: Option<string>)
    requires config.Valid()
    requires ResolveAuthentication(config, asserted, presented).Ok?
    ensures StatusValue(ResolveAuthentication(config, asserted, presented).value.auth.status)
      == AuthStatusText(config, presented)
  {
    hide AuthenticateSharedSecret, BoundExtra, Impersonation, Proves, Impersonates;
    SecretIsExact(config, presented);
    BindingIsExact(config, asserted, presented);
  }

  /** A validated configuration that requires authentication has a secret, so its absence is never what fails a call. */
  lemma RequiredSecretIsConfigured(
    config: ServerConfig, asserted: Option<IntegrationContext>, presented: Option<string>)
    requires config.Valid()
    ensures
      var r := ResolveAuthentication(config, asserted, presented);
      r.Err? ==> Detail(r.error, "reason_code") != "auth_required_no_credential"
  {
    hide AuthenticateSharedSecret, Proves, Impersonation, BoundExtra;
    SecretIsExact(config, presented);
    ImpersonationIsInvalidContext(asserted.GetOr(EMPTY_CONTEXT), Identity(config.authSubjectId, SCHEME));
    assert |"auth_required_no_credential"| > |"credential_malformed"| > |"credential_missing"|
      == |"credential_invalid"|;
  }

  /** The context a call asserts: the scope's if there is one, else its own made anew, else an empty one. */
  function Claimed(context: Option<GovernanceContext>, ambient: Ambient): IntegrationContext {
    if ambient.assertedVar.Some? then ambient.assertedVar.value
    else if context.Some? then IntegrationContext(KeptIds(AsRaw(context.value.ids)), context.value.extra, Asserted)
    else EMPTY_CONTEXT
  }

  /** The call's own context, if it is the one to be used, is acceptable as an assertion. */
  ghost predicate ClaimAcceptable(context: Option<GovernanceContext>, ambient: Ambient) {
    ambient.assertedVar.None? && context.Some? ==> CanRebuild(context.value)
  }

  /** Enforcement is authentication of what the call presents, bound to what it asserts. */
  lemma EnforcementResolves(
    config: ServerConfig, context: Option<GovernanceContext>, presented: Option<string>, ambient: Ambient)
    ensures
      var r := ResolveExecutionAuth(Some(config), context, presented, ambient);
      var secret := if presented.Some? then presented else PresentedSecret(ambient);
      var bound := ResolveAuthentication(config, Some(Claimed(context, ambient)), secret);
      && (r.Ok? <==> ClaimAcceptable(context, ambient) && bound.Ok?)
      && (r.Ok? ==> r.value == Some(bound.value))
      && (ClaimAcceptable(context, ambient) && bound.Err? ==> r.error == bound.error)
  {
    hide ResolveAuthentication, Rebuild, CanRebuild, PresentedSecret;
    if context.Some? {
      RebuildExact(context.value);
    }
    UnassertedIsEmpty(config, if presented.Some? then presented else PresentedSecret(ambient));
  }

  lemma UnassertedIsEmpty(config: ServerConfig, secret: Option<string>)
    ensures ResolveAuthentication(config, None, secret) == ResolveAuthentication(config, Some(EMPTY_CONTEXT), secret)
  {
    hide AuthenticateSharedSecret, SelectOutcome, BindContext;
  }

  /**
   * Enforcement is exact for every call, with or without a context of its own: it fails only for
   * a context that cannot be asserted, a required secret that was not proved, or an
   * impersonation by someone who did prove it. The ids it binds are the asserted ones.
   */
  lemma EnforcementIsExact(
    config: ServerConfig, context: Option<GovernanceContext>, presented: Option<string>, ambient: Ambient)
    requires config.Valid()
    ensures
      var r := ResolveExecutionAuth(Some(config), context, presented, ambient);
      var secret := if presented.Some? then presented else PresentedSecret(ambient);
      var claimed := Claimed(context, ambient);
      && (r.Err? <==>
            || !ClaimAcceptable(context, ambient)
            || (if Proves(config, secret) then Impersonates(config, claimed) else config.requireAuthentication))
      && (r.Ok? ==>
            && r.value.Some?
            && r.value.value.asserted == claimed
            && r.value.value.governance.ids == claimed.ids
            && (r.value.value.auth.status == Authenticated <==> Proves(config, secret)))
  {
    hide ResolveAuthentication, ResolveExecutionAuth, PresentedSecret, Proves, Impersonates, Claimed, ClaimAcceptable;
    var secret := if presented.Some? then presented else PresentedSecret(ambient);
    EnforcementResolves(config, context, presented, ambient);
    BindingIsExact(config, Some(Claimed(context, ambient)), secret);
  }

  /** An impersonation, and nothing else, is refused, with `INVALID_CONTEXT`. */
  lemma ImpersonationIsInvalidContext(asserted: IntegrationContext, identity: Identity)
    ensures Impersonation(asserted, identity).Some?
      <==> || (asserted.ids.agentId.Some? && asserted.ids.agentId.value != identity.subjectId)
           || (asserted.ids.clientId.Some? && asserted.ids.clientId.value != identity.subjectId)
    ensures Impersonation(asserted, identity).Some? ==>
        Detail(Impersonation(asserted, identity).value, "reason_code") == "context_mismatch"
    ensures Impersonation(asserted, identity).Some? ==>
        CodeFor(Impersonation(asserted, identity).value) == INVALID_CONTEXT
  {
  }
}
