/**
 * The remote transport's admission decision in front of the gate.
 * Models `transport/bearer.py` and `RequireBearerAuthMiddleware` of `transport/remote.py`.
 */
module Transport {
  import opened Auth
  import opened Contexts
  import opened Errors
  import opened Outcomes
  import opened Redaction
  import opened Text

  const MAX_CONTEXT_HEADER_LENGTH := 8192

  /** The index of the first space, or the length if there is none. */
  function FirstSpace(s: string): (i: nat)
    ensures i <= |s| && (i < |s| ==> IsSpace(s[i]))
    ensures forall j | 0 <= j < i :: !IsSpace(s[j])
  {
    if s == "" || IsSpace(s[0]) then 0 else 1 + FirstSpace(s[1..])
  }

  /** `extract_bearer_token`: scheme and token, separated by the first run of spaces. */
  function ExtractBearerToken(header: Option<string>): Option<string> {
    if header.None? then None
    else
      var stripped := Strip(header.value);
      var i := FirstSpace(stripped);
      if i == |stripped| || Lower(stripped[..i]) != "bearer" then None
      else NonEmpty(Some(Strip(StripLeft(stripped[i..]))))
  }

  /** `header` is `Bearer` in any case, at least one space, and `token`, padded by spaces. */
  ghost predicate BearerHeader(header: string, token: string) {
    exists before, scheme, gap, after ::
      && header == before + scheme + gap + token + after
      && AllSpace(before) && AllSpace(gap) && AllSpace(after)
      && Lower(scheme) == "bearer" && gap != ""
  }

  lemma PlainBearerHeader(scheme: string, gap: string, token: string)
    requires Lower(scheme) == "bearer" && AllSpace(gap) && gap != ""
    ensures BearerHeader("" + scheme + gap + token + "", token)
  {
    assert AllSpace("");
  }

  lemma BearerSchemeHasNoSpace(scheme: string)
    requires Lower(scheme) == "bearer"
    ensures forall i | 0 <= i < |scheme| :: !IsSpace(scheme[i])
  {
    forall i | 0 <= i < |scheme| ensures !IsSpace(scheme[i]) {
      assert Lower(scheme)[i] == LowerChar(scheme[i]);
      assert "bearer"[i] in "bearer";
    }
  }

  lemma FirstSpaceAfter(scheme: string, rest: string)
    requires forall i | 0 <= i < |scheme| :: !IsSpace(scheme[i])
    requires rest != "" && IsSpace(rest[0])
    ensures FirstSpace(scheme + rest) == |scheme|
  {
    if scheme == "" {
      assert scheme + rest == rest;
    } else {
      assert (scheme + rest)[1..] == scheme[1..] + rest;
      FirstSpaceAfter(scheme[1..], rest);
    }
  }

  /** The token read from a header is exactly the one RFC 6750 section 2.1 writes there. */
  lemma BearerTokenIsExact(header: string, token: string)
    ensures ExtractBearerToken(Some(header)) == Some(token)
      <==> token != "" && Trimmed(token) && BearerHeader(header, token)
  {
    if ExtractBearerToken(Some(header)) == Some(token) {
      ExtractedTokenIsWritten(header, token);
    }
    if token != "" && Trimmed(token) && BearerHeader(header, token) {
      WrittenTokenIsExtracted(header, token);
    }
  }

  /** Where the parts of a header from which a token was extracted lie. */
  lemma ExtractedTokenSplits(header: string, token: string)
    returns (before: string, scheme: string, gap: string, after: string)
    requires ExtractBearerToken(Some(header)) == Some(token)
    ensures header == before + (scheme + (gap + token)) + after
    ensures AllSpace(before) && AllSpace(gap) && AllSpace(after) && gap != "" && Lower(scheme) == "bearer"
    ensures token != "" && Trimmed(token)
  {
    var stripped := Strip(header);
    before, after := StripSplits(header);
    scheme := stripped[..FirstSpace(stripped)];
    var rest := stripped[FirstSpace(stripped)..];
    assert stripped == scheme + rest && IsSpace(rest[0]);
    gap := StripLeftSplits(rest);
    assert rest == gap + StripLeft(rest) && gap != "";
    // Stripping the whole header first leaves nothing to strip after the token.
    assert StripLeft(rest)[|StripLeft(rest)| - 1] == stripped[|stripped| - 1];
    StripOfPadded("", StripLeft(rest), "");
    assert "" + StripLeft(rest) + "" == StripLeft(rest);
  }

  lemma ExtractedTokenIsWritten(header: string, token: string)
    requires ExtractBearerToken(Some(header)) == Some(token)
    ensures token != "" && Trimmed(token) && BearerHeader(header, token)
  {
    var before, scheme, gap, after := ExtractedTokenSplits(header, token);
    assert before + (scheme + (gap + token)) + after == before + scheme + gap + token + after;
  }

  lemma WrittenTokenIsExtracted(header: string, token: string)
    requires token != "" && Trimmed(token) && BearerHeader(header, token)
    ensures ExtractBearerToken(Some(header)) == Some(token)
  {
    var before, scheme, gap, after :|
      && header == before + scheme + gap + token + after
      && AllSpace(before) && AllSpace(gap) && AllSpace(after)
      && Lower(scheme) == "bearer" && gap != "";
    BearerSchemeHasNoSpace(scheme);
    StripOfHeader(before, scheme, gap, token, after);
    FirstSpaceAfter(scheme, gap + token);
    StripLeftDropsSpaces(gap, token);
    StripOfPadded("", token, "");
    assert "" + token + "" == token;
  }

  lemma StripOfHeader(before: string, scheme: string, gap: string, token: string, after: string)
    requires AllSpace(before) && AllSpace(gap) && AllSpace(after) && gap != ""
    requires scheme != "" && !IsSpace(scheme[0]) && token != "" && Trimmed(token)
    ensures Strip(before + scheme + gap + token + after) == scheme + (gap + token)
    ensures IsSpace((gap + token)[0])
  {
    var core := scheme + (gap + token);
    assert core[0] == scheme[0] && core[|core| - 1] == token[|token| - 1] && gap[0] in gap;
    assert before + scheme + gap + token + after == before + core + after;
    StripOfPadded(before, core, after);
  }

  /**
   * What `json.loads` makes of a header: a value, a `ValueError`, or another exception. Text that
   * is not JSON raises a `ValueError`, and so does JSON with an integer of too many digits.
   */
  datatype Json = Decoded(value: Value) | ValueFault | OtherFault

  /** The context header: absent, a context, a fault answered with 400, or an exception nothing catches. */
  datatype ContextHeader = Absent | Present(context: IntegrationContext) | BadRequest | Escapes

  const CONTEXT_FIELDS := {"client_id", "agent_id", "project_id", "workspace_id", "task_id", "session_id",
                           "request_id", "correlation_id", "extra", "trust"}

  function FieldOrNull(data: Fields, key: string): Value {
    if key in data then data[key] else Null
  }

  /** The ids a mapping passes to construction. */
  function IdsIn(data: Fields): RawIds {
    RawIds(FieldOrNull(data, "client_id"), FieldOrNull(data, "agent_id"), FieldOrNull(data, "project_id"),
           FieldOrNull(data, "workspace_id"), FieldOrNull(data, "task_id"), FieldOrNull(data, "session_id"),
           FieldOrNull(data, "request_id"), FieldOrNull(data, "correlation_id"))
  }

  /** `IntegrationContext.from_mapping`. */
  function FromMapping(data: Fields): Result<IntegrationContext, McpError> {
    if !(data.Keys <= CONTEXT_FIELDS) then Err(Reject("integration context contains unknown fields"))
    else
      var trustRaw := if "trust" in data then data["trust"] else Str("asserted");
      if !trustRaw.Str? then Err(Reject("trust must be a string"))
      else if Lower(trustRaw.text) !in ["asserted", "trusted", "unresolved"] then
        Err(Reject("invalid trust classification"))
      else
        Assert(IdsIn(data), FieldOrNull(data, "extra"),
               if Lower(trustRaw.text) == "asserted" then Asserted
               else if Lower(trustRaw.text) == "trusted" then Trusted else Unresolved)
  }

  /** A mapping that describes a context: known fields only, acceptable ids and extra, no claim of trust. */
  ghost predicate DescribesContext(data: Fields) {
    && data.Keys <= {"client_id", "agent_id", "project_id", "workspace_id", "task_id", "session_id",
                     "request_id", "correlation_id", "extra", "trust"}
    && ("trust" in data ==> data["trust"].Str? && Lower(data["trust"].text) in ["asserted", "unresolved"])
    && AcceptableIds(IdsIn(data)) && AcceptableExtra(FieldOrNull(data, "extra"))
  }

  /** The context a mapping describes. */
  function ContextOf(data: Fields): IntegrationContext {
    var extra := FieldOrNull(data, "extra");
    var unresolved := "trust" in data && data["trust"].Str? && Lower(data["trust"].text) == "unresolved";
    IntegrationContext(KeptIds(IdsIn(data)), if extra.Dict? then extra.fields else map[], if unresolved then Unresolved
      else Asserted)
  }

  lemma FromMappingExact(data: Fields)
    ensures FromMapping(data).Ok? <==> DescribesContext(data)
    ensures FromMapping(data).Ok? ==> FromMapping(data).value == ContextOf(data)
  {
    hide Assert, AcceptableIds, AcceptableExtra, IdsIn, Lower;
    var trust := if "trust" in data && data["trust"].Str? then Lower(data["trust"].text) else "asserted";
    AssertExact(IdsIn(data), FieldOrNull(data, "extra"),
                if trust == "asserted" then Asserted else if trust == "trusted" then Trusted else Unresolved);
    assert Lower("asserted") == "asserted" by {
      LowerKeepsAsserted();
    }
    assert |"unresolved"| != |"asserted"|;
  }

  /** Each id of the context is read from the field of its own name, stripped. */
  lemma ContextReadsItsFields(data: Fields, name: string)
    requires FromMapping(data).Ok?
    requires name in ["client_id", "agent_id", "project_id", "workspace_id", "task_id", "session_id",
                      "request_id", "correlation_id"]
    ensures NamedId(FromMapping(data).value.ids, name)
         == if name in data && data[name] != Null && data[name].Str? then Some(Strip(data[name].text)) else None
  {
    hide FromMapping, Strip, AcceptableIds;
    FromMappingExact(data);
  }

  lemma LowerKeepsAsserted()
    ensures Lower("asserted") == "asserted"
  {
  }

  /**
   * `_extract_integration_context` seen by the middleware, which catches `ValueError` only: a
   * `ValidationError` from the context itself is not one and escapes.
   */
  function ParseContextHeader(raw: Option<string>, parse: string -> Json): ContextHeader {
    if raw.None? || raw.value == "" then Absent
    else if |raw.value| > MAX_CONTEXT_HEADER_LENGTH then BadRequest
    else
      match parse(raw.value)
      case ValueFault => BadRequest
      case OtherFault => Escapes
      case Decoded(value) =>
        if !value.Dict? then BadRequest
        else
          var context := FromMapping(value.fields);
          if context.Ok? then Present(context.value) else Escapes
  }

  datatype HttpRequest = HttpRequest(
    scopeType: string, path: string, context: Option<string>, authorization: Option<string>)

  /** What the middleware does: call the inner app under a binding, answer itself, or let an exception out. */
  datatype Admission =
    | Inner(secret: Option<string>, asserted: Option<IntegrationContext>)
    | Answer(status: int, code: ClientCode)
    | Raises

  predicate Bypasses(request: HttpRequest) {
    request.scopeType != "http" || request.path in ["/healthz", "/readyz"]
  }

  /** `RequireBearerAuthMiddleware.__call__`. */
  function Admit(required: bool, expected: Option<string>, request: HttpRequest, parse: string -> Json): Admission {
    if Bypasses(request) then Inner(None, None)
    else
      match ParseContextHeader(request.context, parse)
      case BadRequest => Answer(400, INVALID_CONTEXT)
      case Escapes => Raises
      case Absent => AdmitToken(required, NonEmpty(expected), ExtractBearerToken(request.authorization), None)
      case Present(context) =>
        AdmitToken(required, NonEmpty(expected), ExtractBearerToken(request.authorization), Some(context))
  }

  function AdmitToken(
    required: bool, expected: Option<string>, token: Option<string>, asserted: Option<IntegrationContext>): Admission
  {
    if required && token.None? then Answer(401, AUTHENTICATION_REQUIRED)
    else if required && expected.None? then Answer(401, AUTHENTICATION_FAILED)
    else if token.Some? && expected.Some? then
      match CompareDigest(token.value, expected.value)
      case None => Raises
      case Some(true) => Inner(token, asserted)
      case Some(false) => if required then Answer(401, AUTHENTICATION_FAILED) else Inner(None, asserted)
    else Inner(None, asserted)
  }

  /** The request carries the configured secret as its bearer token. */
  ghost predicate CarriesSecret(expected: Option<string>, request: HttpRequest) {
    expected.Some? && IsAscii(expected.value) && CarriesToken(request, expected.value)
  }

  /** No context header, or one of bounded size that decodes to the description of a context. */
  ghost predicate ContextAccepted(request: HttpRequest, parse: string -> Json) {
    NonEmpty(request.context).Some? ==>
      var raw := request.context.value;
      && |raw| <= MAX_CONTEXT_HEADER_LENGTH
      && parse(raw).Decoded? && parse(raw).value.Dict? && DescribesContext(parse(raw).value.fields)
  }

  /**
   * A context header that no branch handles: it decodes to an object that describes no context, or not
   * with a `ValueError`.
   */
  ghost predicate ContextEscapes(request: HttpRequest, parse: string -> Json) {
    && NonEmpty(request.context).Some?
    && var raw := request.context.value;
       && |raw| <= MAX_CONTEXT_HEADER_LENGTH
       && (parse(raw).OtherFault?
           || (parse(raw).Decoded? && parse(raw).value.Dict? && !DescribesContext(parse(raw).value.fields)))
  }

  /** The context an accepted header describes, if there is a header. */
  function HeaderContext(request: HttpRequest, parse: string -> Json): Option<IntegrationContext> {
    if NonEmpty(request.context).Some? && parse(request.context.value).Decoded?
      && parse(request.context.value).value.Dict? then
      Some(ContextOf(parse(request.context.value).value.fields))
    else None
  }

  lemma ParseContextHeaderExact(request: HttpRequest, parse: string -> Json)
    ensures
      var header := ParseContextHeader(request.context, parse);
      && (header == Absent ==> HeaderContext(request, parse) == None)
      && (header.Present? ==> HeaderContext(request, parse) == Some(header.context))
      && (header == Absent || header.Present? <==> ContextAccepted(request, parse))
      && (header == Escapes <==> ContextEscapes(request, parse))
  {
    hide FromMapping, DescribesContext, ContextOf;
    if request.context.Some? && parse(request.context.value).Decoded? && parse(request.context.value).value.Dict? {
      FromMappingExact(parse(request.context.value).value.fields);
    }
  }

  /** The request carries `token` as its bearer token. */
  ghost predicate CarriesToken(request: HttpRequest, token: string) {
    request.authorization.Some? && token != "" && Trimmed(token) && BearerHeader(request.authorization.value, token)
  }

  lemma ExtractedExactlyWhenCarried(request: HttpRequest, token: string)
    ensures ExtractBearerToken(request.authorization) == Some(token) <==> CarriesToken(request, token)
  {
    hide ExtractBearerToken, BearerHeader, Trimmed;
    if request.authorization.Some? {
      BearerTokenIsExact(request.authorization.value, token);
    } else {
      assert ExtractBearerToken(None) == None by {
        NothingToExtract();
      }
    }
  }

  lemma NothingToExtract()
    ensures ExtractBearerToken(None) == None
  {
  }

  /**
   * What an admitted request is bound to, required authentication or not: the context its
   * header describes, and the configured secret if it carries that, otherwise no secret.
   */
  lemma AdmissionBindsWhatIsCarried(
    required: bool, expected: Option<string>, request: HttpRequest, parse: string -> Json)
    requires !Bypasses(request) && Admit(required, expected, request, parse).Inner?
    ensures Admit(required, expected, request, parse)
         == Inner(if CarriesSecret(expected, request) then expected else None, HeaderContext(request, parse))
  {
    hide ParseContextHeader, ExtractBearerToken, CarriesToken, HeaderContext, IsAscii;
    ParseContextHeaderExact(request, parse);
    if expected.Some? {
      ExtractedExactlyWhenCarried(request, expected.value);
      if expected.value == "" {
        NothingCarriedIsEmpty(request);
      }
    }
  }

  lemma NothingCarriedIsEmpty(request: HttpRequest)
    ensures !CarriesToken(request, "")
  {
  }

  /** The request carries a token that cannot be compared with the secret: one of the two is not ASCII. */
  ghost predicate CarriesIncomparable(expected: Option<string>, request: HttpRequest) {
    && expected.Some? && expected.value != ""
    && exists token :: CarriesToken(request, token) && !(IsAscii(token) && IsAscii(expected.value))
  }

  /** The request carries a token that is not the secret, or there is no secret to be. */
  ghost predicate CarriesAnother(expected: Option<string>, request: HttpRequest) {
    exists token ::
      && CarriesToken(request, token)
      && (expected in {None, Some("")}
          || (IsAscii(token) && IsAscii(expected.value) && token != expected.value))
  }

  /**
   * What the middleware does with every request, authentication required or not. Outside http
   * and on the health paths it steps aside. Elsewhere each answer has its exact condition on the
   * context header, the token and the configured secret, and a request is admitted when none
   * applies, bound to the secret if it carries it and to the context its header describes.
   */
  lemma AdmissionIsExact(required: bool, expected: Option<string>, request: HttpRequest, parse: string -> Json)
    ensures
      var a := Admit(required, expected, request, parse);
      var accepted, escapes := ContextAccepted(request, parse), ContextEscapes(request, parse);
      if request.scopeType != "http" || request.path == "/healthz" || request.path == "/readyz" then
        a == Inner(None, None)
      else
        && (a == Answer(400, INVALID_CONTEXT) <==> !accepted && !escapes)
        && (a == Answer(401, AUTHENTICATION_REQUIRED) <==>
              accepted && required && !exists token :: CarriesToken(request, token))
        && (a == Answer(401, AUTHENTICATION_FAILED) <==> accepted && required && CarriesAnother(expected, request))
        && (a == Raises <==> escapes || (accepted && CarriesIncomparable(expected, request)))
        && (a.Inner? <==>
              accepted && if required then CarriesSecret(expected, request)
                else !CarriesIncomparable(expected, request))
        && (a.Inner? ==>
              a == Inner(if CarriesSecret(expected, request) then expected else None, HeaderContext(request, parse)))
  {
    hide ParseContextHeader, ExtractBearerToken, CarriesToken, ContextAccepted, ContextEscapes, HeaderContext, IsAscii;
    ParseContextHeaderExact(request, parse);
    var extracted := ExtractBearerToken(request.authorization);
    forall token ensures extracted == Some(token) <==> CarriesToken(request, token) {
      ExtractedExactlyWhenCarried(request, token);
    }
    if extracted.Some? {
      assert CarriesToken(request, extracted.value);
    }
    NothingCarriedIsEmpty(request);
    AcceptedDoesNotEscape(request, parse);
  }

  lemma AcceptedDoesNotEscape(request: HttpRequest, parse: string -> Json)
    ensures !(ContextAccepted(request, parse) && ContextEscapes(request, parse))
  {
    hide DescribesContext;
  }

  /**
   * Under required authentication only bypassing requests and bearers of the secret reach the
   * inner app, the latter bound to that secret and to the context their header describes.
   */
  lemma OnlySecretBearersReachTheApp(expected: Option<string>, request: HttpRequest, parse: string -> Json)
    ensures Admit(true, expected, request, parse).Inner?
      <==> Bypasses(request) || (ContextAccepted(request, parse) && CarriesSecret(expected, request))
    ensures Admit(true, expected, request, parse).Inner? && !Bypasses(request) ==>
              Admit(true, expected, request, parse) == Inner(expected, HeaderContext(request, parse))
  {
    hide ParseContextHeader, ExtractBearerToken, BearerHeader, ContextAccepted, HeaderContext;
    ParseContextHeaderExact(request, parse);
    if expected.Some? {
      ExtractedExactlyWhenCarried(request, expected.value);
    }
    if Admit(true, expected, request, parse).Inner? && !Bypasses(request) {
      AdmissionBindsWhatIsCarried(true, expected, request, parse);
    }
  }

  /**
   * The middleware answers or forwards every request except in two cases, which end in an
   * exception: a context header that no branch handles, and a bearer token met by a configured
   * secret when either is not ASCII.
   */
  lemma MiddlewareRaisesExactlyWhen(
    required: bool, expected: Option<string>, request: HttpRequest, parse: string -> Json)
    ensures Admit(required, expected, request, parse) == Raises
      <==> !Bypasses(request)
           && (ContextEscapes(request, parse)
               || (ContextAccepted(request, parse) && NonEmpty(expected).Some?
                   && exists token :: CarriesToken(request, token) && !(IsAscii(token) && IsAscii(expected.value))))
  {
    hide ParseContextHeader, ExtractBearerToken, CarriesToken, ContextAccepted, ContextEscapes, IsAscii;
    ParseContextHeaderExact(request, parse);
    var extracted := ExtractBearerToken(request.authorization);
    forall token ensures extracted == Some(token) <==> CarriesToken(request, token) {
      ExtractedExactlyWhenCarried(request, token);
    }
    if extracted.Some? {
      assert CarriesToken(request, extracted.value);
    }
  }

  /**
   * Where token or secret is not ASCII the layers part: the middleware raises, the gate calls the same
   * token malformed.
   */
  lemma NonAsciiBearerRaises(
    required: bool, config: ServerConfig, token: string, request: HttpRequest, parse: string -> Json)
    requires config.Valid() && config.Configured() && token != "" && Trimmed(token)
    requires !(IsAscii(token) && IsAscii(config.authToken.value))
    requires !Bypasses(request) && request.context == None && request.authorization == Some("Bearer" + " " + token)
    ensures Admit(required, config.authToken, request, parse) == Raises
    ensures AuthenticateSharedSecret(config.authToken, Some(token), config.authSubjectId)
         == Ok(AuthOutcome(Malformed, None, "credential_malformed"))
  {
    hide Admit, BearerHeader, ContextEscapes, IsAscii, Trimmed, Lower, Strip;
    assert Lower("Bearer") == "bearer" by {
      LowerOfBearer();
    }
    assert request.authorization.value == "" + "Bearer" + " " + token + "";
    PlainBearerHeader("Bearer", " ", token);
    assert CarriesToken(request, token);
    MiddlewareRaisesExactlyWhen(required, config.authToken, request, parse);
  }

  lemma LowerOfBearer()
    ensures Lower("Bearer") == "bearer"
  {
  }

  /** Such a token: a single accented letter. */
  lemma AccentedTokenIsSuch()
    ensures var token := "\U{e9}"; token != "" && Trimmed(token) && !IsAscii(token)
  {
    assert "\U{e9}"[0] in "\U{e9}";
  }

  /**
   * A malformed context is promised a 400 with `INVALID_CONTEXT`. The middleware gives it
   * exactly to headers that are oversized, whose decoding raises a `ValueError`, or that are not
   * an object; an object that is not a context, such as one claiming `trusted`, ends in an
   * exception instead.
   */
  lemma InvalidContextAnswerExact(required: bool, expected: Option<string>, request: HttpRequest, parse: string -> Json)
    requires !Bypasses(request) && request.context.Some? && request.context.value != ""
    ensures
      var raw := request.context.value;
      Admit(required, expected, request, parse) == Answer(400, INVALID_CONTEXT)
      <==> || |raw| > 8192
           || parse(raw) == ValueFault
           || (parse(raw).Decoded? && !parse(raw).value.Dict?)
  {
    hide FromMapping, Bypasses, ExtractBearerToken, IsAscii;
  }

  lemma TrustedClaimEscapes(required: bool, expected: Option<string>, request: HttpRequest, parse: string -> Json)
    requires !Bypasses(request) && request.context == Some("{\"trust\":\"trusted\"}")
    requires parse(request.context.value) == Decoded(Dict(map["trust" := Str("trusted")]))
    ensures Admit(required, expected, request, parse) == Raises
  {
    var data := map["trust" := Str("trusted")];
    assert data.Keys == {"trust"};
    assert Lower("trusted") == "trusted" != "asserted";
    assert FromMapping(data).Err?;
  }

  /** The call's surroundings inside the scope the middleware opens for an admitted request. */
  function InScope(admission: Admission, outside: Ambient): Ambient
    requires admission.Inner?
  {
    outside.(secretVar := admission.secret, assertedVar := admission.asserted)
  }

  /**
   * The two layers agree: a call arriving through an admitted request without a credential of
   * its own is refused by the gate only for impersonation, and is otherwise authenticated as
   * the configured subject, whatever the process environment holds.
   */
  lemma LayersAgree(
    config: ServerConfig, request: HttpRequest, parse: string -> Json, outside: Ambient, kwargs: Fields,
      render: Value -> string)
    requires config.Valid() && config.requireAuthentication && !Bypasses(request)
    requires AUTH_TOKEN_KWARG !in kwargs || kwargs[AUTH_TOKEN_KWARG] == Null
    requires Admit(true, config.authToken, request, parse).Inner?
    ensures
      var admission := Admit(true, config.authToken, request, parse);
      var ambient := InScope(admission, outside);
      var r := ResolveExecutionAuth(Some(config), None, ExtractCredential(kwargs, ambient, render), ambient);
      if Impersonates(config, admission.asserted.GetOr(EMPTY_CONTEXT)) then
        r.Err? && CodeFor(r.error) == INVALID_CONTEXT
      else
        && r.Ok? && r.value.Some?
        && r.value.value.auth
           == AuthOutcome(Authenticated, Some(Identity(config.authSubjectId, SCHEME)), "shared_secret_ok")
  {
    var admission := Admit(true, config.authToken, request, parse);
    AdmittedSecretIsConfigured(config.authToken, request, parse);
    var ambient := InScope(admission, outside);
    assert ExtractCredential(kwargs, ambient, render) == config.authToken;
    SecretIsExact(config, config.authToken);
    ImpersonationIsInvalidContext(ambient.assertedVar.GetOr(EMPTY_CONTEXT), Identity(config.authSubjectId, SCHEME));
  }

  lemma AdmittedSecretIsConfigured(expected: Option<string>, request: HttpRequest, parse: string -> Json)
    requires !Bypasses(request) && Admit(true, expected, request, parse).Inner?
    ensures Admit(true, expected, request, parse).secret == expected
    ensures expected.Some? && expected.value != "" && IsAscii(expected.value)
  {
  }
}
