/**
 * Structured errors and the machine-readable codes clients see.
 * Models `errors/errors.py` and `errors/client_contract.py`.
 */
module Errors {
  import opened Redaction
  import opened Text

  /** The subclasses of `McpError`; each fixes its category. */
  datatype ErrorKind =
    | ValidationError | NotFound | Unauthenticated | Unauthorized | RateLimited
    | Timeout | UnavailableDependency | UpstreamError | PolicyDenied | InternalError

  datatype McpError = McpError(kind: ErrorKind, message: string, details: Fields)

  /** An exception a call can end with: a structured error or any other `Exception`. */
  datatype Raised = Structured(error: McpError) | Foreign(typeName: string)

  /** `type(exc).__name__`. */
  function ClassName(kind: ErrorKind): string {
    match kind
    case ValidationError => "ValidationError"
    case NotFound => "NotFoundError"
    case Unauthenticated => "UnauthenticatedError"
    case Unauthorized => "UnauthorizedError"
    case RateLimited => "RateLimitedError"
    case Timeout => "TimeoutMcpError"
    case UnavailableDependency => "UnavailableDependencyError"
    case UpstreamError => "UpstreamError"
    case PolicyDenied => "PolicyDeniedError"
    case InternalError => "InternalError"
  }

  function TypeName(raised: Raised): string {
    match raised
    case Structured(error) => ClassName(error.kind)
    case Foreign(typeName) => typeName
  }

  /** The names under which structured errors are logged. */
  lemma ClassNameExactly(error: McpError)
    ensures (error.kind, TypeName(Structured(error))) in {
      (ValidationError, "ValidationError"), (NotFound, "NotFoundError"), (Unauthenticated, "UnauthenticatedError"),
      (Unauthorized, "UnauthorizedError"), (RateLimited, "RateLimitedError"), (Timeout, "TimeoutMcpError"),
      (UnavailableDependency, "UnavailableDependencyError"), (UpstreamError, "UpstreamError"),
      (PolicyDenied, "PolicyDeniedError"), (InternalError, "InternalError")}
  {
  }

  datatype ClientCode =
    | AUTHENTICATION_REQUIRED | AUTHENTICATION_FAILED | AUTHORIZATION_DENIED | APPROVAL_REQUIRED
    | UNKNOWN_TOOL | INVALID_CONTEXT | UPSTREAM_FAILURE | VALIDATION_ERROR | INTERNAL_ERROR
    | CONCURRENCY_LIMIT

  /** `str(exc.details.get(key, ""))`, for the text values the server puts there. */
  function Detail(error: McpError, key: string): string {
    if key in error.details && error.details[key].Str? then error.details[key].text else ""
  }

  /** `_code_for`. */
  function CodeFor(error: McpError): ClientCode {
    match error.kind
    case PolicyDenied =>
      var decision := Detail(error, "decision");
      if decision == "approval_required" then APPROVAL_REQUIRED
      else if decision == "deny" && "known" in error.details && error.details["known"] == Flag(false) then UNKNOWN_TOOL
      else AUTHORIZATION_DENIED
    case Unauthenticated =>
      var status := Detail(error, "status");
      if status == "invalid_credential" || status == "malformed" then AUTHENTICATION_FAILED
      else AUTHENTICATION_REQUIRED
    case ValidationError =>
      if Detail(error, "reason_code") == "context_mismatch" || Contains(error.message, "conflicts") then INVALID_CONTEXT
      else VALIDATION_ERROR
    case RateLimited => CONCURRENCY_LIMIT
    case Unauthorized => AUTHORIZATION_DENIED
    case UpstreamError => UPSTREAM_FAILURE
    case UnavailableDependency => UPSTREAM_FAILURE
    case Timeout => UPSTREAM_FAILURE
    case InternalError => INTERNAL_ERROR
    case NotFound => VALIDATION_ERROR
  }

  /** What each code tells a client about the error behind it. */
  lemma CodeTellsTheError(error: McpError)
    ensures
      var code, kind := CodeFor(error), error.kind;
      var decision, status := Detail(error, "decision"), Detail(error, "status");
      var unknown := "known" in error.details && error.details["known"] == Flag(false);
      var conflict := Detail(error, "reason_code") == "context_mismatch"
        || exists before, after :: Around(error.message, before, "conflicts", after);
      && (code == APPROVAL_REQUIRED <==> kind == PolicyDenied && decision == "approval_required")
      && (code == UNKNOWN_TOOL <==> kind == PolicyDenied && decision == "deny" && unknown)
      && (code == AUTHORIZATION_DENIED <==>
            || kind == Unauthorized
            || (kind == PolicyDenied && decision != "approval_required" && !(decision == "deny" && unknown)))
      && (code == AUTHENTICATION_FAILED <==> kind == Unauthenticated && status in {"invalid_credential", "malformed"})
      && (code == AUTHENTICATION_REQUIRED
         <==> kind == Unauthenticated && status !in {"invalid_credential", "malformed"})
      && (code == INVALID_CONTEXT <==> kind == ValidationError && conflict)
      && (code == VALIDATION_ERROR <==> kind == NotFound || (kind == ValidationError && !conflict))
      && (code == CONCURRENCY_LIMIT <==> kind == RateLimited)
      && (code == UPSTREAM_FAILURE <==> kind in {UpstreamError, UnavailableDependency, Timeout})
      && (code == INTERNAL_ERROR <==> kind == InternalError)
  {
    hide Contains;
    ContainsExactly(error.message, "conflicts");
  }

  const BLOCKED_DETAIL_KEYS: seq<string> :=
    ["token", "secret", "password", "credential", "authorization", "api_key", "apikey", "presented_secret",
      "auth_token"]

  predicate IsBlockedDetail(key: string) {
    exists i | 0 <= i < |BLOCKED_DETAIL_KEYS| :: Contains(NormalizeKey(key), BLOCKED_DETAIL_KEYS[i])
  }

  /** What `_safe_details` keeps of one value: scalars as they are, containers by type name only. */
  function SafeDetail(v: Value): Value {
    match v
    case List(_) => Str("list")
    case Tuple(_) => Str("tuple")
    case Dict(_) => Str("dict")
    case _ => v
  }

  /** The payload of the `ToolError` a client receives. */
  datatype Payload = Payload(code: ClientCode, kind: ErrorKind, message: string, details: Fields)

  function SafeDetails(details: Fields): Fields {
    map k | k in details && !IsBlockedDetail(k) :: SafeDetail(details[k])
  }

  /** `map_mcp_error`. */
  function MapMcpError(error: McpError): Payload {
    Payload(CodeFor(error), error.kind, error.message, SafeDetails(error.details))
  }

  /** The mapping with the given items, added from left to right. */
  function FieldsOf(items: seq<(string, Value)>): Fields {
    if items == [] then map[] else FieldsOf(items[..|items| - 1])[items[|items| - 1].0 := items[|items| - 1].1]
  }

  /** `_safe_details` as the loop it is: a dictionary filled key by key in iteration order. */
  method CollectSafeDetails(items: seq<(string, Value)>) returns (out: Fields)
    ensures out == SafeDetails(FieldsOf(items))
  {
    out := map[];
    var i := 0;
    while i < |items|
      invariant 0 <= i <= |items|
      invariant out == SafeDetails(FieldsOf(items[..i]))
    {
      assert items[..i + 1][..i] == items[..i];
      var (key, value) := items[i];
      if !IsBlockedDetail(key) {
        out := out[key := SafeDetail(value)];
      }
      i := i + 1;
    }
    assert items[..i] == items;
  }

  predicate IsScalar(v: Value) {
    !v.List? && !v.Tuple? && !v.Dict?
  }

  /**
   * The details a client receives are scalars, and a key that redaction would blank survives
   * only if it spells `passwd`, the one sensitive part missing from the blocked names.
   */
  lemma PayloadDetailsExposeOnlyPasswd(error: McpError, key: string)
    requires key in MapMcpError(error).details
    ensures IsScalar(MapMcpError(error).details[key])
    ensures IsSensitiveKey(key) <==> Contains(NormalizeKey(key), "passwd")
  {
    var b, p := BLOCKED_DETAIL_KEYS, SENSITIVE_KEY_PARTS;
    assert key in error.details && !IsBlockedDetail(key);
    assert p[0] == b[0] && p[1] == b[1] && p[2] == b[2] && p[4] == b[4] && p[5] == b[5] && p[6] == b[6] && p[7] == b[3];
    assert p[3] == "passwd";
  }

  /** A lower-case key passes if, for each blocked part, some letter of the part is missing from it. */
  lemma LackingLettersIsNotBlocked(key: string, missing: seq<char>)
    requires forall c | c in key :: 'a' <= c <= 'z' || c == '_'
    requires |missing| == |BLOCKED_DETAIL_KEYS|
    requires forall i | 0 <= i < |missing| :: missing[i] !in key && missing[i] in BLOCKED_DETAIL_KEYS[i]
    ensures !IsBlockedDetail(key)
  {
    hide Contains;
    forall i | 0 <= i < |key| ensures NormalizeKey(key)[i] == key[i] {
      assert key[i] in key;
    }
    assert NormalizeKey(key) == key;
    forall i | 0 <= i < |missing| ensures !Contains(key, BLOCKED_DETAIL_KEYS[i]) {
      var j :| 0 <= j < |BLOCKED_DETAIL_KEYS[i]| && BLOCKED_DETAIL_KEYS[i][j] == missing[i];
      LacksLetter(key, BLOCKED_DETAIL_KEYS[i], j);
    }
  }

  /** Such a detail does reach the client, though redaction would blank it. */
  lemma PasswdDetailSurvives(kind: ErrorKind, message: string)
    ensures
      var details := map["passwd" := Str("x")];
      && MapMcpError(McpError(kind, message, details)).details == details
      && RedactFields(details) == map["passwd" := Str(REDACTED)]
  {
    hide Contains, IsBlockedDetail;
    var key := "passwd";
    LackingLettersIsNotBlocked(key, ['t', 'e', 'o', 'c', 'u', 'i', 'i', 'e', 'u']);
    assert NormalizeKey(key) == key;
    ContainsItself(key);
    assert SENSITIVE_KEY_PARTS[3] == key;
  }

  /** The key spells out one of the names whose details are withheld. */
  ghost predicate NamesAWithheldDetail(key: string) {
    NamesOneOf(key, {"token", "secret", "password", "credential", "authorization", "api_key", "apikey",
                     "presented_secret", "auth_token"})
  }

  lemma BlockedExactly(key: string)
    ensures IsBlockedDetail(key) <==> NamesAWithheldDetail(key)
  {
    hide Contains, NormalizeKey, NamesOneOf;
    BlockedAreLowerCase();
    ListedPartsExactly(key, BLOCKED_DETAIL_KEYS);
    BlockedAreTheNames();
  }

  lemma BlockedAreLowerCase()
    ensures forall i | 0 <= i < |BLOCKED_DETAIL_KEYS| ::
              forall c | c in BLOCKED_DETAIL_KEYS[i] :: 'a' <= c <= 'z' || c == '_'
  {
  }

  lemma BlockedAreTheNames()
    ensures (set i | 0 <= i < |BLOCKED_DETAIL_KEYS| :: BLOCKED_DETAIL_KEYS[i])
         == {"token", "secret", "password", "credential", "authorization", "api_key", "apikey",
             "presented_secret", "auth_token"}
  {
    var b := BLOCKED_DETAIL_KEYS;
    var names := set i | 0 <= i < |b| :: b[i];
    assert b[0] in names && b[1] in names && b[2] in names && b[3] in names && b[4] in names;
    assert b[5] in names && b[6] in names && b[7] in names && b[8] in names;
  }

  /**
   * What a client receives of an error: its kind, its message, and exactly the details whose
   * keys spell out none of the withheld names, scalars as they are and containers by type name.
   */
  lemma ErrorReachesTheClient(error: McpError, key: string)
    ensures MapMcpError(error).kind == error.kind && MapMcpError(error).message == error.message
    ensures key in MapMcpError(error).details <==> key in error.details && !NamesAWithheldDetail(key)
    ensures key in MapMcpError(error).details ==>
      var v, sent := error.details[key], MapMcpError(error).details[key];
      && (IsScalar(v) ==> sent == v)
      && (v.List? ==> sent == Str("list")) && (v.Tuple? ==> sent == Str("tuple")) && (v.Dict? ==> sent == Str("dict"))
  {
    hide IsBlockedDetail, NamesAWithheldDetail;
    BlockedExactly(key);
  }
}
