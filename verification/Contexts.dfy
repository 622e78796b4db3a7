/**
 * The caller-asserted integration context and the governance context derived from it.
 * Models `contracts/integration_context.py` and the context of `governance/types.py`.
 */
module Contexts {
  import opened Errors
  import opened Outcomes
  import opened Redaction
  import opened Text

  const MAX_ID_LENGTH := 128
  const MAX_EXTRA_KEYS := 16
  const MAX_EXTRA_VALUE_LENGTH := 256

  predicate IsAlnum(c: char) {
    'a' <= c <= 'z' || 'A' <= c <= 'Z' || '0' <= c <= '9'
  }

  /** Full match of `^[A-Za-z0-9][A-Za-z0-9._:@+/-]{0,127}$`. */
  predicate IsIdentifier(s: string) {
    1 <= |s| <= MAX_ID_LENGTH && IsAlnum(s[0])
    && forall c | c in s :: IsAlnum(c) || c in "._:@+/-"
  }

  ghost predicate InRange(c: char, lo: int, hi: int) {
    lo <= c as int <= hi
  }

  /** An identifier starts with an ASCII digit or letter and goes on with those and seven signs. */
  lemma IdentifierExactly(s: string)
    ensures IsIdentifier(s) <==>
      && 1 <= |s| <= 128
      && (InRange(s[0], 48, 57) || InRange(s[0], 65, 90) || InRange(s[0], 97, 122))
      && forall i | 0 <= i < |s| ::
           InRange(s[i], 48, 57) || InRange(s[i], 65, 90) || InRange(s[i], 97, 122) || s[i] in "._:@+/-"
  {
  }

  datatype Ids = Ids(
    clientId: Option<string>, agentId: Option<string>, projectId: Option<string>, workspaceId: Option<string>,
    taskId: Option<string>, sessionId: Option<string>, requestId: Option<string>, correlationId: Option<string>)
  {
    function AsDict(): Fields {
      IdField("client_id", clientId) + IdField("agent_id", agentId) + IdField("project_id", projectId)
      + IdField("workspace_id", workspaceId) + IdField("task_id", taskId) + IdField("session_id", sessionId)
      + IdField("request_id", requestId) + IdField("correlation_id", correlationId)
    }
  }

  datatype Trust = Asserted | Trusted | Unresolved

  /** A validated context; `Assert` is the only way the server makes one. */
  datatype IntegrationContext = IntegrationContext(ids: Ids, extra: Fields, trust: Trust) {
    ghost predicate Valid() {
      ValidIds(ids) && ValidExtra(extra) && trust != Trusted
    }

    function ToGovernanceContext(): GovernanceContext {
      GovernanceContext(ids, extra)
    }
  }

  datatype GovernanceContext = GovernanceContext(ids: Ids, extra: Fields) {
    /** `as_dict`: absent ids and an empty `extra` are left out. */
    function AsDict(): Fields {
      ids.AsDict() + ExtraField(extra)
    }
  }

  const NO_IDS := Ids(None, None, None, None, None, None, None, None)

  function IdField(name: string, id: Option<string>): Fields {
    if id.Some? then map[name := Str(id.value)] else map[]
  }

  function ExtraField(extra: Fields): Fields {
    if extra == map[] then map[] else map["extra" := Dict(extra)]
  }

  ghost predicate ValidId(id: Option<string>) {
    id.Some? ==> IsIdentifier(id.value)
  }

  ghost predicate ValidIds(ids: Ids) {
    ValidId(ids.clientId) && ValidId(ids.agentId) && ValidId(ids.projectId) && ValidId(ids.workspaceId)
    && ValidId(ids.taskId) && ValidId(ids.sessionId) && ValidId(ids.requestId) && ValidId(ids.correlationId)
  }

  predicate ValidExtraItem(key: string, value: Value) {
    Strip(key) != "" && !IsSensitiveKey(key)
    && !(value.Str? && |value.text| > MAX_EXTRA_VALUE_LENGTH) && !value.Dict? && !value.List?
  }

  predicate ValidExtra(extra: Fields) {
    |extra| <= MAX_EXTRA_KEYS && forall k | k in extra :: ValidExtraItem(k, extra[k])
  }

  /**
   * An `extra` is acceptable if it is small, its keys are not blank and name no secret, and its values
   * are short scalars.
   */
  lemma ValidExtraExactly(extra: Fields)
    ensures ValidExtra(extra) <==>
      && |extra| <= 16
      && forall k | k in extra ::
           && (exists i :: 0 <= i < |k| && !IsSpace(k[i])) && !NamesASecret(k)
           && !extra[k].Dict? && !extra[k].List? && (extra[k].Str? ==> |extra[k].text| <= 256)
  {
    hide Strip, IsSensitiveKey, NamesASecret;
    forall k: string ensures Strip(k) != "" <==> exists i :: 0 <= i < |k| && !IsSpace(k[i]) {
      BlankExactly(k);
    }
    forall k ensures IsSensitiveKey(k) <==> NamesASecret(k) {
      SensitiveExactly(k);
    }
  }

  function Reject(message: string): McpError {
    McpError(ValidationError, message, map[])
  }

  /** `_validate_optional_id`. */
  function ValidateOptionalId(name: string, value: Value): (r: Result<Option<string>, McpError>)
    ensures r.Ok? ==> ValidId(r.value)
  {
    match value
    case Null => Ok(None)
    case Str(text) =>
      var stripped := Strip(text);
      if stripped == "" then Err(Reject(name + " must not be empty or whitespace"))
      else if |stripped| > MAX_ID_LENGTH then Err(Reject(name + " exceeds maximum length 128"))
      else if !IsIdentifier(stripped) then Err(Reject(name + " contains invalid characters"))
      else Ok(Some(stripped))
    case _ => Err(Reject(name + " must be a string or null"))
  }

  /** `_validate_extra`; which of several faulty items the error names is left open. */
  function ValidateExtra(extra: Value): Result<Fields, McpError> {
    match extra
    case Null => Ok(map[])
    case Dict(fields) => if ValidExtra(fields) then Ok(fields) else Err(Reject("extra is not acceptable"))
    case _ => Err(Reject("extra must be a mapping"))
  }

  /** The loop of `_validate_extra` over the items of a dictionary, stopping at the first faulty one. */
  method CollectExtra(items: seq<(string, Value)>) returns (r: Result<Fields, nat>)
    requires forall i, j | 0 <= i < j < |items| :: items[i].0 != items[j].0
    ensures r.Ok? <==> ValidExtra(FieldsOf(items))
    ensures r.Ok? ==> r.value == FieldsOf(items)
    ensures r.Err? && |items| <= MAX_EXTRA_KEYS ==>
      r.error < |items| && !ValidExtraItem(items[r.error].0, items[r.error].1)
      && forall j | 0 <= j < r.error :: ValidExtraItem(items[j].0, items[j].1)
  {
    hide ValidExtraItem;
    FieldsOfItems(items);
    if |items| > MAX_EXTRA_KEYS {
      return Err(0);
    }
    var out: Fields := map[];
    var i := 0;
    while i < |items|
      invariant 0 <= i <= |items|
      invariant out == FieldsOf(items[..i])
      invariant forall j | 0 <= j < i :: ValidExtraItem(items[j].0, items[j].1)
      invariant forall k | k in out :: ValidExtraItem(k, out[k])
    {
      assert items[..i + 1][..i] == items[..i];
      var (key, value) := items[i];
      if !ValidExtraItem(key, value) {
        assert FieldsOf(items)[key] == value;
        return Err(i);
      }
      out := out[key := value];
      i := i + 1;
    }
    assert items[..i] == items;
    return Ok(out);
  }

  lemma {:induction false} FieldsOfKey(items: seq<(string, Value)>, key: string) returns (i: nat)
    requires key in FieldsOf(items)
    ensures i < |items| && items[i].0 == key
  {
    var n := |items| - 1;
    if items[n].0 == key {
      i := n;
    } else {
      i := FieldsOfKey(items[..n], key);
    }
  }

  /** With distinct keys a dictionary holds exactly its items. */
  lemma {:induction false} FieldsOfItems(items: seq<(string, Value)>)
    requires forall i, j | 0 <= i < j < |items| :: items[i].0 != items[j].0
    ensures |FieldsOf(items)| == |items|
    ensures forall i | 0 <= i < |items| :: items[i].0 in FieldsOf(items) && FieldsOf(items)[items[i].0] == items[i].1
  {
    if items == [] {
    } else {
      var n := |items| - 1;
      var init := FieldsOf(items[..n]);
      FieldsOfItems(items[..n]);
      if items[n].0 in init {
        var i := FieldsOfKey(items[..n], items[n].0);
      }
      assert FieldsOf(items) == init[items[n].0 := items[n].1];
      assert forall i | 0 <= i < n :: items[i] == items[..n][i];
    }
  }

  /** What a caller passes for the eight ids, in field order, before validation. */
  datatype RawIds = RawIds(
    clientId: Value, agentId: Value, projectId: Value, workspaceId: Value,
    taskId: Value, sessionId: Value, requestId: Value, correlationId: Value)

  /** The ids are validated in order, the first fault ending construction. */
  function ValidateIds(raw: RawIds): (r: Result<Ids, McpError>)
    ensures r.Ok? ==> ValidIds(r.value)
  {
    var clientId :- ValidateOptionalId("client_id", raw.clientId);
    var agentId :- ValidateOptionalId("agent_id", raw.agentId);
    var projectId :- ValidateOptionalId("project_id", raw.projectId);
    var workspaceId :- ValidateOptionalId("workspace_id", raw.workspaceId);
    var taskId :- ValidateOptionalId("task_id", raw.taskId);
    var sessionId :- ValidateOptionalId("session_id", raw.sessionId);
    var requestId :- ValidateOptionalId("request_id", raw.requestId);
    var correlationId :- ValidateOptionalId("correlation_id", raw.correlationId);
    Ok(Ids(clientId, agentId, projectId, workspaceId, taskId, sessionId, requestId, correlationId))
  }

  /** `IntegrationContext(...)`: every field is normalised or construction fails. */
  function Assert(raw: RawIds, extra: Value, trust: Trust): (r: Result<IntegrationContext, McpError>)
    ensures r.Ok? ==> r.value.Valid()
  {
    var ids :- ValidateIds(raw);
    var checkedExtra :- ValidateExtra(extra);
    if trust == Trusted then Err(Reject("caller cannot assert TRUSTED identity; authentication is UNRESOLVED on stdio"))
    else Ok(IntegrationContext(ids, checkedExtra, trust))
  }

  function RawId(id: Option<string>): Value {
    if id.Some? then Str(id.value) else Null
  }

  /** The context enforcement rebuilds from a governance context. */
  function Rebuild(context: GovernanceContext): Result<IntegrationContext, McpError> {
    Assert(AsRaw(context.ids), if context.extra == map[] then Null else Dict(context.extra), Asserted)
  }

  function AsRaw(ids: Ids): RawIds {
    RawIds(RawId(ids.clientId), RawId(ids.agentId), RawId(ids.projectId), RawId(ids.workspaceId),
           RawId(ids.taskId), RawId(ids.sessionId), RawId(ids.requestId), RawId(ids.correlationId))
  }

  /** An identifier is already trimmed, so validating it again changes nothing. */
  lemma IdentifierIsTrimmed(s: string)
    requires IsIdentifier(s)
    ensures Trimmed(s) && Strip(s) == s
  {
    forall c | c in s ensures !IsSpace(c) {
    }
    assert s[0] in s && s[|s| - 1] in s;
    StripOfPadded("", s, "");
    assert "" + s + "" == s;
  }

  lemma ValidIdSurvives(name: string, id: Option<string>)
    requires ValidId(id)
    ensures ValidateOptionalId(name, RawId(id)) == Ok(id)
  {
    if id.Some? {
      IdentifierIsTrimmed(id.value);
    }
  }

  lemma ValidIdsSurvive(ids: Ids)
    requires ValidIds(ids)
    ensures ValidateIds(AsRaw(ids)) == Ok(ids)
  {
    ValidIdSurvives("client_id", ids.clientId);
    ValidIdSurvives("agent_id", ids.agentId);
    ValidIdSurvives("project_id", ids.projectId);
    ValidIdSurvives("workspace_id", ids.workspaceId);
    ValidIdSurvives("task_id", ids.taskId);
    ValidIdSurvives("session_id", ids.sessionId);
    ValidIdSurvives("request_id", ids.requestId);
    ValidIdSurvives("correlation_id", ids.correlationId);
  }

  /**
   * Round trip: mapping a validated context to governance and rebuilding it never fails and
   * gives the same ids and extra; only the trust claim is reset.
   */
  lemma ContextRoundTrip(c: IntegrationContext)
    requires c.Valid()
    ensures Rebuild(c.ToGovernanceContext()) == Ok(c.(trust := Asserted))
  {
    ValidIdsSurvive(c.ids);
  }

  ghost predicate AcceptableId(value: Value) {
    value == Null || (value.Str? && IsIdentifier(Strip(value.text)))
  }

  /** The form in which an acceptable id is kept. */
  function KeptId(value: Value): Option<string> {
    if value.Str? then Some(Strip(value.text)) else None
  }

  /** An id is accepted when it is null or text whose stripped form is an identifier, and is kept in that form. */
  lemma ValidateOptionalIdExact(name: string, value: Value)
    ensures ValidateOptionalId(name, value).Ok? <==> AcceptableId(value)
    ensures AcceptableId(value) ==> ValidateOptionalId(name, value) == Ok(KeptId(value))
  {
  }

  ghost predicate AcceptableIds(raw: RawIds) {
    && AcceptableId(raw.clientId) && AcceptableId(raw.agentId) && AcceptableId(raw.projectId)
    && AcceptableId(raw.workspaceId)
    && AcceptableId(raw.taskId) && AcceptableId(raw.sessionId) && AcceptableId(raw.requestId)
    && AcceptableId(raw.correlationId)
  }

  function KeptIds(raw: RawIds): Ids {
    Ids(KeptId(raw.clientId), KeptId(raw.agentId), KeptId(raw.projectId), KeptId(raw.workspaceId),
        KeptId(raw.taskId), KeptId(raw.sessionId), KeptId(raw.requestId), KeptId(raw.correlationId))
  }

  lemma ValidateIdsExact(raw: RawIds)
    ensures ValidateIds(raw).Ok? <==> AcceptableIds(raw)
    ensures AcceptableIds(raw) ==> ValidateIds(raw) == Ok(KeptIds(raw))
  {
    hide ValidateOptionalId, AcceptableId, KeptId;
    ValidateOptionalIdExact("client_id", raw.clientId);
    ValidateOptionalIdExact("agent_id", raw.agentId);
    ValidateOptionalIdExact("project_id", raw.projectId);
    ValidateOptionalIdExact("workspace_id", raw.workspaceId);
    ValidateOptionalIdExact("task_id", raw.taskId);
    ValidateOptionalIdExact("session_id", raw.sessionId);
    ValidateOptionalIdExact("request_id", raw.requestId);
    ValidateOptionalIdExact("correlation_id", raw.correlationId);
  }

  ghost predicate AcceptableExtra(extra: Value) {
    extra == Null || (extra.Dict? && ValidExtra(extra.fields))
  }

  /** Construction succeeds exactly on acceptable parts without a claim of trust, and keeps them. */
  lemma AssertExact(raw: RawIds, extra: Value, trust: Trust)
    ensures Assert(raw, extra, trust).Ok? <==> AcceptableIds(raw) && AcceptableExtra(extra) && trust != Trusted
    ensures Assert(raw, extra, trust).Ok? ==>
              Assert(raw, extra, trust).value
                == IntegrationContext(KeptIds(raw), if extra.Dict? then extra.fields else map[], trust)
  {
    hide ValidateIds, AcceptableIds, KeptIds, ValidExtra;
    ValidateIdsExact(raw);
  }

  /** The governance contexts enforcement can rebuild an integration context from. */
  ghost predicate CanRebuild(context: GovernanceContext) {
    AcceptableIds(AsRaw(context.ids)) && ValidExtra(context.extra)
  }

  lemma RebuildExact(context: GovernanceContext)
    ensures Rebuild(context).Ok? <==> CanRebuild(context)
    ensures Rebuild(context).Ok? ==>
              Rebuild(context).value == IntegrationContext(KeptIds(AsRaw(context.ids)), context.extra, Asserted)
  {
    hide Assert, AcceptableIds, KeptIds;
    AssertExact(AsRaw(context.ids), if context.extra == map[] then Null else Dict(context.extra), Asserted);
  }

  /** A lower-case key is not sensitive if, for each sensitive part, some letter of the part is missing from it. */
  lemma LackingLettersIsNotSensitive(key: string, missing: seq<char>)
    requires forall c | c in key :: 'a' <= c <= 'z' || c == '_'
    requires |missing| == |SENSITIVE_KEY_PARTS|
    requires forall i | 0 <= i < |missing| :: missing[i] !in key && missing[i] in SENSITIVE_KEY_PARTS[i]
    ensures !IsSensitiveKey(key)
  {
    forall i | 0 <= i < |key| ensures NormalizeKey(key)[i] == key[i] {
      assert key[i] in key;
    }
    assert NormalizeKey(key) == key;
    forall i | 0 <= i < |missing| ensures !Contains(key, SENSITIVE_KEY_PARTS[i]) {
      var j :| 0 <= j < |SENSITIVE_KEY_PARTS[i]| && SENSITIVE_KEY_PARTS[i][j] == missing[i];
      LacksLetter(key, SENSITIVE_KEY_PARTS[i], j);
    }
  }

  /** None of the keys of `as_dict` is sensitive. */
  lemma ContextKeysAreNotSensitive(key: string)
    requires key in ["client_id", "agent_id", "project_id", "workspace_id", "task_id", "session_id",
                     "request_id", "correlation_id", "extra"]
    ensures !IsSensitiveKey(key)
  {
    if key in ["client_id", "task_id", "session_id", "request_id"] {
      LettersMissingFromIds(key);
    } else if key in ["agent_id", "project_id", "extra"] {
      LackingLettersIsNotSensitive(key, ['k', 's', 'w', 'w', 'h', 'y', 'y', 'l']);
    } else if key == "workspace_id" {
      WorkspaceIdIsNotSensitive();
    } else {
      CorrelationIdIsNotSensitive();
    }
  }

  /** The missing letters are listed in the order of the sensitive parts. */
  lemma LettersMissingFromIds(key: string)
    requires key in ["client_id", "task_id", "session_id", "request_id"]
    ensures !IsSensitiveKey(key)
  {
    if key == "client_id" {
      LackingLettersIsNotSensitive(key, ['k', 's', 'w', 'w', 'h', 'y', 'y', 'r']);
    } else if key == "task_id" {
      LackingLettersIsNotSensitive(key, ['o', 'e', 'w', 'w', 'h', 'y', 'y', 'l']);
    } else {
      LackingLettersIsNotSensitive(key, ['k', 'c', 'w', 'w', 'h', 'y', 'y', 'l']);
    }
  }

  lemma WorkspaceIdIsNotSensitive()
    ensures !IsSensitiveKey("workspace_id")
  {
    hide Contains;
    var key := "workspace_id";
    assert NormalizeKey(key) == key;
    LacksLetter(key, "token", 4);
    LacksLetter(key, "secret", 5);
    DiffersWithin3(key, "password");
    DiffersWithin3(key, "passwd");
    LacksLetter(key, "authorization", 3);
    LacksLetter(key, "api_key", 6);
    LacksLetter(key, "apikey", 5);
    LacksLetter(key, "credential", 9);
  }

  lemma CorrelationIdIsNotSensitive()
    ensures !IsSensitiveKey("correlation_id")
  {
    hide Contains;
    var key := "correlation_id";
    assert NormalizeKey(key) == key;
    LacksLetter(key, "token", 2);
    LacksLetter(key, "secret", 0);
    LacksLetter(key, "password", 4);
    LacksLetter(key, "passwd", 4);
    LacksLetter(key, "authorization", 3);
    LacksLetter(key, "api_key", 6);
    LacksLetter(key, "apikey", 5);
    DiffersWithin3(key, "credential");
  }

  lemma DiffersWithin3(s: string, part: string)
    requires |part| >= 3
    requires forall i | 0 <= i && i + |part| <= |s| :: s[i] != part[0] || s[i + 1] != part[1] || s[i + 2] != part[2]
    ensures !Contains(s, part)
  {
    forall i: nat | i <= |s| ensures !MatchesAt(s, part, i) {
      if MatchesAt(s, part, i) {
        MatchFixesLetter(s, part, i, 0);
        MatchFixesLetter(s, part, i, 1);
        MatchFixesLetter(s, part, i, 2);
      }
    }
  }

  lemma RedactFieldsOfUnion(a: Fields, b: Fields)
    ensures RedactFields(a + b) == RedactFields(a) + RedactFields(b)
  {
  }

  lemma RedactedIds(ids: Ids)
    ensures RedactFields(ids.AsDict()) == ids.AsDict()
  {
    hide Ids.AsDict, IsSensitiveKey;
    var fields := ids.AsDict();
    forall key | key in fields ensures RedactFields(fields)[key] == fields[key] {
      IdsDictExactly(ids, key);
      ContextKeysAreNotSensitive(key);
      assert RedactFields(fields)[key] == Redact(fields[key]);
    }
    assert RedactFields(fields).Keys == fields.Keys;
  }

  /**
   * Sanitising a context for the audit log keeps every identity field as it was and rewrites
   * nothing but `extra`.
   */
  lemma SanitisedContextKeepsIds(c: GovernanceContext)
    ensures RedactFields(c.AsDict()) == c.ids.AsDict() + ExtraField(RedactFields(c.extra))
  {
    RedactedIds(c.ids);
    RedactFieldsOfUnion(c.ids.AsDict(), ExtraField(c.extra));
    RedactedExtra(c.extra);
  }

  lemma RedactedExtra(extra: Fields)
    ensures RedactFields(ExtraField(extra)) == ExtraField(RedactFields(extra))
  {
    ContextKeysAreNotSensitive("extra");
    assert RedactFields(extra).Keys == extra.Keys;
    if extra == map[] {
      assert RedactFields(extra) == map[];
    } else {
      assert RedactFields(ExtraField(extra)).Keys == {"extra"};
      assert RedactFields(extra) != map[];
    }
  }

  /** The id a context has under the name it is known by in dictionaries and headers. */
  function NamedId(ids: Ids, name: string): Option<string> {
    match name
    case "client_id" => ids.clientId
    case "agent_id" => ids.agentId
    case "project_id" => ids.projectId
    case "workspace_id" => ids.workspaceId
    case "task_id" => ids.taskId
    case "session_id" => ids.sessionId
    case "request_id" => ids.requestId
    case "correlation_id" => ids.correlationId
    case _ => None
  }

  lemma UnionWithId(fields: Fields, name: string, id: Option<string>, key: string)
    ensures var all := fields + IdField(name, id);
            key in all <==> key in fields || (key == name && id.Some?)
    ensures var all := fields + IdField(name, id);
            key in all ==> all[key] == if key == name && id.Some? then Str(id.value) else fields[key]
  {
  }

  /** The dictionary of a context holds exactly its ids, each under its own name, and a non-empty `extra`. */
  lemma AsDictExactly(c: GovernanceContext, key: string)
    ensures key in c.AsDict() <==> NamedId(c.ids, key).Some? || (key == "extra" && c.extra != map[])
    ensures key in c.AsDict() ==> c.AsDict()[key] == if key == "extra" then Dict(c.extra)
      else Str(NamedId(c.ids, key).value)
  {
    IdsDictExactly(c.ids, key);
  }

  lemma IdsDictExactly(ids: Ids, key: string)
    ensures key in ids.AsDict() <==> NamedId(ids, key).Some?
    ensures key in ids.AsDict() ==> ids.AsDict()[key] == Str(NamedId(ids, key).value)
  {
    hide IdField;
    var d0: Fields := map[];
    var d1 := d0 + IdField("client_id", ids.clientId);
    var d2 := d1 + IdField("agent_id", ids.agentId);
    var d3 := d2 + IdField("project_id", ids.projectId);
    var d4 := d3 + IdField("workspace_id", ids.workspaceId);
    var d5 := d4 + IdField("task_id", ids.taskId);
    var d6 := d5 + IdField("session_id", ids.sessionId);
    var d7 := d6 + IdField("request_id", ids.requestId);
    UnionWithId(d0, "client_id", ids.clientId, key);
    UnionWithId(d1, "agent_id", ids.agentId, key);
    UnionWithId(d2, "project_id", ids.projectId, key);
    UnionWithId(d3, "workspace_id", ids.workspaceId, key);
    UnionWithId(d4, "task_id", ids.taskId, key);
    UnionWithId(d5, "session_id", ids.sessionId, key);
    UnionWithId(d6, "request_id", ids.requestId, key);
    UnionWithId(d7, "correlation_id", ids.correlationId, key);
    assert d1 == IdField("client_id", ids.clientId);
    assert ids.AsDict() == d7 + IdField("correlation_id", ids.correlationId);
  }
}
