/**
 * Server-issued approval tokens. Models `approval/types.py` and `approval/store.py`.
 * The clock is an input of every operation that reads it, and so is the fresh token of an issue.
 */
module Approval {
  import opened Contexts
  import opened Errors
  import opened Outcomes
  import opened Redaction
  import opened Text

  datatype Status = Granted | Missing | Invalid | Expired | Replayed | Mismatch

  function StatusText(status: Status): string {
    match status
    case Granted => "granted"
    case Missing => "missing"
    case Invalid => "invalid"
    case Expired => "expired"
    case Replayed => "replayed"
    case Mismatch => "mismatch"
  }

  datatype Grant = Grant(
    approvalId: string, toolName: string, subjectId: Option<string>, requestId: Option<string>,
    projectId: Option<string>, expiresAt: int, singleUse: bool)
  {
    predicate IsExpired(now: int) {
      now >= expiresAt
    }
  }

  datatype Entry = Entry(grant: Grant, consumed: bool)

  type Entries = map<string, Entry>

  datatype Validation = Validation(status: Status, grant: Option<Grant>, reasonCode: string)

  /** A presentation of a token: everything `validate_and_consume` is given. */
  datatype Presentation = Presentation(
    token: Option<string>, toolName: string, context: Option<GovernanceContext>, subjectId: Option<string>)
  {
    /** The key looked up, empty when nothing was presented. */
    function Key(): string {
      if token.Some? then Strip(token.value) else ""
    }

    function ExpectedSubject(): Option<string> {
      if subjectId.None? && context.Some? then context.value.ids.agentId else subjectId
    }

    function RequestId(): Option<string> {
      if context.Some? then context.value.ids.requestId else None
    }

    function ProjectId(): Option<string> {
      if context.Some? then context.value.ids.projectId else None
    }
  }

  /** The decision of `validate_and_consume`, in its order: replay, expiry, tool, subject, request, project. */
  function Validate(entries: Entries, p: Presentation, now: int): Validation {
    if p.Key() == "" then Validation(Missing, None, "approval_missing")
    else if p.Key() !in entries then Validation(Invalid, None, "approval_unknown")
    else
      var Entry(grant, consumed) := entries[p.Key()];
      if consumed && grant.singleUse then Validation(Replayed, Some(grant), "approval_replayed")
      else if grant.IsExpired(now) then Validation(Expired, Some(grant), "approval_expired")
      else if grant.toolName != p.toolName then Validation(Mismatch, Some(grant), "approval_tool_mismatch")
      else if grant.subjectId.Some? && p.ExpectedSubject().Some? && grant.subjectId != p.ExpectedSubject() then
        Validation(Mismatch, Some(grant), "approval_subject_mismatch")
      else if grant.requestId.Some? && p.RequestId() != grant.requestId then
        Validation(Mismatch, Some(grant), "approval_request_mismatch")
      else if grant.projectId.Some? && p.ProjectId() != grant.projectId then
        Validation(Mismatch, Some(grant), "approval_project_mismatch")
      else Validation(Granted, Some(grant), "approval_granted")
  }

  /** The entries it leaves: a granted single-use token is spent, nothing else changes. */
  function Consume(entries: Entries, p: Presentation, now: int): Entries {
    var v := Validate(entries, p, now);
    if v.status == Granted && v.grant.value.singleUse then entries[p.Key() := Entry(v.grant.value, true)] else entries
  }

  /** What every store built by issuing and presenting satisfies. */
  ghost predicate GoodEntries(entries: Entries) {
    forall t | t in entries ::
      && t != "" && Trimmed(t)
      && (entries[t].consumed ==> entries[t].grant.singleUse)
      && entries[t].grant.toolName != "" && Trimmed(entries[t].grant.toolName)
  }

  /** A token `secrets.token_urlsafe` could produce that is not in use: non-empty, without spaces, fresh. */
  predicate FreshToken(entries: Entries, token: string) {
    token != "" && Trimmed(token) && token !in entries
  }

  class InMemoryApprovalStore {
    var entries: Entries

    constructor ()
      ensures entries == map[]
    {
      entries := map[];
    }

    method Issue(
      toolName: string, subjectId: Option<string>, requestId: Option<string>, projectId: Option<string>,
      ttlSeconds: int, singleUse: bool, now: int, token: string, approvalId: string)
      returns (r: Result<string, McpError>)
      requires FreshToken(entries, token)
      modifies this
      ensures r.Ok? <==> Strip(toolName) != "" && ttlSeconds > 0
      ensures r.Ok? ==> r.value == token
      ensures r.Ok? ==>
          var grant := Grant(approvalId, Strip(toolName), subjectId, requestId, projectId, now + ttlSeconds, singleUse);
                entries == old(entries)[token := Entry(grant, false)] && !grant.IsExpired(now)
      ensures r.Err? ==> entries == old(entries) && r.error.kind == ValidationError
      ensures r.Err? ==> r.error.details == map["reason_code" :=
                Str(if Strip(toolName) == "" then "approval_tool_required" else "approval_ttl_invalid")]
      ensures old(GoodEntries(entries)) ==> GoodEntries(entries)
    {
      if Strip(toolName) == "" {
        return Err(McpError(ValidationError, "approval tool_name must be non-empty",
          map["reason_code" := Str("approval_tool_required")]));
      }
      if ttlSeconds <= 0 {
        return Err(McpError(ValidationError, "approval ttl_seconds must be positive",
          map["reason_code" := Str("approval_ttl_invalid")]));
      }
      StripIdempotent(toolName);
      var grant := Grant(approvalId, Strip(toolName), subjectId, requestId, projectId, now + ttlSeconds, singleUse);
      entries := entries[token := Entry(grant, false)];
      return Ok(token);
    }

    /** The body of `validate_and_consume`; from the lookup on it runs under the store's lock. */
    method ValidateAndConsume(p: Presentation, now: int) returns (v: Validation)
      modifies this
      ensures v == Validate(old(entries), p, now)
      ensures entries == Consume(old(entries), p, now)
    {
      if p.token.None? || Strip(p.token.value) == "" {
        return Validation(Missing, None, "approval_missing");
      }
      var presented := Strip(p.token.value);
      if presented !in entries {
        return Validation(Invalid, None, "approval_unknown");
      }
      var Entry(grant, consumed) := entries[presented];
      if consumed && grant.singleUse {
        return Validation(Replayed, Some(grant), "approval_replayed");
      }
      if grant.IsExpired(now) {
        return Validation(Expired, Some(grant), "approval_expired");
      }
      if grant.toolName != p.toolName {
        return Validation(Mismatch, Some(grant), "approval_tool_mismatch");
      }
      var expectedSubject := p.subjectId;
      if expectedSubject.None? && p.context.Some? {
        expectedSubject := p.context.value.ids.agentId;
      }
      if grant.subjectId.Some? && expectedSubject.Some? && grant.subjectId != expectedSubject {
        return Validation(Mismatch, Some(grant), "approval_subject_mismatch");
      }
      if grant.requestId.Some? {
        var got := if p.context.Some? then p.context.value.ids.requestId else None;
        if got != grant.requestId {
          return Validation(Mismatch, Some(grant), "approval_request_mismatch");
        }
      }
      if grant.projectId.Some? {
        var got := if p.context.Some? then p.context.value.ids.projectId else None;
        if got != grant.projectId {
          return Validation(Mismatch, Some(grant), "approval_project_mismatch");
        }
      }
      if grant.singleUse {
        entries := entries[presented := Entry(grant, true)];
      }
      return Validation(Granted, Some(grant), "approval_granted");
    }
  }

  // ----- Runs of the store: any interleaving of its users is a sequence of operations under its lock

  datatype StoreOp = Issue(token: string, grant: Grant) | Present(presentation: Presentation, now: int)

  function Perform(entries: Entries, op: StoreOp): Entries {
    match op
    case Issue(token, grant) => entries[token := Entry(grant, false)]
    case Present(p, now) => Consume(entries, p, now)
  }

  function StoreAfter(ops: seq<StoreOp>): Entries {
    if ops == [] then map[] else Perform(StoreAfter(ops[..|ops| - 1]), ops[|ops| - 1])
  }

  predicate CanIssue(entries: Entries, token: string, grant: Grant) {
    FreshToken(entries, token) && grant.toolName != "" && Trimmed(grant.toolName)
  }

  /** Every issue in the run used a fresh token and a trimmed tool name, as `issue` does. */
  ghost predicate StoreRun(ops: seq<StoreOp>) {
    forall i | 0 <= i < |ops| && ops[i].Issue? :: CanIssue(StoreAfter(ops[..i]), ops[i].token, ops[i].grant)
  }

  /** Nothing is lost or rewritten: grants stay as issued and consumed flags never go back. */
  ghost predicate Evolves(before: Entries, after: Entries) {
    forall t | t in before ::
      t in after && after[t].grant == before[t].grant && (before[t].consumed ==> after[t].consumed)
  }

  lemma PerformKeepsEntriesGood(entries: Entries, op: StoreOp)
    requires GoodEntries(entries)
    requires op.Issue? ==> CanIssue(entries, op.token, op.grant)
    ensures GoodEntries(Perform(entries, op)) && Evolves(entries, Perform(entries, op))
  {
    hide Validate, Consume, Trimmed;
    if op.Present? {
      ConsumeSpendsAtMostTheKey(entries, op.presentation, op.now);
    }
  }

  lemma ConsumeSpendsAtMostTheKey(entries: Entries, p: Presentation, now: int)
    ensures Consume(entries, p, now) == entries
         || (p.Key() in entries && entries[p.Key()].grant.singleUse
             && Consume(entries, p, now) == entries[p.Key() := Entry(entries[p.Key()].grant, true)])
  {
  }

  /** One operation of a run, after its first `n`. */
  lemma RunStep(ops: seq<StoreOp>, n: nat)
    requires StoreRun(ops) && n < |ops| && GoodEntries(StoreAfter(ops[..n]))
    ensures GoodEntries(StoreAfter(ops[..n + 1])) && Evolves(StoreAfter(ops[..n]), StoreAfter(ops[..n + 1]))
  {
    assert ops[..n + 1][..n] == ops[..n] && ops[..n + 1][n] == ops[n];
    PerformKeepsEntriesGood(StoreAfter(ops[..n]), ops[n]);
  }

  /** In every run the entries stay good and only evolve. */
  lemma {:induction false} RunsKeepEntriesGood(ops: seq<StoreOp>, i: nat, j: nat)
    requires StoreRun(ops) && i <= j <= |ops|
    ensures GoodEntries(StoreAfter(ops[..i])) && GoodEntries(StoreAfter(ops[..j]))
    ensures Evolves(StoreAfter(ops[..i]), StoreAfter(ops[..j]))
    decreases j
  {
    if i < j {
      RunsKeepEntriesGood(ops, i, j - 1);
      RunStep(ops, j - 1);
    } else if j > 0 {
      RunsKeepEntriesGood(ops, i - 1, j - 1);
      RunStep(ops, j - 1);
    }
  }

  /** The verdict the `i`-th operation of a run, a presentation, receives. */
  function VerdictAt(ops: seq<StoreOp>, i: nat): Validation
    requires i < |ops| && ops[i].Present?
  {
    Validate(StoreAfter(ops[..i]), ops[i].presentation, ops[i].now)
  }

  /**
   * One-shot: once a single-use token has been granted, every later presentation of it, for any
   * tool, context and time, expired or not, is a replay.
   */
  lemma OneShot(ops: seq<StoreOp>, i: nat, j: nat)
    requires StoreRun(ops) && i < j < |ops| && ops[i].Present? && ops[j].Present?
    requires ops[i].presentation.Key() == ops[j].presentation.Key()
    requires VerdictAt(ops, i).status == Granted && VerdictAt(ops, i).grant.value.singleUse
    ensures VerdictAt(ops, j).status == Replayed && VerdictAt(ops, j).grant == VerdictAt(ops, i).grant
    ensures Consume(StoreAfter(ops[..j]), ops[j].presentation, ops[j].now) == StoreAfter(ops[..j])
  {
    assert ops[..i + 1][..i] == ops[..i];
    RunsKeepEntriesGood(ops, i + 1, j);
  }

  /**
   * A token is granted exactly when it is known, unspent, unexpired and every binding is met: the
   * tool, the request and the project always, the subject where both sides name one.
   */
  lemma GrantedExactly(entries: Entries, p: Presentation, now: int)
    ensures Validate(entries, p, now).status == Granted <==>
      && p.token.Some? && Strip(p.token.value) != "" && Strip(p.token.value) in entries
      && var Entry(grant, consumed) := entries[Strip(p.token.value)];
         var ids := if p.context.Some? then p.context.value.ids else NO_IDS;
         var subject := if p.subjectId.Some? then p.subjectId else ids.agentId;
         && !(consumed && grant.singleUse) && now < grant.expiresAt && grant.toolName == p.toolName
         && (grant.subjectId.Some? && subject.Some? ==> grant.subjectId == subject)
         && (grant.requestId.Some? ==> grant.requestId == ids.requestId)
         && (grant.projectId.Some? ==> grant.projectId == ids.projectId)
    ensures Validate(entries, p, now).status == Granted ==>
        Validate(entries, p, now).grant == Some(entries[Strip(p.token.value)].grant)
  {
  }

  /** A token is missing or unknown for just the reason that says so. */
  lemma UnmatchedExactly(entries: Entries, p: Presentation, now: int)
    ensures
      var key := if p.token.Some? then Strip(p.token.value) else "";
      var reason := Validate(entries, p, now).reasonCode;
      && (reason == "approval_missing" <==> key == "")
      && (reason == "approval_unknown" <==> key != "" && key !in entries)
  {
    hide Strip;
  }

  /**
   * What each reason for refusing a known token says about the token and the call: of the tests
   * it fails, the reason names the first.
   */
  lemma ReasonTellsExactly(entries: Entries, p: Presentation, now: int)
    requires p.token.Some? && Strip(p.token.value) != "" && Strip(p.token.value) in entries
    ensures
      var reason := Validate(entries, p, now).reasonCode;
      var Entry(grant, consumed) := entries[Strip(p.token.value)];
      var ids := if p.context.Some? then p.context.value.ids else NO_IDS;
      var subject := if p.subjectId.Some? then p.subjectId else ids.agentId;
      var replayed, expired := consumed && grant.singleUse, now >= grant.expiresAt;
      var otherTool := grant.toolName != p.toolName;
      var otherSubject := grant.subjectId.Some? && subject.Some? && grant.subjectId != subject;
      var otherRequest := grant.requestId.Some? && grant.requestId != ids.requestId;
      var otherProject := grant.projectId.Some? && grant.projectId != ids.projectId;
      && (reason == "approval_replayed" <==> replayed)
      && (reason == "approval_expired" <==> !replayed && expired)
      && (reason == "approval_tool_mismatch" <==> !replayed && !expired && otherTool)
      && (reason == "approval_subject_mismatch" <==> !replayed && !expired && !otherTool && otherSubject)
      && (reason == "approval_request_mismatch"
         <==> !replayed && !expired && !otherTool && !otherSubject && otherRequest)
      && (reason == "approval_project_mismatch" <==>
            !replayed && !expired && !otherTool && !otherSubject && !otherRequest && otherProject)
  {
    hide Strip;
    assert "approval_subject_mismatch"[9] == 's' && "approval_request_mismatch"[9] == 'r'
      && "approval_project_mismatch"[9] == 'p';
  }

  /** The status a call's context and its client are told goes with the reason. */
  lemma StatusGoesWithReason(entries: Entries, p: Presentation, now: int)
    ensures
      var v := Validate(entries, p, now);
      && (StatusText(v.status), v.reasonCode) in {
           ("missing", "approval_missing"), ("invalid", "approval_unknown"), ("replayed", "approval_replayed"),
           ("expired", "approval_expired"), ("mismatch", "approval_tool_mismatch"),
             ("mismatch", "approval_subject_mismatch"),
           ("mismatch", "approval_request_mismatch"), ("mismatch", "approval_project_mismatch"),
           ("granted", "approval_granted")}
      && (v.grant.Some? <==> v.status !in {Missing, Invalid})
  {
  }

  /**
   * A tool can ever be approved exactly when its name has no surrounding space: issuing strips
   * the name it is given, validation compares with the name as registered.
   */
  lemma ApprovableExactly(toolName: string)
    ensures (exists ops: seq<StoreOp>, i: nat ::
               && StoreRun(ops) && i < |ops| && ops[i].Present? && ops[i].presentation.toolName == toolName
               && VerdictAt(ops, i).status == Granted)
      <==> toolName != "" && Trimmed(toolName)
  {
    forall ops: seq<StoreOp>, i: nat |
      && StoreRun(ops) && i < |ops| && ops[i].Present? && ops[i].presentation.toolName == toolName
      && VerdictAt(ops, i).status == Granted
      ensures toolName != "" && Trimmed(toolName)
    {
      RunsKeepEntriesGood(ops, i, i);
    }
    if toolName != "" && Trimmed(toolName) {
      var grant := Grant("id", toolName, None, None, None, 1, true);
      var ops := [Issue("t", grant), Present(Presentation(Some("t"), toolName, None, None), 0)];
      StripOfPadded("", "t", "");
      assert "" + "t" + "" == "t";
      assert ops[..0] == [] && ops[..1] == [ops[0]] && ops[..1][..0] == [];
      assert StoreAfter(ops[..1]) == map["t" := Entry(grant, false)];
      assert StoreRun(ops) && VerdictAt(ops, 1).status == Granted;
    }
  }
}
