/**
 * The governed call path. Models `governance/gate.py`: authentication, approval, policy, audit
 * and execution of one call, and the concurrency slots around it.
 */
module GatePath {
  import opened Approval
  import opened Auth
  import opened Contexts
  import opened Errors
  import opened Governance
  import opened Outcomes
  import opened Redaction

  const APPROVAL_TOKEN_KWARG := "_yasin_approval_token"
  const DEFAULT_LIMIT := 32

  /** What a gate is built with. `render` is Python's `str` on values that are not text. */
  datatype Gate = Gate(
    catalog: Catalog, policy: Policy, security: Option<ServerConfig>, hasStore: bool, render: Value -> string)
  {
    function Limit(): int {
      if security.Some? then security.value.maxConcurrentRequests else DEFAULT_LIMIT
    }

    function AllowsEnvironmentFallback(): bool {
      security.None? || !security.value.remoteEnabled
    }
  }

  datatype BodyOutcome = Gives(value: Value) | Fails(raised: Raised)

  /**
   * A tool function, its positional arguments already applied. It sees its keyword arguments and
   * whatever the call finds around it: the request-scoped variables and the environment.
   */
  type Body = (Fields, Ambient) -> BodyOutcome

  /** One call of `execute`. */
  datatype Request = Request(
    tool: string, kwargs: Fields, body: Body, ambient: Ambient,
    context: Option<GovernanceContext>, presentedSecret: Option<string>, approvalToken: Option<string>)

  /** The calls `wrap_tool` makes: no explicit context, secret or token. */
  predicate Wrapped(r: Request) {
    r.context.None? && r.presentedSecret.None? && r.approvalToken.None?
  }

  /** What the tool body is called with. */
  function BodyArguments(r: Request): Fields {
    r.kwargs - {AUTH_TOKEN_KWARG, APPROVAL_TOKEN_KWARG}
  }

  /** How the body of a call ends if it is started. */
  function RunBody(r: Request): BodyOutcome {
    r.body(BodyArguments(r), r.ambient)
  }

  /** `_extract_approval_token`. */
  function ExtractApprovalToken(
    kwargs: Fields, ambient: Ambient, fallback: bool, render: Value -> string): Option<string>
  {
    var argument := ReservedArgument(kwargs, APPROVAL_TOKEN_KWARG, render);
    if argument.Some? then argument
    else if !fallback then None
    else NonEmpty(ambient.envApproval)
  }

  /** A call after authentication and tool resolution. */
  datatype Prepared = Prepared(tool: ToolIdentity, context: Option<GovernanceContext>, token: Option<string>)

  function LiftError<T>(r: Result<T, McpError>): Result<T, Raised> {
    if r.Ok? then Ok(r.value) else Err(Structured(r.error))
  }

  /** The secret a call presents. */
  function SecretOf(gate: Gate, r: Request): Option<string> {
    if r.presentedSecret.Some? then r.presentedSecret else ExtractCredential(r.kwargs, r.ambient, gate.render)
  }

  /** Looking around once more for a secret finds nothing new. */
  lemma SecretOfIsFinal(gate: Gate, r: Request)
    ensures SecretOf(gate, r).None? ==> PresentedSecret(r.ambient).None?
  {
  }

  /** The approval token a call presents. */
  function TokenOf(gate: Gate, r: Request): Option<string> {
    if r.approvalToken.Some? then r.approvalToken
    else ExtractApprovalToken(r.kwargs, r.ambient, gate.AllowsEnvironmentFallback(), gate.render)
  }

  /** Where a call's secret comes from: the nearest of four places that has one, the environment last. */
  lemma SecretOfExactly(gate: Gate, r: Request)
    ensures
      var argument := if "_yasin_auth_token" in r.kwargs then r.kwargs["_yasin_auth_token"] else Null;
      SecretOf(gate, r) ==
        if r.presentedSecret.Some? then r.presentedSecret
        else if argument != Null then Some(if argument.Str? then argument.text else gate.render(argument))
        else if r.ambient.secretVar.Some? then r.ambient.secretVar
        else if r.ambient.envSecret == Some("") then None else r.ambient.envSecret
  {
  }

  /** Where a call's approval token comes from; a remote gate never takes it from the environment. */
  lemma TokenOfExactly(gate: Gate, r: Request)
    ensures
      var argument := if "_yasin_approval_token" in r.kwargs then r.kwargs["_yasin_approval_token"] else Null;
      TokenOf(gate, r) ==
        if r.approvalToken.Some? then r.approvalToken
        else if argument != Null then Some(if argument.Str? then argument.text else gate.render(argument))
        else if gate.security.Some? && gate.security.value.remoteEnabled then None
        else if r.ambient.envApproval == Some("") then None else r.ambient.envApproval
  {
  }

  /** `execute` up to the approval step; it touches nothing shared. */
  function Prepare(gate: Gate, r: Request): Result<Prepared, Raised> {
    var bound :- LiftError(ResolveExecutionAuth(gate.security, r.context, SecretOf(gate, r), r.ambient));
    var tool :- Resolve(gate.catalog, r.tool);
    Ok(Prepared(tool, if bound.Some? then Some(bound.value.governance) else r.context, TokenOf(gate, r)))
  }

  predicate NeedsApproval(p: Prepared) {
    p.tool.risk == Mutation || p.token.Some?
  }

  /** The call asks the store. */
  predicate UsesStore(gate: Gate, p: Prepared) {
    NeedsApproval(p) && gate.hasStore
  }

  function PresentationOf(p: Prepared): Presentation {
    Presentation(p.token, p.tool.name, p.context, if p.context.Some? then p.context.value.ids.agentId else None)
  }

  /** The context after a verdict, with the approval keys overwritten. */
  function WithVerdict(context: Option<GovernanceContext>, v: Validation): GovernanceContext {
    var base := context.GetOr(GovernanceContext(NO_IDS, map[]));
    var stated := base.extra["approval_status" := Str(StatusText(v.status))]["approval_reason" := Str(v.reasonCode)];
    base.(extra := if v.grant.Some? then stated["approval_id" := Str(v.grant.value.approvalId)] else stated)
  }

  function ApprovalRejected(toolName: string, v: Validation): McpError {
    McpError(ValidationError, "approval rejected: " + v.reasonCode,
             map["reason_code" := Str(v.reasonCode), "tool" := Str(toolName),
               "approval_status" := Str(StatusText(v.status))])
  }

  function StoreNotConfigured(toolName: string): McpError {
    McpError(ValidationError, "approval store not configured",
             map["reason_code" := Str("approval_unknown"), "tool" := Str(toolName)])
  }

  function ActOn(p: Prepared, v: Validation): Result<Option<GovernanceContext>, McpError> {
    if v.status == Granted || v.status == Missing then Ok(Some(WithVerdict(p.context, v)))
    else Err(ApprovalRejected(p.tool.name, v))
  }

  /** `_apply_approval`: the context to evaluate policy with. */
  function ApplyApproval(
    gate: Gate, p: Prepared, entries: Entries, now: int): Result<Option<GovernanceContext>, McpError>
  {
    if !NeedsApproval(p) then Ok(p.context)
    else if !gate.hasStore then
      if p.tool.risk == Mutation && NonEmpty(p.token).Some? then Err(StoreNotConfigured(p.tool.name)) else Ok(p.context)
    else ActOn(p, Validate(entries, PresentationOf(p), now))
  }

  /** The approval entries it leaves. */
  function EntriesAfterApproval(gate: Gate, p: Prepared, entries: Entries, now: int): Entries {
    if UsesStore(gate, p) then Consume(entries, PresentationOf(p), now) else entries
  }

  /** The policy evaluation of `evaluate`. */
  function Decide(gate: Gate, tool: ToolIdentity, context: Option<GovernanceContext>): Result<Decision, Raised> {
    match gate.policy(tool, context)
    case Decides(decision) => Ok(decision)
    case Undecided(shown) =>
      Err(Structured(McpError(ValidationError, "Policy returned invalid decision " + shown,
                              map["tool" := Str(tool.name), "decision" := Str(shown)])))
    case Throws(raised) => Err(raised)
  }

  /** `repr` of a tool name without quotes or escapes in it. */
  function Quoted(name: string): string {
    "'" + name + "'"
  }

  function DecisionMessage(decision: Decision, toolName: string): string {
    match decision
    case Deny => "Governance denied execution of tool " + Quoted(toolName)
    case ApprovalRequired =>
      "Governance requires approval before executing tool " + Quoted(toolName) + "; execution was not performed"
    case Allow => "Governance decision allow for tool " + Quoted(toolName)
  }

  function RequestEvent(tool: ToolIdentity, context: Option<GovernanceContext>): AuditEvent {
    AuditEvent(REQUEST, tool.name, tool.risk, None, None, None, SafeContext(context), map["known" := Flag(tool.known)])
  }

  function DecisionEvent(tool: ToolIdentity, context: Option<GovernanceContext>, decision: Decision): AuditEvent {
    AuditEvent(DECISION, tool.name, tool.risk, Some(decision), None, Some(DecisionMessage(decision, tool.name)),
               SafeContext(context), map[])
  }

  function OutcomeEvent(tool: ToolIdentity, context: Option<GovernanceContext>, outcome: BodyOutcome): AuditEvent {
    match outcome
    case Gives(_) =>
      AuditEvent(EXECUTION_RESULT, tool.name, tool.risk, Some(Allow), Some(true), None, SafeContext(context), map[])
    case Fails(raised) =>
      AuditEvent(EXECUTION_FAILURE, tool.name, tool.risk, Some(Allow), Some(false), Some(TypeName(raised)),
        SafeContext(context), map[])
  }

  function Refusal(tool: ToolIdentity, decision: Decision): McpError {
    McpError(PolicyDenied, DecisionMessage(decision, tool.name),
             map["tool" := Str(tool.name), "decision" := Str(DecisionText(decision)),
                 "risk" := Str(RiskText(tool.risk)), "known" := Flag(tool.known)])
  }

  /**
   * What one call does when nothing runs beside it: how it ends, the audit events it leaves,
   * the approval entries it leaves, and whether its body ran.
   */
  datatype Served = Served(outcome: BodyOutcome, events: seq<AuditEvent>, entries: Entries, ran: bool)

  function Serve(gate: Gate, r: Request, entries: Entries, now: int): Served {
    match Prepare(gate, r)
    case Err(raised) => Served(Fails(raised), [], entries, false)
    case Ok(p) =>
      var after := EntriesAfterApproval(gate, p, entries, now);
      match ApplyApproval(gate, p, entries, now)
      case Err(error) => Served(Fails(Structured(error)), [], after, false)
      case Ok(context) =>
        match Decide(gate, p.tool, context)
        case Err(raised) => Served(Fails(raised), [], after, false)
        case Ok(decision) =>
          var events := [Sanitised(RequestEvent(p.tool, context)), Sanitised(DecisionEvent(p.tool, context, decision))];
          if decision != Allow then Served(Fails(Structured(Refusal(p.tool, decision))), events, after, false)
          else
            var outcome := RunBody(r);
            Served(outcome, events + [Sanitised(OutcomeEvent(p.tool, context, outcome))], after, true)
  }

  /**
   * What a client sees of a wrapped call: a value, a coded tool error, or an exception the wrapper
   * does not translate.
   */
  datatype Reply = Value(value: Value) | ToolError(payload: Payload) | Uncaught(typeName: string)

  function ReplyTo(outcome: BodyOutcome): Reply {
    match outcome
    case Gives(value) => Reply.Value(value)
    case Fails(Structured(error)) => ToolError(MapMcpError(error))
    case Fails(Foreign(typeName)) => Uncaught(typeName)
  }

  /**
   * The client is told how the call ended: the value a body gave, a structured error's kind,
   * message and code with all details that are not withheld, or any other exception as it is.
   */
  ghost predicate Relays(reply: Reply, outcome: BodyOutcome) {
    match outcome
    case Gives(value) => reply == Reply.Value(value)
    case Fails(Structured(error)) =>
      && reply.ToolError?
      && reply.payload.kind == error.kind && reply.payload.message == error.message
      && reply.payload.code == CodeFor(error)
      && forall key ::
           && (key in reply.payload.details <==> key in error.details && !NamesAWithheldDetail(key))
           && (key in reply.payload.details && IsScalar(error.details[key]) ==>
                 reply.payload.details[key] == error.details[key])
    case Fails(Foreign(typeName)) => reply == Uncaught(typeName)
  }

  lemma RepliesRelay(outcome: BodyOutcome)
    ensures Relays(ReplyTo(outcome), outcome)
  {
    hide CodeFor, NamesAWithheldDetail, SafeDetails;
    if outcome.Fails? && outcome.raised.Structured? {
      forall key {
        ErrorReachesTheClient(outcome.raised.error, key);
      }
    }
  }

  function LimitReached(limit: int): McpError {
    McpError(RateLimited, "MCP concurrency limit reached; retry later",
             map["limit" := Number(limit), "reason_code" := Str("concurrency_limit")])
  }

  /** What the client of a rejected call is told: the limit, and a reason code beside it. */
  function RejectionDetails(limit: int): Fields {
    map["limit" := Number(limit), "reason_code" := Str("concurrency_limit")]
  }

  lemma RejectionKeysAreNotBlocked(key: string)
    requires key in ["limit", "reason_code"]
    ensures !IsBlockedDetail(key)
  {
    hide IsBlockedDetail;
    if key == "limit" {
      LackingLettersIsNotBlocked(key, ['o', 's', 'p', 'c', 'a', 'a', 'a', 'p', 'a']);
    } else {
      LackingLettersIsNotBlocked(key, ['t', 't', 'p', 'i', 'u', 'p', 'p', 'p', 'u']);
    }
  }

  /** Both details reach the client, whatever the limit: it never gets the limit alone. */
  lemma RejectionTellsLimitAndReason(limit: int)
    ensures MapMcpError(LimitReached(limit)).details == RejectionDetails(limit)
    ensures MapMcpError(LimitReached(limit)).details != map["limit" := Number(limit)]
  {
    hide IsBlockedDetail;
    RejectionKeysAreNotBlocked("limit");
    RejectionKeysAreNotBlocked("reason_code");
    assert "reason_code" in RejectionDetails(limit) && |"reason_code"| != |"limit"|;
  }

  /** `threading.BoundedSemaphore`, used without blocking. */
  class BoundedSemaphore {
    const limit: int
    var free: int

    constructor (limit: int)
      requires 0 <= limit
      ensures this.limit == limit && free == limit
    {
      this.limit, free := limit, limit;
    }

    method Acquire() returns (acquired: bool)
      modifies this
      ensures acquired <==> old(free) > 0
      ensures free == if acquired then old(free) - 1 else old(free)
    {
      acquired := free > 0;
      if acquired {
        free := free - 1;
      }
    }

    /** A release beyond the bound is a `ValueError`. */
    method Release() returns (r: Result<(), Raised>)
      modifies this
      ensures r.Ok? <==> old(free) < limit
      ensures free == if r.Ok? then old(free) + 1 else old(free)
    {
      if free >= limit {
        return Err(Foreign("ValueError"));
      }
      free := free + 1;
      return Ok(());
    }
  }

  class GovernanceGate {
    const gate: Gate
    const store: InMemoryApprovalStore?
    const auditor: InMemoryAuditRecorder
    const slots: BoundedSemaphore

    ghost predicate Valid()
      reads slots
    {
      gate.hasStore == (store != null) && slots.limit == gate.Limit() && 0 <= slots.free <= slots.limit
    }

    ghost function Entries(): Entries
      reads store
    {
      if store == null then map[] else store.entries
    }

    constructor (gate: Gate, store: InMemoryApprovalStore?, auditor: InMemoryAuditRecorder)
      requires gate.hasStore == (store != null)
      requires gate.security.Some? ==> gate.security.value.Valid()
      ensures Valid() && slots.free == gate.Limit()
      ensures this.gate == gate && this.store == store && this.auditor == auditor && fresh(slots)
    {
      this.gate, this.store, this.auditor := gate, store, auditor;
      slots := new BoundedSemaphore(gate.Limit());
    }

    /** `_apply_approval` on the real store. */
    method ApplyApprovalNow(p: Prepared, now: int) returns (r: Result<Option<GovernanceContext>, McpError>)
      requires Valid()
      modifies if store == null then {} else {store}
      ensures r == ApplyApproval(gate, p, old(Entries()), now)
      ensures Entries() == EntriesAfterApproval(gate, p, old(Entries()), now)
    {
      if !(p.tool.risk == Mutation || p.token.Some?) {
        return Ok(p.context);
      }
      if store == null {
        if p.tool.risk == Mutation && p.token.Some? && p.token.value != "" {
          return Err(StoreNotConfigured(p.tool.name));
        }
        return Ok(p.context);
      }
      var subject: Option<string> := None;
      if p.context.Some? {
        subject := p.context.value.ids.agentId;
      }
      var verdict := store.ValidateAndConsume(Presentation(p.token, p.tool.name, p.context, subject), now);
      var extra := if p.context.Some? then p.context.value.extra else map[];
      extra := extra["approval_status" := Str(StatusText(verdict.status))];
      extra := extra["approval_reason" := Str(verdict.reasonCode)];
      if verdict.grant.Some? {
        extra := extra["approval_id" := Str(verdict.grant.value.approvalId)];
      }
      if verdict.status == Granted || verdict.status == Missing {
        return Ok(Some(if p.context.Some? then p.context.value.(extra := extra) else GovernanceContext(NO_IDS, extra)));
      }
      return Err(ApprovalRejected(p.tool.name, verdict));
    }

    /** `execute` is `Serve`: preparation, which touches nothing shared, then each access to shared state in turn. */
    method Execute(r: Request, now: int) returns (outcome: BodyOutcome)
      requires Valid()
      modifies if store == null then {} else {store}, auditor
      ensures var served := Serve(gate, r, old(Entries()), now);
              outcome == served.outcome && Entries() == served.entries
                && auditor.events == old(auditor.events) + served.events
    {
      hide Prepare, ApplyApproval, EntriesAfterApproval, Decide, Sanitised, RequestEvent, DecisionEvent, OutcomeEvent,
        Refusal, RunBody;
      var prepared := Prepare(gate, r);
      if prepared.Err? {
        return Fails(prepared.error);
      }
      var tool := prepared.value.tool;
      var cleared := ApplyApprovalNow(prepared.value, now);
      if cleared.Err? {
        return Fails(Structured(cleared.error));
      }
      var context := cleared.value;
      var decided := Decide(gate, tool, context);
      if decided.Err? {
        return Fails(decided.error);
      }
      auditor.Record(RequestEvent(tool, context));
      auditor.Record(DecisionEvent(tool, context, decided.value));
      if decided.value != Allow {
        return Fails(Structured(Refusal(tool, decided.value)));
      }
      outcome := RunBody(r);
      auditor.Record(OutcomeEvent(tool, context, outcome));
    }

    /** The wrapper of `wrap_tool`: a slot is taken without waiting and given back on every way out. */
    method Call(r: Request, now: int) returns (reply: Reply)
      requires Valid() && Wrapped(r)
      modifies if store == null then {} else {store}, auditor, slots
      ensures Valid() && slots.free == old(slots.free)
      ensures old(slots.free) == 0 ==>
        && reply == ToolError(MapMcpError(LimitReached(gate.Limit())))
        && reply.payload.details == RejectionDetails(gate.Limit())
        && Entries() == old(Entries()) && auditor.events == old(auditor.events)
      ensures old(slots.free) > 0 ==>
        var served := Serve(gate, r, old(Entries()), now);
        Relays(reply, served.outcome) && reply == ReplyTo(served.outcome) && Entries() == served.entries
          && auditor.events == old(auditor.events) + served.events
    {
      var acquired := slots.Acquire();
      if !acquired {
        RejectionTellsLimitAndReason(slots.limit);
        return ToolError(MapMcpError(LimitReached(slots.limit)));
      }
      var outcome := Execute(r, now);
      var released := slots.Release();
      RepliesRelay(outcome);
      return ReplyTo(outcome);
    }
  }
}
