/**
 * Tools, risks, policy and audit events. Models `governance/catalog.py`, `governance/policy.py`
 * and `governance/audit.py`.
 */
module Governance {
  import opened Contexts
  import opened Errors
  import opened Outcomes
  import opened Redaction
  import opened Text

  datatype Risk = ReadOnly | LowRisk | Mutation | HighRisk

  datatype Decision = Allow | Deny | ApprovalRequired

  function RiskText(risk: Risk): string {
    match risk
    case ReadOnly => "read_only"
    case LowRisk => "low_risk"
    case Mutation => "mutation"
    case HighRisk => "high_risk"
  }

  function DecisionText(decision: Decision): string {
    match decision
    case Allow => "allow"
    case Deny => "deny"
    case ApprovalRequired => "approval_required"
  }

  datatype ToolIdentity = ToolIdentity(name: string, risk: Risk, known: bool)

  type Catalog = map<string, Risk>

  /** `ToolRiskCatalog.resolve`: unknown names are high risk; a blank name is no identity at all. */
  function Resolve(catalog: Catalog, name: string): Result<ToolIdentity, Raised> {
    if Strip(name) == "" then Err(Foreign("ValueError"))
    else if name in catalog then Ok(ToolIdentity(name, catalog[name], true))
    else Ok(ToolIdentity(name, HighRisk, false))
  }

  class ToolRiskCatalog {
    var entries: Catalog

    constructor ()
      ensures entries == map[]
    {
      entries := map[];
    }

    /** Registration refuses blank names and otherwise sets the risk, whether or not the name was known. */
    method Register(name: string, risk: Risk) returns (r: Result<(), Raised>)
      modifies this
      ensures r.Ok? <==> Strip(name) != ""
      ensures entries == if r.Ok? then old(entries)[name := risk] else old(entries)
    {
      if Strip(name) == "" {
        return Err(Foreign("ValueError"));
      }
      entries := entries[name := risk];
      return Ok(());
    }
  }

  /** What evaluating a policy gives: a decision, something that is not one, or an exception. */
  datatype PolicyOutcome = Decides(decision: Decision) | Undecided(shown: string) | Throws(raised: Raised)

  type Policy = (ToolIdentity, Option<GovernanceContext>) -> PolicyOutcome

  predicate SaysGranted(context: Option<GovernanceContext>) {
    context.Some? && "approval_status" in context.value.extra
      && context.value.extra["approval_status"] == Str("granted")
  }

  /** `DefaultConservativePolicy.evaluate`. */
  function DefaultPolicy(tool: ToolIdentity, context: Option<GovernanceContext>): PolicyOutcome {
    if !tool.known then Decides(Deny)
    else
      match tool.risk
      case ReadOnly => Decides(Allow)
      case LowRisk => Decides(Allow)
      case Mutation => Decides(if SaysGranted(context) then Allow else ApprovalRequired)
      case HighRisk => Decides(Deny)
  }

  datatype EventType = REQUEST | DECISION | EXECUTION_RESULT | EXECUTION_FAILURE

  /** An audit event; its timestamp is not modelled. */
  datatype AuditEvent = AuditEvent(
    eventType: EventType, toolName: string, risk: Risk, decision: Option<Decision>, success: Option<bool>,
    message: Option<string>, context: Fields, extra: Fields)

  /** The event a recorder keeps: the payloads are sanitised on the way in. */
  function Sanitised(event: AuditEvent): AuditEvent {
    event.(context := RedactFields(event.context), extra := RedactFields(event.extra))
  }

  /** A kept event holds three stars under every key that names a secret, at any depth, and is otherwise as recorded. */
  lemma SanitisedHidesSecrets(event: AuditEvent)
    ensures SecretFree(Dict(Sanitised(event).context)) && SecretFree(Dict(Sanitised(event).extra))
    ensures AgreeOutsideSecrets(Dict(Sanitised(event).context), Dict(event.context))
    ensures AgreeOutsideSecrets(Dict(Sanitised(event).extra), Dict(event.extra))
    ensures Sanitised(event).(context := event.context, extra := event.extra) == event
  {
    RedactFixedPoints(Dict(event.context));
    RedactFixedPoints(Dict(event.extra));
    RedactIdempotent(Dict(event.context));
    RedactIdempotent(Dict(event.extra));
    RedactKeepsTheRest(Redact(Dict(event.context)), Dict(event.context));
    RedactKeepsTheRest(Redact(Dict(event.extra)), Dict(event.extra));
  }

  function Select(events: seq<AuditEvent>, eventType: EventType): seq<AuditEvent> {
    if events == [] then []
    else
      var rest := Select(events[..|events| - 1], eventType);
      if events[|events| - 1].eventType == eventType then rest + [events[|events| - 1]] else rest
  }

  /** The selection has exactly the events of that type, as often as the log has them. */
  lemma {:induction false} SelectKeepsThatType(events: seq<AuditEvent>, eventType: EventType, event: AuditEvent)
    ensures multiset(Select(events, eventType))[event] == if event.eventType == eventType then multiset(events)[event]
      else 0
  {
    if events == [] {
    } else {
      var n := |events| - 1;
      SelectKeepsThatType(events[..n], eventType, event);
      assert events == events[..n] + [events[n]];
    }
  }

  /** The selection keeps the order of the log: what comes first is selected first. */
  lemma {:induction false} SelectKeepsOrder(first: seq<AuditEvent>, later: seq<AuditEvent>, eventType: EventType)
    ensures Select(first + later, eventType) == Select(first, eventType) + Select(later, eventType)
  {
    if later == [] {
      assert first + later == first;
    } else {
      var n := |later| - 1;
      assert (first + later)[..|first| + n] == first + later[..n];
      SelectKeepsOrder(first, later[..n], eventType);
    }
  }

  class InMemoryAuditRecorder {
    var events: seq<AuditEvent>

    constructor ()
      ensures events == []
    {
      events := [];
    }

    method Record(event: AuditEvent)
      modifies this
      ensures events == old(events) + [Sanitised(event)]
      ensures SecretFree(Dict(events[|events| - 1].context)) && SecretFree(Dict(events[|events| - 1].extra))
    {
      SanitisedHidesSecrets(event);
      events := events + [Sanitised(event)];
    }

    method Clear()
      modifies this
      ensures events == []
    {
      events := [];
    }

    method OfType(eventType: EventType) returns (selected: seq<AuditEvent>)
      ensures selected == Select(events, eventType)
    {
      selected := [];
      for i := 0 to |events|
        invariant selected == Select(events[..i], eventType)
      {
        assert events[..i + 1][..i] == events[..i];
        if events[i].eventType == eventType {
          selected := selected + [events[i]];
        }
      }
      assert events[..|events|] == events;
    }
  }

  /** The context the gate attaches to a call's events. */
  function SafeContext(context: Option<GovernanceContext>): Fields {
    if context.Some? then RedactFields(context.value.AsDict()) else map[]
  }

  /** Sanitising twice is harmless: the recorder leaves the gate's sanitised context as it is. */
  lemma SafeContextIsStable(context: Option<GovernanceContext>)
    ensures RedactFields(SafeContext(context)) == SafeContext(context)
  {
    if context.Some? {
      RedactIdempotent(Dict(context.value.AsDict()));
    } else {
      assert RedactFields(map[]) == map[];
    }
  }
}
