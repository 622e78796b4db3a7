/** What every run guarantees about approvals and about the audit log. */
module Accounting {
  import opened Approval
  import opened Auth
  import opened Contexts
  import opened Errors
  import opened GatePath
  import opened Governance
  import opened Machine
  import opened Outcomes
  import opened Redaction
  import opened Text

  // ----- The audit log, call by call

  /** The context a call's policy was evaluated with: its own bound context and its own verdict, nothing else. */
  function OwnContext(gate: Gate, r: Request, verdict: Option<Validation>): Option<GovernanceContext> {
    match Prepare(gate, r)
    case Err(_) => None
    case Ok(p) => if verdict.Some? then Some(WithVerdict(p.context, verdict.value)) else p.context
  }

  /** What a call that ended with `outcome` has recorded: nothing, a refusal, or an execution. */
  ghost predicate CompleteTrail(events: seq<AuditEvent>, outcome: BodyOutcome, ran: bool) {
    || (events == [] && !ran && outcome.Fails?)
    || (|events| == 2 && IsRequest(events[0]) && IsDecision(events[1]) && events[1].decision != Some(Allow) && !ran
        && outcome.Fails? && outcome.raised.Structured? && outcome.raised.error.kind == PolicyDenied)
    || (|events| == 3 && IsRequest(events[0]) && IsDecision(events[1]) && events[1].decision == Some(Allow) && ran
        && events[2].decision == Some(Allow)
        && if outcome.Gives? then events[2].eventType == EXECUTION_RESULT && events[2].success == Some(true)
           else events[2].eventType == EXECUTION_FAILURE && events[2].success == Some(false)
                && events[2].message == Some(TypeName(outcome.raised)))
  }

  predicate IsRequest(e: AuditEvent) {
    e.eventType == REQUEST && e.decision.None?
  }

  predicate IsDecision(e: AuditEvent) {
    e.eventType == DECISION && e.decision.Some?
  }

  /** The tool a call is recorded under: an unknown one counts as high risk. */
  function IdentityOf(gate: Gate, r: Request): ToolIdentity {
    ToolIdentity(r.tool, if r.tool in gate.catalog then gate.catalog[r.tool] else HighRisk, r.tool in gate.catalog)
  }

  /** What a recorded decision says in words. */
  ghost predicate SaysInWords(message: Option<string>, decision: Decision, toolName: string) {
    var named := "'" + toolName + "'";
    match decision
    case Allow => message == Some("Governance decision allow for tool " + named)
    case Deny => message == Some("Governance denied execution of tool " + named)
    case ApprovalRequired =>
      message == Some("Governance requires approval before executing tool " + named + "; execution was not performed")
  }

  /**
   * The event names the tool and its risk, carries `context`, sanitised, and says what events of
   * its type have to say: a request whether the tool is known, a decision itself, in words too,
   * and an outcome that the decision was ALLOW and whether the body succeeded.
   */
  ghost predicate IsAbout(e: AuditEvent, tool: ToolIdentity, context: Option<GovernanceContext>) {
    && e.toolName == tool.name && e.risk == tool.risk && e.context == SafeContext(context)
    && e.extra == (if e.eventType == REQUEST then map["known" := Flag(tool.known)] else map[])
    && match e.eventType
       case REQUEST => e.decision == None && e.success == None && e.message == None
       case DECISION => e.decision.Some? && e.success == None && SaysInWords(e.message, e.decision.value, tool.name)
       case EXECUTION_RESULT => e.decision == Some(Allow) && e.success == Some(true) && e.message == None
       case EXECUTION_FAILURE => e.decision == Some(Allow) && e.success == Some(false) && e.message.Some?
  }

  ghost predicate SpeaksFor(events: seq<AuditEvent>, tool: ToolIdentity, context: Option<GovernanceContext>) {
    forall e | e in events :: IsAbout(e, tool, context)
  }

  lemma NoneSpeak(tool: ToolIdentity, context: Option<GovernanceContext>)
    ensures SpeaksFor([], tool, context)
  {
  }

  lemma SpeakersPrefix(
    events: seq<AuditEvent>, all: seq<AuditEvent>, tool: ToolIdentity, context: Option<GovernanceContext>)
    requires SpeaksFor(all, tool, context) && events <= all
    ensures SpeaksFor(events, tool, context)
  {
    hide IsAbout;
    forall e | e in events ensures IsAbout(e, tool, context) {
      assert e in all;
    }
  }

  lemma KnownFlagIsKept(known: bool)
    ensures RedactFields(map["known" := Flag(known)]) == map["known" := Flag(known)] && RedactFields(map[]) == map[]
  {
    LackingLettersIsNotSensitive("known", ['t', 's', 'p', 'p', 'a', 'a', 'a', 'c']);
    var fields := map["known" := Flag(known)];
    assert RedactFields(fields)["known"] == Redact(fields["known"]);
    assert RedactFields(fields) == fields;
  }

  lemma ServedTrail(gate: Gate, r: Request, entries: Entries, now: int, verdict: Option<Validation>)
    requires Prepare(gate, r).Ok? && UsesStore(gate, Prepare(gate, r).value) ==>
               verdict == Some(Validate(entries, PresentationOf(Prepare(gate, r).value), now))
    requires !(Prepare(gate, r).Ok? && UsesStore(gate, Prepare(gate, r).value)) ==> verdict == None
    ensures
      var served := Serve(gate, r, entries, now);
      CompleteTrail(served.events, served.outcome, served.ran)
      && SpeaksFor(served.events, IdentityOf(gate, r), OwnContext(gate, r, verdict))
  {
    if Prepare(gate, r).Ok? {
      var p := Prepare(gate, r).value;
      ServeIsApprovalThenRemainder(gate, r, entries, now);
      var cleared := ApplyApproval(gate, p, entries, now);
      if cleared.Ok? {
        assert cleared.value == OwnContext(gate, r, verdict) && p.tool == IdentityOf(gate, r);
        RemainderTrail(gate, r, p, cleared.value);
      }
    }
  }

  /** The events recorded once policy has decided. */
  function DecidedEvents(
    tool: ToolIdentity, context: Option<GovernanceContext>, decision: Decision, outcome: BodyOutcome): seq<AuditEvent>
  {
    var head := [Sanitised(RequestEvent(tool, context)), Sanitised(DecisionEvent(tool, context, decision))];
    if decision == Allow then head + [Sanitised(OutcomeEvent(tool, context, outcome))] else head
  }

  function DecidedOutcome(tool: ToolIdentity, decision: Decision, outcome: BodyOutcome): BodyOutcome {
    if decision == Allow then outcome else Fails(Structured(Refusal(tool, decision)))
  }

  lemma RemainingAfterDecision(gate: Gate, r: Request, p: Prepared, context: Option<GovernanceContext>)
    requires Decide(gate, p.tool, context).Ok?
    ensures
      var decision := Decide(gate, p.tool, context).value;
      var outcome := RunBody(r);
      Remaining(gate, r, Cleared(p, context))
        == Remainder(DecidedOutcome(p.tool, decision, outcome), DecidedEvents(p.tool, context, decision, outcome),
          decision == Allow)
  {
    RemainingAfterApproval(gate, r, p, context);
    RemainingAfterRequest(gate, r, p, context, Decide(gate, p.tool, context).value);
  }

  lemma RequestIsAbout(tool: ToolIdentity, context: Option<GovernanceContext>)
    ensures IsAbout(Sanitised(RequestEvent(tool, context)), tool, context)
  {
    hide RedactFields, SafeContext;
    SafeContextIsStable(context);
    KnownFlagIsKept(tool.known);
  }

  lemma DecisionIsAbout(tool: ToolIdentity, context: Option<GovernanceContext>, decision: Decision)
    ensures IsAbout(Sanitised(DecisionEvent(tool, context, decision)), tool, context)
  {
    hide RedactFields, SafeContext;
    SafeContextIsStable(context);
    KnownFlagIsKept(tool.known);
  }

  lemma OutcomeIsAbout(tool: ToolIdentity, context: Option<GovernanceContext>, outcome: BodyOutcome)
    ensures IsAbout(Sanitised(OutcomeEvent(tool, context, outcome)), tool, context)
  {
    hide RedactFields, SafeContext, TypeName;
    SafeContextIsStable(context);
    KnownFlagIsKept(tool.known);
  }

  lemma DecidedTrail(tool: ToolIdentity, context: Option<GovernanceContext>, decision: Decision, outcome: BodyOutcome)
    ensures
      var events := DecidedEvents(tool, context, decision, outcome);
      CompleteTrail(events, DecidedOutcome(tool, decision, outcome), decision == Allow)
        && SpeaksFor(events, tool, context)
  {
    hide RedactFields, SafeContext, RiskText, DecisionText, DecisionMessage, SaysInWords, IsAbout;
    RequestIsAbout(tool, context);
    DecisionIsAbout(tool, context, decision);
    OutcomeIsAbout(tool, context, outcome);
  }

  lemma RemainderTrail(gate: Gate, r: Request, p: Prepared, context: Option<GovernanceContext>)
    ensures
      var rest := Remaining(gate, r, Cleared(p, context));
      CompleteTrail(rest.events, rest.outcome, rest.runs) && SpeaksFor(rest.events, p.tool, context)
  {
    var decided := Decide(gate, p.tool, context);
    if decided.Ok? {
      RemainingAfterDecision(gate, r, p, context);
      DecidedTrail(p.tool, context, decided.value, RunBody(r));
    } else {
      RemainingAfterApproval(gate, r, p, context);
    }
  }

  /**
   * Audit grammar: however calls interleave, the events of one call form a prefix of a complete
   * trail, as long as the call has come, and all of it once the call has returned; each names the
   * call's own tool, risk and context. A body is started only after its ALLOW is on record.
   * A call refused by authentication, by approval, or by a failing policy leaves none.
   */
  lemma AuditGrammar(gate: Gate, s: State, i: nat)
    requires Reachable(gate, s) && i < |s.calls|
    ensures
      var c := s.calls[i];
      && SpeaksFor(Trail(s.log, i), IdentityOf(gate, c.request), OwnContext(gate, c.request, c.verdict))
      && (exists full, outcome, ran :: CompleteTrail(full, outcome, ran) && Trail(s.log, i) <= full)
      && (Steps(c.phase) ==> |Trail(s.log, i)| == Recorded(c.phase))
      && (c.ran ==>
         |Trail(s.log, i)| >= 2 && IsDecision(Trail(s.log, i)[1]) && Trail(s.log, i)[1].decision == Some(Allow))
      && (c.phase.Returned? ==> CompleteTrail(Trail(s.log, i), c.phase.outcome, c.ran))
  {
    hide Serve, Prepare, EntriesAfter, GoodEntries, IssuesAreFresh, ClockOrder, HistoryInv, SpeaksFor, Local;
    ReachableInv(gate, s);
    assert CallInv(gate, s, i);
    var c := s.calls[i];
    if Committed(c.phase) {
      var k := c.at.value;
      var served := ServedAt(gate, s.history, k);
      ServedTrail(gate, c.request, EntriesAfter(gate, s.history[..k]), s.history[k].now, c.verdict);
      assert Trail(s.log, i) <= served.events;
      SpeakersPrefix(Trail(s.log, i), served.events, IdentityOf(gate, c.request),
        OwnContext(gate, c.request, c.verdict));
      if c.phase.Leaving? || c.phase.Returned? {
        assert Remaining(gate, c.request, c.phase).events == [];
        assert Trail(s.log, i) == served.events;
      }
    } else {
      assert CompleteTrail([], Fails(Foreign("")), false) && Trail(s.log, i) == [];
      NoneSpeak(IdentityOf(gate, c.request), OwnContext(gate, c.request, c.verdict));
    }
  }

  // ----- Approvals

  /** A step of the history keeps entries good and only lets them evolve. */
  lemma HistoryStep(gate: Gate, history: seq<Op>, n: nat)
    requires IssuesAreFresh(gate, history) && n < |history| && GoodEntries(EntriesAfter(gate, history[..n]))
    ensures GoodEntries(EntriesAfter(gate, history[..n + 1]))
    ensures Evolves(EntriesAfter(gate, history[..n]), EntriesAfter(gate, history[..n + 1]))
    ensures |EntriesAfter(gate, history[..n + 1])|
         == |EntriesAfter(gate, history[..n])| + (if history[n].IssueOp? then 1 else 0)
  {
    hide Prepare, ApplyApproval, Remaining, Trimmed, PresentationOf;
    var before := EntriesAfter(gate, history[..n]);
    assert history[..n + 1] == history[..n] + [history[n]];
    EntriesAfterOneMore(gate, history[..n], history[n]);
    match history[n]
    case IssueOp(token, grant) => PerformKeepsEntriesGood(before, StoreOp.Issue(token, grant));
    case CallOp(_, request, now) =>
      var prepared := Prepare(gate, request);
      if prepared.Ok? {
        PerformKeepsEntriesGood(before, Present(PresentationOf(prepared.value), now));
        ServeIsApprovalThenRemainder(gate, request, before, now);
      }
  }

  lemma {:induction false} HistoryStaysGood(gate: Gate, history: seq<Op>, n: nat)
    requires IssuesAreFresh(gate, history) && n <= |history|
    ensures GoodEntries(EntriesAfter(gate, history[..n]))
  {
    if n == 0 {
    } else {
      HistoryStaysGood(gate, history, n - 1);
      HistoryStep(gate, history, n - 1);
    }
  }

  lemma {:induction false} HistoryEvolves(gate: Gate, history: seq<Op>, i: nat, j: nat)
    requires IssuesAreFresh(gate, history) && i <= j <= |history|
    ensures Evolves(EntriesAfter(gate, history[..i]), EntriesAfter(gate, history[..j]))
    decreases j
  {
    hide EntriesAfter, GoodEntries, IssuesAreFresh;
    if i == j {
    } else {
      HistoryEvolves(gate, history, i, j - 1);
      HistoryStaysGood(gate, history, j - 1);
      HistoryStep(gate, history, j - 1);
    }
  }

  /** The token a committed call presented. */
  function KeyOf(gate: Gate, r: Request): string {
    var prepared := Prepare(gate, r);
    if prepared.Ok? then PresentationOf(prepared.value).Key() else ""
  }

  /** The call was granted a single-use token. */
  predicate SpentAToken(c: Call) {
    c.verdict.Some? && c.verdict.value.status == Granted && c.verdict.value.grant.Some?
      && c.verdict.value.grant.value.singleUse
  }

  /** What a grant in a call's record rests on: the store as it stood at the call's commit point. */
  lemma RecordedVerdict(gate: Gate, s: State, i: nat)
    requires Inv(gate, s) && i < |s.calls| && s.calls[i].verdict.Some?
    ensures
      var c := s.calls[i];
      && c.at.Some? && c.at.value < |s.history| && s.history[c.at.value].CallOp? && s.history[c.at.value].call == i
      && Prepare(gate, c.request).Ok? && UsesStore(gate, Prepare(gate, c.request).value)
      && var p := PresentationOf(Prepare(gate, c.request).value);
         var k, now := c.at.value, s.history[c.at.value].now;
         && c.verdict.value == Validate(EntriesAfter(gate, s.history[..k]), p, now)
         && EntriesAfter(gate, s.history[..k + 1]) == Consume(EntriesAfter(gate, s.history[..k]), p, now)
  {
    hide Serve, Prepare, ApplyApproval, Remaining, GoodEntries, IssuesAreFresh, Validate, Consume;
    assert CallInv(gate, s, i);
    var c := s.calls[i];
    var k := c.at.value;
    assert s.history[..k + 1] == s.history[..k] + [s.history[k]];
    EntriesAfterOneMore(gate, s.history[..k], s.history[k]);
    ServeIsApprovalThenRemainder(gate, c.request, EntriesAfter(gate, s.history[..k]), s.history[k].now);
  }

  /**
   * In any run, a call that commits after a single-use token was granted and presents it too is told
   * it is a replay.
   */
  lemma ReplaysAreCaught(gate: Gate, s: State, i: nat, j: nat)
    requires Reachable(gate, s) && i < |s.calls| && j < |s.calls|
    requires SpentAToken(s.calls[i]) && s.calls[j].verdict.Some?
      && KeyOf(gate, s.calls[i].request) == KeyOf(gate, s.calls[j].request)
    requires s.calls[i].at.Some? && s.calls[j].at.Some? && s.calls[i].at.value < s.calls[j].at.value
    ensures s.calls[j].verdict.value.status == Replayed
  {
    ReachableInv(gate, s);
    RecordedVerdict(gate, s, i);
    RecordedVerdict(gate, s, j);
    HistoryEvolves(gate, s.history, s.calls[i].at.value + 1, s.calls[j].at.value);
  }

  /** Single-use tokens are granted to at most one call, and stay in the store as consumed. */
  lemma TokensAreSpentOnce(gate: Gate, s: State, i: nat, j: nat)
    requires Reachable(gate, s) && i < |s.calls| && j < |s.calls| && SpentAToken(s.calls[i]) && SpentAToken(s.calls[j])
    ensures KeyOf(gate, s.calls[i].request) == KeyOf(gate, s.calls[j].request) ==> i == j
    ensures KeyOf(gate, s.calls[i].request) in s.entries && s.entries[KeyOf(gate, s.calls[i].request)].consumed
  {
    hide EntriesAfter, CallInv, GoodEntries, IssuesAreFresh, Prepare, Validate;
    ReachableInv(gate, s);
    RecordedVerdict(gate, s, i);
    RecordedVerdict(gate, s, j);
    if KeyOf(gate, s.calls[i].request) == KeyOf(gate, s.calls[j].request) {
      if s.calls[i].at.value < s.calls[j].at.value {
        ReplaysAreCaught(gate, s, i, j);
      } else if s.calls[j].at.value < s.calls[i].at.value {
        ReplaysAreCaught(gate, s, j, i);
      }
    }
    HistoryEvolves(gate, s.history, s.calls[i].at.value + 1, |s.history|);
    assert s.history[..|s.history|] == s.history;
  }

  /** Expiry is final: once a call was told its token has expired, no later call is granted that token. */
  lemma ExpiryIsFinal(gate: Gate, s: State, i: nat, j: nat)
    requires Reachable(gate, s) && i < |s.calls| && j < |s.calls|
    requires s.calls[i].verdict.Some? && s.calls[i].verdict.value.status == Expired && s.calls[j].verdict.Some?
    requires KeyOf(gate, s.calls[i].request) == KeyOf(gate, s.calls[j].request)
    requires s.calls[i].at.Some? && s.calls[j].at.Some? && s.calls[i].at.value < s.calls[j].at.value
    ensures s.calls[j].verdict.value.status in {Expired, Replayed}
  {
    hide EntriesAfter, CallInv, GoodEntries, IssuesAreFresh, Prepare;
    ReachableInv(gate, s);
    RecordedVerdict(gate, s, i);
    RecordedVerdict(gate, s, j);
    HistoryEvolves(gate, s.history, s.calls[i].at.value, s.calls[j].at.value);
  }

  ghost predicate DefaultGate(gate: Gate) {
    forall tool, context :: gate.policy(tool, context) == DefaultPolicy(tool, context)
  }

  predicate IsMutation(gate: Gate, r: Request) {
    r.tool in gate.catalog && gate.catalog[r.tool] == Mutation
  }

  function ExtraOf(context: Option<GovernanceContext>): Fields {
    if context.Some? then context.value.extra else map[]
  }

  /** The `extra` the caller itself asserts. */
  function ClaimedExtra(gate: Gate, r: Request): Fields {
    if gate.security.Some? then Claimed(r.context, r.ambient).extra else ExtraOf(r.context)
  }

  /** The caller itself asserts that the call is approved. */
  predicate ClaimsApproval(gate: Gate, r: Request) {
    var extra := ClaimedExtra(gate, r);
    "approval_status" in extra && extra["approval_status"] == Str("granted")
  }

  /** Preparation leaves what the caller asserts in `extra` alone, except for the keys of authentication. */
  lemma PreparationKeepsClaims(gate: Gate, r: Request, key: string)
    requires Prepare(gate, r).Ok? && key !in ["auth_status", "auth_subject_id", "auth_scheme", "auth_trust"]
    ensures SameAt(ExtraOf(Prepare(gate, r).value.context), ClaimedExtra(gate, r), key)
  {
    hide ResolveAuthentication, Claimed, TokenOf, SecretOf, PresentedSecret, Resolve;
    if gate.security.Some? {
      hide ResolveExecutionAuth;
      var config, secret := gate.security.value, SecretOf(gate, r);
      var claimed := Claimed(r.context, r.ambient);
      EnforcementResolves(config, r.context, secret, r.ambient);
      BindingSucceeds(config, Some(claimed), if secret.Some? then secret else PresentedSecret(r.ambient));
    }
  }

  /** Preparation neither makes nor removes a claim of approval. */
  lemma PreparationKeepsTheClaim(gate: Gate, r: Request)
    requires Prepare(gate, r).Ok?
    ensures SaysGranted(Prepare(gate, r).value.context) <==> ClaimsApproval(gate, r)
  {
    hide Prepare, ClaimedExtra;
    var key := "approval_status";
    assert |key| != |"auth_status"| && |key| != |"auth_scheme"| && |key| != |"auth_trust"|
      && key[1] != "auth_subject_id"[1];
    PreparationKeepsClaims(gate, r, key);
  }

  /**
   * When exactly a body runs under the default policy, by risk. The approval status the caller
   * itself asserts counts in one case only: a mutation at a gate without a store, called without
   * a token.
   */
  lemma RunsExactly(gate: Gate, r: Request, entries: Entries, now: int)
    requires DefaultGate(gate)
    ensures Serve(gate, r, entries, now).ran <==>
      && Prepare(gate, r).Ok? && r.tool in gate.catalog
      && var token, status := TokenOf(gate, r), Validate(entries, PresentationOf(Prepare(gate, r).value), now).status;
         match gate.catalog[r.tool]
         case HighRisk => false
         case Mutation => if gate.hasStore then status == Granted else NonEmpty(token).None? && ClaimsApproval(gate, r)
         case _ => token.None? || !gate.hasStore || status == Granted || status == Missing
  {
    hide Validate, SafeContext, Remaining, TokenOf, SecretOf, RunBody, Sanitised, Refusal, RequestEvent, DecisionEvent,
      OutcomeEvent, PresentationOf, ClaimsApproval;
    var prepared := Prepare(gate, r);
    if prepared.Ok? {
      var p := prepared.value;
      PreparationKeepsTheClaim(gate, r);
      assert p.tool.name == r.tool && p.tool.known == (r.tool in gate.catalog) && p.token == TokenOf(gate, r);
      var cleared := ApplyApproval(gate, p, entries, now);
      if cleared.Ok? {
        assert gate.policy(p.tool, cleared.value) == DefaultPolicy(p.tool, cleared.value);
        if UsesStore(gate, p) {
          var v := Validate(entries, PresentationOf(p), now);
          assert cleared.value == Some(WithVerdict(p.context, v));
          assert WithVerdict(p.context, v).extra["approval_status"] == Str(StatusText(v.status));
        }
      }
    }
  }

  /** Authentication lets the call through: it proves the secret and impersonates no one, or it need not prove it. */
  predicate Authorised(config: ServerConfig, secret: Option<string>, asserted: IntegrationContext) {
    if Proves(config, secret) then !Impersonates(config, asserted) else !config.requireAuthentication
  }

  /**
   * Without a store a mutation runs on the caller's word. A wrapped call starts the body exactly
   * when its scope asserts `approval_status: granted`, no approval token comes with it, and
   * authentication lets it through.
   */
  lemma StorelessMutationRunsExactly(gate: Gate, r: Request, entries: Entries, now: int)
    requires DefaultGate(gate) && !gate.hasStore && IsMutation(gate, r) && Strip(r.tool) != "" && Wrapped(r)
    requires gate.security.Some? ==> gate.security.value.Valid()
    ensures Serve(gate, r, entries, now).ran <==>
      && gate.security.Some? && r.ambient.assertedVar.Some?
      && var asserted := r.ambient.assertedVar.value;
         && "approval_status" in asserted.extra && asserted.extra["approval_status"] == Str("granted")
         && NonEmpty(TokenOf(gate, r)).None?
         && Authorised(gate.security.value, SecretOf(gate, r), asserted)
  {
    hide ResolveExecutionAuth, TokenOf, PresentedSecret, Serve, Validate, Proves, Impersonates, NonEmpty,
      ReservedArgument;
    RunsExactly(gate, r, entries, now);
    if gate.security.Some? {
      EnforcementIsExact(gate.security.value, None, SecretOf(gate, r), r.ambient);
    }
  }

  /** A remote gate without a store, its configuration requiring no authentication. */
  function UnguardedGate(): Gate {
    var config := ServerConfig("INFO", 30, 32, None, "local-operator", false, true, 8443, None, None, true);
    Gate(map["deploy" := Mutation], DefaultPolicy, Some(config), false, _ => "")
  }

  /** A remote call that merely asserts its own approval. */
  function SelfApprovedCall(body: Body): Request {
    var asserted := IntegrationContext(NO_IDS, map["approval_status" := Str("granted")], Asserted);
    Request("deploy", map[], body, Ambient(None, Some(asserted), None, None), None, None, None)
  }

  /** Both pass every validation there is. */
  lemma SelfApprovalIsValid(body: Body)
    ensures UnguardedGate().security.value.Valid() && SelfApprovedCall(body).ambient.assertedVar.value.Valid()
  {
    hide IsSensitiveKey, Strip;
    LackingLettersIsNotSensitive("approval_status", ['k', 'e', 'w', 'w', 'h', 'k', 'k', 'c']);
    StripOfPadded("", "approval_status", "");
    assert "" + "approval_status" + "" == "approval_status";
  }

  /** The call runs the mutation: where no store is configured the claim is enough. */
  lemma SelfApprovalRuns(body: Body, entries: Entries, now: int)
    ensures Serve(UnguardedGate(), SelfApprovedCall(body), entries, now).ran
  {
    hide Serve, Strip, Validate;
    StripOfPadded("", "deploy", "");
    assert "" + "deploy" + "" == "deploy";
    SelfApprovalIsValid(body);
    StorelessMutationRunsExactly(UnguardedGate(), SelfApprovedCall(body), entries, now);
  }

  /** A valid token presented for a high-risk tool is spent and the call is still refused. */
  lemma HighRiskSpendsTheToken(gate: Gate, r: Request, entries: Entries, now: int)
    requires DefaultGate(gate) && gate.hasStore && Prepare(gate, r).Ok?
    requires r.tool in gate.catalog && gate.catalog[r.tool] == HighRisk
    requires Validate(entries, PresentationOf(Prepare(gate, r).value), now).status == Granted
    requires entries[KeyOf(gate, r)].grant.singleUse
    ensures
      var served := Serve(gate, r, entries, now);
      !served.ran && KeyOf(gate, r) in served.entries && served.entries[KeyOf(gate, r)].consumed
  {
    hide Serve, Prepare, ApplyApproval, Remaining;
    RunsExactly(gate, r, entries, now);
    ServeIsApprovalThenRemainder(gate, r, entries, now);
  }

  /** The context a call is prepared with is the one authentication bound. */
  lemma PreparedContext(gate: Gate, r: Request)
    requires Wrapped(r) && gate.security.Some? && Prepare(gate, r).Ok?
    ensures
      var bound := ResolveAuthentication(gate.security.value, r.ambient.assertedVar, SecretOf(gate, r));
      bound.Ok? && Prepare(gate, r).value.context == Some(bound.value.governance)
  {
    hide ResolveAuthentication, ExtractApprovalToken, Resolve, Rebuild;
  }

  /** The ids a wrapped call's scope asserts, as far as the gate has a configuration to bind them under. */
  function ScopeIds(gate: Gate, r: Request): Ids {
    if gate.security.Some? && r.ambient.assertedVar.Some? then r.ambient.assertedVar.value.ids else NO_IDS
  }

  /**
   * `token` approves a call of `tool` with these ids: it is known, unspent and unexpired, and all its
   * bindings are met.
   */
  predicate Approves(entries: Entries, token: Option<string>, tool: string, ids: Ids, now: int) {
    && token.Some? && Strip(token.value) != "" && Strip(token.value) in entries
    && var Entry(grant, consumed) := entries[Strip(token.value)];
       && !(consumed && grant.singleUse) && now < grant.expiresAt && grant.toolName == tool
       && (grant.requestId.Some? ==> ids.requestId == grant.requestId)
       && (grant.projectId.Some? ==> ids.projectId == grant.projectId)
       && (grant.subjectId.Some? && ids.agentId.Some? ==> ids.agentId == grant.subjectId)
  }

  /** What a wrapped call is prepared with: its tool, its token, and the ids its scope asserts. */
  lemma PreparedWith(gate: Gate, r: Request)
    requires Wrapped(r) && Prepare(gate, r).Ok?
    ensures
      var p := Prepare(gate, r).value;
      && p.tool.name == r.tool && p.token == TokenOf(gate, r) && (p.context.Some? <==> gate.security.Some?)
      && (p.context.Some? ==> p.context.value.ids == ScopeIds(gate, r))
  {
    hide ResolveAuthentication, TokenOf, SecretOf;
    if gate.security.Some? {
      PreparedContext(gate, r);
      BoundIds(gate.security.value, r.ambient.assertedVar, SecretOf(gate, r));
    }
  }

  /** The store grants a wrapped call exactly the tokens that approve it, whatever the call's body. */
  lemma StoreGrantsExactly(gate: Gate, r: Request, entries: Entries, now: int)
    requires Wrapped(r) && Prepare(gate, r).Ok?
    ensures Validate(entries, PresentationOf(Prepare(gate, r).value), now).status == Granted
      <==> Approves(entries, TokenOf(gate, r), r.tool, ScopeIds(gate, r), now)
  {
    hide Prepare, TokenOf, Validate, Strip;
    PreparedWith(gate, r);
    GrantedExactly(entries, PresentationOf(Prepare(gate, r).value), now);
  }

  /**
   * With a store a mutation runs on the store's word alone: a wrapped call starts the body exactly
   * when authentication lets it through and its token approves it.
   */
  lemma MutationRunsExactly(gate: Gate, r: Request, entries: Entries, now: int)
    requires DefaultGate(gate) && gate.hasStore && IsMutation(gate, r) && Strip(r.tool) != "" && Wrapped(r)
    requires gate.security.Some? ==> gate.security.value.Valid()
    ensures Serve(gate, r, entries, now).ran <==>
      && (gate.security.Some? ==>
            Authorised(gate.security.value, SecretOf(gate, r), r.ambient.assertedVar.GetOr(EMPTY_CONTEXT)))
      && Approves(entries, TokenOf(gate, r), r.tool, ScopeIds(gate, r), now)
  {
    hide TokenOf, SecretOf, PresentedSecret, Serve, Validate, Proves, Impersonates, NonEmpty, Approves, ScopeIds, Strip;
    RunsExactly(gate, r, entries, now);
    SecretOfIsFinal(gate, r);
    if gate.security.Some? {
      hide ResolveExecutionAuth;
      EnforcementIsExact(gate.security.value, None, SecretOf(gate, r), r.ambient);
    }
    if Prepare(gate, r).Ok? {
      StoreGrantsExactly(gate, r, entries, now);
    }
  }

  /**
   * Mutation accounting: in any run, a mutation body that started belongs to a call that was
   * granted a token issued for that very tool, unspent and unexpired when the call held the
   * store's lock, and bound, where it names them, to the request and project, and if the call
   * names an agent to the subject, that the call's own scope asserts.
   */
  lemma MutationsAreApproved(gate: Gate, s: State, i: nat)
    requires Reachable(gate, s) && gate.hasStore && DefaultGate(gate)
    requires i < |s.calls| && s.calls[i].ran && IsMutation(gate, s.calls[i].request)
    ensures
      var c := s.calls[i];
      && c.verdict.Some? && c.verdict.value.status == Granted && c.verdict.value.grant.Some?
      && c.at.Some? && c.at.value < |s.history| && s.history[c.at.value].CallOp?
      && TokenOf(gate, c.request).Some?
      && var grant := c.verdict.value.grant.value;
         var key := Strip(TokenOf(gate, c.request).value);
         var ids := ScopeIds(gate, c.request);
         var before := EntriesAfter(gate, s.history[..c.at.value]);
         && key in before && before[key].grant == grant && !(before[key].consumed && grant.singleUse)
         && grant.toolName == c.request.tool
         && s.history[c.at.value].now < grant.expiresAt
         && (grant.requestId.Some? ==> ids.requestId == grant.requestId)
         && (grant.projectId.Some? ==> ids.projectId == grant.projectId)
         && (grant.subjectId.Some? && ids.agentId.Some? ==> ids.agentId == grant.subjectId)
  {
    hide Serve, Remaining, EntriesAfter, Validate, ApplyApproval, GoodEntries, IssuesAreFresh, TokenOf, ScopeIds, Strip;
    ReachableInv(gate, s);
    assert CallInv(gate, s, i);
    var c := s.calls[i];
    var before := EntriesAfter(gate, s.history[..c.at.value]);
    RunsExactly(gate, c.request, before, s.history[c.at.value].now);
    assert UsesStore(gate, Prepare(gate, c.request).value);
    PreparedWith(gate, c.request);
    StoreGrantsExactly(gate, c.request, before, s.history[c.at.value].now);
    GrantedExactly(before, PresentationOf(Prepare(gate, c.request).value), s.history[c.at.value].now);
  }

  /** The started mutation bodies whose approval was single-use. */
  function SingleUseStarts(gate: Gate, s: State): set<nat> {
    set i | 0 <= i < |s.calls| && s.calls[i].ran && IsMutation(gate, s.calls[i].request) && SpentAToken(s.calls[i])
  }

  function ConsumedTokens(entries: Entries): set<string> {
    set t | t in entries && entries[t].consumed
  }

  function Issued(history: seq<Op>): nat {
    if history == [] then 0
    else Issued(history[..|history| - 1]) + (if history[|history| - 1].IssueOp? then 1 else 0)
  }

  lemma {:induction false} InjectionBounds<K, V>(m: map<K, V>, range: set<V>)
    requires forall i | i in m :: m[i] in range
    requires forall i, j | i in m && j in m && m[i] == m[j] :: i == j
    ensures |m| <= |range|
  {
    if m == map[] {
    } else {
      var i :| i in m;
      InjectionBounds(m - {i}, range - {m[i]});
      assert |m - {i}| == |m| - 1;
    }
  }

  lemma NothingIssuedYet(gate: Gate, history: seq<Op>)
    ensures EntriesAfter(gate, history[..0]) == map[]
  {
  }

  lemma {:induction false} EntriesCountIssues(gate: Gate, history: seq<Op>, n: nat)
    requires IssuesAreFresh(gate, history) && n <= |history|
    ensures |EntriesAfter(gate, history[..n])| == Issued(history[..n])
  {
    hide GoodEntries, IssuesAreFresh, EntriesAfter, Evolves;
    if n == 0 {
      NothingIssuedYet(gate, history);
    } else {
      EntriesCountIssues(gate, history, n - 1);
      HistoryStaysGood(gate, history, n - 1);
      HistoryStep(gate, history, n - 1);
      assert history[..n][..n - 1] == history[..n - 1];
    }
  }

  /**
   * Single-use mutation bodies started are at most the tokens consumed, which are at most the
   * tokens issued. Starts without a single-use approval can only come from reusable grants.
   */
  lemma StartsAreBoundedByTokens(gate: Gate, s: State)
    requires Reachable(gate, s) && gate.hasStore && DefaultGate(gate)
    ensures |SingleUseStarts(gate, s)| <= |ConsumedTokens(s.entries)| <= Issued(s.history)
    ensures forall i | 0 <= i < |s.calls| && s.calls[i].ran && IsMutation(gate, s.calls[i].request)
      && i !in SingleUseStarts(gate, s) ::
              s.calls[i].verdict.Some? && s.calls[i].verdict.value.grant.Some?
                && !s.calls[i].verdict.value.grant.value.singleUse
  {
    hide EntriesAfter, CallInv, GoodEntries, IssuesAreFresh, Prepare;
    ReachableInv(gate, s);
    var spent := map i | i in SingleUseStarts(gate, s) :: KeyOf(gate, s.calls[i].request);
    forall i, j | i in spent && j in spent
      ensures spent[i] in ConsumedTokens(s.entries) && (spent[i] == spent[j] ==> i == j)
    {
      TokensAreSpentOnce(gate, s, i, j);
    }
    assert spent.Keys == SingleUseStarts(gate, s);
    InjectionBounds(spent, ConsumedTokens(s.entries));
    assert ConsumedTokens(s.entries) <= s.entries.Keys;
    SubsetIsSmaller(ConsumedTokens(s.entries), s.entries.Keys);
    EntriesCountIssues(gate, s.history, |s.history|);
    assert s.history[..|s.history|] == s.history;
    forall i | 0 <= i < |s.calls| && s.calls[i].ran && IsMutation(gate, s.calls[i].request)
      && i !in SingleUseStarts(gate, s)
      ensures s.calls[i].verdict.Some? && s.calls[i].verdict.value.grant.Some?
        && !s.calls[i].verdict.value.grant.value.singleUse
    {
      MutationsAreApproved(gate, s, i);
    }
  }

  /** Call `i` was granted the single-use token `t`. */
  predicate Spent(gate: Gate, s: State, i: nat, t: string) {
    i < |s.calls| && SpentAToken(s.calls[i]) && KeyOf(gate, s.calls[i].request) == t
  }

  /** A token that one operation of the history consumed was granted to the call that committed there. */
  lemma ConsumerIsTheCommitter(gate: Gate, s: State, n: nat, t: string)
    requires Inv(gate, s) && n < |s.history|
    requires
      var before, after := EntriesAfter(gate, s.history[..n]), EntriesAfter(gate, s.history[..n + 1]);
      t in after && after[t].consumed && !(t in before && before[t].consumed)
    ensures s.history[n].CallOp? && Spent(gate, s, s.history[n].call, t)
  {
    hide Serve, Prepare, ApplyApproval, Remaining, GoodEntries, IssuesAreFresh, EntriesAfter, ClockOrder;
    var op, before := s.history[n], EntriesAfter(gate, s.history[..n]);
    assert s.history[..n + 1] == s.history[..n] + [op];
    EntriesAfterOneMore(gate, s.history[..n], op);
    if op.CallOp? {
      assert CallInv(gate, s, op.call);
      if Prepare(gate, op.request).Ok? {
        ServeIsApprovalThenRemainder(gate, op.request, before, op.now);
        ConsumeSpendsAtMostTheKey(before, PresentationOf(Prepare(gate, op.request).value), op.now);
      } else {
        UnpreparedChangesNothing(gate, op.request, before, op.now);
      }
    }
  }

  lemma UnpreparedChangesNothing(gate: Gate, r: Request, entries: Entries, now: int)
    requires Prepare(gate, r).Err?
    ensures Serve(gate, r, entries, now).entries == entries
  {
    hide Prepare;
  }

  lemma {:induction false} ConsumedWasSpent(gate: Gate, s: State, n: nat, t: string) returns (i: nat)
    requires Inv(gate, s) && n <= |s.history|
    requires t in EntriesAfter(gate, s.history[..n]) && EntriesAfter(gate, s.history[..n])[t].consumed
    ensures Spent(gate, s, i, t)
  {
    hide Inv, Serve, KeyOf, SpentAToken, EntriesAfter;
    if n == 0 {
      NothingIssuedYet(gate, s.history);
    } else {
      var before := EntriesAfter(gate, s.history[..n - 1]);
      if t in before && before[t].consumed {
        i := ConsumedWasSpent(gate, s, n - 1, t);
      } else {
        ConsumerIsTheCommitter(gate, s, n - 1, t);
        i := s.history[n - 1].call;
      }
    }
  }

  /** The calls that were granted a single-use token. */
  function Spenders(s: State): set<nat> {
    set i | 0 <= i < |s.calls| && SpentAToken(s.calls[i])
  }

  /**
   * Consumption is accounted for both ways: in any run the tokens consumed are exactly those
   * granted as single-use, each to one call, so there are as many of one as of the other.
   */
  lemma TokensConsumedAreTokensSpent(gate: Gate, s: State)
    requires Reachable(gate, s)
    ensures forall t :: t in ConsumedTokens(s.entries) <==> exists i :: Spent(gate, s, i, t)
    ensures forall i, j, t | Spent(gate, s, i, t) && Spent(gate, s, j, t) :: i == j
    ensures |Spenders(s)| == |ConsumedTokens(s.entries)|
  {
    hide Inv, EntriesAfter, KeyOf, SpentAToken;
    ReachableInv(gate, s);
    forall i, j, t | Spent(gate, s, i, t) && Spent(gate, s, j, t) ensures i == j && t in ConsumedTokens(s.entries) {
      TokensAreSpentOnce(gate, s, i, j);
    }
    forall t | t in ConsumedTokens(s.entries) ensures exists i :: Spent(gate, s, i, t) {
      EntriesAreTheHistorys(gate, s);
      var i := ConsumedWasSpent(gate, s, |s.history|, t);
    }
    var keys := map i | i in Spenders(s) :: KeyOf(gate, s.calls[i].request);
    forall i | i in keys ensures Spent(gate, s, i, keys[i]) {
    }
    InjectionBounds(keys, ConsumedTokens(s.entries));
    assert keys.Keys == Spenders(s);
    var calls := map t | t in ConsumedTokens(s.entries) :: (var i: nat :| Spent(gate, s, i, t); i);
    forall t | t in calls ensures Spent(gate, s, calls[t], t) {
    }
    InjectionBounds(calls, Spenders(s));
    assert calls.Keys == ConsumedTokens(s.entries);
  }

  lemma EntriesAreTheHistorys(gate: Gate, s: State)
    requires Inv(gate, s)
    ensures s.entries == EntriesAfter(gate, s.history[..|s.history|])
  {
    assert s.history[..|s.history|] == s.history;
  }

  lemma SubsetIsSmaller<T>(a: set<T>, b: set<T>)
    requires a <= b
    ensures |a| <= |b|
  {
    assert b == a + (b - a);
  }
}
