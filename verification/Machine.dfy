/**
 * Any number of wrapped calls running at once over one gate. Each call is a thread with a
 * program counter; the shared state is the semaphore, the clock, the approval map and the audit
 * log. Every access to shared state is a step of its own, so every interleaving is a run.
 */
module Machine {
  import opened Approval
  import opened Contexts
  import opened Errors
  import opened GatePath
  import opened Governance
  import opened Outcomes

  /** Where a call stands in `execute`, with the local variables it carries from there on. */
  datatype Phase =
    | Rejected                                                                    // no slot was free
    | Admitted                                                                    // slot taken
    | Ready(p: Prepared)                                                          // authenticated, tool resolved
    | Cleared(p: Prepared, context: Option<GovernanceContext>)                    // approval applied
    | Decided(p: Prepared, context: Option<GovernanceContext>, decision: Decision)   // policy evaluated
    | Requested(p: Prepared, context: Option<GovernanceContext>, decision: Decision) // REQUEST recorded
    | Allowed(p: Prepared, context: Option<GovernanceContext>)                    // ALLOW recorded
    | Running(p: Prepared, context: Option<GovernanceContext>)                    // inside the tool body
    | Finished(p: Prepared, context: Option<GovernanceContext>, outcome: BodyOutcome) // body ended
    | Leaving(outcome: BodyOutcome)                                               // about to release the slot
    | Returned(outcome: BodyOutcome)

  /**
   * One wrapped call. `at`, `verdict` and `ran` record its history: its position in the order
   * of commit points, what the store told it, and whether its body was started.
   */
  datatype Call = Call(request: Request, phase: Phase, at: Option<nat>, verdict: Option<Validation>, ran: bool)

  /**
   * The commit points of a run, in order: tokens issued, and calls leaving the approval step (or
   * failing before it).
   */
  datatype Op = IssueOp(token: string, grant: Grant) | CallOp(call: nat, request: Request, now: int)

  datatype Logged = Logged(call: nat, event: AuditEvent)

  /** A call is identified by its position in `calls`, the order of arrival. */
  datatype State = State(
    free: int, clock: int, entries: Entries, log: seq<Logged>, calls: seq<Call>, history: seq<Op>)

  datatype Action =
    | Arrive(request: Request)
    | Authenticate(call: nat)
    | Approve(call: nat, now: int)
    | Advance(call: nat)
    | Release(call: nat)
    | IssueToken(token: string, grant: Grant, now: int)

  function Start(gate: Gate, clock: int): State {
    State(gate.Limit(), clock, map[], [], [], [])
  }

  /** The phases between the approval step and the release of the slot. */
  predicate Steps(phase: Phase) {
    phase.Cleared? || phase.Decided? || phase.Requested? || phase.Allowed? || phase.Running? || phase.Finished?
  }

  /**
   * A call may take its next step at any time; the clock never runs backwards and issued tokens
   * are fresh. `issue` reads the clock before it takes the lock, so a grant may have expired by
   * the time it enters the store.
   */
  predicate Enabled(s: State, a: Action) {
    match a
    case Arrive(request) => Wrapped(request)
    case Authenticate(call) => call < |s.calls| && s.calls[call].phase.Admitted?
    case Approve(call, now) => call < |s.calls| && s.calls[call].phase.Ready? && s.clock <= now
    case Advance(call) => call < |s.calls| && Steps(s.calls[call].phase)
    case Release(call) => call < |s.calls| && s.calls[call].phase.Leaving?
    case IssueToken(token, grant, now) => CanIssue(s.entries, token, grant) && s.clock <= now
  }

  /** The next phase of a call past approval, and the event it appends to the log on the way. */
  function Local(gate: Gate, r: Request, phase: Phase): (Phase, seq<AuditEvent>)
    requires Steps(phase)
  {
    match phase
    case Cleared(p, context) =>
      (match Decide(gate, p.tool, context)
       case Err(raised) => Leaving(Fails(raised))
       case Ok(decision) => Decided(p, context, decision), [])
    case Decided(p, context, decision) => (Requested(p, context, decision), [Sanitised(RequestEvent(p.tool, context))])
    case Requested(p, context, decision) =>
      (if decision == Allow then Allowed(p, context) else Leaving(Fails(Structured(Refusal(p.tool, decision)))),
       [Sanitised(DecisionEvent(p.tool, context, decision))])
    case Allowed(p, context) => (Running(p, context), [])
    case Running(p, context) => (Finished(p, context, RunBody(r)), [])
    case Finished(p, context, outcome) => (Leaving(outcome), [Sanitised(OutcomeEvent(p.tool, context, outcome))])
  }

  function Tag(call: nat, events: seq<AuditEvent>): seq<Logged> {
    seq(|events|, i requires 0 <= i < |events| => Logged(call, events[i]))
  }

  function Next(gate: Gate, s: State, a: Action): State
    requires Enabled(s, a)
  {
    match a
    case Arrive(request) =>
      if s.free > 0 then s.(free := s.free - 1, calls := s.calls + [Call(request, Admitted, None, None, false)])
      else s.(calls := s.calls + [Call(request, Rejected, None, None, false)])
    case Authenticate(i) =>
      var c := s.calls[i];
      (match Prepare(gate, c.request)
       case Ok(p) => s.(calls := s.calls[i := c.(phase := Ready(p))])
       case Err(raised) =>
         s.(calls := s.calls[i := c.(phase := Leaving(Fails(raised)), at := Some(|s.history|))],
            history := s.history + [CallOp(i, c.request, s.clock)]))
    case Approve(i, now) =>
      var c := s.calls[i];
      var p := c.phase.p;
      var phase :=
        match ApplyApproval(gate, p, s.entries, now)
        case Ok(context) => Cleared(p, context)
        case Err(error) => Leaving(Fails(Structured(error)));
      var verdict := if UsesStore(gate, p) then Some(Validate(s.entries, PresentationOf(p), now)) else None;
      s.(clock := now,
         entries := EntriesAfterApproval(gate, p, s.entries, now),
         calls := s.calls[i := c.(phase := phase, at := Some(|s.history|), verdict := verdict)],
         history := s.history + [CallOp(i, c.request, now)])
    case Advance(i) =>
      var c := s.calls[i];
      var (phase, events) := Local(gate, c.request, c.phase);
      s.(calls := s.calls[i := c.(phase := phase, ran := c.ran || phase.Running?)], log := s.log + Tag(i, events))
    case Release(i) =>
      s.(free := s.free + 1, calls := s.calls[i := s.calls[i].(phase := Returned(s.calls[i].phase.outcome))])
    case IssueToken(token, grant, now) =>
      s.(clock := now, entries := s.entries[token := Entry(grant, false)],
        history := s.history + [IssueOp(token, grant)])
  }

  /** The state after `actions`, if each is enabled when its turn comes. */
  function Run(gate: Gate, s: State, actions: seq<Action>): Option<State> {
    if actions == [] then Some(s)
    else
      var before := Run(gate, s, actions[..|actions| - 1]);
      var a := actions[|actions| - 1];
      if before.Some? && Enabled(before.value, a) then Some(Next(gate, before.value, a)) else None
  }

  ghost predicate Reachable(gate: Gate, s: State) {
    exists clock: int, actions: seq<Action> :: Run(gate, Start(gate, clock), actions) == Some(s)
  }

  // ----- The serial reference: commit points executed one at a time

  /** The approval map after executing the operations one after another, each call atomically. */
  function EntriesAfter(gate: Gate, history: seq<Op>): Entries {
    if history == [] then map[]
    else
      AfterOp(gate, EntriesAfter(gate, history[..|history| - 1]), history[|history| - 1])
  }

  function AfterOp(gate: Gate, entries: Entries, op: Op): Entries {
    match op
    case IssueOp(token, grant) => entries[token := Entry(grant, false)]
    case CallOp(_, request, now) => Serve(gate, request, entries, now).entries
  }

  /** The `k`-th operation, a call, served atomically at its turn. */
  function ServedAt(gate: Gate, history: seq<Op>, k: nat): Served
    requires k < |history| && history[k].CallOp?
  {
    Serve(gate, history[k].request, EntriesAfter(gate, history[..k]), history[k].now)
  }

  /** The events one call left in the log, in order. */
  function Trail(log: seq<Logged>, call: nat): seq<AuditEvent> {
    if log == [] then []
    else
      var rest := Trail(log[..|log| - 1], call);
      if log[|log| - 1].call == call then rest + [log[|log| - 1].event] else rest
  }

  lemma TrailAfter(log: seq<Logged>, i: nat, events: seq<AuditEvent>, call: nat)
    requires |events| <= 1
    ensures Trail(log + Tag(i, events), call) == if call == i then Trail(log, call) + events else Trail(log, call)
  {
    if events == [] {
      assert log + Tag(i, events) == log;
    } else {
      assert (log + Tag(i, events))[..|log|] == log;
      assert events == [events[0]];
    }
  }

  // ----- The invariant

  predicate Committed(phase: Phase) {
    !phase.Rejected? && !phase.Admitted? && !phase.Ready?
  }

  /**
   * What remains of a committed call: the events it will still record, how it ends, whether its body
   * will still start.
   */
  datatype Remainder = Remainder(outcome: BodyOutcome, events: seq<AuditEvent>, runs: bool)

  function Work(phase: Phase): nat {
    match phase
    case Rejected => 0
    case Admitted => 9
    case Ready(_) => 8
    case Cleared(_, _) => 7
    case Decided(_, _, _) => 6
    case Requested(_, _, _) => 5
    case Allowed(_, _) => 4
    case Running(_, _) => 3
    case Finished(_, _, _) => 2
    case Leaving(_) => 1
    case Returned(_) => 0
  }

  function Remaining(gate: Gate, r: Request, phase: Phase): Remainder
    requires Committed(phase)
    decreases Work(phase)
  {
    if phase.Leaving? || phase.Returned? then Remainder(phase.outcome, [], false)
    else
      var (after, events) := Local(gate, r, phase);
      var rest := Remaining(gate, r, after);
      Remainder(rest.outcome, events + rest.events, phase.Allowed? || rest.runs)
  }

  /** Serving atomically is approval followed by what remains after it. */
  lemma ServeIsApprovalThenRemainder(gate: Gate, r: Request, entries: Entries, now: int)
    requires Prepare(gate, r).Ok?
    ensures
      var p := Prepare(gate, r).value;
      var served := Serve(gate, r, entries, now);
      var cleared := ApplyApproval(gate, p, entries, now);
      && served.entries == EntriesAfterApproval(gate, p, entries, now)
      && (cleared.Err? ==> served == Served(Fails(Structured(cleared.error)), [], served.entries, false))
      && (cleared.Ok? ==>
            var rest := Remaining(gate, r, Cleared(p, cleared.value));
            served == Served(rest.outcome, rest.events, served.entries, rest.runs))
  {
    // Both sides are spelled out up to the decision, then from it.
    hide Prepare, Local, Sanitised, RequestEvent, DecisionEvent, OutcomeEvent, Refusal, RunBody, Decide, ApplyApproval,
      Remaining;
    var cleared := ApplyApproval(gate, Prepare(gate, r).value, entries, now);
    if cleared.Ok? {
      var p, context := Prepare(gate, r).value, cleared.value;
      RemainingAfterApproval(gate, r, p, context);
      if Decide(gate, p.tool, context).Ok? {
        RemainingAfterRequest(gate, r, p, context, Decide(gate, p.tool, context).value);
      }
    }
  }

  lemma RemainingAfterApproval(gate: Gate, r: Request, p: Prepared, context: Option<GovernanceContext>)
    ensures
      var rest := Remaining(gate, r, Cleared(p, context));
      var decided := Decide(gate, p.tool, context);
      && (decided.Err? ==> rest == Remainder(Fails(decided.error), [], false))
      && (decided.Ok? ==>
            var requested := Remaining(gate, r, Requested(p, context, decided.value));
            rest == Remainder(requested.outcome, [Sanitised(RequestEvent(p.tool, context))] + requested.events,
              requested.runs))
  {
    var decided := Decide(gate, p.tool, context);
    if decided.Ok? {
      assert Local(gate, r, Decided(p, context, decided.value)).0 == Requested(p, context, decided.value);
    } else {
      assert Local(gate, r, Cleared(p, context)).0 == Leaving(Fails(decided.error));
    }
  }

  lemma RemainingAfterRequest(
    gate: Gate, r: Request, p: Prepared, context: Option<GovernanceContext>, decision: Decision)
    ensures
      var rest := Remaining(gate, r, Requested(p, context, decision));
      var decided := Sanitised(DecisionEvent(p.tool, context, decision));
      var outcome := RunBody(r);
      rest == if decision == Allow
              then Remainder(outcome, [decided, Sanitised(OutcomeEvent(p.tool, context, outcome))], true)
              else Remainder(Fails(Structured(Refusal(p.tool, decision))), [decided], false)
  {
    hide Sanitised, RequestEvent, DecisionEvent, OutcomeEvent, Refusal, RunBody, Decide;
    if decision == Allow {
      var outcome := RunBody(r);
      assert Remaining(gate, r, Finished(p, context, outcome)).events
        == [Sanitised(OutcomeEvent(p.tool, context, outcome))];
      assert Remaining(gate, r, Running(p, context)) == Remaining(gate, r, Finished(p, context, outcome));
      assert Remaining(gate, r, Allowed(p, context)).events == [Sanitised(OutcomeEvent(p.tool, context, outcome))];
    }
  }

  /** Before its commit point a call has left no trace. */
  ghost predicate Traceless(s: State, i: nat)
    requires i < |s.calls|
  {
    var c := s.calls[i];
    c.at.None? && c.verdict.None? && !c.ran && Trail(s.log, i) == []
  }

  /** The verdict an atomic execution at position `k` of the history receives. */
  function VerdictOf(gate: Gate, history: seq<Op>, k: nat): Option<Validation>
    requires k < |history| && history[k].CallOp?
  {
    var prepared := Prepare(gate, history[k].request);
    if prepared.Ok? && UsesStore(gate, prepared.value) then
      Some(Validate(EntriesAfter(gate, history[..k]), PresentationOf(prepared.value), history[k].now))
    else None
  }

  /** What was served is what was recorded and run so far, followed by the remainder; the body is counted once. */
  ghost predicate AddsUp(served: Served, trail: seq<AuditEvent>, ran: bool, rest: Remainder) {
    && served.outcome == rest.outcome
    && served.events == trail + rest.events
    && served.ran == (ran || rest.runs) && !(ran && rest.runs)
  }

  lemma StillAddsUp(
    served: Served, trail: seq<AuditEvent>, ran: bool, events: seq<AuditEvent>, after: Remainder, starts: bool)
    requires AddsUp(served, trail, ran, Remainder(after.outcome, events + after.events, starts || after.runs))
    requires !(starts && after.runs)
    ensures AddsUp(served, trail + events, ran || starts, after)
  {
    assert trail + (events + after.events) == trail + events + after.events;
  }

  /** How many events a call has recorded when it stands there. */
  function Recorded(phase: Phase): nat
    requires Steps(phase)
  {
    if phase.Cleared? || phase.Decided? then 0 else if phase.Requested? then 1 else 2
  }

  /** After its commit point, what a call did and what remains add up to its atomic execution there. */
  ghost predicate OnCourse(gate: Gate, s: State, i: nat)
    requires i < |s.calls| && Committed(s.calls[i].phase)
  {
    var c := s.calls[i];
    && c.at.Some? && c.at.value < |s.history| && s.history[c.at.value].CallOp?
    && s.history[c.at.value].call == i && s.history[c.at.value].request == c.request
    && var served := ServedAt(gate, s.history, c.at.value);
       var rest := Remaining(gate, c.request, c.phase);
       && AddsUp(served, Trail(s.log, i), c.ran, rest)
       && c.verdict == VerdictOf(gate, s.history, c.at.value)
       && (Steps(c.phase) ==>
             && Prepare(gate, c.request) == Ok(c.phase.p)
             && |Trail(s.log, i)| == Recorded(c.phase)
             && (c.ran <==> c.phase.Running? || c.phase.Finished?))
  }

  ghost predicate CallInv(gate: Gate, s: State, i: nat)
    requires i < |s.calls|
  {
    var c := s.calls[i];
    && Wrapped(c.request)
    && (!Committed(c.phase) ==> Traceless(s, i))
    && (c.phase.Ready? ==> Prepare(gate, c.request) == Ok(c.phase.p))
    && (Committed(c.phase) ==> OnCourse(gate, s, i))
  }

  /** Every commit point belongs to the call that remembers it. */
  ghost predicate HistoryInv(s: State) {
    forall k | 0 <= k < |s.history| && s.history[k].CallOp? ::
      && s.history[k].call < |s.calls| && s.calls[s.history[k].call].at == Some(k)
      && s.history[k].now <= s.clock
  }

  /** Commit points are stamped in the order of the clock. */
  ghost predicate ClockOrder(history: seq<Op>) {
    forall k, l | 0 <= k <= l < |history| && history[k].CallOp? && history[l].CallOp? ::
      history[k].now <= history[l].now
  }

  /** Every token in the history was fresh when it was issued. */
  ghost predicate IssuesAreFresh(gate: Gate, history: seq<Op>) {
    forall k | 0 <= k < |history| && history[k].IssueOp? ::
      CanIssue(EntriesAfter(gate, history[..k]), history[k].token, history[k].grant)
  }

  ghost predicate Inv(gate: Gate, s: State) {
    && s.entries == EntriesAfter(gate, s.history)
    && GoodEntries(s.entries)
    && HistoryInv(s) && ClockOrder(s.history) && IssuesAreFresh(gate, s.history)
    && (forall k | 0 <= k < |s.log| :: s.log[k].call < |s.calls|)
    && forall i | 0 <= i < |s.calls| :: CallInv(gate, s, i)
  }

  lemma {:induction false} NoTrail(log: seq<Logged>, call: nat)
    requires forall k | 0 <= k < |log| :: log[k].call != call
    ensures Trail(log, call) == []
  {
    if log == [] {
    } else {
      NoTrail(log[..|log| - 1], call);
    }
  }

  /** A step elsewhere does not disturb a call. */
  lemma Undisturbed(gate: Gate, s: State, s': State, i: nat)
    requires i < |s.calls| && i < |s'.calls| && s.calls[i] == s'.calls[i] && CallInv(gate, s, i)
    requires s.history <= s'.history && Trail(s.log, i) == Trail(s'.log, i)
    ensures CallInv(gate, s', i)
  {
    if Committed(s.calls[i].phase) {
      var k := s.calls[i].at.value;
      assert s'.history[k] == s.history[k] && s'.history[..k] == s.history[..k];
    }
  }

  lemma RemainingStep(gate: Gate, r: Request, phase: Phase)
    requires Steps(phase)
    ensures
      var (after, events) := Local(gate, r, phase);
      && |events| <= 1
      && Committed(after) && !after.Returned? && (Steps(after) ==> after.p == phase.p) && Work(after) < Work(phase)
      && (phase.Allowed? <==> after.Running?) && (phase.Running? <==> after.Finished?)
      && (Steps(after) ==> |events| + Recorded(phase) == Recorded(after))
      && Remaining(gate, r, phase)
           == Remainder(Remaining(gate, r, after).outcome, events + Remaining(gate, r, after).events,
                        phase.Allowed? || Remaining(gate, r, after).runs)
      && (after.Running? || phase.Running? ==> !Remaining(gate, r, after).runs)
    decreases Work(phase)
  {
    hide Decide, Sanitised, RequestEvent, DecisionEvent, OutcomeEvent, Refusal, RunBody;
    if phase.Allowed? {
      RemainingStep(gate, r, Local(gate, r, phase).0);
    }
  }

  lemma AdvanceKeepsCourse(gate: Gate, s: State, i: nat)
    requires i < |s.calls| && CallInv(gate, s, i) && Enabled(s, Advance(i))
    ensures CallInv(gate, Next(gate, s, Advance(i)), i)
  {
    hide Local, Remaining, Serve, EntriesAfter, Prepare, Trail;
    var c := s.calls[i];
    var (phase, events) := Local(gate, c.request, c.phase);
    RemainingStep(gate, c.request, c.phase);
    StillAddsUp(ServedAt(gate, s.history, c.at.value), Trail(s.log, i), c.ran, events,
                Remaining(gate, c.request, phase), c.phase.Allowed?);
    TrailAfter(s.log, i, events, i);
  }

  lemma ApproveSetsCourse(gate: Gate, s: State, i: nat, now: int)
    requires Enabled(s, Approve(i, now)) && CallInv(gate, s, i) && s.entries == EntriesAfter(gate, s.history)
    ensures CallInv(gate, Next(gate, s, Approve(i, now)), i)
  {
    hide EntriesAfterApproval, EntriesAfter, Validate, Decide, Local, Serve, ApplyApproval, UsesStore, Prepare, Trail;
    var c := s.calls[i];
    var s' := Next(gate, s, Approve(i, now));
    var k := |s.history|;
    assert s'.history[..k] == s.history && s'.history[k] == CallOp(i, c.request, now);
    ServeIsApprovalThenRemainder(gate, c.request, s.entries, now);
  }

  lemma AuthenticateSetsCourse(gate: Gate, s: State, i: nat)
    requires Inv(gate, s) && Enabled(s, Authenticate(i))
    ensures CallInv(gate, Next(gate, s, Authenticate(i)), i)
  {
    assert CallInv(gate, s, i);
    var s' := Next(gate, s, Authenticate(i));
    var k := |s.history|;
    if Prepare(gate, s.calls[i].request).Err? {
      assert s'.history[..k] == s.history && s'.history[k].CallOp?;
    }
  }

  lemma ReleaseKeepsCourse(gate: Gate, s: State, i: nat)
    requires Inv(gate, s) && Enabled(s, Release(i))
    ensures CallInv(gate, Next(gate, s, Release(i)), i)
  {
    assert CallInv(gate, s, i);
  }

  lemma ArrivalKeepsCourse(gate: Gate, s: State, request: Request)
    requires Inv(gate, s) && Enabled(s, Arrive(request))
    ensures CallInv(gate, Next(gate, s, Arrive(request)), |s.calls|)
  {
    NoTrail(s.log, |s.calls|);
  }

  /** The call an action moves, if it moves one. */
  function Mover(s: State, a: Action): Option<nat> {
    match a
    case Arrive(_) => Some(|s.calls|)
    case Authenticate(i) => Some(i)
    case Approve(i, _) => Some(i)
    case Advance(i) => Some(i)
    case Release(i) => Some(i)
    case IssueToken(_, _, _) => None
  }

  lemma MoverKeepsCourse(gate: Gate, s: State, a: Action)
    requires Inv(gate, s) && Enabled(s, a) && Mover(s, a).Some?
    ensures CallInv(gate, Next(gate, s, a), Mover(s, a).value)
  {
    match a
    case Arrive(request) => ArrivalKeepsCourse(gate, s, request);
    case Authenticate(i) => AuthenticateSetsCourse(gate, s, i);
    case Approve(i, now) =>
      assert CallInv(gate, s, i);
      ApproveSetsCourse(gate, s, i, now);
    case Advance(i) => AdvanceKeepsCourse(gate, s, i);
    case Release(i) => ReleaseKeepsCourse(gate, s, i);
  }

  /** What a step leaves alone: other calls, the past of the history, other calls' trails. */
  lemma StepFrame(gate: Gate, s: State, a: Action, j: nat)
    requires Enabled(s, a) && j < |s.calls| && Mover(s, a) != Some(j)
    ensures
      var s' := Next(gate, s, a);
      j < |s'.calls| && s'.calls[j] == s.calls[j] && s.history <= s'.history && Trail(s'.log, j) == Trail(s.log, j)
  {
    if a.Advance? {
      var (_, events) := Local(gate, s.calls[a.call].request, s.calls[a.call].phase);
      TrailAfter(s.log, a.call, events, j);
    }
  }

  lemma ApproveKeepsEntries(gate: Gate, s: State, i: nat, now: int)
    requires Inv(gate, s) && Enabled(s, Approve(i, now))
    ensures
      var s' := Next(gate, s, Approve(i, now));
      s'.entries == Serve(gate, s.calls[i].request, s.entries, now).entries && GoodEntries(s'.entries)
  {
    assert CallInv(gate, s, i);
    ServeIsApprovalThenRemainder(gate, s.calls[i].request, s.entries, now);
    PerformKeepsEntriesGood(s.entries, Present(PresentationOf(s.calls[i].phase.p), now));
  }

  lemma EntriesAfterOneMore(gate: Gate, history: seq<Op>, op: Op)
    ensures EntriesAfter(gate, history + [op]) == AfterOp(gate, EntriesAfter(gate, history), op)
  {
    assert (history + [op])[..|history|] == history;
  }

  /** Commit points extend the history by what atomic execution does to the entries; other steps leave both. */
  lemma StepKeepsEntries(gate: Gate, s: State, a: Action)
    requires Inv(gate, s) && Enabled(s, a)
    ensures var s' := Next(gate, s, a); s'.entries == EntriesAfter(gate, s'.history) && GoodEntries(s'.entries)
  {
    match a
    case Approve(i, now) =>
      ApproveKeepsEntries(gate, s, i, now);
      EntriesAfterOneMore(gate, s.history, CallOp(i, s.calls[i].request, now));
    case Authenticate(i) =>
      EntriesAfterOneMore(gate, s.history, CallOp(i, s.calls[i].request, s.clock));
    case IssueToken(token, grant, now) =>
      EntriesAfterOneMore(gate, s.history, IssueOp(token, grant));
      PerformKeepsEntriesGood(s.entries, StoreOp.Issue(token, grant));
    case _ =>
  }

  lemma StepKeepsHistory(gate: Gate, s: State, a: Action)
    requires Inv(gate, s) && Enabled(s, a)
    ensures HistoryInv(Next(gate, s, a))
  {
    hide Prepare, ApplyApproval, EntriesAfterApproval, EntriesAfter, GoodEntries, IssuesAreFresh, UsesStore, OnCourse;
    var s' := Next(gate, s, a);
    if a.Authenticate? || a.Approve? || a.Advance? {
      assert CallInv(gate, s, a.call);
    }
    forall k | 0 <= k < |s'.history| && s'.history[k].CallOp?
      ensures s'.history[k].call < |s'.calls| && s'.calls[s'.history[k].call].at == Some(k)
        && s'.history[k].now <= s'.clock
    {
      if k < |s.history| {
        assert s'.history[k] == s.history[k];
        assert CallInv(gate, s, s.history[k].call);
      }
    }
  }

  lemma StepKeepsClockOrder(gate: Gate, s: State, a: Action)
    requires Inv(gate, s) && Enabled(s, a)
    ensures ClockOrder(Next(gate, s, a).history)
  {
    hide Prepare, ApplyApproval, EntriesAfterApproval, EntriesAfter, GoodEntries, IssuesAreFresh, UsesStore, CallInv,
      Local;
    var history := Next(gate, s, a).history;
    forall k, l | 0 <= k <= l < |history| && history[k].CallOp? && history[l].CallOp?
      ensures history[k].now <= history[l].now
    {
      if k < |s.history| {
        assert history[k] == s.history[k];
      }
      if l < |s.history| {
        assert history[l] == s.history[l];
      }
    }
  }

  lemma StepKeepsIssuesFresh(gate: Gate, s: State, a: Action)
    requires Inv(gate, s) && Enabled(s, a)
    ensures IssuesAreFresh(gate, Next(gate, s, a).history)
  {
    hide Prepare, ApplyApproval, EntriesAfterApproval, GoodEntries, UsesStore, CallInv, Local, EntriesAfter, FreshToken;
    var history := Next(gate, s, a).history;
    forall k | 0 <= k < |history| && history[k].IssueOp?
      ensures CanIssue(EntriesAfter(gate, history[..k]), history[k].token, history[k].grant)
    {
      if k < |s.history| {
        assert history[k] == s.history[k] && history[..k] == s.history[..k];
      } else {
        assert a.IssueToken? && history[..k] == s.history;
      }
    }
  }

  lemma StepKeepsLog(gate: Gate, s: State, a: Action)
    requires Inv(gate, s) && Enabled(s, a)
    ensures var s' := Next(gate, s, a); forall k | 0 <= k < |s'.log| :: s'.log[k].call < |s'.calls|
  {
  }

  lemma StepKeepsInv(gate: Gate, s: State, a: Action)
    requires Inv(gate, s) && Enabled(s, a)
    ensures Inv(gate, Next(gate, s, a))
  {
    var s' := Next(gate, s, a);
    StepKeepsEntries(gate, s, a);
    StepKeepsHistory(gate, s, a);
    StepKeepsClockOrder(gate, s, a);
    StepKeepsIssuesFresh(gate, s, a);
    StepKeepsLog(gate, s, a);
    forall i | 0 <= i < |s'.calls| ensures CallInv(gate, s', i) {
      if Mover(s, a) == Some(i) {
        MoverKeepsCourse(gate, s, a);
      } else {
        StepFrame(gate, s, a, i);
        Undisturbed(gate, s, s', i);
      }
    }
  }

  lemma {:induction false} RunKeepsInv(gate: Gate, s: State, actions: seq<Action>)
    requires Inv(gate, s) && Run(gate, s, actions).Some?
    ensures Inv(gate, Run(gate, s, actions).value)
  {
    if actions == [] {
    } else {
      var n := |actions| - 1;
      RunKeepsInv(gate, s, actions[..n]);
      StepKeepsInv(gate, Run(gate, s, actions[..n]).value, actions[n]);
    }
  }

  lemma ReachableInv(gate: Gate, s: State)
    requires Reachable(gate, s)
    ensures Inv(gate, s)
  {
    var clock: int, actions: seq<Action> :| Run(gate, Start(gate, clock), actions) == Some(s);
    RunKeepsInv(gate, Start(gate, clock), actions);
  }
}
