/** Slot conservation and draining. */
module Slots {
  import opened GatePath
  import opened Governance
  import opened Machine
  import opened Outcomes

  /** The sum of a weight over the phases of all calls. */
  function Total(calls: seq<Call>, weight: Phase -> nat): nat {
    if calls == [] then 0 else Total(calls[..|calls| - 1], weight) + weight(calls[|calls| - 1].phase)
  }

  function HoldsSlot(phase: Phase): nat {
    if phase.Rejected? || phase.Returned? then 0 else 1
  }

  function InBody(phase: Phase): nat {
    if phase.Running? then 1 else 0
  }

  /** Allowed, but its outcome is not recorded yet. */
  function Owes(phase: Phase): nat {
    if phase.Allowed? || phase.Running? || phase.Finished? then 1 else 0
  }

  lemma TotalOfOneMore(calls: seq<Call>, c: Call, weight: Phase -> nat)
    ensures Total(calls + [c], weight) == Total(calls, weight) + weight(c.phase)
  {
    assert (calls + [c])[..|calls|] == calls;
  }

  lemma {:induction false} TotalOfUpdate(calls: seq<Call>, i: nat, c: Call, weight: Phase -> nat)
    requires i < |calls|
    ensures Total(calls[i := c], weight) + weight(calls[i].phase) == Total(calls, weight) + weight(c.phase)
  {
    var n := |calls| - 1;
    if i == n {
      assert calls[i := c][..n] == calls[..n];
    } else {
      assert calls[i := c][..n] == calls[..n][i := c];
      TotalOfUpdate(calls[..n], i, c, weight);
    }
  }

  lemma {:induction false} TotalIsMonotone(calls: seq<Call>, small: Phase -> nat, large: Phase -> nat)
    requires forall phase :: small(phase) <= large(phase)
    ensures Total(calls, small) <= Total(calls, large)
  {
    if calls == [] {
    } else {
      TotalIsMonotone(calls[..|calls| - 1], small, large);
    }
  }

  /** How a step changes the sum of a weight: by the moved call's change of phase. */
  lemma TotalAfterStep(gate: Gate, s: State, a: Action, weight: Phase -> nat)
    requires Enabled(s, a)
    ensures
      var s' := Next(gate, s, a);
      match Mover(s, a)
      case None => s'.calls == s.calls
      case Some(i) =>
        i < |s'.calls|
        && Total(s'.calls, weight) + (if i < |s.calls| then weight(s.calls[i].phase) else 0)
           == Total(s.calls, weight) + weight(s'.calls[i].phase)
  {
    var s' := Next(gate, s, a);
    if Mover(s, a).Some? {
      var i := Mover(s, a).value;
      if i < |s.calls| {
        assert s'.calls == s.calls[i := s'.calls[i]];
        TotalOfUpdate(s.calls, i, s'.calls[i], weight);
      } else {
        TotalOfOneMore(s.calls, s'.calls[i], weight);
      }
    }
  }

  ghost predicate SlotsInv(gate: Gate, s: State) {
    s.free >= 0 && s.free + Total(s.calls, HoldsSlot) == gate.Limit()
  }

  lemma StepKeepsSlots(gate: Gate, s: State, a: Action)
    requires SlotsInv(gate, s) && Enabled(s, a)
    ensures SlotsInv(gate, Next(gate, s, a))
  {
    TotalAfterStep(gate, s, a, HoldsSlot);
  }

  lemma {:induction false} RunKeepsSlots(gate: Gate, s: State, actions: seq<Action>)
    requires SlotsInv(gate, s) && Run(gate, s, actions).Some?
    ensures SlotsInv(gate, Run(gate, s, actions).value)
  {
    if actions == [] {
    } else {
      var n := |actions| - 1;
      RunKeepsSlots(gate, s, actions[..n]);
      StepKeepsSlots(gate, Run(gate, s, actions[..n]).value, actions[n]);
    }
  }

  ghost predicate ValidGate(gate: Gate) {
    gate.security.Some? ==> gate.security.value.Valid()
  }

  lemma ReachableSlots(gate: Gate, s: State)
    requires ValidGate(gate) && Reachable(gate, s)
    ensures SlotsInv(gate, s)
  {
    var clock: int, actions: seq<Action> :| Run(gate, Start(gate, clock), actions) == Some(s);
    RunKeepsSlots(gate, Start(gate, clock), actions);
  }

  lemma {:induction false} HolderCounts(calls: seq<Call>, i: nat)
    requires i < |calls|
    ensures Total(calls, HoldsSlot) >= HoldsSlot(calls[i].phase)
  {
    if i == |calls| - 1 {
    } else {
      HolderCounts(calls[..|calls| - 1], i);
    }
  }

  /**
   * Slot conservation: free slots and calls in flight always add up to the limit; at most
   * `limit` bodies run at once; no release exceeds the bound of the semaphore.
   */
  lemma SlotConservation(gate: Gate, s: State)
    requires ValidGate(gate) && Reachable(gate, s)
    ensures gate.Limit() == (if gate.security.Some? then gate.security.value.maxConcurrentRequests else 32)
    ensures 1 <= gate.Limit() <= 256 && 0 <= s.free <= gate.Limit()
    ensures s.free + Total(s.calls, HoldsSlot) == gate.Limit()
    ensures Total(s.calls, InBody) <= Total(s.calls, HoldsSlot) <= gate.Limit()
    ensures forall i | 0 <= i < |s.calls| && s.calls[i].phase.Leaving? :: s.free < gate.Limit()
  {
    ReachableSlots(gate, s);
    TotalIsMonotone(s.calls, InBody, HoldsSlot);
    forall i | 0 <= i < |s.calls| && s.calls[i].phase.Leaving? ensures s.free < gate.Limit() {
      HolderCounts(s.calls, i);
    }
  }

  /**
   * An arriving call is rejected exactly when `limit` calls are in flight, and then only its own
   * rejection is left behind: neither entries, nor log, nor slots, nor any other call change.
   */
  lemma RejectedExactlyWhenFull(gate: Gate, s: State, r: Request)
    requires ValidGate(gate) && Reachable(gate, s) && Wrapped(r)
    ensures
      var s' := Next(gate, s, Arrive(r));
      && (s'.calls[|s.calls|].phase == Rejected <==> Total(s.calls, HoldsSlot) == gate.Limit())
      && (s'.calls[|s.calls|].phase == Rejected ==> s' == s.(calls := s.calls + [Call(r, Rejected, None, None, false)]))
  {
    ReachableSlots(gate, s);
  }

  // ----- Draining

  predicate IsWork(a: Action) {
    !a.Arrive? && !a.IssueToken?
  }

  lemma PhaseDrops(gate: Gate, s: State, a: Action)
    requires Enabled(s, a) && IsWork(a)
    ensures Work(Next(gate, s, a).calls[a.call].phase) < Work(s.calls[a.call].phase)
  {
    match a
    case Authenticate(i) => assert s.calls[i].phase.Admitted?;
    case Approve(i, _) => assert s.calls[i].phase.Ready?;
    case Advance(i) => RemainingStep(gate, s.calls[i].request, s.calls[i].phase);
    case Release(i) => assert s.calls[i].phase.Leaving?;
  }

  /** Every step of a call leaves less to do. */
  lemma StepDrains(gate: Gate, s: State, a: Action)
    requires Enabled(s, a) && IsWork(a)
    ensures Total(Next(gate, s, a).calls, Work) < Total(s.calls, Work)
  {
    PhaseDrops(gate, s, a);
    assert Mover(s, a) == Some(a.call);
    TotalAfterStep(gate, s, a, Work);
  }

  function CallSteps(actions: seq<Action>): nat {
    if actions == [] then 0
    else CallSteps(actions[..|actions| - 1]) + (if IsWork(actions[|actions| - 1]) then 1 else 0)
  }

  function Arrivals(actions: seq<Action>): nat {
    if actions == [] then 0
    else Arrivals(actions[..|actions| - 1]) + (if actions[|actions| - 1].Arrive? then 1 else 0)
  }

  /** An arrival brings the work of one call at most, an issue none. */
  lemma OtherStepsAddLittleWork(gate: Gate, s: State, a: Action)
    requires Enabled(s, a) && !IsWork(a)
    ensures Total(Next(gate, s, a).calls, Work) <= Total(s.calls, Work) + (if a.Arrive? then CALL_WORK else 0)
  {
    TotalAfterStep(gate, s, a, Work);
  }

  /** The steps a wrapped call takes at most, from its arrival to its return. */
  const CALL_WORK := 9

  /**
   * Calls run out of steps: in every run the steps taken by calls and the work still left are
   * covered by the work at its start and that of the calls that arrived in it.
   */
  lemma {:induction false} RunsDrain(gate: Gate, s: State, actions: seq<Action>)
    requires Run(gate, s, actions).Some?
    ensures CallSteps(actions) + Total(Run(gate, s, actions).value.calls, Work)
         <= Total(s.calls, Work) + CALL_WORK * Arrivals(actions)
  {
    if actions == [] {
    } else {
      var n := |actions| - 1;
      RunsDrain(gate, s, actions[..n]);
      var t := Run(gate, s, actions[..n]).value;
      if IsWork(actions[n]) {
        StepDrains(gate, t, actions[n]);
      } else {
        OtherStepsAddLittleWork(gate, t, actions[n]);
      }
    }
  }

  /** The next step of a call in flight. */
  function StepOf(s: State, i: nat): Action
    requires i < |s.calls|
  {
    var phase := s.calls[i].phase;
    if phase.Admitted? then Authenticate(i) else if phase.Ready? then Approve(i, s.clock)
    else if phase.Leaving? then Release(i) else Advance(i)
  }

  /** While there is work, some call is in flight. */
  lemma {:induction false} SomeoneInFlight(calls: seq<Call>) returns (i: nat)
    requires Total(calls, Work) > 0
    ensures i < |calls| && Work(calls[i].phase) > 0
  {
    var n := |calls| - 1;
    if Work(calls[n].phase) > 0 {
      i := n;
    } else {
      i := SomeoneInFlight(calls[..n]);
    }
  }

  predicate IsAllow(event: AuditEvent) {
    event.eventType == DECISION && event.decision == Some(Allow)
  }

  predicate IsOutcome(event: AuditEvent) {
    event.eventType == EXECUTION_RESULT || event.eventType == EXECUTION_FAILURE
  }

  function Count(log: seq<Logged>, test: AuditEvent -> bool): nat {
    if log == [] then 0
    else Count(log[..|log| - 1], test) + (if test(log[|log| - 1].event) then 1 else 0)
  }

  lemma CountAfter(log: seq<Logged>, i: nat, events: seq<AuditEvent>, test: AuditEvent -> bool)
    requires |events| <= 1
    ensures Count(log + Tag(i, events), test) == Count(log, test) + Hit(events, test)
  {
    if events == [] {
      assert log + Tag(i, events) == log;
    } else {
      assert (log + Tag(i, events))[..|log|] == log;
    }
  }

  /** Each ALLOW is still owed an outcome or has had one. */
  ghost predicate AllowsBalance(s: State) {
    Count(s.log, IsAllow) == Count(s.log, IsOutcome) + Total(s.calls, Owes)
  }

  function Hit(events: seq<AuditEvent>, test: AuditEvent -> bool): nat {
    if events != [] && test(events[0]) then 1 else 0
  }

  lemma LocalStepBalances(gate: Gate, r: Request, phase: Phase)
    requires Steps(phase)
    ensures var (after, events) := Local(gate, r, phase);
            |events| <= 1 && Hit(events, IsAllow) + Owes(phase) == Hit(events, IsOutcome) + Owes(after)
  {
  }

  lemma AdvanceKeepsBalance(gate: Gate, s: State, i: nat)
    requires AllowsBalance(s) && Enabled(s, Advance(i))
    ensures AllowsBalance(Next(gate, s, Advance(i)))
  {
    var (after, events) := Local(gate, s.calls[i].request, s.calls[i].phase);
    LocalStepBalances(gate, s.calls[i].request, s.calls[i].phase);
    TotalAfterStep(gate, s, Advance(i), Owes);
    CountAfter(s.log, i, events, IsAllow);
    CountAfter(s.log, i, events, IsOutcome);
  }

  /** Other steps record nothing and move no call into or out of its body. */
  lemma StepKeepsBalance(gate: Gate, s: State, a: Action)
    requires AllowsBalance(s) && Enabled(s, a)
    ensures AllowsBalance(Next(gate, s, a))
  {
    hide Prepare, ApplyApproval, EntriesAfterApproval, Local;
    if a.Advance? {
      AdvanceKeepsBalance(gate, s, a.call);
    } else {
      TotalAfterStep(gate, s, a, Owes);
      var s' := Next(gate, s, a);
      assert s'.log == s.log;
    }
  }

  lemma {:induction false} RunKeepsBalance(gate: Gate, s: State, actions: seq<Action>)
    requires AllowsBalance(s) && Run(gate, s, actions).Some?
    ensures AllowsBalance(Run(gate, s, actions).value)
  {
    if actions == [] {
    } else {
      var n := |actions| - 1;
      RunKeepsBalance(gate, s, actions[..n]);
      StepKeepsBalance(gate, Run(gate, s, actions[..n]).value, actions[n]);
    }
  }

  lemma InFlightCanStep(gate: Gate, s: State, i: nat)
    requires i < |s.calls| && HoldsSlot(s.calls[i].phase) == 1
    ensures
      var a := StepOf(s, i);
      IsWork(a) && Enabled(s, a) && Total(Next(gate, s, a).calls, Work) < Total(s.calls, Work)
  {
    hide Next, Total;
    StepDrains(gate, s, StepOf(s, i));
  }

  lemma NothingToBalance(gate: Gate, clock: int)
    ensures AllowsBalance(Start(gate, clock))
  {
  }

  lemma FreeWhenIdle(gate: Gate, s: State)
    requires ValidGate(gate) && Reachable(gate, s)
    ensures Total(s.calls, Work) == 0 ==> s.free == gate.Limit() && Total(s.calls, Owes) == 0
  {
    ReachableSlots(gate, s);
    TotalIsMonotone(s.calls, HoldsSlot, Work);
    TotalIsMonotone(s.calls, Owes, Work);
  }

  /**
   * Draining: calls never wait for one another, so each call in flight has a step that reduces
   * the work; while work remains there is such a call; once none remains, all slots are free
   * again and every ALLOW decision has exactly one recorded outcome.
   */
  lemma Drained(gate: Gate, s: State)
    requires ValidGate(gate) && Reachable(gate, s)
    ensures forall i | 0 <= i < |s.calls| && HoldsSlot(s.calls[i].phase) == 1 ::
              var a := StepOf(s, i);
              IsWork(a) && Enabled(s, a) && Total(Next(gate, s, a).calls, Work) < Total(s.calls, Work)
    ensures Total(s.calls, Work) > 0 ==> exists i :: 0 <= i < |s.calls| && HoldsSlot(s.calls[i].phase) == 1
    ensures Total(s.calls, Work) == 0 ==>
              s.free == gate.Limit() && Count(s.log, IsAllow) == Count(s.log, IsOutcome)
  {
    hide Prepare, ApplyApproval, EntriesAfterApproval, Local, Next, Run, StepOf, Enabled, Count, SlotsInv;
    var clock: int, actions: seq<Action> :| Run(gate, Start(gate, clock), actions) == Some(s);
    RunKeepsBalance(gate, Start(gate, clock), actions) by {
      NothingToBalance(gate, clock);
    }
    FreeWhenIdle(gate, s);
    forall i | 0 <= i < |s.calls| && HoldsSlot(s.calls[i].phase) == 1
      ensures
        var a := StepOf(s, i);
        IsWork(a) && Enabled(s, a) && Total(Next(gate, s, a).calls, Work) < Total(s.calls, Work)
    {
      InFlightCanStep(gate, s, i);
    }
    if Total(s.calls, Work) > 0 {
      var i := SomeoneInFlight(s.calls);
      assert HoldsSlot(s.calls[i].phase) == 1;
    }
  }
}
