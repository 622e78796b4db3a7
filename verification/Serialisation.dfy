/** Serialisability of the governed call path, its order in real time, and runs that are already serial. */
module Serialisation {
  import opened Approval
  import opened GatePath
  import opened Governance
  import opened Machine
  import opened Outcomes

  /** Call `i` ended as if it had been executed atomically at position `k` of the history. */
  ghost predicate ServedAtomically(gate: Gate, s: State, i: nat, k: nat) {
    && i < |s.calls| && k < |s.history| && s.history[k].CallOp?
    && s.history[k].call == i && s.history[k].request == s.calls[i].request
    && var served := ServedAt(gate, s.history, k);
       && s.calls[i].phase == Returned(served.outcome)
       && Trail(s.log, i) == served.events
       && s.calls[i].ran == served.ran
       && s.calls[i].verdict == VerdictOf(gate, s.history, k)
  }

  lemma ReturnedAtItsCommit(gate: Gate, s: State, i: nat)
    requires Inv(gate, s) && i < |s.calls| && s.calls[i].phase.Returned?
    ensures s.calls[i].at.Some? && ServedAtomically(gate, s, i, s.calls[i].at.value)
  {
    hide EntriesAfter, Serve, Prepare, Validate;
    assert CallInv(gate, s, i);
    var served := ServedAt(gate, s.history, s.calls[i].at.value);
    assert served.events == Trail(s.log, i) + [];
  }

  /**
   * Serialisability: in every run, the approval map is that of executing the issued tokens and
   * the committed calls atomically, one after another, in the order of their commit points,
   * which for calls that touch the store is the order in which they held its lock. Every call
   * that has returned appears there exactly once, with the outcome, audit trail and verdict of
   * its atomic execution at that point.
   */
  lemma Serialisable(gate: Gate, s: State)
    requires Reachable(gate, s)
    ensures s.entries == EntriesAfter(gate, s.history)
    ensures forall i | 0 <= i < |s.calls| && s.calls[i].phase.Returned? ::
              exists k :: ServedAtomically(gate, s, i, k) && forall k' | ServedAtomically(gate, s, i, k') :: k' == k
    ensures forall k | 0 <= k < |s.history| && s.history[k].CallOp? ::
              s.history[k].call < |s.calls| && Committed(s.calls[s.history[k].call].phase)
  {
    ReachableInv(gate, s);
    forall i | 0 <= i < |s.calls| && s.calls[i].phase.Returned?
      ensures exists k :: ServedAtomically(gate, s, i, k) && forall k' | ServedAtomically(gate, s, i, k') :: k' == k
    {
      ReturnedAtItsCommit(gate, s, i);
    }
    forall k | 0 <= k < |s.history| && s.history[k].CallOp?
      ensures s.history[k].call < |s.calls| && Committed(s.calls[s.history[k].call].phase)
    {
      assert CallInv(gate, s, s.history[k].call);
    }
  }

  /** What later steps cannot undo. */
  ghost predicate Continues(s: State, s': State) {
    && s.history <= s'.history && s.clock <= s'.clock && |s.calls| <= |s'.calls|
    && (forall i | 0 <= i < |s.calls| :: s'.calls[i].request == s.calls[i].request)
    && (forall i | 0 <= i < |s.calls| && s.calls[i].at.Some? :: s'.calls[i].at == s.calls[i].at)
    && (forall i | 0 <= i < |s'.calls| && s'.calls[i].at.Some? && (i < |s.calls| ==> s.calls[i].at.None?) ::
          |s.history| <= s'.calls[i].at.value)
  }

  lemma StepContinues(gate: Gate, s: State, a: Action)
    requires Inv(gate, s) && Enabled(s, a)
    ensures Continues(s, Next(gate, s, a))
  {
    hide Prepare, ApplyApproval, EntriesAfterApproval, Local, EntriesAfter, GoodEntries, IssuesAreFresh, UsesStore;
    if Mover(s, a).Some? && Mover(s, a).value < |s.calls| {
      assert CallInv(gate, s, Mover(s, a).value);
    }
  }

  lemma ContinuesTransitive(s: State, t: State, u: State)
    requires Continues(s, t) && Continues(t, u)
    ensures Continues(s, u)
  {
    assert s.history <= u.history;
  }

  lemma {:induction false} RunContinues(gate: Gate, s: State, actions: seq<Action>)
    requires Inv(gate, s) && Run(gate, s, actions).Some?
    ensures Inv(gate, Run(gate, s, actions).value) && Continues(s, Run(gate, s, actions).value)
  {
    RunKeepsInv(gate, s, actions);
    if actions == [] {
    } else {
      var n := |actions| - 1;
      RunContinues(gate, s, actions[..n]);
      var t := Run(gate, s, actions[..n]).value;
      StepContinues(gate, t, actions[n]);
      ContinuesTransitive(s, t, Next(gate, t, actions[n]));
    }
  }

  /**
   * The serial order respects real time: a call that had returned before another arrived is
   * executed before it, and commit points already passed keep their place for ever.
   */
  lemma SerialOrderRespectsRealTime(gate: Gate, s: State, actions: seq<Action>, i: nat, j: nat)
    requires Reachable(gate, s) && Run(gate, s, actions).Some?
    requires i < |s.calls| && s.calls[i].phase.Returned?
    requires |s.calls| <= j < |Run(gate, s, actions).value.calls|
      && Committed(Run(gate, s, actions).value.calls[j].phase)
    ensures var s' := Run(gate, s, actions).value;
            s'.calls[i].at.Some? && s'.calls[j].at.Some? && s'.calls[i].at.value < s'.calls[j].at.value
  {
    hide EntriesAfter, GoodEntries, IssuesAreFresh, Prepare, Serve, Remaining;
    ReachableInv(gate, s);
    RunContinues(gate, s, actions);
    assert CallInv(gate, s, i);
    assert CallInv(gate, Run(gate, s, actions).value, j);
  }

  // ----- Running one call alone

  lemma RunAppend(gate: Gate, s: State, actions: seq<Action>, a: Action)
    requires Run(gate, s, actions).Some? && Enabled(Run(gate, s, actions).value, a)
    ensures Run(gate, s, actions + [a]) == Some(Next(gate, Run(gate, s, actions).value, a))
  {
    assert (actions + [a])[..|actions|] == actions;
  }

  /** Throughout the run at least `floor` slots are free. */
  ghost predicate KeepsFree(gate: Gate, s: State, actions: seq<Action>, floor: int) {
    forall n | 0 <= n <= |actions| :: Run(gate, s, actions[..n]).Some? && Run(gate, s, actions[..n]).value.free >= floor
  }

  /** One more action after a run that keeps `floor` slots free. */
  lemma Extend(gate: Gate, s: State, actions: seq<Action>, a: Action, floor: int)
    requires KeepsFree(gate, s, actions, floor) && Run(gate, s, actions).Some?
      && Enabled(Run(gate, s, actions).value, a)
    requires Next(gate, Run(gate, s, actions).value, a).free >= floor
    ensures Run(gate, s, actions + [a]) == Some(Next(gate, Run(gate, s, actions).value, a))
    ensures KeepsFree(gate, s, actions + [a], floor)
  {
    hide Run, Next;
    RunAppend(gate, s, actions, a);
    forall n | 0 <= n <= |actions + [a]|
      ensures Run(gate, s, (actions + [a])[..n]).Some? && Run(gate, s, (actions + [a])[..n]).value.free >= floor
    {
      if n <= |actions| {
        assert (actions + [a])[..n] == actions[..n];
      } else {
        assert (actions + [a])[..n] == actions + [a];
      }
    }
  }

  lemma TagAppend(call: nat, a: seq<AuditEvent>, b: seq<AuditEvent>)
    ensures Tag(call, a + b) == Tag(call, a) + Tag(call, b)
  {
  }

  /** The state in which call `i`, past its commit point, has returned and nothing else has moved. */
  function Completed(gate: Gate, s: State, i: nat): State
    requires i < |s.calls| && Committed(s.calls[i].phase)
  {
    var c := s.calls[i];
    var rest := Remaining(gate, c.request, c.phase);
    s.(free := s.free + 1,
       log := s.log + Tag(i, rest.events),
       calls := s.calls[i := c.(phase := Returned(rest.outcome), ran := c.ran || rest.runs)])
  }

  lemma AdvanceTowardsCompletion(gate: Gate, s: State, i: nat)
    requires Enabled(s, Advance(i))
    ensures
      var s' := Next(gate, s, Advance(i));
      && s'.free == s.free
      && i < |s'.calls| && Committed(s'.calls[i].phase) && !s'.calls[i].phase.Returned?
      && Work(s'.calls[i].phase) < Work(s.calls[i].phase)
      && Completed(gate, s', i) == Completed(gate, s, i)
  {
    var c := s.calls[i];
    RemainingStep(gate, c.request, c.phase);
    var (phase, events) := Local(gate, c.request, c.phase);
    var rest := Remaining(gate, c.request, phase);
    TagAppend(i, events, rest.events);
    assert s.log + Tag(i, events) + Tag(i, rest.events) == s.log + (Tag(i, events) + Tag(i, rest.events));
    var t, u := Completed(gate, Next(gate, s, Advance(i)), i), Completed(gate, s, i);
    assert t.calls[i] == u.calls[i];
    assert t.calls == u.calls;
  }

  /** A call past its commit point can be run to its return at once, recording exactly its remainder. */
  lemma {:induction false} CompleteAlone(gate: Gate, origin: State, done: seq<Action>, s: State, i: nat, floor: int)
    returns (actions: seq<Action>)
    requires Run(gate, origin, done) == Some(s) && KeepsFree(gate, origin, done, floor)
    requires i < |s.calls| && Committed(s.calls[i].phase) && !s.calls[i].phase.Returned?
    ensures Run(gate, origin, actions) == Some(Completed(gate, s, i)) && KeepsFree(gate, origin, actions, floor)
    decreases Work(s.calls[i].phase)
  {
    hide KeepsFree, Run;
    assert s.free >= floor by {
      AtTheEnd(gate, origin, done, floor);
    }
    if s.calls[i].phase.Leaving? {
      Extend(gate, origin, done, Release(i), floor);
      actions := done + [Release(i)];
      assert s.log + Tag(i, []) == s.log;
    } else {
      AdvanceTowardsCompletion(gate, s, i);
      Extend(gate, origin, done, Advance(i), floor);
      actions := CompleteAlone(gate, origin, done + [Advance(i)], Next(gate, s, Advance(i)), i, floor);
    }
  }

  lemma AtTheEnd(gate: Gate, s: State, actions: seq<Action>, floor: int)
    requires KeepsFree(gate, s, actions, floor)
    ensures Run(gate, s, actions).Some? && Run(gate, s, actions).value.free >= floor
  {
    assert actions[..|actions|] == actions;
  }

  /**
   * After `s`, one call more is past its commit point, with all of its atomic execution but the
   * approval still to come.
   */
  ghost predicate CommittedAlone(gate: Gate, s: State, r: Request, now: int, t: State) {
    var served := Serve(gate, r, s.entries, now);
    && t.free == s.free - 1 && t.entries == served.entries && t.log == s.log
    && t.clock == (if Prepare(gate, r).Ok? then now else s.clock)
    && t.history == s.history + [CallOp(|s.calls|, r, t.clock)]
    && |t.calls| == |s.calls| + 1 && t.calls[..|s.calls|] == s.calls
    && var c := t.calls[|s.calls|];
       && c.request == r && !c.ran && Committed(c.phase) && !c.phase.Returned?
       && Remaining(gate, r, c.phase) == Remainder(served.outcome, served.events, served.ran)
  }

  lemma ArriveAndAuthenticate(gate: Gate, s: State, r: Request)
    requires s.free > 0 && Wrapped(r)
    ensures
      var admitted := s.(free := s.free - 1, calls := s.calls + [Call(r, Admitted, None, None, false)]);
      var actions := [Arrive(r), Authenticate(|s.calls|)];
      && Enabled(admitted, Authenticate(|s.calls|))
      && Run(gate, s, actions) == Some(Next(gate, admitted, Authenticate(|s.calls|)))
      && KeepsFree(gate, s, actions, s.free - 1)
  {
    hide Prepare;
    assert Run(gate, s, []) == Some(s);
    Extend(gate, s, [], Arrive(r), s.free - 1);
    Extend(gate, s, [] + [Arrive(r)], Authenticate(|s.calls|), s.free - 1);
    assert [] + [Arrive(r)] + [Authenticate(|s.calls|)] == [Arrive(r), Authenticate(|s.calls|)];
  }

  lemma CommitAlone(gate: Gate, s: State, r: Request, now: int) returns (actions: seq<Action>, t: State)
    requires s.free > 0 && Wrapped(r) && s.clock <= now
    ensures Run(gate, s, actions) == Some(t) && CommittedAlone(gate, s, r, now, t)
      && KeepsFree(gate, s, actions, s.free - 1)
  {
    hide Prepare, ApplyApproval, EntriesAfterApproval, Decide, Validate, UsesStore, Local, Run, KeepsFree;
    var i := |s.calls|;
    ArriveAndAuthenticate(gate, s, r);
    var admitted := s.(free := s.free - 1, calls := s.calls + [Call(r, Admitted, None, None, false)]);
    actions, t := [Arrive(r), Authenticate(i)], Next(gate, admitted, Authenticate(i));
    if Prepare(gate, r).Ok? {
      Extend(gate, s, actions, Approve(i, now), s.free - 1);
      actions, t := actions + [Approve(i, now)], Next(gate, t, Approve(i, now));
      ServeIsApprovalThenRemainder(gate, r, s.entries, now);
    }
  }

  /** What the state `s'` owes to one call executed atomically in `s`. */
  ghost predicate ServedIn(gate: Gate, s: State, r: Request, now: int, s': State) {
    var served := Serve(gate, r, s.entries, now);
    var i := |s.calls|;
    && s'.free == s.free
    && s'.entries == served.entries
    && s'.log == s.log + Tag(i, served.events)
    && s'.clock == (if Prepare(gate, r).Ok? then now else s.clock)
    && s'.history == s.history + [CallOp(i, r, s'.clock)]
    && |s'.calls| == i + 1 && s'.calls[..i] == s.calls
    && s'.calls[i].request == r && s'.calls[i].phase == Returned(served.outcome) && s'.calls[i].ran == served.ran
  }

  /**
   * Atomic execution is one of the machine's runs: from any state with a free slot, a call that
   * arrives and runs to its return undisturbed does to the entries and the log exactly what
   * `Serve` says, ends as it says, and gives its slot back; no other slot is taken meanwhile.
   */
  lemma AtomicExecutionIsARun(gate: Gate, s: State, r: Request, now: int) returns (actions: seq<Action>, s': State)
    requires s.free > 0 && Wrapped(r) && s.clock <= now
    ensures Run(gate, s, actions) == Some(s') && KeepsFree(gate, s, actions, s.free - 1)
    ensures ServedIn(gate, s, r, now, s')
  {
    hide Serve, Run, Remaining, KeepsFree, Prepare;
    var path, committed := CommitAlone(gate, s, r, now);
    actions := CompleteAlone(gate, s, path, committed, |s.calls|, s.free - 1);
    s' := Completed(gate, committed, |s.calls|);
  }

  // ----- Every run has a serial twin

  lemma {:induction false} RunConcat(gate: Gate, s: State, a: seq<Action>, b: seq<Action>)
    requires Run(gate, s, a).Some?
    ensures Run(gate, s, a + b) == Run(gate, Run(gate, s, a).value, b)
  {
    hide Next, Enabled;
    if b == [] {
      assert a + b == a;
    } else {
      var n := |b| - 1;
      assert (a + b)[..|a| + n] == a + b[..n];
      RunConcat(gate, s, a, b[..n]);
    }
  }

  lemma KeepsFreeConcat(gate: Gate, s: State, a: seq<Action>, b: seq<Action>, floor: int)
    requires KeepsFree(gate, s, a, floor) && Run(gate, s, a).Some? && KeepsFree(gate, Run(gate, s, a).value, b, floor)
    ensures KeepsFree(gate, s, a + b, floor) && Run(gate, s, a + b) == Run(gate, Run(gate, s, a).value, b)
  {
    hide Run;
    RunConcat(gate, s, a, b);
    forall n | 0 <= n <= |a + b|
      ensures Run(gate, s, (a + b)[..n]).Some? && Run(gate, s, (a + b)[..n]).value.free >= floor
    {
      if n <= |a| {
        assert (a + b)[..n] == a[..n];
      } else {
        assert (a + b)[..n] == a + b[..n - |a|];
        RunConcat(gate, s, a, b[..n - |a|]);
      }
    }
  }

  lemma {:induction false} TrailAfterAll(log: seq<Logged>, i: nat, events: seq<AuditEvent>, call: nat)
    ensures Trail(log + Tag(i, events), call) == if call == i then Trail(log, call) + events else Trail(log, call)
  {
    if events == [] {
      assert log + Tag(i, events) == log;
    } else {
      var n := |events| - 1;
      TrailAfterAll(log, i, events[..n], call);
      assert events == events[..n] + [events[n]];
      TagAppend(i, events[..n], [events[n]]);
      assert log + Tag(i, events) == (log + Tag(i, events[..n])) + Tag(i, [events[n]]);
      TrailAfter(log + Tag(i, events[..n]), i, [events[n]], call);
    }
  }

  function CallsIn(history: seq<Op>): nat {
    if history == [] then 0 else CallsIn(history[..|history| - 1]) + (if history[|history| - 1].CallOp? then 1 else 0)
  }

  /** In `s`, the `k`-th operation of the history, a call, has ended as its atomic execution at its turn. */
  ghost predicate Replays(gate: Gate, s: State, history: seq<Op>, k: nat)
    requires k < |history| && history[k].CallOp?
  {
    var j := CallsIn(history[..k]);
    var served := ServedAt(gate, history, k);
    && j < |s.calls|
    && s.calls[j].request == history[k].request && s.calls[j].phase == Returned(served.outcome)
    && s.calls[j].ran == served.ran && Trail(s.log, j) == served.events
  }

  /** A history whose calls can be executed one after another from the time `clock` on. */
  ghost predicate Schedule(gate: Gate, clock: int, history: seq<Op>) {
    && IssuesAreFresh(gate, history) && ClockOrder(history)
    && forall k | 0 <= k < |history| && history[k].CallOp? :: Wrapped(history[k].request) && clock <= history[k].now
  }

  /** What a serial run of the schedule has reached. */
  ghost predicate Plays(gate: Gate, clock: int, history: seq<Op>, actions: seq<Action>, s: State) {
    && Run(gate, Start(gate, clock), actions) == Some(s)
    && KeepsFree(gate, Start(gate, clock), actions, gate.Limit() - 1)
    && s.free == gate.Limit() && s.entries == EntriesAfter(gate, history) && |s.calls| == CallsIn(history)
    && (s.clock == clock || exists k :: 0 <= k < |history| && history[k].CallOp? && history[k].now == s.clock)
    && forall k | 0 <= k < |history| && history[k].CallOp? :: Replays(gate, s, history, k)
  }

  lemma SchedulePrefix(gate: Gate, clock: int, history: seq<Op>, n: nat)
    requires Schedule(gate, clock, history) && n <= |history|
    ensures Schedule(gate, clock, history[..n])
  {
    hide CanIssue, EntriesAfter;
    forall k | 0 <= k < n ensures history[..n][k] == history[k] && history[..n][..k] == history[..k] {
    }
  }

  /** Calls already replayed stay so when others are added and only others' events are logged. */
  lemma ReplaysStay(gate: Gate, s: State, s': State, history: seq<Op>, n: nat, k: nat)
    requires k < n <= |history| && history[k].CallOp? && Replays(gate, s, history[..n], k)
    requires |s.calls| <= |s'.calls| && s'.calls[..|s.calls|] == s.calls
    requires forall j | 0 <= j < |s.calls| :: Trail(s'.log, j) == Trail(s.log, j)
    ensures Replays(gate, s', history, k)
  {
    hide EntriesAfter, Serve, Trail, CallsIn;
    assert history[..n][k] == history[k] && history[..n][..k] == history[..k];
    var j := CallsIn(history[..k]);
    assert s'.calls[j] == s'.calls[..|s.calls|][j];
  }

  lemma PlayIssue(
    gate: Gate, clock: int, history: seq<Op>, actions: seq<Action>, s: State) returns (actions': seq<Action>, s': State)
    requires history != [] && Schedule(gate, clock, history)
    requires var n := |history| - 1; history[n].IssueOp? && Plays(gate, clock, history[..n], actions, s)
    ensures Plays(gate, clock, history, actions', s')
  {
    hide Run, KeepsFree, CanIssue, Replays, Serve, Trail, EntriesAfter, ClockOrder;
    var n := |history| - 1;
    var IssueOp(token, grant) := history[n];
    var a := IssueToken(token, grant, s.clock);
    assert history == history[..n] + [history[n]];
    EntriesAfterOneMore(gate, history[..n], history[n]);
    s' := Next(gate, s, a);
    Extend(gate, Start(gate, clock), actions, a, gate.Limit() - 1);
    actions' := actions + [a];
    forall k | 0 <= k < |history| && history[k].CallOp? ensures Replays(gate, s', history, k) {
      assert history[..n][k] == history[k];
      ReplaysStay(gate, s, s', history, n, k);
    }
    if s.clock != clock {
      var k :| 0 <= k < n && history[..n][k].CallOp? && history[..n][k].now == s.clock;
      assert history[k].now == s.clock;
    }
  }

  lemma PlayCall(
    gate: Gate, clock: int, history: seq<Op>, actions: seq<Action>, s: State) returns (actions': seq<Action>, s': State)
    requires gate.Limit() > 0 && history != [] && Schedule(gate, clock, history)
    requires var n := |history| - 1; history[n].CallOp? && Plays(gate, clock, history[..n], actions, s)
    ensures Plays(gate, clock, history, actions', s')
  {
    hide Run, KeepsFree, Replays, Serve, Prepare, IssuesAreFresh;
    var n := |history| - 1;
    var CallOp(_, r, now) := history[n];
    assert s.clock <= now by {
      if s.clock != clock {
        var k :| 0 <= k < n && history[..n][k].CallOp? && history[..n][k].now == s.clock;
        assert history[k].now == s.clock;
      }
    }
    var alone;
    alone, s' := AtomicExecutionIsARun(gate, s, r, now);
    KeepsFreeConcat(gate, Start(gate, clock), actions, alone, gate.Limit() - 1);
    actions' := actions + alone;
    assert history == history[..n] + [history[n]];
    EntriesAfterOneMore(gate, history[..n], history[n]);
    assert Trail(s.log, |s.calls|) == [] by {
      assert Reachable(gate, s);
      ReachableInv(gate, s);
      NoTrail(s.log, |s.calls|);
    }
    var events := Serve(gate, r, s.entries, now).events;
    forall j: nat ensures Trail(s'.log, j) == if j == |s.calls| then events else Trail(s.log, j) {
      TrailAfterAll(s.log, |s.calls|, events, j);
    }
    forall k | 0 <= k < |history| && history[k].CallOp? ensures Replays(gate, s', history, k) {
      if k < n {
        assert history[..n][k] == history[k];
        ReplaysStay(gate, s, s', history, n, k);
      } else {
        ReplaysLast(gate, s, s', history, now);
      }
    }
    if s'.clock == s.clock && s.clock != clock {
      var k :| 0 <= k < n && history[..n][k].CallOp? && history[..n][k].now == s.clock;
      assert history[k].now == s'.clock;
    } else if s'.clock != s.clock {
      assert history[n].now == s'.clock;
    }
  }

  lemma ReplaysLast(gate: Gate, s: State, s': State, history: seq<Op>, now: int)
    requires history != [] && history[|history| - 1].CallOp? && history[|history| - 1].now == now
    requires
      var n := |history| - 1;
      && s.entries == EntriesAfter(gate, history[..n]) && |s.calls| == CallsIn(history[..n])
      && ServedIn(gate, s, history[n].request, now, s')
      && Trail(s'.log, |s.calls|) == Serve(gate, history[n].request, s.entries, now).events
    ensures Replays(gate, s', history, |history| - 1)
  {
    hide Serve, EntriesAfter, Trail, CallsIn, Prepare;
  }

  /** Every schedule can be played one call at a time: no two calls of the run are ever in flight together. */
  lemma {:induction false} SchedulesPlay(
    gate: Gate, clock: int, history: seq<Op>) returns (actions: seq<Action>, s: State)
    requires gate.Limit() > 0 && Schedule(gate, clock, history)
    ensures Plays(gate, clock, history, actions, s)
  {
    if history == [] {
      actions, s := [], Start(gate, clock);
    } else {
      hide Plays, Schedule;
      var n := |history| - 1;
      SchedulePrefix(gate, clock, history, n);
      var before, t := SchedulesPlay(gate, clock, history[..n]);
      if history[n].IssueOp? {
        actions, s := PlayIssue(gate, clock, history, before, t);
      } else {
        actions, s := PlayCall(gate, clock, history, before, t);
      }
    }
  }

  /** The two calls ended alike and left the same trail. */
  ghost predicate SameCall(s: State, i: nat, t: State, j: nat) {
    && i < |s.calls| && j < |t.calls|
    && s.calls[i].request == t.calls[j].request && s.calls[i].phase == t.calls[j].phase
    && s.calls[i].ran == t.calls[j].ran
    && Trail(s.log, i) == Trail(t.log, j)
  }

  /** A time no later than any in the history. */
  lemma EarliestTime(history: seq<Op>) returns (clock: int)
    requires ClockOrder(history)
    ensures forall k | 0 <= k < |history| && history[k].CallOp? :: clock <= history[k].now
  {
    if first :| 0 <= first < |history| && history[first].CallOp? && forall k | 0 <= k < first :: !history[k].CallOp? {
      clock := history[first].now;
    } else {
      clock := 0;
      forall k | 0 <= k < |history| ensures !history[k].CallOp? {
        NoFirstCall(history, k);
      }
    }
  }

  lemma {:induction false} NoFirstCall(history: seq<Op>, k: nat)
    requires k < |history|
    requires forall first | 0 <= first < |history| && history[first].CallOp? ::
               exists i :: 0 <= i < first && history[i].CallOp?
    ensures !history[k].CallOp?
    decreases k
  {
    if history[k].CallOp? {
      var i :| 0 <= i < k && history[i].CallOp?;
      NoFirstCall(history, i);
    }
  }

  lemma {:induction false} CallsInGrows(history: seq<Op>, k: nat, l: nat)
    requires k < l <= |history| && history[k].CallOp?
    ensures CallsIn(history[..k]) < CallsIn(history[..l])
    decreases l
  {
    assert history[..l][..l - 1] == history[..l - 1] && history[..l][l - 1] == history[l - 1];
    if k == l - 1 {
    } else {
      CallsInGrows(history, k, l - 1);
    }
  }

  function ReturnedCalls(s: State): set<nat> {
    set i | 0 <= i < |s.calls| && s.calls[i].phase.Returned?
  }

  /**
   * `twin` gives each returned call of `s` a call of `t` of its own that ended alike, in the order of
   * the commit points.
   */
  ghost predicate Twins(s: State, t: State, twin: map<nat, nat>) {
    && twin.Keys == ReturnedCalls(s)
    && (forall i | i in twin :: s.calls[i].at.Some? && SameCall(s, i, t, twin[i]))
    && (forall i, j | i in twin && j in twin && i != j :: s.calls[i].at != s.calls[j].at)
    && (forall i, j | i in twin && j in twin && s.calls[i].at.value < s.calls[j].at.value :: twin[i] < twin[j])
  }

  /**
   * Every run has a serial twin: another run of the same machine, with at most one call in
   * flight at any moment, that leaves the same approval map, has one call for each that
   * committed, and in which every call that returned has a counterpart of its own that ended
   * alike and left the same audit trail, in the order of their commit points.
   */
  lemma EveryRunHasASerialTwin(gate: Gate, s: State)
    returns (clock: int, actions: seq<Action>, t: State, twin: map<nat, nat>)
    requires gate.Limit() > 0 && Reachable(gate, s)
    ensures Run(gate, Start(gate, clock), actions) == Some(t)
    ensures KeepsFree(gate, Start(gate, clock), actions, gate.Limit() - 1)
    ensures t.entries == s.entries && |t.calls| == CallsIn(s.history)
    ensures Twins(s, t, twin)
  {
    hide EntriesAfter, Serve, Prepare, Run, KeepsFree, Trail, Remaining, CallsIn, Inv;
    ReachableInv(gate, s);
    InvHasSchedule(gate, s);
    clock := EarliestTime(s.history);
    actions, t := SchedulesPlay(gate, clock, s.history);
    forall i | i in ReturnedCalls(s)
      ensures s.calls[i].at.Some? && s.calls[i].at.value < |s.history|
      ensures SameCall(s, i, t, CallsIn(s.history[..s.calls[i].at.value]))
    {
      ReturnedAtItsCommit(gate, s, i);
      assert Replays(gate, t, s.history, s.calls[i].at.value);
    }
    twin := map i | i in ReturnedCalls(s) :: CallsIn(s.history[..s.calls[i].at.value]);
    forall i, j | i in twin && j in twin
      ensures i != j ==> s.calls[i].at != s.calls[j].at
      ensures s.calls[i].at.value < s.calls[j].at.value ==> twin[i] < twin[j]
    {
      ReturnedAtItsCommit(gate, s, i);
      ReturnedAtItsCommit(gate, s, j);
      if s.calls[i].at.value < s.calls[j].at.value {
        CallsInGrows(s.history, s.calls[i].at.value, s.calls[j].at.value);
      }
    }
  }

  lemma InvHasSchedule(gate: Gate, s: State)
    requires Inv(gate, s)
    ensures s.entries == EntriesAfter(gate, s.history) && IssuesAreFresh(gate, s.history) && ClockOrder(s.history)
    ensures forall k | 0 <= k < |s.history| && s.history[k].CallOp? :: Wrapped(s.history[k].request)
  {
    hide EntriesAfter;
    forall k | 0 <= k < |s.history| && s.history[k].CallOp? ensures Wrapped(s.history[k].request) {
      HistoryCallsAreWrapped(gate, s, k);
    }
  }

  lemma HistoryCallsAreWrapped(gate: Gate, s: State, k: nat)
    requires Inv(gate, s) && k < |s.history| && s.history[k].CallOp?
    ensures Wrapped(s.history[k].request)
  {
    hide EntriesAfter, Serve, Prepare, Remaining, GoodEntries, IssuesAreFresh;
    assert CallInv(gate, s, s.history[k].call);
  }
}
