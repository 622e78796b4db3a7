/**
 * Request-scoped authentication variables. Models `auth/request_state.py`: two context
 * variables, set on entering a scope and reset on every way out of it.
 */
module RequestState {
  import opened Contexts
  import opened Outcomes

  /** The values of the two variables. */
  datatype Binding = Binding(secret: Option<string>, asserted: Option<IntegrationContext>)

  const UNBOUND := Binding(None, None)

  /**
   * Request-handling code, as far as scopes matter: it reads the variables, raises, opens a scope
   * around other code, catches what other code raises, or starts another task.
   */
  datatype Code = Read | Raise | Scope(binding: Binding, body: seq<Code>) | Try(attempt: seq<Code>) | Spawn(child: nat)

  /** What a body should observe when `innermost` is the binding around it, and whether it raises. */
  ghost function Observed(body: seq<Code>, innermost: Binding): (seq<Binding>, bool) {
    if body == [] then ([], false)
    else
      match body[0]
      case Read =>
        var (seen, raised) := Observed(body[1..], innermost);
        ([innermost] + seen, raised)
      case Raise => ([], true)
      case Scope(binding, inner) =>
        var (seen, raised) := Observed(inner, binding);
        if raised then (seen, true)
        else
          var (later, raisedLater) := Observed(body[1..], innermost);
          (seen + later, raisedLater)
      case Try(attempt) =>
        var (later, raised) := Observed(body[1..], innermost);
        (Observed(attempt, innermost).0 + later, raised)
      case Spawn(_) => Observed(body[1..], innermost)
  }

  /** One task's pair of context variables. */
  class ContextVariables {
    var secret: Option<string>
    var asserted: Option<IntegrationContext>

    constructor ()
      ensures Current() == UNBOUND
    {
      secret, asserted := None, None;
    }

    function Current(): Binding
      reads this
    {
      Binding(secret, asserted)
    }

    /**
     * Runs `body`. Every read inside sees its own innermost scope, and whether the body
     * returns or raises, the variables are left as they were found.
     */
    method Run(body: seq<Code>) returns (seen: seq<Binding>, raised: bool)
      modifies this
      ensures Current() == old(Current())
      ensures (seen, raised) == Observed(body, old(Current()))
      decreases body, 0
    {
      seen, raised := [], false;
      var i := 0;
      assert body[0..] == body;
      while i < |body| && !raised
        invariant 0 <= i <= |body|
        invariant Current() == old(Current())
        invariant raised ==> Observed(body, old(Current())).0 == seen && Observed(body, old(Current())).1
        invariant !raised ==> Observed(body, old(Current())).0 == seen + Observed(body[i..], old(Current())).0
        invariant !raised ==> Observed(body, old(Current())).1 == Observed(body[i..], old(Current())).1
      {
        assert body[i..][0] == body[i] && body[i..][1..] == body[i + 1..];
        match body[i] {
          case Read =>
            seen := seen + [Current()];
          case Raise =>
            raised := true;
          case Scope(binding, inner) =>
            var innerSeen;
            innerSeen, raised := RunScoped(binding, inner);
            seen := seen + innerSeen;
          case Try(attempt) =>
            var attemptSeen, _ := Run(attempt);
            seen := seen + attemptSeen;
          case Spawn(_) =>
        }
        i := i + 1;
      }
      if !raised {
        assert body[i..] == [] && seen + [] == seen;
      }
    }

    /** `auth_request_scope` around `body`: set both variables, run, reset them to what the tokens saved. */
    method RunScoped(binding: Binding, body: seq<Code>) returns (seen: seq<Binding>, raised: bool)
      modifies this
      ensures Current() == old(Current())
      ensures (seen, raised) == Observed(body, binding)
      decreases body, 1
    {
      var savedSecret, savedAsserted := secret, asserted;
      secret := binding.secret;
      asserted := binding.asserted;
      seen, raised := Run(body);
      secret := savedSecret;
      asserted := savedAsserted;
    }
  }

  // ----- Many tasks at once

  /** What a task does to its variables, one access at a time. */
  datatype Op = ReadOp | EnterOp(binding: Binding) | ExitOp | SpawnOp(child: nat)

  datatype Event = Event(task: nat, op: Op)

  /** One task's variables, the values its open scopes will restore, innermost last, and what it has read. */
  datatype Task = Task(current: Binding, saved: seq<Binding>, seen: seq<Binding>)

  type World = map<nat, Task>

  /** A task's own step. An exit without an open scope cannot occur. */
  function Act(t: Task, op: Op): Task {
    match op
    case ReadOp => t.(seen := t.seen + [t.current])
    case EnterOp(binding) => t.(current := binding, saved := t.saved + [t.current])
    case ExitOp => if t.saved == [] then t else t.(current := t.saved[|t.saved| - 1], saved := t.saved[..|t.saved| - 1])
    case SpawnOp(_) => t
  }

  function ActAll(t: Task, ops: seq<Op>): Task {
    if ops == [] then t else Act(ActAll(t, ops[..|ops| - 1]), ops[|ops| - 1])
  }

  /** Context variables are per task, and a new task starts with a copy of its parent's. */
  function After(world: World, event: Event): World {
    if event.task !in world then world
    else
      var moved := world[event.task := Act(world[event.task], event.op)];
      if event.op.SpawnOp? && event.op.child !in moved then
        moved[event.op.child := Task(world[event.task].current, [], [])]
      else moved
  }

  function AfterAll(world: World, events: seq<Event>): World {
    if events == [] then world else After(AfterAll(world, events[..|events| - 1]), events[|events| - 1])
  }

  /** One task's part of an interleaving. */
  function OwnOps(events: seq<Event>, task: nat): seq<Op> {
    if events == [] then []
    else
      var before, last := OwnOps(events[..|events| - 1], task), events[|events| - 1];
      if last.task == task then before + [last.op] else before
  }

  /** A task's variables depend on its own part of the interleaving alone. */
  lemma {:induction false} OwnOpsDecide(world: World, events: seq<Event>, task: nat)
    requires task in world
    ensures task in AfterAll(world, events)
      && AfterAll(world, events)[task] == ActAll(world[task], OwnOps(events, task))
  {
    if events == [] {
    } else {
      var n := |events| - 1;
      OwnOpsDecide(world, events[..n], task);
      if events[n].task == task {
        var before := OwnOps(events[..n], task);
        assert (before + [events[n].op])[..|before|] == before;
      }
    }
  }

  /** The scopes a task has open after `ops`, outermost first. */
  function OpenScopes(ops: seq<Op>): seq<Binding> {
    if ops == [] then []
    else
      var before := OpenScopes(ops[..|ops| - 1]);
      match ops[|ops| - 1]
      case EnterOp(binding) => before + [binding]
      case ExitOp => if before == [] then [] else before[..|before| - 1]
      case _ => before
  }

  function Innermost(scopes: seq<Binding>, inherited: Binding): Binding {
    if scopes == [] then inherited else scopes[|scopes| - 1]
  }

  lemma {:induction false} OpenScopesDecide(t: Task, ops: seq<Op>)
    requires t.saved == []
    ensures
      var scopes, t' := OpenScopes(ops), ActAll(t, ops);
      && t'.current == Innermost(scopes, t.current)
      && |t'.saved| == |scopes|
      && forall i | 0 <= i < |scopes| :: t'.saved[i] == Innermost(scopes[..i], t.current)
  {
    if ops == [] {
    } else {
      var n := |ops| - 1;
      OpenScopesDecide(t, ops[..n]);
      var before, scopes := OpenScopes(ops[..n]), OpenScopes(ops);
      if ops[n].EnterOp? {
        assert scopes[..|before|] == before;
        assert forall i | 0 <= i < |before| :: scopes[..i] == before[..i];
      } else if ops[n].ExitOp? && before != [] {
        assert forall i | 0 <= i <= |scopes| :: scopes[..i] == before[..i];
        assert before[..|before| - 1] == scopes;
      }
    }
  }

  /**
   * However tasks interleave, each reads the binding of its own innermost open scope, or what it
   * inherited when it was started, and each open scope will restore the one around it.
   */
  lemma TasksReadTheirOwnInnermostScope(world: World, events: seq<Event>, task: nat)
    requires task in world && world[task].saved == []
    ensures
      var scopes := OpenScopes(OwnOps(events, task));
      var inherited := world[task].current;
      && task in AfterAll(world, events)
      && var t := AfterAll(world, events)[task];
         && t.current == Innermost(scopes, inherited)
         && |t.saved| == |scopes|
         && forall i | 0 <= i < |scopes| :: t.saved[i] == Innermost(scopes[..i], inherited)
  {
    OwnOpsDecide(world, events, task);
    OpenScopesDecide(world[task], OwnOps(events, task));
  }

  // ----- Trees of scopes, interleaved

  /** The accesses a body makes, in order: a scope is left whether or not its body raised. */
  function Trace(body: seq<Code>): (seq<Op>, bool) {
    if body == [] then ([], false)
    else
      match body[0]
      case Read =>
        var (later, raised) := Trace(body[1..]);
        ([ReadOp] + later, raised)
      case Raise => ([], true)
      case Scope(binding, inner) =>
        var (ops, raised) := Trace(inner);
        var scope := [EnterOp(binding)] + ops + [ExitOp];
        if raised then (scope, true)
        else
          var (later, raisedLater) := Trace(body[1..]);
          (scope + later, raisedLater)
      case Try(attempt) =>
        var (later, raised) := Trace(body[1..]);
        (Trace(attempt).0 + later, raised)
      case Spawn(child) =>
        var (later, raised) := Trace(body[1..]);
        ([SpawnOp(child)] + later, raised)
  }

  lemma {:induction false} ActAllAppend(t: Task, a: seq<Op>, b: seq<Op>)
    ensures ActAll(t, a + b) == ActAll(ActAll(t, a), b)
  {
    if b == [] {
      assert a + b == a;
    } else {
      var n := |b| - 1;
      assert (a + b)[..|a| + n] == a + b[..n];
      ActAllAppend(t, a, b[..n]);
    }
  }

  /** A task after it has read `seen` more, its variables as they were. */
  function HavingSeen(t: Task, seen: seq<Binding>): Task {
    t.(seen := t.seen + seen)
  }

  lemma ActAllOne(t: Task, op: Op)
    ensures ActAll(t, [op]) == Act(t, op)
  {
    assert [op][..0] == [];
  }

  /** Two stretches that each leave the variables as they were, one after the other. */
  lemma SeenInTurn(t: Task, a: seq<Op>, b: seq<Op>, seenFirst: seq<Binding>, seenThen: seq<Binding>)
    requires ActAll(t, a) == HavingSeen(t, seenFirst)
    requires ActAll(HavingSeen(t, seenFirst), b) == HavingSeen(HavingSeen(t, seenFirst), seenThen)
    ensures ActAll(t, a + b) == HavingSeen(t, seenFirst + seenThen)
  {
    hide ActAll;
    ActAllAppend(t, a, b);
    assert t.seen + seenFirst + seenThen == t.seen + (seenFirst + seenThen);
  }

  /** A scope around accesses that end as they began does so too. */
  lemma ScopeRestores(t: Task, binding: Binding, ops: seq<Op>, seen: seq<Binding>)
    requires ActAll(Act(t, EnterOp(binding)), ops) == HavingSeen(Act(t, EnterOp(binding)), seen)
    ensures ActAll(t, [EnterOp(binding)] + ops + [ExitOp]) == HavingSeen(t, seen)
  {
    hide ActAll;
    ActAllOne(t, EnterOp(binding));
    ActAllAppend(t, [EnterOp(binding)], ops);
    ActAllAppend(t, [EnterOp(binding)] + ops, [ExitOp]);
    ActAllOne(HavingSeen(Act(t, EnterOp(binding)), seen), ExitOp);
    assert (t.saved + [t.current])[..|t.saved|] == t.saved;
  }

  /** The accesses of a body leave the variables as they were and read what it should observe. */
  lemma {:induction false} TraceReadsWhatIsObserved(t: Task, body: seq<Code>)
    ensures ActAll(t, Trace(body).0) == HavingSeen(t, Observed(body, t.current).0)
    ensures Trace(body).1 == Observed(body, t.current).1
    decreases body
  {
    if body == [] {
    } else {
      hide ActAll;
      var rest := body[1..];
      match body[0]
      case Raise =>
        ActAllNothing(t);
      case Read =>
        ActAllOne(t, ReadOp);
        TraceReadsWhatIsObserved(HavingSeen(t, [t.current]), rest);
        SeenInTurn(t, [ReadOp], Trace(rest).0, [t.current], Observed(rest, t.current).0);
      case Scope(binding, inner) =>
        var seen := Observed(inner, binding).0;
        TraceReadsWhatIsObserved(Act(t, EnterOp(binding)), inner);
        ScopeRestores(t, binding, Trace(inner).0, seen);
        TraceReadsWhatIsObserved(HavingSeen(t, seen), rest);
        SeenInTurn(t, [EnterOp(binding)] + Trace(inner).0 + [ExitOp], Trace(rest).0, seen, Observed(rest, t.current).0);
      case Try(attempt) =>
        var seen := Observed(attempt, t.current).0;
        TraceReadsWhatIsObserved(t, attempt);
        TraceReadsWhatIsObserved(HavingSeen(t, seen), rest);
        SeenInTurn(t, Trace(attempt).0, Trace(rest).0, seen, Observed(rest, t.current).0);
      case Spawn(child) =>
        ActAllOne(t, SpawnOp(child));
        TraceReadsWhatIsObserved(t, rest);
        SeenInTurn(t, [SpawnOp(child)], Trace(rest).0, [], Observed(rest, t.current).0);
        assert [] + Observed(rest, t.current).0 == Observed(rest, t.current).0;
    }
  }

  lemma ActAllNothing(t: Task)
    ensures ActAll(t, []) == HavingSeen(t, [])
  {
  }

  /**
   * Scope discipline: in any interleaving in which a task runs a body of nested and sequential
   * scopes that may raise and catch, the task reads exactly what the body observes alone, and
   * its variables end as they began, whatever other tasks do and start meanwhile.
   */
  lemma InterleavedBodiesReadTheirOwn(world: World, events: seq<Event>, task: nat, body: seq<Code>)
    requires task in world && OwnOps(events, task) == Trace(body).0
    ensures task in AfterAll(world, events)
    ensures AfterAll(world, events)[task] == HavingSeen(world[task], Observed(body, world[task].current).0)
  {
    OwnOpsDecide(world, events, task);
    TraceReadsWhatIsObserved(world[task], body);
  }

  /**
   * A task started inside a scope keeps that scope's binding for its whole body, even after its parent
   * has left the scope.
   */
  lemma SpawnedBodiesKeepWhatTheyInherit(world: World, parent: nat, child: nat, events: seq<Event>, body: seq<Code>)
    requires parent in world && child !in world && OwnOps(events, child) == Trace(body).0
    ensures
      var world' := AfterAll(After(world, Event(parent, SpawnOp(child))), events);
      var inherited := world[parent].current;
      child in world' && world'[child] == Task(inherited, [], Observed(body, inherited).0)
  {
    InterleavedBodiesReadTheirOwn(After(world, Event(parent, SpawnOp(child))), events, child, body);
  }
}
