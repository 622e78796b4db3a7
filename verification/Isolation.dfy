/** What the result of a call cannot depend on: secrets farther out, and the environment of a remote gate. */
module Isolation {
  import opened Accounting
  import opened Approval
  import opened Auth
  import opened Contexts
  import opened GatePath
  import opened Governance
  import opened Machine
  import opened Outcomes
  import opened Redaction

  /** Helper: a body that runs is given its own arguments without the reserved ones, and ends the call as it ends. */
  lemma RunningGivesTheBody(gate: Gate, r: Request, entries: Entries, now: int)
    requires Serve(gate, r, entries, now).ran
    ensures Serve(gate, r, entries, now).outcome == r.body(BodyArguments(r), r.ambient)
    ensures AUTH_TOKEN_KWARG !in BodyArguments(r) && APPROVAL_TOKEN_KWARG !in BodyArguments(r)
    ensures forall k | k in r.kwargs && k != AUTH_TOKEN_KWARG && k != APPROVAL_TOKEN_KWARG ::
              k in BodyArguments(r) && BodyArguments(r)[k] == r.kwargs[k]
    ensures BodyArguments(r).Keys <= r.kwargs.Keys
  {
    hide Prepare, Decide, Remaining, SafeContext;
    ServeIsApprovalThenRemainder(gate, r, entries, now);
    var p := Prepare(gate, r).value;
    var context := ApplyApproval(gate, p, entries, now).value;
    if Decide(gate, p.tool, context).Ok? {
      RemainingAfterDecision(gate, r, p, context);
    } else {
      RemainingAfterApproval(gate, r, p, context);
    }
  }

  /** Whether a body is started is settled before it is looked at. */
  lemma StartIgnoresTheBody(gate: Gate, r: Request, body: Body, entries: Entries, now: int)
    ensures Serve(gate, r.(body := body), entries, now).ran == Serve(gate, r, entries, now).ran
  {
    hide ApplyApproval, EntriesAfterApproval, Decide, SafeContext, Sanitised, ResolveExecutionAuth, TokenOf, SecretOf,
      RunBody;
    assert TokenOf(gate, r.(body := body)) == TokenOf(gate, r)
      && SecretOf(gate, r.(body := body)) == SecretOf(gate, r) by {
      PresentationIgnoresTheBody(gate, r, body);
    }
    assert Prepare(gate, r.(body := body)) == Prepare(gate, r);
  }

  lemma PresentationIgnoresTheBody(gate: Gate, r: Request, body: Body)
    ensures TokenOf(gate, r.(body := body)) == TokenOf(gate, r) && SecretOf(gate, r.(body := body)) == SecretOf(gate, r)
  {
  }

  /** Answers `Null` to the arguments and surroundings of `r`, and something else to all others. */
  function Probe(r: Request): Body {
    (kwargs, ambient) => if kwargs == BodyArguments(r) && ambient == r.ambient then Gives(Null) else Gives(Flag(true))
  }

  ghost predicate SameForEveryBody(
    gate: Gate, r: Request, entries: Entries, now: int, gate': Gate, r': Request, entries': Entries, now': int)
  {
    forall body: Body ::
      Serve(gate, r.(body := body), entries, now).outcome == Serve(gate', r'.(body := body), entries', now').outcome
  }

  /**
   * Helper: what a body sees is exactly its unreserved arguments and the surroundings of the call. Two
   * started calls end alike whatever the body if and only if they agree on those: reserved
   * arguments, explicit secrets and tokens, the gate, the store and the time are invisible,
   * while the scope's variables and the environment are not.
   */
  lemma BodiesSeeExactly(
    gate: Gate, r: Request, entries: Entries, now: int, gate': Gate, r': Request, entries': Entries, now': int)
    requires Serve(gate, r, entries, now).ran && Serve(gate', r', entries', now').ran
    ensures SameForEveryBody(gate, r, entries, now, gate', r', entries', now')
      <==> BodyArguments(r) == BodyArguments(r') && r.ambient == r'.ambient
  {
    hide Serve;
    forall body: Body
      ensures Serve(gate, r.(body := body), entries, now).outcome == body(BodyArguments(r), r.ambient)
      ensures Serve(gate', r'.(body := body), entries', now').outcome == body(BodyArguments(r'), r'.ambient)
    {
      StartIgnoresTheBody(gate, r, body, entries, now);
      RunningGivesTheBody(gate, r.(body := body), entries, now);
      StartIgnoresTheBody(gate', r', body, entries', now');
      RunningGivesTheBody(gate', r'.(body := body), entries', now');
    }
    if SameForEveryBody(gate, r, entries, now, gate', r', entries', now') {
      var probe := Probe(r);
      assert Serve(gate, r.(body := probe), entries, now).outcome
        == Serve(gate', r'.(body := probe), entries', now').outcome;
      assert probe(BodyArguments(r), r.ambient) == Gives(Null);
    }
  }

  /** The secret a scope binds stays visible: there is a body that returns it. */
  lemma BoundSecretIsVisible(gate: Gate, r: Request, entries: Entries, now: int) returns (body: Body)
    requires Serve(gate, r, entries, now).ran && r.ambient.secretVar.Some?
    ensures Serve(gate, r.(body := body), entries, now).outcome == Gives(Str(r.ambient.secretVar.value))
  {
    body := (_: Fields, ambient: Ambient) => if ambient.secretVar.Some? then Gives(Str(ambient.secretVar.value))
      else Gives(Null);
    StartIgnoresTheBody(gate, r, body, entries, now);
    RunningGivesTheBody(gate, r.(body := body), entries, now);
  }

  /** `body`, seeing `ambient` wherever it runs. */
  function Seeing(body: Body, ambient: Ambient): Body {
    (kwargs, _) => body(kwargs, ambient)
  }

  /** Changed surroundings that prepare a call alike matter to its body only. */
  lemma SurroundingsMatterThroughPreparation(gate: Gate, r: Request, near: Ambient, entries: Entries, now: int)
    requires Prepare(gate, r.(ambient := near)) == Prepare(gate, r)
    ensures Serve(gate, r.(ambient := near), entries, now)
      == Serve(gate, r.(body := Seeing(r.body, near)), entries, now)
  {
    hide ApplyApproval, EntriesAfterApproval, Decide, SafeContext, Sanitised, ResolveExecutionAuth, TokenOf, SecretOf;
    var seeing := r.(body := Seeing(r.body, near));
    assert Prepare(gate, seeing) == Prepare(gate, r) by {
      PresentationIgnoresTheBody(gate, r, Seeing(r.body, near));
    }
    assert RunBody(seeing) == RunBody(r.(ambient := near));
  }

  /**
   * A remote gate takes approvals from the request alone: the environment's token changes
   * nothing about a call but what its body reads there for itself.
   */
  lemma RemoteGateIgnoresEnvironmentApproval(gate: Gate, r: Request, token: Option<string>, entries: Entries, now: int)
    requires gate.security.Some? && gate.security.value.remoteEnabled
    ensures
      var near := r.ambient.(envApproval := token);
      Serve(gate, r.(ambient := near), entries, now) == Serve(gate, r.(body := Seeing(r.body, near)), entries, now)
  {
    PreparationIgnoresEnvironmentApproval(gate, r, token);
    SurroundingsMatterThroughPreparation(gate, r, r.ambient.(envApproval := token), entries, now);
  }

  lemma PreparationIgnoresEnvironmentApproval(gate: Gate, r: Request, token: Option<string>)
    requires gate.security.Some? && gate.security.value.remoteEnabled
    ensures Prepare(gate, r.(ambient := r.ambient.(envApproval := token))) == Prepare(gate, r)
  {
    hide ResolveAuthentication, Rebuild, Resolve, ReservedArgument;
  }

  /**
   * The nearest secret wins. For a call that presents a secret itself, or runs in a scope that
   * binds one, the secrets farther out change nothing but what its body reads there for itself;
   * a secret in the arguments also overrides the scope's.
   */
  lemma NearestSecretWins(gate: Gate, r: Request, near: Ambient, entries: Entries, now: int)
    requires near.assertedVar == r.ambient.assertedVar && near.envApproval == r.ambient.envApproval
    requires
      || r.presentedSecret.Some?
      || (AUTH_TOKEN_KWARG in r.kwargs && r.kwargs[AUTH_TOKEN_KWARG] != Null)
      || (r.ambient.secretVar.Some? && near.secretVar == r.ambient.secretVar)
    ensures Serve(gate, r.(ambient := near), entries, now)
      == Serve(gate, r.(body := Seeing(r.body, near)), entries, now)
  {
    assert Prepare(gate, r.(ambient := near)) == Prepare(gate, r) by {
      hide ResolveAuthentication, Rebuild, Resolve;
    }
    SurroundingsMatterThroughPreparation(gate, r, near, entries, now);
  }
}
