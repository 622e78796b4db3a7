/** The code a client receives for a refused call, and the stage that refused it. */
module ClientCodes {
  import opened Accounting
  import opened Approval
  import opened Auth
  import opened Contexts
  import opened Errors
  import opened GatePath
  import opened Governance
  import opened Isolation
  import opened Machine
  import opened Outcomes
  import opened Redaction
  import opened Text

  /** Where a wrapped call ends if its body does not run; `BlankTool` is not translated for the client. */
  datatype Stage =
    | NoSlot | SecretMissing | SecretWrong | IdentityConflict | BlankTool | ApprovalInvalid
    | ToolUnknown | ToolHighRisk | ApprovalMissing | BodyRuns

  /** How the store would answer the call, in its bound context. */
  function StoreVerdict(gate: Gate, r: Request, entries: Entries, now: int): Status {
    match Prepare(gate, r)
    case Err(_) => Missing
    case Ok(p) => Validate(entries, PresentationOf(p), now).status
  }

  /** The stage, stated on what the caller presents and asserts, the catalogue and the store. */
  function StageOf(gate: Gate, r: Request, free: int, entries: Entries, now: int): Stage {
    var secret := SecretOf(gate, r);
    var proves := gate.security.Some? && Proves(gate.security.value, secret);
    if free <= 0 then NoSlot
    else if gate.security.Some? && gate.security.value.requireAuthentication && !proves then
      if NonEmpty(secret).None? then SecretMissing else SecretWrong
    else if proves && Impersonates(gate.security.value, r.ambient.assertedVar.GetOr(EMPTY_CONTEXT)) then
      IdentityConflict
    else if Strip(r.tool) == "" then BlankTool
    else if (TokenOf(gate, r).Some? || IsMutation(gate, r))
      && StoreVerdict(gate, r, entries, now) !in {Granted, Missing} then
      ApprovalInvalid
    else if r.tool !in gate.catalog then ToolUnknown
    else if gate.catalog[r.tool] == HighRisk then ToolHighRisk
    else if gate.catalog[r.tool] == Mutation && StoreVerdict(gate, r, entries, now) == Missing then ApprovalMissing
    else BodyRuns
  }

  /** What the client gets from the gate: the wrapper of `wrap_tool` as a function of the state it meets. */
  function Answered(gate: Gate, r: Request, free: int, entries: Entries, now: int): Reply {
    if free <= 0 then ToolError(MapMcpError(LimitReached(gate.Limit())))
    else ReplyTo(Serve(gate, r, entries, now).outcome)
  }

  /** The code each refusing stage is known by. */
  function StageCode(stage: Stage): ClientCode
    requires stage != BlankTool && stage != BodyRuns
  {
    match stage
    case NoSlot => CONCURRENCY_LIMIT
    case SecretMissing => AUTHENTICATION_REQUIRED
    case SecretWrong => AUTHENTICATION_FAILED
    case IdentityConflict => INVALID_CONTEXT
    case ApprovalInvalid => VALIDATION_ERROR
    case ToolUnknown => UNKNOWN_TOOL
    case ToolHighRisk => AUTHORIZATION_DENIED
    case ApprovalMissing => APPROVAL_REQUIRED
  }

  /** The gates the runtime builds: default policy, a store, and a validated configuration if any. */
  ghost predicate RuntimeGate(gate: Gate) {
    DefaultGate(gate) && gate.hasStore && (gate.security.Some? ==> gate.security.value.Valid())
  }

  /** Where preparation fails, and with what code. */
  lemma PreparationFailure(gate: Gate, r: Request, entries: Entries, now: int)
    requires RuntimeGate(gate) && Wrapped(r)
    ensures
      var stage := StageOf(gate, r, 1, entries, now);
      var prepared := Prepare(gate, r);
      && (prepared.Err? <==> stage in {SecretMissing, SecretWrong, IdentityConflict, BlankTool})
      && (stage == BlankTool ==> prepared == Err(Foreign("ValueError")))
      && (stage in {SecretMissing, SecretWrong, IdentityConflict} ==>
            prepared.error.Structured? && CodeFor(prepared.error.error) == StageCode(stage))
      && (prepared.Ok? ==>
            && prepared.value.token == TokenOf(gate, r)
            && prepared.value.tool == IdentityOf(gate, r))
  {
    hide Impersonates, Proves, Validate, CodeFor, SecretOf, TokenOf, PresentedSecret, NonEmpty, Strip, DefaultGate;
    SecretOfIsFinal(gate, r);
    if gate.security.Some? {
      hide ResolveExecutionAuth;
      AuthenticationFailure(gate.security.value, SecretOf(gate, r), r.ambient);
    }
  }

  lemma NotEstablishedCode(auth: AuthOutcome)
    requires auth.status in {InvalidCredential, Malformed, MissingCredential}
    ensures CodeFor(NotEstablished(auth)) == if auth.status == MissingCredential then AUTHENTICATION_REQUIRED
      else AUTHENTICATION_FAILED
  {
  }

  lemma AuthenticationFailure(config: ServerConfig, secret: Option<string>, ambient: Ambient)
    requires config.Valid()
    ensures
      var result := ResolveExecutionAuth(Some(config), None, secret, ambient);
      var presented := if secret.Some? then secret else PresentedSecret(ambient);
      && (result.Err? <==> if Proves(config, presented) then
         Impersonates(config, ambient.assertedVar.GetOr(EMPTY_CONTEXT))
                           else config.requireAuthentication)
      && (result.Err? ==>
            CodeFor(result.error)
              == if Proves(config, presented) then INVALID_CONTEXT
                 else if NonEmpty(presented).None? then AUTHENTICATION_REQUIRED else AUTHENTICATION_FAILED)
  {
    hide AuthenticateSharedSecret, Proves, Impersonation, CodeFor, NotEstablished, BoundExtra;
    var presented := if secret.Some? then secret else PresentedSecret(ambient);
    SecretIsExact(config, presented);
    ImpersonationIsInvalidContext(ambient.assertedVar.GetOr(EMPTY_CONTEXT), Identity(config.authSubjectId, SCHEME));
    if config.requireAuthentication && !Proves(config, presented) {
      assert config.Configured();
      NotEstablishedCode(AuthenticateSharedSecret(config.authToken, presented, config.authSubjectId).value);
    }
  }

  const REASONS: seq<string> :=
    ["approval_missing", "approval_unknown", "approval_replayed", "approval_expired", "approval_tool_mismatch",
     "approval_subject_mismatch", "approval_request_mismatch", "approval_project_mismatch", "approval_granted"]

  lemma ReasonsAreListed(entries: Entries, p: Presentation, now: int)
    ensures Validate(entries, p, now).reasonCode in REASONS
  {
  }

  lemma ReasonsLackF(reason: string)
    requires reason in REASONS
    ensures 'f' !in reason
  {
  }

  /** The rejection of an approval is a plain validation error: its message never mentions a conflict. */
  lemma RejectedApprovalCode(toolName: string, v: Validation)
    requires v.reasonCode in REASONS
    ensures CodeFor(ApprovalRejected(toolName, v)) == VALIDATION_ERROR
  {
    ReasonsLackF(v.reasonCode);
    var prefix := "approval rejected: ";
    assert 'f' !in prefix;
    LacksLetter(prefix + v.reasonCode, "conflicts", 3);
    var error := ApprovalRejected(toolName, v);
    assert Detail(error, "reason_code") == v.reasonCode;
    assert "context_mismatch" !in REASONS;
  }

  lemma RefusalCode(tool: ToolIdentity, decision: Decision)
    ensures CodeFor(Refusal(tool, decision))
      == if decision == ApprovalRequired then APPROVAL_REQUIRED
         else if decision == Deny && !tool.known then UNKNOWN_TOOL else AUTHORIZATION_DENIED
  {
  }

  /** How the default policy's refusal of a cleared call is coded. */
  lemma PolicyRefusal(gate: Gate, r: Request, p: Prepared, context: Option<GovernanceContext>)
    requires DefaultGate(gate)
    ensures
      var rest := Remaining(gate, r, Cleared(p, context));
      !rest.runs ==>
        && rest.outcome.Fails? && rest.outcome.raised.Structured?
        && CodeFor(rest.outcome.raised.error)
             == if !p.tool.known then UNKNOWN_TOOL else if p.tool.risk == Mutation then APPROVAL_REQUIRED
               else AUTHORIZATION_DENIED
  {
    assert gate.policy(p.tool, context) == DefaultPolicy(p.tool, context);
    RemainingAfterDecision(gate, r, p, context);
    RefusalCode(p.tool, DefaultPolicy(p.tool, context).decision);
  }

  /** After preparation: approval, then policy. */
  lemma RefusalAfterPreparation(gate: Gate, r: Request, entries: Entries, now: int)
    requires RuntimeGate(gate) && Wrapped(r) && Prepare(gate, r).Ok?
    ensures
      var stage := StageOf(gate, r, 1, entries, now);
      var served := Serve(gate, r, entries, now);
      && (stage == BodyRuns <==> served.ran)
      && (stage != BodyRuns ==>
            served.outcome.Fails? && served.outcome.raised.Structured? && stage != BlankTool && stage != NoSlot
            && CodeFor(served.outcome.raised.error) == StageCode(stage))
  {
    hide Serve, Prepare, Validate, Remaining, CodeFor;
    PreparationFailure(gate, r, entries, now);
    RunsExactly(gate, r, entries, now);
    ServeIsApprovalThenRemainder(gate, r, entries, now);
    var p := Prepare(gate, r).value;
    var v := Validate(entries, PresentationOf(p), now);
    var cleared := ApplyApproval(gate, p, entries, now);
    if cleared.Ok? {
      PolicyRefusal(gate, r, p, cleared.value);
    } else {
      ReasonsAreListed(entries, PresentationOf(p), now);
      RejectedApprovalCode(p.tool.name, v);
    }
  }

  /**
   * Classification: for every wrapped call the body runs exactly at stage `BodyRuns`, every
   * other stage answers with its own code, and a blank tool name alone escapes translation.
   */
  lemma CodeTellsTheStage(gate: Gate, r: Request, free: int, entries: Entries, now: int)
    requires RuntimeGate(gate) && Wrapped(r)
    ensures
      var stage := StageOf(gate, r, free, entries, now);
      var answer := Answered(gate, r, free, entries, now);
      && (stage == BodyRuns <==> free > 0 && Serve(gate, r, entries, now).ran)
      && (stage == BlankTool ==> answer == Uncaught("ValueError"))
      && (stage != BodyRuns && stage != BlankTool ==> answer.ToolError? && answer.payload.code == StageCode(stage))
  {
    hide StageOf, CodeFor, Serve, Prepare, Validate;
    if free <= 0 {
      NoSlotCode(gate, r, free, entries, now);
    } else {
      AnySlotWillDo(gate, r, free, entries, now);
      PreparationFailure(gate, r, entries, now);
      if Prepare(gate, r).Ok? {
        RefusalAfterPreparation(gate, r, entries, now);
      } else {
        UnpreparedIsNotServed(gate, r, entries, now);
      }
    }
  }

  lemma NoSlotCode(gate: Gate, r: Request, free: int, entries: Entries, now: int)
    requires free <= 0
    ensures StageOf(gate, r, free, entries, now) == NoSlot && CodeFor(LimitReached(gate.Limit())) == StageCode(NoSlot)
  {
  }

  lemma AnySlotWillDo(gate: Gate, r: Request, free: int, entries: Entries, now: int)
    requires free > 0
    ensures StageOf(gate, r, free, entries, now) == StageOf(gate, r, 1, entries, now) != NoSlot
  {
    hide SecretOf, TokenOf, StoreVerdict, Proves, Impersonates, IsMutation, Strip, NonEmpty;
  }

  lemma UnpreparedIsNotServed(gate: Gate, r: Request, entries: Entries, now: int)
    requires Prepare(gate, r).Err?
    ensures Serve(gate, r, entries, now) == Served(Fails(Prepare(gate, r).error), [], entries, false)
  {
    hide Prepare;
  }

  /**
   * Two refused calls get the same code exactly when the same stage refused them, whatever gates and
   * states they met.
   */
  lemma SameCodeSameStage(
    gate: Gate, r: Request, free: int, entries: Entries, now: int,
    gate': Gate, r': Request, free': int, entries': Entries, now': int)
    requires RuntimeGate(gate) && Wrapped(r) && RuntimeGate(gate') && Wrapped(r')
    requires StageOf(gate, r, free, entries, now) !in {BodyRuns, BlankTool}
    requires StageOf(gate', r', free', entries', now') !in {BodyRuns, BlankTool}
    ensures Answered(gate, r, free, entries, now).ToolError? && Answered(gate', r', free', entries', now').ToolError?
    ensures Answered(gate, r, free, entries, now).payload.code
      == Answered(gate', r', free', entries', now').payload.code
      <==> StageOf(gate, r, free, entries, now) == StageOf(gate', r', free', entries', now')
  {
    hide StageOf, Answered, RuntimeGate, Wrapped;
    CodeTellsTheStage(gate, r, free, entries, now);
    CodeTellsTheStage(gate', r', free', entries', now');
  }

  // ----- The same on runs of the concurrent machine

  /** What the client of an ended call has received. */
  function ReplyFor(gate: Gate, phase: Phase): Reply
    requires phase.Rejected? || phase.Returned?
  {
    if phase.Rejected? then ToolError(MapMcpError(LimitReached(gate.Limit()))) else ReplyTo(phase.outcome)
  }

  /** The call's body ran exactly if `stage` is the last one, and its client was answered by `stage`. */
  ghost predicate AnsweredBy(gate: Gate, c: Call, stage: Stage)
    requires c.phase.Rejected? || c.phase.Returned?
  {
    var reply := ReplyFor(gate, c.phase);
    && (stage == BodyRuns <==> c.ran)
    && (stage == BlankTool ==> reply == Uncaught("ValueError"))
    && (stage != BodyRuns && stage != BlankTool ==> reply.ToolError? && reply.payload.code == StageCode(stage))
  }

  /** The arguments of a call without the two reserved ones. */
  ghost predicate Unreserved(args: Fields, kwargs: Fields) {
    forall k :: (k in args <==> k in kwargs && k !in {"_yasin_auth_token", "_yasin_approval_token"})
             && (k in args ==> args[k] == kwargs[k])
  }

  /** The client is told how the body ended on the call's own unreserved arguments. */
  ghost predicate RelaysTheBody(reply: Reply, r: Request) {
    exists args :: Unreserved(args, r.kwargs) && Relays(reply, r.body(args, r.ambient))
  }

  lemma BodyArgumentsAreUnreserved(r: Request)
    ensures Unreserved(BodyArguments(r), r.kwargs)
    ensures forall args | Unreserved(args, r.kwargs) :: args == BodyArguments(r)
  {
  }

  /**
   * An admitted call whose body runs is answered by what the body gives or raises on the call's
   * unreserved arguments, of which there is one mapping only.
   */
  lemma AnswerIsTheBodys(gate: Gate, r: Request, free: int, entries: Entries, now: int)
    requires free > 0 && Serve(gate, r, entries, now).ran
    ensures RelaysTheBody(Answered(gate, r, free, entries, now), r)
    ensures forall args, args' | Unreserved(args, r.kwargs) && Unreserved(args', r.kwargs) :: args == args'
  {
    hide Serve, Relays, Unreserved;
    RunningGivesTheBody(gate, r, entries, now);
    BodyArgumentsAreUnreserved(r);
    RepliesRelay(r.body(BodyArguments(r), r.ambient));
  }

  /**
   * Answers of runs: however calls interleave, one that was rejected has the answer of the slot
   * stage, and one that returned has that of the stage it ends at when the store is as it was at
   * the call's commit point; if its body ran, the answer is what the body gave or raised.
   */
  lemma RunsAnswerByStage(gate: Gate, s: State, i: nat)
    requires RuntimeGate(gate) && Reachable(gate, s) && i < |s.calls|
    ensures s.calls[i].phase.Rejected? ==> AnsweredBy(gate, s.calls[i], NoSlot)
    ensures s.calls[i].phase.Returned? ==>
      var c := s.calls[i];
      && c.at.Some? && c.at.value < |s.history| && s.history[c.at.value].CallOp?
      && AnsweredBy(gate, c,
         StageOf(gate, c.request, 1, EntriesAfter(gate, s.history[..c.at.value]), s.history[c.at.value].now))
    ensures s.calls[i].phase.Returned? && s.calls[i].ran ==>
        RelaysTheBody(ReplyFor(gate, s.calls[i].phase), s.calls[i].request)
  {
    hide Serve, StageOf, Prepare, EntriesAfter, Local, GoodEntries, IssuesAreFresh, DefaultGate, RelaysTheBody;
    ReachableInv(gate, s);
    assert CallInv(gate, s, i);
    var c := s.calls[i];
    if c.phase.Returned? {
      var k := c.at.value;
      assert Remaining(gate, c.request, c.phase) == Remainder(c.phase.outcome, [], false);
      CodeTellsTheStage(gate, c.request, 1, EntriesAfter(gate, s.history[..k]), s.history[k].now);
      if c.ran {
        AnswerIsTheBodys(gate, c.request, 1, EntriesAfter(gate, s.history[..k]), s.history[k].now);
      }
    }
  }
}
