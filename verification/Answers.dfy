/** What the client of a refused call is told, word for word, stage by stage. */
module Answers {
  import opened Accounting
  import opened Approval
  import opened Auth
  import opened ClientCodes
  import opened Contexts
  import opened Errors
  import opened GatePath
  import opened Governance
  import opened Machine
  import opened Outcomes
  import opened Redaction
  import opened Text

  const DETAIL_KEYS: set<string> :=
    {"status", "reason_code", "transport", "field", "asserted", "subject_id", "tool", "approval_status", "decision",
     "risk", "known", "limit"}

  lemma DetailsOfAuthenticationAreSent(key: string)
    requires key in ["status", "reason_code", "transport"]
    ensures !IsBlockedDetail(key)
  {
    hide IsBlockedDetail;
    if key == "status" {
      LackingLettersIsNotBlocked(key, ['k', 'e', 'p', 'c', 'o', 'p', 'p', 'p', 'o']);
    } else if key == "reason_code" {
      RejectionKeysAreNotBlocked(key);
    } else {
      LackingLettersIsNotBlocked(key, ['k', 'e', 'w', 'c', 'u', 'k', 'k', 'e', 'u']);
    }
  }

  lemma DetailsOfConflictAreSent(key: string)
    requires key in ["field", "asserted", "subject_id"]
    ensures !IsBlockedDetail(key)
  {
    hide IsBlockedDetail;
    if key == "field" {
      LackingLettersIsNotBlocked(key, ['t', 's', 'p', 'c', 'a', 'a', 'a', 'p', 'a']);
    } else if key == "asserted" {
      LackingLettersIsNotBlocked(key, ['o', 'c', 'p', 'c', 'u', 'p', 'p', 'p', 'u']);
    } else {
      LackingLettersIsNotBlocked(key, ['o', 'r', 'p', 'r', 'a', 'a', 'a', 'p', 'a']);
    }
  }

  lemma DetailsOfApprovalAreSent(key: string)
    requires key in ["tool", "approval_status", "limit"]
    ensures !IsBlockedDetail(key)
  {
    hide IsBlockedDetail;
    if key == "tool" {
      LackingLettersIsNotBlocked(key, ['k', 's', 'p', 'c', 'a', 'a', 'a', 'p', 'a']);
    } else if key == "approval_status" {
      LackingLettersIsNotBlocked(key, ['k', 'e', 'w', 'c', 'h', 'k', 'k', 'e', 'h']);
    } else {
      RejectionKeysAreNotBlocked(key);
    }
  }

  lemma DetailsOfDecisionAreSent(key: string)
    requires key in ["decision", "risk", "known"]
    ensures !IsBlockedDetail(key)
  {
    hide IsBlockedDetail;
    if key == "decision" {
      LackingLettersIsNotBlocked(key, ['t', 'r', 'p', 'r', 'a', 'a', 'a', 'p', 'a']);
    } else if key == "risk" {
      LackingLettersIsNotBlocked(key, ['t', 'e', 'p', 'c', 'a', 'a', 'a', 'p', 'a']);
    } else {
      LackingLettersIsNotBlocked(key, ['t', 's', 'p', 'c', 'a', 'a', 'a', 'p', 'a']);
    }
  }

  /** None of the gate's own details is withheld. */
  lemma DetailsAreSent(error: McpError)
    requires error.details.Keys <= DETAIL_KEYS && forall key | key in error.details :: IsScalar(error.details[key])
    ensures MapMcpError(error).details == error.details
  {
    hide IsBlockedDetail, CodeFor;
    forall key | key in error.details ensures !IsBlockedDetail(key) {
      if key in ["status", "reason_code", "transport"] {
        DetailsOfAuthenticationAreSent(key);
      } else if key in ["field", "asserted", "subject_id"] {
        DetailsOfConflictAreSent(key);
      } else if key in ["tool", "approval_status", "limit"] {
        DetailsOfApprovalAreSent(key);
      } else {
        DetailsOfDecisionAreSent(key);
      }
    }
  }

  /** The error, when it reaches the client, has this kind, message and details. */
  ghost predicate Reads(error: McpError, kind: ErrorKind, message: string, details: Fields) {
    error.kind == kind && error.message == message && MapMcpError(error).details == details
  }

  /** What a refusal at each stage tells the client about the call; `v` is the store's verdict on it. */
  ghost predicate Told(gate: Gate, r: Request, v: Validation, stage: Stage, error: McpError) {
    var named := "'" + r.tool + "'";
    match stage
    case NoSlot =>
      Reads(error, RateLimited, "MCP concurrency limit reached; retry later",
            map["limit" := Number(gate.Limit()), "reason_code" := Str("concurrency_limit")])
    case SecretMissing =>
      Reads(error, ErrorKind.Unauthenticated, "authentication required but not established",
            map["status" := Str("missing_credential"), "reason_code" := Str("credential_missing"),
                "transport" := Str("stdio")])
    case SecretWrong =>
      var malformed := gate.security.Some? && gate.security.value.authToken.Some? && SecretOf(gate, r).Some?
        && !(IsAscii(SecretOf(gate, r).value) && IsAscii(gate.security.value.authToken.value));
      Reads(error, ErrorKind.Unauthenticated, "authentication required but not established",
            map["status" := Str(if malformed then "malformed" else "invalid_credential"),
                "reason_code" := Str(if malformed then "credential_malformed" else "credential_invalid"),
                "transport" := Str("stdio")])
    case IdentityConflict =>
      && gate.security.Some? && r.ambient.assertedVar.Some?
      && var subject, ids := gate.security.value.authSubjectId, r.ambient.assertedVar.value.ids;
         var agent := ids.agentId.Some? && ids.agentId.value != subject;
         var id := if agent then ids.agentId else ids.clientId;
         && id.Some?
         && Reads(error, ValidationError,
                  "asserted " + (if agent then "agent_id" else "client_id") + " conflicts with authenticated subject",
                  map["field" := Str(if agent then "agent_id" else "client_id"),
                    "reason_code" := Str("context_mismatch"),
                      "asserted" := Str(id.value), "subject_id" := Str(subject)])
    case ApprovalInvalid =>
      Reads(error, ValidationError, "approval rejected: " + v.reasonCode,
            map["reason_code" := Str(v.reasonCode), "tool" := Str(r.tool),
              "approval_status" := Str(StatusText(v.status))])
    case ToolUnknown =>
      Reads(error, PolicyDenied, "Governance denied execution of tool " + named,
            map["tool" := Str(r.tool), "decision" := Str("deny"), "risk" := Str("high_risk"), "known" := Flag(false)])
    case ToolHighRisk =>
      Reads(error, PolicyDenied, "Governance denied execution of tool " + named,
            map["tool" := Str(r.tool), "decision" := Str("deny"), "risk" := Str("high_risk"), "known" := Flag(true)])
    case ApprovalMissing =>
      Reads(error, PolicyDenied,
            "Governance requires approval before executing tool " + named + "; execution was not performed",
            map["tool" := Str(r.tool), "decision" := Str("approval_required"), "risk" := Str("mutation"),
                "known" := Flag(true)])
    case _ => true
  }

  /** How authentication fails a wrapped call. */
  lemma AuthenticationError(config: ServerConfig, secret: Option<string>, ambient: Ambient)
    requires config.Valid() && (secret.None? ==> PresentedSecret(ambient).None?)
    requires ResolveExecutionAuth(Some(config), None, secret, ambient).Err?
    ensures
      var error := ResolveExecutionAuth(Some(config), None, secret, ambient).error;
      var impersonation := Impersonation(ambient.assertedVar.GetOr(EMPTY_CONTEXT),
        Identity(config.authSubjectId, SCHEME));
      var auth := AuthenticateSharedSecret(config.authToken, secret, config.authSubjectId);
      if Proves(config, secret) then impersonation == Some(error)
      else auth.Ok? && error == NotEstablished(auth.value) && config.requireAuthentication && config.Configured()
  {
    hide AuthenticateSharedSecret, Proves, Impersonation, NotEstablished, BoundExtra;
    SecretIsExact(config, secret);
    ImpersonationIsInvalidContext(ambient.assertedVar.GetOr(EMPTY_CONTEXT), Identity(config.authSubjectId, SCHEME));
  }

  /** What an unproved secret is told. */
  lemma SecretErrorsRead(config: ServerConfig, secret: Option<string>)
    requires config.Valid() && config.Configured() && !Proves(config, secret)
    ensures
      var auth := AuthenticateSharedSecret(config.authToken, secret, config.authSubjectId);
      var missing := NonEmpty(secret).None?;
      var malformed := !missing && !(IsAscii(secret.value) && IsAscii(config.authToken.value));
      && auth.Ok?
      && Reads(NotEstablished(auth.value), ErrorKind.Unauthenticated, "authentication required but not established",
               map["status" := Str(if missing then "missing_credential"
                                   else if malformed then "malformed" else "invalid_credential"),
                   "reason_code" := Str(if missing then "credential_missing"
                                        else if malformed then "credential_malformed" else "credential_invalid"),
                   "transport" := Str("stdio")])
  {
    hide AuthenticateSharedSecret, Proves, CodeFor, MapMcpError, IsAscii;
    SecretIsExact(config, secret);
    DetailsAreSent(NotEstablished(AuthenticateSharedSecret(config.authToken, secret, config.authSubjectId).value));
  }

  lemma SecretTold(gate: Gate, r: Request, v: Validation)
    requires gate.security.Some? && gate.security.value.Valid() && gate.security.value.Configured()
    requires !Proves(gate.security.value, SecretOf(gate, r))
    ensures
      var config, secret := gate.security.value, SecretOf(gate, r);
      var auth := AuthenticateSharedSecret(config.authToken, secret, config.authSubjectId);
      var stage := if NonEmpty(secret).None? then SecretMissing else SecretWrong;
      auth.Ok? && Told(gate, r, v, stage, NotEstablished(auth.value))
  {
    hide SecretOf, NotEstablished, AuthenticateSharedSecret, Proves, IsAscii, Reads;
    SecretErrorsRead(gate.security.value, SecretOf(gate, r));
  }

  lemma ConflictTold(gate: Gate, r: Request, v: Validation)
    requires gate.security.Some?
    ensures
      var impersonation := Impersonation(
        r.ambient.assertedVar.GetOr(EMPTY_CONTEXT), Identity(gate.security.value.authSubjectId, SCHEME));
      impersonation.Some? ==> Told(gate, r, v, IdentityConflict, impersonation.value)
  {
    hide Impersonation, Reads;
    var asserted := r.ambient.assertedVar.GetOr(EMPTY_CONTEXT);
    ImpersonationReads(asserted, gate.security.value.authSubjectId);
    ImpersonationIsInvalidContext(asserted, Identity(gate.security.value.authSubjectId, SCHEME));
  }

  lemma PreparationTold(gate: Gate, r: Request, v: Validation, entries: Entries, now: int)
    requires RuntimeGate(gate) && Wrapped(r) && Prepare(gate, r).Err?
    requires StageOf(gate, r, 1, entries, now) != BlankTool
    ensures Prepare(gate, r).error.Structured?
    ensures Told(gate, r, v, StageOf(gate, r, 1, entries, now), Prepare(gate, r).error.error)
  {
    hide Validate, CodeFor, SecretOf, TokenOf, PresentedSecret, Strip, DefaultGate, Impersonation, NotEstablished,
      NonEmpty, AuthenticateSharedSecret, Proves, IsAscii, StoreVerdict, Told;
    PreparationFailure(gate, r, entries, now);
    SecretOfIsFinal(gate, r);
    if gate.security.Some? {
      hide ResolveExecutionAuth;
      var config, secret := gate.security.value, SecretOf(gate, r);
      AuthenticationError(config, secret, r.ambient);
      if Proves(config, secret) {
        ConflictTold(gate, r, v);
      } else {
        SecretTold(gate, r, v);
      }
    }
  }

  lemma ImpersonationReads(asserted: IntegrationContext, subject: string)
    ensures
      var ids := asserted.ids;
      var agent := ids.agentId.Some? && ids.agentId.value != subject;
      var id := if agent then ids.agentId else ids.clientId;
      var impersonation := Impersonation(asserted, Identity(subject, SCHEME));
      impersonation.Some? ==>
        && id.Some?
        && Reads(impersonation.value, ValidationError,
                 "asserted " + (if agent then "agent_id" else "client_id") + " conflicts with authenticated subject",
                 map["field" := Str(if agent then "agent_id" else "client_id"),
                   "reason_code" := Str("context_mismatch"),
                     "asserted" := Str(id.value), "subject_id" := Str(subject)])
  {
    hide MapMcpError;
    var impersonation := Impersonation(asserted, Identity(subject, SCHEME));
    if impersonation.Some? {
      DetailsAreSent(impersonation.value);
    }
  }

  /** What the default policy's refusal of a tool tells. */
  lemma RefusalTold(gate: Gate, r: Request, v: Validation, tool: ToolIdentity)
    requires tool.name == r.tool && (!tool.known ==> tool.risk == HighRisk)
    requires tool.risk == HighRisk || tool.risk == Mutation
    ensures
      var approvable := tool.known && tool.risk == Mutation;
      Told(gate, r, v, if approvable then ApprovalMissing else if tool.known then ToolHighRisk else ToolUnknown,
           Refusal(tool, if approvable then ApprovalRequired else Deny))
  {
    hide MapMcpError;
    DetailsAreSent(Refusal(tool, if tool.known && tool.risk == Mutation then ApprovalRequired else Deny));
  }

  lemma RejectionTold(gate: Gate, r: Request, v: Validation)
    ensures Told(gate, r, v, ApprovalInvalid, ApprovalRejected(r.tool, v))
  {
    hide MapMcpError, StatusText;
    DetailsAreSent(ApprovalRejected(r.tool, v));
  }

  lemma PolicyRefuses(gate: Gate, r: Request, p: Prepared, context: Option<GovernanceContext>)
    requires DefaultGate(gate) && !Remaining(gate, r, Cleared(p, context)).runs
    ensures Remaining(gate, r, Cleared(p, context)).outcome
         == (var approvable := p.tool.known && p.tool.risk == Mutation;
             Fails(Structured(Refusal(p.tool, if approvable then ApprovalRequired else Deny))))
  {
    hide Refusal;
    assert gate.policy(p.tool, context) == DefaultPolicy(p.tool, context);
    RemainingAfterDecision(gate, r, p, context);
  }

  lemma DecisionTold(gate: Gate, r: Request, entries: Entries, now: int)
    requires RuntimeGate(gate) && Wrapped(r) && Prepare(gate, r).Ok? && !Serve(gate, r, entries, now).ran
    ensures
      var v := Validate(entries, PresentationOf(Prepare(gate, r).value), now);
      var outcome := Serve(gate, r, entries, now).outcome;
      outcome.Fails? && outcome.raised.Structured?
        && Told(gate, r, v, StageOf(gate, r, 1, entries, now), outcome.raised.error)
  {
    hide Serve, Prepare, Validate, Remaining, CodeFor, MapMcpError, TokenOf, SecretOf, Strip, Proves, Impersonates,
      StatusText, Told, Refusal, ApprovalRejected;
    PreparationFailure(gate, r, entries, now);
    RunsExactly(gate, r, entries, now);
    ServeIsApprovalThenRemainder(gate, r, entries, now);
    var p := Prepare(gate, r).value;
    var v := Validate(entries, PresentationOf(p), now);
    var cleared := ApplyApproval(gate, p, entries, now);
    if cleared.Ok? {
      PolicyRefuses(gate, r, p, cleared.value);
      RefusalTold(gate, r, v, p.tool);
    } else {
      RejectionTold(gate, r, v);
    }
  }

  /** The store's verdict on a call, if the call gets so far. */
  function VerdictOn(gate: Gate, r: Request, entries: Entries, now: int): Validation {
    match Prepare(gate, r)
    case Err(_) => Validation(Missing, None, "approval_missing")
    case Ok(p) => Validate(entries, PresentationOf(p), now)
  }

  /**
   * Every refusal of a wrapped call at a runtime gate is relayed to the client with the kind,
   * the message and all the details of the stage that refused it.
   */
  lemma RefusalTellsTheClient(gate: Gate, r: Request, free: int, entries: Entries, now: int)
    requires RuntimeGate(gate) && Wrapped(r) && StageOf(gate, r, free, entries, now) !in {BodyRuns, BlankTool}
    ensures
      var stage := StageOf(gate, r, free, entries, now);
      exists error ::
        && Told(gate, r, VerdictOn(gate, r, entries, now), stage, error)
        && Relays(Answered(gate, r, free, entries, now), Fails(Structured(error)))
  {
    hide StageOf, Serve, Prepare, Validate, Told, Relays, MapMcpError;
    var v := VerdictOn(gate, r, entries, now);
    if free <= 0 {
      NoSlotCode(gate, r, free, entries, now);
      NoSlotTold(gate, r, v);
      RepliesRelay(Fails(Structured(LimitReached(gate.Limit()))));
    } else {
      AnySlotWillDo(gate, r, free, entries, now);
      CodeTellsTheStage(gate, r, free, entries, now);
      if Prepare(gate, r).Ok? {
        DecisionTold(gate, r, entries, now);
      } else {
        UnpreparedIsNotServed(gate, r, entries, now);
        PreparationTold(gate, r, v, entries, now);
      }
      RepliesRelay(Serve(gate, r, entries, now).outcome);
    }
  }

  lemma NoSlotTold(gate: Gate, r: Request, v: Validation)
    ensures Told(gate, r, v, NoSlot, LimitReached(gate.Limit()))
  {
    hide MapMcpError;
    RejectionTellsLimitAndReason(gate.Limit());
  }

  /** Without a store a mutation presenting a token is refused, and told that no store is configured. */
  lemma StorelessTokenTold(gate: Gate, r: Request, entries: Entries, now: int)
    requires !gate.hasStore && Prepare(gate, r).Ok? && IsMutation(gate, r) && NonEmpty(TokenOf(gate, r)).Some?
    ensures
      var served := Serve(gate, r, entries, now);
      && !served.ran && served.events == [] && served.entries == entries
      && served.outcome.Fails? && served.outcome.raised.Structured?
      && Reads(served.outcome.raised.error, ValidationError, "approval store not configured",
               map["reason_code" := Str("approval_unknown"), "tool" := Str(r.tool)])
  {
    hide MapMcpError, ResolveExecutionAuth, TokenOf, SecretOf;
    DetailsAreSent(StoreNotConfigured(r.tool));
  }

  /** A policy that does not decide, or raises, ends the call without a trace in the log. */
  lemma UndecidedPolicyTold(gate: Gate, r: Request, entries: Entries, now: int)
    requires Prepare(gate, r).Ok? && ApplyApproval(gate, Prepare(gate, r).value, entries, now).Ok?
    ensures
      var p, context := Prepare(gate, r).value, ApplyApproval(gate, Prepare(gate, r).value, entries, now).value;
      var served := Serve(gate, r, entries, now);
      match gate.policy(p.tool, context)
      case Decides(_) => |served.events| >= 2
      case Throws(raised) => served.outcome == Fails(raised) && served.events == [] && !served.ran
      case Undecided(shown) =>
        && served.events == [] && !served.ran && served.outcome.Fails? && served.outcome.raised.Structured?
        && Reads(served.outcome.raised.error, ValidationError, "Policy returned invalid decision " + shown,
                 map["tool" := Str(p.tool.name), "decision" := Str(shown)])
  {
    hide MapMcpError, Prepare, ApplyApproval, EntriesAfterApproval;
    var p, context := Prepare(gate, r).value, ApplyApproval(gate, Prepare(gate, r).value, entries, now).value;
    if Decide(gate, p.tool, context).Err? && Decide(gate, p.tool, context).error.Structured?
      && gate.policy(p.tool, context).Undecided? {
      DetailsAreSent(Decide(gate, p.tool, context).error.error);
    }
  }
}
