/**
 * What the audit log says about who called and about the approval: which keys of an event are
 * the server's own word in every run, and which merely repeat the caller.
 */
module Attribution {
  import opened Accounting
  import opened Approval
  import opened Auth
  import opened ClientCodes
  import opened Contexts
  import opened GatePath
  import opened Governance
  import opened Machine
  import opened Outcomes
  import opened Redaction
  import opened Serialisation
  import opened Text

  /** The `extra` an event carries in its context. */
  function ToldExtra(e: AuditEvent): Fields {
    if "extra" in e.context && e.context["extra"].Dict? then e.context["extra"].fields else map[]
  }

  /** An event's context holds `text` under `key` of its `extra`. */
  ghost predicate Tells(e: AuditEvent, key: string, text: string) {
    key in ToldExtra(e) && ToldExtra(e)[key] == Str(text)
  }

  /** Under `key` the event holds what the caller itself asserted there, redacted, or nothing if it asserted nothing. */
  ghost predicate TellsAsClaimed(e: AuditEvent, key: string, gate: Gate, r: Request) {
    SameAt(ToldExtra(e), RedactFields(ClaimedExtra(gate, r)), key)
  }

  /** An event names no one but `subject` under the given identity field. */
  ghost predicate NamesNoOther(e: AuditEvent, field: string, subject: string) {
    field in e.context ==> e.context[field] == Str(subject)
  }

  /** The keys the gate writes survive redaction. */
  lemma ApprovalKeysAreNotSensitive(key: string)
    requires key in ["approval_status", "approval_reason", "approval_id"]
    ensures !IsSensitiveKey(key)
  {
    hide IsSensitiveKey;
    if key == "approval_status" {
      LackingLettersIsNotSensitive(key, ['k', 'e', 'w', 'w', 'h', 'k', 'k', 'c']);
    } else {
      LackingLettersIsNotSensitive(key, ['k', 't', 'w', 'w', 'h', 'k', 'k', 'c']);
    }
  }

  lemma AuthKeysAreNotSensitive(key: string)
    requires key in ["auth_trust", "auth_subject_id"]
    ensures !IsSensitiveKey(key)
  {
    hide IsSensitiveKey;
    LackingLettersIsNotSensitive(key, ['k', if key == "auth_trust" then 'e' else 'r', 'w', 'w', 'o', 'k', 'k', 'l']);
  }

  /** An event carries the `extra` of the context it was made with, redacted. */
  lemma ToldExtraIsRedacted(e: AuditEvent, context: Option<GovernanceContext>)
    requires e.context == SafeContext(context)
    ensures ToldExtra(e) == RedactFields(ExtraOf(context))
  {
    hide IsSensitiveKey, Ids.AsDict;
    assert RedactFields(map[]) == map[];
    if context.Some? {
      SanitisedContextKeepsIds(context.value);
      IdsDictExactly(context.value.ids, "extra");
      assert RedactFields(context.value.extra).Keys == context.value.extra.Keys;
    }
  }

  /** What a text under a harmless key of the context's `extra` becomes in the event. */
  lemma SafeContextTells(e: AuditEvent, context: GovernanceContext, key: string)
    requires e.context == SafeContext(Some(context))
    requires key in context.extra && context.extra[key].Str? && !IsSensitiveKey(key)
    ensures Tells(e, key, context.extra[key].text)
  {
    hide IsSensitiveKey, SafeContext, ToldExtra;
    ToldExtraIsRedacted(e, Some(context));
    assert RedactFields(context.extra)[key] == Redact(context.extra[key]);
  }

  lemma RedactedAlike(a: Fields, b: Fields, key: string)
    requires SameAt(a, b, key)
    ensures SameAt(RedactFields(a), RedactFields(b), key)
  {
    hide IsSensitiveKey;
  }

  /** What an identity field of the context becomes in the event. */
  lemma SafeContextNames(e: AuditEvent, context: GovernanceContext, subject: string)
    requires e.context == SafeContext(Some(context))
    requires !Conflicts(context.ids.agentId, subject) && !Conflicts(context.ids.clientId, subject)
    ensures NamesNoOther(e, "agent_id", subject) && NamesNoOther(e, "client_id", subject)
  {
    hide RedactFields, Ids.AsDict;
    SanitisedContextKeepsIds(context);
    IdsDictExactly(context.ids, "agent_id");
    IdsDictExactly(context.ids, "client_id");
  }

  /**
   * In every run, an event of a call is marked as trusted exactly when the call presented the
   * configured secret, and then names the configured subject and no other agent or client,
   * whatever ids and `extra` the caller asserted. Otherwise its subject is only the caller's claim.
   */
  lemma AuditTellsWhoCalled(gate: Gate, s: State, i: nat, e: AuditEvent)
    requires Reachable(gate, s) && i < |s.calls| && e in Trail(s.log, i)
    requires gate.security.Some? && gate.security.value.Valid()
    ensures
      var config := gate.security.value;
      if Proves(config, SecretOf(gate, s.calls[i].request)) then
        && Tells(e, "auth_trust", "trusted") && Tells(e, "auth_subject_id", config.authSubjectId)
        && NamesNoOther(e, "agent_id", config.authSubjectId) && NamesNoOther(e, "client_id", config.authSubjectId)
      else
        Tells(e, "auth_trust", "asserted") && TellsAsClaimed(e, "auth_subject_id", gate, s.calls[i].request)
  {
    hide ResolveAuthentication, Prepare, SafeContext, Tells, NamesNoOther, Proves, Remaining, IsSensitiveKey,
      CompleteTrail;
    AuditGrammar(gate, s, i);
    ReachableInv(gate, s);
    assert CallInv(gate, s, i);
    var c := s.calls[i];
    EventsNeedPreparation(gate, s, i);
    PreparedContext(gate, c.request);
    OwnContextTellsWhoCalled(gate, c.request, c.verdict, e);
  }

  lemma EventsNeedPreparation(gate: Gate, s: State, i: nat)
    requires Inv(gate, s) && i < |s.calls| && Trail(s.log, i) != []
    ensures Prepare(gate, s.calls[i].request).Ok?
  {
    hide Prepare, ApplyApproval, EntriesAfterApproval, Decide, Remaining, EntriesAfter;
    assert CallInv(gate, s, i);
  }

  lemma OwnContextTellsWhoCalled(gate: Gate, r: Request, verdict: Option<Validation>, e: AuditEvent)
    requires Wrapped(r) && gate.security.Some? && gate.security.value.Valid() && Prepare(gate, r).Ok?
    requires e.context == SafeContext(OwnContext(gate, r, verdict))
    ensures
      var config := gate.security.value;
      if Proves(config, SecretOf(gate, r)) then
        && Tells(e, "auth_trust", "trusted") && Tells(e, "auth_subject_id", config.authSubjectId)
        && NamesNoOther(e, "agent_id", config.authSubjectId) && NamesNoOther(e, "client_id", config.authSubjectId)
      else
        Tells(e, "auth_trust", "asserted") && TellsAsClaimed(e, "auth_subject_id", gate, r)
  {
    hide ResolveAuthentication, Prepare, SafeContext, Tells, NamesNoOther, Proves, IsSensitiveKey;
    var config, secret := gate.security.value, SecretOf(gate, r);
    PreparedContext(gate, r);
    BindingIsExact(config, r.ambient.assertedVar, secret);
    BoundExtraIsTruthful(config, r.ambient.assertedVar, secret, "auth_trust");
    BindingSucceeds(config, r.ambient.assertedVar, secret);
    AuthKeysAreNotSensitive("auth_trust");
    AuthKeysAreNotSensitive("auth_subject_id");
    var own := OwnContext(gate, r, verdict).value;
    SafeContextTells(e, own, "auth_trust");
    if Proves(config, secret) {
      SafeContextTells(e, own, "auth_subject_id");
      SafeContextNames(e, own, config.authSubjectId);
    } else {
      SubjectIsClaimed(gate, r);
      ToldExtraIsRedacted(e, Some(own));
      RedactedAlike(own.extra, ClaimedExtra(gate, r), "auth_subject_id");
    }
  }

  /**
   * In every run, the events of a call carry exactly the ids its scope asserts, each under its own
   * name, and none without a configuration to bind them under.
   */
  lemma AuditTellsTheIds(gate: Gate, s: State, i: nat, e: AuditEvent, name: string)
    requires Reachable(gate, s) && i < |s.calls| && e in Trail(s.log, i) && name != "extra"
    ensures
      var id := NamedId(ScopeIds(gate, s.calls[i].request), name);
      (name in e.context <==> id.Some?) && (id.Some? ==> e.context[name] == Str(id.value))
  {
    hide Prepare, SafeContext, Remaining, CompleteTrail, ScopeIds, Ids.AsDict, NamedId, WithVerdict;
    AuditGrammar(gate, s, i);
    ReachableInv(gate, s);
    assert CallInv(gate, s, i);
    EventsNeedPreparation(gate, s, i);
    var c := s.calls[i];
    var own := OwnContext(gate, c.request, c.verdict);
    assert e.context == SafeContext(own);
    PreparedWith(gate, c.request);
    OwnIds(gate, c.request, c.verdict);
    SafeContextIds(own, name);
  }

  /** In every run, nothing the log holds under a key that names a secret is anything but three stars. */
  lemma AuditHidesSecrets(gate: Gate, s: State, i: nat, e: AuditEvent)
    requires Reachable(gate, s) && i < |s.calls| && e in Trail(s.log, i)
    ensures SecretFree(Dict(e.context)) && SecretFree(Dict(e.extra))
  {
    hide Prepare, SafeContext, Remaining, CompleteTrail, RedactFields;
    AuditGrammar(gate, s, i);
    var c := s.calls[i];
    var own := OwnContext(gate, c.request, c.verdict);
    assert e.context == SafeContext(own);
    SafeContextIsSecretFree(own);
    KnownFlagIsKept(IdentityOf(gate, c.request).known);
    ExtraIsSecretFree(e.extra);
  }

  lemma SafeContextIsSecretFree(context: Option<GovernanceContext>)
    ensures SecretFree(Dict(SafeContext(context)))
  {
    if context.Some? {
      RedactFixedPoints(Dict(context.value.AsDict()));
    }
  }

  lemma ExtraIsSecretFree(extra: Fields)
    requires RedactFields(extra) == extra
    ensures SecretFree(Dict(extra))
  {
    RedactFixedPoints(Dict(extra));
  }

  lemma OwnIds(gate: Gate, r: Request, verdict: Option<Validation>)
    requires Wrapped(r) && Prepare(gate, r).Ok?
    ensures OwnContext(gate, r, verdict).GetOr(GovernanceContext(NO_IDS, map[])).ids == ScopeIds(gate, r)
  {
    hide Prepare;
    PreparedWith(gate, r);
  }

  lemma SafeContextIds(context: Option<GovernanceContext>, name: string)
    requires name != "extra"
    ensures
      var id := NamedId(context.GetOr(GovernanceContext(NO_IDS, map[])).ids, name);
      (name in SafeContext(context) <==> id.Some?) && (id.Some? ==> SafeContext(context)[name] == Str(id.value))
  {
    hide RedactFields, Ids.AsDict;
    if context.Some? {
      SanitisedContextKeepsIds(context.value);
      IdsDictExactly(context.value.ids, name);
    }
  }

  lemma SubjectIsClaimed(gate: Gate, r: Request)
    requires Wrapped(r) && gate.security.Some? && gate.security.value.Valid() && Prepare(gate, r).Ok?
    requires !Proves(gate.security.value, SecretOf(gate, r))
    ensures SameAt(Prepare(gate, r).value.context.GetOr(GovernanceContext(NO_IDS, map[])).extra, ClaimedExtra(gate, r),
      "auth_subject_id")
  {
    hide ResolveAuthentication, Prepare, Proves, SecretOf;
    PreparedContext(gate, r);
    BoundExtraIsTruthful(gate.security.value, r.ambient.assertedVar, SecretOf(gate, r), "auth_subject_id");
  }

  /** The call asks the store: a store is configured, and the tool mutates or a token comes with the call. */
  predicate AsksStore(gate: Gate, r: Request) {
    gate.hasStore && (IsMutation(gate, r) || TokenOf(gate, r).Some?)
  }

  lemma VerdictExactlyWhenAsked(gate: Gate, s: State, i: nat)
    requires Inv(gate, s) && i < |s.calls| && Trail(s.log, i) != []
    ensures Prepare(gate, s.calls[i].request).Ok?
    ensures s.calls[i].verdict.Some? <==> AsksStore(gate, s.calls[i].request)
  {
    hide ApplyApproval, EntriesAfterApproval, Decide, Remaining, EntriesAfter, ResolveExecutionAuth, TokenOf, SecretOf,
      Validate;
    assert CallInv(gate, s, i);
    EventsNeedPreparation(gate, s, i);
  }

  /** Where an approval key of a call's context comes from. */
  lemma OwnApprovalKeys(gate: Gate, r: Request, verdict: Option<Validation>, key: string)
    requires Prepare(gate, r).Ok? && key in ["approval_status", "approval_reason", "approval_id"]
    ensures
      var extra := ExtraOf(OwnContext(gate, r, verdict));
      if verdict.Some? && key == "approval_status" then
        key in extra && extra[key] == Str(StatusText(verdict.value.status))
      else if verdict.Some? && key == "approval_reason" then key in extra && extra[key] == Str(verdict.value.reasonCode)
      else if verdict.Some? && verdict.value.grant.Some? then
        key in extra && extra[key] == Str(verdict.value.grant.value.approvalId)
      else SameAt(extra, ClaimedExtra(gate, r), key)
  {
    hide Prepare, ClaimedExtra;
    assert key[1] == 'p' && "auth_status"[1] == "auth_subject_id"[1] == "auth_scheme"[1] == "auth_trust"[1] == 'u';
    PreparationKeepsClaims(gate, r, key);
  }

  /**
   * In every run, an event holds the store's own status and reason exactly if the call asked the
   * store, and the store's approval id exactly if the verdict came with a grant. Under each of
   * these keys it otherwise holds what the caller itself asserted there.
   */
  lemma AuditTellsTheVerdict(gate: Gate, s: State, i: nat, e: AuditEvent)
    requires Reachable(gate, s) && i < |s.calls| && e in Trail(s.log, i)
    ensures
      var Call(r, _, _, verdict, _) := s.calls[i];
      && (verdict.Some? <==> AsksStore(gate, r))
      && (if verdict.Some? then
            Tells(e, "approval_status", StatusText(verdict.value.status))
              && Tells(e, "approval_reason", verdict.value.reasonCode)
          else
            TellsAsClaimed(e, "approval_status", gate, r) && TellsAsClaimed(e, "approval_reason", gate, r))
      && (if verdict.Some? && verdict.value.grant.Some? then
         Tells(e, "approval_id", verdict.value.grant.value.approvalId)
          else TellsAsClaimed(e, "approval_id", gate, r))
  {
    hide Prepare, SafeContext, IsSensitiveKey, Remaining, CompleteTrail, ToldExtra, ClaimedExtra, OwnContext, AsksStore,
      EntriesAfter;
    AuditGrammar(gate, s, i);
    ReachableInv(gate, s);
    var c := s.calls[i];
    VerdictExactlyWhenAsked(gate, s, i);
    var own := OwnContext(gate, c.request, c.verdict);
    assert e.context == SafeContext(own);
    ToldExtraIsRedacted(e, own);
    forall key | key in ["approval_status", "approval_reason", "approval_id"]
      ensures SameAt(ExtraOf(own), ClaimedExtra(gate, c.request), key) ==> TellsAsClaimed(e, key, gate, c.request)
      ensures key in ExtraOf(own) && ExtraOf(own)[key].Str? ==> Tells(e, key, ExtraOf(own)[key].text)
    {
      ApprovalKeysAreNotSensitive(key);
      if SameAt(ExtraOf(own), ClaimedExtra(gate, c.request), key) {
        RedactedAlike(ExtraOf(own), ClaimedExtra(gate, c.request), key);
      }
      if key in ExtraOf(own) {
        assert RedactFields(ExtraOf(own))[key] == Redact(ExtraOf(own)[key]);
      }
    }
    OwnApprovalKeys(gate, c.request, c.verdict, "approval_status");
    OwnApprovalKeys(gate, c.request, c.verdict, "approval_reason");
    OwnApprovalKeys(gate, c.request, c.verdict, "approval_id");
  }

  // ----- What a caller can put into the log

  /** A gate as the runtime builds it, with a tool that reads and one that mutates. */
  function StoreGate(): Gate {
    var gate := UnguardedGate();
    gate.(catalog := map["read" := ReadOnly, "deploy" := Mutation], hasStore := true)
  }

  const FORGED := IntegrationContext(
    NO_IDS, map["approval_status" := Str("granted"), "approval_id" := Str("forged"), "auth_subject_id" := Str("root")],
      Asserted)

  /** A call without secret or token that asserts an approval and a subject. */
  function ForgingCall(tool: string, body: Body): Request {
    Request(tool, map[], body, Ambient(None, Some(FORGED), None, None), None, None, None)
  }

  lemma ForgedContextIsValid()
    ensures FORGED.Valid()
  {
    hide IsSensitiveKey, Strip;
    forall key | key in FORGED.extra ensures ValidExtraItem(key, FORGED.extra[key]) {
      if key == "auth_subject_id" {
        AuthKeysAreNotSensitive(key);
      } else {
        ApprovalKeysAreNotSensitive(key);
      }
      assert key[0] == 'a';
      NotBlank(key);
    }
  }

  lemma NotBlank(s: string)
    requires s != "" && !IsSpace(s[0])
    ensures Strip(s) != ""
  {
    var a, b := StripSplits(s);
    assert Strip(s) == "" ==> s == a + b;
  }

  lemma ForgingCallIsDecided(tool: string, body: Body)
    requires tool in ["read", "deploy"]
    ensures Wrapped(ForgingCall(tool, body)) && TokenOf(StoreGate(), ForgingCall(tool, body)) == None
    ensures Serve(StoreGate(), ForgingCall(tool, body), map[], 0).events != []
  {
    hide ResolveExecutionAuth, Strip, Remaining, Serve;
    var gate, r := StoreGate(), ForgingCall(tool, body);
    assert tool[0] in ['r', 'd'];
    NotBlank(tool);
    EnforcementIsExact(gate.security.value, None, SecretOf(gate, r), r.ambient);
    assert Prepare(gate, r).Ok?;
    var p := Prepare(gate, r).value;
    ServeIsApprovalThenRemainder(gate, r, map[], 0);
    RemainingAfterDecision(gate, r, p, ApplyApproval(gate, p, map[], 0).value);
  }

  lemma StoreGateIsRuntimes(body: Body)
    ensures RuntimeGate(StoreGate()) && StoreGate().security.Some? && StoreGate().security.value.Valid()
  {
    hide IsSensitiveKey, ValidExtra;
    SelfApprovalIsValid(body);
  }

  lemma ForgingRun(tool: string, body: Body) returns (s: State)
    requires tool in ["read", "deploy"]
    ensures Reachable(StoreGate(), s)
    ensures |s.calls| == 1 && s.calls[0].request == ForgingCall(tool, body) && Trail(s.log, 0) != []
  {
    hide Serve, Prepare, EntriesAfter, Run, Trail, KeepsFree;
    var gate, r := StoreGate(), ForgingCall(tool, body);
    ForgingCallIsDecided(tool, body);
    var actions;
    actions, s := AtomicExecutionIsARun(gate, Start(gate, 0), r, 0);
    TrailAfterAll([], 0, Serve(gate, r, map[], 0).events, 0);
    assert [] + Tag(0, Serve(gate, r, map[], 0).events) == s.log;
    NothingLogged();
  }

  lemma UntokenedVerdict(gate: Gate, s: State, i: nat)
    requires Inv(gate, s) && i < |s.calls| && s.calls[i].verdict.Some? && TokenOf(gate, s.calls[i].request) == None
    ensures s.calls[i].verdict.value == Validation(Missing, None, "approval_missing")
  {
    hide EntriesAfter, TokenOf, ResolveExecutionAuth, CallInv, Inv;
    RecordedVerdict(gate, s, i);
  }

  /**
   * What merely repeats the caller can be false. At a gate with a store and the default policy,
   * a call of either tool without secret or token is logged with an approval id no one issued
   * and a subject no one proved; one that reads is logged as granted too.
   */
  lemma ForgedApprovalIsLogged(tool: string, body: Body) returns (s: State)
    requires tool in ["read", "deploy"]
    ensures RuntimeGate(StoreGate()) && FORGED.Valid() && Reachable(StoreGate(), s)
    ensures |s.calls| == 1 && s.calls[0].request == ForgingCall(tool, body) && Trail(s.log, 0) != []
    ensures forall e | e in Trail(s.log, 0) ::
              && Tells(e, "approval_id", "forged") && Tells(e, "auth_subject_id", "root")
              && Tells(e, "auth_trust", "asserted")
              && Tells(e, "approval_status", if tool == "read" then "granted" else "missing")
  {
    hide Inv, Reachable, Tells, TellsAsClaimed, Trail, SecretOf, TokenOf;
    var gate, r := StoreGate(), ForgingCall(tool, body);
    StoreGateIsRuntimes(body);
    ForgedContextIsValid();
    hide RuntimeGate, IntegrationContext.Valid;
    ForgingCallIsDecided(tool, body);
    s := ForgingRun(tool, body);
    ReachableInv(gate, s);
    if s.calls[0].verdict.Some? {
      UntokenedVerdict(gate, s, 0);
    }
    forall e | e in Trail(s.log, 0)
      ensures Tells(e, "approval_id", "forged") && Tells(e, "auth_subject_id", "root")
        && Tells(e, "auth_trust", "asserted")
      ensures Tells(e, "approval_status", if tool == "read" then "granted" else "missing")
    {
      AuditTellsWhoCalled(gate, s, 0, e);
      AuditTellsTheVerdict(gate, s, 0, e);
      ForgedClaimsSurvive(gate, r, e);
    }
  }

  lemma NothingLogged()
    ensures Trail([], 0) == []
  {
  }

  lemma ForgedClaimsSurvive(gate: Gate, r: Request, e: AuditEvent)
    requires gate.security.Some? && r.ambient.assertedVar == Some(FORGED)
    ensures TellsAsClaimed(e, "approval_id", gate, r) ==> Tells(e, "approval_id", "forged")
    ensures TellsAsClaimed(e, "approval_status", gate, r) ==> Tells(e, "approval_status", "granted")
    ensures TellsAsClaimed(e, "auth_subject_id", gate, r) ==> Tells(e, "auth_subject_id", "root")
  {
    hide IsSensitiveKey, ToldExtra;
    ApprovalKeysAreNotSensitive("approval_id");
    ApprovalKeysAreNotSensitive("approval_status");
    AuthKeysAreNotSensitive("auth_subject_id");
    var claimed := ClaimedExtra(gate, r);
    assert RedactFields(claimed)["approval_id"] == Redact(claimed["approval_id"]);
    assert RedactFields(claimed)["approval_status"] == Redact(claimed["approval_status"]);
    assert RedactFields(claimed)["auth_subject_id"] == Redact(claimed["auth_subject_id"]);
  }
}
