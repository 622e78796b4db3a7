# Yasin-MCP: a verified model of the governed call path

Yasin-MCP exposes tools to MCP clients and sends every tool call through one gate. This project
models that gate and what stands around it, and proves what the server relies on: approvals are
spent once, the audit log records every call as it went and says which of its statements are the
server's own, concurrent calls are serialisable, slots never leak, credentials bind the identity they
claim, and nothing beneath a sensitive key reaches a log.

## How it is organised

The governed call path is modelled twice and the two are connected.

* **Code layer.** `Approval.InMemoryApprovalStore`, `Governance.InMemoryAuditRecorder`,
  `GatePath.BoundedSemaphore` and `GatePath.GovernanceGate` are classes whose methods make the same
  accesses to shared state as the Python, in the same order; what `execute` does before its first
  such access is one call of the function `Prepare`. Their contracts equate the new state and the result with pure
  functions of the old state: `Validate` and `Consume` for the store, `Serve` for one whole call.
* **Transition system.** `Machine` runs any number of wrapped calls at once. Every access to shared
  state (slot, lock-protected approval step, each audit append, release) is a step of its own, so
  every interleaving is a run. A step uses the functions that the methods are proved equal to.
* **The connection.** `Serialisation.Serialisable` says every run looks like calls executed
  atomically by `Serve` in the order of their commit points; `Serialisation.AtomicExecutionIsARun`
  says each such atomic execution is itself a run; `Serialisation.EveryRunHasASerialTwin` joins the
  two; `GatePath.GovernanceGate.Execute` and `Call` say the code executed alone is `Serve`.

A commit point is the approval step under the store's lock. Calls that fail before it, or that do
not use the store, read no shared state other than slots and log, and commit at a step of their own.

| file | contents |
|---|---|
| `Outcomes.dfy`, `Text.dfy` | options and results; the Python string operations and their laws |
| `Redaction.dfy`, `Errors.dfy`, `Contexts.dfy` | value trees and redaction; errors and client codes; integration and governance contexts |
| `Auth.dfy`, `Transport.dfy`, `RequestState.dfy` | authentication and binding; Bearer middleware; request-scoped variables |
| `Approval.dfy`, `Governance.dfy`, `GatePath.dfy` | approval store; catalogue, policy, audit; the gate |
| `Machine.dfy` | the concurrent state machine and its invariant |
| `Serialisation.dfy`, `Slots.dfy`, `Accounting.dfy`, `Attribution.dfy`, `Isolation.dfy`, `ClientCodes.dfy`, `Answers.dfy` | the theorems about it |
| `Retry.dfy`, `Ordering.dfy`, `Docs.dfy`, `Discovery.dfy` | retry loop; sorting; documentation ranking; capability discovery |

The clock is an input of every operation that reads it and never runs backwards along a run. A token
from `issue` is an input that is fresh. A tool body is a function from its keyword arguments and the
surroundings of the call to a value or an exception. The upstream of an adapter is a function from requests or paths to responses.
The environment and the context variables a call finds are fields of its request.

## Where the code and its documentation differ

The model follows the code.

* `docs/STAGE13_LIVE_ECOSYSTEM_INTEGRATION.md:43` promises `INVALID_CONTEXT` for a malformed context.
  A JSON object that is not a valid context raises `ValidationError`, which is not a `ValueError`, so
  it escapes `src/yasin_mcp/transport/remote.py:69-81`. `Transport.InvalidContextAnswerExact` says
  which headers get the promised answer, `Transport.FromMappingExact` which objects are valid, and
  `Transport.TrustedClaimEscapes` shows one that is not.
* `docs/STAGE11_GOVERNED_CAPABILITIES_APPROVAL.md:18` says a caller's `approval_status=granted` is not
  trusted without a server token. A gate without a store does trust it when no token is presented:
  `Accounting.SelfApprovalRuns` is such a call, `Accounting.StorelessMutationRunsExactly` says exactly
  which calls run that way, and `Accounting.RunsExactly` that none does with a store.
* The audit log repeats a caller's own `approval_status`, `approval_reason` and `approval_id` wherever
  the store has nothing to write over them (`src/yasin_mcp/governance/gate.py:130-157`): all three for
  a call that does not ask the store, and the id for one whose verdict carries no grant.
  `Attribution.AuditTellsTheVerdict` gives the exact condition for each key, and
  `Attribution.ForgedApprovalIsLogged` a call of either kind that is logged with a forged approval.
* `docs/STAGE14_PRODUCTION_RESILIENCE.md:9` says a rejected call's details hold only the limit; the
  code also puts `reason_code` there. `GatePath.RejectionTellsLimitAndReason` shows that both reach
  the client at every limit, so no rejected call meets what the document promises.
* `passwd` is a sensitive part for redaction but is missing from the keys blocked in client error
  details. `Errors.PayloadDetailsExposeOnlyPasswd` says it is the only one, and
  `Errors.PasswdDetailSurvives` shows a detail that reaches the client.
* `issue` strips the tool name and `validate_and_consume` compares with the name as called, so a tool
  registered with a space at either end of its name can never be approved (`Approval.ApprovableExactly`).
* A bearer token met by a configured secret makes the middleware raise instead of answering when
  either is not ASCII (`Transport.MiddlewareRaisesExactlyWhen`). The gate calls the same token
  malformed; `Transport.NonAsciiBearerRaises` shows both, and `Transport.AccentedTokenIsSuch` such a token.
* A blank tool name ends in a `ValueError` that the wrapper does not translate
  (`ClientCodes.CodeTellsTheStage`).

## Model

| member | source | states |
|---|---|---|
| Serialisation.Serialisable | src/yasin_mcp/governance/gate.py:178-313 | in every run of any number of calls the approval map is that of executing issues and committed calls one after another; each returned call has exactly one place in that order and there has the same outcome, audit trail, store verdict and body start |
| Serialisation.SerialOrderRespectsRealTime | src/yasin_mcp/governance/gate.py:207-216 | a call that returned before another arrived comes before it in the serial order |
| Serialisation.AtomicExecutionIsARun | src/yasin_mcp/governance/gate.py:291-313 | from any state with a free slot, arriving and running undisturbed is a run that takes no other slot and whose entries, log, clock, history and outcome are those of atomic execution, slot given back |
| Serialisation.SchedulesPlay | src/yasin_mcp/governance/gate.py:291-313 | every sequence of issues and calls with fresh tokens and non-decreasing times can be run one call at a time, each call ending as served at its turn with that trail |
| Serialisation.EveryRunHasASerialTwin | src/yasin_mcp/governance/gate.py:178-313 | for every run there is another with at most one call in flight at any moment, one call for each that committed and the same approval map, in which each returned call has a counterpart of its own with the same outcome, body start and audit trail, in the order of the commit points |
| Serialisation.StepContinues | src/yasin_mcp/governance/gate.py:216-281 | no step moves a commit point already passed, and new ones come after it |
| Machine.StepKeepsInv | src/yasin_mcp/governance/gate.py:178-313 | each step of any call keeps: what it has recorded and run so far plus what remains equals its atomic execution at its commit point; calls before theirs have left no trace |
| Machine.ReachableInv | src/yasin_mcp/governance/gate.py:178-313 | that invariant holds in every reachable state |
| Machine.ServeIsApprovalThenRemainder | src/yasin_mcp/governance/gate.py:215-281 | executing a call atomically is its approval step followed by its remaining steps, events and body start included |
| Machine.RemainingStep | src/yasin_mcp/governance/gate.py:218-281 | one step past approval records at most one event, keeps the call's tool, strictly reduces its remaining work, starts the body at most once |
| Slots.SlotConservation | src/yasin_mcp/governance/gate.py:82-84 | in every reachable state free slots plus calls in flight equal the limit, which is the configured `max_concurrent_requests` or else 32; at most that many bodies run, and no release can exceed the bound |
| Slots.RejectedExactlyWhenFull | src/yasin_mcp/governance/gate.py:295-305 | a call is rejected exactly when as many calls are in flight as the limit allows, and a rejected call changes no entry, event, slot or other call |
| Slots.StepDrains | src/yasin_mcp/governance/gate.py:244-313 | every step of a call strictly reduces the total remaining work |
| Slots.RunsDrain | src/yasin_mcp/governance/gate.py:244-313 | in every run the steps taken by calls and the work left are covered by the work at its start and a fixed amount for each call that arrived |
| Slots.Drained | src/yasin_mcp/governance/gate.py:306-313 | each call in flight always has a step that reduces the work; while work remains there is such a call; when none remains all slots are free and ALLOW decisions equal RESULT plus FAILURE events |
| Accounting.AuditGrammar | src/yasin_mcp/governance/gate.py:218-281 | under any interleaving the log of one call is a prefix of a complete trail, exactly as long as the call has come, with its ALLOW recorded before its body starts; at return it is the trail matching the outcome; each event has its own tool, risk, known flag, sanitised context, decision, success flag and wording |
| Attribution.AuditTellsWhoCalled | src/yasin_mcp/auth/binding.py:59-79 | in every run an event of a call is marked trusted exactly when the call presented the configured secret, and then names the configured subject and no other agent or client, whatever ids and extra the caller asserted; otherwise its subject is what the caller claimed |
| Attribution.AuditTellsTheIds | src/yasin_mcp/governance/types.py:72-92 | in every run the events of a call carry exactly the ids its scope asserts, each under its own name |
| Attribution.AuditHidesSecrets | src/yasin_mcp/governance/audit.py:84-99 | in every run nothing an event holds at any depth under a key that names a secret is anything but three stars |
| Attribution.AuditTellsTheVerdict | src/yasin_mcp/governance/gate.py:130-167 | in every run an event carries the store's status and reason if and only if its call asks the store (a mutation or a presented token, with a store) and the store's approval id if and only if the verdict has a grant; otherwise each of these keys holds what the caller claimed |
| Attribution.ForgedApprovalIsLogged | src/yasin_mcp/governance/gate.py:153-167 | concrete runs at a gate with a store: without secret or token, a reading call is logged as granted, and a reading or mutating one with an approval id and a subject of its own invention |
| Accounting.MutationsAreApproved | src/yasin_mcp/governance/gate.py:123-176 | with a store and the default policy every mutation body started in any run follows a grant in the same call for that very tool, unspent and unexpired at the lock, whose request and project, and subject if the call names an agent, are the ids the call's own scope asserts |
| Accounting.MutationRunsExactly | src/yasin_mcp/governance/gate.py:123-176 | with a store a wrapped mutation runs exactly when authentication lets it through and its stripped token is known, unspent, unexpired and bound to no other tool, request, project or subject than the call has |
| Accounting.StoreGrantsExactly | src/yasin_mcp/approval/store.py:91-127 | the store grants a wrapped call of any tool exactly on those conditions, stated on its token, its tool and the ids its scope asserts |
| Accounting.PreparedWith | src/yasin_mcp/governance/gate.py:207-216 | a wrapped call reaches approval with its own tool, its own token and the ids its scope asserts, or no context without a configuration |
| Accounting.TokensAreSpentOnce | src/yasin_mcp/approval/store.py:69-127 | in any run no two calls are granted the same single-use token, and a granted one stays consumed in the store |
| Accounting.ReplaysAreCaught | src/yasin_mcp/approval/store.py:80-90 | a call that commits after a single-use token was granted and presents it again is told it is a replay |
| Accounting.ExpiryIsFinal | src/yasin_mcp/approval/types.py:32-37 | once one call was told a token has expired, no later call is granted it |
| Accounting.StartsAreBoundedByTokens | src/yasin_mcp/governance/policy.py:34-52 | mutation starts under single-use grants are at most the consumed tokens, which are at most the issued ones; all other starts rest on reusable grants |
| Accounting.TokensConsumedAreTokensSpent | src/yasin_mcp/approval/store.py:120-127 | in any run the consumed tokens are exactly those some call was granted as single-use, each by one call, so both are equally many |
| Accounting.RunsExactly | src/yasin_mcp/governance/gate.py:130-176 | for each risk, the exact condition on token, store verdict and the caller's own claim under which a body of a prepared call runs; the claim counts only for a mutation without a store and without a token |
| Accounting.StorelessMutationRunsExactly | src/yasin_mcp/governance/gate.py:134-141 | without a store a wrapped mutation runs exactly when its scope asserts it is granted, no token comes with it and authentication lets it through |
| Accounting.SelfApprovalRuns | src/yasin_mcp/governance/policy.py:34-52 | a concrete gate and call: a mutation without a store, approved by nothing but its own valid assertion, runs |
| Accounting.PreparationKeepsTheClaim | src/yasin_mcp/auth/binding.py:59-79 | authentication neither adds nor removes a caller's claim of approval |
| Accounting.PreparationKeepsClaims | src/yasin_mcp/auth/binding.py:59-79 | binding changes no key of the caller's extra but the four it writes itself |
| Accounting.HighRiskSpendsTheToken | src/yasin_mcp/governance/gate.py:215-253 | a valid single-use token presented for a high-risk tool is consumed although the call is refused |
| ClientCodes.CodeTellsTheStage | src/yasin_mcp/errors/client_contract.py:60-96 | for every wrapped call at a runtime gate the refusing stage determines the client's code; the body runs exactly at the last stage; only a blank tool name escapes untranslated |
| ClientCodes.SameCodeSameStage | src/yasin_mcp/errors/client_contract.py:60-96 | two refused calls, at whatever gates and states, get the same code exactly when the same stage refused them |
| ClientCodes.RunsAnswerByStage | src/yasin_mcp/governance/gate.py:291-313 | in every run a rejected call is answered by the slot stage and a returned one by the stage it ends at in the store of its commit point; if its body ran, the client gets the value it gave, the kind, message, code and unwithheld details of a structured error it raised, or any other exception as it is |
| ClientCodes.AnswerIsTheBodys | src/yasin_mcp/governance/gate.py:255-313 | an admitted call whose body runs is answered by exactly what the body gives or raises on the unreserved arguments, of which there is one mapping only |
| Answers.RefusalTellsTheClient | src/yasin_mcp/errors/client_contract.py:60-124 | every refusal of a wrapped call reaches the client with the kind, message and details of its stage, word for word: limit, secret, conflicting id, approval reason and status, tool, decision, risk and known flag |
| Answers.StorelessTokenTold | src/yasin_mcp/governance/gate.py:134-141 | a mutation presenting a token where no store is configured is refused as such, with no event and no change |
| Answers.UndecidedPolicyTold | src/yasin_mcp/governance/gate.py:109-121 | a policy that raises or returns no decision ends the call with that exception or a validation error, and without any event |
| ClientCodes.PreparationFailure | src/yasin_mcp/governance/gate.py:189-215 | preparation fails exactly for a missing or wrong secret, an identity conflict or a blank name, each with its own code |
| ClientCodes.RefusalAfterPreparation | src/yasin_mcp/governance/gate.py:216-253 | after preparation a call is refused exactly at the approval, unknown-tool, high-risk or missing-approval stage, each with its own code |
| ClientCodes.RejectedApprovalCode | src/yasin_mcp/governance/gate.py:169-176 | an approval rejection is never taken for a context conflict, whatever the reason in its message |
| Isolation.BoundSecretIsVisible | src/yasin_mcp/auth/request_state.py:24-31 | some body gives back the secret its scope has bound |
| Isolation.RemoteGateIgnoresEnvironmentApproval | src/yasin_mcp/governance/gate.py:50-63 | at a remote gate an approval token in the process environment changes nothing about a call but what its body reads there itself |
| Isolation.NearestSecretWins | src/yasin_mcp/auth/credential.py:33-47 | with an explicit secret, a non-null argument or a bound scope, secrets farther out change nothing about a call but what its body reads there itself |
| GatePath.GovernanceGate.Execute | src/yasin_mcp/governance/gate.py:178-281 | preparation, approval on the real store, the audit appends and the body in their order give the outcome, entries and events of atomic execution |
| GatePath.GovernanceGate.Call | src/yasin_mcp/governance/gate.py:291-313 | without a free slot the answer is the coded rejection with the limit and the reason code as its details, and nothing changes; otherwise the call is atomic execution and its outcome is relayed as it is; free slots are afterwards what they were |
| GatePath.RepliesRelay | src/yasin_mcp/governance/gate.py:306-310 | a value is handed on unchanged, a structured error by kind, message, code and unwithheld details, any other exception as it is |
| GatePath.SecretOfExactly | src/yasin_mcp/auth/credential.py:33-47 | a secret comes from the call, then its argument, then its scope, then a non-empty environment variable |
| GatePath.TokenOfExactly | src/yasin_mcp/governance/gate.py:50-63 | an approval token comes from the call, then its argument, then, unless the gate is remote, a non-empty environment variable |
| GatePath.RejectionTellsLimitAndReason | src/yasin_mcp/errors/client_contract.py:114-124 | at every limit the client of a rejected call gets the limit and the reason code, never the limit alone |
| GatePath.GovernanceGate.ApplyApprovalNow | src/yasin_mcp/governance/gate.py:123-176 | the branches on the real store give the specified context or rejection and leave the specified entries |
| GatePath.BoundedSemaphore.Acquire | src/yasin_mcp/governance/gate.py:295-296 | a slot is taken exactly when one is free, without waiting |
| GatePath.BoundedSemaphore.Release | src/yasin_mcp/governance/gate.py:311-313 | a slot is given back unless that would exceed the limit, which is an error |
| Approval.OneShot | src/yasin_mcp/approval/store.py:69-127 | over every run of the store, after a single-use token was granted every presentation of it, for any tool, context and time, is a replay and changes nothing |
| Approval.GrantedExactly | src/yasin_mcp/approval/store.py:64-127 | a token is granted exactly when, stripped, it is known, unspent, unexpired and matches the tool, the context's request and project ids, and, where both sides name one, the subject or else the context's agent |
| Approval.ReasonTellsExactly | src/yasin_mcp/approval/store.py:80-120 | each reason for refusing a known token holds exactly when its test is the first to fail, stated on the token, the call and the ids of its context |
| Approval.UnmatchedExactly | src/yasin_mcp/approval/store.py:63-75 | a token is missing exactly when blank and unknown exactly when no entry has it |
| Approval.StatusGoesWithReason | src/yasin_mcp/approval/types.py:11-18 | the status text told to contexts and clients is the one that goes with the reason, and a grant comes with every status but missing and invalid |
| Approval.ApprovableExactly | src/yasin_mcp/approval/store.py:31-53 | some run can approve a tool if and only if its name is non-empty and has no surrounding space |
| Approval.RunsKeepEntriesGood | src/yasin_mcp/approval/store.py:41-53 | between any two points of any run no entry is lost, grants never change, consumed flags never go back, and consumed implies single-use |
| Approval.InMemoryApprovalStore.Issue | src/yasin_mcp/approval/store.py:21-53 | issuing succeeds exactly for a non-blank name and a positive lifetime, adds one unconsumed, unexpired entry and changes no other; otherwise the error says which of the two was wrong |
| Approval.InMemoryApprovalStore.ValidateAndConsume | src/yasin_mcp/approval/store.py:55-127 | the tests in the code's order give the specified verdict; a granted single-use entry is marked, nothing else changes |
| Governance.SafeContextIsStable | src/yasin_mcp/governance/gate.py:219-221 | the recorder's second sanitising leaves a call's sanitised context as it is |
| Governance.SanitisedHidesSecrets | src/yasin_mcp/governance/audit.py:60-62 | a recorded event is secret-free at every depth and otherwise agrees with the event given |
| Governance.InMemoryAuditRecorder.Record | src/yasin_mcp/governance/audit.py:84-99 | exactly one event is appended, sanitised and free of secrets |
| Governance.InMemoryAuditRecorder.OfType | src/yasin_mcp/governance/audit.py:104-105 | the loop gives the selection of one type, which the next two rows describe |
| Governance.SelectKeepsThatType | src/yasin_mcp/governance/audit.py:104-105 | a selection has exactly the events of its type, as often as the log has them |
| Governance.SelectKeepsOrder | src/yasin_mcp/governance/audit.py:104-105 | selecting from one stretch of log after another gives one selection after the other |
| Governance.ToolRiskCatalog.Register | src/yasin_mcp/governance/catalog.py:18-23 | a blank name is refused and changes nothing; any other name gets the risk, known before or not |
| Redaction.RedactHidesSecrets | src/yasin_mcp/audit/logging_setup.py:30-44 | two trees that differ only beneath sensitive keys, at any depth, through lists and tuples, redact to the same tree |
| Redaction.RedactKeepsTheRest | src/yasin_mcp/audit/logging_setup.py:35-44 | trees that redact to the same tree differ only beneath sensitive keys |
| Redaction.RedactIdempotent | src/yasin_mcp/audit/logging_setup.py:35-44 | redacting twice is redacting once |
| Redaction.RedactFixedPoints | src/yasin_mcp/audit/logging_setup.py:35-44 | a redacted tree holds only blanks under sensitive keys, and exactly such trees are left alone |
| Redaction.SensitiveExactly | src/yasin_mcp/audit/logging_setup.py:30-32 | the sensitive keys are exactly those in which one of the eight names is spelled out somewhere, capitals and dashes for underscores allowed |
| Redaction.SpellingDoesNotMatter | src/yasin_mcp/audit/logging_setup.py:30-32 | keys alike up to case and up to dash and underscore are equally sensitive |
| Redaction.SurroundingsDoNotHide | src/yasin_mcp/audit/logging_setup.py:30-32 | nothing written around a sensitive key makes it harmless |
| Redaction.RedactBlanksEverySpelling | src/yasin_mcp/audit/logging_setup.py:35-44 | in every mapping exactly the values under keys spelling out a name are replaced by three stars |
| Errors.PayloadDetailsExposeOnlyPasswd | src/yasin_mcp/errors/client_contract.py:99-124 | details sent to a client are scalars, and a sensitive key survives among them exactly when it contains `passwd` |
| Errors.PasswdDetailSurvives | src/yasin_mcp/errors/client_contract.py:99-124 | a detail named `passwd` reaches the client in any error, though redaction blanks it |
| Errors.ErrorReachesTheClient | src/yasin_mcp/errors/client_contract.py:114-124 | a client gets the kind and message of every error and exactly the details whose keys spell out none of nine names, scalars as they are and containers by type |
| Errors.CodeTellsTheError | src/yasin_mcp/errors/client_contract.py:60-96 | each of the ten codes is sent for exactly the errors listed for it, by kind, decision, status, reason and wording |
| Errors.ClassNameExactly | src/yasin_mcp/governance/gate.py:257-268 | a failed body is logged under the class name of the structured error it raised |
| Errors.CollectSafeDetails | src/yasin_mcp/errors/client_contract.py:114-124 | the loop keeps exactly the items under unblocked keys, containers reduced to their type name |
| Contexts.SanitisedContextKeepsIds | src/yasin_mcp/governance/types.py:72-92 | sanitising any governance context leaves every identity field unchanged and rewrites only `extra` |
| Contexts.AsDictExactly | src/yasin_mcp/governance/types.py:72-92 | the dictionary of a context holds exactly its present ids, each under its own name, and its non-empty extra |
| Contexts.ContextRoundTrip | src/yasin_mcp/contracts/integration_context.py:218-230 | mapping any validated context to governance and rebuilding it always succeeds with the same ids and extra, trust reset to asserted |
| Contexts.ValidateOptionalIdExact | src/yasin_mcp/contracts/integration_context.py:51-75 | an id is accepted exactly when null or an identifier once stripped, and is kept in that form |
| Contexts.IdentifierExactly | src/yasin_mcp/contracts/integration_context.py:65-75 | an identifier has 1 to 128 characters, starts with an ASCII letter or digit and has only those and seven signs |
| Contexts.ValidExtraExactly | src/yasin_mcp/contracts/integration_context.py:78-115 | an extra is acceptable exactly with at most 16 keys, none blank or spelling out a secret name, and scalars of at most 256 characters |
| Contexts.AssertExact | src/yasin_mcp/contracts/integration_context.py:136-160 | construction succeeds exactly on acceptable ids and extra without a claim of trust, and keeps the ids stripped |
| Contexts.RebuildExact | src/yasin_mcp/auth/enforcement.py:35-46 | a call's own context can be asserted exactly when its ids are identifiers once stripped and its extra is within bounds |
| Contexts.CollectExtra | src/yasin_mcp/contracts/integration_context.py:78-115 | the loop accepts exactly the dictionaries within all bounds, unchanged, and otherwise stops at the first faulty item |
| Contexts.ContextKeysAreNotSensitive | src/yasin_mcp/governance/types.py:72-92 | no key of a context's dictionary is one that redaction blanks |
| Auth.Configure | src/yasin_mcp/config/config.py:58-99 | a configuration is accepted exactly when each field is in the range or set stated, the subject once stripped, and the result is that configuration |
| Auth.SecretIsExact | src/yasin_mcp/auth/shared_secret.py:20-72 | exactly those who present the configured ASCII secret are authenticated, as the configured subject; every other status and reason has its exact condition on the two secrets, and no identity |
| Auth.BindingIsExact | src/yasin_mcp/auth/binding.py:32-100 | binding fails exactly for a required secret not proved or an impersonation by someone who proved it; otherwise it is authenticated exactly when proved, with the subject from configuration and ids unaltered |
| Auth.BoundExtraIsTruthful | src/yasin_mcp/auth/binding.py:59-79 | whatever the caller puts in `extra`, the bound status is the one its secret deserves, trust says whether it was proved, subject and scheme are overwritten only then, and other keys pass through |
| Auth.RequiredSecretIsConfigured | src/yasin_mcp/auth/pipeline.py:46-54 | for validated configurations the rewrite of an unconfigured secret to a missing credential never fails a call |
| Auth.EnforcementIsExact | src/yasin_mcp/auth/enforcement.py:22-54 | for every call, with or without a context of its own, enforcement fails exactly for a context that cannot be asserted, a required secret not proved or a proved caller's impersonation, and else binds the asserted ids |
| Auth.ImpersonationIsInvalidContext | src/yasin_mcp/auth/binding.py:82-100 | an asserted agent or client other than the subject, and nothing else, is refused, with `INVALID_CONTEXT` |
| Transport.BearerTokenIsExact | src/yasin_mcp/transport/bearer.py:39-46 | a token is read from a header exactly when the header is that token after a `Bearer` scheme in any case (section 2.1 of RFC 6750), padded by spaces |
| Text.SpaceExactly | src/yasin_mcp/transport/bearer.py:39-46 | the characters stripped and split at are the ten ASCII and nineteen other white-space characters |
| Text.AsciiExactly | src/yasin_mcp/auth/shared_secret.py:46-53 | secrets can be compared exactly if no character is above 0x7f |
| Transport.OnlySecretBearersReachTheApp | src/yasin_mcp/transport/remote.py:57-110 | under required authentication the inner app is reached exactly by non-http scopes, health paths and requests that carry the configured ASCII secret as bearer token and no context header or one that describes a context; it is bound to that secret and that context |
| Transport.AdmissionIsExact | src/yasin_mcp/transport/remote.py:57-120 | for every request, authentication required or not, the exact condition on context header, token and configured secret of each answer: 400, 401 for a missing token, 401 for another token, an exception, and admission with what it is bound to |
| Transport.AdmissionBindsWhatIsCarried | src/yasin_mcp/transport/remote.py:83-120 | required or not, an admitted request is bound to the context its header describes and to the configured secret exactly if it carries it |
| Transport.MiddlewareRaisesExactlyWhen | src/yasin_mcp/transport/remote.py:66-120 | the middleware ends in an exception exactly for a bounded header that decodes to an object describing no context or fails otherwise than with a ValueError, or an acceptable one with a bearer token meeting a secret when either is not ASCII |
| Transport.NonAsciiBearerRaises | src/yasin_mcp/auth/shared_secret.py:46-53 | for every token and configured secret not both ASCII the middleware raises while the gate calls the token malformed |
| Transport.FromMappingExact | src/yasin_mcp/contracts/integration_context.py:162-216 | a mapping becomes a context exactly when it has known fields only, acceptable ids and extra, and no claim of trust, and then the context of those parts |
| Transport.ContextReadsItsFields | src/yasin_mcp/contracts/integration_context.py:205-216 | each id of a parsed context is the stripped text of the field of its own name |
| Transport.InvalidContextAnswerExact | src/yasin_mcp/transport/remote.py:28-81 | the 400 answer is given exactly to headers that are oversized, whose decoding raises a ValueError, or that are not an object |
| Transport.TrustedClaimEscapes | src/yasin_mcp/contracts/integration_context.py:136-160 | a header claiming trusted identity is not answered with 400 but ends in an exception |
| Transport.LayersAgree | src/yasin_mcp/transport/remote.py:85-110 | a request the middleware admits, without a credential of its own, is authenticated by the gate as the configured subject unless it impersonates, whatever the environment holds |
| RequestState.ContextVariables.Run | src/yasin_mcp/auth/request_state.py:24-51 | in any tree of nested and sequential scopes that raise, catch and start tasks, each read sees its innermost scope and the variables end as they began |
| RequestState.ContextVariables.RunScoped | src/yasin_mcp/auth/request_state.py:38-51 | a scope shows its body its own binding and restores what was there before on every way out |
| RequestState.TasksReadTheirOwnInnermostScope | src/yasin_mcp/auth/request_state.py:38-51 | however tasks interleave, each reads its own innermost open scope or what it inherited when started, and each open scope will restore the one around it |
| RequestState.InterleavedBodiesReadTheirOwn | src/yasin_mcp/auth/request_state.py:38-51 | in any interleaving in which a task runs a tree of scopes, it reads exactly what the tree observes alone and its variables end as they began |
| RequestState.SpawnedBodiesKeepWhatTheyInherit | src/yasin_mcp/auth/request_state.py:16-19 | a task started inside a scope reads, for its whole body, as if that scope stayed open, whatever its parent does |
| Retry.GithubGetJson | src/yasin_mcp/reliability/http_retry.py:24-71 | for every upstream and valid policy the loop stops after the first response that is not a 403 or 429 or when the budget is spent, at most three requests in all; each kind of answer has its exact condition on the last response, other faults get out as they are, and the sleeps are exactly a prefix of the backoff table |
| Retry.StopIsUnique | src/yasin_mcp/reliability/http_retry.py:34-66 | the stopping point is determined by policy and upstream |
| Ordering.SortSorts | src/yasin_mcp/adapters/docs.py:182 | sorting by rank and name gives a permutation in ascending order |
| Ordering.AscendingIsUnique | src/yasin_mcp/capabilities/registry.py:43-44 | items with different keys have one ascending order |
| Text.LexLessExactly | src/yasin_mcp/capabilities/registry.py:43-44 | one name comes before another exactly when at their first difference it ends or has the lesser character |
| Docs.YasinDocsAdapter.ListDocuments | src/yasin_mcp/adapters/docs.py:122-148 | the loop that stops early still gives the path-sorted first eligible entries of the whole tree; a truncated tree is an error |
| Docs.YasinDocsAdapter.SearchDocs | src/yasin_mcp/adapters/docs.py:172-182 | a search gives the multiset of hits among the listed documents, each with the greatest number of non-overlapping occurrences, most first and then least path; it fails exactly for an empty query, a truncated tree or an unreadable document, with the error of the first of these |
| Docs.YasinDocsAdapter.GetProjectArchitecture | src/yasin_mcp/adapters/docs.py:199-210 | the first architecture document of the ranking is the best of all listed ones that match; it is not found exactly when there is none; the second content test filters nothing |
| Docs.CountsIffContains | src/yasin_mcp/adapters/docs.py:179-208 | a text has a positive count in a document exactly when it occurs there |
| Docs.CountIsGreatest | src/yasin_mcp/adapters/docs.py:179 | the count is the greatest number of places at which the text occurs without overlapping: so many can be chosen, and no more |
| Docs.MatchesAreGreatest | src/yasin_mcp/adapters/docs.py:173-182 | the number a document is ranked by is that greatest count of the query, both case-folded |
| Docs.GreatestCountIsUnique | src/yasin_mcp/adapters/docs.py:179 | a text has one greatest count in a document |
| Docs.ListingExactly | src/yasin_mcp/adapters/docs.py:128-148 | the listing has as many entries as are eligible, up to the limit, and is the first of them rearranged into ascending paths |
| Docs.EligibleExactly | src/yasin_mcp/adapters/docs.py:129-137 | eligible are blobs of at most a million bytes whose path ends in one of six extensions, capitals allowed |
| Docs.ArchitectureExactly | src/yasin_mcp/adapters/docs.py:205-207 | an architecture document is one whose path spells out that word, capitals allowed |
| Discovery.CapabilityRegistry.Register | src/yasin_mcp/capabilities/registry.py:23-29 | a duplicate name is refused without effect; any other is added alone |
| Discovery.CapabilityRegistry.RegisterMany | src/yasin_mcp/capabilities/registry.py:31-33 | registration succeeds exactly when all names are new and different, and otherwise keeps exactly what came before the first repeated name |
| Discovery.CapabilityRegistry.All | src/yasin_mcp/capabilities/registry.py:43-44 | the result has exactly the registered contracts, names strictly ascending |
| Discovery.SnapshotIsUnique | src/yasin_mcp/capabilities/registry.py:66-77 | a registry has one discovery snapshot only |
| Discovery.DiscoveryIgnoresOrder | src/yasin_mcp/capabilities/registry.py:23-44 | registering the same contracts in any two orders gives one and the same snapshot, holding exactly them |
| Discovery.CatalogFromRegistry | src/yasin_mcp/server/runtime.py:91-98 | the derived risk catalogue knows exactly the registered names with exactly their risks |

## Left out

- HTTP, ASGI and process I/O: sockets, uvicorn, subprocesses, environment reads and the GitHub API are inputs of the decisions they feed.
- Signature and annotation rewriting of wrapped tools, the MCP SDK, JSON formatting and log handlers.
- Token randomness and constant-time comparison: tokens are fresh by assumption and comparison is equality.
- Timestamps of audit events, and the logging recorder.
- Unicode case mapping: `lower` acts on ASCII letters; `casefold` is an arbitrary function.
- Numbers other than integers, mapping keys that are not text, and values of other Python types.
- Exceptions outside `Exception`, recorders that raise, and policies that keep state.
- Tool bodies that themselves use the store, the log or the gate, or that read or change other shared Python objects.
- Changes of the catalogue while calls run.
- Direct `execute` calls with an explicit context, secret or token in the concurrent theorems: `GatePath.GovernanceGate.Execute` covers them alone, and the slot bound is a property of wrapped calls only.
- Fairness of scheduling: `Slots.Drained` says that some step is possible while work remains, not that the scheduler takes it.
- The order of documents that share a path in one tree, which real trees do not have.
- `StaticDecisionPolicy`, `search_docs_scoped`, `list_adrs`, `list_architecture_docs`, `get_adr`, capability lookup by name and the evidence and envelope dataclasses: one lookup, filter or record each, with no state behind it.
- Decoding and path checks of `get_doc`, folded into the outcome of reading a path.
- Regular-expression redaction in the Runflare provider and the compatibility contracts.
- Contexts.ValidateExtra: does not say which of several faulty items the error names; `Contexts.CollectExtra` does, for items in iteration order.
- GatePath.Quoted: shows a tool name between quotes, without the escapes Python adds to names that contain quotes or control characters.
- The wording of validation, documentation and upstream errors raised outside the gate: contracts state their kind, and of the gate's own refusals every word.
- Retry.Interpret: the message of an unclassified HTTP error does not repeat the status number.
- Docs.YasinDocsAdapter.GetProjectArchitecture: the not-found message does not repeat the project name.
- Auth.Configure: the texts of the error messages are abbreviated.
- Discovery.CapabilityRegistry.Register: contracts carry a risk by type; the fallback to read-only for a value that is no risk is not modelled.
