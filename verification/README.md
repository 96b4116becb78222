# Guardian agent runtime: a verified model

The Guardian runtime puts a reference monitor between an agent and its tools.
A request is canonicalized, checked against a delegated capability, a policy
and the environment's invariants, and answered with a short-lived signed
permit. A gateway checks everything that may have changed since, burns the
permit, runs the tool, and records the outcome in a hash-chained log. A tool
call that composes another one goes back through the monitor.

The repository's own formal model is bounded, one delegation level deep, and
not tied to the code (`formal/check_model.py:7-11`). This project models the
code itself, without bounds, in three layers:

1. **Functions on one state value** say what each operation does:
   `Values`, `Canonical`, `Glob`, `Capabilities`, `Stores`, `Policies`,
   `Evidence`, `Composition`, `Runtime`, `Mission`, `Sandbox`.
2. **Objects updated in place**, with the fields and loops of the source, are
   proved to do exactly what those functions say: `CapabilityStores`,
   `PolicyRuntime`, `Evidence.EvidenceLog`, `Monitor`, and the two simulators;
   `JsonText` and `Minimizer` hold the remaining loops.
3. **A transition system and its invariants** carry the safety results over
   whole runs: `Transitions` proves that every call, however deeply it nests,
   is a run of small guarded steps; `Safety` proves what every step keeps;
   `Theorems`, `Readings`, `FreshPermits`, `DeltaV`, `Sandbox`, `MissionRuns`
   and `SandboxRuns` draw the conclusions, and `Acceptance` says when the
   monitor grants and the gateway executes, in both directions.

A run starts from any environment and any store, populated and charged as it may
be, and is any sequence of delegating, revoking, resetting, evaluating, executing
a permit directly at the gateway, requesting, and arbitrary changes of the
environment. The clock is an arbitrary function of the number of readings, so
it may go backwards; the environment is an arbitrary type with arbitrary
snapshot, check and execute functions. `Monitor.GuardianRuntime.State` maps the
objects to the state value; each method's contract is the matching call on it,
so the theorems about `Transitions.After` speak of the objects' states
(`Transitions.AfterNext`).

Where the functions come from:

- `Values.JsonEqual`, `Values.Normalize`, `Canonical.CanonicalizeResource`, `Canonical.Canonicalize`: `src/guardian_runtime/canonical.py:18-150`
- `Glob.ScopeSubset`, `Capabilities.ValueSatisfies`, `ConstraintSubset`, `ValidCapability`, `IsSubset`: `src/guardian_runtime/capabilities/core.py:39-246`
- `Stores.Lineage`, `Add`, `Revoke`, `Status`, `Validate`, `Consume`, `Clone`, `ResetUsage`: `src/guardian_runtime/capabilities/core.py:249-409`
- `Policies.MatchesConstraint`, `RuleMatches`, `Evaluate`, `Revalidate`, `Deadline`, `Record`: `src/guardian_runtime/policy/engine.py:147-452`
- `Evidence.NextEvent`, `ExportBundle`, `VerifyEvents`, `VerifyBundle`: `src/guardian_runtime/evidence/log.py:183-388`
- `Runtime.Evaluate`, `ExecuteRequest`, `RecordExecution`, `RecordDenial`: `src/guardian_runtime/guardian/monitor.py:69-266`
- `Runtime.StaticFault`, `DynamicFault`, `BurnPermit`, `SnapshotResult`, `Execute`, `CrossBoundary`, `ExecuteNested`: `src/guardian_runtime/tools/gateway.py:73-197`
- `Composition.BuildNested`, `Sandbox.Check`, `Sandbox.Exec`: `src/guardian_runtime/simulator/sandbox.py:32-153`
- `Mission.Check`, `Mission.Exec`: `src/guardian_runtime/simulator/mission.py:39-138`

Three results sharpen what the repository says:

- Equal terminal hashes bind two accepted event lists except when one list is
  empty and the other ends in an event whose digest is the genesis constant
  (`Evidence.AcceptedTerminalBinds`).
- The lexical nesting scan and the check after parsing are not the same limit:
  a text of 129 nested empty arrays fails the first and would pass the second
  (`JsonText.ScanIsStricter`); the difference is never more than one level.
- Reordering deny and escalate rules can change which of them is reported, and
  nothing else (`Policies.ReorderingIrrelevant`).

## Model

| member | source | states |
|---|---|---|
| `DeltaV.DelegationCannotMultiply` | src/guardian_runtime/capabilities/core.py:372-396 | In every run without a usage reset, from any accounted store, for any capability that accepts only numbers in [low, high] for `delta_v` (by limits, enumeration, exact value, or not declaring it), the delta-v executed under its whole delegation subtree, of any shape and in any interleaving, is at most the invocations it had left at the start times min(5, max(abs(low), abs(high))) |
| `DeltaV.CumulativeIsBounded` | tests/properties/test_hypothesis_properties.py:32-49 | When every stored capability descends from one root that bounds `delta_v`, the simulator's cumulative delta-v grows by at most the invocations that root had left times the per-request bound, in every run without reset or outside change |
| `DeltaV.CumulativeIsExpended` | src/guardian_runtime/simulator/mission.py:129-130 | Conservation: while the simulator changes only through its tools, its cumulative delta-v is exactly the sum over the burned permits that entered it |
| `DeltaV.ExpendedAtMost` | src/guardian_runtime/simulator/mission.py:63-68 | Over burns with pairwise distinct sequences, what is expended under a capability is at most the per-request bound times the number of distinct permits burned under it |
| `DeltaV.CoverAuthorizes` | src/guardian_runtime/capabilities/core.py:346-396 | A well-issued permit's request is authorized by every capability that covers the named one, not only by the leaf that was checked |
| `Theorems.ExecutionSafety` | src/guardian_runtime/tools/gateway.py:96-141 | At every burn of every run, whatever happened since authorization: the time is one the clock has shown, full lineage unrevoked and in its window, every ancestor authorizes the request, permit inside its window and at its state version, no deny or escalate rule matches, the first matching allow rule is the permit's own, invariants hold, the permit was issued, and its sequence is burned nowhere else |
| `Theorems.RevocationIsFinal` | src/guardian_runtime/capabilities/core.py:321-340 | Once a step has revoked a capability, no later step of any kind burns a permit under it or under anything delegated from it, whenever that permit was issued |
| `Readings.LaterStepsReadTheClock` | src/guardian_runtime/tools/gateway.py:110-116 | Whatever the steps after a given point issue, burn or record, at any nesting depth, bears a clock reading taken during those steps, never an older one such as the time of authorization |
| `Theorems.CompositionIsMediated` | src/guardian_runtime/tools/gateway.py:73-83 | With nested mediation on, the environment after any run is what the burned requests other than proxy calls, in order and at whatever depth, make of it: no proxy call touches it |
| `Theorems.NestingIsBounded` | src/guardian_runtime/canonical.py:146-147 | The level of any execution plus the remaining height of its parameters is at most the 64 levels of canonical parameters |
| `Theorems.EnvironmentIsReplay` | src/guardian_runtime/tools/gateway.py:139-155 | Complete mediation: an environment that does not change by itself is, after any run, the replay of the direct burns in order, and each burn saw exactly the replay of the burns before it; nothing reaches it without a burned permit |
| `Theorems.ReservationAccounting` | src/guardian_runtime/capabilities/core.py:372-396 | In every reachable state the store is a forest whose siblings share no nonce and whose children's nonces are their parent's; without a reset each counter = its nonce-set size = reservations the store began with plus permits issued under that capability, within `max_invocations` |
| `Theorems.CapabilitiesStay` | src/guardian_runtime/capabilities/core.py:286-304 | A stored capability is never altered or removed by any run |
| `Theorems.UsageMatchesPermits` | src/guardian_runtime/guardian/monitor.py:199-203 | Rule hits, authorization history and budget totals are exactly what the issued permits amount to, and every quota holds of the permits themselves: rate windows, forbidden sequences, separation of duty, budgets |
| `Theorems.RateLimitHolds` | src/guardian_runtime/policy/engine.py:369-373 | In any window (t - w, t], wherever placed and whatever the clock did, at most `max_calls` permits were issued under a rate-limited rule |
| `Theorems.PermitsDieWithTheirLineage` | src/guardian_runtime/guardian/monitor.py:204-207 | No issued permit outlives its capability or any ancestor, in any reachable state |
| `Theorems.PermitLifetime` | src/guardian_runtime/guardian/monitor.py:203-221 | Every permit of every run bears the identity and canonical form of the request submitted for it; it expires no later than issue plus the time-to-live, its capability, and the rule carrying its rule id if that rule expires, and exactly at one of these |
| `Theorems.NestedRunsItsTarget` | src/guardian_runtime/simulator/sandbox.py:59-92 | In every run, a burn inside another has tool `sandbox` and, read from the parameters of the composed burn around it, action, capability, canonical resource and parameters; subject, session and purpose are the outer ones and the nonce the outer one with `-nested` |
| `Theorems.EventsAreFaithful` | src/guardian_runtime/evidence/log.py:183-218 | Every event of every run names the session, subject and capability of the request it records and a time the clock has shown; a denial carries no result, the canonical form of that very request, and a reason that is "not canonical" exactly when it has none |
| `Theorems.PendingIsUnspent` | src/guardian_runtime/guardian/monitor.py:222-232 | What is remembered between calls are permits issued and not spent, each with its own expiry and the request it was asked for |
| `Theorems.OneRecordPerExecution` | formal/check_model.py:277-280 | At every quiescent point of every run, through tool errors, malformed results, interruptions and nesting: allow events of the log correspond one to one to the burned permits, as many as `execution_count` and used sequences; each carries its burn's request, submitted resource, rule, policy version and result digest; a direct result is the tool's own, a composed one relays the record or the denial just before it or names an error; inner records stand before outer ones in the log |
| `Theorems.AuditTrailVerifies` | src/guardian_runtime/evidence/log.py:337-388 | For the log of any run and any key that verifies what was signed for it and nothing else: a genuine bundle is accepted if and only if it is the export of some prefix of the log, and a selection of the log's events passes under its checkpoint if and only if it is the log |
| `Theorems.RejectionChangesNothing` | src/guardian_runtime/tools/gateway.py:89-134 | A rejected permit leaves stores, used sets, count, environment and log as they were; at most the clock has been read |
| `Theorems.DenialReservesNothing` | src/guardian_runtime/guardian/monitor.py:174-197 | A denied or faulting evaluation charges, records and issues nothing; only expired pending requests are released |
| `FreshPermits.FreshPermitIsAccepted` | src/guardian_runtime/tools/gateway.py:89-134 | From any state satisfying the invariant, if the clock reads the same twice and `evaluate` allows, the gateway call that follows is not rejected |
| `FreshPermits.GrantedIsAccepted` | src/guardian_runtime/guardian/monitor.py:199-239 | A permit issued at `now` passes all binding, time, replay, lineage, state, policy and invariant checks at `now` |
| `FreshPermits.FreshIsUnexpired` | src/guardian_runtime/guardian/monitor.py:203-207 | A freshly issued permit satisfies issued_at < expires_at, though clamped by time-to-live, capability and policy deadline |
| `FreshPermits.SteadyClockNeverRejects` | src/guardian_runtime/guardian/monitor.py:245-266 | With a constant clock no request made after any run is answered with a permit rejection |
| `FreshPermits.SteadyLogHasNoRejection` | src/guardian_runtime/guardian/monitor.py:76-92 | With a constant clock no event in the log of any run, nested requests included, reports a rejected permit |
| `Acceptance.GatewayAccepts` | src/guardian_runtime/tools/gateway.py:89-134 | The gateway executes a request if and only if the permit is made out for it (canonical form, issued, signed, capability, identity, versions, manifest) and live at the clock reading: window open however long after issue, sequence and permit unspent, lineage active, bound state version, the policy carrying it by its own rule, invariants satisfied |
| `Acceptance.LivePermitExecutes` | src/guardian_runtime/tools/gateway.py:110-134 | After any run an unspent permit on its own request executes if and only if its window is open, its lineage active, the state version the bound one, its own rule still the first to allow and nothing restricting, and the invariants hold |
| `Acceptance.RejectionIsTrue` | src/guardian_runtime/tools/gateway.py:96-134 | A rejection reports the first of the gateway's fifteen conditions, in its order, that is not met, and why |
| `Acceptance.MonitorGrants` | src/guardian_runtime/guardian/monitor.py:156-239 | `evaluate` grants by rule r if and only if the request has a canonical form, every capability of the lineage allows it here and now, nothing restricts it, r is the first rule to allow it and has room, and the invariants hold |
| `Acceptance.DenialIsTrue` | src/guardian_runtime/guardian/monitor.py:166-187 | A denial reports the first stage that failed, the earlier ones having passed, with that stage's own reason and rule |
| `Acceptance.ExpiredAreReleased` | src/guardian_runtime/guardian/monitor.py:160-165 | Evaluation releases exactly the remembered requests whose permits have expired, and remembers the one it grants |
| `Acceptance.AcceptedExecutionRuns` | src/guardian_runtime/tools/gateway.py:136-172 | An accepted direct execution spends its permit, runs the tool once on the environment as it is, appends one event, touches nothing else, and ends as the tool does: interrupted if and only if the tool was |
| `Acceptance.ComposedRunsTarget` | src/guardian_runtime/tools/gateway.py:73-83 | A composed action runs exactly the action its parameters carry, through the monitor, and relays its result, its denial with the reason, its crash or its interruption |
| `Acceptance.NothingToRun` | src/guardian_runtime/tools/gateway.py:73-83 | A composed action that carries none, or has no environment to build it, fails without touching anything |
| `Acceptance.DirectResultMeaning` | src/guardian_runtime/tools/gateway.py:156-197 | A well-formed tool result (status, plain object at most 64 deep, version that is one) is recorded as it is up to normalization; anything else as a failure naming the error, at the current state version |
| `Acceptance.AnswersAreRecorded` | src/guardian_runtime/guardian/monitor.py:245-266 | Whatever `execute_request` answers is what the last event of the log reports: the result's digest for the canonical request, or the denial of the very request with its reason |
| `Acceptance.SubmissionIsRecorded` | src/guardian_runtime/guardian/monitor.py:224-232 | A direct execution is recorded for the request as submitted: canonical but for its resource |
| `Acceptance.CrashMeaning` | src/guardian_runtime/guardian/monitor.py:156-159 | A request crashes if and only if the clock reads negative |
| `MissionRuns.MissionIsItsHistory` | src/guardian_runtime/simulator/mission.py:112-138 | After any run, and at every burn in it, the simulator is its history: mode, power and pointing are what the last command setting them set, version and software counts of commands, the channel open once commanded, the schedule the scheduled activities in order, delta-v the sum |
| `MissionRuns.EveryCommandWasSafe` | src/guardian_runtime/simulator/mission.py:57-110 | Every command of every run was safe, hazard by hazard, in the state its predecessors had made (software only in safe mode, safe mode left only by a mission director, and so on), and is recorded with the answer that state calls for |
| `MissionRuns.MissionStaysEnveloped` | src/guardian_runtime/simulator/mission.py:71-84 | No run takes mode, pointing or power outside the hard envelope |
| `Histories.LatestMeaning` | src/guardian_runtime/simulator/mission.py:118-131 | What the histories report as last set was set by a command after which none sets it, or is the initial value and no command sets it |
| `SandboxRuns.SandboxIsItsHistory` | src/guardian_runtime/simulator/sandbox.py:94-111 | With mediation on, at every point of every run each file holds what was last written to it, the network log is the calls in order, actuator and version are what the commands set and counted, at whatever depth of composition they ran |
| `SandboxRuns.EveryCommandWasSafe` | src/guardian_runtime/simulator/sandbox.py:46-57 | Every command was safe in the state its predecessors had made; each is recorded with its own answer, and a read answers with what was last written to that file, or nothing |
| `Sandbox.MediatedSandboxStaysEnveloped` | src/guardian_runtime/simulator/sandbox.py:46-57 | With mediation on, no run takes the sandbox actuator or network outside the hard envelope, and its unmediated proxy never runs |
| `Transitions.ReachableByTransitions` | formal/check_model.py:144-264 | Refinement: the state after any client steps is reached by a run of the unbounded transition system, with no reset or environment change the client did not make |
| `Transitions.EvaluateCases` | src/guardian_runtime/guardian/monitor.py:156-239 | `evaluate` either faults on a negative clock, grants (exactly one permit, one charge, one record), or denies leaving only the tick and released expired requests; the branch that records nothing after reserving is unreachable |
| `Transitions.EvaluateRuns` | src/guardian_runtime/guardian/monitor.py:156-239 | `evaluate` is a run of tick, release and at most one grant |
| `Transitions.ExecuteRuns` | src/guardian_runtime/tools/gateway.py:89-172 | A gateway call at any nesting level is a run of internal transitions |
| `Transitions.RequestRuns` | src/guardian_runtime/guardian/monitor.py:245-266 | `execute_request`, nested calls included, is a run of internal transitions |
| `Transitions.BoundaryCases` | src/guardian_runtime/tools/gateway.py:139-172 | Past the burn comes a direct or a nested run and then one record, whose result is the tool's own or, for a composed action, relays the record or denial just made or names an error |
| `Transitions.BoundaryRuns` | src/guardian_runtime/tools/gateway.py:139-172 | Burn, nested run if any, and audit form a run in that order |
| `Transitions.ProxiedIsRelayed` | src/guardian_runtime/tools/gateway.py:143-153 | The gateway's wrapped result keeps the nested verdict, version and output, adds the target, and has the status the nested end calls for; only a negative nested version makes it a failure |
| `Safety.StepKeepsStore` | formal/check_model.py:267-271 | Every transition keeps the capability forest and its exact accounts, and never changes a stored capability |
| `Safety.StepKeepsBurns` | formal/check_model.py:273-290 | Every transition keeps: each burn safe, its permit issued, sequences distinct, and used sequences exactly those burned |
| `Safety.StepKeepsAudit` | formal/check_model.py:277-280 | Every transition keeps: log chained; allow events and finished executions one to one; every burned permit either recorded or in flight; each record carrying its burn's request, rule, version and result digest |
| `Safety.RecordDescribes` | src/guardian_runtime/guardian/monitor.py:94-115 | The event appended for an execution is the record of its burn: the request as submitted and as canonicalized, the rule, the policy version and the digest of the result |
| `Safety.StepKeepsOrder` | src/guardian_runtime/guardian/monitor.py:94-115 | Every transition keeps in-flight executions stacked and whatever ran inside a recorded execution at an earlier position of the log |
| `Safety.StepKeepsClock` | src/guardian_runtime/guardian/monitor.py:156-159 | Every transition issues and burns only at readings the clock has given |
| `Safety.StepKeepsPending` | src/guardian_runtime/guardian/monitor.py:222-232 | The request kept for a permit stays the one it was issued for, but for its resource as submitted; it keeps the permit's expiry and goes when the execution is recorded |
| `Safety.GrantTerms` | src/guardian_runtime/guardian/monitor.py:203-221 | What a grant writes into the permit: the canonical form of what was submitted, its identity, the versions, the next sequence, the time, and the shortest of the three lifetimes |
| `Safety.StepKeepsTerms` | src/guardian_runtime/guardian/monitor.py:203-221 | Every transition keeps each issued permit on the terms it was granted |
| `Safety.StepKeepsEvents` | src/guardian_runtime/evidence/log.py:183-218 | Every transition keeps each event faithful to its request, and each denial to what it denies |
| `Safety.StepKeepsNested` | src/guardian_runtime/simulator/sandbox.py:59-92 | Every transition keeps each nested burn the action that an earlier composed burn carries |
| `Safety.StepKeepsUsage` | src/guardian_runtime/policy/engine.py:426-452 | Every transition keeps hits, history and totals equal to what the issued permits amount to, and within every quota |
| `Safety.StepKeepsNesting` | src/guardian_runtime/simulator/sandbox.py:59-92 | Every transition keeps nesting level plus remaining parameter height within 64 |
| `Safety.ReachableInv` | formal/check_model.py:293-307 | All invariants hold in every state reachable by any steps, and nothing is in flight between steps |
| `Composition.NestedIsLighter` | src/guardian_runtime/simulator/sandbox.py:59-92 | The canonical parameters of a nested action nest strictly less deeply than those of the proxy call, which nest at most 64 deep: the measure on which the mutual recursion ends |
| `Composition.CanonicalWeight` | src/guardian_runtime/canonical.py:118-150 | Canonicalizing twice changes nothing, so a request and its canonical form have the same recursion measure |
| `Composition.NestedMeaning` | src/guardian_runtime/simulator/sandbox.py:59-92 | The nested request is the one and only request composed of the call's parameters, identity and nonce, provided target and capability are not empty |
| `Composition.NestedIsComposed` | src/guardian_runtime/simulator/sandbox.py:59-92 | The canonical form of the nested request is still composed of the call's parameters |
| `Composition.CarriesNested` | src/guardian_runtime/simulator/sandbox.py:59-82 | A proxy call is decoded if and only if target and nested capability are non-empty strings, the target parameters a mapping, and the target resource a string without backslash and `..` |
| `Monitor.GuardianRuntime.constructor` | src/guardian_runtime/guardian/monitor.py:26-67 | A new runtime is wired to its parts and starts a run from the given store, populated and charged as it may be |
| `Monitor.GuardianRuntime.Evaluate` | src/guardian_runtime/guardian/monitor.py:156-197 | The in-place evaluation leaves the shared state, and answers, exactly as the specification function does |
| `Monitor.GuardianRuntime.Grant` | src/guardian_runtime/guardian/monitor.py:189-203 | Second validation reserves the lineage (and cannot refuse), then the authorization is recorded and the permit issued, or the call faults with the lineage reserved |
| `Monitor.GuardianRuntime.Issue` | src/guardian_runtime/guardian/monitor.py:203-239 | The permit carries the next sequence, the clamped expiry and the state version; the request is remembered with its submitted resource; nothing else changes |
| `Monitor.GuardianRuntime.ExecuteRequest` | src/guardian_runtime/guardian/monitor.py:245-266 | Denials and permit rejections are recorded and answered without a result; executions are answered with theirs; state exactly as specified through any nesting |
| `Monitor.GuardianRuntime.ExecuteNestedRequest` | src/guardian_runtime/guardian/monitor.py:76-92 | A nested denial becomes a failed result with the reason, never a direct execution |
| `Monitor.GuardianRuntime.RecordExecutedAction` | src/guardian_runtime/guardian/monitor.py:94-115 | Pops the pending request and appends one allow event for the submitted form |
| `Monitor.GuardianRuntime.RecordNonexecution` | src/guardian_runtime/guardian/monitor.py:131-138 | Appends one event carrying the denial and no result |
| `Monitor.ToolGateway.CheckBinding` | src/guardian_runtime/tools/gateway.py:96-108 | Returns the first binding fault in the order of the code: hash, signature, capability, identity, policy version, manifest |
| `Monitor.ToolGateway.CheckMoment` | src/guardian_runtime/tools/gateway.py:110-134 | Returns the first fault of the moment: clock, window, replay, lineage, state version, policy, invariants |
| `Monitor.ToolGateway.Execute` | src/guardian_runtime/tools/gateway.py:89-172 | The gateway call leaves the shared state, and ends, exactly as the specification function does |
| `Monitor.ToolGateway.Cross` | src/guardian_runtime/tools/gateway.py:136-172 | From the burn on: used sets, count, environment or nested call, and the audit record, exactly as specified |
| `Monitor.ToolGateway.ExecuteNested` | src/guardian_runtime/tools/gateway.py:73-83 | The nested request is built and sent through the monitor; without a builder or with an invalid request the outer tool fails |
| `Monitor.ToolGateway.Finish` | src/guardian_runtime/tools/gateway.py:156-172 | Malformed results, tool errors and interruptions are turned into auditable results and recorded; an interruption is re-raised |
| `CapabilityStores.CapabilityStore.Lineage` | src/guardian_runtime/capabilities/core.py:265-280 | The parent walk with its seen set returns the lineage or the first of cycle, missing parent, invalid member, widened authority, for any dictionary that files capabilities under their ids |
| `CapabilityStores.CapabilityStore.Insert` | src/guardian_runtime/capabilities/core.py:298-304 | Insert, walk, and take out again on failure, leaving the dictionary and its order as before |
| `CapabilityStores.CapabilityStore.Add` | src/guardian_runtime/capabilities/core.py:286-304 | Adds the snapshot exactly when the specification accepts, otherwise refuses with its reason and changes nothing; the store stays a forest |
| `CapabilityStores.CapabilityStore.Revoke` | src/guardian_runtime/capabilities/core.py:306-310 | Marks a known capability revoked and changes nothing else; refuses unknown ids |
| `CapabilityStores.CapabilityStore.Status` | src/guardian_runtime/capabilities/core.py:321-340 | The loop over the lineage returns the first revoked, premature or expired member |
| `CapabilityStores.CapabilityStore.CheckQuotas` | src/guardian_runtime/capabilities/core.py:372-378 | The lineage loop returns the first spent limit or replayed nonce; the empty nonce sets it leaves behind change nothing observable |
| `CapabilityStores.CapabilityStore.CheckParameters` | src/guardian_runtime/capabilities/core.py:380-390 | The parameter loops refuse exactly undeclared, prohibited or unsatisfying values, then missing required ones |
| `CapabilityStores.CapabilityStore.Reserve` | src/guardian_runtime/capabilities/core.py:392-395 | The loop charges every capability of the lineage one use and the nonce |
| `CapabilityStores.CapabilityStore.Validate` | src/guardian_runtime/capabilities/core.py:346-396 | Validation answers as specified; with consume it charges the lineage, otherwise and on refusal nothing changes |
| `CapabilityStores.CapabilityStore.Clone` | src/guardian_runtime/capabilities/core.py:398-404 | Cloning a reachable store never fails and yields a separate store in the same state, revocations included |
| `CapabilityStores.CapabilityStore.ResetUsage` | src/guardian_runtime/capabilities/core.py:406-409 | Clears nonces and counters only |
| `CapabilityStores.ConsumeNext` | src/guardian_runtime/capabilities/core.py:393-395 | Charging one more member of a duplicate-free lineage changes its two entries and no other |
| `Stores.LineageSucceeds` | src/guardian_runtime/capabilities/core.py:265-280 | In a forest the lineage walk never fails and yields the path to the root |
| `Stores.ChainShape` | src/guardian_runtime/capabilities/core.py:265-280 | A lineage consists of stored capabilities linked by parent id, every link a narrowing, ending in a root |
| `Stores.LineageBounds` | src/guardian_runtime/capabilities/core.py:200-246 | Lineage length is at most root depth - leaf depth + 1, and the leaf lies within every ancestor: same subject, values matched by its scopes matched there, window and limits inside, purposes among, prohibitions and required parameters kept, accepted parameter values accepted |
| `Stores.ChainIdsDistinct` | src/guardian_runtime/capabilities/core.py:267-271 | Ids never repeat along a lineage, so the cycle error is unreachable |
| `Stores.StatusIsActive` | src/guardian_runtime/capabilities/core.py:321-340 | Status is positive if and only if time is non-negative, the id is known, and the whole lineage is unrevoked and inside its window |
| `Stores.ValidateMeaning` | src/guardian_runtime/capabilities/core.py:346-390 | Validation succeeds if and only if the lineage is active and chargeable and every capability of it, not only the leaf, authorizes the request |
| `Stores.ValidateSpelledOut` | src/guardian_runtime/capabilities/core.py:346-390 | Validation succeeds if and only if time is non-negative, the capability known, and each of the lineage is unrevoked, in its window, with invocations left and the nonce unseen, of the same subject, with session, tool, action and resource matching, the purpose admitted, every parameter declared, not prohibited and accepted, and every required one present |
| `Stores.AddKeepsForest` | src/guardian_runtime/capabilities/core.py:286-304 | Adding succeeds if and only if the capability is valid, its id fresh and its parent, if any, stored, unrevoked and wider; it keeps the forest, and the removal branch never runs |
| `Stores.SnapshotIsStable` | src/guardian_runtime/capabilities/core.py:129-134 | The validated, normalized copy is valid again and a fixed point of the copying |
| `Stores.SnapshotMeaning` | src/guardian_runtime/capabilities/core.py:88-134 | A capability is copied if and only if its names are not empty, its window, counts and lists proper, its constraints plain JSON at most 128 deep, of known entries in proper form with limits in order, and none on a prohibited name; only the form of the constraints changes |
| `Stores.CloneIsExact` | src/guardian_runtime/capabilities/core.py:398-404 | Replaying all capabilities in dictionary order never fails and gives back the whole state |
| `Stores.ConsumeKeepsAccounts` | src/guardian_runtime/capabilities/core.py:392-395 | Charging a chargeable lineage keeps counters = nonces = charges and the nonce tree exact over the whole forest |
| `Stores.AddKeepsAccounts` | src/guardian_runtime/capabilities/core.py:286-304 | A new capability starts with empty accounts and disturbs no other |
| `Stores.NothingCharged` | src/guardian_runtime/capabilities/core.py:406-409 | After a reset the accounts are exact for zero charges |
| `Stores.CoversFamily` | src/guardian_runtime/capabilities/core.py:265-280 | A charged capability's parent is charged with it and none of its siblings is |
| `Capabilities.LineageAuthorizes` | src/guardian_runtime/capabilities/core.py:359-390 | Along a narrowing chain of any length, whatever the leaf's scope, purpose, prohibited, constraint and required checks accept, every ancestor's accept |
| `Capabilities.SubsetAuthorizes` | src/guardian_runtime/capabilities/core.py:200-246 | `capability_is_subset` is semantic inclusion of the accepted requests |
| `Capabilities.IsSubsetStrictOrder` | src/guardian_runtime/capabilities/core.py:200-246 | `capability_is_subset` is irreflexive and transitive |
| `Capabilities.ConstraintSubsetSound` | src/guardian_runtime/capabilities/core.py:158-197 | Every value a narrower constraint accepts is accepted by the wider one |
| `Capabilities.ConstraintSubsetTransitive` | src/guardian_runtime/capabilities/core.py:158-197 | Constraint narrowing is transitive |
| `Capabilities.ValueSatisfiesCongruent` | src/guardian_runtime/capabilities/core.py:137-155 | Values equal as JSON satisfy the same constraints |
| `Capabilities.ValidConstraintNormalizes` | src/guardian_runtime/capabilities/core.py:61-85 | Normalizing a valid constraint keeps it valid |
| `Capabilities.RefusalsMeanUnauthorized` | src/guardian_runtime/capabilities/core.py:359-390 | The checks in their order refuse exactly the requests the capability does not allow |
| `Capabilities.RefusalsAreTrue` | src/guardian_runtime/capabilities/core.py:359-390 | Each refusal names something that is the case |
| `Capabilities.ProhibitionBindsDelegates` | src/guardian_runtime/capabilities/core.py:380-386 | For a valid capability the prohibited list refuses nothing by itself that undeclared parameters do not: it matters only to what may be delegated |
| `Capabilities.ConstraintIsConjunction` | src/guardian_runtime/capabilities/core.py:137-155 | A mapping constraint accepts a finite value if and only if each of its entries by itself does |
| `Capabilities.EntryMeaning` | src/guardian_runtime/capabilities/core.py:137-155 | `enum` accepts what equals an item, `forbid` what equals none, `min` and `max` numbers on their side, `prefix` texts that start so, `required` everything |
| `Capabilities.NarrowingIsConjunction` | src/guardian_runtime/capabilities/core.py:158-197 | A mapping constraint is narrowed if and only if each of its entries is |
| `Capabilities.NarrowerEntries` | src/guardian_runtime/capabilities/core.py:158-197 | What narrows an entry: a non-empty subset of an enumeration, a longer prefix, a superset of exceptions, the same demand for presence |
| `Capabilities.TighterLimits` | src/guardian_runtime/capabilities/core.py:185-188 | Numeric limits are narrowed exactly by limits inside them |
| `Capabilities.ConstraintSubsetReflexive` | src/guardian_runtime/capabilities/core.py:158-197 | A valid constraint narrows itself, unless and only unless it is an empty enumeration |
| `Capabilities.SameAuthorityDelegates` | src/guardian_runtime/capabilities/core.py:200-246 | The same authority can be delegated one level down, unless an enumeration in it is empty |
| `Capabilities.ValidLimitsAdmit` | src/guardian_runtime/capabilities/core.py:79-85 | Numeric limits are valid exactly when some value meets them |
| `Glob.UniversalPattern` | src/guardian_runtime/capabilities/core.py:52-53 | The pattern `*` accepts every value |
| `Glob.ExactPattern` | src/guardian_runtime/capabilities/core.py:54-57 | A wildcard-free pattern accepts exactly itself |
| `Glob.ConcatenationMeaning` | src/guardian_runtime/capabilities/core.py:43-58 | Tokens in sequence match a text if and only if it can be cut in two that match the parts |
| `Glob.WildcardHead` | src/guardian_runtime/capabilities/core.py:43-58 | A leading `*` skips any text and a leading `?` one character |
| `Glob.LiteralHead` | src/guardian_runtime/capabilities/core.py:43-58 | An ordinary leading character, or a `[` that is never closed, matches itself |
| `Glob.ClassHead` | src/guardian_runtime/capabilities/core.py:43-58 | A leading class matches one character in its body, a negated one a character outside it; a `]` in first position belongs to the body |
| `Glob.ClassMeaning` | src/guardian_runtime/capabilities/core.py:43-58 | A class body holds its characters and, where two are joined by a hyphen, all between them |
| `Glob.PrefixPattern` | src/guardian_runtime/capabilities/core.py:43-58 | A wildcard-free text followed by `*` matches exactly what starts with it |
| `Glob.ScopeSubsetSound` | src/guardian_runtime/capabilities/core.py:43-57 | Whatever the narrower scope accepts, the wider one accepts |
| `Glob.ScopeSubsetTransitive` | src/guardian_runtime/capabilities/core.py:43-57 | Scope narrowing is transitive |
| `Glob.ScopeSubsetMeaning` | src/guardian_runtime/capabilities/core.py:43-58 | For a wildcard-free child the scope check is exactly inclusion of the matched values; a child with wildcards fits only in itself and `*` |
| `Values.JsonEqualIsSameReading` | src/guardian_runtime/canonical.py:61-83 | Typed equality is equality of an independent reading (ints as numbers, tuples as lists, booleans apart) on NaN-free values |
| `Values.JsonEqualEquivalence` | src/guardian_runtime/canonical.py:61-83 | Typed equality is symmetric and transitive, and reflexive if and only if no NaN occurs |
| `Values.NormalizeIdempotent` | src/guardian_runtime/canonical.py:44-58 | Normalization succeeds only within the depth limit; its output equals the input as JSON and is a fixed point wherever it fits |
| `Values.NormalizeIgnoresTuples` | src/guardian_runtime/canonical.py:44-58 | Lists and tuples, at any depth, normalize alike |
| `Values.NormalizeAccepts` | src/guardian_runtime/canonical.py:44-58 | Normalization succeeds if and only if the value is plain JSON with non-empty keys and fits under the depth limit |
| `Values.SubvalueIsLower` | src/guardian_runtime/canonical.py:44-58 | A field nests strictly less deeply than the object around it |
| `Canonical.CanonicalizeIdempotent` | src/guardian_runtime/canonical.py:118-150 | Canonicalizing an accepted request again changes nothing; its parameters are NaN-free, at most 64 deep, its action lower-case and stripped, its resource without `..` |
| `Canonical.CanonicalizeIgnoresTuples` | src/guardian_runtime/canonical.py:146-150 | The canonical request does not depend on which sequences are tuples |
| `Canonical.CanonicalizeMeaning` | src/guardian_runtime/canonical.py:118-150 | A request is accepted if and only if its identifiers are non-blank and trimmed, purpose trimmed, tool and action without capitals, observed version no negative, parameters and context plain objects at most 64 deep and resource acceptable; and nothing but those two and the resource is rewritten |
| `Canonical.ResourceAccepted` | src/guardian_runtime/canonical.py:101-115 | A resource is accepted if and only if it has no backslash and no `..` segment |
| `Canonical.SegmentsOfPath` | src/guardian_runtime/canonical.py:109-115 | The segments of `a/b` are those of `a` followed by those of `b` |
| `Canonical.SameCanonicalResource` | src/guardian_runtime/canonical.py:101-115 | Two accepted resources have the same canonical form if and only if they have the same root and segments, and both or neither are empty |
| `Canonical.CanonicalResourceKeepsRoot` | src/guardian_runtime/canonical.py:109-115 | The canonical resource has the root of the input: none, one slash, or two |
| `Canonical.StripMeaning` | src/guardian_runtime/canonical.py:118-125 | Stripping takes whitespace away at both ends, all of it, and nothing else |
| `Canonical.CanonicalResourceIsStable` | src/guardian_runtime/canonical.py:101-115 | A canonical resource is a fixed point with the same parts as the input and no `..` segment |
| `Canonical.RenderRoundTrip` | src/guardian_runtime/canonical.py:109-115 | Rendering clean parts under a root and parsing again loses neither |
| `Policies.RevalidateMeaning` | src/guardian_runtime/policy/engine.py:400-424 | Revalidation accepts rule id r if and only if evaluation on the same inputs allows by r or refuses by r only for an exhausted quota |
| `Policies.EvaluateSpelledOut` | src/guardian_runtime/policy/engine.py:342-394 | Evaluation allows by rule r if and only if time is non-negative, no emergency stop halts the request, no deny or escalate rule fits, r is the first allow rule that fits (or the default allows and none does), and r has room in its quotas; a rule fits when its patterns match, purpose and window admit, present parameters satisfy, required ones are there and state constraints hold |
| `Policies.RevalidateSpelledOut` | src/guardian_runtime/policy/engine.py:400-424 | The same for revalidation, without quotas |
| `Policies.RestrictingRuleRefuses` | src/guardian_runtime/policy/engine.py:358-364 | A deny or escalate rule that fits refuses, on both policy paths |
| `Policies.EvaluateRefusalIsTrue` | src/guardian_runtime/policy/engine.py:342-394 | Each refusal names what is the case: the stop, a restricting rule that fits by its id and effect, the selected rule whose quotas leave no room, or the default |
| `Policies.ConstraintIsConjunction` | src/guardian_runtime/policy/engine.py:147-187 | A mapping constraint accepts a finite value if and only if each of its entries by itself does |
| `Policies.EqualityEntries` | src/guardian_runtime/policy/engine.py:152-159 | `eq`, `neq`, `in` and `not_in` mean equality to the value, to an item, or to none |
| `Policies.LimitEntries` | src/guardian_runtime/policy/engine.py:160-168 | `min` and `max` accept numbers on their side, `prefix` texts that start so |
| `Policies.ResourceEntries` | src/guardian_runtime/policy/engine.py:169-186 | `canonical_resource` accepts texts that are their own canonical form, `canonical_prefix` those of them that start so |
| `Policies.DeadlineMeaning` | src/guardian_runtime/policy/engine.py:396-398 | The deadline of a permit is the expiry of the rule with its id, if there is one and it expires |
| `Policies.RestrictingNeverAllows` | src/guardian_runtime/policy/engine.py:358-394 | With the same allow rules, more deny and escalate rules anywhere never turn a denial into an allow or change the allowing rule |
| `Policies.ReorderingIrrelevant` | src/guardian_runtime/policy/engine.py:358-394 | Reordering that keeps the allow rules' order changes no verdict, except which restricting rule is reported |
| `Policies.PermittingDependsOnAllowRules` | src/guardian_runtime/policy/engine.py:366-391 | The selected allow rule depends only on the allow rules in their order |
| `Policies.AllowedIsRecordable` | src/guardian_runtime/policy/engine.py:426-452 | An allowed request can always be recorded |
| `Policies.RecordIsExact` | src/guardian_runtime/policy/engine.py:426-452 | Recording an allowed request extends rule hits, history and exact budget sums by that grant alone |
| `Policies.RecordKeepsQuotas` | src/guardian_runtime/policy/engine.py:366-391 | Whatever the clock does, recording an allowed request keeps every rate window, sequence restriction, separation of duty and budget |
| `Policies.QuotasBoundGrants` | src/guardian_runtime/policy/engine.py:366-391 | Quotas kept on the recorded usage are quotas on the grants it records, for every window and pair of consecutive grants |
| `Policies.AppendRespectsRate` | src/guardian_runtime/policy/engine.py:369-373 | If the recent hits leave room, no window of the rule's length, wherever placed, exceeds the limit afterwards, for any clock |
| `Policies.BudgetAfterGrant` | src/guardian_runtime/policy/engine.py:380-391 | Right after an authorization the total is within the authorizing rule's own limit |
| `PolicyRuntime.RecordAuthorization` | src/guardian_runtime/policy/engine.py:426-452 | The in-place update records hits, history and totals exactly as specified, and an invalid cost changes nothing |
| `Evidence.EvidenceLog.Append` | src/guardian_runtime/evidence/log.py:183-218 | Appends exactly one event linked to the previous hash and keeps the log well chained |
| `Evidence.EvidenceLog.Export` | src/guardian_runtime/evidence/log.py:232-249 | The bundle holds all events and the signed checkpoint of their count and terminal hash |
| `Evidence.Verify` | src/guardian_runtime/evidence/log.py:290-334 | The verifier loop, with its running hash, seen set and expected sequence, returns the first fault as specified event by event |
| `Evidence.VerifyPrefixMeaning` | src/guardian_runtime/evidence/log.py:290-334 | Acceptance means every event is chained, well formed, as expected and signed, and no hash repeats |
| `Evidence.ReplayNeverFires` | src/guardian_runtime/evidence/log.py:312-313 | Unless two events collide, the replay check rejects nothing that chain and sequence have not already excluded |
| `Evidence.AcceptedTerminalBinds` | src/guardian_runtime/evidence/log.py:290-334 | Two accepted lists with the same terminal hash and no collision between them agree in everything but signatures, unless exactly one is empty |
| `Evidence.AcceptedBundleIsSnapshot` | src/guardian_runtime/evidence/log.py:337-388 | Whatever its signatures, a bundle accepted under a key that signs nothing but one log is, up to signatures, a prefix of that log under that prefix's own checkpoint |
| `Evidence.AcceptedIffExported` | src/guardian_runtime/evidence/log.py:337-388 | For one key serving one log, a genuine bundle is accepted if and only if it is the export of some prefix of that log |
| `Evidence.AcceptedBundleIsExport` | src/guardian_runtime/evidence/log.py:369-387 | An accepted genuine bundle is the export of the log's prefix of its own length |
| `Evidence.PrefixExportVerifies` | src/guardian_runtime/evidence/log.py:242-249 | The export of any prefix of the log is accepted |
| `Evidence.RememberingServes` | src/guardian_runtime/evidence/log.py:213-217 | For every log there is a key that verifies exactly what was signed for it, so the results about such keys are about something |
| `Evidence.ExportVerifies` | src/guardian_runtime/evidence/log.py:242-249 | The bundle of any log under one policy version and a well-formed manifest hash is accepted |
| `Evidence.AcceptedSelectionIsLog` | src/guardian_runtime/evidence/log.py:384-387 | Dropping, reordering or repeating events under the kept checkpoint is rejected |
| `Evidence.OnlyTheExportVerifies` | src/guardian_runtime/evidence/log.py:337-388 | A selection of the log's events verifies under its checkpoint if and only if it is the log |
| `JsonText.LexicalScan` | src/guardian_runtime/jsonutil.py:48-66 | The character loop succeeds if and only if the scanner specification does |
| `JsonText.ScanMeasuresNesting` | src/guardian_runtime/jsonutil.py:48-66 | For every RFC 8259 document and any whitespace, quoted brackets and escapes: the scan ends unquoted at depth 0 if nesting is at most 128 and fails otherwise |
| `JsonText.ScanDocument` | src/guardian_runtime/jsonutil.py:48-66 | From any depth, scanning a document comes back to that depth, failing exactly when depth plus nesting exceeds 128 |
| `JsonText.ScanQuoted` | src/guardian_runtime/jsonutil.py:52-60 | Brackets, quotes and backslashes inside a string are data |
| `JsonText.DrainWorklist` | src/guardian_runtime/jsonutil.py:76-84 | The worklist loop accepts exactly the values whose parts lie at most 128 levels deep |
| `JsonText.ScanMakesWorklistRedundant` | src/guardian_runtime/jsonutil.py:76-84 | Once the scan has passed, the worklist check cannot fire |
| `JsonText.WithinNesting` | src/guardian_runtime/jsonutil.py:76-84 | The worklist alone would admit one further level of nesting, never two |
| `JsonText.ScanIsStricter` | src/guardian_runtime/jsonutil.py:61-64 | 129 empty nested arrays fail the scan though the worklist would accept them |
| `Minimizer.Minimize` | src/guardian_runtime/adversarial/hardening.py:31-51 | The nested loops return the greedy result with at most n(n+1)/2 - 1 oracle calls for n >= 1, none for n = 0 |
| `Minimizer.GreedyIsSubsequence` | src/guardian_runtime/adversarial/hardening.py:42-49 | The result is the original trace with requests dropped, in order |
| `Minimizer.GreedyIsMinimal` | src/guardian_runtime/adversarial/hardening.py:31-51 | A successful trace stays successful and no single removal that leaves a request still succeeds |
| `Mission.MissionEnvironment.Execute` | src/guardian_runtime/simulator/mission.py:112-138 | Each command updates the simulator fields in place exactly as specified, conversions and their exceptions included |
| `Mission.CheckedExecExpends` | src/guardian_runtime/simulator/mission.py:57-72 | A canonical request that passes the invariant check adds exactly its own abs(delta_v), at most 5, and any other command adds none |
| `MissionRuns.CheckMeaning` | src/guardian_runtime/simulator/mission.py:57-110 | The invariant check passes exactly the safe commands: a fresh observed version, mode and communications fit, amounts within the hard limits, approvals present, schedule free of what may not be scheduled |
| `MissionRuns.SafeCommandHasEffect` | src/guardian_runtime/simulator/mission.py:112-138 | A safe canonical command never fails in a conversion and has exactly its effect |
| `Sandbox.SandboxEnvironment.Execute` | src/guardian_runtime/simulator/sandbox.py:94-153 | Each command, the weak proxy's own recursion included, updates the sandbox in place exactly as specified |
| `Sandbox.RebuiltIsLighter` | src/guardian_runtime/simulator/sandbox.py:112-146 | The weak proxy's nested request is smaller or no proxy call, so its direct recursion ends too |
| `Sandbox.CheckedExecKeepsEnvelope` | src/guardian_runtime/simulator/sandbox.py:46-57 | A checked canonical request other than a proxy call keeps actuator and network inside the envelope |
| `Sandbox.WeakProxyRunsTarget` | src/guardian_runtime/simulator/sandbox.py:112-152 | The flaw that mediation prevents: left to itself a proxy call runs its target as if requested directly, whichever nested capability it names, even none |
| `Sandbox.ExecIgnoresIdentity` | src/guardian_runtime/simulator/sandbox.py:94-153 | What the environment does by itself depends on action, resource and parameters alone, through any depth of direct proxying |
| `SandboxRuns.CheckMeaning` | src/guardian_runtime/simulator/sandbox.py:46-57 | The invariant check passes exactly the safe commands: a fresh observed version, actuator integers from -10 to 10, network targets under mock:// |
| `SandboxRuns.SafeCommandHasEffect` | src/guardian_runtime/simulator/sandbox.py:94-111 | A safe canonical command other than a proxy call never fails and has exactly its effect and its answer |

## Left out

- Cryptography: Ed25519, SHA-256 and Base64 are idealised. A permit signature is good exactly on a payload the key has signed and accepts; the request digest in a permit is the request itself; event digests are an arbitrary function into 64 hex digits, assumed free of collisions only among the events a result speaks of; an evidence key verifies the events and prefix checkpoints it has signed for one log, and nothing else.
- Threads and locks: one reentrant lock serialises every call, so each call is one atomic step.
- Parsing and validation of YAML and of typed fields: rules, capabilities and results are taken with the field types their dataclasses declare; a tool answering with something else is one outcome, `NotAResult`.
- Evidence of malformed Python values: `_safe_value`, its truncation at depth 64 and its description of foreign objects; requests are logged as they are.
- Text encoding: surrogates, the interpreter's digit limit on integers, the byte limit on JSON texts, and `lower()` beyond ASCII letters.
- Decoding: `json.loads` and its duplicate-key check; texts are given by their RFC 8259 syntax tree, and numbers by the characters a number or word may contain.
- Order inside dictionaries: maps have none, except the insertion order of capabilities, on which `clone` depends. Where the code reports the first offending parameter, the model reports that there is one.
- Wording: refusals and results carry their kind, not their message text; the gateway's exceptions carry their type name.
- Rounding: floats are exact reals, and budgets use exact sums as the code's fractions do.
- Character classes of `fnmatch`: ranges are read from left to right; a range with its ends reversed matches nothing; the rewriting `fnmatch` does for several hyphens is not modelled.
- Mission.MissionEnvironment.Execute: `float()` of a non-finite float, of a text naming one, or of an integer beyond the range of floats; state fields are reals. Texts are converted by parameters that stand for Python's parsers.
- Sandbox.SandboxEnvironment.Execute: `int()` of a text is a parameter that stands for Python's parser.
- Environments whose snapshot or invariant check raises: both are total functions of the environment state. The mission check does raise, a TypeError, on a `change_mode` whose `mode` is a list or a mapping; here it answers that the mode is unknown.
- A rule actually named "default" in the authorization history is kept apart from the policy default, which the code records under that word.
- A gateway standing alone, without observer, nested executor or policy check: the runtime never builds one.
- A clock that answers with something other than an integer; negative readings are modelled.
- Read-only accessors (`get`, `invocation_count`, `clone` of the policy usage): they add nothing to the operations they read from.
- Restart, durability, and an older but valid bundle offered in place of a newer one: nothing in the code detects the latter, and `Evidence.AcceptedBundleIsSnapshot` says so by promising only some historical prefix.
- A rate bound on executions: limits are charged when a permit is issued, and that is where they are proved.
- The breadth-first search of `formal/check_model.py`: the invariants it samples are proved by induction instead.
- Attack scenarios, baselines, metrics, plots, telemetry, the factory, command-line tools and inventory scripts: plumbing without further state.
