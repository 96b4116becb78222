/**
 * The reference monitor and its gateway as the objects that share one capability
 * store, clock, environment and log.  Every method is proved to take the shared
 * state exactly where the functions of `Runtime` take the state value.
 */
module Monitor {
  import opened Wrappers
  import opened Values
  import opened Canonical
  import opened Composition
  import opened Types
  import opened Runtime
  import opened CapabilityStores
  import opened PolicyRuntime
  import Capabilities
  import Stores
  import Policies
  import Evidence

  class Clock {
    const reading: nat -> int
    var ticks: nat

    constructor (reading: nat -> int)
      ensures this.reading == reading && ticks == 0
    {
      this.reading, ticks := reading, 0;
    }

    method Now() returns (now: int)
      modifies this`ticks
      ensures now == reading(old(ticks)) && ticks == old(ticks) + 1
    {
      now := reading(ticks);
      ticks := ticks + 1;
    }
  }

  class Environment<E> {
    const cfg: Config<E>
    var state: E

    constructor (cfg: Config<E>, state: E)
      ensures this.cfg == cfg && this.state == state
    {
      this.cfg, this.state := cfg, state;
    }

    method Execute(r: Request) returns (outcome: ToolOutcome)
      modifies this`state
      ensures (state, outcome) == cfg.exec(old(state), r)
    {
      var (next, ended) := cfg.exec(state, r);
      state, outcome := next, ended;
    }
  }

  /** The idealised signing key: it remembers what it has signed. */
  class SigningKey<E> {
    const cfg: Config<E>
    var signed: seq<PermitPayload>

    constructor (cfg: Config<E>)
      ensures this.cfg == cfg && signed == []
    {
      this.cfg, signed := cfg, [];
    }

    method Sign(payload: PermitPayload) returns (permit: Permit)
      modifies this`signed
      ensures permit == Permit(payload, cfg.signPermit(payload)) && signed == old(signed) + [payload]
    {
      signed := signed + [payload];
      permit := Permit(payload, cfg.signPermit(payload));
    }
  }

  class ToolGateway<E> {
    const cfg: Config<E>
    const environment: Environment<E>
    const key: SigningKey<E>
    const capabilities: CapabilityStore
    const clock: Clock
    var usedSequences: set<int>
    var usedPermits: set<Permit>
    var executionCount: nat
    var monitor: GuardianRuntime?<E>

    constructor (cfg: Config<E>, environment: Environment<E>, key: SigningKey<E>, capabilities: CapabilityStore,
                 clock: Clock)
      ensures this.cfg == cfg && this.environment == environment && this.key == key
      ensures this.capabilities == capabilities && this.clock == clock
      ensures usedSequences == {} && usedPermits == {} && executionCount == 0 && monitor == null
    {
      this.cfg, this.environment, this.key, this.capabilities, this.clock := cfg, environment, key, capabilities, clock;
      usedSequences, usedPermits, executionCount, monitor := {}, {}, 0, null;
    }

    /** The checks of `_execute_locked` before it reads the clock; `c` is the canonical request. */
    method CheckBinding(c: Request, permit: Permit) returns (fault: Option<PermitFault>)
      ensures fault == BindingFault(cfg, key.signed, c, permit)
    {
      var p := permit.payload;
      if p.request != c {
        return Some(HashMismatch);
      }
      if p !in key.signed || !cfg.acceptsPermit(p, permit.signature) {
        return Some(BadSignature);
      }
      if p.capabilityId != c.capabilityId {
        return Some(CapabilityMismatch);
      }
      if p.subject != c.subject || p.session != c.session {
        return Some(IdentityMismatch);
      }
      if p.policyVersion != cfg.policy.version {
        return Some(PolicyVersionMismatch);
      }
      if p.manifest != cfg.manifest {
        return Some(ManifestMismatch);
      }
      fault := None;
    }

    /** The checks of `_execute_locked` after it has read the clock. */
    method CheckMoment(c: Request, permit: Permit, now: int) returns (fault: Option<PermitFault>)
      requires monitor != null && monitor.Valid() && monitor.gateway == this
      ensures fault == DynamicFault(cfg, monitor.State(), c, permit, now)
    {
      hide Policies.Revalidate, Stores.Status;
      var p := permit.payload;
      if now < 0 {
        return Some(BadClock);
      }
      if p.issuedAt > now {
        return Some(IssuedInFuture);
      }
      if now >= p.expiresAt {
        return Some(PermitExpired);
      }
      if p.sequence in usedSequences || permit in usedPermits {
        return Some(Replayed);
      }
      var inactive := capabilities.Status(p.capabilityId, now);
      if inactive.Some? {
        return Some(CapabilityInactive(inactive.value));
      }
      var state := cfg.snapshot(environment.state);
      if state.version != p.stateVersion {
        return Some(StateChanged);
      }
      var restricted := Policies.Revalidate(cfg.policy, c, state, now, p.ruleId);
      if restricted.Some? {
        return Some(PolicyRestricts(restricted.value));
      }
      var violated := cfg.check(environment.state, c);
      if violated.Some? {
        return Some(InvariantFails(violated.value));
      }
      fault := None;
    }

    /** `_execute_nested` and the outer result built from what it returns. */
    method ExecuteNested(c: Request) returns (outcome: ToolOutcome)
      requires monitor != null && monitor.Valid() && monitor.gateway == this
      requires Canonicalize(c) == Some(c)
      modifies monitor.Objects()
      ensures monitor == old(monitor) && monitor.Valid()
      ensures (monitor.State(), outcome) == Runtime.ExecuteNested(cfg, old(monitor.State()), c)
      decreases Weight(c), 0
    {
      hide Canonicalize, BuildNested, Runtime.ExecuteRequest, InnerOutcome, Proxied, Weight;
      if !cfg.composes {
        return Raised("PermitError");
      }
      var nested := BuildNested(c);
      if nested.None? {
        return Raised("PermitError");
      }
      NestedIsLighter(c);
      outcome := monitor.ExecuteNestedRequest(nested.value);
      if outcome.Returned? {
        outcome := Returned(Proxied(c, outcome.result));
      }
    }

    /** `_failed_execution` */
    method FailedExecution(status: string, error: string) returns (result: ToolResult)
      ensures result == ToolResult(false, status, Obj(map["error_type" := Str(error)]),
                                   Some(cfg.snapshot(environment.state).version))
    {
      result := ToolResult(false, status, Obj(map["error_type" := Str(error)]),
        Some(cfg.snapshot(environment.state).version));
    }

    /** `execute`: check, burn the permit, run the tool or the nested action, record. */
    method Execute(r: Request, permit: Permit) returns (execution: Execution)
      requires monitor != null && monitor.Valid() && monitor.gateway == this
      modifies monitor.Objects()
      ensures monitor == old(monitor) && monitor.Valid()
      ensures (monitor.State(), execution) == Runtime.Execute(cfg, old(monitor.State()), r, permit)
      decreases Weight(r), 2
    {
      hide Canonicalize, BindingFault, DynamicFault, CrossBoundary, Weight;
      var canonical := Canonicalize(r);
      if canonical.None? {
        return Rejected(InvalidRequest);
      }
      var c := canonical.value;
      var fault := CheckBinding(c, permit);
      if fault.Some? {
        return Rejected(fault.value);
      }
      var now := clock.Now();
      fault := CheckMoment(c, permit, now);
      if fault.Some? {
        return Rejected(fault.value);
      }
      CanonicalWeight(r);
      execution := Cross(c, permit, now);
    }

    /** `execute` from the burn on. */
    method Cross(c: Request, permit: Permit, now: int) returns (execution: Execution)
      requires monitor != null && monitor.Valid() && monitor.gateway == this
      requires Canonicalize(c) == Some(c)
      modifies monitor.Objects()
      ensures monitor == old(monitor) && monitor.Valid()
      ensures (monitor.State(), execution) == CrossBoundary(cfg, old(monitor.State()), c, permit, now)
      decreases Weight(c), 1
    {
      hide Canonicalize, Runtime.ExecuteNested, RecordExecution, Weight;
      ghost var before := monitor.State();
      usedSequences := usedSequences + {permit.payload.sequence};
      usedPermits := usedPermits + {permit};
      executionCount := executionCount + 1;
      monitor.past := BurnPermit(cfg, before, c, permit, now).past;
      var outcome: ToolOutcome;
      if cfg.mediate && c.action == PROXY_ACTION {
        assert monitor.State() == BurnPermit(cfg, before, c, permit, now);
        outcome := ExecuteNested(c);
      } else {
        outcome := environment.Execute(c);
        assert monitor.State() == BurnPermit(cfg, before, c, permit, now);
      }
      execution := Finish(c, permit, outcome);
    }

    /** The tail of `execute`: snapshot the result or describe the failure, and record it. */
    method Finish(c: Request, permit: Permit, outcome: ToolOutcome) returns (execution: Execution)
      requires monitor != null && monitor.Valid() && monitor.gateway == this
      requires monitor.past.inflight != []
      modifies monitor.Objects()
      ensures monitor == old(monitor) && monitor.Valid()
      ensures (monitor.State(), execution) == Settle(cfg, old(monitor.State()), c, permit, outcome)
    {
      hide RecordExecution, SnapshotResult;
      var result: ToolResult;
      match outcome {
        case Returned(returned) =>
          var snapshot := SnapshotResult(returned);
          if snapshot.Success? {
            result := snapshot.value;
          } else {
            result := FailedExecution("invalid-tool-result", snapshot.error);
          }
        case NotAResult => result := FailedExecution("invalid-tool-result", "TypeError");
        case Raised(error) => result := FailedExecution("tool-error", error);
        case Interrupted(error) => result := FailedExecution("tool-interrupted", error);
      }
      monitor.RecordExecutedAction(c, permit, result);
      execution := if outcome.Interrupted? then Aborted(outcome.error) else Completed(result);
    }
  }

  class GuardianRuntime<E> {
    const cfg: Config<E>
    const capabilities: CapabilityStore
    const environment: Environment<E>
    const key: SigningKey<E>
    const clock: Clock
    const evidence: Evidence.EvidenceLog
    const policyRuntime: PolicyRuntimeState
    const gateway: ToolGateway<E>
    var permitSequence: nat
    var permitRequests: map<int, (int, Request)>
    ghost var past: History<E>

    ghost function Objects(): set<object>
    {
      {this, capabilities, environment, key, clock, evidence, policyRuntime, gateway}
    }

    /** The value the functions of `Runtime` work on. */
    ghost function State(): Guardian<E>
      reads Objects()
    {
      Guardian(
        capabilities.Model(), policyRuntime.Model(), permitSequence, permitRequests,
        gateway.usedSequences, gateway.usedPermits, gateway.executionCount,
        evidence.events, environment.state, clock.ticks, past)
    }

    /** The parts are wired to each other as the constructor leaves them. */
    ghost predicate Valid()
      reads Objects()
    {
      && capabilities.Valid()
      && key.signed == past.issued
      && key.cfg == environment.cfg == gateway.cfg == cfg
      && gateway.environment == environment && gateway.key == key
      && gateway.capabilities == capabilities && gateway.clock == clock
      && gateway.monitor == this
      && clock.reading == cfg.clock
      && evidence.crypto == cfg.crypto && evidence.manifest == cfg.manifest
    }

    /** `charged` names the reservations the store already carries. */
    constructor (cfg: Config<E>, capabilities: CapabilityStore, env: E, ghost charged: seq<string>)
      requires capabilities.Valid()
      ensures Valid() && this.cfg == cfg && this.capabilities == capabilities
      ensures fresh(Objects() - {capabilities})
      ensures State() == Initial(Start(env, capabilities.Model(), charged))
      ensures Stores.Accounted(capabilities.Model(), charged) ==> ValidStart(Start(env, capabilities.Model(), charged))
    {
      this.cfg := cfg;
      this.capabilities := capabilities;
      var world := new Environment<E>(cfg, env);
      var signer := new SigningKey<E>(cfg);
      var time := new Clock(cfg.clock);
      environment, key, clock := world, signer, time;
      evidence := new Evidence.EvidenceLog(cfg.crypto, cfg.manifest);
      policyRuntime := new PolicyRuntimeState();
      var gate := new ToolGateway<E>(cfg, world, signer, capabilities, time);
      gateway := gate;
      permitSequence, permitRequests, past := 0, map[], History([], [], charged, [], [], map[]);
      new;
      gateway.monitor := this;
    }

    /** `_record_executed_action` */
    method RecordExecutedAction(c: Request, permit: Permit, result: ToolResult)
      requires Valid() && past.inflight != []
      modifies Objects()
      ensures Valid()
      ensures State() == RecordExecution(cfg, old(State()), c, permit, result)
    {
      hide Evidence.NextEvent;
      var sequence := permit.payload.sequence;
      var original := if sequence in permitRequests then permitRequests[sequence].1 else c;
      permitRequests := map k | k in permitRequests && k != sequence :: permitRequests[k];
      var decision := Decision(true, Authorized, permit.payload.ruleId, Some(permit), Some(c));
      var now := clock.Now();
      past := past.(
        inflight := past.inflight[..|past.inflight|-1],
        audited := past.audited[sequence := Audited(|evidence.events|, result)]);
      var _ := evidence.Append(now, original, decision, permit.payload.policyVersion, Some(result));
    }

    /** `_record_nonexecution` */
    method RecordNonexecution(r: Request, decision: Decision)
      requires Valid()
      modifies Objects()
      ensures Valid()
      ensures State() == RecordDenial(cfg, old(State()), r, decision)
    {
      hide Evidence.NextEvent;
      var now := clock.Now();
      var _ := evidence.Append(now, r, decision, cfg.policy.version, None);
    }

    /** Number, sign and remember a permit for the canonical request `c` of `r`. */
    method Issue(r: Request, c: Request, now: int, ruleId: Option<string>) returns (permit: Permit)
      requires Valid() && c.capabilityId in capabilities.caps
      modifies this, key
      ensures Valid()
      ensures var s := old(State());
        var payload := NewPayload(cfg, s, c, now, ruleId);
        && permit == Permit(payload, cfg.signPermit(payload))
        && State() == s.(
             sequence := s.sequence + 1,
             pending := s.pending[s.sequence + 1 := (payload.expiresAt, c.(resource := r.resource))],
             past := s.past.(
               issued := s.past.issued + [payload],
               submitted := s.past.submitted + [r],
               charged := s.past.charged + [c.capabilityId]))
    {
      hide Policies.Deadline;
      permitSequence := permitSequence + 1;
      var expiresAt := Min(now + cfg.ttl, capabilities.caps[c.capabilityId].expiresAt);
      var deadline := Policies.Deadline(cfg.policy, ruleId);
      if deadline.Some? {
        expiresAt := Min(expiresAt, deadline.value);
      }
      var payload := PermitPayload(
        c, cfg.policy.version, c.capabilityId, c.subject, c.session, now, expiresAt,
        permitSequence, cfg.snapshot(environment.state).version, ruleId, cfg.manifest);
      permit := key.Sign(payload);
      permitRequests := permitRequests[permitSequence := (expiresAt, c.(resource := r.resource))];
      past := past.(
        issued := past.issued + [payload],
        submitted := past.submitted + [r],
        charged := past.charged + [c.capabilityId]);
    }

    /** Reserve the lineage, record the authorization and issue the permit: the end of `_evaluate_locked`. */
    method Grant(r: Request, c: Request, now: int, ruleId: Option<string>) returns (x: Evaluation)
      requires Valid() && Canonicalize(r) == Some(c)
      requires Stores.Validate(State().store, c, now).Success?
      requires
        Policies.Evaluate(cfg.policy, c, cfg.snapshot(State().env), now, State().usage) == Policies.Allowed(ruleId)
      requires cfg.check(State().env, c).None?
      modifies Objects()
      ensures Valid()
      ensures (State(), x) == Granting(cfg, old(State()), r, c, now, ruleId)
    {
      hide Canonicalize, Stores.Validate, Stores.Consume, Stores.WellFormed, NonEmpty, Policies.Evaluate,
           Policies.Record, Policies.Deadline, NewPayload;
      ghost var before := State();
      ValidatedIsStored(before.store, c, now);
      var refused := capabilities.Validate(c, now, true);
      assert refused.None?;
      var error := RecordAuthorization(cfg.policy, ruleId, c, now, policyRuntime);
      if error.Some? {
        return Faulted;
      }
      ConsumeKeepsCaps(before.store, Stores.Validate(before.store, c, now).value, c.nonce);
      SamePayload(cfg, before, State(), c, now, ruleId);
      var permit := Issue(r, c, now, ruleId);
      x := Decided(Decision(true, Authorized, ruleId, Some(permit), Some(c)));
    }

    /** `evaluate` */
    method Evaluate(r: Request) returns (x: Evaluation)
      requires Valid()
      modifies Objects()
      ensures Valid()
      ensures (State(), x) == Runtime.Evaluate(cfg, old(State()), r)
    {
      hide Canonicalize, Stores.Validate, Stores.Consume, Policies.Evaluate, Policies.Record, Granting;
      var now := clock.Now();
      if now < 0 {
        return Faulted;
      }
      permitRequests := map k | k in permitRequests && now < permitRequests[k].0 :: permitRequests[k];
      var canonical := Canonicalize(r);
      if canonical.None? {
        return Decided(Refuse(NotCanonical, None, None));
      }
      var c := canonical.value;
      var refused := capabilities.Validate(c, now, false);
      if refused.Some? {
        return Decided(Refuse(CapabilityRefused(refused.value), None, Some(c)));
      }
      var verdict := Policies.Evaluate(cfg.policy, c, cfg.snapshot(environment.state), now,
        Policies.Usage(policyRuntime.ruleHits, policyRuntime.authorizationHistory, policyRuntime.resourceUsage));
      if verdict.Refused? {
        return Decided(Refuse(PolicyRefused(verdict.reason), verdict.ruleId, Some(c)));
      }
      var violated := cfg.check(environment.state, c);
      if violated.Some? {
        return Decided(Refuse(InvariantRefused(violated.value), verdict.ruleId, Some(c)));
      }
      x := Grant(r, c, now, verdict.ruleId);
    }

    /** `execute_request` */
    method ExecuteRequest(r: Request) returns (reply: Reply)
      requires Valid()
      modifies Objects()
      ensures Valid()
      ensures (State(), reply) == Runtime.ExecuteRequest(cfg, old(State()), r)
      decreases Weight(r), 3
    {
      hide Canonicalize, Runtime.Evaluate, Runtime.Execute, RecordDenial, Weight;
      EvaluateNormalizes(cfg, State(), r);
      var evaluation := Evaluate(r);
      if evaluation.Faulted? {
        return Crashed;
      }
      var decision := evaluation.decision;
      if !decision.allowed || decision.permit.None? || decision.normalized.None? {
        RecordNonexecution(r, decision);
        return Answered(decision, None);
      }
      var execution := gateway.Execute(decision.normalized.value, decision.permit.value);
      match execution {
        case Completed(result) => return Answered(decision, Some(result));
        case Aborted(error) => return Interrupt(error);
        case Rejected(fault) =>
          var sequence := decision.permit.value.payload.sequence;
          permitRequests := map k | k in permitRequests && k != sequence :: permitRequests[k];
          var rejected := Refuse(PermitRejected(fault), decision.ruleId, decision.normalized);
          RecordNonexecution(r, rejected);
          return Answered(rejected, None);
      }
    }

    /** `_execute_nested_request`: a denied nested action becomes a failed result, never a direct execution. */
    method ExecuteNestedRequest(r: Request) returns (outcome: ToolOutcome)
      requires Valid()
      modifies Objects()
      ensures Valid()
      ensures State() == Runtime.ExecuteRequest(cfg, old(State()), r).0
      ensures outcome == InnerOutcome(cfg, State().env, Runtime.ExecuteRequest(cfg, old(State()), r).1)
      decreases Weight(r), 4
    {
      hide Runtime.ExecuteRequest, Weight;
      var reply := ExecuteRequest(r);
      match reply {
        case Crashed => outcome := Raised("ValueError");
        case Interrupt(error) => outcome := Interrupted(error);
        case Answered(decision, result) =>
          if decision.allowed && result.Some? {
            outcome := Returned(result.value);
          } else {
            outcome := Returned(ToolResult(
              false, "nested-authorization-denied", Obj(map["reason" := Str(cfg.describe(decision.reason))]),
              Some(cfg.snapshot(environment.state).version)));
          }
      }
    }
  }

  lemma ValidatedIsStored(store: Stores.Store, c: Request, now: int)
    requires Stores.Validate(store, c, now).Success?
    ensures c.capabilityId in store.caps
  {
  }

  lemma ConsumeKeepsCaps(store: Stores.Store, lineage: seq<Capabilities.Capability>, nonce: string)
    ensures Stores.Consume(store, lineage, nonce).caps == store.caps
  {
  }

  /** A permit does not depend on what has just been reserved or recorded for it. */
  lemma SamePayload<E>(cfg: Config<E>, s: Guardian<E>, t: Guardian<E>, c: Request, now: int, ruleId: Option<string>)
    requires c.capabilityId in s.store.caps && t.store.caps == s.store.caps
    requires t.sequence == s.sequence && t.env == s.env
    ensures NewPayload(cfg, t, c, now, ruleId) == NewPayload(cfg, s, c, now, ruleId)
  {
  }
}
