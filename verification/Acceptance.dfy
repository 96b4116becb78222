/**
 * When the monitor grants, when the gateway executes, and what is answered and
 * recorded: both directions, in terms of what a caller can see.
 */
module Acceptance {
  import opened Wrappers
  import opened Values
  import opened Canonical
  import opened Composition
  import opened Types
  import opened Runtime
  import opened Transitions
  import opened Safety
  import opened Theorems
  import Stores
  import Policies
  import Evidence

  // ----------------------------------------------------------------- gateway

  /** What the permit itself must be: issued, signed, and made out for this request, policy and runtime. */
  ghost predicate MadeOutFor<E>(cfg: Config<E>, s: Guardian<E>, r: Request, permit: Permit)
  {
    var p := permit.payload;
    && Canonicalize(r) == Some(p.request)
    && p in s.past.issued && cfg.acceptsPermit(p, permit.signature)
    && p.capabilityId == p.request.capabilityId && p.subject == p.request.subject && p.session == p.request.session
    && p.policyVersion == cfg.policy.version && p.manifest == cfg.manifest
  }

  /** What must hold at the moment of use: time, freshness, lineage, state, policy and invariants. */
  ghost predicate LiveAt<E>(cfg: Config<E>, s: Guardian<E>, permit: Permit, now: int)
    requires Stores.Forest(s.store.caps)
  {
    var p := permit.payload;
    && 0 <= now && p.issuedAt <= now && now < p.expiresAt
    && p.sequence !in s.usedSequences && permit !in s.usedPermits
    && p.capabilityId in s.store.caps && Stores.Active(s.store, p.capabilityId, now)
    && cfg.snapshot(s.env).version == p.stateVersion
    && Policies.Carries(cfg.policy, p.request, cfg.snapshot(s.env), now, p.ruleId)
    && cfg.check(s.env, p.request).None?
  }

  lemma StaticFaultMeaning<E>(cfg: Config<E>, s: Guardian<E>, r: Request, permit: Permit)
    ensures StaticFault(cfg, s, r, permit).None? <==> MadeOutFor(cfg, s, r, permit)
  {
    hide Canonicalize;
  }

  lemma DynamicFaultMeaning<E>(cfg: Config<E>, s: Guardian<E>, permit: Permit, now: int)
    requires Stores.Forest(s.store.caps)
    ensures DynamicFault(cfg, s, permit.payload.request, permit, now).None? <==> LiveAt(cfg, s, permit, now)
  {
    var p := permit.payload;
    Stores.StatusIsActive(s.store, p.capabilityId, now);
    Policies.RevalidateSpelledOut(cfg.policy, p.request, cfg.snapshot(s.env), now, p.ruleId);
    hide Stores.Forest, Stores.Status, Stores.Active, Policies.Revalidate, Policies.Carries;
  }

  lemma LiveIgnoresTicks<E>(cfg: Config<E>, s: Guardian<E>, permit: Permit, now: int)
    requires Stores.Forest(s.store.caps)
    ensures LiveAt(cfg, s.(ticks := s.ticks + 1), permit, now) <==> LiveAt(cfg, s, permit, now)
  {
    hide Stores.Forest, Stores.Active, Policies.Carries;
  }

  /**
   * The gateway executes a request under a permit if and only if the permit is
   * made out for it and live at the reading of the clock, however long after issue.
   */
  lemma GatewayAccepts<E>(cfg: Config<E>, s: Guardian<E>, r: Request, permit: Permit)
    requires Stores.Forest(s.store.caps)
    ensures !Execute(cfg, s, r, permit).1.Rejected? <==>
      MadeOutFor(cfg, s, r, permit) && LiveAt(cfg, s, permit, cfg.clock(s.ticks))
  {
    hide Execute, StaticFault, DynamicFault, CrossBoundary, Canonicalize, LiveAt, Stores.Forest;
    ExecuteCases(cfg, s, r, permit);
    StaticFaultMeaning(cfg, s, r, permit);
    var s1, now := s.(ticks := s.ticks + 1), cfg.clock(s.ticks);
    DynamicFaultMeaning(cfg, s1, permit, now);
    LiveIgnoresTicks(cfg, s, permit, now);
    if StaticFault(cfg, s, r, permit).None? {
      CrossingIsNotRejection(cfg, s1, Canonicalize(r).value, permit, now);
    }
  }

  /** An issued permit with the runtime's signature is made out for its own request. */
  lemma IssuedIsMadeOut<E>(cfg: Config<E>, s: Guardian<E>, p: PermitPayload)
    requires ValidConfig(cfg) && IssuedInv(s) && TermsInv(cfg, s) && p in s.past.issued
    ensures MadeOutFor(cfg, s, p.request, Permit(p, cfg.signPermit(p)))
  {
    var i :| 0 <= i < |s.past.issued| && s.past.issued[i] == p;
    assert Terms(cfg, s.store, s.past.submitted[i], p) && WellIssued(s.store, p);
    CanonicalizeMeaning(s.past.submitted[i]);
    hide Canonicalize, Lifetime;
  }

  lemma UnusedIsUnspent<E>(cfg: Config<E>, s: Guardian<E>, permit: Permit)
    requires BurnInv(cfg, s) && permit.payload.sequence !in s.usedSequences
    ensures permit !in s.usedPermits
  {
    hide BurnSafe;
  }

  /**
   * After any run an unspent permit, on its own request, executes if and only if
   * its window is open, its lineage active, the state version the bound one, the
   * policy still carries it by its own rule, and the invariants hold.
   */
  lemma LivePermitExecutes<E>(cfg: Config<E>, start: Start<E>, steps: seq<Step<E>>, p: PermitPayload)
    requires ValidConfig(cfg) && ValidStart(start)
    requires p in After(cfg, start, steps).past.issued && p.sequence !in After(cfg, start, steps).usedSequences
    ensures var s := After(cfg, start, steps);
      var now, state := cfg.clock(s.ticks), cfg.snapshot(s.env);
      && Stores.Forest(s.store.caps) && p.capabilityId in s.store.caps
      && (!Execute(cfg, s, p.request, Permit(p, cfg.signPermit(p))).1.Rejected? <==>
            && 0 <= now && p.issuedAt <= now < p.expiresAt
            && Stores.Active(s.store, p.capabilityId, now)
            && state.version == p.stateVersion
            && Policies.Carries(cfg.policy, p.request, state, now, p.ruleId)
            && cfg.check(s.env, p.request).None?)
  {
    hide After, StoreInv, IssuedInv, UsageInv, BurnInv, AuditInv, NestInv, OrderInv, PendingInv, ClockInv, TermsInv,
         EventsInv, NestedInv, ValidStart, ValidConfig, Execute, MadeOutFor, Stores.Active, Policies.Carries;
    ReachableInv(cfg, start, steps);
    var s, permit := After(cfg, start, steps), Permit(p, cfg.signPermit(p));
    StoreIsForest(s);
    IssuedIsStored(cfg, s, p);
    IssuedIsMadeOut(cfg, s, p);
    UnusedIsUnspent(cfg, s, permit);
    GatewayAccepts(cfg, s, p.request, permit);
  }

  lemma IssuedIsStored<E>(cfg: Config<E>, s: Guardian<E>, p: PermitPayload)
    requires IssuedInv(s) && p in s.past.issued
    ensures p.capabilityId in s.store.caps
  {
    hide Canonicalize;
    var i :| 0 <= i < |s.past.issued| && s.past.issued[i] == p;
    assert WellIssued(s.store, s.past.issued[i]);
  }

  /** Each rejection names something that is the case. */
  ghost predicate TrueFault<E>(cfg: Config<E>, s: Guardian<E>, r: Request, permit: Permit, fault: PermitFault)
  {
    var p, now, state := permit.payload, cfg.clock(s.ticks), cfg.snapshot(s.env);
    match fault
    case InvalidRequest => Canonicalize(r).None?
    case HashMismatch => Canonicalize(r) != Some(p.request)
    case BadSignature => p !in s.past.issued || !cfg.acceptsPermit(p, permit.signature)
    case CapabilityMismatch => p.capabilityId != p.request.capabilityId
    case IdentityMismatch => p.subject != p.request.subject || p.session != p.request.session
    case PolicyVersionMismatch => p.policyVersion != cfg.policy.version
    case ManifestMismatch => p.manifest != cfg.manifest
    case BadClock => now < 0
    case IssuedInFuture => now < p.issuedAt
    case PermitExpired => p.expiresAt <= now
    case Replayed => p.sequence in s.usedSequences || permit in s.usedPermits
    case CapabilityInactive(why) => Stores.Status(s.store, p.capabilityId, now) == Some(why)
    case StateChanged => state.version != p.stateVersion
    case PolicyRestricts(rule) => !Policies.Carries(cfg.policy, p.request, state, now, p.ruleId)
    case InvariantFails(message) => cfg.check(s.env, p.request) == Some(message)
  }

  /** The conditions on a permit, in the order in which the gateway checks them. */
  ghost predicate Met<E>(cfg: Config<E>, s: Guardian<E>, r: Request, permit: Permit, stage: nat)
  {
    var p, now, state := permit.payload, cfg.clock(s.ticks), cfg.snapshot(s.env);
    match stage
    case 0 => Canonicalize(r).Some?
    case 1 => Canonicalize(r) == Some(p.request)
    case 2 => p in s.past.issued && cfg.acceptsPermit(p, permit.signature)
    case 3 => p.capabilityId == p.request.capabilityId
    case 4 => p.subject == p.request.subject && p.session == p.request.session
    case 5 => p.policyVersion == cfg.policy.version
    case 6 => p.manifest == cfg.manifest
    case 7 => 0 <= now
    case 8 => p.issuedAt <= now
    case 9 => now < p.expiresAt
    case 10 => p.sequence !in s.usedSequences && permit !in s.usedPermits
    case 11 => Stores.Status(s.store, p.capabilityId, now).None?
    case 12 => state.version == p.stateVersion
    case 13 => Policies.Carries(cfg.policy, p.request, state, now, p.ruleId)
    case _ => cfg.check(s.env, p.request).None?
  }

  function StageOf(fault: PermitFault): nat
  {
    match fault
    case InvalidRequest => 0
    case HashMismatch => 1
    case BadSignature => 2
    case CapabilityMismatch => 3
    case IdentityMismatch => 4
    case PolicyVersionMismatch => 5
    case ManifestMismatch => 6
    case BadClock => 7
    case IssuedInFuture => 8
    case PermitExpired => 9
    case Replayed => 10
    case CapabilityInactive(_) => 11
    case StateChanged => 12
    case PolicyRestricts(_) => 13
    case InvariantFails(_) => 14
  }

  /** The fault names the first condition that is not met, and why. */
  ghost predicate FirstUnmet<E>(cfg: Config<E>, s: Guardian<E>, r: Request, permit: Permit, fault: PermitFault)
  {
    && TrueFault(cfg, s, r, permit, fault)
    && !Met(cfg, s, r, permit, StageOf(fault))
    && forall earlier: nat | earlier < StageOf(fault) :: Met(cfg, s, r, permit, earlier)
  }

  /** A rejection reports the first condition that is not met. */
  lemma RejectionIsTrue<E>(cfg: Config<E>, s: Guardian<E>, r: Request, permit: Permit)
    ensures var execution := Execute(cfg, s, r, permit).1;
      execution.Rejected? ==>
        FirstUnmet(cfg, s, r, permit, execution.fault)
  {
    hide Execute, Canonicalize, StaticFault, DynamicFault, CrossBoundary, FirstUnmet, Met;
    ExecuteCases(cfg, s, r, permit);
    var s1, now := s.(ticks := s.ticks + 1), cfg.clock(s.ticks);
    StaticFaultIsFirst(cfg, s, r, permit);
    if StaticFault(cfg, s, r, permit).None? {
      CanonicalStays(r);
      DynamicFaultIsFirst(cfg, s, r, permit);
      CrossingIsNotRejection(cfg, s1, Canonicalize(r).value, permit, now);
    }
  }

  lemma StaticFaultIsFirst<E>(cfg: Config<E>, s: Guardian<E>, r: Request, permit: Permit)
    ensures match StaticFault(cfg, s, r, permit)
      case Some(fault) => FirstUnmet(cfg, s, r, permit, fault)
      case None => forall earlier: nat | earlier < 7 :: Met(cfg, s, r, permit, earlier)
  {
    hide Canonicalize, Stores.Status, Policies.Carries;
  }

  lemma DynamicFaultIsFirst<E>(cfg: Config<E>, s: Guardian<E>, r: Request, permit: Permit)
    requires forall earlier: nat | earlier < 7 :: Met(cfg, s, r, permit, earlier)
    ensures Canonicalize(r) == Some(permit.payload.request)
    ensures var c, s1 := permit.payload.request, s.(ticks := s.ticks + 1);
      var fault := DynamicFault(cfg, s1, c, permit, cfg.clock(s.ticks));
      fault.Some? ==> FirstUnmet(cfg, s, r, permit, fault.value)
  {
    assert Met(cfg, s, r, permit, 1);
    DynamicFaultIsTrue(cfg, s, r, permit);
    DynamicFaultIsOrdered(cfg, s, r, permit);
    hide Canonicalize, DynamicFault, TrueFault, Met;
  }

  lemma DynamicFaultIsTrue<E>(cfg: Config<E>, s: Guardian<E>, r: Request, permit: Permit)
    ensures var c, s1 := permit.payload.request, s.(ticks := s.ticks + 1);
      var fault := DynamicFault(cfg, s1, c, permit, cfg.clock(s.ticks));
      fault.Some? ==> TrueFault(cfg, s, r, permit, fault.value) && 7 <= StageOf(fault.value) <= 14
  {
    var p := permit.payload;
    Policies.RevalidateSpelledOut(cfg.policy, p.request, cfg.snapshot(s.env), cfg.clock(s.ticks), p.ruleId);
    hide Canonicalize, Stores.Status, Policies.Revalidate, Policies.Carries;
  }

  lemma DynamicFaultIsOrdered<E>(cfg: Config<E>, s: Guardian<E>, r: Request, permit: Permit)
    requires forall earlier: nat | earlier < 7 :: Met(cfg, s, r, permit, earlier)
    ensures var c, s1 := permit.payload.request, s.(ticks := s.ticks + 1);
      var fault := DynamicFault(cfg, s1, c, permit, cfg.clock(s.ticks));
      fault.Some? ==>
        && !Met(cfg, s, r, permit, StageOf(fault.value))
        && forall earlier: nat | earlier < StageOf(fault.value) :: Met(cfg, s, r, permit, earlier)
  {
    Policies.RevalidateSpelledOut(cfg.policy, permit.payload.request, cfg.snapshot(s.env), cfg.clock(s.ticks),
                                  permit.payload.ruleId);
    LateStages(cfg, s, r, permit);
    hide Canonicalize, Stores.Status, Policies.Revalidate, Policies.Carries, Met;
  }

  lemma LateStages<E>(cfg: Config<E>, s: Guardian<E>, r: Request, permit: Permit)
    ensures var p, now, state := permit.payload, cfg.clock(s.ticks), cfg.snapshot(s.env);
      && Met(cfg, s, r, permit, 7) == (0 <= now)
      && Met(cfg, s, r, permit, 8) == (p.issuedAt <= now)
      && Met(cfg, s, r, permit, 9) == (now < p.expiresAt)
      && Met(cfg, s, r, permit, 10) == (p.sequence !in s.usedSequences && permit !in s.usedPermits)
      && Met(cfg, s, r, permit, 11) == Stores.Status(s.store, p.capabilityId, now).None?
      && Met(cfg, s, r, permit, 12) == (state.version == p.stateVersion)
      && Met(cfg, s, r, permit, 13) == Policies.Carries(cfg.policy, p.request, state, now, p.ruleId)
      && Met(cfg, s, r, permit, 14) == cfg.check(s.env, p.request).None?
  {
    hide Canonicalize, Stores.Status, Policies.Carries;
  }

  lemma CanonicalStays(r: Request)
    requires Canonicalize(r).Some?
    ensures Canonicalize(Canonicalize(r).value) == Canonicalize(r)
  {
    CanonicalizeIdempotent(r);
  }

  // ------------------------------------------------------------------ monitor

  /** All that granting the canonical request `c` by `ruleId` at `now` depends on. */
  ghost predicate Grantworthy<E>(cfg: Config<E>, s: Guardian<E>, c: Request, now: int, ruleId: Option<string>)
    requires Stores.Forest(s.store.caps)
  {
    && now >= 0 && c.capabilityId in s.store.caps
    && Stores.AllAllow(s.store, Stores.Chain(s.store.caps, c.capabilityId), c, now)
    && Policies.Carries(cfg.policy, c, cfg.snapshot(s.env), now, ruleId)
    && (forall i | 0 <= i < |cfg.policy.rules| && Some(cfg.policy.rules[i].id) == ruleId ::
          Policies.HasRoom(cfg.policy.rules[i], c, now, s.usage))
    && cfg.check(s.env, c).None?
  }

  lemma GrantableMeaning<E>(cfg: Config<E>, s: Guardian<E>, r: Request, now: int, ruleId: Option<string>)
    requires ValidConfig(cfg) && Stores.Forest(s.store.caps)
    ensures Canonicalize(r).Some? && Grantworthy(cfg, s, Canonicalize(r).value, now, ruleId) ==>
      Grantable(cfg, s, r, now) && GrantedRule(cfg, s, Canonicalize(r).value, now) == ruleId
    ensures Grantable(cfg, s, r, now) ==>
      var c := Canonicalize(r).value; Grantworthy(cfg, s, c, now, GrantedRule(cfg, s, c, now))
  {
    if Canonicalize(r).Some? {
      var c, state := Canonicalize(r).value, cfg.snapshot(s.env);
      var found := Policies.Evaluate(cfg.policy, c, state, now, s.usage).ruleId;
      Stores.ValidateSpelledOut(s.store, c, now);
      Policies.EvaluateSpelledOut(cfg.policy, c, state, now, s.usage, ruleId);
      Policies.EvaluateSpelledOut(cfg.policy, c, state, now, s.usage, found);
      if Policies.Evaluate(cfg.policy, c, state, now, s.usage).Allowed? {
        Policies.AllowedIsRecordable(cfg.policy, c, state, now, s.usage);
      }
    }
    hide Canonicalize, Stores.Validate, Stores.AllAllow, Stores.Chain, Stores.Forest, Policies.Evaluate,
         Policies.Record, Policies.Carries, Policies.HasRoom;
  }

  /**
   * The monitor grants a request by a rule if and only if the request has a
   * canonical form, every capability of its lineage allows it here and now, nothing
   * restricts it, that rule is the first to allow it and has room, and the
   * invariants hold.
   */
  lemma MonitorGrants<E>(cfg: Config<E>, s: Guardian<E>, r: Request, ruleId: Option<string>)
    requires ValidConfig(cfg) && Stores.Forest(s.store.caps)
    ensures var evaluation := Evaluate(cfg, s, r).1;
      evaluation.Decided? && evaluation.decision.allowed && evaluation.decision.ruleId == ruleId <==>
        Canonicalize(r).Some? && Grantworthy(cfg, s, Canonicalize(r).value, cfg.clock(s.ticks), ruleId)
  {
    hide Evaluate, Grantworthy, Canonicalize, Grantable, Granted, GrantedPayload, Unexpired, Stores.Forest,
         GrantedRule;
    EvaluateCases(cfg, s, r);
    var now := cfg.clock(s.ticks);
    var s1 := s.(ticks := s.ticks + 1, pending := Unexpired(s.pending, now));
    GrantableMeaning(cfg, s1, r, now, ruleId);
    if Grantable(cfg, s1, r, now) {
      GrantableIsCanonical(cfg, s1, r, now);
      GrantsIgnoresPending(cfg, s, s1, Canonicalize(r).value, now, GrantedRule(cfg, s1, Canonicalize(r).value, now));
    }
    if Canonicalize(r).Some? {
      GrantsIgnoresPending(cfg, s, s1, Canonicalize(r).value, now, ruleId);
      GrantsInTime(cfg, s, Canonicalize(r).value, now, ruleId);
    }
  }

  lemma GrantsInTime<E>(cfg: Config<E>, s: Guardian<E>, c: Request, now: int, ruleId: Option<string>)
    requires Stores.Forest(s.store.caps)
    ensures Grantworthy(cfg, s, c, now, ruleId) ==> now >= 0
  {
  }

  lemma GrantableIsCanonical<E>(cfg: Config<E>, s: Guardian<E>, r: Request, now: int)
    requires Grantable(cfg, s, r, now)
    ensures Canonicalize(r).Some?
    ensures GrantedPayload(cfg, s, r, now).ruleId == GrantedRule(cfg, s, Canonicalize(r).value, now)
  {
    hide Canonicalize, GrantedRule;
  }

  lemma GrantsIgnoresPending<E>(cfg: Config<E>, s: Guardian<E>, t: Guardian<E>, c: Request, now: int,
                                ruleId: Option<string>)
    requires t == s.(ticks := t.ticks, pending := t.pending) && Stores.Forest(s.store.caps)
    ensures Grantworthy(cfg, t, c, now, ruleId) <==> Grantworthy(cfg, s, c, now, ruleId)
  {
    hide Stores.Forest, Stores.Chain, Stores.AllAllow, Policies.Carries, Policies.HasRoom;
  }

  /** Each denial names the first stage that failed, and why. */
  lemma DenialIsTrue<E>(cfg: Config<E>, s: Guardian<E>, r: Request)
    requires ValidConfig(cfg)
    ensures var now, state, evaluation := cfg.clock(s.ticks), cfg.snapshot(s.env), Evaluate(cfg, s, r).1;
      evaluation.Decided? && !evaluation.decision.allowed ==>
        match evaluation.decision.reason
        case NotCanonical => Canonicalize(r).None?
        case CapabilityRefused(why) =>
          Canonicalize(r).Some? && Stores.Validate(s.store, Canonicalize(r).value, now) == Failure(why)
        case PolicyRefused(why) =>
          && Canonicalize(r).Some? && Stores.Validate(s.store, Canonicalize(r).value, now).Success?
          && Policies.Evaluate(cfg.policy, Canonicalize(r).value, state, now, s.usage)
               == Policies.Refused(why, evaluation.decision.ruleId)
        case InvariantRefused(message) =>
          && Canonicalize(r).Some? && Stores.Validate(s.store, Canonicalize(r).value, now).Success?
          && Policies.Evaluate(cfg.policy, Canonicalize(r).value, state, now, s.usage)
               == Policies.Allowed(evaluation.decision.ruleId)
          && cfg.check(s.env, Canonicalize(r).value) == Some(message)
        case _ => false
  {
    hide Canonicalize, Stores.Validate, Policies.Evaluate, Policies.Record, GrantedPayload, Granted, Unexpired;
  }

  /** Evaluation releases exactly the requests whose permits have expired, and keeps the one it grants. */
  lemma ExpiredAreReleased<E>(cfg: Config<E>, s: Guardian<E>, r: Request, n: int)
    requires ValidConfig(cfg) && cfg.clock(s.ticks) >= 0
    ensures Evaluate(cfg, s, r).1.Decided?
    ensures var (after, evaluation) := Evaluate(cfg, s, r);
      n in after.pending <==>
        || (n in s.pending && cfg.clock(s.ticks) < s.pending[n].0)
        || (evaluation.decision.allowed && n == s.sequence + 1)
  {
    hide Evaluate, Grantable, Granted, GrantedPayload, Canonicalize;
    EvaluateCases(cfg, s, r);
    var now := cfg.clock(s.ticks);
    var s1 := s.(ticks := s.ticks + 1, pending := Unexpired(s.pending, now));
    if Grantable(cfg, s1, r, now) { GrantPends(cfg, s1, r, now); }
  }

  lemma GrantPends<E>(cfg: Config<E>, s: Guardian<E>, r: Request, now: int)
    requires Grantable(cfg, s, r, now)
    ensures Granted(cfg, s, r, now).pending.Keys == s.pending.Keys + {s.sequence + 1}
  {
    hide Grantable, Canonicalize, GrantedPayload;
  }

  // ------------------------------------------------------------------ results

  /** A result a tool may return: a status, a plain object at most 64 deep, a version if any that is one. */
  predicate ProperResult(r: ToolResult)
  {
    && r.status != "" && r.output.Obj?
    && (r.stateVersion.Some? ==> r.stateVersion.value >= 0)
  }

  /** A proper result is recorded as it is, up to normalization; anything else as a failure at the current version. */
  lemma DirectResultMeaning<E>(cfg: Config<E>, b: Burn<E>)
    ensures var (env, outcome) := cfg.exec(b.env, b.request);
      var result := DirectResult(cfg, b);
      if outcome.Returned? && ProperResult(outcome.result)
         && IsPlain(outcome.result.output) && Height(outcome.result.output) <= 64
      then
        && result.ok == outcome.result.ok && result.status == outcome.result.status
        && result.stateVersion == outcome.result.stateVersion
        && JsonEqual(outcome.result.output, result.output)
        && Normalize(result.output, 0, MAX_OUTPUT_DEPTH) == Some(result.output)
      else
        && result.stateVersion == Some(cfg.snapshot(env).version)
        && match outcome
           case Returned(returned) =>
             Failed(result, "invalid-tool-result", if ProperResult(returned)
               then "CanonicalizationError" else "ValueError")
           case NotAResult => Failed(result, "invalid-tool-result", "TypeError")
           case Raised(error) => Failed(result, "tool-error", error)
           case Interrupted(error) => Failed(result, "tool-interrupted", error)
  {
    var outcome := cfg.exec(b.env, b.request).1;
    if outcome.Returned? {
      var output := outcome.result.output;
      NormalizeAccepts(output, 0, MAX_OUTPUT_DEPTH);
      if Normalize(output, 0, MAX_OUTPUT_DEPTH).Some? {
        NormalizeIdempotent(output, 0, MAX_OUTPUT_DEPTH, Normalize(output, 0, MAX_OUTPUT_DEPTH).value);
      }
    }
    hide Normalize, IsPlain, Height, JsonEqual;
  }

  /** A request that ends in a result is answered with the result its last event records. */
  lemma SettledIsRecorded<E>(cfg: Config<E>, s: Guardian<E>, c: Request, permit: Permit, outcome: ToolOutcome)
    requires s.past.inflight != []
    ensures var (after, execution) := Settle(cfg, s, c, permit, outcome);
      execution.Completed? ==> RecordedAs(cfg, after, c, execution.result)
  {
    hide FinalResult, Original, Evidence.Terminal;
  }

  /** The last event allows the canonical request `c` with this result. */
  ghost predicate RecordedAs<E>(cfg: Config<E>, s: Guardian<E>, c: Request, result: ToolResult)
  {
    && s.events != []
    && var e := s.events[|s.events|-1].payload;
    && e.allowed && e.normalized == Some(c) && e.resultDigest == cfg.crypto.resultHash(result)
  }

  lemma CrossingIsRecorded<E>(cfg: Config<E>, s: Guardian<E>, c: Request, permit: Permit, now: int)
    requires Canonicalize(c) == Some(c)
    ensures var (after, execution) := CrossBoundary(cfg, s, c, permit, now);
      execution.Completed? ==> RecordedAs(cfg, after, c, execution.result)
  {
    hide Canonicalize, BurnPermit, Settle, ExecuteNested, RecordedAs;
    BurnIsInnermost(cfg, s, c, permit, now);
    var burned := BurnPermit(cfg, s, c, permit, now);
    if IsDirect(cfg, c) {
      SettledIsRecorded(cfg, burned, c, permit, cfg.exec(s.env, c).1);
    } else {
      var (after, outcome) := ExecuteNested(cfg, burned, c);
      SettledIsRecorded(cfg, after, c, permit, outcome);
    }
  }

  lemma ExecutionIsRecorded<E>(cfg: Config<E>, s: Guardian<E>, r: Request, permit: Permit)
    ensures var (after, execution) := Execute(cfg, s, r, permit);
      execution.Completed? ==> Canonicalize(r).Some? && RecordedAs(cfg, after, Canonicalize(r).value, execution.result)
  {
    hide Execute, Canonicalize, StaticFault, DynamicFault, CrossBoundary, RecordedAs;
    ExecuteCases(cfg, s, r, permit);
    if StaticFault(cfg, s, r, permit).None? {
      CrossingIsRecorded(cfg, s.(ticks := s.ticks + 1), Canonicalize(r).value, permit, cfg.clock(s.ticks));
    }
  }

  /** The last event denies exactly this request with this reason. */
  ghost predicate DeniedAs<E>(s: Guardian<E>, r: Request, decision: Decision)
  {
    && s.events != []
    && var e := s.events[|s.events|-1].payload;
    && !e.allowed && e.requested == r && e.reason == decision.reason
    && e.ruleId == decision.ruleId && e.normalized == decision.normalized && e.resultDigest == ""
  }

  lemma DenialIsRecorded<E>(cfg: Config<E>, s: Guardian<E>, r: Request, decision: Decision)
    requires !decision.allowed
    ensures DeniedAs(RecordDenial(cfg, s, r, decision), r, decision)
  {
    hide Evidence.Terminal;
  }

  /** Every answer is the one the last event of the log reports. */
  lemma AnswersAreRecorded<E>(cfg: Config<E>, s: Guardian<E>, r: Request)
    requires ValidConfig(cfg)
    ensures var (after, reply) := ExecuteRequest(cfg, s, r);
      reply.Answered? ==>
        match reply.result
        case None => DeniedAs(after, r, reply.decision)
        case Some(result) =>
          && reply.decision.allowed && reply.decision.normalized == Canonicalize(r) && Canonicalize(r).Some?
          && RecordedAs(cfg, after, Canonicalize(r).value, result)
  {
    hide Evaluate, Execute, Canonicalize, RecordDenial, Denies, RecordedAs, DeniedAs, Forget, Weight;
    EvaluateAnswers(cfg, s, r);
    var (s1, evaluation) := Evaluate(cfg, s, r);
    if evaluation.Decided? {
      var d := evaluation.decision;
      if !d.allowed {
        DenialIsRecorded(cfg, s1, r, d);
      } else {
        EvaluateNormalizes(cfg, s, r);
        CanonicalStays(r);
        var (s2, execution) := Execute(cfg, s1, d.normalized.value, d.permit.value);
        ExecutionIsRecorded(cfg, s1, d.normalized.value, d.permit.value);
        if execution.Rejected? {
          var rejected := Refuse(PermitRejected(execution.fault), d.ruleId, d.normalized);
          DenialIsRecorded(cfg, Forget(s2, d.permit.value.payload.sequence), r, rejected);
        }
      }
    }
  }

  lemma GrantKeepsSubmission<E>(cfg: Config<E>, s: Guardian<E>, r: Request)
    requires ValidConfig(cfg)
    requires Evaluate(cfg, s, r).1.Decided? && Evaluate(cfg, s, r).1.decision.allowed
    ensures var (after, evaluation) := Evaluate(cfg, s, r);
      && Canonicalize(r).Some? && evaluation.decision.permit.Some?
      && var n := evaluation.decision.permit.value.payload.sequence;
         n in after.pending && after.pending[n].1 == Canonicalize(r).value.(resource := r.resource)
  {
    hide Evaluate, Grantable, Canonicalize, Unexpired, GrantedRule;
    EvaluateCases(cfg, s, r);
  }

  /** The last event records this very request. */
  ghost predicate LastRequested<E>(s: Guardian<E>, r: Request)
  {
    s.events != [] && s.events[|s.events|-1].payload.requested == r
  }

  lemma DirectRecordsPending<E>(cfg: Config<E>, s: Guardian<E>, r: Request, permit: Permit)
    requires permit.payload.sequence in s.pending
    ensures var (after, execution) := Execute(cfg, s, r, permit);
      !execution.Rejected? ==>
        && Canonicalize(r).Some?
        && (IsDirect(cfg, Canonicalize(r).value) ==> LastRequested(after, s.pending[permit.payload.sequence].1))
  {
    hide Execute, Canonicalize, StaticFault, DynamicFault, FinalResult, ExecuteNested, Evidence.Terminal;
    ExecuteCases(cfg, s, r, permit);
  }

  /** A direct execution is recorded for the request as submitted: canonical but for its resource. */
  lemma SubmissionIsRecorded<E>(cfg: Config<E>, s: Guardian<E>, r: Request)
    requires ValidConfig(cfg)
    ensures var (after, reply) := ExecuteRequest(cfg, s, r);
      reply.Answered? && reply.result.Some? ==>
        && Canonicalize(r).Some?
        && (IsDirect(cfg, Canonicalize(r).value) ==>
              LastRequested(after, Canonicalize(r).value.(resource := r.resource)))
  {
    hide Evaluate, Execute, Canonicalize, RecordDenial, Weight, IsDirect, LastRequested;
    var (s1, evaluation) := Evaluate(cfg, s, r);
    if evaluation.Decided? && evaluation.decision.allowed {
      var d := evaluation.decision;
      GrantKeepsSubmission(cfg, s, r);
      EvaluateNormalizes(cfg, s, r);
      CanonicalStays(r);
      DirectRecordsPending(cfg, s1, d.normalized.value, d.permit.value);
    }
  }

  // ------------------------------------------------------------- what happens

  /**
   * An accepted direct execution spends its permit, runs the tool once on the
   * environment as it is, and ends as the tool does.
   */
  lemma AcceptedExecutionRuns<E>(cfg: Config<E>, s: Guardian<E>, r: Request, permit: Permit)
    requires !Execute(cfg, s, r, permit).1.Rejected?
    ensures Canonicalize(r).Some?
    ensures var (after, execution) := Execute(cfg, s, r, permit);
      var c := Canonicalize(r).value;
      IsDirect(cfg, c) ==>
        && var (env, outcome) := cfg.exec(s.env, c);
        && after.env == env && after.executions == s.executions + 1
        && after.usedSequences == s.usedSequences + {permit.payload.sequence}
        && after.usedPermits == s.usedPermits + {permit}
        && after.store == s.store && after.usage == s.usage && after.sequence == s.sequence
        && after.pending == (map n | n in s.pending && n != permit.payload.sequence :: s.pending[n])
        && |after.events| == |s.events| + 1
        && match outcome
           case Interrupted(error) => execution == Aborted(error)
           case _ => execution.Completed?
  {
    hide Execute, Canonicalize, StaticFault, DynamicFault, FinalResult, ExecuteNested, Evidence.NextEvent, Original;
    ExecuteCases(cfg, s, r, permit);
  }

  /**
   * A composed action runs exactly the action its parameters carry, through the
   * monitor again, and relays how that ended.
   */
  lemma ComposedRunsTarget<E>(cfg: Config<E>, s: Guardian<E>, c: Request, n: Request)
    requires Canonicalize(c) == Some(c) && cfg.composes
    requires ComposedOf(c, n) && n.action != "" && n.capabilityId != "" && n.params.Obj?
    ensures var (after, outcome) := ExecuteNested(cfg, s, c);
      var (asked, reply) := ExecuteRequest(cfg, s, n);
      && after == asked
      && match reply
         case Crashed => outcome == Raised("ValueError")
         case Interrupt(error) => outcome == Interrupted(error)
         case Answered(_, Some(result)) => outcome.Returned? && RelayedAs(c, result, outcome.result)
         case Answered(decision, None) =>
           && outcome.Returned?
           && RelayedAs(c, ToolResult(
                false, "nested-authorization-denied", Obj(map["reason" := Str(cfg.describe(decision.reason))]),
                Some(cfg.snapshot(asked.env).version)), outcome.result)
  {
    NestedMeaning(c, n);
    hide Canonicalize, BuildNested, ComposedOf, ExecuteRequest, Weight, Proxied, RelayedAs;
    forall inner: ToolResult | inner.output.Obj? ensures RelayedAs(c, inner, Proxied(c, inner)) {
      WrappingRelays(c, inner);
    }
    ReplyIsPresentable(cfg, s, n);
    hide LastAudited, LastDenied, NestedEnd, Presentable;
  }

  lemma WrappingRelays(c: Request, inner: ToolResult)
    requires inner.output.Obj?
    ensures RelayedAs(c, inner, Proxied(c, inner))
  {
  }

  lemma ReplyIsPresentable<E>(cfg: Config<E>, s: Guardian<E>, r: Request)
    ensures var (_, reply) := ExecuteRequest(cfg, s, r);
      reply.Answered? ==>
        && (reply.result.Some? <==> reply.decision.allowed)
        && (reply.result.Some? ==> reply.result.value.output.Obj?)
  {
    hide ExecuteRequest, Normalize;
  }

  /** A composed action that carries none, or has nowhere to run it, fails without touching anything. */
  lemma NothingToRun<E>(cfg: Config<E>, s: Guardian<E>, c: Request)
    requires Canonicalize(c) == Some(c)
    requires !cfg.composes || forall n | ComposedOf(c, n) :: n.action == "" || n.capabilityId == "" || !n.params.Obj?
    ensures ExecuteNested(cfg, s, c) == (s, Raised("PermitError"))
  {
    if BuildNested(c).Some? { NestedMeaning(c, BuildNested(c).value); }
    hide Canonicalize, BuildNested, ComposedOf, ExecuteRequest, Weight;
  }

  /** Only a clock that runs negative crashes a request. */
  lemma CrashMeaning<E>(cfg: Config<E>, s: Guardian<E>, r: Request)
    requires ValidConfig(cfg)
    ensures ExecuteRequest(cfg, s, r).1.Crashed? <==> cfg.clock(s.ticks) < 0
  {
    FaultMeaning(cfg, s, r);
    hide Evaluate, Execute, Canonicalize, RecordDenial, Weight, LastAudited, LastDenied, Forget;
  }

  lemma FaultMeaning<E>(cfg: Config<E>, s: Guardian<E>, r: Request)
    requires ValidConfig(cfg)
    ensures Evaluate(cfg, s, r).1.Faulted? <==> cfg.clock(s.ticks) < 0
  {
    EvaluateCases(cfg, s, r);
    hide Evaluate, Canonicalize, Grantable, Granted, GrantedPayload, Unexpired, Denies;
  }
}
