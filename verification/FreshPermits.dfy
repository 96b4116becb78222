/** A permit used at once is never falsely rejected. */
module FreshPermits {
  import opened Wrappers
  import opened Canonical
  import opened Composition
  import opened Types
  import opened Runtime
  import opened Transitions
  import opened Safety
  import Theorems
  import Stores
  import Policies
  import Evidence

  /** Used permits carry sequence numbers that have already been issued. */
  lemma UsedAreIssued<E>(cfg: Config<E>, s: Guardian<E>, n: int)
    requires IssuedInv(s) && BurnInv(cfg, s) && n in s.usedSequences
    ensures 1 <= n <= s.sequence
  {
    hide BurnSafe, WellIssued;
    var i :| 0 <= i < |s.past.burns| && s.past.burns[i].payload.sequence == n;
    var j :| 0 <= j < |s.past.issued| && s.past.issued[j] == s.past.burns[i].payload;
  }

  lemma FreshPassesStaticChecks<E>(cfg: Config<E>, s: Guardian<E>, r: Request, now: int)
    requires ValidConfig(cfg) && Grantable(cfg, s, r, now)
    ensures Canonicalize(r).Some?
    ensures var p := GrantedPayload(cfg, s, r, now);
      StaticFault(cfg, Granted(cfg, s, r, now), Canonicalize(r).value, Permit(p, cfg.signPermit(p))).None?
  {
    CanonicalWeight(r);
    hide Canonicalize, Stores.Validate, Policies.Evaluate, Policies.Record, Policies.Deadline, Weight;
  }

  /** The permit's own window is open at the moment of issue. */
  lemma FreshIsUnexpired<E>(cfg: Config<E>, s: Guardian<E>, r: Request, now: int)
    requires ValidConfig(cfg) && Stores.Forest(s.store.caps) && Grantable(cfg, s, r, now)
    ensures var p := GrantedPayload(cfg, s, r, now);
      p.issuedAt == now < p.expiresAt
  {
    var c, state := Canonicalize(r).value, cfg.snapshot(s.env);
    var rule := GrantedRule(cfg, s, c, now);
    assert now < s.store.caps[c.capabilityId].expiresAt by {
      Stores.ValidateMeaning(s.store, c, now);
      Stores.ChainShape(s.store.caps, c.capabilityId);
    }
    assert Policies.Deadline(cfg.policy, rule).Some? ==> now < Policies.Deadline(cfg.policy, rule).value by {
      DeadlineIsOpen(cfg.policy, c, state, now, s.usage);
    }
    hide Canonicalize, Stores.Validate, Policies.Evaluate, Policies.Record, Policies.Deadline;
  }

  lemma DeadlineIsOpen(p: Policies.Policy, c: Request, state: Policies.RuntimeState, now: int, usage: Policies.Usage)
    requires Policies.ValidPolicy(p) && Policies.Evaluate(p, c, state, now, usage).Allowed?
    ensures var deadline := Policies.Deadline(p, Policies.Evaluate(p, c, state, now, usage).ruleId);
      deadline.Some? ==> now < deadline.value
  {
    var id := Policies.Evaluate(p, c, state, now, usage).ruleId;
    if id.Some? { Policies.AllowedRule(p, c, state, now, usage, id.value); }
  }

  lemma GrantableIsActive<E>(cfg: Config<E>, s: Guardian<E>, r: Request, now: int)
    requires Stores.Forest(s.store.caps) && Grantable(cfg, s, r, now)
    ensures Canonicalize(r).Some?
    ensures var id := Canonicalize(r).value.capabilityId;
      now >= 0 && id in s.store.caps && Stores.Active(s.store, id, now)
  {
    Stores.ValidateMeaning(s.store, Canonicalize(r).value, now);
    hide Canonicalize, Stores.Validate, Policies.Evaluate, Policies.Record, Stores.Active;
  }

  lemma GrantKeepsRevocations<E>(cfg: Config<E>, s: Guardian<E>, r: Request, now: int)
    requires Grantable(cfg, s, r, now)
    ensures Granted(cfg, s, r, now).store.caps == s.store.caps
    ensures Granted(cfg, s, r, now).store.revoked == s.store.revoked
  {
    hide Canonicalize, Stores.Validate, Policies.Evaluate, Policies.Record, Policies.Deadline;
  }

  /** Reserving a lineage does not affect whether it is active. */
  lemma ReservationKeepsStatus<E>(cfg: Config<E>, s: Guardian<E>, r: Request, now: int)
    requires Stores.Forest(s.store.caps) && Grantable(cfg, s, r, now)
    ensures Canonicalize(r).Some?
    ensures Stores.Status(Granted(cfg, s, r, now).store, Canonicalize(r).value.capabilityId, now).None?
  {
    hide Granted, Grantable, Canonicalize, Stores.Status;
    GrantableIsActive(cfg, s, r, now);
    GrantKeepsRevocations(cfg, s, r, now);
    Stores.StatusIsActive(Granted(cfg, s, r, now).store, Canonicalize(r).value.capabilityId, now);
  }

  lemma FreshPolicy<E>(cfg: Config<E>, s: Guardian<E>, r: Request, now: int)
    requires Grantable(cfg, s, r, now)
    ensures Canonicalize(r).Some?
    ensures var c, p, after := Canonicalize(r).value, GrantedPayload(cfg, s, r, now), Granted(cfg, s, r, now);
      && now >= 0
      && after.env == s.env && p.stateVersion == cfg.snapshot(s.env).version
      && p.capabilityId == c.capabilityId && p.sequence == s.sequence + 1
      && after.usedSequences == s.usedSequences && after.usedPermits == s.usedPermits
      && Policies.Revalidate(cfg.policy, c, cfg.snapshot(s.env), now, p.ruleId).None?
      && cfg.check(s.env, c).None?
  {
    var c := Canonicalize(r).value;
    var id := GrantedRule(cfg, s, c, now);
    Policies.RevalidateMeaning(cfg.policy, c, cfg.snapshot(s.env), now, s.usage, id);
    assert now >= 0;
    hide Canonicalize, Stores.Validate, Policies.Evaluate, Policies.Revalidate, Policies.Record, Policies.Deadline;
  }

  lemma FreshPassesDynamicChecks<E>(cfg: Config<E>, s: Guardian<E>, r: Request, now: int, ticks: nat)
    requires ValidConfig(cfg) && Stores.Forest(s.store.caps) && IssuedInv(s) && BurnInv(cfg, s)
    requires Grantable(cfg, s, r, now)
    ensures Canonicalize(r).Some?
    ensures var p := GrantedPayload(cfg, s, r, now);
      var after := Granted(cfg, s, r, now).(ticks := ticks);
      DynamicFault(cfg, after, Canonicalize(r).value, Permit(p, cfg.signPermit(p)), now).None?
  {
    FreshPolicy(cfg, s, r, now);
    FreshIsUnexpired(cfg, s, r, now);
    ReservationKeepsStatus(cfg, s, r, now);
    var p := GrantedPayload(cfg, s, r, now);
    var permit := Permit(p, cfg.signPermit(p));
    if p.sequence in s.usedSequences { UsedAreIssued(cfg, s, p.sequence); }
    assert permit !in s.usedPermits;
    hide Canonicalize, Grantable, Granted, GrantedPayload, Stores.Status, Policies.Revalidate, BurnInv, IssuedInv;
  }

  /** The gateway, asked at the moment of the grant, crosses the boundary. */
  lemma GrantedIsAccepted<E>(cfg: Config<E>, s: Guardian<E>, r: Request, now: int)
    requires ValidConfig(cfg) && Stores.Forest(s.store.caps) && IssuedInv(s) && BurnInv(cfg, s)
    requires Grantable(cfg, s, r, now) && cfg.clock(s.ticks) == now
    ensures Canonicalize(r).Some?
    ensures var p := GrantedPayload(cfg, s, r, now);
      !Execute(cfg, Granted(cfg, s, r, now), Canonicalize(r).value, Permit(p, cfg.signPermit(p))).1.Rejected?
  {
    hide Execute, Canonicalize, Grantable, Granted, GrantedPayload, StaticFault, DynamicFault, IssuedInv, BurnInv,
         Stores.Forest, Weight, CrossBoundary;
    FreshPassesStaticChecks(cfg, s, r, now);
    FreshPassesDynamicChecks(cfg, s, r, now, s.ticks + 1);
    GrantKeepsTicks(cfg, s, r, now);
    CanonicalWeight(r);
    var c, p, after := Canonicalize(r).value, GrantedPayload(cfg, s, r, now), Granted(cfg, s, r, now);
    var permit := Permit(p, cfg.signPermit(p));
    ExecuteCases(cfg, after, c, permit);
    Theorems.CrossingIsNotRejection(cfg, after.(ticks := after.ticks + 1), c, permit, now);
  }

  /**
   * With a clock that reads the same twice, a permit handed straight to the
   * gateway is accepted, from any state the invariant allows: canonicalization is
   * stable, both policy paths agree, the window is open, the sequence is fresh.
   */
  lemma FreshPermitIsAccepted<E>(cfg: Config<E>, s: Guardian<E>, r: Request)
    requires ValidConfig(cfg) && Inv(cfg, s)
    requires cfg.clock(s.ticks + 1) == cfg.clock(s.ticks)
    requires Evaluate(cfg, s, r).1.Decided? && Evaluate(cfg, s, r).1.decision.allowed
    ensures var (after, evaluation) := Evaluate(cfg, s, r);
      && evaluation.decision.permit.Some? && evaluation.decision.normalized.Some?
      && !Execute(cfg, after, evaluation.decision.normalized.value, evaluation.decision.permit.value).1.Rejected?
  {
    hide Evaluate, Execute, Canonicalize, Grantable, Granted, GrantedPayload, Inv, IssuedInv, BurnInv,
         Stores.Forest, Unexpired;
    EvaluateCases(cfg, s, r);
    var now := cfg.clock(s.ticks);
    var s1 := s.(ticks := s.ticks + 1, pending := Unexpired(s.pending, now));
    InvIgnoresPending(cfg, s, s1);
    GrantedIsAccepted(cfg, s1, r, now);
  }

  lemma GrantKeepsTicks<E>(cfg: Config<E>, s: Guardian<E>, r: Request, now: int)
    requires Grantable(cfg, s, r, now)
    ensures Granted(cfg, s, r, now).ticks == s.ticks
  {
    hide Grantable;
  }

  lemma InvIgnoresPending<E>(cfg: Config<E>, s: Guardian<E>, other: Guardian<E>)
    requires Inv(cfg, s) && other == s.(ticks := other.ticks, pending := other.pending)
    ensures Stores.Forest(other.store.caps) && IssuedInv(other) && BurnInv(cfg, other)
  {
    hide BurnSafe, WellIssued, AuditInv, OrderInv, NestInv, UsageInv, PendingInv, ClockInv, TermsInv, EventsInv,
         NestedInv;
  }

  /** Only the gateway's rejection makes a request end with a rejected permit. */
  lemma RequestReasons<E>(cfg: Config<E>, s: Guardian<E>, r: Request)
    requires var (after, evaluation) := Evaluate(cfg, s, r);
      evaluation.Decided? ==>
        && !evaluation.decision.reason.PermitRejected?
        && (evaluation.decision.allowed && evaluation.decision.permit.Some? && evaluation.decision.normalized.Some? ==>
              !Execute(cfg, after, evaluation.decision.normalized.value, evaluation.decision.permit.value).1.Rejected?)
    ensures var reply := ExecuteRequest(cfg, s, r).1;
      reply.Answered? ==> !reply.decision.reason.PermitRejected?
  {
    hide Evaluate, Execute, RecordDenial, Weight;
  }

  /** So with a steady clock no request is ever answered with a permit rejection. */
  lemma SteadyClockNeverRejects<E>(cfg: Config<E>, start: Start<E>, steps: seq<Step<E>>, r: Request)
    requires ValidConfig(cfg) && ValidStart(start) && Steady(cfg)
    ensures var reply := ExecuteRequest(cfg, After(cfg, start, steps), r).1;
      reply.Answered? ==> !reply.decision.reason.PermitRejected?
  {
    hide After, Evaluate, Execute, Inv, ExecuteRequest, ValidStart;
    ReachableInv(cfg, start, steps);
    SteadyRequestAccepted(cfg, After(cfg, start, steps), r);
    RequestReasons(cfg, After(cfg, start, steps), r);
  }

  /** Every reading of the clock is the same. */
  ghost predicate Steady<E>(cfg: Config<E>)
  {
    forall t :: cfg.clock(t) == cfg.clock(0)
  }

  /** In any state, nested or not, an allowed request passes the gateway. */
  lemma SteadyRequestAccepted<E>(cfg: Config<E>, s: Guardian<E>, r: Request)
    requires ValidConfig(cfg) && Steady(cfg) && Inv(cfg, s)
    ensures var (after, evaluation) := Evaluate(cfg, s, r);
      evaluation.Decided? ==>
        && !evaluation.decision.reason.PermitRejected?
        && (evaluation.decision.allowed && evaluation.decision.permit.Some? && evaluation.decision.normalized.Some? ==>
              !Execute(cfg, after, evaluation.decision.normalized.value, evaluation.decision.permit.value).1.Rejected?)
  {
    hide Evaluate, Execute, Inv;
    EvaluationReasons(cfg, s, r);
    assert cfg.clock(s.ticks + 1) == cfg.clock(s.ticks);
    if Evaluate(cfg, s, r).1.Decided? && Evaluate(cfg, s, r).1.decision.allowed {
      FreshPermitIsAccepted(cfg, s, r);
    }
  }

  /** No event of the log reports a rejected permit. */
  ghost predicate NoRejections(events: seq<Evidence.Event>)
  {
    forall i | 0 <= i < |events| :: !events[i].payload.reason.PermitRejected?
  }

  lemma SettleAddsNoRejection<E>(cfg: Config<E>, s: Guardian<E>, c: Request, permit: Permit, outcome: ToolOutcome)
    requires s.past.inflight != [] && NoRejections(s.events)
    ensures NoRejections(Settle(cfg, s, c, permit, outcome).0.events)
  {
    hide FinalResult, Evidence.Terminal;
  }

  lemma DenialAddsNoRejection<E>(cfg: Config<E>, s: Guardian<E>, r: Request, decision: Decision)
    requires NoRejections(s.events) && !decision.reason.PermitRejected?
    ensures NoRejections(RecordDenial(cfg, s, r, decision).events)
  {
    hide Evidence.Terminal;
  }

  lemma BurnKeepsEvents<E>(cfg: Config<E>, s: Guardian<E>, c: Request, permit: Permit, now: int)
    ensures BurnPermit(cfg, s, c, permit, now).events == s.events
  {
  }

  lemma {:induction false} SteadyBoundary<E>(cfg: Config<E>, s: Guardian<E>, c: Request, permit: Permit, now: int)
    requires ValidConfig(cfg) && Steady(cfg) && Inv(cfg, s) && NoRejections(s.events)
    requires Canonicalize(c) == Some(c) && Enabled(cfg, s, Spend(c, permit, now))
    ensures NoRejections(CrossBoundary(cfg, s, c, permit, now).0.events)
    decreases Weight(c), 1
  {
    hide Canonicalize, BurnPermit, Settle, ExecuteNested, Weight, Inv, Enabled, NoRejections, Steady;
    var burned := BurnPermit(cfg, s, c, permit, now);
    StepKeepsInv(cfg, s, Spend(c, permit, now));
    BurnKeepsEvents(cfg, s, c, permit, now);
    BurnIsInnermost(cfg, s, c, permit, now);
    if IsDirect(cfg, c) {
      SettleAddsNoRejection(cfg, burned, c, permit, cfg.exec(s.env, c).1);
    } else {
      SteadyNested(cfg, burned, c);
      SettleAddsNoRejection(cfg, ExecuteNested(cfg, burned, c).0, c, permit, ExecuteNested(cfg, burned, c).1);
    }
  }

  lemma {:induction false} SteadyNested<E>(cfg: Config<E>, s: Guardian<E>, c: Request)
    requires ValidConfig(cfg) && Steady(cfg) && Inv(cfg, s) && NoRejections(s.events)
    requires Canonicalize(c) == Some(c) && s.past.inflight != []
    requires Innermost(s).request == c && !Innermost(s).direct
    ensures NoRejections(ExecuteNested(cfg, s, c).0.events)
    decreases Weight(c), 0
  {
    hide Canonicalize, BuildNested, ExecuteRequest, Weight, Wrapped, InnerOutcome, Inv, NoRejections, Steady,
         ComposedOf;
    if cfg.composes && BuildNested(c).Some? {
      NestedIsLighter(c);
      CanonicalWeight(c);
      if Canonicalize(BuildNested(c).value).Some? { NestedIsComposed(c); }
      SteadyRequest(cfg, s, BuildNested(c).value);
    }
  }

  lemma {:induction false} SteadyExecute<E>(cfg: Config<E>, s: Guardian<E>, r: Request, permit: Permit)
    requires ValidConfig(cfg) && Steady(cfg) && Inv(cfg, s) && NoRejections(s.events) && NestsInside(s, r)
    ensures NoRejections(Execute(cfg, s, r, permit).0.events)
    decreases Weight(r), 2
  {
    hide Execute, Canonicalize, StaticFault, DynamicFault, CrossBoundary, Weight, Inv, NoRejections, Steady;
    ExecuteCases(cfg, s, r, permit);
    if StaticFault(cfg, s, r, permit).None? {
      var s1, c, now := s.(ticks := s.ticks + 1), Canonicalize(r).value, cfg.clock(s.ticks);
      if DynamicFault(cfg, s1, c, permit, now).None? {
        StaticFaultIgnoresTicks(cfg, s, r, permit);
        SpendEnabled(cfg, s1, r, permit, now);
        StepKeepsInv(cfg, s, Tick);
        SteadyBoundary(cfg, s1, c, permit, now);
      }
    }
  }

  lemma EvaluateKeepsInv<E>(cfg: Config<E>, s: Guardian<E>, r: Request)
    requires ValidConfig(cfg) && Inv(cfg, s)
    ensures Inv(cfg, Evaluate(cfg, s, r).0) && Evaluate(cfg, s, r).0.events == s.events
  {
    hide Inv, Evaluate, Run, Grantable, Granted, GrantedPayload, Canonicalize, Unexpired;
    var ts := EvaluateRuns(cfg, s, r);
    RunKeepsInv(cfg, s, ts);
    EvaluateCases(cfg, s, r);
    var now := cfg.clock(s.ticks);
    var s1 := s.(ticks := s.ticks + 1, pending := Unexpired(s.pending, now));
    if Grantable(cfg, s1, r, now) { GrantKeepsEvents(cfg, s1, r, now); }
  }

  lemma GrantKeepsEvents<E>(cfg: Config<E>, s: Guardian<E>, r: Request, now: int)
    requires Grantable(cfg, s, r, now)
    ensures Granted(cfg, s, r, now).events == s.events
  {
    hide Grantable;
  }

  lemma {:induction false} SteadyRequest<E>(cfg: Config<E>, s: Guardian<E>, r: Request)
    requires ValidConfig(cfg) && Steady(cfg) && Inv(cfg, s) && NoRejections(s.events) && NestsInside(s, r)
    ensures NoRejections(ExecuteRequest(cfg, s, r).0.events)
    decreases Weight(r), 3
  {
    hide Evaluate, Execute, Canonicalize, Weight, Inv, NoRejections, Steady, RecordDenial, NestsInside;
    SteadyRequestAccepted(cfg, s, r);
    EvaluateKeepsInv(cfg, s, r);
    var (s1, evaluation) := Evaluate(cfg, s, r);
    if evaluation.Decided? {
      var d := evaluation.decision;
      if !d.allowed || d.permit.None? || d.normalized.None? {
        DenialAddsNoRejection(cfg, s1, r, d);
      } else {
        EvaluateNormalizes(cfg, s, r);
        InsideWhenCanonical(s, s1, r);
        SteadyExecute(cfg, s1, d.normalized.value, d.permit.value);
      }
    }
  }

  /** With a steady clock no event of any run, at any nesting depth, reports a rejected permit. */
  lemma {:induction false} SteadyLogHasNoRejection<E>(cfg: Config<E>, start: Start<E>, steps: seq<Step<E>>)
    requires ValidConfig(cfg) && ValidStart(start) && Steady(cfg)
    ensures NoRejections(After(cfg, start, steps).events)
  {
    hide Evaluate, Execute, ExecuteRequest, Inv, ValidStart, Steady, NoRejections, Stores.Add, Stores.Revoke;
    if steps == [] {
      EmptyHasNoRejection();
    } else {
      var before, last := After(cfg, start, steps[..|steps|-1]), steps[|steps|-1];
      SteadyLogHasNoRejection(cfg, start, steps[..|steps|-1]);
      ReachableInv(cfg, start, steps[..|steps|-1]);
      match last
      case Evaluating(r) => EvaluateKeepsInv(cfg, before, r);
      case Executing(r, permit) => SteadyExecute(cfg, before, r, permit);
      case Requesting(r) => SteadyRequest(cfg, before, r);
      case _ =>
    }
  }

  lemma EmptyHasNoRejection()
    ensures NoRejections([])
  {
  }

  lemma EvaluationReasons<E>(cfg: Config<E>, s: Guardian<E>, r: Request)
    ensures var evaluation := Evaluate(cfg, s, r).1;
      evaluation.Decided? ==> !evaluation.decision.reason.PermitRejected?
  {
    hide Canonicalize, Stores.Validate, Policies.Evaluate, Policies.Record, GrantedPayload, Granted;
  }
}
