/** The main results: what holds in every state that any sequence of steps can reach. */
module Theorems {
  import opened Wrappers
  import opened Values
  import opened Canonical
  import opened Composition
  import opened Types
  import opened Runtime
  import opened Transitions
  import opened Safety
  import Capabilities
  import Stores
  import Policies
  import Evidence

  /**
   * Execution safety for unbounded runs: whatever happened between authorization
   * and execution, each permit was burned at a time the clock had shown, with its
   * whole lineage live, its request authorized by every ancestor, inside its time
   * window, at its state version, under its own rule with no restricting rule, and
   * only once.
   */
  lemma ExecutionSafety<E>(cfg: Config<E>, start: Start<E>, steps: seq<Step<E>>, i: nat)
    requires ValidConfig(cfg) && ValidStart(start) && i < |After(cfg, start, steps).past.burns|
    ensures var s := After(cfg, start, steps);
      && AuthorizedAtBurn(s.past.burns[i])
      && PermittedAtBurn(cfg, s.past.burns[i])
      && BoundAtBurn(cfg, s.past.burns[i])
      && Shown(cfg, s.ticks, s.past.burns[i].now)
      && s.past.burns[i].payload in s.past.issued
      && forall j | 0 <= j < |s.past.burns| && j != i ::
           s.past.burns[j].payload.sequence != s.past.burns[i].payload.sequence
  {
    hide After, AuthorizedAtBurn, PermittedAtBurn, BoundAtBurn, StoreInv, IssuedInv, UsageInv, AuditInv, NestInv,
         OrderInv, PendingInv, TermsInv, EventsInv, NestedInv, Shown, ValidStart;
    ReachableInv(cfg, start, steps);
    var s := After(cfg, start, steps);
    assert BurnSafe(cfg, s.past.burns[i]);
    forall j | 0 <= j < |s.past.burns| && j != i
      ensures s.past.burns[j].payload.sequence != s.past.burns[i].payload.sequence
    {
      assert SequencesDistinct(s.past.burns);
      if i < j { assert s.past.burns[i].payload.sequence != s.past.burns[j].payload.sequence; }
    }
  }

  /** The environment as the direct burns, in order, would leave it. */
  function Replay<E>(cfg: Config<E>, env: E, burns: seq<Burn<E>>): E
  {
    if burns == [] then env
    else
      var before := Replay(cfg, env, burns[..|burns|-1]);
      if burns[|burns|-1].direct then cfg.exec(before, burns[|burns|-1].request).0 else before
  }

  lemma ReplayNext<E>(cfg: Config<E>, env: E, burns: seq<Burn<E>>, n: nat)
    requires n < |burns|
    ensures var before := Replay(cfg, env, burns[..n]);
      Replay(cfg, env, burns[..n+1]) == if burns[n].direct then cfg.exec(before, burns[n].request).0 else before
  {
    assert burns[..n+1][..n] == burns[..n] && burns[..n+1][n] == burns[n];
  }

  /** The environment the `i`th burn saw is the replay of the burns before it. */
  ghost predicate ReplayedAt<E>(cfg: Config<E>, env: E, burns: seq<Burn<E>>, i: nat)
    requires i < |burns|
  {
    burns[i].env == Replay(cfg, env, burns[..i])
  }

  ghost predicate ReplayInv<E>(cfg: Config<E>, env: E, s: Guardian<E>)
  {
    && s.env == Replay(cfg, env, s.past.burns)
    && forall i: nat {:trigger ReplayedAt(cfg, env, s.past.burns, i)} | i < |s.past.burns| ::
      ReplayedAt(cfg, env, s.past.burns, i)
  }

  lemma EnvironmentAt<E>(cfg: Config<E>, env: E, s: Guardian<E>, i: nat)
    requires ReplayInv(cfg, env, s) && i < |s.past.burns|
    ensures s.past.burns[i].env == Replay(cfg, env, s.past.burns[..i])
  {
    assert ReplayedAt(cfg, env, s.past.burns, i);
  }

  lemma EnvironmentNow<E>(cfg: Config<E>, env: E, s: Guardian<E>)
    requires ReplayInv(cfg, env, s)
    ensures s.env == Replay(cfg, env, s.past.burns)
  {
  }

  lemma StepKeepsReplay<E>(cfg: Config<E>, env: E, s: Guardian<E>, t: Transition<E>)
    requires ReplayInv(cfg, env, s) && Enabled(cfg, s, t) && !t.ChangeEnvironment?
    ensures ReplayInv(cfg, env, Apply(cfg, s, t))
  {
    hide Enabled;
    var after := Apply(cfg, s, t);
    if t.Spend? {
      var burn := NewBurn(cfg, s, t.canonical, t.permit, t.now);
      assert after.past.burns == s.past.burns + [burn];
      assert after.past.burns[..|s.past.burns|] == s.past.burns;
    }
    forall i: nat | i < |after.past.burns| ensures ReplayedAt(cfg, env, after.past.burns, i) {
      if i < |s.past.burns| {
        assert ReplayedAt(cfg, env, s.past.burns, i);
        assert after.past.burns[..i] == s.past.burns[..i];
      }
    }
  }

  lemma {:induction false} RunKeepsReplay<E>(cfg: Config<E>, env: E, s: Guardian<E>, ts: seq<Transition<E>>)
    requires ReplayInv(cfg, env, s) && Run(cfg, s, ts).Some?
    requires forall i | 0 <= i < |ts| :: !ts[i].ChangeEnvironment?
    ensures ReplayInv(cfg, env, Run(cfg, s, ts).value)
    decreases |ts|
  {
    hide ReplayInv, Apply, Enabled;
    if ts != [] {
      StepKeepsReplay(cfg, env, s, ts[0]);
      RunKeepsReplay(cfg, env, Apply(cfg, s, ts[0]), ts[1..]);
    }
  }

  /**
   * Nothing reaches the environment except through a burned permit: as long as
   * it does not change by itself, its state is the replay of the direct burns.
   */
  lemma EnvironmentIsReplay<E>(cfg: Config<E>, start: Start<E>, steps: seq<Step<E>>)
    requires ValidConfig(cfg) && ValidStart(start)
    requires forall i | 0 <= i < |steps| :: !steps[i].Environment?
    ensures ReplayInv(cfg, start.env, After(cfg, start, steps))
  {
    var ts := ReachableByTransitions(cfg, start, steps);
    hide After, Run;
    RunKeepsReplay(cfg, start.env, Initial(start), ts);
  }

  /** The environment as the burned requests other than proxy calls, in order, would leave it. */
  function Mediated<E>(cfg: Config<E>, env: E, burns: seq<Burn<E>>): E
  {
    if burns == [] then env
    else
      var before, r := Mediated(cfg, env, burns[..|burns|-1]), burns[|burns|-1].request;
      if r.action == PROXY_ACTION then before else cfg.exec(before, r).0
  }

  lemma {:induction false} ReplayIsMediated<E>(cfg: Config<E>, env: E, burns: seq<Burn<E>>)
    requires cfg.mediate && forall i | 0 <= i < |burns| :: BoundAtBurn(cfg, burns[i])
    ensures Replay(cfg, env, burns) == Mediated(cfg, env, burns)
  {
    hide Canonicalize;
    if burns != [] {
      assert BoundAtBurn(cfg, burns[|burns|-1]);
      ReplayIsMediated(cfg, env, burns[..|burns|-1]);
    }
  }

  /**
   * Complete mediation of composed actions: with mediation on, the environment is
   * what the burned requests other than proxy calls make of it, at whatever depth
   * they ran; no proxy call has touched it.
   */
  lemma CompositionIsMediated<E>(cfg: Config<E>, start: Start<E>, steps: seq<Step<E>>)
    requires ValidConfig(cfg) && ValidStart(start) && cfg.mediate
    requires forall i | 0 <= i < |steps| :: !steps[i].Environment?
    ensures var s := After(cfg, start, steps);
      s.env == Mediated(cfg, start.env, s.past.burns)
  {
    hide After, BoundAtBurn, AuthorizedAtBurn, PermittedAtBurn, StoreInv, IssuedInv, UsageInv, AuditInv, NestInv,
         OrderInv, PendingInv, ClockInv, TermsInv, EventsInv, NestedInv, ValidStart;
    ReachableInv(cfg, start, steps);
    EnvironmentIsReplay(cfg, start, steps);
    var s := After(cfg, start, steps);
    forall i | 0 <= i < |s.past.burns| ensures BoundAtBurn(cfg, s.past.burns[i]) {
      assert BurnSafe(cfg, s.past.burns[i]);
    }
    ReplayIsMediated(cfg, start.env, s.past.burns);
  }

  /** Composition nests at most as deep as canonical parameters may. */
  lemma NestingIsBounded<E>(cfg: Config<E>, start: Start<E>, steps: seq<Step<E>>, i: nat)
    requires ValidConfig(cfg) && ValidStart(start) && i < |After(cfg, start, steps).past.burns|
    ensures var b := After(cfg, start, steps).past.burns[i];
      b.level + Height(b.request.params) <= 64
  {
    hide After, StoreInv, IssuedInv, UsageInv, BurnInv, AuditInv, OrderInv, PendingInv, ClockInv, TermsInv,
         EventsInv, NestedInv, ValidStart, Height;
    ReachableInv(cfg, start, steps);
  }

  /** The capability named by each permit. */
  function CapabilityIds(issued: seq<PermitPayload>): seq<string>
  {
    seq(|issued|, i requires 0 <= i < |issued| => issued[i].capabilityId)
  }

  lemma StepChargesIssued<E>(cfg: Config<E>, earlier: seq<string>, s: Guardian<E>, t: Transition<E>)
    requires s.past.charged == earlier + CapabilityIds(s.past.issued)
    requires Enabled(cfg, s, t) && !t.ResetUsage?
    ensures Apply(cfg, s, t).past.charged == earlier + CapabilityIds(Apply(cfg, s, t).past.issued)
  {
    hide Canonicalize, Stores.Validate, Policies.Evaluate, Policies.Record, StaticFault, DynamicFault, ResultFits;
    if t.Grant? {
      var p := GrantedPayload(cfg, s, t.request, t.now);
      assert CapabilityIds(s.past.issued + [p]) == CapabilityIds(s.past.issued) + [p.capabilityId];
    }
  }

  lemma {:induction false} RunChargesIssued<E>(cfg: Config<E>, earlier: seq<string>, s: Guardian<E>,
                                               ts: seq<Transition<E>>)
    requires s.past.charged == earlier + CapabilityIds(s.past.issued)
    requires Run(cfg, s, ts).Some? && ResetUsage !in ts
    ensures Run(cfg, s, ts).value.past.charged == earlier + CapabilityIds(Run(cfg, s, ts).value.past.issued)
    decreases |ts|
  {
    hide Apply, Enabled, CapabilityIds;
    if ts != [] {
      StepChargesIssued(cfg, earlier, s, ts[0]);
      RunChargesIssued(cfg, earlier, Apply(cfg, s, ts[0]), ts[1..]);
    }
  }

  /**
   * Exact reservation accounting: the store is a forest, and without a reset each
   * capability's counter, its nonce set and the number of reservations made under
   * it, before the run and by the permits issued since, agree and stay within its
   * limit; siblings share no nonce.
   */
  lemma ReservationAccounting<E>(cfg: Config<E>, start: Start<E>, steps: seq<Step<E>>)
    requires ValidConfig(cfg) && ValidStart(start)
    ensures var s := After(cfg, start, steps);
      var charged := start.charged + CapabilityIds(s.past.issued);
      && Stores.WellFormed(s.store) && Stores.NonceTree(s.store)
      && (Reset !in steps ==>
            && (forall i | 0 <= i < |charged| :: charged[i] in s.store.caps)
            && Stores.Counted(s.store, charged))
  {
    hide After, StoreInv, IssuedInv, UsageInv, BurnInv, AuditInv, NestInv, OrderInv, PendingInv, ClockInv, TermsInv,
         EventsInv, NestedInv, ValidStart;
    ReachableInv(cfg, start, steps);
    AccountsOf(After(cfg, start, steps));
    if Reset !in steps {
      ChargesAreIssued(cfg, start, steps);
    }
  }

  lemma AccountsOf<E>(s: Guardian<E>)
    requires StoreInv(s)
    ensures Stores.WellFormed(s.store) && Stores.NonceTree(s.store)
    ensures forall i | 0 <= i < |s.past.charged| :: s.past.charged[i] in s.store.caps
    ensures Stores.Counted(s.store, s.past.charged)
  {
    hide Stores.WellFormed, Stores.NonceTree, Stores.Counted;
  }

  /** Until a reset, the charges since the start are exactly the capabilities of the issued permits. */
  lemma ChargesAreIssued<E>(cfg: Config<E>, start: Start<E>, steps: seq<Step<E>>)
    requires ValidConfig(cfg) && Reset !in steps
    ensures var s := After(cfg, start, steps);
      s.past.charged == start.charged + CapabilityIds(s.past.issued)
  {
    var ts := ReachableByTransitions(cfg, start, steps);
    hide After, Run;
    RunChargesIssued(cfg, start.charged, Initial(start), ts);
  }

  /**
   * Permits are numbered by issue, usage records exactly what they granted, and
   * every quota holds of the permits themselves: any window of a rule's length has
   * at most its limit of permits, no permit follows one its rule forbids, and the
   * exact cost of all permits stays within a budget that shares the key.
   */
  lemma UsageMatchesPermits<E>(cfg: Config<E>, start: Start<E>, steps: seq<Step<E>>)
    requires ValidConfig(cfg) && ValidStart(start)
    ensures var s := After(cfg, start, steps);
      && |s.usage.history| == |s.past.issued| == s.sequence
      && Policies.Recorded(cfg.policy, s.usage, Grants(s.past.issued))
      && Policies.GrantsRespectQuotas(cfg.policy, Grants(s.past.issued))
  {
    hide After, StoreInv, BurnInv, AuditInv, NestInv, OrderInv, PendingInv, ClockInv, TermsInv, EventsInv,
         NestedInv, ValidStart, WellIssued, Policies.QuotasRespected, Policies.GrantsRespectQuotas;
    ReachableInv(cfg, start, steps);
    var s := After(cfg, start, steps);
    Policies.QuotasBoundGrants(cfg.policy, s.usage, Grants(s.past.issued));
  }

  /** How many permits were issued under a rule in the window (t - width, t]. */
  function IssuedWithin(issued: seq<PermitPayload>, id: string, width: int, t: int): nat
  {
    if issued == [] then 0
    else
      var last := issued[|issued|-1];
      IssuedWithin(issued[..|issued|-1], id, width, t) +
      (if last.ruleId == Some(id) && t - width < last.issuedAt <= t then 1 else 0)
  }

  lemma {:induction false} IssuedIsGranted(issued: seq<PermitPayload>, id: string, width: int, t: int)
    ensures IssuedWithin(issued, id, width, t) == Policies.GrantedWithin(Grants(issued), id, width, t)
  {
    if issued != [] {
      var init, last := issued[..|issued|-1], issued[|issued|-1];
      IssuedIsGranted(init, id, width, t);
      assert Grants(issued) == Grants(init) + [GrantOf(last)];
      assert Grants(issued)[..|init|] == Grants(init);
    }
  }

  /**
   * Rate limits over whole runs: no window, wherever placed and whatever the clock did,
   * holds more permits than allowed.
   */
  lemma RateLimitHolds<E>(cfg: Config<E>, start: Start<E>, steps: seq<Step<E>>, rule: Policies.Rule, t: int)
    requires ValidConfig(cfg) && ValidStart(start) && rule in cfg.policy.rules && rule.rateLimit.Some?
    ensures var limit := rule.rateLimit.value;
      IssuedWithin(After(cfg, start, steps).past.issued, rule.id, limit.windowSeconds, t) <= limit.maxCalls
  {
    hide After, ValidStart, Policies.Recorded;
    UsageMatchesPermits(cfg, start, steps);
    var issued := After(cfg, start, steps).past.issued;
    var i :| 0 <= i < |cfg.policy.rules| && cfg.policy.rules[i] == rule;
    assert Policies.RateHolds(cfg.policy.rules[i], Grants(issued), t);
    IssuedIsGranted(issued, rule.id, rule.rateLimit.value.windowSeconds, t);
  }

  lemma {:induction false} RunKeepsCapabilities<E>(cfg: Config<E>, s: Guardian<E>, ts: seq<Transition<E>>)
    requires StoreInv(s) && Run(cfg, s, ts).Some?
    ensures forall k | k in s.store.caps ::
      k in Run(cfg, s, ts).value.store.caps && Run(cfg, s, ts).value.store.caps[k] == s.store.caps[k]
    decreases |ts|
  {
    hide StoreInv, Apply, Enabled;
    if ts != [] {
      StepKeepsStore(cfg, s, ts[0]);
      RunKeepsCapabilities(cfg, Apply(cfg, s, ts[0]), ts[1..]);
    }
  }

  /** A stored capability stays as it is. */
  lemma CapabilitiesStay<E>(cfg: Config<E>, start: Start<E>, steps: seq<Step<E>>)
    requires ValidConfig(cfg) && ValidStart(start)
    ensures var caps := After(cfg, start, steps).store.caps;
      forall k | k in start.store.caps :: k in caps && caps[k] == start.store.caps[k]
  {
    hide After, Run, Stores.WellFormed, Stores.Accounted;
    var ts := ReachableByTransitions(cfg, start, steps);
    RunKeepsCapabilities(cfg, Initial(start), ts);
  }

  /** No permit outlives its capability or any ancestor of it, whatever has been delegated or revoked since. */
  lemma PermitsDieWithTheirLineage<E>(cfg: Config<E>, start: Start<E>, steps: seq<Step<E>>, i: nat, j: nat)
    requires ValidConfig(cfg) && ValidStart(start) && i < |After(cfg, start, steps).past.issued|
    ensures var s := After(cfg, start, steps);
      var p := s.past.issued[i];
      && Stores.Forest(s.store.caps) && p.capabilityId in s.store.caps
      && (j < |Stores.Chain(s.store.caps, p.capabilityId)| ==>
            p.expiresAt <= Stores.Chain(s.store.caps, p.capabilityId)[j].expiresAt)
  {
    hide After, UsageInv, BurnInv, AuditInv, NestInv, OrderInv, PendingInv, ClockInv, TermsInv, EventsInv,
         NestedInv, ValidStart, Canonicalize, Capabilities.Authorizes, Capabilities.IsSubset, Stores.Chain,
         Stores.Accounted, Stores.Forest;
    ReachableInv(cfg, start, steps);
    var s := After(cfg, start, steps);
    assert WellIssued(s.store, s.past.issued[i]);
    StoreIsForest(s);
    Stores.LineageBounds(s.store.caps, s.past.issued[i].capabilityId);
    Stores.ChainShape(s.store.caps, s.past.issued[i].capabilityId);
  }

  /**
   * How long permits live: every permit of every run bears the identity and the
   * canonical form of the request submitted for it, and expires after the
   * time-to-live, or with its capability, or with the rule that authorized it,
   * whichever comes first.
   */
  lemma PermitLifetime<E>(cfg: Config<E>, start: Start<E>, steps: seq<Step<E>>, i: nat)
    requires ValidConfig(cfg) && ValidStart(start) && i < |After(cfg, start, steps).past.issued|
    ensures var s := After(cfg, start, steps);
      var p, rules := s.past.issued[i], cfg.policy.rules;
      && |s.past.submitted| == |s.past.issued|
      && Canonicalize(s.past.submitted[i]) == Some(p.request)
      && p.sequence == i + 1 && p.policyVersion == cfg.policy.version && p.manifest == cfg.manifest
      && p.subject == s.past.submitted[i].subject && p.session == s.past.submitted[i].session
      && p.capabilityId == s.past.submitted[i].capabilityId && p.capabilityId in s.store.caps
      && p.expiresAt <= p.issuedAt + cfg.ttl
      && p.expiresAt <= s.store.caps[p.capabilityId].expiresAt
      && (forall j | 0 <= j < |rules| && Some(rules[j].id) == p.ruleId && rules[j].expiresAt.Some? ::
            p.expiresAt <= rules[j].expiresAt.value)
      && (|| p.expiresAt == p.issuedAt + cfg.ttl
          || p.expiresAt == s.store.caps[p.capabilityId].expiresAt
          || exists j :: 0 <= j < |rules| && Some(rules[j].id) == p.ruleId && rules[j].expiresAt == Some(p.expiresAt))
  {
    hide After, StoreInv, UsageInv, BurnInv, AuditInv, NestInv, OrderInv, PendingInv, ClockInv, EventsInv,
         NestedInv, ValidStart, Canonicalize, WellIssued;
    ReachableInv(cfg, start, steps);
    var s := After(cfg, start, steps);
    assert Terms(cfg, s.store, s.past.submitted[i], s.past.issued[i]);
    assert s.past.issued[i].sequence == i + 1;
  }

  /**
   * What a proxy call runs: the execution nested in another is of the sandbox
   * action, under the capability, on the resource and with the parameters that the
   * outer request's own parameters name, for the same subject, session and purpose
   * and with a nonce of its own; and only a proxy call has one.
   */
  lemma NestedRunsItsTarget<E>(cfg: Config<E>, start: Start<E>, steps: seq<Step<E>>, i: nat, j: nat)
    requires ValidConfig(cfg) && ValidStart(start)
    requires i < |After(cfg, start, steps).past.burns| && j < |After(cfg, start, steps).past.burns|
    requires var burns := After(cfg, start, steps).past.burns;
      burns[i].outer == Some(burns[j].payload.sequence)
    ensures var inner, outer := After(cfg, start, steps).past.burns[i], After(cfg, start, steps).past.burns[j];
      var r, named := inner.request, outer.request.Fields();
      && cfg.mediate && outer.request.action == PROXY_ACTION
      && r.tool == "sandbox"
      && "target" in named && named["target"] == Str(r.action)
      && "nested_capability_id" in named && named["nested_capability_id"] == Str(r.capabilityId)
      && inner.payload.capabilityId == r.capabilityId
      && "target_params" in named && named["target_params"] == r.params
      && "target_resource" in named && named["target_resource"].Str?
      && CanonicalizeResource(named["target_resource"].s) == Some(r.resource)
      && r.subject == outer.request.subject && r.session == outer.request.session
      && r.purpose == outer.request.purpose && r.nonce == outer.request.nonce + "-nested"
  {
    hide After, StoreInv, UsageInv, AuditInv, NestInv, OrderInv, PendingInv, ClockInv, EventsInv, TermsInv,
         ValidStart, Canonicalize, AuthorizedAtBurn, PermittedAtBurn, CanonicalizeResource;
    ReachableInv(cfg, start, steps);
    var s := After(cfg, start, steps);
    var burns := s.past.burns;
    assert NestedProperly(burns, i);
    var k :| 0 <= k < i && Some(burns[k].payload.sequence) == burns[i].outer
      && !burns[k].direct && ComposedOf(burns[k].request, burns[i].request);
    SameSequence(burns, k, j);
    assert BurnSafe(cfg, burns[i]) && BurnSafe(cfg, burns[j]);
    IssuedForCapability(s, burns[i].payload);
  }

  lemma SameSequence<E>(burns: seq<Burn<E>>, i: nat, j: nat)
    requires SequencesDistinct(burns) && i < |burns| && j < |burns|
    requires burns[i].payload.sequence == burns[j].payload.sequence
    ensures i == j
  {
  }

  lemma IssuedForCapability<E>(s: Guardian<E>, p: PermitPayload)
    requires IssuedInv(s) && p in s.past.issued
    ensures p.request.capabilityId == p.capabilityId
  {
    hide Canonicalize, Capabilities.Authorizes;
    var i :| 0 <= i < |s.past.issued| && s.past.issued[i] == p;
    assert WellIssued(s.store, s.past.issued[i]);
  }

  /**
   * Every event of every run: numbered by its place, stamped with a time the clock
   * has shown, naming its request's own session, subject and capability under this
   * policy and manifest.  A denial carries no result, its reason is not that of an
   * allow, and its normalized form is that of the very request it denies.
   */
  lemma EventsAreFaithful<E>(cfg: Config<E>, start: Start<E>, steps: seq<Step<E>>, j: nat)
    requires ValidConfig(cfg) && ValidStart(start) && j < |After(cfg, start, steps).events|
    ensures var s := After(cfg, start, steps);
      var e := s.events[j].payload;
      && e.sequence == j + 1 && e.policyVersion == cfg.policy.version && e.manifest == cfg.manifest
      && Shown(cfg, s.ticks, e.timestamp)
      && e.session == e.requested.session && e.subject == e.requested.subject
      && e.capabilityId == e.requested.capabilityId
      && (!e.allowed ==>
            && e.resultDigest == "" && !e.reason.Authorized?
            && e.normalized == Canonicalize(e.requested)
            && (e.reason.NotCanonical? <==> Canonicalize(e.requested).None?))
  {
    hide After, StoreInv, UsageInv, BurnInv, NestInv, OrderInv, PendingInv, ClockInv, TermsInv, NestedInv,
         IssuedInv, ValidStart, Canonicalize, Positions, Tracked, WellRecorded, Shown;
    ReachableInv(cfg, start, steps);
    var s := After(cfg, start, steps);
    assert EventFits(cfg, s.ticks, s.events[j].payload);
    assert Evidence.Chained(cfg.crypto, s.events, j);
  }

  lemma {:induction false} DistinctSequences<E>(burns: seq<Burn<E>>) returns (all: set<int>)
    requires SequencesDistinct(burns)
    ensures forall n :: n in all <==> exists i :: 0 <= i < |burns| && burns[i].payload.sequence == n
    ensures |all| == |burns|
    decreases |burns|
  {
    all := {};
    if burns != [] {
      var init, last := burns[..|burns|-1], burns[|burns|-1];
      var before := DistinctSequences(init);
      assert last.payload.sequence !in before;
      all := before + {last.payload.sequence};
      forall n ensures n in all <==> exists i :: 0 <= i < |burns| && burns[i].payload.sequence == n {
        if n in before {
          var i :| 0 <= i < |init| && init[i].payload.sequence == n;
          assert burns[i].payload.sequence == n;
        }
        if n == last.payload.sequence { assert burns[|burns|-1].payload.sequence == n; }
        if i :| 0 <= i < |burns| && burns[i].payload.sequence == n && i < |burns| - 1 {
          assert init[i].payload.sequence == n;
        }
      }
    }
  }

  lemma QuiescentCounts<E>(cfg: Config<E>, s: Guardian<E>)
    requires BurnInv(cfg, s) && AuditInv(cfg, s) && s.past.inflight == []
    ensures AllowEvents(s.events) == s.executions == |s.usedSequences| == |s.past.burns|
    ensures forall i | 0 <= i < |s.past.burns| :: s.past.burns[i].payload.sequence in s.past.audited
  {
    hide BurnSafe, AllowEvents, Evidence.IsLog, Evidence.OneVersion, WellRecorded;
    var all := DistinctSequences(s.past.burns);
    forall n ensures n in all <==> n in s.usedSequences {}
    assert all == s.usedSequences;
    forall n ensures n in s.past.audited <==> n in all {}
    assert s.past.audited.Keys == all;
  }

  /** The position of each burn's record. */
  ghost function PositionsOf<E>(s: Guardian<E>): seq<nat>
    requires forall i | 0 <= i < |s.past.burns| :: s.past.burns[i].payload.sequence in s.past.audited
  {
    seq(|s.past.burns|, i requires 0 <= i < |s.past.burns| => s.past.audited[s.past.burns[i].payload.sequence].at)
  }

  /** The result each burn is recorded with. */
  ghost function ResultsOf<E>(s: Guardian<E>): seq<ToolResult>
    requires forall i | 0 <= i < |s.past.burns| :: s.past.burns[i].payload.sequence in s.past.audited
  {
    seq(|s.past.burns|, i requires 0 <= i < |s.past.burns| => s.past.audited[s.past.burns[i].payload.sequence].result)
  }

  /** The log's allow events and the burns correspond one to one, and each event tells its burn. */
  ghost predicate LogTells<E>(cfg: Config<E>, s: Guardian<E>, at: seq<nat>, results: seq<ToolResult>)
  {
    && |at| == |results| == |s.past.burns|
    && (forall i | 0 <= i < |at| ::
          && at[i] < |s.events| && 1 <= s.past.burns[i].payload.sequence <= |s.past.submitted|
          && RecordsBurn(cfg, s.events[at[i]], s.past.burns[i],
                         s.past.submitted[s.past.burns[i].payload.sequence - 1], results[i]))
    && (forall i, j | 0 <= i < j < |at| :: at[i] != at[j])
    && (forall j: nat | j < |s.events| && s.events[j].payload.allowed :: j in at)
  }

  /**
   * Direct burns are recorded with their tool's result; a composed one relays the
   * record or the denial just before its own, or ends in an error.
   */
  ghost predicate ResultsFit<E>(cfg: Config<E>, s: Guardian<E>, at: seq<nat>, results: seq<ToolResult>)
    requires |at| == |results| == |s.past.burns|
  {
    forall i | 0 <= i < |at| ::
      if s.past.burns[i].direct then results[i] == DirectResult(cfg, s.past.burns[i])
      else
        || (exists k :: 0 <= k < |at| && at[k] + 1 == at[i] && Relays(s.past.burns[i].request, results[k], results[i]))
        || RelaysDenial(cfg, s.events, s.past.burns[i].request, Audited(at[i], results[i]))
        || EndsInError(results[i])
  }

  /** What ran inside an execution is recorded at an earlier position of the log. */
  ghost predicate InnerRecordedFirst<E>(s: Guardian<E>, at: seq<nat>)
    requires |at| == |s.past.burns|
  {
    forall i, j | 0 <= i < |at| && 0 <= j < |at| ::
      s.past.burns[i].outer == Some(s.past.burns[j].payload.sequence) ==> at[i] < at[j]
  }

  lemma AuditedIsBurned<E>(cfg: Config<E>, s: Guardian<E>, n: int) returns (i: nat)
    requires AuditInv(cfg, s) && n in s.past.audited
    ensures i < |s.past.burns| && s.past.burns[i].payload.sequence == n
  {
    hide Evidence.IsLog, Positions, WellRecorded;
    i :| 0 <= i < |s.past.burns| && s.past.burns[i].payload.sequence == n;
  }

  lemma LogTellsBurns<E>(cfg: Config<E>, s: Guardian<E>)
    requires BurnInv(cfg, s) && AuditInv(cfg, s)
    requires forall i | 0 <= i < |s.past.burns| :: s.past.burns[i].payload.sequence in s.past.audited
    ensures LogTells(cfg, s, PositionsOf(s), ResultsOf(s))
  {
    hide BurnSafe, Evidence.IsLog, Evidence.OneVersion, Tracked, RecordsBurn, ResultExplained, AllowEvents;
    var at, results := PositionsOf(s), ResultsOf(s);
    forall i | 0 <= i < |at|
      ensures at[i] < |s.events| && 1 <= s.past.burns[i].payload.sequence <= |s.past.submitted|
      ensures RecordsBurn(cfg, s.events[at[i]], s.past.burns[i],
                          s.past.submitted[s.past.burns[i].payload.sequence - 1], results[i])
    {
      assert WellRecorded(cfg, s.events, s.past.audited, s.past.submitted, s.past.burns[i]);
    }
    forall i, j | 0 <= i < j < |at| ensures at[i] != at[j] {
      assert s.past.burns[i].payload.sequence != s.past.burns[j].payload.sequence;
    }
    forall j: nat | j < |s.events| && s.events[j].payload.allowed ensures j in at {
      var n :| n in s.past.audited && s.past.audited[n].at == j;
      var i := AuditedIsBurned(cfg, s, n);
      assert at[i] == j;
    }
  }

  lemma ResultsFitBurns<E>(cfg: Config<E>, s: Guardian<E>)
    requires AuditInv(cfg, s)
    requires forall i | 0 <= i < |s.past.burns| :: s.past.burns[i].payload.sequence in s.past.audited
    ensures ResultsFit(cfg, s, PositionsOf(s), ResultsOf(s))
  {
    hide Evidence.IsLog, Evidence.OneVersion, Positions, Tracked, RecordsBurn, Relays, RelaysDenial, EndsInError,
         DirectResult;
    var at, results := PositionsOf(s), ResultsOf(s);
    forall i | 0 <= i < |at|
      ensures
        if s.past.burns[i].direct then results[i] == DirectResult(cfg, s.past.burns[i])
        else
          || (exists k ::
            0 <= k < |at| && at[k] + 1 == at[i] && Relays(s.past.burns[i].request, results[k], results[i]))
          || RelaysDenial(cfg, s.events, s.past.burns[i].request, Audited(at[i], results[i]))
          || EndsInError(results[i])
    {
      var b := s.past.burns[i];
      assert WellRecorded(cfg, s.events, s.past.audited, s.past.submitted, b);
      var outer := s.past.audited[b.payload.sequence];
      assert outer == Audited(at[i], results[i]);
      if n :| !b.direct && n in s.past.audited && RelaysRecord(b.request, s.past.audited[n], outer) {
        var k := AuditedIsBurned(cfg, s, n);
        assert at[k] + 1 == at[i] && Relays(b.request, results[k], results[i]);
      }
    }
  }

  lemma InnerIsRecordedFirst<E>(s: Guardian<E>)
    requires OrderInv(s)
    requires forall i | 0 <= i < |s.past.burns| :: s.past.burns[i].payload.sequence in s.past.audited
    ensures InnerRecordedFirst(s, PositionsOf(s))
  {
  }

  /**
   * One audit record per execution, through tool errors, malformed results,
   * interruptions and nesting: at every quiescent point the allow events of the
   * log correspond one to one to the burned permits; each event carries its
   * burn's request, rule, policy version and result digest; the result is the
   * tool's own, or relays the nested record or denial just before it, or names an
   * error; and what ran inside an execution stands before it in the log.
   */
  lemma OneRecordPerExecution<E>(cfg: Config<E>, start: Start<E>, steps: seq<Step<E>>)
    returns (at: seq<nat>, results: seq<ToolResult>)
    requires ValidConfig(cfg) && ValidStart(start)
    ensures var s := After(cfg, start, steps);
      && AllowEvents(s.events) == s.executions == |s.usedSequences| == |s.past.burns|
      && LogTells(cfg, s, at, results)
      && ResultsFit(cfg, s, at, results)
      && InnerRecordedFirst(s, at)
  {
    hide After, StoreInv, IssuedInv, UsageInv, NestInv, BurnInv, AuditInv, OrderInv, PendingInv, ClockInv, TermsInv,
         EventsInv, NestedInv, ValidStart, AllowEvents, LogTells, ResultsFit, InnerRecordedFirst;
    ReachableInv(cfg, start, steps);
    var s := After(cfg, start, steps);
    QuiescentCounts(cfg, s);
    at, results := PositionsOf(s), ResultsOf(s);
    LogTellsBurns(cfg, s);
    ResultsFitBurns(cfg, s);
    InnerIsRecordedFirst(s);
  }

  /** The same signer as the runtime's, whatever it is verified with. */
  ghost predicate SameSigner(key: Evidence.Crypto, crypto: Evidence.Crypto)
  {
    key == crypto.(validEvent := key.validEvent, validCheckpoint := key.validCheckpoint)
  }

  lemma RunIsLog<E>(cfg: Config<E>, start: Start<E>, steps: seq<Step<E>>, key: Evidence.Crypto)
    requires ValidConfig(cfg) && ValidStart(start) && SameSigner(key, cfg.crypto)
    ensures var log := After(cfg, start, steps).events;
      Evidence.IsLog(key, cfg.manifest, log) && Evidence.OneVersion(log, cfg.policy.version)
  {
    hide After, StoreInv, IssuedInv, UsageInv, NestInv, BurnInv, OrderInv, PendingInv, ClockInv, TermsInv,
         EventsInv, NestedInv, ValidStart, Positions, Tracked, WellRecorded;
    ReachableInv(cfg, start, steps);
    var log := After(cfg, start, steps).events;
    forall i: nat | i < |log| ensures Evidence.Chained(key, log, i) {
      assert Evidence.Chained(cfg.crypto, log, i);
    }
  }

  /**
   * The evidence of any run, for any key that verifies what the runtime signed for
   * it and nothing else: a genuine bundle is accepted if and only if it is the
   * export of some prefix of the log, and no other selection of the log's events
   * passes under its checkpoint.
   */
  lemma AuditTrailVerifies<E>(cfg: Config<E>, start: Start<E>, steps: seq<Step<E>>, key: Evidence.Crypto,
                              b: Evidence.Bundle, events: seq<Evidence.Event>)
    requires ValidConfig(cfg) && ValidStart(start) && SameSigner(key, cfg.crypto)
    requires Evidence.ServesLog(key, cfg.manifest, After(cfg, start, steps).events) && Evidence.IsDigest(cfg.manifest)
    requires Evidence.CollisionFree(key, After(cfg, start, steps).events, After(cfg, start, steps).events)
    requires Evidence.Genuine(key, b)
    requires forall i | 0 <= i < |events| :: events[i] in After(cfg, start, steps).events
    ensures var log, version := After(cfg, start, steps).events, cfg.policy.version;
      && (Evidence.VerifyBundle(key, b, Some(version), Some(cfg.manifest)).None? ==
            exists n: nat | n <= |log| :: b == Evidence.ExportBundle(key, cfg.manifest, log[..n], version))
      && var other := Evidence.ExportBundle(key, cfg.manifest, log, version).(events := events);
         Evidence.VerifyBundle(key, other, Some(version), Some(cfg.manifest)).None? == (events == log)
  {
    hide After, ValidStart, SameSigner, Evidence.IsLog, Evidence.OneVersion, Evidence.Digests, Evidence.SignsLog,
         Evidence.Unforgeable, Evidence.CollisionFree, Evidence.Genuine, Evidence.VerifyBundle,
         Evidence.ExportBundle;
    var log := After(cfg, start, steps).events;
    RunIsLog(cfg, start, steps, key);
    Evidence.AcceptedIffExported(key, cfg.manifest, log, cfg.policy.version, b);
    Evidence.OnlyTheExportVerifies(key, cfg.manifest, log, cfg.policy.version, events);
  }

  /**
   * What is remembered between calls: only permits issued and not yet spent, each
   * with its own expiry and the request it was asked for.
   */
  lemma PendingIsUnspent<E>(cfg: Config<E>, start: Start<E>, steps: seq<Step<E>>, n: int)
    requires ValidConfig(cfg) && ValidStart(start) && n in After(cfg, start, steps).pending
    ensures var s := After(cfg, start, steps);
      && 1 <= n <= |s.past.issued| && |s.past.submitted| == |s.past.issued| && n !in s.usedSequences
      && s.past.issued[n-1].sequence == n
      && s.pending[n].0 == s.past.issued[n-1].expiresAt
      && s.pending[n].1 == s.past.issued[n-1].request.(resource := s.past.submitted[n-1].resource)
  {
    hide After, StoreInv, UsageInv, NestInv, OrderInv, ClockInv, TermsInv, EventsInv, NestedInv, ValidStart,
         WellIssued, BurnSafe, WellRecorded, Positions, Evidence.IsLog, Evidence.OneVersion;
    ReachableInv(cfg, start, steps);
    var s := After(cfg, start, steps);
    assert 1 <= n <= |s.past.issued| && n !in s.past.audited;
  }

  // -------------------------------------------------------------- revocation

  /** From some point on `id` is revoked, and every burn since the first `base` has seen it so. */
  ghost predicate Banned<E>(s: Guardian<E>, id: string, base: nat)
  {
    && id in s.store.revoked
    && forall i | base <= i < |s.past.burns| ::
         && id in s.past.burns[i].store.revoked
         && forall k | k in s.past.burns[i].store.caps ::
           k in s.store.caps && s.store.caps[k] == s.past.burns[i].store.caps[k]
  }

  /** Revocations stay, and a transition burns at most one permit, under the store it finds. */
  lemma StepBurnsHere<E>(cfg: Config<E>, s: Guardian<E>, t: Transition<E>)
    requires Enabled(cfg, s, t)
    ensures var after := Apply(cfg, s, t);
      && s.store.revoked <= after.store.revoked
      && s.past.burns <= after.past.burns
      && forall i | |s.past.burns| <= i < |after.past.burns| :: after.past.burns[i].store == s.store
  {
    hide Canonicalize, Grantable, StaticFault, DynamicFault, ResultFits, JustRead, NestsInside, Stores.Validate,
         Stores.Snapshot, Stores.Lineage, Policies.Evaluate, Policies.Record, Policies.Deadline;
  }

  lemma StepKeepsBan<E>(cfg: Config<E>, s: Guardian<E>, t: Transition<E>, id: string, base: nat)
    requires StoreInv(s) && Banned(s, id, base) && Enabled(cfg, s, t)
    ensures Banned(Apply(cfg, s, t), id, base)
  {
    hide StoreInv, Apply, Enabled;
    StepKeepsStore(cfg, s, t);
    StepBurnsHere(cfg, s, t);
    var after := Apply(cfg, s, t);
    forall i | base <= i < |after.past.burns|
      ensures id in after.past.burns[i].store.revoked
      ensures forall k | k in after.past.burns[i].store.caps ::
        k in after.store.caps && after.store.caps[k] == after.past.burns[i].store.caps[k]
    {
      if i < |s.past.burns| { assert after.past.burns[i] == s.past.burns[i]; }
    }
  }

  lemma {:induction false} RunKeepsBan<E>(cfg: Config<E>, s: Guardian<E>, ts: seq<Transition<E>>, id: string, base: nat)
    requires StoreInv(s) && Banned(s, id, base) && Run(cfg, s, ts).Some?
    ensures Banned(Run(cfg, s, ts).value, id, base)
    decreases |ts|
  {
    hide StoreInv, Banned, Apply, Enabled;
    if ts != [] {
      StepKeepsBan(cfg, s, ts[0], id, base);
      StepKeepsStore(cfg, s, ts[0]);
      RunKeepsBan(cfg, Apply(cfg, s, ts[0]), ts[1..], id, base);
    }
  }

  /** A run continued: the steps after `before` are transitions from the state `before` leaves. */
  lemma {:induction false} LaterRuns<E>(cfg: Config<E>, start: Start<E>, before: seq<Step<E>>, later: seq<Step<E>>)
    returns (ts: seq<Transition<E>>)
    requires ValidConfig(cfg)
    ensures Run(cfg, After(cfg, start, before), ts) == Some(After(cfg, start, before + later))
    decreases |later|
  {
    hide After, Perform, Run;
    if later == [] {
      ts := [];
      assert before + later == before;
      RunNothing(cfg, After(cfg, start, before));
    } else {
      var init, last := later[..|later|-1], later[|later|-1];
      ts := LaterRuns(cfg, start, before, init);
      var s := After(cfg, start, before + init);
      assert before + later == before + init + [last];
      AfterNext(cfg, start, before + init, last);
      QuiescentBetween(cfg, start, before + init);
      var more := PerformRuns(cfg, s, last);
      RunAppend(cfg, After(cfg, start, before), ts, more);
      ts := ts + more;
    }
  }

  lemma RunNothing<E>(cfg: Config<E>, s: Guardian<E>)
    ensures Run(cfg, s, []) == Some(s)
  {
  }

  lemma QuiescentBetween<E>(cfg: Config<E>, start: Start<E>, steps: seq<Step<E>>)
    requires ValidConfig(cfg)
    ensures After(cfg, start, steps).past.inflight == []
  {
    hide After;
    var _ := ReachableByTransitions(cfg, start, steps);
  }

  /** A burn that saw `id` revoked names no capability under it. */
  lemma BannedIsUncovered<E>(cfg: Config<E>, s: Guardian<E>, id: string, base: nat, i: nat)
    requires StoreInv(s) && BurnInv(cfg, s) && Banned(s, id, base) && base <= i < |s.past.burns|
    ensures Stores.Forest(s.store.caps) && s.past.burns[i].payload.capabilityId in s.store.caps
    ensures !Stores.Covers(s.store.caps, id, s.past.burns[i].payload.capabilityId)
  {
    hide Stores.Accounted, Stores.Ordered, PermittedAtBurn, BoundAtBurn, Capabilities.Authorizes, Stores.Chain,
         Stores.Forest;
    var b := s.past.burns[i];
    assert BurnSafe(cfg, b);
    Stores.ChainGrows(b.store.caps, s.store.caps, b.payload.capabilityId);
  }

  /**
   * Revocation is final: once a capability has been revoked, no later step, of
   * whatever kind, burns a permit under it or under any capability delegated from
   * it, whenever that permit was issued.
   */
  lemma RevocationIsFinal<E>(cfg: Config<E>, start: Start<E>, before: seq<Step<E>>, id: string, later: seq<Step<E>>,
                             i: nat)
    requires ValidConfig(cfg) && ValidStart(start)
    requires id in After(cfg, start, before).store.caps
    requires |After(cfg, start, before).past.burns| <= i
    requires i < |After(cfg, start, before + [Revoke(id)] + later).past.burns|
    ensures var s := After(cfg, start, before + [Revoke(id)] + later);
      var named := s.past.burns[i].payload.capabilityId;
      && Stores.Forest(s.store.caps) && named in s.store.caps
      && !Stores.Covers(s.store.caps, id, named)
  {
    hide After, StoreInv, IssuedInv, UsageInv, BurnInv, AuditInv, NestInv, OrderInv, PendingInv, ClockInv, TermsInv,
         EventsInv, NestedInv, ValidStart, Run;
    var s0, base := After(cfg, start, before), |After(cfg, start, before).past.burns|;
    AfterNext(cfg, start, before, Revoke(id));
    var s1 := After(cfg, start, before + [Revoke(id)]);
    assert Banned(s1, id, base);
    ReachableInv(cfg, start, before + [Revoke(id)]);
    ReachableInv(cfg, start, before + [Revoke(id)] + later);
    var ts := LaterRuns(cfg, start, before + [Revoke(id)], later);
    RunKeepsBan(cfg, s1, ts, id, base);
    BannedIsUncovered(cfg, After(cfg, start, before + [Revoke(id)] + later), id, base, i);
  }

  // ------------------------------------------------------------- single calls

  /** A permit the gateway rejects leaves everything but the clock reading untouched. */
  lemma RejectionChangesNothing<E>(cfg: Config<E>, s: Guardian<E>, r: Request, permit: Permit)
    requires Execute(cfg, s, r, permit).1.Rejected?
    ensures Execute(cfg, s, r, permit).0 == s || Execute(cfg, s, r, permit).0 == s.(ticks := s.ticks + 1)
  {
    ExecuteCases(cfg, s, r, permit);
    hide Execute, Canonicalize, StaticFault, DynamicFault;
    if StaticFault(cfg, s, r, permit).None? {
      CrossingIsNotRejection(cfg, s.(ticks := s.ticks + 1), Canonicalize(r).value, permit, cfg.clock(s.ticks));
    }
  }

  lemma CrossingIsNotRejection<E>(cfg: Config<E>, s: Guardian<E>, c: Request, permit: Permit, now: int)
    requires Canonicalize(c) == Some(c)
    ensures !CrossBoundary(cfg, s, c, permit, now).1.Rejected?
  {
    hide Canonicalize, ExecuteNested, BurnPermit, RecordExecution, FinalResult;
  }

  /** A denied evaluation reserves nothing: only expired pending requests and the clock reading go. */
  lemma DenialReservesNothing<E>(cfg: Config<E>, s: Guardian<E>, r: Request)
    requires ValidConfig(cfg)
    requires var evaluation := Evaluate(cfg, s, r).1; evaluation.Decided? ==> !evaluation.decision.allowed
    ensures var after := Evaluate(cfg, s, r).0;
      after == s.(ticks := s.ticks + 1, pending := after.pending)
  {
    EvaluateCases(cfg, s, r);
    hide Evaluate, Grantable, Granted, GrantedPayload, Canonicalize;
  }
}
