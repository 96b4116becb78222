/** What every transition keeps, and hence what holds in every reachable state. */
module Safety {
  import opened Wrappers
  import opened Values
  import opened Canonical
  import opened Composition
  import opened Types
  import opened Runtime
  import opened Transitions
  import Capabilities
  import Stores
  import Policies
  import Evidence

  // ------------------------------------------------------------ the invariant

  /** Capability accounts are exact for the charges since the last reset. */
  ghost predicate StoreInv<E>(s: Guardian<E>)
  {
    Stores.WellFormed(s.store) && Stores.Accounted(s.store, s.past.charged)
  }

  /** What an issued permit says of its capability for good: capabilities never change once stored. */
  ghost predicate WellIssued(store: Stores.Store, p: PermitPayload)
  {
    && p.capabilityId in store.caps
    && p.request.capabilityId == p.capabilityId
    && Canonicalize(p.request) == Some(p.request)
    && Capabilities.Authorizes(store.caps[p.capabilityId], p.request)
    && p.expiresAt <= store.caps[p.capabilityId].expiresAt
  }

  /** Permits are numbered 1, 2, 3, … in the order they were issued. */
  ghost predicate IssuedInv<E>(s: Guardian<E>)
  {
    && |s.past.issued| == s.sequence
    && forall i: nat {:trigger s.past.issued[i]} | i < |s.past.issued| ::
         s.past.issued[i].sequence == i + 1 && WellIssued(s.store, s.past.issued[i])
  }

  function GrantOf(p: PermitPayload): Policies.Grant
  {
    Policies.Grant(p.issuedAt, p.request, p.ruleId)
  }

  function Grants(issued: seq<PermitPayload>): seq<Policies.Grant>
  {
    seq(|issued|, i requires 0 <= i < |issued| => GrantOf(issued[i]))
  }

  /** Usage is exactly what the issued permits amount to, and respects every quota. */
  ghost predicate UsageInv<E>(cfg: Config<E>, s: Guardian<E>)
  {
    && Policies.QuotasRespected(cfg.policy, s.usage)
    && Policies.Recorded(cfg.policy, s.usage, Grants(s.past.issued))
  }

  /** The capability and all its ancestors were live and authorize the request. */
  ghost predicate AuthorizedAtBurn<E>(b: Burn<E>)
  {
    && Stores.Forest(b.store.caps)
    && b.payload.capabilityId in b.store.caps
    && Stores.Active(b.store, b.payload.capabilityId, b.now)
    && var chain := Stores.Chain(b.store.caps, b.payload.capabilityId);
       forall i | 0 <= i < |chain| :: Capabilities.Authorizes(chain[i], b.request)
  }

  /** Policy and invariants held in the very state the permit was burned in. */
  ghost predicate PermittedAtBurn<E>(cfg: Config<E>, b: Burn<E>)
  {
    && Policies.Carries(cfg.policy, b.request, cfg.snapshot(b.env), b.now, b.payload.ruleId)
    && cfg.check(b.env, b.request).None?
  }

  /** The permit fits the moment it was burned, and composed actions stay out of the environment. */
  ghost predicate BoundAtBurn<E>(cfg: Config<E>, b: Burn<E>)
  {
    && Canonicalize(b.request) == Some(b.request)
    && b.direct == IsDirect(cfg, b.request)
    && b.payload.request == b.request
    && b.payload.issuedAt <= b.now < b.payload.expiresAt
    && b.payload.stateVersion == cfg.snapshot(b.env).version
  }

  ghost predicate BurnSafe<E>(cfg: Config<E>, b: Burn<E>)
  {
    AuthorizedAtBurn(b) && PermittedAtBurn(cfg, b) && BoundAtBurn(cfg, b)
  }

  ghost predicate SequencesDistinct<E>(burns: seq<Burn<E>>)
  {
    forall i, j | 0 <= i < j < |burns| :: burns[i].payload.sequence != burns[j].payload.sequence
  }

  /** Every burn was safe, spent an issued permit, and no permit was spent twice. */
  ghost predicate BurnInv<E>(cfg: Config<E>, s: Guardian<E>)
  {
    && |s.past.burns| == s.executions
    && (forall i | 0 <= i < |s.past.burns| ::
      BurnSafe(cfg, s.past.burns[i]) && s.past.burns[i].payload in s.past.issued)
    && SequencesDistinct(s.past.burns)
    && (forall n :: n in s.usedSequences <==> exists i ::
      0 <= i < |s.past.burns| && s.past.burns[i].payload.sequence == n)
    && (forall p | p in s.usedPermits :: p.payload.sequence in s.usedSequences)
  }

  /** The number of events recorded as allowed. */
  function AllowEvents(events: seq<Evidence.Event>): nat
  {
    if events == [] then 0
    else AllowEvents(events[..|events|-1]) + (if events[|events|-1].payload.allowed then 1 else 0)
  }

  /**
   * The event is the record of this burn with this result.  The request recorded
   * is the burned one with its resource as submitted, or as canonicalized if the
   * submitted form had been released.
   */
  ghost predicate RecordsBurn<E>(cfg: Config<E>, e: Evidence.Event, b: Burn<E>, submitted: Request, result: ToolResult)
  {
    && e.payload.allowed && e.payload.reason == Authorized
    && e.payload.normalized == Some(b.request)
    && (e.payload.requested == b.request.(resource := submitted.resource) || e.payload.requested == b.request)
    && e.payload.ruleId == b.payload.ruleId
    && e.payload.policyVersion == b.payload.policyVersion
    && e.payload.resultDigest == cfg.crypto.resultHash(result)
  }

  /** Two records stand next to each other, and the later result relays the earlier one. */
  ghost predicate RelaysRecord(c: Request, inner: Audited, outer: Audited)
  {
    inner.at + 1 == outer.at && Relays(c, inner.result, outer.result)
  }

  /** The record stands next to a denial, and its result relays that denial's reason. */
  ghost predicate RelaysDenial<E>(cfg: Config<E>, events: seq<Evidence.Event>, c: Request, outer: Audited)
  {
    && 0 < outer.at <= |events|
    && var e := events[outer.at - 1].payload;
    && !e.allowed
    && exists version :: Relays(c, ToolResult(
         false, "nested-authorization-denied", Obj(map["reason" := Str(cfg.describe(e.reason))]), version),
           outer.result)
  }

  ghost predicate EndsInError(result: ToolResult)
  {
    exists error :: Failed(result, "tool-error", error) || Failed(result, "tool-interrupted", error)
  }

  /** A direct burn is recorded with its tool's result, a composed one with what became of its nested request. */
  ghost predicate ResultExplained<E>(cfg: Config<E>, events: seq<Evidence.Event>, audited: map<int, Audited>,
                                     b: Burn<E>, outer: Audited)
  {
    if b.direct then outer.result == DirectResult(cfg, b)
    else
      || (exists n :: n in audited && RelaysRecord(b.request, audited[n], outer))
      || RelaysDenial(cfg, events, b.request, outer)
      || EndsInError(outer.result)
  }

  ghost predicate WellRecorded<E>(cfg: Config<E>, events: seq<Evidence.Event>, audited: map<int, Audited>,
                                  submitted: seq<Request>, b: Burn<E>)
    requires b.payload.sequence in audited
  {
    var outer := audited[b.payload.sequence];
    && outer.at < |events|
    && 1 <= b.payload.sequence <= |submitted|
    && RecordsBurn(cfg, events[outer.at], b, submitted[b.payload.sequence - 1], outer.result)
    && ResultExplained(cfg, events, audited, b, outer)
  }

  /** Records and allowed events correspond one to one. */
  ghost predicate Positions(events: seq<Evidence.Event>, audited: map<int, Audited>)
  {
    && AllowEvents(events) == |audited|
    && (forall n | n in audited :: audited[n].at < |events| && events[audited[n].at].payload.allowed)
    && (forall n, m | n in audited && m in audited && n != m :: audited[n].at != audited[m].at)
    && (forall j | 0 <= j < |events| && events[j].payload.allowed :: exists n :: n in audited && audited[n].at == j)
  }

  /** Every burned permit is either audited or in flight, never both. */
  ghost predicate Tracked<E>(burns: seq<Burn<E>>, inflight: seq<Burn<E>>, audited: map<int, Audited>)
  {
    && (forall n | n in audited :: exists i :: 0 <= i < |burns| && burns[i].payload.sequence == n)
    && (forall i | 0 <= i < |burns| :: burns[i].payload.sequence in audited || burns[i] in inflight)
    && (forall k | 0 <= k < |inflight| :: inflight[k] in burns && inflight[k].payload.sequence !in audited)
    && SequencesDistinct(inflight)
  }

  ghost predicate AuditInv<E>(cfg: Config<E>, s: Guardian<E>)
  {
    && Evidence.IsLog(cfg.crypto, cfg.manifest, s.events)
    && Evidence.OneVersion(s.events, cfg.policy.version)
    && (forall i | 0 <= i < |s.past.inflight| :: s.past.inflight[i].payload.policyVersion == cfg.policy.version)
    && Positions(s.events, s.past.audited)
    && Tracked(s.past.burns, s.past.inflight, s.past.audited)
    && (forall i | 0 <= i < |s.past.burns| && s.past.burns[i].payload.sequence in s.past.audited ::
          WellRecorded(cfg, s.events, s.past.audited, s.past.submitted, s.past.burns[i]))
  }

  /**
   * The request kept for a permit is the one it was issued for, with its resource
   * as submitted; it is kept no longer than the permit is to live, and not beyond
   * the record of its execution.
   */
  ghost predicate PendingInv<E>(s: Guardian<E>)
  {
    && |s.past.submitted| == |s.past.issued|
    && (forall n {:trigger s.pending[n]} | n in s.pending ::
          && 1 <= n <= |s.past.issued| && n !in s.past.audited
          && s.pending[n].0 == s.past.issued[n-1].expiresAt
          && s.pending[n].1 == s.past.issued[n-1].request.(resource := s.past.submitted[n-1].resource))
    && (forall n | n in s.past.audited :: n <= |s.past.issued|)
  }

  /** A permit lives for the time-to-live, cut short by its capability or its rule, and by nothing else. */
  ghost predicate Lifetime<E>(cfg: Config<E>, cap: Capabilities.Capability, p: PermitPayload)
  {
    var rules := cfg.policy.rules;
    && p.expiresAt <= p.issuedAt + cfg.ttl
    && p.expiresAt <= cap.expiresAt
    && (forall i | 0 <= i < |rules| && Some(rules[i].id) == p.ruleId && rules[i].expiresAt.Some? ::
          p.expiresAt <= rules[i].expiresAt.value)
    && (|| p.expiresAt == p.issuedAt + cfg.ttl
        || p.expiresAt == cap.expiresAt
        || exists i :: 0 <= i < |rules| && Some(rules[i].id) == p.ruleId && rules[i].expiresAt == Some(p.expiresAt))
  }

  /**
   * What a permit says of itself: the canonical form of what was submitted, its identity,
   * its versions, its lifetime.
   */
  ghost predicate Terms<E>(cfg: Config<E>, store: Stores.Store, submitted: Request, p: PermitPayload)
  {
    && Canonicalize(submitted) == Some(p.request)
    && p.subject == submitted.subject && p.session == submitted.session && p.capabilityId == submitted.capabilityId
    && p.policyVersion == cfg.policy.version && p.manifest == cfg.manifest
    && p.capabilityId in store.caps && Lifetime(cfg, store.caps[p.capabilityId], p)
  }

  ghost predicate TermsInv<E>(cfg: Config<E>, s: Guardian<E>)
  {
    && |s.past.submitted| == |s.past.issued|
    && forall i | 0 <= i < |s.past.issued| :: Terms(cfg, s.store, s.past.submitted[i], s.past.issued[i])
  }

  /** Every event names its request's own identity and a time the clock has shown; a denial denies that very request. */
  ghost predicate EventFits<E>(cfg: Config<E>, ticks: nat, e: Evidence.EventPayload)
  {
    && Shown(cfg, ticks, e.timestamp)
    && e.session == e.requested.session && e.subject == e.requested.subject
    && e.capabilityId == e.requested.capabilityId
    && (!e.allowed ==>
          && e.resultDigest == "" && !e.reason.Authorized?
          && e.normalized == Canonicalize(e.requested)
          && (e.reason.NotCanonical? <==> e.normalized.None?))
  }

  ghost predicate EventsInv<E>(cfg: Config<E>, s: Guardian<E>)
  {
    forall j | 0 <= j < |s.events| :: EventFits(cfg, s.ticks, s.events[j].payload)
  }

  /** A nested execution runs the very action that a composed one, burned before it, carries. */
  ghost predicate NestedProperly<E>(burns: seq<Burn<E>>, i: nat)
    requires i < |burns|
  {
    burns[i].outer.Some? ==>
      exists j :: 0 <= j < i && Some(burns[j].payload.sequence) == burns[i].outer
        && !burns[j].direct && ComposedOf(burns[j].request, burns[i].request)
  }

  ghost predicate NestedInv<E>(s: Guardian<E>)
  {
    forall i: nat {:trigger NestedProperly(s.past.burns, i)} | i < |s.past.burns| :: NestedProperly(s.past.burns, i)
  }

  /** The time is one that the clock has shown. */
  ghost predicate Shown<E>(cfg: Config<E>, ticks: nat, now: int)
  {
    exists t: nat | t < ticks :: cfg.clock(t) == now
  }

  /** Permits are issued and burned at times the clock has shown. */
  ghost predicate ClockInv<E>(cfg: Config<E>, s: Guardian<E>)
  {
    && (forall i | 0 <= i < |s.past.issued| :: Shown(cfg, s.ticks, s.past.issued[i].issuedAt))
    && (forall i | 0 <= i < |s.past.burns| :: Shown(cfg, s.ticks, s.past.burns[i].now))
  }

  /** Executions in flight nest: each level strictly inside the one before. */
  ghost predicate NestInv<E>(s: Guardian<E>)
  {
    && (forall i | 0 <= i < |s.past.inflight| ::
          s.past.inflight[i].level == i && Height(s.past.inflight[i].request.params) + i <= MAX_REQUEST_DEPTH)
    && (forall i | 0 <= i < |s.past.burns| ::
          s.past.burns[i].level + Height(s.past.burns[i].request.params) <= MAX_REQUEST_DEPTH)
  }

  /** Executions in flight are stacked: a nested one knows the execution around it. */
  ghost predicate Stacked<E>(inflight: seq<Burn<E>>)
  {
    && (forall k | 0 < k < |inflight| :: inflight[k].outer == Some(inflight[k-1].payload.sequence))
    && (inflight != [] ==> inflight[0].outer.None?)
  }

  /** Whatever ran inside a recorded execution is recorded at an earlier position of the log. */
  ghost predicate InnerFirst<E>(burns: seq<Burn<E>>, audited: map<int, Audited>)
  {
    forall i, n | 0 <= i < |burns| && n in audited && burns[i].outer == Some(n) ::
      burns[i].payload.sequence in audited && audited[burns[i].payload.sequence].at < audited[n].at
  }

  ghost predicate OrderInv<E>(s: Guardian<E>)
  {
    Stacked(s.past.inflight) && InnerFirst(s.past.burns, s.past.audited)
  }

  ghost predicate Inv<E>(cfg: Config<E>, s: Guardian<E>)
  {
    && StoreInv(s) && IssuedInv(s) && UsageInv(cfg, s)
    && BurnInv(cfg, s) && AuditInv(cfg, s) && NestInv(s) && OrderInv(s) && PendingInv(s) && ClockInv(cfg, s)
    && TermsInv(cfg, s) && EventsInv(cfg, s) && NestedInv(s)
  }

  // -------------------------------------------------------------- store steps

  /** A grant charges exactly the lineage of the named capability. */
  lemma GrantChargesLineage<E>(cfg: Config<E>, s: Guardian<E>, r: Request, now: int)
    requires Stores.Forest(s.store.caps) && Grantable(cfg, s, r, now)
    ensures Canonicalize(r).Some?
    ensures var c, after := Canonicalize(r).value, Granted(cfg, s, r, now);
      && c.capabilityId in s.store.caps
      && Stores.Chargeable(s.store, c.capabilityId, c.nonce)
      && Capabilities.Authorizes(s.store.caps[c.capabilityId], c)
      && after.store == Stores.Consume(s.store, Stores.Chain(s.store.caps, c.capabilityId), c.nonce)
      && after.past.charged == s.past.charged + [c.capabilityId]
  {
    var c := Canonicalize(r).value;
    Stores.ValidateMeaning(s.store, c, now);
    Stores.ChainShape(s.store.caps, c.capabilityId);
  }

  lemma GrantKeepsStore<E>(cfg: Config<E>, s: Guardian<E>, r: Request, now: int)
    requires StoreInv(s) && Grantable(cfg, s, r, now)
    ensures StoreInv(Granted(cfg, s, r, now))
  {
    hide Grantable, Granted, Canonicalize, Stores.Accounted, Stores.Chain, Stores.Chargeable,
         Capabilities.Authorizes;
    assert Stores.Forest(s.store.caps) && Stores.Accounted(s.store, s.past.charged);
    GrantChargesLineage(cfg, s, r, now);
    var c := Canonicalize(r).value;
    Stores.ConsumeKeepsAccounts(s.store, s.past.charged, c.capabilityId, c.nonce);
    ConsumeKeepsShape(s.store, Stores.Chain(s.store.caps, c.capabilityId), c.nonce);
  }

  lemma ConsumeKeepsShape(store: Stores.Store, lineage: seq<Capabilities.Capability>, nonce: string)
    requires Stores.WellFormed(store)
    ensures Stores.WellFormed(Stores.Consume(store, lineage, nonce))
    ensures Stores.Consume(store, lineage, nonce).caps == store.caps
  {
    Stores.SameShape(store, Stores.Consume(store, lineage, nonce));
  }

  lemma ResetKeepsStore<E>(s: Guardian<E>)
    requires StoreInv(s)
    ensures StoreInv(s.(store := Stores.ResetUsage(s.store), past := s.past.(charged := [])))
  {
    var cleared := Stores.ResetUsage(s.store);
    Stores.SameShape(s.store, cleared);
    Stores.NothingCharged(cleared);
  }

  lemma StepKeepsStore<E>(cfg: Config<E>, s: Guardian<E>, t: Transition<E>)
    requires StoreInv(s) && Enabled(cfg, s, t)
    ensures StoreInv(Apply(cfg, s, t))
    ensures forall id | id in s.store.caps ::
      id in Apply(cfg, s, t).store.caps && Apply(cfg, s, t).store.caps[id] == s.store.caps[id]
  {
    match t
    case Grant(r, now) => GrantKeepsStore(cfg, s, r, now);
    case AddCapability(capability) =>
      Stores.AddKeepsForest(s.store, capability);
      Stores.AddKeepsAccounts(s.store, s.past.charged, capability);
    case RevokeCapability(id) =>
      Stores.SameShape(s.store, Stores.Revoke(s.store, id).value);
      Stores.SameAccounts(s.store, Stores.Revoke(s.store, id).value, s.past.charged);
    case ResetUsage => ResetKeepsStore(s);
    case _ =>
  }

  // ------------------------------------------------------------- issued permits

  lemma GrantedFields<E>(cfg: Config<E>, s: Guardian<E>, r: Request, now: int)
    requires Grantable(cfg, s, r, now)
    ensures Canonicalize(r).Some?
    ensures var c, p := Canonicalize(r).value, GrantedPayload(cfg, s, r, now);
      && p.request == c && p.capabilityId == c.capabilityId && p.sequence == s.sequence + 1
      && p.policyVersion == cfg.policy.version
      && c.capabilityId in s.store.caps && p.expiresAt <= s.store.caps[c.capabilityId].expiresAt
      && var after := Granted(cfg, s, r, now);
         after.past.issued == s.past.issued + [p] && after.store.caps == s.store.caps
  {
    assert Canonicalize(r).value.capabilityId in s.store.caps;
    hide Canonicalize, Stores.Validate, Policies.Evaluate, Policies.Record, Policies.Deadline;
  }

  lemma GrantIsWellIssued<E>(cfg: Config<E>, s: Guardian<E>, r: Request, now: int)
    requires Stores.Forest(s.store.caps) && Grantable(cfg, s, r, now)
    ensures WellIssued(s.store, GrantedPayload(cfg, s, r, now))
  {
    hide Grantable, Granted, GrantedPayload, Canonicalize, Capabilities.Authorizes;
    GrantedFields(cfg, s, r, now);
    GrantChargesLineage(cfg, s, r, now);
    CanonicalWeight(r);
  }

  lemma IssuedExtends<E>(s: Guardian<E>, after: Guardian<E>, payload: PermitPayload)
    requires IssuedInv(s) && payload.sequence == s.sequence + 1 && WellIssued(s.store, payload)
    requires after.past.issued == s.past.issued + [payload]
    requires after.store.caps == s.store.caps && after.sequence == s.sequence + 1
    ensures IssuedInv(after)
  {
    hide Canonicalize, Capabilities.Authorizes;
    forall i: nat | i < |after.past.issued|
      ensures after.past.issued[i].sequence == i + 1 && WellIssued(after.store, after.past.issued[i])
    {
      if i < |s.past.issued| { assert after.past.issued[i] == s.past.issued[i]; }
    }
  }

  lemma IssuedSurvives<E>(s: Guardian<E>, after: Guardian<E>)
    requires IssuedInv(s)
    requires after.past.issued == s.past.issued && after.sequence == s.sequence
    requires forall id | id in s.store.caps :: id in after.store.caps && after.store.caps[id] == s.store.caps[id]
    ensures IssuedInv(after)
  {
    hide Canonicalize, Capabilities.Authorizes;
    forall i: nat | i < |after.past.issued|
      ensures after.past.issued[i].sequence == i + 1 && WellIssued(after.store, after.past.issued[i])
    {
      assert after.past.issued[i] == s.past.issued[i];
    }
  }

  lemma StepKeepsIssued<E>(cfg: Config<E>, s: Guardian<E>, t: Transition<E>)
    requires StoreInv(s) && IssuedInv(s) && Enabled(cfg, s, t)
    ensures IssuedInv(Apply(cfg, s, t))
  {
    hide IssuedInv, StoreInv, WellIssued;
    if t.Grant? {
      assert Stores.Forest(s.store.caps) by { StoreIsForest(s); }
      GrantIsWellIssued(cfg, s, t.request, t.now);
      GrantedFields(cfg, s, t.request, t.now);
      IssuedExtends(s, Apply(cfg, s, t), GrantedPayload(cfg, s, t.request, t.now));
    } else {
      StepKeepsStore(cfg, s, t);
      IssuedSurvives(s, Apply(cfg, s, t));
    }
  }

  lemma StoreIsForest<E>(s: Guardian<E>)
    requires StoreInv(s)
    ensures Stores.Forest(s.store.caps)
  {
  }

  // --------------------------------------------------------------------- usage

  lemma GrantKeepsUsage<E>(cfg: Config<E>, s: Guardian<E>, r: Request, now: int)
    requires ValidConfig(cfg) && UsageInv(cfg, s) && Grantable(cfg, s, r, now)
    ensures UsageInv(cfg, Granted(cfg, s, r, now))
  {
    var c, state := Canonicalize(r).value, cfg.snapshot(s.env);
    Policies.RecordKeepsQuotas(cfg.policy, c, state, now, s.usage);
    Policies.RecordIsExact(cfg.policy, c, state, now, s.usage, Grants(s.past.issued));
    var payload := GrantedPayload(cfg, s, r, now);
    assert Grants(s.past.issued + [payload]) == Grants(s.past.issued) + [GrantOf(payload)];
    hide Policies.Evaluate, Policies.Record, Policies.QuotasRespected, Policies.Recorded, Canonicalize,
         Stores.Validate, Grants;
  }

  lemma StepKeepsUsage<E>(cfg: Config<E>, s: Guardian<E>, t: Transition<E>)
    requires ValidConfig(cfg) && UsageInv(cfg, s) && Enabled(cfg, s, t)
    ensures UsageInv(cfg, Apply(cfg, s, t))
  {
    hide Policies.QuotasRespected, Policies.Recorded, Grants;
    if t.Grant? {
      GrantKeepsUsage(cfg, s, t.request, t.now);
    }
  }

  // --------------------------------------------------------------------- burns

  /** What the gateway's checks say about the permit being spent. */
  lemma SpendFacts<E>(cfg: Config<E>, s: Guardian<E>, c: Request, permit: Permit, now: int)
    requires Enabled(cfg, s, Spend(c, permit, now))
    ensures permit.payload in s.past.issued && permit.payload.request == c
    ensures permit.payload.sequence !in s.usedSequences
    ensures permit.payload.policyVersion == cfg.policy.version
    ensures Stores.Status(s.store, permit.payload.capabilityId, now).None?
    ensures Height(c.params) <= MAX_REQUEST_DEPTH
    ensures s.past.inflight != [] ==>
      && Height(c.params) < Height(Innermost(s).request.params)
      && !Innermost(s).direct && ComposedOf(Innermost(s).request, c)
  {
    hide Canonicalize, Height, Stores.Status, Policies.Revalidate, NaNFree, Lower, Strip, Segments, ComposedOf,
         Weight;
    CanonicalizeIdempotent(c);
    CanonicalWeight(c);
  }

  lemma SpendIsAuthorized<E>(cfg: Config<E>, s: Guardian<E>, c: Request, permit: Permit, now: int)
    requires StoreInv(s) && IssuedInv(s) && Enabled(cfg, s, Spend(c, permit, now))
    ensures AuthorizedAtBurn(NewBurn(cfg, s, c, permit, now))
  {
    var p := permit.payload;
    SpendFacts(cfg, s, c, permit, now);
    hide Enabled, Capabilities.Authorizes, Canonicalize, Stores.WellFormed, Stores.Accounted;
    var i :| 0 <= i < |s.past.issued| && s.past.issued[i] == p;
    assert Stores.Forest(s.store.caps) by { StoreIsForest(s); }
    Stores.StatusIsActive(s.store, p.capabilityId, now);
    Stores.ChainShape(s.store.caps, p.capabilityId);
    var chain := Stores.Chain(s.store.caps, p.capabilityId);
    forall j | 0 <= j < |chain| ensures Capabilities.Authorizes(chain[j], c) {
      Capabilities.LineageAuthorizes(chain, c, j);
    }
  }

  lemma SpendIsPermitted<E>(cfg: Config<E>, s: Guardian<E>, c: Request, permit: Permit, now: int)
    requires Enabled(cfg, s, Spend(c, permit, now))
    ensures PermittedAtBurn(cfg, NewBurn(cfg, s, c, permit, now))
    ensures BoundAtBurn(cfg, NewBurn(cfg, s, c, permit, now))
  {
    hide Canonicalize, Stores.Status, Policies.Revalidate, Policies.Carries, NestsInside;
    Policies.RevalidateSpelledOut(cfg.policy, c, cfg.snapshot(s.env), now, permit.payload.ruleId);
  }

  lemma SpendKeepsBurns<E>(cfg: Config<E>, s: Guardian<E>, c: Request, permit: Permit, now: int)
    requires StoreInv(s) && IssuedInv(s) && BurnInv(cfg, s) && Enabled(cfg, s, Spend(c, permit, now))
    ensures BurnInv(cfg, BurnPermit(cfg, s, c, permit, now))
  {
    SpendIsAuthorized(cfg, s, c, permit, now);
    SpendIsPermitted(cfg, s, c, permit, now);
    SpendFacts(cfg, s, c, permit, now);
    hide Enabled, AuthorizedAtBurn, PermittedAtBurn, BoundAtBurn, StoreInv, IssuedInv;
    BurnsExtend(cfg, s, BurnPermit(cfg, s, c, permit, now), NewBurn(cfg, s, c, permit, now), permit);
  }

  lemma BurnsExtend<E>(cfg: Config<E>, s: Guardian<E>, after: Guardian<E>, burn: Burn<E>, permit: Permit)
    requires BurnInv(cfg, s) && BurnSafe(cfg, burn)
    requires burn.payload == permit.payload && burn.payload in s.past.issued
    requires burn.payload.sequence !in s.usedSequences
    requires after.past.burns == s.past.burns + [burn] && after.past.issued == s.past.issued
    requires after.usedSequences == s.usedSequences + {burn.payload.sequence}
    requires after.usedPermits == s.usedPermits + {permit} && after.executions == s.executions + 1
    ensures BurnInv(cfg, after)
  {
    hide BurnSafe;
    var n := |s.past.burns|;
    forall i | 0 <= i < |after.past.burns|
      ensures BurnSafe(cfg, after.past.burns[i]) && after.past.burns[i].payload in after.past.issued
    {
      if i < n { assert after.past.burns[i] == s.past.burns[i]; }
    }
    forall k
      ensures
        var burned := exists i :: 0 <= i < |after.past.burns| && after.past.burns[i].payload.sequence == k;
        k in after.usedSequences <==> burned
    {
      if k == burn.payload.sequence {
        assert after.past.burns[n].payload.sequence == k;
      } else if k in s.usedSequences {
        var i :| 0 <= i < n && s.past.burns[i].payload.sequence == k;
        assert after.past.burns[i].payload.sequence == k;
      } else if i :| 0 <= i < |after.past.burns| && after.past.burns[i].payload.sequence == k {
        assert s.past.burns[i].payload.sequence == k;
      }
    }
  }

  /** Burns are untouched and issued permits only accumulate. */
  lemma BurnsSurvive<E>(cfg: Config<E>, s: Guardian<E>, after: Guardian<E>)
    requires BurnInv(cfg, s)
    requires after.past.burns == s.past.burns && s.past.issued <= after.past.issued
    requires after.usedSequences == s.usedSequences && after.usedPermits == s.usedPermits
      && after.executions == s.executions
    ensures BurnInv(cfg, after)
  {
    hide BurnSafe;
    forall p | p in s.past.issued ensures p in after.past.issued {
      var i :| 0 <= i < |s.past.issued| && s.past.issued[i] == p;
      assert after.past.issued[i] == p;
    }
  }

  lemma StepKeepsBurns<E>(cfg: Config<E>, s: Guardian<E>, t: Transition<E>)
    requires StoreInv(s) && IssuedInv(s) && BurnInv(cfg, s) && Enabled(cfg, s, t)
    ensures BurnInv(cfg, Apply(cfg, s, t))
  {
    hide BurnInv, StoreInv, IssuedInv;
    if t.Spend? {
      SpendKeepsBurns(cfg, s, t.canonical, t.permit, t.now);
    } else {
      BurnsSurvive(cfg, s, Apply(cfg, s, t));
    }
  }

  // --------------------------------------------------------------------- audit

  lemma EventAppended<E>(cfg: Config<E>, s: Guardian<E>, r: Request, decision: Decision, policyVersion: string,
                         result: Option<ToolResult>)
    requires Evidence.IsLog(cfg.crypto, cfg.manifest, s.events)
    ensures var after := AppendEvent(cfg, s, r, decision, policyVersion, result);
      && Evidence.IsLog(cfg.crypto, cfg.manifest, after.events)
      && AllowEvents(after.events) == AllowEvents(s.events) + (if decision.allowed then 1 else 0)
      && (Evidence.OneVersion(s.events, policyVersion) ==> Evidence.OneVersion(after.events, policyVersion))
      && after.past == s.past
  {
    Evidence.AppendKeepsLog(cfg.crypto, cfg.manifest, s.events, cfg.clock(s.ticks), r, decision, policyVersion, result);
    hide Evidence.IsLog;
    var after := AppendEvent(cfg, s, r, decision, policyVersion, result);
    assert after.events[..|s.events|] == s.events;
  }

  lemma PositionsExtend(events: seq<Evidence.Event>, audited: map<int, Audited>, e: Evidence.Event, n: int, a: Audited)
    requires Positions(events, audited) && e.payload.allowed && n !in audited && a.at == |events|
    ensures Positions(events + [e], audited[n := a])
  {
    var more, after := events + [e], audited[n := a];
    assert more[..|events|] == events;
    assert after.Keys == audited.Keys + {n};
    forall j | 0 <= j < |more| && more[j].payload.allowed ensures exists m :: m in after && after[m].at == j {
      if j < |events| {
        var m :| m in audited && audited[m].at == j;
        assert m in after && after[m].at == j;
      } else {
        assert n in after && after[n].at == j;
      }
    }
  }

  lemma PositionsSkip(events: seq<Evidence.Event>, audited: map<int, Audited>, e: Evidence.Event)
    requires Positions(events, audited) && !e.payload.allowed
    ensures Positions(events + [e], audited)
  {
    var more := events + [e];
    assert more[..|events|] == events;
    forall j | 0 <= j < |more| && more[j].payload.allowed ensures exists m :: m in audited && audited[m].at == j {
      assert j < |events| && events[j].payload.allowed;
    }
  }

  lemma RecordSurvives<E>(cfg: Config<E>, events: seq<Evidence.Event>, later: seq<Evidence.Event>,
                          audited: map<int, Audited>, more: map<int, Audited>,
                          submitted: seq<Request>, grown: seq<Request>, b: Burn<E>)
    requires b.payload.sequence in audited && WellRecorded(cfg, events, audited, submitted, b)
    requires events <= later && submitted <= grown
    requires forall n | n in audited :: n in more && more[n] == audited[n]
    ensures WellRecorded(cfg, later, more, grown, b)
  {
    hide RecordsBurn, RelaysRecord, DirectResult, Relays, EndsInError;
    var outer := audited[b.payload.sequence];
    assert grown[b.payload.sequence - 1] == submitted[b.payload.sequence - 1];
    assert forall j | 0 <= j < |events| :: later[j] == events[j];
    if !b.direct {
      if n :| n in audited && RelaysRecord(b.request, audited[n], outer) {
        assert n in more && RelaysRecord(b.request, more[n], outer);
      }
    }
  }

  lemma TrackedSpend<E>(burns: seq<Burn<E>>, inflight: seq<Burn<E>>, audited: map<int, Audited>, burn: Burn<E>)
    requires Tracked(burns, inflight, audited)
    requires forall i | 0 <= i < |burns| :: burns[i].payload.sequence != burn.payload.sequence
    ensures Tracked(burns + [burn], inflight + [burn], audited)
    ensures burn.payload.sequence !in audited
  {
    var more, stacked := burns + [burn], inflight + [burn];
    forall n | n in audited ensures exists i :: 0 <= i < |more| && more[i].payload.sequence == n {
      var i :| 0 <= i < |burns| && burns[i].payload.sequence == n;
      assert more[i] == burns[i];
    }
    forall i | 0 <= i < |more| ensures more[i].payload.sequence in audited || more[i] in stacked {
      if i < |burns| {
        assert burns[i].payload.sequence in audited || burns[i] in inflight;
      } else {
        assert stacked[|inflight|] == more[i];
      }
    }
    forall k | 0 <= k < |stacked| ensures stacked[k] in more && stacked[k].payload.sequence !in audited {
      if k < |inflight| {
        assert inflight[k] in burns;
      } else {
        assert more[|burns|] == stacked[k];
      }
    }
    forall j, k | 0 <= j < k < |stacked| ensures stacked[j].payload.sequence != stacked[k].payload.sequence {
      if k < |inflight| {
        assert SequencesDistinct(inflight);
      } else {
        var i :| 0 <= i < |burns| && burns[i] == inflight[j];
      }
    }
  }

  lemma TrackedAudit<E>(burns: seq<Burn<E>>, inflight: seq<Burn<E>>, audited: map<int, Audited>, a: Audited)
    requires Tracked(burns, inflight, audited) && inflight != []
    ensures var last := inflight[|inflight|-1];
      Tracked(burns, inflight[..|inflight|-1], audited[last.payload.sequence := a])
  {
    var last, rest := inflight[|inflight|-1], inflight[..|inflight|-1];
    var after := audited[last.payload.sequence := a];
    forall i | 0 <= i < |burns| ensures burns[i].payload.sequence in after || burns[i] in rest {
      if burns[i].payload.sequence !in audited {
        var k :| 0 <= k < |inflight| && inflight[k] == burns[i];
        assert k < |rest| ==> rest[k] == burns[i];
      }
    }
    forall k | 0 <= k < |rest| ensures rest[k] in burns && rest[k].payload.sequence !in after {
      assert inflight[k] == rest[k];
    }
  }

  lemma UnusedIsUnburned<E>(cfg: Config<E>, s: Guardian<E>, n: int)
    requires BurnInv(cfg, s) && n !in s.usedSequences
    ensures forall i | 0 <= i < |s.past.burns| :: s.past.burns[i].payload.sequence != n
  {
    hide BurnSafe;
  }

  lemma SpendKeepsAudit<E>(cfg: Config<E>, s: Guardian<E>, c: Request, permit: Permit, now: int)
    requires BurnInv(cfg, s) && AuditInv(cfg, s) && Enabled(cfg, s, Spend(c, permit, now))
    ensures AuditInv(cfg, BurnPermit(cfg, s, c, permit, now))
  {
    hide Enabled, BurnInv, Evidence.IsLog, Evidence.OneVersion, Positions, Tracked, WellRecorded, NestsInside,
         ComposedOf, Height, Stores.Status;
    SpendFacts(cfg, s, c, permit, now);
    UnusedIsUnburned(cfg, s, permit.payload.sequence);
    TrackedSpend(s.past.burns, s.past.inflight, s.past.audited, NewBurn(cfg, s, c, permit, now));
  }

  /** Recording pops the innermost execution and logs it as allowed. */
  lemma RecordExecutionEffect<E>(cfg: Config<E>, s: Guardian<E>, c: Request, permit: Permit, result: ToolResult)
    requires s.past.inflight != [] && Evidence.IsLog(cfg.crypto, cfg.manifest, s.events)
    ensures var after := RecordExecution(cfg, s, c, permit, result);
      && Evidence.IsLog(cfg.crypto, cfg.manifest, after.events)
      && |after.events| == |s.events| + 1 && after.events == s.events + [after.events[|s.events|]]
      && (Evidence.OneVersion(s.events, permit.payload.policyVersion) ==>
            Evidence.OneVersion(after.events, permit.payload.policyVersion))
      && after.past == s.past.(inflight := s.past.inflight[..|s.past.inflight|-1],
                               audited := s.past.audited[permit.payload.sequence := Audited(|s.events|, result)])
  {
    var decision := Decision(true, Authorized, permit.payload.ruleId, Some(permit), Some(c));
    EventAppended(cfg, Forget(s, permit.payload.sequence), Original(s, c, permit), decision,
                  permit.payload.policyVersion, Some(result));
    hide Evidence.IsLog, Evidence.OneVersion, AllowEvents, Original;
  }

  lemma OriginalIsRequest<E>(s: Guardian<E>, c: Request, permit: Permit)
    requires PendingInv(s) && permit.payload.request == c
    requires 1 <= permit.payload.sequence <= |s.past.issued|
    requires s.past.issued[permit.payload.sequence - 1] == permit.payload
    ensures |s.past.submitted| == |s.past.issued|
    ensures var original := Original(s, c, permit);
      original == c || original == c.(resource := s.past.submitted[permit.payload.sequence - 1].resource)
  {
  }

  /** The event appended for an execution is the record of its burn. */
  lemma RecordDescribes<E>(cfg: Config<E>, s: Guardian<E>, c: Request, permit: Permit, submitted: Request,
                           result: ToolResult)
    requires s.past.inflight != [] && Innermost(s).request == c && Innermost(s).payload == permit.payload
    requires Original(s, c, permit) == c || Original(s, c, permit) == c.(resource := submitted.resource)
    ensures var after := RecordExecution(cfg, s, c, permit, result);
      && |after.events| == |s.events| + 1
      && RecordsBurn(cfg, after.events[|s.events|], Innermost(s), submitted, result)
  {
    hide Original, Evidence.Terminal;
  }

  lemma InnermostIsIssued<E>(cfg: Config<E>, s: Guardian<E>)
    requires IssuedInv(s) && BurnInv(cfg, s) && AuditInv(cfg, s) && s.past.inflight != []
    ensures var p := Innermost(s).payload;
      && p.request == Innermost(s).request && p.policyVersion == cfg.policy.version
      && 1 <= p.sequence <= |s.past.issued| && s.past.issued[p.sequence - 1] == p
      && Innermost(s) in s.past.burns && p.sequence !in s.past.audited
  {
    hide AuthorizedAtBurn, PermittedAtBurn, WellIssued, Evidence.IsLog, Positions, WellRecorded, Canonicalize;
    var k := |s.past.inflight| - 1;
    assert s.past.inflight[k] in s.past.burns;
    var i :| 0 <= i < |s.past.burns| && s.past.burns[i] == s.past.inflight[k];
    assert BurnSafe(cfg, s.past.burns[i]);
    var j :| 0 <= j < |s.past.issued| && s.past.issued[j] == s.past.burns[i].payload;
  }

  lemma NewResultExplained<E>(cfg: Config<E>, s: Guardian<E>, result: ToolResult, e: Evidence.Event)
    requires s.past.inflight != [] && ResultFits(cfg, s, result)
    requires Innermost(s).payload.sequence !in s.past.audited
    ensures var outer := Audited(|s.events|, result);
      var after := s.past.audited[Innermost(s).payload.sequence := outer];
      ResultExplained(cfg, s.events + [e], after, Innermost(s), outer)
  {
    hide DirectResult, Relays, Failed, Presentable;
    var b, outer := Innermost(s), Audited(|s.events|, result);
    var after := s.past.audited[b.payload.sequence := outer];
    if !b.direct {
      if inner :| LastAudited(s, inner) && Relays(b.request, inner, result) {
        var n :| n in s.past.audited && s.past.audited[n].result == inner && s.past.audited[n].at + 1 == |s.events|;
        assert n in after && RelaysRecord(b.request, after[n], outer);
      } else if reason :| LastDenied(s, reason) && Relays(b.request, DenialResult(cfg, s.env, reason), result) {
        var more := s.events + [e];
        assert more[outer.at - 1] == s.events[|s.events|-1];
        assert RelaysDenial(cfg, more, b.request, outer);
      } else if error :| Failed(result, "tool-error", error) {
        assert EndsInError(result);
      }
    }
  }

  /** The new record is well recorded. */
  lemma NewRecordHolds<E>(cfg: Config<E>, s: Guardian<E>, result: ToolResult, e: Evidence.Event)
    requires s.past.inflight != [] && ResultFits(cfg, s, result)
    requires var n := Innermost(s).payload.sequence;
      && n !in s.past.audited && 1 <= n <= |s.past.submitted|
      && RecordsBurn(cfg, e, Innermost(s), s.past.submitted[n-1], result)
    ensures var n := Innermost(s).payload.sequence;
      var after := s.past.audited[n := Audited(|s.events|, result)];
      WellRecorded(cfg, s.events + [e], after, s.past.submitted, Innermost(s))
  {
    hide RecordsBurn, ResultExplained, ResultFits;
    NewResultExplained(cfg, s, result, e);
  }

  lemma RecordsExtend<E>(cfg: Config<E>, s: Guardian<E>, result: ToolResult, e: Evidence.Event)
    requires BurnInv(cfg, s) && AuditInv(cfg, s) && s.past.inflight != [] && ResultFits(cfg, s, result)
    requires var n := Innermost(s).payload.sequence;
      && Innermost(s) in s.past.burns && n !in s.past.audited && 1 <= n <= |s.past.submitted|
      && RecordsBurn(cfg, e, Innermost(s), s.past.submitted[n-1], result)
    ensures var after := s.past.audited[Innermost(s).payload.sequence := Audited(|s.events|, result)];
      forall i | 0 <= i < |s.past.burns| && s.past.burns[i].payload.sequence in after ::
        WellRecorded(cfg, s.events + [e], after, s.past.submitted, s.past.burns[i])
  {
    hide BurnSafe, Evidence.IsLog, Positions, Tracked, WellRecorded, RecordsBurn, ResultFits;
    var b := Innermost(s);
    var after := s.past.audited[b.payload.sequence := Audited(|s.events|, result)];
    NewRecordHolds(cfg, s, result, e);
    var k :| 0 <= k < |s.past.burns| && s.past.burns[k] == b;
    forall i | 0 <= i < |s.past.burns| && s.past.burns[i].payload.sequence in after
      ensures WellRecorded(cfg, s.events + [e], after, s.past.submitted, s.past.burns[i])
    {
      if s.past.burns[i].payload.sequence == b.payload.sequence {
        assert i == k;
      } else {
        RecordSurvives(cfg, s.events, s.events + [e], s.past.audited, after, s.past.submitted, s.past.submitted,
                       s.past.burns[i]);
      }
    }
  }

  lemma AuditKeepsAudit<E>(cfg: Config<E>, s: Guardian<E>, c: Request, permit: Permit, result: ToolResult)
    requires IssuedInv(s) && PendingInv(s) && BurnInv(cfg, s) && AuditInv(cfg, s)
    requires Enabled(cfg, s, Audit(c, permit, result))
    ensures AuditInv(cfg, RecordExecution(cfg, s, c, permit, result))
  {
    hide IssuedInv, PendingInv, BurnInv, Evidence.IsLog, Evidence.OneVersion, Positions, Tracked, WellRecorded,
         RecordsBurn, ResultFits, Original, RecordExecution;
    InnermostIsIssued(cfg, s);
    OriginalIsRequest(s, c, permit);
    RecordDescribes(cfg, s, c, permit, s.past.submitted[permit.payload.sequence - 1], result);
    RecordExecutionEffect(cfg, s, c, permit, result);
    var after := RecordExecution(cfg, s, c, permit, result);
    var e := after.events[|s.events|];
    assert e.payload.allowed by {
      RecordIsAllowed(cfg, e, Innermost(s), s.past.submitted[permit.payload.sequence - 1], result);
    }
    PositionsExtend(s.events, s.past.audited, e, permit.payload.sequence, Audited(|s.events|, result));
    TrackedAudit(s.past.burns, s.past.inflight, s.past.audited, Audited(|s.events|, result));
    RecordsExtend(cfg, s, result, e);
  }

  lemma RecordIsAllowed<E>(cfg: Config<E>, e: Evidence.Event, b: Burn<E>, submitted: Request, result: ToolResult)
    requires RecordsBurn(cfg, e, b, submitted, result)
    ensures e.payload.allowed
  {
  }

  lemma DenyKeepsAudit<E>(cfg: Config<E>, s: Guardian<E>, r: Request, decision: Decision)
    requires AuditInv(cfg, s) && !decision.allowed
    ensures AuditInv(cfg, RecordDenial(cfg, s, r, decision))
  {
    hide Evidence.IsLog, Evidence.OneVersion, Positions, Tracked, WellRecorded, AllowEvents;
    EventAppended(cfg, s, r, decision, cfg.policy.version, None);
    var after := RecordDenial(cfg, s, r, decision);
    var e := after.events[|s.events|];
    PositionsSkip(s.events, s.past.audited, e);
    forall i | 0 <= i < |s.past.burns| && s.past.burns[i].payload.sequence in s.past.audited
      ensures WellRecorded(cfg, after.events, s.past.audited, s.past.submitted, s.past.burns[i])
    {
      RecordSurvives(cfg, s.events, after.events, s.past.audited, s.past.audited, s.past.submitted, s.past.submitted,
                     s.past.burns[i]);
    }
  }

  lemma GrantKeepsAudit<E>(cfg: Config<E>, s: Guardian<E>, r: Request, now: int)
    requires AuditInv(cfg, s) && Grantable(cfg, s, r, now)
    ensures AuditInv(cfg, Granted(cfg, s, r, now))
  {
    hide Evidence.IsLog, Evidence.OneVersion, Positions, Tracked, WellRecorded, AllowEvents, Grantable,
         Canonicalize;
    var after := Granted(cfg, s, r, now);
    forall i | 0 <= i < |s.past.burns| && s.past.burns[i].payload.sequence in s.past.audited
      ensures WellRecorded(cfg, s.events, s.past.audited, after.past.submitted, s.past.burns[i])
    {
      RecordSurvives(cfg, s.events, s.events, s.past.audited, s.past.audited, s.past.submitted, after.past.submitted,
                     s.past.burns[i]);
    }
  }

  lemma StepKeepsAudit<E>(cfg: Config<E>, s: Guardian<E>, t: Transition<E>)
    requires IssuedInv(s) && PendingInv(s) && BurnInv(cfg, s) && AuditInv(cfg, s) && Enabled(cfg, s, t)
    ensures AuditInv(cfg, Apply(cfg, s, t))
  {
    hide IssuedInv, PendingInv, BurnInv, Evidence.IsLog, AllowEvents, Positions, Tracked, WellRecorded,
         RecordExecution, RecordDenial;
    match t
    case Grant(r, now) => GrantKeepsAudit(cfg, s, r, now);
    case Spend(c, permit, now) => SpendKeepsAudit(cfg, s, c, permit, now);
    case Audit(c, permit, result) => AuditKeepsAudit(cfg, s, c, permit, result);
    case Deny(r, decision) => DenyKeepsAudit(cfg, s, r, decision);
    case _ =>
  }

  // ------------------------------------------------------------------- nesting

  lemma NestingExtends<E>(s: Guardian<E>, after: Guardian<E>, burn: Burn<E>)
    requires NestInv(s) && burn.level == |s.past.inflight|
    requires Height(burn.request.params) <= MAX_REQUEST_DEPTH
    requires s.past.inflight != [] ==> Height(burn.request.params) < Height(Innermost(s).request.params)
    requires after.past.burns == s.past.burns + [burn] && after.past.inflight == s.past.inflight + [burn]
    ensures NestInv(after)
  {
    hide Height;
  }

  lemma SpendKeepsNesting<E>(cfg: Config<E>, s: Guardian<E>, c: Request, permit: Permit, now: int)
    requires NestInv(s) && Enabled(cfg, s, Spend(c, permit, now))
    ensures NestInv(BurnPermit(cfg, s, c, permit, now))
  {
    hide Enabled, Height, NestInv, ComposedOf;
    SpendFacts(cfg, s, c, permit, now);
    NestingExtends(s, BurnPermit(cfg, s, c, permit, now), NewBurn(cfg, s, c, permit, now));
  }

  lemma StepKeepsNesting<E>(cfg: Config<E>, s: Guardian<E>, t: Transition<E>)
    requires NestInv(s) && Enabled(cfg, s, t)
    ensures NestInv(Apply(cfg, s, t))
  {
    hide Height, Canonicalize, Grantable, Stores.Add, StaticFault, DynamicFault;
    if t.Spend? {
      SpendKeepsNesting(cfg, s, t.canonical, t.permit, t.now);
    }
  }

  // --------------------------------------------------------------------- order

  /** Nothing in flight runs inside the innermost execution. */
  lemma InnermostHoldsNone<E>(inflight: seq<Burn<E>>, k: nat)
    requires Stacked(inflight) && SequencesDistinct(inflight) && k < |inflight|
    ensures inflight[k].outer != Some(inflight[|inflight|-1].payload.sequence)
  {
    if k > 0 { assert inflight[k-1].payload.sequence != inflight[|inflight|-1].payload.sequence; }
  }

  /** When the innermost execution is recorded, everything that ran inside it has been. */
  lemma InnermostIsLast<E>(burns: seq<Burn<E>>, inflight: seq<Burn<E>>, audited: map<int, Audited>, i: nat)
    requires Tracked(burns, inflight, audited) && Stacked(inflight) && inflight != []
    requires i < |burns| && burns[i].outer == Some(inflight[|inflight|-1].payload.sequence)
    ensures burns[i].payload.sequence in audited
  {
    if burns[i].payload.sequence !in audited {
      var k :| 0 <= k < |inflight| && inflight[k] == burns[i];
      InnermostHoldsNone(inflight, k);
    }
  }

  lemma SpendOrder<E>(burns: seq<Burn<E>>, inflight: seq<Burn<E>>, audited: map<int, Audited>, burn: Burn<E>)
    requires Tracked(burns, inflight, audited) && Stacked(inflight) && InnerFirst(burns, audited)
    requires burn.outer == if inflight == [] then None else Some(inflight[|inflight|-1].payload.sequence)
    ensures Stacked(inflight + [burn])
    ensures InnerFirst(burns + [burn], audited)
  {
    if inflight != [] { assert inflight[|inflight|-1].payload.sequence !in audited; }
  }

  lemma AuditOrder<E>(events: seq<Evidence.Event>, burns: seq<Burn<E>>, inflight: seq<Burn<E>>,
                      audited: map<int, Audited>, a: Audited)
    requires Positions(events, audited) && Tracked(burns, inflight, audited)
    requires Stacked(inflight) && InnerFirst(burns, audited)
    requires inflight != [] && a.at == |events|
    ensures Stacked(inflight[..|inflight|-1])
    ensures InnerFirst(burns, audited[inflight[|inflight|-1].payload.sequence := a])
  {
    var last := inflight[|inflight|-1].payload.sequence;
    assert inflight[|inflight|-1].payload.sequence !in audited;
    var after := audited[last := a];
    forall i, n | 0 <= i < |burns| && n in after && burns[i].outer == Some(n)
      ensures burns[i].payload.sequence in after && after[burns[i].payload.sequence].at < after[n].at
    {
      if n == last { InnermostIsLast(burns, inflight, audited, i); }
    }
  }

  lemma OrderSurvives<E>(s: Guardian<E>, after: Guardian<E>)
    requires OrderInv(s)
    requires after.past.burns == s.past.burns && after.past.inflight == s.past.inflight
      && after.past.audited == s.past.audited
    ensures OrderInv(after)
  {
  }

  lemma StepKeepsOrder<E>(cfg: Config<E>, s: Guardian<E>, t: Transition<E>)
    requires AuditInv(cfg, s) && OrderInv(s) && Enabled(cfg, s, t)
    ensures OrderInv(Apply(cfg, s, t))
  {
    hide Canonicalize, Grantable, Stores.Add, StaticFault, DynamicFault, Stacked, InnerFirst, Positions, Tracked,
         WellRecorded, Evidence.IsLog, Evidence.OneVersion, AllowEvents, RecordExecution, RecordDenial, ResultFits;
    if t.Spend? {
      SpendOrder(s.past.burns, s.past.inflight, s.past.audited, NewBurn(cfg, s, t.canonical, t.permit, t.now));
    } else if t.Audit? {
      RecordExecutionEffect(cfg, s, t.canonical, t.permit, t.result);
      AuditOrder(s.events, s.past.burns, s.past.inflight, s.past.audited, Audited(|s.events|, t.result));
    } else {
      assert t.Deny? ==> Apply(cfg, s, t).past == s.past by {
        if t.Deny? { DenialKeepsPast(cfg, s, t.request, t.decision); }
      }
      OrderSurvives(s, Apply(cfg, s, t));
    }
  }

  lemma DenialKeepsPast<E>(cfg: Config<E>, s: Guardian<E>, r: Request, decision: Decision)
    ensures RecordDenial(cfg, s, r, decision).past == s.past
  {
  }

  // ---------------------------------------------------------- requests and times

  lemma StepKeepsPending<E>(cfg: Config<E>, s: Guardian<E>, t: Transition<E>)
    requires IssuedInv(s) && PendingInv(s) && BurnInv(cfg, s) && AuditInv(cfg, s) && Enabled(cfg, s, t)
    ensures PendingInv(Apply(cfg, s, t))
  {
    hide WellIssued, Canonicalize, Grantable, StaticFault, DynamicFault, ResultFits, Stores.Add, GrantedPayload,
         BurnInv, AuditInv;
    if t.Grant? {
      GrantKeepsPending(cfg, s, t.request, t.now);
    } else if t.Audit? {
      InnermostIsIssued(cfg, s);
    }
  }

  lemma GrantKeepsPending<E>(cfg: Config<E>, s: Guardian<E>, r: Request, now: int)
    requires IssuedInv(s) && PendingInv(s) && Grantable(cfg, s, r, now)
    ensures PendingInv(Granted(cfg, s, r, now))
  {
    hide WellIssued, Canonicalize, Stores.Validate, Policies.Evaluate, Policies.Record, Policies.Deadline;
  }

  /** What a grant writes into the permit. */
  lemma GrantTerms<E>(cfg: Config<E>, s: Guardian<E>, r: Request, now: int)
    requires ValidConfig(cfg) && Grantable(cfg, s, r, now)
    ensures var p := GrantedPayload(cfg, s, r, now);
      && Terms(cfg, s.store, r, p)
      && p.issuedAt == now && p.sequence == s.sequence + 1
      && p.stateVersion == cfg.snapshot(s.env).version
  {
    CanonicalizeMeaning(r);
    var p := GrantedPayload(cfg, s, r, now);
    Policies.DeadlineMeaning(cfg.policy, p.ruleId);
    hide Canonicalize, Stores.Validate, Policies.Evaluate, Policies.Record, Policies.Deadline, IsPlain, Height,
         Segments, JsonEqual, IsTrimmed;
  }

  lemma TermsStay<E>(cfg: Config<E>, store: Stores.Store, later: Stores.Store, submitted: Request, p: PermitPayload)
    requires Terms(cfg, store, submitted, p)
    requires forall id | id in store.caps :: id in later.caps && later.caps[id] == store.caps[id]
    ensures Terms(cfg, later, submitted, p)
  {
    hide Canonicalize, Lifetime;
  }

  lemma StepKeepsTerms<E>(cfg: Config<E>, s: Guardian<E>, t: Transition<E>)
    requires ValidConfig(cfg) && StoreInv(s) && TermsInv(cfg, s) && Enabled(cfg, s, t)
    ensures TermsInv(cfg, Apply(cfg, s, t))
  {
    hide ValidConfig, StoreInv, Terms, Apply, Enabled, Grantable, GrantedPayload;
    var after := Apply(cfg, s, t);
    StepKeepsStore(cfg, s, t);
    IssuesAtMostOne(cfg, s, t);
    forall i | 0 <= i < |after.past.issued|
      ensures i < |after.past.submitted| && Terms(cfg, after.store, after.past.submitted[i], after.past.issued[i])
    {
      if i < |s.past.issued| {
        assert Terms(cfg, s.store, s.past.submitted[i], s.past.issued[i]);
        TermsStay(cfg, s.store, after.store, s.past.submitted[i], s.past.issued[i]);
      } else {
        GrantTerms(cfg, s, t.request, t.now);
        TermsStay(cfg, s.store, after.store, t.request, GrantedPayload(cfg, s, t.request, t.now));
      }
    }
  }

  lemma IssuesAtMostOne<E>(cfg: Config<E>, s: Guardian<E>, t: Transition<E>)
    requires Enabled(cfg, s, t)
    ensures var after := Apply(cfg, s, t);
      if t.Grant? then
        && Grantable(cfg, s, t.request, t.now)
        && after.past.issued == s.past.issued + [GrantedPayload(cfg, s, t.request, t.now)]
        && after.past.submitted == s.past.submitted + [t.request]
      else after.past.issued == s.past.issued && after.past.submitted == s.past.submitted
  {
    hide Canonicalize, Grantable, StaticFault, DynamicFault, ResultFits, Stores.Add, NestsInside, GrantedPayload,
         JustRead;
  }

  /** What an append adds fits. */
  lemma AppendFits<E>(cfg: Config<E>, s: Guardian<E>, r: Request, decision: Decision, policyVersion: string,
                      result: Option<ToolResult>)
    requires decision.allowed || (Denies(r, decision) && result.None?)
    ensures var after := AppendEvent(cfg, s, r, decision, policyVersion, result);
      && after.ticks == s.ticks + 1 && |after.events| == |s.events| + 1 && s.events <= after.events
      && EventFits(cfg, after.ticks, after.events[|s.events|].payload)
  {
    hide Canonicalize, Evidence.Terminal;
    assert Shown(cfg, s.ticks + 1, cfg.clock(s.ticks));
  }

  lemma FitsLater<E>(cfg: Config<E>, ticks: nat, later: nat, e: Evidence.EventPayload)
    requires EventFits(cfg, ticks, e) && ticks <= later
    ensures EventFits(cfg, later, e)
  {
    hide Canonicalize;
  }

  lemma StepKeepsEvents<E>(cfg: Config<E>, s: Guardian<E>, t: Transition<E>)
    requires EventsInv(cfg, s) && Enabled(cfg, s, t)
    ensures EventsInv(cfg, Apply(cfg, s, t))
  {
    EventGrowth(cfg, s, t);
    hide Enabled, Apply, EventFits;
    var after := Apply(cfg, s, t);
    forall j | 0 <= j < |after.events| ensures EventFits(cfg, after.ticks, after.events[j].payload) {
      if j < |s.events| { FitsLater(cfg, s.ticks, after.ticks, s.events[j].payload); }
    }
  }

  lemma EventGrowth<E>(cfg: Config<E>, s: Guardian<E>, t: Transition<E>)
    requires Enabled(cfg, s, t)
    ensures var after := Apply(cfg, s, t);
      && s.ticks <= after.ticks && s.events <= after.events
      && forall j | |s.events| <= j < |after.events| :: EventFits(cfg, after.ticks, after.events[j].payload)
  {
    hide Canonicalize, Grantable, StaticFault, DynamicFault, ResultFits, Stores.Add, NestsInside, GrantedPayload,
         JustRead, EventFits, Denies;
    match t
    case Deny(r, decision) =>
      DeniesRefuses(r, decision);
      AppendFits(cfg, s, r, decision, cfg.policy.version, None);
    case Audit(c, permit, result) =>
      var decision := Decision(true, Authorized, permit.payload.ruleId, Some(permit), Some(c));
      AppendFits(cfg, Forget(s, permit.payload.sequence), Original(s, c, permit), decision,
                 permit.payload.policyVersion, Some(result));
    case _ =>
  }

  lemma DeniesRefuses(r: Request, decision: Decision)
    requires Denies(r, decision)
    ensures !decision.allowed
  {
  }

  lemma NestedExtends<E>(burns: seq<Burn<E>>, inflight: seq<Burn<E>>, audited: map<int, Audited>, burn: Burn<E>)
    requires Tracked(burns, inflight, audited)
    requires forall i: nat {:trigger NestedProperly(burns, i)} | i < |burns| :: NestedProperly(burns, i)
    requires inflight == [] ==> burn.outer.None?
    requires inflight != [] ==>
      var b := inflight[|inflight|-1];
      burn.outer == Some(b.payload.sequence) && !b.direct && ComposedOf(b.request, burn.request)
    ensures forall i: nat {:trigger NestedProperly(burns + [burn], i)} | i <= |burns| ::
      NestedProperly(burns + [burn], i)
  {
    hide ComposedOf;
    var more := burns + [burn];
    forall i: nat | i <= |burns| ensures NestedProperly(more, i) {
      if i < |burns| {
        assert NestedProperly(burns, i);
        if burns[i].outer.Some? {
          var j :| 0 <= j < i && Some(burns[j].payload.sequence) == burns[i].outer
            && !burns[j].direct && ComposedOf(burns[j].request, burns[i].request);
          assert more[j] == burns[j];
        }
      } else if inflight != [] {
        assert inflight[|inflight|-1] in burns;
        var j :| 0 <= j < |burns| && burns[j] == inflight[|inflight|-1];
        assert more[j] == burns[j];
      }
    }
  }

  lemma BurnsAtMostOne<E>(cfg: Config<E>, s: Guardian<E>, t: Transition<E>)
    requires Enabled(cfg, s, t)
    ensures Apply(cfg, s, t).past.burns ==
      if t.Spend? then s.past.burns + [NewBurn(cfg, s, t.canonical, t.permit, t.now)] else s.past.burns
  {
    hide Canonicalize, Grantable, StaticFault, DynamicFault, ResultFits, Stores.Add, NestsInside, GrantedPayload,
         JustRead, NewBurn;
  }

  lemma SpendNests<E>(cfg: Config<E>, s: Guardian<E>, c: Request, permit: Permit, now: int)
    requires AuditInv(cfg, s) && NestedInv(s) && Enabled(cfg, s, Spend(c, permit, now))
    ensures forall i: nat {:trigger NestedProperly(s.past.burns + [NewBurn(cfg, s, c, permit, now)], i)} |
      i <= |s.past.burns| :: NestedProperly(s.past.burns + [NewBurn(cfg, s, c, permit, now)], i)
  {
    hide Enabled, ComposedOf, NestedProperly, Tracked, Positions, WellRecorded, Evidence.IsLog, Evidence.OneVersion,
         Height, Stores.Status;
    SpendFacts(cfg, s, c, permit, now);
    NestedExtends(s.past.burns, s.past.inflight, s.past.audited, NewBurn(cfg, s, c, permit, now));
  }

  lemma StepKeepsNested<E>(cfg: Config<E>, s: Guardian<E>, t: Transition<E>)
    requires AuditInv(cfg, s) && NestedInv(s) && Enabled(cfg, s, t)
    ensures NestedInv(Apply(cfg, s, t))
  {
    hide AuditInv, Enabled, Apply, NewBurn, NestedProperly;
    BurnsAtMostOne(cfg, s, t);
    if t.Spend? { SpendNests(cfg, s, t.canonical, t.permit, t.now); }
  }

  lemma ShownStays<E>(cfg: Config<E>, ticks: nat, more: nat, now: int)
    requires Shown(cfg, ticks, now) && ticks <= more
    ensures Shown(cfg, more, now)
  {
  }

  lemma StepKeepsClock<E>(cfg: Config<E>, s: Guardian<E>, t: Transition<E>)
    requires ClockInv(cfg, s) && Enabled(cfg, s, t)
    ensures ClockInv(cfg, Apply(cfg, s, t))
  {
    var after := Apply(cfg, s, t);
    ClockAdvances(cfg, s, t);
    hide Enabled, Apply, Shown;
    forall i | 0 <= i < |after.past.issued| ensures Shown(cfg, after.ticks, after.past.issued[i].issuedAt) {
      if i < |s.past.issued| { ShownStays(cfg, s.ticks, after.ticks, s.past.issued[i].issuedAt); }
    }
    forall i | 0 <= i < |after.past.burns| ensures Shown(cfg, after.ticks, after.past.burns[i].now) {
      if i < |s.past.burns| { ShownStays(cfg, s.ticks, after.ticks, s.past.burns[i].now); }
    }
  }

  /** Whatever a transition issues or burns, it does at the last reading of the clock. */
  lemma ClockAdvances<E>(cfg: Config<E>, s: Guardian<E>, t: Transition<E>)
    requires Enabled(cfg, s, t)
    ensures var after := Apply(cfg, s, t);
      && s.ticks <= after.ticks
      && s.past.issued <= after.past.issued && s.past.burns <= after.past.burns
      && (forall i | |s.past.issued| <= i < |after.past.issued| ::
        Shown(cfg, after.ticks, after.past.issued[i].issuedAt))
      && (forall i | |s.past.burns| <= i < |after.past.burns| :: Shown(cfg, after.ticks, after.past.burns[i].now))
  {
    hide Canonicalize, Grantable, StaticFault, DynamicFault, ResultFits, Stores.Add, Policies.Deadline,
         Policies.Record, Policies.Evaluate, Stores.Validate;
    if t.Grant? || t.Spend? {
      assert Shown(cfg, s.ticks, t.now) by { assert cfg.clock(s.ticks - 1) == t.now; }
    }
  }

  // ------------------------------------------------------------ reachable states

  lemma StepKeepsInv<E>(cfg: Config<E>, s: Guardian<E>, t: Transition<E>)
    requires ValidConfig(cfg) && Inv(cfg, s) && Enabled(cfg, s, t)
    ensures Inv(cfg, Apply(cfg, s, t))
  {
    hide StoreInv, IssuedInv, UsageInv, BurnInv, AuditInv, NestInv, OrderInv, PendingInv, ClockInv, TermsInv,
         EventsInv, NestedInv, Apply, Enabled;
    StepKeepsTerms(cfg, s, t);
    StepKeepsEvents(cfg, s, t);
    StepKeepsNested(cfg, s, t);
    StepKeepsPending(cfg, s, t);
    StepKeepsClock(cfg, s, t);
    StepKeepsStore(cfg, s, t);
    StepKeepsIssued(cfg, s, t);
    StepKeepsUsage(cfg, s, t);
    StepKeepsBurns(cfg, s, t);
    StepKeepsAudit(cfg, s, t);
    StepKeepsNesting(cfg, s, t);
    StepKeepsOrder(cfg, s, t);
  }

  lemma {:induction false} RunKeepsInv<E>(cfg: Config<E>, s: Guardian<E>, ts: seq<Transition<E>>)
    requires ValidConfig(cfg) && Inv(cfg, s) && Run(cfg, s, ts).Some?
    ensures Inv(cfg, Run(cfg, s, ts).value)
    decreases |ts|
  {
    hide Inv, Apply, Enabled;
    if ts != [] {
      StepKeepsInv(cfg, s, ts[0]);
      RunKeepsInv(cfg, Apply(cfg, s, ts[0]), ts[1..]);
    }
  }

  lemma InitialInv<E>(cfg: Config<E>, start: Start<E>)
    requires ValidConfig(cfg) && ValidStart(start)
    ensures Inv(cfg, Initial(start))
  {
    hide Stores.WellFormed, Stores.Accounted;
    Policies.NoUsageRespectsQuotas(cfg.policy);
    assert Grants(Initial(start).past.issued) == [];
  }

  /** Every state reachable by any steps, in any order, satisfies the invariant and has nothing in flight. */
  lemma ReachableInv<E>(cfg: Config<E>, start: Start<E>, steps: seq<Step<E>>)
    requires ValidConfig(cfg) && ValidStart(start)
    ensures Inv(cfg, After(cfg, start, steps)) && After(cfg, start, steps).past.inflight == []
  {
    hide Inv, After, Run, ValidStart;
    var ts := ReachableByTransitions(cfg, start, steps);
    InitialInv(cfg, start);
    RunKeepsInv(cfg, Initial(start), ts);
  }
}
