/** Delegation cannot multiply authority: the end-to-end bound on executed delta-v. */
module DeltaV {
  import opened Wrappers
  import opened Values
  import opened Canonical
  import opened Types
  import opened Runtime
  import opened Transitions
  import opened Safety
  import opened Theorems
  import opened Mission
  import Capabilities
  import Stores

  ghost predicate Known(caps: map<string, Capabilities.Capability>, burns: seq<Burn<MissionState>>)
  {
    forall i | 0 <= i < |burns| :: burns[i].payload.capabilityId in caps
  }

  /** The delta-v executed under `c`: by permits naming `c` or any of its descendants. */
  ghost function ExpendedUnder(caps: map<string, Capabilities.Capability>, burns: seq<Burn<MissionState>>,
                               c: string): real
    requires Stores.Forest(caps) && Known(caps, burns)
  {
    if burns == [] then 0.0
    else
      var last := burns[|burns|-1];
      ExpendedUnder(caps, burns[..|burns|-1], c) +
      (if last.direct && Stores.Covers(caps, c, last.payload.capabilityId) then Expended(last.request) else 0.0)
  }

  /** The delta-v executed altogether. */
  function ExpendedBy(burns: seq<Burn<MissionState>>): real
  {
    if burns == [] then 0.0
    else ExpendedBy(burns[..|burns|-1]) + (if burns[|burns|-1].direct then Expended(burns[|burns|-1].request) else 0.0)
  }

  /** The permit sequences burned under `c`. */
  ghost function BurnedUnder(caps: map<string, Capabilities.Capability>, burns: seq<Burn<MissionState>>,
                             c: string): set<int>
    requires Stores.Forest(caps) && Known(caps, burns)
  {
    set i | 0 <= i < |burns| && Stores.Covers(caps, c, burns[i].payload.capabilityId) :: burns[i].payload.sequence
  }

  /** The first `n` permit sequences issued under `c`. */
  ghost function IssuedUnder(caps: map<string, Capabilities.Capability>, ids: seq<string>, c: string): set<int>
    requires Stores.Forest(caps) && forall i | 0 <= i < |ids| :: ids[i] in caps
  {
    set i | 0 <= i < |ids| && Stores.Covers(caps, c, ids[i]) :: i + 1
  }

  lemma {:induction false} IssuedUnderSize(caps: map<string, Capabilities.Capability>, ids: seq<string>, c: string)
    requires Stores.Forest(caps) && forall i | 0 <= i < |ids| :: ids[i] in caps
    ensures |IssuedUnder(caps, ids, c)| == Stores.CountUnder(caps, ids, c)
  {
    hide Stores.Forest, Stores.Covers;
    if ids != [] {
      var init, last := ids[..|ids|-1], ids[|ids|-1];
      IssuedUnderSize(caps, init, c);
      var covered := if Stores.Covers(caps, c, last) then {|ids|} else {};
      forall n ensures n in IssuedUnder(caps, ids, c) <==> n in IssuedUnder(caps, init, c) + covered {
        if n in IssuedUnder(caps, init, c) {
          var i :| 0 <= i < |init| && Stores.Covers(caps, c, init[i]) && n == i + 1;
          assert ids[i] == init[i];
        }
        if n in IssuedUnder(caps, ids, c) {
          var i :| 0 <= i < |ids| && Stores.Covers(caps, c, ids[i]) && n == i + 1;
          assert i < |init| ==> init[i] == ids[i];
        }
      }
      assert IssuedUnder(caps, ids, c) == IssuedUnder(caps, init, c) + covered;
    }
  }

  lemma SubsetSize(a: set<int>, b: set<int>)
    requires a <= b
    ensures |a| <= |b|
  {
    assert b == a + (b - a);
  }

  /** `n` times the bound. */
  function Times(bound: real, n: nat): real { bound * (n as real) }

  lemma TimesGrows(bound: real, n: nat, m: nat)
    requires n <= m && bound >= 0.0
    ensures Times(bound, n) <= Times(bound, m)
  {
  }

  lemma TimesNext(bound: real, n: nat)
    ensures Times(bound, 0) == 0.0 && Times(bound, n + 1) == Times(bound, n) + bound
  {
  }

  /** Distinct permits: what is expended is at most the bound times the number of burned permits. */
  lemma {:induction false} ExpendedAtMost(caps: map<string, Capabilities.Capability>, burns: seq<Burn<MissionState>>,
                                          c: string, bound: real)
    requires Stores.Forest(caps) && Known(caps, burns) && SequencesDistinct(burns)
    requires bound >= 0.0
    requires forall i | 0 <= i < |burns| ::
      burns[i].direct && Stores.Covers(caps, c, burns[i].payload.capabilityId) ==> Expended(burns[i].request) <= bound
    ensures ExpendedUnder(caps, burns, c) <= Times(bound, |BurnedUnder(caps, burns, c)|)
    decreases |burns|
  {
    hide Stores.Forest, Stores.Covers, Expended, Times;
    TimesNext(bound, 0);
    if burns != [] {
      var init, last := burns[..|burns|-1], burns[|burns|-1];
      ExpendedAtMost(caps, init, c, bound);
      var before, after := BurnedUnder(caps, init, c), BurnedUnder(caps, burns, c);
      var added := if Stores.Covers(caps, c, last.payload.capabilityId) then {last.payload.sequence} else {};
      BurnedUnderExtends(caps, burns, c);
      assert |after| == |before| + |added|;
      hide BurnedUnder;
      TimesNext(bound, |before|);
    }
  }

  lemma BurnedUnderExtends(caps: map<string, Capabilities.Capability>, burns: seq<Burn<MissionState>>, c: string)
    requires Stores.Forest(caps) && Known(caps, burns) && SequencesDistinct(burns) && burns != []
    ensures var init, last := burns[..|burns|-1], burns[|burns|-1];
      var added := if Stores.Covers(caps, c, last.payload.capabilityId) then {last.payload.sequence} else {};
      && BurnedUnder(caps, burns, c) == BurnedUnder(caps, init, c) + added
      && BurnedUnder(caps, init, c) !! added
  {
    hide Stores.Forest, Stores.Covers;
    var init, last := burns[..|burns|-1], burns[|burns|-1];
    var added := if Stores.Covers(caps, c, last.payload.capabilityId) then {last.payload.sequence} else {};
    forall n ensures n in BurnedUnder(caps, burns, c) <==> n in BurnedUnder(caps, init, c) + added {
      if n in BurnedUnder(caps, init, c) {
        var i :| 0 <= i < |init| && Stores.Covers(caps, c, init[i].payload.capabilityId)
          && n == init[i].payload.sequence;
        assert burns[i] == init[i];
      }
      if n in BurnedUnder(caps, burns, c) {
        var i :| 0 <= i < |burns| && Stores.Covers(caps, c, burns[i].payload.capabilityId)
          && n == burns[i].payload.sequence;
        assert i < |init| ==> init[i] == burns[i];
      }
    }
    forall n | n in BurnedUnder(caps, init, c) ensures n !in added {
      var i :| 0 <= i < |init| && Stores.Covers(caps, c, init[i].payload.capabilityId) && n == init[i].payload.sequence;
      assert burns[i] == init[i];
    }
  }

  /**
   * Every number the capability accepts for `delta_v` lies in [low, high], whether
   * it says so by limits, by an enumeration, by an exact value or by not declaring
   * the parameter at all.
   */
  ghost predicate BoundsDeltaV(cap: Capabilities.Capability, low: real, high: real)
  {
    "delta_v" in cap.constraints ==>
      forall v {:trigger Capabilities.ValueSatisfies(v, cap.constraints["delta_v"])} ::
        IsNumber(v) && Capabilities.ValueSatisfies(v, cap.constraints["delta_v"]) ==> low <= Number(v) <= high
  }

  /** Declared limits bound. */
  lemma LimitsBound(cap: Capabilities.Capability, low: real, high: real)
    requires "delta_v" in cap.constraints && cap.constraints["delta_v"].Obj?
    requires var f := cap.constraints["delta_v"].fields;
      "min" in f && "max" in f && Number(f["min"]) == low && Number(f["max"]) == high
    ensures BoundsDeltaV(cap, low, high)
  {
  }

  function Max(a: real, b: real): real { if a < b then b else a }

  function Least(a: real, b: real): real { if a < b then a else b }

  /** What an authorized maneuver can expend at most under a bounding capability. */
  lemma AuthorizedExpends(cap: Capabilities.Capability, r: Request, low: real, high: real)
    requires BoundsDeltaV(cap, low, high) && Capabilities.Authorizes(cap, r)
    ensures Expended(r) <= Max(Abs(low), Abs(high))
  {
    var params := r.Fields();
    if r.action == "maneuver" && IsNumber(Param(r, "delta_v")) {
      assert "delta_v" in params;
      assert Capabilities.ValueSatisfies(params["delta_v"], cap.constraints["delta_v"]);
    }
  }

  /** Every burn under `c` was authorized by `c` itself. */
  lemma CoverAuthorizes(store: Stores.Store, p: PermitPayload, c: string)
    requires Stores.Forest(store.caps) && WellIssued(store, p) && Stores.Covers(store.caps, c, p.capabilityId)
    ensures c in store.caps && Capabilities.Authorizes(store.caps[c], p.request)
  {
    hide Capabilities.Authorizes, Canonicalize;
    var chain := Stores.Chain(store.caps, p.capabilityId);
    Stores.ChainShape(store.caps, p.capabilityId);
    var i :| 0 <= i < |chain| && chain[i].id == c;
    Capabilities.LineageAuthorizes(chain, p.request, i);
  }

  ghost predicate IssuedAndBurned<E>(cfg: Config<E>, s: Guardian<E>)
  {
    Stores.Forest(s.store.caps) && IssuedInv(s) && BurnInv(cfg, s)
  }

  lemma BurnFacts(cfg: Config<MissionState>, py: Builtins, s: Guardian<MissionState>, i: nat)
    requires IsMission(cfg, py) && IssuedAndBurned(cfg, s) && i < |s.past.burns|
    ensures var b := s.past.burns[i];
      && WellIssued(s.store, b.payload) && b.payload.request == b.request
      && 1 <= b.payload.sequence <= |s.past.issued| && s.past.issued[b.payload.sequence - 1] == b.payload
      && Expended(b.request) <= MAX_DELTA_V
  {
    var b := s.past.burns[i];
    assert BurnSafe(cfg, b);
    assert cfg.check(b.env, b.request).None? && b.payload.request == b.request
      && Canonicalize(b.request) == Some(b.request);
    hide BurnSafe, WellIssued, Stores.Forest, Canonicalize;
    var j :| 0 <= j < |s.past.issued| && s.past.issued[j] == b.payload;
    CheckedExecExpends(py, b.env, b.request);
  }

  lemma KnownBurns(cfg: Config<MissionState>, py: Builtins, s: Guardian<MissionState>)
    requires IsMission(cfg, py) && IssuedAndBurned(cfg, s)
    ensures Known(s.store.caps, s.past.burns)
  {
    hide IssuedAndBurned, IsMission;
    forall i | 0 <= i < |s.past.burns| ensures s.past.burns[i].payload.capabilityId in s.store.caps {
      BurnFacts(cfg, py, s, i);
    }
  }

  /** The permits burned under `c` are among those issued under it. */
  lemma BurnedAmongIssued(cfg: Config<MissionState>, py: Builtins, s: Guardian<MissionState>, c: string)
    requires IsMission(cfg, py) && IssuedAndBurned(cfg, s) && Known(s.store.caps, s.past.burns)
    requires Stores.Forest(s.store.caps)
    requires forall i | 0 <= i < |s.past.issued| :: s.past.issued[i].capabilityId in s.store.caps
    ensures BurnedUnder(s.store.caps, s.past.burns, c) <= IssuedUnder(s.store.caps, CapabilityIds(s.past.issued), c)
  {
    hide IssuedAndBurned, IsMission, Stores.Covers, Stores.Forest, WellIssued;
    var ids := CapabilityIds(s.past.issued);
    forall n | n in BurnedUnder(s.store.caps, s.past.burns, c) ensures n in IssuedUnder(s.store.caps, ids, c) {
      var i :| 0 <= i < |s.past.burns|
        && Stores.Covers(s.store.caps, c, s.past.burns[i].payload.capabilityId)
          && n == s.past.burns[i].payload.sequence;
      BurnFacts(cfg, py, s, i);
      assert ids[n-1] == s.past.burns[i].payload.capabilityId;
    }
  }

  lemma CoveredBurnExpends(cfg: Config<MissionState>, py: Builtins, s: Guardian<MissionState>, i: nat,
                           c: string, low: real, high: real)
    requires IsMission(cfg, py) && IssuedAndBurned(cfg, s) && i < |s.past.burns|
    requires Stores.Forest(s.store.caps) && s.past.burns[i].payload.capabilityId in s.store.caps
    requires Stores.Covers(s.store.caps, c, s.past.burns[i].payload.capabilityId)
    requires c in s.store.caps && BoundsDeltaV(s.store.caps[c], low, high)
    ensures Expended(s.past.burns[i].request) <= Least(MAX_DELTA_V, Max(Abs(low), Abs(high)))
  {
    hide IssuedAndBurned, IsMission, BoundsDeltaV, Expended, WellIssued, Stores.Forest;
    BurnFacts(cfg, py, s, i);
    CoverAuthorizes(s.store, s.past.burns[i].payload, c);
    AuthorizedExpends(s.store.caps[c], s.past.burns[i].request, low, high);
  }

  lemma SubtreeBound(cfg: Config<MissionState>, py: Builtins, s: Guardian<MissionState>,
                     c: string, low: real, high: real)
    requires IsMission(cfg, py) && IssuedAndBurned(cfg, s) && Stores.Forest(s.store.caps)
    requires Known(s.store.caps, s.past.burns) && SequencesDistinct(s.past.burns)
    requires forall i | 0 <= i < |s.past.issued| :: s.past.issued[i].capabilityId in s.store.caps
    requires c in s.store.caps && BoundsDeltaV(s.store.caps[c], low, high)
    ensures var bound := Least(MAX_DELTA_V, Max(Abs(low), Abs(high)));
      ExpendedUnder(s.store.caps, s.past.burns, c)
        <= Times(bound, Stores.CountUnder(s.store.caps, CapabilityIds(s.past.issued), c))
  {
    hide IsMission, IssuedAndBurned, BoundsDeltaV, Stores.Forest, Stores.Covers, ExpendedUnder, BurnedUnder,
         IssuedUnder, Least, Max, SequencesDistinct, Stores.CountUnder, Expended;
    var bound := Least(MAX_DELTA_V, Max(Abs(low), Abs(high)));
    var ids := CapabilityIds(s.past.issued);
    forall i | 0 <= i < |s.past.burns|
      && s.past.burns[i].direct && Stores.Covers(s.store.caps, c, s.past.burns[i].payload.capabilityId)
      ensures Expended(s.past.burns[i].request) <= bound
    {
      CoveredBurnExpends(cfg, py, s, i, c, low, high);
    }
    BoundIsNonNegative(low, high);
    ExpendedAtMost(s.store.caps, s.past.burns, c, bound);
    BurnedAmongIssued(cfg, py, s, c);
    SubsetSize(BurnedUnder(s.store.caps, s.past.burns, c), IssuedUnder(s.store.caps, ids, c));
    IssuedUnderSize(s.store.caps, ids, c);
    TimesGrows(bound, |BurnedUnder(s.store.caps, s.past.burns, c)|, Stores.CountUnder(s.store.caps, ids, c));
  }

  /**
   * In every run without a usage reset, for any capability bounding `delta_v`, the
   * delta-v executed under its whole delegation subtree, of any shape and depth
   * and in any interleaving, is at most the invocations it had left at the start
   * times the smaller of the hard envelope and its bound.
   */
  lemma DelegationCannotMultiply(cfg: Config<MissionState>, py: Builtins, start: Start<MissionState>,
                                 steps: seq<Step<MissionState>>, c: string, low: real, high: real)
    requires ValidConfig(cfg) && ValidStart(start) && IsMission(cfg, py) && Reset !in steps
    requires c in After(cfg, start, steps).store.caps
    requires BoundsDeltaV(After(cfg, start, steps).store.caps[c], low, high)
    ensures var s := After(cfg, start, steps);
      && Stores.Forest(s.store.caps) && Known(s.store.caps, s.past.burns)
      && start.store.InvocationsOf(c) <= s.store.caps[c].maxInvocations
      && ExpendedUnder(s.store.caps, s.past.burns, c)
           <= Least(MAX_DELTA_V, Max(Abs(low), Abs(high)))
              * ((s.store.caps[c].maxInvocations - start.store.InvocationsOf(c)) as real)
  {
    hide After, IsMission, IssuedAndBurned, BoundsDeltaV, Stores.Forest, ExpendedUnder, Least, Max, ValidStart,
         SequencesDistinct, Stores.CountUnder;
    var s := After(cfg, start, steps);
    ReachableParts(cfg, start, steps);
    IssuedWithinRest(cfg, start, steps, c);
    KnownBurns(cfg, py, s);
    SubtreeBound(cfg, py, s, c, low, high);
    BoundIsNonNegative(low, high);
    TimesGrows(Least(MAX_DELTA_V, Max(Abs(low), Abs(high))),
               Stores.CountUnder(s.store.caps, CapabilityIds(s.past.issued), c),
               s.store.caps[c].maxInvocations - start.store.InvocationsOf(c));
  }

  lemma BoundIsNonNegative(low: real, high: real)
    ensures Least(MAX_DELTA_V, Max(Abs(low), Abs(high))) >= 0.0
  {
  }

  lemma ReachableParts(cfg: Config<MissionState>, start: Start<MissionState>, steps: seq<Step<MissionState>>)
    requires ValidConfig(cfg) && ValidStart(start)
    ensures var s := After(cfg, start, steps);
      && IssuedAndBurned(cfg, s) && Stores.Forest(s.store.caps) && SequencesDistinct(s.past.burns)
      && forall i | 0 <= i < |s.past.issued| :: s.past.issued[i].capabilityId in s.store.caps
  {
    hide After, BurnSafe, UsageInv, AuditInv, NestInv, OrderInv, PendingInv, ClockInv, TermsInv, EventsInv,
         NestedInv, ValidStart, Stores.Accounted, Stores.Forest, Capabilities.Authorizes, Canonicalize;
    ReachableInv(cfg, start, steps);
    var s := After(cfg, start, steps);
    forall i | 0 <= i < |s.past.issued| ensures s.past.issued[i].capabilityId in s.store.caps {
      assert WellIssued(s.store, s.past.issued[i]);
    }
  }

  /** The permits issued under a capability in the run fit into the invocations it had left. */
  lemma IssuedWithinRest(cfg: Config<MissionState>, start: Start<MissionState>, steps: seq<Step<MissionState>>,
                         c: string)
    requires ValidConfig(cfg) && ValidStart(start) && Reset !in steps
    requires c in After(cfg, start, steps).store.caps && Stores.Forest(After(cfg, start, steps).store.caps)
    requires forall i | 0 <= i < |After(cfg, start, steps).past.issued| ::
      After(cfg, start, steps).past.issued[i].capabilityId in After(cfg, start, steps).store.caps
    ensures var s := After(cfg, start, steps);
      start.store.InvocationsOf(c) + Stores.CountUnder(s.store.caps, CapabilityIds(s.past.issued), c)
        <= s.store.caps[c].maxInvocations
  {
    hide After, Stores.NonceTree, Stores.Forest, Stores.CountUnder, Stores.Accounted, Stores.WellFormed;
    ReservationAccounting(cfg, start, steps);
    CapabilitiesStay(cfg, start, steps);
    var s, ids := After(cfg, start, steps), CapabilityIds(After(cfg, start, steps).past.issued);
    assert forall i | 0 <= i < |start.charged| :: (start.charged + ids)[i] == start.charged[i];
    Stores.CountUnderEarlier(start.store, start.charged, s.store.caps, c);
    Stores.CountUnderConcat(s.store.caps, start.charged, ids, c);
  }

  /**
   * Conservation: as long as the simulator changes only through its tools, its
   * cumulative delta-v is exactly what the burned permits expended.
   */
  lemma CumulativeIsExpended(cfg: Config<MissionState>, py: Builtins, start: Start<MissionState>,
                             steps: seq<Step<MissionState>>)
    requires ValidConfig(cfg) && ValidStart(start) && IsMission(cfg, py)
    requires forall i | 0 <= i < |steps| :: !steps[i].Environment?
    ensures var s := After(cfg, start, steps);
      s.env.deltaV == start.env.deltaV + ExpendedBy(s.past.burns)
  {
    hide After, StoreInv, IssuedInv, UsageInv, AuditInv, NestInv, OrderInv, BurnInv, PendingInv, ClockInv, TermsInv,
         EventsInv, NestedInv, ValidStart;
    ReachableInv(cfg, start, steps);
    EnvironmentIsReplay(cfg, start, steps);
    var s := After(cfg, start, steps);
    assert s.past.burns[..|s.past.burns|] == s.past.burns;
    ReplayExpends(cfg, py, start.env, s, |s.past.burns|);
  }

  lemma {:induction false} ReplayExpends(cfg: Config<MissionState>, py: Builtins, env: MissionState,
                                         s: Guardian<MissionState>, n: nat)
    requires IsMission(cfg, py) && BurnInv(cfg, s) && ReplayInv(cfg, env, s) && n <= |s.past.burns|
    ensures Replay(cfg, env, s.past.burns[..n]).deltaV == env.deltaV + ExpendedBy(s.past.burns[..n])
  {
    hide BurnInv, ReplayInv, IsMission, Expended;
    if n > 0 {
      EnvironmentAt(cfg, env, s, n - 1);
      ReplayNext(cfg, env, s.past.burns, n - 1);
      ExpendedNext(s.past.burns, n - 1);
      ReplayExpends(cfg, py, env, s, n - 1);
      DirectBurnExpends(cfg, py, s, n - 1);
      hide Replay, ExpendedBy;
    }
  }

  lemma ExpendedNext(burns: seq<Burn<MissionState>>, n: nat)
    requires n < |burns|
    ensures ExpendedBy(burns[..n+1]) ==
      ExpendedBy(burns[..n]) + (if burns[n].direct then Expended(burns[n].request) else 0.0)
  {
    assert burns[..n+1][..n] == burns[..n] && burns[..n+1][n] == burns[n];
  }

  lemma DirectBurnExpends(cfg: Config<MissionState>, py: Builtins, s: Guardian<MissionState>, i: nat)
    requires IsMission(cfg, py) && BurnInv(cfg, s) && i < |s.past.burns|
    ensures var b := s.past.burns[i];
      cfg.exec(b.env, b.request).0.deltaV == b.env.deltaV + Expended(b.request)
  {
    hide BurnInv, Exec, Check, Expended, Canonicalize;
    BurnChecked(cfg, py, s, i);
    CheckedExecExpends(py, s.past.burns[i].env, s.past.burns[i].request);
  }

  lemma BurnChecked(cfg: Config<MissionState>, py: Builtins, s: Guardian<MissionState>, i: nat)
    requires IsMission(cfg, py) && BurnInv(cfg, s) && i < |s.past.burns|
    ensures Check(s.past.burns[i].env, s.past.burns[i].request).None?
    ensures Canonicalize(s.past.burns[i].request) == Some(s.past.burns[i].request)
  {
    hide Check;
    assert BurnSafe(cfg, s.past.burns[i]);
  }

  lemma {:induction false} AllUnder(caps: map<string, Capabilities.Capability>, burns: seq<Burn<MissionState>>,
                                    c: string)
    requires Stores.Forest(caps) && Known(caps, burns)
    requires forall id | id in caps :: Stores.Covers(caps, c, id)
    ensures ExpendedUnder(caps, burns, c) == ExpendedBy(burns)
  {
    hide Stores.Forest, Stores.Covers, Expended;
    if burns != [] { AllUnder(caps, burns[..|burns|-1], c); }
  }

  /**
   * The simulator's own counter is bounded: when every stored capability descends
   * from one root, its cumulative delta-v never grows by more than the invocations
   * that root had left times the per-request bound.
   */
  lemma CumulativeIsBounded(cfg: Config<MissionState>, py: Builtins, start: Start<MissionState>,
                            steps: seq<Step<MissionState>>, c: string, low: real, high: real)
    requires ValidConfig(cfg) && ValidStart(start) && IsMission(cfg, py) && Reset !in steps
    requires forall i | 0 <= i < |steps| :: !steps[i].Environment?
    requires c in After(cfg, start, steps).store.caps
    requires BoundsDeltaV(After(cfg, start, steps).store.caps[c], low, high)
    requires Stores.Forest(After(cfg, start, steps).store.caps)
    requires forall id | id in After(cfg, start, steps).store.caps ::
      Stores.Covers(After(cfg, start, steps).store.caps, c, id)
    ensures var s := After(cfg, start, steps);
      s.env.deltaV <= start.env.deltaV +
        Least(MAX_DELTA_V, Max(Abs(low), Abs(high)))
        * ((s.store.caps[c].maxInvocations - start.store.InvocationsOf(c)) as real)
  {
    hide After, IsMission, BoundsDeltaV, Stores.Forest, Stores.Covers, ExpendedUnder, ExpendedBy, Least, Max,
         ValidConfig, ValidStart;
    DelegationCannotMultiply(cfg, py, start, steps, c, low, high);
    CumulativeIsExpended(cfg, py, start, steps);
    AllUnder(After(cfg, start, steps).store.caps, After(cfg, start, steps).past.burns, c);
  }
}
