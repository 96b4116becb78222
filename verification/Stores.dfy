/** The capability store as a value: lineages, validation and reservation accounting. */
module Stores {
  import opened Wrappers
  import opened Values
  import opened Canonical
  import opened Capabilities
  import Glob

  /** `order` is the insertion order of the capability dictionary. */
  datatype Store = Store(
    caps: map<string, Capability>,
    order: seq<string>,
    revoked: set<string>,
    nonces: map<string, set<string>>,
    invocations: map<string, nat>)
  {
    function NoncesOf(id: string): set<string>
    {
      if id in nonces then nonces[id] else {}
    }

    function InvocationsOf(id: string): nat
    {
      if id in invocations then invocations[id] else 0
    }
  }

  const EMPTY_STORE := Store(map[], [], {}, map[], map[])

  // ------------------------------------------------------------------ lineage

  /** `_lineage`, for any dictionary: cycles, missing parents, invalid members and widening links are errors. */
  function LineageFrom(caps: map<string, Capability>, current: Capability, seen: set<string>)
    : Result<seq<Capability>, Refusal>
    decreases caps.Keys - seen
  {
    if current.parent.None? then Success([current])
    else
      var p := current.parent.value;
      if p in seen then Failure(DelegationCycle)
      else if p !in caps then Failure(ParentMissing)
      else if SubsetRefusal(current, caps[p]).Some? then Failure(SubsetRefusal(current, caps[p]).value)
      else
        var rest :- LineageFrom(caps, caps[p], seen + {p});
        Success([current] + rest)
  }

  function Lineage(caps: map<string, Capability>, cap: Capability): Result<seq<Capability>, Refusal>
  {
    LineageFrom(caps, cap, {cap.id})
  }

  /** `_snapshot_capability`: validate, then normalize the constraints. */
  function Snapshot(cap: Capability): Option<Capability>
  {
    if !ValidCapability(cap) then None
    else
      match Normalize(Obj(cap.constraints), 0, MAX_CONSTRAINT_DEPTH)
      case None => None
      case Some(v) => Some(cap.(constraints := if v.Obj? then v.fields else map[]))
  }

  lemma SnapshotIsStable(cap: Capability)
    requires Snapshot(cap).Some?
    ensures Snapshot(Snapshot(cap).value) == Snapshot(cap)
    ensures ValidCapability(Snapshot(cap).value)
  {
    var f, v := cap.constraints, Normalize(Obj(cap.constraints), 0, MAX_CONSTRAINT_DEPTH).value;
    NormalizeIdempotent(Obj(f), 0, MAX_CONSTRAINT_DEPTH, v);
    NormalizedFields(f, 0, MAX_CONSTRAINT_DEPTH, v);
    hide Normalize, ValidConstraint;
    forall k | k in f ensures ValidConstraint(v.fields[k]) {
      ValidConstraintNormalizes(f[k], v.fields[k]);
    }
  }

  /** What a capability must be to be stored at all. */
  ghost predicate Proper(c: Capability)
  {
    && "" !in {c.id, c.subject, c.tool, c.action, c.resource, c.session} && c.parent != Some("")
    && 0 <= c.notBefore < c.expiresAt && 0 <= c.maxInvocations && 0 <= c.delegationDepth
    && "" !in c.prohibited && (forall i, j | 0 <= i < j < |c.prohibited| :: c.prohibited[i] != c.prohibited[j])
    && "" !in c.purpose && (forall i, j | 0 <= i < j < |c.purpose| :: c.purpose[i] != c.purpose[j])
    && IsPlain(Obj(c.constraints)) && Height(Obj(c.constraints)) <= 128
    && (forall k | k in c.constraints :: k !in c.prohibited && ProperConstraint(c.constraints[k]))
  }

  /** Exactly these are copied, with nothing changed but the form of their constraints. */
  lemma SnapshotMeaning(c: Capability)
    ensures Snapshot(c).Some? <==> Proper(c)
    ensures Snapshot(c).Some? ==>
      var copy := Snapshot(c).value;
      copy == c.(constraints := copy.constraints) && JsonEqual(Obj(c.constraints), Obj(copy.constraints))
  {
    var v := Obj(c.constraints);
    NormalizeAccepts(v, 0, MAX_CONSTRAINT_DEPTH);
    if Normalize(v, 0, MAX_CONSTRAINT_DEPTH).Some? {
      NormalizeIdempotent(v, 0, MAX_CONSTRAINT_DEPTH, Normalize(v, 0, MAX_CONSTRAINT_DEPTH).value);
      NormalizedFields(c.constraints, 0, MAX_CONSTRAINT_DEPTH, Normalize(v, 0, MAX_CONSTRAINT_DEPTH).value);
      ProperWhenPlain(c);
    }
    hide Normalize, JsonEqual, IsPlain, Height, ValidCapability, Proper;
    ProperIsPlain(c);
  }

  lemma ProperIsPlain(c: Capability)
    ensures Proper(c) ==> IsPlain(Obj(c.constraints)) && Height(Obj(c.constraints)) <= 128
  {
    hide IsPlain, Height, ProperConstraint;
  }

  lemma ProperWhenPlain(c: Capability)
    requires IsPlain(Obj(c.constraints)) && Height(Obj(c.constraints)) <= 128
    ensures ValidCapability(c) <==> Proper(c)
  {
    var v := Obj(c.constraints);
    assert "" !in c.constraints && forall k | k in c.constraints :: IsPlain(c.constraints[k]);
    hide ProperConstraint, ValidConstraint, IsPlain, Height;
    forall k | k in c.constraints ensures ValidConstraint(c.constraints[k]) <==> ProperConstraint(c.constraints[k]) {
      ValidConstraintMeaning(c.constraints[k]);
      SubvalueIsLower(v, k);
    }
  }

  /** A stored capability is valid and narrows a stored parent, if it has one. */
  ghost predicate Linked(caps: map<string, Capability>, id: string)
    requires id in caps
  {
    && caps[id].id == id
    && Snapshot(caps[id]) == Some(caps[id])
    && (caps[id].parent.Some? ==>
          caps[id].parent.value in caps && IsSubset(caps[id], caps[caps[id].parent.value]))
  }

  ghost predicate Forest(caps: map<string, Capability>)
  {
    forall id {:trigger Linked(caps, id)} | id in caps :: Linked(caps, id)
  }

  ghost function Deeper(caps: map<string, Capability>, depth: int): set<string>
  {
    set id | id in caps && caps[id].delegationDepth > depth
  }

  lemma ParentIsDeeper(caps: map<string, Capability>, id: string)
    requires Forest(caps) && id in caps && caps[id].parent.Some?
    ensures var p := caps[id].parent.value;
      p in caps && Deeper(caps, caps[p].delegationDepth) < Deeper(caps, caps[id].delegationDepth)
  {
    assert Linked(caps, id);
    var p := caps[id].parent.value;
    assert p in Deeper(caps, caps[id].delegationDepth);
    assert p !in Deeper(caps, caps[p].delegationDepth);
  }

  /** The path from a capability of a forest to its root. */
  ghost function Chain(caps: map<string, Capability>, id: string): seq<Capability>
    requires Forest(caps) && id in caps
    decreases Deeper(caps, caps[id].delegationDepth)
  {
    if caps[id].parent.None? then [caps[id]]
    else
      assert Linked(caps, id);
      ParentIsDeeper(caps, id);
      [caps[id]] + Chain(caps, caps[id].parent.value)
  }

  /** `c` is `id` or one of its ancestors. */
  ghost predicate Covers(caps: map<string, Capability>, c: string, id: string)
    requires Forest(caps) && id in caps
  {
    exists i | 0 <= i < |Chain(caps, id)| :: Chain(caps, id)[i].id == c
  }

  lemma {:induction false} LineageFromIsChain(caps: map<string, Capability>, id: string, seen: set<string>)
    requires Forest(caps) && id in caps
    requires forall s | s in seen && s in caps :: caps[s].delegationDepth <= caps[id].delegationDepth
    ensures LineageFrom(caps, caps[id], seen) == Success(Chain(caps, id))
    decreases Deeper(caps, caps[id].delegationDepth)
  {
    hide ValidCapability, IsSubset;
    if caps[id].parent.Some? {
      assert Linked(caps, id) && Linked(caps, caps[id].parent.value);
      ParentIsDeeper(caps, id);
      var p := caps[id].parent.value;
      LineageFromIsChain(caps, p, seen + {p});
    }
  }

  /** In a forest the lineage walk never fails. */
  lemma LineageSucceeds(caps: map<string, Capability>, id: string)
    requires Forest(caps) && id in caps
    ensures caps[id].id == id
    ensures Lineage(caps, caps[id]) == Success(Chain(caps, id))
  {
    assert Linked(caps, id);
    LineageFromIsChain(caps, id, {id});
  }

  /** The shape of a lineage: a narrowing chain of stored capabilities ending in a root. */
  lemma {:induction false} ChainShape(caps: map<string, Capability>, id: string)
    requires Forest(caps) && id in caps
    ensures var chain := Chain(caps, id);
      && chain != [] && chain[0] == caps[id] && chain[|chain|-1].parent.None?
      && Narrowing(chain)
      && (forall i | 0 <= i < |chain| :: chain[i].id in caps && chain[i] == caps[chain[i].id])
      && (forall i | 0 <= i < |chain| - 1 :: chain[i].parent == Some(chain[i+1].id))
      && (forall i | 0 <= i < |chain| :: chain[i].delegationDepth >= chain[0].delegationDepth + i)
    decreases Deeper(caps, caps[id].delegationDepth)
  {
    assert Linked(caps, id);
    if caps[id].parent.Some? {
      ParentIsDeeper(caps, id);
      ChainShape(caps, caps[id].parent.value);
      var rest := Chain(caps, caps[id].parent.value);
      assert Chain(caps, id) == [caps[id]] + rest;
      assert Linked(caps, caps[id].parent.value);
      forall i | 0 <= i < |Chain(caps, id)| - 1
        ensures IsSubset(Chain(caps, id)[i], Chain(caps, id)[i+1])
        ensures Chain(caps, id)[i].parent == Some(Chain(caps, id)[i+1].id)
      {
        if i > 0 {
          assert IsSubset(rest[i-1], rest[i]) && rest[i-1].parent == Some(rest[i].id);
        }
      }
    }
  }

  lemma {:induction false} NarrowingTransitive(chain: seq<Capability>, i: nat, j: nat)
    requires Narrowing(chain) && i < j < |chain|
    ensures IsSubset(chain[i], chain[j])
    decreases j
  {
    if i < j - 1 {
      NarrowingTransitive(chain, i, j - 1);
      IsSubsetStrictOrder(chain[i], chain[j-1], chain[j]);
    }
  }

  /** Subject, scopes, window, limits, purposes, prohibitions and parameters of `leaf` lie within those of `cap`. */
  ghost predicate Within(leaf: Capability, cap: Capability)
  {
    && leaf.subject == cap.subject
    && (forall value | Glob.Matches(value, leaf.session) :: Glob.Matches(value, cap.session))
    && (forall value | Glob.Matches(value, leaf.tool) :: Glob.Matches(value, cap.tool))
    && (forall value | Glob.Matches(value, leaf.action) :: Glob.Matches(value, cap.action))
    && (forall value | Glob.Matches(value, leaf.resource) :: Glob.Matches(value, cap.resource))
    && cap.notBefore <= leaf.notBefore && leaf.expiresAt <= cap.expiresAt
    && leaf.maxInvocations <= cap.maxInvocations && leaf.delegationDepth < cap.delegationDepth
    && (cap.purpose != [] ==> leaf.purpose != [] && forall purpose | purpose in leaf.purpose :: purpose in cap.purpose)
    && (forall key | key in cap.prohibited :: key in leaf.prohibited)
    && leaf.constraints.Keys <= cap.constraints.Keys
    && (forall key | key in cap.constraints && Required(cap.constraints[key]) ::
          key in leaf.constraints && Required(leaf.constraints[key]))
    && (forall key, value | key in leaf.constraints && ValueSatisfies(value, leaf.constraints[key]) ::
          ValueSatisfies(value, cap.constraints[key]))
  }

  lemma SubsetIsWithin(leaf: Capability, cap: Capability)
    requires IsSubset(leaf, cap)
    ensures Within(leaf, cap)
  {
    hide Glob.Matches, Glob.ScopeSubset, ConstraintSubset, ValueSatisfies;
    forall value, narrow, wide | Glob.ScopeSubset(narrow, wide) && Glob.Matches(value, narrow)
      ensures Glob.Matches(value, wide)
    {
      Glob.ScopeSubsetSound(value, narrow, wide);
    }
    forall key, value | key in leaf.constraints && ValueSatisfies(value, leaf.constraints[key])
      ensures ValueSatisfies(value, cap.constraints[key])
    {
      ConstraintSubsetSound(value, leaf.constraints[key], cap.constraints[key]);
    }
    forall key | key in cap.constraints && Required(cap.constraints[key])
      ensures key in leaf.constraints && Required(leaf.constraints[key])
    {
      NarrowerIsRequired(leaf.constraints[key], cap.constraints[key]);
    }
  }

  lemma NarrowerIsRequired(child: Value, parent: Value)
    requires ConstraintSubset(child, parent) && Required(parent)
    ensures Required(child)
  {
  }

  /**
   * Lineages are short and nested: their length is bounded by the root's
   * delegation depth, and the leaf lies within every ancestor in every respect.
   */
  lemma LineageBounds(caps: map<string, Capability>, id: string)
    requires Forest(caps) && id in caps
    ensures var chain := Chain(caps, id);
      && |chain| > 0
      && |chain| <= chain[|chain|-1].delegationDepth - chain[0].delegationDepth + 1
      && forall i | 0 < i < |chain| :: Within(chain[0], chain[i])
  {
    ChainShape(caps, id);
    var chain := Chain(caps, id);
    hide Within;
    forall i | 0 < i < |chain| ensures Within(chain[0], chain[i]) {
      NarrowingTransitive(chain, 0, i);
      SubsetIsWithin(chain[0], chain[i]);
    }
  }

  /** The tail of a lineage is the lineage of its head. */
  lemma {:induction false} ChainSuffix(caps: map<string, Capability>, id: string, i: nat)
    requires Forest(caps) && id in caps && i < |Chain(caps, id)|
    ensures Chain(caps, id)[i].id in caps
    ensures Chain(caps, Chain(caps, id)[i].id) == Chain(caps, id)[i..]
    decreases i
  {
    ChainShape(caps, id);
    if i > 0 {
      var p := caps[id].parent.value;
      ParentIsDeeper(caps, id);
      ChainSuffix(caps, p, i - 1);
      assert Chain(caps, id) == [caps[id]] + Chain(caps, p);
    }
  }

  /** Ids do not repeat along a lineage. */
  lemma ChainIdsDistinct(caps: map<string, Capability>, id: string, i: nat, j: nat)
    requires Forest(caps) && id in caps && i < j < |Chain(caps, id)|
    ensures Chain(caps, id)[i].id != Chain(caps, id)[j].id
  {
    ChainShape(caps, id);
    NarrowingTransitive(Chain(caps, id), i, j);
  }

  lemma {:induction false} ChainGrows(caps: map<string, Capability>, more: map<string, Capability>, id: string)
    requires Forest(caps) && Forest(more) && id in caps
    requires forall k | k in caps :: k in more && more[k] == caps[k]
    ensures Chain(more, id) == Chain(caps, id)
    decreases Deeper(caps, caps[id].delegationDepth)
  {
    assert Linked(caps, id);
    if caps[id].parent.Some? {
      ParentIsDeeper(caps, id);
      ChainGrows(caps, more, caps[id].parent.value);
    }
  }

  // ----------------------------------------------------------- status and use

  /** The first capability of the lineage that is revoked or outside its window. */
  function WindowRefusal(lineage: seq<Capability>, revoked: set<string>, now: int): Option<Refusal>
  {
    if lineage == [] then None
    else if lineage[0].id in revoked then Some(Revoked(lineage[0].id))
    else if now < lineage[0].notBefore then Some(NotYetValid(lineage[0].id))
    else if now >= lineage[0].expiresAt then Some(Expired(lineage[0].id))
    else WindowRefusal(lineage[1..], revoked, now)
  }

  /** `_status`: `None` means active. */
  function Status(store: Store, id: string, now: int): Option<Refusal>
  {
    if now < 0 then Some(InvalidTime)
    else if id !in store.caps then Some(UnknownCapability)
    else
      match Lineage(store.caps, store.caps[id])
      case Failure(reason) => Some(reason)
      case Success(lineage) => WindowRefusal(lineage, store.revoked, now)
  }

  /** The first capability of the lineage whose invocations are spent or that has seen the nonce. */
  function QuotaRefusal(lineage: seq<Capability>, store: Store, nonce: string): Option<Refusal>
  {
    if lineage == [] then None
    else if store.InvocationsOf(lineage[0].id) >= lineage[0].maxInvocations then Some(LimitReached(lineage[0].id))
    else if nonce in store.NoncesOf(lineage[0].id) then Some(NonceReplayed(lineage[0].id))
    else QuotaRefusal(lineage[1..], store, nonce)
  }

  /** `_validate` without its reservation: the lineage to charge, or the reason to refuse. */
  function Validate(store: Store, r: Request, now: int): Result<seq<Capability>, Refusal>
  {
    if r.capabilityId !in store.caps then Failure(UnknownCapability)
    else
      var cap := store.caps[r.capabilityId];
      match Status(store, cap.id, now)
      case Some(reason) => Failure(reason)
      case None =>
        var lineage :- Lineage(store.caps, cap);
        match ScopeRefusal(cap, r)
        case Some(reason) => Failure(reason)
        case None =>
          match QuotaRefusal(lineage, store, r.nonce)
          case Some(reason) => Failure(reason)
          case None =>
            match ParameterRefusal(cap, r.Fields())
            case Some(reason) => Failure(reason)
            case None => Success(lineage)
  }

  function Ids(lineage: seq<Capability>): set<string>
  {
    set i | 0 <= i < |lineage| :: lineage[i].id
  }

  /** Charge one use of `nonce` to every capability of the lineage. */
  function Consume(store: Store, lineage: seq<Capability>, nonce: string): Store
  {
    var ids := Ids(lineage);
    store.(
      nonces := store.nonces + (map id | id in ids :: store.NoncesOf(id) + {nonce}),
      invocations := store.invocations + (map id | id in ids :: store.InvocationsOf(id) + 1))
  }

  lemma {:induction false} WindowRefusalNone(lineage: seq<Capability>, revoked: set<string>, now: int)
    ensures WindowRefusal(lineage, revoked, now).None? <==>
      forall i | 0 <= i < |lineage| ::
        lineage[i].id !in revoked && lineage[i].notBefore <= now < lineage[i].expiresAt
  {
    if lineage != [] {
      WindowRefusalNone(lineage[1..], revoked, now);
      assert forall i | 0 < i < |lineage| :: lineage[i] == lineage[1..][i-1];
    }
  }

  lemma {:induction false} QuotaRefusalNone(lineage: seq<Capability>, store: Store, nonce: string)
    ensures QuotaRefusal(lineage, store, nonce).None? <==>
      forall i | 0 <= i < |lineage| ::
        && store.InvocationsOf(lineage[i].id) < lineage[i].maxInvocations
        && nonce !in store.NoncesOf(lineage[i].id)
  {
    if lineage != [] {
      QuotaRefusalNone(lineage[1..], store, nonce);
      assert forall i | 0 < i < |lineage| :: lineage[i] == lineage[1..][i-1];
    }
  }

  /** The whole lineage is unrevoked and inside its validity window. */
  ghost predicate Active(store: Store, id: string, now: int)
    requires Forest(store.caps) && id in store.caps
  {
    forall i | 0 <= i < |Chain(store.caps, id)| ::
      var c := Chain(store.caps, id)[i];
      c.id !in store.revoked && c.notBefore <= now < c.expiresAt
  }

  /** `_status` is exactly lineage-wide activity. */
  lemma StatusIsActive(store: Store, id: string, now: int)
    requires Forest(store.caps)
    ensures Status(store, id, now).None? <==> now >= 0 && id in store.caps && Active(store, id, now)
  {
    if id in store.caps {
      LineageSucceeds(store.caps, id);
      WindowRefusalNone(Chain(store.caps, id), store.revoked, now);
    }
  }

  /** Every capability of the lineage can still be charged for this nonce. */
  ghost predicate Chargeable(store: Store, id: string, nonce: string)
    requires Forest(store.caps) && id in store.caps
  {
    forall i | 0 <= i < |Chain(store.caps, id)| ::
      var c := Chain(store.caps, id)[i];
      store.InvocationsOf(c.id) < c.maxInvocations && nonce !in store.NoncesOf(c.id)
  }

  /**
   * `_validate` accepts exactly when the lineage is active and chargeable and
   * every capability of the lineage, not only the leaf, authorizes the request.
   */
  lemma ValidateMeaning(store: Store, r: Request, now: int)
    requires Forest(store.caps)
    ensures Validate(store, r, now).Success? <==>
      && now >= 0 && r.capabilityId in store.caps
      && Active(store, r.capabilityId, now)
      && Chargeable(store, r.capabilityId, r.nonce)
      && forall i | 0 <= i < |Chain(store.caps, r.capabilityId)| :: Authorizes(Chain(store.caps, r.capabilityId)[i], r)
    ensures Validate(store, r, now).Success? ==>
      Validate(store, r, now).value == Chain(store.caps, r.capabilityId)
  {
    if r.capabilityId in store.caps {
      var chain := Chain(store.caps, r.capabilityId);
      LineageSucceeds(store.caps, r.capabilityId);
      ChainShape(store.caps, r.capabilityId);
      StatusIsActive(store, r.capabilityId, now);
      QuotaRefusalNone(chain, store, r.nonce);
      RefusalsMeanUnauthorized(chain[0], r);
      if Authorizes(chain[0], r) {
        forall i | 0 <= i < |chain| ensures Authorizes(chain[i], r) {
          LineageAuthorizes(chain, r, i);
        }
      }
    }
  }

  /** Everything `_validate` asks of one capability of the lineage, spelled out. */
  ghost predicate Allows(store: Store, cap: Capability, r: Request, now: int)
  {
    && cap.id !in store.revoked && cap.notBefore <= now < cap.expiresAt
    && store.InvocationsOf(cap.id) < cap.maxInvocations && r.nonce !in store.NoncesOf(cap.id)
    && r.subject == cap.subject
    && Glob.Matches(r.session, cap.session) && Glob.Matches(r.tool, cap.tool)
    && Glob.Matches(r.action, cap.action) && Glob.Matches(r.resource, cap.resource)
    && (cap.purpose == [] || r.purpose in cap.purpose)
    && (forall k | k in r.Fields() :: k in cap.constraints && k !in cap.prohibited)
    && (forall k | k in r.Fields() && k in cap.constraints :: ValueSatisfies(r.Fields()[k], cap.constraints[k]))
    && (forall k | k in cap.constraints && Required(cap.constraints[k]) :: k in r.Fields())
  }

  lemma AllowsInParts(store: Store, cap: Capability, r: Request, now: int)
    ensures Allows(store, cap, r, now) <==>
      && cap.id !in store.revoked && cap.notBefore <= now < cap.expiresAt
      && store.InvocationsOf(cap.id) < cap.maxInvocations && r.nonce !in store.NoncesOf(cap.id)
      && Authorizes(cap, r)
  {
    hide Glob.Matches, ValueSatisfies;
  }

  ghost predicate AllAllow(store: Store, lineage: seq<Capability>, r: Request, now: int)
  {
    forall i | 0 <= i < |lineage| :: Allows(store, lineage[i], r, now)
  }

  /** `_validate` succeeds if and only if every capability of the lineage allows the request here and now. */
  lemma ValidateSpelledOut(store: Store, r: Request, now: int)
    requires Forest(store.caps)
    ensures Validate(store, r, now).Success? <==>
      now >= 0 && r.capabilityId in store.caps && AllAllow(store, Chain(store.caps, r.capabilityId), r, now)
  {
    ValidateMeaning(store, r, now);
    if r.capabilityId in store.caps { LineageAllows(store, r, now); }
    hide Forest, AllAllow, Authorizes, Validate, Active, Chargeable;
  }

  lemma LineageAllows(store: Store, r: Request, now: int)
    requires Forest(store.caps) && r.capabilityId in store.caps
    ensures AllAllow(store, Chain(store.caps, r.capabilityId), r, now) <==>
      && Active(store, r.capabilityId, now) && Chargeable(store, r.capabilityId, r.nonce)
      && forall i | 0 <= i < |Chain(store.caps, r.capabilityId)| :: Authorizes(Chain(store.caps, r.capabilityId)[i], r)
  {
    hide Allows, Authorizes, Forest;
    var chain := Chain(store.caps, r.capabilityId);
    forall i | 0 <= i < |chain|
      ensures Allows(store, chain[i], r, now) <==>
        && chain[i].id !in store.revoked && chain[i].notBefore <= now < chain[i].expiresAt
        && store.InvocationsOf(chain[i].id) < chain[i].maxInvocations && r.nonce !in store.NoncesOf(chain[i].id)
        && Authorizes(chain[i], r)
    {
      AllowsInParts(store, chain[i], r, now);
    }
  }

  lemma {:induction false} WindowRefusalIsTrue(lineage: seq<Capability>, revoked: set<string>, now: int)
    ensures match WindowRefusal(lineage, revoked, now)
      case Some(Revoked(id)) => id in revoked && exists i :: 0 <= i < |lineage| && lineage[i].id == id
      case Some(NotYetValid(id)) => exists i :: 0 <= i < |lineage| && lineage[i].id == id && now < lineage[i].notBefore
      case Some(Expired(id)) => exists i :: 0 <= i < |lineage| && lineage[i].id == id && lineage[i].expiresAt <= now
      case Some(_) => false
      case None => true
  {
    if lineage != [] {
      WindowRefusalIsTrue(lineage[1..], revoked, now);
      assert forall i | 0 <= i < |lineage| - 1 :: lineage[1..][i] == lineage[i+1];
      assert lineage[0].id == lineage[0].id;
    }
  }

  lemma {:induction false} QuotaRefusalIsTrue(lineage: seq<Capability>, store: Store, nonce: string)
    ensures match QuotaRefusal(lineage, store, nonce)
      case Some(LimitReached(id)) =>
        exists i :: 0 <= i < |lineage| && lineage[i].id == id && lineage[i].maxInvocations <= store.InvocationsOf(id)
      case Some(NonceReplayed(id)) =>
        nonce in store.NoncesOf(id) && exists i :: 0 <= i < |lineage| && lineage[i].id == id
      case Some(_) => false
      case None => true
  {
    if lineage != [] {
      QuotaRefusalIsTrue(lineage[1..], store, nonce);
      assert forall i | 0 <= i < |lineage| - 1 :: lineage[1..][i] == lineage[i+1];
      assert lineage[0].id == lineage[0].id;
    }
  }

  // ------------------------------------------------------ delegation, revoking

  /** `_add`, including the second lineage walk and the removal when it fails. */
  function Add(store: Store, raw: Capability): Result<Store, Refusal>
  {
    match Snapshot(raw)
    case None => Failure(InvalidCapability)
    case Some(cap) =>
      if cap.id in store.caps then Failure(DuplicateId)
      else if cap.parent.Some? && cap.parent.value !in store.caps then Failure(ParentMissing)
      else if cap.parent.Some? && store.caps[cap.parent.value].id in store.revoked then Failure(ParentRevoked)
      else if cap.parent.Some? && SubsetRefusal(cap, store.caps[cap.parent.value]).Some?
      then Failure(SubsetRefusal(cap, store.caps[cap.parent.value]).value)
      else
        var caps := store.caps[cap.id := cap];
        match Lineage(caps, cap)
        case Failure(reason) => Failure(reason)
        case Success(_) => Success(store.(caps := caps, order := store.order + [cap.id]))
  }

  function Revoke(store: Store, id: string): Result<Store, Refusal>
  {
    if id !in store.caps then Failure(UnknownCapability)
    else Success(store.(revoked := store.revoked + {id}))
  }

  function ResetUsage(store: Store): Store
  {
    store.(nonces := map[], invocations := map[])
  }

  /** The parent of the `i`th capability was added before it. */
  ghost predicate ParentFirst(store: Store, i: nat)
    requires i < |store.order| && store.order[i] in store.caps
  {
    var p := store.caps[store.order[i]].parent;
    p.Some? ==> p.value in store.order[..i]
  }

  /** The dictionary order lists each capability once, parents before children. */
  ghost predicate Ordered(store: Store)
  {
    && (forall i | 0 <= i < |store.order| :: store.order[i] in store.caps)
    && (forall id | id in store.caps :: id in store.order)
    && (forall i, j | 0 <= i < j < |store.order| :: store.order[i] != store.order[j])
    && (forall i: nat {:trigger ParentFirst(store, i)} | i < |store.order| :: ParentFirst(store, i))
  }

  ghost predicate WellFormed(store: Store)
  {
    Forest(store.caps) && Ordered(store) && store.revoked <= store.caps.Keys
  }

  lemma SameShape(store: Store, other: Store)
    requires WellFormed(store)
    requires other.caps == store.caps && other.order == store.order && other.revoked <= store.caps.Keys
    ensures WellFormed(other)
  {
    forall i: nat | i < |other.order| ensures ParentFirst(other, i) {
      assert ParentFirst(store, i);
    }
  }

  /** When `_add` accepts: a valid capability, a fresh id, and a stored, unrevoked, wider parent if any. */
  ghost predicate Addable(store: Store, raw: Capability)
  {
    && Snapshot(raw).Some?
    && var cap := Snapshot(raw).value;
    && cap.id !in store.caps
    && (cap.parent.Some? ==>
      && cap.parent.value in store.caps && cap.parent.value !in store.revoked
      && IsSubset(cap, store.caps[cap.parent.value]))
  }

  lemma ForestExtends(caps: map<string, Capability>, cap: Capability)
    requires Forest(caps) && Snapshot(cap) == Some(cap) && cap.id !in caps
    requires cap.parent.Some? ==> cap.parent.value in caps && IsSubset(cap, caps[cap.parent.value])
    ensures Forest(caps[cap.id := cap])
  {
    var more := caps[cap.id := cap];
    forall id | id in more ensures Linked(more, id) {
      if id != cap.id { assert Linked(caps, id); }
    }
  }

  lemma OrderedExtends(store: Store, cap: Capability)
    requires Ordered(store) && cap.id !in store.caps
    requires cap.parent.Some? ==> cap.parent.value in store.caps
    ensures Ordered(store.(caps := store.caps[cap.id := cap], order := store.order + [cap.id]))
  {
    var after := store.(caps := store.caps[cap.id := cap], order := store.order + [cap.id]);
    forall i: nat | i < |after.order| ensures ParentFirst(after, i) {
      if i < |store.order| {
        assert ParentFirst(store, i);
        assert after.order[..i] == store.order[..i];
      } else {
        assert after.order[..i] == store.order;
      }
    }
  }

  /**
   * Adding succeeds exactly when the capability is addable, and keeps the store a
   * forest; the removal after a failed second lineage walk never happens.
   */
  lemma AddKeepsForest(store: Store, raw: Capability)
    requires WellFormed(store)
    ensures Add(store, raw).Success? <==> Addable(store, raw)
    ensures Addable(store, raw) ==>
      var cap := Snapshot(raw).value;
      && Add(store, raw).value == store.(caps := store.caps[cap.id := cap], order := store.order + [cap.id])
      && WellFormed(Add(store, raw).value)
  {
    if Snapshot(raw).Some? && Snapshot(raw).value.parent.Some? && Snapshot(raw).value.parent.value in store.caps {
      assert Linked(store.caps, Snapshot(raw).value.parent.value);
    }
    if Addable(store, raw) {
      var cap := Snapshot(raw).value;
      SnapshotIsStable(raw);
      ForestExtends(store.caps, cap);
      LineageSucceeds(store.caps[cap.id := cap], cap.id);
      OrderedExtends(store, cap);
    }
  }

  /** `clone`: replay every capability in dictionary order, then copy the rest. */
  function Replay(store: Store, ids: seq<string>): Result<Store, Refusal>
    requires forall i | 0 <= i < |ids| :: ids[i] in store.caps
  {
    if ids == [] then Success(EMPTY_STORE)
    else
      var before :- Replay(store, ids[..|ids|-1]);
      Add(before, store.caps[ids[|ids|-1]])
  }

  function Clone(store: Store): Result<Store, Refusal>
    requires forall i | 0 <= i < |store.order| :: store.order[i] in store.caps
  {
    var replayed :- Replay(store, store.order);
    Success(replayed.(revoked := store.revoked, nonces := store.nonces, invocations := store.invocations))
  }

  /** `r` holds exactly the first `n` capabilities of `store`, unrevoked and unused. */
  ghost predicate PrefixCopy(r: Store, store: Store, n: nat)
    requires n <= |store.order|
  {
    && r.order == store.order[..n]
    && r.revoked == {} && r.nonces == map[] && r.invocations == map[]
    && (forall id :: id in r.caps <==> id in store.order[..n])
    && (forall id | id in r.caps :: id in store.caps && r.caps[id] == store.caps[id])
  }

  lemma NextIsAddable(r: Store, store: Store, n: nat)
    requires WellFormed(store) && n < |store.order| && WellFormed(r) && PrefixCopy(r, store, n)
    ensures Addable(r, store.caps[store.order[n]]) && store.caps[store.order[n]].id == store.order[n]
    ensures Snapshot(store.caps[store.order[n]]) == Some(store.caps[store.order[n]])
  {
    var cap := store.caps[store.order[n]];
    assert Linked(store.caps, store.order[n]) && ParentFirst(store, n);
    assert cap.id !in store.order[..n];
  }

  lemma PrefixNext(r: Store, store: Store, n: nat)
    requires n < |store.order| && store.order[n] in store.caps && PrefixCopy(r, store, n)
    ensures var id := store.order[n];
      PrefixCopy(r.(caps := r.caps[id := store.caps[id]], order := r.order + [id]), store, n + 1)
  {
    var id := store.order[n];
    assert store.order[..n+1] == store.order[..n] + [id];
    forall k ensures k in store.order[..n+1] <==> k in store.order[..n] || k == id {}
  }

  lemma OrderIsStored(store: Store, n: nat)
    requires WellFormed(store) && n < |store.order|
    ensures store.order[n] in store.caps
  {
  }

  lemma CopyExtends(r: Store, store: Store, n: nat)
    requires WellFormed(store) && n < |store.order| && WellFormed(r) && PrefixCopy(r, store, n)
    ensures var next := Add(r, store.caps[store.order[n]]);
      next.Success? && WellFormed(next.value) && PrefixCopy(next.value, store, n + 1)
  {
    hide Snapshot, IsSubset, Add, WellFormed, PrefixCopy, Addable;
    assert store.order[n] in store.caps by { OrderIsStored(store, n); }
    NextIsAddable(r, store, n);
    AddKeepsForest(r, store.caps[store.order[n]]);
    PrefixNext(r, store, n);
  }

  lemma EmptyIsPrefix(store: Store)
    ensures WellFormed(EMPTY_STORE) && PrefixCopy(EMPTY_STORE, store, 0)
  {
  }

  lemma {:induction false} ReplayPrefix(store: Store, n: nat)
    requires WellFormed(store) && n <= |store.order|
    ensures var r := Replay(store, store.order[..n]);
      r.Success? && WellFormed(r.value) && PrefixCopy(r.value, store, n)
  {
    hide Snapshot, Add, Forest, PrefixCopy;
    if n == 0 {
      EmptyIsPrefix(store);
    } else {
      ReplayPrefix(store, n - 1);
      assert store.order[..n][..n-1] == store.order[..n-1];
      assert store.order[..n][n-1] == store.order[n-1];
      CopyExtends(Replay(store, store.order[..n-1]).value, store, n - 1);
    }
  }

  /** Cloning never fails, revocations included, and copies the whole state. */
  lemma CloneIsExact(store: Store)
    requires WellFormed(store)
    ensures Clone(store) == Success(store)
  {
    ReplayPrefix(store, |store.order|);
    assert store.order[..|store.order|] == store.order;
    assert Replay(store, store.order).value.caps == store.caps;
  }

  // --------------------------------------------------------------- accounting

  /** How many of the charged capabilities lie under `c`. */
  ghost function CountUnder(caps: map<string, Capability>, charged: seq<string>, c: string): nat
    requires Forest(caps) && forall i | 0 <= i < |charged| :: charged[i] in caps
  {
    if charged == [] then 0
    else
      CountUnder(caps, charged[..|charged|-1], c) +
      (if Covers(caps, c, charged[|charged|-1]) then 1 else 0)
  }

  /** Counters, nonce sets and charges agree for every capability, within its limit. */
  ghost predicate Counted(store: Store, charged: seq<string>)
    requires Forest(store.caps) && forall i | 0 <= i < |charged| :: charged[i] in store.caps
  {
    forall c | c in store.caps ::
      && store.InvocationsOf(c) == |store.NoncesOf(c)| == CountUnder(store.caps, charged, c)
      && store.InvocationsOf(c) <= store.caps[c].maxInvocations
  }

  /** A child's nonces are its parent's. */
  ghost predicate NoncesNest(store: Store, c: string)
    requires c in store.caps
  {
    store.caps[c].parent.Some? ==> store.NoncesOf(c) <= store.NoncesOf(store.caps[c].parent.value)
  }

  /** Different children of one parent share no nonce. */
  ghost predicate SiblingsDisjoint(store: Store, a: string, b: string)
    requires a in store.caps && b in store.caps
  {
    a != b && store.caps[a].parent.Some? && store.caps[a].parent == store.caps[b].parent ==>
      store.NoncesOf(a) !! store.NoncesOf(b)
  }

  ghost predicate NonceTree(store: Store)
  {
    && (forall c {:trigger store.NoncesOf(c)} | c !in store.caps ::
      store.InvocationsOf(c) == 0 && store.NoncesOf(c) == {})
    && (forall c {:trigger NoncesNest(store, c)} | c in store.caps :: NoncesNest(store, c))
    && (forall a, b {:trigger SiblingsDisjoint(store, a, b)} | a in store.caps && b in store.caps ::
      SiblingsDisjoint(store, a, b))
  }

  /** Exact reservation accounting over the whole forest. */
  ghost predicate Accounted(store: Store, charged: seq<string>)
  {
    && Forest(store.caps)
    && (forall i | 0 <= i < |charged| :: charged[i] in store.caps)
    && Counted(store, charged)
    && NonceTree(store)
  }

  lemma CoversIsChainId(caps: map<string, Capability>, c: string, id: string)
    requires Forest(caps) && id in caps
    ensures Covers(caps, c, id) <==> c in Ids(Chain(caps, id))
  {
    if Covers(caps, c, id) {
      var i :| 0 <= i < |Chain(caps, id)| && Chain(caps, id)[i].id == c;
    }
  }

  lemma ParentFollows(caps: map<string, Capability>, id: string, i: nat)
    requires Forest(caps) && id in caps && i < |Chain(caps, id)|
    requires Chain(caps, id)[i].id in caps && caps[Chain(caps, id)[i].id].parent.Some?
    ensures i + 1 < |Chain(caps, id)|
    ensures Chain(caps, id)[i+1].id == caps[Chain(caps, id)[i].id].parent.value
  {
    hide Forest, Chain;
    ChainShape(caps, id);
  }

  /** An ancestor-or-self has its own parent in the same lineage, and at most one child there. */
  lemma CoversFamily(caps: map<string, Capability>, a: string, b: string, id: string)
    requires Forest(caps) && id in caps && a in caps && caps[a].parent.Some?
    requires Covers(caps, a, id)
    ensures Covers(caps, caps[a].parent.value, id)
    ensures b in caps && a != b && caps[b].parent == caps[a].parent ==> !Covers(caps, b, id)
  {
    hide Forest, Chain;
    var chain := Chain(caps, id);
    var i :| 0 <= i < |chain| && chain[i].id == a;
    ParentFollows(caps, id, i);
    if b in caps && a != b && caps[b].parent == caps[a].parent && Covers(caps, b, id) {
      var j :| 0 <= j < |chain| && chain[j].id == b;
      ParentFollows(caps, id, j);
      if i < j { ChainIdsDistinct(caps, id, i + 1, j + 1); } else { ChainIdsDistinct(caps, id, j + 1, i + 1); }
    }
  }

  /** Consuming touches the lineage's members, each once, and nobody else. */
  lemma ConsumeEffect(store: Store, id: string, nonce: string, c: string)
    requires Forest(store.caps) && id in store.caps
    ensures var after := Consume(store, Chain(store.caps, id), nonce);
      if Covers(store.caps, c, id) then
        after.NoncesOf(c) == store.NoncesOf(c) + {nonce} && after.InvocationsOf(c) == store.InvocationsOf(c) + 1
      else
        after.NoncesOf(c) == store.NoncesOf(c) && after.InvocationsOf(c) == store.InvocationsOf(c)
  {
    CoversIsChainId(store.caps, c, id);
  }

  lemma CoveredIsChargeable(store: Store, id: string, nonce: string, c: string)
    requires Forest(store.caps) && id in store.caps && Chargeable(store, id, nonce)
    requires Covers(store.caps, c, id)
    ensures c in store.caps && nonce !in store.NoncesOf(c)
    ensures store.InvocationsOf(c) < store.caps[c].maxInvocations
  {
    ChainShape(store.caps, id);
    var i :| 0 <= i < |Chain(store.caps, id)| && Chain(store.caps, id)[i].id == c;
  }

  lemma CountUnderAppend(caps: map<string, Capability>, charged: seq<string>, id: string, c: string)
    requires Forest(caps) && id in caps
    requires forall i | 0 <= i < |charged| :: charged[i] in caps
    ensures CountUnder(caps, charged + [id], c) == CountUnder(caps, charged, c) + (if Covers(caps, c, id) then 1 else 0)
  {
    assert (charged + [id])[..|charged|] == charged;
  }

  lemma CountAfterConsume(store: Store, charged: seq<string>, id: string, nonce: string, c: string)
    requires Accounted(store, charged) && id in store.caps && Chargeable(store, id, nonce) && c in store.caps
    ensures var after := Consume(store, Chain(store.caps, id), nonce);
      && after.InvocationsOf(c) == |after.NoncesOf(c)| == CountUnder(store.caps, charged + [id], c)
      && after.InvocationsOf(c) <= store.caps[c].maxInvocations
  {
    hide Consume, Chain, Covers, CountUnder, NonceTree, Chargeable, Forest;
    ConsumeEffect(store, id, nonce, c);
    CountUnderAppend(store.caps, charged, id, c);
    if Covers(store.caps, c, id) { CoveredIsChargeable(store, id, nonce, c); }
  }

  lemma ConsumeKeepsCounts(store: Store, charged: seq<string>, id: string, nonce: string)
    requires Accounted(store, charged) && id in store.caps && Chargeable(store, id, nonce)
    ensures Counted(Consume(store, Chain(store.caps, id), nonce), charged + [id])
  {
    hide Chain, Covers, Forest;
    var after := Consume(store, Chain(store.caps, id), nonce);
    forall c | c in store.caps
      ensures after.InvocationsOf(c) == |after.NoncesOf(c)| == CountUnder(store.caps, charged + [id], c)
      ensures after.InvocationsOf(c) <= store.caps[c].maxInvocations
    {
      CountAfterConsume(store, charged, id, nonce, c);
    }
  }

  lemma ConsumeKeepsNonceTree(store: Store, id: string, nonce: string)
    requires Forest(store.caps) && NonceTree(store) && id in store.caps && Chargeable(store, id, nonce)
    ensures NonceTree(Consume(store, Chain(store.caps, id), nonce))
  {
    var caps := store.caps;
    var after := Consume(store, Chain(caps, id), nonce);
    forall c | c !in caps
      ensures after.InvocationsOf(c) == 0 && after.NoncesOf(c) == {}
    {
      ConsumeEffect(store, id, nonce, c);
      if Covers(caps, c, id) { CoveredIsChargeable(store, id, nonce, c); }
    }
    forall c | c in caps ensures NoncesNest(after, c) {
      assert NoncesNest(store, c) && Linked(caps, c);
      if caps[c].parent.Some? {
        ConsumeEffect(store, id, nonce, c);
        ConsumeEffect(store, id, nonce, caps[c].parent.value);
        if Covers(caps, c, id) { CoversFamily(caps, c, c, id); }
      }
    }
    forall a, b | a in caps && b in caps ensures SiblingsDisjoint(after, a, b) {
      if a != b && caps[a].parent.Some? && caps[a].parent == caps[b].parent {
        SiblingsStayDisjoint(store, id, nonce, a, b);
      }
    }
  }

  lemma SiblingsStayDisjoint(store: Store, id: string, nonce: string, a: string, b: string)
    requires Forest(store.caps) && NonceTree(store) && id in store.caps && Chargeable(store, id, nonce)
    requires a in store.caps && b in store.caps && a != b
    requires store.caps[a].parent.Some? && store.caps[a].parent == store.caps[b].parent
    ensures var after := Consume(store, Chain(store.caps, id), nonce);
      after.NoncesOf(a) !! after.NoncesOf(b)
  {
    var p := store.caps[a].parent.value;
    assert SiblingsDisjoint(store, a, b) && NoncesNest(store, a) && NoncesNest(store, b);
    ConsumeEffect(store, id, nonce, a);
    ConsumeEffect(store, id, nonce, b);
    if Covers(store.caps, a, id) {
      CoversFamily(store.caps, a, b, id);
      CoveredIsChargeable(store, id, nonce, p);
    }
    if Covers(store.caps, b, id) {
      CoversFamily(store.caps, b, a, id);
      CoveredIsChargeable(store, id, nonce, p);
    }
  }

  /** Charging a chargeable lineage keeps the accounts exact. */
  lemma ConsumeKeepsAccounts(store: Store, charged: seq<string>, id: string, nonce: string)
    requires Accounted(store, charged) && id in store.caps && Chargeable(store, id, nonce)
    ensures Accounted(Consume(store, Chain(store.caps, id), nonce), charged + [id])
  {
    ConsumeKeepsCounts(store, charged, id, nonce);
    ConsumeKeepsNonceTree(store, id, nonce);
  }

  lemma {:induction false} CountUnderGrows(
    caps: map<string, Capability>, more: map<string, Capability>, charged: seq<string>, c: string)
    requires Forest(caps) && Forest(more)
    requires forall k | k in caps :: k in more && more[k] == caps[k]
    requires forall i | 0 <= i < |charged| :: charged[i] in caps
    ensures CountUnder(more, charged, c) == CountUnder(caps, charged, c)
  {
    if charged != [] {
      CountUnderGrows(caps, more, charged[..|charged|-1], c);
      ChainGrows(caps, more, charged[|charged|-1]);
    }
  }

  lemma {:induction false} CountUnderConcat(caps: map<string, Capability>, a: seq<string>, b: seq<string>, c: string)
    requires Forest(caps)
    requires forall i | 0 <= i < |a| :: a[i] in caps
    requires forall i | 0 <= i < |b| :: b[i] in caps
    ensures CountUnder(caps, a + b, c) == CountUnder(caps, a, c) + CountUnder(caps, b, c)
  {
    hide Forest, Covers;
    if b == [] {
      assert a + b == a;
    } else {
      assert (a + b)[..|a + b|-1] == a + b[..|b|-1];
      CountUnderConcat(caps, a, b[..|b|-1], c);
    }
  }

  /**
   * In a store that holds the capabilities of an earlier one, an id covers as many of its
   * charges as its counter said.
   */
  lemma CountUnderEarlier(store: Store, charged: seq<string>, more: map<string, Capability>, c: string)
    requires Accounted(store, charged) && Forest(more)
    requires forall k | k in store.caps :: k in more && more[k] == store.caps[k]
    ensures CountUnder(more, charged, c) == store.InvocationsOf(c)
  {
    hide Forest, CountUnder;
    CountUnderGrows(store.caps, more, charged, c);
    if c !in store.caps {
      assert store.NoncesOf(c) == {};
      CountUnderUnknown(store.caps, charged, c);
    }
  }

  lemma {:induction false} CountUnderUnknown(caps: map<string, Capability>, charged: seq<string>, c: string)
    requires Forest(caps) && c !in caps
    requires forall i | 0 <= i < |charged| :: charged[i] in caps
    ensures CountUnder(caps, charged, c) == 0
  {
    if charged != [] {
      CountUnderUnknown(caps, charged[..|charged|-1], c);
      ChainShape(caps, charged[|charged|-1]);
    }
  }

  lemma AddKeepsCounts(store: Store, charged: seq<string>, cap: Capability)
    requires Accounted(store, charged)
    requires cap.id !in store.caps && cap.maxInvocations >= 0 && Forest(store.caps[cap.id := cap])
    ensures Counted(store.(caps := store.caps[cap.id := cap], order := store.order + [cap.id]), charged)
  {
    var caps := store.caps[cap.id := cap];
    forall c | c in caps
      ensures store.InvocationsOf(c) == |store.NoncesOf(c)| == CountUnder(caps, charged, c)
      ensures store.InvocationsOf(c) <= caps[c].maxInvocations
    {
      CountUnderGrows(store.caps, caps, charged, c);
      if c == cap.id { CountUnderUnknown(store.caps, charged, c); }
    }
  }

  lemma AddKeepsNonceTree(store: Store, cap: Capability)
    requires Forest(store.caps) && NonceTree(store) && cap.id !in store.caps
    requires cap.parent.Some? ==> cap.parent.value in store.caps
    ensures NonceTree(store.(caps := store.caps[cap.id := cap], order := store.order + [cap.id]))
  {
    var after := store.(caps := store.caps[cap.id := cap], order := store.order + [cap.id]);
    assert store.NoncesOf(cap.id) == {};
    forall c | c !in after.caps ensures after.InvocationsOf(c) == 0 && after.NoncesOf(c) == {} {
      assert store.NoncesOf(c) == {};
    }
    forall c | c in after.caps ensures NoncesNest(after, c) {
      if c != cap.id { assert NoncesNest(store, c) && Linked(store.caps, c); }
    }
    forall a, b | a in after.caps && b in after.caps ensures SiblingsDisjoint(after, a, b) {
      if a != cap.id && b != cap.id { assert SiblingsDisjoint(store, a, b); }
    }
  }

  /** A new capability starts with clean accounts and disturbs nobody else's. */
  lemma AddKeepsAccounts(store: Store, charged: seq<string>, raw: Capability)
    requires WellFormed(store) && Accounted(store, charged) && Addable(store, raw)
    ensures Add(store, raw).Success? && Accounted(Add(store, raw).value, charged)
  {
    var cap := Snapshot(raw).value;
    AddKeepsForest(store, raw);
    assert cap.maxInvocations >= 0 by { SnapshotIsStable(raw); }
    AddKeepsCounts(store, charged, cap);
    AddKeepsNonceTree(store, cap);
  }

  lemma {:induction false} CountUnderNothing(caps: map<string, Capability>, c: string)
    requires Forest(caps)
    ensures CountUnder(caps, [], c) == 0
  {
  }

  /** With every counter cleared and nothing charged the accounts are exact. */
  lemma NothingCharged(store: Store)
    requires Forest(store.caps) && store.nonces == map[] && store.invocations == map[]
    ensures Accounted(store, [])
  {
    forall c | c in store.caps
      ensures store.InvocationsOf(c) == |store.NoncesOf(c)| == CountUnder(store.caps, [], c)
      ensures store.InvocationsOf(c) <= store.caps[c].maxInvocations
    {
      assert Linked(store.caps, c);
      SnapshotIsStable(store.caps[c]);
      CountUnderNothing(store.caps, c);
    }
    forall c ensures store.NoncesOf(c) == {} && store.InvocationsOf(c) == 0 {
      assert c !in store.nonces && c !in store.invocations;
    }
    forall c | c in store.caps ensures NoncesNest(store, c) {}
    forall a, b | a in store.caps && b in store.caps ensures SiblingsDisjoint(store, a, b) {}
  }

  /** The accounts do not depend on revocations or on the dictionary's order. */
  lemma SameAccounts(store: Store, other: Store, charged: seq<string>)
    requires Accounted(store, charged)
    requires other.caps == store.caps && other.nonces == store.nonces && other.invocations == store.invocations
    ensures Accounted(other, charged)
  {
    hide Forest, CountUnder;
    forall c ensures other.NoncesOf(c) == store.NoncesOf(c) && other.InvocationsOf(c) == store.InvocationsOf(c) {}
    forall c | c in other.caps ensures NoncesNest(other, c) { assert NoncesNest(store, c); }
    forall a, b | a in other.caps && b in other.caps ensures SiblingsDisjoint(other, a, b) {
      assert SiblingsDisjoint(store, a, b);
    }
  }
}
