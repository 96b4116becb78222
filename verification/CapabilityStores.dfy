/**
 * The capability store as the object the runtime shares: dictionaries updated in
 * place, each operation proved to do what the store value in `Stores` does.
 */
module CapabilityStores {
  import opened Wrappers
  import opened Values
  import opened Canonical
  import opened Capabilities
  import Stores

  /** Looking a nonce set up leaves an empty one behind; empty sets carry no information. */
  ghost function NonEmpty(nonces: map<string, set<string>>): map<string, set<string>>
  {
    map id | id in nonces && nonces[id] != {} :: nonces[id]
  }

  ghost function Prepend(front: seq<Capability>, rest: Result<seq<Capability>, Refusal>)
    : Result<seq<Capability>, Refusal>
  {
    match rest
    case Failure(why) => Failure(why)
    case Success(lineage) => Success(front + lineage)
  }

  class CapabilityStore {
    var caps: map<string, Capability>
    var order: seq<string>
    var revoked: set<string>
    var usedNonces: map<string, set<string>>
    var invocations: map<string, nat>

    ghost function Model(): Stores.Store
      reads this
    {
      Stores.Store(caps, order, revoked, NonEmpty(usedNonces), invocations)
    }

    ghost predicate Valid()
      reads this
    {
      Stores.WellFormed(Model())
    }

    constructor ()
      ensures Valid() && Model() == Stores.EMPTY_STORE
    {
      caps, order, revoked, usedNonces, invocations := map[], [], {}, map[], map[];
      new;
      assert Model() == Stores.EMPTY_STORE;
    }

    /** `_lineage` */
    method Lineage(cap: Capability) returns (r: Result<seq<Capability>, Refusal>)
      requires forall id | id in caps :: caps[id].id == id
      ensures r == Stores.Lineage(caps, cap)
    {
      hide SubsetRefusal;
      var lineage, seen, current := [cap], {cap.id}, cap;
      PrependNothing(Stores.Lineage(caps, cap));
      while current.parent.Some?
        invariant lineage != [] && lineage[|lineage|-1] == current
        invariant Stores.Lineage(caps, cap) ==
          Prepend(lineage[..|lineage|-1], Stores.LineageFrom(caps, current, seen))
        decreases caps.Keys - seen
      {
        if current.parent.value in seen {
          return Failure(DelegationCycle);
        }
        if current.parent.value !in caps {
          return Failure(ParentMissing);
        }
        var parent := caps[current.parent.value];
        var wider := SubsetRefusal(current, parent);
        if wider.Some? {
          return Failure(wider.value);
        }
        assert lineage == lineage[..|lineage|-1] + [current];
        ghost var rest := Stores.LineageFrom(caps, parent, seen + {parent.id});
        if rest.Success? {
          assert lineage[..|lineage|-1] + ([current] + rest.value) == lineage + rest.value;
        }
        assert (lineage + [parent])[..|lineage|] == lineage;
        lineage := lineage + [parent];
        seen := seen + {parent.id};
        current := parent;
      }
      assert lineage[..|lineage|-1] + [current] == lineage;
      r := Success(lineage);
    }

    /** The end of `_add`: insert, walk the lineage, and take the capability out again if the walk fails. */
    method Insert(cap: Capability) returns (refusal: Option<Refusal>)
      requires cap.id !in caps && forall id | id in caps :: caps[id].id == id
      modifies this`caps, this`order
      ensures match Stores.Lineage(old(caps)[cap.id := cap], cap)
        case Success(_) => refusal.None? && caps == old(caps)[cap.id := cap] && order == old(order) + [cap.id]
        case Failure(why) => refusal == Some(why) && caps == old(caps) && order == old(order)
    {
      caps := caps[cap.id := cap];
      order := order + [cap.id];
      var lineage := Lineage(cap);
      if lineage.Failure? {
        caps := caps - {cap.id};
        order := order[..|order|-1];
        return Some(lineage.error);
      }
      refusal := None;
    }

    /** `_add` */
    method Add(raw: Capability) returns (refusal: Option<Refusal>)
      requires Valid()
      modifies this`caps, this`order
      ensures Valid()
      ensures match Stores.Add(old(Model()), raw)
        case Success(after) => refusal.None? && Model() == after
        case Failure(why) => refusal == Some(why) && Model() == old(Model())
    {
      hide SubsetRefusal, Stores.Snapshot, Stores.Linked, Stores.Ordered, Stores.LineageFrom;
      Stores.AddKeepsForest(Model(), raw);
      Keyed(caps);
      var snapshot := Stores.Snapshot(raw);
      if snapshot.None? {
        return Some(InvalidCapability);
      }
      var cap := snapshot.value;
      if cap.id in caps {
        return Some(DuplicateId);
      }
      if cap.parent.Some? {
        if cap.parent.value !in caps {
          return Some(ParentMissing);
        }
        var parent := caps[cap.parent.value];
        if parent.id in revoked {
          return Some(ParentRevoked);
        }
        var wider := SubsetRefusal(cap, parent);
        if wider.Some? {
          return wider;
        }
      }
      refusal := Insert(cap);
    }

    method Revoke(id: string) returns (refusal: Option<Refusal>)
      requires Valid()
      modifies this`revoked
      ensures Valid()
      ensures match Stores.Revoke(old(Model()), id)
        case Success(after) => refusal.None? && Model() == after
        case Failure(why) => refusal == Some(why) && Model() == old(Model())
    {
      if id !in caps {
        return Some(UnknownCapability);
      }
      ghost var before := Model();
      revoked := revoked + {id};
      Stores.SameShape(before, Model());
      refusal := None;
    }

    /** `_status` */
    method Status(id: string, now: int) returns (refusal: Option<Refusal>)
      requires Valid()
      ensures refusal == Stores.Status(Model(), id, now)
    {
      hide Stores.Snapshot, Stores.Ordered;
      Keyed(caps);
      if now < 0 {
        return Some(InvalidTime);
      }
      if id !in caps {
        return Some(UnknownCapability);
      }
      var lineage := Lineage(caps[id]);
      if lineage.Failure? {
        return Some(lineage.error);
      }
      var items := lineage.value;
      for i := 0 to |items|
        invariant Stores.WindowRefusal(items, revoked, now) == Stores.WindowRefusal(items[i..], revoked, now)
      {
        var item := items[i];
        assert items[i..][1..] == items[i+1..];
        if item.id in revoked {
          return Some(Revoked(item.id));
        }
        if now < item.notBefore {
          return Some(NotYetValid(item.id));
        }
        if now >= item.expiresAt {
          return Some(Expired(item.id));
        }
      }
      refusal := None;
    }

    /** The lineage loop of `_validate` that looks for spent invocations and replayed nonces. */
    method CheckQuotas(lineage: seq<Capability>, nonce: string) returns (refusal: Option<Refusal>)
      modifies this`usedNonces
      ensures refusal == Stores.QuotaRefusal(lineage, old(Model()), nonce)
      ensures Model() == old(Model())
    {
      ghost var before := Model();
      for i := 0 to |lineage|
        invariant Model() == before
        invariant Stores.QuotaRefusal(lineage, before, nonce) == Stores.QuotaRefusal(lineage[i..], before, nonce)
      {
        var id := lineage[i].id;
        assert lineage[i..][1..] == lineage[i+1..];
        if (if id in invocations then invocations[id] else 0) >= lineage[i].maxInvocations {
          return Some(LimitReached(id));
        }
        if id !in usedNonces {
          usedNonces := usedNonces[id := {}];
          assert NonEmpty(usedNonces) == before.nonces;
        }
        assert usedNonces[id] == before.NoncesOf(id);
        if nonce in usedNonces[id] {
          return Some(NonceReplayed(id));
        }
      }
      refusal := None;
    }

    /** The parameter loops of `_validate`. */
    static method CheckParameters(cap: Capability, params: map<string, Value>) returns (refusal: Option<Refusal>)
      ensures refusal == ParameterRefusal(cap, params)
    {
      hide ValueSatisfies;
      var keys := params.Keys;
      while keys != {}
        invariant keys <= params.Keys
        invariant forall k | k in params && k !in keys ::
          k !in cap.prohibited && k in cap.constraints && ValueSatisfies(params[k], cap.constraints[k])
        decreases |keys|
      {
        var key :| key in keys;
        if key in cap.prohibited || key !in cap.constraints || !ValueSatisfies(params[key], cap.constraints[key]) {
          return Some(ParameterOutside);
        }
        keys := keys - {key};
      }
      keys := cap.constraints.Keys;
      while keys != {}
        invariant keys <= cap.constraints.Keys
        invariant forall k | k in cap.constraints && k !in keys && Required(cap.constraints[k]) :: k in params
        decreases |keys|
      {
        var key :| key in keys;
        if Required(cap.constraints[key]) && key !in params {
          return Some(ParameterMissing);
        }
        keys := keys - {key};
      }
      refusal := None;
    }

    /** The reservation loop of `_validate`. */
    method Reserve(lineage: seq<Capability>, nonce: string)
      requires forall i, j | 0 <= i < j < |lineage| :: lineage[i].id != lineage[j].id
      modifies this`usedNonces, this`invocations
      ensures Model() == Stores.Consume(old(Model()), lineage, nonce)
    {
      hide Stores.Consume;
      ghost var before := Model();
      assert Model() == Stores.Consume(before, lineage[..0], nonce) by { ConsumeNothing(before, nonce); }
      for i := 0 to |lineage|
        invariant Model() == Stores.Consume(before, lineage[..i], nonce)
      {
        ghost var reached := Model();
        var id := lineage[i].id;
        ConsumeNext(before, lineage, i, nonce);
        var used := if id in usedNonces then usedNonces[id] else {};
        assert used == reached.NoncesOf(id);
        usedNonces := usedNonces[id := used + {nonce}];
        assert NonEmpty(usedNonces) == reached.nonces[id := used + {nonce}];
        invocations := invocations[id := (if id in invocations then invocations[id] else 0) + 1];
      }
      assert lineage[..|lineage|] == lineage;
    }

    /** `_validate` */
    method Validate(r: Request, now: int, consume: bool) returns (refusal: Option<Refusal>)
      requires Valid()
      modifies this`usedNonces, this`invocations
      ensures Valid()
      ensures match Stores.Validate(old(Model()), r, now)
        case Failure(why) => refusal == Some(why) && Model() == old(Model())
        case Success(lineage) =>
          refusal.None? && Model() == if consume then Stores.Consume(old(Model()), lineage, r.nonce) else old(Model())
    {
      hide SubsetRefusal, Stores.Linked, Stores.Ordered, ScopeRefusal, ParameterRefusal, Stores.QuotaRefusal,
           Stores.WindowRefusal, Stores.LineageFrom;
      ghost var before := Model();
      Keyed(caps);
      if r.capabilityId !in caps {
        return Some(UnknownCapability);
      }
      var cap := caps[r.capabilityId];
      refusal := Status(cap.id, now);
      if refusal.Some? {
        return;
      }
      var walked := Lineage(cap);
      if walked.Failure? {
        return Some(walked.error);
      }
      var lineage := walked.value;
      refusal := ScopeRefusal(cap, r);
      if refusal.Some? {
        return;
      }
      refusal := CheckQuotas(lineage, r.nonce);
      if refusal.Some? {
        return;
      }
      refusal := CheckParameters(cap, r.Fields());
      if refusal.Some? {
        return;
      }
      if consume {
        LineageDistinct(caps, r.capabilityId);
        Reserve(lineage, r.nonce);
        Stores.SameShape(before, Model());
      }
    }

    /** `clone`: a new store to which every capability is added again, in dictionary order. */
    method Clone() returns (copy: CapabilityStore)
      requires Valid()
      ensures copy != this && fresh(copy) && copy.Valid() && copy.Model() == Model()
    {
      hide Stores.Forest, Stores.Ordered, Stores.Add;
      copy := new CapabilityStore();
      ghost var model := Model();
      Stores.ReplayPrefix(model, 0);
      for i := 0 to |order|
        invariant fresh(copy) && copy.Valid() && Model() == model
        invariant Stores.PrefixCopy(copy.Model(), model, i)
      {
        assert order[i] in caps by { Stores.OrderIsStored(model, i); }
        Stores.CopyExtends(copy.Model(), model, i);
        var refused := copy.Add(caps[order[i]]);
        assert refused.None?;
      }
      copy.revoked := revoked;
      copy.usedNonces := usedNonces;
      copy.invocations := invocations;
      CopyComplete(copy.Model(), model);
    }

    method ResetUsage()
      requires Valid()
      modifies this`usedNonces, this`invocations
      ensures Valid() && Model() == Stores.ResetUsage(old(Model()))
    {
      ghost var before := Model();
      usedNonces := map[];
      invocations := map[];
      Stores.SameShape(before, Model());
    }
  }

  lemma PrependNothing(rest: Result<seq<Capability>, Refusal>)
    ensures Prepend([], rest) == rest
  {
    if rest.Success? { assert [] + rest.value == rest.value; }
  }

  lemma Keyed(caps: map<string, Capability>)
    requires Stores.Forest(caps)
    ensures forall id | id in caps :: caps[id].id == id
  {
    forall id | id in caps ensures caps[id].id == id { assert Stores.Linked(caps, id); }
  }

  lemma LineageDistinct(caps: map<string, Capability>, id: string)
    requires Stores.Forest(caps) && id in caps
    ensures Stores.Lineage(caps, caps[id]).Success?
    ensures var lineage := Stores.Lineage(caps, caps[id]).value;
      forall i, j | 0 <= i < j < |lineage| :: lineage[i].id != lineage[j].id
  {
    Stores.LineageSucceeds(caps, id);
    var chain := Stores.Chain(caps, id);
    forall i, j | 0 <= i < j < |chain| ensures chain[i].id != chain[j].id {
      Stores.ChainIdsDistinct(caps, id, i, j);
    }
  }

  lemma ConsumeNothing(store: Stores.Store, nonce: string)
    ensures Stores.Consume(store, [], nonce) == store
  {
    assert Stores.Ids([]) == {};
  }

  lemma IdsNext(lineage: seq<Capability>, n: nat)
    requires n < |lineage|
    requires forall i, j | 0 <= i < j < |lineage| :: lineage[i].id != lineage[j].id
    ensures Stores.Ids(lineage[..n+1]) == Stores.Ids(lineage[..n]) + {lineage[n].id}
    ensures lineage[n].id !in Stores.Ids(lineage[..n])
  {
    var before, after := Stores.Ids(lineage[..n]), Stores.Ids(lineage[..n+1]);
    forall k ensures k in after <==> k in before || k == lineage[n].id {
      if k in before {
        var i :| 0 <= i < n && lineage[..n][i].id == k;
        assert lineage[..n+1][i].id == k;
      }
      if k in after {
        var i :| 0 <= i < n + 1 && lineage[..n+1][i].id == k;
        if i < n { assert lineage[..n][i].id == k; }
      }
      assert lineage[..n+1][n].id == lineage[n].id;
    }
  }

  function ChargedNonces(store: Stores.Store, ids: set<string>, nonce: string): map<string, set<string>>
  {
    store.nonces + (map k | k in ids :: store.NoncesOf(k) + {nonce})
  }

  function ChargedInvocations(store: Stores.Store, ids: set<string>): map<string, nat>
  {
    store.invocations + (map k | k in ids :: store.InvocationsOf(k) + 1)
  }

  lemma ConsumeCharges(store: Stores.Store, lineage: seq<Capability>, nonce: string)
    ensures var ids := Stores.Ids(lineage);
      Stores.Consume(store, lineage, nonce) ==
        store.(nonces := ChargedNonces(store, ids, nonce), invocations := ChargedInvocations(store, ids))
  {
  }

  lemma ChargedNoncesNext(store: Stores.Store, ids: set<string>, id: string, nonce: string)
    requires id !in ids
    ensures var before := ChargedNonces(store, ids, nonce);
      && ChargedNonces(store, ids + {id}, nonce) == before[id := (if id in before then before[id] else {}) + {nonce}]
  {
  }

  lemma ChargedInvocationsNext(store: Stores.Store, ids: set<string>, id: string)
    requires id !in ids
    ensures var before := ChargedInvocations(store, ids);
      && ChargedInvocations(store, ids + {id}) == before[id := (if id in before then before[id] else 0) + 1]
  {
  }

  /** Charging one more capability of a lineage updates its two entries and nothing else. */
  lemma ConsumeNext(store: Stores.Store, lineage: seq<Capability>, n: nat, nonce: string)
    requires n < |lineage|
    requires forall i, j | 0 <= i < j < |lineage| :: lineage[i].id != lineage[j].id
    ensures var reached, id := Stores.Consume(store, lineage[..n], nonce), lineage[n].id;
      Stores.Consume(store, lineage[..n+1], nonce) == reached.(
        nonces := reached.nonces[id := reached.NoncesOf(id) + {nonce}],
        invocations := reached.invocations[id := reached.InvocationsOf(id) + 1])
  {
    hide Stores.Ids, Stores.Consume, ChargedNonces, ChargedInvocations;
    IdsNext(lineage, n);
    ConsumeCharges(store, lineage[..n], nonce);
    ConsumeCharges(store, lineage[..n+1], nonce);
    ChargedNoncesNext(store, Stores.Ids(lineage[..n]), lineage[n].id, nonce);
    ChargedInvocationsNext(store, Stores.Ids(lineage[..n]), lineage[n].id);
  }

  lemma CopyComplete(copy: Stores.Store, store: Stores.Store)
    requires Stores.WellFormed(store)
    requires copy.order == store.order[..|store.order|] && copy.revoked == store.revoked
    requires copy.nonces == store.nonces && copy.invocations == store.invocations
    requires forall id :: id in copy.caps <==> id in store.order[..|store.order|]
    requires forall id | id in copy.caps :: id in store.caps && copy.caps[id] == store.caps[id]
    ensures copy == store
  {
    assert store.order[..|store.order|] == store.order;
    assert copy.caps == store.caps;
  }
}
