/**
 * Python values as they reach the monitor: JSON values plus the shapes that
 * canonicalization has to reject (non-finite floats, opaque objects, mappings
 * with bad keys) or rewrite (tuples).  A dictionary is a finite map, so nothing
 * here can depend on insertion order.
 */
module Values {
  import opened Wrappers

  datatype NonFinite = NaN | PosInf | NegInf

  datatype Value =
    | Null
    | Bool(b: bool)
    | Int(n: int)
    | Float(x: real)
    | Special(kind: NonFinite)
    | Str(s: string)
    | List(items: seq<Value>)
    | Tuple(items: seq<Value>)
    | Obj(fields: map<string, Value>)
    | Opaque(typeName: string)

  predicate IsSequence(v: Value) { v.List? || v.Tuple? }

  /** An `int` or a finite `float`; `bool` is not a number here. */
  predicate IsNumber(v: Value) { v.Int? || v.Float? }

  function Number(v: Value): real
  {
    if v.Int? then v.n as real else if v.Float? then v.x else 0.0
  }

  function Lookup(fields: map<string, Value>, key: string, default: Value): Value
  {
    if key in fields then fields[key] else default
  }

  // ---------------------------------------------------------------- equality

  /** Typed equality: 1 equals 1.0, neither equals `true`, lists equal tuples. */
  predicate JsonEqual(a: Value, b: Value)
    decreases a
  {
    if a.Bool? || b.Bool? then
      a.Bool? && b.Bool? && a.b == b.b
    else if a.Obj? || b.Obj? then
      && a.Obj? && b.Obj?
      && a.fields.Keys == b.fields.Keys
      && forall k | k in a.fields :: JsonEqual(a.fields[k], b.fields[k])
    else if IsSequence(a) || IsSequence(b) then
      && IsSequence(a) && IsSequence(b)
      && |a.items| == |b.items|
      && forall i | 0 <= i < |a.items| :: JsonEqual(a.items[i], b.items[i])
    else if IsNumber(a) && IsNumber(b) then
      Number(a) == Number(b)
    else if a.Special? && b.Special? then
      a.kind == b.kind && !a.kind.NaN?
    else
      (a.Null? || a.Str? || a.Opaque?) && a == b
  }

  predicate NaNFree(v: Value)
  {
    match v
    case Special(k) => !k.NaN?
    case List(xs) => forall i | 0 <= i < |xs| :: NaNFree(xs[i])
    case Tuple(xs) => forall i | 0 <= i < |xs| :: NaNFree(xs[i])
    case Obj(f) => forall k | k in f :: NaNFree(f[k])
    case _ => true
  }

  /** The reading of a value that typed equality cannot look behind. */
  function Reading(v: Value): Value
  {
    match v
    case Int(n) => Float(n as real)
    case List(xs) => List(seq(|xs|, i requires 0 <= i < |xs| => Reading(xs[i])))
    case Tuple(xs) => List(seq(|xs|, i requires 0 <= i < |xs| => Reading(xs[i])))
    case Obj(f) => Obj(map k | k in f :: Reading(f[k]))
    case _ => v
  }

  /**
   * Typed equality is exactly equality of readings on NaN-free values; in
   * particular it is symmetric and transitive, and reflexive where no NaN occurs.
   */
  lemma {:induction false} JsonEqualIsSameReading(a: Value, b: Value)
    ensures JsonEqual(a, b) <==> NaNFree(a) && Reading(a) == Reading(b)
    decreases a, 1
  {
    if a.Obj? && b.Obj? {
      FieldsSameReading(a, b);
    } else if IsSequence(a) && IsSequence(b) {
      ItemsSameReading(a, b);
    }
  }

  lemma {:induction false} FieldsSameReading(a: Value, b: Value)
    requires a.Obj? && b.Obj?
    ensures JsonEqual(a, b) <==> NaNFree(a) && Reading(a) == Reading(b)
    decreases a, 0
  {
    var ra, rb := Reading(a).fields, Reading(b).fields;
    assert ra.Keys == a.fields.Keys && rb.Keys == b.fields.Keys;
    if a.fields.Keys == b.fields.Keys {
      forall k | k in a.fields
        ensures JsonEqual(a.fields[k], b.fields[k]) <==> NaNFree(a.fields[k]) && ra[k] == rb[k]
      {
        JsonEqualIsSameReading(a.fields[k], b.fields[k]);
      }
      if JsonEqual(a, b) { assert ra == rb; }
    }
  }

  lemma {:induction false} ItemsSameReading(a: Value, b: Value)
    requires IsSequence(a) && IsSequence(b)
    ensures JsonEqual(a, b) <==> NaNFree(a) && Reading(a) == Reading(b)
    decreases a, 0
  {
    var ra, rb := Reading(a).items, Reading(b).items;
    assert |ra| == |a.items| && |rb| == |b.items|;
    if |a.items| == |b.items| {
      forall i | 0 <= i < |a.items|
        ensures JsonEqual(a.items[i], b.items[i]) <==> NaNFree(a.items[i]) && ra[i] == rb[i]
      {
        JsonEqualIsSameReading(a.items[i], b.items[i]);
      }
      if JsonEqual(a, b) { assert ra == rb; }
    }
  }

  /** NaN is the only obstacle to typed equality being an equivalence. */
  lemma {:induction false} JsonEqualEquivalence(a: Value, b: Value, c: Value)
    ensures JsonEqual(a, a) <==> NaNFree(a)
    ensures JsonEqual(a, b) ==> JsonEqual(b, a)
    ensures JsonEqual(a, b) && JsonEqual(b, c) ==> JsonEqual(a, c)
  {
    JsonEqualIsSameReading(a, a);
    JsonEqualIsSameReading(a, b);
    JsonEqualIsSameReading(b, a);
    JsonEqualIsSameReading(b, c);
    JsonEqualIsSameReading(a, c);
    if JsonEqual(a, b) {
      NaNFreeReading(a);
      NaNFreeReading(b);
    }
  }

  lemma {:induction false} NaNFreeReading(v: Value)
    ensures NaNFree(Reading(v)) == NaNFree(v)
  {
    match v
    case List(xs) =>
      forall i | 0 <= i < |xs| ensures NaNFree(Reading(xs[i])) == NaNFree(xs[i]) { NaNFreeReading(xs[i]); }
      assert forall i | 0 <= i < |xs| :: Reading(v).items[i] == Reading(xs[i]);
    case Tuple(xs) =>
      forall i | 0 <= i < |xs| ensures NaNFree(Reading(xs[i])) == NaNFree(xs[i]) { NaNFreeReading(xs[i]); }
      assert forall i | 0 <= i < |xs| :: Reading(v).items[i] == Reading(xs[i]);
    case Obj(f) =>
      forall k | k in f ensures NaNFree(Reading(f[k])) == NaNFree(f[k]) { NaNFreeReading(f[k]); }
      assert forall k | k in f :: Reading(v).fields[k] == Reading(f[k]);
    case _ =>
  }

  // ------------------------------------------------------------ normalization

  /** `_normalize_json`: `None` stands for CanonicalizationError. */
  function Normalize(v: Value, depth: nat, maxDepth: nat): Option<Value>
    decreases v
  {
    if depth > maxDepth then None
    else
      match v
      case Null => Some(v)
      case Bool(_) => Some(v)
      case Int(_) => Some(v)
      case Float(_) => Some(v)
      case Str(_) => Some(v)
      case Special(_) => None
      case Opaque(_) => None
      case List(xs) => NormalizeItems(v, depth, maxDepth)
      case Tuple(xs) => NormalizeItems(v, depth, maxDepth)
      case Obj(f) =>
        if "" !in f && forall k | k in f :: Normalize(f[k], depth + 1, maxDepth).Some? then
          Some(Obj(map k | k in f :: Normalize(f[k], depth + 1, maxDepth).value))
        else
          None
  }

  function NormalizeItems(v: Value, depth: nat, maxDepth: nat): Option<Value>
    requires IsSequence(v)
    decreases v, 0
  {
    var xs := v.items;
    if forall i | 0 <= i < |xs| :: Normalize(xs[i], depth + 1, maxDepth).Some? then
      Some(List(seq(|xs|, i requires 0 <= i < |xs| => Normalize(xs[i], depth + 1, maxDepth).value)))
    else
      None
  }

  /** The greatest number of containers around any value inside `v`. */
  ghost function Height(v: Value): nat
    decreases v, 1
  {
    match v
    case List(xs) => HeightOfItems(v, |xs|)
    case Tuple(xs) => HeightOfItems(v, |xs|)
    case Obj(f) => HeightOfFields(v, f.Keys)
    case _ => 0
  }

  ghost function HeightOfItems(v: Value, n: nat): nat
    requires IsSequence(v) && n <= |v.items|
    decreases v, 0, n
  {
    if n == 0 then 0
    else
      var h, rest := 1 + Height(v.items[n-1]), HeightOfItems(v, n - 1);
      if h > rest then h else rest
  }

  ghost function HeightOfFields(v: Value, keys: set<string>): nat
    requires v.Obj? && keys <= v.fields.Keys
    decreases v, 0, |keys|
  {
    if keys == {} then 0
    else
      var k :| k in keys;
      var h, rest := 1 + Height(v.fields[k]), HeightOfFields(v, keys - {k});
      if h > rest then h else rest
  }

  lemma {:induction false} FieldIsLower(v: Value, keys: set<string>, key: string)
    requires v.Obj? && keys <= v.fields.Keys && key in keys
    ensures Height(v.fields[key]) < HeightOfFields(v, keys)
    decreases |keys|
  {
    var k :| k in keys && HeightOfFields(v, keys) ==
      var h, rest := 1 + Height(v.fields[k]), HeightOfFields(v, keys - {k});
      if h > rest then h else rest;
    if k != key {
      FieldIsLower(v, keys - {k}, key);
    }
  }

  /** A field's value nests strictly less deeply than the object holding it. */
  lemma {:induction false} SubvalueIsLower(v: Value, key: string)
    requires v.Obj? && key in v.fields
    ensures Height(v.fields[key]) < Height(v)
  {
    FieldIsLower(v, v.fields.Keys, key);
  }

  lemma {:induction false} ItemsHeightBound(v: Value, n: nat, bound: nat)
    requires IsSequence(v) && n <= |v.items|
    requires forall i | 0 <= i < |v.items| :: 1 + Height(v.items[i]) <= bound
    ensures HeightOfItems(v, n) <= bound
    decreases n
  {
    if n > 0 { ItemsHeightBound(v, n - 1, bound); }
  }

  lemma {:induction false} FieldsHeightBound(v: Value, keys: set<string>, bound: nat)
    requires v.Obj? && keys <= v.fields.Keys
    requires forall k | k in v.fields :: 1 + Height(v.fields[k]) <= bound
    ensures HeightOfFields(v, keys) <= bound
    decreases |keys|
  {
    if keys != {} {
      var k :| k in keys && HeightOfFields(v, keys) ==
        var h, rest := 1 + Height(v.fields[k]), HeightOfFields(v, keys - {k});
        if h > rest then h else rest;
      FieldsHeightBound(v, keys - {k}, bound);
    }
  }

  /** `w` normalizes to itself wherever it fits under the depth limit. */
  ghost predicate Settled(w: Value)
  {
    forall d: nat, m: nat | d + Height(w) <= m :: Normalize(w, d, m) == Some(w)
  }

  lemma SettledObject(f: map<string, Value>)
    requires "" !in f && forall k | k in f :: Settled(f[k])
    ensures Settled(Obj(f))
  {
    var w := Obj(f);
    forall d: nat, m: nat | d + Height(w) <= m
      ensures Normalize(w, d, m) == Some(w)
    {
      forall k | k in f ensures Normalize(f[k], d + 1, m) == Some(f[k]) {
        SubvalueIsLower(w, k);
      }
      var g := map k | k in f :: Normalize(f[k], d + 1, m).value;
      assert Normalize(w, d, m) == Some(Obj(g));
      assert g == f;
    }
  }

  lemma {:induction false} ItemIsLower(v: Value, n: nat, i: nat)
    requires IsSequence(v) && i < n <= |v.items|
    ensures Height(v.items[i]) < HeightOfItems(v, n)
    decreases n
  {
    if i < n - 1 { ItemIsLower(v, n - 1, i); }
  }

  lemma SettledList(xs: seq<Value>)
    requires forall i | 0 <= i < |xs| :: Settled(xs[i])
    ensures Settled(List(xs))
  {
    var w := List(xs);
    forall d: nat, m: nat | d + Height(w) <= m
      ensures Normalize(w, d, m) == Some(w)
    {
      forall i | 0 <= i < |xs| ensures Normalize(xs[i], d + 1, m) == Some(xs[i]) {
        ItemIsLower(w, |xs|, i);
      }
      assert seq(|xs|, i requires 0 <= i < |xs| => Normalize(xs[i], d + 1, m).value) == xs;
    }
  }

  /**
   * Normalization succeeds only within the depth limit; its output equals the
   * input under typed equality and is a fixed point at every depth where it fits.
   */
  lemma {:induction false} NormalizeIdempotent(v: Value, depth: nat, maxDepth: nat, w: Value)
    requires Normalize(v, depth, maxDepth) == Some(w)
    ensures depth + Height(w) <= maxDepth
    ensures Settled(w) && JsonEqual(v, w) && NaNFree(w)
    ensures w.Obj? <==> v.Obj?
    decreases v, 1
  {
    match v
    case List(xs) => NormalizeItemsIdempotent(v, depth, maxDepth, w);
    case Tuple(xs) => NormalizeItemsIdempotent(v, depth, maxDepth, w);
    case Obj(f) => NormalizeFieldsIdempotent(v, depth, maxDepth, w);
    case _ =>
  }

  lemma {:induction false} NormalizeFieldsIdempotent(v: Value, depth: nat, maxDepth: nat, w: Value)
    requires v.Obj?
    requires Normalize(v, depth, maxDepth) == Some(w)
    ensures depth + Height(w) <= maxDepth
    ensures Settled(w) && JsonEqual(v, w) && NaNFree(w) && w.Obj?
    decreases v, 0
  {
    var f, g := v.fields, w.fields;
    forall k | k in f
      ensures depth + 1 + Height(g[k]) <= maxDepth
      ensures Settled(g[k]) && JsonEqual(f[k], g[k]) && NaNFree(g[k])
    {
      NormalizeIdempotent(f[k], depth + 1, maxDepth, g[k]);
    }
    FieldsHeightBound(w, g.Keys, maxDepth - depth);
    SettledObject(g);
  }

  lemma {:induction false} NormalizeItemsIdempotent(v: Value, depth: nat, maxDepth: nat, w: Value)
    requires IsSequence(v)
    requires Normalize(v, depth, maxDepth) == Some(w)
    ensures depth + Height(w) <= maxDepth
    ensures Settled(w) && JsonEqual(v, w) && NaNFree(w) && w.List?
    decreases v, 0
  {
    var xs, ys := v.items, w.items;
    forall i | 0 <= i < |xs|
      ensures depth + 1 + Height(ys[i]) <= maxDepth
      ensures Settled(ys[i]) && JsonEqual(xs[i], ys[i]) && NaNFree(ys[i])
    {
      NormalizeIdempotent(xs[i], depth + 1, maxDepth, ys[i]);
    }
    ItemsHeightBound(w, |ys|, maxDepth - depth);
    SettledList(ys);
  }

  /** Made of JSON values alone, with non-empty keys; tuples pass for lists. */
  predicate IsPlain(v: Value)
  {
    match v
    case Special(_) => false
    case Opaque(_) => false
    case List(xs) => forall i | 0 <= i < |xs| :: IsPlain(xs[i])
    case Tuple(xs) => forall i | 0 <= i < |xs| :: IsPlain(xs[i])
    case Obj(f) => "" !in f && forall k | k in f :: IsPlain(f[k])
    case _ => true
  }

  /** Normalization accepts exactly the plain values that fit under the depth limit. */
  lemma {:induction false} NormalizeAccepts(v: Value, depth: nat, maxDepth: nat)
    ensures Normalize(v, depth, maxDepth).Some? <==> IsPlain(v) && depth + Height(v) <= maxDepth
    decreases v, 1
  {
    if depth <= maxDepth {
      match v
      case List(xs) => NormalizeAcceptsItems(v, depth, maxDepth);
      case Tuple(xs) => NormalizeAcceptsItems(v, depth, maxDepth);
      case Obj(f) => NormalizeAcceptsFields(v, depth, maxDepth);
      case _ =>
    }
  }

  lemma {:induction false} NormalizeAcceptsItems(v: Value, depth: nat, maxDepth: nat)
    requires IsSequence(v) && depth <= maxDepth
    ensures Normalize(v, depth, maxDepth).Some? <==> IsPlain(v) && depth + Height(v) <= maxDepth
    decreases v, 0
  {
    forall i | 0 <= i < |v.items|
      ensures Normalize(v.items[i], depth + 1, maxDepth).Some? <==>
        IsPlain(v.items[i]) && depth + 1 + Height(v.items[i]) <= maxDepth
      ensures Height(v.items[i]) < Height(v)
    {
      NormalizeAccepts(v.items[i], depth + 1, maxDepth);
      ItemIsLower(v, |v.items|, i);
    }
    if forall i | 0 <= i < |v.items| :: 1 + Height(v.items[i]) <= maxDepth - depth {
      ItemsHeightBound(v, |v.items|, maxDepth - depth);
    }
  }

  lemma {:induction false} NormalizeAcceptsFields(v: Value, depth: nat, maxDepth: nat)
    requires v.Obj? && depth <= maxDepth
    ensures Normalize(v, depth, maxDepth).Some? <==> IsPlain(v) && depth + Height(v) <= maxDepth
    decreases v, 0
  {
    forall k | k in v.fields
      ensures Normalize(v.fields[k], depth + 1, maxDepth).Some? <==>
        IsPlain(v.fields[k]) && depth + 1 + Height(v.fields[k]) <= maxDepth
      ensures Height(v.fields[k]) < Height(v)
    {
      NormalizeAccepts(v.fields[k], depth + 1, maxDepth);
      SubvalueIsLower(v, k);
    }
    if forall k | k in v.fields :: 1 + Height(v.fields[k]) <= maxDepth - depth {
      FieldsHeightBound(v, v.fields.Keys, maxDepth - depth);
    }
  }

  /** The same value with every tuple, at any depth, turned into a list. */
  function Listed(v: Value): Value
  {
    match v
    case List(xs) => List(seq(|xs|, i requires 0 <= i < |xs| => Listed(xs[i])))
    case Tuple(xs) => List(seq(|xs|, i requires 0 <= i < |xs| => Listed(xs[i])))
    case Obj(f) => Obj(map k | k in f :: Listed(f[k]))
    case _ => v
  }

  /** Whether sequences arrive as lists or as tuples, at any depth, does not matter. */
  lemma {:induction false} NormalizeIgnoresTuples(v: Value, depth: nat, maxDepth: nat)
    ensures Normalize(Listed(v), depth, maxDepth) == Normalize(v, depth, maxDepth)
    decreases v, 1
  {
    match v
    case List(xs) => ItemsIgnoreTuples(v, depth, maxDepth);
    case Tuple(xs) => ItemsIgnoreTuples(v, depth, maxDepth);
    case Obj(f) => FieldsIgnoreTuples(v, depth, maxDepth);
    case _ =>
  }

  lemma {:induction false} ItemsIgnoreTuples(v: Value, depth: nat, maxDepth: nat)
    requires IsSequence(v)
    ensures Normalize(Listed(v), depth, maxDepth) == Normalize(v, depth, maxDepth)
    decreases v, 0
  {
    var w := Listed(v);
    assert w.List? && |w.items| == |v.items|;
    forall i | 0 <= i < |v.items|
      ensures Normalize(w.items[i], depth + 1, maxDepth) == Normalize(v.items[i], depth + 1, maxDepth)
    {
      NormalizeIgnoresTuples(v.items[i], depth + 1, maxDepth);
    }
    if forall i | 0 <= i < |v.items| :: Normalize(v.items[i], depth + 1, maxDepth).Some? {
      assert NormalizeItems(w, depth, maxDepth).value.items == NormalizeItems(v, depth, maxDepth).value.items;
    } else {
      var i :| 0 <= i < |v.items| && Normalize(v.items[i], depth + 1, maxDepth).None?;
      assert Normalize(w.items[i], depth + 1, maxDepth).None?;
    }
  }

  lemma {:induction false} FieldsIgnoreTuples(v: Value, depth: nat, maxDepth: nat)
    requires v.Obj?
    ensures Normalize(Listed(v), depth, maxDepth) == Normalize(v, depth, maxDepth)
    decreases v, 0
  {
    var f, g := v.fields, Listed(v).fields;
    assert g.Keys == f.Keys;
    forall k | k in f ensures Normalize(g[k], depth + 1, maxDepth) == Normalize(f[k], depth + 1, maxDepth) {
      NormalizeIgnoresTuples(f[k], depth + 1, maxDepth);
    }
    if depth <= maxDepth {
      if "" !in f && forall k | k in f :: Normalize(f[k], depth + 1, maxDepth).Some? {
        assert forall k | k in g :: Normalize(g[k], depth + 1, maxDepth).Some?;
        assert Normalize(Obj(g), depth, maxDepth).value.fields == Normalize(v, depth, maxDepth).value.fields;
      } else if "" !in f {
        var k :| k in f && Normalize(f[k], depth + 1, maxDepth).None?;
        assert k in g && Normalize(g[k], depth + 1, maxDepth).None?;
      }
    }
  }
}
