/** Capabilities and the narrowing relation between them. */
module Capabilities {
  import opened Wrappers
  import opened Values
  import opened Canonical
  import opened Glob

  datatype Capability = Capability(
    id: string,
    subject: string,
    tool: string,
    action: string,
    resource: string,
    session: string,
    constraints: map<string, Value>,
    prohibited: seq<string>,
    purpose: seq<string>,
    notBefore: int,
    expiresAt: int,
    maxInvocations: int,
    delegationDepth: int,
    parent: Option<string>)

  const CONSTRAINT_KEYS: set<string> := {"enum", "min", "max", "prefix", "forbid", "required"}

  const MAX_CONSTRAINT_DEPTH: nat := 128

  function Items(v: Value): seq<Value>
  {
    if IsSequence(v) then v.items else []
  }

  predicate Required(c: Value)
  {
    c.Obj? && "required" in c.fields && c.fields["required"] == Bool(true)
  }

  predicate ValidConstraint(c: Value)
  {
    && Normalize(c, 0, MAX_CONSTRAINT_DEPTH).Some?
    && (c.Obj? ==>
      && c.fields.Keys <= CONSTRAINT_KEYS
      && ("enum" in c.fields ==> IsSequence(c.fields["enum"]))
      && ("forbid" in c.fields ==> IsSequence(c.fields["forbid"]))
      && ("prefix" in c.fields ==> c.fields["prefix"].Str?)
      && ("required" in c.fields ==> c.fields["required"].Bool?)
      && ("min" in c.fields ==> IsNumber(c.fields["min"]))
      && ("max" in c.fields ==> IsNumber(c.fields["max"]))
      && ("min" in c.fields && "max" in c.fields ==> Number(c.fields["min"]) <= Number(c.fields["max"])))
  }

  lemma NormalizeKeepsShape(v: Value, depth: nat, maxDepth: nat, w: Value)
    requires Normalize(v, depth, maxDepth) == Some(w)
    ensures IsSequence(v) ==> IsSequence(w)
    ensures v.Str? || v.Bool? || IsNumber(v) ==> w == v
  {
  }

  lemma NormalizedFields(f: map<string, Value>, depth: nat, maxDepth: nat, w: Value)
    requires Normalize(Obj(f), depth, maxDepth) == Some(w)
    ensures w.Obj? && w.fields.Keys == f.Keys
    ensures forall k | k in f :: Normalize(f[k], depth + 1, maxDepth) == Some(w.fields[k])
  {
  }

  /** Normalizing a valid constraint keeps it valid. */
  lemma ValidConstraintNormalizes(c: Value, w: Value)
    requires ValidConstraint(c) && Normalize(c, 1, MAX_CONSTRAINT_DEPTH) == Some(w)
    ensures ValidConstraint(w)
  {
    hide Normalize;
    NormalizeIdempotent(c, 1, MAX_CONSTRAINT_DEPTH, w);
    assert Normalize(w, 0, MAX_CONSTRAINT_DEPTH) == Some(w);
    if c.Obj? {
      NormalizedFields(c.fields, 1, MAX_CONSTRAINT_DEPTH, w);
      forall k | k in c.fields
        ensures IsSequence(c.fields[k]) ==> IsSequence(w.fields[k])
        ensures c.fields[k].Str? || c.fields[k].Bool? || IsNumber(c.fields[k]) ==> w.fields[k] == c.fields[k]
      {
        NormalizeKeepsShape(c.fields[k], 2, MAX_CONSTRAINT_DEPTH, w.fields[k]);
      }
    }
  }

  predicate Distinct(xs: seq<string>)
  {
    forall i, j | 0 <= i < j < |xs| :: xs[i] != xs[j]
  }

  /** `_validate_capability` */
  predicate ValidCapability(c: Capability)
  {
    && c.id != "" && c.subject != "" && c.tool != "" && c.action != "" && c.resource != "" && c.session != ""
    && 0 <= c.notBefore < c.expiresAt
    && 0 <= c.maxInvocations && 0 <= c.delegationDepth
    && "" !in c.prohibited && "" !in c.purpose
    && Distinct(c.prohibited) && Distinct(c.purpose)
    && c.parent != Some("")
    && (forall k | k in c.constraints :: k != "" && k !in c.prohibited && ValidConstraint(c.constraints[k]))
  }

  /** A mapping constraint has entries of six kinds alone, each of its own form, and limits in order. */
  ghost predicate ProperConstraint(c: Value)
  {
    c.Obj? ==>
      && (forall k | k in c.fields :: k in {"enum", "min", "max", "prefix", "forbid", "required"})
      && (forall k | k in c.fields && (k == "enum" || k == "forbid") :: IsSequence(c.fields[k]))
      && (forall k | k in c.fields && (k == "min" || k == "max") :: IsNumber(c.fields[k]))
      && ("prefix" in c.fields ==> c.fields["prefix"].Str?)
      && ("required" in c.fields ==> c.fields["required"].Bool?)
      && ("min" in c.fields && "max" in c.fields ==> Number(c.fields["min"]) <= Number(c.fields["max"]))
  }

  lemma ValidConstraintMeaning(c: Value)
    ensures ValidConstraint(c) <==> ProperConstraint(c) && IsPlain(c) && Height(c) <= 128
  {
    hide Normalize, IsPlain, Height, ValidConstraint, ProperConstraint;
    NormalizeAccepts(c, 0, MAX_CONSTRAINT_DEPTH);
    ValidNormalizes(c);
    if ValidConstraint(c) { ValidIsProper(c); }
    if ProperConstraint(c) && Normalize(c, 0, MAX_CONSTRAINT_DEPTH).Some? { ProperIsValid(c); }
  }

  lemma ValidNormalizes(c: Value)
    ensures ValidConstraint(c) ==> Normalize(c, 0, MAX_CONSTRAINT_DEPTH).Some?
  {
  }

  lemma ValidIsProper(c: Value)
    requires ValidConstraint(c)
    ensures ProperConstraint(c)
  {
    hide Normalize;
  }

  lemma ProperIsValid(c: Value)
    requires ProperConstraint(c) && Normalize(c, 0, MAX_CONSTRAINT_DEPTH).Some?
    ensures ValidConstraint(c)
  {
    hide Normalize;
  }

  // ------------------------------------------------------------- constraints

  predicate AmongEqual(v: Value, items: seq<Value>)
  {
    exists i | 0 <= i < |items| :: JsonEqual(v, items[i])
  }

  /** `_value_satisfies` */
  predicate ValueSatisfies(v: Value, c: Value)
  {
    if v.Special? then false
    else if !c.Obj? then JsonEqual(v, c)
    else
      && ("enum" in c.fields ==> AmongEqual(v, Items(c.fields["enum"])))
      && ("min" in c.fields ==> IsNumber(v) && Number(v) >= Number(c.fields["min"]))
      && ("max" in c.fields ==> IsNumber(v) && Number(v) <= Number(c.fields["max"]))
      && ("prefix" in c.fields ==> v.Str? && c.fields["prefix"].Str? && c.fields["prefix"].s <= v.s)
      && ("forbid" in c.fields ==> !AmongEqual(v, Items(c.fields["forbid"])))
  }

  /** `_constraint_subset` */
  predicate ConstraintSubset(child: Value, parent: Value)
  {
    if !parent.Obj? then ValueSatisfies(child, parent)
    else if !child.Obj? then !Required(parent) && ValueSatisfies(child, parent)
    else
      var c, p := child.fields, parent.fields;
      && (Required(parent) ==> Required(child))
      && ("enum" in p ==>
        && "enum" in c && Items(c["enum"]) != []
        && forall i | 0 <= i < |Items(c["enum"])| :: AmongEqual(Items(c["enum"])[i], Items(p["enum"])))
      && ("min" in p ==> "min" in c && Number(c["min"]) >= Number(p["min"]))
      && ("max" in p ==> "max" in c && Number(c["max"]) <= Number(p["max"]))
      && ("prefix" in p ==> "prefix" in c && c["prefix"].Str? && p["prefix"].Str? && p["prefix"].s <= c["prefix"].s)
      && ("forbid" in p ==>
        var allowed := if "forbid" in c then Items(c["forbid"]) else [];
        forall i | 0 <= i < |Items(p["forbid"])| :: AmongEqual(Items(p["forbid"])[i], allowed))
  }

  /** A mapping constraint accepts what each of its entries accepts by itself. */
  lemma ConstraintIsConjunction(v: Value, c: Value)
    requires c.Obj?
    ensures ValueSatisfies(v, c) <==>
      !v.Special? && forall k | k in c.fields :: ValueSatisfies(v, Obj(map[k := c.fields[k]]))
  {
    if !v.Special? && !ValueSatisfies(v, c) {
      var f := c.fields;
      var k :| k in f && k in CONSTRAINT_KEYS && !ValueSatisfies(v, Obj(map[k := f[k]]));
    }
  }

  /** What each entry accepts; `required` and entries of other names restrict no value. */
  lemma EntryMeaning(v: Value, k: string, e: Value)
    requires !v.Special?
    ensures var accepted := ValueSatisfies(v, Obj(map[k := e]));
      match k
      case "enum" => accepted == exists i :: 0 <= i < |Items(e)| && JsonEqual(v, Items(e)[i])
      case "forbid" => accepted == forall i | 0 <= i < |Items(e)| :: !JsonEqual(v, Items(e)[i])
      case "min" => accepted == (IsNumber(v) && Number(e) <= Number(v))
      case "max" => accepted == (IsNumber(v) && Number(v) <= Number(e))
      case "prefix" => e.Str? ==> accepted == (v.Str? && |e.s| <= |v.s| && v.s[..|e.s|] == e.s)
      case _ => accepted
  {
  }

  /** An exact value accepts what equals it as JSON. */
  lemma ExactMeaning(v: Value, c: Value)
    requires !c.Obj?
    ensures ValueSatisfies(v, c) <==> !v.Special? && JsonEqual(v, c)
  {
  }

  lemma AmongEqualCongruent(v: Value, w: Value, items: seq<Value>)
    requires JsonEqual(v, w) && AmongEqual(w, items)
    ensures AmongEqual(v, items)
  {
    var i :| 0 <= i < |items| && JsonEqual(w, items[i]);
    JsonEqualEquivalence(v, w, items[i]);
  }

  /** Each member of `inner` occurs in `outer`, so membership carries over. */
  lemma AmongEqualWidens(v: Value, inner: seq<Value>, outer: seq<Value>)
    requires AmongEqual(v, inner)
    requires forall i | 0 <= i < |inner| :: AmongEqual(inner[i], outer)
    ensures AmongEqual(v, outer)
  {
    var i :| 0 <= i < |inner| && JsonEqual(v, inner[i]);
    AmongEqualCongruent(v, inner[i], outer);
  }

  /** Values equal as JSON satisfy the same constraints. */
  lemma ValueSatisfiesCongruent(v: Value, w: Value, c: Value)
    requires JsonEqual(v, w) && ValueSatisfies(w, c)
    ensures ValueSatisfies(v, c)
  {
    JsonEqualIsSameReading(v, w);
    if !c.Obj? {
      JsonEqualEquivalence(v, w, c);
    } else {
      if "enum" in c.fields { AmongEqualCongruent(v, w, Items(c.fields["enum"])); }
      if "forbid" in c.fields && AmongEqual(v, Items(c.fields["forbid"])) {
        JsonEqualEquivalence(v, w, v);
        AmongEqualCongruent(w, v, Items(c.fields["forbid"]));
      }
    }
  }

  /** Every value a narrower constraint accepts is accepted by the wider one. */
  lemma ConstraintSubsetSound(v: Value, child: Value, parent: Value)
    requires ConstraintSubset(child, parent) && ValueSatisfies(v, child)
    ensures ValueSatisfies(v, parent)
  {
    if !parent.Obj? || !child.Obj? {
      ValueSatisfiesCongruent(v, child, parent);
    } else {
      var c, p := child.fields, parent.fields;
      if "enum" in p {
        AmongEqualWidens(v, Items(c["enum"]), Items(p["enum"]));
      }
      if "forbid" in p && AmongEqual(v, Items(p["forbid"])) {
        AmongEqualWidens(v, Items(p["forbid"]), if "forbid" in c then Items(c["forbid"]) else []);
      }
    }
  }

  lemma ConstraintSubsetTransitive(child: Value, middle: Value, parent: Value)
    requires ConstraintSubset(child, middle) && ConstraintSubset(middle, parent)
    ensures ConstraintSubset(child, parent)
  {
    if !middle.Obj? || !parent.Obj? {
      ValueSatisfiesCongruent(child, middle, parent);
    } else if !child.Obj? {
      ConstraintSubsetSound(child, middle, parent);
    } else {
      var c, m, p := child.fields, middle.fields, parent.fields;
      if "enum" in p {
        forall i | 0 <= i < |Items(c["enum"])|
          ensures AmongEqual(Items(c["enum"])[i], Items(p["enum"]))
        {
          AmongEqualWidens(Items(c["enum"])[i], Items(m["enum"]), Items(p["enum"]));
        }
      }
      if "forbid" in p {
        var inC := if "forbid" in c then Items(c["forbid"]) else [];
        var inM := if "forbid" in m then Items(m["forbid"]) else [];
        forall i | 0 <= i < |Items(p["forbid"])|
          ensures AmongEqual(Items(p["forbid"])[i], inC)
        {
          AmongEqualWidens(Items(p["forbid"])[i], inM, inC);
        }
      }
    }
  }

  /** Narrowing a mapping constraint is narrowing each of its entries. */
  lemma NarrowingIsConjunction(child: Value, parent: Value)
    requires child.Obj? && parent.Obj?
    ensures ConstraintSubset(child, parent) <==>
      forall k | k in parent.fields :: ConstraintSubset(child, Obj(map[k := parent.fields[k]]))
  {
    if !ConstraintSubset(child, parent) {
      var f := parent.fields;
      var k :| k in f && k in CONSTRAINT_KEYS && !ConstraintSubset(child, Obj(map[k := f[k]]));
    }
  }

  /** What narrows each entry: fewer values, a longer prefix, more exceptions, the same demand. */
  lemma NarrowerEntries(a: seq<Value>, b: seq<Value>, x: string, y: string, demanded: bool)
    ensures ConstraintSubset(Obj(map["enum" := List(a)]), Obj(map["enum" := List(b)])) <==>
      a != [] && forall i | 0 <= i < |a| :: AmongEqual(a[i], b)
    ensures ConstraintSubset(Obj(map["prefix" := Str(x)]), Obj(map["prefix" := Str(y)])) <==> y <= x
    ensures ConstraintSubset(Obj(map["forbid" := List(a)]), Obj(map["forbid" := List(b)])) <==>
      forall i | 0 <= i < |b| :: AmongEqual(b[i], a)
    ensures ConstraintSubset(Obj(map["required" := Bool(demanded)]), Obj(map["required" := Bool(true)])) <==> demanded
  {
    hide JsonEqual;
    var child, parent := Obj(map["forbid" := List(a)]), Obj(map["forbid" := List(b)]);
    assert Items(child.fields["forbid"]) == a && Items(parent.fields["forbid"]) == b;
    if forall i | 0 <= i < |b| :: AmongEqual(b[i], a) { assert ConstraintSubset(child, parent); }
  }

  /** Limits by themselves are valid exactly when some value meets them. */
  lemma ValidLimitsAdmit(low: Value, high: Value)
    requires IsNumber(low) && IsNumber(high)
    ensures var c := Obj(map["min" := low, "max" := high]);
      ValidConstraint(c) <==> exists v :: ValueSatisfies(v, c)
  {
    var c := Obj(map["min" := low, "max" := high]);
    NormalizeAccepts(c, 0, MAX_CONSTRAINT_DEPTH);
    FieldsHeightBound(c, c.fields.Keys, 1);
    hide Normalize;
    if ValidConstraint(c) { assert ValueSatisfies(low, c); }
  }

  /** Numeric limits are narrowed exactly by tighter ones. */
  lemma TighterLimits(a: int, b: int, c: int, d: int)
    ensures ConstraintSubset(Obj(map["min" := Int(a), "max" := Int(b)]), Obj(map["min" := Int(c), "max" := Int(d)]))
      <==> c <= a && b <= d
  {
  }

  lemma NormalizableIsNaNFree(v: Value, depth: nat, maxDepth: nat)
    requires Normalize(v, depth, maxDepth).Some?
    ensures NaNFree(v)
  {
    NormalizeIdempotent(v, depth, maxDepth, Normalize(v, depth, maxDepth).value);
    JsonEqualIsSameReading(v, Normalize(v, depth, maxDepth).value);
  }

  lemma AmongItself(items: seq<Value>, i: nat)
    requires i < |items| && NaNFree(items[i])
    ensures AmongEqual(items[i], items)
  {
    JsonEqualEquivalence(items[i], items[i], items[i]);
  }

  lemma ItemsAreNaNFree(c: Value, k: string, i: nat)
    requires NaNFree(c) && c.Obj? && k in c.fields && i < |Items(c.fields[k])|
    ensures NaNFree(Items(c.fields[k])[i])
  {
    assert NaNFree(c.fields[k]);
  }

  /** A constraint narrows itself, unless it is an empty enumeration. */
  lemma ConstraintSubsetReflexive(c: Value)
    requires ValidConstraint(c)
    ensures ConstraintSubset(c, c) <==> !(c.Obj? && "enum" in c.fields && Items(c.fields["enum"]) == [])
  {
    NormalizableIsNaNFree(c, 0, MAX_CONSTRAINT_DEPTH);
    JsonEqualEquivalence(c, c, c);
    hide Normalize, NaNFree, JsonEqual, AmongEqual;
    if c.Obj? {
      forall k, i: nat | k in c.fields && i < |Items(c.fields[k])|
        ensures AmongEqual(Items(c.fields[k])[i], Items(c.fields[k]))
      {
        ItemsAreNaNFree(c, k, i);
        AmongItself(Items(c.fields[k]), i);
      }
    }
  }

  // ------------------------------------------------------------- capabilities

  predicate Among(xs: seq<string>, ys: seq<string>)
  {
    forall i | 0 <= i < |xs| :: xs[i] in ys
  }

  /** `capability_is_subset` on valid capabilities. */
  predicate IsSubset(child: Capability, parent: Capability)
  {
    && child.subject == parent.subject
    && ScopeSubset(child.session, parent.session)
    && ScopeSubset(child.tool, parent.tool)
    && ScopeSubset(child.action, parent.action)
    && ScopeSubset(child.resource, parent.resource)
    && child.notBefore >= parent.notBefore && child.expiresAt <= parent.expiresAt
    && child.maxInvocations <= parent.maxInvocations
    && parent.delegationDepth > 0 && child.delegationDepth < parent.delegationDepth
    && (parent.purpose != [] ==> child.purpose != [] && Among(child.purpose, parent.purpose))
    && Among(parent.prohibited, child.prohibited)
    && (forall k | k in parent.constraints ::
          if k in child.constraints then ConstraintSubset(child.constraints[k], parent.constraints[k])
          else !Required(parent.constraints[k]))
    && (forall k | k in child.constraints :: k in parent.constraints)
  }

  datatype Refusal =
    | SubjectMismatch | SessionOutside | ToolOutside | ActionOutside | ResourceOutside
    | PurposeOutside | ParameterOutside | ParameterMissing
    | UnknownCapability | InvalidTime | Revoked(id: string) | NotYetValid(id: string) | Expired(id: string)
    | LimitReached(id: string) | NonceReplayed(id: string)
    | DelegationCycle | ParentMissing | AuthorityIncrease
    | InvalidCapability | DuplicateId | ParentRevoked

  /** `capability_is_subset` as its callers meet it: a capability that is no longer valid is an error of its own. */
  function SubsetRefusal(child: Capability, parent: Capability): Option<Refusal>
  {
    if !ValidCapability(child) || !ValidCapability(parent) then Some(InvalidCapability)
    else if !IsSubset(child, parent) then Some(AuthorityIncrease)
    else None
  }

  /** The scope and purpose checks of `_validate`, in order. */
  function ScopeRefusal(cap: Capability, r: Request): Option<Refusal>
  {
    if r.subject != cap.subject then Some(SubjectMismatch)
    else if !Matches(r.session, cap.session) then Some(SessionOutside)
    else if !Matches(r.tool, cap.tool) then Some(ToolOutside)
    else if !Matches(r.action, cap.action) then Some(ActionOutside)
    else if !Matches(r.resource, cap.resource) then Some(ResourceOutside)
    else if cap.purpose != [] && r.purpose !in cap.purpose then Some(PurposeOutside)
    else None
  }

  /** The parameter checks of `_validate`. */
  function ParameterRefusal(cap: Capability, params: map<string, Value>): Option<Refusal>
  {
    if exists k | k in params ::
         k in cap.prohibited || k !in cap.constraints || !ValueSatisfies(params[k], cap.constraints[k])
    then Some(ParameterOutside)
    else if exists k | k in cap.constraints :: Required(cap.constraints[k]) && k !in params
    then Some(ParameterMissing)
    else None
  }

  /** What it takes for a capability, apart from time and use, to allow a request. */
  predicate Authorizes(cap: Capability, r: Request)
  {
    && r.subject == cap.subject
    && Matches(r.session, cap.session) && Matches(r.tool, cap.tool)
    && Matches(r.action, cap.action) && Matches(r.resource, cap.resource)
    && (cap.purpose != [] ==> r.purpose in cap.purpose)
    && (forall k | k in r.Fields() ::
          && k in cap.constraints && k !in cap.prohibited
          && ValueSatisfies(r.Fields()[k], cap.constraints[k]))
    && (forall k | k in cap.constraints && Required(cap.constraints[k]) :: k in r.Fields())
  }

  /** The checks of `_validate` refuse exactly what the capability does not allow. */
  lemma RefusalsMeanUnauthorized(cap: Capability, r: Request)
    ensures ScopeRefusal(cap, r).None? && ParameterRefusal(cap, r.Fields()).None? <==> Authorizes(cap, r)
  {
    hide Matches, ValueSatisfies;
  }

  /** In a valid capability the prohibited names refuse nothing that undeclared ones do not: they bind delegates. */
  lemma ProhibitionBindsDelegates(cap: Capability, names: seq<string>, r: Request)
    requires ValidCapability(cap) && ValidCapability(cap.(prohibited := names))
    ensures Authorizes(cap, r) <==> Authorizes(cap.(prohibited := names), r)
  {
    hide Matches, ValueSatisfies, ValidConstraint;
  }

  /** Each refusal names something that is the case. */
  lemma RefusalsAreTrue(cap: Capability, r: Request)
    ensures match ScopeRefusal(cap, r)
      case Some(SubjectMismatch) => r.subject != cap.subject
      case Some(SessionOutside) => !Matches(r.session, cap.session)
      case Some(ToolOutside) => !Matches(r.tool, cap.tool)
      case Some(ActionOutside) => !Matches(r.action, cap.action)
      case Some(ResourceOutside) => !Matches(r.resource, cap.resource)
      case Some(PurposeOutside) => cap.purpose != [] && r.purpose !in cap.purpose
      case Some(_) => false
      case None => true
    ensures match ParameterRefusal(cap, r.Fields())
      case Some(ParameterMissing) => exists k ::
        k in cap.constraints && Required(cap.constraints[k]) && k !in r.Fields()
      case Some(ParameterOutside) => exists k ::
        k in r.Fields() &&
        (k in cap.prohibited || k !in cap.constraints || !ValueSatisfies(r.Fields()[k], cap.constraints[k]))
      case Some(_) => false
      case None => true
  {
    hide Matches, ValueSatisfies;
  }

  lemma SubsetAuthorizes(child: Capability, parent: Capability, r: Request)
    requires IsSubset(child, parent) && Authorizes(child, r)
    ensures Authorizes(parent, r)
  {
    ScopeSubsetSound(r.session, child.session, parent.session);
    ScopeSubsetSound(r.tool, child.tool, parent.tool);
    ScopeSubsetSound(r.action, child.action, parent.action);
    ScopeSubsetSound(r.resource, child.resource, parent.resource);
    var params := r.Fields();
    forall k | k in params
      ensures k !in parent.prohibited && k in parent.constraints
      ensures ValueSatisfies(params[k], parent.constraints[k])
    {
      assert k !in child.prohibited && k in child.constraints;
      ConstraintSubsetSound(params[k], child.constraints[k], parent.constraints[k]);
    }
    forall k | k in parent.constraints && Required(parent.constraints[k])
      ensures k in params
    {
      assert Required(child.constraints[k]);
    }
  }

  /** A chain from a capability towards its root, every link a narrowing. */
  ghost predicate Narrowing(chain: seq<Capability>)
  {
    forall i | 0 <= i < |chain| - 1 :: IsSubset(chain[i], chain[i+1])
  }

  /**
   * Checking only the leaf is enough: along a chain of any length, whatever the
   * leaf authorizes every ancestor authorizes.
   */
  lemma {:induction false} LineageAuthorizes(chain: seq<Capability>, r: Request, j: nat)
    requires Narrowing(chain) && j < |chain|
    requires Authorizes(chain[0], r)
    ensures Authorizes(chain[j], r)
  {
    if j > 0 {
      LineageAuthorizes(chain, r, j - 1);
      SubsetAuthorizes(chain[j-1], chain[j], r);
    }
  }

  /** Narrowing is a strict partial order. */
  lemma IsSubsetStrictOrder(child: Capability, middle: Capability, parent: Capability)
    ensures !IsSubset(child, child)
    ensures IsSubset(child, middle) && IsSubset(middle, parent) ==> IsSubset(child, parent)
  {
    if IsSubset(child, middle) && IsSubset(middle, parent) {
      ScopeSubsetTransitive(child.session, middle.session, parent.session);
      ScopeSubsetTransitive(child.tool, middle.tool, parent.tool);
      ScopeSubsetTransitive(child.action, middle.action, parent.action);
      ScopeSubsetTransitive(child.resource, middle.resource, parent.resource);
      forall k | k in parent.constraints && k in child.constraints
        ensures ConstraintSubset(child.constraints[k], parent.constraints[k])
      {
        ConstraintSubsetTransitive(child.constraints[k], middle.constraints[k], parent.constraints[k]);
      }
      forall k | k in parent.constraints && k !in child.constraints
        ensures !Required(parent.constraints[k])
      {
        if k in middle.constraints { assert !Required(middle.constraints[k]); }
      }
    }
  }

  /** Delegating the same authority one level down is allowed, unless an enumeration in it is empty. */
  lemma SameAuthorityDelegates(parent: Capability, id: string)
    requires ValidCapability(parent) && parent.delegationDepth > 0
    requires forall k | k in parent.constraints ::
      !(parent.constraints[k].Obj? && "enum" in parent.constraints[k].fields
        && Items(parent.constraints[k].fields["enum"]) == [])
    ensures IsSubset(
      parent.(id := id, parent := Some(parent.id), delegationDepth := parent.delegationDepth - 1), parent)
  {
    hide ConstraintSubset, ValidConstraint;
    forall k | k in parent.constraints ensures ConstraintSubset(parent.constraints[k], parent.constraints[k]) {
      ConstraintSubsetReflexive(parent.constraints[k]);
    }
  }
}
