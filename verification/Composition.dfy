/** Tool composition: decoding a proxy call into the separately authorized action it carries. */
module Composition {
  import opened Wrappers
  import opened Values
  import opened Canonical

  const PROXY_ACTION: string := "proxy_call"

  /** `build_nested_request`: `None` stands for the ValueError it raises. */
  function BuildNested(r: Request): Option<Request>
  {
    var p := r.Fields();
    var target := Lookup(p, "target", Null);
    var capability := Lookup(p, "nested_capability_id", Null);
    var params := Lookup(p, "target_params", Null);
    var resource := Lookup(p, "target_resource", Null);
    if !target.Str? || target.s == "" then None
    else if !capability.Str? || capability.s == "" then None
    else if !params.Obj? then None
    else if !resource.Str? || CanonicalizeResource(resource.s).None? then None
    else
      Some(Request(
        r.subject, r.session, "sandbox", target.s, CanonicalizeResource(resource.s).value, params,
        r.purpose, capability.s, r.nonce + "-nested", r.observedVersion,
        Obj(map["mediated_by" := Str("proxy_call")])))
  }

  /** How deeply the canonical parameters of a request nest; 0 when it has no canonical form. */
  ghost function Weight(r: Request): nat
  {
    if Canonicalize(r).Some? then Height(Canonicalize(r).value.params) else 0
  }

  lemma CanonicalAction(r: Request)
    requires Canonicalize(r) == Some(r)
    ensures Lower(Strip(r.action)) == r.action
  {
    CanonicalizeIdempotent(r);
  }

  lemma CanonicalWeight(r: Request)
    requires Canonicalize(r).Some?
    ensures var c := Canonicalize(r).value;
      Canonicalize(c) == Some(c) && Weight(c) == Weight(r) == Height(c.params)
  {
    CanonicalizeIdempotent(r);
  }

  /** The nested action's parameters are a strict sub-value, so composition runs out. */
  lemma NestedIsLighter(r: Request)
    requires Canonicalize(r) == Some(r) && BuildNested(r).Some?
    ensures Weight(BuildNested(r).value) < Weight(r) <= MAX_REQUEST_DEPTH
  {
    CanonicalizeIdempotent(r);
    var n := BuildNested(r).value;
    SubvalueIsLower(r.params, "target_params");
    if Canonicalize(n).Some? {
      NestedParamsStable(r.params);
    }
  }

  lemma NestedParamsStable(params: Value)
    requires params.Obj? && Normalize(params, 0, MAX_REQUEST_DEPTH) == Some(params)
    requires "target_params" in params.fields
    ensures var v := params.fields["target_params"];
      Normalize(v, 0, MAX_REQUEST_DEPTH).Some? ==> Normalize(v, 0, MAX_REQUEST_DEPTH) == Some(v)
  {
    var f := params.fields;
    var v := f["target_params"];
    var g := map k | k in f :: Normalize(f[k], 1, MAX_REQUEST_DEPTH).value;
    assert Normalize(params, 0, MAX_REQUEST_DEPTH) == Some(Obj(g));
    assert g["target_params"] == v;
    NormalizeIdempotent(v, 1, MAX_REQUEST_DEPTH, v);
  }

  /** The canonical action `inner` is the one that the parameters of the composed action `outer` carry. */
  ghost predicate ComposedOf(outer: Request, inner: Request)
  {
    var f := outer.Fields();
    && inner.tool == "sandbox"
    && "target" in f && f["target"] == Str(inner.action)
    && "nested_capability_id" in f && f["nested_capability_id"] == Str(inner.capabilityId)
    && "target_params" in f && f["target_params"] == inner.params
    && "target_resource" in f && f["target_resource"].Str?
    && CanonicalizeResource(f["target_resource"].s) == Some(inner.resource)
    && inner.subject == outer.subject && inner.session == outer.session && inner.purpose == outer.purpose
    && inner.nonce == outer.nonce + "-nested" && inner.observedVersion == outer.observedVersion
    && inner.context == Obj(map["mediated_by" := Str("proxy_call")])
  }

  lemma MarkIsCanonical()
    ensures var mark := Obj(map["mediated_by" := Str("proxy_call")]);
      Normalize(mark, 0, MAX_REQUEST_DEPTH) == Some(mark)
  {
    var f: map<string, Value> := map["mediated_by" := Str("proxy_call")];
    var g := map k | k in f :: Normalize(f[k], 1, MAX_REQUEST_DEPTH).value;
    assert Normalize(Obj(f), 0, MAX_REQUEST_DEPTH) == Some(Obj(g));
    assert g == f;
  }

  /** What the gateway sends through the monitor for a composed action is the action it carries. */
  lemma NestedIsComposed(r: Request)
    requires Canonicalize(r) == Some(r) && BuildNested(r).Some? && Canonicalize(BuildNested(r).value).Some?
    ensures ComposedOf(r, Canonicalize(BuildNested(r).value).value)
  {
    CanonicalizeIdempotent(r);
    MarkIsCanonical();
    NestedParamsStable(r.params);
    CanonicalResourceIsStable(r.params.fields["target_resource"].s);
    hide Normalize, CanonicalizeResource, Identifier, Strip, Lower, Segments, NaNFree, Height;
  }

  /** The action a composed one carries is the only one composed of its parameters. */
  lemma NestedMeaning(r: Request, n: Request)
    ensures BuildNested(r) == Some(n) <==>
      ComposedOf(r, n) && n.action != "" && n.capabilityId != "" && n.params.Obj?
  {
    hide CanonicalizeResource;
  }

  /** A composed action carries another one exactly when its four parameters have the right form. */
  lemma CarriesNested(r: Request)
    ensures BuildNested(r).Some? <==>
      var f := r.Fields();
      && "target" in f && f["target"].Str? && f["target"].s != ""
      && "nested_capability_id" in f && f["nested_capability_id"].Str? && f["nested_capability_id"].s != ""
      && "target_params" in f && f["target_params"].Obj?
      && "target_resource" in f && f["target_resource"].Str?
      && '\\' !in f["target_resource"].s && ".." !in Segments(f["target_resource"].s)
  {
    var f := r.Fields();
    if "target_resource" in f && f["target_resource"].Str? { ResourceAccepted(f["target_resource"].s); }
    hide CanonicalizeResource, Segments;
  }
}
