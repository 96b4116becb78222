/**
 * The monitor as a transition system without bounds: small guarded steps on the
 * state, of which every call of the runtime, however deeply it nests, is a run.
 */
module Transitions {
  import opened Wrappers
  import opened Values
  import opened Canonical
  import opened Composition
  import opened Types
  import opened Runtime
  import Capabilities
  import Stores
  import Policies

  datatype Transition<E> =
    | Tick
    | Keep(sequences: set<int>)
    | Grant(request: Request, now: int)
    | Spend(canonical: Request, permit: Permit, now: int)
    | Audit(canonical: Request, permit: Permit, result: ToolResult)
    | Deny(request: Request, decision: Decision)
    | AddCapability(capability: Capabilities.Capability)
    | RevokeCapability(id: string)
    | ResetUsage
    | ChangeEnvironment(env: E)

  function Innermost<E>(s: Guardian<E>): Burn<E>
    requires s.past.inflight != []
  {
    s.past.inflight[|s.past.inflight|-1]
  }

  /** A nested action is the one the composed action in flight carries, and nests less deeply. */
  ghost predicate NestsInside<E>(s: Guardian<E>, r: Request)
  {
    s.past.inflight != [] ==>
      && !Innermost(s).direct
      && Weight(r) < Height(Innermost(s).request.params)
      && (Canonicalize(r).Some? ==> ComposedOf(Innermost(s).request, Canonicalize(r).value))
  }

  /** A denial answers the request as submitted: canonical unless that is what it denies, and never without reason. */
  ghost predicate Denies(r: Request, decision: Decision)
  {
    && !decision.allowed && !decision.reason.Authorized?
    && decision.normalized == Canonicalize(r)
    && (decision.reason.NotCanonical? <==> Canonicalize(r).None?)
  }

  /** The last clock reading. */
  ghost predicate JustRead<E>(cfg: Config<E>, s: Guardian<E>, now: int)
  {
    s.ticks > 0 && now == cfg.clock(s.ticks - 1)
  }

  /** The result is that of a failed call: nothing but the name of the error. */
  ghost predicate Failed(result: ToolResult, status: string, error: string)
  {
    !result.ok && result.status == status && result.output == Obj(map["error_type" := Str(error)])
  }

  /** The outer result is the inner one with its own status and the target added, unless the inner output has one. */
  ghost predicate RelayedAs(c: Request, inner: ToolResult, outer: ToolResult)
  {
    && inner.output.Obj? && outer.output.Obj?
    && outer.ok == inner.ok && outer.stateVersion == inner.stateVersion
    && (outer.status ==
          if inner.ok then "proxied-mediated"
          else if inner.status == "nested-authorization-denied" then "proxy-nested-denied"
          else "proxy-nested-failed")
    && outer.output.fields.Keys == inner.output.fields.Keys + {"target"}
    && (forall k | k in inner.output.fields :: outer.output.fields[k] == inner.output.fields[k])
    && ("target" !in inner.output.fields ==>
          outer.output.fields["target"] == if "target" in c.Fields() then c.Fields()["target"] else Str(""))
  }

  /** The gateway relays a nested result, unless its state version is no version. */
  ghost predicate Relays(c: Request, inner: ToolResult, outer: ToolResult)
  {
    if inner.stateVersion.Some? && inner.stateVersion.value < 0
    then Failed(outer, "invalid-tool-result", "ValueError")
    else RelayedAs(c, inner, outer)
  }

  /** How a composed execution may end: with the record or the denial just made, or with an error. */
  ghost predicate ComposedEnds<E>(cfg: Config<E>, s: Guardian<E>, c: Request, result: ToolResult)
  {
    || (exists inner :: LastAudited(s, inner) && Relays(c, inner, result))
    || (exists reason :: LastDenied(s, reason) && Relays(c, DenialResult(cfg, s.env, reason), result))
    || (exists error :: Failed(result, "tool-error", error))
    || (exists error :: Failed(result, "tool-interrupted", error))
  }

  /** The result an execution is recorded with is the tool's, or comes from the nested request. */
  ghost predicate ResultFits<E>(cfg: Config<E>, s: Guardian<E>, result: ToolResult)
    requires s.past.inflight != []
  {
    var b := Innermost(s);
    if b.direct then result == DirectResult(cfg, b) else ComposedEnds(cfg, s, b.request, result)
  }

  ghost predicate Enabled<E>(cfg: Config<E>, s: Guardian<E>, t: Transition<E>)
  {
    match t
    case Tick => true
    case Keep(_) => true
    case Grant(r, now) => JustRead(cfg, s, now) && Grantable(cfg, s, r, now)
    case Spend(c, permit, now) =>
      && JustRead(cfg, s, now)
      && Canonicalize(c) == Some(c)
      && StaticFault(cfg, s, c, permit).None?
      && DynamicFault(cfg, s, c, permit, now).None?
      && NestsInside(s, c)
    case Audit(c, permit, result) =>
      && s.past.inflight != []
      && Innermost(s).request == c && Innermost(s).payload == permit.payload
      && ResultFits(cfg, s, result)
    case Deny(r, decision) => Denies(r, decision)
    case AddCapability(capability) => Stores.Add(s.store, capability).Success?
    case RevokeCapability(id) => Stores.Revoke(s.store, id).Success?
    case ResetUsage => true
    case ChangeEnvironment(_) => true
  }

  ghost function Apply<E>(cfg: Config<E>, s: Guardian<E>, t: Transition<E>): Guardian<E>
    requires Enabled(cfg, s, t)
  {
    match t
    case Tick => s.(ticks := s.ticks + 1)
    case Keep(sequences) => s.(pending := map k | k in s.pending && k in sequences :: s.pending[k])
    case Grant(r, now) => Granted(cfg, s, r, now)
    case Spend(c, permit, now) => BurnPermit(cfg, s, c, permit, now)
    case Audit(c, permit, result) => RecordExecution(cfg, s, c, permit, result)
    case Deny(r, decision) => RecordDenial(cfg, s, r, decision)
    case AddCapability(capability) => s.(store := Stores.Add(s.store, capability).value)
    case RevokeCapability(id) => s.(store := Stores.Revoke(s.store, id).value)
    case ResetUsage => s.(store := Stores.ResetUsage(s.store), past := s.past.(charged := []))
    case ChangeEnvironment(env) => s.(env := env)
  }

  /** The transitions a call of the runtime can take by itself. */
  predicate IsInternal<E>(t: Transition<E>)
  {
    t.Tick? || t.Keep? || t.Grant? || t.Spend? || t.Audit? || t.Deny?
  }

  ghost predicate Internal<E>(ts: seq<Transition<E>>)
  {
    forall i | 0 <= i < |ts| :: IsInternal(ts[i])
  }

  /** The state after the transitions, or `None` if one of them is not enabled in its turn. */
  ghost function Run<E>(cfg: Config<E>, s: Guardian<E>, ts: seq<Transition<E>>): Option<Guardian<E>>
    decreases |ts|
  {
    if ts == [] then Some(s)
    else if Enabled(cfg, s, ts[0]) then Run(cfg, Apply(cfg, s, ts[0]), ts[1..])
    else None
  }

  lemma {:induction false} RunAppend<E>(cfg: Config<E>, s: Guardian<E>, a: seq<Transition<E>>, b: seq<Transition<E>>)
    requires Run(cfg, s, a).Some?
    ensures Run(cfg, s, a + b) == Run(cfg, Run(cfg, s, a).value, b)
    decreases |a|
  {
    if a == [] {
      assert a + b == b;
    } else {
      assert (a + b)[1..] == a[1..] + b;
      RunAppend(cfg, Apply(cfg, s, a[0]), a[1..], b);
    }
  }

  lemma RunOne<E>(cfg: Config<E>, s: Guardian<E>, t: Transition<E>)
    requires Enabled(cfg, s, t)
    ensures Run(cfg, s, [t]) == Some(Apply(cfg, s, t))
  {
    assert [t][1..] == [];
    assert Run(cfg, s, [t]) == Run(cfg, Apply(cfg, s, t), []);
  }

  /** Extend a run by one transition. */
  lemma RunSnoc<E>(cfg: Config<E>, s: Guardian<E>, ts: seq<Transition<E>>, t: Transition<E>)
    requires Run(cfg, s, ts).Some? && Enabled(cfg, Run(cfg, s, ts).value, t)
    ensures Run(cfg, s, ts + [t]) == Some(Apply(cfg, Run(cfg, s, ts).value, t))
  {
    RunAppend(cfg, s, ts, [t]);
    RunOne(cfg, Run(cfg, s, ts).value, t);
  }

  // ------------------------------------------------- calls refine to transitions

  /** What the policy allows can be recorded, so granting never faults. */
  lemma GrantingSucceeds<E>(cfg: Config<E>, s: Guardian<E>, r: Request, c: Request, now: int, ruleId: Option<string>)
    requires ValidConfig(cfg)
    requires Canonicalize(r) == Some(c) && Stores.Validate(s.store, c, now).Success?
    requires Policies.Evaluate(cfg.policy, c, cfg.snapshot(s.env), now, s.usage) == Policies.Allowed(ruleId)
    requires cfg.check(s.env, c).None?
    ensures Grantable(cfg, s, r, now)
    ensures var payload := GrantedPayload(cfg, s, r, now);
      && payload.ruleId == ruleId
      && Granting(cfg, s, r, c, now, ruleId) ==
           (Granted(cfg, s, r, now),
            Decided(Decision(true, Authorized, ruleId, Some(Permit(payload, cfg.signPermit(payload))), Some(c))))
  {
    Policies.AllowedIsRecordable(cfg.policy, c, cfg.snapshot(s.env), now, s.usage);
    hide Canonicalize, Stores.Validate, Stores.Consume, Policies.Evaluate, Policies.Record, Policies.Deadline,
         Granted;
  }

  /** Evaluation faults on a negative clock, grants, or denies; it never reserves without issuing. */
  lemma EvaluateCases<E>(cfg: Config<E>, s: Guardian<E>, r: Request)
    requires ValidConfig(cfg)
    ensures
      var now := cfg.clock(s.ticks);
      var s1 := s.(ticks := s.ticks + 1, pending := Unexpired(s.pending, now));
      var (after, evaluation) := Evaluate(cfg, s, r);
      if now < 0 then after == s.(ticks := s.ticks + 1) && evaluation.Faulted?
      else if Grantable(cfg, s1, r, now) then
        var payload := GrantedPayload(cfg, s1, r, now);
        && Canonicalize(r).Some?
        && after == Granted(cfg, s1, r, now)
        && evaluation == Decided(Decision(true, Authorized, payload.ruleId,
             Some(Permit(payload, cfg.signPermit(payload))), Canonicalize(r)))
      else
        && after == s1 && evaluation.Decided?
        && Denies(r, evaluation.decision) && !evaluation.decision.reason.PermitRejected?
  {
    hide Canonicalize, Stores.Validate, Policies.Evaluate, Policies.Record, GrantedPayload, Granted, Granting,
         Unexpired;
    var now := cfg.clock(s.ticks);
    var s1 := s.(ticks := s.ticks + 1, pending := Unexpired(s.pending, now));
    if now >= 0 && Canonicalize(r).Some? {
      var c := Canonicalize(r).value;
      var verdict := Policies.Evaluate(cfg.policy, c, cfg.snapshot(s1.env), now, s1.usage);
      if Stores.Validate(s1.store, c, now).Success? && verdict.Allowed? && cfg.check(s1.env, c).None? {
        GrantingSucceeds(cfg, s1, r, c, now, verdict.ruleId);
      }
    }
  }

  lemma EvaluateRuns<E>(cfg: Config<E>, s: Guardian<E>, r: Request) returns (ts: seq<Transition<E>>)
    requires ValidConfig(cfg)
    ensures Run(cfg, s, ts) == Some(Evaluate(cfg, s, r).0) && Internal(ts)
  {
    hide Evaluate, Canonicalize, Granted, GrantedPayload, Grantable, Denies, StaticFault, DynamicFault, NestsInside,
         ResultFits, RecordDenial, RecordExecution, BurnPermit;
    EvaluateCases(cfg, s, r);
    var now := cfg.clock(s.ticks);
    ts := [Tick];
    RunOne(cfg, s, Tick);
    if now >= 0 {
      var kept := set k | k in s.pending && now < s.pending[k].0;
      var s1 := s.(ticks := s.ticks + 1, pending := Unexpired(s.pending, now));
      RunSnoc(cfg, s, ts, Keep(kept));
      assert (map k | k in s.pending && k in kept :: s.pending[k]) == Unexpired(s.pending, now);
      ts := ts + [Keep(kept)];
      if Grantable(cfg, s1, r, now) {
        RunSnoc(cfg, s, ts, Grant(r, now));
        ts := ts + [Grant(r, now)];
      }
    }
  }

  lemma ForgetRuns<E>(cfg: Config<E>, s: Guardian<E>, sequence: int) returns (t: Transition<E>)
    ensures Enabled(cfg, s, t) && Apply(cfg, s, t) == Forget(s, sequence) && IsInternal(t)
  {
    t := Keep(s.pending.Keys - {sequence});
    assert (map k | k in s.pending && k in s.pending.Keys - {sequence} :: s.pending[k])
        == (map k | k in s.pending && k != sequence :: s.pending[k]);
  }

  /** Past the gateway's checks the permit can be spent, on the canonical request. */
  lemma SpendEnabled<E>(cfg: Config<E>, s: Guardian<E>, r: Request, permit: Permit, now: int)
    requires JustRead(cfg, s, now) && StaticFault(cfg, s, r, permit).None? && NestsInside(s, r)
    requires DynamicFault(cfg, s, Canonicalize(r).value, permit, now).None?
    ensures Enabled(cfg, s, Spend(Canonicalize(r).value, permit, now))
  {
    CanonicalWeight(r);
  }

  lemma BurnIsInnermost<E>(cfg: Config<E>, s: Guardian<E>, c: Request, permit: Permit, now: int)
    ensures var burned := BurnPermit(cfg, s, c, permit, now);
      && burned.past.inflight != []
      && Innermost(burned).request == c && Innermost(burned).payload == permit.payload
      && Innermost(burned).direct == IsDirect(cfg, c)
  {
  }

  /** What a direct burn is recorded with is its tool's result. */
  lemma DirectResultFits<E>(cfg: Config<E>, s: Guardian<E>, c: Request, permit: Permit, now: int)
    requires IsDirect(cfg, c)
    ensures var s2 := BurnPermit(cfg, s, c, permit, now);
      s2.past.inflight != [] && ResultFits(cfg, s2, FinalResult(cfg, s2.env, cfg.exec(s.env, c).1))
  {
    hide FinalResult;
  }

  lemma {:induction false} ParamFits(c: Request, key: string)
    requires Canonicalize(c) == Some(c) && key in c.Fields()
    ensures Normalize(c.Fields()[key], 1, MAX_OUTPUT_DEPTH) == Some(c.Fields()[key])
  {
    CanonicalizeIdempotent(c);
    var f := c.params.fields;
    var g := map k | k in f :: Normalize(f[k], 1, MAX_REQUEST_DEPTH).value;
    assert Normalize(c.params, 0, MAX_REQUEST_DEPTH) == Some(Obj(g));
    assert g[key] == f[key];
  }

  lemma FieldFits(output: Value, key: string)
    requires output.Obj? && Normalize(output, 0, MAX_OUTPUT_DEPTH) == Some(output) && key in output.fields
    ensures key != "" && Normalize(output.fields[key], 1, MAX_OUTPUT_DEPTH) == Some(output.fields[key])
  {
    var f := output.fields;
    var g := map k | k in f :: Normalize(f[k], 1, MAX_OUTPUT_DEPTH).value;
    assert Normalize(output, 0, MAX_OUTPUT_DEPTH) == Some(Obj(g));
    assert g[key] == f[key];
  }

  lemma FieldsFit(f: map<string, Value>)
    requires forall k | k in f :: k != "" && Normalize(f[k], 1, MAX_OUTPUT_DEPTH) == Some(f[k])
    ensures Normalize(Obj(f), 0, MAX_OUTPUT_DEPTH) == Some(Obj(f))
  {
    var g := map k | k in f :: Normalize(f[k], 1, MAX_OUTPUT_DEPTH).value;
    assert Normalize(Obj(f), 0, MAX_OUTPUT_DEPTH) == Some(Obj(g));
    assert g == f;
  }

  /** A wrapped result needs no further normalization. */
  lemma ProxiedIsPresentable(c: Request, inner: ToolResult)
    requires Canonicalize(c) == Some(c) && Presentable(inner)
    ensures Presentable(Proxied(c, inner)) && RelayedAs(c, inner, Proxied(c, inner))
  {
    hide Normalize, Canonicalize;
    var f := Proxied(c, inner).output.fields;
    forall k | k in f ensures k != "" && Normalize(f[k], 1, MAX_OUTPUT_DEPTH) == Some(f[k]) {
      if k in inner.output.fields {
        FieldFits(inner.output, k);
      } else if "target" in c.Fields() {
        ParamFits(c, "target");
      } else {
        assert Normalize(Str(""), 1, MAX_OUTPUT_DEPTH) == Some(Str("")) by { TextIsCanonical(""); }
      }
    }
    FieldsFit(f);
  }

  lemma TextIsCanonical(text: string)
    ensures Normalize(Str(text), 1, MAX_OUTPUT_DEPTH) == Some(Str(text))
  {
  }

  lemma ProxiedIsRelayed<E>(cfg: Config<E>, env: E, c: Request, inner: ToolResult)
    requires Canonicalize(c) == Some(c) && Presentable(inner)
    ensures Relays(c, inner, FinalResult(cfg, env, Returned(Proxied(c, inner))))
  {
    hide Canonicalize, Normalize, RelayedAs;
    ProxiedIsPresentable(c, inner);
  }

  lemma DenialIsPresentable<E>(cfg: Config<E>, env: E, reason: Reason)
    ensures Presentable(DenialResult(cfg, env, reason))
  {
    FlatIsCanonical(DenialResult(cfg, env, reason).output);
  }

  /** What a composed burn is recorded with comes from the nested request. */
  lemma NestedResultFits<E>(cfg: Config<E>, s: Guardian<E>, c: Request)
    requires Canonicalize(c) == Some(c)
    requires s.past.inflight != [] && Innermost(s).request == c && !Innermost(s).direct
    ensures var (s3, outcome) := ExecuteNested(cfg, s, c);
      s3.past.inflight != [] && ResultFits(cfg, s3, FinalResult(cfg, s3.env, outcome))
  {
    hide Canonicalize, ExecuteNested, SnapshotResult, LastAudited, LastDenied, Proxied, Relays, DenialResult,
         Presentable;
    var (s3, outcome) := ExecuteNested(cfg, s, c);
    var result := FinalResult(cfg, s3.env, outcome);
    match outcome
    case Returned(returned) =>
      if inner :| LastAudited(s3, inner) && returned == Proxied(c, inner) {
        AuditedIsPresentable(s3, inner);
        ProxiedIsRelayed(cfg, s3.env, c, inner);
      } else {
        var reason :| LastDenied(s3, reason) && returned == Proxied(c, DenialResult(cfg, s3.env, reason));
        DenialIsPresentable(cfg, s3.env, reason);
        ProxiedIsRelayed(cfg, s3.env, c, DenialResult(cfg, s3.env, reason));
      }
    case NotAResult =>
    case Raised(error) => assert Failed(result, "tool-error", error);
    case Interrupted(error) => assert Failed(result, "tool-interrupted", error);
  }

  lemma AuditedIsPresentable<E>(s: Guardian<E>, result: ToolResult)
    requires LastAudited(s, result)
    ensures Presentable(result)
  {
  }

  /** Past the burn, the boundary is a direct call or a nested one, and then one audit record. */
  lemma BoundaryCases<E>(cfg: Config<E>, s: Guardian<E>, c: Request, permit: Permit, now: int)
    requires Canonicalize(c) == Some(c)
    ensures
      var s2 := BurnPermit(cfg, s, c, permit, now);
      var (s3, outcome) := if IsDirect(cfg, c) then (s2, cfg.exec(s.env, c).1) else ExecuteNested(cfg, s2, c);
      var audit := Audit(c, permit, FinalResult(cfg, s3.env, outcome));
      Enabled(cfg, s3, audit) && CrossBoundary(cfg, s, c, permit, now).0 == Apply(cfg, s3, audit)
  {
    hide Canonicalize, BurnPermit, FinalResult, ExecuteNested, RecordExecution, ResultFits, LastAudited;
    BurnIsInnermost(cfg, s, c, permit, now);
    if IsDirect(cfg, c) {
      DirectResultFits(cfg, s, c, permit, now);
    } else {
      NestedResultFits(cfg, BurnPermit(cfg, s, c, permit, now), c);
    }
  }

  /** A transition, a run, and a transition again. */
  lemma RunAround<E>(cfg: Config<E>, s: Guardian<E>, first: Transition<E>, middle: seq<Transition<E>>,
                     last: Transition<E>)
    requires Enabled(cfg, s, first) && Run(cfg, Apply(cfg, s, first), middle).Some?
    requires Enabled(cfg, Run(cfg, Apply(cfg, s, first), middle).value, last)
    ensures Run(cfg, s, [first] + middle + [last]) ==
      Some(Apply(cfg, Run(cfg, Apply(cfg, s, first), middle).value, last))
  {
    hide Enabled, Apply;
    RunOne(cfg, s, first);
    RunAppend(cfg, s, [first], middle);
    RunSnoc(cfg, s, [first] + middle, last);
  }

  lemma SpendBurns<E>(cfg: Config<E>, s: Guardian<E>, c: Request, permit: Permit, now: int)
    requires Enabled(cfg, s, Spend(c, permit, now))
    ensures Apply(cfg, s, Spend(c, permit, now)) == BurnPermit(cfg, s, c, permit, now)
    ensures Canonicalize(c) == Some(c)
    ensures Run(cfg, BurnPermit(cfg, s, c, permit, now), []) == Some(BurnPermit(cfg, s, c, permit, now))
  {
    hide BurnPermit;
  }

  /** From the burn to the audit record, nested run included. */
  lemma {:induction false} BoundaryRuns<E>(cfg: Config<E>, s: Guardian<E>, c: Request, permit: Permit, now: int)
    returns (ts: seq<Transition<E>>)
    requires ValidConfig(cfg) && Canonicalize(c) == Some(c) && Enabled(cfg, s, Spend(c, permit, now))
    ensures Run(cfg, s, ts) == Some(CrossBoundary(cfg, s, c, permit, now).0) && Internal(ts)
    decreases Weight(c), 1, 0
  {
    hide Canonicalize, Enabled, Apply, BurnPermit, CrossBoundary, FinalResult, ExecuteNested, Weight, Run,
         ValidConfig;
    BoundaryCases(cfg, s, c, permit, now);
    BurnIsInnermost(cfg, s, c, permit, now);
    SpendBurns(cfg, s, c, permit, now);
    var s2 := BurnPermit(cfg, s, c, permit, now);
    var middle, s3, outcome := [], s2, cfg.exec(s.env, c).1;
    if !IsDirect(cfg, c) {
      middle := NestedRuns(cfg, s2, c);
      s3, outcome := ExecuteNested(cfg, s2, c).0, ExecuteNested(cfg, s2, c).1;
    }
    var audit := Audit(c, permit, FinalResult(cfg, s3.env, outcome));
    RunAround(cfg, s, Spend(c, permit, now), middle, audit);
    ts := [Spend(c, permit, now)] + middle + [audit];
  }

  lemma CheckedIsCanonical<E>(cfg: Config<E>, s: Guardian<E>, r: Request, permit: Permit)
    ensures StaticFault(cfg, s, r, permit).None? ==> Canonicalize(r).Some?
  {
  }

  lemma StaticFaultIgnoresTicks<E>(cfg: Config<E>, s: Guardian<E>, r: Request, permit: Permit)
    ensures StaticFault(cfg, s.(ticks := s.ticks + 1), r, permit) == StaticFault(cfg, s, r, permit)
  {
    hide Canonicalize;
  }

  /** A gateway call either stops at a check, having at most read the clock, or crosses the boundary. */
  lemma ExecuteCases<E>(cfg: Config<E>, s: Guardian<E>, r: Request, permit: Permit)
    ensures var (after, execution) := Execute(cfg, s, r, permit);
      var s1 := s.(ticks := s.ticks + 1);
      if StaticFault(cfg, s, r, permit).Some? then
        after == s && execution == Rejected(StaticFault(cfg, s, r, permit).value)
      else
        && Canonicalize(r).Some?
        && var c, now := Canonicalize(r).value, cfg.clock(s.ticks);
        && Canonicalize(c) == Some(c) && Weight(c) == Weight(r)
        && if DynamicFault(cfg, s1, c, permit, now).Some? then
             after == s1 && execution == Rejected(DynamicFault(cfg, s1, c, permit, now).value)
           else (after, execution) == CrossBoundary(cfg, s1, c, permit, now)
  {
    hide Canonicalize, Weight, StaticFault, DynamicFault, CrossBoundary;
    assert StaticFault(cfg, s, r, permit).None? ==> Canonicalize(r).Some? by {
      CheckedIsCanonical(cfg, s, r, permit);
    }
    if Canonicalize(r).Some? { CanonicalWeight(r); }
  }

  /** `gateway.execute` is a run: a tick and, past the checks, everything from burn to audit. */
  lemma {:induction false} ExecuteRuns<E>(cfg: Config<E>, s: Guardian<E>, r: Request, permit: Permit)
    returns (ts: seq<Transition<E>>)
    requires ValidConfig(cfg) && NestsInside(s, r)
    ensures Run(cfg, s, ts) == Some(Execute(cfg, s, r, permit).0) && Internal(ts)
    decreases Weight(r), 2
  {
    ExecuteCases(cfg, s, r, permit);
    ts := [];
    if StaticFault(cfg, s, r, permit).None? {
      ts := CheckedRuns(cfg, s, r, permit);
    }
  }

  lemma {:induction false} CheckedRuns<E>(cfg: Config<E>, s: Guardian<E>, r: Request, permit: Permit)
    returns (ts: seq<Transition<E>>)
    requires ValidConfig(cfg) && NestsInside(s, r) && StaticFault(cfg, s, r, permit).None?
    requires Canonicalize(r).Some? && Weight(Canonicalize(r).value) == Weight(r)
    requires Canonicalize(Canonicalize(r).value) == Canonicalize(r)
    ensures var s1 := s.(ticks := s.ticks + 1);
      var c, now := Canonicalize(r).value, cfg.clock(s.ticks);
      Run(cfg, s, ts) == Some(
        if DynamicFault(cfg, s1, c, permit, now).Some? then s1 else CrossBoundary(cfg, s1, c, permit, now).0)
    ensures Internal(ts)
    decreases Weight(r), 1, 1
  {
    StaticFaultIgnoresTicks(cfg, s, r, permit);
    hide Canonicalize, Weight, StaticFault, DynamicFault, CrossBoundary, BurnPermit;
    var c, now := Canonicalize(r).value, cfg.clock(s.ticks);
    var s1 := s.(ticks := s.ticks + 1);
    ts := [Tick];
    RunOne(cfg, s, Tick);
    if DynamicFault(cfg, s1, c, permit, now).None? {
      SpendEnabled(cfg, s1, r, permit, now);
      var boundary := BoundaryRuns(cfg, s1, c, permit, now);
      RunAppend(cfg, s, ts, boundary);
      ts := ts + boundary;
    }
  }

  lemma {:induction false} NestedRuns<E>(cfg: Config<E>, s: Guardian<E>, c: Request)
    returns (ts: seq<Transition<E>>)
    requires ValidConfig(cfg) && Canonicalize(c) == Some(c)
    requires s.past.inflight != [] && Innermost(s).request == c && !Innermost(s).direct
    ensures Run(cfg, s, ts) == Some(ExecuteNested(cfg, s, c).0) && Internal(ts)
    decreases Weight(c), 0
  {
    hide Wrapped, InnerOutcome, ExecuteRequest, Canonicalize, Weight, BuildNested, ComposedOf;
    ts := [];
    if cfg.composes && BuildNested(c).Some? {
      NestedIsLighter(c);
      CanonicalWeight(c);
      if Canonicalize(BuildNested(c).value).Some? { NestedIsComposed(c); }
      ts := RequestRuns(cfg, s, BuildNested(c).value);
    }
  }

  /** What `execute_request` is told: a denial of the request, or a permit for its canonical form. */
  lemma EvaluateAnswers<E>(cfg: Config<E>, s: Guardian<E>, r: Request)
    requires ValidConfig(cfg)
    ensures var (_, evaluation) := Evaluate(cfg, s, r);
      evaluation.Decided? ==>
        if evaluation.decision.allowed then
          evaluation.decision.permit.Some? && Canonicalize(r).Some? && evaluation.decision.normalized == Canonicalize(r)
        else Denies(r, evaluation.decision)
  {
    hide Evaluate, Grantable, Granted, GrantedPayload, Canonicalize, Unexpired;
    EvaluateCases(cfg, s, r);
  }

  lemma InsideWhenCanonical<E>(s: Guardian<E>, later: Guardian<E>, r: Request)
    requires NestsInside(s, r) && Canonicalize(r).Some? && later.past.inflight == s.past.inflight
    ensures NestsInside(later, Canonicalize(r).value)
  {
    CanonicalWeight(r);
    hide Canonicalize, Weight, ComposedOf;
  }

  lemma DenyEnabled<E>(cfg: Config<E>, s: Guardian<E>, r: Request, decision: Decision)
    requires Denies(r, decision)
    ensures Enabled(cfg, s, Deny(r, decision))
    ensures Apply(cfg, s, Deny(r, decision)) == RecordDenial(cfg, s, r, decision)
  {
    hide Denies;
  }

  /** After a rejected permit the pending request is forgotten and the denial recorded. */
  lemma RejectionRuns<E>(cfg: Config<E>, s: Guardian<E>, r: Request, sequence: int, fault: PermitFault,
                         ruleId: Option<string>)
    returns (ts: seq<Transition<E>>)
    requires Canonicalize(r).Some?
    ensures var rejected := Refuse(PermitRejected(fault), ruleId, Canonicalize(r));
      Run(cfg, s, ts) == Some(RecordDenial(cfg, Forget(s, sequence), r, rejected)) && Internal(ts)
  {
    hide Canonicalize, Forget, RecordDenial, Run, Enabled, Apply;
    var rejected := Refuse(PermitRejected(fault), ruleId, Canonicalize(r));
    var forget := ForgetRuns(cfg, s, sequence);
    RunOne(cfg, s, forget);
    DenyEnabled(cfg, Forget(s, sequence), r, rejected);
    RunSnoc(cfg, s, [forget], Deny(r, rejected));
    ts := [forget] + [Deny(r, rejected)];
  }

  lemma {:induction false} RequestRuns<E>(cfg: Config<E>, s: Guardian<E>, r: Request)
    returns (ts: seq<Transition<E>>)
    requires ValidConfig(cfg) && NestsInside(s, r)
    ensures Run(cfg, s, ts) == Some(ExecuteRequest(cfg, s, r).0) && Internal(ts)
    decreases Weight(r), 3
  {
    hide Evaluate, Execute, Canonicalize, Weight, NestsInside, Denies, RecordDenial, Forget, Run, Enabled, Apply;
    ts := EvaluateRuns(cfg, s, r);
    EvaluateAnswers(cfg, s, r);
    var (s1, evaluation) := Evaluate(cfg, s, r);
    if evaluation.Decided? {
      var d := evaluation.decision;
      if !d.allowed {
        DenyEnabled(cfg, s1, r, d);
        RunSnoc(cfg, s, ts, Deny(r, d));
        ts := ts + [Deny(r, d)];
      } else {
        EvaluateNormalizes(cfg, s, r);
        InsideWhenCanonical(s, s1, r);
        var executing := ExecuteRuns(cfg, s1, d.normalized.value, d.permit.value);
        RunAppend(cfg, s, ts, executing);
        ts := ts + executing;
        var (s2, execution) := Execute(cfg, s1, d.normalized.value, d.permit.value);
        if execution.Rejected? {
          var rejecting := RejectionRuns(cfg, s2, r, d.permit.value.payload.sequence, execution.fault, d.ruleId);
          RunAppend(cfg, s, ts, rejecting);
          ts := ts + rejecting;
        }
      }
    }
  }

  // -------------------------------------------------------------- whole runs

  /** What a client, an administrator or the environment may do between calls. */
  datatype Step<E> =
    | Delegate(capability: Capabilities.Capability)
    | Revoke(id: string)
    | Reset
    | Evaluating(request: Request)
    | Executing(request: Request, permit: Permit)
    | Requesting(request: Request)
    | Environment(env: E)

  function Perform<E>(cfg: Config<E>, s: Guardian<E>, step: Step<E>): Guardian<E>
  {
    match step
    case Delegate(capability) =>
      if Stores.Add(s.store, capability).Success? then s.(store := Stores.Add(s.store, capability).value) else s
    case Revoke(id) =>
      if Stores.Revoke(s.store, id).Success? then s.(store := Stores.Revoke(s.store, id).value) else s
    case Reset => s.(store := Stores.ResetUsage(s.store), past := s.past.(charged := []))
    case Evaluating(r) => Evaluate(cfg, s, r).0
    case Executing(r, permit) => Execute(cfg, s, r, permit).0
    case Requesting(r) => ExecuteRequest(cfg, s, r).0
    case Environment(env) => s.(env := env)
  }

  /** The state after the first `n` steps. */
  function After<E>(cfg: Config<E>, start: Start<E>, steps: seq<Step<E>>): Guardian<E>
  {
    if steps == [] then Initial(start)
    else Perform(cfg, After(cfg, start, steps[..|steps|-1]), steps[|steps|-1])
  }

  /** One more step: how a call on the runtime's objects, which does what `Perform` does, moves a reachable state. */
  lemma AfterNext<E>(cfg: Config<E>, start: Start<E>, steps: seq<Step<E>>, step: Step<E>)
    ensures After(cfg, start, steps + [step]) == Perform(cfg, After(cfg, start, steps), step)
  {
    hide Perform;
    assert (steps + [step])[..|steps|] == steps;
  }

  lemma PerformRuns<E>(cfg: Config<E>, s: Guardian<E>, step: Step<E>) returns (ts: seq<Transition<E>>)
    requires ValidConfig(cfg) && s.past.inflight == []
    ensures Run(cfg, s, ts) == Some(Perform(cfg, s, step))
    ensures !step.Reset? ==> ResetUsage !in ts
    ensures !step.Environment? ==> forall i | 0 <= i < |ts| :: !ts[i].ChangeEnvironment?
    ensures Perform(cfg, s, step).past.inflight == []
  {
    match step
    case Delegate(capability) =>
      ts := if Stores.Add(s.store, capability).Success? then [AddCapability(capability)] else [];
      if ts != [] { RunOne(cfg, s, ts[0]); }
    case Revoke(id) =>
      ts := if Stores.Revoke(s.store, id).Success? then [RevokeCapability(id)] else [];
      if ts != [] { RunOne(cfg, s, ts[0]); }
    case Reset => ts := [ResetUsage]; RunOne(cfg, s, ResetUsage);
    case Evaluating(r) => ts := EvaluateRuns(cfg, s, r);
    case Executing(r, permit) => ts := ExecuteRuns(cfg, s, r, permit);
    case Requesting(r) => ts := RequestRuns(cfg, s, r);
    case Environment(env) => ts := [ChangeEnvironment(env)]; RunOne(cfg, s, ts[0]);
  }

  /** Refinement: every reachable state of the runtime is reached by a run of transitions. */
  lemma {:induction false} ReachableByTransitions<E>(cfg: Config<E>, start: Start<E>, steps: seq<Step<E>>)
    returns (ts: seq<Transition<E>>)
    requires ValidConfig(cfg)
    ensures Run(cfg, Initial(start), ts) == Some(After(cfg, start, steps))
    ensures Reset !in steps ==> ResetUsage !in ts
    ensures (forall i | 0 <= i < |steps| :: !steps[i].Environment?) ==>
      forall i | 0 <= i < |ts| :: !ts[i].ChangeEnvironment?
    ensures After(cfg, start, steps).past.inflight == []
  {
    if steps == [] {
      ts := [];
    } else {
      ts := ReachableByTransitions(cfg, start, steps[..|steps|-1]);
      var last := PerformRuns(cfg, After(cfg, start, steps[..|steps|-1]), steps[|steps|-1]);
      RunAppend(cfg, Initial(start), ts, last);
      ts := ts + last;
    }
  }
}
