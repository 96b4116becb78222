/** The domain-neutral sandbox, its hard envelope, and its deliberately weak direct proxy. */
module Sandbox {
  import opened Wrappers
  import opened Values
  import opened Canonical
  import opened Composition
  import opened Types
  import opened Runtime
  import opened Transitions
  import opened Safety
  import opened Theorems
  import Policies

  datatype SandboxState = SandboxState(
    version: int,
    files: map<string, string>,
    secret: string,
    actuator: int,
    network: seq<string>,
    proxied: int)

  const SCHEME: string := "mock://"

  function SnapshotOf(s: SandboxState): Policies.RuntimeState
  {
    Policies.RuntimeState(s.version, map[
      "actuator" := Int(s.actuator),
      "network_calls" := Int(|s.network|),
      "proxy_invocations" := Int(s.proxied)])
  }

  /** `check_invariants`: `None` means satisfied. */
  function Check(s: SandboxState, r: Request): Option<string>
  {
    var value := Lookup(r.Fields(), "value", Null);
    var target := Lookup(r.Fields(), "target", Str(""));
    if r.observedVersion.Some? && r.observedVersion.value != s.version then Some("stale observed state")
    else if r.action == "actuator_set" && !(value.Int? && -10 <= value.n <= 10)
    then Some("actuator command outside hard envelope")
    else if r.action == "network_call" && !(target.Str? && SCHEME <= target.s)
    then Some("external networking is disabled")
    else None
  }

  /** `int(v)`, or the exception it raises: floats truncate toward zero. */
  function ToInt(py: Builtins, v: Value): Result<int, string>
  {
    match v
    case Int(n) => Success(n)
    case Float(x) => Success(if x < 0.0 then -((-x).Floor) else x.Floor)
    case Bool(b) => Success(if b then 1 else 0)
    case Special(kind) => Failure(if kind.NaN? then "ValueError" else "OverflowError")
    case Str(text) =>
      (match py.parseInt(text)
       case Some(n) => Success(n)
       case None => Failure("ValueError"))
    case _ => Failure("TypeError")
  }

  function Done(s: SandboxState, status: string, output: map<string, Value>): (SandboxState, ToolOutcome)
  {
    (s, Returned(ToolResult(true, status, Obj(output), Some(s.version))))
  }

  /** Every command but the proxy call. */
  function Direct(py: Builtins, s: SandboxState, action: string, r: Request): (SandboxState, ToolOutcome)
  {
    var p := r.Fields();
    var next := s.(version := s.version + 1);
    if action == "read_file" then
      Done(s, "read", map["content" := Str(if r.resource in s.files then s.files[r.resource] else "")])
    else if action == "write_file" then
      Done(next.(files := s.files[r.resource := py.show(Lookup(p, "content", Str("")))]), "written",
           map["resource" := Str(r.resource)])
    else if action == "secret_read" then
      Done(s, "secret", map["secret" := Str(s.secret)])
    else if action == "network_call" then
      var target := py.show(Lookup(p, "target", Str("")));
      Done(next.(network := s.network + [target]), "network-mocked", map["target" := Str(target)])
    else if action == "actuator_set" then
      (match ToInt(py, Lookup(p, "value", Int(0)))
       case Success(n) => Done(next.(actuator := n), "actuator-set", map["value" := Int(n)])
       case Failure(error) => (s, Raised(error)))
    else
      (s, Returned(ToolResult(false, "unknown action", Obj(map["action" := Str(action)]), Some(s.version))))
  }

  /** The nested request the weak proxy rebuilds when no nested capability is given. */
  function WeakNested(py: Builtins, r: Request): Option<Request>
  {
    var p := r.Fields();
    var params := Lookup(p, "target_params", Obj(map[]));
    match CanonicalizeResource(py.show(Lookup(p, "target_resource", Str(""))))
    case None => None
    case Some(resource) =>
      Some(Request(r.subject, r.session, "sandbox", py.show(Lookup(p, "target", Str(""))), resource,
                   if params.Obj? then params else Obj(map[]),
                   r.purpose, r.capabilityId, r.nonce + "-nested", None, Obj(map[])))
  }

  /** What the weak proxy reports of its nested action. */
  function ProxiedOutcome(nested: Request, outcome: ToolOutcome): ToolOutcome
  {
    if !outcome.Returned? then outcome
    else
      var output := outcome.result.output;
      Returned(ToolResult(outcome.result.ok, "proxied",
        Obj(map["target" := Str(nested.action)] + (if output.Obj? then output.fields else map[])),
        outcome.result.stateVersion))
  }

  /** `execute`, where a proxy call runs its nested action directly, without the monitor. */
  function Exec(py: Builtins, s: SandboxState, r: Request): (SandboxState, ToolOutcome)
    requires ShowsStrings(py)
    decreases Height(r.params), if Lower(Strip(r.action)) == PROXY_ACTION then 1 else 0
  {
    var action := Lower(Strip(r.action));
    if action != PROXY_ACTION then Direct(py, s, action, r)
    else
      var entered := s.(proxied := s.proxied + 1, version := s.version + 1);
      var rebuilt := if BuildNested(r).Some? then BuildNested(r) else WeakNested(py, r);
      match rebuilt
      case None =>
        (entered, Returned(ToolResult(false, "proxy-invalid-resource",
          Obj(map["target" := Str(py.show(Lookup(r.Fields(), "target", Str(""))))]), Some(entered.version))))
      case Some(nested) =>
        RebuiltIsLighter(py, r, nested);
        var (after, outcome) := Exec(py, entered, nested);
        (after, ProxiedOutcome(nested, outcome))
  }

  /** The weak proxy's own recursion ends too: its nested parameters are smaller, or it is no proxy call. */
  lemma RebuiltIsLighter(py: Builtins, r: Request, nested: Request)
    requires ShowsStrings(py)
    requires Some(nested) == if BuildNested(r).Some? then BuildNested(r) else WeakNested(py, r)
    ensures Height(nested.params) < Height(r.params) ||
      (Height(nested.params) == Height(r.params) && Lower(Strip(nested.action)) != PROXY_ACTION)
  {
    var p := r.Fields();
    if "target_params" in p && p["target_params"].Obj? {
      SubvalueIsLower(r.params, "target_params");
    } else {
      assert nested.params == Obj(map[]);
      EmptyHeight();
      if "target" in p {
        SubvalueIsLower(r.params, "target");
      } else {
        assert nested.action == "";
        assert Lower(Strip("")) == "";
      }
    }
  }

  lemma EmptyHeight()
    ensures Height(Obj(map[])) == 0
  {
    var f: map<string, Value> := map[];
    assert f.Keys == {};
  }

  /** Subject, capability and nonce play no part in what the environment does by itself. */
  lemma {:induction false} ExecIgnoresIdentity(py: Builtins, s: SandboxState, a: Request, b: Request)
    requires ShowsStrings(py)
    requires a.action == b.action && a.resource == b.resource && a.params == b.params
    ensures Exec(py, s, a) == Exec(py, s, b)
    decreases Height(a.params), if Lower(Strip(a.action)) == PROXY_ACTION then 1 else 0
  {
    hide Direct, Strip, Lower, CanonicalizeResource, Height;
    if Lower(Strip(a.action)) == PROXY_ACTION {
      var x := if BuildNested(a).Some? then BuildNested(a) else WeakNested(py, a);
      var y := if BuildNested(b).Some? then BuildNested(b) else WeakNested(py, b);
      if x.Some? {
        RebuiltIsLighter(py, a, x.value);
        hide BuildNested, WeakNested;
        ExecIgnoresIdentity(py, s.(proxied := s.proxied + 1, version := s.version + 1), x.value, y.value);
      }
    } else {
      DirectIgnoresIdentity(py, s, Lower(Strip(a.action)), a, b);
    }
  }

  lemma DirectIgnoresIdentity(py: Builtins, s: SandboxState, action: string, a: Request, b: Request)
    requires a.resource == b.resource && a.params == b.params
    ensures Direct(py, s, action, a) == Direct(py, s, action, b)
  {
  }

  /**
   * The confused deputy that mediation prevents: left to itself, a proxy call runs
   * its target as if the target had been requested directly, whichever nested
   * capability it names, and even if it names none.
   */
  lemma WeakProxyRunsTarget(py: Builtins, s: SandboxState, r: Request, target: Request)
    requires ShowsStrings(py) && Lower(Strip(r.action)) == PROXY_ACTION
    requires var f := r.Fields();
      && "target" in f && f["target"] == Str(target.action)
      && "target_params" in f && f["target_params"] == target.params && target.params.Obj?
      && "target_resource" in f && f["target_resource"].Str?
      && CanonicalizeResource(f["target_resource"].s) == Some(target.resource)
    ensures var (after, outcome) := Exec(py, s.(proxied := s.proxied + 1, version := s.version + 1), target);
      var (reached, reported) := Exec(py, s, r);
      && reached == after
      && (outcome.Returned? ==>
            && reported.Returned? && reported.result.ok == outcome.result.ok && reported.result.status == "proxied"
            && reported.result.stateVersion == outcome.result.stateVersion)
      && (!outcome.Returned? ==> reported == outcome)
  {
    hide Direct, Strip, Lower, CanonicalizeResource, Height;
    var nested := if BuildNested(r).Some? then BuildNested(r) else WeakNested(py, r);
    ExecIgnoresIdentity(py, s.(proxied := s.proxied + 1, version := s.version + 1), nested.value, target);
  }

  /** The sandbox as the tools see it, its state updated in place. */
  class SandboxEnvironment {
    const py: Builtins
    var version: int
    var files: map<string, string>
    var secret: string
    var actuator: int
    var network: seq<string>
    var proxied: int

    constructor (py: Builtins)
      ensures this.py == py
      ensures State() == SandboxState(
        0, map["/tmp/input.txt" := "safe input"], "MOCK-SECRET-NOT-A-REAL-CREDENTIAL", 0, [], 0)
    {
      this.py := py;
      version, actuator, proxied := 0, 0, 0;
      files := map["/tmp/input.txt" := "safe input"];
      secret := "MOCK-SECRET-NOT-A-REAL-CREDENTIAL";
      network := [];
    }

    function State(): SandboxState
      reads this
    {
      SandboxState(version, files, secret, actuator, network, proxied)
    }

    method Execute(r: Request) returns (outcome: ToolOutcome)
      requires ShowsStrings(py)
      modifies this
      ensures (State(), outcome) == Exec(py, old(State()), r)
      decreases Height(r.params), if Lower(Strip(r.action)) == PROXY_ACTION then 1 else 0
    {
      var action := Lower(Strip(r.action));
      if action == PROXY_ACTION {
        outcome := ExecuteProxy(r);
      } else {
        outcome := ExecuteDirect(action, r);
      }
    }

    method ExecuteDirect(action: string, r: Request) returns (outcome: ToolOutcome)
      modifies this
      ensures (State(), outcome) == Direct(py, old(State()), action, r)
    {
      var p := r.Fields();
      if action == "read_file" {
        var content := if r.resource in files then files[r.resource] else "";
        return Returned(ToolResult(true, "read", Obj(map["content" := Str(content)]), Some(version)));
      }
      if action == "write_file" {
        files := files[r.resource := py.show(Lookup(p, "content", Str("")))];
        version := version + 1;
        return Returned(ToolResult(true, "written", Obj(map["resource" := Str(r.resource)]), Some(version)));
      }
      if action == "secret_read" {
        return Returned(ToolResult(true, "secret", Obj(map["secret" := Str(secret)]), Some(version)));
      }
      if action == "network_call" {
        var target := py.show(Lookup(p, "target", Str("")));
        network := network + [target];
        version := version + 1;
        return Returned(ToolResult(true, "network-mocked", Obj(map["target" := Str(target)]), Some(version)));
      }
      if action == "actuator_set" {
        var n := ToInt(py, Lookup(p, "value", Int(0)));
        if n.Failure? { return Raised(n.error); }
        actuator := n.value;
        version := version + 1;
        return Returned(ToolResult(true, "actuator-set", Obj(map["value" := Int(actuator)]), Some(version)));
      }
      outcome := Returned(ToolResult(false, "unknown action", Obj(map["action" := Str(action)]), Some(version)));
    }

    method ExecuteProxy(r: Request) returns (outcome: ToolOutcome)
      requires ShowsStrings(py) && Lower(Strip(r.action)) == PROXY_ACTION
      modifies this
      ensures (State(), outcome) == Exec(py, old(State()), r)
      decreases Height(r.params), 1, 0
    {
      hide Direct, Strip, Lower, BuildNested, WeakNested, Height, ProxiedOutcome;
      proxied := proxied + 1;
      version := version + 1;
      var nested := BuildNested(r);
      if nested.None? {
        nested := WeakNested(py, r);
      }
      if nested.None? {
        var target := py.show(Lookup(r.Fields(), "target", Str("")));
        return Returned(ToolResult(false, "proxy-invalid-resource", Obj(map["target" := Str(target)]), Some(version)));
      }
      RebuiltIsLighter(py, r, nested.value);
      outcome := Execute(nested.value);
      outcome := ProxiedOutcome(nested.value, outcome);
    }
  }

  // ------------------------------------------------------------ hard envelope

  ghost predicate IsSandbox(cfg: Config<SandboxState>, py: Builtins)
  {
    && ShowsStrings(py)
    && (forall s, r :: cfg.check(s, r) == Check(s, r))
    && (forall s :: cfg.snapshot(s) == SnapshotOf(s))
    && (forall s, r :: cfg.exec(s, r) == Exec(py, s, r))
    && cfg.composes
  }

  /** Actuator and network stay inside the envelope, and no proxy has run unmediated. */
  predicate Enveloped(s: SandboxState)
  {
    && -10 <= s.actuator <= 10
    && (forall i | 0 <= i < |s.network| :: SCHEME <= s.network[i])
    && s.proxied == 0
  }

  lemma CheckedDirectKeepsEnvelope(py: Builtins, s: SandboxState, r: Request)
    requires ShowsStrings(py) && Check(s, r).None? && Enveloped(s)
    ensures Enveloped(Direct(py, s, r.action, r).0)
  {
    hide SnapshotOf;
  }

  lemma CheckedExecKeepsEnvelope(py: Builtins, s: SandboxState, r: Request)
    requires ShowsStrings(py)
    requires Canonicalize(r) == Some(r) && r.action != PROXY_ACTION && Check(s, r).None? && Enveloped(s)
    ensures Enveloped(Exec(py, s, r).0)
  {
    CanonicalAction(r);
    hide Canonicalize, Lower, Strip, Direct, Check, Enveloped;
    CheckedDirectKeepsEnvelope(py, s, r);
  }

  lemma BurnKeepsEnvelope(cfg: Config<SandboxState>, py: Builtins, s: Guardian<SandboxState>, i: nat)
    requires IsSandbox(cfg, py) && cfg.mediate && BurnInv(cfg, s) && i < |s.past.burns|
    requires s.past.burns[i].direct && Enveloped(s.past.burns[i].env)
    ensures Enveloped(cfg.exec(s.past.burns[i].env, s.past.burns[i].request).0)
  {
    var b := s.past.burns[i];
    assert BurnSafe(cfg, b);
    hide BurnInv, AuthorizedAtBurn, Canonicalize, Check, Enveloped, Exec;
    CheckedExecKeepsEnvelope(py, b.env, b.request);
  }

  lemma {:induction false} ReplayKeepsEnvelope(cfg: Config<SandboxState>, py: Builtins, env: SandboxState,
                                               s: Guardian<SandboxState>, n: nat)
    requires IsSandbox(cfg, py) && cfg.mediate && BurnInv(cfg, s) && ReplayInv(cfg, env, s) && n <= |s.past.burns|
    requires Enveloped(env)
    ensures Enveloped(Replay(cfg, env, s.past.burns[..n]))
  {
    hide BurnInv, ReplayInv, IsSandbox, Enveloped;
    if n > 0 {
      EnvironmentAt(cfg, env, s, n - 1);
      ReplayNext(cfg, env, s.past.burns, n - 1);
      ReplayKeepsEnvelope(cfg, py, env, s, n - 1);
      if s.past.burns[n-1].direct { BurnKeepsEnvelope(cfg, py, s, n - 1); }
    }
  }

  /**
   * With mediation on, no run of requests, however its proxy calls nest, takes
   * the sandbox outside its hard envelope or through its unmediated proxy.
   */
  lemma MediatedSandboxStaysEnveloped(cfg: Config<SandboxState>, py: Builtins, start: Start<SandboxState>,
                                      steps: seq<Step<SandboxState>>)
    requires ValidConfig(cfg) && ValidStart(start) && IsSandbox(cfg, py) && cfg.mediate && Enveloped(start.env)
    requires forall i | 0 <= i < |steps| :: !steps[i].Environment?
    ensures Enveloped(After(cfg, start, steps).env)
  {
    hide After, StoreInv, IssuedInv, UsageInv, AuditInv, NestInv, OrderInv, BurnInv, PendingInv, ClockInv, TermsInv,
         EventsInv, NestedInv, IsSandbox, Enveloped, ValidStart;
    ReachableInv(cfg, start, steps);
    EnvironmentIsReplay(cfg, start, steps);
    var s := After(cfg, start, steps);
    assert s.past.burns[..|s.past.burns|] == s.past.burns;
    ReplayKeepsEnvelope(cfg, py, start.env, s, |s.past.burns|);
  }
}
