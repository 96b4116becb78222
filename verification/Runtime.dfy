/**
 * The reference monitor and its tool gateway as functions on one value: what
 * `evaluate`, `gateway.execute` and `execute_request` answer, and the state they
 * leave.  The shared reentrant lock makes each call atomic.
 */
module Runtime {
  import opened Wrappers
  import opened Values
  import opened Canonical
  import opened Composition
  import opened Types
  import Stores
  import Policies
  import Evidence

  /** How a call of `environment.execute` ends. */
  datatype ToolOutcome =
    | Returned(result: ToolResult)
    | NotAResult
    | Raised(error: string)
    | Interrupted(error: string)

  /**
   * Everything fixed at construction.  `E` is the state of an arbitrary
   * environment; `clock` gives the reading of each successive call, in any order.
   */
  datatype Config<!E> = Config(
    policy: Policies.Policy,
    ttl: int,
    manifest: string,
    mediate: bool,
    composes: bool,
    crypto: Evidence.Crypto,
    signPermit: PermitPayload -> string,
    acceptsPermit: (PermitPayload, string) -> bool,
    clock: nat -> int,
    describe: Reason -> string,
    snapshot: E -> Policies.RuntimeState,
    check: (E, Request) -> Option<string>,
    exec: (E, Request) -> (E, ToolOutcome))

  ghost predicate ValidConfig<E>(cfg: Config<E>)
  {
    && cfg.ttl > 0
    && Policies.ValidPolicy(cfg.policy)
    && forall p :: cfg.acceptsPermit(p, cfg.signPermit(p))
  }

  /**
   * One burned permit, with the state the gateway saw when it burned it: whether
   * the environment was entered, and the permit sequence of the enclosing
   * execution, if it was nested.
   */
  datatype Burn<E> = Burn(
    payload: PermitPayload,
    request: Request,
    now: int,
    store: Stores.Store,
    env: E,
    direct: bool,
    outer: Option<int>,
    level: nat)

  /** Where in the log an execution is recorded, and the result it is recorded with. */
  datatype Audited = Audited(at: nat, result: ToolResult)

  /**
   * What has happened so far.  `issued` is also the memory of the idealised
   * signing key: a permit signature is good only on an issued payload.  `charged`
   * names the capability of each reservation since the last reset, `submitted` the
   * request each permit was asked for with, and `audited` maps the sequence of each
   * finished execution to its record.
   */
  datatype History<E> = History(
    issued: seq<PermitPayload>,
    submitted: seq<Request>,
    charged: seq<string>,
    burns: seq<Burn<E>>,
    inflight: seq<Burn<E>>,
    audited: map<int, Audited>)

  datatype Guardian<E> = Guardian(
    store: Stores.Store,
    usage: Policies.Usage,
    sequence: nat,
    pending: map<int, (int, Request)>,
    usedSequences: set<int>,
    usedPermits: set<Permit>,
    executions: nat,
    events: seq<Evidence.Event>,
    env: E,
    ticks: nat,
    past: History<E>)

  /** Where a run begins: an environment, and a store that may be populated and already charged. */
  datatype Start<E> = Start(env: E, store: Stores.Store, charged: seq<string>)

  ghost predicate ValidStart<E>(start: Start<E>)
  {
    Stores.WellFormed(start.store) && Stores.Accounted(start.store, start.charged)
  }

  function Initial<E>(start: Start<E>): Guardian<E>
  {
    Guardian(start.store, Policies.NO_USAGE, 0, map[], {}, {}, 0, [], start.env, 0,
             History([], [], start.charged, [], [], map[]))
  }

  // --------------------------------------------------------------- evaluation

  datatype Evaluation = Decided(decision: Decision) | Faulted

  function Refuse(reason: Reason, ruleId: Option<string>, normalized: Option<Request>): Decision
  {
    Decision(false, reason, ruleId, None, normalized)
  }

  function Unexpired(pending: map<int, (int, Request)>, now: int): map<int, (int, Request)>
  {
    map k | k in pending && now < pending[k].0 :: pending[k]
  }

  function Min(a: int, b: int): int { if a < b then a else b }

  /** The permit payload for the canonical request `c`, authorized by `ruleId` at `now`. */
  function NewPayload<E>(cfg: Config<E>, s: Guardian<E>, c: Request, now: int, ruleId: Option<string>): PermitPayload
    requires c.capabilityId in s.store.caps
  {
    var deadline := Policies.Deadline(cfg.policy, ruleId);
    var byCapability := Min(now + cfg.ttl, s.store.caps[c.capabilityId].expiresAt);
    PermitPayload(
      c, cfg.policy.version, c.capabilityId, c.subject, c.session, now,
      if deadline.Some? then Min(byCapability, deadline.value) else byCapability,
      s.sequence + 1, cfg.snapshot(s.env).version, ruleId, cfg.manifest)
  }

  /** All checks of `evaluate` pass for `r` at `now`. */
  predicate Grantable<E>(cfg: Config<E>, s: Guardian<E>, r: Request, now: int)
  {
    && Canonicalize(r).Some?
    && var c := Canonicalize(r).value;
    && Stores.Validate(s.store, c, now).Success?
    && var verdict := Policies.Evaluate(cfg.policy, c, cfg.snapshot(s.env), now, s.usage);
    && verdict.Allowed?
    && cfg.check(s.env, c).None?
    && Policies.Record(cfg.policy, verdict.ruleId, c, now, s.usage).Success?
  }

  function GrantedRule<E>(cfg: Config<E>, s: Guardian<E>, c: Request, now: int): Option<string>
  {
    Policies.Evaluate(cfg.policy, c, cfg.snapshot(s.env), now, s.usage).ruleId
  }

  function GrantedPayload<E>(cfg: Config<E>, s: Guardian<E>, r: Request, now: int): PermitPayload
    requires Grantable(cfg, s, r, now)
  {
    var c := Canonicalize(r).value;
    NewPayload(cfg, s, c, now, GrantedRule(cfg, s, c, now))
  }

  /** Reserve the capability lineage, record the authorization, and issue the permit. */
  function Granted<E>(cfg: Config<E>, s: Guardian<E>, r: Request, now: int): Guardian<E>
    requires Grantable(cfg, s, r, now)
  {
    var c := Canonicalize(r).value;
    var ruleId := GrantedRule(cfg, s, c, now);
    var payload := GrantedPayload(cfg, s, r, now);
    s.(
      store := Stores.Consume(s.store, Stores.Validate(s.store, c, now).value, c.nonce),
      usage := Policies.Record(cfg.policy, ruleId, c, now, s.usage).value,
      sequence := s.sequence + 1,
      pending := s.pending[s.sequence + 1 := (payload.expiresAt, c.(resource := r.resource))],
      past := s.past.(
        issued := s.past.issued + [payload],
        submitted := s.past.submitted + [r],
        charged := s.past.charged + [c.capabilityId]))
  }

  /** The end of `evaluate`: reserve, record, issue; a failing record faults with the lineage reserved. */
  function Granting<E>(cfg: Config<E>, s: Guardian<E>, r: Request, c: Request, now: int, ruleId: Option<string>)
    : (x: (Guardian<E>, Evaluation))
    requires Canonicalize(r) == Some(c) && Stores.Validate(s.store, c, now).Success?
    requires Policies.Evaluate(cfg.policy, c, cfg.snapshot(s.env), now, s.usage) == Policies.Allowed(ruleId)
    requires cfg.check(s.env, c).None?
    ensures x.0.past.inflight == s.past.inflight
    ensures x.1.Decided? && x.1.decision.allowed ==> x.1.decision.permit.Some? && x.1.decision.normalized.Some?
  {
    match Policies.Record(cfg.policy, ruleId, c, now, s.usage)
    case Failure(_) =>
      (s.(store := Stores.Consume(s.store, Stores.Validate(s.store, c, now).value, c.nonce)), Faulted)
    case Success(_) =>
      var payload := GrantedPayload(cfg, s, r, now);
      var permit := Permit(payload, cfg.signPermit(payload));
      (Granted(cfg, s, r, now), Decided(Decision(true, Authorized, ruleId, Some(permit), Some(c))))
  }

  /** `evaluate`; `Faulted` stands for the ValueError of a clock that runs negative. */
  function Evaluate<E>(cfg: Config<E>, s: Guardian<E>, r: Request): (x: (Guardian<E>, Evaluation))
    ensures x.0.past.inflight == s.past.inflight
    ensures x.1.Decided? && x.1.decision.allowed ==> x.1.decision.permit.Some? && x.1.decision.normalized.Some?
  {
    var now := cfg.clock(s.ticks);
    var ticked := s.(ticks := s.ticks + 1);
    if now < 0 then (ticked, Faulted)
    else
      var s1 := ticked.(pending := Unexpired(s.pending, now));
      match Canonicalize(r)
      case None => (s1, Decided(Refuse(NotCanonical, None, None)))
      case Some(c) =>
        match Stores.Validate(s1.store, c, now)
        case Failure(why) => (s1, Decided(Refuse(CapabilityRefused(why), None, Some(c))))
        case Success(_) =>
          match Policies.Evaluate(cfg.policy, c, cfg.snapshot(s1.env), now, s1.usage)
          case Refused(why, ruleId) => (s1, Decided(Refuse(PolicyRefused(why), ruleId, Some(c))))
          case Allowed(ruleId) =>
            match cfg.check(s1.env, c)
            case Some(message) => (s1, Decided(Refuse(InvariantRefused(message), ruleId, Some(c))))
            case None => Granting(cfg, s1, r, c, now, ruleId)
  }

  // ---------------------------------------------------------------- recording

  function AppendEvent<E>(cfg: Config<E>, s: Guardian<E>, r: Request, decision: Decision, policyVersion: string,
                          result: Option<ToolResult>): Guardian<E>
  {
    s.(
      events := s.events + [Evidence.NextEvent(
        cfg.crypto, cfg.manifest, s.events, cfg.clock(s.ticks), r, decision, policyVersion, result)],
      ticks := s.ticks + 1)
  }

  /** `_record_nonexecution` */
  function RecordDenial<E>(cfg: Config<E>, s: Guardian<E>, r: Request, decision: Decision): Guardian<E>
  {
    AppendEvent(cfg, s, r, decision, cfg.policy.version, None)
  }

  function Original<E>(s: Guardian<E>, c: Request, permit: Permit): Request
  {
    if permit.payload.sequence in s.pending then s.pending[permit.payload.sequence].1 else c
  }

  function Forget<E>(s: Guardian<E>, sequence: int): Guardian<E>
  {
    s.(pending := map k | k in s.pending && k != sequence :: s.pending[k])
  }

  /** `_record_executed_action`: closes the innermost execution in flight. */
  function RecordExecution<E>(cfg: Config<E>, s: Guardian<E>, c: Request, permit: Permit, result: ToolResult)
    : Guardian<E>
    requires s.past.inflight != []
  {
    var decision := Decision(true, Authorized, permit.payload.ruleId, Some(permit), Some(c));
    var recorded := AppendEvent(cfg, Forget(s, permit.payload.sequence), Original(s, c, permit), decision,
                                permit.payload.policyVersion, Some(result));
    recorded.(past := s.past.(
      inflight := s.past.inflight[..|s.past.inflight|-1],
      audited := s.past.audited[permit.payload.sequence := Audited(|s.events|, result)]))
  }

  // ------------------------------------------------------------------ gateway

  /** What binds a permit to the canonical request, the signer and this runtime. */
  function BindingFault<E>(cfg: Config<E>, signed: seq<PermitPayload>, c: Request, permit: Permit): Option<PermitFault>
  {
    var p := permit.payload;
    if p.request != c then Some(HashMismatch)
    else if p !in signed || !cfg.acceptsPermit(p, permit.signature) then Some(BadSignature)
    else if p.capabilityId != c.capabilityId then Some(CapabilityMismatch)
    else if p.subject != c.subject || p.session != c.session then Some(IdentityMismatch)
    else if p.policyVersion != cfg.policy.version then Some(PolicyVersionMismatch)
    else if p.manifest != cfg.manifest then Some(ManifestMismatch)
    else None
  }

  /** The checks of `gateway.execute` that come before it reads the clock. */
  function StaticFault<E>(cfg: Config<E>, s: Guardian<E>, r: Request, permit: Permit): Option<PermitFault>
  {
    match Canonicalize(r)
    case None => Some(InvalidRequest)
    case Some(c) => BindingFault(cfg, s.past.issued, c, permit)
  }

  /** The checks of `gateway.execute` after it has read the clock, in order. */
  function DynamicFault<E>(cfg: Config<E>, s: Guardian<E>, c: Request, permit: Permit, now: int): Option<PermitFault>
  {
    var p := permit.payload;
    if now < 0 then Some(BadClock)
    else if p.issuedAt > now then Some(IssuedInFuture)
    else if now >= p.expiresAt then Some(PermitExpired)
    else if p.sequence in s.usedSequences || permit in s.usedPermits then Some(Replayed)
    else
      match Stores.Status(s.store, p.capabilityId, now)
      case Some(why) => Some(CapabilityInactive(why))
      case None =>
        var state := cfg.snapshot(s.env);
        if state.version != p.stateVersion then Some(StateChanged)
        else
          match Policies.Revalidate(cfg.policy, c, state, now, p.ruleId)
          case Some(rule) => Some(PolicyRestricts(rule))
          case None =>
            match cfg.check(s.env, c)
            case Some(message) => Some(InvariantFails(message))
            case None => None
  }

  predicate IsDirect<E>(cfg: Config<E>, c: Request)
  {
    !(cfg.mediate && c.action == PROXY_ACTION)
  }

  /** The record of burning `permit` now. */
  function NewBurn<E>(cfg: Config<E>, s: Guardian<E>, c: Request, permit: Permit, now: int): Burn<E>
  {
    var depth := |s.past.inflight|;
    Burn(permit.payload, c, now, s.store, s.env, IsDirect(cfg, c),
         if depth == 0 then None else Some(s.past.inflight[depth-1].payload.sequence), depth)
  }

  /** Burn the permit and, unless the action is composed, cross into the environment. */
  function BurnPermit<E>(cfg: Config<E>, s: Guardian<E>, c: Request, permit: Permit, now: int): Guardian<E>
  {
    var burn := NewBurn(cfg, s, c, permit, now);
    s.(
      usedSequences := s.usedSequences + {permit.payload.sequence},
      usedPermits := s.usedPermits + {permit},
      executions := s.executions + 1,
      env := if IsDirect(cfg, c) then cfg.exec(s.env, c).0 else s.env,
      past := s.past.(burns := s.past.burns + [burn], inflight := s.past.inflight + [burn]))
  }

  const MAX_OUTPUT_DEPTH: nat := 64

  /** `_snapshot_result`; a `Failure` names the exception type. */
  function SnapshotResult(r: ToolResult): Result<ToolResult, string>
  {
    if r.status == "" then Failure("ValueError")
    else if !r.output.Obj? then Failure("ValueError")
    else if r.stateVersion.Some? && r.stateVersion.value < 0 then Failure("ValueError")
    else
      match Normalize(r.output, 0, MAX_OUTPUT_DEPTH)
      case None => Failure("CanonicalizationError")
      case Some(output) => Success(r.(output := output))
  }

  /** `_failed_execution` */
  function FailedResult<E>(cfg: Config<E>, env: E, status: string, error: string): ToolResult
  {
    ToolResult(false, status, Obj(map["error_type" := Str(error)]), Some(cfg.snapshot(env).version))
  }

  /** The auditable result of whatever the tool did. */
  function FinalResult<E>(cfg: Config<E>, env: E, outcome: ToolOutcome): ToolResult
  {
    match outcome
    case Returned(result) =>
      (match SnapshotResult(result)
       case Success(snapshot) => snapshot
       case Failure(error) => FailedResult(cfg, env, "invalid-tool-result", error))
    case NotAResult => FailedResult(cfg, env, "invalid-tool-result", "TypeError")
    case Raised(error) => FailedResult(cfg, env, "tool-error", error)
    case Interrupted(error) => FailedResult(cfg, env, "tool-interrupted", error)
  }

  /** The result of a permit that went straight into the environment, as a function of its burn. */
  function DirectResult<E>(cfg: Config<E>, b: Burn<E>): ToolResult
  {
    var (env, outcome) := cfg.exec(b.env, b.request);
    FinalResult(cfg, env, outcome)
  }

  /** A result fit to be relayed: a status, and an output that is canonical JSON. */
  predicate Presentable(r: ToolResult)
  {
    r.status != "" && r.output.Obj? && Normalize(r.output, 0, MAX_OUTPUT_DEPTH) == Some(r.output)
  }

  lemma FinalResultPresentable<E>(cfg: Config<E>, env: E, outcome: ToolOutcome)
    ensures Presentable(FinalResult(cfg, env, outcome))
  {
    if outcome.Returned? && SnapshotResult(outcome.result).Success? {
      NormalizeIdempotent(outcome.result.output, 0, MAX_OUTPUT_DEPTH, SnapshotResult(outcome.result).value.output);
    } else {
      FlatIsCanonical(FinalResult(cfg, env, outcome).output);
    }
  }

  /** An object of scalars, as every tool of the simulators answers with. */
  predicate FlatOutput(v: Value)
  {
    && v.Obj? && "" !in v.fields
    && forall k | k in v.fields ::
         v.fields[k].Str? || v.fields[k].Int? || v.fields[k].Float? || v.fields[k].Bool? || v.fields[k].Null?
  }

  lemma FlatIsCanonical(v: Value)
    requires FlatOutput(v)
    ensures Normalize(v, 0, MAX_OUTPUT_DEPTH) == Some(v)
  {
    var f := v.fields;
    var g := map k | k in f :: Normalize(f[k], 1, MAX_OUTPUT_DEPTH).value;
    assert Normalize(Obj(f), 0, MAX_OUTPUT_DEPTH) == Some(Obj(g));
    assert g == f;
  }

  /** Such an answer is recorded as it is. */
  lemma FlatIsRecorded<E>(cfg: Config<E>, b: Burn<E>)
    requires var outcome := cfg.exec(b.env, b.request).1;
      && outcome.Returned? && outcome.result.status != "" && FlatOutput(outcome.result.output)
      && outcome.result.stateVersion.Some? && outcome.result.stateVersion.value >= 0
    ensures Returned(DirectResult(cfg, b)) == cfg.exec(b.env, b.request).1
  {
    FlatIsCanonical(cfg.exec(b.env, b.request).1.result.output);
    hide Normalize, FlatOutput;
  }

  /** The last event of the log is the record of an execution with this result. */
  ghost predicate LastAudited<E>(s: Guardian<E>, result: ToolResult)
  {
    && Presentable(result)
    && exists n :: n in s.past.audited && s.past.audited[n].result == result && s.past.audited[n].at + 1 == |s.events|
  }

  /** The last event of the log is a denial with this reason. */
  ghost predicate LastDenied<E>(s: Guardian<E>, reason: Reason)
  {
    && s.events != []
    && var e := s.events[|s.events|-1].payload;
       !e.allowed && e.reason == reason
  }

  datatype Execution = Rejected(fault: PermitFault) | Completed(result: ToolResult) | Aborted(error: string)

  /** Record the finished attempt and report it. */
  function Settle<E>(cfg: Config<E>, s: Guardian<E>, c: Request, permit: Permit, outcome: ToolOutcome)
    : (x: (Guardian<E>, Execution))
    requires s.past.inflight != []
    ensures x.0.past.inflight == s.past.inflight[..|s.past.inflight|-1]
    ensures x.1.Completed? ==> LastAudited(x.0, x.1.result)
  {
    assert permit.payload.sequence in RecordExecution(cfg, s, c, permit, FinalResult(cfg, s.env, outcome)).past.audited;
    FinalResultPresentable(cfg, s.env, outcome);
    var result := FinalResult(cfg, s.env, outcome);
    (RecordExecution(cfg, s, c, permit, result),
     if outcome.Interrupted? then Aborted(outcome.error) else Completed(result))
  }

  /** The outer result of a composed call, built from the nested one. */
  function Proxied(c: Request, nested: ToolResult): ToolResult
  {
    ToolResult(
      nested.ok,
      if nested.ok then "proxied-mediated"
      else if nested.status == "nested-authorization-denied" then "proxy-nested-denied"
      else "proxy-nested-failed",
      Obj(map["target" := Lookup(c.Fields(), "target", Str(""))] +
          (if nested.output.Obj? then nested.output.fields else map[])),
      nested.stateVersion)
  }

  datatype Reply =
    | Answered(decision: Decision, result: Option<ToolResult>)
    | Crashed
    | Interrupt(error: string)

  /** A nested denial as a tool result. */
  function DenialResult<E>(cfg: Config<E>, env: E, reason: Reason): ToolResult
  {
    ToolResult(
      false, "nested-authorization-denied", Obj(map["reason" := Str(cfg.describe(reason))]),
      Some(cfg.snapshot(env).version))
  }

  /** What `_execute_nested_request` hands back for a nested reply: a denial is a failed result. */
  function InnerOutcome<E>(cfg: Config<E>, env: E, reply: Reply): ToolOutcome
  {
    match reply
    case Crashed => Raised("ValueError")
    case Interrupt(error) => Interrupted(error)
    case Answered(decision, result) =>
      if decision.allowed && result.Some? then Returned(result.value)
      else Returned(DenialResult(cfg, env, decision.reason))
  }

  /** The outer tool's outcome: the gateway wraps whatever result the nested call returned. */
  function Wrapped(c: Request, inner: ToolOutcome): ToolOutcome
  {
    if inner.Returned? then Returned(Proxied(c, inner.result)) else inner
  }

  /** What a nested reply becomes: the wrapped result of the record just made, the wrapped denial, or an error. */
  ghost predicate NestedEnd<E>(cfg: Config<E>, s: Guardian<E>, c: Request, outcome: ToolOutcome)
  {
    match outcome
    case Returned(result) =>
      || (exists inner :: LastAudited(s, inner) && result == Proxied(c, inner))
      || (exists reason :: LastDenied(s, reason) && result == Proxied(c, DenialResult(cfg, s.env, reason)))
    case NotAResult => false
    case Raised(_) => true
    case Interrupted(_) => true
  }

  lemma WrappedEnd<E>(cfg: Config<E>, s: Guardian<E>, c: Request, reply: Reply)
    requires reply.Answered? ==>
      if reply.result.Some? then reply.decision.allowed && LastAudited(s, reply.result.value)
      else !reply.decision.allowed && LastDenied(s, reply.decision.reason)
    ensures NestedEnd(cfg, s, c, Wrapped(c, InnerOutcome(cfg, s.env, reply)))
  {
    hide LastAudited, LastDenied, Proxied, DenialResult;
  }

  lemma DenialIsLast<E>(cfg: Config<E>, s: Guardian<E>, r: Request, decision: Decision)
    requires !decision.allowed
    ensures LastDenied(RecordDenial(cfg, s, r, decision), decision.reason)
  {
  }

  // -------------------------------------------------------- mutual recursion

  /** `gateway.execute` */
  function Execute<E>(cfg: Config<E>, s: Guardian<E>, r: Request, permit: Permit): (x: (Guardian<E>, Execution))
    ensures x.0.past.inflight == s.past.inflight
    ensures x.1.Completed? ==> LastAudited(x.0, x.1.result)
    decreases Weight(r), 2
  {
    var early := StaticFault(cfg, s, r, permit);
    if early.Some? then (s, Rejected(early.value))
    else
      var c := Canonicalize(r).value;
      var now := cfg.clock(s.ticks);
      var s1 := s.(ticks := s.ticks + 1);
      var late := DynamicFault(cfg, s1, c, permit, now);
      if late.Some? then (s1, Rejected(late.value))
      else
        CanonicalWeight(r);
        CrossBoundary(cfg, s1, c, permit, now)
  }

  /** `gateway.execute` past its checks: burn, run the tool or the nested action, record. */
  function CrossBoundary<E>(cfg: Config<E>, s: Guardian<E>, c: Request, permit: Permit, now: int)
    : (x: (Guardian<E>, Execution))
    requires Canonicalize(c) == Some(c)
    ensures x.0.past.inflight == s.past.inflight
    ensures x.1.Completed? ==> LastAudited(x.0, x.1.result)
    decreases Weight(c), 1
  {
    var burned := BurnPermit(cfg, s, c, permit, now);
    if IsDirect(cfg, c) then
      Settle(cfg, burned, c, permit, cfg.exec(s.env, c).1)
    else
      var (after, outcome) := ExecuteNested(cfg, burned, c);
      Settle(cfg, after, c, permit, outcome)
  }

  /** `_execute_nested`, through the monitor again. */
  function ExecuteNested<E>(cfg: Config<E>, s: Guardian<E>, c: Request): (x: (Guardian<E>, ToolOutcome))
    requires Canonicalize(c) == Some(c)
    ensures x.0.past.inflight == s.past.inflight
    ensures NestedEnd(cfg, x.0, c, x.1)
    decreases Weight(c), 0
  {
    if !cfg.composes || BuildNested(c).None? then (s, Raised("PermitError"))
    else
      NestedIsLighter(c);
      var (s1, reply) := ExecuteRequest(cfg, s, BuildNested(c).value);
      WrappedEnd(cfg, s1, c, reply);
      (s1, Wrapped(c, InnerOutcome(cfg, s1.env, reply)))
  }

  /** `execute_request` */
  function ExecuteRequest<E>(cfg: Config<E>, s: Guardian<E>, r: Request): (x: (Guardian<E>, Reply))
    ensures x.0.past.inflight == s.past.inflight
    ensures x.1.Answered? ==>
      if x.1.result.Some? then x.1.decision.allowed && LastAudited(x.0, x.1.result.value)
      else !x.1.decision.allowed && LastDenied(x.0, x.1.decision.reason)
    decreases Weight(r), 3
  {
    var (s1, evaluation) := Evaluate(cfg, s, r);
    if evaluation.Faulted? then (s1, Crashed)
    else
      var d := evaluation.decision;
      if !d.allowed || d.permit.None? || d.normalized.None? then
        DenialIsLast(cfg, s1, r, d);
        (RecordDenial(cfg, s1, r, d), Answered(d, None))
      else
        EvaluateNormalizes(cfg, s, r);
        var (s2, execution) := Execute(cfg, s1, d.normalized.value, d.permit.value);
        match execution
        case Completed(result) => (s2, Answered(d, Some(result)))
        case Aborted(error) => (s2, Interrupt(error))
        case Rejected(fault) =>
          var rejected := Refuse(PermitRejected(fault), d.ruleId, d.normalized);
          DenialIsLast(cfg, Forget(s2, d.permit.value.payload.sequence), r, rejected);
          (RecordDenial(cfg, Forget(s2, d.permit.value.payload.sequence), r, rejected), Answered(rejected, None))
  }

  lemma EvaluateNormalizes<E>(cfg: Config<E>, s: Guardian<E>, r: Request)
    ensures var (_, evaluation) := Evaluate(cfg, s, r);
      evaluation.Decided? && evaluation.decision.normalized.Some? ==>
        && Canonicalize(r) == evaluation.decision.normalized
        && Weight(evaluation.decision.normalized.value) == Weight(r)
  {
    hide Canonicalize, Weight, Stores.Validate, Policies.Evaluate, Policies.Record;
    if Canonicalize(r).Some? { CanonicalWeight(r); }
  }
}
