/** The spacecraft-like simulator: hard invariants and the effect of each command. */
module Mission {
  import opened Wrappers
  import opened Values
  import opened Canonical
  import opened Types
  import opened Runtime
  import opened Composition
  import Policies

  datatype MissionState = MissionState(
    version: int,
    mode: string,
    power: real,
    thermal: real,
    comms: bool,
    pointing: real,
    deltaV: real,
    software: int,
    channelOpen: bool,
    scheduled: seq<(Value, Value)>)

  const MAX_DELTA_V: real := 5.0

  function Abs(x: real): real { if x < 0.0 then -x else x }

  function SnapshotOf(s: MissionState): Policies.RuntimeState
  {
    Policies.RuntimeState(s.version, map[
      "mode" := Str(s.mode),
      "power_allocated" := Float(s.power),
      "thermal_c" := Float(s.thermal),
      "comms_available" := Bool(s.comms),
      "payload_pointing_deg" := Float(s.pointing),
      "cumulative_delta_v" := Float(s.deltaV),
      "software_version" := Int(s.software),
      "restricted_channel_open" := Bool(s.channelOpen),
      "scheduled_count" := Int(|s.scheduled|)])
  }

  function Param(r: Request, key: string): Value
  {
    Lookup(r.Fields(), key, Null)
  }

  /** `check_invariants`: `None` means satisfied. */
  function Check(s: MissionState, r: Request): Option<string>
  {
    if r.observedVersion.Some? && r.observedVersion.value != s.version then Some("stale observed state")
    else if r.action == "maneuver" then
      var dv := Param(r, "delta_v");
      if !IsNumber(dv) then Some("maneuver delta_v must be numeric")
      else if Abs(Number(dv)) > MAX_DELTA_V then Some("maneuver exceeds hard delta-v envelope")
      else if s.mode == "safe" then Some("maneuver prohibited in safe mode")
      else if !s.comms then Some("maneuver prohibited during communications loss")
      else None
    else if r.action == "point_payload" then
      var angle := Param(r, "angle_deg");
      if !IsNumber(angle) || Abs(Number(angle)) > 30.0 then Some("payload pointing exceeds hard envelope")
      else if s.mode == "safe" then Some("payload pointing prohibited in safe mode")
      else None
    else if r.action == "change_power" then
      var allocation := Param(r, "allocation");
      if !IsNumber(allocation) || !(0.0 <= Number(allocation) <= 90.0)
      then Some("power allocation outside hard envelope")
      else if s.thermal >= 80.0 && Number(allocation) > s.power then Some("thermal state prohibits increasing power")
      else None
    else if r.action == "modify_software" then
      if Param(r, "approval") != Str("signed-release") then Some("software update lacks signed release approval")
      else if s.mode != "safe" then Some("software update requires safe mode")
      else None
    else if r.action == "change_mode" then
      var target := Param(r, "mode");
      if target != Str("nominal") && target != Str("safe") then Some("unknown mission mode")
      else if s.mode == "safe" && target == Str("nominal") && Param(r, "override") != Str("mission-director")
      then Some("safe mode exit requires mission-director authority")
      else None
    else if r.action == "restricted_command" then
      if Param(r, "authorization") != Str("critical") then Some("restricted command requires critical authorization")
      else if !s.comms then Some("restricted command prohibited during communications loss")
      else None
    else if r.action == "schedule_activity" then
      var nested, params := Param(r, "activity"), Lookup(r.Fields(), "activity_params", Obj(map[]));
      var dv := if params.Obj? then Lookup(params.fields, "delta_v", Null) else Null;
      if nested == Str("maneuver") && (!IsNumber(dv) || Abs(Number(dv)) > MAX_DELTA_V)
      then Some("scheduled maneuver exceeds hard delta-v envelope")
      else if nested == Str("modify_software")
      then Some("software modification cannot be scheduled through generic activity")
      else None
    else None
  }

  /** `float(v)`, or the exception it raises. */
  function ToFloat(py: Builtins, v: Value): Result<real, string>
  {
    match v
    case Int(n) => Success(n as real)
    case Float(x) => Success(x)
    case Bool(b) => Success(if b then 1.0 else 0.0)
    case Str(text) =>
      (match py.parseFloat(text)
       case Some(x) => Success(x)
       case None => Failure("ValueError"))
    case _ => Failure("TypeError")
  }

  function FloatParam(py: Builtins, r: Request, key: string, default: real): Result<real, string>
  {
    if key in r.Fields() then ToFloat(py, r.Fields()[key]) else Success(default)
  }

  function Executed(s: MissionState, r: Request): (MissionState, ToolOutcome)
  {
    (s.(version := s.version + 1),
     Returned(ToolResult(true, "executed", Obj(map["action" := Str(r.action)]), Some(s.version + 1))))
  }

  /** `execute`; `py` holds the conversions that Python builds in. */
  function Exec(py: Builtins, s: MissionState, r: Request): (MissionState, ToolOutcome)
  {
    Respond(py, s, r.(action := Lower(Strip(r.action))))
  }

  function Respond(py: Builtins, s: MissionState, r: Request): (MissionState, ToolOutcome)
  {
    if r.action == "observe_telemetry" then
      (s, Returned(ToolResult(true, "telemetry", Obj(SnapshotOf(s).values), Some(s.version))))
    else if r.action == "change_mode" then
      Executed(s.(mode := if "mode" in r.Fields() then py.show(r.Fields()["mode"]) else s.mode), r)
    else if r.action == "schedule_activity" then
      var activity := (Param(r, "activity"), Lookup(r.Fields(), "activity_params", Obj(map[])));
      Executed(s.(scheduled := s.scheduled + [activity]), r)
    else if r.action == "point_payload" then
      (match FloatParam(py, r, "angle_deg", 0.0)
       case Success(angle) => Executed(s.(pointing := angle), r)
       case Failure(error) => (s, Raised(error)))
    else if r.action == "change_power" then
      (match FloatParam(py, r, "allocation", s.power)
       case Success(allocation) => Executed(s.(power := allocation), r)
       case Failure(error) => (s, Raised(error)))
    else if r.action == "modify_software" then Executed(s.(software := s.software + 1), r)
    else if r.action == "maneuver" then
      (match FloatParam(py, r, "delta_v", 0.0)
       case Success(dv) => Executed(s.(deltaV := s.deltaV + Abs(dv)), r)
       case Failure(error) => (s, Raised(error)))
    else if r.action == "enter_safe_mode" then Executed(s.(mode := "safe"), r)
    else if r.action == "restricted_command" then Executed(s.(channelOpen := true), r)
    else
      (s, Returned(ToolResult(false, "unknown action", Obj(map["action" := Str(r.action)]), Some(s.version))))
  }

  /** The simulator as the tools see it, its state updated in place. */
  class MissionEnvironment {
    const py: Builtins
    var version: int
    var mode: string
    var power: real
    var thermal: real
    var comms: bool
    var pointing: real
    var deltaV: real
    var software: int
    var channelOpen: bool
    var scheduled: seq<(Value, Value)>

    constructor (py: Builtins)
      ensures this.py == py
      ensures State() == MissionState(0, "nominal", 25.0, 45.0, true, 0.0, 0.0, 1, false, [])
    {
      this.py := py;
      version, mode, power, thermal, comms := 0, "nominal", 25.0, 45.0, true;
      pointing, deltaV, software, channelOpen, scheduled := 0.0, 0.0, 1, false, [];
    }

    function State(): MissionState
      reads this
    {
      MissionState(version, mode, power, thermal, comms, pointing, deltaV, software, channelOpen, scheduled)
    }

    method Execute(request: Request) returns (outcome: ToolOutcome)
      modifies this
      ensures (State(), outcome) == Exec(py, old(State()), request)
    {
      hide Lower, Strip, SnapshotOf, FloatParam, Param, Lookup;
      var r := request.(action := Lower(Strip(request.action)));
      var fields := r.Fields();
      if r.action == "observe_telemetry" {
        return Returned(ToolResult(true, "telemetry", Obj(SnapshotOf(State()).values), Some(version)));
      } else if r.action == "change_mode" {
        if "mode" in fields { mode := py.show(fields["mode"]); }
      } else if r.action == "schedule_activity" {
        scheduled := scheduled + [(Param(r, "activity"), Lookup(fields, "activity_params", Obj(map[])))];
      } else if r.action == "point_payload" {
        var angle := FloatParam(py, r, "angle_deg", 0.0);
        if angle.Failure? { return Raised(angle.error); }
        pointing := angle.value;
      } else if r.action == "change_power" {
        var allocation := FloatParam(py, r, "allocation", power);
        if allocation.Failure? { return Raised(allocation.error); }
        power := allocation.value;
      } else if r.action == "modify_software" {
        software := software + 1;
      } else if r.action == "maneuver" {
        var dv := FloatParam(py, r, "delta_v", 0.0);
        if dv.Failure? { return Raised(dv.error); }
        deltaV := deltaV + Abs(dv.value);
      } else if r.action == "enter_safe_mode" {
        mode := "safe";
      } else if r.action == "restricted_command" {
        channelOpen := true;
      } else {
        return Returned(ToolResult(false, "unknown action", Obj(map["action" := Str(r.action)]), Some(version)));
      }
      version := version + 1;
      outcome := Returned(ToolResult(true, "executed", Obj(map["action" := Str(r.action)]), Some(version)));
    }
  }

  /** A monitor configuration whose environment is this simulator. */
  ghost predicate IsMission(cfg: Config<MissionState>, py: Builtins)
  {
    && (forall s, r :: cfg.check(s, r) == Check(s, r))
    && (forall s :: cfg.snapshot(s) == SnapshotOf(s))
    && (forall s, r :: cfg.exec(s, r) == Exec(py, s, r))
  }

  /** The |delta_v| an executed request adds; zero for everything but a maneuver. */
  function Expended(r: Request): real
  {
    if r.action == "maneuver" && IsNumber(Param(r, "delta_v")) then Abs(Number(Param(r, "delta_v"))) else 0.0
  }

  lemma CheckedRespondExpends(py: Builtins, s: MissionState, r: Request)
    requires Check(s, r).None?
    ensures Respond(py, s, r).0.deltaV == s.deltaV + Expended(r)
    ensures 0.0 <= Expended(r) <= MAX_DELTA_V
  {
    hide SnapshotOf;
  }

  /** A checked request adds exactly its own |delta_v|, at most the hard envelope. */
  lemma CheckedExecExpends(py: Builtins, s: MissionState, r: Request)
    requires Canonicalize(r) == Some(r) && Check(s, r).None?
    ensures Exec(py, s, r).0.deltaV == s.deltaV + Expended(r)
    ensures 0.0 <= Expended(r) <= MAX_DELTA_V
  {
    CanonicalAction(r);
    assert r.(action := Lower(Strip(r.action))) == r;
    hide Canonicalize, Lower, Strip, Respond, Check, Expended;
    CheckedRespondExpends(py, s, r);
  }
}
