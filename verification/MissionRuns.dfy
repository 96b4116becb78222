/** The simulator over whole runs: its state is its history, and every command was safe where it ran. */
module MissionRuns {
  import opened Wrappers
  import opened Values
  import opened Canonical
  import opened Types
  import opened Runtime
  import opened Transitions
  import opened Safety
  import opened Theorems
  import opened Histories
  import opened Mission
  import opened DeltaV
  import Composition

  // ---------------------------------------------------------------- the rules

  predicate Within(v: Value, low: real, high: real)
  {
    IsNumber(v) && low <= Number(v) <= high
  }

  /** When a command is safe in a state, hazard by hazard. */
  ghost predicate CommandSafe(s: MissionState, r: Request)
  {
    var f := r.Fields();
    && (r.observedVersion.Some? ==> r.observedVersion.value == s.version)
    && (r.action == "maneuver" || r.action == "point_payload" ==> s.mode != "safe")
    && (r.action == "maneuver" || r.action == "restricted_command" ==> s.comms)
    && (r.action == "maneuver" ==> "delta_v" in f && Within(f["delta_v"], -5.0, 5.0))
    && (r.action == "point_payload" ==> "angle_deg" in f && Within(f["angle_deg"], -30.0, 30.0))
    && (r.action == "change_power" ==>
          && "allocation" in f && Within(f["allocation"], 0.0, 90.0)
          && (s.thermal >= 80.0 ==> Number(f["allocation"]) <= s.power))
    && (r.action == "modify_software" ==>
          s.mode == "safe" && "approval" in f && f["approval"] == Str("signed-release"))
    && (r.action == "change_mode" ==>
          && "mode" in f && (f["mode"] == Str("nominal") || f["mode"] == Str("safe"))
          && (s.mode == "safe" && f["mode"] == Str("nominal") ==>
                "override" in f && f["override"] == Str("mission-director")))
    && (r.action == "restricted_command" ==> "authorization" in f && f["authorization"] == Str("critical"))
    && (r.action == "schedule_activity" && "activity" in f ==>
          && f["activity"] != Str("modify_software")
          && (f["activity"] == Str("maneuver") ==>
                && "activity_params" in f && f["activity_params"].Obj?
                && "delta_v" in f["activity_params"].fields
                && Within(f["activity_params"].fields["delta_v"], -5.0, 5.0)))
  }

  /** The invariant check passes exactly the safe commands. */
  lemma CheckMeaning(s: MissionState, r: Request)
    ensures Check(s, r).None? <==> CommandSafe(s, r)
  {
    hide Check, CommandSafe;
    if r.action == "maneuver" || r.action == "point_payload" || r.action == "change_power" {
      PhysicalMeaning(s, r);
    } else {
      OtherMeaning(s, r);
    }
  }

  lemma PhysicalMeaning(s: MissionState, r: Request)
    requires r.action == "maneuver" || r.action == "point_payload" || r.action == "change_power"
    ensures Check(s, r).None? <==> CommandSafe(s, r)
  {
  }

  lemma OtherMeaning(s: MissionState, r: Request)
    requires r.action != "maneuver" && r.action != "point_payload" && r.action != "change_power"
    ensures Check(s, r).None? <==> CommandSafe(s, r)
  {
    hide Number, IsNumber;
    if r.action == "schedule_activity" { ScheduleMeaning(s, r); } else { hide Within, Abs; }
  }

  lemma ScheduleMeaning(s: MissionState, r: Request)
    requires r.action == "schedule_activity"
    ensures Check(s, r).None? <==> CommandSafe(s, r)
  {
  }

  // -------------------------------------------------------------- the history

  const EFFECTIVE: set<string> := {
    "change_mode", "schedule_activity", "point_payload", "change_power", "modify_software", "maneuver",
    "enter_safe_mode", "restricted_command"
  }

  predicate TakesEffect(r: Request) { r.action in EFFECTIVE }

  predicate UpdatesSoftware(r: Request) { r.action == "modify_software" }

  predicate OpensChannel(r: Request) { r.action == "restricted_command" }

  function SetsMode(r: Request): Option<string>
  {
    var f := r.Fields();
    if r.action == "enter_safe_mode" then Some("safe")
    else if r.action == "change_mode" && "mode" in f && f["mode"].Str? then Some(f["mode"].s)
    else None
  }

  function SetsNumber(r: Request, action: string, key: string): Option<real>
  {
    var f := r.Fields();
    if r.action == action && key in f && IsNumber(f[key]) then Some(Number(f[key])) else None
  }

  function SetsPower(r: Request): Option<real> { SetsNumber(r, "change_power", "allocation") }

  function SetsPointing(r: Request): Option<real> { SetsNumber(r, "point_payload", "angle_deg") }

  function Schedules(r: Request): Option<(Value, Value)>
  {
    var f := r.Fields();
    if r.action == "schedule_activity"
    then Some((Lookup(f, "activity", Null), Lookup(f, "activity_params", Obj(map[]))))
    else None
  }

  /** What the commands alone, in order, make of the state. */
  function AfterCommands(s: MissionState, commands: seq<Request>): MissionState
  {
    s.(version := s.version + Count(commands, TakesEffect),
       mode := Latest(commands, SetsMode, s.mode),
       power := Latest(commands, SetsPower, s.power),
       pointing := Latest(commands, SetsPointing, s.pointing),
       software := s.software + Count(commands, UpdatesSoftware),
       channelOpen := s.channelOpen || Count(commands, OpensChannel) > 0,
       scheduled := s.scheduled + Collected(commands, Schedules))
  }

  /** What the direct burns make of it: thermal state and communications never change. */
  function History(s: MissionState, burns: seq<Burn<MissionState>>): MissionState
  {
    AfterCommands(s, Commands(burns)).(deltaV := s.deltaV + ExpendedBy(burns))
  }

  /** What one command makes of the state. */
  function Effect(s: MissionState, r: Request): MissionState
  {
    s.(version := s.version + (if TakesEffect(r) then 1 else 0),
       mode := if SetsMode(r).Some? then SetsMode(r).value else s.mode,
       power := if SetsPower(r).Some? then SetsPower(r).value else s.power,
       pointing := if SetsPointing(r).Some? then SetsPointing(r).value else s.pointing,
       deltaV := s.deltaV + Expended(r),
       software := s.software + (if UpdatesSoftware(r) then 1 else 0),
       channelOpen := s.channelOpen || OpensChannel(r),
       scheduled := s.scheduled + (if Schedules(r).Some? then [Schedules(r).value] else []))
  }

  lemma SafeRespondHasEffect(py: Builtins, s: MissionState, r: Request)
    requires ShowsStrings(py) && CommandSafe(s, r)
    ensures Respond(py, s, r).0 == Effect(s, r)
  {
    hide SnapshotOf;
    if r.action == "maneuver" || r.action == "point_payload" || r.action == "change_power" {
      hide Respond, CommandSafe, Effect;
      PhysicalEffect(py, s, r);
    }
  }

  lemma PhysicalEffect(py: Builtins, s: MissionState, r: Request)
    requires r.action == "maneuver" || r.action == "point_payload" || r.action == "change_power"
    requires CommandSafe(s, r)
    ensures Respond(py, s, r).0 == Effect(s, r)
  {
    hide SnapshotOf;
  }

  /** A safe command never fails in a conversion: it has exactly its effect. */
  lemma SafeCommandHasEffect(py: Builtins, s: MissionState, r: Request)
    requires ShowsStrings(py) && Canonicalize(r) == Some(r) && CommandSafe(s, r)
    ensures Exec(py, s, r).0 == Effect(s, r)
  {
    SafeIsResponse(py, s, r);
    hide Canonicalize, Respond, CommandSafe, Effect;
    SafeRespondHasEffect(py, s, r);
  }

  lemma SafeIsResponse(py: Builtins, s: MissionState, r: Request)
    requires Canonicalize(r) == Some(r)
    ensures Exec(py, s, r) == Respond(py, s, r)
  {
    Composition.CanonicalAction(r);
    assert r.(action := Lower(Strip(r.action))) == r;
    hide Canonicalize, Lower, Strip, Respond;
  }

  lemma AfterOneMore(s: MissionState, commands: seq<Request>, r: Request)
    ensures AfterCommands(s, commands + [r]) == Effect(AfterCommands(s, commands), r).(deltaV := s.deltaV)
  {
    CountNext(commands, r, TakesEffect);
    CountNext(commands, r, UpdatesSoftware);
    CountNext(commands, r, OpensChannel);
    LatestNext(commands, r, SetsMode, s.mode);
    LatestNext(commands, r, SetsPower, s.power);
    LatestNext(commands, r, SetsPointing, s.pointing);
    CollectedNext(commands, r, Schedules);
    hide Expended, SetsMode, SetsPower, SetsPointing, Schedules, TakesEffect, UpdatesSoftware, OpensChannel, Latest,
         Count, Collected;
  }

  lemma HistoryNext(s: MissionState, burns: seq<Burn<MissionState>>, n: nat)
    requires n < |burns|
    ensures History(s, burns[..n+1]) ==
      if burns[n].direct then Effect(History(s, burns[..n]), burns[n].request) else History(s, burns[..n])
  {
    CommandsNext(burns, n);
    ExpendedNext(burns, n);
    AfterOneMore(s, Commands(burns[..n]), burns[n].request);
    assert Commands(burns[..n]) + [] == Commands(burns[..n]);
    hide Commands, ExpendedBy, Expended, SetsMode, SetsPower, SetsPointing, Schedules, TakesEffect, UpdatesSoftware,
         OpensChannel, Latest, Count, Collected;
  }

  lemma BurnHasEffect(cfg: Config<MissionState>, py: Builtins, s: Guardian<MissionState>, i: nat)
    requires IsMission(cfg, py) && ShowsStrings(py) && BurnInv(cfg, s) && i < |s.past.burns|
    ensures var b := s.past.burns[i];
      && Canonicalize(b.request) == Some(b.request) && CommandSafe(b.env, b.request)
      && cfg.exec(b.env, b.request).0 == Effect(b.env, b.request)
  {
    BurnChecked(cfg, py, s, i);
    var b := s.past.burns[i];
    CheckMeaning(b.env, b.request);
    hide BurnInv, Exec, Check, Effect, Canonicalize, CommandSafe;
    SafeCommandHasEffect(py, b.env, b.request);
  }

  lemma {:induction false} ReplayIsHistory(cfg: Config<MissionState>, py: Builtins, env: MissionState,
                                           s: Guardian<MissionState>, n: nat)
    requires IsMission(cfg, py) && ShowsStrings(py) && BurnInv(cfg, s) && ReplayInv(cfg, env, s)
    requires n <= |s.past.burns|
    ensures Replay(cfg, env, s.past.burns[..n]) == History(env, s.past.burns[..n])
  {
    hide BurnInv, ReplayInv, IsMission, Effect, CommandSafe;
    if n > 0 {
      EnvironmentAt(cfg, env, s, n - 1);
      ReplayNext(cfg, env, s.past.burns, n - 1);
      HistoryNext(env, s.past.burns, n - 1);
      ReplayIsHistory(cfg, py, env, s, n - 1);
      BurnHasEffect(cfg, py, s, n - 1);
      hide Replay, History;
    }
  }

  // --------------------------------------------------------------- the answers

  /** A telemetry answer shows every field of the state. */
  ghost predicate Shows(f: map<string, Value>, s: MissionState)
  {
    && f.Keys == {"mode", "power_allocated", "thermal_c", "comms_available", "payload_pointing_deg",
                  "cumulative_delta_v", "software_version", "restricted_channel_open", "scheduled_count"}
    && f["mode"] == Str(s.mode) && f["power_allocated"] == Float(s.power) && f["thermal_c"] == Float(s.thermal)
    && f["comms_available"] == Bool(s.comms) && f["payload_pointing_deg"] == Float(s.pointing)
    && f["cumulative_delta_v"] == Float(s.deltaV) && f["software_version"] == Int(s.software)
    && f["restricted_channel_open"] == Bool(s.channelOpen) && f["scheduled_count"] == Int(|s.scheduled|)
  }

  /** The recorded answer to a command, given the state it ran in. */
  ghost predicate AnswerFits(s: MissionState, r: Request, answer: ToolResult)
  {
    && answer.stateVersion == Some(Effect(s, r).version)
    && if r.action == "observe_telemetry" then
         answer.ok && answer.status == "telemetry" && answer.output.Obj? && Shows(answer.output.fields, s)
       else
         && answer.ok == TakesEffect(r) && answer.status == (if answer.ok then "executed" else "unknown action")
         && answer.output == Obj(map["action" := Str(r.action)])
  }

  lemma SafeRespondAnswers(py: Builtins, s: MissionState, r: Request)
    requires ShowsStrings(py) && CommandSafe(s, r)
    ensures var outcome := Respond(py, s, r).1;
      outcome.Returned? && AnswerFits(s, r, outcome.result) && FlatOutput(outcome.result.output)
  {
    SnapshotShows(s);
    hide SnapshotOf, Shows;
  }

  lemma SnapshotShows(s: MissionState)
    ensures Shows(SnapshotOf(s).values, s) && FlatOutput(Obj(SnapshotOf(s).values))
  {
  }

  lemma BurnIsAnswered(cfg: Config<MissionState>, py: Builtins, b: Burn<MissionState>)
    requires IsMission(cfg, py) && ShowsStrings(py) && b.env.version >= 0
    requires Canonicalize(b.request) == Some(b.request) && CommandSafe(b.env, b.request)
    ensures AnswerFits(b.env, b.request, DirectResult(cfg, b))
  {
    SafeIsResponse(py, b.env, b.request);
    hide Canonicalize, Respond, CommandSafe, SnapshotOf, Shows, Exec, Normalize;
    SafeRespondAnswers(py, b.env, b.request);
    FlatIsRecorded(cfg, b);
  }

  // ------------------------------------------------------------- whole runs

  /**
   * The simulator is its history: version, mode, power, pointing, software,
   * channel, schedule and delta-v are exactly what the burned commands set,
   * counted and collected, after the run and at every burn within it.
   */
  lemma MissionIsItsHistory(cfg: Config<MissionState>, py: Builtins, start: Start<MissionState>,
                            steps: seq<Step<MissionState>>)
    requires ValidConfig(cfg) && ValidStart(start) && IsMission(cfg, py) && ShowsStrings(py)
    requires forall i | 0 <= i < |steps| :: !steps[i].Environment?
    ensures var s := After(cfg, start, steps);
      && s.env == History(start.env, s.past.burns)
      && forall i | 0 <= i < |s.past.burns| :: s.past.burns[i].env == History(start.env, s.past.burns[..i])
  {
    hide After, StoreInv, IssuedInv, UsageInv, AuditInv, NestInv, OrderInv, BurnInv, PendingInv, ClockInv, TermsInv,
         EventsInv, NestedInv, ValidStart, ReplayInv, IsMission, History;
    ReachableInv(cfg, start, steps);
    EnvironmentIsReplay(cfg, start, steps);
    var s := After(cfg, start, steps);
    assert s.past.burns[..|s.past.burns|] == s.past.burns;
    ReplayIsHistory(cfg, py, start.env, s, |s.past.burns|);
    EnvironmentNow(cfg, start.env, s);
    forall i | 0 <= i < |s.past.burns| ensures s.past.burns[i].env == History(start.env, s.past.burns[..i]) {
      EnvironmentAt(cfg, start.env, s, i);
      ReplayIsHistory(cfg, py, start.env, s, i);
    }
  }

  /**
   * Every command ever executed was safe in the state its predecessors had made:
   * software changes only in safe mode, safe mode is left only by a mission
   * director, and so on; and it was answered and recorded accordingly.
   */
  lemma EveryCommandWasSafe(cfg: Config<MissionState>, py: Builtins, start: Start<MissionState>,
                            steps: seq<Step<MissionState>>, i: nat)
    requires ValidConfig(cfg) && ValidStart(start) && IsMission(cfg, py) && ShowsStrings(py)
    requires forall i | 0 <= i < |steps| :: !steps[i].Environment?
    requires start.env.version >= 0 && i < |After(cfg, start, steps).past.burns|
    ensures var burns := After(cfg, start, steps).past.burns;
      var r, before := burns[i].request, History(start.env, burns[..i]);
      && CommandSafe(before, r)
      && (burns[i].direct ==> AnswerFits(before, r, DirectResult(cfg, burns[i])))
  {
    hide After, StoreInv, IssuedInv, UsageInv, AuditInv, NestInv, OrderInv, BurnInv, PendingInv, ClockInv, TermsInv,
         EventsInv, NestedInv, ValidStart, IsMission, CommandSafe, AnswerFits, Effect, DirectResult, Canonicalize;
    ReachableInv(cfg, start, steps);
    MissionIsItsHistory(cfg, py, start, steps);
    var s := After(cfg, start, steps);
    BurnHasEffect(cfg, py, s, i);
    assert s.past.burns[i].env.version >= 0;
    BurnIsAnswered(cfg, py, s.past.burns[i]);
  }

  predicate InEnvelope(s: MissionState)
  {
    s.mode in {"nominal", "safe"} && -30.0 <= s.pointing <= 30.0 && 0.0 <= s.power <= 90.0
  }

  lemma EffectKeepsEnvelope(s: MissionState, r: Request)
    requires CommandSafe(s, r) && InEnvelope(s)
    ensures InEnvelope(Effect(s, r))
  {
  }

  lemma {:induction false} HistoryKeepsEnvelope(cfg: Config<MissionState>, py: Builtins, env: MissionState,
                                                s: Guardian<MissionState>, n: nat)
    requires IsMission(cfg, py) && ShowsStrings(py) && BurnInv(cfg, s) && InEnvelope(env)
    requires forall i | 0 <= i < |s.past.burns| :: s.past.burns[i].env == History(env, s.past.burns[..i])
    requires n <= |s.past.burns|
    ensures InEnvelope(History(env, s.past.burns[..n]))
  {
    hide BurnInv, IsMission, Effect, CommandSafe, InEnvelope;
    if n == 0 {
      assert s.past.burns[..0] == [];
      assert env == History(env, []);
    } else {
      HistoryNext(env, s.past.burns, n - 1);
      HistoryKeepsEnvelope(cfg, py, env, s, n - 1);
      BurnHasEffect(cfg, py, s, n - 1);
      EffectKeepsEnvelope(s.past.burns[n-1].env, s.past.burns[n-1].request);
      hide History;
    }
  }

  /** No run takes mode, pointing or power outside the hard envelope. */
  lemma MissionStaysEnveloped(cfg: Config<MissionState>, py: Builtins, start: Start<MissionState>,
                              steps: seq<Step<MissionState>>)
    requires ValidConfig(cfg) && ValidStart(start) && IsMission(cfg, py) && ShowsStrings(py)
    requires forall i | 0 <= i < |steps| :: !steps[i].Environment?
    requires InEnvelope(start.env)
    ensures InEnvelope(After(cfg, start, steps).env)
  {
    hide After, StoreInv, IssuedInv, UsageInv, AuditInv, NestInv, OrderInv, BurnInv, PendingInv, ClockInv, TermsInv,
         EventsInv, NestedInv, ValidStart, IsMission, History, InEnvelope;
    ReachableInv(cfg, start, steps);
    MissionIsItsHistory(cfg, py, start, steps);
    var s := After(cfg, start, steps);
    assert s.past.burns[..|s.past.burns|] == s.past.burns;
    HistoryKeepsEnvelope(cfg, py, start.env, s, |s.past.burns|);
  }
}
