/** The mediated sandbox over whole runs: its state is its history, and reads see the last write. */
module SandboxRuns {
  import opened Wrappers
  import opened Values
  import opened Canonical
  import opened Composition
  import opened Types
  import opened Runtime
  import opened Transitions
  import opened Safety
  import opened Theorems
  import opened Histories
  import opened Sandbox

  /** When a command is safe in a state. */
  ghost predicate CommandSafe(s: SandboxState, r: Request)
  {
    var f := r.Fields();
    && (r.observedVersion == None || r.observedVersion == Some(s.version))
    && (r.action == "actuator_set" ==> "value" in f && exists n :: -10 <= n <= 10 && f["value"] == Int(n))
    && (r.action == "network_call" ==> "target" in f && exists rest :: f["target"] == Str("mock://" + rest))
  }

  /** The invariant check passes exactly the safe commands. */
  lemma CheckMeaning(s: SandboxState, r: Request)
    ensures Check(s, r).None? <==> CommandSafe(s, r)
  {
    var f := r.Fields();
    if "target" in f && f["target"].Str? && SCHEME <= f["target"].s {
      assert f["target"] == Str("mock://" + f["target"].s[|SCHEME|..]);
    }
  }

  // -------------------------------------------------------------- the history

  predicate TakesEffect(r: Request)
  {
    r.action == "write_file" || r.action == "network_call" || r.action == "actuator_set"
  }

  /** What a command writes to the file `key`, if anything. */
  function Writes(py: Builtins, key: string, r: Request): Option<Option<string>>
  {
    if r.action == "write_file" && r.resource == key
    then Some(Some(py.show(Lookup(r.Fields(), "content", Str("")))))
    else None
  }

  function WritesTo(py: Builtins, key: string): Request -> Option<Option<string>>
  {
    (r: Request) => Writes(py, key, r)
  }

  function Calls(r: Request): Option<string>
  {
    var f := r.Fields();
    if r.action == "network_call" && "target" in f && f["target"].Str? then Some(f["target"].s) else None
  }

  function SetsActuator(r: Request): Option<int>
  {
    var f := r.Fields();
    if r.action == "actuator_set" && "value" in f && f["value"].Int? then Some(f["value"].n) else None
  }

  function FileAt(s: SandboxState, key: string): Option<string>
  {
    if key in s.files then Some(s.files[key]) else None
  }

  /** The later state is the earlier one with what the commands, in order, wrote, called and set. */
  ghost predicate Follows(py: Builtins, s: SandboxState, commands: seq<Request>, later: SandboxState)
  {
    && later.version == s.version + Count(commands, TakesEffect)
    && (forall key :: FileAt(later, key) == Latest(commands, WritesTo(py, key), FileAt(s, key)))
    && later.actuator == Latest(commands, SetsActuator, s.actuator)
    && later.network == s.network + Collected(commands, Calls)
    && later.secret == s.secret && later.proxied == s.proxied
  }

  /** What one command makes of the state. */
  ghost predicate HasEffect(py: Builtins, s: SandboxState, r: Request, later: SandboxState)
  {
    && later.version == s.version + (if TakesEffect(r) then 1 else 0)
    && (forall key ::
      FileAt(later, key) == if Writes(py, key, r).Some? then Writes(py, key, r).value else FileAt(s, key))
    && later.actuator == (if SetsActuator(r).Some? then SetsActuator(r).value else s.actuator)
    && later.network == s.network + (if Calls(r).Some? then [Calls(r).value] else [])
    && later.secret == s.secret && later.proxied == s.proxied
  }

  /** What a command is answered with, and what it leaves. */
  ghost predicate AnswerFits(py: Builtins, s: SandboxState, r: Request, later: SandboxState, answer: ToolResult)
  {
    && answer.stateVersion == Some(later.version) && answer.output.Obj?
    && var f := answer.output.fields;
    && answer.ok == (TakesEffect(r) || r.action == "read_file" || r.action == "secret_read")
    && (r.action == "read_file" ==>
          && answer.status == "read" && f.Keys == {"content"}
          && f["content"] == Str(if FileAt(s, r.resource).Some? then FileAt(s, r.resource).value else ""))
    && (r.action == "secret_read" ==> answer.status == "secret" && f == map["secret" := Str(s.secret)])
    && (r.action == "write_file" ==> answer.status == "written" && f == map["resource" := Str(r.resource)])
    && (r.action == "network_call" ==>
          && answer.status == "network-mocked" && f.Keys == {"target"} && f["target"].Str?
          && later.network == s.network + [f["target"].s])
    && (r.action == "actuator_set" ==> answer.status == "actuator-set" && f == map["value" := Int(later.actuator)])
    && (!answer.ok ==> answer.status == "unknown action" && f == map["action" := Str(r.action)])
  }

  lemma SafeDirect(py: Builtins, s: SandboxState, r: Request)
    requires ShowsStrings(py) && CommandSafe(s, r)
    ensures var (later, outcome) := Direct(py, s, r.action, r);
      && HasEffect(py, s, r, later)
      && outcome.Returned? && outcome.result.status != "" && FlatOutput(outcome.result.output)
      && AnswerFits(py, s, r, later, outcome.result)
  {
    hide SnapshotOf;
  }

  lemma SafeIsDirect(py: Builtins, s: SandboxState, r: Request)
    requires ShowsStrings(py) && Canonicalize(r) == Some(r) && r.action != PROXY_ACTION
    ensures Exec(py, s, r) == Direct(py, s, r.action, r)
  {
    CanonicalAction(r);
    hide Canonicalize, Lower, Strip, Direct;
  }

  /** A safe command that is no proxy call never fails: it has exactly its effect and its answer. */
  lemma SafeCommandHasEffect(py: Builtins, s: SandboxState, r: Request)
    requires ShowsStrings(py) && Canonicalize(r) == Some(r) && r.action != PROXY_ACTION && CommandSafe(s, r)
    ensures var (later, outcome) := Exec(py, s, r);
      && HasEffect(py, s, r, later)
      && outcome.Returned? && outcome.result.status != "" && FlatOutput(outcome.result.output)
      && AnswerFits(py, s, r, later, outcome.result)
  {
    SafeIsDirect(py, s, r);
    hide Canonicalize, Direct, CommandSafe, HasEffect, AnswerFits, FlatOutput, Exec;
    SafeDirect(py, s, r);
  }

  lemma FollowsNothing(py: Builtins, s: SandboxState)
    ensures Follows(py, s, [], s)
  {
  }

  lemma FollowsOneMore(py: Builtins, s: SandboxState, commands: seq<Request>, later: SandboxState, r: Request,
                       last: SandboxState)
    requires Follows(py, s, commands, later) && HasEffect(py, later, r, last)
    ensures Follows(py, s, commands + [r], last)
  {
    hide TakesEffect, Writes, SetsActuator, Calls, Latest, Count, Collected, FileAt;
    CountNext(commands, r, TakesEffect);
    LatestNext(commands, r, SetsActuator, s.actuator);
    CollectedNext(commands, r, Calls);
    forall key ensures FileAt(last, key) == Latest(commands + [r], WritesTo(py, key), FileAt(s, key)) {
      LatestNext(commands, r, WritesTo(py, key), FileAt(s, key));
    }
  }

  lemma BurnIsSafe(cfg: Config<SandboxState>, py: Builtins, s: Guardian<SandboxState>, i: nat)
    requires IsSandbox(cfg, py) && cfg.mediate && BurnInv(cfg, s) && i < |s.past.burns|
    ensures var b := s.past.burns[i];
      && Canonicalize(b.request) == Some(b.request) && CommandSafe(b.env, b.request)
      && (b.direct <==> b.request.action != PROXY_ACTION)
  {
    var b := s.past.burns[i];
    assert BurnSafe(cfg, b);
    CheckMeaning(b.env, b.request);
    hide BurnInv, AuthorizedAtBurn, Canonicalize, Check, CommandSafe, Exec;
  }

  /** A direct command's effect, and its recorded answer. */
  lemma BurnHasEffect(cfg: Config<SandboxState>, py: Builtins, s: Guardian<SandboxState>, i: nat)
    requires IsSandbox(cfg, py) && cfg.mediate && BurnInv(cfg, s) && i < |s.past.burns|
    requires s.past.burns[i].direct
    ensures var b := s.past.burns[i];
      var later := cfg.exec(b.env, b.request).0;
      && HasEffect(py, b.env, b.request, later)
      && (b.env.version >= 0 ==> AnswerFits(py, b.env, b.request, later, DirectResult(cfg, b)))
  {
    hide BurnInv, Canonicalize, CommandSafe, HasEffect, AnswerFits, Exec, DirectResult, FlatOutput;
    BurnIsSafe(cfg, py, s, i);
    var b := s.past.burns[i];
    SafeCommandHasEffect(py, b.env, b.request);
    var (later, outcome) := cfg.exec(b.env, b.request);
    VersionIsProper(py, b.env, b.request, later, outcome.result);
    if b.env.version >= 0 { FlatIsRecorded(cfg, b); }
  }

  lemma VersionIsProper(py: Builtins, s: SandboxState, r: Request, later: SandboxState, answer: ToolResult)
    requires HasEffect(py, s, r, later) && AnswerFits(py, s, r, later, answer)
    ensures answer.stateVersion.Some? && answer.stateVersion.value >= s.version
  {
  }

  lemma {:induction false} ReplayFollows(cfg: Config<SandboxState>, py: Builtins, env: SandboxState,
                                         s: Guardian<SandboxState>, n: nat)
    requires IsSandbox(cfg, py) && cfg.mediate && BurnInv(cfg, s) && ReplayInv(cfg, env, s) && n <= |s.past.burns|
    ensures Follows(py, env, Commands(s.past.burns[..n]), Replay(cfg, env, s.past.burns[..n]))
  {
    hide BurnInv, ReplayInv, IsSandbox, HasEffect, Follows, AnswerFits, DirectResult;
    if n == 0 {
      assert s.past.burns[..0] == [];
      FollowsNothing(py, env);
    } else {
      EnvironmentAt(cfg, env, s, n - 1);
      ReplayNext(cfg, env, s.past.burns, n - 1);
      CommandsNext(s.past.burns, n - 1);
      ReplayFollows(cfg, py, env, s, n - 1);
      hide Replay, Commands;
      if s.past.burns[n-1].direct {
        BurnHasEffect(cfg, py, s, n - 1);
        FollowsOneMore(py, env, Commands(s.past.burns[..n-1]), s.past.burns[n-1].env, s.past.burns[n-1].request,
                       Replay(cfg, env, s.past.burns[..n]));
      } else {
        var before := Commands(s.past.burns[..n-1]);
        assert before + [] == before;
      }
    }
  }

  /**
   * The mediated sandbox is its history: at the end of a run and at every burn
   * within it, each file holds what was last written to it, the network log is
   * the calls in order, and actuator and version are what the commands set and
   * counted, at whatever depth of composition they ran.
   */
  lemma SandboxIsItsHistory(cfg: Config<SandboxState>, py: Builtins, start: Start<SandboxState>,
                            steps: seq<Step<SandboxState>>)
    requires ValidConfig(cfg) && ValidStart(start) && IsSandbox(cfg, py) && cfg.mediate
    requires forall i | 0 <= i < |steps| :: !steps[i].Environment?
    ensures var s := After(cfg, start, steps);
      && Follows(py, start.env, Commands(s.past.burns), s.env)
      && forall i | 0 <= i < |s.past.burns| ::
           Follows(py, start.env, Commands(s.past.burns[..i]), s.past.burns[i].env)
  {
    hide After, StoreInv, IssuedInv, UsageInv, AuditInv, NestInv, OrderInv, BurnInv, PendingInv, ClockInv, TermsInv,
         EventsInv, NestedInv, ValidStart, ReplayInv, IsSandbox, Follows;
    ReachableInv(cfg, start, steps);
    EnvironmentIsReplay(cfg, start, steps);
    var s := After(cfg, start, steps);
    assert s.past.burns[..|s.past.burns|] == s.past.burns;
    ReplayFollows(cfg, py, start.env, s, |s.past.burns|);
    EnvironmentNow(cfg, start.env, s);
    forall i | 0 <= i < |s.past.burns|
      ensures Follows(py, start.env, Commands(s.past.burns[..i]), s.past.burns[i].env)
    {
      EnvironmentAt(cfg, start.env, s, i);
      ReplayFollows(cfg, py, start.env, s, i);
    }
  }

  /**
   * Every command executed was safe in the state its predecessors had made, and a
   * direct one is recorded with its own answer; a file read answers with what was
   * last written there, or with nothing.
   */
  lemma EveryCommandWasSafe(cfg: Config<SandboxState>, py: Builtins, start: Start<SandboxState>,
                            steps: seq<Step<SandboxState>>, i: nat)
    requires ValidConfig(cfg) && ValidStart(start) && IsSandbox(cfg, py) && cfg.mediate
    requires forall i | 0 <= i < |steps| :: !steps[i].Environment?
    requires start.env.version >= 0 && i < |After(cfg, start, steps).past.burns|
    ensures var b := After(cfg, start, steps).past.burns[i];
      && CommandSafe(b.env, b.request)
      && (b.direct ==>
            AnswerFits(py, b.env, b.request, cfg.exec(b.env, b.request).0, DirectResult(cfg, b)))
    ensures var burns := After(cfg, start, steps).past.burns;
      var r, file := burns[i].request, FileAt(start.env, burns[i].request.resource);
      r.action == "read_file" ==>
        var found := Latest(Commands(burns[..i]), WritesTo(py, r.resource), file);
        DirectResult(cfg, burns[i]).output == Obj(map["content" := Str(if found.Some? then found.value else "")])
  {
    hide After, StoreInv, IssuedInv, UsageInv, AuditInv, NestInv, OrderInv, BurnInv, PendingInv, ClockInv, TermsInv,
         EventsInv, NestedInv, ValidStart, IsSandbox, CommandSafe, AnswerFits, HasEffect, DirectResult,
         Canonicalize, Follows;
    ReachableInv(cfg, start, steps);
    SandboxIsItsHistory(cfg, py, start, steps);
    var s := After(cfg, start, steps);
    var b := s.past.burns[i];
    BurnIsSafe(cfg, py, s, i);
    FollowsUp(py, start.env, Commands(s.past.burns[..i]), b.env, b.request.resource);
    if b.direct {
      BurnHasEffect(cfg, py, s, i);
      if b.request.action == "read_file" {
        ReadAnswers(py, b.env, b.request, cfg.exec(b.env, b.request).0, DirectResult(cfg, b));
      }
    }
  }

  lemma FollowsUp(py: Builtins, s: SandboxState, commands: seq<Request>, later: SandboxState, key: string)
    requires Follows(py, s, commands, later)
    ensures later.version >= s.version
    ensures FileAt(later, key) == Latest(commands, WritesTo(py, key), FileAt(s, key))
  {
  }

  lemma ReadAnswers(py: Builtins, s: SandboxState, r: Request, later: SandboxState, answer: ToolResult)
    requires AnswerFits(py, s, r, later, answer) && r.action == "read_file"
    ensures var found := FileAt(s, r.resource);
      answer.output == Obj(map["content" := Str(if found.Some? then found.value else "")])
  {
    var f := answer.output.fields;
    assert f == map["content" := f["content"]];
  }
}
