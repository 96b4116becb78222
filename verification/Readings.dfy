/** Which readings of the clock the runtime acts on: always one taken during the very call. */
module Readings {
  import opened Wrappers
  import opened Canonical
  import opened Composition
  import opened Types
  import opened Runtime
  import opened Transitions
  import Stores
  import Evidence

  /** `now` is one of the readings numbered from `from` up to `to`. */
  ghost predicate ReadDuring<E>(cfg: Config<E>, from: nat, to: nat, now: int)
  {
    exists t: nat | from <= t < to :: cfg.clock(t) == now
  }

  /** Whatever has been issued, burned or recorded between the two states bears a reading taken between them. */
  ghost predicate Reads<E>(cfg: Config<E>, s: Guardian<E>, after: Guardian<E>)
  {
    && s.ticks <= after.ticks
    && s.past.burns <= after.past.burns && s.past.issued <= after.past.issued && s.events <= after.events
    && (forall i | |s.past.burns| <= i < |after.past.burns| ::
          ReadDuring(cfg, s.ticks, after.ticks, after.past.burns[i].now))
    && (forall i | |s.past.issued| <= i < |after.past.issued| ::
          ReadDuring(cfg, s.ticks, after.ticks, after.past.issued[i].issuedAt))
    && (forall i | |s.events| <= i < |after.events| ::
          ReadDuring(cfg, s.ticks, after.ticks, after.events[i].payload.timestamp))
  }

  lemma ReadsNothing<E>(cfg: Config<E>, s: Guardian<E>, after: Guardian<E>)
    requires s.ticks <= after.ticks && after.past.burns == s.past.burns && after.past.issued == s.past.issued
    requires after.events == s.events
    ensures Reads(cfg, s, after)
  {
  }

  lemma ReadsWiden<E>(cfg: Config<E>, from: nat, to: nat, now: int, earlier: nat, later: nat)
    requires ReadDuring(cfg, from, to, now) && earlier <= from && to <= later
    ensures ReadDuring(cfg, earlier, later, now)
  {
  }

  lemma ReadsTransitive<E>(cfg: Config<E>, s: Guardian<E>, middle: Guardian<E>, after: Guardian<E>)
    requires Reads(cfg, s, middle) && Reads(cfg, middle, after)
    ensures Reads(cfg, s, after)
  {
    hide ReadDuring;
    forall i | |s.past.burns| <= i < |after.past.burns|
      ensures ReadDuring(cfg, s.ticks, after.ticks, after.past.burns[i].now)
    {
      if i < |middle.past.burns| {
        assert after.past.burns[i] == middle.past.burns[i];
        ReadsWiden(cfg, s.ticks, middle.ticks, middle.past.burns[i].now, s.ticks, after.ticks);
      } else {
        ReadsWiden(cfg, middle.ticks, after.ticks, after.past.burns[i].now, s.ticks, after.ticks);
      }
    }
    forall i | |s.past.issued| <= i < |after.past.issued|
      ensures ReadDuring(cfg, s.ticks, after.ticks, after.past.issued[i].issuedAt)
    {
      if i < |middle.past.issued| {
        assert after.past.issued[i] == middle.past.issued[i];
        ReadsWiden(cfg, s.ticks, middle.ticks, middle.past.issued[i].issuedAt, s.ticks, after.ticks);
      } else {
        ReadsWiden(cfg, middle.ticks, after.ticks, after.past.issued[i].issuedAt, s.ticks, after.ticks);
      }
    }
    forall i | |s.events| <= i < |after.events|
      ensures ReadDuring(cfg, s.ticks, after.ticks, after.events[i].payload.timestamp)
    {
      if i < |middle.events| {
        assert after.events[i] == middle.events[i];
        ReadsWiden(cfg, s.ticks, middle.ticks, middle.events[i].payload.timestamp, s.ticks, after.ticks);
      } else {
        ReadsWiden(cfg, middle.ticks, after.ticks, after.events[i].payload.timestamp, s.ticks, after.ticks);
      }
    }
  }

  /** One event is appended, with the reading just taken. */
  lemma AppendReads<E>(cfg: Config<E>, s: Guardian<E>, after: Guardian<E>, r: Request, decision: Decision,
                       policyVersion: string, result: Option<ToolResult>)
    requires after.past.burns == s.past.burns && after.past.issued == s.past.issued && after.ticks == s.ticks + 1
    requires after.events == s.events + [Evidence.NextEvent(
      cfg.crypto, cfg.manifest, s.events, cfg.clock(s.ticks), r, decision, policyVersion, result)]
    ensures Reads(cfg, s, after)
  {
    assert ReadDuring(cfg, s.ticks, s.ticks + 1, cfg.clock(s.ticks));
    hide Evidence.Terminal;
  }

  lemma DenialReads<E>(cfg: Config<E>, s: Guardian<E>, kept: Guardian<E>, r: Request, decision: Decision)
    requires kept == s.(pending := kept.pending)
    ensures Reads(cfg, s, RecordDenial(cfg, kept, r, decision))
  {
    hide Evidence.NextEvent;
    AppendReads(cfg, s, RecordDenial(cfg, kept, r, decision), r, decision, cfg.policy.version, None);
  }

  lemma GrantReads<E>(cfg: Config<E>, s: Guardian<E>, r: Request, now: int)
    requires Grantable(cfg, s, r, now)
    ensures var after := Granted(cfg, s, r, now);
      && after.ticks == s.ticks && after.past.burns == s.past.burns && after.events == s.events
      && after.past.issued == s.past.issued + [GrantedPayload(cfg, s, r, now)]
      && GrantedPayload(cfg, s, r, now).issuedAt == now
  {
    hide Canonicalize, Grantable;
  }

  lemma EvaluateReads<E>(cfg: Config<E>, s: Guardian<E>, r: Request)
    requires ValidConfig(cfg)
    ensures Reads(cfg, s, Evaluate(cfg, s, r).0)
  {
    hide Evaluate, Grantable, Granted, GrantedPayload, Canonicalize, Unexpired;
    EvaluateCases(cfg, s, r);
    var now := cfg.clock(s.ticks);
    var s1 := s.(ticks := s.ticks + 1, pending := Unexpired(s.pending, now));
    if now >= 0 && Grantable(cfg, s1, r, now) {
      GrantReads(cfg, s1, r, now);
      assert ReadDuring(cfg, s.ticks, s.ticks + 1, now);
    }
  }

  lemma RecordReads<E>(cfg: Config<E>, s: Guardian<E>, c: Request, permit: Permit, outcome: ToolOutcome)
    requires s.past.inflight != []
    ensures Reads(cfg, s, Settle(cfg, s, c, permit, outcome).0)
  {
    hide FinalResult, Evidence.NextEvent, Original;
    var decision := Decision(true, Authorized, permit.payload.ruleId, Some(permit), Some(c));
    AppendReads(cfg, s, Settle(cfg, s, c, permit, outcome).0, Original(s, c, permit), decision,
                permit.payload.policyVersion, Some(FinalResult(cfg, s.env, outcome)));
  }

  /** The burn itself, with the reading just taken at `s.ticks`. */
  lemma BurnReads<E>(cfg: Config<E>, s: Guardian<E>, c: Request, permit: Permit)
    ensures var s1 := s.(ticks := s.ticks + 1);
      Reads(cfg, s, BurnPermit(cfg, s1, c, permit, cfg.clock(s.ticks)))
  {
    assert ReadDuring(cfg, s.ticks, s.ticks + 1, cfg.clock(s.ticks));
  }

  lemma {:induction false} CrossReads<E>(cfg: Config<E>, s: Guardian<E>, c: Request, permit: Permit)
    requires ValidConfig(cfg) && Canonicalize(c) == Some(c)
    ensures var s1 := s.(ticks := s.ticks + 1);
      Reads(cfg, s, CrossBoundary(cfg, s1, c, permit, cfg.clock(s.ticks)).0)
    decreases Weight(c), 1
  {
    hide Canonicalize, BurnPermit, Settle, ExecuteNested, Reads, Weight;
    var s1, now := s.(ticks := s.ticks + 1), cfg.clock(s.ticks);
    var burned := BurnPermit(cfg, s1, c, permit, now);
    BurnReads(cfg, s, c, permit);
    BurnIsInnermost(cfg, s1, c, permit, now);
    if IsDirect(cfg, c) {
      RecordReads(cfg, burned, c, permit, cfg.exec(s1.env, c).1);
      ReadsTransitive(cfg, s, burned, CrossBoundary(cfg, s1, c, permit, now).0);
    } else {
      var (after, outcome) := ExecuteNested(cfg, burned, c);
      NestedReads(cfg, burned, c);
      RecordReads(cfg, after, c, permit, outcome);
      ReadsTransitive(cfg, s, burned, after);
      ReadsTransitive(cfg, s, after, CrossBoundary(cfg, s1, c, permit, now).0);
    }
  }

  lemma {:induction false} NestedReads<E>(cfg: Config<E>, s: Guardian<E>, c: Request)
    requires ValidConfig(cfg) && Canonicalize(c) == Some(c)
    ensures Reads(cfg, s, ExecuteNested(cfg, s, c).0)
    decreases Weight(c), 0
  {
    hide Canonicalize, BuildNested, ExecuteRequest, Reads, Weight, Wrapped, InnerOutcome;
    if cfg.composes && BuildNested(c).Some? {
      NestedIsLighter(c);
      RequestReads(cfg, s, BuildNested(c).value);
    } else {
      ReadsNothing(cfg, s, s);
    }
  }

  lemma {:induction false} ExecuteReads<E>(cfg: Config<E>, s: Guardian<E>, r: Request, permit: Permit)
    requires ValidConfig(cfg)
    ensures Reads(cfg, s, Execute(cfg, s, r, permit).0)
    decreases Weight(r), 2
  {
    hide Execute, Canonicalize, StaticFault, DynamicFault, CrossBoundary, Reads, Weight;
    ExecuteCases(cfg, s, r, permit);
    ReadsNothing(cfg, s, s);
    ReadsNothing(cfg, s, s.(ticks := s.ticks + 1));
    if StaticFault(cfg, s, r, permit).None? {
      CrossReads(cfg, s, Canonicalize(r).value, permit);
    }
  }

  lemma {:induction false} RequestReads<E>(cfg: Config<E>, s: Guardian<E>, r: Request)
    requires ValidConfig(cfg)
    ensures Reads(cfg, s, ExecuteRequest(cfg, s, r).0)
    decreases Weight(r), 3
  {
    hide Evaluate, Execute, Canonicalize, Reads, Weight, RecordDenial;
    EvaluateReads(cfg, s, r);
    var (s1, evaluation) := Evaluate(cfg, s, r);
    var after := ExecuteRequest(cfg, s, r).0;
    if evaluation.Decided? {
      var d := evaluation.decision;
      if !d.allowed || d.permit.None? || d.normalized.None? {
        DenialReads(cfg, s1, s1, r, d);
        ReadsTransitive(cfg, s, s1, after);
      } else {
        EvaluateNormalizes(cfg, s, r);
        ExecuteReads(cfg, s1, d.normalized.value, d.permit.value);
        var (s2, execution) := Execute(cfg, s1, d.normalized.value, d.permit.value);
        ReadsTransitive(cfg, s, s1, s2);
        if execution.Rejected? {
          var rejected := Refuse(PermitRejected(execution.fault), d.ruleId, d.normalized);
          DenialReads(cfg, s2, Forget(s2, d.permit.value.payload.sequence), r, rejected);
          ReadsTransitive(cfg, s, s2, after);
        }
      }
    }
  }

  lemma PerformReads<E>(cfg: Config<E>, s: Guardian<E>, step: Step<E>)
    requires ValidConfig(cfg)
    ensures Reads(cfg, s, Perform(cfg, s, step))
  {
    hide Evaluate, Execute, ExecuteRequest, Reads, Stores.Add, Stores.Revoke;
    match step
    case Evaluating(r) => EvaluateReads(cfg, s, r);
    case Executing(r, permit) => ExecuteReads(cfg, s, r, permit);
    case Requesting(r) => RequestReads(cfg, s, r);
    case _ => ReadsNothing(cfg, s, Perform(cfg, s, step));
  }

  /**
   * Nothing acts on a stale time: whatever the steps after `before` issue, burn or
   * record, however deeply nested and whenever a burned permit was issued, bears a reading
   * that the clock gave during those steps.
   */
  lemma {:induction false} LaterStepsReadTheClock<E>(
    cfg: Config<E>, start: Start<E>, before: seq<Step<E>>, later: seq<Step<E>>)
    requires ValidConfig(cfg)
    ensures Reads(cfg, After(cfg, start, before), After(cfg, start, before + later))
    decreases |later|
  {
    hide After, Perform, Reads;
    var s := After(cfg, start, before);
    if later == [] {
      assert before + later == before;
      ReadsNothing(cfg, s, s);
    } else {
      var init, last := later[..|later|-1], later[|later|-1];
      assert before + later == before + init + [last];
      AfterNext(cfg, start, before + init, last);
      LaterStepsReadTheClock(cfg, start, before, init);
      PerformReads(cfg, After(cfg, start, before + init), last);
      ReadsTransitive(cfg, s, After(cfg, start, before + init), After(cfg, start, before + later));
    }
  }
}
