/** First-match policy rules, revalidation, and the quotas recorded on authorization. */
module Policies {
  import opened Wrappers
  import opened Values
  import opened Canonical
  import opened Glob
  import Capabilities

  datatype RateLimit = RateLimit(maxCalls: int, windowSeconds: int)

  datatype Budget = Budget(key: string, costParam: string, maxTotal: real)

  datatype Effect = Allow | Deny | Escalate

  datatype Rule = Rule(
    id: string,
    effect: Effect,
    subject: string,
    session: string,
    tool: string,
    action: string,
    resource: string,
    params: map<string, Value>,
    state: map<string, Value>,
    purpose: seq<string>,
    notBefore: Option<int>,
    expiresAt: Option<int>,
    rateLimit: Option<RateLimit>,
    forbiddenAfter: seq<string>,
    separationAfter: seq<string>,
    budget: Option<Budget>)

  datatype EmergencyStop = EmergencyStop(stateKey: string, equals: Value, allowActions: seq<string>)

  datatype Policy = Policy(
    version: string, defaultAllow: bool, rules: seq<Rule>, emergency: Option<EmergencyStop>)

  datatype RuntimeState = RuntimeState(version: int, values: map<string, Value>)

  /** `ruleId` is `None` where the code records the word "default". */
  datatype Authorization = Authorization(at: int, actionKey: string, subject: string, ruleId: Option<string>)

  datatype Usage = Usage(hits: map<string, seq<int>>, history: seq<Authorization>, totals: map<string, real>)
  {
    function HitsOf(id: string): seq<int>
    {
      if id in hits then hits[id] else []
    }

    function TotalOf(key: string): real
    {
      if key in totals then totals[key] else 0.0
    }
  }

  const NO_USAGE := Usage(map[], [], map[])

  /** What engine construction guarantees: unique rule ids and positive rate limits. */
  predicate ValidPolicy(p: Policy)
  {
    && (forall i, j | 0 <= i < j < |p.rules| :: p.rules[i].id != p.rules[j].id)
    && (forall i | 0 <= i < |p.rules| ::
          && (p.rules[i].rateLimit.Some? ==>
                p.rules[i].rateLimit.value.maxCalls > 0 && p.rules[i].rateLimit.value.windowSeconds > 0)
          && (p.rules[i].budget.Some? ==> p.rules[i].budget.value.maxTotal >= 0.0))
  }

  // ----------------------------------------------------------------- matching

  predicate CanonicalString(v: Value)
  {
    v.Str? && CanonicalizeResource(v.s) == Some(v.s)
  }

  /** `_matches_constraint` */
  predicate MatchesConstraint(v: Value, c: Value)
  {
    if v.Special? then false
    else if !c.Obj? then JsonEqual(v, c)
    else
      var f := c.fields;
      && ("eq" in f ==> JsonEqual(v, f["eq"]))
      && ("neq" in f ==> !JsonEqual(v, f["neq"]))
      && ("in" in f ==> Capabilities.AmongEqual(v, Capabilities.Items(f["in"])))
      && ("not_in" in f ==> !Capabilities.AmongEqual(v, Capabilities.Items(f["not_in"])))
      && ("min" in f ==> IsNumber(v) && Number(v) >= Number(f["min"]))
      && ("max" in f ==> IsNumber(v) && Number(v) <= Number(f["max"]))
      && ("prefix" in f ==> v.Str? && f["prefix"].Str? && f["prefix"].s <= v.s)
      && ("canonical_resource" in f && f["canonical_resource"] == Bool(true) ==> CanonicalString(v))
      && ("canonical_prefix" in f ==>
            CanonicalString(v) && f["canonical_prefix"].Str? && f["canonical_prefix"].s <= v.s)
  }

  /** `_rule_matches` */
  predicate RuleMatches(rule: Rule, r: Request, state: RuntimeState, now: int)
  {
    && Matches(r.subject, rule.subject) && Matches(r.session, rule.session)
    && Matches(r.tool, rule.tool) && Matches(r.action, rule.action) && Matches(r.resource, rule.resource)
    && (rule.purpose != [] ==> r.purpose in rule.purpose)
    && (rule.notBefore.Some? ==> now >= rule.notBefore.value)
    && (rule.expiresAt.Some? ==> now < rule.expiresAt.value)
    && (forall k | k in rule.params ::
          if k in r.Fields() then MatchesConstraint(r.Fields()[k], rule.params[k])
          else !Capabilities.Required(rule.params[k]))
    && (forall k | k in rule.state :: k in state.values && MatchesConstraint(state.values[k], rule.state[k]))
  }

  predicate Restricts(rule: Rule, r: Request, state: RuntimeState, now: int)
  {
    !rule.effect.Allow? && RuleMatches(rule, r, state, now)
  }

  predicate Permits(rule: Rule, r: Request, state: RuntimeState, now: int)
  {
    rule.effect.Allow? && RuleMatches(rule, r, state, now)
  }

  function FirstRestricting(rules: seq<Rule>, r: Request, state: RuntimeState, now: int): Option<Rule>
  {
    if rules == [] then None
    else if Restricts(rules[0], r, state, now) then Some(rules[0])
    else FirstRestricting(rules[1..], r, state, now)
  }

  function FirstPermitting(rules: seq<Rule>, r: Request, state: RuntimeState, now: int): Option<Rule>
  {
    if rules == [] then None
    else if Permits(rules[0], r, state, now) then Some(rules[0])
    else FirstPermitting(rules[1..], r, state, now)
  }

  // --------------------------------------------------------------- evaluation

  datatype PolicyRefusal =
    | InvalidPolicyTime | EmergencyStopped | EscalationRequired | DeniedByRule | DeniedByDefault
    | RateLimited | ForbiddenSequence | DutyNotSeparated | InvalidCost | BudgetExceeded
    | AuthorizingRuleChanged

  datatype Verdict = Allowed(ruleId: Option<string>) | Refused(reason: PolicyRefusal, ruleId: Option<string>)

  predicate IsQuotaRefusal(reason: PolicyRefusal)
  {
    reason.RateLimited? || reason.ForbiddenSequence? || reason.DutyNotSeparated? ||
    reason.InvalidCost? || reason.BudgetExceeded?
  }

  /** The number of recorded times after `cutoff`. */
  function CountAfter(times: seq<int>, cutoff: int): nat
  {
    if times == [] then 0
    else CountAfter(times[..|times|-1], cutoff) + (if times[|times|-1] > cutoff then 1 else 0)
  }

  predicate ValidCost(v: Value) { IsNumber(v) && Number(v) >= 0.0 }

  function CostOf(budget: Budget, r: Request): Value
  {
    Lookup(r.Fields(), budget.costParam, Null)
  }

  /** The quota checks an otherwise allowing rule still has to pass, in order. */
  function QuotaRefusal(rule: Rule, r: Request, now: int, usage: Usage): Option<PolicyRefusal>
  {
    if rule.rateLimit.Some? &&
       CountAfter(usage.HitsOf(rule.id), now - rule.rateLimit.value.windowSeconds) >= rule.rateLimit.value.maxCalls
    then Some(RateLimited)
    else if usage.history != [] && usage.history[|usage.history|-1].actionKey in rule.forbiddenAfter
    then Some(ForbiddenSequence)
    else if usage.history != [] && usage.history[|usage.history|-1].actionKey in rule.separationAfter
         && usage.history[|usage.history|-1].subject == r.subject
    then Some(DutyNotSeparated)
    else if rule.budget.Some? && !ValidCost(CostOf(rule.budget.value, r))
    then Some(InvalidCost)
    else if rule.budget.Some? &&
         usage.TotalOf(rule.budget.value.key) + Number(CostOf(rule.budget.value, r)) > rule.budget.value.maxTotal
    then Some(BudgetExceeded)
    else None
  }

  predicate Stopped(p: Policy, r: Request, state: RuntimeState)
  {
    && p.emergency.Some?
    && JsonEqual(Lookup(state.values, p.emergency.value.stateKey, Null), p.emergency.value.equals)
    && r.ActionKey() !in p.emergency.value.allowActions
  }

  /** `PolicyEngine.evaluate` */
  function Evaluate(p: Policy, r: Request, state: RuntimeState, now: int, usage: Usage): Verdict
  {
    if now < 0 then Refused(InvalidPolicyTime, None)
    else if Stopped(p, r, state) then Refused(EmergencyStopped, Some("emergency-stop"))
    else
      match FirstRestricting(p.rules, r, state, now)
      case Some(rule) => Refused(if rule.effect.Escalate? then EscalationRequired else DeniedByRule, Some(rule.id))
      case None =>
        match FirstPermitting(p.rules, r, state, now)
        case Some(rule) =>
          (match QuotaRefusal(rule, r, now, usage)
           case Some(reason) => Refused(reason, Some(rule.id))
           case None => Allowed(Some(rule.id)))
        case None => if p.defaultAllow then Allowed(None) else Refused(DeniedByDefault, None)
  }

  /** `PolicyEngine.revalidate_execution`: `None` means the permit may still execute. */
  function Revalidate(p: Policy, r: Request, state: RuntimeState, now: int, ruleId: Option<string>)
    : Option<PolicyRefusal>
  {
    if now < 0 then Some(InvalidPolicyTime)
    else if Stopped(p, r, state) then Some(EmergencyStopped)
    else if FirstRestricting(p.rules, r, state, now).Some? then Some(DeniedByRule)
    else
      var selected := FirstPermitting(p.rules, r, state, now);
      var selectedId := if selected.Some? then Some(selected.value.id) else None;
      if selectedId != ruleId then Some(AuthorizingRuleChanged)
      else if selected.None? && !p.defaultAllow then Some(DeniedByDefault)
      else None
  }

  function RuleById(rules: seq<Rule>, id: string): Option<Rule>
  {
    if rules == [] then None
    else if rules[0].id == id then Some(rules[0])
    else RuleById(rules[1..], id)
  }

  function RuleFor(p: Policy, ruleId: Option<string>): Option<Rule>
  {
    if ruleId.None? then None else RuleById(p.rules, ruleId.value)
  }

  /** `authorization_deadline` */
  function Deadline(p: Policy, ruleId: Option<string>): Option<int>
  {
    var rule := RuleFor(p, ruleId);
    if rule.None? then None else rule.value.expiresAt
  }

  /** `record_authorization`; a `Failure` is a raised PolicyError. */
  function Record(p: Policy, ruleId: Option<string>, r: Request, now: int, usage: Usage): Result<Usage, PolicyRefusal>
  {
    if now < 0 then Failure(InvalidPolicyTime)
    else
      var entry := Authorization(now, r.ActionKey(), r.subject, ruleId);
      if ruleId.None? then Success(usage.(history := usage.history + [entry]))
      else
        match RuleById(p.rules, ruleId.value)
        case None => Success(usage)
        case Some(rule) =>
          if !rule.effect.Allow? then Success(usage)
          else if rule.budget.Some? && !ValidCost(CostOf(rule.budget.value, r)) then Failure(InvalidCost)
          else
            Success(Usage(
              usage.hits[rule.id := usage.HitsOf(rule.id) + [now]],
              usage.history + [entry],
              if rule.budget.None? then usage.totals
              else usage.totals[rule.budget.value.key :=
                     usage.TotalOf(rule.budget.value.key) + Number(CostOf(rule.budget.value, r))]))
  }

  // ------------------------------------------------------------------ meaning

  const MATCHED_KEYS: set<string> :=
    {"eq", "neq", "in", "not_in", "min", "max", "prefix", "canonical_resource", "canonical_prefix"}

  /** A mapping constraint accepts what each of its entries accepts by itself. */
  lemma ConstraintIsConjunction(v: Value, c: Value)
    requires c.Obj?
    ensures MatchesConstraint(v, c) <==>
      !v.Special? && forall k | k in c.fields :: MatchesConstraint(v, Obj(map[k := c.fields[k]]))
  {
    hide CanonicalString, JsonEqual;
    if !v.Special? && !MatchesConstraint(v, c) {
      var f := c.fields;
      var k :| k in f && k in MATCHED_KEYS && !MatchesConstraint(v, Obj(map[k := f[k]]));
    }
  }

  /** What each entry accepts: equality and membership, */
  lemma EqualityEntries(v: Value, e: Value)
    requires !v.Special?
    ensures MatchesConstraint(v, Obj(map["eq" := e])) <==> JsonEqual(v, e)
    ensures MatchesConstraint(v, Obj(map["neq" := e])) <==> !JsonEqual(v, e)
    ensures var items := Capabilities.Items(e);
      && (MatchesConstraint(v, Obj(map["in" := e])) <==> exists i :: 0 <= i < |items| && JsonEqual(v, items[i]))
      && (MatchesConstraint(v, Obj(map["not_in" := e])) <==> forall i | 0 <= i < |items| :: !JsonEqual(v, items[i]))
  {
    hide JsonEqual;
  }

  /** limits and prefixes, */
  lemma LimitEntries(v: Value, e: Value)
    requires !v.Special?
    ensures MatchesConstraint(v, Obj(map["min" := e])) <==> IsNumber(v) && Number(e) <= Number(v)
    ensures MatchesConstraint(v, Obj(map["max" := e])) <==> IsNumber(v) && Number(v) <= Number(e)
    ensures e.Str? ==>
      (MatchesConstraint(v, Obj(map["prefix" := e])) <==> v.Str? && |e.s| <= |v.s| && v.s[..|e.s|] == e.s)
  {
  }

  /** canonical resources; */
  lemma ResourceEntries(v: Value, e: Value)
    requires !v.Special?
    ensures MatchesConstraint(v, Obj(map["canonical_resource" := e])) <==>
      (e == Bool(true) ==> v.Str? && CanonicalizeResource(v.s) == Some(v.s))
    ensures e.Str? ==>
      (MatchesConstraint(v, Obj(map["canonical_prefix" := e])) <==>
        v.Str? && CanonicalizeResource(v.s) == Some(v.s) && |e.s| <= |v.s| && v.s[..|e.s|] == e.s)
  {
    hide CanonicalizeResource;
  }

  /** `required` and entries of other names restrict no value. */
  lemma OtherEntries(v: Value, k: string, e: Value)
    requires !v.Special? && k !in MATCHED_KEYS
    ensures MatchesConstraint(v, Obj(map[k := e]))
  {
    hide JsonEqual;
  }

  /** What it takes for a rule to apply: scope, purpose, window, parameters and state. */
  ghost predicate Fits(rule: Rule, r: Request, state: RuntimeState, now: int)
  {
    && Matches(r.subject, rule.subject) && Matches(r.session, rule.session) && Matches(r.tool, rule.tool)
    && Matches(r.action, rule.action) && Matches(r.resource, rule.resource)
    && (rule.purpose == [] || r.purpose in rule.purpose)
    && (rule.notBefore.None? || rule.notBefore.value <= now)
    && (rule.expiresAt.None? || now < rule.expiresAt.value)
    && (forall k | k in rule.params && k in r.Fields() :: MatchesConstraint(r.Fields()[k], rule.params[k]))
    && (forall k | k in rule.params && Capabilities.Required(rule.params[k]) :: k in r.Fields())
    && (forall k | k in rule.state :: k in state.values)
    && (forall k | k in rule.state && k in state.values :: MatchesConstraint(state.values[k], rule.state[k]))
  }

  lemma RuleMatchesMeaning(rule: Rule, r: Request, state: RuntimeState, now: int)
    ensures RuleMatches(rule, r, state, now) <==> Fits(rule, r, state, now)
  {
    hide Matches, MatchesConstraint;
  }

  /** An emergency stop is on and does not exempt the action. */
  ghost predicate Halted(p: Policy, r: Request, state: RuntimeState)
  {
    && p.emergency.Some?
    && var stop := p.emergency.value;
    && JsonEqual(if stop.stateKey in state.values then state.values[stop.stateKey] else Null, stop.equals)
    && (r.tool + ":" + r.action) !in stop.allowActions
  }

  /** Neither the emergency stop nor any deny or escalate rule applies. */
  ghost predicate Unrestricted(p: Policy, r: Request, state: RuntimeState, now: int)
  {
    && !Halted(p, r, state)
    && forall i | 0 <= i < |p.rules| && !p.rules[i].effect.Allow? :: !Fits(p.rules[i], r, state, now)
  }

  /** Rule `i` is the first allow rule that applies. */
  ghost predicate Selects(p: Policy, r: Request, state: RuntimeState, now: int, i: nat)
    requires i < |p.rules|
  {
    && p.rules[i].effect.Allow? && Fits(p.rules[i], r, state, now)
    && forall j | 0 <= j < i && p.rules[j].effect.Allow? :: !Fits(p.rules[j], r, state, now)
  }

  ghost predicate NothingSelects(p: Policy, r: Request, state: RuntimeState, now: int)
  {
    forall i | 0 <= i < |p.rules| && p.rules[i].effect.Allow? :: !Fits(p.rules[i], r, state, now)
  }

  /** Nothing restricts the request, and `id` names the rule that selects it, or none does and the default allows. */
  ghost predicate Carries(p: Policy, r: Request, state: RuntimeState, now: int, id: Option<string>)
  {
    && now >= 0 && Unrestricted(p, r, state, now)
    && if id.Some? then
         exists i: nat :: i < |p.rules| && Selects(p, r, state, now, i) && Some(p.rules[i].id) == id
       else
         p.defaultAllow && NothingSelects(p, r, state, now)
  }

  lemma StoppedMeaning(p: Policy, r: Request, state: RuntimeState)
    ensures Stopped(p, r, state) <==> Halted(p, r, state)
  {
    hide JsonEqual;
  }

  lemma {:induction false} FirstRestrictingMeaning(rules: seq<Rule>, r: Request, state: RuntimeState, now: int)
    ensures match FirstRestricting(rules, r, state, now)
      case Some(rule) => exists i ::
        && 0 <= i < |rules| && rules[i] == rule && !rule.effect.Allow? && Fits(rule, r, state, now)
        && forall j | 0 <= j < i && !rules[j].effect.Allow? :: !Fits(rules[j], r, state, now)
      case None => forall i | 0 <= i < |rules| && !rules[i].effect.Allow? :: !Fits(rules[i], r, state, now)
  {
    hide Fits, RuleMatches;
    if rules != [] {
      RuleMatchesMeaning(rules[0], r, state, now);
      FirstRestrictingMeaning(rules[1..], r, state, now);
      assert forall i | 0 < i < |rules| :: rules[i] == rules[1..][i-1];
      if !Restricts(rules[0], r, state, now) && FirstRestricting(rules[1..], r, state, now).Some? {
        var rule := FirstRestricting(rules[1..], r, state, now).value;
        var i :| && 0 <= i < |rules[1..]| && rules[1..][i] == rule && !rule.effect.Allow? && Fits(rule, r, state, now)
          && forall j | 0 <= j < i && !rules[1..][j].effect.Allow? :: !Fits(rules[1..][j], r, state, now);
        assert rules[i+1] == rule;
      } else if Restricts(rules[0], r, state, now) {
        assert rules[0] == rules[0];
      }
    }
  }

  lemma {:induction false} FirstPermittingMeaning(rules: seq<Rule>, r: Request, state: RuntimeState, now: int)
    ensures match FirstPermitting(rules, r, state, now)
      case Some(rule) => exists i ::
        && 0 <= i < |rules| && rules[i] == rule && rule.effect.Allow? && Fits(rule, r, state, now)
        && forall j | 0 <= j < i && rules[j].effect.Allow? :: !Fits(rules[j], r, state, now)
      case None => forall i | 0 <= i < |rules| && rules[i].effect.Allow? :: !Fits(rules[i], r, state, now)
  {
    hide Fits, RuleMatches;
    if rules != [] {
      RuleMatchesMeaning(rules[0], r, state, now);
      FirstPermittingMeaning(rules[1..], r, state, now);
      assert forall i | 0 < i < |rules| :: rules[i] == rules[1..][i-1];
      if !Permits(rules[0], r, state, now) && FirstPermitting(rules[1..], r, state, now).Some? {
        var rule := FirstPermitting(rules[1..], r, state, now).value;
        var i :| && 0 <= i < |rules[1..]| && rules[1..][i] == rule && rule.effect.Allow? && Fits(rule, r, state, now)
          && forall j | 0 <= j < i && rules[1..][j].effect.Allow? :: !Fits(rules[1..][j], r, state, now);
        assert rules[i+1] == rule;
      } else if Permits(rules[0], r, state, now) {
        assert rules[0] == rules[0];
      }
    }
  }

  /** The first applying allow rule is the only one that selects. */
  lemma SelectedRule(p: Policy, r: Request, state: RuntimeState, now: int)
    ensures match FirstPermitting(p.rules, r, state, now)
      case Some(rule) => exists i: nat :: i < |p.rules| && Selects(p, r, state, now, i) && p.rules[i] == rule
      case None => NothingSelects(p, r, state, now)
    ensures forall i: nat | i < |p.rules| && Selects(p, r, state, now, i) ::
      FirstPermitting(p.rules, r, state, now) == Some(p.rules[i])
  {
    hide Fits, FirstPermitting;
    FirstPermittingMeaning(p.rules, r, state, now);
    if FirstPermitting(p.rules, r, state, now).Some? {
      var rule := FirstPermitting(p.rules, r, state, now).value;
      var k :| && 0 <= k < |p.rules| && p.rules[k] == rule && rule.effect.Allow? && Fits(rule, r, state, now)
        && forall j | 0 <= j < k && p.rules[j].effect.Allow? :: !Fits(p.rules[j], r, state, now);
      assert Selects(p, r, state, now, k);
      forall i: nat | i < |p.rules| && Selects(p, r, state, now, i) ensures p.rules[i] == rule {
        assert !(i < k) && !(k < i);
      }
    }
  }

  /** Revalidation accepts exactly the rule that carries the request now. */
  lemma RevalidateSpelledOut(p: Policy, r: Request, state: RuntimeState, now: int, id: Option<string>)
    ensures Revalidate(p, r, state, now, id).None? <==> Carries(p, r, state, now, id)
  {
    StoppedMeaning(p, r, state);
    FirstRestrictingMeaning(p.rules, r, state, now);
    SelectedRule(p, r, state, now);
    hide Stopped, Halted, FirstRestricting, FirstPermitting, Fits;
    if Carries(p, r, state, now, id) && id.Some? {
      var i: nat :| i < |p.rules| && Selects(p, r, state, now, i) && Some(p.rules[i].id) == id;
      assert FirstPermitting(p.rules, r, state, now) == Some(p.rules[i]);
    }
  }

  /** The quotas of a rule leave room for one more authorization. */
  ghost predicate HasRoom(rule: Rule, r: Request, now: int, usage: Usage)
  {
    && (rule.rateLimit.Some? ==>
          var hits := usage.HitsOf(rule.id);
          |set i | 0 <= i < |hits|
            && now - rule.rateLimit.value.windowSeconds < hits[i]| < rule.rateLimit.value.maxCalls)
    && (usage.history != [] ==>
          var last := usage.history[|usage.history|-1];
          && last.actionKey !in rule.forbiddenAfter
          && !(last.actionKey in rule.separationAfter && last.subject == r.subject))
    && (rule.budget.Some? ==>
          var b := rule.budget.value;
          && b.costParam in r.Fields() && IsNumber(r.Fields()[b.costParam]) && 0.0 <= Number(r.Fields()[b.costParam])
          && usage.TotalOf(b.key) + Number(r.Fields()[b.costParam]) <= b.maxTotal)
  }

  lemma {:induction false} CountAfterMeaning(times: seq<int>, cutoff: int)
    ensures CountAfter(times, cutoff) == |set i | 0 <= i < |times| && cutoff < times[i]|
  {
    var all := set i | 0 <= i < |times| && cutoff < times[i];
    if times == [] {
      assert all == {};
    } else {
      var init, n := times[..|times|-1], |times| - 1;
      CountAfterMeaning(init, cutoff);
      var before := set i | 0 <= i < |init| && cutoff < init[i];
      assert all == if cutoff < times[n] then before + {n} else before;
    }
  }

  lemma QuotaRefusalMeaning(rule: Rule, r: Request, now: int, usage: Usage)
    ensures QuotaRefusal(rule, r, now, usage).None? <==> HasRoom(rule, r, now, usage)
  {
    if rule.rateLimit.Some? {
      CountAfterMeaning(usage.HitsOf(rule.id), now - rule.rateLimit.value.windowSeconds);
    }
  }

  /** Evaluation allows by a rule exactly when it carries the request and has room, and by default likewise. */
  lemma EvaluateSpelledOut(p: Policy, r: Request, state: RuntimeState, now: int, usage: Usage, id: Option<string>)
    requires ValidPolicy(p)
    ensures Evaluate(p, r, state, now, usage) == Allowed(id) <==>
      && Carries(p, r, state, now, id)
      && forall i | 0 <= i < |p.rules| && Some(p.rules[i].id) == id :: HasRoom(p.rules[i], r, now, usage)
  {
    StoppedMeaning(p, r, state);
    FirstRestrictingMeaning(p.rules, r, state, now);
    SelectedRule(p, r, state, now);
    hide Stopped, Halted, FirstRestricting, Fits, HasRoom, QuotaRefusal, FirstPermitting;
    var first := FirstPermitting(p.rules, r, state, now);
    if first.Some? {
      QuotaRefusalMeaning(first.value, r, now, usage);
      var k: nat :| k < |p.rules| && Selects(p, r, state, now, k) && p.rules[k] == first.value;
      assert forall i | 0 <= i < |p.rules| && p.rules[i].id == first.value.id :: i == k;
    }
  }

  /** Each refusal names something that is the case. */
  lemma EvaluateRefusalIsTrue(p: Policy, r: Request, state: RuntimeState, now: int, usage: Usage)
    ensures match Evaluate(p, r, state, now, usage)
      case Allowed(_) => true
      case Refused(InvalidPolicyTime, _) => now < 0
      case Refused(EmergencyStopped, _) => Halted(p, r, state)
      case Refused(EscalationRequired, id) => exists i ::
        0 <= i < |p.rules| && p.rules[i].effect.Escalate? && Fits(p.rules[i], r, state, now)
          && Some(p.rules[i].id) == id
      case Refused(DeniedByRule, id) => exists i ::
        0 <= i < |p.rules| && p.rules[i].effect.Deny? && Fits(p.rules[i], r, state, now) && Some(p.rules[i].id) == id
      case Refused(DeniedByDefault, _) => !p.defaultAllow && NothingSelects(p, r, state, now)
      case Refused(_, id) => exists i: nat ::
        && i < |p.rules| && Selects(p, r, state, now, i) && Some(p.rules[i].id) == id
        && !HasRoom(p.rules[i], r, now, usage)
  {
    StoppedMeaning(p, r, state);
    FirstRestrictingMeaning(p.rules, r, state, now);
    SelectedRule(p, r, state, now);
    var first := FirstPermitting(p.rules, r, state, now);
    if first.Some? { QuotaRefusalMeaning(first.value, r, now, usage); }
    hide Stopped, Halted, FirstRestricting, FirstPermitting, Fits, Selects, HasRoom;
    QuotaReasons(first, r, now, usage);
    hide QuotaRefusal;
  }

  lemma QuotaReasons(first: Option<Rule>, r: Request, now: int, usage: Usage)
    ensures first.Some? && QuotaRefusal(first.value, r, now, usage).Some? ==>
      IsQuotaRefusal(QuotaRefusal(first.value, r, now, usage).value)
  {
  }

  /** A deny or escalate rule that applies always refuses, in evaluation and in revalidation. */
  lemma RestrictingRuleRefuses(p: Policy, r: Request, state: RuntimeState, now: int, usage: Usage, i: nat,
                               id: Option<string>)
    requires i < |p.rules| && !p.rules[i].effect.Allow? && Fits(p.rules[i], r, state, now)
    ensures Evaluate(p, r, state, now, usage).Refused? && Revalidate(p, r, state, now, id).Some?
  {
    FirstRestrictingMeaning(p.rules, r, state, now);
    hide Fits, FirstRestricting, FirstPermitting, Stopped;
  }

  // ----------------------------------------------------- agreement, precedence

  lemma {:induction false} FirstPermittingMember(rules: seq<Rule>, r: Request, state: RuntimeState, now: int)
    ensures var first := FirstPermitting(rules, r, state, now);
      && (first.Some? ==> first.value in rules && Permits(first.value, r, state, now))
      && (first.None? ==> forall i | 0 <= i < |rules| :: !Permits(rules[i], r, state, now))
  {
    if rules != [] {
      FirstPermittingMember(rules[1..], r, state, now);
      assert forall i | 0 < i < |rules| :: rules[i] == rules[1..][i-1];
    }
  }

  lemma {:induction false} FirstRestrictingNone(rules: seq<Rule>, r: Request, state: RuntimeState, now: int)
    ensures FirstRestricting(rules, r, state, now).None? <==>
      forall i | 0 <= i < |rules| :: !Restricts(rules[i], r, state, now)
  {
    if rules != [] {
      FirstRestrictingNone(rules[1..], r, state, now);
      assert forall i | 0 < i < |rules| :: rules[i] == rules[1..][i-1];
    }
  }

  /**
   * The two paths agree: revalidation accepts rule `id` exactly when evaluation
   * would allow by that rule or refuse by it only for an exhausted quota.
   */
  lemma RevalidateMeaning(p: Policy, r: Request, state: RuntimeState, now: int, usage: Usage, id: Option<string>)
    ensures Revalidate(p, r, state, now, id).None? <==>
      var verdict := Evaluate(p, r, state, now, usage);
      verdict.ruleId == id && (verdict.Allowed? || IsQuotaRefusal(verdict.reason))
  {
  }

  /** The rules with one of two effects, in order. */
  function AllowRules(rules: seq<Rule>): seq<Rule>
  {
    if rules == [] then []
    else (if rules[0].effect.Allow? then [rules[0]] else []) + AllowRules(rules[1..])
  }

  lemma {:induction false} PermittingDependsOnAllowRules(rules: seq<Rule>, r: Request, state: RuntimeState, now: int)
    ensures FirstPermitting(rules, r, state, now) == FirstPermitting(AllowRules(rules), r, state, now)
  {
    if rules != [] {
      PermittingDependsOnAllowRules(rules[1..], r, state, now);
      if rules[0].effect.Allow? {
        assert AllowRules(rules)[1..] == AllowRules(rules[1..]);
      } else {
        assert AllowRules(rules) == AllowRules(rules[1..]);
      }
    }
  }

  /** Every deny or escalate rule of `fewer` is also in `more`. */
  ghost predicate RestrictsAtMost(fewer: seq<Rule>, more: seq<Rule>)
  {
    forall i | 0 <= i < |fewer| :: !fewer[i].effect.Allow? ==> fewer[i] in more
  }

  /**
   * Deny precedence: with the same allow rules in the same order, more deny and
   * escalate rules, wherever they stand, never turn a denial into an allow.
   */
  lemma RestrictingNeverAllows(p: Policy, q: Policy, r: Request, state: RuntimeState, now: int, usage: Usage)
    requires AllowRules(p.rules) == AllowRules(q.rules) && RestrictsAtMost(p.rules, q.rules)
    requires p.defaultAllow == q.defaultAllow && p.emergency == q.emergency
    ensures Evaluate(q, r, state, now, usage).Allowed? ==>
      Evaluate(p, r, state, now, usage) == Evaluate(q, r, state, now, usage)
  {
    PermittingDependsOnAllowRules(p.rules, r, state, now);
    PermittingDependsOnAllowRules(q.rules, r, state, now);
    FirstRestrictingNone(p.rules, r, state, now);
    FirstRestrictingNone(q.rules, r, state, now);
    if FirstRestricting(q.rules, r, state, now).None? {
      forall i | 0 <= i < |p.rules| ensures !Restricts(p.rules[i], r, state, now) {
        if !p.rules[i].effect.Allow? {
          var j :| 0 <= j < |q.rules| && q.rules[j] == p.rules[i];
          assert !Restricts(q.rules[j], r, state, now);
        }
      }
    }
  }

  /** Reordering that keeps the allow rules' relative order never changes who is allowed, or by which rule. */
  lemma ReorderingIrrelevant(p: Policy, q: Policy, r: Request, state: RuntimeState, now: int, usage: Usage)
    requires AllowRules(p.rules) == AllowRules(q.rules)
    requires RestrictsAtMost(p.rules, q.rules) && RestrictsAtMost(q.rules, p.rules)
    requires p.defaultAllow == q.defaultAllow && p.emergency == q.emergency
    ensures var a, b := Evaluate(p, r, state, now, usage), Evaluate(q, r, state, now, usage);
      a == b || (a.Refused? && b.Refused? && (a.reason.DeniedByRule? || a.reason.EscalationRequired?)
                                          && (b.reason.DeniedByRule? || b.reason.EscalationRequired?))
  {
    RestrictingNeverAllows(p, q, r, state, now, usage);
    RestrictingNeverAllows(q, p, r, state, now, usage);
    PermittingDependsOnAllowRules(p.rules, r, state, now);
    PermittingDependsOnAllowRules(q.rules, r, state, now);
    FirstRestrictingNone(p.rules, r, state, now);
    FirstRestrictingNone(q.rules, r, state, now);
    if FirstRestricting(q.rules, r, state, now).None? {
      RestrictionTransfers(p.rules, q.rules, r, state, now);
    }
    if FirstRestricting(p.rules, r, state, now).None? {
      RestrictionTransfers(q.rules, p.rules, r, state, now);
    }
  }

  lemma RestrictionTransfers(fewer: seq<Rule>, more: seq<Rule>, r: Request, state: RuntimeState, now: int)
    requires RestrictsAtMost(fewer, more) && FirstRestricting(more, r, state, now).None?
    ensures FirstRestricting(fewer, r, state, now).None?
  {
    FirstRestrictingNone(fewer, r, state, now);
    FirstRestrictingNone(more, r, state, now);
    forall i | 0 <= i < |fewer| ensures !Restricts(fewer[i], r, state, now) {
      if !fewer[i].effect.Allow? {
        var j :| 0 <= j < |more| && more[j] == fewer[i];
        assert !Restricts(more[j], r, state, now);
      }
    }
  }

  lemma {:induction false} RuleByIdFinds(rules: seq<Rule>, rule: Rule)
    requires rule in rules
    requires forall i, j | 0 <= i < j < |rules| :: rules[i].id != rules[j].id
    ensures RuleById(rules, rule.id) == Some(rule)
  {
    if rules[0].id == rule.id {
      var i :| 0 <= i < |rules| && rules[i] == rule;
      assert i == 0;
    } else {
      assert rules == [rules[0]] + rules[1..];
      RuleByIdFinds(rules[1..], rule);
    }
  }

  lemma {:induction false} RuleByIdIsRule(rules: seq<Rule>, id: string)
    ensures RuleById(rules, id).Some? ==> RuleById(rules, id).value in rules && RuleById(rules, id).value.id == id
  {
    if rules != [] && rules[0].id != id { RuleByIdIsRule(rules[1..], id); }
  }

  /** The deadline is the expiry of the rule that carries the id, if that rule has one. */
  lemma DeadlineMeaning(p: Policy, id: Option<string>)
    requires ValidPolicy(p)
    ensures forall i | 0 <= i < |p.rules| && Some(p.rules[i].id) == id :: Deadline(p, id) == p.rules[i].expiresAt
    ensures Deadline(p, id).Some? ==>
      exists i :: 0 <= i < |p.rules| && Some(p.rules[i].id) == id && p.rules[i].expiresAt == Deadline(p, id)
  {
    forall i | 0 <= i < |p.rules| && Some(p.rules[i].id) == id ensures Deadline(p, id) == p.rules[i].expiresAt {
      RuleByIdFinds(p.rules, p.rules[i]);
    }
    if id.Some? { RuleByIdIsRule(p.rules, id.value); }
  }

  /** What allowance by `id` entails for the rule carrying that id. */
  lemma AllowedRule(p: Policy, r: Request, state: RuntimeState, now: int, usage: Usage, id: string)
    requires ValidPolicy(p) && Evaluate(p, r, state, now, usage) == Allowed(Some(id))
    ensures var rule := RuleById(p.rules, id);
      && rule.Some? && rule.value.id == id && rule.value in p.rules
      && Permits(rule.value, r, state, now)
      && QuotaRefusal(rule.value, r, now, usage).None?
  {
    FirstPermittingMember(p.rules, r, state, now);
    RuleByIdFinds(p.rules, FirstPermitting(p.rules, r, state, now).value);
  }

  /** An allowed request can always be recorded. */
  lemma AllowedIsRecordable(p: Policy, r: Request, state: RuntimeState, now: int, usage: Usage)
    requires ValidPolicy(p) && Evaluate(p, r, state, now, usage).Allowed?
    ensures now >= 0
    ensures Record(p, Evaluate(p, r, state, now, usage).ruleId, r, now, usage).Success?
  {
    var id := Evaluate(p, r, state, now, usage).ruleId;
    if id.Some? { AllowedRule(p, r, state, now, usage, id.value); }
  }

  // ------------------------------------------------------------------- quotas

  /** The number of recorded times in the window (t - width, t]. */
  function CountWithin(times: seq<int>, width: int, t: int): nat
  {
    if times == [] then 0
    else CountWithin(times[..|times|-1], width, t) + (if t - width < times[|times|-1] <= t then 1 else 0)
  }

  lemma {:induction false} WithinAtMostAfter(times: seq<int>, width: int, t: int, cutoff: int)
    requires cutoff <= t - width
    ensures CountWithin(times, width, t) <= CountAfter(times, cutoff)
  {
    if times != [] { WithinAtMostAfter(times[..|times|-1], width, t, cutoff); }
  }

  /** No window of the rule's length, wherever it is placed, holds more hits than the limit. */
  ghost predicate RateRespected(rule: Rule, times: seq<int>)
  {
    rule.rateLimit.Some? ==>
      forall t: int :: CountWithin(times, rule.rateLimit.value.windowSeconds, t) <= rule.rateLimit.value.maxCalls
  }

  lemma AppendRespectsRate(rule: Rule, times: seq<int>, now: int)
    requires RateRespected(rule, times)
    requires rule.rateLimit.Some? ==>
      CountAfter(times, now - rule.rateLimit.value.windowSeconds) < rule.rateLimit.value.maxCalls
    ensures RateRespected(rule, times + [now])
  {
    if rule.rateLimit.Some? {
      var w := rule.rateLimit.value.windowSeconds;
      assert (times + [now])[..|times|] == times;
      forall t: int ensures CountWithin(times + [now], w, t) <= rule.rateLimit.value.maxCalls {
        if t - w < now <= t {
          WithinAtMostAfter(times, w, t, now - w);
        }
      }
    }
  }

  /** Consecutive authorizations respect the later rule's sequence restrictions. */
  ghost predicate StepRespected(p: Policy, earlier: Authorization, later: Authorization)
  {
    var rule := RuleFor(p, later.ruleId);
    rule.Some? ==>
      && earlier.actionKey !in rule.value.forbiddenAfter
      && (earlier.actionKey in rule.value.separationAfter ==> earlier.subject != later.subject)
  }

  /** A budget total is untouched or within the limit of some rule that shares its key. */
  ghost predicate BudgetRespected(p: Policy, key: string, total: real)
  {
    total == 0.0 ||
    exists i | 0 <= i < |p.rules| ::
      p.rules[i].budget.Some? && p.rules[i].budget.value.key == key && total <= p.rules[i].budget.value.maxTotal
  }

  ghost predicate QuotasRespected(p: Policy, usage: Usage)
  {
    && (forall i | 0 <= i < |p.rules| :: RateRespected(p.rules[i], usage.HitsOf(p.rules[i].id)))
    && (forall i | 0 <= i < |usage.history| - 1 :: StepRespected(p, usage.history[i], usage.history[i+1]))
    && (forall key :: BudgetRespected(p, key, usage.TotalOf(key)))
  }

  /** An authorization as the runtime grants it. */
  datatype Grant = Grant(at: int, request: Request, ruleId: Option<string>)

  function CostUnder(p: Policy, g: Grant, key: string): real
  {
    var rule := RuleFor(p, g.ruleId);
    if rule.Some? && rule.value.budget.Some? && rule.value.budget.value.key == key
    then Number(CostOf(rule.value.budget.value, g.request)) else 0.0
  }

  /** The exact sum of the costs granted against a budget key. */
  function Spent(p: Policy, grants: seq<Grant>, key: string): real
  {
    if grants == [] then 0.0
    else Spent(p, grants[..|grants|-1], key) + CostUnder(p, grants[|grants|-1], key)
  }

  /** When grants were made under a rule, in order. */
  function TimesOf(grants: seq<Grant>, id: string): seq<int>
  {
    if grants == [] then []
    else
      TimesOf(grants[..|grants|-1], id) +
      (if grants[|grants|-1].ruleId == Some(id) then [grants[|grants|-1].at] else [])
  }

  /** How many grants were made under a rule in the window (t - width, t]. */
  function GrantedWithin(grants: seq<Grant>, id: string, width: int, t: int): nat
  {
    if grants == [] then 0
    else
      GrantedWithin(grants[..|grants|-1], id, width, t) +
      (if grants[|grants|-1].ruleId == Some(id) && t - width < grants[|grants|-1].at <= t then 1 else 0)
  }

  lemma {:induction false} WithinIsGranted(grants: seq<Grant>, id: string, width: int, t: int)
    ensures CountWithin(TimesOf(grants, id), width, t) == GrantedWithin(grants, id, width, t)
  {
    if grants != [] {
      var before, last := TimesOf(grants[..|grants|-1], id), grants[|grants|-1];
      WithinIsGranted(grants[..|grants|-1], id, width, t);
      if last.ruleId == Some(id) {
        assert (before + [last.at])[..|before|] == before;
      } else {
        assert before + [] == before;
      }
    }
  }

  /** The recorded usage is exactly what the grants amount to. */
  ghost predicate Recorded(p: Policy, usage: Usage, grants: seq<Grant>)
  {
    && |usage.history| == |grants|
    && (forall id :: usage.HitsOf(id) == TimesOf(grants, id))
    && (forall i | 0 <= i < |grants| ::
          usage.history[i] ==
            Authorization(grants[i].at, grants[i].request.ActionKey(), grants[i].request.subject, grants[i].ruleId))
    && (forall key :: usage.TotalOf(key) == Spent(p, grants, key))
  }

  /** What an allowing rule's quotas leave room for. */
  lemma RoomForOne(rule: Rule, r: Request, now: int, usage: Usage)
    requires QuotaRefusal(rule, r, now, usage).None?
    ensures rule.rateLimit.Some? ==>
      CountAfter(usage.HitsOf(rule.id), now - rule.rateLimit.value.windowSeconds) < rule.rateLimit.value.maxCalls
    ensures rule.budget.Some? ==>
      usage.TotalOf(rule.budget.value.key) + Number(CostOf(rule.budget.value, r)) <= rule.budget.value.maxTotal
    ensures usage.history != [] ==>
      && usage.history[|usage.history|-1].actionKey !in rule.forbiddenAfter
      && (usage.history[|usage.history|-1].actionKey in rule.separationAfter ==>
            usage.history[|usage.history|-1].subject != r.subject)
  {
  }

  /** What recording an allowed request does, rule by rule and key by key. */
  lemma RecordEffect(p: Policy, r: Request, state: RuntimeState, now: int, usage: Usage)
    requires ValidPolicy(p) && Evaluate(p, r, state, now, usage).Allowed?
    ensures var id := Evaluate(p, r, state, now, usage).ruleId;
      && Record(p, id, r, now, usage).Success?
      && var after := Record(p, id, r, now, usage).value;
      && after.history == usage.history + [Authorization(now, r.ActionKey(), r.subject, id)]
      && if id.None? then after.hits == usage.hits && after.totals == usage.totals
         else
           var rule := RuleById(p.rules, id.value);
           && rule.Some? && rule.value in p.rules && rule.value.id == id.value
           && QuotaRefusal(rule.value, r, now, usage).None?
           && after.hits == usage.hits[id.value := usage.HitsOf(id.value) + [now]]
           && after.totals ==
                (if rule.value.budget.None? then usage.totals
                 else usage.totals[rule.value.budget.value.key :=
                        usage.TotalOf(rule.value.budget.value.key) + Number(CostOf(rule.value.budget.value, r))])
  {
    var id := Evaluate(p, r, state, now, usage).ruleId;
    AllowedIsRecordable(p, r, state, now, usage);
    if id.Some? { AllowedRule(p, r, state, now, usage, id.value); }
    hide Evaluate, RuleMatches, Stopped;
  }

  /** Recording an allowed request extends the exact record by that grant. */
  lemma RecordIsExact(p: Policy, r: Request, state: RuntimeState, now: int, usage: Usage, grants: seq<Grant>)
    requires ValidPolicy(p) && Evaluate(p, r, state, now, usage).Allowed? && Recorded(p, usage, grants)
    ensures var id := Evaluate(p, r, state, now, usage).ruleId;
      && Record(p, id, r, now, usage).Success?
      && Recorded(p, Record(p, id, r, now, usage).value, grants + [Grant(now, r, id)])
  {
    hide Evaluate, Record, QuotaRefusal, RuleMatches;
    RecordEffect(p, r, state, now, usage);
    var id := Evaluate(p, r, state, now, usage).ruleId;
    var g := Grant(now, r, id);
    var after := Record(p, id, r, now, usage).value;
    assert (grants + [g])[..|grants|] == grants;
    forall k ensures after.HitsOf(k) == TimesOf(grants + [g], k) {
      assert usage.HitsOf(k) == TimesOf(grants, k);
    }
    forall key ensures after.TotalOf(key) == Spent(p, grants + [g], key) {
      assert usage.TotalOf(key) == Spent(p, grants, key);
    }
  }

  /** What the quotas mean for the grants themselves. */
  ghost predicate GrantsRespectQuotas(p: Policy, grants: seq<Grant>)
  {
    && (forall i, t: int {:trigger RateHolds(p.rules[i], grants, t)} | 0 <= i < |p.rules| ::
      RateHolds(p.rules[i], grants, t))
    && (forall i | 0 <= i < |grants| - 1 :: FollowsOn(p, grants[i], grants[i+1]))
    && (forall key :: BudgetRespected(p, key, Spent(p, grants, key)))
  }

  /** At most `maxCalls` grants under the rule in the window of its length that ends at `t`. */
  predicate RateHolds(rule: Rule, grants: seq<Grant>, t: int)
  {
    rule.rateLimit.Some? ==>
      GrantedWithin(grants, rule.id, rule.rateLimit.value.windowSeconds, t) <= rule.rateLimit.value.maxCalls
  }

  /** The later grant's rule does not forbid what the earlier grant was for. */
  ghost predicate FollowsOn(p: Policy, earlier: Grant, later: Grant)
  {
    var rule := RuleFor(p, later.ruleId);
    rule.Some? ==>
      && earlier.request.ActionKey() !in rule.value.forbiddenAfter
      && (earlier.request.ActionKey() in rule.value.separationAfter ==>
        earlier.request.subject != later.request.subject)
  }

  /** Quotas kept on the recorded usage are quotas on the grants it records. */
  lemma QuotasBoundGrants(p: Policy, usage: Usage, grants: seq<Grant>)
    requires QuotasRespected(p, usage) && Recorded(p, usage, grants)
    ensures GrantsRespectQuotas(p, grants)
  {
    forall i, t: int | 0 <= i < |p.rules| ensures RateHolds(p.rules[i], grants, t) {
      var rule := p.rules[i];
      assert RateRespected(rule, usage.HitsOf(rule.id)) && usage.HitsOf(rule.id) == TimesOf(grants, rule.id);
      if rule.rateLimit.Some? {
        WithinIsGranted(grants, rule.id, rule.rateLimit.value.windowSeconds, t);
      }
    }
    forall i | 0 <= i < |grants| - 1 ensures FollowsOn(p, grants[i], grants[i+1]) {
      assert StepRespected(p, usage.history[i], usage.history[i+1]);
    }
    forall key ensures BudgetRespected(p, key, Spent(p, grants, key)) {
      assert BudgetRespected(p, key, usage.TotalOf(key));
    }
  }

  lemma RecordKeepsRates(p: Policy, r: Request, state: RuntimeState, now: int, usage: Usage, i: nat)
    requires ValidPolicy(p) && Evaluate(p, r, state, now, usage).Allowed? && QuotasRespected(p, usage)
    requires i < |p.rules|
    ensures var after := Record(p, Evaluate(p, r, state, now, usage).ruleId, r, now, usage);
      after.Success? && RateRespected(p.rules[i], after.value.HitsOf(p.rules[i].id))
  {
    hide Evaluate, Record, QuotaRefusal, RateRespected, CountAfter;
    RecordEffect(p, r, state, now, usage);
    var id := Evaluate(p, r, state, now, usage).ruleId;
    if id.Some? && p.rules[i].id == id.value {
      var rule := RuleById(p.rules, id.value).value;
      var j :| 0 <= j < |p.rules| && p.rules[j] == rule;
      assert rule == p.rules[i];
      RoomForOne(rule, r, now, usage);
      AppendRespectsRate(rule, usage.HitsOf(rule.id), now);
    }
  }

  lemma RecordKeepsBudgets(p: Policy, r: Request, state: RuntimeState, now: int, usage: Usage, key: string)
    requires ValidPolicy(p) && Evaluate(p, r, state, now, usage).Allowed? && QuotasRespected(p, usage)
    ensures var after := Record(p, Evaluate(p, r, state, now, usage).ruleId, r, now, usage);
      after.Success? && BudgetRespected(p, key, after.value.TotalOf(key))
  {
    hide Evaluate, Record, QuotaRefusal, RateRespected;
    RecordEffect(p, r, state, now, usage);
    var id := Evaluate(p, r, state, now, usage).ruleId;
    assert BudgetRespected(p, key, usage.TotalOf(key));
    if id.Some? {
      var rule := RuleById(p.rules, id.value).value;
      var j :| 0 <= j < |p.rules| && p.rules[j] == rule;
      RoomForOne(rule, r, now, usage);
    }
  }

  lemma RecordKeepsSequence(p: Policy, r: Request, state: RuntimeState, now: int, usage: Usage, i: nat)
    requires ValidPolicy(p) && Evaluate(p, r, state, now, usage).Allowed? && QuotasRespected(p, usage)
    ensures var after := Record(p, Evaluate(p, r, state, now, usage).ruleId, r, now, usage);
      && after.Success?
      && (i < |after.value.history| - 1 ==> StepRespected(p, after.value.history[i], after.value.history[i+1]))
  {
    hide Evaluate, Record, QuotaRefusal, RateRespected, BudgetRespected;
    RecordEffect(p, r, state, now, usage);
    var id := Evaluate(p, r, state, now, usage).ruleId;
    if id.Some? { RoomForOne(RuleById(p.rules, id.value).value, r, now, usage); }
    if i < |usage.history| - 1 { assert StepRespected(p, usage.history[i], usage.history[i+1]); }
  }

  /** Whatever the clock does, recording an allowed request keeps every quota. */
  lemma RecordKeepsQuotas(p: Policy, r: Request, state: RuntimeState, now: int, usage: Usage)
    requires ValidPolicy(p) && Evaluate(p, r, state, now, usage).Allowed? && QuotasRespected(p, usage)
    ensures var after := Record(p, Evaluate(p, r, state, now, usage).ruleId, r, now, usage);
      after.Success? && QuotasRespected(p, after.value)
  {
    hide Evaluate, Record, RateRespected, BudgetRespected, StepRespected, RuleById;
    RecordEffect(p, r, state, now, usage);
    var after := Record(p, Evaluate(p, r, state, now, usage).ruleId, r, now, usage).value;
    forall i | 0 <= i < |p.rules| ensures RateRespected(p.rules[i], after.HitsOf(p.rules[i].id)) {
      RecordKeepsRates(p, r, state, now, usage, i);
    }
    forall i | 0 <= i < |after.history| - 1 ensures StepRespected(p, after.history[i], after.history[i+1]) {
      RecordKeepsSequence(p, r, state, now, usage, i);
    }
    forall key ensures BudgetRespected(p, key, after.TotalOf(key)) {
      RecordKeepsBudgets(p, r, state, now, usage, key);
    }
  }

  /** Right after an authorization its rule's own budget limit holds. */
  lemma BudgetAfterGrant(p: Policy, r: Request, state: RuntimeState, now: int, usage: Usage, id: string)
    requires ValidPolicy(p) && Evaluate(p, r, state, now, usage) == Allowed(Some(id))
    ensures var rule, after := RuleById(p.rules, id), Record(p, Some(id), r, now, usage);
      && rule.Some? && after.Success?
      && (rule.value.budget.Some? ==>
            after.value.TotalOf(rule.value.budget.value.key) <= rule.value.budget.value.maxTotal)
  {
    AllowedRule(p, r, state, now, usage, id);
  }

  lemma NoUsageRespectsQuotas(p: Policy)
    requires ValidPolicy(p)
    ensures QuotasRespected(p, NO_USAGE) && Recorded(p, NO_USAGE, [])
  {
    forall i | 0 <= i < |p.rules| ensures RateRespected(p.rules[i], NO_USAGE.HitsOf(p.rules[i].id)) {
      assert NO_USAGE.HitsOf(p.rules[i].id) == [];
    }
  }
}
