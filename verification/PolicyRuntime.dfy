/** The usage a policy engine records, as the object the monitor updates in place. */
module PolicyRuntime {
  import opened Wrappers
  import opened Values
  import opened Canonical
  import opened Policies

  class PolicyRuntimeState {
    var ruleHits: map<string, seq<int>>
    var authorizationHistory: seq<Authorization>
    var resourceUsage: map<string, real>

    ghost function Model(): Usage
      reads this
    {
      Usage(ruleHits, authorizationHistory, resourceUsage)
    }

    constructor ()
      ensures Model() == NO_USAGE
    {
      ruleHits, authorizationHistory, resourceUsage := map[], [], map[];
    }
  }

  /** `record_authorization`: an invalid cost is refused before anything is recorded. */
  method RecordAuthorization(policy: Policy, ruleId: Option<string>, r: Request, now: int, runtime: PolicyRuntimeState)
    returns (error: Option<PolicyRefusal>)
    modifies runtime
    ensures match Record(policy, ruleId, r, now, old(runtime.Model()))
      case Success(after) => error.None? && runtime.Model() == after
      case Failure(why) => error == Some(why) && runtime.Model() == old(runtime.Model())
  {
    if now < 0 {
      return Some(InvalidPolicyTime);
    }
    error := None;
    if ruleId.None? {
      var entry := Authorization(now, r.ActionKey(), r.subject, None);
      runtime.authorizationHistory := runtime.authorizationHistory + [entry];
      return;
    }
    var found := RuleById(policy.rules, ruleId.value);
    if found.None? || !found.value.effect.Allow? {
      return;
    }
    var rule := found.value;
    RuleByIdIsRule(policy.rules, ruleId.value);
    var budgetTotal: Option<real> := None;
    if rule.budget.Some? {
      var cost := CostOf(rule.budget.value, r);
      if !ValidCost(cost) {
        return Some(InvalidCost);
      }
      var key := rule.budget.value.key;
      var current := if key in runtime.resourceUsage then runtime.resourceUsage[key] else 0.0;
      budgetTotal := Some(current + Number(cost));
    }
    if ruleId.value !in runtime.ruleHits {
      runtime.ruleHits := runtime.ruleHits[ruleId.value := []];
    }
    runtime.ruleHits := runtime.ruleHits[ruleId.value := runtime.ruleHits[ruleId.value] + [now]];
    var entry := Authorization(now, r.ActionKey(), r.subject, ruleId);
    runtime.authorizationHistory := runtime.authorizationHistory + [entry];
    if budgetTotal.Some? {
      runtime.resourceUsage := runtime.resourceUsage[rule.budget.value.key := budgetTotal.value];
    }
  }
}
