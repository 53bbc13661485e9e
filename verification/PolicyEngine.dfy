/**
 * Conflict resolution between governance policies (app/governance/policy_engine.py): of the
 * rules that match a context, those of the highest priority decide, and one denial among
 * them is enough.
 */
module PolicyEngine {
  import opened Wrappers
  import opened StableSort
  import opened PolicyRules

  method CollectMatches(policies: seq<Policy>, kind: PolicyType, context: Context) returns (matched: seq<Match>)
    ensures matched == Matches(policies, kind, context)
  {
    matched := [];
    for i := 0 to |policies|
      invariant matched == Matches(policies[..i], kind, context)
    {
      var policy := policies[i];
      assert policies[..i + 1][..i] == policies[..i];
      if Applies(policy, kind) {
        ghost var before := matched;
        for j := 0 to |policy.rules|
          invariant matched == before + RuleMatchesOf(policy, policy.rules[..j], context)
        {
          assert policy.rules[..j + 1][..j] == policy.rules[..j];
          if RuleMatches(policy.rules[j], context) {
            matched := matched + [Match(policy, policy.rules[j])];
          }
        }
        assert policy.rules[..|policy.rules|] == policy.rules;
      }
    }
    assert policies[..|policies|] == policies;
  }

  method Evaluate(killSwitch: bool, policies: seq<Policy>, kind: PolicyType, context: Context)
    returns (d: Decision)
    ensures d.allowed <==> !(kind == EXECUTION && killSwitch) && Permitted(policies, kind, context)
    ensures d.allowed
       <==> !(kind == EXECUTION && killSwitch) && forall i, j :: !DeniesOnTop(policies, kind, context, i, j)
    ensures kind == EXECUTION && killSwitch ==> d.rule.None? && |d.violations| == 1
    ensures !(kind == EXECUTION && killSwitch) ==>
      if d.rule.None? then forall i, j :: !Bears(policies, kind, context, i, j)
      else NamesTheFirst(policies, kind, context, d)
    ensures !d.allowed && !(kind == EXECUTION && killSwitch) ==>
      var matches := Matches(policies, kind, context);
      matches != [] && exists m :: FirstDenial(Top(matches), m) && Names(d, m) && d.violations == [DenialMessage(m)]
    ensures d.allowed ==>
      var matches := Matches(policies, kind, context);
      d.violations == [] && if matches == [] then d.rule.None? else Names(d, Top(matches)[0])
  {
    PermittedMeans(policies, kind, context);
    if kind == EXECUTION && killSwitch {
      return Decision(false, None, None, None,
        ["Global kill switch active: WORKFLOW_EXECUTION_DISABLED is set to true."]);
    }
    var matched := CollectMatches(policies, kind, context);
    if matched == [] {
      MatchesMembers(policies, kind, context);
      BearingIsMatched(policies, kind, context);
      return Decision(true, None, None, None, []);
    }
    d := ResolveConflict(policies, kind, context, matched);
    DecisionNamesTheFirst(policies, kind, context, d);
  }

  /** Of the matches of the highest priority the first denial decides, else the first. */
  method ResolveConflict(ghost policies: seq<Policy>, ghost kind: PolicyType, ghost context: Context,
                         matched: seq<Match>)
    returns (d: Decision)
    requires matched == Matches(policies, kind, context) != []
    ensures d.allowed <==> Permitted(policies, kind, context)
    ensures !d.allowed ==>
      exists m :: FirstDenial(Top(matched), m) && Names(d, m) && d.violations == [DenialMessage(m)]
    ensures d.allowed ==> d.violations == [] && Names(d, Top(matched)[0])
  {
    MatchesMembers(policies, kind, context);
    TopMembers(policies, kind, context);
    var sorted := SortDescending(matched, Priority);
    SortedTop(matched);
    var top := WithKey(sorted, Priority, Priority(sorted[0]));
    var deny := FirstDenying(top);
    match deny {
      case Some(m) =>
        assert m in top;
        return Decision(false, Some(m.policy.id), Some(m.policy.version), Some(m.rule), [DenialMessage(m)]);
      case None =>
        var first := top[0];
        return Decision(true, Some(first.policy.id), Some(first.policy.version), Some(first.rule), []);
    }
  }

  method FirstDenying(top: seq<Match>) returns (deny: Option<Match>)
    ensures deny.None? ==> forall m :: m in top ==> m.rule.allowed
    ensures deny.Some? ==> FirstDenial(top, deny.value)
  {
    for i := 0 to |top|
      invariant forall j :: 0 <= j < i ==> top[j].rule.allowed
    {
      if !top[i].rule.allowed {
        return Some(top[i]);
      }
    }
    return None;
  }

  // ---- Simulation ----

  function SimulatedMessage(rule: Rule): string
  {
    match rule.message
    case Some(text) => text
    case None => "Denied by simulated rule"
  }

  ghost function MatchingRules(rules: seq<Rule>, context: Context): seq<Rule>
  {
    if rules == [] then []
    else
      var last := rules[|rules| - 1];
      MatchingRules(rules[..|rules| - 1], context) + if RuleMatches(last, context) then [last] else []
  }

  lemma {:induction false} MatchingRulesMembers(rules: seq<Rule>, context: Context)
    ensures forall r :: r in MatchingRules(rules, context) <==> r in rules && RuleMatches(r, context)
  {
    if rules != [] {
      MatchingRulesMembers(rules[..|rules| - 1], context);
      assert rules == rules[..|rules| - 1] + [rules[|rules| - 1]];
    }
  }

  ghost function Denials(matched: seq<Rule>): seq<string>
  {
    if matched == [] then []
    else
      var last := matched[|matched| - 1];
      Denials(matched[..|matched| - 1]) + if last.allowed then [] else [SimulatedMessage(last)]
  }

  lemma {:induction false} NoDenials(matched: seq<Rule>)
    ensures Denials(matched) == [] <==> forall r :: r in matched ==> r.allowed
  {
    if matched != [] {
      NoDenials(matched[..|matched| - 1]);
      assert matched == matched[..|matched| - 1] + [matched[|matched| - 1]];
    }
  }

  /** Whether every matching rule of a definition allows. */
  ghost predicate SimulationPermits(definition: seq<Rule>, context: Context)
  {
    forall r :: r in definition && RuleMatches(r, context) ==> r.allowed
  }

  method Simulate(context: Context, definition: seq<Rule>) returns (d: Decision)
    ensures d.allowed <==> SimulationPermits(definition, context)
    ensures d.allowed <==> forall j :: 0 <= j < |definition| && Fits(definition[j], context) ==> definition[j].allowed
    ensures d.violations == Denials(MatchingRules(definition, context))
    ensures !d.allowed ==> d.rule == LastDenial(MatchingRules(definition, context))
    ensures d.allowed ==>
      var matched := MatchingRules(definition, context);
      d.rule == if matched == [] then None else Some(matched[0])
    ensures (d.policyId, d.policyVersion)
         == if MatchingRules(definition, context) == [] then (None, None) else (Some("simulation"), Some(1))
  {
    var matched: seq<Rule> := [];
    for i := 0 to |definition|
      invariant matched == MatchingRules(definition[..i], context)
    {
      assert definition[..i + 1][..i] == definition[..i];
      if RuleMatches(definition[i], context) {
        matched := matched + [definition[i]];
      }
    }
    assert definition[..|definition|] == definition;
    MatchingRulesMembers(definition, context);
    if matched == [] {
      return Decision(true, None, None, None, []);
    }
    var violations, denyRule := DenialsOf(matched);
    if violations != [] {
      return Decision(false, Some("simulation"), Some(1), denyRule, violations);
    }
    assert matched[0] in matched;
    return Decision(true, Some("simulation"), Some(1), Some(matched[0]), []);
  }

  /** The last rule in `matched` that denies, if any. */
  ghost function LastDenial(matched: seq<Rule>): Option<Rule>
  {
    if matched == [] then None
    else if !matched[|matched| - 1].allowed then Some(matched[|matched| - 1])
    else LastDenial(matched[..|matched| - 1])
  }

  method DenialsOf(matched: seq<Rule>) returns (violations: seq<string>, denyRule: Option<Rule>)
    ensures violations == Denials(matched)
    ensures violations == [] <==> forall r :: r in matched ==> r.allowed
    ensures denyRule == LastDenial(matched)
  {
    violations, denyRule := [], None;
    for i := 0 to |matched|
      invariant violations == Denials(matched[..i])
      invariant denyRule == LastDenial(matched[..i])
    {
      assert matched[..i + 1][..i] == matched[..i];
      if !matched[i].allowed {
        violations := violations + [SimulatedMessage(matched[i])];
        denyRule := Some(matched[i]);
      }
    }
    assert matched[..|matched|] == matched;
    NoDenials(matched);
  }
}
