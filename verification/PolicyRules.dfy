/**
 * What governance policies say about a context (app/governance/policy_engine.py): which rules match, which of
 * them are of the highest priority, and which one decides.
 */
module PolicyRules {
  import opened Wrappers
  import opened StableSort

  datatype PolicyType = EXECUTION | DEPLOYMENT | CONNECTOR | SECRET

  datatype Criterion = OneOf(values: seq<string>) | Is(value: string)

  /** `allowed` is the rule's verdict, true when its `then` block gives none. */
  datatype Rule = Rule(condition: map<string, Criterion>, allowed: bool, message: Option<string>)

  datatype Policy = Policy(id: string, name: string, kind: PolicyType, enabled: bool, priority: int,
                           version: int, rules: seq<Rule>)

  datatype Match = Match(policy: Policy, rule: Rule)

  datatype Decision = Decision(allowed: bool, policyId: Option<string>, policyVersion: Option<int>,
                               rule: Option<Rule>, violations: seq<string>)

  type Context = map<string, string>

  predicate Meets(criterion: Criterion, value: string)
  {
    match criterion
    case OneOf(values) => value in values
    case Is(expected) => value == expected
  }

  predicate RuleMatches(rule: Rule, context: Context)
  {
    forall key :: key in rule.condition ==> key in context && Meets(rule.condition[key], context[key])
  }

  // ---- Meaning ----

  predicate Applies(policy: Policy, kind: PolicyType)
  {
    policy.kind == kind && policy.enabled
  }

  /** The rules of one policy that match, in order. */
  ghost function RuleMatchesOf(policy: Policy, rules: seq<Rule>, context: Context): seq<Match>
  {
    if rules == [] then []
    else
      var last := rules[|rules| - 1];
      RuleMatchesOf(policy, rules[..|rules| - 1], context)
      + if RuleMatches(last, context) then [Match(policy, last)] else []
  }

  /** All matching rules of the applicable policies, in the order they are listed. */
  ghost function Matches(policies: seq<Policy>, kind: PolicyType, context: Context): seq<Match>
  {
    if policies == [] then []
    else
      var last := policies[|policies| - 1];
      Matches(policies[..|policies| - 1], kind, context)
      + if Applies(last, kind) then RuleMatchesOf(last, last.rules, context) else []
  }

  /** A rule of a policy that applies. */
  ghost predicate Listed(m: Match, policies: seq<Policy>, kind: PolicyType)
  {
    m.policy in policies && Applies(m.policy, kind) && m.rule in m.policy.rules
  }

  ghost predicate Matched(m: Match, policies: seq<Policy>, kind: PolicyType, context: Context)
  {
    Listed(m, policies, kind) && RuleMatches(m.rule, context)
  }

  ghost predicate OfTopPriority(m: Match, policies: seq<Policy>, kind: PolicyType, context: Context)
  {
    && Matched(m, policies, kind, context)
    && forall other :: Matched(other, policies, kind, context) ==> other.policy.priority <= m.policy.priority
  }

  /** No matching rule of the highest matched priority denies. */
  ghost predicate Permitted(policies: seq<Policy>, kind: PolicyType, context: Context)
  {
    forall m :: OfTopPriority(m, policies, kind, context) ==> m.rule.allowed
  }

  lemma {:induction false} RuleMatchesOfMembers(policy: Policy, rules: seq<Rule>, context: Context)
    ensures forall m :: m in RuleMatchesOf(policy, rules, context)
              <==> m.policy == policy && m.rule in rules && RuleMatches(m.rule, context)
  {
    if rules != [] {
      RuleMatchesOfMembers(policy, rules[..|rules| - 1], context);
      assert rules == rules[..|rules| - 1] + [rules[|rules| - 1]];
    }
  }

  lemma {:induction false} MatchesMembers(policies: seq<Policy>, kind: PolicyType, context: Context)
    ensures forall m :: m in Matches(policies, kind, context) <==> Matched(m, policies, kind, context)
  {
    if policies != [] {
      var front, last := policies[..|policies| - 1], policies[|policies| - 1];
      MatchesMembers(front, kind, context);
      RuleMatchesOfMembers(last, last.rules, context);
      assert policies == front + [last];
    }
  }

  // ---- Meaning, key by key ----

  /** Every key of the condition is in the context, with the value the condition names or one that it lists. */
  ghost predicate Fits(rule: Rule, context: Context)
  {
    forall key :: key in rule.condition ==>
      && key in context
      && match rule.condition[key]
         case Is(value) => context[key] == value
         case OneOf(values) => exists k :: 0 <= k < |values| && values[k] == context[key]
  }

  /** Rule `j` of policy `i`, which is enabled and of the kind, fits. */
  ghost predicate Bears(policies: seq<Policy>, kind: PolicyType, context: Context, i: int, j: int)
  {
    && 0 <= i < |policies| && 0 <= j < |policies[i].rules|
    && policies[i].enabled && policies[i].kind == kind && Fits(policies[i].rules[j], context)
  }

  /** Rule `j` of policy `i` bears on the context, denies, and no rule that bears on it is of a higher priority. */
  ghost predicate DeniesOnTop(policies: seq<Policy>, kind: PolicyType, context: Context, i: int, j: int)
  {
    && Bears(policies, kind, context, i, j) && !policies[i].rules[j].allowed
    && forall k, l :: Bears(policies, kind, context, k, l) ==> policies[k].priority <= policies[i].priority
  }

  lemma FittingIsMatching(rule: Rule, context: Context)
    ensures RuleMatches(rule, context) <==> Fits(rule, context)
  {
    forall key | key in rule.condition && key in context
      ensures Meets(rule.condition[key], context[key]) <==>
        match rule.condition[key]
        case Is(value) => context[key] == value
        case OneOf(values) => exists k :: 0 <= k < |values| && values[k] == context[key]
    {
    }
  }

  lemma BearingIsMatched(policies: seq<Policy>, kind: PolicyType, context: Context)
    ensures forall i, j :: Bears(policies, kind, context, i, j) ==>
      Matched(Match(policies[i], policies[i].rules[j]), policies, kind, context)
    ensures forall m :: Matched(m, policies, kind, context) ==>
      exists i, j :: Bears(policies, kind, context, i, j) && m == Match(policies[i], policies[i].rules[j])
  {
    forall rule: Rule { FittingIsMatching(rule, context); }
    forall m | Matched(m, policies, kind, context)
      ensures exists i, j :: Bears(policies, kind, context, i, j) && m == Match(policies[i], policies[i].rules[j])
    {
      var i :| 0 <= i < |policies| && policies[i] == m.policy;
      var j :| 0 <= j < |policies[i].rules| && policies[i].rules[j] == m.rule;
      assert Bears(policies, kind, context, i, j);
    }
  }

  /** Permitted means that no denial bears on the context at the highest priority. */
  lemma PermittedMeans(policies: seq<Policy>, kind: PolicyType, context: Context)
    ensures Permitted(policies, kind, context) <==> forall i, j :: !DeniesOnTop(policies, kind, context, i, j)
  {
    BearingIsMatched(policies, kind, context);
    forall i, j | DeniesOnTop(policies, kind, context, i, j)
      ensures !Permitted(policies, kind, context)
    {
      assert OfTopPriority(Match(policies[i], policies[i].rules[j]), policies, kind, context);
    }
    forall m | OfTopPriority(m, policies, kind, context) && !m.rule.allowed
      ensures exists i, j :: DeniesOnTop(policies, kind, context, i, j)
    {
      var i, j :| Bears(policies, kind, context, i, j) && m == Match(policies[i], policies[i].rules[j]);
      assert DeniesOnTop(policies, kind, context, i, j);
    }
  }

  // ---- Evaluation ----

  function Priority(m: Match): real { m.policy.priority as real }

  /** The first rule in `matches` that denies, if any. */
  ghost predicate FirstDenial(matches: seq<Match>, m: Match)
  {
    exists i :: 0 <= i < |matches| && matches[i] == m && !m.rule.allowed
             && forall j :: 0 <= j < i ==> matches[j].rule.allowed
  }

  /** The matches of the highest priority, in the order they were listed. */
  ghost function Top(matches: seq<Match>): (top: seq<Match>)
    requires matches != []
    ensures top != []
  {
    HeadIsFirstGreatest(matches, Priority);
    var sorted := SortDescending(matches, Priority);
    SortLaws(matches, Priority);
    assert multiset(sorted) == multiset(matches) && |multiset(sorted)| == |sorted|;
    WithKey(matches, Priority, Priority(sorted[0]))
  }

  lemma TopMembers(policies: seq<Policy>, kind: PolicyType, context: Context)
    requires Matches(policies, kind, context) != []
    ensures forall m :: m in Top(Matches(policies, kind, context)) <==> OfTopPriority(m, policies, kind, context)
  {
    var matches := Matches(policies, kind, context);
    MatchesMembers(policies, kind, context);
    HeadIsFirstGreatest(matches, Priority);
    var head := SortDescending(matches, Priority)[0];
    WithKeyMembers(matches, Priority, Priority(head));
    assert head in Top(matches);
    forall m
      ensures m in Top(matches) <==> OfTopPriority(m, policies, kind, context)
    {
      if m in matches && Priority(m) == Priority(head) {
        forall other | Matched(other, policies, kind, context)
          ensures other.policy.priority <= m.policy.priority
        {
          assert Priority(other) <= Priority(head);
        }
      }
      if OfTopPriority(m, policies, kind, context) {
        assert Matched(head, policies, kind, context) && Priority(m) <= Priority(head);
      }
    }
  }

  ghost predicate Names(d: Decision, m: Match)
  {
    d.rule == Some(m.rule) && d.policyId == Some(m.policy.id) && d.policyVersion == Some(m.policy.version)
  }

  function DenialMessage(m: Match): string
  {
    match m.rule.message
    case Some(text) => text
    case None => "Denied by policy '" + m.policy.name + "'"
  }

  /** The rule of the decision is the first of the highest priority that bears on the context, and denies if it does. */
  ghost predicate NamesTheFirst(policies: seq<Policy>, kind: PolicyType, context: Context, d: Decision)
  {
    exists at :: DecidesFirst(policies, kind, context, !d.allowed, at) && Names(d, MatchAt(policies, at))
  }

  lemma DecisionNamesTheFirst(policies: seq<Policy>, kind: PolicyType, context: Context, d: Decision)
    requires Matches(policies, kind, context) != []
    requires var top := Top(Matches(policies, kind, context));
      if d.allowed then Names(d, top[0]) else exists m :: FirstDenial(top, m) && Names(d, m)
    ensures NamesTheFirst(policies, kind, context, d)
  {
    var top := Top(Matches(policies, kind, context));
    var a := 0;
    if !d.allowed {
      var m :| FirstDenial(top, m) && Names(d, m);
      a :| 0 <= a < |top| && top[a] == m && !m.rule.allowed && forall b :: 0 <= b < a ==> top[b].rule.allowed;
    }
    var at := FirstOfTopDecides(policies, kind, context, !d.allowed, a);
  }

  /** Sorting first and filtering then gives the top matches in the order they were listed. */
  lemma SortedTop(matches: seq<Match>)
    requires matches != []
    ensures var sorted := SortDescending(matches, Priority);
      sorted != [] && WithKey(sorted, Priority, Priority(sorted[0])) == Top(matches)
  {
    HeadIsFirstGreatest(matches, Priority);
    SortStable(matches, Priority, Priority(SortDescending(matches, Priority)[0]));
  }

  // ---- Which rule decides ----

  /** Where a rule is listed. */
  datatype Place = Place(policy: int, rule: int)

  predicate Earlier(a: Place, b: Place)
  {
    a.policy < b.policy || (a.policy == b.policy && a.rule < b.rule)
  }

  ghost predicate BearsAt(policies: seq<Policy>, kind: PolicyType, context: Context, at: Place)
  {
    Bears(policies, kind, context, at.policy, at.rule)
  }

  ghost function MatchAt(policies: seq<Policy>, at: Place): Match
    requires 0 <= at.policy < |policies| && 0 <= at.rule < |policies[at.policy].rules|
  {
    Match(policies[at.policy], policies[at.policy].rules[at.rule])
  }

  /** The places before `end` of the rules that bear on the context, ascending, and their matches. */
  ghost predicate Lists(policies: seq<Policy>, kind: PolicyType, context: Context, end: Place, matches: seq<Match>,
                        places: seq<Place>)
  {
    && |places| == |matches|
    && (forall t :: 0 <= t < |places| ==>
          BearsAt(policies, kind, context, places[t]) && Earlier(places[t], end)
          && matches[t] == MatchAt(policies, places[t]))
    && (forall t, u :: 0 <= t < u < |places| ==> Earlier(places[t], places[u]))
    && (forall at :: BearsAt(policies, kind, context, at) && Earlier(at, end) ==> at in places)
  }

  /** One more rule: its match is added if it fits. */
  lemma OneMoreRule(policies: seq<Policy>, kind: PolicyType, context: Context, i: int, n: int, matches: seq<Match>,
                    places: seq<Place>)
    requires 0 <= i < |policies| && 0 <= n < |policies[i].rules| && Applies(policies[i], kind)
    requires Lists(policies, kind, context, Place(i, n), matches, places)
    ensures var rule := policies[i].rules[n];
      if RuleMatches(rule, context) then
        Lists(policies, kind, context, Place(i, n + 1), matches + [Match(policies[i], rule)], places + [Place(i, n)])
      else Lists(policies, kind, context, Place(i, n + 1), matches, places)
  {
    FittingIsMatching(policies[i].rules[n], context);
    forall at | BearsAt(policies, kind, context, at) && Earlier(at, Place(i, n + 1))
      ensures at in places || at == Place(i, n)
    {
      assert Earlier(at, Place(i, n)) || at == Place(i, n);
    }
  }

  /** The end of one policy is the beginning of the next. */
  lemma NextPolicy(policies: seq<Policy>, kind: PolicyType, context: Context, i: int, matches: seq<Match>,
                   places: seq<Place>)
    requires 0 <= i < |policies|
    requires Lists(policies, kind, context, Place(i, if Applies(policies[i], kind) then |policies[i].rules| else 0),
                   matches, places)
    ensures Lists(policies, kind, context, Place(i + 1, 0), matches, places)
  {
  }

  lemma {:induction false} RulesAreListed(policies: seq<Policy>, kind: PolicyType, context: Context, i: int, n: int,
                                          matches: seq<Match>, places: seq<Place>)
    returns (more: seq<Place>)
    requires 0 <= i < |policies| && 0 <= n <= |policies[i].rules| && Applies(policies[i], kind)
    requires Lists(policies, kind, context, Place(i, 0), matches, places)
    ensures Lists(policies, kind, context, Place(i, n),
                  matches + RuleMatchesOf(policies[i], policies[i].rules[..n], context), more)
    decreases n
  {
    var policy := policies[i];
    more := places;
    if n == 0 {
      assert matches + RuleMatchesOf(policy, policy.rules[..0], context) == matches;
    } else {
      var before := RulesAreListed(policies, kind, context, i, n - 1, matches, places);
      var sofar := matches + RuleMatchesOf(policy, policy.rules[..n - 1], context);
      OneMoreRule(policies, kind, context, i, n - 1, sofar, before);
      assert policy.rules[..n][..n - 1] == policy.rules[..n - 1];
      var rule := policy.rules[n - 1];
      more := if RuleMatches(rule, context) then before + [Place(i, n - 1)] else before;
      assert matches + RuleMatchesOf(policy, policy.rules[..n], context)
          == if RuleMatches(rule, context) then sofar + [Match(policy, rule)] else sofar;
    }
  }

  lemma {:induction false} MatchesAreListed(policies: seq<Policy>, kind: PolicyType, context: Context, i: int)
    returns (places: seq<Place>)
    requires 0 <= i <= |policies|
    ensures Lists(policies, kind, context, Place(i, 0), Matches(policies[..i], kind, context), places)
    decreases i
  {
    places := [];
    if i > 0 {
      var policy := policies[i - 1];
      var matches := Matches(policies[..i - 1], kind, context);
      places := MatchesAreListed(policies, kind, context, i - 1);
      assert policies[..i][..i - 1] == policies[..i - 1];
      if Applies(policy, kind) {
        places := RulesAreListed(policies, kind, context, i - 1, |policy.rules|, matches, places);
        assert policy.rules[..|policy.rules|] == policy.rules;
        matches := matches + RuleMatchesOf(policy, policy.rules, context);
      }
      assert Matches(policies[..i], kind, context) == matches;
      NextPolicy(policies, kind, context, i - 1, matches, places);
    }
  }

  /** The first match with property `q` is at the first place whose rule has it. */
  lemma FirstMatchIsFirstPlace(policies: seq<Policy>, kind: PolicyType, context: Context, q: Match -> bool, t: int)
    returns (at: Place)
    requires var matches := Matches(policies, kind, context);
      0 <= t < |matches| && q(matches[t]) && forall u :: 0 <= u < t ==> !q(matches[u])
    ensures BearsAt(policies, kind, context, at) && MatchAt(policies, at) == Matches(policies, kind, context)[t]
    ensures forall other :: BearsAt(policies, kind, context, other) && Earlier(other, at) ==>
      !q(MatchAt(policies, other))
  {
    var places := MatchesAreListed(policies, kind, context, |policies|);
    assert policies[..|policies|] == policies;
    at := places[t];
    forall other | BearsAt(policies, kind, context, other) && Earlier(other, at)
      ensures !q(MatchAt(policies, other))
    {
      assert Earlier(other, Place(|policies|, 0));
      var u :| 0 <= u < |places| && places[u] == other;
    }
  }

  /** The first of the elements with a key that has property `q` is the first of all with both. */
  lemma {:induction false} FirstWithKey<T>(s: seq<T>, key: T -> real, k: real, q: T -> bool, a: int) returns (t: int)
    requires var chosen := WithKey(s, key, k);
      0 <= a < |chosen| && q(chosen[a]) && forall b :: 0 <= b < a ==> !q(chosen[b])
    ensures 0 <= t < |s| && s[t] == WithKey(s, key, k)[a] && key(s[t]) == k
    ensures forall u :: 0 <= u < t ==> !(key(s[u]) == k && q(s[u]))
  {
    var chosen, rest := WithKey(s, key, k), WithKey(s[1..], key, k);
    if key(s[0]) == k && a == 0 {
      t := 0;
    } else if key(s[0]) == k {
      assert chosen == [s[0]] + rest && !q(chosen[0]);
      assert forall b :: 0 <= b < |rest| ==> rest[b] == chosen[b + 1];
      t := FirstWithKey(s[1..], key, k, q, a - 1);
      t := t + 1;
    } else {
      assert chosen == rest;
      t := FirstWithKey(s[1..], key, k, q, a);
      t := t + 1;
    }
  }

  /** The rule at the place bears on the context, and none of a higher priority does. */
  ghost predicate BearsOnTop(policies: seq<Policy>, kind: PolicyType, context: Context, at: Place)
  {
    && BearsAt(policies, kind, context, at)
    && forall k, l :: Bears(policies, kind, context, k, l) ==> policies[k].priority <= policies[at.policy].priority
  }

  /** The first place whose rule bears on the context at the highest priority, and denies if `denying`. */
  ghost predicate DecidesFirst(policies: seq<Policy>, kind: PolicyType, context: Context, denying: bool, at: Place)
  {
    && BearsOnTop(policies, kind, context, at) && (denying ==> !MatchAt(policies, at).rule.allowed)
    && forall other :: Earlier(other, at) && BearsOnTop(policies, kind, context, other) ==>
         denying && MatchAt(policies, other).rule.allowed
  }

  /** Of the matches of the highest priority the first, or the first that denies, is at the place that decides. */
  lemma FirstOfTopDecides(policies: seq<Policy>, kind: PolicyType, context: Context, denying: bool, a: int)
    returns (at: Place)
    requires Matches(policies, kind, context) != []
    requires var top := Top(Matches(policies, kind, context));
      && 0 <= a < |top| && (denying ==> !top[a].rule.allowed)
      && forall b :: 0 <= b < a ==> denying && top[b].rule.allowed
    ensures DecidesFirst(policies, kind, context, denying, at)
    ensures MatchAt(policies, at) == Top(Matches(policies, kind, context))[a]
  {
    var matches := Matches(policies, kind, context);
    var highest := Priority(SortDescending(matches, Priority)[0]);
    var q := (m: Match) => denying ==> !m.rule.allowed;
    var t := FirstWithKey(matches, Priority, highest, q, a);
    at := FirstMatchIsFirstPlace(policies, kind, context, m => Priority(m) == highest && q(m), t);
    TopMembers(policies, kind, context);
    BearingIsMatched(policies, kind, context);
    assert OfTopPriority(matches[t], policies, kind, context);
    assert BearsOnTop(policies, kind, context, at);
    forall other | Earlier(other, at) && BearsOnTop(policies, kind, context, other)
      ensures denying && MatchAt(policies, other).rule.allowed
    {
      assert Bears(policies, kind, context, at.policy, at.rule);
      assert Bears(policies, kind, context, other.policy, other.rule);
      assert Priority(MatchAt(policies, other)) == Priority(MatchAt(policies, at)) == highest;
    }
  }
}
