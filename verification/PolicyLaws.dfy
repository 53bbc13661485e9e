/** Which differences between policies matter, and when simulation agrees (app/governance/policy_engine.py). */
module PolicyLaws {
  import opened Wrappers
  import opened StableSort
  import opened PolicyRules
  import opened PolicyEngine

  // ---- Order does not matter ----

  /** Two policies decide alike on `context`: same weight and the same matching rules, in whatever order. */
  ghost predicate Alike(p: Policy, q: Policy, context: Context)
  {
    && p.kind == q.kind && p.enabled == q.enabled && p.priority == q.priority
    && forall r :: RuleMatches(r, context) ==> (r in p.rules <==> r in q.rules)
  }

  ghost predicate Covered(p: Policy, qs: seq<Policy>, context: Context)
  {
    exists q :: q in qs && Alike(p, q, context)
  }

  ghost predicate Covers(ps: seq<Policy>, qs: seq<Policy>, context: Context)
  {
    forall p {:trigger Covered(p, qs, context)} :: p in ps ==> Covered(p, qs, context)
  }

  lemma {:induction false} CoversTop(ps: seq<Policy>, qs: seq<Policy>, kind: PolicyType, context: Context)
    requires Covers(ps, qs, context) && Covers(qs, ps, context)
    requires Permitted(qs, kind, context)
    ensures Permitted(ps, kind, context)
  {
    forall m | OfTopPriority(m, ps, kind, context)
      ensures m.rule.allowed
    {
      assert Covered(m.policy, qs, context);
      var q :| q in qs && Alike(m.policy, q, context);
      var n := Match(q, m.rule);
      forall other | Matched(other, qs, kind, context)
        ensures other.policy.priority <= n.policy.priority
      {
        assert Covered(other.policy, ps, context);
        var p :| p in ps && Alike(other.policy, p, context);
        assert Matched(Match(p, other.rule), ps, kind, context);
      }
      assert OfTopPriority(n, qs, kind, context);
    }
  }

  /**
   * Reordering or repeating policies, reordering the rules inside them, and adding rules that
   * do not match leave the answer unchanged.
   */
  lemma {:induction false} OrderIrrelevant(ps: seq<Policy>, qs: seq<Policy>, kind: PolicyType, context: Context)
    requires Covers(ps, qs, context) && Covers(qs, ps, context)
    ensures Permitted(ps, kind, context) <==> Permitted(qs, kind, context)
  {
    if Permitted(qs, kind, context) { CoversTop(ps, qs, kind, context); }
    if Permitted(ps, kind, context) { CoversTop(qs, ps, kind, context); }
  }

  lemma PermutedPoliciesCover(ps: seq<Policy>, qs: seq<Policy>, context: Context)
    requires multiset(ps) == multiset(qs)
    ensures Covers(ps, qs, context)
  {
    forall p | p in ps
      ensures Covered(p, qs, context)
    {
      assert p in multiset(ps) && p in qs;
    }
  }

  /** Any permutation of the policies. */
  lemma PolicyOrderIrrelevant(ps: seq<Policy>, qs: seq<Policy>, kind: PolicyType, context: Context)
    requires multiset(ps) == multiset(qs)
    ensures Permitted(ps, kind, context) <==> Permitted(qs, kind, context)
  {
    PermutedPoliciesCover(ps, qs, context);
    PermutedPoliciesCover(qs, ps, context);
    OrderIrrelevant(ps, qs, kind, context);
  }

  /** Any permutation of the rules inside each policy. */
  lemma RuleOrderIrrelevant(ps: seq<Policy>, qs: seq<Policy>, kind: PolicyType, context: Context)
    requires |ps| == |qs|
    requires forall i :: 0 <= i < |ps| ==>
      multiset(ps[i].rules) == multiset(qs[i].rules) && ps[i] == qs[i].(rules := ps[i].rules)
    ensures Permitted(ps, kind, context) <==> Permitted(qs, kind, context)
  {
    forall i | 0 <= i < |ps|
      ensures Alike(ps[i], qs[i], context) && Alike(qs[i], ps[i], context)
    {
      assert forall r :: r in multiset(ps[i].rules) <==> r in ps[i].rules;
      assert forall r :: r in multiset(qs[i].rules) <==> r in qs[i].rules;
    }
    forall p | p in ps
      ensures Covered(p, qs, context)
    {
      var i :| 0 <= i < |ps| && ps[i] == p;
      assert Alike(p, qs[i], context);
    }
    forall q | q in qs
      ensures Covered(q, ps, context)
    {
      var i :| 0 <= i < |qs| && qs[i] == q;
      assert Alike(q, ps[i], context);
    }
    OrderIrrelevant(ps, qs, kind, context);
  }

  /** Adding, anywhere, a policy that matches nothing or is outranked by a matching rule. */
  lemma OutrankedPolicyIrrelevant(ps: seq<Policy>, at: nat, extra: Policy, kind: PolicyType, context: Context)
    requires at <= |ps|
    requires (forall r :: r in extra.rules ==> !RuleMatches(r, context))
          || exists m :: Matched(m, ps, kind, context) && extra.priority < m.policy.priority
    ensures Permitted(ps[..at] + [extra] + ps[at..], kind, context) <==> Permitted(ps, kind, context)
  {
    var qs := ps[..at] + [extra] + ps[at..];
    assert ps == ps[..at] + ps[at..];
    assert forall p :: p in qs <==> p in ps || p == extra;
    forall m
      ensures OfTopPriority(m, qs, kind, context) <==> OfTopPriority(m, ps, kind, context)
    {
      assert Matched(m, ps, kind, context) ==> Matched(m, qs, kind, context);
      if m.policy !in ps && Matched(m, qs, kind, context) {
        var n :| Matched(n, ps, kind, context) && extra.priority < n.policy.priority;
        assert Matched(n, qs, kind, context);
      }
      if OfTopPriority(m, ps, kind, context) {
        forall other | Matched(other, qs, kind, context)
          ensures other.policy.priority <= m.policy.priority
        {
          if other.policy !in ps {
            var n :| Matched(n, ps, kind, context) && extra.priority < n.policy.priority;
          }
        }
      }
      if OfTopPriority(m, qs, kind, context) {
        assert forall other :: Matched(other, ps, kind, context) ==> Matched(other, qs, kind, context);
      }
    }
  }

  ghost function AllRules(policies: seq<Policy>, kind: PolicyType): seq<Rule>
  {
    if policies == [] then []
    else (if Applies(policies[0], kind) then policies[0].rules else []) + AllRules(policies[1..], kind)
  }

  lemma {:induction false} AllRulesMembers(policies: seq<Policy>, kind: PolicyType)
    ensures forall r :: r in AllRules(policies, kind)
              <==> exists p :: p in policies && Applies(p, kind) && r in p.rules
  {
    if policies != [] {
      AllRulesMembers(policies[1..], kind);
      assert policies == [policies[0]] + policies[1..];
    }
  }

  /** If any matching rule denies, one of the highest matched priority does. */
  ghost predicate DenialsReachTheTop(policies: seq<Policy>, kind: PolicyType, context: Context)
  {
    (exists m :: Matched(m, policies, kind, context) && !m.rule.allowed)
    ==> exists m :: OfTopPriority(m, policies, kind, context) && !m.rule.allowed
  }

  /** Simulating the concatenated rules permits exactly when no matching rule denies. */
  lemma SimulationSeesEveryMatch(policies: seq<Policy>, kind: PolicyType, context: Context)
    ensures SimulationPermits(AllRules(policies, kind), context)
       <==> forall m :: Matched(m, policies, kind, context) ==> m.rule.allowed
  {
    AllRulesMembers(policies, kind);
    if forall m :: Matched(m, policies, kind, context) ==> m.rule.allowed {
      forall r | r in AllRules(policies, kind) && RuleMatches(r, context)
        ensures r.allowed
      {
        var p :| p in policies && Applies(p, kind) && r in p.rules;
        assert Matched(Match(p, r), policies, kind, context);
      }
    }
  }

  /** Evaluation and simulation agree exactly when a denial that matches is not outranked by every other match. */
  lemma SimulationAgreesIff(policies: seq<Policy>, kind: PolicyType, context: Context)
    ensures (Permitted(policies, kind, context) <==> SimulationPermits(AllRules(policies, kind), context))
       <==> DenialsReachTheTop(policies, kind, context)
  {
    SimulationSeesEveryMatch(policies, kind, context);
  }

  /**
   * A denial and a rule that outranks it, met by a context of nothing but their keys, which no denial of at
   * least the higher priority matches.
   */
  ghost predicate Separate(policies: seq<Policy>, kind: PolicyType, denial: Match, outranking: Match, context: Context)
  {
    && Matched(denial, policies, kind, context) && Matched(outranking, policies, kind, context)
    && !denial.rule.allowed && denial.policy.priority < outranking.policy.priority
    && context.Keys == denial.rule.condition.Keys + outranking.rule.condition.Keys
    && forall m :: Listed(m, policies, kind) && !m.rule.allowed && outranking.policy.priority <= m.policy.priority ==>
         !RuleMatches(m.rule, context)
  }

  lemma SomeMatchIsTop(policies: seq<Policy>, kind: PolicyType, context: Context, m: Match) returns (top: Match)
    requires Matched(m, policies, kind, context)
    ensures OfTopPriority(top, policies, kind, context)
  {
    var matches := Matches(policies, kind, context);
    MatchesMembers(policies, kind, context);
    TopMembers(policies, kind, context);
    HeadIsFirstGreatest(matches, Priority);
    top := SortDescending(matches, Priority)[0];
    WithKeyMembers(matches, Priority, Priority(top));
    assert top in Top(matches);
  }

  /** A context on which the two differ has a small one inside that shows why. */
  lemma DifferenceIsSmall(policies: seq<Policy>, kind: PolicyType, context: Context)
    requires !DenialsReachTheTop(policies, kind, context)
    ensures exists denial, outranking, small :: Separate(policies, kind, denial, outranking, small)
  {
    var denial :| Matched(denial, policies, kind, context) && !denial.rule.allowed;
    var top := SomeMatchIsTop(policies, kind, context, denial);
    var keys := denial.rule.condition.Keys + top.rule.condition.Keys;
    var small := map key | key in context && key in keys :: context[key];
    forall m | Listed(m, policies, kind) && !m.rule.allowed && top.policy.priority <= m.policy.priority
      ensures !RuleMatches(m.rule, small)
    {
      if RuleMatches(m.rule, context) {
        assert Matched(m, policies, kind, context) && OfTopPriority(m, policies, kind, context);
      }
    }
    assert Separate(policies, kind, denial, top, small);
  }

  /**
   * On which policies the two agree for every context: exactly when no denial is separated from a rule that
   * outranks it by a context of just the keys of both.
   */
  lemma SimulationAlwaysAgreesIff(policies: seq<Policy>, kind: PolicyType)
    ensures (forall context :: Permitted(policies, kind, context)
                               <==> SimulationPermits(AllRules(policies, kind), context))
       <==> forall denial, outranking, context :: !Separate(policies, kind, denial, outranking, context)
  {
    forall context
      ensures (Permitted(policies, kind, context) <==> SimulationPermits(AllRules(policies, kind), context))
         <==> DenialsReachTheTop(policies, kind, context)
    {
      SimulationAgreesIff(policies, kind, context);
    }
    forall denial, outranking, context | Separate(policies, kind, denial, outranking, context)
      ensures !DenialsReachTheTop(policies, kind, context)
    {
    }
    forall context | !DenialsReachTheTop(policies, kind, context)
      ensures exists denial, outranking, small :: Separate(policies, kind, denial, outranking, small)
    {
      DifferenceIsSmall(policies, kind, context);
    }
  }

  /** So they agree when the policies that apply have one priority. */
  lemma SimulationAgrees(policies: seq<Policy>, kind: PolicyType, context: Context)
    requires forall p, q :: p in policies && q in policies && Applies(p, kind) && Applies(q, kind) ==>
      p.priority == q.priority
    ensures Permitted(policies, kind, context) <==> SimulationPermits(AllRules(policies, kind), context)
  {
    SimulationAgreesIff(policies, kind, context);
    forall m
      ensures Matched(m, policies, kind, context) <==> OfTopPriority(m, policies, kind, context)
    {
    }
  }

  /** Without that, a lower-priority denial separates them: the evaluation allows, the simulation denies. */
  lemma SimulationIgnoresPriority()
    ensures exists policies: seq<Policy>, context: Context ::
      Permitted(policies, SECRET, context) && !SimulationPermits(AllRules(policies, SECRET), context)
  {
    var allow := Rule(map[], true, None);
    var deny := Rule(map[], false, None);
    var high := Policy("p1", "high", SECRET, true, 200, 1, [allow]);
    var low := Policy("p2", "low", SECRET, true, 100, 1, [deny]);
    var policies, context: Context := [high, low], map[];
    AllRulesMembers(policies, SECRET);
    assert Matched(Match(high, allow), policies, SECRET, context);
    assert low in policies && deny in low.rules && deny in AllRules(policies, SECRET);
    assert Permitted(policies, SECRET, context) && !SimulationPermits(AllRules(policies, SECRET), context);
  }
}
