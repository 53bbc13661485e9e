/**
 * The edit distance behind field matching (app/schema/intelligence.py).
 *
 * `Distance` is the recurrence the table follows, including its shortcut: on equal
 * last characters it looks at the diagonal alone.  `Run` gives the meaning of an edit
 * script, independently of any recurrence, and the theorems connect the two.
 */
module EditDistance {
  import opened Wrappers

  function Min(x: int, y: int): int { if x <= y then x else y }

  function Max(x: int, y: int): int { if x <= y then y else x }

  function Init(s: string): string
    requires s != ""
  {
    s[..|s| - 1]
  }

  function Last(s: string): char
    requires s != ""
  {
    s[|s| - 1]
  }

  function Distance(a: string, b: string): nat
    decreases |a| + |b|
  {
    if a == "" then |b|
    else if b == "" then |a|
    else if Last(a) == Last(b) then Distance(Init(a), Init(b))
    else 1 + Min(Distance(Init(a), b), Min(Distance(a, Init(b)), Distance(Init(a), Init(b))))
  }

  // ---- Metric laws ----

  lemma {:induction false} Symmetric(a: string, b: string)
    ensures Distance(a, b) == Distance(b, a)
    decreases |a| + |b|
  {
    if a != "" && b != "" {
      Symmetric(Init(a), Init(b));
      Symmetric(Init(a), b);
      Symmetric(a, Init(b));
    }
  }

  /** Adjacent cells of the table differ by at most one. */
  lemma {:induction false} Neighbours(a: string, b: string)
    ensures a != "" ==> -1 <= Distance(a, b) - Distance(Init(a), b) <= 1
    ensures b != "" ==> -1 <= Distance(a, b) - Distance(a, Init(b)) <= 1
    decreases |a| + |b|
  {
    if a != "" && b != "" {
      Neighbours(Init(a), b);
      Neighbours(a, Init(b));
      Neighbours(Init(a), Init(b));
    }
  }

  /** The three moves of the full recurrence, none of which the shortcut loses. */
  lemma {:induction false} Moves(a: string, b: string)
    requires a != "" && b != ""
    ensures Distance(a, b) <= Distance(Init(a), b) + 1
    ensures Distance(a, b) <= Distance(a, Init(b)) + 1
    ensures Distance(a, b) <= Distance(Init(a), Init(b)) + (if Last(a) == Last(b) then 0 else 1)
  {
    Neighbours(a, b);
  }

  /** The shortcut on equal characters computes the same value as taking all three minima. */
  lemma {:induction false} ShortcutIsFullRecurrence(a: string, b: string)
    requires a != "" && b != ""
    ensures Distance(a, b)
         == Min(Distance(Init(a), b) + 1,
                Min(Distance(a, Init(b)) + 1,
                    Distance(Init(a), Init(b)) + (if Last(a) == Last(b) then 0 else 1)))
  {
    Moves(a, b);
    if Last(a) == Last(b) {
      assert Distance(a, b) == Distance(Init(a), Init(b));
    } else {
      assert Distance(a, b) == 1 + Min(Distance(Init(a), b), Min(Distance(a, Init(b)), Distance(Init(a), Init(b))));
    }
  }

  lemma {:induction false} Bounds(a: string, b: string)
    ensures Distance(a, b) <= Max(|a|, |b|)
    ensures |a| - |b| <= Distance(a, b) && |b| - |a| <= Distance(a, b)
    decreases |a| + |b|
  {
    if a != "" && b != "" {
      Bounds(Init(a), Init(b));
      Bounds(Init(a), b);
      Bounds(a, Init(b));
    }
  }

  lemma {:induction false} ZeroIffEqual(a: string, b: string)
    ensures Distance(a, b) == 0 <==> a == b
    decreases |a| + |b|
  {
    if a != "" && b != "" {
      ZeroIffEqual(Init(a), Init(b));
      assert a == Init(a) + [Last(a)] && b == Init(b) + [Last(b)];
    }
  }

  lemma {:induction false} Triangle(a: string, b: string, c: string)
    ensures Distance(a, c) <= Distance(a, b) + Distance(b, c)
    decreases |a| + |b| + |c|
  {
    if a == "" || b == "" || c == "" {
      Bounds(a, b);
      Bounds(b, c);
      Bounds(a, c);
    } else {
      Moves(a, c);
      ShortcutIsFullRecurrence(a, b);
      ShortcutIsFullRecurrence(b, c);
      Triangle(Init(a), b, c);
      Triangle(a, b, Init(c));
      Triangle(a, Init(b), c);
      Triangle(a, Init(b), Init(c));
      Triangle(Init(a), Init(b), c);
      Triangle(Init(a), Init(b), Init(c));
    }
  }

  // ---- Edit scripts ----

  datatype Edit =
    | Insert(at: nat, c: char)
    | Delete(at: nat)
    | Substitute(at: nat, c: char)

  predicate Applicable(e: Edit, s: string)
  {
    match e
    case Insert(at, _) => at <= |s|
    case Delete(at) => at < |s|
    case Substitute(at, _) => at < |s|
  }

  function Apply(e: Edit, s: string): string
    requires Applicable(e, s)
  {
    match e
    case Insert(at, c) => s[..at] + [c] + s[at..]
    case Delete(at) => s[..at] + s[at + 1..]
    case Substitute(at, c) => s[..at] + [c] + s[at + 1..]
  }

  /** What a script turns `s` into; None when one of its edits does not apply. */
  function Run(script: seq<Edit>, s: string): Option<string>
  {
    if script == [] then Some(s)
    else if Applicable(script[0], s) then Run(script[1..], Apply(script[0], s))
    else None
  }

  ghost predicate Turns(script: seq<Edit>, a: string, b: string)
  {
    Run(script, a) == Some(b)
  }

  /** `d` is the length of a shortest script from `a` to `b`. */
  ghost predicate IsShortest(d: nat, a: string, b: string)
  {
    && (exists script: seq<Edit> :: Turns(script, a, b) && |script| == d)
    && (forall script: seq<Edit> :: Turns(script, a, b) ==> d <= |script|)
  }

  lemma {:induction false} CommonSuffix(a: string, b: string, q: string)
    ensures Distance(a + q, b + q) == Distance(a, b)
    decreases |q|
  {
    if q == "" {
      assert a + q == a && b + q == b;
    } else {
      CommonSuffix(a, b, Init(q));
      assert Init(a + q) == a + Init(q) && Init(b + q) == b + Init(q);
    }
  }

  lemma InsertCostsAtMostOne(p: string, c: char, q: string)
    ensures Distance(p + q, p + [c] + q) <= 1 && Distance(p + [c] + q, p + q) <= 1
  {
    CommonSuffix(p, p + [c], q);
    CommonSuffix(p + [c], p, q);
    assert Init(p + [c]) == p;
    ZeroIffEqual(p, p);
    Neighbours(p, p + [c]);
    Neighbours(p + [c], p);
  }

  lemma SubstituteCostsAtMostOne(p: string, c: char, d: char, q: string)
    ensures Distance(p + [c] + q, p + [d] + q) <= 1
  {
    CommonSuffix(p + [c], p + [d], q);
    assert Init(p + [c]) == p && Init(p + [d]) == p;
    ZeroIffEqual(p, p);
    Moves(p + [c], p + [d]);
  }

  lemma OneEditCostsAtMostOne(e: Edit, s: string)
    requires Applicable(e, s)
    ensures Distance(s, Apply(e, s)) <= 1
  {
    match e
    case Insert(at, c) =>
      InsertCostsAtMostOne(s[..at], c, s[at..]);
      assert s == s[..at] + s[at..];
    case Delete(at) =>
      InsertCostsAtMostOne(s[..at], s[at], s[at + 1..]);
      assert s == s[..at] + [s[at]] + s[at + 1..];
    case Substitute(at, c) =>
      SubstituteCostsAtMostOne(s[..at], s[at], c, s[at + 1..]);
      assert s == s[..at] + [s[at]] + s[at + 1..];
  }

  lemma {:induction false} NoScriptIsShorter(script: seq<Edit>, a: string, b: string)
    requires Turns(script, a, b)
    ensures Distance(a, b) <= |script|
    decreases |script|
  {
    if script == [] {
      ZeroIffEqual(a, b);
    } else {
      var next := Apply(script[0], a);
      NoScriptIsShorter(script[1..], next, b);
      OneEditCostsAtMostOne(script[0], a);
      Triangle(a, next, b);
    }
  }

  lemma {:induction false} RunAppend(p: seq<Edit>, q: seq<Edit>, a: string, b: string, c: string)
    requires Turns(p, a, b) && Turns(q, b, c)
    ensures Turns(p + q, a, c)
    decreases |p|
  {
    if p == [] {
      assert p + q == q;
    } else {
      var script, next := p + q, Apply(p[0], a);
      assert script[0] == p[0] && script[1..] == p[1..] + q;
      RunAppend(p[1..], q, next, b, c);
      assert Run(script, a) == Run(script[1..], next);
    }
  }

  lemma ApplyUnderSuffix(e: Edit, a: string, x: char)
    requires Applicable(e, a)
    ensures Applicable(e, a + [x]) && Apply(e, a + [x]) == Apply(e, a) + [x]
  {
    assert (a + [x])[..e.at] == a[..e.at];
    if e.at < |a| {
      assert (a + [x])[e.at + 1..] == a[e.at + 1..] + [x];
    }
    assert (a + [x])[e.at..] == a[e.at..] + [x];
  }

  /** Edits left of an untouched last character are unaffected by it. */
  lemma {:induction false} RunUnderSuffix(script: seq<Edit>, a: string, b: string, x: char)
    requires Turns(script, a, b)
    ensures Turns(script, a + [x], b + [x])
    decreases |script|
  {
    if script != [] {
      ApplyUnderSuffix(script[0], a, x);
      var next := Apply(script[0], a);
      RunUnderSuffix(script[1..], next, b, x);
    }
  }

  /** A script of length `Distance(a, b)`, read off the recurrence. */
  lemma {:induction false} ShortestScript(a: string, b: string) returns (script: seq<Edit>)
    ensures Turns(script, a, b) && |script| == Distance(a, b)
    decreases |a| + |b|
  {
    if a != "" { assert a == Init(a) + [Last(a)]; }
    if b != "" { assert b == Init(b) + [Last(b)]; }
    if a == "" && b == "" {
      script := [];
    } else if a == "" || (b != "" && Last(a) != Last(b) && Distance(a, b) == Distance(a, Init(b)) + 1) {
      var front := ShortestScript(a, Init(b));
      var last := [Insert(|b| - 1, Last(b))];
      assert Apply(last[0], Init(b)) == b && Run(last, Init(b)) == Run([], b);
      RunAppend(front, last, a, Init(b), b);
      script := front + last;
    } else if b == "" || (Last(a) != Last(b) && Distance(a, b) == Distance(Init(a), b) + 1) {
      var rest := ShortestScript(Init(a), b);
      var first := [Delete(|a| - 1)];
      assert Apply(first[0], a) == Init(a) && Run(first, a) == Run([], Init(a));
      RunAppend(first, rest, a, Init(a), b);
      script := first + rest;
    } else {
      script := ShortestScript(Init(a), Init(b));
      RunUnderSuffix(script, Init(a), Init(b), Last(a));
      if Last(a) != Last(b) {
        var mid := Init(b) + [Last(a)];
        var last := [Substitute(|b| - 1, Last(b))];
        assert Apply(last[0], mid) == b && Run(last, mid) == Run([], b);
        RunAppend(script, last, a, mid, b);
        script := script + last;
      }
    }
  }

  /** The recurrence, shortcut included, is the minimum over all edit scripts. */
  lemma DistanceIsShortest(a: string, b: string)
    ensures IsShortest(Distance(a, b), a, b)
  {
    var best := ShortestScript(a, b);
    forall script: seq<Edit> | Turns(script, a, b)
      ensures Distance(a, b) <= |script|
    {
      NoScriptIsShorter(script, a, b);
    }
  }

  // ---- The table ----

  function Smallest(x: int, y: int, z: int): int { Min(x, Min(y, z)) }

  /** One cell of the table from its three neighbours. */
  lemma {:induction false} Cell(s1: string, s2: string, i: nat, j: nat)
    requires 0 < i <= |s1| && 0 < j <= |s2|
    ensures Distance(s1[..i], s2[..j])
         == if s1[i - 1] == s2[j - 1] then Distance(s1[..i - 1], s2[..j - 1])
            else Smallest(Distance(s1[..i - 1], s2[..j]) + 1, Distance(s1[..i], s2[..j - 1]) + 1,
                          Distance(s1[..i - 1], s2[..j - 1]) + 1)
  {
    var a, b := s1[..i], s2[..j];
    assert Init(a) == s1[..i - 1] && Init(b) == s2[..j - 1];
    assert Last(a) == s1[i - 1] && Last(b) == s2[j - 1];
  }

  ghost function At(s1: string, s2: string, i: nat, j: nat): nat
    requires i <= |s1| && j <= |s2|
  {
    Distance(s1[..i], s2[..j])
  }

  /** The value left in the last cell of the table. */
  method TableDistance(s1: string, s2: string) returns (distance: nat)
    ensures IsShortest(distance, s1, s2)
    ensures distance == Distance(s1, s2)
  {
    var m, n := |s1|, |s2|;
    var dp := new int[m + 1, n + 1]((_, _) => 0);
    for i := 0 to m + 1
      invariant forall k :: 0 <= k < i ==> dp[k, 0] == k
    {
      dp[i, 0] := i;
    }
    for j := 0 to n + 1
      invariant forall k :: 0 <= k <= m ==> dp[k, 0] == k
      invariant forall k :: 0 <= k < j ==> dp[0, k] == k
    {
      dp[0, j] := j;
    }
    assert forall k :: 0 <= k <= m ==> At(s1, s2, k, 0) == k;
    assert forall l :: 0 <= l <= n ==> At(s1, s2, 0, l) == l;
    for i := 1 to m + 1
      invariant forall k :: 0 <= k <= m ==> dp[k, 0] == At(s1, s2, k, 0)
      invariant forall k, l :: 0 <= k < i && 0 <= l <= n ==> dp[k, l] == At(s1, s2, k, l)
    {
      FillRow(s1, s2, dp, i);
    }
    assert s1[..m] == s1 && s2[..n] == s2;
    DistanceIsShortest(s1, s2);
    distance := dp[m, n];
  }

  /** The inner loop: row `i` from row `i - 1`. */
  method FillRow(s1: string, s2: string, dp: array2<int>, i: nat)
    requires dp.Length0 == |s1| + 1 && dp.Length1 == |s2| + 1 && 0 < i <= |s1|
    requires dp[i, 0] == At(s1, s2, i, 0)
    requires forall k, l :: k == i - 1 && 0 <= l <= |s2| ==> dp[k, l] == At(s1, s2, k, l)
    modifies dp
    ensures forall l :: 0 <= l <= |s2| ==> dp[i, l] == At(s1, s2, i, l)
    ensures forall k, l :: 0 <= k <= |s1| && 0 <= l <= |s2| && k != i ==> dp[k, l] == old(dp[k, l])
  {
    for j := 1 to |s2| + 1
      invariant forall l :: 0 <= l < j ==> dp[i, l] == At(s1, s2, i, l)
      invariant forall k, l :: 0 <= k <= |s1| && 0 <= l <= |s2| && k != i ==> dp[k, l] == old(dp[k, l])
    {
      Cell(s1, s2, i, j);
      if s1[i - 1] == s2[j - 1] {
        dp[i, j] := dp[i - 1, j - 1];
      } else {
        dp[i, j] := Smallest(dp[i - 1, j] + 1, dp[i, j - 1] + 1, dp[i - 1, j - 1] + 1);
      }
    }
  }

  // ---- Similarity ----

  /** One minus the share of the longer string that must be edited; 0 when a string is empty. */
  ghost function Similarity(s1: string, s2: string): real
  {
    if s1 == "" || s2 == "" then 0.0
    else 1.0 - Distance(s1, s2) as real / Max(|s1|, |s2|) as real
  }

  method LevenshteinSimilarity(s1: string, s2: string) returns (r: real)
    ensures r == Similarity(s1, s2)
    ensures 0.0 <= r <= 1.0
    ensures r == 1.0 <==> s1 == s2 && s1 != ""
  {
    SimilarityLaws(s1, s2);
    if s1 == "" || s2 == "" {
      return 0.0;
    }
    if s1 == s2 {
      return 1.0;
    }
    var m, n := |s1|, |s2|;
    var distance := TableDistance(s1, s2);
    return 1.0 - distance as real / Max(m, n) as real;
  }

  lemma RatioBounds(d: nat, m: nat)
    requires d <= m && 0 < m
    ensures 0.0 <= d as real / m as real <= 1.0
    ensures d as real / m as real == 0.0 <==> d == 0
  {
    assert d as real / m as real * m as real == d as real;
  }

  lemma SimilarityLaws(s1: string, s2: string)
    ensures Similarity(s1, s2) == Similarity(s2, s1)
    ensures 0.0 <= Similarity(s1, s2) <= 1.0
    ensures Similarity(s1, s2) == 1.0 <==> s1 == s2 && s1 != ""
  {
    if s1 != "" && s2 != "" {
      Symmetric(s1, s2);
      Bounds(s1, s2);
      ZeroIffEqual(s1, s2);
      RatioBounds(Distance(s1, s2), Max(|s1|, |s2|));
    }
  }
}
