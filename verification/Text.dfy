/** The string operations the models use, on ASCII letters and blanks. */
module Text {

  function LowerChar(c: char): char
  {
    if 'A' <= c <= 'Z' then (c as int - 'A' as int + 'a' as int) as char else c
  }

  function Lower(s: string): (r: string)
    ensures |r| == |s|
    ensures forall i :: 0 <= i < |s| ==>
      r[i] as int == if 65 <= s[i] as int <= 90 then s[i] as int + 32 else s[i] as int
  {
    seq(|s|, i requires 0 <= i < |s| => LowerChar(s[i]))
  }

  predicate IsBlank(c: char)
  {
    '\t' <= c <= '\r' || '\U{1c}' <= c <= ' '
  }

  /** What is left begins and ends with no blank, and only blanks are gone. */
  ghost predicate IsStripped(s: string, r: string)
  {
    && (r != "" ==> r[0] as int !in BLANKS && r[|r| - 1] as int !in BLANKS)
    && exists before, after :: s == before + r + after && forall c :: c in before + after ==> c as int in BLANKS
  }

  /** The codes of the ASCII characters that `str.strip` takes for blanks. */
  const BLANKS := {9, 10, 11, 12, 13, 28, 29, 30, 31, 32}

  function Strip(s: string): (r: string)
    ensures IsStripped(s, r)
    decreases |s|
  {
    if s != "" && IsBlank(s[0]) then
      var r := Strip(s[1..]);
      StripFront(s, r);
      r
    else if s != "" && IsBlank(s[|s| - 1]) then
      var r := Strip(s[..|s| - 1]);
      StripBack(s, r);
      r
    else
      assert s == "" + s + "";
      s
  }

  lemma StripFront(s: string, r: string)
    requires s != "" && IsBlank(s[0]) && IsStripped(s[1..], r)
    ensures IsStripped(s, r)
  {
    var before, after :| s[1..] == before + r + after && forall c :: c in before + after ==> c as int in BLANKS;
    assert s == [s[0]] + before + r + after;
    assert forall c :: c in ([s[0]] + before) + after ==> c == s[0] || c in before + after;
  }

  lemma StripBack(s: string, r: string)
    requires s != "" && IsBlank(s[|s| - 1]) && IsStripped(s[..|s| - 1], r)
    ensures IsStripped(s, r)
  {
    var front, last := s[..|s| - 1], s[|s| - 1];
    var before, after :| front == before + r + after && forall c :: c in before + after ==> c as int in BLANKS;
    assert s == before + r + (after + [last]);
    assert forall c :: c in before + (after + [last]) ==> c == last || c in before + after;
  }

  predicate StartsWith(s: string, prefix: string)
  {
    prefix <= s
  }

  /** Python's `p in s` on strings. */
  predicate Contains(s: string, p: string)
  {
    exists i :: 0 <= i <= |s| && OccursAt(s, p, i)
  }

  predicate OccursAt(s: string, p: string, i: nat)
    requires i <= |s|
  {
    StartsWith(s[i..], p)
  }

  lemma ContainsMeans(s: string, p: string)
    ensures Contains(s, p) <==> exists before, after :: s == before + p + after
  {
    if Contains(s, p) {
      var i :| 0 <= i <= |s| && OccursAt(s, p, i);
      assert s == s[..i] + p + s[i + |p|..];
    }
    if exists before, after :: s == before + p + after {
      var before, after :| s == before + p + after;
      assert s[|before|..] == p + after;
      assert OccursAt(s, p, |before|);
    }
  }

  /** Joining with a separator loses nothing when the first part has no separator in it. */
  lemma JoinInjective(a: string, b: string, c: string, d: string, sep: char)
    requires sep !in a && sep !in c
    requires a + [sep] + b == c + [sep] + d
    ensures a == c && b == d
  {
    var left, right := a + [sep] + b, c + [sep] + d;
    assert left[|a|] == sep && left[|c|] == sep;
    assert forall i :: 0 <= i < |a| ==> left[i] == a[i];
    assert forall i :: 0 <= i < |c| ==> right[i] == c[i];
    assert |a| == |c|;
    assert a == left[..|a|] == right[..|c|] == c;
    assert b == left[|a| + 1..] == right[|c| + 1..] == d;
  }
}
