/** Fields of cron expressions (app/jobs/scheduler.py:15-34). */
module CronPattern {
  import opened Wrappers

  // ---- Numbers in patterns ----

  predicate IsDigit(c: char)
  {
    '0' <= c <= '9'
  }

  predicate IsDigits(s: string)
  {
    s != "" && forall c :: c in s ==> IsDigit(c)
  }

  function Value(s: string): nat
    requires forall c :: c in s ==> IsDigit(c)
  {
    if s == "" then 0
    else
      var last := s[|s| - 1];
      assert last in s && IsDigit(last);
      10 * Value(s[..|s| - 1]) + (last as int - '0' as int)
  }

  function Split(s: string, sep: char): (parts: seq<string>)
    ensures parts != [] && forall p :: p in parts ==> sep !in p
  {
    if s == "" then [""]
    else
      var front, last := Split(s[..|s| - 1], sep), s[|s| - 1];
      if last == sep then front + [""] else front[|front| - 1 := front[|front| - 1] + [last]]
  }

  function Joined(parts: seq<string>): string
  {
    if parts == [] then "" else Joined(parts[..|parts| - 1]) + parts[|parts| - 1]
  }

  lemma {:induction false} JoinedDigits(parts: seq<string>)
    requires forall p :: p in parts ==> IsDigits(p)
    ensures forall c :: c in Joined(parts) ==> IsDigit(c)
  {
    if parts != [] {
      JoinedDigits(parts[..|parts| - 1]);
      assert IsDigits(parts[|parts| - 1]);
    }
  }

  /** Python's `int(s)` without blanks: an optional sign and digits, single underscores between digits allowed. */
  function ParseInt(s: string): Option<int>
  {
    var signed := s != "" && (s[0] == '+' || s[0] == '-');
    var groups := Split(if signed then s[1..] else s, '_');
    if forall g :: g in groups ==> IsDigits(g) then
      JoinedDigits(groups);
      var n: int := Value(Joined(groups));
      Some(if signed && s[0] == '-' then -n else n)
    else None
  }

  // ---- One field ----

  /** What testing a field gives; a step of zero makes Python's `%` raise. */
  datatype Match = Yes | No | DivisionByZero

  function CronMatches(pattern: string, val: nat): Match
  {
    if pattern == "*" then Yes
    else if "*/" <= pattern then
      match ParseInt(pattern[2..])
      case None => No
      case Some(step) => if step == 0 then DivisionByZero else if val % step == 0 then Yes else No
    else if ',' in pattern then
      if exists part :: part in Split(pattern, ',') && IsDigits(part) && Value(part) == val then Yes else No
    else if IsDigits(pattern) && Value(pattern) == val then Yes
    else No
  }

  /** Whether a field divides by zero does not depend on the time. */
  predicate ZeroStep(pattern: string)
  {
    "*/" <= pattern && ParseInt(pattern[2..]) == Some(0)
  }

  lemma ZeroStepAlways(pattern: string, val: nat)
    ensures CronMatches(pattern, val) == DivisionByZero <==> ZeroStep(pattern)
  {
  }

  // ---- What patterns mean ----

  predicate Literal(pattern: string, v: nat)
  {
    IsDigits(pattern) && Value(pattern) == v
  }

  lemma DigitsOnly(s: string, c: char)
    requires IsDigits(s) && !IsDigit(c)
    ensures c !in s && s[0] != c
  {
    assert s[0] in s;
  }

  lemma LiteralMatchesOne(pattern: string, v: nat, x: nat)
    requires Literal(pattern, v)
    ensures CronMatches(pattern, x) == if x == v then Yes else No
  {
    DigitsOnly(pattern, '*');
    DigitsOnly(pattern, ',');
  }

  /** `parts` with `more` at the end of its last part. */
  function Extend(parts: seq<string>, more: string): seq<string>
    requires parts != []
  {
    parts[|parts| - 1 := parts[|parts| - 1] + more]
  }

  lemma ExtendTwice(parts: seq<string>, a: string, b: string)
    requires parts != []
    ensures Extend(Extend(parts, a), b) == Extend(parts, a + b)
  {
    assert parts[|parts| - 1] + a + b == parts[|parts| - 1] + (a + b);
  }

  lemma {:induction false} SplitAppendPart(s: string, part: string, sep: char)
    requires sep !in part
    ensures Split(s + part, sep) == Extend(Split(s, sep), part)
  {
    if part == "" {
      assert s + part == s && Split(s, sep)[|Split(s, sep)| - 1] + part == Split(s, sep)[|Split(s, sep)| - 1];
    } else {
      var front, last := part[..|part| - 1], part[|part| - 1];
      assert part == front + [last] && last in part;
      assert s + part == s + front + [last];
      SplitAppendPart(s, front, sep);
      ExtendTwice(Split(s, sep), front, [last]);
    }
  }

  function JoinWith(parts: seq<string>, sep: char): string
    requires parts != []
  {
    if |parts| == 1 then parts[0] else JoinWith(parts[..|parts| - 1], sep) + [sep] + parts[|parts| - 1]
  }

  /** Splitting undoes joining. */
  lemma {:induction false} SplitJoin(parts: seq<string>, sep: char)
    requires parts != [] && forall p :: p in parts ==> sep !in p
    ensures Split(JoinWith(parts, sep), sep) == parts
  {
    var front, last := parts[..|parts| - 1], parts[|parts| - 1];
    assert parts == front + [last];
    if front == [] {
      SplitAppendPart("", last, sep);
      assert "" + last == last;
    } else {
      SplitJoin(front, sep);
      SplitAppendPart(JoinWith(front, sep) + [sep], last, sep);
    }
  }

  lemma OneGroup(digits: string)
    requires IsDigits(digits)
    ensures Split(digits, '_') == [digits] && Joined([digits]) == digits
  {
    DigitsOnly(digits, '_');
    SplitJoin([digits], '_');
    assert [digits][..0] == [];
  }

  lemma ParseDigits(digits: string)
    requires IsDigits(digits)
    ensures ParseInt(digits) == Some(Value(digits))
  {
    DigitsOnly(digits, '+');
    DigitsOnly(digits, '-');
    OneGroup(digits);
  }

  /** A step pattern matches exactly the multiples of its number. */
  lemma StepMatchesMultiples(digits: string, val: nat)
    requires IsDigits(digits)
    ensures CronMatches("*/" + digits, val)
         == if Value(digits) == 0 then DivisionByZero else if val % Value(digits) == 0 then Yes else No
  {
    ParseDigits(digits);
    assert ("*/" + digits)[2..] == digits;
  }

  lemma ParseSigned(sign: char, digits: string)
    requires IsDigits(digits) && (sign == '+' || sign == '-')
    ensures var n: int := Value(digits); ParseInt([sign] + digits) == Some(if sign == '-' then -n else n)
  {
    var signed := [sign] + digits;
    assert signed[0] == sign && signed[1..] == digits;
    OneGroup(digits);
  }

  lemma NegativeDivisor(val: nat, n: int)
    requires n > 0
    ensures val % -n == val % n
  {
  }

  /** A sign before the number of a step changes nothing. */
  lemma SignedStepMatchesAlike(sign: char, digits: string, val: nat)
    requires IsDigits(digits) && (sign == '+' || sign == '-')
    ensures CronMatches("*/" + [sign] + digits, val) == CronMatches("*/" + digits, val)
  {
    ParseSigned(sign, digits);
    ParseDigits(digits);
    assert ("*/" + [sign] + digits)[2..] == [sign] + digits && ("*/" + digits)[2..] == digits;
    if Value(digits) > 0 {
      NegativeDivisor(val, Value(digits));
    }
  }

  lemma {:induction false} JoinParts(parts: seq<string>, sep: char)
    requires parts != []
    ensures parts[0] <= JoinWith(parts, sep)
    ensures |parts| > 1 ==> sep in JoinWith(parts, sep)
  {
    if |parts| > 1 {
      JoinParts(parts[..|parts| - 1], sep);
    }
  }

  /** A comma list of numbers matches exactly the numbers in it. */
  lemma ListMatchesItsNumbers(parts: seq<string>, val: nat)
    requires |parts| >= 2 && forall p :: p in parts ==> IsDigits(p)
    ensures CronMatches(JoinWith(parts, ','), val) == if exists p :: p in parts && Literal(p, val) then Yes else No
  {
    var pattern := JoinWith(parts, ',');
    forall p | p in parts
      ensures ',' !in p && p[0] != '*'
    {
      DigitsOnly(p, ',');
      DigitsOnly(p, '*');
    }
    SplitJoin(parts, ',');
    JoinParts(parts, ',');
    assert parts[0] in parts && pattern[0] == parts[0][0];
  }
}
