/**
 * How the four matcher stages vote for schema fields (app/schema/intelligence.py), who wins the ballot, and
 * what the winner is in terms of the term and the fields alone.
 */
module FieldVotes {
  import opened Wrappers
  import opened EditDistance
  import opened Text
  import opened StableSort

  datatype Stage = Exact | Synonym | Substring | Levenshtein

  const PIPELINE := [Exact, Synonym, Substring, Levenshtein]

  datatype Candidate = Candidate(field: string, score: real)

  const SYNONYMS: map<string, string> := map[
    "source_ip" := "src_ip", "ip" := "src_ip", "source ip" := "src_ip", "client_ip" := "src_ip",
    "client ip" := "src_ip", "ip_address" := "src_ip", "ip address" := "src_ip",
    "username" := "user", "user" := "user", "user_name" := "user", "user name" := "user",
    "action" := "action", "act" := "action",
    "status" := "status", "stat" := "status",
    "threat_score" := "threat_score", "threat score" := "threat_score", "score" := "threat_score",
    "category" := "category", "cat" := "category"]

  /** Rounding to two decimals. */
  function Round2(x: real): real
  {
    (x * 100.0 + 0.5).Floor as real / 100.0
  }

  /** What one stage gives one field; None when the stage does not match it. */
  ghost function Vote(stage: Stage, term: string, field: string): Option<real>
  {
    var f := Lower(field);
    match stage
    case Exact => if term == f then Some(1.0) else None
    case Synonym => if term in SYNONYMS && SYNONYMS[term] == f then Some(0.9) else None
    case Substring => if Contains(f, term) || Contains(term, f) then Some(0.75) else None
    case Levenshtein =>
      if Similarity(term, f) >= 0.6 then Some(Round2(0.7 + Similarity(term, f) * 0.1)) else None
  }

  ghost function Votes(stage: Stage, term: string, fields: seq<string>): seq<Candidate>
  {
    if fields == [] then []
    else
      var front := fields[..|fields| - 1];
      var field := fields[|fields| - 1];
      var vote := Vote(stage, term, field);
      Votes(stage, term, front) + if vote.Some? then [Candidate(field, vote.value)] else []
  }

  /** All votes in the order the pipeline casts them. */
  ghost function Ballot(term: string, fields: seq<string>): seq<Candidate>
  {
    BallotThrough(|PIPELINE|, term, fields)
  }

  ghost function BallotThrough(stages: nat, term: string, fields: seq<string>): seq<Candidate>
    requires stages <= |PIPELINE|
  {
    if stages == 0 then []
    else BallotThrough(stages - 1, term, fields) + Votes(PIPELINE[stages - 1], term, fields)
  }

  // ---- The scores dictionary ----

  /** The position of the first vote for `field`; the number of votes when it has none. */
  ghost function FirstVote(votes: seq<Candidate>, field: string): (i: nat)
    ensures i <= |votes|
    ensures i < |votes| ==> votes[i].field == field
    ensures forall j :: 0 <= j < i ==> votes[j].field != field
  {
    if votes == [] || votes[0].field == field then 0
    else 1 + FirstVote(votes[1..], field)
  }

  ghost predicate Voted(votes: seq<Candidate>, field: string)
  {
    FirstVote(votes, field) < |votes|
  }

  ghost predicate Maximal(votes: seq<Candidate>, field: string, score: real)
  {
    Candidate(field, score) in votes && forall c :: c in votes && c.field == field ==> c.score <= score
  }

  /** `scores`, with its keys in insertion order, records the best of `votes` for every voted field. */
  ghost predicate Tallies(votes: seq<Candidate>, keys: seq<string>, scores: map<string, real>)
  {
    && (forall f :: f in keys <==> f in scores)
    && (forall f :: f in scores <==> Voted(votes, f))
    && (forall f :: f in scores ==> Maximal(votes, f, scores[f]))
    && (forall i, j :: 0 <= i < j < |keys| ==> FirstVote(votes, keys[i]) < FirstVote(votes, keys[j]))
  }

  /** `field` wins with `score`: no vote is higher, and equal bests go to the field voted for first. */
  ghost predicate Wins(votes: seq<Candidate>, field: string, score: real)
  {
    && Candidate(field, score) in votes
    && (forall c :: c in votes ==> c.score <= score)
    && (forall c :: c in votes && c.score == score ==> FirstVote(votes, field) <= FirstVote(votes, c.field))
  }

  lemma FirstVoteAppend(votes: seq<Candidate>, c: Candidate, field: string)
    ensures Voted(votes, field) ==> FirstVote(votes + [c], field) == FirstVote(votes, field)
    ensures !Voted(votes, field) ==> FirstVote(votes + [c], field) == |votes| + if field == c.field then 0 else 1
  {
    assert forall k :: 0 <= k < |votes| ==> (votes + [c])[k] == votes[k];
    assert (votes + [c])[|votes|] == c;
    var i, j := FirstVote(votes, field), FirstVote(votes + [c], field);
  }

  function AddKey(keys: seq<string>, scores: map<string, real>, c: Candidate): seq<string>
  {
    if c.field in scores then keys else keys + [c.field]
  }

  function AddScore(scores: map<string, real>, c: Candidate): map<string, real>
  {
    if c.field !in scores || c.score > scores[c.field] then scores[c.field := c.score] else scores
  }

  lemma TallyOrder(votes: seq<Candidate>, c: Candidate, keys: seq<string>, scores: map<string, real>)
    requires Tallies(votes, keys, scores)
    ensures var k := AddKey(keys, scores, c);
      forall i, j :: 0 <= i < j < |k| ==> FirstVote(votes + [c], k[i]) < FirstVote(votes + [c], k[j])
  {
    var k := AddKey(keys, scores, c);
    forall i, j | 0 <= i < j < |k|
      ensures FirstVote(votes + [c], k[i]) < FirstVote(votes + [c], k[j])
    {
      FirstVoteAppend(votes, c, k[i]);
      FirstVoteAppend(votes, c, k[j]);
      assert keys[i] in keys && k[i] == keys[i];
      assert j < |keys| ==> keys[j] in keys;
    }
  }

  lemma TallyScores(votes: seq<Candidate>, c: Candidate, keys: seq<string>, scores: map<string, real>, f: string)
    requires Tallies(votes, keys, scores)
    ensures f in AddKey(keys, scores, c) <==> f in AddScore(scores, c)
    ensures f in AddScore(scores, c) <==> Voted(votes + [c], f)
    ensures f in AddScore(scores, c) ==> Maximal(votes + [c], f, AddScore(scores, c)[f])
  {
    FirstVoteAppend(votes, c, f);
    if f in scores {
      assert Maximal(votes, f, scores[f]);
    } else {
      assert forall d :: d in votes ==> d.field != f;
    }
  }

  /** Counting one more vote, as the inner loop of the pipeline does. */
  lemma TallyOne(votes: seq<Candidate>, c: Candidate, keys: seq<string>, scores: map<string, real>)
    requires Tallies(votes, keys, scores)
    ensures Tallies(votes + [c], AddKey(keys, scores, c), AddScore(scores, c))
  {
    TallyOrder(votes, c, keys, scores);
    forall f { TallyScores(votes, c, keys, scores, f); }
  }

  function ScoreOf(c: Candidate): real { c.score }

  /** No vote beats the best dictionary item, which is listed first among its equals. */
  lemma BestItemWins(votes: seq<Candidate>, keys: seq<string>, scores: map<string, real>, at: nat)
    requires Tallies(votes, keys, scores) && at < |keys|
    requires forall k :: 0 <= k < |keys| ==> keys[k] in scores && scores[keys[k]] <= scores[keys[at]]
    requires forall k :: 0 <= k < at ==> scores[keys[k]] != scores[keys[at]]
    ensures Wins(votes, keys[at], scores[keys[at]])
  {
    assert Maximal(votes, keys[at], scores[keys[at]]);
    forall c | c in votes
      ensures c.score <= scores[keys[at]]
      ensures c.score == scores[keys[at]] ==> FirstVote(votes, keys[at]) <= FirstVote(votes, c.field)
    {
      var k := KeyOf(votes, keys, scores, c);
    }
  }

  /** Every vote is for a listed field and at most that field's entry. */
  lemma KeyOf(votes: seq<Candidate>, keys: seq<string>, scores: map<string, real>, c: Candidate) returns (k: nat)
    requires Tallies(votes, keys, scores) && c in votes
    ensures k < |keys| && keys[k] == c.field && c.field in scores && c.score <= scores[c.field]
  {
    assert Voted(votes, c.field);
    assert c.field in keys;
    k :| 0 <= k < |keys| && keys[k] == c.field;
    assert Maximal(votes, c.field, scores[c.field]);
  }

  /** The head of the ranked dictionary items wins the ballot. */
  lemma RankedHeadWins(votes: seq<Candidate>, keys: seq<string>, scores: map<string, real>, items: seq<Candidate>)
    requires Tallies(votes, keys, scores) && |items| == |keys| > 0
    requires forall i :: 0 <= i < |keys| ==> keys[i] in scores && items[i] == Candidate(keys[i], scores[keys[i]])
    ensures var ranked := SortDescending(items, ScoreOf);
      ranked != [] && Wins(votes, ranked[0].field, ranked[0].score)
  {
    HeadIsFirstGreatest(items, ScoreOf);
    var best := SortDescending(items, ScoreOf)[0];
    var at := WithKeyHead(items, ScoreOf, best.score);
    forall k | 0 <= k < |keys|
      ensures scores[keys[k]] <= scores[keys[at]]
      ensures k < at ==> scores[keys[k]] != scores[keys[at]]
    {
      assert items[k] in items && ScoreOf(items[k]) <= ScoreOf(best);
    }
    BestItemWins(votes, keys, scores, at);
  }

  // ---- What the ranking means ----

  lemma {:induction false} VotesMembers(stage: Stage, term: string, fields: seq<string>)
    ensures forall c :: c in Votes(stage, term, fields)
              <==> c.field in fields && Vote(stage, term, c.field) == Some(c.score)
  {
    if fields != [] {
      VotesMembers(stage, term, fields[..|fields| - 1]);
      assert fields == fields[..|fields| - 1] + [fields[|fields| - 1]];
    }
  }

  lemma RoundInBand(x: real)
    requires 0.76 <= x <= 0.8
    ensures 0.76 <= Round2(x) <= 0.8
  {
  }

  /** Who votes in a ballot: exactly the stages that match the field. */
  lemma BallotMembers(term: string, fields: seq<string>)
    ensures forall c :: c in Ballot(term, fields)
              <==> c.field in fields && exists stage :: Vote(stage, term, c.field) == Some(c.score)
  {
    var e, y, u, l := Votes(Exact, term, fields), Votes(Synonym, term, fields),
                      Votes(Substring, term, fields), Votes(Levenshtein, term, fields);
    BallotParts(term, fields);
    forall stage: Stage { VotesMembers(stage, term, fields); }
    forall c
      ensures c in Ballot(term, fields)
        <==> c.field in fields && exists stage :: Vote(stage, term, c.field) == Some(c.score)
    {
      assert c in Ballot(term, fields) <==> c in e || c in y || c in u || c in l;
      if c.field in fields && exists stage :: Vote(stage, term, c.field) == Some(c.score) {
        var stage :| Vote(stage, term, c.field) == Some(c.score);
        assert c in Votes(stage, term, fields);
        match stage { case Exact => case Synonym => case Substring => case Levenshtein => }
      }
    }
  }

  lemma BallotParts(term: string, fields: seq<string>)
    ensures Ballot(term, fields) == Votes(Exact, term, fields) + Votes(Synonym, term, fields)
                                    + Votes(Substring, term, fields) + Votes(Levenshtein, term, fields)
  {
    assert BallotThrough(1, term, fields) == Votes(Exact, term, fields);
    assert BallotThrough(2, term, fields) == Votes(Exact, term, fields) + Votes(Synonym, term, fields);
    assert BallotThrough(3, term, fields)
        == Votes(Exact, term, fields) + Votes(Synonym, term, fields) + Votes(Substring, term, fields);
  }

  lemma NoFieldsNoVotes(term: string)
    ensures Ballot(term, []) == []
  {
    BallotParts(term, []);
  }

  lemma VoteBand(stage: Stage, term: string, field: string)
    requires Vote(stage, term, field).Some?
    ensures stage == Levenshtein ==> 0.76 <= Vote(stage, term, field).value <= 0.8
    ensures 0.75 <= Vote(stage, term, field).value <= 1.0
  {
    SimilarityLaws(term, Lower(field));
    if stage == Levenshtein { RoundInBand(0.7 + Similarity(term, Lower(field)) * 0.1); }
  }

  /** Every vote reaches the threshold, so that comparison never rejects. */
  lemma VoteRange(term: string, fields: seq<string>)
    ensures forall c :: c in Ballot(term, fields) ==> 0.75 <= c.score <= 1.0
  {
    BallotMembers(term, fields);
    forall c | c in Ballot(term, fields)
      ensures 0.75 <= c.score <= 1.0
    {
      var stage :| Vote(stage, term, c.field) == Some(c.score);
      VoteBand(stage, term, c.field);
    }
  }

  ghost predicate Hit(stage: Stage, term: string, fields: seq<string>)
  {
    exists f :: f in fields && Vote(stage, term, f).Some?
  }

  /** The winner is the vote of some stage that matches it. */
  lemma WinnerStage(term: string, fields: seq<string>, field: string, score: real) returns (mine: Stage)
    requires Wins(Ballot(term, fields), field, score)
    ensures field in fields && Hit(mine, term, fields) && Vote(mine, term, field) == Some(score) && score <= 1.0
    ensures mine == Levenshtein ==> 0.76 <= score <= 0.8
  {
    BallotMembers(term, fields);
    assert Candidate(field, score) in Ballot(term, fields);
    mine :| Vote(mine, term, field) == Some(score);
    VoteBand(mine, term, field);
  }

  /** No stage that matches a field outbids the winner. */
  lemma WinnerOutbids(stage: Stage, term: string, fields: seq<string>, field: string, score: real)
    requires Wins(Ballot(term, fields), field, score) && Hit(stage, term, fields)
    ensures stage == Exact ==> score >= 1.0
    ensures stage == Synonym ==> score >= 0.9
    ensures stage == Levenshtein ==> score >= 0.76
  {
    BallotMembers(term, fields);
    var f :| f in fields && Vote(stage, term, f).Some?;
    VoteBand(stage, term, f);
    assert Candidate(f, Vote(stage, term, f).value) in Ballot(term, fields);
  }

  /**
   * The strength of the stages as the scores order them: exact, then synonym, then similar
   * spelling, then substring, although the pipeline lists substring before spelling.
   */
  lemma StageOrder(term: string, fields: seq<string>, field: string, score: real)
    requires Wins(Ballot(term, fields), field, score)
    ensures field in fields
    ensures Hit(Exact, term, fields) ==> score == 1.0 && Lower(field) == term
    ensures !Hit(Exact, term, fields) && Hit(Synonym, term, fields)
      ==> score == 0.9 && term in SYNONYMS && Lower(field) == SYNONYMS[term]
    ensures !Hit(Exact, term, fields) && !Hit(Synonym, term, fields) && Hit(Levenshtein, term, fields)
      ==> 0.76 <= score <= 0.8 && Vote(Levenshtein, term, field) == Some(score)
    ensures !Hit(Exact, term, fields) && !Hit(Synonym, term, fields) && !Hit(Levenshtein, term, fields)
      ==> score == 0.75 && Vote(Substring, term, field).Some?
  {
    var mine := WinnerStage(term, fields, field, score);
    if Hit(Exact, term, fields) {
      WinnerOutbids(Exact, term, fields, field, score);
    } else if Hit(Synonym, term, fields) {
      WinnerOutbids(Synonym, term, fields, field, score);
    } else if Hit(Levenshtein, term, fields) {
      WinnerOutbids(Levenshtein, term, fields, field, score);
    }
    match mine { case Exact => case Synonym => case Substring => case Levenshtein => }
  }

  /** The first field, in schema order, that `stage` matches. */
  ghost predicate FirstHit(stage: Stage, term: string, fields: seq<string>, field: string)
  {
    exists i :: 0 <= i < |fields| && fields[i] == field && Vote(stage, term, field).Some?
             && forall j :: 0 <= j < i ==> Vote(stage, term, fields[j]).None?
  }

  lemma FirstHitExtends(stage: Stage, term: string, front: seq<string>, field: string, head: string)
    ensures FirstHit(stage, term, front, head) ==> FirstHit(stage, term, front + [field], head)
    ensures !Hit(stage, term, front) && Vote(stage, term, field).Some? ==> FirstHit(stage, term, front + [field], field)
  {
    var fields := front + [field];
    if FirstHit(stage, term, front, head) {
      var i :| 0 <= i < |front| && front[i] == head && Vote(stage, term, head).Some?
            && forall j :: 0 <= j < i ==> Vote(stage, term, front[j]).None?;
      assert fields[i] == head && forall j :: 0 <= j < i ==> fields[j] == front[j];
    }
    if !Hit(stage, term, front) && Vote(stage, term, field).Some? {
      assert fields[|front|] == field;
      assert forall j :: 0 <= j < |front| ==> fields[j] == front[j] && front[j] in front;
    }
  }

  lemma {:induction false} VotesHead(stage: Stage, term: string, fields: seq<string>)
    ensures Votes(stage, term, fields) == [] <==> !Hit(stage, term, fields)
    ensures var votes := Votes(stage, term, fields);
      votes != [] ==> FirstHit(stage, term, fields, votes[0].field)
  {
    if fields != [] {
      var front, field := fields[..|fields| - 1], fields[|fields| - 1];
      assert fields == front + [field];
      VotesHead(stage, term, front);
      var votes := Votes(stage, term, front);
      FirstHitExtends(stage, term, front, field, if votes == [] then "" else votes[0].field);
    }
  }

  ghost predicate Constant(stage: Stage, score: real)
  {
    || (stage == Exact && score == 1.0)
    || (stage == Synonym && score == 0.9)
    || (stage == Substring && score == 0.75)
  }

  /** A stage that gives every match the same score elects the first field it matches, if no earlier stage votes. */
  lemma TiesGoToTheFirstField(stage: Stage, term: string, fields: seq<string>, field: string, score: real)
    requires Wins(Ballot(term, fields), field, score) && Constant(stage, score)
    requires stage != Exact ==> !Hit(Exact, term, fields)
    requires stage == Substring ==> !Hit(Synonym, term, fields)
    requires Hit(stage, term, fields)
    ensures FirstHit(stage, term, fields, field)
  {
    BallotParts(term, fields);
    VotesHead(Exact, term, fields);
    VotesHead(Synonym, term, fields);
    VotesHead(stage, term, fields);
    VotesMembers(stage, term, fields);
    var head := Votes(stage, term, fields)[0];
    assert Ballot(term, fields)[0] == head && head in Votes(stage, term, fields);
  }

  // ---- What a resolution means, without votes ----

  /** The field is the term, but for case. */
  ghost predicate Equals(term: string, field: string)
  {
    Lower(field) == term
  }

  ghost predicate IsSynonym(term: string, field: string)
  {
    term in SYNONYMS && SYNONYMS[term] == Lower(field)
  }

  /** One of the two is written inside the other. */
  ghost predicate Overlaps(term: string, field: string)
  {
    exists before, after :: Lower(field) == before + term + after || term == before + Lower(field) + after
  }

  /** One minus the share of the longer string that a shortest edit script edits. */
  ghost predicate IsSimilarity(a: string, b: string, similarity: real)
  {
    && a != "" && b != ""
    && exists d :: IsShortest(d, a, b) && similarity == 1.0 - d as real / (if |a| < |b| then |b| else |a|) as real
  }

  ghost predicate Resembles(term: string, field: string, similarity: real)
  {
    IsSimilarity(term, Lower(field), similarity) && similarity >= 0.6
  }

  ghost predicate Found(fields: seq<string>, p: string -> bool)
  {
    exists f :: f in fields && p(f)
  }

  /** The first of the fields with property `p`. */
  ghost predicate IsFirst(fields: seq<string>, p: string -> bool, field: string)
  {
    exists i :: 0 <= i < |fields| && fields[i] == field && p(field) && forall j :: 0 <= j < i ==> !p(fields[j])
  }

  /** A confidence in whole hundredths that 0.7 and a tenth of the similarity round to. */
  predicate RoundsTo(similarity: real, confidence: real)
  {
    confidence - 0.005 <= 0.7 + similarity / 10.0 < confidence + 0.005
  }

  /** The field resembles the term best, up to the rounding. */
  ghost predicate ResemblesBest(term: string, fields: seq<string>, field: string, confidence: real)
  {
    && field in fields && (exists s :: Resembles(term, field, s) && RoundsTo(s, confidence))
    && forall g, t :: g in fields && Resembles(term, g, t) ==> 0.7 + t / 10.0 < confidence + 0.005
  }

  /** The first equal field, else the first synonym, else the best resembling, else the first overlapping one. */
  ghost predicate Resolved(term: string, fields: seq<string>, field: Option<string>, confidence: real)
  {
    if Found(fields, f => Equals(term, f)) then
      field.Some? && IsFirst(fields, f => Equals(term, f), field.value) && confidence == 1.0
    else if Found(fields, f => IsSynonym(term, f)) then
      field.Some? && IsFirst(fields, f => IsSynonym(term, f), field.value) && confidence == 0.9
    else if exists f, s :: f in fields && Resembles(term, f, s) then
      field.Some? && ResemblesBest(term, fields, field.value, confidence)
    else if Found(fields, f => Overlaps(term, f)) then
      field.Some? && IsFirst(fields, f => Overlaps(term, f), field.value) && confidence == 0.75
    else field.None? && confidence == 0.5
  }

  lemma OneShortest(a: string, b: string, d: nat)
    ensures IsShortest(d, a, b) <==> d == Distance(a, b)
  {
    DistanceIsShortest(a, b);
    if IsShortest(d, a, b) {
      var short :| Turns(short, a, b) && |short| == d;
      var best :| Turns(best, a, b) && |best| == Distance(a, b);
    }
  }

  lemma OneSimilarity(a: string, b: string, s: real)
    requires a != "" && b != ""
    ensures IsSimilarity(a, b, s) <==> s == Similarity(a, b)
  {
    OneShortest(a, b, Distance(a, b));
    if IsSimilarity(a, b, s) {
      var d :| IsShortest(d, a, b) && s == 1.0 - d as real / (if |a| < |b| then |b| else |a|) as real;
      OneShortest(a, b, d);
    }
  }

  lemma RoundingIsNear(x: real)
    ensures Round2(x) - 0.005 <= x < Round2(x) + 0.005
  {
  }

  lemma FloorAscends(x: real, y: real)
    requires x <= y
    ensures x.Floor <= y.Floor
  {
    assert x.Floor as real <= x && y < y.Floor as real + 1.0;
  }

  lemma RoundingAscends(x: real, y: real)
    requires x <= y
    ensures Round2(x) <= Round2(y)
  {
    FloorAscends(x * 100.0 + 0.5, y * 100.0 + 0.5);
  }

  lemma ResemblingIsSimilar(term: string, field: string, s: real)
    ensures Resembles(term, field, s) <==> s == Similarity(term, Lower(field)) && s >= 0.6
  {
    if term != "" && Lower(field) != "" {
      OneSimilarity(term, Lower(field), s);
    } else {
      assert Similarity(term, Lower(field)) == 0.0;
    }
  }

  lemma ResemblingVotes(term: string, field: string, s: real)
    requires s == Similarity(term, Lower(field)) && s >= 0.6
    ensures Vote(Levenshtein, term, field) == Some(Round2(0.7 + s * 0.1))
  {
  }

  lemma OverlapIsContained(term: string, field: string)
    ensures Overlaps(term, field) <==> Contains(Lower(field), term) || Contains(term, Lower(field))
  {
    var f := Lower(field);
    ContainsMeans(f, term);
    ContainsMeans(term, f);
  }

  lemma SpellingVoteMeans(term: string, field: string)
    ensures Vote(Levenshtein, term, field).Some? <==> exists s :: Resembles(term, field, s)
  {
    var similarity := Similarity(term, Lower(field));
    ResemblingIsSimilar(term, field, similarity);
    assert Vote(Levenshtein, term, field).Some? <==> similarity >= 0.6;
    forall s | Resembles(term, field, s)
      ensures similarity >= 0.6
    {
      ResemblingIsSimilar(term, field, s);
    }
  }

  /** What the votes of the four stages for one field say. */
  lemma VotesMean(term: string, field: string)
    ensures Vote(Exact, term, field) == if Equals(term, field) then Some(1.0) else None
    ensures Vote(Synonym, term, field) == if IsSynonym(term, field) then Some(0.9) else None
    ensures Vote(Substring, term, field) == if Overlaps(term, field) then Some(0.75) else None
    ensures Vote(Levenshtein, term, field).Some? <==> exists s :: Resembles(term, field, s)
  {
    OverlapIsContained(term, field);
    SpellingVoteMeans(term, field);
  }

  lemma ResemblingVote(term: string, field: string, s: real)
    requires Resembles(term, field, s)
    ensures Vote(Levenshtein, term, field) == Some(Round2(0.7 + s * 0.1))
  {
    ResemblingIsSimilar(term, field, s);
    ResemblingVotes(term, field, s);
  }

  /** The vote for a field is its similarity, rounded. */
  lemma ResemblingRounds(term: string, field: string, s: real)
    requires Resembles(term, field, s)
    ensures Vote(Levenshtein, term, field).Some? && RoundsTo(s, Vote(Levenshtein, term, field).value)
  {
    ResemblingVote(term, field, s);
    RoundingIsNear(0.7 + s * 0.1);
  }

  /** What merits a vote of the stage, and with which score. */
  ghost predicate Merits(stage: Stage, term: string, field: string, score: real)
  {
    match stage
    case Exact => Equals(term, field) && score == 1.0
    case Synonym => IsSynonym(term, field) && score == 0.9
    case Substring => Overlaps(term, field) && score == 0.75
    case Levenshtein => exists s :: Resembles(term, field, s) && RoundsTo(s, score)
  }

  /** A stage votes for exactly the listed fields that merit it. */
  lemma VotesAreMerited(stage: Stage, term: string, fields: seq<string>)
    ensures forall c :: c in Votes(stage, term, fields) ==> c.field in fields && Merits(stage, term, c.field, c.score)
    ensures forall f, score :: f in fields && Merits(stage, term, f, score) ==>
      exists c :: c in Votes(stage, term, fields) && c.field == f
  {
    VotesMembers(stage, term, fields);
    forall f | f in fields
      ensures forall score :: Vote(stage, term, f) == Some(score) ==> Merits(stage, term, f, score)
      ensures forall score :: Merits(stage, term, f, score) ==> Vote(stage, term, f).Some?
    {
      VoteIsMerited(stage, term, f);
    }
    forall f, score | f in fields && Merits(stage, term, f, score)
      ensures exists c :: c in Votes(stage, term, fields) && c.field == f
    {
      assert Candidate(f, Vote(stage, term, f).value) in Votes(stage, term, fields);
    }
  }

  lemma VoteIsMerited(stage: Stage, term: string, field: string)
    ensures forall score :: Vote(stage, term, field) == Some(score) ==> Merits(stage, term, field, score)
    ensures forall score :: Merits(stage, term, field, score) ==> Vote(stage, term, field).Some?
  {
    VotesMean(term, field);
    if stage == Levenshtein && Vote(stage, term, field).Some? {
      var s :| Resembles(term, field, s);
      ResemblingRounds(term, field, s);
    }
  }

  ghost function Property(stage: Stage, term: string): string -> bool
  {
    match stage
    case Exact => f => Equals(term, f)
    case Synonym => f => IsSynonym(term, f)
    case Substring => f => Overlaps(term, f)
    case Levenshtein => f => exists s :: Resembles(term, f, s)
  }

  lemma HitsMean(stage: Stage, term: string, fields: seq<string>)
    ensures Hit(stage, term, fields) <==> Found(fields, Property(stage, term))
    ensures forall field :: FirstHit(stage, term, fields, field) ==> IsFirst(fields, Property(stage, term), field)
  {
    forall f: string { VotesMean(term, f); }
    forall f: string
      ensures Vote(stage, term, f).Some? <==> Property(stage, term)(f)
    {
    }
  }

  lemma BestByFirst(stage: Stage, term: string, fields: seq<string>, field: string, score: real)
    requires Wins(Ballot(term, fields), field, score) && Constant(stage, score) && Hit(stage, term, fields)
    requires stage != Exact ==> !Hit(Exact, term, fields)
    requires stage == Substring ==> !Hit(Synonym, term, fields)
    ensures IsFirst(fields, Property(stage, term), field)
  {
    TiesGoToTheFirstField(stage, term, fields, field, score);
    HitsMean(stage, term, fields);
  }

  /** A field whose spelling vote is outbid rounds no higher. */
  lemma OutbidRoundsBelow(term: string, fields: seq<string>, field: string, score: real, g: string, t: real)
    requires Wins(Ballot(term, fields), field, score) && g in fields && Resembles(term, g, t)
    ensures 0.7 + t / 10.0 < score + 0.005
  {
    ResemblingRounds(term, g, t);
    BallotMembers(term, fields);
    var vote := Vote(Levenshtein, term, g).value;
    assert Candidate(g, vote) in Ballot(term, fields);
  }

  lemma BestByResemblance(term: string, fields: seq<string>, field: string, score: real)
    requires Wins(Ballot(term, fields), field, score) && field in fields
    requires Vote(Levenshtein, term, field) == Some(score)
    ensures ResemblesBest(term, fields, field, score)
  {
    VotesMean(term, field);
    var s :| Resembles(term, field, s);
    ResemblingRounds(term, field, s);
    forall g, t | g in fields && Resembles(term, g, t)
      ensures 0.7 + t / 10.0 < score + 0.005
    {
      OutbidRoundsBelow(term, fields, field, score, g, t);
    }
  }

  /** The winner of the ballot is what the fields themselves single out. */
  lemma WinnerIsResolved(term: string, fields: seq<string>, field: string, score: real)
    requires Wins(Ballot(term, fields), field, score)
    ensures Resolved(term, fields, Some(field), score)
  {
    StageOrder(term, fields, field, score);
    HitsMean(Exact, term, fields);
    HitsMean(Synonym, term, fields);
    HitsMean(Substring, term, fields);
    HitsMean(Levenshtein, term, fields);
    if Hit(Exact, term, fields) {
      BestByFirst(Exact, term, fields, field, score);
    } else if Hit(Synonym, term, fields) {
      BestByFirst(Synonym, term, fields, field, score);
    } else if Hit(Levenshtein, term, fields) {
      BestByResemblance(term, fields, field, score);
    } else {
      assert Hit(Substring, term, fields);
      BestByFirst(Substring, term, fields, field, score);
    }
  }

  lemma NoVotesNoField(term: string, fields: seq<string>)
    requires Ballot(term, fields) == []
    ensures Resolved(term, fields, None, 0.5)
  {
    BallotMembers(term, fields);
    forall stage: Stage
      ensures !Found(fields, Property(stage, term))
    {
      forall f | f in fields
        ensures Vote(stage, term, f).None?
      {
        assert forall score :: Vote(stage, term, f) == Some(score) ==> Candidate(f, score) in Ballot(term, fields);
      }
      HitsMean(stage, term, fields);
    }
    assert !Found(fields, Property(Exact, term)) && !Found(fields, Property(Synonym, term));
    assert !Found(fields, Property(Substring, term)) && !Found(fields, Property(Levenshtein, term));
  }

  ghost function Scaled(similarity: real): real
  {
    Round2(0.7 + similarity * 0.1)
  }

  lemma VoteIsRounded(term: string, field: string, s: real, vote: real)
    requires Resembles(term, field, s) && Vote(Levenshtein, term, field) == Some(vote)
    ensures vote == Scaled(s)
  {
    ResemblingVote(term, field, s);
  }

  ghost predicate VotesWith(term: string, field: string, s: real, vote: real)
  {
    Resembles(term, field, s) && Vote(Levenshtein, term, field) == Some(vote)
  }

  /** What resembles more never votes lower. */
  lemma ResemblingMoreVotesMore(term: string)
    ensures forall f, g, s, t, lower, higher ::
      VotesWith(term, f, s, lower) && VotesWith(term, g, t, higher) && s <= t ==> lower <= higher
  {
    forall f, s, vote | VotesWith(term, f, s, vote)
      ensures vote == Scaled(s)
    {
      VoteIsRounded(term, f, s, vote);
    }
    forall s, t | s <= t
      ensures Scaled(s) <= Scaled(t)
    {
      RoundingAscends(0.7 + s * 0.1, 0.7 + t * 0.1);
    }
  }
}
