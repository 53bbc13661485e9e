/**
 * Resolving a runbook term to a schema field (app/schema/intelligence.py): four matcher
 * stages vote, the best vote of each field is kept, and the highest field wins.
 */
module FieldMatching {
  import opened Wrappers
  import opened EditDistance
  import opened Text
  import opened StableSort
  import opened FieldVotes

  method Score(stage: Stage, term: string, fields: seq<string>) returns (candidates: seq<Candidate>)
    ensures candidates == Votes(stage, term, fields)
    ensures forall c :: c in candidates ==> c.field in fields && Merits(stage, term, c.field, c.score)
    ensures forall f, score :: f in fields && Merits(stage, term, f, score) ==>
      exists c :: c in candidates && c.field == f
  {
    candidates := [];
    for i := 0 to |fields|
      invariant candidates == Votes(stage, term, fields[..i])
    {
      assert fields[..i + 1][..i] == fields[..i];
      var f := Lower(fields[i]);
      match stage {
        case Exact =>
          if term == f {
            candidates := candidates + [Candidate(fields[i], 1.0)];
          }
        case Synonym =>
          if term in SYNONYMS && SYNONYMS[term] == f {
            candidates := candidates + [Candidate(fields[i], 0.9)];
          }
        case Substring =>
          if Contains(f, term) || Contains(term, f) {
            candidates := candidates + [Candidate(fields[i], 0.75)];
          }
        case Levenshtein =>
          var sim := LevenshteinSimilarity(term, f);
          if sim >= 0.6 {
            candidates := candidates + [Candidate(fields[i], Round2(0.7 + sim * 0.1))];
          }
      }
    }
    assert fields[..|fields|] == fields;
    VotesAreMerited(stage, term, fields);
  }

  method Tally(candidates: seq<Candidate>, ghost votes: seq<Candidate>,
               keys0: seq<string>, scores0: map<string, real>)
    returns (keys: seq<string>, scores: map<string, real>)
    requires Tallies(votes, keys0, scores0)
    ensures Tallies(votes + candidates, keys, scores)
  {
    keys, scores := keys0, scores0;
    assert votes + candidates[..0] == votes;
    for i := 0 to |candidates|
      invariant Tallies(votes + candidates[..i], keys, scores)
    {
      var field, score := candidates[i].field, candidates[i].score;
      assert votes + candidates[..i + 1] == votes + candidates[..i] + [candidates[i]];
      TallyOne(votes + candidates[..i], candidates[i], keys, scores);
      if field !in scores {
        keys := keys + [field];
      }
      if field !in scores || score > scores[field] {
        scores := scores[field := score];
      }
    }
    assert candidates[..|candidates|] == candidates;
  }

  method RunPipeline(term: string, fields: seq<string>) returns (keys: seq<string>, scores: map<string, real>)
    ensures Tallies(Ballot(term, fields), keys, scores)
  {
    keys, scores := [], map[];
    for s := 0 to |PIPELINE|
      invariant Tallies(BallotThrough(s, term, fields), keys, scores)
    {
      var candidates := Score(PIPELINE[s], term, fields);
      keys, scores := Tally(candidates, BallotThrough(s, term, fields), keys, scores);
    }
  }

  /** `sorted(scores.items(), ...)[0]`. */
  method BestItem(ghost votes: seq<Candidate>, keys: seq<string>, scores: map<string, real>)
    returns (best: Candidate)
    requires Tallies(votes, keys, scores) && |scores| != 0
    ensures Wins(votes, best.field, best.score)
  {
    ghost var some :| some in scores;
    assert some in keys;
    assert forall i :: 0 <= i < |keys| ==> keys[i] in keys;
    var items := seq(|keys|, i requires 0 <= i < |keys| && keys[i] in scores => Candidate(keys[i], scores[keys[i]]));
    RankedHeadWins(votes, keys, scores, items);
    var ranked := SortDescending(items, ScoreOf);
    best := ranked[0];
  }

  method ResolveField(term: string, schemaFields: seq<string>) returns (field: Option<string>, confidence: real)
    ensures field.None? <==> Ballot(Lower(Strip(term)), schemaFields) == []
    ensures field.None? ==> confidence == 0.5
    ensures field.Some? ==> Wins(Ballot(Lower(Strip(term)), schemaFields), field.value, confidence)
    ensures Resolved(Lower(Strip(term)), schemaFields, field, confidence)
  {
    var clean := Lower(Strip(term));
    ghost var votes := Ballot(clean, schemaFields);
    if schemaFields == [] {
      NoFieldsNoVotes(clean);
      return None, 0.5;
    }
    var keys, scores := RunPipeline(clean, schemaFields);
    if |scores| == 0 {
      assert votes != [] ==> Voted(votes, votes[0].field);
      NoVotesNoField(clean, schemaFields);
      return None, 0.5;
    }
    var best := BestItem(votes, keys, scores);
    VoteRange(clean, schemaFields);
    if best.score >= 0.6 {
      WinnerIsResolved(clean, schemaFields, best.field, best.score);
      return Some(best.field), best.score;
    }
    assert false;
    return None, 0.5;
  }
}
