/**
 * A vault service whose table other services change too (app/vault/service.py, app/vault/cache.py): its cache
 * hears of its own changes only.
 */
module SharedVault {
  import opened Wrappers
  import opened SecretStore
  import opened SecretCache
  import opened Vault

  datatype Shared = Shared(rows: Rows, entries: Entries)

  /** A change by this service, a change by another one, and a resolution; `granted` unless limited or blocked. */
  datatype Step =
    | Own(change: Change)
    | Foreign(change: Change)
    | Resolve(key: CacheKey, now: real, ttl: int, granted: bool)

  /** The row that answers a key; there is only one. */
  ghost function AnswerOf(rows: Rows, key: CacheKey): (row: Secret)
    requires IsAnswered(rows, key)
    ensures row in rows.Values && Selects(row, key.tenant, key.name, key.version)
  {
    var id :| id in rows && Selects(rows[id], key.tenant, key.name, key.version);
    rows[id]
  }

  /** Rotation, and a disabling that changes the table, drop the name; there is nothing to drop at a creation. */
  ghost function OwnEntries(s: Shared, change: Change): Entries
  {
    match change
    case Saving(record) =>
      if IsNext(s.rows, record) && record.version > 1 then Dropped(s.entries, record.tenant, record.name) else s.entries
    case Disabling(tenant, id) =>
      if Disabled(s.rows, tenant, id) != s.rows && id in s.rows then Dropped(s.entries, tenant, s.rows[id].name)
      else s.entries
  }

  ghost predicate Resolves(s: Shared, step: Step)
  {
    step.Resolve? && step.granted && IsAnswered(s.rows, step.key) && AnswerOf(s.rows, step.key).enabled
  }

  ghost function ServedTo(s: Shared, step: Step): string
    requires Resolves(s, step)
  {
    Served(s.entries, step.key, step.now, AnswerOf(s.rows, step.key))
  }

  ghost function Do(s: Shared, step: Step): Shared
  {
    match step
    case Own(change) => Shared(Changed(s.rows, change), OwnEntries(s, change))
    case Foreign(change) => s.(rows := Changed(s.rows, change))
    case Resolve(key, now, ttl, _) =>
      if Resolves(s, step) then
        s.(entries := AfterServing(s.entries, key, now, ServedTo(s, step), now + ttl as real))
      else s
  }

  /** A service starts with an empty cache on whatever the table holds. */
  ghost function Run(rows: Rows, steps: seq<Step>): Shared
  {
    if steps == [] then Shared(rows, map[]) else Do(Run(rows, steps[..|steps| - 1]), steps[|steps| - 1])
  }

  ghost predicate LivesAtMost(steps: seq<Step>, ttl: real)
  {
    ttl >= 0.0 && forall step :: step in steps && step.Resolve? ==> step.ttl as real <= ttl
  }

  /** `value` is the plaintext of what answers `key`. */
  ghost predicate Answers(rows: Rows, key: CacheKey, value: string)
  {
    IsAnswered(rows, key) && IsPlaintext(rows, key, value)
  }

  ghost predicate Rotates(before: Rows, step: Step, key: CacheKey)
  {
    && step.Foreign? && step.change.Saving? && IsNext(before, step.change.record)
    && step.change.record.tenant == key.tenant && step.change.record.name == key.name
  }

  /** After step `i` no other service has rotated the secret. */
  ghost predicate Unrotated(rows: Rows, steps: seq<Step>, i: nat, key: CacheKey)
  {
    forall j :: i < j < |steps| ==> !Rotates(Run(rows, steps[..j]).rows, steps[j], key)
  }

  /** Step `i` read `value` from the table; for a numbered version, or without a rotation, it is still right. */
  ghost predicate ReadAt(rows: Rows, steps: seq<Step>, i: nat, key: CacheKey, value: string)
  {
    && i < |steps| && steps[i].Resolve? && steps[i].key == key
    && Answers(Run(rows, steps[..i]).rows, key, value)
    && (key.version.Some? || Unrotated(rows, steps, i, key) ==> Answers(Run(rows, steps).rows, key, value))
  }

  ghost predicate ReadRecently(rows: Rows, steps: seq<Step>, ttl: real, key: CacheKey, entry: Entry)
  {
    exists i: nat :: ReadAt(rows, steps, i, key, entry.value) && entry.expireAt <= steps[i].now + ttl
  }

  ghost predicate AllReadRecently(rows: Rows, steps: seq<Step>, ttl: real)
  {
    var s := Run(rows, steps);
    forall key :: key in s.entries ==>
      Has(s.rows, key.tenant, key.name) && ReadRecently(rows, steps, ttl, key, s.entries[key])
  }

  // ---- The table ----

  lemma {:induction false} RunStaysNumbered(rows: Rows, steps: seq<Step>)
    requires Numbered(rows)
    ensures Numbered(Run(rows, steps).rows)
  {
    if steps != [] {
      var s, step := Run(rows, steps[..|steps| - 1]), steps[|steps| - 1];
      RunStaysNumbered(rows, steps[..|steps| - 1]);
      if step.Own? || step.Foreign? {
        ChangeKeepsNumbering(s.rows, step.change);
      }
    }
  }

  lemma OlderVersionsKeepAnswers(rows: Rows, record: Secret, key: CacheKey)
    requires IsNext(rows, record) && IsAnswered(rows, key)
    requires key.tenant == record.tenant && key.name == record.name && key.version.Some?
    ensures IsAnswered(Saved(rows, record), key)
    ensures forall value :: IsPlaintext(Saved(rows, record), key, value) <==> IsPlaintext(rows, key, value)
  {
    var after := Saved(rows, record);
    var k: nat :| NumberedTo(rows, record.tenant, record.name, k) && record.version == k + 1;
    forall id
      ensures id in after && Selects(after[id], key.tenant, key.name, key.version)
        <==> id in rows && Selects(rows[id], key.tenant, key.name, key.version)
    {
    }
  }

  lemma DisablingKeepsAnswers(rows: Rows, tenant: string, id: string, key: CacheKey)
    requires IsAnswered(rows, key)
    ensures IsAnswered(Disabled(rows, tenant, id), key)
    ensures forall value :: IsPlaintext(rows, key, value) ==> IsPlaintext(Disabled(rows, tenant, id), key, value)
  {
    var after := Disabled(rows, tenant, id);
    var x :| x in rows && Selects(rows[x], key.tenant, key.name, key.version);
    assert x in after && Selects(after[x], key.tenant, key.name, key.version);
  }

  /** A change leaves every answer as it is, but that for the current version of the name it saves. */
  lemma ChangeKeepsAnswers(rows: Rows, change: Change, key: CacheKey, value: string)
    requires Answers(rows, key, value)
    requires key.version.None? && change.Saving? ==>
      !(change.record.tenant == key.tenant && change.record.name == key.name)
    ensures Answers(Changed(rows, change), key, value)
  {
    match change
    case Saving(record) =>
      if IsNext(rows, record) {
        if key.tenant == record.tenant && key.name == record.name {
          OlderVersionsKeepAnswers(rows, record, key);
        } else {
          OtherNamesKeepAnswers(rows, record, key);
        }
      }
    case Disabling(tenant, id) => DisablingKeepsAnswers(rows, tenant, id, key);
  }

  // ---- The cache ----

  lemma ChangeKeepsName(rows: Rows, change: Change, tenant: string, name: string)
    requires Has(rows, tenant, name)
    ensures Has(Changed(rows, change), tenant, name)
  {
    var id :| id in rows && Belongs(rows[id], tenant, name);
    assert id in Changed(rows, change) && Belongs(Changed(rows, change)[id], tenant, name);
  }

  lemma UnrotatedBefore(rows: Rows, steps: seq<Step>, step: Step, i: nat, key: CacheKey)
    requires Unrotated(rows, steps + [step], i, key) && i < |steps|
    ensures Unrotated(rows, steps, i, key) && !Rotates(Run(rows, steps).rows, step, key)
  {
    var all := steps + [step];
    forall j | i < j < |steps|
      ensures !Rotates(Run(rows, steps[..j]).rows, steps[j], key)
    {
      assert all[..j] == steps[..j] && all[j] == steps[j];
    }
    assert all[..|steps|] == steps && all[|steps|] == step;
  }

  /** An entry that stays was read as before. */
  lemma StaysRead(rows: Rows, steps: seq<Step>, step: Step, i: nat, key: CacheKey, value: string)
    requires ReadAt(rows, steps, i, key, value) && Has(Run(rows, steps).rows, key.tenant, key.name)
    requires key in Do(Run(rows, steps), step).entries
    ensures ReadAt(rows, steps + [step], i, key, value)
  {
    var s, all := Run(rows, steps), steps + [step];
    assert all[..|all| - 1] == steps && all[..i] == steps[..i];
    if key.version.Some? || Unrotated(rows, all, i, key) {
      if key.version.None? {
        UnrotatedBefore(rows, steps, step, i, key);
      }
      if step.Own? && step.change.Saving? && IsNext(s.rows, step.change.record) {
        assert !(step.change.record.tenant == key.tenant && step.change.record.name == key.name);
      }
      if (step.Own? || step.Foreign?) && Changed(s.rows, step.change) != s.rows {
        ChangeKeepsAnswers(s.rows, step.change, key, value);
      }
    }
  }

  /** What is not served from the cache is the plaintext of the row that answers. */
  lemma MissReadsTheRow(rows: Rows, key: CacheKey)
    requires Numbered(rows) && IsAnswered(rows, key)
    ensures Answers(rows, key, Decrypt(AnswerOf(rows, key).value))
  {
    SelectionIsUnique(rows, key.tenant, key.name, key.version);
  }

  lemma NewlyRead(rows: Rows, steps: seq<Step>, step: Step)
    requires Numbered(rows)
    requires var s := Run(rows, steps); Resolves(s, step) && !IsFresh(s.entries, step.key, step.now)
    ensures ReadAt(rows, steps + [step], |steps|, step.key, ServedTo(Run(rows, steps), step))
  {
    var s, all := Run(rows, steps), steps + [step];
    assert all[..|all| - 1] == steps && all[..|steps|] == steps;
    RunStaysNumbered(rows, steps);
    MissReadsTheRow(s.rows, step.key);
  }

  lemma EntryStaysRead(rows: Rows, steps: seq<Step>, step: Step, ttl: real, key: CacheKey)
    requires AllReadRecently(rows, steps, ttl)
    requires var s := Run(rows, steps); var t := Do(s, step);
      key in s.entries && key in t.entries && t.entries[key] == s.entries[key]
    ensures var t := Do(Run(rows, steps), step);
      Has(t.rows, key.tenant, key.name) && ReadRecently(rows, steps + [step], ttl, key, t.entries[key])
  {
    var s, all := Run(rows, steps), steps + [step];
    var i: nat :| ReadAt(rows, steps, i, key, s.entries[key].value) && s.entries[key].expireAt <= steps[i].now + ttl;
    StaysRead(rows, steps, step, i, key, s.entries[key].value);
    assert all[i] == steps[i];
    if step.Own? || step.Foreign? {
      ChangeKeepsName(s.rows, step.change, key.tenant, key.name);
    }
  }

  lemma StepKeepsReadRecently(rows: Rows, steps: seq<Step>, step: Step, ttl: real, key: CacheKey)
    requires Numbered(rows) && AllReadRecently(rows, steps, ttl) && LivesAtMost(steps + [step], ttl)
    requires key in Do(Run(rows, steps), step).entries
    ensures var t := Do(Run(rows, steps), step);
      Has(t.rows, key.tenant, key.name) && ReadRecently(rows, steps + [step], ttl, key, t.entries[key])
  {
    var s, all := Run(rows, steps), steps + [step];
    var t := Do(s, step);
    if Resolves(s, step) && step.key == key && !IsFresh(s.entries, key, step.now) {
      NewlyRead(rows, steps, step);
      assert all[|steps|] == step && step in all;
      var id :| id in s.rows && Selects(s.rows[id], key.tenant, key.name, key.version);
      assert Has(t.rows, key.tenant, key.name);
    } else {
      EntryStaysRead(rows, steps, step, ttl, key);
    }
  }

  lemma {:induction false} EntriesAreReadRecently(rows: Rows, steps: seq<Step>, ttl: real)
    requires Numbered(rows) && LivesAtMost(steps, ttl)
    ensures AllReadRecently(rows, steps, ttl)
  {
    if steps != [] {
      var front, step := steps[..|steps| - 1], steps[|steps| - 1];
      assert front + [step] == steps;
      EntriesAreReadRecently(rows, front, ttl);
      forall key | key in Run(rows, steps).entries
        ensures Has(Run(rows, steps).rows, key.tenant, key.name)
        ensures ReadRecently(rows, steps, ttl, key, Run(rows, steps).entries[key])
      {
        StepKeepsReadRecently(rows, front, step, ttl, key);
      }
    }
  }

  /** `value` was the answer at a resolution at most `ttl` ago, since which another service has rotated the secret. */
  ghost predicate WasAnswer(rows: Rows, steps: seq<Step>, ttl: real, step: Step, value: string)
    requires step.Resolve?
  {
    exists i: nat ::
      && ReadAt(rows, steps, i, step.key, value) && step.now <= steps[i].now + ttl
      && step.key.version.None? && !Unrotated(rows, steps, i, step.key)
  }

  /**
   * Over all changes by this and by other services, what a resolution serves is the plaintext of the row that
   * answers it, or, for the current version only, of one that answered at most `ttl` ago and was rotated by
   * another service since.
   */
  lemma ServedIsRecent(rows: Rows, steps: seq<Step>, ttl: real, step: Step)
    requires Numbered(rows) && LivesAtMost(steps, ttl) && Resolves(Run(rows, steps), step)
    ensures var s := Run(rows, steps); var value := ServedTo(s, step);
      value == Decrypt(AnswerOf(s.rows, step.key).value) || WasAnswer(rows, steps, ttl, step, value)
  {
    var s := Run(rows, steps);
    EntriesAreReadRecently(rows, steps, ttl);
    RunStaysNumbered(rows, steps);
    SelectionIsUnique(s.rows, step.key.tenant, step.key.name, step.key.version);
    if IsFresh(s.entries, step.key, step.now) {
      var entry := s.entries[step.key];
      var i: nat :| ReadAt(rows, steps, i, step.key, entry.value) && entry.expireAt <= steps[i].now + ttl;
    }
  }

  // ---- Two rotations within one time-to-live ----

  const TTL := 300

  const CURRENT := CacheKey("t", "token", None)

  function Version(version: int, plaintext: string, id: string): Secret
  {
    Secret(id, "t", "token", "kind", Encrypt(plaintext), version, true, true, "env")
  }

  /** The next version, saved by another service, becomes the one that answers. */
  lemma ForeignRotation(rows: Rows, steps: seq<Step>, k: nat, plaintext: string, id: string) returns (more: seq<Step>)
    requires var s := Run(rows, steps); Numbered(s.rows) && NumberedTo(s.rows, "t", "token", k) && id !in s.rows
    ensures var s := Run(rows, steps); var t := Run(rows, more);
      && t.entries == s.entries && t.rows.Keys == s.rows.Keys + {id} && t.rows[id] == Version(k + 1, plaintext, id)
      && Numbered(t.rows) && NumberedTo(t.rows, "t", "token", k + 1)
    ensures LivesAtMost(steps, TTL as real) ==> LivesAtMost(more, TTL as real)
  {
    var record := Version(k + 1, plaintext, id);
    more := steps + [Foreign(Saving(record))];
    assert more[..|more| - 1] == steps;
    NextVersionKeepsNumbering(Run(rows, steps).rows, record, k);
    assert IsNext(Run(rows, steps).rows, record);
  }

  lemma Resolution(rows: Rows, steps: seq<Step>, step: Step) returns (more: seq<Step>)
    requires Resolves(Run(rows, steps), step)
    ensures var s := Run(rows, steps);
      && more == steps + [step]
      && Run(rows, more) == s.(entries :=
           AfterServing(s.entries, step.key, step.now, ServedTo(s, step), step.now + step.ttl as real))
  {
    more := steps + [step];
    assert more[..|more| - 1] == steps;
  }

  lemma CurrentAnswers(rows: Rows, id: string)
    requires Numbered(rows) && id in rows && Selects(rows[id], CURRENT.tenant, CURRENT.name, CURRENT.version)
    ensures IsAnswered(rows, CURRENT) && AnswerOf(rows, CURRENT) == rows[id]
  {
    SelectionIsUnique(rows, CURRENT.tenant, CURRENT.name, CURRENT.version);
  }

  lemma EmptyIsNumbered()
    ensures Numbered(map[]) && NumberedTo(map[], "t", "token", 0)
  {
    forall tenant, name
      ensures IsNumbered(map[], tenant, name)
    {
      assert NumberedTo(map[], tenant, name, 0);
    }
  }

  /** Another service creates the secret, and this one resolves it. */
  lemma FirstVersionCached() returns (steps: seq<Step>)
    ensures var s := Run(map[], steps);
      && LivesAtMost(steps, TTL as real) && Numbered(s.rows) && NumberedTo(s.rows, "t", "token", 1)
      && s.rows.Keys == {"a"} && s.entries == map[CURRENT := Entry("one", TTL as real)]
  {
    EmptyIsNumbered();
    steps := ForeignRotation(map[], [], 0, "one", "a");
    CurrentAnswers(Run(map[], steps).rows, "a");
    steps := Resolution(map[], steps, Resolve(CURRENT, 0.0, TTL, true));
  }

  /** The cached version 1 is served though version 3 answers. */
  ghost predicate ServesTheFirst(s: Shared, step: Step)
  {
    && Resolves(s, step) && step.key == CURRENT
    && ServedTo(s, step) == "one" && AnswerOf(s.rows, CURRENT) == Version(3, "three", "c")
  }

  /**
   * Version 1 is resolved; versions 2 and 3 follow from another service within the time-to-live: version 1 is still
   * served, which is neither the current version nor the one before.
   */
  lemma OlderVersionIsServed()
    ensures exists steps ::
      LivesAtMost(steps, TTL as real) && ServesTheFirst(Run(map[], steps), Resolve(CURRENT, 10.0, TTL, true))
  {
    var first := FirstVersionCached();
    var second := ForeignRotation(map[], first, 1, "two", "b");
    var third := ForeignRotation(map[], second, 2, "three", "c");
    CurrentAnswers(Run(map[], third).rows, "c");
    assert ServesTheFirst(Run(map[], third), Resolve(CURRENT, 10.0, TTL, true));
  }
}
