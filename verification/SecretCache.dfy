/** The cache of decrypted secrets (app/vault/cache.py).  Times are in seconds. */
module SecretCache {
  import opened Wrappers

  /** No version means the current one. */
  datatype CacheKey = CacheKey(tenant: string, name: string, version: Option<int>)

  datatype Entry = Entry(value: string, expireAt: real)

  type Entries = map<CacheKey, Entry>

  datatype CacheOp =
    | Getting(key: CacheKey, now: real)
    | Setting(key: CacheKey, value: string, now: real, ttl: int)
    | Invalidating(tenant: string, name: string, version: Option<int>)
    | Clearing

  function Dropped(entries: Entries, tenant: string, name: string): Entries
  {
    map key | key in entries && !(key.tenant == tenant && key.name == name) :: entries[key]
  }

  predicate IsFresh(entries: Entries, key: CacheKey, now: real)
  {
    key in entries && now <= entries[key].expireAt
  }

  /** What a lookup returns: an entry is served up to its expiry. */
  function ServedAt(entries: Entries, key: CacheKey, now: real): Option<string>
  {
    if IsFresh(entries, key, now) then Some(entries[key].value) else None
  }

  /** The entries an operation leaves; a lookup removes an entry that has expired. */
  function Applied(entries: Entries, op: CacheOp): Entries
  {
    match op
    case Getting(key, now) => if IsFresh(entries, key, now) then entries else entries - {key}
    case Setting(key, value, now, ttl) => entries[key := Entry(value, now + ttl as real)]
    case Invalidating(tenant, name, version) =>
      if version.None? then Dropped(entries, tenant, name) else entries - {CacheKey(tenant, name, version)}
    case Clearing => map[]
  }

  class Cache {
    var entries: Entries

    constructor ()
      ensures entries == map[]
    {
      entries := map[];
    }

    method Get(key: CacheKey, now: real) returns (value: Option<string>)
      modifies this
      ensures value == ServedAt(old(entries), key, now)
      ensures entries == Applied(old(entries), Getting(key, now))
    {
      if key !in entries {
        return None;
      }
      var entry := entries[key];
      if now > entry.expireAt {
        entries := entries - {key};
        return None;
      }
      return Some(entry.value);
    }

    method Set(key: CacheKey, value: string, now: real, ttl: int)
      modifies this
      ensures entries == Applied(old(entries), Setting(key, value, now, ttl))
    {
      entries := entries[key := Entry(value, now + ttl as real)];
    }

    /** Without a version, every entry of the name goes. */
    method Invalidate(tenant: string, name: string, version: Option<int>)
      modifies this
      ensures entries == Applied(old(entries), Invalidating(tenant, name, version))
    {
      if version.Some? {
        entries := entries - {CacheKey(tenant, name, version)};
        return;
      }
      var keys := set key | key in entries && key.tenant == tenant && key.name == name;
      while keys != {}
        invariant entries.Keys <= old(entries).Keys
        invariant forall key :: key in old(entries) ==>
          (key in entries <==> key in keys || !(key.tenant == tenant && key.name == name))
        invariant forall key :: key in entries ==> entries[key] == old(entries)[key]
        invariant forall key :: key in keys ==> key.tenant == tenant && key.name == name
      {
        var key :| key in keys;
        keys := keys - {key};
        entries := entries - {key};
      }
    }

    method Clear()
      modifies this
      ensures entries == Applied(old(entries), Clearing)
    {
      entries := map[];
    }
  }

  // ---- What the cache remembers ----

  function After(ops: seq<CacheOp>): Entries
  {
    if ops == [] then map[] else Applied(After(ops[..|ops| - 1]), ops[|ops| - 1])
  }

  predicate Forgets(op: CacheOp, key: CacheKey)
  {
    match op
    case Invalidating(tenant, name, version) =>
      key.tenant == tenant && key.name == name && (version.None? || version == key.version)
    case Clearing => true
    case _ => false
  }

  /** The last entry set for `key` and not forgotten since; lookups play no part in it. */
  function LastSet(ops: seq<CacheOp>, key: CacheKey): Option<Entry>
  {
    if ops == [] then None
    else
      var op := ops[|ops| - 1];
      if op.Setting? && op.key == key then Some(Entry(op.value, op.now + op.ttl as real))
      else if Forgets(op, key) then None
      else LastSet(ops[..|ops| - 1], key)
  }

  /** No lookup was made after `now`. */
  predicate LookedUpBy(ops: seq<CacheOp>, now: real)
  {
    forall op :: op in ops && op.Getting? ==> op.now <= now
  }

  /** The entries are the last ones set, but for some that lookups removed as expired. */
  lemma {:induction false} EntriesAreLastSet(ops: seq<CacheOp>, key: CacheKey, now: real)
    requires LookedUpBy(ops, now)
    ensures key in After(ops) ==> LastSet(ops, key) == Some(After(ops)[key])
    ensures key !in After(ops) && LastSet(ops, key).Some? ==> LastSet(ops, key).value.expireAt < now
  {
    if ops != [] {
      var front, op := ops[..|ops| - 1], ops[|ops| - 1];
      assert ops == front + [op];
      EntriesAreLastSet(front, key, now);
      match op
      case Getting(k, at) => assert op in ops && at <= now;
      case Setting(_, _, _, _) =>
      case Invalidating(_, _, _) =>
      case Clearing =>
    }
  }

  /**
   * Whatever was looked up, invalidated and cleared before: a lookup serves the last value set
   * for the key, unless that was invalidated or cleared since or has expired.
   */
  lemma {:induction false} ServesTheLastSet(ops: seq<CacheOp>, key: CacheKey, now: real)
    requires LookedUpBy(ops, now)
    ensures ServedAt(After(ops), key, now) == match LastSet(ops, key)
      case Some(entry) => if now <= entry.expireAt then Some(entry.value) else None
      case None => None
  {
    EntriesAreLastSet(ops, key, now);
  }
}
