/** The vault service (app/vault/service.py) over the secrets table and its own cache. */
module Vault {
  import opened Wrappers
  import opened RateLimiter
  import opened SecretStore
  import opened SecretCache

  datatype VaultError = InvalidName | EmptyValue | AlreadyExists | NotFound | Blocked | LimitExceeded

  const RESOLUTIONS := 100

  predicate IsNameChar(c: char)
  {
    'a' <= c <= 'z' || 'A' <= c <= 'Z' || '0' <= c <= '9' || c == '_' || c == '-'
  }

  /** `^[a-zA-Z0-9_-]+$`, whose `$` also matches before a final newline. */
  predicate IsName(name: string)
  {
    var core := if name != "" && name[|name| - 1] == '\n' then name[..|name| - 1] else name;
    core != "" && forall c :: c in core ==> IsNameChar(c)
  }

  /** A letter, a digit, `_` or `-`, by its code. */
  predicate IsNameCode(n: int)
  {
    48 <= n <= 57 || 65 <= n <= 90 || 97 <= n <= 122 || n == 95 || n == 45
  }

  /** Such characters, at least one, and perhaps a newline after them. */
  ghost predicate IsWellNamed(name: string)
  {
    exists core ::
      (name == core || name == core + "\n") && HasNameCodes(core)
  }

  lemma NameCharHasCode(c: char)
    ensures IsNameChar(c) <==> IsNameCode(c as int)
  {
  }

  ghost predicate HasNameCodes(core: string)
  {
    core != "" && forall i :: 0 <= i < |core| ==> IsNameCode(core[i] as int)
  }

  lemma NameCharsHaveCodes(core: string)
    ensures core != "" && (forall c :: c in core ==> IsNameChar(c)) <==> HasNameCodes(core)
  {
    forall i | 0 <= i < |core|
      ensures IsNameChar(core[i]) <==> IsNameCode(core[i] as int)
    {
      NameCharHasCode(core[i]);
    }
  }

  lemma NameIsWellNamed(name: string)
    ensures IsName(name) <==> IsWellNamed(name)
  {
    var core := if name != "" && name[|name| - 1] == '\n' then name[..|name| - 1] else name;
    NameCharsHaveCodes(core);
    if name != core {
      assert name == core + [name[|name| - 1]];
    }
    if IsWellNamed(name) {
      var other :| (name == other || name == other + "\n") && HasNameCodes(other);
      assert IsNameCode(other[|other| - 1] as int);
      if name != other {
        assert name[|name| - 1] == '\n' && name[..|name| - 1] == other;
      }
    }
  }

  ghost predicate Has(rows: Rows, tenant: string, name: string)
  {
    exists id :: id in rows && Belongs(rows[id], tenant, name)
  }

  ghost predicate IsAnswered(rows: Rows, key: CacheKey)
  {
    exists id :: id in rows && Selects(rows[id], key.tenant, key.name, key.version)
  }

  /** `value` is what every row selected by `key` decrypts to. */
  ghost predicate IsPlaintext(rows: Rows, key: CacheKey, value: string)
  {
    forall id :: id in rows && Selects(rows[id], key.tenant, key.name, key.version) ==> Decrypt(rows[id].value) == value
  }

  /** Every entry is the plaintext of a row that answers the entry's key now. */
  ghost predicate Coherent(entries: Entries, rows: Rows)
  {
    forall key :: key in entries ==> IsAnswered(rows, key) && IsPlaintext(rows, key, entries[key].value)
  }

  /** Row `id` is the tenant's secret of the name, in the requested version or else in its latest. */
  ghost predicate IsRequested(rows: Rows, tenant: string, name: string, version: Option<int>, id: string)
  {
    && id in rows && rows[id].tenant == tenant && rows[id].name == name
    && match version
       case Some(v) => rows[id].version == v
       case None => forall other :: other in rows && rows[other].tenant == tenant && rows[other].name == name ==>
         rows[other].version <= rows[id].version
  }

  lemma SelectedIsRequested(rows: Rows, tenant: string, name: string, version: Option<int>, id: string)
    requires Numbered(rows) && id in rows
    ensures Selects(rows[id], tenant, name, version) <==> IsRequested(rows, tenant, name, version, id)
  {
    assert IsNumbered(rows, tenant, name);
    var k: nat :| NumberedTo(rows, tenant, name, k);
    if k > 0 {
      assert HasVersion(rows, tenant, name, k);
    }
  }

  ghost predicate NoneEnabled(rows: Rows, tenant: string, name: string, version: Option<int>)
  {
    forall id :: id in rows && Selects(rows[id], tenant, name, version) ==> !rows[id].enabled
  }

  // ---- The cache under changes of the table ----

  /** Saving a new current row changes no answer for another name. */
  lemma OtherNamesKeepAnswers(rows: Rows, record: Secret, key: CacheKey)
    requires record.id !in rows && record.current && !(key.tenant == record.tenant && key.name == record.name)
    ensures IsAnswered(Saved(rows, record), key) <==> IsAnswered(rows, key)
    ensures forall value :: IsPlaintext(Saved(rows, record), key, value) <==> IsPlaintext(rows, key, value)
  {
    var after := Saved(rows, record);
    forall id
      ensures id in after && Selects(after[id], key.tenant, key.name, key.version)
        <==> id in rows && Selects(rows[id], key.tenant, key.name, key.version)
    {
    }
  }

  lemma SavingKeepsCoherent(entries: Entries, rows: Rows, record: Secret)
    requires Coherent(entries, rows) && record.id !in rows && record.current
    ensures Coherent(Dropped(entries, record.tenant, record.name), Saved(rows, record))
    ensures !Has(rows, record.tenant, record.name) ==> Coherent(entries, Saved(rows, record))
  {
    forall key | key in entries && !(key.tenant == record.tenant && key.name == record.name)
      ensures IsAnswered(Saved(rows, record), key) && IsPlaintext(Saved(rows, record), key, entries[key].value)
    {
      OtherNamesKeepAnswers(rows, record, key);
    }
    if !Has(rows, record.tenant, record.name) {
      forall key | key in entries
        ensures !(key.tenant == record.tenant && key.name == record.name)
      {
        assert IsAnswered(rows, key);
      }
    }
  }

  lemma DroppedAfterSaving(entries: Entries, rows: Rows, record: Secret)
    requires record.id !in rows && record.current
    ensures Coherent(entries, rows) ==> Coherent(Dropped(entries, record.tenant, record.name), Saved(rows, record))
  {
    if Coherent(entries, rows) {
      SavingKeepsCoherent(entries, rows, record);
    }
  }

  lemma DisablingKeepsCoherent(entries: Entries, rows: Rows, tenant: string, id: string)
    requires Coherent(entries, rows)
    ensures Coherent(entries, Disabled(rows, tenant, id))
  {
    var after := Disabled(rows, tenant, id);
    forall key | key in entries
      ensures IsAnswered(after, key) && IsPlaintext(after, key, entries[key].value)
    {
      assert IsAnswered(rows, key) && IsPlaintext(rows, key, entries[key].value);
      var x :| x in rows && Selects(rows[x], key.tenant, key.name, key.version);
      assert x in after && Selects(after[x], key.tenant, key.name, key.version);
    }
  }

  // ---- What is served ----

  /** What a resolution of `key` gives when `row` is the row that answers it. */
  function Served(entries: Entries, key: CacheKey, now: real, row: Secret): string
  {
    if IsFresh(entries, key, now) then entries[key].value else Decrypt(row.value)
  }

  /** The cache after a resolution: a value that was not served from it is cached. */
  function AfterServing(entries: Entries, key: CacheKey, now: real, value: string, expireAt: real): Entries
  {
    if IsFresh(entries, key, now) then entries else entries[key := Entry(value, expireAt)]
  }

  /** While the cache is coherent, what is served is the plaintext of the row, and the cache stays coherent. */
  lemma ServingKeepsCoherent(entries: Entries, rows: Rows, key: CacheKey, id: string, now: real, expireAt: real)
    requires Coherent(entries, rows) && Numbered(rows)
    requires id in rows && Selects(rows[id], key.tenant, key.name, key.version)
    ensures var value := Served(entries, key, now, rows[id]);
      IsPlaintext(rows, key, value) && Coherent(AfterServing(entries, key, now, value, expireAt), rows)
  {
    SelectionIsUnique(rows, key.tenant, key.name, key.version);
    if IsFresh(entries, key, now) {
      assert IsPlaintext(rows, key, entries[key].value);
    }
  }

  // ---- The service ----

  /** The row a rotation adds; an empty environment counts as none. */
  function NextVersion(from: Secret, id: string, plaintext: string, environment: Option<string>, version: int): Secret
  {
    Secret(id, from.tenant, from.name, from.kind, Encrypt(plaintext), version, true, true,
           if environment.Some? && environment.value != "" then environment.value else from.environment)
  }

  class VaultService {
    const store: Store
    const cache: Cache
    const limiter: Limiter

    constructor (store: Store)
      requires Numbered(store.rows)
      ensures Valid() && CacheIsTrue() && this.store == store && fresh(cache) && fresh(limiter)
    {
      this.store := store;
      cache := new Cache();
      limiter := new Limiter();
    }

    /** Holds even when another service shares the table. */
    ghost predicate Valid()
      reads this, store, limiter
    {
      Numbered(store.rows) && limiter.Valid()
    }

    /** Holds as long as no other service changes the table. */
    ghost predicate CacheIsTrue()
      reads this, store, cache
    {
      Coherent(cache.entries, store.rows)
    }

    /** `id` is the fresh id drawn for the row. */
    method CreateSecret(tenant: string, name: string, kind: string, plaintext: string, environment: string, id: string)
      returns (r: Result<Secret, VaultError>)
      requires Valid() && id !in store.rows
      modifies store
      ensures Valid() && (old(CacheIsTrue()) ==> CacheIsTrue())
      ensures r == if !IsName(name) then Err(InvalidName) else if plaintext == "" then Err(EmptyValue)
                   else if Has(old(store.rows), tenant, name) then Err(AlreadyExists)
                   else Ok(Secret(id, tenant, name, kind, Encrypt(plaintext), 1, true, true, environment))
      ensures store.rows == if r.Ok? then Saved(old(store.rows), r.value) else old(store.rows)
      ensures r == Err(InvalidName) <==> !IsWellNamed(name)
    {
      NameIsWellNamed(name);
      if !IsName(name) {
        return Err(InvalidName);
      }
      if plaintext == "" {
        return Err(EmptyValue);
      }
      var existing := store.GetSecretByName(tenant, name, None);
      SelectionIsUnique(store.rows, tenant, name, None);
      if existing.Some? {
        return Err(AlreadyExists);
      }
      var record := Secret(id, tenant, name, kind, Encrypt(plaintext), 1, true, true, environment);
      assert NumberedTo(store.rows, tenant, name, 0);
      NextVersionKeepsNumbering(store.rows, record, 0);
      if CacheIsTrue() {
        SavingKeepsCoherent(cache.entries, store.rows, record);
      }
      store.SaveSecret(record);
      return Ok(record);
    }

    method MaxVersion(tenant: string, name: string, least: int) returns (max: int)
      ensures max >= least
      ensures forall id :: id in store.rows && Belongs(store.rows[id], tenant, name) ==> store.rows[id].version <= max
      ensures max == least || HasVersion(store.rows, tenant, name, max)
    {
      max := least;
      var rest := store.rows.Keys;
      while rest != {}
        invariant rest <= store.rows.Keys && max >= least
        invariant forall id :: id in store.rows && id !in rest && Belongs(store.rows[id], tenant, name) ==>
          store.rows[id].version <= max
        invariant max == least || HasVersion(store.rows, tenant, name, max)
      {
        var id :| id in rest;
        rest := rest - {id};
        if Belongs(store.rows[id], tenant, name) && store.rows[id].version > max {
          max := store.rows[id].version;
        }
      }
    }

    /** The new version is one more than any before it, and it is the current one. */
    method RotateSecret(tenant: string, id: string, plaintext: string, environment: Option<string>, newId: string)
      returns (r: Result<Secret, VaultError>)
      requires Valid() && newId !in store.rows
      modifies store, cache
      ensures Valid() && (old(CacheIsTrue()) ==> CacheIsTrue())
      ensures r.Err? ==> store.rows == old(store.rows) && cache.entries == old(cache.entries)
      ensures r == Err(EmptyValue) <==> plaintext == ""
      ensures r == Err(NotFound) <==> plaintext != "" && Found(old(store.rows), tenant, id).None?
      ensures r.Err? ==> r.error == EmptyValue || r.error == NotFound
      ensures r.Ok? ==>
        var from := old(store.rows)[id];
        && r.value == NextVersion(from, newId, plaintext, environment, r.value.version)
        && r.value.tenant == tenant && r.value.name == from.name && r.value.value.content == plaintext
        && r.value.enabled && r.value.current && r.value.version > from.version
        && (environment == None || environment == Some("") ==> r.value.environment == from.environment)
        && (environment != None && environment != Some("") ==> Some(r.value.environment) == environment)
        && r.value.version >= 1 && NumberedTo(old(store.rows), tenant, from.name, r.value.version - 1)
        && NumberedTo(store.rows, tenant, from.name, r.value.version)
        && store.rows == Saved(old(store.rows), r.value)
        && cache.entries == Dropped(old(cache.entries), tenant, from.name)
    {
      if plaintext == "" {
        return Err(EmptyValue);
      }
      var existing := store.GetSecret(tenant, id);
      if existing.None? {
        return Err(NotFound);
      }
      var from := existing.value;
      var max := MaxVersion(tenant, from.name, from.version);
      MaxIsLast(store.rows, tenant, from.name, id, max);
      var record := NextVersion(from, newId, plaintext, environment, max + 1);
      NextVersionKeepsNumbering(store.rows, record, max);
      DroppedAfterSaving(cache.entries, store.rows, record);
      store.SaveSecret(record);
      cache.Invalidate(tenant, from.name, None);
      return Ok(record);
    }

    method DisableSecret(tenant: string, id: string) returns (disabled: bool)
      requires Valid()
      modifies store, cache
      ensures Valid() && (old(CacheIsTrue()) ==> CacheIsTrue())
      ensures store.rows == Disabled(old(store.rows), tenant, id)
      ensures disabled <==> store.rows != old(store.rows)
      ensures cache.entries == if disabled then Dropped(old(cache.entries), tenant, old(store.rows)[id].name)
                               else old(cache.entries)
    {
      var existing := store.GetSecret(tenant, id);
      if existing.None? {
        return false;
      }
      DisablingKeepsNumbering(store.rows, tenant, id);
      if CacheIsTrue() {
        DisablingKeepsCoherent(cache.entries, store.rows, tenant, id);
      }
      disabled := store.DisableSecret(tenant, id);
      if disabled {
        cache.Invalidate(tenant, existing.value.name, None);
      }
    }

    /** The cached value if there is a fresh one, else the decrypted row, which is then cached. */
    method Serve(key: CacheKey, row: Secret, now: real, ttl: int) returns (value: string)
      modifies cache
      ensures value == Served(old(cache.entries), key, now, row)
      ensures cache.entries == AfterServing(old(cache.entries), key, now, value, now + ttl as real)
    {
      var cached := cache.Get(key, now);
      if cached.Some? {
        return cached.value;
      }
      value := Decrypt(row.value);
      cache.Set(key, value, now, ttl);
    }

    /**
     * What is resolved is served for the one row with the requested, or else the current,
     * version, and that row is enabled; while the cache is coherent it is the row's plaintext.
     * `allowed` is the policy decision in force.
     */
    method ResolveSecret(tenant: string, name: string, version: Option<int>, now: real, allowed: bool, ttl: int)
      returns (r: Result<string, VaultError>)
      requires Valid() && NotAfter(limiter.History(tenant), now)
      modifies limiter, cache
      ensures Valid() && (old(CacheIsTrue()) ==> CacheIsTrue())
      ensures r == Err(LimitExceeded) <==> Refused(old(limiter.History(tenant)), RESOLUTIONS, now)
      ensures r == Err(LimitExceeded) <==> CountAfter(old(limiter.History(tenant)), now - 60.0) >= 100
      ensures r != Err(LimitExceeded) ==> (r == Err(NotFound) <==> NoneEnabled(store.rows, tenant, name, version))
      ensures r == Err(Blocked) <==> r != Err(LimitExceeded) && r != Err(NotFound) && !allowed
      ensures r.Err? ==> r.error == LimitExceeded || r.error == NotFound || r.error == Blocked
      ensures r.Ok? ==> exists id :: id in store.rows && Selects(store.rows[id], tenant, name, version)
                          && store.rows[id].enabled
                          && r.value == Served(old(cache.entries), CacheKey(tenant, name, version), now, store.rows[id])
      ensures r.Ok? && old(CacheIsTrue()) ==>
        IsPlaintext(store.rows, CacheKey(tenant, name, version), r.value)
      ensures var key := CacheKey(tenant, name, version);
        r.Ok? && key in old(cache.entries) && now <= old(cache.entries)[key].expireAt ==>
          r.value == old(cache.entries)[key].value && cache.entries == old(cache.entries)
      ensures var key := CacheKey(tenant, name, version);
        r.Ok? && !(key in old(cache.entries) && now <= old(cache.entries)[key].expireAt) ==>
          && (exists id :: IsRequested(store.rows, tenant, name, version, id)
                           && r.value == store.rows[id].value.content)
          && cache.entries == old(cache.entries)[key := Entry(r.value, now + ttl as real)]
      ensures r.Ok? ==> exists id :: IsRequested(store.rows, tenant, name, version, id) && store.rows[id].enabled
                          && (old(CacheIsTrue()) ==> r.value == store.rows[id].value.content)
      ensures r == Err(NotFound) ==>
        forall id :: IsRequested(store.rows, tenant, name, version, id) ==> !store.rows[id].enabled
      ensures limiter.History(tenant) == Attempted(old(limiter.History(tenant)), RESOLUTIONS, now)
      ensures cache.entries == if r.Err? then old(cache.entries)
        else AfterServing(old(cache.entries), CacheKey(tenant, name, version), now, r.value, now + ttl as real)
    {
      var refused := limiter.CheckLimit(tenant, RESOLUTIONS, now);
      if refused {
        return Err(LimitExceeded);
      }
      var record := store.GetSecretByName(tenant, name, version);
      SelectionIsUnique(store.rows, tenant, name, version);
      forall id | id in store.rows { SelectedIsRequested(store.rows, tenant, name, version, id); }
      if record.None? || !record.value.enabled {
        return Err(NotFound);
      }
      if !allowed {
        return Err(Blocked);
      }
      ghost var id :| id in store.rows && store.rows[id] == record.value
        && Selects(record.value, tenant, name, version);
      var key := CacheKey(tenant, name, version);
      ghost var before := cache.entries;
      var value := Serve(key, record.value, now, ttl);
      if Coherent(before, store.rows) {
        ServingKeepsCoherent(before, store.rows, key, id, now, now + ttl as real);
      }
      return Ok(value);
    }
  }

  /** The greatest version of a name is the number its versions run to. */
  lemma MaxIsLast(rows: Rows, tenant: string, name: string, id: string, max: int)
    requires Numbered(rows) && id in rows && Belongs(rows[id], tenant, name) && max >= rows[id].version
    requires forall x :: x in rows && Belongs(rows[x], tenant, name) ==> rows[x].version <= max
    requires max == rows[id].version || HasVersion(rows, tenant, name, max)
    ensures max >= 1 && NumberedTo(rows, tenant, name, max)
  {
    assert IsNumbered(rows, tenant, name);
    var k: nat :| NumberedTo(rows, tenant, name, k);
    assert HasVersion(rows, tenant, name, k);
  }
}
