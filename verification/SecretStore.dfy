/** The secrets table (app/storage/sqlite.py:2011-2194) and the versions kept in it. */
module SecretStore {
  import opened Wrappers

  /** Encryption is a box that opens again. */
  datatype Sealed = Sealed(content: string)

  function Encrypt(plaintext: string): Sealed { Sealed(plaintext) }

  function Decrypt(value: Sealed): string { value.content }

  datatype Secret = Secret(
    id: string, tenant: string, name: string, kind: string, value: Sealed,
    version: int, enabled: bool, current: bool, environment: string)

  type Rows = map<string, Secret>

  predicate Belongs(s: Secret, tenant: string, name: string)
  {
    s.tenant == tenant && s.name == name
  }

  /** `UPDATE secrets SET is_current = 0 WHERE tenant_id = ? AND name = ?`. */
  function NoneCurrent(rows: Rows, tenant: string, name: string): Rows
  {
    map id | id in rows :: if Belongs(rows[id], tenant, name) then rows[id].(current := false) else rows[id]
  }

  /** An existing id keeps its name and version. */
  function Saved(rows: Rows, record: Secret): Rows
  {
    var cleared := if record.current then NoneCurrent(rows, record.tenant, record.name) else rows;
    cleared[record.id := if record.id in cleared
      then cleared[record.id].(enabled := record.enabled, current := record.current, value := record.value,
                               environment := record.environment)
      else record]
  }

  predicate Selects(s: Secret, tenant: string, name: string, version: Option<int>)
  {
    Belongs(s, tenant, name) && match version case None => s.current case Some(v) => s.version == v
  }

  function Disabled(rows: Rows, tenant: string, id: string): Rows
  {
    if id in rows && rows[id].tenant == tenant && rows[id].enabled then rows[id := rows[id].(enabled := false)]
    else rows
  }

  /** What a tenant sees under a row id. */
  function Found(rows: Rows, tenant: string, id: string): Option<Secret>
  {
    if id in rows && rows[id].tenant == tenant then Some(rows[id]) else None
  }

  // ---- Versions ----

  /** The versions of a name are exactly 1 to `k`, once each, and the current one is `k`. */
  ghost predicate NumberedTo(rows: Rows, tenant: string, name: string, k: nat)
  {
    && (forall id :: id in rows && Belongs(rows[id], tenant, name) ==>
         1 <= rows[id].version <= k && (rows[id].current <==> rows[id].version == k))
    && (forall v :: 1 <= v <= k ==> HasVersion(rows, tenant, name, v))
    && (forall a, b ::
          (a in rows && b in rows && Belongs(rows[a], tenant, name) && Belongs(rows[b], tenant, name)
           && rows[a].version == rows[b].version) ==> a == b)
  }

  ghost predicate HasVersion(rows: Rows, tenant: string, name: string, v: int)
  {
    exists id :: id in rows && Belongs(rows[id], tenant, name) && rows[id].version == v
  }

  ghost predicate Numbered(rows: Rows)
  {
    && (forall id :: id in rows ==> rows[id].id == id)
    && forall tenant, name :: IsNumbered(rows, tenant, name)
  }

  ghost predicate IsNumbered(rows: Rows, tenant: string, name: string)
  {
    exists k: nat :: NumberedTo(rows, tenant, name, k)
  }

  /** At most one row answers a lookup, and a name with any version has a current one. */
  lemma SelectionIsUnique(rows: Rows, tenant: string, name: string, version: Option<int>)
    requires Numbered(rows)
    ensures forall a, b ::
      (a in rows && b in rows
       && Selects(rows[a], tenant, name, version) && Selects(rows[b], tenant, name, version)) ==> a == b
    ensures (exists id :: id in rows && Belongs(rows[id], tenant, name))
        ==> exists id :: id in rows && Selects(rows[id], tenant, name, None)
  {
    assert IsNumbered(rows, tenant, name);
    var k: nat :| NumberedTo(rows, tenant, name, k);
    if k > 0 {
      assert HasVersion(rows, tenant, name, k);
      var id :| id in rows && Belongs(rows[id], tenant, name) && rows[id].version == k;
      assert Selects(rows[id], tenant, name, None);
    }
  }

  /** A fresh row continues the numbering exactly when its version is the next one. */
  lemma NextVersionKeepsNumbering(rows: Rows, record: Secret, k: nat)
    requires Numbered(rows) && NumberedTo(rows, record.tenant, record.name, k)
    requires record.id !in rows && record.current
    ensures Numbered(Saved(rows, record)) <==> record.version == k + 1
    ensures record.version == k + 1 ==> NumberedTo(Saved(rows, record), record.tenant, record.name, k + 1)
  {
    var after := Saved(rows, record);
    if record.version == k + 1 {
      ExtendsOwn(rows, record, k);
      forall tenant, name
        ensures IsNumbered(after, tenant, name)
      {
        KeepsOthers(rows, record, k, tenant, name);
      }
    } else if Numbered(after) {
      assert IsNumbered(after, record.tenant, record.name);
      var l: nat :| NumberedTo(after, record.tenant, record.name, l);
      OnlyNextVersionFits(rows, record, k, l);
    }
  }

  lemma ExtendsOwn(rows: Rows, record: Secret, k: nat)
    requires NumberedTo(rows, record.tenant, record.name, k)
    requires record.id !in rows && record.current && record.version == k + 1
    ensures NumberedTo(Saved(rows, record), record.tenant, record.name, k + 1)
  {
    var after := Saved(rows, record);
    forall v | 1 <= v <= k + 1
      ensures HasVersion(after, record.tenant, record.name, v)
    {
      if v == k + 1 {
        assert record.id in after && Belongs(after[record.id], record.tenant, record.name);
      } else {
        assert HasVersion(rows, record.tenant, record.name, v);
        var id :| id in rows && Belongs(rows[id], record.tenant, record.name) && rows[id].version == v;
        assert id in after && Belongs(after[id], record.tenant, record.name) && after[id].version == v;
      }
    }
  }

  lemma KeepsOthers(rows: Rows, record: Secret, k: nat, tenant: string, name: string)
    requires Numbered(rows) && record.id !in rows && record.current
    requires NumberedTo(Saved(rows, record), record.tenant, record.name, k + 1)
    ensures IsNumbered(Saved(rows, record), tenant, name)
  {
    var after := Saved(rows, record);
    if tenant == record.tenant && name == record.name {
      assert NumberedTo(after, tenant, name, k + 1);
    } else {
      assert IsNumbered(rows, tenant, name);
      var l: nat :| NumberedTo(rows, tenant, name, l);
      SameNameSameNumbers(rows, after, tenant, name, l);
    }
  }

  /** The numbering of a name depends only on the name's rows. */
  lemma SameNameSameNumbers(rows: Rows, after: Rows, tenant: string, name: string, k: nat)
    requires NumberedTo(rows, tenant, name, k)
    requires forall id ::
      (id in rows && Belongs(rows[id], tenant, name)) <==> (id in after && Belongs(after[id], tenant, name))
    requires forall id :: id in rows && Belongs(rows[id], tenant, name) ==>
      after[id].version == rows[id].version && after[id].current == rows[id].current
    ensures NumberedTo(after, tenant, name, k)
  {
    forall v | 1 <= v <= k
      ensures HasVersion(after, tenant, name, v)
    {
      assert HasVersion(rows, tenant, name, v);
      var id :| id in rows && Belongs(rows[id], tenant, name) && rows[id].version == v;
      assert id in after && Belongs(after[id], tenant, name) && after[id].version == v;
    }
  }

  lemma OnlyNextVersionFits(rows: Rows, record: Secret, k: nat, l: nat)
    requires NumberedTo(rows, record.tenant, record.name, k) && record.id !in rows && record.current
    requires NumberedTo(Saved(rows, record), record.tenant, record.name, l)
    ensures record.version == k + 1
  {
    var after := Saved(rows, record);
    assert Belongs(after[record.id], record.tenant, record.name) && after[record.id] == record;
    forall id | id in after && Belongs(after[id], record.tenant, record.name) && id != record.id
      ensures id in rows && Belongs(rows[id], record.tenant, record.name) && 1 <= after[id].version <= k
    {
    }
    forall id | id in rows && Belongs(rows[id], record.tenant, record.name)
      ensures rows[id].version != record.version
    {
      assert id in after && Belongs(after[id], record.tenant, record.name);
    }
    assert !HasVersion(rows, record.tenant, record.name, record.version);
    assert l > k;
    assert HasVersion(after, record.tenant, record.name, k + 1);
  }

  lemma DisablingKeepsNumbering(rows: Rows, tenant: string, id: string)
    requires Numbered(rows)
    ensures Numbered(Disabled(rows, tenant, id))
  {
    var after := Disabled(rows, tenant, id);
    forall t, n
      ensures IsNumbered(after, t, n)
    {
      assert IsNumbered(rows, t, n);
      var k: nat :| NumberedTo(rows, t, n, k);
      SameNameSameNumbers(rows, after, t, n, k);
    }
  }

  // ---- Every history of the table ----

  datatype Change = Saving(record: Secret) | Disabling(tenant: string, id: string)

  /** The service saves only rows with a fresh id, current and numbered next. */
  ghost predicate IsNext(rows: Rows, record: Secret)
  {
    && record.id !in rows && record.current
    && exists k: nat :: NumberedTo(rows, record.tenant, record.name, k) && record.version == k + 1
  }

  ghost function Changed(rows: Rows, change: Change): Rows
  {
    match change
    case Saving(record) => if IsNext(rows, record) then Saved(rows, record) else rows
    case Disabling(tenant, id) => Disabled(rows, tenant, id)
  }

  ghost function After(rows: Rows, changes: seq<Change>): Rows
    decreases |changes|
  {
    if changes == [] then rows else After(Changed(rows, changes[0]), changes[1..])
  }

  lemma ChangeKeepsNumbering(rows: Rows, change: Change)
    requires Numbered(rows)
    ensures Numbered(Changed(rows, change))
  {
    match change
    case Saving(record) =>
      if IsNext(rows, record) {
        var k: nat :| NumberedTo(rows, record.tenant, record.name, k) && record.version == k + 1;
        NextVersionKeepsNumbering(rows, record, k);
      }
    case Disabling(tenant, id) => DisablingKeepsNumbering(rows, tenant, id);
  }

  /** Every history keeps each name numbered from 1 to k, with k current. */
  lemma {:induction false} HistoryStaysNumbered(rows: Rows, changes: seq<Change>)
    requires Numbered(rows)
    ensures Numbered(After(rows, changes))
    decreases |changes|
  {
    if changes != [] {
      ChangeKeepsNumbering(rows, changes[0]);
      HistoryStaysNumbered(Changed(rows, changes[0]), changes[1..]);
    }
  }

  /** The same version of the same secret; it may have been disabled or superseded. */
  ghost predicate SameVersion(a: Secret, b: Secret)
  {
    && a.id == b.id && a.tenant == b.tenant && a.name == b.name && a.kind == b.kind && a.version == b.version
    && a.value == b.value && a.environment == b.environment
  }

  /** Whatever is saved or disabled later, a version is found by its own tenant, unchanged, and by no other. */
  lemma {:induction false} VersionsStayFound(rows: Rows, changes: seq<Change>, tenant: string, id: string)
    requires id in rows
    ensures var found := Found(After(rows, changes), tenant, id);
      if tenant == rows[id].tenant then found.Some? && SameVersion(found.value, rows[id]) else found.None?
    decreases |changes|
  {
    if changes != [] {
      var next := Changed(rows, changes[0]);
      assert id in next && SameVersion(next[id], rows[id]);
      VersionsStayFound(next, changes[1..], tenant, id);
    }
  }

  class Store {
    var rows: Rows

    constructor ()
      ensures rows == map[]
    {
      rows := map[];
    }

    method SaveSecret(record: Secret)
      modifies this
      ensures rows == Saved(old(rows), record)
    {
      if record.current {
        rows := NoneCurrent(rows, record.tenant, record.name);
      }
      if record.id in rows {
        rows := rows[record.id := rows[record.id].(enabled := record.enabled, current := record.current,
                                                   value := record.value, environment := record.environment)];
      } else {
        rows := rows[record.id := record];
      }
    }

    method GetSecret(tenant: string, id: string) returns (r: Option<Secret>)
      ensures r == Found(rows, tenant, id)
    {
      return if id in rows && rows[id].tenant == tenant then Some(rows[id]) else None;
    }

    method GetSecretByName(tenant: string, name: string, version: Option<int>) returns (r: Option<Secret>)
      ensures r.Some? ==> exists id :: id in rows && rows[id] == r.value && Selects(r.value, tenant, name, version)
      ensures r.None? ==> forall id :: id in rows ==> !Selects(rows[id], tenant, name, version)
    {
      var rest := rows.Keys;
      while rest != {}
        invariant rest <= rows.Keys
        invariant forall id :: id in rows && id !in rest ==> !Selects(rows[id], tenant, name, version)
      {
        var id :| id in rest;
        rest := rest - {id};
        if Selects(rows[id], tenant, name, version) {
          return Some(rows[id]);
        }
      }
      return None;
    }

    method DisableSecret(tenant: string, id: string) returns (affected: bool)
      modifies this
      ensures rows == Disabled(old(rows), tenant, id)
      ensures affected <==> id in old(rows) && old(rows)[id].tenant == tenant && old(rows)[id].enabled
    {
      affected := id in rows && rows[id].tenant == tenant && rows[id].enabled;
      if affected {
        rows := rows[id := rows[id].(enabled := false)];
      }
    }
  }
}
