/**
 * Action idempotency (app/actions/engine.py, app/storage/sqlite.py): a saved success answers
 * every later run of the same node, so the connector need not be called again.
 */
module ActionLedger {
  import opened Wrappers
  import opened Text

  /** Which node of which execution an action run belongs to. */
  datatype Key = Key(tenant: string, execution: string, node: string)

  datatype ActionRow = ActionRow(tenant: string, idempotencyKey: string, success: bool, externalId: Option<string>)

  /** A connector call that reached the outside world. */
  datatype Call = Call(key: Key, success: bool, externalId: Option<string>)

  /** A success reported for a node, called for now or saved earlier. */
  datatype Answer = Answer(key: Key, externalId: Option<string>)

  /** What a connector call gives back; an exception counts as a failure. */
  datatype CallResult = Returned(success: bool, externalId: Option<string>) | Raised

  datatype ActionResult = ActionResult(success: bool, externalId: Option<string>)

  datatype ActionError = NoConnector | SecretsUnresolved | ConnectorRaised | SaveRaised | AuditRaised

  function IdempotencyKey(k: Key): string
  {
    k.execution + [':'] + k.node
  }

  predicate Matches(row: ActionRow, k: Key)
  {
    row.tenant == k.tenant && row.idempotencyKey == IdempotencyKey(k) && row.success
  }

  /** Keys of executions without a colon never collide. */
  lemma KeysDiffer(k: Key, l: Key)
    requires ':' !in k.execution && ':' !in l.execution
    requires k.tenant == l.tenant && IdempotencyKey(k) == IdempotencyKey(l)
    ensures k == l
  {
    JoinInjective(k.execution, k.node, l.execution, l.node, ':');
  }

  /** A colon in an execution id makes two nodes share one saved success. */
  lemma ColonsCollide()
    ensures IdempotencyKey(Key("t", "a:b", "c")) == IdempotencyKey(Key("t", "a", "b:c"))
  {
    assert "a:b" + [':'] + "c" == "a" + [':'] + "b:c";
  }

  function SuccessfulRows(rows: seq<ActionRow>, k: Key): nat
  {
    if rows == [] then 0
    else SuccessfulRows(rows[..|rows| - 1], k) + if Matches(rows[|rows| - 1], k) then 1 else 0
  }

  function SuccessfulCalls(calls: seq<Call>, k: Key): nat
  {
    if calls == [] then 0
    else
      var last := calls[|calls| - 1];
      SuccessfulCalls(calls[..|calls| - 1], k) + if last.key == k && last.success then 1 else 0
  }

  function Occurrences(keys: seq<Key>, k: Key): nat
  {
    if keys == [] then 0
    else Occurrences(keys[..|keys| - 1], k) + if keys[|keys| - 1] == k then 1 else 0
  }

  lemma {:induction false} NoRowNoMatch(rows: seq<ActionRow>, k: Key)
    ensures SuccessfulRows(rows, k) == 0 <==> forall row :: row in rows ==> !Matches(row, k)
  {
    if rows != [] {
      NoRowNoMatch(rows[..|rows| - 1], k);
      assert rows == rows[..|rows| - 1] + [rows[|rows| - 1]];
    }
  }

  /** Two matching rows count twice: with at most one success, the matching row is unique. */
  lemma {:induction false} OneRowIsUnique(rows: seq<ActionRow>, k: Key, a: ActionRow, b: ActionRow)
    requires SuccessfulRows(rows, k) <= 1
    requires a in rows && b in rows && Matches(a, k) && Matches(b, k)
    ensures a == b
  {
    var front, last := rows[..|rows| - 1], rows[|rows| - 1];
    assert rows == front + [last];
    NoRowNoMatch(front, k);
    if a in front && b in front && SuccessfulRows(front, k) <= 1 {
      OneRowIsUnique(front, k, a, b);
    }
  }

  function RowFor(k: Key, success: bool, externalId: Option<string>): ActionRow
  {
    ActionRow(k.tenant, IdempotencyKey(k), success, externalId)
  }

  // ---- One run of an action ----

  /** Whether the row of a call can be saved, and whether the audit entry after it can be written. */
  datatype Persistence = Persistence(saved: bool, audited: bool)

  function CallOf(k: Key, result: CallResult): Call
  {
    match result
    case Returned(success, externalId) => Call(k, success, externalId)
    case Raised => Call(k, false, None)
  }

  /** The rows a call leaves: an exception after it, even from the audit entry, adds a failed row. */
  function RowsOf(k: Key, result: CallResult, p: Persistence): seq<ActionRow>
  {
    if result.Raised? || !p.saved then [RowFor(k, false, None)]
    else [RowFor(k, result.success, result.externalId)] + if p.audited then [] else [RowFor(k, false, None)]
  }

  function ResultOf(result: CallResult, p: Persistence): Result<ActionResult, ActionError>
  {
    if result.Raised? then Err(ConnectorRaised)
    else if !p.saved then Err(SaveRaised)
    else if !p.audited then Err(AuditRaised)
    else Ok(ActionResult(result.success, result.externalId))
  }

  /** The tables after a run that got past its connector and its secrets. */
  ghost predicate Runs(k: Key, rows: seq<ActionRow>, calls: seq<Call>, result: CallResult, p: Persistence,
                       rows': seq<ActionRow>, calls': seq<Call>, r: Result<ActionResult, ActionError>)
  {
    if SuccessfulRows(rows, k) > 0 then
      rows' == rows && calls' == calls
      && exists row :: row in rows && Matches(row, k) && r == Ok(ActionResult(true, row.externalId))
    else
      rows' == rows + RowsOf(k, result, p) && calls' == calls + [CallOf(k, result)] && r == ResultOf(result, p)
  }

  /** The table has a success under the node's own idempotency key. */
  ghost predicate HasSaved(rows: seq<ActionRow>, k: Key, externalId: Option<string>)
  {
    ActionRow(k.tenant, k.execution + ":" + k.node, true, externalId) in rows
  }

  lemma MatchingIsSaved(rows: seq<ActionRow>, k: Key)
    ensures forall row :: row in rows && Matches(row, k) ==> HasSaved(rows, k, row.externalId)
    ensures (exists x :: HasSaved(rows, k, x)) <==> SuccessfulRows(rows, k) > 0
  {
    NoRowNoMatch(rows, k);
    forall row | row in rows && Matches(row, k)
      ensures row == ActionRow(k.tenant, k.execution + ":" + k.node, true, row.externalId)
    {
    }
    forall x | HasSaved(rows, k, x)
      ensures Matches(ActionRow(k.tenant, k.execution + ":" + k.node, true, x), k)
    {
    }
  }

  /** The connector is called for `k` alone: a success that was saved is found from then on, whatever follows. */
  ghost predicate CallsOnce(k: Key, result: CallResult, p: Persistence, rows: seq<ActionRow>, calls: seq<Call>,
                            rows': seq<ActionRow>, calls': seq<Call>, r: Result<ActionResult, ActionError>)
  {
    && rows <= rows' && |calls'| == |calls| + 1 && calls <= calls' && calls'[|calls|].key == k
    && (calls'[|calls|].success <==> result.Returned? && result.success)
    && (result.Returned? && result.success && p.saved ==> HasSaved(rows', k, result.externalId))
    && (!(result.Returned? && result.success && p.saved) ==>
          forall row :: row in rows' && row.success ==> row in rows)
    && (r.Ok? <==> result.Returned? && p.saved && p.audited)
    && (r.Ok? ==> r.value == ActionResult(result.success, result.externalId))
  }

  /** The engine around the action_executions table and the log of calls made. */
  class ActionEngine {
    var rows: seq<ActionRow>
    ghost var calls: seq<Call>

    constructor ()
      ensures rows == [] && calls == []
    {
      rows, calls := [], [];
    }

    /** `SELECT ... WHERE tenant_id = ? AND idempotency_key = ? AND success = 1 LIMIT 1`. */
    method GetSuccessful(k: Key) returns (r: Option<ActionRow>)
      ensures r.Some? ==> r.value in rows && Matches(r.value, k)
      ensures r.None? ==> SuccessfulRows(rows, k) == 0
    {
      for i := 0 to |rows|
        invariant forall j :: 0 <= j < i ==> !Matches(rows[j], k)
      {
        if Matches(rows[i], k) {
          return Some(rows[i]);
        }
      }
      NoRowNoMatch(rows, k);
      return None;
    }

    /**
     * Runs the action of a node: `connector` says whether one is registered, `resolved` whether
     * the payload's secrets resolve, `result` what a call would give.
     */
    method Execute(k: Key, connector: bool, resolved: bool, result: CallResult, p: Persistence)
      returns (r: Result<ActionResult, ActionError>)
      modifies this
      ensures !connector ==> rows == old(rows) && calls == old(calls) && r == Err(NoConnector)
      ensures connector && SuccessfulRows(old(rows), k) == 0 && !resolved ==>
        rows == old(rows) && calls == old(calls) && r == Err(SecretsUnresolved)
      ensures connector && (resolved || SuccessfulRows(old(rows), k) > 0) ==>
        Runs(k, old(rows), old(calls), result, p, rows, calls, r)
      ensures connector && resolved && (forall x :: !HasSaved(old(rows), k, x)) ==>
        CallsOnce(k, result, p, old(rows), old(calls), rows, calls, r)
      ensures connector && (exists x :: HasSaved(old(rows), k, x)) ==>
        rows == old(rows) && calls == old(calls)
        && exists x :: HasSaved(old(rows), k, x) && r == Ok(ActionResult(true, x))
    {
      if !connector {
        return Err(NoConnector);
      }
      var existing := GetSuccessful(k);
      MatchingIsSaved(rows, k);
      if existing.Some? {
        NoRowNoMatch(rows, k);
        return Ok(ActionResult(true, existing.value.externalId));
      }
      if !resolved {
        return Err(SecretsUnresolved);
      }
      match result {
        case Raised =>
          calls := calls + [Call(k, false, None)];
          rows := rows + [RowFor(k, false, None)];
          return Err(ConnectorRaised);
        case Returned(success, externalId) =>
          calls := calls + [Call(k, success, externalId)];
          if !p.saved {
            rows := rows + [RowFor(k, false, None)];
            return Err(SaveRaised);
          }
          ghost var before := rows;
          rows := rows + [RowFor(k, success, externalId)];
          if !p.audited {
            rows := rows + [RowFor(k, false, None)];
            assert rows == before + RowsOf(k, result, p);
            return Err(AuditRaised);
          }
          return Ok(ActionResult(success, externalId));
      }
    }
  }
}
