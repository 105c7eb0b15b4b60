/**
 * The bulk region of BaseService (apps/services.py:171-258). Each bulk write
 * loads its rows once, then processes them one at a time, committing each
 * row on its own: a row whose commit fails is rolled back and reported in
 * the error list, and the loop carries on with the next one.
 *
 * `failing` names the rows (by id, or by position for bulk_create) whose
 * commit the database refuses for reasons outside the model.
 */
module BaseServiceBulk {
  import opened Common
  import opened Exceptions
  import opened Entities
  import opened Models
  import opened BaseService

  /** results = {'success': [...], 'errors': [...]}, with the table it leaves behind. */
  datatype Report<+S, +E> = Report(store: Store, success: seq<S>, errors: seq<E>)

  /** The ids of a list of rows, in order. */
  function IdsOf(rows: seq<Row>): (r: seq<Id>)
    ensures |r| == |rows| && forall i | 0 <= i < |rows| :: r[i] == rows[i].id
  {
    seq(|rows|, i requires 0 <= i < |rows| => rows[i].id)
  }

  /** The listed ids whose commit goes through, in order. */
  function Passed(ids: seq<Id>, failing: set<Id>): (r: seq<Id>)
    ensures forall x :: x in r <==> x in ids && x !in failing
  {
    if ids == [] then []
    else Passed(ids[..|ids| - 1], failing) + (if ids[|ids| - 1] in failing then [] else [ids[|ids| - 1]])
  }

  /** The listed ids whose commit is refused, in order. */
  function Failed(ids: seq<Id>, failing: set<Id>): (r: seq<Id>)
    ensures forall x :: x in r <==> x in ids && x in failing
  {
    if ids == [] then []
    else Failed(ids[..|ids| - 1], failing) + (if ids[|ids| - 1] in failing then [ids[|ids| - 1]] else [])
  }

  /** Every processed id lands in exactly one of the two lists, and the counts add up. */
  lemma {:induction false} PassedFailedPartition(ids: seq<Id>, failing: set<Id>)
    ensures |Passed(ids, failing)| + |Failed(ids, failing)| == |ids|
    ensures forall x | x in ids :: (x in Passed(ids, failing)) != (x in Failed(ids, failing))
  {
    if ids != [] {
      PassedFailedPartition(ids[..|ids| - 1], failing);
    }
  }

  /** The ids of the soft-deleted rows in a list, in order. */
  function DeletedIds(items: seq<Row>): seq<Id> {
    if items == [] then []
    else
      var last := items[|items| - 1];
      DeletedIds(items[..|items| - 1]) + (if last.deletedAt.Some? then [last.id] else [])
  }

  /** DeletedIds lists exactly the ids of the soft-deleted rows. */
  lemma {:induction false} DeletedIdsMembers(items: seq<Row>, x: Id)
    ensures x in DeletedIds(items) <==> exists i | 0 <= i < |items| :: items[i].id == x && items[i].deletedAt.Some?
  {
    if items != [] {
      var n := |items| - 1;
      DeletedIdsMembers(items[..n], x);
      if exists i | 0 <= i < |items| :: items[i].id == x && items[i].deletedAt.Some? {
        var i :| 0 <= i < |items| && items[i].id == x && items[i].deletedAt.Some?;
        if i < n {
          assert items[..n][i] == items[i];
        }
      }
    }
  }

  /** The rows with the given ids get deleted_at := stamp; the others stay as they are. */
  function Stamped(rows: map<Id, Row>, done: seq<Id>, stamp: Option<Time>): (r: map<Id, Row>)
    ensures r.Keys == rows.Keys
  {
    map id | id in rows :: if id in done then rows[id].(deletedAt := stamp) else rows[id]
  }

  /**
   * The rows with the given ids are soft-deleted, each with its own reading
   * of the clock: delete() calls datetime.now() once per row, so `clock(id)`
   * is the time at which row id was processed. The others stay as they are.
   */
  function Clocked(rows: map<Id, Row>, done: seq<Id>, clock: Id -> Time): (r: map<Id, Row>)
    ensures r.Keys == rows.Keys
  {
    map id | id in rows :: if id in done then rows[id].(deletedAt := Some(clock(id))) else rows[id]
  }

  /** The rows with the given ids are gone; the others stay as they are. */
  function Without(rows: map<Id, Row>, done: seq<Id>): (r: map<Id, Row>)
    ensures forall x :: x in r <==> x in rows && x !in done
  {
    map id | id in rows && id !in done :: rows[id]
  }

  // ---------------------------------------------------------------------
  // bulk_soft_delete, bulk_hard_delete, bulk_restore
  // ---------------------------------------------------------------------

  /** The rows bulk_soft_delete processes: the active rows among the ids. */
  function SoftDeleteTargets(s: Store, ids: seq<Id>): seq<Id>
    requires Consistent(s)
  {
    IdsOf(GetByIds(s, ids, false))
  }

  /** The rows bulk_hard_delete processes: every stored row among the ids. */
  function HardDeleteTargets(s: Store, ids: seq<Id>): seq<Id>
    requires Consistent(s)
  {
    IdsOf(GetByIds(s, ids, true))
  }

  /** The rows bulk_restore processes: the soft-deleted rows among the ids; active ones are skipped. */
  function RestoreTargets(s: Store, ids: seq<Id>): seq<Id>
    requires Consistent(s)
  {
    DeletedIds(GetByIds(s, ids, true))
  }

  /**
   * bulk_soft_delete reports exactly the active listed rows, each once, split
   * by whether its commit went through; a missing or already deleted id is in
   * neither list. The successful ones end up soft-deleted, each stamped with
   * the clock reading taken when it was processed; all else is unchanged.
   */
  lemma BulkSoftDeleteReport(s: Store, ids: seq<Id>, clock: Id -> Time, failing: set<Id>)
    requires Consistent(s)
    ensures var t := SoftDeleteTargets(s, ids);
            forall x :: x in t <==> x in ids && x in s.rows && s.rows[x].Active()
    ensures var t := SoftDeleteTargets(s, ids);
            |Passed(t, failing)| + |Failed(t, failing)| == |t|
    ensures var t := SoftDeleteTargets(s, ids);
            forall x | x in s.rows :: Clocked(s.rows, Passed(t, failing), clock)[x] ==
              if x in ids && s.rows[x].Active() && x !in failing then s.rows[x].(deletedAt := Some(clock(x))) else s.rows[x]
  {
    var items := GetByIds(s, ids, false);
    var t := SoftDeleteTargets(s, ids);
    forall x | x in ids && x in s.rows && s.rows[x].Active() ensures x in t {
      var k :| 0 <= k < |items| && items[k] == s.rows[x];
      assert t[k] == x;
    }
    PassedFailedPartition(t, failing);
  }

  /**
   * bulk_hard_delete reports every stored listed row, deleted or not; the
   * successful ones are gone, the failed ones remain.
   */
  lemma BulkHardDeleteReport(s: Store, ids: seq<Id>, failing: set<Id>)
    requires Consistent(s)
    ensures var t := HardDeleteTargets(s, ids);
            forall x :: x in t <==> x in ids && x in s.rows
    ensures var t := HardDeleteTargets(s, ids);
            |Passed(t, failing)| + |Failed(t, failing)| == |t|
    ensures var t := HardDeleteTargets(s, ids);
            Without(s.rows, Passed(t, failing)).Keys == set x | x in s.rows && (x !in ids || x in failing)
  {
    var items := GetByIds(s, ids, true);
    var t := HardDeleteTargets(s, ids);
    forall x | x in ids && x in s.rows ensures x in t {
      var k :| 0 <= k < |items| && items[k] == s.rows[x];
      assert t[k] == x;
    }
    PassedFailedPartition(t, failing);
  }

  /**
   * bulk_restore reports exactly the soft-deleted listed rows; an active row
   * is skipped and appears in neither list. The successful ones are active
   * again, all else unchanged.
   */
  lemma BulkRestoreReport(s: Store, ids: seq<Id>, failing: set<Id>)
    requires Consistent(s)
    ensures var t := RestoreTargets(s, ids);
            forall x :: x in t <==> x in ids && x in s.rows && !s.rows[x].Active()
    ensures var t := RestoreTargets(s, ids);
            |Passed(t, failing)| + |Failed(t, failing)| == |t|
    ensures var t := RestoreTargets(s, ids);
            forall x | x in s.rows :: Stamped(s.rows, Passed(t, failing), None)[x] ==
              if x in ids && !s.rows[x].Active() && x !in failing then s.rows[x].(deletedAt := None) else s.rows[x]
  {
    var items := GetByIds(s, ids, true);
    forall x ensures x in RestoreTargets(s, ids) <==> x in ids && x in s.rows && !s.rows[x].Active() {
      DeletedIdsMembers(items, x);
      if x in ids && x in s.rows && !s.rows[x].Active() {
        var k :| 0 <= k < |items| && items[k] == s.rows[x];
        assert items[k].id == x;
      }
    }
    PassedFailedPartition(RestoreTargets(s, ids), failing);
  }

  /** One more processed id: the prefix lists grow by that id on the side its commit took. */
  lemma PrefixStep(ids: seq<Id>, i: int, failing: set<Id>)
    requires 0 <= i < |ids|
    ensures Passed(ids[..i + 1], failing) == Passed(ids[..i], failing) + (if ids[i] in failing then [] else [ids[i]])
    ensures Failed(ids[..i + 1], failing) == Failed(ids[..i], failing) + (if ids[i] in failing then [ids[i]] else [])
  {
    assert ids[..i + 1][..i] == ids[..i];
  }

  lemma DeletedStep(items: seq<Row>, i: int)
    requires 0 <= i < |items|
    ensures DeletedIds(items[..i + 1]) == DeletedIds(items[..i]) + if items[i].deletedAt.Some? then [items[i].id] else []
  {
    assert items[..i + 1][..i] == items[..i];
  }

  lemma AppendStep(ids: seq<Id>, x: Id, failing: set<Id>)
    ensures Passed(ids + [x], failing) == Passed(ids, failing) + (if x in failing then [] else [x])
    ensures Failed(ids + [x], failing) == Failed(ids, failing) + (if x in failing then [x] else [])
  {
    assert (ids + [x])[..|ids|] == ids;
  }

  lemma StampedStep(rows: map<Id, Row>, done: seq<Id>, id: Id, stamp: Option<Time>)
    requires id in rows && id !in done
    ensures Stamped(rows, done, stamp)[id := rows[id].(deletedAt := stamp)] == Stamped(rows, done + [id], stamp)
  {
  }

  lemma ClockedStep(rows: map<Id, Row>, done: seq<Id>, id: Id, clock: Id -> Time)
    requires id in rows && id !in done
    ensures Clocked(rows, done, clock)[id := rows[id].(deletedAt := Some(clock(id)))] == Clocked(rows, done + [id], clock)
  {
  }

  lemma WithoutStep(rows: map<Id, Row>, done: seq<Id>, id: Id)
    requires id in rows && id !in done
    ensures Without(rows, done) - {id} == Without(rows, done + [id])
  {
  }

  /** In a list of rows by increasing id, a row's id is not among the ids processed before it. */
  lemma NotYetProcessed(items: seq<Row>, i: int, failing: set<Id>)
    requires Increasing(items) && 0 <= i < |items|
    ensures items[i].id !in Passed(IdsOf(items)[..i], failing)
  {
    var ids := IdsOf(items);
    forall x | x in ids[..i] ensures x < items[i].id {
      var k :| 0 <= k < i && ids[..i][k] == x;
      assert ids[k] == items[k].id;
    }
  }

  lemma NotYetRestored(items: seq<Row>, i: int, failing: set<Id>)
    requires Increasing(items) && 0 <= i < |items|
    ensures items[i].id !in Passed(DeletedIds(items[..i]), failing)
  {
    DeletedIdsMembers(items[..i], items[i].id);
  }

  /** bulk_soft_delete: `clock(id)` is the time datetime.now() returns when row id is deleted. */
  method BulkSoftDelete(t: Table, ids: seq<Id>, clock: Id -> Time, failing: set<Id>) returns (success: seq<Id>, errors: seq<Id>)
    requires t.Valid()
    modifies t
    ensures t.Valid()
    ensures success == Passed(SoftDeleteTargets(old(t.State()), ids), failing)
    ensures errors == Failed(SoftDeleteTargets(old(t.State()), ids), failing)
    ensures t.State() == old(t.State()).(rows := Clocked(old(t.rows), success, clock))
  {
    var items := GetByIds(t.State(), ids, false);
    success, errors := SoftDeleteLoop(t, items, clock, failing);
  }

  /** bulk_soft_delete's loop over the active rows it loaded, in id order. */
  method SoftDeleteLoop(t: Table, items: seq<Row>, clock: Id -> Time, failing: set<Id>) returns (success: seq<Id>, errors: seq<Id>)
    requires t.Valid() && Increasing(items)
    requires forall k | 0 <= k < |items| :: items[k].id in t.rows && t.rows[items[k].id] == items[k] && items[k].Active()
    modifies t
    ensures t.Valid() && t.nextId == old(t.nextId)
    ensures success == Passed(IdsOf(items), failing) && errors == Failed(IdsOf(items), failing)
    ensures t.rows == Clocked(old(t.rows), success, clock)
  {
    ghost var targets := IdsOf(items);
    ghost var rows0 := t.rows;
    success, errors := [], [];
    var i := 0;
    while i < |items|
      invariant 0 <= i <= |items|
      invariant t.Valid() && t.nextId == old(t.nextId)
      invariant success == Passed(targets[..i], failing) && errors == Failed(targets[..i], failing)
      invariant t.rows == Clocked(rows0, success, clock)
    {
      var id := items[i].id;
      PrefixStep(targets, i, failing);
      NotYetProcessed(items, i, failing);
      ClockedStep(rows0, success, id, clock);
      var r := t.Delete(id, clock(id), id !in failing);
      if r.Ok? {
        success := success + [id];
      } else {
        errors := errors + [id];
      }
      i := i + 1;
    }
    assert targets[..|items|] == targets;
  }

  method BulkHardDelete(t: Table, ids: seq<Id>, failing: set<Id>) returns (success: seq<Id>, errors: seq<Id>)
    requires t.Valid()
    modifies t
    ensures t.Valid()
    ensures success == Passed(HardDeleteTargets(old(t.State()), ids), failing)
    ensures errors == Failed(HardDeleteTargets(old(t.State()), ids), failing)
    ensures t.State() == old(t.State()).(rows := Without(old(t.rows), success))
  {
    var items := GetByIds(t.State(), ids, true);
    success, errors := HardDeleteLoop(t, items, failing);
  }

  /** bulk_hard_delete's loop over the rows it loaded, in id order. */
  method HardDeleteLoop(t: Table, items: seq<Row>, failing: set<Id>) returns (success: seq<Id>, errors: seq<Id>)
    requires t.Valid() && Increasing(items)
    requires forall k | 0 <= k < |items| :: items[k].id in t.rows
    modifies t
    ensures t.Valid() && t.nextId == old(t.nextId)
    ensures success == Passed(IdsOf(items), failing) && errors == Failed(IdsOf(items), failing)
    ensures t.rows == Without(old(t.rows), success)
  {
    ghost var targets := IdsOf(items);
    ghost var rows0 := t.rows;
    success, errors := [], [];
    var i := 0;
    while i < |items|
      invariant 0 <= i <= |items|
      invariant t.Valid() && t.nextId == old(t.nextId)
      invariant success == Passed(targets[..i], failing) && errors == Failed(targets[..i], failing)
      invariant t.rows == Without(rows0, success)
    {
      var id := items[i].id;
      PrefixStep(targets, i, failing);
      NotYetProcessed(items, i, failing);
      WithoutStep(rows0, success, id);
      var r := t.HardDelete(id, id !in failing);
      if r.Ok? {
        success := success + [id];
      } else {
        errors := errors + [id];
      }
      i := i + 1;
    }
    assert targets[..|items|] == targets;
  }

  method BulkRestore(t: Table, ids: seq<Id>, failing: set<Id>) returns (success: seq<Id>, errors: seq<Id>)
    requires t.Valid()
    modifies t
    ensures t.Valid()
    ensures success == Passed(RestoreTargets(old(t.State()), ids), failing)
    ensures errors == Failed(RestoreTargets(old(t.State()), ids), failing)
    ensures t.State() == old(t.State()).(rows := Stamped(old(t.rows), success, None))
  {
    var items := GetByIds(t.State(), ids, true);
    ghost var processed;
    success, errors, processed := RestoreLoop(t, items, failing);
  }

  /** bulk_restore's loop over the rows it loaded, in id order. */
  method RestoreLoop(t: Table, items: seq<Row>, failing: set<Id>) returns (success: seq<Id>, errors: seq<Id>, ghost processed: seq<Id>)
    requires t.Valid() && Increasing(items)
    requires forall k | 0 <= k < |items| :: items[k].id in t.rows
    modifies t
    ensures t.Valid() && t.nextId == old(t.nextId)
    ensures processed == DeletedIds(items)
    ensures success == Passed(processed, failing) && errors == Failed(processed, failing)
    ensures t.rows == Stamped(old(t.rows), success, None)
  {
    ghost var rows0 := t.rows;
    processed := [];
    success, errors := [], [];
    var i := 0;
    while i < |items|
      invariant 0 <= i <= |items|
      invariant t.Valid() && t.nextId == old(t.nextId)
      invariant processed == DeletedIds(items[..i])
      invariant success == Passed(processed, failing) && errors == Failed(processed, failing)
      invariant t.rows == Stamped(rows0, success, None)
    {
      success, errors, processed := RestoreNext(t, items, i, failing, rows0, processed, success, errors);
      i := i + 1;
    }
    assert items[..|items|] == items;
  }

  /** One pass of bulk_restore's loop: an active row is skipped, a soft-deleted one restored. */
  method RestoreNext(t: Table, items: seq<Row>, i: int, failing: set<Id>, ghost rows0: map<Id, Row>,
                     ghost processed: seq<Id>, success: seq<Id>, errors: seq<Id>)
    returns (success': seq<Id>, errors': seq<Id>, ghost processed': seq<Id>)
    requires t.Valid() && Increasing(items) && 0 <= i < |items| && items[i].id in rows0
    requires processed == DeletedIds(items[..i])
    requires success == Passed(processed, failing) && errors == Failed(processed, failing)
    requires t.rows == Stamped(rows0, success, None)
    modifies t
    ensures t.Valid() && t.nextId == old(t.nextId)
    ensures processed' == DeletedIds(items[..i + 1])
    ensures success' == Passed(processed', failing) && errors' == Failed(processed', failing)
    ensures t.rows == Stamped(rows0, success', None)
  {
    var id := items[i].id;
    DeletedStep(items, i);
    if items[i].deletedAt.Some? {
      AppendStep(processed, id, failing);
      NotYetRestored(items, i, failing);
      success', errors' := RestoreItem(t, id, failing, rows0, success, errors);
      processed' := processed + [id];
    } else {
      success', errors', processed' := success, errors, processed;
    }
  }

  /** One pass of bulk_restore's loop over a soft-deleted row. */
  method RestoreItem(t: Table, id: Id, failing: set<Id>, ghost rows0: map<Id, Row>, success: seq<Id>, errors: seq<Id>)
    returns (success': seq<Id>, errors': seq<Id>)
    requires t.Valid() && id in rows0 && id !in success && t.rows == Stamped(rows0, success, None)
    modifies t
    ensures t.Valid() && t.nextId == old(t.nextId)
    ensures success' == success + (if id in failing then [] else [id])
    ensures errors' == errors + (if id in failing then [id] else [])
    ensures t.rows == Stamped(rows0, success', None)
  {
    StampedStep(rows0, success, id, None);
    var r := t.Restore(id, id !in failing);
    if r.Ok? {
      success', errors' := success + [id], errors;
    } else {
      success', errors' := success, errors + [id];
    }
  }

  // ---------------------------------------------------------------------
  // bulk_update, bulk_create: each commit sees the table the earlier ones
  // left, so the run is defined item by item.
  // ---------------------------------------------------------------------

  /** bulk_update over rows loaded once (deleted ones included), one save per row. */
  function UpdateRun(s: Store, items: seq<Row>, data: Fields, failing: set<Id>): Report<Row, Id>
    decreases |items|
  {
    if items == [] then Report(s, [], [])
    else
      var n := |items| - 1;
      var prev := UpdateRun(s, items[..n], data, failing);
      var item := items[n];
      var o := SaveExisting(prev.store, Applied(item, data), item.id !in failing && Storable(data));
      if o.result.Ok? then Report(o.store, prev.success + [o.result.value], prev.errors)
      else Report(o.store, prev.success, prev.errors + [item.id])
  }

  /** The rows are stored ones, listed by increasing id, as get_by_ids returns them. */
  ghost predicate Loaded(s: Store, items: seq<Row>) {
    && Increasing(items)
    && forall i | 0 <= i < |items| :: items[i].id in s.rows && s.rows[items[i].id] == items[i]
  }

  /** A save either stores the row it is given or leaves the table as it was. */
  lemma SaveExistingShape(s: Store, row: Row, commitOk: bool)
    ensures var o := SaveExisting(s, row, commitOk);
            if o.result.Ok? then o.result.value == row && o.store == s.(rows := s.rows[row.id := row]) else o.store == s
  {
  }

  /** One step of bulk_update, as a statement about the run before it. */
  lemma UpdateRunStep(s: Store, items: seq<Row>, data: Fields, failing: set<Id>)
    requires items != []
    ensures var n := |items| - 1;
            var prev := UpdateRun(s, items[..n], data, failing);
            var row := Applied(items[n], data);
            var r := UpdateRun(s, items, data, failing);
            if r.success == prev.success + [row] then r.store == prev.store.(rows := prev.store.rows[row.id := row]) && r.errors == prev.errors
            else r.success == prev.success && r.store == prev.store && r.errors == prev.errors + [items[n].id]
  {
    var n := |items| - 1;
    var prev := UpdateRun(s, items[..n], data, failing);
    var row := Applied(items[n], data);
    SaveExistingShape(prev.store, row, items[n].id !in failing && Storable(data));
  }

  /** The loop of bulk_update moves from one prefix of the run to the next. */
  lemma UpdateRunAdvance(s: Store, items: seq<Row>, i: int, data: Fields, failing: set<Id>,
                         before: Report<Row, Id>, r: Result<Row, Error>, after: Store)
    requires 0 <= i < |items|
    requires before == UpdateRun(s, items[..i], data, failing)
    requires Outcome(r, after) == SaveExisting(before.store, Applied(items[i], data), items[i].id !in failing && Storable(data))
    ensures (if r.Ok? then Report(after, before.success + [r.value], before.errors)
             else Report(after, before.success, before.errors + [items[i].id])) == UpdateRun(s, items[..i + 1], data, failing)
  {
    assert items[..i + 1][..i] == items[..i];
  }

  /**
   * bulk_update reports every loaded row once, and changes neither the set of
   * rows nor the id counter.
   */
  lemma {:induction false} UpdateRunCounts(s: Store, items: seq<Row>, data: Fields, failing: set<Id>)
    requires Loaded(s, items)
    ensures var r := UpdateRun(s, items, data, failing);
            && r.store == s.(rows := r.store.rows)
            && r.store.rows.Keys == s.rows.Keys
            && |r.success| + |r.errors| == |items|
            && forall k | 0 <= k < |r.errors| :: r.errors[k] in s.rows
  {
    if items != [] {
      var n := |items| - 1;
      assert Loaded(s, items[..n]);
      UpdateRunCounts(s, items[..n], data, failing);
      UpdateRunStep(s, items, data, failing);
    }
  }

  /** bulk_update returns no id beyond the last row it loaded. */
  lemma {:induction false} UpdateRunBounded(s: Store, items: seq<Row>, data: Fields, failing: set<Id>)
    requires Increasing(items) && items != []
    ensures var r := UpdateRun(s, items, data, failing);
            forall k | 0 <= k < |r.success| :: r.success[k].id <= items[|items| - 1].id
  {
    var n := |items| - 1;
    UpdateRunStep(s, items, data, failing);
    if n > 0 {
      assert Increasing(items[..n]);
      UpdateRunBounded(s, items[..n], data, failing);
      assert items[..n][n - 1] == items[n - 1];
    }
  }

  /**
   * Each reported success of bulk_update is the original row with the named
   * columns assigned, and is what the table now holds; every row not reported
   * as a success, failed ones included, is unchanged.
   */
  lemma UpdateRunRows(s: Store, items: seq<Row>, data: Fields, failing: set<Id>)
    requires Loaded(s, items)
    ensures var r := UpdateRun(s, items, data, failing);
            forall k | 0 <= k < |r.success| ::
              && r.success[k].id in s.rows
              && r.success[k] == Applied(s.rows[r.success[k].id], data)
              && r.success[k].id in r.store.rows
              && r.store.rows[r.success[k].id] == r.success[k]
    ensures var r := UpdateRun(s, items, data, failing);
            forall id | id in s.rows && id !in IdsOf(r.success) :: id in r.store.rows && r.store.rows[id] == s.rows[id]
  {
    UpdateRunSuccesses(s, items, data, failing);
    UpdateRunUntouched(s, items, data, failing);
  }

  lemma {:induction false} UpdateRunSuccesses(s: Store, items: seq<Row>, data: Fields, failing: set<Id>)
    requires Loaded(s, items)
    ensures var r := UpdateRun(s, items, data, failing);
            forall k | 0 <= k < |r.success| ::
              && r.success[k].id in s.rows
              && r.success[k] == Applied(s.rows[r.success[k].id], data)
              && r.success[k].id in r.store.rows
              && r.store.rows[r.success[k].id] == r.success[k]
  {
    if items != [] {
      var n := |items| - 1;
      assert Loaded(s, items[..n]);
      UpdateRunSuccesses(s, items[..n], data, failing);
      UpdateRunStep(s, items, data, failing);
      var prev := UpdateRun(s, items[..n], data, failing);
      var r := UpdateRun(s, items, data, failing);
      var row := Applied(items[n], data);
      if n > 0 {
        UpdateRunBounded(s, items[..n], data, failing);
        assert items[..n][n - 1] == items[n - 1];
      }
      assert forall k | 0 <= k < |prev.success| :: prev.success[k].id < row.id;
      if r.success == prev.success + [row] {
        forall k | 0 <= k < |r.success|
          ensures r.success[k].id in s.rows
          ensures r.success[k] == Applied(s.rows[r.success[k].id], data)
          ensures r.success[k].id in r.store.rows && r.store.rows[r.success[k].id] == r.success[k]
        {
          if k < |prev.success| {
            assert r.success[k] == prev.success[k];
          }
        }
      }
    }
  }

  lemma {:induction false} UpdateRunUntouched(s: Store, items: seq<Row>, data: Fields, failing: set<Id>)
    requires Loaded(s, items)
    ensures var r := UpdateRun(s, items, data, failing);
            forall id | id in s.rows && id !in IdsOf(r.success) :: id in r.store.rows && r.store.rows[id] == s.rows[id]
  {
    if items != [] {
      var n := |items| - 1;
      assert Loaded(s, items[..n]);
      UpdateRunUntouched(s, items[..n], data, failing);
      UpdateRunStep(s, items, data, failing);
      var prev := UpdateRun(s, items[..n], data, failing);
      var r := UpdateRun(s, items, data, failing);
      var row := Applied(items[n], data);
      if r.success == prev.success + [row] {
        forall id | id in s.rows && id !in IdsOf(r.success)
          ensures id in r.store.rows && r.store.rows[id] == s.rows[id]
        {
          assert IdsOf(r.success) == IdsOf(prev.success) + [row.id];
        }
      }
    }
  }

  /** A deleted_at that is neither a timestamp nor None fails the save of every row. */
  lemma {:induction false} UpdateRunNeedsStorable(s: Store, items: seq<Row>, data: Fields, failing: set<Id>)
    requires !Storable(data)
    ensures UpdateRun(s, items, data, failing).success == []
    decreases |items|
  {
    if items != [] {
      UpdateRunNeedsStorable(s, items[..|items| - 1], data, failing);
    }
  }

  /**
   * bulk_update(ids, {"deleted_at": v}) gives every row it saves that stamp:
   * None restores them, a timestamp soft-deletes them.
   */
  lemma UpdateRunSetsDeletedAt(s: Store, items: seq<Row>, data: Fields, failing: set<Id>)
    requires Loaded(s, items) && "deleted_at" in data
    ensures var r := UpdateRun(s, items, data, failing);
            forall k | 0 <= k < |r.success| :: r.success[k].Get("deleted_at") == data["deleted_at"]
    ensures data["deleted_at"] == Null ==>
            var r := UpdateRun(s, items, data, failing);
            forall k | 0 <= k < |r.success| :: r.success[k].Active()
  {
    if !Storable(data) {
      UpdateRunNeedsStorable(s, items, data, failing);
    } else {
      UpdateRunSuccesses(s, items, data, failing);
    }
  }

  /** Every success of bulk_update is one of the rows it loaded. */
  lemma {:induction false} UpdateRunSuccessLoaded(s: Store, items: seq<Row>, data: Fields, failing: set<Id>, k: int)
    requires 0 <= k < |UpdateRun(s, items, data, failing).success|
    ensures exists i | 0 <= i < |items| :: UpdateRun(s, items, data, failing).success[k].id == items[i].id
  {
    var n := |items| - 1;
    var prev := UpdateRun(s, items[..n], data, failing);
    if k < |prev.success| {
      UpdateRunSuccessLoaded(s, items[..n], data, failing, k);
      var i :| 0 <= i < n && prev.success[k].id == items[..n][i].id;
      assert UpdateRun(s, items, data, failing).success[k] == prev.success[k];
      assert items[..n][i] == items[i];
    } else {
      assert UpdateRun(s, items, data, failing).success[k].id == items[n].id;
    }
  }

  /** Every success of bulk_update is a row listed by the caller. */
  lemma UpdateRunListed(s: Store, ids: seq<Id>, data: Fields, failing: set<Id>)
    requires Consistent(s)
    ensures var r := UpdateRun(s, GetByIds(s, ids, true), data, failing);
            forall x | x in IdsOf(r.success) :: x in ids
  {
    var items := GetByIds(s, ids, true);
    var r := UpdateRun(s, items, data, failing);
    forall x | x in IdsOf(r.success) ensures x in ids {
      var k :| 0 <= k < |r.success| && IdsOf(r.success)[k] == x;
      UpdateRunSuccessLoaded(s, items, data, failing, k);
    }
  }

  /** bulk_create: each item is constructed and saved as create() would. */
  function CreateRun(s: Store, items: seq<Fields>, failing: set<nat>): Report<Row, Fields>
    decreases |items|
  {
    if items == [] then Report(s, [], [])
    else
      var n := |items| - 1;
      var prev := CreateRun(s, items[..n], failing);
      var o := CreateEffect(prev.store, items[n], n !in failing);
      if o.result.Ok? then Report(o.store, prev.success + [o.result.value], prev.errors)
      else Report(o.store, prev.success, prev.errors + [items[n]])
  }

  /** create() either inserts the constructed row under the next id or leaves the table as it was. */
  lemma CreateEffectShape(s: Store, data: Fields, commitOk: bool)
    requires Consistent(s)
    ensures var o := CreateEffect(s, data, commitOk);
            var row := Row(s.nextId, Construct(s.kind, data), DeletedAfter(data, None));
            && Consistent(o.store)
            && if o.result.Ok? then o.result.value == row && o.store == s.(rows := s.rows[row.id := row], nextId := s.nextId + 1)
               else o.store == s
  {
    CreateKeepsConsistency(s, data, commitOk);
  }

  /** One step of bulk_create, as a statement about the run before it. */
  lemma CreateRunStep(s: Store, items: seq<Fields>, failing: set<nat>)
    requires items != []
    requires Consistent(CreateRun(s, items[..|items| - 1], failing).store)
    ensures var n := |items| - 1;
            var prev := CreateRun(s, items[..n], failing);
            var row := Row(prev.store.nextId, Construct(prev.store.kind, items[n]), DeletedAfter(items[n], None));
            var r := CreateRun(s, items, failing);
            && Consistent(r.store)
            && if r.success == prev.success + [row] then r.store == prev.store.(rows := prev.store.rows[row.id := row], nextId := row.id + 1) && r.errors == prev.errors
               else r.success == prev.success && r.store == prev.store && r.errors == prev.errors + [items[n]]
  {
    var n := |items| - 1;
    CreateEffectShape(CreateRun(s, items[..n], failing).store, items[n], n !in failing);
  }

  /**
   * bulk_create reports every item once, moves the id counter by the number
   * of rows it created, and keeps the table consistent.
   */
  lemma {:induction false} CreateRunCounts(s: Store, items: seq<Fields>, failing: set<nat>)
    requires Consistent(s)
    ensures var r := CreateRun(s, items, failing);
            && Consistent(r.store)
            && r.store.kind == s.kind
            && r.store.nextId == s.nextId + |r.success|
            && |r.success| + |r.errors| == |items|
            && forall e | e in r.errors :: e in items
  {
    if items != [] {
      var n := |items| - 1;
      CreateRunCounts(s, items[..n], failing);
      CreateRunStep(s, items, failing);
      assert forall e | e in items[..n] :: e in items;
    }
  }

  /** bulk_create leaves the rows already in the table untouched. */
  lemma {:induction false} CreateRunKeepsRows(s: Store, items: seq<Fields>, failing: set<nat>)
    requires Consistent(s)
    ensures var r := CreateRun(s, items, failing);
            forall id | id in s.rows :: id in r.store.rows && r.store.rows[id] == s.rows[id]
  {
    if items != [] {
      var n := |items| - 1;
      CreateRunKeepsRows(s, items[..n], failing);
      CreateRunCounts(s, items[..n], failing);
      CreateRunStep(s, items, failing);
      var prev := CreateRun(s, items[..n], failing);
      assert prev.store.nextId !in prev.store.rows;
    }
  }

  /**
   * Each success of bulk_create is a new row under a fresh id, stored as
   * returned, built from one of the items: its columns and its deleted_at are
   * those the item gives.
   */
  lemma {:induction false} CreateRunFresh(s: Store, items: seq<Fields>, failing: set<nat>)
    requires Consistent(s)
    ensures var r := CreateRun(s, items, failing);
            forall k | 0 <= k < |r.success| ::
              && s.nextId <= r.success[k].id < r.store.nextId
              && (exists j | 0 <= j < |items| :: Built(s.kind, items[j], r.success[k]))
              && r.success[k].id in r.store.rows && r.store.rows[r.success[k].id] == r.success[k]
  {
    if items != [] {
      var n := |items| - 1;
      CreateRunFresh(s, items[..n], failing);
      CreateRunCounts(s, items[..n], failing);
      CreateRunStep(s, items, failing);
      var prev := CreateRun(s, items[..n], failing);
      var r := CreateRun(s, items, failing);
      forall k | 0 <= k < |r.success|
        ensures s.nextId <= r.success[k].id < r.store.nextId
        ensures exists j | 0 <= j < |items| :: Built(s.kind, items[j], r.success[k])
        ensures r.success[k].id in r.store.rows && r.store.rows[r.success[k].id] == r.success[k]
      {
        if k < |prev.success| {
          assert r.success[k] == prev.success[k];
          assert r.success[k].id < prev.store.nextId;
          var j :| 0 <= j < n && Built(s.kind, items[..n][j], prev.success[k]);
          assert items[..n][j] == items[j];
        } else {
          assert r.success[k] == Row(prev.store.nextId, Construct(prev.store.kind, items[n]), DeletedAfter(items[n], None));
          assert Built(s.kind, items[n], r.success[k]);
        }
      }
    }
  }

  /** The row holds what model_class(**data) holds: the item's columns and deletion stamp. */
  predicate Built(k: Kind, data: Fields, row: Row) {
    row.fields == Construct(k, data) && row.deletedAt == DeletedAfter(data, None)
  }

  /** bulk_create returns its successes by increasing id. */
  lemma {:induction false} CreateRunIncreasing(s: Store, items: seq<Fields>, failing: set<nat>)
    requires Consistent(s)
    ensures Increasing(CreateRun(s, items, failing).success)
  {
    if items != [] {
      var n := |items| - 1;
      CreateRunIncreasing(s, items[..n], failing);
      CreateRunFresh(s, items[..n], failing);
      CreateRunCounts(s, items[..n], failing);
      CreateRunStep(s, items, failing);
      var prev := CreateRun(s, items[..n], failing);
      var r := CreateRun(s, items, failing);
      if r.success != prev.success {
        forall i, j | 0 <= i < j < |r.success| ensures r.success[i].id < r.success[j].id {
          assert r.success[i] == prev.success[i];
          if j < |prev.success| {
            assert r.success[j] == prev.success[j];
          }
        }
      }
    }
  }

  method BulkUpdate(t: Table, ids: seq<Id>, data: Fields, failing: set<Id>) returns (success: seq<Row>, errors: seq<Id>)
    requires t.Valid()
    modifies t
    ensures t.Valid()
    ensures Report(t.State(), success, errors) == UpdateRun(old(t.State()), GetByIds(old(t.State()), ids, true), data, failing)
  {
    var items := GetByIds(t.State(), ids, true);
    ghost var s0 := t.State();
    success, errors := [], [];
    var i := 0;
    while i < |items|
      invariant 0 <= i <= |items|
      invariant t.Valid() && t.rows.Keys == s0.rows.Keys && t.kind == s0.kind
      invariant Report(t.State(), success, errors) == UpdateRun(s0, items[..i], data, failing)
    {
      success, errors := UpdateNext(t, items, i, data, failing, s0, success, errors);
      i := i + 1;
    }
    assert items[..|items|] == items;
  }

  /** One turn of bulk_update's loop: save the next row and record it as a success or an error. */
  method UpdateNext(t: Table, items: seq<Row>, i: int, data: Fields, failing: set<Id>, ghost s0: Store,
                    success: seq<Row>, errors: seq<Id>) returns (success': seq<Row>, errors': seq<Id>)
    requires Consistent(s0) && Loaded(s0, items) && 0 <= i < |items|
    requires t.Valid() && t.rows.Keys == s0.rows.Keys && t.kind == s0.kind
    requires Report(t.State(), success, errors) == UpdateRun(s0, items[..i], data, failing)
    modifies t
    ensures t.Valid() && t.rows.Keys == s0.rows.Keys
    ensures Report(t.State(), success', errors') == UpdateRun(s0, items[..i + 1], data, failing)
  {
    ghost var before := Report(t.State(), success, errors);
    var item := items[i];
    assert item.fields.Keys == Columns(t.kind);
    var r := UpdateItem(t, item, data, item.id !in failing && Storable(data));
    UpdateRunAdvance(s0, items, i, data, failing, before, r, t.State());
    if r.Ok? {
      success', errors' := success + [r.value], errors;
    } else {
      success', errors' := success, errors + [item.id];
    }
  }

  /** One pass of bulk_update's loop: the setattr loop, then save(). */
  method UpdateItem(t: Table, item: Row, data: Fields, commitOk: bool) returns (r: Result<Row, Error>)
    requires t.Valid() && item.id in t.rows && item.fields.Keys == Columns(t.kind)
    modifies t
    ensures t.Valid() && t.rows.Keys == old(t.rows.Keys)
    ensures Outcome(r, t.State()) == SaveExisting(old(t.State()), Applied(item, data), commitOk)
  {
    var row := AssignColumns(item, data);
    r := t.Put(row, commitOk);
  }

  method BulkCreate(t: Table, items: seq<Fields>, failing: set<nat>) returns (success: seq<Row>, errors: seq<Fields>)
    requires t.Valid()
    modifies t
    ensures t.Valid()
    ensures Report(t.State(), success, errors) == CreateRun(old(t.State()), items, failing)
  {
    ghost var s0 := t.State();
    success, errors := [], [];
    var i := 0;
    while i < |items|
      invariant 0 <= i <= |items|
      invariant t.Valid()
      invariant Report(t.State(), success, errors) == CreateRun(s0, items[..i], failing)
    {
      assert items[..i + 1][..i] == items[..i];
      var r := Create(t, items[i], i !in failing);
      if r.Ok? {
        success := success + [r.value];
      } else {
        errors := errors + [items[i]];
      }
      i := i + 1;
    }
    assert items[..|items|] == items;
  }
}
