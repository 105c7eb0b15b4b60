/**
 * BaseModel of apps/models.py: the row shape every table shares, the
 * soft-delete visibility filters, and the four committing mutators (save,
 * delete, restore, hard_delete), each as a pure function on a store snapshot
 * and as an in-place method of the class Table.
 *
 * A read returns its rows in ascending primary-key order: the source issues no
 * ORDER BY, and the model takes the order in which the database stores rows.
 */
module Models {
  import opened Common
  import opened Exceptions
  import opened Entities

  type Id = int

  /** One row: its primary key, its entity columns and its soft-delete stamp. */
  datatype Row = Row(id: Id, fields: Fields, deletedAt: Option<Time>)
  {
    predicate Active() { deletedAt.None? }

    /** getattr(row, name) for an attribute of the row's model. */
    function Get(name: string): Value {
      if name == "id" then Int(id)
      else if name == "deleted_at" then (if deletedAt.Some? then Stamp(deletedAt.value) else Null)
      else if name in fields then fields[name] else Null
    }
  }

  /** A snapshot of one table: its model, its rows by id, the next id to hand out. */
  datatype Store = Store(kind: Kind, rows: map<Id, Row>, nextId: Id)

  /** The result of a committing operation and the table after it. */
  datatype Outcome<+T> = Outcome(result: Result<T, Error>, store: Store)

  /**
   * Every row satisfies the NOT NULL and UNIQUE constraints of its model, and
   * every column holds a value of the column's type.
   */
  predicate Admissible(k: Kind, rows: map<Id, Row>) {
    && (forall id | id in rows :: Complete(k, rows[id].fields) && Typed(k, rows[id].fields))
    && (forall a, b | a in rows && b in rows && a != b :: Distinct(k, rows[a].fields, rows[b].fields))
  }

  predicate Keyed(rows: map<Id, Row>) {
    forall id | id in rows :: rows[id].id == id
  }

  /** What the database guarantees of a table at every commit. */
  ghost predicate Consistent(s: Store) {
    && 1 <= s.nextId
    && Keyed(s.rows)
    && (forall id | id in s.rows :: 1 <= id < s.nextId && s.rows[id].fields.Keys == Columns(s.kind))
    && Admissible(s.kind, s.rows)
  }

  ghost predicate Increasing(r: seq<Row>) {
    forall i, j | 0 <= i < j < |r| :: r[i].id < r[j].id
  }

  /** The rows with id in [lo, hi) that satisfy p, by ascending id. */
  function Select(rows: map<Id, Row>, p: Row -> bool, lo: Id, hi: Id): (r: seq<Row>)
    requires Keyed(rows)
    ensures forall i | 0 <= i < |r| :: r[i].id in rows && rows[r[i].id] == r[i] && p(r[i]) && lo <= r[i].id < hi
    ensures Increasing(r)
    decreases hi - lo
  {
    if lo >= hi then []
    else (if lo in rows && p(rows[lo]) then [rows[lo]] else []) + Select(rows, p, lo + 1, hi)
  }

  lemma {:induction false} SelectComplete(rows: map<Id, Row>, p: Row -> bool, lo: Id, hi: Id)
    requires Keyed(rows)
    ensures forall id | id in rows && lo <= id < hi && p(rows[id]) :: rows[id] in Select(rows, p, lo, hi)
    decreases hi - lo
  {
    if lo < hi {
      SelectComplete(rows, p, lo + 1, hi);
    }
  }

  lemma {:induction false} SelectExtensional(rows: map<Id, Row>, p: Row -> bool, q: Row -> bool, lo: Id, hi: Id)
    requires Keyed(rows)
    requires forall id | id in rows :: p(rows[id]) == q(rows[id])
    ensures Select(rows, p, lo, hi) == Select(rows, q, lo, hi)
    decreases hi - lo
  {
    if lo < hi {
      SelectExtensional(rows, p, q, lo + 1, hi);
    }
  }

  /** A scan over ids none of which satisfies p finds nothing. */
  lemma {:induction false} SelectNone(rows: map<Id, Row>, p: Row -> bool, lo: Id, hi: Id)
    requires Keyed(rows)
    requires forall id | id in rows && lo <= id < hi :: !p(rows[id])
    ensures Select(rows, p, lo, hi) == []
    decreases hi - lo
  {
    if lo < hi {
      SelectNone(rows, p, lo + 1, hi);
    }
  }

  /** A scan over ids exactly one of which satisfies p finds that row alone. */
  lemma {:induction false} SelectOne(rows: map<Id, Row>, p: Row -> bool, lo: Id, hi: Id, id: Id)
    requires Keyed(rows) && id in rows && lo <= id < hi && p(rows[id])
    requires forall x | x in rows && lo <= x < hi && p(rows[x]) :: x == id
    ensures Select(rows, p, lo, hi) == [rows[id]]
    decreases hi - lo
  {
    if lo == id {
      SelectNone(rows, p, lo + 1, hi);
    } else {
      SelectOne(rows, p, lo + 1, hi, id);
    }
  }

  /** Every row of the table satisfying p, each once, by ascending id. */
  function Where(s: Store, p: Row -> bool): (r: seq<Row>)
    requires Consistent(s)
    ensures forall i | 0 <= i < |r| :: r[i].id in s.rows && s.rows[r[i].id] == r[i] && p(r[i])
    ensures forall id | id in s.rows && p(s.rows[id]) :: s.rows[id] in r
    ensures Increasing(r)
  {
    SelectComplete(s.rows, p, 1, s.nextId);
    Select(s.rows, p, 1, s.nextId)
  }

  /** No row satisfies p: the query returns nothing. */
  lemma WhereNone(s: Store, p: Row -> bool)
    requires Consistent(s)
    requires forall id | id in s.rows :: !p(s.rows[id])
    ensures Where(s, p) == []
  {
    SelectNone(s.rows, p, 1, s.nextId);
  }

  /** Exactly one row satisfies p: the query returns that row alone. */
  lemma WhereOne(s: Store, p: Row -> bool, id: Id)
    requires Consistent(s) && id in s.rows && p(s.rows[id])
    requires forall x | x in s.rows && p(s.rows[x]) :: x == id
    ensures Where(s, p) == [s.rows[id]]
  {
    SelectOne(s.rows, p, 1, s.nextId, id);
  }

  predicate InScope(r: Row, includeDeleted: bool) {
    includeDeleted || r.Active()
  }

  /** query_active(): the rows whose deleted_at is NULL. */
  function QueryActive(s: Store): (r: seq<Row>)
    requires Consistent(s)
    ensures forall i | 0 <= i < |r| :: r[i].Active() && r[i].id in s.rows && s.rows[r[i].id] == r[i]
    ensures forall id | id in s.rows && s.rows[id].Active() :: s.rows[id] in r
  {
    Where(s, (r: Row) => r.Active())
  }

  /** query_all(include_deleted): every row, or only the active ones. */
  function QueryAll(s: Store, includeDeleted: bool): (r: seq<Row>)
    requires Consistent(s)
    ensures forall i | 0 <= i < |r| :: InScope(r[i], includeDeleted) && r[i].id in s.rows && s.rows[r[i].id] == r[i]
    ensures forall id | id in s.rows && InScope(s.rows[id], includeDeleted) :: s.rows[id] in r
  {
    Where(s, (r: Row) => InScope(r, includeDeleted))
  }

  /** query_all(False) is query_active(); query_all(True) holds every row. */
  lemma QueryAllScopes(s: Store)
    requires Consistent(s)
    ensures QueryAll(s, false) == QueryActive(s)
    ensures forall id | id in s.rows :: s.rows[id] in QueryAll(s, true)
  {
    SelectExtensional(s.rows, (r: Row) => InScope(r, false), (r: Row) => r.Active(), 1, s.nextId);
  }

  // ---------------------------------------------------------------------
  // The committing mutators, as functions of the snapshot before the call.
  // commitOk == false stands for a commit the database refuses for a reason
  // outside the model. A refused commit is rolled back and then re-raised as
  // IntegrityError(error, 422); that call leaves out the third positional
  // argument (orig) which SQLAlchemy's IntegrityError requires, so what
  // escapes is a TypeError.
  // ---------------------------------------------------------------------

  /** save() of a new object: INSERT with the next auto-incremented id. */
  function SaveNew(s: Store, fields: Fields, deletedAt: Option<Time>, commitOk: bool): Outcome<Row> {
    var row := Row(s.nextId, fields, deletedAt);
    var rows := s.rows[row.id := row];
    if commitOk && Admissible(s.kind, rows) then Outcome(Ok(row), s.(rows := rows, nextId := s.nextId + 1))
    else Outcome(Err(TypeError), s)
  }

  /** save() of an object already in the table whose columns were reassigned. */
  function SaveExisting(s: Store, row: Row, commitOk: bool): Outcome<Row> {
    var rows := s.rows[row.id := row];
    if commitOk && Admissible(s.kind, rows) then Outcome(Ok(row), s.(rows := rows))
    else Outcome(Err(TypeError), s)
  }

  /** delete(): stamp deleted_at with the current time, whatever it held. */
  function MarkDeleted(s: Store, id: Id, now: Time, commitOk: bool): Outcome<Row>
    requires id in s.rows
  {
    var row := s.rows[id].(deletedAt := Some(now));
    if commitOk then Outcome(Ok(row), s.(rows := s.rows[id := row]))
    else Outcome(Err(TypeError), s)
  }

  /** restore(): set deleted_at back to NULL. */
  function ClearDeleted(s: Store, id: Id, commitOk: bool): Outcome<Row>
    requires id in s.rows
  {
    var row := s.rows[id].(deletedAt := None);
    if commitOk then Outcome(Ok(row), s.(rows := s.rows[id := row]))
    else Outcome(Err(TypeError), s)
  }

  /** hard_delete(): remove the row. */
  function Remove(s: Store, id: Id, commitOk: bool): Outcome<Row>
    requires id in s.rows
  {
    if commitOk then Outcome(Ok(s.rows[id]), s.(rows := s.rows - {id}))
    else Outcome(Err(TypeError), s)
  }

  /** A new row gets the next id, which no row holds, and the counter moves on. */
  lemma SaveNewIsFresh(s: Store, fields: Fields, deletedAt: Option<Time>, commitOk: bool)
    requires Consistent(s)
    ensures var o := SaveNew(s, fields, deletedAt, commitOk);
            o.result.Ok? ==> o.result.value.id == s.nextId && o.result.value.deletedAt == deletedAt && s.nextId !in s.rows
                             && o.store.nextId == s.nextId + 1 && o.store.rows.Keys == s.rows.Keys + {s.nextId}
  {
  }

  /** A save is refused exactly when the commit fails or a constraint or column type would break. */
  lemma SaveNewRefused(s: Store, fields: Fields, deletedAt: Option<Time>, commitOk: bool)
    ensures var o := SaveNew(s, fields, deletedAt, commitOk);
            o.result.Err? <==> !commitOk || !Admissible(s.kind, s.rows[s.nextId := Row(s.nextId, fields, deletedAt)])
  {
  }

  /** A save keeps the table consistent: the commit checks the constraints. */
  lemma SaveExistingKeepsConsistency(s: Store, row: Row, commitOk: bool)
    requires Consistent(s)
    requires row.id in s.rows && row.fields.Keys == Columns(s.kind)
    ensures Consistent(SaveExisting(s, row, commitOk).store)
  {
  }

  lemma SaveNewKeepsConsistency(s: Store, fields: Fields, deletedAt: Option<Time>, commitOk: bool)
    requires Consistent(s)
    requires fields.Keys == Columns(s.kind)
    ensures Consistent(SaveNew(s, fields, deletedAt, commitOk).store)
  {
  }

  /**
   * A new row that meets NOT NULL and the column types, and collides with no
   * stored row, can join the table.
   */
  lemma {:induction false} AdmitNewRow(s: Store, row: Row)
    requires Consistent(s) && row.id !in s.rows
    requires Complete(s.kind, row.fields) && Typed(s.kind, row.fields)
    requires forall x | x in s.rows :: Distinct(s.kind, row.fields, s.rows[x].fields) && Distinct(s.kind, s.rows[x].fields, row.fields)
    ensures Admissible(s.kind, s.rows[row.id := row])
  {
    var rows := s.rows[row.id := row];
    forall a, b | a in rows && b in rows && a != b
      ensures Distinct(s.kind, rows[a].fields, rows[b].fields)
    {
      if a != row.id && b != row.id {
        assert rows[a] == s.rows[a] && rows[b] == s.rows[b];
      }
    }
  }

  /** A new row holding a stored row's value in a unique column cannot join the table. */
  lemma RowCollides(k: Kind, rows: map<Id, Row>, row: Row, id: Id, c: string)
    requires id in rows && row.id !in rows && c in UniqueColumns(k)
    requires c in row.fields && c in rows[id].fields && row.fields[c] != Null && row.fields[c] == rows[id].fields[c]
    ensures !Admissible(k, rows[row.id := row])
  {
    var rows' := rows[row.id := row];
    assert rows'[id] == rows[id] && rows'[row.id] == row;
    assert !Distinct(k, rows'[row.id].fields, rows'[id].fields);
  }

  /** Changing deleted_at never breaks a column constraint. */
  lemma {:induction false} StampKeepsConsistency(s: Store, id: Id, stamp: Option<Time>)
    requires Consistent(s) && id in s.rows
    ensures Consistent(s.(rows := s.rows[id := s.rows[id].(deletedAt := stamp)]))
  {
    var r1 := s.rows[id := s.rows[id].(deletedAt := stamp)];
    forall a, b | a in r1 && b in r1 && a != b
      ensures Distinct(s.kind, r1[a].fields, r1[b].fields)
    {
      assert r1[a].fields == s.rows[a].fields && r1[b].fields == s.rows[b].fields;
    }
  }

  /** delete(), restore() and hard_delete() keep the table consistent. */
  lemma DeletionsKeepConsistency(s: Store, id: Id, now: Time, commitOk: bool)
    requires Consistent(s) && id in s.rows
    ensures Consistent(MarkDeleted(s, id, now, commitOk).store)
    ensures Consistent(ClearDeleted(s, id, commitOk).store)
    ensures Consistent(Remove(s, id, commitOk).store)
  {
    StampKeepsConsistency(s, id, Some(now));
    StampKeepsConsistency(s, id, None);
  }

  /** delete() does not check deleted_at: a second call stamps the row again. */
  lemma DeleteRestamps(s: Store, id: Id, first: Time, second: Time)
    requires id in s.rows
    ensures var s1 := MarkDeleted(s, id, first, true).store;
            id in s1.rows && MarkDeleted(s1, id, second, true).result == Ok(s.rows[id].(deletedAt := Some(second)))
  {
  }

  /** restore() clears deleted_at and leaves every other column and row as it was. */
  lemma RestoreTouchesOnlyDeletedAt(s: Store, id: Id)
    requires id in s.rows
    ensures var o := ClearDeleted(s, id, true);
            && o.store.rows.Keys == s.rows.Keys
            && o.store.rows[id].Active()
            && o.store.rows[id].fields == s.rows[id].fields
            && o.store.rows[id].id == s.rows[id].id
            && (forall x | x in s.rows && x != id :: o.store.rows[x] == s.rows[x])
  {
  }

  /** hard_delete() removes the row whether or not it was soft-deleted. */
  lemma RemoveIgnoresDeletedAt(s: Store, id: Id)
    requires id in s.rows
    ensures var o := Remove(s, id, true);
            o.store.rows.Keys == s.rows.Keys - {id} && (forall x | x in o.store.rows :: o.store.rows[x] == s.rows[x])
  {
  }

  /** A refused commit in any of the mutators leaves the table as it was and ends in TypeError. */
  lemma RefusedCommitRollsBack(s: Store, fields: Fields, row: Row, id: Id, now: Time)
    requires id in s.rows
    ensures SaveNew(s, fields, None, false) == Outcome(Err(TypeError), s)
    ensures SaveExisting(s, row, false) == Outcome(Err(TypeError), s)
    ensures MarkDeleted(s, id, now, false) == Outcome(Err(TypeError), s)
    ensures ClearDeleted(s, id, false) == Outcome(Err(TypeError), s)
    ensures Remove(s, id, false) == Outcome(Err(TypeError), s)
  {
  }

  /**
   * One table of the database, updated in place. The fields are the rows by
   * primary key and the auto-increment counter.
   */
  class Table {
    const kind: Kind
    var rows: map<Id, Row>
    var nextId: Id

    function State(): Store
      reads this
    {
      Store(kind, rows, nextId)
    }

    ghost predicate Valid()
      reads this
    {
      Consistent(State())
    }

    constructor (k: Kind)
      ensures Valid() && kind == k && rows == map[] && nextId == 1
    {
      kind := k;
      rows := map[];
      nextId := 1;
    }

    /** BaseModel.save() on a new object. */
    method Insert(fields: Fields, deletedAt: Option<Time>, commitOk: bool) returns (r: Result<Row, Error>)
      requires Valid() && fields.Keys == Columns(kind)
      modifies this
      ensures Valid()
      ensures Outcome(r, State()) == SaveNew(old(State()), fields, deletedAt, commitOk)
    {
      SaveNewKeepsConsistency(State(), fields, deletedAt, commitOk);
      var row := Row(nextId, fields, deletedAt);
      if commitOk && Admissible(kind, rows[row.id := row]) {
        rows := rows[row.id := row];
        nextId := nextId + 1;
        r := Ok(row);
      } else {
        r := Err(TypeError);
      }
    }

    /** BaseModel.save() on a row whose columns were reassigned. */
    method Put(row: Row, commitOk: bool) returns (r: Result<Row, Error>)
      requires Valid() && row.id in rows && row.fields.Keys == Columns(kind)
      modifies this
      ensures Valid()
      ensures Outcome(r, State()) == SaveExisting(old(State()), row, commitOk)
    {
      SaveExistingKeepsConsistency(State(), row, commitOk);
      if commitOk && Admissible(kind, rows[row.id := row]) {
        rows := rows[row.id := row];
        r := Ok(row);
      } else {
        r := Err(TypeError);
      }
    }

    /** BaseModel.delete(). */
    method Delete(id: Id, now: Time, commitOk: bool) returns (r: Result<Row, Error>)
      requires Valid() && id in rows
      modifies this
      ensures Valid()
      ensures Outcome(r, State()) == MarkDeleted(old(State()), id, now, commitOk)
    {
      DeletionsKeepConsistency(State(), id, now, commitOk);
      if commitOk {
        var row := rows[id].(deletedAt := Some(now));
        rows := rows[id := row];
        r := Ok(row);
      } else {
        r := Err(TypeError);
      }
    }

    /** BaseModel.restore(). */
    method Restore(id: Id, commitOk: bool) returns (r: Result<Row, Error>)
      requires Valid() && id in rows
      modifies this
      ensures Valid()
      ensures Outcome(r, State()) == ClearDeleted(old(State()), id, commitOk)
    {
      DeletionsKeepConsistency(State(), id, 0, commitOk);
      if commitOk {
        var row := rows[id].(deletedAt := None);
        rows := rows[id := row];
        r := Ok(row);
      } else {
        r := Err(TypeError);
      }
    }

    /** BaseModel.hard_delete(). */
    method HardDelete(id: Id, commitOk: bool) returns (r: Result<Row, Error>)
      requires Valid() && id in rows
      modifies this
      ensures Valid()
      ensures Outcome(r, State()) == Remove(old(State()), id, commitOk)
    {
      DeletionsKeepConsistency(State(), id, 0, commitOk);
      if commitOk {
        r := Ok(rows[id]);
        rows := rows - {id};
      } else {
        r := Err(TypeError);
      }
    }
  }
}
