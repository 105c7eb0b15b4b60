/**
 * BaseService of apps/services.py: the generic reads, the single writes with
 * their error cases, and the item-by-item bulk writes that split the rows they
 * process into a success list and an error list.
 *
 * Every write is a method on a Table whose postcondition equates the result
 * and the new table with a pure function of the table before the call (the
 * *Effect and *Run functions below); the lemmas state what the source promises
 * about those functions.
 */
module BaseService {
  import opened Common
  import opened Exceptions
  import opened Entities
  import opened Models
  import opened Text

  // ---------------------------------------------------------------------
  // Reads
  // ---------------------------------------------------------------------

  /** get_all(include_deleted). */
  function GetAll(s: Store, includeDeleted: bool): (r: seq<Row>)
    requires Consistent(s)
    ensures forall i | 0 <= i < |r| :: InScope(r[i], includeDeleted) && r[i].id in s.rows && s.rows[r[i].id] == r[i]
    ensures forall id | id in s.rows && InScope(s.rows[id], includeDeleted) :: s.rows[id] in r
  {
    QueryAll(s, includeDeleted)
  }

  /** get_by_id(id, include_deleted): the row with that id when it is in scope. */
  function GetById(s: Store, id: Id, includeDeleted: bool): (r: Option<Row>)
    requires Consistent(s)
    ensures r == if id in s.rows && InScope(s.rows[id], includeDeleted) then Some(s.rows[id]) else None
  {
    var m := Where(s, (x: Row) => InScope(x, includeDeleted) && x.id == id);
    if m == [] then None else Some(m[0])
  }

  /** get_by_ids(ids, include_deleted): the in-scope rows whose id is listed, each once. */
  function GetByIds(s: Store, ids: seq<Id>, includeDeleted: bool): (r: seq<Row>)
    requires Consistent(s)
    ensures forall i | 0 <= i < |r| :: r[i].id in ids && InScope(r[i], includeDeleted) && r[i].id in s.rows && s.rows[r[i].id] == r[i]
    ensures forall id | id in s.rows && id in ids && InScope(s.rows[id], includeDeleted) :: s.rows[id] in r
    ensures Increasing(r)
  {
    Where(s, (x: Row) => InScope(x, includeDeleted) && x.id in ids)
  }

  /** The row holds the given value in every named column (`column == value`, NULL as IS NULL). */
  predicate Matches(x: Row, kwargs: Fields) {
    forall f | f in kwargs :: x.Get(f) == kwargs[f]
  }

  /**
   * find_by_filter(include_deleted, **kwargs): the in-scope rows matching every
   * pair. A name that is not an attribute of the model raises the bare
   * AttributeError, which is re-raised unwrapped.
   */
  function FindByFilter(s: Store, includeDeleted: bool, kwargs: Fields): (r: Result<seq<Row>, Error>)
    requires Consistent(s)
    ensures r.Err? <==> !(kwargs.Keys <= Attributes(s.kind))
    ensures r.Err? ==> r.error == AttributeError
    ensures r.Ok? ==> forall i | 0 <= i < |r.value| ::
      InScope(r.value[i], includeDeleted) && Matches(r.value[i], kwargs) && r.value[i].id in s.rows && s.rows[r.value[i].id] == r.value[i]
    ensures r.Ok? ==> forall id | id in s.rows && InScope(s.rows[id], includeDeleted) && Matches(s.rows[id], kwargs) :: s.rows[id] in r.value
    ensures r.Ok? ==> Increasing(r.value)
  {
    if !(kwargs.Keys <= Attributes(s.kind)) then Err(AttributeError)
    else Ok(Where(s, (x: Row) => InScope(x, includeDeleted) && Matches(x, kwargs)))
  }

  /** The listed fields that are attributes of the model: one ILIKE condition each. */
  function SearchColumns(k: Kind, fields: seq<string>): set<string> {
    set f | f in fields && f in Attributes(k)
  }

  /**
   * The text ILIKE compares for a column value: a string as it is, an integer
   * in decimal (SQLite casts it to text); other values are not matched.
   */
  function LikeText(v: Value): Option<string> {
    match v
    case Str(t) => Some(t)
    case Int(i) => Some(Show(i))
    case _ => None
  }

  /** Some searched column holds text containing the term, ignoring case. */
  predicate Hit(x: Row, columns: set<string>, term: string) {
    exists f | f in columns :: LikeText(x.Get(f)).Some? && Contains(Lower(LikeText(x.Get(f)).value), Lower(term))
  }

  /** An integer column is searched as its decimal text: its own digits find the row. */
  lemma SearchHitsIntegerColumns(x: Row, c: string, i: int)
    requires x.Get(c) == Int(i)
    ensures Hit(x, {c}, Show(i))
  {
    assert OccursAt(Lower(Show(i)), Lower(Show(i)), 0);
  }

  /**
   * search(term, fields, include_deleted): the in-scope rows in which some
   * listed column contains the term; fields that are not attributes are
   * skipped, and when none is left every in-scope row is returned.
   */
  function Search(s: Store, term: string, fields: seq<string>, includeDeleted: bool): (r: seq<Row>)
    requires Consistent(s)
    ensures forall i | 0 <= i < |r| :: InScope(r[i], includeDeleted) && r[i].id in s.rows && s.rows[r[i].id] == r[i]
    ensures forall i | 0 <= i < |r| :: SearchColumns(s.kind, fields) == {} || Hit(r[i], SearchColumns(s.kind, fields), term)
    ensures forall id | id in s.rows && InScope(s.rows[id], includeDeleted) &&
                        (SearchColumns(s.kind, fields) == {} || Hit(s.rows[id], SearchColumns(s.kind, fields), term)) :: s.rows[id] in r
  {
    var columns := SearchColumns(s.kind, fields);
    if columns == {} then QueryAll(s, includeDeleted)
    else Where(s, (x: Row) => InScope(x, includeDeleted) && Hit(x, columns, term))
  }

  /** Reads honour include_deleted: by default a soft-deleted row is never returned, with it every row is. */
  lemma ReadsFollowScope(s: Store, id: Id, ids: seq<Id>)
    requires Consistent(s) && id in s.rows
    ensures !s.rows[id].Active() ==> GetById(s, id, false) == None && s.rows[id] !in GetAll(s, false) && s.rows[id] !in GetByIds(s, ids, false)
    ensures GetById(s, id, true) == Some(s.rows[id]) && s.rows[id] in GetAll(s, true)
    ensures id in ids ==> s.rows[id] in GetByIds(s, ids, true)
  {
  }

  /** get_by_ids returns at most one row per id, and nothing for an id it cannot find. */
  lemma GetByIdsOnePerId(s: Store, ids: seq<Id>, includeDeleted: bool, i: int, j: int)
    requires Consistent(s)
    requires 0 <= i < j < |GetByIds(s, ids, includeDeleted)|
    ensures GetByIds(s, ids, includeDeleted)[i].id != GetByIds(s, ids, includeDeleted)[j].id
  {
  }

  /** An unknown filter field surfaces as the raw AttributeError, not as a service exception. */
  lemma UnknownFilterFieldIsNotAServiceError(s: Store, includeDeleted: bool, kwargs: Fields, f: string)
    requires Consistent(s) && f in kwargs && f !in Attributes(s.kind)
    ensures FindByFilter(s, includeDeleted, kwargs).Err?
    ensures !FindByFilter(s, includeDeleted, kwargs).error.IsServiceException()
  {
  }

  // ---------------------------------------------------------------------
  // Single writes
  // ---------------------------------------------------------------------

  /**
   * model_class(**data): the entity columns named in data take its values, the
   * others start NULL. deleted_at is taken by DeletedAfter; values given for
   * id or for an untracked attribute are not kept.
   */
  function Construct(k: Kind, data: Fields): (f: Fields)
    ensures f.Keys == Columns(k)
  {
    map c | c in Columns(k) :: if c in data then data[c] else Null
  }

  /** The setattr loop on the entity columns: those named in data take its value. */
  function Assigned(fields: Fields, data: Fields): (f: Fields)
    ensures f.Keys == fields.Keys
  {
    map c | c in fields :: if c in data then data[c] else fields[c]
  }

  /** The soft-delete stamp that a value assigned to deleted_at stores. */
  function StampOf(v: Value): Option<Time> {
    if v.Stamp? then Some(v.t) else None
  }

  /**
   * deleted_at, a DateTime column, accepts a timestamp or None; the commit of
   * any other value fails.
   */
  predicate Storable(data: Fields) {
    "deleted_at" in data ==> data["deleted_at"].Null? || data["deleted_at"].Stamp?
  }

  /** deleted_at after data is assigned to an object whose stamp was `was`. */
  function DeletedAfter(data: Fields, was: Option<Time>): Option<Time> {
    if "deleted_at" in data then StampOf(data["deleted_at"]) else was
  }

  /**
   * The setattr loop of update and bulk_update on one row: every entity
   * column and deleted_at named in data takes its value, every other column
   * keeps its own.
   */
  function Applied(row: Row, data: Fields): (r: Row)
    ensures r.id == row.id && r.fields.Keys == row.fields.Keys
    ensures forall c | c in row.fields :: r.fields[c] == if c in data then data[c] else row.fields[c]
    ensures Storable(data) ==> r.Get("deleted_at") == if "deleted_at" in data then data["deleted_at"] else row.Get("deleted_at")
    ensures "deleted_at" !in data ==> r.deletedAt == row.deletedAt
  {
    row.(fields := Assigned(row.fields, data), deletedAt := DeletedAfter(data, row.deletedAt))
  }

  /** create(**data): an unknown keyword or a refused save is reported as CreateFailed. */
  function CreateEffect(s: Store, data: Fields, commitOk: bool): Outcome<Row> {
    if !(data.Keys <= Attributes(s.kind)) then Outcome(Err(CreateFailed), s)
    else
      var o := SaveNew(s, Construct(s.kind, data), DeletedAfter(data, None), commitOk && Storable(data));
      if o.result.Ok? then o else Outcome(Err(CreateFailed), s)
  }

  /** update(id, **data): finds the row even when soft-deleted, assigns, saves. */
  function UpdateEffect(s: Store, id: Id, data: Fields, commitOk: bool): Outcome<Row>
    requires Consistent(s)
  {
    var item := GetById(s, id, true);
    if item.None? then Outcome(Err(RecordNotFound), s)
    else
      var o := SaveExisting(s, Applied(item.value, data), commitOk && Storable(data));
      if o.result.Ok? then o else Outcome(Err(UpdateFailed), s)
  }

  /** soft_delete(id): only an active row can be soft-deleted. */
  function SoftDeleteEffect(s: Store, id: Id, now: Time, commitOk: bool): Outcome<Row>
    requires Consistent(s)
  {
    var item := GetById(s, id, false);
    if item.None? then Outcome(Err(RecordNotFound), s)
    else
      var o := MarkDeleted(s, id, now, commitOk);
      if o.result.Ok? then o else Outcome(Err(DeleteFailed), s)
  }

  /** hard_delete(id): any stored row, soft-deleted or not. */
  function HardDeleteEffect(s: Store, id: Id, commitOk: bool): Outcome<Row>
    requires Consistent(s)
  {
    var item := GetById(s, id, true);
    if item.None? then Outcome(Err(RecordNotFound), s)
    else
      var o := Remove(s, id, commitOk);
      if o.result.Ok? then o else Outcome(Err(DeleteFailed), s)
  }

  /** restore(id): the row must exist and be soft-deleted. */
  function RestoreEffect(s: Store, id: Id, commitOk: bool): Outcome<Row>
    requires Consistent(s)
  {
    var item := GetById(s, id, true);
    if item.None? then Outcome(Err(RecordNotFound), s)
    else if item.value.deletedAt.None? then Outcome(Err(RecordNotDeleted), s)
    else
      var o := ClearDeleted(s, id, commitOk);
      if o.result.Ok? then o else Outcome(Err(RestoreFailed), s)
  }

  /** create keeps the table consistent, and a failed one leaves it untouched. */
  lemma CreateKeepsConsistency(s: Store, data: Fields, commitOk: bool)
    requires Consistent(s)
    ensures Consistent(CreateEffect(s, data, commitOk).store)
    ensures CreateEffect(s, data, commitOk).result.Err? ==> CreateEffect(s, data, commitOk).store == s
  {
    SaveNewKeepsConsistency(s, Construct(s.kind, data), DeletedAfter(data, None), commitOk && Storable(data));
  }

  /** update keeps the table consistent, and a failed one leaves it untouched. */
  lemma UpdateKeepsConsistency(s: Store, id: Id, data: Fields, commitOk: bool)
    requires Consistent(s)
    ensures Consistent(UpdateEffect(s, id, data, commitOk).store)
    ensures UpdateEffect(s, id, data, commitOk).result.Err? ==> UpdateEffect(s, id, data, commitOk).store == s
  {
    if id in s.rows {
      assert GetById(s, id, true) == Some(s.rows[id]);
      SaveExistingKeepsConsistency(s, Applied(s.rows[id], data), commitOk && Storable(data));
    }
  }

  /** soft_delete, hard_delete and restore keep the table consistent, and a failed one leaves it untouched. */
  lemma DeletesKeepConsistency(s: Store, id: Id, now: Time, commitOk: bool)
    requires Consistent(s)
    ensures Consistent(SoftDeleteEffect(s, id, now, commitOk).store)
    ensures Consistent(HardDeleteEffect(s, id, commitOk).store)
    ensures Consistent(RestoreEffect(s, id, commitOk).store)
    ensures SoftDeleteEffect(s, id, now, commitOk).result.Err? ==> SoftDeleteEffect(s, id, now, commitOk).store == s
    ensures HardDeleteEffect(s, id, commitOk).result.Err? ==> HardDeleteEffect(s, id, commitOk).store == s
    ensures RestoreEffect(s, id, commitOk).result.Err? ==> RestoreEffect(s, id, commitOk).store == s
  {
    if id in s.rows {
      DeletionsKeepConsistency(s, id, now, commitOk);
    }
  }

  /**
   * create then get_by_id returns a row holding exactly the data given for
   * each column and for deleted_at; the default lookup finds it exactly when
   * no deletion stamp was given.
   */
  lemma CreateThenGet(s: Store, data: Fields)
    requires Consistent(s)
    ensures var o := CreateEffect(s, data, true);
            o.result.Ok? ==>
              && Consistent(o.store)
              && GetById(o.store, o.result.value.id, true) == Some(o.result.value)
              && (GetById(o.store, o.result.value.id, false).Some? <==> ("deleted_at" !in data || data["deleted_at"] == Null))
              && o.result.value.id !in s.rows
              && (forall c | c in Columns(s.kind) :: o.result.value.fields[c] == if c in data then data[c] else Null)
              && o.result.value.Get("deleted_at") == if "deleted_at" in data then data["deleted_at"] else Null
  {
    CreateKeepsConsistency(s, data, true);
  }

  /**
   * create fails without touching the table when a key is not an attribute,
   * deleted_at is given something other than a timestamp or None, or a
   * constraint or a column type would break.
   */
  lemma CreateFailsOn(s: Store, data: Fields, commitOk: bool)
    requires Consistent(s)
    ensures var o := CreateEffect(s, data, commitOk);
            o.result.Err? <==> (!(data.Keys <= Attributes(s.kind)) || !commitOk || !Storable(data)
                                || !Admissible(s.kind, s.rows[s.nextId := Row(s.nextId, Construct(s.kind, data), DeletedAfter(data, None))]))
    ensures CreateEffect(s, data, commitOk).result.Err? ==> CreateEffect(s, data, commitOk) == Outcome(Err(CreateFailed), s)
  {
  }

  /**
   * update reaches soft-deleted rows, fails only for an absent id, a
   * deleted_at that is not a timestamp or None, or a refused save, and changes
   * nothing but the named columns of that one row; naming deleted_at sets or
   * clears the soft-delete stamp.
   */
  lemma UpdateChangesOnlyNamedColumns(s: Store, id: Id, data: Fields)
    requires Consistent(s)
    ensures id !in s.rows ==> UpdateEffect(s, id, data, true) == Outcome(Err(RecordNotFound), s)
    ensures id in s.rows && !Storable(data) ==> UpdateEffect(s, id, data, true) == Outcome(Err(UpdateFailed), s)
    ensures var o := UpdateEffect(s, id, data, true);
            o.result.Ok? ==>
              && id in s.rows
              && o.store.rows.Keys == s.rows.Keys
              && o.store.rows[id].Get("deleted_at") == (if "deleted_at" in data then data["deleted_at"] else s.rows[id].Get("deleted_at"))
              && (forall c | c in s.rows[id].fields :: o.store.rows[id].fields[c] == if c in data then data[c] else s.rows[id].fields[c])
              && (forall x | x in s.rows && x != id :: o.store.rows[x] == s.rows[x])
  {
    if id in s.rows {
      assert GetById(s, id, true) == Some(s.rows[id]);
      var row := Applied(s.rows[id], data);
      var o := SaveExisting(s, row, Storable(data));
      assert UpdateEffect(s, id, data, true) == if o.result.Ok? then o else Outcome(Err(UpdateFailed), s);
      if o.result.Ok? {
        assert o.store.rows == s.rows[id := row];
      }
    }
  }

  /** A soft-deleted row can still be updated (the lookup includes deleted rows). */
  lemma UpdateReachesDeletedRows(s: Store, id: Id, data: Fields)
    requires Consistent(s) && id in s.rows && !s.rows[id].Active()
    ensures UpdateEffect(s, id, data, true).result != Err(RecordNotFound)
  {
  }

  /**
   * soft_delete hides the row from default reads and keeps it for
   * include_deleted reads; a second soft_delete of it reports RecordNotFound.
   */
  lemma SoftDeleteThenRead(s: Store, id: Id, now: Time, later: Time, commitOk: bool)
    requires Consistent(s)
    ensures var o := SoftDeleteEffect(s, id, now, true);
            o.result.Ok? ==>
              && Consistent(o.store)
              && GetById(o.store, id, false) == None
              && o.store.rows[id] !in GetAll(o.store, false)
              && GetById(o.store, id, true) == Some(s.rows[id].(deletedAt := Some(now)))
              && SoftDeleteEffect(o.store, id, later, commitOk) == Outcome(Err(RecordNotFound), o.store)
  {
    DeletesKeepConsistency(s, id, now, true);
  }

  /** soft_delete fails, changing nothing, exactly for an absent or already soft-deleted id. */
  lemma SoftDeleteNotFound(s: Store, id: Id, now: Time, commitOk: bool)
    requires Consistent(s)
    ensures SoftDeleteEffect(s, id, now, commitOk).result == Err(RecordNotFound)
            <==> !(id in s.rows && s.rows[id].Active())
  {
  }

  /** hard_delete removes any stored row and reports RecordNotFound only for an absent id. */
  lemma HardDeleteRemoves(s: Store, id: Id)
    requires Consistent(s)
    ensures id !in s.rows ==> HardDeleteEffect(s, id, true) == Outcome(Err(RecordNotFound), s)
    ensures id in s.rows ==> HardDeleteEffect(s, id, true) == Outcome(Ok(s.rows[id]), s.(rows := s.rows - {id}))
  {
  }

  /**
   * restore undoes soft_delete exactly; restoring twice fails the second
   * time with RecordNotDeleted.
   */
  lemma RestoreUndoesSoftDelete(s: Store, id: Id, now: Time, commitOk: bool)
    requires Consistent(s) && id in s.rows && s.rows[id].Active()
    ensures var d := SoftDeleteEffect(s, id, now, true);
            && Consistent(d.store)
            && RestoreEffect(d.store, id, true).store == s
            && Consistent(RestoreEffect(d.store, id, true).store)
            && RestoreEffect(RestoreEffect(d.store, id, true).store, id, commitOk) == Outcome(Err(RecordNotDeleted), s)
  {
    var row := s.rows[id];
    var d := s.(rows := s.rows[id := row.(deletedAt := Some(now))]);
    SoftDeleteStamps(s, id, now);
    RestoreClears(d, id);
    assert d.rows[id := d.rows[id].(deletedAt := None)] == s.rows;
    RestoreErrors(s, id, commitOk);
  }

  /** soft_delete of an active row with a good commit stamps it and keeps the table consistent. */
  lemma SoftDeleteStamps(s: Store, id: Id, now: Time)
    requires Consistent(s) && id in s.rows && s.rows[id].Active()
    ensures SoftDeleteEffect(s, id, now, true).store == s.(rows := s.rows[id := s.rows[id].(deletedAt := Some(now))])
    ensures Consistent(SoftDeleteEffect(s, id, now, true).store)
  {
    DeletionsKeepConsistency(s, id, now, true);
  }

  /** restore of a soft-deleted row with a good commit clears its stamp and keeps the table consistent. */
  lemma RestoreClears(s: Store, id: Id)
    requires Consistent(s) && id in s.rows && !s.rows[id].Active()
    ensures RestoreEffect(s, id, true).store == s.(rows := s.rows[id := s.rows[id].(deletedAt := None)])
    ensures Consistent(RestoreEffect(s, id, true).store)
  {
    DeletionsKeepConsistency(s, id, 0, true);
  }

  /** restore's error cases: absent id, then a row that is not soft-deleted. */
  lemma RestoreErrors(s: Store, id: Id, commitOk: bool)
    requires Consistent(s)
    ensures id !in s.rows ==> RestoreEffect(s, id, commitOk) == Outcome(Err(RecordNotFound), s)
    ensures id in s.rows && s.rows[id].Active() ==> RestoreEffect(s, id, commitOk) == Outcome(Err(RecordNotDeleted), s)
    ensures RestoreEffect(s, id, commitOk).result != Err(RecordAlreadyDeleted)
  {
    if id in s.rows {
      assert GetById(s, id, true) == Some(s.rows[id]);
    } else {
      assert GetById(s, id, true) == None;
    }
  }

  /** The loop of update / bulk_update: assign every named column and deleted_at. */
  method AssignColumns(row: Row, data: Fields) returns (r: Row)
    ensures r == Applied(row, data)
  {
    r := row;
    var keys := data.Keys;
    while keys != {}
      invariant keys <= data.Keys
      invariant r == Applied(row, data - keys)
      decreases keys
    {
      var key :| key in keys;
      if key in r.fields {
        r := r.(fields := r.fields[key := data[key]]);
      }
      if key == "deleted_at" {
        r := r.(deletedAt := StampOf(data[key]));
      }
      keys := keys - {key};
    }
    assert data - {} == data;
  }

  method Create(t: Table, data: Fields, commitOk: bool) returns (r: Result<Row, Error>)
    requires t.Valid()
    modifies t
    ensures t.Valid()
    ensures Outcome(r, t.State()) == CreateEffect(old(t.State()), data, commitOk)
  {
    if !(data.Keys <= Attributes(t.kind)) {
      return Err(CreateFailed);
    }
    var item := Construct(t.kind, data);
    r := t.Insert(item, DeletedAfter(data, None), commitOk && Storable(data));
    if r.Err? {
      r := Err(CreateFailed);
    }
  }

  method Update(t: Table, id: Id, data: Fields, commitOk: bool) returns (r: Result<Row, Error>)
    requires t.Valid()
    modifies t
    ensures t.Valid()
    ensures Outcome(r, t.State()) == UpdateEffect(old(t.State()), id, data, commitOk)
  {
    var item := GetById(t.State(), id, true);
    if item.None? {
      return Err(RecordNotFound);
    }
    var row := AssignColumns(item.value, data);
    r := t.Put(row, commitOk && Storable(data));
    if r.Err? {
      r := Err(UpdateFailed);
    }
  }

  method SoftDelete(t: Table, id: Id, now: Time, commitOk: bool) returns (r: Result<Row, Error>)
    requires t.Valid()
    modifies t
    ensures t.Valid()
    ensures Outcome(r, t.State()) == SoftDeleteEffect(old(t.State()), id, now, commitOk)
  {
    var item := GetById(t.State(), id, false);
    if item.None? {
      return Err(RecordNotFound);
    }
    r := t.Delete(id, now, commitOk);
    if r.Err? {
      r := Err(DeleteFailed);
    }
  }

  method HardDelete(t: Table, id: Id, commitOk: bool) returns (r: Result<Row, Error>)
    requires t.Valid()
    modifies t
    ensures t.Valid()
    ensures Outcome(r, t.State()) == HardDeleteEffect(old(t.State()), id, commitOk)
  {
    var item := GetById(t.State(), id, true);
    if item.None? {
      return Err(RecordNotFound);
    }
    r := t.HardDelete(id, commitOk);
    if r.Err? {
      r := Err(DeleteFailed);
    }
  }

  method Restore(t: Table, id: Id, commitOk: bool) returns (r: Result<Row, Error>)
    requires t.Valid()
    modifies t
    ensures t.Valid()
    ensures Outcome(r, t.State()) == RestoreEffect(old(t.State()), id, commitOk)
  {
    var item := GetById(t.State(), id, true);
    if item.None? {
      return Err(RecordNotFound);
    }
    if item.value.deletedAt.None? {
      return Err(RecordNotDeleted);
    }
    r := t.Restore(id, commitOk);
    if r.Err? {
      r := Err(RestoreFailed);
    }
  }
}
