/**
 * PromptService of apps/services.py: BaseService behind a per-service
 * whitelist. create / update refuse any keyword outside writable_fields and
 * search refuses any field outside searchable_fields, before anything reaches
 * the table. The bulk writes are inherited unchanged and so are not guarded.
 */
module PromptService {
  import opened Common
  import opened Exceptions
  import opened Entities
  import opened Models
  import opened BaseService

  /** writable_fields and searchable_fields of one service class. */
  datatype Whitelist = Whitelist(writable: set<string>, searchable: set<string>)

  /** PromptService.create: _assert_fields_allowed, then BaseService.create. */
  function GuardedCreate(w: Whitelist, s: Store, data: Fields, commitOk: bool): Outcome<Row> {
    if !(data.Keys <= w.writable) then Outcome(Err(AttributeError), s)
    else CreateEffect(s, data, commitOk)
  }

  /** PromptService.update: _assert_fields_allowed, then BaseService.update. */
  function GuardedUpdate(w: Whitelist, s: Store, id: Id, data: Fields, commitOk: bool): Outcome<Row>
    requires Consistent(s)
  {
    if !(data.Keys <= w.writable) then Outcome(Err(AttributeError), s)
    else UpdateEffect(s, id, data, commitOk)
  }

  /** PromptService.search: refuse fields outside searchable_fields, then BaseService.search. */
  function GuardedSearch(w: Whitelist, s: Store, term: string, fields: seq<string>, includeDeleted: bool): (r: Result<seq<Row>, Error>)
    requires Consistent(s)
    ensures r.Err? <==> exists f | f in fields :: f !in w.searchable
    ensures r.Err? ==> r.error == ValueError
    ensures r.Ok? ==> r.value == Search(s, term, fields, includeDeleted)
  {
    if exists f | f in fields :: f !in w.searchable then Err(ValueError)
    else Ok(Search(s, term, fields, includeDeleted))
  }

  /**
   * A keyword outside writable_fields is refused with AttributeError and the
   * table is left as it was; for update this comes before the id is looked up.
   */
  lemma WhitelistRefusesFirst(w: Whitelist, s: Store, id: Id, data: Fields, f: string, commitOk: bool)
    requires Consistent(s) && f in data && f !in w.writable
    ensures GuardedCreate(w, s, data, commitOk) == Outcome(Err(AttributeError), s)
    ensures GuardedUpdate(w, s, id, data, commitOk) == Outcome(Err(AttributeError), s)
    ensures !AttributeError.IsServiceException()
  {
  }

  /** Within the whitelist, create and update behave as BaseService's and keep the table consistent. */
  lemma WhitelistPassesThrough(w: Whitelist, s: Store, id: Id, data: Fields, commitOk: bool)
    requires Consistent(s) && data.Keys <= w.writable
    ensures GuardedCreate(w, s, data, commitOk) == CreateEffect(s, data, commitOk)
    ensures GuardedUpdate(w, s, id, data, commitOk) == UpdateEffect(s, id, data, commitOk)
    ensures Consistent(GuardedCreate(w, s, data, commitOk).store)
    ensures Consistent(GuardedUpdate(w, s, id, data, commitOk).store)
  {
    CreateKeepsConsistency(s, data, commitOk);
    UpdateKeepsConsistency(s, id, data, commitOk);
  }

  method Create(w: Whitelist, t: Table, data: Fields, commitOk: bool) returns (r: Result<Row, Error>)
    requires t.Valid()
    modifies t
    ensures t.Valid()
    ensures Outcome(r, t.State()) == GuardedCreate(w, old(t.State()), data, commitOk)
  {
    if !(data.Keys <= w.writable) {
      return Err(AttributeError);
    }
    r := BaseService.Create(t, data, commitOk);
  }

  method Update(w: Whitelist, t: Table, id: Id, data: Fields, commitOk: bool) returns (r: Result<Row, Error>)
    requires t.Valid()
    modifies t
    ensures t.Valid()
    ensures Outcome(r, t.State()) == GuardedUpdate(w, old(t.State()), id, data, commitOk)
  {
    if !(data.Keys <= w.writable) {
      return Err(AttributeError);
    }
    r := BaseService.Update(t, id, data, commitOk);
  }
}
