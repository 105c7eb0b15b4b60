/**
 * The find-or-create step of the two OAuth callbacks in
 * apps/authentication/oauth.py, after the provider answered (info.ok): look
 * up the one active user holding the provider handle, or build a new user
 * column by column and commit it.
 */
module OAuthLogin {
  import opened Common
  import opened Exceptions
  import opened Entities
  import opened Models

  datatype Provider = GitHub | Google

  /** The user column holding the provider's handle. */
  function HandleColumn(p: Provider): string {
    match p
    case GitHub => "oauth_github"
    case Google => "oauth_google"
  }

  /** The prefix of a synthesized username. */
  function UsernamePrefix(p: Provider): string {
    match p
    case GitHub => "(gh)"
    case Google => "(google)"
  }

  /** What the callback ends in: nothing (info not ok), the user logged in, or a new user. */
  datatype Login = Skipped | LoggedIn(user: Row) | Created(user: Row)

  /** filter_by(<handle column>=handle, deleted_at=None): active users holding the handle. */
  predicate Holds(r: Row, p: Provider, handle: string) {
    r.Active() && r.Get(HandleColumn(p)) == Str(handle)
  }

  function Holders(s: Store, p: Provider, handle: string): (r: seq<Row>)
    requires Consistent(s)
    ensures forall i | 0 <= i < |r| :: Holds(r[i], p, handle) && r[i].id in s.rows && s.rows[r[i].id] == r[i]
    ensures forall id | id in s.rows && Holds(s.rows[id], p, handle) :: s.rows[id] in r
    ensures Increasing(r)
  {
    Where(s, (x: Row) => Holds(x, p, handle))
  }

  /**
   * User(), then username := prefix + handle, <handle column> := handle, and
   * for Google email := the account's email; every other column is NULL.
   */
  function NewUserFields(p: Provider, handle: string, email: string): (f: Fields)
    ensures f.Keys == Columns(User)
  {
    var blank := map c | c in Columns(User) :: Null;
    var named := blank["username" := Str(UsernamePrefix(p) + handle)][HandleColumn(p) := Str(handle)];
    if p == Google then named["email" := Str(email)] else named
  }

  /** The user a callback builds leaves password and last_login_at NULL, so it fits every column type. */
  lemma NewUserTyped(p: Provider, handle: string, email: string)
    ensures var f := NewUserFields(p, handle, email);
            f["password"] == Null && f["last_login_at"] == Null && Typed(User, f)
  {
  }

  /** The callback body under `if info.ok`, with query.one() and the commit. */
  function LoginEffect(s: Store, p: Provider, infoOk: bool, handle: string, email: string, commitOk: bool): Outcome<Login>
    requires Consistent(s) && s.kind == User
  {
    if !infoOk then Outcome(Ok(Skipped), s)
    else
      var m := Holders(s, p, handle);
      if |m| == 1 then Outcome(Ok(LoggedIn(m[0])), s)
      else if |m| > 1 then Outcome(Err(MultipleResultsFound), s)
      else
        var o := SaveNew(s, NewUserFields(p, handle, email), None, commitOk);
        if o.result.Ok? then Outcome(Ok(Created(o.result.value)), o.store)
        else Outcome(Err(IntegrityError), s)
  }

  /** When exactly one active user holds the handle, Holders is that user. */
  lemma SingleHolder(s: Store, p: Provider, handle: string, id: Id)
    requires Consistent(s) && id in s.rows && Holds(s.rows[id], p, handle)
    requires forall x | x in s.rows && Holds(s.rows[x], p, handle) :: x == id
    ensures Holders(s, p, handle) == [s.rows[id]]
  {
    WhereOne(s, (x: Row) => Holds(x, p, handle), id);
  }

  /** Nothing happens when the provider did not answer. */
  lemma InfoNotOkDoesNothing(s: Store, p: Provider, handle: string, email: string, commitOk: bool)
    requires Consistent(s) && s.kind == User
    ensures LoginEffect(s, p, false, handle, email, commitOk) == Outcome(Ok(Skipped), s)
  {
  }

  /** One active holder of the handle is reused and no row is added. */
  lemma ExistingUserReused(s: Store, p: Provider, handle: string, email: string, commitOk: bool, id: Id)
    requires Consistent(s) && s.kind == User && id in s.rows && Holds(s.rows[id], p, handle)
    requires forall x | x in s.rows && Holds(s.rows[x], p, handle) :: x == id
    ensures LoginEffect(s, p, true, handle, email, commitOk) == Outcome(Ok(LoggedIn(s.rows[id])), s)
  {
    SingleHolder(s, p, handle, id);
  }

  /** Two active holders make query.one() raise, and nothing is added. */
  lemma SeveralHoldersRaise(s: Store, p: Provider, handle: string, email: string, commitOk: bool, a: Id, b: Id)
    requires Consistent(s) && s.kind == User && a in s.rows && b in s.rows && a != b
    requires Holds(s.rows[a], p, handle) && Holds(s.rows[b], p, handle)
    ensures LoginEffect(s, p, true, handle, email, commitOk) == Outcome(Err(MultipleResultsFound), s)
  {
    TwoHolders(s, p, handle, a, b);
  }

  /** Two distinct active holders are two entries of the lookup. */
  lemma TwoHolders(s: Store, p: Provider, handle: string, a: Id, b: Id)
    requires Consistent(s) && a in s.rows && b in s.rows && a != b
    requires Holds(s.rows[a], p, handle) && Holds(s.rows[b], p, handle)
    ensures |Holders(s, p, handle)| > 1
  {
    var m := Holders(s, p, handle);
    var i :| 0 <= i < |m| && m[i] == s.rows[a];
    var j :| 0 <= j < |m| && m[j] == s.rows[b];
    assert m[i].id == a && m[j].id == b;
  }

  /**
   * With no active holder, a new active user is created holding the handle
   * and the synthesized username (and, for Google, the email); soft-deleted
   * holders do not count. The commit fails, adding nothing, exactly when it
   * would break a constraint or is refused.
   */
  lemma NoHolderCreates(s: Store, p: Provider, handle: string, email: string, commitOk: bool)
    requires Consistent(s) && s.kind == User
    requires forall x | x in s.rows :: !Holds(s.rows[x], p, handle)
    ensures var o := LoginEffect(s, p, true, handle, email, commitOk);
            var row := Row(s.nextId, NewUserFields(p, handle, email), None);
            if commitOk && Admissible(User, s.rows[s.nextId := row]) then
              && o.result == Ok(Created(row))
              && o.store == s.(rows := s.rows[s.nextId := row], nextId := s.nextId + 1)
              && row.fields["username"] == Str(UsernamePrefix(p) + handle)
              && row.fields[HandleColumn(p)] == Str(handle)
              && (p == Google ==> row.fields["email"] == Str(email))
            else o == Outcome(Err(IntegrityError), s)
  {
    WhereNone(s, (x: Row) => Holds(x, p, handle));
  }

  /**
   * Find-or-create: once a callback has created the user, the same callback
   * again logs that user in and adds no second row.
   */
  lemma FindOrCreateIdempotent(s: Store, p: Provider, handle: string, email: string, commitOk: bool, again: bool)
    requires Consistent(s) && s.kind == User
    ensures var o := LoginEffect(s, p, true, handle, email, commitOk);
            o.result.Ok? && o.result.value.Created? ==>
              && Consistent(o.store)
              && LoginEffect(o.store, p, true, handle, email, again) == Outcome(Ok(LoggedIn(o.result.value.user)), o.store)
  {
    var o := LoginEffect(s, p, true, handle, email, commitOk);
    if o.result.Ok? && o.result.value.Created? {
      assert Holders(s, p, handle) == [];
      CreationLeavesOneHolder(s, p, handle, email, commitOk);
    }
  }

  /** After a successful creation the new user is the one active holder of the handle. */
  lemma CreationLeavesOneHolder(s: Store, p: Provider, handle: string, email: string, commitOk: bool)
    requires Consistent(s) && s.kind == User
    requires forall x | x in s.rows :: !Holds(s.rows[x], p, handle)
    requires SaveNew(s, NewUserFields(p, handle, email), None, commitOk).result.Ok?
    ensures var o := SaveNew(s, NewUserFields(p, handle, email), None, commitOk);
            Consistent(o.store) && Holders(o.store, p, handle) == [o.result.value]
  {
    var f := NewUserFields(p, handle, email);
    var o := SaveNew(s, f, None, commitOk);
    SaveNewKeepsConsistency(s, f, None, commitOk);
    HolderIsNew(s.nextId, p, handle, email);
    assert o.store.rows == s.rows[s.nextId := Row(s.nextId, f, None)];
    SingleHolder(o.store, p, handle, s.nextId);
  }

  /** The user built by a callback holds its handle. */
  lemma HolderIsNew(id: Id, p: Provider, handle: string, email: string)
    ensures Holds(Row(id, NewUserFields(p, handle, email), None), p, handle)
  {
  }

  /**
   * Soft-deleted users are invisible to the lookup but not to UNIQUE: when a
   * soft-deleted user already carries the synthesized username, creation
   * fails with IntegrityError.
   */
  lemma DeletedNamesakeBlocksCreation(s: Store, p: Provider, handle: string, email: string, commitOk: bool, id: Id)
    requires Consistent(s) && s.kind == User
    requires forall x | x in s.rows :: !Holds(s.rows[x], p, handle)
    requires id in s.rows && !s.rows[id].Active() && s.rows[id].fields["username"] == Str(UsernamePrefix(p) + handle)
    ensures LoginEffect(s, p, true, handle, email, commitOk) == Outcome(Err(IntegrityError), s)
  {
    NoHolderCreates(s, p, handle, email, commitOk);
    var row := Row(s.nextId, NewUserFields(p, handle, email), None);
    RowCollides(User, s.rows, row, id, "username");
  }

  /**
   * As the columns are written, username, email and password are NOT NULL,
   * and the user a callback builds has no password (and, from GitHub, no
   * email): the commit can never succeed.
   */
  lemma NewUserRejectedAsWritten(p: Provider, handle: string, email: string)
    ensures !CompleteAsWritten(User, NewUserFields(p, handle, email))
  {
    assert NewUserFields(p, handle, email)["password"] == Null;
  }

  /**
   * With the intended constraints the new user satisfies NOT NULL, and the
   * callback creates it whenever no row holds the synthesized username (or,
   * for Google, the email) and the commit goes through.
   */
  lemma NewUserStoredAsIntended(s: Store, p: Provider, handle: string, email: string)
    requires Consistent(s) && s.kind == User
    requires forall x | x in s.rows :: !Holds(s.rows[x], p, handle)
    requires forall x | x in s.rows :: s.rows[x].fields["username"] != Str(UsernamePrefix(p) + handle)
    requires p == Google ==> forall x | x in s.rows :: s.rows[x].fields["email"] != Str(email)
    ensures Complete(User, NewUserFields(p, handle, email))
    ensures LoginEffect(s, p, true, handle, email, true).result.Ok?
    ensures LoginEffect(s, p, true, handle, email, true).result.value.Created?
  {
    var f := NewUserFields(p, handle, email);
    NewUserTyped(p, handle, email);
    forall x | x in s.rows ensures Distinct(User, f, s.rows[x].fields) && Distinct(User, s.rows[x].fields, f) {
    }
    AdmitNewRow(s, Row(s.nextId, f, None));
    NoHolderCreates(s, p, handle, email, true);
  }

  method LoggedInCallback(t: Table, p: Provider, infoOk: bool, handle: string, email: string, commitOk: bool)
    returns (r: Result<Login, Error>)
    requires t.Valid() && t.kind == User
    modifies t
    ensures t.Valid()
    ensures Outcome(r, t.State()) == LoginEffect(old(t.State()), p, infoOk, handle, email, commitOk)
  {
    if !infoOk {
      return Ok(Skipped);
    }
    var m := Holders(t.State(), p, handle);
    if |m| == 1 {
      return Ok(LoggedIn(m[0]));
    }
    if |m| > 1 {
      return Err(MultipleResultsFound);
    }
    var user := map c | c in Columns(User) :: Null;
    user := user["username" := Str(UsernamePrefix(p) + handle)];
    user := user[HandleColumn(p) := Str(handle)];
    if p == Google {
      user := user["email" := Str(email)];
    }
    var saved := t.Insert(user, None, commitOk);
    if saved.Ok? {
      r := Ok(Created(saved.value));
    } else {
      r := Err(IntegrityError);
    }
  }
}
