/**
 * The services of apps/authentication/services.py: the whitelists of the four
 * service classes, the first-match lookups, the UserService business
 * operations, the soft-delete cascade from a user to its OAuth rows, and the
 * two Flask-Login loaders.
 */
module AuthServices {
  import opened Common
  import opened Exceptions
  import opened Entities
  import opened Models
  import opened BaseService
  import opened BaseServiceBulk
  import opened PromptService

  const RoleWhitelist: Whitelist := Whitelist({"name", "description"}, {"name", "description"})
  const GroupWhitelist: Whitelist := Whitelist({"name", "description"}, {"name", "description"})
  const OAuthWhitelist: Whitelist := Whitelist({"user_id"}, {"user_id"})
  const UserWhitelist: Whitelist := Whitelist(
    {"username", "email", "password", "phone", "bio", "role_id", "group_id", "oauth_github", "oauth_google"},
    {"username", "email", "phone", "bio"})

  /**
   * Every whitelisted name is a column of its model; of the user's columns
   * only last_login_at is not writable through the service, and of the OAuth
   * columns only user_id is (provider and token are not).
   */
  lemma WhitelistsAreColumns()
    ensures RoleWhitelist.writable == Columns(Role) && RoleWhitelist.searchable == Columns(Role)
    ensures GroupWhitelist.writable == Columns(Group) && GroupWhitelist.searchable == Columns(Group)
    ensures OAuthWhitelist.writable == OAuthWhitelist.searchable == Columns(OAuth) - {"provider", "token"}
    ensures UserWhitelist.writable == Columns(User) - {"last_login_at"}
    ensures UserWhitelist.searchable < UserWhitelist.writable
  {
  }

  /**
   * OAuthService.create cannot succeed: the whitelist admits only user_id, and
   * the NOT NULL columns provider and token are then left NULL.
   */
  lemma OAuthCreateAlwaysFails(s: Store, data: Fields, commitOk: bool)
    requires s.kind == OAuth
    ensures GuardedCreate(OAuthWhitelist, s, data, commitOk).result.Err?
    ensures GuardedCreate(OAuthWhitelist, s, data, commitOk).store == s
  {
    if data.Keys <= OAuthWhitelist.writable {
      var row := Row(s.nextId, Construct(OAuth, data), DeletedAfter(data, None));
      assert "provider" !in data && row.fields["provider"] == Null;
      assert !Complete(OAuth, row.fields);
      assert s.rows[s.nextId := row][s.nextId] == row;
    }
  }

  // ---------------------------------------------------------------------
  // Lookups
  // ---------------------------------------------------------------------

  /** find_by_filter(column=value) and take rows[0] if there is one. */
  function FirstWith(s: Store, column: string, v: Value, includeDeleted: bool): (r: Option<Row>)
    requires Consistent(s) && column in Attributes(s.kind)
    ensures r.Some? ==> r.value.id in s.rows && s.rows[r.value.id] == r.value && InScope(r.value, includeDeleted) && r.value.Get(column) == v
    ensures r.None? ==> forall id | id in s.rows && InScope(s.rows[id], includeDeleted) :: s.rows[id].Get(column) != v
  {
    var found := FindByFilter(s, includeDeleted, map[column := v]);
    assert forall x: Row :: Matches(x, map[column := v]) <==> x.Get(column) == v;
    if found.Err? || found.value == [] then None else Some(found.value[0])
  }

  /** RoleService / GroupService.find_by_name. */
  function FindByName(s: Store, name: string, includeDeleted: bool): Option<Row>
    requires Consistent(s) && (s.kind == Role || s.kind == Group)
  {
    FirstWith(s, "name", Str(name), includeDeleted)
  }

  /** UserService.find_by_username. */
  function FindByUsername(s: Store, username: string, includeDeleted: bool): Option<Row>
    requires Consistent(s) && s.kind == User
  {
    FirstWith(s, "username", Str(username), includeDeleted)
  }

  /** UserService.find_by_email. */
  function FindByEmail(s: Store, email: string, includeDeleted: bool): Option<Row>
    requires Consistent(s) && s.kind == User
  {
    FirstWith(s, "email", Str(email), includeDeleted)
  }

  /**
   * The first match of a lookup on a unique column is the only row holding
   * that value, in any scope: find_by_name / find_by_username /
   * find_by_email return the one row with that value, or None when no
   * in-scope row has it.
   */
  lemma UniqueLookup(s: Store, column: string, v: string, includeDeleted: bool)
    requires Consistent(s) && column in UniqueColumns(s.kind)
    ensures var r := FirstWith(s, column, Str(v), includeDeleted);
            && (r.Some? ==> forall id | id in s.rows && s.rows[id].Get(column) == Str(v) :: id == r.value.id)
            && (r.None? <==> forall id | id in s.rows && InScope(s.rows[id], includeDeleted) :: s.rows[id].Get(column) != Str(v))
  {
    var r := FirstWith(s, column, Str(v), includeDeleted);
    if r.Some? {
      forall id | id in s.rows && s.rows[id].Get(column) == Str(v) ensures id == r.value.id {
        assert s.rows[id].fields[column] == Str(v);
      }
    }
  }

  /** find_by_role / find_by_group: every in-scope user holding that id, by ascending id. */
  function FindByRef(s: Store, column: string, ref: int, includeDeleted: bool): (r: seq<Row>)
    requires Consistent(s) && s.kind == User && (column == "role_id" || column == "group_id")
    ensures forall i | 0 <= i < |r| :: r[i].id in s.rows && s.rows[r[i].id] == r[i] && InScope(r[i], includeDeleted) && r[i].fields[column] == Int(ref)
    ensures forall id | id in s.rows && InScope(s.rows[id], includeDeleted) && s.rows[id].fields[column] == Int(ref) :: s.rows[id] in r
  {
    var found := FindByFilter(s, includeDeleted, map[column := Int(ref)]);
    assert forall x: Row :: Matches(x, map[column := Int(ref)]) <==> x.Get(column) == Int(ref);
    if found.Err? then [] else found.value
  }

  /**
   * is_username_available / is_email_available as written: find_by_filter
   * returns a list, and a list has no first(), so the call raises the bare
   * AttributeError whatever the table holds.
   */
  function IsAvailableAsWritten(s: Store, column: string, v: string): (r: Result<bool, Error>)
    requires Consistent(s) && s.kind == User && (column == "username" || column == "email")
    ensures r == Err(AttributeError)
  {
    var found := FindByFilter(s, false, map[column := Str(v)]);
    if found.Ok? then Err(AttributeError) else Err(found.error)
  }

  /** is_username_available / is_email_available as documented: no active user holds the value. */
  function IsAvailable(s: Store, column: string, v: string): (r: bool)
    requires Consistent(s) && s.kind == User && (column == "username" || column == "email")
    ensures r <==> forall id | id in s.rows && s.rows[id].Active() :: s.rows[id].fields[column] != Str(v)
  {
    FirstWith(s, column, Str(v), false).None?
  }

  /**
   * The documented check looks only at active users, but UNIQUE counts
   * soft-deleted ones: a name held by a soft-deleted user reads as available
   * and still cannot be registered, even by the intended register.
   */
  lemma AvailableButTaken(s: Store, username: string, email: string, hashed: seq<bv8>, id: Id, commitOk: bool)
    requires Consistent(s) && s.kind == User
    requires id in s.rows && !s.rows[id].Active() && s.rows[id].fields["username"] == Str(username)
    requires forall x | x in s.rows && s.rows[x].Active() :: s.rows[x].fields["username"] != Str(username)
    ensures IsAvailable(s, "username", username)
    ensures RegisterHashedEffect(s, username, email, hashed, map[], commitOk) == Outcome(Err(CreateFailed), s)
  {
    RegisterHashedStores(s, username, email, hashed, map[], commitOk);
    assert s.rows[id].fields["username"] == Str(username);
  }

  // ---------------------------------------------------------------------
  // UserService writes
  // ---------------------------------------------------------------------

  /**
   * register as written: create(username=..., email=..., password=..., **extra).
   * A keyword given twice is a TypeError before create runs. The password goes
   * in as the str it was given: nothing on this path hashes it.
   */
  function RegisterEffect(s: Store, username: string, email: string, password: string, extra: Fields, commitOk: bool): Outcome<Row> {
    if "username" in extra || "email" in extra || "password" in extra then Outcome(Err(TypeError), s)
    else GuardedCreate(UserWhitelist, s, extra + map["username" := Str(username), "email" := Str(email), "password" := Str(password)], commitOk)
  }

  /**
   * As written, register never stores a user: a repeated keyword is a
   * TypeError, an extra outside the whitelist an AttributeError, and otherwise
   * the str password does not fit the LargeBinary column, so the save is
   * refused and create reports CreateFailed.
   */
  lemma RegisterRefusedAsWritten(s: Store, username: string, email: string, password: string, extra: Fields, commitOk: bool)
    requires Consistent(s) && s.kind == User
    ensures var o := RegisterEffect(s, username, email, password, extra, commitOk);
            && o.store == s
            && ("username" in extra || "email" in extra || "password" in extra ==> o.result == Err(TypeError))
            && (!("username" in extra || "email" in extra || "password" in extra) ==>
                  o.result == if extra.Keys <= UserWhitelist.writable then Err(CreateFailed) else Err(AttributeError))
  {
    var data := extra + map["username" := Str(username), "email" := Str(email), "password" := Str(password)];
    if !("username" in extra || "email" in extra || "password" in extra) && data.Keys <= UserWhitelist.writable {
      var row := Row(s.nextId, Construct(User, data), DeletedAfter(data, None));
      assert row.fields["password"] == Str(password);
      assert !Typed(User, row.fields);
      assert s.rows[s.nextId := row][s.nextId] == row;
    }
  }

  /**
   * register as its docstring intends ("the password is hashed
   * automatically"): the stored password is hash_pass(password), passed in as
   * `hashed` because the hashing module is not part of this model.
   */
  function RegisterHashedEffect(s: Store, username: string, email: string, hashed: seq<bv8>, extra: Fields, commitOk: bool): Outcome<Row> {
    if "username" in extra || "email" in extra || "password" in extra then Outcome(Err(TypeError), s)
    else GuardedCreate(UserWhitelist, s, extra + map["username" := Str(username), "email" := Str(email), "password" := Bytes(hashed)], commitOk)
  }

  /**
   * The intended register succeeds exactly when the commit goes through, no
   * keyword is repeated, every extra is whitelisted, and no stored user
   * (soft-deleted ones included) holds the username or the email. It then
   * stores a new active user with those values, the hashed password and the
   * extras.
   */
  lemma RegisterHashedStores(s: Store, username: string, email: string, hashed: seq<bv8>, extra: Fields, commitOk: bool)
    requires Consistent(s) && s.kind == User
    ensures var o := RegisterHashedEffect(s, username, email, hashed, extra, commitOk);
            o.result.Ok? <==>
              && commitOk
              && !("username" in extra || "email" in extra || "password" in extra)
              && extra.Keys <= UserWhitelist.writable
              && (forall id | id in s.rows :: s.rows[id].fields["username"] != Str(username) && s.rows[id].fields["email"] != Str(email))
    ensures var o := RegisterHashedEffect(s, username, email, hashed, extra, commitOk);
            o.result.Ok? ==>
              && o.result.value.Active()
              && o.result.value.id !in s.rows
              && o.store.rows == s.rows[o.result.value.id := o.result.value]
              && o.result.value.Get("username") == Str(username)
              && o.result.value.Get("email") == Str(email)
              && o.result.value.Get("password") == Bytes(hashed)
              && (forall c | c in extra :: o.result.value.Get(c) == extra[c])
    ensures var o := RegisterHashedEffect(s, username, email, hashed, extra, commitOk);
            o.result.Err? ==>
              && o.store == s
              && o.result.error == if "username" in extra || "email" in extra || "password" in extra then TypeError
                                   else if !(extra.Keys <= UserWhitelist.writable) then AttributeError
                                   else CreateFailed
  {
    var data := extra + map["username" := Str(username), "email" := Str(email), "password" := Bytes(hashed)];
    if !("username" in extra || "email" in extra || "password" in extra) && data.Keys <= UserWhitelist.writable {
      HashedCreate(s, data, username, email, commitOk);
      forall c | c in extra ensures data[c] == extra[c] {
      }
    }
  }

  /**
   * create of whitelisted user data holding a username, an email and a bytes
   * password: it stores the built row exactly when the commit goes through
   * and nobody holds the username or email, and otherwise is CreateFailed.
   */
  lemma HashedCreate(s: Store, data: Fields, username: string, email: string, commitOk: bool)
    requires Consistent(s) && s.kind == User && data.Keys <= UserWhitelist.writable
    requires "username" in data && data["username"] == Str(username)
    requires "email" in data && data["email"] == Str(email)
    requires "password" in data && data["password"].Bytes?
    ensures var o := CreateEffect(s, data, commitOk);
            && (o.result.Ok? <==> commitOk && forall id | id in s.rows :: s.rows[id].fields["username"] != Str(username) && s.rows[id].fields["email"] != Str(email))
            && (o.result.Ok? ==> o.result.value.id == s.nextId && o.result.value.Active() && o.store.rows == s.rows[s.nextId := o.result.value])
            && (o.result.Ok? ==> forall c | c in data :: o.result.value.Get(c) == data[c])
            && (o.result.Err? ==> o == Outcome(Err(CreateFailed), s))
  {
    assert "deleted_at" !in data;
    var row := Row(s.nextId, Construct(User, data), None);
    assert row.fields["username"] == Str(username) && row.fields["email"] == Str(email);
    forall c | c in data ensures row.Get(c) == data[c] {
      assert c != "id" && c != "deleted_at" && c in Columns(User);
    }
    HashedUserTyped(data);
    NewUserAdmissible(s, row, username, email);
  }

  /** The columns built from whitelisted data with a bytes password fit their types. */
  lemma HashedUserTyped(data: Fields)
    requires data.Keys <= UserWhitelist.writable
    requires "password" in data && data["password"].Bytes?
    ensures Typed(User, Construct(User, data))
  {
    var f := Construct(User, data);
    forall c | c in f ensures FitsType(User, c, f[c]) {
      if c == "last_login_at" {
        assert c !in data;
      }
    }
  }

  /**
   * A well-typed new user holding a username and an email can be stored
   * exactly when no stored user, soft-deleted or not, holds either of them.
   */
  lemma NewUserAdmissible(s: Store, row: Row, username: string, email: string)
    requires Consistent(s) && s.kind == User && row.id == s.nextId
    requires Typed(User, row.fields)
    requires "username" in row.fields && row.fields["username"] == Str(username)
    requires "email" in row.fields && row.fields["email"] == Str(email)
    ensures Admissible(User, s.rows[row.id := row]) <==>
              forall id | id in s.rows :: s.rows[id].fields["username"] != Str(username) && s.rows[id].fields["email"] != Str(email)
  {
    if forall id | id in s.rows :: s.rows[id].fields["username"] != Str(username) && s.rows[id].fields["email"] != Str(email) {
      forall x | x in s.rows
        ensures Distinct(User, row.fields, s.rows[x].fields) && Distinct(User, s.rows[x].fields, row.fields)
      {
      }
      AdmitNewRow(s, row);
    } else {
      var id :| id in s.rows && (s.rows[id].fields["username"] == Str(username) || s.rows[id].fields["email"] == Str(email));
      if s.rows[id].fields["username"] == Str(username) {
        RowCollides(User, s.rows, row, id, "username");
      } else {
        RowCollides(User, s.rows, row, id, "email");
      }
    }
  }

  /** update_last_login as written: update(uid, last_login_at=now) through the whitelist. */
  function UpdateLastLoginAsWritten(s: Store, uid: Id, now: Time, commitOk: bool): Outcome<Row>
    requires Consistent(s)
  {
    GuardedUpdate(UserWhitelist, s, uid, map["last_login_at" := Stamp(now)], commitOk)
  }

  /** last_login_at is not writable, so update_last_login never stores anything. */
  lemma UpdateLastLoginAlwaysRefused(s: Store, uid: Id, now: Time, commitOk: bool)
    requires Consistent(s)
    ensures UpdateLastLoginAsWritten(s, uid, now, commitOk) == Outcome(Err(AttributeError), s)
  {
    assert "last_login_at" in map["last_login_at" := Stamp(now)].Keys;
  }

  /** update_last_login as evidently intended: stamp the column through BaseService.update. */
  function UpdateLastLogin(s: Store, uid: Id, now: Time, commitOk: bool): Outcome<Row>
    requires Consistent(s)
  {
    UpdateEffect(s, uid, map["last_login_at" := Stamp(now)], commitOk)
  }

  /**
   * The intended update_last_login stamps last_login_at of that user, soft-
   * deleted or not, and changes nothing else; an absent id is RecordNotFound.
   */
  lemma UpdateLastLoginStamps(s: Store, uid: Id, now: Time)
    requires Consistent(s) && s.kind == User
    ensures uid !in s.rows ==> UpdateLastLogin(s, uid, now, true) == Outcome(Err(RecordNotFound), s)
    ensures uid in s.rows ==>
              var o := UpdateLastLogin(s, uid, now, true);
              o.result.Ok?
              && o.store.rows == s.rows[uid := s.rows[uid].(fields := s.rows[uid].fields["last_login_at" := Stamp(now)])]
  {
    if uid in s.rows {
      SetOneColumn(s.rows, uid, "last_login_at", Stamp(now));
    }
  }

  /** Assigning one nullable, non-unique column of a user a value its type accepts never breaks a constraint. */
  lemma SetOneColumn(rows: map<Id, Row>, uid: Id, column: string, v: Value)
    requires Admissible(User, rows) && uid in rows && column in rows[uid].fields
    requires column != "username" && column != "email" && FitsType(User, column, v)
    ensures var row := rows[uid];
            && Assigned(row.fields, map[column := v]) == row.fields[column := v]
            && Admissible(User, rows[uid := row.(fields := row.fields[column := v])])
  {
    var row := rows[uid];
    var f := row.fields[column := v];
    var rows' := rows[uid := row.(fields := f)];
    assert Typed(User, row.fields);
    forall a, b | a in rows' && b in rows' && a != b ensures Distinct(User, rows'[a].fields, rows'[b].fields) {
      assert Distinct(User, rows[a].fields, rows[b].fields);
      if a == uid {
        DistinctOnlyOnUnique(User, row.fields, f, rows[b].fields);
      } else if b == uid {
        DistinctOnlyOnUnique(User, row.fields, f, rows[a].fields);
      }
    }
  }

  /** set_password as written: update(uid, password=new) through the whitelist, the str unhashed. */
  function SetPasswordEffect(s: Store, uid: Id, newPassword: string, commitOk: bool): Outcome<Row>
    requires Consistent(s)
  {
    GuardedUpdate(UserWhitelist, s, uid, map["password" := Str(newPassword)], commitOk)
  }

  /**
   * As written, set_password never changes a password: an absent id is
   * RecordNotFound, and for a stored user the str does not fit the
   * LargeBinary column, so the save is refused and update reports
   * UpdateFailed.
   */
  lemma SetPasswordRefusedAsWritten(s: Store, uid: Id, newPassword: string, commitOk: bool)
    requires Consistent(s) && s.kind == User
    ensures SetPasswordEffect(s, uid, newPassword, commitOk) == Outcome(Err(if uid in s.rows then UpdateFailed else RecordNotFound), s)
  {
    if uid in s.rows {
      var row := Applied(s.rows[uid], map["password" := Str(newPassword)]);
      assert row.fields["password"] == Str(newPassword);
      assert !Typed(User, row.fields);
      assert s.rows[uid := row][uid] == row;
    }
  }

  /** set_password as intended: the stored password is hash_pass(new), passed in as `hashed`. */
  function SetPasswordHashedEffect(s: Store, uid: Id, hashed: seq<bv8>, commitOk: bool): Outcome<Row>
    requires Consistent(s)
  {
    GuardedUpdate(UserWhitelist, s, uid, map["password" := Bytes(hashed)], commitOk)
  }

  /**
   * The intended set_password replaces the password of any stored user,
   * soft-deleted ones included, leaves every other column and row as it was,
   * and reports RecordNotFound only for an absent id.
   */
  lemma SetPasswordReplaces(s: Store, uid: Id, hashed: seq<bv8>)
    requires Consistent(s) && s.kind == User
    ensures uid !in s.rows ==> SetPasswordHashedEffect(s, uid, hashed, true) == Outcome(Err(RecordNotFound), s)
    ensures uid in s.rows ==>
              var o := SetPasswordHashedEffect(s, uid, hashed, true);
              o.result.Ok?
              && o.store.rows == s.rows[uid := s.rows[uid].(fields := s.rows[uid].fields["password" := Bytes(hashed)])]
  {
    if uid in s.rows {
      SetOneColumn(s.rows, uid, "password", Bytes(hashed));
    }
  }

  /**
   * verify_password: `user and verify_pass(raw, user.password)`. The hash
   * check is the parameter `verify`; a missing or soft-deleted user is false.
   */
  function VerifyPassword(s: Store, uid: Id, raw: string, verify: (string, Value) -> bool): (r: bool)
    requires Consistent(s) && s.kind == User
    ensures r <==> uid in s.rows && s.rows[uid].Active() && verify(raw, s.rows[uid].Get("password"))
  {
    var user := GetById(s, uid, false);
    user.Some? && verify(raw, user.value.Get("password"))
  }

  /**
   * bulk_update with one column: each reported success is the original row
   * with just that column replaced; rows not reported are unchanged. This is
   * bulk_update_role / bulk_update_group, and it holds for a column outside
   * the whitelist too, since the bulk writes are not guarded.
   */
  lemma BulkSetColumn(s: Store, ids: seq<Id>, column: string, v: Value, failing: set<Id>)
    requires Consistent(s) && column in Columns(s.kind)
    ensures var r := UpdateRun(s, GetByIds(s, ids, true), map[column := v], failing);
            forall k | 0 <= k < |r.success| ::
              && r.success[k].id in s.rows
              && r.success[k] == s.rows[r.success[k].id].(fields := s.rows[r.success[k].id].fields[column := v])
              && r.success[k].id in r.store.rows
              && r.store.rows[r.success[k].id] == r.success[k]
    ensures var r := UpdateRun(s, GetByIds(s, ids, true), map[column := v], failing);
            forall id | id in s.rows && id !in IdsOf(r.success) :: id in r.store.rows && r.store.rows[id] == s.rows[id]
  {
    var items := GetByIds(s, ids, true);
    var data := map[column := v];
    UpdateRunRows(s, items, data, failing);
    var r := UpdateRun(s, items, data, failing);
    assert "deleted_at" !in Columns(s.kind);
    forall k | 0 <= k < |r.success|
      ensures r.success[k] == s.rows[r.success[k].id].(fields := s.rows[r.success[k].id].fields[column := v])
    {
      AssignOne(s.rows[r.success[k].id], column, v);
    }
  }

  lemma AssignOne(row: Row, column: string, v: Value)
    requires column in row.fields && column != "deleted_at"
    ensures Applied(row, map[column := v]) == row.(fields := row.fields[column := v])
  {
  }

  /**
   * bulk_update_role / bulk_update_group: only listed users change, and of
   * them only role_id (resp. group_id).
   */
  lemma BulkSetReference(s: Store, userIds: seq<Id>, column: string, refId: int, failing: set<Id>)
    requires Consistent(s) && s.kind == User && (column == "role_id" || column == "group_id")
    ensures var r := UpdateRun(s, GetByIds(s, userIds, true), map[column := Int(refId)], failing);
            && r.store.rows.Keys == s.rows.Keys
            && forall id | id in s.rows ::
                 r.store.rows[id] == s.rows[id]
                 || (id in userIds && r.store.rows[id] == s.rows[id].(fields := s.rows[id].fields[column := Int(refId)]))
  {
    var items := GetByIds(s, userIds, true);
    var data := map[column := Int(refId)];
    BulkSetColumn(s, userIds, column, Int(refId), failing);
    UpdateRunCounts(s, items, data, failing);
    UpdateRunListed(s, userIds, data, failing);
  }

  /** The bulk writes skip the whitelist: bulk_update stores last_login_at, which update refuses. */
  lemma BulkUpdateBypassesWhitelist(s: Store, userIds: seq<Id>, now: Time, failing: set<Id>)
    requires Consistent(s) && s.kind == User
    ensures "last_login_at" !in UserWhitelist.writable
    ensures var r := UpdateRun(s, GetByIds(s, userIds, true), map["last_login_at" := Stamp(now)], failing);
            forall k | 0 <= k < |r.success| :: "last_login_at" in r.success[k].fields && r.success[k].fields["last_login_at"] == Stamp(now)
  {
    BulkSetColumn(s, userIds, "last_login_at", Stamp(now), failing);
  }

  method Register(t: Table, username: string, email: string, password: string, extra: Fields, commitOk: bool)
    returns (r: Result<Row, Error>)
    requires t.Valid()
    modifies t
    ensures t.Valid()
    ensures Outcome(r, t.State()) == RegisterEffect(old(t.State()), username, email, password, extra, commitOk)
  {
    if "username" in extra || "email" in extra || "password" in extra {
      return Err(TypeError);
    }
    var data := extra + map["username" := Str(username), "email" := Str(email), "password" := Str(password)];
    r := PromptService.Create(UserWhitelist, t, data, commitOk);
  }

  method UpdateLastLoginCall(t: Table, uid: Id, now: Time, commitOk: bool) returns (r: Result<Row, Error>)
    requires t.Valid()
    modifies t
    ensures t.Valid()
    ensures Outcome(r, t.State()) == UpdateLastLoginAsWritten(old(t.State()), uid, now, commitOk)
  {
    r := PromptService.Update(UserWhitelist, t, uid, map["last_login_at" := Stamp(now)], commitOk);
  }

  method SetPassword(t: Table, uid: Id, newPassword: string, commitOk: bool) returns (r: Result<Row, Error>)
    requires t.Valid()
    modifies t
    ensures t.Valid()
    ensures Outcome(r, t.State()) == SetPasswordEffect(old(t.State()), uid, newPassword, commitOk)
  {
    r := PromptService.Update(UserWhitelist, t, uid, map["password" := Str(newPassword)], commitOk);
  }

  method BulkUpdateRole(t: Table, userIds: seq<Id>, roleId: int, failing: set<Id>) returns (success: seq<Row>, errors: seq<Id>)
    requires t.Valid()
    modifies t
    ensures t.Valid()
    ensures Report(t.State(), success, errors) == UpdateRun(old(t.State()), GetByIds(old(t.State()), userIds, true), map["role_id" := Int(roleId)], failing)
  {
    success, errors := BulkUpdate(t, userIds, map["role_id" := Int(roleId)], failing);
  }

  method BulkUpdateGroup(t: Table, userIds: seq<Id>, groupId: int, failing: set<Id>) returns (success: seq<Row>, errors: seq<Id>)
    requires t.Valid()
    modifies t
    ensures t.Valid()
    ensures Report(t.State(), success, errors) == UpdateRun(old(t.State()), GetByIds(old(t.State()), userIds, true), map["group_id" := Int(groupId)], failing)
  {
    success, errors := BulkUpdate(t, userIds, map["group_id" := Int(groupId)], failing);
  }

  // ---------------------------------------------------------------------
  // UserService.soft_delete: the user, then every OAuth row of that user
  // ---------------------------------------------------------------------

  /** OAuthService.find_by_filter(user_id=uid, include_deleted=True), as ids. */
  function OwnedBy(o: Store, uid: Id): (r: seq<Id>)
    requires Consistent(o) && o.kind == OAuth
    ensures forall x :: x in r <==> x in o.rows && o.rows[x].Get("user_id") == Int(uid)
  {
    FilterByOwner(o, uid);
    IdsOf(FindByFilter(o, true, map["user_id" := Int(uid)]).value)
  }

  /** user_id is an OAuth column, so the filter succeeds and finds exactly the user's rows. */
  lemma FilterByOwner(o: Store, uid: Id)
    requires Consistent(o) && o.kind == OAuth
    ensures FindByFilter(o, true, map["user_id" := Int(uid)]).Ok?
    ensures var rows := FindByFilter(o, true, map["user_id" := Int(uid)]).value;
            forall x :: x in IdsOf(rows) <==> x in o.rows && o.rows[x].Get("user_id") == Int(uid)
  {
    assert map["user_id" := Int(uid)].Keys <= Attributes(OAuth);
    var rows := FindByFilter(o, true, map["user_id" := Int(uid)]).value;
    forall x ensures x in IdsOf(rows) <==> x in o.rows && o.rows[x].Get("user_id") == Int(uid) {
      if x in IdsOf(rows) {
        FoundIsOwned(o, uid, rows, x);
      }
      if x in o.rows && o.rows[x].Get("user_id") == Int(uid) {
        OwnedIsFound(o, uid, rows, x);
      }
    }
  }

  lemma FoundIsOwned(o: Store, uid: Id, rows: seq<Row>, x: Id)
    requires Consistent(o) && o.kind == OAuth
    requires FindByFilter(o, true, map["user_id" := Int(uid)]) == Ok(rows)
    requires x in IdsOf(rows)
    ensures x in o.rows && o.rows[x].Get("user_id") == Int(uid)
  {
    var k :| 0 <= k < |rows| && IdsOf(rows)[k] == x;
    assert rows[k].id == x && o.rows[x] == rows[k];
    assert Matches(rows[k], map["user_id" := Int(uid)]);
  }

  lemma OwnedIsFound(o: Store, uid: Id, rows: seq<Row>, x: Id)
    requires Consistent(o) && o.kind == OAuth
    requires FindByFilter(o, true, map["user_id" := Int(uid)]) == Ok(rows)
    requires x in o.rows && o.rows[x].Get("user_id") == Int(uid)
    ensures x in IdsOf(rows)
  {
    assert Matches(o.rows[x], map["user_id" := Int(uid)]);
    var k :| 0 <= k < |rows| && rows[k] == o.rows[x];
    assert IdsOf(rows)[k] == x;
  }

  /** The OAuth table after the cascade for uid, when the commits of `failing` are refused. */
  function Cascade(o: Store, uid: Id, failing: set<Id>): Store
    requires Consistent(o) && o.kind == OAuth
  {
    o.(rows := Without(o.rows, Passed(HardDeleteTargets(o, OwnedBy(o, uid)), failing)))
  }

  /**
   * After the cascade the only OAuth rows of that user left are those whose
   * delete was refused (none when every commit goes through), soft-deleted
   * rows included; rows of other users are untouched.
   */
  lemma CascadeClearsOAuth(o: Store, uid: Id, failing: set<Id>)
    requires Consistent(o) && o.kind == OAuth
    ensures var c := Cascade(o, uid, failing);
            && c.rows.Keys <= o.rows.Keys
            && (forall x | x in c.rows :: c.rows[x] == o.rows[x] && (o.rows[x].Get("user_id") == Int(uid) ==> x in failing))
            && (forall x | x in o.rows && o.rows[x].Get("user_id") != Int(uid) :: x in c.rows)
  {
    BulkHardDeleteReport(o, OwnedBy(o, uid), failing);
  }

  method SoftDeleteUser(users: Table, oauths: Table, id: Id, now: Time, commitOk: bool, failing: set<Id>)
    returns (r: Result<Row, Error>)
    requires users != oauths && users.Valid() && oauths.Valid() && users.kind == User && oauths.kind == OAuth
    modifies users, oauths
    ensures users.Valid() && oauths.Valid()
    ensures Outcome(r, users.State()) == SoftDeleteEffect(old(users.State()), id, now, commitOk)
    ensures r.Err? ==> oauths.State() == old(oauths.State())
    ensures r.Ok? ==> oauths.State() == Cascade(old(oauths.State()), id, failing)
  {
    r := BaseService.SoftDelete(users, id, now, commitOk);
    if r.Err? {
      return;
    }
    var owned := OwnedBy(oauths.State(), id);
    var _, _ := BulkHardDelete(oauths, owned, failing);
  }

  // ---------------------------------------------------------------------
  // Flask-Login callbacks
  // ---------------------------------------------------------------------

  /** user_loader: only an active user is loaded. */
  function UserLoader(s: Store, uid: Id): (r: Option<Row>)
    requires Consistent(s) && s.kind == User
    ensures r.Some? <==> uid in s.rows && s.rows[uid].Active()
    ensures r.Some? ==> r.value == s.rows[uid]
  {
    GetById(s, uid, false)
  }

  /** request_loader: the form's username, when present and non-empty, names the active user loaded. */
  function RequestLoader(s: Store, form: map<string, string>): (r: Option<Row>)
    requires Consistent(s) && s.kind == User
    ensures ("username" !in form || form["username"] == "") ==> r == None
    ensures r.Some? ==> "username" in form && r.value.id in s.rows && s.rows[r.value.id] == r.value
                        && r.value.Active() && r.value.fields["username"] == Str(form["username"])
    ensures ("username" in form && form["username"] != "" && r.None?) ==>
              forall id | id in s.rows && s.rows[id].Active() :: s.rows[id].fields["username"] != Str(form["username"])
  {
    if "username" !in form || form["username"] == "" then None
    else FindByUsername(s, form["username"], false)
  }
}
