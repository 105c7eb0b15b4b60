# Record services of the Flask-AdminLTE admin backend, in Dafny

This project models the service layer of an admin backend built on Flask and
SQLAlchemy. It covers four tables: roles, user groups, users and the OAuth
tokens of users. It models:

- The soft-delete base model (`apps/models.py`). A row is never removed by
  `delete()`. Instead its `deleted_at` column gets the current time. Every
  commit either applies its change or is rolled back. After the rollback
  the source calls `IntegrityError(error, 422)`, which lacks the `orig`
  argument SQLAlchemy's `IntegrityError` requires, so what escapes is a
  `TypeError`. The services wrap it in their own exceptions.
- The generic record service (`apps/services.py`):
  - reads that hide soft-deleted rows unless `include_deleted` is given;
  - single-row create, update, soft delete, hard delete and restore, each
    with its own error;
  - bulk versions that process one row at a time and collect successes and
    errors;
  - the field whitelist of `PromptService`.
- The user, role, group and OAuth services (`apps/authentication/services.py`):
  - whitelists and lookups by name, username, email, role and group;
  - availability checks;
  - register, last login, password change and password check;
  - bulk role and group assignment;
  - the user soft delete that also removes the user's OAuth tokens;
  - the two Flask-Login loaders.
- The find-or-create step of the GitHub and Google login callbacks
  (`apps/authentication/oauth.py`).
- The request schemas (`apps/authentication/schemas.py` over
  `apps/schemas.py`): required and optional fields, defaults, length and
  range bounds, allowed values, extra fields forbidden.
- The pagination helper (`apps/utils/pagination.py`): the rows-per-page
  choice (URL argument, then cookie, then default), the page number, the
  model lookup by name, and the rows-per-page selector.
- The page routes (`apps/home/routes.py`): the two-level sidebar menu,
  template name normalisation and the current-page segment.

Layout:

- The database table is modelled two ways:
  - a value, `Models.Store`, holding the model kind, the rows by id and the
    next id;
  - a class, `Models.Table`, whose methods update those fields in place.
- Each writing service operation is a `method` on a `Table`. Its
  postcondition ties the result and the new table to a pure function on
  `Store`, such as `BaseService.CreateEffect` or `BaseServiceBulk.UpdateRun`.
- The lemmas prove what the source promises about those functions.
- Each bulk operation is a `while` loop over the loaded rows. Its invariant
  follows the report and the table item by item.

Things the model makes explicit:

- The database itself is modelled by three kinds of check, and a commit is
  refused exactly when it would fail one of them:
  - the NOT NULL and UNIQUE constraints of the columns (`Entities`);
  - the types of the two columns whose SQLAlchemy type refuses a value at
    flush: `User.password` is LargeBinary and needs bytes, and
    `User.last_login_at` is a DateTime and needs a timestamp
    (`Entities.FitsType`);
  - the DateTime type of `deleted_at` for the values a service assigns to
    it (`BaseService.Storable`).
- A commit can also fail for reasons outside the model. Those failures come
  in as parameters:
  - a `commitOk` flag for one commit;
  - a set `failing` of the ids or item positions whose commit fails, for a
    bulk run.
- Clock readings are a `now: Time` parameter. `bulk_soft_delete` reads the
  clock once per row, so it takes a function `clock` from a row's id to the
  reading taken when that row is deleted.
- The HTTP request is a value holding its query arguments and cookies, or
  its form.
- The OAuth provider's answer is a flag plus the account handle (and, for
  Google, its email).
- The password hash check is a function parameter.

## Model

| member | source | states |
|---|---|---|
| Text.ParseInt | apps/utils/pagination.py:25 | `int(s)` succeeds exactly for an optional sign followed by one or more decimal digits |
| Text.ParseShow | apps/utils/pagination.py:32-33 | parsing the decimal text of any integer gives that integer back |
| Text.Lower | apps/utils/pagination.py:18 | lower-casing keeps the length, leaves no upper-case letter, and maps each character through the ASCII lower-case map |
| Text.LowerIdempotent | apps/utils/pagination.py:31 | lower-casing twice is lower-casing once |
| Entities.NameIsUnique | apps/authentication/models.py:21-35 | two roles (or two groups) with the same name cannot both be stored |
| Entities.UserKeysAreUnique | apps/authentication/models.py:49-50 | two users sharing a non-null username, or a non-null email, collide |
| Entities.UserMayLackRoleAndGroup | apps/authentication/models.py:56-57 | under the NOT NULL set as written, a complete user stays complete with role_id and group_id set to NULL; neither column is NOT NULL |
| Entities.UserNeedsCredentialsAsWritten | apps/authentication/models.py:49-51 | under the NOT NULL set as written, a user without a username, an email or a password is refused |
| Entities.OAuthNeedsUser | apps/authentication/models.py:74 | an OAuth row without user_id is refused |
| Entities.IntendedIsWeaker | apps/authentication/models.py:49-62 | every row that meets NOT NULL as written also meets the intended NOT NULL constraints |
| Entities.DistinctOnlyOnUnique | apps/authentication/models.py:21-50 | whether two rows collide depends only on their unique columns |
| Models.QueryActive | apps/models.py:83-85 | exactly the stored rows whose deleted_at is NULL, each as stored |
| Models.QueryAll | apps/models.py:88-93 | with include_deleted every stored row, otherwise exactly the active ones |
| Models.QueryAllScopes | apps/models.py:83-93 | query_all(False) is query_active(), and query_all(True) contains every row |
| Models.SaveNewIsFresh | apps/models.py:42-50 | a saved new object gets the next id, which no row had before, keeps the deletion stamp it was built with, and exactly that id is added |
| Models.SaveNewRefused | apps/models.py:42-50 | saving fails exactly when the commit is refused or the table would break NOT NULL, UNIQUE or a column type |
| Models.AdmitNewRow | apps/models.py:41-49 | a new row that meets NOT NULL and the column types and collides with no stored row is accepted by the commit |
| Models.RowCollides | apps/authentication/models.py:21-49 | a new row holding a stored row's non-null value in a unique column is refused by the commit |
| Models.SaveNewKeepsConsistency | apps/models.py:42-50 | saving a new object keeps every table invariant (ids, columns, constraints) |
| Models.SaveExistingKeepsConsistency | apps/models.py:42-50 | saving a changed object keeps every table invariant |
| Models.StampKeepsConsistency | apps/models.py:52-70 | changing only deleted_at never breaks a constraint |
| Models.DeletionsKeepConsistency | apps/models.py:52-80 | delete, restore and hard_delete keep every table invariant |
| Models.DeleteRestamps | apps/models.py:52-60 | deleting an already deleted row stamps it again with the later time |
| Models.RestoreTouchesOnlyDeletedAt | apps/models.py:62-70 | restore clears deleted_at and changes nothing else in the table |
| Models.RemoveIgnoresDeletedAt | apps/models.py:72-80 | hard_delete removes the row whether or not it was soft-deleted and keeps every other row |
| Models.RefusedCommitRollsBack | apps/models.py:42-80 | every refused commit leaves the table as it was and ends in TypeError, since the IntegrityError raised after the rollback is built without its orig argument |
| Models.Table.Insert | apps/models.py:42-50 | the table after save() of a new object and the result, as SaveNew gives them |
| Models.Table.Put | apps/models.py:42-50 | the table after save() of a changed object and the result, as SaveExisting gives them |
| Models.Table.Delete | apps/models.py:52-60 | the table after delete() and the result, as MarkDeleted gives them |
| Models.Table.Restore | apps/models.py:62-70 | the table after restore() and the result, as ClearDeleted gives them |
| Models.Table.HardDelete | apps/models.py:72-80 | the table after hard_delete() and the result, as Remove gives them |
| BaseService.GetAll | apps/services.py:30-36 | every in-scope row and only those, each as stored |
| BaseService.GetById | apps/services.py:39-45 | the row with that id when it exists and is in scope, otherwise nothing |
| BaseService.GetByIds | apps/services.py:48-55 | the in-scope rows whose id is listed, each once, in id order |
| BaseService.FindByFilter | apps/services.py:58-73 | AttributeError exactly when a filter names no mapped attribute (a column, id, deleted_at, created_at, updated_at or a relationship); otherwise the in-scope rows equal on every filtered attribute, in id order |
| BaseService.Search | apps/services.py:76-89 | the in-scope rows where some named attribute holds text containing the term, ignoring case (a string as it is, an integer as its decimal text); all in-scope rows when no named field is an attribute |
| BaseService.SearchHitsIntegerColumns | apps/services.py:82-83 | an integer column is searched as its decimal text, so its own digits find the row |
| BaseService.ReadsFollowScope | apps/services.py:30-55 | a soft-deleted row is invisible to every read by default, and with include_deleted every read sees it |
| BaseService.GetByIdsOnePerId | apps/services.py:48-55 | get_by_ids never returns the same row twice |
| BaseService.UnknownFilterFieldIsNotAServiceError | apps/services.py:58-70 | an unknown filter field raises AttributeError, which is not a service exception |
| BaseService.Construct | apps/services.py:98 | the object built from keyword arguments has exactly the model's entity columns |
| BaseService.Applied | apps/services.py:114-116 | the setattr loop keeps the row's id and columns, gives each named column and deleted_at the value given (a timestamp, or NULL for None), and leaves every other column as it was |
| BaseService.AssignColumns | apps/services.py:114-116 | the setattr loop, key by key, ends with the row Applied describes, deleted_at included |
| BaseService.CreateKeepsConsistency | apps/services.py:95-104 | create keeps the table invariants, and a failed create changes nothing |
| BaseService.UpdateKeepsConsistency | apps/services.py:107-122 | update keeps the table invariants, and a failed update changes nothing |
| BaseService.DeletesKeepConsistency | apps/services.py:125-166 | soft_delete, hard_delete and restore keep the invariants, and none of them changes anything when it fails |
| BaseService.CreateThenGet | apps/services.py:95-104 | a created row is new, get_by_id with include_deleted finds it, the default get_by_id finds it exactly when no deletion stamp was given, and each column and deleted_at hold their keyword argument or NULL |
| BaseService.CreateFailsOn | apps/services.py:95-104 | create raises CreateFailed, changing nothing, exactly for an unknown attribute, a deleted_at that is not a timestamp or None, a refused commit or a broken constraint |
| BaseService.UpdateChangesOnlyNamedColumns | apps/services.py:107-122 | update of an absent id raises RecordNotFound, a deleted_at that is not a timestamp or None raises UpdateFailed; a successful update gives the named columns and deleted_at of that row the values given and changes nothing else |
| BaseService.UpdateReachesDeletedRows | apps/services.py:109-111 | update finds soft-deleted rows too |
| BaseService.SoftDeleteThenRead | apps/services.py:125-136 | after soft_delete the row is hidden from default reads, still found with include_deleted, and a second soft_delete raises RecordNotFound |
| BaseService.SoftDeleteNotFound | apps/services.py:127-129 | soft_delete raises RecordNotFound exactly for an absent or already deleted id |
| BaseService.HardDeleteRemoves | apps/services.py:139-150 | hard_delete removes any stored row, active or not, and raises RecordNotFound only for an absent id |
| BaseService.RestoreUndoesSoftDelete | apps/services.py:153-166 | restore after soft_delete gives back the original table, and restoring again raises RecordNotDeleted |
| BaseService.SoftDeleteStamps | apps/models.py:52-60 | a committed soft_delete of an active row only stamps its deleted_at with the clock reading and keeps the table consistent |
| BaseService.RestoreClears | apps/models.py:62-70 | a committed restore of a deleted row only clears its deleted_at and keeps the table consistent |
| BaseService.RestoreErrors | apps/services.py:155-159 | restore raises RecordNotFound for an absent id and RecordNotDeleted for an active row |
| BaseService.Create | apps/services.py:95-104 | the table and result after create, as CreateEffect gives them |
| BaseService.Update | apps/services.py:107-122 | the table and result after update, as UpdateEffect gives them |
| BaseService.SoftDelete | apps/services.py:125-136 | the table and result after soft_delete, as SoftDeleteEffect gives them |
| BaseService.HardDelete | apps/services.py:139-150 | the table and result after hard_delete, as HardDeleteEffect gives them |
| BaseService.Restore | apps/services.py:153-166 | the table and result after restore, as RestoreEffect gives them |
| BaseServiceBulk.PassedFailedPartition | apps/services.py:216-222 | every processed id lands in exactly one of success and errors |
| BaseServiceBulk.DeletedIdsMembers | apps/services.py:248-252 | bulk_restore handles exactly the loaded rows that are soft-deleted |
| BaseServiceBulk.BulkSoftDeleteReport | apps/services.py:207-225 | bulk_soft_delete handles exactly the listed active rows; it stamps exactly those whose commit succeeds, each with its own clock reading |
| BaseServiceBulk.BulkHardDeleteReport | apps/services.py:228-241 | bulk_hard_delete handles every listed stored row and leaves exactly the unlisted and the failed ones |
| BaseServiceBulk.BulkRestoreReport | apps/services.py:244-258 | bulk_restore handles exactly the listed soft-deleted rows and clears deleted_at on those whose commit succeeds |
| BaseServiceBulk.BulkSoftDelete | apps/services.py:207-225 | the loop's success, errors and final table are those the report lemma describes |
| BaseServiceBulk.BulkHardDelete | apps/services.py:228-241 | the loop's success, errors and final table are those the report lemma describes |
| BaseServiceBulk.BulkRestore | apps/services.py:244-258 | the loop's success, errors and final table are those the report lemma describes |
| BaseServiceBulk.SoftDeleteLoop | apps/services.py:215-221 | over active rows in id order, success and errors split the loaded ids by commit outcome, and exactly the successes are stamped, each with the clock reading of its own delete() |
| BaseServiceBulk.HardDeleteLoop | apps/services.py:231-237 | over stored rows in id order, success and errors split the loaded ids by commit outcome, and exactly the successes are removed |
| BaseServiceBulk.RestoreLoop | apps/services.py:247-254 | over rows in id order, only the soft-deleted ones are handled, split by commit outcome, and exactly the successes are cleared |
| BaseServiceBulk.RestoreNext | apps/services.py:248-254 | one pass of the restore loop: an active row is skipped, a soft-deleted one restored or reported |
| BaseServiceBulk.RestoreItem | apps/services.py:249-255 | one pass of the restore loop records the id once, as success or as error |
| BaseServiceBulk.UpdateRunCounts | apps/services.py:188-204 | bulk_update keeps the set of rows, and success plus errors count every loaded row |
| BaseServiceBulk.UpdateRunRows | apps/services.py:188-204 | each success is its row with update_data assigned (deleted_at included) and is what the table now holds; rows not in success are unchanged |
| BaseServiceBulk.UpdateRunSuccesses | apps/services.py:193-197 | each success is its loaded row with update_data assigned (deleted_at included), and the table holds it |
| BaseServiceBulk.UpdateRunNeedsStorable | apps/services.py:193-197 | a deleted_at that is neither a timestamp nor None fails the save of every row |
| BaseServiceBulk.UpdateRunSetsDeletedAt | apps/services.py:193-197 | update_data naming deleted_at gives every saved row that stamp: None restores them, a timestamp soft-deletes them |
| BaseServiceBulk.UpdateRunUntouched | apps/services.py:188-204 | a row not among the successes, failed ones included, is left as it was |
| BaseServiceBulk.UpdateRunBounded | apps/services.py:190-191 | no success has an id beyond the last loaded row |
| BaseServiceBulk.UpdateRunListed | apps/services.py:191 | bulk_update changes only listed ids, soft-deleted ones included |
| BaseServiceBulk.CreateRunCounts | apps/services.py:172-185 | every item ends in success or errors, and the next id advances once per success |
| BaseServiceBulk.CreateRunKeepsRows | apps/services.py:172-185 | bulk_create never changes an existing row |
| BaseServiceBulk.CreateRunFresh | apps/services.py:172-185 | each created row has an id the table had not handed out, is stored as returned, and holds the columns and deleted_at of one of the items |
| BaseServiceBulk.CreateRunIncreasing | apps/services.py:172-185 | the created rows come back in increasing id order |
| BaseServiceBulk.BulkUpdate | apps/services.py:188-204 | the loop's report and table are UpdateRun over get_by_ids(ids, include_deleted=True) |
| BaseServiceBulk.UpdateNext | apps/services.py:192-200 | one turn of the update loop extends the report and the table by the next loaded row |
| BaseServiceBulk.UpdateItem | apps/services.py:193-197 | one pass of the update loop: assign the columns and deleted_at, then save |
| BaseServiceBulk.BulkCreate | apps/services.py:172-185 | the loop's report and table are CreateRun over the items |
| PromptService.GuardedSearch | apps/services.py:287-292 | ValueError exactly when a field is not searchable; otherwise the base search |
| PromptService.WhitelistRefusesFirst | apps/services.py:276-299 | a field outside writable_fields raises AttributeError before anything is written |
| PromptService.WhitelistPassesThrough | apps/services.py:276-284 | whitelisted data goes to the base create and update unchanged |
| PromptService.Create | apps/services.py:277-279 | the table and result after the guarded create |
| PromptService.Update | apps/services.py:282-284 | the table and result after the guarded update |
| AuthServices.WhitelistsAreColumns | apps/authentication/services.py:23-82 | role and group may write and search every column; OAuth only user_id, not provider or token; users may write every column but last_login_at and search a strict subset |
| AuthServices.OAuthCreateAlwaysFails | apps/authentication/services.py:59-64 | OAuthService.create never succeeds and changes nothing: provider and token are NOT NULL and cannot be written |
| AuthServices.FirstWith | apps/authentication/services.py:32-35 | the first in-scope row holding the value, or nothing when no in-scope row holds it |
| AuthServices.UniqueLookup | apps/authentication/services.py:122-131 | on a unique column the found row is the only row with that value, and nothing is found exactly when no in-scope row has it |
| AuthServices.FindByRef | apps/authentication/services.py:134-141 | find_by_role and find_by_group return exactly the in-scope users with that role or group id |
| AuthServices.IsAvailableAsWritten | apps/authentication/services.py:87-94 | as written the check always raises AttributeError |
| AuthServices.IsAvailable | apps/authentication/services.py:87-94 | available exactly when no active user holds the username or email |
| AuthServices.AvailableButTaken | apps/authentication/services.py:87-101 | a name held only by a soft-deleted user is reported available, yet registering it fails, even with a hashed password |
| AuthServices.RegisterRefusedAsWritten | apps/authentication/services.py:99-101 | as written register never stores anything: TypeError for a repeated keyword, AttributeError for an extra outside the whitelist, otherwise CreateFailed because the str password does not fit the LargeBinary column |
| AuthServices.RegisterHashedStores | apps/authentication/services.py:99-101 | with a hashed password, register succeeds exactly when the commit goes through, no keyword repeats, the extras are whitelisted and no stored user holds the username or email; it then stores a new active user with those values, the hash and the extras, and a failure changes nothing |
| AuthServices.HashedCreate | apps/services.py:94-104 | create of whitelisted user data with a bytes password stores the built active row exactly when the commit goes through and the username and email are free, and is otherwise CreateFailed with the table unchanged |
| AuthServices.HashedUserTyped | apps/authentication/models.py:51-58 | a user built from whitelisted data with a bytes password fits every column type |
| AuthServices.NewUserAdmissible | apps/authentication/models.py:49-50 | a well-typed new user can be stored exactly when no stored user, deleted or not, holds its username or email |
| AuthServices.UpdateLastLoginAlwaysRefused | apps/authentication/services.py:104-106 | as written update_last_login always raises AttributeError and changes nothing |
| AuthServices.UpdateLastLoginStamps | apps/authentication/services.py:104-106 | corrected, it stamps last_login_at of any stored user, and only that column |
| AuthServices.SetPasswordRefusedAsWritten | apps/authentication/services.py:109-111 | as written set_password never changes anything: RecordNotFound for an absent id, otherwise UpdateFailed because the str does not fit the LargeBinary column |
| AuthServices.SetPasswordReplaces | apps/authentication/services.py:109-111 | with a hashed password, set_password replaces the password of any stored user and changes nothing else; RecordNotFound for an absent id |
| AuthServices.VerifyPassword | apps/authentication/services.py:114-117 | true exactly when the user exists, is active and the hash check accepts the raw password |
| AuthServices.BulkSetColumn | apps/authentication/services.py:146-152 | a one-column bulk update sets that column on each success and leaves every other row as it was |
| AuthServices.BulkSetReference | apps/authentication/services.py:146-152 | bulk_update_role (bulk_update_group) changes only role_id (group_id), and only on listed users |
| AuthServices.BulkUpdateBypassesWhitelist | apps/authentication/services.py:146-152 | bulk_update skips the whitelist: it can set last_login_at, which update refuses |
| AuthServices.Register | apps/authentication/services.py:99-101 | the table and result after register as written |
| AuthServices.UpdateLastLoginCall | apps/authentication/services.py:104-106 | the table and result after update_last_login as written |
| AuthServices.SetPassword | apps/authentication/services.py:109-111 | the table and result after set_password as written |
| AuthServices.BulkUpdateRole | apps/authentication/services.py:146-148 | the report and table are the bulk update with role_id |
| AuthServices.BulkUpdateGroup | apps/authentication/services.py:150-152 | the report and table are the bulk update with group_id |
| AuthServices.OwnedBy | apps/authentication/services.py:161 | exactly the OAuth rows, deleted or not, whose user_id is the user |
| AuthServices.FilterByOwner | apps/authentication/services.py:161 | filtering OAuth rows on user_id never raises AttributeError and finds exactly that user's rows |
| AuthServices.CascadeClearsOAuth | apps/authentication/services.py:156-163 | after a user's soft delete only failed ones of the user's OAuth rows remain, and others' rows stay |
| AuthServices.SoftDeleteUser | apps/authentication/services.py:156-163 | the user table as after soft_delete; the OAuth table cascaded on success and untouched on failure |
| AuthServices.UserLoader | apps/authentication/services.py:193-194 | a user is loaded exactly when it exists and is active |
| AuthServices.RequestLoader | apps/authentication/services.py:198-203 | no username gives nothing; a found user is active with that username; nothing found means no active user has it |
| OAuthLogin.Holders | apps/authentication/oauth.py:41 | exactly the active users holding the provider handle, in id order |
| OAuthLogin.NewUserFields | apps/authentication/oauth.py:88-91 | the new user has every user column |
| OAuthLogin.InfoNotOkDoesNothing | apps/authentication/oauth.py:76 | nothing happens when the provider did not answer |
| OAuthLogin.ExistingUserReused | apps/authentication/oauth.py:41-44 | the one active holder of the handle is logged in and no row is added |
| OAuthLogin.SeveralHoldersRaise | apps/authentication/oauth.py:42-45 | two active holders make query.one() raise MultipleResultsFound, which is not caught |
| OAuthLogin.NoHolderCreates | apps/authentication/oauth.py:86-94 | with no active holder, a new active user with the prefixed username, the handle and (Google) the email is committed, or the IntegrityError that session.commit() raises changes nothing |
| OAuthLogin.FindOrCreateIdempotent | apps/authentication/oauth.py:41-52 | after a login created the user, the same login logs that user in and adds nothing |
| OAuthLogin.CreationLeavesOneHolder | apps/authentication/oauth.py:47-51 | after creation the new user is the only active holder of the handle |
| OAuthLogin.HolderIsNew | apps/authentication/oauth.py:47-49 | the user a callback builds holds its handle |
| OAuthLogin.NewUserTyped | apps/authentication/oauth.py:47-51 | the user a callback builds leaves password and last_login_at NULL, so its columns fit their types |
| OAuthLogin.DeletedNamesakeBlocksCreation | apps/authentication/oauth.py:41-51 | a soft-deleted user with the synthesized username makes the creation fail |
| OAuthLogin.NewUserRejectedAsWritten | apps/authentication/oauth.py:47-51 | with NOT NULL as the columns are written, the user a callback builds can never be stored |
| OAuthLogin.NewUserStoredAsIntended | apps/authentication/oauth.py:86-94 | with the intended constraints it is stored whenever its username (and Google email) are free |
| OAuthLogin.LoggedInCallback | apps/authentication/oauth.py:76-94 | the users table and result after the callback, as LoginEffect gives them |
| Schemas.Fill | apps/authentication/schemas.py:63-72 | validation passes exactly when every field accepts the payload; the output has every field, given or defaulted |
| Schemas.Validate | apps/schemas.py:6-8 | as Fill, and any key outside the schema is refused |
| Schemas.PasswordComplexity | apps/authentication/schemas.py:74-80 | passes a password exactly when it has at least 6 characters, unchanged |
| Schemas.ValidateUserCreate | apps/authentication/schemas.py:69-80 | UserCreate with its password validator after the field checks |
| Schemas.SchemasAreWellFormed | apps/authentication/schemas.py:10-127 | no schema declares the same field twice |
| Schemas.ExtraKeysForbidden | apps/schemas.py:8 | a payload key the schema does not declare makes validation fail |
| Schemas.RequiredFieldsPresent | apps/authentication/schemas.py:64-70 | a payload that validates carries every required field |
| Schemas.ParsedValue | apps/authentication/schemas.py:63-72 | a given field keeps its value and fits its type; an absent one takes the default |
| Schemas.ShortPasswordRefused | apps/authentication/schemas.py:70 | a password under 6 characters is refused |
| Schemas.PasswordValidatorRedundant | apps/authentication/schemas.py:70-80 | the password validator never refuses what min_length=6 let through |
| Schemas.UserCreateBounds | apps/authentication/schemas.py:63-72 | a valid user: username of 3 to 64 characters, password of at least 6, phone of at most 20 |
| Schemas.UserUpdateBounds | apps/authentication/schemas.py:82-88 | a given username is 3 to 64 characters, a given phone at most 20, an absent username becomes None |
| Schemas.NameBounds | apps/authentication/schemas.py:10-19 | a create requires name; a given name is at most 64 characters |
| Schemas.OAuthCreateBounds | apps/authentication/schemas.py:46-55 | provider is github or google; provider_user_id is at most 100 characters |
| Schemas.BulkAssignNonEmpty | apps/authentication/schemas.py:117-123 | a bulk assignment lists at least one user id |
| Schemas.AuditDays | apps/authentication/schemas.py:126-127 | days defaults to 7 and always lies in 1..365 |
| Pagination.GetPerPage | apps/utils/pagination.py:21-34 | the result is always an allowed size; the only error is ValueError |
| Pagination.PageNumber | apps/utils/pagination.py:40 | the page argument when it is an integer, otherwise 1 |
| Pagination.Paginate | apps/utils/pagination.py:37-41 | fails exactly when get_per_page does; otherwise the page number and an allowed size |
| Pagination.UrlChoiceWins | apps/utils/pagination.py:25-27 | an allowed URL value is taken, whatever the cookie |
| Pagination.MalformedUrlIgnored | apps/utils/pagination.py:23-29 | a URL value that is not an integer is ignored |
| Pagination.CookieFallback | apps/utils/pagination.py:31-33 | without a usable URL value an allowed cookie value is taken |
| Pagination.MalformedCookieRaises | apps/utils/pagination.py:32 | a non-empty cookie that is not an integer raises ValueError |
| Pagination.NothingGivenDefault | apps/utils/pagination.py:11-34 | with no argument and no cookie the result is 5 |
| Pagination.CookieKeyIgnoresCase | apps/utils/pagination.py:31 | the cookie key does not depend on the case of the model name |
| Pagination.GetModelAsWrittenFindsNothing | apps/utils/pagination.py:5-18 | as written the lookup finds no model for any name |
| Pagination.GetModel | apps/utils/pagination.py:16-18 | corrected, a model is found exactly when the lower-cased name is user, role or group |
| Pagination.GetModelIgnoresCase | apps/utils/pagination.py:16-18 | corrected, the lookup ignores case |
| Pagination.GetModelFindsEveryKey | apps/utils/pagination.py:5-9 | corrected, every MODEL_MAP key finds its model |
| Pagination.OptionsList | apps/utils/pagination.py:56-58 | every size has its option tag, selected exactly when it is the current one |
| Pagination.SelectOffersEverySize | apps/utils/pagination.py:55-59 | the selector offers every allowed size and marks the current one selected |
| Pagination.BuildOptions | apps/utils/pagination.py:56-58 | the loop's option tags are those of every allowed size, in order |
| Pagination.RenderPagination | apps/utils/pagination.py:44-59 | nothing exactly for at most one page; otherwise the selector |
| HomeRoutes.MenuEntriesLinkOrSubMenu | apps/home/routes.py:11-117 | every menu entry is a link or a sub-menu, never both |
| HomeRoutes.MenuKeyList | apps/home/routes.py:11-117 | the context keys of the menu are, in order, those the source lists: each entry's key followed by its sub-menu entries' keys |
| HomeRoutes.MenuContextKeysDistinct | apps/home/routes.py:11-117 | no two menu entries share a context key |
| HomeRoutes.NormalizeTemplate | apps/home/routes.py:130-131 | the template ends in .html, and a name already ending so is kept |
| HomeRoutes.NormalizeIdempotent | apps/home/routes.py:130-131 | normalising twice is normalising once |
| HomeRoutes.RouteTemplate | apps/home/routes.py:126-137 | the template rendered is under home/ and ends in .html, and the segment has no slash |
| HomeRoutes.Split | apps/home/routes.py:153 | at least one part, none containing a slash |
| HomeRoutes.JoinSplit | apps/home/routes.py:153 | joining the parts with slashes gives the path back |
| HomeRoutes.LastComponent | apps/home/routes.py:153 | the last part is a slash-free suffix of the path, preceded by a slash unless it is the whole path |
| HomeRoutes.GetSegment | apps/home/routes.py:149-158 | the segment is never empty and never contains a slash: the last part, or index |
| HomeRoutes.EmptySegmentIsIndex | apps/home/routes.py:155-156 | a path ending in a slash gives index |
| HomeRoutes.SegmentOfPage | apps/home/routes.py:153-158 | the path dir/page gives page |

## Left out

- Logging (`apps/utils/logger.py`) and log messages are not modelled. Error
  messages are reduced to the exception kind.
- `created_at` and `updated_at` (server-side defaults), the relationships
  `users`, `role`, `group` and `user`, and OAuth's `created_at` from
  flask-dance's `OAuthConsumerMixin` are known by name
  (`Entities.Untracked`), so hasattr accepts them, but the model holds no
  value for them: no service reads them back.
- Methods and other class attributes (`save`, `query`, Flask-Login's
  `is_active`, ...) also pass hasattr in the source. The model treats them
  as unknown names.
- BaseService.FindByFilter: a filter on an untracked attribute is accepted,
  as in the source, but the model reads it as NULL, so the rows found for
  such a filter say nothing about the source.
- BaseService.Construct: an `id` keyword, which the source inserts as the
  primary key, and values for untracked attributes are dropped; the row
  takes the next id.
- BaseService.Create: an `id` keyword is dropped as in Construct.
- BaseService.CreateThenGet: holds for data without an `id` key; with one,
  the source stores the row under that id.
- BaseService.CreateFailsOn: an `id` keyword that collides with a stored id
  fails in the source and not in the model.
- BaseServiceBulk.CreateRunFresh: an item with an `id` key is stored under
  that id in the source, not under the next one.
- BaseServiceBulk.BulkCreate: an `id` key of an item is dropped as in Construct.
- BaseService.Applied: an `id` key, which rewrites the primary key in the
  source, and keys naming untracked attributes are skipped. A deleted_at
  value that is neither a timestamp nor None is not kept; the commit that
  follows is refused instead.
- BaseService.AssignColumns: skips an `id` key as Applied does.
- BaseService.Update: an `id` key is skipped as in Applied.
- BaseService.UpdateChangesOnlyNamedColumns: holds for data without an `id`
  key; with one, the source moves the row to the new id.
- BaseServiceBulk.UpdateRunRows: an `id` key in update_data is skipped as in
  Applied.
- BaseServiceBulk.UpdateRunSuccesses: an `id` key in update_data is skipped
  as in Applied.
- BaseServiceBulk.UpdateItem: an `id` key is skipped as in Applied.
- BaseServiceBulk.BulkUpdate: an `id` key in update_data is skipped as in
  Applied.
- Models.SaveNew: the table enforces the intended NOT NULL set
  (`Entities.NotNullColumns`), not the set as written
  (`Entities.NotNullAsWritten`); see the findings. The as-written
  constraint is stated by `Entities.CompleteAsWritten` and
  `OAuthLogin.NewUserRejectedAsWritten`.
- Models.SaveNewRefused: refuses by the intended NOT NULL set, as SaveNew.
- OAuthLogin.LoginEffect: commits against the intended NOT NULL set, as
  SaveNew; with the set as written see `OAuthLogin.NewUserRejectedAsWritten`.
- The generic `BaseServiceException` that wraps a failed read is left out.
  With the database as a value, reads cannot fail.
- `_check_model` is left out. Every service in the model has its model
  class set.
- `get_users_count` of roles and groups is left out. It calls `.count()` on
  the list `find_by_filter` returns, which is not a database query.
- `AuditService` is left out. It compares times against the clock through
  `created_at`, which is not modelled.
- `EmailStr` validation and pydantic's lax type coercion are left out.
  Email fields are plain text in `Schemas`, and values must already have
  the declared type.
- The `*Out` response schemas and the serialisation part of `BaseSchema`
  are left out.
- Schema validation is not wired into the services, because the services
  in the source never call it.
- Password hashing is left out: `hash_pass` and `verify_pass` are not part
  of this model. The source's `register` and `set_password` pass the raw str
  on, and the model refuses it as the LargeBinary column does (see the
  findings). The intended versions take the hash as a parameter, and the
  hash check is a parameter of `VerifyPassword`.
- Column types are checked only where the column's SQLAlchemy type refuses
  a value at flush: the LargeBinary password and the DateTime columns. The
  String, Text, Integer and JSON columns accept every value in the model,
  as SQLite's type affinity does. SQLAlchemy's JSON null for an explicit
  None token is not told apart from SQL NULL.
- Pagination.RenderPagination: the rest of the `render_pagination` HTML is
  left out: the previous, next and first-page links, the current-page text
  and the script. Its result is the rows-per-page selector only.
- Flask-SQLAlchemy's `query.paginate` and `render_template` are left out,
  including the 404 and 500 pages. `RouteTemplate` returns the template
  path and the segment instead.
- `login_user`, the Flask-Dance token storage and the provider HTTP calls
  are left out.
- The foreign keys of role_id, group_id and user_id are left out, and so is
  the database's `ON DELETE CASCADE`. Only NOT NULL, UNIQUE and the column
  types above make a commit fail in the model.
- Concurrency between requests is left out. Every operation runs alone on
  its table.
- Rows are returned in increasing id order. No query in the source has an
  ORDER BY, so this is an assumption about the database.
- New ids come from a counter that never goes back, so an id is never
  handed out twice. `autoincrement=True` does not make SQLite emit
  AUTOINCREMENT, so SQLite may reuse the largest id after the row holding
  it is hard-deleted. Models.SaveNewIsFresh and
  BaseServiceBulk.CreateRunFresh ("an id the table had not handed out")
  depend on this assumption; with SQLite the new id is only guaranteed to
  be held by no stored row.
- BaseService.Search: `ilike` treats `%` and `_` in the term as wildcards.
  The model matches the term as plain text, ignoring ASCII case only. An
  integer column is matched through its decimal text, as SQLite casts it;
  PostgreSQL rejects ILIKE on an integer column, which the source reports as
  BaseServiceException. Timestamp, JSON and untracked attributes never match
  in the model.
- Text.ParseInt: Python's `int()` also accepts surrounding whitespace,
  underscores between digits and non-ASCII digits. The model accepts only
  an optional sign and ASCII digits.
- Text.Lower: only ASCII letters are lower-cased.
- HomeRoutes.MenuEntriesLinkOrSubMenu: the menu is modelled as two levels
  deep, which is the depth the source has.
- HomeRoutes.GetSegment: the `except` branch returning None is left out.
  Splitting a string cannot raise.
- BaseServiceBulk.BulkUpdate: an error entry holds the id but not the
  message. In BulkCreate it holds the data but not the message.

## Findings

| source | as written | input that shows it | evidently intended | confidence | as-written member | corrected member |
|---|---|---|---|---|---|---|
| apps/authentication/services.py:87-94 | `find_by_filter(...)` returns a list, and `.first()` is called on it | `is_username_available("alice")` on any table raises AttributeError | true exactly when no active user holds the username (or email) | high, not executed | AuthServices.IsAvailableAsWritten | AuthServices.IsAvailable |
| apps/authentication/services.py:104-106 | `update` is called with `last_login_at`, which is not in the user `writable_fields` (lines 77-80) | `update_last_login(1)` for an existing user raises AttributeError | last_login_at of the user is set to the current time | high, not executed | AuthServices.UpdateLastLoginAlwaysRefused | AuthServices.UpdateLastLoginStamps |
| apps/authentication/models.py:51 with apps/authentication/services.py:99-111 | `password` is a LargeBinary column, but `register` and `set_password` pass the raw str to create/update, and nothing hashes it | `register("alice", "alice@x.com", "secret1")` ends in CreateFailed, because the str fails LargeBinary's bind processor at flush | the password is hashed ("the password is hashed automatically", says the docstring) and the bytes are stored | medium (rests on SQLAlchemy's LargeBinary wrapping the value in the driver's Binary type), not executed | AuthServices.RegisterRefusedAsWritten | AuthServices.RegisterHashedStores |
| apps/utils/pagination.py:5-18 | the name is lower-cased, but the MODEL_MAP keys are capitalised | `_get_model("User")` returns None | a case-insensitive lookup, as the docstring says | high, not executed | Pagination.GetModelAsWrittenFindsNothing | Pagination.GetModelFindsEveryKey |
| apps/authentication/models.py:49-51 with apps/authentication/oauth.py:47-51 | username, email and password are non-Optional `Mapped` columns, hence NOT NULL, but the OAuth callbacks create users without a password (and, from GitHub, without an email) | the first GitHub login of account "octocat" fails its commit with IntegrityError | only the columns marked nullable=False are NOT NULL, so OAuth users can be stored | medium (relies on the NOT NULL default of SQLAlchemy 2.0 typed mappings), not executed | OAuthLogin.NewUserRejectedAsWritten | OAuthLogin.NewUserStoredAsIntended |
