/**
 * The four tables of apps/authentication/models.py: their columns and the
 * column constraints (NOT NULL, UNIQUE) that make a commit fail.
 *
 * A row's entity columns are held in a map from column name to value, because
 * the services address them by name (keyword arguments, hasattr, getattr,
 * setattr). The BaseModel columns `id` and `deleted_at` live in Models.Row.
 *
 * OAuth inherits `provider` (String(50), NOT NULL), `token` (JSON, NOT NULL)
 * and `created_at` from flask-dance's OAuthConsumerMixin, which is not part of
 * this model; its column list is taken from that mixin's declaration.
 */
module Entities {

  type Time = int

  /** A column value; Null is SQL NULL / Python None, Bytes a Python bytes object. */
  datatype Value = Null | Int(i: int) | Str(s: string) | Bytes(b: seq<bv8>) | Stamp(t: Time) | IntList(xs: seq<int>)

  type Fields = map<string, Value>

  datatype Kind = Role | Group | User | OAuth

  /** The entity columns each model declares besides the BaseModel ones. */
  function Columns(k: Kind): set<string> {
    match k
    case Role => {"name", "description"}
    case Group => {"name", "description"}
    case User => {"username", "email", "password", "phone", "bio",
                  "role_id", "group_id", "last_login_at", "oauth_github", "oauth_google"}
    case OAuth => {"user_id", "provider", "token"}
  }

  /** The BaseModel columns whose values the model keeps. */
  const BaseColumns: set<string> := {"id", "deleted_at"}

  /**
   * Mapped attributes whose values the model does not keep: the server-set
   * timestamps and the relationships.
   */
  function Untracked(k: Kind): set<string> {
    {"created_at", "updated_at"} +
    match k
    case Role => {"users"}
    case Group => {"users"}
    case User => {"role", "group"}
    case OAuth => {"user"}
  }

  /**
   * The mapped attributes of the model, for each of which
   * hasattr(model_class, name) holds. (Methods and other class attributes
   * pass hasattr too; they are not modelled.)
   */
  function Attributes(k: Kind): set<string> {
    BaseColumns + Columns(k) + Untracked(k)
  }

  /** Columns declared unique=True. */
  function UniqueColumns(k: Kind): set<string> {
    match k
    case Role => {"name"}
    case Group => {"name"}
    case User => {"username", "email"}
    case OAuth => {}
  }

  /**
   * Columns that reject NULL as the source declares them: explicit
   * nullable=False, plus the non-Optional Mapped[str] / Mapped[bytes]
   * annotations without a nullable argument, which SQLAlchemy 2.0 turns into
   * NOT NULL (username, email, password).
   */
  function NotNullAsWritten(k: Kind): set<string> {
    match k
    case Role => {"name"}
    case Group => {"name"}
    case User => {"username", "email", "password"}
    case OAuth => {"user_id", "provider", "token"}
  }

  /**
   * Columns that reject NULL as evidently intended: exactly those the source
   * marks nullable=False. The rest of the model uses this set (see the
   * findings in README.md).
   */
  function NotNullColumns(k: Kind): set<string> {
    match k
    case Role => {"name"}
    case Group => {"name"}
    case User => {}
    case OAuth => {"user_id", "provider", "token"}
  }

  /**
   * Whether a column's type accepts the value when the row is flushed.
   * User.password is LargeBinary, whose bind processor wraps the value in the
   * driver's Binary type and so refuses a str; User.last_login_at is a
   * DateTime, which on SQLite accepts only a datetime. NULL always passes. The
   * String, Text, Integer and JSON columns accept every value here.
   */
  predicate FitsType(k: Kind, c: string, v: Value) {
    if k == User && c == "password" then v.Null? || v.Bytes?
    else if k == User && c == "last_login_at" then v.Null? || v.Stamp?
    else true
  }

  /** Every column of the row holds a value its type accepts. */
  predicate Typed(k: Kind, f: Fields) {
    forall c | c in f :: FitsType(k, c, f[c])
  }

  /** Every NOT NULL column is present and non-null. */
  predicate Complete(k: Kind, f: Fields) {
    forall c | c in NotNullColumns(k) :: c in f && f[c] != Null
  }

  predicate CompleteAsWritten(k: Kind, f: Fields) {
    forall c | c in NotNullAsWritten(k) :: c in f && f[c] != Null
  }

  /** Two rows do not collide on a unique column (SQL allows several NULLs). */
  predicate Distinct(k: Kind, f1: Fields, f2: Fields) {
    forall c | c in UniqueColumns(k) :: c !in f1 || c !in f2 || f1[c] == Null || f1[c] != f2[c]
  }

  /** Whether two rows collide depends only on their unique columns. */
  lemma DistinctOnlyOnUnique(k: Kind, f1: Fields, g1: Fields, f2: Fields)
    requires forall c | c in UniqueColumns(k) :: (c in f1 <==> c in g1) && (c in f1 ==> f1[c] == g1[c])
    ensures Distinct(k, f1, f2) ==> Distinct(k, g1, f2)
    ensures Distinct(k, f2, f1) ==> Distinct(k, f2, g1)
  {
  }

  /** Role and Group names are unique: two rows with the same name collide. */
  lemma NameIsUnique(k: Kind, f1: Fields, f2: Fields)
    requires k == Role || k == Group
    requires "name" in f1 && "name" in f2 && f1["name"] == f2["name"]
    ensures !(Complete(k, f1) && Distinct(k, f1, f2))
  {
  }

  /** username and email are each unique among users. */
  lemma UserKeysAreUnique(f1: Fields, f2: Fields, c: string)
    requires c == "username" || c == "email"
    requires c in f1 && c in f2 && f1[c] == f2[c] != Null
    ensures !Distinct(User, f1, f2)
  {
  }

  /**
   * A user needs neither a role nor a group: under the NOT NULL set as
   * written, which does constrain users (username, email, password), clearing
   * role_id and group_id keeps a complete user complete.
   */
  lemma UserMayLackRoleAndGroup(f: Fields)
    requires CompleteAsWritten(User, f)
    ensures CompleteAsWritten(User, f["role_id" := Null]["group_id" := Null])
    ensures "role_id" !in NotNullAsWritten(User) && "group_id" !in NotNullAsWritten(User)
  {
  }

  /** A user row lacking a username, an email or a password is refused as written. */
  lemma UserNeedsCredentialsAsWritten(f: Fields, c: string)
    requires c == "username" || c == "email" || c == "password"
    requires c !in f || f[c] == Null
    ensures !CompleteAsWritten(User, f)
  {
  }

  /** An OAuth row needs an owner: user_id rejects NULL. */
  lemma OAuthNeedsUser(f: Fields)
    requires "user_id" in f && f["user_id"] == Null
    ensures !Complete(OAuth, f)
  {
  }

  /** The intended NOT NULL set is a subset of the one written in the source. */
  lemma IntendedIsWeaker(k: Kind, f: Fields)
    requires CompleteAsWritten(k, f)
    ensures Complete(k, f)
  {
  }
}
