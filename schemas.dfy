/**
 * The request schemas of apps/authentication/schemas.py, all of them
 * BaseSchema subclasses (apps/schemas.py) that forbid extra keys. A schema is
 * a list of field rules; validating a payload either yields the model's field
 * values (the payload's own, or the default for an absent optional field) or
 * fails with a ValueError (pydantic's ValidationError is one).
 */
module Schemas {
  import opened Common
  import opened Exceptions
  import opened Entities

  /** The field types and the constraints Field(...) puts on them. */
  datatype FieldType =
    | Text(minLength: nat, maxLength: Option<nat>)   // str with min_length / max_length
    | Email                                          // EmailStr; address syntax is not modelled
    | Integer(lo: Option<int>, hi: Option<int>)      // int with ge / le
    | Choice(options: set<string>)                   // a str Enum
    | IdList(minItems: nat)                          // List[int] with min_items

  /**
   * One field: `required` for Field(...), `nullable` for Optional[...], and the
   * value the model takes when the key is absent.
   */
  datatype Rule = Rule(name: string, ty: FieldType, required: bool, nullable: bool, default: Value)

  type Schema = seq<Rule>

  function Names(schema: Schema): (r: set<string>)
    ensures forall i | 0 <= i < |schema| :: schema[i].name in r
    ensures forall n | n in r :: exists i | 0 <= i < |schema| :: schema[i].name == n
  {
    if schema == [] then {} else {schema[0].name} + Names(schema[1..])
  }

  /** No two rules name the same field. */
  predicate WellFormed(schema: Schema) {
    forall i, j | 0 <= i < j < |schema| :: schema[i].name != schema[j].name
  }

  /** A non-null value of the right type within the field's bounds. */
  predicate TypeFits(ty: FieldType, v: Value) {
    match ty
    case Text(lo, hi) => v.Str? && lo <= |v.s| && (hi.Some? ==> |v.s| <= hi.value)
    case Email => v.Str?
    case Integer(lo, hi) => v.Int? && (lo.Some? ==> lo.value <= v.i) && (hi.Some? ==> v.i <= hi.value)
    case Choice(options) => v.Str? && v.s in options
    case IdList(minItems) => v.IntList? && minItems <= |v.xs|
  }

  /** The value given for a field passes it: null only where Optional. */
  predicate Fits(rule: Rule, v: Value) {
    if v == Null then rule.nullable else TypeFits(rule.ty, v)
  }

  /** The payload satisfies one rule: present and fitting, or absent and optional. */
  predicate Accepts(rule: Rule, payload: map<string, Value>) {
    if rule.name in payload then Fits(rule, payload[rule.name]) else !rule.required
  }

  /** The model's value of a field after validation. */
  function Parsed(rule: Rule, payload: map<string, Value>): Value {
    if rule.name in payload then payload[rule.name] else rule.default
  }

  /** The field values of the rules in order, absent fields at their defaults. */
  function Fill(schema: Schema, payload: map<string, Value>): (r: Result<map<string, Value>, Error>)
    requires WellFormed(schema)
    ensures r.Ok? <==> forall i | 0 <= i < |schema| :: Accepts(schema[i], payload)
    ensures r.Ok? ==> r.value.Keys == Names(schema)
    ensures r.Ok? ==> forall i | 0 <= i < |schema| :: r.value[schema[i].name] == Parsed(schema[i], payload)
    ensures r.Err? ==> r.error == ValueError
  {
    if schema == [] then Ok(map[])
    else
      var rest := Fill(schema[1..], payload);
      assert forall i | 1 <= i < |schema| :: schema[i] == schema[1..][i - 1];
      if !Accepts(schema[0], payload) then Err(ValueError)
      else if rest.Err? then rest
      else
        FillCons(schema, payload, rest.value);
        Ok(rest.value[schema[0].name := Parsed(schema[0], payload)])
  }

  /** Adding the first field's value to the filled rest gives every field its parsed value. */
  lemma FillCons(schema: Schema, payload: map<string, Value>, m: map<string, Value>)
    requires WellFormed(schema) && schema != []
    requires m.Keys == Names(schema[1..])
    requires forall i | 0 <= i < |schema| - 1 :: m[schema[1..][i].name] == Parsed(schema[1..][i], payload)
    ensures var filled := m[schema[0].name := Parsed(schema[0], payload)];
            && filled.Keys == Names(schema)
            && forall i | 0 <= i < |schema| :: filled[schema[i].name] == Parsed(schema[i], payload)
  {
    assert Names(schema) == {schema[0].name} + Names(schema[1..]);
    assert forall i | 1 <= i < |schema| :: schema[i] == schema[1..][i - 1];
    FillConsValues(schema, payload, m);
  }

  lemma FillConsValues(schema: Schema, payload: map<string, Value>, m: map<string, Value>)
    requires WellFormed(schema) && schema != []
    requires forall i | 1 <= i < |schema| :: schema[i].name in m && m[schema[i].name] == Parsed(schema[i], payload)
    ensures var filled := m[schema[0].name := Parsed(schema[0], payload)];
            forall i | 0 <= i < |schema| :: filled[schema[i].name] == Parsed(schema[i], payload)
  {
    var filled := m[schema[0].name := Parsed(schema[0], payload)];
    forall i | 1 <= i < |schema|
      ensures filled[schema[i].name] == Parsed(schema[i], payload)
    {
      assert schema[i].name != schema[0].name;
    }
  }

  /** BaseModel(**payload) for a schema with extra = "forbid". */
  function Validate(schema: Schema, payload: map<string, Value>): (r: Result<map<string, Value>, Error>)
    requires WellFormed(schema)
    ensures r.Ok? <==> payload.Keys <= Names(schema) && forall i | 0 <= i < |schema| :: Accepts(schema[i], payload)
    ensures r.Ok? ==> r.value.Keys == Names(schema)
    ensures r.Ok? ==> forall i | 0 <= i < |schema| :: r.value[schema[i].name] == Parsed(schema[i], payload)
    ensures r.Err? ==> r.error == ValueError
  {
    if !(payload.Keys <= Names(schema)) then Err(ValueError) else Fill(schema, payload)
  }

  // The rule shapes the schemas use.
  function Required(name: string, ty: FieldType): Rule { Rule(name, ty, true, false, Null) }
  function OptionalField(name: string, ty: FieldType): Rule { Rule(name, ty, false, true, Null) }

  const AnyText := Text(0, None)
  const AnyInt := Integer(None, None)
  const Name64 := Text(0, Some(64))
  const Username := Text(3, Some(64))
  const Phone := Text(0, Some(20))

  const RoleCreate: Schema := [Required("name", Name64), OptionalField("description", AnyText)]
  const RoleUpdate: Schema := [OptionalField("name", Name64), OptionalField("description", AnyText)]
  // GroupCreate / GroupUpdate declare the same fields as the Role schemas.
  const GroupCreate: Schema := RoleCreate
  const GroupUpdate: Schema := RoleUpdate

  const Providers: set<string> := {"github", "google"}
  const OAuthCreate: Schema :=
    [Required("provider", Choice(Providers)), Required("provider_user_id", Text(0, Some(100))),
     Required("user_id", AnyInt)]

  const UserCreate: Schema :=
    [Required("username", Username), Required("email", Email), OptionalField("phone", Phone),
     OptionalField("bio", AnyText), Required("password", Text(6, None)),
     OptionalField("role_id", AnyInt), OptionalField("group_id", AnyInt)]
  const UserUpdate: Schema :=
    [OptionalField("username", Username), OptionalField("email", Email), OptionalField("phone", Phone),
     OptionalField("bio", AnyText), OptionalField("role_id", AnyInt), OptionalField("group_id", AnyInt)]

  const UserLogin: Schema := [Required("username", AnyText), Required("password", AnyText)]
  const Token: Schema := [Required("access_token", AnyText), Rule("token_type", AnyText, false, false, Str("bearer"))]
  const TokenData: Schema := [OptionalField("username", AnyText)]

  const BulkRoleAssign: Schema := [Required("user_ids", IdList(1)), Required("role_id", AnyInt)]
  const BulkGroupAssign: Schema := [Required("user_ids", IdList(1)), Required("group_id", AnyInt)]

  const AuditStatsRequest: Schema := [Rule("days", Integer(Some(1), Some(365)), false, false, Int(7))]

  /** The password_complexity validator, run after the field constraints pass. */
  function PasswordComplexity(v: string): (r: Result<string, Error>)
    ensures r.Ok? <==> |v| >= 6
    ensures r.Ok? ==> r.value == v
    ensures r.Err? ==> r.error == ValueError
  {
    if |v| < 6 then Err(ValueError) else Ok(v)
  }

  /** UserCreate(**payload): the field rules, then password_complexity on the password. */
  function ValidateUserCreate(payload: map<string, Value>): (r: Result<map<string, Value>, Error>)
    ensures r.Ok? ==> Validate(UserCreate, payload) == r
    ensures Validate(UserCreate, payload).Err? ==> r.Err?
  {
    var fields := Validate(UserCreate, payload);
    if fields.Err? then fields
    else
      assert UserCreate[4].name == "password";
      var checked := PasswordComplexity(fields.value["password"].s);
      if checked.Err? then Err(checked.error) else fields
  }

  lemma SchemasAreWellFormed()
    ensures WellFormed(RoleCreate) && WellFormed(RoleUpdate)
    ensures WellFormed(OAuthCreate) && WellFormed(UserCreate) && WellFormed(UserUpdate)
    ensures WellFormed(UserLogin) && WellFormed(Token) && WellFormed(TokenData)
    ensures WellFormed(BulkRoleAssign) && WellFormed(BulkGroupAssign) && WellFormed(AuditStatsRequest)
  {
  }

  /** Every schema refuses a payload carrying a key it does not declare. */
  lemma {:induction false} ExtraKeysForbidden(schema: Schema, payload: map<string, Value>, k: string)
    requires WellFormed(schema) && k in payload
    requires forall i | 0 <= i < |schema| :: schema[i].name != k
    ensures Validate(schema, payload) == Err(ValueError)
  {
    assert k !in Names(schema);
  }

  /** A schema accepts a payload only if every required field is present. */
  lemma RequiredFieldsPresent(schema: Schema, payload: map<string, Value>, i: nat)
    requires WellFormed(schema) && i < |schema| && schema[i].required
    requires Validate(schema, payload).Ok?
    ensures schema[i].name in payload
  {
    assert Accepts(schema[i], payload);
  }

  /** On success the value of field i is the payload's, or its default when absent. */
  lemma ParsedValue(schema: Schema, payload: map<string, Value>, i: nat)
    requires WellFormed(schema) && i < |schema| && Validate(schema, payload).Ok?
    ensures schema[i].name in payload ==> Validate(schema, payload).value[schema[i].name] == payload[schema[i].name]
    ensures schema[i].name !in payload ==> Validate(schema, payload).value[schema[i].name] == schema[i].default
    ensures schema[i].name in payload ==> Fits(schema[i], payload[schema[i].name])
  {
    assert Accepts(schema[i], payload);
  }

  /** UserCreate refuses a password shorter than 6 characters. */
  lemma ShortPasswordRefused(payload: map<string, Value>, password: string)
    requires "password" in payload && payload["password"] == Str(password) && |password| < 6
    ensures ValidateUserCreate(payload) == Err(ValueError)
  {
    SchemasAreWellFormed();
    if Validate(UserCreate, payload).Ok? {
      ParsedValue(UserCreate, payload, 4);
    }
  }

  /**
   * password_complexity never refuses a password that min_length=6 let
   * through: UserCreate accepts exactly what its field rules accept.
   */
  lemma PasswordValidatorRedundant(payload: map<string, Value>)
    ensures ValidateUserCreate(payload) == Validate(UserCreate, payload)
  {
    SchemasAreWellFormed();
    if Validate(UserCreate, payload).Ok? {
      ParsedValue(UserCreate, payload, 4);
    }
  }

  /** A created user's username has 3 to 64 characters and its password at least 6. */
  lemma UserCreateBounds(payload: map<string, Value>)
    requires ValidateUserCreate(payload).Ok?
    ensures var f := ValidateUserCreate(payload).value;
            && "username" in f && f["username"].Str? && 3 <= |f["username"].s| <= 64
            && "password" in f && f["password"].Str? && |f["password"].s| >= 6
            && "phone" in f && (f["phone"].Str? ==> |f["phone"].s| <= 20)
  {
    SchemasAreWellFormed();
    PasswordValidatorRedundant(payload);
    RequiredFieldsPresent(UserCreate, payload, 0);
    RequiredFieldsPresent(UserCreate, payload, 4);
    ParsedValue(UserCreate, payload, 0);
    ParsedValue(UserCreate, payload, 2);
    ParsedValue(UserCreate, payload, 4);
  }

  /** An update that names the username gives it 3 to 64 characters or null. */
  lemma UserUpdateBounds(payload: map<string, Value>)
    requires WellFormed(UserUpdate) && Validate(UserUpdate, payload).Ok?
    ensures "username" in payload && payload["username"] != Null ==> payload["username"].Str? && 3 <= |payload["username"].s| <= 64
    ensures "phone" in payload && payload["phone"] != Null ==> payload["phone"].Str? && |payload["phone"].s| <= 20
    ensures "username" !in payload ==> Validate(UserUpdate, payload).value["username"] == Null
  {
    ParsedValue(UserUpdate, payload, 0);
    ParsedValue(UserUpdate, payload, 2);
  }

  /** A role or group name has at most 64 characters, on create and on update. */
  lemma NameBounds(payload: map<string, Value>, create: bool)
    requires WellFormed(if create then RoleCreate else RoleUpdate)
    requires Validate(if create then RoleCreate else RoleUpdate, payload).Ok?
    ensures create ==> "name" in payload
    ensures "name" in payload && payload["name"] != Null ==> payload["name"].Str? && |payload["name"].s| <= 64
  {
    ParsedValue(if create then RoleCreate else RoleUpdate, payload, 0);
  }

  /** An OAuth record names github or google and a provider id of at most 100 characters. */
  lemma OAuthCreateBounds(payload: map<string, Value>)
    requires WellFormed(OAuthCreate) && Validate(OAuthCreate, payload).Ok?
    ensures "provider" in payload && payload["provider"] in {Str("github"), Str("google")}
    ensures "provider_user_id" in payload && payload["provider_user_id"].Str? && |payload["provider_user_id"].s| <= 100
  {
    ParsedValue(OAuthCreate, payload, 0);
    ParsedValue(OAuthCreate, payload, 1);
  }

  /** A bulk assignment lists at least one user. */
  lemma BulkAssignNonEmpty(payload: map<string, Value>, role: bool)
    requires WellFormed(if role then BulkRoleAssign else BulkGroupAssign)
    requires Validate(if role then BulkRoleAssign else BulkGroupAssign, payload).Ok?
    ensures "user_ids" in payload && payload["user_ids"].IntList? && |payload["user_ids"].xs| >= 1
  {
    ParsedValue(if role then BulkRoleAssign else BulkGroupAssign, payload, 0);
  }

  /** The audit window defaults to 7 days and always lies in [1, 365]. */
  lemma AuditDays(payload: map<string, Value>)
    requires WellFormed(AuditStatsRequest)
    ensures Validate(AuditStatsRequest, map[]) == Ok(map["days" := Int(7)])
    ensures Validate(AuditStatsRequest, payload).Ok? ==>
              var d := Validate(AuditStatsRequest, payload).value["days"];
              d.Int? && 1 <= d.i <= 365
  {
    var ok := Validate(AuditStatsRequest, map[]);
    assert ok.Ok? && ok.value.Keys == {"days"};
    if Validate(AuditStatsRequest, payload).Ok? {
      ParsedValue(AuditStatsRequest, payload, 0);
    }
  }
}
