/**
 * The User model: its attributes, the role/status predicates, the `name`
 * mutator/accessor pair, and the hidden and fillable attribute lists.
 */
module UserModel {
  import opened Wrappers
  import opened Json
  import Text

  /**
   * A users row as stored: `name` is the lower-cased value the mutator wrote,
   * `password` the hash. `status` may be null (the create endpoint passes it
   * through when absent).
   */
  datatype User = User(
    id: int,
    name: string,
    email: string,
    password: string,
    status: Option<string>,
    tipo: string,
    emailVerifiedAt: Option<string>,
    rememberToken: Option<string>)
  {
    predicate IsAtivo() { status == Some("ativo") }
    predicate IsRoot() { tipo == "root" }
    predicate IsAdmin() { tipo == "admin" }
    predicate IsGerente() { tipo == "gerente" }
    predicate IsVendedor() { tipo == "vendedor" }
    predicate IsCliente() { tipo == "cliente" }
  }

  /** Each role predicate compares `tipo` with its literal, so at most one holds. */
  lemma AtMostOneRole(u: User)
    ensures u.IsRoot() ==> !u.IsAdmin() && !u.IsGerente() && !u.IsVendedor() && !u.IsCliente()
    ensures u.IsAdmin() ==> !u.IsGerente() && !u.IsVendedor() && !u.IsCliente()
    ensures u.IsGerente() ==> !u.IsVendedor() && !u.IsCliente()
    ensures u.IsVendedor() ==> !u.IsCliente()
    ensures u.IsAtivo() <==> u.status == Some("ativo")
  {
  }

  /** The `name` mutator: what is stored for an assigned name. */
  function SetName(value: string): (stored: string)
    ensures |stored| == |value|
    ensures forall k :: 0 <= k < |value| ==> !Text.IsUpper(stored[k])
  {
    Text.Lower(value)
  }

  /** The `name` accessor: what is read for a stored name. */
  function GetName(stored: string): (shown: string)
    ensures |shown| == |stored|
    ensures Text.Lower(shown) == Text.Lower(stored)
  {
    Text.LowerUndoesUcWords(stored);
    Text.UcWords(stored)
  }

  /** Assigning a name twice stores the same as assigning it once. */
  lemma SetNameIdempotent(value: string)
    ensures SetName(SetName(value)) == SetName(value)
  {
    Text.LowerIdempotent(value);
  }

  /**
   * Reading after writing `x` gives `ucwords(lower(x))`, and writing the name
   * that was read back stores exactly what was stored before.
   */
  lemma NameRoundTrip(value: string)
    ensures GetName(SetName(value)) == Text.UcWords(Text.Lower(value))
    ensures SetName(GetName(SetName(value))) == SetName(value)
  {
    Text.LowerUndoesUcWords(Text.Lower(value));
    Text.LowerIdempotent(value);
  }

  const Fillable: set<string> := {"name", "email", "password", "status", "tipo", "email_verified_at"}
  const Hidden: set<string> := {"password", "remember_token"}
  const AttributeNames: set<string> :=
    {"id", "name", "email", "password", "status", "tipo", "email_verified_at", "remember_token"}

  function Nullable(v: Option<string>): JsonValue {
    match v
    case Some(s) => JStr(s)
    case None => JNull
  }

  /** Every attribute of the row, with the accessor applied to `name`. */
  function Attributes(u: User): map<string, JsonValue> {
    map[
      "id" := JInt(u.id),
      "name" := JStr(GetName(u.name)),
      "email" := JStr(u.email),
      "password" := JStr(u.password),
      "status" := Nullable(u.status),
      "tipo" := JStr(u.tipo),
      "email_verified_at" := Nullable(u.emailVerifiedAt),
      "remember_token" := Nullable(u.rememberToken)]
  }

  /** `toArray()`/JSON serialisation: every attribute except the hidden ones. */
  function Serialize(u: User): (r: JsonValue)
    ensures r.JObject? && r.fields.Keys == AttributeNames - Hidden
    ensures "password" !in r.fields && "remember_token" !in r.fields
    ensures r.fields["name"] == JStr(GetName(u.name)) && r.fields["id"] == JInt(u.id)
  {
    var attrs := Attributes(u);
    JObject(map k | k in attrs && k !in Hidden :: attrs[k])
  }

  /**
   * Mass assignment (`fill`/`update`) of string attributes: fillable keys are
   * written (`name` through its mutator, `password` through the `hashed` cast),
   * any other key is discarded.
   */
  function Fill(u: User, input: map<string, string>, hash: string -> string): (r: User)
    ensures r.id == u.id && r.rememberToken == u.rememberToken
    ensures r.name == (if "name" in input then SetName(input["name"]) else u.name)
    ensures r.email == (if "email" in input then input["email"] else u.email)
    ensures r.password == (if "password" in input then hash(input["password"]) else u.password)
    ensures r.status == (if "status" in input then Some(input["status"]) else u.status)
    ensures r.tipo == (if "tipo" in input then input["tipo"] else u.tipo)
    ensures r.emailVerifiedAt == (if "email_verified_at" in input then Some(input["email_verified_at"]) else u.emailVerifiedAt)
  {
    u.(
      name := if "name" in input then SetName(input["name"]) else u.name,
      email := if "email" in input then input["email"] else u.email,
      password := if "password" in input then hash(input["password"]) else u.password,
      status := if "status" in input then Some(input["status"]) else u.status,
      tipo := if "tipo" in input then input["tipo"] else u.tipo,
      emailVerifiedAt := if "email_verified_at" in input then Some(input["email_verified_at"]) else u.emailVerifiedAt)
  }

  /** Keys outside the fillable list never change a row. */
  lemma FillIgnoresUnfillable(u: User, input: map<string, string>, hash: string -> string)
    requires forall k :: k in input ==> k !in Fillable
    ensures Fill(u, input, hash) == u
  {
  }

  /** `User::create`: a new row from the given attributes, the name through its mutator. */
  function Create(id: int, name: string, email: string, passwordHash: string, status: Option<string>, tipo: string): (u: User)
    ensures u.id == id && u.name == SetName(name) && u.email == email && u.tipo == tipo && u.status == status
    ensures u.password == passwordHash && u.emailVerifiedAt.None? && u.rememberToken.None?
  {
    User(id, SetName(name), email, passwordHash, status, tipo, None, None)
  }
}
