/**
 * The two form requests of the users endpoints: `StoreUserRequest` (create)
 * and `UpdateUserRequest` (partial update with a not-found pre-check).
 *
 * Request values are strings; `None` is a key the request does not carry.
 * Laravel's rule semantics are followed: `required` fails on an absent or
 * blank value and then stops that field; `sometimes` skips every rule of an
 * absent field; any other rule is skipped for a blank value; the remaining
 * rules of a field are all evaluated, and each failure adds its message.
 */
module UserRequests {
  import opened Wrappers
  import opened Exceptions
  import opened UserModel
  import Permissions

  datatype UserInput = UserInput(
    name: Option<string>,
    email: Option<string>,
    password: Option<string>,
    status: Option<string>,
    tipo: Option<string>)

  /** The characters PHP's `trim` removes. */
  predicate IsTrimmed(c: char) {
    c == ' ' || c == '\t' || c == '\n' || c == '\r' || c == '\0' || c == '\U{000B}'
  }

  /** A value that trims to the empty string. */
  predicate Blank(s: string) {
    forall k :: 0 <= k < |s| ==> IsTrimmed(s[k])
  }

  /** What `required` accepts: a present, non-blank value. */
  predicate Filled(v: Option<string>) {
    v.Some? && !Blank(v.value)
  }

  const StatusValues: seq<string> := ["ativo", "inativo", "pendente"]

  /** `array_keys(config('permissions.roles'))`, in the configuration's order. */
  const ProfileKeys: seq<string> := ["root", "admin", "gerente", "vendedor", "cliente"]

  lemma ProfileKeysAreConfiguredRoles()
    ensures forall r :: r in ProfileKeys <==> r in Permissions.Roles
  {
    Permissions.RoleKeys();
  }

  /** `implode`. */
  function Join(parts: seq<string>, sep: string): (r: string)
    ensures parts == [] ==> r == ""
    ensures |parts| == 1 ==> r == parts[0]
  {
    if parts == [] then ""
    else if |parts| == 1 then parts[0]
    else parts[0] + sep + Join(parts[1..], sep)
  }

  const NameRequired: string := "O campo nome é obrigatório."
  const NameMin: string := "O nome deve ter pelo menos 3 caracteres."
  const NameMax: string := "O nome não pode ultrapassar 255 caracteres."
  const EmailRequired: string := "O campo e-mail é obrigatório."
  const EmailFormat: string := "Informe um endereço de e-mail válido."
  const EmailMax: string := "O e-mail não pode ultrapassar 255 caracteres."
  const EmailUnique: string := "Este e-mail já está cadastrado em nossa base de dados."
  const PasswordRequired: string := "O campo senha é obrigatório."
  const PasswordMin6: string := "A senha deve ter no mínimo 6 caracteres."
  /** Laravel's default `min.string` message: the update request has no custom one. */
  const PasswordMin8: string := "The password field must be at least 8 characters."
  const StatusIn: string := "Status inválido. Escolha entre: ativo, inativo ou pendente."

  const TipoInPrefix: string := "Tipo de usuário inválido. Escolha entre os perfis configurados: "

  /** The `tipo.in` message, with the configured profiles written out. */
  const TipoIn: string :=
    TipoInPrefix + "root" + ", " + "admin" + ", " + "gerente" + ", " + "vendedor" + ", " + "cliente" + "."

  /** The message lists the configured profiles as `implode(', ', ...)` does. */
  lemma TipoInListsProfileKeys()
    ensures TipoIn == TipoInPrefix + Join(ProfileKeys, ", ") + "."
  {
    var k := ProfileKeys;
    assert k[1..][1..][1..][1..] == ["cliente"];
    assert Join(k, ", ") == "root" + ", " + ("admin" + ", " + ("gerente" + ", " + ("vendedor" + ", " + "cliente")));
  }

  /** Whether the rules after `required`/`sometimes` run on this value. */
  predicate Checked(v: Option<string>) {
    v.Some? && !Blank(v.value)
  }

  function If(cond: bool, message: string): seq<string> {
    if cond then [message] else []
  }

  function NameErrors(v: Option<string>, required: bool): (errs: seq<string>)
    ensures errs == [] <==> (if required then Filled(v) else true) && (Checked(v) ==> 3 <= |v.value| <= 255)
  {
    if !Checked(v) then If(required, NameRequired)
    else If(|v.value| < 3, NameMin) + If(|v.value| > 255, NameMax)
  }

  /** `unique` is checked against `taken`, the e-mails of the rows the rule looks at. */
  function EmailErrors(v: Option<string>, required: bool, taken: set<string>, isEmail: string -> bool): (errs: seq<string>)
    ensures errs == [] <==>
      (if required then Filled(v) else true)
      && (Checked(v) ==> isEmail(v.value) && |v.value| <= 255 && v.value !in taken)
  {
    if !Checked(v) then If(required, EmailRequired)
    else If(!isEmail(v.value), EmailFormat) + If(|v.value| > 255, EmailMax) + If(v.value in taken, EmailUnique)
  }

  function PasswordErrors(v: Option<string>, required: bool, min: nat, message: string): (errs: seq<string>)
    ensures errs == [] <==> (if required then Filled(v) else true) && (Checked(v) ==> |v.value| >= min)
  {
    if !Checked(v) then If(required, PasswordRequired)
    else If(|v.value| < min, message)
  }

  function InErrors(v: Option<string>, allowed: seq<string>, message: string): (errs: seq<string>)
    ensures errs == [] <==> (Checked(v) ==> v.value in allowed)
  {
    if Checked(v) && v.value !in allowed then [message] else []
  }

  /** The fields that failed, in rule order, each with its messages. */
  function Collect(fields: seq<FieldErrors>): (r: seq<FieldErrors>)
    ensures r == [] <==> forall k :: 0 <= k < |fields| ==> fields[k].messages == []
    ensures forall k :: 0 <= k < |r| ==> r[k].messages != [] && r[k] in fields
  {
    if fields == [] then []
    else (if fields[0].messages == [] then [] else [fields[0]]) + Collect(fields[1..])
  }

  /** The keys of the request that the rules name, with their values: `validated()`. */
  function Validated(i: UserInput): (m: map<string, string>)
    ensures m.Keys <= {"name", "email", "password", "status", "tipo"}
    ensures "name" in m <==> i.name.Some?
    ensures "email" in m <==> i.email.Some?
    ensures "password" in m <==> i.password.Some?
    ensures "status" in m <==> i.status.Some?
    ensures "tipo" in m <==> i.tipo.Some?
    ensures forall k :: k in m ==> m[k] == Field(i, k).value
  {
    var m1: map<string, string> := if i.name.Some? then map["name" := i.name.value] else map[];
    var m2 := if i.email.Some? then m1["email" := i.email.value] else m1;
    var m3 := if i.password.Some? then m2["password" := i.password.value] else m2;
    var m4 := if i.status.Some? then m3["status" := i.status.value] else m3;
    if i.tipo.Some? then m4["tipo" := i.tipo.value] else m4
  }

  function Field(i: UserInput, key: string): Option<string> {
    if key == "name" then i.name
    else if key == "email" then i.email
    else if key == "password" then i.password
    else if key == "status" then i.status
    else if key == "tipo" then i.tipo
    else None
  }

  /** The e-mails of `rows`, except the row whose id is `ignore`. */
  function TakenEmails(rows: seq<User>, ignore: Option<int>): set<string>
  {
    set k | 0 <= k < |rows| && Some(rows[k].id) != ignore :: rows[k].email
  }

  // ---- StoreUserRequest ----------------------------------------------------

  /** The create rules, stated as one condition on the request. */
  predicate StoreValid(i: UserInput, taken: set<string>, isEmail: string -> bool) {
    && Filled(i.name) && 3 <= |i.name.value| <= 255
    && Filled(i.email) && isEmail(i.email.value) && |i.email.value| <= 255 && i.email.value !in taken
    && Filled(i.password) && |i.password.value| >= 6
    && (Checked(i.status) ==> i.status.value in StatusValues)
    && (Checked(i.tipo) ==> i.tipo.value in ProfileKeys)
  }

  function StoreFieldErrors(i: UserInput, taken: set<string>, isEmail: string -> bool): seq<FieldErrors> {
    [ FieldErrors("name", NameErrors(i.name, true)),
      FieldErrors("email", EmailErrors(i.email, true, taken, isEmail)),
      FieldErrors("password", PasswordErrors(i.password, true, 6, PasswordMin6)),
      FieldErrors("status", InErrors(i.status, StatusValues, StatusIn)),
      FieldErrors("tipo", InErrors(i.tipo, ProfileKeys, TipoIn)) ]
  }

  /**
   * Validation of a create request against the e-mails already stored: the
   * validated fields, or a `ValidationException` listing every failed field.
   */
  function ValidateStore(i: UserInput, taken: set<string>, isEmail: string -> bool): (r: Result<map<string, string>, Throwable>)
    ensures r.Ok? <==> StoreValid(i, taken, isEmail)
    ensures r.Ok? ==> r.value == Validated(i)
    ensures r.Err? ==> r.error.ValidationException? && r.error.errors != []
  {
    StoreErrorsIff(i, taken, isEmail);
    var errors := Collect(StoreFieldErrors(i, taken, isEmail));
    if errors == [] then Ok(Validated(i)) else Err(ValidationException(errors))
  }

  lemma StoreErrorsIff(i: UserInput, taken: set<string>, isEmail: string -> bool)
    ensures Collect(StoreFieldErrors(i, taken, isEmail)) == [] <==> StoreValid(i, taken, isEmail)
  {
    var f := StoreFieldErrors(i, taken, isEmail);
    assert (forall k :: 0 <= k < |f| ==> f[k].messages == [])
      <==> f[0].messages == [] && f[1].messages == [] && f[2].messages == [] && f[3].messages == [] && f[4].messages == [];
  }

  /** A missing name, e-mail or password is reported with its own message. */
  lemma StoreReportsMissingFields(i: UserInput, taken: set<string>, isEmail: string -> bool)
    requires i.name.None? && i.email.None? && i.password.None?
    ensures ValidateStore(i, taken, isEmail).Err?
    ensures var msgs := Flatten(ValidateStore(i, taken, isEmail).error.errors);
      NameRequired in msgs && EmailRequired in msgs && PasswordRequired in msgs
  {
    var fields := StoreFieldErrors(i, taken, isEmail);
    var errors := Collect(fields);
    assert fields[0] == FieldErrors("name", [NameRequired]);
    assert fields[1] == FieldErrors("email", [EmailRequired]);
    assert fields[2] == FieldErrors("password", [PasswordRequired]);
    CollectKeeps(fields, 0);
    CollectKeeps(fields, 1);
    CollectKeeps(fields, 2);
    var k0 := FindIn(errors, fields[0]);
    var k1 := FindIn(errors, fields[1]);
    var k2 := FindIn(errors, fields[2]);
    assert NameRequired in errors[k0].messages;
    assert EmailRequired in errors[k1].messages;
    assert PasswordRequired in errors[k2].messages;
  }

  lemma {:induction false} CollectKeeps(fields: seq<FieldErrors>, k: nat)
    requires k < |fields| && fields[k].messages != []
    ensures fields[k] in Collect(fields)
  {
    if k > 0 {
      CollectKeeps(fields[1..], k - 1);
    }
  }

  lemma FindIn(s: seq<FieldErrors>, x: FieldErrors) returns (k: nat)
    requires x in s
    ensures k < |s| && s[k] == x
  {
    k :| k < |s| && s[k] == x;
  }

  // ---- UpdateUserRequest ---------------------------------------------------

  const NotFoundMessage: string := "Usuário não encontrado."

  predicate HasId(rows: seq<User>, id: int) {
    exists k :: 0 <= k < |rows| && rows[k].id == id
  }

  /** The update rules: every field optional, uniqueness ignoring the edited row. */
  predicate UpdateValid(i: UserInput, taken: set<string>, isEmail: string -> bool) {
    && (Checked(i.name) ==> 3 <= |i.name.value| <= 255)
    && (Checked(i.email) ==> isEmail(i.email.value) && |i.email.value| <= 255 && i.email.value !in taken)
    && (Checked(i.password) ==> |i.password.value| >= 8)
    && (Checked(i.status) ==> i.status.value in StatusValues)
    && (Checked(i.tipo) ==> i.tipo.value in ProfileKeys)
  }

  function UpdateFieldErrors(i: UserInput, taken: set<string>, isEmail: string -> bool): seq<FieldErrors> {
    [ FieldErrors("name", NameErrors(i.name, false)),
      FieldErrors("email", EmailErrors(i.email, false, taken, isEmail)),
      FieldErrors("password", PasswordErrors(i.password, false, 8, PasswordMin8)),
      FieldErrors("status", InErrors(i.status, StatusValues, StatusIn)),
      FieldErrors("tipo", InErrors(i.tipo, ProfileKeys, TipoIn)) ]
  }

  /**
   * The update request for the row `id`: not found before any rule runs,
   * then the partial-update rules with the row's own e-mail ignored.
   */
  function ValidateUpdate(i: UserInput, rows: seq<User>, id: int, isEmail: string -> bool): (r: Result<map<string, string>, Throwable>)
    ensures !HasId(rows, id) <==> r == Err(ModelNotFound(NotFoundMessage))
    ensures r.Ok? <==> HasId(rows, id) && UpdateValid(i, TakenEmails(rows, Some(id)), isEmail)
    ensures r.Ok? ==> r.value == Validated(i)
    ensures r.Err? && HasId(rows, id) ==> r.error.ValidationException? && r.error.errors != []
  {
    if !HasId(rows, id) then Err(ModelNotFound(NotFoundMessage))
    else
      UpdateErrorsIff(i, TakenEmails(rows, Some(id)), isEmail);
      var errors := Collect(UpdateFieldErrors(i, TakenEmails(rows, Some(id)), isEmail));
      if errors == [] then Ok(Validated(i)) else Err(ValidationException(errors))
  }

  lemma UpdateErrorsIff(i: UserInput, taken: set<string>, isEmail: string -> bool)
    ensures Collect(UpdateFieldErrors(i, taken, isEmail)) == [] <==> UpdateValid(i, taken, isEmail)
  {
    var f := UpdateFieldErrors(i, taken, isEmail);
    assert (forall k :: 0 <= k < |f| ==> f[k].messages == [])
      <==> f[0].messages == [] && f[1].messages == [] && f[2].messages == [] && f[3].messages == [] && f[4].messages == [];
  }

  /** An update request carrying no field at all is valid and changes nothing. */
  lemma EmptyUpdateValid(rows: seq<User>, id: int, isEmail: string -> bool)
    requires HasId(rows, id)
    ensures ValidateUpdate(UserInput(None, None, None, None, None), rows, id, isEmail) == Ok(map[])
  {
  }

  /** Re-sending the row's own e-mail never trips `unique`, whatever other rows hold. */
  lemma UpdateKeepsOwnEmail(rows: seq<User>, k: nat, isEmail: string -> bool)
    requires k < |rows|
    requires forall j :: 0 <= j < |rows| && j != k ==> rows[j].email != rows[k].email
    requires isEmail(rows[k].email) && |rows[k].email| <= 255
    ensures ValidateUpdate(UserInput(None, Some(rows[k].email), None, None, None), rows, rows[k].id, isEmail).Ok?
  {
    assert HasId(rows, rows[k].id);
  }

  /** A 6- or 7-character password is accepted on create and refused on update. */
  lemma PasswordStricterOnUpdate(pw: string, taken: set<string>, isEmail: string -> bool)
    requires 6 <= |pw| < 8 && !Blank(pw)
    ensures PasswordErrors(Some(pw), true, 6, PasswordMin6) == []
    ensures PasswordErrors(Some(pw), false, 8, PasswordMin8) == [PasswordMin8]
    ensures !UpdateValid(UserInput(None, None, Some(pw), None, None), taken, isEmail)
  {
  }
}
