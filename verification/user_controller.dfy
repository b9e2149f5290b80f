/**
 * UserController: the listing query of `index`, the authorization chain and
 * the write of `store` and `update`, and the CSV upload that schedules the
 * client import.
 */
module UserController {
  import opened Wrappers
  import opened Json
  import opened Exceptions
  import opened UserModel
  import opened AuthService
  import opened UserRequests
  import opened UserTable
  import opened ImportClientes
  import ApiExceptionHandler
  import Text

  /**
   * Which `canManageUser` the controller calls: the method as shipped, which
   * returns before its rule, or the hierarchy rule its body documents.
   */
  datatype Policy = AsShipped | RuleEnforced

  function Manage(policy: Policy, perfilOperador: string, perfilAlvo: Option<string>, idOperador: Option<int>, idAlvo: Option<int>): (r: Outcome<Throwable>)
    ensures r == Pass ==> perfilAlvo.Some?
    ensures policy == AsShipped ==> (r == Pass <==> perfilAlvo.Some?)
  {
    match policy
    case AsShipped => CanManageUser(perfilOperador, perfilAlvo, idOperador, idAlvo)
    case RuleEnforced => HierarchyRule(perfilOperador, perfilAlvo, idOperador, idAlvo)
  }

  // ---- index ---------------------------------------------------------------

  /** The query string of `index`; `None` is a parameter the request does not carry. */
  datatype IndexRequest = IndexRequest(filter: Option<string>, perPage: Option<int>, page: Option<int>)

  const DefaultPerPage: int := 30
  const DefaultPage: int := 1
  /** Eloquent's `Model::$perPage`, which `paginate` falls back to for a falsy page size. */
  const ModelPerPage: int := 15

  /** The page size the paginator reports: 30 when absent, the model's 15 for 0, otherwise as given. */
  function PageSize(perPage: Option<int>): (n: int)
    ensures n != 0
    ensures perPage.None? ==> n == DefaultPerPage
    ensures perPage == Some(0) ==> n == ModelPerPage
    ensures perPage.Some? && perPage.value != 0 ==> n == perPage.value
  {
    match perPage
    case None => DefaultPerPage
    case Some(v) => if v == 0 then ModelPerPage else v
  }

  /** The current page the paginator reports: a page below 1 is replaced by 1. */
  function CurrentPage(page: Option<int>): (p: int)
    ensures p >= 1
    ensures page.Some? && page.value >= 1 <==> page.Some? && p == page.value
    ensures page.None? ==> p == DefaultPage
  {
    match page
    case None => DefaultPage
    case Some(v) => if v >= 1 then v else 1
  }

  /** `is_numeric` for the filters the listing sees: an optional sign and at least one digit. */
  predicate IsNumeric(s: string) {
    if |s| > 0 && (s[0] == '-' || s[0] == '+') then |s| > 1 && Text.AllDigits(s[1..])
    else |s| > 0 && Text.AllDigits(s)
  }

  function NumericValue(s: string): int
    requires IsNumeric(s)
  {
    if s[0] == '-' then -(Text.ParseDigits(s[1..]) as int)
    else if s[0] == '+' then Text.ParseDigits(s[1..])
    else Text.ParseDigits(s)
  }

  /** `if ($filter)`: an absent filter, "" and "0" do not filter. */
  predicate FilterActive(filter: Option<string>) {
    filter.Some? && Truthy(JStr(filter.value))
  }

  /** The `where` group: name or e-mail contains the filter, or a numeric filter equals the id. */
  predicate Matches(u: User, f: string) {
    Text.Contains(u.name, f) || Text.Contains(u.email, f) || (IsNumeric(f) && u.id == NumericValue(f))
  }

  predicate Selected(u: User, filter: Option<string>) {
    !FilterActive(filter) || Matches(u, filter.value)
  }

  /** The rows `keep` selects, last one first. */
  function Newest(rows: seq<User>, keep: User -> bool): (r: seq<User>)
    ensures forall u :: u in r <==> u in rows && keep(u)
    ensures |r| <= |rows|
    ensures (forall u :: keep(u)) ==> |r| == |rows|
  {
    if rows == [] then []
    else
      var last := rows[|rows| - 1];
      (if keep(last) then [last] else []) + Newest(rows[..|rows| - 1], keep)
  }

  /** Rows in ascending id order come out in strictly descending id order. */
  lemma {:induction false} NewestDescending(rows: seq<User>, keep: User -> bool)
    requires forall i, j :: 0 <= i < j < |rows| ==> rows[i].id < rows[j].id
    ensures forall i, j :: 0 <= i < j < |Newest(rows, keep)| ==> Newest(rows, keep)[i].id > Newest(rows, keep)[j].id
  {
    if rows != [] {
      var last := rows[|rows| - 1];
      var prefix := rows[..|rows| - 1];
      NewestDescending(prefix, keep);
      var rest := Newest(prefix, keep);
      forall u | u in rest
        ensures u.id < last.id
      {
        var k :| 0 <= k < |prefix| && prefix[k] == u;
      }
      if keep(last) {
        DescendingCons(last, rest);
      }
    }
  }

  /** Putting a row in front of a descending list of lower ids keeps it descending. */
  lemma DescendingCons(first: User, rest: seq<User>)
    requires forall i, j :: 0 <= i < j < |rest| ==> rest[i].id > rest[j].id
    requires forall u :: u in rest ==> u.id < first.id
    ensures forall i, j :: 0 <= i < j < |[first] + rest| ==> ([first] + rest)[i].id > ([first] + rest)[j].id
  {
    var r := [first] + rest;
    forall i, j | 0 <= i < j < |r|
      ensures r[i].id > r[j].id
    {
      assert r[j] == rest[j - 1] && rest[j - 1] in rest;
      if i > 0 {
        assert r[i] == rest[i - 1];
      }
    }
  }

  /** The rows the query selects, last inserted first (`orderBy('id', 'DESC')`). */
  function Listing(rows: seq<User>, filter: Option<string>): (r: seq<User>)
    ensures forall u :: u in r <==> u in rows && Selected(u, filter)
    ensures !FilterActive(filter) ==> |r| == |rows|
  {
    Newest(rows, u => Selected(u, filter))
  }

  /** With auto-increment ids, the listing is in strictly descending id order. */
  lemma ListingDescending(rows: seq<User>, filter: Option<string>)
    requires forall i, j :: 0 <= i < j < |rows| ==> rows[i].id < rows[j].id
    ensures forall i, j :: 0 <= i < j < |Listing(rows, filter)| ==> Listing(rows, filter)[i].id > Listing(rows, filter)[j].id
  {
    NewestDescending(rows, u => Selected(u, filter));
  }

  /** A numeric filter also finds the row with that id, whatever its name and e-mail. */
  lemma NumericFilterFindsId(rows: seq<User>, k: nat, f: string)
    requires k < |rows| && IsNumeric(f) && f != "0" && rows[k].id == NumericValue(f)
    ensures rows[k] in Listing(rows, Some(f))
  {
  }

  function SerializeAll(users: seq<User>): (r: seq<JsonValue>)
    ensures |r| == |users|
    ensures forall k :: 0 <= k < |users| ==> r[k] == Serialize(users[k])
  {
    if users == [] then [] else [Serialize(users[0])] + SerializeAll(users[1..])
  }

  /**
   * `index`: the listing, serialised, with the page size and current page
   * as the paginator resolves them.
   */
  function Index(rows: seq<User>, req: IndexRequest): (r: Response)
    ensures r.status == 200 && IsEnvelope(r) && MessageOf(r) == JStr("Listagem de usuários")
    ensures DataOf(r) == JObject(map[
      "data" := JList(SerializeAll(Listing(rows, req.filter))),
      "per_page" := JInt(PageSize(req.perPage)),
      "current_page" := JInt(CurrentPage(req.page))])
  {
    var page := map[
      "data" := JList(SerializeAll(Listing(rows, req.filter))),
      "per_page" := JInt(PageSize(req.perPage)),
      "current_page" := JInt(CurrentPage(req.page))];
    ReturnJson(JObject(page), "Listagem de usuários", JBool(true), 200)
  }

  // ---- store ---------------------------------------------------------------

  const CreatedMessage: string := "Usuário criado com sucesso."

  datatype Created = Created(user: User, response: Response)

  /**
   * What `store` does to a table holding `rows` with next id `nextId`: the
   * request is validated, then the operator's role is checked against the
   * requested role with no ids, then the user is created.
   */
  function StoreSpec(rows: seq<User>, nextId: int, operator: User, input: UserInput, isEmail: string -> bool,
                     hash: string -> string, policy: Policy): (r: Result<Created, Throwable>)
    ensures r.Ok? <==> StoreValid(input, Emails(rows), isEmail) && Manage(policy, operator.tipo, input.tipo, None, None) == Pass
    ensures !StoreValid(input, Emails(rows), isEmail) ==> r.Err? && r.error.ValidationException?
    ensures r.Ok? ==> input.tipo.Some? && r.value.user == Create(nextId, input.name.value, input.email.value,
                                                                 hash(input.password.value), input.status, input.tipo.value)
    ensures r.Ok? ==> r.value.response == ReturnJson(Serialize(r.value.user), CreatedMessage, JBool(true), 201)
  {
    var v := ValidateStore(input, Emails(rows), isEmail);
    if v.Err? then Err(v.error)
    else
      match Manage(policy, operator.tipo, input.tipo, None, None)
      case Fail(e) => Err(e)
      case Pass =>
        var u := Create(nextId, input.name.value, input.email.value, hash(input.password.value), input.status, input.tipo.value);
        Ok(Created(u, ReturnJson(Serialize(u), CreatedMessage, JBool(true), 201)))
  }

  /** `store` on the table: the write happens only after both checks pass. */
  method Store(table: Table, operator: User, input: UserInput, isEmail: string -> bool, hash: string -> string, policy: Policy)
    returns (r: Result<Response, Throwable>)
    requires table.Valid()
    modifies table
    ensures table.Valid()
    ensures match StoreSpec(old(table.rows), old(table.nextId), operator, input, isEmail, hash, policy)
      case Ok(c) => r == Ok(c.response) && table.rows == old(table.rows) + [c.user] && table.nextId == old(table.nextId) + 1
      case Err(e) => r == Err(e) && table.rows == old(table.rows) && table.nextId == old(table.nextId)
  {
    var v := ValidateStore(input, Emails(table.rows), isEmail);
    if v.Err? {
      return Err(v.error);
    }
    var check := Manage(policy, operator.tipo, input.tipo, None, None);
    if check.Fail? {
      return Err(check.error);
    }
    var created := table.Insert(input.name.value, input.email.value, hash(input.password.value), input.status, input.tipo.value);
    if created.Err? {
      assert false;
    }
    r := Ok(ReturnJson(Serialize(created.value), CreatedMessage, JBool(true), 201));
  }

  /**
   * A valid create request without `tipo` reaches `canManageUser` with a null
   * role: a TypeError, which the API renderer does not handle.
   */
  lemma StoreWithoutTipoFails(rows: seq<User>, nextId: int, operator: User, input: UserInput, isEmail: string -> bool,
                              hash: string -> string, policy: Policy, path: string, debug: bool)
    requires StoreValid(input, Emails(rows), isEmail) && input.tipo.None?
    ensures StoreSpec(rows, nextId, operator, input, isEmail, hash, policy) == Err(TypeError(TypeErrorMessage))
    ensures ApiExceptionHandler.Render(TypeError(TypeErrorMessage), path, debug).None?
  {
  }

  /** As shipped, any operator creates a user of any configured role it asks for. */
  lemma ShippedStoreCreatesAnyRole(rows: seq<User>, nextId: int, operator: User, input: UserInput, isEmail: string -> bool,
                                   hash: string -> string)
    requires StoreValid(input, Emails(rows), isEmail) && input.tipo.Some?
    ensures StoreSpec(rows, nextId, operator, input, isEmail, hash, AsShipped).Ok?
    ensures StoreSpec(rows, nextId, operator, input, isEmail, hash, AsShipped).value.user.tipo == input.tipo.value
  {
  }

  /**
   * Creation passes no ids, so the self-edit exemption never applies: under
   * the rule a gerente cannot create a gerente, though it may edit itself.
   */
  lemma StoreHasNoSelfPath(rows: seq<User>, nextId: int, operator: User, input: UserInput, isEmail: string -> bool,
                           hash: string -> string)
    requires StoreValid(input, Emails(rows), isEmail) && operator.id != 0
    requires operator.tipo == "gerente" && input.tipo == Some("gerente")
    ensures StoreSpec(rows, nextId, operator, input, isEmail, hash, RuleEnforced) == Err(AccessDenied(GerenteDenied))
    ensures HierarchyRule("gerente", Some("gerente"), Some(operator.id), Some(operator.id)) == Pass
  {
    assert "gerente" != "root" && "gerente" != "admin";
    assert Manage(RuleEnforced, operator.tipo, input.tipo, None, None) == Fail(AccessDenied(GerenteDenied));
    var v := ValidateStore(input, Emails(rows), isEmail);
    assert v.Ok?;
  }

  // ---- update --------------------------------------------------------------

  const UpdatedMessage: string := "Atualização efetuada com sucesso!"

  datatype Updated = Updated(index: nat, user: User, response: Response)

  /** Whether `update` runs its second check: the request carries a different role. */
  predicate ChangesRole(input: UserInput, target: User) {
    input.tipo.Some? && input.tipo.value != target.tipo
  }

  /**
   * The two checks `update` runs, in order: against the target's current
   * role (with both ids), then, only for a different requested role,
   * against that role (without the target id). The first failure is raised.
   */
  function UpdateChecks(policy: Policy, operator: User, target: User, input: UserInput): (r: Outcome<Throwable>)
    ensures r == Pass <==>
      && Manage(policy, operator.tipo, Some(target.tipo), Some(operator.id), Some(target.id)) == Pass
      && (ChangesRole(input, target) ==> Manage(policy, operator.tipo, input.tipo, Some(operator.id), None) == Pass)
  {
    match Manage(policy, operator.tipo, Some(target.tipo), Some(operator.id), Some(target.id))
    case Fail(e) => Fail(e)
    case Pass => if ChangesRole(input, target) then Manage(policy, operator.tipo, input.tipo, Some(operator.id), None) else Pass
  }

  /**
   * What `update` does to the row with id `id`: the not-found pre-check and
   * the rules, then the two role checks, then the validated fields are
   * written to that one row, unless the unique index refuses its e-mail.
   */
  function UpdateSpec(rows: seq<User>, operator: User, id: int, input: UserInput, isEmail: string -> bool,
                      hash: string -> string, policy: Policy): (r: Result<Updated, Throwable>)
    ensures !HasId(rows, id) ==> r == Err(ModelNotFound(NotFoundMessage))
    ensures r.Ok? ==> && r.value.index < |rows| && rows[r.value.index].id == id
                      && r.value.user == Fill(rows[r.value.index], Validated(input), hash)
                      && r.value.response == ReturnJson(Serialize(r.value.user), UpdatedMessage, JBool(true), 200)
  {
    var v := ValidateUpdate(input, rows, id, isEmail);
    if v.Err? then Err(v.error)
    else
      var k := IndexOf(rows, id).value;
      match UpdateChecks(policy, operator, rows[k], input)
      case Fail(e) => Err(e)
      case Pass =>
        var updated := Fill(rows[k], v.value, hash);
        if updated.email in Emails(Others(rows, k))
        then Err(UniqueConstraintViolation(DuplicateEmailMessage(updated.email)))
        else Ok(Updated(k, updated, ReturnJson(Serialize(updated), UpdatedMessage, JBool(true), 200)))
  }

  /** The update succeeds exactly when validation and both role checks pass and the filled row's e-mail is free. */
  lemma UpdateSpecOkIff(rows: seq<User>, operator: User, id: int, input: UserInput, isEmail: string -> bool,
                        hash: string -> string, policy: Policy)
    ensures UpdateSpec(rows, operator, id, input, isEmail, hash, policy).Ok? <==>
      && HasId(rows, id) && UpdateValid(input, TakenEmails(rows, Some(id)), isEmail)
      && UpdateChecks(policy, operator, rows[IndexOf(rows, id).value], input) == Pass
      && Fill(rows[IndexOf(rows, id).value], Validated(input), hash).email !in Emails(Others(rows, IndexOf(rows, id).value))
  {
    if HasId(rows, id) && UpdateValid(input, TakenEmails(rows, Some(id)), isEmail) {
      assert ValidateUpdate(input, rows, id, isEmail) == Ok(Validated(input));
    }
  }

  /** `update` on the table: any failed check leaves every row as it was. */
  method Update(table: Table, operator: User, id: int, input: UserInput, isEmail: string -> bool, hash: string -> string, policy: Policy)
    returns (r: Result<Response, Throwable>)
    requires table.Valid()
    modifies table
    ensures table.Valid() && table.nextId == old(table.nextId)
    ensures match UpdateSpec(old(table.rows), operator, id, input, isEmail, hash, policy)
      case Ok(u) => r == Ok(u.response) && table.rows == old(table.rows)[u.index := u.user]
      case Err(e) => r == Err(e) && table.rows == old(table.rows)
  {
    ghost var before := table.rows;
    ghost var spec := UpdateSpec(before, operator, id, input, isEmail, hash, policy);
    var v := ValidateUpdate(input, table.rows, id, isEmail);
    if v.Err? {
      assert spec == Err(v.error);
      return Err(v.error);
    }
    var k := IndexOf(table.rows, id).value;
    var checks := UpdateChecks(policy, operator, table.rows[k], input);
    if checks.Fail? {
      UpdateSpecDenied(before, operator, id, input, isEmail, hash, policy);
      return Err(checks.error);
    }
    UpdateSpecWrite(before, operator, id, input, isEmail, hash, policy);
    var written := table.Update(k, v.value, hash);
    if written.Err? {
      return Err(written.error);
    }
    r := Ok(ReturnJson(Serialize(written.value), UpdatedMessage, JBool(true), 200));
  }

  /** A role check that fails is the outcome of UpdateSpec. */
  lemma UpdateSpecDenied(rows: seq<User>, operator: User, id: int, input: UserInput, isEmail: string -> bool,
                         hash: string -> string, policy: Policy)
    requires ValidateUpdate(input, rows, id, isEmail).Ok?
    requires UpdateChecks(policy, operator, rows[IndexOf(rows, id).value], input).Fail?
    ensures UpdateSpec(rows, operator, id, input, isEmail, hash, policy)
         == Err(UpdateChecks(policy, operator, rows[IndexOf(rows, id).value], input).error)
  {
  }

  /** Once validation and both checks pass, UpdateSpec is the unique index's answer to the filled row. */
  lemma UpdateSpecWrite(rows: seq<User>, operator: User, id: int, input: UserInput, isEmail: string -> bool,
                        hash: string -> string, policy: Policy)
    requires ValidateUpdate(input, rows, id, isEmail).Ok?
    requires UpdateChecks(policy, operator, rows[IndexOf(rows, id).value], input).Pass?
    ensures var k := IndexOf(rows, id).value;
      var updated := Fill(rows[k], ValidateUpdate(input, rows, id, isEmail).value, hash);
      UpdateSpec(rows, operator, id, input, isEmail, hash, policy)
        == if updated.email in Emails(Others(rows, k))
           then Err(UniqueConstraintViolation(DuplicateEmailMessage(updated.email)))
           else Ok(Updated(k, updated, ReturnJson(Serialize(updated), UpdatedMessage, JBool(true), 200)))
  {
  }

  /** In a well-formed table, the rows other than the one with id `id` are those `unique` looks at. */
  lemma OthersAreIgnoredRows(rows: seq<User>, nextId: int, k: nat)
    requires WellFormed(rows, nextId) && k < |rows|
    ensures Emails(Others(rows, k)) == TakenEmails(rows, Some(rows[k].id))
  {
    var others := Others(rows, k);
    forall e | e in Emails(others)
      ensures e in TakenEmails(rows, Some(rows[k].id))
    {
      var j :| 0 <= j < |others| && others[j].email == e;
      var i := if j < k then j else j + 1;
      assert others[j] == rows[i];
    }
    forall e | e in TakenEmails(rows, Some(rows[k].id))
      ensures e in Emails(others)
    {
      var i :| 0 <= i < |rows| && rows[i].email == e && Some(rows[i].id) != Some(rows[k].id);
      var j := if i < k then i else i - 1;
      assert others[j] == rows[i];
    }
  }

  /**
   * In a well-formed table, the row filled with validated fields keeps an
   * e-mail no other row has, unless the request sends a blank e-mail.
   */
  lemma FilledEmailIsFree(rows: seq<User>, nextId: int, k: nat, input: UserInput, isEmail: string -> bool, hash: string -> string)
    requires WellFormed(rows, nextId) && k < |rows|
    requires UpdateValid(input, TakenEmails(rows, Some(rows[k].id)), isEmail)
    requires input.email.Some? ==> !Blank(input.email.value)
    ensures Fill(rows[k], Validated(input), hash).email !in Emails(Others(rows, k))
  {
    OthersAreIgnoredRows(rows, nextId, k);
    var updated := Fill(rows[k], Validated(input), hash);
    if input.email.None? {
      assert updated.email == rows[k].email;
    }
  }

  /**
   * Once validation has passed, the unique index never refuses the write,
   * unless the request sends a blank e-mail (whose rules are skipped).
   */
  lemma ValidatedUpdateNeverClashes(rows: seq<User>, nextId: int, operator: User, id: int, input: UserInput,
                                    isEmail: string -> bool, hash: string -> string, policy: Policy)
    requires WellFormed(rows, nextId)
    requires input.email.Some? ==> !Blank(input.email.value)
    ensures var r := UpdateSpec(rows, operator, id, input, isEmail, hash, policy);
      r.Err? ==> !r.error.UniqueConstraintViolation?
  {
    if HasId(rows, id) && UpdateValid(input, TakenEmails(rows, Some(id)), isEmail) {
      var k := IndexOf(rows, id).value;
      FilledEmailIsFree(rows, nextId, k, input, isEmail, hash);
    }
  }

  /**
   * Under the rule, a vendedor editing its own record may change other
   * fields but cannot give itself the admin role; as shipped, it can.
   */
  lemma SelfPromotion(rows: seq<User>, nextId: int, k: nat, isEmail: string -> bool, hash: string -> string)
    requires WellFormed(rows, nextId) && k < |rows| && rows[k].tipo == "vendedor"
    ensures UpdateSpec(rows, rows[k], rows[k].id, UserInput(None, None, None, None, Some("admin")), isEmail, hash, RuleEnforced)
      == Err(AccessDenied(VendedorDenied))
    ensures var shipped := UpdateSpec(rows, rows[k], rows[k].id, UserInput(None, None, None, None, Some("admin")), isEmail, hash, AsShipped);
      shipped.Ok? && shipped.value.user.tipo == "admin"
  {
    var input := UserInput(None, None, None, None, Some("admin"));
    assert HasId(rows, rows[k].id);
    var i := IndexOf(rows, rows[k].id).value;
    assert i == k;
    assert rows[k].id > 0;
    assert UpdateValid(input, TakenEmails(rows, Some(rows[k].id)), isEmail);
    assert ChangesRole(input, rows[k]);
    assert "vendedor" != "root" && "vendedor" != "admin" && "vendedor" != "gerente" && "admin" != "cliente";
    assert Manage(RuleEnforced, "vendedor", Some("admin"), Some(rows[k].id), None) == Fail(AccessDenied(VendedorDenied));
    assert UpdateChecks(RuleEnforced, rows[k], rows[k], input) == Fail(AccessDenied(VendedorDenied));
    assert UpdateChecks(AsShipped, rows[k], rows[k], input) == Pass;
    FilledEmailIsFree(rows, nextId, k, input, isEmail, hash);
  }

  // ---- uploadClientes ------------------------------------------------------

  /**
   * The uploaded `arquivo`: whether PHP received it whole, the extension
   * guessed from its content type, its size, and the rows it holds.
   */
  datatype UploadedFile = UploadedFile(uploadOk: bool, guessedExtension: string, sizeBytes: nat, rows: seq<seq<string>>)

  const MaxUploadKilobytes: nat := 10240
  const ArquivoRequired: string := "The arquivo field is required."
  const ArquivoNotUploaded: string := "The arquivo failed to upload."
  const ArquivoMimes: string := "O arquivo enviado não é um CSV válido."
  const ArquivoMax: string := "O arquivo excede o limite de segurança de 10MB."
  const ScheduledMessage: string :=
    "A importação foi agendada. O sistema processará os dados e enviará um relatório detalhado para seu e-mail."
  const UploadDirectory: string := "uploads/csv"

  /** The rules on `arquivo`: required, an uploaded file, csv or txt, at most 10240 KB. */
  function ValidateUpload(file: Option<UploadedFile>): (r: Outcome<Throwable>)
    ensures r == Pass <==>
      file.Some? && file.value.uploadOk && file.value.guessedExtension in ["csv", "txt"]
      && file.value.sizeBytes <= MaxUploadKilobytes * 1024
    ensures r.Fail? ==> r.error.ValidationException? && |r.error.errors| == 1 && r.error.errors[0].field == "arquivo"
  {
    if file.None? then Fail(ValidationException([FieldErrors("arquivo", [ArquivoRequired])]))
    else if !file.value.uploadOk then Fail(ValidationException([FieldErrors("arquivo", [ArquivoNotUploaded])]))
    else
      var errs := If(file.value.guessedExtension !in ["csv", "txt"], ArquivoMimes)
                + If(file.value.sizeBytes > MaxUploadKilobytes * 1024, ArquivoMax);
      if errs == [] then Pass else Fail(ValidationException([FieldErrors("arquivo", errs)]))
  }

  /**
   * `uploadClientes`: a valid file is stored under `uploads/csv` (as
   * `storedName`, the name the storage generates), one import job for it is
   * queued for the operator, and the answer is 202; otherwise nothing is
   * stored or queued.
   */
  method UploadClientes(storage: FileStorage, operator: User, file: Option<UploadedFile>, storedName: string)
    returns (r: Result<Response, Throwable>, queued: seq<ImportJob>)
    modifies storage
    ensures ValidateUpload(file).Fail? ==>
      r == Err(ValidateUpload(file).error) && queued == [] && storage.files == old(storage.files)
    ensures ValidateUpload(file) == Pass ==>
      var path := UploadDirectory + "/" + storedName;
      && storage.files == old(storage.files)[path := file.value.rows]
      && queued == [ImportJob(path, operator)]
      && r == Ok(ReturnJson(JNull, ScheduledMessage, JBool(true), 202))
  {
    var check := ValidateUpload(file);
    if check.Fail? {
      return Err(check.error), [];
    }
    var path := UploadDirectory + "/" + storedName;
    storage.files := storage.files[path := file.value.rows];
    queued := [ImportJob(path, operator)];
    r := Ok(ReturnJson(JNull, ScheduledMessage, JBool(true), 202));
  }

  /** The scheduled answer is a success envelope with no data and code 202. */
  lemma UploadAnswer()
    ensures var r := ReturnJson(JNull, ScheduledMessage, JBool(true), 202);
      r.status == 202 && IsEnvelope(r) && DataOf(r) == JNull && !IsFailureEnvelope(r)
  {
  }
}
