/**
 * AuthService: the (role x module x action) permission check against the
 * matrix, and the manager/target hierarchy check for user management, both
 * as shipped (which returns before evaluating any rule) and as its rule body.
 */
module AuthService {
  import opened Wrappers
  import opened Exceptions
  import opened UserModel
  import opened Permissions

  const UnauthenticatedMessage: string := "Usuário não autenticado."
  const InactiveMessage: string := "Acesso negado. Usuário inativo ou não autenticado."
  const ConfigMissingMessage: string := "Config permissions.php NÃO está sendo carregado."

  function RoleNotConfiguredMessage(tipo: string): string {
    "Perfil de usuário '" + tipo + "' não configurado."
  }

  function ActionDeniedMessage(tipo: string, modulo: string, metodo: string): string {
    "Ação não autorizada. O perfil '" + tipo + "' não tem permissão para '" + metodo
      + "' no módulo '" + modulo + "'."
  }

  /** The generic exception thrown when the configuration did not load (AuthService.php line 56). */
  const ConfigMissing: Throwable := GenericException(ConfigMissingMessage, "app/Services/AuthService.php", 56, [])

  /**
   * `checkPermission`: `authUser` is the authenticated user (None when there is
   * none), `config` what `config('permissions.roles')` returns (None for null).
   * Root is admitted first, before the status check and any matrix lookup;
   * everyone else must be active and be granted the action by the matrix.
   */
  function CheckPermission(authUser: Option<User>, config: Option<Matrix>, modulo: string, metodo: string): (r: Outcome<Throwable>)
    ensures r == Pass <==>
      authUser.Some? && (authUser.value.IsRoot()
        || (authUser.value.IsAtivo() && config.Some? && Grants(config.value, authUser.value.tipo, modulo, metodo)))
    ensures r.Fail? ==> r.error.IsException() && (r.error.HttpException? || r.error == ConfigMissing)
    ensures r.Fail? && r.error.HttpException? ==> r.error.kind == AccessDeniedHttp && r.error.statusCode == 403
  {
    if authUser.None? then Fail(AccessDenied(UnauthenticatedMessage))
    else
      var u := authUser.value;
      if u.tipo == "root" then Pass
      else if !u.IsAtivo() then Fail(AccessDenied(InactiveMessage))
      else if config.None? then Fail(ConfigMissing)
      else if u.tipo !in config.value then Fail(AccessDenied(RoleNotConfiguredMessage(u.tipo)))
      else if !(modulo in config.value[u.tipo] && metodo in config.value[u.tipo][modulo]) then
        Fail(AccessDenied(ActionDeniedMessage(u.tipo, modulo, metodo)))
      else Pass
  }

  /** Which denial each failing case gets, in the order the checks run. */
  lemma CheckPermissionReasons(authUser: Option<User>, config: Option<Matrix>, modulo: string, metodo: string)
    ensures authUser.None? ==> CheckPermission(authUser, config, modulo, metodo) == Fail(AccessDenied(UnauthenticatedMessage))
    ensures authUser.Some? && !authUser.value.IsRoot() && !authUser.value.IsAtivo()
      ==> CheckPermission(authUser, config, modulo, metodo) == Fail(AccessDenied(InactiveMessage))
    ensures authUser.Some? && !authUser.value.IsRoot() && authUser.value.IsAtivo() && config.None?
      ==> CheckPermission(authUser, config, modulo, metodo) == Fail(ConfigMissing)
    ensures authUser.Some? && !authUser.value.IsRoot() && authUser.value.IsAtivo() && config.Some?
        && authUser.value.tipo !in config.value
      ==> CheckPermission(authUser, config, modulo, metodo) == Fail(AccessDenied(RoleNotConfiguredMessage(authUser.value.tipo)))
    ensures authUser.Some? && !authUser.value.IsRoot() && authUser.value.IsAtivo() && config.Some?
        && authUser.value.tipo in config.value
        && !(modulo in config.value[authUser.value.tipo] && metodo in config.value[authUser.value.tipo][modulo])
      ==> (CheckPermission(authUser, config, modulo, metodo)
           == Fail(AccessDenied(ActionDeniedMessage(authUser.value.tipo, modulo, metodo))))
  {
  }

  /**
   * With the shipped matrix, an active non-root user is admitted exactly for the
   * pairs its role lists; `*` is an ordinary name, so it never admits anything
   * for these roles, and a user whose role is not configured is always denied.
   */
  lemma CheckPermissionShippedMatrix(u: User, modulo: string, metodo: string)
    requires !u.IsRoot() && u.IsAtivo()
    ensures CheckPermission(Some(u), Some(Roles), modulo, metodo) == Pass
      <==> u.tipo in Roles && modulo in Roles[u.tipo] && metodo in Roles[u.tipo][modulo]
    ensures u.tipo !in RoleNames ==> CheckPermission(Some(u), Some(Roles), modulo, metodo).Fail?
    ensures CheckPermission(Some(u), Some(Roles), "*", metodo).Fail?
    ensures CheckPermission(Some(u), Some(Roles), modulo, "*").Fail?
  {
    UploadClientesUnlisted(u.tipo, modulo);
  }

  /** Only root reaches the routed `uploadClientes` action of the users module. */
  lemma UploadClientesRootOnly(u: User)
    ensures CheckPermission(Some(u), Some(Roles), "users", "uploadClientes") == Pass <==> u.IsRoot()
  {
    if !u.IsRoot() {
      UploadClientesUnlisted(u.tipo, "users");
    }
  }

  const TypeErrorMessage: string :=
    "AuthService::canManageUser(): Argument #2 ($perfilAlvo) must be of type string, null given"

  /**
   * `canManageUser` as shipped: its parameter types are checked on the call
   * (a null target role is a TypeError), then it returns before any rule.
   */
  function CanManageUser(perfilOperador: string, perfilAlvo: Option<string>, idOperador: Option<int>, idAlvo: Option<int>): (r: Outcome<Throwable>)
    ensures r == Pass <==> perfilAlvo.Some?
    ensures r.Fail? ==> r.error == TypeError(TypeErrorMessage)
  {
    if perfilAlvo.None? then Fail(TypeError(TypeErrorMessage)) else Pass
  }

  const AdminDenied: string := "Um Admin não pode gerenciar perfis Admin ou Root."
  const GerenteDenied: string := "Um Gerente não pode gerenciar perfis superiores ou iguais ao seu."
  const VendedorDenied: string := "Um Vendedor só pode gerenciar perfis do tipo Cliente."
  const DefaultDenied: string := "Seu perfil não possui permissão para gerenciar usuários."

  /** PHP truthiness of a nullable int id: non-null and non-zero. */
  predicate TruthyId(id: Option<int>) { id.Some? && id.value != 0 }

  /**
   * The body of `canManageUser` after the early return, i.e. the rule the
   * method documents: root, then self-edit, then the per-role table.
   */
  function HierarchyRule(perfilOperador: string, perfilAlvo: Option<string>, idOperador: Option<int>, idAlvo: Option<int>): (r: Outcome<Throwable>)
    ensures r.Fail? ==> r.error == TypeError(TypeErrorMessage) || r.error.HttpException?
    ensures r.Fail? && r.error.HttpException? ==> r.error.kind == AccessDeniedHttp && r.error.statusCode == 403
  {
    if perfilAlvo.None? then Fail(TypeError(TypeErrorMessage))
    else
      var alvo := perfilAlvo.value;
      if perfilOperador == "root" then Pass
      else if TruthyId(idAlvo) && idOperador == idAlvo then Pass
      else if perfilOperador == "admin" then
        if alvo in ["root", "admin"] then Fail(AccessDenied(AdminDenied)) else Pass
      else if perfilOperador == "gerente" then
        if alvo in ["root", "admin", "gerente"] then Fail(AccessDenied(GerenteDenied)) else Pass
      else if perfilOperador == "vendedor" then
        if alvo != "cliente" then Fail(AccessDenied(VendedorDenied)) else Pass
      else Fail(AccessDenied(DefaultDenied))
  }

  /** Privilege rank of the configured roles: root > admin > gerente > vendedor > cliente. */
  function Rank(role: string): (r: Option<nat>)
    ensures r.Some? <==> role in RoleNames
  {
    if role == "root" then Some(4)
    else if role == "admin" then Some(3)
    else if role == "gerente" then Some(2)
    else if role == "vendedor" then Some(1)
    else if role == "cliente" then Some(0)
    else None
  }

  /** Root may manage anyone, and anyone may edit their own record (a non-zero id). */
  lemma RootAndSelfAlwaysAllowed(op: string, alvo: string, id: int, other: Option<int>)
    requires id != 0
    ensures HierarchyRule("root", Some(alvo), other, other) == Pass
    ensures HierarchyRule(op, Some(alvo), Some(id), Some(id)) == Pass
  {
  }

  /**
   * Among configured roles the table is strict rank order: outside root and
   * self-edit, an operator may manage a target exactly when the target ranks
   * strictly lower; an operator role that is not configured manages nobody.
   */
  lemma {:induction false} HierarchyIsStrictRank(op: string, alvo: string, idOp: Option<int>, idAlvo: Option<int>)
    requires op != "root" && !(TruthyId(idAlvo) && idOp == idAlvo)
    requires alvo in RoleNames
    ensures HierarchyRule(op, Some(alvo), idOp, idAlvo) == Pass
      <==> Rank(op).Some? && Rank(alvo).value < Rank(op).value
  {
    assert Rank(alvo).Some?;
    if op == "admin" {
      assert HierarchyRule(op, Some(alvo), idOp, idAlvo) == Pass <==> alvo !in ["root", "admin"];
    } else if op == "gerente" {
      assert HierarchyRule(op, Some(alvo), idOp, idAlvo) == Pass <==> alvo !in ["root", "admin", "gerente"];
    }
  }

  /**
   * A target role outside the configured five is accepted by admin and gerente
   * but refused by vendedor, whose rule names cliente alone.
   */
  lemma HierarchyUnknownTarget(alvo: string, idOp: Option<int>, idAlvo: Option<int>)
    requires alvo !in RoleNames && !(TruthyId(idAlvo) && idOp == idAlvo)
    ensures HierarchyRule("admin", Some(alvo), idOp, idAlvo) == Pass
    ensures HierarchyRule("gerente", Some(alvo), idOp, idAlvo) == Pass
    ensures HierarchyRule("vendedor", Some(alvo), idOp, idAlvo) == Fail(AccessDenied(VendedorDenied))
  {
  }

  /** The shipped method admits an escalation the rule refuses: vendedor managing admin. */
  lemma ShippedSkipsHierarchy(idOp: int, idAlvo: int)
    requires idOp != idAlvo
    ensures CanManageUser("vendedor", Some("admin"), Some(idOp), Some(idAlvo)) == Pass
    ensures HierarchyRule("vendedor", Some("admin"), Some(idOp), Some(idAlvo)) == Fail(AccessDenied(VendedorDenied))
  {
  }
}
