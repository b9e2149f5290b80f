/**
 * The access-control matrix (`permissions.roles`): role -> module -> the
 * actions allowed, as plain data, and the route bindings that feed the
 * permission middleware with (module, action) pairs.
 */
module Permissions {

  type Matrix = map<string, map<string, seq<string>>>

  const Roles: Matrix := map[
    "root" := map["*" := ["*"]],
    "admin" := map[
      "users" := ["index", "store", "show", "update", "destroy", "usersUploadCsv"],
      "notifications" := ["solicitarResumoClientes"],
      "fornecedores" := ["index", "store", "show", "update", "destroy", "produtosUploadCsv"],
      "produtos" := ["index", "store", "show", "update", "destroy"],
      "pedidos" := ["index", "store", "show", "update", "destroy", "listarPorFornecedor",
                    "dispararReportDiario", "obterEstatisticas"]],
    "gerente" := map[
      "users" := ["index", "store", "show", "update", "usersUploadCsv"],
      "notifications" := ["solicitarResumoClientes"],
      "fornecedores" := ["index", "store", "show", "update", "destroy", "produtosUploadCsv"],
      "produtos" := ["index", "store", "show", "update", "destroy"],
      "pedidos" := ["index", "store", "show", "update", "destroy", "listarPorFornecedor",
                    "dispararReportDiario", "obterEstatisticas"]],
    "vendedor" := map[
      "users" := ["index", "store", "show", "update"],
      "produtos" := ["index", "show"],
      "pedidos" := ["store", "show", "listarPorFornecedor", "meusPedidos"],
      "fornecedores" := ["index", "listaProdutos", "listarPorFornecedor"]],
    "cliente" := map[
      "produtos" := ["index", "show"],
      "pedidos" := ["meusPedidos"],
      "fornecedores" := ["index", "listaProdutos", "listarPorFornecedor"]]
  ]

  /** The matrix lists `action` under `module` for `role` (a literal list membership). */
  predicate Grants(m: Matrix, role: string, modulo: string, action: string) {
    role in m && modulo in m[role] && action in m[role][modulo]
  }

  const RoleNames: set<string> := {"root", "admin", "gerente", "vendedor", "cliente"}

  /** A route of the API and the (module, action) pair its middleware checks. */
  datatype RouteBinding = RouteBinding(verb: string, uri: string, modulo: string, action: string)

  /** The user routes (all behind `check.permission:users`) and the notification route. */
  const ProtectedRoutes: seq<RouteBinding> := [
    RouteBinding("GET", "v1/users", "users", "index"),
    RouteBinding("POST", "v1/users", "users", "store"),
    RouteBinding("POST", "v1/users/{user}", "users", "store"),
    RouteBinding("GET", "v1/users/{user}", "users", "show"),
    RouteBinding("PUT", "v1/users/{user}", "users", "update"),
    RouteBinding("DELETE", "v1/users/{user}", "users", "destroy"),
    RouteBinding("POST", "v1/users/{user}/uploadcliente", "users", "uploadClientes"),
    RouteBinding("POST", "v1/notifications/solicitar-resumo", "notifications", "solicitarResumoClientes")
  ]

  lemma RoleKeys()
    ensures Roles.Keys == RoleNames
  {
  }

  /** The root entry is the single pair `'*' => ['*']`. */
  lemma RootEntry()
    ensures Roles["root"] == map["*" := ["*"]]
  {
  }

  /** Only admin may destroy users; cliente has no users module at all. */
  lemma DestroyUsersOnlyAdmin(role: string)
    requires role != "root"
    ensures Grants(Roles, role, "users", "destroy") <==> role == "admin"
    ensures "cliente" in Roles && "users" !in Roles["cliente"]
  {
  }

  /** The summary-mail action is granted to admin and gerente only. */
  lemma SummaryOnlyAdminGerente(role: string)
    requires role != "root"
    ensures Grants(Roles, role, "notifications", "solicitarResumoClientes") <==> role in {"admin", "gerente"}
  {
  }

  /** The users actions are nested: vendedor's within gerente's within admin's. */
  lemma UsersActionsNested(action: string)
    ensures Grants(Roles, "vendedor", "users", action) ==> Grants(Roles, "gerente", "users", action)
    ensures Grants(Roles, "gerente", "users", action) ==> Grants(Roles, "admin", "users", action)
  {
  }

  /**
   * The routed action `uploadClientes` is listed for no role (the lists name
   * `usersUploadCsv`, which no route uses), and no non-root role lists a `*`
   * module or a `*` action.
   */
  lemma UploadClientesUnlisted(role: string, modulo: string)
    requires role != "root"
    ensures !Grants(Roles, role, "users", "uploadClientes")
    ensures !Grants(Roles, role, modulo, "*") && !(role in Roles && "*" in Roles[role])
    ensures RouteBinding("POST", "v1/users/{user}/uploadcliente", "users", "uploadClientes") in ProtectedRoutes
    ensures forall r :: r in ProtectedRoutes ==> r.action != "usersUploadCsv"
  {
  }
}
