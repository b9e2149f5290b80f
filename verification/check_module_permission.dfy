/**
 * CheckModulePermission middleware: checks the route's controller action
 * against the module named by the middleware parameter and either forwards
 * the request or answers 403.
 */
module CheckModulePermission {
  import opened Wrappers
  import opened Json
  import opened Exceptions
  import opened UserModel
  import opened Permissions
  import opened AuthService

  /**
   * `handle`: `action` is the route's controller method, `next` the response
   * the rest of the pipeline would give. Every `\Exception` from the check
   * becomes a 403 envelope carrying its message; `Err` is a rethrown `\Error`.
   */
  function Handle(authUser: Option<User>, config: Option<Matrix>, modulo: string, action: string, next: Response): (r: Result<Response, Throwable>)
    ensures r.Ok?
    ensures CheckPermission(authUser, config, modulo, action) == Pass ==> r.value == next
    ensures CheckPermission(authUser, config, modulo, action).Fail? ==>
      var e := CheckPermission(authUser, config, modulo, action).error;
      r.value == ReturnJson(JNull, e.Message(), JBool(false), 403)
  {
    match CheckPermission(authUser, config, modulo, action)
    case Pass => Ok(next)
    case Fail(e) =>
      if e.IsException() then Ok(ReturnJson(JNull, e.Message(), JBool(false), 403)) else Err(e)
  }

  /** A denied request never reaches `next`: the answer is the same whatever `next` is. */
  lemma DenialIgnoresNext(authUser: Option<User>, config: Option<Matrix>, modulo: string, action: string, next1: Response, next2: Response)
    requires CheckPermission(authUser, config, modulo, action).Fail?
    ensures Handle(authUser, config, modulo, action, next1) == Handle(authUser, config, modulo, action, next2)
    ensures var r := Handle(authUser, config, modulo, action, next1).value;
      r.status == 403 && IsFailureEnvelope(r) && DataOf(r) == JNull
  {
  }

  /** Even a missing configuration is answered with 403, carrying the generic message. */
  lemma ConfigMissingIs403(u: User, modulo: string, action: string, next: Response)
    requires !u.IsRoot() && u.IsAtivo()
    ensures Handle(Some(u), None, modulo, action, next)
         == Ok(ReturnJson(JNull, ConfigMissingMessage, JBool(false), 403))
  {
  }

  /**
   * Over the route table: an active user passes the check of a protected route
   * exactly when the user is root or the matrix grants the route's (module,
   * action) to the user's role, and the upload route admits root alone.
   */
  lemma RouteTableAccess(u: User, k: nat)
    requires k < |ProtectedRoutes| && u.IsAtivo()
    ensures var b := ProtectedRoutes[k];
      (CheckPermission(Some(u), Some(Roles), b.modulo, b.action) == Pass)
        == (u.IsRoot() || Grants(Roles, u.tipo, b.modulo, b.action))
    ensures ProtectedRoutes[k].action == "uploadClientes" ==>
      (CheckPermission(Some(u), Some(Roles), ProtectedRoutes[k].modulo, "uploadClientes") == Pass <==> u.IsRoot())
  {
    UploadClientesRootOnly(u);
  }
}
