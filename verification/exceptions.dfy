/**
 * The exceptions (and one PHP `\Error`) that the core throws or that reach
 * the API's exception renderer.
 */
module Exceptions {
  import opened Json
  import Text

  /** Which Symfony HTTP exception class an `HttpException` is. */
  datatype HttpKind = NotFoundHttp | MethodNotAllowedHttp | AccessDeniedHttp | OtherHttp

  /** One field of a `ValidationException::errors()` array, in rule order. */
  datatype FieldErrors = FieldErrors(field: string, messages: seq<string>)

  datatype Throwable =
    | ValidationException(errors: seq<FieldErrors>)
    | UniqueConstraintViolation(message: string)
    | ModelNotFound(message: string)
    | HttpException(kind: HttpKind, statusCode: int, message: string)
    | AuthenticationException(message: string)
    | GenericException(message: string, file: string, line: int, trace: seq<JsonValue>)
      /** A PHP `\Error` (not an `\Exception`), such as passing null to a `string` parameter. */
    | TypeError(message: string)
  {
    /** Whether this is an `\Exception`, i.e. what `catch (\Exception $e)` catches. */
    predicate IsException() { !TypeError? }

    function Message(): string {
      match this
      case ValidationException(errors) => Summary(Flatten(errors))
      case UniqueConstraintViolation(m) => m
      case ModelNotFound(m) => m
      case HttpException(_, _, m) => m
      case AuthenticationException(m) => m
      case GenericException(m, _, _, _) => m
      case TypeError(m) => m
    }
  }

  /**
   * All messages of all fields, field by field: `collect($e->errors())->flatten()`.
   */
  function Flatten(errors: seq<FieldErrors>): (r: seq<string>)
    ensures forall m :: m in r <==> exists k :: 0 <= k < |errors| && m in errors[k].messages
  {
    if errors == [] then [] else errors[0].messages + Flatten(errors[1..])
  }

  /** Laravel's summary message of a validation failure. */
  function Summary(messages: seq<string>): string {
    if messages == [] then "The given data was invalid."
    else if |messages| == 1 then messages[0]
    else messages[0] + " (and " + Text.NatToString(|messages| - 1)
         + (if |messages| == 2 then " more error)" else " more errors)")
  }

  /** Symfony's `AccessDeniedHttpException`, whose status code is always 403. */
  function AccessDenied(message: string): (e: Throwable)
    ensures e.IsException() && e.HttpException? && e.statusCode == 403 && e.Message() == message
  {
    HttpException(AccessDeniedHttp, 403, message)
  }
}
