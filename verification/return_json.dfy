/**
 * JSON values, HTTP responses, and the `ReturnJson` envelope that every
 * endpoint of the API answers with (TraitReturnJsonOlirum).
 */
module Json {

  /** A PHP value as it ends up in a JSON body; associative arrays are objects. */
  datatype JsonValue =
    | JNull
    | JBool(b: bool)
    | JInt(i: int)
    | JStr(s: string)
    | JList(items: seq<JsonValue>)
    | JObject(fields: map<string, JsonValue>)

  /** An HTTP response: status code, JSON body and (lower-cased) header names. */
  datatype Response = Response(status: int, body: JsonValue, headers: map<string, string>)

  /** PHP's `(bool)` cast. */
  predicate Truthy(v: JsonValue) {
    match v
    case JNull => false
    case JBool(b) => b
    case JInt(i) => i != 0
    case JStr(s) => s != "" && s != "0"
    case JList(items) => items != []
    case JObject(fields) => fields != map[]
  }

  function Strings(ss: seq<string>): (r: seq<JsonValue>)
    ensures |r| == |ss|
    ensures forall k :: 0 <= k < |ss| ==> r[k] == JStr(ss[k])
  {
    if ss == [] then [] else [JStr(ss[0])] + Strings(ss[1..])
  }

  predicate IsHttpStatus(code: int) { 100 <= code <= 599 }

  const EnvelopeKeys: set<string> := {"data", "message", "status", "code"}

  /** The header every `response()->json(...)` carries. */
  const JsonHeaders: map<string, string> := map["content-type" := "application/json"]

  /**
   * The standard envelope. A code outside 100..599 is replaced by 200, the
   * status flag is cast to bool, and the body holds exactly data, message,
   * status and code, with code equal to the HTTP status sent.
   */
  function ReturnJson(data: JsonValue, message: string, status: JsonValue, code: int): (r: Response)
    ensures IsHttpStatus(r.status)
    ensures IsHttpStatus(code) ==> r.status == code
    ensures !IsHttpStatus(code) ==> r.status == 200
    ensures r.body.JObject? && r.body.fields.Keys == EnvelopeKeys
    ensures r.body.fields["code"] == JInt(r.status)
    ensures r.body.fields["data"] == data && r.body.fields["message"] == JStr(message)
    ensures r.body.fields["status"] == JBool(Truthy(status))
    ensures r.headers == JsonHeaders
  {
    var sent := if code < 100 || code > 599 then 200 else code;
    Response(sent, JObject(map["data" := data, "message" := JStr(message),
                               "status" := JBool(Truthy(status)), "code" := JInt(sent)]),
             JsonHeaders)
  }

  /** True when the body of `r` is an envelope: exactly data, message, status and code. */
  predicate IsEnvelope(r: Response) {
    r.body.JObject? && r.body.fields.Keys == EnvelopeKeys
  }

  function DataOf(r: Response): JsonValue
    requires IsEnvelope(r)
  {
    r.body.fields["data"]
  }

  function MessageOf(r: Response): JsonValue
    requires IsEnvelope(r)
  {
    r.body.fields["message"]
  }

  /** True when `r` is an envelope response whose status flag is false. */
  predicate IsFailureEnvelope(r: Response) {
    IsEnvelope(r) && r.body.fields["status"] == JBool(false)
  }

  /** Clamping is idempotent: re-sending an envelope's own code keeps it. */
  lemma ReturnJsonCodeStable(data: JsonValue, message: string, status: JsonValue, code: int)
    ensures ReturnJson(data, message, status, ReturnJson(data, message, status, code).status)
         == ReturnJson(data, message, status, code)
  {
  }
}
