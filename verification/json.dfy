/**
 * The decoded Lambda event as Python sees it: nested dictionaries with string
 * keys, and leaves (strings, numbers, lists, None) that only get formatted.
 * Subscripting follows Python: a missing key in a dict raises KeyError,
 * subscripting anything that is not a dict with a string raises TypeError.
 */
module Json {
  import opened Wrappers

  datatype Json =
    | JObject(fields: map<string, Json>)
    /** any non-dict value, with the text str() gives for it */
    | JLeaf(text: string)

  /** The exceptions the trigger's control flow distinguishes. */
  datatype PyError =
    | KeyError(key: string)
    | TypeError
    /** anything the SageMaker client raises (ClientError, network errors, ...) */
    | ServiceError(message: string)

  /** `j[key]` */
  function Subscript(j: Json, key: string): (r: Result<Json, PyError>)
    ensures r.Success? <==> j.JObject? && key in j.fields
    ensures r.Success? ==> r.value == j.fields[key]
    ensures r.Failure? ==> r.error == (if j.JObject? then KeyError(key) else TypeError)
  {
    match j
    case JObject(fields) => if key in fields then Success(fields[key]) else Failure(KeyError(key))
    case JLeaf(_) => Failure(TypeError)
  }

  /** `str(e)` for the exceptions above; Python renders a KeyError as the quoted key. */
  function ErrorText(e: PyError): string {
    match e
    case KeyError(k) => "'" + k + "'"
    case TypeError => "object is not subscriptable"
    case ServiceError(m) => m
  }
}
