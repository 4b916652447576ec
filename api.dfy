/** The data the homework-review poller exchanges with the review API:
    submissions, the decoded response body, the raw HTTP reply, the
    exceptions the poller raises, and the value it compares between cycles. */
module HomeworkApi {

  /** One submission as the API describes it: a JSON object whose fields
      (`status`, optionally `homework_name`) are given by the text they
      render as. */
  type Homework = map<string, string>

  /** What `response.get('homeworks')` finds in the decoded body. */
  datatype HomeworksField =
    | Absent                        // the key is not in the body
    | Null                          // the key maps to JSON null
    | List(items: seq<Homework>)    // a JSON array of submissions
    | Other                         // any other JSON value

  /** The decoded JSON object: the field the poller reads, and the rendering
      of the body's key view that the missing-key error quotes. */
  datatype Response = Response(keysShown: string, homeworks: HomeworksField)

  /** The body of an HTTP reply, as `response.json()` sees it. */
  datatype Payload =
    | Decoded(response: Response)
    | Undecodable(cause: string)

  /** The outcome of one `requests.get`: a transport failure, or a status
      code with a body. */
  datatype HttpReply =
    | Transport(cause: string)
    | Reply(statusCode: int, body: Payload)

  /** The exceptions a polling cycle can raise. */
  datatype Error =
    | KeyErr(key: string)                  // KeyError(key)
    | ValueErr                             // ValueError() with no message
    | TypeErr                              // the wrong-type TypeError of check_response
    | UnreachableEndpoint(statusCode: int) // UnreachableEndpointException
    | TransportErr(cause: string)          // re-raised failure of requests.get
    | DecodeErr(cause: string)             // failure of response.json()

  datatype Result<T> = Ok(value: T) | Err(error: Error)

  /** The value `check_response` hands to the loop: either the empty list
      it returns unchanged, or a notification sentence. Python's `!=`
      between a list and a string is always true, so the two kinds never
      compare equal. */
  datatype Status = Empty | Text(text: string)

  const TYPE_ERROR_MESSAGE := "Неверный тип значения по ключу homeworks."
  const UNREACHABLE_MESSAGE := "Недоступен Эндпоинт."

  /** What `str(error)` shows for each exception: a KeyError shows its
      argument quoted, a bare ValueError shows nothing, the others show the
      message they were raised with. */
  function ErrorText(e: Error): (t: string)
    ensures e.KeyErr? ==> t == "'" + e.key + "'" && |t| == |e.key| + 2 && t[1..|t| - 1] == e.key
    ensures e.ValueErr? ==> t == []
    ensures e.TypeErr? ==> t == TYPE_ERROR_MESSAGE
    ensures e.UnreachableEndpoint? ==> t == UNREACHABLE_MESSAGE
    ensures e.TransportErr? ==> t == e.cause
    ensures e.DecodeErr? ==> t == e.cause
  {
    match e
    case KeyErr(key) => "'" + key + "'"
    case ValueErr => ""
    case TypeErr => TYPE_ERROR_MESSAGE
    case UnreachableEndpoint(_) => UNREACHABLE_MESSAGE
    case TransportErr(cause) => cause
    case DecodeErr(cause) => cause
  }
}
