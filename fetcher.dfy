/** The HTTP fetcher: what `get_api_answer` makes of the reply to its
    request. The request itself is not modelled; its reply is an input. */
module Fetcher {
  import opened HomeworkApi

  /** `HTTPStatus.OK`. */
  const HTTP_OK := 200

  /** `get_api_answer`: a transport failure is re-raised as it is; a reply
      with status 200 gives its decoded body (or the decoder's failure);
      any other status raises UnreachableEndpointException, whatever the
      body. */
  function GetApiAnswer(reply: HttpReply): (r: Result<Response>)
    ensures r.Ok? <==> reply.Reply? && reply.statusCode == HTTP_OK && reply.body.Decoded?
    ensures r.Ok? ==> r.value == reply.body.response
    ensures reply.Transport? ==> r == Err(TransportErr(reply.cause))
    ensures reply.Reply? && reply.statusCode != HTTP_OK ==> r == Err(UnreachableEndpoint(reply.statusCode))
    ensures reply.Reply? && reply.statusCode == HTTP_OK && reply.body.Undecodable? ==>
      r == Err(DecodeErr(reply.body.cause))
  {
    match reply
    case Transport(cause) => Err(TransportErr(cause))
    case Reply(statusCode, body) =>
      if statusCode == HTTP_OK then
        match body
        case Decoded(response) => Ok(response)
        case Undecodable(cause) => Err(DecodeErr(cause))
      else
        Err(UnreachableEndpoint(statusCode))
  }
}
