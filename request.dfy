/** Reading the verified identity back out of a request (the `GetUserID` extension). */
module UserId {
  import opened Wrappers
  import opened Grpc
  import opened Metadata

  /**
    `get_uuid_from_request`: the identity stored under `MetadataUserId`.
    Absent: an unauthenticated error. Present but not visible ASCII: the
    `unwrap` on `to_str` panics. The request is only read.
   */
  function GetUuidFromRequest(request: Request): (r: Outcome<string>)
    ensures r.Ok? <==> MetadataUserId in request.headers && ToStr(request.headers[MetadataUserId]).Some?
    ensures r.Ok? ==> request.headers[MetadataUserId] == HeaderValue(r.value)
    ensures r.Err? <==> MetadataUserId !in request.headers
    ensures r.Err? ==> r.status == Status(Code.Unauthenticated, "Please authenticate first")
    ensures r.Panic? <==> MetadataUserId in request.headers && ToStr(request.headers[MetadataUserId]).None?
  {
    if MetadataUserId !in request.headers then
      Err(Status(Code.Unauthenticated, "Please authenticate first"))
    else
      match ToStr(request.headers[MetadataUserId])
      case None => Panic
      case Some(raw) => Ok(raw)
  }
}
