/** HTTP methods and the status codes the handler answers with. */
module Http {
  datatype Method = GET | PUT | POST | DEL

  datatype Status =
    | OK              // 200
    | NotFound        // 404: no such route
    | Conflict        // 409: the storage layer refused (absent, duplicate, already reviewed)
    | Unauthorized    // 401: wrong password or no authority
    | InternalError   // 500: malformed request (missing keys, unparsable id)
    | NotImplemented  // 501: museum-category review

  /** The numeric code on the wire. */
  function Code(s: Status): (c: int)
    ensures 200 <= c < 600
    ensures c == 200 <==> s == OK
  {
    match s
    case OK => 200
    case NotFound => 404
    case Conflict => 409
    case Unauthorized => 401
    case InternalError => 500
    case NotImplemented => 501
  }
}
