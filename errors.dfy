// The API's status exceptions and the HTTP status the exception middleware answers each with.
module Errors {
  /** The ErrorKind enumeration: each kind carries its HTTP status code. */
  datatype ErrorKind = BadRequest | Conflict | NotFound | InternalServerError

  function Code(kind: ErrorKind): int
  {
    match kind
    case BadRequest => 400
    case Conflict => 409
    case NotFound => 404
    case InternalServerError => 500
  }

  /**
   * The exceptions the modelled controllers and handlers throw. `Unhandled` stands for any
   * exception that is not a status exception (a database error, a missing storage object,
   * an argument exception from a claim that does not parse). `ValidationFailed` is the 400
   * answer ASP.NET gives, before the action runs, to a request that breaks a validation
   * attribute of its parameters.
   */
  datatype ApiError =
    | UploadNotFound
    | UploadChunksNotFinished
    | NoChunksUploaded
    | ChannelNotFound
    | NotChannelOwner
    | ChannelAlreadyExists
    | VideoNotFound
    | ValidationFailed(field: string)
    | Unhandled(reason: string)

  function Kind(e: ApiError): ErrorKind
  {
    match e
    case UploadNotFound => NotFound
    case UploadChunksNotFinished => BadRequest
    case NoChunksUploaded => BadRequest
    case ChannelNotFound => NotFound
    case NotChannelOwner => BadRequest
    case ChannelAlreadyExists => Conflict
    case VideoNotFound => NotFound
    case ValidationFailed(_) => BadRequest
    case Unhandled(_) => InternalServerError
  }

  /** The status code the exception middleware writes for an error. */
  function StatusCode(e: ApiError): (code: int)
    ensures code == 500 <==> e.Unhandled?
    ensures code == 404 <==> e in {UploadNotFound, ChannelNotFound, VideoNotFound}
    ensures code == 409 <==> e == ChannelAlreadyExists
  {
    Code(Kind(e))
  }
}
