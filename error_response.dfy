/** The error record the validator and the user service return. */
module Errors {
  import opened Interfaces

  /** The status an error carries when the caller names none: Bad Request. */
  const DefaultErrorStatus: int := 400

  /** `errorResponse(message, statusCode = 400)`: a record of the message and the status, nothing else. */
  function ErrorResponse(message: string, statusCode: int := DefaultErrorStatus): (r: ApiResponse)
    ensures r.message == message
    ensures r.statusCode == statusCode
  {
    ApiResponse(message, statusCode)
  }
}
