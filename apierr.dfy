/**
 * Structured API errors: a status with a JSON body `{code, message}`.
 * Writing to the ResponseWriter becomes returning the Response.
 */
module Apierr {
  import opened Models
  import opened Http

  const CodeInvalidInput: GoString := "invalid_input"
  const CodeNotFound: GoString := "not_found"
  const CodeInternal: GoString := "internal_error"

  /** The one message an internal error ever shows the client. */
  const InternalMessage: GoString := "internal server error"

  function Write(status: int, code: GoString, message: GoString): (r: Response)
    ensures r.status == status && r.body.ErrorJson?
    ensures r.body.code == code && r.body.message == message
  {
    Response(status, ErrorJson(code, message))
  }

  function BadRequest(message: GoString): (r: Response)
    ensures r.status == StatusBadRequest
    ensures r.body == ErrorJson(CodeInvalidInput, message)
  {
    Write(StatusBadRequest, CodeInvalidInput, message)
  }

  function NotFound(message: GoString): (r: Response)
    ensures r.status == StatusNotFound
    ensures r.body == ErrorJson(CodeNotFound, message)
  {
    Write(StatusNotFound, CodeNotFound, message)
  }

  function Internal(): (r: Response)
    ensures r.status == StatusInternalServerError
    ensures r.body == ErrorJson(CodeInternal, InternalMessage)
  {
    Write(StatusInternalServerError, CodeInternal, InternalMessage)
  }

  /** A client can tell the three kinds of error apart by status and by code alone. */
  lemma ErrorKindsDistinct(m1: GoString, m2: GoString)
    ensures BadRequest(m1).status != NotFound(m2).status
    ensures NotFound(m2).status != Internal().status && Internal().status != BadRequest(m1).status
    ensures CodeInvalidInput != CodeNotFound && CodeNotFound != CodeInternal
    ensures CodeInternal != CodeInvalidInput
  {
  }
}
