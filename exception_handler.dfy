/**
 * `GlobalExceptionHandler`: the HTTP status and the envelope an exception
 * thrown by a controller is answered with.
 */
module GlobalExceptionHandler {
  import opened Base
  import opened Errors
  import opened CommonResult

  /** An HTTP response: its status and its JSON body (data is always null). */
  datatype Response = Response(status: int, body: ResultBody<()>)

  const UploadTooLargeMessage := "文件大小超过限制。单个文件最大支持100MB，请压缩文件后重试。"
  const InternalErrorMessage := "服务器内部错误，请稍后重试"

  /** The message the generic handler reports: the cause's message when
      there is a cause with one, else the exception's own; a null or empty
      one is replaced by the fixed default. */
  function GenericMessage(message: Option<string>, cause: Option<Cause>): (r: string)
    ensures |r| > 0
    ensures cause.Some? && cause.value.message.Some? && cause.value.message.value != "" ==> r == cause.value.message.value
    ensures (cause.None? || cause.value.message.None?) && message.Some? && message.value != "" ==> r == message.value
    ensures cause.Some? && cause.value.message == Some("") ==> r == InternalErrorMessage
    ensures (cause.None? || cause.value.message.None?) && (message.None? || message == Some("")) ==> r == InternalErrorMessage
  {
    var errorMessage := if cause.Some? && cause.value.message.Some? then cause.value.message else message;
    if errorMessage.None? || errorMessage.value == "" then InternalErrorMessage else errorMessage.value
  }

  /** The four `@ExceptionHandler` methods. */
  function Handle(ex: Exception): (r: Response)
    ensures r.body.code == r.status && r.body.data.None?
    ensures ex.ResourceNotFound? <==> r.status == 404
    ensures ex.IllegalArgument? <==> r.status == 400
    ensures ex.MaxUploadSizeExceeded? <==> r.status == 413
    ensures ex.Other? <==> r.status == 500
    ensures ex.ResourceNotFound? || ex.IllegalArgument? ==> r.body.msg == ex.message
    ensures ex.MaxUploadSizeExceeded? ==> r.body.msg == Some(UploadTooLargeMessage)
    ensures ex.Other? ==> r.body.msg == Some(GenericMessage(ex.message, ex.cause))
  {
    match ex
    case ResourceNotFound(message) => Response(404, ErrorCode(404, message))
    case IllegalArgument(message) => Response(400, ErrorCode(400, message))
    case MaxUploadSizeExceeded => Response(413, ErrorCode(413, Some(UploadTooLargeMessage)))
    case Other(message, cause) => Response(500, ErrorCode(500, Some(GenericMessage(message, cause))))
  }

  /** Only the not-found and bad-argument handlers can answer with a null
      message; the other two always carry text. */
  lemma {:induction false} HandledMessages(ex: Exception)
    ensures Handle(ex).body.msg.None? ==> (ex.ResourceNotFound? || ex.IllegalArgument?) && ex.message.None?
    ensures Handle(ex).status >= 500 ==> Handle(ex).body.msg.Some? && |Handle(ex).body.msg.value| > 0
  {
  }
}
