/**
 * The response envelope every Java endpoint returns, `{code, msg, data}`,
 * and its four static factories.  A null `msg` or `data` is None.
 */
module CommonResult {
  import opened Base

  datatype ResultBody<T> = ResultBody(code: int, msg: Option<string>, data: Option<T>)
  {
    /** The envelope reports success. */
    predicate IsSuccess() { code == 200 }
  }

  /** `Result.success(data)`. */
  function Success<T>(data: Option<T>): (r: ResultBody<T>)
    ensures r.IsSuccess() && r.msg == Some("success") && r.data == data
  {
    ResultBody(200, Some("success"), data)
  }

  /** `Result.success(msg, data)`. */
  function SuccessWith<T>(msg: Option<string>, data: Option<T>): (r: ResultBody<T>)
    ensures r.IsSuccess() && r.msg == msg && r.data == data
  {
    ResultBody(200, msg, data)
  }

  /** `Result.error(msg)`. */
  function Error<T>(msg: Option<string>): (r: ResultBody<T>)
    ensures !r.IsSuccess() && r.code == 500 && r.msg == msg && r.data.None?
  {
    ResultBody(500, msg, None)
  }

  /** `Result.error(code, msg)`. */
  function ErrorCode<T>(code: int, msg: Option<string>): (r: ResultBody<T>)
    ensures r.code == code && r.msg == msg && r.data.None?
  {
    ResultBody(code, msg, None)
  }

  /** The one-argument error is the two-argument error with code 500, and an
      error envelope is a success only when its code says 200. */
  lemma {:induction false} ErrorFactoriesAgree<T>(msg: Option<string>, code: int)
    ensures Error<T>(msg) == ErrorCode<T>(500, msg)
    ensures ErrorCode<T>(code, msg).IsSuccess() <==> code == 200
    ensures Success<T>(None) == SuccessWith<T>(Some("success"), None)
  {
  }
}
