/**
 * The response envelope of every endpoint (ApiResult) and the shared controller
 * helpers (BaseController.toAjax, BaseController.redirect).
 */
module ApiResults {
  import opened Common

  const SUCCESS_CODE: int := 200
  const FAIL_CODE: int := 500
  /** HttpStatus.WARN of the framework. */
  const WARN_CODE: int := 601

  const DEFAULT_OK_MSG: string := "操作成功"
  const DEFAULT_FAIL_MSG: string := "操作失败"

  /** ApiResult<T>: a status code, a message and optional data. */
  datatype ApiResult<+T> = ApiResult(code: int, msg: string, data: Option<T>)

  /** ApiResult.isSuccess: the code is the success code. */
  predicate IsSuccess<T>(r: ApiResult<T>) {
    r.code == SUCCESS_CODE
  }

  /** ApiResult.isError: the negation of isSuccess. */
  predicate IsError<T>(r: ApiResult<T>)
    ensures IsError(r) <==> !IsSuccess(r)
  {
    !IsSuccess(r)
  }

  // The static factories. Java overloads get distinct names here.

  /** ok() */
  function Ok<T>(): (r: ApiResult<T>)
    ensures IsSuccess(r) && r.msg == DEFAULT_OK_MSG && r.data == None
  {
    ApiResult(SUCCESS_CODE, DEFAULT_OK_MSG, None)
  }

  /** ok(T data) */
  function OkData<T>(data: T): (r: ApiResult<T>)
    ensures IsSuccess(r) && r.msg == DEFAULT_OK_MSG && r.data == Some(data)
  {
    ApiResult(SUCCESS_CODE, DEFAULT_OK_MSG, Some(data))
  }

  /** ok(String msg) */
  function OkMsg<T>(msg: string): (r: ApiResult<T>)
    ensures IsSuccess(r) && r.msg == msg && r.data == None
  {
    ApiResult(SUCCESS_CODE, msg, None)
  }

  /** ok(String msg, T data) */
  function OkMsgData<T>(msg: string, data: T): (r: ApiResult<T>)
    ensures IsSuccess(r) && r.msg == msg && r.data == Some(data)
  {
    ApiResult(SUCCESS_CODE, msg, Some(data))
  }

  /** fail() */
  function Fail<T>(): (r: ApiResult<T>)
    ensures IsError(r) && r.code == FAIL_CODE && r.msg == DEFAULT_FAIL_MSG && r.data == None
  {
    ApiResult(FAIL_CODE, DEFAULT_FAIL_MSG, None)
  }

  /** fail(String msg) */
  function FailMsg<T>(msg: string): (r: ApiResult<T>)
    ensures IsError(r) && r.code == FAIL_CODE && r.msg == msg && r.data == None
  {
    ApiResult(FAIL_CODE, msg, None)
  }

  /** fail(T data) */
  function FailData<T>(data: T): (r: ApiResult<T>)
    ensures IsError(r) && r.code == FAIL_CODE && r.msg == DEFAULT_FAIL_MSG && r.data == Some(data)
  {
    ApiResult(FAIL_CODE, DEFAULT_FAIL_MSG, Some(data))
  }

  /** fail(String msg, T data) */
  function FailMsgData<T>(msg: string, data: T): (r: ApiResult<T>)
    ensures IsError(r) && r.code == FAIL_CODE && r.msg == msg && r.data == Some(data)
  {
    ApiResult(FAIL_CODE, msg, Some(data))
  }

  /** fail(int code, String msg): the code is kept verbatim, even a success code. */
  function FailCode<T>(code: int, msg: string): (r: ApiResult<T>)
    ensures r.code == code && r.msg == msg && r.data == None
    ensures IsSuccess(r) <==> code == SUCCESS_CODE
  {
    ApiResult(code, msg, None)
  }

  /** warn(String msg) */
  function Warn<T>(msg: string): (r: ApiResult<T>)
    ensures IsError(r) && r.code == WARN_CODE && r.msg == msg && r.data == None
  {
    ApiResult(WARN_CODE, msg, None)
  }

  /** warn(String msg, T data) */
  function WarnData<T>(msg: string, data: T): (r: ApiResult<T>)
    ensures IsError(r) && r.code == WARN_CODE && r.msg == msg && r.data == Some(data)
  {
    ApiResult(WARN_CODE, msg, Some(data))
  }

  /** BaseController.toAjax(int rows): success exactly when some row was affected. */
  function ToAjaxRows(rows: int): (r: ApiResult<()>)
    ensures IsSuccess(r) <==> rows > 0
    ensures r.data == None
    ensures r.msg == if rows > 0 then DEFAULT_OK_MSG else DEFAULT_FAIL_MSG
  {
    if rows > 0 then Ok() else Fail()
  }

  /** BaseController.toAjax(boolean result): success exactly when the result is true. */
  function ToAjax(result: bool): (r: ApiResult<()>)
    ensures IsSuccess(r) <==> result
    ensures r.data == None
    ensures r.msg == if result then DEFAULT_OK_MSG else DEFAULT_FAIL_MSG
  {
    if result then Ok() else Fail()
  }

  /** The two toAjax forms agree: a row count is success exactly when "rows > 0" is. */
  lemma ToAjaxFormsAgree(rows: int)
    ensures ToAjaxRows(rows) == ToAjax(rows > 0)
  {
  }

  const REDIRECT_PREFIX: string := "redirect:"

  /** BaseController.redirect(url): "redirect:" followed by the url. */
  function Redirect(url: string): (r: string)
    ensures REDIRECT_PREFIX <= r && r[|REDIRECT_PREFIX|..] == url
    ensures |r| == |REDIRECT_PREFIX| + |url|
  {
    REDIRECT_PREFIX + url
  }

  /** The url can always be recovered from a redirect, so distinct urls give distinct redirects. */
  lemma RedirectInjective(u1: string, u2: string)
    requires Redirect(u1) == Redirect(u2)
    ensures u1 == u2
  {
    assert u1 == Redirect(u1)[|REDIRECT_PREFIX|..];
  }
}
