/**
 * Shared vocabulary of the model: optional values (Java null), the exceptions the
 * core throws, results of operations that may throw, and the framework constants
 * the core refers to.
 */
module Common {

  /** A value that may be Java `null`. */
  datatype Option<+T> = None | Some(value: T) {
    function GetOr(default: T): T {
      match this
      case Some(v) => v
      case None => default
    }
  }

  /** An argument of a localised message: a number or a text. */
  datatype MsgArg = Num(n: int) | Str(s: string)

  /** The exceptions the modelled code throws (message keys are kept opaque). */
  datatype Exception =
    | TenantException(key: string)
    | UserException(key: string, args: seq<MsgArg>)
    | ServiceException(msg: string)
    | CaptchaException
    | CaptchaExpireException
    | NullPointerException
    | ArrayIndexOutOfBoundsException
    | DataScopeDenied
    /** UserType.getUserType of an unknown user type. */
    | UnknownUserType

  /** The outcome of a Java call that either returns a value or throws. */
  datatype Result<+T> = Success(value: T) | Failure(error: Exception)

  /** The outcome of a `void` Java call: it returns normally or throws. */
  datatype Outcome = Pass | Fail(error: Exception)

  /** SQL `column = value`: a NULL on either side never matches. */
  predicate SqlEq<T(==)>(column: Option<T>, value: Option<T>) {
    column.Some? && value.Some? && column.value == value.value
  }

  // Cache key prefixes (CacheConstants / GlobalConstants of the framework).
  const GLOBAL_REDIS_KEY: string := "global:"
  const PWD_ERR_CNT_KEY: string := "pwd_err_cnt:"
  const ONLINE_TOKEN_KEY: string := "online_tokens:"
  const CAPTCHA_CODE_KEY: string := GLOBAL_REDIS_KEY + "captcha_codes:"

  // Tenancy (TenantConstants).
  const DEFAULT_TENANT_ID: string := "000000"
  const SUPER_ADMIN_ROLE_KEY: string := "superadmin"
  /** The user id and role id of the super administrator (SystemConstants.SUPER_ADMIN_ID). */
  const SUPER_ADMIN_ID: int := 1

  // Status flags (SystemConstants).
  const NORMAL: string := "0"
  const DISABLE: string := "1"
  const YES_FRAME: string := "0"
  const DEFAULT_DEPT_ID: int := 100

  // Login event statuses and login-record statuses (Constants).
  const LOGIN_SUCCESS: string := "Success"
  const LOGOUT: string := "Logout"
  const REGISTER: string := "Register"
  const LOGIN_FAIL: string := "Error"
  const SUCCESS: string := "0"
  const FAIL: string := "1"

  /** LoginHelper.isSuperAdmin(userId): the id is present and is the super-admin id. */
  predicate IsSuperAdmin(userId: Option<int>) {
    userId == Some(SUPER_ADMIN_ID)
  }

  /** Localisation of a message key with its arguments (MessageUtils.message). */
  type Localizer = (string, seq<MsgArg>) -> string
}
