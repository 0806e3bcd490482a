/**
 * The login service (SysLoginServiceImpl): the password-retry throttle kept in the
 * cache per username, the tenant gate every login passes, logout, and the login
 * user built for a freshly authenticated account.
 */
module LoginService {
  import opened Common
  import opened Text
  import opened Stores
  import opened Online
  import opened Permissions

  /** LoginType: the message keys of the two throttle errors of one kind of login. */
  datatype LoginType = LoginType(retryLimitExceed: string, retryLimitCount: string)

  /** The cache key of a username's failure counter; tenant and ip play no part. */
  function CounterKey(username: string): (k: string)
    ensures PWD_ERR_CNT_KEY <= k && k[|PWD_ERR_CNT_KEY|..] == username
  {
    PWD_ERR_CNT_KEY + username
  }

  /** Distinct usernames have distinct counters. */
  lemma CounterKeyInjective(u1: string, u2: string)
    requires CounterKey(u1) == CounterKey(u2)
    ensures u1 == u2
  {
    assert u1 == CounterKey(u1)[|PWD_ERR_CNT_KEY|..];
  }

  /** The failure count stored under a key, an absent entry counting as 0. */
  function CountOf(entries: map<string, Entry<int>>, key: string): (n: int)
    ensures key !in entries ==> n == 0
    ensures key in entries ==> n == entries[key].value
  {
    if key in entries then entries[key].value else 0
  }

  /** What one call of checkLogin decides, from the stored count and the credential check. */
  datatype Verdict =
    | LockedOut            // the count had already reached the maximum; credentials not checked
    | Counted(n: int)      // credentials rejected; the new count n is below the maximum
    | Exceeded(n: int)     // credentials rejected; the new count n reaches the maximum
    | Admitted             // credentials accepted

  function Judge(count: int, maxRetry: int, rejected: bool): Verdict {
    if count >= maxRetry then LockedOut
    else if rejected then (if count + 1 >= maxRetry then Exceeded(count + 1) else Counted(count + 1))
    else Admitted
  }

  /** The retry-limit error: its key and arguments, as thrown and as localised into the audit event. */
  function ThrottleError(lt: LoginType, v: Verdict, maxRetry: int, lockTime: int): Exception
    requires v != Admitted
  {
    if v.Counted? then UserException(lt.retryLimitCount, [Num(v.n)])
    else UserException(lt.retryLimitExceed, [Num(maxRetry), Num(lockTime)])
  }

  /** The counters after one checkLogin. */
  function CountersAfter(entries: map<string, Entry<int>>, username: string, maxRetry: int, lockTime: int,
                         rejected: bool): map<string, Entry<int>>
  {
    var key := CounterKey(username);
    match Judge(CountOf(entries, key), maxRetry, rejected)
    case LockedOut => entries
    case Counted(n) => entries[key := Entry(n, Expires(lockTime * 60))]
    case Exceeded(n) => entries[key := Entry(n, Expires(lockTime * 60))]
    case Admitted => entries - {key}
  }

  /** What checkLogin answers: normal return only when admitted. */
  function CheckOutcome(entries: map<string, Entry<int>>, lt: LoginType, username: string,
                        maxRetry: int, lockTime: int, rejected: bool): Outcome
  {
    var v := Judge(CountOf(entries, CounterKey(username)), maxRetry, rejected);
    if v == Admitted then Pass else Fail(ThrottleError(lt, v, maxRetry, lockTime))
  }

  /** checkLogin, folded over a run of attempts by the same user: the counters at the end. */
  function CountersAfterRun(entries: map<string, Entry<int>>, username: string, maxRetry: int, lockTime: int,
                            attempts: seq<bool>): map<string, Entry<int>>
    decreases |attempts|
  {
    if |attempts| == 0 then entries
    else CountersAfterRun(CountersAfter(entries, username, maxRetry, lockTime, attempts[0]),
                          username, maxRetry, lockTime, attempts[1..])
  }

  /**
   * A count at the maximum locks the user out whatever the credentials: the
   * answer is the limit-exceeded error and the counter is left as it is.
   */
  lemma LockedOutIgnoresCredentials(entries: map<string, Entry<int>>, lt: LoginType, username: string,
                                    maxRetry: int, lockTime: int, rejected: bool)
    requires CountOf(entries, CounterKey(username)) >= maxRetry
    ensures CheckOutcome(entries, lt, username, maxRetry, lockTime, rejected)
         == Fail(UserException(lt.retryLimitExceed, [Num(maxRetry), Num(lockTime)]))
    ensures CountersAfter(entries, username, maxRetry, lockTime, rejected) == entries
  {
  }

  /**
   * Rejected credentials below the limit: the count becomes old + 1 with a fresh
   * time to live of lockTime minutes, and the call throws, with the limit error
   * exactly when the new count reaches the maximum, else with the new count.
   */
  lemma RejectionCounts(entries: map<string, Entry<int>>, lt: LoginType, username: string,
                        maxRetry: int, lockTime: int)
    requires CountOf(entries, CounterKey(username)) < maxRetry
    ensures var after := CountersAfter(entries, username, maxRetry, lockTime, true);
      var n := CountOf(entries, CounterKey(username)) + 1;
      CounterKey(username) in after && after[CounterKey(username)] == Entry(n, Expires(lockTime * 60))
    ensures var n := CountOf(entries, CounterKey(username)) + 1;
      CheckOutcome(entries, lt, username, maxRetry, lockTime, true)
        == Fail(if n >= maxRetry then UserException(lt.retryLimitExceed, [Num(maxRetry), Num(lockTime)])
                else UserException(lt.retryLimitCount, [Num(n)]))
  {
  }

  /** Accepted credentials below the limit: the call returns and the next read of the count yields 0. */
  lemma AdmissionClearsCounter(entries: map<string, Entry<int>>, lt: LoginType, username: string,
                               maxRetry: int, lockTime: int)
    requires CountOf(entries, CounterKey(username)) < maxRetry
    ensures CheckOutcome(entries, lt, username, maxRetry, lockTime, false) == Pass
    ensures CountOf(CountersAfter(entries, username, maxRetry, lockTime, false), CounterKey(username)) == 0
  {
  }

  /** A check for one username leaves every other username's counter alone. */
  lemma OtherCountersUntouched(entries: map<string, Entry<int>>, username: string, other: string,
                               maxRetry: int, lockTime: int, rejected: bool)
    requires other != username
    ensures var after := CountersAfter(entries, username, maxRetry, lockTime, rejected);
      (CounterKey(other) in after <==> CounterKey(other) in entries)
      && (CounterKey(other) in entries ==> after[CounterKey(other)] == entries[CounterKey(other)])
  {
    assert CounterKey(other) != CounterKey(username) by {
      if CounterKey(other) == CounterKey(username) {
        CounterKeyInjective(other, username);
      }
    }
  }

  /** From a count c, k rejected attempts (while c + k stays within the limit) leave the count c + k. */
  lemma {:induction false} RejectionsAccumulate(entries: map<string, Entry<int>>, username: string,
                                               maxRetry: int, lockTime: int, k: nat)
    requires CountOf(entries, CounterKey(username)) + k <= maxRetry
    ensures CountOf(CountersAfterRun(entries, username, maxRetry, lockTime, seq(k, _ => true)),
                    CounterKey(username)) == CountOf(entries, CounterKey(username)) + k
    decreases k
  {
    if k > 0 {
      var next := CountersAfter(entries, username, maxRetry, lockTime, true);
      assert CountOf(next, CounterKey(username)) == CountOf(entries, CounterKey(username)) + 1;
      assert seq(k, _ => true)[1..] == seq(k - 1, _ => true);
      RejectionsAccumulate(next, username, maxRetry, lockTime, k - 1);
    }
  }

  /**
   * With no counter stored, maxRetry rejected attempts in a row lock the user out:
   * the next attempt fails with the limit error even with the right password.
   */
  lemma MaxRejectionsLockOut(entries: map<string, Entry<int>>, lt: LoginType, username: string,
                             maxRetry: nat, lockTime: int)
    requires CounterKey(username) !in entries
    ensures var after := CountersAfterRun(entries, username, maxRetry, lockTime, seq(maxRetry, _ => true));
      CheckOutcome(after, lt, username, maxRetry, lockTime, false)
        == Fail(UserException(lt.retryLimitExceed, [Num(maxRetry), Num(lockTime)]))
  {
    RejectionsAccumulate(entries, username, maxRetry, lockTime, maxRetry);
  }

  /** SysTenantVo: what the tenant gate reads of a tenant. */
  datatype Tenant = Tenant(status: string, expireTime: Option<int>)

  const TENANT_NOT_BLANK: string := "tenant.number.not.blank"
  const TENANT_NOT_EXISTS: string := "tenant.not.exists"
  const TENANT_BLOCKED: string := "tenant.blocked"
  const TENANT_EXPIRED: string := "tenant.expired"

  /** A stored tenant that can be logged into at time `now`: not disabled, and not past its expiry. */
  predicate Usable(t: Tenant, now: int) {
    t.status != DISABLE && (t.expireTime.None? || now <= t.expireTime.value)
  }

  /**
   * checkTenant: `tenants` is the tenant table, `now` the current time. The
   * checks run in the order: tenancy off, blank id, default id, then not found,
   * disabled, expired; the first that decides wins.
   */
  function CheckTenant(enabled: bool, tenants: map<string, Tenant>, now: int, tenantId: Option<string>): (r: Outcome)
    ensures !enabled ==> r == Pass
    ensures enabled && IsBlank(tenantId) ==> r == Fail(TenantException(TENANT_NOT_BLANK))
    ensures enabled && tenantId == Some(DEFAULT_TENANT_ID) ==> r == Pass
    ensures r == Pass <==>
      (!enabled || (!IsBlank(tenantId)
        && (tenantId.value == DEFAULT_TENANT_ID || (tenantId.value in tenants && Usable(tenants[tenantId.value], now)))))
    ensures r.Fail? ==> r.error.TenantException?
  {
    DefaultIdNotBlank();
    if !enabled then Pass
    else if IsBlank(tenantId) then Fail(TenantException(TENANT_NOT_BLANK))
    else if tenantId.value == DEFAULT_TENANT_ID then Pass
    else if tenantId.value !in tenants then Fail(TenantException(TENANT_NOT_EXISTS))
    else
      var t := tenants[tenantId.value];
      if t.status == DISABLE then Fail(TenantException(TENANT_BLOCKED))
      else if t.expireTime.Some? && now > t.expireTime.value then Fail(TenantException(TENANT_EXPIRED))
      else Pass
  }

  lemma DefaultIdNotBlank()
    ensures !IsBlank(Some(DEFAULT_TENANT_ID))
  {
    assert !IsWhitespace(DEFAULT_TENANT_ID[0]);
  }

  /** The default tenant is admitted without a lookup: the tenant table plays no part. */
  lemma DefaultTenantNeedsNoLookup(enabled: bool, t1: map<string, Tenant>, t2: map<string, Tenant>, now: int)
    ensures CheckTenant(enabled, t1, now, Some(DEFAULT_TENANT_ID)) == CheckTenant(enabled, t2, now, Some(DEFAULT_TENANT_ID))
  {
    DefaultIdNotBlank();
  }

  /** A disabled tenant is refused as blocked even when it is also expired: disabled is checked first. */
  lemma BlockedBeforeExpired(tenants: map<string, Tenant>, now: int, id: string)
    requires !IsBlank(Some(id)) && id != DEFAULT_TENANT_ID
    requires id in tenants && tenants[id].status == DISABLE
    ensures CheckTenant(true, tenants, now, Some(id)) == Fail(TenantException(TENANT_BLOCKED))
  {
  }

  /** Expiry is strict: a tenant is still admitted at the very instant of its expire time. */
  lemma ExpiryIsStrict(tenants: map<string, Tenant>, id: string)
    requires !IsBlank(Some(id)) && id != DEFAULT_TENANT_ID
    requires id in tenants && tenants[id].status != DISABLE && tenants[id].expireTime.Some?
    ensures CheckTenant(true, tenants, tenants[id].expireTime.value, Some(id)) == Pass
    ensures CheckTenant(true, tenants, tenants[id].expireTime.value + 1, Some(id)) == Fail(TenantException(TENANT_EXPIRED))
  {
  }

  /** SysUserVo: the account fields buildLoginUser copies. */
  datatype Account = Account(
    tenantId: Option<string>,
    userId: Option<int>,
    deptId: Option<int>,
    userName: Option<string>,
    nickName: Option<string>,
    userType: Option<string>)

  /** SysDeptVo: the dept fields buildLoginUser copies. */
  datatype DeptInfo = DeptInfo(deptName: Option<string>, deptCategory: Option<string>)

  /** What the permission, dept, role and post services answer for the account. */
  datatype ServiceAnswers = ServiceAnswers(
    menuPerms: seq<string>,
    roleKeys: seq<string>,
    dept: Option<DeptInfo>,
    roles: seq<string>,
    postIds: seq<int>)

  /**
   * buildLoginUser: the account's fields, its permission sets, and, when the
   * account has a dept, the dept's name and category with "" for anything missing.
   */
  function BuildLoginUser(user: Account, answers: ServiceAnswers): (u: LoginUser)
    ensures u.userId == user.userId && u.tenantId == user.tenantId && u.deptId == user.deptId
    ensures u.username == user.userName && u.nickname == user.nickName && u.userType == user.userType
    ensures u.rolePermission == GetRolePermission(user.userId, answers.roleKeys)
    ensures u.menuPermission == GetMenuPermission(user.userId, answers.menuPerms)
    // Without a dept both dept fields stay unset; with one they are always set.
    ensures user.deptId.None? <==> u.deptName.None?
    ensures user.deptId.None? <==> u.deptCategory.None?
    ensures user.deptId.Some? && answers.dept.None? ==> u.deptName == Some("") && u.deptCategory == Some("")
    ensures user.deptId.Some? && answers.dept.Some? ==>
      u.deptName == Some(answers.dept.value.deptName.GetOr(""))
      && u.deptCategory == Some(answers.dept.value.deptCategory.GetOr(""))
  {
    var deptName: Option<string> :=
      if user.deptId.None? then None
      else if answers.dept.None? then Some("")
      else Some(answers.dept.value.deptName.GetOr(""));
    var deptCategory: Option<string> :=
      if user.deptId.None? then None
      else if answers.dept.None? then Some("")
      else Some(answers.dept.value.deptCategory.GetOr(""));
    LoginUser(user.tenantId, user.userId, user.deptId, user.userName, user.nickName, user.userType,
              GetMenuPermission(user.userId, answers.menuPerms), GetRolePermission(user.userId, answers.roleKeys),
              deptName, deptCategory, answers.roles, answers.postIds)
  }

  /** The login user of the current token, if there is a live token with a login user. */
  function LoginUserOf(sessions: map<string, TokenSession>, token: Option<string>): Option<LoginUser> {
    if token.Some? && token.value in sessions then sessions[token.value].loginUser else None
  }

  /** The live tokens after logout: the current token is invalidated. */
  function SessionsAfterLogout(sessions: map<string, TokenSession>, token: Option<string>): (r: map<string, TokenSession>)
    ensures token.Some? ==> token.value !in r
    ensures forall t :: t in r <==> t in sessions && token != Some(t)
  {
    if token.Some? then sessions - {token.value} else sessions
  }

  /** The audit events logout publishes: one LOGOUT event for a login user, none otherwise. */
  function LogoutEvents(sessions: map<string, TokenSession>, token: Option<string>, request: RequestInfo,
                        i18n: Localizer): seq<LoginInfoEvent>
  {
    match LoginUserOf(sessions, token)
    case None => []
    case Some(u) => [LoginInfoEvent(u.tenantId, u.username, LOGOUT, i18n("user.logout.success", []), request)]
  }

  /**
   * Logging out twice is logging out once: after a logout the token has no login
   * user, so a second one publishes nothing and invalidates nothing more.
   */
  lemma LogoutIdempotent(sessions: map<string, TokenSession>, token: Option<string>, request: RequestInfo,
                         i18n: Localizer)
    ensures LogoutEvents(SessionsAfterLogout(sessions, token), token, request, i18n) == []
    ensures SessionsAfterLogout(SessionsAfterLogout(sessions, token), token) == SessionsAfterLogout(sessions, token)
  {
  }

  /** A logout event carries the tenant and username of the login user. */
  lemma LogoutAuditsTheUser(sessions: map<string, TokenSession>, token: Option<string>, request: RequestInfo,
                            i18n: Localizer)
    requires LoginUserOf(sessions, token).Some?
    ensures var u := LoginUserOf(sessions, token).value;
      var es := LogoutEvents(sessions, token, request, i18n);
      |es| == 1 && es[0].tenantId == u.tenantId && es[0].username == u.username && es[0].status == LOGOUT
  {
  }

  class LoginServiceImpl {
    const counters: KeyValueCache<string, int>
    const bus: EventBus
    const tokens: TokenStore
    const listener: UserActionListener
    const i18n: Localizer
    /** user.password.maxRetryCount and user.password.lockTime (minutes) of the configuration. */
    const maxRetryCount: int
    const lockTime: int
    /** TenantHelper.isEnable() */
    const tenantEnabled: bool
    /** The super-admin's dynamically selected tenant (TenantHelper's dynamic tenant). */
    var dynamicTenant: Option<string>

    /** The listener works on the same token store and event bus. */
    predicate Wired() {
      listener.tokens == tokens && listener.bus == bus
    }

    constructor (counters: KeyValueCache<string, int>, bus: EventBus, tokens: TokenStore,
                 listener: UserActionListener, i18n: Localizer, maxRetryCount: int, lockTime: int,
                 tenantEnabled: bool)
      requires listener.tokens == tokens && listener.bus == bus
      ensures Wired()
      ensures this.counters == counters && this.bus == bus && this.tokens == tokens && this.listener == listener
      ensures this.i18n == i18n && this.maxRetryCount == maxRetryCount && this.lockTime == lockTime
      ensures this.tenantEnabled == tenantEnabled && dynamicTenant == None
    {
      this.counters := counters;
      this.bus := bus;
      this.tokens := tokens;
      this.listener := listener;
      this.i18n := i18n;
      this.maxRetryCount := maxRetryCount;
      this.lockTime := lockTime;
      this.tenantEnabled := tenantEnabled;
      dynamicTenant := None;
    }

    /** recordLoginInfo(tenantId, username, status, message): publish one audit event. */
    method RecordLoginInfo(tenantId: Option<string>, username: Option<string>, status: string, message: string,
                           request: RequestInfo)
      modifies bus
      ensures bus.published == old(bus.published) + [LoginInfoEvent(tenantId, username, status, message, request)]
    {
      bus.Publish(LoginInfoEvent(tenantId, username, status, message, request));
    }

    /**
     * checkLogin: `rejected` is the answer the credential supplier would give
     * (true means the credentials are wrong); `consulted` tells whether the
     * supplier was evaluated.
     */
    method CheckLogin(lt: LoginType, tenantId: Option<string>, username: string, rejected: bool,
                      request: RequestInfo) returns (r: Outcome, consulted: bool)
      modifies counters, bus
      ensures r == CheckOutcome(old(counters.entries), lt, username, maxRetryCount, lockTime, rejected)
      ensures counters.entries == CountersAfter(old(counters.entries), username, maxRetryCount, lockTime, rejected)
      ensures consulted <==> CountOf(old(counters.entries), CounterKey(username)) < maxRetryCount
      // Every refusal is audited by exactly one login-fail event carrying the thrown error's message.
      ensures r.Fail? ==>
        bus.published == old(bus.published) +
          [LoginInfoEvent(tenantId, Some(username), LOGIN_FAIL, i18n(r.error.key, r.error.args), request)]
      ensures r == Pass ==> bus.published == old(bus.published)
    {
      var errorKey := CounterKey(username);
      var cached := counters.Get(errorKey);
      var errorNumber := cached.GetOr(0);
      if errorNumber >= maxRetryCount {
        RecordLoginInfo(tenantId, Some(username), LOGIN_FAIL,
                        i18n(lt.retryLimitExceed, [Num(maxRetryCount), Num(lockTime)]), request);
        return Fail(UserException(lt.retryLimitExceed, [Num(maxRetryCount), Num(lockTime)])), false;
      }
      consulted := true;
      if rejected {
        errorNumber := errorNumber + 1;
        counters.Set(errorKey, errorNumber, Expires(lockTime * 60));
        if errorNumber >= maxRetryCount {
          RecordLoginInfo(tenantId, Some(username), LOGIN_FAIL,
                          i18n(lt.retryLimitExceed, [Num(maxRetryCount), Num(lockTime)]), request);
          return Fail(UserException(lt.retryLimitExceed, [Num(maxRetryCount), Num(lockTime)])), consulted;
        } else {
          RecordLoginInfo(tenantId, Some(username), LOGIN_FAIL, i18n(lt.retryLimitCount, [Num(errorNumber)]), request);
          return Fail(UserException(lt.retryLimitCount, [Num(errorNumber)])), consulted;
        }
      }
      counters.Delete(errorKey);
      r := Pass;
    }

    /**
     * logout for the request's current token (None when the request carries
     * none). It never throws: without a login user nothing is audited, and the
     * framework logout of a live token runs the listener's logout hook and
     * invalidates the token.
     */
    method Logout(token: Option<string>, request: RequestInfo)
      requires Wired()
      modifies this, bus, tokens, listener.registry
      ensures bus.published == old(bus.published) + LogoutEvents(old(tokens.sessions), token, request, i18n)
      ensures tokens.sessions == SessionsAfterLogout(old(tokens.sessions), token)
      ensures token.Some? && token.value in old(tokens.sessions) ==>
        listener.registry.entries == RemoveSession(old(listener.registry.entries),
                                                   TenantExtraOf(old(tokens.sessions), token.value), token.value)
      ensures !(token.Some? && token.value in old(tokens.sessions)) ==>
        listener.registry.entries == old(listener.registry.entries)
      ensures var u := LoginUserOf(old(tokens.sessions), token);
        dynamicTenant == if u.Some? && tenantEnabled && IsSuperAdmin(u.value.userId) then None else old(dynamicTenant)
    {
      var loginUser := LoginUserOf(tokens.sessions, token);
      if loginUser.Some? {
        if tenantEnabled && IsSuperAdmin(loginUser.value.userId) {
          dynamicTenant := None;
        }
        RecordLoginInfo(loginUser.value.tenantId, loginUser.value.username, LOGOUT,
                        i18n("user.logout.success", []), request);
      }
      // finally: StpUtil.logout(), whose NotLoginException for a dead token is swallowed.
      if token.Some? && token.value in tokens.sessions {
        listener.DoLogout(token.value);
        tokens.Invalidate(token.value);
      }
    }
  }
}
