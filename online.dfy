/**
 * The online-session registry kept by the token-lifecycle listener
 * (UserActionListener): a login writes one cache entry per token under the
 * token's tenant, and logout, kickout and replacement delete it again.
 */
module Online {
  import opened Common
  import opened Stores

  /** A cache key scoped to a tenant (the tenant prefix TenantHelper.dynamic applies). */
  datatype SessionKey = SessionKey(tenant: Option<string>, key: string)

  /** UserOnlineDTO: the online-user record stored per token. */
  datatype UserOnline = UserOnline(
    tokenId: string,
    userName: Option<string>,
    clientKey: Option<string>,
    deviceType: Option<string>,
    deptName: Option<string>,
    ipaddr: string,
    loginLocation: string,
    browser: string,
    os: string,
    loginTime: int)

  /** The login parameter the framework hands to doLogin: the extras and the token timeout. */
  datatype LoginParameter = LoginParameter(
    userName: Option<string>,
    tenantId: Option<string>,
    clientKey: Option<string>,
    deptName: Option<string>,
    userId: Option<int>,
    deviceType: Option<string>,
    timeout: int)

  /** The registry key of a token under a tenant. */
  function OnlineKey(tenant: Option<string>, token: string): (k: SessionKey)
    ensures k.tenant == tenant && ONLINE_TOKEN_KEY <= k.key
    ensures k.key[|ONLINE_TOKEN_KEY|..] == token
  {
    SessionKey(tenant, ONLINE_TOKEN_KEY + token)
  }

  /** Distinct (tenant, token) pairs never share a registry key. */
  lemma OnlineKeyInjective(t1: Option<string>, tok1: string, t2: Option<string>, tok2: string)
    requires OnlineKey(t1, tok1) == OnlineKey(t2, tok2)
    ensures t1 == t2 && tok1 == tok2
  {
    assert tok1 == OnlineKey(t1, tok1).key[|ONLINE_TOKEN_KEY|..];
  }

  /** The time to live of the entry: none for the "never expires" timeout -1, else the timeout in seconds. */
  function OnlineTtl(timeout: int): (ttl: Ttl)
    ensures ttl == NoExpiry <==> timeout == -1
    ensures ttl.Expires? ==> ttl.seconds == timeout
  {
    if timeout == -1 then NoExpiry else Expires(timeout)
  }

  /** The record doLogin stores: request data, the token and the login parameter's extras. */
  function OnlineRecord(token: string, param: LoginParameter, request: RequestInfo,
                        location: string, now: int): UserOnline
  {
    UserOnline(token, param.userName, param.clientKey, param.deviceType, param.deptName,
               request.ip, location, request.browser, request.os, now)
  }

  /** The registry after removing a token's entry under the given tenant. */
  function RemoveSession(entries: map<SessionKey, Entry<UserOnline>>, tenant: Option<string>,
                         token: string): (r: map<SessionKey, Entry<UserOnline>>)
    ensures OnlineKey(tenant, token) !in r
    // Every other entry, in particular every entry of another tenant, is kept as it was.
    ensures forall k :: k in entries && k != OnlineKey(tenant, token) ==> k in r && r[k] == entries[k]
    ensures forall k :: k in r ==> k in entries
  {
    entries - {OnlineKey(tenant, token)}
  }

  /** The token-framework callbacks, as one event type. */
  datatype Hook =
    | LogoutHook(token: string)
    | KickoutHook(token: string)
    | ReplacedHook(token: string)
    | DisableHook
    | UntieDisableHook
    | OpenSafeHook(token: string)
    | CloseSafeHook(token: string)
    | CreateSessionHook
    | LogoutSessionHook
    | RenewTimeoutHook(token: string, timeout: int)

  predicate IsRemoval(h: Hook) {
    h.LogoutHook? || h.KickoutHook? || h.ReplacedHook?
  }

  /** The effect of a callback other than login on the registry. */
  function HookEffect(entries: map<SessionKey, Entry<UserOnline>>, sessions: map<string, TokenSession>,
                      h: Hook): map<SessionKey, Entry<UserOnline>>
  {
    match h
    case LogoutHook(t) => RemoveSession(entries, TenantExtraOf(sessions, t), t)
    case KickoutHook(t) => RemoveSession(entries, TenantExtraOf(sessions, t), t)
    case ReplacedHook(t) => RemoveSession(entries, TenantExtraOf(sessions, t), t)
    case _ => entries
  }

  /** Logout, kickout and replacement of the same token have the same effect. */
  lemma RemovalHooksAgree(entries: map<SessionKey, Entry<UserOnline>>, sessions: map<string, TokenSession>,
                          token: string)
    ensures HookEffect(entries, sessions, LogoutHook(token)) == HookEffect(entries, sessions, KickoutHook(token))
    ensures HookEffect(entries, sessions, LogoutHook(token)) == HookEffect(entries, sessions, ReplacedHook(token))
  {
  }

  /** Renewal, disabling, safe mode and session callbacks leave the registry alone. */
  lemma OtherHooksInert(entries: map<SessionKey, Entry<UserOnline>>, sessions: map<string, TokenSession>, h: Hook)
    requires !IsRemoval(h)
    ensures HookEffect(entries, sessions, h) == entries
  {
  }

  /** Every callback is idempotent: delivering it twice is the same as delivering it once. */
  lemma HookIdempotent(entries: map<SessionKey, Entry<UserOnline>>, sessions: map<string, TokenSession>, h: Hook)
    ensures HookEffect(HookEffect(entries, sessions, h), sessions, h) == HookEffect(entries, sessions, h)
  {
  }

  /**
   * A login followed by the logout of the same token, whose tenant extra is the
   * login's tenant, leaves the registry as it was before the login.
   */
  lemma LoginLogoutRoundTrip(entries: map<SessionKey, Entry<UserOnline>>, sessions: map<string, TokenSession>,
                             token: string, param: LoginParameter, e: Entry<UserOnline>)
    requires OnlineKey(param.tenantId, token) !in entries
    requires TenantExtraOf(sessions, token) == param.tenantId
    ensures HookEffect(entries[OnlineKey(param.tenantId, token) := e], sessions, LogoutHook(token)) == entries
  {
    var k := OnlineKey(param.tenantId, token);
    var r := HookEffect(entries[k := e], sessions, LogoutHook(token));
    assert forall x :: x in r <==> x in entries;
  }

  /**
   * A logout for a token whose recorded tenant differs from the tenant it was
   * registered under removes nothing of that registration.
   */
  lemma RemovalIsTenantScoped(entries: map<SessionKey, Entry<UserOnline>>, tenant: Option<string>,
                              other: Option<string>, token: string)
    requires other != tenant && OnlineKey(other, token) in entries
    ensures OnlineKey(other, token) in RemoveSession(entries, tenant, token)
  {
  }

  class UserActionListener {
    const registry: KeyValueCache<SessionKey, UserOnline>
    const bus: EventBus
    const tokens: TokenStore
    const users: UserLoginStamps
    const i18n: Localizer

    constructor (registry: KeyValueCache<SessionKey, UserOnline>, bus: EventBus, tokens: TokenStore,
                 users: UserLoginStamps, i18n: Localizer)
      ensures this.registry == registry && this.bus == bus && this.tokens == tokens
      ensures this.users == users && this.i18n == i18n
    {
      this.registry := registry;
      this.bus := bus;
      this.tokens := tokens;
      this.users := users;
      this.i18n := i18n;
    }

    /**
     * doLogin: store the online record under the login's tenant, publish one
     * login-success event and stamp the user's last login.
     * `location` is the geo-IP label of the request's ip, `now` the current time.
     */
    method DoLogin(token: string, param: LoginParameter, request: RequestInfo, location: string, now: int)
      modifies registry, bus, users
      ensures registry.entries ==
        old(registry.entries)[OnlineKey(param.tenantId, token) :=
          Entry(OnlineRecord(token, param, request, location, now), OnlineTtl(param.timeout))]
      ensures var stored := registry.entries[OnlineKey(param.tenantId, token)].value;
        stored.tokenId == token && stored.userName == param.userName && stored.clientKey == param.clientKey
        && stored.deviceType == param.deviceType && stored.deptName == param.deptName
      ensures bus.published == old(bus.published) +
        [LoginInfoEvent(param.tenantId, param.userName, LOGIN_SUCCESS, i18n("user.login.success", []), request)]
      ensures param.userId.Some? ==> users.stamps == old(users.stamps)[param.userId.value := LoginStamp(request.ip, now, param.userId.value)]
      ensures param.userId.None? ==> users.stamps == old(users.stamps)
    {
      var dto := OnlineRecord(token, param, request, location, now);
      if param.timeout == -1 {
        registry.Set(OnlineKey(param.tenantId, token), dto, NoExpiry);
      } else {
        registry.Set(OnlineKey(param.tenantId, token), dto, Expires(param.timeout));
      }
      bus.Publish(LoginInfoEvent(param.tenantId, param.userName, LOGIN_SUCCESS, i18n("user.login.success", []), request));
      users.RecordLogin(param.userId, request.ip, now);
    }

    /** doLogout: delete the token's entry under the tenant recorded on the token itself. */
    method DoLogout(token: string)
      modifies registry
      ensures registry.entries == RemoveSession(old(registry.entries), TenantExtraOf(tokens.sessions, token), token)
    {
      var tenantId := TenantExtraOf(tokens.sessions, token);
      registry.Delete(OnlineKey(tenantId, token));
    }

    /** doKickout: the same removal as doLogout. */
    method DoKickout(token: string)
      modifies registry
      ensures registry.entries == RemoveSession(old(registry.entries), TenantExtraOf(tokens.sessions, token), token)
    {
      var tenantId := TenantExtraOf(tokens.sessions, token);
      registry.Delete(OnlineKey(tenantId, token));
    }

    /** doReplaced: the same removal as doLogout. */
    method DoReplaced(token: string)
      modifies registry
      ensures registry.entries == RemoveSession(old(registry.entries), TenantExtraOf(tokens.sessions, token), token)
    {
      var tenantId := TenantExtraOf(tokens.sessions, token);
      registry.Delete(OnlineKey(tenantId, token));
    }

    /**
     * Delivery of any callback other than login. The disable, untie-disable,
     * safe-mode, session and renewal callbacks have empty bodies in the listener.
     */
    method OnHook(h: Hook)
      modifies registry, bus, users
      ensures registry.entries == HookEffect(old(registry.entries), tokens.sessions, h)
      ensures bus.published == old(bus.published) && users.stamps == old(users.stamps)
    {
      match h
      case LogoutHook(t) => DoLogout(t);
      case KickoutHook(t) => DoKickout(t);
      case ReplacedHook(t) => DoReplaced(t);
      case _ =>
    }
  }
}
