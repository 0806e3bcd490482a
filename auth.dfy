/**
 * The authentication entry points: the grant-type strategy registry
 * (AuthStrategy.login) and the login, logout and tenant-list endpoints of
 * AuthController.
 */
module Auth {
  import opened Common
  import opened Text
  import opened Stores
  import opened ApiResults
  import opened Guards
  import opened LoginService

  /** AuthStrategy.BASE_NAME: the suffix of every strategy bean's name. */
  const BASE_NAME: string := "AuthStrategy"
  const GRANT_TYPE_ERROR: string := "授权类型不正确!"

  /** The bean name a grant type is dispatched to. */
  function StrategyKey(grantType: string): (k: string)
    ensures |k| == |grantType| + |BASE_NAME| && k[..|grantType|] == grantType && k[|grantType|..] == BASE_NAME
  {
    grantType + BASE_NAME
  }

  /** Distinct grant types never reach the same strategy. */
  lemma StrategyKeyInjective(g1: string, g2: string)
    requires StrategyKey(g1) == StrategyKey(g2)
    ensures g1 == g2
  {
    assert g1 == StrategyKey(g1)[..|g1|];
  }

  /**
   * AuthStrategy.login: `registry` maps bean names to the strategies' login
   * (body, client) functions, each of which may throw.
   */
  function StrategyLogin<V>(registry: map<string, (string, Client) -> Result<V>>, body: string, client: Client,
                            grantType: string): (r: Result<V>)
    ensures StrategyKey(grantType) !in registry ==> r == Failure(ServiceException(GRANT_TYPE_ERROR))
    // A registered strategy is called once with the body and client as given, and its answer is returned as is.
    ensures StrategyKey(grantType) in registry ==> r == registry[StrategyKey(grantType)](body, client)
  {
    var beanName := StrategyKey(grantType);
    if beanName !in registry then Failure(ServiceException(GRANT_TYPE_ERROR))
    else registry[beanName](body, client)
  }

  /** Registering more strategies never changes how an already-registered grant type is served. */
  lemma DispatchStableUnderRegistration<V>(registry: map<string, (string, Client) -> Result<V>>,
                                          extra: map<string, (string, Client) -> Result<V>>,
                                          body: string, client: Client, grantType: string)
    requires StrategyKey(grantType) in registry
    requires forall k :: k in extra ==> k !in registry
    ensures StrategyLogin(registry + extra, body, client, grantType) == StrategyLogin(registry, body, client, grantType)
  {
  }

  /** LoginBody: the fields of the login request the controller reads. */
  datatype LoginBody = LoginBody(clientId: string, grantType: string, tenantId: Option<string>)

  const AUTH_GRANT_TYPE_ERROR: string := "auth.grant.type.error"
  const AUTH_GRANT_TYPE_BLOCKED: string := "auth.grant.type.blocked"

  /** StringUtils.contains(client.getGrantType(), grantType): false for a null grant-type text. */
  predicate AllowsGrantType(client: Client, grantType: string) {
    client.grantType.Some? && Contains(client.grantType.value, grantType)
  }

  /** The two client checks of login, in order. */
  function ClientGuards<T>(client: Option<Client>, grantType: string, i18n: Localizer): seq<Check<ApiResult<T>>> {
    [ Check(client.Some? && AllowsGrantType(client.value, grantType), FailMsg(i18n(AUTH_GRANT_TYPE_ERROR, []))),
      Check(client.Some? && client.value.status == Some(NORMAL), FailMsg(i18n(AUTH_GRANT_TYPE_BLOCKED, []))) ]
  }

  /** The grant-type check answers before the status check, and both pass only together. */
  lemma ClientGuardsInOrder<T>(client: Option<Client>, grantType: string, i18n: Localizer)
    ensures var cs := ClientGuards<T>(client, grantType, i18n);
      FirstRejection(cs) ==
        if !(client.Some? && AllowsGrantType(client.value, grantType)) then Some(FailMsg(i18n(AUTH_GRANT_TYPE_ERROR, [])))
        else if client.value.status != Some(NORMAL) then Some(FailMsg(i18n(AUTH_GRANT_TYPE_BLOCKED, [])))
        else None
  {
    var cs := ClientGuards<T>(client, grantType, i18n);
    if !cs[0].holds {
      assert FirstFailing(cs) == Some(0);
    } else if !cs[1].holds {
      assert FirstFailing(cs[1..]) == Some(0);
      assert FirstFailing(cs) == Some(1);
    } else {
      assert cs[1..][1..] == [];
      assert FirstFailing(cs[1..]) == None;
    }
  }

  /** The answer of the login endpoint, with the strategy bean it dispatched to, if any. */
  datatype LoginReply<V> = LoginReply(response: Result<ApiResult<V>>, dispatched: Option<string>)

  /**
   * AuthController.login: `clients` is the client table, `tenantEnabled`,
   * `tenants` and `now` what the tenant gate reads, `registry` the strategies.
   */
  function Login<V>(body: string, loginBody: LoginBody, clients: map<string, Client>, tenantEnabled: bool,
                    tenants: map<string, Tenant>, now: int,
                    registry: map<string, (string, Client) -> Result<V>>, i18n: Localizer): (r: LoginReply<V>)
    // The client checks answer first, in order, and nothing runs after a refusal.
    ensures var client := if loginBody.clientId in clients then Some(clients[loginBody.clientId]) else None;
      var refusal := FirstRejection(ClientGuards<V>(client, loginBody.grantType, i18n));
      (refusal.Some? ==> r == LoginReply(Success(refusal.value), None))
      && (refusal.None? && CheckTenant(tenantEnabled, tenants, now, loginBody.tenantId).Fail? ==>
            r == LoginReply(Failure(CheckTenant(tenantEnabled, tenants, now, loginBody.tenantId).error), None))
    // A dispatch happens only after both client checks and the tenant gate passed, to the grant type's bean.
    ensures r.dispatched.Some? ==>
      var client := clients[loginBody.clientId];
      loginBody.clientId in clients && AllowsGrantType(client, loginBody.grantType) && client.status == Some(NORMAL)
      && CheckTenant(tenantEnabled, tenants, now, loginBody.tenantId) == Pass
      && r.dispatched == Some(StrategyKey(loginBody.grantType))
    // A successful login answers ok with the strategy's login result.
    ensures r.response.Success? && IsSuccess(r.response.value) ==>
      r.dispatched.Some? && r.response.value.data.Some?
      && StrategyLogin(registry, body, clients[loginBody.clientId], loginBody.grantType)
         == Success(r.response.value.data.value)
    // Once every check passed, the grant type's strategy is dispatched and its outcome answered as is.
    ensures var client := if loginBody.clientId in clients then Some(clients[loginBody.clientId]) else None;
      FirstRejection(ClientGuards<V>(client, loginBody.grantType, i18n)).None?
      && CheckTenant(tenantEnabled, tenants, now, loginBody.tenantId) == Pass ==>
        r.dispatched == Some(StrategyKey(loginBody.grantType))
        && r.response == match StrategyLogin(registry, body, client.value, loginBody.grantType)
                         case Success(vo) => Success(OkData(vo))
                         case Failure(e) => Failure(e)
  {
    var client := if loginBody.clientId in clients then Some(clients[loginBody.clientId]) else None;
    ClientGuardsInOrder<V>(client, loginBody.grantType, i18n);
    if client.None? || !AllowsGrantType(client.value, loginBody.grantType) then
      LoginReply(Success(FailMsg(i18n(AUTH_GRANT_TYPE_ERROR, []))), None)
    else if client.value.status != Some(NORMAL) then
      LoginReply(Success(FailMsg(i18n(AUTH_GRANT_TYPE_BLOCKED, []))), None)
    else
      match CheckTenant(tenantEnabled, tenants, now, loginBody.tenantId)
      case Fail(e) => LoginReply(Failure(e), None)
      case Pass =>
        var key := Some(StrategyKey(loginBody.grantType));
        match StrategyLogin(registry, body, client.value, loginBody.grantType)
        case Failure(e) => LoginReply(Failure(e), key)
        case Success(vo) => LoginReply(Success(OkData(vo)), key)
  }

  /** An unknown grant type of an admitted client throws the strategy error. */
  lemma UnknownGrantTypeThrows<V>(body: string, loginBody: LoginBody, clients: map<string, Client>, tenantEnabled: bool,
                                  tenants: map<string, Tenant>, now: int,
                                  registry: map<string, (string, Client) -> Result<V>>, i18n: Localizer)
    requires loginBody.clientId in clients
    requires AllowsGrantType(clients[loginBody.clientId], loginBody.grantType)
    requires clients[loginBody.clientId].status == Some(NORMAL)
    requires CheckTenant(tenantEnabled, tenants, now, loginBody.tenantId) == Pass
    requires StrategyKey(loginBody.grantType) !in registry
    ensures Login(body, loginBody, clients, tenantEnabled, tenants, now, registry, i18n).response
         == Failure(ServiceException(GRANT_TYPE_ERROR))
  {
  }

  const LOGOUT_OK: string := "退出成功"

  /** AuthController.logout: the service logout never throws, so the answer is always success. */
  method Logout(service: LoginServiceImpl, token: Option<string>, request: RequestInfo) returns (r: ApiResult<()>)
    requires service.Wired()
    modifies service, service.bus, service.tokens, service.listener.registry
    ensures IsSuccess(r) && r.msg == LOGOUT_OK && r.data == None
    ensures service.tokens.sessions == SessionsAfterLogout(old(service.tokens.sessions), token)
    ensures service.bus.published == old(service.bus.published)
      + LogoutEvents(old(service.tokens.sessions), token, request, service.i18n)
  {
    service.Logout(token, request);
    r := OkMsg(LOGOUT_OK);
  }

  /** The text after the first "//" of a referer. */
  function AfterScheme(referer: string): string
    requires IndexOf(referer, "//").Some?
  {
    referer[IndexOf(referer, "//").value + 2..]
  }

  /**
   * `referer.split("//")[1].split("/")[0]`, or None where Java throws
   * ArrayIndexOutOfBoundsException because one of the arrays is too short.
   */
  function HostFromReferer(referer: string): Option<string> {
    var a := JavaSplit(referer, "//");
    if |a| < 2 then None
    else
      var b := JavaSplit(a[1], "/");
      if |b| == 0 then None else Some(b[0])
  }

  /** The first piece of a split is the text before the first occurrence, or the whole text. */
  lemma FirstPiece(s: string, sep: string)
    requires |sep| > 0
    ensures IndexOf(s, sep).None? ==> Pieces(s, sep)[0] == s
    ensures IndexOf(s, sep).Some? ==> Pieces(s, sep)[0] == s[..IndexOf(s, sep).value]
  {
  }

  /** Up to position k of s there is no '/' when the first "/" occurs at k (or nowhere, k = |s|). */
  lemma NoSlashBefore(s: string, k: nat)
    requires k <= |s|
    requires forall j :: 0 <= j < k ==> !OccursAt(s, "/", j)
    ensures '/' !in s[..k]
  {
    forall j | 0 <= j < k ensures s[j] != '/' {
      OccursAtChar(s, '/', j);
    }
  }

  /**
   * The second piece of splitting on "//" is the text after the first "//" up
   * to position j, where the next "//" (so a '/') starts or the text ends.
   */
  lemma SecondPiece(referer: string) returns (j: nat)
    requires |JavaSplit(referer, "//")| >= 2
    ensures IndexOf(referer, "//").Some?
    ensures j <= |AfterScheme(referer)| && JavaSplit(referer, "//")[1] == AfterScheme(referer)[..j]
    ensures j < |AfterScheme(referer)| ==> AfterScheme(referer)[j] == '/'
  {
    var a := JavaSplit(referer, "//");
    assert IndexOf(referer, "//").Some?;
    var i := IndexOf(referer, "//").value;
    var rest := referer[i + 2..];
    var ps := Pieces(referer, "//");
    assert ps == [referer[..i]] + Pieces(rest, "//");
    assert a == DropTrailingEmpty(ps);
    assert a == ps[..|a|];
    assert a[1] == Pieces(rest, "//")[0];
    FirstPiece(rest, "//");
    match IndexOf(rest, "//")
    case None =>
      j := |rest|;
      assert rest[..j] == rest;
    case Some(k) =>
      j := k;
      assert rest[j] == rest[j..j + 2][0];
  }

  /** The first piece of splitting on "/" is a prefix free of '/', followed by '/' or the end. */
  lemma FirstSegment(p: string)
    requires |JavaSplit(p, "/")| > 0
    ensures var h := JavaSplit(p, "/")[0]; h <= p && '/' !in h && (|h| == |p| || p[|h|] == '/')
  {
    var h := JavaSplit(p, "/")[0];
    match IndexOf(p, "/")
    case None =>
      NoSlashBefore(p, |p|);
      assert p[..|p|] == p;
    case Some(k) =>
      FirstPiece(p, "/");
      assert h == p[..k];
      NoSlashBefore(p, k);
      OccursAtChar(p, '/', k);
  }

  /**
   * The host taken from a referer is the text after the first "//" up to the
   * next "/": a prefix of that text, free of '/', and followed by '/' or the end.
   */
  lemma HostIsFirstSegment(referer: string)
    requires HostFromReferer(referer).Some?
    ensures IndexOf(referer, "//").Some?
    ensures var rest := AfterScheme(referer); var h := HostFromReferer(referer).value;
      h <= rest && '/' !in h && (|h| == |rest| || rest[|h|] == '/')
  {
    var j := SecondPiece(referer);
    var rest := AfterScheme(referer);
    var p1 := JavaSplit(referer, "//")[1];
    FirstSegment(p1);
    var h := HostFromReferer(referer).value;
    assert h == JavaSplit(p1, "/")[0];
    if |h| == |p1| && j < |rest| {
      assert rest[|h|] == rest[j];
    } else if |h| < |p1| {
      assert rest[|h|] == p1[|h|];
    }
  }

  /**
   * A referer whose text after the first "//" starts with a character other
   * than '/' always yields a non-empty host.
   */
  lemma HostPresentAfterAuthority(referer: string)
    requires IndexOf(referer, "//").Some?
    requires |AfterScheme(referer)| > 0 && AfterScheme(referer)[0] != '/'
    ensures HostFromReferer(referer).Some? && |HostFromReferer(referer).value| > 0
  {
    var i := IndexOf(referer, "//").value;
    var rest := referer[i + 2..];
    assert Pieces(referer, "//") == [referer[..i]] + Pieces(rest, "//");
    FirstPiece(rest, "//");
    var p1 := Pieces(rest, "//")[0];
    assert |p1| > 0 && p1[0] == rest[0];
    assert Pieces(referer, "//")[1] == p1;
    var a := JavaSplit(referer, "//");
    assert |a| >= 2 && a[1] == p1;
    match IndexOf(p1, "/")
    case None =>
    case Some(k) =>
      OccursAtChar(p1, '/', k);
      FirstPiece(p1, "/");
      assert Pieces(p1, "/")[0] != "";
  }

  /**
   * The endpoint throws ArrayIndexOutOfBoundsException for a referer without
   * "//", and for one ending in "///" at its first "//", such as "http:///".
   */
  lemma HostAbsentCases(referer: string)
    ensures IndexOf(referer, "//").None? ==> HostFromReferer(referer).None?
    ensures IndexOf(referer, "//").Some? && AfterScheme(referer) == "/" ==> HostFromReferer(referer).None?
  {
    if IndexOf(referer, "//").Some? && AfterScheme(referer) == "/" {
      var i := IndexOf(referer, "//").value;
      assert IndexOf("/", "//") == None;
      assert Pieces(referer, "//") == [referer[..i], "/"];
      var a := JavaSplit(referer, "//");
      assert a == [referer[..i], "/"];
      assert IndexOf("/", "/") == Some(0);
      assert IndexOf("", "/") == None;
      assert Pieces("/", "/") == ["", ""];
      assert JavaSplit("/", "/") == [];
    }
  }

  /** TenantListVo: a tenant as offered on the login page. */
  datatype TenantListVo = TenantListVo(tenantId: string, companyName: Option<string>, domain: Option<string>)

  /** LoginTenantVo: whether tenancy is on, and the tenants to offer (unset when it is off). */
  datatype LoginTenantVo = LoginTenantVo(tenantEnabled: bool, voList: Option<seq<TenantListVo>>)

  /** The tenants whose domain equals the host ignoring case, in their order. */
  function MatchingDomain(vos: seq<TenantListVo>, host: string): (r: seq<TenantListVo>)
    ensures |r| <= |vos|
    ensures forall x :: x in r <==> x in vos && EqualsIgnoreCase(x.domain, host)
    decreases |vos|
  {
    if |vos| == 0 then []
    else
      var rest := MatchingDomain(vos[1..], host);
      assert forall x :: x in vos <==> x == vos[0] || x in vos[1..];
      if EqualsIgnoreCase(vos[0].domain, host) then [vos[0]] + rest else rest
  }

  /** The domain filter works tenant by tenant, so the kept tenants stay in their order. */
  lemma {:induction false} MatchingDomainAppend(a: seq<TenantListVo>, b: seq<TenantListVo>, host: string)
    ensures MatchingDomain(a + b, host) == MatchingDomain(a, host) + MatchingDomain(b, host)
    decreases |a|
  {
    if |a| > 0 {
      var ab := a + b;
      assert ab[0] == a[0];
      assert ab[1..] == a[1..] + b;
      MatchingDomainAppend(a[1..], b, host);
      var head: seq<TenantListVo> := if EqualsIgnoreCase(a[0].domain, host) then [a[0]] else [];
      assert MatchingDomain(ab, host) == head + MatchingDomain(ab[1..], host);
      assert MatchingDomain(a, host) == head + MatchingDomain(a[1..], host);
    } else {
      assert a + b == b;
    }
  }

  /**
   * AuthController.tenantList: `caller` is the logged-in user id (None when not
   * logged in, which counts as not super-admin), `referer` the referer header
   * and `requestHost` the host of the request URL.
   */
  function TenantList(enabled: bool, tenants: seq<TenantListVo>, caller: Option<int>, referer: Option<string>,
                      requestHost: string): (r: Result<ApiResult<LoginTenantVo>>)
    ensures !enabled ==> r == Success(OkData(LoginTenantVo(false, None)))
    ensures enabled && IsSuperAdmin(caller) ==> r == Success(OkData(LoginTenantVo(true, Some(tenants))))
    ensures r.Success? ==> IsSuccess(r.value) && r.value.data.Some? && r.value.data.value.tenantEnabled == enabled
    // Failure only from the referer's host extraction.
    ensures r.Failure? ==> r.error == ArrayIndexOutOfBoundsException && enabled && !IsBlank(referer)
    // Anyone else gets the tenants of the host's domain, or all tenants when none match.
    ensures enabled && !IsSuperAdmin(caller) && r.Success? ==>
      var host := if IsBlank(referer) then Some(requestHost) else HostFromReferer(referer.value);
      var list := r.value.data.value.voList;
      host.Some? && list.Some? && (forall x :: x in list.value ==> x in tenants)
      && (if exists x :: x in tenants && EqualsIgnoreCase(x.domain, host.value)
          then (forall x :: x in list.value <==> x in tenants && EqualsIgnoreCase(x.domain, host.value))
          else list.value == tenants)
    // The matching tenants keep the order the tenant service listed them in.
    ensures enabled && !IsSuperAdmin(caller) && r.Success? ==>
      var host := if IsBlank(referer) then Some(requestHost) else HostFromReferer(referer.value);
      var list := r.value.data.value.voList;
      host.Some? && list.Some?
      && (|MatchingDomain(tenants, host.value)| > 0 ==> list.value == MatchingDomain(tenants, host.value))
  {
    if !enabled then Success(OkData(LoginTenantVo(false, None)))
    else if IsSuperAdmin(caller) then Success(OkData(LoginTenantVo(true, Some(tenants))))
    else
      var host := if IsBlank(referer) then Some(requestHost) else HostFromReferer(referer.value);
      if host.None? then Failure(ArrayIndexOutOfBoundsException)
      else
        var list := MatchingDomain(tenants, host.value);
        assert |list| > 0 ==> list[0] in list;
        Success(OkData(LoginTenantVo(true, Some(if |list| > 0 then list else tenants))))
  }
}
