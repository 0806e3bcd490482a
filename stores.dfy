/**
 * The records the login core passes around and the shared mutable state it
 * works on: the key-value cache (Redis), the login-event stream, the token
 * framework's per-token data and the users' last-login columns.
 */
module Stores {
  import opened Common

  /** What is known of the HTTP request that an event or a session came from. */
  datatype RequestInfo = RequestInfo(
    ip: string,
    browser: string,
    os: string,
    /** The client-id header, possibly absent. */
    clientIdHeader: Option<string>)

  /** SysClientVo: a registered client, with the grant types it allows as one comma-separated text. */
  datatype Client = Client(
    clientId: string,
    clientKey: Option<string>,
    grantType: Option<string>,
    deviceType: Option<string>,
    status: Option<string>)

  /** LoginInfoEvent: one login/logout/register fact, published for the audit log. */
  datatype LoginInfoEvent = LoginInfoEvent(
    tenantId: Option<string>,
    username: Option<string>,
    status: string,
    message: string,
    request: RequestInfo)

  /** LoginUser: the principal stored in a token's session. */
  datatype LoginUser = LoginUser(
    tenantId: Option<string>,
    userId: Option<int>,
    deptId: Option<int>,
    username: Option<string>,
    nickname: Option<string>,
    userType: Option<string>,
    menuPermission: set<string>,
    rolePermission: set<string>,
    deptName: Option<string>,
    deptCategory: Option<string>,
    roleKeys: seq<string>,
    postIds: seq<int>)

  /** Time to live of a cache entry. */
  datatype Ttl = NoExpiry | Expires(seconds: int)

  datatype Entry<V> = Entry(value: V, ttl: Ttl)

  /** A key-value cache with per-entry time to live; expiry itself is not modelled. */
  class KeyValueCache<K(==), V> {
    var entries: map<K, Entry<V>>

    constructor ()
      ensures entries == map[]
    {
      entries := map[];
    }

    /** RedisUtils.getCacheObject: the stored value, or null. */
    function Get(key: K): (r: Option<V>)
      reads this
      ensures r.Some? <==> key in entries
      ensures r.Some? ==> r.value == entries[key].value
    {
      if key in entries then Some(entries[key].value) else None
    }

    /** RedisUtils.hasKey */
    predicate HasKey(key: K)
      reads this
    {
      key in entries
    }

    /** RedisUtils.setCacheObject: overwrite the entry, with a fresh time to live. */
    method Set(key: K, value: V, ttl: Ttl)
      modifies this
      ensures entries == old(entries)[key := Entry(value, ttl)]
    {
      entries := entries[key := Entry(value, ttl)];
    }

    /** RedisUtils.deleteObject: removing an absent key is not an error. */
    method Delete(key: K)
      modifies this
      ensures entries == old(entries) - {key}
    {
      entries := entries - {key};
    }
  }

  /** The application event bus, seen as the sequence of published login events. */
  class EventBus {
    var published: seq<LoginInfoEvent>

    constructor ()
      ensures published == []
    {
      published := [];
    }

    method Publish(e: LoginInfoEvent)
      modifies this
      ensures published == old(published) + [e]
    {
      published := published + [e];
    }
  }

  /** What the token framework keeps per token: its tenant extra and its session's login user. */
  datatype TokenSession = TokenSession(tenantExtra: Option<string>, loginUser: Option<LoginUser>)

  /** StpUtil.getExtra(token, TENANT_KEY) converted to a string: null for an unknown token. */
  function TenantExtraOf(sessions: map<string, TokenSession>, token: string): (r: Option<string>)
    ensures token !in sessions ==> r == None
    ensures token in sessions ==> r == sessions[token].tenantExtra
  {
    if token in sessions then sessions[token].tenantExtra else None
  }

  /** The token framework's live tokens (minting and expiry are the framework's business). */
  class TokenStore {
    var sessions: map<string, TokenSession>

    constructor ()
      ensures sessions == map[]
    {
      sessions := map[];
    }

    /** The framework's own invalidation of a token. */
    method Invalidate(token: string)
      modifies this
      ensures sessions == old(sessions) - {token}
    {
      sessions := sessions - {token};
    }
  }

  /** The login columns of sys_user: last login ip, time and updater. */
  datatype LoginStamp = LoginStamp(loginIp: string, loginDate: int, updateBy: int)

  class UserLoginStamps {
    var stamps: map<int, LoginStamp>

    constructor ()
      ensures stamps == map[]
    {
      stamps := map[];
    }

    /**
     * SysLoginServiceImpl.recordLoginInfo(userId, ip): update the user's login ip and
     * date; an update by a null id touches no row.
     */
    method RecordLogin(userId: Option<int>, ip: string, now: int)
      modifies this
      ensures userId.None? ==> stamps == old(stamps)
      ensures userId.Some? ==> stamps == old(stamps)[userId.value := LoginStamp(ip, now, userId.value)]
    {
      if userId.Some? {
        stamps := stamps[userId.value := LoginStamp(ip, now, userId.value)];
      }
    }
  }
}
