/**
 * The login audit log (SysLoginInfoServiceImpl): every published login event
 * becomes one log line and one stored login record.
 */
module LoginInfo {
  import opened Common
  import opened Text
  import opened Stores

  /** getBlock: the value in square brackets, a null value as nothing. */
  function GetBlock(msg: Option<string>): (r: string)
    ensures |r| == |msg.GetOr("")| + 2
    ensures r[0] == '[' && r[|r| - 1] == ']'
    // The bracketed text is the value itself, so it can always be read back.
    ensures r[1..|r| - 1] == msg.GetOr("")
  {
    "[" + msg.GetOr("") + "]"
  }

  /** A null value and an empty one give the same block "[]". */
  lemma NullBlockIsEmpty()
    ensures GetBlock(None) == GetBlock(Some("")) == "[]"
  {
  }

  /**
   * The record status of an event status: success for a login, logout or
   * registration, failure for a failed login, unset for anything else
   * (StringUtils.equalsAny, which is false for a null status).
   */
  function RecordStatus(status: Option<string>): (r: Option<string>)
    ensures r == Some(SUCCESS) <==> status in {Some(LOGIN_SUCCESS), Some(LOGOUT), Some(REGISTER)}
    ensures r == Some(FAIL) <==> status == Some(LOGIN_FAIL)
    ensures r.None? <==> status !in {Some(LOGIN_SUCCESS), Some(LOGOUT), Some(REGISTER), Some(LOGIN_FAIL)}
  {
    if status.Some? && status.value in {LOGIN_SUCCESS, LOGOUT, REGISTER} then Some(SUCCESS)
    else if status == Some(LOGIN_FAIL) then Some(FAIL)
    else None
  }

  /** Every status a login event is published with is recorded as success or failure. */
  lemma PublishedStatusesAreRecorded(status: string)
    requires status in {LOGIN_SUCCESS, LOGOUT, REGISTER, LOGIN_FAIL}
    ensures RecordStatus(Some(status)).Some?
    ensures RecordStatus(Some(status)) == Some(FAIL) <==> status == LOGIN_FAIL
  {
  }

  /** The log line: the bracketed ip, the bare address, then the bracketed username, status and message. */
  function LogLine(ip: string, address: string, username: Option<string>, status: string, message: string): (r: string)
    ensures GetBlock(Some(ip)) + address <= r
    ensures |r| == |ip| + |address| + |username.GetOr("")| + |status| + |message| + 8
    ensures var p := |ip| + |address| + 2;
      r[p..p + |username.GetOr("")| + 2] == GetBlock(username)
      && r[p + |username.GetOr("")| + 2..|r| - |message| - 2] == GetBlock(Some(status))
    ensures r[|r| - |message| - 2..] == GetBlock(Some(message))
  {
    GetBlock(Some(ip)) + address + GetBlock(username) + GetBlock(Some(status)) + GetBlock(Some(message))
  }

  /** SysLoginInfoBo / SysLoginInfo: one stored login record. */
  datatype LoginRecord = LoginRecord(
    tenantId: Option<string>,
    userName: Option<string>,
    clientKey: Option<string>,
    deviceType: Option<string>,
    ipaddr: string,
    loginLocation: string,
    browser: string,
    os: string,
    msg: string,
    status: Option<string>,
    loginTime: Option<int>)

  /** The client named by the request's client-id header; a blank header is not looked up. */
  function ClientOf(header: Option<string>, clients: map<string, Client>): (c: Option<Client>)
    ensures IsBlank(header) ==> c.None?
    ensures c.Some? ==> header.value in clients && c.value == clients[header.value]
    ensures !IsBlank(header) && header.value in clients ==> c == Some(clients[header.value])
  {
    if IsBlank(header) || header.value !in clients then None else Some(clients[header.value])
  }

  /** The record an event is turned into, before it is stamped with the login time. */
  function BuildRecord(event: LoginInfoEvent, address: string, client: Option<Client>): (r: LoginRecord)
    ensures r.tenantId == event.tenantId && r.userName == event.username && r.msg == event.message
    ensures r.ipaddr == event.request.ip && r.loginLocation == address
    ensures r.browser == event.request.browser && r.os == event.request.os
    // Client key and device type are set only from a client that was found.
    ensures client.None? ==> r.clientKey.None? && r.deviceType.None?
    ensures client.Some? ==> r.clientKey == client.value.clientKey && r.deviceType == client.value.deviceType
    ensures r.status == RecordStatus(Some(event.status))
    ensures r.loginTime.None?
  {
    LoginRecord(event.tenantId, event.username,
                if client.Some? then client.value.clientKey else None,
                if client.Some? then client.value.deviceType else None,
                event.request.ip, address, event.request.browser, event.request.os, event.message,
                RecordStatus(Some(event.status)), None)
  }

  class LoginInfoService {
    /** The sys_logininfor table and the application log. */
    var records: seq<LoginRecord>
    var log: seq<string>
    /** The client table the client-id header is looked up in. */
    const clients: map<string, Client>

    constructor (clients: map<string, Client>)
      ensures records == [] && log == [] && this.clients == clients
    {
      records := [];
      log := [];
      this.clients := clients;
    }

    /** insertLoginInfo: store the record stamped with the current time. */
    method InsertLoginInfo(record: LoginRecord, now: int)
      modifies this
      ensures records == old(records) + [record.(loginTime := Some(now))]
      ensures log == old(log)
    {
      records := records + [record.(loginTime := Some(now))];
    }

    /**
     * recordLoginInfo(event): one log line and exactly one inserted record.
     * `address` is the geo-IP location of the request's ip and `now` the time.
     */
    method RecordLoginInfo(event: LoginInfoEvent, address: string, now: int)
      modifies this
      ensures log == old(log) + [LogLine(event.request.ip, address, event.username, event.status, event.message)]
      ensures records == old(records) +
        [BuildRecord(event, address, ClientOf(event.request.clientIdHeader, clients)).(loginTime := Some(now))]
    {
      var client := None;
      if !IsBlank(event.request.clientIdHeader) {
        client := ClientOf(event.request.clientIdHeader, clients);
      }
      log := log + [LogLine(event.request.ip, address, event.username, event.status, event.message)];
      var record := BuildRecord(event, address, client);
      InsertLoginInfo(record, now);
    }
  }
}
