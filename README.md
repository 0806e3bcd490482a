# infoq-scaffold login and session lifecycle, in Dafny

This project models the authentication core of the infoq-scaffold admin
system, a Spring Boot / Sa-Token application, together with the small
helpers and the admin-controller guards that the core relies on:

- `ApiResults`: the `ApiResult` envelope (codes 200 / 500 / 601 and the default
  messages) and the `BaseController` helpers `toAjax` and `redirect`.
- `Auth`: `AuthController.login` (the client checks, the tenant gate, dispatch to the
  `<grantType>AuthStrategy` bean), `logout` and `tenantList`, which includes the
  host extraction from the referer with Java `String.split` semantics.
- `LoginService`: `SysLoginServiceImpl`. This covers the password-retry throttle
  `checkLogin` on a key-value cache, the tenant gate `checkTenant`, `buildLoginUser`,
  `logout`, and the publication of login-info events.
- `Online`: `UserActionListener`. On login it stores the online-user record under
  the login's tenant, publishes the success event and stamps the user's last login.
  Logout, kick-out and replaced remove that record under the tenant recorded on the
  token. The other callbacks do nothing.
- `LoginInfo`: `SysLoginInfoServiceImpl`, which turns each event into one log line
  and one stored record.
- `Register`: `SysRegisterServiceImpl`. It checks the captcha once (the captcha is
  consumed whatever the result), the user type and the uniqueness of the username.
- `Monitor`: unlocking a user, which clears their failure counter.
- `TenantCacheNames`: the tenant scoping of Spring cache names.
- `Permissions`, `DataScope`: the super-admin permission shortcut and the
  department lists used by data-scope filters.
- `Dept`, `Menu`, `User`, `Post`, `Dict`: the ordered guard chains of the admin
  controllers and services. Each chain is a sequence of checks, and the first
  failing check gives the answer. Tables that a service changes are classes with
  `modifies` clauses (`Post.PostTable`, `Dict.DictStore`).
- `Guards`, `Text`, `Common`, `Stores`: support modules.
  - `Guards` defines the first-failure combinator.
  - `Text` covers the Java string operations the core uses.
  - `Common` has Java null as `Option` and SQL `=` that never matches NULL.
  - `Stores` holds the Redis cache, the event bus, the token store and the login stamps.

Collaborators that hold no logic of their own are inputs to the model:

- The database, mapper and service answers: whether a name is unique, row counts,
  the tenant table.
- The localisation function.
- The password hash.
- The current time.
- The geo-IP location.

## Model

| member | source | states |
|---|---|---|
| ApiResults.IsError | infoq-core/infoq-core-common/src/main/java/cc/infoq/common/domain/ApiResult.java:103-109 | an answer is an error exactly when it is not a success (code 200) |
| ApiResults.Ok | infoq-core/infoq-core-common/src/main/java/cc/infoq/common/domain/ApiResult.java:38 | ok() answers success with the default message "操作成功" and no data |
| ApiResults.OkData | infoq-core/infoq-core-common/src/main/java/cc/infoq/common/domain/ApiResult.java:42 | ok(data) answers success with the default message and carries the data |
| ApiResults.OkMsg | infoq-core/infoq-core-common/src/main/java/cc/infoq/common/domain/ApiResult.java:46 | ok(msg) answers success with the given message and no data |
| ApiResults.OkMsgData | infoq-core/infoq-core-common/src/main/java/cc/infoq/common/domain/ApiResult.java:50 | ok(msg, data) answers success with both |
| ApiResults.Fail | infoq-core/infoq-core-common/src/main/java/cc/infoq/common/domain/ApiResult.java:54 | fail() is an error with code 500, the default failure message and no data |
| ApiResults.FailMsg | infoq-core/infoq-core-common/src/main/java/cc/infoq/common/domain/ApiResult.java:58 | fail(msg) is a code-500 error with the given message |
| ApiResults.FailData | infoq-core/infoq-core-common/src/main/java/cc/infoq/common/domain/ApiResult.java:62 | fail(data) is a code-500 error with the default message carrying the data |
| ApiResults.FailMsgData | infoq-core/infoq-core-common/src/main/java/cc/infoq/common/domain/ApiResult.java:66 | fail(msg, data) is a code-500 error with both |
| ApiResults.FailCode | infoq-core/infoq-core-common/src/main/java/cc/infoq/common/domain/ApiResult.java:70-72 | fail(code, msg) keeps the code, and is a success exactly when that code is 200 |
| ApiResults.Warn | infoq-core/infoq-core-common/src/main/java/cc/infoq/common/domain/ApiResult.java:80-82 | warn(msg) is an error with the warning code 601 |
| ApiResults.WarnData | infoq-core/infoq-core-common/src/main/java/cc/infoq/common/domain/ApiResult.java:91-93 | warn(msg, data) is a code-601 error carrying the data |
| ApiResults.ToAjaxRows | infoq-plugin/infoq-plugin-web/src/main/java/cc/infoq/common/web/core/BaseController.java:19-21 | toAjax(rows) succeeds exactly when at least one row was affected, with the matching default message |
| ApiResults.ToAjax | infoq-plugin/infoq-plugin-web/src/main/java/cc/infoq/common/web/core/BaseController.java:29-31 | toAjax(result) succeeds exactly when the result is true |
| ApiResults.ToAjaxFormsAgree | infoq-plugin/infoq-plugin-web/src/main/java/cc/infoq/common/web/core/BaseController.java:19-31 | the row-count form is the boolean form applied to "rows > 0" |
| ApiResults.Redirect | infoq-plugin/infoq-plugin-web/src/main/java/cc/infoq/common/web/core/BaseController.java:36-38 | the redirect is the "redirect:" prefix followed by the url unchanged |
| ApiResults.RedirectInjective | infoq-plugin/infoq-plugin-web/src/main/java/cc/infoq/common/web/core/BaseController.java:36-38 | different urls give different redirects |
| Auth.StrategyKey | infoq-modules/infoq-system/src/main/java/cc/infoq/system/service/AuthStrategy.java:16-28 | the bean name is the grant type followed by "AuthStrategy" |
| Auth.StrategyKeyInjective | infoq-modules/infoq-system/src/main/java/cc/infoq/system/service/AuthStrategy.java:28 | different grant types name different beans |
| Auth.StrategyLogin | infoq-modules/infoq-system/src/main/java/cc/infoq/system/service/AuthStrategy.java:26-34 | an unregistered bean name throws "授权类型不正确!"; a registered one delegates to that bean with the body and client |
| Auth.DispatchStableUnderRegistration | infoq-modules/infoq-system/src/main/java/cc/infoq/system/service/AuthStrategy.java:26-34 | registering further beans under other names does not change the dispatch of a grant type |
| Auth.ClientGuardsInOrder | infoq-modules/infoq-system/src/main/java/cc/infoq/system/controller/login/AuthController.java:71-76 | an unknown client or a client without the grant type is refused first, a client whose status is not normal second, and only a client passing both is admitted |
| Auth.Login | infoq-modules/infoq-system/src/main/java/cc/infoq/system/controller/login/AuthController.java:63-90 | the client checks answer first in order, then the tenant gate; a dispatch happens only after both, to the grant type's bean, and once both passed the answer is that bean's login outcome: ok with its result, or its exception |
| Auth.UnknownGrantTypeThrows | infoq-modules/infoq-system/src/main/java/cc/infoq/system/service/AuthStrategy.java:29-31 | an admitted client with an unregistered grant type gets the strategy error, not an answer |
| Auth.Logout | infoq-modules/infoq-system/src/main/java/cc/infoq/system/controller/login/AuthController.java:97-100 | logout always answers success "退出成功" and invalidates the request's token |
| Auth.HostIsFirstSegment | infoq-modules/infoq-system/src/main/java/cc/infoq/system/controller/login/AuthController.java:146-151 | the host taken from a referer is the text after the first "//" up to the next "/" |
| Auth.HostPresentAfterAuthority | infoq-modules/infoq-system/src/main/java/cc/infoq/system/controller/login/AuthController.java:146-151 | a referer with "//" followed by a non-empty authority always yields a host |
| Auth.HostAbsentCases | infoq-modules/infoq-system/src/main/java/cc/infoq/system/controller/login/AuthController.java:146-151 | a referer with no "//", or with nothing after it but "/", makes the split index out of bounds |
| Auth.MatchingDomain | infoq-modules/infoq-system/src/main/java/cc/infoq/system/controller/login/AuthController.java:153-155 | the kept tenants are exactly those whose domain equals the host ignoring case |
| Auth.MatchingDomainAppend | infoq-modules/infoq-system/src/main/java/cc/infoq/system/controller/login/AuthController.java:153-155 | filtering a concatenation is the concatenation of the filtered parts, so the kept tenants stay in their order |
| Auth.TenantList | infoq-modules/infoq-system/src/main/java/cc/infoq/system/controller/login/AuthController.java:122-157 | tenancy off answers disabled with no list; a super-admin sees all tenants; anyone else sees the tenants of the host's domain in the listed order, or all when none match; a failure only comes from a malformed referer |
| DataScope.IdTexts | infoq-modules/infoq-system/src/main/java/cc/infoq/system/service/impl/SysDataScopeServiceImpl.java:50-52 | each department id is written in decimal, in order |
| DataScope.GetRoleCustom | infoq-modules/infoq-system/src/main/java/cc/infoq/system/service/impl/SysDataScopeServiceImpl.java:42-54 | a null role or a role without departments gives the sentinel "-1"; otherwise the answer splits back on ',' into the role's department ids |
| DataScope.GetDeptAndChild | infoq-modules/infoq-system/src/main/java/cc/infoq/system/service/impl/SysDataScopeServiceImpl.java:64-70 | a null department or an empty subtree gives "-1"; otherwise the answer splits back into the subtree's ids |
| DataScope.JoinStartsWithDigit | infoq-modules/infoq-system/src/main/java/cc/infoq/system/service/impl/SysDataScopeServiceImpl.java:50-53 | a non-empty join starts with a digit, so it can never be mistaken for the sentinel |
| DataScope.JoinOrSentinelMeaning | infoq-modules/infoq-system/src/main/java/cc/infoq/system/service/impl/SysDataScopeServiceImpl.java:50-53 | the sentinel appears exactly for an empty id list, and the join of ids splits back into the ids |
| Dept.AncestorIds | infoq-modules/infoq-system/src/main/java/cc/infoq/system/controller/system/SysDeptController.java:55-56 | the ancestor list read from the comma-separated field has no empty pieces |
| Dept.NonEmpty | infoq-modules/infoq-system/src/main/java/cc/infoq/system/controller/system/SysDeptController.java:55-56 | the kept pieces are exactly the non-empty ones |
| Dept.ExcludeChild | infoq-modules/infoq-system/src/main/java/cc/infoq/system/controller/system/SysDeptController.java:53-58 | the kept departments are exactly those that are neither the department nor one of its descendants; with no department id nothing is removed |
| Dept.ExcludeChildAppend | infoq-modules/infoq-system/src/main/java/cc/infoq/system/controller/system/SysDeptController.java:55-56 | the filter keeps order: filtering a concatenation is concatenating the filtered parts |
| Dept.Edit | infoq-modules/infoq-system/src/main/java/cc/infoq/system/controller/system/SysDeptController.java:93-108 | data scope, then name uniqueness, then a missing parent (a NullPointerException) or a self parent, then disabling with active children or users refuse, each with its message; only a passing edit answers by the update's row count |
| Dept.Remove | infoq-modules/infoq-system/src/main/java/cc/infoq/system/controller/system/SysDeptController.java:118-133 | the default department, children, users, posts and data scope refuse in order with warnings or the scope error; only a passing removal answers by the deleted rows |
| Dept.RemoveIsGuardChain | infoq-modules/infoq-system/src/main/java/cc/infoq/system/controller/system/SysDeptController.java:118-133 | remove answers exactly as its ordered guard chain followed by the delete |
| Dict.InsertKeepsPairsDistinct | infoq-modules/infoq-system/src/main/java/cc/infoq/system/service/impl/SysDictDataServiceImpl.java:151-157 | inserting a row that passed the uniqueness check keeps (type, value) pairs distinct |
| Dict.UniqueIgnoresSelf | infoq-modules/infoq-system/src/main/java/cc/infoq/system/service/impl/SysDictDataServiceImpl.java:151-157 | the uniqueness check of a row ignores the stored row with the same code |
| Dict.OrderedCons | infoq-modules/infoq-system/src/main/java/cc/infoq/system/service/impl/SysDictDataServiceImpl.java:67 | a row that comes before every row of an ordered list can be put in front of it |
| Dict.InsertOrdered | infoq-modules/infoq-system/src/main/java/cc/infoq/system/service/impl/SysDictDataServiceImpl.java:67 | inserting into an ordered list keeps it ordered and adds exactly that row |
| Dict.OrderRows | infoq-modules/infoq-system/src/main/java/cc/infoq/system/service/impl/SysDictDataServiceImpl.java:67 | the rows come back ordered by (sort, code) and are a permutation of the input |
| Dict.OfType | infoq-modules/infoq-system/src/main/java/cc/infoq/system/service/impl/SysDictDataServiceImpl.java:67 | the selected rows are exactly those whose type equals the type, NULL matching nothing |
| Dict.ListByType | infoq-modules/infoq-system/src/main/java/cc/infoq/system/service/impl/SysDictDataServiceImpl.java:67 | the rows of a type, ordered, exactly those of that type, with their multiplicities |
| Dict.Selected | infoq-modules/infoq-system/src/main/java/cc/infoq/system/service/impl/SysDictDataServiceImpl.java:104-108 | the rows to delete are exactly those whose code is listed |
| Dict.Remaining | infoq-modules/infoq-system/src/main/java/cc/infoq/system/service/impl/SysDictDataServiceImpl.java:104-108 | the rows kept are exactly those whose code is not listed |
| Dict.DeletionPartitionsRows | infoq-modules/infoq-system/src/main/java/cc/infoq/system/service/impl/SysDictDataServiceImpl.java:104-108 | deleted and kept rows together are the old rows, and every deleted row's type is among the evicted cache entries |
| Dict.DictStore.DeleteDictDataByIds | infoq-modules/infoq-system/src/main/java/cc/infoq/system/service/impl/SysDictDataServiceImpl.java:104-108 | the listed rows are gone and the cache entry of every deleted row's type is evicted, nothing else |
| Dict.DictStore.InsertDictData | infoq-modules/infoq-system/src/main/java/cc/infoq/system/service/impl/SysDictDataServiceImpl.java:116-125 | with an affected row the row is appended and its type's cache set to the type's ordered list, which is answered; otherwise nothing changes and "操作失败" is thrown |
| Dict.DictStore.UpdateDictData | infoq-modules/infoq-system/src/main/java/cc/infoq/system/service/impl/SysDictDataServiceImpl.java:133-142 | with a stored row of that code the row is replaced and its type's cache refreshed; otherwise nothing changes and "操作失败" is thrown |
| Dict.Replaced | infoq-modules/infoq-system/src/main/java/cc/infoq/system/service/impl/SysDictDataServiceImpl.java:138 | every row with the updated code becomes the data, in place; the others are unchanged |
| Dict.UpdatedRowIsListed | infoq-modules/infoq-system/src/main/java/cc/infoq/system/service/impl/SysDictDataServiceImpl.java:133-142 | after an update the updated row is in its type's list that the cache is refreshed with |
| LoginInfo.GetBlock | infoq-modules/infoq-system/src/main/java/cc/infoq/system/service/impl/SysLoginInfoServiceImpl.java:104-109 | a block is the message between brackets, a null message giving "[]" |
| LoginInfo.NullBlockIsEmpty | infoq-modules/infoq-system/src/main/java/cc/infoq/system/service/impl/SysLoginInfoServiceImpl.java:104-109 | a null and an empty message give the same block |
| LoginInfo.RecordStatus | infoq-modules/infoq-system/src/main/java/cc/infoq/system/service/impl/SysLoginInfoServiceImpl.java:95-99 | login success, logout and register are recorded as success, login failure as failure, any other status not recorded |
| LoginInfo.PublishedStatusesAreRecorded | infoq-modules/infoq-system/src/main/java/cc/infoq/system/service/impl/SysLoginInfoServiceImpl.java:95-99 | every status the login flows publish maps to a record status, failure exactly for login failure |
| LoginInfo.LogLine | infoq-modules/infoq-system/src/main/java/cc/infoq/system/service/impl/SysLoginInfoServiceImpl.java:69-74 | the log line is the ip block, the bare address, then the username, status and message blocks, each at its own position |
| LoginInfo.ClientOf | infoq-modules/infoq-system/src/main/java/cc/infoq/system/service/impl/SysLoginInfoServiceImpl.java:62-66 | a blank client-id header finds no client; a non-blank header finds exactly the client registered under it, if any |
| LoginInfo.BuildRecord | infoq-modules/infoq-system/src/main/java/cc/infoq/system/service/impl/SysLoginInfoServiceImpl.java:82-93 | the record copies tenant, user name, message, ip, location, browser and os, and the client's key and device type when there is a client |
| LoginInfo.LoginInfoService.InsertLoginInfo | infoq-modules/infoq-system/src/main/java/cc/infoq/system/service/impl/SysLoginInfoServiceImpl.java:140-144 | exactly one record is appended, stamped with the current time |
| LoginInfo.LoginInfoService.RecordLoginInfo | infoq-modules/infoq-system/src/main/java/cc/infoq/system/service/impl/SysLoginInfoServiceImpl.java:57-102 | one log line and exactly one stamped record built from the event are added |
| LoginService.CounterKey | infoq-modules/infoq-system/src/main/java/cc/infoq/system/service/impl/SysLoginServiceImpl.java:147 | the failure counter key is the password-error prefix followed by the username |
| LoginService.CounterKeyInjective | infoq-modules/infoq-system/src/main/java/cc/infoq/system/service/impl/SysLoginServiceImpl.java:147 | different usernames have different counters |
| LoginService.CountOf | infoq-modules/infoq-system/src/main/java/cc/infoq/system/service/impl/SysLoginServiceImpl.java:151 | an absent counter reads as 0 |
| LoginService.LockedOutIgnoresCredentials | infoq-modules/infoq-system/src/main/java/cc/infoq/system/service/impl/SysLoginServiceImpl.java:153-156 | at the maximum count the login fails with the limit error whatever the credentials, and the counter is left unchanged |
| LoginService.RejectionCounts | infoq-modules/infoq-system/src/main/java/cc/infoq/system/service/impl/SysLoginServiceImpl.java:158-170 | rejected credentials below the limit store count + 1 for lockTime minutes, failing with the limit error exactly when the new count reaches the maximum |
| LoginService.AdmissionClearsCounter | infoq-modules/infoq-system/src/main/java/cc/infoq/system/service/impl/SysLoginServiceImpl.java:174 | accepted credentials below the limit pass and clear the counter |
| LoginService.OtherCountersUntouched | infoq-modules/infoq-system/src/main/java/cc/infoq/system/service/impl/SysLoginServiceImpl.java:146-175 | a login attempt leaves every other username's counter unchanged |
| LoginService.RejectionsAccumulate | infoq-modules/infoq-system/src/main/java/cc/infoq/system/service/impl/SysLoginServiceImpl.java:158-170 | k rejections in a row raise the count by k while within the limit |
| LoginService.MaxRejectionsLockOut | infoq-modules/infoq-system/src/main/java/cc/infoq/system/service/impl/SysLoginServiceImpl.java:146-175 | starting clean, maxRetry rejections lock the user out even for the right password |
| LoginService.CheckTenant | infoq-modules/infoq-system/src/main/java/cc/infoq/system/service/impl/SysLoginServiceImpl.java:182-204 | tenancy off passes; a blank id fails; the default tenant passes; otherwise only a stored tenant that is not disabled and not expired passes |
| LoginService.DefaultTenantNeedsNoLookup | infoq-modules/infoq-system/src/main/java/cc/infoq/system/service/impl/SysLoginServiceImpl.java:189-191 | the default tenant's verdict does not depend on the tenant table |
| LoginService.BlockedBeforeExpired | infoq-modules/infoq-system/src/main/java/cc/infoq/system/service/impl/SysLoginServiceImpl.java:192-203 | a disabled tenant is reported blocked even when also expired |
| LoginService.ExpiryIsStrict | infoq-modules/infoq-system/src/main/java/cc/infoq/system/service/impl/SysLoginServiceImpl.java:192-203 | a tenant is still admitted at its expiry instant and refused one unit later |
| LoginService.BuildLoginUser | infoq-modules/infoq-system/src/main/java/cc/infoq/system/service/impl/SysLoginServiceImpl.java:106-127 | the login user copies the account fields and its permission sets; department name and category are unset without a department and "" for missing values with one |
| LoginService.SessionsAfterLogout | infoq-modules/infoq-system/src/main/java/cc/infoq/system/service/impl/SysLoginServiceImpl.java:78-81 | logout removes exactly the current token |
| LoginService.LogoutIdempotent | infoq-modules/infoq-system/src/main/java/cc/infoq/system/service/impl/SysLoginServiceImpl.java:65-83 | a second logout publishes nothing and removes nothing more |
| LoginService.LogoutAuditsTheUser | infoq-modules/infoq-system/src/main/java/cc/infoq/system/service/impl/SysLoginServiceImpl.java:75 | logout of a login user publishes one LOGOUT event with that user's tenant and username |
| LoginService.LoginServiceImpl.RecordLoginInfo | infoq-modules/infoq-system/src/main/java/cc/infoq/system/service/impl/SysLoginServiceImpl.java:93-101 | exactly one login-info event with the given fields is published |
| LoginService.LoginServiceImpl.CheckLogin | infoq-modules/infoq-system/src/main/java/cc/infoq/system/service/impl/SysLoginServiceImpl.java:146-175 | the answer and new counters are the throttle functions of the old counters; credentials are consulted exactly below the limit; every refusal publishes one LOGIN_FAIL event with the error's message |
| LoginService.LoginServiceImpl.Logout | infoq-modules/infoq-system/src/main/java/cc/infoq/system/service/impl/SysLoginServiceImpl.java:65-83 | a logged-in user's logout is audited once, the super-admin's dynamic tenant is cleared, a live token's online record is removed and the token invalidated |
| Menu.IsHttpCases | infoq-modules/infoq-system/src/main/java/cc/infoq/system/controller/system/SysMenuController.java:136-141 | paths starting with http:// or https:// are links; shorter paths and null are not |
| Menu.Add | infoq-modules/infoq-system/src/main/java/cc/infoq/system/controller/system/SysMenuController.java:135-144 | a taken name, then an external link without http(s), then a taken route refuse with their messages; only a passing add answers by the insert's row count |
| Menu.Edit | infoq-modules/infoq-system/src/main/java/cc/infoq/system/controller/system/SysMenuController.java:154-165 | as add, plus a menu that is its own parent is refused; a null menu id throws |
| Menu.AddEditAreGuardChains | infoq-modules/infoq-system/src/main/java/cc/infoq/system/controller/system/SysMenuController.java:135-165 | add and edit answer exactly as their ordered guard chains followed by the write |
| Menu.WithoutTenantMenu | infoq-modules/infoq-system/src/main/java/cc/infoq/system/controller/system/SysMenuController.java:118 | the kept trees are exactly those other than the tenant-management menu |
| Menu.WithoutTenantMenuAppend | infoq-modules/infoq-system/src/main/java/cc/infoq/system/controller/system/SysMenuController.java:118 | the filter keeps order across a concatenation |
| Menu.TenantPackageMenuTreeselect | infoq-modules/infoq-system/src/main/java/cc/infoq/system/controller/system/SysMenuController.java:114-125 | the tree is the input list without the tenant-management menu, the rest in order; the checked keys are the package's menus only for a positive package id |
| Menu.RemoveSingle | infoq-modules/infoq-system/src/main/java/cc/infoq/system/controller/system/SysMenuController.java:176-184 | a menu with children or assigned to a role is refused with a warning; otherwise the answer is the deleted row count |
| Menu.RemoveCascade | infoq-modules/infoq-system/src/main/java/cc/infoq/system/controller/system/SysMenuController.java:204-211 | a listed menu with children refuses with a warning and changes nothing; otherwise exactly the listed menus are removed |
| Menu.RemoveCascadeIdempotent | infoq-modules/infoq-system/src/main/java/cc/infoq/system/controller/system/SysMenuController.java:204-211 | removing the same batch twice leaves what removing it once left |
| Monitor.Unlocked | infoq-modules/infoq-system/src/main/java/cc/infoq/system/controller/monitor/SysLoginInfoController.java:85-91 | only the user's failure counter is removed |
| Monitor.UnlockAbsentIsNoOp | infoq-modules/infoq-system/src/main/java/cc/infoq/system/controller/monitor/SysLoginInfoController.java:85-91 | unlocking a user without a counter changes nothing |
| Monitor.UnlockReadmits | infoq-modules/infoq-system/src/main/java/cc/infoq/system/controller/monitor/SysLoginInfoController.java:85-91 | after unlock the count is 0 and the right password passes |
| Monitor.Unlock | infoq-modules/infoq-system/src/main/java/cc/infoq/system/controller/monitor/SysLoginInfoController.java:85-91 | the counter store becomes the unlocked store and the answer is ok |
| Online.OnlineKey | infoq-modules/infoq-system/src/main/java/cc/infoq/system/listener/UserActionListener.java:59-65 | the online key is the tenant-scoped online-token prefix followed by the token |
| Online.OnlineKeyInjective | infoq-modules/infoq-system/src/main/java/cc/infoq/system/listener/UserActionListener.java:59-65 | different (tenant, token) pairs have different keys |
| Online.OnlineTtl | infoq-modules/infoq-system/src/main/java/cc/infoq/system/listener/UserActionListener.java:59-65 | a timeout of -1 stores without expiry, any other stores with that timeout |
| Online.RemoveSession | infoq-modules/infoq-system/src/main/java/cc/infoq/system/listener/UserActionListener.java:83-89 | exactly the token's entry under its tenant is removed |
| Online.RemovalHooksAgree | infoq-modules/infoq-system/src/main/java/cc/infoq/system/listener/UserActionListener.java:83-113 | logout, kick-out and replaced have the same effect on the online registry |
| Online.OtherHooksInert | infoq-modules/infoq-system/src/main/java/cc/infoq/system/listener/UserActionListener.java:119-162 | the other callbacks leave the registry unchanged |
| Online.HookIdempotent | infoq-modules/infoq-system/src/main/java/cc/infoq/system/listener/UserActionListener.java:83-162 | delivering a callback twice has the effect of delivering it once |
| Online.LoginLogoutRoundTrip | infoq-modules/infoq-system/src/main/java/cc/infoq/system/listener/UserActionListener.java:43-89 | a logout after a login of a fresh token under its tenant restores the registry |
| Online.RemovalIsTenantScoped | infoq-modules/infoq-system/src/main/java/cc/infoq/system/listener/UserActionListener.java:83-89 | removing a token under one tenant keeps the same token's entry under another |
| Online.UserActionListener.DoLogin | infoq-modules/infoq-system/src/main/java/cc/infoq/system/listener/UserActionListener.java:43-77 | the online record of the token is stored under its tenant with the login's timeout, one login-success event is published and the user's last login is stamped |
| Online.UserActionListener.DoLogout | infoq-modules/infoq-system/src/main/java/cc/infoq/system/listener/UserActionListener.java:83-89 | the token's online record under the token's own tenant is removed |
| Online.UserActionListener.DoKickout | infoq-modules/infoq-system/src/main/java/cc/infoq/system/listener/UserActionListener.java:95-101 | same removal as logout |
| Online.UserActionListener.DoReplaced | infoq-modules/infoq-system/src/main/java/cc/infoq/system/listener/UserActionListener.java:107-113 | same removal as logout |
| Online.UserActionListener.OnHook | infoq-modules/infoq-system/src/main/java/cc/infoq/system/listener/UserActionListener.java:83-162 | any other callback changes the registry as its hook effect says and publishes nothing |
| Permissions.GetRolePermission | infoq-modules/infoq-system/src/main/java/cc/infoq/system/service/impl/SysPermissionServiceImpl.java:34-43 | a super-admin gets exactly {"superadmin"}; anyone else exactly their role keys |
| Permissions.GetMenuPermission | infoq-modules/infoq-system/src/main/java/cc/infoq/system/service/impl/SysPermissionServiceImpl.java:52-61 | a super-admin gets exactly {"*:*:*"}; anyone else exactly their menu permissions |
| Permissions.SuperAdminIgnoresServices | infoq-modules/infoq-system/src/main/java/cc/infoq/system/service/impl/SysPermissionServiceImpl.java:37-38 | the super-admin's permissions do not depend on what the services answer |
| Permissions.BranchesAgree | infoq-modules/infoq-system/src/main/java/cc/infoq/system/service/impl/SysPermissionServiceImpl.java:34-43 | when the services return neither special key, the role set holds the super-admin key exactly when the menu set holds the wildcard, and exactly for the super-admin |
| Permissions.AnswerOrderIrrelevant | infoq-modules/infoq-system/src/main/java/cc/infoq/system/service/impl/SysPermissionServiceImpl.java:39-41 | the permission sets do not depend on the order or duplicates of the answers |
| Post.NameUniqueIsDeptScoped | infoq-modules/infoq-system/src/main/java/cc/infoq/system/service/impl/SysPostServiceImpl.java:162-168 | a post of another department does not affect the name check |
| Post.CodeUniqueIsGlobal | infoq-modules/infoq-system/src/main/java/cc/infoq/system/service/impl/SysPostServiceImpl.java:177-182 | a post with the same code in any department makes the code taken |
| Post.ChecksIgnoreSelf | infoq-modules/infoq-system/src/main/java/cc/infoq/system/service/impl/SysPostServiceImpl.java:162-182 | both checks ignore the stored post with the same id |
| Post.InsertKeepsNamesDistinct | infoq-modules/infoq-system/src/main/java/cc/infoq/system/service/impl/SysPostServiceImpl.java:162-168 | inserting a post that passed the name check keeps names distinct per department |
| Post.DeleteChecks | infoq-modules/infoq-system/src/main/java/cc/infoq/system/service/impl/SysPostServiceImpl.java:224-228 | one check per requested id, failing exactly for a stored post with assigned users, and a failing check's exception names that post |
| Post.DeleteRefusedIffAssigned | infoq-modules/infoq-system/src/main/java/cc/infoq/system/service/impl/SysPostServiceImpl.java:224-228 | the deletion is refused exactly when some requested stored post has assigned users |
| Post.PostTable.DeletePostByIds | infoq-modules/infoq-system/src/main/java/cc/infoq/system/service/impl/SysPostServiceImpl.java:224-232 | refused exactly when some post is assigned, then nothing is deleted and the first assigned post's message is answered; otherwise the listed posts are removed and their count returned |
| Post.SelectPostNamesByIds | infoq-modules/infoq-system/src/main/java/cc/infoq/system/service/impl/SysPostServiceImpl.java:265-275 | an empty request gives an empty map; otherwise exactly the requested stored ids map to their names |
| Post.PostDeptFilter | infoq-modules/infoq-system/src/main/java/cc/infoq/system/service/impl/SysPostServiceImpl.java:95-104 | a department filters by that department; otherwise a belonging department filters by its subtree; neither means no filter |
| Post.DeptShadowsBelongDept | infoq-modules/infoq-system/src/main/java/cc/infoq/system/service/impl/SysPostServiceImpl.java:95-104 | with a department given, the belonging department plays no part |
| Post.SelectPostListByUserId | infoq-modules/infoq-system/src/main/java/cc/infoq/system/service/impl/SysPostServiceImpl.java:136-139 | the post ids of the user's posts, in order |
| Post.PostIdsAppend | infoq-modules/infoq-system/src/main/java/cc/infoq/system/service/impl/SysPostServiceImpl.java:136-139 | the id list of a concatenation is the concatenation of the id lists |
| Register.CaptchaKey | infoq-modules/infoq-system/src/main/java/cc/infoq/system/service/impl/SysRegisterServiceImpl.java:84 | the captcha key is the prefix followed by the uuid, the bare prefix for a blank uuid |
| Register.CaptchaVerdict | infoq-modules/infoq-system/src/main/java/cc/infoq/system/service/impl/SysRegisterServiceImpl.java:87-94 | an absent captcha is expired; a present one passes exactly when the code matches ignoring case |
| Register.CaptchaIgnoresCase | infoq-modules/infoq-system/src/main/java/cc/infoq/system/service/impl/SysRegisterServiceImpl.java:91-94 | the verdict does not change when the submitted code is lower-cased |
| Register.CaptchaSingleUse | infoq-modules/infoq-system/src/main/java/cc/infoq/system/service/impl/SysRegisterServiceImpl.java:83-95 | after a validation the same captcha is expired |
| Register.RegisterService.ValidateCaptcha | infoq-modules/infoq-system/src/main/java/cc/infoq/system/service/impl/SysRegisterServiceImpl.java:83-95 | the captcha is deleted whatever the verdict; a refusal publishes one LOGIN_FAIL event with the matching message |
| Register.RegisterService.Register | infoq-modules/infoq-system/src/main/java/cc/infoq/system/service/impl/SysRegisterServiceImpl.java:44-74 | an unknown user type, a failed captcha and a taken username refuse in order before registration, a taken name with a passed or disabled captcha always with the save error; the account submitted carries the hashed password; a REGISTER event follows only a success, and apart from a refused captcha's LOGIN_FAIL event a refusal publishes nothing |
| Stores.KeyValueCache.Get | infoq-modules/infoq-system/src/main/java/cc/infoq/system/service/impl/SysLoginServiceImpl.java:151 | a read finds exactly the stored value of a present key |
| Stores.KeyValueCache.Set | infoq-modules/infoq-system/src/main/java/cc/infoq/system/service/impl/SysLoginServiceImpl.java:161 | the key is stored with the value and time to live, nothing else changes |
| Stores.KeyValueCache.Delete | infoq-modules/infoq-system/src/main/java/cc/infoq/system/service/impl/SysLoginServiceImpl.java:174 | exactly the key is removed |
| Stores.EventBus.Publish | infoq-modules/infoq-system/src/main/java/cc/infoq/system/service/impl/SysLoginServiceImpl.java:100 | exactly the event is appended |
| Stores.TenantExtraOf | infoq-modules/infoq-system/src/main/java/cc/infoq/system/listener/UserActionListener.java:84 | the tenant recorded on a live token, none for an unknown token |
| Stores.TokenStore.Invalidate | infoq-modules/infoq-system/src/main/java/cc/infoq/system/service/impl/SysLoginServiceImpl.java:78-81 | exactly the token is invalidated |
| Stores.UserLoginStamps.RecordLogin | infoq-modules/infoq-system/src/main/java/cc/infoq/system/service/impl/SysLoginServiceImpl.java:134-141 | a present user id gets the new ip and time, a null one changes nothing |
| TenantCacheNames.ResolveCacheName | infoq-plugin/infoq-plugin-tenant/src/main/java/cc/infoq/common/tenant/manager/TenantSpringCacheManager.java:23-39 | the name is kept or prefixed with the tenant id and ":", prefixed exactly when tenant filtering applies, the name is not global and does not already start with the tenant id |
| TenantCacheNames.KeptNameIsStable | infoq-plugin/infoq-plugin-tenant/src/main/java/cc/infoq/common/tenant/manager/TenantSpringCacheManager.java:24-36 | a kept name stays kept |
| TenantCacheNames.ResolveIdempotent | infoq-plugin/infoq-plugin-tenant/src/main/java/cc/infoq/common/tenant/manager/TenantSpringCacheManager.java:34-38 | with a tenant id, resolving a resolved name changes nothing |
| TenantCacheNames.ExemptNamesIgnoreTenant | infoq-plugin/infoq-plugin-tenant/src/main/java/cc/infoq/common/tenant/manager/TenantSpringCacheManager.java:24-29 | with tenant filtering off or a global name, the tenant id plays no part |
| TenantCacheNames.AbsentTenantPrefixesAgain | infoq-plugin/infoq-plugin-tenant/src/main/java/cc/infoq/common/tenant/manager/TenantSpringCacheManager.java:30-38 | without a tenant id the name gets the prefix "null:", again on each resolution |
| User.Remove | infoq-modules/infoq-system/src/main/java/cc/infoq/system/controller/system/SysUserController.java:209-214 | refused exactly when the current user is among the ids; otherwise the deleted row count is answered |
| User.WithoutSuperAdminRoles | infoq-modules/infoq-system/src/main/java/cc/infoq/system/controller/system/SysUserController.java:151 | the kept roles are exactly those that are not the super-admin role |
| User.WithoutSuperAdminRolesAppend | infoq-modules/infoq-system/src/main/java/cc/infoq/system/controller/system/SysUserController.java:151 | the filter keeps order across a concatenation |
| User.VisibleRoles | infoq-modules/infoq-system/src/main/java/cc/infoq/system/controller/system/SysUserController.java:151 | a super-admin sees all roles, anyone else all but the super-admin roles, in order |
| User.GetInfo | infoq-modules/infoq-system/src/main/java/cc/infoq/system/controller/system/SysUserController.java:133-153 | a user id outside the data scope fails, a missing user throws, a found user is answered with its role ids; posts and post ids are present exactly for a user with a department; the roles are the visible roles |
| User.AuthRole | infoq-modules/infoq-system/src/main/java/cc/infoq/system/controller/system/SysUserController.java:264-272 | outside the data scope fails; otherwise the user and their assignable roles, never the super-admin role for anyone else |
| User.Add | infoq-modules/infoq-system/src/main/java/cc/infoq/system/controller/system/SysUserController.java:162-178 | scope, user name, phone, email and the tenant's quota refuse in order; only a passing add inserts the user with the hashed password and answers by the row count |
| User.AddIsGuardChain | infoq-modules/infoq-system/src/main/java/cc/infoq/system/controller/system/SysUserController.java:162-178 | add answers exactly as its ordered guard chain followed by the insert |

## Left out

- Asynchronous delivery: events published on the bus are modelled as delivered in publication order. `@Async`, the thread pool and the scheduled welcome message that login sends five seconds later (WebSocket) are not modelled.
- Time to live: cache expiry is recorded with each entry (`Expires(seconds)` or `NoExpiry`), but time does not advance in the model. Races between concurrent logins for the same user are not modelled.
- Request details are inputs to the model. These are the geo-IP lookup (`AddressUtils`), user-agent parsing (browser, os), `ServletUtils` and the request headers.
- Sa-Token internals are reduced to a map from token to session, holding the login user and the tenant extra. The calls into the Sa-Token framework that the core makes are modelled: logout, the tenant extra and the listener callbacks.
- `TenantHelper` key prefixing is modelled as the `tenant` component of a cache key, not as string concatenation.
- Password hashing (BCrypt) is an uninterpreted function. Localisation (`MessageUtils`) is an uninterpreted function of the key and its arguments.
- LoginService.LoginServiceImpl.CheckLogin: the failure counter is an unbounded integer. The Java `Integer` counter cannot reach its overflow in practice, because the maximum retry count stops it.
- Text.ToLower: case folding and whitespace are ASCII only. `equalsIgnoreCase` and `isBlank` on other Unicode characters are not modelled.
- Dept.AncestorIds: pieces of the ancestors field are not trimmed. The comma-separated ids contain no spaces.
- Menu.IsHttpCases: the http(s) test is a case-sensitive prefix test. `StringUtils.ishttp` is not part of this model.
- Dept.ExcludeChild, Menu.WithoutTenantMenu: the source's in-place `removeIf` on the list is modelled as a function returning the filtered list. Order and contents are the same. Aliasing of the original list is not captured.
- Post.PostTable.DeletePostByIds: the posts are checked in the order of the requested ids. The database may return `selectByIds` in another order, so when several posts are assigned, the post named in the error may differ.
- Dict.ListByType: the order of the type's listing (sort, then code) is the one the mapper query uses. The mapper XML is not part of this model.
- The dictionary sort key `dictSort` is an integer that is never null.
- Dict.DictStore.InsertDictData: the affected-row count of the insert is an input.
- User.Add: a null password in the submitted user is not modelled.
- Department add, user edit, status changes, password reset and the register HTTP endpoint are not modelled. Registration is modelled at the service level (`SysRegisterServiceImpl.register`).
- JSON parsing and bean validation of request bodies are left out. Login bodies arrive already parsed.
- The constant values come from the upstream framework: the cache-key prefixes, the default tenant id "000000", the super-admin id 1, the status codes and the tenant menu id. `CacheConstants`, `GlobalConstants`, `TenantConstants` and `SystemConstants` are not part of this model.
- DataScope.IdTexts: department ids are natural numbers, so `Convert.toStr` writes them without a sign.
- Post.SelectPostNamesByIds: the answer maps a post with a null name to an absent value. `StreamUtils.toMap` is not part of this model, so what it does with a null name (store it, or throw if it collects through `HashMap.merge`) is not modelled.
