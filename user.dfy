/**
 * The user administration rules of SysUserController: refusing to delete the
 * current user, the ordered checks of add, hiding super-admin roles from other
 * users, and the department-gated posts of the user detail. The user, role,
 * post and tenant services' answers are inputs.
 */
module User {
  import opened Common
  import opened Text
  import opened ApiResults
  import opened Guards
  import opened Post

  const SELF_DELETE: string := "当前用户不能删除"

  /** remove: refused when the ids contain the current user's id; otherwise the users are deleted. */
  function Remove(userIds: seq<int>, currentUserId: Option<int>, deletedRows: int): (r: Response<()>)
    ensures r == Refused(FailMsg(SELF_DELETE)) <==> currentUserId.Some? && currentUserId.value in userIds
    ensures !r.Refused? ==> r == Done(ToAjaxRows(deletedRows))
  {
    if currentUserId.Some? && currentUserId.value in userIds then Refused(FailMsg(SELF_DELETE))
    else Done(ToAjaxRows(deletedRows))
  }

  /** A role as the role service lists it. */
  datatype Role = Role(roleId: Option<int>, roleKey: string)

  /** SysRoleVo.isSuperAdmin: the role's id is the super-admin id. */
  predicate IsSuperAdminRole(r: Role) {
    r.roleId == Some(SUPER_ADMIN_ID)
  }

  /** The roles other than the super-admin ones, in order. */
  function WithoutSuperAdminRoles(roles: seq<Role>): (r: seq<Role>)
    ensures forall x :: x in r <==> x in roles && !IsSuperAdminRole(x)
    ensures |r| <= |roles|
    decreases |roles|
  {
    if |roles| == 0 then []
    else
      var rest := WithoutSuperAdminRoles(roles[1..]);
      assert forall x :: x in roles <==> x == roles[0] || x in roles[1..];
      if IsSuperAdminRole(roles[0]) then rest else [roles[0]] + rest
  }

  /** The filter works role by role, so the shown roles keep the service's order. */
  lemma {:induction false} WithoutSuperAdminRolesAppend(a: seq<Role>, b: seq<Role>)
    ensures WithoutSuperAdminRoles(a + b) == WithoutSuperAdminRoles(a) + WithoutSuperAdminRoles(b)
    decreases |a|
  {
    if |a| > 0 {
      var ab := a + b;
      assert ab[0] == a[0];
      assert ab[1..] == a[1..] + b;
      WithoutSuperAdminRolesAppend(a[1..], b);
      var head: seq<Role> := if IsSuperAdminRole(a[0]) then [] else [a[0]];
      assert WithoutSuperAdminRoles(ab) == head + WithoutSuperAdminRoles(ab[1..]);
      assert WithoutSuperAdminRoles(a) == head + WithoutSuperAdminRoles(a[1..]);
    } else {
      assert a + b == b;
    }
  }

  /**
   * The roles shown for a user (getInfo, authRole): all of them for the
   * super-admin user, otherwise every role except the super-admin ones, in order.
   */
  function VisibleRoles(target: Option<int>, roles: seq<Role>): (r: seq<Role>)
    ensures IsSuperAdmin(target) ==> r == roles
    ensures !IsSuperAdmin(target) ==> forall x :: x in r <==> x in roles && !IsSuperAdminRole(x)
    ensures !IsSuperAdmin(target) ==> r == WithoutSuperAdminRoles(roles)
    ensures |r| <= |roles|
  {
    if IsSuperAdmin(target) then roles else WithoutSuperAdminRoles(roles)
  }

  /** A user as the user service returns it. */
  datatype UserVo = UserVo(userId: int, deptId: Option<int>, userName: Option<string>)

  /** SysUserInfoVo: the detail answer; absent parts are left null. */
  datatype UserInfoVo = UserInfoVo(user: Option<UserVo>, roleIds: Option<seq<int>>, posts: Option<seq<Post>>,
                                   postIds: Option<seq<int>>, roles: seq<Role>)

  /**
   * What the services answer to getInfo: the data-scope check, the user, its
   * role ids, the posts of a department, the user's posts, and the enabled roles.
   */
  datatype InfoFacts = InfoFacts(inDataScope: bool, user: Option<UserVo>, roleIds: seq<int>,
                                 postsOfDept: int -> seq<Post>, userPosts: seq<Post>, normalRoles: seq<Role>)

  /** The user's department, when a user id was given and the user was found with one. */
  function DeptOf(userId: Option<int>, facts: InfoFacts): Option<int> {
    if userId.Some? && facts.user.Some? then facts.user.value.deptId else None
  }

  /**
   * getInfo: with a user id, the data scope is checked and the user, its role
   * ids and, when the user has a department, the department's posts and the
   * user's post ids are filled in; a user id that finds no user fails on the
   * department read. The role list is always there.
   */
  function GetInfo(userId: Option<int>, facts: InfoFacts): (r: Result<UserInfoVo>)
    ensures userId.Some? && !facts.inDataScope ==> r == Failure(DataScopeDenied)
    ensures userId.Some? && facts.inDataScope && facts.user.None? ==> r == Failure(NullPointerException)
    ensures userId.None? ==> r.Success? && r.value.user.None? && r.value.roleIds.None?
    ensures userId.Some? && facts.inDataScope && facts.user.Some? ==>
      r.Success? && r.value.user == facts.user && r.value.roleIds == Some(facts.roleIds)
    ensures r.Success? ==> r.value.roles == VisibleRoles(userId, facts.normalRoles)
    // Posts and post ids come together, and only for a given user that has a department.
    ensures r.Success? ==> (r.value.posts.Some? <==> DeptOf(userId, facts).Some?)
    ensures r.Success? ==> (r.value.postIds.Some? <==> DeptOf(userId, facts).Some?)
    ensures r.Success? && DeptOf(userId, facts).Some? ==>
      r.value.posts == Some(facts.postsOfDept(DeptOf(userId, facts).value))
      && r.value.postIds == Some(SelectPostListByUserId(facts.userPosts))
  {
    var roles := VisibleRoles(userId, facts.normalRoles);
    if userId.None? then Success(UserInfoVo(None, None, None, None, roles))
    else if !facts.inDataScope then Failure(DataScopeDenied)
    else if facts.user.None? then Failure(NullPointerException)
    else
      var user := facts.user.value;
      match user.deptId
      case None => Success(UserInfoVo(Some(user), Some(facts.roleIds), None, None, roles))
      case Some(d) =>
        Success(UserInfoVo(Some(user), Some(facts.roleIds), Some(facts.postsOfDept(d)),
                           Some(SelectPostListByUserId(facts.userPosts)), roles))
  }

  /** authRole: after the data-scope check, the user and its assignable roles, filtered like getInfo's. */
  function AuthRole(userId: int, inDataScope: bool, user: Option<UserVo>, authRoles: seq<Role>)
    : (r: Result<UserInfoVo>)
    ensures !inDataScope ==> r == Failure(DataScopeDenied)
    ensures inDataScope ==> r.Success? && r.value.user == user && r.value.roles == VisibleRoles(Some(userId), authRoles)
    ensures r.Success? && userId != SUPER_ADMIN_ID ==> forall x :: x in r.value.roles ==> !IsSuperAdminRole(x)
  {
    if !inDataScope then Failure(DataScopeDenied)
    else Success(UserInfoVo(user, None, None, None, VisibleRoles(Some(userId), authRoles)))
  }

  /** SysUserBo: the user submitted for add. */
  datatype UserBo = UserBo(deptId: Option<int>, userName: Option<string>, phonenumber: Option<string>,
                           email: Option<string>, password: string)

  /** What the services answer for add: data scope, the three uniqueness checks, the tenant quota, rows. */
  datatype AddFacts = AddFacts(deptInDataScope: bool, nameUnique: bool, phoneUnique: bool, emailUnique: bool,
                               quotaAvailable: bool, insertedRows: int)

  /** The password hash (BCrypt.hashpw), left uninterpreted. */
  type Hasher = string -> string

  const QUOTA_EXHAUSTED: string := "当前租户下用户名额不足，请联系管理员"

  function AddFailed(user: UserBo, why: string): string {
    "新增用户'" + JavaText(user.userName) + "'失败，" + why
  }

  /** The checks of add in order: department scope, user name, phone, email, tenant quota. */
  function AddGuards(user: UserBo, facts: AddFacts, tenantEnabled: bool): seq<Check<Response<()>>> {
    [ Check(facts.deptInDataScope, Threw(DataScopeDenied)),
      Check(facts.nameUnique, Refused(FailMsg(AddFailed(user, "登录账号已存在")))),
      Check(IsEmpty(user.phonenumber) || facts.phoneUnique, Refused(FailMsg(AddFailed(user, "手机号码已存在")))),
      Check(IsEmpty(user.email) || facts.emailUnique, Refused(FailMsg(AddFailed(user, "邮箱账号已存在")))),
      Check(!tenantEnabled || facts.quotaAvailable, Refused(FailMsg(QUOTA_EXHAUSTED))) ]
  }

  /** The answer of add, and the user handed to insertUser when the checks pass. */
  datatype AddOutcome = AddOutcome(response: Response<()>, inserted: Option<UserBo>)

  /**
   * add: the department scope, then the user name, the phone (only when
   * given) and the email (only when given) must be unique, the first failure
   * winning; with tenancy on, the tenant's quota is checked last. The user is
   * inserted with the hash of the submitted password.
   */
  function Add(user: UserBo, facts: AddFacts, tenantEnabled: bool, hash: Hasher): (r: AddOutcome)
    ensures !facts.deptInDataScope ==> r.response == Threw(DataScopeDenied)
    ensures facts.deptInDataScope && !facts.nameUnique ==>
      r.response == Refused(FailMsg(AddFailed(user, "登录账号已存在")))
    ensures facts.deptInDataScope && facts.nameUnique && !IsEmpty(user.phonenumber) && !facts.phoneUnique ==>
      r.response == Refused(FailMsg(AddFailed(user, "手机号码已存在")))
    ensures (facts.deptInDataScope && facts.nameUnique && (IsEmpty(user.phonenumber) || facts.phoneUnique)
             && !IsEmpty(user.email) && !facts.emailUnique) ==>
      r.response == Refused(FailMsg(AddFailed(user, "邮箱账号已存在")))
    // The quota is consulted only with tenancy on, and only after all uniqueness checks pass.
    ensures (facts.deptInDataScope && facts.nameUnique && (IsEmpty(user.phonenumber) || facts.phoneUnique)
             && (IsEmpty(user.email) || facts.emailUnique) && tenantEnabled && !facts.quotaAvailable) ==>
      r.response == Refused(FailMsg(QUOTA_EXHAUSTED))
    ensures r.response.Done? <==>
      (facts.deptInDataScope && facts.nameUnique && (IsEmpty(user.phonenumber) || facts.phoneUnique)
       && (IsEmpty(user.email) || facts.emailUnique) && (!tenantEnabled || facts.quotaAvailable))
    ensures r.inserted.Some? <==> r.response.Done?
    ensures r.inserted.Some? ==> r.inserted.value == user.(password := hash(user.password))
    ensures r.response.Done? ==> r.response.answer == ToAjaxRows(facts.insertedRows)
  {
    if !facts.deptInDataScope then AddOutcome(Threw(DataScopeDenied), None)
    else if !facts.nameUnique then AddOutcome(Refused(FailMsg(AddFailed(user, "登录账号已存在"))), None)
    else if !IsEmpty(user.phonenumber) && !facts.phoneUnique then
      AddOutcome(Refused(FailMsg(AddFailed(user, "手机号码已存在"))), None)
    else if !IsEmpty(user.email) && !facts.emailUnique then
      AddOutcome(Refused(FailMsg(AddFailed(user, "邮箱账号已存在"))), None)
    else if tenantEnabled && !facts.quotaAvailable then
      AddOutcome(Refused(FailMsg(QUOTA_EXHAUSTED)), None)
    else
      AddOutcome(Done(ToAjaxRows(facts.insertedRows)), Some(user.(password := hash(user.password))))
  }

  /** add answers exactly as its guard chain in order, followed by the insert. */
  lemma AddIsGuardChain(user: UserBo, facts: AddFacts, tenantEnabled: bool, hash: Hasher)
    ensures Add(user, facts, tenantEnabled, hash).response ==
      Guarded(AddGuards(user, facts, tenantEnabled), Done(ToAjaxRows(facts.insertedRows)))
  {
    var cs := AddGuards(user, facts, tenantEnabled);
    assert cs == [cs[0]] + cs[1..] && cs[1..] == [cs[1]] + cs[2..] && cs[2..] == [cs[2]] + cs[3..];
    assert cs[3..] == [cs[3]] + cs[4..] && cs[4..] == [cs[4]] + cs[5..];
    FirstRejectionCons(cs[0], cs[1..]);
    FirstRejectionCons(cs[1], cs[2..]);
    FirstRejectionCons(cs[2], cs[3..]);
    FirstRejectionCons(cs[3], cs[4..]);
    FirstRejectionCons(cs[4], cs[5..]);
    assert FirstRejection(cs[5..]) == None;
  }
}
