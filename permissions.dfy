/**
 * The permission sets of a login user (SysPermissionServiceImpl): the super
 * administrator gets the wildcard sets, everyone else what the role and menu
 * services answer, with duplicates collapsed.
 */
module Permissions {
  import opened Common

  /** The menu permission that grants everything. */
  const ALL_PERMISSION: string := "*:*:*"

  /** The elements of a list, as the HashSet that addAll builds from it. */
  function AsSet(xs: seq<string>): set<string> {
    set i | 0 <= i < |xs| :: xs[i]
  }

  /**
   * getRolePermission: `roleKeys` is what the role service would answer for
   * the user; it is consulted only for a user who is not super-admin.
   */
  function GetRolePermission(userId: Option<int>, roleKeys: seq<string>): (r: set<string>)
    ensures IsSuperAdmin(userId) ==> r == {SUPER_ADMIN_ROLE_KEY}
    ensures !IsSuperAdmin(userId) ==> forall p :: p in r <==> p in roleKeys
  {
    if IsSuperAdmin(userId) then {SUPER_ADMIN_ROLE_KEY} else AsSet(roleKeys)
  }

  /** getMenuPermission: the same shape, with the wildcard permission for the super-admin. */
  function GetMenuPermission(userId: Option<int>, menuPerms: seq<string>): (r: set<string>)
    ensures IsSuperAdmin(userId) ==> r == {ALL_PERMISSION}
    ensures !IsSuperAdmin(userId) ==> forall p :: p in r <==> p in menuPerms
  {
    if IsSuperAdmin(userId) then {ALL_PERMISSION} else AsSet(menuPerms)
  }

  /** For the super-admin neither service answer matters. */
  lemma SuperAdminIgnoresServices(userId: Option<int>, a1: seq<string>, a2: seq<string>)
    requires IsSuperAdmin(userId)
    ensures GetRolePermission(userId, a1) == GetRolePermission(userId, a2)
    ensures GetMenuPermission(userId, a1) == GetMenuPermission(userId, a2)
  {
  }

  /**
   * The two sets branch on the same test: a user holds the super-admin role key
   * through the super-admin branch exactly when they hold the wildcard menu
   * permission through it.
   */
  lemma BranchesAgree(userId: Option<int>, roleKeys: seq<string>, menuPerms: seq<string>)
    requires SUPER_ADMIN_ROLE_KEY !in roleKeys && ALL_PERMISSION !in menuPerms
    ensures SUPER_ADMIN_ROLE_KEY in GetRolePermission(userId, roleKeys)
        <==> ALL_PERMISSION in GetMenuPermission(userId, menuPerms)
    ensures SUPER_ADMIN_ROLE_KEY in GetRolePermission(userId, roleKeys) <==> IsSuperAdmin(userId)
  {
  }

  /** Duplicates and order in the service answer do not matter. */
  lemma AnswerOrderIrrelevant(userId: Option<int>, a: seq<string>, b: seq<string>)
    requires forall x :: x in a <==> x in b
    ensures GetRolePermission(userId, a) == GetRolePermission(userId, b)
    ensures GetMenuPermission(userId, a) == GetMenuPermission(userId, b)
  {
    assert AsSet(a) == AsSet(b) by {
      forall x ensures x in AsSet(a) <==> x in AsSet(b) {
        if x in a {
          var i :| 0 <= i < |a| && a[i] == x;
        }
        if x in b {
          var i :| 0 <= i < |b| && b[i] == x;
        }
      }
    }
  }
}
