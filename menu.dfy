/**
 * The menu administration rules of SysMenuController: the add and edit check
 * chains, the tenant-package menu tree with the tenant-management menu removed,
 * and the single and cascading removals. The menu service's answers are inputs.
 */
module Menu {
  import opened Common
  import opened Text
  import opened ApiResults
  import opened Guards

  const HTTP: string := "http://"
  const HTTPS: string := "https://"

  /** StringUtils.ishttp: the path starts with "http://" or "https://"; a null path does not. */
  predicate IsHttp(path: Option<string>) {
    path.Some? && (HTTP <= path.value || HTTPS <= path.value)
  }

  /** Any text behind either scheme is an http path, and a path shorter than "http://" never is. */
  lemma IsHttpCases(rest: string, path: string)
    ensures IsHttp(Some(HTTP + rest)) && IsHttp(Some(HTTPS + rest))
    ensures |path| < |HTTP| ==> !IsHttp(Some(path))
    ensures !IsHttp(None)
  {
    assert HTTP <= HTTP + rest;
    assert HTTPS <= HTTPS + rest;
  }

  /** SysMenuBo: the menu submitted for add or edit. */
  datatype MenuBo = MenuBo(menuId: Option<int>, parentId: Option<int>, menuName: Option<string>,
                           isFrame: Option<string>, path: Option<string>)

  /** What the menu service answers: name and route uniqueness, and the rows written. */
  datatype MenuFacts = MenuFacts(nameUnique: bool, routeUnique: bool, rows: int)

  /** An external-link menu (isFrame equal to YES_FRAME) whose path is not an http(s) address. */
  predicate BadFrame(menu: MenuBo) {
    Some(YES_FRAME) == menu.isFrame && !IsHttp(menu.path)
  }

  function NameTaken(verb: string, menu: MenuBo): string {
    verb + "菜单'" + JavaText(menu.menuName) + "'失败，菜单名称已存在"
  }
  function NotHttp(verb: string, menu: MenuBo): string {
    verb + "菜单'" + JavaText(menu.menuName) + "'失败，地址必须以http(s)://开头"
  }
  function SelfParent(menu: MenuBo): string {
    "修改菜单'" + JavaText(menu.menuName) + "'失败，上级菜单不能选择自己"
  }
  function RouteTaken(verb: string, menu: MenuBo): string {
    verb + "菜单'" + JavaText(menu.menuName) + "'失败，路由名称或地址已存在"
  }

  /** The checks of add, in order: name, external-link path, route. */
  function AddGuards(menu: MenuBo, facts: MenuFacts): seq<Check<Response<()>>> {
    [ Check(facts.nameUnique, Refused(FailMsg(NameTaken("新增", menu)))),
      Check(!BadFrame(menu), Refused(FailMsg(NotHttp("新增", menu)))),
      Check(facts.routeUnique, Refused(FailMsg(RouteTaken("新增", menu)))) ]
  }

  /** add: the first failing check answers; the menu is inserted only when all pass. */
  function Add(menu: MenuBo, facts: MenuFacts): (r: Response<()>)
    ensures !facts.nameUnique ==> r == Refused(FailMsg(NameTaken("新增", menu)))
    ensures facts.nameUnique && BadFrame(menu) ==> r == Refused(FailMsg(NotHttp("新增", menu)))
    ensures facts.nameUnique && !BadFrame(menu) && !facts.routeUnique ==>
      r == Refused(FailMsg(RouteTaken("新增", menu)))
    ensures r.Done? <==> facts.nameUnique && !BadFrame(menu) && facts.routeUnique
    ensures r.Done? ==> r.answer == ToAjaxRows(facts.rows)
    ensures !r.Threw?
  {
    if !facts.nameUnique then Refused(FailMsg(NameTaken("新增", menu)))
    else if BadFrame(menu) then Refused(FailMsg(NotHttp("新增", menu)))
    else if !facts.routeUnique then Refused(FailMsg(RouteTaken("新增", menu)))
    else Done(ToAjaxRows(facts.rows))
  }

  /**
   * The checks of edit, in order: name, external-link path, self-parent, route.
   * menuId.equals(parentId) dereferences the menu id, so a null id throws there.
   */
  function EditGuards(menu: MenuBo, facts: MenuFacts): seq<Check<Response<()>>> {
    [ Check(facts.nameUnique, Refused(FailMsg(NameTaken("修改", menu)))),
      Check(!BadFrame(menu), Refused(FailMsg(NotHttp("修改", menu)))),
      Check(menu.menuId.Some?, Threw(NullPointerException)),
      Check(menu.menuId != menu.parentId, Refused(FailMsg(SelfParent(menu)))),
      Check(facts.routeUnique, Refused(FailMsg(RouteTaken("修改", menu)))) ]
  }

  /** edit: name, external-link path, self-parent, then route; the first failure wins. */
  function Edit(menu: MenuBo, facts: MenuFacts): (r: Response<()>)
    ensures !facts.nameUnique ==> r == Refused(FailMsg(NameTaken("修改", menu)))
    ensures facts.nameUnique && BadFrame(menu) ==> r == Refused(FailMsg(NotHttp("修改", menu)))
    // A menu that names itself as parent is refused, whatever the route check would say.
    ensures facts.nameUnique && !BadFrame(menu) && menu.menuId.Some? && menu.parentId == menu.menuId ==>
      r == Refused(FailMsg(SelfParent(menu)))
    ensures r.Done? <==>
      facts.nameUnique && !BadFrame(menu) && menu.menuId.Some? && menu.parentId != menu.menuId && facts.routeUnique
    ensures r.Done? ==> r.answer == ToAjaxRows(facts.rows)
    ensures r.Threw? ==> r.error == NullPointerException && menu.menuId.None?
  {
    if !facts.nameUnique then Refused(FailMsg(NameTaken("修改", menu)))
    else if BadFrame(menu) then Refused(FailMsg(NotHttp("修改", menu)))
    else if menu.menuId.None? then Threw(NullPointerException)
    else if menu.menuId == menu.parentId then Refused(FailMsg(SelfParent(menu)))
    else if !facts.routeUnique then Refused(FailMsg(RouteTaken("修改", menu)))
    else Done(ToAjaxRows(facts.rows))
  }

  /** Both check chains are exactly their guard lists in order, followed by the write. */
  lemma AddEditAreGuardChains(menu: MenuBo, facts: MenuFacts)
    ensures Add(menu, facts) == Guarded(AddGuards(menu, facts), Done(ToAjaxRows(facts.rows)))
    ensures Edit(menu, facts) == Guarded(EditGuards(menu, facts), Done(ToAjaxRows(facts.rows)))
  {
    assert Add(menu, facts) == Guarded(AddGuards(menu, facts), Done(ToAjaxRows(facts.rows))) by {
      var a := AddGuards(menu, facts);
      assert a == [a[0]] + a[1..] && a[1..] == [a[1]] + a[2..] && a[2..] == [a[2]] + a[3..];
      FirstRejectionCons(a[0], a[1..]);
      FirstRejectionCons(a[1], a[2..]);
      FirstRejectionCons(a[2], a[3..]);
    }
    assert Edit(menu, facts) == Guarded(EditGuards(menu, facts), Done(ToAjaxRows(facts.rows))) by {
      var e := EditGuards(menu, facts);
      assert e == [e[0]] + e[1..] && e[1..] == [e[1]] + e[2..] && e[2..] == [e[2]] + e[3..];
      assert e[3..] == [e[3]] + e[4..] && e[4..] == [e[4]] + e[5..];
      FirstRejectionCons(e[0], e[1..]);
      FirstRejectionCons(e[1], e[2..]);
      FirstRejectionCons(e[2], e[3..]);
      FirstRejectionCons(e[3], e[4..]);
      FirstRejectionCons(e[4], e[5..]);
    }
  }

  /** The tenant-management menu, which a tenant package never offers. */
  const TENANT_MENU_ID: int := 6

  /** A top-level node of the menu selection tree. */
  datatype MenuTree = MenuTree(id: int, name: string, children: seq<MenuTree>)

  datatype MenuTreeSelect = MenuTreeSelect(checkedKeys: seq<int>, menus: seq<MenuTree>)

  /** The tree list after removeIf(id == 6): every other top-level node, in order. */
  function WithoutTenantMenu(trees: seq<MenuTree>): (r: seq<MenuTree>)
    ensures |r| <= |trees|
    ensures forall t :: t in r <==> t in trees && t.id != TENANT_MENU_ID
    decreases |trees|
  {
    if |trees| == 0 then []
    else
      var rest := WithoutTenantMenu(trees[1..]);
      assert forall t :: t in trees <==> t == trees[0] || t in trees[1..];
      if trees[0].id == TENANT_MENU_ID then rest else [trees[0]] + rest
  }

  /** The removal works node by node, so the kept nodes stay in their order. */
  lemma {:induction false} WithoutTenantMenuAppend(a: seq<MenuTree>, b: seq<MenuTree>)
    ensures WithoutTenantMenu(a + b) == WithoutTenantMenu(a) + WithoutTenantMenu(b)
    decreases |a|
  {
    if |a| > 0 {
      var ab := a + b;
      assert ab[0] == a[0];
      assert ab[1..] == a[1..] + b;
      WithoutTenantMenuAppend(a[1..], b);
      var head: seq<MenuTree> := if a[0].id == TENANT_MENU_ID then [] else [a[0]];
      assert WithoutTenantMenu(ab) == head + WithoutTenantMenu(ab[1..]);
      assert WithoutTenantMenu(a) == head + WithoutTenantMenu(a[1..]);
    } else {
      assert a + b == b;
    }
  }

  /**
   * tenantPackageMenuTreeselect: the tree without menu 6, and the package's menu
   * ids only for a positive package id (`packageMenuIds` is the service's answer).
   */
  function TenantPackageMenuTreeselect(trees: seq<MenuTree>, packageId: int, packageMenuIds: seq<int>)
    : (r: MenuTreeSelect)
    ensures forall t :: t in r.menus <==> t in trees && t.id != TENANT_MENU_ID
    ensures r.menus == WithoutTenantMenu(trees)
    ensures packageId <= 0 ==> r.checkedKeys == []
    ensures packageId > 0 ==> r.checkedKeys == packageMenuIds
  {
    var ids := if packageId > 0 then packageMenuIds else [];
    MenuTreeSelect(ids, WithoutTenantMenu(trees))
  }

  const HAS_CHILD_MENU: string := "存在子菜单,不允许删除"
  const MENU_ASSIGNED: string := "菜单已分配,不允许删除"

  /** remove(menuId): warn for children, then for a role assignment; delete only otherwise. */
  function RemoveSingle(hasChild: bool, assignedToRole: bool, deletedRows: int): (r: Response<()>)
    ensures hasChild ==> r == Refused(Warn(HAS_CHILD_MENU))
    ensures !hasChild && assignedToRole ==> r == Refused(Warn(MENU_ASSIGNED))
    ensures r.Done? <==> !hasChild && !assignedToRole
    ensures r.Done? ==> r.answer == ToAjaxRows(deletedRows)
    ensures !r.Threw?
  {
    if hasChild then Refused(Warn(HAS_CHILD_MENU))
    else if assignedToRole then Refused(Warn(MENU_ASSIGNED))
    else Done(ToAjaxRows(deletedRows))
  }

  /**
   * remove(menuIds): the menu table after the cascading removal, and the answer.
   * If any listed menu has children nothing is deleted; otherwise every listed
   * menu goes and the answer is success whatever the delete count.
   */
  function RemoveCascade(table: set<int>, menuIds: seq<int>, anyHasChild: bool): (r: (ApiResult<()>, set<int>))
    ensures anyHasChild ==> r.0 == Warn(HAS_CHILD_MENU) && r.1 == table
    ensures !anyHasChild ==> r.0 == Ok() && IsSuccess(r.0)
    ensures !anyHasChild ==> forall m :: m in r.1 <==> m in table && m !in menuIds
    ensures r.1 <= table
  {
    if anyHasChild then (Warn(HAS_CHILD_MENU), table)
    else (Ok(), table - set m | m in menuIds)
  }

  /** A successful cascade leaves nothing to remove: repeating it changes nothing more. */
  lemma RemoveCascadeIdempotent(table: set<int>, menuIds: seq<int>)
    ensures RemoveCascade(RemoveCascade(table, menuIds, false).1, menuIds, false).1
         == RemoveCascade(table, menuIds, false).1
  {
  }
}
