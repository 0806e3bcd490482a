/**
 * The department administration rules of SysDeptController: the list that
 * excludes a department's subtree, and the ordered checks of edit and remove.
 * The department service's answers are inputs.
 */
module Dept {
  import opened Common
  import opened Text
  import opened ApiResults
  import opened Guards

  /** SysDeptVo: what the exclusion filter reads of a department. */
  datatype DeptVo = DeptVo(deptId: nat, parentId: Option<nat>, ancestors: Option<string>, deptName: Option<string>)

  /**
   * StringUtils.splitList(ancestors): the comma-separated ids, empty pieces
   * dropped; a null text gives no ids.
   */
  function AncestorIds(ancestors: Option<string>): (r: seq<string>)
    ensures forall i :: 0 <= i < |r| ==> r[i] != ""
  {
    match ancestors
    case None => []
    case Some(a) => NonEmpty(Split(a, ','))
  }

  function NonEmpty(xs: seq<string>): (r: seq<string>)
    ensures forall i :: 0 <= i < |r| ==> r[i] != ""
    ensures forall x :: x in r <==> x in xs && x != ""
    decreases |xs|
  {
    if |xs| == 0 then []
    else if xs[0] == "" then NonEmpty(xs[1..])
    else [xs[0]] + NonEmpty(xs[1..])
  }

  /** The department is the excluded one, or lies below it (its ancestors name it). */
  predicate InSubtree(d: DeptVo, deptId: Option<nat>) {
    Some(d.deptId) == deptId || (deptId.Some? && NatToString(deptId.value) in AncestorIds(d.ancestors))
  }

  /** excludeChild: the departments without the given one and its descendants, in their order. */
  function ExcludeChild(depts: seq<DeptVo>, deptId: Option<nat>): (r: seq<DeptVo>)
    ensures |r| <= |depts|
    ensures forall d :: d in r <==> d in depts && !InSubtree(d, deptId)
    // A null id matches nothing, so every department is kept.
    ensures deptId.None? ==> r == depts
    decreases |depts|
  {
    if |depts| == 0 then []
    else
      var rest := ExcludeChild(depts[1..], deptId);
      assert forall d :: d in depts <==> d == depts[0] || d in depts[1..];
      if InSubtree(depts[0], deptId) then rest else [depts[0]] + rest
  }

  /** The filter works element by element, so it keeps the relative order of what it keeps. */
  lemma {:induction false} ExcludeChildAppend(a: seq<DeptVo>, b: seq<DeptVo>, deptId: Option<nat>)
    ensures ExcludeChild(a + b, deptId) == ExcludeChild(a, deptId) + ExcludeChild(b, deptId)
    decreases |a|
  {
    if |a| > 0 {
      var ab := a + b;
      assert ab[0] == a[0];
      assert ab[1..] == a[1..] + b;
      ExcludeChildAppend(a[1..], b, deptId);
      var head: seq<DeptVo> := if InSubtree(a[0], deptId) then [] else [a[0]];
      assert ExcludeChild(ab, deptId) == head + ExcludeChild(ab[1..], deptId);
      assert ExcludeChild(a, deptId) == head + ExcludeChild(a[1..], deptId);
    } else {
      assert a + b == b;
    }
  }

  /** SysDeptBo: the department submitted for an edit. */
  datatype DeptBo = DeptBo(deptId: Option<int>, parentId: Option<int>, deptName: Option<string>, status: Option<string>)

  /** What the department service answers for an edit. */
  datatype EditFacts = EditFacts(inDataScope: bool, nameUnique: bool, normalChildren: int, hasUsers: bool,
                                 updatedRows: int)

  /**
   * edit: the data-scope check throws first; then a duplicate name, a parent
   * equal to the department itself, and, for a disable, live child departments
   * or assigned users refuse the edit, in that order.
   */
  function Edit(dept: DeptBo, facts: EditFacts): (r: Response<()>)
    ensures !facts.inDataScope ==> r == Threw(DataScopeDenied)
    ensures facts.inDataScope && !facts.nameUnique ==>
      r == Refused(FailMsg("修改部门'" + JavaText(dept.deptName) + "'失败，部门名称已存在"))
    // Only an id equal to the department's own makes it its own parent (a null deptId matches nothing).
    ensures facts.inDataScope && facts.nameUnique && dept.parentId.Some? && dept.parentId == dept.deptId ==>
      r == Refused(FailMsg("修改部门'" + JavaText(dept.deptName) + "'失败，上级部门不能是自己"))
    // A missing parent id is dereferenced when compared, after the name check.
    ensures facts.inDataScope && facts.nameUnique && dept.parentId.None? ==> r == Threw(NullPointerException)
    // The child-department check comes before the user check, and both only for a disable.
    ensures r == Refused(FailMsg("该部门包含未停用的子部门!")) <==>
      facts.inDataScope && facts.nameUnique && dept.parentId.Some? && dept.parentId != dept.deptId
      && dept.status == Some(DISABLE) && facts.normalChildren > 0
    ensures r == Refused(FailMsg("该部门下存在已分配用户，不能禁用!")) <==>
      facts.inDataScope && facts.nameUnique && dept.parentId.Some? && dept.parentId != dept.deptId
      && dept.status == Some(DISABLE) && facts.normalChildren <= 0 && facts.hasUsers
    ensures r.Done? <==>
      facts.inDataScope && facts.nameUnique && dept.parentId.Some? && dept.parentId != dept.deptId
      && !(dept.status == Some(DISABLE) && (facts.normalChildren > 0 || facts.hasUsers))
    ensures r.Done? ==> r.answer == ToAjaxRows(facts.updatedRows)
  {
    var name := JavaText(dept.deptName);
    if !facts.inDataScope then Threw(DataScopeDenied)
    else if !facts.nameUnique then
      var m := "修改部门'" + name + "'失败，部门名称已存在";
      assert m[0] != "该部门下存在已分配用户，不能禁用!"[0] && m[0] != "该部门包含未停用的子部门!"[0];
      Refused(FailMsg(m))
    else if dept.parentId.None? then Threw(NullPointerException)
    else if dept.parentId == dept.deptId then
      var m := "修改部门'" + name + "'失败，上级部门不能是自己";
      assert m[0] != "该部门下存在已分配用户，不能禁用!"[0] && m[0] != "该部门包含未停用的子部门!"[0];
      Refused(FailMsg(m))
    else if dept.status == Some(DISABLE) && facts.normalChildren > 0 then Refused(FailMsg("该部门包含未停用的子部门!"))
    else if dept.status == Some(DISABLE) && facts.hasUsers then Refused(FailMsg("该部门下存在已分配用户，不能禁用!"))
    else Done(ToAjaxRows(facts.updatedRows))
  }

  /** What the department and post services answer for a removal. */
  datatype RemoveFacts = RemoveFacts(hasChild: bool, hasUsers: bool, postCount: int, inDataScope: bool,
                                     deletedRows: int)

  const WARN_DEFAULT_DEPT: string := "默认部门,不允许删除"
  const WARN_HAS_CHILD: string := "存在下级部门,不允许删除"
  const WARN_HAS_USERS: string := "部门存在用户,不允许删除"
  const WARN_HAS_POSTS: string := "部门存在岗位,不允许删除"

  /** The removal checks in their order: default dept, children, users, posts, then the data scope. */
  function RemoveGuards(deptId: int, facts: RemoveFacts): seq<Check<Response<()>>> {
    [ Check(deptId != DEFAULT_DEPT_ID, Refused(Warn(WARN_DEFAULT_DEPT))),
      Check(!facts.hasChild, Refused(Warn(WARN_HAS_CHILD))),
      Check(!facts.hasUsers, Refused(Warn(WARN_HAS_USERS))),
      Check(facts.postCount <= 0, Refused(Warn(WARN_HAS_POSTS))),
      Check(facts.inDataScope, Threw(DataScopeDenied)) ]
  }

  /** remove: warn for the default dept, children, users and posts in that order, then check the data scope. */
  function Remove(deptId: int, facts: RemoveFacts): (r: Response<()>)
    ensures deptId == DEFAULT_DEPT_ID ==> r == Refused(Warn(WARN_DEFAULT_DEPT))
    // The data scope is checked only after every warning check has passed.
    ensures r == Threw(DataScopeDenied) <==>
      deptId != DEFAULT_DEPT_ID && !facts.hasChild && !facts.hasUsers && facts.postCount <= 0 && !facts.inDataScope
    ensures r.Done? <==>
      deptId != DEFAULT_DEPT_ID && !facts.hasChild && !facts.hasUsers && facts.postCount <= 0 && facts.inDataScope
    ensures r.Done? ==> r.answer == ToAjaxRows(facts.deletedRows)
    ensures r.Refused? ==> r.answer.code == WARN_CODE
  {
    if deptId == DEFAULT_DEPT_ID then Refused(Warn(WARN_DEFAULT_DEPT))
    else if facts.hasChild then Refused(Warn(WARN_HAS_CHILD))
    else if facts.hasUsers then Refused(Warn(WARN_HAS_USERS))
    else if facts.postCount > 0 then Refused(Warn(WARN_HAS_POSTS))
    else if !facts.inDataScope then Threw(DataScopeDenied)
    else Done(ToAjaxRows(facts.deletedRows))
  }

  /** remove is exactly its guard chain in order, followed by the deletion. */
  lemma RemoveIsGuardChain(deptId: int, facts: RemoveFacts)
    ensures Remove(deptId, facts) == Guarded(RemoveGuards(deptId, facts), Done(ToAjaxRows(facts.deletedRows)))
  {
    var cs := RemoveGuards(deptId, facts);
    assert cs == [cs[0]] + cs[1..] && cs[1..] == [cs[1]] + cs[2..] && cs[2..] == [cs[2]] + cs[3..];
    assert cs[3..] == [cs[3]] + cs[4..] && cs[4..] == [cs[4]] + cs[5..];
    FirstRejectionCons(cs[0], cs[1..]);
    FirstRejectionCons(cs[1], cs[2..]);
    FirstRejectionCons(cs[2], cs[3..]);
    FirstRejectionCons(cs[3], cs[4..]);
    FirstRejectionCons(cs[4], cs[5..]);
  }
}
