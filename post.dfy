/**
 * The post service (SysPostServiceImpl): the all-or-nothing batch deletion over
 * the post table, the name and code uniqueness queries, the department filter
 * of the post listing, and the id and name projections.
 */
module Post {
  import opened Common
  import opened Text
  import opened Guards

  /** A row of the post table. */
  datatype Post = Post(postId: int, deptId: Option<int>, postCode: Option<string>, postName: Option<string>)

  /** SysPostBo: the post submitted for a uniqueness check (its id is null for a new post). */
  datatype PostBo = PostBo(postId: Option<int>, deptId: Option<int>, postCode: Option<string>, postName: Option<string>)

  /** The `ne(postId)` condition: a row is left out of the query when it is the post itself. */
  predicate IsSelf(row: Post, bo: PostBo) {
    bo.postId.Some? && row.postId == bo.postId.value
  }

  /** checkPostNameUnique: no other post of the same department has the same name. */
  predicate PostNameUnique(table: map<int, Post>, bo: PostBo) {
    !exists k :: k in table && SqlEq(table[k].postName, bo.postName) && SqlEq(table[k].deptId, bo.deptId)
                 && !IsSelf(table[k], bo)
  }

  /** checkPostCodeUnique: no other post, in any department, has the same code. */
  predicate PostCodeUnique(table: map<int, Post>, bo: PostBo) {
    !exists k :: k in table && SqlEq(table[k].postCode, bo.postCode) && !IsSelf(table[k], bo)
  }

  /** The name check is scoped to the department: a post of another department never makes it fail. */
  lemma NameUniqueIsDeptScoped(table: map<int, Post>, p: Post, bo: PostBo)
    requires p.postId !in table && !SqlEq(p.deptId, bo.deptId)
    ensures PostNameUnique(table[p.postId := p], bo) == PostNameUnique(table, bo)
  {
    var t := table[p.postId := p];
    if !PostNameUnique(t, bo) {
      var k :| k in t && SqlEq(t[k].postName, bo.postName) && SqlEq(t[k].deptId, bo.deptId) && !IsSelf(t[k], bo);
      assert k != p.postId && k in table;
    }
    if !PostNameUnique(table, bo) {
      var k :| k in table && SqlEq(table[k].postName, bo.postName) && SqlEq(table[k].deptId, bo.deptId)
               && !IsSelf(table[k], bo);
      assert k in t && t[k] == table[k];
    }
  }

  /** The code check is global: another post with the same code fails it, whatever its department. */
  lemma CodeUniqueIsGlobal(table: map<int, Post>, k: int, bo: PostBo)
    requires k in table && bo.postCode.Some? && table[k].postCode == bo.postCode && !IsSelf(table[k], bo)
    ensures !PostCodeUnique(table, bo)
  {
  }

  /** Both checks ignore the post being edited: its own row never counts as a clash. */
  lemma ChecksIgnoreSelf(table: map<int, Post>, p: Post, bo: PostBo)
    requires p.postId !in table && bo.postId == Some(p.postId)
    ensures PostNameUnique(table[p.postId := p], bo) == PostNameUnique(table, bo)
    ensures PostCodeUnique(table[p.postId := p], bo) == PostCodeUnique(table, bo)
  {
    var t := table[p.postId := p];
    if !PostNameUnique(t, bo) {
      var k :| k in t && SqlEq(t[k].postName, bo.postName) && SqlEq(t[k].deptId, bo.deptId) && !IsSelf(t[k], bo);
      assert k != p.postId && k in table;
    }
    if !PostNameUnique(table, bo) {
      var k :| k in table && SqlEq(table[k].postName, bo.postName) && SqlEq(table[k].deptId, bo.deptId)
               && !IsSelf(table[k], bo);
      assert k in t && t[k] == table[k];
    }
    if !PostCodeUnique(t, bo) {
      var k :| k in t && SqlEq(t[k].postCode, bo.postCode) && !IsSelf(t[k], bo);
      assert k != p.postId && k in table;
    }
    if !PostCodeUnique(table, bo) {
      var k :| k in table && SqlEq(table[k].postCode, bo.postCode) && !IsSelf(table[k], bo);
      assert k in t && t[k] == table[k];
    }
  }

  /** No two posts of one department share a name. */
  predicate NamesDistinctPerDept(table: map<int, Post>) {
    forall j, k :: j in table && k in table && j != k && SqlEq(table[j].postName, table[k].postName) ==>
      !SqlEq(table[j].deptId, table[k].deptId)
  }

  /** Inserting a new post that passed the name check keeps names distinct per department. */
  lemma InsertKeepsNamesDistinct(table: map<int, Post>, p: Post)
    requires NamesDistinctPerDept(table) && p.postId !in table
    requires PostNameUnique(table, PostBo(None, p.deptId, p.postCode, p.postName))
    ensures NamesDistinctPerDept(table[p.postId := p])
  {
    var bo := PostBo(None, p.deptId, p.postCode, p.postName);
    var t := table[p.postId := p];
    forall j, k | j in t && k in t && j != k && SqlEq(t[j].postName, t[k].postName)
      ensures !SqlEq(t[j].deptId, t[k].deptId)
    {
      if j == p.postId {
        assert !(SqlEq(table[k].postName, bo.postName) && SqlEq(table[k].deptId, bo.deptId) && !IsSelf(table[k], bo));
      } else if k == p.postId {
        assert !(SqlEq(table[j].postName, bo.postName) && SqlEq(table[j].deptId, bo.deptId) && !IsSelf(table[j], bo));
      }
    }
  }

  /** How many users hold a post (countUserPostById); an absent post id counts as 0. */
  function AssignedUsers(assignments: map<int, nat>, postId: int): nat {
    if postId in assignments then assignments[postId] else 0
  }

  const ASSIGNED_SUFFIX: string := "已分配，不能删除!"

  /** The per-post checks of deletePostByIds, in the order of the requested ids. */
  function DeleteChecks(table: map<int, Post>, assignments: map<int, nat>, postIds: seq<int>)
    : (cs: seq<Check<Exception>>)
    ensures |cs| == |postIds|
    ensures forall i :: 0 <= i < |postIds| ==>
      (cs[i].holds <==> postIds[i] !in table || AssignedUsers(assignments, postIds[i]) == 0)
    // A failing check names the post that still has users.
    ensures forall i :: 0 <= i < |postIds| && !cs[i].holds ==>
      cs[i].rejection == ServiceException(JavaText(table[postIds[i]].postName) + ASSIGNED_SUFFIX)
  {
    seq(|postIds|, i requires 0 <= i < |postIds| =>
      var id := postIds[i];
      if id in table && AssignedUsers(assignments, id) > 0
      then Check(false, ServiceException(JavaText(table[id].postName) + ASSIGNED_SUFFIX))
      else Check(true, ServiceException(ASSIGNED_SUFFIX)))
  }

  /** The deletion is refused exactly when some requested, existing post still has users. */
  lemma DeleteRefusedIffAssigned(table: map<int, Post>, assignments: map<int, nat>, postIds: seq<int>)
    ensures !AllHold(DeleteChecks(table, assignments, postIds)) <==>
      exists id :: id in postIds && id in table && AssignedUsers(assignments, id) > 0
  {
    var cs := DeleteChecks(table, assignments, postIds);
    if exists id :: id in postIds && id in table && AssignedUsers(assignments, id) > 0 {
      var id :| id in postIds && id in table && AssignedUsers(assignments, id) > 0;
      var i :| 0 <= i < |postIds| && postIds[i] == id;
      assert !cs[i].holds;
    }
  }

  /** The number of rows deleteByIds removes: the distinct requested ids that exist. */
  function DeletedCount(table: map<int, Post>, postIds: seq<int>): (n: nat)
    ensures n <= |table|
  {
    var gone := set id | id in postIds && id in table;
    assert gone <= table.Keys;
    SubsetCard(gone, table.Keys);
    |gone|
  }

  lemma SubsetCard<T>(a: set<T>, b: set<T>)
    requires a <= b
    ensures |a| <= |b|
  {
    assert b == a + (b - a);
  }

  /** The post table and the user-post assignments it is checked against. */
  class PostTable {
    var posts: map<int, Post>
    var assignments: map<int, nat>

    predicate Valid()
      reads this
    {
      forall k :: k in posts ==> posts[k].postId == k
    }

    constructor (posts: map<int, Post>, assignments: map<int, nat>)
      requires forall k :: k in posts ==> posts[k].postId == k
      ensures this.posts == posts && this.assignments == assignments
      ensures Valid()
    {
      this.posts := posts;
      this.assignments := assignments;
    }

    /**
     * deletePostByIds: every requested post that exists is checked first; the
     * first one with users aborts with its name and nothing is deleted.
     * Otherwise all requested posts are deleted and their count returned.
     */
    method DeletePostByIds(postIds: seq<int>) returns (r: Result<int>)
      requires Valid()
      modifies this
      ensures Valid() && assignments == old(assignments)
      ensures r.Failure? <==> !AllHold(DeleteChecks(old(posts), assignments, postIds))
      ensures r.Failure? ==> posts == old(posts)
      ensures r.Failure? ==> Some(r.error) == FirstRejection(DeleteChecks(old(posts), assignments, postIds))
      ensures r.Success? ==> r.value == DeletedCount(old(posts), postIds)
      ensures r.Success? ==> posts == old(posts) - set id | id in postIds
    {
      var checks := DeleteChecks(posts, assignments, postIds);
      var i := 0;
      while i < |postIds|
        invariant 0 <= i <= |postIds|
        invariant AllHold(checks[..i])
      {
        var id := postIds[i];
        if id in posts && AssignedUsers(assignments, id) > 0 {
          assert !checks[i].holds;
          FirstFailureWins(checks, i);
          return Failure(ServiceException(JavaText(posts[id].postName) + ASSIGNED_SUFFIX));
        }
        assert checks[i].holds;
        assert checks[..i + 1] == checks[..i] + [checks[i]];
        i := i + 1;
      }
      assert checks[..i] == checks;
      var count := DeletedCount(posts, postIds);
      posts := posts - set id | id in postIds;
      return Success(count);
    }
  }

  /**
   * selectPostNamesByIds: post id to post name for the requested posts that
   * exist; an empty request gives the empty map without a query.
   */
  function SelectPostNamesByIds(table: map<int, Post>, postIds: seq<int>): (r: map<int, Option<string>>)
    ensures |postIds| == 0 ==> r == map[]
    ensures forall k :: k in r <==> k in postIds && k in table
    ensures forall k :: k in r ==> r[k] == table[k].postName
  {
    if |postIds| == 0 then map[]
    else map k | k in table && k in postIds :: table[k].postName
  }

  /** The department condition of the post listing query. */
  datatype DeptFilter = ByDept(deptId: int) | InDepts(deptIds: seq<int>) | Unfiltered

  /**
   * buildQueryWrapper's department part: the single department wins; otherwise
   * the subtree of belongDeptId (`subtree` is the mapper's answer for it);
   * otherwise no department condition.
   */
  function PostDeptFilter(deptId: Option<int>, belongDeptId: Option<int>, subtree: seq<int>): (f: DeptFilter)
    ensures deptId.Some? ==> f == ByDept(deptId.value)
    ensures deptId.None? && belongDeptId.Some? ==> f == InDepts(subtree)
    ensures f == Unfiltered <==> deptId.None? && belongDeptId.None?
  {
    if deptId.Some? then ByDept(deptId.value)
    else if belongDeptId.Some? then InDepts(subtree)
    else Unfiltered
  }

  /** Whether a post passes the department condition (SQL `=` and `IN` never match a null column). */
  predicate Passes(p: Post, f: DeptFilter) {
    match f
    case ByDept(d) => SqlEq(p.deptId, Some(d))
    case InDepts(ds) => p.deptId.Some? && p.deptId.value in ds
    case Unfiltered => true
  }

  /** With a department given, the belong-department subtree has no effect on which posts pass. */
  lemma DeptShadowsBelongDept(p: Post, d: int, belong1: Option<int>, sub1: seq<int>,
                              belong2: Option<int>, sub2: seq<int>)
    ensures Passes(p, PostDeptFilter(Some(d), belong1, sub1)) == Passes(p, PostDeptFilter(Some(d), belong2, sub2))
    ensures Passes(p, PostDeptFilter(Some(d), belong1, sub1)) <==> p.deptId == Some(d)
  {
  }

  /** selectPostListByUserId: the ids of the user's posts, one per post, in the same order. */
  function SelectPostListByUserId(userPosts: seq<Post>): (ids: seq<int>)
    ensures |ids| == |userPosts|
    ensures forall i :: 0 <= i < |ids| ==> ids[i] == userPosts[i].postId
    decreases |userPosts|
  {
    if |userPosts| == 0 then [] else [userPosts[0].postId] + SelectPostListByUserId(userPosts[1..])
  }

  /** The projection commutes with concatenation, so the ids follow the posts' order. */
  lemma {:induction false} PostIdsAppend(a: seq<Post>, b: seq<Post>)
    ensures SelectPostListByUserId(a + b) == SelectPostListByUserId(a) + SelectPostListByUserId(b)
    decreases |a|
  {
    if |a| > 0 {
      assert (a + b)[1..] == a[1..] + b;
      PostIdsAppend(a[1..], b);
    } else {
      assert a + b == b;
    }
  }
}
