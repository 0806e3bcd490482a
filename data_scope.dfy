/**
 * The department-id lists that data-scope SQL fragments are built from
 * (SysDataScopeServiceImpl): a comma-joined list of ids, or the sentinel "-1"
 * that matches no department.
 */
module DataScope {
  import opened Common
  import opened Text

  /** The id that no department has, used when there is nothing to match. */
  const NO_DEPT: string := "-1"

  /** The decimal texts of the ids, in order. */
  function IdTexts(ids: seq<nat>): (r: seq<string>)
    ensures |r| == |ids|
    ensures forall i :: 0 <= i < |ids| ==> r[i] == NatToString(ids[i])
  {
    seq(|ids|, i requires 0 <= i < |ids| => NatToString(ids[i]))
  }

  /** StreamUtils.join of the ids with ",": at least one id, or the sentinel. */
  function JoinOrSentinel(ids: seq<nat>): string {
    if |ids| == 0 then NO_DEPT else Join(IdTexts(ids), ',')
  }

  /**
   * getRoleCustom: `deptIds` is the role's dept rows as the mapper returns them;
   * a null role id never reaches the mapper.
   */
  function GetRoleCustom(roleId: Option<int>, deptIds: seq<nat>): (r: string)
    ensures roleId.None? ==> r == NO_DEPT
    ensures roleId.Some? && |deptIds| > 0 ==> Split(r, ',') == IdTexts(deptIds)
    ensures r == NO_DEPT <==> roleId.None? || |deptIds| == 0
  {
    if roleId.None? then NO_DEPT
    else
      JoinOrSentinelMeaning(deptIds);
      JoinOrSentinel(deptIds)
  }

  /** getDeptAndChild: the dept and its descendants as the mapper returns them, or the sentinel. */
  function GetDeptAndChild(deptId: Option<int>, subtree: seq<nat>): (r: string)
    ensures deptId.None? ==> r == NO_DEPT
    ensures deptId.Some? && |subtree| > 0 ==> Split(r, ',') == IdTexts(subtree)
    ensures r == NO_DEPT <==> deptId.None? || |subtree| == 0
  {
    if deptId.None? then NO_DEPT
    else
      JoinOrSentinelMeaning(subtree);
      JoinOrSentinel(subtree)
  }

  /** A joined list starts with a digit, so it is never the sentinel. */
  lemma {:induction false} JoinStartsWithDigit(ids: seq<nat>)
    requires |ids| > 0
    ensures |Join(IdTexts(ids), ',')| > 0
    ensures '0' <= Join(IdTexts(ids), ',')[0] <= '9'
  {
    var xs := IdTexts(ids);
    if |xs| > 1 {
      assert Join(xs, ',') == xs[0] + [','] + Join(xs[1..], ',');
    }
  }

  /** The sentinel appears exactly for no ids, and otherwise splitting gives the ids' texts back. */
  lemma JoinOrSentinelMeaning(ids: seq<nat>)
    ensures JoinOrSentinel(ids) == NO_DEPT <==> |ids| == 0
    ensures |ids| > 0 ==> Split(JoinOrSentinel(ids), ',') == IdTexts(ids)
  {
    if |ids| > 0 {
      JoinStartsWithDigit(ids);
      var xs := IdTexts(ids);
      forall i | 0 <= i < |xs| ensures ',' !in xs[i] {
        assert forall k :: 0 <= k < |xs[i]| ==> xs[i][k] != ',';
      }
      SplitJoin(xs, ',');
    }
  }
}
