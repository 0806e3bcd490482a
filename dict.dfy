/**
 * The dictionary-data service (SysDictDataServiceImpl): the (type, value)
 * uniqueness query, the listing order, and the table writes together with the
 * per-type cache they keep: a write caches the type's fresh listing, a
 * deletion evicts every type it touched.
 */
module Dict {
  import opened Common

  /** A row of the dictionary-data table; dictCode is its id. */
  datatype DictData = DictData(dictCode: int, dictSort: int, dictLabel: Option<string>,
                               dictValue: Option<string>, dictType: Option<string>)

  /** SysDictDataBo as the uniqueness check reads it (dictCode is null for a new row). */
  datatype DictBo = DictBo(dictCode: Option<int>, dictType: Option<string>, dictValue: Option<string>)

  /** checkDictDataUnique: no other row has the same type and value (SQL `=` never matches null). */
  predicate DictDataUnique(rows: seq<DictData>, bo: DictBo) {
    !exists i :: 0 <= i < |rows| && SqlEq(rows[i].dictType, bo.dictType) && SqlEq(rows[i].dictValue, bo.dictValue)
                 && !(bo.dictCode.Some? && rows[i].dictCode == bo.dictCode.value)
  }

  /** No two rows share a (type, value) pair. */
  predicate PairsDistinct(rows: seq<DictData>) {
    forall i, j :: 0 <= i < j < |rows| && SqlEq(rows[i].dictType, rows[j].dictType) ==>
      !SqlEq(rows[i].dictValue, rows[j].dictValue)
  }

  /** Appending a row that passed the check as a new row keeps the pairs distinct. */
  lemma InsertKeepsPairsDistinct(rows: seq<DictData>, d: DictData)
    requires PairsDistinct(rows)
    requires DictDataUnique(rows, DictBo(None, d.dictType, d.dictValue))
    ensures PairsDistinct(rows + [d])
  {
    var t := rows + [d];
    forall i, j | 0 <= i < j < |t| && SqlEq(t[i].dictType, t[j].dictType)
      ensures !SqlEq(t[i].dictValue, t[j].dictValue)
    {
      if j == |rows| {
        assert t[i] == rows[i] && t[j] == d;
      } else {
        assert t[i] == rows[i] && t[j] == rows[j];
      }
    }
  }

  /** The check ignores the row being edited: the row with the bo's own code never clashes. */
  lemma UniqueIgnoresSelf(rows: seq<DictData>, d: DictData, bo: DictBo)
    requires bo.dictCode == Some(d.dictCode)
    ensures DictDataUnique(rows + [d], bo) == DictDataUnique(rows, bo)
  {
    var t := rows + [d];
    if !DictDataUnique(t, bo) {
      var i :| 0 <= i < |t| && SqlEq(t[i].dictType, bo.dictType) && SqlEq(t[i].dictValue, bo.dictValue)
               && !(bo.dictCode.Some? && t[i].dictCode == bo.dictCode.value);
      assert i < |rows| && t[i] == rows[i];
    }
    if !DictDataUnique(rows, bo) {
      var i :| 0 <= i < |rows| && SqlEq(rows[i].dictType, bo.dictType) && SqlEq(rows[i].dictValue, bo.dictValue)
               && !(bo.dictCode.Some? && rows[i].dictCode == bo.dictCode.value);
      assert t[i] == rows[i];
    }
  }

  /** The listing order: ascending dictSort, then ascending dictCode. */
  predicate Before(a: DictData, b: DictData) {
    a.dictSort < b.dictSort || (a.dictSort == b.dictSort && a.dictCode <= b.dictCode)
  }

  predicate Ordered(xs: seq<DictData>) {
    forall i, j :: 0 <= i < j < |xs| ==> Before(xs[i], xs[j])
  }

  /** Every row of the listing comes at or after y. */
  predicate AllAfter(y: DictData, xs: seq<DictData>) {
    forall k :: 0 <= k < |xs| ==> Before(y, xs[k])
  }

  lemma OrderedCons(y: DictData, xs: seq<DictData>)
    requires Ordered(xs) && AllAfter(y, xs)
    ensures Ordered([y] + xs)
  {
    var t := [y] + xs;
    forall i, j | 0 <= i < j < |t|
      ensures Before(t[i], t[j])
    {
      assert t[j] == xs[j - 1];
      if i > 0 {
        assert t[i] == xs[i - 1];
      }
    }
  }

  /** Placing a row before the head it precedes keeps the listing ordered. */
  lemma InsertAtFront(x: DictData, xs: seq<DictData>)
    requires Ordered(xs) && |xs| > 0 && Before(x, xs[0])
    ensures Ordered([x] + xs)
    ensures forall y :: AllAfter(y, xs) && Before(y, x) ==> AllAfter(y, [x] + xs)
  {
    assert AllAfter(x, xs) by {
      forall k | 0 <= k < |xs| ensures Before(x, xs[k]) {
        if k > 0 {
          assert Before(xs[0], xs[k]);
        }
      }
    }
    OrderedCons(x, xs);
    forall y | AllAfter(y, xs) && Before(y, x) ensures AllAfter(y, [x] + xs) {
      forall k | 0 <= k < |[x] + xs| ensures Before(y, ([x] + xs)[k]) {
        if k > 0 {
          assert ([x] + xs)[k] == xs[k - 1];
        }
      }
    }
  }

  /**
   * Keeping the head in front of the insertion into the tail keeps the listing
   * ordered, given what the insertion into the tail promises.
   */
  lemma InsertBehindHead(x: DictData, xs: seq<DictData>, rest: seq<DictData>)
    requires Ordered(xs) && |xs| > 0 && !Before(x, xs[0])
    requires Ordered(rest) && multiset(rest) == multiset(xs[1..]) + multiset{x}
    requires forall y :: AllAfter(y, xs[1..]) && Before(y, x) ==> AllAfter(y, rest)
    ensures Ordered([xs[0]] + rest)
    ensures multiset([xs[0]] + rest) == multiset(xs) + multiset{x}
    ensures forall y :: AllAfter(y, xs) && Before(y, x) ==> AllAfter(y, [xs[0]] + rest)
  {
    assert xs == [xs[0]] + xs[1..];
    assert AllAfter(xs[0], xs[1..]) by {
      forall k | 0 <= k < |xs[1..]| ensures Before(xs[0], xs[1..][k]) {
        assert xs[1..][k] == xs[k + 1];
      }
    }
    assert AllAfter(xs[0], rest);
    OrderedCons(xs[0], rest);
    forall y | AllAfter(y, xs) && Before(y, x) ensures AllAfter(y, [xs[0]] + rest) {
      assert AllAfter(y, xs[1..]) by {
        forall k | 0 <= k < |xs[1..]| ensures Before(y, xs[1..][k]) {
          assert xs[1..][k] == xs[k + 1];
        }
      }
      forall k | 0 <= k < |[xs[0]] + rest| ensures Before(y, ([xs[0]] + rest)[k]) {
        if k > 0 {
          assert ([xs[0]] + rest)[k] == rest[k - 1];
        }
      }
    }
  }

  /** Insert one row into an ordered listing. */
  function InsertOrdered(x: DictData, xs: seq<DictData>): (r: seq<DictData>)
    requires Ordered(xs)
    ensures Ordered(r)
    ensures multiset(r) == multiset(xs) + multiset{x}
    ensures forall y :: AllAfter(y, xs) && Before(y, x) ==> AllAfter(y, r)
    decreases |xs|
  {
    if |xs| == 0 then [x]
    else if Before(x, xs[0]) then
      InsertAtFront(x, xs);
      assert xs == [xs[0]] + xs[1..];
      [x] + xs
    else
      assert Ordered(xs[1..]) by {
        forall i, j | 0 <= i < j < |xs[1..]| ensures Before(xs[1..][i], xs[1..][j]) {
          assert xs[1..][i] == xs[i + 1] && xs[1..][j] == xs[j + 1];
        }
      }
      var rest := InsertOrdered(x, xs[1..]);
      InsertBehindHead(x, xs, rest);
      [xs[0]] + rest
  }

  /** orderByAsc(dictSort, dictCode): the rows in listing order. */
  function OrderRows(xs: seq<DictData>): (r: seq<DictData>)
    ensures Ordered(r)
    ensures multiset(r) == multiset(xs)
    decreases |xs|
  {
    if |xs| == 0 then []
    else
      assert xs == [xs[0]] + xs[1..];
      InsertOrdered(xs[0], OrderRows(xs[1..]))
  }

  /** The rows of one type, in table order; a null type matches nothing. */
  function OfType(rows: seq<DictData>, t: Option<string>): (r: seq<DictData>)
    ensures forall x :: x in r <==> x in rows && SqlEq(x.dictType, t)
    decreases |rows|
  {
    if |rows| == 0 then []
    else
      var rest := OfType(rows[1..], t);
      assert forall x :: x in rows <==> x == rows[0] || x in rows[1..];
      if SqlEq(rows[0].dictType, t) then [rows[0]] + rest else rest
  }

  /** selectDictDataByType: every row of the type, once each, in listing order. */
  function ListByType(rows: seq<DictData>, t: Option<string>): (r: seq<DictData>)
    ensures Ordered(r)
    ensures multiset(r) == multiset(OfType(rows, t))
    ensures forall x :: x in r <==> x in rows && SqlEq(x.dictType, t)
  {
    var r := OrderRows(OfType(rows, t));
    assert forall x :: x in r <==> x in multiset(r);
    r
  }

  /** The rows whose code is listed (selectByIds), in table order. */
  function Selected(rows: seq<DictData>, codes: seq<int>): (r: seq<DictData>)
    ensures forall x :: x in r <==> x in rows && x.dictCode in codes
    decreases |rows|
  {
    if |rows| == 0 then []
    else
      var rest := Selected(rows[1..], codes);
      assert forall x :: x in rows <==> x == rows[0] || x in rows[1..];
      if rows[0].dictCode in codes then [rows[0]] + rest else rest
  }

  /** The table after deleteByIds: the rows whose code is not listed, in order. */
  function Remaining(rows: seq<DictData>, codes: seq<int>): (r: seq<DictData>)
    ensures forall x :: x in r <==> x in rows && x.dictCode !in codes
    decreases |rows|
  {
    if |rows| == 0 then []
    else
      var rest := Remaining(rows[1..], codes);
      assert forall x :: x in rows <==> x == rows[0] || x in rows[1..];
      if rows[0].dictCode !in codes then [rows[0]] + rest else rest
  }

  /** The cache keys a deletion evicts: the types of the selected rows. */
  function TypesOf(xs: seq<DictData>): set<Option<string>> {
    set x | x in xs :: x.dictType
  }

  /** The deletion splits the table: every row is either deleted (and its type evicted) or kept. */
  lemma {:induction false} DeletionPartitionsRows(rows: seq<DictData>, codes: seq<int>)
    ensures multiset(Selected(rows, codes)) + multiset(Remaining(rows, codes)) == multiset(rows)
    ensures forall x :: x in rows && x.dictCode in codes ==> x.dictType in TypesOf(Selected(rows, codes))
    decreases |rows|
  {
    if |rows| > 0 {
      DeletionPartitionsRows(rows[1..], codes);
      assert rows == [rows[0]] + rows[1..];
    }
  }

  /** The answer of a write that affected no row. */
  const OPERATION_FAILED: string := "操作失败"

  /** The dictionary-data table and the per-type listing cache (CacheNames.SYS_DICT). */
  class DictStore {
    var rows: seq<DictData>
    var cache: map<Option<string>, seq<DictData>>

    constructor (rows: seq<DictData>)
      ensures this.rows == rows && this.cache == map[]
    {
      this.rows := rows;
      this.cache := map[];
    }

    /**
     * deleteDictDataByIds: the rows are read before they are deleted, and the
     * cache entry of each of their types is evicted afterwards.
     */
    method DeleteDictDataByIds(codes: seq<int>)
      modifies this
      ensures rows == Remaining(old(rows), codes)
      ensures cache == old(cache) - TypesOf(Selected(old(rows), codes))
    {
      var list := Selected(rows, codes);
      rows := Remaining(rows, codes);
      var i := 0;
      while i < |list|
        invariant 0 <= i <= |list|
        invariant rows == Remaining(old(rows), codes)
        invariant cache == old(cache) - TypesOf(list[..i])
      {
        assert list[..i + 1] == list[..i] + [list[i]];
        assert TypesOf(list[..i + 1]) == TypesOf(list[..i]) + {list[i].dictType};
        cache := cache - {list[i].dictType};
        i := i + 1;
      }
      assert list[..i] == list;
    }

    /**
     * insertDictData: `affected` is the row count the insert reports. With a
     * row written, the type's full listing is returned and cached under the
     * type; otherwise it fails with "操作失败" and nothing is cached.
     */
    method InsertDictData(data: DictData, affected: int) returns (r: Result<seq<DictData>>)
      modifies this
      ensures affected > 0 ==> rows == old(rows) + [data]
      ensures affected > 0 ==> r == Success(ListByType(rows, data.dictType))
      ensures affected > 0 ==> cache == old(cache)[data.dictType := r.value]
      ensures affected <= 0 ==> rows == old(rows) && cache == old(cache)
      ensures affected <= 0 ==> r == Failure(ServiceException(OPERATION_FAILED))
    {
      if affected > 0 {
        rows := rows + [data];
        var list := ListByType(rows, data.dictType);
        cache := cache[data.dictType := list];
        return Success(list);
      }
      return Failure(ServiceException(OPERATION_FAILED));
    }

    /**
     * updateDictData: updateById writes the rows with the data's code. When
     * there is one, the type's full listing is returned and cached; otherwise
     * it fails with "操作失败" and nothing changes.
     */
    method UpdateDictData(data: DictData) returns (r: Result<seq<DictData>>)
      modifies this
      ensures (exists i :: 0 <= i < |old(rows)| && old(rows)[i].dictCode == data.dictCode) ==>
        rows == Replaced(old(rows), data)
        && r == Success(ListByType(rows, data.dictType))
        && cache == old(cache)[data.dictType := r.value]
      ensures (forall i :: 0 <= i < |old(rows)| ==> old(rows)[i].dictCode != data.dictCode) ==>
        rows == old(rows) && cache == old(cache) && r == Failure(ServiceException(OPERATION_FAILED))
    {
      var i := 0;
      while i < |rows| && rows[i].dictCode != data.dictCode
        invariant 0 <= i <= |rows|
        invariant forall j :: 0 <= j < i ==> rows[j].dictCode != data.dictCode
      {
        i := i + 1;
      }
      if i < |rows| {
        rows := Replaced(rows, data);
        var list := ListByType(rows, data.dictType);
        cache := cache[data.dictType := list];
        return Success(list);
      }
      return Failure(ServiceException(OPERATION_FAILED));
    }
  }

  /** The table after updateById: every row with the data's code becomes the data. */
  function Replaced(rows: seq<DictData>, data: DictData): (r: seq<DictData>)
    ensures |r| == |rows|
    ensures forall i :: 0 <= i < |r| ==> r[i] == if rows[i].dictCode == data.dictCode then data else rows[i]
  {
    seq(|rows|, i requires 0 <= i < |rows| => if rows[i].dictCode == data.dictCode then data else rows[i])
  }

  /** A successful update puts the data into the listing of its type. */
  lemma UpdatedRowIsListed(rows: seq<DictData>, data: DictData, i: int)
    requires 0 <= i < |rows| && rows[i].dictCode == data.dictCode && data.dictType.Some?
    ensures data in ListByType(Replaced(rows, data), data.dictType)
  {
    assert Replaced(rows, data)[i] == data;
  }
}
