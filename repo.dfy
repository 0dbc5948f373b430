/** What the services rely on from their repositories, whose SQL is not part of
    this model: a keyed read reports `sql.ErrNoRows` on a miss, and any call may
    instead fail with a driver error that the caller supplies as a fault. */
module Repo {
  import opened Wrappers
  import opened AppErrors
  import opened Ints

  /** A read by key (GetByID, GetByUserID, ...). */
  function Get<K(==), V>(m: map<K, V>, k: K, fault: Option<Error>): (r: Result<V, Error>)
    ensures r.Success? <==> fault.None? && k in m
    ensures r.Success? ==> r.value == m[k]
    ensures r.Failure? ==> r.error == (if fault.Some? then fault.value else ErrNoRows)
  {
    if fault.Some? then Failure(fault.value)
    else if k in m then Success(m[k])
    else Failure(ErrNoRows)
  }

  /** The list queries carry `COUNT(*) OVER ()` on every row; the services read
      it from the first row, from the last row, or from the first row where it
      is not zero. With no rows each of these is 0. */
  function FirstTotal(ts: seq<int>): int { if |ts| == 0 then 0 else ts[0] }

  function LastTotal(ts: seq<int>): int { if |ts| == 0 then 0 else ts[|ts| - 1] }

  function FirstNonZero(ts: seq<int>): (r: int)
    ensures r == 0 || r in ts
  {
    if |ts| == 0 then 0
    else if ts[0] != 0 then ts[0]
    else FirstNonZero(ts[1..])
  }

  /** The first non-zero count is the first count that is not zero: every
      count before it is 0, and it is 0 only when every count is. */
  lemma {:induction false} FirstNonZeroIsFirst(ts: seq<int>)
    ensures var r := FirstNonZero(ts);
      && (r != 0 ==> exists k :: 0 <= k < |ts| && ts[k] == r && forall j :: 0 <= j < k ==> ts[j] == 0)
      && (r == 0 ==> forall j :: 0 <= j < |ts| ==> ts[j] == 0)
  {
    if |ts| > 0 && ts[0] == 0 {
      var r := FirstNonZero(ts[1..]);
      FirstNonZeroIsFirst(ts[1..]);
      if r != 0 {
        var k :| 0 <= k < |ts[1..]| && ts[1..][k] == r && forall j :: 0 <= j < k ==> ts[1..][j] == 0;
        assert ts[k + 1] == r;
        forall j | 0 <= j < k + 1 ensures ts[j] == 0 {
          if j > 0 { assert ts[j] == ts[1..][j - 1]; }
        }
      } else {
        forall j | 0 <= j < |ts| ensures ts[j] == 0 {
          if j > 0 { assert ts[j] == ts[1..][j - 1]; }
        }
      }
    }
  }

  /** Reading one more row: the first non-zero count found so far stays, and
      the new row's count is taken only while none has been seen. This is what
      the services' `if total == 0 { total = row.TotalCount }` loops compute. */
  lemma {:induction false} FirstNonZeroAppend(ts: seq<int>, t: int)
    ensures FirstNonZero(ts + [t]) == if FirstNonZero(ts) != 0 then FirstNonZero(ts) else t
  {
    if |ts| == 0 {
      assert ts + [t] == [t];
      assert [t][1..] == [];
    } else {
      assert (ts + [t])[0] == ts[0];
      assert (ts + [t])[1..] == ts[1..] + [t];
      FirstNonZeroAppend(ts[1..], t);
    }
  }

  /** FirstNonZeroAppend at position i of a list of counts read left to right. */
  lemma FirstNonZeroStep(ts: seq<int>, i: int, total: int)
    requires 0 <= i < |ts| && total == FirstNonZero(ts[..i])
    ensures FirstNonZero(ts[..i + 1]) == if total == 0 then ts[i] else total
  {
    assert ts[..i + 1] == ts[..i] + [ts[i]];
    FirstNonZeroAppend(ts[..i], ts[i]);
  }

  predicate Uniform(ts: seq<int>) { forall i, j :: 0 <= i < |ts| && 0 <= j < |ts| ==> ts[i] == ts[j] }

  /** When every row carries the same window count, the three readings agree. */
  lemma UniformTotalsAgree(ts: seq<int>)
    requires Uniform(ts)
    ensures FirstTotal(ts) == LastTotal(ts) == FirstNonZero(ts)
  {
    if |ts| > 0 && ts[0] == 0 {
      assert forall j :: 0 <= j < |ts| ==> ts[j] == ts[0];
    }
  }

  /** The paging arguments the list queries get: `int32(limit)` and `int32((page-1)*limit)`. */
  datatype Paging = Paging(limit: int, offset: int)

  function PagingFor(page: int, limit: int): (p: Paging)
    ensures InInt32(p.limit) && InInt32(p.offset)
    ensures InInt32(limit) ==> p.limit == limit
    ensures InInt32((page - 1) * limit) ==> p.offset == (page - 1) * limit
  {
    ToInt32Exact(limit);
    ToInt32Exact((page - 1) * limit);
    Paging(ToInt32(limit), ToInt32((page - 1) * limit))
  }

  /** The int32 conversion of the offset wraps: a large enough page number that
      the controller lets through reaches the query as a negative offset. */
  lemma OffsetWraps()
    ensures PagingFor(214748366, 10).offset == -2147483646
  {
  }
}
