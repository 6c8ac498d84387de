/**
 Keyset paging of one table: pages of the lowest ids above the last one seen, until a
 short page. The reference is the plain query: all rows passing the filter, by id.
 */
module Paging {
  import opened Sets

  /** The members of a finite set of ids, ascending. */
  ghost function Ascending(ids: set<int>): (sorted: seq<int>)
    decreases ids
  {
    if ids == {} then [] else
      LeastExists(ids);
      var least :| least in ids && forall x :: x in ids ==> least <= x;
      [least] + Ascending(ids - {least})
  }

  lemma LeastExists(ids: set<int>)
    requires ids != {}
    ensures exists least :: least in ids && forall x :: x in ids ==> least <= x
    decreases ids
  {
    Inhabited(ids);
    var some :| some in ids;
    var rest := ids - {some};
    if rest != {} {
      LeastExists(rest);
      var l :| l in rest && forall x :: x in rest ==> l <= x;
      var least := if l < some then l else some;
      forall x | x in ids ensures least <= x { assert x == some || x in rest; }
    } else {
      forall x | x in ids ensures some <= x { assert x == some || x in rest; }
    }
  }

  ghost predicate IsAscending(s: seq<int>) {
    forall i, j :: 0 <= i < j < |s| ==> s[i] < s[j]
  }

  lemma PrependSmallest(x: int, tail: seq<int>)
    requires IsAscending(tail) && forall i :: 0 <= i < |tail| ==> x < tail[i]
    ensures IsAscending([x] + tail)
  {
  }

  lemma AscendingSplits(ids: set<int>) returns (least: int)
    requires ids != {}
    ensures least in ids && forall x :: x in ids ==> least <= x
    ensures Ascending(ids) == [least] + Ascending(ids - {least})
  {
    LeastExists(ids);
    least :| least in ids && forall x :: x in ids ==> least <= x;
  }

  lemma Members(least: int, tail: seq<int>, ids: set<int>)
    requires least in ids && forall x :: x in tail <==> x in ids - {least}
    ensures forall x :: x in [least] + tail <==> x in ids
  {
  }

  lemma {:induction false} AscendingSorted(ids: set<int>)
    ensures IsAscending(Ascending(ids))
    ensures forall x :: x in Ascending(ids) <==> x in ids
    decreases ids
  {
    if ids != {} {
      var least := AscendingSplits(ids);
      var tail := Ascending(ids - {least});
      AscendingSorted(ids - {least});
      forall i | 0 <= i < |tail| ensures least < tail[i] { assert tail[i] in tail; }
      PrependSmallest(least, tail);
      Members(least, tail, ids);
    }
  }

  lemma AscendingIs(ids: set<int>)
    ensures IsAscending(Ascending(ids))
    ensures forall x :: x in Ascending(ids) <==> x in ids
    ensures forall i :: 0 <= i < |Ascending(ids)| ==> Ascending(ids)[i] in ids
  {
    AscendingSorted(ids);
    forall i | 0 <= i < |Ascending(ids)| ensures Ascending(ids)[i] in ids { assert Ascending(ids)[i] in Ascending(ids); }
  }

  lemma AscendingHead(ids: set<int>, least: int)
    requires least in ids && forall x :: x in ids ==> least <= x
    ensures Ascending(ids) == [least] + Ascending(ids - {least})
  {
    assert Ascending(ids)[0] == least;
  }

  lemma TailOf(s: seq<int>, ids: set<int>)
    requires IsAscending(s) && s != [] && forall x :: x in s <==> x in ids
    ensures IsAscending(s[1..]) && forall x :: x in s[1..] <==> x in ids - {s[0]}
  {
    forall x | x in s && x != s[0] ensures x in s[1..] {
      var i :| 0 <= i < |s| && s[i] == x;
      assert s[1..][i - 1] == x;
    }
  }

  lemma {:induction false} AscendingUnique(s: seq<int>, ids: set<int>)
    requires IsAscending(s) && forall x :: x in s <==> x in ids
    ensures s == Ascending(ids)
    decreases ids
  {
    AscendingIs(ids);
    var t := Ascending(ids);
    if s == [] {
      Inhabited(ids);
    } else {
      assert s[0] in ids && t[0] in s;
      assert s[0] == t[0];
      TailOf(s, ids);
      AscendingUnique(s[1..], ids - {s[0]});
      assert s == [s[0]] + s[1..];
    }
  }

  // ------------------------------------------------------------ the paged read

  ghost function RowsOf<R>(table: map<int, R>, ids: seq<int>): (rows: seq<R>)
    requires forall i :: 0 <= i < |ids| ==> ids[i] in table
    ensures |rows| == |ids|
  {
    seq(|ids|, i requires 0 <= i < |ids| => table[ids[i]])
  }

  /** Ids of the rows that pass the filter. */
  function Passing<R>(table: map<int, R>, wanted: R -> bool): set<int> {
    set id | id in table && wanted(table[id])
  }

  function Above(ids: set<int>, lastId: int): set<int> {
    set id | id in ids && id > lastId
  }

  function UpTo(ids: set<int>, lastId: int): set<int> {
    set id | id in ids && id <= lastId
  }

  /** The plain query: every passing row with a positive id, by id. */
  ghost function PlainQuery<R>(table: map<int, R>, wanted: R -> bool): seq<R> {
    var ids := Above(Passing(table, wanted), 0);
    AscendingIs(ids);
    RowsOf(table, Ascending(ids))
  }

  lemma PrefixIsUpTo(ids: set<int>, n: nat)
    requires 0 < n <= |Ascending(ids)|
    ensures Ascending(ids)[n - 1] in ids
    ensures Ascending(ids)[..n] == Ascending(UpTo(ids, Ascending(ids)[n - 1]))
  {
    AscendingIs(ids);
    var s := Ascending(ids);
    forall x | x in UpTo(ids, s[n - 1]) ensures x in s[..n] {
      var i :| 0 <= i < |s| && s[i] == x;
      assert i <= n - 1;
      assert s[..n][i] == x;
    }
    AscendingUnique(s[..n], UpTo(ids, s[n - 1]));
  }

  lemma SplitAt(ids: set<int>, pivot: int)
    ensures Ascending(ids) == Ascending(UpTo(ids, pivot)) + Ascending(Above(ids, pivot))
  {
    AscendingIs(UpTo(ids, pivot));
    AscendingIs(Above(ids, pivot));
    AscendingUnique(Ascending(UpTo(ids, pivot)) + Ascending(Above(ids, pivot)), ids);
  }

  function Least(a: nat, b: nat): nat {
    if a < b then a else b
  }

  /** ORDER BY id LIMIT n. */
  method LowestOf(eligible: set<int>, limit: nat) returns (page: seq<int>)
    ensures page == Ascending(eligible)[..Least(limit, |Ascending(eligible)|)]
  {
    page := [];
    var rest := eligible;
    while rest != {} && |page| < limit
      invariant |page| <= limit
      invariant Ascending(eligible) == page + Ascending(rest)
      decreases rest
    {
      var least := LeastOf(rest);
      AscendingHead(rest, least);
      page := page + [least];
      rest := rest - {least};
    }
  }

  /** What one page does to the set of ids already emitted. */
  lemma PageStep(ids: set<int>, lastId: int, limit: nat, page: seq<int>)
    requires limit > 0
    requires page == Ascending(Above(ids, lastId))[..Least(limit, |Ascending(Above(ids, lastId))|)]
    ensures forall i :: 0 <= i < |page| ==> page[i] in ids
    ensures page == [] ==> UpTo(ids, lastId) == ids
    ensures page != [] ==>
              var last := page[|page| - 1];
              && last > lastId
              && Ascending(UpTo(ids, lastId)) + page == Ascending(UpTo(ids, last))
              && |Above(ids, last)| < |Above(ids, lastId)|
              && (|page| < limit ==> UpTo(ids, last) == ids)
  {
    var eligible := Above(ids, lastId);
    AscendingIs(eligible);
    if page == [] {
      assert Ascending(eligible) == [];
      forall x | x in ids ensures x <= lastId { assert x !in eligible; }
      assert UpTo(ids, lastId) == ids;
    } else {
      PrefixIsUpTo(eligible, |page|);
      var last := page[|page| - 1];
      PagesJoin(ids, lastId, last);
      if |page| < limit { ShortPageIsLast(ids, lastId, last); }
    }
  }

  lemma ShortPageIsLast(ids: set<int>, lastId: int, last: int)
    requires last > lastId && Ascending(Above(ids, lastId)) == Ascending(UpTo(Above(ids, lastId), last))
    ensures UpTo(ids, last) == ids
  {
    AscendingIs(Above(ids, lastId));
    AscendingIs(UpTo(Above(ids, lastId), last));
    forall x | x in ids ensures x <= last {
      if x > lastId { assert x in Ascending(Above(ids, lastId)); }
    }
  }

  lemma RowsJoin<R>(table: map<int, R>, a: seq<int>, b: seq<int>)
    requires forall i :: 0 <= i < |a| ==> a[i] in table
    requires forall i :: 0 <= i < |b| ==> b[i] in table
    ensures forall i :: 0 <= i < |a + b| ==> (a + b)[i] in table
    ensures RowsOf(table, a + b) == RowsOf(table, a) + RowsOf(table, b)
  {
  }

  method RowsOfPage<R>(table: map<int, R>, page: seq<int>) returns (rows: seq<R>)
    requires forall i :: 0 <= i < |page| ==> page[i] in table
    ensures rows == RowsOf(table, page)
  {
    rows := [];
    for i := 0 to |page|
      invariant rows == RowsOf(table, page[..i])
    {
      rows := rows + [table[page[i]]];
    }
    assert page[..|page|] == page;
  }

  /**
   The rows of one table as the export emits them: keyset pages of `limit` rows. However
   large the table and whatever the page size, this is the plain query.
   */
  method TableRows<R>(table: map<int, R>, wanted: R -> bool, limit: nat) returns (emitted: seq<R>)
    requires limit > 0
    ensures emitted == PlainQuery(table, wanted)
  {
    emitted := [];
    var lastId := 0;
    ghost var ids := Above(Passing(table, wanted), 0);
    AscendingIs(UpTo(ids, 0));
    assert UpTo(ids, 0) == {};
    while true
      invariant lastId >= 0
      invariant forall i :: 0 <= i < |Ascending(UpTo(ids, lastId))| ==> Ascending(UpTo(ids, lastId))[i] in table
      invariant emitted == RowsOf(table, Ascending(UpTo(ids, lastId)))
      decreases |Above(ids, lastId)|
    {
      var eligible := set id | id in table && id > lastId && wanted(table[id]);
      assert eligible == Above(ids, lastId);
      var page := LowestOf(eligible, limit);
      PageStep(ids, lastId, limit, page);
      if |page| == 0 { break; }
      var rows := RowsOfPage(table, page);
      RowsJoin(table, Ascending(UpTo(ids, lastId)), page);
      emitted := emitted + rows;
      lastId := page[|page| - 1];
      if |page| < limit { break; }
    }
  }

  lemma PagesJoin(ids: set<int>, a: int, b: int)
    requires a < b && b in ids
    ensures Ascending(UpTo(ids, a)) + Ascending(UpTo(Above(ids, a), b)) == Ascending(UpTo(ids, b))
    ensures |Above(ids, b)| < |Above(ids, a)|
  {
    SplitAt(UpTo(ids, b), a);
    assert UpTo(UpTo(ids, b), a) == UpTo(ids, a);
    assert Above(UpTo(ids, b), a) == UpTo(Above(ids, a), b);
    SubsetSize(Above(ids, b), Above(ids, a));
    assert b in Above(ids, a) && b !in Above(ids, b);
  }

  /** The export is complete exactly when no passing row has an id below 1: paging starts at id 0. */
  lemma CompleteIffPositive<R>(table: map<int, R>, wanted: R -> bool)
    ensures |PlainQuery(table, wanted)| == |Passing(table, wanted)| <==> forall id :: id in table && wanted(table[id]) ==> id > 0
  {
    var all, ids := Passing(table, wanted), Above(Passing(table, wanted), 0);
    AscendingSize(ids);
    SubsetSize(ids, all);
    if ids == all {
      forall id | id in table && wanted(table[id]) ensures id > 0 { assert id in all; }
    }
    if forall id :: id in table && wanted(table[id]) ==> id > 0 { assert ids == all; }
  }

  lemma {:induction false} AscendingSize(ids: set<int>)
    ensures |Ascending(ids)| == |ids|
    decreases ids
  {
    if ids != {} { AscendingSize(ids - {Ascending(ids)[0]}); }
  }
}
