/**
 Two query rewrites that are meant to keep the result: paging without OFFSET, and a search
 that ranks and pages row ids first and fetches the full rows afterwards.
 */
module Queries {

  /** OFFSET and LIMIT; a limit of 0 stands for none. */
  function Page<T>(rows: seq<T>, offset: int, max: int): seq<T> {
    var from := if offset <= 0 then 0 else if offset > |rows| then |rows| else offset;
    var rest := rows[from..];
    if max > 0 && max < |rest| then rest[..max] else rest
  }

  // ----- Paging without OFFSET -----

  /** A row of a query result in its final order, with the rowid it comes from. */
  datatype Row<T> = Row(rowid: int, data: T)

  function RowIds<T>(rows: seq<Row<T>>): set<int> {
    set i | 0 <= i < |rows| :: rows[i].rowid
  }

  /** WHERE rowid NOT IN (...) keeps the order of the rest. */
  function NotIn<T>(rows: seq<Row<T>>, ids: set<int>): seq<Row<T>> {
    if rows == [] then []
    else NotIn(rows[..|rows| - 1], ids) + if rows[|rows| - 1].rowid in ids then [] else [rows[|rows| - 1]]
  }

  /** optimizePagination: the first rows are excluded by their rowids, then the limit applies. */
  function Rewritten<T>(rows: seq<Row<T>>, offset: int, max: int, threshold: int): seq<Row<T>> {
    if offset > threshold then Page(NotIn(rows, RowIds(Page(rows, 0, offset))), 0, max)
    else Page(rows, offset, max)
  }

  lemma {:induction false} NotInSum<T>(a: seq<Row<T>>, b: seq<Row<T>>, ids: set<int>)
    ensures NotIn(a + b, ids) == NotIn(a, ids) + NotIn(b, ids)
  {
    if b == [] {
      assert a + b == a;
    } else {
      assert (a + b)[..|a + b| - 1] == a + b[..|b| - 1];
      NotInSum(a, b[..|b| - 1], ids);
    }
  }

  lemma {:induction false} NotInAll<T>(rows: seq<Row<T>>, ids: set<int>)
    requires forall i :: 0 <= i < |rows| ==> rows[i].rowid in ids
    ensures NotIn(rows, ids) == []
  {
    if rows != [] {
      NotInAll(rows[..|rows| - 1], ids);
    }
  }

  lemma {:induction false} NotInKeeps<T>(rows: seq<Row<T>>, ids: set<int>)
    requires forall i :: 0 <= i < |rows| ==> rows[i].rowid !in ids
    ensures NotIn(rows, ids) == rows
  {
    if rows != [] {
      NotInKeeps(rows[..|rows| - 1], ids);
      assert rows == rows[..|rows| - 1] + [rows[|rows| - 1]];
    }
  }

  lemma {:induction false} NotInLeavesNone<T>(rows: seq<Row<T>>, ids: set<int>)
    ensures forall i :: 0 <= i < |NotIn(rows, ids)| ==> NotIn(rows, ids)[i].rowid !in ids
  {
    if rows != [] {
      NotInLeavesNone(rows[..|rows| - 1], ids);
    }
  }

  /** Excluding the ids of the first rows leaves what OFFSET leaves, less the rows that come from those ids again. */
  lemma ExcludedIsDropped<T>(rows: seq<Row<T>>, offset: nat)
    requires offset <= |rows|
    ensures NotIn(rows, RowIds(rows[..offset])) == NotIn(rows[offset..], RowIds(rows[..offset]))
  {
    var ids := RowIds(rows[..offset]);
    assert rows[..offset] + rows[offset..] == rows;
    NotInSum(rows[..offset], rows[offset..], ids);
    forall i | 0 <= i < offset ensures rows[..offset][i].rowid in ids {
    }
    NotInAll(rows[..offset], ids);
  }

  /** The first rows, up to the limit. */
  function Limited<T>(rows: seq<T>, max: int): seq<T> {
    if 0 < max < |rows| then rows[..max] else rows
  }

  lemma LimitedAfterNotIn<T>(rows: seq<Row<T>>, ids: set<int>, max: int)
    ensures Limited(NotIn(rows, ids), max) == Limited(rows, max)
            <==> forall k :: 0 <= k < |Limited(rows, max)| ==> rows[k].rowid !in ids
  {
    var first := Limited(rows, max);
    if forall k :: 0 <= k < |first| ==> rows[k].rowid !in ids {
      assert first + rows[|first|..] == rows;
      NotInSum(first, rows[|first|..], ids);
      NotInKeeps(first, ids);
    } else {
      NotInLeavesNone(rows, ids);
      assert forall k :: 0 <= k < |first| ==> first[k] == rows[k];
    }
  }

  /**
   The rewritten query gives the same page exactly when no rowid of a row that is skipped
   comes back on the page.
   */
  lemma PaginationIff<T>(rows: seq<Row<T>>, offset: int, max: int, threshold: nat)
    requires threshold < offset
    ensures Rewritten(rows, offset, max, threshold) == Page(rows, offset, max) <==>
              forall i, j :: 0 <= i < offset <= j < |rows| && (max > 0 ==> j < offset + max) ==> rows[i].rowid != rows[j].rowid
  {
    var n := if offset > |rows| then |rows| else offset;
    var ids, rest := RowIds(rows[..n]), rows[n..];
    assert Page(rows, 0, offset) == rows[..n] by {
      assert rows[0..] == rows && rows[..|rows|] == rows;
    }
    ExcludedIsDropped(rows, n);
    assert NotIn(rest, ids)[0..] == NotIn(rest, ids);
    assert Rewritten(rows, offset, max, threshold) == Limited(NotIn(rest, ids), max);
    assert Page(rows, offset, max) == Limited(rest, max);
    LimitedAfterNotIn(rest, ids, max);
    ComesBack(rows, n, max);
  }

  lemma ComesBack<T>(rows: seq<Row<T>>, n: nat, max: int)
    requires n <= |rows|
    ensures (forall k :: 0 <= k < |Limited(rows[n..], max)| ==> rows[n..][k].rowid !in RowIds(rows[..n])) <==>
              forall i, j :: 0 <= i < n <= j < |rows| && (max > 0 ==> j < n + max) ==> rows[i].rowid != rows[j].rowid
  {
    if forall i, j :: 0 <= i < n <= j < |rows| && (max > 0 ==> j < n + max) ==> rows[i].rowid != rows[j].rowid {
    } else {
      var i, j :| 0 <= i < n <= j < |rows| && (max > 0 ==> j < n + max) && rows[i].rowid == rows[j].rowid;
      assert rows[n..][j - n] == rows[j] && rows[..n][i] == rows[i];
    }
  }

  /** With one row per rowid, every page is the same. */
  lemma PaginationKeepsPages<T>(rows: seq<Row<T>>, offset: int, max: int, threshold: nat)
    requires forall i, j :: 0 <= i < j < |rows| ==> rows[i].rowid != rows[j].rowid
    ensures Rewritten(rows, offset, max, threshold) == Page(rows, offset, max)
  {
    if offset > threshold {
      PaginationIff(rows, offset, max, threshold);
    }
  }

  // ----- Search in two phases -----

  /** The full rows of some ranked rows; joins may give several for one, or none. */
  function Hydrated<T>(ranked: seq<seq<T>>): seq<T> {
    if ranked == [] then [] else ranked[0] + Hydrated(ranked[1..])
  }

  /** ftsSearch.execute: the page is cut from the ranked rows, and then the full rows are fetched in rank order. */
  function TwoPhases<T>(ranked: seq<seq<T>>, offset: int, max: int): seq<T> {
    Hydrated(Page(ranked, offset, max))
  }

  /** One query on the full rows, ranked, with the page cut last. */
  function OneQuery<T>(ranked: seq<seq<T>>, offset: int, max: int): seq<T> {
    Page(Hydrated(ranked), offset, max)
  }

  /** Up to some rank every row has one full row, and from there on none has any. */
  predicate SinglesThenNone<T>(ranked: seq<seq<T>>, k: nat) {
    k <= |ranked| && forall i :: 0 <= i < |ranked| ==> |ranked[i]| == if i < k then 1 else 0
  }

  function Firsts<T>(ranked: seq<seq<T>>, k: nat): seq<T>
    requires SinglesThenNone(ranked, k)
  {
    seq(k, i requires 0 <= i < k => ranked[i][0])
  }

  lemma {:induction false} HydratedSingles<T>(ranked: seq<seq<T>>, k: nat)
    requires SinglesThenNone(ranked, k)
    ensures Hydrated(ranked) == Firsts(ranked, k)
    decreases |ranked|
  {
    if ranked != [] {
      var k' := if k == 0 then 0 else k - 1;
      HydratedSingles(ranked[1..], k');
      if k > 0 {
        assert ranked[0] == [ranked[0][0]];
        assert Firsts(ranked, k) == [ranked[0][0]] + Firsts(ranked[1..], k');
      }
    }
  }

  lemma PageAt<T>(rows: seq<T>, offset: int, max: int) returns (from: nat)
    ensures from == if offset <= 0 then 0 else if offset > |rows| then |rows| else offset
    ensures |Page(rows, offset, max)| == if 0 < max < |rows| - from then max else |rows| - from
    ensures forall i :: 0 <= i < |Page(rows, offset, max)| ==> Page(rows, offset, max)[i] == rows[from + i]
  {
    from := if offset <= 0 then 0 else if offset > |rows| then |rows| else offset;
  }

  /** A page of the ranked rows, and the same page of their full rows. */
  lemma PageOfSingles<T>(ranked: seq<seq<T>>, k: nat, offset: int, max: int) returns (k': nat)
    requires SinglesThenNone(ranked, k)
    ensures SinglesThenNone(Page(ranked, offset, max), k')
    ensures Firsts(Page(ranked, offset, max), k') == Page(Firsts(ranked, k), offset, max)
  {
    hide Page;
    var page := Page(ranked, offset, max);
    var from := PageAt(ranked, offset, max);
    var first := PageAt(Firsts(ranked, k), offset, max);
    var left := if k <= from then 0 else k - from;
    k' := if left < |page| then left else |page|;
  }

  lemma TwoPhasesOfSingles<T>(ranked: seq<seq<T>>, k: nat, offset: int, max: int)
    requires SinglesThenNone(ranked, k)
    ensures TwoPhases(ranked, offset, max) == OneQuery(ranked, offset, max)
  {
    HydratedSingles(ranked, k);
    var k' := PageOfSingles(ranked, k, offset, max);
    HydratedSingles(Page(ranked, offset, max), k');
    hide Page, Hydrated, Firsts, SinglesThenNone;
  }

  ghost predicate AgreeOnAllPages<T>(ranked: seq<seq<T>>) {
    forall offset, max :: TwoPhases(ranked, offset, max) == OneQuery(ranked, offset, max)
  }

  lemma {:induction false} HydratedSum<T>(a: seq<seq<T>>, b: seq<seq<T>>)
    ensures Hydrated(a + b) == Hydrated(a) + Hydrated(b)
  {
    if a == [] {
      assert a + b == b;
    } else {
      assert (a + b)[1..] == a[1..] + b;
      HydratedSum(a[1..], b);
    }
  }

  /** A page of one row, where the two agree, shows how many full rows a rank has. */
  lemma AgreeingRank<T>(ranked: seq<seq<T>>, i: nat)
    requires AgreeOnAllPages(ranked) && i < |ranked|
    ensures |ranked[i]| == if i < |Hydrated(ranked)| then 1 else 0
  {
    assert TwoPhases(ranked, i, 1) == OneQuery(ranked, i, 1);
    assert Page(ranked, i, 1) == [ranked[i]];
    assert Hydrated([ranked[i]]) == ranked[i] + Hydrated([ranked[i]][1..]);
    assert [ranked[i]][1..] == [];
    assert Hydrated([ranked[i]]) == ranked[i];
  }

  /**
   The two ways of searching agree on every page exactly when every ranked row has one full
   row, down to a rank after which no row has any.
   */
  lemma TwoPhasesIff<T>(ranked: seq<seq<T>>)
    ensures AgreeOnAllPages(ranked) <==> exists k: nat :: SinglesThenNone(ranked, k)
  {
    if AgreeOnAllPages(ranked) {
      forall i | 0 <= i < |ranked| ensures |ranked[i]| == if i < |Hydrated(ranked)| then 1 else 0 {
        AgreeingRank(ranked, i);
      }
      var k := if |Hydrated(ranked)| < |ranked| then |Hydrated(ranked)| else |ranked|;
      assert SinglesThenNone(ranked, k);
    }
    if k: nat :| SinglesThenNone(ranked, k) {
      forall offset, max ensures TwoPhases(ranked, offset, max) == OneQuery(ranked, offset, max) {
        TwoPhasesOfSingles(ranked, k, offset, max);
      }
    }
  }
}
