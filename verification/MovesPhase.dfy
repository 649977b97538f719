/**
 Phase 2 as a whole: the cursor is cut into groups as it streams by, the groups are worked
 off one after the other, and the methods do what the specification says.
 */
module MovesPhase {
  import opened MovesModel
  import opened MovesMatching

  // ----- Groups -----

  lemma {:induction false} HavingHas(cursor: seq<Track>, pid: Pid, missing: bool)
    ensures forall m :: m in Having(cursor, pid, missing) <==> m in cursor && m.pid == pid && m.missing == missing
  {
    if cursor != [] {
      HavingHas(cursor[..|cursor| - 1], pid, missing);
      assert forall m :: m in cursor <==> m in cursor[..|cursor| - 1] || m == cursor[|cursor| - 1];
    }
  }

  lemma {:induction false} HavingNone(cursor: seq<Track>, pid: Pid, missing: bool)
    requires forall i :: 0 <= i < |cursor| ==> cursor[i].pid != pid
    ensures Having(cursor, pid, missing) == []
  {
    if cursor != [] {
      HavingNone(cursor[..|cursor| - 1], pid, missing);
    }
  }

  lemma HavingNext(cursor: seq<Track>, i: nat, pid: Pid, missing: bool)
    requires i < |cursor|
    ensures Having(cursor[..i + 1], pid, missing) ==
              Having(cursor[..i], pid, missing) + if cursor[i].pid == pid && cursor[i].missing == missing then [cursor[i]] else []
  {
    assert cursor[..i + 1][..i] == cursor[..i];
  }

  /** The rows at the positions picked, which are all of the kind, in the order of the cursor. */
  ghost predicate PicksRows(picks: seq<nat>, cursor: seq<Track>, pid: Pid, missing: bool, rows: seq<Track>) {
    && |picks| == |rows|
    && (forall i, j :: 0 <= i < j < |picks| ==> picks[i] < picks[j])
    && (forall i :: 0 <= i < |picks| ==> picks[i] < |cursor| && cursor[picks[i]] == rows[i])
    && (forall k :: k in picks <==> 0 <= k < |cursor| && cursor[k].pid == pid && cursor[k].missing == missing)
  }

  lemma PicksOneMore(picks: seq<nat>, cursor: seq<Track>, pid: Pid, missing: bool, rows: seq<Track>, row: Track)
    requires PicksRows(picks, cursor, pid, missing, rows)
    ensures if row.pid == pid && row.missing == missing then
              PicksRows(picks + [|cursor|], cursor + [row], pid, missing, rows + [row])
            else
              PicksRows(picks, cursor + [row], pid, missing, rows)
  {
    var longer := cursor + [row];
    assert forall k :: 0 <= k < |cursor| ==> longer[k] == cursor[k];
    assert forall i :: 0 <= i < |picks| ==> picks[i] in picks;
    assert forall k :: k in picks + [|cursor|] <==> k in picks || k == |cursor|;
  }

  lemma FrontAndLast(cursor: seq<Track>, pid: Pid, missing: bool)
    requires cursor != []
    ensures var front, last := cursor[..|cursor| - 1], cursor[|cursor| - 1];
            && cursor == front + [last]
            && Having(cursor, pid, missing) ==
                 if last.pid == pid && last.missing == missing then Having(front, pid, missing) + [last] else Having(front, pid, missing)
  {
  }

  lemma {:induction false} HavingPicks(cursor: seq<Track>, pid: Pid, missing: bool) returns (picks: seq<nat>)
    ensures PicksRows(picks, cursor, pid, missing, Having(cursor, pid, missing))
  {
    picks := [];
    if cursor != [] {
      hide PicksRows, Having;
      var front, last := cursor[..|cursor| - 1], cursor[|cursor| - 1];
      picks := HavingPicks(front, pid, missing);
      PicksOneMore(picks, front, pid, missing, Having(front, pid, missing), last);
      FrontAndLast(cursor, pid, missing);
      if last.pid == pid && last.missing == missing {
        picks := picks + [|front|];
      }
    }
  }

  /** A group's tracks are the rows of its pid, in the order of the cursor. */
  lemma HavingInOrder(cursor: seq<Track>, pid: Pid, missing: bool)
    ensures exists picks: seq<nat> :: PicksRows(picks, cursor, pid, missing, Having(cursor, pid, missing))
  {
    var picks := HavingPicks(cursor, pid, missing);
  }

  predicate DistinctIds(tracks: seq<Track>) {
    forall i, j :: 0 <= i < j < |tracks| ==> tracks[i].id != tracks[j].id
  }

  lemma OneMoreDistinct(tracks: seq<Track>, track: Track)
    requires DistinctIds(tracks) && forall i :: 0 <= i < |tracks| ==> tracks[i].id != track.id
    ensures DistinctIds(tracks + [track])
  {
  }

  lemma {:induction false} HavingDistinct(cursor: seq<Track>, pid: Pid, missing: bool)
    requires DistinctIds(cursor)
    ensures DistinctIds(Having(cursor, pid, missing))
  {
    if cursor != [] {
      var front, last := cursor[..|cursor| - 1], cursor[|cursor| - 1];
      HavingDistinct(front, pid, missing);
      HavingHas(front, pid, missing);
      var h := Having(front, pid, missing);
      forall i | 0 <= i < |h| ensures h[i].id != last.id {
        assert h[i] in h;
        var j :| 0 <= j < |front| && front[j] == h[i];
        assert cursor[j].id != cursor[|cursor| - 1].id;
      }
      OneMoreDistinct(h, last);
    }
  }

  /** The cursor's rows are rows of the table, each once. */
  ghost predicate Reads(cursor: seq<Track>, t: Table) {
    && (forall i :: 0 <= i < |cursor| ==> cursor[i].id in t && t[cursor[i].id] == cursor[i])
    && DistinctIds(cursor)
  }

  ghost predicate GroupsDrawn(groups: seq<Group>, t: Table) {
    && (forall i :: 0 <= i < |groups| ==> Drawn(groups[i], t) && OfPid(groups[i]))
    && (forall i, j :: 0 <= i < j < |groups| ==> groups[i].pid != groups[j].pid)
  }

  ghost predicate OfPid(g: Group) {
    && (forall i :: 0 <= i < |g.missing| ==> g.missing[i].pid == g.pid)
    && (forall i :: 0 <= i < |g.matched| ==> g.matched[i].pid == g.pid)
  }

  lemma GroupsOfAreDrawn(cursor: seq<Track>, groups: seq<Group>, t: Table)
    requires Reads(cursor, t) && GroupsOf(cursor, groups)
    ensures GroupsDrawn(groups, t)
  {
    forall i | 0 <= i < |groups| ensures Drawn(groups[i], t) && OfPid(groups[i]) {
      var g := groups[i];
      assert g in groups;
      HavingHas(cursor, g.pid, true);
      HavingHas(cursor, g.pid, false);
      HavingDistinct(cursor, g.pid, true);
      HavingDistinct(cursor, g.pid, false);
      forall k | 0 <= k < |g.missing| ensures g.missing[k] in cursor && g.missing[k].missing && g.missing[k].pid == g.pid {
        assert g.missing[k] in Having(cursor, g.pid, true);
      }
      forall k | 0 <= k < |g.matched| ensures g.matched[k] in cursor && !g.matched[k].missing && g.matched[k].pid == g.pid {
        assert g.matched[k] in Having(cursor, g.pid, false);
      }
    }
  }

  /** A library's groups after those of others: a track's pid contains its library, so no pid occurs twice. */
  lemma NextLibraryIsDrawn(groups: seq<Group>, cursor: seq<Track>, more: seq<Group>, t: Table)
    requires GroupsDrawn(groups, t) && Reads(cursor, t) && GroupsOf(cursor, more)
    requires forall i, k :: 0 <= i < |groups| && 0 <= k < |cursor| ==> groups[i].pid != cursor[k].pid
    ensures GroupsDrawn(groups + more, t)
  {
    GroupsOfAreDrawn(cursor, more, t);
    hide Drawn, Reads, GroupOf;
    forall i, j | 0 <= i < |groups| && 0 <= j < |more| ensures groups[i].pid != more[j].pid {
      assert more[j] in more;
      var k := PidHasOccurred(cursor, more[j]);
    }
    hide GroupsOf, OfPid;
    assert forall i :: 0 <= i < |groups + more| ==> (groups + more)[i] == if i < |groups| then groups[i] else more[i - |groups|];
  }

  lemma PidHasOccurred(cursor: seq<Track>, g: Group) returns (k: nat)
    requires g == GroupOf(cursor, g.pid) && g.missing != []
    ensures k < |cursor| && cursor[k].pid == g.pid
  {
    HavingHas(cursor, g.pid, true);
    assert g.missing[0] in Having(cursor, g.pid, true);
    k :| 0 <= k < |cursor| && cursor[k] == g.missing[0];
  }

  // ----- All groups -----

  datatype Phase = Phase(table: Table, total: nat, reassigned: map<Id, Id>)

  /** A group of which the first n missing tracks have had their turns. */
  function PartlyDone(g: Group, s: Phase, n: nat): Phase
    requires n <= |g.missing|
  {
    var p := After(g, s.table, s.reassigned, n);
    Phase(p.table, s.total + |p.pairs|, p.reassigned)
  }

  function GroupDone(g: Group, s: Phase): Phase {
    PartlyDone(g, s, |g.missing|)
  }

  function AllDone(groups: seq<Group>, s: Phase): Phase {
    if groups == [] then s
    else GroupDone(groups[|groups| - 1], AllDone(groups[..|groups| - 1], s))
  }

  /** The phase stops in the group with index k, after n of its missing tracks, or goes through all of them. */
  function Stopped(groups: seq<Group>, s: Phase, k: nat, n: nat): Phase
    requires k <= |groups| && (k < |groups| ==> n <= |groups[k].missing|)
  {
    if k == |groups| then AllDone(groups, s) else PartlyDone(groups[k], AllDone(groups[..k], s), n)
  }

  /** The rows of other pids are not concerned by a group. */
  lemma OtherRowsKept(g: Group, t: Table, reassigned: map<Id, Id>, n: nat, id: Id)
    requires n <= |g.missing| && Drawn(g, t) && OfPid(g) && id in t && t[id].pid != g.pid
    ensures var p := After(g, t, reassigned, n); id in p.table && p.table[id] == t[id]
  {
    RowsAfter(g, t, reassigned, n);
    PairsAreInjective(g, t, reassigned, n);
    var p := After(g, t, reassigned, n);
    hide After;
    forall k | 0 <= k < |p.pairs| ensures p.pairs[k].0.id != id && p.pairs[k].1.id != id {
      assert t[p.pairs[k].0.id].pid == g.pid && t[p.pairs[k].1.id].pid == g.pid;
    }
    assert Unpaired(p.pairs, id);
  }

  lemma StillDrawn(g: Group, h: Group, t: Table, reassigned: map<Id, Id>, n: nat)
    requires n <= |g.missing| && Drawn(g, t) && OfPid(g) && Drawn(h, t) && OfPid(h) && g.pid != h.pid
    ensures Drawn(h, After(g, t, reassigned, n).table)
  {
    hide After;
    forall i | 0 <= i < |h.missing|
      ensures h.missing[i].id in After(g, t, reassigned, n).table
      ensures After(g, t, reassigned, n).table[h.missing[i].id] == h.missing[i]
    {
      OtherRowsKept(g, t, reassigned, n, h.missing[i].id);
    }
    forall i | 0 <= i < |h.matched|
      ensures h.matched[i].id in After(g, t, reassigned, n).table
      ensures After(g, t, reassigned, n).table[h.matched[i].id] == h.matched[i]
    {
      OtherRowsKept(g, t, reassigned, n, h.matched[i].id);
    }
  }

  /**
   Some groups have been worked off: as many rows are gone as tracks have moved, none of them
   a missing one; paths are still distinct; and the rows of other pids are as they were.
   */
  ghost predicate PhaseValid(groups: seq<Group>, before: Phase, s: Phase) {
    && TableValid(s.table) && DistinctPaths(s.table)
    && s.table.Keys <= before.table.Keys
    && |before.table| - |s.table| == s.total - before.total
    && MissingKept(before.table, s.table)
    && PidsKept(before.table, s.table)
    && UnconcernedKept(groups, before.table, s.table)
  }

  ghost predicate MissingKept(before: Table, table: Table) {
    forall id :: id in before && before[id].missing ==> id in table
  }

  ghost predicate PidsKept(before: Table, table: Table) {
    forall id :: id in table ==> id in before && table[id].pid == before[id].pid
  }

  ghost predicate UnconcernedKept(groups: seq<Group>, before: Table, table: Table) {
    forall id :: id in before && NoGroupOf(groups, before[id].pid) ==> id in table && table[id] == before[id]
  }

  predicate NoGroupOf(groups: seq<Group>, pid: Pid) {
    forall i :: 0 <= i < |groups| ==> groups[i].pid != pid
  }

  lemma {:induction false} LaterGroupsDrawn(groups: seq<Group>, s: Phase, k: nat)
    requires GroupsDrawn(groups, s.table) && k <= |groups|
    ensures forall i :: k <= i < |groups| ==> Drawn(groups[i], AllDone(groups[..k], s).table)
  {
    hide Drawn, After;
    if k == 0 {
      assert groups[..0] == [];
    } else {
      LaterGroupsDrawn(groups, s, k - 1);
      assert groups[..k][..k - 1] == groups[..k - 1];
      var t := AllDone(groups[..k - 1], s);
      forall i | k <= i < |groups| ensures Drawn(groups[i], AllDone(groups[..k], s).table) {
        StillDrawn(groups[k - 1], groups[i], t.table, t.reassigned, |groups[k - 1].missing|);
      }
    }
  }

  /** A group consumes rows that were not missing only. */
  lemma GroupKeepsMissing(g: Group, t: Table, reassigned: map<Id, Id>, n: nat, id: Id)
    requires n <= |g.missing| && Drawn(g, t) && id in t && t[id].missing
    ensures id in After(g, t, reassigned, n).table
  {
    RowsAfter(g, t, reassigned, n);
    PairsAreInjective(g, t, reassigned, n);
    var p := After(g, t, reassigned, n);
    hide After;
    forall used | used in p.used ensures used != id {
      var k :| 0 <= k < |p.pairs| && p.pairs[k].1.id == used;
      assert !t[used].missing;
    }
  }

  lemma PairedKeepsPid(g: Group, t: Table, p: Progress, k: nat)
    requires Drawn(g, t) && OfPid(g) && PairsValid(g, p.pairs, p.used) && RowsValid(t, p.table, p.pairs, p.used) && k < |p.pairs|
    ensures var id := p.pairs[k].0.id; id in t && id in p.table && p.table[id].pid == t[id].pid
  {
  }

  lemma GroupKeepsPids(g: Group, t: Table, reassigned: map<Id, Id>, n: nat, id: Id)
    requires n <= |g.missing| && Drawn(g, t) && OfPid(g) && id in After(g, t, reassigned, n).table
    ensures id in t && After(g, t, reassigned, n).table[id].pid == t[id].pid
  {
    RowsAfter(g, t, reassigned, n);
    PairsAreInjective(g, t, reassigned, n);
    var p := After(g, t, reassigned, n);
    hide After, Drawn, OfPid, PairsValid;
    if !Unpaired(p.pairs, id) {
      var k :| 0 <= k < |p.pairs| && p.pairs[k].0.id == id;
      PairedKeepsPid(g, t, p, k);
    }
  }

  lemma MissingSurvives(groups: seq<Group>, g: Group, before: Phase, s: Phase, n: nat)
    requires n <= |g.missing| && PhaseValid(groups, before, s) && Drawn(g, s.table) && OfPid(g) && NoGroupOf(groups, g.pid)
    ensures MissingKept(before.table, PartlyDone(g, s, n).table)
  {
    hide After, Drawn, OfPid, DistinctPaths, TableValid;
    forall id | id in before.table && before.table[id].missing ensures id in PartlyDone(g, s, n).table {
      if before.table[id].pid == g.pid {
        assert s.table[id] == before.table[id];
        GroupKeepsMissing(g, s.table, s.reassigned, n, id);
      } else {
        OtherRowsKept(g, s.table, s.reassigned, n, id);
      }
    }
  }

  lemma PidsSurvive(groups: seq<Group>, g: Group, before: Phase, s: Phase, n: nat)
    requires n <= |g.missing| && PhaseValid(groups, before, s) && Drawn(g, s.table) && OfPid(g)
    ensures PidsKept(before.table, PartlyDone(g, s, n).table)
  {
    hide After, Drawn, OfPid, DistinctPaths, TableValid, MissingKept, UnconcernedKept;
    forall id | id in PartlyDone(g, s, n).table
      ensures id in before.table && PartlyDone(g, s, n).table[id].pid == before.table[id].pid
    {
      GroupKeepsPids(g, s.table, s.reassigned, n, id);
    }
  }

  lemma UnconcernedSurvive(groups: seq<Group>, g: Group, before: Phase, s: Phase, n: nat)
    requires n <= |g.missing| && PhaseValid(groups, before, s) && Drawn(g, s.table) && OfPid(g)
    ensures UnconcernedKept(groups + [g], before.table, PartlyDone(g, s, n).table)
  {
    hide After, Drawn, OfPid, DistinctPaths, TableValid, MissingKept, PidsKept;
    forall id | id in before.table && NoGroupOf(groups + [g], before.table[id].pid)
      ensures id in PartlyDone(g, s, n).table && PartlyDone(g, s, n).table[id] == before.table[id]
    {
      assert (groups + [g])[|groups|] == g;
      assert forall i :: 0 <= i < |groups| ==> (groups + [g])[i] == groups[i];
      assert NoGroupOf(groups, before.table[id].pid);
      OtherRowsKept(g, s.table, s.reassigned, n, id);
    }
  }

  /** One more group, or a part of it. */
  lemma GroupKeepsPhase(groups: seq<Group>, g: Group, before: Phase, s: Phase, n: nat)
    requires n <= |g.missing| && PhaseValid(groups, before, s) && Drawn(g, s.table) && OfPid(g) && NoGroupOf(groups, g.pid)
    ensures PhaseValid(groups + [g], before, PartlyDone(g, s, n))
  {
    hide After, Drawn, OfPid, DistinctPaths, TableValid, NoGroupOf, Unpaired, MissingKept, PidsKept, UnconcernedKept;
    IdentitiesSurvive(g, s.table, s.reassigned, n);
    PathsStayDistinct(g, s.table, s.reassigned, n);
    MissingSurvives(groups, g, before, s, n);
    PidsSurvive(groups, g, before, s, n);
    UnconcernedSurvive(groups, g, before, s, n);
  }

  lemma NothingDone(s: Phase)
    requires TableValid(s.table) && DistinctPaths(s.table)
    ensures PhaseValid([], s, s)
  {
    hide DistinctPaths;
    assert forall pid :: NoGroupOf([], pid);
  }

  lemma PidIsNew(groups: seq<Group>, s: Phase, k: nat)
    requires GroupsDrawn(groups, s.table) && k < |groups|
    ensures NoGroupOf(groups[..k], groups[k].pid) && OfPid(groups[k])
  {
    hide Drawn, OfPid;
  }

  lemma PrefixDone(groups: seq<Group>, s: Phase, k: nat)
    requires k < |groups|
    ensures AllDone(groups[..k + 1], s) == GroupDone(groups[k], AllDone(groups[..k], s))
    ensures groups[..k + 1] == groups[..k] + [groups[k]]
  {
    hide GroupDone;
    assert groups[..k + 1][..k] == groups[..k];
  }

  lemma {:induction false} GroupsKeepPhase(groups: seq<Group>, s: Phase, k: nat)
    requires GroupsDrawn(groups, s.table) && TableValid(s.table) && DistinctPaths(s.table) && k <= |groups|
    ensures PhaseValid(groups[..k], s, AllDone(groups[..k], s))
  {
    hide GroupsDrawn, PhaseValid, DistinctPaths, TableValid, PartlyDone, NoGroupOf, Drawn, OfPid;
    if k == 0 {
      assert groups[..0] == [];
      NothingDone(s);
    } else {
      GroupsKeepPhase(groups, s, k - 1);
      LaterGroupsDrawn(groups, s, k - 1);
      PidIsNew(groups, s, k - 1);
      PrefixDone(groups, s, k - 1);
      GroupKeepsPhase(groups[..k - 1], groups[k - 1], s, AllDone(groups[..k - 1], s), |groups[k - 1].missing|);
    }
  }

  lemma MoreGroups(first: seq<Group>, groups: seq<Group>, before: Phase, s: Phase)
    requires PhaseValid(first, before, s) && first <= groups
    ensures PhaseValid(groups, before, s)
  {
    hide DistinctPaths, TableValid, MissingKept, PidsKept;
    forall pid | NoGroupOf(groups, pid) ensures NoGroupOf(first, pid) {
      assert forall i :: 0 <= i < |first| ==> first[i] == groups[i];
    }
  }

  /**
   The whole phase, group after group, wherever it stops: every missing track keeps its row,
   whether or not it was found again; as many rows are removed as tracks are reported as
   moved; and paths stay distinct.
   */
  lemma PhaseKeepsIdentities(groups: seq<Group>, s: Phase, k: nat, n: nat)
    requires GroupsDrawn(groups, s.table) && TableValid(s.table) && DistinctPaths(s.table)
    requires k <= |groups| && (k < |groups| ==> n <= |groups[k].missing|)
    ensures PhaseValid(groups, s, Stopped(groups, s, k, n))
  {
    hide GroupsDrawn, PhaseValid, DistinctPaths, TableValid, PartlyDone, NoGroupOf, Drawn, OfPid, AllDone;
    GroupsKeepPhase(groups, s, k);
    if k == |groups| {
      assert groups[..k] == groups;
    } else {
      LaterGroupsDrawn(groups, s, k);
      PidIsNew(groups, s, k);
      GroupKeepsPhase(groups[..k], groups[k], s, AllDone(groups[..k], s), n);
      MoreGroups(groups[..k] + [groups[k]], groups, s, Stopped(groups, s, k, n));
    }
  }
}
