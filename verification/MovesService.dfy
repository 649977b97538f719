/**
 The methods of phase 2, on the media file table they change.
 */
module MovesService {
  import opened Options
  import opened MovesModel
  import opened MovesMatching
  import opened MovesPhase

  // ----- produce -----

  /** What the streaming loop has after some rows: the groups closed so far, and the open one. */
  ghost predicate Streaming(seen: seq<Track>, groups: seq<Group>, open: Group) {
    && open == GroupOf(seen, open.pid)
    && (if seen == [] then open.pid == NO_PID else open.pid == seen[|seen| - 1].pid)
    && (forall i :: 0 <= i < |groups| ==>
          groups[i].pid != NO_PID && groups[i].missing != [] && groups[i].pid != open.pid && groups[i] == GroupOf(seen, groups[i].pid))
    && (forall i, j :: 0 <= i < j < |groups| ==> groups[i].pid != groups[j].pid)
    && InTurn(seen, Pids(groups) + [open.pid])
    && (forall i :: 0 <= i < |seen| && seen[i].pid != NO_PID && seen[i].missing ==>
          seen[i].pid == open.pid || exists k :: 0 <= k < |groups| && groups[k].pid == seen[i].pid)
  }

  /** putIfMatched. */
  function Close(groups: seq<Group>, open: Group): seq<Group> {
    if open.pid != NO_PID && open.missing != [] then groups + [open] else groups
  }

  function Add(g: Group, mf: Track): Group {
    if mf.missing then g.(missing := g.missing + [mf]) else g.(matched := g.matched + [mf])
  }

  lemma AddIsGroup(cursor: seq<Track>, i: nat, g: Group)
    requires i < |cursor| && g == GroupOf(cursor[..i], g.pid) && cursor[i].pid == g.pid
    ensures Add(g, cursor[i]) == GroupOf(cursor[..i + 1], g.pid)
  {
    HavingNext(cursor, i, g.pid, true);
    HavingNext(cursor, i, g.pid, false);
  }

  lemma OtherGroupStays(cursor: seq<Track>, i: nat, g: Group)
    requires i < |cursor| && g == GroupOf(cursor[..i], g.pid) && cursor[i].pid != g.pid
    ensures g == GroupOf(cursor[..i + 1], g.pid)
  {
    HavingNext(cursor, i, g.pid, true);
    HavingNext(cursor, i, g.pid, false);
  }

  /** A pid that differs from the previous row's has not occurred before. */
  lemma NewPidIsNew(cursor: seq<Track>, i: nat, k: nat)
    requires Clustered(cursor) && k < i < |cursor| && cursor[i].pid != cursor[i - 1].pid
    ensures cursor[k].pid != cursor[i].pid
  {
  }

  lemma NewGroupStarts(cursor: seq<Track>, i: nat)
    requires Clustered(cursor) && i < |cursor| && (i > 0 ==> cursor[i].pid != cursor[i - 1].pid)
    ensures GroupOf(cursor[..i], cursor[i].pid) == Group(cursor[i].pid, [], [])
  {
    forall k | 0 <= k < i ensures cursor[..i][k].pid != cursor[i].pid {
      NewPidIsNew(cursor, i, k);
    }
    HavingNone(cursor[..i], cursor[i].pid, true);
    HavingNone(cursor[..i], cursor[i].pid, false);
  }

  lemma SamePidStreams(cursor: seq<Track>, i: nat, groups: seq<Group>, open: Group)
    requires i < |cursor| && Streaming(cursor[..i], groups, open) && cursor[i].pid == open.pid
    ensures Streaming(cursor[..i + 1], groups, Add(open, cursor[i]))
  {
    AddIsGroup(cursor, i, open);
    forall k | 0 <= k < |groups| ensures groups[k] == GroupOf(cursor[..i + 1], groups[k].pid) {
      OtherGroupStays(cursor, i, groups[k]);
    }
    hide GroupOf;
    assert forall k :: 0 <= k < i ==> cursor[..i + 1][k] == cursor[..i][k];
  }

  lemma ClosedStays(cursor: seq<Track>, i: nat, groups: seq<Group>, open: Group, g: Group)
    requires Clustered(cursor) && i < |cursor| && Streaming(cursor[..i], groups, open) && cursor[i].pid != open.pid
    requires g in Close(groups, open)
    ensures g.pid != NO_PID && g.missing != [] && g.pid != cursor[i].pid && g == GroupOf(cursor[..i + 1], g.pid)
  {
    hide Clustered, GroupOf;
    assert g.pid != NO_PID && g.missing != [] && g == GroupOf(cursor[..i], g.pid);
    var at := PidHasOccurred(cursor[..i], g);
    assert cursor[at].pid == g.pid;
    assert i > 0 && cursor[..i][i - 1] == cursor[i - 1];
    NewPidIsNew(cursor, i, at);
    OtherGroupStays(cursor, i, g);
  }

  lemma ClosedApart(seen: seq<Track>, groups: seq<Group>, open: Group)
    requires Streaming(seen, groups, open)
    ensures var closed := Close(groups, open); forall k, l :: 0 <= k < l < |closed| ==> closed[k].pid != closed[l].pid
  {
    hide GroupOf;
  }

  lemma ClosedCovers(seen: seq<Track>, groups: seq<Group>, open: Group, k: nat)
    requires Streaming(seen, groups, open) && k < |seen| && seen[k].pid != NO_PID && seen[k].missing
    ensures exists g :: g in Close(groups, open) && g.pid == seen[k].pid
  {
    var closed := Close(groups, open);
    if seen[k].pid == open.pid {
      HavingHas(seen, open.pid, true);
      assert seen[k] in Having(seen, open.pid, true);
      assert open in closed;
    } else {
      hide GroupOf;
      var j :| 0 <= j < |groups| && groups[j].pid == seen[k].pid;
      assert groups[j] in closed;
    }
  }

  lemma PidsOfClosed(groups: seq<Group>, open: Group)
    ensures Pids(Close(groups, open)) <= Pids(groups) + [open.pid]
  {
  }

  lemma StillBefore(cursor: seq<Track>, i: nat, p: Pid, q: Pid)
    requires i < |cursor| && p != cursor[i].pid
    requires if q == cursor[i].pid then forall k :: 0 <= k < i ==> cursor[k].pid != q else StandsBefore(cursor[..i], p, q)
    ensures StandsBefore(cursor[..i + 1], p, q)
  {
    var now := cursor[..i + 1];
    forall a, b | 0 <= a < |now| && 0 <= b < |now| && now[a].pid == p && now[b].pid == q ensures a < b {
      assert a < i && cursor[..i][a] == cursor[a];
      assert b < i ==> cursor[..i][b] == cursor[b];
    }
  }

  lemma TurnsGoOn(cursor: seq<Track>, i: nat, groups: seq<Group>, open: Group)
    requires Clustered(cursor) && i < |cursor| && Streaming(cursor[..i], groups, open) && cursor[i].pid != open.pid
    ensures InTurn(cursor[..i + 1], Pids(Close(groups, open)) + [cursor[i].pid])
  {
    var pid, closed := cursor[i].pid, Close(groups, open);
    var pids := Pids(closed) + [pid];
    PidsOfClosed(groups, open);
    assert i > 0 ==> cursor[..i][i - 1] == cursor[i - 1];
    forall k | 0 <= k < i ensures cursor[k].pid != pid {
      NewPidIsNew(cursor, i, k);
    }
    forall k | 0 <= k < |closed| ensures closed[k].pid != pid {
      ClosedStays(cursor, i, groups, open, closed[k]);
    }
    forall j, k | 0 <= j < k < |pids| ensures StandsBefore(cursor[..i + 1], pids[j], pids[k]) {
      assert pids[j] == closed[j].pid;
      if k < |closed| {
        assert pids[j] == (Pids(groups) + [open.pid])[j] && pids[k] == (Pids(groups) + [open.pid])[k];
      }
      StillBefore(cursor, i, pids[j], pids[k]);
    }
  }

  lemma NewPidStreams(cursor: seq<Track>, i: nat, groups: seq<Group>, open: Group)
    requires Clustered(cursor) && i < |cursor| && Streaming(cursor[..i], groups, open) && cursor[i].pid != open.pid
    ensures Streaming(cursor[..i + 1], Close(groups, open), Add(Group(cursor[i].pid, [], []), cursor[i]))
  {
    var pid, closed := cursor[i].pid, Close(groups, open);
    assert i > 0 ==> cursor[..i][i - 1] == cursor[i - 1];
    NewGroupStarts(cursor, i);
    AddIsGroup(cursor, i, Group(pid, [], []));
    ClosedApart(cursor[..i], groups, open);
    TurnsGoOn(cursor, i, groups, open);
    forall k | 0 <= k < |closed|
      ensures closed[k].pid != NO_PID && closed[k].missing != []
      ensures closed[k].pid != pid && closed[k] == GroupOf(cursor[..i + 1], closed[k].pid)
    {
      ClosedStays(cursor, i, groups, open, closed[k]);
    }
    forall k | 0 <= k <= i && cursor[k].pid != NO_PID && cursor[k].missing && cursor[k].pid != pid
      ensures exists j :: 0 <= j < |closed| && closed[j].pid == cursor[k].pid
    {
      assert cursor[..i][k] == cursor[k];
      ClosedCovers(cursor[..i], groups, open, k);
    }
    hide GroupOf, Close, Clustered;
  }

  lemma StreamEnds(cursor: seq<Track>, groups: seq<Group>, open: Group)
    requires Streaming(cursor, groups, open)
    ensures GroupsOf(cursor, Close(groups, open))
  {
    ClosedApart(cursor, groups, open);
    PidsOfClosed(groups, open);
    forall i | 0 <= i < |cursor| && cursor[i].pid != NO_PID && cursor[i].missing
      ensures exists g :: g in Close(groups, open) && g.pid == cursor[i].pid
    {
      ClosedCovers(cursor, groups, open, i);
    }
  }

  /** produce, for one library: one pass over the cursor, one group in hand at a time. */
  method Produce(cursor: seq<Track>) returns (groups: seq<Group>)
    requires Clustered(cursor)
    ensures GroupsOf(cursor, groups)
  {
    groups := [];
    var mt := Group(NO_PID, [], []);
    for i := 0 to |cursor|
      invariant Streaming(cursor[..i], groups, mt)
    {
      hide Streaming, Clustered;
      var mf := cursor[i];
      if mt.pid != mf.pid {
        NewPidStreams(cursor, i, groups, mt);
        groups := Close(groups, mt);
        mt := Group(mf.pid, [], []);
      } else {
        SamePidStreams(cursor, i, groups, mt);
      }
      mt := if mf.missing then mt.(missing := mt.missing + [mf]) else mt.(matched := mt.matched + [mf]);
    }
    assert cursor[..|cursor|] == cursor;
    StreamEnds(cursor, groups, mt);
    groups := Close(groups, mt);
  }

  // ----- processMissingTracks -----

  /** The state of the inner loop, which stops at the first exact match. */
  lemma ScanExact(ms: Track, matched: seq<Track>, used: set<Id>, i: nat)
    requires i < |matched| && matched[i].id !in used && ms.Equals(matched[i])
    requires forall j :: 0 <= j < i ==> matched[j].id in used || !ms.Equals(matched[j])
    ensures ExactMatch(ms, matched, used) == Some(matched[i])
  {
    if i > 0 {
      assert matched[1..][i - 1] == matched[i];
      forall j | 0 <= j < i - 1 ensures matched[1..][j].id in used || !ms.Equals(matched[1..][j]) {
        assert matched[1..][j] == matched[j + 1];
      }
      ScanExact(ms, matched[1..], used, i - 1);
    }
  }

  lemma NoExactMatch(ms: Track, matched: seq<Track>, used: set<Id>)
    requires forall j :: 0 <= j < |matched| ==> matched[j].id in used || !ms.Equals(matched[j])
    ensures ExactMatch(ms, matched, used).None?
  {
    ExactMatchIsFirst(ms, matched, used);
  }

  lemma EquivalentNext(ms: Track, matched: seq<Track>, used: set<Id>, i: nat)
    requires i < |matched|
    ensures EquivalentMatch(ms, matched[..i + 1], used) ==
              if matched[i].id !in used && ms.Equivalent(matched[i]) then Some(matched[i])
              else EquivalentMatch(ms, matched[..i], used)
  {
    assert matched[..i + 1][..i] == matched[..i];
  }

  class MissingTracks {
    var table: Table
    var totalMatched: nat
    var reassigned: map<Id, Id>

    /** The two candidates for a missing track; an exact one ends the search. */
    method FindMatches(ms: Track, matched: seq<Track>, used: set<Id>) returns (exact: Option<Track>, equivalent: Option<Track>)
      ensures exact == ExactMatch(ms, matched, used)
      ensures exact.None? ==> equivalent == EquivalentMatch(ms, matched, used)
    {
      equivalent := None;
      for i := 0 to |matched|
        invariant equivalent == EquivalentMatch(ms, matched[..i], used)
        invariant forall j :: 0 <= j < i ==> matched[j].id in used || !ms.Equals(matched[j])
      {
        EquivalentNext(ms, matched, used, i);
        var mt := matched[i];
        if mt.id in used {
          continue;
        }
        if ms.Equals(mt) {
          ScanExact(ms, matched, used, i);
          return Some(mt), equivalent;
        }
        if ms.Equivalent(mt) {
          equivalent := Some(mt);
        }
      }
      assert matched[..|matched|] == matched;
      NoExactMatch(ms, matched, used);
      exact := None;
    }

    /** put: an update if the row exists, an insert otherwise. */
    method PutRow(m: Track)
      modifies `table
      ensures table == Put(old(table), m)
      ensures table.Keys == old(table).Keys + {m.id}
      ensures m.id in old(table) ==> table[m.id].createdAt == old(table)[m.id].createdAt && table[m.id].birthTime == old(table)[m.id].birthTime
      ensures forall id :: id in old(table) && id != m.id ==> table[id] == old(table)[id]
    {
      if m.id in table {
        var row := table[m.id];
        table := table[m.id := m.(createdAt := row.createdAt, birthTime := row.birthTime)];
      } else {
        table := table[m.id := m];
      }
    }

    /** moveMatched, in one transaction: all of it happens, or nothing. */
    method MoveMatched(target: Track, missing: Track, commits: bool) returns (ok: bool)
      modifies `table, `reassigned
      ensures ok == commits
      ensures table == (if ok then Moved(old(table), target, missing) else old(table))
      ensures reassigned == (if ok then Reassign(old(reassigned), target, missing) else old(reassigned))
      ensures ok ==> TakesOver(old(reassigned), reassigned, missing, target)
      ensures ok && missing.id in old(table) && old(table)[missing.id] == missing && missing.id != target.id ==>
                TakesRow(old(table), table, missing, target)
    {
      if !commits {
        return false;
      }
      PutRow(target.(createdAt := missing.createdAt, id := missing.id));
      table := table - {target.id};
      if missing.album != target.album && target.album !in reassigned {
        reassigned := reassigned[target.album := missing.album];
      }
      return true;
    }

    /** processMissingTracks; a transaction that fails ends it, with the moves made so far. */
    method ProcessMissingTracks(g: Group, failing: set<Id>) returns (ok: bool, hasMatches: bool, ghost n: nat)
      modifies this
      ensures n <= |g.missing| && (ok ==> n == |g.missing|)
      ensures var p := After(g, old(table), old(reassigned), n);
              && table == p.table && reassigned == p.reassigned && totalMatched == old(totalMatched) + |p.pairs|
              && (ok ==> hasMatches == (p.pairs != []))
      ensures !ok ==> n < |g.missing| && g.missing[n].id in failing
      ensures failing == {} ==> ok
    {
      ghost var before, first := table, reassigned;
      var used: set<Id> := {};
      hasMatches := false;
      ghost var p := After(g, before, first, 0);
      for i := 0 to |g.missing|
        invariant p == After(g, before, first, i)
        invariant table == p.table && reassigned == p.reassigned && used == p.used
        invariant totalMatched == old(totalMatched) + |p.pairs|
        invariant hasMatches == (p.pairs != [])
      {
        hide Moved, Reassign, After;
        var ms := g.missing[i];
        var exact, equivalent := FindMatches(ms, g.matched, used);
        var choice := exact;
        if exact.None? {
          if |g.missing| == 1 && |g.matched| == 1 && g.matched[0].id !in used {
            choice := Some(g.matched[0]);
          } else {
            choice := equivalent;
          }
        }
        assert choice == Choice(ms, g, used);
        TurnIs(g, before, first, i, p);
        n := i;
        if choice.Some? {
          var moved := MoveMatched(choice.value, ms, ms.id !in failing);
          if !moved {
            return false, hasMatches, n;
          }
          used := used + {choice.value.id};
          totalMatched := totalMatched + 1;
          hasMatches := true;
        }
        p := Turn(g, p, ms);
      }
      return true, hasMatches, |g.missing|;
    }

    /**
     The phase: the groups, one after the other. A transaction that fails ends it, with the
     groups before it done and its own group done in part.
     */
    method ProcessAll(groups: seq<Group>, failing: set<Id>) returns (ok: bool, ghost k: nat, ghost n: nat)
      modifies this
      ensures k <= |groups| && (ok <==> k == |groups|)
      ensures !ok ==> n < |groups[k].missing| && groups[k].missing[n].id in failing
      ensures Phase(table, totalMatched, reassigned) == Stopped(groups, old(Phase(table, totalMatched, reassigned)), k, n)
      ensures failing == {} ==> ok
    {
      ghost var s := Phase(table, totalMatched, reassigned);
      assert groups[..0] == [];
      hide After;
      for i := 0 to |groups|
        invariant Phase(table, totalMatched, reassigned) == AllDone(groups[..i], s)
      {
        PrefixDone(groups, s, i);
        var done, hasMatches, turns := ProcessMissingTracks(groups[i], failing);
        if !done {
          return false, i, turns;
        }
      }
      assert groups[..|groups|] == groups;
      return true, |groups|, 0;
    }
  }

  lemma TurnIs(g: Group, table: Table, reassigned: map<Id, Id>, i: nat, p: Progress)
    requires i < |g.missing| && p == After(g, table, reassigned, i)
    ensures After(g, table, reassigned, i + 1) == Turn(g, p, g.missing[i])
  {
  }
}
