/**
 What the greedy matching guarantees, after any number of a group's missing tracks and so
 also when it stops at an error: nothing is matched twice, and no identity is lost.
 */
module MovesMatching {
  import opened Options
  import opened MovesModel

  // ----- The choice for one track -----

  /** Unused, and the contents are equal. */
  predicate SameContents(ms: Track, target: Track, used: set<Id>) {
    target.id !in used && target.contents == ms.contents
  }

  /** Unused, and the files have the same base name. */
  predicate SameName(ms: Track, target: Track, used: set<Id>) {
    target.id !in used && target.baseName == ms.baseName
  }

  predicate IsFirstExact(ms: Track, matched: seq<Track>, used: set<Id>, i: nat) {
    i < |matched| && SameContents(ms, matched[i], used) && forall j :: 0 <= j < i ==> !SameContents(ms, matched[j], used)
  }

  predicate IsLastNamesake(ms: Track, matched: seq<Track>, used: set<Id>, i: nat) {
    i < |matched| && SameName(ms, matched[i], used) && forall j :: i < j < |matched| ==> !SameName(ms, matched[j], used)
  }

  lemma {:induction false} ExactMatchIsFirst(ms: Track, matched: seq<Track>, used: set<Id>)
    ensures var r := ExactMatch(ms, matched, used);
            if r.None? then forall i :: 0 <= i < |matched| ==> !SameContents(ms, matched[i], used)
            else exists i: nat :: IsFirstExact(ms, matched, used, i) && matched[i] == r.value
  {
    if matched != [] {
      var rest := matched[1..];
      ExactMatchIsFirst(ms, rest, used);
      var r := ExactMatch(ms, matched, used);
      assert forall j :: 0 < j < |matched| ==> matched[j] == rest[j - 1];
      if SameContents(ms, matched[0], used) {
        assert IsFirstExact(ms, matched, used, 0);
      } else if r.Some? {
        var i: nat :| IsFirstExact(ms, rest, used, i) && rest[i] == r.value;
        assert IsFirstExact(ms, matched, used, i + 1);
      }
    }
  }

  lemma {:induction false} EquivalentMatchIsLast(ms: Track, matched: seq<Track>, used: set<Id>)
    ensures var r := EquivalentMatch(ms, matched, used);
            if r.None? then forall i :: 0 <= i < |matched| ==> !SameName(ms, matched[i], used)
            else exists i: nat :: IsLastNamesake(ms, matched, used, i) && matched[i] == r.value
  {
    if matched != [] {
      var last := |matched| - 1;
      EquivalentMatchIsLast(ms, matched[..last], used);
      var r := EquivalentMatch(ms, matched, used);
      if SameName(ms, matched[last], used) {
        assert IsLastNamesake(ms, matched, used, last);
      } else if r.Some? {
        var i: nat :| IsLastNamesake(ms, matched[..last], used, i) && matched[..last][i] == r.value;
        assert IsLastNamesake(ms, matched, used, i);
      }
    }
  }

  /** The group is one missing track and one match, still unused. */
  predicate LonePair(g: Group, used: set<Id>) {
    |g.missing| == 1 && |g.matched| == 1 && g.matched[0].id !in used
  }

  predicate NoneExact(ms: Track, g: Group, used: set<Id>) {
    forall j :: 0 <= j < |g.matched| ==> !SameContents(ms, g.matched[j], used)
  }

  /** The match to be taken: the first exact one; if there is none, that of a lone pair; or else the last namesake. */
  predicate Suits(ms: Track, g: Group, used: set<Id>, i: nat) {
    && i < |g.matched|
    && (|| IsFirstExact(ms, g.matched, used, i)
        || (NoneExact(ms, g, used) && LonePair(g, used))
        || (NoneExact(ms, g, used) && !LonePair(g, used) && IsLastNamesake(ms, g.matched, used, i)))
  }

  lemma ChoiceIs(ms: Track, g: Group, used: set<Id>)
    ensures Choice(ms, g, used).Some? ==> exists i: nat :: Suits(ms, g, used, i) && Choice(ms, g, used).value == g.matched[i]
  {
    ExactMatchIsFirst(ms, g.matched, used);
    EquivalentMatchIsLast(ms, g.matched, used);
    var exact, equivalent := ExactMatch(ms, g.matched, used), EquivalentMatch(ms, g.matched, used);
    if exact.Some? {
      var i: nat :| IsFirstExact(ms, g.matched, used, i) && g.matched[i] == exact.value;
      assert Suits(ms, g, used, i);
    } else if LonePair(g, used) {
      assert Suits(ms, g, used, 0);
    } else if equivalent.Some? {
      var i: nat :| IsLastNamesake(ms, g.matched, used, i) && g.matched[i] == equivalent.value;
      assert Suits(ms, g, used, i);
    }
  }

  /** A chosen match is an unused one of the group. */
  lemma ChoiceIsUnused(ms: Track, g: Group, used: set<Id>)
    ensures Choice(ms, g, used).Some? ==>
              Choice(ms, g, used).value in g.matched && Choice(ms, g, used).value.id !in used
  {
    hide Choice;
    ChoiceIs(ms, g, used);
  }

  /** An unused exact match is taken whenever there is one. */
  lemma ExactMatchWins(ms: Track, g: Group, used: set<Id>)
    requires exists i :: 0 <= i < |g.matched| && SameContents(ms, g.matched[i], used)
    ensures Choice(ms, g, used).Some? && Choice(ms, g, used).value.contents == ms.contents
  {
    ExactMatchIsFirst(ms, g.matched, used);
  }

  /** A track stays unmatched exactly when every match left over differs in contents and in name, and is not a lone pair's. */
  lemma UnmatchedIff(ms: Track, g: Group, used: set<Id>)
    ensures Choice(ms, g, used).None? <==>
              && (forall i :: 0 <= i < |g.matched| ==> !SameContents(ms, g.matched[i], used) && !SameName(ms, g.matched[i], used))
              && !LonePair(g, used)
  {
    ExactMatchIsFirst(ms, g.matched, used);
    EquivalentMatchIsLast(ms, g.matched, used);
  }

  // ----- The pairs -----

  ghost predicate PairsFrom(g: Group, pairs: seq<(Track, Track)>, used: set<Id>) {
    forall k :: 0 <= k < |pairs| ==> pairs[k].0 in g.missing && pairs[k].1 in g.matched && pairs[k].1.id in used
  }

  predicate PairsApart(pairs: seq<(Track, Track)>) {
    forall k, l :: 0 <= k < l < |pairs| ==> pairs[k].0.id != pairs[l].0.id && pairs[k].1.id != pairs[l].1.id
  }

  ghost predicate UsedArePaired(pairs: seq<(Track, Track)>, used: set<Id>) {
    forall id :: id in used ==> exists k :: 0 <= k < |pairs| && pairs[k].1.id == id
  }

  /** Every missing track and every match is in one pair at most; the matches are the used ones. */
  ghost predicate PairsValid(g: Group, pairs: seq<(Track, Track)>, used: set<Id>) {
    && PairsFrom(g, pairs, used) && PairsApart(pairs) && UsedArePaired(pairs, used)
    && |used| == |pairs|
  }

  /** The track's turn has not come yet. */
  predicate Unpaired(pairs: seq<(Track, Track)>, id: Id) {
    forall k :: 0 <= k < |pairs| ==> pairs[k].0.id != id
  }

  lemma OneMoreApart(g: Group, pairs: seq<(Track, Track)>, used: set<Id>, ms: Track, target: Track)
    requires PairsFrom(g, pairs, used) && PairsApart(pairs) && Unpaired(pairs, ms.id) && target.id !in used
    ensures PairsApart(pairs + [(ms, target)])
  {
  }

  lemma OneMoreUsed(pairs: seq<(Track, Track)>, used: set<Id>, pair: (Track, Track))
    requires UsedArePaired(pairs, used)
    ensures UsedArePaired(pairs + [pair], used + {pair.1.id})
  {
    var pairs' := pairs + [pair];
    forall id | id in used + {pair.1.id} ensures exists k :: 0 <= k < |pairs'| && pairs'[k].1.id == id {
      if id == pair.1.id {
        assert pairs'[|pairs|].1.id == id;
      } else {
        var k :| 0 <= k < |pairs| && pairs[k].1.id == id;
        assert pairs'[k].1.id == id;
      }
    }
  }

  lemma OneMoreFrom(g: Group, pairs: seq<(Track, Track)>, used: set<Id>, pair: (Track, Track))
    requires PairsFrom(g, pairs, used) && pair.0 in g.missing && pair.1 in g.matched
    ensures PairsFrom(g, pairs + [pair], used + {pair.1.id})
  {
  }

  lemma OneMorePair(g: Group, pairs: seq<(Track, Track)>, used: set<Id>, ms: Track, target: Track)
    requires PairsValid(g, pairs, used) && Unpaired(pairs, ms.id)
    requires ms in g.missing && target in g.matched && target.id !in used
    ensures PairsValid(g, pairs + [(ms, target)], used + {target.id})
  {
    hide PairsFrom, PairsApart, UsedArePaired, Unpaired;
    OneMoreFrom(g, pairs, used, (ms, target));
    OneMoreApart(g, pairs, used, ms, target);
    OneMoreUsed(pairs, used, (ms, target));
  }

  /** A turn pairs no track but its own. */
  lemma TurnPairsOwn(g: Group, p: Progress, ms: Track, id: Id)
    requires Unpaired(p.pairs, id) && id != ms.id
    ensures Unpaired(Turn(g, p, ms).pairs, id)
  {
    hide Choice, Moved, Reassign;
  }

  lemma {:induction false} LaterAreUnpaired(g: Group, table: Table, reassigned: map<Id, Id>, n: nat, later: nat)
    requires n <= later < |g.missing| && Drawn(g, table)
    ensures Unpaired(After(g, table, reassigned, n).pairs, g.missing[later].id)
  {
    if n > 0 {
      LaterAreUnpaired(g, table, reassigned, n - 1, later);
      assert g.missing[n - 1].id != g.missing[later].id;
      hide Turn, Unpaired, Drawn;
      TurnPairsOwn(g, After(g, table, reassigned, n - 1), g.missing[n - 1], g.missing[later].id);
    }
  }

  lemma TurnKeepsPairs(g: Group, p: Progress, ms: Track)
    requires PairsValid(g, p.pairs, p.used) && Unpaired(p.pairs, ms.id) && ms in g.missing
    ensures var p' := Turn(g, p, ms); PairsValid(g, p'.pairs, p'.used)
  {
    ChoiceIsUnused(ms, g, p.used);
    hide Choice, Moved, Reassign, PairsValid, Unpaired;
    if Choice(ms, g, p.used).Some? {
      OneMorePair(g, p.pairs, p.used, ms, Choice(ms, g, p.used).value);
    }
  }

  lemma NoPairs(g: Group)
    ensures PairsValid(g, [], {})
  {
  }

  /** However many turns have been taken, the matching is one to one. */
  lemma {:induction false} PairsAreInjective(g: Group, table: Table, reassigned: map<Id, Id>, n: nat)
    requires n <= |g.missing| && Drawn(g, table)
    ensures var p := After(g, table, reassigned, n); PairsValid(g, p.pairs, p.used)
  {
    hide Turn, PairsValid, Drawn, Unpaired;
    if n == 0 {
      NoPairs(g);
    } else {
      PairsAreInjective(g, table, reassigned, n - 1);
      LaterAreUnpaired(g, table, reassigned, n - 1, n - 1);
      TurnKeepsPairs(g, After(g, table, reassigned, n - 1), g.missing[n - 1]);
    }
  }

  // ----- The rows -----

  /** What becomes of a matched row: it takes the missing row's identity and age. */
  function Renamed(target: Track, original: Track): Track {
    target.(id := original.id, createdAt := original.createdAt, birthTime := original.birthTime)
  }

  /** The used rows are gone, the paired missing rows have moved, and the other rows are as before. */
  ghost predicate RowsValid(before: Table, table: Table, pairs: seq<(Track, Track)>, used: set<Id>) {
    && table.Keys == before.Keys - used
    && (forall k :: 0 <= k < |pairs| ==> pairs[k].0.id in table && table[pairs[k].0.id] == Renamed(pairs[k].1, pairs[k].0))
    && (forall id :: id in table && Unpaired(pairs, id) ==> table[id] == before[id])
  }

  lemma MissingIsNotMatched(g: Group, t: Table, ms: Track, target: Track)
    requires Drawn(g, t) && ms in g.missing && target in g.matched
    ensures ms.id != target.id && ms.id in t && t[ms.id] == ms && target.id in t && t[target.id] == target
  {
  }

  /** Missing rows are never consumed. */
  lemma MissingAreUnused(g: Group, t: Table, pairs: seq<(Track, Track)>, used: set<Id>, ms: Track)
    requires Drawn(g, t) && PairsValid(g, pairs, used) && ms in g.missing
    ensures ms.id !in used
  {
    forall id | id in used ensures id != ms.id {
      var k :| 0 <= k < |pairs| && pairs[k].1.id == id;
      MissingIsNotMatched(g, t, ms, pairs[k].1);
    }
  }

  /** One move on a table in which the missing row is still as it was. */
  lemma MovedRows(t: Table, target: Track, ms: Track)
    requires ms.id in t && t[ms.id] == ms && target.id != ms.id
    ensures Moved(t, target, ms).Keys == t.Keys - {target.id}
    ensures Moved(t, target, ms)[ms.id] == Renamed(target, ms)
    ensures forall id :: id in t && id != target.id && id != ms.id ==> Moved(t, target, ms)[id] == t[id]
  {
  }

  lemma PairedRowsKept(g: Group, before: Table, p: Progress, ms: Track, target: Track, k: nat)
    requires Drawn(g, before) && PairsValid(g, p.pairs, p.used) && RowsValid(before, p.table, p.pairs, p.used) && Unpaired(p.pairs, ms.id)
    requires ms in g.missing && target in g.matched && target.id !in p.used && k < |p.pairs|
    ensures p.pairs[k].0.id in p.table && p.pairs[k].0.id != target.id && p.pairs[k].0.id != ms.id
    ensures p.table[p.pairs[k].0.id] == Renamed(p.pairs[k].1, p.pairs[k].0)
  {
    MissingIsNotMatched(g, before, p.pairs[k].0, target);
  }

  lemma StillUnpaired(pairs: seq<(Track, Track)>, pair: (Track, Track), id: Id)
    requires Unpaired(pairs + [pair], id)
    ensures Unpaired(pairs, id) && id != pair.0.id
  {
    assert (pairs + [pair])[|pairs|] == pair;
    assert forall k :: 0 <= k < |pairs| ==> (pairs + [pair])[k] == pairs[k];
  }

  lemma MissingRowIsOld(before: Table, p: Progress, ms: Track)
    requires RowsValid(before, p.table, p.pairs, p.used) && Unpaired(p.pairs, ms.id) && ms.id in before && before[ms.id] == ms && ms.id !in p.used
    ensures ms.id in p.table && p.table[ms.id] == ms
  {
  }

  lemma RowsKeys(before: Table, p: Progress)
    requires RowsValid(before, p.table, p.pairs, p.used)
    ensures p.table.Keys == before.Keys - p.used
  {
  }

  lemma TurnMovesPairs(g: Group, before: Table, p: Progress, ms: Track, target: Track, k: nat)
    requires Drawn(g, before) && PairsValid(g, p.pairs, p.used) && RowsValid(before, p.table, p.pairs, p.used)
    requires Unpaired(p.pairs, ms.id) && ms in g.missing && target in g.matched && target.id !in p.used && k <= |p.pairs|
    ensures var pairs', table' := p.pairs + [(ms, target)], Moved(p.table, target, ms);
            pairs'[k].0.id in table' && table'[pairs'[k].0.id] == Renamed(pairs'[k].1, pairs'[k].0)
  {
    hide Moved, Drawn, PairsValid, Unpaired, Renamed, RowsValid;
    MissingAreUnused(g, before, p.pairs, p.used, ms);
    MissingIsNotMatched(g, before, ms, target);
    MissingRowIsOld(before, p, ms);
    MovedRows(p.table, target, ms);
    if k < |p.pairs| {
      PairedRowsKept(g, before, p, ms, target, k);
    }
  }

  lemma TurnMovesOthers(g: Group, before: Table, p: Progress, ms: Track, target: Track, id: Id)
    requires Drawn(g, before) && PairsValid(g, p.pairs, p.used) && RowsValid(before, p.table, p.pairs, p.used)
    requires Unpaired(p.pairs, ms.id) && ms in g.missing && target in g.matched && target.id !in p.used
    requires id in Moved(p.table, target, ms) && Unpaired(p.pairs + [(ms, target)], id)
    ensures id in before && Moved(p.table, target, ms)[id] == before[id]
  {
    StillUnpaired(p.pairs, (ms, target), id);
    hide Drawn, PairsValid, Unpaired, Renamed;
  }

  lemma TurnMoves(g: Group, before: Table, p: Progress, ms: Track, target: Track)
    requires Drawn(g, before) && PairsValid(g, p.pairs, p.used) && RowsValid(before, p.table, p.pairs, p.used)
    requires Unpaired(p.pairs, ms.id) && ms in g.missing && target in g.matched && target.id !in p.used
    ensures RowsValid(before, Moved(p.table, target, ms), p.pairs + [(ms, target)], p.used + {target.id})
  {
    hide Moved, Drawn, PairsValid, Unpaired, Renamed;
    var pairs', table' := p.pairs + [(ms, target)], Moved(p.table, target, ms);
    assert table'.Keys == before.Keys - (p.used + {target.id}) by {
      hide RowsValid;
      MissingAreUnused(g, before, p.pairs, p.used, ms);
      MissingIsNotMatched(g, before, ms, target);
      MissingRowIsOld(before, p, ms);
      MovedRows(p.table, target, ms);
      assert p.table.Keys == before.Keys - p.used by { RowsKeys(before, p); }
    }
    forall k | 0 <= k < |pairs'|
      ensures pairs'[k].0.id in table' && table'[pairs'[k].0.id] == Renamed(pairs'[k].1, pairs'[k].0)
    {
      TurnMovesPairs(g, before, p, ms, target, k);
    }
    forall id | id in table' && Unpaired(pairs', id) ensures id in before && table'[id] == before[id] {
      TurnMovesOthers(g, before, p, ms, target, id);
    }
  }

  lemma TurnKeepsRows(g: Group, before: Table, p: Progress, ms: Track)
    requires Drawn(g, before) && PairsValid(g, p.pairs, p.used) && RowsValid(before, p.table, p.pairs, p.used) && Unpaired(p.pairs, ms.id)
    requires ms in g.missing
    ensures var p' := Turn(g, p, ms); RowsValid(before, p'.table, p'.pairs, p'.used)
  {
    ChoiceIsUnused(ms, g, p.used);
    hide Choice, Moved, Reassign, PairsValid, Unpaired, Drawn, RowsValid;
    if Choice(ms, g, p.used).Some? {
      TurnMoves(g, before, p, ms, Choice(ms, g, p.used).value);
    }
  }

  lemma {:induction false} RowsAfter(g: Group, table: Table, reassigned: map<Id, Id>, n: nat)
    requires n <= |g.missing| && Drawn(g, table)
    ensures var p := After(g, table, reassigned, n); RowsValid(table, p.table, p.pairs, p.used)
  {
    hide Turn, PairsValid, Drawn, Unpaired;
    if n > 0 {
      RowsAfter(g, table, reassigned, n - 1);
      PairsAreInjective(g, table, reassigned, n - 1);
      LaterAreUnpaired(g, table, reassigned, n - 1, n - 1);
      hide RowsValid;
      TurnKeepsRows(g, table, After(g, table, reassigned, n - 1), g.missing[n - 1]);
    }
  }

  // ----- Results for one group -----

  /**
   After any number of turns: every row that was not consumed is still there, every missing
   track among them; a paired one has its match's path, contents and album under its own id
   and age; and the rows removed are as many as the pairs.
   */
  lemma IdentitiesSurvive(g: Group, table: Table, reassigned: map<Id, Id>, n: nat)
    requires n <= |g.missing| && Drawn(g, table)
    ensures var p := After(g, table, reassigned, n);
            && p.table.Keys == table.Keys - p.used && |table| - |p.table| == |p.pairs|
            && (forall ms :: ms in g.missing ==> ms.id in p.table)
            && (forall k :: 0 <= k < |p.pairs| ==>
                  p.pairs[k].0.id in p.table && p.table[p.pairs[k].0.id] == Renamed(p.pairs[k].1, p.pairs[k].0))
            && (forall id :: id in p.table && Unpaired(p.pairs, id) ==> p.table[id] == table[id])
  {
    RowsAfter(g, table, reassigned, n);
    PairsAreInjective(g, table, reassigned, n);
    var p := After(g, table, reassigned, n);
    hide After, Turn;
    forall ms | ms in g.missing ensures ms.id in p.table {
      MissingAreUnused(g, table, p.pairs, p.used, ms);
      assert ms.id in table;
    }
    forall id | id in p.used ensures id in table {
      var k :| 0 <= k < |p.pairs| && p.pairs[k].1.id == id;
      assert p.pairs[k].1 in g.matched;
    }
    KeysRemoved(table, p.table, p.used);
  }

  lemma KeysRemoved(a: Table, b: Table, gone: set<Id>)
    requires b.Keys == a.Keys - gone && gone <= a.Keys
    ensures |a| - |b| == |gone|
  {
    assert |a| == |a.Keys| && |b| == |b.Keys|;
    assert a.Keys == b.Keys + gone && b.Keys !! gone;
  }

  lemma MoveKeepsPathsDistinct(t: Table, target: Track, ms: Track)
    requires TableValid(t) && DistinctPaths(t)
    requires ms.id in t && target.id in t && t[target.id] == target && target.id != ms.id
    ensures TableValid(Moved(t, target, ms)) && DistinctPaths(Moved(t, target, ms))
  {
    var t' := Moved(t, target, ms);
    forall a, b | a in t' && b in t' && t'[a].lib == t'[b].lib && t'[a].path == t'[b].path ensures a == b {
      var a', b' := if a == ms.id then target.id else a, if b == ms.id then target.id else b;
      assert t[a'].path == t'[a].path && t[b'].path == t'[b].path;
    }
  }

  /** A matched row that is not used is still as it was drawn. */
  lemma UnusedRowIsOld(g: Group, before: Table, p: Progress, target: Track)
    requires Drawn(g, before) && PairsValid(g, p.pairs, p.used) && RowsValid(before, p.table, p.pairs, p.used)
    requires target in g.matched && target.id !in p.used
    ensures target.id in p.table && p.table[target.id] == target
  {
    forall k | 0 <= k < |p.pairs| ensures p.pairs[k].0.id != target.id {
      MissingIsNotMatched(g, before, p.pairs[k].0, target);
    }
    assert Unpaired(p.pairs, target.id);
    assert target.id in before && before[target.id] == target;
  }

  lemma TurnKeepsPaths(g: Group, before: Table, p: Progress, ms: Track)
    requires Drawn(g, before) && PairsValid(g, p.pairs, p.used) && RowsValid(before, p.table, p.pairs, p.used)
    requires Unpaired(p.pairs, ms.id) && ms in g.missing && TableValid(p.table) && DistinctPaths(p.table)
    ensures var p' := Turn(g, p, ms); TableValid(p'.table) && DistinctPaths(p'.table)
  {
    ChoiceIsUnused(ms, g, p.used);
    hide PairsValid, RowsValid, Drawn, Unpaired, DistinctPaths, TableValid, Choice, Moved, Reassign;
    if Choice(ms, g, p.used).Some? {
      var target := Choice(ms, g, p.used).value;
      UnusedRowIsOld(g, before, p, target);
      MissingIsNotMatched(g, before, ms, target);
      MissingAreUnused(g, before, p.pairs, p.used, ms);
      MissingRowIsOld(before, p, ms);
      MoveKeepsPathsDistinct(p.table, target, ms);
    }
  }

  /** However many turns have been taken, no two rows of a library share a path. */
  lemma {:induction false} PathsStayDistinct(g: Group, table: Table, reassigned: map<Id, Id>, n: nat)
    requires n <= |g.missing| && Drawn(g, table) && TableValid(table) && DistinctPaths(table)
    ensures var p := After(g, table, reassigned, n); TableValid(p.table) && DistinctPaths(p.table)
  {
    hide PairsValid, RowsValid, Drawn, Unpaired, DistinctPaths, TableValid, Turn;
    if n > 0 {
      PathsStayDistinct(g, table, reassigned, n - 1);
      RowsAfter(g, table, reassigned, n - 1);
      PairsAreInjective(g, table, reassigned, n - 1);
      LaterAreUnpaired(g, table, reassigned, n - 1, n - 1);
      TurnKeepsPaths(g, table, After(g, table, reassigned, n - 1), g.missing[n - 1]);
    }
  }

  /** The album that gave its annotations to the album is the one of the first track to move there. */
  ghost predicate FirstToMove(pairs: seq<(Track, Track)>, album: Id, from: Id) {
    exists k :: 0 <= k < |pairs| && pairs[k].1.album == album && pairs[k].0.album == from != album
                && forall j :: 0 <= j < k && pairs[j].1.album == album ==> pairs[j].0.album == album
  }

  ghost predicate AnnotationsValid(before: map<Id, Id>, p: Progress) {
    && (forall a :: a in before ==> a in p.reassigned && p.reassigned[a] == before[a])
    && (forall k :: 0 <= k < |p.pairs| && p.pairs[k].0.album != p.pairs[k].1.album ==> p.pairs[k].1.album in p.reassigned)
    && (forall a :: a in p.reassigned && a !in before ==> FirstToMove(p.pairs, a, p.reassigned[a]))
  }

  lemma StaysFirst(pairs: seq<(Track, Track)>, pair: (Track, Track), album: Id, from: Id)
    requires FirstToMove(pairs, album, from)
    ensures FirstToMove(pairs + [pair], album, from)
  {
    var k :| 0 <= k < |pairs| && pairs[k].1.album == album && pairs[k].0.album == from != album
             && forall j :: 0 <= j < k && pairs[j].1.album == album ==> pairs[j].0.album == album;
    assert (pairs + [pair])[k] == pairs[k];
    assert forall j :: 0 <= j < k ==> (pairs + [pair])[j] == pairs[j];
  }

  lemma BecomesFirst(pairs: seq<(Track, Track)>, pair: (Track, Track))
    requires pair.0.album != pair.1.album
    requires forall j :: 0 <= j < |pairs| && pairs[j].1.album == pair.1.album ==> pairs[j].0.album == pair.1.album
    ensures FirstToMove(pairs + [pair], pair.1.album, pair.0.album)
  {
    assert (pairs + [pair])[|pairs|] == pair;
    assert forall j :: 0 <= j < |pairs| ==> (pairs + [pair])[j] == pairs[j];
  }

  lemma TurnMovesAnnotations(g: Group, before: map<Id, Id>, p: Progress, ms: Track)
    requires AnnotationsValid(before, p)
    ensures AnnotationsValid(before, Turn(g, p, ms))
  {
    hide Choice, Moved, FirstToMove;
    var p' := Turn(g, p, ms);
    if Choice(ms, g, p.used).Some? {
      var target := Choice(ms, g, p.used).value;
      forall a | a in p'.reassigned && a !in before ensures FirstToMove(p'.pairs, a, p'.reassigned[a]) {
        if a in p.reassigned {
          StaysFirst(p.pairs, (ms, target), a, p.reassigned[a]);
        } else {
          BecomesFirst(p.pairs, (ms, target));
        }
      }
    }
  }

  /** An album takes over annotations once, from the album of the first track that moved into it. */
  lemma {:induction false} AnnotationsMoveOnce(g: Group, table: Table, reassigned: map<Id, Id>, n: nat)
    requires n <= |g.missing|
    ensures AnnotationsValid(reassigned, After(g, table, reassigned, n))
  {
    hide Turn;
    if n > 0 {
      AnnotationsMoveOnce(g, table, reassigned, n - 1);
      TurnMovesAnnotations(g, reassigned, After(g, table, reassigned, n - 1), g.missing[n - 1]);
    }
  }

  // ----- Every turn is taken -----

  /** Nothing left over has the track's contents or its name, nor makes up a lone pair with it. */
  predicate NothingSuits(ms: Track, g: Group, used: set<Id>) {
    && (forall i :: 0 <= i < |g.matched| ==> !SameContents(ms, g.matched[i], used) && !SameName(ms, g.matched[i], used))
    && !LonePair(g, used)
  }

  /** The album of the match takes over annotations, unless it is the missing track's own or has done so before. */
  ghost predicate TakesOver(reassigned: map<Id, Id>, reassigned': map<Id, Id>, ms: Track, target: Track) {
    reassigned' ==
      if ms.album != target.album && target.album !in reassigned then reassigned[target.album := ms.album] else reassigned
  }

  /** The row of the match is gone, and its data are in the row of the missing track. */
  ghost predicate TakesRow(t: Table, t': Table, ms: Track, target: Track) {
    && t'.Keys == t.Keys - {target.id} && ms.id in t' && t'[ms.id] == Renamed(target, ms)
    && forall id :: id in t && id != target.id && id != ms.id ==> t'[id] == t[id]
  }

  ghost predicate TurnTaken(g: Group, p: Progress, p': Progress, ms: Track, i: nat) {
    && Suits(ms, g, p.used, i)
    && p'.pairs == p.pairs + [(ms, g.matched[i])] && p'.used == p.used + {g.matched[i].id}
    && TakesRow(p.table, p'.table, ms, g.matched[i]) && TakesOver(p.reassigned, p'.reassigned, ms, g.matched[i])
  }

  lemma TakesTheRow(g: Group, before: Table, p: Progress, ms: Track, target: Track)
    requires Drawn(g, before) && PairsValid(g, p.pairs, p.used) && RowsValid(before, p.table, p.pairs, p.used)
    requires Unpaired(p.pairs, ms.id) && ms in g.missing && target in g.matched
    ensures TakesRow(p.table, Moved(p.table, target, ms), ms, target)
  {
    hide Drawn, PairsValid, RowsValid, Unpaired, Moved, Renamed;
    MissingAreUnused(g, before, p.pairs, p.used, ms);
    MissingIsNotMatched(g, before, ms, target);
    MissingRowIsOld(before, p, ms);
    MovedRows(p.table, target, ms);
  }

  lemma TurnWith(g: Group, p: Progress, ms: Track, target: Track)
    requires Choice(ms, g, p.used) == Some(target)
    ensures var p' := Turn(g, p, ms);
            && p'.pairs == p.pairs + [(ms, target)] && p'.used == p.used + {target.id}
            && p'.table == Moved(p.table, target, ms) && p'.reassigned == Reassign(p.reassigned, target, ms)
  {
    hide Choice, Moved, Reassign;
  }

  lemma TakesTheAnnotations(reassigned: map<Id, Id>, ms: Track, target: Track)
    ensures TakesOver(reassigned, Reassign(reassigned, target, ms), ms, target)
  {
  }

  lemma TakesTurn(g: Group, before: Table, p: Progress, ms: Track, i: nat)
    requires Drawn(g, before) && PairsValid(g, p.pairs, p.used) && RowsValid(before, p.table, p.pairs, p.used)
    requires Unpaired(p.pairs, ms.id) && ms in g.missing
    requires Suits(ms, g, p.used, i) && Choice(ms, g, p.used) == Some(g.matched[i])
    ensures TurnTaken(g, p, Turn(g, p, ms), ms, i)
  {
    SuitableIsThere(ms, g, p.used, i);
    hide Drawn, PairsValid, RowsValid, Unpaired, Turn, Moved, Reassign, Choice, Suits, TakesRow, TakesOver;
    TakesTheRow(g, before, p, ms, g.matched[i]);
    TakesTheAnnotations(p.reassigned, ms, g.matched[i]);
    TurnWith(g, p, ms, g.matched[i]);
  }

  /** The first turn starts with nothing done. */
  lemma BeforeTheFirstTurn(g: Group, table: Table, reassigned: map<Id, Id>)
    ensures After(g, table, reassigned, 0) == Progress(table, {}, [], reassigned)
  {
  }

  /**
   A missing track is paired at its turn unless nothing left over suits it, and is then moved
   to the match that suits it best.
   */
  lemma EveryTurnIsTaken(g: Group, table: Table, reassigned: map<Id, Id>, n: nat)
    requires n < |g.missing| && Drawn(g, table)
    ensures var p, p', ms := After(g, table, reassigned, n), After(g, table, reassigned, n + 1), g.missing[n];
            if NothingSuits(ms, g, p.used) then p' == p else exists i: nat :: TurnTaken(g, p, p', ms, i)
  {
    var p, ms := After(g, table, reassigned, n), g.missing[n];
    OneTurnMore(g, table, reassigned, n);
    hide After, PairsValid, RowsValid, Drawn, Suits, Unpaired, Choice, TurnTaken;
    PairsAreInjective(g, table, reassigned, n);
    RowsAfter(g, table, reassigned, n);
    LaterAreUnpaired(g, table, reassigned, n, n);
    UnmatchedIff(ms, g, p.used);
    var choice := Choice(ms, g, p.used);
    if choice.Some? {
      ChoiceIs(ms, g, p.used);
      var i: nat :| Suits(ms, g, p.used, i) && choice.value == g.matched[i];
      TakesTurn(g, table, p, ms, i);
    }
  }

  lemma OneTurnMore(g: Group, table: Table, reassigned: map<Id, Id>, n: nat)
    requires n < |g.missing|
    ensures After(g, table, reassigned, n + 1) == Turn(g, After(g, table, reassigned, n), g.missing[n])
  {
  }

  lemma SuitableIsThere(ms: Track, g: Group, used: set<Id>, i: nat)
    requires Suits(ms, g, used, i)
    ensures i < |g.matched| && g.matched[i] in g.matched
  {
  }

  lemma {:induction false} UsedStayUsed(g: Group, table: Table, reassigned: map<Id, Id>, k: nat, n: nat)
    requires k <= n <= |g.missing|
    ensures After(g, table, reassigned, k).used <= After(g, table, reassigned, n).used
    ensures After(g, table, reassigned, k).pairs <= After(g, table, reassigned, n).pairs
    decreases n - k
  {
    hide Choice;
    if k < n {
      UsedStayUsed(g, table, reassigned, k, n - 1);
    }
  }

  /** The matching is maximal: after all turns no match left over suits a track left over. */
  lemma NothingSuitableIsLeft(g: Group, table: Table, reassigned: map<Id, Id>, k: nat)
    requires k < |g.missing| && Drawn(g, table)
    ensures var p := After(g, table, reassigned, |g.missing|);
            Unpaired(p.pairs, g.missing[k].id) ==> NothingSuits(g.missing[k], g, p.used)
  {
    EveryTurnIsTaken(g, table, reassigned, k);
    UsedStayUsed(g, table, reassigned, k + 1, |g.missing|);
    var p, p', end := After(g, table, reassigned, k), After(g, table, reassigned, k + 1), After(g, table, reassigned, |g.missing|);
    hide After, Drawn, NothingSuits, TurnTaken, Unpaired;
    if NothingSuits(g.missing[k], g, p.used) {
      StillNothingSuits(g.missing[k], g, p.used, end.used);
    } else {
      var i: nat :| TurnTaken(g, p, p', g.missing[k], i);
      TurnPairs(g, p, p', g.missing[k], i, end);
    }
  }

  lemma StillNothingSuits(ms: Track, g: Group, used: set<Id>, more: set<Id>)
    requires NothingSuits(ms, g, used) && used <= more
    ensures NothingSuits(ms, g, more)
  {
  }

  lemma TurnPairs(g: Group, p: Progress, p': Progress, ms: Track, i: nat, end: Progress)
    requires TurnTaken(g, p, p', ms, i) && p'.pairs <= end.pairs
    ensures !Unpaired(end.pairs, ms.id)
  {
    hide Suits, TakesRow, TakesOver;
    assert end.pairs[|p.pairs|] == p'.pairs[|p.pairs|] == (ms, p'.pairs[|p.pairs|].1);
  }
}
