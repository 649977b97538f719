/**
 The playlist track repository: Reorder, renumber, Delete, Add, updatePlaylist and
 removeOrphans as methods that change the table statement by statement.
 */
module PlaylistTracks {
  import opened Iteration
  import opened Options
  import opened PlaylistRows
  import opened PlaylistPositions

  const CHUNK: nat := 200

  /** The result of DELETE on the positions `ids` of one playlist. */
  function Deleted(t: Table, pid: string, ids: set<int>): Table {
    map r | r in t && !(t[r].playlist == pid && t[r].pos in ids) :: t[r]
  }

  /** The tracks that remain, in their order, when the positions `ids` go. */
  function Survivors(s: seq<Media>, ids: set<int>): (s': seq<Media>)
    ensures |s'| <= |s|
  {
    if s == [] then []
    else Survivors(s[..|s| - 1], ids) + if |s| in ids then [] else [s[|s| - 1]]
  }

  /** The positions among 1..n that remain. */
  function Remaining(n: nat, ids: set<int>): seq<int> {
    if n == 0 then []
    else Remaining(n - 1, ids) + if n in ids then [] else [n]
  }

  lemma {:induction false} RemainingAt(n: nat, ids: set<int>)
    ensures forall x :: x in Remaining(n, ids) <==> 1 <= x <= n && x !in ids
    ensures forall i :: 0 <= i < |Remaining(n, ids)| ==> 1 <= Remaining(n, ids)[i] <= n
    ensures forall i, j :: 0 <= i < j < |Remaining(n, ids)| ==> Remaining(n, ids)[i] < Remaining(n, ids)[j]
  {
    if n > 0 {
      RemainingAt(n - 1, ids);
    }
  }

  /** The tracks of s at the positions ps, one by one. */
  ghost predicate TracksAt(s: seq<Media>, ps: seq<int>, kept: seq<Media>) {
    |kept| == |ps| && forall i :: 0 <= i < |ps| ==> 1 <= ps[i] <= |s| && kept[i] == s[ps[i] - 1]
  }

  lemma OneMoreTrack(s: seq<Media>, last: Media, ps: seq<int>, kept: seq<Media>)
    requires TracksAt(s, ps, kept)
    ensures TracksAt(s + [last], ps, kept) && TracksAt(s + [last], ps + [|s| + 1], kept + [last])
  {
  }

  /** The survivors are the tracks at the remaining positions. */
  lemma {:induction false} SurvivorsAt(s: seq<Media>, ids: set<int>)
    ensures TracksAt(s, Remaining(|s|, ids), Survivors(s, ids))
  {
    if s != [] {
      hide TracksAt;
      var n := |s| - 1;
      SurvivorsAt(s[..n], ids);
      assert s == s[..n] + [s[n]];
      OneMoreTrack(s[..n], s[n], Remaining(n, ids), Survivors(s[..n], ids));
    }
  }

  lemma DeletedRow(t: Table, pid: string, s: seq<Media>, ids: set<int>, r: nat) returns (i: nat)
    requires Numbered(t, pid, s) && r in Deleted(t, pid, ids) && t[r].playlist == pid
    ensures t[r].pos >= 1
    ensures i < |Remaining(|s|, ids)| == |Survivors(s, ids)|
    ensures Remaining(|s|, ids)[i] == t[r].pos && Survivors(s, ids)[i] == t[r].media
  {
    hide Remaining, Survivors, HasPos;
    RemainingAt(|s|, ids);
    SurvivorsAt(s, ids);
    assert t[r].pos in Remaining(|s|, ids);
    i :| 0 <= i < |Remaining(|s|, ids)| && Remaining(|s|, ids)[i] == t[r].pos;
  }

  lemma RemainingHasRow(t: Table, pid: string, s: seq<Media>, ids: set<int>, p: int)
    requires Numbered(t, pid, s) && 1 <= p <= |s| && p !in ids
    ensures HasMagnitude(Deleted(t, pid, ids), pid, p)
  {
    assert HasPos(t, pid, p);
    var r := RowAt(t, pid, p);
    assert r in Deleted(t, pid, ids);
  }

  lemma DeletedLayout(t: Table, pid: string, s: seq<Media>, ids: set<int>)
    requires Numbered(t, pid, s)
    ensures Layout(Deleted(t, pid, ids), pid, Remaining(|s|, ids), Survivors(s, ids))
    ensures !OppositePair(Deleted(t, pid, ids), pid)
  {
    var t', ps := Deleted(t, pid, ids), Remaining(|s|, ids);
    assert forall r :: r in t' ==> r in t && t'[r] == t[r];
    hide Remaining, Survivors, Deleted, HasMagnitude, HasPos, TracksAt, Numbered;
    RemainingAt(|s|, ids);
    SurvivorsAt(s, ids);
    forall i | 0 <= i < |ps|
      ensures HasMagnitude(t', pid, ps[i])
    {
      assert ps[i] in ps;
      RemainingHasRow(t, pid, s, ids, ps[i]);
    }
    forall r | r in t' && t'[r].playlist == pid
      ensures t'[r].pos >= 1
      ensures exists i :: 0 <= i < |ps| && ps[i] == Abs(t'[r].pos) && Survivors(s, ids)[i] == t'[r].media
    {
      var i := DeletedRow(t, pid, s, ids, r);
      assert ps[i] == Abs(t'[r].pos);
    }
    assert |ps| == |Survivors(s, ids)| by { TracksAtLength(s, ps, Survivors(s, ids)); }
  }

  lemma TracksAtLength(s: seq<Media>, ps: seq<int>, kept: seq<Media>)
    requires TracksAt(s, ps, kept)
    ensures |ps| == |kept|
  {
  }

  /** The tracks of s that still exist. */
  function KeepMedia(s: seq<Media>, media: set<Media>): seq<Media> {
    if s == [] then []
    else KeepMedia(s[..|s| - 1], media) + if s[|s| - 1] in media then [s[|s| - 1]] else []
  }

  /** The positions whose track no longer exists. */
  function OrphanPositions(t: Table, pid: string, media: set<Media>): set<int> {
    set r | r in t && t[r].playlist == pid && t[r].media !in media :: t[r].pos
  }

  lemma {:induction false} KeepMediaIsSurvivors(s: seq<Media>, media: set<Media>, ids: set<int>)
    requires forall i :: 1 <= i <= |s| ==> (i in ids <==> s[i - 1] !in media)
    ensures KeepMedia(s, media) == Survivors(s, ids)
  {
    if s != [] {
      KeepMediaIsSurvivors(s[..|s| - 1], media, ids);
    }
  }

  lemma OrphansOf(t: Table, pid: string, s: seq<Media>, media: set<Media>)
    requires Numbered(t, pid, s)
    ensures KeepMedia(s, media) == Survivors(s, OrphanPositions(t, pid, media))
  {
    var ids := OrphanPositions(t, pid, media);
    forall i | 1 <= i <= |s|
      ensures i in ids <==> s[i - 1] !in media
    {
      assert HasPos(t, pid, i);
      var r := RowAt(t, pid, i);
    }
    KeepMediaIsSurvivors(s, media, ids);
  }

  lemma {:induction false} FreshRowId(ids: set<nat>) returns (unused: nat)
    ensures forall r :: r in ids ==> r < unused
  {
    if ids == {} {
      unused := 0;
    } else {
      var r :| r in ids;
      var below := FreshRowId(ids - {r});
      unused := if r < below then below else r + 1;
      assert forall q :: q in ids ==> q == r || q in ids - {r};
    }
  }

  lemma {:induction false} HighestRow(t: Table, rows: set<nat>)
    requires rows != {} && rows <= t.Keys
    ensures exists r :: r in rows && forall q :: q in rows ==> t[q].pos <= t[r].pos
  {
    var r :| r in rows;
    if rows - {r} != {} {
      HighestRow(t, rows - {r});
      var top :| top in rows - {r} && forall q :: q in rows - {r} ==> t[q].pos <= t[top].pos;
      var best := if t[r].pos < t[top].pos then top else r;
      assert forall q :: q in rows ==> q == r || q in rows - {r};
      assert best in rows && forall q :: q in rows ==> t[q].pos <= t[best].pos;
    } else {
      assert rows == {r};
    }
  }

  /** One more row of an UPDATE that has already visited the rows `done`. */
  lemma NextRow(t: Table, target: map<nat, int>, done: set<nat>, r: nat)
    requires target.Keys <= t.Keys && r in target && r !in done
    ensures var now := Assigned(t, Restrict(target, done));
            && now[r := now[r].(pos := target[r])] == Assigned(t, Restrict(target, done + {r}))
            && (Collisionless(t, target) ==> !Clashes(now, r, target[r]))
            && (Unique(now) && !Clashes(now, r, target[r]) ==> Unique(now[r := now[r].(pos := target[r])]))
  {
  }

  lemma NoRows(t: Table, target: map<nat, int>)
    requires target.Keys <= t.Keys
    ensures Elements([]) == {} && VisitOrder([], Elements([]))
    ensures Assigned(t, Restrict(target, Elements([]))) == t && RunUpdate(t, target, []) == Some(t)
  {
    assert Elements([]) == {};
  }

  lemma AllRows(t: Table, target: map<nat, int>, order: seq<nat>)
    requires target.Keys <= t.Keys && Elements(order) == target.Keys && VisitOrder(order, Elements(order))
    ensures Assigned(t, Restrict(target, Elements(order))) == Assigned(t, target)
    ensures MayEnd(t, target, RunUpdate(t, target, order))
  {
    hide RunUpdate;
    assert Restrict(target, Elements(order)) == target;
  }

  /** Negating the positive positions clashes, in every visit order, exactly with an opposite pair. */
  lemma NegationSafeIff(t: Table, pid: string)
    requires Unique(t)
    ensures !OppositePair(t, pid) ==> Collisionless(t, Target(t, pid, NegateAll))
    ensures OppositePair(t, pid) ==> !Unique(After(t, pid, NegateAll))
  {
    if OppositePair(t, pid) {
      var a, b :| a in t && b in t && t[a].playlist == t[b].playlist == pid
                  && t[a].pos > 0 && t[b].pos == -t[a].pos;
      AfterPositions(t, pid, NegateAll);
      var t' := After(t, pid, NegateAll);
      assert t'[a].playlist == t'[b].playlist && t'[a].pos == t'[b].pos;
    }
  }

  /** Positive numbers never clash with rows that are all at negative positions or zero. */
  lemma NumberingSafe(t: Table, pid: string, order: seq<nat>)
    requires DescendingRows(t, pid, order)
    requires forall r :: r in t && t[r].playlist == pid ==> t[r].pos <= 0
    ensures RowNumbers(order).Keys <= t.Keys
    ensures forall r :: r in RowNumbers(order) ==> t[r].playlist == pid
    ensures Collisionless(t, RowNumbers(order))
  {
    RowNumbersAt(order);
    var target := RowNumbers(order);
    forall r | r in target
      ensures r in t && t[r].playlist == pid && target[r] >= 1
    {
      var i :| 0 <= i < |order| && order[i] == r;
    }
    forall a, b | a in target && b in target && a != b
      ensures target[a] != target[b]
    {
      var i :| 0 <= i < |order| && order[i] == a;
      var j :| 0 <= j < |order| && order[j] == b;
    }
  }

  /** t' is t with one new row per track of `ids`, at the positions from `start` on. */
  ghost predicate Appended(t: Table, t': Table, pid: string, start: int, ids: seq<Media>) {
    && t.Keys <= t'.Keys
    && (forall r :: r in t ==> t'[r] == t[r])
    && (forall r :: r in t' && r !in t ==>
          && t'[r].playlist == pid && start <= t'[r].pos < start + |ids|
          && t'[r].media == ids[t'[r].pos - start])
    && (forall k :: start <= k < start + |ids| ==> HasPos(t', pid, k))
  }

  ghost predicate AppendedUpTo(t: Table, t': Table, pid: string, start: int, ids: seq<Media>, n: nat) {
    n <= |ids| && Appended(t, t', pid, start, ids[..n])
  }

  lemma AppendedEnds(t: Table, t': Table, pid: string, start: int, ids: seq<Media>)
    ensures AppendedUpTo(t, t, pid, start, ids, 0) && PositionsFree(t, pid, start, start)
    ensures AppendedUpTo(t, t', pid, start, ids, |ids|) <==> Appended(t, t', pid, start, ids)
  {
    assert ids[..|ids|] == ids;
  }

  lemma AppendedRows(t: Table, t': Table, pid: string, start: int, ids: seq<Media>, n: nat)
    requires AppendedUpTo(t, t', pid, start, ids, n)
    ensures forall r :: r in t ==> r in t' && t'[r] == t[r]
    ensures forall r :: r in t' && r !in t ==> t'[r].playlist == pid
  {
  }

  ghost predicate PositionsFree(t: Table, pid: string, lo: int, hi: int) {
    forall r :: r in t && t[r].playlist == pid ==> !(lo <= t[r].pos < hi)
  }

  lemma AppendedAll(t: Table, t': Table, pid: string, s: seq<Media>, ids: seq<Media>)
    requires Numbered(t, pid, s) && Appended(t, t', pid, |s| + 1, ids)
    ensures Numbered(t', pid, s + ids)
  {
    forall i | 1 <= i <= |s + ids|
      ensures HasPos(t', pid, i)
    {
      if i <= |s| {
        var r := RowAt(t, pid, i);
        assert t'[r] == t[r];
      }
    }
  }

  /** Appending in two pieces is appending the whole. */
  lemma AppendedInTurn(t: Table, t1: Table, t2: Table, pid: string, start: int, a: seq<Media>, b: seq<Media>)
    requires Appended(t, t1, pid, start, a) && Appended(t1, t2, pid, start + |a|, b)
    ensures Appended(t, t2, pid, start, a + b)
  {
    forall k | start <= k < start + |a + b|
      ensures HasPos(t2, pid, k)
    {
      if k < start + |a| {
        var r := RowAt(t1, pid, k);
        assert t2[r] == t1[r];
      }
    }
  }

  /** The next position is taken now exactly if it was taken before the statement began. */
  lemma NextPosition(t: Table, t1: Table, pid: string, start: int, a: seq<Media>, n: nat)
    requires |a| < n
    requires Appended(t, t1, pid, start, a) && PositionsFree(t, pid, start, start + |a|)
    ensures HasPos(t1, pid, start + |a|) <==> !PositionsFree(t, pid, start, start + |a| + 1)
    ensures HasPos(t1, pid, start + |a|) ==> !PositionsFree(t, pid, start, start + n)
  {
    if HasPos(t1, pid, start + |a|) {
      var r := RowAt(t1, pid, start + |a|);
      assert r in t;
    }
  }

  lemma OneRowAppended(t: Table, t1: Table, pid: string, start: int, a: seq<Media>, rowid: nat, media: Media)
    requires Appended(t, t1, pid, start, a) && Unique(t1) && rowid !in t1
    requires !HasPos(t1, pid, start + |a|)
    ensures var t2 := t1[rowid := Row(pid, start + |a|, media)];
            Unique(t2) && Appended(t, t2, pid, start, a + [media])
  {
    var t2 := t1[rowid := Row(pid, start + |a|, media)];
    assert Appended(t1, t2, pid, start + |a|, [media]) by {
      assert t2[rowid].pos == start + |a|;
    }
    AppendedInTurn(t, t1, t2, pid, start, a, [media]);
  }

  /** The next chunk fits exactly if its positions were free before the first. */
  lemma NextChunk(t: Table, t1: Table, pid: string, start: int, ids: seq<Media>, done: nat, next: nat)
    requires done <= next <= |ids| && AppendedUpTo(t, t1, pid, start, ids, done)
    requires PositionsFree(t, pid, start, start + done)
    ensures PositionsFree(t1, pid, start + done, start + next) <==> PositionsFree(t, pid, start, start + next)
    ensures PositionsFree(t, pid, start, start + |ids|) ==> PositionsFree(t, pid, start, start + next)
  {
    if !PositionsFree(t, pid, start, start + next) {
      var r :| r in t && t[r].playlist == pid && start <= t[r].pos < start + next;
      assert r in t1 && t1[r] == t[r];
    }
  }

  lemma ChunkAppended(t: Table, t1: Table, t2: Table, pid: string, start: int, ids: seq<Media>, done: nat, next: nat)
    requires done <= next <= |ids| && AppendedUpTo(t, t1, pid, start, ids, done)
    requires Appended(t1, t2, pid, start + done, ids[done..next])
    ensures AppendedUpTo(t, t2, pid, start, ids, next)
  {
    hide Appended;
    assert ids[..next] == ids[..done] + ids[done..next];
    AppendedInTurn(t, t1, t2, pid, start, ids[..done], ids[done..next]);
  }

  lemma MaxOfNumbered(t: Table, pid: string, s: seq<Media>, max: int)
    requires Numbered(t, pid, s) && |s| < 0x7FFF_FFFF
    requires forall r :: r in t && t[r].playlist == pid ==> t[r].pos <= max
    requires HasPos(t, pid, max) || (max == 0 && forall r :: r in t ==> t[r].playlist != pid)
    ensures Wrap32(max + 1) == |s| + 1
    ensures forall r :: r in t && t[r].playlist == pid ==> t[r].pos <= |s|
  {
    if s != [] {
      assert HasPos(t, pid, |s|);
    }
  }

  lemma {:induction false} NothingToRemove(s: seq<Media>)
    ensures Survivors(s, {}) == s
  {
    if s != [] {
      NothingToRemove(s[..|s| - 1]);
    }
  }

  /** The playlists still to do hold their original tracks, the others what is left of them. */
  ghost predicate ListsHold(t: Table, playlists: set<string>, todo: set<string>, lists: map<string, seq<Media>>, media: set<Media>)
    requires playlists <= lists.Keys
  {
    forall pid :: pid in playlists ==>
      Numbered(t, pid, if pid in todo then lists[pid] else KeepMedia(lists[pid], media))
  }

  ghost predicate KeepsOthers(t: Table, t': Table, playlists: set<string>) {
    forall r :: r in t && t[r].playlist !in playlists ==> r in t' && t'[r] == t[r]
  }

  lemma OrphanFreeListsHold(t: Table, playlists: set<string>, todo: set<string>, lists: map<string, seq<Media>>, media: set<Media>)
    requires playlists <= lists.Keys
    requires forall pid :: pid in playlists ==> Numbered(t, pid, lists[pid])
    requires forall pid :: pid in playlists && pid !in todo ==> OrphanPositions(t, pid, media) == {}
    ensures ListsHold(t, playlists, todo, lists, media)
  {
    forall pid | pid in playlists && pid !in todo
      ensures KeepMedia(lists[pid], media) == lists[pid]
    {
      OrphansOf(t, pid, lists[pid], media);
      NothingToRemove(lists[pid]);
    }
  }

  lemma OnePlaylistCleaned(t: Table, t': Table, playlists: set<string>, todo: set<string>, lists: map<string, seq<Media>>, media: set<Media>, pid: string)
    requires playlists <= lists.Keys && pid in todo && pid in playlists
    requires ListsHold(t, playlists, todo, lists, media)
    requires OnlyMoves(Deleted(t, pid, OrphanPositions(t, pid, media)), t', pid)
    requires Numbered(t', pid, Survivors(lists[pid], OrphanPositions(t, pid, media)))
    ensures ListsHold(t', playlists, todo - {pid}, lists, media)
    ensures KeepsOthers(t, t', playlists)
  {
    OrphansOf(t, pid, lists[pid], media);
    forall other | other in playlists && other != pid
      ensures Numbered(t', other, if other in todo then lists[other] else KeepMedia(lists[other], media))
    {
      var s := if other in todo then lists[other] else KeepMedia(lists[other], media);
      OtherPlaylistKept(t, t', pid, OrphanPositions(t, pid, media), other, s);
    }
    forall r | r in t && t[r].playlist !in playlists
      ensures r in t' && t'[r] == t[r]
    {
      assert r in Deleted(t, pid, OrphanPositions(t, pid, media));
    }
  }

  lemma OtherPlaylistKept(t: Table, t': Table, pid: string, ids: set<int>, other: string, s: seq<Media>)
    requires OnlyMoves(Deleted(t, pid, ids), t', pid) && other != pid && Numbered(t, other, s)
    ensures Numbered(t', other, s)
  {
    var d := Deleted(t, pid, ids);
    forall r | r in t' && t'[r].playlist == other
      ensures r in t && t'[r] == t[r]
    {
      assert r in d && d[r].playlist == other;
    }
    forall i | 1 <= i <= |s|
      ensures HasPos(t', other, i)
    {
      var r := RowAt(t, other, i);
      assert r in d && t'[r].pos == i;
    }
  }

  function Wrap32(x: int): int {
    var m := x % 0x1_0000_0000;
    if m < 0x8000_0000 then m else m - 0x1_0000_0000
  }

  /** One row of an INSERT that has already added the first i. */
  lemma InsertStep(t: Table, t1: Table, pid: string, start: int, ids: seq<Media>, i: nat, rowid: nat)
    requires i < |ids| && Unique(t1) && rowid !in t1
    requires AppendedUpTo(t, t1, pid, start, ids, i) && PositionsFree(t, pid, start, start + i)
    ensures HasPos(t1, pid, start + i) ==> !PositionsFree(t, pid, start, start + |ids|)
    ensures !HasPos(t1, pid, start + i) ==>
              && PositionsFree(t, pid, start, start + i + 1)
              && Unique(t1[rowid := Row(pid, start + i, ids[i])])
              && AppendedUpTo(t, t1[rowid := Row(pid, start + i, ids[i])], pid, start, ids, i + 1)
  {
    hide Appended, PositionsFree, Unique;
    NextPosition(t, t1, pid, start, ids[..i], |ids|);
    if !HasPos(t1, pid, start + i) {
      OneRowAppended(t, t1, pid, start, ids[..i], rowid, ids[i]);
      assert ids[..i + 1] == ids[..i] + [ids[i]];
    }
  }

  /** The rows of `all` but not of `todo`, by descending position, all above those in `todo`. */
  ghost predicate ListedDown(t: Table, all: set<nat>, order: seq<nat>, todo: set<nat>) {
    && todo <= all <= t.Keys
    && (forall r :: r in order <==> r in all && r !in todo)
    && (forall i :: 0 <= i < |order| ==> order[i] in t)
    && (forall i, j :: 0 <= i < j < |order| ==> t[order[i]].pos > t[order[j]].pos)
    && (forall i, r :: 0 <= i < |order| && r in todo ==> t[order[i]].pos > t[r].pos)
  }

  lemma OneMoreListed(t: Table, pid: string, all: set<nat>, order: seq<nat>, todo: set<nat>, r: nat)
    requires Unique(t) && ListedDown(t, all, order, todo) && forall q :: q in all ==> t[q].playlist == pid
    requires r in todo && forall q :: q in todo ==> t[q].pos <= t[r].pos
    ensures ListedDown(t, all, order + [r], todo - {r})
  {
    assert forall q :: q in order + [r] <==> q in order || q == r;
    assert forall q :: q in todo && q != r ==> t[q].pos < t[r].pos;
  }

  method NewRowId(t: Table) returns (rowid: nat)
    ensures rowid !in t
  {
    var bound := FreshRowId(t.Keys);
    assert bound !in t;
    rowid :| rowid !in t;
  }

  /** INSERT, row by row: the statement fails as a whole as soon as a position is taken. */
  method InsertInto(t: Table, pid: string, start: int, ids: seq<Media>) returns (ok: bool, t': Table)
    requires Unique(t)
    ensures Unique(t')
    ensures if ok then Appended(t, t', pid, start, ids) else t' == t
    ensures ok <==> PositionsFree(t, pid, start, start + |ids|)
  {
    t' := t;
    hide Appended, AppendedUpTo, PositionsFree, Unique;
    AppendedEnds(t, t', pid, start, ids);
    for i := 0 to |ids|
      invariant Unique(t') && AppendedUpTo(t, t', pid, start, ids, i)
      invariant PositionsFree(t, pid, start, start + i)
    {
      var rowid := NewRowId(t');
      InsertStep(t, t', pid, start, ids, i, rowid);
      if HasPos(t', pid, start + i) {
        return false, t;
      }
      t' := t'[rowid := Row(pid, start + i, ids[i])];
    }
    AppendedEnds(t, t', pid, start, ids);
    return true, t';
  }

  class PlaylistTable {
    var rows: Table

    /**
     UPDATE: visits the matched rows in some order, checking the index after each one. A
     violation undoes the statement and reports an error.
     */
    method Update(target: map<nat, int>) returns (ok: bool)
      requires Unique(rows) && target.Keys <= rows.Keys
      modifies this
      ensures Unique(rows)
      ensures rows == if ok then Assigned(old(rows), target) else old(rows)
      ensures Collisionless(old(rows), target) ==> ok
      ensures MayEnd(old(rows), target, if ok then Some(rows) else None)
    {
      var before := rows;
      var todo := target.Keys;
      ghost var order: seq<nat> := [];
      NoRows(before, target);
      hide Unique, Collisionless, Assigned, Restrict, Elements, VisitOrder, RunUpdate, Clashes;
      while todo != {}
        invariant todo == target.Keys - Elements(order) && Elements(order) <= target.Keys && VisitOrder(order, Elements(order))
        invariant rows == Assigned(before, Restrict(target, Elements(order)))
        invariant RunUpdate(before, target, order) == Some(rows)
        invariant Unique(rows)
      {
        var r := Pick(todo);
        NextRow(before, target, Elements(order), r);
        RunUpdateFurther(before, target, order, r);
        order, todo := order + [r], todo - {r};
        if Clashes(rows, r, target[r]) {
          StoppedMayEnd(before, target, order);
          rows := before;
          return false;
        }
        rows := rows[r := rows[r].(pos := target[r])];
      }
      AllRows(before, target, order);
      return true;
    }

    method Execute(pid: string, st: Statement) returns (ok: bool)
      requires Unique(rows)
      modifies this
      ensures Unique(rows)
      ensures rows == if ok then After(old(rows), pid, st) else old(rows)
      ensures Collisionless(old(rows), Target(old(rows), pid, st)) ==> ok
      ensures MayEnd(old(rows), Target(old(rows), pid, st), if ok then Some(rows) else None)
    {
      ok := Update(Target(rows, pid, st));
    }

    /**
     Reorder: four statements, of which any may fail; a failure leaves the effect of the
     statements before it.
     */
    method Reorder(pid: string, pos: int, newPos: int) returns (ok: bool)
      requires Unique(rows)
      modifies this
      ensures Unique(rows) && OnlyMoves(old(rows), rows, pid)
      ensures ok ==> rows == Reordered(old(rows), pid, pos, newPos)
      ensures forall s :: Numbered(old(rows), pid, s) && |s| < 999998 ==> ok
      ensures forall s :: Numbered(old(rows), pid, s) && 1 <= pos <= |s| && 1 <= newPos <= |s| ==>
                (ok <==> !SentinelHit(pos, newPos))
      ensures forall s :: Numbered(old(rows), pid, s) && 1 <= pos <= |s| && 1 <= newPos <= |s| && ok ==>
                Numbered(rows, pid, Move(s, pos - 1, newPos - 1))
    {
      forall s | Numbered(rows, pid, s) && 1 <= pos <= |s| && 1 <= newPos <= |s| && !SentinelHit(pos, newPos)
        ensures Numbered(Reordered(rows, pid, pos, newPos), pid, Move(s, pos - 1, newPos - 1))
      {
        ReorderIsMove(rows, pid, s, pos, newPos);
      }
      if pos == newPos {
        return true;
      }
      ghost var t := rows;
      ghost var t1 := After(t, pid, MoveAside(pos));
      ghost var t2 := After(t1, pid, Shift(pos, newPos));
      ghost var t3 := After(t2, pid, FlipBack);
      AfterPositions(t, pid, MoveAside(pos));
      AfterPositions(t1, pid, Shift(pos, newPos));
      AfterPositions(t2, pid, FlipBack);
      AfterPositions(t3, pid, PutBack(newPos));
      forall s | Numbered(t, pid, s)
        ensures ClearOfSentinel(|s|, pos, newPos) ==>
                  && Collisionless(t, Target(t, pid, MoveAside(pos)))
                  && (Unique(t1) ==> Collisionless(t1, Target(t1, pid, Shift(pos, newPos))))
                  && (Unique(t2) ==> Collisionless(t2, Target(t2, pid, FlipBack)))
                  && (Unique(t3) ==> Collisionless(t3, Target(t3, pid, PutBack(newPos))))
        ensures 1 <= pos <= |s| && 1 <= newPos <= |s| && SentinelHit(pos, newPos) ==> !Unique(t2)
      {
        if ClearOfSentinel(|s|, pos, newPos) {
          ReorderSafe(t, pid, s, pos, newPos);
        }
        if 1 <= pos <= |s| && 1 <= newPos <= |s| && SentinelHit(pos, newPos) {
          SentinelBlocks(t, pid, s, pos, newPos);
        }
      }
      ok := Execute(pid, MoveAside(pos));
      if ok {
        ok := Execute(pid, Shift(pos, newPos));
        if ok {
          ok := Execute(pid, FlipBack);
          if ok {
            ok := Execute(pid, PutBack(newPos));
          }
        }
      }
    }

    /** ROW_NUMBER() OVER (ORDER BY id DESC) over the rows of one playlist. */
    method RowsByDescendingId(pid: string) returns (order: seq<nat>)
      requires Unique(rows)
      ensures DescendingRows(rows, pid, order)
    {
      var all := set r | r in rows && rows[r].playlist == pid;
      var todo := all;
      order := [];
      hide Unique;
      while todo != {}
        invariant todo <= all && ListedDown(rows, all, order, todo)
      {
        HighestRow(rows, todo);
        var r :| r in todo && forall q :: q in todo ==> rows[q].pos <= rows[r].pos;
        OneMoreListed(rows, pid, all, order, todo, r);
        order, todo := order + [r], todo - {r};
      }
    }

    /**
     renumber: negate what is positive, then number the rows 1..n by descending id. It
     succeeds exactly when no two rows stand at opposite positions, whatever the visit orders.
     */
    method Renumber(pid: string) returns (ok: bool)
      requires Unique(rows)
      modifies this
      ensures Unique(rows) && OnlyMoves(old(rows), rows, pid)
      ensures ok <==> !OppositePair(old(rows), pid)
      ensures ok ==> forall ps, s :: Layout(old(rows), pid, ps, s) ==> Numbered(rows, pid, s)
      ensures !ok ==> rows == old(rows)
    {
      hide Layout, RowNumbers, DescendingRows, Numbered, OppositePair, Collisionless, MayEnd;
      ghost var t := rows;
      NegationSafeIff(t, pid);
      AfterPositions(t, pid, NegateAll);
      ok := Execute(pid, NegateAll);
      if ok {
        var order := RowsByDescendingId(pid);
        forall ps, s | Layout(t, pid, ps, s)
          ensures Numbered(Assigned(rows, RowNumbers(order)), pid, s)
        {
          RenumberedIsNumbered(t, pid, order, ps, s);
        }
        NumberingSafe(rows, pid, order);
        ok := Update(RowNumbers(order));
      }
    }

    /** Deletes the tracks at the given positions and closes the gaps. */
    method Delete(pid: string, ids: set<int>) returns (ok: bool)
      requires Unique(rows)
      modifies this
      ensures Unique(rows)
      ensures OnlyMoves(Deleted(old(rows), pid, ids), rows, pid)
      ensures forall r :: r in rows <==> r in old(rows) && !(old(rows)[r].playlist == pid && old(rows)[r].pos in ids)
      ensures forall r :: r in rows ==> r in old(rows) && rows[r] == old(rows)[r].(pos := rows[r].pos)
      ensures forall r :: r in rows && rows[r].playlist != pid ==> rows[r] == old(rows)[r]
      ensures forall s :: Numbered(old(rows), pid, s) ==> ok && Numbered(rows, pid, Survivors(s, ids))
    {
      forall s | Numbered(rows, pid, s)
        ensures Layout(Deleted(rows, pid, ids), pid, Remaining(|s|, ids), Survivors(s, ids))
        ensures !OppositePair(Deleted(rows, pid, ids), pid)
      {
        DeletedLayout(rows, pid, s, ids);
      }
      rows := Deleted(rows, pid, ids);
      ok := Renumber(pid);
    }

    /** INSERT of one row per track; the statement fails as a whole on a taken position. */
    method Insert(pid: string, start: int, ids: seq<Media>) returns (ok: bool)
      requires Unique(rows)
      modifies this
      ensures Unique(rows)
      ensures if ok then Appended(old(rows), rows, pid, start, ids) else rows == old(rows)
      ensures ok <==> PositionsFree(old(rows), pid, start, start + |ids|)
    {
      ok, rows := InsertInto(rows, pid, start, ids);
    }

    /** addTracks: inserts chunk by chunk, which amounts to one unchunked insert. */
    method AddTracks(pid: string, startingPos: int, mediaIds: seq<Media>) returns (ok: bool)
      requires Unique(rows)
      modifies this
      ensures Unique(rows)
      ensures ok ==> Appended(old(rows), rows, pid, startingPos, mediaIds)
      ensures ok <==> PositionsFree(old(rows), pid, startingPos, startingPos + |mediaIds|)
      ensures forall r :: r in old(rows) ==> r in rows && rows[r] == old(rows)[r]
      ensures forall r :: r in rows && r !in old(rows) ==> rows[r].playlist == pid
    {
      var done := 0;
      hide Appended, AppendedUpTo, PositionsFree, Unique;
      AppendedEnds(rows, rows, pid, startingPos, mediaIds);
      while done < |mediaIds|
        invariant done <= |mediaIds| && Unique(rows)
        invariant AppendedUpTo(old(rows), rows, pid, startingPos, mediaIds, done)
        invariant PositionsFree(old(rows), pid, startingPos, startingPos + done)
      {
        var next := if done + CHUNK < |mediaIds| then done + CHUNK else |mediaIds|;
        ghost var earlier := rows;
        NextChunk(old(rows), earlier, pid, startingPos, mediaIds, done, next);
        ok := Insert(pid, startingPos + done, mediaIds[done..next]);
        if !ok {
          AppendedRows(old(rows), rows, pid, startingPos, mediaIds, done);
          return;
        }
        ChunkAppended(old(rows), earlier, rows, pid, startingPos, mediaIds, done, next);
        done := next;
      }
      AppendedRows(old(rows), rows, pid, startingPos, mediaIds, done);
      AppendedEnds(old(rows), rows, pid, startingPos, mediaIds);
      return true;
    }

    /** SELECT max(id), where an empty playlist reads as 0. */
    method MaxId(pid: string) returns (max: int)
      ensures forall r :: r in rows && rows[r].playlist == pid ==> rows[r].pos <= max
      ensures HasPos(rows, pid, max) || (max == 0 && forall r :: r in rows ==> rows[r].playlist != pid)
    {
      var mine := set r | r in rows && rows[r].playlist == pid;
      assert forall r :: r in rows && rows[r].playlist == pid ==> r in mine;
      if mine == {} {
        return 0;
      }
      HighestRow(rows, mine);
      var r :| r in mine && forall q :: q in mine ==> rows[q].pos <= rows[r].pos;
      return rows[r].pos;
    }

    /** Add: appends after the highest position, computed as a 32-bit integer. */
    method Add(pid: string, mediaIds: seq<Media>) returns (ok: bool)
      requires Unique(rows)
      modifies this
      ensures Unique(rows)
      ensures forall s :: Numbered(old(rows), pid, s) && |s| < 0x7FFF_FFFF ==>
                ok && Numbered(rows, pid, s + mediaIds)
      ensures forall r :: r in old(rows) ==> r in rows && rows[r] == old(rows)[r]
      ensures forall r :: r in rows && r !in old(rows) ==> rows[r].playlist == pid
    {
      if mediaIds == [] {
        assert forall s: seq<Media> :: s + mediaIds == s;
        return true;
      }
      var max := MaxId(pid);
      ghost var before := rows;
      ok := AddTracks(pid, Wrap32(max + 1), mediaIds);
      forall s | Numbered(before, pid, s) && |s| < 0x7FFF_FFFF
        ensures ok && Numbered(rows, pid, s + mediaIds)
      {
        MaxOfNumbered(before, pid, s, max);
        assert ok;
        AppendedAll(before, rows, pid, s, mediaIds);
      }
    }

    /** updatePlaylist: replaces the whole track list. */
    method UpdatePlaylist(pid: string, mediaIds: seq<Media>) returns (ok: bool)
      requires Unique(rows)
      modifies this
      ensures Unique(rows) && ok && Numbered(rows, pid, mediaIds)
      ensures forall r :: r in old(rows) && old(rows)[r].playlist != pid ==> r in rows && rows[r] == old(rows)[r]
      ensures forall r :: r in rows && rows[r].playlist != pid ==> r in old(rows) && rows[r] == old(rows)[r]
    {
      rows := map r | r in rows && rows[r].playlist != pid :: rows[r];
      ghost var emptied := rows;
      assert Numbered(emptied, pid, []);
      ok := AddTracks(pid, 1, mediaIds);
      AppendedAll(emptied, rows, pid, [], mediaIds);
      assert [] + mediaIds == mediaIds;
    }

    /**
     removeOrphans: in every listed playlist that has tracks outside `media`, deletes them
     and renumbers. `lists` names the track lists at the start.
     */
    method RemoveOrphans(playlists: set<string>, media: set<Media>, ghost lists: map<string, seq<Media>>) returns (ok: bool)
      requires Unique(rows)
      requires forall pid :: pid in playlists ==> pid in lists && Numbered(rows, pid, lists[pid])
      modifies this
      ensures Unique(rows) && ok
      ensures forall pid :: pid in playlists ==> Numbered(rows, pid, KeepMedia(lists[pid], media))
      ensures KeepsOthers(old(rows), rows, playlists)
    {
      var todo := set pid | pid in playlists && OrphanPositions(rows, pid, media) != {};
      OrphanFreeListsHold(rows, playlists, todo, lists, media);
      while todo != {}
        invariant Unique(rows) && todo <= playlists <= lists.Keys
        invariant ListsHold(rows, playlists, todo, lists, media)
        invariant KeepsOthers(old(rows), rows, playlists)
      {
        var pid :| pid in todo;
        ghost var before := rows;
        ok := Delete(pid, OrphanPositions(rows, pid, media));
        OnePlaylistCleaned(before, rows, playlists, todo, lists, media, pid);
        todo := todo - {pid};
      }
      return true;
    }
  }
}
