/**
 What the position statements of the playlist repository compute, as functions on
 tables, and what they mean for the playlist as a list of tracks.
 */
module PlaylistPositions {
  import opened PlaylistRows

  const SENTINEL: int := -999999

  /** The UPDATE statements of Reorder and the first one of renumber. */
  datatype Statement =
    | MoveAside(pos: int)
    | ShiftDown(pos: int, newPos: int)
    | ShiftUp(pos: int, newPos: int)
    | FlipBack
    | PutBack(newPos: int)
    | NegateAll
  {
    /** The WHERE clause, apart from playlist_id. */
    predicate Matches(p: int) {
      match this
      case MoveAside(pos) => p == pos
      case ShiftDown(pos, newPos) => p > pos && p <= newPos
      case ShiftUp(pos, newPos) => p >= newPos && p < pos
      case FlipBack => p < 0 && p != SENTINEL
      case PutBack(newPos) => p == SENTINEL
      case NegateAll => p > 0
    }

    /** The SET clause. */
    function Value(p: int): int {
      match this
      case MoveAside(pos) => SENTINEL
      case ShiftDown(pos, newPos) => -(p - 1)
      case ShiftUp(pos, newPos) => -(p + 1)
      case FlipBack => -p
      case PutBack(newPos) => newPos
      case NegateAll => -p
    }

    function Moves(p: int): int {
      if Matches(p) then Value(p) else p
    }
  }

  function Target(t: Table, pid: string, st: Statement): (target: map<nat, int>)
    ensures target.Keys <= t.Keys
  {
    map r | r in t && t[r].playlist == pid && st.Matches(t[r].pos) :: st.Value(t[r].pos)
  }

  function After(t: Table, pid: string, st: Statement): (t': Table)
    ensures t'.Keys == t.Keys
  {
    Assigned(t, Target(t, pid, st))
  }

  /** The playlist's rows carry the positions 1..|s|, and position i holds track s[i-1]. */
  ghost predicate Numbered(t: Table, pid: string, s: seq<Media>) {
    && (forall r :: r in t && t[r].playlist == pid ==>
          1 <= t[r].pos <= |s| && t[r].media == s[t[r].pos - 1])
    && (forall i :: 1 <= i <= |s| ==> HasPos(t, pid, i))
  }

  predicate HasPos(t: Table, pid: string, i: int) {
    exists r :: r in t && t[r].playlist == pid && t[r].pos == i
  }

  ghost predicate Dense(t: Table, pid: string) {
    exists s :: Numbered(t, pid, s)
  }

  /** Rows keep their playlist and their track; rows of other playlists keep their position. */
  ghost predicate OnlyMoves(t: Table, t': Table, pid: string) {
    && t'.Keys == t.Keys
    && (forall r :: r in t ==> t'[r].playlist == t[r].playlist && t'[r].media == t[r].media)
    && (forall r :: r in t && t[r].playlist != pid ==> t'[r].pos == t[r].pos)
  }

  // ----- Reorder -----

  function Shift(pos: int, newPos: int): Statement {
    if pos < newPos then ShiftDown(pos, newPos) else ShiftUp(pos, newPos)
  }

  /** The table after the four statements of Reorder. */
  function Reordered(t: Table, pid: string, pos: int, newPos: int): (t': Table)
    ensures t'.Keys == t.Keys
  {
    if pos == newPos then t
    else
      var t1 := After(t, pid, MoveAside(pos));
      var t2 := After(t1, pid, Shift(pos, newPos));
      var t3 := After(t2, pid, FlipBack);
      After(t3, pid, PutBack(newPos))
  }

  /** Where the four statements take position p. */
  function FinalPos(p: int, pos: int, newPos: int): int {
    if pos == newPos then p
    else PutBack(newPos).Moves(FlipBack.Moves(Shift(pos, newPos).Moves(MoveAside(pos).Moves(p))))
  }

  lemma AfterPositions(t: Table, pid: string, st: Statement)
    ensures OnlyMoves(t, After(t, pid, st), pid)
    ensures forall r :: r in t && t[r].playlist == pid ==> After(t, pid, st)[r].pos == st.Moves(t[r].pos)
  {
  }

  lemma ReorderedPositions(t: Table, pid: string, pos: int, newPos: int)
    ensures OnlyMoves(t, Reordered(t, pid, pos, newPos), pid)
    ensures forall r :: r in t && t[r].playlist == pid ==>
              Reordered(t, pid, pos, newPos)[r].pos == FinalPos(t[r].pos, pos, newPos)
  {
    if pos != newPos {
      var t1 := After(t, pid, MoveAside(pos));
      var t2 := After(t1, pid, Shift(pos, newPos));
      var t3 := After(t2, pid, FlipBack);
      AfterPositions(t, pid, MoveAside(pos));
      AfterPositions(t1, pid, Shift(pos, newPos));
      AfterPositions(t2, pid, FlipBack);
      AfterPositions(t3, pid, PutBack(newPos));
      forall r | r in t && t[r].playlist == pid
        ensures Reordered(t, pid, pos, newPos)[r].pos == FinalPos(t[r].pos, pos, newPos)
      {
        assert t1[r].playlist == t2[r].playlist == t3[r].playlist == pid;
      }
    }
  }

  /** The list with the element at index i taken out and inserted at index j of the rest. */
  function Move<T>(s: seq<T>, i: nat, j: nat): (s': seq<T>)
    requires i < |s| && j < |s|
    ensures |s'| == |s|
  {
    var rest := s[..i] + s[i + 1..];
    rest[..j] + [s[i]] + rest[j..]
  }

  /** The negated range contains the sentinel value itself. */
  predicate SentinelHit(pos: int, newPos: int) {
    pos <= 999_999 < newPos || newPos < 999_999 <= pos
  }

  lemma MoveAt(s: seq<Media>, pos: int, newPos: int, p: int)
    requires 1 <= pos <= |s| && 1 <= newPos <= |s| && 1 <= p <= |s|
    requires !SentinelHit(pos, newPos)
    ensures 1 <= FinalPos(p, pos, newPos) <= |s|
    ensures Move(s, pos - 1, newPos - 1)[FinalPos(p, pos, newPos) - 1] == s[p - 1]
  {
  }

  /** The position that Reorder moves to i. */
  function Origin(i: int, pos: int, newPos: int): int {
    if i == newPos then pos
    else if pos < newPos && pos <= i < newPos then i + 1
    else if newPos < pos && newPos < i <= pos then i - 1
    else i
  }

  lemma OriginInverts(n: nat, pos: int, newPos: int, i: int)
    requires 1 <= pos <= n && 1 <= newPos <= n && 1 <= i <= n && !SentinelHit(pos, newPos)
    ensures 1 <= Origin(i, pos, newPos) <= n
    ensures FinalPos(Origin(i, pos, newPos), pos, newPos) == i
  {
  }

  /** Moving every row from p to f(p), a bijection with inverse g, renames the list accordingly. */
  lemma RelocatedIsNumbered(t: Table, t': Table, pid: string, s: seq<Media>, s': seq<Media>, f: int -> int, g: int -> int)
    requires Numbered(t, pid, s) && OnlyMoves(t, t', pid) && |s'| == |s|
    requires forall r :: r in t && t[r].playlist == pid ==> t'[r].pos == f(t[r].pos)
    requires forall p :: 1 <= p <= |s| ==> 1 <= f(p) <= |s| && s'[f(p) - 1] == s[p - 1]
    requires forall i :: 1 <= i <= |s| ==> 1 <= g(i) <= |s| && f(g(i)) == i
    ensures Numbered(t', pid, s')
  {
    forall i | 1 <= i <= |s'|
      ensures HasPos(t', pid, i)
    {
      var r := RowAt(t, pid, g(i));
      assert t'[r].playlist == pid && t'[r].pos == i;
    }
  }

  /** In range and clear of the sentinel, Reorder is remove-at-pos, insert-at-newPos. */
  lemma ReorderIsMove(t: Table, pid: string, s: seq<Media>, pos: int, newPos: int)
    requires Numbered(t, pid, s)
    requires 1 <= pos <= |s| && 1 <= newPos <= |s| && !SentinelHit(pos, newPos)
    ensures Numbered(Reordered(t, pid, pos, newPos), pid, Move(s, pos - 1, newPos - 1))
  {
    var s' := Move(s, pos - 1, newPos - 1);
    var f := (p: int) => FinalPos(p, pos, newPos);
    var g := (i: int) => Origin(i, pos, newPos);
    ReorderedPositions(t, pid, pos, newPos);
    forall p | 1 <= p <= |s|
      ensures 1 <= f(p) <= |s| && s'[f(p) - 1] == s[p - 1]
    {
      MoveAt(s, pos, newPos, p);
    }
    forall i | 1 <= i <= |s|
      ensures 1 <= g(i) <= |s| && f(g(i)) == i
    {
      OriginInverts(|s|, pos, newPos, i);
    }
    RelocatedIsNumbered(t, Reordered(t, pid, pos, newPos), pid, s, s', f, g);
  }

  lemma RowAt(t: Table, pid: string, p: int) returns (r: nat)
    requires HasPos(t, pid, p)
    ensures r in t && t[r].playlist == pid && t[r].pos == p
  {
    r :| r in t && t[r].playlist == pid && t[r].pos == p;
  }

  /** The statement does not send position p to where q is or goes. */
  predicate Safe(st: Statement, p: int, q: int) {
    st.Matches(p) ==> st.Value(p) != q && (st.Matches(q) ==> st.Value(p) != st.Value(q))
  }

  lemma CollisionlessByPosition(t: Table, pid: string, st: Statement)
    requires Unique(t)
    requires forall a, b ::
               a in t && b in t && t[a].playlist == t[b].playlist == pid && a != b ==> Safe(st, t[a].pos, t[b].pos)
    ensures Collisionless(t, Target(t, pid, st))
  {
  }

  /** Arguments for which Reorder never runs into the sentinel on a playlist of n tracks. */
  predicate ClearOfSentinel(n: nat, pos: int, newPos: int) {
    n < 999998 || (1 <= pos <= n && 1 <= newPos <= n && !SentinelHit(pos, newPos))
  }

  /** Two rows of a numbered playlist stay out of each other's way through all four statements. */
  lemma StepsSafe(n: nat, pos: int, newPos: int, p: int, q: int)
    requires pos != newPos && ClearOfSentinel(n, pos, newPos)
    requires 1 <= p <= n && 1 <= q <= n && p != q
    ensures Safe(MoveAside(pos), p, q)
    ensures var p1, q1 := MoveAside(pos).Moves(p), MoveAside(pos).Moves(q);
            var p2, q2 := Shift(pos, newPos).Moves(p1), Shift(pos, newPos).Moves(q1);
            var p3, q3 := FlipBack.Moves(p2), FlipBack.Moves(q2);
            Safe(Shift(pos, newPos), p1, q1) && Safe(FlipBack, p2, q2) && Safe(PutBack(newPos), p3, q3)
  {
  }

  /** Statement by statement, Reorder is safe in every visit order. */
  lemma ReorderSafe(t: Table, pid: string, s: seq<Media>, pos: int, newPos: int)
    requires Unique(t) && Numbered(t, pid, s) && pos != newPos && ClearOfSentinel(|s|, pos, newPos)
    ensures Collisionless(t, Target(t, pid, MoveAside(pos)))
    ensures var t1 := After(t, pid, MoveAside(pos));
            var t2 := After(t1, pid, Shift(pos, newPos));
            var t3 := After(t2, pid, FlipBack);
            && (Unique(t1) ==> Collisionless(t1, Target(t1, pid, Shift(pos, newPos))))
            && (Unique(t2) ==> Collisionless(t2, Target(t2, pid, FlipBack)))
            && (Unique(t3) ==> Collisionless(t3, Target(t3, pid, PutBack(newPos))))
  {
    var t1 := After(t, pid, MoveAside(pos));
    var t2 := After(t1, pid, Shift(pos, newPos));
    var t3 := After(t2, pid, FlipBack);
    AfterPositions(t, pid, MoveAside(pos));
    AfterPositions(t1, pid, Shift(pos, newPos));
    AfterPositions(t2, pid, FlipBack);
    forall a, b | a in t && b in t && a != b && t[a].playlist == t[b].playlist == pid
      ensures Safe(MoveAside(pos), t[a].pos, t[b].pos)
      ensures Safe(Shift(pos, newPos), t1[a].pos, t1[b].pos)
      ensures Safe(FlipBack, t2[a].pos, t2[b].pos)
      ensures Safe(PutBack(newPos), t3[a].pos, t3[b].pos)
    {
      StepsSafe(|s|, pos, newPos, t[a].pos, t[b].pos);
    }
    CollisionlessByPosition(t, pid, MoveAside(pos));
    if Unique(t1) {
      CollisionlessByPosition(t1, pid, Shift(pos, newPos));
    }
    if Unique(t2) {
      CollisionlessByPosition(t2, pid, FlipBack);
    }
    if Unique(t3) {
      CollisionlessByPosition(t3, pid, PutBack(newPos));
    }
  }

  /** When the negated range contains the sentinel, the shift puts a second row there. */
  lemma SentinelBlocks(t: Table, pid: string, s: seq<Media>, pos: int, newPos: int)
    requires Numbered(t, pid, s)
    requires 1 <= pos <= |s| && 1 <= newPos <= |s| && SentinelHit(pos, newPos)
    ensures !Unique(After(After(t, pid, MoveAside(pos)), pid, Shift(pos, newPos)))
  {
    var t1 := After(t, pid, MoveAside(pos));
    var t2 := After(t1, pid, Shift(pos, newPos));
    AfterPositions(t, pid, MoveAside(pos));
    AfterPositions(t1, pid, Shift(pos, newPos));
    var q := if pos < newPos then -SENTINEL + 1 else -SENTINEL - 1;
    assert HasPos(t, pid, pos) && HasPos(t, pid, q);
    var a := RowAt(t, pid, pos);
    var b := RowAt(t, pid, q);
    assert t1[a].playlist == t1[b].playlist == pid;
    assert t2[a].pos == t2[b].pos == SENTINEL;
  }

  /**
   Reorder with any arguments at all, on a playlist shorter than the sentinel: the
   numbering stays dense exactly when both positions exist, or nothing is asked to move.
   */
  lemma ReorderDenseIff(t: Table, pid: string, s: seq<Media>, pos: int, newPos: int)
    requires Numbered(t, pid, s) && |s| < 999998
    ensures Dense(Reordered(t, pid, pos, newPos), pid)
       <==> || |s| == 0 || pos == newPos
            || (1 <= pos <= |s| && 1 <= newPos <= |s|)
            || (pos < 1 && newPos < 1)
            || (pos > |s| && newPos > |s|)
  {
    hide Reordered;
    var n := |s|;
    if 1 <= pos <= n && 1 <= newPos <= n {
      ReorderIsMove(t, pid, s, pos, newPos);
    } else if n == 0 || pos == newPos || (pos < 1 && newPos < 1) || (pos > n && newPos > n) {
      ReorderNothing(t, pid, s, pos, newPos);
    } else {
      ReorderLeavesGap(t, pid, s, pos, newPos);
    }
  }

  /** With no position in range to move from or to, all rows stay where they are. */
  lemma ReorderNothing(t: Table, pid: string, s: seq<Media>, pos: int, newPos: int)
    requires Numbered(t, pid, s) && |s| < 999998
    requires |s| == 0 || pos == newPos || (pos < 1 && newPos < 1) || (pos > |s| && newPos > |s|)
    ensures Numbered(Reordered(t, pid, pos, newPos), pid, s)
  {
    var t' := Reordered(t, pid, pos, newPos);
    ReorderedPositions(t, pid, pos, newPos);
    hide Reordered;
    assert forall p :: 1 <= p <= |s| ==> FinalPos(p, pos, newPos) == p;
    forall i | 1 <= i <= |s|
      ensures HasPos(t', pid, i)
    {
      assert HasPos(t, pid, i);
      var r :| r in t && t[r].playlist == pid && t[r].pos == i;
      assert t'[r].pos == i;
    }
  }

  /** With one position in range and the other not, some position ends up missing. */
  lemma ReorderLeavesGap(t: Table, pid: string, s: seq<Media>, pos: int, newPos: int)
    requires Numbered(t, pid, s) && 0 < |s| < 999998 && pos != newPos
    requires !(1 <= pos <= |s| && 1 <= newPos <= |s|)
    requires !(pos < 1 && newPos < 1) && !(pos > |s| && newPos > |s|)
    ensures !Dense(Reordered(t, pid, pos, newPos), pid)
  {
    var t', n := Reordered(t, pid, pos, newPos), |s|;
    ReorderedPositions(t, pid, pos, newPos);
    // A row that ends up out of range, or beyond a position that nobody holds.
    var p := if pos < 1 then 1 else if pos <= n then pos else n;
    assert HasPos(t, pid, p);
    var far := RowAt(t, pid, p);
    assert t'[far].playlist == pid && t'[far].pos == FinalPos(p, pos, newPos);
    var gap := if newPos < 1 then 1 else if pos > n then newPos else n;
    if pos >= 1 {
      GapIsFree(n, pos, newPos, gap, p);
      forall r | r in t' && t'[r].playlist == pid
        ensures t'[r].pos != gap
      {
        assert t[r].playlist == pid;
      }
    }
    forall s'
      ensures !Numbered(t', pid, s')
    {
      assert pos >= 1 ==> !HasPos(t', pid, gap);
    }
  }

  lemma GapIsFree(n: nat, pos: int, newPos: int, gap: int, p: int)
    requires 0 < n < 999998 && pos >= 1 && pos != newPos
    requires (pos <= n && !(1 <= newPos <= n)) || (pos > n && newPos <= n)
    requires gap == if newPos < 1 then 1 else if pos > n then newPos else n
    requires p == if pos <= n then pos else n
    ensures FinalPos(p, pos, newPos) < 1 || FinalPos(p, pos, newPos) > gap >= 1
    ensures forall q :: 1 <= q <= n ==> FinalPos(q, pos, newPos) != gap
  {
  }

  // ----- renumber -----

  /** The rows of one playlist, each once, by descending position. */
  ghost predicate DescendingRows(t: Table, pid: string, order: seq<nat>) {
    && (forall r :: r in order <==> r in t && t[r].playlist == pid)
    && (forall i, j :: 0 <= i < j < |order| ==> t[order[i]].pos > t[order[j]].pos)
  }

  /** ROW_NUMBER() over that order. */
  function RowNumbers(order: seq<nat>): map<nat, int> {
    if order == [] then map[]
    else RowNumbers(order[..|order| - 1])[order[|order| - 1] := |order|]
  }

  lemma {:induction false} RowNumbersAt(order: seq<nat>)
    requires forall i, j :: 0 <= i < j < |order| ==> order[i] != order[j]
    ensures forall r :: r in RowNumbers(order) <==> r in order
    ensures forall i :: 0 <= i < |order| ==> order[i] in RowNumbers(order) && RowNumbers(order)[order[i]] == i + 1
  {
    if order != [] {
      var init := order[..|order| - 1];
      RowNumbersAt(init);
      assert order == init + [order[|order| - 1]];
    }
  }

  /** Two rows of the playlist at opposite positions, such as 3 and -3. */
  ghost predicate OppositePair(t: Table, pid: string) {
    exists a, b :: a in t && b in t && t[a].playlist == t[b].playlist == pid
                   && t[a].pos > 0 && t[b].pos == -t[a].pos
  }

  /**
   The playlist's tracks s stand at the positions ps. The positions increase, with
   arbitrary gaps between them, and are compared without regard to sign.
   */
  ghost predicate Layout(t: Table, pid: string, ps: seq<int>, s: seq<Media>) {
    && |ps| == |s|
    && (forall i, j :: 0 <= i < j < |ps| ==> ps[i] < ps[j])
    && (forall i :: 0 <= i < |ps| ==> HasMagnitude(t, pid, ps[i]))
    && (forall r :: r in t && t[r].playlist == pid ==>
          exists i :: 0 <= i < |ps| && ps[i] == Abs(t[r].pos) && s[i] == t[r].media)
  }

  function Abs(x: int): int {
    if x < 0 then -x else x
  }

  ghost predicate HasMagnitude(t: Table, pid: string, p: int) {
    exists r :: r in t && t[r].playlist == pid && Abs(t[r].pos) == p
  }

  /** Strictly increasing sequences with the same elements are equal. */
  lemma {:induction false} IncreasingUnique(a: seq<int>, b: seq<int>)
    requires forall i, j :: 0 <= i < j < |a| ==> a[i] < a[j]
    requires forall i, j :: 0 <= i < j < |b| ==> b[i] < b[j]
    requires forall x :: x in a <==> x in b
    ensures a == b
  {
    if a == [] {
      assert forall i :: 0 <= i < |b| ==> b[i] in a;
    } else {
      assert a[0] in b && b != [] && b[0] in a;
      assert a[0] == b[0];
      forall x
        ensures x in a[1..] <==> x in b[1..]
      {
        if x in a[1..] {
          assert x in a && x != a[0];
          assert x in b && x != b[0];
        }
        if x in b[1..] {
          assert x in b && x != b[0];
          assert x in a && x != a[0];
        }
      }
      IncreasingUnique(a[1..], b[1..]);
    }
  }

  function Magnitudes(t: Table, order: seq<nat>): (m: seq<int>)
    requires forall i :: 0 <= i < |order| ==> order[i] in t
    ensures |m| == |order| && forall i :: 0 <= i < |order| ==> m[i] == Abs(t[order[i]].pos)
  {
    seq(|order|, i requires 0 <= i < |order| => Abs(t[order[i]].pos))
  }

  /** Negated, the rows stand at minus their magnitudes, so they are visited by growing magnitude. */
  lemma DescendingByMagnitude(t: Table, pid: string, order: seq<nat>)
    requires Unique(t) && DescendingRows(After(t, pid, NegateAll), pid, order)
    ensures forall r :: r in order <==> r in t && t[r].playlist == pid
    ensures forall i :: 0 <= i < |order| ==> order[i] in t && t[order[i]].playlist == pid
    ensures forall i, j :: 0 <= i < j < |order| ==> Magnitudes(t, order)[i] < Magnitudes(t, order)[j]
  {
    var t1 := After(t, pid, NegateAll);
    AfterPositions(t, pid, NegateAll);
    hide After, Unique, Magnitudes;
    forall i | 0 <= i < |order|
      ensures order[i] in t && t[order[i]].playlist == pid && t1[order[i]].pos == -Abs(t[order[i]].pos)
    {
      assert order[i] in order;
    }
    forall i, j | 0 <= i < j < |order|
      ensures Magnitudes(t, order)[i] < Magnitudes(t, order)[j]
    {
      assert t1[order[i]].pos > t1[order[j]].pos;
    }
  }

  lemma MagnitudesOf(t: Table, pid: string, order: seq<nat>, x: int)
    requires forall r :: r in order <==> r in t && t[r].playlist == pid
    requires forall i :: 0 <= i < |order| ==> order[i] in t
    ensures x in Magnitudes(t, order) <==> HasMagnitude(t, pid, x)
  {
    hide Magnitudes, Abs;
    if x in Magnitudes(t, order) {
      var i :| 0 <= i < |order| && Magnitudes(t, order)[i] == x;
      assert order[i] in order;
    }
    if HasMagnitude(t, pid, x) {
      var r :| r in t && t[r].playlist == pid && Abs(t[r].pos) == x;
      assert r in order;
      var i :| 0 <= i < |order| && order[i] == r;
      assert Magnitudes(t, order)[i] == x;
    }
  }

  lemma LayoutMagnitudes(t: Table, pid: string, ps: seq<int>, s: seq<Media>, x: int)
    requires Layout(t, pid, ps, s)
    ensures x in ps <==> HasMagnitude(t, pid, x)
  {
    hide Abs;
    if HasMagnitude(t, pid, x) {
      var r :| r in t && t[r].playlist == pid && Abs(t[r].pos) == x;
    }
  }

  /** Negating what is positive and sorting downwards visits the positions ps from the start. */
  lemma DescendingFollowsLayout(t: Table, pid: string, order: seq<nat>, ps: seq<int>, s: seq<Media>)
    requires Unique(t) && Layout(t, pid, ps, s)
    requires DescendingRows(After(t, pid, NegateAll), pid, order)
    ensures |order| == |ps|
    ensures forall i :: 0 <= i < |order| ==>
              order[i] in t && t[order[i]].playlist == pid && t[order[i]].media == s[i]
  {
    DescendingByMagnitude(t, pid, order);
    hide Unique, DescendingRows, After, Magnitudes, HasMagnitude, Abs;
    forall x
      ensures x in Magnitudes(t, order) <==> x in ps
    {
      MagnitudesOf(t, pid, order, x);
      LayoutMagnitudes(t, pid, ps, s, x);
    }
    IncreasingUnique(Magnitudes(t, order), ps);
    forall i | 0 <= i < |order|
      ensures t[order[i]].media == s[i]
    {
      var k :| 0 <= k < |ps| && ps[k] == Abs(t[order[i]].pos) && s[k] == t[order[i]].media;
      assert ps[k] == ps[i] && k == i;
    }
  }

  /** The playlist's rows listed in the order of the tracks s, with the numbers they are to get. */
  ghost predicate Listing(t: Table, pid: string, order: seq<nat>, target: map<nat, int>, s: seq<Media>) {
    && |order| == |s|
    && (forall r :: r in order <==> r in t && t[r].playlist == pid)
    && (forall r :: r in target <==> r in order)
    && (forall i :: 0 <= i < |order| ==>
          order[i] in t && t[order[i]].media == s[i] && order[i] in target && target[order[i]] == i + 1)
  }

  lemma ListedRow(t: Table, pid: string, order: seq<nat>, target: map<nat, int>, s: seq<Media>, r: nat)
    requires Listing(t, pid, order, target, s) && r in t && t[r].playlist == pid
    ensures r in target && 1 <= target[r] <= |s| && t[r].media == s[target[r] - 1]
  {
    assert r in order;
    var i :| 0 <= i < |order| && order[i] == r;
  }

  lemma ListedNumber(t: Table, pid: string, order: seq<nat>, target: map<nat, int>, s: seq<Media>, i: int)
    requires Listing(t, pid, order, target, s) && 1 <= i <= |s|
    ensures HasPos(Assigned(t, target), pid, i)
  {
    var r := order[i - 1];
    assert r in order;
    assert Assigned(t, target)[r].pos == i && Assigned(t, target)[r].playlist == pid;
  }

  lemma ListedIsNumbered(t: Table, pid: string, order: seq<nat>, target: map<nat, int>, s: seq<Media>)
    requires Listing(t, pid, order, target, s)
    ensures target.Keys <= t.Keys
    ensures Numbered(Assigned(t, target), pid, s)
  {
    assert forall r :: r in target ==> r in order;
    hide Listing, HasPos;
    forall r | r in t && t[r].playlist == pid
      ensures r in target && 1 <= target[r] <= |s| && t[r].media == s[target[r] - 1]
    {
      ListedRow(t, pid, order, target, s, r);
    }
    forall i | 1 <= i <= |s|
      ensures HasPos(Assigned(t, target), pid, i)
    {
      ListedNumber(t, pid, order, target, s, i);
    }
  }

  /** Whatever the gaps between them, renumber gives the tracks the positions 1..n in their order. */
  lemma RenumberedIsNumbered(t: Table, pid: string, order: seq<nat>, ps: seq<int>, s: seq<Media>)
    requires Unique(t) && Layout(t, pid, ps, s)
    requires DescendingRows(After(t, pid, NegateAll), pid, order)
    ensures RowNumbers(order).Keys <= t.Keys
    ensures Numbered(Assigned(After(t, pid, NegateAll), RowNumbers(order)), pid, s)
  {
    AfterPositions(t, pid, NegateAll);
    DescendingFollowsLayout(t, pid, order, ps, s);
    RowNumbersAt(order);
    hide RowNumbers, After, Layout, Unique;
    ListedIsNumbered(After(t, pid, NegateAll), pid, order, RowNumbers(order), s);
  }
}
