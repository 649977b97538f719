/**
 The playlist_tracks table, its UNIQUE index on (playlist_id, id), and UPDATE statements
 executed one row at a time. SQLite checks the index after every single row, and the
 order in which rows are visited is up to the query planner.
 */
module PlaylistRows {
  import opened Options

  datatype Media = Media(id: string)

  /** A row: `pos` is the id column, the 1-based position of the track in its playlist. */
  datatype Row = Row(playlist: string, pos: int, media: Media)

  /** Rows by rowid, which no UPDATE changes. */
  type Table = map<nat, Row>

  ghost predicate Unique(t: Table) {
    forall a, b :: a in t && b in t && a != b && t[a].playlist == t[b].playlist ==> t[a].pos != t[b].pos
  }

  /** Would giving row r this position violate the UNIQUE index right now? */
  predicate Clashes(t: Table, r: nat, pos: int)
    requires r in t
  {
    exists b :: b in t && b != r && t[b].playlist == t[r].playlist && t[b].pos == pos
  }

  /** The outcome an UPDATE aims at: every row in `target` gets its new position. */
  function Assigned(t: Table, target: map<nat, int>): (t': Table)
    ensures t'.Keys == t.Keys
  {
    map r | r in t :: if r in target then t[r].(pos := target[r]) else t[r]
  }

  function Restrict(target: map<nat, int>, keys: set<nat>): map<nat, int> {
    map r | r in target && r in keys :: target[r]
  }

  /**
   Executes the row updates one by one in the given order. A violation aborts the
   statement, which undoes it as a whole.
   */
  function RunUpdate(t: Table, target: map<nat, int>, order: seq<nat>): Option<Table>
    requires forall r :: r in order ==> r in target && r in t
  {
    if order == [] then Some(t)
    else
      var r := order[0];
      if Clashes(t, r, target[r]) then None
      else RunUpdate(t[r := t[r].(pos := target[r])], target, order[1..])
  }

  /** No row is sent to a place that another row of its playlist has, or will have. */
  ghost predicate Collisionless(t: Table, target: map<nat, int>) {
    forall a, b :: a in target && a in t && b in t && a != b && t[a].playlist == t[b].playlist ==>
      target[a] != t[b].pos && (b in target ==> target[a] != target[b])
  }

  /** An outcome of the statement as a whole, in one of the orders in which rows may be visited. */
  ghost predicate MayEnd(t: Table, target: map<nat, int>, end: Option<Table>)
    requires target.Keys <= t.Keys
  {
    exists order :: VisitOrder(order, target.Keys) && RunUpdate(t, target, order) == end
  }

  ghost predicate VisitOrder(order: seq<nat>, rows: set<nat>) {
    && (forall r :: r in order <==> r in rows)
    && (forall i, j :: 0 <= i < j < |order| ==> order[i] != order[j])
  }

  function Elements(order: seq<nat>): set<nat> {
    set r | r in order
  }

  /** Updating one row of a collisionless statement leaves the rest of it collisionless. */
  lemma OneRowStep(t: Table, target: map<nat, int>, r: nat)
    requires Unique(t) && Collisionless(t, target) && target.Keys <= t.Keys && r in target
    ensures !Clashes(t, r, target[r])
    ensures Unique(t[r := t[r].(pos := target[r])])
    ensures Collisionless(t[r := t[r].(pos := target[r])], target - {r})
  {
  }

  lemma AssignedInTwoSteps(t: Table, target: map<nat, int>, r: nat, rest: set<nat>)
    requires target.Keys <= t.Keys && r in target && r !in rest
    ensures Assigned(t[r := t[r].(pos := target[r])], Restrict(target - {r}, rest))
         == Assigned(t, Restrict(target, {r} + rest))
  {
  }

  /**
   A collisionless statement succeeds in every visit order. As `order` may also cover a
   part of the rows only, this speaks of every state the statement passes through:
   after each single row update the index holds.
   */
  lemma {:induction false} AnyOrderSucceeds(t: Table, target: map<nat, int>, order: seq<nat>)
    requires Unique(t) && Collisionless(t, target) && target.Keys <= t.Keys
    requires forall r :: r in order ==> r in target
    requires forall i, j :: 0 <= i < j < |order| ==> order[i] != order[j]
    ensures RunUpdate(t, target, order) == Some(Assigned(t, Restrict(target, Elements(order))))
    ensures Unique(Assigned(t, Restrict(target, Elements(order))))
  {
    if order == [] {
      assert Assigned(t, Restrict(target, Elements(order))) == t;
    } else {
      hide Unique, Collisionless, Clashes, Assigned, Restrict, Elements;
      var r, rest := order[0], order[1..];
      var t' := t[r := t[r].(pos := target[r])];
      OneRowStep(t, target, r);
      AnyOrderSucceeds(t', target - {r}, rest);
      RunUpdateIgnoresOthers(t', target - {r}, target, rest);
      ElementsOfRest(order);
      AssignedInTwoSteps(t, target, r, Elements(rest));
    }
  }

  lemma ElementsOfRest(order: seq<nat>)
    requires order != [] && forall i, j :: 0 <= i < j < |order| ==> order[i] != order[j]
    ensures Elements(order) == {order[0]} + Elements(order[1..]) && order[0] !in Elements(order[1..])
  {
    assert order == [order[0]] + order[1..];
  }

  lemma {:induction false} RunUpdateIgnoresOthers(t: Table, target: map<nat, int>, wider: map<nat, int>, order: seq<nat>)
    requires forall r :: r in order ==> r in target && r in t && r in wider && wider[r] == target[r]
    ensures RunUpdate(t, target, order) == RunUpdate(t, wider, order)
  {
    if order != [] {
      var r := order[0];
      RunUpdateIgnoresOthers(t[r := t[r].(pos := target[r])], target, wider, order[1..]);
    }
  }

  lemma {:induction false} SomeOrderExists(rows: set<nat>) returns (order: seq<nat>)
    ensures VisitOrder(order, rows)
  {
    if rows == {} {
      order := [];
    } else {
      var r :| r in rows;
      var rest := SomeOrderExists(rows - {r});
      order := [r] + rest;
    }
  }

  lemma {:induction false} RunUpdateInTurn(t: Table, target: map<nat, int>, first: seq<nat>, second: seq<nat>)
    requires forall r :: r in first + second ==> r in target && r in t
    requires RunUpdate(t, target, first).Some?
    ensures forall r :: r in second ==> r in RunUpdate(t, target, first).value
    ensures RunUpdate(t, target, first + second) == RunUpdate(RunUpdate(t, target, first).value, target, second)
  {
    hide Clashes;
    if first == [] {
      assert first + second == second;
    } else {
      var r := first[0];
      assert (first + second)[1..] == first[1..] + second;
      assert forall q :: q in second ==> q in first + second;
      RunUpdateInTurn(t[r := t[r].(pos := target[r])], target, first[1..], second);
    }
  }

  /** One more row. */
  lemma RunUpdateFurther(t: Table, target: map<nat, int>, order: seq<nat>, r: nat)
    requires target.Keys <= t.Keys && VisitOrder(order, Elements(order)) && Elements(order) <= target.Keys
    requires r in target && r !in order && RunUpdate(t, target, order).Some?
    ensures r in RunUpdate(t, target, order).value
    ensures var now := RunUpdate(t, target, order).value;
            RunUpdate(t, target, order + [r]) == if Clashes(now, r, target[r]) then None else Some(now[r := now[r].(pos := target[r])])
    ensures VisitOrder(order + [r], Elements(order + [r])) && Elements(order + [r]) == Elements(order) + {r}
  {
    hide Clashes;
    assert forall q :: q in order + [r] ==> q in Elements(order) || q == r;
    RunUpdateInTurn(t, target, order, [r]);
  }

  lemma {:induction false} FailureIsFinal(t: Table, target: map<nat, int>, first: seq<nat>, second: seq<nat>)
    requires forall r :: r in first + second ==> r in target && r in t
    requires RunUpdate(t, target, first) == None
    ensures RunUpdate(t, target, first + second) == None
  {
    hide Clashes;
    var r := first[0];
    assert (first + second)[0] == r && (first + second)[1..] == first[1..] + second;
    if !Clashes(t, r, target[r]) {
      FailureIsFinal(t[r := t[r].(pos := target[r])], target, first[1..], second);
    }
  }

  lemma JoinedOrder(first: seq<nat>, second: seq<nat>, rows: set<nat>)
    requires VisitOrder(first, Elements(first)) && VisitOrder(second, rows - Elements(first)) && Elements(first) <= rows
    ensures VisitOrder(first + second, rows)
  {
    var order := first + second;
    assert forall r :: r in order <==> r in first || r in second;
    forall i, j | 0 <= i < j < |order|
      ensures order[i] != order[j]
    {
      if i < |first| <= j {
        assert first[i] in Elements(first) && second[j - |first|] in second;
      }
    }
  }

  lemma StoppedMayEnd(t: Table, target: map<nat, int>, order: seq<nat>)
    requires target.Keys <= t.Keys && VisitOrder(order, Elements(order)) && Elements(order) <= target.Keys
    requires RunUpdate(t, target, order) == None
    ensures MayEnd(t, target, None)
  {
    hide RunUpdate;
    var rest := SomeOrderExists(target.Keys - Elements(order));
    JoinedOrder(order, rest, target.Keys);
    FailureIsFinal(t, target, order, rest);
  }

  /** Conversely a statement that is not collisionless fails in some visit order. */
  lemma {:induction false} SomeOrderFails(t: Table, target: map<nat, int>) returns (order: seq<nat>)
    requires Unique(t) && target.Keys <= t.Keys && !Collisionless(t, target)
    ensures VisitOrder(order, target.Keys)
    ensures RunUpdate(t, target, order) == None
  {
    var a, b :| a in target && b in t && a != b && t[a].playlist == t[b].playlist
                && (target[a] == t[b].pos || (b in target && target[a] == target[b]));
    if target[a] == t[b].pos {
      var rest := SomeOrderExists(target.Keys - {a});
      order := [a] + rest;
    } else {
      var rest := SomeOrderExists(target.Keys - {a, b});
      order := [a, b] + rest;
      assert order[1..][0] == b;
      var t' := t[a := t[a].(pos := target[a])];
      assert a in t' && t'[a].playlist == t'[b].playlist && t'[a].pos == target[b];
      assert Clashes(t', b, target[b]);
    }
  }

  /** Together: a statement is safe in every visit order exactly when it is collisionless. */
  lemma SafeInEveryOrderIff(t: Table, target: map<nat, int>)
    requires Unique(t) && target.Keys <= t.Keys
    ensures Collisionless(t, target)
       <==> forall order :: VisitOrder(order, target.Keys) ==> RunUpdate(t, target, order).Some?
  {
    if Collisionless(t, target) {
      forall order | VisitOrder(order, target.Keys)
        ensures RunUpdate(t, target, order).Some?
      {
        AnyOrderSucceeds(t, target, order);
      }
    } else {
      var order := SomeOrderFails(t, target);
    }
  }
}
