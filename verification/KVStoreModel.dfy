/**
 The key-value store of a plugin: rows that may have expired, under a quota. What a caller
 can see at a time is the map of the keys that are live at that time.
 */
module KVStoreModel {
  import opened Options

  newtype byte = x: int | 0 <= x < 256

  datatype Key = Key(text: string)

  /** expiresAt is in seconds since 1970; None never expires. */
  datatype Row = Row(value: seq<byte>, size: nat, expiresAt: Option<int>)

  type Rows = map<Key, Row>

  const MAX_KEY_LENGTH := 256

  /** The last second of the year 9999; SQLite has no later times, and gives NULL instead. */
  const END_OF_TIME := 253_402_300_799

  datatype Cell = Cell(value: seq<byte>, expiresAt: Option<int>)

  predicate IsLive(row: Row, now: int) {
    row.expiresAt.None? || row.expiresAt.value >= now
  }

  /** The store as it is seen at a time. */
  function Live(rows: Rows, now: int): map<Key, Cell> {
    map k | k in rows && IsLive(rows[k], now) :: Cell(rows[k].value, rows[k].expiresAt)
  }

  /** The bytes of all values of a view. */
  ghost function Bytes(view: map<Key, Cell>): nat {
    if view == map[] then 0
    else
      var k :| k in view;
      |view[k].value| + Bytes(view - {k})
  }

  function Expiry(now: int, ttlSeconds: int): Option<int> {
    if ttlSeconds <= 0 || now + ttlSeconds > END_OF_TIME then None else Some(now + ttlSeconds)
  }

  function SizeAt(view: map<Key, Cell>, key: Key): nat {
    if key in view then |view[key].value| else 0
  }

  // ----- The calls, on what is seen -----

  predicate KeyFits(key: Key) {
    0 < |key.text| <= MAX_KEY_LENGTH
  }

  /** A value that does not grow is stored even in a store that is full. */
  ghost predicate QuotaAllows(view: map<Key, Cell>, key: Key, size: nat, maxSize: int) {
    size <= SizeAt(view, key) || Bytes(view) + size - SizeAt(view, key) <= maxSize
  }

  ghost predicate Accepts(view: map<Key, Cell>, key: Key, value: seq<byte>, maxSize: int) {
    KeyFits(key) && QuotaAllows(view, key, |value|, maxSize)
  }

  /** like stands for the LIKE patterns made of a prefix. */
  datatype Call =
    | SetValue(key: Key, value: seq<byte>, ttlSeconds: int)
    | Get(key: Key)
    | Has(key: Key)
    | List(prefix: Key)
    | GetMany(keys: seq<Key>)
    | StorageUsed
    | Delete(key: Key)
    | DeleteByPrefix(prefix: Key)

  datatype Answer =
    | Stored(ok: bool)
    | Found(value: Option<seq<byte>>)
    | Exists(yes: bool)
    | Keys(keys: set<Key>)
    | Values(values: map<Key, seq<byte>>)
    | Size(bytes: nat)
    | Gone

  function KeysLike(view: map<Key, Cell>, like: (Key, Key) -> bool, prefix: Key): set<Key> {
    set k | k in view && (prefix.text == "" || like(prefix, k))
  }

  /** What a call answers, as far as it is about live keys. */
  ghost function AnswerTo(view: map<Key, Cell>, like: (Key, Key) -> bool, maxSize: int, call: Call): Answer {
    match call
    case SetValue(key, value, _) => Stored(Accepts(view, key, value, maxSize))
    case Get(key) => Found(if key in view then Some(view[key].value) else None)
    case Has(key) => Exists(key in view)
    case List(prefix) => Keys(KeysLike(view, like, prefix))
    case GetMany(keys) => Values(map k | k in keys && k in view :: view[k].value)
    case StorageUsed => Size(Bytes(view))
    case Delete(_) => Gone
    case DeleteByPrefix(_) => Gone
  }

  /** What is seen right after a call. */
  ghost function SeenAfter(view: map<Key, Cell>, like: (Key, Key) -> bool, maxSize: int, call: Call, now: int): map<Key, Cell> {
    match call
    case SetValue(key, value, ttl) =>
      if Accepts(view, key, value, maxSize) then view[key := Cell(value, Expiry(now, ttl))] else view
    case Delete(key) => view - {key}
    case DeleteByPrefix(prefix) => if prefix.text == "" then view else map k | k in view && !like(prefix, k) :: view[k]
    case _ => view
  }

  // ----- The calls, on the rows -----

  ghost function RowsAfter(rows: Rows, like: (Key, Key) -> bool, maxSize: int, call: Call, now: int): Rows {
    match call
    case SetValue(key, value, ttl) =>
      if Accepts(Live(rows, now), key, value, maxSize) then rows[key := Row(value, |value|, Expiry(now, ttl))] else rows
    case Delete(key) => rows - {key}
    case DeleteByPrefix(prefix) => if prefix.text == "" then rows else map k | k in rows && !like(prefix, k) :: rows[k]
    case _ => rows
  }

  /** cleanupExpired. */
  function CleanedUp(rows: Rows, now: int): Rows {
    map k | k in rows && IsLive(rows[k], now) :: rows[k]
  }

  ghost predicate RowsValid(rows: Rows) {
    forall k :: k in rows ==> rows[k].size == |rows[k].value|
  }

  // ----- Bytes -----

  lemma {:induction false} BytesWithout(view: map<Key, Cell>, key: Key)
    requires key in view
    ensures Bytes(view) == |view[key].value| + Bytes(view - {key})
  {
    var k :| k in view && Bytes(view) == |view[k].value| + Bytes(view - {k});
    if k != key {
      BytesWithout(view - {k}, key);
      BytesWithout(view - {key}, k);
      assert view - {k} - {key} == view - {key} - {k};
    }
  }

  lemma BytesOfUpdate(view: map<Key, Cell>, key: Key, cell: Cell)
    ensures Bytes(view[key := cell]) == Bytes(view) - SizeAt(view, key) + |cell.value|
  {
    var view' := view[key := cell];
    BytesWithout(view', key);
    assert view' - {key} == view - {key};
    if key in view {
      BytesWithout(view, key);
    } else {
      assert view - {key} == view;
    }
  }

  lemma {:induction false} BytesOfPart(part: map<Key, Cell>, whole: map<Key, Cell>)
    requires forall k :: k in part ==> k in whole && whole[k] == part[k]
    ensures Bytes(part) <= Bytes(whole)
  {
    if part != map[] {
      var k :| k in part;
      BytesWithout(part, k);
      BytesWithout(whole, k);
      BytesOfPart(part - {k}, whole - {k});
    }
  }

  /** As time goes by, keys only disappear. */
  lemma TimeOnlyExpires(rows: Rows, now: int, later: int)
    requires now <= later
    ensures Bytes(Live(rows, later)) <= Bytes(Live(rows, now))
  {
    BytesOfPart(Live(rows, later), Live(rows, now));
  }

  // ----- Refinement -----

  /** The rows behave like the map that is seen: a call changes what is seen as it should. */
  lemma RowsRefineView(rows: Rows, like: (Key, Key) -> bool, maxSize: int, call: Call, now: int)
    ensures Live(RowsAfter(rows, like, maxSize, call, now), now) == SeenAfter(Live(rows, now), like, maxSize, call, now)
  {
  }

  /** The quota holds after a call if it held before. */
  lemma CallKeepsQuota(rows: Rows, like: (Key, Key) -> bool, maxSize: int, call: Call, now: int)
    requires Bytes(Live(rows, now)) <= maxSize
    ensures Bytes(Live(RowsAfter(rows, like, maxSize, call, now), now)) <= maxSize
  {
    RowsRefineView(rows, like, maxSize, call, now);
    var view := Live(rows, now);
    match call
    case SetValue(key, value, ttl) =>
      BytesOfUpdate(view, key, Cell(value, Expiry(now, ttl)));
    case Delete(key) =>
      BytesOfPart(view - {key}, view);
    case DeleteByPrefix(prefix) =>
      BytesOfPart(SeenAfter(view, like, maxSize, call, now), view);
    case _ =>
  }

  // ----- Cleaning up is invisible -----

  /** No caller can tell the two apart from the time on. */
  ghost predicate SameFrom(a: Rows, b: Rows, from: int) {
    forall t :: t >= from ==> Live(a, t) == Live(b, t)
  }

  lemma CleanupIsInvisible(rows: Rows, now: int)
    ensures SameFrom(rows, CleanedUp(rows, now), now)
  {
    forall t | t >= now ensures Live(rows, t) == Live(CleanedUp(rows, now), t) {
    }
  }

  lemma CallKeepsSame(a: Rows, b: Rows, like: (Key, Key) -> bool, maxSize: int, call: Call, now: int)
    requires SameFrom(a, b, now)
    ensures AnswerTo(Live(a, now), like, maxSize, call) == AnswerTo(Live(b, now), like, maxSize, call)
    ensures SameFrom(RowsAfter(a, like, maxSize, call, now), RowsAfter(b, like, maxSize, call, now), now)
  {
    assert Live(a, now) == Live(b, now);
    var a', b' := RowsAfter(a, like, maxSize, call, now), RowsAfter(b, like, maxSize, call, now);
    forall t | t >= now ensures Live(a', t) == Live(b', t) {
      assert Live(a, t) == Live(b, t);
      forall k
        ensures k in Live(a', t) <==> k in Live(b', t)
        ensures k in Live(a', t) ==> Live(a', t)[k] == Live(b', t)[k]
      {
        assert k in Live(a, t) <==> k in Live(b, t);
      }
    }
  }

  // ----- Runs -----

  datatype Step = CallAt(call: Call, now: int) | CleanupAt(now: int)

  /** The clock never goes back from one step to the next. */
  predicate Ordered(steps: seq<Step>, from: int)
    decreases |steps|
  {
    steps == [] || (steps[0].now >= from && Ordered(steps[1..], steps[0].now))
  }

  ghost function StepRows(rows: Rows, like: (Key, Key) -> bool, maxSize: int, step: Step): Rows {
    match step
    case CallAt(call, now) => RowsAfter(rows, like, maxSize, call, now)
    case CleanupAt(now) => CleanedUp(rows, now)
  }

  /** The answers that the caller gets, one per call. */
  ghost function Answers(rows: Rows, like: (Key, Key) -> bool, maxSize: int, steps: seq<Step>): seq<Answer>
    decreases |steps|
  {
    if steps == [] then []
    else
      (if steps[0].CallAt? then [AnswerTo(Live(rows, steps[0].now), like, maxSize, steps[0].call)] else [])
      + Answers(StepRows(rows, like, maxSize, steps[0]), like, maxSize, steps[1..])
  }

  function WithoutCleanups(steps: seq<Step>): seq<Step>
    decreases |steps|
  {
    if steps == [] then []
    else (if steps[0].CallAt? then [steps[0]] else []) + WithoutCleanups(steps[1..])
  }

  /**
   Wherever clean-ups happen in a run, the caller gets the answers that it would have got
   without any.
   */
  lemma {:induction false} CleanupsChangeNoAnswer(a: Rows, b: Rows, like: (Key, Key) -> bool, maxSize: int, steps: seq<Step>, from: int)
    requires Ordered(steps, from) && SameFrom(a, b, from)
    ensures Answers(a, like, maxSize, steps) == Answers(b, like, maxSize, WithoutCleanups(steps))
    decreases |steps|
  {
    if steps != [] {
      var step, rest := steps[0], steps[1..];
      var a' := StepRows(a, like, maxSize, step);
      if step.CallAt? {
        CallKeepsSame(a, b, like, maxSize, step.call, step.now);
        var b' := StepRows(b, like, maxSize, step);
        CleanupsChangeNoAnswer(a', b', like, maxSize, rest, step.now);
        hide SameFrom, StepRows, RowsAfter, AnswerTo;
        assert WithoutCleanups(steps) == [step] + WithoutCleanups(rest);
        assert WithoutCleanups(steps)[1..] == WithoutCleanups(rest);
      } else {
        CleanupIsInvisible(a, step.now);
        assert SameFrom(a', b, step.now);
        CleanupsChangeNoAnswer(a', b, like, maxSize, rest, step.now);
        assert WithoutCleanups(steps) == [] + WithoutCleanups(rest) == WithoutCleanups(rest);
      }
    }
  }

  ghost function RunRows(rows: Rows, like: (Key, Key) -> bool, maxSize: int, steps: seq<Step>): Rows
    decreases |steps|
  {
    if steps == [] then rows else RunRows(StepRows(rows, like, maxSize, steps[0]), like, maxSize, steps[1..])
  }

  lemma {:induction false} RunOneMore(rows: Rows, like: (Key, Key) -> bool, maxSize: int, steps: seq<Step>, step: Step)
    ensures RunRows(rows, like, maxSize, steps + [step]) == StepRows(RunRows(rows, like, maxSize, steps), like, maxSize, step)
    decreases |steps|
  {
    hide StepRows;
    if steps == [] {
      assert [step][1..] == [];
    } else {
      assert (steps + [step])[1..] == steps[1..] + [step];
      RunOneMore(StepRows(rows, like, maxSize, steps[0]), like, maxSize, steps[1..], step);
    }
  }

  lemma FirstAnswer(rows: Rows, like: (Key, Key) -> bool, maxSize: int, steps: seq<Step>)
    requires steps != []
    ensures Answers(rows, like, maxSize, steps) ==
              (if steps[0].CallAt? then [AnswerTo(Live(rows, steps[0].now), like, maxSize, steps[0].call)] else [])
              + Answers(StepRows(rows, like, maxSize, steps[0]), like, maxSize, steps[1..])
    ensures RunRows(rows, like, maxSize, steps) == RunRows(StepRows(rows, like, maxSize, steps[0]), like, maxSize, steps[1..])
  {
  }

  /** Every call adds the answer that it gets on the rows it finds; a clean-up adds none. */
  lemma {:induction false} OneMoreAnswer(rows: Rows, like: (Key, Key) -> bool, maxSize: int, steps: seq<Step>, step: Step)
    ensures Answers(rows, like, maxSize, steps + [step]) ==
              Answers(rows, like, maxSize, steps)
              + if step.CallAt? then [AnswerTo(Live(RunRows(rows, like, maxSize, steps), step.now), like, maxSize, step.call)] else []
    decreases |steps|
  {
    hide StepRows, AnswerTo, Live;
    if steps == [] {
      assert [step][1..] == [];
    } else {
      assert (steps + [step])[1..] == steps[1..] + [step];
      FirstAnswer(rows, like, maxSize, steps);
      FirstAnswer(rows, like, maxSize, steps + [step]);
      hide Answers, RunRows;
      OneMoreAnswer(StepRows(rows, like, maxSize, steps[0]), like, maxSize, steps[1..], step);
    }
  }

  /** The step may change what is stored under the key. */
  predicate Touches(like: (Key, Key) -> bool, step: Step, key: Key) {
    step.CallAt? &&
    match step.call
    case SetValue(k, _, _) => k == key
    case Delete(k) => k == key
    case DeleteByPrefix(prefix) => prefix.text != "" && like(prefix, key)
    case _ => false
  }

  lemma UntouchedStays(rows: Rows, like: (Key, Key) -> bool, maxSize: int, step: Step, key: Key, later: int)
    requires !Touches(like, step, key) && step.now <= later
    ensures var rows' := StepRows(rows, like, maxSize, step);
            (key in Live(rows', later) <==> key in Live(rows, later))
            && (key in Live(rows, later) ==> Live(rows', later)[key] == Live(rows, later)[key])
  {
  }

  /** What is stored under a key stays as it is until a call that is about the key, or its end. */
  lemma {:induction false} UntouchedInRun(
    rows: Rows, like: (Key, Key) -> bool, maxSize: int, steps: seq<Step>, key: Key, later: int)
    requires forall i :: 0 <= i < |steps| ==> !Touches(like, steps[i], key) && steps[i].now <= later
    ensures var rows' := RunRows(rows, like, maxSize, steps);
            (key in Live(rows', later) <==> key in Live(rows, later))
            && (key in Live(rows, later) ==> Live(rows', later)[key] == Live(rows, later)[key])
    decreases |steps|
  {
    if steps != [] {
      UntouchedStays(rows, like, maxSize, steps[0], key, later);
      hide StepRows, Touches, Live;
      UntouchedInRun(StepRows(rows, like, maxSize, steps[0]), like, maxSize, steps[1..], key, later);
    }
  }

  /**
   In every run a value that was stored is read until it is overwritten, deleted or past its
   last second, whatever other calls and clean-ups there are in between.
   */
  lemma LastWriteIsRead(
    rows: Rows, like: (Key, Key) -> bool, maxSize: int, before: seq<Step>, set': Step, after: seq<Step>, later: int)
    requires set'.CallAt? && set'.call.SetValue? && set'.now <= later
    requires Accepts(Live(RunRows(rows, like, maxSize, before), set'.now), set'.call.key, set'.call.value, maxSize)
    requires forall i :: 0 <= i < |after| ==> !Touches(like, after[i], set'.call.key) && after[i].now <= later
    ensures var end := RunRows(RunRows(rows, like, maxSize, before + [set']), like, maxSize, after);
            AnswerTo(Live(end, later), like, maxSize, Get(set'.call.key)) ==
              Found(if set'.call.ttlSeconds <= 0 || set'.now + set'.call.ttlSeconds > 253_402_300_799
                       || later <= set'.now + set'.call.ttlSeconds then Some(set'.call.value) else None)
  {
    RunOneMore(rows, like, maxSize, before, set');
    var found := RunRows(rows, like, maxSize, before);
    SetThenGet(found, like, maxSize, set'.call.key, set'.call.value, set'.call.ttlSeconds, set'.now, later);
    UntouchedInRun(StepRows(found, like, maxSize, set'), like, maxSize, after, set'.call.key, later);
    hide RunRows, Live, Accepts;
  }

  /** Likewise a deleted key is not there until it is stored again. */
  lemma DeletedIsGone(
    rows: Rows, like: (Key, Key) -> bool, maxSize: int, before: seq<Step>, delete: Step, after: seq<Step>, key: Key, later: int)
    requires delete.CallAt? && delete.now <= later
    requires delete.call == Delete(key) || (delete.call.DeleteByPrefix? && delete.call.prefix.text != "" && like(delete.call.prefix, key))
    requires forall i :: 0 <= i < |after| ==> !Touches(like, after[i], key) && after[i].now <= later
    ensures var end := RunRows(RunRows(rows, like, maxSize, before + [delete]), like, maxSize, after);
            AnswerTo(Live(end, later), like, maxSize, Get(key)) == Found(None)
  {
    RunOneMore(rows, like, maxSize, before, delete);
    var found := RunRows(rows, like, maxSize, before);
    assert key !in StepRows(found, like, maxSize, delete);
    UntouchedInRun(StepRows(found, like, maxSize, delete), like, maxSize, after, key, later);
    hide RunRows;
  }

  function EndOf(steps: seq<Step>, from: int): int {
    if steps == [] then from else steps[|steps| - 1].now
  }

  /** In every run from within the quota, the live bytes are within it at the end and ever after. */
  lemma {:induction false} QuotaHoldsInRuns(rows: Rows, like: (Key, Key) -> bool, maxSize: int, steps: seq<Step>, from: int, later: int)
    requires Ordered(steps, from) && Bytes(Live(rows, from)) <= maxSize && later >= EndOf(steps, from)
    ensures Bytes(Live(RunRows(rows, like, maxSize, steps), later)) <= maxSize
    decreases |steps|
  {
    if steps == [] {
      TimeOnlyExpires(rows, from, later);
    } else {
      var step := steps[0];
      TimeOnlyExpires(rows, from, step.now);
      if step.CallAt? {
        CallKeepsQuota(rows, like, maxSize, step.call, step.now);
      } else {
        CleanupIsInvisible(rows, step.now);
        assert Live(rows, step.now) == Live(CleanedUp(rows, step.now), step.now);
      }
      assert steps[1..] != [] ==> EndOf(steps[1..], step.now) == EndOf(steps, from);
      QuotaHoldsInRuns(StepRows(rows, like, maxSize, step), like, maxSize, steps[1..], step.now, later);
    }
  }

  /** How long a stored value can be read: through its last second, or for ever where SQLite has no date for the end. */
  lemma SetThenGet(rows: Rows, like: (Key, Key) -> bool, maxSize: int, key: Key, value: seq<byte>, ttl: int, now: int, later: int)
    requires Accepts(Live(rows, now), key, value, maxSize) && later >= now
    ensures var rows' := RowsAfter(rows, like, maxSize, SetValue(key, value, ttl), now);
            AnswerTo(Live(rows', later), like, maxSize, Get(key)) ==
              Found(if ttl <= 0 || now + ttl > 253_402_300_799 || later <= now + ttl then Some(value) else None)
  {
  }

  function Matching(rows: Rows, like: (Key, Key) -> bool, prefix: Key): set<Key> {
    set k | k in rows && like(prefix, k)
  }

  /** The number that DeleteByPrefix reports does tell a clean-up, exactly when an expired key matches. */
  lemma DeletedCountIff(rows: Rows, like: (Key, Key) -> bool, prefix: Key, now: int)
    ensures |Matching(rows, like, prefix)| == |Matching(CleanedUp(rows, now), like, prefix)|
            <==> forall k :: k in rows && like(prefix, k) ==> IsLive(rows[k], now)
  {
    var all, live := Matching(rows, like, prefix), Matching(CleanedUp(rows, now), like, prefix);
    var expired := all - live;
    assert all == live + expired && live !! expired;
    assert |all| == |live| + |expired|;
    assert |expired| == 0 <==> expired == {};
    assert forall k :: k in expired <==> k in rows && like(prefix, k) && !IsLive(rows[k], now);
  }
}
