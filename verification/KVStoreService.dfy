/**
 The key-value store service: its calls as methods on the table, one clock reading each.
 */
module KVStoreService {
  import opened Iteration
  import opened Options
  import opened KVStoreModel

  datatype Error = EmptyKey | KeyTooLong | QuotaExceeded | TtlNotPositive | EmptyPrefix

  datatype Result<T> = Ok(value: T) | Err(error: Error)

  const BATCH := 200

  function ValuesIn(view: map<Key, Cell>, keys: seq<Key>): map<Key, seq<byte>> {
    map k | k in keys && k in view :: view[k].value
  }

  lemma ValuesOfSum(view: map<Key, Cell>, a: seq<Key>, b: seq<Key>)
    ensures ValuesIn(view, a + b) == ValuesIn(view, a) + ValuesIn(view, b)
  {
  }

  /** The key is there, and its last second has not passed. */
  predicate Visible(rows: Rows, key: Key, now: int) {
    key in rows && (rows[key].expiresAt.Some? ==> now <= rows[key].expiresAt.value)
  }

  class KVStore {
    const maxSize: int
    const like: (Key, Key) -> bool
    var rows: Rows

    ghost predicate Valid()
      reads this
    {
      RowsValid(rows)
    }

    /** SELECT SUM(size) over the live rows. */
    method StorageUsed(now: int) returns (used: nat)
      requires Valid()
      ensures used == Bytes(Live(rows, now))
    {
      used := 0;
      ghost var left := Live(rows, now);
      var todo := rows.Keys;
      while todo != {}
        invariant todo <= rows.Keys && left.Keys == Live(rows, now).Keys * todo
        invariant forall k :: k in left ==> left[k] == Live(rows, now)[k]
        invariant used + Bytes(left) == Bytes(Live(rows, now))
      {
        var k := Pick(todo);
        todo := todo - {k};
        if IsLive(rows[k], now) {
          BytesWithout(left, k);
          left := left - {k};
          used := used + rows[k].size;
        }
      }
      assert left == map[];
    }

    /** A change that does not grow the store is always within the limit. */
    method CheckStorageLimit(delta: int, now: int) returns (ok: bool)
      requires Valid()
      ensures ok <==> delta <= 0 || Bytes(Live(rows, now)) + delta <= maxSize
    {
      if delta <= 0 {
        return true;
      }
      var used := StorageUsed(now);
      return used + delta <= maxSize;
    }

    /** setValue, behind Set and SetWithTTL. */
    method StoreValue(key: Key, value: seq<byte>, ttlSeconds: int, now: int) returns (r: Result<()>)
      requires Valid()
      modifies `rows
      ensures Valid()
      ensures rows == RowsAfter(old(rows), like, maxSize, SetValue(key, value, ttlSeconds), now)
      ensures var before := if Visible(old(rows), key, now) then |old(rows)[key].value| else 0;
              r == if |key.text| == 0 then Err(EmptyKey)
                   else if |key.text| > 256 then Err(KeyTooLong)
                   else if |value| > before && Bytes(Live(old(rows), now)) - before + |value| > maxSize then Err(QuotaExceeded)
                   else Ok(())
      ensures rows == if r.Err? then old(rows) else old(rows)[key := Row(value, |value|,
                if ttlSeconds > 0 && now + ttlSeconds <= 253_402_300_799 then Some(now + ttlSeconds) else None)]
    {
      if |key.text| == 0 {
        return Err(EmptyKey);
      }
      if |key.text| > MAX_KEY_LENGTH {
        return Err(KeyTooLong);
      }
      var oldSize := if key in rows && IsLive(rows[key], now) then rows[key].size else 0;
      assert oldSize == SizeAt(Live(rows, now), key);
      var ok := CheckStorageLimit(|value| - oldSize, now);
      if !ok {
        return Err(QuotaExceeded);
      }
      rows := rows[key := Row(value, |value|, Expiry(now, ttlSeconds))];
      return Ok(());
    }

    method StoreWithTTL(key: Key, value: seq<byte>, ttlSeconds: int, now: int) returns (r: Result<()>)
      requires Valid()
      modifies `rows
      ensures Valid()
      ensures ttlSeconds <= 0 ==> r == Err(TtlNotPositive) && rows == old(rows)
      ensures ttlSeconds > 0 && r.Ok? ==>
                rows == old(rows)[key := Row(value, |value|, if now + ttlSeconds <= 253_402_300_799 then Some(now + ttlSeconds) else None)]
      ensures ttlSeconds > 0 ==> rows == RowsAfter(old(rows), like, maxSize, SetValue(key, value, ttlSeconds), now)
    {
      if ttlSeconds <= 0 {
        return Err(TtlNotPositive);
      }
      r := StoreValue(key, value, ttlSeconds, now);
    }

    method Lookup(key: Key, now: int) returns (value: Option<seq<byte>>)
      ensures Found(value) == AnswerTo(Live(rows, now), like, maxSize, Get(key))
      ensures value == if Visible(rows, key, now) then Some(rows[key].value) else None
    {
      return if key in rows && IsLive(rows[key], now) then Some(rows[key].value) else None;
    }

    /** Has. */
    method Exists(key: Key, now: int) returns (yes: bool)
      ensures Answer.Exists(yes) == AnswerTo(Live(rows, now), like, maxSize, Has(key))
      ensures yes <==> Visible(rows, key, now)
    {
      var found := set k | k in rows && k == key && IsLive(rows[k], now);
      assert Visible(rows, key, now) <==> key in found;
      assert found == {} || key in found;
      return |found| > 0;
    }

    /** List: all keys for an empty prefix, and otherwise those that match it. */
    method ListKeys(prefix: Key, now: int) returns (keys: set<Key>)
      ensures Keys(keys) == AnswerTo(Live(rows, now), like, maxSize, List(prefix))
      ensures forall k :: k in keys <==> Visible(rows, k, now) && (prefix.text == "" || like(prefix, k))
    {
      if prefix.text == "" {
        return set k | k in rows && IsLive(rows[k], now);
      }
      return set k | k in rows && like(prefix, k) && IsLive(rows[k], now);
    }

    /** GetMany, in batches: the same as looking up every key. */
    method LookupMany(keys: seq<Key>, now: int) returns (values: map<Key, seq<byte>>)
      ensures Answer.Values(values) == AnswerTo(Live(rows, now), like, maxSize, GetMany(keys))
      ensures forall k :: k in values <==> k in keys && Visible(rows, k, now)
      ensures forall k :: k in values ==> k in rows && values[k] == rows[k].value
    {
      values := map[];
      var done := 0;
      assert keys[..0] == [];
      while done < |keys|
        invariant 0 <= done <= |keys|
        invariant values == ValuesIn(Live(rows, now), keys[..done])
      {
        var end := if done + BATCH < |keys| then done + BATCH else |keys|;
        var chunk := keys[done..end];
        var found := map k | k in chunk && k in rows && IsLive(rows[k], now) :: rows[k].value;
        assert found == ValuesIn(Live(rows, now), chunk);
        ValuesOfSum(Live(rows, now), keys[..done], chunk);
        assert keys[..end] == keys[..done] + chunk;
        values := values + found;
        done := end;
      }
      assert keys[..|keys|] == keys;
    }

    method Remove(key: Key, ghost now: int)
      requires Valid()
      modifies `rows
      ensures Valid() && rows == RowsAfter(old(rows), like, maxSize, Delete(key), now)
      ensures rows == old(rows) - {key}
    {
      rows := rows - {key};
    }

    /** DeleteByPrefix reports the rows it deletes, expired ones included. */
    method RemoveByPrefix(prefix: Key, ghost now: int) returns (r: Result<nat>)
      requires Valid()
      modifies `rows
      ensures Valid() && rows == RowsAfter(old(rows), like, maxSize, DeleteByPrefix(prefix), now)
      ensures r == if prefix.text == "" then Err(EmptyPrefix) else Ok(|set k | k in old(rows) && like(prefix, k)|)
      ensures forall k :: k in rows <==> k in old(rows) && !(prefix.text != "" && like(prefix, k))
      ensures forall k :: k in rows ==> k in old(rows) && rows[k] == old(rows)[k]
    {
      if prefix.text == "" {
        return Err(EmptyPrefix);
      }
      var count := |Matching(rows, like, prefix)|;
      rows := map k | k in rows && !like(prefix, k) :: rows[k];
      return Ok(count);
    }

    /** cleanupExpired: nothing that can be seen from now on changes. */
    method CleanupExpired(now: int)
      requires Valid()
      modifies `rows
      ensures Valid() && rows == CleanedUp(old(rows), now) && SameFrom(old(rows), rows, now)
      ensures forall k :: k in rows <==> Visible(old(rows), k, now)
      ensures forall k :: k in rows ==> k in old(rows) && rows[k] == old(rows)[k]
    {
      CleanupIsInvisible(rows, now);
      rows := map k | k in rows && !(rows[k].expiresAt.Some? && rows[k].expiresAt.value < now) :: rows[k];
    }
  }
}
