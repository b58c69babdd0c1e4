/**
 * The keyed store behind a cache (DynamicData/Kernel/Cache.cs): a dictionary
 * from key to value that folds change sets into itself and answers point lookups.
 */
module Kernel {
  import opened Wrappers
  import opened Changes

  /**
   * The effect of one entry on the dictionary: Add and Update store Current
   * under the key, Remove deletes the key (a no-op when it is absent), and every
   * other reason leaves the dictionary as it is.
   */
  function Apply<K(==), V>(m: map<K, V>, c: Change<K, V>): (r: map<K, V>)
    ensures c.reason in {Add, Update} ==> c.key in r && r[c.key] == c.current
    ensures c.reason == Remove ==> c.key !in r
    ensures c.reason in {Add, Update, Remove} ==> r - {c.key} == m - {c.key}
    ensures c.reason in {Refresh, Moved} ==> r == m
  {
    match c.reason
    case Add | Update => m[c.key := c.current]
    case Remove => m - {c.key}
    case Refresh | Moved => m
  }

  /** What Clone leaves in a dictionary that held `m`: the entries applied in batch order (a left fold of Apply). */
  function ApplyAll<K(==), V>(m: map<K, V>, entries: ChangeSet<K, V>): map<K, V>
    decreases |entries|
  {
    if entries == [] then m else ApplyAll(Apply(m, entries[0]), entries[1..])
  }

  /** Applying `a + b` is applying `a` and then `b`. */
  lemma {:induction false} ApplyAllAppend<K, V>(m: map<K, V>, a: ChangeSet<K, V>, b: ChangeSet<K, V>)
    ensures ApplyAll(m, a + b) == ApplyAll(ApplyAll(m, a), b)
    decreases |a|
  {
    if a == [] {
      assert a + b == b;
    } else {
      assert (a + b)[0] == a[0] && (a + b)[1..] == a[1..] + b;
      ApplyAllAppend(Apply(m, a[0]), a[1..], b);
    }
  }

  /**
   * The last entry of a batch that writes `key` (an Add, Update or Remove for
   * it), if there is one: the entry whose effect on `key` survives the batch.
   */
  function LastWrite<K(==), V>(entries: ChangeSet<K, V>, key: K): (r: Option<Change<K, V>>)
    ensures r.Some? ==> r.value in entries && r.value.key == key && r.value.reason in {Add, Update, Remove}
    ensures r.None? <==> forall i :: 0 <= i < |entries| && entries[i].key == key ==> entries[i].reason in {Refresh, Moved}
    ensures r.Some? ==> exists i :: 0 <= i < |entries| && entries[i] == r.value &&
                          (forall j :: i < j < |entries| && entries[j].key == key ==> entries[j].reason in {Refresh, Moved})
    decreases |entries|
  {
    if entries == [] then None
    else
      var c := entries[|entries| - 1];
      if c.key == key && c.reason in {Add, Update, Remove} then Some(c)
      else
        var init := entries[..|entries| - 1];
        assert forall i :: 0 <= i < |init| ==> init[i] == entries[i];
        assert c.key == key ==> !c.reason.Add? && !c.reason.Update? && !c.reason.Remove?;
        var r := LastWrite(init, key);
        assert r.Some? ==> forall i ::
                 (0 <= i < |init| && init[i] == r.value &&
                  forall j :: i < j < |init| && init[j].key == key ==> init[j].reason in {Refresh, Moved})
                 ==> (forall j :: i < j < |entries| && entries[j].key == key ==> entries[j].reason in {Refresh, Moved});
        r
  }

  /**
   * Clone, key by key: the later entry wins. A key's fate is decided by the last
   * entry that writes it (stored with that entry's Current, or absent after a
   * Remove); a key that no entry writes keeps whatever the dictionary held.
   */
  lemma {:induction false} ApplyAllAt<K, V>(m: map<K, V>, entries: ChangeSet<K, V>, key: K)
    ensures match LastWrite(entries, key)
            case None =>
              (key in ApplyAll(m, entries) <==> key in m) &&
              (key in m ==> ApplyAll(m, entries)[key] == m[key])
            case Some(c) =>
              if c.reason == Remove then key !in ApplyAll(m, entries)
              else key in ApplyAll(m, entries) && ApplyAll(m, entries)[key] == c.current
    decreases |entries|
  {
    if entries != [] {
      var n := |entries| - 1;
      var init, c := entries[..n], entries[n];
      assert entries == init + [c];
      ApplyAllAppend(m, init, [c]);
      var mid := ApplyAll(m, init);
      assert ApplyAll(mid, [c]) == Apply(mid, c);
      if !(c.key == key && c.reason in {Add, Update, Remove}) {
        ApplyAllAt(m, init, key);
      }
    }
  }

  /** Refresh and Moved entries never alter the dictionary: dropping them from a batch gives the same result. */
  lemma {:induction false} ApplyAllIgnoresNonWrites<K, V>(m: map<K, V>, entries: ChangeSet<K, V>)
    ensures ApplyAll(m, entries) == ApplyAll(m, Without(entries, {Refresh, Moved}))
    decreases |entries|
  {
    if entries != [] {
      var w := Without(entries[1..], {Refresh, Moved});
      if entries[0].reason in {Refresh, Moved} {
        ApplyAllIgnoresNonWrites(m, entries[1..]);
      } else {
        assert Without(entries, {Refresh, Moved}) == [entries[0]] + w;
        assert ([entries[0]] + w)[0] == entries[0] && ([entries[0]] + w)[1..] == w;
        ApplyAllIgnoresNonWrites(Apply(m, entries[0]), entries[1..]);
      }
    }
  }

  /** Clone only ever stores keys that the dictionary held or that some entry names. */
  lemma {:induction false} ApplyAllKeys<K, V>(m: map<K, V>, entries: ChangeSet<K, V>)
    ensures forall k :: k in ApplyAll(m, entries) ==> k in m || exists i :: 0 <= i < |entries| && entries[i].key == k
    decreases |entries|
  {
    if entries != [] {
      ApplyAllKeys(Apply(m, entries[0]), entries[1..]);
      forall k | k in ApplyAll(m, entries)
        ensures k in m || exists i :: 0 <= i < |entries| && entries[i].key == k
      {
        if k !in m && k != entries[0].key {
          assert k !in Apply(m, entries[0]);
          var i :| 0 <= i < |entries[1..]| && entries[1..][i].key == k;
          assert entries[i + 1].key == k;
        }
      }
    }
  }

  /**
   * Add "A" under 1, then Update it to "B", then Remove it: each batch, folded
   * into the dictionary the previous one left, gives A, then B, then nothing.
   */
  lemma AddUpdateRemoveScenario(i: int)
    ensures ApplyAll(map[], [Change(Add, 1, "A", i, i)]) == map[1 := "A"]
    ensures ApplyAll(map[1 := "A"], [Change(Update, 1, "B", i, i)]) == map[1 := "B"]
    ensures ApplyAll(map[1 := "B"], [Change(Remove, 1, "B", i, i)]) == map[]
  {
    assert map[1 := "B"] - {1} == map[];
  }

  /** The dictionary-backed store. Keys are plain values, never freshly allocated objects. */
  class Cache<K(==,!new), V> {
    var data: map<K, V>

    /** A new cache is empty. */
    constructor ()
      ensures data == map[]
    {
      data := map[];
    }

    /**
     * Folds a change set into the dictionary, entry by entry in batch order.
     * A null change set raises ArgumentNullException and leaves it unchanged.
     */
    method Clone(changes: Option<ChangeSet<K, V>>) returns (outcome: Outcome<Error>)
      modifies this
      ensures changes.None? ==> outcome == Fail(ArgumentNullException) && data == old(data)
      ensures changes.Some? ==> outcome == Pass && data == ApplyAll(old(data), changes.value)
    {
      if changes.None? {
        return Fail(ArgumentNullException);
      }
      var entries := changes.value;
      if |data| == 0 {
        // A fresh dictionary, sized for the batch; an empty one either way.
        data := map[];
      }
      var i := 0;
      while i < |entries|
        invariant 0 <= i <= |entries|
        invariant ApplyAll(data, entries[i..]) == ApplyAll(old(data), entries)
      {
        var c := entries[i];
        assert entries[i..][0] == c && entries[i..][1..] == entries[i + 1..];
        match c.reason {
          case Add | Update =>
            data := data[c.key := c.current];
          case Remove =>
            data := data - {c.key};
          case Refresh | Moved =>
        }
        i := i + 1;
      }
      assert entries[i..] == [];
      outcome := Pass;
    }

    /** The value stored under `key`, or None when there is none. */
    function Lookup(key: K): (r: Option<V>)
      reads this
      ensures r.Some? <==> key in data
      ensures r.Some? ==> r.value == data[key]
    {
      if key in data then Some(data[key]) else None
    }

    /** Stores `item` under `key`, replacing any value it had; no other key changes. */
    method AddOrUpdate(item: V, key: K)
      modifies this
      ensures data == old(data)[key := item]
      ensures Lookup(key) == Some(item)
      ensures forall k :: k != key ==> Lookup(k) == old(Lookup(k))
    {
      data := data[key := item];
    }

    /** Deletes `key` when present; on an absent key nothing changes. */
    method Remove(key: K)
      modifies this
      ensures data == old(data) - {key}
      ensures Lookup(key) == None
      ensures forall k :: k != key ==> Lookup(k) == old(Lookup(k))
      ensures key !in old(data) ==> data == old(data) && Count() == old(Count())
      ensures key in old(data) ==> Count() == old(Count()) - 1
    {
      if key in data {
        data := data - {key};
      }
    }

    /** Empties the dictionary. */
    method Clear()
      modifies this
      ensures data == map[]
      ensures Count() == 0 && forall k :: Lookup(k) == None
    {
      data := map[];
    }

    /** The number of stored entries: exactly the number of keys. */
    function Count(): (n: nat)
      reads this
      ensures n == |Keys()|
      ensures n == 0 <==> data == map[]
    {
      |data|
    }

    /** The stored keys, as a set (the dictionary's enumeration order is not modelled). */
    function Keys(): (r: set<K>)
      reads this
      ensures forall k :: k in r <==> Lookup(k).Some?
    {
      data.Keys
    }
  }
}
