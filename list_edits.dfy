/**
 * The positional edits of the adaptor's patch path, as functions on the list's
 * contents: BindingList's Insert and RemoveAt, the per-entry edit of
 * DoSingleUpdate, and its left fold over a batch (DoUpdate).
 */
module ListEdits {
  import opened Wrappers
  import opened Changes

  /** `list.Insert(index, x)`: `x` lands at `index`, later elements move right by one. */
  function Insert<T>(s: seq<T>, index: int, x: T): (r: seq<T>)
    requires 0 <= index <= |s|
    ensures |r| == |s| + 1 && r[index] == x
    ensures forall j :: 0 <= j < index ==> r[j] == s[j]
    ensures forall j :: index < j < |r| ==> r[j] == s[j - 1]
  {
    s[..index] + [x] + s[index..]
  }

  /** `list.RemoveAt(index)`: the element at `index` goes, later elements move left by one. */
  function RemoveAt<T>(s: seq<T>, index: int): (r: seq<T>)
    requires 0 <= index < |s|
    ensures |r| == |s| - 1
    ensures forall j :: 0 <= j < index ==> r[j] == s[j]
    ensures forall j :: index <= j < |r| ==> r[j] == s[j + 1]
  {
    s[..index] + s[index + 1..]
  }

  /**
   * The edit one entry makes (DoSingleUpdate), or None where BindingList
   * would reject an index. Add inserts Current at CurrentIndex; Remove
   * deletes at CurrentIndex; Moved and Update delete at PreviousIndex and then
   * insert Current at CurrentIndex; Refresh changes nothing.
   */
  function Edit<K, V>(s: seq<V>, c: Change<K, V>): (r: Option<seq<V>>)
    ensures c.reason == Add ==> (r.Some? <==> 0 <= c.currentIndex <= |s|)
    ensures c.reason == Add && r.Some? ==>
              && |r.value| == |s| + 1
              && r.value[c.currentIndex] == c.current
              && r.value[..c.currentIndex] == s[..c.currentIndex]
              && r.value[c.currentIndex + 1..] == s[c.currentIndex..]
    ensures c.reason == Remove ==> (r.Some? <==> 0 <= c.currentIndex < |s|)
    ensures c.reason == Remove && r.Some? ==>
              && |r.value| == |s| - 1
              && r.value[..c.currentIndex] == s[..c.currentIndex]
              && r.value[c.currentIndex..] == s[c.currentIndex + 1..]
    ensures c.reason in {Moved, Update} ==>
              (r.Some? <==> 0 <= c.previousIndex < |s| && 0 <= c.currentIndex < |s|)
    ensures c.reason in {Moved, Update} && r.Some? ==>
              && |r.value| == |s|
              && r.value[c.currentIndex] == c.current
              && RemoveAt(r.value, c.currentIndex) == RemoveAt(s, c.previousIndex)
    ensures c.reason == Refresh ==> r == Some(s)
  {
    match c.reason
    case Add =>
      if 0 <= c.currentIndex <= |s| then Some(Insert(s, c.currentIndex, c.current)) else None
    case Remove =>
      if 0 <= c.currentIndex < |s| then Some(RemoveAt(s, c.currentIndex)) else None
    case Moved | Update =>
      if 0 <= c.previousIndex < |s| && 0 <= c.currentIndex < |s|
      then
        var t := RemoveAt(s, c.previousIndex);
        assert RemoveAt(Insert(t, c.currentIndex, c.current), c.currentIndex) == t;
        Some(Insert(t, c.currentIndex, c.current))
      else None
    case Refresh => Some(s)
  }

  /**
   * The patch path: the entries applied one after another, each to the list as
   * the previous one left it (a left fold of Edit); None as soon as one entry's
   * index is out of range.
   */
  function EditAll<K, V>(s: seq<V>, entries: ChangeSet<K, V>): Option<seq<V>>
    decreases |entries|
  {
    if entries == [] then Some(s)
    else match Edit(s, entries[0])
      case None => None
      case Some(t) => EditAll(t, entries[1..])
  }

  /** Patching with `a + b` is patching with `a` and then with `b`. */
  lemma {:induction false} EditAllAppend<K, V>(s: seq<V>, a: ChangeSet<K, V>, b: ChangeSet<K, V>)
    ensures EditAll(s, a + b) == match EditAll(s, a) case None => None case Some(t) => EditAll(t, b)
    decreases |a|
  {
    if a == [] {
      assert a + b == b;
    } else {
      assert (a + b)[0] == a[0] && (a + b)[1..] == a[1..] + b;
      match Edit(s, a[0])
      case None =>
      case Some(t) => EditAllAppend(t, a[1..], b);
    }
  }

  /** Refresh entries have no effect on the patch result: it is that of the structural entries alone. */
  lemma {:induction false} EditAllSkipsRefreshes<K, V>(s: seq<V>, entries: ChangeSet<K, V>)
    ensures EditAll(s, entries) == EditAll(s, Without(entries, {Refresh}))
    decreases |entries|
  {
    if entries != [] {
      var w := Without(entries[1..], {Refresh});
      if entries[0].reason == Refresh {
        EditAllSkipsRefreshes(s, entries[1..]);
      } else {
        assert Without(entries, {Refresh}) == [entries[0]] + w;
        assert ([entries[0]] + w)[0] == entries[0] && ([entries[0]] + w)[1..] == w;
        match Edit(s, entries[0])
        case None =>
        case Some(t) => EditAllSkipsRefreshes(t, entries[1..]);
      }
    }
  }

  /** A successful patch changes the length by the number of Adds minus the number of Removes. */
  lemma {:induction false} EditAllLength<K, V>(s: seq<V>, entries: ChangeSet<K, V>)
    requires EditAll(s, entries).Some?
    ensures |EditAll(s, entries).value| == |s| + CountReason(entries, Add) - CountReason(entries, Remove)
    decreases |entries|
  {
    if entries != [] {
      var t := Edit(s, entries[0]).value;
      EditAllLength(t, entries[1..]);
    }
  }

  /**
   * A Reorder batch holds Moved entries (and possibly Refreshes); patching with
   * it never changes the number of elements.
   */
  lemma {:induction false} EditAllReorderKeepsLength<K, V>(s: seq<V>, entries: ChangeSet<K, V>)
    requires forall i :: 0 <= i < |entries| ==> entries[i].reason in {Moved, Refresh}
    requires EditAll(s, entries).Some?
    ensures |EditAll(s, entries).value| == |s|
  {
    EditAllLength(s, entries);
    assert CountReason(entries, Add) == 0;
    assert CountReason(entries, Remove) == 0;
  }

  /** A Moved entry whose Current is the element at PreviousIndex only repositions it: the same elements stay. */
  lemma MovedKeepsElements<K, V>(s: seq<V>, c: Change<K, V>)
    requires c.reason == Moved && 0 <= c.previousIndex < |s| && 0 <= c.currentIndex < |s|
    requires c.current == s[c.previousIndex]
    ensures multiset(Edit(s, c).value) == multiset(s)
  {
    var t := RemoveAt(s, c.previousIndex);
    assert s == s[..c.previousIndex] + [s[c.previousIndex]] + s[c.previousIndex + 1..];
    assert t == s[..c.previousIndex] + s[c.previousIndex + 1..];
    assert multiset(s) == multiset(t) + multiset{c.current};
    var r := Insert(t, c.currentIndex, c.current);
    assert t == t[..c.currentIndex] + t[c.currentIndex..];
    assert multiset(r) == multiset(t) + multiset{c.current};
  }

  /** `[A, B, C]` with a move of A from index 0 to index 2 gives `[B, C, A]`. */
  lemma MoveExample<K>(k: K)
    ensures EditAll(['A', 'B', 'C'], [Change(Moved, k, 'A', 2, 0)]) == Some(['B', 'C', 'A'])
  {
    var s := ['A', 'B', 'C'];
    assert RemoveAt(s, 0) == ['B', 'C'];
    assert Insert(['B', 'C'], 2, 'A') == ['B', 'C', 'A'];
  }
}
