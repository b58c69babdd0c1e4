/** The change entries that both the keyed store and the sorted-list adaptor consume. */
module Changes {
  /** Why one entry is in a change set (DynamicData's ChangeReason). */
  datatype ChangeReason = Add | Update | Remove | Refresh | Moved

  /**
   * Why a sorted change set was produced (DynamicData's SortReason). A C# enum
   * variable can hold a value that names no member, so `Unrecognised` stands for
   * every such value.
   */
  datatype SortReason = InitialLoad | ComparerChanged | DataChanged | Reorder | Reset | Unrecognised

  /** The exceptions the core raises on bad arguments. */
  datatype Error = ArgumentNullException | ArgumentOutOfRangeException

  /**
   * One change: its reason, the key and current value of the item, and its
   * position in the sorted projection after and before the change. The indices
   * are C# ints and may be anything, -1 included, when a producer leaves them unset.
   */
  datatype Change<K, V> = Change(reason: ChangeReason, key: K, current: V, currentIndex: int, previousIndex: int)

  /** A change set is its entries, in the order they must be applied. */
  type ChangeSet<K, V> = seq<Change<K, V>>

  /**
   * A sorted change set: the entries, the whole collection in its new sort order
   * (SortedItems, key-value pairs) and the reason the batch was produced.
   */
  datatype SortedChangeSet<K, V> = SortedChangeSet(entries: ChangeSet<K, V>, sortedItems: seq<(K, V)>, sortReason: SortReason)

  /** The number of entries of a batch that carry the given reason. */
  function CountReason<K, V>(entries: ChangeSet<K, V>, reason: ChangeReason): (n: nat)
    ensures n <= |entries|
    ensures n == 0 <==> forall i :: 0 <= i < |entries| ==> entries[i].reason != reason
    ensures n == |entries| <==> forall i :: 0 <= i < |entries| ==> entries[i].reason == reason
  {
    if entries == [] then 0
    else CountReason(entries[1..], reason) + (if entries[0].reason == reason then 1 else 0)
  }

  /** The batch statistic `Refreshes`: how many entries are Refresh entries. */
  function Refreshes<K, V>(entries: ChangeSet<K, V>): (n: nat)
    ensures n <= |entries|
  {
    CountReason(entries, Refresh)
  }

  /** The entries of a batch whose reason is not one of `reasons`, in their original order. */
  function Without<K, V>(entries: ChangeSet<K, V>, reasons: set<ChangeReason>): (r: ChangeSet<K, V>)
    ensures |r| <= |entries|
    ensures forall i :: 0 <= i < |r| ==> r[i].reason !in reasons
    ensures forall c :: c in r ==> c in entries
  {
    if entries == [] then []
    else if entries[0].reason in reasons then Without(entries[1..], reasons)
    else [entries[0]] + Without(entries[1..], reasons)
  }

  /**
   * `Count - Refreshes`, the quantity the rebuild decision compares with the
   * threshold, is exactly the number of structural (non-Refresh) entries.
   */
  lemma {:induction false} StructuralCount<K, V>(entries: ChangeSet<K, V>)
    ensures |Without(entries, {Refresh})| == |entries| - Refreshes(entries)
  {
    if entries != [] {
      StructuralCount(entries[1..]);
    }
  }

  /** The values of SortedItems in order (`SortedItems.Select(kv => kv.Value)`). */
  function Values<K, V>(items: seq<(K, V)>): (r: seq<V>)
    ensures |r| == |items|
    ensures forall i :: 0 <= i < |items| ==> r[i] == items[i].1
  {
    if items == [] then [] else [items[0].1] + Values(items[1..])
  }
}
