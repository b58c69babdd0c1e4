/**
 * The binding-list side: a stand-in for the BindingList the adaptor updates, and
 * SortedBindingListAdaptor, which brings that list into the order a sorted
 * change set describes (src/DynamicData/Binding/SortedBindingListAdaptor.cs).
 */
module Binding {
  import opened Wrappers
  import opened Changes
  import opened RebuildPolicy
  import ListEdits

  /**
   * The list the adaptor is given and shares with whoever displays it. Only the
   * operations the adaptor calls are modelled; BindingList raises
   * ArgumentOutOfRangeException on a bad index, which here is a precondition.
   */
  class BindingList<T> {
    var items: seq<T>

    constructor (items: seq<T>)
      ensures this.items == items
    {
      this.items := items;
    }

    method Insert(index: int, item: T)
      requires 0 <= index <= |items|
      modifies this
      ensures items == ListEdits.Insert(old(items), index, item)
    {
      items := items[..index] + [item] + items[index..];
    }

    method RemoveAt(index: int)
      requires 0 <= index < |items|
      modifies this
      ensures items == ListEdits.RemoveAt(old(items), index)
    {
      items := items[..index] + items[index + 1..];
    }

    method Clear()
      modifies this
      ensures items == []
    {
      items := [];
    }

    method AddRange(values: seq<T>)
      modifies this
      ensures items == old(items) + values
    {
      items := items + values;
    }
  }

  /**
   * The adaptor's precondition: whenever it will take the patch path, every
   * entry's indices are in range for the list as the entries before it left it
   * (the producer computed a consistent diff against this list).
   */
  predicate CanAdapt<K, V>(items: seq<V>, changes: Option<SortedChangeSet<K, V>>, refreshThreshold: int)
  {
    changes.Some? && Decide(changes.value, refreshThreshold) == Success(Patch) ==>
      ListEdits.EditAll(items, changes.value.entries).Some?
  }

  /**
   * What Adapt leaves in a list that held `items`, or the exception it raises
   * (before touching the list).
   */
  function Adapted<K, V>(items: seq<V>, changes: Option<SortedChangeSet<K, V>>, refreshThreshold: int): (r: Result<seq<V>, Error>)
    requires CanAdapt(items, changes, refreshThreshold)
    ensures changes.None? ==> r == Failure(ArgumentNullException)
    ensures changes.Some? && changes.value.sortReason == Unrecognised ==> r == Failure(ArgumentOutOfRangeException)
    ensures changes.Some? && changes.value.sortReason in {InitialLoad, ComparerChanged, Reset} ==>
              r == Success(Values(changes.value.sortedItems))
    ensures changes.Some? && changes.value.sortReason == Reorder ==>
              r == Success(ListEdits.EditAll(items, changes.value.entries).value)
    ensures changes.Some? && changes.value.sortReason == DataChanged ==>
              r == if |changes.value.entries| - Refreshes(changes.value.entries) > refreshThreshold
                   then Success(Values(changes.value.sortedItems))
                   else Success(ListEdits.EditAll(items, changes.value.entries).value)
  {
    match changes
    case None => Failure(ArgumentNullException)
    case Some(cs) =>
      match Decide(cs, refreshThreshold)
      case Failure(e) => Failure(e)
      case Success(Rebuild) => Success(Values(cs.sortedItems))
      case Success(Patch) => Success(ListEdits.EditAll(items, cs.entries).value)
  }

  /** A rebuild's result does not depend on what the list held before, nor on the threshold. */
  lemma RebuildForgetsContents<K, V>(a: seq<V>, b: seq<V>, cs: SortedChangeSet<K, V>, t1: int, t2: int)
    requires cs.sortReason in {InitialLoad, ComparerChanged, Reset}
    ensures CanAdapt(a, Some(cs), t1) && CanAdapt(b, Some(cs), t2)
    ensures Adapted(a, Some(cs), t1) == Adapted(b, Some(cs), t2)
    ensures |Adapted(a, Some(cs), t1).value| == |cs.sortedItems|
  {
  }

  /**
   * Convergence: the producer is trusted to send entries that are a consistent
   * diff from the list to the target order (patching yields the values of
   * SortedItems). Given that, the threshold cannot change the outcome: Adapt
   * yields the target order whichever strategy it picks.
   */
  lemma StrategiesAgree<K, V>(items: seq<V>, cs: SortedChangeSet<K, V>, refreshThreshold: int)
    requires cs.sortReason != Unrecognised
    requires ListEdits.EditAll(items, cs.entries) == Some(Values(cs.sortedItems))
    ensures CanAdapt(items, Some(cs), refreshThreshold)
    ensures Adapted(items, Some(cs), refreshThreshold) == Success(Values(cs.sortedItems))
  {
  }

  /** The adaptor, owning a reference to the list and a fixed threshold. */
  class SortedBindingListAdaptor<K, V> {
    const list: BindingList<V>
    const refreshThreshold: int

    /** The list's null check is a property of the type here: `list` cannot be null. */
    constructor (list: BindingList<V>, refreshThreshold: int := DefaultRefreshThreshold)
      ensures this.list == list && this.refreshThreshold == refreshThreshold
    {
      this.list := list;
      this.refreshThreshold := refreshThreshold;
    }

    /**
     * Brings the list into the order `changes` describes: a rebuild from
     * SortedItems or an in-order patch, as Decide chooses. A null change set or
     * an unrecognised sort reason raises before the list is touched.
     */
    method Adapt(changes: Option<SortedChangeSet<K, V>>) returns (outcome: Outcome<Error>)
      requires CanAdapt(list.items, changes, refreshThreshold)
      modifies list
      ensures match Adapted(old(list.items), changes, refreshThreshold)
              case Success(r) => outcome == Pass && list.items == r
              case Failure(e) => outcome == Fail(e) && list.items == old(list.items)
    {
      if changes.None? {
        return Fail(ArgumentNullException);
      }
      var cs := changes.value;
      match cs.sortReason
      case InitialLoad | ComparerChanged | Reset =>
        list.Clear();
        list.AddRange(Values(cs.sortedItems));
        outcome := Pass;
      case DataChanged =>
        if |cs.entries| - Refreshes(cs.entries) > refreshThreshold {
          list.Clear();
          list.AddRange(Values(cs.sortedItems));
        } else {
          DoUpdate(cs.entries);
        }
        outcome := Pass;
      case Reorder =>
        DoUpdate(cs.entries);
        outcome := Pass;
      case Unrecognised =>
        outcome := Fail(ArgumentOutOfRangeException);
    }

    /** Applies one entry's positional edit. */
    method DoSingleUpdate(change: Change<K, V>)
      requires ListEdits.Edit(list.items, change).Some?
      modifies list
      ensures Some(list.items) == ListEdits.Edit(old(list.items), change)
    {
      match change.reason
      case Add =>
        list.Insert(change.currentIndex, change.current);
      case Remove =>
        list.RemoveAt(change.currentIndex);
      case Moved =>
        list.RemoveAt(change.previousIndex);
        list.Insert(change.currentIndex, change.current);
      case Update =>
        list.RemoveAt(change.previousIndex);
        list.Insert(change.currentIndex, change.current);
      case Refresh =>
    }

    /** Applies the entries in batch order, each to the list the previous one left. */
    method DoUpdate(entries: ChangeSet<K, V>)
      requires ListEdits.EditAll(list.items, entries).Some?
      modifies list
      ensures Some(list.items) == ListEdits.EditAll(old(list.items), entries)
    {
      var i := 0;
      while i < |entries|
        invariant 0 <= i <= |entries|
        invariant ListEdits.EditAll(list.items, entries[i..]) == ListEdits.EditAll(old(list.items), entries)
      {
        assert entries[i..][0] == entries[i] && entries[i..][1..] == entries[i + 1..];
        DoSingleUpdate(entries[i]);
        i := i + 1;
      }
      assert entries[i..] == [];
    }
  }
}
