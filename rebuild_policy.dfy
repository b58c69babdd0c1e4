/**
 * The rebuild-or-patch decision that SortedBindingListAdaptor.Adapt makes
 * inline, lifted into a pure function of the batch and the threshold.
 */
module RebuildPolicy {
  import opened Wrappers
  import opened Changes

  /** How a sorted change set is brought into the list. */
  datatype Strategy =
    | Rebuild  // clear the list and append the values of SortedItems
    | Patch    // apply each entry in batch order with Insert/RemoveAt

  /** The threshold used when the adaptor is constructed without one. */
  const DefaultRefreshThreshold: int := 25

  /**
   * The strategy for a batch, or the exception an unrecognised sort reason
   * raises. `Count - Refreshes` is compared strictly: a batch whose structural
   * size equals the threshold is still patched.
   */
  function Decide<K, V>(changes: SortedChangeSet<K, V>, refreshThreshold: int): (r: Result<Strategy, Error>)
    ensures r.Failure? <==> changes.sortReason == Unrecognised
    ensures r.Failure? ==> r.error == ArgumentOutOfRangeException
    ensures changes.sortReason in {InitialLoad, ComparerChanged, Reset} ==> r == Success(Rebuild)
    ensures changes.sortReason == Reorder ==> r == Success(Patch)
    ensures changes.sortReason == DataChanged ==>
              (r == Success(Rebuild) <==> |Without(changes.entries, {Refresh})| > refreshThreshold)
    ensures changes.sortReason == DataChanged ==>
              (r == Success(Patch) <==> |Without(changes.entries, {Refresh})| <= refreshThreshold)
  {
    StructuralCount(changes.entries);
    match changes.sortReason
    case InitialLoad | ComparerChanged | Reset => Success(Rebuild)
    case DataChanged =>
      if |changes.entries| - Refreshes(changes.entries) > refreshThreshold then Success(Rebuild) else Success(Patch)
    case Reorder => Success(Patch)
    case Unrecognised => Failure(ArgumentOutOfRangeException)
  }

  /** With threshold 2, a DataChanged batch of three Add entries and no Refresh is rebuilt. */
  lemma ThreeAddsOverThresholdTwo<K, V>(k1: K, k2: K, k3: K, v: V, items: seq<(K, V)>)
    ensures Decide(SortedChangeSet([Change(Add, k1, v, 0, -1), Change(Add, k2, v, 1, -1), Change(Add, k3, v, 2, -1)],
                                   items, DataChanged), 2) == Success(Rebuild)
  {
  }
}
