# DynamicData: sorted binding-list adaptor and keyed cache, in Dafny

This project models two small stateful pieces of DynamicData, a .NET library
that describes how a keyed collection changes as ordered batches of change
entries (change sets).

- `SortedBindingListAdaptor` keeps a `BindingList` in the order a *sorted*
  change set describes. For each batch it either rebuilds the list from the
  batch's `SortedItems` (clear, then append the values in order) or patches it.
  Patching applies each entry in batch order with positional `Insert`/`RemoveAt`;
  each entry's indices refer to the list as the previous entry left it.
  Which path is taken depends on the batch's `SortReason` and, for
  `DataChanged`, on `Count - Refreshes` compared strictly with the adaptor's
  refresh threshold (25 by default).
- `Kernel.Cache` is a dictionary from key to value. `Clone` folds a change set
  into it (Add and Update store, Remove deletes, other reasons are ignored).
  It also offers `Lookup`, `AddOrUpdate`, `Remove`, `Clear`, `Count` and `Keys`.

Layout:

- `wrappers.dfy` (`Wrappers`): `Option`, `Result` and `Outcome`. These stand in
  for null arguments, optional results and thrown exceptions.
- `changes.dfy` (`Changes`): change reasons, sort reasons, change entries, sorted
  change sets, and the batch statistics `Count` and `Refreshes`.
- `rebuild_policy.dfy` (`RebuildPolicy`): the rebuild-or-patch choice that
  `Adapt` makes inline, written as a pure function `Decide`.
- `list_edits.dfy` (`ListEdits`): `Insert`/`RemoveAt` on sequences, the
  per-entry edit of `DoSingleUpdate` (`Edit`), and its left fold over a batch
  (`EditAll`), with lemmas about them.
- `binding.dfy` (`Binding`): a `BindingList` stand-in class holding a `seq`, the
  function `Adapted` that says what `Adapt` leaves in the list, and the
  `SortedBindingListAdaptor` class whose methods update the list in place.
- `cache.dfy` (`Kernel`): the left fold `ApplyAll` that specifies `Clone`, its
  lemmas, and the `Cache` class holding a `map`.

A null argument is an `Option` parameter that may be `None`. An exception is an
`Outcome.Fail` (or a `Result.Failure`) carrying `ArgumentNullException` or
`ArgumentOutOfRangeException`. A C# enum variable can hold a value that names no
member, so `SortReason` has an extra `Unrecognised` variant and the `default`
branch of `Adapt` is reachable.

## Notes on the code

- `Adapt` raises `ArgumentNullException` for a null batch and
  `ArgumentOutOfRangeException` for an unrecognised sort reason
  (src/DynamicData/Binding/SortedBindingListAdaptor.cs:40-43, 78-79).
- The refresh threshold's sign is never checked
  (src/DynamicData/Binding/SortedBindingListAdaptor.cs:34); it is any `int` here.
- A Moved entry, like an Update, removes at `PreviousIndex` and inserts the
  entry's `Current` at `CurrentIndex`
  (src/DynamicData/Binding/SortedBindingListAdaptor.cs:96-97).

## Model

| member | source | states |
|---|---|---|
| `Changes.Refreshes` | src/DynamicData/Binding/SortedBindingListAdaptor.cs:59 | the batch statistic `Refreshes` counts Refresh entries and never exceeds `Count` |
| `Changes.StructuralCount` | src/DynamicData/Binding/SortedBindingListAdaptor.cs:59 | `Count - Refreshes` is exactly the number of structural (non-Refresh) entries |
| `Changes.Values` | src/DynamicData/Binding/SortedBindingListAdaptor.cs:53 | the values of `SortedItems` are taken in order, one per item: position i holds the value of item i |
| `RebuildPolicy.Decide` | src/DynamicData/Binding/SortedBindingListAdaptor.cs:45-80 | InitialLoad, ComparerChanged and Reset always rebuild; Reorder always patches; DataChanged rebuilds if and only if the structural count is strictly greater than the threshold, and patches if and only if it is at most the threshold; an unrecognised reason, and only that, gives ArgumentOutOfRangeException |
| `RebuildPolicy.ThreeAddsOverThresholdTwo` | src/DynamicData/Binding/SortedBindingListAdaptor.cs:58-66 | with threshold 2, a DataChanged batch of three Adds and no Refresh is rebuilt |
| `ListEdits.Insert` | src/DynamicData/Binding/SortedBindingListAdaptor.cs:88 | insertion puts the value at the index, keeps earlier elements and shifts later ones right by one |
| `ListEdits.RemoveAt` | src/DynamicData/Binding/SortedBindingListAdaptor.cs:92 | removal deletes the element at the index, keeps earlier elements and shifts later ones left by one |
| `ListEdits.Edit` | src/DynamicData/Binding/SortedBindingListAdaptor.cs:83-105 | Add grows the list by one with Current at CurrentIndex, the prefix unchanged and the suffix shifted; Remove deletes the element at CurrentIndex; Moved and Update keep the length, put Current at CurrentIndex and leave the others in their relative order with the element at PreviousIndex gone; Refresh changes nothing; each edit is defined exactly when its indices are in range |
| `ListEdits.EditAllAppend` | src/DynamicData/Binding/SortedBindingListAdaptor.cs:107-133 | patching with a batch `a + b` is patching with `a` and then with `b`: each entry applies to the list the previous ones left |
| `ListEdits.EditAllSkipsRefreshes` | src/DynamicData/Binding/SortedBindingListAdaptor.cs:83-105 | Refresh entries do not affect the patch: the result equals that of the batch without them |
| `ListEdits.EditAllLength` | src/DynamicData/Binding/SortedBindingListAdaptor.cs:83-105 | a successful patch changes the list's length by the number of Adds minus the number of Removes |
| `ListEdits.EditAllReorderKeepsLength` | src/DynamicData/Binding/SortedBindingListAdaptor.cs:74-76 | a batch of Moved and Refresh entries never changes the list's length |
| `ListEdits.MovedKeepsElements` | src/DynamicData/Binding/SortedBindingListAdaptor.cs:95-98 | a Moved entry whose Current is the element at PreviousIndex keeps the same multiset of elements |
| `ListEdits.MoveExample` | src/DynamicData/Binding/SortedBindingListAdaptor.cs:95-98 | `[A, B, C]` with a move of A from index 0 to index 2 gives `[B, C, A]` |
| `Binding.Adapted` | src/DynamicData/Binding/SortedBindingListAdaptor.cs:38-81 | a null batch gives ArgumentNullException; an unrecognised reason gives ArgumentOutOfRangeException; a rebuild gives the values of SortedItems; a patch gives the in-order fold of the entries over the list |
| `Binding.RebuildForgetsContents` | src/DynamicData/Binding/SortedBindingListAdaptor.cs:47-56 | for InitialLoad, ComparerChanged and Reset the list afterwards is the values of SortedItems, whatever it held before and whatever the threshold, with one element per sorted item |
| `Binding.StrategiesAgree` | src/DynamicData/Binding/SortedBindingListAdaptor.cs:45-80 | convergence of the patch to the target order is assumed of the producer (a consistent diff); given that, the threshold cannot change the outcome: Adapt yields the target order whichever path it selects |
| `Binding.SortedBindingListAdaptor.constructor` | src/DynamicData/Binding/SortedBindingListAdaptor.cs:31-35 | the adaptor keeps the given list and threshold, 25 when none is given |
| `Binding.SortedBindingListAdaptor.Adapt` | src/DynamicData/Binding/SortedBindingListAdaptor.cs:38-81 | the list afterwards is what `Adapted` gives; on either exception the list is unchanged and the exception is returned |
| `Binding.SortedBindingListAdaptor.DoSingleUpdate` | src/DynamicData/Binding/SortedBindingListAdaptor.cs:83-105 | the list after one entry's Insert/RemoveAt calls is `Edit` of the list before |
| `Binding.SortedBindingListAdaptor.DoUpdate` | src/DynamicData/Binding/SortedBindingListAdaptor.cs:107-133 | the list after the loop is the left fold of the entries in batch order over the list before |
| `Kernel.Apply` | DynamicData/Kernel/Cache.cs:25-36 | Add and Update store Current under the key; Remove leaves the key absent; no other key changes; Refresh and Moved leave the dictionary as it was |
| `Kernel.ApplyAllAppend` | DynamicData/Kernel/Cache.cs:23-37 | folding `a + b` is folding `a` and then `b` |
| `Kernel.LastWrite` | DynamicData/Kernel/Cache.cs:23-37 | the last entry of the batch that is an Add, Update or Remove for the key; none exactly when every entry for that key is a Refresh or a Move |
| `Kernel.ApplyAllAt` | DynamicData/Kernel/Cache.cs:23-37 | later entries win: after the fold a key holds the Current of the last Add/Update for it, is absent if that last write is a Remove, and keeps its prior state if no entry writes it |
| `Kernel.ApplyAllIgnoresNonWrites` | DynamicData/Kernel/Cache.cs:25-36 | Refresh and Moved entries never change the dictionary: the fold equals that of the batch without them |
| `Kernel.ApplyAllKeys` | DynamicData/Kernel/Cache.cs:23-37 | the fold only stores keys that were present before or that some entry names |
| `Kernel.AddUpdateRemoveScenario` | DynamicData/Kernel/Cache.cs:23-37 | Add(1, "A") into an empty dictionary gives {1: A}; Update(1, "B") then gives {1: B}; Remove(1) then gives an empty dictionary |
| `Kernel.Cache.constructor` | DynamicData/Kernel/Cache.cs:10-13 | a new cache is empty |
| `Kernel.Cache.Clone` | DynamicData/Kernel/Cache.cs:15-38 | a null batch raises ArgumentNullException and leaves the dictionary unchanged; otherwise the dictionary becomes the left fold of the entries over the prior one, also when it was empty and replaced by a fresh one |
| `Kernel.Cache.Lookup` | DynamicData/Kernel/Cache.cs:40-43 | some value exactly when the key is present, and then the stored value |
| `Kernel.Cache.AddOrUpdate` | DynamicData/Kernel/Cache.cs:45-48 | Lookup of the key then gives the item; every other key looks up as before |
| `Kernel.Cache.Remove` | DynamicData/Kernel/Cache.cs:50-54 | the key is absent afterwards and every other key looks up as before; an absent key leaves the dictionary and Count unchanged; a present key lowers Count by one |
| `Kernel.Cache.Clear` | DynamicData/Kernel/Cache.cs:56-59 | Count is 0 and every key looks up as none |
| `Kernel.Cache.Count` | DynamicData/Kernel/Cache.cs:61-64 | the number of stored keys; 0 exactly when the dictionary is empty |
| `Kernel.Cache.Keys` | DynamicData/Kernel/Cache.cs:76-79 | the keys for which Lookup finds a value |

## Left out

- `BindingListEventsSuspender`, which suppresses the list's change notifications around a rebuild. No notifications are modelled. The rebuild is the `Clear` and `AddRange` it wraps.
- The `NET6_0_OR_GREATER` span loop in `DoUpdate`. It visits the same entries in the same order as the `foreach`, so it is the same single loop here. `SUPPORTS_BINDINGLIST` is only a build flag.
- `BindingList` itself beyond the four calls the adaptor makes (`Insert`, `RemoveAt`, `Clear`, `AddRange`). Its out-of-range exceptions on a bad index are preconditions.
- `Binding.SortedBindingListAdaptor.Adapt`: it requires that, on the patch path, every entry's indices are in range for the list as the previous entries leave it (`CanAdapt`). The source would throw from `BindingList` part-way through the batch. Batches are computed by the sorting operators, which are not part of this model.
- The constructor's `ArgumentNullException` for a null list. The list parameter cannot be null in Dafny.
- `Optional<T>` and the `IDictionary.Lookup` extension method. `Lookup` returns a Dafny `Option`.
- The dictionary capacity hint in `Clone`. An empty dictionary is replaced by a fresh empty one; the contents seen afterwards through `Lookup`, `Count` and `Keys` are the same either way.
- Views obtained earlier from `KeyValues`, `Keys` or `Items` are live views of the dictionary object. When `Clone` replaces an empty dictionary, such a view keeps viewing the replaced one and never sees the batch. This aliasing is not modelled: `Keys` returns the key set at call time.
- `ChangeReason` values that name no member of the C# enum are not represented: the datatype is closed. The source treats them as no-ops in `DoSingleUpdate` and `Clone`, and counts them as structural in `Count - Refreshes`.
- The enumeration order of `KeyValues`, `Items` and `Keys`, which `Dictionary` leaves unspecified. Only the key set is exposed (`Keys`). `KeyValues` and `Items` are not modelled.
- Concurrency. Both components assume a single writer.
- `src/DynamicData.Benchmarks/Cache/SourceCache.cs` is not part of this model. It is a benchmark harness with no logic of its own.
