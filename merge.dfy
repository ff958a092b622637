/** Utilities.SmartMerge and Utilities.FindNewIndex: merge the items of one
    ordering that another lacks into a copy of the other, each item meant to
    go next to its nearest neighbour (in the first ordering) that is already
    there; PlacementIndex says where the code actually puts it. Lists are
    sequence values, so neither argument can change. */
module Merge {
  import opened Sequences

  /** `toMerge.Where(x => !targetArr.Contains(x)).ToList()`: the items of
      `toMerge` that `targetArr` lacks, duplicates and order kept. */
  function Missing<T(==)>(toMerge: seq<T>, targetArr: seq<T>): (r: seq<T>)
    ensures Subseq(r, toMerge)
    ensures forall x :: x in r ==> x !in targetArr
    decreases |toMerge|
  {
    if toMerge == [] then []
    else
      var rest := Missing(toMerge[1..], targetArr);
      if toMerge[0] in targetArr then rest
      else
        assert ([toMerge[0]] + rest)[1..] == rest;
        [toMerge[0]] + rest
  }

  /** Every item the target lacks is kept as often as `toMerge` holds it. */
  lemma {:induction false} MissingCount<T>(toMerge: seq<T>, targetArr: seq<T>, x: T)
    requires x !in targetArr
    ensures multiset(Missing(toMerge, targetArr))[x] == multiset(toMerge)[x]
    decreases |toMerge|
  {
    if toMerge != [] {
      MissingCount(toMerge[1..], targetArr, x);
      assert toMerge == [toMerge[0]] + toMerge[1..];
    }
  }

  /** Index of the last item of `orig` below index `k` that occurs in
      `present`, or -1 when there is none. */
  function LastPresentBelow<T(==)>(orig: seq<T>, present: seq<T>, k: int): (p: int)
    requires k <= |orig|
    ensures p == -1 || 0 <= p < k
    ensures p >= 0 ==> orig[p] in present
    ensures forall j :: p < j < k && 0 <= j ==> orig[j] !in present
    decreases k
  {
    if k <= 0 then -1
    else if orig[k - 1] in present then k - 1
    else LastPresentBelow(orig, present, k - 1)
  }

  /** Index of the first item of `orig` at index `k` or above that occurs in
      `present`, or -1 when there is none. */
  function FirstPresentFrom<T(==)>(orig: seq<T>, present: seq<T>, k: int): (q: int)
    requires 0 <= k <= |orig|
    ensures q == -1 || k <= q < |orig|
    ensures q >= 0 ==> orig[q] in present
    ensures forall j :: k <= j < |orig| && (q == -1 || j < q) ==> orig[j] !in present
    decreases |orig| - k
  {
    if k == |orig| then -1
    else if orig[k] in present then k
    else FirstPresentFrom(orig, present, k + 1)
  }

  /** The nearest neighbours of `item` in `orig` that already occur in
      `present`: the closest one before it and the closest one after it. */
  function NeighbourBefore<T(==)>(orig: seq<T>, present: seq<T>, item: T): (p: int)
    ensures p == -1 || 0 <= p < IndexOf(orig, item)
    ensures p >= 0 ==> orig[p] in present
    ensures forall j :: p < j < IndexOf(orig, item) && 0 <= j ==> orig[j] !in present
  {
    LastPresentBelow(orig, present, IndexOf(orig, item))
  }

  function NeighbourAfter<T(==)>(orig: seq<T>, present: seq<T>, item: T): (q: int)
    ensures q == -1 || IndexOf(orig, item) < q < |orig|
    ensures q >= 0 ==> orig[q] in present
    ensures forall j :: IndexOf(orig, item) < j < |orig| && (q == -1 || j < q) ==> orig[j] !in present
  {
    FirstPresentFrom(orig, present, IndexOf(orig, item) + 1)
  }

  /** Where FindNewIndex, as written, says `item` goes in `newArray`: right
      after its nearest preceding neighbour; failing that, one slot before
      the slot of its nearest following neighbour, so that the item lands
      before the element that precedes that neighbour; and when that slot
      would be negative or there is no neighbour, at `originalArr.Count`. */
  function PlacementIndex<T(==)>(originalArr: seq<T>, newArray: seq<T>, item: T): (idx: int)
    ensures 0 <= idx
    ensures var p := NeighbourBefore(originalArr, newArray, item);
      p >= 0 ==> 1 <= idx <= |newArray| && newArray[idx - 1] == originalArr[p]
                 && originalArr[p] !in newArray[..idx - 1]
    ensures var p := NeighbourBefore(originalArr, newArray, item);
      var q := NeighbourAfter(originalArr, newArray, item);
      p < 0 && q >= 0 && newArray[0] != originalArr[q] ==>
        idx + 1 < |newArray| && newArray[idx + 1] == originalArr[q]
        && originalArr[q] !in newArray[..idx + 1]
    ensures var p := NeighbourBefore(originalArr, newArray, item);
      var q := NeighbourAfter(originalArr, newArray, item);
      p < 0 && (q < 0 || newArray[0] == originalArr[q]) ==> idx == |originalArr|
  {
    var p := NeighbourBefore(originalArr, newArray, item);
    if p >= 0 then IndexOf(newArray, originalArr[p]) + 1
    else
      var q := NeighbourAfter(originalArr, newArray, item);
      var newIndex := if q >= 0 then IndexOf(newArray, originalArr[q]) - 1 else -1;
      if newIndex < 0 then |originalArr| else newIndex
  }

  /** FindNewIndex as the source writes it: two searches outwards from the
      item's first position in `originalArr`, each ending at the first
      neighbour found in `newArray`. */
  method FindNewIndex<T(==)>(originalArr: seq<T>, newArray: seq<T>, item: T) returns (idx: int)
    ensures idx == PlacementIndex(originalArr, newArray, item)
  {
    var originalIndex := IndexOf(originalArr, item);
    var newIndex := -1;

    // search the items before
    var i := originalIndex - 1;
    while i >= 0
      invariant -2 <= i < originalIndex
      invariant LastPresentBelow(originalArr, newArray, i + 1) == NeighbourBefore(originalArr, newArray, item)
      invariant newIndex == -1
    {
      var previousItem := originalArr[i];
      var indexInNewArr := IndexOf(newArray, previousItem);
      if indexInNewArr >= 0 {
        newIndex := indexInNewArr + 1;
        break;
      }
      i := i - 1;
    }

    // search the items after
    if newIndex < 0 {
      var j := originalIndex + 1;
      while j < |originalArr|
        invariant originalIndex + 1 <= j <= |originalArr|
        invariant FirstPresentFrom(originalArr, newArray, j) == NeighbourAfter(originalArr, newArray, item)
        invariant newIndex == -1
      {
        var previousItem := originalArr[j];
        var indexInNewArr := IndexOf(newArray, previousItem);
        if indexInNewArr >= 0 {
          newIndex := indexInNewArr - 1;
          break;
        }
        j := j + 1;
      }
    }

    if newIndex < 0 {
      idx := |originalArr|;
    } else {
      idx := newIndex;
    }
  }

  /** The placement FindNewIndex evidently intends: right after the nearest
      preceding neighbour, else right before the nearest following one, else
      at the end of `newArray`. */
  function IntendedIndex<T(==)>(originalArr: seq<T>, newArray: seq<T>, item: T): (idx: int)
    ensures 0 <= idx <= |newArray|
    ensures var p := NeighbourBefore(originalArr, newArray, item);
      p >= 0 ==> 1 <= idx && Insert(newArray, idx, item)[idx - 1] == originalArr[p]
                 && originalArr[p] !in newArray[..idx - 1]
    ensures var p := NeighbourBefore(originalArr, newArray, item);
      var q := NeighbourAfter(originalArr, newArray, item);
      p < 0 && q >= 0 ==> idx < |newArray| && Insert(newArray, idx, item)[idx + 1] == originalArr[q]
                          && originalArr[q] !in newArray[..idx]
    ensures var p := NeighbourBefore(originalArr, newArray, item);
      var q := NeighbourAfter(originalArr, newArray, item);
      p < 0 && q < 0 ==> idx == |newArray|
  {
    var p := NeighbourBefore(originalArr, newArray, item);
    if p >= 0 then IndexOf(newArray, originalArr[p]) + 1
    else
      var q := NeighbourAfter(originalArr, newArray, item);
      if q >= 0 then IndexOf(newArray, originalArr[q]) else |newArray|
  }

  /** Which placement rule a merge uses: the source's, or the intended one. */
  datatype Placement = AsWritten | Intended

  function PlaceIndex<T(==)>(placement: Placement, originalArr: seq<T>, newArray: seq<T>, item: T): (idx: int)
    ensures 0 <= idx
  {
    match placement
    case AsWritten => PlacementIndex(originalArr, newArray, item)
    case Intended => IntendedIndex(originalArr, newArray, item)
  }

  /** One step of SmartMerge's loop: `Add` when the index is at or past the
      end, `Insert` otherwise. */
  function Place<T>(acc: seq<T>, index: int, item: T): (r: seq<T>)
    requires 0 <= index
    ensures r == Insert(acc, if index < |acc| then index else |acc|, item)
  {
    if index >= |acc| then acc + [item] else Insert(acc, index, item)
  }

  /** The loop of SmartMerge from the list `acc` on, with `pending` still to go. */
  function MergeInto<T(==)>(placement: Placement, acc: seq<T>, toMerge: seq<T>, pending: seq<T>): (r: seq<T>)
    ensures |r| == |acc| + |pending|
    decreases |pending|
  {
    if pending == [] then acc
    else
      var index := PlaceIndex(placement, toMerge, acc, pending[0]);
      MergeInto(placement, Place(acc, index, pending[0]), toMerge, pending[1..])
  }

  /** The list SmartMerge returns under the given placement rule. */
  function SmartMergeOf<T(==)>(placement: Placement, targetArr: seq<T>, toMerge: seq<T>): (r: seq<T>)
    ensures |r| == |targetArr| + |Missing(toMerge, targetArr)|
  {
    MergeInto(placement, targetArr, toMerge, Missing(toMerge, targetArr))
  }

  /** The merge loop only ever inserts: whatever ordering `acc` contains
      survives, and the pending items are added exactly once each. */
  lemma {:induction false} MergeIntoKeeps<T>(placement: Placement, base: seq<T>, acc: seq<T>, toMerge: seq<T>, pending: seq<T>)
    requires Subseq(base, acc)
    ensures Subseq(base, MergeInto(placement, acc, toMerge, pending))
    ensures multiset(MergeInto(placement, acc, toMerge, pending)) == multiset(acc) + multiset(pending)
    decreases |pending|
  {
    if pending != [] {
      var index := PlaceIndex(placement, toMerge, acc, pending[0]);
      var next := Place(acc, index, pending[0]);
      SubseqInsert(base, acc, if index < |acc| then index else |acc|, pending[0]);
      MergeIntoKeeps(placement, base, next, toMerge, pending[1..]);
      assert pending == [pending[0]] + pending[1..];
    }
  }

  /** What SmartMerge promises, under either placement rule: the target's
      items keep their order, every item of `toMerge` ends up in the result,
      and exactly the missing items (duplicates counted) are added. */
  lemma SmartMergeOfSpec<T>(placement: Placement, targetArr: seq<T>, toMerge: seq<T>)
    ensures var r := SmartMergeOf(placement, targetArr, toMerge);
      Subseq(targetArr, r)
      && (forall x :: x in toMerge ==> x in r)
      && multiset(r) == multiset(targetArr) + multiset(Missing(toMerge, targetArr))
      && |r| == |targetArr| + |Missing(toMerge, targetArr)|
  {
    var missing := Missing(toMerge, targetArr);
    var r := SmartMergeOf(placement, targetArr, toMerge);
    SubseqReflexive(targetArr);
    MergeIntoKeeps(placement, targetArr, targetArr, toMerge, missing);
    forall x | x in toMerge
      ensures x in r
    {
      if x in targetArr {
        assert multiset(targetArr)[x] > 0;
      } else {
        MissingCount(toMerge, targetArr, x);
        assert multiset(missing)[x] == multiset(toMerge)[x] > 0;
      }
      assert multiset(r)[x] > 0;
    }
  }

  /** SmartMerge as the source writes it: copy the target, then insert each
      missing item where FindNewIndex says, appending when that index is at
      or past the end. */
  method SmartMerge<T(==)>(targetArr: seq<T>, toMerge: seq<T>) returns (result: seq<T>)
    ensures result == SmartMergeOf(AsWritten, targetArr, toMerge)
    ensures Subseq(targetArr, result)
    ensures forall x :: x in toMerge ==> x in result
    ensures multiset(result) == multiset(targetArr) + multiset(Missing(toMerge, targetArr))
    ensures |result| == |targetArr| + |Missing(toMerge, targetArr)|
  {
    var missingToMerge := Missing(toMerge, targetArr);
    result := targetArr;
    for k := 0 to |missingToMerge|
      invariant MergeInto(AsWritten, result, toMerge, missingToMerge[k..]) == SmartMergeOf(AsWritten, targetArr, toMerge)
    {
      var missing := missingToMerge[k];
      assert missingToMerge[k..][1..] == missingToMerge[k + 1..];
      var newIndex := FindNewIndex(toMerge, result, missing);
      if newIndex >= |result| {
        result := result + [missing];
      } else {
        result := Insert(result, newIndex, missing);
      }
    }
    assert missingToMerge[|missingToMerge|..] == [];
    SmartMergeOfSpec(AsWritten, targetArr, toMerge);
  }

  /** When none of an item's neighbours is in the list yet, FindNewIndex
      returns `originalArr.Count` rather than the list's length, so the item
      lands in the middle of a longer list instead of at its end. */
  lemma NoNeighbourInsertsMidList()
    ensures SmartMergeOf(AsWritten, [1, 2, 3], [9]) == [1, 9, 2, 3]
    ensures SmartMergeOf(Intended, [1, 2, 3], [9]) == [1, 2, 3, 9]
  {
    var target: seq<int>, toMerge: seq<int> := [1, 2, 3], [9];
    assert Missing(toMerge[1..], target) == [];
    assert Missing(toMerge, target) == [9];
    assert IndexOf(toMerge, 9) == 0;
    assert NeighbourBefore(toMerge, target, 9) == -1;
    assert FirstPresentFrom(toMerge, target, 1) == -1;
    assert PlacementIndex(toMerge, target, 9) == 1;
    assert IntendedIndex(toMerge, target, 9) == 3;
    assert Insert(target, 1, 9) == [1, 9, 2, 3];
    assert Place(target, 3, 9) == [1, 2, 3, 9];
  }

  /** When an item's nearest following neighbour is first in the list,
      FindNewIndex computes -1, falls through to `originalArr.Count`, and the
      item is appended after the neighbour it precedes in `toMerge`. */
  lemma FollowingNeighbourFirstAppended()
    ensures SmartMergeOf(AsWritten, [2, 5], [9, 2]) == [2, 5, 9]
    ensures SmartMergeOf(Intended, [2, 5], [9, 2]) == [9, 2, 5]
  {
    var target: seq<int>, toMerge: seq<int> := [2, 5], [9, 2];
    assert IndexOf(toMerge, 9) == 0;
    assert toMerge[1..] == [2] && toMerge[1..][1..] == [];
    assert FirstPresentFrom(toMerge, target, 1) == 1;
    assert Missing(toMerge[1..], target) == [];
    assert Missing(toMerge, target) == [9];
    assert PlacementIndex(toMerge, target, 9) == 2;
    assert IntendedIndex(toMerge, target, 9) == 0;
    assert Insert(target, 0, 9) == [9, 2, 5];
  }

  /** When an item's nearest following neighbour is at slot j > 0,
      FindNewIndex returns j - 1, so the item goes in front of the element
      ahead of its neighbour rather than right before the neighbour. */
  lemma FollowingNeighbourOffByOne()
    ensures SmartMergeOf(AsWritten, [5, 2], [9, 2]) == [9, 5, 2]
    ensures SmartMergeOf(Intended, [5, 2], [9, 2]) == [5, 9, 2]
  {
    var target: seq<int>, toMerge: seq<int> := [5, 2], [9, 2];
    assert IndexOf(toMerge, 9) == 0;
    assert toMerge[1..] == [2] && toMerge[1..][1..] == [];
    assert FirstPresentFrom(toMerge, target, 1) == 1;
    assert Missing(toMerge[1..], target) == [];
    assert Missing(toMerge, target) == [9];
    assert PlacementIndex(toMerge, target, 9) == 0;
    assert IntendedIndex(toMerge, target, 9) == 1;
    assert Insert(target, 0, 9) == [9, 5, 2];
    assert Insert(target, 1, 9) == [5, 9, 2];
  }
}
