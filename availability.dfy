/**
 * The first half of the `userAvailableTimeChange` trigger (functions/index.js):
 * from the `hasAvailableTime` lists of a user document before and after an
 * update, compute the per-slot `changes` vector and the `hasChange` flag, and
 * decide whether the aggregate counters need an update at all.
 */
module Availability {
  import opened Wrappers

  /** `data.hasAvailableTime || []`: an absent field reads as the empty list. */
  function ListOrEmpty(field: Option<seq<bool>>): seq<bool> {
    match field
    case None => []
    case Some(l) => l
  }

  /** `list[i]`: the flag at slot i, or `undefined` past the end of the list. */
  function At(list: seq<bool>, i: nat): Option<bool> {
    if i < |list| then Some(list[i]) else None
  }

  /** 1 for a set flag, 0 for a cleared one. */
  function Flag(b: bool): int {
    if b then 1 else 0
  }

  /**
   * The entry the loop pushes for one slot: 0 when `before === after`,
   * otherwise -1 when the slot was set before and +1 when it was not.
   * A slot missing from the after-list never equals a boolean.
   */
  function SlotChange(before: bool, after: Option<bool>): int {
    if after == Some(before) then 0 else if before then -1 else 1
  }

  /** The `changes` vector after the loop has visited every slot of `before`. */
  function Changes(before: seq<bool>, after: seq<bool>): (changes: seq<int>)
    ensures |changes| == |before|
    decreases |before|
  {
    if before == [] then []
    else
      var n := |before| - 1;
      Changes(before[..n], after) + [SlotChange(before[n], At(after, n))]
  }

  /** The `hasChange` flag after the loop: some slot of `before` differs in `after`. */
  predicate HasChange(before: seq<bool>, after: seq<bool>)
    decreases |before|
  {
    before != [] &&
    var n := |before| - 1;
    HasChange(before[..n], after) || At(after, n) != Some(before[n])
  }

  /** Whether the trigger goes on to the transaction, past both early returns. */
  predicate UpdateNeeded(beforeField: Option<seq<bool>>, afterField: Option<seq<bool>>) {
    var before := ListOrEmpty(beforeField);
    var after := ListOrEmpty(afterField);
    before != after && HasChange(before, after)
  }

  /** The `for` loop over `beforeList` that builds `changes` and `hasChange`. */
  method ComputeChanges(before: seq<bool>, after: seq<bool>) returns (changes: seq<int>, hasChange: bool)
    ensures changes == Changes(before, after)
    ensures hasChange == HasChange(before, after)
  {
    changes := [];
    hasChange := false;
    for i := 0 to |before|
      invariant changes == Changes(before[..i], after)
      invariant hasChange == HasChange(before[..i], after)
    {
      var afterFlag := At(after, i);
      if afterFlag == Some(before[i]) {
        changes := changes + [0];
      } else {
        changes := changes + [if before[i] then -1 else 1];
      }
      hasChange := hasChange || afterFlag != Some(before[i]);
      assert before[..i + 1][..i] == before[..i];
    }
    assert before[..|before|] == before;
  }

  /** Slot by slot, `Changes` holds one entry per slot of `before`. */
  lemma {:induction false} ChangesAt(before: seq<bool>, after: seq<bool>)
    ensures |Changes(before, after)| == |before|
    ensures forall i :: 0 <= i < |before| ==> Changes(before, after)[i] == SlotChange(before[i], At(after, i))
    decreases |before|
  {
    if before != [] {
      var n := |before| - 1;
      ChangesAt(before[..n], after);
    }
  }

  /**
   * Every entry is -1, 0 or +1; it is 0 exactly when the slot is unchanged,
   * -1 exactly when a set slot was cleared or dropped, +1 exactly when a
   * cleared slot was set or dropped; inside the after-list it is the
   * difference of the flags.
   */
  lemma DeltaSemantics(before: seq<bool>, after: seq<bool>, i: nat)
    requires i < |before|
    ensures |Changes(before, after)| == |before|
    ensures Changes(before, after)[i] in {-1, 0, 1}
    ensures Changes(before, after)[i] == 0 <==> i < |after| && after[i] == before[i]
    ensures Changes(before, after)[i] == -1 <==> before[i] && !(i < |after| && after[i])
    ensures Changes(before, after)[i] == 1 <==> !before[i] && (i >= |after| || after[i])
    ensures i < |after| ==> Changes(before, after)[i] == Flag(after[i]) - Flag(before[i])
  {
    ChangesAt(before, after);
  }

  /** `hasChange` is set exactly when some slot of `before` differs in `after`. */
  lemma {:induction false} HasChangeIffSlotDiffers(before: seq<bool>, after: seq<bool>)
    ensures HasChange(before, after) <==> exists i :: 0 <= i < |before| && At(after, i) != Some(before[i])
    decreases |before|
  {
    if before != [] {
      var n := |before| - 1;
      HasChangeIffSlotDiffers(before[..n], after);
      if HasChange(before[..n], after) {
        var i :| 0 <= i < n && At(after, i) != Some(before[..n][i]);
        assert At(after, i) != Some(before[i]);
      }
      if i :| 0 <= i < |before| && At(after, i) != Some(before[i]) {
        if i < n {
          assert At(after, i) != Some(before[..n][i]);
        }
      }
    }
  }

  /** `hasChange` is set exactly when some entry of `changes` is non-zero. */
  lemma HasChangeIffNonzero(before: seq<bool>, after: seq<bool>)
    ensures HasChange(before, after) <==> exists i :: 0 <= i < |before| && Changes(before, after)[i] != 0
  {
    ChangesAt(before, after);
    HasChangeIffSlotDiffers(before, after);
  }

  /** `hasChange` stays false exactly when `after` only appends slots to `before`. */
  lemma HasChangeIffNotPrefix(before: seq<bool>, after: seq<bool>)
    ensures !HasChange(before, after) <==> before <= after
  {
    HasChangeIffSlotDiffers(before, after);
    if |before| > |after| {
      assert At(after, |after|) != Some(before[|after|]);
    }
    if !HasChange(before, after) {
      assert before == after[..|before|] by {
        forall i | 0 <= i < |before| ensures before[i] == after[i] {
          assert At(after, i) == Some(before[i]);
        }
      }
    }
  }

  /**
   * The trigger goes on to the transaction exactly when the before-list is
   * not a prefix of the after-list; in particular an absent field equals an
   * empty list, and identical lists never lead to an update.
   */
  lemma UpdateNeededIffNotPrefix(beforeField: Option<seq<bool>>, afterField: Option<seq<bool>>)
    ensures UpdateNeeded(beforeField, afterField) <==> !(ListOrEmpty(beforeField) <= ListOrEmpty(afterField))
    ensures ListOrEmpty(beforeField) == ListOrEmpty(afterField) ==> !UpdateNeeded(beforeField, afterField)
    ensures beforeField.None? && afterField.None? ==> !UpdateNeeded(beforeField, afterField)
  {
    HasChangeIffNotPrefix(ListOrEmpty(beforeField), ListOrEmpty(afterField));
  }
}
