/**
 * The stone ledger of the enhance GUI: the nine stone slots of the 54-slot
 * process inventory, how many stones they hold, and the all-or-nothing,
 * fixed-order drain that consumes them.
 */
module StoneLedger {
  import opened Wrappers
  import opened Bukkit
  import opened StoneManager

  /** The process inventory, slot by slot; None is an empty slot. */
  type Slots = seq<Option<ItemStack>>

  const GuiSize: int := 54

  /** The stone slots, in the order they are counted and drained. */
  const StoneSlots: seq<int> := [12, 13, 14, 21, 22, 23, 30, 31, 32]

  lemma StoneSlotsIncreasing()
    ensures forall i, j :: 0 <= i < j < |StoneSlots| ==> StoneSlots[i] < StoneSlots[j]
    ensures forall i :: 0 <= i < |StoneSlots| ==> 12 <= StoneSlots[i] <= 32
  {
  }

  /** What an inventory can hold: positive stacks, never an AIR stack. */
  predicate WellFormed(s: Slots) {
    && |s| == GuiSize
    && forall i :: 0 <= i < |s| && s[i].Some? ==> s[i].value.amount >= 1 && !IsAir(s[i].value.kind)
  }

  /** The stones a slot contributes: a stone stack's amount, otherwise nothing. */
  function StoneAmount(slot: Option<ItemStack>): int {
    if IsEnhanceStone(slot) then slot.value.amount else 0
  }

  /** The stones in stone slots k to 8. */
  function StonesFrom(s: Slots, k: nat): int
    requires |s| == GuiSize && k <= 9
    decreases 9 - k
  {
    if k == 9 then 0 else StoneAmount(s[StoneSlots[k]]) + StonesFrom(s, k + 1)
  }

  /** All stones staged in the GUI. */
  function StoneTotal(s: Slots): int
    requires |s| == GuiSize
  {
    StonesFrom(s, 0)
  }

  lemma {:induction false} StonesFromNonNegative(s: Slots, k: nat)
    requires WellFormed(s) && k <= 9
    ensures StonesFrom(s, k) >= 0
    ensures StonesFrom(s, k) == 0 <==> forall j :: k <= j < 9 ==> !IsEnhanceStone(s[StoneSlots[j]])
    decreases 9 - k
  {
    StoneSlotsIncreasing();
    if k < 9 {
      StonesFromNonNegative(s, k + 1);
    }
  }

  /** Writing one stone slot changes the count by the difference it makes there. */
  lemma {:induction false} StonesFromUpdate(s: Slots, k: nat, v: Option<ItemStack>, j: nat)
    requires |s| == GuiSize && k < 9 && j <= 9
    ensures j <= k ==> StonesFrom(s[StoneSlots[k] := v], j) == StonesFrom(s, j) - StoneAmount(s[StoneSlots[k]]) + StoneAmount(v)
    ensures j > k ==> StonesFrom(s[StoneSlots[k] := v], j) == StonesFrom(s, j)
    decreases 9 - j
  {
    StoneSlotsIncreasing();
    if j < 9 {
      StonesFromUpdate(s, k, v, j + 1);
    }
  }

  // ------------------------------------------------------------------ drain

  /** The stack the collection pass records for a fully drained slot. */
  const AirStack: ItemStack := ItemStack(Air, 1, map[], 0, None, false)

  /** What Inventory.setItem leaves in a slot: an AIR stack empties it. */
  function Stored(entry: Option<ItemStack>): Option<ItemStack> {
    if entry.Some? && entry.value.kind == Air then None else entry
  }

  /**
   * One step of the collection pass: a stone stack no larger than what is
   * still to remove is drained whole, a larger one is reduced by it, and any
   * other slot is kept as it is.
   */
  function Collect(slot: Option<ItemStack>, remaining: int): (Option<ItemStack>, int) {
    if IsEnhanceStone(slot) then
      if slot.value.amount <= remaining then (Some(AirStack), remaining - slot.value.amount)
      else (Some(slot.value.(amount := slot.value.amount - remaining)), 0)
    else (slot, remaining)
  }

  /**
   * The slots after the collection pass has been written back, from stone
   * slot k on, and what was still to remove when the pass stopped.
   */
  function DrainFrom(s: Slots, k: nat, remaining: int): (r: (Slots, int))
    requires |s| == GuiSize && k <= 9
    ensures |r.0| == GuiSize
    decreases 9 - k
  {
    if k == 9 || remaining <= 0 then (s, remaining)
    else
      var step := Collect(s[StoneSlots[k]], remaining);
      DrainFrom(s[StoneSlots[k] := Stored(step.0)], k + 1, step.1)
  }

  /** The whole drain of `amount` stones. */
  function Drain(s: Slots, amount: int): (r: (Slots, int))
    requires |s| == GuiSize
    ensures |r.0| == GuiSize
  {
    DrainFrom(s, 0, amount)
  }

  /** The first |entries| stone slots with the recorded entries written back. */
  function WriteBack(s: Slots, entries: seq<Option<ItemStack>>): (r: Slots)
    requires |s| == GuiSize && |entries| <= 9
    ensures |r| == GuiSize
  {
    if entries == [] then s
    else WriteBack(s, entries[..|entries| - 1])[StoneSlots[|entries| - 1] := Stored(entries[|entries| - 1])]
  }

  lemma {:induction false} WriteBackLeavesLaterSlots(s: Slots, entries: seq<Option<ItemStack>>, k: nat)
    requires |s| == GuiSize && |entries| <= k < 9
    ensures WriteBack(s, entries)[StoneSlots[k]] == s[StoneSlots[k]]
    decreases |entries|
  {
    StoneSlotsIncreasing();
    if entries != [] {
      WriteBackLeavesLaterSlots(s, entries[..|entries| - 1], k);
    }
  }

  /** Writing back one more recorded entry stores it in the next stone slot. */
  lemma WriteBackStep(s: Slots, entries: seq<Option<ItemStack>>, j: nat)
    requires |s| == GuiSize && j < |entries| <= 9
    ensures WriteBack(s, entries[..j + 1]) == WriteBack(s, entries[..j])[StoneSlots[j] := Stored(entries[j])]
  {
    StoneSlotsIncreasing();
    assert entries[..j + 1][..j] == entries[..j];
  }

  /** One step of the collection pass, recorded and written back, is one step of the drain. */
  lemma CollectStep(s: Slots, entries: seq<Option<ItemStack>>, k: nat, remaining: int)
    requires |s| == GuiSize && |entries| == k < 9 && remaining > 0
    ensures var step := Collect(s[StoneSlots[k]], remaining);
            DrainFrom(WriteBack(s, entries), k, remaining) == DrainFrom(WriteBack(s, entries + [step.0]), k + 1, step.1)
  {
    StoneSlotsIncreasing();
    var step := Collect(s[StoneSlots[k]], remaining);
    var entries' := entries + [step.0];
    assert entries'[..|entries'| - 1] == entries;
    WriteBackLeavesLaterSlots(s, entries, k);
  }

  /**
   * consumeEnhanceStones: a collection pass over the stone slots in order,
   * then, only if it found enough stones, writing its entries back.  The
   * result and the new slots are those of Drain.
   */
  method ConsumeEnhanceStones(gui: array<Option<ItemStack>>, amount: int) returns (ok: bool)
    requires gui.Length == GuiSize
    modifies gui
    ensures ok == (Drain(old(gui[..]), amount).1 <= 0)
    ensures gui[..] == if ok then Drain(old(gui[..]), amount).0 else old(gui[..])
  {
    StoneSlotsIncreasing();
    ghost var s := gui[..];
    var remaining := amount;
    var toConsume: seq<Option<ItemStack>> := [];
    var i := 0;
    while i < 9
      invariant 0 <= i <= 9 && |toConsume| == i
      invariant gui[..] == s
      invariant Drain(s, amount) == DrainFrom(WriteBack(s, toConsume), i, remaining)
    {
      if remaining <= 0 {
        break;
      }
      var item := gui[StoneSlots[i]];
      ghost var collected, before := toConsume, remaining;
      ghost var step := Collect(item, before);
      if item.Some? && IsEnhanceStone(item) {
        var itemAmount := item.value.amount;
        if itemAmount <= remaining {
          toConsume := toConsume + [Some(AirStack)];
          remaining := remaining - itemAmount;
        } else {
          toConsume := toConsume + [Some(item.value.(amount := itemAmount - remaining))];
          remaining := 0;
        }
        assert toConsume == collected + [step.0] && remaining == step.1;
      } else {
        toConsume := toConsume + [item];
        assert toConsume == collected + [step.0] && remaining == step.1;
      }
      CollectStep(s, collected, i, before);
      i := i + 1;
    }
    if remaining > 0 {
      return false;
    }
    var j := 0;
    while j < 9 && j < |toConsume|
      invariant 0 <= j <= |toConsume|
      invariant gui[..] == WriteBack(s, toConsume[..j])
    {
      var newItem := toConsume[j];
      WriteBackStep(s, toConsume, j);
      ghost var before := gui[..];
      if newItem.Some? && newItem.value.kind == Air {
        gui[StoneSlots[j]] := None;
      } else {
        gui[StoneSlots[j]] := newItem;
      }
      assert gui[..] == before[StoneSlots[j] := Stored(newItem)];
      j := j + 1;
    }
    assert toConsume[..j] == toConsume;
    return true;
  }

  /**
   * countEnhanceStones: the stone stacks' amounts over the nine stone slots;
   * empty and non-stone slots add nothing.
   */
  method CountEnhanceStones(gui: array<Option<ItemStack>>) returns (count: int)
    requires gui.Length == GuiSize
    ensures count == StoneTotal(gui[..])
  {
    StoneSlotsIncreasing();
    count := 0;
    var i := 0;
    while i < 9
      invariant 0 <= i <= 9
      invariant count + StonesFrom(gui[..], i) == StoneTotal(gui[..])
    {
      var item := gui[StoneSlots[i]];
      if item.Some? && IsEnhanceStone(item) {
        count := count + item.value.amount;
      }
      i := i + 1;
    }
  }

  // ------------------------------------------------------- drain properties

  lemma StoredKeepsWellFormed(s: Slots, k: nat, v: Option<ItemStack>)
    requires WellFormed(s) && k < 9
    requires v.Some? ==> v.value.amount >= 1 && !IsAir(v.value.kind)
    ensures WellFormed(s[StoneSlots[k] := v])
  {
    StoneSlotsIncreasing();
  }

  /** On a well-formed inventory the drain succeeds exactly when enough stones are staged. */
  lemma {:induction false} DrainFromSucceedsIff(s: Slots, k: nat, remaining: int)
    requires WellFormed(s) && k <= 9
    ensures DrainFrom(s, k, remaining).1 <= 0 <==> remaining <= StonesFrom(s, k)
    decreases 9 - k
  {
    StonesFromNonNegative(s, k);
    if k < 9 && remaining > 0 {
      StoneSlotsIncreasing();
      var p := StoneSlots[k];
      var step := Collect(s[p], remaining);
      var s' := s[p := Stored(step.0)];
      StonesFromUpdate(s, k, Stored(step.0), k + 1);
      if IsEnhanceStone(s[p]) && s[p].value.amount <= remaining {
        StoredKeepsWellFormed(s, k, None);
        DrainFromSucceedsIff(s', k + 1, step.1);
      } else if IsEnhanceStone(s[p]) {
        StoredKeepsWellFormed(s, k, Stored(step.0));
        StonesFromNonNegative(s', k + 1);
      } else {
        assert s' == s;
        DrainFromSucceedsIff(s', k + 1, step.1);
      }
    }
  }

  /** The drain succeeds exactly when at least `amount` stones are staged. */
  lemma DrainSucceedsIff(s: Slots, amount: int)
    requires WellFormed(s)
    ensures Drain(s, amount).1 <= 0 <==> amount <= StoneTotal(s)
  {
    DrainFromSucceedsIff(s, 0, amount);
  }

  /** One collection step on a well-formed inventory takes exactly what it records as removed. */
  lemma DrainStep(s: Slots, k: nat, remaining: int, j: nat) returns (s': Slots, rest: int)
    requires WellFormed(s) && k < 9 && j <= k
    requires 0 < remaining <= StonesFrom(s, k)
    ensures WellFormed(s') && 0 <= rest <= StonesFrom(s', k + 1)
    ensures DrainFrom(s, k, remaining) == DrainFrom(s', k + 1, rest)
    ensures StonesFrom(s', j) == StonesFrom(s, j) - (remaining - rest)
  {
    StoneSlotsIncreasing();
    var p := StoneSlots[k];
    var step := Collect(s[p], remaining);
    s', rest := s[p := Stored(step.0)], step.1;
    StonesFromUpdate(s, k, Stored(step.0), j);
    StonesFromUpdate(s, k, Stored(step.0), k + 1);
    if IsEnhanceStone(s[p]) && s[p].value.amount <= remaining {
      StoredKeepsWellFormed(s, k, None);
    } else if IsEnhanceStone(s[p]) {
      StoredKeepsWellFormed(s, k, Stored(step.0));
      StonesFromNonNegative(s', k + 1);
    } else {
      assert s' == s;
      StonesFromNonNegative(s, k + 1);
    }
  }

  lemma {:induction false} DrainFromRemoves(s: Slots, k: nat, remaining: int, j: nat)
    requires WellFormed(s) && k <= 9 && j <= k
    requires 0 <= remaining <= StonesFrom(s, k)
    ensures WellFormed(DrainFrom(s, k, remaining).0)
    ensures StonesFrom(DrainFrom(s, k, remaining).0, j) == StonesFrom(s, j) - remaining
    decreases 9 - k
  {
    if k < 9 && remaining > 0 {
      var s', rest := DrainStep(s, k, remaining, j);
      DrainFromRemoves(s', k + 1, rest, j);
    } else if k == 9 {
      assert remaining == 0;
    }
  }

  /**
   * A successful drain removes exactly `amount` stones; draining the whole
   * stock leaves no stone in any stone slot.
   */
  lemma DrainRemovesExactly(s: Slots, amount: int)
    requires WellFormed(s)
    requires 0 <= amount <= StoneTotal(s)
    ensures WellFormed(Drain(s, amount).0)
    ensures StoneTotal(Drain(s, amount).0) == StoneTotal(s) - amount
    ensures amount == StoneTotal(s) ==> forall k :: 0 <= k < 9 ==> !IsEnhanceStone(Drain(s, amount).0[StoneSlots[k]])
  {
    StoneSlotsIncreasing();
    DrainFromRemoves(s, 0, amount, 0);
    StonesFromNonNegative(Drain(s, amount).0, 0);
  }

  /** A slot that is not one of stone slots k to 8 is left as it was. */
  lemma {:induction false} DrainFromKeeps(s: Slots, k: nat, remaining: int, i: int)
    requires |s| == GuiSize && k <= 9 && 0 <= i < GuiSize
    requires i !in StoneSlots[k..]
    ensures DrainFrom(s, k, remaining).0[i] == s[i]
    decreases 9 - k
  {
    StoneSlotsIncreasing();
    if k < 9 && remaining > 0 {
      assert StoneSlots[k..] == [StoneSlots[k]] + StoneSlots[k + 1..];
      var step := Collect(s[StoneSlots[k]], remaining);
      DrainFromKeeps(s[StoneSlots[k] := Stored(step.0)], k + 1, step.1, i);
    }
  }

  /** Stone slot j (k <= j) ends kept, emptied, or reduced to a smaller stone stack. */
  lemma {:induction false} DrainFromSlot(s: Slots, k: nat, remaining: int, j: nat)
    requires |s| == GuiSize && k <= j < 9
    requires Stored(s[StoneSlots[j]]) == s[StoneSlots[j]]
    ensures var before, after := s[StoneSlots[j]], DrainFrom(s, k, remaining).0[StoneSlots[j]];
            && (!IsEnhanceStone(before) ==> after == before)
            && (|| after == before
                || after == None
                || (&& IsEnhanceStone(before) && after.Some?
                    && after.value == before.value.(amount := after.value.amount)
                    && 1 <= after.value.amount < before.value.amount))
    decreases 9 - k
  {
    StoneSlotsIncreasing();
    if remaining > 0 {
      var step := Collect(s[StoneSlots[k]], remaining);
      var s' := s[StoneSlots[k] := Stored(step.0)];
      if j == k {
        assert StoneSlots[k] !in StoneSlots[k + 1..];
        DrainFromKeeps(s', k + 1, step.1, StoneSlots[k]);
      } else {
        DrainFromSlot(s', k + 1, step.1, j);
      }
    }
  }

  /** A later stone slot j2 changes only once the stone stack in an earlier slot j1 is gone. */
  lemma {:induction false} DrainFromOrder(s: Slots, k: nat, remaining: int, j1: nat, j2: nat)
    requires |s| == GuiSize && k <= j1 < j2 < 9
    requires IsEnhanceStone(s[StoneSlots[j1]])
    requires DrainFrom(s, k, remaining).0[StoneSlots[j2]] != s[StoneSlots[j2]]
    ensures DrainFrom(s, k, remaining).0[StoneSlots[j1]] == None
    decreases 9 - k
  {
    StoneSlotsIncreasing();
    var step := Collect(s[StoneSlots[k]], remaining);
    var s' := s[StoneSlots[k] := Stored(step.0)];
    if j1 > k {
      DrainFromOrder(s', k + 1, step.1, j1, j2);
    } else if s[StoneSlots[k]].value.amount <= remaining {
      assert StoneSlots[k] !in StoneSlots[k + 1..];
      DrainFromKeeps(s', k + 1, step.1, StoneSlots[k]);
    }
  }

  /** Outside the stone slots, and in any stone slot not holding stones, nothing changes. */
  lemma DrainFrame(s: Slots, amount: int)
    requires WellFormed(s)
    ensures forall i :: 0 <= i < GuiSize && i !in StoneSlots ==> Drain(s, amount).0[i] == s[i]
    ensures forall j :: 0 <= j < 9 && !IsEnhanceStone(s[StoneSlots[j]]) ==>
              Drain(s, amount).0[StoneSlots[j]] == s[StoneSlots[j]]
  {
    StoneSlotsIncreasing();
    assert StoneSlots[0..] == StoneSlots;
    forall i | 0 <= i < GuiSize && i !in StoneSlots
      ensures Drain(s, amount).0[i] == s[i]
    {
      DrainFromKeeps(s, 0, amount, i);
    }
    forall j | 0 <= j < 9 && !IsEnhanceStone(s[StoneSlots[j]])
      ensures Drain(s, amount).0[StoneSlots[j]] == s[StoneSlots[j]]
    {
      DrainFromSlot(s, 0, amount, j);
    }
  }

  /** Each stone slot is kept, emptied, or left holding fewer stones of the same stack. */
  lemma DrainSlotOutcome(s: Slots, amount: int, j: nat)
    requires WellFormed(s) && j < 9
    ensures var before, after := s[StoneSlots[j]], Drain(s, amount).0[StoneSlots[j]];
            || after == before
            || after == None
            || (&& IsEnhanceStone(before) && after.Some?
                && after.value == before.value.(amount := after.value.amount)
                && 1 <= after.value.amount < before.value.amount)
  {
    StoneSlotsIncreasing();
    DrainFromSlot(s, 0, amount, j);
  }

  /**
   * The drain works through the stone slots in their fixed order: a later
   * slot is touched only once every stone stack before it has been emptied,
   * so at most one slot is reduced without being emptied.
   */
  lemma DrainInOrder(s: Slots, amount: int)
    requires |s| == GuiSize
    ensures forall j1, j2 ::
              && 0 <= j1 < j2 < 9
              && IsEnhanceStone(s[StoneSlots[j1]])
              && Drain(s, amount).0[StoneSlots[j2]] != s[StoneSlots[j2]]
              ==> Drain(s, amount).0[StoneSlots[j1]] == None
  {
    StoneSlotsIncreasing();
    forall j1, j2 | 0 <= j1 < j2 < 9 && IsEnhanceStone(s[StoneSlots[j1]]) &&
                    Drain(s, amount).0[StoneSlots[j2]] != s[StoneSlots[j2]]
      ensures Drain(s, amount).0[StoneSlots[j1]] == None
    {
      DrainFromOrder(s, 0, amount, j1, j2);
    }
  }

  /** When fewer stones are staged than asked for, consumption changes nothing. */
  lemma ShortDrainChangesNothing(s: Slots, amount: int)
    requires WellFormed(s) && amount > StoneTotal(s)
    ensures Drain(s, amount).1 > 0
  {
    DrainSucceedsIff(s, amount);
  }

  // ----------------------------------------------------------------- return

  /** The stone stacks in stone slots k to 8, in slot order. */
  function StoneStacksFrom(s: Slots, k: nat): (stacks: seq<ItemStack>)
    requires |s| == GuiSize && k <= 9
    ensures forall i :: 0 <= i < |stacks| ==> IsEnhanceStone(Some(stacks[i]))
    decreases 9 - k
  {
    if k == 9 then []
    else if IsEnhanceStone(s[StoneSlots[k]]) then [s[StoneSlots[k]].value] + StoneStacksFrom(s, k + 1)
    else StoneStacksFrom(s, k + 1)
  }

  /** The stacks handed back when the GUI closes. */
  function StoneStacks(s: Slots): seq<ItemStack>
    requires |s| == GuiSize
  {
    StoneStacksFrom(s, 0)
  }

  function TotalAmount(stacks: seq<ItemStack>): int {
    if stacks == [] then 0 else stacks[0].amount + TotalAmount(stacks[1..])
  }

  lemma {:induction false} StoneStacksFromAmount(s: Slots, k: nat)
    requires |s| == GuiSize && k <= 9
    ensures TotalAmount(StoneStacksFrom(s, k)) == StonesFrom(s, k)
    decreases 9 - k
  {
    StoneSlotsIncreasing();
    if k < 9 {
      StoneStacksFromAmount(s, k + 1);
      if IsEnhanceStone(s[StoneSlots[k]]) {
        var rest := StoneStacksFrom(s, k + 1);
        assert ([s[StoneSlots[k]].value] + rest)[1..] == rest;
      }
    }
  }

  /**
   * What is handed back on close is exactly the staged stock: stone stacks
   * only, as many stones as the GUI counts.
   */
  lemma ReturnedStonesAreTheStock(s: Slots)
    requires |s| == GuiSize
    ensures forall i :: 0 <= i < |StoneStacks(s)| ==> IsEnhanceStone(Some(StoneStacks(s)[i]))
    ensures TotalAmount(StoneStacks(s)) == StoneTotal(s)
    ensures |StoneStacks(s)| <= 9
  {
    StoneStacksFromAmount(s, 0);
    StoneStacksFromLength(s, 0);
  }

  lemma {:induction false} StoneStacksFromLength(s: Slots, k: nat)
    requires |s| == GuiSize && k <= 9
    ensures |StoneStacksFrom(s, k)| <= 9 - k
    decreases 9 - k
  {
    if k < 9 {
      StoneStacksFromLength(s, k + 1);
    }
  }

  /** The hand-back pass, one stone slot further on. */
  lemma StoneStacksStep(s: Slots, returned: seq<ItemStack>, i: nat)
    requires |s| == GuiSize && i < 9
    ensures IsEnhanceStone(s[StoneSlots[i]]) ==>
              returned + StoneStacksFrom(s, i) == (returned + [s[StoneSlots[i]].value]) + StoneStacksFrom(s, i + 1)
    ensures !IsEnhanceStone(s[StoneSlots[i]]) ==>
              returned + StoneStacksFrom(s, i) == returned + StoneStacksFrom(s, i + 1)
  {
    StoneSlotsIncreasing();
    if IsEnhanceStone(s[StoneSlots[i]]) {
      assert StoneStacksFrom(s, i) == [s[StoneSlots[i]].value] + StoneStacksFrom(s, i + 1);
    }
  }

  /**
   * returnEnhanceStones: the stone stacks of the nine stone slots, in slot
   * order; where they go (inventory or ground) is the caller's concern.
   */
  method ReturnEnhanceStones(gui: array<Option<ItemStack>>) returns (returned: seq<ItemStack>)
    requires gui.Length == GuiSize
    ensures returned == StoneStacks(gui[..])
  {
    StoneSlotsIncreasing();
    ghost var s := gui[..];
    returned := [];
    var i := 0;
    while i < 9
      invariant 0 <= i <= 9
      invariant returned + StoneStacksFrom(s, i) == StoneStacks(s)
    {
      var item := gui[StoneSlots[i]];
      StoneStacksStep(s, returned, i);
      if item.Some? && IsEnhanceStone(item) {
        returned := returned + [item.value];
      }
      i := i + 1;
    }
  }
}
