# ToolEnhancer enhancement engine in Dafny

ToolEnhancer is a Bukkit plugin. It lets a player raise an enchantment on a
tool, weapon or piece of armour beyond what vanilla Minecraft allows. The
player spends enhancement stones (renamed nether stars). Each attempt
either succeeds, fails or destroys the item. The odds depend on the target
level, the enchantment's vanilla maximum, the number of stones spent and
the configuration.

This project models the plugin's enhancement engine and proves properties
of that model:

- `StoneManager` (`stone_manager.dfy`): the rate and limit tables of
  `EnhanceStoneManager`, as pure functions over exact reals. These are:
  - the minimum stones per level;
  - the base success rate;
  - the stone bonus;
  - the destroy-rate bands;
  - the absolute level cap.

  The module also holds the stone item and its recogniser.
- `EnhanceManager` (`enhance_manager.dfy`): the parts of `EnhanceManager`
  that decide things:
  - which items can be enhanced;
  - the merge of current and applicable enchantments (a loop that builds a
    map);
  - the Roman-numeral table;
  - the resolution of one attempt, `performEnhance`, which takes the random
    roll as a parameter.
- `StoneLedger` (`stone_ledger.dfy`): the nine stone slots of the enhance
  GUI as an array of optional stacks. It covers:
  - counting the stones;
  - the all-or-nothing, fixed-order drain `consumeEnhanceStones`, which
    collects first and writes back second;
  - the hand-back pass `returnEnhanceStones`.
- `EnhanceGui` (`enhance_gui.dfy`): the stateful part of `EnhanceGUI`. A
  class holds the per-player session map and the `processingPlayers`
  guard. The module also covers:
  - the item-identity check `isSimilarItem`;
  - session validity and the sweep of expired sessions;
  - click routing in the process GUI;
  - the protocol of the enhance button.
- `ToolEnhancerApi` (`api.dfy`): the static query facade for other plugins.
- `ToolEnhancer` (`tool_enhancer.dfy`): the configuration as a key/value
  map, the typed getters with defaults, `validateConfig` as a method that
  updates the configuration in place, and the settings the stone manager
  loads after validation.
- `Bukkit`, `Numeric`, `Wrappers`: the values the plugin works on. These
  are:
  - item stacks as immutable records;
  - Bukkit's registries as a `Server` record of functions;
  - Java's `Math.min`/`Math.max` and `(int)` cast;
  - `Option` for Java's `null`.

Every rate is an exact `real`. The random roll and the clock are
parameters. `Enchantment.values()`, `canEnchantItem`, `getMaxLevel` and
`getMaxDurability` are fields of `Server`.

Notable behaviours of the code, all of which the model keeps:

- The enhance button consumes every staged stone
  (gui/EnhanceGUI.java:420) before `performEnhance` checks the maximum
  level (managers/EnhanceManager.java:312). An attempt that ends in
  MAX_LEVEL, or in FAILED because of an internal fault, still costs all the
  stones. `EnhanceGui.AttemptConsumesAllStones` states this.
- An internal fault during an attempt is caught inside `performEnhance`,
  after the stones are already gone, so a faulted attempt also costs all
  the staged stones.
- Sessions are never removed after an attempt. Only `openEnhanceSelectGUI`
  and the periodic sweep remove them. `updateLastAccess` is never called,
  so a session expires five minutes after it was opened, however active
  the player is.
- The sweep removes expired players from the processing guard without
  looking at what the guard protects.
- The GUI is closed while the guard is still held in two places: when the
  target has left its slot, and after an attempt. The close handler then
  hands nothing back, so stones staged before a "target missing" close are
  not returned. `EnhanceGui.EnhanceGui.HandleEnhanceButtonClick` states
  this.
- In the player's own inventory the item guard compares `rawSlot - 54`
  with the held hotbar slot, which is a different player slot (see
  "## Findings"). `EnhanceGui.EnhanceGui.HandleEnhanceProcessClick` keeps
  this check as written.
- The success and destroy rates are computed independently and can sum to
  more than 1 (`EnhanceManager.RatesCanExceedOne`). The roll then succeeds
  less often than the reported success rate says.

## Model

| member | source | states |
|---|---|---|
| `Numeric.Clamp01` | src/main/java/com/krangpq/toolenhancer/managers/EnhanceManager.java:329-330 | the clamp lies in [0, 1] and leaves values already in [0, 1] unchanged |
| `Numeric.Trunc` | src/main/java/com/krangpq/toolenhancer/managers/EnhanceStoneManager.java:175 | Java's `(int)` cast of a double truncates toward zero: the result is within 1 of the input, on the side of zero |
| `Bukkit.EnchantmentLevel` | src/main/java/com/krangpq/toolenhancer/managers/EnhanceManager.java:306 | an item lacking the enchantment has level 0 |
| `Bukkit.WithEnchantment` | src/main/java/com/krangpq/toolenhancer/managers/EnhanceManager.java:345-346 | the copy keeps material and amount, has the chosen enchantment at exactly the given level with every other enchantment unchanged, and keeps damage and name when the item had meta |
| `Bukkit.PlayerSlotOfRaw` | src/main/java/com/krangpq/toolenhancer/gui/EnhanceGUI.java:287-308 | below a 54-slot GUI, raw slots 54..80 show inventory slots 9..35 and raw slots 81..89 hotbar slots 0..8 |
| `Bukkit.RawOfPlayerSlot` | src/main/java/com/krangpq/toolenhancer/gui/EnhanceGUI.java:287-308 | every player slot 0..35 is shown at a raw slot in 54..89, the hotbar slots at 81 and above |
| `Bukkit.RawSlotsBijective` | src/main/java/com/krangpq/toolenhancer/gui/EnhanceGUI.java:287-308 | the two numberings are inverse to each other, so a raw slot shows a player slot exactly when it is that slot's raw slot |
| `Bukkit.PlayerSlotOfRawInjective` | src/main/java/com/krangpq/toolenhancer/gui/EnhanceGUI.java:287-308 | distinct raw slots in 54..89 show distinct player slots |
| `StoneManager.CreateEnhanceStone` | src/main/java/com/krangpq/toolenhancer/managers/EnhanceStoneManager.java:47-67 | every created stack is recognised as a stone, has the requested amount and carries no enchantments |
| `StoneManager.StoneRecognition` | src/main/java/com/krangpq/toolenhancer/managers/EnhanceStoneManager.java:72-83 | a missing item, another material, a missing meta or another name is rejected; a recognised stone equals a created stone up to amount, enchantments and damage |
| `StoneManager.StoneBonus` | src/main/java/com/krangpq/toolenhancer/managers/EnhanceStoneManager.java:95-96 | the per-stone bonus never exceeds 40% and is non-negative for a non-negative count |
| `StoneManager.CalculateSuccessRate` | src/main/java/com/krangpq/toolenhancer/managers/EnhanceStoneManager.java:88-102 | the rate always lies in [0, 0.95]; it is 0 without stones; with stones it lies between min(clamped base + 5%, 95%) and clamped base + 40% |
| `StoneManager.SuccessRateMonotoneInStones` | src/main/java/com/krangpq/toolenhancer/managers/EnhanceStoneManager.java:88-102 | more stones never lower the success rate |
| `StoneManager.SuccessRateMonotoneInBase` | src/main/java/com/krangpq/toolenhancer/managers/EnhanceStoneManager.java:88-102 | a higher base rate never lowers the success rate |
| `StoneManager.BaseDestroyRate` | src/main/java/com/krangpq/toolenhancer/managers/EnhanceStoneManager.java:112-122 | the band rate lies in [0, 0.90], is 0 up to level 3 and positive above it |
| `StoneManager.BaseDestroyRateMonotone` | src/main/java/com/krangpq/toolenhancer/managers/EnhanceStoneManager.java:112-122 | the band rate never falls as the level rises, across all band boundaries |
| `StoneManager.StoneReduction` | src/main/java/com/krangpq/toolenhancer/managers/EnhanceStoneManager.java:123-124 | the stone reduction never exceeds 30% and is non-negative for a non-negative count |
| `StoneManager.CalculateDestroyRate` | src/main/java/com/krangpq/toolenhancer/managers/EnhanceStoneManager.java:107-127 | the rate lies in [0, 0.90], is 0 up to level 3, never exceeds the band rate, and stones cut it by at most 30 points |
| `StoneManager.DestroyRateMonotoneInStones` | src/main/java/com/krangpq/toolenhancer/managers/EnhanceStoneManager.java:107-127 | more stones never raise the destroy rate |
| `StoneManager.DestroyRateMonotoneInLevel` | src/main/java/com/krangpq/toolenhancer/managers/EnhanceStoneManager.java:107-127 | a higher target level never lowers the destroy rate |
| `StoneManager.OverCapReduction` | src/main/java/com/krangpq/toolenhancer/managers/EnhanceStoneManager.java:147-155 | the reduction beyond the vanilla cap lies in [0, 0.24] |
| `StoneManager.OverCapReductionMonotone` | src/main/java/com/krangpq/toolenhancer/managers/EnhanceStoneManager.java:147-155 | the reduction never falls as the level goes further beyond the cap |
| `StoneManager.BaseSuccessRateBounds` | src/main/java/com/krangpq/toolenhancer/managers/EnhanceStoneManager.java:132-161 | in [30%, 80%] below the vanilla cap; at or above it, at least the global minimum and at most max(global minimum, 30%); always in [0, 1] for validated settings |
| `StoneManager.ScaledFloorMonotone` | src/main/java/com/krangpq/toolenhancer/managers/EnhanceStoneManager.java:143-160 | a larger over-cap level never gives a larger floored rate when the scale is non-negative |
| `StoneManager.BaseSuccessRateMonotoneBeyondCap` | src/main/java/com/krangpq/toolenhancer/managers/EnhanceStoneManager.java:143-160 | at or above the cap, with a non-negative severity scale, the base rate never rises with the level |
| `StoneManager.BaseSuccessRateMonotone` | src/main/java/com/krangpq/toolenhancer/managers/EnhanceStoneManager.java:132-161 | over all levels the base rate never rises, provided the scale is non-negative and the global minimum is at most 30% |
| `StoneManager.AbsoluteMaxLevel` | src/main/java/com/krangpq/toolenhancer/managers/EnhanceStoneManager.java:166-181 | the vanilla cap when going beyond it is off; never above the configured absolute maximum when it is on; exactly that maximum without the limit; with the limit, either the absolute maximum or the truncated vanilla cap times the multiplier, and never above the latter; with a multiplier of at least 1 also at least min(vanilla cap, absolute maximum) |
| `StoneManager.MinRequiredStones` | src/main/java/com/krangpq/toolenhancer/managers/EnhanceStoneManager.java:186-202 | always in [1, 15]; 1 up to level 3; min(15, 8 + (level - 15)) above level 15 |
| `StoneManager.MinRequiredStonesMonotone` | src/main/java/com/krangpq/toolenhancer/managers/EnhanceStoneManager.java:186-202 | a higher target level never needs fewer stones |
| `EnhanceManager.CanEnhance` | src/main/java/com/krangpq/toolenhancer/managers/EnhanceManager.java:35-41 | true exactly for a present, non-AIR item whose material is enhanceable |
| `EnhanceManager.SwordsAreEnhanceable` | src/main/java/com/krangpq/toolenhancer/managers/EnhanceManager.java:46-62 | any material whose name contains SWORD anywhere can be enhanced |
| `EnhanceManager.ApplicableEnchantments` | src/main/java/com/krangpq/toolenhancer/managers/EnhanceManager.java:70-90 | an enchantment is applicable exactly when the item is present, the enchantment is registered and it can enchant the item; a missing item has none |
| `EnhanceManager.GetApplicableEnchantments` | src/main/java/com/krangpq/toolenhancer/managers/EnhanceManager.java:76-86 | the loop over the registered enchantments collects exactly the applicable set |
| `EnhanceManager.AllPossibleEnchantments` | src/main/java/com/krangpq/toolenhancer/managers/EnhanceManager.java:98-122 | the keys are exactly the item's enchantments plus the applicable ones; current enchantments keep their level; added ones are at level 0; a missing item gives an empty map |
| `EnhanceManager.DecimalString` | src/main/java/com/krangpq/toolenhancer/managers/EnhanceManager.java:404 | the decimal rendering is never empty |
| `EnhanceManager.DecimalRoundTrip` | src/main/java/com/krangpq/toolenhancer/managers/EnhanceManager.java:404 | reading the decimal rendering back gives the number |
| `EnhanceManager.RomanNumeral` | src/main/java/com/krangpq/toolenhancer/managers/EnhanceManager.java:402-410 | "0" for numbers up to zero; the table's non-empty numeral for 1..20; the decimal rendering above 20 |
| `EnhanceManager.RomanTable` | src/main/java/com/krangpq/toolenhancer/managers/EnhanceManager.java:406-407 | each numeral in the table reads, with the subtractive rule, as its own index |
| `EnhanceManager.RomanNumeralRoundTrip` | src/main/java/com/krangpq/toolenhancer/managers/EnhanceManager.java:402-410 | every positive number's rendering reads back as that number: as a Roman numeral up to 20, as decimal above |
| `EnhanceManager.AttemptSuccessRate` | src/main/java/com/krangpq/toolenhancer/managers/EnhanceManager.java:325-329 | the clamped success rate an attempt rolls against lies in [0, 0.95] and is 0 without stones |
| `EnhanceManager.AttemptDestroyRate` | src/main/java/com/krangpq/toolenhancer/managers/EnhanceManager.java:327-330 | the clamped destroy rate lies in [0, 0.90] and is 0 when the target level is at most 3 |
| `EnhanceManager.PerformEnhance` | src/main/java/com/krangpq/toolenhancer/managers/EnhanceManager.java:282-369 | a missing argument fails with no item; DESTROYED has no item; SUCCESS carries the input with the chosen enchantment one level higher; SUCCESS and DESTROYED happen only without a fault and for an attempt past both limit checks; every other outcome hands back the input item |
| `EnhanceManager.FaultKeepsItem` | src/main/java/com/krangpq/toolenhancer/managers/EnhanceManager.java:357-368 | an exception inside the attempt gives FAILED with the input item |
| `EnhanceManager.MaxLevelDecidedFirst` | src/main/java/com/krangpq/toolenhancer/managers/EnhanceManager.java:306-316 | beyond the absolute maximum the attempt is MAX_LEVEL with the item unchanged, whatever the stones and the roll |
| `EnhanceManager.TooFewStonesDecidedBeforeRoll` | src/main/java/com/krangpq/toolenhancer/managers/EnhanceManager.java:318-323 | below the maximum with too few stones the attempt is INSUFFICIENT_MATERIALS with the item unchanged, whatever the roll |
| `EnhanceManager.NoStonesNoRoll` | src/main/java/com/krangpq/toolenhancer/managers/EnhanceManager.java:312-323 | without stones the attempt never reaches the roll |
| `EnhanceManager.RollPartition` | src/main/java/com/krangpq/toolenhancer/managers/EnhanceManager.java:325-355 | an admitted attempt with a roll in [0, 1) is DESTROYED iff roll < destroy, SUCCESS iff destroy <= roll < destroy + success, and FAILED iff roll >= destroy + success |
| `EnhanceManager.SuccessRaisesOnlyTheChosenEnchantment` | src/main/java/com/krangpq/toolenhancer/managers/EnhanceManager.java:343-349 | on SUCCESS the chosen enchantment is exactly one level higher and within the absolute maximum; every other enchantment, the material and the amount are unchanged |
| `EnhanceManager.SafeLevelsNeverDestroy` | src/main/java/com/krangpq/toolenhancer/managers/EnhanceManager.java:327-341 | target levels up to 3 never destroy the item |
| `EnhanceManager.WorkedExampleNeverDestroys` | src/main/java/com/krangpq/toolenhancer/managers/EnhanceManager.java:318-355 | with default settings, going from level 5 (vanilla cap 5) to level 6 with ten stones needs 2 stones, has a 65% success rate and a 0% destroy rate, so it never destroys |
| `EnhanceManager.RatesCanExceedOne` | src/main/java/com/krangpq/toolenhancer/managers/EnhanceManager.java:325-343 | going from level 14 (vanilla cap 5) with twenty stones under default settings: success 46% plus destroy 60% exceeds 1 |
| `StoneLedger.StoneSlotsIncreasing` | src/main/java/com/krangpq/toolenhancer/gui/EnhanceGUI.java:461 | the nine stone slots are distinct, in increasing order, within 12..32 |
| `StoneLedger.StonesFromNonNegative` | src/main/java/com/krangpq/toolenhancer/gui/EnhanceGUI.java:195-207 | the stone count is never negative and is 0 exactly when no stone slot holds a stone |
| `StoneLedger.CountEnhanceStones` | src/main/java/com/krangpq/toolenhancer/gui/EnhanceGUI.java:195-207 | the loop's count is the sum of the amounts of the recognised stones in the nine stone slots |
| `StoneLedger.ConsumeEnhanceStones` | src/main/java/com/krangpq/toolenhancer/gui/EnhanceGUI.java:460-502 | succeeds exactly when the collection pass covers the amount; on success the GUI is the drained GUI; otherwise no slot changes |
| `StoneLedger.DrainSucceedsIff` | src/main/java/com/krangpq/toolenhancer/gui/EnhanceGUI.java:466-489 | the drain succeeds iff the amount is at most the staged stones |
| `StoneLedger.ShortDrainChangesNothing` | src/main/java/com/krangpq/toolenhancer/gui/EnhanceGUI.java:486-489 | asking for more stones than are staged fails, so consumption leaves the GUI as it was |
| `StoneLedger.DrainStep` | src/main/java/com/krangpq/toolenhancer/gui/EnhanceGUI.java:466-480 | one collection step keeps the GUI well-formed, takes from the slot exactly what it takes off the amount still owed, and never overshoots |
| `StoneLedger.DrainRemovesExactly` | src/main/java/com/krangpq/toolenhancer/gui/EnhanceGUI.java:466-499 | a drain of a covered amount keeps the GUI well-formed and removes exactly that many stones; draining all of them leaves no stone |
| `StoneLedger.DrainFrame` | src/main/java/com/krangpq/toolenhancer/gui/EnhanceGUI.java:466-499 | slots outside the nine stone slots, and stone slots holding no stone, are untouched |
| `StoneLedger.DrainSlotOutcome` | src/main/java/com/krangpq/toolenhancer/gui/EnhanceGUI.java:470-498 | each stone slot is kept, emptied, or left holding the same stack with a smaller positive amount |
| `StoneLedger.DrainInOrder` | src/main/java/com/krangpq/toolenhancer/gui/EnhanceGUI.java:466-480 | a later slot changes only when every earlier stone slot has been emptied, so at most one slot is partly drained |
| `StoneLedger.StoneStacksFrom` | src/main/java/com/krangpq/toolenhancer/gui/EnhanceGUI.java:534-536 | the hand-back pass returns only stones |
| `StoneLedger.ReturnedStonesAreTheStock` | src/main/java/com/krangpq/toolenhancer/gui/EnhanceGUI.java:531-548 | the stacks handed back are all stones, at most nine, and together hold exactly the staged stone count |
| `StoneLedger.ReturnEnhanceStones` | src/main/java/com/krangpq/toolenhancer/gui/EnhanceGUI.java:531-548 | the loop hands back the stone stacks of the stone slots in slot order |
| `EnhanceGui.ExpiryIsPermanent` | src/main/java/com/krangpq/toolenhancer/gui/EnhanceGUI.java:605-607 | once a session is invalid it stays invalid at every later time |
| `EnhanceGui.SimilarityProperties` | src/main/java/com/krangpq/toolenhancer/gui/EnhanceGUI.java:628-675 | similarity is symmetric, reflexive on present items, ignores amount, and is false if either item is missing; similar items share material and every enchantment level |
| `EnhanceGui.AsWrittenBlocksUnrelatedSlot` | src/main/java/com/krangpq/toolenhancer/gui/EnhanceGUI.java:307-315 | as written, a click on raw slot 54 (inventory slot 9) with an unrelated item is cancelled when the target is held in slot 0, though the click cannot move it |
| `EnhanceGui.BlocksTargetMoveExactly` | src/main/java/com/krangpq/toolenhancer/gui/EnhanceGUI.java:292-315 | for an unrelated clicked item and cursor, while the origin slot still holds the target, the corrected check cancels exactly the raw slot that shows the origin slot; the check as written cancels exactly raw slot 54 + origin slot, which shows a different player slot |
| `EnhanceGui.ResolvedOnlyWhenAdmissible` | src/main/java/com/krangpq/toolenhancer/gui/EnhanceGUI.java:383-427 | a press makes an attempt only when the session is valid, the guard is free, an enchantment is selected, the target is still at its origin and the minimum is staged; the attempt uses the origin item and all staged stones |
| `EnhanceGui.ResolvedNeverInsufficient` | src/main/java/com/krangpq/toolenhancer/gui/EnhanceGUI.java:409-427 | the GUI's stone check and the attempt's agree, so an attempt from the button never ends in INSUFFICIENT_MATERIALS |
| `EnhanceGui.ConsumeNeverFails` | src/main/java/com/krangpq/toolenhancer/gui/EnhanceGUI.java:419-423 | on a well-formed GUI, consuming the counted stones never reports an error |
| `EnhanceGui.AttemptConsumesAllStones` | src/main/java/com/krangpq/toolenhancer/gui/EnhanceGUI.java:409-427 | once an attempt is made, whatever its outcome, no stone is left in the stone slots |
| `EnhanceGui.OriginSlotOutcome` | src/main/java/com/krangpq/toolenhancer/gui/EnhanceGUI.java:435-449 | SUCCESS puts the item with the enchantment one level higher in the origin slot; DESTROYED empties it; every other outcome leaves the inventory unchanged; other slots never change |
| `EnhanceGui.RejectedPressesChangeNothing` | src/main/java/com/krangpq/toolenhancer/gui/EnhanceGUI.java:383-393 | an expired session or a held guard ends the press with no change to the stone slots or the inventory |
| `EnhanceGui.EnabledButtonMakesAttempt` | src/main/java/com/krangpq/toolenhancer/gui/EnhanceGUI.java:179-190 | a button shown as pressable makes an attempt when pressed, as long as the session is valid and the target is still at its origin |
| `EnhanceGui.EnhanceGui.constructor` | src/main/java/com/krangpq/toolenhancer/gui/EnhanceGUI.java:28-38 | the GUI starts with no sessions and no guarded players |
| `EnhanceGui.EnhanceGui.OpenEnhanceSelectGui` | src/main/java/com/krangpq/toolenhancer/gui/EnhanceGUI.java:43-85 | nothing changes iff the item has nothing to offer; otherwise the player's old session is replaced by a fresh one holding the item and the held slot, the player leaves the guard, and the GUI gets a size that fits every offered enchantment |
| `EnhanceGui.EnhanceGui.OpenEnhanceProcessGui` | src/main/java/com/krangpq/toolenhancer/gui/EnhanceGUI.java:90-105 | with a session, only the selected enchantment changes; without one, nothing changes |
| `EnhanceGui.EnhanceGui.SessionOf` | src/main/java/com/krangpq/toolenhancer/gui/EnhanceGUI.java:281 | a player has a session exactly when one is filed under the player, and under the class invariant it is the player's own |
| `EnhanceGui.EnhanceGui.OnInventoryClose` | src/main/java/com/krangpq/toolenhancer/gui/EnhanceGUI.java:508-526 | the staged stones are handed back exactly when the player is not in the guard |
| `EnhanceGui.EnhanceGui.HandleStoneSlotClick` | src/main/java/com/krangpq/toolenhancer/gui/EnhanceGUI.java:353-376 | a cursor holding anything but air or stones is refused; otherwise the placeholder pane in the slot, if any, is cleared and nothing else changes |
| `EnhanceGui.EnhanceGui.HandleEnhanceButtonClick` | src/main/java/com/krangpq/toolenhancer/gui/EnhanceGUI.java:381-455 | the outcome follows the button protocol; sessions and guard are as before (the guard is released on every path); stone slots and inventory are updated as the outcome says; stones are handed back only on the expired-session close |
| `EnhanceGui.EnhanceGui.TryEnhance` | src/main/java/com/krangpq/toolenhancer/gui/EnhanceGUI.java:395-450 | with the guard held and a valid session, the outcome is the button protocol's for an unguarded press; closing the GUI on the way hands nothing back |
| `EnhanceGui.EnhanceGui.Attempt` | src/main/java/com/krangpq/toolenhancer/gui/EnhanceGUI.java:419-450 | the stones are consumed first: a failed collection is a consume error with nothing changed, otherwise the GUI is drained and the attempt's result is applied to the origin slot |
| `EnhanceGui.EnhanceGui.HandleEnhanceProcessClick` | src/main/java/com/krangpq/toolenhancer/gui/EnhanceGUI.java:280-348 | without a session every click is cancelled; a click in the player's inventory is cancelled by the check as written, comparing `rawSlot - 54` with the held slot; a stone-slot click is refused exactly when the cursor holds something other than air or a stone, and otherwise clears the placeholder pane; GUI slots other than stone slots are locked; the button is pressed only outside the guard, and a press leaves the GUI and inventory its outcome dictates; the exit button hands stones back unless guarded; every click other than a stone-slot click or a press leaves the GUI and inventory unchanged |
| `EnhanceGui.EnhanceGui.CleanupExpiredSessions` | src/main/java/com/krangpq/toolenhancer/gui/EnhanceGUI.java:610-626 | exactly the expired sessions are removed and the valid ones kept; those players leave the guard; the count is the number removed |
| `EnhanceGui.OfferedIffPossible` | src/main/java/com/krangpq/toolenhancer/gui/EnhanceGUI.java:44-49 | the offered map is empty exactly when the item has neither enchantments nor applicable ones |
| `EnhanceGui.SelectGuiSize` | src/main/java/com/krangpq/toolenhancer/gui/EnhanceGUI.java:64 | the size is a multiple of 9 in [9, 54]; it fits n entries with less than a row to spare when n <= 54, and is 54 above that |
| `EnhanceGui.LiveSessions` | src/main/java/com/krangpq/toolenhancer/gui/EnhanceGUI.java:612-621 | the sweep never adds a session |
| `EnhanceGui.SweepPartition` | src/main/java/com/krangpq/toolenhancer/gui/EnhanceGUI.java:610-626 | live and expired players partition the session keys; live sessions are kept as they were; a second sweep at the same time changes nothing |
| `EnhanceGui.SweepMonotoneInTime` | src/main/java/com/krangpq/toolenhancer/gui/EnhanceGUI.java:605-626 | a later sweep keeps no session an earlier one would remove |
| `ToolEnhancerApi.GetEnhanceLevel` | src/main/java/com/krangpq/toolenhancer/api/ToolEnhancerAPI.java:102-129 | 0 when the plugin is unavailable or an argument is missing; otherwise the item's level of the enchantment |
| `ToolEnhancerApi.GetTotalEnhanceLevel` | src/main/java/com/krangpq/toolenhancer/api/ToolEnhancerAPI.java:141-165 | 0 when nothing can be asked; otherwise the loop's total is the sum of all the item's enchantment levels |
| `ToolEnhancerApi.SumLevelsRemove` | src/main/java/com/krangpq/toolenhancer/api/ToolEnhancerAPI.java:151-159 | the level sum does not depend on the order the enchantments are visited in |
| `ToolEnhancerApi.TotalBoundsEachLevel` | src/main/java/com/krangpq/toolenhancer/api/ToolEnhancerAPI.java:141-165 | with non-negative levels the total is at least each single level and is 0 for an item without enchantments |
| `ToolEnhancerApi.IsBeyondVanillaMax` | src/main/java/com/krangpq/toolenhancer/api/ToolEnhancerAPI.java:175-194 | true iff the plugin is available, both arguments are present and the level exceeds the vanilla maximum |
| `ToolEnhancerApi.ApiCanEnhance` | src/main/java/com/krangpq/toolenhancer/api/ToolEnhancerAPI.java:209-225 | true iff the plugin is available and the manager can enhance the item |
| `ToolEnhancerApi.CanEnhanceFurther` | src/main/java/com/krangpq/toolenhancer/api/ToolEnhancerAPI.java:235-266 | a yes implies an available plugin, an enhanceable item and an applicable enchantment |
| `ToolEnhancerApi.CanEnhanceFurtherMatchesAttempt` | src/main/java/com/krangpq/toolenhancer/api/ToolEnhancerAPI.java:235-266 | when it says yes, no attempt ends in MAX_LEVEL; for an enhanceable item and an applicable enchantment, when it says no, every attempt does |
| `ToolEnhancerApi.GetSuccessRate` | src/main/java/com/krangpq/toolenhancer/api/ToolEnhancerAPI.java:283-313 | lies in [0, 0.95]; 0 when nothing can be asked or without stones |
| `ToolEnhancerApi.GetDestroyRate` | src/main/java/com/krangpq/toolenhancer/api/ToolEnhancerAPI.java:326-349 | lies in [0, 0.90]; 0 when nothing can be asked, for a negative count, or below level 3 |
| `ToolEnhancerApi.ReportedRatesAreAttemptRates` | src/main/java/com/krangpq/toolenhancer/api/ToolEnhancerAPI.java:283-349 | the reported rates are exactly the clamped rates an attempt with the same item, enchantment and stones rolls against |
| `ToolEnhancerApi.ReportedRatesDecideTheRoll` | src/main/java/com/krangpq/toolenhancer/api/ToolEnhancerAPI.java:283-349 | for an admitted attempt, the roll destroys iff it is below the reported destroy rate, and succeeds iff it lies in the next success-rate-wide band |
| `ToolEnhancerApi.GetMinRequiredStones` | src/main/java/com/krangpq/toolenhancer/api/ToolEnhancerAPI.java:362-374 | 0 when the plugin is unavailable; otherwise in [1, 15] |
| `ToolEnhancerApi.MinRequiredStonesMatchesAttempt` | src/main/java/com/krangpq/toolenhancer/api/ToolEnhancerAPI.java:362-374 | an attempt with at least the reported minimum never ends in INSUFFICIENT_MATERIALS |
| `ToolEnhancerApi.ApiIsEnhanceStone` | src/main/java/com/krangpq/toolenhancer/api/ToolEnhancerAPI.java:383-399 | true iff the plugin is available and the manager recognises the item as a stone |
| `ToolEnhancerApi.CreateEnhancementStone` | src/main/java/com/krangpq/toolenhancer/api/ToolEnhancerAPI.java:403-425 | a stone exactly when the plugin is available, recognised by the API, of amount 1 |
| `ToolEnhancer.GetDouble` | src/main/java/com/krangpq/toolenhancer/managers/EnhanceStoneManager.java:31 | a missing key reads as the default |
| `ToolEnhancer.GetInt` | src/main/java/com/krangpq/toolenhancer/managers/EnhanceStoneManager.java:32 | a missing key reads as the default |
| `ToolEnhancer.GetBoolean` | src/main/java/com/krangpq/toolenhancer/managers/EnhanceStoneManager.java:30 | a missing key reads as the default |
| `ToolEnhancer.RepairDouble` | src/main/java/com/krangpq/toolenhancer/ToolEnhancer.java:123-147 | afterwards the setting reads in range; an in-range setting leaves the configuration as it was; other keys are untouched |
| `ToolEnhancer.RepairInt` | src/main/java/com/krangpq/toolenhancer/ToolEnhancer.java:150-156 | the same for the integer absolute_max_level read through getInt |
| `ToolEnhancer.ValidatedIsInRange` | src/main/java/com/krangpq/toolenhancer/ToolEnhancer.java:113-171 | after validation, all four ranged settings the stone manager reads are in range |
| `ToolEnhancer.ValidationKeepsOtherKeys` | src/main/java/com/krangpq/toolenhancer/ToolEnhancer.java:113-171 | every key validation does not check, including allow_beyond_max, is left as it was |
| `ToolEnhancer.ValidationKeepsGoodValues` | src/main/java/com/krangpq/toolenhancer/ToolEnhancer.java:122-156 | each ranged setting reads the same afterwards when it was in range, and its default otherwise; allow_beyond_max and the limit switch read the same |
| `ToolEnhancer.ValidationAddsDebugMode` | src/main/java/com/krangpq/toolenhancer/ToolEnhancer.java:158-163 | debug_mode is present afterwards: false when it was missing, unchanged otherwise |
| `ToolEnhancer.ValidationIsIdempotent` | src/main/java/com/krangpq/toolenhancer/ToolEnhancer.java:113-171 | validating a validated configuration changes nothing |
| `ToolEnhancer.PluginConfig.ValidateConfig` | src/main/java/com/krangpq/toolenhancer/ToolEnhancer.java:113-171 | the in-place checks leave the configuration equal to its validated form |
| `ToolEnhancer.Enable` | src/main/java/com/krangpq/toolenhancer/ToolEnhancer.java:36-42 | validation runs before the stone manager loads its settings, so the loaded settings are in range |

## Left out

- Rendering and text: the GUI layout, glass panes, info items, enchanted
  books, the info paper, the button item, lore, chat colours, messages,
  logging and `getKoreanEnchantName`. These are display and localisation
  only. `updateEnhanceInfo` and `updateEnhanceButton` draw items. The
  button's enabled condition is kept, as `EnhanceGui.ButtonEnabled`.
- `handleEnchantSelectionClick` and `onInventoryClick`'s dispatch by window
  title. Decoding the chosen enchantment from the clicked book is display
  glue. The model keeps its effect, `OpenEnhanceProcessGui`.
- Bukkit's event machinery: the click's own effect on the inventory after
  the handler returns, `openInventory` and `closeInventory` (a close is
  modelled as the close handler's hand-back), and scheduler delays
  (`runTaskLater`, the `runTaskTimer` that runs the sweep every five
  minutes).
- Concurrency: the `ConcurrentHashMap` and its key set are a sequential
  map and set here.
- Where returned stones end up: `addItem` into the player's inventory, or a
  drop at the player's feet when it is full. The model yields the stacks
  handed back.
- `EnhanceCommand`, `registerRecipes`, `getVersion`, `setPlugin`,
  `onDisable`, `debug`, the singleton accessors, `saveDefaultConfig` and
  `saveConfig`. These are command, recipe and persistence glue.
- The stone's lore and custom model data, and the hidden lore tag the API
  adds to its stone. The recogniser looks only at material and name.
- IEEE-754 doubles: rates are exact reals, so rounding in
  `0.8 - level * 0.1` and similar terms is not modelled. NaN cannot occur.
- `java.util.Random` and `System.currentTimeMillis()`: the roll and the
  clock are parameters. `updateLastAccess` is never called in the source
  and is not modelled.
- Java's 32-bit `int`: levels, stone counts and `currentLevel + 1` are
  unbounded integers, so overflow at `Integer.MAX_VALUE` is not modelled.
- `ToolEnhancer.GetInt`: does not model Bukkit's saturation of an
  out-of-range number to the `int` range. The value is truncated toward
  zero without bounds.
- `EnhanceGui.EnhanceGui.CleanupExpiredSessions`: the source returns
  nothing and only logs the count. The model returns that count.
- Bukkit's registries and tables: `Enchantment.values()`, `canEnchantItem`,
  `getMaxLevel` and `getMaxDurability` are opaque functions in `Server`.
- `getApplicableEnchantments` and `getAllPossibleEnchantments` catch
  exceptions from those registries. Those functions are total here, so the
  catch blocks are not modelled.
- The `catch` block of `validateConfig`: configuration access cannot fail
  in the model.
- The iteration order of Java's hash maps and sets: the model visits keys
  in an unspecified order and proves results that do not depend on it.

## Findings

| source | as written | input that shows it | evidently intended | confidence | as-written member | corrected member |
|---|---|---|---|---|---|---|
| src/main/java/com/krangpq/toolenhancer/gui/EnhanceGUI.java:307-315 | a click in the player's area is treated as a click on the held slot when `rawSlot - 54` equals the saved held-slot index | target held in hotbar slot 0; click raw slot 54 (inventory storage slot 9) holding an unrelated item, empty cursor: the click is cancelled. A click on raw slot 81 (hotbar slot 0 itself) is not caught by this check | map the raw slot to the player's inventory index (raw 54..80 to 9..35, raw 81..89 to 0..8) before comparing it with the held slot | medium; not executed | `EnhanceGui.AsWrittenBlocksUnrelatedSlot` (used by `EnhanceGui.EnhanceGui.HandleEnhanceProcessClick`) | `EnhanceGui.BlocksTargetMoveExactly` (on `EnhanceGui.BlocksTargetMove`) |
