/**
 * The two-step enhance GUI: per-player sessions, the processing guard, the
 * routing of clicks in the process GUI, the enhance button's protocol, the
 * stone hand-back on close and the sweep of expired sessions.
 */
module EnhanceGui {
  import opened Wrappers
  import opened Numeric
  import opened Bukkit
  import opened StoneManager
  import opened EnhanceManager
  import opened StoneLedger

  /** A player's UUID, by its two 64-bit halves. */
  datatype Uuid = Uuid(mostSigBits: int, leastSigBits: int)

  /** GuiSession.SESSION_TIMEOUT, in milliseconds. */
  const SessionTimeout: int := 300000

  /** Slots of the process GUI with a fixed role. */
  const ButtonSlot: int := 25
  const ExitSlot: int := 53

  /** A GUI session: the target as it was when the GUI opened, and where it was held. */
  datatype GuiSession = GuiSession(
    playerId: Uuid,
    targetItem: ItemStack,
    originalSlot: int,
    selectedEnchantment: Option<Enchantment>,
    lastAccess: int)

  /** GuiSession.isValid() at clock reading `now`. */
  predicate IsValid(session: GuiSession, now: int) {
    now - session.lastAccess < SessionTimeout
  }

  /** Once a session has expired it stays expired as the clock moves on. */
  lemma ExpiryIsPermanent(session: GuiSession, t1: int, t2: int)
    requires t1 <= t2 && !IsValid(session, t1)
    ensures !IsValid(session, t2)
  {
  }

  // --------------------------------------------------------- item identity

  /**
   * isSimilarItem: both present, same material, equal enchantment maps; for
   * a damageable material whose stacks both carry meta, equal damage; for
   * stacks that both carry meta, the same display name or none on both.
   */
  predicate IsSimilarItem(server: Server, a: Option<ItemStack>, b: Option<ItemStack>) {
    && a.Some? && b.Some?
    && a.value.kind == b.value.kind
    && Enchants(a.value) == Enchants(b.value)
    && (server.maxDurability(a.value.kind) > 0 && a.value.hasMeta && b.value.hasMeta ==>
          a.value.damage == b.value.damage)
    && (a.value.hasMeta && b.value.hasMeta ==>
          && HasDisplayName(a.value) == HasDisplayName(b.value)
          && (HasDisplayName(a.value) ==> a.value.displayName == b.value.displayName))
  }

  /**
   * Similarity ignores amount, is symmetric and reflexive on present items,
   * and similar items agree on material and on every enchantment level.
   */
  lemma SimilarityProperties(server: Server, a: Option<ItemStack>, b: Option<ItemStack>)
    ensures IsSimilarItem(server, a, b) <==> IsSimilarItem(server, b, a)
    ensures a.Some? ==> IsSimilarItem(server, a, a)
    ensures a.Some? ==> IsSimilarItem(server, a, Some(a.value.(amount := a.value.amount + 1)))
    ensures a.None? || b.None? ==> !IsSimilarItem(server, a, b)
    ensures IsSimilarItem(server, a, b) ==>
              && a.value.kind == b.value.kind
              && forall e :: EnchantmentLevel(a.value, e) == EnchantmentLevel(b.value, e)
  {
  }

  /**
   * The original item check, as written: a click in the player's inventory is
   * cancelled when the clicked or the cursor item looks like the target, or
   * when `rawSlot - 54` equals the held slot the session remembers and that
   * inventory slot still holds the target.
   */
  predicate BlocksTargetMoveAsWritten(server: Server, session: GuiSession, rawSlot: int,
                                      clicked: Option<ItemStack>, cursor: Option<ItemStack>,
                                      originItem: Option<ItemStack>)
    requires rawSlot >= 54
  {
    || IsSimilarItem(server, clicked, Some(session.targetItem))
    || IsSimilarItem(server, cursor, Some(session.targetItem))
    || (rawSlot - 54 == session.originalSlot && IsSimilarItem(server, originItem, Some(session.targetItem)))
  }

  /**
   * The same check comparing the clicked slot, mapped from the raw slot to
   * the player's inventory, with the held slot.
   */
  predicate BlocksTargetMove(server: Server, session: GuiSession, rawSlot: int,
                             clicked: Option<ItemStack>, cursor: Option<ItemStack>,
                             originItem: Option<ItemStack>)
    requires rawSlot >= 54
  {
    || IsSimilarItem(server, clicked, Some(session.targetItem))
    || IsSimilarItem(server, cursor, Some(session.targetItem))
    || (PlayerSlotOfRaw(rawSlot) == session.originalSlot && IsSimilarItem(server, originItem, Some(session.targetItem)))
  }

  /**
   * As written, with the target still in hotbar slot 0, a click on storage
   * slot 9 (raw slot 54) holding an unrelated item, with nothing on the
   * cursor, is cancelled although it cannot move the target.
   */
  lemma AsWrittenBlocksUnrelatedSlot(server: Server, target: ItemStack, other: ItemStack)
    requires other.kind != target.kind
    ensures var session := GuiSession(Uuid(0, 0), target, 0, None, 0);
            && PlayerSlotOfRaw(54) != session.originalSlot
            && !IsSimilarItem(server, Some(other), Some(target))
            && BlocksTargetMoveAsWritten(server, session, 54, Some(other), None, Some(target))
            && !BlocksTargetMove(server, session, 54, Some(other), None, Some(target))
  {
    SimilarityProperties(server, Some(target), Some(target));
  }

  /**
   * For a click with an unrelated item on it and nothing like the target on
   * the cursor, while the origin slot still holds the target: the corrected
   * check cancels exactly the raw slot that shows the origin slot, whereas
   * the check as written cancels raw slot 54 + origin slot, which shows
   * another player slot.
   */
  lemma BlocksTargetMoveExactly(server: Server, session: GuiSession, rawSlot: int,
                                clicked: Option<ItemStack>, cursor: Option<ItemStack>, originItem: Option<ItemStack>)
    requires 54 <= rawSlot < 90 && 0 <= session.originalSlot < 36
    requires !IsSimilarItem(server, clicked, Some(session.targetItem))
    requires !IsSimilarItem(server, cursor, Some(session.targetItem))
    requires IsSimilarItem(server, originItem, Some(session.targetItem))
    ensures BlocksTargetMove(server, session, rawSlot, clicked, cursor, originItem) <==>
            rawSlot == RawOfPlayerSlot(session.originalSlot)
    ensures BlocksTargetMoveAsWritten(server, session, rawSlot, clicked, cursor, originItem) <==>
            rawSlot == 54 + session.originalSlot
    ensures BlocksTargetMoveAsWritten(server, session, rawSlot, clicked, cursor, originItem) ==>
            PlayerSlotOfRaw(rawSlot) != session.originalSlot
  {
    RawSlotsBijective(session.originalSlot, rawSlot);
  }

  // ------------------------------------------------------------ the button

  /** How a press of the enhance button ends. */
  datatype ButtonOutcome =
    | SessionExpired
    | PleaseWait
    | NoEnchantmentSelected
    | TargetMissing
    | NotEnoughStones(have: int, need: int)
    | ConsumeError
    | Resolved(result: EnhanceResult)

  function Lookup(items: map<int, ItemStack>, slot: int): Option<ItemStack> {
    if slot in items then Some(items[slot]) else None
  }

  /**
   * handleEnhanceButtonClick's decisions in order: session validity, the
   * processing guard, a selected enchantment, the target still at its
   * origin slot, the stone minimum for the next level of the session's
   * target, consumption of every staged stone, and then one attempt on the
   * item found at the origin slot with all those stones.
   */
  function ButtonClick(server: Server, settings: Settings, session: Option<GuiSession>, guarded: bool,
                       slots: Slots, items: map<int, ItemStack>, roll: real, fault: bool, now: int): ButtonOutcome
    requires |slots| == GuiSize
  {
    if session.None? || !IsValid(session.value, now) then SessionExpired
    else if guarded then PleaseWait
    else if session.value.selectedEnchantment.None? then NoEnchantmentSelected
    else
      var target := session.value.targetItem;
      var origin := Lookup(items, session.value.originalSlot);
      if !IsSimilarItem(server, origin, Some(target)) then TargetMissing
      else
        var e := session.value.selectedEnchantment.value;
        var stoneCount := StoneTotal(slots);
        var minRequired := MinRequiredStones(EnchantmentLevel(target, e) + 1);
        if stoneCount < minRequired then NotEnoughStones(stoneCount, minRequired)
        else if Drain(slots, stoneCount).1 > 0 then ConsumeError
        else Resolved(PerformEnhance(server, Some(settings), origin, Some(e), stoneCount, roll, fault))
  }

  /** The stone slots after the press: drained of every staged stone once an attempt is made. */
  function SlotsAfter(slots: Slots, outcome: ButtonOutcome): Slots
    requires |slots| == GuiSize
  {
    if outcome.Resolved? then Drain(slots, StoneTotal(slots)).0 else slots
  }

  /** The player's inventory after the press: only SUCCESS and DESTROYED touch the origin slot. */
  function InventoryAfter(items: map<int, ItemStack>, slot: int, outcome: ButtonOutcome): map<int, ItemStack> {
    if outcome.Resolved? && outcome.result.kind == Success && outcome.result.resultItem.Some? then
      items[slot := outcome.result.resultItem.value]
    else if outcome.Resolved? && outcome.result.kind in {Success, Destroyed} then
      items - {slot}
    else items
  }

  /**
   * An attempt is made only for a valid, unguarded session with a selected
   * enchantment whose target is still at its origin and enough staged stones;
   * it is made with exactly the staged stones, on the item at the origin.
   */
  lemma ResolvedOnlyWhenAdmissible(server: Server, settings: Settings, session: Option<GuiSession>, guarded: bool,
                                   slots: Slots, items: map<int, ItemStack>, roll: real, fault: bool, now: int)
    requires |slots| == GuiSize
    requires ButtonClick(server, settings, session, guarded, slots, items, roll, fault, now).Resolved?
    ensures session.Some? && IsValid(session.value, now) && !guarded
    ensures session.value.selectedEnchantment.Some?
    ensures IsSimilarItem(server, Lookup(items, session.value.originalSlot), Some(session.value.targetItem))
    ensures StoneTotal(slots) >= MinRequiredStones(EnchantmentLevel(session.value.targetItem, session.value.selectedEnchantment.value) + 1)
    ensures ButtonClick(server, settings, session, guarded, slots, items, roll, fault, now).result ==
              PerformEnhance(server, Some(settings), Lookup(items, session.value.originalSlot),
                             session.value.selectedEnchantment, StoneTotal(slots), roll, fault)
  {
  }

  /**
   * The GUI's own stone check and the attempt's agree, because a similar item
   * has the target's enchantment level: an attempt never ends in
   * INSUFFICIENT_MATERIALS.
   */
  lemma ResolvedNeverInsufficient(server: Server, settings: Settings, session: Option<GuiSession>, guarded: bool,
                                  slots: Slots, items: map<int, ItemStack>, roll: real, fault: bool, now: int)
    requires |slots| == GuiSize
    requires ButtonClick(server, settings, session, guarded, slots, items, roll, fault, now).Resolved?
    ensures ButtonClick(server, settings, session, guarded, slots, items, roll, fault, now).result.kind != InsufficientMaterials
  {
    var s := session.value;
    SimilarityProperties(server, Lookup(items, s.originalSlot), Some(s.targetItem));
  }

  /** On a well-formed GUI the consumption step cannot fail. */
  lemma ConsumeNeverFails(server: Server, settings: Settings, session: Option<GuiSession>, guarded: bool,
                          slots: Slots, items: map<int, ItemStack>, roll: real, fault: bool, now: int)
    requires WellFormed(slots)
    ensures ButtonClick(server, settings, session, guarded, slots, items, roll, fault, now) != ConsumeError
  {
    DrainSucceedsIff(slots, StoneTotal(slots));
  }

  /**
   * Every staged stone is gone once an attempt is made, whatever it yields:
   * MAX_LEVEL and FAILED cost the stones too.
   */
  lemma AttemptConsumesAllStones(server: Server, settings: Settings, session: Option<GuiSession>, guarded: bool,
                                 slots: Slots, items: map<int, ItemStack>, roll: real, fault: bool, now: int)
    requires WellFormed(slots)
    requires ButtonClick(server, settings, session, guarded, slots, items, roll, fault, now).Resolved?
    ensures var after := SlotsAfter(slots, ButtonClick(server, settings, session, guarded, slots, items, roll, fault, now));
            WellFormed(after) && StoneTotal(after) == 0
  {
    StonesFromNonNegative(slots, 0);
    DrainRemovesExactly(slots, StoneTotal(slots));
  }

  /**
   * The item at the origin slot is replaced by the enhanced item on SUCCESS,
   * removed on DESTROYED, and left as it was on every other outcome; no other
   * inventory slot changes.
   */
  lemma OriginSlotOutcome(server: Server, settings: Settings, session: Option<GuiSession>, guarded: bool,
                          slots: Slots, items: map<int, ItemStack>, roll: real, fault: bool, now: int)
    requires |slots| == GuiSize && session.Some?
    ensures var outcome := ButtonClick(server, settings, session, guarded, slots, items, roll, fault, now);
            var slot := session.value.originalSlot;
            var after := InventoryAfter(items, slot, outcome);
            && (forall i :: i != slot ==> Lookup(after, i) == Lookup(items, i))
            && (outcome.Resolved? && outcome.result.kind == Success ==>
                  && slot in items && slot in after
                  && after[slot] == WithEnchantment(items[slot], session.value.selectedEnchantment.value,
                                                    EnchantmentLevel(items[slot], session.value.selectedEnchantment.value) + 1))
            && (outcome.Resolved? && outcome.result.kind == Destroyed ==> slot !in after)
            && (!(outcome.Resolved? && outcome.result.kind in {Success, Destroyed}) ==> after == items)
  {
  }

  /** A press with a guard already held, or an expired session, changes nothing and attempts nothing. */
  lemma RejectedPressesChangeNothing(server: Server, settings: Settings, session: Option<GuiSession>, guarded: bool,
                                     slots: Slots, items: map<int, ItemStack>, roll: real, fault: bool, now: int)
    requires |slots| == GuiSize
    requires guarded || session.None? || !IsValid(session.value, now)
    ensures var outcome := ButtonClick(server, settings, session, guarded, slots, items, roll, fault, now);
            && outcome in {SessionExpired, PleaseWait}
            && SlotsAfter(slots, outcome) == slots
            && (session.Some? ==> InventoryAfter(items, session.value.originalSlot, outcome) == items)
  {
  }

  /**
   * updateEnhanceButton: the button shows as pressable when an enchantment
   * is selected, enough stones for its next level are staged and no press of
   * the player is being processed.
   */
  predicate ButtonEnabled(session: GuiSession, slots: Slots, guarded: bool)
    requires |slots| == GuiSize
  {
    && session.selectedEnchantment.Some?
    && StoneTotal(slots) >= MinRequiredStones(EnchantmentLevel(session.targetItem, session.selectedEnchantment.value) + 1)
    && !guarded
  }

  /**
   * A button shown as pressable keeps its promise: while the session is
   * valid and the target is still at its origin, pressing it makes an
   * attempt.
   */
  lemma EnabledButtonMakesAttempt(server: Server, settings: Settings, session: GuiSession, guarded: bool,
                                  slots: Slots, items: map<int, ItemStack>, roll: real, fault: bool, now: int)
    requires WellFormed(slots)
    requires ButtonEnabled(session, slots, guarded) && IsValid(session, now)
    requires IsSimilarItem(server, Lookup(items, session.originalSlot), Some(session.targetItem))
    ensures ButtonClick(server, settings, Some(session), guarded, slots, items, roll, fault, now).Resolved?
  {
    ConsumeNeverFails(server, settings, Some(session), guarded, slots, items, roll, fault, now);
  }

  /** setSlotItem on the player's inventory: placing a stack or emptying the slot. */
  class PlayerInventory {
    var items: map<int, ItemStack>

    constructor (items: map<int, ItemStack>)
      ensures this.items == items
    {
      this.items := items;
    }
  }

  /** EnhanceGUI: the sessions by player and the set of players whose press is being processed. */
  class EnhanceGui {
    const server: Server
    const settings: Settings
    var sessions: map<Uuid, GuiSession>
    var processingPlayers: set<Uuid>

    /** Every session is filed under its own player. */
    predicate Valid()
      reads this
    {
      forall p :: p in sessions ==> sessions[p].playerId == p
    }

    constructor (server: Server, settings: Settings)
      ensures this.server == server && this.settings == settings
      ensures sessions == map[] && processingPlayers == {}
      ensures Valid()
    {
      this.server := server;
      this.settings := settings;
      sessions := map[];
      processingPlayers := {};
    }

    /** sessions.get: the player's session, which under Valid() is the player's own. */
    function SessionOf(player: Uuid): (session: Option<GuiSession>)
      reads this
      ensures session.Some? <==> player in sessions
      ensures Valid() && session.Some? ==> session.value.playerId == player
    {
      if player in sessions then Some(sessions[player]) else None
    }

    /**
     * openEnhanceSelectGUI: nothing happens for an item with nothing to offer;
     * otherwise the player's old session and guard are dropped, a fresh
     * session remembers the target and the held slot, and the selection GUI
     * gets room for every offered enchantment.
     */
    method OpenEnhanceSelectGui(player: Uuid, target: ItemStack, heldSlot: int, now: int) returns (size: Option<int>)
      requires Valid()
      modifies this
      ensures Valid()
      ensures size.None? <==> !HasPossibleEnchantments(server, target)
      ensures size.None? ==> sessions == old(sessions) && processingPlayers == old(processingPlayers)
      ensures size.Some? ==>
                && sessions == old(sessions)[player := GuiSession(player, target, heldSlot, None, now)]
                && processingPlayers == old(processingPlayers) - {player}
                && size.value == SelectGuiSize(|CurrentEnchantments(Some(target)).Keys + ApplicableEnchantments(server, Some(target))|)
    {
      var enchantments := AllPossibleEnchantments(server, Some(target));
      OfferedIffPossible(server, target, enchantments);
      if |enchantments| == 0 {
        return None;
      }
      sessions := sessions[player := GuiSession(player, target, heldSlot, None, now)];
      processingPlayers := processingPlayers - {player};
      size := Some(SelectGuiSize(|enchantments|));
    }

    /**
     * openEnhanceProcessGUI: with a session, records the chosen enchantment;
     * without one, nothing happens.
     */
    method OpenEnhanceProcessGui(player: Uuid, e: Enchantment) returns (found: bool)
      requires Valid()
      modifies this
      ensures Valid()
      ensures found == (player in old(sessions))
      ensures sessions == if found then old(sessions)[player := old(sessions)[player].(selectedEnchantment := Some(e))]
                          else old(sessions)
      ensures processingPlayers == old(processingPlayers)
    {
      if player !in sessions {
        return false;
      }
      sessions := sessions[player := sessions[player].(selectedEnchantment := Some(e))];
      return true;
    }

    /**
     * onInventoryClose for the process GUI: the staged stones go back to the
     * player unless a press of theirs is being processed.
     */
    method OnInventoryClose(player: Uuid, gui: array<Option<ItemStack>>) returns (returned: seq<ItemStack>)
      requires gui.Length == GuiSize
      ensures returned == if player in processingPlayers then [] else StoneStacks(gui[..])
    {
      if player in processingPlayers {
        return [];
      }
      returned := ReturnEnhanceStones(gui);
    }

    /**
     * handleStoneSlotClick: a cursor holding anything but air or stones is
     * refused; otherwise the placeholder pane, if the slot shows it, is
     * cleared so that the stone can be put down.
     */
    method HandleStoneSlotClick(gui: array<Option<ItemStack>>, rawSlot: int, cursor: Option<ItemStack>)
      returns (cancelled: bool)
      requires gui.Length == GuiSize && rawSlot in StoneSlots
      modifies gui
      ensures cancelled == (cursor.Some? && !IsAir(cursor.value.kind) && !IsEnhanceStone(cursor))
      ensures gui[..] == if !cancelled && old(gui[rawSlot]).Some? && old(gui[rawSlot]).value.kind == StoneSlotPane
                         then old(gui[..])[rawSlot := None] else old(gui[..])
    {
      StoneSlotsIncreasing();
      if cursor.Some? && !IsAir(cursor.value.kind) && !IsEnhanceStone(cursor) {
        return true;
      }
      var clicked := gui[rawSlot];
      if clicked.Some? && clicked.value.kind == StoneSlotPane {
        gui[rawSlot] := None;
      }
      return false;
    }

    /**
     * handleEnhanceButtonClick: decides as ButtonClick says, consumes the
     * stones and applies the result to the origin slot; the guard taken for
     * the press is released on every path, and closing the GUI while it is
     * held hands nothing back.
     */
    method HandleEnhanceButtonClick(player: Uuid, gui: array<Option<ItemStack>>, inv: PlayerInventory,
                                    roll: real, fault: bool, now: int)
      returns (outcome: ButtonOutcome, returned: seq<ItemStack>)
      requires Valid() && gui.Length == GuiSize
      modifies this, gui, inv
      ensures Valid()
      ensures sessions == old(sessions) && processingPlayers == old(processingPlayers)
      ensures outcome == ButtonClick(server, settings, old(SessionOf(player)), player in old(processingPlayers),
                                     old(gui[..]), old(inv.items), roll, fault, now)
      ensures gui[..] == SlotsAfter(old(gui[..]), outcome)
      ensures inv.items == if player in old(sessions)
                           then InventoryAfter(old(inv.items), old(sessions)[player].originalSlot, outcome)
                           else old(inv.items)
      ensures returned == if outcome == SessionExpired && player !in old(processingPlayers)
                          then StoneStacks(old(gui[..])) else []
    {
      var session := SessionOf(player);
      if session.None? || !IsValid(session.value, now) {
        returned := OnInventoryClose(player, gui);
        return SessionExpired, returned;
      }
      if player in processingPlayers {
        return PleaseWait, [];
      }
      processingPlayers := processingPlayers + {player};
      outcome, returned := TryEnhance(player, session.value, gui, inv, roll, fault, now);
      processingPlayers := processingPlayers - {player};
    }

    /**
     * The guarded body of handleEnhanceButtonClick, for a valid session: it
     * decides as ButtonClick does for an unguarded press, and since the guard
     * is held, closing the GUI on the way hands nothing back.
     */
    method TryEnhance(player: Uuid, s: GuiSession, gui: array<Option<ItemStack>>, inv: PlayerInventory,
                      roll: real, fault: bool, now: int)
      returns (outcome: ButtonOutcome, returned: seq<ItemStack>)
      requires gui.Length == GuiSize && IsValid(s, now) && player in processingPlayers
      modifies gui, inv
      ensures outcome == ButtonClick(server, settings, Some(s), false, old(gui[..]), old(inv.items), roll, fault, now)
      ensures gui[..] == SlotsAfter(old(gui[..]), outcome)
      ensures inv.items == InventoryAfter(old(inv.items), s.originalSlot, outcome)
      ensures returned == []
    {
      returned := [];
      if s.selectedEnchantment.None? {
        return NoEnchantmentSelected, [];
      }
      var originalItem := Lookup(inv.items, s.originalSlot);
      if !IsSimilarItem(server, originalItem, Some(s.targetItem)) {
        returned := OnInventoryClose(player, gui);
        return TargetMissing, returned;
      }
      var e := s.selectedEnchantment.value;
      var stoneCount := CountEnhanceStones(gui);
      var minRequired := MinRequiredStones(EnchantmentLevel(s.targetItem, e) + 1);
      if stoneCount < minRequired {
        return NotEnoughStones(stoneCount, minRequired), [];
      }
      outcome, returned := Attempt(player, s.originalSlot, originalItem, e, stoneCount, gui, inv, roll, fault);
    }

    /**
     * The attempt itself, once the staged stones are counted and enough: the
     * stones are consumed first, then the item at the origin is enhanced and
     * the result put back in the origin slot.
     */
    method Attempt(player: Uuid, originalSlot: int, originalItem: Option<ItemStack>, e: Enchantment,
                   stoneCount: int, gui: array<Option<ItemStack>>, inv: PlayerInventory, roll: real, fault: bool)
      returns (outcome: ButtonOutcome, returned: seq<ItemStack>)
      requires gui.Length == GuiSize && player in processingPlayers
      modifies gui, inv
      ensures outcome == if Drain(old(gui[..]), stoneCount).1 > 0 then ConsumeError
                         else Resolved(PerformEnhance(server, Some(settings), originalItem, Some(e), stoneCount, roll, fault))
      ensures gui[..] == if outcome.Resolved? then Drain(old(gui[..]), stoneCount).0 else old(gui[..])
      ensures inv.items == InventoryAfter(old(inv.items), originalSlot, outcome)
      ensures returned == []
    {
      var consumed := ConsumeEnhanceStones(gui, stoneCount);
      if !consumed {
        return ConsumeError, [];
      }
      var result := PerformEnhance(server, Some(settings), originalItem, Some(e), stoneCount, roll, fault);
      returned := OnInventoryClose(player, gui);
      if result.kind == Success && result.resultItem.Some? {
        inv.items := inv.items[originalSlot := result.resultItem.value];
      } else if result.kind in {Success, Destroyed} {
        inv.items := inv.items - {originalSlot};
      }
      outcome := Resolved(result);
    }

    /**
     * handleEnhanceProcessClick: routes a click on the process GUI.  Without a
     * session the click is cancelled; in the player's own inventory it is
     * cancelled by the item check as written, which compares `rawSlot - 54`
     * with the held slot (see BlocksTargetMoveExactly); a stone slot goes to the stone
     * handler; the button is pressed unless a press is being processed; the
     * exit button closes the GUI; every other GUI slot is locked.
     */
    method HandleEnhanceProcessClick(player: Uuid, rawSlot: int, clicked: Option<ItemStack>, cursor: Option<ItemStack>,
                                     gui: array<Option<ItemStack>>, inv: PlayerInventory,
                                     roll: real, fault: bool, now: int)
      returns (cancelled: bool, outcome: Option<ButtonOutcome>, returned: seq<ItemStack>)
      requires Valid() && gui.Length == GuiSize
      modifies this, gui, inv
      ensures Valid()
      ensures sessions == old(sessions) && processingPlayers == old(processingPlayers)
      ensures player !in old(sessions) ==>
                cancelled && outcome.None? && returned == [] && gui[..] == old(gui[..]) && inv.items == old(inv.items)
      ensures player in old(sessions) && rawSlot >= GuiSize ==>
                && cancelled == BlocksTargetMoveAsWritten(server, old(sessions)[player], rawSlot, clicked, cursor,
                                                          Lookup(old(inv.items), old(sessions)[player].originalSlot))
                && outcome.None? && returned == [] && gui[..] == old(gui[..]) && inv.items == old(inv.items)
      ensures rawSlot < GuiSize && rawSlot !in StoneSlots ==> cancelled
      ensures outcome.Some? ==> rawSlot == ButtonSlot && player in old(sessions) && player !in old(processingPlayers)
      ensures player in old(sessions) && rawSlot == ButtonSlot && player !in old(processingPlayers) ==>
                outcome == Some(ButtonClick(server, settings, old(SessionOf(player)), false,
                                            old(gui[..]), old(inv.items), roll, fault, now))
      ensures player in old(sessions) && rawSlot == ExitSlot ==>
                returned == (if player in old(processingPlayers) then [] else StoneStacks(old(gui[..])))
      ensures rawSlot != ButtonSlot ==> inv.items == old(inv.items)
      ensures player in old(sessions) && rawSlot in StoneSlots ==>
                && cancelled == (cursor.Some? && !IsAir(cursor.value.kind) && !IsEnhanceStone(cursor))
                && gui[..] == if !cancelled && old(gui[rawSlot]).Some? && old(gui[rawSlot]).value.kind == StoneSlotPane
                              then old(gui[..])[rawSlot := None] else old(gui[..])
      ensures outcome.Some? ==>
                && gui[..] == SlotsAfter(old(gui[..]), outcome.value)
                && inv.items == InventoryAfter(old(inv.items), old(sessions)[player].originalSlot, outcome.value)
      ensures rawSlot !in StoneSlots && outcome.None? ==> gui[..] == old(gui[..]) && inv.items == old(inv.items)
    {
      outcome := None;
      returned := [];
      if player !in sessions {
        return true, outcome, returned;
      }
      var session := sessions[player];
      if rawSlot >= GuiSize {
        cancelled := BlocksTargetMoveAsWritten(server, session, rawSlot, clicked, cursor, Lookup(inv.items, session.originalSlot));
        return;
      }
      if rawSlot in StoneSlots {
        cancelled := HandleStoneSlotClick(gui, rawSlot, cursor);
      } else if rawSlot == ButtonSlot {
        cancelled := true;
        if player in processingPlayers {
          return;
        }
        var o, r := HandleEnhanceButtonClick(player, gui, inv, roll, fault, now);
        outcome, returned := Some(o), r;
      } else if rawSlot == ExitSlot {
        cancelled := true;
        returned := OnInventoryClose(player, gui);
      } else {
        cancelled := true;
      }
    }

    /**
     * cleanupExpiredSessions: removes every session that is no longer valid
     * and drops those players from the processing guard, whatever the guard
     * is protecting; returns how many were removed.
     */
    method CleanupExpiredSessions(now: int) returns (removed: int)
      requires Valid()
      modifies this
      ensures Valid()
      ensures sessions == LiveSessions(old(sessions), now)
      ensures processingPlayers == old(processingPlayers) - ExpiredPlayers(old(sessions), now)
      ensures removed == |ExpiredPlayers(old(sessions), now)|
    {
      ghost var original := sessions;
      ghost var guard := processingPlayers;
      var todo := sessions.Keys;
      removed := 0;
      SweptEmpty(original, now);
      while todo != {}
        invariant todo <= original.Keys
        invariant sessions == Swept(original, todo, now)
        invariant processingPlayers == guard - SweptPlayers(original, todo, now)
        invariant removed == |SweptPlayers(original, todo, now)|
        decreases todo
      {
        var p :| p in todo;
        SweepStep(original, todo, p, now);
        if !IsValid(sessions[p], now) {
          sessions := sessions - {p};
          processingPlayers := processingPlayers - {p};
          removed := removed + 1;
        }
        todo := todo - {p};
      }
      SweptAll(original, now);
    }
  }

  /** The sessions left when the keys in `todo` are still to be visited. */
  ghost function Swept(original: map<Uuid, GuiSession>, todo: set<Uuid>, now: int): map<Uuid, GuiSession> {
    map p | p in original && (p in todo || IsValid(original[p], now)) :: original[p]
  }

  /** The players removed so far when the keys in `todo` are still to be visited. */
  ghost function SweptPlayers(original: map<Uuid, GuiSession>, todo: set<Uuid>, now: int): set<Uuid> {
    ExpiredPlayers(original, now) - todo
  }

  lemma SweptEmpty(original: map<Uuid, GuiSession>, now: int)
    ensures Swept(original, original.Keys, now) == original
    ensures SweptPlayers(original, original.Keys, now) == {}
  {
  }

  lemma SweptAll(original: map<Uuid, GuiSession>, now: int)
    ensures Swept(original, {}, now) == LiveSessions(original, now)
    ensures SweptPlayers(original, {}, now) == ExpiredPlayers(original, now)
  {
  }

  lemma SweepStep(original: map<Uuid, GuiSession>, todo: set<Uuid>, p: Uuid, now: int)
    requires p in todo && todo <= original.Keys
    ensures p in Swept(original, todo, now) && Swept(original, todo, now)[p] == original[p]
    ensures IsValid(original[p], now) ==>
              && Swept(original, todo - {p}, now) == Swept(original, todo, now)
              && SweptPlayers(original, todo - {p}, now) == SweptPlayers(original, todo, now)
    ensures !IsValid(original[p], now) ==>
              && Swept(original, todo - {p}, now) == Swept(original, todo, now) - {p}
              && SweptPlayers(original, todo - {p}, now) == SweptPlayers(original, todo, now) + {p}
              && p !in SweptPlayers(original, todo, now)
  {
  }

  /** The offered enchantments are empty exactly when the item has nothing to offer. */
  lemma OfferedIffPossible(server: Server, target: ItemStack, offered: map<Enchantment, int>)
    requires offered.Keys == CurrentEnchantments(Some(target)).Keys + ApplicableEnchantments(server, Some(target))
    ensures |offered| == |CurrentEnchantments(Some(target)).Keys + ApplicableEnchantments(server, Some(target))|
    ensures |offered| == 0 <==> !HasPossibleEnchantments(server, target)
  {
    assert |offered| == |offered.Keys|;
    if |offered| == 0 {
      assert offered.Keys == {};
      assert CurrentEnchantments(Some(target)).Keys == {};
    } else {
      var e :| e in offered.Keys;
    }
  }

  /** selection GUI size: a multiple of nine rows big enough for n entries, at most 54. */
  function SelectGuiSize(n: int): (size: int)
    requires n >= 1
    ensures size % 9 == 0 && 9 <= size <= 54
    ensures n <= 54 ==> n <= size < n + 9
    ensures n > 54 ==> size == 54
  {
    MinInt(54, ((n - 1) / 9 + 1) * 9)
  }

  /** The sessions that survive a sweep at `now`. */
  function LiveSessions(sessions: map<Uuid, GuiSession>, now: int): (live: map<Uuid, GuiSession>)
    ensures live.Keys <= sessions.Keys
  {
    map p | p in sessions && IsValid(sessions[p], now) :: sessions[p]
  }

  /** The players whose sessions a sweep at `now` removes. */
  function ExpiredPlayers(sessions: map<Uuid, GuiSession>, now: int): set<Uuid> {
    set p | p in sessions && !IsValid(sessions[p], now)
  }

  /**
   * A sweep splits the sessions into the live ones it keeps and the expired
   * ones it removes, and sweeping again at the same time removes nothing.
   */
  lemma SweepPartition(sessions: map<Uuid, GuiSession>, now: int)
    ensures LiveSessions(sessions, now).Keys + ExpiredPlayers(sessions, now) == sessions.Keys
    ensures LiveSessions(sessions, now).Keys * ExpiredPlayers(sessions, now) == {}
    ensures forall p :: p in LiveSessions(sessions, now) ==> LiveSessions(sessions, now)[p] == sessions[p]
    ensures ExpiredPlayers(LiveSessions(sessions, now), now) == {}
    ensures LiveSessions(LiveSessions(sessions, now), now) == LiveSessions(sessions, now)
  {
  }

  /** A later sweep keeps no session an earlier one removed. */
  lemma SweepMonotoneInTime(sessions: map<Uuid, GuiSession>, t1: int, t2: int)
    requires t1 <= t2
    ensures LiveSessions(sessions, t2).Keys <= LiveSessions(sessions, t1).Keys
    ensures ExpiredPlayers(sessions, t1) <= ExpiredPlayers(sessions, t2)
  {
    forall p | p in LiveSessions(sessions, t2)
      ensures p in LiveSessions(sessions, t1)
    {
      assert IsValid(sessions[p], t2);
    }
    forall p | p in ExpiredPlayers(sessions, t1)
      ensures p in ExpiredPlayers(sessions, t2)
    {
      ExpiryIsPermanent(sessions[p], t1, t2);
    }
  }
}
