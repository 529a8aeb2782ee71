/**
 * The Bukkit values the plugin works on, as immutable records.  Bukkit's own
 * registries and per-material tables (which enchantments exist, which apply
 * to an item, their vanilla maximum, a material's durability) are not part
 * of this model; they are gathered in `Server` and passed in as parameters.
 */
module Bukkit {
  import opened Wrappers

  /** A Material, by its enum constant name. */
  type Material = string

  const Air: Material := "AIR"
  const NetherStar: Material := "NETHER_STAR"
  /** The placeholder pane that marks an empty stone slot in the enhance GUI. */
  const StoneSlotPane: Material := "LIGHT_GRAY_STAINED_GLASS_PANE"

  /** Material.isAir(): the three air materials. */
  predicate IsAir(m: Material) {
    m == "AIR" || m == "CAVE_AIR" || m == "VOID_AIR"
  }

  /** An Enchantment, by its namespaced key. */
  type Enchantment = string

  /**
   * An ItemStack.  `enchants`, `damage` and `displayName` are the parts of the
   * item's meta the plugin looks at; they mean something only when `hasMeta`.
   */
  datatype ItemStack = ItemStack(
    kind: Material,
    amount: int,
    enchants: map<Enchantment, int>,
    damage: int,
    displayName: Option<string>,
    hasMeta: bool)

  /** ItemStack.getEnchantments(): the meta's enchantments, none without meta. */
  function Enchants(item: ItemStack): map<Enchantment, int> {
    if item.hasMeta then item.enchants else map[]
  }

  /** ItemStack.getEnchantmentLevel(e): 0 when the item lacks e. */
  function EnchantmentLevel(item: ItemStack, e: Enchantment): (level: int)
    ensures e !in Enchants(item) ==> level == 0
  {
    if e in Enchants(item) then Enchants(item)[e] else 0
  }

  /** ItemMeta.hasDisplayName() as reached through hasItemMeta(). */
  predicate HasDisplayName(item: ItemStack) {
    item.hasMeta && item.displayName.Some?
  }

  /**
   * ItemStack.addUnsafeEnchantment(e, level) on a copy: the enchantment is set
   * at exactly `level`, creating a fresh meta if the item had none.
   */
  function WithEnchantment(item: ItemStack, e: Enchantment, level: int): (r: ItemStack)
    ensures r.kind == item.kind && r.amount == item.amount && r.hasMeta
    ensures Enchants(r) == Enchants(item)[e := level]
    ensures item.hasMeta ==> r.damage == item.damage && r.displayName == item.displayName
  {
    if item.hasMeta then item.(enchants := item.enchants[e := level])
    else item.(enchants := map[e := level], damage := 0, displayName := None, hasMeta := true)
  }

  /** The server-side tables the plugin consults. */
  datatype Server = Server(
    enchantments: seq<Enchantment>,                      // Enchantment.values()
    canEnchantItem: (Enchantment, ItemStack) -> bool,    // Enchantment.canEnchantItem
    maxLevel: Enchantment -> int,                        // Enchantment.getMaxLevel
    maxDurability: Material -> int)                      // Material.getMaxDurability

  /**
   * InventoryView's raw slot numbering below a 54-slot top inventory: raw
   * slots 54..80 are the player's storage slots 9..35 and raw slots 81..89
   * the hotbar slots 0..8.
   */
  function PlayerSlotOfRaw(rawSlot: int): (slot: int)
    requires rawSlot >= 54
    ensures 54 <= rawSlot < 81 ==> 9 <= slot < 36
    ensures 81 <= rawSlot < 90 ==> 0 <= slot < 9
  {
    if rawSlot < 81 then rawSlot - 45 else rawSlot - 81
  }

  /** The raw slot under a 54-slot top inventory that shows player slot `slot`. */
  function RawOfPlayerSlot(slot: int): (rawSlot: int)
    requires 0 <= slot < 36
    ensures 54 <= rawSlot < 90
    ensures slot < 9 <==> rawSlot >= 81
  {
    if slot < 9 then 81 + slot else 45 + slot
  }

  /**
   * The two numberings are inverse to each other: every player slot has
   * exactly one raw slot, so distinct raw slots in 54..89 show distinct
   * player slots.
   */
  lemma RawSlotsBijective(slot: int, rawSlot: int)
    requires 0 <= slot < 36 && 54 <= rawSlot < 90
    ensures PlayerSlotOfRaw(RawOfPlayerSlot(slot)) == slot
    ensures RawOfPlayerSlot(PlayerSlotOfRaw(rawSlot)) == rawSlot
    ensures PlayerSlotOfRaw(rawSlot) == slot <==> rawSlot == RawOfPlayerSlot(slot)
  {
  }

  lemma PlayerSlotOfRawInjective(r1: int, r2: int)
    requires 54 <= r1 < 90 && 54 <= r2 < 90
    ensures PlayerSlotOfRaw(r1) == PlayerSlotOfRaw(r2) ==> r1 == r2
  {
    RawSlotsBijective(PlayerSlotOfRaw(r1), r1);
    RawSlotsBijective(PlayerSlotOfRaw(r2), r2);
  }
}
