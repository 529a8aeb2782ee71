/**
 * ToolEnhancerAPI: the static query facade for other plugins.  Every query
 * answers a neutral value (0, 0.0 or false) while the plugin is missing or
 * disabled and for missing arguments, and otherwise delegates to the
 * managers, so its answers agree with what an attempt would do.
 */
module ToolEnhancerApi {
  import opened Wrappers
  import opened Bukkit
  import opened StoneManager
  import opened EnhanceManager

  /** The registered plugin instance: whether it is enabled, its settings and its server. */
  datatype Plugin = Plugin(enabled: bool, settings: Settings, server: Server)

  /** isEnabled: a plugin is registered and enabled. */
  predicate IsEnabled(plugin: Option<Plugin>) {
    plugin.Some? && plugin.value.enabled
  }

  /** getEnhanceLevel: the item's level of the enchantment, 0 when it lacks it or nothing can be asked. */
  function GetEnhanceLevel(plugin: Option<Plugin>, item: Option<ItemStack>, e: Option<Enchantment>): (level: int)
    ensures !IsEnabled(plugin) || item.None? || e.None? ==> level == 0
    ensures IsEnabled(plugin) && item.Some? && e.Some? ==> level == EnchantmentLevel(item.value, e.value)
  {
    if !IsEnabled(plugin) || item.None? || e.None? then 0
    else if e.value !in Enchants(item.value) then 0
    else EnchantmentLevel(item.value, e.value)
  }

  // ------------------------------------------------------------ total level

  /** The sum of the levels in an enchantment map, in no particular order. */
  ghost function SumLevels(m: map<Enchantment, int>): int
    decreases |m|
  {
    if m == map[] then 0
    else
      var e :| e in m;
      m[e] + SumLevels(m - {e})
  }

  /** The sum does not depend on which enchantment is taken first. */
  lemma {:induction false} SumLevelsRemove(m: map<Enchantment, int>, e: Enchantment)
    requires e in m
    ensures SumLevels(m) == m[e] + SumLevels(m - {e})
    decreases |m|
  {
    var first :| first in m && SumLevels(m) == m[first] + SumLevels(m - {first});
    if first != e {
      assert |m - {first}| < |m| by {
        assert (m - {first}).Keys < m.Keys;
      }
      assert |m - {e}| < |m| by {
        assert (m - {e}).Keys < m.Keys;
      }
      SumLevelsRemove(m - {first}, e);
      SumLevelsRemove(m - {e}, first);
      assert m - {first} - {e} == m - {e} - {first};
    }
  }

  lemma {:induction false} SumLevelsNonNegative(m: map<Enchantment, int>, e: Enchantment)
    requires forall k :: k in m ==> m[k] >= 0
    requires e in m
    ensures SumLevels(m) >= m[e]
    decreases |m|
  {
    SumLevelsRemove(m, e);
    SumLevelsAtLeastZero(m - {e});
  }

  lemma {:induction false} SumLevelsAtLeastZero(m: map<Enchantment, int>)
    requires forall k :: k in m ==> m[k] >= 0
    ensures SumLevels(m) >= 0
    decreases |m|
  {
    if m != map[] {
      var e :| e in m;
      SumLevelsRemove(m, e);
      assert (m - {e}).Keys < m.Keys;
      SumLevelsAtLeastZero(m - {e});
    }
  }

  /** The enchantments of `m` still to be visited. */
  function Restrict(m: map<Enchantment, int>, keys: set<Enchantment>): map<Enchantment, int> {
    map k | k in m && k in keys :: m[k]
  }

  /**
   * getTotalEnhanceLevel: the sum of the levels of all the item's
   * enchantments, 0 when nothing can be asked.
   */
  method GetTotalEnhanceLevel(plugin: Option<Plugin>, item: Option<ItemStack>) returns (total: int)
    ensures !IsEnabled(plugin) || item.None? ==> total == 0
    ensures IsEnabled(plugin) && item.Some? ==> total == SumLevels(Enchants(item.value))
  {
    if !IsEnabled(plugin) || item.None? {
      return 0;
    }
    var m := Enchants(item.value);
    total := 0;
    var todo := m.Keys;
    assert Restrict(m, todo) == m;
    while todo != {}
      invariant todo <= m.Keys
      invariant total + SumLevels(Restrict(m, todo)) == SumLevels(m)
      decreases todo
    {
      var e :| e in todo;
      SumLevelsRemove(Restrict(m, todo), e);
      assert Restrict(m, todo) - {e} == Restrict(m, todo - {e});
      total := total + EnchantmentLevel(item.value, e);
      todo := todo - {e};
    }
    assert Restrict(m, {}) == map[];
  }

  /**
   * With non-negative levels, the total is at least any single enhance
   * level and is zero for an item without enchantments.
   */
  lemma TotalBoundsEachLevel(plugin: Option<Plugin>, item: ItemStack, e: Enchantment)
    requires IsEnabled(plugin)
    requires forall k :: k in Enchants(item) ==> Enchants(item)[k] >= 0
    ensures SumLevels(Enchants(item)) >= GetEnhanceLevel(plugin, Some(item), Some(e)) >= 0
    ensures Enchants(item) == map[] ==> SumLevels(Enchants(item)) == 0
  {
    if e in Enchants(item) {
      SumLevelsNonNegative(Enchants(item), e);
    } else {
      SumLevelsAtLeastZero(Enchants(item));
    }
  }

  // ----------------------------------------------------------------- checks

  /** isBeyondVanillaMax: the item's level of the enchantment exceeds its vanilla maximum. */
  function IsBeyondVanillaMax(plugin: Option<Plugin>, item: Option<ItemStack>, e: Option<Enchantment>): (beyond: bool)
    ensures beyond <==> IsEnabled(plugin) && item.Some? && e.Some? &&
                        EnchantmentLevel(item.value, e.value) > plugin.value.server.maxLevel(e.value)
  {
    if !IsEnabled(plugin) || item.None? || e.None? then false
    else EnchantmentLevel(item.value, e.value) > plugin.value.server.maxLevel(e.value)
  }

  /** canEnhance: the manager's answer, false while nothing can be asked. */
  function ApiCanEnhance(plugin: Option<Plugin>, item: Option<ItemStack>): (r: bool)
    ensures r <==> IsEnabled(plugin) && CanEnhance(item)
  {
    if !IsEnabled(plugin) || item.None? then false else CanEnhance(item)
  }

  /**
   * canEnhanceFurther: an enhanceable item, an enchantment that applies to
   * it, and a current level below the absolute maximum.
   */
  function CanEnhanceFurther(plugin: Option<Plugin>, item: Option<ItemStack>, e: Option<Enchantment>): (r: bool)
    ensures r ==> IsEnabled(plugin) && item.Some? && e.Some? && CanEnhance(item)
    ensures r ==> plugin.value.server.canEnchantItem(e.value, item.value)
  {
    if !IsEnabled(plugin) || item.None? || e.None? then false
    else if !ApiCanEnhance(plugin, item) then false
    else if !plugin.value.server.canEnchantItem(e.value, item.value) then false
    else
      var p := plugin.value;
      EnchantmentLevel(item.value, e.value) < AbsoluteMaxLevel(p.settings, p.server.maxLevel(e.value))
  }

  /**
   * What canEnhanceFurther promises holds for the attempt: when it says yes,
   * no attempt ends in MAX_LEVEL; for an enhanceable item the enchantment
   * applies to, when it says no, every attempt does.
   */
  lemma CanEnhanceFurtherMatchesAttempt(plugin: Option<Plugin>, item: ItemStack, e: Enchantment,
                                        stoneCount: int, roll: real)
    requires IsEnabled(plugin)
    ensures var p := plugin.value;
            var r := PerformEnhance(p.server, Some(p.settings), Some(item), Some(e), stoneCount, roll, false);
            && (CanEnhanceFurther(plugin, Some(item), Some(e)) ==> r.kind != MaxLevel)
            && ((!CanEnhanceFurther(plugin, Some(item), Some(e)) && CanEnhance(Some(item)) &&
                 p.server.canEnchantItem(e, item)) ==> r.kind == MaxLevel)
  {
  }

  // ------------------------------------------------------------------ rates

  /**
   * getSuccessRate: the manager's success rate for the item's next level
   * with `stoneCount` stones; 0 for a negative count or when nothing can be
   * asked.
   */
  function GetSuccessRate(plugin: Option<Plugin>, item: Option<ItemStack>, e: Option<Enchantment>, stoneCount: int): (rate: real)
    ensures 0.0 <= rate <= 0.95
    ensures !IsEnabled(plugin) || item.None? || e.None? || stoneCount <= 0 ==> rate == 0.0
  {
    if !IsEnabled(plugin) || item.None? || e.None? || stoneCount < 0 then 0.0
    else
      var p := plugin.value;
      var baseRate := BaseSuccessRate(p.settings, EnchantmentLevel(item.value, e.value), p.server.maxLevel(e.value));
      CalculateSuccessRate(stoneCount, baseRate)
  }

  /**
   * getDestroyRate: the manager's destroy rate for the item's next level with
   * `stoneCount` stones; 0 for a negative count or when nothing can be asked.
   */
  function GetDestroyRate(plugin: Option<Plugin>, item: Option<ItemStack>, e: Option<Enchantment>, stoneCount: int): (rate: real)
    ensures 0.0 <= rate <= 0.90
    ensures !IsEnabled(plugin) || item.None? || e.None? || stoneCount < 0 ==> rate == 0.0
    ensures item.Some? && e.Some? && EnchantmentLevel(item.value, e.value) < 3 ==> rate == 0.0
  {
    if !IsEnabled(plugin) || item.None? || e.None? || stoneCount < 0 then 0.0
    else CalculateDestroyRate(stoneCount, EnchantmentLevel(item.value, e.value) + 1)
  }

  /**
   * The rates the API reports are exactly the thresholds an attempt with the
   * same item, enchantment and stones rolls against.
   */
  lemma ReportedRatesAreAttemptRates(plugin: Option<Plugin>, item: ItemStack, e: Enchantment, stoneCount: int)
    requires IsEnabled(plugin) && stoneCount >= 0
    ensures GetSuccessRate(plugin, Some(item), Some(e), stoneCount) ==
              AttemptSuccessRate(plugin.value.settings, plugin.value.server, item, e, stoneCount)
    ensures GetDestroyRate(plugin, Some(item), Some(e), stoneCount) == AttemptDestroyRate(item, e, stoneCount)
  {
  }

  /**
   * Hence, for an attempt that gets to the roll, the reported rates are the
   * probabilities of its outcomes: the roll lands below the destroy rate
   * exactly when the item is destroyed.
   */
  lemma ReportedRatesDecideTheRoll(plugin: Option<Plugin>, item: ItemStack, e: Enchantment, stoneCount: int, roll: real)
    requires IsEnabled(plugin) && stoneCount >= 0 && 0.0 <= roll < 1.0
    requires Admitted(plugin.value.settings, plugin.value.server, item, e, stoneCount)
    ensures var p := plugin.value;
            var r := PerformEnhance(p.server, Some(p.settings), Some(item), Some(e), stoneCount, roll, false);
            var d := GetDestroyRate(plugin, Some(item), Some(e), stoneCount);
            var s := GetSuccessRate(plugin, Some(item), Some(e), stoneCount);
            && (r.kind == Destroyed <==> roll < d)
            && (r.kind == Success <==> d <= roll < d + s)
  {
    ReportedRatesAreAttemptRates(plugin, item, e, stoneCount);
    RollPartition(plugin.value.server, plugin.value.settings, item, e, stoneCount, roll);
  }

  // ---------------------------------------------------------------- utility

  /** getMinRequiredStones: the manager's minimum, 0 while the plugin is unavailable. */
  function GetMinRequiredStones(plugin: Option<Plugin>, nextLevel: int): (stones: int)
    ensures !IsEnabled(plugin) ==> stones == 0
    ensures IsEnabled(plugin) ==> 1 <= stones <= 15
  {
    if !IsEnabled(plugin) then 0 else MinRequiredStones(nextLevel)
  }

  /**
   * An attempt that the API's stone minimum admits is never refused for
   * lack of stones.
   */
  lemma MinRequiredStonesMatchesAttempt(plugin: Option<Plugin>, item: ItemStack, e: Enchantment, stoneCount: int, roll: real)
    requires IsEnabled(plugin)
    requires stoneCount >= GetMinRequiredStones(plugin, EnchantmentLevel(item, e) + 1)
    ensures var p := plugin.value;
            PerformEnhance(p.server, Some(p.settings), Some(item), Some(e), stoneCount, roll, false).kind != InsufficientMaterials
  {
  }

  /** isEnhanceStone: the stone manager's test, false while nothing can be asked. */
  function ApiIsEnhanceStone(plugin: Option<Plugin>, item: Option<ItemStack>): (r: bool)
    ensures r <==> IsEnabled(plugin) && IsEnhanceStone(item)
  {
    if !IsEnabled(plugin) || item.None? then false else IsEnhanceStone(item)
  }

  /** createEnhancementStone: a single stone, none while the plugin is unavailable. */
  function CreateEnhancementStone(plugin: Option<Plugin>): (stone: Option<ItemStack>)
    ensures stone.Some? <==> IsEnabled(plugin)
    ensures stone.Some? ==> ApiIsEnhanceStone(plugin, stone) && stone.value.amount == 1
  {
    if !IsEnabled(plugin) then None else Some(CreateEnhanceStone(1))
  }
}
