/**
 * EnhanceStoneManager: the enhancement stone item and the rate and limit
 * tables.  Every member is a pure function of its arguments and of the
 * settings read from the configuration when the manager is constructed.
 */
module StoneManager {
  import opened Wrappers
  import opened Numeric
  import opened Bukkit

  /**
   * The configuration values the manager works from.  `limitEnabled` is
   * read from the same configuration when the absolute maximum is asked for.
   */
  datatype Settings = Settings(
    allowBeyondMax: bool,
    maxLevelMultiplier: real,
    absoluteMaxLevel: int,
    severityScale: real,
    globalMinimumRate: real,
    limitEnabled: bool)

  /** The ranges the configuration validator establishes. */
  predicate InRange(s: Settings) {
    && 0.0 <= s.severityScale <= 5.0
    && 0.0 <= s.globalMinimumRate <= 1.0
    && 1.0 <= s.maxLevelMultiplier <= 10.0
    && 1 <= s.absoluteMaxLevel <= 100
  }

  /** ChatColor.LIGHT_PURPLE followed by the stone's Korean name. */
  const StoneName: string := "§d강화석"

  // ---------------------------------------------------------------- the stone

  /** A stone is a NETHER_STAR whose meta carries exactly the stone name. */
  predicate IsEnhanceStone(item: Option<ItemStack>) {
    && item.Some?
    && item.value.kind == NetherStar
    && HasDisplayName(item.value)
    && item.value.displayName.value == StoneName
  }

  /** createEnhanceStone(amount): `amount` stones, recognised by IsEnhanceStone. */
  function CreateEnhanceStone(amount: int): (stone: ItemStack)
    ensures IsEnhanceStone(Some(stone))
    ensures stone.amount == amount && Enchants(stone) == map[]
  {
    ItemStack(NetherStar, amount, map[], 0, Some(StoneName), true)
  }

  lemma StoneRecognition(item: ItemStack)
    ensures item.kind != NetherStar ==> !IsEnhanceStone(Some(item))
    ensures !item.hasMeta ==> !IsEnhanceStone(Some(item))
    ensures item.displayName != Some(StoneName) ==> !IsEnhanceStone(Some(item))
    ensures !IsEnhanceStone(None)
    ensures IsEnhanceStone(Some(item)) ==> item == CreateEnhanceStone(item.amount).(enchants := item.enchants, damage := item.damage)
  {
  }

  // ------------------------------------------------------------ success rate

  /** The stone bonus: 5% per stone, at most 40%. */
  function StoneBonus(stoneCount: int): (bonus: real)
    ensures bonus <= 0.40
    ensures stoneCount >= 0 ==> bonus >= 0.0
  {
    Min(stoneCount as real * 0.05, 0.40)
  }

  /**
   * calculateSuccessRate: nothing without stones; otherwise the clamped base
   * rate plus the stone bonus, capped at 95%.
   */
  function CalculateSuccessRate(stoneCount: int, baseRate: real): (rate: real)
    ensures 0.0 <= rate <= 0.95
    ensures stoneCount <= 0 ==> rate == 0.0
    ensures stoneCount > 0 ==> rate <= Clamp01(baseRate) + 0.40
    ensures stoneCount > 0 ==> rate >= Min(Clamp01(baseRate) + 0.05, 0.95)
  {
    if stoneCount <= 0 then 0.0
    else
      var safeBaseRate := Max(0.0, Min(1.0, baseRate));
      var finalRate := Min(safeBaseRate + StoneBonus(stoneCount), 0.95);
      Max(0.0, finalRate)
  }

  /** More stones never lower the success rate. */
  lemma SuccessRateMonotoneInStones(n1: int, n2: int, baseRate: real)
    requires n1 <= n2
    ensures CalculateSuccessRate(n1, baseRate) <= CalculateSuccessRate(n2, baseRate)
  {
  }

  /** A higher base rate never lowers the success rate. */
  lemma SuccessRateMonotoneInBase(n: int, b1: real, b2: real)
    requires b1 <= b2
    ensures CalculateSuccessRate(n, b1) <= CalculateSuccessRate(n, b2)
  {
  }

  // ------------------------------------------------------------ destroy rate

  /** The destroy rate before stones, by band of the target level. */
  function BaseDestroyRate(level: int): (rate: real)
    ensures 0.0 <= rate <= 0.90
    ensures level <= 3 ==> rate == 0.0
    ensures level > 3 ==> rate > 0.0
  {
    if level <= 3 then 0.0
    else if level <= 5 then (level - 3) as real * 0.05
    else if level <= 7 then 0.10 + (level - 5) as real * 0.10
    else if level <= 10 then 0.30 + (level - 7) as real * 0.15
    else Min(0.90, 0.75 + (level - 10) as real * 0.05)
  }

  /** The band curve is continuous in the sense that it never steps down. */
  lemma BaseDestroyRateMonotone(l1: int, l2: int)
    requires l1 <= l2
    ensures BaseDestroyRate(l1) <= BaseDestroyRate(l2)
  {
  }

  /** The stone reduction of the destroy rate: 2% per stone, at most 30%. */
  function StoneReduction(stoneCount: int): (reduction: real)
    ensures reduction <= 0.30
    ensures stoneCount >= 0 ==> reduction >= 0.0
  {
    Min(stoneCount as real * 0.02, 0.30)
  }

  /**
   * calculateDestroyRate: zero up to level 3; otherwise the band rate less
   * the stone reduction, kept within [0, 0.90].
   */
  function CalculateDestroyRate(stoneCount: int, level: int): (rate: real)
    ensures 0.0 <= rate <= 0.90
    ensures level <= 3 ==> rate == 0.0
    ensures stoneCount >= 0 ==> rate <= BaseDestroyRate(level)
    ensures level > 3 ==> rate >= BaseDestroyRate(level) - 0.30
  {
    if level <= 3 then 0.0
    else
      var finalDestroyRate := Max(0.0, BaseDestroyRate(level) - StoneReduction(stoneCount));
      Min(finalDestroyRate, 0.90)
  }

  /** More stones never raise the destroy rate. */
  lemma DestroyRateMonotoneInStones(n1: int, n2: int, level: int)
    requires n1 <= n2
    ensures CalculateDestroyRate(n2, level) <= CalculateDestroyRate(n1, level)
  {
  }

  /** A higher target level never lowers the destroy rate. */
  lemma DestroyRateMonotoneInLevel(n: int, l1: int, l2: int)
    requires l1 <= l2
    ensures CalculateDestroyRate(n, l1) <= CalculateDestroyRate(n, l2)
  {
    BaseDestroyRateMonotone(l1, l2);
  }

  // ---------------------------------------------------------- base success

  /** The reduction beyond the vanilla cap, by how many levels beyond it. */
  function OverCapReduction(overLevel: int): (reduction: real)
    ensures overLevel >= 0 ==> 0.0 <= reduction <= 0.24
  {
    if overLevel <= 3 then overLevel as real * 0.05
    else if overLevel <= 6 then 0.15 + (overLevel - 3) as real * 0.03
    else 0.24
  }

  lemma OverCapReductionMonotone(o1: int, o2: int)
    requires o1 <= o2
    ensures OverCapReduction(o1) <= OverCapReduction(o2)
  {
  }

  /**
   * getBaseSuccessRate: 80% for a missing enchantment, a falling curve with a
   * 30% floor below the vanilla cap, and beyond it 30% less the scaled
   * reduction with the configured global minimum as floor.
   */
  function BaseSuccessRate(s: Settings, currentLevel: int, maxLevel: int): (rate: real)
    ensures currentLevel < 0 ==> rate == 0.8
  {
    if currentLevel < 0 then 0.8
    else if currentLevel < maxLevel then Max(0.3, 0.8 - currentLevel as real * 0.1)
    else
      var overLevel := currentLevel - maxLevel + 1;
      var scaledReduction := OverCapReduction(overLevel) * s.severityScale;
      Max(s.globalMinimumRate, 0.3 - scaledReduction)
  }

  /**
   * The base rate's bands: 30% to 80% below the cap, the global minimum as
   * floor beyond it, and within [0, 1] for validated settings.
   */
  lemma BaseSuccessRateBounds(s: Settings, currentLevel: int, maxLevel: int)
    ensures var rate := BaseSuccessRate(s, currentLevel, maxLevel);
      && (0 <= currentLevel < maxLevel ==> 0.3 <= rate <= 0.8)
      && (0 <= currentLevel && maxLevel <= currentLevel ==> rate >= s.globalMinimumRate)
      && (0 <= currentLevel && maxLevel <= currentLevel && s.severityScale >= 0.0 ==>
            rate <= Max(s.globalMinimumRate, 0.3))
      && (InRange(s) ==> 0.0 <= rate <= 1.0)
  {
    if 0 <= currentLevel && maxLevel <= currentLevel && s.severityScale >= 0.0 {
      MulNonNegative(OverCapReduction(currentLevel - maxLevel + 1), s.severityScale);
    }
  }

  lemma MulNonNegative(a: real, b: real)
    requires a >= 0.0 && b >= 0.0
    ensures a * b >= 0.0
  {
  }

  lemma MulMonotone(a1: real, a2: real, b: real)
    requires a1 <= a2 && b >= 0.0
    ensures a1 * b <= a2 * b
  {
    MulNonNegative(a2 - a1, b);
  }

  /**
   * At or above the vanilla cap the base rate never rises with the level,
   * as long as the severity scale is not negative.
   */
  lemma BaseSuccessRateMonotoneBeyondCap(s: Settings, l1: int, l2: int, maxLevel: int)
    requires 0 <= l1 <= l2 && maxLevel <= l1
    requires s.severityScale >= 0.0
    ensures BaseSuccessRate(s, l2, maxLevel) <= BaseSuccessRate(s, l1, maxLevel)
  {
    BeyondCapRate(s, l1, maxLevel);
    BeyondCapRate(s, l2, maxLevel);
    ScaledFloorMonotone(s, l1 - maxLevel + 1, l2 - maxLevel + 1);
  }

  lemma ScaledFloorMonotone(s: Settings, o1: int, o2: int)
    requires o1 <= o2 && s.severityScale >= 0.0
    ensures Max(s.globalMinimumRate, 0.3 - OverCapReduction(o2) * s.severityScale)
            <= Max(s.globalMinimumRate, 0.3 - OverCapReduction(o1) * s.severityScale)
  {
    var r1, r2 := OverCapReduction(o1), OverCapReduction(o2);
    OverCapReductionMonotone(o1, o2);
    MulMonotone(r1, r2, s.severityScale);
    MaxMonotone(s.globalMinimumRate, 0.3 - r2 * s.severityScale, 0.3 - r1 * s.severityScale);
  }

  lemma BeyondCapRate(s: Settings, l: int, maxLevel: int)
    requires 0 <= l && maxLevel <= l
    ensures BaseSuccessRate(s, l, maxLevel) == Max(s.globalMinimumRate, 0.3 - OverCapReduction(l - maxLevel + 1) * s.severityScale)
  {
  }

  lemma MaxMonotone(g: real, x1: real, x2: real)
    requires x1 <= x2
    ensures Max(g, x1) <= Max(g, x2)
  {
  }

  /**
   * Over the whole level range the base rate never rises, provided the
   * global minimum does not lift the beyond-cap rates above the 30% floor
   * of the below-cap curve.
   */
  lemma BaseSuccessRateMonotone(s: Settings, l1: int, l2: int, maxLevel: int)
    requires l1 <= l2
    requires s.severityScale >= 0.0 && s.globalMinimumRate <= 0.3
    ensures BaseSuccessRate(s, l2, maxLevel) <= BaseSuccessRate(s, l1, maxLevel)
  {
    if 0 <= l1 && maxLevel <= l1 {
      BaseSuccessRateMonotoneBeyondCap(s, l1, l2, maxLevel);
    } else {
      BaseSuccessRateBounds(s, l1, maxLevel);
      BaseSuccessRateBounds(s, l2, maxLevel);
    }
  }

  // ------------------------------------------------------------------ limits

  lemma TruncAtLeast(x: real, n: int)
    requires n >= 0 && x >= n as real
    ensures Trunc(x) >= n
  {
  }

  /**
   * getAbsoluteMaxLevel: the vanilla cap when going beyond it is disallowed;
   * otherwise the configured absolute maximum, further limited by the
   * truncated multiple of the vanilla cap when the limit is enabled.
   */
  function AbsoluteMaxLevel(s: Settings, vanillaMaxLevel: int): (level: int)
    ensures !s.allowBeyondMax ==> level == vanillaMaxLevel
    ensures s.allowBeyondMax ==> level <= s.absoluteMaxLevel
    ensures s.allowBeyondMax && !s.limitEnabled ==> level == s.absoluteMaxLevel
    ensures s.allowBeyondMax && s.limitEnabled ==> level <= Trunc(vanillaMaxLevel as real * s.maxLevelMultiplier)
    ensures s.allowBeyondMax && s.limitEnabled ==>
              level == s.absoluteMaxLevel || level == Trunc(vanillaMaxLevel as real * s.maxLevelMultiplier)
    ensures s.allowBeyondMax && s.limitEnabled && s.maxLevelMultiplier >= 1.0 && vanillaMaxLevel >= 0 ==>
              level >= MinInt(vanillaMaxLevel, s.absoluteMaxLevel)
  {
    if !s.allowBeyondMax then vanillaMaxLevel
    else if s.limitEnabled then
      var calculatedMax := Trunc(vanillaMaxLevel as real * s.maxLevelMultiplier);
      assert vanillaMaxLevel >= 0 && s.maxLevelMultiplier >= 1.0 ==> calculatedMax >= vanillaMaxLevel by {
        if vanillaMaxLevel >= 0 && s.maxLevelMultiplier >= 1.0 {
          MulMonotone(1.0, s.maxLevelMultiplier, vanillaMaxLevel as real);
          TruncAtLeast(vanillaMaxLevel as real * s.maxLevelMultiplier, vanillaMaxLevel);
        }
      }
      MinInt(calculatedMax, s.absoluteMaxLevel)
    else s.absoluteMaxLevel
  }

  /**
   * getMinRequiredStones: a step function of the target level, one stone up
   * to level 3 and never more than fifteen.
   */
  function MinRequiredStones(level: int): (stones: int)
    ensures 1 <= stones <= 15
    ensures level <= 3 ==> stones == 1
    ensures level > 15 ==> stones == MinInt(15, 8 + (level - 15))
  {
    if level <= 0 then 1
    else if level <= 3 then 1
    else if level <= 6 then 2
    else if level <= 9 then 3
    else if level <= 12 then 5
    else if level <= 15 then 8
    else MinInt(15, 8 + (level - 15))
  }

  /** A higher target level never needs fewer stones. */
  lemma MinRequiredStonesMonotone(l1: int, l2: int)
    requires l1 <= l2
    ensures MinRequiredStones(l1) <= MinRequiredStones(l2)
  {
  }
}
