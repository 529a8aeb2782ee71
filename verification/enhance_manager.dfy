/**
 * EnhanceManager: which items can be enhanced, which enchantments can be
 * offered for an item, the resolution of one enhancement attempt, and the
 * Roman numerals used in the attempt's messages.
 */
module EnhanceManager {
  import opened Wrappers
  import opened Numeric
  import opened Bukkit
  import opened StoneManager

  // ------------------------------------------------------------ enhanceable

  /** `t` occurs in `s` starting at its first character. */
  predicate StartsWith(s: string, t: string) {
    |t| <= |s| && s[..|t|] == t
  }

  /** String.contains. */
  predicate Contains(s: string, t: string)
    decreases |s|
  {
    StartsWith(s, t) || (|s| > 0 && Contains(s[1..], t))
  }

  lemma ContainsWitness(s: string, t: string, i: nat)
    requires i + |t| <= |s| && s[i..i + |t|] == t
    ensures Contains(s, t)
    decreases i
  {
    if i > 0 {
      assert s[1..][i - 1..i - 1 + |t|] == t;
      ContainsWitness(s[1..], t, i - 1);
    }
  }

  /** isEnhantableItem: tools, weapons and armour by material name, plus six named items. */
  predicate IsEnhanceableMaterial(m: Material) {
    || Contains(m, "SWORD") || Contains(m, "AXE") || Contains(m, "PICKAXE")
    || Contains(m, "SHOVEL") || Contains(m, "HOE") || Contains(m, "HELMET")
    || Contains(m, "CHESTPLATE") || Contains(m, "LEGGINGS") || Contains(m, "BOOTS")
    || m == "BOW" || m == "CROSSBOW" || m == "TRIDENT" || m == "FISHING_ROD"
    || m == "SHEARS" || m == "FLINT_AND_STEEL"
  }

  /** canEnhance: never for a missing item or AIR; otherwise by material. */
  function CanEnhance(item: Option<ItemStack>): (r: bool)
    ensures r ==> item.Some? && item.value.kind != Air && IsEnhanceableMaterial(item.value.kind)
    ensures item.Some? && item.value.kind != Air && IsEnhanceableMaterial(item.value.kind) ==> r
  {
    if item.None? || item.value.kind == Air then false
    else IsEnhanceableMaterial(item.value.kind)
  }

  /** Any material whose name has a sword in it can be enhanced. */
  lemma SwordsAreEnhanceable(item: ItemStack, i: nat)
    requires i + 5 <= |item.kind| && item.kind[i..i + 5] == "SWORD"
    ensures CanEnhance(Some(item))
  {
    ContainsWitness(item.kind, "SWORD", i);
    assert |item.kind| >= 5 > |Air|;
  }

  // ----------------------------------------------------- possible enchantments

  /** getApplicableEnchantments: the registered enchantments that apply to the item. */
  function ApplicableEnchantments(server: Server, item: Option<ItemStack>): (applicable: set<Enchantment>)
    ensures forall e :: e in applicable <==> item.Some? && e in server.enchantments && server.canEnchantItem(e, item.value)
    ensures item.None? ==> applicable == {}
  {
    if item.None? then {}
    else set e | e in server.enchantments && server.canEnchantItem(e, item.value)
  }

  /**
   * getApplicableEnchantments' loop over Enchantment.values(), adding each
   * enchantment that can enchant the item.
   */
  method GetApplicableEnchantments(server: Server, item: Option<ItemStack>) returns (applicable: set<Enchantment>)
    ensures applicable == ApplicableEnchantments(server, item)
  {
    if item.None? {
      return {};
    }
    applicable := {};
    var i := 0;
    while i < |server.enchantments|
      invariant 0 <= i <= |server.enchantments|
      invariant forall e :: e in applicable <==> e in server.enchantments[..i] && server.canEnchantItem(e, item.value)
    {
      var e := server.enchantments[i];
      if server.canEnchantItem(e, item.value) {
        applicable := applicable + {e};
      }
      assert server.enchantments[..i + 1] == server.enchantments[..i] + [e];
      i := i + 1;
    }
    assert server.enchantments[..i] == server.enchantments;
  }

  /** The meta's enchantments, which getAllPossibleEnchantments copies first. */
  function CurrentEnchantments(item: Option<ItemStack>): map<Enchantment, int> {
    if item.Some? && item.value.hasMeta then Enchants(item.value) else map[]
  }

  /**
   * getAllPossibleEnchantments: the item's enchantments at their current
   * level, then every applicable enchantment the item lacks at level 0.
   */
  method AllPossibleEnchantments(server: Server, item: Option<ItemStack>) returns (enchantments: map<Enchantment, int>)
    ensures item.None? ==> enchantments == map[]
    ensures enchantments.Keys == CurrentEnchantments(item).Keys + ApplicableEnchantments(server, item)
    ensures forall e :: e in CurrentEnchantments(item) ==> enchantments[e] == CurrentEnchantments(item)[e]
    ensures forall e :: e in enchantments && e !in CurrentEnchantments(item) ==> enchantments[e] == 0
  {
    if item.None? {
      return map[];
    }
    enchantments := map[];
    if item.value.hasMeta {
      enchantments := enchantments + Enchants(item.value);
    }
    var applicable := GetApplicableEnchantments(server, item);
    var todo := applicable;
    while todo != {}
      invariant todo <= applicable
      invariant enchantments.Keys == CurrentEnchantments(item).Keys + (applicable - todo)
      invariant forall e :: e in CurrentEnchantments(item) ==> enchantments[e] == CurrentEnchantments(item)[e]
      invariant forall e :: e in enchantments && e !in CurrentEnchantments(item) ==> enchantments[e] == 0
      decreases todo
    {
      var ench :| ench in todo;
      if ench !in enchantments {
        enchantments := enchantments[ench := 0];
      }
      todo := todo - {ench};
    }
  }

  /** The selection GUI opens only for items with something to offer. */
  predicate HasPossibleEnchantments(server: Server, item: ItemStack) {
    CurrentEnchantments(Some(item)) != map[] || ApplicableEnchantments(server, Some(item)) != {}
  }

  // ----------------------------------------------------------- Roman numerals

  const RomanNumerals: seq<string> := ["", "I", "II", "III", "IV", "V", "VI", "VII", "VIII", "IX", "X",
                                       "XI", "XII", "XIII", "XIV", "XV", "XVI", "XVII", "XVIII", "XIX", "XX"]

  function DigitChar(d: nat): char
    requires d < 10
  {
    "0123456789"[d]
  }

  /** String.valueOf for a non-negative int. */
  function DecimalString(n: nat): (s: string)
    ensures |s| >= 1
    decreases n
  {
    if n < 10 then [DigitChar(n)] else DecimalString(n / 10) + [DigitChar(n % 10)]
  }

  function DigitValue(c: char): int {
    if '0' <= c <= '9' then c as int - '0' as int else 0
  }

  /** Reads a string of decimal digits back as a number. */
  function ParseDecimal(s: string): int
    decreases |s|
  {
    if |s| == 0 then 0 else ParseDecimal(s[..|s| - 1]) * 10 + DigitValue(s[|s| - 1])
  }

  lemma {:induction false} DecimalRoundTrip(n: nat)
    ensures ParseDecimal(DecimalString(n)) == n
    decreases n
  {
    var s := DecimalString(n);
    if n < 10 {
      assert DigitValue(DigitChar(n)) == n;
    } else {
      DecimalRoundTrip(n / 10);
      assert s[..|s| - 1] == DecimalString(n / 10);
      assert DigitValue(DigitChar(n % 10)) == n % 10;
    }
  }

  function SymbolValue(c: char): int {
    if c == 'I' then 1 else if c == 'V' then 5 else if c == 'X' then 10 else 0
  }

  /** The value of a numeral in I, V and X, with the subtractive rule. */
  function RomanValue(s: string): int {
    RomanValueFrom(s, 0)
  }

  function RomanValueFrom(s: string, i: nat): int
    requires i <= |s|
    decreases |s| - i
  {
    if i == |s| then 0
    else if i + 1 < |s| && SymbolValue(s[i]) < SymbolValue(s[i + 1]) then RomanValueFrom(s, i + 1) - SymbolValue(s[i])
    else SymbolValue(s[i]) + RomanValueFrom(s, i + 1)
  }

  /** getRomanNumeral: "0" up to zero, the numeral up to twenty, decimal beyond. */
  function RomanNumeral(number: int): (s: string)
    ensures number <= 0 ==> s == "0"
    ensures 1 <= number <= 20 ==> s == RomanNumerals[number] && s != []
    ensures number > 20 ==> s == DecimalString(number)
  {
    if number <= 0 then "0"
    else if number > 20 || number >= |RomanNumerals| then DecimalString(number)
    else RomanNumerals[number]
  }

  /** Every numeral the table gives back reads as the number it was asked for. */
  lemma RomanNumeralRoundTrip(number: int)
    requires number >= 1
    ensures number <= 20 ==> RomanValue(RomanNumeral(number)) == number
    ensures number > 20 ==> ParseDecimal(RomanNumeral(number)) == number
  {
    if number > 20 {
      DecimalRoundTrip(number);
    } else {
      RomanTable(number);
    }
  }

  lemma RomanTable(n: int)
    requires 1 <= n <= 20
    ensures RomanValue(RomanNumerals[n]) == n
  {
    if n <= 5 {
      RomanTableLow(n);
    } else if n <= 10 {
      RomanTableMid(n);
    } else {
      RomanTableHigh(n);
    }
  }

  lemma RomanTableLow(n: int)
    requires 1 <= n <= 5
    ensures RomanValue(RomanNumerals[n]) == n
  {
    if n == 1 { assert RomanValue("I") == 1; }
    else if n == 2 { assert RomanValue("II") == 2; }
    else if n == 3 { assert RomanValue("III") == 3; }
    else if n == 4 { assert RomanValue("IV") == 4; }
    else { assert RomanValue("V") == 5; }
  }

  lemma RomanTableMid(n: int)
    requires 6 <= n <= 10
    ensures RomanValue(RomanNumerals[n]) == n
  {
    if n == 6 { assert RomanValue("VI") == 6; }
    else if n == 7 { assert RomanValue("VII") == 7; }
    else if n == 8 { assert RomanValue("VIII") == 8; }
    else if n == 9 { assert RomanValue("IX") == 9; }
    else { assert RomanValue("X") == 10; }
  }

  lemma RomanTableHigh(n: int)
    requires 11 <= n <= 20
    ensures RomanValue(RomanNumerals[n]) == n
  {
    if n == 11 { assert RomanValue("XI") == 11; }
    else if n == 12 { assert RomanValue("XII") == 12; }
    else if n == 13 { assert RomanValue("XIII") == 13; }
    else if n == 14 { assert RomanValue("XIV") == 14; }
    else if n == 15 { assert RomanValue("XV") == 15; }
    else if n == 16 { assert RomanValue("XVI") == 16; }
    else if n == 17 { assert RomanValue("XVII") == 17; }
    else if n == 18 { assert RomanValue("XVIII") == 18; }
    else if n == 19 { assert RomanValue("XIX") == 19; }
    else { assert RomanValue("XX") == 20; }
  }

  // --------------------------------------------------------------- resolution

  datatype ResultType = Success | Failed | Destroyed | MaxLevel | InsufficientMaterials

  /** EnhanceResult, without its message text. */
  datatype EnhanceResult = EnhanceResult(kind: ResultType, resultItem: Option<ItemStack>)

  /** The success rate an attempt rolls against, clamped to [0, 1]. */
  function AttemptSuccessRate(s: Settings, server: Server, item: ItemStack, e: Enchantment, stoneCount: int): (rate: real)
    ensures 0.0 <= rate <= 0.95
    ensures stoneCount <= 0 ==> rate == 0.0
  {
    Clamp01(CalculateSuccessRate(stoneCount, BaseSuccessRate(s, EnchantmentLevel(item, e), server.maxLevel(e))))
  }

  /** The destroy rate an attempt rolls against, clamped to [0, 1]. */
  function AttemptDestroyRate(item: ItemStack, e: Enchantment, stoneCount: int): (rate: real)
    ensures 0.0 <= rate <= 0.90
    ensures EnchantmentLevel(item, e) + 1 <= 3 ==> rate == 0.0
  {
    Clamp01(CalculateDestroyRate(stoneCount, EnchantmentLevel(item, e) + 1))
  }

  /** The attempt gets past both limit checks and comes to the roll. */
  predicate Admitted(s: Settings, server: Server, item: ItemStack, e: Enchantment, stoneCount: int) {
    var nextLevel := EnchantmentLevel(item, e) + 1;
    nextLevel <= AbsoluteMaxLevel(s, server.maxLevel(e)) && stoneCount >= MinRequiredStones(nextLevel)
  }

  /**
   * performEnhance: null arguments and internal faults fail without loss;
   * then the maximum level and the stone minimum are checked; then one roll
   * in [0, 1) destroys the item below the destroy rate, raises the chosen
   * enchantment by one in the next success-rate wide band, and fails above.
   * `fault` stands for an exception thrown inside the method's try block.
   */
  function PerformEnhance(server: Server, settings: Option<Settings>, item: Option<ItemStack>,
                          enchantment: Option<Enchantment>, stoneCount: int, roll: real, fault: bool): (r: EnhanceResult)
    ensures item.None? || enchantment.None? || settings.None? ==> r == EnhanceResult(Failed, None)
    ensures r.kind == Destroyed ==> r.resultItem.None?
    ensures r.kind == Success ==>
              item.Some? && enchantment.Some? &&
              r.resultItem == Some(WithEnchantment(item.value, enchantment.value,
                                                   EnchantmentLevel(item.value, enchantment.value) + 1))
    ensures r.kind in {Success, Destroyed} ==>
              !fault && settings.Some? && Admitted(settings.value, server, item.value, enchantment.value, stoneCount)
    ensures r.kind !in {Success, Destroyed} && item.Some? && enchantment.Some? && settings.Some? ==>
              r.resultItem == item
  {
    if item.None? || enchantment.None? || settings.None? then EnhanceResult(Failed, None)
    else if fault then EnhanceResult(Failed, item)
    else
      var s, e := settings.value, enchantment.value;
      var currentLevel := EnchantmentLevel(item.value, e);
      var nextLevel := currentLevel + 1;
      var vanillaMaxLevel := server.maxLevel(e);
      var absoluteMaxLevel := AbsoluteMaxLevel(s, vanillaMaxLevel);
      if nextLevel > absoluteMaxLevel then EnhanceResult(MaxLevel, item)
      else if stoneCount < MinRequiredStones(nextLevel) then EnhanceResult(InsufficientMaterials, item)
      else
        var successRate := AttemptSuccessRate(s, server, item.value, e, stoneCount);
        var destroyRate := AttemptDestroyRate(item.value, e, stoneCount);
        if roll < destroyRate then EnhanceResult(Destroyed, None)
        else if roll < destroyRate + successRate then
          EnhanceResult(Success, Some(WithEnchantment(item.value, e, nextLevel)))
        else EnhanceResult(Failed, item)
  }

  /** An exception inside the attempt fails it and hands the input item back. */
  lemma FaultKeepsItem(server: Server, s: Settings, item: ItemStack, e: Enchantment, stoneCount: int, roll: real)
    ensures PerformEnhance(server, Some(s), Some(item), Some(e), stoneCount, roll, true) == EnhanceResult(Failed, Some(item))
  {
  }

  /**
   * The maximum level is checked first: beyond it the attempt ends in
   * MAX_LEVEL with the item unchanged, whatever the stones and the roll.
   */
  lemma MaxLevelDecidedFirst(server: Server, s: Settings, item: ItemStack, e: Enchantment, stoneCount: int, roll: real)
    requires EnchantmentLevel(item, e) + 1 > AbsoluteMaxLevel(s, server.maxLevel(e))
    ensures PerformEnhance(server, Some(s), Some(item), Some(e), stoneCount, roll, false) == EnhanceResult(MaxLevel, Some(item))
  {
  }

  /**
   * Below the maximum, too few stones end the attempt in
   * INSUFFICIENT_MATERIALS with the item unchanged, whatever the roll.
   */
  lemma TooFewStonesDecidedBeforeRoll(server: Server, s: Settings, item: ItemStack, e: Enchantment, stoneCount: int, roll: real)
    requires EnchantmentLevel(item, e) + 1 <= AbsoluteMaxLevel(s, server.maxLevel(e))
    requires stoneCount < MinRequiredStones(EnchantmentLevel(item, e) + 1)
    ensures PerformEnhance(server, Some(s), Some(item), Some(e), stoneCount, roll, false) == EnhanceResult(InsufficientMaterials, Some(item))
  {
  }

  /** Without stones no attempt ever reaches the roll. */
  lemma NoStonesNoRoll(server: Server, s: Settings, item: ItemStack, e: Enchantment, stoneCount: int, roll: real)
    requires stoneCount <= 0
    ensures PerformEnhance(server, Some(s), Some(item), Some(e), stoneCount, roll, false).kind in {MaxLevel, InsufficientMaterials}
  {
  }

  /**
   * An admitted attempt ends in exactly one of DESTROYED, SUCCESS or FAILED,
   * chosen by where the roll falls: below the destroy rate, in the next
   * success-rate wide band, or above both.
   */
  lemma RollPartition(server: Server, s: Settings, item: ItemStack, e: Enchantment, stoneCount: int, roll: real)
    requires Admitted(s, server, item, e, stoneCount)
    requires 0.0 <= roll < 1.0
    ensures var r := PerformEnhance(server, Some(s), Some(item), Some(e), stoneCount, roll, false);
            var d := AttemptDestroyRate(item, e, stoneCount);
            var p := AttemptSuccessRate(s, server, item, e, stoneCount);
            && r.kind in {Destroyed, Success, Failed}
            && (r.kind == Destroyed <==> roll < d)
            && (r.kind == Success <==> d <= roll < d + p)
            && (r.kind == Failed <==> d + p <= roll)
  {
  }

  /**
   * A success raises the chosen enchantment to exactly one above its current
   * level, which is within the absolute maximum, and leaves every other
   * enchantment of the item as it was.
   */
  lemma SuccessRaisesOnlyTheChosenEnchantment(server: Server, s: Settings, item: ItemStack, e: Enchantment,
                                              stoneCount: int, roll: real, other: Enchantment)
    requires PerformEnhance(server, Some(s), Some(item), Some(e), stoneCount, roll, false).kind == Success
    ensures var result := PerformEnhance(server, Some(s), Some(item), Some(e), stoneCount, roll, false).resultItem.value;
            && EnchantmentLevel(result, e) == EnchantmentLevel(item, e) + 1
            && EnchantmentLevel(result, e) <= AbsoluteMaxLevel(s, server.maxLevel(e))
            && (other != e ==> EnchantmentLevel(result, other) == EnchantmentLevel(item, other))
            && result.kind == item.kind && result.amount == item.amount
  {
  }

  /** Target levels up to 3 are safe: the attempt never destroys the item. */
  lemma SafeLevelsNeverDestroy(server: Server, s: Settings, item: ItemStack, e: Enchantment, stoneCount: int, roll: real)
    requires EnchantmentLevel(item, e) + 1 <= 3
    requires 0.0 <= roll
    ensures PerformEnhance(server, Some(s), Some(item), Some(e), stoneCount, roll, false).kind != Destroyed
  {
  }

  /** The default configuration of the plugin. */
  const DefaultSettings: Settings := Settings(true, 2.0, 30, 1.0, 0.01, false)

  /**
   * A worked example: level 5 of an enchantment whose
   * vanilla maximum is 5, ten stones, default settings.  Two stones are
   * needed, the success rate is 65% and the destroy rate is zero, so the
   * attempt never destroys the item.
   */
  lemma WorkedExampleNeverDestroys(server: Server, item: ItemStack, e: Enchantment, roll: real)
    requires server.maxLevel(e) == 5 && EnchantmentLevel(item, e) == 5
    requires 0.0 <= roll < 1.0
    ensures MinRequiredStones(6) == 2
    ensures AttemptSuccessRate(DefaultSettings, server, item, e, 10) == 0.65
    ensures AttemptDestroyRate(item, e, 10) == 0.0
    ensures PerformEnhance(server, Some(DefaultSettings), Some(item), Some(e), 10, roll, false).kind in {Success, Failed}
  {
    assert BaseSuccessRate(DefaultSettings, 5, 5) == 0.25;
  }

  /**
   * The two rates are not complementary: with the default settings, level 14
   * of an enchantment whose vanilla maximum is 5 and twenty stones, the
   * success rate is 46% and the destroy rate 60%.  The roll then succeeds on
   * only 40% of [0, 1), less than the success rate computed for the attempt.
   */
  lemma RatesCanExceedOne(server: Server, item: ItemStack, e: Enchantment)
    requires server.maxLevel(e) == 5 && EnchantmentLevel(item, e) == 14
    ensures AttemptSuccessRate(DefaultSettings, server, item, e, 20) == 0.46
    ensures AttemptDestroyRate(item, e, 20) == 0.60
    ensures AttemptSuccessRate(DefaultSettings, server, item, e, 20) + AttemptDestroyRate(item, e, 20) > 1.0
  {
    assert BaseSuccessRate(DefaultSettings, 14, 5) == 0.06;
  }
}
