/**
 The pure decision rules: venue fees, the Z score, its triggers, the deterministic rules engine (DRE), the fee
 floor, and the recording filter's judgement of a listing. Floats are reals, and the square root is a parameter.
 */
module Scoring {
  import opened Texts
  import opened Ticks

  const BASIS_POINTS := 10_000
  const STICKER_VALUE_MIN_CENTS := 10_000

  // ---- Fees ----

  /** A seller fee that applies from a resale price on. */
  datatype Tier = Tier(minPriceCents: nat, feeBps: nat)

  function FeeTiers(venue: Venue): seq<Tier> {
    match venue
    case Skinport => [Tier(0, 800), Tier(100_000, 600)]
    case Waxpeer => [Tier(0, 600)]
    case DMarket => [Tier(0, 1000)]
  }

  /** The fee of the highest tier the price reaches; None when it reaches none. */
  function TierFee(tiers: seq<Tier>, priceCents: int): Option<Tier> {
    if tiers == [] then None
    else
      var best, last := TierFee(tiers[..|tiers| - 1], priceCents), tiers[|tiers| - 1];
      if priceCents >= last.minPriceCents && (best.None? || best.value.minPriceCents < last.minPriceCents) then Some(last) else best
  }

  lemma {:induction false} TierIsHighest(tiers: seq<Tier>, priceCents: int)
    ensures var found := TierFee(tiers, priceCents);
      && (found.Some? <==> exists tier :: tier in tiers && tier.minPriceCents <= priceCents)
      && (found.Some? ==>
            && found.value in tiers && found.value.minPriceCents <= priceCents
            && forall tier :: tier in tiers && tier.minPriceCents <= priceCents ==> tier.minPriceCents <= found.value.minPriceCents)
  {
    if tiers != [] {
      var front, last := tiers[..|tiers| - 1], tiers[|tiers| - 1];
      TierIsHighest(front, priceCents);
      assert tiers == front + [last];
    }
  }

  function SellerFeeBps(venue: Venue, resalePriceCents: int): nat {
    var tier := TierFee(FeeTiers(venue), resalePriceCents);
    if tier.Some? then tier.value.feeBps else 0
  }

  /** The rates as published: Skinport's falls at 1000.00, the others are one rate. */
  lemma SellerFeesAre(venue: Venue, resalePriceCents: int)
    requires resalePriceCents >= 0
    ensures SellerFeeBps(venue, resalePriceCents)
      == match venue
         case Skinport => (if resalePriceCents < 100_000 then 800 else 600)
         case Waxpeer => 600
         case DMarket => 1000
  {
    TierIsHighest(FeeTiers(venue), resalePriceCents);
    hide TierFee;
    assert Tier(0, 800) in FeeTiers(Skinport) && Tier(100_000, 600) in FeeTiers(Skinport);
    assert Tier(0, 600) in FeeTiers(Waxpeer) && Tier(0, 1000) in FeeTiers(DMarket);
  }

  function BuyerFeeBps(venue: Venue): nat {
    0
  }

  function FeeRoundedUp(priceCents: int, feeBps: nat): int {
    -(-priceCents * feeBps / BASIS_POINTS)
  }

  /** The fee is the least whole number of cents that covers the rate. */
  lemma FeeIsLeastCover(priceCents: nat, feeBps: nat)
    ensures var fee := FeeRoundedUp(priceCents, feeBps);
      && (fee - 1) * BASIS_POINTS < priceCents * feeBps <= fee * BASIS_POINTS
      && fee >= 0
      && (feeBps < BASIS_POINTS ==> fee <= priceCents)
  {
    var due := priceCents * feeBps;
    assert (0 - priceCents) * feeBps == -due;
    var fee := FeeRoundedUp(priceCents, feeBps);
    assert due >= 0;
    if feeBps < BASIS_POINTS {
      assert priceCents * (BASIS_POINTS - feeBps) >= 0;
      assert due <= priceCents * BASIS_POINTS;
    }
  }

  /** `seller_fee_cents`; None where it raises ValueError. */
  function SellerFee(resalePriceCents: int, venue: Venue, itemFeeBps: Option<int>): Option<int> {
    if resalePriceCents < 0 then None
    else if itemFeeBps.None? then Some(FeeRoundedUp(resalePriceCents, SellerFeeBps(venue, resalePriceCents)))
    else if 0 <= itemFeeBps.value < BASIS_POINTS then Some(FeeRoundedUp(resalePriceCents, itemFeeBps.value))
    else None
  }

  function BuyerFee(buyPriceCents: int, venue: Venue): Option<int> {
    if buyPriceCents < 0 then None else Some(FeeRoundedUp(buyPriceCents, BuyerFeeBps(venue)))
  }

  /** `net_resale_margin_cents`; None where it raises ValueError. */
  function NetMargin(buyPriceCents: int, resalePriceCents: int, buyVenue: Venue, sellVenue: Venue, itemFeeBps: Option<int>): Option<int>
  {
    var sellerFee := SellerFee(resalePriceCents, sellVenue, itemFeeBps);
    var buyerFee := BuyerFee(buyPriceCents, buyVenue);
    if sellerFee.None? || buyerFee.None? then None
    else Some(resalePriceCents - sellerFee.value - (buyPriceCents + buyerFee.value))
  }

  /** Fees never add to a margin, and a resale always brings something back. */
  lemma NetMarginBounds(buyPriceCents: nat, resalePriceCents: nat, buyVenue: Venue, sellVenue: Venue, itemFeeBps: Option<int>)
    requires itemFeeBps.Some? ==> 0 <= itemFeeBps.value < BASIS_POINTS
    ensures var net := NetMargin(buyPriceCents, resalePriceCents, buyVenue, sellVenue, itemFeeBps);
      net.Some? && 0 - buyPriceCents <= net.value <= resalePriceCents - buyPriceCents
  {
    SellerFeesAre(sellVenue, resalePriceCents);
    hide TierFee;
    hide SellerFeeBps;
    FeeIsLeastCover(resalePriceCents, SellerFeeBps(sellVenue, resalePriceCents));
    FeeIsLeastCover(buyPriceCents, BuyerFeeBps(buyVenue));
    if itemFeeBps.Some? {
      FeeIsLeastCover(resalePriceCents, itemFeeBps.value);
    }
  }

  /** The rate a resale is charged: the item's own where it is given, else the venue's for that price. */
  function RateOf(resalePriceCents: int, sellVenue: Venue, itemFeeBps: Option<int>): int {
    itemFeeBps.GetOr(SellerFeeBps(sellVenue, resalePriceCents))
  }

  /**
   A margin is what the resale price leaves after the price paid and the least whole number of cents that covers the rate;
   there is none exactly for a negative price or an item rate out of range.
   */
  lemma NetMarginIs(buyPriceCents: int, resalePriceCents: int, buyVenue: Venue, sellVenue: Venue, itemFeeBps: Option<int>)
    ensures var net := NetMargin(buyPriceCents, resalePriceCents, buyVenue, sellVenue, itemFeeBps);
      && (net.None? <==> buyPriceCents < 0 || resalePriceCents < 0 || (itemFeeBps.Some? && !(0 <= itemFeeBps.value < BASIS_POINTS)))
      && (net.Some? ==>
            var fee := resalePriceCents - buyPriceCents - net.value;
            (fee - 1) * BASIS_POINTS < resalePriceCents * RateOf(resalePriceCents, sellVenue, itemFeeBps) <= fee * BASIS_POINTS)
  {
    if buyPriceCents >= 0 && resalePriceCents >= 0 {
      FeeIsLeastCover(resalePriceCents, SellerFeeBps(sellVenue, resalePriceCents));
      FeeIsLeastCover(buyPriceCents, BuyerFeeBps(buyVenue));
      if itemFeeBps.Some? && itemFeeBps.value >= 0 {
        FeeIsLeastCover(resalePriceCents, itemFeeBps.value);
      }
    }
  }

  /** A margin reaches a bound exactly when the price difference less the bound covers the fee. */
  lemma NetMarginReaches(buyPriceCents: int, resalePriceCents: int, buyVenue: Venue, sellVenue: Venue, itemFeeBps: Option<int>, bound: int)
    requires NetMargin(buyPriceCents, resalePriceCents, buyVenue, sellVenue, itemFeeBps).Some?
    ensures NetMargin(buyPriceCents, resalePriceCents, buyVenue, sellVenue, itemFeeBps).value >= bound
      <==> resalePriceCents * RateOf(resalePriceCents, sellVenue, itemFeeBps) <= (resalePriceCents - buyPriceCents - bound) * BASIS_POINTS
  {
    NetMarginIs(buyPriceCents, resalePriceCents, buyVenue, sellVenue, itemFeeBps);
    hide NetMargin;
    hide RateOf;
  }

  // ---- The Z score ----

  /** The tunable parameters of one run. */
  datatype Rules = Rules(
    zThreshold: real,
    stickerZThreshold: real,
    minSavingsCents: int,
    minStdDevFactor: real,
    minHistoryPoints: nat,
    macroFallback: bool,
    macroPriorWeight: real,
    macroTriggers: bool,
    feeFloor: bool,
    windowSize: nat,
    dedupCacheMaxSize: nat,
    sqrt: real -> real)

  /** One item's baseline document on the resale venue; None for a field it does not carry. */
  datatype Baseline = Baseline(
    supportFloorCents: Option<int>,
    latestPriceCents: Option<nat>,
    rollingAvgCents: Option<int>,
    volatilityCents: Option<int>,
    coefficientOfVariation: Option<real>,
    sellerFeeBps: Option<int>)

  const NO_BASELINE := Baseline(None, None, None, None, None, None)

  /** The baselines and sticker prices one build published, per resale venue; a sticker price that is not a number is None. */
  datatype Market = Market(baselines: map<(Venue, string), Baseline>, stickerPrices: map<(Venue, string), Option<int>>)

  datatype Source = Local | Hybrid | Macro

  datatype Score = Score(z: real, meanCents: real, source: Source)

  /** `Failed`: the computation raises (no price at all, a zero deviation, a negative variance). */
  datatype ScoreResult = NoHistory | Failed | Scored(score: Score)

  function Sum(prices: seq<int>): int {
    if prices == [] then 0 else Sum(prices[..|prices| - 1]) + prices[|prices| - 1]
  }

  function SquaredDeviations(prices: seq<int>, mean: real): real {
    if prices == [] then 0.0
    else
      var d := prices[|prices| - 1] as real - mean;
      SquaredDeviations(prices[..|prices| - 1], mean) + d * d
  }

  /** The sample variance around a mean. */
  function Variance(prices: seq<int>, mean: real): real {
    if |prices| > 1 then SquaredDeviations(prices, mean) / (|prices| as real - 1.0) else 0.0
  }

  function SumOfSquares(prices: seq<int>): int {
    if prices == [] then 0
    else
      var p := prices[|prices| - 1];
      SumOfSquares(prices[..|prices| - 1]) + p * p
  }

  lemma SquareExpands(x: int, m: real)
    ensures (x as real - m) * (x as real - m) == (x * x) as real - 2.0 * m * (x as real) + m * m
  {
    assert (x * x) as real == x as real * x as real;
  }

  lemma {:induction false} DeviationsExpand(prices: seq<int>, m: real)
    ensures SquaredDeviations(prices, m)
      == SumOfSquares(prices) as real - 2.0 * m * (Sum(prices) as real) + |prices| as real * (m * m)
  {
    if prices != [] {
      var front, x := prices[..|prices| - 1], prices[|prices| - 1];
      DeviationsExpand(front, m);
      SquareExpands(x, m);
      assert 2.0 * m * (Sum(prices) as real) == 2.0 * m * (Sum(front) as real) + 2.0 * m * (x as real);
      assert |prices| as real * (m * m) == |front| as real * (m * m) + m * m;
    }
  }

  lemma DeviationsAtMean(prices: seq<int>, mean: real)
    requires mean * |prices| as real == Sum(prices) as real
    ensures SquaredDeviations(prices, mean) == SumOfSquares(prices) as real - |prices| as real * (mean * mean)
  {
    DeviationsExpand(prices, mean);
    hide SquaredDeviations;
    hide SumOfSquares;
    hide Sum;
    var n, s := |prices| as real, Sum(prices) as real;
    MeanTimesSum(mean, n, s);
    assert 2.0 * mean * s == 2.0 * (mean * s);
  }

  lemma Undivided(x: real, y: real)
    requires y != 0.0
    ensures x / y * y == x
  {
  }

  lemma VarianceTimes(prices: seq<int>, mean: real)
    requires |prices| > 1
    ensures Variance(prices, mean) * (|prices| as real - 1.0) == SquaredDeviations(prices, mean)
  {
    hide SquaredDeviations;
    Undivided(SquaredDeviations(prices, mean), |prices| as real - 1.0);
  }

  /** The sample variance times one less than the count: the squares, less those of the mean. */
  lemma VarianceIsSpread(prices: seq<int>, mean: real)
    requires |prices| > 1 && mean * |prices| as real == Sum(prices) as real
    ensures Variance(prices, mean) * (|prices| as real - 1.0) == SumOfSquares(prices) as real - |prices| as real * (mean * mean)
  {
    VarianceTimes(prices, mean);
    DeviationsAtMean(prices, mean);
  }

  /** Deviations around any other centre are larger by the square of its distance from the mean, once per price. */
  lemma MeanIsCentre(prices: seq<int>, mean: real, centre: real)
    requires mean * |prices| as real == Sum(prices) as real
    ensures SquaredDeviations(prices, centre)
      == SquaredDeviations(prices, mean) + |prices| as real * ((centre - mean) * (centre - mean))
  {
    hide SquaredDeviations;
    hide SumOfSquares;
    hide Sum;
    DeviationsAtMean(prices, mean);
    DeviationsExpand(prices, centre);
    Recentred(SquaredDeviations(prices, centre), SquaredDeviations(prices, mean), SumOfSquares(prices) as real, centre, mean,
              |prices| as real, Sum(prices) as real);
  }

  lemma Recentred(around: real, least: real, q: real, c: real, mean: real, n: real, s: real)
    requires mean * n == s && around == q - 2.0 * c * s + n * (c * c) && least == q - n * (mean * mean)
    ensures around == least + n * ((c - mean) * (c - mean))
  {
    CentredSquare(c, mean, n, s);
  }

  lemma MeanTimesSum(mean: real, n: real, s: real)
    requires mean * n == s
    ensures mean * s == n * (mean * mean)
  {
    assert mean * (mean * n) == n * (mean * mean);
  }

  lemma CentredSquare(c: real, mean: real, n: real, s: real)
    requires mean * n == s
    ensures n * ((c - mean) * (c - mean)) == n * (c * c) - 2.0 * c * s + n * (mean * mean)
  {
    assert (c - mean) * (c - mean) == c * c - 2.0 * c * mean + mean * mean;
    assert n * (2.0 * c * mean) == 2.0 * c * (mean * n);
  }

  function Max(a: real, b: real): (larger: real)
    ensures larger >= a && larger >= b && (larger == a || larger == b)
  {
    if a >= b then a else b
  }

  function Blended(n: real, variance: real, weight: real, prior: real): real
    requires n + weight != 0.0
  {
    (n * variance + weight * prior) / (n + weight)
  }

  predicate MacroAvailable(b: Baseline, rules: Rules) {
    rules.macroFallback && b.rollingAvgCents.Some? && b.volatilityCents.Some? && b.volatilityCents.value > 0 && b.rollingAvgCents.value > 0
  }

  /** What a price's distance from the mean is measured in, and where it comes from. */
  datatype Spread = Spread(deviation: real, source: Source)

  /** The effective deviation of the earlier prices; None where computing it raises. */
  function SpreadOf(history: seq<int>, mean: real, b: Baseline, rules: Rules): Option<Spread> {
    var variance := Variance(history, mean);
    if MacroAvailable(b, rules) && b.coefficientOfVariation.Some? && b.coefficientOfVariation.value > 0.0 then
      var prior, n := mean * b.coefficientOfVariation.value, |history| as real;
      if n + rules.macroPriorWeight == 0.0 then None
      else
        var blended := Blended(n, variance, rules.macroPriorWeight, prior * prior);
        if blended < 0.0 then None else Some(Spread(rules.sqrt(blended), Hybrid))
    else Some(Spread(Max(rules.sqrt(variance), mean * rules.minStdDevFactor), Local))
  }

  /** `calculate_z_score` on the window's prices, oldest first. */
  function CalculateZScore(prices: seq<int>, baseline: Option<Baseline>, rules: Rules): ScoreResult {
    var b := baseline.GetOr(NO_BASELINE);
    if prices == [] then Failed
    else
      var history, current := prices[..|prices| - 1], prices[|prices| - 1] as real;
      if |prices| < rules.minHistoryPoints then
        if !MacroAvailable(b, rules) then NoHistory
        else
          var avg := b.rollingAvgCents.value as real;
          Scored(Score((current - avg) / Max(b.volatilityCents.value as real, avg * 0.01), avg, Macro))
      else if history == [] then Failed
      else
        var mean := Sum(history) as real / |history| as real;
        var spread := SpreadOf(history, mean, b, rules);
        if spread.None? then Failed else ZScore(current, mean, spread.value.deviation, spread.value.source)
  }

  function ZScore(current: real, mean: real, deviation: real, source: Source): ScoreResult {
    if deviation == 0.0 then Failed else Scored(Score((current - mean) / deviation, mean, source))
  }

  lemma ScaledOrder(x: real, y: real, scale: real)
    requires scale > 0.0 && x * scale <= y * scale
    ensures x <= y
  {
    if y < x {
      StrictlyScaled(y, x, scale);
    }
  }

  lemma StrictlyScaled(x: real, y: real, scale: real)
    requires scale > 0.0 && x < y
    ensures x * scale < y * scale
  {
    assert (y - x) * scale > 0.0;
  }

  lemma Scaled(x: real, y: real, scale: real)
    requires scale >= 0.0 && x <= y
    ensures x * scale <= y * scale
  {
    assert (y - x) * scale >= 0.0;
  }

  lemma BlendedRises(n: real, low: real, weight: real, high: real)
    requires n >= 0.0 && weight >= 0.0 && n + weight > 0.0 && low <= high
    ensures low <= Blended(n, low, weight, high) <= high
  {
    var blended, total := Blended(n, low, weight, high), n + weight;
    assert blended * total == n * low + weight * high;
    assert low <= blended by {
      Scaled(low, high, weight);
      assert low * total == n * low + weight * low;
      ScaledOrder(low, blended, total);
    }
    assert blended <= high by {
      Scaled(low, high, n);
      assert high * total == n * high + weight * high;
      ScaledOrder(blended, high, total);
    }
  }

  /** Shrinkage never leaves the range between the local variance and the macro prior. */
  lemma BlendedIsBetween(n: real, variance: real, weight: real, prior: real)
    requires n >= 1.0 && weight >= 0.0
    ensures var blended := Blended(n, variance, weight, prior);
      (variance <= blended <= prior) || (prior <= blended <= variance)
  {
    if variance <= prior {
      BlendedRises(n, variance, weight, prior);
    } else {
      BlendedRises(weight, prior, n, variance);
      assert Blended(weight, prior, n, variance) == Blended(n, variance, weight, prior);
    }
  }

  /** The square root is one: of what is not negative. */
  ghost predicate IsRoot(sqrt: real -> real) {
    forall x: real :: x >= 0.0 ==> sqrt(x) >= 0.0 && sqrt(x) * sqrt(x) == x
  }

  /** A baseline that gives a prior for the spread of the window. */
  predicate HasPrior(b: Baseline, rules: Rules) {
    && rules.macroFallback && b.rollingAvgCents.GetOr(0) > 0 && b.volatilityCents.GetOr(0) > 0
    && b.coefficientOfVariation.GetOr(0.0) > 0.0
  }

  /**
   The deviation of a window without a prior: the larger of the sample deviation and the given part of the mean; with one,
   its square is the mean of variance and prior variance, weighted by the count and the prior's weight.
   */
  ghost predicate IsDeviation(deviation: real, history: seq<int>, mean: real, b: Baseline, rules: Rules) {
    var variance := Variance(history, mean);
    if HasPrior(b, rules) then
      var n, weight, prior := |history| as real, rules.macroPriorWeight, mean * b.coefficientOfVariation.value;
      deviation >= 0.0 && deviation * deviation * (n + weight) == n * variance + weight * (prior * prior)
    else
      && deviation >= rules.sqrt(variance) && deviation >= mean * rules.minStdDevFactor
      && (deviation == rules.sqrt(variance) || deviation == mean * rules.minStdDevFactor)
  }

  lemma SpreadIsDeviation(history: seq<int>, mean: real, b: Baseline, rules: Rules)
    requires IsRoot(rules.sqrt)
    ensures var spread := SpreadOf(history, mean, b, rules);
      spread.Some? ==>
        && IsDeviation(spread.value.deviation, history, mean, b, rules)
        && spread.value.source == if HasPrior(b, rules) then Hybrid else Local
  {
    hide Variance;
    if HasPrior(b, rules) {
      var n, weight, prior := |history| as real, rules.macroPriorWeight, mean * b.coefficientOfVariation.value;
      if n + weight != 0.0 {
        var blended := Blended(n, Variance(history, mean), weight, prior * prior);
        Undivided(n * Variance(history, mean) + weight * (prior * prior), n + weight);
        assert blended >= 0.0 ==> rules.sqrt(blended) * rules.sqrt(blended) == blended;
      }
    }
  }

  /**
   What a score read from the window means: the mean of the earlier prices, and how many of their effective deviations
   the newest price lies from it, the deviation being given.
   */
  lemma ScoreMeans(prices: seq<int>, baseline: Option<Baseline>, rules: Rules) returns (deviation: real)
    requires IsRoot(rules.sqrt)
    requires CalculateZScore(prices, baseline, rules).Scored? && CalculateZScore(prices, baseline, rules).score.source != Macro
    ensures var s, b := CalculateZScore(prices, baseline, rules).score, baseline.GetOr(NO_BASELINE);
      && |prices| >= 2 && |prices| >= rules.minHistoryPoints
      && var history := prices[..|prices| - 1];
      && s.meanCents * |history| as real == Sum(history) as real
      && IsDeviation(deviation, history, s.meanCents, b, rules) && deviation != 0.0
      && s.z * deviation == prices[|prices| - 1] as real - s.meanCents
      && s.source == if HasPrior(b, rules) then Hybrid else Local
  {
    hide SpreadOf;
    hide Sum;
    hide IsDeviation;
    hide HasPrior;
    deviation := 1.0;
    var history := prices[..|prices| - 1];
    if history != [] {
      var mean := Sum(history) as real / |history| as real;
      Undivided(Sum(history) as real, |history| as real);
      var spread := SpreadOf(history, mean, baseline.GetOr(NO_BASELINE), rules);
      SpreadIsDeviation(history, mean, baseline.GetOr(NO_BASELINE), rules);
      if spread.Some? {
        deviation := spread.value.deviation;
        ZScoreTimes(prices[|prices| - 1] as real, mean, deviation, spread.value.source);
      }
    }
  }

  /** A macro score: how many volatilities, but at least 1% of the average each, the price lies from the average. */
  lemma MacroScoreMeans(prices: seq<int>, baseline: Option<Baseline>, rules: Rules) returns (deviation: real)
    requires CalculateZScore(prices, baseline, rules).Scored? && CalculateZScore(prices, baseline, rules).score.source == Macro
    ensures var s, b := CalculateZScore(prices, baseline, rules).score, baseline.GetOr(NO_BASELINE);
      && 0 < |prices| < rules.minHistoryPoints && b.rollingAvgCents.Some? && b.volatilityCents.Some?
      && var average, volatility := b.rollingAvgCents.value as real, b.volatilityCents.value as real;
      && s.meanCents == average && average > 0.0 && volatility > 0.0
      && deviation >= volatility && deviation * 100.0 >= average && (deviation == volatility || deviation * 100.0 == average)
      && s.z * deviation == prices[|prices| - 1] as real - average
  {
    hide SpreadOf;
    hide Sum;
    MacroIsShort(prices, baseline, rules);
    var b := baseline.GetOr(NO_BASELINE);
    deviation := Max(b.volatilityCents.value as real, b.rollingAvgCents.value as real * 0.01);
    Undivided(prices[|prices| - 1] as real - b.rollingAvgCents.value as real, deviation);
  }

  lemma MacroIsShort(prices: seq<int>, baseline: Option<Baseline>, rules: Rules)
    ensures var result := CalculateZScore(prices, baseline, rules);
      result.Scored? && result.score.source == Macro ==> 0 < |prices| < rules.minHistoryPoints
  {
    hide Variance;
    hide Blended;
    hide Sum;
  }

  lemma {:induction false} DeviationsArePositive(prices: seq<int>, mean: real)
    ensures SquaredDeviations(prices, mean) >= 0.0
  {
    if prices != [] {
      DeviationsArePositive(prices[..|prices| - 1], mean);
      var d := prices[|prices| - 1] as real - mean;
      assert d * d >= 0.0;
    }
  }

  lemma VarianceIsPositive(prices: seq<int>, mean: real)
    ensures Variance(prices, mean) >= 0.0
  {
    DeviationsArePositive(prices, mean);
    hide SquaredDeviations;
    if |prices| > 1 {
      QuotientIsPositive(SquaredDeviations(prices, mean), |prices| as real - 1.0);
    }
  }

  lemma QuotientIsPositive(x: real, y: real)
    requires y > 0.0
    ensures x >= 0.0 ==> x / y >= 0.0
    ensures x > 0.0 ==> x / y > 0.0
  {
    Undivided(x, y);
    var q := x / y;
    if q < 0.0 {
      StrictlyScaled(q, 0.0, y);
    } else if q <= 0.0 {
      Scaled(q, 0.0, y);
    }
  }

  lemma PositiveProduct(x: real, y: real) returns (product: real)
    requires x > 0.0 && y > 0.0
    ensures product == x * y && product > 0.0
  {
    product := x * y;
  }

  lemma BlendedIsPositive(n: real, variance: real, weight: real, prior: real)
    requires n >= 0.0 && variance >= 0.0 && weight > 0.0 && prior > 0.0
    ensures Blended(n, variance, weight, prior * prior) > 0.0
  {
    var square := PositiveProduct(prior, prior);
    var fromPrior := PositiveProduct(weight, square);
    assert n * variance >= 0.0;
    QuotientIsPositive(n * variance + fromPrior, n + weight);
  }

  lemma SpreadIsPositive(history: seq<int>, mean: real, b: Baseline, rules: Rules)
    requires IsRoot(rules.sqrt) && rules.minStdDevFactor > 0.0 && rules.macroPriorWeight > 0.0 && mean > 0.0
    ensures var spread := SpreadOf(history, mean, b, rules); spread.Some? && spread.value.deviation > 0.0
  {
    VarianceIsPositive(history, mean);
    hide Variance;
    if HasPrior(b, rules) {
      var n, weight, prior := |history| as real, rules.macroPriorWeight, mean * b.coefficientOfVariation.value;
      assert prior > 0.0;
      BlendedIsPositive(n, Variance(history, mean), weight, prior);
      var blended := Blended(n, Variance(history, mean), weight, prior * prior);
      hide Blended;
      assert rules.sqrt(blended) * rules.sqrt(blended) == blended;
    } else {
      assert mean * rules.minStdDevFactor > 0.0;
    }
  }

  lemma {:induction false} NothingEarned(prices: seq<int>)
    requires forall p :: p in prices ==> p >= 0
    ensures Sum(prices) >= 0
    ensures Sum(prices) == 0 ==> SquaredDeviations(prices, 0.0) == 0.0
  {
    if prices != [] {
      var front, last := prices[..|prices| - 1], prices[|prices| - 1];
      assert last in prices && forall p :: p in front ==> p in prices;
      NothingEarned(front);
    }
  }

  lemma RootOfZero(sqrt: real -> real)
    requires IsRoot(sqrt)
    ensures sqrt(0.0) == 0.0
  {
    var root := sqrt(0.0);
    if root > 0.0 {
      var square := PositiveProduct(root, root);
    }
  }

  lemma NothingBlended(n: real, weight: real)
    requires n + weight != 0.0
    ensures Blended(n, 0.0, weight, 0.0) == 0.0
  {
    Undivided(0.0, n + weight);
  }

  /** At no price at all there is no deviation to measure in. */
  lemma NoSpread(history: seq<int>, b: Baseline, rules: Rules)
    requires IsRoot(rules.sqrt) && Variance(history, 0.0) == 0.0 && (|history| as real + rules.macroPriorWeight != 0.0)
    ensures SpreadOf(history, 0.0, b, rules).Some? && SpreadOf(history, 0.0, b, rules).value.deviation == 0.0
  {
    hide Variance;
    RootOfZero(rules.sqrt);
    if HasPrior(b, rules) {
      var prior := 0.0 * b.coefficientOfVariation.value;
      assert prior == 0.0;
      NothingBlended(|history| as real, rules.macroPriorWeight);
      assert prior * prior == 0.0;
    }
  }

  lemma ZeroVariance(history: seq<int>)
    requires SquaredDeviations(history, 0.0) == 0.0
    ensures Variance(history, 0.0) == 0.0
  {
  }

  /**
   Which windows are scored: a short one exactly when the baseline has an average and a volatility, a longer one exactly
   when its earlier prices are not all zero; then the computation fails.
   */
  lemma ScoredIff(prices: seq<int>, baseline: Option<Baseline>, rules: Rules)
    requires IsRoot(rules.sqrt) && rules.minStdDevFactor > 0.0 && rules.macroPriorWeight > 0.0 && rules.minHistoryPoints >= 2
    requires prices != [] && forall p :: p in prices ==> p >= 0
    ensures var result, b := CalculateZScore(prices, baseline, rules), baseline.GetOr(NO_BASELINE);
      if |prices| < rules.minHistoryPoints
      then (result == NoHistory || (result.Scored? && result.score.source == Macro))
        && (result.Scored? <==> rules.macroFallback && b.rollingAvgCents.GetOr(0) > 0 && b.volatilityCents.GetOr(0) > 0)
      else if Sum(prices[..|prices| - 1]) == 0 then result.Failed?
      else result.Scored? && result.score.source == if HasPrior(b, rules) then Hybrid else Local
  {
    hide SpreadOf;
    hide Sum;
    hide Variance;
    hide HasPrior;
    if |prices| >= rules.minHistoryPoints {
      var history, b := prices[..|prices| - 1], baseline.GetOr(NO_BASELINE);
      var mean := Sum(history) as real / |history| as real;
      Undivided(Sum(history) as real, |history| as real);
      assert forall p :: p in history ==> p in prices;
      NothingEarned(history);
      if Sum(history) == 0 {
        ZeroVariance(history);
        NoSpread(history, b, rules);
      } else {
        QuotientIsPositive(Sum(history) as real, |history| as real);
        SpreadIsPositive(history, mean, b, rules);
        SpreadIsDeviation(history, mean, b, rules);
      }
    }
  }

  lemma ZScoreTimes(current: real, mean: real, deviation: real, source: Source)
    ensures var result := ZScore(current, mean, deviation, source);
      result.Scored? ==> result.score.z * deviation == current - mean && result.score.meanCents == mean && result.score.source == source
  {
    if deviation != 0.0 {
      Undivided(current - mean, deviation);
    }
  }

  // ---- Triggers ----

  predicate SourceCanTrigger(source: Source, rules: Rules) {
    source != Macro || rules.macroTriggers
  }

  predicate ShouldTrigger(score: Score, t: Tick, rules: Rules) {
    && SourceCanTrigger(score.source, rules)
    && score.z < (if |t.stickers| > 0 then rules.stickerZThreshold else rules.zThreshold)
    && (|t.stickers| == 0 ==> score.meanCents - t.priceCents as real >= rules.minSavingsCents as real)
  }

  /** What triggers: a score below the threshold of its kind of tick, saving enough unless it has stickers, and macro only if set. */
  lemma TriggerIff(score: Score, t: Tick, rules: Rules)
    ensures ShouldTrigger(score, t, rules) <==>
      && (score.source == Macro ==> rules.macroTriggers)
      && (t.stickers == [] ==> score.z < rules.zThreshold && score.meanCents >= (t.priceCents + rules.minSavingsCents) as real)
      && (t.stickers != [] ==> score.z < rules.stickerZThreshold)
  {
  }

  // ---- The rules engine ----

  datatype Rule = SupportFloor | MacroSigma | StickersBelowBase | StickerPremium

  function BaselineOf(t: Tick, m: Market): Option<Baseline> {
    var key := (ResaleVenue(t.venue), t.name);
    if key in m.baselines then Some(m.baselines[key]) else None
  }

  function StickerPrice(name: Option<string>, venue: Venue, m: Market): int {
    if name.None? || name.value == "" || (venue, name.value) !in m.stickerPrices then 0
    else m.stickerPrices[(venue, name.value)].GetOr(0)
  }

  function StickerValue(stickers: seq<Option<string>>, venue: Venue, m: Market): int {
    if stickers == [] then 0
    else StickerValue(stickers[..|stickers| - 1], venue, m) + StickerPrice(stickers[|stickers| - 1], venue, m)
  }

  /** `sticker_value_cents`: the loop over the stickers, skipping the ones without a usable name or price. */
  method StickerValueCents(t: Tick, m: Market) returns (totalCents: int)
    ensures totalCents == StickerValue(t.stickers, ResaleVenue(t.venue), m)
  {
    var referenceVenue := ResaleVenue(t.venue);
    totalCents := 0;
    for i := 0 to |t.stickers|
      invariant totalCents == StickerValue(t.stickers[..i], referenceVenue, m)
    {
      assert t.stickers[..i + 1][..i] == t.stickers[..i];
      var name := t.stickers[i];
      if name.Some? && name.value != "" {
        var key := (referenceVenue, name.value);
        if key in m.stickerPrices && m.stickerPrices[key].Some? {
          totalCents := totalCents + m.stickerPrices[key].value;
        }
      }
    }
    assert t.stickers[..|t.stickers|] == t.stickers;
  }

  /** `dre_approval_reason`: the rule that approves the tick. A missing baseline is looked up first. */
  function DreReason(t: Tick, given: Option<Baseline>, m: Market): Option<Rule> {
    var found := if given.Some? then given else BaselineOf(t, m);
    if found.None? then None
    else
      var b := found.value;
      var stickers := StickerValue(t.stickers, ResaleVenue(t.venue), m);
      var premium := t.priceCents - b.latestPriceCents.GetOr(0);
      if t.priceCents <= b.supportFloorCents.GetOr(0) then Some(SupportFloor)
      else if b.rollingAvgCents.Some? && b.volatilityCents.Some? && b.volatilityCents.value > 0
        && (b.rollingAvgCents.value - t.priceCents) as real / b.volatilityCents.value as real >= 2.0 then Some(MacroSigma)
      else if stickers <= STICKER_VALUE_MIN_CENTS then None
      else if premium <= 0 then Some(StickersBelowBase)
      else if premium as real / stickers as real * 100.0 <= 3.0 then Some(StickerPremium)
      else None
  }

  /** `estimate_net_profit_cents`. */
  function EstimateNetProfit(t: Tick, b: Baseline): Option<int> {
    if b.latestPriceCents.None? then None
    else
      var isFee := b.sellerFeeBps.Some? && 0 <= b.sellerFeeBps.value < BASIS_POINTS;
      NetMargin(t.priceCents, b.latestPriceCents.value, t.venue, ResaleVenue(t.venue), if isFee then b.sellerFeeBps else None)
  }

  /** `below_fee_floor`: judges only the rules that buy on price. */
  predicate BelowFeeFloor(rule: Rule, estimate: Option<int>, rules: Rules) {
    rules.feeFloor && (rule == SupportFloor || rule == MacroSigma) && estimate.Some? && estimate.value <= 0
  }

  /**
   A macro score is the DRE's own test: a tick two deviations below the baseline by its macro score is one the
   DRE approves on price, whatever its stickers are. The reverse holds where the volatility is not raised to
   1% of the average.
   */
  lemma MacroScoreIsDreTest(prices: seq<int>, t: Tick, b: Baseline, m: Market, rules: Rules)
    requires prices != [] && prices[|prices| - 1] == t.priceCents
    requires CalculateZScore(prices, Some(b), rules).Scored? && CalculateZScore(prices, Some(b), rules).score.source == Macro
    ensures var z := CalculateZScore(prices, Some(b), rules).score.z;
      var onPrice := DreReason(t, Some(b), m) == Some(SupportFloor) || DreReason(t, Some(b), m) == Some(MacroSigma);
      && (z <= -2.0 ==> onPrice)
      && (onPrice && 100 * b.volatilityCents.value >= b.rollingAvgCents.value
          && b.supportFloorCents.GetOr(0) <= b.rollingAvgCents.value - 2 * b.volatilityCents.value
          ==> z <= -2.0)
  {
    hide StickerValue;
    var avg, vol, price := b.rollingAvgCents.value as real, b.volatilityCents.value as real, t.priceCents as real;
    var spread := Max(vol, avg * 0.01);
    QuotientAtLeast(avg - price, vol, 2.0);
    QuotientAtLeast(avg - price, spread, 2.0);
    NegatedQuotient(price - avg, spread);
  }

  lemma QuotientAtLeast(x: real, y: real, bound: real)
    requires y > 0.0
    ensures x / y >= bound <==> x >= bound * y
  {
    assert x / y * y == x;
    if x / y >= bound {
      assert (x / y - bound) * y >= 0.0;
    } else {
      assert (bound - x / y) * y > 0.0;
    }
  }

  lemma NegatedQuotient(x: real, y: real)
    requires y != 0.0
    ensures x / y == -((-x) / y)
  {
  }

  // ---- The recording filter ----

  datatype Outcome = Recorded | NoBaseline | AboveResalePrice

  /** `ResalePrices.refresh`: the positive latest prices of the venue. */
  function LatestPrices(m: Market, venue: Venue): map<string, nat> {
    map key | key in m.baselines && key.0 == venue && m.baselines[key].latestPriceCents.GetOr(0) > 0
      :: key.1 := m.baselines[key].latestPriceCents.value
  }

  /** The sticker prices of the venue that are numbers. */
  function ReadStickerPrices(m: Market, venue: Venue): map<string, int> {
    map key | key in m.stickerPrices && key.0 == venue && m.stickerPrices[key].Some?
      :: key.1 := m.stickerPrices[key].value
  }

  /** Unlike the DRE, a sticker without a name is looked up under the empty name. */
  function HeldStickerValue(stickers: seq<Option<string>>, prices: map<string, int>): int {
    if stickers == [] then 0
    else
      var name := stickers[|stickers| - 1].GetOr("");
      HeldStickerValue(stickers[..|stickers| - 1], prices) + if name in prices then prices[name] else 0
  }

  /** `ResalePrices.judge`. */
  function Judge(t: Tick, latest: map<string, nat>, stickerPrices: map<string, int>): Outcome {
    if t.name !in latest then NoBaseline
    else if t.priceCents < latest[t.name] then Recorded
    else
      var value := HeldStickerValue(t.stickers, stickerPrices);
      var premium := t.priceCents - latest[t.name];
      if value > STICKER_VALUE_MIN_CENTS && (premium * 100) as real <= 3.0 * value as real then Recorded
      else AboveResalePrice
  }

  function JudgedBy(t: Tick, m: Market): Outcome {
    Judge(t, LatestPrices(m, ResaleVenue(t.venue)), ReadStickerPrices(m, ResaleVenue(t.venue)))
  }

  /** The DRE approves the tick and the fee floor lets it through. */
  predicate Tradable(t: Tick, m: Market, rules: Rules) {
    var rule := DreReason(t, BaselineOf(t, m), m);
    rule.Some? && !BelowFeeFloor(rule.value, EstimateNetProfit(t, BaselineOf(t, m).GetOr(NO_BASELINE)), rules)
  }

  /** How many stickers carry no name, which the DRE skips and the filter looks up under the empty name. */
  function Nameless(stickers: seq<Option<string>>): nat {
    if stickers == [] then 0
    else Nameless(stickers[..|stickers| - 1]) + if stickers[|stickers| - 1].GetOr("") == "" then 1 else 0
  }

  function NamelessPrice(m: Market, venue: Venue): int {
    if (venue, "") in m.stickerPrices then m.stickerPrices[(venue, "")].GetOr(0) else 0
  }

  lemma HeldPrice(m: Market, venue: Venue, name: string)
    ensures var held := ReadStickerPrices(m, venue);
      (if name in held then held[name] else 0)
        == if name == "" then NamelessPrice(m, venue) else StickerPrice(Some(name), venue, m)
  {
    assert (venue, name) in m.stickerPrices && m.stickerPrices[(venue, name)].Some? <==> name in ReadStickerPrices(m, venue);
  }

  /** The filter's value is the DRE's, and the price under the empty name once for each sticker without a name. */
  lemma {:induction false} HeldValueIs(stickers: seq<Option<string>>, venue: Venue, m: Market)
    ensures HeldStickerValue(stickers, ReadStickerPrices(m, venue))
      == StickerValue(stickers, venue, m) + Nameless(stickers) * NamelessPrice(m, venue)
  {
    hide ReadStickerPrices;
    hide NamelessPrice;
    if stickers != [] {
      var front, name := stickers[..|stickers| - 1], stickers[|stickers| - 1].GetOr("");
      HeldValueIs(front, venue, m);
      HeldPrice(m, venue, name);
      OneMoreTime(Nameless(front), NamelessPrice(m, venue));
    }
  }

  lemma OneMoreTime(n: nat, price: int)
    ensures (n + 1) * price == n * price + price
  {
  }

  /** Stickers worth the premium: above the minimum value, and the premium at most 3% of it. */
  predicate StickersCarry(value: int, premium: int) {
    value > STICKER_VALUE_MIN_CENTS && (premium * 100) as real <= 3.0 * value as real
  }

  lemma MoreStillCarries(value: int, more: int, premium: int)
    requires StickersCarry(value, premium) && more >= value
    ensures StickersCarry(more, premium)
  {
  }

  lemma PriceRulesBuyBelowResale(t: Tick, b: Baseline, rule: Rule, rules: Rules)
    requires rules.feeFloor && (rule == SupportFloor || rule == MacroSigma) && b.latestPriceCents.Some?
    requires !BelowFeeFloor(rule, EstimateNetProfit(t, b), rules)
    ensures t.priceCents < b.latestPriceCents.value
  {
    hide NetMargin;
    var isFee := b.sellerFeeBps.Some? && 0 <= b.sellerFeeBps.value < BASIS_POINTS;
    NetMarginBounds(t.priceCents, b.latestPriceCents.value, t.venue, ResaleVenue(t.venue), if isFee then b.sellerFeeBps else None);
  }

  lemma StickerRulesPayLittle(t: Tick, b: Baseline, m: Market, stickers: int)
    requires stickers == StickerValue(t.stickers, ResaleVenue(t.venue), m)
    requires DreReason(t, Some(b), m) == Some(StickersBelowBase) || DreReason(t, Some(b), m) == Some(StickerPremium)
    ensures stickers > STICKER_VALUE_MIN_CENTS
    ensures ((t.priceCents - b.latestPriceCents.GetOr(0)) * 100) as real <= 3.0 * stickers as real
  {
    hide StickerValue;
    if stickers > STICKER_VALUE_MIN_CENTS {
      PremiumShare(t.priceCents - b.latestPriceCents.GetOr(0), stickers);
    }
  }

  /** What the filter decides of an item with a positive latest price, said in the DRE's terms. */
  lemma JudgedIff(t: Tick, m: Market)
    requires BaselineOf(t, m).GetOr(NO_BASELINE).latestPriceCents.GetOr(0) > 0
    ensures var venue, latest := ResaleVenue(t.venue), BaselineOf(t, m).value.latestPriceCents.value;
      var held := StickerValue(t.stickers, venue, m) + Nameless(t.stickers) * NamelessPrice(m, venue);
      JudgedBy(t, m) == Recorded <==> t.priceCents < latest || StickersCarry(held, t.priceCents - latest)
  {
    hide HeldStickerValue;
    hide StickerValue;
    hide Nameless;
    hide NamelessPrice;
    hide ReadStickerPrices;
    var venue := ResaleVenue(t.venue);
    var key := (venue, t.name);
    var latest := LatestPrices(m, venue);
    assert t.name in latest && latest[t.name] == BaselineOf(t, m).value.latestPriceCents.value by {
      assert key in m.baselines;
    }
    HeldValueIs(t.stickers, venue, m);
  }

  lemma NotListedNotRecorded(t: Tick, m: Market)
    requires BaselineOf(t, m).GetOr(NO_BASELINE).latestPriceCents.GetOr(0) <= 0
    ensures JudgedBy(t, m) == NoBaseline
  {
  }

  /** With the fee floor on, a trade is below the latest price, or carried by stickers that have a name. */
  lemma TradableIsCheapOrCarried(t: Tick, m: Market, rules: Rules)
    requires rules.feeFloor && Tradable(t, m, rules)
    requires BaselineOf(t, m).GetOr(NO_BASELINE).latestPriceCents.GetOr(0) > 0
    ensures var latest := BaselineOf(t, m).value.latestPriceCents.value;
      t.priceCents < latest || StickersCarry(StickerValue(t.stickers, ResaleVenue(t.venue), m), t.priceCents - latest)
  {
    hide StickerValue;
    hide EstimateNetProfit;
    hide BaselineOf;
    var b := BaselineOf(t, m).value;
    var rule := DreReason(t, Some(b), m).value;
    if rule == SupportFloor || rule == MacroSigma {
      hide DreReason;
      PriceRulesBuyBelowResale(t, b, rule, rules);
    } else {
      hide DreReason;
      StickerRulesPayLittle(t, b, m, StickerValue(t.stickers, ResaleVenue(t.venue), m));
    }
  }

  /**
   The recording filter never hides a trade: with the fee floor on, every tick that could be traded is recorded,
   exactly when its item has a positive latest price; but for stickers without a name, at a negative price stored under
   the empty name, which the filter alone counts.
   */
  lemma FilterNeverHidesATrade(t: Tick, m: Market, rules: Rules)
    requires rules.feeFloor && Tradable(t, m, rules)
    ensures var venue, latest := ResaleVenue(t.venue), BaselineOf(t, m).GetOr(NO_BASELINE).latestPriceCents.GetOr(0);
      var held := StickerValue(t.stickers, venue, m) + Nameless(t.stickers) * NamelessPrice(m, venue);
      && (Nameless(t.stickers) == 0 || NamelessPrice(m, venue) >= 0 ==> (JudgedBy(t, m) == Recorded <==> latest > 0))
      && (JudgedBy(t, m) == Recorded <==> latest > 0 && (t.priceCents < latest || StickersCarry(held, t.priceCents - latest)))
  {
    hide Tradable;
    hide JudgedBy;
    hide StickerValue;
    hide Nameless;
    hide NamelessPrice;
    hide BaselineOf;
    hide StickersCarry;
    var venue, latest := ResaleVenue(t.venue), BaselineOf(t, m).GetOr(NO_BASELINE).latestPriceCents.GetOr(0);
    if latest > 0 {
      JudgedIff(t, m);
      TradableIsCheapOrCarried(t, m, rules);
      var value := StickerValue(t.stickers, venue, m);
      if StickersCarry(value, t.priceCents - latest) && (Nameless(t.stickers) == 0 || NamelessPrice(m, venue) >= 0) {
        assert Nameless(t.stickers) * NamelessPrice(m, venue) >= 0;
        MoreStillCarries(value, value + Nameless(t.stickers) * NamelessPrice(m, venue), t.priceCents - latest);
      }
    } else {
      NotListedNotRecorded(t, m);
    }
  }

  /**
   A sticker without a name can hide a trade: at the latest price, stickers worth more than the minimum approve it, and a
   price under the empty name that takes as much away lets the filter drop it.
   */
  lemma NamelessStickerHides(t: Tick, name: string, m: Market, rules: Rules)
    requires rules.feeFloor && name != "" && t.stickers == [Some(name), None]
    requires BaselineOf(t, m).GetOr(NO_BASELINE).latestPriceCents == Some(t.priceCents) && t.priceCents > 0
    requires BaselineOf(t, m).value.supportFloorCents.None? && BaselineOf(t, m).value.rollingAvgCents.None?
    requires StickerPrice(Some(name), ResaleVenue(t.venue), m) > STICKER_VALUE_MIN_CENTS
    requires NamelessPrice(m, ResaleVenue(t.venue)) == -StickerPrice(Some(name), ResaleVenue(t.venue), m)
    ensures Tradable(t, m, rules) && JudgedBy(t, m) == AboveResalePrice
  {
    hide EstimateNetProfit;
    hide NamelessPrice;
    hide ResaleVenue;
    var venue := ResaleVenue(t.venue);
    assert [Some(name), None][..1] == [Some(name)] && [Some(name)][..0] == [];
    assert StickerValue([Some(name)], venue, m) == StickerPrice(Some(name), venue, m);
    assert StickerValue(t.stickers, venue, m) == StickerPrice(Some(name), venue, m);
    assert Nameless([Some(name)]) == 0 && Nameless(t.stickers) == 1;
    JudgedIff(t, m);
    hide StickerValue;
    hide Nameless;
    hide StickerPrice;
    hide HeldStickerValue;
    hide ReadStickerPrices;
    assert t.name in LatestPrices(m, venue) by {
      assert (venue, t.name) in m.baselines;
    }
  }

  lemma PremiumShare(premium: int, value: int)
    requires value > 0
    ensures premium as real / value as real * 100.0 <= 3.0 <==> (premium * 100) as real <= 3.0 * value as real
  {
    var p, v := premium as real, value as real;
    assert p / v * v == p;
    var share := p / v;
    if share * 100.0 <= 3.0 {
      assert (3.0 - share * 100.0) * v >= 0.0;
    } else {
      assert (share * 100.0 - 3.0) * v > 0.0;
    }
  }

  /** Cheap by the baseline: at the support floor or below, or two volatilities below the average. */
  predicate CheapByBaseline(priceCents: int, b: Baseline) {
    || priceCents <= b.supportFloorCents.GetOr(0)
    || (b.rollingAvgCents.Some? && b.volatilityCents.GetOr(0) > 0 && b.rollingAvgCents.value - priceCents >= 2 * b.volatilityCents.value)
  }

  /** What the rules engine approves: an item with a baseline that is cheap by it, or whose stickers carry the premium. */
  lemma DreApprovesIff(t: Tick, given: Option<Baseline>, m: Market)
    ensures var found := if given.Some? then given else BaselineOf(t, m);
      var reason := DreReason(t, given, m);
      && (reason.Some? <==>
            && found.Some?
            && (|| CheapByBaseline(t.priceCents, found.value)
                || StickersCarry(StickerValue(t.stickers, ResaleVenue(t.venue), m),
                                 t.priceCents - found.value.latestPriceCents.GetOr(0))))
      && (reason == Some(SupportFloor) || reason == Some(MacroSigma) <==> found.Some? && CheapByBaseline(t.priceCents, found.value))
      && (reason == Some(SupportFloor) <==> found.Some? && t.priceCents <= found.value.supportFloorCents.GetOr(0))
      && (reason.Some? && !CheapByBaseline(t.priceCents, found.value) ==>
            (reason == Some(StickersBelowBase) <==> t.priceCents <= found.value.latestPriceCents.GetOr(0)))
  {
    hide StickerValue;
    var found := if given.Some? then given else BaselineOf(t, m);
    hide BaselineOf;
    if found.Some? {
      var b, stickers := found.value, StickerValue(t.stickers, ResaleVenue(t.venue), m);
      var premium := t.priceCents - b.latestPriceCents.GetOr(0);
      if b.rollingAvgCents.Some? && b.volatilityCents.GetOr(0) > 0 {
        QuotientAtLeast((b.rollingAvgCents.value - t.priceCents) as real, b.volatilityCents.value as real, 2.0);
      }
      if stickers > STICKER_VALUE_MIN_CENTS {
        PremiumShare(premium, stickers);
      }
    }
  }

  /** The rate an estimate charges: the item's own where it is a fee at all, else the resale venue's. */
  function EstimateRate(t: Tick, b: Baseline): int
    requires b.latestPriceCents.Some?
  {
    if b.sellerFeeBps.Some? && 0 <= b.sellerFeeBps.value < BASIS_POINTS then b.sellerFeeBps.value
    else SellerFeeBps(ResaleVenue(t.venue), b.latestPriceCents.value)
  }

  /** The estimate is there exactly with a latest price, and reaches a bound exactly when the difference less it covers the fee. */
  lemma EstimateIs(t: Tick, b: Baseline, bound: int)
    ensures EstimateNetProfit(t, b).Some? <==> b.latestPriceCents.Some?
    ensures b.latestPriceCents.Some? ==>
      var latest := b.latestPriceCents.value;
      EstimateNetProfit(t, b).value >= bound <==> latest * EstimateRate(t, b) <= (latest - t.priceCents - bound) * BASIS_POINTS
  {
    if b.latestPriceCents.Some? {
      var isFee := b.sellerFeeBps.Some? && 0 <= b.sellerFeeBps.value < BASIS_POINTS;
      var fee := if isFee then b.sellerFeeBps else None;
      NetMarginIs(t.priceCents, b.latestPriceCents.value, t.venue, ResaleVenue(t.venue), fee);
      NetMarginReaches(t.priceCents, b.latestPriceCents.value, t.venue, ResaleVenue(t.venue), fee, bound);
      hide NetMargin;
    }
  }

  /** What can be traded: what the rules engine approves, less what is only cheap and earns nothing after its fee. */
  lemma TradableIff(t: Tick, m: Market, rules: Rules)
    ensures var b := BaselineOf(t, m).GetOr(NO_BASELINE);
      Tradable(t, m, rules) <==>
        && DreReason(t, BaselineOf(t, m), m).Some?
        && (rules.feeFloor && b.latestPriceCents.Some? && CheapByBaseline(t.priceCents, b) ==>
              b.latestPriceCents.value * EstimateRate(t, b) <= (b.latestPriceCents.value - t.priceCents - 1) * BASIS_POINTS)
  {
    DreApprovesIff(t, BaselineOf(t, m), m);
    hide DreReason;
    hide CheapByBaseline;
    hide EstimateNetProfit;
    hide EstimateRate;
    hide BaselineOf;
    hide StickerValue;
    if BaselineOf(t, m).Some? {
      EstimateIs(t, BaselineOf(t, m).value, 1);
    }
  }

  /**
   Without the fee floor the filter hides a trade exactly where a rule that buys on price approves it at the latest price
   or above, and no sticker carries it: a price of 150, say, with a latest price of 100 and a support floor of 200.
   */
  lemma WithoutFloorHiddenIff(t: Tick, m: Market, rules: Rules)
    requires !rules.feeFloor && Tradable(t, m, rules)
    requires BaselineOf(t, m).GetOr(NO_BASELINE).latestPriceCents.GetOr(0) > 0
    requires Nameless(t.stickers) == 0 || NamelessPrice(m, ResaleVenue(t.venue)) >= 0
    ensures var venue, b := ResaleVenue(t.venue), BaselineOf(t, m).value;
      var rule, latest := DreReason(t, Some(b), m).value, b.latestPriceCents.value;
      var held := StickerValue(t.stickers, venue, m) + Nameless(t.stickers) * NamelessPrice(m, venue);
      JudgedBy(t, m) != Recorded <==>
        (rule == SupportFloor || rule == MacroSigma) && t.priceCents >= latest && !StickersCarry(held, t.priceCents - latest)
  {
    hide EstimateNetProfit;
    hide StickerValue;
    hide Nameless;
    hide NamelessPrice;
    hide JudgedBy;
    hide BaselineOf;
    JudgedIff(t, m);
    var venue, b := ResaleVenue(t.venue), BaselineOf(t, m).value;
    var rule, premium := DreReason(t, Some(b), m).value, t.priceCents - b.latestPriceCents.value;
    var value := StickerValue(t.stickers, venue, m);
    hide DreReason;
    if rule == StickersBelowBase || rule == StickerPremium {
      StickerRulesPayLittle(t, b, m, value);
      assert Nameless(t.stickers) * NamelessPrice(m, venue) >= 0;
      MoreStillCarries(value, value + Nameless(t.stickers) * NamelessPrice(m, venue), premium);
    }
  }

  /** So every tick without stickers from its item's latest price up to a support floor above it is hidden. */
  lemma FilterHidesWithoutFloor(t: Tick, m: Market, rules: Rules)
    requires !rules.feeFloor && t.stickers == [] && BaselineOf(t, m).Some?
    requires var b := BaselineOf(t, m).value;
      0 < b.latestPriceCents.GetOr(0) <= t.priceCents <= b.supportFloorCents.GetOr(0)
    ensures Tradable(t, m, rules) && JudgedBy(t, m) == AboveResalePrice
  {
    hide EstimateNetProfit;
    assert (ResaleVenue(t.venue), t.name) in m.baselines;
    assert t.name in LatestPrices(m, ResaleVenue(t.venue));
  }
}
