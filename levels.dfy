/** The support/resistance detector: the 25th percentile of the last 20
    lows is the support, the 75th percentile of the last 20 highs the
    resistance, and the last close within 2% of either produces a signal. */
module Levels {
  import opened PatternTypes
  import opened Stats

  const LevelWindow: nat := 20
  const SupportRank: real := 25.0
  const ResistanceRank: real := 75.0
  const NearTolerance: real := 0.02

  function SupportPrice(cs: seq<Candle>): real
    requires |cs| >= LevelWindow
  {
    Percentile(Recent(Lows(cs), LevelWindow), SupportRank)
  }

  function ResistancePrice(cs: seq<Candle>): real
    requires |cs| >= LevelWindow
  {
    Percentile(Recent(Highs(cs), LevelWindow), ResistanceRank)
  }

  /** The price is within 2% of the level, measured relative to the level;
      the ratio |price - level| / level < 0.02 multiplied out by the
      positive level (lemma NearIsRatio). */
  predicate Near(price: real, level: real) {
    Abs(price - level) < NearTolerance * level
  }

  lemma NearIsRatio(price: real, level: real)
    requires level > 0.0
    ensures Abs(price - level) / level < NearTolerance <==> Near(price, level)
  {
    QuotientCompare(Abs(price - level), level, NearTolerance);
  }

  /** Stop 2% under the support, target 4% above the entry. */
  function SupportAt(current: real, level: real): Signal {
    Signal(SupportLevel, Bullish, 60, current, level * 0.98, current * 1.04, 2.0)
  }

  /** Stop 2% over the resistance, target 4% below the entry. */
  function ResistanceAt(current: real, level: real): Signal {
    Signal(ResistanceLevel, Bearish, 60, current, level * 1.02, current * 0.96, 2.0)
  }

  /** The support test first, then the resistance test; both may fire. */
  function LevelSignals(current: real, support: real, resistance: real): (r: seq<Signal>)
    ensures |r| <= 2
    ensures forall s :: s in r ==>
      s.entry == current && HasFixedConstants(s) && (s.pattern == SupportLevel || s.pattern == ResistanceLevel)
  {
    (if Near(current, support) then [SupportAt(current, support)] else [])
    + (if Near(current, resistance) then [ResistanceAt(current, resistance)] else [])
  }

  function DetectSupportResistance(cs: seq<Candle>): (r: seq<Signal>)
    requires PositivePrices(cs)
    ensures |r| <= 2
    ensures forall s :: s in r ==>
      |cs| >= LevelWindow && s.entry == LastClose(cs) && HasFixedConstants(s)
      && (s.pattern == SupportLevel || s.pattern == ResistanceLevel)
  {
    if |cs| < LevelWindow then []
    else LevelSignals(LastClose(cs), SupportPrice(cs), ResistancePrice(cs))
  }

  /** A support signal exactly when the close is near the support, a
      resistance signal exactly when it is near the resistance, nothing
      else, and support before resistance. */
  lemma LevelSignalsOutcome(current: real, support: real, resistance: real)
    ensures var r := LevelSignals(current, support, resistance);
      |r| <= 2
      && (SupportAt(current, support) in r <==> Near(current, support))
      && (ResistanceAt(current, resistance) in r <==> Near(current, resistance))
      && (forall s :: s in r ==> s == SupportAt(current, support) || s == ResistanceAt(current, resistance))
      && (|r| == 2 ==> r[0].pattern == SupportLevel && r[1].pattern == ResistanceLevel)
  {
  }

  /** Nothing below 20 candles; otherwise a support signal exactly when the
      last close is near the support, a resistance signal exactly when it is
      near the resistance, nothing else, and support first. */
  lemma LevelsOutcome(cs: seq<Candle>)
    requires PositivePrices(cs)
    ensures |DetectSupportResistance(cs)| <= 2
    ensures |cs| < LevelWindow ==> DetectSupportResistance(cs) == []
    ensures |cs| >= LevelWindow ==>
      DetectSupportResistance(cs) == LevelSignals(LastClose(cs), SupportPrice(cs), ResistancePrice(cs))
    ensures |cs| >= LevelWindow ==>
      var r, current, support, resistance := DetectSupportResistance(cs), LastClose(cs), SupportPrice(cs), ResistancePrice(cs);
      (SupportAt(current, support) in r <==> Near(current, support))
      && (ResistanceAt(current, resistance) in r <==> Near(current, resistance))
      && (forall s :: s in r ==> s == SupportAt(current, support) || s == ResistanceAt(current, resistance))
      && (|r| == 2 ==> r[0].pattern == SupportLevel && r[1].pattern == ResistanceLevel)
  {
    if |cs| >= LevelWindow {
      LevelSignalsOutcome(LastClose(cs), SupportPrice(cs), ResistancePrice(cs));
    }
  }

  /** Both levels lie within the range of their window and are therefore
      positive for positive prices. */
  lemma LevelsWithinWindow(cs: seq<Candle>)
    requires |cs| >= LevelWindow && PositivePrices(cs)
    ensures var lows := Recent(Lows(cs), LevelWindow);
      0.0 < SeqMin(lows) <= SupportPrice(cs) <= SeqMax(lows)
    ensures var highs := Recent(Highs(cs), LevelWindow);
      0.0 < SeqMin(highs) <= ResistancePrice(cs) <= SeqMax(highs)
  {
    WindowsPositive(cs);
    assert SeqMin(Recent(Lows(cs), LevelWindow)) in Recent(Lows(cs), LevelWindow);
    assert SeqMin(Recent(Highs(cs), LevelWindow)) in Recent(Highs(cs), LevelWindow);
  }

  lemma WindowsPositive(cs: seq<Candle>)
    requires |cs| >= LevelWindow && PositivePrices(cs)
    ensures forall i :: 0 <= i < LevelWindow ==> Recent(Lows(cs), LevelWindow)[i] > 0.0
    ensures forall i :: 0 <= i < LevelWindow ==> Recent(Highs(cs), LevelWindow)[i] > 0.0
  {
    var lows, highs := Recent(Lows(cs), LevelWindow), Recent(Highs(cs), LevelWindow);
    assert forall i :: 0 <= i < LevelWindow ==> lows[i] == cs[|cs| - LevelWindow + i].low;
    assert forall i :: 0 <= i < LevelWindow ==> highs[i] == cs[|cs| - LevelWindow + i].high;
  }

  /** Being near a positive level puts the stop on the losing side: within
      2% of the support the close is above 98% of it, within 2% of the
      resistance it is below 102% of it. */
  lemma LevelSignalShape(current: real, level: real)
    requires current > 0.0 && level > 0.0 && Near(current, level)
    ensures var s := SupportAt(current, level);
      HasFixedConstants(s) && StopProtects(s) && TargetProfits(s)
    ensures var s := ResistanceAt(current, level);
      HasFixedConstants(s) && StopProtects(s) && TargetProfits(s)
  {
  }

  /** Signals for positive levels enter at the close with stop and target
      on the correct sides. */
  lemma LevelSignalsOriented(current: real, support: real, resistance: real)
    requires current > 0.0 && support > 0.0 && resistance > 0.0
    ensures forall s :: s in LevelSignals(current, support, resistance) ==>
      s.entry == current && HasFixedConstants(s) && StopProtects(s) && TargetProfits(s)
  {
    if Near(current, support) {
      LevelSignalShape(current, support);
    }
    if Near(current, resistance) {
      LevelSignalShape(current, resistance);
    }
    LevelSignalsOutcome(current, support, resistance);
  }

  /** Every support/resistance signal enters at the last close with its stop
      and target on the correct sides. */
  lemma LevelsOriented(cs: seq<Candle>)
    requires PositivePrices(cs)
    ensures forall s :: s in DetectSupportResistance(cs) ==>
      s.entry == LastClose(cs) && HasFixedConstants(s) && StopProtects(s) && TargetProfits(s)
  {
    if |cs| >= LevelWindow {
      LevelsWithinWindow(cs);
      LevelSignalsOriented(LastClose(cs), SupportPrice(cs), ResistancePrice(cs));
    }
  }

  /** Over a window of constant lows and constant highs the support is the
      low and the resistance the high. */
  lemma FlatRange(cs: seq<Candle>, low: real, high: real)
    requires |cs| >= LevelWindow
    requires forall i :: |cs| - LevelWindow <= i < |cs| ==> cs[i].low == low && cs[i].high == high
    ensures SupportPrice(cs) == low && ResistancePrice(cs) == high
  {
    var lows, highs := Recent(Lows(cs), LevelWindow), Recent(Highs(cs), LevelWindow);
    assert forall i :: 0 <= i < LevelWindow ==> lows[i] == cs[|cs| - LevelWindow + i].low;
    assert forall i :: 0 <= i < LevelWindow ==> highs[i] == cs[|cs| - LevelWindow + i].high;
    PercentileOfConstant(lows, SupportRank, low);
    PercentileOfConstant(highs, ResistanceRank, high);
  }

  /** A close within 2% of a positive support, with the resistance more
      than 5% above the support, is not within 2% of the resistance. */
  lemma NearSupportOnly(current: real, support: real, resistance: real)
    requires support > 0.0 && Near(current, support) && resistance > support * 1.05
    ensures LevelSignals(current, support, resistance) == [SupportAt(current, support)]
  {
    assert current < support * 1.02;
    assert resistance - current > NearTolerance * resistance;
  }

  /** A close within 2% of a flat floor of lows, under a flat ceiling of
      highs more than 5% above it, yields the support signal alone. */
  lemma BounceOffFlatFloor(cs: seq<Candle>, low: real, high: real)
    requires |cs| >= LevelWindow && PositivePrices(cs)
    requires forall i :: |cs| - LevelWindow <= i < |cs| ==> cs[i].low == low && cs[i].high == high
    requires Near(LastClose(cs), low) && high > low * 1.05
    ensures DetectSupportResistance(cs) == [SupportAt(LastClose(cs), low)]
  {
    FlatRange(cs, low, high);
    assert low > 0.0 by {
      assert cs[|cs| - 1].low == low;
    }
    NearSupportOnly(LastClose(cs), low, high);
  }
}
