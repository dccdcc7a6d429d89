/** The continuation detectors: the triangle (least-squares trends of the
    last 20 highs and lows) and the flag (a strong move over the last 15
    closes followed by a quiet last 8). Both are pure computations on the
    candle window and are modelled as functions. */
module Continuations {
  import opened PatternTypes
  import opened Stats

  // ---------------------------------------------------------------------
  // Triangle

  const TriangleWindow: nat := 20
  /** A trend whose magnitude is below this counts as flat. */
  const FlatTrend: real := 0.001

  /** Slope of the degree-one fit to the last 20 highs / lows. */
  function HighTrend(cs: seq<Candle>): real
    requires |cs| >= TriangleWindow
  {
    Slope(Recent(Highs(cs), TriangleWindow))
  }

  function LowTrend(cs: seq<Candle>): real
    requires |cs| >= TriangleWindow
  {
    Slope(Recent(Lows(cs), TriangleWindow))
  }

  /** Flat resistance over rising support. */
  predicate AscendingSetup(cs: seq<Candle>)
    requires |cs| >= TriangleWindow
  {
    Abs(HighTrend(cs)) < FlatTrend && LowTrend(cs) > 0.0
  }

  /** Flat support under falling resistance. */
  predicate DescendingSetup(cs: seq<Candle>)
    requires |cs| >= TriangleWindow
  {
    Abs(LowTrend(cs)) < FlatTrend && HighTrend(cs) < 0.0
  }

  /** Stop 2% under the last low, target 5% above the entry. */
  function AscendingSignal(cs: seq<Candle>): Signal
    requires |cs| >= TriangleWindow
  {
    var current := LastClose(cs);
    Signal(AscendingTriangle, Bullish, 65, current, cs[|cs| - 1].low * 0.98, current * 1.05, 2.0)
  }

  /** Stop 2% over the last high, target 5% below the entry. */
  function DescendingSignal(cs: seq<Candle>): Signal
    requires |cs| >= TriangleWindow
  {
    var current := LastClose(cs);
    Signal(DescendingTriangle, Bearish, 65, current, cs[|cs| - 1].high * 1.02, current * 0.95, 2.0)
  }

  /** At most one triangle; the ascending test is tried first. */
  function DetectTriangle(cs: seq<Candle>): (r: seq<Signal>)
    ensures |r| <= 1
    ensures forall s :: s in r ==>
      |cs| >= TriangleWindow && s.entry == LastClose(cs) && HasFixedConstants(s)
      && (s.pattern == AscendingTriangle || s.pattern == DescendingTriangle)
  {
    if |cs| < TriangleWindow then []
    else if AscendingSetup(cs) then [AscendingSignal(cs)]
    else if DescendingSetup(cs) then [DescendingSignal(cs)]
    else []
  }

  /** Nothing below 20 candles; otherwise an ascending triangle exactly when
      its test holds, a descending one exactly when its test holds and the
      ascending test does not, and nothing when neither holds. */
  lemma TriangleOutcome(cs: seq<Candle>)
    ensures |DetectTriangle(cs)| <= 1
    ensures forall s :: s in DetectTriangle(cs) ==> s.pattern == AscendingTriangle || s.pattern == DescendingTriangle
    ensures |cs| < TriangleWindow ==> DetectTriangle(cs) == []
    ensures |cs| >= TriangleWindow ==>
      (DetectTriangle(cs) == [AscendingSignal(cs)] <==> AscendingSetup(cs))
      && (DetectTriangle(cs) == [DescendingSignal(cs)] <==> !AscendingSetup(cs) && DescendingSetup(cs))
      && (DetectTriangle(cs) == [] <==> !AscendingSetup(cs) && !DescendingSetup(cs))
  {
  }

  /** With positive, well-formed candles a triangle's stop and target lie on
      the correct sides of the entry: the last low is at or below the last
      close, the last high at or above it. */
  lemma TriangleOriented(cs: seq<Candle>)
    requires PositivePrices(cs) && WellFormed(cs)
    ensures forall s :: s in DetectTriangle(cs) ==>
      s.entry == LastClose(cs) && HasFixedConstants(s) && StopProtects(s) && TargetProfits(s)
  {
    if |cs| > 0 {
      var last := cs[|cs| - 1];
      assert last.low <= last.close <= last.high && last.low > 0.0;
    }
  }

  /** Perfectly flat highs over strictly rising lows form an ascending
      triangle. */
  lemma FlatTopRisingBottom(cs: seq<Candle>, h: real)
    requires |cs| >= TriangleWindow
    requires forall i :: |cs| - TriangleWindow <= i < |cs| ==> cs[i].high == h
    requires StrictlyIncreasing(Recent(Lows(cs), TriangleWindow))
    ensures DetectTriangle(cs) == [AscendingSignal(cs)]
  {
    var hs := Recent(Highs(cs), TriangleWindow);
    assert forall i :: 0 <= i < |hs| ==> hs[i] == cs[|cs| - TriangleWindow + i].high;
    SlopeOfConstant(hs, h);
    SlopeOfIncreasing(Recent(Lows(cs), TriangleWindow));
  }

  /** Perfectly flat lows under strictly falling highs form a descending
      triangle. */
  lemma FlatBottomFallingTop(cs: seq<Candle>, l: real)
    requires |cs| >= TriangleWindow
    requires forall i :: |cs| - TriangleWindow <= i < |cs| ==> cs[i].low == l
    requires StrictlyDecreasing(Recent(Highs(cs), TriangleWindow))
    ensures DetectTriangle(cs) == [DescendingSignal(cs)]
  {
    var ls := Recent(Lows(cs), TriangleWindow);
    assert forall i :: 0 <= i < |ls| ==> ls[i] == cs[|cs| - TriangleWindow + i].low;
    SlopeOfConstant(ls, l);
    SlopeOfDecreasing(Recent(Highs(cs), TriangleWindow));
  }

  // ---------------------------------------------------------------------
  // Flag

  const FlagWindow: nat := 15
  const ConsolidationWindow: nat := 8
  const StrongMoveLimit: real := 0.05

  /** The last 15 closes. */
  function FlagCloses(cs: seq<Candle>): seq<real>
    requires |cs| >= FlagWindow
  {
    Recent(Closes(cs), FlagWindow)
  }

  /** Relative change from the first to the last of the last 15 closes. */
  function PriceChange(cs: seq<Candle>): real
    requires |cs| >= FlagWindow && PositivePrices(cs)
  {
    var recent := FlagCloses(cs);
    assert recent[0] == cs[|cs| - FlagWindow].close;
    (recent[FlagWindow - 1] - recent[0]) / recent[0]
  }

  /** The last 8 closes, where the flag consolidates. */
  function Consolidation(cs: seq<Candle>): seq<real>
    requires |cs| >= FlagWindow
  {
    FlagCloses(cs)[FlagWindow - ConsolidationWindow..]
  }

  predicate StrongMove(cs: seq<Candle>)
    requires |cs| >= FlagWindow && PositivePrices(cs)
  {
    Abs(PriceChange(cs)) > StrongMoveLimit
  }

  /** Standard deviation under 2% of the mean over the consolidation, in
      the squared form of LowVolatility. */
  predicate Consolidating(cs: seq<Candle>)
    requires |cs| >= FlagWindow
  {
    LowVolatility(Consolidation(cs))
  }

  /** Stop 2% under the consolidation low, target 6% above the entry. */
  function BullFlagAt(current: real, low: real): Signal {
    Signal(BullFlag, Bullish, 70, current, low * 0.98, current * 1.06, 2.5)
  }

  /** Stop 2% over the consolidation high, target 6% below the entry. */
  function BearFlagAt(current: real, high: real): Signal {
    Signal(BearFlag, Bearish, 70, current, high * 1.02, current * 0.94, 2.5)
  }

  function BullFlagSignal(cs: seq<Candle>): Signal
    requires |cs| >= FlagWindow
  {
    BullFlagAt(LastClose(cs), SeqMin(Consolidation(cs)))
  }

  function BearFlagSignal(cs: seq<Candle>): Signal
    requires |cs| >= FlagWindow
  {
    BearFlagAt(LastClose(cs), SeqMax(Consolidation(cs)))
  }

  /** With a positive low at or below the entry and a high at or above it,
      both flag signals put stop and target on the correct sides. */
  lemma FlagSignalShape(current: real, low: real, high: real)
    requires 0.0 < low <= current <= high
    ensures var bull := BullFlagAt(current, low);
      HasFixedConstants(bull) && StopProtects(bull) && TargetProfits(bull)
    ensures var bear := BearFlagAt(current, high);
      HasFixedConstants(bear) && StopProtects(bear) && TargetProfits(bear)
  {
  }

  /** At most one flag, bull for an upward move and bear otherwise. */
  function DetectFlag(cs: seq<Candle>): (r: seq<Signal>)
    requires PositivePrices(cs)
    ensures |r| <= 1
    ensures forall s :: s in r ==>
      |cs| >= FlagWindow && s.entry == LastClose(cs) && HasFixedConstants(s)
      && (s.pattern == BullFlag || s.pattern == BearFlag)
  {
    if |cs| < FlagWindow then []
    else if StrongMove(cs) && Consolidating(cs) then
      if PriceChange(cs) > 0.0 then [BullFlagSignal(cs)] else [BearFlagSignal(cs)]
    else []
  }

  /** Nothing below 15 candles; otherwise a bull flag exactly when the move
      is strong and upward and the consolidation quiet, a bear flag exactly
      when it is strong and not upward and the consolidation quiet. */
  lemma FlagOutcome(cs: seq<Candle>)
    requires PositivePrices(cs)
    ensures |DetectFlag(cs)| <= 1
    ensures |cs| < FlagWindow ==> DetectFlag(cs) == []
    ensures |cs| >= FlagWindow ==>
      (DetectFlag(cs) == [BullFlagSignal(cs)] <==> StrongMove(cs) && Consolidating(cs) && PriceChange(cs) > 0.0)
      && (DetectFlag(cs) == [BearFlagSignal(cs)] <==> StrongMove(cs) && Consolidating(cs) && PriceChange(cs) <= 0.0)
      && (DetectFlag(cs) == [] <==> !(StrongMove(cs) && Consolidating(cs)))
  {
  }

  /** The flag detector reports nothing, one bull flag or one bear flag. */
  lemma FlagShape(cs: seq<Candle>)
    requires PositivePrices(cs)
    ensures |DetectFlag(cs)| <= 1
    ensures |cs| >= FlagWindow ==>
      DetectFlag(cs) == [] || DetectFlag(cs) == [BullFlagSignal(cs)] || DetectFlag(cs) == [BearFlagSignal(cs)]
    ensures forall s :: s in DetectFlag(cs) ==> s.pattern == BullFlag || s.pattern == BearFlag
  {
    if |cs| >= FlagWindow && StrongMove(cs) && Consolidating(cs) {
      if PriceChange(cs) > 0.0 {
        assert DetectFlag(cs) == [BullFlagAt(LastClose(cs), SeqMin(Consolidation(cs)))];
      } else {
        assert DetectFlag(cs) == [BearFlagAt(LastClose(cs), SeqMax(Consolidation(cs)))];
      }
    }
  }

  /** A strong move is the last of the 15 closes lying more than 5% above or
      more than 5% below the first. */
  lemma StrongMoveMeans(cs: seq<Candle>)
    requires |cs| >= FlagWindow && PositivePrices(cs)
    ensures var first, last := cs[|cs| - FlagWindow].close, cs[|cs| - 1].close;
      (StrongMove(cs) <==> last > first * 1.05 || last < first * 0.95)
      && (PriceChange(cs) > 0.0 <==> last > first)
  {
    var recent := FlagCloses(cs);
    var first, last := recent[0], recent[FlagWindow - 1];
    assert first == cs[|cs| - FlagWindow].close && last == cs[|cs| - 1].close;
    QuotientCompare(last - first, first, StrongMoveLimit);
    QuotientCompare(last - first, first, -StrongMoveLimit);
    QuotientCompare(last - first, first, 0.0);
  }

  /** The squared test agrees with detect_flag's volatility ratio
      np.std(...) / np.mean(...): for the population standard deviation sd
      of the consolidation closes, sd / mean < 0.02 exactly when the flag
      consolidates. */
  lemma ConsolidatingIsRatio(cs: seq<Candle>, sd: real)
    requires |cs| >= FlagWindow && PositivePrices(cs)
    requires sd >= 0.0 && Square(sd) == Variance(Consolidation(cs))
    ensures Mean(Consolidation(cs)) > 0.0
    ensures sd / Mean(Consolidation(cs)) < VolatilityLimit <==> Consolidating(cs)
  {
    ConsolidationBrackets(cs);
    VolatilityRatio(Consolidation(cs), sd);
  }

  /** The consolidation closes are the last 8 closes; the last of them is
      the entry, so it lies between their minimum and maximum, and the
      minimum is positive when the prices are. */
  lemma ConsolidationBrackets(cs: seq<Candle>)
    requires |cs| >= FlagWindow && PositivePrices(cs)
    ensures forall i :: 0 <= i < ConsolidationWindow ==> Consolidation(cs)[i] > 0.0
    ensures SeqMin(Consolidation(cs)) > 0.0
    ensures SeqMin(Consolidation(cs)) <= LastClose(cs) <= SeqMax(Consolidation(cs))
  {
    var window := Consolidation(cs);
    assert forall i :: 0 <= i < |window| ==> window[i] == cs[|cs| - ConsolidationWindow + i].close;
    assert window[ConsolidationWindow - 1] == LastClose(cs);
  }

  /** A flag's stop and target lie on the correct sides of the entry. */
  lemma FlagOriented(cs: seq<Candle>)
    requires PositivePrices(cs)
    ensures forall s :: s in DetectFlag(cs) ==>
      s.entry == LastClose(cs) && HasFixedConstants(s) && StopProtects(s) && TargetProfits(s)
  {
    if |cs| >= FlagWindow {
      var bull, bear := BullFlagSignal(cs), BearFlagSignal(cs);
      ConsolidationBrackets(cs);
      FlagSignalShape(LastClose(cs), SeqMin(Consolidation(cs)), SeqMax(Consolidation(cs)));
      FlagShape(cs);
      OneOfOriented(DetectFlag(cs), bull, bear, LastClose(cs));
    }
  }

  /** A list that is empty or holds one of two well-placed signals at the
      given entry holds only well-placed signals at that entry. */
  lemma OneOfOriented(ss: seq<Signal>, a: Signal, b: Signal, entry: real)
    requires ss == [] || ss == [a] || ss == [b]
    requires a.entry == entry && HasFixedConstants(a) && StopProtects(a) && TargetProfits(a)
    requires b.entry == entry && HasFixedConstants(b) && StopProtects(b) && TargetProfits(b)
    ensures forall s :: s in ss ==>
      s.entry == entry && HasFixedConstants(s) && StopProtects(s) && TargetProfits(s)
  {
  }

  /** A rise of more than 5% whose last 8 closes stay within 1% above some
      level is a bull flag. */
  lemma TightBullFlag(cs: seq<Candle>, lo: real)
    requires |cs| >= FlagWindow && PositivePrices(cs) && lo > 0.0
    requires cs[|cs| - 1].close > cs[|cs| - FlagWindow].close * 1.05
    requires forall i :: |cs| - ConsolidationWindow <= i < |cs| ==> lo <= cs[i].close <= 1.01 * lo
    ensures DetectFlag(cs) == [BullFlagSignal(cs)]
  {
    var window := Consolidation(cs);
    assert forall i :: 0 <= i < |window| ==> window[i] == cs[|cs| - ConsolidationWindow + i].close;
    TightBandIsLowVolatility(window, lo);
    StrongMoveMeans(cs);
  }

  /** A fall of more than 5% whose last 8 closes stay within 1% above some
      level is a bear flag. */
  lemma TightBearFlag(cs: seq<Candle>, lo: real)
    requires |cs| >= FlagWindow && PositivePrices(cs) && lo > 0.0
    requires cs[|cs| - 1].close < cs[|cs| - FlagWindow].close * 0.95
    requires forall i :: |cs| - ConsolidationWindow <= i < |cs| ==> lo <= cs[i].close <= 1.01 * lo
    ensures DetectFlag(cs) == [BearFlagSignal(cs)]
  {
    var window := Consolidation(cs);
    assert forall i :: 0 <= i < |window| ==> window[i] == cs[|cs| - ConsolidationWindow + i].close;
    TightBandIsLowVolatility(window, lo);
    StrongMoveMeans(cs);
  }
}
