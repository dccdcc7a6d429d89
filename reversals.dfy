/** The reversal detectors built on the extrema scan: double top, double
    bottom (adjacent pairs of extrema at nearly the same level) and head and
    shoulders (consecutive triples of peaks). Each detector is a method that
    runs the scan and then the pair or triple loop, proved equal to a scan
    function on which the detector's properties are stated. */
module Reversals {
  import opened PatternTypes
  import opened Extrema
  import opened Stats

  /** The two levels differ by less than the tolerance relative to their
      average, |p1 - p2| / ((p1 + p2) / 2) < tolerance, stated with the
      division multiplied out (lemma WithinIsRatio). */
  predicate Within(p1: real, p2: real, tolerance: real) {
    Abs(p1 - p2) < tolerance * ((p1 + p2) / 2.0)
  }

  /** For positive levels the multiplied-out test is the ratio test the
      detectors compute. */
  lemma WithinIsRatio(p1: real, p2: real, tolerance: real)
    requires p1 > 0.0 && p2 > 0.0
    ensures Abs(p1 - p2) / ((p1 + p2) / 2.0) < tolerance <==> Within(p1, p2, tolerance)
  {
    QuotientCompare(Abs(p1 - p2), (p1 + p2) / 2.0, tolerance);
  }

  const TwinTolerance: real := 0.02
  const ShoulderTolerance: real := 0.03

  /** The peaks of the highs and the troughs of the lows. */
  function Peaks(cs: seq<Candle>): seq<Extremum> {
    ExtremaOf(Highs(cs), Peak)
  }

  function Troughs(cs: seq<Candle>): seq<Extremum> {
    ExtremaOf(Lows(cs), Trough)
  }

  lemma PeaksAndTroughsPositive(cs: seq<Candle>)
    requires PositivePrices(cs)
    ensures PositiveExtrema(Peaks(cs)) && PositiveExtrema(Troughs(cs))
  {
    ExtremaPositive(Highs(cs), Peak);
    ExtremaPositive(Lows(cs), Trough);
  }

  // ---------------------------------------------------------------------
  // Exact listing of a scan's output

  /** out holds, one for one and in strictly increasing order of the
      positions js, the items at exactly the positions whose flag is set. */
  predicate Lists(flags: seq<bool>, items: seq<Signal>, js: seq<nat>, out: seq<Signal>)
    requires |flags| == |items|
  {
    |out| == |js|
    && (forall m :: 0 <= m < |js| ==> js[m] < |flags| && flags[js[m]] && out[m] == items[js[m]])
    && (forall m, m' :: 0 <= m < m' < |js| ==> js[m] < js[m'])
    && (forall j :: 0 <= j < |flags| && flags[j] ==> j in js)
  }

  /** One more position: a set flag appends its position and its item. */
  lemma ListsStep(flags: seq<bool>, items: seq<Signal>, js: seq<nat>, out: seq<Signal>, f: bool, item: Signal)
    requires |flags| == |items| && Lists(flags, items, js, out)
    ensures Lists(flags + [f], items + [item], js + (if f then [|flags|] else []),
                  out + (if f then [item] else []))
  {
    var flags', items' := flags + [f], items + [item];
    assert forall j :: 0 <= j < |flags| ==> flags'[j] == flags[j] && items'[j] == items[j];
    if f {
      var js', out' := js + [|flags|], out + [item];
      assert forall m :: 0 <= m < |js| ==> js'[m] == js[m] && out'[m] == out[m];
      assert js'[|js|] == |flags| && out'[|js|] == item;
      assert forall j :: j in js ==> j in js';
    }
  }

  // ---------------------------------------------------------------------
  // Double top and double bottom

  /** Which twin formation: two peaks (top) or two troughs (bottom). */
  datatype Twin = Top | Bottom

  /** Resistance (the higher peak) for a top, support (the lower trough)
      for a bottom. */
  function TwinLevel(twin: Twin, p1: real, p2: real): real {
    match twin
    case Top => Max(p1, p2)
    case Bottom => Min(p1, p2)
  }

  /** The pair is within 2% and the last close has broken 2% beyond the
      level: below 98% of resistance, or above 102% of support. */
  predicate TwinFires(twin: Twin, p1: real, p2: real, current: real) {
    Within(p1, p2, TwinTolerance)
    && match twin
       case Top => current < TwinLevel(twin, p1, p2) * 0.98
       case Bottom => current > TwinLevel(twin, p1, p2) * 1.02
  }

  function TwinSignal(twin: Twin, level: real, current: real): Signal {
    match twin
    case Top => Signal(DoubleTop, Bearish, 75, current, level * 1.01, current * 0.94, 2.5)
    case Bottom => Signal(DoubleBottom, Bullish, 75, current, level * 0.99, current * 1.06, 2.5)
  }

  /** The pair (ext[j], ext[j + 1]) qualifies. */
  predicate PairFires(twin: Twin, ext: seq<Extremum>, current: real, j: int)
    requires 0 <= j && j + 1 < |ext|
  {
    TwinFires(twin, ext[j].price, ext[j + 1].price, current)
  }

  /** The signal the pair (ext[j], ext[j + 1]) yields when it qualifies. */
  function PairSignal(twin: Twin, ext: seq<Extremum>, current: real, j: int): Signal
    requires 0 <= j && j + 1 < |ext|
  {
    TwinSignal(twin, TwinLevel(twin, ext[j].price, ext[j + 1].price), current)
  }

  /** Number of adjacent pairs in a list of n extrema. */
  function PairCount(n: nat): nat {
    if n >= 2 then n - 1 else 0
  }

  /** The signals of the first k adjacent pairs, in scan order. */
  function TwinScan(twin: Twin, ext: seq<Extremum>, current: real, k: nat): seq<Signal>
    requires k == 0 || k < |ext|
  {
    if k == 0 then []
    else
      TwinScan(twin, ext, current, k - 1)
      + (if PairFires(twin, ext, current, k - 1) then [PairSignal(twin, ext, current, k - 1)] else [])
  }

  function DoubleTopSignals(cs: seq<Candle>): seq<Signal> {
    if |cs| < 20 then []
    else TwinScan(Top, Peaks(cs), LastClose(cs), PairCount(|Peaks(cs)|))
  }

  function DoubleBottomSignals(cs: seq<Candle>): seq<Signal> {
    if |cs| < 20 then []
    else TwinScan(Bottom, Troughs(cs), LastClose(cs), PairCount(|Troughs(cs)|))
  }

  method DetectDoubleTop(cs: seq<Candle>) returns (patterns: seq<Signal>)
    requires PositivePrices(cs)
    ensures patterns == DoubleTopSignals(cs)
  {
    patterns := [];
    var highs := Highs(cs);
    var closes := Closes(cs);
    if |highs| < 20 {
      return;
    }
    var peaks := FindExtrema(highs, Peak);
    if |peaks| >= 2 {
      var i := 0;
      while i < |peaks| - 1
        invariant 0 <= i <= |peaks| - 1
        invariant patterns == TwinScan(Top, peaks, LastClose(cs), i)
      {
        var peak1, peak2 := peaks[i], peaks[i + 1];
        var priceDiff := Abs(peak1.price - peak2.price);
        var avgPrice := (peak1.price + peak2.price) / 2.0;
        // the ratio test priceDiff / avgPrice < 0.02, multiplied out by the positive
        // average (lemma WithinIsRatio)
        if priceDiff < 0.02 * avgPrice {
          var currentPrice := closes[|closes| - 1];
          var resistance := Max(peak1.price, peak2.price);
          if currentPrice < resistance * 0.98 {
            patterns := patterns + [Signal(DoubleTop, Bearish, 75, currentPrice,
                                           resistance * 1.01, currentPrice * 0.94, 2.5)];
          }
        }
        i := i + 1;
      }
    }
  }

  method DetectDoubleBottom(cs: seq<Candle>) returns (patterns: seq<Signal>)
    requires PositivePrices(cs)
    ensures patterns == DoubleBottomSignals(cs)
  {
    patterns := [];
    var lows := Lows(cs);
    var closes := Closes(cs);
    if |lows| < 20 {
      return;
    }
    var troughs := FindExtrema(lows, Trough);
    if |troughs| >= 2 {
      var i := 0;
      while i < |troughs| - 1
        invariant 0 <= i <= |troughs| - 1
        invariant patterns == TwinScan(Bottom, troughs, LastClose(cs), i)
      {
        var trough1, trough2 := troughs[i], troughs[i + 1];
        var priceDiff := Abs(trough1.price - trough2.price);
        var avgPrice := (trough1.price + trough2.price) / 2.0;
        // the ratio test priceDiff / avgPrice < 0.02, multiplied out by the positive
        // average (lemma WithinIsRatio)
        if priceDiff < 0.02 * avgPrice {
          var currentPrice := closes[|closes| - 1];
          var support := Min(trough1.price, trough2.price);
          if currentPrice > support * 1.02 {
            patterns := patterns + [Signal(DoubleBottom, Bullish, 75, currentPrice,
                                           support * 0.99, currentPrice * 1.06, 2.5)];
          }
        }
        i := i + 1;
      }
    }
  }

  /** A twin signal has its pattern's fixed constants and brackets the entry:
      for a top, target < entry < stop; for a bottom, stop < entry < target. */
  lemma TwinSignalOriented(twin: Twin, p1: real, p2: real, current: real)
    requires p1 > 0.0 && p2 > 0.0 && current > 0.0
    requires TwinFires(twin, p1, p2, current)
    ensures var s := TwinSignal(twin, TwinLevel(twin, p1, p2), current);
      HasFixedConstants(s) && StopProtects(s) && TargetProfits(s)
  {
  }

  /** What the pair scan emits: at most one signal per pair; each signal comes
      from a pair that qualifies; every pair that qualifies contributes its
      signal. */
  lemma {:induction false} TwinScanFacts(twin: Twin, ext: seq<Extremum>, current: real, k: nat)
    requires k == 0 || k < |ext|
    ensures |TwinScan(twin, ext, current, k)| <= k
    ensures forall s :: s in TwinScan(twin, ext, current, k) ==>
      exists j :: 0 <= j < k && PairFires(twin, ext, current, j) && s == PairSignal(twin, ext, current, j)
    ensures forall j :: 0 <= j < k && PairFires(twin, ext, current, j) ==>
      PairSignal(twin, ext, current, j) in TwinScan(twin, ext, current, k)
  {
    if k > 0 {
      TwinScanFacts(twin, ext, current, k - 1);
    }
  }

  /** Whether each of the first k pairs fires. */
  function PairFlags(twin: Twin, ext: seq<Extremum>, current: real, k: nat): (flags: seq<bool>)
    requires k == 0 || k < |ext|
    ensures |flags| == k
  {
    if k == 0 then [] else PairFlags(twin, ext, current, k - 1) + [PairFires(twin, ext, current, k - 1)]
  }

  /** The signal each of the first k pairs would give. */
  function PairSignals(twin: Twin, ext: seq<Extremum>, current: real, k: nat): (items: seq<Signal>)
    requires k == 0 || k < |ext|
    ensures |items| == k
  {
    if k == 0 then [] else PairSignals(twin, ext, current, k - 1) + [PairSignal(twin, ext, current, k - 1)]
  }

  lemma {:induction false} PairTable(twin: Twin, ext: seq<Extremum>, current: real, k: nat)
    requires k == 0 || k < |ext|
    ensures forall j :: 0 <= j < k ==>
      PairFlags(twin, ext, current, k)[j] == PairFires(twin, ext, current, j)
      && PairSignals(twin, ext, current, k)[j] == PairSignal(twin, ext, current, j)
  {
    if k > 0 {
      PairTable(twin, ext, current, k - 1);
      var flags, items := PairFlags(twin, ext, current, k - 1), PairSignals(twin, ext, current, k - 1);
      assert PairFlags(twin, ext, current, k) == flags + [PairFires(twin, ext, current, k - 1)];
      assert PairSignals(twin, ext, current, k) == items + [PairSignal(twin, ext, current, k - 1)];
    }
  }

  /** The positions of the pairs among the first k that fire, in scan
      order. */
  function FiringPairs(twin: Twin, ext: seq<Extremum>, current: real, k: nat): seq<nat>
    requires k == 0 || k < |ext|
  {
    if k == 0 then []
    else
      FiringPairs(twin, ext, current, k - 1)
      + (if PairFires(twin, ext, current, k - 1) then [k - 1] else [])
  }

  /** The pair scan emits, in scan order, the signal of each pair that
      fires and nothing else. */
  lemma {:induction false} TwinScanExact(twin: Twin, ext: seq<Extremum>, current: real, k: nat)
    requires k == 0 || k < |ext|
    ensures Lists(PairFlags(twin, ext, current, k), PairSignals(twin, ext, current, k),
                  FiringPairs(twin, ext, current, k), TwinScan(twin, ext, current, k))
  {
    if k > 0 {
      TwinScanExact(twin, ext, current, k - 1);
      ListsStep(PairFlags(twin, ext, current, k - 1), PairSignals(twin, ext, current, k - 1),
                FiringPairs(twin, ext, current, k - 1), TwinScan(twin, ext, current, k - 1),
                PairFires(twin, ext, current, k - 1), PairSignal(twin, ext, current, k - 1));
    }
  }

  /** Every signal of a twin scan over positive extrema with a positive last
      close is oriented. */
  lemma TwinScanOriented(twin: Twin, ext: seq<Extremum>, current: real, k: nat)
    requires k == 0 || k < |ext|
    requires PositiveExtrema(ext) && current > 0.0
    ensures forall s :: s in TwinScan(twin, ext, current, k) ==>
      HasFixedConstants(s) && StopProtects(s) && TargetProfits(s)
  {
    TwinScanFacts(twin, ext, current, k);
    forall s | s in TwinScan(twin, ext, current, k)
      ensures HasFixedConstants(s) && StopProtects(s) && TargetProfits(s)
    {
      var j :| 0 <= j < k && PairFires(twin, ext, current, j) && s == PairSignal(twin, ext, current, j);
      TwinSignalOriented(twin, ext[j].price, ext[j + 1].price, current);
    }
  }

  /** Double top lists, in scan order, the signal of exactly the pairs that
      fire. */
  lemma DoubleTopListing(cs: seq<Candle>)
    ensures |cs| >= 20 ==>
      var ext, current, k := Peaks(cs), LastClose(cs), PairCount(|Peaks(cs)|);
      Lists(PairFlags(Top, ext, current, k), PairSignals(Top, ext, current, k),
            FiringPairs(Top, ext, current, k), DoubleTopSignals(cs))
      && forall j :: 0 <= j < k ==>
           PairFlags(Top, ext, current, k)[j] == PairFires(Top, ext, current, j)
           && PairSignals(Top, ext, current, k)[j] == PairSignal(Top, ext, current, j)
  {
    if |cs| >= 20 {
      TwinScanExact(Top, Peaks(cs), LastClose(cs), PairCount(|Peaks(cs)|));
      PairTable(Top, Peaks(cs), LastClose(cs), PairCount(|Peaks(cs)|));
    }
  }

  /** Double top: nothing below 20 candles; at most one bearish signal per
      adjacent pair of peaks, each from a pair within 2% whose resistance the
      last close sits more than 2% below, entered at the last close with its
      stop above and its target below; every qualifying pair yields one, and
      the list holds exactly those signals in scan order. */
  lemma DoubleTopProperties(cs: seq<Candle>)
    requires PositivePrices(cs)
    ensures |cs| < 20 ==> DoubleTopSignals(cs) == []
    ensures |DoubleTopSignals(cs)| <= PairCount(|Peaks(cs)|)
    ensures forall s :: s in DoubleTopSignals(cs) ==>
      |cs| >= 20 && s.pattern == DoubleTop && s.entry == LastClose(cs)
      && HasFixedConstants(s) && StopProtects(s) && TargetProfits(s)
      && (exists j :: 0 <= j < PairCount(|Peaks(cs)|) && PairFires(Top, Peaks(cs), LastClose(cs), j)
                      && s == PairSignal(Top, Peaks(cs), LastClose(cs), j))
    ensures |cs| >= 20 ==> forall j ::
      0 <= j < PairCount(|Peaks(cs)|) && PairFires(Top, Peaks(cs), LastClose(cs), j) ==>
      PairSignal(Top, Peaks(cs), LastClose(cs), j) in DoubleTopSignals(cs)
    ensures |cs| >= 20 ==>
      var ext, current, k := Peaks(cs), LastClose(cs), PairCount(|Peaks(cs)|);
      Lists(PairFlags(Top, ext, current, k), PairSignals(Top, ext, current, k),
            FiringPairs(Top, ext, current, k), DoubleTopSignals(cs))
      && forall j :: 0 <= j < k ==>
           PairFlags(Top, ext, current, k)[j] == PairFires(Top, ext, current, j)
           && PairSignals(Top, ext, current, k)[j] == PairSignal(Top, ext, current, j)
  {
    if |cs| >= 20 {
      PeaksAndTroughsPositive(cs);
      TwinScanFacts(Top, Peaks(cs), LastClose(cs), PairCount(|Peaks(cs)|));
      TwinScanOriented(Top, Peaks(cs), LastClose(cs), PairCount(|Peaks(cs)|));
    }
    DoubleTopListing(cs);
  }

  /** Double bottom lists, in scan order, the signal of exactly the pairs that
      fire. */
  lemma DoubleBottomListing(cs: seq<Candle>)
    ensures |cs| >= 20 ==>
      var ext, current, k := Troughs(cs), LastClose(cs), PairCount(|Troughs(cs)|);
      Lists(PairFlags(Bottom, ext, current, k), PairSignals(Bottom, ext, current, k),
            FiringPairs(Bottom, ext, current, k), DoubleBottomSignals(cs))
      && forall j :: 0 <= j < k ==>
           PairFlags(Bottom, ext, current, k)[j] == PairFires(Bottom, ext, current, j)
           && PairSignals(Bottom, ext, current, k)[j] == PairSignal(Bottom, ext, current, j)
  {
    if |cs| >= 20 {
      TwinScanExact(Bottom, Troughs(cs), LastClose(cs), PairCount(|Troughs(cs)|));
      PairTable(Bottom, Troughs(cs), LastClose(cs), PairCount(|Troughs(cs)|));
    }
  }

  /** Double bottom, the mirror: bullish signals from pairs of troughs
      within 2% whose support the last close sits more than 2% above. */
  lemma DoubleBottomProperties(cs: seq<Candle>)
    requires PositivePrices(cs)
    ensures |cs| < 20 ==> DoubleBottomSignals(cs) == []
    ensures |DoubleBottomSignals(cs)| <= PairCount(|Troughs(cs)|)
    ensures forall s :: s in DoubleBottomSignals(cs) ==>
      |cs| >= 20 && s.pattern == DoubleBottom && s.entry == LastClose(cs)
      && HasFixedConstants(s) && StopProtects(s) && TargetProfits(s)
      && (exists j :: 0 <= j < PairCount(|Troughs(cs)|) && PairFires(Bottom, Troughs(cs), LastClose(cs), j)
                      && s == PairSignal(Bottom, Troughs(cs), LastClose(cs), j))
    ensures |cs| >= 20 ==> forall j ::
      0 <= j < PairCount(|Troughs(cs)|) && PairFires(Bottom, Troughs(cs), LastClose(cs), j) ==>
      PairSignal(Bottom, Troughs(cs), LastClose(cs), j) in DoubleBottomSignals(cs)
    ensures |cs| >= 20 ==>
      var ext, current, k := Troughs(cs), LastClose(cs), PairCount(|Troughs(cs)|);
      Lists(PairFlags(Bottom, ext, current, k), PairSignals(Bottom, ext, current, k),
            FiringPairs(Bottom, ext, current, k), DoubleBottomSignals(cs))
      && forall j :: 0 <= j < k ==>
           PairFlags(Bottom, ext, current, k)[j] == PairFires(Bottom, ext, current, j)
           && PairSignals(Bottom, ext, current, k)[j] == PairSignal(Bottom, ext, current, j)
  {
    if |cs| >= 20 {
      PeaksAndTroughsPositive(cs);
      TwinScanFacts(Bottom, Troughs(cs), LastClose(cs), PairCount(|Troughs(cs)|));
      TwinScanOriented(Bottom, Troughs(cs), LastClose(cs), PairCount(|Troughs(cs)|));
    }
    DoubleBottomListing(cs);
  }

  // ---------------------------------------------------------------------
  // Head and shoulders

  /** 98% of the shoulders' average. */
  function Neckline(left: real, right: real): real {
    (left + right) / 2.0 * 0.98
  }

  /** The head is above both shoulders, the shoulders are within 3% and the
      last close is below the neckline. */
  predicate ShouldersFire(left: real, head: real, right: real, current: real) {
    head > left && head > right && Within(left, right, ShoulderTolerance)
    && current < Neckline(left, right)
  }

  /** Measured move: the target lies as far below the neckline as the head
      lies above it; the stop is 1% above the head. */
  function ShouldersSignal(left: real, head: real, right: real, current: real): Signal {
    var neckline := Neckline(left, right);
    Signal(HeadAndShoulders, Bearish, 80, current, head * 1.01, neckline - (head - neckline), 2.0)
  }

  /** The triple (ext[j], ext[j + 1], ext[j + 2]) qualifies. */
  predicate TripleFires(ext: seq<Extremum>, current: real, j: int)
    requires 0 <= j && j + 2 < |ext|
  {
    ShouldersFire(ext[j].price, ext[j + 1].price, ext[j + 2].price, current)
  }

  function TripleSignal(ext: seq<Extremum>, current: real, j: int): Signal
    requires 0 <= j && j + 2 < |ext|
  {
    ShouldersSignal(ext[j].price, ext[j + 1].price, ext[j + 2].price, current)
  }

  /** Number of consecutive triples in a list of n extrema. */
  function TripleCount(n: nat): nat {
    if n >= 3 then n - 2 else 0
  }

  /** The signals of the first k triples, in scan order. */
  function ShouldersScan(ext: seq<Extremum>, current: real, k: nat): seq<Signal>
    requires k == 0 || k + 1 < |ext|
  {
    if k == 0 then []
    else
      ShouldersScan(ext, current, k - 1)
      + (if TripleFires(ext, current, k - 1) then [TripleSignal(ext, current, k - 1)] else [])
  }

  function HeadShouldersSignals(cs: seq<Candle>): seq<Signal> {
    if |cs| < 30 then []
    else ShouldersScan(Peaks(cs), LastClose(cs), TripleCount(|Peaks(cs)|))
  }

  method DetectHeadShoulders(cs: seq<Candle>) returns (patterns: seq<Signal>)
    requires PositivePrices(cs)
    ensures patterns == HeadShouldersSignals(cs)
  {
    patterns := [];
    var highs := Highs(cs);
    var closes := Closes(cs);
    if |highs| < 30 {
      return;
    }
    var peaks := FindExtrema(highs, Peak);
    if |peaks| >= 3 {
      var i := 0;
      while i < |peaks| - 2
        invariant 0 <= i <= |peaks| - 2
        invariant patterns == ShouldersScan(peaks, LastClose(cs), i)
      {
        var leftShoulder, head, rightShoulder := peaks[i], peaks[i + 1], peaks[i + 2];
        if head.price > leftShoulder.price && head.price > rightShoulder.price {
          var shoulderDiff := Abs(leftShoulder.price - rightShoulder.price);
          var avgShoulder := (leftShoulder.price + rightShoulder.price) / 2.0;
          // the ratio test shoulderDiff / avgShoulder < 0.03, multiplied out by the positive
          // average (lemma WithinIsRatio)
          if shoulderDiff < 0.03 * avgShoulder {
            var currentPrice := closes[|closes| - 1];
            var neckline := avgShoulder * 0.98;
            if currentPrice < neckline {
              patterns := patterns + [Signal(HeadAndShoulders, Bearish, 80, currentPrice,
                                             head.price * 1.01, neckline - (head.price - neckline), 2.0)];
            }
          }
        }
        i := i + 1;
      }
    }
  }

  /** A head-and-shoulders signal has its fixed constants, is entered below
      the neckline with its stop above the entry, and targets a price below
      the neckline. */
  lemma ShouldersSignalShape(left: real, head: real, right: real, current: real)
    requires left > 0.0 && right > 0.0
    requires ShouldersFire(left, head, right, current)
    ensures var s := ShouldersSignal(left, head, right, current);
      HasFixedConstants(s) && StopProtects(s)
      && s.entry < Neckline(left, right) && s.target < Neckline(left, right)
  {
  }

  lemma {:induction false} ShouldersScanFacts(ext: seq<Extremum>, current: real, k: nat)
    requires k == 0 || k + 1 < |ext|
    ensures |ShouldersScan(ext, current, k)| <= k
    ensures forall s :: s in ShouldersScan(ext, current, k) ==>
      exists j :: 0 <= j < k && TripleFires(ext, current, j) && s == TripleSignal(ext, current, j)
    ensures forall j :: 0 <= j < k && TripleFires(ext, current, j) ==>
      TripleSignal(ext, current, j) in ShouldersScan(ext, current, k)
  {
    if k > 0 {
      ShouldersScanFacts(ext, current, k - 1);
    }
  }

  /** Whether each of the first k triples fires. */
  function TripleFlags(ext: seq<Extremum>, current: real, k: nat): (flags: seq<bool>)
    requires k == 0 || k + 1 < |ext|
    ensures |flags| == k
  {
    if k == 0 then [] else TripleFlags(ext, current, k - 1) + [TripleFires(ext, current, k - 1)]
  }

  /** The signal each of the first k triples would give. */
  function TripleSignals(ext: seq<Extremum>, current: real, k: nat): (items: seq<Signal>)
    requires k == 0 || k + 1 < |ext|
    ensures |items| == k
  {
    if k == 0 then [] else TripleSignals(ext, current, k - 1) + [TripleSignal(ext, current, k - 1)]
  }

  lemma {:induction false} TripleTable(ext: seq<Extremum>, current: real, k: nat)
    requires k == 0 || k + 1 < |ext|
    ensures forall j :: 0 <= j < k ==>
      TripleFlags(ext, current, k)[j] == TripleFires(ext, current, j)
      && TripleSignals(ext, current, k)[j] == TripleSignal(ext, current, j)
  {
    if k > 0 {
      TripleTable(ext, current, k - 1);
      var flags, items := TripleFlags(ext, current, k - 1), TripleSignals(ext, current, k - 1);
      assert TripleFlags(ext, current, k) == flags + [TripleFires(ext, current, k - 1)];
      assert TripleSignals(ext, current, k) == items + [TripleSignal(ext, current, k - 1)];
    }
  }

  /** The positions of the triples among the first k that fire, in scan
      order. */
  function FiringTriples(ext: seq<Extremum>, current: real, k: nat): seq<nat>
    requires k == 0 || k + 1 < |ext|
  {
    if k == 0 then []
    else
      FiringTriples(ext, current, k - 1)
      + (if TripleFires(ext, current, k - 1) then [k - 1] else [])
  }

  /** The triple scan emits, in scan order, the signal of each triple that
      fires and nothing else. */
  lemma {:induction false} ShouldersScanExact(ext: seq<Extremum>, current: real, k: nat)
    requires k == 0 || k + 1 < |ext|
    ensures Lists(TripleFlags(ext, current, k), TripleSignals(ext, current, k),
                  FiringTriples(ext, current, k), ShouldersScan(ext, current, k))
  {
    if k > 0 {
      ShouldersScanExact(ext, current, k - 1);
      ListsStep(TripleFlags(ext, current, k - 1), TripleSignals(ext, current, k - 1),
                FiringTriples(ext, current, k - 1), ShouldersScan(ext, current, k - 1),
                TripleFires(ext, current, k - 1), TripleSignal(ext, current, k - 1));
    }
  }

  /** Head and shoulders lists, in scan order, the signal of exactly the
      triples that fire. */
  lemma HeadShouldersListing(cs: seq<Candle>)
    ensures |cs| >= 30 ==>
      var peaks, current, k := Peaks(cs), LastClose(cs), TripleCount(|Peaks(cs)|);
      Lists(TripleFlags(peaks, current, k), TripleSignals(peaks, current, k),
            FiringTriples(peaks, current, k), HeadShouldersSignals(cs))
      && forall j :: 0 <= j < k ==>
           TripleFlags(peaks, current, k)[j] == TripleFires(peaks, current, j)
           && TripleSignals(peaks, current, k)[j] == TripleSignal(peaks, current, j)
  {
    if |cs| >= 30 {
      ShouldersScanExact(Peaks(cs), LastClose(cs), TripleCount(|Peaks(cs)|));
      TripleTable(Peaks(cs), LastClose(cs), TripleCount(|Peaks(cs)|));
    }
  }

  /** Head and shoulders: nothing below 30 candles; at most one bearish
      signal per consecutive triple of peaks, each from a triple whose middle
      peak is the highest and whose shoulders are within 3%, entered at the
      last close below the neckline with its stop above the entry and its
      target below the neckline; every qualifying triple yields one, and the
      list holds exactly those signals in scan order. */
  lemma HeadShouldersProperties(cs: seq<Candle>)
    requires PositivePrices(cs)
    ensures |cs| < 30 ==> HeadShouldersSignals(cs) == []
    ensures |HeadShouldersSignals(cs)| <= TripleCount(|Peaks(cs)|)
    ensures forall s :: s in HeadShouldersSignals(cs) ==>
      |cs| >= 30 && s.pattern == HeadAndShoulders && s.entry == LastClose(cs)
      && HasFixedConstants(s) && StopProtects(s)
      && (exists j :: 0 <= j < TripleCount(|Peaks(cs)|) && TripleFires(Peaks(cs), LastClose(cs), j)
                      && s == TripleSignal(Peaks(cs), LastClose(cs), j)
                      && s.target < Neckline(Peaks(cs)[j].price, Peaks(cs)[j + 2].price))
    ensures |cs| >= 30 ==> forall j ::
      0 <= j < TripleCount(|Peaks(cs)|) && TripleFires(Peaks(cs), LastClose(cs), j) ==>
      TripleSignal(Peaks(cs), LastClose(cs), j) in HeadShouldersSignals(cs)
    ensures |cs| >= 30 ==>
      var peaks, current, k := Peaks(cs), LastClose(cs), TripleCount(|Peaks(cs)|);
      Lists(TripleFlags(peaks, current, k), TripleSignals(peaks, current, k),
            FiringTriples(peaks, current, k), HeadShouldersSignals(cs))
      && forall j :: 0 <= j < k ==>
           TripleFlags(peaks, current, k)[j] == TripleFires(peaks, current, j)
           && TripleSignals(peaks, current, k)[j] == TripleSignal(peaks, current, j)
  {
    if |cs| >= 30 {
      var peaks, current, k := Peaks(cs), LastClose(cs), TripleCount(|Peaks(cs)|);
      PeaksAndTroughsPositive(cs);
      HeadShouldersListing(cs);
      ShouldersScanFacts(peaks, current, k);
      forall s | s in HeadShouldersSignals(cs)
        ensures HasFixedConstants(s) && StopProtects(s)
        ensures exists j :: 0 <= j < k && TripleFires(peaks, current, j) && s == TripleSignal(peaks, current, j)
                              && s.target < Neckline(peaks[j].price, peaks[j + 2].price)
      {
        var j :| 0 <= j < k && TripleFires(peaks, current, j) && s == TripleSignal(peaks, current, j);
        ShouldersSignalShape(peaks[j].price, peaks[j + 1].price, peaks[j + 2].price, current);
      }
    }
  }

  /** Unlike every other detector's, a head-and-shoulders target can lie on
      the losing side of the entry: shoulders at 100, head at 101 and a last
      close of 90 give neckline 98 and target 95, above the short entry. */
  lemma ShouldersTargetCanExceedEntry()
    ensures ShouldersFire(100.0, 101.0, 100.0, 90.0)
    ensures !TargetProfits(ShouldersSignal(100.0, 101.0, 100.0, 90.0))
  {
  }
}
