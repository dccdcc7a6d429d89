/** The engine entry point: below the global floor of 20 candles nothing is
    reported; otherwise the six detectors run in a fixed order and their
    signals are concatenated. */
module Engine {
  import opened PatternTypes
  import opened Extrema
  import opened Reversals
  import opened Continuations
  import opened Levels

  /** The signals the engine reports for a candle window. */
  function PatternSignals(cs: seq<Candle>): seq<Signal>
    requires |cs| >= MinPeriods ==> PositivePrices(cs)
  {
    if |cs| < MinPeriods then []
    else
      DoubleTopSignals(cs) + DoubleBottomSignals(cs) + HeadShouldersSignals(cs)
      + DetectTriangle(cs) + DetectFlag(cs) + DetectSupportResistance(cs)
  }

  /** The engine as it runs: check the floor, then extend the result list
      with each detector's output in turn. */
  method DetectPatterns(cs: seq<Candle>) returns (patterns: seq<Signal>)
    requires |cs| >= MinPeriods ==> PositivePrices(cs)
    ensures patterns == PatternSignals(cs)
  {
    if |cs| < MinPeriods {
      return [];
    }
    patterns := [];
    var doubleTops := DetectDoubleTop(cs);
    patterns := patterns + doubleTops;
    // [] + doubleTops is doubleTops: stated here so that the final
    // equation with PatternSignals is a plain chain of concatenations.
    assert patterns == doubleTops;
    var doubleBottoms := DetectDoubleBottom(cs);
    patterns := patterns + doubleBottoms;
    var headShoulders := DetectHeadShoulders(cs);
    patterns := patterns + headShoulders;
    patterns := patterns + DetectTriangle(cs);
    patterns := patterns + DetectFlag(cs);
    patterns := patterns + DetectSupportResistance(cs);
  }

  /** The position of each pattern's detector in the engine's run order;
      within the last detector support is reported before resistance. */
  function Stage(p: PatternName): nat {
    match p
    case DoubleTop => 0
    case DoubleBottom => 1
    case HeadAndShoulders => 2
    case AscendingTriangle | DescendingTriangle => 3
    case BullFlag | BearFlag => 4
    case SupportLevel => 5
    case ResistanceLevel => 6
  }

  predicate InStageOrder(ss: seq<Signal>) {
    forall i, j :: 0 <= i < j < |ss| ==> Stage(ss[i].pattern) <= Stage(ss[j].pattern)
  }

  predicate StagesBetween(ss: seq<Signal>, lo: nat, hi: nat) {
    forall i :: 0 <= i < |ss| ==> lo <= Stage(ss[i].pattern) <= hi
  }

  /** Appending a block ordered at or after stage m to one ordered at or
      before it keeps the order. */
  lemma AppendInOrder(a: seq<Signal>, b: seq<Signal>, lo: nat, m: nat, hi: nat)
    requires lo <= m <= hi
    requires InStageOrder(a) && StagesBetween(a, lo, m)
    requires InStageOrder(b) && StagesBetween(b, m, hi)
    ensures InStageOrder(a + b) && StagesBetween(a + b, lo, hi)
  {
    assert forall i :: 0 <= i < |a| ==> (a + b)[i] == a[i];
    assert forall i :: |a| <= i < |a + b| ==> (a + b)[i] == b[i - |a|];
    forall i, j | 0 <= i < j < |a + b|
      ensures Stage((a + b)[i].pattern) <= Stage((a + b)[j].pattern)
    {
      if j < |a| {
      } else if i >= |a| {
        assert (a + b)[i] == b[i - |a|] && (a + b)[j] == b[j - |a|];
      } else {
        assert (a + b)[i] == a[i] && (a + b)[j] == b[j - |a|];
      }
    }
  }

  /** A block whose signals all carry one pattern is in order. */
  lemma UniformBlock(ss: seq<Signal>, p: PatternName)
    requires forall s :: s in ss ==> s.pattern == p
    ensures InStageOrder(ss) && StagesBetween(ss, Stage(p), Stage(p))
  {
    assert forall i :: 0 <= i < |ss| ==> ss[i] in ss;
  }

  /** Six blocks, each ordered within its own stages, in stage order. */
  lemma BlocksInOrder(dt: seq<Signal>, db: seq<Signal>, hs: seq<Signal>,
                      tri: seq<Signal>, flag: seq<Signal>, sr: seq<Signal>)
    requires InStageOrder(dt) && StagesBetween(dt, 0, 0)
    requires InStageOrder(db) && StagesBetween(db, 1, 1)
    requires InStageOrder(hs) && StagesBetween(hs, 2, 2)
    requires InStageOrder(tri) && StagesBetween(tri, 3, 3)
    requires InStageOrder(flag) && StagesBetween(flag, 4, 4)
    requires InStageOrder(sr) && StagesBetween(sr, 5, 6)
    ensures InStageOrder(dt + db + hs + tri + flag + sr)
  {
    AppendInOrder(dt, db, 0, 1, 1);
    AppendInOrder(dt + db, hs, 0, 2, 2);
    AppendInOrder(dt + db + hs, tri, 0, 3, 3);
    AppendInOrder(dt + db + hs + tri, flag, 0, 4, 4);
    AppendInOrder(dt + db + hs + tri + flag, sr, 0, 5, 6);
  }

  /** The engine reports its signals grouped by detector, in run order:
      double tops, double bottoms, head and shoulders, triangle, flag,
      support, resistance. */
  lemma SignalsInRunOrder(cs: seq<Candle>)
    requires |cs| >= MinPeriods ==> PositivePrices(cs)
    ensures InStageOrder(PatternSignals(cs))
  {
    if |cs| >= MinPeriods {
      DoubleTopInStage(cs);
      DoubleBottomInStage(cs);
      HeadShouldersInStage(cs);
      TriangleInStage(cs);
      FlagInStage(cs);
      LevelsInStage(cs);
      BlocksInOrder(DoubleTopSignals(cs), DoubleBottomSignals(cs), HeadShouldersSignals(cs),
                    DetectTriangle(cs), DetectFlag(cs), DetectSupportResistance(cs));
    }
  }

  lemma DoubleTopInStage(cs: seq<Candle>)
    requires PositivePrices(cs)
    ensures InStageOrder(DoubleTopSignals(cs)) && StagesBetween(DoubleTopSignals(cs), 0, 0)
  {
    assert forall s :: s in DoubleTopSignals(cs) ==> s.pattern == DoubleTop by {
      DoubleTopProperties(cs);
    }
    UniformBlock(DoubleTopSignals(cs), DoubleTop);
  }

  lemma DoubleBottomInStage(cs: seq<Candle>)
    requires PositivePrices(cs)
    ensures InStageOrder(DoubleBottomSignals(cs)) && StagesBetween(DoubleBottomSignals(cs), 1, 1)
  {
    assert forall s :: s in DoubleBottomSignals(cs) ==> s.pattern == DoubleBottom by {
      DoubleBottomProperties(cs);
    }
    UniformBlock(DoubleBottomSignals(cs), DoubleBottom);
  }

  lemma HeadShouldersInStage(cs: seq<Candle>)
    requires PositivePrices(cs)
    ensures InStageOrder(HeadShouldersSignals(cs)) && StagesBetween(HeadShouldersSignals(cs), 2, 2)
  {
    assert forall s :: s in HeadShouldersSignals(cs) ==> s.pattern == HeadAndShoulders by {
      HeadShouldersProperties(cs);
    }
    UniformBlock(HeadShouldersSignals(cs), HeadAndShoulders);
  }

  lemma TriangleInStage(cs: seq<Candle>)
    ensures InStageOrder(DetectTriangle(cs)) && StagesBetween(DetectTriangle(cs), 3, 3)
  {
    TriangleOutcome(cs);
    AtMostOneInStage(DetectTriangle(cs), 3);
  }

  lemma FlagInStage(cs: seq<Candle>)
    requires PositivePrices(cs)
    ensures InStageOrder(DetectFlag(cs)) && StagesBetween(DetectFlag(cs), 4, 4)
  {
    FlagShape(cs);
    AtMostOneInStage(DetectFlag(cs), 4);
  }

  lemma LevelsInStage(cs: seq<Candle>)
    requires PositivePrices(cs)
    ensures InStageOrder(DetectSupportResistance(cs)) && StagesBetween(DetectSupportResistance(cs), 5, 6)
  {
    LevelsOutcome(cs);
    if |cs| >= LevelWindow {
      LevelsInOrder(LastClose(cs), SupportPrice(cs), ResistancePrice(cs));
    }
  }

  /** At most one signal, at the given stage. */
  lemma AtMostOneInStage(ss: seq<Signal>, k: nat)
    requires |ss| <= 1 && forall s :: s in ss ==> Stage(s.pattern) == k
    ensures InStageOrder(ss) && StagesBetween(ss, k, k)
  {
    assert forall i :: 0 <= i < |ss| ==> ss[i] in ss;
  }

  /** Support comes before resistance within the last detector. */
  lemma LevelsInOrder(current: real, support: real, resistance: real)
    ensures InStageOrder(LevelSignals(current, support, resistance))
    ensures StagesBetween(LevelSignals(current, support, resistance), 5, 6)
  {
    var r := LevelSignals(current, support, resistance);
    LevelSignalsOutcome(current, support, resistance);
    assert forall i :: 0 <= i < |r| ==> r[i] in r;
  }

  /** Nothing below 20 candles, and above it no more signals than the
      detectors' own bounds allow. */
  lemma SignalCount(cs: seq<Candle>)
    requires |cs| >= MinPeriods ==> PositivePrices(cs)
    ensures |cs| < MinPeriods ==> PatternSignals(cs) == []
    ensures |PatternSignals(cs)|
         <= PairCount(|Peaks(cs)|) + PairCount(|Troughs(cs)|) + TripleCount(|Peaks(cs)|) + 4
  {
    if |cs| >= MinPeriods {
      DoubleTopProperties(cs);
      DoubleBottomProperties(cs);
      HeadShouldersProperties(cs);
      TriangleOutcome(cs);
      FlagOutcome(cs);
      LevelsOutcome(cs);
    }
  }

  /** For positive, well-formed candles every reported signal enters at the
      last close with its pattern's fixed constants and its stop on the
      losing side; every signal except head and shoulders also has its
      target on the winning side. */
  lemma SignalsOriented(cs: seq<Candle>)
    requires |cs| >= MinPeriods ==> PositivePrices(cs) && WellFormed(cs)
    ensures forall s :: s in PatternSignals(cs) ==>
      s.entry == LastClose(cs) && HasFixedConstants(s) && StopProtects(s)
      && (s.pattern != HeadAndShoulders ==> TargetProfits(s))
  {
    if |cs| >= MinPeriods {
      DoubleTopProperties(cs);
      DoubleBottomProperties(cs);
      HeadShouldersProperties(cs);
      TriangleOriented(cs);
      FlagOriented(cs);
      LevelsOriented(cs);
    }
  }
}
