/** Values shared by every detector: candles, trade signals and the fixed
    per-pattern constants. */
module PatternTypes {

  /** One candle. Only the three prices that some detector reads are kept;
      the timestamp, the open and the volume are read by no detector. */
  datatype Candle = Candle(high: real, low: real, close: real)

  datatype Direction = Bullish | Bearish

  datatype PatternName =
    | DoubleTop
    | DoubleBottom
    | HeadAndShoulders
    | AscendingTriangle
    | DescendingTriangle
    | BullFlag
    | BearFlag
    | SupportLevel
    | ResistanceLevel

  /** A trade signal; the human-readable description is not modelled. */
  datatype Signal = Signal(
    pattern: PatternName,
    direction: Direction,
    confidence: int,
    entry: real,
    stopLoss: real,
    target: real,
    riskReward: real)

  /** The engine's global floor on the number of candles. */
  const MinPeriods: nat := 20

  /** Every price a detector may divide by is positive; the engine relies on
      its callers for this and never checks it. */
  predicate PositivePrices(cs: seq<Candle>) {
    forall i :: 0 <= i < |cs| ==> cs[i].high > 0.0 && cs[i].low > 0.0 && cs[i].close > 0.0
  }

  /** The usual candle invariant low <= close <= high (not enforced by the engine). */
  predicate WellFormed(cs: seq<Candle>) {
    forall i :: 0 <= i < |cs| ==> cs[i].low <= cs[i].close <= cs[i].high
  }

  function Highs(cs: seq<Candle>): seq<real> {
    seq(|cs|, i requires 0 <= i < |cs| => cs[i].high)
  }

  function Lows(cs: seq<Candle>): seq<real> {
    seq(|cs|, i requires 0 <= i < |cs| => cs[i].low)
  }

  function Closes(cs: seq<Candle>): seq<real> {
    seq(|cs|, i requires 0 <= i < |cs| => cs[i].close)
  }

  /** The last n values of a series. */
  function Recent(xs: seq<real>, n: nat): (r: seq<real>)
    requires n <= |xs|
    ensures |r| == n
  {
    xs[|xs| - n..]
  }

  /** The most recent close, which every detector takes as its entry price. */
  function LastClose(cs: seq<Candle>): real
    requires |cs| > 0
  {
    cs[|cs| - 1].close
  }

  /** The direction each pattern always reports. */
  function DirectionOf(p: PatternName): Direction {
    match p
    case DoubleBottom | AscendingTriangle | BullFlag | SupportLevel => Bullish
    case DoubleTop | HeadAndShoulders | DescendingTriangle | BearFlag | ResistanceLevel => Bearish
  }

  /** The fixed confidence each pattern reports. */
  function ConfidenceOf(p: PatternName): int {
    match p
    case DoubleTop | DoubleBottom => 75
    case HeadAndShoulders => 80
    case AscendingTriangle | DescendingTriangle => 65
    case BullFlag | BearFlag => 70
    case SupportLevel | ResistanceLevel => 60
  }

  /** The fixed risk/reward ratio each pattern reports. */
  function RiskRewardOf(p: PatternName): real {
    match p
    case DoubleTop | DoubleBottom | BullFlag | BearFlag => 2.5
    case HeadAndShoulders | AscendingTriangle | DescendingTriangle | SupportLevel | ResistanceLevel => 2.0
  }

  /** A signal carries its pattern's fixed direction, confidence and ratio. */
  predicate HasFixedConstants(s: Signal) {
    s.direction == DirectionOf(s.pattern)
    && s.confidence == ConfidenceOf(s.pattern)
    && s.riskReward == RiskRewardOf(s.pattern)
  }

  /** The stop-loss lies on the losing side of the entry. */
  predicate StopProtects(s: Signal) {
    if s.direction == Bullish then s.stopLoss < s.entry else s.stopLoss > s.entry
  }

  /** The target lies on the winning side of the entry. */
  predicate TargetProfits(s: Signal) {
    if s.direction == Bullish then s.target > s.entry else s.target < s.entry
  }

  function Abs(x: real): real {
    if x < 0.0 then -x else x
  }

  function Max(a: real, b: real): real {
    if a > b then a else b
  }

  function Min(a: real, b: real): real {
    if a < b then a else b
  }
}
