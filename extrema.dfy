/** The strict local-extrema scan shared by the double-top, double-bottom
    and head-and-shoulders detectors: an index is a peak (trough) when its
    value is strictly above (below) the two values on each side of it. */
module Extrema {

  datatype Kind = Peak | Trough

  /** A recorded extremum: its position in the series and the value there. */
  datatype Extremum = Extremum(index: nat, price: real)

  /** a is strictly higher than b for a peak, strictly lower for a trough. */
  predicate Beats(kind: Kind, a: real, b: real) {
    match kind
    case Peak => a > b
    case Trough => a < b
  }

  /** Index i has two neighbours on each side and beats all four of them. */
  predicate IsExtremum(xs: seq<real>, kind: Kind, i: int) {
    2 <= i < |xs| - 2
    && Beats(kind, xs[i], xs[i - 1]) && Beats(kind, xs[i], xs[i + 1])
    && Beats(kind, xs[i], xs[i - 2]) && Beats(kind, xs[i], xs[i + 2])
  }

  /** The extrema found by the scan before it reaches index k, in scan order. */
  function ExtremaBelow(xs: seq<real>, kind: Kind, k: int): seq<Extremum>
    requires k <= 2 || k <= |xs|
    decreases k
  {
    if k <= 2 then []
    else
      ExtremaBelow(xs, kind, k - 1)
      + (if IsExtremum(xs, kind, k - 1) then [Extremum(k - 1, xs[k - 1])] else [])
  }

  /** Everything the scan over indices 2 .. |xs| - 3 records. */
  function ExtremaOf(xs: seq<real>, kind: Kind): seq<Extremum> {
    ExtremaBelow(xs, kind, |xs| - 2)
  }

  /** The scan as the detectors run it: one pass over the eligible indices,
      appending each index that beats its four neighbours. */
  method FindExtrema(xs: seq<real>, kind: Kind) returns (ext: seq<Extremum>)
    ensures ext == ExtremaOf(xs, kind)
  {
    ext := [];
    var i := 2;
    while i < |xs| - 2
      invariant 2 <= i <= (if |xs| >= 4 then |xs| - 2 else 2)
      invariant ext == ExtremaBelow(xs, kind, i)
    {
      if Beats(kind, xs[i], xs[i - 1]) && Beats(kind, xs[i], xs[i + 1])
         && Beats(kind, xs[i], xs[i - 2]) && Beats(kind, xs[i], xs[i + 2])
      {
        ext := ext + [Extremum(i, xs[i])];
      }
      i := i + 1;
    }
  }

  predicate PositiveExtrema(ext: seq<Extremum>) {
    forall j :: 0 <= j < |ext| ==> ext[j].price > 0.0
  }

  /** Every record of the scan is a qualifying index below k, with its value. */
  lemma {:induction false} ExtremaBelowSound(xs: seq<real>, kind: Kind, k: int)
    requires k <= 2 || k <= |xs|
    ensures forall j :: 0 <= j < |ExtremaBelow(xs, kind, k)| ==>
      var e := ExtremaBelow(xs, kind, k)[j];
      e.index < k && IsExtremum(xs, kind, e.index) && e.price == xs[e.index]
    decreases k
  {
    if k > 2 {
      ExtremaBelowSound(xs, kind, k - 1);
    }
  }

  lemma {:induction false} ExtremaBelowOrdered(xs: seq<real>, kind: Kind, k: int)
    requires k <= 2 || k <= |xs|
    ensures forall j, j' :: 0 <= j < j' < |ExtremaBelow(xs, kind, k)| ==>
      ExtremaBelow(xs, kind, k)[j].index < ExtremaBelow(xs, kind, k)[j'].index
    decreases k
  {
    if k > 2 {
      ExtremaBelowOrdered(xs, kind, k - 1);
      ExtremaBelowSound(xs, kind, k - 1);
    }
  }

  lemma {:induction false} ExtremaBelowComplete(xs: seq<real>, kind: Kind, k: int, i: int)
    requires k <= |xs| && i < k && IsExtremum(xs, kind, i)
    ensures exists j :: 0 <= j < |ExtremaBelow(xs, kind, k)| && ExtremaBelow(xs, kind, k)[j].index == i
    decreases k
  {
    var prev := ExtremaBelow(xs, kind, k - 1);
    if i == k - 1 {
      assert ExtremaBelow(xs, kind, k)[|prev|].index == i;
    } else {
      ExtremaBelowComplete(xs, kind, k - 1, i);
      var j :| 0 <= j < |prev| && prev[j].index == i;
      assert ExtremaBelow(xs, kind, k)[j].index == i;
    }
  }

  /** The scan records exactly the qualifying indices, each once, with its
      value, in strictly increasing index order. */
  lemma ExtremaCharacterized(xs: seq<real>, kind: Kind)
    ensures forall j :: 0 <= j < |ExtremaOf(xs, kind)| ==>
      var e := ExtremaOf(xs, kind)[j];
      2 <= e.index <= |xs| - 3 && IsExtremum(xs, kind, e.index) && e.price == xs[e.index]
    ensures forall j, j' :: 0 <= j < j' < |ExtremaOf(xs, kind)| ==>
      ExtremaOf(xs, kind)[j].index < ExtremaOf(xs, kind)[j'].index
    ensures forall i :: IsExtremum(xs, kind, i) ==>
      exists j :: 0 <= j < |ExtremaOf(xs, kind)| && ExtremaOf(xs, kind)[j].index == i
  {
    assert ExtremaOf(xs, kind) == ExtremaBelow(xs, kind, |xs| - 2);
    ExtremaBelowSound(xs, kind, |xs| - 2);
    ExtremaBelowOrdered(xs, kind, |xs| - 2);
    forall i | IsExtremum(xs, kind, i)
      ensures exists j :: 0 <= j < |ExtremaOf(xs, kind)| && ExtremaOf(xs, kind)[j].index == i
    {
      ExtremaBelowComplete(xs, kind, |xs| - 2, i);
    }
  }

  /** Extrema of a positive series have positive prices. */
  lemma ExtremaPositive(xs: seq<real>, kind: Kind)
    requires forall i :: 0 <= i < |xs| ==> xs[i] > 0.0
    ensures PositiveExtrema(ExtremaOf(xs, kind))
  {
    ExtremaBelowSound(xs, kind, |xs| - 2);
  }

  /** xs rises strictly up to index m and falls strictly after it. */
  predicate Unimodal(xs: seq<real>, m: int) {
    0 <= m < |xs|
    && (forall i :: 0 < i <= m ==> xs[i - 1] < xs[i])
    && (forall i :: m <= i < |xs| - 1 ==> xs[i] > xs[i + 1])
  }

  /** When no index other than m qualifies, the scan records m alone, or
      nothing if m does not qualify either. */
  lemma {:induction false} SoleExtremum(xs: seq<real>, kind: Kind, k: int, m: int)
    requires k <= 2 || k <= |xs|
    requires forall i :: IsExtremum(xs, kind, i) ==> i == m
    ensures ExtremaBelow(xs, kind, k)
         == if m < k && IsExtremum(xs, kind, m) then [Extremum(m, xs[m])] else []
    decreases k
  {
    if k > 2 {
      SoleExtremum(xs, kind, k - 1, m);
    }
  }

  /** A strictly unimodal series has one peak, at its maximum, unless the
      maximum sits within two places of either end, where it has none. */
  lemma UnimodalPeaks(xs: seq<real>, m: int)
    requires Unimodal(xs, m)
    ensures ExtremaOf(xs, Peak) == if 2 <= m < |xs| - 2 then [Extremum(m, xs[m])] else []
  {
    assert forall i :: IsExtremum(xs, Peak, i) ==> i == m;
    if 2 <= m < |xs| - 2 {
      assert xs[m - 2] < xs[m - 1] < xs[m];
      assert xs[m] > xs[m + 1] > xs[m + 2];
    }
    SoleExtremum(xs, Peak, |xs| - 2, m);
  }
}
