/** The performance view (main.py, display_performance_analyses): which
    columns are offered as indicators, how the three slider thresholds are
    forced into increasing order, the check on the bins built from them, and
    the `pd.cut` banding into Faible / Moyenne / Bonne / Excellente. */
module Performance {
  import opened Outcomes
  import opened Strings
  import opened Tables
  import opened Numbers

  const PerformanceKeywords: seq<string> :=
    ["%", "pourcentage", "taux", "performance", "réalisation", "cible", "score"]

  /** A column is offered when its name holds a performance keyword and its
      dtype is numeric (booleans included), or, failing a keyword, when its
      dtype is exactly int64 or float64. */
  predicate IsPerformanceCandidate(c: Column) {
    if ContainsAny(Lower(c.name), PerformanceKeywords) then IsNumericDtype(c.kind)
    else c.kind in {Int64, Float64}
  }

  /** `list(set(perf_cols))`: the candidate names without duplicates (the
      order of the list Python builds from the set is not modelled). */
  function PerformanceColumns(t: Table): set<string> {
    set i | 0 <= i < |t.columns| && IsPerformanceCandidate(t.columns[i]) :: t.columns[i].name
  }

  /** Every int64 or float64 column is a candidate whatever its name; other
      numeric dtypes only with a keyword; datetime and object columns never. */
  lemma PerformanceCandidates(t: Table, i: nat)
    requires i < |t.columns|
    ensures t.columns[i].kind in {Int64, Float64} ==> t.columns[i].name in PerformanceColumns(t)
    ensures t.columns[i].kind in {OtherNumeric, Boolean} ==>
      (IsPerformanceCandidate(t.columns[i]) <==> ContainsAny(Lower(t.columns[i].name), PerformanceKeywords))
    ensures t.columns[i].kind in {DateTime, Object} ==> !IsPerformanceCandidate(t.columns[i])
    ensures forall n :: n in PerformanceColumns(t) ==>
      exists j :: 0 <= j < |t.columns| && t.columns[j].name == n && IsNumericDtype(t.columns[j].kind)
  {
  }

  /** The three slider values: low/medium, medium/good, good/excellent. */
  datatype Thresholds = Thresholds(low: int, mid: int, high: int)

  /** The sliders' initial values. */
  const DefaultThresholds: Thresholds := Thresholds(70, 85, 95)

  /** The three assignments that "ensure increasing order". */
  function Clamp(t: Thresholds): (r: Thresholds)
    ensures r.low < r.mid < r.high
    ensures r.low <= t.low && r.high >= t.high
  {
    var low := Min(t.low, t.mid - 1);
    var mid := Max(Min(t.mid, t.high - 1), low + 1);
    var high := Max(t.high, mid + 1);
    Thresholds(low, mid, high)
  }

  /** Thresholds that are already strictly increasing pass unchanged, so
      clamping twice is clamping once. */
  lemma ClampFixesOrdered(t: Thresholds)
    ensures t.low < t.mid < t.high ==> Clamp(t) == t
    ensures Clamp(Clamp(t)) == Clamp(t)
    ensures Clamp(t) == t <==> t.low < t.mid < t.high
  {
  }

  /** Slider values lie in [0, 100]; the clamp can push them one step out of it. */
  lemma ClampRange(t: Thresholds)
    requires 0 <= t.low <= 100 && 0 <= t.mid <= 100 && 0 <= t.high <= 100
    ensures -1 <= Clamp(t).low && Clamp(t).high <= 101
    ensures Clamp(Thresholds(0, 0, 0)) == Thresholds(-1, 0, 1)
    ensures Clamp(Thresholds(100, 100, 100)) == Thresholds(99, 100, 101)
    ensures Clamp(DefaultThresholds) == DefaultThresholds
  {
  }

  /** `bins = [0, low, mid, high, 100]`. */
  function Bins(t: Thresholds): seq<int> {
    [0, t.low, t.mid, t.high, 100]
  }

  /** `all(bins[i] < bins[i + 1] for i in range(len(bins) - 1))`. */
  predicate StrictlyIncreasing(b: seq<int>) {
    forall i :: 0 <= i < |b| - 1 ==> b[i] < b[i + 1]
  }

  /** After the clamp the bins check only rejects a low threshold below 1 or
      a high threshold above 99. */
  lemma BinsCheckAfterClamp(t: Thresholds)
    ensures StrictlyIncreasing(Bins(Clamp(t))) <==> 0 < Clamp(t).low && Clamp(t).high < 100
  {
    var b := Bins(Clamp(t));
    if 0 < Clamp(t).low && Clamp(t).high < 100 {
      forall i | 0 <= i < |b| - 1 ensures b[i] < b[i + 1] {
      }
    } else {
      assert !(b[0] < b[1]) || !(b[3] < b[4]);
    }
  }

  datatype Band = Faible | Moyenne | Bonne | Excellente

  const Labels: seq<Band> := [Faible, Moyenne, Bonne, Excellente]

  /** How many bin edges lie strictly below `x` (numpy's `searchsorted(..., side='left')`). */
  function EdgesBelow(b: seq<int>, x: real): (r: nat)
    ensures r <= |b|
  {
    if |b| == 0 then 0 else (if (b[|b| - 1] as real) < x then 1 else 0) + EdgesBelow(b[..|b| - 1], x)
  }

  /** `pd.cut(values, bins, labels, right=True, include_lowest=True)` for one
      value: the interval index from the edges below it, the lowest edge
      itself counted in the first interval, and no band outside the edges or
      for a missing value. */
  function Cut(v: Option<real>, t: Thresholds): Option<Band> {
    match v
    case None => None
    case Some(x) =>
      var b := Bins(t);
      var ids := if x == b[0] as real then 1 else EdgesBelow(b, x);
      if ids == 0 || ids == |b| then None else Some(Labels[ids - 1])
  }

  function BandIndex(band: Band): nat {
    match band
    case Faible => 0
    case Moyenne => 1
    case Bonne => 2
    case Excellente => 3
  }

  /** Right-closed interval `i` of the bins, the first one closed on the left too. */
  predicate InInterval(b: seq<int>, i: nat, x: real)
    requires i + 1 < |b|
  {
    (b[i] as real < x || (i == 0 && x == b[0] as real)) && x <= b[i + 1] as real
  }

  lemma EdgesBelowOrdered(t: Thresholds, x: real)
    requires StrictlyIncreasing(Bins(t))
    ensures var b := Bins(t);
      EdgesBelow(b, x) == (if 100.0 < x then 5 else if t.high as real < x then 4 else if t.mid as real < x then 3
                           else if t.low as real < x then 2 else if 0.0 < x then 1 else 0)
  {
    var b := Bins(t);
    assert b[..4] == [0, t.low, t.mid, t.high];
    assert b[..4][..3] == [0, t.low, t.mid];
    assert b[..4][..3][..2] == [0, t.low];
    assert b[..4][..3][..2][..1] == [0];
    assert b[..4][..3][..2][..1][..0] == [];
    assert 0 < t.low < t.mid < t.high < 100 by {
      assert b[0] < b[1] && b[1] < b[2] && b[2] < b[3] && b[3] < b[4];
    }
    var e1 := EdgesBelow([0], x);
    assert e1 == (if 0.0 < x then 1 else 0) + EdgesBelow([], x);
    var e2 := EdgesBelow([0, t.low], x);
    assert e2 == (if t.low as real < x then 1 else 0) + e1;
    var e3 := EdgesBelow([0, t.low, t.mid], x);
    assert e3 == (if t.mid as real < x then 1 else 0) + e2;
    var e4 := EdgesBelow([0, t.low, t.mid, t.high], x);
    assert e4 == (if t.high as real < x then 1 else 0) + e3;
    assert EdgesBelow(b, x) == (if 100.0 < x then 1 else 0) + e4;
  }

  /** With increasing bins, a value gets the band of the interval holding it:
      [0, low] Faible, (low, mid] Moyenne, (mid, high] Bonne, (high, 100]
      Excellente; values outside [0, 100] get none. */
  lemma CutPicksInterval(t: Thresholds, x: real)
    requires StrictlyIncreasing(Bins(t))
    ensures Cut(Some(x), t).None? <==> x < 0.0 || 100.0 < x
    ensures forall i :: 0 <= i < 4 ==> (Cut(Some(x), t) == Some(Labels[i]) <==> InInterval(Bins(t), i, x))
    ensures 0.0 <= x <= t.low as real ==> Cut(Some(x), t) == Some(Faible)
    ensures t.low as real < x <= t.mid as real ==> Cut(Some(x), t) == Some(Moyenne)
    ensures t.mid as real < x <= t.high as real ==> Cut(Some(x), t) == Some(Bonne)
    ensures t.high as real < x <= 100.0 ==> Cut(Some(x), t) == Some(Excellente)
  {
    EdgesBelowOrdered(t, x);
    assert StrictlyIncreasing(Bins(t)) ==> 0 < t.low < t.mid < t.high < 100 by {
      var b := Bins(t);
      assert b[0] < b[1] && b[1] < b[2] && b[2] < b[3] && b[3] < b[4];
    }
  }

  /** Banding is monotone: a larger value never gets a lower band. */
  lemma CutMonotone(t: Thresholds, x: real, y: real)
    requires StrictlyIncreasing(Bins(t))
    requires x <= y && Cut(Some(x), t).Some? && Cut(Some(y), t).Some?
    ensures BandIndex(Cut(Some(x), t).value) <= BandIndex(Cut(Some(y), t).value)
  {
    CutPicksInterval(t, x);
    CutPicksInterval(t, y);
  }

  /** The outcome of the classification block: bands for every row, or the
      "Les seuils doivent être dans l'ordre croissant" message. */
  datatype Classification = Banded(bands: seq<Option<Band>>) | ThresholdsRejected

  /** Clamp the sliders, check the bins, and cut the column. */
  function Classify(values: seq<Option<real>>, sliders: Thresholds): (r: Classification)
    ensures r.Banded? <==> StrictlyIncreasing(Bins(Clamp(sliders)))
    ensures r.Banded? ==> |r.bands| == |values|
  {
    var t := Clamp(sliders);
    if StrictlyIncreasing(Bins(t)) then
      Banded(seq(|values|, i requires 0 <= i < |values| => Cut(values[i], t)))
    else ThresholdsRejected
  }

  /** The default sliders band every value in [0, 100]; (0, 0, 0) is rejected. */
  lemma ClassifyDefaults(values: seq<Option<real>>)
    ensures Classify(values, DefaultThresholds).Banded?
    ensures Classify(values, Thresholds(0, 0, 0)) == ThresholdsRejected
    ensures Classify(values, Thresholds(100, 100, 100)) == ThresholdsRejected
  {
    assert Clamp(DefaultThresholds) == DefaultThresholds;
    var b := Bins(DefaultThresholds);
    assert b == [0, 70, 85, 95, 100];
    assert StrictlyIncreasing(b);
    assert Bins(Clamp(Thresholds(0, 0, 0)))[0] == 0 && Bins(Clamp(Thresholds(0, 0, 0)))[1] == -1;
    assert Clamp(Thresholds(100, 100, 100)) == Thresholds(99, 100, 101);
    var b100 := Bins(Clamp(Thresholds(100, 100, 100)));
    assert !(b100[3] < b100[4]);
  }

  /** How many bands equal `band`. */
  function CountBand(bands: seq<Option<Band>>, band: Band): (r: nat)
    ensures r <= |bands|
  {
    if |bands| == 0 then 0
    else CountBand(bands[..|bands| - 1], band) + (if bands[|bands| - 1] == Some(band) then 1 else 0)
  }

  function CountBanded(bands: seq<Option<Band>>): (r: nat)
    ensures r <= |bands|
  {
    if |bands| == 0 then 0
    else CountBanded(bands[..|bands| - 1]) + (if bands[|bands| - 1].Some? then 1 else 0)
  }

  /** `df['Catégorie'].value_counts().sort_index()`: one count per label in
      label order, zero counts included (a categorical keeps all its
      categories), so the distribution is never empty. */
  function BandCounts(bands: seq<Option<Band>>): (r: seq<nat>)
    ensures |r| == 4
  {
    seq(4, i requires 0 <= i < 4 => CountBand(bands, Labels[i]))
  }

  /** The four counts add up to the number of banded rows: rows outside
      [0, 100] or missing are in no count. */
  lemma {:induction false} BandCountsAddUp(bands: seq<Option<Band>>)
    ensures var c := BandCounts(bands); c[0] + c[1] + c[2] + c[3] == CountBanded(bands)
  {
    if |bands| > 0 {
      var init := bands[..|bands| - 1];
      BandCountsAddUp(init);
      var c, c' := BandCounts(bands), BandCounts(init);
      forall i | 0 <= i < 4
        ensures c[i] == c'[i] + (if bands[|bands| - 1] == Some(Labels[i]) then 1 else 0)
      {
      }
      var last := bands[|bands| - 1];
      assert CountBanded(bands) == CountBanded(init) + (if last.Some? then 1 else 0);
      match last
      case None =>
      case Some(band) => assert band == Labels[BandIndex(band)];
    }
  }
}
