/** The "data quality" cards of the home page: how many series have any
    reading (completeness), how many readings are non-zero (valid rate), how
    many time points and distinct dates there are. */
module DataQuality {
  import opened Series
  import opened CsvRemap
  import opened Indicators

  /** The series of `all_data` other than 'time', in dictionary order. */
  function Datasets(d: AllData): (r: seq<seq<real>>)
    requires HasAllSeries(d)
    ensures |r| == |SeriesKeys|
    ensures forall i :: 0 <= i < |SeriesKeys| ==> r[i] == d.series[SeriesKeys[i]]
  {
    seq(|SeriesKeys|, i requires 0 <= i < |SeriesKeys| => d.series[SeriesKeys[i]])
  }

  /** `sum(1 for key in all_data if key != 'time' and any(x != 0 ...))` */
  function ValidDatasets(ss: seq<seq<real>>): (r: nat)
    ensures r <= |ss|
    ensures r == 0 <==> forall i :: 0 <= i < |ss| ==> !AnyNonZero(ss[i])
  {
    if ss == [] then 0
    else
      assert forall i :: 1 <= i < |ss| ==> ss[1..][i - 1] == ss[i];
      (if AnyNonZero(ss[0]) then 1 else 0) + ValidDatasets(ss[1..])
  }

  /** `sum(len(all_data[key]) for key in all_data if key != 'time')` */
  function TotalPoints(ss: seq<seq<real>>): (r: nat)
    ensures r == 0 <==> forall i :: 0 <= i < |ss| ==> ss[i] == []
  {
    if ss == [] then 0
    else
      assert forall i :: 1 <= i < |ss| ==> ss[1..][i - 1] == ss[i];
      |ss[0]| + TotalPoints(ss[1..])
  }

  /** `sum(len([x for x in all_data[key] if x != 0]) ...)` */
  function ValidPoints(ss: seq<seq<real>>): (r: nat)
    ensures r == 0 <==> forall i :: 0 <= i < |ss| ==> !AnyNonZero(ss[i])
  {
    if ss == [] then 0
    else
      assert forall i :: 1 <= i < |ss| ==> ss[1..][i - 1] == ss[i];
      NonZeroEmptyIff(ss[0]);
      |NonZero(ss[0])| + ValidPoints(ss[1..])
  }

  /** A series keeps all its readings exactly when none of them is zero. */
  lemma {:induction false} NonZeroKeepsAll(s: seq<real>)
    ensures |NonZero(s)| == |s| <==> forall j :: 0 <= j < |s| ==> s[j] != 0.0
  {
    if s != [] {
      var n := |s| - 1;
      NonZeroKeepsAll(s[..n]);
      assert forall j :: 0 <= j < n ==> s[..n][j] == s[j];
    }
  }

  /** The valid counts never exceed the totals, and they reach them exactly
      when every series has a reading (for datasets) or when no reading at
      all is zero (for points). */
  lemma {:induction false} CountsBounded(ss: seq<seq<real>>)
    ensures ValidDatasets(ss) <= |ss|
    ensures ValidPoints(ss) <= TotalPoints(ss)
    ensures ValidDatasets(ss) == |ss| <==> forall i :: 0 <= i < |ss| ==> AnyNonZero(ss[i])
    ensures ValidPoints(ss) == TotalPoints(ss) <==>
              forall i, j :: 0 <= i < |ss| && 0 <= j < |ss[i]| ==> ss[i][j] != 0.0
  {
    if ss != [] {
      CountsBounded(ss[1..]);
      NonZeroKeepsAll(ss[0]);
      assert forall i :: 1 <= i < |ss| ==> ss[i] == ss[1..][i - 1];
    }
  }

  /** The distinct entries of a sequence are no more than its length. */
  lemma {:induction false} DistinctAtMostLength<T>(s: seq<T>)
    ensures |set x | x in s| <= |s|
  {
    if s != [] {
      var n := |s| - 1;
      DistinctAtMostLength(s[..n]);
      assert (set x | x in s) == (set x | x in s[..n]) + {s[n]};
    }
  }

  /** `(part / whole) * 100` */
  function Percentage(part: nat, whole: nat): (r: real)
    requires part <= whole && whole > 0
    ensures 0.0 <= r <= 100.0
    ensures r == 100.0 <==> part == whole
  {
    var ratio := part as real / whole as real;
    assert ratio * whole as real == part as real;
    assert ratio <= 1.0;
    assert ratio == 1.0 ==> part as real == whole as real;
    ratio * 100.0
  }

  /** What the four data-quality cards show. */
  datatype Quality = Quality(
    validDatasets: nat, totalDatasets: nat, completeness: real, completenessBand: QualityBand,
    validPoints: nat, totalPoints: nat, validRate: real, validRateBand: QualityBand,
    timePoints: nat, uniqueDates: nat)

  /** The data-quality cards of the home page. `total_datasets` is the number
      of keys of `all_data` minus 'time', always 12; the valid rate is 0 when
      there are no points at all. Rates are percentages. */
  function QualityOf(d: AllData): (q: Quality)
    requires HasAllSeries(d)
    ensures q.totalDatasets == |SeriesKeys| == 12
    ensures q.validDatasets == ValidDatasets(Datasets(d))
    ensures q.totalPoints == TotalPoints(Datasets(d)) && q.validPoints == ValidPoints(Datasets(d))
    ensures q.completeness == q.validDatasets as real / 12.0 * 100.0
    ensures q.totalPoints > 0 ==> q.validRate == q.validPoints as real / q.totalPoints as real * 100.0
    ensures q.uniqueDates == |set x | x in d.time|
    ensures q.validDatasets <= q.totalDatasets && q.validPoints <= q.totalPoints
    ensures 0.0 <= q.completeness <= 100.0 && 0.0 <= q.validRate <= 100.0
    ensures q.completeness == 100.0 <==> forall k :: k in SeriesKeys ==> AnyNonZero(d.series[k])
    ensures q.totalPoints == 0 ==> q.validRate == 0.0
    ensures BandLevel(q.completenessBand) == Exceeded(QualityLimits, q.completeness)
    ensures BandLevel(q.validRateBand) == Exceeded(QualityLimits, q.validRate)
    ensures q.timePoints == |d.time| && q.uniqueDates <= q.timePoints
  {
    var ss := Datasets(d);
    CountsBounded(ss);
    DistinctAtMostLength(d.time);
    var totalDatasets := |ss|;
    var validDatasets := ValidDatasets(ss);
    var completeness := Percentage(validDatasets, totalDatasets);
    var totalPoints := TotalPoints(ss);
    var validPoints := ValidPoints(ss);
    var validRate := if totalPoints > 0 then Percentage(validPoints, totalPoints) else 0.0;
    assert (forall i :: 0 <= i < |ss| ==> AnyNonZero(ss[i])) <==>
           (forall k :: k in SeriesKeys ==> AnyNonZero(d.series[k]));
    Quality(validDatasets, totalDatasets, completeness, QualityBandOf(completeness),
            validPoints, totalPoints, validRate, QualityBandOf(validRate),
            |d.time|, |set x | x in d.time|)
  }
}
