/** Readings and the filtering every page of the dashboard applies before it
    plots or summarises a series. A reading of 0 stands for "no measurement":
    the CSV loader writes 0 for missing columns and non-numeric cells, so each
    page keeps only the non-zero readings of a series. */
module Series {

  datatype Option<T> = None | Some(value: T)

  /** A calendar date, as the date parser of the loader yields it. */
  datatype Date = Date(year: int, month: int, day: int)

  /** One entry of the time column: a parsed date, NaT (the missing time
      pandas gives a blank date cell), or the 1-based row number the loader
      uses when the table has no date column. */
  datatype TimePoint = Day(date: Date) | NotATime | RowNumber(row: int)

  /** `any(x != 0 for x in s)` */
  predicate AnyNonZero(s: seq<real>) {
    exists j :: 0 <= j < |s| && s[j] != 0.0
  }

  /** `[x for x in s if x != 0]` */
  function NonZero(s: seq<real>): (r: seq<real>)
    ensures |r| <= |s|
    ensures forall m :: 0 <= m < |r| ==> r[m] != 0.0
  {
    if s == [] then []
    else NonZero(s[..|s| - 1]) + (if s[|s| - 1] != 0.0 then [s[|s| - 1]] else [])
  }

  /** The indices of the non-zero readings of `s`, in increasing order: an
      independent description of which entries `NonZero` keeps. */
  function NonZeroPositions(s: seq<real>): (r: seq<nat>)
    ensures |r| == |NonZero(s)|
    ensures forall m :: 0 <= m < |r| ==> r[m] < |s| && s[r[m]] != 0.0
    ensures forall m, m' :: 0 <= m < m' < |r| ==> r[m] < r[m']
    ensures forall j :: 0 <= j < |s| && s[j] != 0.0 ==> j in r
  {
    if s == [] then []
    else NonZeroPositions(s[..|s| - 1]) + (if s[|s| - 1] != 0.0 then [|s| - 1] else [])
  }

  /** Every non-zero reading has a time stamp at its index, so that
      `time_data[i]` never goes out of range. */
  predicate TimesCover<T>(data: seq<real>, times: seq<T>) {
    forall j :: 0 <= j < |data| && data[j] != 0.0 ==> j < |times|
  }

  /** `[time_data[i] for i, x in enumerate(data) if x != 0]` */
  function NonZeroTimes<T>(data: seq<real>, times: seq<T>): (r: seq<T>)
    requires TimesCover(data, times)
    ensures |r| == |NonZero(data)|
  {
    if data == [] then []
    else
      var n := |data| - 1;
      NonZeroTimes(data[..n], times) + (if data[n] != 0.0 then [times[n]] else [])
  }

  /** The kept readings and the kept time stamps are the entries of `data`
      and of `times` at the non-zero positions, pairwise. */
  lemma {:induction false} NonZeroPairing<T>(data: seq<real>, times: seq<T>)
    requires TimesCover(data, times)
    ensures |NonZero(data)| == |NonZeroPositions(data)| == |NonZeroTimes(data, times)|
    ensures forall m :: 0 <= m < |NonZeroPositions(data)| ==>
              NonZero(data)[m] == data[NonZeroPositions(data)[m]] &&
              NonZeroTimes(data, times)[m] == times[NonZeroPositions(data)[m]]
  {
    if data != [] {
      var n := |data| - 1;
      var front := data[..n];
      assert TimesCover(front, times);
      NonZeroPairing(front, times);
      var p, pf := NonZeroPositions(data), NonZeroPositions(front);
      var v, vf := NonZero(data), NonZero(front);
      var ts, tf := NonZeroTimes(data, times), NonZeroTimes(front, times);
      assert p == pf + (if data[n] != 0.0 then [n] else []);
      assert v == vf + (if data[n] != 0.0 then [data[n]] else []);
      assert ts == tf + (if data[n] != 0.0 then [times[n]] else []);
      forall m | 0 <= m < |p|
        ensures v[m] == data[p[m]] && ts[m] == times[p[m]]
      {
        if m < |pf| {
          assert v[m] == vf[m] && ts[m] == tf[m] && p[m] == pf[m];
          assert front[pf[m]] == data[pf[m]];
        }
      }
    }
  }

  /** A series has a reading to show exactly when its non-zero part is not empty. */
  lemma {:induction false} NonZeroEmptyIff(s: seq<real>)
    ensures NonZero(s) != [] <==> AnyNonZero(s)
  {
    if s != [] {
      var n := |s| - 1;
      NonZeroEmptyIff(s[..n]);
      if AnyNonZero(s[..n]) {
        var j :| 0 <= j < n && s[..n][j] != 0.0;
        assert s[j] != 0.0;
      }
      if AnyNonZero(s) && s[n] == 0.0 {
        var j :| 0 <= j < |s| && s[j] != 0.0;
        assert s[..n][j] != 0.0;
      }
    }
  }

  /** Every non-zero reading of `s` is among the kept ones. */
  lemma {:induction false} NonZeroKeepsReadings(s: seq<real>)
    ensures forall j :: 0 <= j < |s| && s[j] != 0.0 ==> s[j] in NonZero(s)
    ensures forall x :: x in NonZero(s) ==> x in s
  {
    if s != [] {
      var n := |s| - 1;
      NonZeroKeepsReadings(s[..n]);
      assert forall x :: x in s[..n] ==> x in s;
      assert forall j :: 0 <= j < n ==> s[j] == s[..n][j];
    }
  }

  /** `s[start:]` in Python: a negative start counts from the end and stops
      at the front, and a start at or past the end gives the empty list. */
  function PySliceFrom<T>(s: seq<T>, start: int): seq<T> {
    var i := if start >= 0 then start else if |s| + start >= 0 then |s| + start else 0;
    if i >= |s| then [] else s[i..]
  }

  /** `s[-k:]` in Python: the last k entries of `s`, all of `s` when it has
      no more than k, and, because `-0` is the start 0, all of `s` when k is 0. */
  function PyTailSlice<T>(s: seq<T>, k: nat): (r: seq<T>)
    ensures |r| == (if k == 0 || |s| <= k then |s| else k)
    ensures r == s[|s| - |r|..]
  {
    PySliceFrom(s, -(k as int))
  }

  /** `np.min` of a non-empty series. */
  function Minimum(s: seq<real>): (m: real)
    requires |s| > 0
    ensures m in s
    ensures forall j :: 0 <= j < |s| ==> m <= s[j]
  {
    if |s| == 1 then s[0]
    else
      var rest := Minimum(s[1..]);
      if s[0] <= rest then s[0] else rest
  }

  /** `np.max` of a non-empty series. */
  function Maximum(s: seq<real>): (m: real)
    requires |s| > 0
    ensures m in s
    ensures forall j :: 0 <= j < |s| ==> s[j] <= m
  {
    if |s| == 1 then s[0]
    else
      var rest := Maximum(s[1..]);
      if s[0] >= rest then s[0] else rest
  }

  /** `x` is the reading at the last index where `s` is non-zero. */
  ghost predicate IsLatestReading(s: seq<real>, x: real) {
    exists j :: 0 <= j < |s| && s[j] == x && x != 0.0 &&
      forall j' :: j < j' < |s| ==> s[j'] == 0.0
  }

  /** `[x for x in s if x != 0][-1]`, or None when there is none. */
  function LatestReading(s: seq<real>): (r: Option<real>)
    ensures r.None? <==> !AnyNonZero(s)
    ensures r.Some? ==> IsLatestReading(s, r.value)
  {
    NonZeroEmptyIff(s);
    var v := NonZero(s);
    if v == [] then None
    else
      NonZeroPairing(s, s);
      var p := NonZeroPositions(s);
      var j := p[|p| - 1];
      AfterLastPosition(s);
      assert s[j] == v[|v| - 1];
      Some(v[|v| - 1])
  }

  /** Every reading after the last non-zero position is zero. */
  lemma AfterLastPosition(s: seq<real>)
    requires NonZeroPositions(s) != []
    ensures var p := NonZeroPositions(s);
            forall j' :: p[|p| - 1] < j' < |s| ==> s[j'] == 0.0
  {
    var p := NonZeroPositions(s);
    assert forall k :: 0 <= k < |p| ==> p[k] <= p[|p| - 1];
  }

  /** Latest, smallest and largest non-zero reading of a series. */
  datatype Stats = Stats(latest: real, minimum: real, maximum: real)

  /** The statistics the temperature, humidity, PUE and hydrogen pages show,
      computed only when the series has a non-zero reading. */
  function SeriesStats(s: seq<real>): (r: Option<Stats>)
    ensures r.None? <==> !AnyNonZero(s)
    ensures r.Some? ==> IsLatestReading(s, r.value.latest)
    ensures r.Some? ==> r.value.minimum in s && r.value.maximum in s
    ensures r.Some? ==> r.value.minimum != 0.0 && r.value.maximum != 0.0
    ensures r.Some? ==> forall j :: 0 <= j < |s| && s[j] != 0.0 ==>
              r.value.minimum <= s[j] <= r.value.maximum
  {
    match LatestReading(s)
    case None => None
    case Some(latest) =>
      NonZeroEmptyIff(s);
      NonZeroKeepsReadings(s);
      var v := NonZero(s);
      Some(Stats(latest, Minimum(v), Maximum(v)))
  }
}
