/** The data selection of `plot_recent_data`: for each labelled series of an
    ordered dictionary, the non-zero readings with their time stamps, cut to
    the most recent `recentPoints`, plus the `has_data` flag that tells the
    page whether anything was plotted. The drawing itself is not modelled. */
module RecentPlot {
  import opened Series

  /** One plotted line: its legend name and the (time, reading) points. */
  datatype Trace = Trace(name: string, times: seq<TimePoint>, values: seq<real>)

  /** `data_dict.items()`: the labelled series in dictionary order. */
  type SeriesItems = seq<(string, seq<real>)>

  /** Every series has a time stamp for each of its non-zero readings. */
  predicate ItemsCovered(items: SeriesItems, times: seq<TimePoint>) {
    forall i :: 0 <= i < |items| ==> TimesCover(items[i].1, times)
  }

  /** The number of points a line keeps out of `available` non-zero readings. */
  function WindowLength(available: nat, recentPoints: nat): nat {
    if recentPoints == 0 || available <= recentPoints then available else recentPoints
  }

  /** The line one dictionary entry contributes, or None when it is skipped.
      A series contributes exactly when it has a non-zero reading; the line
      holds the last `recentPoints` non-zero readings (all of them when there
      are no more than that, or when `recentPoints` is 0) and the time stamps
      kept at the same indices. */
  function TraceOf(name: string, data: seq<real>, times: seq<TimePoint>, recentPoints: nat): (r: Option<Trace>)
    requires TimesCover(data, times)
    ensures r.Some? <==> AnyNonZero(data)
    ensures r.Some? ==>
              var valid := NonZero(data);
              var keep := WindowLength(|valid|, recentPoints);
              && r.value.name == name
              && |r.value.values| == |r.value.times| == keep
              && r.value.values == valid[|valid| - keep..]
              && r.value.times == NonZeroTimes(data, times)[|valid| - keep..]
  {
    NonZeroEmptyIff(data);
    if data != [] && AnyNonZero(data) then
      var validData := NonZero(data);
      var validTimes := NonZeroTimes(data, times);
      var cut := |validData| > recentPoints;
      var values := if cut then PyTailSlice(validData, recentPoints) else validData;
      var stamps := if cut then PyTailSlice(validTimes, recentPoints) else validTimes;
      if values != [] then Some(Trace(name, stamps, values)) else None
    else None
  }

  /** Each point of a line is a non-zero reading of the series together with
      the time stamp at the same index. `TraceOf` cuts both lists at the same
      offset (the number of older non-zero readings it drops); from that
      offset on, the k-th kept point comes from position
      `NonZeroPositions(data)[off + k]` of the series. */
  lemma {:induction false} WindowPairs(data: seq<real>, times: seq<TimePoint>, off: nat, t: Trace)
    requires TimesCover(data, times) && off <= |NonZero(data)|
    requires t.values == NonZero(data)[off..] && t.times == NonZeroTimes(data, times)[off..]
    ensures |t.values| == |t.times| == |NonZeroPositions(data)| - off
    ensures var p := NonZeroPositions(data);
            forall m :: 0 <= m < |t.values| ==>
              t.values[m] == data[p[off + m]] && t.times[m] == times[p[off + m]]
  {
    PairedPositions(data, times);
    TailPairs(data, times, NonZero(data), NonZeroTimes(data, times), NonZeroPositions(data), off, t);
  }

  /** `NonZeroPairing`, with the positions' bounds, in the form `TailPairs`
      takes. */
  lemma {:induction false} PairedPositions(data: seq<real>, times: seq<TimePoint>)
    requires TimesCover(data, times)
    ensures |NonZero(data)| == |NonZeroTimes(data, times)| == |NonZeroPositions(data)|
    ensures forall k :: 0 <= k < |NonZeroPositions(data)| ==>
              && NonZeroPositions(data)[k] < |data| && NonZeroPositions(data)[k] < |times|
              && NonZero(data)[k] == data[NonZeroPositions(data)[k]]
              && NonZeroTimes(data, times)[k] == times[NonZeroPositions(data)[k]]
  {
    var p := NonZeroPositions(data);
    NonZeroPairing(data, times);
    forall k | 0 <= k < |p|
      ensures p[k] < |data| && p[k] < |times|
    {
      assert data[p[k]] != 0.0;
    }
  }

  /** A line cut from paired sequences (the k-th reading and time stamp sit
      at position `p[k]` of the series) keeps the pairing. */
  lemma {:induction false} TailPairs(data: seq<real>, times: seq<TimePoint>, valid: seq<real>, stamps: seq<TimePoint>,
                  p: seq<nat>, off: nat, t: Trace)
    requires |valid| == |stamps| == |p|
    requires forall k :: 0 <= k < |p| ==>
               && p[k] < |data| && p[k] < |times|
               && valid[k] == data[p[k]]
               && stamps[k] == times[p[k]]
    requires off <= |p| && t.values == valid[off..] && t.times == stamps[off..]
    ensures |t.values| == |t.times| == |p| - off
    ensures forall m :: 0 <= m < |t.values| ==>
              t.values[m] == data[p[off + m]] && t.times[m] == times[p[off + m]]
  {
    forall m | 0 <= m < |t.values|
      ensures t.values[m] == data[p[off + m]] && t.times[m] == times[p[off + m]]
    {
      assert t.values[m] == valid[off + m] && t.times[m] == stamps[off + m];
    }
  }

  /** The indices of the dictionary entries that have a non-zero reading, in
      increasing order. */
  function ContributingPositions(items: SeriesItems): (r: seq<nat>)
    ensures forall m :: 0 <= m < |r| ==> r[m] < |items| && AnyNonZero(items[r[m]].1)
    ensures forall m, m' :: 0 <= m < m' < |r| ==> r[m] < r[m']
    ensures forall i :: 0 <= i < |items| && AnyNonZero(items[i].1) ==> i in r
  {
    if items == [] then []
    else
      var n := |items| - 1;
      ContributingPositions(items[..n]) + (if AnyNonZero(items[n].1) then [n] else [])
  }

  /** The lines of the chart, in dictionary order. */
  function SelectTraces(items: SeriesItems, times: seq<TimePoint>, recentPoints: nat): (r: seq<Trace>)
    requires ItemsCovered(items, times)
    ensures |r| <= |items|
    ensures forall m :: 0 <= m < |r| ==>
              r[m].values != [] && |r[m].values| == |r[m].times| &&
              (recentPoints > 0 ==> |r[m].values| <= recentPoints)
  {
    if items == [] then []
    else
      var n := |items| - 1;
      assert ItemsCovered(items[..n], times);
      SelectTraces(items[..n], times, recentPoints) +
        match TraceOf(items[n].0, items[n].1, times, recentPoints)
        case Some(t) => [t]
        case None => []
  }

  /** The chart has one line per contributing entry, in order, and that line
      is the one the entry yields on its own: empty and all-zero series are
      skipped and nothing else is. */
  lemma {:induction false} SelectTracesFollowItems(items: SeriesItems, times: seq<TimePoint>, recentPoints: nat)
    requires ItemsCovered(items, times)
    ensures |SelectTraces(items, times, recentPoints)| == |ContributingPositions(items)|
    ensures forall m :: 0 <= m < |ContributingPositions(items)| ==>
              var i := ContributingPositions(items)[m];
              TraceOf(items[i].0, items[i].1, times, recentPoints) == Some(SelectTraces(items, times, recentPoints)[m])
  {
    if items != [] {
      var n := |items| - 1;
      var front := items[..n];
      assert ItemsCovered(front, times);
      SelectTracesFollowItems(front, times, recentPoints);
      var last := TraceOf(items[n].0, items[n].1, times, recentPoints);
      var s := SelectTraces(items, times, recentPoints);
      var c := ContributingPositions(items);
      var sf := SelectTraces(front, times, recentPoints);
      var cf := ContributingPositions(front);
      assert s == sf + (if last.Some? then [last.value] else []);
      assert c == cf + (if AnyNonZero(items[n].1) then [n] else []);
      forall m | 0 <= m < |c|
        ensures TraceOf(items[c[m]].0, items[c[m]].1, times, recentPoints) == Some(s[m])
      {
        if m < |cf| {
          assert c[m] == cf[m] && items[c[m]] == front[cf[m]] && s[m] == sf[m];
        }
      }
    }
  }

  /** `has_data` is true exactly when some series of the dictionary has a
      non-zero reading. */
  lemma SelectTracesNonEmpty(items: SeriesItems, times: seq<TimePoint>, recentPoints: nat)
    requires ItemsCovered(items, times)
    ensures SelectTraces(items, times, recentPoints) != [] <==>
              exists i :: 0 <= i < |items| && AnyNonZero(items[i].1)
  {
    SelectTracesFollowItems(items, times, recentPoints);
    var c := ContributingPositions(items);
    if exists i :: 0 <= i < |items| && AnyNonZero(items[i].1) {
      var i :| 0 <= i < |items| && AnyNonZero(items[i].1);
      assert i in c;
    }
  }

  /** `plot_recent_data` without the drawing: the chart's lines, or None
      together with `has_data = False` when no series has data. */
  method PlotRecentData(times: seq<TimePoint>, items: SeriesItems, recentPoints: nat)
    returns (chart: Option<seq<Trace>>, hasData: bool)
    requires ItemsCovered(items, times)
    ensures hasData <==> chart.Some?
    ensures hasData <==> exists i :: 0 <= i < |items| && AnyNonZero(items[i].1)
    ensures chart.Some? ==> chart.value == SelectTraces(items, times, recentPoints)
  {
    var traces: seq<Trace> := [];
    hasData := false;
    for i := 0 to |items|
      invariant ItemsCovered(items[..i], times)
      invariant traces == SelectTraces(items[..i], times, recentPoints)
      invariant hasData <==> traces != []
    {
      var (name, data) := items[i];
      assert items[..i + 1][..i] == items[..i];
      if data != [] && AnyNonZero(data) {
        NonZeroPairing(data, times);
        var validData := NonZero(data);
        var validTimes := NonZeroTimes(data, times);
        if |validData| > recentPoints {
          validData := PyTailSlice(validData, recentPoints);
          validTimes := PyTailSlice(validTimes, recentPoints);
        }
        if validData != [] {
          traces := traces + [Trace(name, validTimes, validData)];
          hasData := true;
        }
      }
    }
    assert items[..|items|] == items;
    SelectTracesNonEmpty(items, times, recentPoints);
    chart := if hasData then Some(traces) else None;
  }
}
