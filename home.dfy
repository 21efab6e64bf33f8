/** The trend preview of the home page: a temperature chart over the main
    equipment room and the cold aisle, and a PUE chart drawn only when the
    PUE series has a reading. */
module Home {
  import opened Series
  import opened CsvRemap
  import opened RecentPlot

  /** The number of points per line in the preview. */
  function HomeRecentPoints(mobile: bool): nat {
    if mobile then 6 else 8
  }

  /** The preview's temperature dictionary. */
  function TemperatureItems(d: AllData): (items: SeriesItems)
    requires HasAllSeries(d)
    ensures |items| == 2
    ensures items[0] == ("主机房", d.series["ZJFTemp"]) && items[1] == ("冷通道", d.series["LTDTemp"])
  {
    [("主机房", d.series["ZJFTemp"]), ("冷通道", d.series["LTDTemp"])]
  }

  /** The two preview charts: each is None exactly when the page shows its
      "no data" notice instead. The temperature chart has data when either
      area has a reading; the PUE chart is built only when the PUE series
      has one. */
  method HomeTrends(d: AllData, mobile: bool) returns (tempChart: Option<seq<Trace>>, pueChart: Option<seq<Trace>>)
    requires Aligned(d)
    ensures tempChart.Some? <==> AnyNonZero(d.series["ZJFTemp"]) || AnyNonZero(d.series["LTDTemp"])
    ensures tempChart.Some? ==> tempChart.value == SelectTraces(TemperatureItems(d), d.time, HomeRecentPoints(mobile))
    ensures pueChart.Some? <==> AnyNonZero(d.series["PUE"])
    ensures pueChart.Some? ==> pueChart.value == SelectTraces([("PUE", d.series["PUE"])], d.time, HomeRecentPoints(mobile))
  {
    var points := HomeRecentPoints(mobile);
    var tempItems := TemperatureItems(d);
    var hasData;
    tempChart, hasData := PlotRecentData(d.time, tempItems, points);
    assert AnyNonZero(d.series["ZJFTemp"]) ==> AnyNonZero(tempItems[0].1);
    assert AnyNonZero(d.series["LTDTemp"]) ==> AnyNonZero(tempItems[1].1);
    var pue := d.series["PUE"];
    if pue != [] && AnyNonZero(pue) {
      var pueItems := [("PUE", pue)];
      pueChart, hasData := PlotRecentData(d.time, pueItems, points);
      assert AnyNonZero(pueItems[0].1);
    } else {
      pueChart := None;
    }
  }
}
