/** The zone selection of the temperature and humidity pages: one on/off flag
    per area, kept in the session and flipped by the area's button; the
    selected areas decide which series are charted and summarised. */
module Zones {
  import opened Series
  import opened CsvRemap
  import opened RecentPlot

  /** The five areas, in the order of the page's buttons: main equipment
      room, cold aisle, battery room, carrier room, power-distribution room. */
  const Areas: seq<string> := ["主机房", "冷通道", "电池间", "运营间", "配电间"]

  lemma AreasDistinct()
    ensures forall i, j :: 0 <= i < j < |Areas| ==> Areas[i] != Areas[j]
  {
  }

  /** Position of an area in `Areas`. */
  function AreaIndex(area: string): (i: nat)
    requires area in Areas
    ensures i < |Areas| && Areas[i] == area
  {
    if area == Areas[0] then 0
    else if area == Areas[1] then 1
    else if area == Areas[2] then 2
    else if area == Areas[3] then 3
    else 4
  }

  lemma AreaIndexAt(i: nat)
    requires i < |Areas|
    ensures AreaIndex(Areas[i]) == i
  {
    AreasDistinct();
  }

  /** The areas of `r` appear in the fixed area order, each at most once. */
  ghost predicate InAreaOrder(r: seq<string>)
    requires forall m :: 0 <= m < |r| ==> r[m] in Areas
  {
    forall m, m' :: 0 <= m < m' < |r| ==> AreaIndex(r[m]) < AreaIndex(r[m'])
  }

  datatype Quantity = Temperature | Humidity

  /** `area_mapping` of the temperature page and of the humidity page. */
  function SeriesKeyOf(area: string, q: Quantity): (k: string)
    requires area in Areas
    ensures k in SeriesKeys
  {
    var i := AreaIndex(area);
    match q
    case Temperature => ["ZJFTemp", "LTDTemp", "DCJTemp", "YYJTemp", "PDJTemp"][i]
    case Humidity => ["ZJFHum", "LTDHum", "DCJHum", "YYJHum", "PDJHum"][i]
  }

  /** Distinct areas, or distinct quantities, read distinct series. */
  lemma SeriesKeyOfInjective(a: string, b: string, q: Quantity, q': Quantity)
    requires a in Areas && b in Areas
    requires SeriesKeyOf(a, q) == SeriesKeyOf(b, q')
    ensures a == b && q == q'
  {
    AreasDistinct();
  }

  /** The flags describe exactly the five areas. */
  predicate FlagsValid(flags: map<string, bool>) {
    flags.Keys == set a | a in Areas
  }

  /** `[area for area, selected in flags.items() if selected]`, taken over
      the first n areas (the dictionary keeps the order of `Areas`). */
  function Flagged(flags: map<string, bool>, n: nat): (r: seq<string>)
    requires FlagsValid(flags) && n <= |Areas|
    ensures forall m :: 0 <= m < |r| ==> r[m] in Areas && AreaIndex(r[m]) < n
    ensures InAreaOrder(r)
    ensures forall a :: a in r <==> a in Areas[..n] && flags[a]
  {
    if n == 0 then []
    else
      var prev := Flagged(flags, n - 1);
      var area := Areas[n - 1];
      assert Areas[..n] == Areas[..n - 1] + [area];
      AreaIndexAt(n - 1);
      prev + (if flags[area] then [area] else [])
  }

  /** One more area of the loop over `Areas`. */
  lemma FlaggedStep(flags: map<string, bool>, i: nat)
    requires FlagsValid(flags) && i < |Areas|
    ensures Flagged(flags, i + 1) == Flagged(flags, i) + (if flags[Areas[i]] then [Areas[i]] else [])
  {
  }

  /** The chart entries for a list of areas: each area's series. */
  function EntriesFor(areas: seq<string>, d: AllData, q: Quantity): (items: SeriesItems)
    requires forall m :: 0 <= m < |areas| ==> areas[m] in Areas
    requires HasAllSeries(d)
    ensures |items| == |areas|
    ensures forall m :: 0 <= m < |areas| ==> items[m] == (areas[m], d.series[SeriesKeyOf(areas[m], q)])
  {
    seq(|areas|, m requires 0 <= m < |areas| => (areas[m], d.series[SeriesKeyOf(areas[m], q)]))
  }

  lemma EntriesForAppend(areas: seq<string>, area: string, d: AllData, q: Quantity)
    requires forall m :: 0 <= m < |areas| ==> areas[m] in Areas
    requires area in Areas && HasAllSeries(d)
    ensures EntriesFor(areas + [area], d, q) == EntriesFor(areas, d, q) + [(area, d.series[SeriesKeyOf(area, q)])]
  {
  }

  /** The panel of one area: its statistics, or none when its series has no
      non-zero reading. */
  function PanelOf(area: string, d: AllData, q: Quantity): seq<(string, Stats)>
    requires area in Areas && HasAllSeries(d)
  {
    var s := SeriesStats(d.series[SeriesKeyOf(area, q)]);
    if s.Some? then [(area, s.value)] else []
  }

  /** One more area of the loop over `Areas` in the chart dictionary. */
  lemma EntriesStep(flags: map<string, bool>, i: nat, d: AllData, q: Quantity)
    requires FlagsValid(flags) && i < |Areas| && HasAllSeries(d)
    ensures EntriesFor(Flagged(flags, i + 1), d, q) ==
              EntriesFor(Flagged(flags, i), d, q) +
              (if flags[Areas[i]] then [(Areas[i], d.series[SeriesKeyOf(Areas[i], q)])] else [])
  {
    var sel := Flagged(flags, i);
    FlaggedStep(flags, i);
    if flags[Areas[i]] {
      EntriesForAppend(sel, Areas[i], d, q);
    } else {
      assert Flagged(flags, i + 1) == sel;
    }
  }

  /** The statistics panels for a list of areas: one per area whose series
      has a non-zero reading. */
  function PanelsFor(areas: seq<string>, d: AllData, q: Quantity): (panels: seq<(string, Stats)>)
    requires forall m :: 0 <= m < |areas| ==> areas[m] in Areas
    requires HasAllSeries(d)
    ensures |panels| <= |areas|
  {
    if areas == [] then []
    else
      var n := |areas| - 1;
      PanelsFor(areas[..n], d, q) + PanelOf(areas[n], d, q)
  }

  lemma PanelsForAppend(areas: seq<string>, area: string, d: AllData, q: Quantity)
    requires forall m :: 0 <= m < |areas| ==> areas[m] in Areas
    requires area in Areas && HasAllSeries(d)
    ensures PanelsFor(areas + [area], d, q) == PanelsFor(areas, d, q) + PanelOf(area, d, q)
  {
    assert (areas + [area])[..|areas|] == areas;
  }

  /** One more area of the loop over `Areas` in the statistics section. */
  lemma PanelsStep(flags: map<string, bool>, i: nat, d: AllData, q: Quantity)
    requires FlagsValid(flags) && i < |Areas| && HasAllSeries(d)
    ensures PanelsFor(Flagged(flags, i + 1), d, q) ==
              PanelsFor(Flagged(flags, i), d, q) + (if flags[Areas[i]] then PanelOf(Areas[i], d, q) else [])
  {
    var sel := Flagged(flags, i);
    FlaggedStep(flags, i);
    if flags[Areas[i]] {
      PanelsForAppend(sel, Areas[i], d, q);
    } else {
      assert Flagged(flags, i + 1) == sel;
    }
  }

  /** One turn of the statistics loop: area i is summarised when it is
      selected and its series keeps a reading after dropping the zeros. */
  method NextPanels(flags: map<string, bool>, i: nat, d: AllData, q: Quantity, panels: seq<(string, Stats)>)
    returns (next: seq<(string, Stats)>)
    requires FlagsValid(flags) && i < |Areas| && HasAllSeries(d)
    requires panels == PanelsFor(Flagged(flags, i), d, q)
    ensures next == PanelsFor(Flagged(flags, i + 1), d, q)
  {
    var area := Areas[i];
    PanelsStep(flags, i, d, q);
    next := panels;
    if flags[area] {
      var data := d.series[SeriesKeyOf(area, q)];
      var validData := NonZero(data);
      NonZeroEmptyIff(data);
      if validData != [] {
        next := panels + [(area, SeriesStats(data).value)];
      }
    }
  }

  /** A panel is shown for an area of the list exactly when its series has a
      non-zero reading, and it shows that series' statistics. */
  lemma {:induction false} PanelsForContents(areas: seq<string>, d: AllData, q: Quantity)
    requires forall m :: 0 <= m < |areas| ==> areas[m] in Areas
    requires HasAllSeries(d)
    ensures forall p :: p in PanelsFor(areas, d, q) ==>
              p.0 in areas && SeriesStats(d.series[SeriesKeyOf(p.0, q)]) == Some(p.1)
    ensures forall a :: a in areas && AnyNonZero(d.series[SeriesKeyOf(a, q)]) ==>
              exists p :: p in PanelsFor(areas, d, q) && p.0 == a
  {
    if areas != [] {
      var n := |areas| - 1;
      PanelsForContents(areas[..n], d, q);
      assert forall a :: a in areas ==> a in areas[..n] || a == areas[n];
      var before := PanelsFor(areas[..n], d, q);
      assert PanelsFor(areas, d, q) == before + PanelOf(areas[n], d, q);
      var s := SeriesStats(d.series[SeriesKeyOf(areas[n], q)]);
      if s.Some? {
        assert PanelOf(areas[n], d, q) == [(areas[n], s.value)];
      } else {
        assert PanelOf(areas[n], d, q) == [];
      }
    }
  }

  /** The selection state of one page (`st.session_state.temp_areas` or
      `st.session_state.hum_areas`). */
  class ZoneSelection {
    var flags: map<string, bool>

    ghost predicate Valid()
      reads this
    {
      FlagsValid(flags)
    }

    /** The initial state: exactly the two areas drawn at random (the
        drawing is left to the caller) are selected. */
    constructor (first: string, second: string)
      requires first in Areas && second in Areas && first != second
      ensures Valid()
      ensures forall a :: a in Areas ==> (flags[a] <==> a == first || a == second)
    {
      flags := map a | a in Areas :: a == first || a == second;
    }

    /** The selected areas, in the fixed area order. */
    function Selected(): (r: seq<string>)
      reads this
      requires Valid()
      ensures forall m :: 0 <= m < |r| ==> r[m] in Areas
      ensures InAreaOrder(r)
      ensures forall a :: a in r <==> a in Areas && flags[a]
    {
      assert Areas[..|Areas|] == Areas;
      Flagged(flags, |Areas|)
    }

    /** A button press: flips the area's flag and no other. */
    method Toggle(area: string)
      requires Valid() && area in Areas
      modifies this
      ensures Valid()
      ensures flags == old(flags)[area := !old(flags)[area]]
      ensures forall a :: a in Areas && a != area ==> (a in Selected() <==> a in old(Selected()))
      ensures area in Selected() <==> area !in old(Selected())
    {
      flags := flags[area := !flags[area]];
    }

    /** The dictionary handed to `plot_recent_data`: each selected area with
        its series, in the fixed area order. */
    method ChartItems(d: AllData, q: Quantity) returns (items: SeriesItems)
      requires Valid() && HasAllSeries(d)
      ensures items == EntriesFor(Selected(), d, q)
    {
      items := [];
      for i := 0 to |Areas|
        invariant items == EntriesFor(Flagged(flags, i), d, q)
      {
        var area := Areas[i];
        EntriesStep(flags, i, d, q);
        if flags[area] {
          items := items + [(area, d.series[SeriesKeyOf(area, q)])];
        }
      }
      assert Selected() == Flagged(flags, |Areas|);
    }

    /** The statistics section: for each selected area, in order, the
        latest, smallest and largest non-zero reading, skipping areas with
        no non-zero reading. */
    method StatsPanels(d: AllData, q: Quantity) returns (panels: seq<(string, Stats)>)
      requires Valid() && HasAllSeries(d)
      ensures panels == PanelsFor(Selected(), d, q)
    {
      panels := [];
      for i := 0 to |Areas|
        invariant panels == PanelsFor(Flagged(flags, i), d, q)
      {
        panels := NextPanels(flags, i, d, q, panels);
      }
      assert Selected() == Flagged(flags, |Areas|);
    }
  }

  /** On data from the loader every series is as long as the time column,
      so any chart dictionary built from it can be plotted. */
  lemma AlignedItemsCovered(d: AllData, areas: seq<string>, q: Quantity)
    requires Aligned(d)
    requires forall m :: 0 <= m < |areas| ==> areas[m] in Areas
    ensures ItemsCovered(EntriesFor(areas, d, q), d.time)
  {
  }

  /** The number of points per line on the temperature and humidity pages. */
  function ZoneRecentPoints(mobile: bool): nat {
    if mobile then 8 else 12
  }

  /** The temperature or humidity page: the chart over the selected areas
      and the statistics panels. The chart has data exactly when some
      selected area has a non-zero reading. */
  method ZonePage(selection: ZoneSelection, d: AllData, q: Quantity, mobile: bool)
    returns (chart: Option<seq<Trace>>, hasData: bool, panels: seq<(string, Stats)>)
    requires selection.Valid() && Aligned(d)
    ensures hasData <==> chart.Some?
    ensures hasData <==> exists a :: a in selection.Selected() && AnyNonZero(d.series[SeriesKeyOf(a, q)])
    ensures chart.Some? ==>
              chart.value == SelectTraces(EntriesFor(selection.Selected(), d, q), d.time, ZoneRecentPoints(mobile))
    ensures panels == PanelsFor(selection.Selected(), d, q)
  {
    var items := selection.ChartItems(d, q);
    AlignedItemsCovered(d, selection.Selected(), q);
    chart, hasData := PlotRecentData(d.time, items, ZoneRecentPoints(mobile));
    panels := selection.StatsPanels(d, q);
    ghost var sel := selection.Selected();
    if hasData {
      var i :| 0 <= i < |items| && AnyNonZero(items[i].1);
      assert sel[i] in sel;
    }
  }
}
