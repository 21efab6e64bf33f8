/** The column remap of `load_data_from_github`: the fetched CSV table becomes
    `all_data`, a time column plus twelve named reading series. The HTTP
    fetch and `pd.read_csv` are outside the model: the loader receives the
    parsed table, or None when fetching or parsing failed. */
module CsvRemap {
  import opened Series

  /** A cell of the parsed table: a number, some other text, or nothing. */
  datatype Cell = Number(value: real) | Text(text: string) | Blank

  /** The parsed table: its column names in order, each column's cells, and
      the number of rows. */
  datatype Table = Table(columns: seq<string>, cells: map<string, seq<Cell>>, rows: nat)

  /** Every column has its cells, one per row. */
  predicate WellFormed(t: Table) {
    forall c :: c in t.columns ==> c in t.cells && |t.cells[c]| == t.rows
  }

  /** `all_data` without its 'time' entry: the series keys in dictionary order. */
  const SeriesKeys: seq<string> := [
    "ZJFTemp", "ZJFHum", "LTDTemp", "LTDHum", "DCJTemp", "DCJHum",
    "YYJTemp", "YYJHum", "PDJTemp", "PDJHum", "hydr", "PUE"]

  /** CSV column name to series key, in the order the loader walks it. */
  const ColumnMapping: seq<(string, string)> := [
    ("computer_room_temp", "ZJFTemp"), ("computer_room_humidity", "ZJFHum"),
    ("cold_aisle_temp", "LTDTemp"), ("cold_aisle_humidity", "LTDHum"),
    ("battery_room_temp", "DCJTemp"), ("battery_room_humidity", "DCJHum"),
    ("carrier_room_temp", "YYJTemp"), ("carrier_room_humidity", "YYJHum"),
    ("power_room_temp", "PDJTemp"), ("power_room_humidity", "PDJHum"),
    ("hydrogen_sensor", "hydr"), ("pue", "PUE")]

  /** Lower-cased column names that mark the date column. */
  const DateColumnNames: seq<string> := ["record_date", "date", "时间", "日期"]

  /** The mapping fills every series key once, in dictionary order. */
  lemma MappingTargetsSeriesKeys()
    ensures |ColumnMapping| == |SeriesKeys|
    ensures forall i :: 0 <= i < |ColumnMapping| ==> ColumnMapping[i].1 == SeriesKeys[i]
    ensures forall i, j :: 0 <= i < j < |SeriesKeys| ==> SeriesKeys[i] != SeriesKeys[j]
  {
  }

  /** The dashboard's data: the time column and the reading series by key. */
  datatype AllData = AllData(time: seq<TimePoint>, series: map<string, seq<real>>)

  /** Every series key is present. */
  predicate HasAllSeries(d: AllData) {
    forall k :: k in SeriesKeys ==> k in d.series
  }

  /** Every series key is present and every series is as long as the time
      column, so that index j of a series is read at time index j. */
  predicate Aligned(d: AllData) {
    HasAllSeries(d) && forall k :: k in SeriesKeys ==> |d.series[k]| == |d.time|
  }

  function LowerChar(c: char): char {
    if 'A' <= c <= 'Z' then (c as int - 'A' as int + 'a' as int) as char else c
  }

  /** `str.lower()` on the ASCII letters; other characters are unchanged. */
  function Lower(s: string): string {
    seq(|s|, i requires 0 <= i < |s| => LowerChar(s[i]))
  }

  predicate IsDateColumn(name: string) {
    Lower(name) in DateColumnNames
  }

  /** `date_columns[0]` of `[col for col in df.columns if col.lower() in ...]`:
      the index of the first date column, or None when there is none. */
  function FirstDateColumn(columns: seq<string>): (r: Option<nat>)
    ensures r.Some? ==> r.value < |columns| && IsDateColumn(columns[r.value])
    ensures r.Some? ==> forall j :: 0 <= j < r.value ==> !IsDateColumn(columns[j])
    ensures r.None? ==> forall j :: 0 <= j < |columns| ==> !IsDateColumn(columns[j])
  {
    if columns == [] then None
    else if IsDateColumn(columns[0]) then Some(0)
    else
      match FirstDateColumn(columns[1..])
      case None => None
      case Some(i) => Some(i + 1)
  }

  /** `pd.to_datetime` over a column, with `parseDate` standing for the
      parsing of one non-blank cell. A blank cell (NaN after `read_csv`)
      becomes NaT; the column fails as soon as a non-blank cell cannot be
      parsed (pandas raises, and the loader then fails as a whole). */
  function ParseDates(cells: seq<Cell>, parseDate: Cell -> Option<Date>): (r: Option<seq<TimePoint>>)
    ensures r.Some? ==> |r.value| == |cells|
    ensures r.Some? ==> forall j :: 0 <= j < |cells| ==>
              if cells[j].Blank? then r.value[j] == NotATime
              else parseDate(cells[j]).Some? && r.value[j] == Day(parseDate(cells[j]).value)
    ensures r.None? <==> exists j :: 0 <= j < |cells| && !cells[j].Blank? && parseDate(cells[j]).None?
  {
    if cells == [] then Some([])
    else
      var head :=
        if cells[0].Blank? then Some(NotATime)
        else match parseDate(cells[0]) case Some(d) => Some(Day(d)) case None => None;
      assert forall j :: 1 <= j < |cells| ==> cells[1..][j - 1] == cells[j];
      match (head, ParseDates(cells[1..], parseDate))
      case (Some(p), Some(rest)) => Some([p] + rest)
      case (_, _) => None
  }

  /** `list(range(1, len(df) + 1))` */
  function RowNumbers(n: nat): (r: seq<TimePoint>)
    ensures |r| == n
    ensures forall i :: 0 <= i < n ==> r[i].RowNumber? && 1 <= r[i].row <= n
    ensures forall i, j :: 0 <= i < j < n ==> r[i].row < r[j].row
  {
    seq(n, i requires 0 <= i < n => RowNumber(i + 1))
  }

  /** The time column: the parsed first date column, or the row numbers
      1..n when the table has no date column. */
  function TimeColumn(t: Table, parseDate: Cell -> Option<Date>): (r: Option<seq<TimePoint>>)
    requires WellFormed(t)
    ensures r.Some? ==> |r.value| == t.rows
    ensures FirstDateColumn(t.columns).None? ==>
              r.Some? && forall j :: 0 <= j < t.rows ==> r.value[j] == RowNumber(j + 1)
    ensures FirstDateColumn(t.columns).Some? ==>
              r == ParseDates(t.cells[t.columns[FirstDateColumn(t.columns).value]], parseDate)
  {
    match FirstDateColumn(t.columns)
    case Some(i) => ParseDates(t.cells[t.columns[i]], parseDate)
    case None => Some(RowNumbers(t.rows))
  }

  /** `pd.to_numeric(..., errors='coerce')` then `fillna(0)` on one cell. */
  function ToNumber(c: Cell): (r: real)
    ensures c.Number? ==> r == c.value
    ensures r != 0.0 ==> c == Number(r)
  {
    match c
    case Number(v) => v
    case Text(_) => 0.0
    case Blank => 0.0
  }

  function Coerce(cells: seq<Cell>): seq<real> {
    seq(|cells|, j requires 0 <= j < |cells| => ToNumber(cells[j]))
  }

  /** `[0] * n` */
  function Zeros(n: nat): seq<real> {
    seq(n, j requires 0 <= j < n => 0.0)
  }

  /** The series the loader stores for one CSV column. */
  function RemapColumn(t: Table, column: string): (r: seq<real>)
    requires WellFormed(t)
    ensures |r| == t.rows
  {
    if column in t.columns then Coerce(t.cells[column]) else Zeros(t.rows)
  }

  /** Every remapped series has one reading per row; a missing column gives
      n zeros; a present column keeps its numbers, and every cell that is not
      a number becomes 0. */
  lemma RemapColumnDefaults(t: Table, column: string)
    requires WellFormed(t)
    ensures |RemapColumn(t, column)| == t.rows
    ensures column !in t.columns ==> !AnyNonZero(RemapColumn(t, column))
    ensures column in t.columns ==> forall j :: 0 <= j < t.rows ==>
              RemapColumn(t, column)[j] == (if t.cells[column][j].Number? then t.cells[column][j].value else 0.0)
  {
  }

  /** Storing the m-th mapped column keeps the series stored before it. */
  lemma {:induction false} RemapStep(t: Table, before: map<string, seq<real>>, m: nat, values: seq<real>)
    requires WellFormed(t) && m < |SeriesKeys|
    requires before.Keys == set k | k in SeriesKeys
    requires forall i :: 0 <= i < m ==> before[SeriesKeys[i]] == RemapColumn(t, ColumnMapping[i].0)
    requires values == RemapColumn(t, ColumnMapping[m].0)
    ensures before[SeriesKeys[m] := values].Keys == set k | k in SeriesKeys
    ensures forall i :: 0 <= i < m + 1 ==>
              before[SeriesKeys[m] := values][SeriesKeys[i]] == RemapColumn(t, ColumnMapping[i].0)
  {
    MappingTargetsSeriesKeys();
    var after := before[SeriesKeys[m] := values];
    forall i | 0 <= i < m + 1
      ensures after[SeriesKeys[i]] == RemapColumn(t, ColumnMapping[i].0)
    {
      if i < m {
        assert SeriesKeys[i] != SeriesKeys[m];
      }
    }
  }

  /** The `for csv_col, internal_key in column_mapping.items()` loop: every
      series key gets the remapped series of its CSV column. */
  method RemapSeries(t: Table) returns (series: map<string, seq<real>>)
    requires WellFormed(t)
    ensures series.Keys == set k | k in SeriesKeys
    ensures forall i :: 0 <= i < |SeriesKeys| ==> series[SeriesKeys[i]] == RemapColumn(t, ColumnMapping[i].0)
  {
    series := map k | k in SeriesKeys :: [];
    for m := 0 to |ColumnMapping|
      invariant series.Keys == set k | k in SeriesKeys
      invariant forall i :: 0 <= i < m ==> series[SeriesKeys[i]] == RemapColumn(t, ColumnMapping[i].0)
    {
      var (column, key) := ColumnMapping[m];
      var values: seq<real>;
      if column in t.columns {
        values := Coerce(t.cells[column]);
      } else {
        values := Zeros(t.rows);
      }
      MappingTargetsSeriesKeys();
      RemapStep(t, series, m, values);
      series := series[key := values];
    }
  }

  /** `load_data_from_github` after the fetch: None with `success = False`
      when there is no table or its date column does not parse; otherwise
      the time column and one remapped series per mapped column. */
  method LoadAllData(fetched: Option<Table>, parseDate: Cell -> Option<Date>)
    returns (data: Option<AllData>, success: bool)
    requires fetched.Some? ==> WellFormed(fetched.value)
    ensures success <==> data.Some?
    ensures data.Some? <==> fetched.Some? && TimeColumn(fetched.value, parseDate).Some?
    ensures data.Some? ==> data.value.time == TimeColumn(fetched.value, parseDate).value
    ensures data.Some? ==> data.value.series.Keys == set k | k in SeriesKeys
    ensures data.Some? ==> forall i :: 0 <= i < |ColumnMapping| ==>
              data.value.series[ColumnMapping[i].1] == RemapColumn(fetched.value, ColumnMapping[i].0)
    ensures data.Some? ==> Aligned(data.value)
  {
    if fetched.None? {
      return None, false;
    }
    var t := fetched.value;
    var time: seq<TimePoint>;
    match FirstDateColumn(t.columns) {
      case Some(i) =>
        var parsed := ParseDates(t.cells[t.columns[i]], parseDate);
        if parsed.None? {
          return None, false;
        }
        time := parsed.value;
      case None =>
        time := RowNumbers(t.rows);
    }
    MappingTargetsSeriesKeys();
    var series := RemapSeries(t);
    data := Some(AllData(time, series));
    success := true;
    forall k | k in SeriesKeys ensures |series[k]| == |time| {
      var i :| 0 <= i < |SeriesKeys| && SeriesKeys[i] == k;
      RemapColumnDefaults(t, ColumnMapping[i].0);
    }
  }
}
