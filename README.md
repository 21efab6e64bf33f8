# Data-centre monitor: the data rules of the dashboard, in Dafny

The dashboard in `app.py` shows a data centre's temperatures, humidities,
PUE (power usage effectiveness) and hydrogen concentration. It is a
Streamlit page. It fetches a CSV file, turns it into `all_data` (a time
column plus twelve reading series), and draws charts, statistics and status
cards from it. A reading of 0 means "no measurement" throughout.

This project models the data rules inside the page code and proves what
they guarantee:

- `series.dfy` (module `Series`): the non-zero filter
  `[x for x in data if x != 0]`, the matching time stamps, the Python tail
  slice `s[-k:]`, and the latest/min/max statistics over the non-zero
  readings.
- `recent_plot.dfy` (module `RecentPlot`): the data selection and the
  `has_data` flag of `plot_recent_data`. The drawing is not modelled.
- `indicators.dfy` (module `Indicators`): the PUE grades of the home page
  and of the PUE page, the hydrogen threshold, and the quality bands of the
  data-quality cards. Each grade is characterised by how many band limits
  the value has passed, so monotonicity becomes a statement about counting.
- `data_quality.dfy` (module `DataQuality`): the completeness and
  valid-rate cards of the home page and their counts.
- `csv_remap.dfy` (module `CsvRemap`): `load_data_from_github` after the
  fetch. It covers the date-column choice, the row-number fallback, and the
  column mapping with its zero defaults.
- `zones.dfy` (module `Zones`): the per-page zone selection
  (`temp_areas` / `hum_areas`) as a class whose button press flips one flag.
  It also covers the selected list, the area→series mapping, and the
  temperature and humidity pages built from them.
- `home.dfy` (module `Home`): the home page's trend preview.

Readings are `real`. The code only compares them with 0 and with
thresholds, and takes the minimum, maximum and last of them. Where the code
loops and updates state, the model is a method with a loop. Each such method
is proved equal to a specification function, and the properties are proved
about that function:
- `plot_recent_data` becomes `PlotRecentData`, specified by `SelectTraces`;
- the column-mapping loop becomes `RemapSeries`;
- the chart-dictionary and statistics loops become `ChartItems` and
  `StatsPanels`;
- the flag flip becomes `Toggle`.

The comprehensions and threshold expressions are functions.

## Model

| member | source | states |
|---|---|---|
| Series.NonZero | app.py:402 | the kept readings are no more than the series and none of them is zero |
| Series.NonZeroTimes | app.py:403 | there is one kept time stamp per kept reading |
| Series.NonZeroEmptyIff | app.py:400-409 | the non-zero part of a series is non-empty exactly when some reading is non-zero, so `data and any(x != 0 ...)` and `if valid_data` agree |
| Series.NonZeroPairing | app.py:402-403 | the kept readings and the kept time stamps have the same length, and the k-th of each is `data[j]` / `time_data[j]` for the k-th non-zero position j |
| Series.NonZeroKeepsReadings | app.py:402 | every non-zero reading is kept and nothing that is not in the series appears |
| Series.PyTailSlice | app.py:406-407 | by Python's slicing rule for a negative start, `s[-k:]` is the suffix of `s` of length k, the whole of `s` when it is no longer than k, and the whole of `s` when k is 0 |
| Series.Minimum | app.py:728 | the minimum is one of the values and is at most each of them |
| Series.Maximum | app.py:727 | the maximum is one of the values and is at least each of them |
| Series.LatestReading | app.py:484-485 | None exactly when no reading is non-zero; otherwise the reading at the last non-zero position, with only zeros after it |
| Series.SeriesStats | app.py:721-728 | statistics exist exactly when some reading is non-zero; latest is the last non-zero reading; min and max are non-zero readings of the series bounding every non-zero reading |
| RecentPlot.TraceOf | app.py:399-412 | an entry yields a line exactly when it has a non-zero reading; the line keeps the last `recent_points` non-zero readings (all of them when there are no more, or when the count is 0) and the time stamps cut at the same offset |
| RecentPlot.WindowPairs | app.py:403-407 | after the cut, values and times are equally long, and the k-th point pairs the reading and the time stamp at the same non-zero position of the series |
| RecentPlot.SelectTraces | app.py:399-412 | the chart has at most one line per entry; every line is non-empty, has as many time stamps as readings, and holds at most `recent_points` points when that is positive |
| RecentPlot.SelectTracesFollowItems | app.py:399-412 | the chart has one line per entry with a non-zero reading, in dictionary order, and each is the line that entry yields on its own |
| RecentPlot.SelectTracesNonEmpty | app.py:409-414 | the chart has a line exactly when some entry has a non-zero reading |
| RecentPlot.PlotRecentData | app.py:385-437 | `has_data` is true exactly when some series has a non-zero reading; the chart is None when it is false and otherwise holds the selected lines |
| Indicators.PueGradeOf | app.py:886-894 | the PUE page's grade has rank equal to the number of limits 1.5, 1.6, 1.8 that the PUE has reached |
| Indicators.PueGradeMonotone | app.py:886-894 | a higher PUE never gets a better grade |
| Indicators.HomePueStatusOf | app.py:486 | the home card's status is the page's grade with fair and poor merged into "needs attention" |
| Indicators.HomePueCard | app.py:483-489 | the home PUE card is "no data" exactly when no PUE reading is non-zero; otherwise it shows the latest non-zero PUE and its status |
| Indicators.PuePage | app.py:851-896 | the PUE page shows statistics exactly when some PUE reading is non-zero; the grade is that of the latest reading; min and max are non-zero PUE readings and bound every non-zero reading |
| Indicators.LatestReadingUnique | app.py:485 | the latest non-zero reading of a series is unique |
| Indicators.HydrogenSafety | app.py:491-497 | the hydrogen status is "no data" exactly when no reading is non-zero, and "safe" exactly when the latest non-zero reading is below 50 ppm |
| Indicators.QualityBandOf | app.py:524-525 | the band's level is the number of limits 50, 70, 90 the rate lies strictly above |
| Indicators.QualityBandMonotone | app.py:545 | a higher rate never gets a worse band |
| DataQuality.ValidDatasets | app.py:512 | at most one per series, and 0 exactly when no series has a non-zero reading |
| DataQuality.TotalPoints | app.py:532 | 0 exactly when every series is empty |
| DataQuality.ValidPoints | app.py:533 | 0 exactly when no series has a non-zero reading |
| DataQuality.CountsBounded | app.py:511-534 | valid datasets never exceed the datasets and valid points never exceed the points; each count reaches its total exactly when every series has a reading, and when no reading is zero, respectively |
| DataQuality.NonZeroKeepsAll | app.py:533 | a series keeps all its readings exactly when none is zero |
| DataQuality.DistinctAtMostLength | app.py:553-554 | the number of distinct dates is at most the number of time points |
| DataQuality.Percentage | app.py:513 | a share of a positive total is a percentage in [0, 100], and is 100 exactly when the share is the whole |
| DataQuality.QualityOf | app.py:509-554 | there are 12 datasets; the counts are the valid-dataset, total-point and valid-point counts of the twelve series; completeness is valid/12 × 100 and the valid rate valid/total × 100 when there are points; unique dates are the distinct time entries; the counts stay within their totals; both rates lie in [0, 100]; completeness is 100 exactly when every series has a reading; the valid rate is 0 when there are no points; both bands follow the 90/70/50 limits; unique dates never exceed time points |
| CsvRemap.MappingTargetsSeriesKeys | app.py:311-332 | the column mapping fills each of the twelve series keys once, in dictionary order |
| CsvRemap.FirstDateColumn | app.py:318 | the chosen time column is the first whose lower-cased name is a date name, and None means there is none |
| CsvRemap.ParseDates | app.py:320 | parsing a date column fails exactly when some non-blank cell does not parse; otherwise each blank cell gives NaT and each other cell its date |
| CsvRemap.RowNumbers | app.py:322 | n row numbers, each between 1 and n, strictly increasing |
| CsvRemap.TimeColumn | app.py:318-322 | the time column has one entry per row; with a date column it is the parse of the first one, and without one it is 1..n |
| CsvRemap.ToNumber | app.py:336 | a number cell keeps its value, and a non-zero result only ever comes from a number cell |
| CsvRemap.RemapColumn | app.py:334-338 | the stored series has one reading per row |
| CsvRemap.RemapColumnDefaults | app.py:334-338 | every mapped series has one reading per row; a missing column gives n zeros; a non-numeric or empty cell becomes 0 |
| CsvRemap.RemapSeries | app.py:334-338 | after the loop, the series keys are exactly the twelve keys, each holding the remap of its CSV column |
| CsvRemap.LoadAllData | app.py:300-344 | loading succeeds exactly when a table was fetched and its date column parses; then every series is as long as the time column and holds its remapped column |
| Zones.SeriesKeyOf | app.py:696-702 | every area maps to one of the series keys |
| Zones.SeriesKeyOfInjective | app.py:788-794 | distinct areas, or temperature against humidity, read distinct series |
| Zones.Flagged | app.py:688 | the selected list holds the flagged areas, each once, in the fixed area order |
| Zones.PanelsFor | app.py:718-747 | there is at most one statistics panel per listed area |
| Zones.PanelsForContents | app.py:718-728 | a statistics panel appears for a selected area exactly when its series has a non-zero reading, and it shows that series' statistics |
| Zones.ZoneSelection.constructor | app.py:363-374 | initially exactly the two areas drawn are selected |
| Zones.ZoneSelection.Selected | app.py:688 | the selected list is in area order and contains an area exactly when its flag is set |
| Zones.ZoneSelection.Toggle | app.py:677 | a button press flips that area's flag and no other, so it alone enters or leaves the selected list |
| Zones.ZoneSelection.ChartItems | app.py:704-707 | the chart dictionary holds each selected area with its series, in area order |
| Zones.ZoneSelection.StatsPanels | app.py:718-747 | the statistics section is the panels of the selected areas, in order |
| Zones.ZonePage | app.py:660-750 | the page's chart has data exactly when some selected area has a non-zero reading; chart and panels are those of the selected areas |
| Home.HomeTrends | app.py:598-655 | the temperature preview has data exactly when one of its two areas has a reading; the PUE preview exists exactly when the PUE series has one |

## Left out

- Page layout, sidebar, CSS and HTML, button rendering and `st.rerun`
  (app.py:82-298, 346-354): user interface only.
- Font setup and logo loading (app.py:14-79): file system and image
  libraries.
- Figures, axes, legends, line colours and the threshold lines drawn on
  the PUE and hydrogen charts (app.py:396, 410-436, 613-621, 856-868,
  912-920): drawing in matplotlib.
- The HTTP fetch, `pd.read_csv` and the one-hour cache
  (app.py:300-309). The loader takes the parsed table, or None when
  fetching or parsing failed.
- `pd.to_datetime` (app.py:320) on a non-blank cell is the `parseDate`
  parameter.
- CsvRemap.ParseDates: pandas infers one date format for the whole column,
  so whether a cell parses can depend on the other cells. The model judges
  each non-blank cell on its own. A blank cell becomes NaT, as in pandas.
- `pd.to_numeric(..., errors='coerce')` is modelled over a cell that is a
  number, other text or empty. How pandas reads text as a number is not
  modelled.
- `str.lower()` lower-cases only ASCII letters in the model. The four
  date names have no other cased letters.
- The `np.mean` averages (app.py:474, 481, 726, 818, 872, 924),
  including the home page's average temperature and humidity cards:
  floating-point division.
- `random.sample` (app.py:366, 373): the two drawn areas are the
  constructor's parameters.
- `is_mobile` (app.py:440-451): a boolean parameter of the pages that use
  it.
- The data-freshness card (app.py:571-596): it only echoes the last time
  entry.
- The single-series charts of the PUE page and the hydrogen page
  (app.py:853, 909) are `PlotRecentData` on a one-entry dictionary. They
  are not modelled as separate members.
- The hydrogen page's maximum (app.py:934) is `Series.Maximum` over the
  non-zero readings. The page has no member of its own.
- Indicators.PueGradeOf: readings are exact reals, so the model does not
  capture the float rounding of the literals 1.6 and 1.8.
- Zones.ZoneSelection.Toggle: one class models both `temp_areas` and
  `hum_areas`. The humidity toggles (app.py:769, 777) are the same
  operation on the second instance.
- Document and table-cell extraction: `app.py` contains no such code, so
  it is not part of this model.
