# DeficitParty in Dafny

This project models the logic of the DeficitParty plotting scripts in Dafny. Those scripts
chart U.S. federal deficits, receipts and spending as a percent of GDP, and colour each year
by which party controls the White House and Congress.

Every script keeps a year-indexed data frame. A row holds:
- the president's party;
- the Senate and House seat counts per party;
- the 0/1 "Democratic majority" flags;
- the fiscal ratios.

Each script assigns each year to a Republican, Democratic or Split cohort. It does so under
three definitions of control:
- White House + Senate + House;
- White House + Senate;
- White House + House.

The scripts use four different rules for this assignment. The model has one module per rule:
- `FlagRule`: the majority flags, with split as the exact complement of control.
- `HalfSeatRule`: at least half of the seats, with split as the complement.
- `OtherHalfRule`: at least half of the seats, with split defined as "the other party holds at least half".
- `DeficitPartyPlots`, `RevenueGraph`, `SenateSeatScatter`: hard-coded 217 / 50 seat thresholds.

A cohort is an order-preserving filter of the rows (`Seqs.Filter`, `Cohorts.Cohort`). For each
rule, the partition lemmas prove or refute:
- that the cohorts cover the Republican/Democratic years;
- that they are disjoint;
- that full control is nested in Senate and in House control.

The rest of the model covers the bookkeeping around the rules:
- year windows, where `'min'`/`'max'` mean "no bound" and any other argument goes through `int()` (`Windows`);
- per-series extraction with NaN-skipping minimum and maximum, and `np.minimum` NaN propagation (`Frames`);
- the recession-bar loop (`Recessions`);
- the 2021 forecast override and the cohort counts of the table (`PartyTable`);
- the grouped bar chart's cross product and bar heights (`OgPlots`);
- the forecast colour interpolation (`ForecastPlots`);
- the fixed two-series draw (`CboOgusaPlot`);
- the outlays y range (`OutlaysPlot`).

How the model represents the source:
- Python exceptions are `Wrappers.Result` errors (`KeyError`, `IndexError`, `ValueError`,
  `ZeroDivisionError`, `UnboundLocalError`, `TypeError`). No `requires` clause stands in for one.
- A NaN cell is a column the row has no value for.
- A missing column is one absent from the frame's column set.
- The text columns `president` and `president_party` (`Party.TextColumns`) are the only non-numeric ones. `max - min` over a non-empty window of one raises `TypeError` (`Party.SpreadFails`).
- Loading the CSV/Excel files is an input parameter, namely the rows themselves.

## Model

| member | source | states |
|---|---|---|
| Party.ParseParty | table_def_gdp_party.py:65 | The `president_party` text is Republican or Democrat exactly when it is that name; any other text is a third value that no mask selects. |
| Windows.Truncate | OGplots.py:79 | `int()` of a float truncates toward zero: the result is within one year of the argument, at or below it for a non-negative year and at or above it for a negative one. |
| Windows.NumeralRoundTrip | OGplots.py:79 | `int(str(n)) == n`: the decimal text of any year is a numeral that converts back to that year. |
| Windows.StartBound | OGplots.py:76-79 | 'min' is the unbounded start and nothing else is. Any other argument goes through `int()`: an int is kept, a float truncated, numeral text converted, and any other text ('max' included) raises `ValueError`. |
| Windows.EndBound | OGplots.py:80-83 | 'max' is the unbounded end and nothing else is. Every other argument is converted as by `StartBound`, and other text ('min' included) raises `ValueError`. |
| Windows.BoundConversions | OGplots.py:76-83 | A year passed as text gives the same bound as the year itself, at either end. 'max' as a start year and 'min' as an end year raise `ValueError`. |
| Windows.MinOf | OGplots.py:77 | `year.min()` is absent (NaN) exactly on empty data, and otherwise is a year of the data that is at most every year. |
| Windows.MaxOf | OGplots.py:81 | `year.max()` is absent exactly on empty data, and otherwise is a year of the data that is at least every year. |
| Windows.ResolvedBoundsHold | OGplots.py:76-84 | With 'min'/'max' resolved to the data's extreme years, every row passes both comparisons, so the resolved bounds drop nothing. |
| Windows.StartWindow | scatter_def_rev_spnd_party.py:81-85 | The start-year window keeps exactly the rows at or after an explicit start year, in order; with 'min' it keeps every row. |
| Windows.YearWindow | OGplots.py:76-84 | The two-sided window keeps exactly the rows inside the inclusive bounds, in order, with 'min'/'max' imposing no bound; with both unbounded it keeps every row. |
| Cohorts.Cohort | scatter_def_rev_spnd_party.py:140-201 | Each `df[mask]` cohort is an order-preserving subsequence of the windowed rows. It contains every row the mask selects and no other row. |
| Cohorts.CohortList | scatter_def_rev_spnd_party.py:203-206 | `cntrl_cds_list[k][j]` is the cohort of definition k (all, whsen, whhou) and label j (Rep, Dem, Split). |
| Cohorts.PanelsPartition | scatter_def_rev_spnd_party.py:203-206 | If a rule splits every row under every definition, each of the three `cntrl_cds_list` triples partitions the Republican/Democratic rows: each such row is in exactly one cohort, any other row in none, and the sizes add up. |
| Cohorts.CohortsNested | tseries_def_rev_spnd_gdp.py:84-136 | If a rule puts every fully controlled year in the same party's Senate and House cohorts (as `FlagRule.FullNested` and `HalfSeatRule.FullNested` show for theirs), the full-control cohort is an order-preserving subsequence of both. |
| Cohorts.PartitionCounts | table_def_gdp_party.py:63-146 | If a rule puts each Republican/Democratic year in exactly one label and other years in none, the three cohorts partition those years and their sizes add up to their count. |
| FlagRule.Classify | scatter_def_rev_spnd_party.py:140-201 | With 0/1 flags, the nine flag masks are the party-control rule of the notes: label k is assigned exactly when mask k holds. A president of neither party gets no label. |
| FlagRule.RowPartition | tseries_def_rev_spnd_gdp.py:84-144 | With 0/1 flags, a Republican/Democratic year satisfies exactly one of the three masks of each definition, and any other year satisfies none. |
| FlagRule.Partition | table_def_gdp_party.py:64-142 | With 0/1 flags, the Rep/Dem/Split cohorts of any definition partition the Republican/Democratic rows: each such row is in exactly one, a row of another party in none, and the sizes sum to their count. |
| FlagRule.FullNested | scatter_def_rev_spnd_party.py:140-193 | Full Republican (Democratic) control implies Republican (Democratic) Senate control and House control. |
| FlagRule.OtherPartyExcluded | scatter_def_rev_spnd_party.py:140-160 | A year whose president is of neither party is in no cohort, whatever its flags. |
| FlagRule.PanelsPartition | scatter_def_rev_spnd_party.py:203-206 | With 0/1 flags, each of the three panel triples partitions the Republican/Democratic years: each in exactly one cohort, a year of another party in none, and the sizes add up. |
| PartyTable.Window20InWindow21 | table_def_gdp_party.py:47-48 | The 1947-2020 window is the 1947-2021 window without its 2021 rows, in the same order. |
| PartyTable.Override | table_def_gdp_party.py:52-56 | The override changes only the five fiscal values of the last row, and they become the 2021 forecast. Every other row and every party field stays as read. An empty window has no last row (`IndexError`). |
| PartyTable.CountsSum | table_def_gdp_party.py:63-146 | With 0/1 flags, the three `count()`s of one definition sum to the number of Republican/Democratic years of the window. |
| PartyTable.CountRow | table_def_gdp_party.py:63-379 | The `N=` counts of the three definitions, in panel order, each adding up to the Republican/Democratic years when the flags are 0/1. |
| PartyTable.CountsIgnoreFiscal | table_def_gdp_party.py:52-71 | Rewriting fiscal values leaves every cohort size unchanged, so the override cannot change a count. |
| PartyTable.CountTable | table_def_gdp_party.py:47-71 | The table fails exactly when the 1947-2021 window is empty. Otherwise the 1947-2021 counts equal those of the data as read, and each column sums to the window's Republican/Democratic years. |
| ScatterPlots.AxisSettings | scatter_def_rev_spnd_party.py:98-131 | `mid_line` is 50 exactly for Senate seats and 217.5 exactly for House seats. The x ticks are 2 or 10, and the y ticks are 2 for receipts and 5 otherwise. An unknown x variable leaves `seat_type` unbound (the first unbound name read), and an unknown y variable leaves `y_tick_interval` unbound. |
| ScatterPlots.GenScatter | scatter_def_rev_spnd_party.py:81-322 | The errors come in source order. A missing y column raises `KeyError`, then a text y column on a non-empty window raises `TypeError` (line 91). The same two checks follow for the x column (lines 93-95). After that come the axis settings. Last, fewer than three note lists raise `IndexError` at `note_text_list[k]` (line 319), which the default `[]` always does. The call succeeds exactly when none of these fails, and panel k carries note list k. The rows are the start-year window. The panels are the nine flag-mask `df[mask]` cohorts of that window in `cntrl_cds_list` order, and with 0/1 flags each panel partitions its Republican/Democratic years. |
| PartyTseries.RecessionBars | tseries_def_rev_spnd_gdp.py:194-212 | With an explicit start year, a recession's patch is drawn iff both years are at or after it, and every patch comes from such a recession. With 'min', the condition is that some data year precedes both years. |
| PartyTseries.GenTseries | tseries_def_rev_spnd_gdp.py:71-269 | The call succeeds exactly when the y column is one of the three fiscal shares in the hover-tool table (lines 233-238, docstring lines 63-66) and at least three note lists are given. Otherwise the errors come in source order. A missing column raises `KeyError` (line 77). A text column on a non-empty window raises `TypeError` from `min_yvar - 3` (line 177). Any other column raises `UnboundLocalError('tool_str')` (line 240). Last, fewer than three note lists raise `IndexError` at `note_text_list[k]` (line 266), which the default `[]` always does. On success panel k carries note list k, and the window keeps the rows from the start year on. The panels are the nine flag-mask cohorts of that window, each panel partitions its Republican/Democratic years (0/1 flags), and the bars start at `min_year`. |
| Recessions.PatchesFor | tseries_def_rev_spnd_gdp.py:197-212 | One loop pass draws nothing for an ineligible recession and one [peak, trough] patch for an eligible one. An eligible same-year recession also gets a [year, year+1] patch. |
| Recessions.Bars | tseries_def_rev_spnd_gdp.py:194-212 | The loop draws one patch per eligible recession plus one per eligible same-year recession. Every eligible recession's patches are present, and every patch comes from a recession that may draw it. |
| Recessions.EarliestYear | deficit_gdp_party_tseries.py:135-181 | Both years of a recession are at or after the earliest data year exactly when some data year is at or before both. |
| Recessions.DataBars | deficit_gdp_party_tseries.py:170-188 | With `min_year` the earliest data year, a recession's patches are drawn exactly when some data year is at or before both of its years. |
| Recessions.StartBars | tseries_def_rev_spnd_gdp.py:194-212 | With an explicit `min_year`, a recession's patches are drawn exactly when both its years are at or after it, and no other patch is drawn. |
| HalfSeatRule.Classify | deficit_gdp_party_scatters.py:104-181 | The nine "at least half" masks are the party-control rule read with seat counts: label k is assigned exactly when mask k holds, for every record. |
| HalfSeatRule.RowPartition | deficit_gdp_party_scatters.py:104-181 | Every Republican/Democratic year satisfies exactly one mask of each definition, and any other year none, with no assumption on the data. |
| HalfSeatRule.Partition | deficit_gdp_party_scatters.py:104-181 | The Rep/Dem/Split cohorts of each definition partition the Republican/Democratic rows: exactly one each, none for other rows, with sizes summing to the count. |
| HalfSeatRule.RepDemDisjoint | deficit_gdp_party_scatters.py:104-118 | No year is in both the Republican and the Democratic cohort of a definition. |
| HalfSeatRule.TieCountsAsHeld | deficit_gdp_party_scatters.py:104-132 | A chamber split exactly in half counts as held by the president's party ("at least half"), so a year with both chambers tied is full control, not split. |
| HalfSeatRule.FullNested | deficit_gdp_party_scatters.py:104-170 | Full control by a party implies its Senate control and its House control. |
| HalfSeatRule.PanelsPartition | deficit_gdp_party_scatters.py:183-186 | Each of the three panel triples partitions the Republican/Democratic years: each in exactly one cohort, a year of another party in none, and the sizes add up, with no assumption on the data. |
| OtherHalfRule.RepDemDisjoint | deficit_gdp_party_tseries.py:50-64 | The Republican and Democratic cohorts never share a year. |
| OtherHalfRule.OverlapOnlyOnTie | deficit_gdp_party_tseries.py:50-78 | When the seats add up, a year is in both the president's cohort and Split only if a chamber the definition looks at is tied half and half. |
| OtherHalfRule.CoveredWithoutThirdParty | deficit_gdp_party_tseries.py:50-126 | Without third-party seats, every Republican/Democratic year is in some cohort of each definition. |
| OtherHalfRule.AgreesWithHalfSeatRule | deficit_gdp_party_tseries.py:50-126 | Away from ties and third-party seats, the masks as written agree with the complementary rule. |
| OtherHalfRule.OverlapExists | deficit_gdp_party_tseries.py:68-78 | Under every definition, some consistent year is both Republican-controlled and split: the masks are not a partition. |
| OtherHalfRule.GapExists | deficit_gdp_party_tseries.py:50-78 | Under every definition, some consistent Republican year with third-party seats is in none of the three cohorts. The note under the chart (lines 234-246) allows this, since it defines both control and split by a strict majority; the complementary rule of the scatter panels does not. |
| OtherHalfRule.AsWrittenNotPartitioned | deficit_gdp_party_tseries.py:50-78 | With the tied year as the only row, no definition's triple of masks as written partitions the data, which the corrected panels do. |
| OtherHalfRule.OverlapInflatesCounts | deficit_gdp_party_tseries.py:50-78 | For a single tied year, the three full-control cohorts hold two entries although there is one year. |
| OtherHalfRule.Panels | deficit_gdp_party_tseries.py:50-126 | These are the nine cohorts the script builds, one triple per definition; only the full-control triple is drawn (see `TseriesPlot`). With split corrected to the complement of control, the triples are the complementary seat rule's cohorts, and each partitions the Republican/Democratic years: exactly one cohort each, none for other years, sizes adding up. |
| OtherHalfRule.TseriesPlot | deficit_gdp_party_tseries.py:147-204 | The script draws one figure. Its circles use only the full-control triple (lines 194-204), which is the first of the built triples. Under the corrected rule that triple partitions the Republican/Democratic years. The Senate and House triples are built but not drawn. A recession bar is drawn exactly when some data year precedes both of its years. |
| DeficitPartyPlots.PlotSetup | deficit_party_plots.py:189-263 | A component outside deficit/spending/revenues, then a seat type outside house/senate, is a `ValueError`. Otherwise `half_line` is 217 for house and 50 for senate, and `starting_index` is 11 exactly for spending, 0 otherwise. |
| DeficitPartyPlots.PassColour | deficit_party_plots.py:304-341 | Each pass gives a year exactly one of red, blue or green: red iff the tab's red test holds, blue iff its blue test holds, green iff neither. |
| DeficitPartyPlots.PassFollowsControlRule | deficit_party_plots.py:304-341 | Each pass is the party-control rule with a chamber held by Republicans below the threshold and by Democrats above it. |
| DeficitPartyPlots.ThresholdIsGreen | deficit_party_plots.py:304-341 | Exactly 217 Democratic House seats, or exactly 50 Democratic Senate seats, is green in every tab that tests that chamber. |
| DeficitPartyPlots.ColourColumn | deficit_party_plots.py:298-341 | The shared 92-entry column ends up holding the WH+House pass from `starting_index` on and black before it. An `IndexError` occurs exactly when a coloured row lies past entry 92. |
| DeficitPartyPlots.SharedColumnMisleads | deficit_party_plots.py:298-341 | Some year (1981) is red under WH+Senate control yet green under full and WH+House control, and green is what all three tabs then show. |
| DeficitPartyPlots.TabColours | deficit_party_plots.py:298-341 | In the corrected per-tab columns, tab i holds, from `starting_index` on, the party-control colour of definition i. |
| RevenueGraph.MajorityCircle | revenue_graph.py:112-138 | A circle is red iff the Republicans exceed the threshold under a Republican White House. It is blue iff the Democrats exceed it under a Democratic White House, and green otherwise. The result is never black, and red and blue never hold together. |
| RevenueGraph.HouseCircleFollowsControlRule | revenue_graph.py:112-138 | The circles follow the code's rule: control means the president's party holds more than 217 House seats, and the final `else` makes every other year split. The note under the chart (lines 172-182) is narrower and calls a year split only when the other party holds a House majority. |
| RevenueGraph.ExactlyThresholdIsGreen | revenue_graph.py:113-123 | The president's party holding exactly 217 House seats gives a green year. |
| RevenueGraph.RevenueChart | revenue_graph.py:87-138 | The chart has one circle per year, in order, each red, blue or green by the House rule. A recession bar is drawn exactly when some data year precedes both of its years. |
| SenateSeatScatter.SenateCircleFollowsControlRule | deficit_demsenateseats.py:83-115 | The circles follow the code's rule: control means the president's party holds more than 50 Senate seats, and the final `else` makes every other year split. The note under the chart (lines 152-160) calls a year split only when the other party holds a House majority. |
| SenateSeatScatter.EvenSenateIsGreen | deficit_demsenateseats.py:84-96 | A 50-50 Senate is green whoever holds the White House. |
| SenateSeatScatter.SenateCircles | deficit_demsenateseats.py:83-115 | The chart has one circle per year, in order, each red, blue or green by the Senate rule. |
| Frames.ColumnMin | OGplots.py:92 | `df[v].min()` is NaN exactly when the column has no value. Otherwise it is a value of the column and at most every value. |
| Frames.ColumnMax | OGplots.py:93 | `df[v].max()` is NaN exactly when the column has no value. Otherwise it is a value of the column and at least every value. |
| Frames.WindowRows | OGplots.py:84 | The window keeps exactly the rows inside the inclusive year bounds, in order. |
| Frames.SeriesRows | OGplots.py:94 | `dropna` keeps an order-preserving subsequence: every kept row has the value, and every row with the value is kept. |
| Frames.XRange | OGplots.py:76-108 | `x_range` is one year beyond an explicit bound on each side. An end is NaN exactly when it is unbounded and the data are empty. |
| Frames.XRangeContainsWindow | OGplots.py:84-108 | Every windowed year lies strictly inside `x_range`. |
| Frames.XRangeTight | OGplots.py:76-108 | With 'min'/'max', each end of `x_range` is exactly one year beyond an actual row. |
| Frames.MissingColumn | OGplots.py:91-92 | The first series name that is not a column, if any: absent exactly when every name is a column. |
| Frames.SeriesBounds | OGplots.py:88-93 | The running `np.minimum`/`np.maximum` bounds are NaN exactly when some series has no value. Otherwise the minimum is at most its start value and every value, and is the start value or an actual value; dually for the maximum. |
| Frames.CollectSeries | OGplots.py:84-97 | When every series is a column: the window, each series' non-missing windowed rows in order, and the running bounds with their promises. |
| Frames.ExtractSeries | OGplots.py:84-97 | The loop raises `KeyError` for exactly the first series that is not a column; otherwise it behaves as `CollectSeries`. |
| OgPlots.GenTseriesDy | OGplots.py:76-133 | The first missing series raises `KeyError`. Then fewer legend labels than series raise `IndexError` (`legend_label_list[k]`, line 133), and the call succeeds exactly when neither happens. On success each series holds its non-missing windowed rows, and `x_range` is the window's. The y range is NaN iff some series is empty, and otherwise lies five points beyond every value and beyond 100/0. |
| OgPlots.GenTseriesMacro | OGplots.py:168-229 | Same errors, window and series as `gen_tseries_dy`: a missing column, then too few legend labels (line 229). With at least one series, the buffered y range is ordered and contains every value. With none, the range is reversed (110 to -10). |
| OgPlots.CrossProduct | OGplots.py:264-266 | `x` has one pair per category and label. |
| OgPlots.CrossProductAt | OGplots.py:264-266 | Entry `i*|labels| + j` of `x` is (category i, label j): the product is category-major. |
| OgPlots.CrossProductIndex | OGplots.py:264-266 | Conversely, position p of `x` holds category `p / |labels|` and label `p % |labels|`. |
| OgPlots.HeightFailure | OGplots.py:267-272 | The bar-height reads on the first row fail exactly when there are fewer than four height columns or one of the first four is missing, with `IndexError` or `KeyError`. |
| OgPlots.BarHeights | OGplots.py:267-272 | `data1` holds, for row `obs`, the values of `bar_hgt_vars1[0..3]` at positions `4*obs .. 4*obs+3`. It fails only with rows and fewer than four, or missing, height columns. |
| OgPlots.GenHhdist2Bars | OGplots.py:263-327 | The chart fails in source order: a missing category column, then a bar-height failure, then the first missing height column of both groups (`KeyError`), then an empty label list (`IndexError`); it succeeds exactly when none of these occurs. On success, `x` and `data1` are equally long iff there are four labels (or no rows), and the buffered y range contains every height. |
| OgPlots.BufferedRange | OGplots.py:286-312 | The bar chart's y range starts from 100/-100 and is widened by a tenth of the spread. It is NaN exactly when some height series has no value, and otherwise contains every value of both groups. |
| ForecastPlots.ForecastPoints | tseries_pubdebt_gdp_frcsts.py:95-99 | A series keeps the full-window rows where the series and its `_frcst` flag are present, in order. Each point's year and value come from that row, its `frcst` is 1 whatever the data said, and it carries the series' label. |
| ForecastPlots.LoopFailure | tseries_pubdebt_gdp_frcsts.py:92-97 | The loop fails exactly when some series lacks its column, its `_frcst` column or its legend label. The error is the first such `KeyError`/`KeyError`/`IndexError`. |
| ForecastPlots.RoundHalfEven | tseries_pubdebt_gdp_frcsts.py:139 | `np.round` is within one half of its argument, sends ties to the even integer, and is exact on integers. |
| ForecastPlots.ShadeOrdered | tseries_pubdebt_gdp_frcsts.py:132-139 | The unrounded `slope*k + 200` lies in [0, 200] and does not increase with k. |
| ForecastPlots.ColourEnds | tseries_pubdebt_gdp_frcsts.py:132-139 | The first series gets colour index 200 and the last gets 0. |
| ForecastPlots.ColourOrdered | tseries_pubdebt_gdp_frcsts.py:132-139 | Colour indices never increase with k and stay within [0, 200]. |
| ForecastPlots.Colours | tseries_pubdebt_gdp_frcsts.py:132-139 | The index list has one entry per series, runs from 200 to 0, and never increases. |
| ForecastPlots.GenTseriesFrcst | tseries_pubdebt_gdp_frcsts.py:68-139 | A loop failure comes first, then a single series divides by zero (`ZeroDivisionError`). On success, the axes follow the main window: each end is NaN exactly when some series is empty, and is otherwise ±5 around 100/0 and every value. The points follow the full window, and the colours run from 200 to 0. |
| CboOgusaPlot.LabelledSeries | tseries_pubdebt_gdp_cbo_ogusa.py:56-59 | A series holds its non-missing windowed rows in order, each with its year and value and tagged with the series' legend label. |
| CboOgusaPlot.SeriesFailure | tseries_pubdebt_gdp_cbo_ogusa.py:53-57 | The loop fails exactly when some series lacks its column or its legend label, with the first such `KeyError` or `IndexError`. |
| CboOgusaPlot.AllSeries | tseries_pubdebt_gdp_cbo_ogusa.py:53-60 | Series k carries legend label k, for every series. |
| CboOgusaPlot.GenTseriesFrcst | tseries_pubdebt_gdp_cbo_ogusa.py:38-99 | After the loop, fewer than two series is an `IndexError`. Otherwise every series is labelled, only the first two are drawn (red, blue), and the y range is five points beyond every value and beyond 100/0. Each end of that range is NaN exactly when some series is empty. |
| OutlaysPlot.GenTseries | tseries_nonintoutlays_gdp.py:48-77 | A missing series is a `KeyError`. Otherwise the minimum and maximum are attained values bounding the series, the buffer is a non-negative tenth of their spread, and the y range contains every value; all are NaN when the window has no value. |

## Left out

- Bokeh figure construction is not modelled: ticks, fonts, legends, hover tools, captions, tabs, `output_file`/`save`/`show`. It is rendering. Only the values a figure is built from are modelled.
- Reading CSV/Excel files with pandas is I/O. The loaded data is an input sequence of records.
- Cohort means and standard deviations are not modelled. They are floating-point statistics; only the counts are kept.
- `tdist.py`, `debt_graph.py`, `deficit_intererst_graph.py`, `tseries_def_int_gdp.py`, `tseries_pubdebt_gdp.py` and `debt_federal_graph.py` are left out. They are plotting, or a float scaling followed by plotting, with no logic to state.
- The percent-change and debt/GDP derivations are not modelled. They are float arithmetic.
- Fiscal arithmetic uses exact reals, not 64-bit floats. This includes the `0.5 * total` comparisons (exact as `2 * seats >= total` on integers), the y-range buffers and the colour slope.
- Indexing of the per-series colour and marker lists in the drawing loops is not modelled. Neither is `color_list[0]` in `gen_hhdist_2bars` (OGplots.py:327). These lists are drawing arguments, and the model says nothing about their length. The legend-label list of the same loops is modelled (`IndexError` when it is short). The model takes the colour and marker lists to be long enough, so on line 133 (resp. 229) it is the label that fails first.
- OgPlots.GenHhdist2Bars: the height loop also reads the hard-coded `lfinc_qntl` column (OGplots.py:294). The model assumes that column is present, so it never raises `KeyError('lfinc_qntl')`.
- Bokeh reports a length mismatch between `x` and `top` (OGplots.py:326) when drawing, not by raising. `OgPlots.GenHhdist2Bars` therefore states when the lengths agree rather than failing.
- The recession bars are drawn once per panel in the three-panel scripts. They are modelled once, since every panel gets the same bars.
- The plot functions take the converted `Windows.Bound`. They are not composed with `Windows.StartBound`/`Windows.EndBound`, so the `ValueError` a bad year argument raises is stated only by those two functions. In the scripts it comes before any column is read.
- Windows.StartBound: `int()` also accepts surrounding whitespace and underscores between digits. The model reads only an optional sign followed by decimal digits as a numeral, so such text is a `ValueError` here. The error's message is the argument itself, not Python's wording.
- Windows.EndBound: the same gap as `StartBound`. Numeral text with surrounding whitespace or underscores is a `ValueError` here, although `int()` accepts it, and the message is the argument itself.
- The year columns are nullable integers in the scripts. The model assumes every row has a year.
- The scripts name the same fields differently (`dem_senateseats` / `DemSenateSeats`, `year` / `Year`). They are modelled as one record field.
- PartyTable.CountRow: `count()` counts the non-NaN `deficit_gdp` values of a cohort. The model counts its rows, which is the same number when every fiscal value is present.
- PartyTable.Override: the five `.iloc[-1]` assignments (table_def_gdp_party.py:52-56) are chained assignments on a slice. They are modelled as changing the window's last row, which is what happens without copy-on-write.
- ForecastPlots.GenTseriesFrcst: the colour index is the rounded exact-real `slope*k + 200`. A float slope could round a value lying within one ulp of a half differently.
- RevenueGraph.RevenueChart: only the House-based circles and the recession bars are modelled. The receipts line itself is drawing.
- DeficitPartyPlots.PlotSetup: the minimum and maximum of the seat and y columns read in each branch are not modelled. They only size the axes.
- ScatterPlots.GenScatter: the x and y ranges widened by 7.5% of the spread are not modelled. They are float axis sizing, of the same shape as `OutlaysPlot.GenTseries`.
- PartyTseries.GenTseries: the y range of the panels (±3 around the extremes) is not modelled. It is axis sizing.

## Findings

| source | as written | input that shows it | evidently intended | confidence | as-written member | corrected member |
|---|---|---|---|---|---|---|
| deficit_gdp_party_tseries.py:68-78 | Control needs at least half of a chamber, and the split mask selects a year when the other party also holds at least half of one. A tied chamber satisfies both, so the year is counted twice. | A Republican president with a 50-50 Senate and a 217-217 House is in both the Republican and the Split cohort. | No year is in two cohorts. The note under the chart (lines 234-246) gives control and split by a majority each, which cannot both hold, and the sibling scatter script (deficit_gdp_party_scatters.py:122-132) makes split the complement of control. The corrected member follows the sibling script. The third-party year in no cohort (`OtherHalfRule.GapExists`) fits the note's strict-majority wording, so it is a difference from the sibling script, not part of this finding. | not executed | OtherHalfRule.OverlapExists | OtherHalfRule.Panels |
| deficit_party_plots.py:179 | All three tabs colour the one shared `color` column (lines 298-341), and the figures render after the loop. Every tab therefore shows the last, White House + House, classification. | 1981 (Republican president, 46 Democratic senators, 243 Democratic representatives) is red under Senate control but green under full and House control. All three tabs show green. | Each tab shows its own definition's colours, as its title and footnote describe. | not executed | DeficitPartyPlots.SharedColumnMisleads | DeficitPartyPlots.TabColours |
