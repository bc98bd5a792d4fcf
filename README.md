# Mann–Kendall trend pipeline: a Dafny model

This project models the analysis core of a hydrology study. The study detects
monotonic trends in functional-flow metrics of climate-model runs and then
aggregates them across models and sites. It has six modules:

- `base.dfy` (`Base`) holds the shared vocabulary:
  - the Python exception kinds the pipeline can raise;
  - missing (NaN) cells as `None`;
  - the three trend labels;
  - tables as rows under index labels, and `.loc[label]` lookup by label;
  - the few Python string operations the pipeline relies on: `in` on strings, `split('/')`, and slicing.
- `trends.dfy` (`Trends`) models `calc_mk_trend` and `differencing`.
  - A metric series is cleaned, skipped when it is shorter than 11 values, and converted with `float()`.
  - It is then tested. When the residuals of the fitted line are autocorrelated (Ljung–Box p < 0.05), the original series is differenced at lags 1, 2, … until a lag passes or the differenced series gets too short.
  - The Mann–Kendall/Sen/Ljung–Box statistics are one uninterpreted function, `TrendTests`.
  - Each gage's result table is a class whose rows are updated in place, by label, the way `.loc[label, column] = value` does: a label the table lacks gets a new row at the end.
- `utils.dfy` (`Utils`) models:
  - the per-gage result tables;
  - the label counts per metric, with and without flow classes;
  - the −1/0/+1 encoding and cell-wise sums across the models of an emissions scenario;
  - the normalised Gini score of the label distribution, over exact reals;
  - the future-minus-historical change tables of `create_model_tables`.
- `eco.dfy` (`EcoEndpoints`) models eco-exceedance scoring:
  - The control run's NaN-aware minimum and maximum of each metric are that metric's eco endpoints.
  - Each run's share of values strictly outside them is averaged into a total score and six seasonal group scores.
  - The summary rows are sorted by model name.
- `plotting.dfy` (`Plotting`) models the star ranking of Gini values.
- `sacsma.dfy` (`SacsmaToFfc`) models the conversion of SAC-SMA output rows into calculator input:
  - the Gregorian validity check of `strptime`;
  - zero-padded `MM/DD/YYYY` dates;
  - the output file name.

The functions that glob a directory and read CSV files take the list of (path, table) pairs that reading would have produced. The functions that write a CSV file return the table they would write.

The model keeps these behaviours of the code as written:
- A cell that `float()` rejects raises ValueError (trends.py:26-27). It is not silently dropped.
- The zero-slope correction takes effect only in the undifferenced branch. The differenced branch compares with `==` instead of assigning, so a zero slope is recorded there (trends.py:46-51).
- When no lag passes before the differenced series becomes shorter than 11, nothing is written: decision and slope stay NaN. No last computed decision is kept (trends.py:34-38).
- In the cross-model sums, `DataFrame.add` has no `fill_value`, so a NaN cell in any file makes the summed cell NaN. It does not count as 0 (utils.py:216).
- Gini scores are percentages in [0, 100], not shares in [0, 1] (utils.py:262).
- `gini_index_mk_trends` takes its metric labels from the first RCP 8.5 file, but scores only the RCP 4.5 files, each read by label with `.loc[metric]` (utils.py:244, 253).

## Model

| member | source | states |
|---|---|---|
| Base.IndexOf | utils.py:253 | The position found holds the label, and no earlier position does: it is the first occurrence |
| Base.RowOf | eco_endpoints.py:139 | `.loc[label]` fails with KeyError exactly when the label is absent from the index; otherwise it is the row at the label's first position |
| Base.AllOk | eco_endpoints.py:137-142 | Collecting per-item results fails exactly when some item fails, with the first failure in order; otherwise it keeps every value in place |
| Base.AllOkFirstErr | eco_endpoints.py:137-142 | The first failing item decides the outcome, whatever follows it |
| Base.AllOkStep | eco_endpoints.py:137-142 | One more success extends the collected values by that value |
| Base.ContainsAt | utils.py:144 | A substring occurring at any position makes Python's `in` true |
| Base.ContainsWitness | utils.py:144 | Python's `in` is true only when the substring occurs at some position |
| Base.SliceFrom | utils.py:247 | `s[k:]` has `len(s) - k` items, each the item `k` places later, and is empty past the end |
| Base.SliceDropLast | utils.py:237 | `s[0:-k]` is a prefix of `s` that is `k` shorter, or empty when `k` exceeds the length |
| Base.Split | utils.py:237 | `split('/')` always yields at least one piece |
| Base.JoinSplit | utils.py:237 | Splitting on `/` and joining again gives back the path, so no character is lost |
| Base.SplitPiecesFree | utils.py:237 | No split piece contains the separator |
| Base.ThirdComponentStem | SACSMA_to_FFC.py:25 | `path.split('/')[2][0:-4]` raises IndexError exactly when the path has fewer than three components; otherwise it is the prefix of the third component that is four characters shorter, or empty for a shorter component |
| Base.CountsBounded | utils.py:253-260 | The three label counts of a row add up to at most the number of cells |
| Base.CountAppend | utils.py:253-259 | Label counts over two concatenated rows add up |
| Base.CountAll | utils.py:253-259 | A row where every cell carries one label counts every cell under that label |
| Trends.Clean | trends.py:21 | Every cell left after cleaning is neither 'None' nor missing, and cleaning never lengthens the series |
| Trends.CleanAppend | trends.py:21 | Cleaning a concatenation cleans the parts, so the kept cells stay in order |
| Trends.CleanMembers | trends.py:21 | Cleaning keeps exactly the cells that are neither missing nor the string 'None' |
| Trends.CleanKeepsClean | trends.py:21 | A series with nothing to drop comes through unchanged |
| Trends.ConvertToFloats | trends.py:26-27 | The `float()` loop succeeds exactly when every kept cell is numeric, else raises ValueError; the values keep their positions |
| Trends.Differencing | trends.py:79-84 | The result has `len(S) - L` items (none when `L >= len(S)`), and item `i` is `S[i+L] - S[i]` |
| Trends.LagSearchFirstPassing | trends.py:34-52 | The lag search succeeds exactly when some lag in `1 .. n-11` passes; it reports the first passing lag's statistics, and no later lag is used |
| Trends.SkipShortSeries | trends.py:23-24 | A cleaned series shorter than 11 leaves decision and slope NaN and raises nothing |
| Trends.MetricErrors | trends.py:21-28 | Processing a metric raises only when a long-enough cleaned series holds a non-numeric cell, and then raises ValueError |
| Trends.SlopeOnlyWithTrend | trends.py:44-61 | A recorded slope always sits beside a decision of 'increasing' or 'decreasing' |
| Trends.UndifferencedDecision | trends.py:53-61 | Without autocorrelation the trend is recorded. The slope is recorded only for a trend other than 'no trend' with a non-zero slope. A zero slope turns the decision into 'no trend' |
| Trends.DifferencedDecision | trends.py:33-52 | With autocorrelation, the first passing lag decides, whatever later lags report |
| Trends.LagSearchReaches | trends.py:34-52 | A lag search started at or before the first passing lag returns that lag's statistics |
| Trends.DifferencedNoLag | trends.py:33-52 | With autocorrelation and no passing lag, both cells stay NaN |
| Trends.DifferencedZeroSlopeKept | trends.py:46-51 | In the differenced branch, an up or down trend with slope 0 is recorded with slope 0 (the `==` comparison changes nothing) |
| Trends.PutLabels | trends.py:44 | Writing by a label the index lacks appends that label at the end; writing by a present label keeps the index; either way an index without repeats stays without repeats |
| Trends.PutCell | trends.py:44 | After a write by label, that label reads the written cells and every other label reads what it read before |
| Trends.PutTwice | trends.py:54-61 | Two writes by the same label leave what the second alone would leave: the later write wins |
| Trends.ClearedCells | trends.py:15-16 | Setting both columns to NaN keeps the index and empties every label's cells |
| Trends.ResultTable.constructor | utils.py:76 | A new table has the gage id and exactly the given metric labels as its index, with no cell written under any label; it is usable by label exactly when the labels do not repeat |
| Trends.ResultTable.ClearColumns | trends.py:15-16 | The index is kept and every cell becomes NaN |
| Trends.ResultTable.SetDecision | trends.py:44 | `.loc[label, 'mk_decision'] = t`: the rows under that label get decision `t` and keep their slope, or a new row with that decision is appended; no other label changes |
| Trends.ResultTable.SetSlope | trends.py:47 | `.loc[label, 'sen_slope'] = v`: the rows under that label get slope `v` and keep their decision, or a new row is appended; no other label changes |
| Trends.SearchLags | trends.py:34-52 | The lag loop returns what the lag search specifies |
| Trends.UndecidedIsUnwritten | trends.py:23-52 | A metric that records no decision records no slope either |
| Trends.RecordMetric | trends.py:18-61 | The metric's decision and slope are written under its own label, appended when the label is new; a metric without a decision writes nothing; on ValueError the table is left as it was |
| Trends.OutcomeStep | trends.py:18-19 | Processing the next metric changes what its own label reads and nothing else |
| Trends.WriteStep | trends.py:18-61 | Writing the next metric's outcome under its label turns a table filled by the first `m` metrics into one filled by the first `m + 1`, keeping the index free of repeats |
| Trends.AllRecordedMeaning | trends.py:18-28 | None of the first `m` metrics raises exactly when each of them processes without error |
| Trends.ReplayedFilled | trends.py:15-61 | Clearing a table and writing the metrics one after another by label leaves its index extended by the decided labels it lacked, in metric order, and makes every label read its metric's outcome (NaN for a label no metric has) |
| Trends.CalcGage | trends.py:15-61 | ValueError exactly when some metric raises; otherwise the table is the cleared table with every metric written in order by label |
| Trends.SummaryTable | trends.py:63-66 | The summary has the given index and one `mk_decision` column per gage id, aligned by label; with repeated ids, the last table wins |
| Trends.AlignedByLabel | trends.py:66 | A summary column read at each index label gives that label's decision in the gage's filled table, NaN where the gage has no such metric |
| Trends.FillTables | trends.py:13-61 | ValueError exactly when some metric of some gage raises; otherwise every table is its cleared self with its gage's metrics written by label, so each label reads its own metric's outcome |
| Trends.CalcMkTrend | trends.py:11-68 | IndexError without gages, ValueError if any metric raises; otherwise every table is filled by label, the summary is indexed by the first table's final index, and each gage id's column holds, at every index label, the decision of that gage's metric with that label (last gage winning) |
| Utils.MakeResultsDicts | utils.py:71-81 | IndexError without gages; otherwise one fresh, distinct table per gage with that gage's id, all indexed by the first gage's metric labels, with no cell written |
| Utils.CountsSnoc | utils.py:253-259 | Counting one more cell bumps the counter of its label, and none for NaN |
| Utils.CountTrends | utils.py:253-259 | The counting loop over a row computes the three label counts; NaN bumps no counter, so the counts add up to at most the number of cells |
| Utils.DecisionOf | utils.py:127 | `.loc[metric, 'mk_decision']` raises KeyError exactly when the gage's table has no row with that label; otherwise it is the decision cell read under that label |
| Utils.CountMetric | utils.py:124-133 | The gage loop for one metric fails with KeyError exactly when some gage's table lacks the label; otherwise it gives the label counts of the decisions read by label from every gage, at most one per gage |
| Utils.SummaryRows | utils.py:122-136 | The metric loop fails with KeyError exactly when some table lacks one of the labels; otherwise, per label in order, the counts of the decisions read under it from every table |
| Utils.SummarizeDataNoClasses | utils.py:115-137 | IndexError without gages; KeyError exactly when some gage lacks a label of the first gage's index; otherwise, per label of that index, the counts of every gage's decision read by label, adding up to at most the number of gages |
| Utils.InClass | utils.py:84-89 | The gages of one class, in order, all with that class |
| Utils.GroupByClass | utils.py:84-89 | Nine lists; list `k` holds the gages of class `k+1` in input order |
| Utils.ClassSizesStep | utils.py:84-89 | One more gage grows the classes 1..c by one exactly when its class is among them |
| Utils.ClassesPartitionClassified | utils.py:84-89 | The nine classes together hold exactly the gages whose class is 1..9 |
| Utils.InClassMember | utils.py:84-89 | Every gage is among the gages of its own class |
| Utils.UncoveredClass | utils.py:100-103 | When some table of a class lacks a label, a gage of that class lacks it |
| Utils.ClassesCover | utils.py:100-103 | When every class 1..9 has all the labels in each of its tables, so has every gage of those classes |
| Utils.SummarizeData | utils.py:83-113 | IndexError without gages; KeyError exactly when a gage of class 1..9 lacks a label of the first gage's index, while gages of other classes are never read; otherwise, per class 1..9 and label, the counts of that class's decisions read by label, adding up to at most the class size |
| Utils.Routed | utils.py:143-147 | Each routed group keeps only items whose name routes there, in input order |
| Utils.RoutedSnoc | utils.py:232-243 | Routing one more item appends it to its own group and changes no other group |
| Utils.RoutedSizes | utils.py:143-147 | The two groups and the dropped items together account for every item exactly once: their sizes add up to the input size |
| Utils.RoutedKeeps | utils.py:199-205 | An item routed to a group is in that group |
| Utils.BothTagsGoFirst | utils.py:202-205 | A name containing both '45' and '85' goes to whichever tag is tested first, so the combine and Gini functions differ from `create_model_tables` |
| Utils.Partition | utils.py:143-147 | The partition loop produces exactly the two routed groups |
| Utils.CellSumIsNetDirection | utils.py:212-221 | Without NaN, a summed cell is the number of 'increasing' files minus the number of 'decreasing' files |
| Utils.CellSumMissing | utils.py:216 | A summed cell is NaN exactly when some file has NaN there |
| Utils.CellSumBounded | utils.py:209-221 | A summed cell's absolute value is at most the number of files |
| Utils.CellSumAllNoTrend | utils.py:214 | If every file says 'no trend', the summed cell is 0 |
| Utils.CellSumAllIncreasing | utils.py:215 | If every file says 'increasing', the summed cell is the number of files |
| Utils.CellSumSnoc | utils.py:216 | Adding one more file adds its encoded label to each summed cell |
| Utils.SumGroup | utils.py:212-221 | The accumulation loop starts from a zero table, and each cell ends as the sum of that cell's encoded labels |
| Utils.CombineMkModelStats | utils.py:195-226 | NameError without files; otherwise the 4.5 and 8.5 sum tables over the files routed '45'-first |
| Utils.SharesFacts | utils.py:261 | The shares `inc/tot`, `dec/tot`, `same/tot` are non-negative, add up to 1, are zero exactly when their count is, and are equal exactly when their counts are |
| Utils.GiniOfShares | utils.py:261-262 | The normalised score equals `150·(a²+b²+c²) − 50` over the shares |
| Utils.GiniScoreBounds | utils.py:260-262 | With at least one counted label, the score lies in [0, 100] |
| Utils.GiniHundredIffUnanimous | utils.py:260-262 | The score is 100 exactly when all counted labels agree |
| Utils.GiniZeroIffEvenSplit | utils.py:260-262 | The score is 0 exactly when the three counts are equal |
| Utils.RowScore | utils.py:250-262 | One metric row's score fails with ZeroDivisionError exactly when the row holds none of the three labels; otherwise it lies in [0, 100] |
| Utils.MetricScore | utils.py:253-262 | KeyError exactly when the table has no row with the metric's label; otherwise the first row under the label is scored: ZeroDivisionError exactly when it holds none of the three labels, else the Gini score of its counts, in [0, 100] |
| Utils.GiniColumn | utils.py:249-263 | A model's Gini column fails exactly when some metric fails, with the first failing metric's error; otherwise it has, per metric in order, that metric's score read by label, in [0, 100] |
| Utils.GiniColumnByLabel | utils.py:253 | Two tables that give the same row under every scored label give the same Gini column: other rows and row order do not matter |
| Utils.GiniForModel | utils.py:249-263 | The metric loop computes the model's Gini column |
| Utils.RoutedStems | utils.py:236-243 | When every routed path has a third component, so has every path of a routed group |
| Utils.RouteModelFiles | utils.py:232-243 | IndexError exactly when a routed file's path has fewer than three components; otherwise the '45'-first groups |
| Utils.TracksStep | utils.py:264 | One more `all_dfs[key] = column` keeps every written key mapped to its last write |
| Utils.TracksScored | utils.py:246-264 | After the loop, every model's key is present and holds the column of the last model with that key |
| Utils.ScoreModels | utils.py:246-264 | Fails exactly when some model's column fails, with the error of the first failing model; otherwise every model's key is present, and each key holds the column of the last model with that key |
| Utils.GiniMetrics | utils.py:244 | The metric labels are the index of the first RCP 8.5 table; IndexError exactly when there is none |
| Utils.GiniIndexMkTrends | utils.py:228-265 | Fails exactly when a routed path is short (IndexError), there is no RCP 8.5 file (IndexError), or some RCP 4.5 model's column fails (the first such model's KeyError or ZeroDivisionError); otherwise one column per RCP 4.5 key over the RCP 8.5 labels, the last model winning, every score in [0, 100] |
| Utils.ScoresInRange | utils.py:249-264 | Every column kept for a model key has one score per metric, each in [0, 100] |
| Utils.ChangeAtMeaning | utils.py:180-184 | A flow-magnitude index gives the percent change `(fut−hist)/hist·100`; any other index gives `fut−hist`; equal means give 0, except a zero historical mean at a magnitude index |
| Utils.DifferenceRule | utils.py:178-185 | The 28-slot zero buffer receives the change at every averaged index; IndexError when there are more than 28 averages or fewer future than historical ones |
| Utils.DedupSites | utils.py:151-156 | The site list has no duplicates, contains exactly the models' gage ids, and is in first-occurrence order |
| Utils.SitePositionsMeaning | utils.py:164-165 | The positions of a site are exactly the positions of its runs, each once, in increasing order |
| Utils.SiteModelsAreSiteRuns | utils.py:164-170 | A site's models are the runs at that site's positions: every run of the site, in input order, and no other |
| Utils.SiteColumns | utils.py:173-185 | One change column per site, in site order; IndexError when some site's averages cannot be indexed |
| Utils.BadSiteIsModelSite | utils.py:160-173 | A bad listed site is the site of some model |
| Utils.ModelSiteIsListed | utils.py:160-173 | A model's bad site is a listed site |
| Utils.CreateTable | utils.py:149-189 | Fails exactly when the group is empty or some site's averages cannot be indexed (IndexError), or else when the metric index is not 28 long (ValueError); otherwise the sites in first-occurrence order, each with its change column |
| Utils.CreateModelTables | utils.py:139-193 | Runs are routed '85'-first. It fails exactly when either group's table fails, with the 4.5 group's error when that one fails, since it is built first. Otherwise both tables, each with its group's sites in first-occurrence order and their change columns |
| EcoEndpoints.ControlIndex | eco_endpoints.py:12-15 | The last run whose id is the control id, or none when no run has it |
| EcoEndpoints.FindControl | eco_endpoints.py:12-15 | The model loop remembers the last control run |
| EcoEndpoints.Lowest | eco_endpoints.py:24 | `nanmin`: NaN when every value is missing, else a value of the row that is at most every present value |
| EcoEndpoints.Highest | eco_endpoints.py:25 | `nanmax`: NaN when every value is missing, else a value of the row that is at least every present value |
| EcoEndpoints.BoundsOfRow | eco_endpoints.py:21-25 | A metric's endpoints are the control row's NaN-aware min and max; KeyError when the control lacks the metric, ValueError when the row is empty |
| EcoEndpoints.EndpointMap | eco_endpoints.py:21-28 | The endpoint table has exactly the first run's metrics, each with its control bounds; the first failing metric decides the error |
| EcoEndpoints.EndpointMapErr | eco_endpoints.py:21-25 | A metric failing after a successful prefix is the error of the whole endpoint table |
| EcoEndpoints.ComputeEndpoints | eco_endpoints.py:21-25 | The endpoint loop computes the endpoint table |
| EcoEndpoints.Exceeds | eco_endpoints.py:140 | NaN never exceeds; a value below `eco_min` or above `eco_max` does; a value within the closed range, endpoints included, does not |
| EcoEndpoints.ExceedCount | eco_endpoints.py:138-141 | The count never exceeds the row length |
| EcoEndpoints.CountExceedances | eco_endpoints.py:138-141 | The counting loop counts the exceeding values |
| EcoEndpoints.ExceedCountZero | eco_endpoints.py:138-141 | The count is zero exactly when no value exceeds |
| EcoEndpoints.OwnRangeNoExceedance | eco_endpoints.py:140 | A row never exceeds the NaN-aware min and max of its own values |
| EcoEndpoints.Share | eco_endpoints.py:142 | `count/len` of a non-empty row lies in [0, 1], times the length gives the count back, and is 0 exactly when the count is |
| EcoEndpoints.RowFraction | eco_endpoints.py:139-142 | The fraction of a looked-up row lies in [0, 1] and times the row length (NaN included) gives the count; KeyError for a missing metric or endpoint, ZeroDivisionError for an empty row |
| EcoEndpoints.Fractions | eco_endpoints.py:136-142 | A run's fractions, when all succeed, are one per kept metric, each in [0, 1] |
| EcoEndpoints.FractionOf | eco_endpoints.py:138-142 | One metric pass computes that metric's fraction |
| EcoEndpoints.ModelFractions | eco_endpoints.py:136-142 | The metric loop fills the run's `dict` with every kept metric's fraction, stopping at the first error |
| EcoEndpoints.SumOfShares | eco_endpoints.py:143 | A sum of fractions in [0, 1] lies between 0 and their number |
| EcoEndpoints.SumOfZeros | eco_endpoints.py:143 | A sum of zero fractions is 0 |
| EcoEndpoints.SumOfOnes | eco_endpoints.py:143 | A sum of fractions that are all 1 is their number |
| EcoEndpoints.Percent | eco_endpoints.py:143 | `sum / n * 100` times `n` is 100 times the sum, so it is the mean as a percentage; in [0, 100] for a sum between 0 and `n`, 0 for a zero sum, 100 for a sum of `n` |
| EcoEndpoints.GroupScore | eco_endpoints.py:144-149 | KeyError exactly when some group metric was not kept; otherwise the score times the group size is 100 times the sum of the group's own fractions, in [0, 100] when all fractions are in [0, 1], and 0 when all are 0 |
| EcoEndpoints.GroupScoreExtremes | eco_endpoints.py:144-149 | When the group's own fractions are all in [0, 1], all 0 or all 1, its score is in [0, 100], 0 or 100, whatever the other metrics' fractions are |
| EcoEndpoints.GroupScoreOwnMetrics | eco_endpoints.py:144-149 | A group score reads only its own metrics' fractions: runs that agree on them get the same score |
| EcoEndpoints.Scores | eco_endpoints.py:143-149 | ZeroDivisionError without kept metrics, KeyError when a group metric was dropped; otherwise a line under the run's name whose total times the number of kept metrics is 100 times the sum of all fractions (the mean as a percentage), every score in [0, 100], all 0 when every fraction is 0 |
| EcoEndpoints.ScoresGroups | eco_endpoints.py:144-149 | Each of the six group fields of a summary line is that group's own score |
| EcoEndpoints.SummaryOf | eco_endpoints.py:131-149 | A run's summary line carries its gage id, and every score is in [0, 100] |
| EcoEndpoints.SummaryLine | eco_endpoints.py:131-149 | One pass of the model loop computes the run's summary line |
| EcoEndpoints.SummaryLines | eco_endpoints.py:131-149 | The model loop yields every run's summary line in run order, or the first failing run's error |
| EcoEndpoints.Keep | eco_endpoints.py:130 | The kept metrics are exactly those not on the drop list, and there are no more of them than metrics |
| EcoEndpoints.KeepAppend | eco_endpoints.py:130 | Keeping distributes over concatenation, so each metric is kept or dropped by itself and the kept ones stay in input order |
| EcoEndpoints.DropMetrics | eco_endpoints.py:130 | `drop` raises KeyError exactly when a label on the drop list is absent; otherwise it keeps the others |
| EcoEndpoints.StrLeTotal | eco_endpoints.py:153 | Any two model names compare one way or the other |
| EcoEndpoints.StrLeTrans | eco_endpoints.py:153 | The name order is transitive |
| EcoEndpoints.InsertByName | eco_endpoints.py:153 | Inserting into a name-sorted table keeps it sorted and adds exactly that row |
| EcoEndpoints.SortByName | eco_endpoints.py:153 | The sorted summary is a reordering of the rows with model names ascending |
| EcoEndpoints.EcoEndpointsSummary | eco_endpoints.py:10-153 | The summary fails exactly as the scoring does; otherwise it is the per-run rows, reordered by ascending model name |
| EcoEndpoints.SummaryShape | eco_endpoints.py:131-149 | A successful summary has one row per run, under that run's name, every score in [0, 100] |
| EcoEndpoints.OwnFractionZero | eco_endpoints.py:140 | The control run has fraction 0 for every metric whose endpoints it defined |
| EcoEndpoints.OwnFractionsZero | eco_endpoints.py:136-142 | Every fraction of the control run is 0 |
| EcoEndpoints.ControlScoresZero | eco_endpoints.py:12-25 | A successful summary needs a control run, and the control's row is 0 in every score |
| Plotting.Reached | plotting.py:248-258 | At most three cut points are reached |
| Plotting.StarString | plotting.py:249-258 | A label of `n` stars has length `n` and only stars |
| Plotting.ReachedThresholds | plotting.py:248-258 | The number of cut points reached is 0, 1, 2 or 3 by the first cut point above the value |
| Plotting.Stars | plotting.py:248-258 | A value gets one star per cut point 0.25, 0.5, 0.75 it reaches: below 0.25 none, [0.25, 0.5) one, [0.5, 0.75) two, 0.75 and up three |
| Plotting.MakeGiniStarsRank | plotting.py:245-259 | One label per value, in order |
| Plotting.StarsMonotone | plotting.py:248-258 | A larger value never gets fewer stars |
| Plotting.StarsLabels | plotting.py:248-258 | Every label is one of '', '*', '**', '***' |
| SacsmaToFfc.DaysInMonth | SACSMA_to_FFC.py:18 | A month has 28 to 31 days, and 29 exactly for February of a leap year |
| SacsmaToFfc.Padded | SACSMA_to_FFC.py:19 | A zero-padded number has exactly the requested width, all digits |
| SacsmaToFfc.DecimalPadded | SACSMA_to_FFC.py:19 | Reading a zero-padded number back gives the number |
| SacsmaToFfc.DateString | SACSMA_to_FFC.py:19 | `strftime('%m/%d/%Y')` is 10 characters with slashes at positions 2 and 5 and decimal digits everywhere else |
| SacsmaToFfc.DateStringRoundTrip | SACSMA_to_FFC.py:19 | Parsing the formatted date gives back year, month and day, so no two dates share a string |
| SacsmaToFfc.ConvertDate | SACSMA_to_FFC.py:17-19 | ValueError exactly for a date `strptime` rejects (year not four digits, month not 1-12, day not in the month); otherwise a 10-character string with slashes at positions 2 and 5, digits elsewhere, that parses back to that date: the zero-padded `MM/DD/YYYY` string |
| SacsmaToFfc.CalendarEdges | SACSMA_to_FFC.py:18 | 29 February exists only in leap years; 30-day months have no 31st; every month has a 28th |
| SacsmaToFfc.ConvertDates | SACSMA_to_FFC.py:15-20 | The date column has one converted date per row, in row order, or ValueError when any row's date is invalid |
| SacsmaToFfc.ToFfcTable | SACSMA_to_FFC.py:21-23 | Each output row holds the converted date beside the row's unchanged flow |
| SacsmaToFfc.OutputPath | SACSMA_to_FFC.py:25-26 | IndexError exactly when the input path has fewer than three components; otherwise `data_inputs/FFC_inputs/` + the third component without its last four characters + `.csv` (an empty name when the component is shorter than four) |
| SacsmaToFfc.ConvertFile | SACSMA_to_FFC.py:11-26 | One file: ValueError on a bad date, checked before the path; IndexError on a short path; otherwise the output path and the converted table |

## Left out

- The statistics: `pymannkendall.original_test`, the residual fit and `acorr_ljungbox` (trends.py:70-77) are one uninterpreted function from a series to trend, slope, intercept and p-value. Floating-point rounding throughout is replaced by exact reals.
- File discovery and I/O:
  - `glob`, `read_csv`, `read_table` and every `to_csv` are not modelled;
  - the functions take the tables that reading would produce and return what they would write;
  - the file loop of SACSMA_to_FFC.py is modelled one file at a time (`ConvertFile`).
- Trends.WellFormed: a gage's metric labels are taken to be distinct, one raw row per label. With a repeated label, `gage['ffc_metrics'].loc[value]` (trends.py:19) returns a table instead of a series; that path is not modelled.
- Trends.ResultTable.Valid: result tables whose index repeats a label are outside the contracts of the gage loop. `Put` still writes every row with the label, as `.loc` does, but a label is read back at its first row.
- Trends.ResultTable.constructor: `pd.DataFrame(index=metrics_list)` (utils.py:76) has an index and no columns; `calc_mk_trend` adds the two columns, all NaN, before anything reads them (trends.py:15-16). The model's rows carry both cells, empty, from creation, so a table that was never passed through `calc_mk_trend` is not distinguished from one whose cells are all NaN.
- Utils.MakeResultsDicts: as for the constructor, the tables it returns already carry the two empty columns.
- Trends.CalcMkTrend: when a metric raises ValueError, the contract states only the error. It does not state the partly written tables that the run leaves behind. The gage loop takes as many result tables as gages, as `make_results_dicts` builds them.
- Utils.MetricScore: in an RCP 4.5 table whose index repeats a metric label, `.loc[metric]` returns a sub-table and the loop would iterate over its column names; the model scores the first row with that label.
- Utils.CreateTable: the per-site averaging is not modelled. That is `pd.to_numeric`, the means of years 1950-2015 and 2035-2100, and `nanmean` across a site's models (utils.py:164-177). It is a parameter (`SiteMeans`) applied to each site's runs, giving that site's historical and future averages. A percent change against a zero historical mean, which numpy turns into inf or NaN, is `None`.
- Utils.CreateModelTables: `create_table` (utils.py:149-189) has no `return`, so `create_model_tables` returns None (utils.py:190-193); what it produces is the two CSV files. The model returns the two tables it would write, the 4.5 one first.
- Utils.CombineMkModelStats: every file is assumed to have one metric × site shape, the shape of the last file read. pandas label alignment between differently shaped files is reduced to "a missing cell is NaN".
- Utils.DecisionOf: a gage table whose index repeats a label is read at its first row under that label. pandas would return a series there, and the comparison with 'decreasing' would raise ValueError. Tables built by the gage loop from distinct labels keep distinct labels (`Trends.WriteStep`).
- Utils.SummarizeData: gages carry a flow class, as the commented-out line utils.py:78 would provide. `make_results_dicts` as written stores no class, so `summarize_data` on its output would raise KeyError; that path is not modelled.
- Trends.SummaryTable and Utils.ScoreModels: a result table's columns are a `map` from column name to column. pandas also keeps the columns in insertion order, which is the column order of the written CSV; the model does not keep that order. Each column's content is modelled.
- The `pdb.set_trace()` call (utils.py:116) and the `main.py` orchestration are not part of this model.
- EcoEndpoints.EcoEndpointsSummary:
  - `pd.to_numeric(errors='coerce')` is not modelled: runs arrive with numbers, and unparseable cells are NaN;
  - the 5th and 95th percentile endpoints (`nanquantile`, eco_endpoints.py:22-23) are not computed, because no score uses them;
  - what `nanquantile` does on an empty control row before `nanmin` raises is not modelled.
- EcoEndpoints.FractionFor: a metric label is looked up by its first occurrence. With repeated labels pandas would return a table instead of a row, and the per-run `dict` would merge keys; metric labels are taken to be distinct.
- The hydrograph of the control run (`rh_data`) and every plot (eco_endpoints.py:30-120, plotting.py apart from the star ranking) are matplotlib rendering and are not modelled. That includes the NameError that a missing control hydrograph would raise when the figure is drawn.
- Plotting.Stars: the input values are the hard-coded Gini shares (plotting.py:243-244), which are plain numbers. A NaN input, which the chain of `<` tests would label '***', is not modelled.
- SacsmaToFfc.ConvertDate: the table columns are integers. A float column (for example one holding NaN), whose `str()` form `strptime` rejects, is not modelled.
