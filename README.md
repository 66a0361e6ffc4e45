# Benchmark harness and result analysis, modelled in Dafny

This project models the text and table logic of a benchmark harness for the
LazyD / OpenCilk task-parallel runtimes. The logic lives in three Python
scripts.

- `parse_lazybenchmark_csv.py` reads the benchmark descriptor CSV into
  `Benchmark` records (module `Catalog`).
- `testBenchmark_compile.py` holds three pieces.
  - Configuration (module `HarnessConfig`): the list of core counts to test,
    the run-status and framework labels, the make options string, and the
    compile-outcome rule.
  - Sample extraction from benchmark output (module `HarnessExtract`).
  - `execute_benchmark` (module `HarnessRows`): one pre-allocated result row
    per core count, filled in place and written until a run fails.
- `analyzecsv.py` holds four pieces.
  - Result ingestion, `getresult` (module `AnalysisStore`). It turns the results
    CSV into a nested store: implementation → benchmark → dataset → cores →
    samples.
  - Label helpers (module `AnalysisLabels`).
  - `process_results` (module `AnalysisTable`): the table relative to the
    OpenCilk baseline, with its Min / Geomean / Max trailer.
  - `generate_table` (module `AnalysisRender`): what is printed, in LaTeX or CSV form.
- The module `AnalysisStats` ties the Min / Geomean / Max rows to the body
  rows. Each trailer cell is the least, the factors or the greatest of the
  numbers that column shows in the body, and a trailer exists exactly when
  every column shows a number.

Shared modules:

- `Wrappers` gives `Option`.
- `Strings` gives Python's `in`, `split`, `join`, `replace`, `isnumeric`, `int` and
  string ordering.
- `Dicts` gives insertion-ordered association lists, for Python dicts.
- `Sorting` gives `sorted` of a duplicate-free list, for Python sets.

Every Python exception on a path (IndexError, KeyError, AssertionError, a
`float()` ValueError, a division by zero, `statistics.mean` of nothing)
becomes a `None` or `Crashed` outcome, never a precondition.

The outside world enters as parameters:

- the process output as a list of lines, with an exit code or a timeout;
- the run and check statuses and the samples of each attempted core count;
- `max_cores` (`multiprocessing.cpu_count()`);
- `float()` as an abstract `num: string -> Option<real>`;
- `format(x, '.2f')` and scipy's `gmean` as abstract functions.

Samples written by the harness are kept as the text the run helper parsed.

Imperative code stays imperative:

- `execute_benchmark` writes an `array` in place;
- `get_test_num_cores`, the extractors, `parse_csv`, `getresult`, the loops of
  `process_results` and `generate_table` are methods with loops.

Each such method is proved equal to a specification function, and the
properties are proved about those functions.

Some details of what the code does:

- CSV rendering prints `" , "` between cells and two spaces after the
  last one.
- LaTeX rendering prints the cells joined by `"  &  "` and ended by `"  \\  "`.
- The "N/A" comparison in `process_results` (analyzecsv.py:148) can never be
  true. The baseline value is a number there, so only the `<= 0` tests decide.
- `main` always passes `False` for promoted-task counting
  (testBenchmark_compile.py:883). The model keeps it as an option.

## Model

| member | source | states |
|---|---|---|
| HarnessConfig.RunStatusStrInjective | testBenchmark_compile.py:82-88 | distinct run statuses get distinct strings ("Correct", "Incorrect", "Timeout") |
| HarnessConfig.FrameworkLabelFacts | testBenchmark_compile.py:720-731 | the PARALLEL_FRAMEWORK label is missing (the `assert(0)`) exactly for the SIGUSR and UIPI lowerings. Every lowering the command line can select has one. Distinct lowerings get distinct labels |
| HarnessConfig.AdditionalOptionsInjective | testBenchmark_compile.py:277-296 | the options string determines the scheduler option, the NOOPT flag and the GRAINSIZE8 flag |
| HarnessConfig.NoOptTag | testBenchmark_compile.py:292-293 | the scheduler option plus the NOOPT part shows NOOPT exactly when noopt is 1 |
| HarnessConfig.GrainTag | testBenchmark_compile.py:295-296 | the full options string shows GRAINSIZE8 exactly when finergrainsize is 1 |
| HarnessConfig.SchedulerOptionTail | testBenchmark_compile.py:279-290 | no scheduler option ends the way the NOOPT and GRAINSIZE8 parts do, so their suffixes cannot be confused |
| HarnessConfig.CompileOutcome | testBenchmark_compile.py:322-335 | status 0 exactly when "Error" occurs in the output, otherwise 1. The message is empty exactly when the status is 1 |
| HarnessConfig.CompileFailureSticks | testBenchmark_compile.py:324-326 | output containing a failing output still fails, with "Compilation failed" |
| HarnessConfig.UserCoresOfTexts | testBenchmark_compile.py:97-101 | decimal texts of numbers are kept, in order, and read back as those numbers |
| HarnessConfig.UserCoresRoundTrip | testBenchmark_compile.py:97-104 | splitting a comma-joined list of decimals on ',' and keeping the numeric entries gives the list back |
| HarnessConfig.ParseUserCores | testBenchmark_compile.py:96-101 | the loop keeps exactly the `isnumeric` comma-separated entries, as integers, in input order |
| HarnessConfig.DefaultTestCores | testBenchmark_compile.py:106-116 | the default list is non-empty and starts at 1. It ends at max_cores (or 1 when max_cores is 0) and is strictly increasing. It holds exactly 1, the multiples of 8 up to max_cores, and max_cores |
| HarnessConfig.GetTestNumCores | testBenchmark_compile.py:92-116 | the user's numeric entries when there are any, otherwise the default list with the properties above |
| HarnessExtract.MarkerGivesSecondField | testBenchmark_compile.py:592-601 | a line containing a marker that holds the separator has a field 1 after it, so a line containing "-1," has a "," field 1 and its `[1]` never raises |
| HarnessExtract.LineFields | testBenchmark_compile.py:502-505 | each line yields at most one sample, or an IndexError |
| HarnessExtract.Extract | testBenchmark_compile.py:498-505 | the extraction loop gives the fold of the per-line rule over the lines, and stops at the first error |
| HarnessExtract.GatherAppend | testBenchmark_compile.py:502-505 | extracting from two runs of lines gives the samples of the first, then those of the second |
| HarnessExtract.GatherFails | testBenchmark_compile.py:502-505 | extraction fails exactly when some line fails. It never yields more samples than lines |
| HarnessExtract.MarkedTimeRule | testBenchmark_compile.py:500-505 | a line gives no sample unless the marker is in its text before the first ':'. Then it gives field 1, or an IndexError when there is no ':' |
| HarnessExtract.PrintedTime | testBenchmark_compile.py:503-505 | a line "marker:v" gives exactly the sample v |
| HarnessExtract.TimeLinesRoundTrip | testBenchmark_compile.py:498-505 | for the pbbs and pbbs_v2 markers, extraction from printed timing lines gives back the values in order |
| HarnessExtract.Cilk5AgreesWithPbbs | testBenchmark_compile.py:435-441 | the cilk5 extractor agrees with the pbbs one whenever the marker lies before the first ':' |
| HarnessExtract.Cilk5MarkerAfterColon | testBenchmark_compile.py:437-441 | where the two differ: for "x:PBBS-time" cilk5 takes a sample and pbbs takes none |
| HarnessExtract.PromotedRule | testBenchmark_compile.py:592-602 | a "-1," line gives field 2 when field 1 contains one of the three labels, nothing when it does not, and an IndexError when field 2 is missing |
| HarnessExtract.ExtractPbbsV2 | testBenchmark_compile.py:569-602 | pbbs_v2 samples: the timings, then the icache counts if enabled, then the promoted-task counts if enabled |
| HarnessExtract.PbbsV2TimingsFirst | testBenchmark_compile.py:569-602 | the timings come first. With neither counter enabled they are all the samples |
| HarnessExtract.RunResultFacts | testBenchmark_compile.py:427-567 | a failed run has no samples, and a timeout gives TIMEOUT. pbbs and cilk5 fail on any non-zero exit code, pbbs_v2 only on 139, so exit code 1 still yields its samples |
| HarnessRows.TimeCells | testBenchmark_compile.py:755-771 | as many cells from TIME on as the run wrote |
| HarnessRows.WriteKeys | testBenchmark_compile.py:705-714 | BENCHMARK and COMPILES are written only with the test name, DATASET only with the dataset name, and NUM_CORES always. Nothing from STATUS on changes |
| HarnessRows.WriteSettings | testBenchmark_compile.py:716-754 | STATUS and the configuration columns take their option-dependent values. No other cell changes |
| HarnessRows.WriteConfig | testBenchmark_compile.py:705-754 | columns 0-9 hold the configuration cells and the run's STATUS. Nothing from TIME on changes |
| HarnessRows.WriteTimes | testBenchmark_compile.py:757-772 | the cells are written one by one from TIME, and `start_row` ends past them. The write fails exactly when they do not fit |
| HarnessRows.FillRow | testBenchmark_compile.py:697-772 | filling the pre-allocated array gives the declarative row, or fails exactly where the Python code raises |
| HarnessRows.ExecuteBenchmark | testBenchmark_compile.py:694-784 | the core loop emits the declared rows and returns `start_row`, or crashes as the Python code does |
| HarnessRows.RowConfig | testBenchmark_compile.py:697-744 | the row has `num_cols + num_tests - 1` cells, +3 with promoted-task counting, otherwise +2 with icache. DISABLE_NUMA is "Yes" iff disable_numa, the grain size is 8 iff finergrainsize is 1, and IGNORE is "Yes" iff noopt is 1. BENCHMARK, COMPILES and DATASET are set only when the one-shot flags are |
| HarnessRows.CheckFailedRow | testBenchmark_compile.py:762-767 | a correct run whose check fails gets one "N/A" per sample from TIME on, STATUS "Incorrect" and "Verification failed", and the loop continues |
| HarnessRows.RunFailedRow | testBenchmark_compile.py:768-777 | a failed run gets num_tests "N/A" cells, STATUS "Incorrect" and "Benchmark failed to run", and the loop breaks |
| HarnessRows.CorrectRow | testBenchmark_compile.py:755-760 | a fully correct attempt writes its samples in order from TIME, with STATUS "Correct". It fails only for a missing label or a row that is too short |
| HarnessRows.TimeoutLikeIncorrect | testBenchmark_compile.py:768-777 | a TIMEOUT run produces the same row as an INCORRECT one |
| HarnessRows.ExecuteFromRows | testBenchmark_compile.py:694-784 | emitted row k is the row of the k-th core count (names only on row 0), and only correct runs are emitted. A stop before the end comes from a failed run, and the returned `start_row` is that run's |
| HarnessRows.LaterRowsBlank | testBenchmark_compile.py:705-712 | every emitted row after the first has blank BENCHMARK and DATASET |
| HarnessRows.FailingRowNotWritten | testBenchmark_compile.py:777-779 | a failing run at position k means at most k rows are written: the `break` comes before `writerow` |
| Catalog.FromRow | parse_lazybenchmark_csv.py:37-47 | cells 0-4 are copied verbatim. Cells 5 and 6 become non-empty ','-split lists that join back to the cell |
| Catalog.ParseCsv | parse_lazybenchmark_csv.py:22-49 | the parsing loop gives the declarative result, or None on the IndexError of a short row |
| Catalog.HeaderIgnored | parse_lazybenchmark_csv.py:28 | the first row is discarded whatever it holds |
| Catalog.OneRowMore | parse_lazybenchmark_csv.py:30-48 | an empty or '#' row adds nothing, a row of 7 or more cells adds exactly its Benchmark at the end, and a shorter one raises |
| Catalog.DataRowsAppend | parse_lazybenchmark_csv.py:30-48 | rows are handled independently and in order |
| Catalog.DataRowsByKept | parse_lazybenchmark_csv.py:30-48 | parsing succeeds iff every kept row has 7 cells. Then benchmark k comes from kept row k |
| Catalog.KeptRows | parse_lazybenchmark_csv.py:31-35 | the kept rows are neither empty nor comments |
| AnalysisLabels.CheckValid | analyzecsv.py:53-55 | -1 exactly when the label is not in the table, otherwise None |
| AnalysisLabels.GetImplNameArgFacts | analyzecsv.py:37-61 | the table value when the label is present and the label unchanged otherwise. Remapping twice equals remapping once |
| AnalysisLabels.ShortNamesAreValues | analyzecsv.py:37-51 | every table value is one of the short implementation names |
| AnalysisLabels.BaselineName | analyzecsv.py:80-81 | the baseline "OpenCilk+PBBS+2048+cg" is remapped to "OpenCilk" |
| AnalysisLabels.CharInIsContains | analyzecsv.py:63-65 | the '+' test in ignore_impl is substring containment |
| AnalysisLabels.TexColumns | analyzecsv.py:63-65 | in LaTeX mode, a raw label gets a column iff the table maps it to a short name other than the baseline's |
| AnalysisLabels.MissRate | analyzecsv.py:67-70 | -1 when misses < 0. A division by zero exactly when misses >= 0 and misses + hits = 0. In [0, 100] for non-negative counts with a positive total |
| AnalysisStore.Convert | analyzecsv.py:272 | one value per cell |
| AnalysisStore.ConvertCells | analyzecsv.py:272 | an empty cell becomes -1 and any other becomes float() of it. Conversion fails iff float() fails on a non-empty cell |
| AnalysisStore.SkippedRows | analyzecsv.py:229-233 | rows whose BENCHMARK is "" or "BENCHMARK" are skipped |
| AnalysisStore.FailedRowSentinel | analyzecsv.py:262-271 | a row marked "Verification failed" or "Benchmark failed to run" stores all -1, one per cell of `row[10:len-1]` |
| AnalysisStore.ReadRowKey | analyzecsv.py:233-263 | a read row is keyed by path parts 1 and 2 joined by '-', by the dataset with each '_' turned into '-' and every other character kept, by the raw core-count cell and by the remapped label. It has `len(row) - 11` samples |
| AnalysisStore.Insert4Lookup | analyzecsv.py:259-274 | after storing, the four keys give the new samples and every other key is unchanged, so a later row overwrites an earlier one |
| AnalysisStore.PutTwice | analyzecsv.py:262-268 | creating an empty dict and then storing into it equals storing directly |
| AnalysisStore.StoreRecord | analyzecsv.py:259-274 | the in-place nested-dict updates give the declarative insertion |
| AnalysisStore.ReadResults | analyzecsv.py:219-277 | the row loop gives the declarative fold, or fails as getresult does |
| AnalysisStore.IngestFailSticks | analyzecsv.py:225-274 | once a row raises, ingestion fails |
| AnalysisStore.ImplsAreKeys | analyzecsv.py:256-260 | `set_of_impl` holds exactly the top-level keys of the store, without duplicates |
| AnalysisStore.InsertKeys | analyzecsv.py:256-260 | one stored row adds its label to both, once |
| AnalysisTable.Columns | analyzecsv.py:98-101 | exactly the non-ignored implementations get a column |
| AnalysisTable.ProcessImpls | analyzecsv.py:130-178 | the implementation loop of one row gives the declarative cells and statistics |
| AnalysisTable.ProcessTriple | analyzecsv.py:111-178 | one (benchmark, dataset, cores) row as declared |
| AnalysisTable.ProcessCores | analyzecsv.py:110-180 | the core-count loop as declared |
| AnalysisTable.ProcessDatasets | analyzecsv.py:109-180 | the dataset loop as declared |
| AnalysisTable.ProcessBenchmarks | analyzecsv.py:108-180 | the benchmark loop as declared |
| AnalysisTable.BuildHeader | analyzecsv.py:87-101 | the header loop as declared |
| AnalysisTable.BuildTrailer | analyzecsv.py:180-214 | the trailer loops as declared |
| AnalysisTable.ProcessResults | analyzecsv.py:73-216 | the whole of process_results as declared, or the exception it raises |
| AnalysisTable.CompareCellRule | analyzecsv.py:148-160 | a cell is N/A exactly when the baseline or the other value is <= 0. Otherwise it is (b-o)/b*100, positive exactly when the other is faster, or \|b-o\| >= 0 in icache mode |
| AnalysisTable.TrackOk | analyzecsv.py:164-177 | after recording an improvement, min_res, max_res and geomean_res still hold the same implementations. Min and max are still the least and greatest recorded improvements, whose factors `imp/100+1` geomean_res keeps |
| AnalysisTable.MinLeMax | analyzecsv.py:164-174 | the recorded minimum never exceeds the maximum |
| AnalysisTable.ImplCellsOk | analyzecsv.py:130-178 | a row has at most one cell per column, and the statistics stay consistent |
| AnalysisTable.ImplCellsContents | analyzecsv.py:130-162 | a row holds exactly one cell per column whose implementation has the triple, in column order. Each is the comparison of that implementation's value with the baseline's |
| AnalysisTable.TripleStepOk | analyzecsv.py:111-128 | a row appended for a triple starts with the three keys and then the baseline value (N/A when negative), followed by the implementation cells |
| AnalysisTable.CoresRowsOk | analyzecsv.py:110-178 | one row per core count. Earlier rows are kept and the statistics stay consistent |
| AnalysisTable.DatasetRowsOk | analyzecsv.py:109-178 | earlier rows are kept and the statistics stay consistent |
| AnalysisTable.BenchRowsOk | analyzecsv.py:108-178 | earlier rows are kept and the statistics stay consistent |
| AnalysisTable.BodyOk | analyzecsv.py:108-178 | every body row is 4 to 4 + columns cells wide, and the statistics are consistent |
| AnalysisTable.HeaderCellsColumns | analyzecsv.py:98-101 | one header cell "impl (perc)" per column, in column order |
| AnalysisTable.HeaderShape | analyzecsv.py:87-101 | the header is Benchmark, Dataset, Num Cores, the baseline (with "%" or "(s)"), then one cell per column |
| AnalysisTable.TrailerCellsColumns | analyzecsv.py:187-214 | a trailer row exists iff every column has an entry in the statistics. It then has one cell per column, in column order (AnalysisStats relates the entries to the body cells) |
| AnalysisTable.TrailerRowShape | analyzecsv.py:180-214 | each trailer row is its name and three blanks, then one cell per column |
| AnalysisTable.MinBelowMax | analyzecsv.py:180-214 | in every column the Min cell is no greater than the Max cell |
| AnalysisTable.TableParts | analyzecsv.py:73-216 | the table is the header, the body, then Min, Geomean and Max in that order |
| AnalysisTable.TableShape | analyzecsv.py:73-216 | the header comes first, all body rows lie between 4 and the header's width, and the three trailer rows come last |
| AnalysisTable.TableMinBelowMax | analyzecsv.py:180-214 | the last three rows are named Min, Geomean and Max and are as wide as the header. Per column Min <= Max |
| AnalysisTable.SentinelIsNA | analyzecsv.py:117-151 | a run stored as all -1 has value -1, so its baseline cell and every comparison with it are N/A |
| AnalysisTable.TableIndependentOfOrder | analyzecsv.py:74 | the table depends only on which implementations were seen, not on the order they were added |
| AnalysisStats.Least | analyzecsv.py:167-171 | the least improvement is one of them and no greater than any |
| AnalysisStats.Greatest | analyzecsv.py:161-165 | the greatest improvement is one of them and no less than any |
| AnalysisStats.FactorsAppend | analyzecsv.py:173-175 | the factors `imp/100+1` of two runs of improvements are those of the first, then those of the second |
| AnalysisStats.ImpsOfFactors | analyzecsv.py:161-175 | undoing the factors kept for an implementation gives back its least and greatest improvement |
| AnalysisStats.CellImpsMembers | analyzecsv.py:131-159 | a number is among an implementation's improvements in a row exactly when a numeric cell of that implementation holds it |
| AnalysisStats.ImplCellsTrack | analyzecsv.py:131-175 | one row's implementation loop adds one cell per column that has the triple, and appends to geomean_res of each implementation the factors of its numeric cells, in order |
| AnalysisStats.TripleStepTrack | analyzecsv.py:111-178 | each appended row is three key labels, the baseline cell, and one cell per column that has the triple. geomean_res still holds the factors of exactly the numbers each column shows in the rows so far |
| AnalysisStats.BenchRowsTrack | analyzecsv.py:108-178 | the three nested loops keep that relation between geomean_res and the rows |
| AnalysisStats.ColumnImpsMembers | analyzecsv.py:131-175 | a number is among a column's numbers exactly when some body row shows it in that column |
| AnalysisStats.GeosFromBody | analyzecsv.py:161-175 | after the body, an implementation has no geomean_res entry exactly when no body row shows a number for it. Otherwise the entry is the factors of those numbers, in row order |
| AnalysisStats.TrailerCellsFromBody | analyzecsv.py:161-214 | a Min, Geomean or Max cell is missing (the KeyError) exactly when its column shows no number. Otherwise it is the least number, the factors, or the greatest number |
| AnalysisStats.TrailerRowFromBody | analyzecsv.py:180-214 | a trailer row exists exactly when every column shows a number. Then cell 4+j is the summary of the numbers in column j |
| AnalysisStats.TableTrailerFromBody | analyzecsv.py:161-214 | process_results succeeds exactly when every column shows a number in the body. Then Min, Geomean and Max hold, per column, the least, the factors and the greatest of those numbers |
| AnalysisRender.CellTextFacts | analyzecsv.py:128-214 | labels print verbatim, and percentages print as the number, a space and the sign |
| AnalysisRender.RenderRow | analyzecsv.py:288-308 | the column loop prints the cells joined by the spaced middle mark, with the spaced end mark after the last. An empty row prints nothing |
| AnalysisRender.RenderLine | analyzecsv.py:284-296 | one outer pass prints the rule for that row (if any), then the row and a newline |
| AnalysisRender.GenerateTable | analyzecsv.py:279-308 | generate_table prints exactly the declared lines |
| AnalysisRender.LinesShape | analyzecsv.py:283-297 | in LaTeX: "\toprule", row 0, "\midrule", then the other rows. In CSV, one line per row, in order |
| AnalysisRender.CsvCommas | analyzecsv.py:300-307 | a CSV line of comma-free cells has exactly one comma between each pair of neighbours |
| AnalysisRender.TexAmpersands | analyzecsv.py:289-294 | a LaTeX line of '&'-free cells has one '&' between each pair of neighbours, and ends with the row terminator |
| AnalysisRender.RenderLines | analyzecsv.py:296-308 | splitting the printed text at newlines gives back the lines and a final empty piece |
| Strings.Split | testBenchmark_compile.py:98 | Python's split: at least one part, none containing the separator, and joining gives the string back |
| Strings.SplitJoin | parse_lazybenchmark_csv.py:43-44 | splitting a join of separator-free parts gives the parts back |
| Strings.Replace | analyzecsv.py:241 | `replace` of one character: same length, each occurrence of the old character becomes the new one and every other character stays |
| Sorting.SortOrderIndependent | analyzecsv.py:74 | sorting two duplicate-free lists with the same elements gives the same list |
| Dicts.Put | analyzecsv.py:259-274 | storing a key gives it the value and leaves every other key; the key order is kept, a new key goes last |

## Left out

- Subprocess, shell and file I/O are left out: `Popen`, `os.system`, make commands, `create_testfile`, CSV reading and writing, logging, argparse and `main`. Their results are inputs to the model.
- The load-average busy wait (testBenchmark_compile.py:364-380) reads OS state and never ends by itself in a model.
- Timeouts are left out. `communicate` is given the timeout as its `input`, and compile timeouts are not modelled. TIMEOUT is one possible run status.
- `get_error_string` is never called and refers to an undefined name.
- The check helpers' outcomes are abstract. The `assert(0)` of `run_check_benchmark` for an unknown suite is not modelled.
- `float()`, `format(…, '.2f')`, `statistics.mean` rounding and scipy `gmean` are floating point. Numbers are exact reals, and text conversions and `gmean` are parameters. The Geomean row keeps the factors `imp/100+1`.
- `str(bytes)` and its `b'…'` quotes and split on the two characters `\n` are left out. The process output is given as a list of lines.
- `isnumeric` is ASCII digits only. Other Unicode numerics are not modelled.
- `n_iteration` is fixed at 1, as in the source.
- Samples written by the harness are the text the run helper parsed. The harness's `float()` ValueError on a malformed sample is not modelled.
- The compile command strings, beyond the options string, are shell text with no logic.
- `start_time`/`end_time` are computed and never used.
- The `fp_format = '.5f'` assignment in `main` (analyzecsv.py:325) is a local with no effect.
- The manual row counter `i` of process_results is not a separate variable. It always equals the number of rows built, which the list states.
- HarnessRows.FillRow: the failing cases are checked before any write, not at the first out-of-range write. The crash outcome is the same, and the partly written row is never observable because it is discarded.
- AnalysisStore.ReadResults: an empty results file makes `len(time)` unbound. This is modelled as a failure, like a crash.
