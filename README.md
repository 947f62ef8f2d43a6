# Transit-analysis pipeline in Dafny

This project models the batch pipeline `Transit-Analysis-Pipeline.py`, which
phase-folds transit light curves. For every target planet the pipeline does the
following:

- It reads the target rows from a local table, or from the exoplanet archive.
- It normalises the catalog values (`safe_value`).
- It fills in a missing period or epoch by asking the archive by name. If the
  period is known but the epoch is not, it estimates the epoch from a light
  curve.
- It searches the light-curve service mission by mission (TESS, Kepler, K2) and,
  inside a mission, author by author (SPOC, QLP, Kepler, K2), then tries an
  unfiltered download. The first curve found is flattened, or else normalised.
- It folds the curve and writes a png, a csv and one manifest line. A failing
  attempt is retried three times, with 2, 4 and 8 seconds of sleep.
- It returns one status per target. `main` counts the statuses and appends a
  summary line to the run log.

The project also models three pieces of the companion script
`Kepler-10_b-Analysis/kepler_exoplanet_analysis.py`:

- the output-directory name (`sanitize_name`);
- the 5-column grid of target-pixel panels;
- the averaging of per-quarter BLS periods within a tolerance of the catalog
  period.

Modules, one per concern:

- `Common`: Python whitespace, the ASCII form of `\w`, `strip`.
- `Names`: `sanitize`, the output file names and `already_done`.
- `TimeFrame`: `get_time_offset`, and moving an epoch between the BJD frame and
  a curve's own frame.
- `Values`: `safe_value`, the target row, and the quote escaping of the archive
  query.
- `Journal`: the run log, the manifest, the png/csv listings and the sleeps,
  held by the class `Workspace`.
- `InputRows`: `detect_delimiter` and `rows_from_local_file`.
- `Acquirer`: `_flatten_or_normalize` and `search_download_lightcurve`.
- `EpochEstimator`: the rough epoch from a rolling-median minimum.
- `FoldEmit`: `fold_plot_save`.
- `Worker`: `process_one`.
- `Tally`: the counting in `main`.
- `KeplerAnalysis`: the companion script.

Each imperative routine has two forms:

- a method on the `Workspace`, with the source's loops;
- a specification function of the workspace's previous value.

The method's `ensures` ties the new state to the function. The lemmas then
prove what the pipeline promises about that function.

The services are oracles, passed in as datatype values with function fields:

- the archive query;
- the light-curve search and download;
- flatten, normalise and the rolling median;
- the CSV sniffer and reader;
- the exceptions raised by fold, plot and file writes.

`safe_value` keeps 0 as a present number; only None, NaN and an unparsable
value become missing.

## Model

| member | source | states |
|---|---|---|
| Names.CollapseUnsafe | Transit-Analysis-Pipeline.py:62 | every run of characters outside `[\w.-]` becomes one `_`; the result holds only safe characters and is no longer than the input |
| Names.SqueezeUnderscores | Transit-Analysis-Pipeline.py:63 | runs of `_` collapse to one; no character is introduced and no `__` remains |
| Names.Sanitize | Transit-Analysis-Pipeline.py:61-63 | a sanitized name holds only `[\w.-]`, never two `_` in a row, and neither starts nor ends with `_` |
| Names.SanitizeIdempotent | Transit-Analysis-Pipeline.py:61-63 | sanitizing a sanitized name changes nothing |
| Names.SanitizeFixedPoint | Transit-Analysis-Pipeline.py:61-63 | every name of the sanitized shape is left unchanged, so the shape in `Sanitize`'s ensures is exact |
| Names.SanitizeKeepsContent | Transit-Analysis-Pipeline.py:61-63 | the safe non-underscore characters of the name survive, in order; only separators are rewritten |
| Names.SameBaseSameFiles | Transit-Analysis-Pipeline.py:299-302 | two planets with the same sanitized base are either both done or both not done |
| Names.WrittenMeansDone | Transit-Analysis-Pipeline.py:230-232 | once the png and csv that `fold_plot_save` names are in the listings, `already_done` holds |
| Journal.Workspace.SaveLog | Transit-Analysis-Pipeline.py:65-69 | `save_line` to the run log appends exactly that record and changes nothing else |
| Journal.Workspace.SaveManifest | Transit-Analysis-Pipeline.py:287-297 | `save_line` to the manifest appends exactly that line and changes nothing else |
| Journal.Workspace.WritePng | Transit-Analysis-Pipeline.py:266 | `savefig` adds the png to the listing and changes nothing else |
| Journal.Workspace.WriteCsv | Transit-Analysis-Pipeline.py:285 | `to_csv` adds the csv to the listing and changes nothing else |
| Journal.Workspace.Sleep | Transit-Analysis-Pipeline.py:378 | `time.sleep` is recorded, in order, and changes nothing else |
| TimeFrame.TimeOffset | Transit-Analysis-Pipeline.py:95-113 | the offset is always one of 2457000, 2454833 or 0 |
| TimeFrame.BtjdSpellings | Transit-Analysis-Pipeline.py:107-110 | the TESS offset is chosen exactly for the case-insensitive spellings of "btjd" |
| TimeFrame.BkjdSpellings | Transit-Analysis-Pipeline.py:107-112 | the Kepler offset is chosen exactly for the case-insensitive spellings of "bkjd", the Kelvin sign included |
| TimeFrame.TimeFormatFirst | Transit-Analysis-Pipeline.py:97-106 | `time.format` is consulted only when `time_format` is missing |
| TimeFrame.UnknownFormatNoShift | Transit-Analysis-Pipeline.py:107-113 | a missing, empty or unknown format tag gives offset 0 |
| TimeFrame.ToNative | Transit-Analysis-Pipeline.py:234-235 | the fold's native epoch maps back to the catalog epoch |
| TimeFrame.ToCommon | Transit-Analysis-Pipeline.py:353-354 | adding the offset is undone by subtracting it |
| Values.Convert | Transit-Analysis-Pipeline.py:79-81 | a conversion keeps the physical duration; a non-time quantity keeps its magnitude |
| Values.SafeValue | Transit-Analysis-Pipeline.py:71-93 | None exactly for None, NaN or an unparsable cell; a number is kept as is (0 included); a quantity in the requested unit keeps its magnitude |
| Values.ConvertRoundTrip | Transit-Analysis-Pipeline.py:79-81 | converting between two time units and back gives the original value |
| Values.DaysToHours | Transit-Analysis-Pipeline.py:317 | a duration given in days is read as 24 times as many hours |
| Values.EscapeQuotes | Transit-Analysis-Pipeline.py:322 | doubling the quotes never shortens the name |
| Values.EscapeRoundTrip | Transit-Analysis-Pipeline.py:322-326 | the doubled quotes pair up, and the archive reads back exactly the planet name that was escaped |
| Acquirer.OddWindow | Transit-Analysis-Pipeline.py:183-185 | the flatten window is odd, the configured width or one more, and unchanged when already odd |
| Acquirer.FlattenOrNormalize | Transit-Analysis-Pipeline.py:179-191 | the flattened curve if flatten succeeds, else the normalised curve, else the input |
| Acquirer.TryDownload | Transit-Analysis-Pipeline.py:207-226 | one download per try; a curve is found only when nothing was logged, and it is labelled with the mission and author tried |
| Acquirer.MissionTry | Transit-Analysis-Pipeline.py:196-202 | a failed search downloads nothing; an empty search does nothing at all |
| Acquirer.FirstViable | Transit-Analysis-Pipeline.py:193-227 | reference order: the first candidate that would yield a curve; None exactly when none would |
| Acquirer.AcquireFollowsPreference | Transit-Analysis-Pipeline.py:193-227 | the search returns the curve of the first viable (mission, author) in preference order, and returns nothing exactly when no candidate is viable |
| Acquirer.AuthorDownloadsListed | Transit-Analysis-Pipeline.py:203-206 | an author download is asked only for authors the mission's search listed |
| Acquirer.DownloadsFollowSearch | Transit-Analysis-Pipeline.py:196-208 | every download belongs to a mission whose search worked and found products |
| Acquirer.AcquireLogSoft | Transit-Analysis-Pipeline.py:199-225 | the search logs only search_error, download_error and download_error_auto lines |
| Acquirer.AuthorsAsFirstFound | Transit-Analysis-Pipeline.py:203-216 | the author loop returns the first author attempt that finds a curve, with the logs of the failed ones before it |
| Acquirer.MissionsAsFirstFound | Transit-Analysis-Pipeline.py:195-227 | the mission loop likewise returns the first mission that finds a curve |
| Acquirer.DownloadCandidate | Transit-Analysis-Pipeline.py:207-226 | the download step's result and appended log are those of `TryDownload` |
| Acquirer.TryAuthor | Transit-Analysis-Pipeline.py:204-216 | one author's step: its result and appended log |
| Acquirer.DownloadByAuthors | Transit-Analysis-Pipeline.py:203-216 | the author loop's result and appended log are those of the author-order specification |
| Acquirer.SearchMission | Transit-Analysis-Pipeline.py:196-226 | one mission's search, author loop and unfiltered download: its result and appended log |
| Acquirer.AcquireCurve | Transit-Analysis-Pipeline.py:193-227 | `search_download_lightcurve`: its result and appended log are those of the preference-order specification |
| EpochEstimator.SmoothingWindow | Transit-Analysis-Pipeline.py:350 | the rolling window is at least 3 and at least one hundredth of the sample count |
| EpochEstimator.FirstMinIndex | Transit-Analysis-Pipeline.py:352 | argmin: a least element, earlier than any other least element |
| EpochEstimator.EstimateEpoch | Transit-Analysis-Pipeline.py:344-357 | an empty curve gives no estimate; an estimate is a sample's time moved to BJD |
| EpochEstimator.EstimateIsDeepestSample | Transit-Analysis-Pipeline.py:345-354 | with a well-formed median, the estimate is the BJD time of the first minimum of the smoothed flux |
| EpochEstimator.IdentitySmootherPicksLeastFlux | Transit-Analysis-Pipeline.py:349-354 | without smoothing the estimate is the time of a least-flux sample |
| FoldEmit.HalfWindow | Transit-Analysis-Pipeline.py:243-247 | 0.15 without a duration; otherwise three transit durations as a fraction of the period, capped at 0.5; undefined only when the period is 0 |
| FoldEmit.HalfWindowExample | Transit-Analysis-Pipeline.py:243-247 | a 10-day period with a 4-hour transit gives 0.05; no duration gives 0.15 |
| FoldEmit.HalfWindowBounds | Transit-Analysis-Pipeline.py:243-247 | for a positive period and duration the half-window lies in (0, 0.5] |
| FoldEmit.WrittenWindowCutsTransit | Transit-Analysis-Pipeline.py:245-259 | as written, for any period over 6 days the window put on the days axis is narrower than half the transit |
| FoldEmit.WrittenWindowExample | Transit-Analysis-Pipeline.py:245-259 | the 10-day, 4-hour case shows the cut |
| FoldEmit.PlotHalfWindow | Transit-Analysis-Pipeline.py:243-247 | the corrected half-window of the finding below (not what line 259 plots): the fraction `half_win` scaled to days by the period |
| FoldEmit.PlotHalfWindowCoversTransit | Transit-Analysis-Pipeline.py:243-247 | the corrected window always covers half the transit and never exceeds half a period |
| FoldEmit.ManifestFor | Transit-Analysis-Pipeline.py:287-297 | the manifest line names the planet's png and csv, and its epoch minus its offset is the epoch that was folded |
| FoldEmit.EmitSpec | Transit-Analysis-Pipeline.py:229-297 | a manifest line exactly when nothing raised; a csv only after a png; a fold fault or a zero period writes nothing; the x-limit of a saved plot is `half_win` as written, the fraction of the period put on the days axis |
| FoldEmit.Emit | Transit-Analysis-Pipeline.py:229-297 | `fold_plot_save`: its error, the x-limit it plotted with (`half_win`) and the new listings and manifest are those of `EmitSpec` |
| FoldEmit.SavedPlotCutsTransit | Transit-Analysis-Pipeline.py:243-259 | for a period over 6 days and a known duration, the plot `fold_plot_save` saves is narrower than half the transit |
| FoldEmit.EmitSuccessMeansDone | Transit-Analysis-Pipeline.py:266-302 | a fold that completes makes the planet done and adds one manifest line |
| FoldEmit.EarlyFaultNotDone | Transit-Analysis-Pipeline.py:237-285 | a fault before the csv leaves the planet not done and the manifest unchanged |
| FoldEmit.ManifestFaultLooksDone | Transit-Analysis-Pipeline.py:285-302 | a failing manifest write leaves the planet done but without a manifest line |
| Worker.Backoff | Transit-Analysis-Pipeline.py:378 | each sleep is at least the base sleep |
| Worker.BackoffSchedule | Transit-Analysis-Pipeline.py:366-378 | the three sleeps are 2, 4 and 8 seconds |
| Worker.Host | Transit-Analysis-Pipeline.py:306-309 | a row whose hostname is None is searched under the planet's name |
| Worker.Backfill | Transit-Analysis-Pipeline.py:328-335 | each missing value is filled from the archive row; a known value is never overwritten |
| Worker.ResolveSpec | Transit-Analysis-Pipeline.py:319-337 | a row with period and epoch is used unchanged; only the log may grow, and only by one fetch_params_error line when the query raised |
| Worker.EstimateSpec | Transit-Analysis-Pipeline.py:339-359 | estimation runs only for a known period without an epoch; it never changes the period, the duration or a known epoch, nor anything but the log |
| Worker.ResolveOutcome | Transit-Analysis-Pipeline.py:319-337 | with a value missing: an archive row backfills the missing values, no row keeps them missing, a raised query keeps them missing and logs fetch_params_error |
| Worker.EstimateOutcome | Transit-Analysis-Pipeline.py:339-359 | no curve logs only the search's lines; an estimate becomes the epoch and logs estimated_t0_from_lc with its provenance; a failed estimate logs estimate_t0_failed and leaves the epoch missing |
| Worker.EmptyCurveLeavesEpochMissing | Transit-Analysis-Pipeline.py:343-357 | a curve with no samples after flatten or normalise logs estimate_t0_failed and keeps the epoch missing |
| Worker.AttemptOnce | Transit-Analysis-Pipeline.py:367-377 | an attempt itself never sleeps; the sleeps belong to the retry loop |
| Worker.AttemptLog | Transit-Analysis-Pipeline.py:367-377 | an attempt that ends the target ends the log with that target's one terminal line; a failed one writes no terminal line |
| Worker.AttemptOutputs | Transit-Analysis-Pipeline.py:367-377 | an attempt only adds files, and adds a manifest line for the planet exactly when it ends ok |
| Worker.RetryLog | Transit-Analysis-Pipeline.py:365-381 | the retry loop ends the log with exactly one terminal line, for the planet and with the status returned |
| Worker.RetrySleeps | Transit-Analysis-Pipeline.py:365-381 | the loop sleeps a prefix of the backoff schedule, and the whole of it exactly when it gives up with an error |
| Worker.RetryOutputs | Transit-Analysis-Pipeline.py:365-381 | the loop ends ok, no_data or error; ok adds one manifest line and makes the planet done; the others leave the manifest alone |
| Worker.DispatchLog | Transit-Analysis-Pipeline.py:361-381 | after parameters are resolved, the log gains exactly one terminal line, last |
| Worker.DispatchSleeps | Transit-Analysis-Pipeline.py:361-381 | a target sleeps only in the retry loop, following the schedule |
| Worker.DispatchOutputs | Transit-Analysis-Pipeline.py:361-381 | outputs as in `RetryOutputs`; skip_missing_params changes nothing but the log |
| Worker.WorkerLog | Transit-Analysis-Pipeline.py:304-381 | every target appends exactly one terminal record, last, for its own planet and with the status it returns |
| Worker.WorkerSleeps | Transit-Analysis-Pipeline.py:304-381 | a target sleeps 2, 4 and 8 seconds exactly when it ends in error, and only a prefix of them otherwise |
| Worker.WorkerOutputs | Transit-Analysis-Pipeline.py:304-381 | files are only added; ok adds exactly one manifest line, for this planet, and leaves it done; every other status keeps the manifest |
| Worker.SkipExistsDoesNothing | Transit-Analysis-Pipeline.py:311-313 | a planet already done only logs skip_exists, and skip_exists is returned for no other planet |
| Worker.OkThenSkip | Transit-Analysis-Pipeline.py:311-375 | running a target again after it ended ok skips it |
| Worker.CompleteRowUsedAsIs | Transit-Analysis-Pipeline.py:315-320 | a row with period and epoch goes straight to the retry loop with its own values |
| Worker.MissingParamsNoOutput | Transit-Analysis-Pipeline.py:361-363 | a target skipped for missing parameters changes nothing but the log |
| Worker.MissingParamsSkips | Transit-Analysis-Pipeline.py:361-363 | for a target not yet done: skip_missing_params is returned exactly when period or epoch is still missing after resolution, and then the one line logged after the resolution's lines is the skip_missing_params line, so no attempt runs |
| Worker.RetryLastError | Transit-Analysis-Pipeline.py:365-381 | a retry loop that ends in error has seen its last attempt fail, and its last log line is the error line carrying that attempt's exception text |
| Worker.AttemptsEnd | Transit-Analysis-Pipeline.py:366-378 | an attempt finishes as ok or no_data or fails with an exception; it never finishes as error, and how it ends does not depend on the workspace |
| Worker.WorkerLastError | Transit-Analysis-Pipeline.py:365-381 | a target that ends in error had period and epoch, and its last log line is the error line carrying the exception text of the third attempt |
| Worker.ResolveParams | Transit-Analysis-Pipeline.py:319-337 | step 1's parameters and new workspace are those of `ResolveSpec` |
| Worker.EstimateMissingEpoch | Transit-Analysis-Pipeline.py:339-359 | step 2's parameters and new workspace are those of `EstimateSpec` |
| Worker.TryOnce | Transit-Analysis-Pipeline.py:367-377 | one attempt's ending and new workspace |
| Worker.RetryRound | Transit-Analysis-Pipeline.py:367-378 | one round of the retry loop: a finished attempt is where the retry specification stops; a failed one, with its sleep, leaves it to go on from the next attempt |
| Worker.EmitWithRetry | Transit-Analysis-Pipeline.py:365-381 | the retry loop's status and new workspace are those of the retry specification |
| Worker.ProcessOne | Transit-Analysis-Pipeline.py:304-381 | `process_one`: returns the stripped planet name and the status, and leaves the workspace the specification says |
| InputRows.SkippedIsStripTest | Transit-Analysis-Pipeline.py:122 | the recursive skip test is exactly "lstrip starts with #, or strip is empty" |
| InputRows.ReadCount | Transit-Analysis-Pipeline.py:118-121 | reading stops at the cap or at the first end-of-file line, and every line read is non-empty |
| InputRows.CollectSample | Transit-Analysis-Pipeline.py:115-127 | the sampling loop returns the first 20 kept lines among the first 200 read |
| InputRows.KeptLinesSound | Transit-Analysis-Pipeline.py:122-124 | a kept line is never a comment or blank, and comes from the input |
| InputRows.SampleSound | Transit-Analysis-Pipeline.py:117-126 | the sample has at most 20 lines, each neither comment nor blank, each among the lines read |
| InputRows.ShortCleanFileSampledWhole | Transit-Analysis-Pipeline.py:117-126 | a short file without comments or blanks is sampled whole |
| InputRows.DelimiterOf | Transit-Analysis-Pipeline.py:128-132 | the sniffed delimiter, or `,` when sniffing fails |
| InputRows.DetectDelimiter | Transit-Analysis-Pipeline.py:115-132 | `detect_delimiter` returns `DelimiterOf` of the file |
| InputRows.Window | Transit-Analysis-Pipeline.py:150 | `iloc[a:b]`: the length cut at the table's end, and position `i` is row `a + i` |
| InputRows.RowFor | Transit-Analysis-Pipeline.py:163-176 | the archive's first row for the name, or an all-missing placeholder |
| InputRows.NameRows | Transit-Analysis-Pipeline.py:158-176 | the name loop logs only fetch_params_error lines |
| InputRows.NameRowsOnePerName | Transit-Analysis-Pipeline.py:158-176 | one row per non-blank stripped name, in order, each the archive's row or the placeholder |
| InputRows.NameRowsLogsRaises | Transit-Analysis-Pipeline.py:174-176 | one fetch_params_error line per name whose query raised, in order, with that error |
| InputRows.LocalRows | Transit-Analysis-Pipeline.py:141-177 | `rows_from_local_file` logs only fetch_params_error lines |
| InputRows.FullTableWindow | Transit-Analysis-Pipeline.py:145-153 | a full table logs nothing; without a limit every row, with limit k at most k rows, taken from row 40 on |
| InputRows.NameTableFromTop | Transit-Analysis-Pipeline.py:154-177 | a table without the needed columns takes its limit from the top, one row per kept name |
| InputRows.GatherNames | Transit-Analysis-Pipeline.py:158-177 | the name loop's rows and appended log are those of the name specification |
| InputRows.RowsFromLocalFile | Transit-Analysis-Pipeline.py:141-177 | `rows_from_local_file`: rows and appended log as `LocalRows` says |
| Tally.TallyTotal | Transit-Analysis-Pipeline.py:407-419 | every status is counted exactly once |
| Tally.CountStatuses | Transit-Analysis-Pipeline.py:407-419 | the counting loop computes the tally of the statuses |
| Tally.StatusKind | Transit-Analysis-Pipeline.py:412-419 | each status a worker returns goes to its own counter, both skips to skip |
| Tally.TallyCountsOutcomes | Transit-Analysis-Pipeline.py:407-419 | each counter is the number of targets whose outcome is of its kind |
| Tally.TallyOrderFree | Transit-Analysis-Pipeline.py:408-419 | the counters do not depend on the order in which the workers complete |
| Tally.SummaryCountsEveryTarget | Transit-Analysis-Pipeline.py:425-426 | the four summary counters add up to the number of targets |
| Tally.RunWorkers | Transit-Analysis-Pipeline.py:408-411 | running `process_one` on every row yields the statuses and workspace of the batch specification |
| Tally.RunTargets | Transit-Analysis-Pipeline.py:398-426 | the counts are the tally of the workers' statuses, add up to the number of rows, and one summary line is appended |
| KeplerAnalysis.KeepOrUnderscore | Kepler-10_b-Analysis/kepler_exoplanet_analysis.py:33 | a character outside `[\w\-_. ]` becomes `_`; others are kept |
| KeplerAnalysis.SanitizeNameShape | Kepler-10_b-Analysis/kepler_exoplanet_analysis.py:31-34 | the result is the name without its leading and trailing spaces, each character kept or replaced by `_` |
| KeplerAnalysis.SanitizeName | Kepler-10_b-Analysis/kepler_exoplanet_analysis.py:31-34 | the directory name is no longer than the name, has no whitespace and only allowed characters |
| KeplerAnalysis.CleanNameFixed | Kepler-10_b-Analysis/kepler_exoplanet_analysis.py:31-34 | a name of allowed, non-space characters is left unchanged |
| KeplerAnalysis.SanitizeNameIdempotent | Kepler-10_b-Analysis/kepler_exoplanet_analysis.py:31-34 | sanitizing twice is sanitizing once |
| KeplerAnalysis.GridRows | Kepler-10_b-Analysis/kepler_exoplanet_analysis.py:58-60 | `ceil(N/5)` rows: enough panels for N, with fewer than 5 to spare |
| KeplerAnalysis.PanelLayout | Kepler-10_b-Analysis/kepler_exoplanet_analysis.py:58-71 | no figure for N = 0; otherwise panel i shows cadence i for i < N and the rest are switched off |
| KeplerAnalysis.GridCoversAll | Kepler-10_b-Analysis/kepler_exoplanet_analysis.py:58-60 | the grid is the least number of rows that holds every cadence |
| KeplerAnalysis.CollectPeriods | Kepler-10_b-Analysis/kepler_exoplanet_analysis.py:103-113 | the loop keeps the periods of the quarters whose periodogram succeeded, in order |
| KeplerAnalysis.SuccessesCount | Kepler-10_b-Analysis/kepler_exoplanet_analysis.py:103-113 | every quarter contributes exactly when none failed; every collected period came from a quarter |
| KeplerAnalysis.FilterPeriods | Kepler-10_b-Analysis/kepler_exoplanet_analysis.py:121 | exactly the periods within 0.1 d of the catalog period are kept |
| KeplerAnalysis.FilterAppend | Kepler-10_b-Analysis/kepler_exoplanet_analysis.py:121 | filtering distributes over concatenation, so the order of quarters is kept |
| KeplerAnalysis.Report | Kepler-10_b-Analysis/kepler_exoplanet_analysis.py:115-131 | "no periods" exactly when none were found; "none within tolerance" exactly when all are off; otherwise a mean of the non-empty filtered list |
| KeplerAnalysis.MeanBetween | Kepler-10_b-Analysis/kepler_exoplanet_analysis.py:124 | the mean of values strictly between two bounds lies strictly between them |
| KeplerAnalysis.MeanWithinTolerance | Kepler-10_b-Analysis/kepler_exoplanet_analysis.py:115-127 | the reported mean period is itself within 0.1 d of the catalog period |

## Left out

- Network calls (the archive query, the light-curve search and download, `fetch_table`) are oracles given as parameters. `fetch_table` is not part of this model: it is a single network query.
- Numerical library work is not computed; oracles stand for it:
  - `flatten`, `normalize` and `stitch` (only their concatenation of samples is modelled);
  - the rolling median;
  - folding and binning;
  - the BLS periodogram.
- `remove_nans` is not modelled on its own: the flatten and normalise oracles take the curve it would return.
- Acquirer.TryDownload: a `stitch` or `remove_nans` that raises inside the acquirer's try blocks (lines 181, 210-215, 220-225) is logged there as download_error or download_error_auto; the model represents it by the download oracle returning `DownloadRaised`, and `Stitch` and `FlattenOrNormalize` themselves never raise.
- Worker.EstimateSpec: a `remove_nans`, flatten or rolling median that raises during the estimate (lines 345-354) is not modelled separately; the one failing estimate modelled is the empty curve, logged as estimate_t0_failed.
- Plot contents, figure sizes, titles, csv column contents and JSON formatting are left out; only which files and records exist is modelled.
- Floating point: periods, epochs and durations are exact reals, and a NaN duration is read as a missing one. `int(len(s) * 0.01)` is integer division by 100.
- `\w` is modelled as ASCII letters, digits and `_`. Python's Unicode word class is not modelled.
- `str.lower` is modelled for the characters that can lower to an ASCII letter (A-Z and the Kelvin sign). No other character can make "btjd" or "bkjd".
- Concurrency: the thread pool's workers run one after another, in row order. `Tally.TallyOrderFree` shows that the counts do not depend on completion order; the interleaving of log lines from different workers is not modelled.
- Argument parsing, reading configuration from the environment, and the companion script's `globals()` assignments are left out.
- File contents are a sequence of `readline` results in which `""` marks end of file. Encoding errors are ignored.
- `_read_csv_robust`'s engine fallback is one reader oracle; a reader that raises on both engines, which crashes the run, is not modelled.
- The string form `astype(str)` gives to a missing name (`"nan"`) is left to the reader oracle.
- Worker.Host: only a row whose hostname is None (a placeholder row) is searched under the planet's name. An empty hostname cell of a local table reaches the model as `Some("nan")`, since turning cells into strings is the reader oracle's job. A masked archive host reaches it as `"--"`. Both are searched under that text, as the code does.
- A negative `max_targets` is not modelled: the limit is a `nat`.
- A `save_line` failure is modelled only for the manifest write inside `fold_plot_save`. Other log writes are assumed to succeed.
- Exception texts (`repr(e)`) are opaque strings supplied by the oracles.
- The `lc_fetch_failed_for_t0` branch is left out. The model's search oracles raise only inside the calls that `search_download_lightcurve` guards itself, so no input reaches that branch.
- The acquirer's log and downloads are computed as one trace by the specification. The methods append the same lines step by step.
- EpochEstimator.EstimateEpoch: its own ensures only says that the estimate is some sample's time. That it is the first minimum of the smoothed flux is proved in `EpochEstimator.EstimateIsDeepestSample`, for a median of the right length.

## Findings

| source | as written | input that shows it | evidently intended | confidence | as-written member | corrected member |
|---|---|---|---|---|---|---|
| Transit-Analysis-Pipeline.py:245-259 | `half_win` is three durations as a fraction of the period, and is used as the x-limit of a phase axis measured in days | period 10 d, duration 4 h: `half_win` = 0.05 d, while half the transit lasts 0.083 d, so the plot cuts the transit | the half-window in days, the fraction times the period (capped at half a period) | not executed | FoldEmit.WrittenWindowCutsTransit | FoldEmit.PlotHalfWindowCoversTransit |
