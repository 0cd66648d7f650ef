# Ringba RPC monitor, modelled in Dafny

The scripts in this repository watch the revenue per call (RPC) of the targets of a
Ringba account and post to Slack. A morning pass keeps the targets whose RPC reaches a
threshold ($10 by default). A later pass reports the kept targets whose RPC has fallen
below it. Around that core are several variants: a token client, a direct API client,
a browser export, a web service, a webhook receiver and historical tests. Small helper
scripts find account and target IDs and edit the `.env` settings file.

This project models the decision and aggregation logic between the HTTP, browser and
Slack calls. Each of those calls is a parameter of the model: fetched records, HTTP
statuses, whether an export raised, the current time and the typed answers. The
persisted state is an optional value or a class field. Each name below maps to the
model's own code.

- `Common`: the Python built-ins the scripts lean on, as the scripts use them. These
  are `lower()`, `in`, `replace`, `strip`, `split`, string ordering, `int()`/`float()`
  on decimal text, insertion-ordered dicts, the stable `sort(key=...)` and JSON-like
  trees.
- One module per script:
  - `DirectRpcMonitor`, `RingbaDirectApi`, `SimpleExport`, `RingbaApi`,
    `SlackRpcMonitor` and `Main`;
  - `WebService`, `CsvExport`, `WebhookExample` and `TestHistoricalCalllogs`;
  - `TestHistorical`, `GetLiveRpc`, `TestHighRpc`, `ListTargets` and
    `FindAccountidTargetid`;
  - `FetchProfile`, `FindTargetsExact`, `ApiFormatTester`, `FindTargets`, `UpdateEnv`
    and `GetToken`.
- `EnvFile`: the `.env` reading, `update_env_file` replace-or-append and key/value
  write-back that several helpers share.
- State that the scripts change in place is a class with `modifies` clauses:
  - the morning baseline file, which becomes `MorningStore`;
  - `EstScheduler`'s flags;
  - `main.py`'s global `morning_targets`;
  - the web service's last-run dates;
  - the webhook's monitored targets;
  - the `.env` file;
  - the token client's headers.
- Every accumulation loop of the source is a method with loop invariants. It is proved
  equal to a specification function, and the properties are lemmas about that function.

Money and RPC are `real`, so no IEEE rounding is modelled. Times of day are minutes or
zero-padded `HH:MM` strings, and dates are strings given by the caller.

Where "## Findings" shows that the code does not do what it evidently means to, the
code as written is a member of its own, with a lemma that exhibits the input. The
operations that build on it use the corrected member, and their rows say so. The
drivers that update `.env` use the corrected `update_env_file`, and
`UpdateEnv.UpdateEnvMain` uses the corrected warning test.

Elsewhere the designed behaviour and the code sometimes differ. The model follows the
code in each case:

- Every morning run overwrites the stored baseline. It is not written once per day.
  This holds for `DirectRpcMonitor.MorningStore.MorningCheck`,
  `SlackRpcMonitor.SlackMonitor.MorningCheck` and the `all` mode of
  `Main.RpcMonitor.CheckMorningRpc`.
- The morning filter of direct_rpc_monitor.py does not consult a target's `enabled`
  flag (`DirectRpcMonitor.Baseline`).
- In direct_rpc_monitor.py, slack_rpc_monitor.py and main.py, a target that has fallen
  is alerted again on every later afternoon run, because no afternoon check changes the
  baseline.
- A target missing from the current data is skipped by direct_rpc_monitor.py,
  slack_rpc_monitor.py and main.py. The outer merge of simple_export.py fills it with 0
  instead, so there it counts as a drop.
- No code in simple_export.py calls its functions that save and compare results, so
  those are modelled as standalone operations.

## Model

| member | source | states |
|---|---|---|
| EnvFile.ConcatReadLines | src/find_targets_exact.py:267-284 | writing back the lines `readlines` returned gives the same text, for a file whose lines end in `\n` |
| EnvFile.ReadLinesShape | src/find_targets_exact.py:267-268 | every line `readlines` returns ends in its only newline, except a non-empty last line that may lack one |
| EnvFile.ReadLinesConcat | src/find_targets_exact.py:267-284 | lines of that shape, written and read again, come back unchanged |
| EnvFile.UnterminatedLineMerges | src/find_targets_exact.py:272-284 | with the update as written, a new key appended after a last line lacking its newline is glued onto that line: read back, the file has one line holding both |
| EnvFile.UpdateLinesAgrees | src/find_targets_exact.py:272-280 | on a file whose last line is complete, the corrected update is exactly the update as written |
| EnvFile.UpdateLinesProps | src/find_targets_exact.py:272-280 | the first `KEY=` line is replaced by `KEY=value`, or that line is appended after all others; every other line is kept in place, the last one at most gaining its newline; afterwards the first `KEY=` line is the new one |
| EnvFile.UpdateLinesRoundTrip | src/find_targets_exact.py:267-284 | read back after the update, the file holds exactly the lines the update produced |
| EnvFile.UpdatedText | src/find_targets_exact.py:265-268 | the file after the corrected update of the `update_env_file` finding below: missing exactly when it was missing before, since reading it raises first |
| EnvFile.UpdatedTextSetsKey | src/find_targets_exact.py:262-284 | read back after the corrected update, the file's first `KEY=` line is `KEY=value`; the update as written breaks this on an unterminated last line (`EnvFile.UnterminatedLineMerges`) |
| EnvFile.UpdateEnvLines | src/find_targets_exact.py:270-280 | the scan with its `break` and the append after it compute the corrected update of the lines |
| EnvFile.LineEntry | src/update_env.py:28-30 | on a line holding `=`, the key is the stripped line's text before its first `=` and the value the text after it |
| EnvFile.ReadEnvVars | src/update_env.py:25-30 | the dict-filling loop computes the dict that the lines define |
| EnvFile.ParseEnvGet | src/update_env.py:27-30 | a key is read with value `v` iff the last line that sets the key gives it `v`: later lines win |
| EnvFile.ParseEnvOrder | src/update_env.py:27-30 | the dict read holds each key once, holds every key some line sets, and orders the keys by the first lines that set them: a later duplicate changes the value, not the position |
| EnvFile.WriteBack | src/update_env.py:72-74 | the write loop emits one `key=value` line per entry, in dict order |
| EnvFile.StripEnvLine | src/update_env.py:29-74 | a written line of a clean pair strips to `key=value` |
| EnvFile.EnvRoundTrip | src/update_env.py:25-74 | writing a dict with distinct clean keys and reading it back gives the same dict |
| EnvFile.LineEntryClean | src/update_env.py:28-29 | every pair read from a line of a file has no newline and no edge blanks, and its key has no `=`, so it survives a rewrite |
| EnvFile.ParsedFileClean | src/update_env.py:25-30 | the dict read from any file has distinct keys and only pairs that survive a rewrite |
| EnvFile.RewriteRoundTrip | src/update_env.py:25-74 | rewriting a file from the dict read from it and reading it again gives the same dict |
| EnvFile.DotEnv.constructor | src/find_targets_exact.py:263-264 | the `.env` file starts with the given text, or is missing |
| EnvFile.DotEnv.UpdateEnvFile | src/find_targets_exact.py:262-284 | reading a missing `.env` raises and changes nothing; otherwise the file becomes the text of the corrected update listed under "## Findings" |
| EnvFile.DotEnv.Write | src/update_env.py:72-74 | a write replaces the whole file |
| SimpleExport.ParseClockHhmm | src/simple_export.py:1681-1686 | a zero-padded `HH:MM` clock is read back as its minute of the day |
| SimpleExport.CheckTimeRangeSymmetric | src/simple_export.py:1677-1692 | the window test gives the same answer with the two clocks swapped |
| SimpleExport.CheckTimeRangeMalformed | src/simple_export.py:1679-1692 | a clock that does not split into two integer fields is never in any window |
| SimpleExport.CheckTimeRangeMinutes | src/simple_export.py:1681-1689 | on well-formed clocks the test holds iff the two minutes of the day are at most the window apart |
| SimpleExport.NoMidnightWrap | src/simple_export.py:1677-1689 | `23:50` is not within the default 30 minutes of `00:10`: the distance does not wrap at midnight |
| SimpleExport.DefaultRunType | src/simple_export.py:2397-2408 | with the default check times 11:00, 14:00 and 16:30 the run is Morning from 10:30 to 11:30, else Midday from 13:30 to 14:30, else Afternoon from 16:00 to 17:00, else Manual |
| SimpleExport.Retry | src/simple_export.py:2427-2441 | at most the allowed number of attempts are made; a usable path is the one returned by the last attempt and every earlier attempt failed; no usable path means every attempt was made and failed |
| SimpleExport.RetryStable | src/simple_export.py:2434-2436 | once a path is found, allowing more attempts changes nothing |
| SimpleExport.ExportAttempts | src/simple_export.py:2427-2441 | the loop of three attempts stops at the first usable path and gives what the retry rule gives |
| SimpleExport.ExportCsvRun | src/simple_export.py:2410-2521 | the browser, once set up, is always quit; attempts are made iff setup, login and navigation succeed; the failure notice means three failed attempts; notices are sent only with a webhook and carry the run type; a sent report's outcome is the result |
| SimpleExport.ExportCsv | src/simple_export.py:2385-2521 | the run labels itself with the first matching window and then behaves as the export run above |
| SimpleExport.FirstPresent | src/simple_export.py:1500-1516 | the chosen name is the earliest candidate that is a header, and there is none iff no candidate is a header |
| SimpleExport.FirstCol | src/simple_export.py:1507-1527 | the chosen column is the earliest, in header order, with the property, and there is none iff no column has it |
| SimpleExport.NamedPicks | src/simple_export.py:1499-1560 | the picks before the last-resort blocks are real headers, and a name-based pick is never overridden |
| SimpleExport.ChooseColumnsTotal | src/simple_export.py:1562-1604 | with the scanned column kept, any table with a column gets a target, any table with two columns gets both, and both are real headers |
| SimpleExport.TargetPrefersCandidates | src/simple_export.py:1500-1503 | a header from the exact target list always wins, and the earliest listed one |
| SimpleExport.TargetByHeaderWord | src/simple_export.py:1505-1509 | with no exact target header, the first header containing `target` in any case is used |
| SimpleExport.RevenueIsLastResortName | src/simple_export.py:1513 | `Revenue` is chosen by name only when no other RPC candidate is a header |
| SimpleExport.ScannedTargetDiscarded | src/simple_export.py:1563-1580 | on a table headed `Name`, `RPC` the code as written returns None although its content scan found the target column; the intended choice keeps it |
| SimpleExport.LowRows | src/simple_export.py:1646 | the filter keeps no more rows than the table has |
| SimpleExport.LowRowsMembers | src/simple_export.py:1629-1646 | a pair is kept iff some row has that target and a numeric RPC strictly below the threshold |
| SimpleExport.LowRpcTargetsMeaning | src/simple_export.py:1646-1653 | the result is sorted by ascending RPC and holds exactly the rows strictly below the threshold, each once per row |
| SimpleExport.ProcessCsvFileMeaning | src/simple_export.py:1472-1675 | a missing path or file gives None; a result names the chosen columns and the threshold, is non-empty, sorted ascending, and every RPC in it is below the threshold |
| SimpleExport.ChunkLines | src/simple_export.py:1743-1745 | the chunks concatenate to the lines, each holds 1 to 20 lines, all but the last hold 20, and there are `ceil(n / 20)` of them |
| SimpleExport.ChunkCount | src/simple_export.py:1744 | a scan in steps of 20 that stops at the first step not below `n` takes `ceil(n / 20)` steps |
| SimpleExport.SendToSlack | src/simple_export.py:1694-1766 | nothing is posted without targets or a webhook; otherwise the payload is the header, count and divider followed by the target lines, in order, in chunks of at most 20; the result is whether the post succeeded |
| SimpleExport.LoadResults | src/simple_export.py:1792-1822 | saved results load iff the file exists, has the required keys and is dated today, and then unchanged |
| SimpleExport.LoadSaved | src/simple_export.py:1768-1819 | results saved today load back unchanged |
| SimpleExport.LoadStale | src/simple_export.py:1811-1816 | results saved on another day are ignored |
| SimpleExport.Merge | src/simple_export.py:1913-1929 | over the targets of either run, with a missing RPC read as 0, a target went below iff its earlier RPC is at or above the threshold and its current one below, and is currently below iff its current RPC is below; one row per target, so duplicate rows are not paired (see "## Left out") |
| SimpleExport.WentBelowIsBelow | src/simple_export.py:1923-1929 | every target that went below is among those currently below |
| SimpleExport.AbsentTargetDropped | src/simple_export.py:1913-1926 | under a positive threshold a baseline target at or above it that is missing now counts as a drop |
| SimpleExport.NewTargetNotDropped | src/simple_export.py:1913-1926 | under a positive threshold a target missing from the baseline never counts as a drop |
| SimpleExport.CompareWith | src/simple_export.py:1899-1929 | a comparison happens iff both frames hold their target and RPC columns, against the given baseline and with the merge of the two; otherwise the plain report is sent; frames hold one row per target (see "## Left out") |
| SimpleExport.AfternoonPrefersMidday | src/simple_export.py:2067-2129 | a comparison against the morning happens only without midday results; usable midday results are always the baseline; midday results missing a column give the plain report, not a morning comparison |
| SimpleExport.ComparedDropsAreBelow | src/simple_export.py:1923-1929 | in every midday or afternoon comparison the drops are among the targets currently below |
| SimpleExport.MissingBaselineRaises | src/simple_export.py:1889 | as written, without stored results the fallback call passes `run_label=` to a function without that parameter and raises; the intended outcome is the plain report |
| SimpleExport.CompareAlwaysReports | src/simple_export.py:1880-2183 | the intended comparisons always end in a report, and the midday one is the plain report exactly when no usable morning baseline exists |
| SimpleExport.Renamed | src/simple_export.py:1909-1932 | the stored midday frame keeps the target column and the per-target RPCs under the RPC column `midday_rpc` |
| SimpleExport.ResultStore.constructor | src/simple_export.py:1783-1839 | the store starts with the given morning and midday files |
| SimpleExport.ResultStore.SaveMorningResults | src/simple_export.py:1768-1790 | the morning file is overwritten with the results dated today; the midday file is unchanged |
| SimpleExport.ResultStore.SaveMiddayResults | src/simple_export.py:1824-1846 | the midday file is overwritten with the results dated today; the morning file is unchanged |
| SimpleExport.ResultStore.CompareAndSendMidday | src/simple_export.py:1880-1945 | the outcome is the midday comparison against today's morning results; only a compared run stores its frame, renamed, as today's midday results |
| SimpleExport.ResultStore.CompareAndSendAfternoon | src/simple_export.py:2063-2183 | the outcome is the afternoon comparison against today's midday results, else today's morning results; nothing is stored |
| SimpleExport.MiddayFeedsAfternoon | src/simple_export.py:2067-2120 | midday results stored by a compared midday run load back the same day and become the afternoon baseline |
| RingbaApi.AuthFormats | src/ringba_api.py:37-41 | three header formats are tried |
| RingbaApi.AuthSearchOrder | src/ringba_api.py:37-85 | the search takes `Token`, then `Bearer`, then the bare token, stopping at the first whose targets request returns 200 |
| RingbaApi.RingbaClient.constructor | src/ringba_api.py:31-56 | the client keeps the token and account; its header is the first working format, or the `Token` default when none works |
| RingbaApi.RingbaClient.TestAuth | src/ringba_api.py:87-115 | the result is true iff some format works; the first working format becomes the header; when none works the header is unchanged |
| RingbaApi.StatsShapedLength | src/ringba_api.py:243 | a list that contains both the strings `transactionId` and `stats` has at least two elements |
| RingbaApi.RpcForTargetCases | src/ringba_api.py:219-279 | missing details or counts give None; dict counts give payout per call, or 0 without calls; any other shape, or a list without both markers, gives None |
| RingbaApi.RpcForTargetNonNegative | src/ringba_api.py:263-273 | non-negative dict payouts give a non-negative RPC |
| RingbaApi.AboveThresholdMembers | src/ringba_api.py:307-325 | a target is kept iff it is enabled and its RPC is known and at least the threshold, with its id, its name (`Unknown` when missing) and that RPC |
| RingbaApi.FindTargetsAboveThreshold | src/ringba_api.py:281-327 | a failed target list gives no targets; otherwise the loop keeps exactly the targets of the rule above, in list order |
| RingbaApi.PaginateConcat | src/ringba_api.py:536-569 | the gathered calls are the in-order concatenation of the pages read, and the last page read ends the loop because it reached `totalPages`, was empty, or the next request failed |
| RingbaApi.PagesReadRange | src/ringba_api.py:536-566 | the pages read are consecutive successful pages within the ones given |
| RingbaApi.PaginateItems | src/ringba_api.py:551-554 | the gathered calls are the items of the pages read, in order |
| RingbaApi.PagesReadStop | src/ringba_api.py:557-566 | the loop stops after a page only when it reached `totalPages`, was empty, or the next request failed |
| RingbaApi.GetCallLogs | src/ringba_api.py:508-569 | a timezone-aware bound raises before any request; otherwise the calls are the paginated concatenation, and page `i` is requested as number `i` with size 100 |
| RingbaApi.MatchingCalls | src/ringba_api.py:615 | the target's calls are exactly the calls with that target id, no more than all the calls |
| RingbaApi.MatchingIgnoresOthers | src/ringba_api.py:615 | calls of other targets do not change a target's calls |
| RingbaApi.MatchingNone | src/ringba_api.py:615-619 | logs without a call of the target give no calls |
| RingbaApi.HistoricalIgnoresOthers | src/ringba_api.py:595-633 | calls of other targets never change a target's historical RPC |
| RingbaApi.RepeatedIsProduct | src/ringba_api.py:623 | adding up `n` equal revenues gives `n` times the revenue |
| RingbaApi.SumRevenueBounds | src/ringba_api.py:623 | the total of `n` revenues within `[lo, hi]` lies between `n` times `lo` and `n` times `hi` |
| RingbaApi.HistoricalRpcIsAverage | src/ringba_api.py:615-629 | the historical RPC of a target with calls lies between its smallest and largest revenue |
| RingbaApi.AverageBounds | src/ringba_api.py:622-626 | an average of revenues within `[lo, hi]` lies within `[lo, hi]` |
| RingbaApi.HistoricalRpcZero | src/ringba_api.py:610-633 | failed logs, or logs without the target's calls, give 0 |
| RingbaApi.CalculateHistoricalRpcChoice | src/ringba_api.py:635-674 | a positive call-log RPC is returned as is; otherwise the stats fallback, or 0 when it fails; a timezone-aware bound always goes to the fallback |
| RingbaApi.CallDetailsQuery | src/ringba_api.py:483-494 | no IDs means no request; otherwise the IDs are joined into one query |
| RingbaApi.CallDetailsQueryIds | src/ringba_api.py:493 | without commas inside the IDs, the query splits back into every ID in order |
| RingbaDirectApi.CleanedAmountDollar | src/ringba_direct_api.py:715-717 | a dollar-prefixed or plain digit string reads as its number once `$` and `,` are removed |
| RingbaDirectApi.PayoutAmountFirst | src/ringba_direct_api.py:710-720 | a given `payoutAmount` decides the call's payout whatever the other fields hold |
| RingbaDirectApi.PayoutSecond | src/ringba_direct_api.py:721-737 | without `payoutAmount`, a given `payout` decides whatever the conversion fields hold |
| RingbaDirectApi.ConversionLast | src/ringba_direct_api.py:738-747 | without the two payout fields, `conversionAmount` counts only for a converted call, and otherwise the payout is 0 |
| RingbaDirectApi.PayoutUnparseable | src/ringba_direct_api.py:715-719 | a `payoutAmount` text that does not parse after cleaning leaves the payout at 0 |
| RingbaDirectApi.PayoutDollarText | src/ringba_direct_api.py:715-717 | `$25` as `payoutAmount` pays 25, whatever the other fields hold |
| RingbaDirectApi.LookupTarget | src/ringba_direct_api.py:413 | a looked-up target is listed under that id, and none is found iff no listed target has the id |
| RingbaDirectApi.LookupTargetLast | src/ringba_direct_api.py:655 | of several targets with one id, the last listed wins |
| RingbaDirectApi.UnknownTarget | src/ringba_direct_api.py:445-446 | an unlisted target is never enabled and takes the default name |
| RingbaDirectApi.MappingFromPairs | src/ringba_direct_api.py:1376-1383 | every mapped id comes from an item carrying that id and public id |
| RingbaDirectApi.MappingFromPairsKeys | src/ringba_direct_api.py:1382-1383 | an id is mapped iff some item has it with a non-empty public id |
| RingbaDirectApi.MappingFromPairsLast | src/ringba_direct_api.py:1377-1383 | a mapped id carries the public id of its last complete item |
| RingbaDirectApi.MappingFromDetails | src/ringba_direct_api.py:1401-1429 | every mapped id belongs to a target whose details carry that public id |
| RingbaDirectApi.DashboardTotalsGet | src/ringba_direct_api.py:661-751 | a target has totals iff it has a connected call; its totals count all its connected calls as calls and as connected, sum their payouts into revenue and payout, and take the UI id, the listed name (else the first call's) and the enabled flag |
| RingbaDirectApi.TotalsEntry | src/ringba_direct_api.py:676-751 | each totals entry is keyed by its internal id, counts only connected calls, and has equal revenue and payout |
| RingbaDirectApi.DashboardEntries | src/ringba_direct_api.py:621-777 | every dashboard target has calls, all connected, equal revenue and payout, RPC equal to revenue over calls, and the UI id and enabled flag of its internal id |
| RingbaDirectApi.DashboardCovers | src/ringba_direct_api.py:664-705 | a target appears in the dashboard result iff one of its calls connected |
| RingbaDirectApi.DashboardSorted | src/ringba_direct_api.py:753-774 | the dashboard result is ordered by decreasing RPC and holds each target's totals exactly once |
| RingbaDirectApi.GetDashboardRpc | src/ringba_direct_api.py:621-777 | the two loops and the sort give the dashboard result; no call logs give an empty list |
| RingbaDirectApi.FoldDashboard | src/ringba_direct_api.py:661-751 | the first loop gives the per-target totals |
| RingbaDirectApi.AddRpc | src/ringba_direct_api.py:753-769 | the second loop gives each target's totals with its RPC, in insertion order |
| RingbaDirectApi.UnknownTag | src/ringba_direct_api.py:464-465 | a tag id with no listed tag counts under `Unknown Tag` |
| RingbaDirectApi.CallsOf | src/ringba_direct_api.py:417-458 | a target's grouped calls all carry its id |
| RingbaDirectApi.Filtered | src/ringba_direct_api.py:420-426 | the grouped calls of a target are exactly the calls that carry its id |
| RingbaDirectApi.TagNames | src/ringba_direct_api.py:461-465 | one tag name per tag-id occurrence over the calls |
| RingbaDirectApi.NamesOf | src/ringba_direct_api.py:463-465 | the names of the tag ids, in order |
| RingbaDirectApi.TagCountsMeaning | src/ringba_direct_api.py:459-468 | each tag name counts the tag-id occurrences that carry it, and the counts add up to all occurrences |
| RingbaDirectApi.AddTagNames | src/ringba_direct_api.py:463-468 | the inner loop adds one to its name's count for each tag id |
| RingbaDirectApi.CountTags | src/ringba_direct_api.py:459-468 | the tag loops give the tally of the calls' tag names |
| RingbaDirectApi.AboveOfMembers | src/ringba_direct_api.py:432-478 | an insights row is listed iff it has a target id, an RPC at least the threshold and an enabled target, with that target's details and tag counts |
| RingbaDirectApi.AboveSkipsUnknown | src/ringba_direct_api.py:444-451 | an unlisted target is never listed, whatever its RPC |
| RingbaDirectApi.GetTargetsAboveThreshold | src/ringba_direct_api.py:383-485 | no insights give an empty list; otherwise the loop over the items lists exactly the qualifying rows, in order |
| RingbaDirectApi.StatsKeyPrefix | src/ringba_direct_api.py:602 | the usual `TA` target id loses its `a` in the stats key |
| RingbaDirectApi.TargetRpcToday | src/ringba_direct_api.py:573-619 | missing counts give a zeroed record named `Unknown`; the RPC times the calls is the revenue when there were calls, else 0; no stats under the key give zero calls and revenue |
| RingbaDirectApi.InsightRowsIds | src/ringba_direct_api.py:814-839 | the insights rows are those of the items with a target id |
| RingbaDirectApi.InsightsMap | src/ringba_direct_api.py:853 | each id of the insights rows maps to one of its rows and nothing else is mapped |
| RingbaDirectApi.CallLogsMap | src/ringba_direct_api.py:854 | each UI id of the dashboard rows maps to one of its rows and nothing else is mapped |
| RingbaDirectApi.Max3 | src/ringba_direct_api.py:874 | the maximum of three values |
| RingbaDirectApi.CompareRpcKeys | src/ringba_direct_api.py:856-865 | an id is compared iff both the insights rows and the dashboard rows have it |
| RingbaDirectApi.CompareValues | src/ringba_direct_api.py:867-883 | a comparison holds both RPCs, their absolute difference and a non-negative percentage that is zero iff they agree |
| RingbaDirectApi.MappedTargetNeverCompared | src/ringba_direct_api.py:853-865 | a target whose internal id is mapped to another public id, and which is no target's public id, is never compared, because dashboard rows carry UI ids |
| RingbaDirectApi.UiRowsOf | src/ringba_direct_api.py:1049-1085 | the insights branch yields no rows iff no item has a target id |
| RingbaDirectApi.UiFallbackOrder | src/ringba_direct_api.py:968-1281 | the insights rows are used iff some item has a target id; otherwise the call-log branch iff it runs and completes; otherwise the dashboard calculation |
| RingbaDirectApi.LogEntry | src/ringba_direct_api.py:1198-1223 | each call-log totals entry is keyed by its internal id, has calls and carries its UI id |
| RingbaDirectApi.LogTargetsEntries | src/ringba_direct_api.py:1249-1267 | each call-log target has calls and its UI id; its RPC is the average of its calls' own RPCs when their total is positive, else its revenue over its calls |
| RingbaDirectApi.InsightsUiRows | src/ringba_direct_api.py:1049-1135 | the insights loop and the sort give the rows ordered by decreasing RPC |
| RingbaDirectApi.CallLogUiTargets | src/ringba_direct_api.py:1196-1272 | the call-log branch fails iff some kept call's truthy `rpc` does not convert, and otherwise gives the call-log targets |
| RingbaDirectApi.FoldLogs | src/ringba_direct_api.py:1196-1247 | the first loop folds the calls per target, and fails iff a call's RPC raises |
| RingbaDirectApi.AddLogRpc | src/ringba_direct_api.py:1249-1267 | the second loop gives each target's totals with its RPC, in insertion order |
| RingbaDirectApi.GetUiMatchingRpc | src/ringba_direct_api.py:968-1281 | the branches in order give the result the fallback rule gives |
| DirectRpcMonitor.Baseline | src/direct_rpc_monitor.py:169-172 | the morning baseline holds exactly the fetched targets whose RPC reaches the $10 threshold, whatever their `enabled` flag |
| DirectRpcMonitor.MorningStore.constructor | src/direct_rpc_monitor.py:177-179 | no baseline file has been written yet |
| DirectRpcMonitor.MorningStore.MorningCheck | src/direct_rpc_monitor.py:132-222 | missing credentials and a failed authentication leave the baseline file untouched; otherwise the file is replaced by the unsorted baseline, even an empty one, and the report is that baseline ordered by decreasing RPC with no target lost or added |
| DirectRpcMonitor.CurrentById | src/direct_rpc_monitor.py:282-293 | looking up a target id among the current rows finds a row with that id, and finds nothing only when no row has it |
| DirectRpcMonitor.AlertsForMembers | src/direct_rpc_monitor.py:287-314 | an afternoon alert exists exactly for a baseline target that still has a current row and whose current RPC is below the threshold, built from the morning entry and that row |
| DirectRpcMonitor.AlertsBelow | src/direct_rpc_monitor.py:300-311 | every alert has a current RPC below the threshold and a change equal to the current RPC minus the morning RPC |
| DirectRpcMonitor.AbsentTargetSilent | src/direct_rpc_monitor.py:293-298 | a baseline target without any current row raises no alert of its own |
| DirectRpcMonitor.AbsentNoFall | src/direct_rpc_monitor.py:296-298 | a target with no current row is skipped rather than judged to have fallen |
| DirectRpcMonitor.AfternoonCheck | src/direct_rpc_monitor.py:224-386 | the afternoon check stops silently without credentials, alerts a missing baseline file, does nothing for an empty baseline, alerts a failed authentication, and otherwise reports the alerts sorted by their RPC change |
| DirectRpcMonitor.AfternoonReportOrdered | src/direct_rpc_monitor.py:317-319 | the afternoon report lists the biggest drop first and is a permutation of the alerts |
| DirectRpcMonitor.HhmmOrder | src/direct_rpc_monitor.py:422-432 | for zero-padded `HH:MM` times the string comparison the scheduler uses agrees with comparing the times of day |
| DirectRpcMonitor.MorningAtMostOnce | src/direct_rpc_monitor.py:425-441 | between two midnight polls the morning check runs at most once, and not at all once its flag is set |
| DirectRpcMonitor.AfternoonAtMostOnce | src/direct_rpc_monitor.py:431-441 | between two midnight polls the afternoon check runs at most once, and not at all once its flag is set |
| DirectRpcMonitor.MorningFiresWhenDue | src/direct_rpc_monitor.py:425-429 | with both flags clear, a poll runs the morning check first exactly when the time of day has reached the configured morning time |
| DirectRpcMonitor.EstScheduler.constructor | src/direct_rpc_monitor.py:405-419 | the check times come from the environment with defaults `10:00` and `15:00`, and neither job has run |
| DirectRpcMonitor.EstScheduler.CheckAndRunJobs | src/direct_rpc_monitor.py:420-441 | one poll runs the due jobs, morning before afternoon, sets their flags, and a poll at exactly `00:00` clears both flags |
| DirectRpcMonitor.CsvPayoutDollar | src/direct_rpc_monitor.py:1417-1421 | a leading `$` does not change a CSV payout amount |
| DirectRpcMonitor.CsvPayoutPlain | src/direct_rpc_monitor.py:1417-1421 | a plain digit string is read as its number |
| DirectRpcMonitor.CsvPayoutUnparseable | src/direct_rpc_monitor.py:1418-1423 | a payout text that does not parse once cleaned counts as 0 |
| DirectRpcMonitor.AggregateMatches | src/direct_rpc_monitor.py:1391-1432 | a target appears in the grouping iff one of its rows does; then its calls are its row count, its connected calls the rows marked connected, its revenue the sum of the payouts of rows marked with a payout, and its name that of its first row; the ids are distinct |
| DirectRpcMonitor.AggregateNoEmptyKey | src/direct_rpc_monitor.py:1397-1399 | a row with an empty target id never creates an entry |
| DirectRpcMonitor.AggregateEntries | src/direct_rpc_monitor.py:1402-1429 | every grouped target has at least one call and no more connected calls than calls |
| DirectRpcMonitor.Listing | src/direct_rpc_monitor.py:1437-1449 | the listing has one row per grouped target, in dictionary order |
| DirectRpcMonitor.ProcessCsvForRpc | src/direct_rpc_monitor.py:1375-1452 | the CSV report rows are the per-target totals of the rows, with their RPC, sorted by decreasing RPC |
| DirectRpcMonitor.AggregateRows | src/direct_rpc_monitor.py:1391-1432 | the first loop builds exactly the grouping of the rows by target id |
| DirectRpcMonitor.AddRow | src/direct_rpc_monitor.py:1394-1432 | one row with a target id adds a call, its connection and its payout to its target, creating the entry on first sight; a row without one changes nothing |
| DirectRpcMonitor.ListTargets | src/direct_rpc_monitor.py:1435-1449 | the second loop lists every grouped target with its RPC, in dictionary order |
| DirectRpcMonitor.ToRpcRatio | src/direct_rpc_monitor.py:1438-1440 | a listed target's RPC times its calls is its revenue |
| DirectRpcMonitor.ListingCounts | src/direct_rpc_monitor.py:1437-1449 | every listed target has at least one call and no more connected calls than calls |
| DirectRpcMonitor.Above | src/direct_rpc_monitor.py:698 | the above-threshold part holds exactly the rows with RPC at least the threshold |
| DirectRpcMonitor.Below | src/direct_rpc_monitor.py:735 | the below-threshold part holds exactly the rows with RPC under the threshold |
| DirectRpcMonitor.PartitionSizes | src/direct_rpc_monitor.py:698-735 | the two parts together are a permutation of all rows: every row is shown in exactly one part |
| DirectRpcMonitor.EmojiTier | src/direct_rpc_monitor.py:709-715 | fire for an RPC of 30 or more, star from 20 up to 30, a check mark otherwise |
| DirectRpcMonitor.CompactSummary | src/direct_rpc_monitor.py:747-751 | the compact list shows the first ten below-threshold rows, and the `+N more` line appears exactly when more than ten exist, with N the rows left out |
| DirectRpcMonitor.AverageRpc | src/direct_rpc_monitor.py:671-673 | the average RPC times the total calls is the total revenue, and it is 0 when there are no calls |
| DirectRpcMonitor.RealTime | src/direct_rpc_monitor.py:666-668 | the real-time report is produced iff some target was fetched |
| DirectRpcMonitor.FilterKeepsOrder | src/direct_rpc_monitor.py:668-735 | filtering the sorted rows keeps both parts in decreasing RPC order |
| DirectRpcMonitor.TopTags | src/direct_rpc_monitor.py:104-114 | the tags shown are the first three of a list, three counted tags (or all when fewer), and none when the target has no tags |
| DirectRpcMonitor.TopCountsDominate | src/direct_rpc_monitor.py:106-108 | the counted tags shown are among the target's tags and no tag left out has a higher count than one shown |
| CsvExport.DefaultDates | src/csv_export.py:348-356 | a supplied start or end date is kept; a missing start becomes yesterday and a missing end becomes the start |
| CsvExport.WaitForDownload | src/csv_export.py:278-303 | the download is found iff some poll lists a `.csv` whose lower-cased name has `call-logs` and which is under 300 s old; the wait stops at the first such poll and otherwise uses every poll before the timeout |
| CsvExport.ExportCallLogsCsv | src/csv_export.py:325-390 | the export succeeds iff the account ID is set and the browser setup, login and navigation succeed; a browser once created is always quit; the dates are the defaulted ones whenever the account ID is set |
| CsvExport.FilenameDateFields | src/csv_export.py:407-413 | a file name of at least three `-` fields reports its last three fields, with `.csv` removed from the last |
| CsvExport.FilenameDateFallback | src/csv_export.py:411-416 | a file name of fewer than three `-` fields reports today's date |
| CsvExport.DropCsvSuffix | src/csv_export.py:413 | removing `.csv` from a day field with `.csv` appended gives back the field |
| CsvExport.CallLogsFileDate | src/csv_export.py:407-413 | `call-logs-Y-M-D.csv` reports the date `Y-M-D` |
| SlackRpcMonitor.BaselineMembers | src/slack_rpc_monitor.py:154-184 | the baseline is exactly the enabled dict targets (a missing `enabled` counts as false) whose RPC is known and at least $10, each with the calls and revenue of its counts; every stored RPC is at least $10 |
| SlackRpcMonitor.AlertOf | src/slack_rpc_monitor.py:284-310 | an alert keeps the morning RPC and its change is the current RPC minus the morning RPC |
| SlackRpcMonitor.AlertsMembers | src/slack_rpc_monitor.py:281-310 | the alerts are exactly the baseline targets whose current RPC is known and below $10; every alerted RPC is below $10 |
| SlackRpcMonitor.DropIsAlerted | src/slack_rpc_monitor.py:289 | a target stored in the morning whose current RPC is known and below $10 is alerted, with a negative change |
| SlackRpcMonitor.AfternoonReportOrder | src/slack_rpc_monitor.py:315 | the afternoon report lists the alerts in ascending order of change, largest drop first, each exactly once |
| SlackRpcMonitor.MorningReportOrder | src/slack_rpc_monitor.py:193 | the morning report lists the baseline from highest to lowest RPC, each target exactly once |
| SlackRpcMonitor.SlackMonitor.constructor | src/slack_rpc_monitor.py:39 | the monitor starts with the given baseline file and no messages sent |
| SlackRpcMonitor.SlackMonitor.MorningCheck | src/slack_rpc_monitor.py:115-229 | missing credentials end silently; failed authentication or a failed target list is alerted with the file untouched; otherwise the baseline overwrites the file, even when empty, and the sorted report or the none-above notice is sent |
| SlackRpcMonitor.SlackMonitor.AfternoonCheck | src/slack_rpc_monitor.py:231-366 | the file is never changed; a missing file is alerted, an empty baseline stops silently, failed authentication is alerted; otherwise the alerts sorted by change, or the all-still-above notice with the baseline's size, are sent |
| TestHistorical.MorningRpc | src/test_historical.py:164-170 | the morning RPC is the call-log value, or the current stats value when the logs give 0 |
| TestHistorical.AfternoonRpc | src/test_historical.py:223-241 | the afternoon RPC is the call-log value; when that is 0 it is the stats value, unless a simulated drop is drawn and falls below the threshold, in which case it is the simulated value |
| TestHistorical.BaselineFails | src/test_historical.py:155-172 | the morning loop raises iff some target that passes the name filter has no morning RPC to format |
| TestHistorical.BaselinePrefixFails | src/test_historical.py:155-172 | one failing target makes the whole morning loop raise |
| TestHistorical.BaselineGet | src/test_historical.py:174-180 | a target id is stored iff some kept target with that id reaches the threshold; its entry carries that id, the morning RPC of that id, and the name of the last such target, which overwrote any earlier one |
| TestHistorical.BaselineEntries | src/test_historical.py:174-180 | the baseline holds one entry per id, each under its own id and at or above the threshold |
| TestHistorical.BaselineDropsFail | src/test_historical.py:221-254 | the afternoon loop raises iff some entry has no afternoon RPC or drops from a morning RPC of 0 |
| TestHistorical.BaselineDropsPrefixFails | src/test_historical.py:221-254 | one failing entry makes the whole afternoon loop raise |
| TestHistorical.BaselineDropsMembers | src/test_historical.py:246-254 | an entry is reported iff its afternoon RPC is below and its morning RPC at or above the threshold, with its drop |
| TestHistorical.PositiveThresholdNoZeroDivision | src/test_historical.py:175-253 | with a positive threshold the drop percentage never divides by zero on a baseline the morning loop built |
| TestHistorical.ZeroMorningDropRaises | src/test_historical.py:253 | with a threshold of at most 0, a stored morning RPC of 0 that drops raises the division error |
| TestHistorical.TargetNameById | src/test_historical.py:86-91 | the name of the first target with the id, `Unknown` when it has none or no target has the id |
| TestHistorical.AfternoonNotices | src/test_historical.py:210-272 | an empty baseline gives only the warning; a raising loop gives the error; otherwise the drop report carrying the afternoon loop's list of drops (or the no-drop notice exactly when nothing dropped), then the completion notice |
| TestHistorical.HistoricalTest.constructor | src/test_historical.py:25 | the run starts with the given morning-targets file and no notices sent |
| TestHistorical.HistoricalTest.SaveMorningTargets | src/test_historical.py:67-72 | the file is overwritten with the baseline; nothing is sent |
| TestHistorical.HistoricalTest.LoadMorningTargets | src/test_historical.py:74-84 | no file gives the empty baseline; otherwise what was written, in the same order |
| TestHistorical.HistoricalTest.AfternoonCheck | src/test_historical.py:209-272 | the file is unchanged and the notices of the afternoon pass over the loaded baseline are sent |
| TestHistorical.HistoricalTest.RunMain | src/test_historical.py:93-278 | missing settings end silently; failed authentication is reported; a failed or empty target list ends the run; otherwise the baseline is saved and, when non-empty, compared in the afternoon, with the notices in order |
| TestHistoricalCalllogs.DatetimeWindow | src/test_historical_calllogs.py:31-44 | the window, in minutes, is centred on the base time and spans twice the given number of hours |
| TestHistoricalCalllogs.DefaultWindow | src/test_historical_calllogs.py:29-43 | with the default of one hour, 10:00 gives the window 09:00 to 11:00 |
| TestHistoricalCalllogs.SkipMeaning | src/test_historical_calllogs.py:153-154 | an empty filter or `all` in any case keeps every target; any other filter keeps exactly the targets with that exact name |
| TestHistoricalCalllogs.UpperAllIsNoFilter | src/test_historical_calllogs.py:153 | `ALL` is read as no filter |
| TestHistoricalCalllogs.DropPercentage | src/test_historical_calllogs.py:186 | a morning RPC of zero or less gives a drop of 0; otherwise the drop is the fall from morning to afternoon as a percentage of the morning RPC |
| TestHistoricalCalllogs.ResultsMembers | src/test_historical_calllogs.py:148-182 | a result is listed iff its target passes the name filter, and it carries that target's id, name and RPC |
| TestHistoricalCalllogs.DropsMembers | src/test_historical_calllogs.py:184-194 | a target is listed as dropped iff it passes the filter, its morning RPC is at or above the threshold and its afternoon RPC below it, with the two RPCs and their drop percentage |
| TestHistoricalCalllogs.Compare | src/test_historical_calllogs.py:143-220 | the loop and the two reports give both result lists sorted high to low, with the counts of results at or above the threshold, and the drops in target order |
| TestHistoricalCalllogs.ReportOrder | src/test_historical_calllogs.py:200-213 | each report is ordered high to low and holds every listed result exactly once |
| WebService.IsTimeToRun | src/web_service.py:62-80 | a window never runs twice on one calendar date; otherwise it is due iff the current minute of the day is within 5 minutes of the target, either side |
| WebService.NoMidnightWrap | src/web_service.py:76-80 | the window does not wrap at midnight: 23:58 is not within five minutes of 00:01 |
| WebService.ParseTime | src/web_service.py:92-99 | a time without `:` is a bare hour with minute 0, and it fails exactly when `int` rejects the text |
| WebService.ParseTimeHhmm | src/web_service.py:92-99 | an `HH:MM` time parses to its hour and minute |
| WebService.ParseTimeHourOnly | src/web_service.py:92-99 | a bare hour, with no `:`, means minute 0 |
| WebService.ScheduleTimes | src/web_service.py:86-105 | there are always three scheduled times |
| WebService.ScheduleParsed | src/web_service.py:86-99 | three well-formed `HH:MM` settings are used as given |
| WebService.MorningDefaultTime | src/web_service.py:88 | the morning default `11:00` parses to 11:00 |
| WebService.MiddayDefaultTime | src/web_service.py:89 | the midday default `14:00` parses to 14:00 |
| WebService.AfternoonDefaultTime | src/web_service.py:90 | the afternoon default `16:30` parses to 16:30 |
| WebService.ScheduleDefaults | src/web_service.py:88-105 | unset variables give the times 11:00, 14:00 and 16:30 |
| WebService.OneBadTimeResetsAll | src/web_service.py:100-105 | one malformed time sends all three to the defaults, discarding the well-formed settings |
| WebService.AfterCheck | src/web_service.py:112-123 | a due window's last-run time becomes `now` only when the export returns; one that raises, or a window not due, keeps it |
| WebService.OncePerDay | src/web_service.py:68-120 | after a successful run, no later tick of the same date runs that window again |
| WebService.RetriedNextTick | src/web_service.py:114-123 | after a run that raises, the window stays due at every later tick of the same window on that date |
| WebService.TestRun | src/web_service.py:52-60 | the intended startup test run succeeds iff the export returns a truthy result, and fails when it raises |
| WebService.TestRunAlwaysFails | src/web_service.py:45-50 | as written, the startup test run is reported failed even when the export would succeed, because `export_csv` accepts none of the keyword arguments it is given |
| WebService.Scheduler.constructor | src/web_service.py:33-35 | no window has run yet |
| WebService.Scheduler.ScheduledTask | src/web_service.py:82-151 | the three windows are checked independently in the order morning, midday and afternoon; each due window starts its export, and its last-run time becomes `now` unless the export raises; no other state changes |
| WebService.Scheduler.RunWindows | src/web_service.py:107-151 | for given times, the same three independent window checks and their last-run updates |
| WebService.Scheduler.TriggerRun | src/web_service.py:191-226 | a run type other than `morning`, `midday` or `afternoon` gets a 400 and any of those a 200; the run then sets only its own last-run time, and only when the export does not raise |
| WebhookExample.RpcFromWebhook | src/webhook_example.py:100-109 | with `calls` defaulting to 1 and `revenue` to 0, a positive call count gives the RPC that times the calls is the revenue, and any other count gives 0 |
| WebhookExample.RpcFromWebhookDefaults | src/webhook_example.py:106-109 | without a `calls` field the RPC is the revenue itself, and with neither field it is 0 |
| WebhookExample.RebuildGet | src/webhook_example.py:156-173 | after the refill loop an id is monitored iff some target with that id has an RPC at or above the threshold; the entry kept carries that id, the RPC looked up for it, and the name of the last such target, which overwrote any earlier one |
| WebhookExample.Cut | src/webhook_example.py:156-165 | the loop stops at the first target whose RPC is None, where the RPC log line raises, or runs to the end |
| WebhookExample.WebhookMonitor.constructor | src/webhook_example.py:40-43 | the monitor starts with the configured threshold and no monitored targets |
| WebhookExample.WebhookMonitor.CheckMorningTargets | src/webhook_example.py:143-178 | the dict is cleared and then refilled in list order: a failed target list leaves it empty, and a None RPC raises mid-loop, leaving the targets before it |
| WebhookExample.WebhookMonitor.RpcWebhookHandler | src/webhook_example.py:53-98 | the reply is 400 iff the payload lacks a truthy target id or name; an alert is sent iff the target is monitored, its current RPC is below the threshold and its morning RPC at or above it, with the drop percentage from the two RPCs; a morning RPC of 0 in that case divides by zero and gives a 500; the dict is only read |
| WebhookExample.AlertDropPositive | src/webhook_example.py:80-82 | with a positive threshold, every alert's drop percentage is positive |
| ApiFormatTester.Probes | src/api_format_tester.py:47-93 | the nested loops make 36 probes, each a valid choice of base URL, endpoint format, authorization format and URL variant |
| ApiFormatTester.ProbeAt | src/api_format_tester.py:73-93 | the probe reached with loop indices `b, e, a, v` is the one at place `12b + 6e + 2a + v`: base URL outermost, URL variant innermost |
| ApiFormatTester.LookField | src/api_format_tester.py:107-129 | a field is found only in an object that holds it with a sized value, and the count is that value's length; the field is missing exactly when `field in data` is false |
| ApiFormatTester.ScanFieldsFrom | src/api_format_tester.py:107-129 | the combination found before the field loop matters only when no field is found: a found field replaces it |
| ApiFormatTester.StepSets | src/api_format_tester.py:94-139 | a probe replaces `working_combination` with the combination it records, or leaves it as it was |
| ApiFormatTester.StructureOnlyWhileNone | src/api_format_tester.py:131-134 | the response structure is printed only while no combination has been found, and only by a probe that finds none |
| ApiFormatTester.SearchIsLastSome | src/api_format_tester.py:70-139 | after all probes, `working_combination` is the combination recorded by the last probe that records one |
| ApiFormatTester.ItemsOverwritesTargets | src/api_format_tester.py:107-129 | when both fields are present and the `targets` listing prints, `items`, looked at second, overwrites the combination |
| ApiFormatTester.TargetsPrintRaiseStops | src/api_format_tester.py:124-139 | when printing the `targets` listing raises, the exception ends the field loop and `items` is never looked at |
| ApiFormatTester.ProbeOnce | src/api_format_tester.py:94-139 | the probe handler computes one probe's new combination and whether it printed the structure |
| ApiFormatTester.FindWorkingCombination | src/api_format_tester.py:70-139 | the four nested loops compute the combination that the probes in their order leave |
| ApiFormatTester.SavedConfig | src/api_format_tester.py:158-164 | the saved configuration has exactly the five keys `base_url`, `endpoint_format`, `auth_format`, `response_field` and `account_id`, in that order, with the combination's values and the account ID |
| ApiFormatTester.TesterRunFinds | src/api_format_tester.py:70-153 | with both settings present, a run finds no combination iff no probe records one, and the combination it keeps is that of the last probe that does |
| ApiFormatTester.ApiFormatTesterMain | src/api_format_tester.py:24-195 | the run ends as the tester's run function says, and `.env` gets the corrected update of the `update_env_file` finding, setting `RINGBA_AUTH_FORMAT` for a working combination only; a missing `.env` raises, is caught, and changes nothing |
| GetToken.TemplateVars | src/get_token.py:62-68 | a new `.env` sets five keys, the token first |
| GetToken.WriteTemplate | src/get_token.py:62-68 | the five writes produce the template text |
| GetToken.TemplateKeysDistinct | src/get_token.py:63-68 | the template's five keys differ pairwise |
| GetToken.TemplateClean | src/get_token.py:63-68 | the template's keys are distinct, and a token with no newline or edge blanks keeps every pair so |
| GetToken.TemplateShape | src/get_token.py:62-68 | a new `.env` holds exactly five lines, the token's first, and for such a token it reads back as the token followed by the four placeholders |
| GetToken.MergedVarsMeaning | src/get_token.py:75-88 | the merge sets the token and changes no other value; a token key already read keeps its position and a new one goes last; every other key is one some line of the file sets |
| GetToken.MergeRoundTrip | src/get_token.py:75-88 | for a clean token, the merged file read back gives the merged dict |
| GetToken.SavedText | src/get_token.py:56-90 | `.env` changes only on a `y` answer, and a `y` answer always leaves a file |
| GetToken.SavedTokenReadBack | src/get_token.py:56-90 | read back after a `y` answer, the file sets the new token, and a file that existed keeps every other value it set |
| GetToken.TokenOf | src/get_token.py:169-173 | a token is taken only from a 200 reply and only when it is truthy |
| GetToken.Attempts | src/get_token.py:136-156 | there are six direct attempts |
| GetToken.AttemptAt | src/get_token.py:153-164 | attempt `2h + d` uses content type `h` and body kind `d`: each content type in turn, with the form body and then the JSON body |
| GetToken.DirectTokenAttempt | src/get_token.py:130-201 | `success` holds iff some attempt yields a token; the attempts stop at the first that does, and `.env` becomes the template with that token only on a `y` answer |
| GetToken.TryBodies | src/get_token.py:156-193 | for one content type the form body is tried, then the JSON body; the first reply with a token stops the loop after a `y` answer writes the template, and without a token nothing is written |
| GetToken.GetTokenMain | src/get_token.py:15-98 | empty credentials exit and change nothing; a token obtained is saved as the save rule says; when the token call raises, the direct attempts run, and their success and `.env` effect are those of `direct_token_attempt` |
| GetToken.ManualEntry | src/get_token.py:101-128 | a token obtained overwrites `.env` with the template on a `y` answer, whatever the file held; when the token call raises, the direct attempts run as in `direct_token_attempt` |
| GetToken.NoTokenReplies | src/get_token.py:169-173 | a 200 whose JSON is a list, or an object with an empty `access_token`, yields no token; a non-empty one does |
| FindTargetsExact.FirstFive | src/find_targets_exact.py:75 | `targets[:5]` is the first five targets, or all of them when there are fewer |
| FindTargetsExact.PrintTargets | src/find_targets_exact.py:75-86 | printing the first targets gets through iff every one is an object whose `instructions`, when present, answers `'number' in` and then `['number']` |
| FindTargetsExact.HasTargets | src/find_targets_exact.py:131 | the test before step 3 answers only when `status` is bound, is false for any status other than 200, and is true only for a 200 whose data holds `targets`; it raises on an unbound name or a value that does not answer `in`, `[...]` or `len` |
| FindTargetsExact.FirstTargetId | src/find_targets_exact.py:132-133 | the first target's id is read only from an object with a `targets` list whose first item is an object with both `id` and `name` |
| FindTargetsExact.EnvAfterRun | src/find_targets_exact.py:64-95 | `.env` changes only when both settings are set and the first reply marks the API as working, and only when a `.env` exists; the change is the corrected update of the `update_env_file` finding |
| FindTargetsExact.FindTargetsExactMain | src/find_targets_exact.py:24-260 | the run ends missing a setting, crashing, or with a summary exactly as the run function says from the four replies, and `.env` ends as the corrected step-1 update leaves it |
| FindTargetsExact.FirstRequestRaisedCrashes | src/find_targets_exact.py:59-131 | a first request that raises leaves `status` unbound, so the test before step 3 crashes the run |
| FindTargetsExact.NonJsonSuccessCrashes | src/find_targets_exact.py:64-131 | a 200 whose body is not JSON leaves `data` unbound, so the test before step 3 crashes the run |
| FindTargetsExact.EmptyTargetsReported | src/find_targets_exact.py:73-242 | an empty `targets` list does not mark the API as working, yet the summary reports success |
| FindTargetsExact.PlainTargetsMarkWorking | src/find_targets_exact.py:64-95 | a 200 listing plain objects without `instructions` marks the API as working |
| FindTargetsExact.SummaryJudgesLastStatus | src/find_targets_exact.py:139-242 | with a truthy first id, the summary judges the status of the last follow-up request that answered: a raising counts request and a 404 references request make it report failure although targets were found, and a 200 counts request after a failed detail request makes it report success |
| FindTargets.AuthHeaders | src/find_targets.py:47-50 | two authorization headers are tried: `Bearer` first, then `Token` |
| FindTargets.AuthLabel | src/find_targets.py:66 | a header is labelled `Bearer` iff it contains `Bearer`, and `Token` otherwise |
| FindTargets.BearerHeaderLabel | src/find_targets.py:47-66 | the first header is labelled `Bearer` |
| FindTargets.TokenHeaderLabel | src/find_targets.py:49-66 | the second header is labelled `Token` iff the token itself does not contain `Bearer`: the label is a substring test on the whole header |
| FindTargets.TargetDirs | src/find_targets.py:55-60 | four account directories are tried |
| FindTargets.TargetPaths | src/find_targets.py:55-60 | each of the four paths is its account directory followed by `/targets` |
| FindTargets.StatsUrlDropsTargets | src/find_targets.py:100 | the counts URL drops the path's last segment, `targets`, and appends the target's id and `Counts` under the same directory |
| FindTargets.StatsUrlOfTargetPaths | src/find_targets.py:55-100 | for every one of the four paths the counts URL sits under that path's own account directory |
| FindTargets.TruthyNumberItemsNotFound | src/find_targets.py:82-86 | an object whose `items` is a truthy number does not set the flag: `len(items)` raises first |
| FindTargets.SearchTargets | src/find_targets.py:63-135 | the found-targets flag ends true iff some header and path got a 200 whose JSON is an object with truthy, sized `items` or a non-empty list; nothing resets it |
| FindTargets.FindTargetsMain | src/find_targets.py:33-138 | a missing token or account ID exits first; otherwise the run reports success iff the search finds targets, and goes on to search related accounts otherwise |
| FindTargets.UpdateEnvFile | src/find_targets.py:242-264 | a missing `.env` raises and changes nothing; otherwise, with the corrected update of the `update_env_file` finding, the first `RINGBA_ACCOUNT_ID=` line is replaced, or the line is appended on a line of its own |
| FindTargets.UpdatedAccountId | src/find_targets.py:242-264 | read back after the corrected update, the file's first `RINGBA_ACCOUNT_ID=` line names the new account |
| FindAccountidTargetid.InsertHyphen | src/find_accountid_targetid.py:71 | inserting a hyphen at `i` adds one character, a `-` at `i`, with the characters before and after unchanged |
| FindAccountidTargetid.HyphenatedProps | src/find_accountid_targetid.py:66-72 | an ID of 32 or more characters gains exactly three characters, hyphens at indices 8, 16 and 24 with the original characters between them, and when it had no hyphen, removing them gives back the original |
| FindAccountidTargetid.HyphenFree | src/find_accountid_targetid.py:64 | removing the hyphens from `a-b-c-d` gives `abcd` when the parts have none |
| FindAccountidTargetid.BaseVariants | src/find_accountid_targetid.py:48-72 | a non-empty configured ID is the first variant; an `RA` ID adds the ID without `RA`, any other adds `RA` + ID; an ID with a hyphen adds its hyphen-free form, and one without a hyphen of 32 or more characters adds the hyphenated form; at most three variants |
| FindAccountidTargetid.ScanCollects | src/find_accountid_targetid.py:84-101 | a string is collected from the profile iff it is the string value of an object member, at any depth, that is longer than 10 characters and has an id- or account-like key, an `RA` value longer than 15, or a hex value of 32 or more characters |
| FindAccountidTargetid.LeafRule | src/find_accountid_targetid.py:89-98 | a dict's string value is collected iff it is longer than 10 and its key mentions `id` or `account`, or it starts with `RA` and is longer than 15, or it has 32 or more characters that are all hex digits or `-` |
| FindAccountidTargetid.ListStringsIgnored | src/find_accountid_targetid.py:99-101 | a string directly inside a list is not collected, however ID-like it is |
| FindAccountidTargetid.MergeRefsProps | src/find_accountid_targetid.py:105-108 | merging keeps the variants as a prefix, adds every profile reference, and adds each new one exactly once: nothing added is a duplicate or already a variant |
| FindAccountidTargetid.AccountIdVariants | src/find_accountid_targetid.py:47-110 | the variant list is the configured ID's variants followed by the new profile references, each once, in order |
| FindAccountidTargetid.FindWorkingAccountId | src/find_accountid_targetid.py:135-211 | the search skips variants shorter than 10, moves on after a request that raises, and stops at the first variant whose targets request answers 200; none is found iff no variant qualifies |
| FindAccountidTargetid.FoundIsFirst | src/find_accountid_targetid.py:139-211 | every variant before the one found is shorter than 10 or not answered 200, and the one found is long enough and answered 200 |
| FetchProfile.KeyPath | src/fetch_profile.py:73-77 | a top-level key is its own path; a nested key is the parent path, a dot and the key |
| FetchProfile.ScanMembersAppend | src/fetch_profile.py:70-80 | a dict's members are scanned in order: the references found in two runs of members are those of the first run followed by those of the second |
| FetchProfile.ScanRecords | src/fetch_profile.py:69-83 | a `(path, value)` pair is recorded iff it is the string value of an object member, at any depth, longer than 10 characters with an id- or account-like key or an `RA` value longer than 15, together with that member's dotted path |
| FetchProfile.TopLevelLeaf | src/fetch_profile.py:74-80 | a top-level string is recorded under its bare key iff it is longer than 10 and its key mentions `id` or `account`, or it starts with `RA` and is longer than 15 |
| FetchProfile.NestedLeaf | src/fetch_profile.py:69-83 | a recorded value inside a dict that is item `i` of a list is found under the path `outer[i].inner` |
| FetchProfile.ScanItemsAt | src/fetch_profile.py:81-83 | every reference found in a list item, under the path with that item's index, is part of the list's references |
| FetchProfile.MostLikely | src/fetch_profile.py:93-98 | the most likely ID is the value of the first reference whose path mentions `account` and whose value starts with `RA`, and there is none iff no reference qualifies |
| ListTargets.Partition | src/list_targets.py:35-36 | the enabled and disabled groups partition the targets: each target lands in exactly one group, an absent flag counting as disabled, and together the groups hold every target as often as it occurs |
| ListTargets.StrLeTotal | src/list_targets.py:42 | the string order the sort uses is total, so any two names compare |
| ListTargets.SortByNameSorted | src/list_targets.py:42-66 | the sorted group is in ascending name order, a missing name sorting as the empty string |
| ListTargets.SortByNamePerm | src/list_targets.py:42-66 | sorting lists every target of the group exactly as often as the group holds it |
| ListTargets.SortByNameProps | src/list_targets.py:42-66 | both properties together: name order and the same targets |
| ListTargets.Numbered | src/list_targets.py:42-66 | `enumerate(..., 1)` numbers entry `i` as `i + 1` and keeps the entries in order |
| ListTargets.Listings | src/list_targets.py:39-84 | the enabled targets are listed in name order, numbered from 1, each with its RPC, up to the first one without an RPC, whose line raises and ends the script; otherwise every enabled target is listed once, and every disabled target once in name order when the answer asks for it |
| ListTargets.ListingsNumbered | src/list_targets.py:42-66 | both listings are numbered 1, 2, ... in ascending name order |
| ListTargets.ShownThreshold | src/list_targets.py:78 | the threshold shown is the environment's value, or `10.0` when it is not set |
| TestHighRpc.EnabledTargets | src/test_high_rpc.py:47 | keeps exactly the targets that are dicts flagged enabled, an absent flag counting as disabled, and never grows the list |
| TestHighRpc.Checked | src/test_high_rpc.py:54 | the checked targets are the first ten enabled ones, or all of them when there are fewer |
| TestHighRpc.ProbeOf | src/test_high_rpc.py:62-80 | only a non-empty counts dict is read; the check raises iff the call count is not numeric, or is positive with a non-numeric payout; with positive calls a target is reported iff payout/calls is at least 12.00, and a report carries the target's id, its name or `Unknown`, and an RPC equal to revenue over calls |
| TestHighRpc.HighTargetsMembers | src/test_high_rpc.py:54-80 | a completed loop reports at most one target per checked target, and a target is reported iff checking it gives a high RPC |
| TestHighRpc.HighTargetsRaise | src/test_high_rpc.py:54-80 | the loop raises iff checking some one target raises |
| TestHighRpc.BoundaryIsReported | src/test_high_rpc.py:72 | a target at exactly 12.00 RPC is reported: the bound is inclusive |
| TestHighRpc.TestHighRpcMain | src/test_high_rpc.py:16-90 | a failed authentication or a response without `targets` runs nothing; otherwise the run crashes iff the loop over the first ten enabled targets raises, and else reports exactly the targets that loop collects |
| TestHighRpc.ReportBounds | src/test_high_rpc.py:47-80 | a completed probe reports at most ten targets, each of them an enabled target of the response whose own counts give that report |
| UpdateEnv.CurrentVars | src/update_env.py:16-30 | with no `.env` the dict starts empty |
| UpdateEnv.PutIfGivenGet | src/update_env.py:52-59 | a non-empty answer sets its key and an empty one leaves the dict's value; no other key changes |
| UpdateEnv.PromptedGet | src/update_env.py:46-59 | after the four prompts, each prompted key holds its answer when one was typed and the value read otherwise; every other key keeps the value read |
| UpdateEnv.AbortsIffNoToken | src/update_env.py:61-69 | the run aborts exactly when the file sets no token and the typed token is empty |
| UpdateEnv.UpdatedValues | src/update_env.py:51-74 | in the dict written back, a typed answer sets its key and an empty one keeps the value read; the token is the one read when there was one, else the typed one; every other key keeps its value |
| UpdateEnv.UpdatedKeyOrder | src/update_env.py:51-74 | the keys read keep their order at the front of the file written, and any key added is one of the five the prompts set |
| UpdateEnv.UpdatedClean | src/update_env.py:51-74 | the dict written has distinct keys, and answers free of newlines, `=` in the key and edge blanks keep every pair so |
| UpdateEnv.UpdateRoundTrip | src/update_env.py:25-30 | with such clean answers, reading the written file back line by line (strip, split at the first `=`) gives exactly the dict that was written |
| UpdateEnv.WarnsAgreesWhenSet | src/update_env.py:81-87 | the placeholder test as written and the test with the `Not set` default agree on a key that is set, and differ only on a missing key, which only the latter warns about |
| UpdateEnv.AbsentAccountNotWarned | src/update_env.py:81-83 | with no `.env`, an empty account answer and a typed token, the file written holds only the token, and the test as written does not warn about the missing account ID |
| UpdateEnv.UpdateEnvMain | src/update_env.py:10-87 | the run aborts, leaving `.env` untouched, iff no token is read or typed; otherwise `.env` becomes one `key=value` line per entry of the updated dict, in order, and the corrected warning test of the `update_env.py` finding warns for an account ID or webhook that is missing or still a placeholder |
| GetLiveRpc.SelectedDate | src/get_live_rpc.py:68-88 | choice `2` picks yesterday, choice `3` the typed date when it parses, and every other answer (including an unparseable typed date) today |
| GetLiveRpc.EnabledTargetsMembers | src/get_live_rpc.py:108-112 | the enabled list holds exactly the dict targets whose `enabled` flag is set or absent |
| GetLiveRpc.CountsFields | src/get_live_rpc.py:139-156 | the call and payout fields come from a non-empty dict, from the second element of a longer list (its `stats` when present), each 0 when absent; reading a non-dict second element raises; any other counts reply gives 0 and 0 |
| GetLiveRpc.EntryOf | src/get_live_rpc.py:124-182 | a target's row keeps its id and name (`Unknown` when absent); it is the zero error row exactly when processing raises; otherwise calls and revenue are the counts' fields and RPC times calls is revenue, 0 without calls |
| GetLiveRpc.RpcDataOnce | src/get_live_rpc.py:120-182 | every enabled target gets exactly one row, at its own position, whether processing raised or not |
| GetLiveRpc.AverageRpc | src/get_live_rpc.py:207-209 | the average RPC times the total calls is the total revenue, and it is 0 without calls |
| GetLiveRpc.WithCalls | src/get_live_rpc.py:218 | the rows kept are exactly those with calls |
| GetLiveRpc.WithCallsSorted | src/get_live_rpc.py:185-218 | filtering the sorted rows keeps them in decreasing RPC order |
| GetLiveRpc.TopPerformers | src/get_live_rpc.py:216-218 | the top performers are the first five rows with calls, or all of them when fewer |
| GetLiveRpc.LiveRpcReport | src/get_live_rpc.py:30-224 | a failed authentication, a reply without a `targets` list, an empty list and a list with no enabled target each end the run; a target whose progress line raises after its row is appended makes the table raise; otherwise the report lists every enabled target's row sorted by decreasing RPC with the chosen date, the sums of calls and revenue, their average and the top performers |
| GetLiveRpc.FilterEnabled | src/get_live_rpc.py:108-112 | the filtering loop keeps the enabled targets in list order |
| GetLiveRpc.ProcessTarget | src/get_live_rpc.py:130-182 | the `try` block yields the target's row, or its zero row when reading the counts raises |
| GetLiveRpc.CollectRpcData | src/get_live_rpc.py:120-182 | the loop fills `rpc_data` with one row per enabled target, in order |
| GetLiveRpc.ReportShape | src/get_live_rpc.py:184-218 | the sorted report is a permutation of the rows, in decreasing RPC order with one row per enabled target, and its top performers are report rows with calls, also in decreasing RPC order |
| GetLiveRpc.AppendedRowsAsWritten | src/get_live_rpc.py:158-182 | as written, a target adds one or two rows to `rpc_data` |
| GetLiveRpc.NullPayoutAppendsTwice | src/get_live_rpc.py:158-182 | a counts dict with no calls and a null payout appends the target's row and then, when the progress line raises, a second zero row |
| GetLiveRpc.NullPayoutCrashes | src/get_live_rpc.py:158-196 | an enabled target whose counts have no calls and a null payout makes building the table raise |
| Main.MorningMapGet | src/main.py:76-87 | an id is a key of the morning map exactly when some target above the threshold has it, and its value comes from the last such target |
| Main.MorningMapDistinct | src/main.py:76-87 | the morning map has no key twice |
| Main.StoredAboveThreshold | src/main.py:63-87 | in `all` mode every stored morning RPC is at least the threshold |
| Main.NamedTargetsAsWritten | src/main.py:101 | as written, unpacking the targets response as a pair never yields a target |
| Main.NamedTargets | src/main.py:101-104 | the evidently intended target list is the response's `targets`, and none when the request fails |
| Main.NamedModeRaises | src/main.py:101 | as written, named mode raises for every response except a dict with exactly two keys the first of which is empty; a normal targets response raises although it lists the target |
| Main.DroppedMembers | src/main.py:171-194 | the afternoon check raises exactly when a stored target that fell below the threshold has a morning RPC of 0; otherwise the drops are exactly the stored targets whose known current RPC is below the threshold, with their drop percentage |
| Main.DropPercentagePositive | src/main.py:193 | a target whose positive morning RPC has fallen has a positive drop percentage |
| Main.AllModeAfternoonSafe | src/main.py:63-194 | after an `all`-mode morning with a positive threshold the afternoon check cannot divide by zero |
| Main.AfternoonNotices | src/main.py:157-221 | the afternoon check sends one notice after the start notice; a drop alert lists at least one drop, sorted by decreasing drop percentage |
| Main.MissingMembers | src/main.py:239-242 | the missing variables are exactly the required ones that are unset or empty |
| Main.FindMissingVars | src/main.py:231-242 | the loop collects the missing required variables in order |
| Main.StartupOf | src/main.py:223-268 | the checks are scheduled exactly when every required variable is set, the threshold parses as a float and authentication succeeds; an exit for missing variables names exactly the unset ones |
| Main.BuildMorningMap | src/main.py:76-87 | the `all`-mode loop builds the morning map from an empty one |
| Main.FindNamed | src/main.py:104-136 | the named-mode loop stops at the first target with exactly that name and a known RPC |
| Main.RpcMonitor.constructor | src/main.py:33-34 | the morning map starts empty and no notice has been sent |
| Main.RpcMonitor.CheckMorningRpc | src/main.py:36-142 | the morning check sends its start notice and one more; a failed authentication, an empty `all`-mode result, a name not found and a named target below the threshold keep the map; a non-empty `all`-mode result replaces it; a named target at or above the threshold becomes its sole entry |
| Main.RpcMonitor.CheckAfternoonRpc | src/main.py:144-221 | the afternoon check never changes the morning map, so a later run alerts again, and sends its start notice with the map's size followed by the notices of the check |
| Main.DroppedPrefixRaises | src/main.py:174-194 | once a drop divides by zero, the whole check raises |

`EnvFile.DotEnv.UpdateEnvFile` also models the `update_env_file` of
src/api_format_tester.py:197-219, which is the same function as the one in
src/find_targets_exact.py:262-284.

## Left out

- Browser automation (Selenium) is not modelled, because it is UI and I/O. This covers login, navigation, date entry, the export button search, blob and XHR interception and screenshots: src/simple_export.py:71-1471 and src/csv_export.py:38-246. Each step's result is an input.
- HTTP requests are not modelled, because they are network I/O; their results are inputs. This covers the single-request methods of the two API clients: in src/ringba_api.py, `get_all_targets`, `get_target_details`, `get_target_counts`, `get_target_inbound_references`, `get_target_stats`, `get_target_groups`, `get_buyers`, `get_call_logs_simple` and `get_webhooks`; in src/ringba_direct_api.py, `get_call_logs`, `get_insights`, `get_targets`, `get_target_details`, `get_call_log_columns`, `get_tags`, `get_target_counts`, `get_raw_calllogs` and `get_targets_with_details`.
- The direct client's authentication-format detection is not modelled, because it is HTTP probing. This covers `__init__`, `_detect_working_format` and `test_auth` at src/ringba_direct_api.py:34-130. Whether authentication succeeded is an input.
- `get_all_targets_rpc_today` and `get_targets_above_threshold_today` in src/ringba_direct_api.py:1283-1320 are not modelled. They are thin wrappers around `get_ui_matching_rpc`, which is modelled.
- Slack delivery and message layout are not modelled: the `send_*` functions, the block texts and the colours. Notices are modelled as datatypes whose constructors carry the values the messages report. Of `format_target_for_slack`, only the tag selection is modelled.
- Pickle, JSON and `.env` reads and writes are not modelled as file operations. A stored file is an optional value or a class field.
- `DirectRpcMonitor.AfternoonCheck`: a baseline file that exists but fails to load (src/direct_rpc_monitor.py:250-253) is not told apart from a missing one; both alert and stop.
- Scheduling libraries, threads, timers and the Flask servers are not modelled, because they are framework and concurrency code. This covers `schedule_jobs` and `manual_run` in direct_rpc_monitor.py and slack_rpc_monitor.py; the scheduling loop of main.py at lines 270-308; the web service's `scheduler_thread` and endpoints; and `main`, `home` and `timeout_handler` in src/simple_export.py:2540-2669. The once-per-day decisions these drive are modelled with the current time as a parameter.
- `perform_test_run` of src/simple_export.py:2523-2539 is not modelled, because it only calls `export_csv`, which is modelled.
- `register_webhook` and the Flask `main` of src/webhook_example.py are not modelled, because they are an HTTP registration and a server.
- The reporting drivers of src/direct_rpc_monitor.py are not modelled, because they only print or post what they fetch: `immediate_rpc_test`, `historical_rpc_check`, `compare_rpc_methods`, `check_target_rpc`, `find_target_public_ids`, `export_call_logs_csv` and `resume_export_job`. `historical_rpc_check` repeats the threshold partition of `real_time_rpc_check`, which is modelled once.
- The related-account search of src/find_targets.py:138-229 is not modelled, because it only prints what the probes return.
- The generated test script of src/api_format_tester.py:221-312 is not modelled, because it is a text template.
- `get_datetime_window` and `get_datetime_yesterday` of src/test_historical.py are not modelled, because they are clock arithmetic. The same window is modelled once, in minutes, as `TestHistoricalCalllogs.DatetimeWindow`.
- Time zones, `datetime.now` and `strptime` validation are not modelled. Dates are strings given by the caller. Times are minutes or `HH:MM` strings. A date's validity is a boolean input.
- Real numbers replace IEEE floats, so rounding, `inf` and `nan` are not modelled. `float()` accepts an optional sign, digits and an optional fraction; exponents and underscores are not modelled. `int()` accepts an optional sign and digits.
- pandas type coercion, the `dtype == 'object'` test and the mean-length test are not modelled. They are opaque predicates over columns, `SimpleExport.TextLike` and `SimpleExport.Numeric`, and an unconvertible or NaN RPC cell is an absent value.
- SimpleExport.LowRpcTargetsMeaning: the RPC sort is stated as a stable sort. pandas `sort_values` does not promise an order for equal values, so the model fixes one.
- RingbaDirectApi.CompareRpc: the comparison is a map keyed by target id. The source's list follows Python set iteration order, which is not modelled.
- `get_bearer_token`, which src/get_token.py calls, does not exist in src/ringba_api.py. Its result (a token, or an exception) is an input.
- Some scripts call methods that `RingbaAPI` does not define: `authenticate`, `get_headers`, `BASE_URL`, and `get_all_targets(enabled_only=...)`. This happens in test_historical.py, test_historical_calllogs.py, webhook_example.py and list_targets.py. Only the decision logic around those calls is modelled, with their results as inputs.
- Console printing and logging are not modelled, except where an exception raised while printing changes what a script does.
- Interactive `input()` answers are inputs.
- EnvFile.UpdatedText, EnvFile.DotEnv.UpdateEnvFile, FindTargets.UpdateEnvFile, FindTargetsExact.EnvAfterRun, FindTargetsExact.FindTargetsExactMain and ApiFormatTester.ApiFormatTesterMain: these run the corrected `update_env_file` of "## Findings". On a `.env` whose last line lacks its newline, the program glues the new line onto it. Only `EnvFile.ReplaceOrAppend` and `EnvFile.UnterminatedLineMerges` model that.
- UpdateEnv.UpdateEnvMain: the warnings follow the corrected test `UpdateEnv.Warns`. For a key missing from the dict the program gives no warning, which `UpdateEnv.WarnsAsWritten` models.
- SimpleExport.Merge and SimpleExport.CompareWith: a frame is a map from target name to RPC, so a CSV that lists a target more than once keeps only its last row. The outer merge at src/simple_export.py:1913 pairs every repeat with every repeat, and the program then compares and reports each pair; those extra rows are not modelled.
- Values the data types cannot hold are not modelled. In each case below the program raises, or tells apart, something the model cannot represent:
  - `json.dump` writes a target without an id under the key `"null"`, so `TestHistorical.HistoricalTest.LoadMorningTargets` gives back exactly what was saved only for targets with an id;
  - a present `"name": null` gives None in `TestHistorical.TargetNameById` and `NameOrUnknown`, not `Unknown`;
  - in `TestHighRpc` and `ListTargets`, `enabled` is a boolean or absent; a truthy value that is not a boolean cannot be expressed;
  - a webhook `calls` or `revenue` sent as null raises a TypeError and gets a 500; `WebhookExample` holds numbers only;
  - in `RingbaDirectApi`, an insight whose `rpc` is None raises at src/ringba_direct_api.py:442; the modelled insight RPC is a number.
- Python's text-mode newline translation is not modelled, nor Unicode case mapping and whitespace in `lower()` and `strip()`. A file is read as its characters with `\n` as the only line end, so `EnvFile.ConcatReadLines` does not cover CR or CRLF files. `lower()` and `strip()` act on ASCII letters and ASCII whitespace.
- GetToken: the `str()` of a token value that is not a string is a parameter (`show`), since Python's rendering of JSON values is not modelled.
- WebService: each scheduler tick reads the clock once, as an input; `is_time_to_run` reads `datetime.now()` again for each window, so two windows checked across a minute boundary are not modelled.
- FindAccountidTargetid.AccountIdVariants: the references found in the API tokens (src/find_accountid_targetid.py:112-129) are added only after the merge, so they never reach the variant list and are not modelled.
- The random simulated drop of src/test_historical.py is an input.

## Findings

| source | as written | input that shows it | evidently intended | confidence | as-written member | corrected member |
|---|---|---|---|---|---|---|
| src/simple_export.py:1562-1604 | when the content scan finds a target column, `not target_col` is false in both tests and the `else` branch returns None; the RPC block at lines 1583-1604 does the same with a scanned RPC column | a CSV headed `Name`, `RPC` whose `Name` column holds text | keep the scanned column and go on to the RPC column | high; not executed | SimpleExport.ChooseColumnsAsWritten, SimpleExport.ScannedTargetDiscarded | SimpleExport.ChooseColumns, SimpleExport.ChooseColumnsTotal |
| src/simple_export.py:1889 | without stored results, the fallback calls `send_results_to_slack(..., run_label=...)`, which has no such parameter (line 2301), and raises a TypeError; the afternoon fallback at line 2129 does the same | a midday comparison run with no morning results stored | post the plain report | high; not executed | SimpleExport.MiddayOutcomeAsWritten, SimpleExport.AfternoonOutcomeAsWritten, SimpleExport.MissingBaselineRaises | SimpleExport.MiddayOutcome, SimpleExport.AfternoonOutcome, SimpleExport.CompareAlwaysReports |
| src/main.py:101 | `targets, _ = api.get_all_targets()` unpacks the response dict as a pair of its keys, so the loop walks the characters of a key and raises | `TARGET_NAME=Acme` with a response `{"targets": [...], "totalCount": 1}` | loop over the response's `targets` list | high; not executed | Main.NamedTargetsAsWritten, Main.NamedModeRaises | Main.NamedTargets, Main.RpcMonitor.CheckMorningRpc |
| src/web_service.py:45-50 | `perform_test_run` calls `export_csv` with keyword arguments it does not accept; the TypeError is caught and the run is reported failed | any startup test run | report the export's own result | high; not executed | WebService.TestRunAsWritten, WebService.TestRunAlwaysFails | WebService.TestRun |
| src/get_live_rpc.py:158-196 | the row is appended before the progress line; that line's `:.2f` raises on a null revenue, and the handler appends a second, zero row; the table's `:.2f` of the first row's revenue at line 195 then raises outside any handler, and `main` ends with a TypeError | counts `{"totalCalls": 0, "payout": null}` | one row per enabled target | medium; not executed | GetLiveRpc.AppendedRowsAsWritten, GetLiveRpc.NullPayoutAppendsTwice, GetLiveRpc.NullPayoutCrashes, GetLiveRpc.LiveRpcReport | GetLiveRpc.ProcessTarget, GetLiveRpc.RpcDataOnce |
| src/find_targets_exact.py:272-284 | the new `KEY=value` line is appended after a last line that lacks its newline, so the two lines merge | a `.env` holding `A=1` with no final newline, updated with key `B` | the new setting on its own line | medium; not executed | EnvFile.ReplaceOrAppend, EnvFile.UnterminatedLineMerges | EnvFile.UpdateLines, EnvFile.UpdateLinesProps, EnvFile.UpdatedText, EnvFile.UpdatedTextSetsKey, EnvFile.DotEnv.UpdateEnvFile, FindTargets.UpdateEnvFile, FindTargets.UpdatedAccountId, FindTargetsExact.EnvAfterRun, FindTargetsExact.FindTargetsExactMain, ApiFormatTester.ApiFormatTesterMain |
| src/update_env.py:81-87 | `env_vars.get(key) in [placeholder, "Not set", ""]` is false for a missing key, whose value is None | no `.env`, an empty account answer and a typed token | warn about the missing account ID, as the `Not set` display suggests | medium; not executed | UpdateEnv.WarnsAsWritten, UpdateEnv.AbsentAccountNotWarned | UpdateEnv.Warns, UpdateEnv.WarnsAgreesWhenSet, UpdateEnv.UpdateEnvMain |
