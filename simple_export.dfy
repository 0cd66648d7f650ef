/**
 * The browser-export variant: pick the run label from the Eastern clock,
 * download the call-log CSV with up to three attempts, choose the target and
 * RPC columns, keep the rows below the threshold, post them to Slack in
 * chunks of twenty, and (as standalone operations) compare a run with the
 * results stored by an earlier run of the same day.
 */
module SimpleExport {
  import opened Common

  // ------------------------------------------------------------ time windows

  function AbsInt(x: int): nat
  {
    if x < 0 then -x else x
  }

  /**
   * `h, m = map(int, s.split(':'))` followed by `h * 60 + m`; None wherever
   * that raises (not exactly two fields, or a field `int()` rejects).
   */
  function ParseClock(s: string): Option<int>
  {
    var parts := Split(s, ':');
    if |parts| != 2 then None
    else match (PyInt(parts[0]), PyInt(parts[1]))
      case (Some(h), Some(m)) => Some(h * 60 + m)
      case _ => None
  }

  const DefaultWindow: int := 30

  /** `check_time_range`: both clocks parse and lie at most `window` minutes apart. */
  predicate CheckTimeRange(current: string, target: string, window: int)
  {
    match (ParseClock(current), ParseClock(target))
    case (Some(a), Some(b)) => AbsInt(a - b) <= window
    case _ => false
  }

  /** A `'%H:%M'` clock reads back as its minute of the day. */
  lemma ParseClockHhmm(m: nat)
    requires m < 1440
    ensures ParseClock(Hhmm(m)) == Some(m)
  {
    var h, mm := m / 60, m % 60;
    assert h * 60 + mm == m && h < 24 && mm < 60;
    SplitHhmm(m);
    Pad2Value(h);
    Pad2Value(mm);
    ParseClockFields(Hhmm(m), Pad2(h), Pad2(mm), h, mm, m);
  }

  lemma ParseClockFields(s: string, a: string, b: string, h: int, m: int, total: int)
    requires Split(s, ':') == [a, b] && PyInt(a) == Some(h) && PyInt(b) == Some(m)
    requires total == h * 60 + m
    ensures ParseClock(s) == Some(total)
  {
    var parts := Split(s, ':');
    assert |parts| == 2 && parts[0] == a && parts[1] == b;
  }

  /** The window test does not depend on which clock is the current one. */
  lemma CheckTimeRangeSymmetric(a: string, b: string, window: int)
    ensures CheckTimeRange(a, b, window) == CheckTimeRange(b, a, window)
  {
  }

  /** A clock that does not parse is never in any window. */
  lemma CheckTimeRangeMalformed(current: string, target: string, window: int)
    requires ParseClock(current).None? || ParseClock(target).None?
    ensures !CheckTimeRange(current, target, window)
  {
  }

  /** On well-formed clocks the test is a plain distance in minutes: no wrap at midnight. */
  lemma {:induction false} CheckTimeRangeMinutes(a: nat, b: nat, window: int)
    requires a < 1440 && b < 1440
    ensures CheckTimeRange(Hhmm(a), Hhmm(b), window) <==> AbsInt(a - b) <= window
  {
    ParseClockHhmm(a);
    ParseClockHhmm(b);
  }

  /** `23:50` is not within 30 minutes of `00:10`, although the clock only wraps by 20. */
  lemma NoMidnightWrap()
    ensures Hhmm(1430) == "23:50" && Hhmm(10) == "00:10"
    ensures !CheckTimeRange(Hhmm(1430), Hhmm(10), DefaultWindow)
  {
    CheckTimeRangeMinutes(1430, 10, DefaultWindow);
  }

  // --------------------------------------------------------------- run label

  datatype RunType = Morning | Midday | Afternoon | Manual

  function RunTypeName(t: RunType): string
  {
    match t
    case Morning => "Morning"
    case Midday => "Midday"
    case Afternoon => "Afternoon"
    case Manual => "Manual"
  }

  const MorningCheckTime: string := "11:00"
  const MiddayCheckTime: string := "14:00"
  const AfternoonCheckTime: string := "16:30"

  /** The first window that holds the current clock, in the order morning, midday, afternoon. */
  function RunTypeAt(now: string, morning: string, midday: string, afternoon: string): RunType
  {
    if CheckTimeRange(now, morning, DefaultWindow) then Morning
    else if CheckTimeRange(now, midday, DefaultWindow) then Midday
    else if CheckTimeRange(now, afternoon, DefaultWindow) then Afternoon
    else Manual
  }

  /** With the default check times, the label depends on the minute of the day as follows. */
  lemma DefaultRunType(m: nat)
    requires m < 1440
    ensures RunTypeAt(Hhmm(m), MorningCheckTime, MiddayCheckTime, AfternoonCheckTime) ==
      if 630 <= m <= 690 then Morning
      else if 810 <= m <= 870 then Midday
      else if 960 <= m <= 1020 then Afternoon
      else Manual
  {
    assert Hhmm(660) == MorningCheckTime;
    assert Hhmm(840) == MiddayCheckTime;
    assert Hhmm(990) == AfternoonCheckTime;
    CheckTimeRangeMinutes(m, 660, DefaultWindow);
    CheckTimeRangeMinutes(m, 840, DefaultWindow);
    CheckTimeRangeMinutes(m, 990, DefaultWindow);
  }

  // ------------------------------------------------------------- export retry

  /** `if csv_file_path:` accepts a present, non-empty path. */
  predicate GotPath(p: Option<string>)
  {
    p.Some? && p.value != ""
  }

  /** What `click_export_csv` returns on attempt `k` (0-based); attempts past the list fail. */
  function Click(outcomes: seq<Option<string>>, k: nat): Option<string>
  {
    if k < |outcomes| then outcomes[k] else None
  }

  const MaxRetries: nat := 3

  /**
   * The retry loop after at most `n` attempts: the last value returned by the
   * export and the number of attempts made. It stops at the first usable path.
   */
  function Retry(outcomes: seq<Option<string>>, n: nat): (r: (Option<string>, nat))
    ensures r.1 <= n
    ensures GotPath(r.0) ==> 1 <= r.1 && r.0 == Click(outcomes, r.1 - 1)
    ensures forall k :: 0 <= k < r.1 - 1 ==> !GotPath(Click(outcomes, k))
    ensures !GotPath(r.0) ==> r.1 == n && forall k :: 0 <= k < n ==> !GotPath(Click(outcomes, k))
  {
    if n == 0 then (None, 0)
    else
      var prev := Retry(outcomes, n - 1);
      if GotPath(prev.0) then prev else (Click(outcomes, n - 1), n)
  }

  /** Once a path is found, further allowed attempts change nothing. */
  lemma {:induction false} RetryStable(outcomes: seq<Option<string>>, n: nat, m: nat)
    requires n <= m && GotPath(Retry(outcomes, n).0)
    ensures Retry(outcomes, m) == Retry(outcomes, n)
    decreases m
  {
    if m > n {
      RetryStable(outcomes, n, m - 1);
    }
  }

  /** The `for attempt in range(max_retries)` loop of `export_csv`. */
  method ExportAttempts(outcomes: seq<Option<string>>) returns (path: Option<string>, attempts: nat)
    ensures (path, attempts) == Retry(outcomes, MaxRetries)
  {
    path, attempts := None, 0;
    var attempt: nat := 0;
    while attempt < MaxRetries
      invariant attempt <= MaxRetries
      invariant (path, attempts) == Retry(outcomes, attempt)
      invariant !GotPath(path)
    {
      path := Click(outcomes, attempt);
      attempts := attempt + 1;
      if GotPath(path) {
        assert Retry(outcomes, attempt + 1) == (path, attempts);
        RetryStable(outcomes, attempt + 1, MaxRetries);
        break;
      }
      attempt := attempt + 1;
    }
  }

  /** Python truthiness of the webhook URL read from the environment. */
  predicate WebhookSet(webhook: Option<string>)
  {
    webhook.Some? && webhook.value != ""
  }

  datatype Notice = NoNotice | FailureNotice(runType: RunType) | NoTargetsNotice(runType: RunType)

  /** What one `export_csv` run returns and leaves behind. */
  datatype ExportRun = ExportRun(
    result: bool,
    browserQuit: bool,
    attempts: nat,
    notice: Notice,
    report: Option<LowRpcResult>)

  /**
   * `export_csv` after the run label is fixed. The browser, login and
   * navigation steps, the export clicks, the CSV processing and the Slack post
   * are inputs; `reportSent` is what `send_to_slack` returns.
   */
  function ExportCsvRun(
    runType: RunType, browserUp: bool, loggedIn: bool, navigated: bool,
    outcomes: seq<Option<string>>, process: string -> Option<LowRpcResult>,
    webhook: Option<string>, reportSent: LowRpcResult -> bool): (r: ExportRun)
    ensures r.browserQuit == browserUp
    ensures r.attempts <= MaxRetries
    ensures r.attempts > 0 <==> browserUp && loggedIn && navigated
    ensures !(browserUp && loggedIn && navigated) ==> !r.result && r.notice == NoNotice && r.report == None
    ensures r.notice.FailureNotice? ==>
      !r.result && r.attempts == MaxRetries && forall k :: 0 <= k < MaxRetries ==> !GotPath(Click(outcomes, k))
    ensures r.notice != NoNotice ==> WebhookSet(webhook) && r.notice.runType == runType
    ensures r.report.Some? ==> r.result == reportSent(r.report.value)
  {
    if !browserUp then ExportRun(false, false, 0, NoNotice, None)
    else if !loggedIn || !navigated then ExportRun(false, true, 0, NoNotice, None)
    else
      var (path, n) := Retry(outcomes, MaxRetries);
      if !GotPath(path) then
        ExportRun(false, true, n, if WebhookSet(webhook) then FailureNotice(runType) else NoNotice, None)
      else
        match process(path.value)
        case None =>
          ExportRun(true, true, n, if WebhookSet(webhook) then NoTargetsNotice(runType) else NoNotice, None)
        case Some(low) =>
          ExportRun(reportSent(low), true, n, NoNotice, Some(low))
  }

  /** `export_csv` step by step; the `finally` clause quits the browser once it exists. */
  method ExportCsv(
    now: string, morning: string, midday: string, afternoon: string,
    browserUp: bool, loggedIn: bool, navigated: bool,
    outcomes: seq<Option<string>>, process: string -> Option<LowRpcResult>,
    webhook: Option<string>, reportSent: LowRpcResult -> bool)
    returns (run: ExportRun)
    ensures run == ExportCsvRun(RunTypeAt(now, morning, midday, afternoon), browserUp, loggedIn,
                                navigated, outcomes, process, webhook, reportSent)
  {
    var runType := RunTypeAt(now, morning, midday, afternoon);
    if !browserUp {
      return ExportRun(false, false, 0, NoNotice, None);
    }
    var result: bool;
    var notice := NoNotice;
    var report: Option<LowRpcResult> := None;
    var attempts: nat := 0;
    if !loggedIn || !navigated {
      result := false;
    } else {
      var path;
      path, attempts := ExportAttempts(outcomes);
      if !GotPath(path) {
        if WebhookSet(webhook) {
          notice := FailureNotice(runType);
        }
        result := false;
      } else {
        var low := process(path.value);
        if low.None? {
          if WebhookSet(webhook) {
            notice := NoTargetsNotice(runType);
          }
          result := true;
        } else {
          report := low;
          result := reportSent(low.value);
        }
      }
    }
    run := ExportRun(result, true, attempts, notice, report);
  }

  // --------------------------------------------------------- column choice

  /**
   * A CSV column as `process_csv_file` inspects it: its header and four facts
   * about its cells (some cell contains `$`; some lower-cased cell contains
   * `target`, `live`, `completed` or `ivr`; it has object dtype with mean cell
   * length above 3; some cell converts under `pd.to_numeric`).
   */
  datatype Column = Column(name: string, hasDollar: bool, targetLike: bool, textLike: bool, numeric: bool)

  function Names(cols: seq<Column>): (r: seq<string>)
    ensures |r| == |cols| && forall i :: 0 <= i < |cols| ==> r[i] == cols[i].name
  {
    seq(|cols|, i requires 0 <= i < |cols| => cols[i].name)
  }

  const TargetCandidates: seq<string> := ["Target", "Target Name", "TargetName", "Campaign", "Target Campaign"]
  const RpcCandidates: seq<string> :=
    ["RPC", "Avg. Revenue per Call", "Revenue Per Call", "Revenue per Call", "RPCall", "Revenue"]

  /** The first candidate, in candidate order, that is a header. */
  function FirstPresent(cands: seq<string>, names: seq<string>): (r: Option<string>)
    ensures r.Some? ==> r.value in names
    ensures r.Some? ==>
      exists i :: 0 <= i < |cands| && cands[i] == r.value && forall j :: 0 <= j < i ==> cands[j] !in names
    ensures r.None? <==> forall c :: c in cands ==> c !in names
  {
    var i := FirstIndex(cands, (c: string) => c in names);
    if i < |cands| then Some(cands[i]) else None
  }

  /** The first column, in header order, satisfying `p`. */
  function FirstCol(cols: seq<Column>, p: Column -> bool): (r: Option<string>)
    ensures r.Some? ==>
      exists i :: 0 <= i < |cols| && cols[i].name == r.value && p(cols[i]) && forall j :: 0 <= j < i ==> !p(cols[j])
    ensures r.None? <==> forall i :: 0 <= i < |cols| ==> !p(cols[i])
  {
    var i := FirstIndex(cols, p);
    if i < |cols| then Some(cols[i].name) else None
  }

  predicate NameHasTarget(c: Column)
  {
    Contains(Lower(c.name), "target")
  }

  predicate HasDollar(c: Column)
  {
    c.hasDollar
  }

  predicate TargetLike(c: Column)
  {
    c.targetLike
  }

  predicate TextLike(c: Column)
  {
    c.textLike
  }

  predicate Numeric(c: Column)
  {
    c.numeric
  }

  /** Some header follows the `Column1`, `Column2`, ... naming of a direct table extraction. */
  predicate ColumnLayout(cols: seq<Column>)
  {
    exists i :: 0 <= i < |cols| && StartsWith(cols[i].name, "Column")
  }

  /** The choice made before the last-resort blocks: header names, `$` cells, then the `Column<n>` layout. */
  datatype Picked = Picked(target: Option<string>, rpc: Option<string>)

  /** The target chosen from the header names: an exact candidate, else the first header mentioning `target`. */
  function HeaderTarget(cols: seq<Column>): (r: Option<string>)
    ensures r.Some? ==> r.value in Names(cols)
  {
    var t0 := FirstPresent(TargetCandidates, Names(cols));
    if t0.Some? then t0 else FirstCol(cols, NameHasTarget)
  }

  /** The RPC column chosen from the header names, else the first column with `$` cells. */
  function HeaderRpc(cols: seq<Column>): (r: Option<string>)
    ensures r.Some? ==> r.value in Names(cols)
  {
    var r0 := FirstPresent(RpcCandidates, Names(cols));
    if r0.Some? then r0 else FirstCol(cols, HasDollar)
  }

  function NamedPicks(cols: seq<Column>): (r: Picked)
    ensures r.target.Some? ==> r.target.value in Names(cols)
    ensures r.rpc.Some? ==> r.rpc.value in Names(cols)
    ensures HeaderTarget(cols).Some? ==> r.target == HeaderTarget(cols)
    ensures HeaderRpc(cols).Some? ==> r.rpc == HeaderRpc(cols)
  {
    var names := Names(cols);
    var t1 := HeaderTarget(cols);
    var r1 := HeaderRpc(cols);
    if t1.None? && ColumnLayout(cols) then
      var t2 := FirstCol(cols, TargetLike);
      var t3 := if t2.None? && "Column3" in names then Some("Column3") else t2;
      var r2 := if r1.None? then FirstCol(cols, HasDollar) else r1;
      var r3 := if r2.None? && "Column10" in names then Some("Column10") else r2;
      Picked(t3, r3)
    else
      Picked(t1, r1)
  }

  /** The target last-resort block as written: a column found by the content scan falls into `else: return None`. */
  function LastResortTargetAsWritten(cols: seq<Column>): Option<string>
  {
    var scan := FirstCol(cols, TextLike);
    if scan.None? && |cols| >= 3 then Some(cols[2].name)
    else if scan.None? && |cols| > 0 then Some(cols[0].name)
    else None
  }

  /** The RPC last-resort block as written, with the same fall-through. */
  function LastResortRpcAsWritten(cols: seq<Column>): Option<string>
  {
    var scan := FirstCol(cols, Numeric);
    if scan.None? && |cols| >= 10 then Some(cols[9].name)
    else if scan.None? && |cols| > 1 then Some(cols[1].name)
    else None
  }

  /** Column choice of `process_csv_file` exactly as written; None means "return None". */
  function ChooseColumnsAsWritten(cols: seq<Column>): Option<(string, string)>
  {
    var p := NamedPicks(cols);
    var t := if p.target.Some? then p.target else LastResortTargetAsWritten(cols);
    var r := if p.rpc.Some? then p.rpc else LastResortRpcAsWritten(cols);
    if t.None? || r.None? then None else Some((t.value, r.value))
  }

  /** The target last resort as intended: keep the scanned column, else fall back by position. */
  function LastResortTarget(cols: seq<Column>): (r: Option<string>)
    ensures r.Some? <==> |cols| > 0
    ensures r.Some? ==> r.value in Names(cols)
  {
    var scan := FirstCol(cols, TextLike);
    if scan.Some? then scan
    else if |cols| >= 3 then Some(cols[2].name)
    else if |cols| > 0 then Some(cols[0].name)
    else None
  }

  function LastResortRpc(cols: seq<Column>): (r: Option<string>)
    ensures |cols| > 1 ==> r.Some?
    ensures r.Some? ==> r.value in Names(cols)
  {
    var scan := FirstCol(cols, Numeric);
    if scan.Some? then scan
    else if |cols| >= 10 then Some(cols[9].name)
    else if |cols| > 1 then Some(cols[1].name)
    else None
  }

  function ChooseTarget(cols: seq<Column>): Option<string>
  {
    var p := NamedPicks(cols);
    if p.target.Some? then p.target else LastResortTarget(cols)
  }

  function ChooseRpc(cols: seq<Column>): Option<string>
  {
    var p := NamedPicks(cols);
    if p.rpc.Some? then p.rpc else LastResortRpc(cols)
  }

  /** The column choice the rest of this model uses. */
  function ChooseColumns(cols: seq<Column>): Option<(string, string)>
  {
    var t := ChooseTarget(cols);
    var r := ChooseRpc(cols);
    if t.None? || r.None? then None else Some((t.value, r.value))
  }

  /** The intended choice always names two real headers, and succeeds on any table with two columns. */
  lemma ChooseColumnsTotal(cols: seq<Column>)
    ensures |cols| > 0 ==> ChooseTarget(cols).Some?
    ensures |cols| > 1 ==> ChooseColumns(cols).Some?
    ensures ChooseColumns(cols).Some? ==>
      ChooseColumns(cols).value.0 in Names(cols) && ChooseColumns(cols).value.1 in Names(cols)
  {
  }

  /** Whatever the layout, a header from the exact target list wins, and the earliest listed one. */
  lemma TargetPrefersCandidates(cols: seq<Column>, i: nat)
    requires i < |TargetCandidates| && TargetCandidates[i] in Names(cols)
    ensures exists j ::
              0 <= j <= i && ChooseTarget(cols) == Some(TargetCandidates[j]) &&
              forall k :: 0 <= k < j ==> TargetCandidates[k] !in Names(cols)
  {
    var t := FirstPresent(TargetCandidates, Names(cols));
    assert t.Some?;
    var j :| 0 <= j < |TargetCandidates| && TargetCandidates[j] == t.value &&
      forall k :: 0 <= k < j ==> TargetCandidates[k] !in Names(cols);
    assert j <= i;
  }

  /** With no exact target header, the first header mentioning `target` in any case is used. */
  lemma TargetByHeaderWord(cols: seq<Column>, i: nat)
    requires forall c :: c in TargetCandidates ==> c !in Names(cols)
    requires i < |cols| && NameHasTarget(cols[i])
    ensures exists j ::
              0 <= j <= i && ChooseTarget(cols) == Some(cols[j].name) && NameHasTarget(cols[j]) &&
              forall k :: 0 <= k < j ==> !NameHasTarget(cols[k])
  {
    assert FirstPresent(TargetCandidates, Names(cols)).None?;
    var j := FirstIndex(cols, NameHasTarget);
    assert j <= i;
    assert HeaderTarget(cols) == Some(cols[j].name);
  }

  /** `Revenue` is the last RPC candidate: it is used only when no other RPC header exists. */
  lemma RevenueIsLastResortName(cols: seq<Column>)
    requires "Revenue" in Names(cols)
    requires ChooseRpc(cols) == Some("Revenue")
    ensures forall k :: 0 <= k < |RpcCandidates| - 1 ==> RpcCandidates[k] !in Names(cols)
  {
    var r := FirstPresent(RpcCandidates, Names(cols));
    assert r.Some?;
    var j :| 0 <= j < |RpcCandidates| && RpcCandidates[j] == r.value &&
      forall k :: 0 <= k < j ==> RpcCandidates[k] !in Names(cols);
    assert r.value == "Revenue";
    assert j == |RpcCandidates| - 1;
  }

  /** A two-column table with a text column and a numeric `RPC` column, no header naming a target. */
  const UnnamedTable: seq<Column> :=
    [Column("Name", false, false, true, false), Column("RPC", false, false, false, true)]

  lemma UnnamedTableHeaders()
    ensures Names(UnnamedTable) == ["Name", "RPC"]
    ensures !ColumnLayout(UnnamedTable)
    ensures FirstCol(UnnamedTable, NameHasTarget) == None
  {
    var cols := UnnamedTable;
    ContainsTooLong(Lower("Name"), "target");
    ContainsTooLong(Lower("RPC"), "target");
    assert !NameHasTarget(cols[0]) && !NameHasTarget(cols[1]);
    assert !StartsWith(cols[0].name, "Column") && !StartsWith(cols[1].name, "Column");
  }

  lemma UnnamedTableCandidates()
    ensures FirstPresent(TargetCandidates, ["Name", "RPC"]) == None
    ensures FirstPresent(RpcCandidates, ["Name", "RPC"]) == Some("RPC")
  {
    var names := ["Name", "RPC"];
    assert forall c :: c in TargetCandidates ==> c !in names;
    var r := FirstPresent(RpcCandidates, names);
    assert RpcCandidates[0] in names;
    var j :| 0 <= j < |RpcCandidates| && RpcCandidates[j] == r.value &&
      forall k :: 0 <= k < j ==> RpcCandidates[k] !in names;
    assert j == 0;
  }

  lemma UnnamedTablePicks()
    ensures NamedPicks(UnnamedTable) == Picked(None, Some("RPC"))
  {
    UnnamedTableHeaders();
    UnnamedTableCandidates();
  }

  /**
   * On that table the target scan finds the text column, and the code as
   * written then returns None; the intended choice keeps the scanned column.
   */
  lemma ScannedTargetDiscarded()
    ensures ChooseColumnsAsWritten(UnnamedTable) == None
    ensures ChooseColumns(UnnamedTable) == Some(("Name", "RPC"))
  {
    UnnamedTablePicks();
    assert TextLike(UnnamedTable[0]);
    assert FirstCol(UnnamedTable, TextLike) == Some("Name");
  }

  // ------------------------------------------------------------ low RPC rows

  /** One CSV row as read through the chosen columns: RPC None where it is NaN or does not convert. */
  datatype Row = Row(target: string, rpc: Option<real>)

  /** What `process_csv_file` returns: the low rows (target, RPC) and the columns used. */
  datatype LowRpcResult = LowRpcResult(targets: seq<(string, real)>, targetCol: string, rpcCol: string, threshold: real)

  const DefaultThreshold: real := 12.0

  /** `df[df[rpc_col] < rpc_threshold]`, in file order; NaN never compares below. */
  function LowRows(rows: seq<Row>, threshold: real): (r: seq<(string, real)>)
    ensures |r| <= |rows|
  {
    if |rows| == 0 then []
    else
      var rest := LowRows(rows[..|rows| - 1], threshold);
      var row := rows[|rows| - 1];
      if row.rpc.Some? && row.rpc.value < threshold then rest + [(row.target, row.rpc.value)] else rest
  }

  lemma {:induction false} LowRowsMembers(rows: seq<Row>, threshold: real)
    ensures forall x :: x in LowRows(rows, threshold) <==>
      x.1 < threshold && exists i :: 0 <= i < |rows| && rows[i] == Row(x.0, Some(x.1))
  {
    if |rows| > 0 {
      var init := rows[..|rows| - 1];
      LowRowsMembers(init, threshold);
      forall x ensures x in LowRows(rows, threshold) <==>
        x.1 < threshold && exists i :: 0 <= i < |rows| && rows[i] == Row(x.0, Some(x.1))
      {
        if x.1 < threshold && exists i :: 0 <= i < |rows| && rows[i] == Row(x.0, Some(x.1)) {
          var i :| 0 <= i < |rows| && rows[i] == Row(x.0, Some(x.1));
          if i < |rows| - 1 {
            assert init[i] == rows[i];
          }
        }
        if x in LowRows(init, threshold) {
          var i :| 0 <= i < |init| && init[i] == Row(x.0, Some(x.1));
          assert rows[i] == init[i];
        }
      }
    }
  }

  function RpcKey(x: (string, real)): real
  {
    x.1
  }

  /** The low rows sorted by ascending RPC. */
  function LowRpcTargets(rows: seq<Row>, threshold: real): seq<(string, real)>
  {
    SortBy(LowRows(rows, threshold), RpcKey)
  }

  /** The result holds exactly the rows strictly below the threshold, each once per row, in ascending RPC. */
  lemma LowRpcTargetsMeaning(rows: seq<Row>, threshold: real)
    ensures SortedBy(LowRpcTargets(rows, threshold), RpcKey)
    ensures multiset(LowRpcTargets(rows, threshold)) == multiset(LowRows(rows, threshold))
    ensures forall x :: x in LowRpcTargets(rows, threshold) <==>
      x.1 < threshold && exists i :: 0 <= i < |rows| && rows[i] == Row(x.0, Some(x.1))
  {
    SortByLength(LowRows(rows, threshold), RpcKey);
    LowRowsMembers(rows, threshold);
    forall x ensures x in LowRpcTargets(rows, threshold) <==> x in LowRows(rows, threshold) {
      assert x in LowRpcTargets(rows, threshold) <==> x in multiset(LowRpcTargets(rows, threshold));
    }
  }

  /**
   * `process_csv_file`: None when the path is missing or not a file, when no
   * columns can be chosen, or when no row is below the threshold. `read`
   * gives the rows through the chosen target and RPC columns.
   */
  function ProcessCsvFile(
    path: Option<string>, fileExists: bool, cols: seq<Column>,
    read: (string, string) -> seq<Row>, threshold: real): Option<LowRpcResult>
  {
    if !GotPath(path) || !fileExists then None
    else match ChooseColumns(cols)
      case None => None
      case Some((t, r)) =>
        var low := LowRpcTargets(read(t, r), threshold);
        if |low| == 0 then None else Some(LowRpcResult(low, t, r, threshold))
  }

  lemma ProcessCsvFileMeaning(
    path: Option<string>, fileExists: bool, cols: seq<Column>,
    read: (string, string) -> seq<Row>, threshold: real)
    ensures !GotPath(path) || !fileExists ==> ProcessCsvFile(path, fileExists, cols, read, threshold).None?
    ensures var res := ProcessCsvFile(path, fileExists, cols, read, threshold);
      res.Some? ==>
        ChooseColumns(cols) == Some((res.value.targetCol, res.value.rpcCol)) &&
        res.value.threshold == threshold && |res.value.targets| > 0 &&
        SortedBy(res.value.targets, RpcKey) &&
        forall k :: 0 <= k < |res.value.targets| ==> res.value.targets[k].1 < threshold
  {
    var res := ProcessCsvFile(path, fileExists, cols, read, threshold);
    if res.Some? {
      var rows := read(res.value.targetCol, res.value.rpcCol);
      LowRpcTargetsMeaning(rows, threshold);
      assert res.value.targets == LowRpcTargets(rows, threshold);
      forall k | 0 <= k < |res.value.targets| ensures res.value.targets[k].1 < threshold {
        assert res.value.targets[k] in LowRpcTargets(rows, threshold);
      }
    }
  }

  // ------------------------------------------------------------------- Slack

  datatype Block = Header(text: string) | Section(text: string) | Divider

  function Flatten(chunks: seq<seq<string>>): seq<string>
  {
    if |chunks| == 0 then [] else Flatten(chunks[..|chunks| - 1]) + chunks[|chunks| - 1]
  }

  const ChunkSize: nat := 20

  function Min(a: int, b: int): int
  {
    if a <= b then a else b
  }

  /** `for i in range(0, len(lines), 20): lines[i:i+20]`. */
  method ChunkLines(lines: seq<string>) returns (chunks: seq<seq<string>>)
    ensures Flatten(chunks) == lines
    ensures forall k :: 0 <= k < |chunks| ==> 1 <= |chunks[k]| <= ChunkSize
    ensures forall k :: 0 <= k < |chunks| - 1 ==> |chunks[k]| == ChunkSize
    ensures |chunks| == (|lines| + ChunkSize - 1) / ChunkSize
  {
    chunks := [];
    var i := 0;
    while i < |lines|
      invariant i == ChunkSize * |chunks|
      invariant i < |lines| + ChunkSize
      invariant Flatten(chunks) == lines[..Min(i, |lines|)]
      invariant forall k :: 0 <= k < |chunks| ==> 1 <= |chunks[k]| <= ChunkSize
      invariant i <= |lines| ==> forall k :: 0 <= k < |chunks| ==> |chunks[k]| == ChunkSize
      invariant forall k :: 0 <= k < |chunks| - 1 ==> |chunks[k]| == ChunkSize
    {
      var end := Min(i + ChunkSize, |lines|);
      var chunk := lines[i..end];
      assert (chunks + [chunk])[..|chunks|] == chunks;
      assert Flatten(chunks + [chunk]) == Flatten(chunks) + chunk;
      assert lines[..end] == lines[..i] + chunk;
      chunks := chunks + [chunk];
      i := i + ChunkSize;
    }
    assert lines[..Min(i, |lines|)] == lines;
    ChunkCount(|lines|, |chunks|);
  }

  /** A scan in steps of 20 that stops at the first step not below `n` has taken `ceil(n / 20)` steps. */
  lemma ChunkCount(n: nat, c: nat)
    requires n <= ChunkSize * c < n + ChunkSize
    ensures c == (n + ChunkSize - 1) / ChunkSize
  {
    var q := (n + ChunkSize - 1) / ChunkSize;
    var r := (n + ChunkSize - 1) % ChunkSize;
    assert n + ChunkSize - 1 == ChunkSize * q + r && 0 <= r < ChunkSize;
  }

  /** One bullet line per low target; `money` is the `:.2f` rendering. */
  function TargetLines(targets: seq<(string, real)>, money: real -> string): (r: seq<string>)
    ensures |r| == |targets|
  {
    seq(|targets|, k requires 0 <= k < |targets| => "• *" + targets[k].0 + "*: $" + money(targets[k].1))
  }

  function ChunkSections(chunks: seq<seq<string>>): (r: seq<Block>)
    ensures |r| == |chunks|
  {
    seq(|chunks|, k requires 0 <= k < |chunks| => Section(Join(chunks[k], '\n')))
  }

  /** The report payload: header, count line, divider, then one section per chunk. */
  function ReportBlocks(runType: RunType, thresholdText: string, count: nat, chunks: seq<seq<string>>): seq<Block>
  {
    [Header(RunTypeName(runType) + " Report: Targets Below $" + thresholdText + " RPC"),
     Section("*" + NatToString(count) + " targets* found below the RPC threshold"),
     Divider] + ChunkSections(chunks)
  }

  /**
   * `send_to_slack`: nothing is posted without targets or a webhook; otherwise
   * the payload carries every target line, in order, in chunks of at most 20.
   * `show` is Python's `str` of the threshold and `posted` the HTTP outcome.
   */
  method SendToSlack(
    data: Option<LowRpcResult>, runType: RunType, webhook: Option<string>, posted: bool,
    show: real -> string, money: real -> string)
    returns (ok: bool, payload: Option<seq<Block>>, chunks: seq<seq<string>>)
    ensures payload.None? <==> data.None? || data.value.targets == [] || !WebhookSet(webhook)
    ensures ok <==> payload.Some? && posted
    ensures payload.Some? ==>
      payload.value == ReportBlocks(runType, show(data.value.threshold), |data.value.targets|, chunks) &&
      Flatten(chunks) == TargetLines(data.value.targets, money) &&
      |payload.value| == 3 + (|data.value.targets| + ChunkSize - 1) / ChunkSize &&
      forall k :: 0 <= k < |chunks| ==> 1 <= |chunks[k]| <= ChunkSize
  {
    chunks := [];
    if data.None? || data.value.targets == [] || !WebhookSet(webhook) {
      return false, None, chunks;
    }
    var low := data.value;
    var lines := TargetLines(low.targets, money);
    chunks := ChunkLines(lines);
    payload := Some(ReportBlocks(runType, show(low.threshold), |low.targets|, chunks));
    ok := posted;
  }

  // --------------------------------------------------------- stored results

  /** A stored frame: its column headers and the RPC of each target it lists. */
  datatype Frame = Frame(columns: set<string>, rpcs: map<string, real>)

  datatype Saved = Saved(frame: Frame, targetCol: string, rpcCol: string)

  /**
   * A results file: the keys it holds, the date of its timestamp (None when
   * the timestamp is missing or not in ISO format) and its content.
   */
  datatype SavedFile = SavedFile(keys: set<string>, timestampDate: Option<string>, content: Saved)

  const RequiredKeys: set<string> := {"targets_df", "target_col", "rpc_col"}

  /** `save_*_results` on day `today`. */
  function SaveFile(s: Saved, today: string): SavedFile
  {
    SavedFile(RequiredKeys + {"timestamp"}, Some(today), s)
  }

  /** `load_*_results`: the content, unless the file is missing, incomplete or not from today. */
  function LoadResults(file: Option<SavedFile>, today: string): (r: Option<Saved>)
    ensures r.Some? <==> file.Some? && RequiredKeys <= file.value.keys && file.value.timestampDate == Some(today)
    ensures r.Some? ==> r.value == file.value.content
  {
    if file.None? then None
    else if !(RequiredKeys <= file.value.keys) then None
    else if file.value.timestampDate != Some(today) then None
    else Some(file.value.content)
  }

  /** Results saved today load back unchanged. */
  lemma LoadSaved(s: Saved, today: string)
    ensures LoadResults(Some(SaveFile(s, today)), today) == Some(s)
  {
  }

  /** Results saved on another day are ignored. */
  lemma LoadStale(s: Saved, day: string, today: string)
    requires day != today
    ensures LoadResults(Some(SaveFile(s, day)), today) == None
  {
  }

  // ---------------------------------------------------------- comparisons

  function RpcOrZero(m: map<string, real>, k: string): real
  {
    if k in m then m[k] else 0.0
  }

  /** The outer merge on the target name, with missing RPCs filled as 0. */
  datatype Merged = Merged(wentBelow: set<string>, currentBelow: set<string>)

  function Merge(previous: map<string, real>, current: map<string, real>, threshold: real): (r: Merged)
    ensures forall k :: k in r.wentBelow <==>
      (k in previous || k in current) && RpcOrZero(previous, k) >= threshold && RpcOrZero(current, k) < threshold
    ensures forall k :: k in r.currentBelow <==>
      (k in previous || k in current) && RpcOrZero(current, k) < threshold
  {
    var keys := previous.Keys + current.Keys;
    Merged(
      set k | k in keys && RpcOrZero(previous, k) >= threshold && RpcOrZero(current, k) < threshold,
      set k | k in keys && RpcOrZero(current, k) < threshold)
  }

  /** Every target that went below is currently below. */
  lemma WentBelowIsBelow(previous: map<string, real>, current: map<string, real>, threshold: real)
    ensures Merge(previous, current, threshold).wentBelow <= Merge(previous, current, threshold).currentBelow
  {
  }

  /** A baseline target at or above a positive threshold that is absent now counts as a drop. */
  lemma AbsentTargetDropped(previous: map<string, real>, current: map<string, real>, threshold: real, k: string)
    requires threshold > 0.0 && k in previous && previous[k] >= threshold && k !in current
    ensures k in Merge(previous, current, threshold).wentBelow
  {
  }

  /** A target absent from the baseline never counts as a drop under a positive threshold. */
  lemma NewTargetNotDropped(previous: map<string, real>, current: map<string, real>, threshold: real, k: string)
    requires threshold > 0.0 && k !in previous
    ensures k !in Merge(previous, current, threshold).wentBelow
  {
  }

  datatype BaselineRun = FromMorning | FromMidday

  /**
   * How a comparison ends: the plain report of the current run, a comparison
   * against a baseline run, or (as written) the `TypeError` the plain-report
   * call raises.
   */
  datatype CompareOutcome =
    | PlainReport
    | Compared(baseline: BaselineRun, merged: Merged)
    | FallbackRaises

  predicate HasColumns(s: Saved)
  {
    s.targetCol in s.frame.columns && s.rpcCol in s.frame.columns
  }

  /** Both frames must hold their target and RPC columns; otherwise the plain report is sent. */
  function CompareWith(baseline: Saved, which: BaselineRun, current: Saved, threshold: real): (r: CompareOutcome)
    ensures r.Compared? <==> HasColumns(current) && HasColumns(baseline)
    ensures r.Compared? ==> r.baseline == which
    ensures r.Compared? ==> r.merged == Merge(baseline.frame.rpcs, current.frame.rpcs, threshold)
    ensures !r.Compared? ==> r == PlainReport
  {
    if !HasColumns(current) || !HasColumns(baseline) then PlainReport
    else Compared(which, Merge(baseline.frame.rpcs, current.frame.rpcs, threshold))
  }

  /** `compare_and_send_midday_results` given the loaded morning results. */
  function MiddayOutcome(morning: Option<Saved>, current: Saved, threshold: real): CompareOutcome
  {
    if morning.None? then PlainReport else CompareWith(morning.value, FromMorning, current, threshold)
  }

  /** `compare_and_send_afternoon_results`: midday results first, then morning results. */
  function AfternoonOutcome(midday: Option<Saved>, morning: Option<Saved>, current: Saved, threshold: real): CompareOutcome
  {
    if midday.Some? then CompareWith(midday.value, FromMidday, current, threshold)
    else if morning.Some? then CompareWith(morning.value, FromMorning, current, threshold)
    else PlainReport
  }

  /** Usable midday results decide the afternoon baseline; morning results are the fallback only without them. */
  lemma AfternoonPrefersMidday(midday: Option<Saved>, morning: Option<Saved>, current: Saved, threshold: real)
    ensures var o := AfternoonOutcome(midday, morning, current, threshold);
      (o.Compared? && o.baseline == FromMorning ==> midday.None? && morning.Some?) &&
      (midday.Some? && HasColumns(midday.value) && HasColumns(current) ==>
        o == Compared(FromMidday, Merge(midday.value.frame.rpcs, current.frame.rpcs, threshold))) &&
      (midday.Some? && !HasColumns(midday.value) ==> o == PlainReport)
  {
  }

  /** In every comparison, the drops are among the targets reported below the threshold. */
  lemma ComparedDropsAreBelow(midday: Option<Saved>, morning: Option<Saved>, current: Saved, threshold: real)
    ensures var o := AfternoonOutcome(midday, morning, current, threshold);
      o.Compared? ==> o.merged.wentBelow <= o.merged.currentBelow
    ensures var o := MiddayOutcome(morning, current, threshold);
      o.Compared? ==> o.merged.wentBelow <= o.merged.currentBelow
  {
  }

  /**
   * As written, every plain-report fallback passes `run_label=` to
   * `send_results_to_slack(message, results, error, screenshot_path)`, which
   * raises `TypeError`; the handler repeats the same call, so it escapes.
   */
  function RaiseOnFallback(o: CompareOutcome): CompareOutcome
  {
    if o.PlainReport? then FallbackRaises else o
  }

  function MiddayOutcomeAsWritten(morning: Option<Saved>, current: Saved, threshold: real): CompareOutcome
  {
    RaiseOnFallback(MiddayOutcome(morning, current, threshold))
  }

  function AfternoonOutcomeAsWritten(midday: Option<Saved>, morning: Option<Saved>, current: Saved, threshold: real): CompareOutcome
  {
    RaiseOnFallback(AfternoonOutcome(midday, morning, current, threshold))
  }

  /** Without stored results, the run as written raises where a plain report is intended. */
  lemma MissingBaselineRaises(current: Saved, threshold: real)
    ensures MiddayOutcomeAsWritten(None, current, threshold) == FallbackRaises
    ensures AfternoonOutcomeAsWritten(None, None, current, threshold) == FallbackRaises
    ensures MiddayOutcome(None, current, threshold) == PlainReport
    ensures AfternoonOutcome(None, None, current, threshold) == PlainReport
  {
  }

  /** The intended comparisons always end in a report: a comparison, or the plain report exactly when no usable baseline exists. */
  lemma CompareAlwaysReports(midday: Option<Saved>, morning: Option<Saved>, current: Saved, threshold: real)
    ensures MiddayOutcome(morning, current, threshold) != FallbackRaises
    ensures AfternoonOutcome(midday, morning, current, threshold) != FallbackRaises
    ensures MiddayOutcome(morning, current, threshold) == PlainReport <==>
      morning.None? || !HasColumns(morning.value) || !HasColumns(current)
  {
  }

  /** After the merge the current frame's RPC column is renamed before it is stored. */
  function Renamed(s: Saved, column: string): (r: Saved)
    ensures r.targetCol == s.targetCol && r.rpcCol == column && r.frame.rpcs == s.frame.rpcs
    ensures column in r.frame.columns
  {
    Saved(Frame(s.frame.columns - {s.rpcCol} + {column}, s.frame.rpcs), s.targetCol, column)
  }

  /** The two results files, `morning_results.pkl` and `midday_results.pkl`. */
  class ResultStore {
    var morningFile: Option<SavedFile>
    var middayFile: Option<SavedFile>

    constructor (morning: Option<SavedFile>, midday: Option<SavedFile>)
      ensures morningFile == morning && middayFile == midday
    {
      morningFile := morning;
      middayFile := midday;
    }

    method SaveMorningResults(s: Saved, today: string)
      modifies this
      ensures morningFile == Some(SaveFile(s, today)) && middayFile == old(middayFile)
    {
      morningFile := Some(SaveFile(s, today));
    }

    method SaveMiddayResults(s: Saved, today: string)
      modifies this
      ensures middayFile == Some(SaveFile(s, today)) && morningFile == old(morningFile)
    {
      middayFile := Some(SaveFile(s, today));
    }

    /** A compared midday run stores its frame, RPC column renamed `midday_rpc`; nothing is stored otherwise. */
    method CompareAndSendMidday(current: Saved, threshold: real, today: string) returns (o: CompareOutcome)
      modifies this
      ensures o == MiddayOutcome(LoadResults(old(morningFile), today), current, threshold)
      ensures morningFile == old(morningFile)
      ensures middayFile == if o.Compared? then Some(SaveFile(Renamed(current, "midday_rpc"), today)) else old(middayFile)
    {
      var morning := LoadResults(morningFile, today);
      if morning.None? {
        return PlainReport;
      }
      o := CompareWith(morning.value, FromMorning, current, threshold);
      if o.Compared? {
        SaveMiddayResults(Renamed(current, "midday_rpc"), today);
      }
    }

    /** The afternoon comparison reads both files and stores nothing. */
    method CompareAndSendAfternoon(current: Saved, threshold: real, today: string) returns (o: CompareOutcome)
      ensures o == AfternoonOutcome(LoadResults(middayFile, today), LoadResults(morningFile, today), current, threshold)
    {
      var midday := LoadResults(middayFile, today);
      if midday.Some? {
        return CompareWith(midday.value, FromMidday, current, threshold);
      }
      var morning := LoadResults(morningFile, today);
      if morning.None? {
        return PlainReport;
      }
      o := CompareWith(morning.value, FromMorning, current, threshold);
    }
  }

  /** A midday run compared against today's stored morning results feeds the afternoon comparison. */
  lemma MiddayFeedsAfternoon(morning: Saved, current: Saved, later: Saved, threshold: real, today: string)
    requires HasColumns(morning) && HasColumns(current) && HasColumns(later)
    requires current.targetCol != current.rpcCol
    ensures LoadResults(Some(SaveFile(Renamed(current, "midday_rpc"), today)), today) == Some(Renamed(current, "midday_rpc"))
    ensures AfternoonOutcome(Some(Renamed(current, "midday_rpc")), Some(morning), later, threshold) ==
      Compared(FromMidday, Merge(current.frame.rpcs, later.frame.rpcs, threshold))
  {
  }
}
