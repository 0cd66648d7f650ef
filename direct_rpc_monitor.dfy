/**
 * The real-time monitor of direct_rpc_monitor.py: a morning pass that keeps the
 * targets whose revenue per call (RPC) reaches the threshold and persists them,
 * an afternoon pass that reports the persisted targets that have fallen below
 * it, the once-per-day scheduler, the aggregation of exported call-log rows,
 * and the partition used by the real-time report.
 */
module DirectRpcMonitor {
  import opened Common

  const RpcThreshold: real := 10.0

  /** One row of the per-target RPC list the API client returns. */
  datatype TargetRpc = TargetRpc(id: string, name: string, calls: int, revenue: real, rpc: real)

  // ------------------------------------------------------------ morning pass

  /** The targets whose RPC reaches the threshold, in fetched order; `enabled` is not consulted. */
  function Baseline(all: seq<TargetRpc>): (b: seq<TargetRpc>)
    ensures forall t :: t in b <==> t in all && t.rpc >= RpcThreshold
    ensures |b| <= |all|
  {
    if |all| == 0 then []
    else (if all[0].rpc >= RpcThreshold then [all[0]] else []) + Baseline(all[1..])
  }

  datatype MorningOutcome =
    | MorningSkipped                        // a credential is missing: nothing is sent
    | MorningAuthFailed                     // the API rejected the credentials: an alert is sent
    | MorningReport(targets: seq<TargetRpc>) // the sorted baseline; empty means the none-above notice

  /** The persisted morning file (a pickle of the unsorted baseline). */
  class MorningStore {
    var saved: Option<seq<TargetRpc>>

    constructor ()
      ensures saved == None
    {
      saved := None;
    }

    /**
     * The morning check: without both credentials it stops silently and a failed
     * authentication is alerted, neither touching the file; otherwise the baseline
     * is written before it is sorted, also when it is empty, replacing any earlier
     * file, and the report lists it by decreasing RPC.
     */
    method MorningCheck(credentials: bool, authOk: bool, all: seq<TargetRpc>) returns (out: MorningOutcome)
      modifies this
      ensures !credentials ==> out == MorningSkipped && saved == old(saved)
      ensures credentials && !authOk ==> out == MorningAuthFailed && saved == old(saved)
      ensures credentials && authOk ==>
        saved == Some(Baseline(all)) && out == MorningReport(SortDescBy(Baseline(all), (t: TargetRpc) => t.rpc))
      ensures out.MorningReport? ==>
        SortedDescBy(out.targets, (t: TargetRpc) => t.rpc) && multiset(out.targets) == multiset(Baseline(all))
    {
      if !credentials {
        return MorningSkipped;
      }
      if !authOk {
        return MorningAuthFailed;
      }
      var above := Baseline(all);
      saved := Some(above);
      out := MorningReport(SortDescBy(above, (t: TargetRpc) => t.rpc));
      SortDescByProps(above, (t: TargetRpc) => t.rpc);
    }
  }

  // ---------------------------------------------------------- afternoon pass

  /** `{t['id']: t for t in all}`: the last row with that id. */
  function CurrentById(all: seq<TargetRpc>, id: string): (r: Option<TargetRpc>)
    ensures r.Some? ==> r.value in all && r.value.id == id
    ensures r.None? ==> forall t :: t in all ==> t.id != id
    decreases |all|
  {
    if |all| == 0 then None
    else if all[|all| - 1].id == id then Some(all[|all| - 1])
    else CurrentById(all[..|all| - 1], id)
  }

  datatype Alert = Alert(id: string, name: string, rpc: real, morningRpc: real,
                         rpcChange: real, calls: int, revenue: real)

  function MakeAlert(m: TargetRpc, cur: TargetRpc): Alert
  {
    Alert(m.id, m.name, cur.rpc, m.rpc, cur.rpc - m.rpc, cur.calls, cur.revenue)
  }

  /** Whether the baseline entry `m` raises an alert against the current rows. */
  predicate Falls(m: TargetRpc, all: seq<TargetRpc>)
  {
    CurrentById(all, m.id).Some? && CurrentById(all, m.id).value.rpc < RpcThreshold
  }

  /** The alerts in baseline order, as the afternoon loop appends them. */
  function AlertsFor(baseline: seq<TargetRpc>, all: seq<TargetRpc>): seq<Alert>
    decreases |baseline|
  {
    if |baseline| == 0 then []
    else
      var m := baseline[|baseline| - 1];
      AlertsFor(baseline[..|baseline| - 1], all)
        + (if Falls(m, all) then [MakeAlert(m, CurrentById(all, m.id).value)] else [])
  }

  /** An alert is raised exactly for a present baseline target whose current RPC is below the threshold. */
  lemma {:induction false} AlertsForMembers(baseline: seq<TargetRpc>, all: seq<TargetRpc>, a: Alert)
    ensures a in AlertsFor(baseline, all) <==>
      exists m :: m in baseline && Falls(m, all) && a == MakeAlert(m, CurrentById(all, m.id).value)
    decreases |baseline|
  {
    if |baseline| > 0 {
      var init := baseline[..|baseline| - 1];
      AlertsForMembers(init, all, a);
      assert baseline == init + [baseline[|baseline| - 1]];
    }
  }

  /** Every alert reports a current RPC below the threshold and its change from the morning. */
  lemma {:induction false} AlertsBelow(baseline: seq<TargetRpc>, all: seq<TargetRpc>)
    ensures forall a :: a in AlertsFor(baseline, all) ==>
      a.rpc < RpcThreshold && a.rpcChange == a.rpc - a.morningRpc
    decreases |baseline|
  {
    if |baseline| > 0 {
      AlertsBelow(baseline[..|baseline| - 1], all);
    }
  }

  /** A baseline target with no current row raises no alert. */
  lemma AbsentTargetSilent(baseline: seq<TargetRpc>, all: seq<TargetRpc>, m: TargetRpc)
    requires m in baseline
    requires forall t :: t in all ==> t.id != m.id
    ensures forall a :: a in AlertsFor(baseline, all) ==> a.id != m.id || exists m' :: m' in baseline && m'.id == m.id && Falls(m', all)
  {
    forall a | a in AlertsFor(baseline, all)
      ensures a.id != m.id || exists m' :: m' in baseline && m'.id == m.id && Falls(m', all)
    {
      AlertsForMembers(baseline, all, a);
    }
  }

  /** No current row for an id means nothing can fall for it. */
  lemma AbsentNoFall(m: TargetRpc, all: seq<TargetRpc>)
    requires forall t :: t in all ==> t.id != m.id
    ensures !Falls(m, all)
  {
  }

  datatype AfternoonOutcome =
    | AfternoonSkipped              // a credential is missing: nothing is sent
    | MissingBaselineAlert          // no morning file: an alert is sent, nothing else
    | NothingToCheck                // the morning baseline is empty
    | AuthFailedAlert               // the API rejected the credentials
    | Report(alerts: seq<Alert>)    // empty when no target fell

  /** The afternoon check: credentials, then the stored baseline, then authentication, then the current rows. */
  method AfternoonCheck(credentials: bool, stored: Option<seq<TargetRpc>>, authOk: bool, all: seq<TargetRpc>)
    returns (out: AfternoonOutcome)
    ensures !credentials ==> out == AfternoonSkipped
    ensures credentials && stored.None? ==> out == MissingBaselineAlert
    ensures credentials && stored.Some? && |stored.value| == 0 ==> out == NothingToCheck
    ensures credentials && stored.Some? && |stored.value| > 0 && !authOk ==> out == AuthFailedAlert
    ensures credentials && stored.Some? && |stored.value| > 0 && authOk ==>
      out == Report(SortBy(AlertsFor(stored.value, all), (a: Alert) => a.rpcChange))
  {
    if !credentials {
      return AfternoonSkipped;
    }
    if stored.None? {
      return MissingBaselineAlert;
    }
    var baseline := stored.value;
    if |baseline| == 0 {
      return NothingToCheck;
    }
    if !authOk {
      return AuthFailedAlert;
    }
    var below: seq<Alert> := [];
    var i := 0;
    while i < |baseline|
      invariant 0 <= i <= |baseline|
      invariant below == AlertsFor(baseline[..i], all)
    {
      var m := baseline[i];
      var current := CurrentById(all, m.id);
      assert baseline[..i + 1][..i] == baseline[..i];
      if current.Some? {
        if current.value.rpc < RpcThreshold {
          below := below + [MakeAlert(m, current.value)];
        }
      }
      i := i + 1;
    }
    assert baseline[..i] == baseline;
    out := Report(SortBy(below, (a: Alert) => a.rpcChange));
  }

  /** The afternoon report is ordered by increasing change, biggest drop first, and loses no alert. */
  lemma AfternoonReportOrdered(baseline: seq<TargetRpc>, all: seq<TargetRpc>)
    ensures SortedBy(SortBy(AlertsFor(baseline, all), (a: Alert) => a.rpcChange), (a: Alert) => a.rpcChange)
    ensures multiset(SortBy(AlertsFor(baseline, all), (a: Alert) => a.rpcChange)) == multiset(AlertsFor(baseline, all))
  {
    SortByProps(AlertsFor(baseline, all), (a: Alert) => a.rpcChange);
  }

  // --------------------------------------------------------------- scheduler

  datatype Job = MorningJob | AfternoonJob

  lemma {:induction false} Pad2Order(a: nat, b: nat, rest1: string, rest2: string)
    requires a < 100 && b < 100 && a != b
    ensures StrLe(Pad2(a) + rest1, Pad2(b) + rest2) <==> a < b
  {
    var s, t := Pad2(a) + rest1, Pad2(b) + rest2;
    assert s[0] == DigitChar(a / 10) && t[0] == DigitChar(b / 10);
    if a / 10 == b / 10 {
      assert s[1..][0] == DigitChar(a % 10) && t[1..][0] == DigitChar(b % 10);
    }
  }

  lemma {:induction false} StrLeRefl(s: string)
    ensures StrLe(s, s)
    decreases |s|
  {
    if |s| > 0 {
      StrLeRefl(s[1..]);
    }
  }

  lemma {:induction false} StrLeCommonPrefix(p: string, x: string, y: string)
    ensures StrLe(p + x, p + y) == StrLe(x, y)
    decreases |p|
  {
    if |p| > 0 {
      assert (p + x)[1..] == p[1..] + x && (p + y)[1..] == p[1..] + y;
      StrLeCommonPrefix(p[1..], x, y);
    } else {
      assert p + x == x && p + y == y;
    }
  }

  lemma HourOrder(a: nat, b: nat)
    requires a / 60 < b / 60
    ensures a < b
  {
    assert a < (a / 60) * 60 + 60;
    assert (a / 60) * 60 + 60 <= (b / 60) * 60;
  }

  /** For zero-padded times of day, comparing the strings compares the minutes. */
  lemma {:induction false} HhmmOrder(a: nat, b: nat)
    requires a < 1440 && b < 1440
    ensures StrLe(Hhmm(a), Hhmm(b)) <==> a <= b
  {
    var s, t := Hhmm(a), Hhmm(b);
    if a == b {
      StrLeRefl(s);
    } else if a / 60 != b / 60 {
      Pad2Order(a / 60, b / 60, ":" + Pad2(a % 60), ":" + Pad2(b % 60));
      assert s == Pad2(a / 60) + (":" + Pad2(a % 60));
      assert t == Pad2(b / 60) + (":" + Pad2(b % 60));
      if a / 60 < b / 60 { HourOrder(a, b); } else { HourOrder(b, a); }
    } else {
      var p := Pad2(a / 60) + ":";
      assert s == p + (Pad2(a % 60) + "") && t == p + (Pad2(b % 60) + "");
      StrLeCommonPrefix(p, Pad2(a % 60) + "", Pad2(b % 60) + "");
      Pad2Order(a % 60, b % 60, "", "");
    }
  }

  /** The scheduler's two flags. */
  datatype Flags = Flags(morningRun: bool, afternoonRun: bool)

  /**
   * One poll at `now` (`'%H:%M'`): morning first, then afternoon, each when the time
   * string has reached its configured time and the flag is clear; a poll at exactly
   * `'00:00'` then clears both flags.
   */
  function Poll(f: Flags, morningTime: string, afternoonTime: string, now: string): (Flags, seq<Job>)
  {
    var runM := StrLe(morningTime, now) && !f.morningRun;
    var runA := StrLe(afternoonTime, now) && !f.afternoonRun;
    var jobs := (if runM then [MorningJob] else []) + (if runA then [AfternoonJob] else []);
    var after := Flags(f.morningRun || runM, f.afternoonRun || runA);
    (if now == "00:00" then Flags(false, false) else after, jobs)
  }

  /** The jobs a sequence of polls runs, in order. */
  function Polls(f: Flags, morningTime: string, afternoonTime: string, times: seq<string>): (Flags, seq<Job>)
    decreases |times|
  {
    if |times| == 0 then (f, [])
    else
      var (f1, j1) := Poll(f, morningTime, afternoonTime, times[0]);
      var (f2, j2) := Polls(f1, morningTime, afternoonTime, times[1..]);
      (f2, j1 + j2)
  }

  function CountJob(jobs: seq<Job>, j: Job): nat
  {
    if |jobs| == 0 then 0 else (if jobs[0] == j then 1 else 0) + CountJob(jobs[1..], j)
  }

  lemma {:induction false} CountJobAppend(a: seq<Job>, b: seq<Job>, j: Job)
    ensures CountJob(a + b, j) == CountJob(a, j) + CountJob(b, j)
  {
    if |a| > 0 {
      assert (a + b)[0] == a[0] && (a + b)[1..] == a[1..] + b;
      CountJobAppend(a[1..], b, j);
    } else {
      assert a + b == b;
    }
  }

  /**
   * Between two midnight polls the morning job runs at most once, and not at all
   * once its flag is set.
   */
  lemma {:induction false} MorningAtMostOnce(f: Flags, mt: string, at: string, times: seq<string>)
    requires forall k :: 0 <= k < |times| ==> times[k] != "00:00"
    ensures CountJob(Polls(f, mt, at, times).1, MorningJob) <= (if f.morningRun then 0 else 1)
    ensures f.morningRun ==> Polls(f, mt, at, times).0.morningRun
    decreases |times|
  {
    if |times| > 0 {
      var (f1, j1) := Poll(f, mt, at, times[0]);
      MorningAtMostOnce(f1, mt, at, times[1..]);
      CountJobAppend(j1, Polls(f1, mt, at, times[1..]).1, MorningJob);
    }
  }

  /** Between two midnight polls the afternoon job runs at most once. */
  lemma {:induction false} AfternoonAtMostOnce(f: Flags, mt: string, at: string, times: seq<string>)
    requires forall k :: 0 <= k < |times| ==> times[k] != "00:00"
    ensures CountJob(Polls(f, mt, at, times).1, AfternoonJob) <= (if f.afternoonRun then 0 else 1)
    ensures f.afternoonRun ==> Polls(f, mt, at, times).0.afternoonRun
    decreases |times|
  {
    if |times| > 0 {
      var (f1, j1) := Poll(f, mt, at, times[0]);
      AfternoonAtMostOnce(f1, mt, at, times[1..]);
      CountJobAppend(j1, Polls(f1, mt, at, times[1..]).1, AfternoonJob);
    }
  }

  /** With fresh flags, a poll at or after the morning time runs the morning job first. */
  lemma MorningFiresWhenDue(mt: string, at: string, m: nat, now: nat)
    requires m < 1440 && now < 1440
    ensures var (_, jobs) := Poll(Flags(false, false), Hhmm(m), at, Hhmm(now));
      (|jobs| > 0 && jobs[0] == MorningJob) <==> m <= now
  {
    HhmmOrder(m, now);
  }

  class EstScheduler {
    const morningTime: string
    const afternoonTime: string
    var morningJobRunToday: bool
    var afternoonJobRunToday: bool

    /** The configured times default to '10:00' and '15:00'. */
    constructor (morningEnv: Option<string>, afternoonEnv: Option<string>)
      ensures morningTime == (if morningEnv.Some? then morningEnv.value else "10:00")
      ensures afternoonTime == (if afternoonEnv.Some? then afternoonEnv.value else "15:00")
      ensures !morningJobRunToday && !afternoonJobRunToday
    {
      morningTime := if morningEnv.Some? then morningEnv.value else "10:00";
      afternoonTime := if afternoonEnv.Some? then afternoonEnv.value else "15:00";
      morningJobRunToday := false;
      afternoonJobRunToday := false;
    }

    function State(): Flags
      reads this
    {
      Flags(morningJobRunToday, afternoonJobRunToday)
    }

    /** `check_and_run_jobs`: runs the due jobs and updates the flags as `Poll` says. */
    method CheckAndRunJobs(now: string) returns (ran: seq<Job>)
      modifies this
      ensures (State(), ran) == Poll(old(State()), morningTime, afternoonTime, now)
    {
      var runMorning := StrLe(morningTime, now) && !morningJobRunToday;
      if runMorning {
        morningJobRunToday := true;
      }
      var runAfternoon := StrLe(afternoonTime, now) && !afternoonJobRunToday;
      if runAfternoon {
        afternoonJobRunToday := true;
      }
      ran := (if runMorning then [MorningJob] else []) + (if runAfternoon then [AfternoonJob] else []);
      if now == "00:00" {
        morningJobRunToday := false;
        afternoonJobRunToday := false;
      }
    }
  }

  // ------------------------------------------------------ call-log CSV rows

  /** A CSV row, with `row.get` defaults already applied. */
  datatype CsvRow = CsvRow(targetId: string, targetName: string, hasConnected: string,
                           hasPayout: string, payoutAmount: string)

  /** The amount of a payout text; empty or unparseable text counts 0. */
  function CsvPayout(text: string): real
  {
    var t := CleanAmount(text);
    if t == "" then 0.0
    else match PyFloat(t)
      case Some(v) => v
      case None => 0.0
  }

  /** A leading dollar sign does not change the amount. */
  lemma CsvPayoutDollar(text: string)
    ensures CsvPayout("$" + text) == CsvPayout(text)
  {
    assert ("$" + text)[..1] == "$" && ("$" + text)[1..] == text;
    assert ReplaceAll("$" + text, "$", "") == ReplaceAll(text, "$", "");
  }

  /** A plain number reads as itself. */
  lemma CsvPayoutPlain(n: nat)
    ensures CsvPayout(NatToString(n)) == n as real
  {
    var s := NatToString(n);
    assert forall i :: 0 <= i < |s| ==> IsDigit(s[i]);
    ContainsChar(s, '$');
    ReplaceAbsent(s, "$", "");
    ContainsChar(s, ',');
    ReplaceAbsent(s, ",", "");
    PyFloatNatToString(n);
  }

  /** Text that is not a number counts as no payout. */
  lemma CsvPayoutUnparseable(text: string)
    requires PyFloat(CleanAmount(text)).None?
    ensures CsvPayout(text) == 0.0
  {
  }

  predicate IsTrue(s: string)
  {
    Lower(s) == "true"
  }

  datatype Agg = Agg(name: string, calls: nat, revenue: real, connected: nat)

  function RowAmount(row: CsvRow): real
  {
    if IsTrue(row.hasPayout) then CsvPayout(row.payoutAmount) else 0.0
  }

  /** The grouping key of a row; an empty target id is skipped. */
  function CsvKey(row: CsvRow): string
  {
    row.targetId
  }

  /** A target first seen in this row starts with this row's name and no calls. */
  function CsvStart(row: CsvRow): Agg
  {
    Agg(row.targetName, 0, 0.0, 0)
  }

  /** The totals of a target after one more of its rows. */
  function CsvStep(a: Agg, row: CsvRow): Agg
  {
    Agg(a.name, a.calls + 1, a.revenue + RowAmount(row),
        a.connected + (if IsTrue(row.hasConnected) then 1 else 0))
  }

  /** The per-target totals after the rows, keyed by target id in first-seen order. */
  function Aggregate(rows: seq<CsvRow>): Dict<Agg>
  {
    GroupBy(rows, CsvKey, CsvStart, CsvStep)
  }

  // Reference sums over the rows of one target.

  function SumAmounts(rows: seq<CsvRow>): real
  {
    if |rows| == 0 then 0.0 else SumAmounts(rows[..|rows| - 1]) + RowAmount(rows[|rows| - 1])
  }

  function CountConnected(rows: seq<CsvRow>): nat
  {
    if |rows| == 0 then 0
    else CountConnected(rows[..|rows| - 1]) + (if IsTrue(rows[|rows| - 1].hasConnected) then 1 else 0)
  }

  lemma {:induction false} CsvFold(a: Agg, rows: seq<CsvRow>)
    ensures FoldRows(a, rows, CsvStep) ==
              Agg(a.name, a.calls + |rows|, a.revenue + SumAmounts(rows), a.connected + CountConnected(rows))
  {
    if |rows| > 0 {
      CsvFold(a, rows[..|rows| - 1]);
    }
  }

  lemma {:induction false} ConnectedAtMostRows(rows: seq<CsvRow>)
    ensures CountConnected(rows) <= |rows|
  {
    if |rows| > 0 {
      ConnectedAtMostRows(rows[..|rows| - 1]);
    }
  }

  /**
   * The per-target totals agree with the target's own rows: a target is present iff
   * it has a row, and then its calls are the number of its rows, its connected calls
   * the number of those marked connected, its revenue the sum of their payouts, and
   * its name that of its first row.
   */
  lemma AggregateMatches(rows: seq<CsvRow>, id: string)
    requires id != ""
    ensures DistinctKeys(Aggregate(rows))
    ensures Get(Aggregate(rows), id).Some? <==> |RowsOf(rows, CsvKey, id)| > 0
    ensures Get(Aggregate(rows), id).Some? ==>
              var rs := RowsOf(rows, CsvKey, id);
              Get(Aggregate(rows), id).value == Agg(rs[0].targetName, |rs|, SumAmounts(rs), CountConnected(rs))
  {
    GroupByGet(rows, CsvKey, CsvStart, CsvStep, id);
    var rs := RowsOf(rows, CsvKey, id);
    if |rs| > 0 {
      CsvFold(CsvStart(rs[0]), rs);
    }
  }

  /** Rows with an empty target id never create an entry. */
  lemma AggregateNoEmptyKey(rows: seq<CsvRow>, k: nat)
    requires k < |Aggregate(rows)|
    ensures Aggregate(rows)[k].0 != ""
  {
    GroupByEntry(rows, CsvKey, CsvStart, CsvStep, k);
  }

  /** Every entry of the aggregation has at least one call, and no more connected calls than calls. */
  lemma AggregateEntries(rows: seq<CsvRow>)
    ensures forall k :: 0 <= k < |Aggregate(rows)| ==>
              Aggregate(rows)[k].1.calls >= 1 && Aggregate(rows)[k].1.connected <= Aggregate(rows)[k].1.calls
  {
    forall k | 0 <= k < |Aggregate(rows)|
      ensures Aggregate(rows)[k].1.calls >= 1 && Aggregate(rows)[k].1.connected <= Aggregate(rows)[k].1.calls
    {
      GroupByEntry(rows, CsvKey, CsvStart, CsvStep, k);
      var id := Aggregate(rows)[k].0;
      AggregateMatches(rows, id);
      ConnectedAtMostRows(RowsOf(rows, CsvKey, id));
    }
  }

  datatype CsvTargetRpc = CsvTargetRpc(id: string, name: string, calls: nat, connectedCalls: nat,
                                       revenue: real, rpc: real)

  function ToRpc(e: (string, Agg)): CsvTargetRpc
  {
    var (id, a) := e;
    CsvTargetRpc(id, a.name, a.calls, a.connected, a.revenue,
                 if a.calls > 0 then a.revenue / a.calls as real else 0.0)
  }

  /** The per-target rows, in dictionary order. */
  function Listing(d: Dict<Agg>): (r: seq<CsvTargetRpc>)
    ensures |r| == |d| && forall k :: 0 <= k < |d| ==> r[k] == ToRpc(d[k])
  {
    seq(|d|, k requires 0 <= k < |d| => ToRpc(d[k]))
  }

  /**
   * `process_csv_for_rpc` after the file is read: the rows are folded into the
   * per-target totals in one loop, listed in a second, and sorted by decreasing RPC.
   */
  method ProcessCsvForRpc(rows: seq<CsvRow>) returns (result: seq<CsvTargetRpc>)
    ensures result == SortDescBy(Listing(Aggregate(rows)), (t: CsvTargetRpc) => t.rpc)
  {
    var targets := AggregateRows(rows);
    var listed := ListTargets(targets);
    result := SortDescBy(listed, (t: CsvTargetRpc) => t.rpc);
  }

  /** The first loop of `process_csv_for_rpc`: each row with a target id adds to its target's totals. */
  method AggregateRows(rows: seq<CsvRow>) returns (targets: Dict<Agg>)
    ensures targets == Aggregate(rows)
  {
    targets := [];
    var i := 0;
    while i < |rows|
      invariant 0 <= i <= |rows|
      invariant targets == Aggregate(rows[..i])
    {
      assert rows[..i + 1][..i] == rows[..i];
      assert Aggregate(rows[..i + 1]) == GroupAdd(targets, rows[i], CsvKey, CsvStart, CsvStep);
      targets := AddRow(targets, rows[i]);
      i := i + 1;
    }
    assert rows[..i] == rows;
  }

  /** The body of the first loop: a row with a target id adds one call, its payout and its connection. */
  method AddRow(targets0: Dict<Agg>, row: CsvRow) returns (targets: Dict<Agg>)
    ensures targets == GroupAdd(targets0, row, CsvKey, CsvStart, CsvStep)
  {
    targets := targets0;
    assert CsvKey(row) == row.targetId;
    if row.targetId != "" {
      var found := Get(targets, row.targetId);
      var a := if found.Some? then found.value else Agg(row.targetName, 0, 0.0, 0);
      var connected := a.connected + (if IsTrue(row.hasConnected) then 1 else 0);
      var payout := if IsTrue(row.hasPayout) then CsvPayout(row.payoutAmount) else 0.0;
      assert a == (if found.Some? then found.value else CsvStart(row));
      assert Agg(a.name, a.calls + 1, a.revenue + payout, connected) == CsvStep(a, row);
      targets := Put(targets, row.targetId, Agg(a.name, a.calls + 1, a.revenue + payout, connected));
    }
  }

  /** The second loop of `process_csv_for_rpc`: one row per target, with its RPC. */
  method ListTargets(targets: Dict<Agg>) returns (listed: seq<CsvTargetRpc>)
    ensures listed == Listing(targets)
  {
    listed := [];
    var j := 0;
    while j < |targets|
      invariant 0 <= j <= |targets|
      invariant listed == Listing(targets[..j])
    {
      listed := listed + [ToRpc(targets[j])];
      j := j + 1;
    }
    assert targets[..j] == targets;
  }

  /** A listed target's RPC is its revenue over its calls. */
  lemma ToRpcRatio(e: (string, Agg))
    requires e.1.calls >= 1
    ensures ToRpc(e).rpc * (ToRpc(e).calls as real) == ToRpc(e).revenue
  {
    var c := e.1.calls as real;
    assert (e.1.revenue / c) * c == e.1.revenue;
  }

  /** Each listed target has at least one call and no more connected calls than calls. */
  lemma ListingCounts(rows: seq<CsvRow>)
    ensures forall t :: t in Listing(Aggregate(rows)) ==> t.calls >= 1 && t.connectedCalls <= t.calls
  {
    AggregateEntries(rows);
  }

  // ------------------------------------------------------- real-time report

  function Above(all: seq<TargetRpc>): (r: seq<TargetRpc>)
    ensures forall t :: t in r <==> t in all && t.rpc >= RpcThreshold
  {
    Baseline(all)
  }

  function Below(all: seq<TargetRpc>): (r: seq<TargetRpc>)
    ensures forall t :: t in r <==> t in all && t.rpc < RpcThreshold
    ensures |r| <= |all|
  {
    if |all| == 0 then []
    else (if all[0].rpc < RpcThreshold then [all[0]] else []) + Below(all[1..])
  }

  /** Above and below the threshold partition the rows. */
  lemma {:induction false} PartitionSizes(all: seq<TargetRpc>)
    ensures |Above(all)| + |Below(all)| == |all|
    ensures multiset(Above(all)) + multiset(Below(all)) == multiset(all)
  {
    if |all| > 0 {
      PartitionSizes(all[1..]);
      assert all == [all[0]] + all[1..];
    }
  }

  datatype Tier = Fire | Star | Check

  function EmojiTier(rpc: real): (t: Tier)
    ensures t == Fire <==> rpc >= 30.0
    ensures t == Star <==> 20.0 <= rpc < 30.0
  {
    if rpc >= 30.0 then Fire else if rpc >= 20.0 then Star else Check
  }

  /** The compact list: at most ten rows, and how many more were left out. */
  function CompactSummary(below: seq<TargetRpc>): (r: (seq<TargetRpc>, Option<nat>))
    ensures |r.0| == if |below| < 10 then |below| else 10
    ensures r.0 == below[..|r.0|]
    ensures r.1.Some? <==> |below| > 10
    ensures r.1.Some? ==> |r.0| + r.1.value == |below|
  {
    if |below| > 10 then
      var more: nat := |below| - 10;
      (below[..10], Some(more))
    else (below, None)
  }

  function SumCalls(s: seq<TargetRpc>): int
  {
    if |s| == 0 then 0 else s[0].calls + SumCalls(s[1..])
  }

  function SumRevenueRows(s: seq<TargetRpc>): real
  {
    if |s| == 0 then 0.0 else s[0].revenue + SumRevenueRows(s[1..])
  }

  function AverageRpc(s: seq<TargetRpc>): (avg: real)
    ensures SumCalls(s) > 0 ==> avg * SumCalls(s) as real == SumRevenueRows(s)
    ensures SumCalls(s) <= 0 ==> avg == 0.0
  {
    if SumCalls(s) > 0 then SumRevenueRows(s) / SumCalls(s) as real else 0.0
  }

  datatype RealTimeReport = RealTimeReport(above: seq<TargetRpc>, listedBelow: seq<TargetRpc>,
                                           moreBelow: Option<nat>, avgRpc: real)

  /** The real-time report: sorted by decreasing RPC, then partitioned at the threshold. */
  function RealTime(all: seq<TargetRpc>): (r: Option<RealTimeReport>)
    ensures |all| == 0 <==> r.None?
  {
    if |all| == 0 then None
    else
      var sorted := SortDescBy(all, (t: TargetRpc) => t.rpc);
      var (listed, more) := CompactSummary(Below(sorted));
      Some(RealTimeReport(Above(sorted), listed, more, AverageRpc(sorted)))
  }

  /** Both parts of the real-time report are in decreasing RPC order. */
  lemma {:induction false} FilterKeepsOrder(s: seq<TargetRpc>)
    requires SortedDescBy(s, (t: TargetRpc) => t.rpc)
    ensures SortedDescBy(Baseline(s), (t: TargetRpc) => t.rpc)
    ensures SortedDescBy(Below(s), (t: TargetRpc) => t.rpc)
  {
    BaselineSorted(s);
    BelowSorted(s);
  }

  lemma {:induction false} BaselineSorted(s: seq<TargetRpc>)
    requires SortedDescBy(s, (t: TargetRpc) => t.rpc)
    ensures SortedDescBy(Baseline(s), (t: TargetRpc) => t.rpc)
  {
    if |s| > 0 {
      var rest := Baseline(s[1..]);
      assert SortedDescBy(s[1..], (t: TargetRpc) => t.rpc);
      BaselineSorted(s[1..]);
      forall k | 0 <= k < |rest| ensures s[0].rpc >= rest[k].rpc {
        assert rest[k] in rest;
        var j :| 0 <= j < |s[1..]| && s[1..][j] == rest[k];
        assert s[1 + j] == rest[k];
      }
      if s[0].rpc >= RpcThreshold {
        SortedDescCons(s[0], rest, (t: TargetRpc) => t.rpc);
      }
    }
  }

  lemma {:induction false} BelowSorted(s: seq<TargetRpc>)
    requires SortedDescBy(s, (t: TargetRpc) => t.rpc)
    ensures SortedDescBy(Below(s), (t: TargetRpc) => t.rpc)
  {
    if |s| > 0 {
      var rest := Below(s[1..]);
      assert SortedDescBy(s[1..], (t: TargetRpc) => t.rpc);
      BelowSorted(s[1..]);
      forall k | 0 <= k < |rest| ensures s[0].rpc >= rest[k].rpc {
        assert rest[k] in rest;
        var j :| 0 <= j < |s[1..]| && s[1..][j] == rest[k];
        assert s[1 + j] == rest[k];
      }
      if s[0].rpc < RpcThreshold {
        SortedDescCons(s[0], rest, (t: TargetRpc) => t.rpc);
      }
    }
  }

  // ----------------------------------------------------------- tag summary

  datatype Tags = NoTags | TagCounts(counts: Dict<int>) | TagList(names: seq<string>)

  /** The tags shown for a target: the three most used, or the first three of a list. */
  function TopTags(tags: Tags): (shown: seq<string>)
    ensures tags.TagList? ==> shown == tags.names[..if |tags.names| < 3 then |tags.names| else 3]
    ensures tags.TagCounts? ==> |shown| == if |tags.counts| < 3 then |tags.counts| else 3
    ensures tags.NoTags? ==> shown == []
  {
    match tags
    case NoTags => []
    case TagList(names) => names[..if |names| < 3 then |names| else 3]
    case TagCounts(counts) =>
      var top := TopCounts(counts);
      seq(|top|, i requires 0 <= i < |top| => top[i].0)
  }

  function TopCounts(counts: Dict<int>): (top: Dict<int>)
    ensures |top| == if |counts| < 3 then |counts| else 3
  {
    var sorted := SortDescBy(counts, (e: (string, int)) => e.1 as real);
    SortDescByProps(counts, (e: (string, int)) => e.1 as real);
    sorted[..if |sorted| < 3 then |sorted| else 3]
  }

  /** The chosen tags are among the target's tags and no omitted tag has a higher count. */
  lemma TopCountsDominate(counts: Dict<int>)
    ensures multiset(TopCounts(counts)) <= multiset(counts)
    ensures forall i, e ::
              0 <= i < |TopCounts(counts)| && e in multiset(counts) - multiset(TopCounts(counts)) ==>
              TopCounts(counts)[i].1 >= e.1
  {
    var key := (e: (string, int)) => e.1 as real;
    var sorted := SortDescBy(counts, key);
    SortDescByProps(counts, key);
    var n := if |sorted| < 3 then |sorted| else 3;
    var top := sorted[..n];
    assert TopCounts(counts) == top;
    assert sorted == top + sorted[n..];
    assert multiset(counts) == multiset(top) + multiset(sorted[n..]);
    assert multiset(counts) - multiset(top) == multiset(sorted[n..]);
    SortedPrefixDominates(sorted, key, n);
    forall i, e | 0 <= i < n && e in multiset(sorted[n..])
      ensures top[i].1 >= e.1
    {
      assert key(sorted[i]) >= key(e);
    }
  }
}
