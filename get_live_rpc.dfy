/**
 * The interactive live-RPC report: pick a date, keep the enabled targets,
 * read each target's counts for that date, and report every enabled target's
 * RPC high to low with totals, the average RPC and the top five performers.
 * The typed answers, the strptime check and the counts responses are inputs.
 */
module GetLiveRpc {
  import opened Common

  /**
   * The date of the report: choice `1` is today, `2` yesterday, `3` the typed date
   * when it parses as `%Y-%m-%d` (`customValid`), and anything else today.
   */
  function SelectedDate(choice: string, today: string, yesterday: string, custom: string, customValid: bool): (d: string)
    ensures choice == "2" ==> d == yesterday
    ensures choice == "3" && customValid ==> d == custom
    ensures choice != "2" && !(choice == "3" && customValid) ==> d == today
  {
    if choice == "1" then today
    else if choice == "2" then yesterday
    else if choice == "3" then (if customValid then custom else today)
    else today
  }

  /** A target list item: whether it is a dict, its `id`, `name` and `enabled` (None: absent). */
  datatype LiveTarget = LiveTarget(isDict: bool, id: Option<string>, name: Option<string>, enabled: Option<bool>)

  /** `isinstance(target, dict) and target.get('enabled', True)`: an absent flag counts as enabled. */
  predicate EnabledHere(t: LiveTarget)
  {
    t.isDict && (t.enabled.None? || t.enabled.value)
  }

  function EnabledTargets(ts: seq<LiveTarget>): seq<LiveTarget>
  {
    if |ts| == 0 then []
    else EnabledTargets(ts[..|ts| - 1]) + (if EnabledHere(ts[|ts| - 1]) then [ts[|ts| - 1]] else [])
  }

  /** The enabled list holds exactly the enabled dict targets, in list order. */
  lemma {:induction false} EnabledTargetsMembers(ts: seq<LiveTarget>)
    ensures forall t :: t in EnabledTargets(ts) <==> t in ts && EnabledHere(t)
    ensures |EnabledTargets(ts)| <= |ts|
  {
    if |ts| > 0 {
      EnabledTargetsMembers(ts[..|ts| - 1]);
      assert ts == ts[..|ts| - 1] + [ts[|ts| - 1]];
    }
  }

  /**
   * The `totalCalls` and `payout` values read from a counts response, each `0`
   * when absent; None when reading them raises (the second element of a list, or
   * its `stats`, is not a dict). A falsy response, a list of one element or any
   * other shape gives `0` and `0`.
   */
  function CountsFields(counts: Json): (r: Option<(Json, Json)>)
    ensures counts.JObj? && |counts.members| > 0 ==>
      r == Some((JGetOr(counts.members, "totalCalls", JNum(0.0)), JGetOr(counts.members, "payout", JNum(0.0))))
    ensures counts.JArr? && |counts.items| > 1 && counts.items[1].JObj? ==>
      var second := counts.items[1].members;
      var stats := JGetOr(second, "stats", counts.items[1]);
      (stats.JObj? ==> r == Some((JGetOr(stats.members, "totalCalls", JNum(0.0)), JGetOr(stats.members, "payout", JNum(0.0))))) &&
      (!stats.JObj? ==> r.None?)
    ensures counts.JArr? && |counts.items| > 1 && !counts.items[1].JObj? ==> r.None?
    ensures !(counts.JArr? && |counts.items| > 1) && !(counts.JObj? && |counts.members| > 0) ==> r == Some((JNum(0.0), JNum(0.0)))
  {
    if !JTruthy(counts) then Some((JNum(0.0), JNum(0.0)))
    else match counts
      case JArr(items) =>
        if |items| > 1 then
          match items[1]
          case JObj(second) =>
            var stats := if Get(second, "stats").Some? then Get(second, "stats").value else items[1];
            (match stats
             case JObj(m) => Some((JGetOr(m, "totalCalls", JNum(0.0)), JGetOr(m, "payout", JNum(0.0))))
             case _ => None)
          case _ => None
        else Some((JNum(0.0), JNum(0.0)))
      case JObj(m) => Some((JGetOr(m, "totalCalls", JNum(0.0)), JGetOr(m, "payout", JNum(0.0))))
      case _ => Some((JNum(0.0), JNum(0.0)))
  }

  /** One row of `rpc_data`; `error` marks the zero row written when processing raised. */
  datatype LiveEntry = LiveEntry(id: Option<string>, name: string, calls: real, revenue: real, rpc: real, error: bool)

  /** Processing a target's counts goes through: the fields can be read and both are numbers. */
  predicate Processes(counts: Json)
  {
    var f := CountsFields(counts);
    f.Some? && JNumeric(f.value.0).Some? && JNumeric(f.value.1).Some?
  }

  /** The row of one enabled target: its calls, revenue and `revenue / calls` (0 without calls), or a zero row. */
  function EntryOf(t: LiveTarget, counts: Json): (e: LiveEntry)
    ensures e.id == t.id && e.name == NameOrUnknown(t.name)
    ensures e.error <==> !Processes(counts)
    ensures e.error ==> e.calls == 0.0 && e.revenue == 0.0 && e.rpc == 0.0
    ensures !e.error ==> (e.calls == JNumeric(CountsFields(counts).value.0).value &&
                          e.revenue == JNumeric(CountsFields(counts).value.1).value)
    ensures e.calls > 0.0 ==> e.rpc * e.calls == e.revenue
    ensures e.calls <= 0.0 ==> e.rpc == 0.0
  {
    if !Processes(counts) then LiveEntry(t.id, NameOrUnknown(t.name), 0.0, 0.0, 0.0, true)
    else
      var calls := JNumeric(CountsFields(counts).value.0).value;
      var revenue := JNumeric(CountsFields(counts).value.1).value;
      LiveEntry(t.id, NameOrUnknown(t.name), calls, revenue, if calls > 0.0 then revenue / calls else 0.0, false)
  }

  /** The rows of `rpc_data` before sorting: one per enabled target, in order. */
  function RpcData(es: seq<LiveTarget>, countsOf: Option<string> -> Json): seq<LiveEntry>
  {
    if |es| == 0 then []
    else RpcData(es[..|es| - 1], countsOf) + [EntryOf(es[|es| - 1], countsOf(es[|es| - 1].id))]
  }

  /** Every enabled target appears exactly once in `rpc_data`, at its own position, whether processing raised or not. */
  lemma {:induction false} RpcDataOnce(es: seq<LiveTarget>, countsOf: Option<string> -> Json)
    ensures |RpcData(es, countsOf)| == |es|
    ensures forall i :: 0 <= i < |es| ==> RpcData(es, countsOf)[i] == EntryOf(es[i], countsOf(es[i].id))
  {
    if |es| > 0 {
      var init := es[..|es| - 1];
      RpcDataOnce(init, countsOf);
      assert forall i :: 0 <= i < |init| ==> init[i] == es[i];
    }
  }

  function EntryRpc(e: LiveEntry): real
  {
    e.rpc
  }

  function EntryCalls(e: LiveEntry): real
  {
    e.calls
  }

  function EntryRevenue(e: LiveEntry): real
  {
    e.revenue
  }

  /** `total_revenue / total_calls if total_calls > 0 else 0`. */
  function AverageRpc(totalCalls: real, totalRevenue: real): (avg: real)
    ensures totalCalls > 0.0 ==> avg * totalCalls == totalRevenue
    ensures totalCalls <= 0.0 ==> avg == 0.0
  {
    if totalCalls > 0.0 then totalRevenue / totalCalls else 0.0
  }

  /** `[t for t in rpc_data if t['calls'] > 0]`. */
  function WithCalls(data: seq<LiveEntry>): (r: seq<LiveEntry>)
    ensures |r| <= |data|
    ensures forall e :: e in r <==> e in data && e.calls > 0.0
    decreases |data|
  {
    if |data| == 0 then []
    else (if data[0].calls > 0.0 then [data[0]] else []) + WithCalls(data[1..])
  }

  /** Keeping a sublist of a list sorted high to low keeps it sorted. */
  lemma {:induction false} WithCallsSorted(data: seq<LiveEntry>)
    requires SortedDescBy(data, EntryRpc)
    ensures SortedDescBy(WithCalls(data), EntryRpc)
    decreases |data|
  {
    if |data| > 0 {
      assert SortedDescBy(data[1..], EntryRpc);
      WithCallsSorted(data[1..]);
      var rest := WithCalls(data[1..]);
      assert forall e :: e in rest ==> e in data[1..];
      assert forall k :: 1 <= k < |data| ==> data[0].rpc >= data[k].rpc;
    }
  }

  /** The first five rows with calls, after sorting. */
  function TopPerformers(data: seq<LiveEntry>): (top: seq<LiveEntry>)
    ensures |top| == if |WithCalls(data)| < 5 then |WithCalls(data)| else 5
    ensures top == WithCalls(data)[..|top|]
  {
    var withCalls := WithCalls(data);
    if |withCalls| < 5 then withCalls else withCalls[..5]
  }

  datatype LiveOutcome =
    | AuthFailed
    | NoTargetsResponse
    | NoTargets
    | NoneEnabled
    | Crashed
    | Report(date: string, data: seq<LiveEntry>, totalCalls: real, totalRevenue: real, avgRpc: real, top: seq<LiveEntry>)

  /**
   * Some enabled target leaves a row whose revenue is not a number in `rpc_data`
   * (the row before the second, zero row), and the table's `:.2f` of that revenue
   * raises outside any handler.
   */
  predicate TableCrashes(es: seq<LiveTarget>, countsOf: Option<string> -> Json)
  {
    exists i :: 0 <= i < |es| && AppendedRowsAsWritten(countsOf(es[i].id)) == 2
  }

  /**
   * `main` after the date prompt: `response` is the target list of a dict response
   * with `targets` (None otherwise), `countsOf` the counts returned for each id on
   * the chosen date. When no target's processing raises after its row is appended,
   * every enabled target leaves the one row `EntryOf` gives; otherwise building
   * the table raises and `main` ends with the error.
   */
  method LiveRpcReport(authOk: bool, date: string, response: Option<seq<LiveTarget>>, countsOf: Option<string> -> Json)
    returns (outcome: LiveOutcome)
    ensures !authOk ==> outcome == AuthFailed
    ensures authOk && response.None? ==> outcome == NoTargetsResponse
    ensures authOk && response.Some? && |response.value| == 0 ==> outcome == NoTargets
    ensures authOk && response.Some? && |response.value| > 0 ==>
      var es := EnabledTargets(response.value);
      (|es| == 0 <==> outcome == NoneEnabled) &&
      (|es| > 0 ==> (outcome == Crashed <==> TableCrashes(es, countsOf))) &&
      (|es| > 0 && !TableCrashes(es, countsOf) ==>
        var rows := RpcData(es, countsOf);
        outcome.Report? && outcome.date == date &&
        outcome.data == SortDescBy(rows, EntryRpc) &&
        outcome.totalCalls == SumBy(rows, EntryCalls) && outcome.totalRevenue == SumBy(rows, EntryRevenue) &&
        outcome.avgRpc == AverageRpc(SumBy(rows, EntryCalls), SumBy(rows, EntryRevenue)) &&
        outcome.top == TopPerformers(outcome.data))
  {
    if !authOk {
      return AuthFailed;
    }
    if response.None? {
      return NoTargetsResponse;
    }
    var targets := response.value;
    if |targets| == 0 {
      return NoTargets;
    }
    var enabled := FilterEnabled(targets);
    if |enabled| == 0 {
      return NoneEnabled;
    }
    if exists i :: 0 <= i < |enabled| && AppendedRowsAsWritten(countsOf(enabled[i].id)) == 2 {
      return Crashed;
    }
    var rpcData := CollectRpcData(enabled, countsOf);
    var data := SortDescBy(rpcData, EntryRpc);
    SortDescByProps(rpcData, EntryRpc);
    SumByPermutation(data, rpcData, EntryCalls);
    SumByPermutation(data, rpcData, EntryRevenue);
    var totalCalls := SumBy(data, EntryCalls);
    var totalRevenue := SumBy(data, EntryRevenue);
    return Report(date, data, totalCalls, totalRevenue, AverageRpc(totalCalls, totalRevenue), TopPerformers(data));
  }

  /** The loop collecting the enabled targets, in order. */
  method FilterEnabled(targets: seq<LiveTarget>) returns (enabled: seq<LiveTarget>)
    ensures enabled == EnabledTargets(targets)
  {
    enabled := [];
    var i := 0;
    while i < |targets|
      invariant i <= |targets|
      invariant enabled == EnabledTargets(targets[..i])
    {
      assert targets[..i + 1][..i] == targets[..i];
      if EnabledHere(targets[i]) {
        enabled := enabled + [targets[i]];
      }
      i := i + 1;
    }
    assert targets[..i] == targets;
  }

  /** The `try` block for one target: its row, or the zero row when reading its counts raises. */
  method ProcessTarget(t: LiveTarget, counts: Json) returns (entry: LiveEntry)
    ensures entry == EntryOf(t, counts)
  {
    var fields := CountsFields(counts);
    entry := LiveEntry(t.id, NameOrUnknown(t.name), 0.0, 0.0, 0.0, true);
    if fields.Some? {
      var calls := JNumeric(fields.value.0);
      var revenue := JNumeric(fields.value.1);
      if calls.Some? && revenue.Some? {
        var rpc := 0.0;
        if calls.value > 0.0 {
          rpc := revenue.value / calls.value;
        }
        entry := LiveEntry(t.id, NameOrUnknown(t.name), calls.value, revenue.value, rpc, false);
      }
    }
  }

  /** The loop over the enabled targets that fills `rpc_data`. */
  method CollectRpcData(enabled: seq<LiveTarget>, countsOf: Option<string> -> Json) returns (rpcData: seq<LiveEntry>)
    ensures rpcData == RpcData(enabled, countsOf)
  {
    rpcData := [];
    var j := 0;
    while j < |enabled|
      invariant j <= |enabled|
      invariant rpcData == RpcData(enabled[..j], countsOf)
    {
      assert enabled[..j + 1][..j] == enabled[..j];
      var entry := ProcessTarget(enabled[j], countsOf(enabled[j].id));
      rpcData := rpcData + [entry];
      j := j + 1;
    }
    assert enabled[..j] == enabled;
  }

  /**
   * The report lists every enabled target once, high to low by RPC, and its top
   * performers are rows of the report with calls, also high to low.
   */
  lemma ReportShape(es: seq<LiveTarget>, countsOf: Option<string> -> Json)
    ensures var rows := RpcData(es, countsOf);
      var data := SortDescBy(rows, EntryRpc);
      multiset(data) == multiset(rows) && SortedDescBy(data, EntryRpc) && |data| == |es| &&
      SortedDescBy(TopPerformers(data), EntryRpc) &&
      (forall e :: e in TopPerformers(data) ==> e in data && e.calls > 0.0)
  {
    var rows := RpcData(es, countsOf);
    var data := SortDescBy(rows, EntryRpc);
    SortDescByProps(rows, EntryRpc);
    RpcDataOnce(es, countsOf);
    assert |data| == |multiset(data)| == |multiset(rows)| == |rows|;
    WithCallsSorted(data);
    var top := TopPerformers(data);
    assert forall e :: e in top ==> e in WithCalls(data);
  }

  /**
   * The rows `main` appends for one target as written: processing raises either
   * before the row is appended, giving one zero row, or only in the progress line
   * that formats the revenue with `:.2f`, after the row is appended, and then the
   * handler appends a second, zero row.
   */
  function AppendedRowsAsWritten(counts: Json): (n: nat)
    ensures n == 1 || n == 2
  {
    var f := CountsFields(counts);
    if f.None? || JNumeric(f.value.0).None? then 1
    else
      var calls := JNumeric(f.value.0).value;
      if calls > 0.0 then 1
      else if JNumeric(f.value.1).None? then 2
      else 1
  }

  /** A counts dict with no calls and a `payout` of null puts the target in `rpc_data` twice. */
  lemma NullPayoutAppendsTwice()
    ensures AppendedRowsAsWritten(JObj([("totalCalls", JNum(0.0)), ("payout", JNull)])) == 2
  {
    var m := [("totalCalls", JNum(0.0)), ("payout", JNull)];
    assert Get(m, "totalCalls") == Some(JNum(0.0));
    assert Get(m, "payout") == Some(JNull);
  }

  /** Such a target, enabled, makes building the table raise. */
  lemma NullPayoutCrashes(t: LiveTarget, countsOf: Option<string> -> Json)
    requires countsOf(t.id) == JObj([("totalCalls", JNum(0.0)), ("payout", JNull)])
    ensures TableCrashes([t], countsOf)
  {
    NullPayoutAppendsTwice();
    assert [t][0] == t;
  }
}
