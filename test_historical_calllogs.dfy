/**
 * The historical comparison script over call logs: for each target it takes
 * yesterday's RPC around 10 AM and around 3 PM, reports both lists high to
 * low, and lists the targets that fell from at or above the threshold to
 * below it. The per-window RPC lookups are inputs; times are minutes.
 */
module TestHistoricalCalllogs {
  import opened Common

  const RpcWindowHours: int := 1

  /** `get_datetime_window`: `(base - h, base + h)`, in minutes. */
  function DatetimeWindow(base: int, hours: int): (w: (int, int))
    ensures w.0 + w.1 == 2 * base
    ensures w.1 - w.0 == 2 * 60 * hours
  {
    (base - 60 * hours, base + 60 * hours)
  }

  /** With the default of one hour, 10:00 gives 09:00 to 11:00. */
  lemma DefaultWindow()
    ensures DatetimeWindow(600, RpcWindowHours) == (540, 660)
  {
  }

  datatype TargetRef = TargetRef(id: Option<string>, name: Option<string>)

  /** `TARGET_NAME and TARGET_NAME.lower() != 'all' and target_name != TARGET_NAME`. */
  predicate Skipped(targetName: string, t: TargetRef)
  {
    targetName != "" && Lower(targetName) != "all" && t.name != Some(targetName)
  }

  /** No filter (empty, or `all` in any case) keeps every target; a filter keeps exactly its own name. */
  lemma SkipMeaning(targetName: string, t: TargetRef)
    ensures targetName == "" || Lower(targetName) == "all" ==> !Skipped(targetName, t)
    ensures targetName != "" && Lower(targetName) != "all" ==> (!Skipped(targetName, t) <==> t.name == Some(targetName))
  {
  }

  /** `ALL` is read as no filter. */
  lemma UpperAllIsNoFilter(t: TargetRef)
    ensures !Skipped("ALL", t)
  {
    assert Lower("ALL") == "all";
  }

  datatype RpcResult = RpcResult(id: Option<string>, name: Option<string>, rpc: real)

  datatype DroppedTarget = DroppedTarget(id: Option<string>, name: Option<string>, morningRpc: real, afternoonRpc: real,
                                         dropPercentage: real)

  function ResultRpc(r: RpcResult): real
  {
    r.rpc
  }

  /** The drop percentage with its zero guard. */
  function DropPercentage(morning: real, afternoon: real): (p: real)
    ensures morning <= 0.0 ==> p == 0.0
    ensures morning > 0.0 ==> p * morning == (morning - afternoon) * 100.0
  {
    if morning > 0.0 then (morning - afternoon) / morning * 100.0 else 0.0
  }

  predicate IsDrop(m: real, a: real, threshold: real)
  {
    m >= threshold && a < threshold
  }

  /** The per-target lists of the loop, in target order: morning and afternoon results and the drops. */
  function Results(ts: seq<TargetRef>, targetName: string, rpcAt: Option<string> -> real): seq<RpcResult>
  {
    if |ts| == 0 then []
    else
      var t := ts[|ts| - 1];
      Results(ts[..|ts| - 1], targetName, rpcAt) +
        (if Skipped(targetName, t) then [] else [RpcResult(t.id, t.name, rpcAt(t.id))])
  }

  function Drops(ts: seq<TargetRef>, targetName: string, threshold: real,
                 morningAt: Option<string> -> real, afternoonAt: Option<string> -> real): seq<DroppedTarget>
  {
    if |ts| == 0 then []
    else
      var t := ts[|ts| - 1];
      var m := morningAt(t.id);
      var a := afternoonAt(t.id);
      Drops(ts[..|ts| - 1], targetName, threshold, morningAt, afternoonAt) +
        (if !Skipped(targetName, t) && IsDrop(m, a, threshold) then [DroppedTarget(t.id, t.name, m, a, DropPercentage(m, a))] else [])
  }

  /** A result is listed iff its target passes the name filter. */
  lemma {:induction false} ResultsMembers(ts: seq<TargetRef>, targetName: string, rpcAt: Option<string> -> real)
    ensures forall r :: r in Results(ts, targetName, rpcAt) <==>
      exists i :: 0 <= i < |ts| && !Skipped(targetName, ts[i]) && r == RpcResult(ts[i].id, ts[i].name, rpcAt(ts[i].id))
  {
    if |ts| > 0 {
      var init := ts[..|ts| - 1];
      ResultsMembers(init, targetName, rpcAt);
      assert forall i :: 0 <= i < |init| ==> init[i] == ts[i];
    }
  }

  /** A target is dropped iff it passes the filter, its morning RPC is at or above and its afternoon RPC below the threshold. */
  lemma {:induction false} DropsMembers(ts: seq<TargetRef>, targetName: string, threshold: real,
                                        morningAt: Option<string> -> real, afternoonAt: Option<string> -> real)
    ensures forall d :: d in Drops(ts, targetName, threshold, morningAt, afternoonAt) <==>
      exists i :: 0 <= i < |ts| && !Skipped(targetName, ts[i]) &&
        IsDrop(morningAt(ts[i].id), afternoonAt(ts[i].id), threshold) &&
        d == DroppedTarget(ts[i].id, ts[i].name, morningAt(ts[i].id), afternoonAt(ts[i].id),
                           DropPercentage(morningAt(ts[i].id), afternoonAt(ts[i].id)))
  {
    if |ts| > 0 {
      var init := ts[..|ts| - 1];
      DropsMembers(init, targetName, threshold, morningAt, afternoonAt);
      assert forall i :: 0 <= i < |init| ==> init[i] == ts[i];
    }
  }

  datatype Report = Report(
    morning: seq<RpcResult>, afternoon: seq<RpcResult>, dropped: seq<DroppedTarget>,
    morningAbove: nat, afternoonAbove: nat)

  /**
   * The loop of `main` and the two reports: both lists sorted high to low, with
   * their counts of targets at or above the threshold.
   */
  method Compare(ts: seq<TargetRef>, targetName: string, threshold: real,
                 morningAt: Option<string> -> real, afternoonAt: Option<string> -> real)
    returns (report: Report)
    ensures var ms := Results(ts, targetName, morningAt);
      report.morning == SortDescBy(ms, ResultRpc) && report.morningAbove == CountAtLeast(ms, ResultRpc, threshold)
    ensures var as_ := Results(ts, targetName, afternoonAt);
      report.afternoon == SortDescBy(as_, ResultRpc) && report.afternoonAbove == CountAtLeast(as_, ResultRpc, threshold)
    ensures report.dropped == Drops(ts, targetName, threshold, morningAt, afternoonAt)
  {
    var morning: seq<RpcResult> := [];
    var afternoon: seq<RpcResult> := [];
    var dropped: seq<DroppedTarget> := [];
    var i := 0;
    while i < |ts|
      invariant i <= |ts|
      invariant morning == Results(ts[..i], targetName, morningAt)
      invariant afternoon == Results(ts[..i], targetName, afternoonAt)
      invariant dropped == Drops(ts[..i], targetName, threshold, morningAt, afternoonAt)
    {
      assert ts[..i + 1][..i] == ts[..i];
      var t := ts[i];
      if !Skipped(targetName, t) {
        var m := morningAt(t.id);
        morning := morning + [RpcResult(t.id, t.name, m)];
        var a := afternoonAt(t.id);
        afternoon := afternoon + [RpcResult(t.id, t.name, a)];
        if m >= threshold && a < threshold {
          dropped := dropped + [DroppedTarget(t.id, t.name, m, a, DropPercentage(m, a))];
        }
      }
      i := i + 1;
    }
    assert ts[..i] == ts;
    var ms := SortDescBy(morning, ResultRpc);
    var as_ := SortDescBy(afternoon, ResultRpc);
    SortDescByProps(morning, ResultRpc);
    SortDescByProps(afternoon, ResultRpc);
    CountAtLeastPermutation(ms, morning, ResultRpc, threshold);
    CountAtLeastPermutation(as_, afternoon, ResultRpc, threshold);
    report := Report(ms, as_, dropped, CountAtLeast(ms, ResultRpc, threshold), CountAtLeast(as_, ResultRpc, threshold));
  }

  /** The reports are ordered high to low and hold every listed target once. */
  lemma ReportOrder(ts: seq<TargetRef>, targetName: string, rpcAt: Option<string> -> real)
    ensures var rs := Results(ts, targetName, rpcAt);
      SortedDescBy(SortDescBy(rs, ResultRpc), ResultRpc) && multiset(SortDescBy(rs, ResultRpc)) == multiset(rs)
  {
    SortDescByProps(Results(ts, targetName, rpcAt), ResultRpc);
  }
}
