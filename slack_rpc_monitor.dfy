/**
 * The Slack monitor built on the token client: the morning check stores the
 * enabled targets at or above $10 RPC, the afternoon check reports those
 * whose current RPC has fallen below $10. The stored baseline file and the
 * Slack messages posted are the state; RPC lookups and counts are inputs.
 */
module SlackRpcMonitor {
  import opened Common
  import opened RingbaApi

  const RpcThreshold: real := 10.0

  /** An entry of the target list: whether it is a dict, and its `id`, `name` and `enabled` truthiness. */
  datatype TargetEntry = TargetEntry(isDict: bool, id: Option<string>, name: Option<string>, enabled: bool)

  datatype BaselineTarget = BaselineTarget(id: Option<string>, name: string, rpc: real, calls: real, revenue: real)

  datatype Alert = Alert(
    id: Option<string>, name: string, rpc: real, morningRpc: real, rpcChange: real, calls: real, revenue: real)

  /** What is posted to Slack. */
  datatype SlackNotice =
    | AuthFailed
    | TargetsUnavailable
    | MorningReport(above: seq<BaselineTarget>)
    | NoneAbove
    | BaselineMissing
    | AfternoonReport(fell: seq<Alert>)
    | AllStillAbove(count: nat)

  /** Calls and revenue from dict-shaped counts (`totalCalls`, `payout`), else 0. */
  function CallsOf(counts: Option<Counts>): real
  {
    if counts.Some? && CountsTruthy(counts.value) && counts.value.CountsDict? then OrZero(counts.value.totalCalls) else 0.0
  }

  function RevenueOf(counts: Option<Counts>): real
  {
    if counts.Some? && CountsTruthy(counts.value) && counts.value.CountsDict? then OrZero(counts.value.payout) else 0.0
  }

  predicate InBaseline(t: TargetEntry, rpcOf: Option<string> -> Option<real>)
  {
    t.isDict && t.enabled && rpcOf(t.id).Some? && rpcOf(t.id).value >= RpcThreshold
  }

  function BaselineEntry(t: TargetEntry, rpcOf: Option<string> -> Option<real>, countsOf: Option<string> -> Option<Counts>): BaselineTarget
    requires rpcOf(t.id).Some?
  {
    BaselineTarget(t.id, NameOrUnknown(t.name), rpcOf(t.id).value, CallsOf(countsOf(t.id)), RevenueOf(countsOf(t.id)))
  }

  /** `targets_above_threshold` in list order. */
  function Baseline(targets: seq<TargetEntry>, rpcOf: Option<string> -> Option<real>, countsOf: Option<string> -> Option<Counts>): seq<BaselineTarget>
  {
    if |targets| == 0 then []
    else
      var rest := Baseline(targets[..|targets| - 1], rpcOf, countsOf);
      var t := targets[|targets| - 1];
      if InBaseline(t, rpcOf) then rest + [BaselineEntry(t, rpcOf, countsOf)] else rest
  }

  /** The baseline is exactly the enabled dict targets with a known RPC of at least $10. */
  lemma {:induction false} BaselineMembers(targets: seq<TargetEntry>, rpcOf: Option<string> -> Option<real>, countsOf: Option<string> -> Option<Counts>)
    ensures forall b :: b in Baseline(targets, rpcOf, countsOf) <==>
      exists i :: 0 <= i < |targets| && InBaseline(targets[i], rpcOf) && b == BaselineEntry(targets[i], rpcOf, countsOf)
    ensures forall b :: b in Baseline(targets, rpcOf, countsOf) ==> b.rpc >= RpcThreshold
  {
    if |targets| > 0 {
      var init := targets[..|targets| - 1];
      BaselineMembers(init, rpcOf, countsOf);
      forall b ensures b in Baseline(targets, rpcOf, countsOf) <==>
        exists i :: 0 <= i < |targets| && InBaseline(targets[i], rpcOf) && b == BaselineEntry(targets[i], rpcOf, countsOf)
      {
        if exists i :: 0 <= i < |targets| && InBaseline(targets[i], rpcOf) && b == BaselineEntry(targets[i], rpcOf, countsOf) {
          var i :| 0 <= i < |targets| && InBaseline(targets[i], rpcOf) && b == BaselineEntry(targets[i], rpcOf, countsOf);
          if i < |targets| - 1 {
            assert init[i] == targets[i];
          }
        }
        if b in Baseline(init, rpcOf, countsOf) {
          var i :| 0 <= i < |init| && InBaseline(init[i], rpcOf) && b == BaselineEntry(init[i], rpcOf, countsOf);
          assert targets[i] == init[i];
        }
      }
    }
  }

  function BaselineRpc(b: BaselineTarget): real
  {
    b.rpc
  }

  function AlertChange(a: Alert): real
  {
    a.rpcChange
  }

  predicate Fell(b: BaselineTarget, rpcOf: Option<string> -> Option<real>)
  {
    rpcOf(b.id).Some? && rpcOf(b.id).value < RpcThreshold
  }

  function AlertOf(b: BaselineTarget, rpcOf: Option<string> -> Option<real>, countsOf: Option<string> -> Option<Counts>): (a: Alert)
    requires rpcOf(b.id).Some?
    ensures a.rpcChange == a.rpc - a.morningRpc && a.morningRpc == b.rpc
  {
    var current := rpcOf(b.id).value;
    Alert(b.id, b.name, current, b.rpc, current - b.rpc, CallsOf(countsOf(b.id)), RevenueOf(countsOf(b.id)))
  }

  /** `targets_below_threshold` in baseline order. */
  function Alerts(baseline: seq<BaselineTarget>, rpcOf: Option<string> -> Option<real>, countsOf: Option<string> -> Option<Counts>): seq<Alert>
  {
    if |baseline| == 0 then []
    else
      var rest := Alerts(baseline[..|baseline| - 1], rpcOf, countsOf);
      var b := baseline[|baseline| - 1];
      if Fell(b, rpcOf) then rest + [AlertOf(b, rpcOf, countsOf)] else rest
  }

  /** The alerts are exactly the baseline targets whose current RPC is known and below $10. */
  lemma {:induction false} AlertsMembers(baseline: seq<BaselineTarget>, rpcOf: Option<string> -> Option<real>, countsOf: Option<string> -> Option<Counts>)
    ensures forall a :: a in Alerts(baseline, rpcOf, countsOf) <==>
      exists i :: 0 <= i < |baseline| && Fell(baseline[i], rpcOf) && a == AlertOf(baseline[i], rpcOf, countsOf)
    ensures forall a :: a in Alerts(baseline, rpcOf, countsOf) ==> a.rpc < RpcThreshold
  {
    if |baseline| > 0 {
      var init := baseline[..|baseline| - 1];
      AlertsMembers(init, rpcOf, countsOf);
      forall a ensures a in Alerts(baseline, rpcOf, countsOf) <==>
        exists i :: 0 <= i < |baseline| && Fell(baseline[i], rpcOf) && a == AlertOf(baseline[i], rpcOf, countsOf)
      {
        if exists i :: 0 <= i < |baseline| && Fell(baseline[i], rpcOf) && a == AlertOf(baseline[i], rpcOf, countsOf) {
          var i :| 0 <= i < |baseline| && Fell(baseline[i], rpcOf) && a == AlertOf(baseline[i], rpcOf, countsOf);
          if i < |baseline| - 1 {
            assert init[i] == baseline[i];
          }
        }
        if a in Alerts(init, rpcOf, countsOf) {
          var i :| 0 <= i < |init| && Fell(init[i], rpcOf) && a == AlertOf(init[i], rpcOf, countsOf);
          assert baseline[i] == init[i];
        }
      }
    }
  }

  /** A target stored in the morning whose RPC is now below $10 is always alerted, with a negative change. */
  lemma DropIsAlerted(
    targets: seq<TargetEntry>, i: nat, morningRpc: Option<string> -> Option<real>,
    currentRpc: Option<string> -> Option<real>, countsOf: Option<string> -> Option<Counts>)
    requires i < |targets| && InBaseline(targets[i], morningRpc)
    requires currentRpc(targets[i].id).Some? && currentRpc(targets[i].id).value < RpcThreshold
    ensures var b := BaselineEntry(targets[i], morningRpc, countsOf);
      AlertOf(b, currentRpc, countsOf) in Alerts(Baseline(targets, morningRpc, countsOf), currentRpc, countsOf) &&
      AlertOf(b, currentRpc, countsOf).rpcChange < 0.0
  {
    var baseline := Baseline(targets, morningRpc, countsOf);
    var b := BaselineEntry(targets[i], morningRpc, countsOf);
    BaselineMembers(targets, morningRpc, countsOf);
    assert b in baseline;
    var k :| 0 <= k < |baseline| && baseline[k] == b;
    AlertsMembers(baseline, currentRpc, countsOf);
  }

  /** The afternoon report: alerts in ascending order of RPC change (largest drop first), a permutation of the alerts. */
  lemma AfternoonReportOrder(baseline: seq<BaselineTarget>, rpcOf: Option<string> -> Option<real>, countsOf: Option<string> -> Option<Counts>)
    ensures var fell := Alerts(baseline, rpcOf, countsOf);
      SortedBy(SortBy(fell, AlertChange), AlertChange) && multiset(SortBy(fell, AlertChange)) == multiset(fell)
  {
    SortByProps(Alerts(baseline, rpcOf, countsOf), AlertChange);
  }

  /** The morning report: the baseline in descending RPC order, a permutation of it. */
  lemma MorningReportOrder(targets: seq<TargetEntry>, rpcOf: Option<string> -> Option<real>, countsOf: Option<string> -> Option<Counts>)
    ensures var b := Baseline(targets, rpcOf, countsOf);
      SortedDescBy(SortDescBy(b, BaselineRpc), BaselineRpc) && multiset(SortDescBy(b, BaselineRpc)) == multiset(b)
  {
    SortDescByProps(Baseline(targets, rpcOf, countsOf), BaselineRpc);
  }

  /** The baseline file `morning_targets.pkl` (None: missing) and the messages posted so far. */
  class SlackMonitor {
    var morningTargetsFile: Option<seq<BaselineTarget>>
    var outbox: seq<SlackNotice>

    constructor (file: Option<seq<BaselineTarget>>)
      ensures morningTargetsFile == file && outbox == []
    {
      morningTargetsFile := file;
      outbox := [];
    }

    /**
     * `morning_check`: the baseline is written (even when empty) before it is
     * sorted for the report. `credentials` is whether token and account ID
     * are set; `response` None is a failed target list.
     */
    method MorningCheck(
      credentials: bool, authOk: bool, response: Option<seq<TargetEntry>>,
      rpcOf: Option<string> -> Option<real>, countsOf: Option<string> -> Option<Counts>)
      modifies this
      ensures !credentials ==> morningTargetsFile == old(morningTargetsFile) && outbox == old(outbox)
      ensures credentials && !authOk ==> morningTargetsFile == old(morningTargetsFile) && outbox == old(outbox) + [AuthFailed]
      ensures credentials && authOk && response.None? ==>
        morningTargetsFile == old(morningTargetsFile) && outbox == old(outbox) + [TargetsUnavailable]
      ensures credentials && authOk && response.Some? ==>
        var b := Baseline(response.value, rpcOf, countsOf);
        morningTargetsFile == Some(b) &&
        outbox == old(outbox) + [if |b| > 0 then MorningReport(SortDescBy(b, BaselineRpc)) else NoneAbove]
    {
      if !credentials {
        return;
      }
      if !authOk {
        outbox := outbox + [AuthFailed];
        return;
      }
      if response.None? {
        outbox := outbox + [TargetsUnavailable];
        return;
      }
      var targets := response.value;
      var above: seq<BaselineTarget> := [];
      var i := 0;
      while i < |targets|
        invariant i <= |targets|
        invariant above == Baseline(targets[..i], rpcOf, countsOf)
      {
        assert targets[..i + 1][..i] == targets[..i];
        var t := targets[i];
        if t.isDict && t.enabled {
          var rpc := rpcOf(t.id);
          if rpc.Some? && rpc.value >= RpcThreshold {
            above := above + [BaselineEntry(t, rpcOf, countsOf)];
          }
        }
        i := i + 1;
      }
      assert targets[..|targets|] == targets;
      morningTargetsFile := Some(above);
      if |above| > 0 {
        outbox := outbox + [MorningReport(SortDescBy(above, BaselineRpc))];
      } else {
        outbox := outbox + [NoneAbove];
      }
    }

    /**
     * `afternoon_check`: a missing baseline file posts an alert and stops, an
     * empty baseline stops silently, otherwise the fallen targets are reported.
     */
    method AfternoonCheck(
      credentials: bool, authOk: bool,
      rpcOf: Option<string> -> Option<real>, countsOf: Option<string> -> Option<Counts>)
      modifies this
      ensures morningTargetsFile == old(morningTargetsFile)
      ensures !credentials ==> outbox == old(outbox)
      ensures credentials && morningTargetsFile.None? ==> outbox == old(outbox) + [BaselineMissing]
      ensures credentials && morningTargetsFile == Some([]) ==> outbox == old(outbox)
      ensures credentials && morningTargetsFile.Some? && morningTargetsFile.value != [] && !authOk ==>
        outbox == old(outbox) + [AuthFailed]
      ensures credentials && morningTargetsFile.Some? && morningTargetsFile.value != [] && authOk ==>
        var fell := Alerts(morningTargetsFile.value, rpcOf, countsOf);
        outbox == old(outbox) +
          [if |fell| > 0 then AfternoonReport(SortBy(fell, AlertChange)) else AllStillAbove(|morningTargetsFile.value|)]
    {
      if !credentials {
        return;
      }
      if morningTargetsFile.None? {
        outbox := outbox + [BaselineMissing];
        return;
      }
      var morning := morningTargetsFile.value;
      if morning == [] {
        return;
      }
      if !authOk {
        outbox := outbox + [AuthFailed];
        return;
      }
      var fell: seq<Alert> := [];
      var i := 0;
      while i < |morning|
        invariant i <= |morning|
        invariant fell == Alerts(morning[..i], rpcOf, countsOf)
      {
        assert morning[..i + 1][..i] == morning[..i];
        var b := morning[i];
        var current := rpcOf(b.id);
        if current.Some? && current.value < RpcThreshold {
          fell := fell + [AlertOf(b, rpcOf, countsOf)];
        }
        i := i + 1;
      }
      assert morning[..|morning|] == morning;
      if |fell| > 0 {
        outbox := outbox + [AfternoonReport(SortBy(fell, AlertChange))];
      } else {
        outbox := outbox + [AllStillAbove(|morning|)];
      }
    }
  }
}
