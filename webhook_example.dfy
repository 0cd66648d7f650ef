/**
 * The webhook variant of the monitor: a morning check rebuilds the dict of
 * monitored targets, and each incoming webhook compares the payload's RPC
 * with the monitored target's morning RPC. The target list and the RPC
 * lookups are inputs; the dict is the state of a class.
 */
module WebhookExample {
  import opened Common

  /** The fields of a webhook payload: `calls`, `revenue`, and `target.id` / `target.name` (None: absent). */
  datatype Payload = Payload(calls: Option<real>, revenue: Option<real>, targetId: Option<string>, targetName: Option<string>)

  /** `calculate_rpc_from_webhook`: `calls` defaults to 1 and `revenue` to 0. */
  function RpcFromWebhook(p: Payload): (rpc: real)
    ensures var calls := if p.calls.Some? then p.calls.value else 1.0;
      var revenue := if p.revenue.Some? then p.revenue.value else 0.0;
      (calls > 0.0 ==> rpc * calls == revenue) && (calls <= 0.0 ==> rpc == 0.0)
  {
    var calls := if p.calls.Some? then p.calls.value else 1.0;
    var revenue := if p.revenue.Some? then p.revenue.value else 0.0;
    if calls > 0.0 then revenue / calls else 0.0
  }

  /** Without a `calls` field the RPC is the revenue itself; with neither field it is 0. */
  lemma RpcFromWebhookDefaults(p: Payload)
    requires p.calls.None?
    ensures RpcFromWebhook(p) == if p.revenue.Some? then p.revenue.value else 0.0
  {
  }

  /** A target list entry: `id` and `name`. */
  datatype WebhookTarget = WebhookTarget(id: Option<string>, name: Option<string>)

  datatype Monitored = Monitored(id: Option<string>, name: Option<string>, morningRpc: real)

  datatype Alert = Alert(name: string, morningRpc: real, currentRpc: real, dropPercentage: real)

  /** The loop of `check_morning_targets` over targets whose RPC is known: those at or above the threshold are stored by id. */
  function Rebuild(targets: seq<WebhookTarget>, threshold: real, rpcOf: Option<string> -> Option<real>): KeyedDict<Option<string>, Monitored>
  {
    if |targets| == 0 then []
    else
      var rest := Rebuild(targets[..|targets| - 1], threshold, rpcOf);
      var t := targets[|targets| - 1];
      if rpcOf(t.id).Some? && rpcOf(t.id).value >= threshold then Put(rest, t.id, Monitored(t.id, t.name, rpcOf(t.id).value))
      else rest
  }

  predicate Stored(t: WebhookTarget, k: Option<string>, threshold: real, rpcOf: Option<string> -> Option<real>)
  {
    t.id == k && rpcOf(t.id).Some? && rpcOf(t.id).value >= threshold
  }

  /**
   * An id is monitored iff some target with that id has an RPC at or above the
   * threshold; its entry then holds that id, the RPC looked up for it, and the
   * name of the last such target, since a later one overwrites an earlier one.
   */
  lemma {:induction false} RebuildGet(targets: seq<WebhookTarget>, threshold: real, rpcOf: Option<string> -> Option<real>, k: Option<string>)
    ensures Get(Rebuild(targets, threshold, rpcOf), k).Some? <==> exists i :: 0 <= i < |targets| && Stored(targets[i], k, threshold, rpcOf)
    ensures Get(Rebuild(targets, threshold, rpcOf), k).Some? ==>
      Get(Rebuild(targets, threshold, rpcOf), k).value.morningRpc >= threshold &&
      Get(Rebuild(targets, threshold, rpcOf), k).value.id == k &&
      Get(Rebuild(targets, threshold, rpcOf), k).value.morningRpc == rpcOf(k).value
    ensures Get(Rebuild(targets, threshold, rpcOf), k).Some? ==>
      exists i :: 0 <= i < |targets| && Stored(targets[i], k, threshold, rpcOf) &&
        Get(Rebuild(targets, threshold, rpcOf), k).value.name == targets[i].name &&
        forall j :: i < j < |targets| ==> !Stored(targets[j], k, threshold, rpcOf)
  {
    if |targets| > 0 {
      var n := |targets| - 1;
      var init := targets[..n];
      var t := targets[n];
      var r0 := Rebuild(init, threshold, rpcOf);
      var r := Rebuild(targets, threshold, rpcOf);
      RebuildGet(init, threshold, rpcOf, k);
      assert forall i :: 0 <= i < n ==> init[i] == targets[i];
      if Stored(t, k, threshold, rpcOf) {
        PutGet(r0, t.id, Monitored(t.id, t.name, rpcOf(t.id).value), k);
        assert Get(r, k) == Some(Monitored(t.id, t.name, rpcOf(t.id).value));
        assert Stored(targets[n], k, threshold, rpcOf);
      } else {
        if rpcOf(t.id).Some? && rpcOf(t.id).value >= threshold {
          PutGet(r0, t.id, Monitored(t.id, t.name, rpcOf(t.id).value), k);
        }
        assert Get(r, k) == Get(r0, k);
        if exists i :: 0 <= i < |targets| && Stored(targets[i], k, threshold, rpcOf) {
          var i :| 0 <= i < |targets| && Stored(targets[i], k, threshold, rpcOf);
          assert i < n && Stored(init[i], k, threshold, rpcOf);
          var w :| 0 <= w < n && Stored(init[w], k, threshold, rpcOf) && Get(r0, k).value.name == init[w].name &&
            forall j :: w < j < n ==> !Stored(init[j], k, threshold, rpcOf);
          assert Stored(targets[w], k, threshold, rpcOf) && Get(r, k).value.name == targets[w].name;
          assert forall j :: w < j < |targets| ==> !Stored(targets[j], k, threshold, rpcOf);
        }
      }
    }
  }

  /** Where `check_morning_targets` stops: the first target whose RPC is None makes the RPC log line raise. */
  function Cut(targets: seq<WebhookTarget>, rpcOf: Option<string> -> Option<real>): (k: nat)
    ensures k <= |targets|
  {
    FirstIndex(targets, (t: WebhookTarget) => rpcOf(t.id).None?)
  }

  /** A payload `target` with a truthy id and name. */
  predicate HasTarget(p: Payload)
  {
    p.targetId.Some? && p.targetId.value != "" && p.targetName.Some? && p.targetName.value != ""
  }

  class WebhookMonitor {
    const threshold: real
    var monitoredTargets: KeyedDict<Option<string>, Monitored>

    constructor (threshold: real)
      ensures this.threshold == threshold && monitoredTargets == []
    {
      this.threshold := threshold;
      monitoredTargets := [];
    }

    /**
     * `check_morning_targets`: the dict is cleared, then refilled in list order. A
     * failed target list leaves it empty; a None RPC raises mid-loop and leaves the
     * targets before it.
     */
    method CheckMorningTargets(targetsData: Option<seq<WebhookTarget>>, rpcOf: Option<string> -> Option<real>)
      modifies this
      ensures targetsData.None? ==> monitoredTargets == []
      ensures targetsData.Some? ==>
        var ts := targetsData.value;
        monitoredTargets == Rebuild(ts[..Cut(ts, rpcOf)], threshold, rpcOf)
    {
      monitoredTargets := [];
      if targetsData.None? {
        return;
      }
      var ts := targetsData.value;
      var i := 0;
      while i < |ts| && rpcOf(ts[i].id).Some?
        invariant i <= |ts|
        invariant forall j :: 0 <= j < i ==> rpcOf(ts[j].id).Some?
        invariant monitoredTargets == Rebuild(ts[..i], threshold, rpcOf)
      {
        assert ts[..i + 1][..i] == ts[..i];
        var t := ts[i];
        var rpc := rpcOf(t.id).value;
        if rpc >= threshold {
          monitoredTargets := Put(monitoredTargets, t.id, Monitored(t.id, t.name, rpc));
        }
        i := i + 1;
      }
      FirstIndexIs(ts, (t: WebhookTarget) => rpcOf(t.id).None?, i);
    }

    /**
     * `rpc_webhook_handler`: 400 without a target id and name; an alert iff the
     * target is monitored, its current RPC is below and its morning RPC at or above
     * the threshold. The dict is only read. A morning RPC of 0 makes the drop
     * percentage divide by zero: a 500.
     */
    method RpcWebhookHandler(p: Payload) returns (status: nat, alert: Option<Alert>)
      ensures status == 400 <==> !HasTarget(p)
      ensures alert.Some? ==> status == 200
      ensures HasTarget(p) ==>
        var m := Get(monitoredTargets, p.targetId);
        var current := RpcFromWebhook(p);
        var due := m.Some? && current < threshold && m.value.morningRpc >= threshold;
        (due && m.value.morningRpc != 0.0 <==> alert.Some?) &&
        (due && m.value.morningRpc == 0.0 <==> status == 500) &&
        (alert.Some? ==> alert.value == Alert(p.targetName.value, m.value.morningRpc, current,
                                               (m.value.morningRpc - current) / m.value.morningRpc * 100.0))
    {
      if !HasTarget(p) {
        return 400, None;
      }
      var current := RpcFromWebhook(p);
      var m := Get(monitoredTargets, p.targetId);
      if m.Some? {
        var morning := m.value.morningRpc;
        if current < threshold && morning >= threshold {
          if morning == 0.0 {
            return 500, None;
          }
          return 200, Some(Alert(p.targetName.value, morning, current, (morning - current) / morning * 100.0));
        }
      }
      return 200, None;
    }
  }

  /** With a positive threshold an alert's drop percentage is positive. */
  lemma AlertDropPositive(threshold: real, morning: real, current: real)
    requires threshold > 0.0 && morning >= threshold && current < threshold
    ensures (morning - current) / morning * 100.0 > 0.0
  {
    assert (morning - current) / morning > 0.0;
  }
}
