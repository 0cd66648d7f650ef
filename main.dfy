/**
 * The scheduled monitor of `main.py`: the morning check fills the global
 * `morning_targets` map (id to name and morning RPC), the afternoon check
 * reports the stored targets whose current RPC is below the threshold.
 * The map and the notifications sent are the state; the target list, the
 * authentication result and the RPC lookups are inputs.
 */
module Main {
  import opened Common
  import opened RingbaApi

  datatype MorningInfo = MorningInfo(name: string, morningRpc: real)

  /** `morning_targets`, keyed by the target's `id` (which may be missing). */
  type MorningTargets = KeyedDict<Option<string>, MorningInfo>

  datatype Dropped = Dropped(name: string, morningRpc: real, currentRpc: real, dropPercentage: real)

  /** The notifications sent to Slack. */
  datatype Notice =
    | MorningStarted
    | AuthError
    | NoneAbove
    | MorningSaved(count: nat, listed: seq<AboveTarget>)
    | NamedAbove(name: string, rpc: real)
    | NamedBelow(name: string, rpc: real)
    | TargetNotFound(name: string)
    | AfternoonStarted(count: nat)
    | NothingToCheck
    | DroppedAlert(dropped: seq<Dropped>)
    | NoneDropped
    | LoopError

  /** The decoded `get_all_targets` response: its keys in order, and its `targets` list. */
  datatype TargetsResponse = TargetsResponse(keys: seq<string>, targets: seq<TargetRecord>)

  function TargetsOf(response: Option<TargetsResponse>): Option<seq<TargetRecord>>
  {
    if response.Some? then Some(response.value.targets) else None
  }

  // ------------------------------------------------------------ "all" mode

  function InfoOf(a: AboveTarget): MorningInfo
  {
    MorningInfo(a.name, a.rpc)
  }

  /** `morning_targets[target_id] = {...}` for each target above the threshold, from an empty map. */
  function MorningMap(above: seq<AboveTarget>): MorningTargets
  {
    if |above| == 0 then []
    else Put(MorningMap(above[..|above| - 1]), above[|above| - 1].id, InfoOf(above[|above| - 1]))
  }

  /** Each id above the threshold is a key; its value comes from the last target with that id. */
  lemma {:induction false} MorningMapGet(above: seq<AboveTarget>, k: Option<string>)
    ensures Get(MorningMap(above), k).Some? <==> exists i :: 0 <= i < |above| && above[i].id == k
    ensures Get(MorningMap(above), k).Some? ==>
      exists i :: 0 <= i < |above| && above[i].id == k && Get(MorningMap(above), k).value == InfoOf(above[i]) &&
        forall j :: i < j < |above| ==> above[j].id != k
  {
    if |above| > 0 {
      var n := |above| - 1;
      var init := above[..n];
      MorningMapGet(init, k);
      PutGet(MorningMap(init), above[n].id, InfoOf(above[n]), k);
      if above[n].id != k {
        if Get(MorningMap(init), k).Some? {
          var i :| 0 <= i < n && init[i].id == k && Get(MorningMap(init), k).value == InfoOf(init[i]) &&
            forall j :: i < j < n ==> init[j].id != k;
          assert above[i] == init[i];
          assert forall j :: i < j < |above| ==> above[j].id != k by {
            forall j | i < j < |above| ensures above[j].id != k {
              if j < n { assert above[j] == init[j]; }
            }
          }
        }
        if exists i :: 0 <= i < |above| && above[i].id == k {
          var i :| 0 <= i < |above| && above[i].id == k;
          assert init[i] == above[i];
        }
      }
    }
  }

  /** The map's keys are distinct. */
  lemma {:induction false} MorningMapDistinct(above: seq<AboveTarget>)
    ensures DistinctKeys(MorningMap(above))
  {
    if |above| > 0 {
      MorningMapDistinct(above[..|above| - 1]);
      PutDistinct(MorningMap(above[..|above| - 1]), above[|above| - 1].id, InfoOf(above[|above| - 1]));
    }
  }

  /** In "all" mode every stored morning RPC is at least the threshold. */
  lemma StoredAboveThreshold(targets: seq<TargetRecord>, threshold: real, rpcOf: Option<string> -> Option<real>, k: Option<string>)
    ensures var m := MorningMap(AboveThreshold(targets, threshold, rpcOf));
      Get(m, k).Some? ==> Get(m, k).value.morningRpc >= threshold
  {
    var above := AboveThreshold(targets, threshold, rpcOf);
    MorningMapGet(above, k);
    AboveThresholdMembers(targets, threshold, rpcOf);
    if Get(MorningMap(above), k).Some? {
      var i :| 0 <= i < |above| && above[i].id == k && Get(MorningMap(above), k).value == InfoOf(above[i]) &&
        forall j :: i < j < |above| ==> above[j].id != k;
      assert above[i] in above;
    }
  }

  // ------------------------------------------------------------ named mode

  /** As written, `targets, _ = api.get_all_targets()` unpacks the response dict (or None) as a pair. */
  function NamedTargetsAsWritten(response: Option<TargetsResponse>): (r: Option<seq<TargetRecord>>)
    ensures r.Some? ==> r.value == []
  {
    // None, or a dict without exactly two keys: TypeError / ValueError.
    // Otherwise `targets` is the first key; its characters have no `get`, unless the key is empty.
    if response.None? || |response.value.keys| != 2 || response.value.keys[0] != "" then None
    else Some([])
  }

  /** The evidently intended list: the `targets` field; a failed request finds no target. */
  function NamedTargets(response: Option<TargetsResponse>): (r: seq<TargetRecord>)
    ensures response.Some? ==> r == response.value.targets
    ensures response.None? ==> r == []
  {
    if response.Some? then response.value.targets else []
  }

  /** As written, named mode raises for every response except a two-key dict whose first key is empty. */
  lemma NamedModeRaises(response: Option<TargetsResponse>)
    ensures NamedTargetsAsWritten(response).None? <==>
      response.None? || |response.value.keys| != 2 || response.value.keys[0] != ""
    ensures response == Some(TargetsResponse(["targets", "totalCount"], [TargetRecord(Some("t1"), Some("Acme"), true)])) ==>
      NamedTargetsAsWritten(response).None? && NamedTargets(response) == [TargetRecord(Some("t1"), Some("Acme"), true)]
  {
  }

  /** The loop's test: the name matches exactly and an RPC is known (a None RPC goes on to the next target). */
  function NamedMatch(targetName: string, rpcOf: Option<string> -> Option<real>): TargetRecord -> bool
  {
    (t: TargetRecord) => t.name == Some(targetName) && rpcOf(t.id).Some?
  }

  // ------------------------------------------------------------- afternoon

  predicate Falls(e: (Option<string>, MorningInfo), threshold: real, rpcOf: Option<string> -> Option<real>)
  {
    rpcOf(e.0).Some? && rpcOf(e.0).value < threshold
  }

  function DroppedEntry(e: (Option<string>, MorningInfo), current: real): Dropped
    requires e.1.morningRpc != 0.0
  {
    Dropped(e.1.name, e.1.morningRpc, current, (e.1.morningRpc - current) / e.1.morningRpc * 100.0)
  }

  /** `dropped_targets` in map order; None when a drop divides by a morning RPC of 0 (ZeroDivisionError). */
  function DroppedOf(m: MorningTargets, threshold: real, rpcOf: Option<string> -> Option<real>): Option<seq<Dropped>>
  {
    if |m| == 0 then Some([])
    else
      var rest := DroppedOf(m[..|m| - 1], threshold, rpcOf);
      var e := m[|m| - 1];
      if rest.None? then None
      else if !Falls(e, threshold, rpcOf) then rest
      else if e.1.morningRpc == 0.0 then None
      else Some(rest.value + [DroppedEntry(e, rpcOf(e.0).value)])
  }

  /**
   * The afternoon check raises only on a falling target stored with RPC 0; otherwise the
   * drops are exactly the stored targets whose known current RPC is below the threshold.
   */
  lemma {:induction false} DroppedMembers(m: MorningTargets, threshold: real, rpcOf: Option<string> -> Option<real>)
    ensures DroppedOf(m, threshold, rpcOf).None? <==>
      exists i :: 0 <= i < |m| && Falls(m[i], threshold, rpcOf) && m[i].1.morningRpc == 0.0
    ensures DroppedOf(m, threshold, rpcOf).Some? ==> forall d :: d in DroppedOf(m, threshold, rpcOf).value <==>
      exists i :: 0 <= i < |m| && Falls(m[i], threshold, rpcOf) && m[i].1.morningRpc != 0.0 &&
        d == DroppedEntry(m[i], rpcOf(m[i].0).value)
  {
    if |m| > 0 {
      var n := |m| - 1;
      var init := m[..n];
      DroppedMembers(init, threshold, rpcOf);
      assert forall i :: 0 <= i < n ==> init[i] == m[i];
      if DroppedOf(m, threshold, rpcOf).Some? {
        var r := DroppedOf(m, threshold, rpcOf).value;
        forall d ensures d in r <==>
          exists i :: 0 <= i < |m| && Falls(m[i], threshold, rpcOf) && m[i].1.morningRpc != 0.0 &&
            d == DroppedEntry(m[i], rpcOf(m[i].0).value)
        {
          if d in DroppedOf(init, threshold, rpcOf).value {
            var i :| 0 <= i < n && Falls(init[i], threshold, rpcOf) && init[i].1.morningRpc != 0.0 &&
              d == DroppedEntry(init[i], rpcOf(init[i].0).value);
            assert m[i] == init[i];
          }
        }
      }
    }
  }

  /** A stored target whose morning RPC was positive and is now lower has a positive drop percentage. */
  lemma DropPercentagePositive(e: (Option<string>, MorningInfo), current: real)
    requires e.1.morningRpc > 0.0 && current < e.1.morningRpc
    ensures DroppedEntry(e, current).dropPercentage > 0.0
  {
    var mr := e.1.morningRpc;
    assert (mr - current) / mr > 0.0;
  }

  /** After an "all"-mode morning with a positive threshold the afternoon check cannot raise. */
  lemma AllModeAfternoonSafe(targets: seq<TargetRecord>, threshold: real, morningRpc: Option<string> -> Option<real>,
                             currentRpc: Option<string> -> Option<real>)
    requires threshold > 0.0
    ensures DroppedOf(MorningMap(AboveThreshold(targets, threshold, morningRpc)), threshold, currentRpc).Some?
  {
    var m := MorningMap(AboveThreshold(targets, threshold, morningRpc));
    DroppedMembers(m, threshold, currentRpc);
    forall i | 0 <= i < |m| ensures m[i].1.morningRpc != 0.0 {
      GetIn(m, m[i].0);
      MorningMapDistinct(AboveThreshold(targets, threshold, morningRpc));
      assert Find(m, m[i].0) == Some(i);
      StoredAboveThreshold(targets, threshold, morningRpc, m[i].0);
    }
  }

  function DropKey(d: Dropped): real
  {
    d.dropPercentage
  }

  /** The afternoon notifications after the start notice. */
  function AfternoonNotices(m: MorningTargets, authOk: bool, threshold: real, rpcOf: Option<string> -> Option<real>): (r: seq<Notice>)
    ensures |r| == 1
    ensures r[0].DroppedAlert? ==> SortedDescBy(r[0].dropped, DropKey) && |r[0].dropped| > 0
  {
    if !authOk then [AuthError]
    else if |m| == 0 then [NothingToCheck]
    else
      var dropped := DroppedOf(m, threshold, rpcOf);
      if dropped.None? then [LoopError]
      else if |dropped.value| > 0 then (SortDescByProps(dropped.value, DropKey); SortByLength(dropped.value, DropKey); [DroppedAlert(SortDescBy(dropped.value, DropKey))])
      else [NoneDropped]
  }

  // --------------------------------------------------------------- startup

  const RequiredVars: seq<string> := ["RINGBA_API_TOKEN", "RINGBA_ACCOUNT_ID", "SLACK_WEBHOOK_URL", "TARGET_NAME", "RPC_THRESHOLD"]

  predicate IsSet(v: Option<string>)
  {
    v.Some? && v.value != ""
  }

  /** The required variables that are unset or empty, in order. */
  function Missing(vars: seq<string>, getenv: string -> Option<string>): seq<string>
  {
    if |vars| == 0 then []
    else Missing(vars[..|vars| - 1], getenv) + (if IsSet(getenv(vars[|vars| - 1])) then [] else [vars[|vars| - 1]])
  }

  lemma {:induction false} MissingMembers(vars: seq<string>, getenv: string -> Option<string>)
    ensures forall v :: v in Missing(vars, getenv) <==> v in vars && !IsSet(getenv(v))
  {
    if |vars| > 0 {
      var init := vars[..|vars| - 1];
      MissingMembers(init, getenv);
      assert vars == init + [vars[|vars| - 1]];
    }
  }

  method FindMissingVars(getenv: string -> Option<string>) returns (missing: seq<string>)
    ensures missing == Missing(RequiredVars, getenv)
  {
    missing := [];
    var i := 0;
    while i < |RequiredVars|
      invariant i <= |RequiredVars|
      invariant missing == Missing(RequiredVars[..i], getenv)
    {
      assert RequiredVars[..i + 1][..i] == RequiredVars[..i];
      if !IsSet(getenv(RequiredVars[i])) {
        missing := missing + [RequiredVars[i]];
      }
      i := i + 1;
    }
    assert RequiredVars[..i] == RequiredVars;
  }

  datatype Startup =
    | ExitMissing(missing: seq<string>)
    | ThresholdInvalid
    | ExitAuthFailed
    | Scheduled(targetName: string, threshold: real)

  /** `main` up to scheduling: exit(1) on a missing variable or a failed authentication. */
  function StartupOf(getenv: string -> Option<string>, authOk: bool): (s: Startup)
    ensures s.Scheduled? <==>
      (forall v :: v in RequiredVars ==> IsSet(getenv(v))) && PyFloat(getenv("RPC_THRESHOLD").value).Some? && authOk
    ensures s.ExitMissing? ==> |s.missing| > 0 && forall v :: v in s.missing <==> v in RequiredVars && !IsSet(getenv(v))
  {
    MissingMembers(RequiredVars, getenv);
    var missing := Missing(RequiredVars, getenv);
    if |missing| > 0 then
      assert missing[0] in missing;
      ExitMissing(missing)
    else
      assert forall v :: v in RequiredVars ==> v !in missing;
      var threshold := PyFloat(getenv("RPC_THRESHOLD").value);
      if threshold.None? then ThresholdInvalid
      else if !authOk then ExitAuthFailed
      else Scheduled(getenv("TARGET_NAME").value, threshold.value)
  }

  /** The loop filling `morning_targets` from an empty map, one target above the threshold at a time. */
  method BuildMorningMap(above: seq<AboveTarget>) returns (m: MorningTargets)
    ensures m == MorningMap(above)
  {
    m := [];
    var j := 0;
    while j < |above|
      invariant j <= |above|
      invariant m == MorningMap(above[..j])
    {
      assert above[..j + 1][..j] == above[..j];
      m := Put(m, above[j].id, InfoOf(above[j]));
      j := j + 1;
    }
    assert above[..j] == above;
  }

  /** The named-mode loop: the index of the first exact-name target with a known RPC, or the length. */
  method FindNamed(targets: seq<TargetRecord>, targetName: string, rpcOf: Option<string> -> Option<real>) returns (k: nat)
    ensures k == FirstIndex(targets, NamedMatch(targetName, rpcOf))
  {
    k := 0;
    while k < |targets| && !(targets[k].name == Some(targetName) && rpcOf(targets[k].id).Some?)
      invariant k <= |targets|
      invariant forall j :: 0 <= j < k ==> !NamedMatch(targetName, rpcOf)(targets[j])
    {
      k := k + 1;
    }
    FirstIndexIs(targets, NamedMatch(targetName, rpcOf), k);
  }

  // ------------------------------------------------------------- the state

  class RpcMonitor {
    var morningTargets: MorningTargets
    var outbox: seq<Notice>

    constructor ()
      ensures morningTargets == [] && outbox == []
    {
      morningTargets := [];
      outbox := [];
    }

    /**
     * `check_morning_rpc`. In "all" mode a non-empty result replaces the map; an
     * empty one returns first and keeps it. In named mode the first exact-name
     * target with a known RPC decides: at or above the threshold it becomes the
     * sole entry, below it the map is kept.
     */
    method CheckMorningRpc(authOk: bool, targetName: string, threshold: real,
                           response: Option<TargetsResponse>, rpcOf: Option<string> -> Option<real>)
      modifies this
      ensures |outbox| == |old(outbox)| + 2 && outbox[..|old(outbox)| + 1] == old(outbox) + [MorningStarted]
      ensures !authOk ==> outbox[|old(outbox)| + 1] == AuthError && morningTargets == old(morningTargets)
      ensures authOk && Lower(targetName) == "all" && response.None? ==>
        outbox[|old(outbox)| + 1] == NoneAbove && morningTargets == old(morningTargets)
      ensures authOk && Lower(targetName) == "all" && response.Some? ==>
        var above := AboveThreshold(response.value.targets, threshold, rpcOf);
        (|above| == 0 ==> outbox[|old(outbox)| + 1] == NoneAbove && morningTargets == old(morningTargets)) &&
        (|above| > 0 ==>
          morningTargets == MorningMap(above) && outbox[|old(outbox)| + 1] == MorningSaved(|MorningMap(above)|, above))
      ensures authOk && Lower(targetName) != "all" ==>
        var targets := NamedTargets(response);
        var i := FirstIndex(targets, NamedMatch(targetName, rpcOf));
        (i == |targets| ==> outbox[|old(outbox)| + 1] == TargetNotFound(targetName) && morningTargets == old(morningTargets)) &&
        (i < |targets| && rpcOf(targets[i].id).value >= threshold ==>
          morningTargets == [(targets[i].id, MorningInfo(targetName, rpcOf(targets[i].id).value))] &&
          outbox[|old(outbox)| + 1] == NamedAbove(targetName, rpcOf(targets[i].id).value)) &&
        (i < |targets| && rpcOf(targets[i].id).value < threshold ==>
          morningTargets == old(morningTargets) && outbox[|old(outbox)| + 1] == NamedBelow(targetName, rpcOf(targets[i].id).value))
    {
      outbox := outbox + [MorningStarted];
      if !authOk {
        outbox := outbox + [AuthError];
        return;
      }
      if Lower(targetName) == "all" {
        var above := FindTargetsAboveThreshold(threshold, TargetsOf(response), rpcOf);
        if |above| == 0 {
          outbox := outbox + [NoneAbove];
          return;
        }
        var m := BuildMorningMap(above);
        morningTargets := m;
        outbox := outbox + [MorningSaved(|m|, above)];
      } else {
        var targets := NamedTargets(response);
        var k := FindNamed(targets, targetName, rpcOf);
        if k == |targets| {
          outbox := outbox + [TargetNotFound(targetName)];
          return;
        }
        var t := targets[k];
        var rpc := rpcOf(t.id).value;
        if rpc >= threshold {
          morningTargets := [(t.id, MorningInfo(targetName, rpc))];
          outbox := outbox + [NamedAbove(targetName, rpc)];
        } else {
          outbox := outbox + [NamedBelow(targetName, rpc)];
        }
      }
    }

    /**
     * `check_afternoon_rpc`: never changes the map, so a later run alerts again.
     * A ZeroDivisionError inside the check ends in the main loop's error notice.
     */
    method CheckAfternoonRpc(authOk: bool, threshold: real, rpcOf: Option<string> -> Option<real>)
      modifies this
      ensures morningTargets == old(morningTargets)
      ensures outbox == old(outbox) + [AfternoonStarted(|morningTargets|)] + AfternoonNotices(morningTargets, authOk, threshold, rpcOf)
    {
      outbox := outbox + [AfternoonStarted(|morningTargets|)];
      if !authOk {
        outbox := outbox + [AuthError];
        return;
      }
      if |morningTargets| == 0 {
        outbox := outbox + [NothingToCheck];
        return;
      }
      var m := morningTargets;
      var dropped: seq<Dropped> := [];
      var i := 0;
      while i < |m|
        invariant i <= |m|
        invariant DroppedOf(m[..i], threshold, rpcOf) == Some(dropped)
      {
        assert m[..i + 1][..i] == m[..i];
        var current := rpcOf(m[i].0);
        if current.Some? && current.value < threshold {
          if m[i].1.morningRpc == 0.0 {
            DroppedPrefixRaises(m, i + 1, threshold, rpcOf);
            outbox := outbox + [LoopError];
            return;
          }
          dropped := dropped + [DroppedEntry(m[i], current.value)];
        }
        i := i + 1;
      }
      assert m[..i] == m;
      if |dropped| > 0 {
        outbox := outbox + [DroppedAlert(SortDescBy(dropped, DropKey))];
      } else {
        outbox := outbox + [NoneDropped];
      }
    }
  }

  /** Once a prefix raises, so does the whole map. */
  lemma {:induction false} DroppedPrefixRaises(m: MorningTargets, k: nat, threshold: real, rpcOf: Option<string> -> Option<real>)
    requires k <= |m| && DroppedOf(m[..k], threshold, rpcOf).None?
    ensures DroppedOf(m, threshold, rpcOf).None?
    decreases |m| - k
  {
    if k < |m| {
      assert m[..k + 1][..k] == m[..k];
      DroppedPrefixRaises(m, k + 1, threshold, rpcOf);
    } else {
      assert m[..k] == m;
    }
  }
}
