/**
 * The historical test with a saved baseline: a morning pass stores, by id,
 * the targets whose RPC is at or above the threshold, writes them to a JSON
 * file, reads them back, and an afternoon pass reports the stored targets
 * whose RPC fell below the threshold. The call-log RPCs, the current-stats
 * fallbacks and the random simulated drop are inputs (`Sources`); the JSON
 * file is a field of `HistoricalTest`.
 */
module TestHistorical {
  import opened Common
  import opened TestHistoricalCalllogs

  /** A stored morning target, the value `{'id', 'name', 'morning_rpc'}`. */
  datatype MorningEntry = MorningEntry(id: Option<string>, name: Option<string>, morningRpc: real)

  type Baseline = KeyedDict<Option<string>, MorningEntry>

  /**
   * The inputs of one run, by target id: the call-log RPCs of the two windows,
   * `calculate_rpc_for_target` at each check (None: it failed), and the random
   * drop factor when `random.choice` picked a simulation (None: it did not).
   */
  datatype Sources = Sources(
    morningLogs: Option<string> -> real,
    afternoonLogs: Option<string> -> real,
    morningStats: Option<string> -> Option<real>,
    afternoonStats: Option<string> -> Option<real>,
    simulatedDrop: Option<string> -> Option<real>)

  /** The morning RPC of a target: the call-log value, or the stats value when the logs give 0. */
  function MorningRpc(id: Option<string>, src: Sources): (r: Option<real>)
    ensures src.morningLogs(id) != 0.0 ==> r == Some(src.morningLogs(id))
    ensures src.morningLogs(id) == 0.0 ==> r == src.morningStats(id)
  {
    var rpc := src.morningLogs(id);
    if rpc == 0.0 then src.morningStats(id) else Some(rpc)
  }

  /** `morning_rpc * (1 - drop_percentage)`. */
  function Simulated(info: MorningEntry, drop: real): real
  {
    info.morningRpc * (1.0 - drop)
  }

  /**
   * The afternoon RPC of a stored target: the call-log value, or when it is 0 the
   * stats value, replaced by the simulated one only when that falls below the threshold.
   */
  function AfternoonRpc(k: Option<string>, info: MorningEntry, threshold: real, src: Sources): (r: Option<real>)
    ensures src.afternoonLogs(k) != 0.0 ==> r == Some(src.afternoonLogs(k))
    ensures src.afternoonLogs(k) == 0.0 && r != src.afternoonStats(k) ==>
      src.simulatedDrop(k).Some? && r == Some(Simulated(info, src.simulatedDrop(k).value)) && r.value < threshold
    ensures src.afternoonLogs(k) == 0.0 && src.simulatedDrop(k).None? ==> r == src.afternoonStats(k)
  {
    if src.afternoonLogs(k) != 0.0 then Some(src.afternoonLogs(k))
    else if src.simulatedDrop(k).Some? && Simulated(info, src.simulatedDrop(k).value) < threshold then
      Some(Simulated(info, src.simulatedDrop(k).value))
    else src.afternoonStats(k)
  }

  /** A kept target's morning RPC is unknown: the `:.2f` log line raises. */
  predicate MorningFails(t: TargetRef, targetName: string, src: Sources)
  {
    !Skipped(targetName, t) && MorningRpc(t.id, src).None?
  }

  /** The morning loop: None when it raises, else the baseline in insertion order. */
  function BaselineOf(ts: seq<TargetRef>, targetName: string, threshold: real, src: Sources): Option<Baseline>
  {
    if |ts| == 0 then Some([])
    else
      var t := ts[|ts| - 1];
      var rest := BaselineOf(ts[..|ts| - 1], targetName, threshold, src);
      if rest.None? then None
      else if Skipped(targetName, t) then rest
      else
        var rpc := MorningRpc(t.id, src);
        if rpc.None? then None
        else if rpc.value >= threshold then Some(Put(rest.value, t.id, MorningEntry(t.id, t.name, rpc.value)))
        else rest
  }

  /** The morning loop raises iff some kept target has no morning RPC. */
  lemma {:induction false} BaselineFails(ts: seq<TargetRef>, targetName: string, threshold: real, src: Sources)
    ensures BaselineOf(ts, targetName, threshold, src).None? <==> exists i :: 0 <= i < |ts| && MorningFails(ts[i], targetName, src)
  {
    if |ts| > 0 {
      var init := ts[..|ts| - 1];
      BaselineFails(init, targetName, threshold, src);
      assert forall i :: 0 <= i < |init| ==> init[i] == ts[i];
    }
  }

  predicate Stored(t: TargetRef, k: Option<string>, targetName: string, threshold: real, src: Sources)
  {
    !Skipped(targetName, t) && t.id == k && MorningRpc(t.id, src).Some? && MorningRpc(t.id, src).value >= threshold
  }

  /**
   * When the morning loop completes, an id is in the baseline iff some kept target
   * with that id has a morning RPC at or above the threshold; its entry carries that
   * id, the morning RPC of that id, and the name of the last such target, since a
   * later one overwrites an earlier one.
   */
  lemma BaselineGet(ts: seq<TargetRef>, targetName: string, threshold: real, src: Sources, k: Option<string>)
    requires BaselineOf(ts, targetName, threshold, src).Some?
    ensures var b := BaselineOf(ts, targetName, threshold, src).value;
      (Get(b, k).Some? <==> exists i :: 0 <= i < |ts| && Stored(ts[i], k, targetName, threshold, src)) &&
      (Get(b, k).Some? ==>
        Get(b, k).value.id == k && Get(b, k).value.morningRpc >= threshold &&
        Get(b, k).value.morningRpc == MorningRpc(k, src).value)
    ensures var b := BaselineOf(ts, targetName, threshold, src).value;
      Get(b, k).Some? ==>
        exists i :: 0 <= i < |ts| && Stored(ts[i], k, targetName, threshold, src) && Get(b, k).value.name == ts[i].name &&
          forall j :: i < j < |ts| ==> !Stored(ts[j], k, targetName, threshold, src)
  {
    BaselineGetValue(ts, targetName, threshold, src, k);
    var w := BaselineGetName(ts, targetName, threshold, src, k);
  }

  lemma {:induction false} BaselineGetValue(ts: seq<TargetRef>, targetName: string, threshold: real, src: Sources, k: Option<string>)
    requires BaselineOf(ts, targetName, threshold, src).Some?
    ensures var b := BaselineOf(ts, targetName, threshold, src).value;
      (Get(b, k).Some? <==> exists i :: 0 <= i < |ts| && Stored(ts[i], k, targetName, threshold, src)) &&
      (Get(b, k).Some? ==>
        Get(b, k).value.id == k && Get(b, k).value.morningRpc >= threshold &&
        Get(b, k).value.morningRpc == MorningRpc(k, src).value)
  {
    if |ts| > 0 {
      var n := |ts| - 1;
      var init := ts[..n];
      var t := ts[n];
      BaselineGetValue(init, targetName, threshold, src, k);
      assert forall i :: 0 <= i < n ==> init[i] == ts[i];
      if !Skipped(targetName, t) && MorningRpc(t.id, src).value >= threshold {
        var rest := BaselineOf(init, targetName, threshold, src).value;
        PutGet(rest, t.id, MorningEntry(t.id, t.name, MorningRpc(t.id, src).value), k);
      }
    }
  }

  lemma {:induction false} BaselineGetName(ts: seq<TargetRef>, targetName: string, threshold: real, src: Sources, k: Option<string>)
    returns (w: nat)
    requires BaselineOf(ts, targetName, threshold, src).Some?
    ensures var b := BaselineOf(ts, targetName, threshold, src).value;
      Get(b, k).Some? ==>
        w < |ts| && Stored(ts[w], k, targetName, threshold, src) && Get(b, k).value.name == ts[w].name &&
        forall j :: w < j < |ts| ==> !Stored(ts[j], k, targetName, threshold, src)
  {
    if |ts| == 0 {
      return 0;
    }
    var n := |ts| - 1;
    var init := ts[..n];
    BaselineGetStep(ts, targetName, threshold, src, k);
    if Stored(ts[n], k, targetName, threshold, src) {
      return n;
    }
    w := BaselineGetName(init, targetName, threshold, src, k);
    assert forall j :: 0 <= j < n ==> init[j] == ts[j];
  }

  /** One step of the morning loop, seen from one id: the last target overwrites the entry iff it is stored under that id. */
  lemma BaselineGetStep(ts: seq<TargetRef>, targetName: string, threshold: real, src: Sources, k: Option<string>)
    requires |ts| > 0 && BaselineOf(ts, targetName, threshold, src).Some?
    ensures BaselineOf(ts[..|ts| - 1], targetName, threshold, src).Some?
    ensures var t := ts[|ts| - 1];
      var b := BaselineOf(ts, targetName, threshold, src).value;
      var rest := BaselineOf(ts[..|ts| - 1], targetName, threshold, src).value;
      (Stored(t, k, targetName, threshold, src) ==> Get(b, k) == Some(MorningEntry(k, t.name, MorningRpc(k, src).value))) &&
      (!Stored(t, k, targetName, threshold, src) ==> Get(b, k) == Get(rest, k))
  {
    var t := ts[|ts| - 1];
    var rest := BaselineOf(ts[..|ts| - 1], targetName, threshold, src).value;
    if !Skipped(targetName, t) && MorningRpc(t.id, src).value >= threshold {
      PutGet(rest, t.id, MorningEntry(t.id, t.name, MorningRpc(t.id, src).value), k);
    }
  }

  /** The baseline has one entry per id, each entry under its own id and at or above the threshold. */
  lemma {:induction false} BaselineEntries(ts: seq<TargetRef>, targetName: string, threshold: real, src: Sources)
    requires BaselineOf(ts, targetName, threshold, src).Some?
    ensures var b := BaselineOf(ts, targetName, threshold, src).value;
      DistinctKeys(b) && forall j :: 0 <= j < |b| ==> b[j].1.id == b[j].0 && b[j].1.morningRpc >= threshold
  {
    if |ts| > 0 {
      var init := ts[..|ts| - 1];
      var t := ts[|ts| - 1];
      BaselineEntries(init, targetName, threshold, src);
      if !Skipped(targetName, t) && MorningRpc(t.id, src).value >= threshold {
        var rest := BaselineOf(init, targetName, threshold, src).value;
        var e := MorningEntry(t.id, t.name, MorningRpc(t.id, src).value);
        PutDistinct(rest, t.id, e);
        PutEntries(rest, t.id, e, threshold);
      }
    }
  }

  lemma PutEntries(b: Baseline, k: Option<string>, e: MorningEntry, threshold: real)
    requires forall j :: 0 <= j < |b| ==> b[j].1.id == b[j].0 && b[j].1.morningRpc >= threshold
    requires e.id == k && e.morningRpc >= threshold
    ensures var b' := Put(b, k, e); forall j :: 0 <= j < |b'| ==> b'[j].1.id == b'[j].0 && b'[j].1.morningRpc >= threshold
  {
    if |b| > 0 && b[0].0 != k {
      PutEntries(b[1..], k, e, threshold);
    }
  }

  /** A dropped target of the afternoon pass. */
  datatype Dropped = Dropped(id: Option<string>, name: Option<string>, morningRpc: real, afternoonRpc: real, dropPercentage: real)

  /** The afternoon pass raises at this entry: its RPC is unknown, or it dropped from a morning RPC of 0. */
  predicate AfternoonFails(e: (Option<string>, MorningEntry), threshold: real, src: Sources)
  {
    var a := AfternoonRpc(e.0, e.1, threshold, src);
    a.None? || (IsDrop(e.1.morningRpc, a.value, threshold) && e.1.morningRpc == 0.0)
  }

  function DroppedOf(e: (Option<string>, MorningEntry), a: real): Dropped
    requires e.1.morningRpc != 0.0
  {
    Dropped(e.0, e.1.name, e.1.morningRpc, a, (e.1.morningRpc - a) / e.1.morningRpc * 100.0)
  }

  /** The afternoon loop over the loaded entries: None when it raises, else the drops in entry order. */
  function BaselineDrops(b: Baseline, threshold: real, src: Sources): Option<seq<Dropped>>
  {
    if |b| == 0 then Some([])
    else
      var e := b[|b| - 1];
      var rest := BaselineDrops(b[..|b| - 1], threshold, src);
      var a := AfternoonRpc(e.0, e.1, threshold, src);
      if rest.None? || a.None? then None
      else if IsDrop(e.1.morningRpc, a.value, threshold) then
        if e.1.morningRpc == 0.0 then None else Some(rest.value + [DroppedOf(e, a.value)])
      else rest
  }

  /** The afternoon loop raises iff some entry fails. */
  lemma {:induction false} BaselineDropsFail(b: Baseline, threshold: real, src: Sources)
    ensures BaselineDrops(b, threshold, src).None? <==> exists j :: 0 <= j < |b| && AfternoonFails(b[j], threshold, src)
  {
    if |b| > 0 {
      var init := b[..|b| - 1];
      BaselineDropsFail(init, threshold, src);
      assert forall j :: 0 <= j < |init| ==> init[j] == b[j];
    }
  }

  /**
   * When the afternoon loop completes, an entry is reported iff its afternoon RPC
   * is below the threshold and its morning RPC at or above it.
   */
  lemma {:induction false} BaselineDropsMembers(b: Baseline, threshold: real, src: Sources)
    requires BaselineDrops(b, threshold, src).Some?
    ensures forall d :: d in BaselineDrops(b, threshold, src).value <==>
      exists j :: 0 <= j < |b| && AfternoonRpc(b[j].0, b[j].1, threshold, src).Some? &&
        IsDrop(b[j].1.morningRpc, AfternoonRpc(b[j].0, b[j].1, threshold, src).value, threshold) &&
        b[j].1.morningRpc != 0.0 && d == DroppedOf(b[j], AfternoonRpc(b[j].0, b[j].1, threshold, src).value)
  {
    if |b| > 0 {
      var init := b[..|b| - 1];
      BaselineDropsMembers(init, threshold, src);
      assert forall j :: 0 <= j < |init| ==> init[j] == b[j];
    }
  }

  /**
   * With a positive threshold the missing zero guard never bites on a baseline
   * built by the morning loop: every stored RPC is at least the threshold.
   */
  lemma {:induction false} PositiveThresholdNoZeroDivision(b: Baseline, threshold: real, src: Sources)
    requires threshold > 0.0
    requires forall j :: 0 <= j < |b| ==> b[j].1.morningRpc >= threshold
    requires forall j :: 0 <= j < |b| ==> AfternoonRpc(b[j].0, b[j].1, threshold, src).Some?
    ensures BaselineDrops(b, threshold, src).Some?
  {
    if |b| > 0 {
      var init := b[..|b| - 1];
      assert forall j :: 0 <= j < |init| ==> init[j] == b[j];
      PositiveThresholdNoZeroDivision(init, threshold, src);
    }
  }

  /** With a threshold of at most 0, a stored morning RPC of 0 that drops raises: the percentage has no zero guard. */
  lemma ZeroMorningDropRaises(b: Baseline, threshold: real, src: Sources, j: nat)
    requires j < |b| && b[j].1.morningRpc == 0.0 && threshold <= 0.0
    requires AfternoonRpc(b[j].0, b[j].1, threshold, src).Some? && AfternoonRpc(b[j].0, b[j].1, threshold, src).value < threshold
    ensures BaselineDrops(b, threshold, src).None?
  {
    BaselineDropsFail(b, threshold, src);
  }

  /** The first target with the given id gives its name (`Unknown` when it has none); no such target gives `Unknown`. */
  method TargetNameById(ts: seq<TargetRef>, id: Option<string>) returns (name: string)
    ensures (forall i :: 0 <= i < |ts| ==> ts[i].id != id) ==> name == "Unknown"
    ensures forall j :: 0 <= j < |ts| && ts[j].id == id && (forall i :: 0 <= i < j ==> ts[i].id != id) ==>
      name == NameOrUnknown(ts[j].name)
  {
    var i := 0;
    while i < |ts|
      invariant i <= |ts|
      invariant forall k :: 0 <= k < i ==> ts[k].id != id
    {
      if ts[i].id == id {
        return NameOrUnknown(ts[i].name);
      }
      i := i + 1;
    }
    return "Unknown";
  }

  datatype Notice =
    | AuthError
    | Started
    | NoActiveTargets
    | CheckingMorning
    | MorningFound(count: nat)
    | NoMorningTargets
    | Waiting
    | CheckingAfternoon
    | NoMorningForComparison
    | DroppedReport(dropped: seq<Dropped>)
    | NoneDropped
    | Completed
    | Error

  /** The notices of the afternoon pass over a loaded baseline. */
  function AfternoonNotices(b: Baseline, threshold: real, src: Sources): (r: seq<Notice>)
    ensures |b| == 0 <==> r == [NoMorningForComparison]
    ensures BaselineDrops(b, threshold, src).None? && |b| > 0 ==> r == [Error]
    ensures |b| > 0 && BaselineDrops(b, threshold, src).Some? ==>
      |r| == 2 && r[1] == Completed && (r[0] == NoneDropped <==> BaselineDrops(b, threshold, src).value == [])
    ensures |b| > 0 && BaselineDrops(b, threshold, src).Some? && |BaselineDrops(b, threshold, src).value| > 0 ==>
      r[0] == DroppedReport(BaselineDrops(b, threshold, src).value)
  {
    if |b| == 0 then [NoMorningForComparison]
    else
      var d := BaselineDrops(b, threshold, src);
      if d.None? then [Error]
      else (if |d.value| > 0 then [DroppedReport(d.value)] else [NoneDropped]) + [Completed]
  }

  class HistoricalTest {
    /** The contents of `test_morning_targets.json`; None while the file does not exist. */
    var morningTargetsFile: Option<Baseline>
    var outbox: seq<Notice>

    constructor (file: Option<Baseline>)
      ensures morningTargetsFile == file && outbox == []
    {
      morningTargetsFile := file;
      outbox := [];
    }

    /** `save_morning_targets`: the file is overwritten with the dict. */
    method SaveMorningTargets(targets: Baseline)
      modifies this
      ensures morningTargetsFile == Some(targets) && outbox == old(outbox)
    {
      morningTargetsFile := Some(targets);
    }

    /** `load_morning_targets`: `{}` without the file, else what was written, in the same order. */
    method LoadMorningTargets() returns (targets: Baseline)
      ensures morningTargetsFile.None? ==> targets == []
      ensures morningTargetsFile.Some? ==> targets == morningTargetsFile.value
    {
      if morningTargetsFile.None? {
        return [];
      }
      return morningTargetsFile.value;
    }

    /** The afternoon pass: load the baseline, then check each entry in order. */
    method AfternoonCheck(threshold: real, src: Sources)
      modifies this
      ensures morningTargetsFile == old(morningTargetsFile)
      ensures var b := if old(morningTargetsFile).Some? then old(morningTargetsFile).value else [];
        outbox == old(outbox) + AfternoonNotices(b, threshold, src)
    {
      var b := LoadMorningTargets();
      if |b| == 0 {
        outbox := outbox + [NoMorningForComparison];
        return;
      }
      var dropped: seq<Dropped> := [];
      var j := 0;
      while j < |b|
        invariant j <= |b|
        invariant morningTargetsFile == old(morningTargetsFile) && outbox == old(outbox)
        invariant BaselineDrops(b[..j], threshold, src) == Some(dropped)
      {
        assert b[..j + 1][..j] == b[..j];
        var (k, info) := b[j];
        var afternoon := src.afternoonLogs(k);
        var afternoonRpc: Option<real> := Some(afternoon);
        if afternoon == 0.0 {
          afternoonRpc := src.afternoonStats(k);
          var drop := src.simulatedDrop(k);
          if drop.Some? {
            var simulated := Simulated(info, drop.value);
            if simulated < threshold {
              afternoonRpc := Some(simulated);
            }
          }
        }
        if afternoonRpc.None? {
          BaselineDropsPrefixFails(b, threshold, src, j);
          outbox := outbox + [Error];
          return;
        }
        var a := afternoonRpc.value;
        if a < threshold && info.morningRpc >= threshold {
          if info.morningRpc == 0.0 {
            BaselineDropsPrefixFails(b, threshold, src, j);
            outbox := outbox + [Error];
            return;
          }
          dropped := dropped + [Dropped(k, info.name, info.morningRpc, a, (info.morningRpc - a) / info.morningRpc * 100.0)];
        }
        j := j + 1;
      }
      assert b[..j] == b;
      if |dropped| > 0 {
        outbox := outbox + [DroppedReport(dropped), Completed];
      } else {
        outbox := outbox + [NoneDropped, Completed];
      }
    }

    /**
     * `main`: missing settings end the run silently; failed authentication is
     * reported; then the morning pass, the save, and the afternoon pass over the
     * file just written. Any exception inside the main `try` becomes `Error`.
     * `targets` is the target list returned (None: the call failed).
     */
    method RunMain(settingsSet: bool, authOk: bool, targetName: string, threshold: real,
                targets: Option<seq<TargetRef>>, src: Sources)
      modifies this
      ensures !settingsSet ==> outbox == old(outbox) && morningTargetsFile == old(morningTargetsFile)
      ensures settingsSet && !authOk ==> outbox == old(outbox) + [AuthError] && morningTargetsFile == old(morningTargetsFile)
      ensures settingsSet && authOk && targets.None? ==>
        outbox == old(outbox) + [Started, Error] && morningTargetsFile == old(morningTargetsFile)
      ensures settingsSet && authOk && targets.Some? && |targets.value| == 0 ==>
        outbox == old(outbox) + [Started, NoActiveTargets] && morningTargetsFile == old(morningTargetsFile)
      ensures settingsSet && authOk && targets.Some? && |targets.value| > 0 ==>
        var b := BaselineOf(targets.value, targetName, threshold, src);
        (b.None? ==> outbox == old(outbox) + [Started, CheckingMorning, Error] && morningTargetsFile == old(morningTargetsFile)) &&
        (b.Some? ==> morningTargetsFile == b) &&
        (b.Some? && |b.value| == 0 ==> outbox == old(outbox) + [Started, CheckingMorning, NoMorningTargets]) &&
        (b.Some? && |b.value| > 0 ==>
          outbox == old(outbox) + [Started, CheckingMorning, MorningFound(|b.value|), Waiting, CheckingAfternoon] +
                    AfternoonNotices(b.value, threshold, src))
    {
      if !settingsSet {
        return;
      }
      if !authOk {
        outbox := outbox + [AuthError];
        return;
      }
      outbox := outbox + [Started];
      if targets.None? {
        outbox := outbox + [Error];
        return;
      }
      var ts := targets.value;
      if |ts| == 0 {
        outbox := outbox + [NoActiveTargets];
        return;
      }
      outbox := outbox + [CheckingMorning];
      var morningTargets: Baseline := [];
      var i := 0;
      while i < |ts|
        invariant i <= |ts|
        invariant morningTargetsFile == old(morningTargetsFile)
        invariant outbox == old(outbox) + [Started, CheckingMorning]
        invariant BaselineOf(ts[..i], targetName, threshold, src) == Some(morningTargets)
      {
        assert ts[..i + 1][..i] == ts[..i];
        var t := ts[i];
        if !Skipped(targetName, t) {
          var logs := src.morningLogs(t.id);
          var morningRpc: Option<real> := Some(logs);
          if logs == 0.0 {
            morningRpc := src.morningStats(t.id);
          }
          if morningRpc.None? {
            BaselinePrefixFails(ts, targetName, threshold, src, i);
            outbox := outbox + [Error];
            return;
          }
          if morningRpc.value >= threshold {
            morningTargets := Put(morningTargets, t.id, MorningEntry(t.id, t.name, morningRpc.value));
          }
        }
        i := i + 1;
      }
      assert ts[..i] == ts;
      SaveMorningTargets(morningTargets);
      if |morningTargets| == 0 {
        outbox := outbox + [NoMorningTargets];
        return;
      }
      outbox := outbox + [MorningFound(|morningTargets|), Waiting, CheckingAfternoon];
      AfternoonCheck(threshold, src);
    }
  }

  /** A morning loop that raises at target `i` raises on the whole list. */
  lemma {:induction false} BaselinePrefixFails(ts: seq<TargetRef>, targetName: string, threshold: real, src: Sources, i: nat)
    requires i < |ts| && MorningFails(ts[i], targetName, src)
    ensures BaselineOf(ts, targetName, threshold, src).None?
  {
    BaselineFails(ts, targetName, threshold, src);
  }

  /** An afternoon loop that raises at entry `j` raises on the whole baseline. */
  lemma {:induction false} BaselineDropsPrefixFails(b: Baseline, threshold: real, src: Sources, j: nat)
    requires j < |b| && AfternoonFails(b[j], threshold, src)
    ensures BaselineDrops(b, threshold, src).None?
  {
    BaselineDropsFail(b, threshold, src);
  }
}
