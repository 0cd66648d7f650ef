/**
 * The high-RPC probe: among the first ten enabled targets, report those whose
 * RPC for today is at least 12.00. The target list and the counts responses
 * are inputs.
 */
module TestHighRpc {
  import opened Common

  const HighRpc: real := 12.0
  const FirstChecked: nat := 10

  /** A target list item: whether it is a dict, its `id`, `name` and `enabled` (None: absent). */
  datatype ProbeTarget = ProbeTarget(isDict: bool, id: Option<string>, name: Option<string>, enabled: Option<bool>)

  /** `isinstance(t, dict) and t.get('enabled', False)`: an absent flag counts as disabled. */
  predicate EnabledHere(t: ProbeTarget)
  {
    t.isDict && t.enabled == Some(true)
  }

  function EnabledTargets(ts: seq<ProbeTarget>): (r: seq<ProbeTarget>)
    ensures |r| <= |ts|
    ensures forall t :: t in r <==> t in ts && EnabledHere(t)
  {
    if |ts| == 0 then []
    else
      var init := ts[..|ts| - 1];
      assert ts == init + [ts[|ts| - 1]];
      EnabledTargets(init) + (if EnabledHere(ts[|ts| - 1]) then [ts[|ts| - 1]] else [])
  }

  /** `enabled_targets[:10]`. */
  function Checked(es: seq<ProbeTarget>): (r: seq<ProbeTarget>)
    ensures |r| <= FirstChecked && |r| <= |es| && r == es[..|r|]
    ensures |es| >= FirstChecked ==> |r| == FirstChecked
    ensures |es| < FirstChecked ==> r == es
  {
    if |es| <= FirstChecked then es else es[..FirstChecked]
  }

  datatype HighTarget = HighTarget(id: Option<string>, name: string, calls: real, revenue: real, rpc: real)

  /** What checking one target gives: nothing, a high-RPC entry, or an exception (a non-numeric `totalCalls` or `payout`). */
  datatype Probe = NotHigh | High(target: HighTarget) | Raises

  /**
   * Only a non-empty dict of counts is read; a target with calls yields its RPC,
   * and it is reported iff that RPC is at least 12.00.
   */
  function ProbeOf(t: ProbeTarget, counts: Json): (p: Probe)
    ensures !(counts.JObj? && |counts.members| > 0) ==> p == NotHigh
    ensures p.High? ==> p.target.calls > 0.0 && p.target.rpc >= HighRpc && p.target.rpc * p.target.calls == p.target.revenue
    ensures p.High? ==> p.target.id == t.id && p.target.name == NameOrUnknown(t.name)
    ensures counts.JObj? && |counts.members| > 0 ==>
      var calls := JNumeric(JGetOr(counts.members, "totalCalls", JNum(0.0)));
      var revenue := JNumeric(JGetOr(counts.members, "payout", JNum(0.0)));
      (p.Raises? <==> calls.None? || (calls.value > 0.0 && revenue.None?)) &&
      (calls.Some? && calls.value > 0.0 && revenue.Some? ==> (p.High? <==> revenue.value / calls.value >= HighRpc))
  {
    if !(counts.JObj? && |counts.members| > 0) then NotHigh
    else
      var calls := JNumeric(JGetOr(counts.members, "totalCalls", JNum(0.0)));
      var revenue := JNumeric(JGetOr(counts.members, "payout", JNum(0.0)));
      if calls.None? then Raises
      else if calls.value <= 0.0 then NotHigh
      else if revenue.None? then Raises
      else
        var rpc := revenue.value / calls.value;
        if rpc >= HighRpc then High(HighTarget(t.id, NameOrUnknown(t.name), calls.value, revenue.value, rpc))
        else NotHigh
  }

  /** The loop over the checked targets: None when it raises, else the reported targets in order. */
  function HighTargets(cs: seq<ProbeTarget>, countsOf: Option<string> -> Json): Option<seq<HighTarget>>
  {
    if |cs| == 0 then Some([])
    else
      var t := cs[|cs| - 1];
      var rest := HighTargets(cs[..|cs| - 1], countsOf);
      var p := ProbeOf(t, countsOf(t.id));
      if rest.None? || p.Raises? then None
      else if p.High? then Some(rest.value + [p.target])
      else rest
  }

  /** When the loop completes, a target is reported iff checking it yields a high RPC; there is at most one report per checked target. */
  lemma {:induction false} HighTargetsMembers(cs: seq<ProbeTarget>, countsOf: Option<string> -> Json)
    requires HighTargets(cs, countsOf).Some?
    ensures |HighTargets(cs, countsOf).value| <= |cs|
    ensures forall h :: h in HighTargets(cs, countsOf).value <==>
      exists i :: 0 <= i < |cs| && ProbeOf(cs[i], countsOf(cs[i].id)) == High(h)
  {
    if |cs| > 0 {
      var init := cs[..|cs| - 1];
      HighTargetsMembers(init, countsOf);
      assert forall i :: 0 <= i < |init| ==> init[i] == cs[i];
    }
  }

  /** The loop raises iff checking some target raises. */
  lemma {:induction false} HighTargetsRaise(cs: seq<ProbeTarget>, countsOf: Option<string> -> Json)
    ensures HighTargets(cs, countsOf).None? <==> exists i :: 0 <= i < |cs| && ProbeOf(cs[i], countsOf(cs[i].id)).Raises?
  {
    if |cs| > 0 {
      var init := cs[..|cs| - 1];
      HighTargetsRaise(init, countsOf);
      assert forall i :: 0 <= i < |init| ==> init[i] == cs[i];
    }
  }

  /** A target with exactly 12.00 RPC is reported: the bound is inclusive. */
  lemma BoundaryIsReported(t: ProbeTarget)
    ensures ProbeOf(t, JObj([("totalCalls", JNum(2.0)), ("payout", JNum(24.0))])).High?
  {
    var m := [("totalCalls", JNum(2.0)), ("payout", JNum(24.0))];
    assert Get(m, "totalCalls") == Some(JNum(2.0));
    assert Get(m, "payout") == Some(JNum(24.0));
  }

  datatype ProbeOutcome = NotRun | Crashed | Reported(targets: seq<HighTarget>)

  /**
   * `main` after authentication: `response` is the target list of a response with
   * `targets` (None otherwise), `countsOf` today's counts by target id.
   */
  method TestHighRpcMain(authOk: bool, response: Option<seq<ProbeTarget>>, countsOf: Option<string> -> Json)
    returns (outcome: ProbeOutcome)
    ensures !authOk || response.None? ==> outcome == NotRun
    ensures authOk && response.Some? ==>
      var found := HighTargets(Checked(EnabledTargets(response.value)), countsOf);
      (found.None? <==> outcome == Crashed) && (found.Some? ==> outcome == Reported(found.value))
  {
    if !authOk || response.None? {
      return NotRun;
    }
    var checked := Checked(EnabledTargets(response.value));
    var highRpcTargets: seq<HighTarget> := [];
    var i := 0;
    while i < |checked|
      invariant i <= |checked|
      invariant HighTargets(checked[..i], countsOf) == Some(highRpcTargets)
    {
      assert checked[..i + 1][..i] == checked[..i];
      var t := checked[i];
      var counts := countsOf(t.id);
      if counts.JObj? && |counts.members| > 0 {
        var calls := JNumeric(JGetOr(counts.members, "totalCalls", JNum(0.0)));
        var revenue := JNumeric(JGetOr(counts.members, "payout", JNum(0.0)));
        if calls.None? {
          HighTargetsRaise(checked, countsOf);
          return Crashed;
        }
        if calls.value > 0.0 {
          if revenue.None? {
            HighTargetsRaise(checked, countsOf);
            return Crashed;
          }
          var rpc := revenue.value / calls.value;
          if rpc >= HighRpc {
            highRpcTargets := highRpcTargets + [HighTarget(t.id, NameOrUnknown(t.name), calls.value, revenue.value, rpc)];
          }
        }
      }
      i := i + 1;
    }
    assert checked[..i] == checked;
    return Reported(highRpcTargets);
  }

  /** A completed probe reports at most ten targets, each enabled, among the first ten enabled ones. */
  lemma ReportBounds(ts: seq<ProbeTarget>, countsOf: Option<string> -> Json)
    requires HighTargets(Checked(EnabledTargets(ts)), countsOf).Some?
    ensures var found := HighTargets(Checked(EnabledTargets(ts)), countsOf).value;
      |found| <= FirstChecked &&
      forall h :: h in found ==> exists t :: t in ts && EnabledHere(t) && t.id == h.id && ProbeOf(t, countsOf(t.id)) == High(h)
  {
    var cs := Checked(EnabledTargets(ts));
    HighTargetsMembers(cs, countsOf);
    forall h | h in HighTargets(cs, countsOf).value
      ensures exists t :: t in ts && EnabledHere(t) && t.id == h.id && ProbeOf(t, countsOf(t.id)) == High(h)
    {
      var i :| 0 <= i < |cs| && ProbeOf(cs[i], countsOf(cs[i].id)) == High(h);
      assert cs[i] in EnabledTargets(ts);
    }
  }
}
