/**
 * The target finder built on the documented request format: the targets
 * request whose success marks the API as working in `.env`
 * (`RINGBA_API_WORKING=true`), the follow-up requests on the first target, and
 * the closing summary. The two settings and every reply are inputs; printing
 * is left out.
 */
module FindTargetsExact {
  import opened Common
  import opened EnvFile

  /** How a run ends: the exit for a missing setting, an uncaught exception, or the summary with its verdict. */
  datatype ExactOutcome = MissingSetting | Crashed | Summary(found: bool)

  /** Printing one of the first targets does not raise: it is an object, and an `instructions` value answers `'number' in ...` and, when it does, `[...]['number']`. */
  predicate PrintsCleanly(t: Json)
  {
    t.JObj? &&
    (Get(t.members, "instructions").Some? ==>
      var inst := Get(t.members, "instructions").value;
      JIn("number", inst).Some? && (JIn("number", inst) == Some(true) ==> inst.JObj?))
  }

  /** `targets[:5]`. */
  function FirstFive(items: seq<Json>): (r: seq<Json>)
    ensures |r| == if |items| < 5 then |items| else 5
    ensures r == items[..|r|]
  {
    if |items| <= 5 then items else items[..5]
  }

  /**
   * The first reply reaches `update_env_file("RINGBA_API_WORKING", "true")`: a
   * 200 whose JSON object has a non-empty `targets` list whose first five
   * targets print without raising.
   */
  predicate MarksWorking(first: Reply)
  {
    first.Answered? && first.status == 200 && first.body.Some? && first.body.value.JObj? &&
    var t := Get(first.body.value.members, "targets");
    t.Some? && t.value.JArr? && |t.value.items| > 0 &&
    forall x :: x in FirstFive(t.value.items) ==> PrintsCleanly(x)
  }

  /** The loop printing the first targets: it gets through iff every target prints cleanly. */
  method PrintTargets(ts: seq<Json>) returns (ok: bool)
    ensures ok <==> forall x :: x in ts ==> PrintsCleanly(x)
  {
    var i := 0;
    while i < |ts|
      invariant i <= |ts|
      invariant forall j :: 0 <= j < i ==> PrintsCleanly(ts[j])
    {
      var target := ts[i];
      if !target.JObj? {
        assert ts[i] in ts && !PrintsCleanly(ts[i]);
        return false;
      }
      var inst := Get(target.members, "instructions");
      if inst.Some? {
        var hasNumber := JIn("number", inst.value);
        if hasNumber.None? || (hasNumber.value && !inst.value.JObj?) {
          assert ts[i] in ts && !PrintsCleanly(ts[i]);
          return false;
        }
      }
      i := i + 1;
    }
    assert forall x :: x in ts ==> exists j :: 0 <= j < |ts| && ts[j] == x;
    return true;
  }

  /** `status` and `data` after step 1; None where the name is unbound. */
  function StatusAfterFirst(first: Reply): Option<int>
  {
    if first.Answered? then Some(first.status) else None
  }

  function DataAfterFirst(first: Reply): Option<Json>
  {
    if first.Answered? && first.status == 200 then first.body else None
  }

  /**
   * `status == 200 and 'targets' in data and len(data['targets']) > 0`, with
   * Python's short-circuit; None where it raises (an unbound name, a value
   * that does not answer `in`, `[...]` or `len`).
   */
  function HasTargets(status: Option<int>, data: Option<Json>): (r: Option<bool>)
    ensures r.Some? ==> status.Some?
    ensures r == Some(true) ==> status == Some(200) && data.Some? && JIn("targets", data.value) == Some(true)
    ensures status.Some? && status.value != 200 ==> r == Some(false)
  {
    if status.None? then None
    else if status.value != 200 then Some(false)
    else if data.None? then None
    else match JIn("targets", data.value)
      case None => None
      case Some(false) => Some(false)
      case Some(true) =>
        var t := JSub(data.value, "targets");
        if t.None? then None
        else
          var n := JLen(t.value);
          if n.None? then None else Some(n.value > 0)
  }

  /** `data['targets'][0]['id']` and `['name']`: only a list whose first item is an object with both keys answers. */
  function FirstTargetId(data: Json): (r: Option<Json>)
    ensures r.Some? ==> data.JObj? && Get(data.members, "targets").Some?
  {
    var t := JSub(data, "targets");
    if t.Some? && t.value.JArr? && |t.value.items| > 0 && t.value.items[0].JObj? &&
       Get(t.value.items[0].members, "id").Some? && Get(t.value.items[0].members, "name").Some?
    then Get(t.value.items[0].members, "id")
    else None
  }

  /** A later request that answers reassigns `status`; one that raises leaves it. */
  function After(status: int, r: Reply): int
  {
    if r.Answered? then r.status else status
  }

  /** The summary's test `status == 200 and 'targets' in data`. */
  predicate SummaryFound(status: int, data: Option<Json>)
  {
    status == 200 && data.Some? && JIn("targets", data.value) == Some(true)
  }

  /** How `main` ends, given the settings and the replies to the targets, detail, counts and references requests. */
  function ExactRun(token: Option<string>, account: Option<string>, first: Reply, detail: Reply, counts: Reply, refs: Reply): ExactOutcome
  {
    if !Present(token) || !Present(account) then MissingSetting
    else
      var status := StatusAfterFirst(first);
      var data := DataAfterFirst(first);
      var has := HasTargets(status, data);
      if has.None? then Crashed
      else if !has.value then Summary(SummaryFound(status.value, data))
      else
        var id := FirstTargetId(data.value);
        if id.None? then Crashed
        else
          var s3 := After(status.value, detail);
          var s5 := if JTruthy(id.value) then After(After(s3, counts), refs) else s3;
          Summary(SummaryFound(s5, data))
  }

  /** The `.env` text after a run: `RINGBA_API_WORKING=true` is set only when the first reply marks the API as working. */
  function EnvAfterRun(text: Option<string>, token: Option<string>, account: Option<string>, first: Reply): (r: Option<string>)
    ensures r != text ==> Present(token) && Present(account) && MarksWorking(first) && text.Some?
  {
    if Present(token) && Present(account) && MarksWorking(first) then UpdatedText(text, "RINGBA_API_WORKING", "true") else text
  }

  /**
   * `main`: step 1 and its `.env` update, the test before step 3, steps 3 to 5
   * (only their statuses matter) and the summary.
   */
  method FindTargetsExactMain(env: DotEnv, token: Option<string>, account: Option<string>,
                              first: Reply, detail: Reply, counts: Reply, refs: Reply)
    returns (outcome: ExactOutcome)
    modifies env
    ensures outcome == ExactRun(token, account, first, detail, counts, refs)
    ensures env.text == EnvAfterRun(old(env.text), token, account, first)
  {
    if !Present(token) || !Present(account) {
      return MissingSetting;
    }
    var status: Option<int> := None;
    var data: Option<Json> := None;
    // 1. Any exception here is caught; only the `.env` update has an effect.
    if first.Answered? {
      status := Some(first.status);
      if first.status == 200 && first.body.Some? {
        data := first.body;
        var d := first.body.value;
        if JIn("targets", d) == Some(true) {
          var targets := JSub(d, "targets");
          if targets.Some? && targets.value.JArr? && |targets.value.items| > 0 {
            var printed := PrintTargets(FirstFive(targets.value.items));
            if printed {
              var _ := env.UpdateEnvFile("RINGBA_API_WORKING", "true");
            }
          }
        }
      }
    }
    // 3. The test is outside any `try`.
    var has := HasTargets(status, data);
    if has.None? {
      return Crashed;
    }
    var targetId: Option<Json> := None;
    if has.value {
      targetId := FirstTargetId(data.value);
      if targetId.None? {
        return Crashed;
      }
      if detail.Answered? {
        status := Some(detail.status);
      }
    }
    // 4. and 5.
    if targetId.Some? && JTruthy(targetId.value) {
      if counts.Answered? {
        status := Some(counts.status);
      }
      if refs.Answered? {
        status := Some(refs.status);
      }
    }
    return Summary(SummaryFound(status.value, data));
  }

  /** A first request that raises leaves `status` unbound: the test before step 3 raises. */
  lemma FirstRequestRaisedCrashes(token: string, account: string, detail: Reply, counts: Reply, refs: Reply)
    requires token != "" && account != ""
    ensures ExactRun(Some(token), Some(account), Raised, detail, counts, refs) == Crashed
  {
  }

  /** A 200 whose body is not JSON leaves `data` unbound: the test before step 3 raises. */
  lemma NonJsonSuccessCrashes(token: string, account: string, detail: Reply, counts: Reply, refs: Reply)
    requires token != "" && account != ""
    ensures ExactRun(Some(token), Some(account), Answered(200, None), detail, counts, refs) == Crashed
  {
  }

  /** An empty `targets` list is not marked as working, yet the summary reports success. */
  lemma EmptyTargetsReported(token: string, account: string, detail: Reply, counts: Reply, refs: Reply)
    requires token != "" && account != ""
    ensures var first := Answered(200, Some(JObj([("targets", JArr([]))])));
      !MarksWorking(first) && ExactRun(Some(token), Some(account), first, detail, counts, refs) == Summary(true)
  {
    var d := JObj([("targets", JArr([]))]);
    assert Get(d.members, "targets") == Some(JArr([]));
  }

  /** A 200 listing targets that are plain objects without `instructions` marks the API as working. */
  lemma PlainTargetsMarkWorking(ts: seq<seq<(string, Json)>>)
    requires |ts| > 0
    requires forall i :: 0 <= i < |ts| ==> Get(ts[i], "instructions").None?
    ensures var items := seq(|ts|, i requires 0 <= i < |ts| => JObj(ts[i]));
      MarksWorking(Answered(200, Some(JObj([("targets", JArr(items))]))))
  {
    var items := seq(|ts|, i requires 0 <= i < |ts| => JObj(ts[i]));
    var d := JObj([("targets", JArr(items))]);
    assert Get(d.members, "targets") == Some(JArr(items));
    forall x | x in FirstFive(items) ensures PrintsCleanly(x) {
      var k :| 0 <= k < |FirstFive(items)| && FirstFive(items)[k] == x;
      assert x == JObj(ts[k]);
    }
  }

  /**
   * When the first target's id is truthy, the summary judges the status of the
   * last of the three follow-up requests that answered, not the targets
   * request's: a raising counts request and a 404 references request make the
   * summary report failure even though the targets were found.
   */
  lemma SummaryJudgesLastStatus(token: string, account: string, id: string, detail: Reply)
    requires token != "" && account != "" && id != ""
    ensures var target := JObj([("id", JStr(id)), ("name", JStr("t"))]);
      var first := Answered(200, Some(JObj([("targets", JArr([target]))])));
      MarksWorking(first) &&
      ExactRun(Some(token), Some(account), first, detail, Raised, Answered(404, None)) == Summary(false) &&
      ExactRun(Some(token), Some(account), first, Answered(500, None), Raised, Raised) == Summary(false) &&
      ExactRun(Some(token), Some(account), first, Answered(500, None), Answered(200, None), Raised) == Summary(true)
  {
    var target := JObj([("id", JStr(id)), ("name", JStr("t"))]);
    var d := JObj([("targets", JArr([target]))]);
    assert Get(d.members, "targets") == Some(JArr([target]));
    assert Get(target.members, "id") == Some(JStr(id));
    assert target.members[0].0 != "name";
    assert Find(target.members[1..], "name") == Some(0);
    assert Find(target.members, "name") == Some(1);
    assert Get(target.members, "name") == Some(JStr("t"));
    assert Get(target.members, "instructions") == None;
    assert FirstFive([target]) == [target];
  }
}
