// The aggregation and fallback logic of the direct Ringba API client: per-target
// totals from call logs, the payout-field precedence, the threshold filter with
// per-tag counts, the UI-matching fallback chain, the comparison of the two RPC
// sources, the public-ID mapping and today's RPC from a target's counts. The
// records the HTTP calls return are parameters.

module RingbaDirectApi {
  import opened Common

  // ------------------------------------------------------------ record fields

  /** A field of a fetched JSON record, as the code inspects it. */
  datatype Field =
    | Missing                  // the key is absent
    | Null                     // present and `None`
    | Num(n: real)             // an int or a float
    | Flag(b: bool)            // a bool (an int in Python)
    | Text(s: string)
    | AmountDict(amount: Field) // a dict; `amount` is Missing when it has no 'amount' key
    | OtherValue(nonEmpty: bool) // a list or any other value

  /** `key in record and record[key] is not None`. */
  predicate Given(f: Field)
  {
    !f.Missing? && !f.Null?
  }

  /** Python truthiness of `record.get(key)`. */
  predicate Truthy(f: Field)
  {
    match f
    case Missing => false
    case Null => false
    case Num(n) => n != 0.0
    case Flag(b) => b
    case Text(s) => s != ""
    case AmountDict(_) => true
    case OtherValue(nonEmpty) => nonEmpty
  }

  /** `float(x)`, or None where Python raises. */
  function Float(f: Field): (r: Option<real>)
    ensures f.Num? ==> r == Some(f.n)
    ensures f.Text? ==> r == PyFloat(f.s)
    ensures !f.Num? && !f.Flag? && !f.Text? ==> r.None?
  {
    match f
    case Num(n) => Some(n)
    case Flag(b) => Some(if b then 1.0 else 0.0)
    case Text(s) => PyFloat(s)
    case _ => None
  }

  function OrZero(r: Option<real>): real
  {
    if r.Some? then r.value else 0.0
  }

  /**
   * An amount field: a number as it is, a string with `$` and `,` removed and then
   * parsed; a failed parse or any other type gives 0.
   */
  function CleanedAmount(f: Field): real
  {
    match f
    case Num(n) => n
    case Flag(b) => if b then 1.0 else 0.0
    case Text(s) => OrZero(PyFloat(CleanAmount(s)))
    case _ => 0.0
  }

  /** A dollar-and-digits text reads as its number. */
  lemma CleanedAmountDollar(n: nat)
    ensures CleanedAmount(Text("$" + NatToString(n))) == n as real
    ensures CleanedAmount(Text(NatToString(n))) == n as real
  {
    CleanAmountDollar(NatToString(n));
    CleanAmountNat(n);
  }

  // -------------------------------------------------------------- call logs

  /** One call-log record; an empty `targetId` stands for a missing or falsy one. */
  datatype CallLog = CallLog(targetId: string, targetName: Option<string>, hasConnected: Field,
                             payoutAmount: Field, payout: Field, conversionAmount: Field,
                             hasConverted: Field, rpc: Field, tagIds: seq<string>)

  /** `call.get("targetName", "Unknown Target")`. */
  function CallName(c: CallLog): string
  {
    if c.targetName.Some? then c.targetName.value else "Unknown Target"
  }

  /**
   * A call's payout in `get_dashboard_rpc`: `payoutAmount` if given, else `payout`
   * (a number, a cleaned string, or a dict's `amount` parsed as it is), else
   * `conversionAmount` when the call converted; 0 when nothing applies or parses.
   */
  function DashboardPayout(c: CallLog): real
  {
    if Given(c.payoutAmount) then CleanedAmount(c.payoutAmount)
    else if Given(c.payout) then
      if c.payout.AmountDict? then
        (if c.payout.amount.Missing? then 0.0 else OrZero(Float(c.payout.amount)))
      else CleanedAmount(c.payout)
    else if Given(c.conversionAmount) && Truthy(c.hasConverted) then CleanedAmount(c.conversionAmount)
    else 0.0
  }

  /** A given `payoutAmount` decides the payout whatever the other fields hold. */
  lemma PayoutAmountFirst(c: CallLog, payout: Field, conversion: Field, converted: Field)
    requires Given(c.payoutAmount)
    ensures DashboardPayout(c) == DashboardPayout(c.(payout := payout, conversionAmount := conversion,
                                                     hasConverted := converted))
    ensures DashboardPayout(c) == CleanedAmount(c.payoutAmount)
  {
  }

  /** Without `payoutAmount`, a given `payout` decides, whatever the conversion fields hold. */
  lemma PayoutSecond(c: CallLog, conversion: Field, converted: Field)
    requires !Given(c.payoutAmount) && Given(c.payout)
    ensures DashboardPayout(c) == DashboardPayout(c.(conversionAmount := conversion, hasConverted := converted))
  {
  }

  /** `conversionAmount` counts only for a call that converted, and only as the last resort. */
  lemma ConversionLast(c: CallLog)
    requires !Given(c.payoutAmount) && !Given(c.payout)
    ensures !Truthy(c.hasConverted) ==> DashboardPayout(c) == 0.0
    ensures Truthy(c.hasConverted) ==> DashboardPayout(c) == CleanedAmount(c.conversionAmount)
  {
  }

  /** Text that does not parse after cleaning leaves the payout at 0. */
  lemma PayoutUnparseable(c: CallLog)
    requires c.payoutAmount.Text? && PyFloat(CleanAmount(c.payoutAmount.s)).None?
    ensures DashboardPayout(c) == 0.0
  {
  }

  /** `"$25"` as `payoutAmount` pays 25, whatever the other fields hold. */
  lemma PayoutDollarText(c: CallLog, n: nat)
    requires c.payoutAmount == Text("$" + NatToString(n))
    ensures DashboardPayout(c) == n as real
  {
    CleanedAmountDollar(n);
  }

  // ---------------------------------------------------------------- targets

  /** A target as listed by the targets endpoint. */
  datatype TargetInfo = TargetInfo(id: Option<string>, name: Option<string>, enabled: Option<bool>)

  /** `{t.get('id'): t for t in all_targets if 'id' in t}.get(id)`: the last listed target with that id. */
  function LookupTarget(targets: seq<TargetInfo>, id: string): (r: Option<TargetInfo>)
    ensures r.Some? ==> r.value in targets && r.value.id == Some(id)
    ensures r.None? <==> forall t :: t in targets ==> t.id != Some(id)
  {
    if |targets| == 0 then None
    else
      var last := targets[|targets| - 1];
      if last.id == Some(id) then Some(last)
      else
        assert targets == targets[..|targets| - 1] + [last];
        LookupTarget(targets[..|targets| - 1], id)
  }

  /** A later duplicate id overrides an earlier one. */
  lemma {:induction false} LookupTargetLast(targets: seq<TargetInfo>, id: string, i: nat)
    requires i < |targets| && targets[i].id == Some(id)
    requires forall j :: i < j < |targets| ==> targets[j].id != Some(id)
    ensures LookupTarget(targets, id) == Some(targets[i])
    decreases |targets|
  {
    if i < |targets| - 1 {
      LookupTargetLast(targets[..|targets| - 1], id, i);
    }
  }

  /** `target_id in target_dict and target_dict[target_id].get("enabled", False)`. */
  predicate IsEnabled(targets: seq<TargetInfo>, id: string)
  {
    var t := LookupTarget(targets, id);
    t.Some? && t.value.enabled == Some(true)
  }

  /** The listed name of a target, or `default` when it is unlisted or has no name. */
  function TargetName(targets: seq<TargetInfo>, id: string, default: string): string
  {
    var t := LookupTarget(targets, id);
    if t.Some? && t.value.name.Some? then t.value.name.value else default
  }

  /** An unknown target is never enabled and takes the default name. */
  lemma UnknownTarget(targets: seq<TargetInfo>, id: string, default: string)
    requires forall t :: t in targets ==> t.id != Some(id)
    ensures !IsEnabled(targets, id) && TargetName(targets, id, default) == default
  {
  }

  // --------------------------------------------------------- public-id mapping

  /** An item of the `/targets/map` response; an empty string stands for a missing or falsy field. */
  datatype IdPair = IdPair(id: string, publicId: string)

  /** The mapping built from `/targets/map`: items with both ids, the last one winning. */
  function MappingFromPairs(items: seq<IdPair>): (m: map<string, string>)
    ensures forall k :: k in m ==> exists i :: 0 <= i < |items| && items[i].id == k && items[i].publicId == m[k]
  {
    if |items| == 0 then map[]
    else
      var m := MappingFromPairs(items[..|items| - 1]);
      var last := items[|items| - 1];
      if last.id != "" && last.publicId != "" then m[last.id := last.publicId] else m
  }

  /** An id is mapped iff some item has it together with a non-empty public id. */
  lemma {:induction false} MappingFromPairsKeys(items: seq<IdPair>, k: string)
    ensures k in MappingFromPairs(items) <==>
              exists i :: 0 <= i < |items| && items[i].id == k && k != "" && items[i].publicId != ""
    decreases |items|
  {
    if |items| > 0 {
      MappingFromPairsKeys(items[..|items| - 1], k);
      var init := items[..|items| - 1];
      assert forall i :: 0 <= i < |init| ==> init[i] == items[i];
    }
  }

  /** A mapped id carries the public id of its last complete item. */
  lemma {:induction false} MappingFromPairsLast(items: seq<IdPair>, i: nat)
    requires i < |items| && items[i].id != "" && items[i].publicId != ""
    requires forall j :: i < j < |items| ==> items[j].id != items[i].id || items[j].publicId == ""
    ensures items[i].id in MappingFromPairs(items) && MappingFromPairs(items)[items[i].id] == items[i].publicId
    decreases |items|
  {
    if i < |items| - 1 {
      MappingFromPairsLast(items[..|items| - 1], i);
    }
  }

  /**
   * A target's details as fetched one by one when `/targets/map` fails: its id
   * (empty when falsy) and the `publicId` of its details, None when the details
   * are missing or have no such key.
   */
  datatype DetailPair = DetailPair(id: string, publicId: Option<string>)

  /** `_build_mapping_from_details`: every target with an id and a `publicId` in its details. */
  function MappingFromDetails(details: seq<DetailPair>): (m: map<string, string>)
    ensures forall k :: k in m ==> exists i :: 0 <= i < |details| && details[i].id == k && details[i].publicId == Some(m[k])
  {
    if |details| == 0 then map[]
    else
      var m := MappingFromDetails(details[..|details| - 1]);
      var last := details[|details| - 1];
      if last.id != "" && last.publicId.Some? then m[last.id := last.publicId.value] else m
  }

  /** `get_target_public_id_mapping`: the map response when it came back, else the details. */
  function PublicIdMapping(response: Option<seq<IdPair>>, details: seq<DetailPair>): map<string, string>
  {
    if response.Some? then MappingFromPairs(response.value) else MappingFromDetails(details)
  }

  /** The id shown in UI links: the public id when mapped, else the internal id. */
  function PublicIdOf(mapping: map<string, string>, id: string): string
  {
    if id in mapping then mapping[id] else id
  }

  // -------------------------------------------------------- dashboard totals

  /** A target's entry in the dashboard result. */
  datatype Metrics = Metrics(id: string, internalId: string, name: string, calls: nat, connected: nat,
                             revenue: real, payout: real, enabled: bool, rpc: real)

  /** The grouping key of a call: its target id, or "" when it is skipped. */
  function DashKey(c: CallLog): string
  {
    if c.targetId != "" && Truthy(c.hasConnected) then c.targetId else ""
  }

  /** The entry a target's first kept call creates. */
  function DashStart(targets: seq<TargetInfo>, mapping: map<string, string>, c: CallLog): Metrics
  {
    Metrics(PublicIdOf(mapping, c.targetId), c.targetId, TargetName(targets, c.targetId, CallName(c)),
            0, 0, 0.0, 0.0, IsEnabled(targets, c.targetId), 0.0)
  }

  function DashStartFn(targets: seq<TargetInfo>, mapping: map<string, string>): CallLog -> Metrics
  {
    (c: CallLog) => DashStart(targets, mapping, c)
  }

  /** One more kept call of a target. */
  function DashStep(m: Metrics, c: CallLog): Metrics
  {
    var p := DashboardPayout(c);
    m.(calls := m.calls + 1, connected := m.connected + (if Truthy(c.hasConnected) then 1 else 0),
       revenue := m.revenue + p, payout := m.payout + p)
  }

  /** The per-target totals of `get_dashboard_rpc`, keyed by internal id in first-seen order. */
  function DashboardTotals(calls: seq<CallLog>, targets: seq<TargetInfo>, mapping: map<string, string>): Dict<Metrics>
  {
    GroupBy(calls, DashKey, DashStartFn(targets, mapping), DashStep)
  }

  function WithRpc(m: Metrics): Metrics
  {
    m.(rpc := if m.calls > 0 then m.revenue / m.calls as real else 0.0)
  }

  function ListMetrics(d: Dict<Metrics>): (r: seq<Metrics>)
    ensures |r| == |d| && forall k :: 0 <= k < |d| ==> r[k] == WithRpc(d[k].1)
  {
    seq(|d|, k requires 0 <= k < |d| => WithRpc(d[k].1))
  }

  function RpcOf(m: Metrics): real
  {
    m.rpc
  }

  /** `get_dashboard_rpc`: no call logs give `[]`; otherwise the totals sorted by decreasing RPC. */
  function DashboardRpc(callLogs: Option<seq<CallLog>>, targets: seq<TargetInfo>, mapping: map<string, string>): seq<Metrics>
  {
    if callLogs.None? || |callLogs.value| == 0 then []
    else SortDescBy(ListMetrics(DashboardTotals(callLogs.value, targets, mapping)), RpcOf)
  }

  /** The sum of the payouts of some calls. */
  function SumPayouts(calls: seq<CallLog>): real
  {
    if |calls| == 0 then 0.0 else SumPayouts(calls[..|calls| - 1]) + DashboardPayout(calls[|calls| - 1])
  }

  lemma {:induction false} DashFold(m: Metrics, rs: seq<CallLog>)
    requires forall i :: 0 <= i < |rs| ==> Truthy(rs[i].hasConnected)
    ensures FoldRows(m, rs, DashStep) ==
              m.(calls := m.calls + |rs|, connected := m.connected + |rs|,
                 revenue := m.revenue + SumPayouts(rs), payout := m.payout + SumPayouts(rs))
  {
    if |rs| > 0 {
      DashFold(m, rs[..|rs| - 1]);
    }
  }

  /**
   * A target's dashboard totals agree with its own connected calls: it is present iff
   * it has one, and then it counts them all as calls and as connected, sums their
   * payouts into both revenue and payout, and takes its ids, name and enabled flag
   * from the mapping, the target list and its first call.
   */
  lemma DashboardTotalsGet(calls: seq<CallLog>, targets: seq<TargetInfo>, mapping: map<string, string>, t: string)
    requires t != ""
    ensures DistinctKeys(DashboardTotals(calls, targets, mapping))
    ensures |RowsOf(calls, DashKey, t)| > 0 <==> exists c :: c in calls && c.targetId == t && Truthy(c.hasConnected)
    ensures Get(DashboardTotals(calls, targets, mapping), t).Some? <==> |RowsOf(calls, DashKey, t)| > 0
    ensures |RowsOf(calls, DashKey, t)| > 0 ==>
              var rs := RowsOf(calls, DashKey, t);
              Get(DashboardTotals(calls, targets, mapping), t) ==
                Some(Metrics(PublicIdOf(mapping, t), t, TargetName(targets, t, CallName(rs[0])), |rs|, |rs|,
                             SumPayouts(rs), SumPayouts(rs), IsEnabled(targets, t), 0.0))
  {
    GroupByGet(calls, DashKey, DashStartFn(targets, mapping), DashStep, t);
    RowsOfMembers(calls, DashKey, t);
    var rs := RowsOf(calls, DashKey, t);
    if |rs| > 0 {
      assert rs[0] in rs;
      assert DashKey(rs[0]) == t;
      assert forall i :: 0 <= i < |rs| ==> DashKey(rs[i]) == t;
      DashFold(DashStart(targets, mapping, rs[0]), rs);
    }
  }

  /** Every entry of the totals is keyed by its internal id and counts only connected calls. */
  lemma TotalsEntry(calls: seq<CallLog>, targets: seq<TargetInfo>, mapping: map<string, string>, k: nat)
    requires k < |DashboardTotals(calls, targets, mapping)|
    ensures var e := DashboardTotals(calls, targets, mapping)[k];
            e.0 != "" && e.1.internalId == e.0 && e.1.calls >= 1 && e.1.connected == e.1.calls &&
            e.1.revenue == e.1.payout && e.1.id == PublicIdOf(mapping, e.0) && e.1.enabled == IsEnabled(targets, e.0)
  {
    var d := DashboardTotals(calls, targets, mapping);
    GroupByEntry(calls, DashKey, DashStartFn(targets, mapping), DashStep, k);
    DashboardTotalsGet(calls, targets, mapping, d[k].0);
  }

  /**
   * Every target of the dashboard result has at least one call, as many connected
   * calls as calls, equal revenue and payout, `rpc = revenue / calls`, and the UI id
   * and enabled flag of its internal id.
   */
  lemma DashboardEntries(callLogs: Option<seq<CallLog>>, targets: seq<TargetInfo>, mapping: map<string, string>, m: Metrics)
    requires m in DashboardRpc(callLogs, targets, mapping)
    ensures m.internalId != "" && m.calls >= 1 && m.connected == m.calls && m.revenue == m.payout
    ensures m.rpc == m.revenue / m.calls as real
    ensures m.id == PublicIdOf(mapping, m.internalId) && m.enabled == IsEnabled(targets, m.internalId)
  {
    var calls := callLogs.value;
    var d := DashboardTotals(calls, targets, mapping);
    var l := ListMetrics(d);
    assert DashboardRpc(callLogs, targets, mapping) == SortDescBy(l, RpcOf);
    SortDescByProps(l, RpcOf);
    assert m in multiset(l);
    assert m in l;
    var k :| 0 <= k < |l| && l[k] == m;
    TotalsEntry(calls, targets, mapping, k);
    assert m == WithRpc(d[k].1);
  }

  /** A target appears in the dashboard result iff one of its calls connected. */
  lemma DashboardCovers(calls: seq<CallLog>, targets: seq<TargetInfo>, mapping: map<string, string>, t: string)
    requires t != "" && |calls| > 0
    ensures (exists m :: m in DashboardRpc(Some(calls), targets, mapping) && m.internalId == t) <==>
              (exists c :: c in calls && c.targetId == t && Truthy(c.hasConnected))
  {
    var d := DashboardTotals(calls, targets, mapping);
    var l := ListMetrics(d);
    var r := DashboardRpc(Some(calls), targets, mapping);
    assert r == SortDescBy(l, RpcOf);
    SortDescByProps(l, RpcOf);
    DashboardTotalsGet(calls, targets, mapping, t);
    if exists m :: m in r && m.internalId == t {
      var m :| m in r && m.internalId == t;
      assert m in multiset(l);
      var k :| 0 <= k < |l| && l[k] == m;
      TotalsEntry(calls, targets, mapping, k);
      GetDistinct(d, k);
    }
    if Get(d, t).Some? {
      var k := Find(d, t).value;
      TotalsEntry(calls, targets, mapping, k);
      assert l[k].internalId == t;
      assert l[k] in multiset(r);
    }
  }

  /** The dashboard result is ordered by decreasing RPC and holds each target's totals once. */
  lemma DashboardSorted(calls: seq<CallLog>, targets: seq<TargetInfo>, mapping: map<string, string>)
    requires |calls| > 0
    ensures SortedDescBy(DashboardRpc(Some(calls), targets, mapping), RpcOf)
    ensures multiset(DashboardRpc(Some(calls), targets, mapping)) ==
              multiset(ListMetrics(DashboardTotals(calls, targets, mapping)))
  {
    SortDescByProps(ListMetrics(DashboardTotals(calls, targets, mapping)), RpcOf);
  }

  /** `get_dashboard_rpc`: one loop folds the calls into `target_metrics`, a second adds the RPC. */
  method GetDashboardRpc(callLogs: Option<seq<CallLog>>, targets: seq<TargetInfo>, mapping: map<string, string>)
    returns (result: seq<Metrics>)
    ensures result == DashboardRpc(callLogs, targets, mapping)
    ensures callLogs.None? || |callLogs.value| == 0 ==> result == []
  {
    if callLogs.None? || |callLogs.value| == 0 {
      return [];
    }
    var metrics := FoldDashboard(callLogs.value, targets, mapping);
    var listed := AddRpc(metrics);
    result := SortDescBy(listed, RpcOf);
  }

  /** The first loop of `get_dashboard_rpc`: each connected call adds to its target's totals. */
  method FoldDashboard(calls: seq<CallLog>, targets: seq<TargetInfo>, mapping: map<string, string>)
    returns (metrics: Dict<Metrics>)
    ensures metrics == DashboardTotals(calls, targets, mapping)
  {
    metrics := [];
    var i := 0;
    while i < |calls|
      invariant 0 <= i <= |calls|
      invariant metrics == DashboardTotals(calls[..i], targets, mapping)
    {
      var call := calls[i];
      assert calls[..i + 1][..i] == calls[..i];
      assert DashboardTotals(calls[..i + 1], targets, mapping) ==
               GroupAdd(metrics, call, DashKey, DashStartFn(targets, mapping), DashStep);
      if call.targetId != "" && Truthy(call.hasConnected) {
        var found := Get(metrics, call.targetId);
        var m := if found.Some? then found.value else DashStart(targets, mapping, call);
        var payout := DashboardPayout(call);
        var connected := m.connected + (if Truthy(call.hasConnected) then 1 else 0);
        var next := m.(calls := m.calls + 1, connected := connected,
                       revenue := m.revenue + payout, payout := m.payout + payout);
        assert next == DashStep(m, call);
        metrics := Put(metrics, call.targetId, next);
      }
      i := i + 1;
    }
    assert calls[..i] == calls;
  }

  /** The second loop of `get_dashboard_rpc`: each target's totals with `rpc = revenue / calls`. */
  method AddRpc(metrics: Dict<Metrics>) returns (listed: seq<Metrics>)
    ensures listed == ListMetrics(metrics)
  {
    listed := [];
    var j := 0;
    while j < |metrics|
      invariant 0 <= j <= |metrics|
      invariant listed == ListMetrics(metrics[..j])
    {
      var m := metrics[j].1;
      var rpc := 0.0;
      if m.calls > 0 {
        rpc := m.revenue / m.calls as real;
      }
      listed := listed + [m.(rpc := rpc)];
      j := j + 1;
    }
    assert metrics[..j] == metrics;
  }

  // ------------------------------------------------- targets above threshold

  /** An insights row; a missing metric reads as 0 (`item.get(..., 0)`). */
  datatype InsightItem = InsightItem(targetId: string, rpc: real, calls: real, revenue: real, connected: real)

  /** A tag as listed by the tags endpoint. */
  datatype TagInfo = TagInfo(id: Option<string>, name: Option<string>)

  /** `tags_dict.get(tag_id, {}).get("name", "Unknown Tag")`. */
  function TagName(tags: seq<TagInfo>, tagId: string): string
  {
    if |tags| == 0 then "Unknown Tag"
    else
      var last := tags[|tags| - 1];
      if last.id == Some(tagId) then (if last.name.Some? then last.name.value else "Unknown Tag")
      else TagName(tags[..|tags| - 1], tagId)
  }

  /** An unlisted tag counts under 'Unknown Tag'. */
  lemma {:induction false} UnknownTag(tags: seq<TagInfo>, tagId: string)
    requires forall t :: t in tags ==> t.id != Some(tagId)
    ensures TagName(tags, tagId) == "Unknown Tag"
    decreases |tags|
  {
    if |tags| > 0 {
      assert forall t :: t in tags[..|tags| - 1] ==> t in tags;
      UnknownTag(tags[..|tags| - 1], tagId);
    }
  }

  /** `calls_by_target[target_id]`: the target's calls in order. */
  function CallsOf(callLogs: Option<seq<CallLog>>, t: string): (r: seq<CallLog>)
    ensures forall c :: c in r ==> c.targetId == t
  {
    if callLogs.None? || t == "" then []
    else Filtered(callLogs.value, t)
  }

  function Filtered(calls: seq<CallLog>, t: string): (r: seq<CallLog>)
    ensures forall c :: c in r ==> c.targetId == t
    ensures forall c :: c in calls && c.targetId == t ==> c in r
  {
    if |calls| == 0 then []
    else
      assert calls == calls[..|calls| - 1] + [calls[|calls| - 1]];
      Filtered(calls[..|calls| - 1], t) + (if calls[|calls| - 1].targetId == t then [calls[|calls| - 1]] else [])
  }

  /** The tag names of the calls' tag ids, one per occurrence. */
  function TagNames(calls: seq<CallLog>, tags: seq<TagInfo>): (r: seq<string>)
    ensures |r| == TagOccurrences(calls)
  {
    if |calls| == 0 then []
    else TagNames(calls[..|calls| - 1], tags) + NamesOf(calls[|calls| - 1].tagIds, tags)
  }

  function NamesOf(ids: seq<string>, tags: seq<TagInfo>): (r: seq<string>)
    ensures |r| == |ids| && forall k :: 0 <= k < |ids| ==> r[k] == TagName(tags, ids[k])
  {
    seq(|ids|, k requires 0 <= k < |ids| => TagName(tags, ids[k]))
  }

  /** The number of tag ids over the calls. */
  function TagOccurrences(calls: seq<CallLog>): nat
  {
    if |calls| == 0 then 0 else TagOccurrences(calls[..|calls| - 1]) + |calls[|calls| - 1].tagIds|
  }

  /**
   * The per-name tag counts of a target: each name counts the tag-id occurrences
   * that carry it, and the counts add up to all tag-id occurrences over the calls.
   */
  lemma TagCountsMeaning(calls: seq<CallLog>, tags: seq<TagInfo>, name: string)
    ensures var names := TagNames(calls, tags);
            Get(Tally(names), name) == if multiset(names)[name] == 0 then None else Some(multiset(names)[name])
    ensures SumCounts(Tally(TagNames(calls, tags))) == TagOccurrences(calls)
  {
    TallyGet(TagNames(calls, tags), name);
    TallySum(TagNames(calls, tags));
  }

  /** The inner loops of `get_targets_above_threshold` that fill `target_tags`. */
  lemma NamesOfSnoc(ids: seq<string>, j: nat, tags: seq<TagInfo>)
    requires j < |ids|
    ensures NamesOf(ids[..j + 1], tags) == NamesOf(ids[..j], tags) + [TagName(tags, ids[j])]
  {
  }

  /** One tag more in the tally. */
  lemma TallyNamesStep(before: seq<string>, ids: seq<string>, j: nat, tags: seq<TagInfo>)
    requires j < |ids|
    ensures var d := Tally(before + NamesOf(ids[..j], tags)); var name := TagName(tags, ids[j]);
      Tally(before + NamesOf(ids[..j + 1], tags)) == Put(d, name, (if Get(d, name).Some? then Get(d, name).value else 0) + 1)
  {
    NamesOfSnoc(ids, j, tags);
    assert before + NamesOf(ids[..j + 1], tags) == (before + NamesOf(ids[..j], tags)) + [TagName(tags, ids[j])];
    TallySnoc(before + NamesOf(ids[..j], tags), TagName(tags, ids[j]));
  }

  /** The inner loop over one call's tag ids: each adds one to its name's count. */
  method AddTagNames(counts0: Dict<nat>, ghost before: seq<string>, ids: seq<string>, tags: seq<TagInfo>)
    returns (counts: Dict<nat>)
    requires counts0 == Tally(before)
    ensures counts == Tally(before + NamesOf(ids, tags))
  {
    counts := counts0;
    assert NamesOf(ids[..0], tags) == [];
    assert before + NamesOf(ids[..0], tags) == before;
    var j := 0;
    while j < |ids|
      invariant 0 <= j <= |ids|
      invariant counts == Tally(before + NamesOf(ids[..j], tags))
    {
      var name := TagName(tags, ids[j]);
      var found := Get(counts, name);
      TallyNamesStep(before, ids, j, tags);
      counts := Put(counts, name, (if found.Some? then found.value else 0) + 1);
      j := j + 1;
    }
    assert ids[..j] == ids;
  }

  method CountTags(calls: seq<CallLog>, tags: seq<TagInfo>) returns (counts: Dict<nat>)
    ensures counts == Tally(TagNames(calls, tags))
  {
    counts := [];
    var i := 0;
    while i < |calls|
      invariant 0 <= i <= |calls|
      invariant counts == Tally(TagNames(calls[..i], tags))
    {
      var ids := calls[i].tagIds;
      ghost var before := TagNames(calls[..i], tags);
      assert calls[..i + 1][..i] == calls[..i];
      assert TagNames(calls[..i + 1], tags) == before + NamesOf(ids, tags);
      counts := AddTagNames(counts, before, ids, tags);
      i := i + 1;
    }
    assert calls[..i] == calls;
  }

  /** An entry of the `get_targets_above_threshold` result. */
  datatype AboveTarget = AboveTarget(id: string, name: string, rpc: real, calls: real, revenue: real,
                                     tags: Dict<nat>)

  /** Whether `get_targets_above_threshold` lists an insights row. */
  predicate Qualifies(threshold: real, targets: seq<TargetInfo>, item: InsightItem)
  {
    item.targetId != "" && item.rpc >= threshold && IsEnabled(targets, item.targetId)
  }

  function AboveEntry(targets: seq<TargetInfo>, callLogs: Option<seq<CallLog>>, tags: seq<TagInfo>,
                      item: InsightItem): AboveTarget
  {
    AboveTarget(item.targetId, TargetName(targets, item.targetId, "Unknown Target"), item.rpc, item.calls,
                item.revenue, Tally(TagNames(CallsOf(callLogs, item.targetId), tags)))
  }

  /** The qualifying rows of some insights items, in order. */
  function AboveOf(threshold: real, items: seq<InsightItem>, targets: seq<TargetInfo>,
                   callLogs: Option<seq<CallLog>>, tags: seq<TagInfo>): seq<AboveTarget>
  {
    FilterMap(items, item => Qualifies(threshold, targets, item), item => AboveEntry(targets, callLogs, tags, item))
  }

  /** `get_targets_above_threshold`: no insights give `[]`. */
  function TargetsAboveThreshold(threshold: real, insights: Option<seq<InsightItem>>, targets: seq<TargetInfo>,
                                 callLogs: Option<seq<CallLog>>, tags: seq<TagInfo>): seq<AboveTarget>
  {
    if insights.None? then [] else AboveOf(threshold, insights.value, targets, callLogs, tags)
  }

  /** A row is listed iff it has a target id, RPC at least the threshold, and an enabled target. */
  lemma AboveOfMembers(threshold: real, items: seq<InsightItem>, targets: seq<TargetInfo>,
                       callLogs: Option<seq<CallLog>>, tags: seq<TagInfo>, a: AboveTarget)
    ensures a in AboveOf(threshold, items, targets, callLogs, tags) <==>
              exists item :: item in items && Qualifies(threshold, targets, item) &&
                a == AboveEntry(targets, callLogs, tags, item)
  {
    FilterMapMembers(items, item => Qualifies(threshold, targets, item), item => AboveEntry(targets, callLogs, tags, item), a);
  }

  /** An unknown target is never listed, whatever its RPC. */
  lemma AboveSkipsUnknown(threshold: real, items: seq<InsightItem>, targets: seq<TargetInfo>,
                          callLogs: Option<seq<CallLog>>, tags: seq<TagInfo>, id: string)
    requires forall t :: t in targets ==> t.id != Some(id)
    ensures forall a :: a in AboveOf(threshold, items, targets, callLogs, tags) ==> a.id != id
  {
    forall a | a in AboveOf(threshold, items, targets, callLogs, tags) ensures a.id != id {
      AboveOfMembers(threshold, items, targets, callLogs, tags, a);
    }
  }

  /** `get_targets_above_threshold` after the fetches: a loop over the insights items. */
  method GetTargetsAboveThreshold(threshold: real, insights: Option<seq<InsightItem>>, targets: seq<TargetInfo>,
                                  callLogs: Option<seq<CallLog>>, tags: seq<TagInfo>)
    returns (result: seq<AboveTarget>)
    ensures result == TargetsAboveThreshold(threshold, insights, targets, callLogs, tags)
  {
    if insights.None? {
      return [];
    }
    var items := insights.value;
    result := [];
    var i := 0;
    while i < |items|
      invariant 0 <= i <= |items|
      invariant result == AboveOf(threshold, items[..i], targets, callLogs, tags)
    {
      var item := items[i];
      assert items[..i + 1][..i] == items[..i];
      if item.targetId != "" && item.rpc >= threshold && IsEnabled(targets, item.targetId) {
        var counts := CountTags(CallsOf(callLogs, item.targetId), tags);
        result := result + [AboveTarget(item.targetId, TargetName(targets, item.targetId, "Unknown Target"),
                                        item.rpc, item.calls, item.revenue, counts)];
      }
      i := i + 1;
    }
    assert items[..i] == items;
  }

  // ----------------------------------------------------------- today's RPC

  /** Today's figures in a target's counts; a missing one reads as 0. */
  datatype DayStats = DayStats(currentDaySum: real, currentDay: real)

  datatype TodayRpc = TodayRpc(id: string, name: string, rpc: real, calls: real, revenue: real)

  /** The stats key of a target: `target_id.lower().replace('ta', 't')`. */
  function StatsKey(id: string): string
  {
    ReplaceAll(Lower(id), "ta", "t")
  }

  /** The usual `TA…` target id loses its `a` in the stats key. */
  lemma StatsKeyPrefix(rest: string)
    ensures StatsKey("TA" + rest) == "t" + StatsKey(rest)
  {
    var s := Lower("TA" + rest);
    assert s[0] == 't' && s[1] == 'a';
    assert s[..2] == "ta";
    assert s[2..] == Lower(rest);
  }

  /**
   * `get_target_rpc_today`: missing counts give a zeroed stub named "Unknown";
   * otherwise the day's sum and count under the stats key, and their ratio when
   * there were calls.
   */
  function TargetRpcToday(id: string, counts: Option<Dict<DayStats>>, details: Option<TargetInfo>): (r: TodayRpc)
    ensures counts.None? ==> r == TodayRpc(id, "Unknown", 0.0, 0.0, 0.0)
    ensures r.id == id
    ensures r.calls > 0.0 ==> r.rpc * r.calls == r.revenue
    ensures r.calls <= 0.0 ==> r.rpc == 0.0
    ensures counts.Some? && Get(counts.value, StatsKey(id)).None? ==> r.calls == 0.0 && r.revenue == 0.0
  {
    if counts.None? then TodayRpc(id, "Unknown", 0.0, 0.0, 0.0)
    else
      var name := if details.Some? && details.value.name.Some? then details.value.name.value else "Unknown Target";
      var st := Get(counts.value, StatsKey(id));
      var revenue := if st.Some? then st.value.currentDaySum else 0.0;
      var calls := if st.Some? then st.value.currentDay else 0.0;
      var rpc := if calls > 0.0 then revenue / calls else 0.0;
      assert calls > 0.0 ==> rpc * calls == revenue;
      TodayRpc(id, name, rpc, calls, revenue)
  }

  // --------------------------------------------------- comparing the sources

  /** An `insights_api` row of `compare_rpc_calculations`. */
  datatype InsightRow = InsightRow(id: string, name: string, rpc: real)

  function InsightRows(items: seq<InsightItem>, targets: seq<TargetInfo>): seq<InsightRow>
  {
    if |items| == 0 then []
    else
      var item := items[|items| - 1];
      InsightRows(items[..|items| - 1], targets) +
      (if item.targetId == "" then []
       else [InsightRow(item.targetId, TargetName(targets, item.targetId, "Unknown Target"), item.rpc)])
  }

  /** The insights rows are those of the items with a target id. */
  lemma {:induction false} InsightRowsIds(items: seq<InsightItem>, targets: seq<TargetInfo>, k: string)
    ensures (exists x :: x in InsightRows(items, targets) && x.id == k) <==>
              k != "" && exists item :: item in items && item.targetId == k
    decreases |items|
  {
    if |items| > 0 {
      var init := items[..|items| - 1];
      var item := items[|items| - 1];
      InsightRowsIds(init, targets, k);
      assert items == init + [item];
      var rest := if item.targetId == "" then []
                  else [InsightRow(item.targetId, TargetName(targets, item.targetId, "Unknown Target"), item.rpc)];
      assert InsightRows(items, targets) == InsightRows(init, targets) + rest;
    }
  }

  /** `{t['id']: t for t in rows}` over the insights rows: the last row of an id wins. */
  function InsightsMap(rows: seq<InsightRow>): (m: map<string, InsightRow>)
    ensures forall k :: k in m <==> exists x :: x in rows && x.id == k
    ensures forall k :: k in m ==> m[k] in rows && m[k].id == k
  {
    if |rows| == 0 then map[]
    else
      var last := rows[|rows| - 1];
      assert rows == rows[..|rows| - 1] + [last];
      InsightsMap(rows[..|rows| - 1])[last.id := last]
  }

  /** `{t['id']: t for t in rows}` over the dashboard rows, keyed by their UI id. */
  function CallLogsMap(rows: seq<Metrics>): (m: map<string, Metrics>)
    ensures forall k :: k in m <==> exists x :: x in rows && x.id == k
    ensures forall k :: k in m ==> m[k] in rows && m[k].id == k
  {
    if |rows| == 0 then map[]
    else
      var last := rows[|rows| - 1];
      assert rows == rows[..|rows| - 1] + [last];
      CallLogsMap(rows[..|rows| - 1])[last.id := last]
  }

  datatype Comparison = Comparison(id: string, name: string, insightsRpc: real, calllogsRpc: real,
                                   difference: real, percentage: real)

  function Abs(x: real): real
  {
    if x < 0.0 then -x else x
  }

  function Max3(a: real, b: real, c: real): (r: real)
    ensures r >= a && r >= b && r >= c && (r == a || r == b || r == c)
  {
    if a >= b && a >= c then a else if b >= c then b else c
  }

  function Compare(id: string, x: InsightRow, y: Metrics): Comparison
  {
    var diff := Abs(x.rpc - y.rpc);
    Comparison(id, x.name, x.rpc, y.rpc, diff, 100.0 * diff / Max3(x.rpc, y.rpc, 0.0001))
  }

  /**
   * The `comparison` of `compare_rpc_calculations`, keyed by id (the list's own
   * order follows Python's set iteration, which is not modelled).
   */
  function CompareRpc(insights: Option<seq<InsightItem>>, targets: seq<TargetInfo>, dashboard: seq<Metrics>)
    : map<string, Comparison>
  {
    var im := InsightsMap(if insights.Some? then InsightRows(insights.value, targets) else []);
    var cm := CallLogsMap(dashboard);
    map k | k in im && k in cm :: Compare(k, im[k], cm[k])
  }

  /** Only ids present on both sides are compared. */
  lemma CompareRpcKeys(insights: Option<seq<InsightItem>>, targets: seq<TargetInfo>, dashboard: seq<Metrics>, k: string)
    ensures k in CompareRpc(insights, targets, dashboard) <==>
              (insights.Some? && k != "" && exists item :: item in insights.value && item.targetId == k) &&
              (exists m :: m in dashboard && m.id == k)
  {
    if insights.Some? {
      InsightRowsIds(insights.value, targets, k);
    }
  }

  lemma PercentFacts(d: real, mx: real)
    requires d >= 0.0 && mx > 0.0
    ensures 100.0 * d / mx >= 0.0
    ensures 100.0 * d / mx == 0.0 <==> d == 0.0
  {
    assert (100.0 * d / mx) * mx == 100.0 * d;
  }

  /**
   * A comparison holds the absolute difference of the two RPCs and a percentage
   * of it over the larger RPC (at least 0.0001), which is zero iff they agree.
   */
  lemma CompareValues(id: string, x: InsightRow, y: Metrics)
    ensures var c := Compare(id, x, y);
            c.insightsRpc == x.rpc && c.calllogsRpc == y.rpc && c.name == x.name &&
            c.difference >= 0.0 && (c.difference == x.rpc - y.rpc || c.difference == y.rpc - x.rpc) &&
            c.percentage >= 0.0 && (c.percentage == 0.0 <==> x.rpc == y.rpc)
  {
    PercentFacts(Abs(x.rpc - y.rpc), Max3(x.rpc, y.rpc, 0.0001));
  }

  /**
   * Dashboard rows carry UI ids, so a target whose internal id is mapped to a
   * different public id, and which is no target's public id, is never compared.
   */
  lemma MappedTargetNeverCompared(insights: Option<seq<InsightItem>>, targets: seq<TargetInfo>,
                                  callLogs: Option<seq<CallLog>>, mapping: map<string, string>, k: string)
    requires k in mapping
    requires forall t :: t in mapping ==> mapping[t] != k
    ensures k !in CompareRpc(insights, targets, DashboardRpc(callLogs, targets, mapping))
  {
    var dashboard := DashboardRpc(callLogs, targets, mapping);
    CompareRpcKeys(insights, targets, dashboard, k);
    forall m | m in dashboard ensures m.id != k {
      DashboardEntries(callLogs, targets, mapping, m);
    }
  }

  // ---------------------------------------------------- UI-matching fallback

  /** A row of the insights branch of `get_ui_matching_rpc`. */
  datatype UiRow = UiRow(id: string, internalId: string, name: string, rpc: real, calls: real, revenue: real,
                         connected: real, enabled: bool)

  function UiRpc(r: UiRow): real
  {
    r.rpc
  }

  function UiRowOf(targets: seq<TargetInfo>, mapping: map<string, string>, item: InsightItem): UiRow
  {
    UiRow(PublicIdOf(mapping, item.targetId), item.targetId, TargetName(targets, item.targetId, "Unknown Target"),
          item.rpc, item.calls, item.revenue, item.connected, IsEnabled(targets, item.targetId))
  }

  /** The insights rows with a target id, mapped in order. */
  function UiRowsOf(items: seq<InsightItem>, targets: seq<TargetInfo>, mapping: map<string, string>): (r: seq<UiRow>)
    ensures |r| == 0 <==> forall item :: item in items ==> item.targetId == ""
  {
    if |items| == 0 then []
    else
      var item := items[|items| - 1];
      assert items == items[..|items| - 1] + [item];
      UiRowsOf(items[..|items| - 1], targets, mapping) +
      (if item.targetId == "" then [] else [UiRowOf(targets, mapping, item)])
  }

  /** A target of the call-log branch. */
  datatype LogTarget = LogTarget(id: string, internalId: string, name: string, calls: nat, revenue: real,
                                 rpcTotal: real, rpc: real)

  function LogRpc(t: LogTarget): real
  {
    t.rpc
  }

  /** A call's revenue in the call-log branch: `payoutAmount` parsed as it is, else a cleaned `payout`. */
  function LogRevenue(c: CallLog): real
  {
    if Given(c.payoutAmount) then OrZero(Float(c.payoutAmount))
    else if Given(c.payout) then CleanedAmount(c.payout)
    else 0.0
  }

  /** The RPC a call contributes: `float(call.get("rpc", 0))` when that is truthy. */
  function CallRpc(c: CallLog): real
  {
    if Truthy(c.rpc) then OrZero(Float(c.rpc)) else 0.0
  }

  /** A call whose RPC `float()` rejects. */
  predicate BadRpc(c: CallLog)
  {
    c.targetId != "" && Truthy(c.rpc) && Float(c.rpc).None?
  }

  /** A kept call whose truthy `rpc` does not convert raises, abandoning the call-log branch. */
  predicate LogsFail(records: seq<CallLog>)
  {
    exists i :: 0 <= i < |records| && BadRpc(records[i])
  }

  function LogKey(c: CallLog): string
  {
    c.targetId
  }

  function LogStartFn(mapping: map<string, string>): CallLog -> LogTarget
  {
    (c: CallLog) => LogTarget(PublicIdOf(mapping, c.targetId), c.targetId, CallName(c), 0, 0.0, 0.0, 0.0)
  }

  function LogStep(t: LogTarget, c: CallLog): LogTarget
  {
    t.(calls := t.calls + 1, rpcTotal := t.rpcTotal + CallRpc(c), revenue := t.revenue + LogRevenue(c))
  }

  /** The average of the calls' own RPCs when positive, else revenue over calls. */
  function WithLogRpc(t: LogTarget): LogTarget
  {
    t.(rpc := if t.calls == 0 then 0.0
              else if t.rpcTotal > 0.0 then t.rpcTotal / t.calls as real
              else t.revenue / t.calls as real)
  }

  function ListLogTargets(d: Dict<LogTarget>): (r: seq<LogTarget>)
    ensures |r| == |d| && forall k :: 0 <= k < |d| ==> r[k] == WithLogRpc(d[k].1)
  {
    seq(|d|, k requires 0 <= k < |d| => WithLogRpc(d[k].1))
  }

  function LogTargets(records: seq<CallLog>, mapping: map<string, string>): seq<LogTarget>
  {
    SortDescBy(ListLogTargets(GroupBy(records, LogKey, LogStartFn(mapping), LogStep)), LogRpc)
  }

  /** Where `get_ui_matching_rpc` got its rows. */
  datatype UiResult =
    | FromInsights(rows: seq<UiRow>)
    | FromCallLogs(targets: seq<LogTarget>)
    | FromDashboard(metrics: seq<Metrics>)

  /** Whether the call-log branch runs and completes. */
  predicate LogsUsable(records: Option<seq<CallLog>>)
  {
    records.Some? && |records.value| > 0 && !records.value[0].rpc.Missing? && !LogsFail(records.value)
  }

  /**
   * `get_ui_matching_rpc`: the insights rows if there are any; else the call-log
   * aggregation if the first record has an `rpc` key and nothing raises; else the
   * dashboard calculation. `insights` is None when the insights request fails,
   * `records` when the call-log request does not yield `report.records`.
   */
  function UiMatchingRpc(insights: Option<seq<InsightItem>>, records: Option<seq<CallLog>>,
                         dashboardCalls: Option<seq<CallLog>>, targets: seq<TargetInfo>,
                         mapping: map<string, string>): UiResult
  {
    var rows := if insights.Some? then SortDescBy(UiRowsOf(insights.value, targets, mapping), UiRpc) else [];
    if |rows| > 0 then FromInsights(rows)
    else if LogsUsable(records) then FromCallLogs(LogTargets(records.value, mapping))
    else FromDashboard(DashboardRpc(dashboardCalls, targets, mapping))
  }

  /** The fallback order: insights, then call logs, then the dashboard. */
  lemma UiFallbackOrder(insights: Option<seq<InsightItem>>, records: Option<seq<CallLog>>,
                        dashboardCalls: Option<seq<CallLog>>, targets: seq<TargetInfo>, mapping: map<string, string>)
    ensures var r := UiMatchingRpc(insights, records, dashboardCalls, targets, mapping);
            (r.FromInsights? <==> insights.Some? && exists item :: item in insights.value && item.targetId != "") &&
            (r.FromCallLogs? <==> !r.FromInsights? && LogsUsable(records)) &&
            (r.FromDashboard? <==> !r.FromInsights? && !LogsUsable(records))
  {
    if insights.Some? {
      SortDescByProps(UiRowsOf(insights.value, targets, mapping), UiRpc);
    }
  }

  /** Every entry of the call-log totals is keyed by its internal id and has calls. */
  lemma LogEntry(records: seq<CallLog>, mapping: map<string, string>, k: nat)
    requires k < |GroupBy(records, LogKey, LogStartFn(mapping), LogStep)|
    ensures var e := GroupBy(records, LogKey, LogStartFn(mapping), LogStep)[k];
            e.0 != "" && e.1.internalId == e.0 && e.1.calls >= 1 && e.1.id == PublicIdOf(mapping, e.0)
  {
    var d := GroupBy(records, LogKey, LogStartFn(mapping), LogStep);
    GroupByEntry(records, LogKey, LogStartFn(mapping), LogStep, k);
    var key := d[k].0;
    GroupByGet(records, LogKey, LogStartFn(mapping), LogStep, key);
    var rs := RowsOf(records, LogKey, key);
    LogFold(LogStartFn(mapping)(rs[0]), rs);
    assert LogKey(rs[0]) == key;
  }

  /**
   * Each call-log target has calls and the UI id of its internal id, and its RPC is
   * the average of its calls' own RPCs when their total is positive, else its
   * revenue over its calls.
   */
  lemma LogTargetsEntries(records: seq<CallLog>, mapping: map<string, string>, t: LogTarget)
    requires t in LogTargets(records, mapping)
    ensures t.calls >= 1 && t.internalId != "" && t.id == PublicIdOf(mapping, t.internalId)
    ensures t.rpcTotal > 0.0 ==> t.rpc == t.rpcTotal / t.calls as real
    ensures t.rpcTotal <= 0.0 ==> t.rpc == t.revenue / t.calls as real
  {
    var d := GroupBy(records, LogKey, LogStartFn(mapping), LogStep);
    var l := ListLogTargets(d);
    assert LogTargets(records, mapping) == SortDescBy(l, LogRpc);
    SortDescByProps(l, LogRpc);
    assert t in multiset(l);
    assert t in l;
    var k :| 0 <= k < |l| && l[k] == t;
    LogEntry(records, mapping, k);
    assert t == WithLogRpc(d[k].1);
  }

  lemma {:induction false} LogFold(t: LogTarget, rs: seq<CallLog>)
    ensures FoldRows(t, rs, LogStep).calls == t.calls + |rs|
    ensures FoldRows(t, rs, LogStep).id == t.id && FoldRows(t, rs, LogStep).internalId == t.internalId
  {
    if |rs| > 0 {
      LogFold(t, rs[..|rs| - 1]);
    }
  }

  /** The insights branch: one loop over the items, then the sort. */
  method InsightsUiRows(items: seq<InsightItem>, targets: seq<TargetInfo>, mapping: map<string, string>)
    returns (rows: seq<UiRow>)
    ensures rows == SortDescBy(UiRowsOf(items, targets, mapping), UiRpc)
  {
    var listed: seq<UiRow> := [];
    var i := 0;
    while i < |items|
      invariant 0 <= i <= |items|
      invariant listed == UiRowsOf(items[..i], targets, mapping)
    {
      var item := items[i];
      assert items[..i + 1][..i] == items[..i];
      if item.targetId != "" {
        listed := listed + [UiRowOf(targets, mapping, item)];
      }
      i := i + 1;
    }
    assert items[..i] == items;
    rows := SortDescBy(listed, UiRpc);
  }

  /** The call-log branch: None where a call's RPC raises. */
  method CallLogUiTargets(records: seq<CallLog>, mapping: map<string, string>) returns (r: Option<seq<LogTarget>>)
    ensures LogsFail(records) <==> r.None?
    ensures r.Some? ==> r.value == LogTargets(records, mapping)
  {
    var metrics := FoldLogs(records, mapping);
    if metrics.None? {
      return None;
    }
    var listed := AddLogRpc(metrics.value);
    r := Some(SortDescBy(listed, LogRpc));
  }

  lemma LogsFailStep(records: seq<CallLog>, i: nat)
    requires i < |records|
    ensures LogsFail(records[..i + 1]) <==> LogsFail(records[..i]) || BadRpc(records[i])
  {
    var p := records[..i + 1];
    if LogsFail(p) {
      var k :| 0 <= k < |p| && BadRpc(p[k]);
      if k < i {
        assert records[..i][k] == p[k];
      }
    }
    if LogsFail(records[..i]) {
      var k :| 0 <= k < i && BadRpc(records[..i][k]);
      assert p[k] == records[..i][k];
    }
    if BadRpc(records[i]) {
      assert p[i] == records[i];
    }
  }

  /** The first loop of the call-log branch: calls are folded per target until one's RPC raises. */
  method FoldLogs(records: seq<CallLog>, mapping: map<string, string>) returns (metrics: Option<Dict<LogTarget>>)
    ensures LogsFail(records) <==> metrics.None?
    ensures metrics.Some? ==> metrics.value == GroupBy(records, LogKey, LogStartFn(mapping), LogStep)
  {
    var acc: Dict<LogTarget> := [];
    var i := 0;
    while i < |records|
      invariant 0 <= i <= |records|
      invariant !LogsFail(records[..i])
      invariant acc == GroupBy(records[..i], LogKey, LogStartFn(mapping), LogStep)
    {
      var call := records[i];
      LogsFailStep(records, i);
      assert records[..i + 1][..i] == records[..i];
      assert GroupBy(records[..i + 1], LogKey, LogStartFn(mapping), LogStep) ==
               GroupAdd(acc, call, LogKey, LogStartFn(mapping), LogStep);
      if call.targetId != "" {
        if Truthy(call.rpc) && Float(call.rpc).None? {
          assert BadRpc(records[i]);
          return None;
        }
        var found := Get(acc, call.targetId);
        var t := if found.Some? then found.value else LogStartFn(mapping)(call);
        var next := LogStep(t, call);
        acc := Put(acc, call.targetId, next);
      }
      i := i + 1;
    }
    assert records[..i] == records;
    metrics := Some(acc);
  }

  /** The second loop of the call-log branch: each target's totals with its RPC. */
  method AddLogRpc(metrics: Dict<LogTarget>) returns (listed: seq<LogTarget>)
    ensures listed == ListLogTargets(metrics)
  {
    listed := [];
    var j := 0;
    while j < |metrics|
      invariant 0 <= j <= |metrics|
      invariant listed == ListLogTargets(metrics[..j])
    {
      listed := listed + [WithLogRpc(metrics[j].1)];
      j := j + 1;
    }
    assert metrics[..j] == metrics;
  }

  /** `get_ui_matching_rpc` after its fetches. */
  method GetUiMatchingRpc(insights: Option<seq<InsightItem>>, records: Option<seq<CallLog>>,
                          dashboardCalls: Option<seq<CallLog>>, targets: seq<TargetInfo>,
                          mapping: map<string, string>) returns (result: UiResult)
    ensures result == UiMatchingRpc(insights, records, dashboardCalls, targets, mapping)
  {
    if insights.Some? {
      var rows := InsightsUiRows(insights.value, targets, mapping);
      if |rows| > 0 {
        return FromInsights(rows);
      }
    }
    if records.Some? && |records.value| > 0 && !records.value[0].rpc.Missing? {
      var fromLogs := CallLogUiTargets(records.value, mapping);
      if fromLogs.Some? {
        return FromCallLogs(fromLogs.value);
      }
    }
    var metrics := GetDashboardRpc(dashboardCalls, targets, mapping);
    result := FromDashboard(metrics);
  }
}
