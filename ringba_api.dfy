/**
 * The token-based Ringba client: authentication-format search, the
 * per-target RPC from daily counts, the threshold filter over all targets,
 * paginated call logs, and the historical RPC computed from those logs.
 * HTTP responses are inputs: a status per `Authorization` header, fetched
 * counts and target lists, and the sequence of call-log pages.
 */
module RingbaApi {
  import opened Common

  // ----------------------------------------------------------- authentication

  datatype AuthFormat = AuthFormat(name: string, header: string)

  /** The three `Authorization` headers, in the order they are tried. */
  function AuthFormats(token: string): (r: seq<AuthFormat>)
    ensures |r| == 3
  {
    [AuthFormat("Token", "Token " + token), AuthFormat("Bearer", "Bearer " + token), AuthFormat("No prefix", token)]
  }

  /** A format works when the targets request made with its header returns 200. */
  function AcceptedBy(status: string -> int): AuthFormat -> bool
  {
    (f: AuthFormat) => status(f.header) == 200
  }

  /** The search order spelled out: Token, then Bearer, then the bare token. */
  lemma AuthSearchOrder(token: string, status: string -> int)
    ensures var i := FirstIndex(AuthFormats(token), AcceptedBy(status));
      (status("Token " + token) == 200 ==> i == 0) &&
      (status("Token " + token) != 200 && status("Bearer " + token) == 200 ==> i == 1) &&
      (status("Token " + token) != 200 && status("Bearer " + token) != 200 && status(token) == 200 ==> i == 2) &&
      (status("Token " + token) != 200 && status("Bearer " + token) != 200 && status(token) != 200 ==> i == 3)
  {
    var fs := AuthFormats(token);
    var i := FirstIndex(fs, AcceptedBy(status));
    assert AcceptedBy(status)(fs[0]) == (status("Token " + token) == 200);
    assert AcceptedBy(status)(fs[1]) == (status("Bearer " + token) == 200);
    assert AcceptedBy(status)(fs[2]) == (status(token) == 200);
  }

  /** The client's connection state: the header every later request sends. */
  class RingbaClient {
    const apiToken: string
    const accountId: string
    var authorization: string
    var currentAuthFormat: string

    /** `__init__`: Token by default, then the same search as `test_auth` (`_detect_working_format`). */
    constructor (apiToken: string, accountId: string, status: string -> int)
      ensures this.apiToken == apiToken && this.accountId == accountId
      ensures var i := FirstIndex(AuthFormats(apiToken), AcceptedBy(status));
        if i < 3 then authorization == AuthFormats(apiToken)[i].header && currentAuthFormat == AuthFormats(apiToken)[i].name
        else authorization == "Token " + apiToken && currentAuthFormat == "Token"
    {
      this.apiToken := apiToken;
      this.accountId := accountId;
      authorization := "Token " + apiToken;
      currentAuthFormat := "Token";
      new;
      var _ := TestAuth(status);
    }

    /** `test_auth`: the first format whose request returns 200 becomes the header; False when none does. */
    method TestAuth(status: string -> int) returns (ok: bool)
      modifies this
      ensures var fs := AuthFormats(apiToken);
        var i := FirstIndex(fs, AcceptedBy(status));
        (ok <==> i < |fs|) &&
        (ok ==> authorization == fs[i].header && currentAuthFormat == fs[i].name) &&
        (!ok ==> authorization == old(authorization) && currentAuthFormat == old(currentAuthFormat))
    {
      var fs := AuthFormats(apiToken);
      var k := 0;
      while k < |fs|
        invariant k <= |fs|
        invariant forall j :: 0 <= j < k ==> !AcceptedBy(status)(fs[j])
        invariant authorization == old(authorization) && currentAuthFormat == old(currentAuthFormat)
      {
        if status(fs[k].header) == 200 {
          assert AcceptedBy(status)(fs[k]);
          authorization := fs[k].header;
          currentAuthFormat := fs[k].name;
          return true;
        }
        k := k + 1;
      }
      return false;
    }
  }

  // ------------------------------------------------------ RPC from counts

  /** An element of a list-shaped counts response. */
  datatype CountsItem =
    | ItemText(text: string)
    | ItemStats(totalCalls: Option<real>, payout: Option<real>)
    | ItemOther

  /**
   * A counts response: a dict (its `totalCalls` and `payout` entries, and
   * whether it holds any other key), a list, or any other JSON value with its
   * truthiness.
   */
  datatype Counts =
    | CountsDict(totalCalls: Option<real>, payout: Option<real>, otherKeys: bool)
    | CountsList(items: seq<CountsItem>)
    | CountsOther(truthy: bool)

  /** `if not counts`. */
  predicate CountsTruthy(c: Counts)
  {
    match c
    case CountsDict(t, p, o) => t.Some? || p.Some? || o
    case CountsList(items) => |items| > 0
    case CountsOther(b) => b
  }

  function OrZero(x: Option<real>): real
  {
    if x.Some? then x.value else 0.0
  }

  /** `payout / total_calls` when there were calls, else 0; missing entries default to 0. */
  function StatsRpc(totalCalls: Option<real>, payout: Option<real>): real
  {
    if OrZero(totalCalls) > 0.0 then OrZero(payout) / OrZero(totalCalls) else 0.0
  }

  /** `'transactionId' in counts and 'stats' in counts` on a list: both strings are elements. */
  predicate StatsShaped(items: seq<CountsItem>)
  {
    ItemText("transactionId") in items && ItemText("stats") in items
  }

  lemma StatsShapedLength(items: seq<CountsItem>)
    requires StatsShaped(items)
    ensures |items| >= 2
  {
    var i :| 0 <= i < |items| && items[i] == ItemText("transactionId");
    var j :| 0 <= j < |items| && items[j] == ItemText("stats");
    assert i != j;
  }

  /**
   * `calculate_rpc_for_target`: None without target details or counts, or on
   * an unrecognised shape. A stats-shaped list reads its second element.
   */
  function RpcForTarget(detailsFound: bool, counts: Option<Counts>): Option<real>
  {
    if !detailsFound || counts.None? || !CountsTruthy(counts.value) then None
    else match counts.value
      case CountsList(items) =>
        if StatsShaped(items) then
          StatsShapedLength(items);
          match items[1]
          case ItemStats(t, p) => Some(StatsRpc(t, p))
          case _ => None
        else None
      case CountsDict(t, p, _) => Some(StatsRpc(t, p))
      case CountsOther(_) => None
  }

  /** For dict-shaped counts the RPC is payout per call, 0 without calls; missing inputs give None. */
  lemma RpcForTargetCases(detailsFound: bool, counts: Option<Counts>)
    ensures !detailsFound || counts.None? ==> RpcForTarget(detailsFound, counts).None?
    ensures detailsFound && counts.Some? && counts.value.CountsDict? && CountsTruthy(counts.value) ==>
      var c := counts.value;
      var r := RpcForTarget(detailsFound, counts).value;
      (OrZero(c.totalCalls) > 0.0 ==> r * OrZero(c.totalCalls) == OrZero(c.payout)) &&
      (OrZero(c.totalCalls) <= 0.0 ==> r == 0.0)
    ensures counts.Some? && counts.value.CountsOther? ==> RpcForTarget(detailsFound, counts).None?
    ensures counts.Some? && counts.value.CountsList? && !StatsShaped(counts.value.items) ==>
      RpcForTarget(detailsFound, counts).None?
  {
  }

  /** Non-negative payouts give a non-negative RPC. */
  lemma RpcForTargetNonNegative(detailsFound: bool, counts: Option<Counts>)
    requires counts.Some? && counts.value.CountsDict? && OrZero(counts.value.payout) >= 0.0
    ensures RpcForTarget(detailsFound, counts).Some? ==> RpcForTarget(detailsFound, counts).value >= 0.0
  {
  }

  // ------------------------------------------------------ threshold filter

  /** A target list entry: `id`, `name` and the truthiness of `enabled` (default False). */
  datatype TargetRecord = TargetRecord(id: Option<string>, name: Option<string>, enabled: bool)

  datatype AboveTarget = AboveTarget(id: Option<string>, name: string, rpc: real)

  /** The targets `find_targets_above_threshold` keeps, in list order; `rpcOf` is `calculate_rpc_for_target`. */
  function AboveThreshold(targets: seq<TargetRecord>, threshold: real, rpcOf: Option<string> -> Option<real>): seq<AboveTarget>
  {
    if |targets| == 0 then []
    else
      var rest := AboveThreshold(targets[..|targets| - 1], threshold, rpcOf);
      var t := targets[|targets| - 1];
      var rpc := rpcOf(t.id);
      if t.enabled && rpc.Some? && rpc.value >= threshold then rest + [AboveTarget(t.id, NameOrUnknown(t.name), rpc.value)]
      else rest
  }

  /** A target is kept iff it is enabled and its RPC is known and at least the threshold. */
  lemma {:induction false} AboveThresholdMembers(targets: seq<TargetRecord>, threshold: real, rpcOf: Option<string> -> Option<real>)
    ensures forall a :: a in AboveThreshold(targets, threshold, rpcOf) <==>
      exists i :: 0 <= i < |targets| && targets[i].enabled && rpcOf(targets[i].id) == Some(a.rpc) &&
        a.rpc >= threshold && a.id == targets[i].id && a.name == NameOrUnknown(targets[i].name)
  {
    if |targets| > 0 {
      var init := targets[..|targets| - 1];
      AboveThresholdMembers(init, threshold, rpcOf);
      forall a ensures a in AboveThreshold(targets, threshold, rpcOf) <==>
        exists i :: 0 <= i < |targets| && targets[i].enabled && rpcOf(targets[i].id) == Some(a.rpc) &&
          a.rpc >= threshold && a.id == targets[i].id && a.name == NameOrUnknown(targets[i].name)
      {
        if exists i ::
             0 <= i < |targets| && targets[i].enabled && rpcOf(targets[i].id) == Some(a.rpc) &&
             a.rpc >= threshold && a.id == targets[i].id && a.name == NameOrUnknown(targets[i].name)
        {
          var i :| 0 <= i < |targets| && targets[i].enabled && rpcOf(targets[i].id) == Some(a.rpc) &&
            a.rpc >= threshold && a.id == targets[i].id && a.name == NameOrUnknown(targets[i].name);
          if i < |targets| - 1 {
            assert init[i] == targets[i];
          }
        }
        if a in AboveThreshold(init, threshold, rpcOf) {
          var i :| 0 <= i < |init| && init[i].enabled && rpcOf(init[i].id) == Some(a.rpc) &&
            a.rpc >= threshold && a.id == init[i].id && a.name == NameOrUnknown(init[i].name);
          assert targets[i] == init[i];
        }
      }
    }
  }

  /** `find_targets_above_threshold`; a failed target list (None) yields no targets. */
  method FindTargetsAboveThreshold(threshold: real, response: Option<seq<TargetRecord>>, rpcOf: Option<string> -> Option<real>)
    returns (above: seq<AboveTarget>)
    ensures response.None? ==> above == []
    ensures response.Some? ==> above == AboveThreshold(response.value, threshold, rpcOf)
  {
    above := [];
    if response.None? {
      return;
    }
    var all := response.value;
    var i := 0;
    while i < |all|
      invariant i <= |all|
      invariant above == AboveThreshold(all[..i], threshold, rpcOf)
    {
      var t := all[i];
      assert all[..i + 1][..i] == all[..i];
      if t.enabled {
        var rpc := rpcOf(t.id);
        if rpc.Some? && rpc.value >= threshold {
          above := above + [AboveTarget(t.id, NameOrUnknown(t.name), rpc.value)];
        }
      }
      i := i + 1;
    }
    assert all[..|all|] == all;
  }

  // ------------------------------------------------------------- call logs

  /** A call's `targetRevenue` entry as `float()` reads it. */
  datatype Revenue = RevenueMissing | RevenueNull | RevenueNumber(value: real) | RevenueText(text: string)

  datatype CallItem = CallItem(targetId: Option<string>, targetRevenue: Revenue)

  /** One call-log page as returned by the API (`items`, `totalPages`), or a failed request. */
  datatype Page = Page(items: seq<CallItem>, totalPages: int) | PageError

  const PageSize: nat := 100

  datatype PageRequest = PageRequest(page: nat, pageSize: nat)

  /** What the paginated loop gathers from page `page` on; requests past the given pages fail. */
  function Paginate(pages: seq<Page>, page: nat): seq<CallItem>
    decreases |pages| + 1 - page
  {
    if page < 1 || page > |pages| then []
    else match pages[page - 1]
      case PageError => []
      case Page(items, total) =>
        items + if page >= total || |items| == 0 then [] else Paginate(pages, page + 1)
  }

  /** How many pages from `page` on are read successfully. */
  function PagesRead(pages: seq<Page>, page: nat): nat
    decreases |pages| + 1 - page
  {
    if page < 1 || page > |pages| then 0
    else match pages[page - 1]
      case PageError => 0
      case Page(items, total) =>
        1 + if page >= total || |items| == 0 then 0 else PagesRead(pages, page + 1)
  }

  function AllItems(pages: seq<Page>): seq<CallItem>
  {
    if |pages| == 0 then []
    else (if pages[0].Page? then pages[0].items else []) + AllItems(pages[1..])
  }

  /**
   * The gathered calls are the in-order concatenation of the pages read; the
   * last page read ends the loop by `page >= totalPages` or by being empty,
   * unless the next request fails.
   */
  lemma PaginateConcat(pages: seq<Page>, page: nat)
    requires 1 <= page <= |pages| + 1
    ensures var n := PagesRead(pages, page);
      page - 1 + n <= |pages| &&
      (forall k :: page - 1 <= k < page - 1 + n ==> pages[k].Page?) &&
      Paginate(pages, page) == AllItems(pages[page - 1..page - 1 + n]) &&
      (n > 0 ==>
        var last := pages[page - 2 + n];
        page - 1 + n >= last.totalPages || |last.items| == 0 ||
        page - 1 + n == |pages| || pages[page - 1 + n].PageError?)
  {
    PagesReadRange(pages, page);
    PaginateItems(pages, page);
    PagesReadStop(pages, page);
  }

  lemma {:induction false} PagesReadRange(pages: seq<Page>, page: nat)
    requires 1 <= page <= |pages| + 1
    ensures page - 1 + PagesRead(pages, page) <= |pages|
    ensures forall k :: page - 1 <= k < page - 1 + PagesRead(pages, page) ==> pages[k].Page?
    decreases |pages| + 1 - page
  {
    if 1 <= page <= |pages| && pages[page - 1].Page? {
      var p := pages[page - 1];
      if !(page >= p.totalPages || |p.items| == 0) {
        PagesReadRange(pages, page + 1);
      }
    }
  }

  lemma {:induction false} PaginateItems(pages: seq<Page>, page: nat)
    requires 1 <= page <= |pages| + 1
    ensures page - 1 + PagesRead(pages, page) <= |pages|
    ensures Paginate(pages, page) == AllItems(pages[page - 1..page - 1 + PagesRead(pages, page)])
    decreases |pages| + 1 - page
  {
    PagesReadRange(pages, page);
    if 1 <= page <= |pages| && pages[page - 1].Page? {
      var p := pages[page - 1];
      if !(page >= p.totalPages || |p.items| == 0) {
        PaginateItems(pages, page + 1);
        var n := PagesRead(pages, page + 1);
        var rest := pages[page..page + n];
        assert pages[page - 1..page + n] == [p] + rest;
        assert ([p] + rest)[1..] == rest;
      } else {
        assert pages[page - 1..page] == [p];
        assert AllItems([p]) == p.items + AllItems([]);
      }
    }
  }

  lemma {:induction false} PagesReadStop(pages: seq<Page>, page: nat)
    requires 1 <= page <= |pages| + 1
    ensures page - 1 + PagesRead(pages, page) <= |pages|
    ensures var n := PagesRead(pages, page);
      n > 0 ==>
        var last := pages[page - 2 + n];
        last.Page? &&
        (page - 1 + n >= last.totalPages || |last.items| == 0 ||
         page - 1 + n == |pages| || pages[page - 1 + n].PageError?)
    decreases |pages| + 1 - page
  {
    PagesReadRange(pages, page);
    if 1 <= page <= |pages| && pages[page - 1].Page? {
      var p := pages[page - 1];
      if !(page >= p.totalPages || |p.items| == 0) {
        PagesReadStop(pages, page + 1);
      }
    }
  }

  /**
   * `get_call_logs`: pages 1, 2, ... of size 100 until `page >= totalPages`,
   * an empty page, or a failed request. A timezone-aware bound raises before
   * any request (`datetime.timezone` does not exist on the `datetime` class).
   */
  method GetCallLogs(startAware: bool, endAware: bool, pages: seq<Page>)
    returns (calls: Option<seq<CallItem>>, requests: seq<PageRequest>)
    ensures calls.None? <==> startAware || endAware
    ensures calls.None? ==> requests == []
    ensures calls.Some? ==> calls.value == Paginate(pages, 1) && |requests| >= 1
    ensures forall i :: 0 <= i < |requests| ==> requests[i] == PageRequest(i + 1, PageSize)
  {
    requests := [];
    if startAware || endAware {
      return None, requests;
    }
    var all: seq<CallItem> := [];
    var page: nat := 1;
    while true
      invariant 1 <= page <= |pages| + 1
      invariant all + Paginate(pages, page) == Paginate(pages, 1)
      invariant |requests| == page - 1
      invariant forall i :: 0 <= i < |requests| ==> requests[i] == PageRequest(i + 1, PageSize)
      decreases |pages| + 1 - page
    {
      requests := requests + [PageRequest(page, PageSize)];
      if page > |pages| || pages[page - 1].PageError? {
        break;
      }
      var p := pages[page - 1];
      all := all + p.items;
      if page >= p.totalPages || |p.items| == 0 {
        break;
      }
      page := page + 1;
    }
    return Some(all), requests;
  }

  // ---------------------------------------------------------- historical RPC

  /** `float(c.get('targetRevenue', 0))`; None where it raises. */
  function RevenueValue(r: Revenue): Option<real>
  {
    match r
    case RevenueMissing => Some(0.0)
    case RevenueNull => None
    case RevenueNumber(v) => Some(v)
    case RevenueText(t) => PyFloat(t)
  }

  function MatchingCalls(calls: seq<CallItem>, targetId: string): (r: seq<CallItem>)
    ensures |r| <= |calls|
    ensures forall c :: c in r <==> c in calls && c.targetId == Some(targetId)
  {
    if |calls| == 0 then []
    else (if calls[0].targetId == Some(targetId) then [calls[0]] else []) + MatchingCalls(calls[1..], targetId)
  }

  /** `sum(float(...) for c in calls)`; None when any conversion raises. */
  function SumRevenue(calls: seq<CallItem>): Option<real>
  {
    if |calls| == 0 then Some(0.0)
    else match (RevenueValue(calls[0].targetRevenue), SumRevenue(calls[1..]))
      case (Some(v), Some(rest)) => Some(v + rest)
      case _ => None
  }

  /**
   * `get_historical_rpc_by_call_logs`: average revenue over the target's
   * calls; 0 without such calls or on any error (`logs` None: the fetch raised).
   */
  function HistoricalRpc(logs: Option<seq<CallItem>>, targetId: string): real
  {
    if logs.None? then 0.0
    else
      var m := MatchingCalls(logs.value, targetId);
      if |m| == 0 then 0.0
      else match SumRevenue(m)
        case None => 0.0
        case Some(total) => total / |m| as real
  }

  /** Calls of other targets never change the historical RPC. */
  lemma {:induction false} MatchingIgnoresOthers(calls: seq<CallItem>, extra: seq<CallItem>, targetId: string)
    requires forall c :: c in extra ==> c.targetId != Some(targetId)
    ensures MatchingCalls(calls + extra, targetId) == MatchingCalls(calls, targetId)
    decreases |calls|
  {
    if |calls| == 0 {
      MatchingNone(extra, targetId);
      assert calls + extra == extra;
    } else {
      MatchingIgnoresOthers(calls[1..], extra, targetId);
      assert (calls + extra)[1..] == calls[1..] + extra;
    }
  }

  lemma {:induction false} MatchingNone(calls: seq<CallItem>, targetId: string)
    requires forall c :: c in calls ==> c.targetId != Some(targetId)
    ensures MatchingCalls(calls, targetId) == []
    decreases |calls|
  {
    if |calls| > 0 {
      assert calls[0] in calls;
      MatchingNone(calls[1..], targetId);
    }
  }

  lemma HistoricalIgnoresOthers(calls: seq<CallItem>, extra: seq<CallItem>, targetId: string)
    requires forall c :: c in extra ==> c.targetId != Some(targetId)
    ensures HistoricalRpc(Some(calls + extra), targetId) == HistoricalRpc(Some(calls), targetId)
  {
    MatchingIgnoresOthers(calls, extra, targetId);
  }

  /** `n` copies of `x` added up. */
  function Repeated(n: nat, x: real): real
  {
    if n == 0 then 0.0 else x + Repeated(n - 1, x)
  }

  lemma {:induction false} RepeatedIsProduct(n: nat, x: real)
    ensures Repeated(n, x) == n as real * x
  {
    if n > 0 {
      RepeatedIsProduct(n - 1, x);
      assert n as real * x == (n - 1) as real * x + x;
    }
  }

  /** The sum of `n` revenues that all lie in `[lo, hi]` lies between `n` times `lo` and `n` times `hi`. */
  lemma {:induction false} SumRevenueBounds(calls: seq<CallItem>, lo: real, hi: real)
    requires SumRevenue(calls).Some?
    requires forall c :: c in calls ==>
      RevenueValue(c.targetRevenue).Some? && lo <= RevenueValue(c.targetRevenue).value <= hi
    ensures Repeated(|calls|, lo) <= SumRevenue(calls).value <= Repeated(|calls|, hi)
    decreases |calls|
  {
    if |calls| > 0 {
      var tail := calls[1..];
      assert calls[0] in calls;
      forall c | c in tail ensures c in calls {
      }
      SumRevenueBounds(tail, lo, hi);
    }
  }

  /** The historical RPC of a target with calls is an average: it lies between the smallest and largest revenue. */
  lemma HistoricalRpcIsAverage(calls: seq<CallItem>, targetId: string, lo: real, hi: real)
    requires |MatchingCalls(calls, targetId)| > 0
    requires forall c :: c in calls && c.targetId == Some(targetId) ==>
      RevenueValue(c.targetRevenue).Some? && lo <= RevenueValue(c.targetRevenue).value <= hi
    ensures SumRevenue(MatchingCalls(calls, targetId)).Some? ==>
      lo <= HistoricalRpc(Some(calls), targetId) <= hi
  {
    var m := MatchingCalls(calls, targetId);
    if SumRevenue(m).Some? {
      assert forall c :: c in m ==> c in calls && c.targetId == Some(targetId);
      AverageBounds(m, lo, hi);
    }
  }

  lemma AverageBounds(m: seq<CallItem>, lo: real, hi: real)
    requires |m| > 0 && SumRevenue(m).Some?
    requires forall c :: c in m ==>
      RevenueValue(c.targetRevenue).Some? && lo <= RevenueValue(c.targetRevenue).value <= hi
    ensures lo <= SumRevenue(m).value / |m| as real <= hi
  {
    SumRevenueBounds(m, lo, hi);
    DivBounds(SumRevenue(m).value, |m|, lo, hi);
  }

  lemma DivBounds(t: real, n: nat, lo: real, hi: real)
    requires n > 0 && Repeated(n, lo) <= t <= Repeated(n, hi)
    ensures lo <= t / n as real <= hi
  {
    RepeatedIsProduct(n, lo);
    RepeatedIsProduct(n, hi);
    QuotientBounds(t, n as real, lo, hi);
  }

  lemma QuotientBounds(t: real, n: real, lo: real, hi: real)
    requires n > 0.0 && n * lo <= t <= n * hi
    ensures lo <= t / n <= hi
  {
  }

  /** A target without calls in the logs, or logs that failed, has historical RPC 0. */
  lemma HistoricalRpcZero(logs: Option<seq<CallItem>>, targetId: string)
    requires logs.None? || forall c :: c in logs.value ==> c.targetId != Some(targetId)
    ensures HistoricalRpc(logs, targetId) == 0.0
  {
    if logs.Some? {
      MatchingNone(logs.value, targetId);
    }
  }

  /**
   * `calculate_historical_rpc`: the call-log RPC when it is positive, else the
   * stats fallback. `statsRpc` is what `calculate_rpc_for_target` returns when
   * handed the details record in place of the ID; None there makes the `:.2f`
   * log line raise, and the handler returns 0.
   */
  function CalculateHistoricalRpc(
    startAware: bool, endAware: bool, pages: seq<Page>, targetId: string, statsRpc: Option<real>): real
  {
    var logs := if startAware || endAware then None else Some(Paginate(pages, 1));
    var rpc := HistoricalRpc(logs, targetId);
    if rpc > 0.0 then rpc else if statsRpc.Some? then statsRpc.value else 0.0
  }

  /** A positive call-log RPC is returned as is; otherwise the fallback decides, 0 when it fails. */
  lemma CalculateHistoricalRpcChoice(
    startAware: bool, endAware: bool, pages: seq<Page>, targetId: string, statsRpc: Option<real>)
    ensures var fromLogs := HistoricalRpc(if startAware || endAware then None else Some(Paginate(pages, 1)), targetId);
      var r := CalculateHistoricalRpc(startAware, endAware, pages, targetId, statsRpc);
      (fromLogs > 0.0 ==> r == fromLogs) &&
      (fromLogs <= 0.0 && statsRpc.None? ==> r == 0.0) &&
      (fromLogs <= 0.0 && statsRpc.Some? ==> r == statsRpc.value)
    ensures startAware || endAware ==>
      CalculateHistoricalRpc(startAware, endAware, pages, targetId, statsRpc) ==
        if statsRpc.Some? then statsRpc.value else 0.0
  {
  }

  // ------------------------------------------------------------ call details

  /** `get_call_details`: no IDs means no request; otherwise the `ids` parameter is the comma-joined list. */
  function CallDetailsQuery(ids: seq<string>): (r: Option<string>)
    ensures r.None? <==> |ids| == 0
  {
    if |ids| == 0 then None else Some(Join(ids, ','))
  }

  /** The query carries every ID, in order, when no ID contains a comma. */
  lemma CallDetailsQueryIds(ids: seq<string>)
    requires |ids| > 0 && forall k :: 0 <= k < |ids| ==> ',' !in ids[k]
    ensures Split(CallDetailsQuery(ids).value, ',') == ids
  {
    SplitJoin(ids, ',');
  }
}
