/**
 * The target listing: split the targets into enabled and disabled, list each
 * group sorted by name and numbered from 1, and show the configured RPC
 * threshold. The target list and the typed answer are inputs.
 */
module ListTargets {
  import opened Common

  /** A target: `id`, `name` and `enabled` (None: absent). */
  datatype Listed = Listed(id: Option<string>, name: Option<string>, enabled: Option<bool>)

  /** `t.get('enabled', False)`: an absent flag counts as disabled. */
  predicate IsEnabled(t: Listed)
  {
    t.enabled == Some(true)
  }

  function EnabledOf(ts: seq<Listed>): seq<Listed>
  {
    if |ts| == 0 then [] else (if IsEnabled(ts[0]) then [ts[0]] else []) + EnabledOf(ts[1..])
  }

  function DisabledOf(ts: seq<Listed>): seq<Listed>
  {
    if |ts| == 0 then [] else (if IsEnabled(ts[0]) then [] else [ts[0]]) + DisabledOf(ts[1..])
  }

  /** The two groups partition the targets: each target is in exactly one, and together they hold all of them. */
  lemma {:induction false} Partition(ts: seq<Listed>)
    ensures multiset(EnabledOf(ts)) + multiset(DisabledOf(ts)) == multiset(ts)
    ensures |EnabledOf(ts)| + |DisabledOf(ts)| == |ts|
    ensures forall t :: t in EnabledOf(ts) <==> t in ts && IsEnabled(t)
    ensures forall t :: t in DisabledOf(ts) <==> t in ts && !IsEnabled(t)
  {
    if |ts| > 0 {
      Partition(ts[1..]);
      assert ts == [ts[0]] + ts[1..];
    }
  }

  /** `x.get('name', '')`. */
  function NameKey(t: Listed): string
  {
    if t.name.Some? then t.name.value else ""
  }

  predicate SortedByName(s: seq<Listed>)
  {
    forall i :: 0 < i < |s| ==> StrLe(NameKey(s[i - 1]), NameKey(s[i]))
  }

  /** Python's string order is total. */
  lemma {:induction false} StrLeTotal(a: string, b: string)
    ensures StrLe(a, b) || StrLe(b, a)
    decreases |a|
  {
    if |a| > 0 && |b| > 0 && a[0] == b[0] {
      StrLeTotal(a[1..], b[1..]);
    }
  }

  /** Places `x` before the first element whose name is not smaller. */
  function InsertByName(x: Listed, s: seq<Listed>): seq<Listed>
  {
    if |s| == 0 then [x]
    else if StrLe(NameKey(x), NameKey(s[0])) then [x] + s
    else [s[0]] + InsertByName(x, s[1..])
  }

  /** `sorted(targets, key=lambda x: x.get('name', ''))`, stable. */
  function SortByName(s: seq<Listed>): seq<Listed>
  {
    if |s| == 0 then [] else InsertByName(s[0], SortByName(s[1..]))
  }

  lemma {:induction false} InsertByNameMembers(x: Listed, s: seq<Listed>)
    ensures multiset(InsertByName(x, s)) == multiset(s) + multiset{x}
    ensures |InsertByName(x, s)| > 0
    ensures InsertByName(x, s)[0] == x || (|s| > 0 && InsertByName(x, s)[0] == s[0])
  {
    if |s| > 0 && !StrLe(NameKey(x), NameKey(s[0])) {
      InsertByNameMembers(x, s[1..]);
      assert s == [s[0]] + s[1..];
    }
  }

  lemma SortedByNameTail(s: seq<Listed>)
    requires |s| > 0 && SortedByName(s)
    ensures SortedByName(s[1..])
  {
    forall i | 0 < i < |s[1..]| ensures StrLe(NameKey(s[1..][i - 1]), NameKey(s[1..][i])) {
      assert s[1..][i - 1] == s[i] && s[1..][i] == s[i + 1];
    }
  }

  lemma {:induction false} InsertByNameSorted(x: Listed, s: seq<Listed>)
    requires SortedByName(s)
    ensures SortedByName(InsertByName(x, s))
  {
    if |s| > 0 && !StrLe(NameKey(x), NameKey(s[0])) {
      var rest := InsertByName(x, s[1..]);
      SortedByNameTail(s);
      InsertByNameSorted(x, s[1..]);
      InsertByNameMembers(x, s[1..]);
      StrLeTotal(NameKey(x), NameKey(s[0]));
      var r := [s[0]] + rest;
      assert StrLe(NameKey(s[0]), NameKey(rest[0])) by {
        if rest[0] != x {
          assert rest[0] == s[1];
        }
      }
      forall i | 0 < i < |r| ensures StrLe(NameKey(r[i - 1]), NameKey(r[i])) {
        if i > 1 {
          assert r[i - 1] == rest[i - 2] && r[i] == rest[i - 1];
        }
      }
      assert InsertByName(x, s) == r;
    }
  }

  lemma {:induction false} SortByNameSorted(s: seq<Listed>)
    ensures SortedByName(SortByName(s))
  {
    if |s| > 0 {
      SortByNameSorted(s[1..]);
      InsertByNameSorted(s[0], SortByName(s[1..]));
    }
  }

  lemma {:induction false} SortByNamePerm(s: seq<Listed>)
    ensures multiset(SortByName(s)) == multiset(s)
  {
    if |s| > 0 {
      SortByNamePerm(s[1..]);
      InsertByNameMembers(s[0], SortByName(s[1..]));
      assert s == [s[0]] + s[1..];
    }
  }

  /** Both listings are in name order and list each target of their group once. */
  lemma SortByNameProps(s: seq<Listed>)
    ensures SortedByName(SortByName(s))
    ensures multiset(SortByName(s)) == multiset(s)
  {
    SortByNameSorted(s);
    SortByNamePerm(s);
  }

  /** `enumerate(sorted(...), 1)`: entry `i` is numbered `i + 1`. */
  function Numbered(s: seq<Listed>, start: nat): (r: seq<(nat, Listed)>)
    ensures |r| == |s|
    ensures forall i :: 0 <= i < |r| ==> r[i] == (start + i, s[i])
    decreases |s|
  {
    if |s| == 0 then [] else [(start, s[0])] + Numbered(s[1..], start + 1)
  }

  /** The targets of a numbered listing, in listing order. */
  function ListedTargets(es: seq<(nat, Listed)>): (r: seq<Listed>)
    ensures |r| == |es| && forall i :: 0 <= i < |es| ==> r[i] == es[i].1
    decreases |es|
  {
    if |es| == 0 then [] else [es[0].1] + ListedTargets(es[1..])
  }

  /** The targets of the enabled listing, in listing order. */
  function ShownTargets(es: seq<(nat, Listed, real)>): (r: seq<Listed>)
    ensures |r| == |es| && forall i :: 0 <= i < |es| ==> r[i] == es[i].1
    decreases |es|
  {
    if |es| == 0 then [] else [es[0].1] + ShownTargets(es[1..])
  }

  /**
   * The length of the listing's prefix whose RPCs are known: the next target has
   * none, because `calculate_rpc_for_target` gives None or the lookup raises, and
   * either way its `:.2f` line raises.
   */
  function KnownPrefix(s: seq<Listed>, rpcOf: Option<string> -> Option<real>): (k: nat)
    ensures k <= |s| && (k < |s| ==> rpcOf(s[k].id).None?)
    ensures forall i :: 0 <= i < k ==> rpcOf(s[i].id).Some?
    decreases |s|
  {
    if |s| == 0 || rpcOf(s[0].id).None? then 0 else 1 + KnownPrefix(s[1..], rpcOf)
  }

  /** `enumerate(s, start)` with the RPC printed for each target. */
  function WithRpc(s: seq<Listed>, start: nat, rpcOf: Option<string> -> Option<real>): (r: seq<(nat, Listed, real)>)
    requires forall i :: 0 <= i < |s| ==> rpcOf(s[i].id).Some?
    ensures |r| == |s| && forall i :: 0 <= i < |s| ==> r[i] == (start + i, s[i], rpcOf(s[i].id).value)
    decreases |s|
  {
    if |s| == 0 then [] else [(start, s[0], rpcOf(s[0].id).value)] + WithRpc(s[1..], start + 1, rpcOf)
  }

  /**
   * What `main` lists: the enabled entries printed with their RPC, the disabled
   * entries, and whether an exception ended the script with `exit(1)`.
   */
  datatype ListingRun = ListingRun(enabled: seq<(nat, Listed, real)>, disabled: seq<(nat, Listed)>, failed: bool)

  /**
   * The listings `main` prints, `rpcOf` giving `calculate_rpc_for_target` of each
   * target's details (None: no RPC, or the lookup raised). The enabled group is
   * listed in name order, numbered from 1, up to the first target without an RPC,
   * whose line raises and ends the script; otherwise the whole enabled group is
   * listed, and the disabled group too when it is asked for.
   */
  function Listings(ts: seq<Listed>, showDisabled: bool, rpcOf: Option<string> -> Option<real>): (r: ListingRun)
    ensures var sorted := SortByName(EnabledOf(ts));
      var k := KnownPrefix(sorted, rpcOf);
      |r.enabled| == k && (r.failed <==> k < |sorted|) &&
      forall i :: 0 <= i < k ==> r.enabled[i] == (i + 1, sorted[i], rpcOf(sorted[i].id).value)
    ensures r.failed <==> exists t :: t in EnabledOf(ts) && rpcOf(t.id).None?
    ensures !r.failed ==>
      multiset(ShownTargets(r.enabled)) == multiset(EnabledOf(ts)) && SortedByName(ShownTargets(r.enabled))
    ensures r.failed || !showDisabled ==> r.disabled == []
    ensures !r.failed && showDisabled ==>
      multiset(ListedTargets(r.disabled)) == multiset(DisabledOf(ts)) && SortedByName(ListedTargets(r.disabled)) &&
      forall i :: 0 <= i < |r.disabled| ==> r.disabled[i].0 == i + 1
  {
    var sorted := SortByName(EnabledOf(ts));
    var k := KnownPrefix(sorted, rpcOf);
    var shown := WithRpc(sorted[..k], 1, rpcOf);
    EnabledListing(ts, rpcOf);
    DisabledListing(ts);
    ListingRun(shown, if showDisabled && k == |sorted| then Numbered(SortByName(DisabledOf(ts)), 1) else [], k < |sorted|)
  }

  /** The enabled listing stops early iff some enabled target has no RPC; otherwise it shows the group in name order. */
  lemma EnabledListing(ts: seq<Listed>, rpcOf: Option<string> -> Option<real>)
    ensures var sorted := SortByName(EnabledOf(ts));
      var k := KnownPrefix(sorted, rpcOf);
      (k < |sorted| <==> exists t :: t in EnabledOf(ts) && rpcOf(t.id).None?) &&
      (k == |sorted| ==> var shown := ShownTargets(WithRpc(sorted[..k], 1, rpcOf));
        multiset(shown) == multiset(EnabledOf(ts)) && SortedByName(shown))
  {
    var sorted := SortByName(EnabledOf(ts));
    SortByNameProps(EnabledOf(ts));
    SameMembers(sorted, EnabledOf(ts));
    CutListing(sorted, rpcOf);
  }

  lemma SameMembers(a: seq<Listed>, b: seq<Listed>)
    requires multiset(a) == multiset(b)
    ensures forall t :: t in a <==> t in b
  {
    assert forall t :: t in a <==> t in multiset(a);
    assert forall t :: t in b <==> t in multiset(b);
  }

  /** Cutting a listing at the first target without an RPC. */
  lemma CutListing(sorted: seq<Listed>, rpcOf: Option<string> -> Option<real>)
    ensures var k := KnownPrefix(sorted, rpcOf);
      (k < |sorted| <==> exists t :: t in sorted && rpcOf(t.id).None?) &&
      (k == |sorted| ==> ShownTargets(WithRpc(sorted[..k], 1, rpcOf)) == sorted)
  {
    var k := KnownPrefix(sorted, rpcOf);
    if k < |sorted| {
      assert sorted[k] in sorted;
    } else {
      assert sorted[..k] == sorted;
      ShownAll(sorted, rpcOf);
    }
  }

  lemma ShownAll(s: seq<Listed>, rpcOf: Option<string> -> Option<real>)
    requires forall i :: 0 <= i < |s| ==> rpcOf(s[i].id).Some?
    ensures ShownTargets(WithRpc(s, 1, rpcOf)) == s
  {
    var shown := ShownTargets(WithRpc(s, 1, rpcOf));
    assert |shown| == |s|;
  }

  lemma DisabledListing(ts: seq<Listed>)
    ensures var listed := ListedTargets(Numbered(SortByName(DisabledOf(ts)), 1));
      multiset(listed) == multiset(DisabledOf(ts)) && SortedByName(listed)
  {
    SortByNameProps(DisabledOf(ts));
    assert ListedTargets(Numbered(SortByName(DisabledOf(ts)), 1)) == SortByName(DisabledOf(ts));
  }

  /** Both listings are numbered from 1 in name order. */
  lemma ListingsNumbered(ts: seq<Listed>, showDisabled: bool, rpcOf: Option<string> -> Option<real>)
    ensures var r := Listings(ts, showDisabled, rpcOf);
      (forall i :: 0 <= i < |r.enabled| ==> r.enabled[i].0 == i + 1) &&
      (forall i :: 0 < i < |r.enabled| ==> StrLe(NameKey(r.enabled[i - 1].1), NameKey(r.enabled[i].1))) &&
      (forall i :: 0 <= i < |r.disabled| ==> r.disabled[i].0 == i + 1) &&
      (forall i :: 0 < i < |r.disabled| ==> StrLe(NameKey(r.disabled[i - 1].1), NameKey(r.disabled[i].1)))
  {
    var r := Listings(ts, showDisabled, rpcOf);
    var sorted := SortByName(EnabledOf(ts));
    SortByNameSorted(EnabledOf(ts));
    SortByNameSorted(DisabledOf(ts));
    PrefixInOrder(sorted, r.enabled);
    if |r.disabled| > 0 {
      NumberedInOrder(SortByName(DisabledOf(ts)), r.disabled);
    }
  }

  lemma PrefixInOrder(sorted: seq<Listed>, es: seq<(nat, Listed, real)>)
    requires SortedByName(sorted) && |es| <= |sorted|
    requires forall i :: 0 <= i < |es| ==> es[i].1 == sorted[i]
    ensures forall i :: 0 < i < |es| ==> StrLe(NameKey(es[i - 1].1), NameKey(es[i].1))
  {
  }

  lemma NumberedInOrder(s: seq<Listed>, es: seq<(nat, Listed)>)
    requires SortedByName(s) && es == Numbered(s, 1)
    ensures forall i :: 0 < i < |es| ==> StrLe(NameKey(es[i - 1].1), NameKey(es[i].1))
  {
  }

  /** The disabled group is shown iff the lower-cased, stripped answer is `y`. */
  predicate ShowDisabled(answer: string)
  {
    Strip(Lower(answer)) == "y"
  }

  /** `os.getenv('RPC_THRESHOLD', '10.0')`: the shown threshold defaults to `10.0`. */
  function ShownThreshold(env: Option<string>): (r: string)
    ensures env.None? ==> r == "10.0"
    ensures env.Some? ==> r == env.value
  {
    if env.Some? then env.value else "10.0"
  }
}
