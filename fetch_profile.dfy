/**
 * The profile probe: walk the decoded profile, record each ID-like string
 * with the dotted path where it was found, and pick the most likely account
 * ID among them. The profile response is an input.
 */
module FetchProfile {
  import opened Common

  /** `f"{path}.{key}" if path else key`. */
  function KeyPath(path: string, key: string): (r: string)
    ensures path == "" ==> r == key
    ensures path != "" ==> r == path + "." + key
  {
    if path != "" then path + "." + key else key
  }

  /** `f"{path}[{i}]"`. */
  function ItemPath(path: string, i: nat): string
  {
    path + "[" + NatToString(i) + "]"
  }

  /** A string value recorded under this key: longer than 10, and an ID-ish key or an `RA` value longer than 15. No hex rule. */
  predicate Recorded(key: string, v: string)
  {
    |v| > 10 &&
    (Contains(Lower(key), "id") || Contains(Lower(key), "account") || (StartsWith(v, "RA") && |v| > 15))
  }

  /** `scan_for_ids(data, path)`: the `(path, value)` pairs it appends, in traversal order. */
  function Scan(j: Json, path: string): seq<(string, string)>
    decreases j, 1
  {
    match j
    case JObj(members) => ScanMembers(members, path, j)
    case JArr(items) => ScanItems(items, path, 0, j)
    case _ => []
  }

  function ScanMembers(members: seq<(string, Json)>, path: string, ghost parent: Json): seq<(string, string)>
    requires forall m :: m in members ==> m.1 < parent
    decreases parent, 0, |members|
  {
    if |members| == 0 then []
    else
      var (key, value) := members[0];
      (if value.JObj? || value.JArr? then Scan(value, KeyPath(path, key))
       else if value.JStr? && Recorded(key, value.s) then [(KeyPath(path, key), value.s)]
       else []) +
      ScanMembers(members[1..], path, parent)
  }

  /** The items of a list from index `start` on, each scanned under the path with its index. */
  function ScanItems(items: seq<Json>, path: string, start: nat, ghost parent: Json): seq<(string, string)>
    requires forall x :: x in items ==> x < parent
    decreases parent, 0, |items|
  {
    if |items| == 0 then []
    else
      assert items[0] in items && forall x :: x in items[1..] ==> x in items;
      Scan(items[0], ItemPath(path, start)) + ScanItems(items[1..], path, start + 1, parent)
  }

  /** The members are visited in order: the scan of two runs of members is the scan of the first, then of the second. */
  lemma {:induction false} ScanMembersAppend(ms1: seq<(string, Json)>, ms2: seq<(string, Json)>, path: string, parent: Json)
    requires forall m :: m in ms1 + ms2 ==> m.1 < parent
    ensures ScanMembers(ms1 + ms2, path, parent) == ScanMembers(ms1, path, parent) + ScanMembers(ms2, path, parent)
    decreases |ms1|
  {
    if |ms1| > 0 {
      assert (ms1 + ms2)[0] == ms1[0];
      assert (ms1 + ms2)[1..] == ms1[1..] + ms2;
      ScanMembersAppend(ms1[1..], ms2, path, parent);
    } else {
      assert ms1 + ms2 == ms2;
    }
  }

  /**
   * Some object, at any depth of `j` scanned under `path`, has the member
   * `key: v` with `v` a string, and `p` is that member's path.
   */
  ghost predicate LeafAt(j: Json, path: string, p: string, key: string, v: string)
    decreases j
  {
    match j
    case JObj(ms) =>
      exists i :: 0 <= i < |ms| &&
        ((ms[i] == (key, JStr(v)) && p == KeyPath(path, key)) || LeafAt(ms[i].1, KeyPath(path, ms[i].0), p, key, v))
    case JArr(xs) => exists i :: 0 <= i < |xs| && LeafAt(xs[i], ItemPath(path, i), p, key, v)
    case _ => false
  }

  /**
   * The recorded pairs are exactly the string values of object members, at any
   * depth, that pass the rule for their own key, each with the path where it sits.
   */
  lemma ScanRecords(j: Json, path: string)
    ensures forall r :: r in Scan(j, path) ==> |r.1| > 10 && exists key :: LeafAt(j, path, r.0, key, r.1) && Recorded(key, r.1)
    ensures forall p, key, v :: LeafAt(j, path, p, key, v) && Recorded(key, v) ==> (p, v) in Scan(j, path)
  {
    forall r | r in Scan(j, path)
      ensures |r.1| > 10 && exists key :: LeafAt(j, path, r.0, key, r.1) && Recorded(key, r.1)
    {
      var key := ScanFrom(j, path, r);
    }
    forall p, key, v | LeafAt(j, path, p, key, v) && Recorded(key, v)
      ensures (p, v) in Scan(j, path)
    {
      ScanFinds(j, path, p, key, v);
    }
  }

  lemma {:induction false} ScanFrom(j: Json, path: string, r: (string, string)) returns (key: string)
    requires r in Scan(j, path)
    ensures LeafAt(j, path, r.0, key, r.1) && Recorded(key, r.1)
    decreases j, 1
  {
    match j
    case JObj(members) =>
      var i;
      key, i := ScanMembersFrom(members, path, j, r);
    case JArr(items) =>
      var i;
      key, i := ScanItemsFrom(items, path, 0, j, r);
  }

  lemma {:induction false} ScanMembersFrom(members: seq<(string, Json)>, path: string, parent: Json, r: (string, string))
    returns (key: string, i: nat)
    requires forall m :: m in members ==> m.1 < parent
    requires r in ScanMembers(members, path, parent)
    ensures i < |members| && Recorded(key, r.1)
    ensures (members[i] == (key, JStr(r.1)) && r.0 == KeyPath(path, key)) || LeafAt(members[i].1, KeyPath(path, members[i].0), r.0, key, r.1)
    decreases parent, 0, |members|
  {
    var (k0, value) := members[0];
    var head := if value.JObj? || value.JArr? then Scan(value, KeyPath(path, k0))
      else if value.JStr? && Recorded(k0, value.s) then [(KeyPath(path, k0), value.s)] else [];
    assert ScanMembers(members, path, parent) == head + ScanMembers(members[1..], path, parent);
    if r in head {
      i := 0;
      if value.JObj? || value.JArr? {
        key := ScanFrom(value, KeyPath(path, k0), r);
      } else {
        key := k0;
      }
    } else {
      var i';
      key, i' := ScanMembersFrom(members[1..], path, parent, r);
      i := i' + 1;
      assert members[1..][i'] == members[i];
    }
  }

  lemma {:induction false} ScanItemsFrom(items: seq<Json>, path: string, start: nat, parent: Json, r: (string, string))
    returns (key: string, i: nat)
    requires forall x :: x in items ==> x < parent
    requires r in ScanItems(items, path, start, parent)
    ensures i < |items| && LeafAt(items[i], ItemPath(path, start + i), r.0, key, r.1) && Recorded(key, r.1)
    decreases parent, 0, |items|
  {
    assert items[0] in items && forall x :: x in items[1..] ==> x in items;
    if r in Scan(items[0], ItemPath(path, start)) {
      key := ScanFrom(items[0], ItemPath(path, start), r);
      i := 0;
    } else {
      var i';
      key, i' := ScanItemsFrom(items[1..], path, start + 1, parent, r);
      i := i' + 1;
      assert items[1..][i'] == items[i];
    }
  }

  lemma {:induction false} ScanFinds(j: Json, path: string, p: string, key: string, v: string)
    requires LeafAt(j, path, p, key, v) && Recorded(key, v)
    ensures (p, v) in Scan(j, path)
    decreases j, 1
  {
    match j
    case JObj(members) =>
      var i :| 0 <= i < |members| &&
        ((members[i] == (key, JStr(v)) && p == KeyPath(path, key)) || LeafAt(members[i].1, KeyPath(path, members[i].0), p, key, v));
      ScanMembersFinds(members, path, j, p, key, v, i);
    case JArr(items) =>
      var i :| 0 <= i < |items| && LeafAt(items[i], ItemPath(path, i), p, key, v);
      ScanItemsFinds(items, path, 0, j, p, key, v, i);
  }

  lemma {:induction false} ScanMembersFinds(members: seq<(string, Json)>, path: string, parent: Json, p: string, key: string, v: string, i: nat)
    requires forall m :: m in members ==> m.1 < parent
    requires i < |members| && Recorded(key, v)
    requires (members[i] == (key, JStr(v)) && p == KeyPath(path, key)) || LeafAt(members[i].1, KeyPath(path, members[i].0), p, key, v)
    ensures (p, v) in ScanMembers(members, path, parent)
    decreases parent, 0, |members|
  {
    var (k0, value) := members[0];
    var head := if value.JObj? || value.JArr? then Scan(value, KeyPath(path, k0))
      else if value.JStr? && Recorded(k0, value.s) then [(KeyPath(path, k0), value.s)] else [];
    assert ScanMembers(members, path, parent) == head + ScanMembers(members[1..], path, parent);
    if i == 0 {
      if !(members[0] == (key, JStr(v)) && p == KeyPath(path, key)) {
        assert value.JObj? || value.JArr?;
        ScanFinds(value, KeyPath(path, k0), p, key, v);
      }
    } else {
      assert members[1..][i - 1] == members[i];
      ScanMembersFinds(members[1..], path, parent, p, key, v, i - 1);
    }
  }

  lemma {:induction false} ScanItemsFinds(items: seq<Json>, path: string, start: nat, parent: Json, p: string, key: string, v: string, i: nat)
    requires forall x :: x in items ==> x < parent
    requires i < |items| && Recorded(key, v) && LeafAt(items[i], ItemPath(path, start + i), p, key, v)
    ensures (p, v) in ScanItems(items, path, start, parent)
    decreases parent, 0, |items|
  {
    assert items[0] in items && forall x :: x in items[1..] ==> x in items;
    if i == 0 {
      ScanFinds(items[0], ItemPath(path, start), p, key, v);
    } else {
      assert items[1..][i - 1] == items[i];
      ScanItemsFinds(items[1..], path, start + 1, parent, p, key, v, i - 1);
    }
  }

  /** A top-level string value is recorded under its bare key, with no leading dot, iff the leaf rule holds. */
  lemma TopLevelLeaf(key: string, v: string)
    ensures Scan(JObj([(key, JStr(v))]), "") == if Recorded(key, v) then [(key, v)] else []
  {
    var ms := [(key, JStr(v))];
    assert ScanMembers(ms, "", JObj(ms)) == (if Recorded(key, v) then [(key, v)] else []) + ScanMembers(ms[1..], "", JObj(ms));
  }

  /** A value nested in a dict inside a list records the path `parent.key[i].inner`. */
  lemma NestedLeaf(outer: string, i: nat, inner: string, v: string, before: seq<Json>)
    requires |before| == i
    ensures var list := JArr(before + [JObj([(inner, JStr(v))])]);
      var j := JObj([(outer, list)]);
      Recorded(inner, v) ==> (KeyPath(ItemPath(outer, i), inner), v) in Scan(j, "")
  {
    var leaf := JObj([(inner, JStr(v))]);
    var items := before + [leaf];
    var list := JArr(items);
    var j := JObj([(outer, list)]);
    if Recorded(inner, v) {
      var p := KeyPath(ItemPath(outer, i), inner);
      assert leaf.members[0] == (inner, JStr(v));
      assert LeafAt(leaf, ItemPath(outer, i), p, inner, v);
      assert items[i] == leaf;
      assert LeafAt(list, KeyPath("", outer), p, inner, v);
      assert j.members[0] == (outer, list);
      assert LeafAt(j, "", p, inner, v);
      ScanRecords(j, "");
    }
  }

  /** Each item's scan, under the path with its own index, is part of the list's scan. */
  lemma {:induction false} ScanItemsAt(items: seq<Json>, path: string, start: nat, parent: Json, k: nat)
    requires forall x :: x in items ==> x < parent
    requires k < |items|
    ensures forall p :: p in Scan(items[k], ItemPath(path, start + k)) ==> p in ScanItems(items, path, start, parent)
    decreases k
  {
    assert items[0] in items && forall x :: x in items[1..] ==> x in items;
    if k > 0 {
      ScanItemsAt(items[1..], path, start + 1, parent, k - 1);
      assert items[1..][k - 1] == items[k];
    }
  }

  /** `"account" in path.lower() and value.startswith("RA")`. */
  function AccountLike(): ((string, string)) -> bool
  {
    (r: (string, string)) => Contains(Lower(r.0), "account") && StartsWith(r.1, "RA")
  }

  /** The `most_likely` loop: the first reference whose path mentions an account and whose value starts with `RA`. */
  method MostLikely(refs: seq<(string, string)>) returns (mostLikely: Option<string>)
    ensures var k := FirstIndex(refs, AccountLike());
      (mostLikely.None? <==> k == |refs|) && (mostLikely.Some? ==> mostLikely.value == refs[k].1)
    ensures mostLikely.Some? ==> StartsWith(mostLikely.value, "RA")
  {
    mostLikely := None;
    var i := 0;
    while i < |refs|
      invariant i <= |refs|
      invariant forall j :: 0 <= j < i ==> !AccountLike()(refs[j])
    {
      var (path, value) := refs[i];
      if Contains(Lower(path), "account") && StartsWith(value, "RA") {
        mostLikely := Some(value);
        break;
      }
      i := i + 1;
    }
    FirstIndexIs(refs, AccountLike(), i);
  }
}
