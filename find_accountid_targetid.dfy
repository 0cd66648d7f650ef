/**
 * The account-ID finder: build the ID variants to try from the configured
 * account ID and the ID-like strings in the profile, then try them in order
 * and stop at the first that the targets endpoint accepts. The profile, the
 * token list and the HTTP statuses are inputs.
 */
module FindAccountidTargetid {
  import opened Common

  const MinTriedLength: nat := 10

  /** `s[:i] + '-' + s[i:]`. */
  function InsertHyphen(s: string, i: nat): (r: string)
    requires i <= |s|
    ensures |r| == |s| + 1 && r[i] == '-' && r[..i] == s[..i] && r[i + 1..] == s[i..]
  {
    s[..i] + "-" + s[i..]
  }

  /** The hyphenated ID the loop over `[8, 16, 24]` builds from an ID of 32 or more characters. */
  function Hyphenated(s: string): string
    requires |s| >= 32
  {
    InsertHyphen(InsertHyphen(InsertHyphen(s, 8), 16), 24)
  }

  /**
   * The loop inserts a hyphen at index 8, then 16, then 24 of the growing string:
   * three more characters, hyphens at 8, 16 and 24, and the original characters
   * in between, so that removing the hyphens gives back an ID that had none.
   */
  lemma HyphenatedProps(s: string)
    requires |s| >= 32
    ensures var r := Hyphenated(s);
      |r| == |s| + 3 && r[8] == '-' && r[16] == '-' && r[24] == '-' &&
      r == s[..8] + "-" + s[8..15] + "-" + s[15..22] + "-" + s[22..] &&
      ('-' !in s ==> ReplaceAll(r, "-", "") == s)
  {
    var s1 := InsertHyphen(s, 8);
    var s2 := InsertHyphen(s1, 16);
    var r := InsertHyphen(s2, 24);
    assert s1[..16] == s[..8] + "-" + s[8..15];
    assert s1[16..] == s[15..];
    assert s2[..24] == s[..8] + "-" + s[8..15] + "-" + s[15..22];
    assert s2[24..] == s[22..];
    if '-' !in s {
      DeleteChar(r, '-');
      HyphenFree(s, s[..8], s[8..15], s[15..22], s[22..]);
    }
  }

  /** Removing the hyphens from `a-b-c-d` gives `abcd` when the parts have none. */
  lemma HyphenFree(s: string, a: string, b: string, c: string, d: string)
    requires s == a + b + c + d && '-' !in s
    ensures Filter(a + "-" + b + "-" + c + "-" + d, '-') == s
  {
    assert '-' !in a && '-' !in b && '-' !in c && '-' !in d by {
      assert forall x :: x in a || x in b || x in c || x in d ==> x in s;
    }
    FilterAbsent(a, '-');
    FilterAbsent(b, '-');
    FilterAbsent(c, '-');
    FilterAbsent(d, '-');
    var t2 := a + "-" + b;
    var t3 := t2 + "-" + c;
    FilterDrop(a, b, '-');
    FilterDrop(t2, c, '-');
    FilterDrop(t3, d, '-');
    assert t3 + "-" + d == a + "-" + b + "-" + c + "-" + d;
  }

  lemma FilterDrop(x: string, y: string, c: char)
    ensures Filter(x + [c] + y, c) == Filter(x, c) + Filter(y, c)
  {
    var w: string := [c];
    assert w[1..] == [];
    assert Filter(w, c) == [] + Filter(w[1..], c);
    FilterConcat(x + w, y, c);
    FilterConcat(x, w, c);
  }

  /** The variants derived from the configured ID alone, in the order they are appended. */
  function BaseVariants(current: string): (vs: seq<string>)
    ensures |vs| >= 1
    ensures current != "" ==> vs[0] == current
    ensures StartsWith(current, "RA") ==> current[2..] in vs
    ensures !StartsWith(current, "RA") ==> "RA" + current in vs
    ensures '-' in current ==> ReplaceAll(current, "-", "") in vs
    ensures '-' !in current && |current| >= 32 ==> Hyphenated(current) in vs
    ensures |vs| <= 3
  {
    (if current != "" then [current] else []) +
    (if StartsWith(current, "RA") then [current[2..]] else ["RA" + current]) +
    (if '-' in current then [ReplaceAll(current, "-", "")]
     else if |current| >= 32 then [Hyphenated(current)]
     else [])
  }

  /** Is this the kind of string `scan_for_ids` collects under this key? */
  predicate IdLike(key: string, v: string)
  {
    |v| > 10 &&
    (Contains(Lower(key), "id") || Contains(Lower(key), "account") ||
     (StartsWith(v, "RA") && |v| > 15) ||
     (|v| >= 32 && forall i :: 0 <= i < |v| ==> IsHexDigit(v[i]) || v[i] == '-'))
  }

  /**
   * `scan_for_ids`: the strings it appends, in traversal order. Dict values that
   * are dicts or lists are scanned; string values are checked against their key;
   * list items are scanned, so a string directly inside a list is never taken.
   */
  function Scan(j: Json): seq<string>
    decreases j, 1
  {
    match j
    case JObj(members) => ScanMembers(members, j)
    case JArr(items) => ScanItems(items, j)
    case _ => []
  }

  function ScanMembers(members: seq<(string, Json)>, ghost parent: Json): seq<string>
    requires forall m :: m in members ==> m.1 < parent
    decreases parent, 0, |members|
  {
    if |members| == 0 then []
    else
      var (key, value) := members[0];
      (if value.JObj? || value.JArr? then Scan(value)
       else if value.JStr? && IdLike(key, value.s) then [value.s]
       else []) +
      ScanMembers(members[1..], parent)
  }

  function ScanItems(items: seq<Json>, ghost parent: Json): seq<string>
    requires forall x :: x in items ==> x < parent
    decreases parent, 0, |items|
  {
    if |items| == 0 then []
    else
      assert items[0] in items && forall x :: x in items[1..] ==> x in items;
      Scan(items[0]) + ScanItems(items[1..], parent)
  }

  /** Some object, at any depth of `j`, has the member `key: v` with `v` a string. */
  ghost predicate HasLeaf(j: Json, key: string, v: string)
    decreases j
  {
    match j
    case JObj(ms) => exists i :: 0 <= i < |ms| && (ms[i] == (key, JStr(v)) || HasLeaf(ms[i].1, key, v))
    case JArr(xs) => exists i :: 0 <= i < |xs| && HasLeaf(xs[i], key, v)
    case _ => false
  }

  /**
   * The collected strings are exactly the string values of object members, at
   * any depth, that are ID-like for their own key.
   */
  lemma ScanCollects(j: Json)
    ensures forall v :: v in Scan(j) ==> |v| > 10 && exists key :: HasLeaf(j, key, v) && IdLike(key, v)
    ensures forall key, v :: HasLeaf(j, key, v) && IdLike(key, v) ==> v in Scan(j)
  {
    forall v | v in Scan(j)
      ensures |v| > 10 && exists key :: HasLeaf(j, key, v) && IdLike(key, v)
    {
      ScanFrom(j, v);
    }
    forall key, v | HasLeaf(j, key, v) && IdLike(key, v)
      ensures v in Scan(j)
    {
      ScanFinds(j, key, v);
    }
  }

  lemma {:induction false} ScanFrom(j: Json, v: string)
    requires v in Scan(j)
    ensures exists key :: HasLeaf(j, key, v) && IdLike(key, v)
    decreases j, 1
  {
    match j
    case JObj(members) =>
      var key, i := ScanMembersFrom(members, j, v);
    case JArr(items) =>
      var key, i := ScanItemsFrom(items, j, v);
  }

  lemma {:induction false} ScanMembersFrom(members: seq<(string, Json)>, parent: Json, v: string) returns (key: string, i: nat)
    requires forall m :: m in members ==> m.1 < parent
    requires v in ScanMembers(members, parent)
    ensures i < |members| && (members[i] == (key, JStr(v)) || HasLeaf(members[i].1, key, v)) && IdLike(key, v)
    decreases parent, 0, |members|
  {
    var (k0, value) := members[0];
    var head := if value.JObj? || value.JArr? then Scan(value)
      else if value.JStr? && IdLike(k0, value.s) then [value.s] else [];
    assert ScanMembers(members, parent) == head + ScanMembers(members[1..], parent);
    if v in head {
      i := 0;
      if value.JObj? || value.JArr? {
        ScanFrom(value, v);
        key :| HasLeaf(value, key, v) && IdLike(key, v);
      } else {
        key := k0;
      }
    } else {
      var i';
      key, i' := ScanMembersFrom(members[1..], parent, v);
      i := i' + 1;
      assert members[1..][i'] == members[i];
    }
  }

  lemma {:induction false} ScanItemsFrom(items: seq<Json>, parent: Json, v: string) returns (key: string, i: nat)
    requires forall x :: x in items ==> x < parent
    requires v in ScanItems(items, parent)
    ensures i < |items| && HasLeaf(items[i], key, v) && IdLike(key, v)
    decreases parent, 0, |items|
  {
    assert items[0] in items && forall x :: x in items[1..] ==> x in items;
    if v in Scan(items[0]) {
      ScanFrom(items[0], v);
      key :| HasLeaf(items[0], key, v) && IdLike(key, v);
      i := 0;
    } else {
      var i';
      key, i' := ScanItemsFrom(items[1..], parent, v);
      i := i' + 1;
      assert items[1..][i'] == items[i];
    }
  }

  lemma {:induction false} ScanFinds(j: Json, key: string, v: string)
    requires HasLeaf(j, key, v) && IdLike(key, v)
    ensures v in Scan(j)
    decreases j, 1
  {
    match j
    case JObj(members) =>
      var i :| 0 <= i < |members| && (members[i] == (key, JStr(v)) || HasLeaf(members[i].1, key, v));
      ScanMembersFinds(members, j, key, v, i);
    case JArr(items) =>
      var i :| 0 <= i < |items| && HasLeaf(items[i], key, v);
      ScanItemsFinds(items, j, key, v, i);
  }

  lemma {:induction false} ScanMembersFinds(members: seq<(string, Json)>, parent: Json, key: string, v: string, i: nat)
    requires forall m :: m in members ==> m.1 < parent
    requires i < |members| && (members[i] == (key, JStr(v)) || HasLeaf(members[i].1, key, v)) && IdLike(key, v)
    ensures v in ScanMembers(members, parent)
    decreases parent, 0, |members|
  {
    var (k0, value) := members[0];
    var head := if value.JObj? || value.JArr? then Scan(value)
      else if value.JStr? && IdLike(k0, value.s) then [value.s] else [];
    assert ScanMembers(members, parent) == head + ScanMembers(members[1..], parent);
    if i == 0 {
      if members[0] != (key, JStr(v)) {
        assert value.JObj? || value.JArr?;
        ScanFinds(value, key, v);
      }
    } else {
      assert members[1..][i - 1] == members[i];
      ScanMembersFinds(members[1..], parent, key, v, i - 1);
    }
  }

  lemma {:induction false} ScanItemsFinds(items: seq<Json>, parent: Json, key: string, v: string, i: nat)
    requires forall x :: x in items ==> x < parent
    requires i < |items| && HasLeaf(items[i], key, v) && IdLike(key, v)
    ensures v in ScanItems(items, parent)
    decreases parent, 0, |items|
  {
    assert items[0] in items && forall x :: x in items[1..] ==> x in items;
    if i == 0 {
      ScanFinds(items[0], key, v);
    } else {
      assert items[1..][i - 1] == items[i];
      ScanItemsFinds(items[1..], parent, key, v, i - 1);
    }
  }

  /** A string value under a key is collected iff it is ID-like for that key. */
  lemma LeafRule(key: string, v: string)
    ensures Scan(JObj([(key, JStr(v))])) == if IdLike(key, v) then [v] else []
  {
    var ms := [(key, JStr(v))];
    assert ScanMembers(ms, JObj(ms)) == (if IdLike(key, v) then [v] else []) + ScanMembers(ms[1..], JObj(ms));
  }

  /** A string directly inside a list is not collected, however ID-like it is. */
  lemma ListStringsIgnored(v: string)
    ensures Scan(JArr([JStr(v)])) == []
  {
    assert Scan(JStr(v)) == [];
    assert ScanItems([JStr(v)], JArr([JStr(v)])) == Scan(JStr(v)) + ScanItems([], JArr([JStr(v)]));
  }

  /** `for ref in account_references: if ref not in account_id_variants: append`. */
  function MergeRefs(vs: seq<string>, refs: seq<string>): seq<string>
  {
    if |refs| == 0 then vs
    else
      var acc := MergeRefs(vs, refs[..|refs| - 1]);
      var r := refs[|refs| - 1];
      if r in acc then acc else acc + [r]
  }

  /**
   * Merging keeps the variants as a prefix, adds every reference, and adds each
   * reference not already present exactly once: the added part has no duplicates
   * and nothing already among the variants.
   */
  lemma {:induction false} MergeRefsProps(vs: seq<string>, refs: seq<string>)
    ensures var m := MergeRefs(vs, refs);
      |m| >= |vs| && m[..|vs|] == vs &&
      (forall r :: r in refs ==> r in m) &&
      (forall x :: x in m ==> x in vs || x in refs) &&
      (forall i :: |vs| <= i < |m| ==> m[i] !in vs && m[i] !in m[..i])
  {
    if |refs| > 0 {
      var init := refs[..|refs| - 1];
      var acc := MergeRefs(vs, init);
      var r := refs[|refs| - 1];
      MergeRefsProps(vs, init);
      assert refs == init + [r];
      if r !in acc {
        var m := acc + [r];
        assert m[..|vs|] == acc[..|vs|];
        assert m[..|acc|] == acc;
        forall i | |vs| <= i < |m| ensures m[i] !in vs && m[i] !in m[..i] {
          if i < |acc| {
            assert m[..i] == acc[..i];
          } else {
            assert r !in acc[..|vs|];
          }
        }
      }
    }
  }

  /**
   * The variant list of `main`: the configured ID's variants, the hyphen loop, then
   * the profile's references not yet present. `profile` is the decoded profile of a
   * 200 response (None otherwise). The references the API tokens add to the
   * reference list come after the merge, so they never reach the variant list and
   * are not modelled.
   */
  method AccountIdVariants(current: string, profile: Option<Json>) returns (variants: seq<string>)
    ensures variants == MergeRefs(BaseVariants(current), if profile.Some? then Scan(profile.value) else [])
  {
    variants := [];
    if current != "" {
      variants := variants + [current];
    }
    if StartsWith(current, "RA") {
      variants := variants + [current[2..]];
    } else {
      variants := variants + ["RA" + current];
    }
    if '-' in current {
      variants := variants + [ReplaceAll(current, "-", "")];
    } else if |current| >= 32 {
      var idWithHyphens := current;
      var positions := [8, 16, 24];
      var k := 0;
      while k < |positions|
        invariant k <= |positions|
        invariant k == 0 ==> idWithHyphens == current
        invariant k == 1 ==> idWithHyphens == InsertHyphen(current, 8)
        invariant k == 2 ==> idWithHyphens == InsertHyphen(InsertHyphen(current, 8), 16)
        invariant k == 3 ==> idWithHyphens == Hyphenated(current)
      {
        var i := positions[k];
        if i < |idWithHyphens| {
          idWithHyphens := idWithHyphens[..i] + "-" + idWithHyphens[i..];
        }
        k := k + 1;
      }
      variants := variants + [idWithHyphens];
    }
    assert variants == BaseVariants(current);
    var references: seq<string> := [];
    if profile.Some? {
      references := Scan(profile.value);
    }
    var base := variants;
    var n := 0;
    while n < |references|
      invariant n <= |references|
      invariant variants == MergeRefs(base, references[..n])
    {
      assert references[..n + 1][..n] == references[..n];
      if references[n] !in variants {
        variants := variants + [references[n]];
      }
      n := n + 1;
    }
    assert references[..n] == references;
  }

  /** A variant is tried when it has at least 10 characters, and it is accepted when the targets endpoint answers 200. */
  function Accepted(statusOf: string -> Option<int>): string -> bool
  {
    (v: string) => |v| >= MinTriedLength && statusOf(v) == Some(200)
  }

  /**
   * The search loop: variants shorter than 10 are skipped, a request that raises
   * (None) moves on, and the first 200 ends the search with that variant.
   */
  method FindWorkingAccountId(variants: seq<string>, statusOf: string -> Option<int>) returns (found: Option<string>)
    ensures var k := FirstIndex(variants, Accepted(statusOf));
      (found.None? <==> k == |variants|) && (found.Some? ==> found.value == variants[k])
    ensures found.Some? ==> |found.value| >= MinTriedLength && statusOf(found.value) == Some(200)
  {
    var i := 0;
    while i < |variants| && !Accepted(statusOf)(variants[i])
      invariant i <= |variants|
      invariant forall j :: 0 <= j < i ==> !Accepted(statusOf)(variants[j])
    {
      i := i + 1;
    }
    FirstIndexIs(variants, Accepted(statusOf), i);
    if i == |variants| {
      return None;
    }
    return Some(variants[i]);
  }

  /** No variant before the one found is both long enough and accepted, and without a find none is. */
  lemma FoundIsFirst(variants: seq<string>, statusOf: string -> Option<int>)
    ensures var k := FirstIndex(variants, Accepted(statusOf));
      (forall j :: 0 <= j < k ==> |variants[j]| < MinTriedLength || statusOf(variants[j]) != Some(200)) &&
      (k < |variants| ==> |variants[k]| >= MinTriedLength && statusOf(variants[k]) == Some(200))
  {
  }
}
