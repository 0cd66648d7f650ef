/**
 * Shared vocabulary of the monitoring scripts: optional values, the string
 * operations Python offers (lower(), startswith, `in`, replace, strip, split,
 * lexicographic comparison), decimal parsing as `int()` / `float()` accept it,
 * insertion-ordered dictionaries, a stable sort by key as `sorted(..., key=...)`
 * performs it, and JSON-like trees.
 */
module Common {

  datatype Option<T> = None | Some(value: T)

  // ---------------------------------------------------------------- characters

  function LowerChar(c: char): char
  {
    if 'A' <= c <= 'Z' then (c as int + 32) as char else c
  }

  /** ASCII `str.lower()`. */
  function Lower(s: string): (r: string)
    ensures |r| == |s|
    ensures forall i :: 0 <= i < |s| ==> r[i] == LowerChar(s[i])
  {
    seq(|s|, i requires 0 <= i < |s| => LowerChar(s[i]))
  }

  predicate IsSpace(c: char)
  {
    c == ' ' || c == '\t' || c == '\n' || c == '\r' || c as int == 11 || c as int == 12
  }

  predicate IsDigit(c: char)
  {
    '0' <= c <= '9'
  }

  predicate IsHexDigit(c: char)
  {
    IsDigit(c) || 'a' <= c <= 'f' || 'A' <= c <= 'F'
  }

  // ------------------------------------------------------------------ prefixes

  predicate StartsWith(s: string, p: string)
  {
    |p| <= |s| && s[..|p|] == p
  }

  predicate EndsWith(s: string, p: string)
  {
    |p| <= |s| && s[|s| - |p|..] == p
  }

  /** Python's substring test `p in s`. */
  predicate Contains(s: string, p: string)
    decreases |s|
  {
    StartsWith(s, p) || (|s| > 0 && Contains(s[1..], p))
  }

  lemma {:induction false} ContainsAt(s: string, p: string, i: nat)
    requires i + |p| <= |s| && s[i..i + |p|] == p
    ensures Contains(s, p)
    decreases i
  {
    if i > 0 {
      assert s[1..][i - 1..i - 1 + |p|] == s[i..i + |p|];
      ContainsAt(s[1..], p, i - 1);
    }
  }

  lemma {:induction false} ContainsWitness(s: string, p: string) returns (i: nat)
    requires Contains(s, p)
    ensures i + |p| <= |s| && s[i..i + |p|] == p
    decreases |s|
  {
    if StartsWith(s, p) {
      i := 0;
    } else {
      var j := ContainsWitness(s[1..], p);
      assert s[1..][j..j + |p|] == s[j + 1..j + 1 + |p|];
      i := j + 1;
    }
  }

  /** A pattern longer than the string never occurs in it. */
  lemma {:induction false} ContainsTooLong(s: string, p: string)
    requires |s| < |p|
    ensures !Contains(s, p)
    decreases |s|
  {
    if |s| > 0 {
      ContainsTooLong(s[1..], p);
    }
  }

  /** A one-character pattern occurs exactly when the character does. */
  lemma ContainsChar(s: string, c: char)
    ensures Contains(s, [c]) <==> c in s
  {
    if c in s {
      var i :| 0 <= i < |s| && s[i] == c;
      assert s[i..i + 1] == [c];
      ContainsAt(s, [c], i);
    }
    if Contains(s, [c]) {
      var i := ContainsWitness(s, [c]);
      assert s[i] == s[i..i + 1][0];
    }
  }

  // ------------------------------------------------------------------- replace

  /** Python's `s.replace(pat, rep)`: left-to-right, non-overlapping, all occurrences. */
  function ReplaceAll(s: string, pat: string, rep: string): string
    requires |pat| > 0
    decreases |s|
  {
    if |s| < |pat| then s
    else if s[..|pat|] == pat then rep + ReplaceAll(s[|pat|..], pat, rep)
    else [s[0]] + ReplaceAll(s[1..], pat, rep)
  }

  /** Replacing a pattern that does not occur changes nothing. */
  lemma {:induction false} ReplaceAbsent(s: string, pat: string, rep: string)
    requires |pat| > 0 && !Contains(s, pat)
    ensures ReplaceAll(s, pat, rep) == s
    decreases |s|
  {
    if |s| >= |pat| {
      ReplaceAbsent(s[1..], pat, rep);
    }
  }

  /** Deleting a character (`s.replace(c, '')`) removes every occurrence and nothing else. */
  lemma {:induction false} DeleteChar(s: string, c: char)
    ensures ReplaceAll(s, [c], "") == Filter(s, c)
    decreases |s|
  {
    if |s| > 0 {
      DeleteChar(s[1..], c);
    }
  }

  /** The characters of `s` other than `c`, in order. */
  function Filter(s: string, c: char): (r: string)
    ensures c !in r
    ensures forall x :: x in r <==> x in s && x != c
    decreases |s|
  {
    if |s| == 0 then "" else (if s[0] == c then "" else [s[0]]) + Filter(s[1..], c)
  }

  lemma {:induction false} FilterConcat(a: string, b: string, c: char)
    ensures Filter(a + b, c) == Filter(a, c) + Filter(b, c)
    decreases |a|
  {
    if |a| > 0 {
      assert (a + b)[1..] == a[1..] + b;
      FilterConcat(a[1..], b, c);
    } else {
      assert a + b == b;
    }
  }

  lemma {:induction false} FilterAbsent(s: string, c: char)
    requires c !in s
    ensures Filter(s, c) == s
    decreases |s|
  {
    if |s| > 0 {
      FilterAbsent(s[1..], c);
    }
  }

  // --------------------------------------------------------------------- strip

  function TrimLeft(s: string): (r: string)
    ensures |r| <= |s| && r == s[|s| - |r|..]
    ensures |r| > 0 ==> !IsSpace(r[0])
    decreases |s|
  {
    if |s| > 0 && IsSpace(s[0]) then TrimLeft(s[1..]) else s
  }

  function TrimRight(s: string): (r: string)
    ensures |r| <= |s| && r == s[..|r|]
    ensures |r| > 0 ==> !IsSpace(r[|r| - 1])
    decreases |s|
  {
    if |s| > 0 && IsSpace(s[|s| - 1]) then TrimRight(s[..|s| - 1]) else s
  }

  /** `str.strip()` with no argument: leading and trailing white space removed. */
  function Strip(s: string): (r: string)
    ensures |r| <= |s|
    ensures |r| > 0 ==> !IsSpace(r[0]) && !IsSpace(r[|r| - 1])
  {
    TrimRight(TrimLeft(s))
  }

  // --------------------------------------------------------------------- split

  /** Index of the first occurrence of `c`. */
  function IndexOf(s: string, c: char): (r: Option<nat>)
    ensures r.None? ==> c !in s
    ensures r.Some? ==> r.value < |s| && s[r.value] == c && c !in s[..r.value]
  {
    if |s| == 0 then None
    else if s[0] == c then Some(0)
    else match IndexOf(s[1..], c)
      case None => None
      case Some(i) =>
        assert s[..i + 1] == [s[0]] + s[1..][..i];
        Some(i + 1)
  }

  /** The first occurrence of `c` is where it occurs with none before. */
  lemma IndexOfFirst(s: string, c: char, k: nat)
    requires k < |s| && s[k] == c && c !in s[..k]
    ensures IndexOf(s, c) == Some(k)
  {
    assert s[k] in s;
  }

  /** Index of the last occurrence of `c`. */
  function LastIndexOf(s: string, c: char): (r: Option<nat>)
    ensures r.None? ==> c !in s
    ensures r.Some? ==> r.value < |s| && s[r.value] == c && c !in s[r.value + 1..]
    decreases |s|
  {
    if |s| == 0 then None
    else if s[|s| - 1] == c then Some(|s| - 1)
    else
      match LastIndexOf(s[..|s| - 1], c)
      case None => None
      case Some(i) =>
        assert s[i + 1..] == s[..|s| - 1][i + 1..] + [s[|s| - 1]];
        Some(i)
  }

  /** Python's `s.split(c)` for a one-character separator. */
  function Split(s: string, c: char): (r: seq<string>)
    ensures |r| >= 1
    ensures forall k :: 0 <= k < |r| ==> c !in r[k]
    decreases |s|
  {
    match IndexOf(s, c)
    case None => [s]
    case Some(i) => [s[..i]] + Split(s[i + 1..], c)
  }

  /** Python's `c.join(parts)` for a one-character separator. */
  function Join(parts: seq<string>, c: char): string
  {
    if |parts| == 0 then ""
    else if |parts| == 1 then parts[0]
    else parts[0] + [c] + Join(parts[1..], c)
  }

  /** Splitting and re-joining on the same separator gives back the string. */
  lemma {:induction false} JoinSplit(s: string, c: char)
    ensures Join(Split(s, c), c) == s
    decreases |s|
  {
    match IndexOf(s, c)
    case None =>
    case Some(i) =>
      var rest := Split(s[i + 1..], c);
      var parts := [s[..i]] + rest;
      assert Split(s, c) == parts;
      assert |parts| > 1 && parts[0] == s[..i] && parts[1..] == rest;
      assert Join(parts, c) == s[..i] + [c] + Join(rest, c);
      JoinSplit(s[i + 1..], c);
      assert s == s[..i] + [c] + s[i + 1..];
  }

  /** Joining parts free of the separator and splitting again gives the parts back. */
  lemma {:induction false} SplitJoin(parts: seq<string>, c: char)
    requires |parts| > 0
    requires forall k :: 0 <= k < |parts| ==> c !in parts[k]
    ensures Split(Join(parts, c), c) == parts
    decreases |parts|
  {
    if |parts| == 1 {
      assert IndexOf(parts[0], c) == None;
    } else {
      var s := Join(parts, c);
      var rest := Join(parts[1..], c);
      var n := |parts[0]|;
      assert s == parts[0] + [c] + rest;
      assert s[n] == c && s[..n] == parts[0] && s[n + 1..] == rest;
      IndexOfFirst(s, c, n);
      assert Split(s, c) == [parts[0]] + Split(rest, c);
      SplitJoin(parts[1..], c);
      assert parts == [parts[0]] + parts[1..];
    }
  }

  /** Python's `s.rsplit(c, 1)[0]`: everything before the last separator, or all of `s`. */
  function BeforeLast(s: string, c: char): (r: string)
    ensures c !in s ==> r == s
    ensures c in s ==> exists t :: s == r + [c] + t && c !in t
  {
    match LastIndexOf(s, c)
    case None => s
    case Some(i) =>
      assert s == s[..i] + [c] + s[i + 1..];
      s[..i]
  }

  /** Python's `s.split(c, 1)` when `c` occurs: the text before and after the first `c`. */
  function SplitOnce(s: string, c: char): (r: (string, string))
    requires c in s
    ensures s == r.0 + [c] + r.1 && c !in r.0
  {
    var i := IndexOf(s, c).value;
    assert s == s[..i] + [c] + s[i + 1..];
    (s[..i], s[i + 1..])
  }

  // -------------------------------------------------------- string comparison

  /** Python's `a <= b` on strings: lexicographic by code point. */
  predicate StrLe(a: string, b: string)
    decreases |a|
  {
    if |a| == 0 then true
    else if |b| == 0 then false
    else if a[0] != b[0] then a[0] < b[0]
    else StrLe(a[1..], b[1..])
  }

  // ------------------------------------------------------------------- numbers

  predicate AllDigits(s: string)
  {
    forall i :: 0 <= i < |s| ==> IsDigit(s[i])
  }

  function DigitsValue(s: string): nat
    requires AllDigits(s)
    decreases |s|
  {
    if |s| == 0 then 0
    else DigitsValue(s[..|s| - 1]) * 10 + (s[|s| - 1] as int - '0' as int)
  }

  function Pow10(n: nat): (r: nat)
    ensures r >= 1
  {
    if n == 0 then 1 else 10 * Pow10(n - 1)
  }

  /** Python's `int(s)` on a string: an optional sign and at least one digit. */
  function ParseInt(s: string): Option<int>
  {
    if |s| > 0 && (s[0] == '-' || s[0] == '+') then
      (if |s| > 1 && AllDigits(s[1..]) then
         var v: int := DigitsValue(s[1..]);
         Some(if s[0] == '-' then -v else v)
       else None)
    else if |s| > 0 && AllDigits(s) then Some(DigitsValue(s))
    else None
  }

  function DigitChar(d: nat): (c: char)
    requires d < 10
    ensures IsDigit(c) && c as int - '0' as int == d
  {
    ('0' as int + d) as char
  }

  /** Decimal representation of a natural number. */
  function NatToString(n: nat): (r: string)
    ensures |r| > 0 && AllDigits(r)
  {
    if n < 10 then [DigitChar(n)] else NatToString(n / 10) + [DigitChar(n % 10)]
  }

  lemma {:induction false} NatToStringValue(n: nat)
    ensures DigitsValue(NatToString(n)) == n
  {
    if n >= 10 {
      NatToStringValue(n / 10);
      var r := NatToString(n);
      assert r[..|r| - 1] == NatToString(n / 10);
    }
  }

  /** `int(str(n))` gives back `n`. */
  lemma ParseIntNatToString(n: nat)
    ensures ParseInt(NatToString(n)) == Some(n)
  {
    NatToStringValue(n);
  }

  /**
   * Python's `float(s)` on the decimal forms the scripts meet: an optional sign,
   * digits, and an optional fraction, with at least one digit in all.
   */
  function ParseDecimal(s: string): Option<real>
  {
    if |s| > 0 && (s[0] == '-' || s[0] == '+') then
      match ParseUnsigned(s[1..])
      case None => None
      case Some(v) => Some(if s[0] == '-' then -v else v)
    else ParseUnsigned(s)
  }

  function ParseUnsigned(s: string): Option<real>
  {
    if '.' in s then
      var (whole, frac) := SplitOnce(s, '.');
      if AllDigits(whole) && AllDigits(frac) && |whole| + |frac| > 0 then
        Some(DigitsValue(whole) as real + DigitsValue(frac) as real / Pow10(|frac|) as real)
      else None
    else if |s| > 0 && AllDigits(s) then Some(DigitsValue(s) as real)
    else None
  }

  /** `float(str(n))` gives back `n` for a natural number. */
  lemma ParseDecimalNatToString(n: nat)
    ensures ParseDecimal(NatToString(n)) == Some(n as real)
  {
    NatToStringValue(n);
    var r := NatToString(n);
    assert r[0] != '-' && r[0] != '+' by { assert IsDigit(r[0]); }
    assert forall i :: 0 <= i < |r| ==> r[i] != '.';
  }

  /** Parsing never yields a negative number from an unsigned text. */
  lemma ParseUnsignedNonNegative(s: string)
    ensures ParseUnsigned(s).Some? ==> ParseUnsigned(s).value >= 0.0
  {
    if '.' in s {
      var (whole, frac) := SplitOnce(s, '.');
      if AllDigits(whole) && AllDigits(frac) && |whole| + |frac| > 0 {
        var p := Pow10(|frac|) as real;
        assert p > 0.0;
        assert DigitsValue(frac) as real / p >= 0.0;
      }
    }
  }

  /** Python's `float(s)` on a string: surrounding white space is ignored. */
  function PyFloat(s: string): Option<real>
  {
    ParseDecimal(Strip(s))
  }

  lemma StripDigits(s: string)
    requires AllDigits(s)
    ensures Strip(s) == s
  {
    assert forall i :: 0 <= i < |s| ==> !IsSpace(s[i]) by {
      forall i | 0 <= i < |s| ensures !IsSpace(s[i]) { assert IsDigit(s[i]); }
    }
    assert TrimLeft(s) == s;
  }

  /** `float(str(n))` gives back `n` for a natural number. */
  lemma PyFloatNatToString(n: nat)
    ensures PyFloat(NatToString(n)) == Some(n as real)
  {
    StripDigits(NatToString(n));
    ParseDecimalNatToString(n);
  }

  /** A money text with `$` and `,` removed (`.replace('$', '').replace(',', '')`). */
  function CleanAmount(text: string): (t: string)
    ensures '$' !in t && ',' !in t
    ensures forall c :: c in t <==> c in text && c != '$' && c != ','
  {
    var a := ReplaceAll(text, "$", "");
    DeleteChar(text, '$');
    DeleteChar(a, ',');
    ReplaceAll(a, ",", "")
  }

  /** A leading dollar sign is dropped by the cleaning. */
  lemma CleanAmountDollar(text: string)
    ensures CleanAmount("$" + text) == CleanAmount(text)
  {
    assert ("$" + text)[..1] == "$" && ("$" + text)[1..] == text;
    assert ReplaceAll("$" + text, "$", "") == ReplaceAll(text, "$", "");
  }

  /** A plain number is left as it is by the cleaning and reads as itself. */
  lemma CleanAmountNat(n: nat)
    ensures CleanAmount(NatToString(n)) == NatToString(n)
    ensures PyFloat(CleanAmount(NatToString(n))) == Some(n as real)
  {
    var s := NatToString(n);
    assert forall i :: 0 <= i < |s| ==> IsDigit(s[i]);
    ContainsChar(s, '$');
    ReplaceAbsent(s, "$", "");
    ContainsChar(s, ',');
    ReplaceAbsent(s, ",", "");
    PyFloatNatToString(n);
  }

  /** Python's `int(s)` on a string: surrounding white space is ignored. */
  function PyInt(s: string): Option<int>
  {
    ParseInt(Strip(s))
  }

  // -------------------------------------------------------------- time of day

  /** `'%H:%M'` for a minute of the day. */
  function Pad2(n: nat): (s: string)
    requires n < 100
    ensures |s| == 2 && AllDigits(s)
  {
    [DigitChar(n / 10), DigitChar(n % 10)]
  }

  function Hhmm(m: nat): (s: string)
    requires m < 1440
    ensures |s| == 5 && s[2] == ':'
  {
    Pad2(m / 60) + ":" + Pad2(m % 60)
  }

  lemma Pad2Digits(n: nat)
    requires n < 100
    ensures DigitsValue(Pad2(n)) == n
  {
    var s := Pad2(n);
    var q, r := n / 10, n % 10;
    assert n == q * 10 + r;
    assert s[0] as int - '0' as int == q && s[1] as int - '0' as int == r;
    assert s[..1] == [s[0]] && [s[0]][..0] == [];
    assert DigitsValue(s[..1]) == q;
  }

  lemma ParseIntPad2(n: nat)
    requires n < 100
    ensures ParseInt(Pad2(n)) == Some(n)
  {
    var s := Pad2(n);
    Pad2Digits(n);
    assert IsDigit(s[0]);
    assert s[0] != '-' && s[0] != '+';
  }

  /** `int()` reads a two-digit field back as its number. */
  lemma Pad2Value(n: nat)
    requires n < 100
    ensures PyInt(Pad2(n)) == Some(n)
  {
    StripDigits(Pad2(n));
    ParseIntPad2(n);
  }

  /** `'%H:%M'` splits on `:` into its hour and minute fields. */
  lemma SplitHhmm(m: nat)
    requires m < 1440
    ensures Split(Hhmm(m), ':') == [Pad2(m / 60), Pad2(m % 60)]
  {
    var s := Hhmm(m);
    var h, mm := Pad2(m / 60), Pad2(m % 60);
    assert s == h + ":" + mm;
    assert s[0] != ':' && s[1] != ':' && s[2] == ':';
    assert IndexOf(s, ':') == Some(2) by {
      assert s[1..][0] != ':' && s[1..][1] == ':';
      assert IndexOf(s[1..][1..], ':') == Some(0);
    }
    assert s[..2] == h && s[3..] == mm;
    assert ':' !in mm;
    assert IndexOf(mm, ':') == None;
  }

  // ---------------------------------------------------------- dictionaries

  /** An insertion-ordered Python dict. */
  type KeyedDict<K, V> = seq<(K, V)>

  /** A dict with string keys. */
  type Dict<V> = KeyedDict<string, V>

  predicate DistinctKeys<K(==), V>(d: KeyedDict<K, V>)
  {
    forall i, j :: 0 <= i < j < |d| ==> d[i].0 != d[j].0
  }

  function Keys<K, V>(d: KeyedDict<K, V>): (ks: seq<K>)
    ensures |ks| == |d| && forall i :: 0 <= i < |d| ==> ks[i] == d[i].0
  {
    seq(|d|, i requires 0 <= i < |d| => d[i].0)
  }

  /** Position of key `k`, if present. */
  function Find<K(==), V>(d: KeyedDict<K, V>, k: K): (r: Option<nat>)
    ensures r.None? ==> forall i :: 0 <= i < |d| ==> d[i].0 != k
    ensures r.Some? ==> r.value < |d| && d[r.value].0 == k
    ensures r.Some? ==> forall j :: 0 <= j < r.value ==> d[j].0 != k
  {
    if |d| == 0 then None
    else if d[0].0 == k then Some(0)
    else match Find(d[1..], k)
      case None => None
      case Some(i) => Some(i + 1)
  }

  /** `d.get(k)`. */
  function Get<K(==), V>(d: KeyedDict<K, V>, k: K): Option<V>
  {
    match Find(d, k)
    case None => None
    case Some(i) => Some(d[i].1)
  }

  /** `d[k] = v`: an existing key keeps its position, a new key goes last. */
  function Put<K(==), V>(d: KeyedDict<K, V>, k: K, v: V): (r: KeyedDict<K, V>)
    ensures Find(d, k).Some? ==> |r| == |d| && Keys(r) == Keys(d)
    ensures Find(d, k).None? ==> |r| == |d| + 1 && Keys(r) == Keys(d) + [k]
  {
    match Find(d, k)
    case Some(i) => d[i := (k, v)]
    case None => d + [(k, v)]
  }

  lemma PutGet<K, V>(d: KeyedDict<K, V>, k: K, v: V, k': K)
    ensures Get(Put(d, k, v), k') == if k' == k then Some(v) else Get(d, k')
  {
    var r := Put(d, k, v);
    assert forall m :: 0 <= m < |d| ==> r[m].0 == d[m].0;
    if Find(d, k).Some? {
      var i := Find(d, k).value;
      if Find(r, k').Some? {
        var j := Find(r, k').value;
        assert Find(d, k').Some? && Find(d, k').value == j;
        if k' == k { assert j == i; } else { assert r[j] == d[j]; }
      } else {
        assert r[i].0 == k;
        assert Find(d, k').None?;
      }
    } else {
      assert r[|d|] == (k, v);
      if Find(r, k').Some? {
        var j := Find(r, k').value;
        if j < |d| { assert Find(d, k').Some? && Find(d, k').value == j; }
      }
    }
  }

  lemma PutDistinct<K, V>(d: KeyedDict<K, V>, k: K, v: V)
    requires DistinctKeys(d)
    ensures DistinctKeys(Put(d, k, v))
  {
  }

  lemma GetIn<K, V>(d: KeyedDict<K, V>, k: K)
    ensures Get(d, k).Some? <==> k in Keys(d)
  {
    if k in Keys(d) {
      var i :| 0 <= i < |d| && Keys(d)[i] == k;
      assert d[i].0 == k;
    }
  }

  /** The values of `d` in key order. */
  function Values<K, V>(d: KeyedDict<K, V>): (vs: seq<V>)
    ensures |vs| == |d| && forall i :: 0 <= i < |d| ==> vs[i] == d[i].1
  {
    seq(|d|, i requires 0 <= i < |d| => d[i].1)
  }

  /** The sum of a dict's counts. */
  function SumCounts(d: Dict<nat>): nat
  {
    if |d| == 0 then 0 else SumCounts(d[..|d| - 1]) + d[|d| - 1].1
  }

  lemma {:induction false} SumCountsUpdate(d: Dict<nat>, i: nat, e: (string, nat))
    requires i < |d|
    ensures SumCounts(d[i := e]) + d[i].1 == SumCounts(d) + e.1
  {
    var n := |d| - 1;
    if i < n {
      SumCountsUpdate(d[..n], i, e);
      assert d[i := e][..n] == d[..n][i := e];
    } else {
      assert d[i := e][..n] == d[..n];
    }
  }

  /** `counts[x] = counts.get(x, 0) + 1` for each `x` in turn. */
  function Tally(xs: seq<string>): Dict<nat>
  {
    if |xs| == 0 then []
    else
      var d := Tally(xs[..|xs| - 1]);
      var x := xs[|xs| - 1];
      Put(d, x, (if Get(d, x).Some? then Get(d, x).value else 0) + 1)
  }

  lemma TallySnoc(xs: seq<string>, x: string)
    ensures Tally(xs + [x]) == Put(Tally(xs), x, (if Get(Tally(xs), x).Some? then Get(Tally(xs), x).value else 0) + 1)
  {
    assert (xs + [x])[..|xs|] == xs;
  }

  /** One more element: only its own count changes, by one. */
  lemma TallyStepGet(xs: seq<string>, y: string, x: string)
    ensures var d := Tally(xs);
      Get(Tally(xs + [y]), x) == if x == y then Some((if Get(d, y).Some? then Get(d, y).value else 0) + 1) else Get(d, x)
  {
    var d := Tally(xs);
    TallySnoc(xs, y);
    PutGet(d, y, (if Get(d, y).Some? then Get(d, y).value else 0) + 1, x);
  }

  /** A tally holds each element's number of occurrences. */
  lemma {:induction false} TallyGet(xs: seq<string>, x: string)
    ensures Get(Tally(xs), x) == if multiset(xs)[x] == 0 then None else Some(multiset(xs)[x])
  {
    if |xs| > 0 {
      var init := xs[..|xs| - 1];
      var y := xs[|xs| - 1];
      assert xs == init + [y];
      assert multiset(xs)[x] == multiset(init)[x] + (if x == y then 1 else 0);
      TallyGet(init, x);
      TallyGet(init, y);
      TallyStepGet(init, y, x);
    }
  }

  /** The counts of a tally add up to the number of elements. */
  lemma {:induction false} TallySum(xs: seq<string>)
    ensures SumCounts(Tally(xs)) == |xs|
  {
    if |xs| > 0 {
      var init := xs[..|xs| - 1];
      var y := xs[|xs| - 1];
      TallySum(init);
      var d := Tally(init);
      var v := (if Get(d, y).Some? then Get(d, y).value else 0) + 1;
      assert Tally(xs) == Put(d, y, v);
      var f := Find(d, y);
      if f.Some? {
        var i := f.value;
        assert Put(d, y, v) == d[i := (y, v)];
        assert d[i].1 + 1 == v;
        SumCountsUpdate(d, i, (y, v));
      } else {
        var r := d + [(y, v)];
        assert Put(d, y, v) == r;
        assert r[..|d|] == d;
        assert SumCounts(r) == SumCounts(d) + v;
      }
    }
  }

  // ----------------------------------------------------- grouping rows by key

  /**
   * One row folded into a dict of per-key accumulators, as the scripts' loops do:
   * a row whose key is empty is skipped; a new key starts from `start(r)`; the
   * row is then applied with `step`.
   */
  function GroupAdd<R, A>(acc: Dict<A>, r: R, key: R -> string, start: R -> A, step: (A, R) -> A): Dict<A>
  {
    if key(r) == "" then acc
    else
      var prev := Get(acc, key(r));
      Put(acc, key(r), step(if prev.Some? then prev.value else start(r), r))
  }

  /** The accumulators after all rows, keyed in first-seen order. */
  function GroupBy<R, A>(rows: seq<R>, key: R -> string, start: R -> A, step: (A, R) -> A): Dict<A>
    decreases |rows|
  {
    if |rows| == 0 then []
    else GroupAdd(GroupBy(rows[..|rows| - 1], key, start, step), rows[|rows| - 1], key, start, step)
  }

  /** The rows with key `k`, in order. */
  function RowsOf<R>(rows: seq<R>, key: R -> string, k: string): (rs: seq<R>)
    ensures forall i :: 0 <= i < |rs| ==> key(rs[i]) == k
    ensures |rs| <= |rows|
    decreases |rows|
  {
    if |rows| == 0 then []
    else RowsOf(rows[..|rows| - 1], key, k) + (if key(rows[|rows| - 1]) == k then [rows[|rows| - 1]] else [])
  }

  /** The rows with key `k` are exactly the rows whose key is `k`. */
  lemma {:induction false} RowsOfMembers<R>(rows: seq<R>, key: R -> string, k: string)
    ensures forall r :: r in RowsOf(rows, key, k) <==> r in rows && key(r) == k
    decreases |rows|
  {
    if |rows| > 0 {
      RowsOfMembers(rows[..|rows| - 1], key, k);
      assert rows == rows[..|rows| - 1] + [rows[|rows| - 1]];
    }
  }

  /** `[f(x) for x in xs if keep(x)]`. */
  function FilterMap<A, B>(xs: seq<A>, keep: A -> bool, f: A -> B): seq<B>
    decreases |xs|
  {
    if |xs| == 0 then []
    else FilterMap(xs[..|xs| - 1], keep, f) + (if keep(xs[|xs| - 1]) then [f(xs[|xs| - 1])] else [])
  }

  /** An element of the comprehension is the image of a kept input, and every kept input's image is in it. */
  lemma {:induction false} FilterMapMembers<A, B>(xs: seq<A>, keep: A -> bool, f: A -> B, b: B)
    ensures b in FilterMap(xs, keep, f) <==> exists x :: x in xs && keep(x) && b == f(x)
    decreases |xs|
  {
    if |xs| > 0 {
      var init := xs[..|xs| - 1];
      FilterMapMembers(init, keep, f, b);
      assert xs == init + [xs[|xs| - 1]];
    }
  }

  /** A left fold of `step` over the rows. */
  function FoldRows<R, A>(a: A, rows: seq<R>, step: (A, R) -> A): A
    decreases |rows|
  {
    if |rows| == 0 then a else step(FoldRows(a, rows[..|rows| - 1], step), rows[|rows| - 1])
  }

  /**
   * Grouping agrees with a fold over each key's own rows: a key is present iff it
   * has rows, and its accumulator is the fold of its rows from the first one's start.
   */
  lemma {:induction false} GroupByGet<R, A>(rows: seq<R>, key: R -> string, start: R -> A, step: (A, R) -> A, k: string)
    requires k != ""
    ensures DistinctKeys(GroupBy(rows, key, start, step))
    ensures Get(GroupBy(rows, key, start, step), k) ==
              if |RowsOf(rows, key, k)| == 0 then None
              else Some(FoldRows(start(RowsOf(rows, key, k)[0]), RowsOf(rows, key, k), step))
    decreases |rows|
  {
    if |rows| > 0 {
      var init := rows[..|rows| - 1];
      var r := rows[|rows| - 1];
      GroupByGet(init, key, start, step, k);
      var acc := GroupBy(init, key, start, step);
      if key(r) != "" {
        var prev := Get(acc, key(r));
        var v := step(if prev.Some? then prev.value else start(r), r);
        PutGet(acc, key(r), v, k);
        PutDistinct(acc, key(r), v);
        if key(r) == k {
          var rs := RowsOf(init, key, k);
          assert RowsOf(rows, key, k) == rs + [r];
          assert (rs + [r])[..|rs|] == rs;
          if |rs| > 0 {
            assert (rs + [r])[0] == rs[0];
          } else {
            assert RowsOf(rows, key, k) == [r];
            assert [r][..0] == [];
            assert FoldRows(start(r), [r], step) == step(start(r), r);
          }
        } else {
          assert GroupBy(rows, key, start, step) == Put(acc, key(r), v);
          assert Get(GroupBy(rows, key, start, step), k) == Get(acc, k);
          assert RowsOf(rows, key, k) == RowsOf(init, key, k) + [];
          assert RowsOf(rows, key, k) == RowsOf(init, key, k);
        }
      } else {
        assert GroupBy(rows, key, start, step) == acc;
        assert RowsOf(rows, key, k) == RowsOf(init, key, k) + [];
        assert RowsOf(rows, key, k) == RowsOf(init, key, k);
      }
    }
  }

  /** In a dict with distinct keys, each entry is what `Get` finds for its key. */
  lemma GetDistinct<K, V>(d: KeyedDict<K, V>, i: nat)
    requires DistinctKeys(d) && i < |d|
    ensures Get(d, d[i].0) == Some(d[i].1)
  {
    assert Find(d, d[i].0) == Some(i);
  }

  /** Every key of a grouping is non-empty: rows with an empty key are skipped. */
  lemma {:induction false} GroupByKeys<R, A>(rows: seq<R>, key: R -> string, start: R -> A, step: (A, R) -> A)
    ensures forall i :: 0 <= i < |GroupBy(rows, key, start, step)| ==> GroupBy(rows, key, start, step)[i].0 != ""
    decreases |rows|
  {
    if |rows| > 0 {
      var g := GroupBy(rows, key, start, step);
      var init := rows[..|rows| - 1];
      var r := rows[|rows| - 1];
      var acc := GroupBy(init, key, start, step);
      GroupByKeys(init, key, start, step);
      if key(r) != "" {
        var prev := Get(acc, key(r));
        var v := step(if prev.Some? then prev.value else start(r), r);
        assert g == Put(acc, key(r), v);
        forall i | 0 <= i < |g| ensures g[i].0 != "" {
          assert Keys(g)[i] == g[i].0;
          if i < |acc| { assert Keys(acc)[i] == acc[i].0; }
        }
      }
    }
  }

  /** Every entry of a grouping has a non-empty key and is what `Get` finds for it. */
  lemma GroupByEntry<R, A>(rows: seq<R>, key: R -> string, start: R -> A, step: (A, R) -> A, i: nat)
    requires i < |GroupBy(rows, key, start, step)|
    ensures GroupBy(rows, key, start, step)[i].0 != ""
    ensures Get(GroupBy(rows, key, start, step), GroupBy(rows, key, start, step)[i].0) ==
              Some(GroupBy(rows, key, start, step)[i].1)
  {
    var g := GroupBy(rows, key, start, step);
    GroupByKeys(rows, key, start, step);
    GroupByGet(rows, key, start, step, g[i].0);
    GetDistinct(g, i);
  }

  // ----------------------------------------------------------- first match

  /** Position of the first element satisfying `p` (`|s|` when there is none): a `for ... break` scan. */
  function FirstIndex<T>(s: seq<T>, p: T -> bool): (r: nat)
    ensures r <= |s|
    ensures forall j :: 0 <= j < r ==> !p(s[j])
    ensures r < |s| ==> p(s[r])
    decreases |s|
  {
    if |s| == 0 then 0 else if p(s[0]) then 0 else 1 + FirstIndex(s[1..], p)
  }

  /** The scan position a `for ... break` loop stops at is `FirstIndex`. */
  lemma FirstIndexIs<T>(s: seq<T>, p: T -> bool, k: nat)
    requires k <= |s|
    requires forall j :: 0 <= j < k ==> !p(s[j])
    requires k < |s| ==> p(s[k])
    ensures FirstIndex(s, p) == k
  {
  }

  // --------------------------------------------------------------- sorting

  predicate SortedBy<T>(s: seq<T>, key: T -> real)
  {
    forall i, j :: 0 <= i < j < |s| ==> key(s[i]) <= key(s[j])
  }

  predicate SortedDescBy<T>(s: seq<T>, key: T -> real)
  {
    forall i, j :: 0 <= i < j < |s| ==> key(s[i]) >= key(s[j])
  }

  /** Places `x` before the first element whose key is not smaller. */
  function InsertBy<T>(x: T, s: seq<T>, key: T -> real): seq<T>
  {
    if |s| == 0 then [x]
    else if key(x) <= key(s[0]) then [x] + s
    else [s[0]] + InsertBy(x, s[1..], key)
  }

  /** Python's stable `sorted(s, key=key)`. */
  function SortBy<T>(s: seq<T>, key: T -> real): seq<T>
  {
    if |s| == 0 then [] else InsertBy(s[0], SortBy(s[1..], key), key)
  }

  /**
   * Python's `sorted(s, key=key, reverse=True)`, which keeps elements with equal
   * keys in their original order: a stable ascending sort on the negated key.
   */
  function SortDescBy<T>(s: seq<T>, key: T -> real): seq<T>
  {
    SortBy(s, (x: T) => -key(x))
  }

  lemma {:induction false} InsertByMembers<T>(x: T, s: seq<T>, key: T -> real)
    ensures multiset(InsertBy(x, s, key)) == multiset(s) + multiset{x}
    ensures forall e :: e in InsertBy(x, s, key) <==> e == x || e in s
  {
    if |s| > 0 && key(x) > key(s[0]) {
      InsertByMembers(x, s[1..], key);
      assert s == [s[0]] + s[1..];
    }
  }

  lemma {:induction false} InsertBySorted<T>(x: T, s: seq<T>, key: T -> real)
    requires SortedBy(s, key)
    ensures SortedBy(InsertBy(x, s, key), key)
  {
    if |s| > 0 && key(x) > key(s[0]) {
      var t := InsertBy(x, s[1..], key);
      InsertBySorted(x, s[1..], key);
      InsertByMembers(x, s[1..], key);
      forall e | e in s[1..] ensures key(s[0]) <= key(e) {
        var m :| 0 <= m < |s[1..]| && s[1..][m] == e;
        assert s[m + 1] == e;
      }
      forall k | 0 <= k < |t| ensures key(s[0]) <= key(t[k]) {
        assert t[k] in t;
        assert t[k] in multiset(s[1..]) + multiset{x};
        if t[k] != x {
          assert t[k] in multiset(s[1..]);
        }
      }
      assert InsertBy(x, s, key) == [s[0]] + t;
      SortedCons(s[0], t, key);
    }
  }

  lemma SortedCons<T>(h: T, t: seq<T>, key: T -> real)
    requires SortedBy(t, key)
    requires forall k :: 0 <= k < |t| ==> key(h) <= key(t[k])
    ensures SortedBy([h] + t, key)
  {
    var r := [h] + t;
    forall i, j | 0 <= i < j < |r| ensures key(r[i]) <= key(r[j]) {
      assert r[j] == t[j - 1];
      if i > 0 { assert r[i] == t[i - 1]; }
    }
  }

  lemma SortedDescCons<T>(h: T, t: seq<T>, key: T -> real)
    requires SortedDescBy(t, key)
    requires forall k :: 0 <= k < |t| ==> key(h) >= key(t[k])
    ensures SortedDescBy([h] + t, key)
  {
    var r := [h] + t;
    forall i, j | 0 <= i < j < |r| ensures key(r[i]) >= key(r[j]) {
      assert r[j] == t[j - 1];
      if i > 0 { assert r[i] == t[i - 1]; }
    }
  }

  lemma {:induction false} SortByProps<T>(s: seq<T>, key: T -> real)
    ensures SortedBy(SortBy(s, key), key)
    ensures multiset(SortBy(s, key)) == multiset(s)
  {
    if |s| > 0 {
      SortByProps(s[1..], key);
      InsertBySorted(s[0], SortBy(s[1..], key), key);
      InsertByMembers(s[0], SortBy(s[1..], key), key);
      assert s == [s[0]] + s[1..];
    }
  }

  /** A descending sort is ordered by decreasing key and is a permutation of its input. */
  lemma SortDescByProps<T>(s: seq<T>, key: T -> real)
    ensures SortedDescBy(SortDescBy(s, key), key)
    ensures multiset(SortDescBy(s, key)) == multiset(s)
    ensures |SortDescBy(s, key)| == |s|
  {
    var neg := (x: T) => -key(x);
    SortByProps(s, neg);
    var r := SortBy(s, neg);
    assert forall i, j :: 0 <= i < j < |r| ==> neg(r[i]) <= neg(r[j]);
    assert |r| == |multiset(r)| == |multiset(s)| == |s|;
  }

  /** In a list sorted high to low, the first `n` elements have keys no lower than any later one. */
  lemma SortedPrefixDominates<T>(s: seq<T>, key: T -> real, n: nat)
    requires SortedDescBy(s, key) && n <= |s|
    ensures forall i, e :: 0 <= i < n && e in multiset(s[n..]) ==> key(s[i]) >= key(e)
  {
    forall i, e | 0 <= i < n && e in multiset(s[n..])
      ensures key(s[i]) >= key(e)
    {
      assert e in s[n..];
      var j :| 0 <= j < |s[n..]| && s[n..][j] == e;
      assert s[n + j] == e;
    }
  }

  /** An ascending sort is ordered, a permutation, and of the same length. */
  lemma SortByLength<T>(s: seq<T>, key: T -> real)
    ensures SortedBy(SortBy(s, key), key)
    ensures multiset(SortBy(s, key)) == multiset(s)
    ensures |SortBy(s, key)| == |s|
  {
    SortByProps(s, key);
    assert |SortBy(s, key)| == |multiset(SortBy(s, key))|;
  }

  /** `len([r for r in s if key(r) >= t])`. */
  function CountAtLeast<T>(s: seq<T>, key: T -> real, t: real): nat
    decreases |s|
  {
    if |s| == 0 then 0 else (if key(s[0]) >= t then 1 else 0) + CountAtLeast(s[1..], key, t)
  }

  lemma {:induction false} CountAtLeastRemove<T>(s: seq<T>, key: T -> real, t: real, j: nat)
    requires j < |s|
    ensures CountAtLeast(s, key, t) == CountAtLeast(s[..j] + s[j + 1..], key, t) + (if key(s[j]) >= t then 1 else 0)
    decreases j
  {
    if j > 0 {
      CountAtLeastRemove(s[1..], key, t, j - 1);
      var r := s[..j] + s[j + 1..];
      assert r[0] == s[0];
      assert r[1..] == s[1..][..j - 1] + s[1..][j..];
    } else {
      assert s[..0] + s[1..] == s[1..];
    }
  }

  lemma MultisetRemove<T>(s: seq<T>, j: nat)
    requires j < |s|
    ensures multiset(s[..j] + s[j + 1..]) == multiset(s) - multiset{s[j]}
  {
    assert s == s[..j] + [s[j]] + s[j + 1..];
  }

  /** The first element of `a` sits somewhere in any permutation `b` of it; the rests are permutations too. */
  lemma PermutationHead<T>(a: seq<T>, b: seq<T>) returns (j: nat)
    requires |a| > 0 && multiset(a) == multiset(b)
    ensures j < |b| && b[j] == a[0]
    ensures multiset(a[1..]) == multiset(b[..j] + b[j + 1..])
  {
    assert a == [a[0]] + a[1..];
    assert a[0] in multiset(b);
    j :| 0 <= j < |b| && b[j] == a[0];
    MultisetRemove(b, j);
    MultisetRemove(a, 0);
    assert a[..0] + a[1..] == a[1..];
  }

  /** A count does not depend on the order: it is the same for any permutation, such as a sorted copy. */
  lemma {:induction false} CountAtLeastPermutation<T>(a: seq<T>, b: seq<T>, key: T -> real, t: real)
    requires multiset(a) == multiset(b)
    ensures CountAtLeast(a, key, t) == CountAtLeast(b, key, t)
    decreases |a|
  {
    if |a| == 0 {
      assert |b| == |multiset(b)|;
    } else {
      var j := PermutationHead(a, b);
      var rest := b[..j] + b[j + 1..];
      CountAtLeastPermutation(a[1..], rest, key, t);
      CountAtLeastRemove(b, key, t, j);
    }
  }

  /** `sum(key(r) for r in s)`. */
  function SumBy<T>(s: seq<T>, key: T -> real): real
    decreases |s|
  {
    if |s| == 0 then 0.0 else key(s[0]) + SumBy(s[1..], key)
  }

  lemma {:induction false} SumByRemove<T>(s: seq<T>, key: T -> real, j: nat)
    requires j < |s|
    ensures SumBy(s, key) == SumBy(s[..j] + s[j + 1..], key) + key(s[j])
    decreases j
  {
    if j > 0 {
      SumByRemove(s[1..], key, j - 1);
      var r := s[..j] + s[j + 1..];
      assert r[0] == s[0];
      assert r[1..] == s[1..][..j - 1] + s[1..][j..];
    } else {
      assert s[..0] + s[1..] == s[1..];
    }
  }

  /** A sum does not depend on the order: it is the same for any permutation, such as a sorted copy. */
  lemma {:induction false} SumByPermutation<T>(a: seq<T>, b: seq<T>, key: T -> real)
    requires multiset(a) == multiset(b)
    ensures SumBy(a, key) == SumBy(b, key)
    decreases |a|
  {
    if |a| == 0 {
      assert |b| == |multiset(b)|;
    } else {
      var j := PermutationHead(a, b);
      var rest := b[..j] + b[j + 1..];
      SumByPermutation(a[1..], rest, key);
      SumByRemove(b, key, j);
      assert SumBy(a, key) == key(a[0]) + SumBy(a[1..], key);
    }
  }

  // ------------------------------------------------------------------ JSON

  /** A decoded JSON value; object members keep their order. */
  datatype Json =
    | JNull
    | JBool(b: bool)
    | JNum(n: real)
    | JStr(s: string)
    | JArr(items: seq<Json>)
    | JObj(members: seq<(string, Json)>)

  /** `d.get('name', 'Unknown')`, with None for an absent name. */
  function NameOrUnknown(name: Option<string>): string
  {
    if name.Some? then name.value else "Unknown"
  }

  /** Python truthiness of a decoded value. */
  predicate JTruthy(j: Json)
  {
    match j
    case JNull => false
    case JBool(b) => b
    case JNum(n) => n != 0.0
    case JStr(s) => s != ""
    case JArr(items) => |items| > 0
    case JObj(members) => |members| > 0
  }

  /** The value as a Python number: `true`/`false` behave as 1 and 0; anything else makes arithmetic raise. */
  function JNumeric(j: Json): (r: Option<real>)
    ensures r.Some? <==> j.JNum? || j.JBool?
    ensures j.JNum? ==> r == Some(j.n)
  {
    match j
    case JNum(n) => Some(n)
    case JBool(b) => Some(if b then 1.0 else 0.0)
    case _ => None
  }

  /** `d.get(key, default)` on a decoded object. */
  function JGetOr(members: seq<(string, Json)>, key: string, default: Json): (r: Json)
    ensures Get(members, key).Some? ==> r == Get(members, key).value
    ensures Get(members, key).None? ==> r == default
  {
    var v := Get(members, key);
    if v.Some? then v.value else default
  }

  /** Python truthiness of an optional string (a setting, an argument): present and not empty. */
  predicate Present(s: Option<string>)
  {
    s.Some? && s.value != ""
  }

  /** A request's outcome: it raised, or it answered with a status and a body (None: not JSON). */
  datatype Reply = Raised | Answered(status: int, body: Option<Json>)

  /** Python's `key in v`: a key of an object, an element of a list, a substring of a string; None where it raises. */
  function JIn(key: string, v: Json): (r: Option<bool>)
    ensures r.None? <==> !(v.JObj? || v.JArr? || v.JStr?)
    ensures v.JObj? ==> (r == Some(true) <==> Get(v.members, key).Some?)
  {
    match v
    case JObj(members) => Some(Get(members, key).Some?)
    case JArr(items) => Some(JStr(key) in items)
    case JStr(s) => Some(Contains(s, key))
    case _ => None
  }

  /** Python's `v[key]` with a string key: only an object with that key answers; anything else raises. */
  function JSub(v: Json, key: string): (r: Option<Json>)
    ensures r.Some? <==> v.JObj? && Get(v.members, key).Some?
  {
    if v.JObj? then Get(v.members, key) else None
  }

  /** Python's `len(v)`: None where it raises. */
  function JLen(v: Json): (r: Option<nat>)
    ensures r.None? <==> !(v.JObj? || v.JArr? || v.JStr?)
    ensures v.JArr? ==> r == Some(|v.items|)
  {
    match v
    case JObj(members) => Some(|members|)
    case JArr(items) => Some(|items|)
    case JStr(s) => Some(|s|)
    case _ => None
  }
}
