/**
 * The `.env` file as the helper scripts read and write it: the text cut into
 * lines as `readlines()` cuts it, the `update_env_file` replace-or-append of
 * one `KEY=value` line, and the dictionary view (`key, value =
 * line.strip().split("=", 1)` per line, written back as one `k=v` line per key).
 */
module EnvFile {
  import opened Common

  // ------------------------------------------------------------------ lines

  /** `f.readlines()`: the text cut after each newline; the last line may lack one. */
  function ReadLines(text: string): seq<string>
    decreases |text|
  {
    if text == "" then []
    else match IndexOf(text, '\n')
      case None => [text]
      case Some(i) => [text[..i + 1]] + ReadLines(text[i + 1..])
  }

  /** `f.writelines(lines)`: the lines written one after the other. */
  function Concat(lines: seq<string>): string
  {
    if |lines| == 0 then "" else lines[0] + Concat(lines[1..])
  }

  lemma {:induction false} ConcatSnoc(lines: seq<string>, x: string)
    ensures Concat(lines + [x]) == Concat(lines) + x
  {
    if |lines| > 0 {
      assert (lines + [x])[1..] == lines[1..] + [x];
      ConcatSnoc(lines[1..], x);
    } else {
      assert lines + [x] == [x];
    }
  }

  /** Writing back what was read gives the same text. */
  lemma {:induction false} ConcatReadLines(text: string)
    ensures Concat(ReadLines(text)) == text
    decreases |text|
  {
    if text != "" {
      match IndexOf(text, '\n')
      case None =>
      case Some(i) =>
        ConcatReadLines(text[i + 1..]);
        assert text == text[..i + 1] + text[i + 1..];
    }
  }

  predicate EndsLine(line: string)
  {
    |line| > 0 && line[|line| - 1] == '\n'
  }

  /** A complete line: one newline, at its end. */
  predicate Terminated(line: string)
  {
    EndsLine(line) && '\n' !in line[..|line| - 1]
  }

  /** What `readlines` can return: every line complete but the last, which is non-empty and has no newline before its end. */
  predicate LinesOfFile(ls: seq<string>)
  {
    (forall i :: 0 <= i < |ls| - 1 ==> Terminated(ls[i])) &&
    (|ls| > 0 ==> |ls[|ls| - 1]| > 0 && '\n' !in ls[|ls| - 1][..|ls[|ls| - 1]| - 1])
  }

  lemma {:induction false} ReadLinesShape(text: string)
    ensures LinesOfFile(ReadLines(text))
    decreases |text|
  {
    if text != "" {
      match IndexOf(text, '\n')
      case None =>
        assert text[..|text| - 1] <= text;
      case Some(i) =>
        ReadLinesShape(text[i + 1..]);
        var head := text[..i + 1];
        assert head[..i] == text[..i];
    }
  }

  /** The first `c` in `s` is at `k`. */
  /** Reading back lines of the shape `readlines` returns gives the same lines. */
  lemma {:induction false} ReadLinesConcat(ls: seq<string>)
    requires LinesOfFile(ls)
    ensures ReadLines(Concat(ls)) == ls
  {
    if |ls| == 1 {
      assert Concat(ls) == ls[0] + Concat(ls[1..]) && ls[1..] == [];
      assert Concat(ls) == ls[0];
      ReadLinesOneLine(ls[0]);
      assert ls == [ls[0]];
    } else if |ls| > 1 {
      var s := Concat(ls);
      var n := |ls[0]|;
      assert Terminated(ls[0]);
      assert s == ls[0] + Concat(ls[1..]);
      assert s[..n - 1] == ls[0][..n - 1];
      IndexOfFirst(s, '\n', n - 1);
      assert s[..n] == ls[0] && s[n..] == Concat(ls[1..]);
      assert ReadLines(s) == [s[..n]] + ReadLines(s[n..]);
      assert forall i :: 0 <= i < |ls| - 1 ==> ls[1..][i] == ls[i + 1];
      ReadLinesConcat(ls[1..]);
      assert ls == [ls[0]] + ls[1..];
    }
  }

  lemma TerminatedLines(ls: seq<string>)
    requires forall i :: 0 <= i < |ls| ==> Terminated(ls[i])
    ensures LinesOfFile(ls)
  {
  }

  // ------------------------------------------------------- update_env_file

  /** `f"{key}={value}\n"`. */
  function EnvLine(key: string, value: string): string
  {
    key + "=" + value + "\n"
  }

  /** `line.startswith(f"{key}=")`. */
  function KeyMatch(key: string): string -> bool
  {
    (line: string) => StartsWith(line, key + "=")
  }

  /** `update_env_file` as written: the first `KEY=` line is replaced, or the line is appended. */
  function ReplaceOrAppend(lines: seq<string>, key: string, value: string): seq<string>
  {
    var i := FirstIndex(lines, KeyMatch(key));
    if i < |lines| then lines[i := EnvLine(key, value)] else lines + [EnvLine(key, value)]
  }

  /**
   * When the file's last line has no newline, the appended line is glued to it:
   * read back, the file has one line, holding both.
   */
  lemma UnterminatedLineMerges(line: string, key: string, value: string)
    requires |line| > 0 && '\n' !in line && !StartsWith(line, key + "=")
    requires '\n' !in key && '\n' !in value
    ensures ReadLines(line) == [line]
    ensures ReplaceOrAppend([line], key, value) == [line, EnvLine(key, value)]
    ensures ReadLines(Concat(ReplaceOrAppend([line], key, value))) == [line + EnvLine(key, value)]
  {
    var e := EnvLine(key, value);
    AppendsOnMiss(line, key, value);
    var r := ReplaceOrAppend([line], key, value);
    ReadLinesNoNewline(line);
    ConcatPair(line, e);
    assert Concat(r) == line + e;
    NewlineFreeLine(line, key, value);
    ReadLinesTerminatedLine(line + e);
  }

  lemma AppendsOnMiss(line: string, key: string, value: string)
    requires !StartsWith(line, key + "=")
    ensures ReplaceOrAppend([line], key, value) == [line, EnvLine(key, value)]
  {
    FirstIndexIs([line], KeyMatch(key), 1);
  }

  lemma ConcatPair(a: string, b: string)
    ensures Concat([a, b]) == a + b
  {
    assert [a, b][1..] == [b];
    assert [b][1..] == [];
    assert Concat([b]) == b + Concat([]);
    assert Concat([a, b]) == a + Concat([b]);
  }

  lemma NewlineFreeLine(line: string, key: string, value: string)
    requires '\n' !in line && '\n' !in key && '\n' !in value
    ensures var s := line + EnvLine(key, value);
      |s| > 0 && s[|s| - 1] == '\n' && '\n' !in s[..|s| - 1]
  {
    var s := line + EnvLine(key, value);
    var body := line + key + "=" + value;
    assert s == body + "\n";
    assert s[..|s| - 1] == body;
    assert '\n' !in "=";
  }

  lemma ReadLinesTerminatedLine(s: string)
    requires |s| > 0 && '\n' !in s[..|s| - 1] && s[|s| - 1] == '\n'
    ensures ReadLines(s) == [s]
  {
    IndexOfFirst(s, '\n', |s| - 1);
    var rest := s[|s|..];
    assert rest == "";
    assert ReadLines(rest) == [];
    assert s[..|s|] == s;
    assert ReadLines(s) == [s[..|s|]] + ReadLines(rest);
  }

  lemma ReadLinesNoNewline(s: string)
    requires '\n' !in s && s != ""
    ensures ReadLines(s) == [s]
  {
    assert IndexOf(s, '\n') == None;
  }

  /** A text with no newline before its last character is one line. */
  lemma ReadLinesOneLine(s: string)
    requires |s| > 0 && '\n' !in s[..|s| - 1]
    ensures ReadLines(s) == [s]
  {
    if s[|s| - 1] == '\n' {
      ReadLinesTerminatedLine(s);
    } else {
      assert s == s[..|s| - 1] + [s[|s| - 1]];
      ReadLinesNoNewline(s);
    }
  }

  /** An unterminated last line gets its newline. */
  function EndLastLine(lines: seq<string>): seq<string>
  {
    if |lines| > 0 && !EndsLine(lines[|lines| - 1]) then lines[|lines| - 1 := lines[|lines| - 1] + "\n"] else lines
  }

  /** `update_env_file` with the last line ended before anything is appended. */
  function UpdateLines(lines: seq<string>, key: string, value: string): seq<string>
  {
    var i := FirstIndex(lines, KeyMatch(key));
    if i < |lines| then lines[i := EnvLine(key, value)] else EndLastLine(lines) + [EnvLine(key, value)]
  }

  /** On a file whose last line is complete, the corrected update is the update as written. */
  lemma UpdateLinesAgrees(lines: seq<string>, key: string, value: string)
    requires |lines| == 0 || EndsLine(lines[|lines| - 1])
    ensures UpdateLines(lines, key, value) == ReplaceOrAppend(lines, key, value)
  {
  }

  lemma StartsWithNewline(line: string, p: string)
    requires |p| > 0 && p[|p| - 1] != '\n' && !StartsWith(line, p)
    ensures !StartsWith(line + "\n", p)
  {
  }

  /**
   * The first `KEY=` line is replaced, or `KEY=value` is appended after the
   * other lines; apart from the one replaced line and the newline that ends
   * the last one, every line is kept in order; and afterwards the first `KEY=`
   * line is the new one.
   */
  lemma UpdateLinesProps(lines: seq<string>, key: string, value: string)
    ensures var i := FirstIndex(lines, KeyMatch(key));
      var r := UpdateLines(lines, key, value);
      (i < |lines| ==>
        |r| == |lines| && r[i] == EnvLine(key, value) &&
        forall j :: 0 <= j < |lines| && j != i ==> r[j] == lines[j]) &&
      (i == |lines| ==>
        |r| == |lines| + 1 && r[|lines|] == EnvLine(key, value) &&
        forall j :: 0 <= j < |lines| ==> r[j] == lines[j] || (j == |lines| - 1 && r[j] == lines[j] + "\n")) &&
      FirstIndex(r, KeyMatch(key)) == i
  {
    var i := FirstIndex(lines, KeyMatch(key));
    var r := UpdateLines(lines, key, value);
    assert StartsWith(EnvLine(key, value), key + "=") by {
      assert EnvLine(key, value)[..|key + "="|] == key + "=";
    }
    if i < |lines| {
      FirstIndexIs(r, KeyMatch(key), i);
    } else {
      assert forall j :: 0 <= j < |lines| - 1 ==> r[j] == lines[j];
      if |lines| > 0 && !EndsLine(lines[|lines| - 1]) {
        assert !KeyMatch(key)(lines[|lines| - 1]);
        StartsWithNewline(lines[|lines| - 1], key + "=");
        assert r[|lines| - 1] == lines[|lines| - 1] + "\n";
      }
      FirstIndexIs(r, KeyMatch(key), |lines|);
    }
  }

  /** Read back after the update, the file has exactly the lines the update produced. */
  lemma UpdateLinesRoundTrip(text: string, key: string, value: string)
    requires '\n' !in key && '\n' !in value
    ensures var r := UpdateLines(ReadLines(text), key, value);
      ReadLines(Concat(r)) == r
  {
    var ls := ReadLines(text);
    ReadLinesShape(text);
    var line := EnvLine(key, value);
    assert Terminated(line) by {
      assert line[..|line| - 1] == key + "=" + value;
    }
    var i := FirstIndex(ls, KeyMatch(key));
    if i < |ls| {
      ReplacedShape(ls, i, line);
    } else {
      AppendedShape(ls, line);
    }
    ReadLinesConcat(UpdateLines(ls, key, value));
  }

  lemma ReplacedShape(ls: seq<string>, i: nat, line: string)
    requires LinesOfFile(ls) && i < |ls| && Terminated(line)
    ensures LinesOfFile(ls[i := line])
  {
    var r := ls[i := line];
    forall j | 0 <= j < |r| - 1 ensures Terminated(r[j]) {
      if j != i {
        assert r[j] == ls[j];
      }
    }
  }

  lemma AppendedShape(ls: seq<string>, line: string)
    requires LinesOfFile(ls) && Terminated(line)
    ensures LinesOfFile(EndLastLine(ls) + [line])
  {
    var r := EndLastLine(ls) + [line];
    if |ls| > 0 {
      var last := ls[|ls| - 1];
      var ended := EndLastLine(ls)[|ls| - 1];
      assert Terminated(ended) by {
        if !EndsLine(last) {
          assert last == last[..|last| - 1] + [last[|last| - 1]];
          assert ended == last + "\n";
          assert ended[..|ended| - 1] == last;
        }
      }
      forall j | 0 <= j < |r| - 1 ensures Terminated(r[j]) {
        if j < |ls| - 1 {
          assert r[j] == ls[j];
        }
      }
    }
  }

  /** The file after `update_env_file(key, value)`; a missing file stays missing, since reading it raises. */
  function UpdatedText(text: Option<string>, key: string, value: string): (r: Option<string>)
    ensures r.None? <==> text.None?
  {
    if text.None? then None else Some(Concat(UpdateLines(ReadLines(text.value), key, value)))
  }

  /** Read back after the update, the file's first `KEY=` line is `KEY=value`. */
  lemma UpdatedTextSetsKey(text: string, key: string, value: string)
    requires '\n' !in key && '\n' !in value
    ensures var r := ReadLines(UpdatedText(Some(text), key, value).value);
      var i := FirstIndex(r, KeyMatch(key));
      i < |r| && r[i] == EnvLine(key, value)
  {
    UpdateLinesRoundTrip(text, key, value);
    UpdateLinesProps(ReadLines(text), key, value);
  }

  /** The scan of `update_env_file` with its `break`, the corrected append after it. */
  method UpdateEnvLines(lines: seq<string>, key: string, value: string) returns (r: seq<string>)
    ensures r == UpdateLines(lines, key, value)
  {
    r := lines;
    var updated := false;
    var i := 0;
    while i < |lines|
      invariant i <= |lines|
      invariant forall j :: 0 <= j < i ==> !KeyMatch(key)(lines[j])
    {
      if StartsWith(lines[i], key + "=") {
        r := lines[i := EnvLine(key, value)];
        updated := true;
        break;
      }
      i := i + 1;
    }
    FirstIndexIs(lines, KeyMatch(key), i);
    if !updated {
      r := EndLastLine(lines) + [EnvLine(key, value)];
    }
  }

  // ----------------------------------------------------- the key/value view

  lemma {:induction false} TrimLeftKeeps(s: string, c: char)
    requires c in s && !IsSpace(c)
    ensures c in TrimLeft(s)
    decreases |s|
  {
    if |s| > 0 && IsSpace(s[0]) {
      assert s == [s[0]] + s[1..];
      TrimLeftKeeps(s[1..], c);
    }
  }

  lemma {:induction false} TrimRightKeeps(s: string, c: char)
    requires c in s && !IsSpace(c)
    ensures c in TrimRight(s)
    decreases |s|
  {
    if |s| > 0 && IsSpace(s[|s| - 1]) {
      assert s == s[..|s| - 1] + [s[|s| - 1]];
      TrimRightKeeps(s[..|s| - 1], c);
    }
  }

  /** `line.strip().split("=", 1)` on a line containing `=`: the key before the first `=` of the stripped line, the value after it. */
  function LineEntry(line: string): (e: (string, string))
    requires '=' in line
    ensures Strip(line) == e.0 + "=" + e.1 && '=' !in e.0
  {
    TrimLeftKeeps(line, '=');
    TrimRightKeeps(TrimLeft(line), '=');
    SplitOnce(Strip(line), '=')
  }

  /** The line sets `k`. */
  predicate Assigns(line: string, k: string)
  {
    '=' in line && LineEntry(line).0 == k
  }

  /** `for line in f: if "=" in line: env_vars[key] = value`. */
  function ParseEnv(lines: seq<string>): Dict<string>
  {
    if |lines| == 0 then []
    else
      var d := ParseEnv(lines[..|lines| - 1]);
      var line := lines[|lines| - 1];
      if '=' in line then Put(d, LineEntry(line).0, LineEntry(line).1) else d
  }

  /** The dict-filling loop of the two scripts that rewrite the file. */
  method ReadEnvVars(lines: seq<string>) returns (envVars: Dict<string>)
    ensures envVars == ParseEnv(lines)
  {
    envVars := [];
    var i := 0;
    while i < |lines|
      invariant i <= |lines|
      invariant envVars == ParseEnv(lines[..i])
    {
      assert lines[..i + 1][..i] == lines[..i];
      var line := lines[i];
      if '=' in line {
        var (key, value) := LineEntry(line);
        envVars := Put(envVars, key, value);
      }
      i := i + 1;
    }
    assert lines[..i] == lines;
  }

  /** The value the last line setting `k` gives it. */
  function LastValue(lines: seq<string>, k: string): Option<string>
  {
    if |lines| == 0 then None
    else if Assigns(lines[|lines| - 1], k) then Some(LineEntry(lines[|lines| - 1]).1)
    else LastValue(lines[..|lines| - 1], k)
  }

  lemma {:induction false} ParseEnvLast(lines: seq<string>, k: string)
    ensures Get(ParseEnv(lines), k) == LastValue(lines, k)
  {
    if |lines| > 0 {
      var init := lines[..|lines| - 1];
      var line := lines[|lines| - 1];
      ParseEnvLast(init, k);
      if '=' in line {
        PutGet(ParseEnv(init), LineEntry(line).0, LineEntry(line).1, k);
      }
    }
  }

  lemma {:induction false} LastValueFound(lines: seq<string>, k: string, v: string) returns (i: nat)
    requires LastValue(lines, k) == Some(v)
    ensures i < |lines| && Assigns(lines[i], k) && LineEntry(lines[i]).1 == v
    ensures forall j :: i < j < |lines| ==> !Assigns(lines[j], k)
  {
    var n := |lines| - 1;
    if Assigns(lines[n], k) {
      i := n;
    } else {
      var init := lines[..n];
      assert LastValue(init, k) == Some(v);
      i := LastValueFound(init, k, v);
      assert init[i] == lines[i];
      forall j | i < j < |lines| ensures !Assigns(lines[j], k) {
        if j < n {
          assert init[j] == lines[j];
        } else {
          assert j == n;
        }
      }
    }
  }

  lemma {:induction false} LastValueOfWitness(lines: seq<string>, k: string, v: string, i: nat)
    requires i < |lines| && Assigns(lines[i], k) && LineEntry(lines[i]).1 == v
    requires forall j :: i < j < |lines| ==> !Assigns(lines[j], k)
    ensures LastValue(lines, k) == Some(v)
  {
    var n := |lines| - 1;
    if i < n {
      var init := lines[..n];
      assert !Assigns(lines[n], k);
      assert init[i] == lines[i];
      forall j | i < j < n ensures !Assigns(init[j], k) {
        assert init[j] == lines[j];
      }
      LastValueOfWitness(init, k, v, i);
    }
  }

  /** A key is read with value `v` iff the last line that sets the key gives it `v`: later lines win. */
  lemma ParseEnvGet(lines: seq<string>, k: string, v: string)
    ensures Get(ParseEnv(lines), k) == Some(v) <==>
      exists i :: 0 <= i < |lines| && Assigns(lines[i], k) && LineEntry(lines[i]).1 == v &&
        forall j :: i < j < |lines| ==> !Assigns(lines[j], k)
  {
    ParseEnvLast(lines, k);
    if Get(ParseEnv(lines), k) == Some(v) {
      var i := LastValueFound(lines, k, v);
    }
    if exists i :: (0 <= i < |lines| && Assigns(lines[i], k) && LineEntry(lines[i]).1 == v &&
      forall j :: i < j < |lines| ==> !Assigns(lines[j], k))
    {
      var i :| 0 <= i < |lines| && Assigns(lines[i], k) && LineEntry(lines[i]).1 == v &&
        forall j :: i < j < |lines| ==> !Assigns(lines[j], k);
      LastValueOfWitness(lines, k, v, i);
    }
  }

  /** The index of the first element satisfying `p`, `|s|` when there is none, computed from the back. */
  function FirstWhere<T>(s: seq<T>, p: T -> bool): nat
  {
    if |s| == 0 then 0
    else
      var f := FirstWhere(s[..|s| - 1], p);
      if f < |s| - 1 then f else if p(s[|s| - 1]) then |s| - 1 else |s|
  }

  lemma {:induction false} FirstWhereMeaning<T>(s: seq<T>, p: T -> bool)
    ensures FirstWhere(s, p) <= |s|
    ensures forall j :: 0 <= j < FirstWhere(s, p) ==> !p(s[j])
    ensures FirstWhere(s, p) < |s| ==> p(s[FirstWhere(s, p)])
  {
    if |s| > 0 {
      var init := s[..|s| - 1];
      FirstWhereMeaning(init, p);
      assert forall j :: 0 <= j < |init| ==> init[j] == s[j];
    }
  }

  function AssignsKey(k: string): string -> bool
  {
    (line: string) => Assigns(line, k)
  }

  /** The index of the first line that sets `k`; `|lines|` when none does. */
  function FirstSet(lines: seq<string>, k: string): nat
  {
    FirstWhere(lines, AssignsKey(k))
  }

  /** `FirstSet` is the first line setting the key. */
  lemma FirstSetMeaning(lines: seq<string>, k: string)
    ensures FirstSet(lines, k) <= |lines|
    ensures forall j :: 0 <= j < FirstSet(lines, k) ==> !Assigns(lines[j], k)
    ensures FirstSet(lines, k) < |lines| ==> Assigns(lines[FirstSet(lines, k)], k)
  {
    FirstWhereMeaning(lines, AssignsKey(k));
  }

  /**
   * The dict read from the lines: each key once, every key some line sets, and
   * keys in the order of the first lines that set them.
   */
  predicate OrderedFrom(lines: seq<string>, d: Dict<string>)
  {
    DistinctKeys(d) && KeysCovered(lines, d) && KeysOrdered(lines, d)
  }

  /** Every key a line sets is a key of `d`. */
  predicate KeysCovered(lines: seq<string>, d: Dict<string>)
  {
    forall i :: 0 <= i < |lines| && '=' in lines[i] ==> LineEntry(lines[i]).0 in Keys(d)
  }

  /** Every key of `d` is set by some line, and the keys follow the order of their first lines. */
  predicate KeysOrdered(lines: seq<string>, d: Dict<string>)
  {
    (forall a :: 0 <= a < |d| ==> FirstSet(lines, d[a].0) < |lines|) &&
    (forall a, b :: 0 <= a < b < |d| ==> FirstSet(lines, d[a].0) < FirstSet(lines, d[b].0))
  }

  /** A key first set before the last line keeps its first line. */
  lemma FirstSetKept(lines: seq<string>, k: string)
    requires |lines| > 0 && FirstSet(lines[..|lines| - 1], k) < |lines| - 1
    ensures FirstSet(lines, k) == FirstSet(lines[..|lines| - 1], k)
  {
  }

  lemma CoveredStep(lines: seq<string>, d0: Dict<string>, d: Dict<string>)
    requires |lines| > 0
    requires KeysCovered(lines[..|lines| - 1], d0)
    requires forall k :: k in Keys(d0) ==> k in Keys(d)
    requires '=' in lines[|lines| - 1] ==> LineEntry(lines[|lines| - 1]).0 in Keys(d)
    ensures KeysCovered(lines, d)
  {
    var init := lines[..|lines| - 1];
    forall i | 0 <= i < |lines| && '=' in lines[i] ensures LineEntry(lines[i]).0 in Keys(d) {
      if i < |init| {
        assert lines[i] == init[i];
      }
    }
  }

  lemma OrderedKept(lines: seq<string>, d0: Dict<string>, d: Dict<string>)
    requires |lines| > 0
    requires KeysOrdered(lines[..|lines| - 1], d0)
    requires Keys(d) == Keys(d0)
    ensures KeysOrdered(lines, d)
  {
    var init := lines[..|lines| - 1];
    forall a | 0 <= a < |d| ensures d[a].0 == d0[a].0 && FirstSet(lines, d[a].0) == FirstSet(init, d0[a].0) {
      assert Keys(d)[a] == Keys(d0)[a];
      FirstSetKept(lines, d0[a].0);
    }
  }

  lemma OrderedNew(lines: seq<string>, d0: Dict<string>, key: string, value: string)
    requires |lines| > 0
    requires KeysOrdered(lines[..|lines| - 1], d0)
    requires Assigns(lines[|lines| - 1], key) && FirstSet(lines[..|lines| - 1], key) == |lines| - 1
    ensures KeysOrdered(lines, d0 + [(key, value)])
  {
    var init := lines[..|lines| - 1];
    var d := d0 + [(key, value)];
    assert FirstSet(lines, key) == |init|;
    forall a | 0 <= a < |d0| ensures d[a] == d0[a] && FirstSet(lines, d[a].0) == FirstSet(init, d0[a].0) < |init| {
      FirstSetKept(lines, d0[a].0);
    }
    forall a, b | 0 <= a < b < |d| ensures FirstSet(lines, d[a].0) < FirstSet(lines, d[b].0) {
      if b < |d0| {
        assert FirstSet(init, d0[a].0) < FirstSet(init, d0[b].0);
      }
    }
  }

  /** A line that sets a key already read changes no position. */
  lemma OrderKeptStep(lines: seq<string>, d0: Dict<string>, d: Dict<string>)
    requires |lines| > 0
    requires OrderedFrom(lines[..|lines| - 1], d0)
    requires Keys(d) == Keys(d0)
    requires '=' in lines[|lines| - 1] ==> LineEntry(lines[|lines| - 1]).0 in Keys(d0)
    ensures OrderedFrom(lines, d)
  {
    assert DistinctKeys(d) by {
      assert forall a :: 0 <= a < |d| ==> d[a].0 == Keys(d)[a] == Keys(d0)[a] == d0[a].0;
    }
    CoveredStep(lines, d0, d);
    OrderedKept(lines, d0, d);
  }

  /** A line that sets a new key puts it last, after the first lines of all others. */
  lemma OrderNewStep(lines: seq<string>, d0: Dict<string>, key: string, value: string)
    requires |lines| > 0
    requires OrderedFrom(lines[..|lines| - 1], d0)
    requires '=' in lines[|lines| - 1] && LineEntry(lines[|lines| - 1]) == (key, value) && key !in Keys(d0)
    ensures OrderedFrom(lines, d0 + [(key, value)])
  {
    var init := lines[..|lines| - 1];
    var d := d0 + [(key, value)];
    assert Keys(d) == Keys(d0) + [key];
    assert FirstSet(init, key) == |init| by {
      FirstSetMeaning(init, key);
    }
    CoveredStep(lines, d0, d);
    OrderedNew(lines, d0, key, value);
    assert DistinctKeys(d) by {
      assert forall a :: 0 <= a < |d0| ==> d0[a].0 in Keys(d0);
    }
  }

  lemma ParseEnvOrderStep(lines: seq<string>)
    requires |lines| > 0
    requires OrderedFrom(lines[..|lines| - 1], ParseEnv(lines[..|lines| - 1]))
    ensures OrderedFrom(lines, ParseEnv(lines))
  {
    var init := lines[..|lines| - 1];
    var line := lines[|lines| - 1];
    var d0 := ParseEnv(init);
    if '=' in line {
      var (key, value) := LineEntry(line);
      assert ParseEnv(lines) == Put(d0, key, value);
      GetIn(d0, key);
      if Find(d0, key).None? {
        OrderNewStep(lines, d0, key, value);
      } else {
        OrderKeptStep(lines, d0, ParseEnv(lines));
      }
    } else {
      OrderKeptStep(lines, d0, ParseEnv(lines));
    }
  }

  /**
   * Each key appears once, each key a line sets appears, and keys stand in the
   * order their first lines come: a later duplicate changes the value, not the position.
   */
  lemma {:induction false} ParseEnvOrder(lines: seq<string>)
    ensures OrderedFrom(lines, ParseEnv(lines))
  {
    if |lines| > 0 {
      var init := lines[..|lines| - 1];
      ParseEnvOrder(init);
      ParseEnvOrderStep(lines);
    }
  }

  /** The lines written back: one `k=v` line per key, in dict order. */
  function EnvLines(d: Dict<string>): seq<string>
  {
    seq(|d|, i requires 0 <= i < |d| => EnvLine(d[i].0, d[i].1))
  }

  /** `for key, value in env_vars.items(): f.write(f"{key}={value}\n")`. */
  method WriteBack(d: Dict<string>) returns (text: string)
    ensures text == Concat(EnvLines(d))
  {
    text := "";
    var i := 0;
    while i < |d|
      invariant i <= |d|
      invariant text == Concat(EnvLines(d[..i]))
    {
      assert EnvLines(d[..i + 1]) == EnvLines(d[..i]) + [EnvLine(d[i].0, d[i].1)];
      ConcatSnoc(EnvLines(d[..i]), EnvLine(d[i].0, d[i].1));
      text := text + EnvLine(d[i].0, d[i].1);
      i := i + 1;
    }
    assert d[..i] == d;
  }

  /** A key/value pair that survives a write and a re-read: no newline, no `=` in the key, no white space at the line's two ends. */
  predicate CleanEntry(e: (string, string))
  {
    '\n' !in e.0 && '\n' !in e.1 && '=' !in e.0 &&
    (|e.0| > 0 ==> !IsSpace(e.0[0])) && (|e.1| > 0 ==> !IsSpace(e.1[|e.1| - 1]))
  }

  /** A clean `k=v` line strips to `k=v`. */
  lemma StripEnvLine(k: string, v: string)
    requires CleanEntry((k, v))
    ensures Strip(EnvLine(k, v)) == k + "=" + v
  {
    var body := k + "=" + v;
    var s := EnvLine(k, v);
    assert s == body + "\n";
    assert body[0] == (if |k| > 0 then k[0] else '=');
    assert TrimLeft(s) == s;
    assert s[..|s| - 1] == body;
    assert body[|body| - 1] == (if |v| > 0 then v[|v| - 1] else '=');
    assert TrimRight(body) == body;
  }

  lemma SplitOnceAt(a: string, c: char, b: string)
    requires c !in a
    ensures SplitOnce(a + [c] + b, c) == (a, b)
  {
    var s := a + [c] + b;
    assert s[..|a|] == a;
    IndexOfFirst(s, c, |a|);
    assert s[|a| + 1..] == b;
  }

  lemma LineEntryOfEnvLine(k: string, v: string)
    requires CleanEntry((k, v))
    ensures '=' in EnvLine(k, v) && LineEntry(EnvLine(k, v)) == (k, v)
  {
    assert EnvLine(k, v)[|k|] == '=';
    StripEnvLine(k, v);
    SplitOnceAt(k, '=', v);
  }

  /** Writing a dict with distinct clean keys and reading it back gives the same dict. */
  lemma EnvRoundTrip(d: Dict<string>)
    requires DistinctKeys(d)
    requires forall i :: 0 <= i < |d| ==> CleanEntry(d[i])
    ensures ParseEnv(ReadLines(Concat(EnvLines(d)))) == d
  {
    forall i | 0 <= i < |d| ensures Terminated(EnvLines(d)[i]) {
      var line := EnvLines(d)[i];
      assert line[..|line| - 1] == d[i].0 + "=" + d[i].1;
    }
    ReadLinesConcat(EnvLines(d));
    ParseEnvLines(d);
  }

  lemma EnvLinesSnoc(d: Dict<string>)
    requires |d| > 0
    ensures EnvLines(d) == EnvLines(d[..|d| - 1]) + [EnvLine(d[|d| - 1].0, d[|d| - 1].1)]
  {
  }

  lemma ParseEnvSnoc(lines: seq<string>, line: string)
    requires '=' in line
    ensures ParseEnv(lines + [line]) == Put(ParseEnv(lines), LineEntry(line).0, LineEntry(line).1)
  {
    assert (lines + [line])[..|lines|] == lines;
  }

  lemma PutNew(d: Dict<string>, k: string, v: string)
    requires forall i :: 0 <= i < |d| ==> d[i].0 != k
    ensures Put(d, k, v) == d + [(k, v)]
  {
  }

  /** One more clean, new key written after the others is read back last. */
  lemma ParseEnvLinesStep(init: Dict<string>, k: string, v: string)
    requires ParseEnv(EnvLines(init)) == init
    requires CleanEntry((k, v))
    requires forall i :: 0 <= i < |init| ==> init[i].0 != k
    ensures ParseEnv(EnvLines(init + [(k, v)])) == init + [(k, v)]
  {
    var d := init + [(k, v)];
    assert d[..|d| - 1] == init;
    EnvLinesSnoc(d);
    LineEntryOfEnvLine(k, v);
    ParseEnvSnoc(EnvLines(init), EnvLine(k, v));
    PutNew(init, k, v);
  }

  lemma CleanPrefix(d: Dict<string>)
    requires |d| > 0
    requires DistinctKeys(d)
    requires forall i :: 0 <= i < |d| ==> CleanEntry(d[i])
    ensures DistinctKeys(d[..|d| - 1])
    ensures forall i :: 0 <= i < |d| - 1 ==> d[..|d| - 1][i] == d[i] && d[i].0 != d[|d| - 1].0
    ensures d == d[..|d| - 1] + [(d[|d| - 1].0, d[|d| - 1].1)]
  {
  }

  lemma {:induction false} ParseEnvLines(d: Dict<string>)
    requires DistinctKeys(d)
    requires forall i :: 0 <= i < |d| ==> CleanEntry(d[i])
    ensures ParseEnv(EnvLines(d)) == d
  {
    if |d| > 0 {
      CleanPrefix(d);
      ParseEnvLines(d[..|d| - 1]);
      ParseEnvLinesStep(d[..|d| - 1], d[|d| - 1].0, d[|d| - 1].1);
    }
  }

  /** A line with no newline before its end strips to a text with no newline. */
  lemma StripNoNewline(line: string)
    requires |line| > 0 ==> '\n' !in line[..|line| - 1]
    ensures '\n' !in Strip(line)
  {
    var l := TrimLeft(line);
    var r := TrimRight(l);
    forall j | 0 <= j < |r| ensures r[j] != '\n' {
      assert r[j] == l[j] == line[|line| - |l| + j];
      if j < |r| - 1 {
        assert line[..|line| - 1][|line| - |l| + j] == line[|line| - |l| + j];
      }
    }
  }

  /** Every key/value pair read from a line of a file survives a write and a re-read. */
  lemma LineEntryClean(line: string)
    requires '=' in line
    requires '\n' !in line[..|line| - 1]
    ensures CleanEntry(LineEntry(line))
  {
    StripNoNewline(line);
    var e := LineEntry(line);
    var s := Strip(line);
    assert s == e.0 + "=" + e.1;
    assert forall j :: 0 <= j < |e.0| ==> e.0[j] == s[j];
    assert forall j :: 0 <= j < |e.1| ==> e.1[j] == s[|e.0| + 1 + j];
  }

  lemma PutClean(d: Dict<string>, k: string, v: string)
    requires forall i :: 0 <= i < |d| ==> CleanEntry(d[i])
    requires CleanEntry((k, v))
    ensures forall i :: 0 <= i < |Put(d, k, v)| ==> CleanEntry(Put(d, k, v)[i])
  {
  }

  /** Lines with no newline before their ends are read into clean pairs. */
  lemma {:induction false} ParseEnvClean(lines: seq<string>)
    requires forall i :: 0 <= i < |lines| ==> |lines[i]| > 0 && '\n' !in lines[i][..|lines[i]| - 1]
    ensures forall i :: 0 <= i < |ParseEnv(lines)| ==> CleanEntry(ParseEnv(lines)[i])
  {
    if |lines| > 0 {
      var init := lines[..|lines| - 1];
      assert forall i :: 0 <= i < |init| ==> init[i] == lines[i];
      ParseEnvClean(init);
      var line := lines[|lines| - 1];
      if '=' in line {
        LineEntryClean(line);
        PutClean(ParseEnv(init), LineEntry(line).0, LineEntry(line).1);
      }
    }
  }

  /** The dict read from any file has distinct keys and only pairs that survive a rewrite. */
  lemma ParsedFileClean(text: string)
    ensures var d := ParseEnv(ReadLines(text));
      DistinctKeys(d) && forall i :: 0 <= i < |d| ==> CleanEntry(d[i])
  {
    var ls := ReadLines(text);
    ReadLinesShape(text);
    assert forall i :: 0 <= i < |ls| - 1 ==> Terminated(ls[i]);
    ParseEnvClean(ls);
    ParseEnvOrder(ls);
  }

  /** Rewriting a file from what was read from it and reading it again gives the same dict. */
  lemma RewriteRoundTrip(text: string)
    ensures var d := ParseEnv(ReadLines(text));
      ParseEnv(ReadLines(Concat(EnvLines(d)))) == d
  {
    ParsedFileClean(text);
    EnvRoundTrip(ParseEnv(ReadLines(text)));
  }

  class DotEnv {
    /** The `.env` text; None when the file does not exist. */
    var text: Option<string>

    constructor(text: Option<string>)
      ensures this.text == text
    {
      this.text := text;
    }

    /** `update_env_file(key, value)`: reading a missing file raises; otherwise the updated lines are written back. */
    method UpdateEnvFile(key: string, value: string) returns (ok: bool)
      modifies this
      ensures ok <==> old(text).Some?
      ensures text == UpdatedText(old(text), key, value)
    {
      if text.None? {
        return false;
      }
      var lines := ReadLines(text.value);
      lines := UpdateEnvLines(lines, key, value);
      text := Some(Concat(lines));
      return true;
    }

    /** Replaces the whole file. */
    method Write(newText: string)
      modifies this
      ensures text == Some(newText)
    {
      text := Some(newText);
    }
  }
}
