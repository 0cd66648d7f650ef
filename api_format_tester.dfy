/**
 * The API format tester: it tries every combination of base URL, endpoint
 * format, authorization format and URL variant, keeps the last combination
 * whose reply names a targets field, saves that combination's configuration
 * and records its authorization format in `.env`. The two settings and every
 * reply are inputs; printing, the configuration file and the generated test
 * script are left out.
 */
module ApiFormatTester {
  import opened Common
  import opened EnvFile

  const BaseUrls: seq<string> := ["https://api.ringba.com/v2", "https://api.ringba.com/v1", "https://app.ringba.com/api/v2"]
  const AuthNames: seq<string> := ["Bearer", "Token", "No prefix"]
  const UrlNames: seq<string> := ["Basic URL", "With includeStats"]
  const ResponseFields: seq<string> := ["targets", "items"]

  /** One probe: its indices into the base URLs, endpoint formats, authorization formats and URL variants. */
  datatype Probe = Probe(base: nat, endpoint: nat, auth: nat, variant: nat)

  predicate ValidProbe(p: Probe)
  {
    p.base < 3 && p.endpoint < 2 && p.auth < 3 && p.variant < 2
  }

  /** `f"/{account_id}/targets"`, then `f"/accounts/{account_id}/targets"`. */
  function Endpoint(account: string, e: nat): string
  {
    if e == 0 then "/" + account + "/targets" else "/accounts/" + account + "/targets"
  }

  /** `Bearer {token}`, `Token {token}`, then the bare token. */
  function AuthHeader(token: string, a: nat): string
  {
    if a == 0 then "Bearer " + token else if a == 1 then "Token " + token else token
  }

  /** The basic URL, then the one asking for stats. */
  function FullUrl(url: string, v: nat): string
  {
    if v == 0 then url else url + "?includeStats=true"
  }

  /** What `working_combination` records. */
  datatype Combo = Combo(baseUrl: string, endpoint: string, authFormat: string, authHeader: string,
                         responseField: string, urlFormat: string, fullUrl: string, targetCount: nat)

  function ComboOf(p: Probe, token: string, account: string, field: string, count: nat): Combo
    requires ValidProbe(p)
  {
    var url := BaseUrls[p.base] + Endpoint(account, p.endpoint);
    Combo(BaseUrls[p.base], Endpoint(account, p.endpoint), AuthNames[p.auth], AuthHeader(token, p.auth),
          field, UrlNames[p.variant], FullUrl(url, p.variant), count)
  }

  /** The probes in the order of the four nested loops: base URL, endpoint format, authorization format, URL variant. */
  function Probes(): (ps: seq<Probe>)
    ensures |ps| == 36
    ensures forall n :: 0 <= n < |ps| ==> ValidProbe(ps[n])
  {
    seq(36, n requires 0 <= n < 36 => Probe(n / 12, (n / 6) % 2, (n / 2) % 3, n % 2))
  }

  /** The probe the nested loops reach with indices `b, e, a, v` is the one at that place in the order. */
  lemma ProbeAt(b: nat, e: nat, a: nat, v: nat)
    requires b < 3 && e < 2 && a < 3 && v < 2
    ensures 12 * b + 6 * e + 2 * a + v < 36
    ensures Probes()[12 * b + 6 * e + 2 * a + v] == Probe(b, e, a, v)
  {
    var n := 12 * b + 6 * e + 2 * a + v;
    assert n / 12 == b;
    assert n / 6 == 2 * b + e;
    assert (n / 6) % 2 == e;
    assert n / 2 == 6 * b + 3 * e + a;
    assert (n / 2) % 3 == a;
  }

  /** What one response field gives: it is absent, testing it raises, or it is found with its length and whether printing its first targets raises. */
  datatype FieldLook = NoField | FieldRaises | FieldFound(count: nat, printRaises: bool)

  /** `target.get(...)` on each of `targets[:3]`: only a list whose first three items are objects gets through. */
  predicate FirstThreePrint(t: Json)
  {
    t.JArr? && forall i :: 0 <= i < |t.items| && i < 3 ==> t.items[i].JObj?
  }

  /** `if field in data: targets = data[field]; len(targets)`, then the printing of the first targets when there are any. */
  function LookField(data: Json, field: string): (r: FieldLook)
    ensures r.FieldFound? ==> data.JObj? && Get(data.members, field).Some? && JLen(Get(data.members, field).value) == Some(r.count)
    ensures r.NoField? <==> JIn(field, data) == Some(false)
  {
    match JIn(field, data)
    case None => FieldRaises
    case Some(false) => NoField
    case Some(true) =>
      var t := JSub(data, field);
      if t.None? then FieldRaises
      else
        var n := JLen(t.value);
        if n.None? then FieldRaises
        else FieldFound(n.value, n.value > 0 && !FirstThreePrint(t.value))
  }

  /** What the field loop of one probe leaves: `working_combination`, and whether an exception ended it. */
  datatype ProbeResult = ProbeResult(found: Option<Combo>, raised: bool)

  /** The loop `for field in response_fields` over `fields`, starting from the combination `cur`. */
  function ScanFields(cur: Option<Combo>, p: Probe, token: string, account: string, data: Json, fields: seq<string>): ProbeResult
    requires ValidProbe(p)
    decreases |fields|
  {
    if |fields| == 0 then ProbeResult(cur, false)
    else match LookField(data, fields[0])
      case NoField => ScanFields(cur, p, token, account, data, fields[1..])
      case FieldRaises => ProbeResult(cur, true)
      case FieldFound(n, printRaises) =>
        var c := Some(ComboOf(p, token, account, fields[0], n));
        if printRaises then ProbeResult(c, true) else ScanFields(c, p, token, account, data, fields[1..])
  }

  /** The combination so far only matters when the fields name none: a found field replaces it. */
  lemma {:induction false} ScanFieldsFrom(cur: Option<Combo>, p: Probe, token: string, account: string, data: Json, fields: seq<string>)
    requires ValidProbe(p)
    ensures var own := ScanFields(None, p, token, account, data, fields);
      ScanFields(cur, p, token, account, data, fields) ==
        ProbeResult(if own.found.Some? then own.found else cur, own.raised)
    decreases |fields|
  {
    if |fields| > 0 {
      match LookField(data, fields[0])
      case NoField =>
        ScanFieldsFrom(cur, p, token, account, data, fields[1..]);
      case FieldRaises =>
      case FieldFound(n, printRaises) =>
        var c := Some(ComboOf(p, token, account, fields[0], n));
        if !printRaises {
          ScanFieldsFrom(c, p, token, account, data, fields[1..]);
          ScanFieldsFrom(None, p, token, account, data, fields[1..]);
        }
    }
  }

  /** One probe's effect: the new `working_combination`, and whether it printed the response structure. */
  function Step(wc: Option<Combo>, p: Probe, token: string, account: string, reply: Reply): (Option<Combo>, bool)
    requires ValidProbe(p)
  {
    if reply.Raised? || reply.status != 200 || reply.body.None? then (wc, false)
    else
      var r := ScanFields(wc, p, token, account, reply.body.value, ResponseFields);
      (r.found, !r.raised && r.found.None?)
  }

  /** The combination one probe records on its own, whatever came before. */
  function Sets(p: Probe, token: string, account: string, reply: Reply): Option<Combo>
    requires ValidProbe(p)
  {
    Step(None, p, token, account, reply).0
  }

  /** A probe replaces `working_combination` with the combination it records, or leaves it. */
  lemma StepSets(wc: Option<Combo>, p: Probe, token: string, account: string, reply: Reply)
    requires ValidProbe(p)
    ensures var s := Sets(p, token, account, reply);
      Step(wc, p, token, account, reply).0 == if s.Some? then s else wc
  {
    if !(reply.Raised? || reply.status != 200 || reply.body.None?) {
      ScanFieldsFrom(wc, p, token, account, reply.body.value, ResponseFields);
    }
  }

  /** The response structure is printed only while no combination has been found, and only by a probe that finds none. */
  lemma StructureOnlyWhileNone(wc: Option<Combo>, p: Probe, token: string, account: string, reply: Reply)
    requires ValidProbe(p)
    requires Step(wc, p, token, account, reply).1
    ensures wc.None? && Sets(p, token, account, reply).None?
  {
    StepSets(wc, p, token, account, reply);
  }

  /** `working_combination` after the probes `ps`. */
  function Search(ps: seq<Probe>, replies: Probe -> Reply, token: string, account: string): Option<Combo>
    requires forall n :: 0 <= n < |ps| ==> ValidProbe(ps[n])
  {
    if |ps| == 0 then None
    else
      var last := ps[|ps| - 1];
      Step(Search(ps[..|ps| - 1], replies, token, account), last, token, account, replies(last)).0
  }

  /** The last value `f` gives along `xs`, or None when it gives none. */
  function LastSome<T, U>(xs: seq<T>, f: T -> Option<U>): Option<U>
  {
    if |xs| == 0 then None
    else if f(xs[|xs| - 1]).Some? then f(xs[|xs| - 1])
    else LastSome(xs[..|xs| - 1], f)
  }

  lemma {:induction false} LastSomeMeaning<T, U>(xs: seq<T>, f: T -> Option<U>)
    ensures var r := LastSome(xs, f);
      (r.None? <==> forall k :: 0 <= k < |xs| ==> f(xs[k]).None?) &&
      (r.Some? ==> exists k :: 0 <= k < |xs| && f(xs[k]) == r && forall j :: k < j < |xs| ==> f(xs[j]).None?)
  {
    if |xs| > 0 {
      var n := |xs| - 1;
      var init := xs[..n];
      assert forall k :: 0 <= k < n ==> init[k] == xs[k];
      LastSomeMeaning(init, f);
      if f(xs[n]).None? && LastSome(xs, f).Some? {
        var k :| 0 <= k < n && f(init[k]) == LastSome(init, f) && forall j :: k < j < n ==> f(init[j]).None?;
        assert f(xs[k]) == LastSome(xs, f);
      }
    }
  }

  /** `Sets` as a function of the probe. */
  function SetsOf(replies: Probe -> Reply, token: string, account: string): Probe -> Option<Combo>
  {
    (p: Probe) => if ValidProbe(p) then Sets(p, token, account, replies(p)) else None
  }

  /** `working_combination` after the probes is the combination the last probe that records one records. */
  lemma {:induction false} SearchIsLastSome(ps: seq<Probe>, replies: Probe -> Reply, token: string, account: string)
    requires forall n :: 0 <= n < |ps| ==> ValidProbe(ps[n])
    ensures Search(ps, replies, token, account) == LastSome(ps, SetsOf(replies, token, account))
  {
    if |ps| > 0 {
      var n := |ps| - 1;
      SearchIsLastSome(ps[..n], replies, token, account);
      StepSets(Search(ps[..n], replies, token, account), ps[n], token, account, replies(ps[n]));
    }
  }

  /** When both fields are present and the `targets` listing prints, `items` overwrites it. */
  lemma ItemsOverwritesTargets(p: Probe, token: string, account: string, data: Json)
    requires ValidProbe(p)
    requires LookField(data, "targets").FieldFound? && !LookField(data, "targets").printRaises
    requires LookField(data, "items").FieldFound?
    ensures var s := Sets(p, token, account, Answered(200, Some(data)));
      s.Some? && s.value.responseField == "items" && s.value.targetCount == LookField(data, "items").count
  {
    var c := Some(ComboOf(p, token, account, "targets", LookField(data, "targets").count));
    assert ResponseFields[0] == "targets" && ResponseFields[1..] == ["items"] && ["items"][1..] == [];
    assert ScanFields(None, p, token, account, data, ResponseFields) == ScanFields(c, p, token, account, data, ["items"]);
    var look := LookField(data, "items");
    var c2 := Some(ComboOf(p, token, account, "items", look.count));
    assert ScanFields(c, p, token, account, data, ["items"]).found == c2;
    assert Sets(p, token, account, Answered(200, Some(data))) == c2;
  }

  /** When printing the `targets` listing raises, the exception ends the field loop: `items` is never looked at. */
  lemma TargetsPrintRaiseStops(p: Probe, token: string, account: string, data: Json)
    requires ValidProbe(p)
    requires LookField(data, "targets").FieldFound? && LookField(data, "targets").printRaises
    ensures var s := Sets(p, token, account, Answered(200, Some(data)));
      s.Some? && s.value.responseField == "targets" && s.value.targetCount == LookField(data, "targets").count
  {
  }

  /** The probe handler: the request first, then the field loop with its exception ending it. */
  method ProbeOnce(wc: Option<Combo>, p: Probe, token: string, account: string, reply: Reply)
    returns (working: Option<Combo>, printedStructure: bool)
    requires ValidProbe(p)
    ensures (working, printedStructure) == Step(wc, p, token, account, reply)
  {
    working := wc;
    printedStructure := false;
    if reply.Raised? || reply.status != 200 || reply.body.None? {
      return;
    }
    var data := reply.body.value;
    var raised := false;
    var i := 0;
    while i < |ResponseFields|
      invariant i <= |ResponseFields|
      invariant ScanFields(wc, p, token, account, data, ResponseFields) == ScanFields(working, p, token, account, data, ResponseFields[i..])
    {
      var field := ResponseFields[i];
      var look := LookField(data, field);
      if look.FieldRaises? {
        raised := true;
        break;
      }
      if look.FieldFound? {
        working := Some(ComboOf(p, token, account, field, look.count));
        if look.printRaises {
          raised := true;
          break;
        }
      }
      assert ResponseFields[i..][1..] == ResponseFields[i + 1..];
      i := i + 1;
    }
    assert ScanFields(wc, p, token, account, data, ResponseFields) == ProbeResult(working, raised);
    printedStructure := !raised && working.None?;
  }

  /** The four nested loops over the probes. */
  method FindWorkingCombination(replies: Probe -> Reply, token: string, account: string) returns (wc: Option<Combo>)
    ensures wc == Search(Probes(), replies, token, account)
  {
    wc := None;
    var n := 0;
    var b := 0;
    while b < 3
      invariant b <= 3 && n == 12 * b
      invariant wc == Search(Probes()[..n], replies, token, account)
    {
      var e := 0;
      while e < 2
        invariant e <= 2 && n == 12 * b + 6 * e
        invariant wc == Search(Probes()[..n], replies, token, account)
      {
        var a := 0;
        while a < 3
          invariant a <= 3 && n == 12 * b + 6 * e + 2 * a
          invariant wc == Search(Probes()[..n], replies, token, account)
        {
          var v := 0;
          while v < 2
            invariant v <= 2 && n == 12 * b + 6 * e + 2 * a + v
            invariant wc == Search(Probes()[..n], replies, token, account)
          {
            ProbeAt(b, e, a, v);
            var p := Probe(b, e, a, v);
            assert Probes()[..n + 1][..n] == Probes()[..n];
            var printed;
            wc, printed := ProbeOnce(wc, p, token, account, replies(p));
            n := n + 1;
            v := v + 1;
          }
          a := a + 1;
        }
        e := e + 1;
      }
      b := b + 1;
    }
    assert Probes()[..n] == Probes();
  }

  /** The configuration saved for a working combination: exactly these five keys, in this order. */
  function SavedConfig(c: Combo, account: string): (r: Dict<string>)
    ensures Keys(r) == ["base_url", "endpoint_format", "auth_format", "response_field", "account_id"]
    ensures Values(r) == [c.baseUrl, c.endpoint, c.authFormat, c.responseField, account]
  {
    [("base_url", c.baseUrl), ("endpoint_format", c.endpoint), ("auth_format", c.authFormat),
     ("response_field", c.responseField), ("account_id", account)]
  }

  /** How `main` ends: the exit for a missing setting, no combination, or the combination with its saved configuration. */
  datatype TesterOutcome = MissingSetting | NoneFound | Found(combo: Combo, config: Dict<string>)

  function TesterRun(token: Option<string>, account: Option<string>, replies: Probe -> Reply): TesterOutcome
  {
    if !Present(token) || !Present(account) then MissingSetting
    else
      var wc := Search(Probes(), replies, token.value, account.value);
      if wc.None? then NoneFound else Found(wc.value, SavedConfig(wc.value, account.value))
  }

  /** A run finds a combination iff some probe records one, and the combination it keeps is the last such probe's. */
  lemma TesterRunFinds(token: string, account: string, replies: Probe -> Reply)
    requires token != "" && account != ""
    ensures var r := TesterRun(Some(token), Some(account), replies);
      var ps := Probes();
      var f := SetsOf(replies, token, account);
      (r.NoneFound? <==> forall k :: 0 <= k < |ps| ==> f(ps[k]).None?) &&
      (r.Found? ==> exists k :: (0 <= k < |ps| && f(ps[k]) == Some(r.combo) &&
        forall j :: k < j < |ps| ==> f(ps[j]).None?))
  {
    SearchIsLastSome(Probes(), replies, token, account);
    LastSomeMeaning(Probes(), SetsOf(replies, token, account));
  }

  /** `main`: the search, then, for a working combination, `update_env_file("RINGBA_AUTH_FORMAT", ...)`; a missing `.env` raises and is caught. */
  method ApiFormatTesterMain(env: DotEnv, token: Option<string>, account: Option<string>, replies: Probe -> Reply)
    returns (outcome: TesterOutcome)
    modifies env
    ensures outcome == TesterRun(token, account, replies)
    ensures env.text == if outcome.Found? then UpdatedText(old(env.text), "RINGBA_AUTH_FORMAT", outcome.combo.authFormat) else old(env.text)
  {
    if !Present(token) || !Present(account) {
      return MissingSetting;
    }
    var wc := FindWorkingCombination(replies, token.value, account.value);
    if wc.None? {
      return NoneFound;
    }
    var config := SavedConfig(wc.value, account.value);
    var _ := env.UpdateEnvFile("RINGBA_AUTH_FORMAT", wc.value.authFormat);
    return Found(wc.value, config);
  }
}
