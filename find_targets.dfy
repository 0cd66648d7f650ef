/**
 * The target finder across account structures: it tries two authorization
 * headers on four target paths and notes whether any reply lists targets; it
 * builds the counts URL of a found target from its path; and its
 * `update_env_file` replaces or adds the `RINGBA_ACCOUNT_ID` line of `.env`.
 * The settings and every reply are inputs.
 */
module FindTargets {
  import opened Common
  import opened EnvFile

  const BaseApiUrl: string := "https://api.ringba.com/v2"

  /** `Bearer {token}`, then `Token {token}`. */
  function AuthHeaders(token: string): (r: seq<string>)
    ensures |r| == 2
  {
    ["Bearer " + token, "Token " + token]
  }

  /** `"Bearer" if "Bearer" in headers["Authorization"] else "Token"`. */
  function AuthLabel(header: string): (r: string)
    ensures r == "Bearer" <==> Contains(header, "Bearer")
    ensures r == "Bearer" || r == "Token"
  {
    if Contains(header, "Bearer") then "Bearer" else "Token"
  }

  /** The first header is labelled `Bearer`. */
  lemma BearerHeaderLabel(token: string)
    ensures AuthLabel(AuthHeaders(token)[0]) == "Bearer"
  {
    assert ("Bearer " + token)[0..6] == "Bearer";
    ContainsAt("Bearer " + token, "Bearer", 0);
  }

  /**
   * The second header is labelled `Token` exactly when the token itself does
   * not contain `Bearer`: the label is a substring test on the whole header.
   */
  lemma TokenHeaderLabel(token: string)
    ensures AuthLabel(AuthHeaders(token)[1]) == "Token" <==> !Contains(token, "Bearer")
  {
    var h := "Token " + token;
    if Contains(token, "Bearer") {
      var i := ContainsWitness(token, "Bearer");
      assert h[i + 6..i + 6 + 6] == token[i..i + 6];
      ContainsAt(h, "Bearer", i + 6);
    }
    if Contains(h, "Bearer") {
      var i := ContainsWitness(h, "Bearer");
      assert h[i] == h[i..i + 6][0] == 'B';
      assert h[0] == 'T' && h[1] == 'o' && h[2] == 'k' && h[3] == 'e' && h[4] == 'n' && h[5] == ' ';
      assert token[i - 6..i] == h[i..i + 6];
      ContainsAt(token, "Bearer", i - 6);
    }
  }

  /** The four target paths, each ending in `/targets`. */
  function TargetDirs(account: string): (r: seq<string>)
    ensures |r| == 4
  {
    ["/" + account, "/accounts/" + account, "/clients/" + account, "/organizations/" + account]
  }

  function TargetPaths(account: string): (r: seq<string>)
    ensures |r| == 4 && forall k :: 0 <= k < 4 ==> r[k] == TargetDirs(account)[k] + "/targets"
  {
    var d := TargetDirs(account);
    [d[0] + "/targets", d[1] + "/targets", d[2] + "/targets", d[3] + "/targets"]
  }

  /** `f"{base_api_url}{path.rsplit('/', 1)[0]}/{target_id}/Counts"`. */
  function StatsUrl(path: string, targetId: string): string
  {
    BaseApiUrl + BeforeLast(path, '/') + "/" + targetId + "/Counts"
  }

  /** The counts URL replaces the path's last segment, `targets`, with the target's id and `Counts`. */
  lemma StatsUrlDropsTargets(dir: string, targetId: string)
    ensures StatsUrl(dir + "/targets", targetId) == BaseApiUrl + dir + "/" + targetId + "/Counts"
  {
    var s := dir + "/targets";
    assert s[|dir|] == '/';
    assert s[|dir| + 1..] == "targets";
    assert LastIndexOf(s, '/') == Some(|dir|);
    assert s[..|dir|] == dir;
  }

  /** Every path tried gets the counts URL under its own account directory. */
  lemma StatsUrlOfTargetPaths(account: string, k: nat, targetId: string)
    requires k < 4
    ensures StatsUrl(TargetPaths(account)[k], targetId) == BaseApiUrl + TargetDirs(account)[k] + "/" + targetId + "/Counts"
  {
    StatsUrlDropsTargets(TargetDirs(account)[k], targetId);
  }

  /**
   * A reply that sets `found_targets`: a 200 whose JSON is an object with a
   * truthy `items` value that `len` accepts, or a non-empty list.
   */
  predicate FindsTargets(reply: Reply)
  {
    reply.Answered? && reply.status == 200 && reply.body.Some? &&
    var data := reply.body.value;
    (data.JObj? && Get(data.members, "items").Some? &&
      JTruthy(Get(data.members, "items").value) && JLen(Get(data.members, "items").value).Some?) ||
    (data.JArr? && |data.items| > 0)
  }

  /** An object whose `items` is a truthy number: `len(items)` raises before the flag is set. */
  lemma TruthyNumberItemsNotFound()
    ensures !FindsTargets(Answered(200, Some(JObj([("items", JNum(3.0))]))))
  {
    assert Get([("items", JNum(3.0))], "items") == Some(JNum(3.0));
  }

  /** The header-and-path loops: `found_targets` is set iff some reply lists targets; nothing resets it. */
  method SearchTargets(replies: (nat, nat) -> Reply) returns (foundTargets: bool)
    ensures foundTargets <==> exists h, k :: 0 <= h < 2 && 0 <= k < 4 && FindsTargets(replies(h, k))
  {
    foundTargets := false;
    var h := 0;
    while h < 2
      invariant h <= 2
      invariant foundTargets <==> exists h', k :: 0 <= h' < h && 0 <= k < 4 && FindsTargets(replies(h', k))
    {
      var k := 0;
      while k < 4
        invariant k <= 4
        invariant foundTargets <==>
          (exists h', k' :: 0 <= h' < h && 0 <= k' < 4 && FindsTargets(replies(h', k'))) ||
          (exists k' :: 0 <= k' < k && FindsTargets(replies(h, k')))
      {
        var reply := replies(h, k);
        if reply.Answered? && reply.status == 200 && reply.body.Some? {
          var data := reply.body.value;
          if data.JObj? && Get(data.members, "items").Some? {
            var items := Get(data.members, "items").value;
            if JTruthy(items) && JLen(items).Some? {
              foundTargets := true;
            }
          } else if data.JArr? && |data.items| > 0 {
            foundTargets := true;
          }
        }
        k := k + 1;
      }
      h := h + 1;
    }
  }

  /** How `main` goes on: the exit for a missing setting, the success summary, or the search for related accounts. */
  datatype FinderOutcome = MissingSetting | TargetsFound | SearchRelated

  method FindTargetsMain(token: Option<string>, account: Option<string>, replies: (nat, nat) -> Reply)
    returns (outcome: FinderOutcome)
    ensures !Present(token) || !Present(account) ==> outcome == MissingSetting
    ensures Present(token) && Present(account) ==>
      (outcome == TargetsFound <==> exists h, k :: 0 <= h < 2 && 0 <= k < 4 && FindsTargets(replies(h, k))) &&
      (outcome == TargetsFound || outcome == SearchRelated)
  {
    if !Present(token) || !Present(account) {
      return MissingSetting;
    }
    var found := SearchTargets(replies);
    if found {
      return TargetsFound;
    }
    return SearchRelated;
  }

  /** `update_env_file(new_account_id)`: the first `RINGBA_ACCOUNT_ID=` line is replaced, or one is added; a missing `.env` raises. */
  method UpdateEnvFile(env: DotEnv, newAccountId: string) returns (ok: bool)
    modifies env
    ensures ok <==> old(env.text).Some?
    ensures env.text == UpdatedText(old(env.text), "RINGBA_ACCOUNT_ID", newAccountId)
  {
    ok := env.UpdateEnvFile("RINGBA_ACCOUNT_ID", newAccountId);
  }

  /** Read back, the updated file's first `RINGBA_ACCOUNT_ID=` line names the new account. */
  lemma UpdatedAccountId(text: string, newAccountId: string)
    requires '\n' !in newAccountId
    ensures var r := ReadLines(UpdatedText(Some(text), "RINGBA_ACCOUNT_ID", newAccountId).value);
      var i := FirstIndex(r, KeyMatch("RINGBA_ACCOUNT_ID"));
      i < |r| && r[i] == "RINGBA_ACCOUNT_ID=" + newAccountId + "\n"
  {
    UpdatedTextSetsKey(text, "RINGBA_ACCOUNT_ID", newAccountId);
  }
}
