/**
 * The configuration updater: it reads `.env` into a dict (an empty one when
 * the file is missing), overwrites the keys whose prompt got a non-empty
 * answer, makes sure an API token is set (or aborts without writing), writes
 * the dict back one `key=value` line per key, and warns about an account or
 * webhook that still looks unset. The typed answers are inputs.
 */
module UpdateEnv {
  import opened Common
  import opened EnvFile

  const TokenKey: string := "RINGBA_API_TOKEN"
  const AccountKey: string := "RINGBA_ACCOUNT_ID"
  const WebhookKey: string := "SLACK_WEBHOOK_URL"
  const TargetKey: string := "TARGET_NAME"
  const ThresholdKey: string := "RPC_THRESHOLD"

  /** The four answers typed at the prompts, and the token typed when none is set. */
  datatype Answers = Answers(accountId: string, slackWebhook: string, targetName: string, rpcThreshold: string, token: string)

  /** The values read from `.env`; an empty dict when there is no file. */
  function CurrentVars(text: Option<string>): (d: Dict<string>)
    ensures text.None? ==> d == []
  {
    if text.None? then [] else ParseEnv(ReadLines(text.value))
  }

  /** `if answer: env_vars[key] = answer`. */
  function PutIfGiven(d: Dict<string>, key: string, answer: string): Dict<string>
  {
    if answer != "" then Put(d, key, answer) else d
  }

  lemma PutIfGivenGet(d: Dict<string>, key: string, answer: string, k: string)
    ensures Get(PutIfGiven(d, key, answer), k) == if k == key && answer != "" then Some(answer) else Get(d, k)
  {
    if answer != "" {
      PutGet(d, key, answer, k);
    }
  }

  /** The dict after the four prompts. */
  function Prompted(d: Dict<string>, a: Answers): Dict<string>
  {
    PutIfGiven(PutIfGiven(PutIfGiven(PutIfGiven(d, AccountKey, a.accountId), WebhookKey, a.slackWebhook),
      TargetKey, a.targetName), ThresholdKey, a.rpcThreshold)
  }

  /** The dict that is written back; None when no token is set and none is typed, and the run aborts. */
  function UpdatedVars(text: Option<string>, a: Answers): Option<Dict<string>>
  {
    var d := Prompted(CurrentVars(text), a);
    if Get(d, TokenKey).Some? then Some(d)
    else if a.token != "" then Some(Put(d, TokenKey, a.token))
    else None
  }

  lemma PromptedGet(d: Dict<string>, a: Answers, k: string)
    ensures k == AccountKey ==> Get(Prompted(d, a), k) == if a.accountId != "" then Some(a.accountId) else Get(d, k)
    ensures k == WebhookKey ==> Get(Prompted(d, a), k) == if a.slackWebhook != "" then Some(a.slackWebhook) else Get(d, k)
    ensures k == TargetKey ==> Get(Prompted(d, a), k) == if a.targetName != "" then Some(a.targetName) else Get(d, k)
    ensures k == ThresholdKey ==> Get(Prompted(d, a), k) == if a.rpcThreshold != "" then Some(a.rpcThreshold) else Get(d, k)
    ensures k !in [AccountKey, WebhookKey, TargetKey, ThresholdKey] ==> Get(Prompted(d, a), k) == Get(d, k)
  {
    var d1 := PutIfGiven(d, AccountKey, a.accountId);
    var d2 := PutIfGiven(d1, WebhookKey, a.slackWebhook);
    var d3 := PutIfGiven(d2, TargetKey, a.targetName);
    PutIfGivenGet(d, AccountKey, a.accountId, k);
    PutIfGivenGet(d1, WebhookKey, a.slackWebhook, k);
    PutIfGivenGet(d2, TargetKey, a.targetName, k);
    PutIfGivenGet(d3, ThresholdKey, a.rpcThreshold, k);
    assert AccountKey[0] != WebhookKey[0];
  }

  /** The run aborts exactly when the file sets no token and the token answer is empty. */
  lemma AbortsIffNoToken(text: Option<string>, a: Answers)
    ensures UpdatedVars(text, a).None? <==> Get(CurrentVars(text), TokenKey).None? && a.token == ""
  {
    PromptedGet(CurrentVars(text), a, TokenKey);
  }

  /**
   * After a run that writes: a non-empty answer sets its key and an empty one
   * keeps the value read; a token is always set, the one read when there was
   * one; every other key keeps the value read.
   */
  lemma UpdatedValues(text: Option<string>, a: Answers, k: string)
    requires UpdatedVars(text, a).Some?
    ensures var d := CurrentVars(text);
      var r := UpdatedVars(text, a).value;
      (k == AccountKey ==> Get(r, k) == if a.accountId != "" then Some(a.accountId) else Get(d, k)) &&
      (k == WebhookKey ==> Get(r, k) == if a.slackWebhook != "" then Some(a.slackWebhook) else Get(d, k)) &&
      (k == TargetKey ==> Get(r, k) == if a.targetName != "" then Some(a.targetName) else Get(d, k)) &&
      (k == ThresholdKey ==> Get(r, k) == if a.rpcThreshold != "" then Some(a.rpcThreshold) else Get(d, k)) &&
      (k == TokenKey ==> Get(r, k) == if Get(d, k).Some? then Get(d, k) else Some(a.token)) &&
      (k !in [TokenKey, AccountKey, WebhookKey, TargetKey, ThresholdKey] ==> Get(r, k) == Get(d, k))
  {
    var d := CurrentVars(text);
    var p := Prompted(d, a);
    PromptedGet(d, a, k);
    PromptedGet(d, a, TokenKey);
    if Get(p, TokenKey).None? {
      PutGet(p, TokenKey, a.token, k);
    }
  }

  /** Keys read keep their order at the front; any key added is one of the five the prompts set. */
  lemma UpdatedKeyOrder(text: Option<string>, a: Answers)
    requires UpdatedVars(text, a).Some?
    ensures var d := CurrentVars(text);
      var r := UpdatedVars(text, a).value;
      Keys(d) <= Keys(r) &&
      forall k :: k in Keys(r) && k !in Keys(d) ==> k in [TokenKey, AccountKey, WebhookKey, TargetKey, ThresholdKey]
  {
    var d := CurrentVars(text);
    var d1 := PutIfGiven(d, AccountKey, a.accountId);
    var d2 := PutIfGiven(d1, WebhookKey, a.slackWebhook);
    var d3 := PutIfGiven(d2, TargetKey, a.targetName);
    var d4 := PutIfGiven(d3, ThresholdKey, a.rpcThreshold);
    var r := UpdatedVars(text, a).value;
    PutKeys(d, AccountKey, a.accountId);
    PutKeys(d1, WebhookKey, a.slackWebhook);
    PutKeys(d2, TargetKey, a.targetName);
    PutKeys(d3, ThresholdKey, a.rpcThreshold);
    if Get(d4, TokenKey).None? {
      PutKeys(d4, TokenKey, a.token);
    }
    assert Keys(d) <= Keys(d2) by { PrefixTrans(Keys(d), Keys(d1), Keys(d2)); }
    assert Keys(d) <= Keys(d4) by { PrefixTrans(Keys(d2), Keys(d3), Keys(d4)); PrefixTrans(Keys(d), Keys(d2), Keys(d4)); }
    PrefixTrans(Keys(d), Keys(d4), Keys(r));
  }

  /** One prompt's answer keeps the keys in order and adds at most its own key. */
  lemma PutKeys(d: Dict<string>, key: string, answer: string)
    ensures var r := PutIfGiven(d, key, answer);
      Keys(d) <= Keys(r) && forall k :: k in Keys(r) && k !in Keys(d) ==> k == key
  {
  }

  lemma PrefixTrans(a: seq<string>, b: seq<string>, c: seq<string>)
    requires a <= b && b <= c
    ensures a <= c
  {
    assert a == b[..|a|] == c[..|a|];
  }

  /** The dict written back has distinct keys, and clean answers keep every pair clean. */
  lemma UpdatedClean(text: Option<string>, a: Answers)
    requires UpdatedVars(text, a).Some?
    requires CleanEntry((AccountKey, a.accountId)) && CleanEntry((WebhookKey, a.slackWebhook))
    requires CleanEntry((TargetKey, a.targetName)) && CleanEntry((ThresholdKey, a.rpcThreshold))
    requires CleanEntry((TokenKey, a.token))
    ensures var r := UpdatedVars(text, a).value;
      DistinctKeys(r) && forall i :: 0 <= i < |r| ==> CleanEntry(r[i])
  {
    var d := CurrentVars(text);
    if text.Some? {
      ParsedFileClean(text.value);
    }
    var d1 := PutIfGiven(d, AccountKey, a.accountId);
    var d2 := PutIfGiven(d1, WebhookKey, a.slackWebhook);
    var d3 := PutIfGiven(d2, TargetKey, a.targetName);
    var d4 := PutIfGiven(d3, ThresholdKey, a.rpcThreshold);
    if a.accountId != "" { PutDistinct(d, AccountKey, a.accountId); PutClean(d, AccountKey, a.accountId); }
    if a.slackWebhook != "" { PutDistinct(d1, WebhookKey, a.slackWebhook); PutClean(d1, WebhookKey, a.slackWebhook); }
    if a.targetName != "" { PutDistinct(d2, TargetKey, a.targetName); PutClean(d2, TargetKey, a.targetName); }
    if a.rpcThreshold != "" { PutDistinct(d3, ThresholdKey, a.rpcThreshold); PutClean(d3, ThresholdKey, a.rpcThreshold); }
    if Get(d4, TokenKey).None? && a.token != "" {
      PutDistinct(d4, TokenKey, a.token);
      PutClean(d4, TokenKey, a.token);
    }
  }

  /** With clean answers, the file written reads back as the dict that was written. */
  lemma UpdateRoundTrip(text: Option<string>, a: Answers)
    requires UpdatedVars(text, a).Some?
    requires CleanEntry((AccountKey, a.accountId)) && CleanEntry((WebhookKey, a.slackWebhook))
    requires CleanEntry((TargetKey, a.targetName)) && CleanEntry((ThresholdKey, a.rpcThreshold))
    requires CleanEntry((TokenKey, a.token))
    ensures var r := UpdatedVars(text, a).value;
      ParseEnv(ReadLines(Concat(EnvLines(r)))) == r
  {
    UpdatedClean(text, a);
    EnvRoundTrip(UpdatedVars(text, a).value);
  }

  /** The placeholder test as written: `env_vars.get(key) in [placeholder, "Not set", ""]`; a missing key gives None, which is in no list of strings. */
  predicate WarnsAsWritten(v: Option<string>, placeholder: string)
  {
    v.Some? && v.value in [placeholder, "Not set", ""]
  }

  /** The placeholder test with the `"Not set"` default the display uses: a missing key warns too. */
  predicate Warns(v: Option<string>, placeholder: string)
  {
    (if v.Some? then v.value else "Not set") in [placeholder, "Not set", ""]
  }

  /** The two tests agree on a value that is set; only a missing key tells them apart. */
  lemma WarnsAgreesWhenSet(v: Option<string>, placeholder: string)
    ensures v.Some? ==> (Warns(v, placeholder) <==> WarnsAsWritten(v, placeholder))
    ensures v.None? ==> Warns(v, placeholder) && !WarnsAsWritten(v, placeholder)
  {
  }

  /**
   * With no `.env`, an empty account answer and a typed token, the file
   * written has no account ID at all, and the test as written stays silent
   * about it.
   */
  lemma AbsentAccountNotWarned(token: string)
    requires token != ""
    ensures var r := UpdatedVars(None, Answers("", "", "", "", token));
      r == Some([(TokenKey, token)]) &&
      !WarnsAsWritten(Get(r.value, AccountKey), "your_account_id") &&
      Warns(Get(r.value, AccountKey), "your_account_id")
  {
    var a := Answers("", "", "", "", token);
    var empty: Dict<string> := [];
    assert Prompted(empty, a) == empty;
    assert Get(empty, TokenKey) == None;
    var r := [(TokenKey, token)];
    assert Put(empty, TokenKey, token) == r;
    assert Get(r, AccountKey) == None;
  }

  /** How a run ends: aborted for want of a token, or written, with the two placeholder warnings. */
  datatype UpdateOutcome = Aborted | Written(accountWarning: bool, webhookWarning: bool)

  /** `main`: read, prompt, check the token, write back, warn. */
  method UpdateEnvMain(env: DotEnv, a: Answers) returns (outcome: UpdateOutcome)
    modifies env
    ensures var r := UpdatedVars(old(env.text), a);
      (outcome.Aborted? <==> r.None?) &&
      (r.None? ==> env.text == old(env.text)) &&
      (r.Some? ==>
        env.text == Some(Concat(EnvLines(r.value))) &&
        outcome == Written(Warns(Get(r.value, AccountKey), "your_account_id"), Warns(Get(r.value, WebhookKey), "your_webhook_url")))
  {
    ghost var r := UpdatedVars(env.text, a);
    ghost var read := CurrentVars(env.text);
    var envVars: Dict<string> := [];
    if env.text.Some? {
      envVars := ReadEnvVars(ReadLines(env.text.value));
    }
    assert envVars == read;
    if a.accountId != "" {
      envVars := Put(envVars, AccountKey, a.accountId);
    }
    if a.slackWebhook != "" {
      envVars := Put(envVars, WebhookKey, a.slackWebhook);
    }
    if a.targetName != "" {
      envVars := Put(envVars, TargetKey, a.targetName);
    }
    if a.rpcThreshold != "" {
      envVars := Put(envVars, ThresholdKey, a.rpcThreshold);
    }
    assert envVars == Prompted(read, a);
    if Get(envVars, TokenKey).None? {
      if a.token != "" {
        envVars := Put(envVars, TokenKey, a.token);
      } else {
        return Aborted;
      }
    }
    assert r == Some(envVars);
    var text := WriteBack(envVars);
    env.Write(text);
    outcome := Written(Warns(Get(envVars, AccountKey), "your_account_id"), Warns(Get(envVars, WebhookKey), "your_webhook_url"));
  }
}
