/**
 * The token generator: with a token in hand it either creates `.env` from a
 * five-line template or merges the token into the existing file; when the
 * token call raises it tries six direct token requests and may save the first
 * token obtained with the template. The typed answers, the token call's
 * result and the replies are inputs.
 */
module GetToken {
  import opened Common
  import opened EnvFile

  const TokenKey: string := "RINGBA_API_TOKEN"

  /** The five settings of a new `.env`: the token, then the placeholders. */
  function TemplateVars(token: string): (d: Dict<string>)
    ensures |d| == 5 && d[0] == (TokenKey, token)
  {
    [(TokenKey, token), ("RINGBA_ACCOUNT_ID", "your_account_id"), ("SLACK_WEBHOOK_URL", "your_webhook_url"),
     ("TARGET_NAME", "all"), ("RPC_THRESHOLD", "10.0")]
  }

  /** The text of a new `.env`. */
  function Template(token: string): string
  {
    Concat(EnvLines(TemplateVars(token)))
  }

  lemma Concat5(a: string, b: string, c: string, d: string, e: string)
    ensures Concat([a, b, c, d, e]) == a + b + c + d + e
  {
    var s0: seq<string> := [];
    ConcatSnoc(s0, a);
    assert s0 + [a] == [a];
    ConcatSnoc([a], b);
    assert [a] + [b] == [a, b];
    ConcatSnoc([a, b], c);
    assert [a, b] + [c] == [a, b, c];
    ConcatSnoc([a, b, c], d);
    assert [a, b, c] + [d] == [a, b, c, d];
    ConcatSnoc([a, b, c, d], e);
    assert [a, b, c, d] + [e] == [a, b, c, d, e];
  }

  /** The five `f.write` calls of the template. */
  method WriteTemplate(env: DotEnv, token: string)
    modifies env
    ensures env.text == Some(Template(token))
  {
    var text := EnvLine(TokenKey, token);
    text := text + EnvLine("RINGBA_ACCOUNT_ID", "your_account_id");
    text := text + EnvLine("SLACK_WEBHOOK_URL", "your_webhook_url");
    text := text + EnvLine("TARGET_NAME", "all");
    text := text + EnvLine("RPC_THRESHOLD", "10.0");
    var ls := EnvLines(TemplateVars(token));
    assert ls == [EnvLine(TokenKey, token), EnvLine("RINGBA_ACCOUNT_ID", "your_account_id"),
      EnvLine("SLACK_WEBHOOK_URL", "your_webhook_url"), EnvLine("TARGET_NAME", "all"), EnvLine("RPC_THRESHOLD", "10.0")];
    Concat5(ls[0], ls[1], ls[2], ls[3], ls[4]);
    env.Write(text);
  }

  /** The template's five keys differ pairwise. */
  lemma TemplateKeysDistinct(token: string)
    ensures DistinctKeys(TemplateVars(token))
  {
    var ks := ["RINGBA_API_TOKEN", "RINGBA_ACCOUNT_ID", "SLACK_WEBHOOK_URL", "TARGET_NAME", "RPC_THRESHOLD"];
    assert ks[0][7] == 'A' && ks[0][8] == 'P' && ks[1][7] == 'A' && ks[1][8] == 'C';
    assert ks[0][0] == 'R' && ks[1][0] == 'R' && ks[2][0] == 'S' && ks[3][0] == 'T' && ks[4][0] == 'R' && ks[4][1] == 'P';
    assert forall i, j :: 0 <= i < j < 5 ==> ks[i] != ks[j];
    assert forall i :: 0 <= i < 5 ==> TemplateVars(token)[i].0 == ks[i];
  }

  /** The template's keys are distinct, and a clean token keeps every pair clean. */
  lemma TemplateClean(token: string)
    requires CleanEntry((TokenKey, token))
    ensures var d := TemplateVars(token);
      DistinctKeys(d) && forall i :: 0 <= i < |d| ==> CleanEntry(d[i])
  {
    TemplateKeysDistinct(token);
  }

  /** A new `.env` holds exactly five lines, the token's first; a clean token reads back with the placeholders. */
  lemma TemplateShape(token: string)
    requires CleanEntry((TokenKey, token))
    ensures var ls := ReadLines(Template(token));
      |ls| == 5 && ls[0] == TokenKey + "=" + token + "\n" &&
      ParseEnv(ls) == TemplateVars(token)
  {
    var d := TemplateVars(token);
    var ls := EnvLines(d);
    forall i | 0 <= i < |d| ensures Terminated(ls[i]) {
      assert ls[i][..|ls[i]| - 1] == d[i].0 + "=" + d[i].1;
    }
    ReadLinesConcat(ls);
    TemplateClean(token);
    EnvRoundTrip(d);
  }

  /** The dict written into an existing `.env`: what was read, with the token set. */
  function MergedVars(text: string, token: string): Dict<string>
  {
    Put(ParseEnv(ReadLines(text)), TokenKey, token)
  }

  /**
   * The merge sets the token and changes no other value; a token key already
   * read keeps its position, a new one goes last; every other key is one a
   * line of the file sets.
   */
  lemma MergedVarsMeaning(text: string, token: string, k: string)
    ensures var d := ParseEnv(ReadLines(text));
      var r := MergedVars(text, token);
      Get(r, TokenKey) == Some(token) &&
      (k != TokenKey ==> Get(r, k) == Get(d, k)) &&
      (Get(d, TokenKey).Some? ==> Keys(r) == Keys(d)) &&
      (Get(d, TokenKey).None? ==> Keys(r) == Keys(d) + [TokenKey]) &&
      (k != TokenKey && Get(r, k).Some? ==> exists i :: 0 <= i < |ReadLines(text)| && Assigns(ReadLines(text)[i], k))
  {
    var lines := ReadLines(text);
    var d := ParseEnv(lines);
    PutGet(d, TokenKey, token, TokenKey);
    PutGet(d, TokenKey, token, k);
    if k != TokenKey && Get(d, k).Some? {
      ParseEnvGet(lines, k, Get(d, k).value);
    }
  }

  /** Merging into a file and reading it back gives the merged dict, for a clean token. */
  lemma MergeRoundTrip(text: string, token: string)
    requires CleanEntry((TokenKey, token))
    ensures ParseEnv(ReadLines(Concat(EnvLines(MergedVars(text, token))))) == MergedVars(text, token)
  {
    var d := ParseEnv(ReadLines(text));
    ParsedFileClean(text);
    PutDistinct(d, TokenKey, token);
    PutClean(d, TokenKey, token);
    EnvRoundTrip(MergedVars(text, token));
  }

  /** The `.env` update of `main` once a token is obtained: only a `y` answer writes; the template when the file is missing, else the merge. */
  function SavedText(text: Option<string>, token: string, answer: string): (r: Option<string>)
    ensures r != text ==> Lower(answer) == "y" && r.Some?
    ensures Lower(answer) == "y" ==> r.Some?
  {
    if Lower(answer) != "y" then text
    else if text.None? then Some(Template(token))
    else Some(Concat(EnvLines(MergedVars(text.value, token))))
  }

  /**
   * Read back after a `y` answer, the file sets the token, and a file that
   * existed keeps every other value it set.
   */
  lemma SavedTokenReadBack(text: Option<string>, token: string, answer: string, k: string)
    requires Lower(answer) == "y"
    requires CleanEntry((TokenKey, token))
    ensures var saved := ParseEnv(ReadLines(SavedText(text, token, answer).value));
      Get(saved, TokenKey) == Some(token) &&
      (text.Some? && k != TokenKey ==> Get(saved, k) == Get(ParseEnv(ReadLines(text.value)), k))
  {
    if text.None? {
      TemplateShape(token);
      assert Get(TemplateVars(token), TokenKey) == Some(token);
    } else {
      MergeRoundTrip(text.value, token);
      MergedVarsMeaning(text.value, token, k);
    }
  }

  /** A reply that yields a token: a 200 whose JSON is an object with a truthy `access_token`. */
  function TokenOf(reply: Reply): (t: Option<Json>)
    ensures t.Some? ==> reply.Answered? && reply.status == 200 && JTruthy(t.value)
  {
    if reply.Answered? && reply.status == 200 && reply.body.Some? && reply.body.value.JObj? then
      var t := JGetOr(reply.body.value.members, "access_token", JNull);
      if JTruthy(t) then Some(t) else None
    else None
  }

  /** The six attempts in order: three content types, each with the form and the JSON body. */
  function Attempts(): (r: seq<(nat, nat)>)
    ensures |r| == 6
  {
    [(0, 0), (0, 1), (1, 0), (1, 1), (2, 0), (2, 1)]
  }

  /** Attempt `2 * h + d` uses content type `h` and body kind `d`: the content types in turn, each with both bodies. */
  lemma AttemptAt(h: nat, d: nat)
    requires h < 3 && d < 2
    ensures 2 * h + d < 6 && Attempts()[2 * h + d] == (h, d)
  {
    if h == 0 {
      assert d == 0 || d == 1;
    } else if h == 1 {
      assert d == 0 || d == 1;
    } else {
      assert h == 2 && (d == 0 || d == 1);
    }
  }

  function Yields(replies: (nat, nat) -> Reply): ((nat, nat)) -> bool
  {
    (p: (nat, nat)) => TokenOf(replies(p.0, p.1)).Some?
  }

  /** Whether some direct attempt yields a token. */
  predicate DirectSucceeds(replies: (nat, nat) -> Reply)
  {
    FirstIndex(Attempts(), Yields(replies)) < 6
  }

  /** The `.env` text after the direct attempts: the template with the first token obtained, on a `y` answer. */
  function DirectText(text: Option<string>, replies: (nat, nat) -> Reply, show: Json -> string, save: string): Option<string>
  {
    var k := FirstIndex(Attempts(), Yields(replies));
    if k < 6 && Lower(save) == "y"
    then Some(Template(show(TokenOf(replies(Attempts()[k].0, Attempts()[k].1)).value)))
    else text
  }

  /**
   * `direct_token_attempt`: the attempts stop at the first that yields a
   * token; `success` says whether one did, and the template, with the token
   * as `show` prints it, is written when the save answer is `y`.
   */
  method DirectTokenAttempt(env: DotEnv, replies: (nat, nat) -> Reply, show: Json -> string, save: string)
    returns (success: bool)
    modifies env
    ensures success == DirectSucceeds(replies)
    ensures env.text == DirectText(old(env.text), replies, show, save)
  {
    var found: Option<Json> := None;
    var h: nat := 0;
    var d: nat := 0;
    while h < 3
      invariant h <= 3 && found.None?
      invariant forall j :: 0 <= j < 2 * h ==> !Yields(replies)(Attempts()[j])
      invariant env.text == old(env.text)
    {
      found, d := TryBodies(env, replies, show, save, h);
      if found.Some? {
        break;
      }
      AttemptAt(h, 0);
      AttemptAt(h, 1);
      h := h + 1;
    }
    success := found.Some?;
    if success {
      AttemptAt(h, d);
      forall j | 2 * h <= j < 2 * h + d ensures !Yields(replies)(Attempts()[j]) {
        AttemptAt(h, j - 2 * h);
      }
      FirstIndexIs(Attempts(), Yields(replies), 2 * h + d);
      assert TokenOf(replies(Attempts()[2 * h + d].0, Attempts()[2 * h + d].1)) == found;
    } else {
      FirstIndexIs(Attempts(), Yields(replies), 6);
    }
  }

  /**
   * The inner loop for content type `h`: the form body, then the JSON body;
   * the first reply with a token stops it, after the template is written on a
   * `y` answer.
   */
  method TryBodies(env: DotEnv, replies: (nat, nat) -> Reply, show: Json -> string, save: string, h: nat)
    returns (found: Option<Json>, d: nat)
    modifies env
    ensures d <= 2 && forall e :: 0 <= e < d ==> TokenOf(replies(h, e)).None?
    ensures found.None? ==> d == 2 && env.text == old(env.text)
    ensures found.Some? ==>
      d < 2 && found == TokenOf(replies(h, d)) &&
      env.text == if Lower(save) == "y" then Some(Template(show(found.value))) else old(env.text)
  {
    found := None;
    d := 0;
    while d < 2
      invariant d <= 2 && forall e :: 0 <= e < d ==> TokenOf(replies(h, e)).None?
      invariant env.text == old(env.text)
    {
      var token := TokenOf(replies(h, d));
      if token.Some? {
        if Lower(save) == "y" {
          WriteTemplate(env, show(token.value));
        }
        found := token;
        return;
      }
      d := d + 1;
    }
  }

  /** How a run ends: the exit for missing credentials, a token obtained, or the direct attempts and whether one succeeded. */
  datatype TokenOutcome = MissingCredentials | Obtained | Direct(success: bool)

  /**
   * `main`: `bearer` is what the token call returns, None when it raises. A
   * token obtained is saved on a `y` answer; otherwise the direct attempts
   * run with the same credentials.
   */
  method GetTokenMain(env: DotEnv, username: string, password: string, bearer: Option<string>, answer: string,
                      replies: (nat, nat) -> Reply, show: Json -> string, save: string)
    returns (outcome: TokenOutcome)
    modifies env
    ensures username == "" || password == "" ==> outcome == MissingCredentials && env.text == old(env.text)
    ensures username != "" && password != "" && bearer.Some? ==>
      outcome == Obtained && env.text == SavedText(old(env.text), bearer.value, answer)
    ensures username != "" && password != "" && bearer.None? ==>
      outcome == Direct(DirectSucceeds(replies)) && env.text == DirectText(old(env.text), replies, show, save)
  {
    if username == "" || password == "" {
      return MissingCredentials;
    }
    if bearer.Some? {
      var token := bearer.value;
      if Lower(answer) == "y" {
        if env.text.None? {
          WriteTemplate(env, token);
        } else {
          var envVars := ReadEnvVars(ReadLines(env.text.value));
          envVars := Put(envVars, TokenKey, token);
          var text := WriteBack(envVars);
          env.Write(text);
        }
      }
      return Obtained;
    }
    var success := DirectTokenAttempt(env, replies, show, save);
    return Direct(success);
  }

  /** `manual_entry`: no check of the credentials; a token obtained overwrites `.env` with the template on a `y` answer. */
  method ManualEntry(env: DotEnv, bearer: Option<string>, answer: string,
                     replies: (nat, nat) -> Reply, show: Json -> string, save: string)
    returns (outcome: TokenOutcome)
    modifies env
    ensures bearer.Some? ==>
      outcome == Obtained &&
      env.text == if Lower(answer) == "y" then Some(Template(bearer.value)) else old(env.text)
    ensures bearer.None? ==>
      outcome == Direct(DirectSucceeds(replies)) && env.text == DirectText(old(env.text), replies, show, save)
  {
    if bearer.Some? {
      if Lower(answer) == "y" {
        WriteTemplate(env, bearer.value);
      }
      return Obtained;
    }
    var success := DirectTokenAttempt(env, replies, show, save);
    return Direct(success);
  }

  /** A 200 whose JSON is a list, or an object with an empty `access_token`, yields no token. */
  lemma NoTokenReplies(items: seq<Json>)
    ensures TokenOf(Answered(200, Some(JArr(items)))).None?
    ensures TokenOf(Answered(200, Some(JObj([("access_token", JStr(""))])))).None?
    ensures TokenOf(Answered(200, Some(JObj([("access_token", JStr("t"))])))) == Some(JStr("t"))
  {
    assert Get([("access_token", JStr(""))], "access_token") == Some(JStr(""));
    assert Get([("access_token", JStr("t"))], "access_token") == Some(JStr("t"));
  }
}
