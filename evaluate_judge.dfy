/**
 * The judge call of supabase/functions/evaluate-judge/index.ts: the guard on the judge type,
 * the clean-up of the model's reply (`replace(/```json\s?|```/g, "")` and `trim`), and the
 * mapping of every failure to a 500 `{error}` response.
 */
module EvaluateJudge {
  import opened Wrappers
  import opened Text
  import opened Edge

  // ---------------------------------------------------------------------------------------
  // The judge-type guard
  // ---------------------------------------------------------------------------------------

  /** The own keys of `SYSTEM_PROMPTS`. */
  const JUDGE_TYPES: seq<string> := ["technical", "business", "product", "risk", "innovation"]

  /** The keys every plain object inherits from `Object.prototype`. */
  const PROTOTYPE_KEYS: seq<string> := [
    "constructor", "hasOwnProperty", "isPrototypeOf", "propertyIsEnumerable", "toLocaleString",
    "toString", "valueOf", "__proto__", "__defineGetter__", "__defineSetter__",
    "__lookupGetter__", "__lookupSetter__"
  ]

  /** What `SYSTEM_PROMPTS[judgeType]` yields: the prompt of a judge type, an inherited member, or `undefined`. */
  datatype Lookup = Own(kind: string) | Inherited(key: string) | Absent

  /** The lookup as written: a plain index into an object literal, which also finds inherited members. */
  function LookupAsWritten(judgeType: string): (r: Lookup)
    ensures r.Absent? <==> judgeType !in JUDGE_TYPES && judgeType !in PROTOTYPE_KEYS
  {
    if judgeType in JUDGE_TYPES then Own(judgeType)
    else if judgeType in PROTOTYPE_KEYS then Inherited(judgeType)
    else Absent
  }

  /** `if (!systemPrompt)` as written: prompts and inherited members are both truthy. */
  predicate GuardPassesAsWritten(judgeType: string) {
    !LookupAsWritten(judgeType).Absent?
  }

  /** The written guard lets "toString" through, which is no judge type. */
  lemma InheritedKeyPasses()
    ensures GuardPassesAsWritten("toString") && "toString" !in JUDGE_TYPES
  {
    assert PROTOTYPE_KEYS[5] == "toString";
  }

  /** The own-property lookup the guard is meant to be: a prompt for exactly the five judge types. */
  function SystemPrompt(judgeType: string): (r: Option<string>)
    ensures r.Some? <==> judgeType in JUDGE_TYPES
    ensures r.Some? ==> r.value == judgeType
  {
    if judgeType in JUDGE_TYPES then Some(judgeType) else None
  }

  /** The corrected guard accepts exactly the five types, each of which the written one accepted too. */
  lemma SystemPromptSpec(judgeType: string)
    ensures SystemPrompt(judgeType).Some? <==>
      judgeType == "technical" || judgeType == "business" || judgeType == "product"
      || judgeType == "risk" || judgeType == "innovation"
    ensures SystemPrompt(judgeType).Some? ==> GuardPassesAsWritten(judgeType)
  {
  }

  // ---------------------------------------------------------------------------------------
  // The fence clean-up
  // ---------------------------------------------------------------------------------------

  /**
   * The global regex replace, scanning left to right: at each position "```json" with at most
   * one following white-space character is removed, else "```", else the character is kept.
   */
  function Strip(s: string): (r: string)
    ensures |r| <= |s|
    decreases |s|
  {
    if StartsWith(s, "```json") then
      var rest := s[7..];
      if rest != [] && IsSpace(rest[0]) then Strip(rest[1..]) else Strip(rest)
    else if StartsWith(s, "```") then Strip(s[3..])
    else if s == [] then []
    else [s[0]] + Strip(s[1..])
  }

  /** The clean-up of line 72. */
  function Clean(s: string): string {
    Trim(Strip(s))
  }

  /** No three backticks in a row. */
  predicate NoFence(x: string) {
    forall i | 0 <= i && i + 2 < |x| :: !(x[i] == '`' && x[i + 1] == '`' && x[i + 2] == '`')
  }

  /** The two patterns, read character by character. */
  lemma FencePrefix(x: string)
    ensures StartsWith(x, "```") <==> |x| >= 3 && x[0] == '`' && x[1] == '`' && x[2] == '`'
    ensures StartsWith(x, "```json") ==> StartsWith(x, "```")
  {
    if |x| >= 3 {
      assert x[..3] == [x[0], x[1], x[2]];
    }
    if |x| >= 7 {
      assert x[..7][..3] == x[..3];
    }
  }

  /** Where no fence starts, the first character is kept. */
  lemma KeepFirst(x: string)
    requires x != [] && !(|x| >= 3 && x[0] == '`' && x[1] == '`' && x[2] == '`')
    ensures Strip(x) == [x[0]] + Strip(x[1..])
  {
    FencePrefix(x);
  }

  /** Text without a backtick passes the replace unchanged. */
  lemma {:induction false} StripPlain(b: string, t: string)
    requires '`' !in b
    ensures Strip(b + t) == b + Strip(t)
    decreases |b|
  {
    if b != [] {
      var x := b + t;
      assert Strip(x) == [b[0]] + Strip(b[1..] + t) by {
        assert x[0] == b[0];
        assert x[1..] == b[1..] + t;
        KeepFirst(x);
      }
      StripPlain(b[1..], t);
      assert b == [b[0]] + b[1..];
    } else {
      assert b + t == t;
    }
  }

  /** Text without a backtick is only trimmed. */
  lemma CleanPlain(s: string)
    requires '`' !in s
    ensures Clean(s) == Trim(s)
  {
    StripPlain(s, []);
    assert s + [] == s;
  }

  /** A fenced block "```json\n" + B + "\n```" cleans to B trimmed, when B has no backtick. */
  lemma CleanFenced(b: string)
    requires '`' !in b
    ensures Clean("```json\n" + b + "\n```") == Trim(b)
  {
    var fence := "```";
    var x := "```json\n" + b + "\n```";
    assert x[..7] == "```json";
    assert x[7] == '\n';
    assert x[8..] == b + "\n```";
    StripPlain(b, "\n```");
    var t := "\n```";
    assert t[1..] == fence;
    assert fence[3..] == [];
    assert Strip(t) == "\n";
    assert AllSpace("\n");
    TrimAppendSpace(b, "\n");
  }

  /** A text that does not start with a backtick does not come out starting with one. */
  lemma {:induction false} StripNoLead(s: string)
    requires s == [] || s[0] != '`'
    ensures Strip(s) == [] || Strip(s)[0] != '`'
  {
    if s != [] {
      KeepFirst(s);
    }
  }

  /** A text that does not start with two backticks does not come out starting with two. */
  lemma {:induction false} StripNoDouble(s: string)
    requires !(|s| >= 2 && s[0] == '`' && s[1] == '`')
    ensures !(|Strip(s)| >= 2 && Strip(s)[0] == '`' && Strip(s)[1] == '`')
  {
    if s != [] && s[0] == '`' {
      KeepFirst(s);
      StripNoLead(s[1..]);
    }
  }

  /** The replace leaves no three backticks in a row. */
  lemma {:induction false} StripNoFence(s: string)
    ensures NoFence(Strip(s))
    decreases |s|
  {
    FencePrefix(s);
    if StartsWith(s, "```json") {
      var rest := s[7..];
      if rest != [] && IsSpace(rest[0]) {
        StripNoFence(rest[1..]);
      } else {
        StripNoFence(rest);
      }
    } else if StartsWith(s, "```") {
      StripNoFence(s[3..]);
    } else if s != [] {
      var t := Strip(s[1..]);
      StripNoFence(s[1..]);
      var r := [s[0]] + t;
      KeepFirst(s);
      if s[0] == '`' {
        StripNoDouble(s[1..]);
      }
      forall i | 0 <= i && i + 2 < |r|
        ensures !(r[i] == '`' && r[i + 1] == '`' && r[i + 2] == '`')
      {
        if i > 0 {
          assert r[i] == t[i - 1] && r[i + 1] == t[i] && r[i + 2] == t[i + 1];
        }
      }
    }
  }

  /** Text with no three backticks in a row passes the replace unchanged. */
  lemma {:induction false} NoFenceStrip(x: string)
    requires NoFence(x)
    ensures Strip(x) == x
    decreases |x|
  {
    if x != [] {
      assert !(|x| >= 3 && x[0] == '`' && x[1] == '`' && x[2] == '`');
      KeepFirst(x);
      assert NoFence(x[1..]) by {
        forall i | 0 <= i && i + 2 < |x| - 1
          ensures !(x[1..][i] == '`' && x[1..][i + 1] == '`' && x[1..][i + 2] == '`')
        {
          assert x[1..][i] == x[i + 1] && x[1..][i + 1] == x[i + 2] && x[1..][i + 2] == x[i + 3];
        }
      }
      NoFenceStrip(x[1..]);
    }
  }

  lemma NoFenceSlice(x: string, a: nat, b: nat)
    requires NoFence(x) && a <= b <= |x|
    ensures NoFence(x[a..b])
  {
    var y := x[a..b];
    forall i | 0 <= i && i + 2 < |y|
      ensures !(y[i] == '`' && y[i + 1] == '`' && y[i + 2] == '`')
    {
      assert y[i] == x[a + i] && y[i + 1] == x[a + i + 1] && y[i + 2] == x[a + i + 2];
    }
  }

  /** The cleaned text has no fence and no white space at its ends, so cleaning it again changes nothing. */
  lemma CleanIdempotent(s: string)
    ensures NoFence(Clean(s)) && Trimmed(Clean(s))
    ensures Clean(Clean(s)) == Clean(s)
  {
    var y := Strip(s);
    StripNoFence(s);
    var a, b := TrimBounds(y);
    NoFenceSlice(y, a, b);
    TrimSpec(y);
    NoFenceStrip(Clean(s));
    TrimOfTrimmed(Clean(s));
  }

  // ---------------------------------------------------------------------------------------
  // The handler
  // ---------------------------------------------------------------------------------------

  /** The JSON body: the evaluation the model gave, re-serialised, or `{error}`. */
  datatype Body = Evaluated(json: string) | Error(message: string)

  /**
   * The `system` field of the request body after `JSON.stringify`: a prompt string, left out
   * (a function-valued member is dropped), or `{}` (`Object.prototype`, which has no own
   * enumerable property).
   */
  datatype SystemField = Prompt(kind: string) | Dropped | EmptyObject

  /** A response, and the `system` field of the request when the language-model API was called. */
  datatype Outcome = Outcome(status: nat, body: Body, sent: Option<SystemField>)

  /** What the request carries as `system` for the value the lookup found; nothing when it found none. */
  function SystemSent(l: Lookup): (f: Option<SystemField>)
    ensures f.None? <==> l.Absent?
  {
    match l
    case Own(kind) => Some(Prompt(kind))
    case Inherited(key) => if key == "__proto__" then Some(EmptyObject) else Some(Dropped)
    case Absent => None
  }

  /** A judge type sends its prompt; every inherited key but `__proto__` is a method and is dropped. */
  lemma SystemSentSpec(judgeType: string)
    ensures SystemSent(LookupAsWritten(judgeType)) == Some(Prompt(judgeType)) <==> judgeType in JUDGE_TYPES
    ensures judgeType in PROTOTYPE_KEYS ==>
      SystemSent(LookupAsWritten(judgeType)) == if judgeType == "__proto__" then Some(EmptyObject) else Some(Dropped)
  {
    if judgeType in PROTOTYPE_KEYS {
      assert judgeType !in JUDGE_TYPES;
    }
  }

  /** After the request: the API's answer, cleaned and parsed. */
  function Answer(system: SystemField, reply: Reply, parse: string -> Result<string, string>): (out: Outcome)
    ensures out.sent == Some(system)
    ensures out.status == 200 <==> reply.Answered? && parse(Clean(reply.text)).Ok?
  {
    match reply
    case Failed(status, body) => Outcome(500, Error(ApiError(status, body)), Some(system))
    case Answered(text) =>
      match parse(Clean(text))
      case Ok(json) => Outcome(200, Evaluated(json), Some(system))
      case Err(message) => Outcome(500, Error(message), Some(system))
  }

  /**
   * The handler as written, given the API key, the requested judge type, the reply the API would
   * give and `JSON.parse` followed by `JSON.stringify` (its error is the parser's message).
   */
  function Respond(key: Option<string>, judgeType: string, reply: Reply, parse: string -> Result<string, string>): Outcome {
    if !Configured(key) then Outcome(500, Error(KEY_MISSING), None)
    else match SystemSent(LookupAsWritten(judgeType))
      case None => Outcome(500, Error("Unknown judge type: " + judgeType), None)
      case Some(system) => Answer(system, reply, parse)
  }

  /**
   * A 200 comes only for a set key, a type the written guard lets through, an ok reply and a
   * cleaned text that parses; every other path is a 500 with its error. The API is called for a
   * set key and a judge type or an inherited key, with the prompt only for a judge type.
   */
  lemma RespondSpec(key: Option<string>, judgeType: string, reply: Reply, parse: string -> Result<string, string>)
    ensures var out := Respond(key, judgeType, reply, parse);
      (out.status == 200 <==>
        (Configured(key) && (judgeType in JUDGE_TYPES || judgeType in PROTOTYPE_KEYS)
         && reply.Answered? && parse(Clean(reply.text)).Ok?))
      && (out.status != 200 ==> out.status == 500 && out.body.Error?)
      && (out.sent.Some? <==> Configured(key) && (judgeType in JUDGE_TYPES || judgeType in PROTOTYPE_KEYS))
      && (out.sent == Some(Prompt(judgeType)) <==> Configured(key) && judgeType in JUDGE_TYPES)
      && (Configured(key) && judgeType !in JUDGE_TYPES && judgeType !in PROTOTYPE_KEYS ==>
            out.body == Error("Unknown judge type: " + judgeType))
      && (out.sent.Some? && reply.Failed? ==> out.body == Error(ApiError(reply.status, reply.body)))
      && (out.status == 200 ==> out.body == Evaluated(parse(Clean(reply.text)).value))
  {
    SystemSentSpec(judgeType);
  }

  /** With the key set, "toString" reaches the API, with no `system` field in the request. */
  lemma InheritedKeyReachesApi(key: Option<string>, reply: Reply, parse: string -> Result<string, string>)
    requires Configured(key)
    ensures Respond(key, "toString", reply, parse).sent == Some(Dropped)
    ensures RespondCorrected(key, "toString", reply, parse).sent.None?
  {
    assert PROTOTYPE_KEYS[5] == "toString";
    SystemSentSpec("toString");
  }

  /** The handler with the own-key guard: only the five judge types reach the API. */
  function RespondCorrected(key: Option<string>, judgeType: string, reply: Reply, parse: string -> Result<string, string>): (out: Outcome)
    ensures out.sent.Some? <==> Configured(key) && judgeType in JUDGE_TYPES
    ensures out.sent.Some? ==> out.sent == Some(Prompt(judgeType))
  {
    if !Configured(key) then Outcome(500, Error(KEY_MISSING), None)
    else match SystemPrompt(judgeType)
      case None => Outcome(500, Error("Unknown judge type: " + judgeType), None)
      case Some(kind) => Answer(Prompt(kind), reply, parse)
  }

  /**
   * With the corrected guard, a 200 comes only for a set key, one of the five types, an ok reply
   * and a cleaned text that parses; every other type gets the unknown-type error.
   */
  lemma RespondCorrectedSpec(key: Option<string>, judgeType: string, reply: Reply, parse: string -> Result<string, string>)
    ensures var out := RespondCorrected(key, judgeType, reply, parse);
      (out.status == 200 <==> Configured(key) && judgeType in JUDGE_TYPES && reply.Answered? && parse(Clean(reply.text)).Ok?)
      && (out.status != 200 ==> out.status == 500 && out.body.Error?)
      && (Configured(key) && judgeType !in JUDGE_TYPES ==> out.body == Error("Unknown judge type: " + judgeType))
      && (out.sent.Some? && reply.Failed? ==> out.body == Error(ApiError(reply.status, reply.body)))
      && (out.status == 200 ==> out.body == Evaluated(parse(Clean(reply.text)).value))
  {
  }

  /** Where the written guard accepts a type, the corrected handler answers the same; it differs only on inherited keys. */
  lemma CorrectedAgrees(key: Option<string>, judgeType: string, reply: Reply, parse: string -> Result<string, string>)
    ensures judgeType !in PROTOTYPE_KEYS ==>
      RespondCorrected(key, judgeType, reply, parse) == Respond(key, judgeType, reply, parse)
  {
    SystemSentSpec(judgeType);
  }
}
