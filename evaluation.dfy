/**
 * The tail of evaluate_conversation in app.py: the evaluator model's raw
 * text is trimmed, unwrapped from a Markdown code fence, handed to
 * json.loads, and read into six fields with defaults; any failure on the way
 * yields a fixed fallback assessment.
 */
module EvaluationParser {
  import opened Wrappers
  import opened PyText
  import opened JsonValue

  const Fence := "```"
  const LanguageTag := "json"

  /** Removes a leading `json` language tag, exactly those four characters. */
  function DropTag(seg: string): (r: string)
    ensures seg == (if StartsWith(seg, LanguageTag) then LanguageTag else []) + r
  {
    if StartsWith(seg, LanguageTag) then seg[4..] else seg
  }

  /** For fenced text, the piece after the opening fence, without its tag. */
  function Unfence(t: string): (r: string) {
    if StartsWith(t, Fence) then
      SplitAfterLeadingSeparator(t, Fence);
      DropTag(Split(t, Fence)[1])
    else t
  }

  /** The string app.py passes to json.loads for the evaluator's raw text. */
  function LoaderInput(raw: string): (r: string) {
    Strip(Unfence(Strip(raw)))
  }

  /** Text that is not fenced after trimming reaches the parser trimmed and otherwise unchanged. */
  lemma {:induction false} UnfencedInput(raw: string)
    requires !StartsWith(Strip(raw), Fence)
    ensures LoaderInput(raw) == Strip(raw)
  {
    StripIdempotent(raw);
  }

  /**
   * Fenced text: the parser receives the text after the opening fence up to
   * the next fence (str.find on that text), or to the end when there is
   * none, less a leading `json` tag, trimmed.
   */
  lemma {:induction false} FencedInput(raw: string)
    requires StartsWith(Strip(raw), Fence)
    ensures var after := Strip(raw)[3..];
      LoaderInput(raw) == Strip(DropTag(match Find(after, Fence)
        case Some(e) => after[..e]
        case None => after))
  {
    var t := Strip(raw);
    var after := t[3..];
    SplitPeelsLeadingSeparator(t, Fence);
    assert Split(t, Fence)[1] == Split(after, Fence)[0];
  }

  /**
   * FencedInput with the next fence given by its index e, the form used for
   * the fence-wrapped body below.
   */
  lemma {:induction false} FencedInputAt(raw: string, e: nat)
    requires StartsWith(Strip(raw), Fence)
    requires 3 <= e <= |Strip(raw)|
    requires e == |Strip(raw)| || Occurs(Strip(raw), Fence, e)
    requires forall j :: 3 <= j < e ==> !Occurs(Strip(raw), Fence, j)
    ensures LoaderInput(raw) == Strip(DropTag(Strip(raw)[3..e]))
  {
    var t := Strip(raw);
    SplitAfterLeadingSeparator(t, Fence);
    var seg := Split(t, Fence)[1];
    assert 3 + |seg| == e;
    assert seg == t[3..e];
  }

  /** The evaluator's JSON wrapped in a fence tagged `json`, one line per part. */
  function FenceWrap(body: string): (r: string)
    ensures |r| == |body| + 12
    ensures StartsWith(r, Fence) && r[3..7] == LanguageTag
  {
    var r := Fence + LanguageTag + "\n" + body + "\n" + Fence;
    assert r[..3] == Fence && r[3..7] == LanguageTag;
    r
  }

  /** A wrapped body is already trimmed. */
  lemma {:induction false} FenceWrapTrimmed(body: string)
    ensures Strip(FenceWrap(body)) == FenceWrap(body)
  {
    var raw := FenceWrap(body);
    var n := |body|;
    assert raw == "```json\n" + body + "\n```";
    assert raw[0] == '`';
    assert raw[n + 11] == '`';
    assert IsStripped(raw);
    StripIdempotent(raw);
  }

  /** The characters of a wrapped body, position by position. */
  lemma {:induction false} FenceWrapAt(body: string)
    ensures var raw := FenceWrap(body);
      && (forall k :: 3 <= k < 8 ==> raw[k] != '`')
      && (forall k :: 8 <= k < |body| + 8 ==> raw[k] == body[k - 8])
      && raw[|body| + 8] == '\n'
      && raw[|body| + 9..] == Fence
  {
    var raw := FenceWrap(body);
    var head := "```json\n";
    assert raw == head + body + "\n```";
    forall k | 3 <= k < 8 ensures raw[k] != '`' {
      assert raw[k] == head[k];
    }
  }

  /** In a wrapped body, the closing fence is the first fence after the opening one. */
  lemma {:induction false} FenceWrapClosing(body: string)
    requires !Contains(body, Fence)
    ensures Occurs(FenceWrap(body), Fence, |body| + 9)
    ensures forall j :: 3 <= j < |body| + 9 ==> !Occurs(FenceWrap(body), Fence, j)
  {
    var raw := FenceWrap(body);
    var n := |body|;
    FenceWrapAt(body);
    assert raw[n + 9..n + 12] == Fence;
    forall j | 3 <= j < n + 9 ensures !Occurs(raw, Fence, j) {
      if j + 3 <= |raw| {
        var w := raw[j..j + 3];
        if j < 8 {
          assert w[0] == raw[j] != '`';
        } else if j + 3 <= n + 8 {
          assert w == body[j - 8..j - 5];
          assert !Occurs(body, Fence, j - 8);
        } else {
          assert w[n + 8 - j] == raw[n + 8] == '\n';
        }
        assert w != Fence;
      }
    }
  }

  /** Between the fences of a wrapped body: the tag, then the body on a line of its own. */
  lemma {:induction false} FenceWrapInner(body: string)
    ensures FenceWrap(body)[3..|body| + 9] == LanguageTag + ("\n" + body + "\n")
  {
    assert FenceWrap(body) == "```json\n" + body + "\n```";
  }

  /** The parser input of a fence-wrapped body, before the final trim. */
  lemma {:induction false} FenceWrapUnfenced(body: string)
    requires !Contains(body, Fence)
    ensures LoaderInput(FenceWrap(body)) == Strip("\n" + body + "\n")
  {
    var raw := FenceWrap(body);
    var e := |body| + 9;
    var seg := raw[3..e];
    FenceWrapTrimmed(body);
    FenceWrapClosing(body);
    FencedInputAt(raw, e);
    FenceWrapInner(body);
    assert StartsWith(seg, LanguageTag);
    assert DropTag(seg) == "\n" + body + "\n";
  }

  /**
   * A fenced `json` block whose body holds no fence and no surrounding
   * whitespace reaches the parser as that body, exactly as the bare body does.
   */
  lemma {:induction false} FencedMatchesPlain(body: string)
    requires !Contains(body, Fence) && IsStripped(body)
    ensures LoaderInput(FenceWrap(body)) == body
    ensures LoaderInput(body) == body
  {
    FenceWrapUnfenced(body);
    assert AllSpace("\n");
    StripOfPadded("\n", body, "\n");
    StripIdempotent(body);
    if StartsWith(body, Fence) {
      assert Occurs(body, Fence, 0);
    }
    UnfencedInput(body);
  }

  /** The inner `evaluation` record of the result. */
  datatype Scores = Scores(
    uncoveredPain: Json,
    createdUrgency: Json,
    establishedCredibility: Json,
    feedback: Json)

  /** What evaluate_conversation returns. Field values are whatever the model emitted. */
  datatype Assessment = Assessment(evaluation: Scores, gotPull: Json, warmth: Json)

  const Keys: set<string> :=
    {"uncoveredPain", "createdUrgency", "establishedCredibility", "feedback", "gotPull", "warmth"}

  /** The default app.py supplies for a key the evaluator left out. */
  function Default(key: string): (d: Json) {
    if key == "warmth" then Str("COLD")
    else if key == "feedback" then Array([])
    else Bool(false)
  }

  /** The field of an assessment that a key names. */
  function Field(a: Assessment, key: string): (v: Json)
    requires key in Keys
  {
    match key
    case "uncoveredPain" => a.evaluation.uncoveredPain
    case "createdUrgency" => a.evaluation.createdUrgency
    case "establishedCredibility" => a.evaluation.establishedCredibility
    case "feedback" => a.evaluation.feedback
    case "gotPull" => a.gotPull
    case _ => a.warmth
  }

  /** The six `.get` calls on a parsed object: each field is the object's value for its key, or the default. */
  function FromObject(m: map<string, Json>): (a: Assessment)
    ensures forall k | k in Keys :: Field(a, k) == if k in m then m[k] else Default(k)
  {
    Assessment(
      Scores(
        Get(m, "uncoveredPain", Bool(false)),
        Get(m, "createdUrgency", Bool(false)),
        Get(m, "establishedCredibility", Bool(false)),
        Get(m, "feedback", Array([]))),
      Get(m, "gotPull", Bool(false)),
      Get(m, "warmth", Str("COLD")))
  }

  const ErrorPrefix := "Error evaluating conversation: "
  const RetryHint := "Try again with more specific discovery questions"

  /** The shape of the fixed fallback: nothing achieved, COLD, two feedback items ending in the hint. */
  predicate IsFallback(a: Assessment) {
    && a.evaluation.uncoveredPain == Bool(false)
    && a.evaluation.createdUrgency == Bool(false)
    && a.evaluation.establishedCredibility == Bool(false)
    && a.gotPull == Bool(false)
    && a.warmth == Str("COLD")
    && a.evaluation.feedback.Array?
    && |a.evaluation.feedback.items| == 2
    && a.evaluation.feedback.items[1] == Str(RetryHint)
  }

  /** The assessment returned from the exception handler; `detail` is str(e). */
  function Fallback(detail: string): (a: Assessment)
    ensures IsFallback(a)
    ensures a.evaluation.feedback.items[0] == Str(ErrorPrefix + detail)
  {
    Assessment(
      Scores(Bool(false), Bool(false), Bool(false), Array([Str(ErrorPrefix + detail), Str(RetryHint)])),
      Bool(false),
      Str("COLD"))
  }

  /**
   * evaluate_conversation after the remote call: `outcome` is the evaluator's
   * text or the text of the exception the call raised. The result is never an
   * exception: either the six fields read from the parsed object, or the
   * fallback carrying the exception's text.
   */
  function Evaluate(outcome: Result<string, string>, loads: Loader): (a: Assessment)
    ensures outcome.Failure? ==> a == Fallback(outcome.error)
    ensures outcome.Success? && loads(LoaderInput(outcome.value)).Failure? ==>
      a == Fallback(loads(LoaderInput(outcome.value)).error)
    ensures outcome.Success? && loads(LoaderInput(outcome.value)).Success? ==>
      var j := loads(LoaderInput(outcome.value)).value;
      && (!j.Object? ==> a == Fallback(NoAttributeGet(j)))
      && (j.Object? ==> forall k | k in Keys :: Field(a, k) == if k in j.fields then j.fields[k] else Default(k))
  {
    match outcome
    case Failure(e) => Fallback(e)
    case Success(text) =>
      match loads(LoaderInput(text))
      case Failure(e) => Fallback(e)
      case Success(Object(m)) => FromObject(m)
      case Success(j) => Fallback(NoAttributeGet(j))
  }

  /** Wrapping the evaluator's JSON in a `json` fence does not change the assessment. */
  lemma {:induction false} FencedEvaluatesAsPlain(body: string, loads: Loader)
    requires !Contains(body, Fence) && IsStripped(body)
    ensures Evaluate(Success(FenceWrap(body)), loads) == Evaluate(Success(body), loads)
  {
    FencedMatchesPlain(body);
  }

  /** `warmth` is passed through unvalidated: an unknown level is kept, not replaced by COLD. */
  lemma {:induction false} UnknownWarmthPassesThrough(text: string, loads: Loader)
    requires loads(LoaderInput(text)).Success? && loads(LoaderInput(text)).value.Object?
    requires var m := loads(LoaderInput(text)).value.fields;
      "warmth" in m && m["warmth"] == Str("LUKEWARM")
    ensures Evaluate(Success(text), loads).warmth == Str("LUKEWARM")
    ensures !IsFallback(Evaluate(Success(text), loads))
  {
    assert Field(Evaluate(Success(text), loads), "warmth") == Str("LUKEWARM");
  }

  /** An object holding only a warmth keeps it and takes every other default. */
  lemma {:induction false} OnlyWarmthGiven(text: string, loads: Loader)
    requires loads(LoaderInput(text)) == Success(Object(map["warmth" := Str("HOT")]))
    ensures Evaluate(Success(text), loads)
      == Assessment(Scores(Bool(false), Bool(false), Bool(false), Array([])), Bool(false), Str("HOT"))
  {
    var a := Evaluate(Success(text), loads);
    assert Field(a, "uncoveredPain") == Bool(false);
    assert Field(a, "createdUrgency") == Bool(false);
    assert Field(a, "establishedCredibility") == Bool(false);
    assert Field(a, "feedback") == Array([]);
    assert Field(a, "gotPull") == Bool(false);
    assert Field(a, "warmth") == Str("HOT");
  }

  /** Text that is not JSON at all, e.g. an empty reply, yields the fallback. */
  lemma {:induction false} UnparsableTextFallsBack(text: string, loads: Loader)
    requires loads(LoaderInput(text)).Failure?
    ensures IsFallback(Evaluate(Success(text), loads))
  {
  }

  /** A parsed value that is not an object (a list, a string, ...) yields the fallback. */
  lemma {:induction false} NonObjectFallsBack(text: string, loads: Loader)
    requires loads(LoaderInput(text)).Success? && !loads(LoaderInput(text)).value.Object?
    ensures IsFallback(Evaluate(Success(text), loads))
    ensures Evaluate(Success(text), loads).evaluation.feedback.items[0]
      == Str(ErrorPrefix + NoAttributeGet(loads(LoaderInput(text)).value))
  {
  }
}
