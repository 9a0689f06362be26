/**
 * generate_response in app.py: read the request fields with defaults, ask
 * the model for the prospect's reply, have the exchange evaluated, and assemble
 * the JSON payload. Both model calls go through one gateway, given as a
 * function from the call to its text or the text of the exception it raised.
 */
module ResponseOrchestrator {
  import opened Wrappers
  import opened PyText
  import opened JsonValue
  import opened PromptBuilder
  import opened EvaluationParser

  /** One role-tagged chat message. */
  datatype Message = Message(role: string, content: string)

  /** One chat-completion call: messages and sampling settings. */
  datatype Completion = Completion(messages: seq<Message>, model: string, temperature: real, maxTokens: nat)

  /** The remote model: the generated text, or the text of the exception raised. */
  type Gateway = Completion -> Result<string, string>

  const ModelName := "llama-3.1-70b-versatile"

  /** The request fields generate_response reads. */
  datatype Turn = Turn(
    round: Json,
    userTranscript: Json,
    prospectName: Json,
    prospectType: Json,
    prospectContext: Json,
    prepAnswers: Json)

  const TurnKeys: set<string> :=
    {"round", "userTranscript", "prospectName", "prospectType", "prospectContext", "prepAnswers"}

  /** The default for a request field that is missing. */
  function TurnDefault(key: string): (d: Json) {
    if key == "round" then Number(1)
    else if key == "prepAnswers" then Object(map[])
    else Str("")
  }

  /** The field of a turn that a request key names. */
  function TurnField(t: Turn, key: string): (v: Json)
    requires key in TurnKeys
  {
    match key
    case "round" => t.round
    case "userTranscript" => t.userTranscript
    case "prospectName" => t.prospectName
    case "prospectType" => t.prospectType
    case "prospectContext" => t.prospectContext
    case _ => t.prepAnswers
  }

  /**
   * The six `data.get` calls. Each field is the request's value for its key
   * or the default; a body that is not an object makes `.get` raise.
   */
  function ReadTurn(data: Json): (r: Result<Turn, string>)
    ensures r.Success? <==> data.Object?
    ensures !data.Object? ==> r == Failure(NoAttributeGet(data))
    ensures data.Object? ==> forall k | k in TurnKeys ::
      TurnField(r.value, k) == if k in data.fields then data.fields[k] else TurnDefault(k)
  {
    match data
    case Object(m) =>
      Success(Turn(
        Get(m, "round", Number(1)),
        Get(m, "userTranscript", Str("")),
        Get(m, "prospectName", Str("")),
        Get(m, "prospectType", Str("")),
        Get(m, "prospectContext", Str("")),
        Get(m, "prepAnswers", Object(map[]))))
    case _ => Failure(NoAttributeGet(data))
  }

  /**
   * The first call: a system message carrying the persona prompt (which
   * mentions the prospect's name, type, context and the round) and a user
   * message carrying the salesperson's words.
   */
  function PersonaCall(t: Turn): (c: Completion)
    ensures |c.messages| == 2 && c.messages[0].role == "system" && c.messages[1].role == "user"
    ensures var system := c.messages[0].content;
      && Contains(system, Render(t.prospectName)) && Contains(system, Render(t.prospectType))
      && Contains(system, Render(t.prospectContext)) && Contains(system, Render(t.round))
    ensures c.messages[1].content == SalespersonCue + Render(t.userTranscript)
    ensures c.model == ModelName && c.temperature == 0.7 && c.maxTokens == 200
  {
    Completion(
      [ Message("system", PersonaPrompt(Render(t.prospectName), Render(t.prospectType), Render(t.prospectContext), Render(t.round))),
        Message("user", UserMessage(Render(t.userTranscript))) ],
      ModelName, 0.7, 200)
  }

  /**
   * The second call: one user message carrying the grading prompt, which
   * mentions the prospect type, the round, the salesperson's words and the
   * reply of the first call.
   */
  function EvaluatorCall(t: Turn, reply: string): (c: Completion)
    ensures |c.messages| == 1 && c.messages[0].role == "user"
    ensures var prompt := c.messages[0].content;
      && Contains(prompt, Render(t.prospectType)) && Contains(prompt, Render(t.round))
      && Contains(prompt, Render(t.userTranscript)) && Contains(prompt, reply)
    ensures c.model == ModelName && c.temperature == 0.3 && c.maxTokens == 500
  {
    Completion(
      [ Message("user", EvaluatorPrompt(Render(t.prospectType), Render(t.round), Render(t.userTranscript), reply)) ],
      ModelName, 0.3, 500)
  }

  /** The success body: the prospect's reply, the inner evaluation record, and gotPull and warmth lifted out of it. */
  datatype Payload = Payload(response: string, evaluation: Scores, gotPull: Json, warmth: Json)

  /** HTTP 200 with the payload, or HTTP 500 with `{error: str(e)}`. */
  datatype Reply = Ok(payload: Payload) | ServerError(error: string)

  /**
   * The route handler. `body` is `request.json` or the text of the
   * exception reading it raised; `loads` is json.loads.
   */
  function GenerateResponse(body: Result<Json, string>, complete: Gateway, loads: Loader): (r: Reply)
    ensures body.Failure? ==> r == ServerError(body.error)
    ensures body.Success? && !body.value.Object? ==> r == ServerError(NoAttributeGet(body.value))
    ensures body.Success? && body.value.Object? ==>
      var t := ReadTurn(body.value).value;
      && (complete(PersonaCall(t)).Failure? ==> r == ServerError(complete(PersonaCall(t)).error))
      && (complete(PersonaCall(t)).Success? ==>
            var reply := complete(PersonaCall(t)).value;
            var a := Evaluate(complete(EvaluatorCall(t, reply)), loads);
            && r.Ok?
            && r.payload.response == reply
            && r.payload.evaluation == a.evaluation
            && r.payload.gotPull == a.gotPull
            && r.payload.warmth == a.warmth)
  {
    match body
    case Failure(e) => ServerError(e)
    case Success(data) =>
      match ReadTurn(data)
      case Failure(e) => ServerError(e)
      case Success(t) =>
        match complete(PersonaCall(t))
        case Failure(e) => ServerError(e)
        case Success(reply) =>
          var a := Evaluate(complete(EvaluatorCall(t, reply)), loads);
          Ok(Payload(reply, a.evaluation, a.gotPull, a.warmth))
  }

  /** An empty request object reads as round 1 with empty strings and no prep answers. */
  lemma EmptyRequestDefaults()
    ensures ReadTurn(Object(map[])) == Success(Turn(Number(1), Str(""), Str(""), Str(""), Str(""), Object(map[])))
  {
  }

  /** Reading a request with other prep answers changes only that field of the turn. */
  lemma {:induction false} ReadTurnPrepAnswers(m: map<string, Json>, answers: Json)
    ensures ReadTurn(Object(m["prepAnswers" := answers])).Success?
    ensures ReadTurn(Object(m["prepAnswers" := answers])).value
         == ReadTurn(Object(m)).value.(prepAnswers := answers)
  {
  }

  /** prepAnswers is read but never used: changing it does not change the reply. */
  lemma {:induction false} PrepAnswersUnused(m: map<string, Json>, answers: Json, complete: Gateway, loads: Loader)
    ensures GenerateResponse(Success(Object(m["prepAnswers" := answers])), complete, loads)
         == GenerateResponse(Success(Object(m)), complete, loads)
  {
    var t := ReadTurn(Object(m)).value;
    ReadTurnPrepAnswers(m, answers);
    CallsIgnorePrepAnswers(t, answers);
  }

  /** Neither model call looks at the prep answers of a turn. */
  lemma {:induction false} CallsIgnorePrepAnswers(t: Turn, answers: Json)
    ensures PersonaCall(t.(prepAnswers := answers)) == PersonaCall(t)
    ensures forall reply :: EvaluatorCall(t.(prepAnswers := answers), reply) == EvaluatorCall(t, reply)
  {
  }

  /**
   * When the first call fails the reply is HTTP 500 with its message, and
   * the grading call is never made: gateways that agree on the first call
   * give the same reply.
   */
  lemma {:induction false} PersonaFailureStopsPipeline(data: Json, c1: Gateway, c2: Gateway, loads: Loader)
    requires data.Object?
    requires var call := PersonaCall(ReadTurn(data).value);
      c1(call).Failure? && c2(call) == c1(call)
    ensures GenerateResponse(Success(data), c1, loads) == ServerError(c1(PersonaCall(ReadTurn(data).value)).error)
    ensures GenerateResponse(Success(data), c1, loads) == GenerateResponse(Success(data), c2, loads)
  {
  }

  /**
   * When the first call succeeds and the grading call fails, the reply is
   * still HTTP 200 with the prospect's words, scored with the fallback.
   */
  lemma {:induction false} EvaluatorFailureStillAnswers(data: Json, complete: Gateway, loads: Loader)
    requires data.Object?
    requires var t := ReadTurn(data).value;
      && complete(PersonaCall(t)).Success?
      && complete(EvaluatorCall(t, complete(PersonaCall(t)).value)).Failure?
    ensures var r := GenerateResponse(Success(data), complete, loads);
      && r.Ok?
      && r.payload.response == complete(PersonaCall(ReadTurn(data).value)).value
      && r.payload.gotPull == Bool(false)
      && r.payload.warmth == Str("COLD")
      && IsFallback(Assessment(r.payload.evaluation, r.payload.gotPull, r.payload.warmth))
  {
  }
}
