# Sales-roleplay backend: the evaluation pipeline in Dafny

This project models the one piece of logic in the `brute-force-backend`
service (`app.py`). The service is a Flask route that plays a skeptical
sales prospect and then scores the salesperson, using two calls to a hosted
language model. The model covers:

- **Request defaulting** (`ResponseOrchestrator.ReadTurn`). Each request field
  is read with a default: round 1, empty strings, no prep answers.
- **Prompt construction** (`PromptBuilder`). These are the persona prompt,
  the user message and the grading prompt, each built as an f-string.
- **Evaluation parsing** (`EvaluationParser`). The evaluator model's raw text is
  trimmed and unwrapped from a Markdown code fence with an optional `json`
  tag. The result is handed to `json.loads` and read into six fields with
  defaults. Any failure gives a fixed fallback assessment.
- **Response assembly** (`ResponseOrchestrator.GenerateResponse`). The call
  order is persona reply, then grading. The payload copies the reply and
  lifts `gotPull` and `warmth` out of the assessment. A failing first call
  becomes HTTP 500.

The Python string operations the pipeline depends on are written out in
`PyText`: `str.strip()` with Python's whitespace set, `startswith`, `find`,
`split` with a separator, and `str()` of an int. The decoded JSON values
are in `JsonValue`. The two remote calls and `json.loads` are function
parameters: `Gateway` maps a call to its text or to the text of the
exception it raised, and `Loader` maps a string to a decoded value or to
the parser's exception text.

Three behaviours of the code are easy to misread, and the model keeps them
as written:

- For fenced text the code takes element `[1]` of `split('```')`: the text
  after the opening fence, up to the next fence or the end.
- `warmth` and the other five fields are passed through without validation:
  whatever JSON value the evaluator model emitted for a key is returned
  (`EvaluationParser.UnknownWarmthPassesThrough`).
- A missing `round` defaults to the integer 1, and every field is
  interpolated with `str()`, so non-string values appear as, for example,
  `1`, `True` or `None`.

## Model

| member | source | states |
|---|---|---|
| PyText.IsSpaceMembers | app.py:146 | space, tab, newline and carriage return are whitespace to `strip()`; the backquote of a fence and the characters a JSON document opens with (`{`, `[`, `"`) are not |
| PyText.Strip | app.py:146 | `str.strip()`: the result has no Python whitespace at either end and is no longer than the input |
| PyText.StripRemovesOnlyPadding | app.py:146 | what strip removes is whitespace at the two ends; the result is a contiguous slice of the input |
| PyText.StripOfPadded | app.py:152 | stripping whitespace padding from an already stripped string gives that string back (with the lemma above, this determines strip) |
| PyText.StripIdempotent | app.py:152 | strip is idempotent, and a string is its own strip exactly when neither end is whitespace |
| PyText.Find | app.py:148 | the separator search inside `split`: the index found holds an occurrence and no earlier index does; no index holds one when nothing is found |
| PyText.Split | app.py:148 | `split(sep)`: at least one piece, joining the pieces with the separator gives the input back, and no piece contains the separator |
| PyText.SplitScansLeftmost | app.py:148 | `split` scans left to right: the separator after piece k sits where the first k+1 pieces joined end, and no occurrence starts earlier inside piece k; with Split's contract this fixes the pieces even for the self-overlapping fence |
| PyText.FirstPiece | app.py:148 | the first piece of `split` is a prefix of the input that ends at the leftmost occurrence of the separator, or at the end when there is none |
| PyText.SplitAfterLeadingSeparator | app.py:147-148 | for text starting with the fence, `split` has at least two pieces, so `[1]` exists; piece 0 is empty and piece 1 runs from the end of the opening fence to the next fence (or to the end), with no fence starting inside it |
| PyText.IntToStr | app.py:35 | `str()` of an int: the digits (after a minus sign for negatives) read back to the number, and they are canonical: never empty, no leading zero except for 0 itself |
| PyText.DigitsRoundTrip | app.py:98 | reading back the decimal digits written for a natural number gives that number |
| JsonValue.Get | app.py:156-162 | `dict.get(key, default)`: the value stored under the key when present, otherwise the default |
| JsonValue.TypeName | app.py:156 | the Python type name of a decoded value is "dict" exactly for a JSON object, the only kind that has `.get` |
| JsonValue.NoAttributeGet | app.py:156-174 | the text of the AttributeError `.get` raises on a non-dict: the quoted type name, then " object has no attribute 'get'" |
| JsonValue.Render | app.py:31-35 | an f-string renders a string field as itself, an int in canonical decimal with a minus sign when negative, booleans as `True`/`False` and null as `None` |
| EvaluationParser.DropTag | app.py:149-150 | a leading `json` (exactly those four lower-case characters) is removed, and the input is that tag (or nothing) followed by the result |
| EvaluationParser.UnfencedInput | app.py:146-152 | when the trimmed text does not start with a fence, the parser receives exactly the trimmed text |
| EvaluationParser.FencedInput | app.py:146-152 | when the trimmed text starts with a fence, the parser receives the text after the opening fence up to where `find` locates the next fence (or to the end when there is none), less a leading `json` tag, trimmed |
| EvaluationParser.FencedInputAt | app.py:146-152 | the same, with the next fence given by its index: the first occurrence at or after the end of the opening fence |
| EvaluationParser.FenceWrapClosing | app.py:148 | in a fenced `json` block whose body has no fence, the closing fence is the first fence after the opening one |
| EvaluationParser.FencedMatchesPlain | app.py:146-152 | a body with no fence and no surrounding whitespace reaches the parser unchanged, whether sent bare or wrapped as a fenced `json` block |
| EvaluationParser.FencedEvaluatesAsPlain | app.py:146-163 | wrapping such a body in a fenced `json` block does not change the assessment |
| EvaluationParser.FromObject | app.py:154-163 | each of the six fields equals the parsed object's value for its key when present; otherwise the four flags default to false, `warmth` to "COLD" and `feedback` to the empty list |
| EvaluationParser.Fallback | app.py:165-179 | the fallback has all four flags false, warmth "COLD", and exactly two feedback items: the error text, then "Try again with more specific discovery questions" |
| EvaluationParser.Evaluate | app.py:132-179 | if the grading call fails, the fallback carries its message; if the text does not parse, the fallback carries the parser's message; if the parsed value is not an object, the fallback carries `.get`'s AttributeError; if it is an object, the six fields are read with defaults. No exception escapes |
| EvaluationParser.UnknownWarmthPassesThrough | app.py:162 | any parsed object whose `warmth` is "LUKEWARM", whatever its other keys, yields warmth "LUKEWARM", not "COLD", and the result is not the fallback |
| EvaluationParser.OnlyWarmthGiven | app.py:154-163 | an object holding only `"warmth": "HOT"` yields the three flags and `gotPull` false, feedback `[]`, and warmth "HOT" |
| EvaluationParser.UnparsableTextFallsBack | app.py:152-179 | text that `json.loads` rejects yields the fallback |
| EvaluationParser.NonObjectFallsBack | app.py:154-179 | a parsed value that is not an object yields the fallback, whose first item is the AttributeError text for that value's type |
| PromptBuilder.ConcatContainsPiece | app.py:31-55 | every piece of an f-string, literal or interpolated, occurs in the text it produces |
| PromptBuilder.PersonaPrompt | app.py:31-55 | the persona prompt contains the prospect's name, type, context and the round |
| PromptBuilder.UserMessage | app.py:57 | the user message starts with "Salesperson says: ", and dropping that cue gives back the salesperson's words |
| PromptBuilder.EvaluatorPrompt | app.py:95-130 | the grading prompt contains the prospect type, the round, the salesperson's words and the prospect's reply |
| ResponseOrchestrator.ReadTurn | app.py:21-28 | a request object gives each field its value, or the default when the key is missing (round 1, empty strings, empty prep answers); a body that is not an object makes `.get` raise |
| ResponseOrchestrator.PersonaCall | app.py:60-68 | the first call sends a system message whose prompt mentions the name, type, context and round, and a user message with the cue and the transcript; model name, temperature 0.7, 200 tokens |
| ResponseOrchestrator.EvaluatorCall | app.py:133-140 | the second call sends one user message whose prompt mentions the type, round, transcript and the first call's reply; temperature 0.3, 500 tokens |
| ResponseOrchestrator.GenerateResponse | app.py:17-89 | an unreadable or non-object body and a failed first call give HTTP 500 with the exception text. Otherwise the reply is HTTP 200: `response` is the first call's text, and `evaluation`, `gotPull` and `warmth` are those of the assessment of the second call |
| ResponseOrchestrator.EmptyRequestDefaults | app.py:23-28 | an empty request object reads as round 1, empty strings, and empty prep answers |
| ResponseOrchestrator.CallsIgnorePrepAnswers | app.py:60-68 | neither model call depends on the prep answers: replacing them leaves both calls unchanged |
| ResponseOrchestrator.PrepAnswersUnused | app.py:28 | `prepAnswers` is read but unused: changing it never changes the reply |
| ResponseOrchestrator.PersonaFailureStopsPipeline | app.py:87-89 | when the first call fails the reply is HTTP 500 with its message, and two gateways that agree on the first call give the same reply (the grading call is never consulted) |
| ResponseOrchestrator.EvaluatorFailureStillAnswers | app.py:73-85 | when the first call succeeds and the grading call fails, the reply is still HTTP 200 with the prospect's words, the fallback scores, `gotPull` false and warmth "COLD" |

## Left out

- The Flask application, CORS, the `/` and `/health` routes, and port and environment handling (app.py:7-8, 181-193) are web plumbing and not modelled.
- The Groq client and both `chat.completions.create` calls (app.py:14-15, 60-70, 133-142) are network calls. They are the `Gateway` parameter; retries and timeouts inside the client library are not modelled.
- A completion whose message content is `None` is not modelled: the gateway yields a string or an exception text.
- The grammar of `json.loads` is not modelled. It is the `Loader` parameter, whose failure carries the library's exception text as an opaque string. JSON numbers are modelled as integers; floats are not modelled.
- Exception texts from the framework, the client and the JSON library are opaque strings. Only the AttributeError raised by `.get` on a non-dict is written out.
- `print` logging (app.py:88, 166) is a side effect only and is not modelled.
- The long fixed prose of both prompt templates (behaviour rules, grading criteria, JSON format, warmth guide) is abbreviated to one constant per template. The text around each interpolated field is kept.
- JsonValue.Render: lists and dicts in request fields are rendered as fixed markers rather than Python's `repr`, because a `map` does not keep the insertion order `repr` prints in.
- The JSON serialization of the reply by `jsonify` is not modelled. The HTTP reply is a datatype with the 200 payload or the 500 error text.
