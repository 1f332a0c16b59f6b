/** The decision logic of the `/predict` handler (app.py lines 75-82 and
    136-173) as a function of what it depends on: the request's `phrase`,
    the configured API key, the model's raw text and the JSON parser. */
module Handler {
  import opened JsonValue
  import opened Extractor
  import opened Backfill

  /** What `json.loads` does with a cleaned string: it raises
      `JSONDecodeError` with a diagnostic, it raises some other exception
      (a `ValueError` for an over-long integer literal, a `RecursionError`
      for very deep nesting), or it yields the members of an object. A cleaned string
      always starts with '{' and ends with '}', so any value it parses to is
      an object (see PredictLoadsOnlyBraced). */
  datatype LoadResult =
    | DecodeError(message: string)
    | OtherError(message: string)
    | Decoded(members: map<string, Json>)

  /** An HTTP status with the JSON body `jsonify` sends. */
  datatype Reply = Reply(status: int, body: Json)

  const InvalidJsonPrefix: string := "Invalid JSON returned by model: "

  /** The hard-coded answer sent when no JSON object is found in the model's text. */
  const Fallback: Json := JObject(map[
    "predictions" := JArray([JObject(map[
      "word" := JString("the"),
      "confidence" := JNumber("0.7"),
      "attention" := JArray([JNumber("0.2"), JNumber("0.2"), JNumber("0.2"), JNumber("0.2"), JNumber("0.2")]),
      "reasoning" := JString("Common continuation word")])]),
    "grammar_context" := JString("Analysis unavailable"),
    "reasoning" := JObject(map[
      "syntactic_analysis" := JString("Could not parse model response"),
      "semantic_context" := JString("Please try again"),
      "common_patterns" := JString("N/A")])])

  function ErrorReply(status: int, message: string): Reply {
    Reply(status, JObject(map["error" := JString(message)]))
  }

  function SuccessReply(result: Json): Reply {
    Reply(200, JObject(map["response" := result]))
  }

  /** `data.get('phrase', '')`: a missing phrase reads as the empty string. */
  function PhraseText(phrase: Option<string>): string {
    if phrase.Some? then phrase.value else ""
  }

  /** `api_key` is truthy: set and not empty. */
  predicate KeyPresent(apiKey: Option<string>) {
    apiKey.Some? && apiKey.value != ""
  }

  /** A 200 body: `{"response": r}` where `r` is an object holding all three
      top-level fields of a prediction result. */
  predicate IsResultBody(body: Json) {
    && body.JObject? && body.members.Keys == {"response"}
    && body.members["response"].JObject?
    && var r := body.members["response"].members;
       "predictions" in r && "grammar_context" in r && "reasoning" in r
  }

  /** An error body: `{"error": message}`. */
  predicate IsErrorBody(body: Json) {
    body.JObject? && body.members.Keys == {"error"} && body.members["error"].JString?
  }

  /** Lines 138-177: the reply once the model's text has been cleaned. An
      exception from `json.loads` other than `JSONDecodeError` skips line 159
      and is answered by the generic handler at lines 175-177. */
  function Respond(cleaned: Option<string>, loads: string -> LoadResult): (reply: Reply)
    ensures reply.status == 200 || reply.status == 500
    ensures reply.status == 200 ==> IsResultBody(reply.body)
    ensures reply.status == 500 ==> IsErrorBody(reply.body)
  {
    if cleaned == None || cleaned.value == "" then SuccessReply(Fallback)
    else match loads(cleaned.value)
      case DecodeError(message) => ErrorReply(500, InvalidJsonPrefix + message)
      case OtherError(message) => ErrorReply(500, message)
      case Decoded(parsed) => SuccessReply(JObject(WithDefaults(parsed)))
  }

  function Predict(phrase: Option<string>, apiKey: Option<string>, rawOutput: string,
                   loads: string -> LoadResult): (reply: Reply)
    ensures reply.status == 200 || reply.status == 400 || reply.status == 500
    ensures reply.status == 400 <==> PhraseText(phrase) == ""
    ensures reply.status == 200 ==> IsResultBody(reply.body)
    ensures reply.status != 200 ==> IsErrorBody(reply.body)
  {
    var inputPhrase := PhraseText(phrase);
    if inputPhrase == "" then ErrorReply(400, "No phrase provided")
    else if !KeyPresent(apiKey) then ErrorReply(500, "GROQ_API_KEY not found")
    else Respond(CleanJsonResponse(rawOutput), loads)
  }

  /** An empty or missing phrase is answered with 400 whatever the key, the
      model's text and the parser are: nothing after the check is reached. */
  lemma PredictNoPhrase(phrase: Option<string>, apiKey: Option<string>, rawOutput: string,
                        loads: string -> LoadResult)
    requires PhraseText(phrase) == ""
    ensures Predict(phrase, apiKey, rawOutput, loads) == ErrorReply(400, "No phrase provided")
  {
  }

  /** With a phrase but no key the answer is 500, whatever the model's text
      and the parser are. */
  lemma PredictNoKey(phrase: Option<string>, apiKey: Option<string>, rawOutput: string,
                     loads: string -> LoadResult)
    requires PhraseText(phrase) != "" && !KeyPresent(apiKey)
    ensures Predict(phrase, apiKey, rawOutput, loads) == ErrorReply(500, "GROQ_API_KEY not found")
  {
  }

  /** With a phrase and a key, the reply is the one for the cleaned model text. */
  lemma PredictModelStage(phrase: Option<string>, apiKey: Option<string>, rawOutput: string,
                          loads: string -> LoadResult)
    requires PhraseText(phrase) != "" && KeyPresent(apiKey)
    ensures Predict(phrase, apiKey, rawOutput, loads) == Respond(CleanJsonResponse(rawOutput), loads)
  {
  }

  /** No JSON object in the model's text (`None`, or the empty slice) gives
      the fallback with 200, whatever the parser would have said. */
  lemma RespondFallback(cleaned: Option<string>, loads: string -> LoadResult)
    requires cleaned == None || cleaned == Some("")
    ensures Respond(cleaned, loads) == SuccessReply(Fallback)
    ensures var p := Fallback.members["predictions"];
      p.JArray? && |p.items| == 1 && p.items[0].JObject?
      && p.items[0].members["word"] == JString("the")
  {
  }

  /** A parse failure is a 500 whose message starts with the fixed prefix
      and carries the parser's diagnostic; it is never a 200. */
  lemma RespondInvalidJson(cleaned: Option<string>, loads: string -> LoadResult, message: string)
    requires cleaned.Some? && cleaned.value != ""
    requires loads(cleaned.value) == DecodeError(message)
    ensures Respond(cleaned, loads) == ErrorReply(500, InvalidJsonPrefix + message)
  {
  }

  /** Any other exception from the parser is a 500 carrying only the
      exception's text, without the "Invalid JSON" prefix. */
  lemma RespondOtherLoadError(cleaned: Option<string>, loads: string -> LoadResult, message: string)
    requires cleaned.Some? && cleaned.value != ""
    requires loads(cleaned.value) == OtherError(message)
    ensures Respond(cleaned, loads) == ErrorReply(500, message)
  {
  }

  /** A parsed object is sent back under "response" with the defaults filled
      in and every field the model sent left as it was. */
  lemma RespondDecoded(cleaned: Option<string>, loads: string -> LoadResult,
                       parsed: map<string, Json>)
    requires cleaned.Some? && cleaned.value != ""
    requires loads(cleaned.value) == Decoded(parsed)
    ensures var reply := Respond(cleaned, loads);
      && reply.status == 200
      && reply.body.members["response"] == JObject(WithDefaults(parsed))
      && forall k :: k in parsed ==> reply.body.members["response"].members[k] == parsed[k]
  {
  }

  /** Two parsers that give the same answer on every text starting with '{'
      and ending with '}'. */
  ghost predicate AgreeOnBraced(loads: string -> LoadResult, loads': string -> LoadResult) {
    forall s :: Braced(s) ==> loads(s) == loads'(s)
  }

  /** Text that starts with '{' and ends with '}'. */
  predicate Braced(s: string) {
    |s| > 0 && s[0] == '{' && s[|s| - 1] == '}'
  }

  /** The parser is only ever asked about text that starts with '{' and ends
      with '}': two parsers that agree on such text give the same reply. */
  lemma PredictLoadsOnlyBraced(phrase: Option<string>, apiKey: Option<string>, rawOutput: string,
                               loads: string -> LoadResult, loads': string -> LoadResult)
    requires AgreeOnBraced(loads, loads')
    ensures Predict(phrase, apiKey, rawOutput, loads) == Predict(phrase, apiKey, rawOutput, loads')
  {
    if PhraseText(phrase) != "" && KeyPresent(apiKey) {
      var cleaned := CleanJsonResponse(rawOutput);
      RespondLoadsOnlyBraced(cleaned, loads, loads');
      assert Predict(phrase, apiKey, rawOutput, loads) == Respond(cleaned, loads);
      assert Predict(phrase, apiKey, rawOutput, loads') == Respond(cleaned, loads');
    }
  }

  lemma RespondLoadsOnlyBraced(cleaned: Option<string>, loads: string -> LoadResult,
                               loads': string -> LoadResult)
    requires cleaned.Some? && cleaned.value != [] ==> Braced(cleaned.value)
    requires AgreeOnBraced(loads, loads')
    ensures Respond(cleaned, loads) == Respond(cleaned, loads')
  {
    if cleaned.Some? && cleaned.value != [] {
      var text := cleaned.value;
      assert Braced(text);
      assert loads(text) == loads'(text);
    }
  }
}
