# Prediction-Analysis: the `/predict` response pipeline in Dafny

The service takes a phrase and asks a hosted language model to predict the next
words. It then turns the model's free text into a JSON reply for the browser.
The only logic in the service is in `app.py`, and this project models that logic.

- **`clean_json_response`** (module `Extractor`, with Python's string operations in
  `PyText`). It strips the text and removes an opening "```json" or "```" fence and
  a closing "```" fence. It strips again and returns the slice from the first `{` to
  the last `}`, or `None`. When the last `}` precedes the first `{`, Python's slice
  gives the empty string, not `None`.
- **The default backfill** (module `Backfill`). The parsed object gets `predictions`
  (`[]`), `grammar_context` (`"N/A"`) and `reasoning` (a record of three `"N/A"`
  fields) when the model left them out.
- **The decision tree of `predict`** (module `Handler`). It maps the request's phrase,
  the configured API key, the model's raw text and the JSON parser to an HTTP status
  with a JSON body:
  - 400 for a missing or empty phrase;
  - 500 for a missing key;
  - 200 with a fixed fallback when no object is found;
  - 500 with the parser's diagnostic when parsing fails;
  - otherwise 200 with the backfilled object.

JSON values are the datatype `JsonValue.Json`. Numbers are kept as their literal
text, because the handler only copies them through. `json.loads` is a parameter of
type `string -> LoadResult`: it returns a `JSONDecodeError` diagnostic, the text of
another exception, or the members of an object. A cleaned string always starts with `{` and ends with `}`, so a successful
parse is always an object. `Handler.PredictLoadsOnlyBraced` proves that the parser is
consulted only on such text.

A reader might expect a `{` after the last `}` to mean "not found".
The code instead returns the empty string, and the handler's falsy test
(`if not cleaned`) sends that to the fallback. The model follows the code: see
`Extractor.CleanEmpty` and `Handler.RespondFallback`.

## Model

| member | source | states |
|---|---|---|
| `PyText.Strip` | app.py:42 | the result has no whitespace at either end (whitespace as Python's `str.isspace`) |
| `PyText.StripSplits` | app.py:42 | every text is whitespace + its stripped form + whitespace |
| `PyText.StripSurrounded` | app.py:52 | stripping text that has only whitespace around non-blank ends gives exactly that text |
| `PyText.Find` | app.py:54 | -1 exactly when the character is absent; otherwise the index of its first occurrence |
| `PyText.RFind` | app.py:55 | -1 exactly when the character is absent; otherwise the index of its last occurrence |
| `PyText.Slice` | app.py:60 | Python `s[a:b]` with non-negative bounds: the elements from a to b, clamped to the length, empty when b <= a or a >= len(s) |
| `Extractor.Unfenced` | app.py:42-52 | the text searched for braces has no whitespace at either end |
| `Extractor.BraceSpan` | app.py:54-60 | `None` exactly when a `{` or a `}` is missing; a non-empty result starts with `{` and ends with `}` |
| `Extractor.CleanJsonResponse` | app.py:40-60 | a non-empty result starts with `{` and ends with `}` |
| `Extractor.CleanNone` | app.py:54-58 | `None` exactly when the stripped, unfenced text has no `{` or no `}` |
| `Extractor.CleanSpan` | app.py:54-60 | a non-empty result is the slice of the unfenced text from its first `{` to its last `}`, with no `{` before it and no `}` after it |
| `Extractor.CleanEmpty` | app.py:55-60 | the result is `""` (not `None`) exactly when both braces occur and every `}` comes before every `{` |
| `Extractor.CleanInvertedExample` | app.py:57-60 | `"} {"` cleans to the empty string |
| `Extractor.CleanBraced` | app.py:40-60 | text that starts with `{` and ends with `}` is returned unchanged |
| `Extractor.CleanIdempotent` | app.py:40-60 | cleaning a non-empty result again returns the same result |
| `Extractor.CleanFenced` | app.py:42-52 | an object inside a "```json" or "```" fence, with whitespace inside and outside the fences, comes out as exactly the object |
| `Extractor.CleanFencedExample` | app.py:44-60 | "```json\n{\"predictions\":[]}\n```" cleans to `{"predictions":[]}` |
| `Backfill.WithDefaults` | app.py:162-171 | keys become the sent keys plus the three defaults; sent keys keep their values; each missing key gets `[]`, `"N/A"` or the three-field `"N/A"` record |
| `Backfill.Backfill` | app.py:162-171 | the three in-order conditional insertions give exactly `WithDefaults` of the parsed object |
| `Backfill.WithDefaultsIdempotent` | app.py:162-171 | backfilling twice is the same as backfilling once |
| `Backfill.WithDefaultsComplete` | app.py:162-171 | an object that already has all three keys is left exactly as sent |
| `Handler.Respond` | app.py:136-177 | after cleaning, the reply is 200 with a `response` object holding the three fields, or 500 with an `error` string |
| `Handler.Predict` | app.py:75-173 | status is 200, 400 or 500; 400 exactly when the phrase is empty or missing; a 200 body holds a `response` object with the three fields; any other body is `{"error": string}` |
| `Handler.PredictNoPhrase` | app.py:76-79 | an empty or missing phrase gives 400 "No phrase provided", whatever the key, model text and parser |
| `Handler.PredictNoKey` | app.py:81-82 | a phrase without a usable key gives 500 "GROQ_API_KEY not found", whatever the model text and parser |
| `Handler.PredictModelStage` | app.py:133-136 | with a phrase and a key, the reply is the one computed from the cleaned model text |
| `Handler.RespondFallback` | app.py:138-155 | a cleaning result of `None` or `""` gives 200 with the fallback, whose single prediction has the word "the", whatever the parser would say |
| `Handler.RespondInvalidJson` | app.py:157-160 | a parse failure gives 500 with "Invalid JSON returned by model: " followed by the diagnostic |
| `Handler.RespondOtherLoadError` | app.py:157-177 | a parser exception other than `JSONDecodeError` gives 500 with the bare exception text, no prefix |
| `Handler.RespondDecoded` | app.py:162-173 | a parsed object gives 200 with the backfilled object, and every field the model sent is unchanged |
| `Handler.RespondLoadsOnlyBraced` | app.py:138-158 | two parsers that agree on text starting with `{` and ending with `}` give the same reply after cleaning |
| `Handler.PredictLoadsOnlyBraced` | app.py:136-158 | the same for the whole handler: the parser only sees brace-delimited text |

## Left out

- Flask routing, `render_template`, `jsonify` and the `__main__` and Vercel lines are
  framework plumbing. A reply is a status with a `Json` body, and serialisation is not
  modelled.
- The Groq/OpenAI client and its `chat.completions.create` call are a network call into
  a foreign library. The model's text `raw_output` is an input of `Handler.Predict`.
- The prompt f-string (app.py:84-115) is a constant template around the phrase with no
  behaviour to prove, and it feeds only the network call.
- `load_dotenv`, reading `GROQ_API_KEY` from the environment, and all `print` logging
  are I/O. The key is an input of `Handler.Predict`.
- The internals of `json.loads` are out of scope; it is the parameter `loads`.
- The generic `except Exception` at app.py:175-177 is modelled for one cause only: an
  exception from `json.loads` other than `JSONDecodeError` (`LoadResult.OtherError`),
  which gives 500 with the bare exception text. Its other causes lie outside the
  modelled logic and are not modelled: the network call fails, the request body is not
  a JSON object or `get_json()` raises, or the completion's content is `None`.
- Handler.Predict: takes the phrase as an optional string. The source accepts any JSON
  value for `phrase` and tests it for Python truthiness, so a non-string phrase is not modelled.
- A Python dict's key order is lost, because the parsed object is a `map`.
- The aliasing of the parsed dict is not modelled: `Backfill.Backfill` rebinds a local
  map instead of mutating a shared object. No other code sees that dict before the reply.
- The floats in the fallback (0.7, 0.2) are kept as literal JSON numbers.
- `static/script.js` (DOM updates, `fetch`, chart configuration, number formatting,
  `escapeHtml`) is browser code outside the service's logic.
