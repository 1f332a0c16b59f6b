/** The default backfill of `predict` (app.py lines 162-171): the parsed
    object gets `predictions`, `grammar_context` and `reasoning` when the
    model left them out. */
module Backfill {
  import opened JsonValue

  const NotAvailable: Json := JString("N/A")

  /** The three-field record put in for a missing `reasoning`. */
  const DefaultReasoning: Json := JObject(map[
    "syntactic_analysis" := NotAvailable,
    "semantic_context" := NotAvailable,
    "common_patterns" := NotAvailable])

  /** The key each default belongs to, with its default value. */
  const Defaults: map<string, Json> := map[
    "predictions" := JArray([]),
    "grammar_context" := NotAvailable,
    "reasoning" := DefaultReasoning]

  /** The object after the backfill: every key the model sent keeps its
      value, every default key the model left out gets its default. */
  function WithDefaults(parsed: map<string, Json>): (filled: map<string, Json>)
    ensures filled.Keys == parsed.Keys + {"predictions", "grammar_context", "reasoning"}
    ensures forall k :: k in parsed ==> filled[k] == parsed[k]
    ensures "predictions" !in parsed ==> filled["predictions"] == JArray([])
    ensures "grammar_context" !in parsed ==> filled["grammar_context"] == JString("N/A")
    ensures "reasoning" !in parsed ==> filled["reasoning"] == JObject(map[
      "syntactic_analysis" := JString("N/A"),
      "semantic_context" := JString("N/A"),
      "common_patterns" := JString("N/A")])
  {
    Defaults + parsed
  }

  /** The three conditional insertions, in the order the handler makes them,
      on the handler's local `parsed`. */
  method Backfill(parsed: map<string, Json>) returns (filled: map<string, Json>)
    ensures filled == WithDefaults(parsed)
  {
    filled := parsed;
    if "predictions" !in filled {
      filled := filled["predictions" := JArray([])];
    }
    if "grammar_context" !in filled {
      filled := filled["grammar_context" := NotAvailable];
    }
    if "reasoning" !in filled {
      filled := filled["reasoning" := DefaultReasoning];
    }
  }

  /** A second backfill changes nothing: the defaults are then all present. */
  lemma WithDefaultsIdempotent(parsed: map<string, Json>)
    ensures WithDefaults(WithDefaults(parsed)) == WithDefaults(parsed)
  {
  }

  /** An object that already has all three keys is returned exactly as sent. */
  lemma WithDefaultsComplete(parsed: map<string, Json>)
    requires "predictions" in parsed && "grammar_context" in parsed && "reasoning" in parsed
    ensures WithDefaults(parsed) == parsed
  {
  }
}
