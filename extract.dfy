/** `clean_json_response`: cut the JSON object out of the model's raw text.
    The text is stripped, an opening "```json" or "```" fence and a closing
    "```" fence are removed, it is stripped again, and what remains from the
    first '{' to the last '}' is returned; `None` when either brace is absent. */
module Extractor {
  import opened JsonValue
  import opened PyText

  const JsonFence: string := "```json"
  const Fence: string := "```"

  /** Lines 44-47: drop "```json" (7 characters) or else "```" (3) at the front. */
  function DropOpeningFence(s: string): string {
    if StartsWith(s, JsonFence) then s[7..]
    else if StartsWith(s, Fence) then s[3..]
    else s
  }

  /** Lines 49-50: drop a trailing "```". */
  function DropClosingFence(s: string): string {
    if EndsWith(s, Fence) then s[..|s| - 3] else s
  }

  /** The text the braces are searched in (lines 42-52). */
  function Unfenced(responseText: string): (t: string)
    ensures IsStripped(t)
  {
    Strip(DropClosingFence(DropOpeningFence(Strip(responseText))))
  }

  /** Lines 54-60: from the first '{' to the last '}' of `text`, inclusive;
      `None` when either is missing, and empty when the last '}' comes
      before the first '{' (Python's slice `text[start:end]` with end <= start). */
  function BraceSpan(text: string): (r: Option<string>)
    ensures r == None <==> '{' !in text || '}' !in text
    ensures r.Some? && r.value != [] ==> r.value[0] == '{' && r.value[|r.value| - 1] == '}'
  {
    var jsonStart := Find(text, '{');
    var jsonEnd := RFind(text, '}') + 1;
    if jsonStart == -1 || jsonEnd <= 0 then None
    else Some(Slice(text, jsonStart, jsonEnd))
  }

  function CleanJsonResponse(responseText: string): (r: Option<string>)
    ensures r.Some? && r.value != [] ==> r.value[0] == '{' && r.value[|r.value| - 1] == '}'
  {
    BraceSpan(Unfenced(responseText))
  }

  /** `None` exactly when the searched text lacks a '{' or lacks a '}'. */
  lemma CleanNone(responseText: string)
    ensures var text := Unfenced(responseText);
      CleanJsonResponse(responseText) == None <==> '{' !in text || '}' !in text
  {
  }

  /** A non-empty span starts at the first '{' of the text and ends at its last '}'. */
  lemma BraceSpanBounds(text: string) returns (i: nat, j: nat)
    requires BraceSpan(text).Some? && BraceSpan(text).value != []
    ensures i < j <= |text|
    ensures text[i] == '{' && '{' !in text[..i]
    ensures text[j - 1] == '}' && '}' !in text[j..]
    ensures BraceSpan(text).value == text[i..j]
  {
    i, j := Find(text, '{'), RFind(text, '}') + 1;
  }

  /** A non-empty result is the slice of the searched text that starts at
      its first '{' and ends at its last '}'. */
  lemma CleanSpan(responseText: string) returns (i: nat, j: nat)
    requires CleanJsonResponse(responseText).Some?
    requires CleanJsonResponse(responseText).value != []
    ensures var text := Unfenced(responseText);
      && i < j <= |text|
      && text[i] == '{' && '{' !in text[..i]
      && text[j - 1] == '}' && '}' !in text[j..]
      && CleanJsonResponse(responseText).value == text[i..j]
  {
    i, j := BraceSpanBounds(Unfenced(responseText));
  }

  /** Every '}' of `text` comes before every '{'. */
  ghost predicate ClosersBeforeOpeners(text: string) {
    forall i, j :: 0 <= i < |text| && 0 <= j < |text| && text[i] == '}' && text[j] == '{' ==> i < j
  }

  lemma BraceSpanEmpty(text: string)
    ensures BraceSpan(text) == Some([]) <==> '{' in text && '}' in text && ClosersBeforeOpeners(text)
  {
    var a, b := Find(text, '{'), RFind(text, '}');
    if BraceSpan(text) == Some([]) {
      forall i, j | 0 <= i < |text| && 0 <= j < |text| && text[i] == '}' && text[j] == '{'
        ensures i < j
      {
      }
    }
  }

  /** The result is the empty string, not `None`, exactly when both braces
      occur but every '}' comes before every '{'. */
  lemma CleanEmpty(responseText: string)
    ensures var text := Unfenced(responseText);
      CleanJsonResponse(responseText) == Some([]) <==>
        '{' in text && '}' in text && ClosersBeforeOpeners(text)
  {
    BraceSpanEmpty(Unfenced(responseText));
  }

  lemma NotSpace()
    ensures !IsSpace('{') && !IsSpace('}') && !IsSpace('`')
  {
  }

  /** A text that already starts with '{' and ends with '}' is its own span. */
  lemma BraceSpanOfBraced(x: string)
    requires |x| > 0 && x[0] == '{' && x[|x| - 1] == '}'
    ensures BraceSpan(x) == Some(x)
  {
    assert x[0..|x|] == x;
  }

  /** Text that starts with '{' and ends with '}' passes through unchanged. */
  lemma CleanBraced(x: string)
    requires |x| > 0 && x[0] == '{' && x[|x| - 1] == '}'
    ensures CleanJsonResponse(x) == Some(x)
  {
    NotSpace();
    StripStripped(x);
    assert !StartsWith(x, Fence) by { assert x[0] != Fence[0]; }
    assert x[|x| - 1] != Fence[2];
    assert !EndsWith(x, Fence);
    assert Unfenced(x) == x;
    BraceSpanOfBraced(x);
  }

  /** Cleaning a non-empty result again gives back the same result. */
  lemma CleanIdempotent(responseText: string)
    requires CleanJsonResponse(responseText).Some?
    requires CleanJsonResponse(responseText).value != []
    ensures var r := CleanJsonResponse(responseText); CleanJsonResponse(r.value) == r
  {
    CleanBraced(CleanJsonResponse(responseText).value);
  }

  lemma DropOpeningFenceOf(fence: string, rest: string)
    requires fence == JsonFence || (fence == Fence && (rest == [] || rest[0] != 'j'))
    ensures DropOpeningFence(fence + rest) == rest
  {
    var s := fence + rest;
    assert s[..|fence|] == fence;
    assert s[|fence|..] == rest;
    assert fence == Fence ==> rest == [] || s[3] != JsonFence[3];
  }

  lemma DropClosingFenceOf(x: string)
    ensures DropClosingFence(x + Fence) == x
  {
    var s := x + Fence;
    assert s[|s| - 3..] == Fence;
    assert s[..|s| - 3] == x;
  }

  /** Whitespace around text that starts and ends with a non-blank
      character is removed by the first `strip()` and changes nothing else. */
  lemma UnfencedOuter(outerPre: string, s: string, outerPost: string)
    requires AllSpace(outerPre) && AllSpace(outerPost) && IsStripped(s)
    ensures Unfenced(outerPre + s + outerPost) == Unfenced(s)
  {
    StripSurrounded(outerPre, s, outerPost);
    StripStripped(s);
  }

  lemma UnfencedOfFenced(fence: string, pre: string, body: string, post: string)
    requires fence == JsonFence || fence == Fence
    requires AllSpace(pre) && AllSpace(post)
    requires |body| > 0 && body[0] == '{' && body[|body| - 1] == '}'
    ensures Unfenced(fence + pre + body + post + Fence) == body
  {
    var inner := pre + body + post;
    var s := fence + inner + Fence;
    assert s == fence + pre + body + post + Fence;
    assert s == fence + (inner + Fence);
    assert s[0] == '`' && s[|s| - 1] == '`';
    StripStripped(s);
    assert (inner + Fence)[0] == if pre == [] then body[0] else pre[0];
    DropOpeningFenceOf(fence, inner + Fence);
    DropClosingFenceOf(inner);
    assert IsStripped(body) by { NotSpace(); }
    StripSurrounded(pre, body, post);
    assert Unfenced(s) == body by {
      assert Strip(s) == s;
      assert DropOpeningFence(s) == inner + Fence;
      assert DropClosingFence(inner + Fence) == inner;
      assert Strip(inner) == body;
    }
  }

  /** An object wrapped in a "```json" or "```" fence, with whitespace
      between the fences and the object and around the fences, comes out as
      exactly the object. */
  lemma CleanFenced(outerPre: string, fence: string, pre: string, body: string, post: string,
                    outerPost: string)
    requires fence == JsonFence || fence == Fence
    requires AllSpace(outerPre) && AllSpace(pre) && AllSpace(post) && AllSpace(outerPost)
    requires |body| > 0 && body[0] == '{' && body[|body| - 1] == '}'
    ensures CleanJsonResponse(outerPre + fence + pre + body + post + Fence + outerPost) == Some(body)
  {
    var s := fence + pre + body + post + Fence;
    assert outerPre + fence + pre + body + post + Fence + outerPost == outerPre + s + outerPost;
    assert |s| > 0 && s[0] == '`' && s[|s| - 1] == '`';
    assert IsStripped(s) by { NotSpace(); }
    UnfencedOuter(outerPre, s, outerPost);
    UnfencedOfFenced(fence, pre, body, post);
    BraceSpanOfBraced(body);
  }

  /** The fenced example: "```json\n{"predictions":[]}\n```" yields
      exactly {"predictions":[]}. */
  lemma CleanFencedExample()
    ensures CleanJsonResponse("```json\n{\"predictions\":[]}\n```") == Some("{\"predictions\":[]}")
  {
    var body := "{\"predictions\":[]}";
    assert "```json\n{\"predictions\":[]}\n```" == JsonFence + "\n" + body + "\n" + Fence;
    assert "```json\n{\"predictions\":[]}\n```" == [] + JsonFence + "\n" + body + "\n" + Fence + [];
    CleanFenced([], JsonFence, "\n", body, "\n", []);
  }

  /** When the only '}' comes before the only '{', the result is the empty
      string, not `None`. */
  lemma CleanInvertedExample()
    ensures CleanJsonResponse("} {") == Some([])
  {
    var x := "} {";
    NotSpace();
    StripStripped(x);
    assert !StartsWith(x, Fence) by { assert x[0] != Fence[0]; }
    assert !EndsWith(x, Fence) by { assert x[2] != Fence[2]; }
    assert Unfenced(x) == x;
    assert x[0] == '}' && x[2] == '{';
    BraceSpanEmpty(x);
  }
}
