/**
  The provider's response and the defensive extraction of its first text:
  candidates[0].content.parts[0].text, with a sentinel string in place of
  every failure.
 */
module GeminiResponse {
  import opened Wrappers
  import opened Json
  import GeminiRequest

  const NoCandidates: string := "No candidates found."
  const NoText: string := "No text available"

  /** The deserialised response: the "candidates" property, or None when the
      property was absent (the Java field stays null). */
  datatype Response = Response(candidates: Option<Json>)

  /** Deserialisation of a top-level JSON object: only "candidates" is kept,
      every other property is ignored. */
  function FromObject(root: map<string, Json>): (r: Response)
    ensures r.candidates.Some? <==> "candidates" in root
    ensures r.candidates.Some? ==> r.candidates.value == root["candidates"]
  {
    if "candidates" in root then Response(Some(root["candidates"])) else Response(None)
  }

  /** candidates is present, is an array and is not empty. */
  predicate HasCandidates(r: Response) {
    r.candidates.Some? && r.candidates.value.JArr? && |r.candidates.value.items| > 0
  }

  /** firstText(): total; the sentinel when there is no candidate, otherwise
      the chain of path steps read with asText("No text available").  The
      chain agrees with explicit presence checks: a candidate with the whole
      path held gives the leaf's text, any other gives the second sentinel. */
  function FirstText(r: Response): (t: string)
    ensures !HasCandidates(r) ==> t == NoCandidates
    ensures HasCandidates(r) ==>
      var cand := r.candidates.value.items[0];
      t == if HasTextPath(cand) then AsText(Present(TextLeaf(cand)), NoText) else NoText
  {
    if !HasCandidates(r) then NoCandidates
    else
      var first := Present(r.candidates.value.items[0]);
      AsText(PathKey(PathIndex(PathKey(PathKey(first, "content"), "parts"), 0), "text"), NoText)
  }

  // ---------------------------------------------------------------
  // The reference definition by explicit presence checks
  // ---------------------------------------------------------------

  /** The candidate is an object with "content", an object with "parts", a
      non-empty array whose first element is an object with "text". */
  predicate HasTextPath(cand: Json) {
    cand.JObj? && "content" in cand.fields &&
    var content := cand.fields["content"];
    content.JObj? && "parts" in content.fields &&
    var parts := content.fields["parts"];
    parts.JArr? && |parts.items| > 0 &&
    var part := parts.items[0];
    part.JObj? && "text" in part.fields
  }

  /** The value at content.parts[0].text. */
  function TextLeaf(cand: Json): Json
    requires HasTextPath(cand)
  {
    cand.fields["content"].fields["parts"].items[0].fields["text"]
  }

  // ---------------------------------------------------------------
  // Properties
  // ---------------------------------------------------------------

  /** No usable candidates (absent, null, not an array, empty): the sentinel. */
  lemma NoCandidatesSentinel(r: Response)
    requires r.candidates.None? || !r.candidates.value.JArr? || r.candidates.value.items == []
    ensures FirstText(r) == NoCandidates
  {
  }

  /** A string at candidates[0].content.parts[0].text is returned unchanged. */
  lemma FirstTextOfString(r: Response, t: string)
    requires HasCandidates(r) && HasTextPath(r.candidates.value.items[0])
    requires TextLeaf(r.candidates.value.items[0]) == JStr(t)
    ensures FirstText(r) == t
  {
  }

  /** A missing step along the path, or a JSON null at its end, gives the
      second sentinel. */
  lemma FirstTextMissingStep(r: Response)
    requires HasCandidates(r)
    requires !HasTextPath(r.candidates.value.items[0]) || TextLeaf(r.candidates.value.items[0]) == JNull
    ensures FirstText(r) == NoText
  {
  }

  /** Only the first candidate is read: the later ones do not matter. */
  lemma OnlyFirstCandidate(cand: Json, later1: seq<Json>, later2: seq<Json>)
    ensures FirstText(Response(Some(JArr([cand] + later1))))
         == FirstText(Response(Some(JArr([cand] + later2))))
  {
  }

  /** Only the first part is read: the later parts, the other fields of the
      candidate and of its content, and the later candidates do not matter. */
  lemma OnlyFirstPart(cand1: map<string, Json>, cand2: map<string, Json>,
                      content1: map<string, Json>, content2: map<string, Json>, part: Json,
                      rest1: seq<Json>, rest2: seq<Json>, later1: seq<Json>, later2: seq<Json>)
    ensures
      var c1 := JObj(cand1["content" := JObj(content1["parts" := JArr([part] + rest1)])]);
      var c2 := JObj(cand2["content" := JObj(content2["parts" := JArr([part] + rest2)])]);
      FirstText(Response(Some(JArr([c1] + later1)))) == FirstText(Response(Some(JArr([c2] + later2))))
  {
  }

  /** Round trip: the single element of a request's "contents", placed as the
      content of the first candidate of a response, is read back as the prompt. */
  lemma RequestRoundTrip(p: string, others: map<string, Json>, later: seq<Json>)
    ensures
      var body := GeminiRequest.Request(p).ToBody();
      var cand := JObj(others["content" := body.fields["contents"].items[0]]);
      FirstText(Response(Some(JArr([cand] + later)))) == p
  {
  }
}
