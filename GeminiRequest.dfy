/**
  The request record and the wire payload it builds:
  { "contents": [ { "parts": [ { "text": prompt } ] } ] }.
 */
module GeminiRequest {
  import opened Wrappers
  import opened Json

  /** An immutable request carrying the (possibly augmented) prompt text. */
  datatype Request = Request(prompt: string) {

    /** toBody(): the nested payload with the prompt as its one text part. */
    function ToBody(): (body: Json)
      ensures WellFormedBody(body)
      ensures BodyText(body) == Some(prompt)
    {
      JObj(map["contents" := JArr([Contents(prompt)])])
    }
  }

  /** The single element of "contents": { "parts": [ { "text": prompt } ] }. */
  function Contents(prompt: string): Json {
    JObj(map["parts" := JArr([JObj(map["text" := JStr(prompt)])])])
  }

  /** The payload shape: an object whose only key is "contents", holding one
      object whose only key is "parts", holding one object whose only key is
      "text", holding a string. */
  predicate WellFormedBody(j: Json) {
    j.JObj? && j.fields.Keys == {"contents"} &&
    var contents := j.fields["contents"];
    contents.JArr? && |contents.items| == 1 &&
    var content := contents.items[0];
    content.JObj? && content.fields.Keys == {"parts"} &&
    var parts := content.fields["parts"];
    parts.JArr? && |parts.items| == 1 &&
    var part := parts.items[0];
    part.JObj? && part.fields.Keys == {"text"} &&
    part.fields["text"].JStr?
  }

  /** The text of the single part of a well-formed payload. */
  function BodyText(j: Json): (r: Option<string>)
    ensures r.Some? <==> WellFormedBody(j)
  {
    if WellFormedBody(j)
    then Some(j.fields["contents"].items[0].fields["parts"].items[0].fields["text"].str)
    else None
  }

  /** A well-formed payload is exactly the one built from its own text: the
      payload shape carries nothing but the prompt. */
  lemma BodyDeterminedByText(j: Json)
    requires WellFormedBody(j)
    ensures Request(BodyText(j).value).ToBody() == j
  {
    var p := BodyText(j).value;
    var part := j.fields["contents"].items[0].fields["parts"].items[0];
    assert part.fields == map["text" := JStr(p)];
    var content := j.fields["contents"].items[0];
    assert content.fields["parts"].items == [part];
    assert content.fields == map["parts" := JArr([part])];
    assert j.fields["contents"].items == [content];
    assert j.fields == map["contents" := JArr([content])];
  }

  /** Two requests build the same payload only if their prompts are equal. */
  lemma ToBodyInjective(a: Request, b: Request)
    requires a.ToBody() == b.ToBody()
    ensures a == b
  {
  }
}
