/**
  The response check of `describePalette`: the page accepts the proxy's JSON only if
  `candidates` is present and non-empty, `candidates[0].content` is present, and its
  `parts` is present and non-empty; it then reads `parts[0].text`.

  `Extract` follows the JavaScript expression, including the `TypeError` raised when
  `candidates[0]` is `null` or missing, or when the read of `parts[0].text` after the
  check finds `parts[0]` `null` or missing. `FirstText` is the same check over a
  typed view of the upstream reply, and `ExtractConforming` ties the two together
  for every JSON reply the typed view describes, whatever other keys it carries.
*/
module Gemini {
  import opened Wrappers
  import opened JsValue

  /** What the response check leads to. */
  datatype Extraction =
    | Text(text: Option<Json>)  // the value of `parts[0].text`, `None` if undefined
    | Malformed                 // the condition was false: the else branch
    | Threw                     // a property of null/undefined was read: the catch branch

  function Extract(result: Json): (r: Extraction)
    ensures result == Null ==> r == Threw
    ensures r.Text? ==> result.Obj? && "candidates" in result.fields
    ensures !result.Obj? && result != Null ==> r == Malformed
  {
    if result == Null then Threw
    else
      var candidates := Field(result, "candidates");
      if !Truthy(candidates) || !Positive(Field(candidates.value, "length")) then Malformed
      else
        var first := Index0(candidates.value);
        if first.None? || first.value == Null then Threw
        else
          var content := Field(first.value, "content");
          if !Truthy(content) then Malformed
          else
            var parts := Field(content.value, "parts");
            if !Truthy(parts) || !Positive(Field(parts.value, "length")) then Malformed
            else
              var part := Index0(parts.value);
              if part.None? || part.value == Null then Threw
              else Text(Field(part.value, "text"))
  }

  // A typed view of the upstream reply: every field on the path may be absent.
  datatype Part = Part(text: Option<string>)
  datatype Content = Content(parts: Option<seq<Part>>)
  datatype Candidate = Candidate(content: Option<Content>)
  datatype Reply = Reply(candidates: Option<seq<Candidate>>)

  function PartJson(p: Part): Json {
    Obj(if p.text.Some? then map["text" := Str(p.text.value)] else map[])
  }

  function PartsJson(ps: seq<Part>): (r: seq<Json>)
    ensures |r| == |ps| && forall i :: 0 <= i < |ps| ==> r[i] == PartJson(ps[i])
  {
    seq(|ps|, i requires 0 <= i < |ps| => PartJson(ps[i]))
  }

  function ContentJson(c: Content): Json {
    Obj(if c.parts.Some? then map["parts" := Arr(PartsJson(c.parts.value))] else map[])
  }

  function CandidateJson(c: Candidate): Json {
    Obj(if c.content.Some? then map["content" := ContentJson(c.content.value)] else map[])
  }

  function CandidatesJson(cs: seq<Candidate>): (r: seq<Json>)
    ensures |r| == |cs| && forall i :: 0 <= i < |cs| ==> r[i] == CandidateJson(cs[i])
  {
    seq(|cs|, i requires 0 <= i < |cs| => CandidateJson(cs[i]))
  }

  /** The JSON text of a typed reply, fields written only when present. */
  function ReplyJson(r: Reply): Json {
    Obj(if r.candidates.Some? then map["candidates" := Arr(CandidatesJson(r.candidates.value))] else map[])
  }

  /** The check as a single validating step over the typed reply. */
  function FirstText(r: Reply): (e: Extraction)
    ensures e.Text? <==>
      && r.candidates.Some? && |r.candidates.value| > 0
      && r.candidates.value[0].content.Some?
      && r.candidates.value[0].content.value.parts.Some?
      && |r.candidates.value[0].content.value.parts.value| > 0
    ensures !e.Threw?
    ensures e.Text? ==>
      (var part := r.candidates.value[0].content.value.parts.value[0];
       e.text == if part.text.Some? then Some(Str(part.text.value)) else None)
  {
    if r.candidates.None? || |r.candidates.value| == 0 then Malformed
    else
      var first := r.candidates.value[0];
      if first.content.None? || first.content.value.parts.None? then Malformed
      else
        var ps := first.content.value.parts.value;
        if |ps| == 0 then Malformed
        else Text(if ps[0].text.Some? then Some(Str(ps[0].text.value)) else None)
  }

  /**
    `j` is a reply that the typed view `r` describes: at every level of the path the
    object may carry other keys (`role`, `finishReason`, `usageMetadata`, ...), and
    the keys on the path are present exactly when `r` has them.
  */
  predicate Conforms(j: Json, r: Reply) {
    && j.Obj?
    && (r.candidates.None? ==> "candidates" !in j.fields)
    && (r.candidates.Some? ==>
          && "candidates" in j.fields
          && CandidatesConform(j.fields["candidates"], r.candidates.value))
  }

  predicate CandidatesConform(j: Json, cs: seq<Candidate>) {
    && j.Arr? && |j.items| == |cs|
    && forall i :: 0 <= i < |cs| ==> CandidateConforms(j.items[i], cs[i])
  }

  predicate CandidateConforms(j: Json, c: Candidate) {
    && j.Obj?
    && (c.content.None? ==> "content" !in j.fields)
    && (c.content.Some? ==> "content" in j.fields && ContentConforms(j.fields["content"], c.content.value))
  }

  predicate ContentConforms(j: Json, c: Content) {
    && j.Obj?
    && (c.parts.None? ==> "parts" !in j.fields)
    && (c.parts.Some? ==>
          && "parts" in j.fields
          && var ps := j.fields["parts"];
             && ps.Arr? && |ps.items| == |c.parts.value|
             && forall i :: 0 <= i < |ps.items| ==> PartConforms(ps.items[i], c.parts.value[i]))
  }

  predicate PartConforms(j: Json, p: Part) {
    && j.Obj?
    && (p.text.None? ==> "text" !in j.fields)
    && (p.text.Some? ==> "text" in j.fields && j.fields["text"] == Str(p.text.value))
  }

  /** On every reply the typed view describes, extra keys included, the check agrees with `FirstText`. */
  lemma ExtractConforming(j: Json, r: Reply)
    requires Conforms(j, r)
    ensures Extract(j) == FirstText(r)
  {
  }

  /** The reply the typed view encodes has no keys besides those on the path, and agrees with `FirstText`. */
  lemma ExtractTyped(r: Reply)
    ensures Extract(ReplyJson(r)) == FirstText(r)
  {
  }

  /** The reply the upstream service documents: one candidate with one text part. */
  lemma ExtractDocumented(t: string)
    ensures Extract(ReplyJson(Reply(Some([Candidate(Some(Content(Some([Part(Some(t))]))))])))) == Text(Some(Str(t)))
  {
  }

  /** A reply as the upstream service sends it, with metadata beside the path, yields its text. */
  lemma ExtractUpstreamReply(t: string)
    ensures
      var part := Obj(map["text" := Str(t)]);
      var content := Obj(map["parts" := Arr([part]), "role" := Str("model")]);
      var candidate := Obj(map["content" := content, "finishReason" := Str("STOP")]);
      var reply := Obj(map["candidates" := Arr([candidate]),
                           "usageMetadata" := Obj(map["totalTokenCount" := Num(120)]),
                           "modelVersion" := Str("gemini-2.0-flash")]);
      Extract(reply) == Text(Some(Str(t)))
  {
  }

  /** An empty `candidates` array, or an error object without it, is malformed. */
  lemma ExtractNoCandidates(other: map<string, Json>)
    requires "candidates" !in other
    ensures Extract(Obj(map["candidates" := Arr([])])) == Malformed
    ensures Extract(Obj(other)) == Malformed
  {
  }

  /** A `null` first candidate makes the check itself throw. */
  lemma ExtractNullCandidate()
    ensures Extract(Obj(map["candidates" := Arr([Null])])) == Threw
  {
  }
}
