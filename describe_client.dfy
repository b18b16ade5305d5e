/**
  The request side and the result side of `describePalette`: the prompt built from the
  palette's colours, the request body posted to the proxy, and how a finished round
  trip settles into either a description or one of the page's error messages.

  The network round trip is an input: either the JSON value `response.json()`
  produced, or a rejection (the fetch failed or the body was not JSON). `JSON.parse`
  of the extracted text is an input too, a function giving the parsed value or
  `None` when it throws.
*/
module DescribeClient {
  import opened Wrappers
  import opened HexColor
  import opened PaletteStore
  import opened JsValue
  import opened Gemini

  const EmptyPaletteMessage: string := "Harap hasilkan palet terlebih dahulu,"
  const MalformedMessage: string := "Gagal mendapatkan deskripsi dari gemini API. Cobaa lagi."
  const CallFailedMessage: string := "Terjadi kesalahan saat memanggil Gemini API."

  const Separator: string := ", "
  const PromptHead: string := "Diberikan palet warna berikut (kode hex: "
  const PromptTail: string :=
    "), jelaskan suasana atau perasaan yang ditimbulkan secara keseluruhan dan sarankan 2-3 skenario penggunaan yang sesuai (misalnya, untuk merek, situs web, desain interior, seni, dll.). Formatkan jawaban Anda sebagai objek JSON dengan 'mood' (string) dan 'usage_scenarios' (array of strings)."

  /** `xs.join(sep)`. */
  function Join(xs: seq<string>, sep: string): (r: string)
    ensures xs == [] ==> r == []
  {
    if |xs| == 0 then [] else if |xs| == 1 then xs[0] else xs[0] + sep + Join(xs[1..], sep)
  }

  /** `palette.map((p) => p.color)`. */
  function Colors(p: seq<Swatch>): (cs: seq<string>)
    ensures |cs| == |p| && forall i :: 0 <= i < |p| ==> cs[i] == p[i].color
  {
    seq(|p|, i requires 0 <= i < |p| => p[i].color)
  }

  /** The instruction sent to the model, listing the colours. */
  function Prompt(p: seq<Swatch>): string {
    PromptHead + Join(Colors(p), Separator) + PromptTail
  }

  /** `{ payload }` with the single-turn conversation and the JSON response type. */
  function RequestBody(prompt: string): Json {
    Obj(map["payload" := Obj(map[
      "contents" := Arr([Obj(map["role" := Str("user"), "parts" := Arr([Obj(map["text" := Str(prompt)])])])]),
      "generationConfig" := Obj(map["responseMimeType" := Str("application/json")])
    ])])
  }

  lemma SliceOfAppend(a: string, b: string, lo: nat, hi: nat)
    requires |a| <= lo <= hi <= |a| + |b|
    ensures (a + b)[lo..hi] == b[lo - |a|..hi - |a|]
  {
  }

  lemma SliceOfPrefix(a: string, b: string, lo: nat, hi: nat)
    requires lo <= hi <= |a|
    ensures (a + b)[lo..hi] == a[lo..hi]
  {
  }

  /**
    Seven-character colours joined by `", "` sit at a stride of nine: colour `i`
    occupies `[9i, 9i + 7)` and a separator follows every colour but the last.
  */
  lemma {:induction false} JoinColorsLayout(cs: seq<string>)
    requires forall i :: 0 <= i < |cs| ==> |cs[i]| == 1 + Width
    ensures |cs| > 0 ==> |Join(cs, Separator)| == 9 * |cs| - 2
    ensures forall i :: 0 <= i < |cs| ==> Join(cs, Separator)[9 * i .. 9 * i + 7] == cs[i]
    ensures forall i :: 0 <= i < |cs| - 1 ==> Join(cs, Separator)[9 * i + 7 .. 9 * i + 9] == Separator
  {
    if |cs| >= 2 {
      var rest := cs[1..];
      JoinColorsLayout(rest);
      var head := cs[0] + Separator;
      var j := Join(cs, Separator);
      assert j == head + Join(rest, Separator);
      forall i | 0 <= i < |cs|
        ensures j[9 * i .. 9 * i + 7] == cs[i]
      {
        if i > 0 {
          SliceOfAppend(head, Join(rest, Separator), 9 * i, 9 * i + 7);
          assert rest[i - 1] == cs[i];
        }
      }
      forall i | 0 <= i < |cs| - 1
        ensures j[9 * i + 7 .. 9 * i + 9] == Separator
      {
        if i > 0 {
          SliceOfAppend(head, Join(rest, Separator), 9 * i + 7, 9 * i + 9);
          var k := i - 1;
          assert Join(rest, Separator)[9 * k + 7 .. 9 * k + 9] == Separator;
          assert 9 * i + 7 - |head| == 9 * k + 7;
        } else {
          SliceOfPrefix(head, Join(rest, Separator), 7, 9);
        }
      }
    }
  }

  /** A list of seven-character colours between two fixed texts. */
  lemma {:induction false} FramedLayout(head: string, cs: seq<string>, tail: string)
    requires cs != [] && forall i :: 0 <= i < |cs| ==> |cs[i]| == 1 + Width
    ensures |head + Join(cs, Separator) + tail| == |head| + 9 * |cs| - 2 + |tail|
    ensures forall i :: 0 <= i < |cs| ==>
      (head + Join(cs, Separator) + tail)[|head| + 9 * i .. |head| + 9 * i + 7] == cs[i]
  {
    JoinColorsLayout(cs);
    var joined := Join(cs, Separator);
    var whole := head + joined + tail;
    assert whole == head + (joined + tail);
    forall i | 0 <= i < |cs|
      ensures whole[|head| + 9 * i .. |head| + 9 * i + 7] == cs[i]
    {
      SliceOfAppend(head, joined + tail, |head| + 9 * i, |head| + 9 * i + 7);
      SliceOfPrefix(joined, tail, 9 * i, 9 * i + 7);
      assert joined[9 * i .. 9 * i + 7] == cs[i];
    }
  }

  /** The prompt names every swatch's colour, in palette order, after the fixed opening. */
  lemma PromptListsColors(p: seq<Swatch>)
    requires WellFormed(p) && p != []
    ensures |Prompt(p)| == |PromptHead| + 9 * |p| - 2 + |PromptTail|
    ensures forall i :: 0 <= i < |p| ==>
      Prompt(p)[|PromptHead| + 9 * i .. |PromptHead| + 9 * i + 7] == p[i].color
  {
    FramedLayout(PromptHead, Colors(p), PromptTail);
  }

  /**
    The request is a single `user` turn whose only part's text is the prompt, and it
    asks for a JSON response.
  */
  lemma RequestCarriesPrompt(prompt: string)
    ensures Field(RequestBody(prompt), "payload").Some?
    ensures var payload := Field(RequestBody(prompt), "payload").value;
            && payload != Null
            && Field(payload, "contents").Some? && Field(payload, "contents").value.Arr?
            && |Field(payload, "contents").value.items| == 1
            && var turn := Field(payload, "contents").value.items[0];
               && turn != Null
               && Field(turn, "role") == Some(Str("user"))
               && Field(turn, "parts").Some? && Field(turn, "parts").value.Arr?
               && Field(turn, "parts").value.items == [Obj(map["text" := Str(prompt)])]
    ensures var payload := Field(RequestBody(prompt), "payload").value;
            && payload != Null
            && Field(payload, "generationConfig") == Some(Obj(map["responseMimeType" := Str("application/json")]))
  {
  }

  /** How the fetch, and `response.json()` after it, ended. */
  datatype FetchOutcome =
    | Received(result: Json)  // the parsed body of the proxy's answer
    | Rejected                // an exception before a body was parsed

  /** What a finished describe call leaves on the page. */
  datatype Settlement = Described(description: Json) | Reported(message: string)

  /** The three outcome branches of the `try` / `catch` around the round trip. */
  function Settle(outcome: FetchOutcome, parse: Json -> Option<Json>): (s: Settlement)
    ensures s.Reported? ==> s.message == MalformedMessage || s.message == CallFailedMessage
    ensures s == Reported(MalformedMessage) <==> outcome.Received? && Extract(outcome.result) == Malformed
    ensures s.Described? <==>
      && outcome.Received?
      && Extract(outcome.result).Text?
      && Extract(outcome.result).text.Some?
      && parse(Extract(outcome.result).text.value).Some?
    ensures s.Described? ==> s.description == parse(Extract(outcome.result).text.value).value
  {
    match outcome
    case Rejected => Reported(CallFailedMessage)
    case Received(result) =>
      match Extract(result)
      case Malformed => Reported(MalformedMessage)
      case Threw => Reported(CallFailedMessage)
      case Text(text) =>
        // `JSON.parse(undefined)` throws as well
        if text.None? then Reported(CallFailedMessage)
        else if parse(text.value).None? then Reported(CallFailedMessage)
        else Described(parse(text.value).value)
  }

  /** The documented reply is described by whatever its text parses to. */
  lemma SettleDocumented(t: string, parse: Json -> Option<Json>)
    ensures var reply := Reply(Some([Candidate(Some(Content(Some([Part(Some(t))]))))]));
            Settle(Received(ReplyJson(reply)), parse)
              == if parse(Str(t)).Some? then Described(parse(Str(t)).value) else Reported(CallFailedMessage)
  {
  }

  /** A reply of the documented type that fails the check is reported as malformed. */
  lemma SettleMalformedReply(r: Reply, parse: Json -> Option<Json>)
    requires !FirstText(r).Text?
    ensures Settle(Received(ReplyJson(r)), parse) == Reported(MalformedMessage)
  {
  }
}
