/**
 * The response decoder of `CompletionModel.generate_documentation`: the
 * body of a streamed chat completion arrives as byte chunks; each chunk is
 * decoded, split into lines, and every `data: ` line carries one JSON
 * frame whose `choices[0].delta.content` is handed on. The same loop
 * appears in the three application variants; they differ only in how an
 * error is reported (a Streamlit warning or a `print`).
 *
 * The frame syntax is the `data:` field of Server-Sent Events (section
 * 9.2 of the WHATWG HTML Living Standard) read line by line within one
 * chunk: nothing is carried from one chunk to the next. `json.loads` is a
 * parameter of every operation.
 */
module StreamDecoder {
  import opened Wrappers
  import opened Text

  /** A value `json.loads` can return. Object keys are unique; a number keeps its source text. */
  datatype Json =
    | JNull
    | JBool(b: bool)
    | JNumber(literal: string)
    | JString(s: string)
    | JArray(items: seq<Json>)
    | JObject(fields: map<string, Json>)

  /** `json.loads`: `None` where it raises `JSONDecodeError`. */
  type JsonParser = string -> Option<Json>

  /** Python's `key in container` for a string key: `None` where it raises `TypeError`. */
  function PyIn(container: Json, key: string): (r: Option<bool>)
    ensures r.None? <==> !(container.JObject? || container.JArray? || container.JString?)
  {
    match container
    case JObject(fields) => Some(key in fields)
    case JArray(items) => Some(JString(key) in items)
    case JString(s) => Some(Contains(s, key))
    case _ => None
  }

  /** Python's `len(x)`: `None` where it raises `TypeError`. */
  function PyLen(x: Json): Option<nat> {
    match x
    case JObject(fields) => Some(|fields|)
    case JArray(items) => Some(|items|)
    case JString(s) => Some(|s|)
    case _ => None
  }

  /** What one parsed frame contributes: a value to yield, nothing, or an exception. */
  datatype Frame = Content(value: Json) | NoContent | FrameError

  /**
   * `if 'choices' in parsed_data and len(parsed_data['choices']) > 0:` and
   * what follows, with Python's behaviour on every JSON type: subscripting
   * a list or a string with a string key, indexing an object with `0`,
   * `.get` on anything but an object, and `in`/`len` on a number, a
   * boolean or `null` all raise.
   */
  function FrameOf(j: Json): Frame {
    match PyIn(j, "choices")
    case None => FrameError
    case Some(present) =>
      if !present then NoContent
      else if !j.JObject? then FrameError
      else
        var choices := j.fields["choices"];
        match PyLen(choices)
        case None => FrameError
        case Some(n) =>
          if n == 0 then NoContent
          else if choices.JArray? then DeltaFrame(choices.items[0])
          else FrameError
  }

  /** `delta = choice.get('delta', {})`, then `if 'content' in delta: yield delta['content']`. */
  function DeltaFrame(choice: Json): Frame {
    if !choice.JObject? then FrameError
    else
      var delta := if "delta" in choice.fields then choice.fields["delta"] else JObject(map[]);
      match PyIn(delta, "content")
      case None => FrameError
      case Some(present) =>
        if !present then NoContent
        else if delta.JObject? then Content(delta.fields["content"])
        else FrameError
  }

  /** The path the frame handler looks for, stated directly on the JSON tree. */
  predicate HasContent(j: Json, v: Json) {
    && j.JObject? && "choices" in j.fields
    && j.fields["choices"].JArray? && |j.fields["choices"].items| > 0
    && var choice := j.fields["choices"].items[0];
    && choice.JObject? && "delta" in choice.fields
    && var delta := choice.fields["delta"];
    && delta.JObject? && "content" in delta.fields
    && delta.fields["content"] == v
  }

  const DataPrefix := "data: "
  const DoneSentinel := "[DONE]"

  /** What one line of a chunk does to the line loop. */
  datatype LineStep = Ignore | Done | Yield(value: Json) | Raise

  function LineOf(line: string, parse: JsonParser): LineStep {
    if !StartsWith(line, DataPrefix) then Ignore
    else
      var payload := line[|DataPrefix|..];
      if Strip(payload) == DoneSentinel then Done
      else match parse(payload)
        case None => Raise
        case Some(j) =>
          match FrameOf(j)
          case Content(v) => Yield(v)
          case NoContent => Ignore
          case FrameError => Raise
  }

  /** How the line loop of one chunk ends: out of lines, at `[DONE]`, or by an exception. */
  datatype ChunkEnd = Exhausted | DoneSeen | Raised

  /** The values the line loop yields, in line order, and how it ends. */
  function ScanLines(lines: seq<string>, parse: JsonParser): (seq<Json>, ChunkEnd) {
    if lines == [] then ([], Exhausted)
    else match LineOf(lines[0], parse)
      case Ignore => ScanLines(lines[1..], parse)
      case Done => ([], DoneSeen)
      case Raise => ([], Raised)
      case Yield(v) =>
        var rest := ScanLines(lines[1..], parse);
        ([v] + rest.0, rest.1)
  }

  /** One chunk: skipped when empty, an exception when it is not UTF-8, else its lines. */
  function DecodeChunk(chunk: Payload, parse: JsonParser): (seq<Json>, ChunkEnd) {
    match chunk
    case Undecodable => ([], Raised)
    case Decoded(text) => if text == "" then ([], Exhausted) else ScanLines(Split(text, '\n'), parse)
  }

  /** Everything the generator yields over the response, in chunk order. */
  function DecodeStream(chunks: seq<Payload>, parse: JsonParser): seq<Json> {
    if chunks == [] then [] else DecodeChunk(chunks[0], parse).0 + DecodeStream(chunks[1..], parse)
  }

  /** How many chunks end in the exception handler (each reports one warning). */
  function Warnings(chunks: seq<Payload>, parse: JsonParser): nat {
    if chunks == [] then 0
    else (if DecodeChunk(chunks[0], parse).1 == Raised then 1 else 0) + Warnings(chunks[1..], parse)
  }

  /**
   * `"".join(st.write_stream(...))`: the concatenation of the fragments
   * when every one is a string; `None` where the join raises `TypeError`.
   */
  function Documentation(fragments: seq<Json>): (r: Option<string>)
    ensures r.Some? <==> forall i :: 0 <= i < |fragments| ==> fragments[i].JString?
  {
    if fragments == [] then Some("")
    else if !fragments[0].JString? then None
    else match Documentation(fragments[1..])
      case None => None
      case Some(rest) => Some(fragments[0].s + rest)
  }

  /**
   * `generate_documentation` over a given response: the fragments it
   * yields and the number of warnings it reports.
   */
  method GenerateDocumentation(chunks: seq<Payload>, parse: JsonParser) returns (fragments: seq<Json>, warnings: nat)
    ensures fragments == DecodeStream(chunks, parse)
    ensures warnings == Warnings(chunks, parse)
  {
    fragments, warnings := [], 0;
    var rest := chunks;
    while rest != []
      invariant DecodeStream(chunks, parse) == fragments + DecodeStream(rest, parse)
      invariant Warnings(chunks, parse) == warnings + Warnings(rest, parse)
    {
      StreamStep(rest, parse);
      var chunk := rest[0];
      var yielded: seq<Json> := [];
      var raised := false;
      if chunk != Decoded("") {
        match chunk {
          case Undecodable =>
            raised := true;
          case Decoded(text) =>
            var end;
            yielded, end := ScanChunk(Split(text, '\n'), parse);
            raised := end == Raised;
        }
      }
      assert yielded == DecodeChunk(chunk, parse).0;
      assert raised == (DecodeChunk(chunk, parse).1 == Raised);
      Regroup(fragments, yielded, DecodeStream(rest[1..], parse));
      fragments := fragments + yielded;
      if raised {
        warnings := warnings + 1;
      }
      rest := rest[1..];
    }
    assert fragments + [] == fragments;
  }

  /** The chunk loop after its first chunk. */
  lemma StreamStep(chunks: seq<Payload>, parse: JsonParser)
    requires chunks != []
    ensures DecodeStream(chunks, parse) == DecodeChunk(chunks[0], parse).0 + DecodeStream(chunks[1..], parse)
    ensures Warnings(chunks, parse)
            == (if DecodeChunk(chunks[0], parse).1 == Raised then 1 else 0) + Warnings(chunks[1..], parse)
  {
  }

  lemma Regroup(a: seq<Json>, b: seq<Json>, c: seq<Json>)
    ensures a + (b + c) == (a + b) + c
  {
  }

  /** The line loop of one chunk, with its `break` at `[DONE]` and its exit by exception. */
  method ScanChunk(lines: seq<string>, parse: JsonParser) returns (yielded: seq<Json>, end: ChunkEnd)
    ensures (yielded, end) == ScanLines(lines, parse)
  {
    yielded, end := [], Exhausted;
    var rest := lines;
    AfterNothing(ScanLines(lines, parse));
    while rest != []
      invariant ScanLines(lines, parse) == After(yielded, ScanLines(rest, parse))
    {
      var step := LineOf(rest[0], parse);
      ScanStep(rest, parse);
      match step {
        case Done =>
          AfterStop(yielded, DoneSeen);
          end := DoneSeen;
          break;
        case Raise =>
          AfterStop(yielded, Raised);
          end := Raised;
          break;
        case Ignore =>
        case Yield(v) =>
          AfterTwice(yielded, [v], ScanLines(rest[1..], parse));
          yielded := yielded + [v];
      }
      rest := rest[1..];
    }
    if end == Exhausted {
      AfterStop(yielded, Exhausted);
    }
  }

  /** The yields so far, followed by what the rest of the loop yields and how it ends. */
  function After(yielded: seq<Json>, rest: (seq<Json>, ChunkEnd)): (seq<Json>, ChunkEnd) {
    (yielded + rest.0, rest.1)
  }

  lemma AfterNothing(r: (seq<Json>, ChunkEnd))
    ensures After([], r) == r
  {
    assert [] + r.0 == r.0;
  }

  lemma AfterStop(yielded: seq<Json>, end: ChunkEnd)
    ensures After(yielded, ([], end)) == (yielded, end)
  {
    assert yielded + [] == yielded;
  }

  lemma AfterTwice(a: seq<Json>, b: seq<Json>, r: (seq<Json>, ChunkEnd))
    ensures After(a, After(b, r)) == After(a + b, r)
  {
    assert a + (b + r.0) == (a + b) + r.0;
  }

  /** The line loop after its first line, by what that line does. */
  lemma ScanStep(lines: seq<string>, parse: JsonParser)
    requires lines != []
    ensures LineOf(lines[0], parse) == Ignore ==> ScanLines(lines, parse) == ScanLines(lines[1..], parse)
    ensures LineOf(lines[0], parse) == Done ==> ScanLines(lines, parse) == ([], DoneSeen)
    ensures LineOf(lines[0], parse) == Raise ==> ScanLines(lines, parse) == ([], Raised)
    ensures LineOf(lines[0], parse).Yield? ==>
              ScanLines(lines, parse) == After([LineOf(lines[0], parse).value], ScanLines(lines[1..], parse))
  {
  }
}
