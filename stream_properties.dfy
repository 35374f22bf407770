/**
 * What the response decoder guarantees: which frames yield what, that
 * only `data: ` lines count, that `[DONE]` and an exception end only the
 * chunk they occur in, that chunks are decoded independently and in
 * order, and that the outcome still depends on where the chunk
 * boundaries fall.
 */
module StreamProperties {
  import opened Wrappers
  import opened Text
  import opened StreamDecoder

  // ---------------------------------------------------------------------
  // Frames

  /** A frame yields `v` exactly when `choices[0].delta.content` is `v` along objects and a non-empty list. */
  lemma FrameContentIff(j: Json, v: Json)
    ensures FrameOf(j) == Content(v) <==> HasContent(j, v)
  {
    if HasContent(j, v) {
      var choices := j.fields["choices"];
      assert PyIn(j, "choices") == Some(true);
      assert PyLen(choices) == Some(|choices.items|);
      var delta := choices.items[0].fields["delta"];
      assert PyIn(delta, "content") == Some(true);
    }
  }

  /** A frame whose `choices` is an empty list (a usage frame) yields nothing and raises nothing. */
  lemma EmptyChoicesYieldNothing(fields: map<string, Json>)
    requires "choices" in fields && fields["choices"] == JArray([])
    ensures FrameOf(JObject(fields)) == NoContent
  {
    assert PyIn(JObject(fields), "choices") == Some(true);
  }

  // ---------------------------------------------------------------------
  // The line loop of one chunk

  /** Running the loop over `a + b`: the loop goes on into `b` only when `a` neither broke nor raised. */
  lemma {:induction false} ScanAppend(a: seq<string>, b: seq<string>, parse: JsonParser)
    ensures ScanLines(a + b, parse)
            == if ScanLines(a, parse).1 == Exhausted then After(ScanLines(a, parse).0, ScanLines(b, parse))
               else ScanLines(a, parse)
  {
    if a == [] {
      assert a + b == b;
      AfterNothing(ScanLines(b, parse));
    } else {
      assert (a + b)[0] == a[0] && (a + b)[1..] == a[1..] + b;
      ScanStep(a, parse);
      ScanStep(a + b, parse);
      ScanAppend(a[1..], b, parse);
      var step := LineOf(a[0], parse);
      if step.Yield? && ScanLines(a[1..], parse).1 == Exhausted {
        AfterTwice([step.value], ScanLines(a[1..], parse).0, ScanLines(b, parse));
      }
    }
  }

  /** The lines of a chunk that start with `data: `, in order. */
  function DataLines(lines: seq<string>): (r: seq<string>)
    ensures forall i :: 0 <= i < |r| ==> StartsWith(r[i], DataPrefix)
  {
    if lines == [] then []
    else if StartsWith(lines[0], DataPrefix) then [lines[0]] + DataLines(lines[1..])
    else DataLines(lines[1..])
  }

  /** Lines that do not start with `data: ` (blank lines, comments, other fields) change nothing. */
  lemma {:induction false} OnlyDataLinesCount(lines: seq<string>, parse: JsonParser)
    ensures ScanLines(lines, parse) == ScanLines(DataLines(lines), parse)
  {
    if lines != [] {
      OnlyDataLinesCount(lines[1..], parse);
      ScanStep(lines, parse);
      if StartsWith(lines[0], DataPrefix) {
        var d := DataLines(lines);
        assert d[0] == lines[0] && d[1..] == DataLines(lines[1..]);
        ScanStep(d, parse);
      }
    }
  }

  /** A stripped `[DONE]` payload ends the chunk's line loop: nothing after it in the chunk is read. */
  lemma DoneEndsChunk(a: seq<string>, line: string, b: seq<string>, parse: JsonParser)
    requires LineOf(line, parse) == Done
    ensures ScanLines(a + [line] + b, parse)
            == if ScanLines(a, parse).1 == Exhausted then (ScanLines(a, parse).0, DoneSeen) else ScanLines(a, parse)
  {
    ScanStep([line] + b, parse);
    StopInside(a, line, b, parse, DoneSeen);
  }

  /** A line that raises abandons the rest of its chunk; what was yielded before it stands. */
  lemma RaiseEndsChunk(a: seq<string>, line: string, b: seq<string>, parse: JsonParser)
    requires LineOf(line, parse) == Raise
    ensures ScanLines(a + [line] + b, parse)
            == if ScanLines(a, parse).1 == Exhausted then (ScanLines(a, parse).0, Raised) else ScanLines(a, parse)
  {
    ScanStep([line] + b, parse);
    StopInside(a, line, b, parse, Raised);
  }

  /** A line whose remaining loop stops at once ends the loop over the whole chunk there. */
  lemma StopInside(a: seq<string>, line: string, b: seq<string>, parse: JsonParser, end: ChunkEnd)
    requires ScanLines([line] + b, parse) == ([], end)
    ensures ScanLines(a + [line] + b, parse)
            == if ScanLines(a, parse).1 == Exhausted then (ScanLines(a, parse).0, end) else ScanLines(a, parse)
  {
    assert a + [line] + b == a + ([line] + b);
    ScanAppend(a, [line] + b, parse);
    AfterStop(ScanLines(a, parse).0, end);
  }

  /** `data: [DONE]` is the sentinel whatever whitespace surrounds `[DONE]`. */
  lemma DoneLine(w: string, parse: JsonParser)
    requires forall i :: 0 <= i < |w| ==> IsSpace(w[i])
    ensures LineOf(DataPrefix + w + DoneSentinel, parse) == Done
  {
    var line := DataPrefix + w + DoneSentinel;
    assert line[..|DataPrefix|] == DataPrefix;
    assert line[|DataPrefix|..] == w + DoneSentinel;
    StripDone(w);
  }

  lemma StripDone(w: string)
    requires forall i :: 0 <= i < |w| ==> IsSpace(w[i])
    ensures Strip(w + DoneSentinel) == DoneSentinel
  {
    StripLeading(w, DoneSentinel);
    DoneSentinelClean();
  }

  lemma DoneSentinelClean()
    ensures Strip(DoneSentinel) == DoneSentinel
  {
    assert DoneSentinel[0] == '[' && DoneSentinel[5] == ']';
    StripClean(DoneSentinel);
  }

  // ---------------------------------------------------------------------
  // The chunk loop

  /** Chunks are decoded one after another, each on its own: the stream of `a + b` is that of `a`, then that of `b`. */
  lemma {:induction false} DecodeStreamAppend(a: seq<Payload>, b: seq<Payload>, parse: JsonParser)
    ensures DecodeStream(a + b, parse) == DecodeStream(a, parse) + DecodeStream(b, parse)
  {
    if a == [] {
      assert a + b == b;
      assert [] + DecodeStream(b, parse) == DecodeStream(b, parse);
    } else {
      assert (a + b)[0] == a[0] && (a + b)[1..] == a[1..] + b;
      DecodeStreamAppend(a[1..], b, parse);
      StreamStep(a + b, parse);
      StreamStep(a, parse);
      Regroup(DecodeChunk(a[0], parse).0, DecodeStream(a[1..], parse), DecodeStream(b, parse));
    }
  }

  /** Warnings add up over chunks the same way. */
  lemma {:induction false} WarningsAppend(a: seq<Payload>, b: seq<Payload>, parse: JsonParser)
    ensures Warnings(a + b, parse) == Warnings(a, parse) + Warnings(b, parse)
  {
    if a == [] {
      assert a + b == b;
    } else {
      assert (a + b)[0] == a[0] && (a + b)[1..] == a[1..] + b;
      WarningsAppend(a[1..], b, parse);
    }
  }

  /** `[DONE]` does not halt the stream: a chunk that holds only the sentinel changes nothing for the chunks after it. */
  lemma DoneChunkDoesNotHalt(rest: seq<Payload>, parse: JsonParser)
    ensures DecodeStream([Decoded(DataPrefix + DoneSentinel)] + rest, parse) == DecodeStream(rest, parse)
  {
    var line := DataPrefix + DoneSentinel;
    DoneChunkYieldsNothing(parse);
    DecodeStreamAppend([Decoded(line)], rest, parse);
    assert [] + DecodeStream(rest, parse) == DecodeStream(rest, parse);
  }

  lemma DoneChunkYieldsNothing(parse: JsonParser)
    ensures DecodeStream([Decoded(DataPrefix + DoneSentinel)], parse) == []
  {
    SentinelLine(parse);
    SentinelUnbroken();
    DoneChunk(DataPrefix + DoneSentinel, parse);
  }

  lemma SentinelLine(parse: JsonParser)
    ensures LineOf(DataPrefix + DoneSentinel, parse) == Done
  {
    DoneLine("", parse);
    NothingBetween(DataPrefix, DoneSentinel);
  }

  lemma NothingBetween(a: string, b: string)
    ensures a + "" + b == a + b
  {
    assert a + "" == a;
  }

  lemma SentinelUnbroken()
    ensures '\n' !in DataPrefix + DoneSentinel
  {
    NoBreakIn(DataPrefix, DoneSentinel);
  }

  /** A one-line chunk whose line is the sentinel yields nothing. */
  lemma DoneChunk(line: string, parse: JsonParser)
    requires '\n' !in line && LineOf(line, parse) == Done
    ensures DecodeStream([Decoded(line)], parse) == []
  {
    OneLineChunk(line, parse);
    ScanStep([line], parse);
  }

  /** An undecodable chunk yields nothing, warns once, and the chunks after it are decoded as usual. */
  lemma UndecodableChunkSkipped(rest: seq<Payload>, parse: JsonParser)
    ensures DecodeStream([Undecodable] + rest, parse) == DecodeStream(rest, parse)
    ensures Warnings([Undecodable] + rest, parse) == 1 + Warnings(rest, parse)
  {
    assert ([Undecodable] + rest)[0] == Undecodable && ([Undecodable] + rest)[1..] == rest;
  }

  /** The frame `{"choices": [{"delta": {"content": v}}]}`. */
  function ContentFrame(v: Json): Json {
    JObject(map["choices" := JArray([JObject(map["delta" := JObject(map["content" := v])])])])
  }

  /**
   * No partial line is carried from one chunk to the next: the same bytes
   * yield the fragment in one chunk and nothing when the chunk boundary
   * falls inside `data: `.
   */
  lemma ChunkBoundariesMatter(payload: string, v: Json, parse: JsonParser)
    requires parse(payload) == Some(ContentFrame(v))
    requires '\n' !in payload && Strip(payload) != DoneSentinel
    ensures DecodeStream([Decoded(DataPrefix + payload)], parse) == [v]
    ensures DecodeStream([Decoded("dat"), Decoded("a: " + payload)], parse) == []
  {
    var whole := DataPrefix + payload;
    ContentLine(payload, v, parse);
    NoBreakIn(DataPrefix, payload);
    SingleLineChunk(whole, v, parse);
    var tail := "a: " + payload;
    NoBreakIn("a: ", payload);
    assert tail[0] != DataPrefix[0];
    IgnoredChunk("dat", parse);
    IgnoredChunk(tail, parse);
    DecodeStreamAppend([Decoded("dat")], [Decoded(tail)], parse);
  }

  /** A `data: ` line whose payload parses to a content frame yields its content. */
  lemma ContentLine(payload: string, v: Json, parse: JsonParser)
    requires parse(payload) == Some(ContentFrame(v)) && Strip(payload) != DoneSentinel
    ensures LineOf(DataPrefix + payload, parse) == Yield(v)
  {
    var whole := DataPrefix + payload;
    assert whole[..|DataPrefix|] == DataPrefix && whole[|DataPrefix|..] == payload;
    FrameContentIff(ContentFrame(v), v);
  }

  lemma NoBreakIn(a: string, b: string)
    requires '\n' !in a && '\n' !in b
    ensures '\n' !in a + b
  {
    assert forall i :: 0 <= i < |a + b| ==> (a + b)[i] == (if i < |a| then a[i] else b[i - |a|]);
  }

  /** A one-line chunk whose line yields `v` yields just `v`. */
  lemma SingleLineChunk(line: string, v: Json, parse: JsonParser)
    requires '\n' !in line && LineOf(line, parse) == Yield(v)
    ensures DecodeStream([Decoded(line)], parse) == [v]
  {
    OneLineChunk(line, parse);
    ScanStep([line], parse);
    assert [line][1..] == [];
    assert [v] + [] == [v];
  }

  /** A non-empty chunk without a line break is one line. */
  lemma OneLineChunk(line: string, parse: JsonParser)
    requires '\n' !in line && line != ""
    ensures DecodeStream([Decoded(line)], parse) == ScanLines([line], parse).0
  {
    SplitNone(line, '\n');
    StreamStep([Decoded(line)], parse);
    assert [Decoded(line)][1..] == [];
    assert ScanLines([line], parse).0 + [] == ScanLines([line], parse).0;
  }

  /** A one-line chunk whose line does not start with `data: ` yields nothing. */
  lemma IgnoredChunk(line: string, parse: JsonParser)
    requires '\n' !in line && line != "" && !StartsWith(line, DataPrefix)
    ensures DecodeStream([Decoded(line)], parse) == []
  {
    OneLineChunk(line, parse);
    ScanStep([line], parse);
    assert [line][1..] == [];
  }

  // ---------------------------------------------------------------------
  // The documentation the caller assembles

  /** Joining the fragments of two stretches of the stream is joining each and concatenating. */
  lemma {:induction false} DocumentationAppend(a: seq<Json>, b: seq<Json>)
    ensures Documentation(a + b)
            == if Documentation(a).Some? && Documentation(b).Some? then Some(Documentation(a).value + Documentation(b).value)
               else None
  {
    if a == [] {
      assert a + b == b;
      if Documentation(b).Some? {
        assert "" + Documentation(b).value == Documentation(b).value;
      }
    } else {
      assert (a + b)[0] == a[0] && (a + b)[1..] == a[1..] + b;
      DocumentationAppend(a[1..], b);
      if Documentation(a).Some? && Documentation(b).Some? {
        assert a[0].s + (Documentation(a[1..]).value + Documentation(b).value)
               == (a[0].s + Documentation(a[1..]).value) + Documentation(b).value;
      }
    }
  }

  /** The documentation of a stream is the documentation of its chunks, concatenated in chunk order. */
  lemma StreamDocumentation(a: seq<Payload>, b: seq<Payload>, parse: JsonParser)
    ensures Documentation(DecodeStream(a + b, parse))
            == if Documentation(DecodeStream(a, parse)).Some? && Documentation(DecodeStream(b, parse)).Some?
               then Some(Documentation(DecodeStream(a, parse)).value + Documentation(DecodeStream(b, parse)).value)
               else None
  {
    DecodeStreamAppend(a, b, parse);
    DocumentationAppend(DecodeStream(a, parse), DecodeStream(b, parse));
  }
}
