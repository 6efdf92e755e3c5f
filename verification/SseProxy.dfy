/** The line loop that forwards an event stream, and what it does to the events. */
module SseProxy {
  import opened GoStrings
  import opened Sequences
  import opened EventStream

  /** A transform may keep state between payloads and may fail; none is given when
      payloads are forwarded as they are. */
  type Transform<!S> = Option<(S, string) -> (S, Option<string>)>

  function RunTransform<S>(t: Transform<S>, s: S, payload: string): (S, Option<string>) {
    match t
    case None => (s, Some(payload))
    case Some(f) => f(s, payload)
  }

  const PREFIX := "data: "

  /** The line that carries a payload in the form the proxy looks for. */
  predicate IsPayload(line: string) {
    PREFIX <= line
  }

  lemma PayloadIsData(payload: string)
    ensures var line := PREFIX + payload;
      && IsPayload(line) && IsDataField(line)
      && FieldValue(line) == payload
      && line[|PREFIX|..] == payload
  {
    hide Index;
    var line := PREFIX + payload;
    assert line[4..5] == ":";
    assert OccursAt(line, ":", 4);
    forall j | 0 <= j < 4 ensures !OccursAt(line, ":", j) {
      assert line[j..j + 1][0] == PREFIX[j];
    }
    assert Index(line, ":") == Some(4);
    assert line[..4] == "data";
    assert line[5..] == " " + payload;
  }

  lemma PayloadLine(line: string)
    requires IsPayload(line)
    ensures IsDataField(line) && line == PREFIX + line[|PREFIX|..] && line != ""
  {
    assert line == PREFIX + line[|PREFIX|..];
    PayloadIsData(line[|PREFIX|..]);
  }

  const DONE := "[DONE]"

  /** The lines written for the lines read. */
  function ProxyLines<S>(lines: seq<string>, t: Transform<S>, s: S): seq<string>
    decreases |lines|
  {
    if lines == [] then []
    else if !IsPayload(lines[0]) then [lines[0]] + ProxyLines(lines[1..], t, s)
    else
      var payload := lines[0][|PREFIX|..];
      if payload == DONE then [PREFIX + DONE, ""]
      else
        var (s', r) := RunTransform(t, s, payload);
        (if r.Some? then [PREFIX + r.value, ""] else []) + ProxyLines(lines[1..], t, s')
  }

  /** The payloads that the chunk callback sees. */
  function SentChunks<S>(lines: seq<string>, t: Transform<S>, s: S): seq<string>
    decreases |lines|
  {
    if lines == [] then []
    else if !IsPayload(lines[0]) then SentChunks(lines[1..], t, s)
    else if lines[0][|PREFIX|..] == DONE then []
    else
      var (s', r) := RunTransform(t, s, lines[0][|PREFIX|..]);
      (if r.Some? then [r.value] else []) + SentChunks(lines[1..], t, s')
  }

  /** The payloads of the payload lines among some lines. */
  function Payloads(lines: seq<string>): seq<string> {
    if lines == [] then []
    else (if "data: " <= lines[0] then [lines[0][|"data: "|..]] else []) + Payloads(lines[1..])
  }

  lemma PayloadsOne(line: string, rest: seq<string>)
    ensures Payloads([line] + rest) == (if IsPayload(line) then [line[|PREFIX|..]] else []) + Payloads(rest)
  {
    assert ([line] + rest)[1..] == rest;
  }

  lemma PayloadsTwo(payload: string, rest: seq<string>)
    ensures Payloads([PREFIX + payload, ""] + rest) == [payload] + Payloads(rest)
  {
    var line := PREFIX + payload;
    assert [line, ""] + rest == [line] + ([""] + rest);
    PayloadsOne(line, [""] + rest);
    PayloadsOne("", rest);
    assert IsPayload(line) && line[|PREFIX|..] == payload;
    Nil(Payloads(rest));
  }

  /** The callback sees the payloads of the lines written, in order, but for the end
      marker's. */
  lemma {:induction false} ChunksAreWritten<S>(lines: seq<string>, t: Transform<S>, s: S)
    ensures Payloads(ProxyLines(lines, t, s))
      == SentChunks(lines, t, s) + (if "data: [DONE]" in lines then ["[DONE]"] else [])
    decreases |lines|
  {
    hide RunTransform, Payloads;
    if lines == [] {
      NoPayloads();
    } else {
      var line, rest := lines[0], lines[1..];
      assert lines == [line] + rest;
      var end: seq<string> := if "data: [DONE]" in rest then ["[DONE]"] else [];
      if !IsPayload(line) {
        PayloadsOne(line, ProxyLines(rest, t, s));
        ChunksAreWritten(rest, t, s);
        Nil(Payloads(ProxyLines(rest, t, s)));
      } else {
        var payload := line[|PREFIX|..];
        assert line == PREFIX + payload;
        assert PREFIX + DONE == "data: [DONE]";
        if payload == DONE {
          PayloadsTwo(DONE, []);
          NoPayloads();
          Nil([PREFIX + DONE, ""]);
          Nil([DONE]);
          assert line == "data: [DONE]" && line in lines;
          assert ProxyLines(lines, t, s) == [PREFIX + DONE, ""] && SentChunks(lines, t, s) == [];
        } else {
          var (s', r) := RunTransform(t, s, payload);
          ChunksAreWritten(rest, t, s');
          Nil(ProxyLines(rest, t, s'));
          Nil(SentChunks(rest, t, s'));
          if r.Some? {
            PayloadsTwo(r.value, ProxyLines(rest, t, s'));
            Assoc([r.value], SentChunks(rest, t, s'), end);
          }
        }
      }
    }
  }

  lemma NoPayloads()
    ensures Payloads([]) == []
  {
  }

  /** `proxySSEStream`: `written` is all that was sent, `chunks` what the callback saw. */
  method ProxySSEStream<S>(lines: seq<string>, t: Transform<S>, start: S) returns (written: string, chunks: seq<string>)
    ensures written == Unlines(ProxyLines(lines, t, start))
    ensures chunks == SentChunks(lines, t, start)
    ensures Payloads(ProxyLines(lines, t, start)) == chunks + (if "data: [DONE]" in lines then ["[DONE]"] else [])
  {
    hide RunTransform, Unlines, Payloads;
    ChunksAreWritten(lines, t, start);
    UnlinesNothing();
    written, chunks := "", [];
    var s := start;
    ghost var sent: seq<string> := [];
    assert lines[0..] == lines;
    assert sent + ProxyLines(lines, t, s) == ProxyLines(lines, t, s);
    assert chunks + SentChunks(lines, t, s) == SentChunks(lines, t, s);
    for i := 0 to |lines|
      invariant written == Unlines(sent)
      invariant ProxyLines(lines, t, start) == sent + ProxyLines(lines[i..], t, s)
      invariant SentChunks(lines, t, start) == chunks + SentChunks(lines[i..], t, s)
    {
      var line := lines[i];
      assert lines[i..][1..] == lines[i + 1..];
      if !IsPayload(line) {
        written := written + line + "\n";
        UnlinesOfOne(sent, line);
        Assoc(sent, [line], ProxyLines(lines[i + 1..], t, s));
        sent := sent + [line];
        continue;
      }
      var data := line[|PREFIX|..];
      if data == DONE {
        written := written + PREFIX + DONE + "\n\n";
        UnlinesOfTwo(sent, DONE);
        assert chunks + [] == chunks;
        return;
      }
      var (s', r) := RunTransform(t, s, data);
      s := s';
      if r.None? {
        assert [] + ProxyLines(lines[i + 1..], t, s) == ProxyLines(lines[i + 1..], t, s);
        assert [] + SentChunks(lines[i + 1..], t, s) == SentChunks(lines[i + 1..], t, s);
        continue;
      }
      written := written + PREFIX + r.value + "\n\n";
      UnlinesOfTwo(sent, r.value);
      Assoc(sent, [PREFIX + r.value, ""], ProxyLines(lines[i + 1..], t, s));
      Assoc(chunks, [r.value], SentChunks(lines[i + 1..], t, s));
      sent := sent + [PREFIX + r.value, ""];
      chunks := chunks + [r.value];
    }
    assert lines[|lines|..] == [];
    assert sent + [] == sent && chunks + [] == chunks;
  }

  lemma UnlinesNothing()
    ensures Unlines([]) == ""
  {
  }

  lemma UnlinesOfOne(sent: seq<string>, line: string)
    ensures Unlines(sent + [line]) == Unlines(sent) + line + "\n"
  {
    UnlinesAppend(sent, [line]);
    assert Unlines([line]) == line + "\n" + Unlines([]);
  }

  lemma UnlinesOfTwo(sent: seq<string>, payload: string)
    ensures Unlines(sent + [PREFIX + payload, ""]) == Unlines(sent) + PREFIX + payload + "\n\n"
  {
    var two := [PREFIX + payload, ""];
    UnlinesAppend(sent, two);
    assert two[1..] == [""];
    assert Unlines([""]) == "" + "\n" + Unlines([]);
    assert Unlines(two) == PREFIX + payload + "\n" + Unlines([""]);
  }

  // ------------------------------------------------------------ event meaning

  /** One event of a stream: field lines, then at most one payload line. */
  datatype Block = Block(fields: seq<string>, payload: Option<string>)

  ghost predicate BlockOk(b: Block) {
    forall i :: 0 <= i < |b.fields| ==> b.fields[i] != "" && !IsDataField(b.fields[i])
  }

  function BlockLines(b: Block): seq<string> {
    b.fields + (if b.payload.Some? then [PREFIX + b.payload.value] else []) + [""]
  }

  function StreamLines(blocks: seq<Block>): seq<string> {
    if blocks == [] then [] else BlockLines(blocks[0]) + StreamLines(blocks[1..])
  }

  /** The events the client should see: each payload transformed, an event left out
      when its transform fails, and nothing after the end marker. */
  function MapEvents<S>(events: seq<Event>, t: Transform<S>, s: S): seq<Event>
    decreases |events|
  {
    if events == [] then []
    else if events[0].data == DONE then [events[0]]
    else
      var (s', r) := RunTransform(t, s, events[0].data);
      (if r.Some? then [events[0].(data := r.value)] else []) + MapEvents(events[1..], t, s')
  }

  /** Lines that are no payload pass unchanged. */
  lemma {:induction false} OthersPass<S>(fields: seq<string>, rest: seq<string>, t: Transform<S>, s: S)
    requires forall i :: 0 <= i < |fields| ==> !IsPayload(fields[i])
    ensures ProxyLines(fields + rest, t, s) == fields + ProxyLines(rest, t, s)
    decreases |fields|
  {
    if fields == [] {
      assert fields + rest == rest;
      assert fields + ProxyLines(rest, t, s) == ProxyLines(rest, t, s);
    } else {
      OthersPass(fields[1..], rest, t, s);
      assert (fields + rest)[0] == fields[0] && (fields + rest)[1..] == fields[1..] + rest;
      assert [fields[0]] + (fields[1..] + ProxyLines(rest, t, s)) == fields + ProxyLines(rest, t, s);
    }
  }

  /** Field lines make no events and no data. */
  lemma {:induction false} FieldsAreQuiet(p: Parser, fields: seq<string>)
    requires forall i :: 0 <= i < |fields| ==> fields[i] != "" && !IsDataField(fields[i])
    ensures var r := ParseLines(p, fields);
      r.events == [] && r.parser.data == p.data
    decreases |fields|
  {
    hide FieldName, FieldValue;
    if fields != [] {
      assert fields[0] != "" && !IsDataField(fields[0]);
      FieldsAreQuiet(ParseLine(p, fields[0]).parser, fields[1..]);
    }
  }

  /** Fields, a payload line and a blank line dispatch one event with that payload. */
  lemma PayloadDispatches(p: Parser, fields: seq<string>, payload: string)
    requires p.data == ""
    requires forall i :: 0 <= i < |fields| ==> fields[i] != "" && !IsDataField(fields[i])
    ensures var q := ParseLines(p, fields).parser;
      ParseLines(p, fields + [PREFIX + payload, ""])
        == Parsed(Parser("", "", q.id), [Event(if q.eventType == "" then "message" else q.eventType, payload, q.id)])
  {
    hide FieldName, FieldValue, IsDataField;
    FieldsAreQuiet(p, fields);
    var q := ParseLines(p, fields).parser;
    ParseAppend(p, fields, [PREFIX + payload, ""]);
    TwoLines(q, payload);
  }

  lemma TwoLines(q: Parser, payload: string)
    requires q.data == ""
    ensures ParseLines(q, [PREFIX + payload, ""])
      == Parsed(Parser("", "", q.id), [Event(if q.eventType == "" then "message" else q.eventType, payload, q.id)])
  {
    hide FieldValue, FieldName;
    var line := PREFIX + payload;
    PayloadIsData(payload);
    var q1 := q.(data := payload + "\n");
    assert "" + payload + "\n" == payload + "\n";
    assert ParseLine(q, line) == Parsed(q1, []);
    assert [line, ""][1..] == [""] && [""][1..] == [];
    assert ParseLines(q1, [""]) == Dispatch(q1).(events := Dispatch(q1).events + []);
    assert (payload + "\n")[..|payload|] == payload;
  }

  /** Fields and a blank line alone dispatch nothing. */
  lemma NoPayloadNoEvent(p: Parser, fields: seq<string>)
    requires p.data == ""
    requires forall i :: 0 <= i < |fields| ==> fields[i] != "" && !IsDataField(fields[i])
    ensures ParseLines(p, fields + [""]) == Parsed(Parser("", "", ParseLines(p, fields).parser.id), [])
  {
    hide FieldName, FieldValue, IsDataField;
    FieldsAreQuiet(p, fields);
    ParseAppend(p, fields, [""]);
    var q := ParseLines(p, fields).parser;
    assert ParseLines(q, [""]) == Dispatch(q).(events := Dispatch(q).events + []) by { assert [""][1..] == []; }
  }

  lemma BlankLine(id: string, rest: seq<string>)
    ensures ParseLines(Parser("", "", id), [""] + rest) == ParseLines(Parser("", "", id), rest)
  {
    assert ([""] + rest)[1..] == rest;
    var r := ParseLines(Parser("", "", id), rest);
    assert [] + r.events == r.events;
  }

  /** What the proxy makes of one block and the rest of the stream. */
  lemma ProxyBlock<S>(b: Block, rest: seq<string>, t: Transform<S>, s: S)
    requires BlockOk(b)
    ensures ProxyLines(BlockLines(b) + rest, t, s) ==
      match b.payload
      case None => b.fields + [""] + ProxyLines(rest, t, s)
      case Some(d) =>
        if d == DONE then b.fields + [PREFIX + DONE, ""]
        else
          var (s', r) := RunTransform(t, s, d);
          b.fields + (if r.Some? then [PREFIX + r.value, ""] else []) + ([""] + ProxyLines(rest, t, s'))
  {
    hide RunTransform;
    forall i | 0 <= i < |b.fields| ensures !IsPayload(b.fields[i]) {
      if IsPayload(b.fields[i]) { PayloadLine(b.fields[i]); }
    }
    match b.payload
    case None =>
      assert BlockLines(b) + rest == b.fields + ([""] + rest);
      OthersPass(b.fields, [""] + rest, t, s);
      assert ([""] + rest)[1..] == rest;
      assert ProxyLines([""] + rest, t, s) == [""] + ProxyLines(rest, t, s);
      Assoc(b.fields, [""], ProxyLines(rest, t, s));
    case Some(d) =>
      var tail := [PREFIX + d] + ([""] + rest);
      assert BlockLines(b) + rest == b.fields + tail;
      OthersPass(b.fields, tail, t, s);
      PayloadIsData(d);
      assert tail[0] == PREFIX + d && tail[1..] == [""] + rest;
      if d != DONE {
        var (s', r) := RunTransform(t, s, d);
        assert ([""] + rest)[1..] == rest;
        assert ProxyLines([""] + rest, t, s') == [""] + ProxyLines(rest, t, s');
        Assoc(b.fields, if r.Some? then [PREFIX + r.value, ""] else [], [""] + ProxyLines(rest, t, s'));
      }
  }

  /** The event a block dispatches after its fields have led to parser state `q`. */
  function BlockEvent(q: Parser, payload: string): Event {
    Event(if q.eventType == "" then "message" else q.eventType, payload, q.id)
  }

  /** Events of one block and what follows, as the upstream meant them. */
  lemma BlockIn(id: string, b: Block, rest: seq<string>)
    requires BlockOk(b)
    ensures var p := Parser("", "", id);
      var q := ParseLines(p, b.fields).parser;
      ParseLines(p, BlockLines(b) + rest).events
        == (if b.payload.Some? then [BlockEvent(q, b.payload.value)] else []) + ParseLines(Parser("", "", q.id), rest).events
  {
    hide IsDataField, ParseLines;
    var p := Parser("", "", id);
    ParseAppend(p, BlockLines(b), rest);
    match b.payload
    case None =>
      assert b.fields + [] + [""] == b.fields + [""];
      NoPayloadNoEvent(p, b.fields);
    case Some(d) =>
      assert b.fields + [PREFIX + d] + [""] == b.fields + [PREFIX + d, ""];
      PayloadDispatches(p, b.fields, d);
  }

  /** The same lines as the client sees them when the payload is `sent`, or dropped. */
  lemma BlockOut(id: string, b: Block, sent: Option<string>, blanks: seq<string>, rest: seq<string>)
    requires BlockOk(b) && (blanks == [""] || (sent.Some? && blanks == []))
    ensures var p := Parser("", "", id);
      var q := ParseLines(p, b.fields).parser;
      ParseLines(p, b.fields + (if sent.Some? then [PREFIX + sent.value, ""] else []) + (blanks + rest)).events
        == (if sent.Some? then [BlockEvent(q, sent.value)] else []) + ParseLines(Parser("", "", q.id), rest).events
  {
    hide IsDataField, ParseLines;
    var p := Parser("", "", id);
    var q := ParseLines(p, b.fields).parser;
    match sent
    case None =>
      assert b.fields + [] + ([""] + rest) == b.fields + [""] + rest;
      ParseAppend(p, b.fields + [""], rest);
      NoPayloadNoEvent(p, b.fields);
    case Some(x) =>
      var head := b.fields + [PREFIX + x, ""];
      ParseAppend(p, head, blanks + rest);
      PayloadDispatches(p, b.fields, x);
      if blanks == [""] { BlankLine(q.id, rest); } else { assert blanks + rest == rest; }
  }

  /** Mapping the events of a block and of what follows. */
  lemma MapOne<S>(e: Event, rest: seq<Event>, t: Transform<S>, s: S)
    ensures MapEvents([e] + rest, t, s) ==
      if e.data == DONE then [e]
      else
        var (s', r) := RunTransform(t, s, e.data);
        (if r.Some? then [e.(data := r.value)] else []) + MapEvents(rest, t, s')
  {
    hide RunTransform;
    assert ([e] + rest)[1..] == rest;
  }

  /** One block's worth of the theorem, for a block without payload. */
  lemma QuietBlockKeepsMeaning<S>(id: string, b: Block, rest: seq<string>, t: Transform<S>, s: S)
    requires BlockOk(b) && b.payload.None?
    requires var q := Parser("", "", ParseLines(Parser("", "", id), b.fields).parser.id);
      ParseLines(q, ProxyLines(rest, t, s)).events == MapEvents(ParseLines(q, rest).events, t, s)
    ensures var p := Parser("", "", id);
      ParseLines(p, ProxyLines(BlockLines(b) + rest, t, s)).events == MapEvents(ParseLines(p, BlockLines(b) + rest).events, t, s)
  {
    hide *;
    var p := Parser("", "", id);
    var q := Parser("", "", ParseLines(p, b.fields).parser.id);
    var out := ProxyLines(rest, t, s);
    BlockIn(id, b, rest);
    Nil(ParseLines(q, rest).events);
    ProxyBlock(b, rest, t, s);
    BlockOut(id, b, None, [""], out);
    Nil(ParseLines(q, out).events);
    Nil(b.fields);
    Assoc(b.fields, [""], out);
  }

  /** The same for a block whose payload ends the stream. */
  lemma LastBlockKeepsMeaning<S>(id: string, b: Block, rest: seq<string>, t: Transform<S>, s: S)
    requires BlockOk(b) && b.payload == Some(DONE)
    ensures var p := Parser("", "", id);
      ParseLines(p, ProxyLines(BlockLines(b) + rest, t, s)).events == MapEvents(ParseLines(p, BlockLines(b) + rest).events, t, s)
  {
    hide RunTransform, ProxyLines, BlockOk, ParseLine, BlockLines, ParseLines, MapEvents;
    var p := Parser("", "", id);
    var q := ParseLines(p, b.fields).parser;
    BlockIn(id, b, rest);
    ProxyBlock(b, rest, t, s);
    MapOne(BlockEvent(q, DONE), ParseLines(Parser("", "", q.id), rest).events, t, s);
    BlockOut(id, b, Some(DONE), [], []);
    NothingParsed(Parser("", "", q.id));
    Nil([BlockEvent(q, DONE)]);
    Nil<string>([]);
    Nil(b.fields + [PREFIX + DONE, ""]);
  }

  /** The same for a block whose payload is transformed. */
  lemma DataBlockKeepsMeaning<S>(id: string, b: Block, rest: seq<string>, t: Transform<S>, s: S)
    requires BlockOk(b) && b.payload.Some? && b.payload.value != DONE
    requires
      var q := Parser("", "", ParseLines(Parser("", "", id), b.fields).parser.id);
      var s' := RunTransform(t, s, b.payload.value).0;
      ParseLines(q, ProxyLines(rest, t, s')).events == MapEvents(ParseLines(q, rest).events, t, s')
    ensures var p := Parser("", "", id);
      ParseLines(p, ProxyLines(BlockLines(b) + rest, t, s)).events == MapEvents(ParseLines(p, BlockLines(b) + rest).events, t, s)
  {
    hide RunTransform, ProxyLines, BlockOk, ParseLine, BlockLines, ParseLines, MapEvents;
    var p := Parser("", "", id);
    var q := ParseLines(p, b.fields).parser;
    var (s', r) := RunTransform(t, s, b.payload.value);
    BlockIn(id, b, rest);
    ProxyBlock(b, rest, t, s);
    MapOne(BlockEvent(q, b.payload.value), ParseLines(Parser("", "", q.id), rest).events, t, s);
    BlockOut(id, b, r, [""], ProxyLines(rest, t, s'));
  }

  lemma {:induction false} BlocksKeepMeaning<S>(id: string, blocks: seq<Block>, t: Transform<S>, s: S)
    requires forall i :: 0 <= i < |blocks| ==> BlockOk(blocks[i])
    ensures var p := Parser("", "", id);
      ParseLines(p, ProxyLines(StreamLines(blocks), t, s)).events == MapEvents(ParseLines(p, StreamLines(blocks)).events, t, s)
    decreases |blocks|
  {
    hide RunTransform, ProxyLines, BlockOk, ParseLine, BlockLines;
    if blocks == [] {
      NothingProxied(t, s);
    } else {
      hide ParseLines, MapEvents;
      var b, rest := blocks[0], StreamLines(blocks[1..]);
      var q := ParseLines(Parser("", "", id), b.fields).parser;
      if b.payload.None? {
        BlocksKeepMeaning(q.id, blocks[1..], t, s);
        QuietBlockKeepsMeaning(id, b, rest, t, s);
      } else if b.payload.value == DONE {
        LastBlockKeepsMeaning(id, b, rest, t, s);
      } else {
        BlocksKeepMeaning(q.id, blocks[1..], t, RunTransform(t, s, b.payload.value).0);
        DataBlockKeepsMeaning(id, b, rest, t, s);
      }
    }
  }

  lemma NothingParsed(p: Parser)
    ensures ParseLines(p, []).events == []
  {
  }

  lemma NothingProxied<S>(t: Transform<S>, s: S)
    ensures ProxyLines([], t, s) == []
  {
  }

  ghost predicate OneLineEach(lines: seq<string>) {
    forall i :: 0 <= i < |lines| ==> OneLine(lines[i])
  }

  lemma {:induction false} ProxyWritesLines<S>(lines: seq<string>, t: Transform<S>, s: S)
    requires OneLineEach(lines) && OneLineEach(SentChunks(lines, t, s))
    ensures OneLineEach(ProxyLines(lines, t, s))
    decreases |lines|
  {
    hide RunTransform;
    if lines != [] {
      assert OneLineEach(lines[1..]);
      if !IsPayload(lines[0]) {
        ProxyWritesLines(lines[1..], t, s);
      } else if lines[0][|PREFIX|..] != DONE {
        var (s', r) := RunTransform(t, s, lines[0][|PREFIX|..]);
        var chunks := SentChunks(lines, t, s);
        var first := if r.Some? then [r.value] else [];
        var rest := SentChunks(lines[1..], t, s');
        assert chunks == first + rest;
        assert rest == chunks[|first|..];
        if r.Some? { assert chunks[0] == r.value; }
        ProxyWritesLines(lines[1..], t, s');
      }
    }
  }

  /** Event meaning is preserved: for a stream of complete events, each with at most
      one payload line, placed last, and no other data field, the events in the text
      sent are the upstream's events with their payloads transformed, without those
      whose transform failed, up to and including the first end marker. What the
      transform makes of a payload must be one line, as encoded JSON is. */
  lemma MeaningPreserved<S>(blocks: seq<Block>, t: Transform<S>, start: S)
    requires forall i :: 0 <= i < |blocks| ==> BlockOk(blocks[i])
    requires OneLineEach(StreamLines(blocks)) && OneLineEach(SentChunks(StreamLines(blocks), t, start))
    ensures Events(Lines(Unlines(ProxyLines(StreamLines(blocks), t, start)))) == MapEvents(Events(StreamLines(blocks)), t, start)
  {
    hide RunTransform, ProxyLines, SentChunks, ParseLines, StreamLines;
    ProxyWritesLines(StreamLines(blocks), t, start);
    LinesOfUnlines(ProxyLines(StreamLines(blocks), t, start));
    BlocksKeepMeaning("", blocks, t, start);
  }
}
