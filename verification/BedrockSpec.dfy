/** What the Bedrock stream handler sends for a list of upstream events, as
    functions on parsed JSON, and what that preserves. */
module BedrockSpec {
  import opened GoStrings
  import opened Reasoning
  import opened ReasoningGrammar

  datatype Json =
    | Null
    | Bool(b: bool)
    | Num(n: real)
    | Str(s: string)
    | Arr(items: seq<Json>)
    | Obj(fields: map<string, Json>)

  type Fields = map<string, Json>

  /** A missing key reads as null, as in a Go map of `any`. */
  function Field(o: Fields, key: string): Json {
    if key in o then o[key] else Null
  }

  function Choices(raw: Fields): seq<Json> {
    var c := Field(raw, "choices");
    if c.Arr? then c.items else []
  }

  /** The content string of one choice, if it has one. */
  function ContentOf(choice: Json): Option<string> {
    if !choice.Obj? then None
    else
      var delta := Field(choice.fields, "delta");
      if !delta.Obj? then None
      else
        var content := Field(delta.fields, "content");
        if content.Str? then Some(content.s) else None
  }

  function WithContent(choice: Json, s: string): Json
    requires ContentOf(choice).Some?
  {
    var delta := choice.fields["delta"];
    Obj(choice.fields["delta" := Obj(delta.fields["content" := Str(s)])])
  }

  lemma WithContentContent(choice: Json, s: string)
    requires ContentOf(choice).Some?
    ensures ContentOf(WithContent(choice, s)) == Some(s)
  {
  }

  function ChoiceText(c: Json): string {
    if ContentOf(c).Some? then ContentOf(c).value else ""
  }

  /** The content strings of the choices, in order, as one text. */
  function ContentText(items: seq<Json>): string {
    if items == [] then "" else ChoiceText(items[0]) + ContentText(items[1..])
  }

  // ------------------------------------------------------------ rewriting

  /** The filter as the handler holds it: absent, or in some state. */
  datatype Filter = Off | On(pending: string, inReasoning: bool)

  function RewriteChoice(c: Json, f: Filter): (Json, Filter) {
    if f.Off? || ContentOf(c).None? then (c, f)
    else
      var r := Scan(f.pending + ContentOf(c).value, f.inReasoning);
      (WithContent(c, r.out), On(r.pending, r.inReasoning))
  }

  function RewriteItems(items: seq<Json>, f: Filter): (seq<Json>, Filter)
    decreases |items|
  {
    if items == [] then ([], f)
    else
      var (c, f1) := RewriteChoice(items[0], f);
      var (rest, f2) := RewriteItems(items[1..], f1);
      ([c] + rest, f2)
  }

  function RewriteMap(raw: Fields, f: Filter): (Fields, Filter) {
    if !Field(raw, "choices").Arr? then (raw, f)
    else
      var (items, f') := RewriteItems(Choices(raw), f);
      (raw["choices" := Arr(items)], f')
  }

  // ---------------------------------------------------------------- chunks

  datatype Usage = Usage(prompt: int, completion: int, total: int)

  const METRICS := "amazon-bedrock-invocationMetrics"

  /** Conversion to an integer drops the fraction. */
  function Truncate(x: real): int {
    if x >= 0.0 then x.Floor else -((-x).Floor)
  }

  function ExtractUsage(raw: Fields): Option<Usage> {
    var m := Field(raw, METRICS);
    if !m.Obj? then None
    else
      var p, c := Field(m.fields, "inputTokenCount"), Field(m.fields, "outputTokenCount");
      if !p.Num? || !c.Num? then None
      else Some(Usage(Truncate(p.n), Truncate(c.n), Truncate(p.n) + Truncate(c.n)))
  }

  /** Nothing in this choice is worth sending. */
  predicate Invisible(c: Json) {
    c.Obj? ==>
      && Field(c.fields, "finish_reason") == Null
      && var delta := Field(c.fields, "delta");
        && delta.Obj?
        && !(Field(delta.fields, "role").Str? && Field(delta.fields, "role").s != "")
        && !(Field(delta.fields, "content").Str? && Field(delta.fields, "content").s != "")
  }

  predicate NoVisiblePayload(raw: Fields) {
    forall i :: 0 <= i < |Choices(raw)| ==> Invisible(Choices(raw)[i])
  }

  /** The bytes of a chunk: unparsed, or the JSON object they stand for. */
  datatype Body = Unparsed(bytes: string) | Parsed(fields: Fields)

  datatype ChunkResult = ChunkResult(body: Body, skip: bool, usage: Option<Usage>)

  function SanitizeChunk(body: Body, f: Filter): (ChunkResult, Filter) {
    match body
    case Unparsed(_) => (ChunkResult(body, false, None), f)
    case Parsed(raw) =>
      var (raw', f') := RewriteMap(raw - {METRICS}, f);
      (ChunkResult(Parsed(raw'), NoVisiblePayload(raw'), ExtractUsage(raw)), f')
  }

  function Copied(raw: Fields, keys: seq<string>, into: Fields): Fields {
    if keys == [] then into
    else Copied(raw, keys[1..], if keys[0] in raw then into[keys[0] := raw[keys[0]]] else into)
  }

  function UsageChunk(body: Body, u: Usage): Option<Body> {
    if body.Unparsed? then None
    else
      Some(Parsed(Copied(body.fields, ["id", "created", "model", "object"],
        map["object" := Str("chat.completion.chunk"), "choices" := Arr([]),
            "usage" := Obj(map["prompt_tokens" := Num(u.prompt as real),
                               "completion_tokens" := Num(u.completion as real),
                               "total_tokens" := Num(u.total as real)])])))
  }

  // ---------------------------------------------------------------- stream

  datatype Event = Chunk(body: Body) | Unknown

  datatype Frame = Data(body: Body) | Done

  /** The loop's variables: frames written, latest usage and its chunk, the filter. */
  datatype Loop = Loop(written: seq<Frame>, usage: Option<Usage>, usageChunk: Option<Body>, filter: Filter)

  function LoopStep(l: Loop, e: Event): Loop {
    if e.Unknown? then l
    else
      var (r, f) := SanitizeChunk(e.body, l.filter);
      Loop(if r.skip then l.written else l.written + [Data(r.body)],
           if r.usage.Some? then r.usage else l.usage,
           if r.usage.Some? then UsageChunk(r.body, r.usage.value) else l.usageChunk,
           f)
  }

  function LoopRun(l: Loop, events: seq<Event>): Loop
    decreases |events|
  {
    if events == [] then l else LoopRun(LoopStep(l, events[0]), events[1..])
  }

  function Start(includeReasoning: bool): Loop {
    Loop([], None, None, if includeReasoning then Off else On("", false))
  }

  /** Everything sent to the client: the end marker only when the stream ended well. */
  function Frames(l: Loop, failed: bool): seq<Frame> {
    if failed then l.written
    else l.written + (if l.usageChunk.Some? then [Data(l.usageChunk.value)] else []) + [Done]
  }

  // ------------------------------------------------------------ conservation

  function BodyText(b: Body): string {
    if b.Unparsed? then "" else ContentText(Choices(b.fields))
  }

  function InputText(events: seq<Event>): string {
    if events == [] then ""
    else (if events[0].Chunk? then BodyText(events[0].body) else "") + InputText(events[1..])
  }

  function FrameText(frame: Frame): string {
    if frame.Data? then BodyText(frame.body) else ""
  }

  function ShownText(frames: seq<Frame>): string {
    if frames == [] then "" else FrameText(frames[0]) + ShownText(frames[1..])
  }

  lemma {:induction false} ShownTextAppend(a: seq<Frame>, b: seq<Frame>)
    ensures ShownText(a + b) == ShownText(a) + ShownText(b)
  {
    hide FrameText;
    if a == [] {
      assert a + b == b;
    } else {
      ShownTextAppend(a[1..], b);
      assert (a + b)[0] == a[0] && (a + b)[1..] == a[1..] + b;
      assert FrameText(a[0]) + (ShownText(a[1..]) + ShownText(b)) == FrameText(a[0]) + ShownText(a[1..]) + ShownText(b);
    }
  }

  /** The pending text is what scanning leaves of itself, as after every chunk. */
  ghost predicate Settled(f: Filter) {
    f.On? ==> Scan(f.pending, f.inReasoning) == Scanned("", f.pending, f.inReasoning)
  }

  /** `out` and `f'` are what filter `f` makes of the text `t`. */
  ghost predicate Filters(f: Filter, t: string, out: string, f': Filter) {
    match f
    case Off => out == t && f' == Off
    case On(p, r) => f'.On? && Scanned(out, f'.pending, f'.inReasoning) == Scan(p + t, r)
  }

  lemma FiltersCompose(f: Filter, t1: string, o1: string, f1: Filter, t2: string, o2: string, f2: Filter)
    requires Filters(f, t1, o1, f1) && Filters(f1, t2, o2, f2)
    ensures Filters(f, t1 + t2, o1 + o2, f2)
  {
    hide Scan;
    if f.On? {
      ScanSplit(f.pending + t1, t2, f.inReasoning);
      assert f.pending + t1 + t2 == f.pending + (t1 + t2);
    }
  }

  lemma FiltersNothing(f: Filter)
    requires Settled(f)
    ensures Filters(f, "", "", f)
  {
    hide Scan;
    if f.On? { assert f.pending + "" == f.pending; }
  }

  lemma FiltersSettles(f: Filter, t: string, out: string, f': Filter)
    requires Filters(f, t, out, f')
    ensures Settled(f')
  {
    hide Scan;
    if f.On? { ScanOfPending(f.pending + t, f.inReasoning); }
  }

  /** Rewriting the choices of a chunk filters its text and changes nothing else. */
  lemma {:induction false} ItemsConserve(items: seq<Json>, f: Filter)
    requires Settled(f)
    ensures var (items', f') := RewriteItems(items, f);
      && Settled(f')
      && Filters(f, ContentText(items), ContentText(items'), f')
      && |items'| == |items|
      && forall i :: 0 <= i < |items| ==> OnlyContentDiffers(items[i], items'[i])
    decreases |items|
  {
    hide Scan, Settled, Filters;
    if items == [] {
      FiltersNothing(f);
    } else {
      var c := items[0];
      var (c', f1) := RewriteChoice(c, f);
      ChoiceConserves(c, f);
      ItemsConserve(items[1..], f1);
      var (rest, f2) := RewriteItems(items[1..], f1);
      FiltersCompose(f, ChoiceText(c), ChoiceText(c'), f1, ContentText(items[1..]), ContentText(rest), f2);
      assert ([c'] + rest)[1..] == rest;
    }
  }

  /** The two choices are equal once their contents are made equal. */
  ghost predicate OnlyContentDiffers(c: Json, c': Json) {
    c' == if ContentOf(c).Some? && ContentOf(c').Some? then WithContent(c, ContentOf(c').value) else c
  }

  lemma ChoiceConserves(c: Json, f: Filter)
    requires Settled(f)
    ensures var (c', f') := RewriteChoice(c, f);
      && Settled(f')
      && Filters(f, ChoiceText(c), ChoiceText(c'), f')
      && OnlyContentDiffers(c, c')
  {
    hide Scan, Settled;
    var (c', f') := RewriteChoice(c, f);
    if ContentOf(c).None? {
      FiltersNothing(f);
    } else {
      if f.On? {
        WithContentContent(c, Scan(f.pending + ContentOf(c).value, f.inReasoning).out);
      } else {
        assert WithContent(c, ContentOf(c).value) == c by {
          var delta := c.fields["delta"];
          assert delta.fields["content" := Str(ContentOf(c).value)] == delta.fields;
          assert c.fields["delta" := delta] == c.fields;
        }
      }
      FiltersSettles(f, ChoiceText(c), ChoiceText(c'), f');
    }
  }

  lemma {:induction false} InvisibleHasNoText(items: seq<Json>)
    requires forall i :: 0 <= i < |items| ==> Invisible(items[i])
    ensures ContentText(items) == ""
  {
    if items != [] {
      assert Invisible(items[0]);
      InvisibleHasNoText(items[1..]);
    }
  }

  /** A rewritten chunk keeps every field but the metrics and, in each choice,
      everything but the content; a chunk that is skipped shows no text. */
  lemma ChunkConserves(body: Body, f: Filter)
    requires Settled(f)
    ensures var (r, f') := SanitizeChunk(body, f);
      && Settled(f')
      && Filters(f, BodyText(body), BodyText(r.body), f')
      && (r.skip ==> BodyText(r.body) == "")
      && (body.Unparsed? ==> r.body == body && !r.skip)
      && (body.Parsed? ==>
            && r.body.Parsed?
            && r.body.fields.Keys == body.fields.Keys - {METRICS}
            && (forall k :: k in r.body.fields && k != "choices" ==> r.body.fields[k] == body.fields[k])
            && |Choices(r.body.fields)| == |Choices(body.fields)|
            && (forall i :: 0 <= i < |Choices(body.fields)| ==> OnlyContentDiffers(Choices(body.fields)[i], Choices(r.body.fields)[i])))
  {
    hide Scan, Settled, Filters, Invisible, OnlyContentDiffers;
    match body
    case Unparsed(_) => FiltersNothing(f);
    case Parsed(raw) =>
      assert METRICS != "choices" by { assert METRICS[0] != "choices"[0]; }
      assert Choices(raw - {METRICS}) == Choices(raw);
      ItemsConserve(Choices(raw), f);
      FiltersNothing(f);
      var r := SanitizeChunk(body, f).0;
      if r.skip { InvisibleHasNoText(Choices(r.body.fields)); }
  }

  lemma {:induction false} CopiedKeeps(raw: Fields, keys: seq<string>, into: Fields, key: string)
    requires key !in keys && key in into
    ensures key in Copied(raw, keys, into) && Copied(raw, keys, into)[key] == into[key]
    decreases |keys|
  {
    if keys != [] {
      CopiedKeeps(raw, keys[1..], if keys[0] in raw then into[keys[0] := raw[keys[0]]] else into, key);
    }
  }

  /** The closing usage chunk carries the totals and no text. */
  lemma UsageChunkShowsNothing(body: Body, u: Usage)
    ensures var c := UsageChunk(body, u);
      c.Some? ==>
        && BodyText(c.value) == "" && "usage" in c.value.fields
        && c.value.fields["usage"] == Obj(map["prompt_tokens" := Num(u.prompt as real),
                                              "completion_tokens" := Num(u.completion as real),
                                              "total_tokens" := Num(u.total as real)])
  {
    if body.Parsed? {
      var keys := ["id", "created", "model", "object"];
      var into: Fields := map["object" := Str("chat.completion.chunk"), "choices" := Arr([]),
            "usage" := Obj(map["prompt_tokens" := Num(u.prompt as real),
                               "completion_tokens" := Num(u.completion as real),
                               "total_tokens" := Num(u.total as real)])];
      CopiedKeeps(body.fields, keys, into, "choices");
      CopiedKeeps(body.fields, keys, into, "usage");
    }
  }

  /** What every iteration keeps: `seen` is the text of the events so far. */
  ghost predicate LoopOk(f0: Filter, seen: string, l: Loop) {
    && Settled(l.filter)
    && Filters(f0, seen, ShownText(l.written), l.filter)
    && (l.usageChunk.Some? ==> BodyText(l.usageChunk.value) == "")
  }

  lemma StepConserves(f0: Filter, seen: string, l: Loop, e: Event)
    requires LoopOk(f0, seen, l)
    ensures LoopOk(f0, seen + (if e.Chunk? then BodyText(e.body) else ""), LoopStep(l, e))
  {
    hide Scan, Settled, Filters, SanitizeChunk, UsageChunk, BodyText, OnlyContentDiffers;
    if e.Chunk? {
      ChunkConserves(e.body, l.filter);
      var (r, f) := SanitizeChunk(e.body, l.filter);
      ShownTextAppend(l.written, [Data(r.body)]);
      assert ShownText([Data(r.body)]) == BodyText(r.body) + ShownText([]);
      FiltersCompose(f0, seen, ShownText(l.written), l.filter, BodyText(e.body), BodyText(r.body), f);
      assert ShownText(LoopStep(l, e).written) == ShownText(l.written) + BodyText(r.body);
      if r.usage.Some? { UsageChunkShowsNothing(r.body, r.usage.value); }
    } else {
      assert seen + "" == seen;
    }
  }

  lemma {:induction false} RunConserves(f0: Filter, seen: string, l: Loop, events: seq<Event>)
    requires LoopOk(f0, seen, l)
    ensures LoopOk(f0, seen + InputText(events), LoopRun(l, events))
    decreases |events|
  {
    hide LoopOk, LoopStep, BodyText;
    if events == [] {
      assert seen + "" == seen;
    } else {
      var t := if events[0].Chunk? then BodyText(events[0].body) else "";
      StepConserves(f0, seen, l, events[0]);
      RunConserves(f0, seen + t, LoopStep(l, events[0]), events[1..]);
      assert seen + t + InputText(events[1..]) == seen + (t + InputText(events[1..]));
    }
  }

  /** Sanitizer conservation: the text sent for a stream is what the stripper has
      put out for its whole text, so a beginning of the stripped text that lacks at
      most ten characters; with reasoning included it is the text itself. */
  lemma StreamConservation(events: seq<Event>, includeReasoning: bool, failed: bool)
    ensures var shown := ShownText(Frames(LoopRun(Start(includeReasoning), events), failed));
      var text := InputText(events);
      if includeReasoning then shown == text
      else
        && shown == Scan(text, false).out
        && shown <= Strip(text) && |Strip(text)| - |shown| <= 10
  {
    hide Scan, BodyText, LoopStep;
    var f0 := Start(includeReasoning).filter;
    var l := LoopRun(Start(includeReasoning), events);
    var text := InputText(events);
    if f0.On? { ScanEmpty(false); }
    assert LoopOk(f0, "", Start(includeReasoning)) by { FiltersNothing(f0); }
    RunConserves(f0, "", Start(includeReasoning), events);
    assert "" + text == text;
    ClosingShowsNothing(l, failed);
    LagIsBounded(text);
  }

  lemma ClosingShowsNothing(l: Loop, failed: bool)
    requires l.usageChunk.Some? ==> BodyText(l.usageChunk.value) == ""
    ensures ShownText(Frames(l, failed)) == ShownText(l.written)
  {
    hide BodyText;
    if !failed {
      var u := if l.usageChunk.Some? then [Data(l.usageChunk.value)] else [];
      ShownTextAppend(l.written + u, [Done]);
      ShownTextAppend(l.written, u);
      assert ShownText([Done]) == "" + ShownText([]);
      assert u != [] ==> ShownText(u) == "" + ShownText([]);
    }
  }

  /** The handler never flushes. What it sends is complete exactly when the text of
      the stream does not end, visibly, in a beginning of a start tag. */
  lemma StreamCompleteIff(events: seq<Event>, failed: bool)
    ensures var text := InputText(events);
      ShownText(Frames(LoopRun(Start(false), events), failed)) == Strip(text) <==>
        (var last := LastVisible(Parse(text));
         last.Some? ==> forall k :: 1 <= k ==> !Border(last.value, START, k))
  {
    hide Scan, Strip, Parse, Border, LoopRun, ShownText, Frames;
    StreamConservation(events, false, failed);
    NothingHeldBackIff(InputText(events));
  }

  function OneDelta(content: string): Event {
    Chunk(Parsed(map["choices" := Arr([Obj(map["delta" := Obj(map["content" := Str(content)])])])]))
  }

  lemma OneDeltaText(content: string)
    ensures InputText([OneDelta(content)]) == content
  {
    var e := OneDelta(content);
    var choices := Choices(e.body.fields);
    assert choices == [Obj(map["delta" := Obj(map["content" := Str(content)])])];
    assert ContentText(choices) == ChoiceText(choices[0]) + ContentText([]);
    assert InputText([e]) == BodyText(e.body) + InputText([]);
  }

  lemma BracketStays()
    ensures Strip("<") == "<" && LastVisible(Parse("<")) == Some("<") && Border("<", START, 1)
  {
    hide Scan, Strip, Parse;
    StripIsGrammatical("<", Tail("<"));
  }

  /** For example a stream whose only text is "<" is sent without it. */
  lemma TrailingTextIsLost()
    ensures InputText([OneDelta("<")]) == "<"
    ensures Strip("<") == "<"
    ensures ShownText(Frames(LoopRun(Start(false), [OneDelta("<")]), false)) == ""
  {
    hide Scan, Strip, Parse, LoopRun, ShownText, Frames, OneDelta, InputText, Border;
    var events := [OneDelta("<")];
    OneDeltaText("<");
    BracketStays();
    StreamCompleteIff(events, false);
    StreamConservation(events, false, false);
  }
}
