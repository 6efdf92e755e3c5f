/** The Bedrock stream handler's loops, over the mutable stripper. */
module BedrockStream {
  import opened GoStrings
  import opened Reasoning
  import opened ReasoningStripping
  import opened BedrockSpec

  ghost function FilterOf(filter: ReasoningStripper?): Filter
    reads filter
  {
    if filter == null then Off else On(filter.pending, filter.inReasoning)
  }

  lemma ItemsStep(choices: seq<Json>, i: nat, f: Filter)
    requires i < |choices|
    ensures var (first, f1) := RewriteChoice(choices[i], f);
      var (rest, f2) := RewriteItems(choices[i + 1..], f1);
      RewriteItems(choices[i..], f) == ([first] + rest, f2)
  {
    hide RewriteChoice;
    assert choices[i..][1..] == choices[i + 1..];
  }

  /** The loop's body: filter one choice's content, if it has any. */
  method RewriteOne(choice: Json, filter: ReasoningStripper) returns (out: Json)
    modifies filter
    ensures (out, FilterOf(filter)) == RewriteChoice(choice, old(FilterOf(filter)))
  {
    hide Scan;
    var content := ContentOf(choice);
    if content.None? {
      return choice;
    }
    var s := filter.FilterChunk(content.value);
    out := WithContent(choice, s);
  }

  /** `rewriteJSONContentMap` for a stream: each delta's content, in order. */
  method RewriteJSONContentMap(raw: Fields, filter: ReasoningStripper) returns (out: Fields)
    modifies filter
    ensures (out, FilterOf(filter)) == RewriteMap(raw, old(FilterOf(filter)))
  {
    hide Scan;
    var field := Field(raw, "choices");
    if !field.Arr? {
      return raw;
    }
    var choices := field.items;
    var items: seq<Json> := [];
    ghost var f0 := FilterOf(filter);
    assert choices == Choices(raw) && choices[0..] == choices;
    assert [] + RewriteItems(choices, f0).0 == RewriteItems(choices, f0).0;
    for i := 0 to |choices|
      invariant RewriteItems(choices, f0).0 == items + RewriteItems(choices[i..], FilterOf(filter)).0
      invariant RewriteItems(choices, f0).1 == RewriteItems(choices[i..], FilterOf(filter)).1
    {
      hide RewriteItems;
      var choice := choices[i];
      ghost var before := FilterOf(filter);
      ItemsStep(choices, i, before);
      choice := RewriteOne(choice, filter);
      ghost var more := RewriteItems(choices[i + 1..], FilterOf(filter)).0;
      assert items + ([choice] + more) == items + [choice] + more;
      items := items + [choice];
    }
    assert choices[|choices|..] == [] && items + [] == items;
    assert RewriteItems(choices, f0) == (items, FilterOf(filter));
    out := raw["choices" := Arr(items)];
  }

  /** `streamChunkHasNoVisiblePayload`: the first choice worth sending decides. */
  method StreamChunkHasNoVisiblePayload(raw: Fields) returns (r: bool)
    ensures r <==> NoVisiblePayload(raw)
  {
    var choices := Choices(raw);
    for i := 0 to |choices|
      invariant forall j :: 0 <= j < i ==> Invisible(choices[j])
    {
      if !choices[i].Obj? {
        continue;
      }
      var choice := choices[i].fields;
      if Field(choice, "finish_reason") != Null {
        return false;
      }
      var delta := Field(choice, "delta");
      if !delta.Obj? {
        return false;
      }
      var role, content := Field(delta.fields, "role"), Field(delta.fields, "content");
      if role.Str? && role.s != "" {
        return false;
      }
      if content.Str? && content.s != "" {
        return false;
      }
    }
    return true;
  }

  /** `sanitizeBedrockStreamChunk`. */
  method SanitizeBedrockStreamChunk(body: Body, filter: ReasoningStripper?) returns (result: ChunkResult)
    modifies filter
    ensures (result, FilterOf(filter)) == SanitizeChunk(body, old(FilterOf(filter)))
  {
    if body.Unparsed? {
      return ChunkResult(body, false, None);
    }
    var usage := ExtractUsage(body.fields);
    var raw := body.fields - {METRICS};
    if filter != null {
      raw := RewriteJSONContentMap(raw, filter);
    } else {
      OffRewritesNothing(raw);
    }
    var skip := StreamChunkHasNoVisiblePayload(raw);
    return ChunkResult(Parsed(raw), skip, usage);
  }

  /** Without a filter the chunk is left alone. */
  lemma OffRewritesNothing(raw: Fields)
    ensures RewriteMap(raw, Off) == (raw, Off)
  {
    OffKeepsItems(Choices(raw));
    assert Field(raw, "choices").Arr? ==> raw["choices" := raw["choices"]] == raw;
  }

  lemma {:induction false} OffKeepsItems(items: seq<Json>)
    ensures RewriteItems(items, Off) == (items, Off)
    decreases |items|
  {
    if items != [] {
      OffKeepsItems(items[1..]);
      assert items == [items[0]] + items[1..];
    }
  }

  /** The event loop of `handleBedrockStream` and the frames that close it. */
  method HandleBedrockStream(events: seq<Event>, includeReasoning: bool, failed: bool)
    returns (written: seq<Frame>, usage: Option<Usage>)
    ensures written == Frames(LoopRun(Start(includeReasoning), events), failed)
    ensures usage == if failed then None else LoopRun(Start(includeReasoning), events).usage
  {
    hide SanitizeChunk;
    var filter: ReasoningStripper? := null;
    if !includeReasoning {
      filter := new ReasoningStripper();
    }
    written, usage := [], None;
    var usageChunk: Option<Body> := None;
    for i := 0 to |events|
      invariant filter == null || fresh(filter)
      invariant LoopRun(Loop(written, usage, usageChunk, FilterOf(filter)), events[i..])
             == LoopRun(Start(includeReasoning), events)
    {
      assert events[i..][1..] == events[i + 1..];
      if events[i].Unknown? {
        continue;
      }
      var result := SanitizeBedrockStreamChunk(events[i].body, filter);
      if result.usage.Some? {
        usage := result.usage;
        usageChunk := UsageChunk(result.body, result.usage.value);
      }
      if result.skip {
        continue;
      }
      written := written + [Data(result.body)];
    }
    if failed {
      return written, None;
    }
    if usageChunk.Some? {
      written := written + [Data(usageChunk.value)];
    }
    written := written + [Done];
  }
}
