/** Which frames the Bedrock stream handler sends, and the usage it reports. */
module BedrockFrames {
  import opened GoStrings
  import opened Reasoning
  import opened BedrockSpec

  // ------------------------------------------------------------ contents

  /** The content of a choice is the string that its delta has there, and the choices are
      the array of that name. */
  lemma ContentIs(raw: Fields, c: Json, s: string)
    ensures ContentOf(c) == Some(s) <==>
      && c.Obj? && "delta" in c.fields && c.fields["delta"].Obj?
      && "content" in c.fields["delta"].fields && c.fields["delta"].fields["content"] == Str(s)
    ensures Choices(raw) == if "choices" in raw && raw["choices"].Arr? then raw["choices"].items else []
  {
  }

  // ------------------------------------------------------------ usage

  /** The chunk carries these two counts as numbers. */
  predicate Counts(b: Body, input: real, output: real) {
    && b.Parsed? && "amazon-bedrock-invocationMetrics" in b.fields
    && var m := b.fields["amazon-bedrock-invocationMetrics"];
      && m.Obj?
      && "inputTokenCount" in m.fields && m.fields["inputTokenCount"] == Num(input)
      && "outputTokenCount" in m.fields && m.fields["outputTokenCount"] == Num(output)
  }

  /** `i` is `x` without its fraction. */
  predicate WithoutFraction(i: int, x: real) {
    if x >= 0.0 then i as real <= x < i as real + 1.0 else i as real - 1.0 < x <= i as real
  }

  predicate UsageFor(u: Usage, input: real, output: real) {
    WithoutFraction(u.prompt, input) && WithoutFraction(u.completion, output) && u.total == u.prompt + u.completion
  }

  ghost predicate HasCounts(b: Body) {
    exists input, output :: Counts(b, input, output)
  }

  lemma TruncateDropsFraction(x: real)
    ensures WithoutFraction(Truncate(x), x)
  {
  }

  /** A chunk yields usage exactly when its metrics are an object with both counts as
      numbers; the usage has them without their fractions, and their sum. */
  lemma UsageIff(b: Body, f: Filter)
    ensures SanitizeChunk(b, f).0.usage.Some? <==> HasCounts(b)
    ensures forall input, output :: Counts(b, input, output) ==> UsageFor(SanitizeChunk(b, f).0.usage.value, input, output)
  {
    hide RewriteMap;
    if b.Parsed? {
      var m := Field(b.fields, METRICS);
      if m.Obj? {
        var p, c := Field(m.fields, "inputTokenCount"), Field(m.fields, "outputTokenCount");
        if p.Num? && c.Num? {
          assert Counts(b, p.n, c.n);
          TruncateDropsFraction(p.n);
          TruncateDropsFraction(c.n);
        }
      }
    }
  }

  lemma {:induction false} CopiedAt(raw: Fields, keys: seq<string>, into: Fields, key: string)
    ensures var out := Copied(raw, keys, into);
      && (key in out <==> key in into || (key in keys && key in raw))
      && (key in out ==> out[key] == if key in keys && key in raw then raw[key] else into[key])
    decreases |keys|
  {
    if keys != [] {
      CopiedAt(raw, keys[1..], if keys[0] in raw then into[keys[0] := raw[keys[0]]] else into, key);
      assert key in keys <==> key == keys[0] || key in keys[1..];
    }
  }

  function Totals(u: Usage): Json {
    Obj(map["prompt_tokens" := Num(u.prompt as real),
            "completion_tokens" := Num(u.completion as real),
            "total_tokens" := Num(u.total as real)])
  }

  /** The closing chunk of a parsed chunk: its identity, no choices, and the totals. */
  predicate ClosingOf(chunk: Body, body: Fields, u: Usage) {
    && chunk.Parsed?
    && var out := chunk.fields;
      && "usage" in out && out["usage"] == Totals(u)
      && "choices" in out && out["choices"] == Arr([])
      && "object" in out && out["object"] == (if "object" in body then body["object"] else Str("chat.completion.chunk"))
      && (forall k | k in ["id", "created", "model"] :: (k in out <==> k in body) && (k in body ==> out[k] == body[k]))
      && out.Keys <= {"usage", "choices", "object", "id", "created", "model"}
  }

  lemma ClosingHasIdentity(body: Fields, u: Usage)
    ensures var c := UsageChunk(Parsed(body), u);
      c.Some? && ClosingOf(c.value, body, u)
  {
    var keys := ["id", "created", "model", "object"];
    var into: Fields := map["object" := Str("chat.completion.chunk"), "choices" := Arr([]), "usage" := Totals(u)];
    var out := Copied(body, keys, into);
    CopiedAt(body, keys, into, "usage");
    CopiedAt(body, keys, into, "choices");
    CopiedAt(body, keys, into, "object");
    CopiedAt(body, keys, into, "id");
    CopiedAt(body, keys, into, "created");
    CopiedAt(body, keys, into, "model");
    forall k | k in out.Keys ensures k in {"usage", "choices", "object", "id", "created", "model"} {
      CopiedAt(body, keys, into, k);
    }
    assert UsageChunk(Parsed(body), u) == Some(Parsed(out));
  }

  // ------------------------------------------------------------ the loop

  lemma {:induction false} LoopRunAppend(l: Loop, a: seq<Event>, b: seq<Event>)
    ensures LoopRun(l, a + b) == LoopRun(LoopRun(l, a), b)
    decreases |a|
  {
    hide LoopStep;
    if a == [] {
      assert a + b == b;
    } else {
      LoopRunAppend(LoopStep(l, a[0]), a[1..], b);
      assert (a + b)[0] == a[0] && (a + b)[1..] == a[1..] + b;
    }
  }

  ghost predicate Uncounted(events: seq<Event>) {
    forall i :: 0 <= i < |events| && events[i].Chunk? ==> !HasCounts(events[i].body)
  }

  /** Events without counts leave the usage as it is. */
  lemma {:induction false} UsageStays(l: Loop, events: seq<Event>)
    requires Uncounted(events)
    ensures var l' := LoopRun(l, events); l'.usage == l.usage && l'.usageChunk == l.usageChunk
    decreases |events|
  {
    hide SanitizeChunk, HasCounts, UsageChunk;
    if events != [] {
      assert events[0].Chunk? ==> !HasCounts(events[0].body);
      if events[0].Chunk? { UsageIff(events[0].body, l.filter); }
      UsageStays(LoopStep(l, events[0]), events[1..]);
    }
  }

  /** The identity of a chunk survives the rewriting. */
  lemma IdentityStays(body: Body, f: Filter, u: Usage)
    requires Settled(f) && body.Parsed?
    ensures var c := UsageChunk(SanitizeChunk(body, f).0.body, u);
      c.Some? && ClosingOf(c.value, body.fields, u)
  {
    hide SanitizeChunk, UsageChunk, Settled;
    ChunkConserves(body, f);
    var out := SanitizeChunk(body, f).0.body;
    ClosingHasIdentity(out.fields, u);
    forall k | k in ["object", "id", "created", "model"]
      ensures (k in out.fields <==> k in body.fields) && (k in body.fields ==> out.fields[k] == body.fields[k])
    {
      assert k != METRICS && k != "choices" by { ShortKey(k); }
    }
  }

  lemma ShortKey(k: string)
    requires k in ["object", "id", "created", "model"]
    ensures k != METRICS && k != "choices"
  {
    assert |METRICS| == 32 && |k| <= 7;
    assert k[0] != "choices"[0] || |k| == 7;
    assert "created"[1] != "choices"[1];
  }

  /** The usage that a stream reports, and its closing frame, are those of the last chunk
      with counts. */
  lemma UsageOfStream(before: seq<Event>, body: Body, after: seq<Event>, input: real, output: real, includeReasoning: bool)
    requires Counts(body, input, output) && Uncounted(after)
    ensures var l := LoopRun(Start(includeReasoning), before + [Chunk(body)] + after);
      && l.usage.Some? && UsageFor(l.usage.value, input, output)
      && l.usageChunk.Some? && ClosingOf(l.usageChunk.value, body.fields, l.usage.value)
      && Frames(l, false) == l.written + [Data(l.usageChunk.value), Done]
  {
    hide SanitizeChunk, UsageChunk, ClosingOf, UsageFor, Uncounted, Settled, LoopRun;
    var l0 := Start(includeReasoning);
    var l1 := LoopRun(l0, before);
    FilterSettled(before, includeReasoning);
    LoopRunAppend(l0, before + [Chunk(body)], after);
    LoopRunAppend(l0, before, [Chunk(body)]);
    LoopRunOne(l1, Chunk(body));
    var l2 := LoopStep(l1, Chunk(body));
    UsageStays(l2, after);
    assert HasCounts(body);
    UsageIff(body, l1.filter);
    IdentityStays(body, l1.filter, l2.usage.value);
    var l := LoopRun(l2, after);
    assert l.written + [Data(l.usageChunk.value)] + [Done] == l.written + [Data(l.usageChunk.value), Done];
  }

  /** Without any, none is reported. */
  lemma NoUsage(events: seq<Event>, includeReasoning: bool)
    requires Uncounted(events)
    ensures var l := LoopRun(Start(includeReasoning), events);
      l.usage.None? && l.usageChunk.None? && Frames(l, false) == l.written + [Done]
  {
    UsageStays(Start(includeReasoning), events);
    hide LoopRun;
    var l := LoopRun(Start(includeReasoning), events);
    assert l.written + [] + [Done] == l.written + [Done];
  }

  lemma LoopRunOne(l: Loop, e: Event)
    ensures LoopRun(l, [e]) == LoopStep(l, e)
  {
    hide LoopStep;
    assert LoopRun(LoopStep(l, e), [e][1..]) == LoopStep(l, e);
  }

  lemma FilterSettled(events: seq<Event>, includeReasoning: bool)
    ensures Settled(LoopRun(Start(includeReasoning), events).filter)
  {
    hide Scan, LoopStep, BodyText;
    var f0 := Start(includeReasoning).filter;
    if f0.On? { ScanEmpty(false); }
    FiltersNothing(f0);
    RunConserves(f0, "", Start(includeReasoning), events);
  }

  // ------------------------------------------------------------ frames

  /** Something in this choice is worth sending whatever its content. */
  predicate Marked(c: Json) {
    && c.Obj?
    && (|| ("finish_reason" in c.fields && c.fields["finish_reason"] != Null)
        || !("delta" in c.fields && c.fields["delta"].Obj?)
        || (var delta := c.fields["delta"].fields;
            "role" in delta && delta["role"].Str? && delta["role"].s != ""))
  }

  predicate Visible(c: Json) {
    Marked(c) || ChoiceText(c) != ""
  }

  ghost predicate Shows(b: Body) {
    b.Parsed? ==> exists i :: 0 <= i < |Choices(b.fields)| && Visible(Choices(b.fields)[i])
  }

  lemma VisibleIff(c: Json)
    ensures Visible(c) <==> !Invisible(c)
  {
  }

  /** A chunk is sent, rewritten, exactly when it does not parse or has a choice with a
      finish reason, a delta that is no object, a role or some text left. */
  lemma SentIff(l: Loop, e: Event)
    ensures LoopStep(l, e).written == l.written +
      if e.Chunk? && Shows(SanitizeChunk(e.body, l.filter).0.body) then [Data(SanitizeChunk(e.body, l.filter).0.body)] else []
  {
    hide RewriteMap, Visible, Invisible;
    assert l.written + [] == l.written;
    if e.Chunk? && e.body.Parsed? {
      var out := SanitizeChunk(e.body, l.filter).0.body;
      var choices := Choices(out.fields);
      forall i | 0 <= i < |choices| ensures Visible(choices[i]) <==> !Invisible(choices[i]) {
        VisibleIff(choices[i]);
      }
    }
  }

  lemma {:induction false} WrittenGrows(l: Loop, events: seq<Event>)
    ensures l.written <= LoopRun(l, events).written
    decreases |events|
  {
    hide SanitizeChunk, UsageChunk;
    if events != [] {
      WrittenGrows(LoopStep(l, events[0]), events[1..]);
    }
  }

  /** The filter leaves everything but the content, so a marked choice stays marked. */
  lemma MarkedStays(c: Json, c': Json)
    requires OnlyContentDiffers(c, c') && Marked(c)
    ensures Marked(c')
  {
  }

  /** In any stream, a chunk with something left to show, and every chunk with a finish
      reason or a role, is among the frames sent, behind those of the events before it. */
  lemma VisibleChunkIsSent(before: seq<Event>, body: Body, after: seq<Event>, includeReasoning: bool, failed: bool)
    requires
      var out := SanitizeChunk(body, LoopRun(Start(includeReasoning), before).filter).0.body;
      || Shows(out)
      || (body.Parsed? && exists i :: 0 <= i < |Choices(body.fields)| && Marked(Choices(body.fields)[i]))
    ensures var l := LoopRun(Start(includeReasoning), before);
      var out := SanitizeChunk(body, l.filter).0.body;
      l.written + [Data(out)] <= Frames(LoopRun(Start(includeReasoning), before + [Chunk(body)] + after), failed)
  {
    hide SanitizeChunk, Shows, Visible, LoopRun, Settled, Marked, OnlyContentDiffers, LoopStep;
    var l0 := Start(includeReasoning);
    var l := LoopRun(l0, before);
    var out := SanitizeChunk(body, l.filter).0.body;
    if !Shows(out) {
      FilterSettled(before, includeReasoning);
      ChunkConserves(body, l.filter);
      var i :| 0 <= i < |Choices(body.fields)| && Marked(Choices(body.fields)[i]);
      MarkedStays(Choices(body.fields)[i], Choices(out.fields)[i]);
      MarkedShows(out, i);
    }
    LoopRunAppend(l0, before + [Chunk(body)], after);
    LoopRunAppend(l0, before, [Chunk(body)]);
    LoopRunOne(l, Chunk(body));
    SentIff(l, Chunk(body));
    WrittenGrows(LoopStep(l, Chunk(body)), after);
  }

  lemma MarkedShows(b: Body, i: nat)
    requires b.Parsed? && i < |Choices(b.fields)| && Marked(Choices(b.fields)[i])
    ensures Shows(b)
  {
    hide Marked;
    assert Visible(Choices(b.fields)[i]);
  }

  ghost predicate AllData(frames: seq<Frame>) {
    forall i :: 0 <= i < |frames| ==> frames[i].Data?
  }

  lemma {:induction false} OnlyDataWritten(l: Loop, events: seq<Event>)
    requires AllData(l.written)
    ensures AllData(LoopRun(l, events).written)
    decreases |events|
  {
    hide SanitizeChunk, UsageChunk;
    if events != [] {
      OnlyDataWritten(LoopStep(l, events[0]), events[1..]);
    }
  }

  /** The end marker is the last frame of a stream that ended well, and of no other. */
  lemma OneEndMarker(events: seq<Event>, includeReasoning: bool, failed: bool)
    ensures var frames := Frames(LoopRun(Start(includeReasoning), events), failed);
      if failed then AllData(frames)
      else frames != [] && AllData(frames[..|frames| - 1]) && frames[|frames| - 1] == Done
  {
    OnlyDataWritten(Start(includeReasoning), events);
  }
}
