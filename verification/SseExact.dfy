/** Exactly which streams a proxy without transform forwards with their meaning, and
    two that it does not. */
module SseExact {
  import opened GoStrings
  import opened Sequences
  import opened EventStream
  import opened SseProxy

  /** Payloads forwarded as they are. */
  const PLAIN: Transform<()> := None

  function Forwarded(lines: seq<string>): seq<string> {
    ProxyLines(lines, PLAIN, ())
  }

  /** The events that the client should see: through the first that reads as the end
      marker. */
  function Cut(events: seq<Event>): seq<Event> {
    MapEvents(events, PLAIN, ())
  }

  // ------------------------------------------------------------ the condition

  function TypeOf(p: Parser): string {
    if p.eventType == "" then "message" else p.eventType
  }

  predicate SameTypeAndId(p: Parser, s: Parser) {
    TypeOf(p) == TypeOf(s) && p.id == s.id
  }

  /** No blank line follows a data field; `open` tells whether one came before. */
  predicate NoEvent(open: bool, lines: seq<string>)
    decreases |lines|
  {
    if lines == [] then true
    else if lines[0] == "" then !open && NoEvent(false, lines[1..])
    else NoEvent(open || IsDataField(lines[0]), lines[1..])
  }

  /** Nor does the proxy see a payload line, after which it adds a blank line. */
  predicate NothingSent(open: bool, lines: seq<string>)
    decreases |lines|
  {
    if lines == [] then true
    else if lines[0] == "" then !open && NothingSent(false, lines[1..])
    else !IsPayload(lines[0]) && NothingSent(open || IsDataField(lines[0]), lines[1..])
  }

  /** The event under way ends with a blank line, with no further data field, and of the
      type and ID that it had in `s`; if it is to be the last, no event follows. */
  predicate Settles(s: Parser, p: Parser, last: bool, lines: seq<string>)
    decreases |lines|
  {
    if lines == [] then false
    else if lines[0] == "" then SameTypeAndId(p, s) && (last ==> NoEvent(false, lines[1..]))
    else !IsDataField(lines[0]) && Settles(s, ParseLine(p, lines[0]).parser, last, lines[1..])
  }

  /** In every event up to the end marker's, the first payload line is the last data
      field, no later field changes the event's type or ID, and a blank line does
      follow. An event that holds the marker's line among other data is the last one,
      and after an event that reads like the marker without being such a line nothing
      is sent. `sent` is the parser just after this event's first payload line. */
  predicate PayloadLast(p: Parser, sent: Option<Parser>, lines: seq<string>)
    decreases |lines|
  {
    if lines == [] then sent.None?
    else if lines[0] == "" then
      if sent.Some? then SameTypeAndId(p, sent.value) && PayloadLast(Dispatch(p).parser, None, lines[1..])
      else if p.data == DONE + "\n" then NothingSent(false, lines[1..])
      else PayloadLast(Dispatch(p).parser, None, lines[1..])
    else
      var q := ParseLine(p, lines[0]).parser;
      if IsDataField(lines[0]) && sent.Some? then false
      else if lines[0] == PREFIX + DONE then Settles(q, q, p.data != "", lines[1..])
      else PayloadLast(q, if IsPayload(lines[0]) then Some(q) else sent, lines[1..])
  }

  // ------------------------------------------------------------ single lines

  lemma DataLine(p: Parser, line: string)
    requires IsDataField(line)
    ensures ParseLine(p, line) == Parsed(p.(data := p.data + FieldValue(line) + "\n"), [])
    ensures ParseLine(p, line).parser.data != ""
  {
    hide FieldName, FieldValue;
  }

  lemma OtherLine(p: Parser, line: string)
    requires line != "" && !IsDataField(line)
    ensures ParseLine(p, line).events == [] && ParseLine(p, line).parser.data == p.data
  {
    hide FieldName, FieldValue;
  }

  /** The ID buffer does not depend on the other buffers. */
  lemma SameId(p: Parser, o: Parser, line: string)
    requires p.id == o.id
    ensures ParseLine(p, line).parser.id == ParseLine(o, line).parser.id
  {
    hide FieldName, FieldValue;
  }

  lemma ParseStep(p: Parser, line: string, rest: seq<string>)
    ensures ParseLines(p, [line] + rest).events
      == ParseLine(p, line).events + ParseLines(ParseLine(p, line).parser, rest).events
  {
    hide ParseLine;
    assert ([line] + rest)[1..] == rest;
  }

  lemma BlankLineDispatches(p: Parser)
    ensures ParseLine(p, "") == Dispatch(p)
  {
  }

  /** A payload line and the blank line the proxy adds. */
  lemma ParsePayload(o: Parser, line: string, rest: seq<string>)
    requires IsPayload(line)
    ensures var q := ParseLine(o, line).parser;
      && q.data != ""
      && ParseLines(o, [line, ""] + rest).events == [EventOf(q)] + ParseLines(Parser("", "", q.id), rest).events
  {
    hide ParseLine, ParseLines, IsDataField;
    var q := ParseLine(o, line).parser;
    PayloadLine(line);
    DataLine(o, line);
    assert [line, ""] + rest == [line] + ([""] + rest);
    ParseStep(o, line, [""] + rest);
    ParseStep(q, "", rest);
    BlankLineDispatches(q);
    Nil(ParseLines(q, [""] + rest).events);
  }

  /** One line through the proxy. */
  lemma ForwardStep(lines: seq<string>)
    requires lines != []
    ensures Forwarded(lines) ==
      if lines[0] == PREFIX + DONE then [lines[0], ""]
      else (if IsPayload(lines[0]) then [lines[0], ""] else [lines[0]]) + Forwarded(lines[1..])
  {
    if IsPayload(lines[0]) { PayloadLine(lines[0]); }
  }

  lemma NoLines(p: Parser)
    ensures Forwarded([]) == [] && ParseLines(p, []).events == [] && Cut([]) == []
  {
  }

  /** An end marker dispatches what is held, and nothing follows. */
  lemma EndMarker(p: Parser, line: string)
    requires line == PREFIX + DONE
    ensures var q := ParseLine(p, line).parser;
      q.data == p.data + DONE + "\n" && ParseLines(p, [line, ""]).events == [EventOf(q)]
  {
    hide ParseLine, ParseLines, IsDataField, FieldValue;
    PayloadIsData(DONE);
    DataLine(p, line);
    ParsePayload(p, line, []);
    Nil([line, ""]);
    var q := ParseLine(p, line).parser;
    NoLines(Parser("", "", q.id));
    Nil([EventOf(q)]);
  }

  lemma BlankIsNoField()
    ensures !IsDataField("") && !IsPayload("")
  {
  }

  // ------------------------------------------------------------ cutting

  lemma CutOne(e: Event, rest: seq<Event>)
    ensures Cut([e] + rest) == if e.data == DONE then [e] else [e] + Cut(rest)
  {
    MapOne(e, rest, PLAIN, ());
  }

  lemma CutKeepsFirst(events: seq<Event>)
    ensures events == [] <==> Cut(events) == []
    ensures events != [] ==> Cut(events)[0] == events[0]
  {
    if events != [] {
      assert events == [events[0]] + events[1..];
      CutOne(events[0], events[1..]);
    }
  }

  lemma {:induction false} NoEventIff(p: Parser, lines: seq<string>)
    ensures NoEvent(p.data != "", lines) <==> ParseLines(p, lines).events == []
    decreases |lines|
  {
    hide ParseLine, ParseLines, IsDataField;
    if lines == [] {
      NoLines(p);
    } else {
      var line, rest := lines[0], lines[1..];
      assert lines == [line] + rest;
      ParseStep(p, line, rest);
      NoEventIff(ParseLine(p, line).parser, rest);
      if line == "" {
        BlankLineDispatches(p);
        Nil(ParseLines(Dispatch(p).parser, rest).events);
      } else {
        FieldStep(p, line);
        Nil(ParseLines(ParseLine(p, line).parser, rest).events);
      }
    }
  }

  /** A field line makes no event, and data just when it is a data field. */
  lemma FieldStep(p: Parser, line: string)
    requires line != ""
    ensures ParseLine(p, line).events == []
    ensures ParseLine(p, line).parser.data != "" <==> p.data != "" || IsDataField(line)
  {
    hide ParseLine, IsDataField;
    if IsDataField(line) { DataLine(p, line); } else { OtherLine(p, line); }
  }

  lemma {:induction false} NothingSentIff(o: Parser, lines: seq<string>)
    ensures NothingSent(o.data != "", lines) <==> ParseLines(o, Forwarded(lines)).events == []
    decreases |lines|
  {
    hide ParseLine, ParseLines, IsDataField, IsPayload, Forwarded, PREFIX;
    if lines == [] {
      NoLines(o);
    } else {
      var line, rest := lines[0], lines[1..];
      ForwardStep(lines);
      if line == "" {
        BlankIsNoField();
        NotMarker(line);
        ParseStep(o, line, Forwarded(rest));
        NothingSentIff(ParseLine(o, line).parser, rest);
        BlankLineDispatches(o);
        Nil(ParseLines(Dispatch(o).parser, Forwarded(rest)).events);
      } else if line == PREFIX + DONE {
        PayloadIsData(DONE);
        EndMarker(o, line);
      } else if IsPayload(line) {
        ParsePayload(o, line, Forwarded(rest));
      } else {
        ParseStep(o, line, Forwarded(rest));
        NothingSentIff(ParseLine(o, line).parser, rest);
        FieldStep(o, line);
        Nil(ParseLines(ParseLine(o, line).parser, Forwarded(rest)).events);
      }
    }
  }

  lemma NotMarker(line: string)
    requires !IsPayload(line)
    ensures line != PREFIX + DONE
  {
    PayloadIsData(DONE);
  }

  /** Data only grows until it is dispatched. */
  lemma {:induction false} FirstIsLonger(p: Parser, lines: seq<string>)
    requires p.data != ""
    ensures var events := ParseLines(p, lines).events;
      events != [] ==> |events[0].data| >= |p.data| - 1
    decreases |lines|
  {
    hide ParseLine, ParseLines, IsDataField, FieldValue;
    if lines == [] {
      NoLines(p);
    } else {
      var line, rest := lines[0], lines[1..];
      assert lines == [line] + rest;
      ParseStep(p, line, rest);
      if line == "" {
        BlankLineDispatches(p);
      } else {
        var q := ParseLine(p, line).parser;
        if IsDataField(line) { DataLine(p, line); } else { OtherLine(p, line); }
        FirstIsLonger(q, rest);
        Nil(ParseLines(q, rest).events);
      }
    }
  }

  /** An event sent too early differs from the first one upstream, which has more data. */
  lemma EarlyIsDifferent(s: Parser, q: Parser, lines: seq<string>, seen: seq<Event>)
    requires s.data != "" && |q.data| > |s.data|
    ensures [EventOf(s)] + seen != Cut(ParseLines(q, lines).events)
  {
    hide ParseLines, Cut;
    var events := ParseLines(q, lines).events;
    FirstIsLonger(q, lines);
    CutKeepsFirst(events);
    assert ([EventOf(s)] + seen)[0] == EventOf(s);
  }

  /** The event `s`, sent alone, is all there is upstream just when it settles. */
  lemma {:induction false} SettlesIff(s: Parser, p: Parser, last: bool, lines: seq<string>)
    requires s.data != "" && p.data == s.data && (last <==> EventOf(s).data != DONE)
    ensures [EventOf(s)] == Cut(ParseLines(p, lines).events) <==> Settles(s, p, last, lines)
    decreases |lines|
  {
    hide ParseLine, ParseLines, IsDataField, Cut, NoEvent, FieldValue;
    if lines == [] {
      NoLines(p);
    } else {
      var line, rest := lines[0], lines[1..];
      assert lines == [line] + rest;
      ParseStep(p, line, rest);
      if line == "" {
        SettlesAtBlank(s, p, last, rest);
      } else {
        var q := ParseLine(p, line).parser;
        Nil(ParseLines(q, rest).events);
        if IsDataField(line) {
          DataLine(p, line);
          Nil([EventOf(s)]);
          EarlyIsDifferent(s, q, rest, []);
        } else {
          OtherLine(p, line);
          SettlesIff(s, q, last, rest);
        }
        FieldStep(p, line);
      }
    }
  }

  lemma SettlesAtBlank(s: Parser, p: Parser, last: bool, rest: seq<string>)
    requires s.data != "" && p.data == s.data && (last <==> EventOf(s).data != DONE)
    ensures [EventOf(s)] == Cut(ParseLine(p, "").events + ParseLines(ParseLine(p, "").parser, rest).events)
      <==> SameTypeAndId(p, s) && (last ==> NoEvent(false, rest))
  {
    hide ParseLine, ParseLines, Cut, NoEvent;
    BlankLineDispatches(p);
    var y := ParseLines(Dispatch(p).parser, rest).events;
    CutOne(EventOf(p), y);
    NoEventIff(Dispatch(p).parser, rest);
    CutKeepsFirst(y);
    Nil([EventOf(s)]);
    HeadsMatch(EventOf(s), EventOf(p), [], Cut(y));
    assert EventOf(s) == EventOf(p) <==> SameTypeAndId(p, s);
  }

  // ------------------------------------------------------------ the exact condition

  /** Every line of data ends with a line feed. */
  predicate Whole(p: Parser) {
    p.data != "" ==> p.data[|p.data| - 1] == '\n'
  }

  /** Between events the client's parser is where the upstream meant it to be; inside
      one whose payload has been sent, it waits for a blank line with no data. */
  ghost predicate InStep(p: Parser, o: Parser, sent: Option<Parser>) {
    && Whole(p)
    && match sent
       case None => o == p
       case Some(q) =>
         && q.data != "" && EventOf(q).data != DONE
         && p.data == q.data && o.data == "" && o.id == p.id
  }

  function Earlier(sent: Option<Parser>): seq<Event>
    requires sent.Some? ==> sent.value.data != ""
  {
    if sent.Some? then [EventOf(sent.value)] else []
  }

  /** What remains of the stream is forwarded faithfully just when the condition holds. */
  ghost predicate Exact(p: Parser, o: Parser, sent: Option<Parser>, lines: seq<string>)
    requires InStep(p, o, sent)
  {
    var seen := Earlier(sent) + ParseLines(o, Forwarded(lines)).events;
    seen == Cut(ParseLines(p, lines).events) <==> PayloadLast(p, sent, lines)
  }

  lemma AtTheEnd(p: Parser, o: Parser, sent: Option<Parser>)
    requires InStep(p, o, sent)
    ensures Exact(p, o, sent, [])
  {
    hide ParseLines, Cut, Forwarded;
    NoLines(p);
    NoLines(o);
  }

  lemma AtEndMarker(p: Parser, lines: seq<string>)
    requires Whole(p) && lines != [] && lines[0] == PREFIX + DONE
    ensures Exact(p, p, None, lines)
  {
    hide ParseLine, ParseLines, IsDataField, Cut, Forwarded, IsPayload, Settles;
    var line, rest := lines[0], lines[1..];
    ForwardStep(lines);
    EndMarker(p, line);
    var q := ParseLine(p, line).parser;
    PayloadIsData(DONE);
    assert lines == [line] + rest;
    ParseStep(p, line, rest);
    DataLine(p, line);
    Nil(ParseLines(q, rest).events);
    Nil([EventOf(q)]);
    assert EventOf(q).data == p.data + DONE;
    assert |p.data + DONE| == |p.data| + |DONE|;
    Nil(DONE);
    SettlesIff(q, q, p.data != "", rest);
    assert line != "";
  }

  lemma AtBlankLine(p: Parser, o: Parser, sent: Option<Parser>, lines: seq<string>)
    requires InStep(p, o, sent)
    requires lines != [] && lines[0] == ""
    requires Exact(Dispatch(p).parser, Dispatch(p).parser, None, lines[1..])
    ensures Exact(p, o, sent, lines)
  {
    hide ParseLine, ParseLines, IsDataField, Cut, Forwarded, IsPayload, NothingSent;
    var rest, q := lines[1..], Dispatch(p).parser;
    ForwardStep(lines);
    BlankIsNoField();
    NotMarker("");
    assert lines == [""] + rest;
    ParseStep(p, "", rest);
    ParseStep(o, "", Forwarded(rest));
    BlankLineDispatches(p);
    BlankLineDispatches(o);
    var x, y := ParseLines(q, Forwarded(rest)).events, ParseLines(q, rest).events;
    Nil(x);
    Nil(y);
    NothingSentIff(q, rest);
    AtDispatch(p, sent, x, y);
    match sent
    case None => Nil(Dispatch(p).events + x);
    case Some(s) =>
  }

  /** What a dispatch adds on either side. */
  lemma AtDispatch(p: Parser, sent: Option<Parser>, x: seq<Event>, y: seq<Event>)
    requires Whole(p)
    requires sent.Some? ==> sent.value.data != "" && EventOf(sent.value).data != DONE && p.data == sent.value.data
    ensures var seen := (if sent.Some? then [EventOf(sent.value)] else Dispatch(p).events) + x;
      (seen == Cut(Dispatch(p).events + y)) ==
        if sent.Some? then SameTypeAndId(p, sent.value) && x == Cut(y)
        else if p.data == DONE + "\n" then x == []
        else x == Cut(y)
  {
    hide Cut;
    Nil(x);
    Nil(y);
    if p.data != "" {
      CutOne(EventOf(p), y);
      HeadsMatch(EventOf(p), EventOf(p), x, []);
      HeadsMatch(EventOf(p), EventOf(p), x, Cut(y));
      Nil([EventOf(p)]);
      ReadsAsMarker(p);
      if sent.Some? {
        HeadsMatch(EventOf(sent.value), EventOf(p), x, Cut(y));
        assert EventOf(sent.value) == EventOf(p) <==> SameTypeAndId(p, sent.value);
      }
    }
  }

  lemma ReadsAsMarker(p: Parser)
    requires p.data != ""
    ensures p.data == DONE + "\n" ==> EventOf(p).data == DONE
    ensures EventOf(p).data == DONE && Whole(p) ==> p.data == DONE + "\n"
  {
    assert p.data == p.data[..|p.data| - 1] + [p.data[|p.data| - 1]];
  }

  /** A payload other than the marker never makes an event that reads like it. */
  lemma NotTheMarker(p: Parser, line: string)
    requires Whole(p) && IsPayload(line) && line != PREFIX + DONE
    ensures var q := ParseLine(p, line).parser;
      Whole(q) && q.data != "" && EventOf(q).data != DONE
  {
    hide ParseLine, IsDataField;
    PayloadLine(line);
    PayloadIsData(line[|PREFIX|..]);
    DataLine(p, line);
    var q := ParseLine(p, line).parser;
    var payload := line[|PREFIX|..];
    assert q.data == p.data + payload + "\n";
    assert EventOf(q).data == p.data + payload;
    if p.data == "" {
      Nil(payload);
    } else {
      assert (p.data + payload)[|p.data| - 1] == '\n';
      assert forall i :: 0 <= i < |DONE| ==> DONE[i] != '\n';
    }
  }

  lemma AtFirstPayload(p: Parser, lines: seq<string>)
    requires Whole(p) && lines != [] && IsPayload(lines[0]) && lines[0] != PREFIX + DONE
    requires
      var q := ParseLine(p, lines[0]).parser;
      var o := Parser("", "", q.id);
      InStep(q, o, Some(q)) && Exact(q, o, Some(q), lines[1..])
    ensures Exact(p, p, None, lines)
  {
    hide ParseLine, ParseLines, IsDataField, Cut, Forwarded, IsPayload;
    var line, rest := lines[0], lines[1..];
    ForwardStep(lines);
    PayloadLine(line);
    DataLine(p, line);
    assert lines == [line] + rest;
    ParseStep(p, line, rest);
    ParsePayload(p, line, Forwarded(rest));
    var q := ParseLine(p, line).parser;
    Nil(ParseLines(p, Forwarded(lines)).events);
    Nil(ParseLines(q, rest).events);
  }

  /** A data field after the payload makes the event sent too early. */
  lemma AtLateData(p: Parser, o: Parser, sent: Option<Parser>, lines: seq<string>)
    requires InStep(p, o, sent) && sent.Some?
    requires lines != [] && IsDataField(lines[0])
    ensures Exact(p, o, sent, lines)
  {
    hide ParseLine, ParseLines, IsDataField, Cut, Forwarded, IsPayload, FieldValue;
    var line, rest := lines[0], lines[1..];
    BlankIsNoField();
    var q := ParseLine(p, line).parser;
    assert lines == [line] + rest;
    DataLine(p, line);
    ParseStep(p, line, rest);
    Nil(ParseLines(q, rest).events);
    EarlyIsDifferent(sent.value, q, rest, ParseLines(o, Forwarded(lines)).events);
  }

  lemma AtOtherLine(p: Parser, o: Parser, sent: Option<Parser>, lines: seq<string>)
    requires InStep(p, o, sent)
    requires lines != [] && lines[0] != "" && !IsPayload(lines[0]) && (IsDataField(lines[0]) ==> sent.None?)
    requires
      var q, r := ParseLine(p, lines[0]).parser, ParseLine(o, lines[0]).parser;
      InStep(q, r, sent) && Exact(q, r, sent, lines[1..])
    ensures Exact(p, o, sent, lines)
  {
    hide ParseLine, ParseLines, IsDataField, Cut, Forwarded, IsPayload;
    var line, rest := lines[0], lines[1..];
    var q, r := ParseLine(p, line).parser, ParseLine(o, line).parser;
    ForwardStep(lines);
    NotMarker(line);
    FieldStep(p, line);
    FieldStep(o, line);
    assert lines == [line] + rest;
    ParseStep(p, line, rest);
    ParseStep(o, line, Forwarded(rest));
    Nil(ParseLines(r, Forwarded(rest)).events);
    Nil(ParseLines(q, rest).events);
  }

  lemma StaysWhole(p: Parser, line: string)
    requires Whole(p) && line != ""
    ensures Whole(ParseLine(p, line).parser)
  {
    hide ParseLine, IsDataField, FieldValue;
    if IsDataField(line) { DataLine(p, line); } else { OtherLine(p, line); }
  }

  lemma {:induction false} ForwardsExactly(p: Parser, o: Parser, sent: Option<Parser>, lines: seq<string>)
    requires InStep(p, o, sent)
    ensures Exact(p, o, sent, lines)
    decreases |lines|
  {
    hide ParseLine, ParseLines, IsDataField, IsPayload, Exact, PREFIX;
    if lines == [] {
      AtTheEnd(p, o, sent);
    } else {
      var line, rest := lines[0], lines[1..];
      var q, r := ParseLine(p, line).parser, ParseLine(o, line).parser;
      if line == "" {
        ForwardsExactly(Dispatch(p).parser, Dispatch(p).parser, None, rest);
        AtBlankLine(p, o, sent, lines);
      } else if sent.Some? && IsDataField(line) {
        AtLateData(p, o, sent, lines);
      } else if line == PREFIX + DONE {
        PayloadIsData(DONE);
        AtEndMarker(p, lines);
      } else if IsPayload(line) {
        PayloadLine(line);
        NotTheMarker(p, line);
        ForwardsExactly(q, Parser("", "", q.id), Some(q), rest);
        AtFirstPayload(p, lines);
      } else {
        StaysWhole(p, line);
        if !IsDataField(line) {
          OtherLine(p, line);
          OtherLine(o, line);
        }
        SameId(p, o, line);
        ForwardsExactly(q, r, sent, rest);
        AtOtherLine(p, o, sent, lines);
      }
    }
  }

  /** Without a transform, the client sees exactly the upstream's events, through the
      first that reads as the end marker, if and only if every event has its payload
      line as its last data field, settles its type and ID before it, and ends with a
      blank line; and where the marker's line and an event that reads as the marker are
      not the same thing, no event is lost or added for it. */
  lemma MeaningPreservedIff(lines: seq<string>)
    ensures Events(Forwarded(lines)) == MapEvents(Events(lines), PLAIN, ()) <==> PayloadLast(FRESH, None, lines)
  {
    hide ParseLines, Forwarded, PayloadLast;
    ForwardsExactly(FRESH, FRESH, None, lines);
    Nil(ParseLines(FRESH, Forwarded(lines)).events);
  }

  /** A payload line, a blank line and what follows, with nothing held before. */
  lemma FirstEvent(id: string, payload: string, rest: seq<string>)
    ensures ParseLines(Parser("", "", id), [PREFIX + payload, ""] + rest).events
      == [Event("message", payload, id)] + ParseLines(Parser("", "", id), rest).events
  {
    hide ParseLine, ParseLines, FieldName, FieldValue, IsDataField;
    var p, line := Parser("", "", id), PREFIX + payload;
    PayloadIsData(payload);
    ParsePayload(p, line, rest);
    DataLine(p, line);
    Nil(payload);
    assert (payload + "\n")[..|payload|] == payload;
  }

  /** Two data lines make one event upstream and two for the client. */
  lemma TwoDataLinesBecomeTwoEvents(a: string, b: string)
    requires a != DONE && b != DONE
    ensures var lines := [PREFIX + a, PREFIX + b, ""];
      && Events(lines) == [Event("message", a + "\n" + b, "")]
      && Events(Forwarded(lines)) == [Event("message", a, ""), Event("message", b, "")]
  {
    hide ParseLine, ParseLines, FieldName, FieldValue, IsDataField, Forwarded, PREFIX;
    var la, lb := PREFIX + a, PREFIX + b;
    PayloadIsData(a);
    PayloadIsData(b);
    // upstream
    var p := ParseLine(FRESH, la).parser;
    DataLine(FRESH, la);
    DataLine(p, lb);
    var q := ParseLine(p, lb).parser;
    assert [la, lb, ""] == [la] + ([lb] + [""]) && [""] == [""] + [];
    ParseStep(FRESH, la, [lb] + [""]);
    ParseStep(p, lb, [""]);
    ParseStep(q, "", []);
    BlankLineDispatches(q);
    NoLines(Dispatch(q).parser);
    Nil(a);
    assert q.data == a + "\n" + b + "\n";
    assert q.data[..|q.data| - 1] == a + "\n" + b;
    // the client
    assert a == la[|PREFIX|..] && b == lb[|PREFIX|..];
    ForwardStep([la, lb, ""]);
    assert [la, lb, ""][1..] == [lb, ""] && [lb, ""][1..] == [""] && [""][1..] == [];
    ForwardStep([lb, ""]);
    ForwardStep([""]);
    NoLines(FRESH);
    assert !IsPayload("") by { if IsPayload("") { PayloadLine(""); } }
    FirstEvent("", a, [lb, ""] + [""]);
    FirstEvent("", b, [""]);
    ParseStep(FRESH, "", []);
    BlankLineDispatches(FRESH);
  }

  /** An unfinished last event is dropped upstream and dispatched to the client. */
  lemma UnfinishedEventIsDispatched(a: string)
    ensures Events([PREFIX + a]) == [] && Events(Forwarded([PREFIX + a])) == [Event("message", a, "")]
  {
    hide ParseLine, ParseLines, FieldName, FieldValue, IsDataField, Forwarded, PREFIX;
    var la := PREFIX + a;
    PayloadIsData(a);
    Nil([la]);
    ParseStep(FRESH, la, []);
    DataLine(FRESH, la);
    NoLines(ParseLine(FRESH, la).parser);
    assert a == la[|PREFIX|..];
    var one := [la];
    assert one[1..] == [];
    ForwardStep([la]);
    NoLines(FRESH);
    Nil([la, ""]);
    FirstEvent("", a, []);
  }

  /** An end marker's line inside an event with other data ends the stream for the
      client, but not upstream. */
  lemma MarkerInsideAnEventCutsTheStream(field: string, a: string)
    requires IsDataField(field) && !IsPayload(field)
    ensures var lines := [field, PREFIX + DONE, "", PREFIX + a, ""];
      Events(Forwarded(lines)) != MapEvents(Events(lines), PLAIN, ())
  {
    var tail := ["", PREFIX + a, ""];
    var marker := [PREFIX + DONE] + tail;
    var lines := [field] + marker;
    assert lines == [field, PREFIX + DONE, "", PREFIX + a, ""];
    var p := ParseLine(FRESH, field).parser;
    hide ParseLine, ParseLines, IsDataField, IsPayload, Forwarded, FieldValue;
    BlankIsNoField();
    NotMarker(field);
    DataLine(FRESH, field);
    assert lines[1..] == marker && marker[1..] == tail && tail[1..] == [PREFIX + a, ""];
    assert !NoEvent(false, tail[1..]) by { EventFollows(a); }
    var q := ParseLine(p, PREFIX + DONE).parser;
    assert !Settles(q, q, true, tail);
    PayloadIsData(DONE);
    assert !PayloadLast(p, None, marker);
    assert !PayloadLast(FRESH, None, lines);
    hide PayloadLast;
    MeaningPreservedIff(lines);
  }

  lemma EventFollows(a: string)
    ensures !NoEvent(false, [PREFIX + a, ""])
  {
    hide IsDataField;
    PayloadIsData(a);
    var lines := [PREFIX + a] + [""];
    assert lines == [PREFIX + a, ""] && lines[1..] == [""];
    assert !NoEvent(true, [""]);
  }
}
