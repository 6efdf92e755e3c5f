/** Interpreting an event stream, as section 9.2.6 of the WHATWG HTML Living Standard
    describes it, from lines to dispatched events. Reconnection times never show in
    events and are not kept. */
module EventStream {
  import opened GoStrings

  datatype Event = Event(eventType: string, data: string, lastEventId: string)

  /** The data buffer, the event type buffer and the last event ID buffer. */
  datatype Parser = Parser(data: string, eventType: string, id: string)

  datatype Parsed = Parsed(parser: Parser, events: seq<Event>)

  const FRESH := Parser("", "", "")

  predicate IsComment(line: string) {
    line != "" && line[0] == ':'
  }

  function FieldName(line: string): string {
    match Index(line, ":")
    case Some(i) => line[..i]
    case None => line
  }

  function FieldValue(line: string): string {
    match Index(line, ":")
    case Some(i) =>
      var v := line[i + 1..];
      if v != "" && v[0] == ' ' then v[1..] else v
    case None => ""
  }

  function ProcessField(p: Parser, name: string, value: string): Parser {
    if name == "event" then p.(eventType := value)
    else if name == "data" then p.(data := p.data + value + "\n")
    else if name == "id" then (if (0 as char) in value then p else p.(id := value))
    else p
  }

  function EventOf(p: Parser): Event
    requires p.data != ""
  {
    Event(if p.eventType == "" then "message" else p.eventType, p.data[..|p.data| - 1], p.id)
  }

  /** Dispatch: an empty data buffer makes no event. */
  function Dispatch(p: Parser): Parsed {
    Parsed(Parser("", "", p.id), if p.data == "" then [] else [EventOf(p)])
  }

  function ParseLine(p: Parser, line: string): Parsed {
    if line == "" then Dispatch(p)
    else if IsComment(line) then Parsed(p, [])
    else Parsed(ProcessField(p, FieldName(line), FieldValue(line)), [])
  }

  /** All events of some lines; an event that no blank line ends is not dispatched. */
  function ParseLines(p: Parser, lines: seq<string>): Parsed
    decreases |lines|
  {
    if lines == [] then Parsed(p, [])
    else
      var first := ParseLine(p, lines[0]);
      var rest := ParseLines(first.parser, lines[1..]);
      rest.(events := first.events + rest.events)
  }

  function Events(lines: seq<string>): seq<Event> {
    ParseLines(FRESH, lines).events
  }

  lemma {:induction false} ParseAppend(p: Parser, a: seq<string>, b: seq<string>)
    ensures var x := ParseLines(p, a);
      var y := ParseLines(x.parser, b);
      ParseLines(p, a + b) == y.(events := x.events + y.events)
    decreases |a|
  {
    hide ParseLine;
    if a == [] {
      assert a + b == b;
    } else {
      var first := ParseLine(p, a[0]);
      ParseAppend(first.parser, a[1..], b);
      assert (a + b)[0] == a[0] && (a + b)[1..] == a[1..] + b;
      var x := ParseLines(first.parser, a[1..]);
      var y := ParseLines(x.parser, b);
      assert first.events + (x.events + y.events) == first.events + x.events + y.events;
    }
  }

  /** The line holds a field of the data buffer. */
  predicate IsDataField(line: string) {
    line != "" && !IsComment(line) && FieldName(line) == "data"
  }

  // ------------------------------------------------------------ text and lines

  predicate OneLine(line: string) {
    '\n' !in line
  }

  function Unlines(lines: seq<string>): string {
    if lines == [] then "" else lines[0] + "\n" + Unlines(lines[1..])
  }

  /** The complete lines of a text. */
  function Lines(text: string): seq<string>
    decreases |text|
  {
    match Index(text, "\n")
    case None => []
    case Some(i) => [text[..i]] + Lines(text[i + 1..])
  }

  lemma {:induction false} LinesOfUnlines(lines: seq<string>)
    requires forall i :: 0 <= i < |lines| ==> OneLine(lines[i])
    ensures Lines(Unlines(lines)) == lines
    decreases |lines|
  {
    hide Index;
    if lines != [] {
      var text := Unlines(lines);
      var n := |lines[0]|;
      assert text[n..n + 1] == "\n";
      assert OccursAt(text, "\n", n);
      forall j | 0 <= j < n ensures !OccursAt(text, "\n", j) {
        assert text[j..j + 1][0] == lines[0][j];
      }
      assert Index(text, "\n") == Some(n);
      assert text[..n] == lines[0] && text[n + 1..] == Unlines(lines[1..]);
      LinesOfUnlines(lines[1..]);
    }
  }

  lemma {:induction false} UnlinesAppend(a: seq<string>, b: seq<string>)
    ensures Unlines(a + b) == Unlines(a) + Unlines(b)
    decreases |a|
  {
    if a == [] {
      assert a + b == b;
    } else {
      UnlinesAppend(a[1..], b);
      assert (a + b)[0] == a[0] && (a + b)[1..] == a[1..] + b;
      assert a[0] + "\n" + (Unlines(a[1..]) + Unlines(b)) == a[0] + "\n" + Unlines(a[1..]) + Unlines(b);
    }
  }
}
