/** The stripper as the program builds it, with its two fields and its loops. */
module ReasoningStripping {
  import opened GoStrings
  import opened Reasoning

  /** `longestSuffixPrefix`: try every proper prefix, longest first. */
  method LongestSuffixPrefix(value: string, prefix: string) returns (k: nat)
    ensures k == 0 || Border(value, prefix, k)
    ensures forall j :: k < j ==> !Border(value, prefix, j)
    ensures prefix != "" ==> k == Keep(value, prefix)
  {
    hide Keep;
    var max := |value|;
    if |prefix| - 1 < max {
      max := |prefix| - 1;
    }
    var i := max;
    while i > 0
      invariant i <= max
      invariant i < 0 ==> prefix == ""
      invariant forall j :: i < j && 0 < j ==> !Border(value, prefix, j)
    {
      if value[|value| - i..] == prefix[..i] {
        KeepIs(value, prefix, i);
        return i;
      }
      i := i - 1;
    }
    if prefix != "" {
      KeepIs(value, prefix, 0);
    }
    return 0;
  }

  /** The loop has put out `out` and has still to read `pending`. */
  ghost predicate Reading(whole: Scanned, out: string, pending: string, inReasoning: bool) {
    var r := Scan(pending, inReasoning);
    whole == r.(out := out + r.out)
  }

  /** Reading goes on behind a tag, with what comes before it put out if visible. */
  lemma BehindTag(whole: Scanned, out: string, pending: string, inReasoning: bool, i: nat)
    requires Reading(whole, out, pending, inReasoning)
    requires Index(pending, TagFor(inReasoning)) == Some(i)
    ensures var next := i + |TagFor(inReasoning)|;
      Reading(whole, out + Shown(inReasoning, pending[..i]), pending[next..], !inReasoning)
  {
    hide Index, TagFor, Scan;
    ScanAtTag(pending, inReasoning, i);
    var rest := Scan(pending[i + |TagFor(inReasoning)|..], !inReasoning);
    assert out + (Shown(inReasoning, pending[..i]) + rest.out) == out + Shown(inReasoning, pending[..i]) + rest.out;
  }

  /** Without a tag, only a beginning of one is kept. */
  lemma WithoutTag(whole: Scanned, out: string, pending: string, inReasoning: bool)
    requires Reading(whole, out, pending, inReasoning)
    requires Index(pending, TagFor(inReasoning)).None?
    ensures var m := |pending| - Keep(pending, TagFor(inReasoning));
      whole == Scanned(out + Shown(inReasoning, pending[..m]), pending[m..], inReasoning)
  {
    hide Index, TagFor, Scan, Keep;
    ScanNoTag(pending, inReasoning);
  }

  class ReasoningStripper {
    var pending: string
    var inReasoning: bool

    constructor ()
      ensures pending == "" && !inReasoning
    {
      pending, inReasoning := "", false;
    }

    /** The output and the state left behind are those of scanning the pending
        text followed by the chunk. */
    method FilterChunk(input: string) returns (out: string)
      modifies this
      ensures Scanned(out, pending, inReasoning) == Scan(old(pending) + input, old(inReasoning))
    {
      hide *;
      TagsAre();
      pending := pending + input;
      out := "";
      ghost var whole := Scan(pending, inReasoning);
      StartReading(pending, inReasoning);
      while true
        invariant Reading(whole, out, pending, inReasoning)
        decreases |pending|
      {
        if inReasoning {
          var idx := Index(pending, END);
          if idx.Some? {
            BehindTag(whole, out, pending, true, idx.value);
            HiddenIsNotShown(out, pending[..idx.value]);
            pending := pending[idx.value + |END|..];
            inReasoning := false;
            continue;
          }
          WithoutTag(whole, out, pending, true);
          var keep := LongestSuffixPrefix(pending, END);
          HiddenIsNotShown(out, pending[..|pending| - keep]);
          if keep > 0 {
            pending := pending[|pending| - keep..];
          } else {
            pending := "";
          }
          break;
        }
        var idx := Index(pending, START);
        if idx.Some? {
          BehindTag(whole, out, pending, false, idx.value);
          VisibleIsShown(pending[..idx.value]);
          out := out + pending[..idx.value];
          pending := pending[idx.value + |START|..];
          inReasoning := true;
          continue;
        }
        WithoutTag(whole, out, pending, false);
        var keep := LongestSuffixPrefix(pending, START);
        VisibleIsShown(pending[..|pending| - keep]);
        if keep > 0 {
          out := out + pending[..|pending| - keep];
          pending := pending[|pending| - keep..];
        } else {
          out := out + pending;
          pending := "";
        }
        break;
      }
    }

    /** What is left when the text has ended. */
    method Flush() returns (out: string)
      modifies this
      ensures out == FlushText(old(Scanned("", pending, inReasoning)))
      ensures pending == "" && inReasoning == old(inReasoning)
    {
      if inReasoning {
        pending := "";
        return "";
      }
      out := pending;
      pending := "";
    }
  }

  lemma StartReading(pending: string, inReasoning: bool)
    ensures Reading(Scan(pending, inReasoning), "", pending, inReasoning)
  {
    hide Scan;
    var r := Scan(pending, inReasoning);
    assert "" + r.out == r.out;
  }

  lemma HiddenIsNotShown(out: string, v: string)
    ensures out + Shown(true, v) == out
  {
  }

  lemma VisibleIsShown(v: string)
    ensures Shown(false, v) == v
  {
  }

  lemma TagsAre()
    ensures TagFor(true) == END && TagFor(false) == START && |END| > 0 && |START| > 0
  {
  }

  /** The one-call form, for responses that are not streamed. */
  method StripReasoning(content: string) returns (result: string)
    ensures result == Strip(content)
  {
    var stripper := new ReasoningStripper();
    result := stripper.FilterChunk(content);
    assert "" + content == content;
    var tail := stripper.Flush();
    result := result + tail;
  }
}
