/** The grammar the stripper implements: visible text without a start tag,
    alternating with hidden text without an end tag. */
module ReasoningGrammar {
  import opened GoStrings
  import opened Reasoning

  datatype Doc =
    | Tail(visible: string)                               // visible to the end
    | OpenEnded(visible: string, hidden: string)          // a block that never closes
    | Block(visible: string, hidden: string, rest: Doc)

  function Render(d: Doc): string {
    match d
    case Tail(v) => v
    case OpenEnded(v, h) => v + START + h
    case Block(v, h, rest) => v + START + (h + END + Render(rest))
  }

  ghost predicate WellFormed(d: Doc) {
    match d
    case Tail(v) => !Contains(v, START)
    case OpenEnded(v, h) => !Contains(v, START) && !Contains(h, END)
    case Block(v, h, rest) => !Contains(v, START) && !Contains(h, END) && WellFormed(rest)
  }

  function VisibleText(d: Doc): string {
    match d
    case Tail(v) => v
    case OpenEnded(v, _) => v
    case Block(v, _, rest) => v + VisibleText(rest)
  }

  /** The text ends visibly with this segment. */
  function LastVisible(d: Doc): Option<string> {
    match d
    case Tail(v) => Some(v)
    case OpenEnded(_, _) => None
    case Block(_, _, rest) => LastVisible(rest)
  }

  /** A tag written after text that has none is the first one: no occurrence can
      overlap both, because a tag never overlaps itself. */
  lemma FirstTagIsWritten(v: string, tag: string, rest: string)
    requires Headed(tag) && !Contains(v, tag)
    ensures Index(v + tag + rest, tag) == Some(|v|)
  {
    hide Index;
    var s := v + tag + rest;
    assert s[|v|..|v| + |tag|] == tag;
    forall j | 0 <= j < |v| ensures !OccursAt(s, tag, j) {
      var k := |v| - j;
      if k < |tag| {
        assert s[|v|] == tag[0] && tag[k] != tag[0];
        assert j + |tag| <= |s| ==> s[j..j + |tag|][k] == s[|v|];
      } else {
        assert !OccursAt(v, tag, j);
        assert s[j..j + |tag|] == v[j..j + |tag|];
      }
    }
    IndexIs(s, tag, Some(|v|));
  }

  lemma NoTagMeansNone(v: string, tag: string)
    ensures Contains(v, tag) <==> Index(v, tag).Some?
  {
    hide Index;
  }

  /** Scanning a written block. */
  lemma ScanWritten(v: string, inReasoning: bool, rest: string)
    requires !Contains(v, TagFor(inReasoning))
    ensures Scan(v + TagFor(inReasoning) + rest, inReasoning)
         == var r := Scan(rest, !inReasoning); r.(out := Shown(inReasoning, v) + r.out)
  {
    hide Index, Keep, Scan, TagFor;
    var tag := TagFor(inReasoning);
    var s := v + tag + rest;
    FirstTagIsWritten(v, tag, rest);
    ScanAtTag(s, inReasoning, |v|);
    assert s[|v| + |tag|..] == rest && s[..|v|] == v;
  }

  lemma ScanUntagged(v: string, inReasoning: bool)
    requires !Contains(v, TagFor(inReasoning))
    ensures var r := Scan(v, inReasoning);
      && r.inReasoning == inReasoning
      && r.out + FlushText(r) == Shown(inReasoning, v)
      && r.pending == v[|v| - Keep(v, TagFor(inReasoning))..]
  {
    hide Index, Keep, Scan, TagFor, Border, Contains;
    var tag := TagFor(inReasoning);
    NoTagMeansNone(v, tag);
    ScanNoTag(v, inReasoning);
    var m := |v| - Keep(v, tag);
    assert v[..m] + v[m..] == v;
  }

  lemma TagsOf()
    ensures TagFor(false) == START && TagFor(true) == END
  {
  }

  /** The stripper returns exactly the visible segments, and holds back exactly the
      longest beginning of a start tag that ends a visible last segment. */
  lemma {:induction false} StripsToVisible(d: Doc)
    requires WellFormed(d)
    ensures var r := Scan(Render(d), false);
      && r.out + FlushText(r) == VisibleText(d)
      && FlushText(r) == match LastVisible(d) { case None => "" case Some(v) => v[|v| - Keep(v, START)..] }
  {
    hide Index, Keep, Scan, Border, Contains, TagFor;
    TagsOf();
    match d
    case Tail(v) =>
      ScanUntagged(v, false);
    case OpenEnded(v, h) =>
      ScanWritten(v, false, h);
      ScanUntagged(h, true);
      var r := Scan(h, true);
      assert r.out + FlushText(r) == "" && r.inReasoning;
      assert r.out == "" && v + "" == v;
    case Block(v, h, rest) =>
      StripsToVisible(rest);
      ScanBlock(v, h, Render(rest));
      BlockFlushes(v, Scan(Render(rest), false));
  }

  lemma BlockFlushes(v: string, r: Scanned)
    ensures var s := r.(out := v + r.out);
      s.out + FlushText(s) == v + (r.out + FlushText(r)) && FlushText(s) == FlushText(r)
  {
    assert v + (r.out + FlushText(r)) == v + r.out + FlushText(r);
  }

  lemma ScanBlock(v: string, h: string, rest: string)
    requires !Contains(v, START) && !Contains(h, END)
    ensures Scan(v + START + (h + END + rest), false) == var r := Scan(rest, false); r.(out := v + r.out)
  {
    hide Index, Keep, Scan;
    ScanWritten(v, false, h + END + rest);
    ScanWritten(h, true, rest);
  }

  /** Every text has a decomposition. */
  function Parse(text: string): (d: Doc)
    ensures WellFormed(d) && Render(d) == text
    decreases |text|
  {
    hide Index;
    match Index(text, START)
    case None => Tail(text)
    case Some(i) =>
      var v, after := text[..i], text[i + |START|..];
      assert !Contains(v, START) by { BeforeFirst(text, START); }
      assert text == v + START + after;
      match Index(after, END)
      case None => OpenEnded(v, after)
      case Some(j) =>
        var h, rest := after[..j], after[j + |END|..];
        assert !Contains(h, END) by { BeforeFirst(after, END); }
        assert after == h + END + rest;
        Block(v, h, Parse(rest))
  }

  lemma BeforeFirst(s: string, tag: string)
    requires tag != "" && Index(s, tag).Some?
    ensures !Contains(s[..Index(s, tag).value], tag)
  {
    hide Index;
    var v := s[..Index(s, tag).value];
    forall j ensures !OccursAt(v, tag, j) {
      if 0 <= j && j + |tag| <= |v| {
        assert v[j..j + |tag|] == s[j..j + |tag|];
        assert !OccursAt(s, tag, j);
      }
    }
  }

  /** ... and only one. */
  lemma {:induction false} ParseIsUnique(d: Doc)
    requires WellFormed(d)
    ensures Parse(Render(d)) == d
    decreases |Render(d)|
  {
    hide Index;
    var text := Render(d);
    match d
    case Tail(v) =>
      NoTagMeansNone(v, START);
    case OpenEnded(v, h) =>
      FirstTagIsWritten(v, START, h);
      assert text[|v| + |START|..] == h && text[..|v|] == v;
      NoTagMeansNone(h, END);
    case Block(v, h, rest) =>
      var after := h + END + Render(rest);
      assert text == v + START + after;
      FirstTagIsWritten(v, START, after);
      assert text[|v| + |START|..] == after && text[..|v|] == v;
      FirstTagIsWritten(h, END, Render(rest));
      assert after[|h| + |END|..] == Render(rest) && after[..|h|] == h;
      ParseIsUnique(rest);
  }

  /** Grammar correctness: any decomposition of a text is the one that `Parse`
      finds, and stripping returns its visible segments. */
  lemma StripIsGrammatical(text: string, d: Doc)
    requires WellFormed(d) && Render(d) == text
    ensures d == Parse(text)
    ensures Strip(text) == VisibleText(d)
  {
    hide Index, Keep, Scan, Parse;
    ParseIsUnique(d);
    StripsToVisible(d);
  }

  /** For example, one block between two visible texts is cut out. */
  lemma OneBlockIsCutOut(before: string, hidden: string, after: string)
    requires !Contains(before, "<reasoning>") && !Contains(after, "<reasoning>") && !Contains(hidden, "</reasoning>")
    ensures Strip(before + "<reasoning>" + (hidden + "</reasoning>" + after)) == before + after
  {
    hide Index, Keep, Scan, Strip, Parse, Contains;
    var d := Block(before, hidden, Tail(after));
    StripIsGrammatical(Render(d), d);
  }

  /** A text passes unchanged exactly when it has no start tag. */
  lemma UnchangedIffUntagged(text: string)
    ensures Strip(text) == text <==> !Contains(text, START)
  {
    hide Index, Keep, Scan, Strip, Parse;
    var d := Parse(text);
    StripIsGrammatical(text, d);
    VisibleIsShorter(d);
    if !Contains(text, START) {
      StripIsGrammatical(text, Tail(text));
    }
  }

  lemma {:induction false} VisibleIsShorter(d: Doc)
    ensures |VisibleText(d)| <= |Render(d)|
    ensures !d.Tail? ==> |VisibleText(d)| < |Render(d)|
  {
    if d.Block? {
      VisibleIsShorter(d.rest);
    }
  }

  /** Stripping can join two visible pieces into a tag, so it is not idempotent and its
      result may contain one: a tag cut in two by a block comes out whole, as in
      `<rea<reasoning>x</reasoning>soning>`. */
  lemma StrippedTextMayHoldATag(k: nat, hidden: string)
    requires 1 <= k < |START| && !Contains(hidden, END)
    ensures var text := START[..k] + START + (hidden + END + START[k..]);
      Strip(text) == START && Strip(Strip(text)) == ""
  {
    hide Index, Keep, Scan, Strip, Parse, Contains;
    var d := Block(START[..k], hidden, Tail(START[k..]));
    var e := OpenEnded("", "");
    TooShort(START[..k], START);
    TooShort(START[k..], START);
    TooShort("", START);
    TooShort("", END);
    JoinedHalves(k);
    assert Render(e) == START;
    StripIsGrammatical(Render(d), d);
    StripIsGrammatical(START, e);
  }

  lemma JoinedHalves(k: nat)
    requires k <= |START|
    ensures START[..k] + START[k..] == START
  {
  }

  lemma TooShort(v: string, tag: string)
    requires |v| < |tag|
    ensures !Contains(v, tag)
  {
  }

  /** The visible segments, one after another, start by spelling `t`. */
  predicate Spells(d: Doc, t: string)
    decreases d
  {
    match d
    case Tail(v) => t <= v
    case OpenEnded(v, _) => t <= v
    case Block(v, _, rest) => if |t| <= |v| then t <= v else v <= t && Spells(rest, t[|v|..])
  }

  /** Somewhere a visible segment ends in a proper beginning of the start tag, and the
      segments behind the block that follows it spell the rest of the tag. */
  ghost predicate JoinsTag(d: Doc)
    decreases d
  {
    d.Block? && (JoinsHere(d.visible, d.rest) || JoinsTag(d.rest))
  }

  ghost predicate JoinsHere(v: string, rest: Doc) {
    exists k :: 1 <= k && Border(v, START, k) && Spells(rest, START[k..])
  }

  lemma {:induction false} SpellsIff(d: Doc, t: string)
    ensures Spells(d, t) <==> t <= VisibleText(d)
    decreases d
  {
    if d.Block? {
      var v, r := d.visible, VisibleText(d.rest);
      PrefixOfJoin(t, v, r);
      if |t| > |v| { SpellsIff(d.rest, t[|v|..]); }
    }
  }

  lemma PrefixOfJoin(t: string, a: string, b: string)
    ensures t <= a + b <==> if |t| <= |a| then t <= a else a <= t && t[|a|..] <= b
  {
    if |t| <= |a| {
      assert (a + b)[..|t|] == a[..|t|];
    } else {
      assert t == t[..|a|] + t[|a|..];
      if t <= a + b {
        assert t[..|a|] == (a + b)[..|a|] == a;
        assert t[|a|..] == (a + b)[|a|..|t|];
        assert (a + b)[|a|..] == b;
      }
    }
  }

  /** An occurrence in a joined text lies on one side or crosses over. */
  lemma OccursInJoin(v: string, r: string, tag: string, j: nat)
    requires tag != "" && OccursAt(v + r, tag, j)
    ensures
      || OccursAt(v, tag, j)
      || (j >= |v| && OccursAt(r, tag, j - |v|))
      || (1 <= |v| - j && Border(v, tag, |v| - j) && tag[|v| - j..] <= r)
  {
    var s := v + r;
    if j + |tag| <= |v| {
      assert s[j..j + |tag|] == v[j..j + |tag|];
    } else if j >= |v| {
      assert s[j..j + |tag|] == r[j - |v|..j - |v| + |tag|];
    } else {
      var k := |v| - j;
      assert tag[..k] == s[j..j + |tag|][..k] == v[j..];
      assert tag[k..] == s[j..j + |tag|][k..] == r[..|tag| - k];
    }
  }

  lemma OccursAcross(v: string, r: string, tag: string, k: nat)
    requires 1 <= k && Border(v, tag, k) && tag[k..] <= r
    ensures OccursAt(v + r, tag, |v| - k)
  {
    var s := v + r;
    assert tag == tag[..k] + tag[k..];
    assert s[|v| - k..|v| - k + |tag|] == v[|v| - k..] + r[..|tag| - k];
  }

  lemma OccursBehind(v: string, r: string, tag: string, j: nat)
    requires OccursAt(r, tag, j)
    ensures OccursAt(v + r, tag, |v| + j)
  {
    assert (v + r)[|v| + j..|v| + j + |tag|] == r[j..j + |tag|];
  }

  /** The visible segments of a decomposition join into a start tag just then. */
  lemma {:induction false} VisibleHasTagIff(d: Doc)
    requires WellFormed(d)
    ensures Contains(VisibleText(d), START) <==> JoinsTag(d)
    decreases d
  {
    if d.Block? {
      hide Border, OccursAt, Spells, VisibleText;
      var v, rest := d.visible, d.rest;
      var r := VisibleText(rest);
      assert VisibleText(d) == v + r by { BlockText(d); }
      VisibleHasTagIff(rest);
      if Contains(v + r, START) {
        var j :| OccursAt(v + r, START, j);
        OccursSomewhere(v + r, START, j);
        OccursInJoin(v, r, START, j);
        if 1 <= |v| - j && Border(v, START, |v| - j) && START[|v| - j..] <= r {
          SpellsIff(rest, START[|v| - j..]);
        }
      }
      if JoinsHere(v, rest) {
        var k :| 1 <= k && Border(v, START, k) && Spells(rest, START[k..]);
        SpellsIff(rest, START[k..]);
        OccursAcross(v, r, START, k);
      }
      if Contains(r, START) {
        var j :| OccursAt(r, START, j);
        OccursSomewhere(r, START, j);
        OccursBehind(v, r, START, j);
      }
    }
  }

  lemma BlockText(d: Doc)
    requires d.Block?
    ensures VisibleText(d) == d.visible + VisibleText(d.rest)
  {
  }

  lemma OccursSomewhere(s: string, tag: string, j: int)
    requires OccursAt(s, tag, j)
    ensures 0 <= j
  {
  }

  /** Stripping twice is stripping once if and only if no visible segment ends in a
      beginning of the start tag that the segments behind its block complete. */
  lemma IdempotentIff(text: string)
    ensures Strip(Strip(text)) == Strip(text) <==> !JoinsTag(Parse(text))
  {
    hide Index, Keep, Scan, Strip, Parse, JoinsTag;
    StripIsGrammatical(text, Parse(text));
    UnchangedIffUntagged(Strip(text));
    VisibleHasTagIff(Parse(text));
  }

  /** No visible segment before a block ends in a beginning of the start tag. */
  ghost predicate CleanEnds(d: Doc)
    decreases d
  {
    d.Block? ==> (forall k :: 1 <= k ==> !Border(d.visible, START, k)) && CleanEnds(d.rest)
  }

  lemma {:induction false} CleanEndsJoinNothing(d: Doc)
    requires CleanEnds(d)
    ensures !JoinsTag(d)
    decreases d
  {
    if d.Block? {
      CleanEndsJoinNothing(d.rest);
    }
  }

  /** A guard that is easier to check, and enough. */
  lemma IdempotentWhenEndsAreClean(text: string)
    requires CleanEnds(Parse(text))
    ensures Strip(Strip(text)) == Strip(text)
  {
    hide Strip, Parse, CleanEnds, JoinsTag;
    CleanEndsJoinNothing(Parse(text));
    IdempotentIff(text);
  }

  /** Output that is never flushed is complete exactly when the text does not end,
      visibly, in a beginning of a start tag. */
  lemma NothingHeldBackIff(text: string)
    ensures Scan(text, false).out == Strip(text) <==>
      (var last := LastVisible(Parse(text));
       last.Some? ==> forall k :: 1 <= k ==> !Border(last.value, START, k))
  {
    hide Index, Keep, Scan, Parse;
    var d := Parse(text);
    StripsToVisible(d);
    var r := Scan(text, false);
    assert Strip(text) == r.out + FlushText(r);
    assert r.out == Strip(text) <==> FlushText(r) == "";
  }
}
