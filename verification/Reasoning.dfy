/** The reasoning stripper: text between the tags is dropped, and a tag may be
    split over any number of chunks. */
module Reasoning {
  import opened GoStrings

  const START := "<reasoning>"
  const END := "</reasoning>"

  /** The first character of a tag does not come again in it, so no tag overlaps itself. */
  ghost predicate Headed(tag: string) {
    tag != "" && forall k :: 1 <= k < |tag| ==> tag[k] != tag[0]
  }

  function TagFor(inReasoning: bool): (tag: string)
    ensures Headed(tag) && |tag| <= 12 && (!inReasoning ==> |tag| == 11)
  {
    if inReasoning then END else START
  }

  /** The last `k` characters of `v` are a proper beginning of `tag`. */
  predicate Border(v: string, tag: string, k: int) {
    0 <= k <= |v| && k < |tag| && v[|v| - k..] == tag[..k]
  }

  /** The longest such `k`. */
  function Keep(v: string, tag: string): (k: nat)
    requires tag != ""
    ensures k <= |v| && k < |tag| && Border(v, tag, k)
    ensures forall j :: k < j ==> !Border(v, tag, j)
  {
    KeepBelow(v, tag, if |v| < |tag| - 1 then |v| else |tag| - 1)
  }

  function KeepBelow(v: string, tag: string, max: nat): (k: nat)
    requires max < |tag| && max <= |v|
    requires forall j :: max < j ==> !Border(v, tag, j)
    ensures Border(v, tag, k)
    ensures forall j :: k < j ==> !Border(v, tag, j)
  {
    if Border(v, tag, max) then max else KeepBelow(v, tag, max - 1)
  }

  /** What a chunk produces, and the state it leaves. */
  datatype Scanned = Scanned(out: string, pending: string, inReasoning: bool)

  function Shown(inReasoning: bool, v: string): string {
    if inReasoning then "" else v
  }

  /** The effect of the chunk loop on the unread text `s`. */
  function Scan(s: string, inReasoning: bool): Scanned
    decreases |s|
  {
    var tag := TagFor(inReasoning);
    match Index(s, tag)
    case Some(i) =>
      var rest := Scan(s[i + |tag|..], !inReasoning);
      rest.(out := Shown(inReasoning, s[..i]) + rest.out)
    case None =>
      var m := |s| - Keep(s, tag);
      Scanned(Shown(inReasoning, s[..m]), s[m..], inReasoning)
  }

  /** What `Flush` adds after the last chunk. */
  function FlushText(r: Scanned): string {
    if r.inReasoning then "" else r.pending
  }

  function Strip(text: string): string {
    Scan(text, false).out + FlushText(Scan(text, false))
  }

  /** Chunk after chunk, from a given state. */
  function Feed(st: Scanned, chunks: seq<string>): Scanned
    decreases |chunks|
  {
    if chunks == [] then st
    else
      var r := Scan(st.pending + chunks[0], st.inReasoning);
      Feed(r.(out := st.out + r.out), chunks[1..])
  }

  const FRESH := Scanned("", "", false)

  // ------------------------------------------------------ chunk independence

  /** More text does not move an occurrence that was there already. */
  lemma IndexExtends(a: string, b: string, tag: string)
    requires Index(a, tag).Some?
    ensures Index(a + b, tag) == Index(a, tag)
  {
    hide Index, Keep, TagFor;
    var i := Index(a, tag).value;
    assert (a + b)[i..i + |tag|] == a[i..i + |tag|];
    assert OccursAt(a + b, tag, i);
    forall j | j < i ensures !OccursAt(a + b, tag, j) {
      assert !OccursAt(a, tag, j);
      if 0 <= j { assert (a + b)[j..j + |tag|] == a[j..j + |tag|]; }
    }
  }

  /** A tag, or a beginning of one, that runs over the end of `a` leaves a
      beginning of the tag at the end of `a`. */
  lemma Straddles(a: string, b: string, tag: string, j: nat)
    requires j <= |a| < j + |tag|
    ensures OccursAt(a + b, tag, j) ==> Border(a, tag, |a| - j)
    ensures Border(a + b, tag, |a + b| - j) ==> Border(a, tag, |a| - j)
  {
    var n := |a| - j;
    assert (a + b)[j..][..n] == a[j..];
    if OccursAt(a + b, tag, j) {
      assert (a + b)[j..j + |tag|][..n] == a[j..];
    }
    if Border(a + b, tag, |a + b| - j) {
      assert tag[..|a + b| - j][..n] == tag[..n];
      assert (a + b)[j..] == tag[..|a + b| - j];
    }
  }

  /** No tag and no beginning of a tag that reaches the end starts before the kept part. */
  lemma NothingStartsEarly(a: string, b: string, tag: string, j: nat)
    requires tag != "" && Index(a, tag).None?
    requires j < |a| - Keep(a, tag)
    ensures !OccursAt(a + b, tag, j)
    ensures !Border(a + b, tag, |a + b| - j)
  {
    hide Index, Keep, TagFor;
    if |a| - j < |tag| {
      Straddles(a, b, tag, j);
    } else {
      assert !OccursAt(a, tag, j);
      assert (a + b)[j..j + |tag|] == a[j..j + |tag|];
    }
  }

  /** First occurrences are determined by where `tag` occurs. */
  lemma IndexIs(s: string, tag: string, i: Option<nat>)
    requires i.Some? ==> OccursAt(s, tag, i.value) && forall j :: j < i.value ==> !OccursAt(s, tag, j)
    requires i.None? ==> forall j :: !OccursAt(s, tag, j)
    ensures Index(s, tag) == i
  {
    hide Index, Keep, TagFor;
  }

  lemma KeepIs(s: string, tag: string, k: nat)
    requires tag != "" && Border(s, tag, k) && forall j :: k < j ==> !Border(s, tag, j)
    ensures Keep(s, tag) == k
  {
    hide Index, Keep, TagFor;
  }

  lemma SliceOfSuffix(t: string, m: nat, j: nat, n: nat)
    requires m <= j && j + n <= |t|
    ensures t[m..][j - m..j - m + n] == t[j..j + n]
  {
  }

  /** So only the kept part matters for what comes next. */
  lemma KeptPartSuffices(a: string, b: string, tag: string)
    requires tag != "" && Index(a, tag).None?
    ensures var m := |a| - Keep(a, tag);
      var s := a[m..] + b;
      && Index(a + b, tag) == (match Index(s, tag) case None => None case Some(i) => Some(m + i))
      && Keep(a + b, tag) == Keep(s, tag)
  {
    hide Index, Keep, TagFor;
    var m := |a| - Keep(a, tag);
    var s := a[m..] + b;
    assert s == (a + b)[m..];
    forall j | j < m ensures !OccursAt(a + b, tag, j) {
      if 0 <= j { NothingStartsEarly(a, b, tag, j); }
    }
    forall j | m <= j ensures OccursAt(a + b, tag, j) <==> OccursAt(s, tag, j - m) {
      if j + |tag| <= |a + b| { SliceOfSuffix(a + b, m, j, |tag|); }
    }
    var i := Index(s, tag);
    if i.Some? {
      assert OccursAt(a + b, tag, m + i.value);
      IndexIs(a + b, tag, Some(m + i.value));
    } else {
      IndexIs(a + b, tag, None);
    }
    forall k ensures Border(a + b, tag, k) <==> Border(s, tag, k) {
      if 0 <= k <= |s| {
        assert (a + b)[|a + b| - k..] == s[|s| - k..];
      } else if |s| < k <= |a + b| {
        NothingStartsEarly(a, b, tag, |a + b| - k);
      }
    }
    KeepIs(a + b, tag, Keep(s, tag));
  }

  lemma ScanAtTag(s: string, inReasoning: bool, i: nat)
    requires Index(s, TagFor(inReasoning)) == Some(i)
    ensures var rest := Scan(s[i + |TagFor(inReasoning)|..], !inReasoning);
      Scan(s, inReasoning) == rest.(out := Shown(inReasoning, s[..i]) + rest.out)
  {
    hide Index, Keep, TagFor;
  }

  lemma ScanNoTag(s: string, inReasoning: bool)
    requires Index(s, TagFor(inReasoning)).None?
    ensures var m := |s| - Keep(s, TagFor(inReasoning));
      Scan(s, inReasoning) == Scanned(Shown(inReasoning, s[..m]), s[m..], inReasoning)
  {
    hide Index, Keep, TagFor;
  }

  /** Cutting `a + b` beyond `m` is cutting what follows `m`. */
  lemma CutLater(a: string, b: string, m: nat, x: nat)
    requires m <= |a| && m + x <= |a + b|
    ensures var s := a[m..] + b;
      (a + b)[m + x..] == s[x..] && (a + b)[..m + x] == a[..m] + s[..x]
  {
  }

  lemma ShownPrefix(inReasoning: bool, a: string, b: string, m: nat, x: nat)
    requires m <= |a| && m + x <= |a + b|
    ensures Shown(inReasoning, (a + b)[..m + x]) == Shown(inReasoning, a[..m]) + Shown(inReasoning, (a[m..] + b)[..x])
  {
    CutLater(a, b, m, x);
  }

  lemma ScanSplitNoTag(a: string, b: string, inReasoning: bool)
    requires Index(a, TagFor(inReasoning)).None?
    ensures var r := Scan(a, inReasoning);
      var q := Scan(r.pending + b, r.inReasoning);
      Scan(a + b, inReasoning) == q.(out := r.out + q.out)
  {
    hide Index, Keep, TagFor, Scan, Border, OccursAt;
    var tag := TagFor(inReasoning);
    KeptPartSuffices(a, b, tag);
    ScanNoTag(a, inReasoning);
    var m := |a| - Keep(a, tag);
    var s := a[m..] + b;
    var i := Index(s, tag);
    if i.Some? {
      ScanAtTag(s, inReasoning, i.value);
      ScanAtTag(a + b, inReasoning, m + i.value);
      CutLater(a, b, m, i.value + |tag|);
      ShownPrefix(inReasoning, a, b, m, i.value);
    } else {
      ScanNoTag(s, inReasoning);
      ScanNoTag(a + b, inReasoning);
      CutLater(a, b, m, |s| - Keep(s, tag));
      ShownPrefix(inReasoning, a, b, m, |s| - Keep(s, tag));
    }
  }

  /** Reading `a` and then `b` is reading `a + b`. */
  lemma {:induction false} ScanSplit(a: string, b: string, inReasoning: bool)
    ensures var r := Scan(a, inReasoning);
      var q := Scan(r.pending + b, r.inReasoning);
      Scan(a + b, inReasoning) == q.(out := r.out + q.out)
    decreases |a|
  {
    hide Index, Keep, TagFor, Scan;
    var tag := TagFor(inReasoning);
    var i := Index(a, tag);
    if i.Some? {
      var rest := a[i.value + |tag|..];
      IndexExtends(a, b, tag);
      ScanAtTag(a, inReasoning, i.value);
      ScanAtTag(a + b, inReasoning, i.value);
      assert (a + b)[i.value + |tag|..] == rest + b;
      assert (a + b)[..i.value] == a[..i.value];
      ScanSplit(rest, b, !inReasoning);
    } else {
      ScanSplitNoTag(a, b, inReasoning);
    }
  }

  /** Text that is only a proper beginning of a tag is held back as it is. */
  lemma ScanOfPending(s: string, inReasoning: bool)
    ensures var r := Scan(s, inReasoning);
      Scan(r.pending, r.inReasoning) == r.(out := "")
  {
    hide Index, Keep, TagFor;
    ScanSplit(s, "", inReasoning);
    var r := Scan(s, inReasoning);
    assert s + "" == s && r.pending + "" == r.pending;
    var q := Scan(r.pending, r.inReasoning);
    assert |r.out + q.out| == |r.out|;
  }

  /** Chunk independence: however a text is cut, feeding the pieces gives the same
      output and the same final state as one call on the whole text. */
  lemma {:induction false} ChunkIndependence(before: string, chunks: seq<string>)
    ensures Feed(Scan(before, false), chunks) == Scan(before + Concat(chunks), false)
    decreases |chunks|
  {
    hide Index, Keep, TagFor, Scan;
    var st := Scan(before, false);
    if chunks == [] {
      assert before + Concat(chunks) == before;
    } else {
      ScanSplit(before, chunks[0], false);
      ChunkIndependence(before + chunks[0], chunks[1..]);
      assert before + chunks[0] + Concat(chunks[1..]) == before + Concat(chunks);
    }
  }

  lemma ScanEmpty(inReasoning: bool)
    ensures Scan("", inReasoning) == Scanned("", "", inReasoning)
  {
    hide TagFor;
  }

  /** Streamed output plus the final flush is what one call strips. */
  lemma StreamedIsStripped(chunks: seq<string>)
    ensures var r := Feed(FRESH, chunks);
      && r == Scan(Concat(chunks), false)
      && r.out + FlushText(r) == Strip(Concat(chunks))
  {
    hide Index, Keep, TagFor, Scan;
    ScanEmpty(false);
    ChunkIndependence("", chunks);
    assert "" + Concat(chunks) == Concat(chunks);
  }

  // ------------------------------------------------------------ prefix and lag

  /** The text after the last complete tag. */
  function Unread(s: string, inReasoning: bool): string
    decreases |s|
  {
    var tag := TagFor(inReasoning);
    match Index(s, tag)
    case Some(i) => Unread(s[i + |tag|..], !inReasoning)
    case None => s
  }

  /** The pending text is the longest proper beginning of the awaited tag that ends
      the unread text `u`, which holds no such tag. */
  ghost predicate HoldsLongest(u: string, r: Scanned) {
    var tag := TagFor(r.inReasoning);
    && Index(u, tag).None?
    && Border(u, tag, |r.pending|)
    && r.pending == u[|u| - |r.pending|..]
    && (forall j :: |r.pending| < j ==> !Border(u, tag, j))
  }

  lemma {:induction false} PendingIsLongest(s: string, inReasoning: bool)
    ensures HoldsLongest(Unread(s, inReasoning), Scan(s, inReasoning))
    decreases |s|
  {
    hide Index, Keep, TagFor, Scan, Border;
    var tag := TagFor(inReasoning);
    var i := Index(s, tag);
    if i.Some? {
      ScanAtTag(s, inReasoning, i.value);
      hide HoldsLongest;
      PendingIsLongest(s[i.value + |tag|..], !inReasoning);
    } else {
      ScanNoTag(s, inReasoning);
      var k := Keep(s, tag);
      assert |s[|s| - k..]| == k;
    }
  }

  lemma LagIsBounded(s: string)
    ensures |FlushText(Scan(s, false))| <= 10
  {
    hide Index, Keep, TagFor, Scan;
    PendingIsLongest(s, false);
  }

  /** Whatever follows, the output so far is a beginning of the final result, and
      what is still missing for the text read so far is what `Flush` would add. */
  lemma OutputIsPrefix(chunks: seq<string>, more: string)
    ensures var r := Feed(FRESH, chunks);
      && r.out <= Strip(Concat(chunks) + more)
      && Strip(Concat(chunks)) == r.out + FlushText(r)
      && |FlushText(r)| <= 10
  {
    hide Index, Keep, TagFor, Scan;
    StreamedIsStripped(chunks);
    ScanSplit(Concat(chunks), more, false);
    LagIsBounded(Concat(chunks));
  }

  /** A way to continue that makes all of the held-back text disappear. */
  function Continuation(r: Scanned): string
    requires |r.pending| <= |START|
  {
    if r.inReasoning then "" else START[|r.pending|..]
  }

  lemma HeldBackMayVanish(text: string)
    ensures |FlushText(Scan(text, false))| <= 10
    ensures var r := Scan(text, false);
      !r.inReasoning ==> Strip(text + Continuation(r)) == r.out
    ensures var r := Scan(text, false);
      r.inReasoning ==> Strip(text) == r.out
  {
    hide Index, Keep, Scan;
    var r := Scan(text, false);
    PendingIsLongest(text, false);
    LagIsBounded(text);
    if !r.inReasoning {
      var more := Continuation(r);
      assert r.pending == START[..|r.pending|];
      assert r.pending + more == START;
      ScanSplit(text, more, false);
      CompleteTag();
    }
  }

  /** The stripper holds back no more than it must: every text that is safe to
      emit whatever follows is a beginning of the output so far. */
  lemma OutputIsLongestSafe(chunks: seq<string>, safe: string)
    requires forall more :: safe <= Strip(Concat(chunks) + more)
    ensures safe <= Feed(FRESH, chunks).out
  {
    hide Index, Keep, Scan, Strip;
    var text := Concat(chunks);
    StreamedIsStripped(chunks);
    HeldBackMayVanish(text);
    assert text + "" == text;
  }

  lemma CompleteTag()
    ensures Scan(START, false) == Scanned("", "", true)
  {
    hide Index, Keep, Scan;
    var tag := TagFor(false);
    assert tag[0..0 + |tag|] == tag;
    IndexIs(tag, tag, Some(0));
    ScanAtTag(tag, false, 0);
    assert tag[|tag|..] == "";
    ScanEmpty(true);
  }
}
