/** The three critical sections of the keyed admission controller, as functions
    on the table of per-key states. `W` is the identity of a waiter: a channel
    in the class, a call number in the machine. */
module AdmissionSpec {
  import opened GoStrings

  datatype Config = Config(maxConcurrency: int, maxQueue: int)

  predicate ValidConfig(c: Config) {
    c.maxConcurrency > 0 && c.maxQueue >= 0
  }

  datatype KeyState<W> = KeyState(inflight: int, waiting: int, waiters: seq<W>)

  type Table<W> = map<string, KeyState<W>>

  datatype Entered = Acquired | QueueFull | Enqueued

  function Lookup<W>(t: Table<W>, key: string): KeyState<W> {
    if key in t then t[key] else KeyState(0, 0, [])
  }

  /** The first locked section of `Acquire`. `w` is the newcomer's waiter, as a
      sequence because none is made unless it has to wait. */
  function Enter<W>(c: Config, t: Table<W>, key: string, w: seq<W>): (Table<W>, Entered) {
    var st := Lookup(t, key);
    if st.inflight < c.maxConcurrency then
      (t[key := st.(inflight := st.inflight + 1)], Acquired)
    else if st.waiting >= c.maxQueue then
      (t[key := st], QueueFull)
    else
      (t[key := st.(waiting := st.waiting + 1, waiters := st.waiters + w)], Enqueued)
  }

  /** The position of the first `w`, or the length when there is none. */
  function Position<W(==)>(s: seq<W>, w: W): (i: nat)
    ensures i <= |s|
    ensures w !in s[..i]
    ensures i < |s| ==> s[i] == w
    ensures i == |s| <==> w !in s
  {
    if s == [] then 0
    else if s[0] == w then 0
    else
      assert s == [s[0]] + s[1..];
      1 + Position(s[1..], w)
  }

  function Without<W>(s: seq<W>, i: nat): seq<W>
    requires i < |s|
  {
    s[..i] + s[i + 1..]
  }

  /** Put a key's state back, dropping the key when it has become idle. */
  function Keep<W>(t: Table<W>, key: string, st: KeyState<W>): Table<W> {
    if st.inflight == 0 && st.waiting == 0 then t - {key} else t[key := st]
  }

  /** `removeWaiter`: true when the waiter was still queued. */
  function RemoveWaiter<W(==)>(t: Table<W>, key: string, w: W): (Table<W>, bool) {
    if key !in t then (t, false)
    else
      var st := t[key];
      var i := Position(st.waiters, w);
      if i == |st.waiters| then (t, false)
      else (Keep(t, key, st.(waiting := st.waiting - 1, waiters := Without(st.waiters, i))), true)
  }

  /** What `release` leaves of one key's state. */
  function AfterRelease<W>(st: KeyState<W>): KeyState<W> {
    var less := if st.inflight > 0 then st.inflight - 1 else st.inflight;
    if st.waiters == [] then st.(inflight := less)
    else KeyState(less + 1, if st.waiting > 0 then st.waiting - 1 else st.waiting, st.waiters[1..])
  }

  /** `release`: the new table and the waiter that received the slot, if any. */
  function Release<W>(t: Table<W>, key: string): (Table<W>, Option<W>) {
    if key !in t then (t, None)
    else
      var st := t[key];
      (Keep(t, key, AfterRelease(st)), if st.waiters == [] then None else Some(st.waiters[0]))
  }

  ghost predicate Distinct<W>(s: seq<W>) {
    forall i, j :: 0 <= i < j < |s| ==> s[i] != s[j]
  }

  lemma RemovalDistinct<W>(s: seq<W>, i: nat)
    requires i < |s| && Distinct(s)
    ensures Distinct(Without(s, i))
  {
    var r := Without(s, i);
    forall a, b | 0 <= a < b < |r| ensures r[a] != r[b] {
      assert r[a] == s[if a < i then a else a + 1];
      assert r[b] == s[if b < i then b else b + 1];
    }
  }

  /** What holds of every key present in the table between critical sections. */
  ghost predicate KeyOk<W>(c: Config, st: KeyState<W>) {
    && st.waiting == |st.waiters| <= c.maxQueue
    && 0 < st.inflight <= c.maxConcurrency
    && (st.waiters != [] ==> st.inflight == c.maxConcurrency)
    && Distinct(st.waiters)
  }

  ghost predicate TableOk<W>(c: Config, t: Table<W>) {
    forall k :: k in t ==> KeyOk(c, t[k])
  }

  /** Every critical section keeps the table well formed; a newcomer gets a slot
      at once only when nobody waits for that key. */
  lemma EnterKeepsTable<W>(c: Config, t: Table<W>, key: string, w: W)
    requires ValidConfig(c) && TableOk(c, t)
    requires w !in Lookup(t, key).waiters
    ensures TableOk(c, Enter(c, t, key, [w]).0)
    ensures Enter(c, t, key, [w]).1 == Acquired ==> Lookup(t, key).waiters == []
    ensures Enter(c, t, key, [w]).1 == QueueFull ==> Enter(c, t, key, [w]).0 == t
  {
  }

  lemma RemovalKeepsKey<W>(c: Config, st: KeyState<W>, w: W)
    requires ValidConfig(c) && KeyOk(c, st) && w in st.waiters
    ensures KeyOk(c, st.(waiting := st.waiting - 1, waiters := Without(st.waiters, Position(st.waiters, w))))
  {
    RemovalDistinct(st.waiters, Position(st.waiters, w));
  }

  lemma ReleaseKeepsKey<W>(c: Config, st: KeyState<W>)
    requires ValidConfig(c) && KeyOk(c, st)
    ensures var after := AfterRelease(st);
      if after.inflight == 0 && after.waiting == 0 then st.waiters == [] && st.inflight == 1 else KeyOk(c, after)
  {
  }

  lemma KeepOk<W>(c: Config, t: Table<W>, key: string, st: KeyState<W>)
    requires TableOk(c, t) && ((st.inflight == 0 && st.waiting == 0) || KeyOk(c, st))
    ensures TableOk(c, Keep(t, key, st))
  {
    hide KeyOk;
    forall k | k in Keep(t, key, st) ensures KeyOk(c, Keep(t, key, st)[k]) {
      if k != key { assert KeyOk(c, t[k]); }
    }
  }

  /** In a well-formed table a removal or a release never meets the branches that
      guard against negative counters, and a withdrawal never empties a key. */
  lemma DefensiveBranchesUnreachable<W>(c: Config, t: Table<W>, key: string, w: W)
    requires ValidConfig(c) && TableOk(c, t) && key in t
    ensures t[key].inflight > 0
    ensures t[key].waiters != [] ==> t[key].waiting > 0
    ensures RemoveWaiter(t, key, w).1 ==> key in RemoveWaiter(t, key, w).0
    ensures TableOk(c, RemoveWaiter(t, key, w).0)
    ensures RemoveWaiter(t, key, w).1 <==> w in t[key].waiters
    ensures TableOk(c, Release(t, key).0)
  {
    hide Distinct, Without, AfterRelease, Keep;
    var st := t[key];
    assert KeyOk(c, st);
    ReleaseKeepsKey(c, st);
    KeepOk(c, t, key, AfterRelease(st));
    if w in st.waiters {
      var rest := st.(waiting := st.waiting - 1, waiters := Without(st.waiters, Position(st.waiters, w)));
      RemovalKeepsKey(c, st, w);
      KeepOk(c, t, key, rest);
      Kept(t, key, rest);
    }
  }

  lemma Kept<W>(t: Table<W>, key: string, st: KeyState<W>)
    requires st.inflight > 0
    ensures key in Keep(t, key, st)
  {
  }

  // What the critical sections do to the queue of any key.

  lemma EnterQueue<W>(c: Config, t: Table<W>, key: string, w: W, k: string)
    ensures var (t', entered) := Enter(c, t, key, [w]);
      Lookup(t', k).waiters == Lookup(t, k).waiters + (if k == key && entered == Enqueued then [w] else [])
  {
  }

  lemma RemoveQueue<W>(c: Config, t: Table<W>, key: string, w: W, k: string)
    requires TableOk(c, t)
    ensures var ws := Lookup(t, k).waiters;
      Lookup(RemoveWaiter(t, key, w).0, k).waiters == if k == key && w in ws then Without(ws, Position(ws, w)) else ws
  {
  }

  lemma ReleaseQueue<W>(c: Config, t: Table<W>, key: string, k: string)
    requires TableOk(c, t)
    ensures var ws := Lookup(t, k).waiters;
      Lookup(Release(t, key).0, k).waiters == if k == key && ws != [] then ws[1..] else ws
  {
  }
}
