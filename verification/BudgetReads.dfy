/** When successive budget lookups go back in time, and when they cannot. */
module BudgetReads {
  import opened GoStrings
  import opened BudgetStore
  import opened BudgetCache

  /** Results for one row, in the order of return, come from instants that never go back. */
  ghost predicate Ordered(results: seq<Result>) {
    forall i, j :: 0 <= i < j < |results| && results[i].row == results[j].row ==> results[i].readAt <= results[j].readAt
  }

  /** The step stores a budget over one that was read later. */
  predicate Overwrites(s: Sys, step: Step)
    requires s.history != []
  {
    && step.Store? && Enabled(s, step)
    && var c := s.calls[step.id];
      var key := BudgetCacheKey(c.row);
      key in s.source && s.source[key].readAt > c.readAt
  }

  ghost predicate NeverOverwrites(s: Sys, steps: seq<Step>)
    requires s.history != []
    decreases |steps|
  {
    steps != [] ==> !Overwrites(s, steps[0]) && NeverOverwrites(Apply(s, steps[0]), steps[1..])
  }

  /** With a time to live, a row's latest result is in the cache. */
  ghost predicate Latest(s: Sys) {
    s.ttl > 0 ==> forall i :: 0 <= i < |s.results| ==> NotLater(s, s.results[i])
  }

  ghost predicate NotLater(s: Sys, r: Result) {
    var key := BudgetCacheKey(r.row);
    key in s.source && r.readAt <= s.source[key].readAt
  }

  // ------------------------------------------------------------ no overwriting, no going back

  lemma OneMore(results: seq<Result>, r: Result)
    requires Ordered(results)
    requires forall i :: 0 <= i < |results| && results[i].row == r.row ==> results[i].readAt <= r.readAt
    ensures Ordered(results + [r])
  {
  }

  lemma LookupOrdered(s: Sys, id: nat)
    requires s.history != [] && Inv(s) && Latest(s) && Ordered(s.results)
    ensures var s' := Apply(s, Lookup(id)); Latest(s') && Ordered(s'.results)
  {
    hide Inv, BudgetCacheKey, Ordered;
    var s' := Apply(s, Lookup(id));
    if |s'.results| > |s.results| {
      var r := s'.results[|s.results|];
      assert s'.results == s.results + [r];
      assert NotLater(s, r);
      forall i | 0 <= i < |s.results| && s.results[i].row == r.row ensures s.results[i].readAt <= r.readAt {
        assert NotLater(s, s.results[i]);
      }
      OneMore(s.results, r);
    }
    forall i | 0 <= i < |s'.results| ensures s'.ttl > 0 ==> NotLater(s', s'.results[i]) {
      if i < |s.results| { assert s.ttl > 0 ==> NotLater(s, s.results[i]); }
    }
  }

  lemma QueryOrdered(s: Sys, id: nat, fault: bool)
    requires s.history != [] && Inv(s) && Latest(s) && Ordered(s.results)
    ensures var s' := Apply(s, Query(id, fault)); Latest(s') && Ordered(s'.results)
  {
    hide BudgetCacheKey, Ordered;
    var s' := Apply(s, Query(id, fault));
    if |s'.results| > |s.results| {
      var r := s'.results[|s.results|];
      assert s'.results == s.results + [r] && s.ttl <= 0;
      forall i | 0 <= i < |s.results| && s.results[i].row == r.row ensures s.results[i].readAt <= r.readAt {
        assert ResultOk(s, s.results[i]);
      }
      OneMore(s.results, r);
    } else {
      assert s'.results == s.results;
      forall i | 0 <= i < |s'.results| ensures s'.ttl > 0 ==> NotLater(s', s'.results[i]) {
        assert s.ttl > 0 ==> NotLater(s, s.results[i]);
      }
    }
  }

  /** Two storable rows with one key are one row. */
  lemma SameKeySameRow(row: Row, other: Row)
    requires Storable(row)
    ensures BudgetCacheKey(row) == BudgetCacheKey(other) <==> row == other
  {
    hide BudgetCacheKey;
    if BudgetCacheKey(row) == BudgetCacheKey(other) { CacheKeyInjective(row, other); }
  }

  lemma StoreOrdered(s: Sys, id: nat)
    requires s.history != [] && Inv(s) && Latest(s) && Ordered(s.results) && !Overwrites(s, Store(id))
    ensures var s' := Apply(s, Store(id)); Latest(s') && Ordered(s'.results)
  {
    if Enabled(s, Store(id)) {
      var c := s.calls[id];
      assert CallOk(s, c);
      hide Inv, BudgetCacheKey, Ordered;
      var s' := Apply(s, Store(id));
      var r := Result(c.row, c.now, c.budget, c.readAt, |s.history|);
      assert s'.results == s.results + [r];
      forall i | 0 <= i < |s.results| ensures NotLater(s', s.results[i])
          && (s.results[i].row == r.row ==> s.results[i].readAt <= r.readAt) {
        assert NotLater(s, s.results[i]);
        SameKeySameRow(c.row, s.results[i].row);
      }
      OneMore(s.results, r);
      assert NotLater(s', r);
    }
  }

  lemma StepOrdered(s: Sys, step: Step)
    requires s.history != [] && Inv(s) && Latest(s) && Ordered(s.results) && !Overwrites(s, step)
    ensures Latest(Apply(s, step)) && Ordered(Apply(s, step).results)
  {
    hide Inv, Ordered, BudgetCacheKey, Overwrites;
    match step
    case Lookup(id) => LookupOrdered(s, id);
    case Query(id, fault) => QueryOrdered(s, id, fault);
    case Store(id) => StoreOrdered(s, id);
    case _ =>
      var s' := Apply(s, step);
      assert s'.results == s.results && s'.source == s.source && s'.ttl == s.ttl;
      forall i | 0 <= i < |s'.results| ensures s'.ttl > 0 ==> NotLater(s', s'.results[i]) {
        assert s.ttl > 0 ==> NotLater(s, s.results[i]);
      }
  }

  /** The budget that is overwritten was returned before, by the call that read it. */
  lemma OverwrittenWasReturned(s: Sys, id: nat) returns (i: nat)
    requires s.history != [] && Inv(s) && Overwrites(s, Store(id))
    ensures i < |s.results| && s.results[i].row == s.calls[id].row && s.results[i].readAt > s.calls[id].readAt
  {
    var c := s.calls[id];
    var key := BudgetCacheKey(c.row);
    assert CallOk(s, c) && EntryOk(s, key);
    SameKeySameRow(c.row, s.source[key].row);
    hide BudgetCacheKey;
    var j: int :| ReturnedFrom(s, j, s.source[key]);
    i := j;
  }

  lemma OverwritingIsDisorder(s: Sys, step: Step)
    requires s.history != [] && Inv(s) && Overwrites(s, step)
    ensures !Ordered(Apply(s, step).results)
  {
    var i := OverwrittenWasReturned(s, step.id);
    hide Inv, BudgetCacheKey;
    var s' := Apply(s, step);
    assert s'.results[i] == s.results[i];
    assert s'.results[|s.results|].row == s.calls[step.id].row;
  }

  lemma {:induction false} ResultsGrow(s: Sys, steps: seq<Step>)
    requires s.history != []
    ensures s.results <= Exec(s, steps).results
    decreases |steps|
  {
    if steps != [] {
      ResultsGrow(Apply(s, steps[0]), steps[1..]);
    }
  }

  lemma DisorderStays(a: seq<Result>, b: seq<Result>)
    requires a <= b && !Ordered(a)
    ensures !Ordered(b)
  {
    var i, j :| 0 <= i < j < |a| && a[i].row == a[j].row && a[i].readAt > a[j].readAt;
    assert b[i] == a[i] && b[j] == a[j];
  }

  lemma {:induction false} OrderedFrom(s: Sys, steps: seq<Step>)
    requires s.history != [] && Inv(s) && Latest(s) && Ordered(s.results)
    ensures Ordered(Exec(s, steps).results) <==> NeverOverwrites(s, steps)
    decreases |steps|
  {
    hide Apply, Inv, Latest, Ordered, Overwrites;
    if steps != [] {
      var s' := Apply(s, steps[0]);
      StepInv(s, steps[0]);
      if Overwrites(s, steps[0]) {
        OverwritingIsDisorder(s, steps[0]);
        ResultsGrow(s', steps[1..]);
        DisorderStays(s'.results, Exec(s', steps[1..]).results);
      } else {
        StepOrdered(s, steps[0]);
        OrderedFrom(s', steps[1..]);
      }
    }
  }

  /** In every interleaving: the results for each row, in the order of return, come from
      instants that never go back if and only if no store overwrites a budget that was
      read later. */
  lemma MonotoneIff(ttl: int, first: Snap, steps: seq<Step>)
    ensures Ordered(Exec(Init(ttl, first), steps).results) <==> NeverOverwrites(Init(ttl, first), steps)
  {
    OrderedFrom(Init(ttl, first), steps);
  }

  // ------------------------------------------------------------ misses that do not overlap

  predicate MissOf(s: Sys, id: nat) {
    id in s.calls && s.calls[id].Fetched?
  }

  /** At most one lookup of a row is between its query and its store. */
  ghost predicate OneMissPerRow(s: Sys) {
    forall i, j :: MissOf(s, i) && MissOf(s, j) && s.calls[i].row == s.calls[j].row ==> i == j
  }

  ghost predicate MissesDoNotOverlap(s: Sys, steps: seq<Step>)
    requires s.history != []
    decreases |steps|
  {
    OneMissPerRow(s) && (steps != [] ==> MissesDoNotOverlap(Apply(s, steps[0]), steps[1..]))
  }

  /** What is about to be stored was read no earlier than what is cached. */
  ghost predicate Newer(s: Sys) {
    forall id :: id in s.calls && s.calls[id].Fetched? ==> NewerThanCached(s, s.calls[id])
  }

  ghost predicate NewerThanCached(s: Sys, c: Call)
    requires c.Fetched?
  {
    var key := BudgetCacheKey(c.row);
    key in s.source ==> s.source[key].readAt <= c.readAt
  }

  lemma StepNewer(s: Sys, step: Step)
    requires s.history != [] && Inv(s) && Newer(s) && OneMissPerRow(s)
    ensures !Overwrites(s, step) && Newer(Apply(s, step))
  {
    hide BudgetCacheKey, ResultOk;
    var s' := Apply(s, step);
    forall id | id in s'.calls && s'.calls[id].Fetched? ensures NewerThanCached(s', s'.calls[id]) {
      var c := s'.calls[id];
      if id in s.calls && s.calls[id] == c {
        assert NewerThanCached(s, c) && CallOk(s, c);
        if step.Store? && Enabled(s, step) {
          assert MissOf(s, id) && MissOf(s, step.id) && CallOk(s, s.calls[step.id]);
          SameKeySameRow(c.row, s.calls[step.id].row);
        }
      } else {
        assert step.Query? && c.readAt == |s.history| - 1;
        var key := BudgetCacheKey(c.row);
        if key in s.source { assert EntryOk(s, key); }
      }
    }
    assert step.Store? && Enabled(s, step) ==> NewerThanCached(s, s.calls[step.id]);
  }

  lemma {:induction false} NoOverlapNoOverwrite(s: Sys, steps: seq<Step>)
    requires s.history != [] && Inv(s) && Newer(s) && MissesDoNotOverlap(s, steps)
    ensures NeverOverwrites(s, steps)
    decreases |steps|
  {
    hide Apply, Inv, Newer, Overwrites;
    if steps != [] {
      StepInv(s, steps[0]);
      StepNewer(s, steps[0]);
      NoOverlapNoOverwrite(Apply(s, steps[0]), steps[1..]);
    }
  }

  /** So reads are monotone whenever no two misses of a row overlap between their query
      and their store. */
  lemma MonotoneWithoutOverlap(ttl: int, first: Snap, steps: seq<Step>)
    requires MissesDoNotOverlap(Init(ttl, first), steps)
    ensures Ordered(Exec(Init(ttl, first), steps).results)
  {
    NoOverlapNoOverwrite(Init(ttl, first), steps);
    MonotoneIff(ttl, first, steps);
  }

  // ------------------------------------------------------------ the next lookup

  function FourSteps(a: Step, b: Step, c: Step, d: Step): seq<Step> {
    [a] + ([b] + ([c] + ([d] + [])))
  }

  /** The store, and after it a lookup of the same row from beginning to end. */
  function StoreThenLookup(id: nat, next: nat, row: Row): seq<Step> {
    FourSteps(Store(id), Begin(next, row), ReadClock(next), Lookup(next))
  }

  lemma {:induction false} ExecAppend(s: Sys, a: seq<Step>, b: seq<Step>)
    requires s.history != []
    ensures Exec(s, a + b) == Exec(Exec(s, a), b)
    decreases |a|
  {
    hide Apply;
    if a == [] {
      assert a + b == b;
    } else {
      ExecAppend(Apply(s, a[0]), a[1..], b);
      assert (a + b)[0] == a[0] && (a + b)[1..] == a[1..] + b;
    }
  }

  lemma ExecFirst(s: Sys, first: Step, rest: seq<Step>)
    requires s.history != []
    ensures Exec(s, [first] + rest) == Exec(Apply(s, first), rest)
  {
    hide Apply;
    assert ([first] + rest)[1..] == rest;
  }

  lemma Exec4(s: Sys, a: Step, b: Step, c: Step, d: Step)
    requires s.history != []
    ensures Exec(s, FourSteps(a, b, c, d)) == Apply(Apply(Apply(Apply(s, a), b), c), d)
  {
    hide Apply, Exec;
    var s1 := Apply(s, a);
    var s2 := Apply(s1, b);
    var s3 := Apply(s2, c);
    ExecFirst(s, a, [b] + ([c] + ([d] + [])));
    ExecFirst(s1, b, [c] + ([d] + []));
    ExecFirst(s2, c, [d] + []);
    ExecFirst(s3, d, []);
    ExecNothing(Apply(s3, d));
  }

  lemma ExecNothing(s: Sys)
    requires s.history != []
    ensures Exec(s, []) == s
  {
  }

  lemma SetTwice(s: Sys, id: nat, c: Call, d: Call)
    ensures SetCall(SetCall(s, id, c), id, d) == SetCall(s, id, d)
  {
    assert s.calls[id := c][id := d] == s.calls[id := d];
  }

  /** A new lookup up to its reading of the cache. */
  lemma LookupStates(s: Sys, id: nat, row: Row)
    requires s.history != [] && id !in s.calls
    ensures Apply(Apply(s, Begin(id, row)), ReadClock(id)) == SetCall(s, id, Clocked(row, Present(s).clock))
  {
    SetTwice(s, id, Started(row), Clocked(row, Present(s).clock));
  }

  lemma HitReturns(s: Sys, id: nat)
    requires s.history != [] && Inv(s) && id in s.calls && s.calls[id].Clocked?
    ensures var c := s.calls[id];
      var key := BudgetCacheKey(c.row);
      Apply(s, Lookup(id)).results ==
        if s.ttl > 0 && key in s.cache && c.now < s.cache[key].expiresAt
        then s.results + [Result(c.row, c.now, s.cache[key].budget, s.source[key].readAt, |s.history|)]
        else s.results
  {
    hide BudgetCacheKey, EntryOk, CallOk, ResultOk;
  }

  lemma StoreReturns(s: Sys, id: nat)
    requires s.history != [] && Inv(s) && id in s.calls && s.calls[id].Fetched?
    ensures var c := s.calls[id];
      var key := BudgetCacheKey(c.row);
      var s' := Apply(s, Store(id));
      && s'.results == s.results + [Result(c.row, c.now, c.budget, c.readAt, |s.history|)]
      && Inv(s') && s'.ttl == s.ttl > 0 && s'.history == s.history && s'.calls.Keys == s.calls.Keys
      && key in s'.cache && s'.cache[key] == CachedBudget(c.budget, c.now + s.ttl)
      && key in s'.source && s'.source[key] == Source(c.row, c.readAt)
  {
    hide BudgetCacheKey, EntryOk, ResultOk;
    assert CallOk(s, s.calls[id]);
    hide Inv;
    StepInv(s, Store(id));
  }

  lemma ClockedKeeps(s: Sys, id: nat, row: Row)
    requires s.history != [] && Inv(s)
    ensures var s' := SetCall(s, id, Clocked(row, Present(s).clock));
      && s'.history == s.history && s'.results == s.results && s'.ttl == s.ttl
      && s'.cache == s.cache && s'.source == s.source
      && id in s'.calls && s'.calls[id] == Clocked(row, Present(s).clock)
      && Inv(s')
  {
    hide Inv, BudgetCacheKey;
    OneCall(s, id, Clocked(row, Present(s).clock));
  }

  /** A whole lookup of a cached row. */
  lemma LookupReturns(s: Sys, id: nat, row: Row, entry: CachedBudget, readAt: nat)
    requires s.history != [] && Inv(s) && id !in s.calls && s.ttl > 0
    requires BudgetCacheKey(row) in s.cache && s.cache[BudgetCacheKey(row)] == entry
    requires BudgetCacheKey(row) in s.source && s.source[BudgetCacheKey(row)].readAt == readAt
    ensures var now := Present(s).clock;
      var r := Result(row, now, entry.budget, readAt, |s.history|);
      Apply(Apply(Apply(s, Begin(id, row)), ReadClock(id)), Lookup(id)).results
        == s.results + if now < entry.expiresAt then [r] else []
  {
    LookupStates(s, id, row);
    ClockedKeeps(s, id, row);
    hide Apply, Inv, BudgetCacheKey, SetCall;
    HitReturns(SetCall(s, id, Clocked(row, Present(s).clock)), id);
    assert s.results + [] == s.results;
  }

  /** The results of a store and of the lookup after it. */
  lemma StoreThenLookupReturns(s: Sys, id: nat, next: nat)
    requires s.history != [] && Inv(s) && id in s.calls && s.calls[id].Fetched? && next !in s.calls
    ensures var c := s.calls[id];
      var s' := Exec(s, StoreThenLookup(id, next, c.row));
      var now := Present(s).clock;
      s'.results == s.results + [Result(c.row, c.now, c.budget, c.readAt, |s.history|)]
        + if now < c.now + s.ttl then [Result(c.row, now, c.budget, c.readAt, |s.history|)] else []
  {
    hide *;
    var c := s.calls[id];
    var s1 := Apply(s, Store(id));
    StoreReturns(s, id);
    SameHistory(s, s1);
    LookupReturns(s1, next, c.row, CachedBudget(c.budget, c.now + s.ttl), c.readAt);
    ExecStoreThenLookup(s, id, next, c.row);
  }

  lemma SameHistory(s: Sys, s1: Sys)
    requires s.history != [] && s1.history == s.history
    ensures Present(s1) == Present(s)
  {
  }

  lemma ExecStoreThenLookup(s: Sys, id: nat, next: nat, row: Row)
    requires s.history != []
    ensures Exec(s, StoreThenLookup(id, next, row))
      == Apply(Apply(Apply(Apply(s, Store(id)), Begin(next, row)), ReadClock(next)), Lookup(next))
  {
    hide Exec, Apply;
    Exec4(s, Store(id), Begin(next, row), ReadClock(next), Lookup(next));
  }

  /** A step of a call that is done changes nothing. */
  lemma DoneStays(s: Sys, id: nat, fault: bool)
    requires s.history != [] && id in s.calls && s.calls[id].Done?
    ensures Apply(s, Query(id, fault)) == s && Apply(s, Store(id)) == s
  {
  }

  lemma LookupEffect(s: Sys, id: nat)
    requires s.history != [] && Inv(s) && id in s.calls && s.calls[id].Clocked?
    ensures var c := s.calls[id];
      var key := BudgetCacheKey(c.row);
      Apply(s, Lookup(id)) ==
        if s.ttl > 0 && key in s.cache && c.now < s.cache[key].expiresAt
        then Return(s, id, Result(c.row, c.now, s.cache[key].budget, s.source[key].readAt, |s.history|))
        else SetCall(s, id, Missed(c.row, c.now))
  {
    hide BudgetCacheKey, EntryOk, CallOk, ResultOk;
  }

  /** A query that answers and the store after it. */
  lemma MissEffect(s: Sys, id: nat, fault: bool)
    requires s.history != [] && id in s.calls && s.calls[id].Missed?
    ensures var c := s.calls[id];
      var key := BudgetCacheKey(c.row);
      var s' := Apply(Apply(s, Query(id, fault)), Store(id));
      var rows := Present(s).rows;
      var found := if c.row in rows then Some(rows[c.row]) else None;
      && id in s'.calls && s'.calls[id] == Done(c.row)
      && if fault || !Storable(c.row) then s'.cache == s.cache && s'.results == s.results
         else
           && s'.cache == (if s.ttl > 0 then s.cache[key := CachedBudget(found, c.now + s.ttl)] else s.cache)
           && s'.results == s.results + [Result(c.row, c.now, found, |s.history| - 1, |s.history|)]
  {
    hide BudgetCacheKey, Storable;
  }

  /** A call whose lookup, query and store are not interrupted does what `GetBudget`
      does: a fresh entry answers; a failing query returns nothing and leaves the cache;
      otherwise what the database holds, a budget or none, is returned and cached. */
  lemma UninterruptedCall(s: Sys, id: nat, fault: bool)
    requires s.history != [] && Inv(s) && id in s.calls && s.calls[id].Clocked?
    ensures var c := s.calls[id];
      var key := BudgetCacheKey(c.row);
      var s' := Apply(Apply(Apply(s, Lookup(id)), Query(id, fault)), Store(id));
      var rows := Present(s).rows;
      var found := if c.row in rows then Some(rows[c.row]) else None;
      && s'.calls[id] == Done(c.row)
      && if s.ttl > 0 && key in s.cache && c.now < s.cache[key].expiresAt then
           && s'.cache == s.cache
           && s'.results == s.results + [Result(c.row, c.now, s.cache[key].budget, s.source[key].readAt, |s.history|)]
         else if fault || !Storable(c.row) then s'.cache == s.cache && s'.results == s.results
         else
           && s'.cache == (if s.ttl > 0 then s.cache[key := CachedBudget(found, c.now + s.ttl)] else s.cache)
           && s'.results == s.results + [Result(c.row, c.now, found, |s.history| - 1, |s.history|)]
  {
    var c := s.calls[id];
    LookupEffect(s, id);
    var s1 := Apply(s, Lookup(id));
    assert s1.history == s.history && s1.ttl == s.ttl && s1.cache == s.cache && id in s1.calls;
    if s1.calls[id].Done? {
      DoneStays(s1, id, fault);
    } else {
      assert s1 == SetCall(s, id, Missed(c.row, c.now));
      SameHistory(s, s1);
      hide *;
      MissEffect(s1, id, fault);
    }
  }

  /** A store over a later budget is seen: a lookup that begins and ends after it
      returns the older budget, though the later one was returned before it began, if
      and only if the entry stored has not expired already. */
  lemma NextLookupGoesBackIff(s: Sys, id: nat, next: nat)
    requires s.history != [] && Inv(s) && Overwrites(s, Store(id)) && next !in s.calls
    ensures var c := s.calls[id];
      var s' := Exec(s, StoreThenLookup(id, next, c.row));
      && (exists i :: 0 <= i < |s.results| && s.results[i].row == c.row && s.results[i].readAt > c.readAt)
      && ((exists k :: |s.results| < k < |s'.results| && s'.results[k].row == c.row && s'.results[k].readAt == c.readAt)
            <==> Present(s).clock < c.now + s.ttl)
  {
    var i := OverwrittenWasReturned(s, id);
    StoreThenLookupReturns(s, id, next);
    hide Apply, Exec, Inv;
    var c := s.calls[id];
    var s' := Exec(s, StoreThenLookup(id, next, c.row));
    if Present(s).clock < c.now + s.ttl {
      assert s'.results[|s.results| + 1].readAt == c.readAt;
    }
  }

  const R := Row("app", "model")

  /** A lookup of the row that misses the cache, up to its query. */
  function Fetching(id: nat): seq<Step> {
    FourSteps(Begin(id, R), ReadClock(id), Lookup(id), Query(id, false))
  }

  lemma FetchingStates(s: Sys, id: nat)
    requires s.history != [] && s.ttl > 0 && id !in s.calls && BudgetCacheKey(R) !in s.cache
    ensures var p := Present(s);
      var s2 := SetCall(s, id, Clocked(R, p.clock));
      var s3 := SetCall(s, id, Missed(R, p.clock));
      && Apply(s2, Lookup(id)) == s3
      && Apply(s3, Query(id, false)) == SetCall(s, id, Fetched(R, p.clock, Find(p.rows, R), |s.history| - 1))
  {
    hide BudgetCacheKey;
    var p := Present(s);
    assert Storable(R);
    SetTwice(s, id, Clocked(R, p.clock), Missed(R, p.clock));
    SetTwice(s, id, Missed(R, p.clock), Fetched(R, p.clock, Find(p.rows, R), |s.history| - 1));
  }

  lemma FetchingEffect(s: Sys, id: nat)
    requires s.history != [] && s.ttl > 0 && id !in s.calls && BudgetCacheKey(R) !in s.cache
    ensures Exec(s, Fetching(id))
      == SetCall(s, id, Fetched(R, Present(s).clock, Find(Present(s).rows, R), |s.history| - 1))
  {
    LookupStates(s, id, R);
    FetchingStates(s, id);
    hide BudgetCacheKey, Exec, Apply, Find, SetCall, Present;
    Exec4(s, Begin(id, R), ReadClock(id), Lookup(id), Query(id, false));
  }

  /** One lookup reads the old budget and is delayed; another reads the new one, stores
      it and returns. */
  function Race(): seq<Step> {
    Fetching(0) + ([WriteRow(R, 2)] + (Fetching(1) + ([Store(1)] + [])))
  }

  const FIRST := Snap(0, map[R := 1])
  const SECOND := Snap(0, map[R := 2])

  lemma RaceReaches()
    ensures var s := Exec(Init(10, FIRST), Race());
      && s.results == [Result(R, 0, Some(2), 1, 2)] && s.history == [FIRST, SECOND] && s.ttl == 10
      && s.calls == map[0 := Fetched(R, 0, Some(1), 0), 1 := Done(R)]
  {
    hide BudgetCacheKey, Fetching, Exec;
    var s0 := Init(10, FIRST);
    var c0, c1 := Fetched(R, 0, Some(1), 0), Fetched(R, 0, Some(2), 1);
    FetchingEffect(s0, 0);
    ExecAppend(s0, Fetching(0), [WriteRow(R, 2)] + (Fetching(1) + ([Store(1)] + [])));
    var s1 := SetCall(s0, 0, c0);
    ExecFirst(s1, WriteRow(R, 2), Fetching(1) + ([Store(1)] + []));
    assert map[R := 1][R := 2] == map[R := 2] && Storable(R);
    var s2 := s1.(history := [FIRST, SECOND]);
    assert Apply(s1, WriteRow(R, 2)).history == s2.history;
    FetchingEffect(s2, 1);
    ExecAppend(s2, Fetching(1), [Store(1)] + []);
    var s3 := SetCall(s2, 1, c1);
    ExecFirst(s3, Store(1), []);
    ExecNothing(Apply(s3, Store(1)));
    assert [] + [Result(R, 0, Some(2), 1, 2)] == [Result(R, 0, Some(2), 1, 2)];
  }

  /** Reads do go back: in this run the delayed store brings the old budget back, and a
      lookup that begins after the new budget was returned gets the old one, which the
      row no longer holds. */
  lemma LookupsMayGoBack()
    ensures var s := Exec(Init(10, FIRST), Race());
      var s' := Exec(s, StoreThenLookup(0, 2, R));
      && s.results == [Result(R, 0, Some(2), 1, 2)]
      && |s'.results| == 3 && s'.results[2] == Result(R, 0, Some(1), 0, 2)
      && Find(Present(s).rows, R) == Some(2)
  {
    RaceReaches();
    RunInv(Init(10, FIRST), Race());
    hide Exec, Inv, Race, BudgetCacheKey;
    StoreThenLookupReturns(Exec(Init(10, FIRST), Race()), 0, 2);
  }
}
