/** Concurrent budget lookups. The clock is read first, the lookup and the store are
    separate locked sections, and the query runs between them, so the steps of
    several calls, database writes and the passing of time mix freely. */
module BudgetCache {
  import opened GoStrings
  import opened BudgetStore

  /** One instant: what the clock shows and what the budget table holds. */
  datatype Snap = Snap(clock: int, rows: map<Row, int>)

  /** `readAt` numbers the instant at which the database was read. */
  datatype Call =
    | Started(row: Row)
    | Clocked(row: Row, now: int)
    | Missed(row: Row, now: int)
    | Fetched(row: Row, now: int, budget: Budget, readAt: nat)
    | Done(row: Row)

  /** `at` instants had passed when the call returned. */
  datatype Result = Result(row: Row, now: int, budget: Budget, readAt: nat, at: nat)

  /** The row that a cached entry was read for, and the instant. */
  datatype Source = Source(row: Row, readAt: nat)

  /** `history` ends with the present instant, and `results` lists what was returned, in
      order. */
  datatype Sys = Sys(ttl: int, history: seq<Snap>, cache: Cache, source: map<string, Source>,
                     calls: map<nat, Call>, results: seq<Result>)

  datatype Step =
    | Tick(clock: int)
    | WriteRow(row: Row, tokens: int)
    | DeleteRow(row: Row)
    | Begin(id: nat, row: Row)
    | ReadClock(id: nat)
    | Lookup(id: nat)
    | Query(id: nat, fault: bool)
    | Store(id: nat)

  function Init(ttl: int, first: Snap): Sys {
    Sys(ttl, [first], map[], map[], map[], [])
  }

  function Present(s: Sys): Snap
    requires s.history != []
  {
    s.history[|s.history| - 1]
  }

  predicate Enabled(s: Sys, step: Step)
    requires s.history != []
  {
    match step
    case Tick(clock) => clock >= Present(s).clock
    case WriteRow(row, _) => Storable(row)
    case DeleteRow(_) => true
    case Begin(id, _) => id !in s.calls
    case ReadClock(id) => id in s.calls && s.calls[id].Started?
    case Lookup(id) => id in s.calls && s.calls[id].Clocked?
    case Query(id, _) => id in s.calls && s.calls[id].Missed?
    case Store(id) => id in s.calls && s.calls[id].Fetched?
  }

  function SetCall(s: Sys, id: nat, c: Call): Sys {
    s.(calls := s.calls[id := c])
  }

  function Return(s: Sys, id: nat, r: Result): Sys {
    SetCall(s.(results := s.results + [r]), id, Done(r.row))
  }

  /** What `Remember` does, with the entry's source. */
  function Remembered(s: Sys, c: Call): Sys
    requires c.Fetched?
  {
    var key := BudgetCacheKey(c.row);
    s.(cache := Remember(s.cache, s.ttl, key, c.now, c.budget),
       source := if s.ttl > 0 then s.source[key := Source(c.row, c.readAt)] else s.source)
  }

  /** A step that is not enabled changes nothing. */
  function Apply(s: Sys, step: Step): (s': Sys)
    requires s.history != []
    ensures s'.history != []
  {
    if !Enabled(s, step) then s
    else
      var p := Present(s);
      match step
      case Tick(clock) => s.(history := s.history + [p.(clock := clock)])
      case WriteRow(row, tokens) => s.(history := s.history + [p.(rows := p.rows[row := tokens])])
      case DeleteRow(row) => s.(history := s.history + [p.(rows := p.rows - {row})])
      case Begin(id, row) => SetCall(s, id, Started(row))
      case ReadClock(id) => SetCall(s, id, Clocked(s.calls[id].row, p.clock))
      case Lookup(id) => // a cached entry always has a source
        var c := s.calls[id];
        var key := BudgetCacheKey(c.row);
        var hit := CacheHit(s.cache, s.ttl, key, c.now);
        if hit.Some? && key in s.source then Return(s, id, Result(c.row, c.now, hit.value, s.source[key].readAt, |s.history|))
        else SetCall(s, id, Missed(c.row, c.now))
      case Query(id, fault) =>
        var c := s.calls[id];
        if fault || !Storable(c.row) then SetCall(s, id, Done(c.row))
        else if s.ttl > 0 then SetCall(s, id, Fetched(c.row, c.now, Find(p.rows, c.row), |s.history| - 1))
        else Return(s, id, Result(c.row, c.now, Find(p.rows, c.row), |s.history| - 1, |s.history|))
      case Store(id) =>
        var c := s.calls[id];
        Return(Remembered(s, c), id, Result(c.row, c.now, c.budget, c.readAt, |s.history|))
  }

  function Exec(s: Sys, steps: seq<Step>): (s': Sys)
    requires s.history != []
    ensures s'.history != []
    decreases |steps|
  {
    if steps == [] then s else Exec(Apply(s, steps[0]), steps[1..])
  }

  // ------------------------------------------------------------ staleness

  /** The row had this budget at that instant, when the clock showed `since` or later. */
  ghost predicate ReadFrom(h: seq<Snap>, row: Row, b: Budget, readAt: nat, since: int) {
    readAt < |h| && Find(h[readAt].rows, row) == b && h[readAt].clock >= since
  }

  function Oldest(ttl: int, now: int): int {
    if ttl > 0 then now - ttl + 1 else now
  }

  /** Every cached budget was read for its row no earlier than its time to live before
      it expires, and was returned by the call that read it. */
  ghost predicate EntryOk(s: Sys, key: string)
    requires key in s.cache
  {
    && key in s.source
    && var o := s.source[key];
      && Storable(o.row) && BudgetCacheKey(o.row) == key
      && ReadFrom(s.history, o.row, s.cache[key].budget, o.readAt, s.cache[key].expiresAt - s.ttl)
      && exists i :: ReturnedFrom(s, i, o)
  }

  ghost predicate ReturnedFrom(s: Sys, i: int, o: Source) {
    0 <= i < |s.results| && s.results[i].row == o.row && s.results[i].readAt == o.readAt
  }

  ghost predicate CallOk(s: Sys, c: Call)
    requires s.history != []
  {
    && (c.Clocked? || c.Missed? ==> c.now <= Present(s).clock)
    && (c.Fetched? ==> s.ttl > 0 && Storable(c.row) && ReadFrom(s.history, c.row, c.budget, c.readAt, c.now))
  }

  ghost predicate ResultOk(s: Sys, r: Result) {
    && r.readAt < r.at <= |s.history| && Storable(r.row)
    && ReadFrom(s.history, r.row, r.budget, r.readAt, Oldest(s.ttl, r.now))
  }

  ghost predicate Inv(s: Sys)
    requires s.history != []
  {
    && (forall key :: key in s.cache ==> EntryOk(s, key))
    && (forall id :: id in s.calls ==> CallOk(s, s.calls[id]))
    && (forall i :: 0 <= i < |s.results| ==> ResultOk(s, s.results[i]))
    && (s.ttl <= 0 ==> s.cache == map[])
    && s.source.Keys == s.cache.Keys
  }

  lemma TimePasses(s: Sys, next: Snap)
    requires s.history != [] && Inv(s) && next.clock >= Present(s).clock
    ensures Inv(s.(history := s.history + [next]))
  {
    hide BudgetCacheKey;
    var s' := s.(history := s.history + [next]);
    forall key | key in s'.cache ensures EntryOk(s', key) {
      assert EntryOk(s, key);
      var i :| ReturnedFrom(s, i, s.source[key]);
      assert ReturnedFrom(s', i, s.source[key]);
    }
    forall id | id in s'.calls ensures CallOk(s', s'.calls[id]) {
      assert CallOk(s, s.calls[id]);
    }
    forall i | 0 <= i < |s'.results| ensures ResultOk(s', s'.results[i]) {
      assert ResultOk(s, s.results[i]);
    }
  }

  /** Changing one call to a good one keeps the rest. */
  lemma OneCall(s: Sys, id: nat, c: Call)
    requires s.history != [] && Inv(s) && CallOk(s, c)
    ensures Inv(SetCall(s, id, c))
  {
    hide ReadFrom, BudgetCacheKey;
    var s' := SetCall(s, id, c);
    forall key | key in s'.cache ensures EntryOk(s', key) {
      assert EntryOk(s, key);
      var i :| ReturnedFrom(s, i, s.source[key]);
      assert ReturnedFrom(s', i, s.source[key]);
    }
    forall j | j in s'.calls ensures CallOk(s', s'.calls[j]) {
      if j != id { assert CallOk(s, s.calls[j]); }
    }
    forall i | 0 <= i < |s'.results| ensures ResultOk(s', s'.results[i]) {
      assert ResultOk(s, s.results[i]);
    }
  }

  lemma OneResult(s: Sys, id: nat, r: Result)
    requires s.history != [] && Inv(s) && ResultOk(s, r)
    ensures Inv(Return(s, id, r))
  {
    hide ReadFrom, BudgetCacheKey;
    var s' := s.(results := s.results + [r]);
    forall key | key in s'.cache ensures EntryOk(s', key) {
      assert EntryOk(s, key);
      var i :| ReturnedFrom(s, i, s.source[key]);
      assert ReturnedFrom(s', i, s.source[key]);
    }
    forall j | j in s'.calls ensures CallOk(s', s'.calls[j]) {
      assert CallOk(s, s.calls[j]);
    }
    forall i | 0 <= i < |s'.results| ensures ResultOk(s', s'.results[i]) {
      if i < |s.results| { assert ResultOk(s, s.results[i]); }
    }
    OneCall(s', id, Done(r.row));
  }

  /** A hit is for the very row asked about, because the key tells rows apart. */
  lemma HitIsForRow(s: Sys, row: Row)
    requires s.history != [] && Inv(s) && BudgetCacheKey(row) in s.cache
    ensures s.source[BudgetCacheKey(row)].row == row && Storable(row)
  {
    var key := BudgetCacheKey(row);
    assert EntryOk(s, key);
    CacheKeyInjective(s.source[key].row, row);
  }

  lemma LookupKeeps(s: Sys, id: nat)
    requires s.history != [] && Inv(s) && id in s.calls && s.calls[id].Clocked?
    ensures Inv(Apply(s, Lookup(id)))
  {
    hide BudgetCacheKey;
    var c := s.calls[id];
    var key := BudgetCacheKey(c.row);
    var hit := CacheHit(s.cache, s.ttl, key, c.now);
    assert CallOk(s, c);
    if hit.Some? {
      HitIsForRow(s, c.row);
      assert EntryOk(s, key);
      OneResult(s, id, Result(c.row, c.now, hit.value, s.source[key].readAt, |s.history|));
    } else {
      OneCall(s, id, Missed(c.row, c.now));
    }
  }

  /** The entry stored is good, and the others stay so. */
  lemma RememberedOk(s: Sys, c: Call, r: Result)
    requires s.history != [] && Inv(s) && c.Fetched? && CallOk(s, c)
    requires r.row == c.row && r.readAt == c.readAt
    ensures var s' := Remembered(s.(results := s.results + [r]), c);
      && s'.source.Keys == s'.cache.Keys
      && forall key :: key in s'.cache ==> EntryOk(s', key)
  {
    hide BudgetCacheKey, ResultOk;
    var s' := Remembered(s.(results := s.results + [r]), c);
    forall key | key in s'.cache ensures EntryOk(s', key) {
      if key == BudgetCacheKey(c.row) {
        assert ReturnedFrom(s', |s.results|, s'.source[key]);
      } else {
        assert EntryOk(s, key);
        var i :| ReturnedFrom(s, i, s.source[key]);
        assert ReturnedFrom(s', i, s.source[key]);
      }
    }
  }

  lemma StoreKeeps(s: Sys, id: nat)
    requires s.history != [] && Inv(s) && id in s.calls && s.calls[id].Fetched?
    ensures Inv(Apply(s, Store(id)))
  {
    var c := s.calls[id];
    assert CallOk(s, c);
    var r := Result(c.row, c.now, c.budget, c.readAt, |s.history|);
    var s' := Remembered(s.(results := s.results + [r]), c);
    RememberedOk(s, c, r);
    hide BudgetCacheKey, EntryOk;
    forall j | j in s'.calls ensures CallOk(s', s'.calls[j]) {
      assert CallOk(s, s.calls[j]);
    }
    forall i | 0 <= i < |s'.results| ensures ResultOk(s', s'.results[i]) {
      if i < |s.results| { assert ResultOk(s, s.results[i]); }
    }
    OneCall(s', id, Done(c.row));
  }

  lemma StepInv(s: Sys, step: Step)
    requires s.history != [] && Inv(s)
    ensures Inv(Apply(s, step))
  {
    hide EntryOk, ResultOk, BudgetCacheKey;
    if Enabled(s, step) {
      var p := Present(s);
      match step
      case Tick(clock) => TimePasses(s, p.(clock := clock));
      case WriteRow(row, tokens) => TimePasses(s, p.(rows := p.rows[row := tokens]));
      case DeleteRow(row) => TimePasses(s, p.(rows := p.rows - {row}));
      case Begin(id, row) => OneCall(s, id, Started(row));
      case ReadClock(id) => OneCall(s, id, Clocked(s.calls[id].row, p.clock));
      case Lookup(id) => LookupKeeps(s, id);
      case Query(id, fault) => QueryKeeps(s, id, fault);
      case Store(id) => StoreKeeps(s, id);
    }
  }

  lemma QueryKeeps(s: Sys, id: nat, fault: bool)
    requires s.history != [] && Inv(s) && id in s.calls && s.calls[id].Missed?
    ensures Inv(Apply(s, Query(id, fault)))
  {
    var c := s.calls[id];
    assert CallOk(s, c);
    var s' := Apply(s, Query(id, fault));
    if |s'.results| > |s.results| {
      OneResult(s, id, Result(c.row, c.now, Find(Present(s).rows, c.row), |s.history| - 1, |s.history|));
    } else {
      OneCall(s, id, s'.calls[id]);
    }
  }

  lemma {:induction false} RunInv(s: Sys, steps: seq<Step>)
    requires s.history != [] && Inv(s)
    ensures Inv(Exec(s, steps)) && Exec(s, steps).ttl == s.ttl
    decreases |steps|
  {
    hide Inv;
    if steps != [] {
      StepInv(s, steps[0]);
      RunInv(Apply(s, steps[0]), steps[1..]);
    }
  }

  /** Bounded staleness: in every interleaving, what a lookup returned was the
      budget of that very row at an instant before the return, and later than the
      lookup's clock reading minus the time to live; without a positive time to live
      nothing is cached and the instant is no earlier than the clock reading. */
  lemma BoundedStaleness(ttl: int, first: Snap, steps: seq<Step>, i: nat)
    ensures var s := Exec(Init(ttl, first), steps);
      && (ttl <= 0 ==> s.cache == map[])
      && (i < |s.results| ==>
            var r := s.results[i];
            && r.readAt < r.at <= |s.history|
            && r.budget == (if r.row in s.history[r.readAt].rows then Some(s.history[r.readAt].rows[r.row]) else None)
            && (if ttl > 0 then s.history[r.readAt].clock > r.now - ttl else s.history[r.readAt].clock >= r.now))
  {
    RunInv(Init(ttl, first), steps);
    var s := Exec(Init(ttl, first), steps);
    if i < |s.results| {
      assert ResultOk(s, s.results[i]);
    }
  }
}
