/** The settings store: the same kind of cache, but one lock is held over clock
    reading, lookup, query and store, and that makes reads monotone. */
module AppSettings {
  import opened GoStrings

  datatype Level = Debug | Info | Warn | Error

  datatype Settings = Settings(logLevel: Level, logRequestBody: Option<bool>, logResponseBody: Option<bool>)

  type Found = Option<Settings>

  datatype CachedSettings = CachedSettings(found: Found, expiresAt: int)

  type Cache = map<string, CachedSettings>

  function CacheHit(cache: Cache, ttl: int, app: string, now: int): Option<Found> {
    if ttl > 0 && app in cache && now < cache[app].expiresAt then Some(cache[app].found) else None
  }

  function Remember(cache: Cache, ttl: int, app: string, now: int, found: Found): Cache {
    if ttl > 0 then cache[app := CachedSettings(found, now + ttl)] else cache
  }

  /** What the query answers: an error, no row, or a row. */
  datatype Reply = QueryError | NoRows | OneRow(settings: Settings)

  class PostgresAppSettingsStore {
    const ttl: int
    var cache: Cache

    constructor (ttl: int)
      ensures this.ttl == ttl && cache == map[]
    {
      this.ttl, cache := ttl, map[];
    }

    /** `Get`, all of it under the lock. `None` is an error, and leaves the cache
        as it was. */
    method Get(appID: string, now: int, reply: Reply) returns (r: Option<Found>)
      modifies this`cache
      ensures var app := TrimSpace(appID);
        var hit := CacheHit(old(cache), ttl, app, now);
        if app == "" then r == Some(None) && cache == old(cache)
        else if hit.Some? then r == hit && cache == old(cache)
        else match reply
          case QueryError => r == None && cache == old(cache)
          case NoRows => r == Some(None) && cache == Remember(old(cache), ttl, app, now, None)
          case OneRow(s) => r == Some(Some(s)) && cache == Remember(old(cache), ttl, app, now, Some(s))
    {
      var app := TrimSpace(appID);
      if app == "" {
        return Some(None);
      }
      if ttl > 0 {
        if app in cache && now < cache[app].expiresAt {
          return Some(cache[app].found);
        }
      }
      if reply.NoRows? {
        if ttl > 0 {
          cache := cache[app := CachedSettings(None, now + ttl)];
        }
        return Some(None);
      }
      if reply.QueryError? {
        return None;
      }
      if ttl > 0 {
        cache := cache[app := CachedSettings(Some(reply.settings), now + ttl)];
      }
      return Some(Some(reply.settings));
    }
  }

  // ------------------------------------------------------------------ machine

  datatype Snap = Snap(clock: int, rows: map<string, Settings>)

  /** The call that holds the lock. */
  datatype Holder =
    | Locked(app: string)
    | Clocked(app: string, now: int)
    | Missed(app: string, now: int)
    | Fetched(app: string, now: int, found: Found, readAt: nat)

  /** `readAt` numbers the instant at which the database was read, and `at` how many
      instants had passed when the call returned. */
  datatype Result = Result(app: string, now: int, found: Found, readAt: nat, at: nat)

  /** `source` numbers the instant each cached entry was read at; `results` lists what
      was returned, in order. */
  datatype Sys = Sys(ttl: int, history: seq<Snap>, cache: Cache, source: map<string, nat>,
                     holder: Option<Holder>, results: seq<Result>)

  datatype Step =
    | Tick(clock: int)
    | WriteRow(app: string, settings: Settings)
    | DeleteRow(app: string)
    | Lock(appID: string)
    | ReadClock
    | Lookup
    | Query(fault: bool)
    | Store

  function Init(ttl: int, first: Snap): Sys {
    Sys(ttl, [first], map[], map[], None, [])
  }

  function Present(s: Sys): Snap
    requires s.history != []
  {
    s.history[|s.history| - 1]
  }

  function Find(rows: map<string, Settings>, app: string): Found {
    if app in rows then Some(rows[app]) else None
  }

  predicate Enabled(s: Sys, step: Step)
    requires s.history != []
  {
    match step
    case Tick(clock) => clock >= Present(s).clock
    case WriteRow(_, _) => true
    case DeleteRow(_) => true
    case Lock(appID) => s.holder.None? && TrimSpace(appID) != ""
    case ReadClock => s.holder.Some? && s.holder.value.Locked?
    case Lookup => s.holder.Some? && s.holder.value.Clocked?
    case Query(_) => s.holder.Some? && s.holder.value.Missed?
    case Store => s.holder.Some? && s.holder.value.Fetched?
  }

  /** Return and unlock. */
  function Finish(s: Sys, r: Result): Sys {
    s.(holder := None, results := s.results + [r])
  }

  function Apply(s: Sys, step: Step): (s': Sys)
    requires s.history != []
    ensures s'.history != []
  {
    if !Enabled(s, step) then s
    else
      var p := Present(s);
      match step
      case Tick(clock) => s.(history := s.history + [p.(clock := clock)])
      case WriteRow(app, v) => s.(history := s.history + [p.(rows := p.rows[app := v])])
      case DeleteRow(app) => s.(history := s.history + [p.(rows := p.rows - {app})])
      case Lock(appID) => s.(holder := Some(Locked(TrimSpace(appID))))
      case ReadClock => s.(holder := Some(Clocked(s.holder.value.app, p.clock)))
      case Lookup => // a cached entry always has a source
        var h := s.holder.value;
        var hit := CacheHit(s.cache, s.ttl, h.app, h.now);
        if hit.Some? && h.app in s.source then Finish(s, Result(h.app, h.now, hit.value, s.source[h.app], |s.history|))
        else s.(holder := Some(Missed(h.app, h.now)))
      case Query(fault) =>
        var h := s.holder.value;
        if fault then s.(holder := None)
        else s.(holder := Some(Fetched(h.app, h.now, Find(p.rows, h.app), |s.history| - 1)))
      case Store =>
        var h := s.holder.value;
        Finish(s.(cache := Remember(s.cache, s.ttl, h.app, h.now, h.found),
                  source := if s.ttl > 0 then s.source[h.app := h.readAt] else s.source),
               Result(h.app, h.now, h.found, h.readAt, |s.history|))
  }

  function Exec(s: Sys, steps: seq<Step>): (s': Sys)
    requires s.history != []
    ensures s'.history != []
    decreases |steps|
  {
    if steps == [] then s else Exec(Apply(s, steps[0]), steps[1..])
  }

  /** The database held this for the application at that instant, not before `since`. */
  ghost predicate ReadFrom(h: seq<Snap>, app: string, found: Found, readAt: nat, since: int) {
    readAt < |h| && Find(h[readAt].rows, app) == found && h[readAt].clock >= since
  }

  /** No result so far for this application was read later than `readAt`. */
  ghost predicate NoneLater(results: seq<Result>, app: string, readAt: nat) {
    forall i :: 0 <= i < |results| && results[i].app == app ==> results[i].readAt <= readAt
  }

  /** Results for one application come from instants in order. */
  ghost predicate Ordered(results: seq<Result>) {
    forall i, j :: 0 <= i < j < |results| && results[i].app == results[j].app ==> results[i].readAt <= results[j].readAt
  }

  function Oldest(ttl: int, now: int): int {
    if ttl > 0 then now - ttl + 1 else now
  }

  ghost predicate EntryOk(s: Sys, app: string)
    requires app in s.cache
  {
    && app in s.source
    && ReadFrom(s.history, app, s.cache[app].found, s.source[app], s.cache[app].expiresAt - s.ttl)
    && NoneLater(s.results, app, s.source[app])
  }

  ghost predicate HolderOk(s: Sys, h: Holder)
    requires s.history != []
  {
    && (h.Clocked? ==> h.now <= Present(s).clock)
    && (h.Missed? ==> h.now <= Present(s).clock)
    && (h.Fetched? ==> ReadFrom(s.history, h.app, h.found, h.readAt, h.now) && NoneLater(s.results, h.app, h.readAt))
  }

  ghost predicate ResultOk(s: Sys, r: Result) {
    r.readAt < r.at <= |s.history| && ReadFrom(s.history, r.app, r.found, r.readAt, Oldest(s.ttl, r.now))
  }

  ghost predicate Inv(s: Sys)
    requires s.history != []
  {
    && (forall app :: app in s.cache ==> EntryOk(s, app))
    && (s.holder.Some? ==> HolderOk(s, s.holder.value))
    && (forall i :: 0 <= i < |s.results| ==> ResultOk(s, s.results[i]))
    && Ordered(s.results)
    && (s.ttl <= 0 ==> s.cache == map[])
  }

  lemma TimePasses(s: Sys, next: Snap)
    requires s.history != [] && Inv(s) && next.clock >= Present(s).clock
    ensures Inv(s.(history := s.history + [next]))
  {
    hide NoneLater, Ordered;
    var s' := s.(history := s.history + [next]);
    forall app | app in s'.cache ensures EntryOk(s', app) {
      assert EntryOk(s, app);
    }
    forall i | 0 <= i < |s'.results| ensures ResultOk(s', s'.results[i]) {
      assert ResultOk(s, s.results[i]);
    }
  }

  lemma FinishKeeps(s: Sys, r: Result)
    requires s.history != [] && Inv(s) && ResultOk(s, r) && NoneLater(s.results, r.app, r.readAt)
    requires r.app in s.cache ==> s.source[r.app] == r.readAt
    ensures Inv(Finish(s, r))
  {
    hide ReadFrom;
    var s' := Finish(s, r);
    forall app | app in s'.cache ensures EntryOk(s', app) {
      assert EntryOk(s, app);
    }
    forall i | 0 <= i < |s'.results| ensures ResultOk(s', s'.results[i]) {
      if i < |s.results| { assert ResultOk(s, s.results[i]); }
    }
  }

  lemma HolderMoves(s: Sys, h: Option<Holder>)
    requires s.history != [] && Inv(s) && (h.Some? ==> HolderOk(s, h.value))
    ensures Inv(s.(holder := h))
  {
    hide ReadFrom, NoneLater, Ordered;
    var s' := s.(holder := h);
    forall app | app in s'.cache ensures EntryOk(s', app) { assert EntryOk(s, app); }
    forall i | 0 <= i < |s'.results| ensures ResultOk(s', s'.results[i]) { assert ResultOk(s, s.results[i]); }
  }

  /** A query made under the lock reads the present, so later than every result. */
  lemma QueryIsLatest(s: Sys, app: string, now: int)
    requires s.history != [] && Inv(s) && now <= Present(s).clock
    ensures HolderOk(s, Fetched(app, now, Find(Present(s).rows, app), |s.history| - 1))
  {
    forall i | 0 <= i < |s.results| && s.results[i].app == app ensures s.results[i].readAt <= |s.history| - 1 {
      assert ResultOk(s, s.results[i]);
    }
  }

  lemma StoreKeeps(s: Sys)
    requires s.history != [] && Inv(s) && s.holder.Some? && s.holder.value.Fetched?
    ensures Inv(Apply(s, Store))
  {
    hide NoneLater, Ordered;
    var h := s.holder.value;
    var mid := s.(cache := Remember(s.cache, s.ttl, h.app, h.now, h.found),
                  source := if s.ttl > 0 then s.source[h.app := h.readAt] else s.source);
    forall app | app in mid.cache ensures EntryOk(mid, app) {
      if app != h.app { assert EntryOk(s, app); }
    }
    forall i | 0 <= i < |mid.results| ensures ResultOk(mid, mid.results[i]) { assert ResultOk(s, s.results[i]); }
    FinishKeeps(mid, Result(h.app, h.now, h.found, h.readAt, |s.history|));
  }

  lemma LookupKeeps(s: Sys)
    requires s.history != [] && Inv(s) && s.holder.Some? && s.holder.value.Clocked?
    ensures Inv(Apply(s, Lookup))
  {
    hide NoneLater, Ordered;
    var h := s.holder.value;
    var hit := CacheHit(s.cache, s.ttl, h.app, h.now);
    if hit.Some? {
      assert EntryOk(s, h.app);
      FinishKeeps(s, Result(h.app, h.now, hit.value, s.source[h.app], |s.history|));
    } else {
      HolderMoves(s, Some(Missed(h.app, h.now)));
    }
  }

  lemma StepInv(s: Sys, step: Step)
    requires s.history != [] && Inv(s)
    ensures Inv(Apply(s, step))
  {
    hide ReadFrom, NoneLater, Ordered, EntryOk, ResultOk;
    if Enabled(s, step) {
      var p := Present(s);
      match step
      case Tick(clock) => TimePasses(s, p.(clock := clock));
      case WriteRow(app, v) => TimePasses(s, p.(rows := p.rows[app := v]));
      case DeleteRow(app) => TimePasses(s, p.(rows := p.rows - {app}));
      case Lock(appID) => HolderMoves(s, Some(Locked(TrimSpace(appID))));
      case ReadClock => HolderMoves(s, Some(Clocked(s.holder.value.app, p.clock)));
      case Lookup => LookupKeeps(s);
      case Query(fault) =>
        var h := s.holder.value;
        if fault {
          HolderMoves(s, None);
        } else {
          QueryIsLatest(s, h.app, h.now);
          HolderMoves(s, Some(Fetched(h.app, h.now, Find(p.rows, h.app), |s.history| - 1)));
        }
      case Store => StoreKeeps(s);
    }
  }

  lemma {:induction false} RunInv(s: Sys, steps: seq<Step>)
    requires s.history != [] && Inv(s)
    ensures Inv(Exec(s, steps)) && Exec(s, steps).ttl == s.ttl
    decreases |steps|
  {
    hide Inv;
    if steps != [] {
      StepInv(s, steps[0]);
      RunInv(Apply(s, steps[0]), steps[1..]);
    }
  }

  /** Monotone reads: in every interleaving of lookups, database writes and passing
      time, each result is what the database held for that application at its instant,
      which is no older than the time to live allows, and successive results for one
      application come from instants that never go back. */
  lemma MonotoneReads(ttl: int, first: Snap, steps: seq<Step>, i: nat, j: nat)
    ensures var s := Exec(Init(ttl, first), steps);
      i <= j < |s.results| ==>
        var r, q := s.results[i], s.results[j];
        && r.readAt < r.at <= |s.history|
        && r.found == (if r.app in s.history[r.readAt].rows then Some(s.history[r.readAt].rows[r.app]) else None)
        && (if ttl > 0 then s.history[r.readAt].clock > r.now - ttl else s.history[r.readAt].clock >= r.now)
        && (r.app == q.app ==> r.readAt <= q.readAt)
  {
    RunInv(Init(ttl, first), steps);
    var s := Exec(Init(ttl, first), steps);
    if i <= j < |s.results| {
      assert ResultOk(s, s.results[i]);
    }
  }

  // ------------------------------------------------------------ the next lookup

  /** The lock is released, time may pass, and the same application is looked up. */
  function NextLookup(clock: int, appID: string): seq<Step> {
    [Store] + ([Tick(clock)] + ([Lock(appID)] + ([ReadClock] + ([Lookup] + []))))
  }

  lemma ExecFirst(s: Sys, first: Step, rest: seq<Step>)
    requires s.history != []
    ensures Exec(s, [first] + rest) == Exec(Apply(s, first), rest)
  {
    hide Apply;
    assert ([first] + rest)[1..] == rest;
  }

  lemma ExecNextLookup(s: Sys, clock: int, appID: string)
    requires s.history != []
    ensures Exec(s, NextLookup(clock, appID))
      == Apply(Apply(Apply(Apply(Apply(s, Store), Tick(clock)), Lock(appID)), ReadClock), Lookup)
  {
    hide Apply;
    var s1 := Apply(s, Store);
    var s2 := Apply(s1, Tick(clock));
    var s3 := Apply(s2, Lock(appID));
    var s4 := Apply(s3, ReadClock);
    ExecFirst(s, Store, [Tick(clock)] + ([Lock(appID)] + ([ReadClock] + ([Lookup] + []))));
    ExecFirst(s1, Tick(clock), [Lock(appID)] + ([ReadClock] + ([Lookup] + [])));
    ExecFirst(s2, Lock(appID), [ReadClock] + ([Lookup] + []));
    ExecFirst(s3, ReadClock, [Lookup] + []);
    ExecFirst(s4, Lookup, []);
  }

  lemma StoreResult(s: Sys)
    requires s.history != [] && s.holder.Some? && s.holder.value.Fetched?
    ensures var h := s.holder.value;
      var s' := Apply(s, Store);
      && s'.holder.None? && s'.history == s.history && s'.ttl == s.ttl
      && s'.results == s.results + [Result(h.app, h.now, h.found, h.readAt, |s.history|)]
      && (s.ttl > 0 ==>
            && h.app in s'.cache && s'.cache[h.app] == CachedSettings(h.found, h.now + s.ttl)
            && h.app in s'.source && s'.source[h.app] == h.readAt)
  {
  }

  lemma LookupResult(s: Sys, clock: int, appID: string)
    requires s.history != [] && s.holder.None? && clock >= Present(s).clock && TrimSpace(appID) != ""
    requires s.ttl > 0 ==> TrimSpace(appID) in s.cache && TrimSpace(appID) in s.source
    ensures var app := TrimSpace(appID);
      Apply(Apply(Apply(Apply(s, Tick(clock)), Lock(appID)), ReadClock), Lookup).results == s.results +
        if s.ttl > 0 && clock < s.cache[app].expiresAt
        then [Result(app, clock, s.cache[app].found, s.source[app], |s.history| + 1)] else []
  {
    hide TrimSpace;
    var s1 := Apply(s, Tick(clock));
    assert Present(s1).clock == clock;
    var s3 := Apply(Apply(s1, Lock(appID)), ReadClock);
    assert s3 == s1.(holder := Some(Clocked(TrimSpace(appID), clock)));
    assert s.results + [] == s.results;
  }

  /** What is stored, a row or that there is none, is what the next lookup of the
      application returns if and only if its clock reading is below that of the call that
      stored it plus the time to live; otherwise it asks the database. */
  lemma NextLookupHitsIff(s: Sys, clock: int, appID: string)
    requires s.history != [] && s.holder.Some? && s.holder.value.Fetched? && s.holder.value.app == TrimSpace(appID) != ""
    requires clock >= Present(s).clock
    ensures var h := s.holder.value;
      Exec(s, NextLookup(clock, appID)).results == s.results + [Result(h.app, h.now, h.found, h.readAt, |s.history|)] +
        if s.ttl > 0 && clock < h.now + s.ttl then [Result(h.app, clock, h.found, h.readAt, |s.history| + 1)] else []
  {
    StoreResult(s);
    var s1 := Apply(s, Store);
    assert Present(s1) == Present(s);
    hide Apply, Exec, TrimSpace, Present;
    LookupResult(s1, clock, appID);
    ExecNextLookup(s, clock, appID);
  }

  /** A call under the lock does what `Get` does; a failing query returns nothing and
      leaves the cache. */
  lemma CallUnderLock(s: Sys, fault: bool)
    requires s.history != [] && Inv(s) && s.holder.Some? && s.holder.value.Clocked?
    ensures var h := s.holder.value;
      var s' := Apply(Apply(Apply(s, Lookup), Query(fault)), Store);
      var rows := Present(s).rows;
      var found := if h.app in rows then Some(rows[h.app]) else None;
      && s'.holder.None?
      && if s.ttl > 0 && h.app in s.cache && h.now < s.cache[h.app].expiresAt then
           && s'.cache == s.cache
           && s'.results == s.results + [Result(h.app, h.now, s.cache[h.app].found, s.source[h.app], |s.history|)]
         else if fault then s'.cache == s.cache && s'.results == s.results
         else
           && s'.cache == (if s.ttl > 0 then s.cache[h.app := CachedSettings(found, h.now + s.ttl)] else s.cache)
           && s'.results == s.results + [Result(h.app, h.now, found, |s.history| - 1, |s.history|)]
  {
    hide ResultOk, HolderOk, Ordered;
    if h :| s.holder == Some(h) && h.app in s.cache { assert EntryOk(s, h.app); }
  }
}
