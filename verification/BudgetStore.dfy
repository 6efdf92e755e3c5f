/** The token budget store: daily budgets behind a cache with a time to live, and
    the usage table, which is always read from the database. */
module BudgetStore {
  import opened GoStrings

  /** A budget row is for one application and one model. */
  datatype Row = Row(app: string, model: string)

  datatype UsageKey = UsageKey(day: string, row: Row)

  /** A configured budget, or the fact that there is none. */
  type Budget = Option<int>

  datatype CachedBudget = CachedBudget(budget: Budget, expiresAt: int)

  type Cache = map<string, CachedBudget>

  const NUL := 0 as char

  function BudgetCacheKey(row: Row): string {
    row.app + [NUL] + row.model
  }

  /** Text that the database can hold: its text type has no zero character. */
  predicate Storable(row: Row) {
    NUL !in row.app && NUL !in row.model
  }

  /** The key of a storable row belongs to no other row, storable or not. */
  lemma CacheKeyInjective(row: Row, other: Row)
    requires Storable(row) && BudgetCacheKey(row) == BudgetCacheKey(other)
    ensures row == other
  {
    var key := BudgetCacheKey(row);
    forall i | 0 <= i < |key| && i != |row.app| ensures key[i] != NUL {
      assert key[i] == if i < |row.app| then row.app[i] else row.model[i - |row.app| - 1];
    }
    assert BudgetCacheKey(other)[|other.app|] == NUL;
    assert row.app == key[..|row.app|] == other.app;
    assert row.model == key[|row.app| + 1..] == other.model;
  }

  /** A lookup under the read lock. */
  function CacheHit(cache: Cache, ttl: int, key: string, now: int): Option<Budget> {
    if ttl > 0 && key in cache && now < cache[key].expiresAt then Some(cache[key].budget) else None
  }

  /** A store under the write lock; `now` was read before the lookup. */
  function Remember(cache: Cache, ttl: int, key: string, now: int, b: Budget): Cache {
    if ttl > 0 then cache[key := CachedBudget(b, now + ttl)] else cache
  }

  function Find(rows: map<Row, int>, row: Row): Budget {
    if row in rows then Some(rows[row]) else None
  }

  function Used(usage: map<UsageKey, int>, key: UsageKey): int {
    if key in usage then usage[key] else 0
  }

  // ------------------------------------------------------------ identifiers

  /** A metadata value is a string or something else. */
  datatype MetaValue = Text(s: string) | Other

  function MetadataStringValue(metadata: map<string, MetaValue>, key: string): Option<string> {
    if key !in metadata || metadata[key].Other? then None
    else
      var s := TrimSpace(metadata[key].s);
      if s == "" then None else Some(s)
  }

  function ExtractBudgetIdentifiers(metadata: map<string, MetaValue>, modelName: string): Option<Row> {
    var app := MetadataStringValue(metadata, "app_id");
    if app.None? then None
    else
      var model := TrimSpace(modelName);
      if model == "" then None else Some(Row(app.value, model))
  }

  /** The concurrency scope after its spelling has been normalised. */
  datatype Scope = ByApp | ByModel | ByAppModel

  function ResolveConcurrencyKey(scope: Scope, metadata: map<string, MetaValue>, modelName: string): Option<string> {
    var app := MetadataStringValue(metadata, "app_id");
    var model := TrimSpace(modelName);
    match scope
    case ByApp => app
    case ByModel => if model == "" then None else Some(model)
    case ByAppModel => if app.None? || model == "" then None else Some(app.value + ":" + model)
  }

  /** The slot that requests for one budget row compete for. */
  function RowKey(scope: Scope, row: Row): string {
    match scope
    case ByApp => row.app
    case ByModel => row.model
    case ByAppModel => row.app + ":" + row.model
  }

  /** The application named in the metadata, or nothing. */
  function AppOf(metadata: map<string, MetaValue>): string {
    if "app_id" in metadata && metadata["app_id"].Text? then TrimSpace(metadata["app_id"].s) else ""
  }

  /** Each scope asks for the names that it uses and no other, and a budget row for
      both. */
  lemma EachScopeAsksForItsNames(metadata: map<string, MetaValue>, modelName: string)
    ensures var app, model := AppOf(metadata), TrimSpace(modelName);
      && ResolveConcurrencyKey(ByApp, metadata, modelName) == (if app == "" then None else Some(app))
      && ResolveConcurrencyKey(ByModel, metadata, modelName) == (if model == "" then None else Some(model))
      && ResolveConcurrencyKey(ByAppModel, metadata, modelName) ==
           (if app == "" || model == "" then None else Some(app + ":" + model))
      && ExtractBudgetIdentifiers(metadata, modelName) ==
           (if app == "" || model == "" then None else Some(Row(app, model)))
  {
  }

  /** Requests that are charged to one row compete for one slot, in every scope. */
  lemma RowDeterminesSlot(scope: Scope, metadata: map<string, MetaValue>, modelName: string)
    requires ExtractBudgetIdentifiers(metadata, modelName).Some?
    ensures var row := ExtractBudgetIdentifiers(metadata, modelName).value;
      && ResolveConcurrencyKey(scope, metadata, modelName) == Some(RowKey(scope, row))
      && TrimSpace(RowKey(scope, row)) == RowKey(scope, row) != ""
  {
    var row := ExtractBudgetIdentifiers(metadata, modelName).value;
    TrimSpaceTrims(metadata["app_id"].s);
    TrimSpaceTrims(modelName);
    TrimmedStays(RowKey(scope, row));
  }

  /** The first row's application name runs on, over a colon, into the second row's
      model name: `r` is `q` with a colon moved. */
  ghost predicate ColonMoved(r: Row, q: Row) {
    exists x :: r.app == q.app + ":" + x && q.model == x + ":" + r.model
  }

  lemma LongerNameMovesColon(r: Row, q: Row)
    requires RowKey(ByAppModel, r) == RowKey(ByAppModel, q) && |r.app| > |q.app|
    ensures ColonMoved(r, q)
  {
    var key, n, m := RowKey(ByAppModel, r), |q.app|, |r.app|;
    var x := r.app[n + 1..];
    assert r.app == key[..m] && q.app == key[..n] && key[n] == ':' && key[m] == ':';
    assert r.model == key[m + 1..] && q.model == key[n + 1..];
    assert r.app == q.app + ":" + x;
    assert q.model == x + ":" + r.model;
  }

  lemma MovedColonCollides(r: Row, q: Row)
    requires ColonMoved(r, q)
    ensures RowKey(ByAppModel, r) == RowKey(ByAppModel, q) && r != q
  {
    var x :| r.app == q.app + ":" + x && q.model == x + ":" + r.model;
    assert q.app + ":" + x + ":" + r.model == q.app + ":" + (x + ":" + r.model);
    assert |r.app| > |q.app|;
  }

  /** With both parts in the key, different rows share a slot if and only if one comes
      from the other by moving a colon between the names. */
  lemma AppModelKeysCollideIff(r: Row, q: Row)
    ensures r != q && RowKey(ByAppModel, r) == RowKey(ByAppModel, q) <==> ColonMoved(r, q) || ColonMoved(q, r)
  {
    hide ColonMoved;
    if r != q && RowKey(ByAppModel, r) == RowKey(ByAppModel, q) {
      if |r.app| > |q.app| {
        LongerNameMovesColon(r, q);
      } else if |q.app| > |r.app| {
        LongerNameMovesColon(q, r);
      } else {
        SameLengthSameRow(r, q);
      }
    }
    if ColonMoved(r, q) { MovedColonCollides(r, q); }
    if ColonMoved(q, r) { MovedColonCollides(q, r); }
  }

  lemma SameLengthSameRow(r: Row, q: Row)
    requires RowKey(ByAppModel, r) == RowKey(ByAppModel, q) && |r.app| == |q.app|
    ensures r == q
  {
    var key, n := RowKey(ByAppModel, r), |r.app|;
    assert r.app == key[..n] == q.app && r.model == key[n + 1..] == q.model;
  }

  lemma MovedColonIsInName(r: Row, q: Row)
    requires ColonMoved(r, q)
    ensures ':' in r.app
  {
    var x :| r.app == q.app + ":" + x && q.model == x + ":" + r.model;
    assert r.app[|q.app|] == ':';
  }

  /** So the key tells rows apart when application names have no colon. */
  lemma AppModelKeysTellRowsApart(r: Row, q: Row)
    requires ':' !in r.app && ':' !in q.app
    requires RowKey(ByAppModel, r) == RowKey(ByAppModel, q)
    ensures r == q
  {
    hide ColonMoved;
    AppModelKeysCollideIff(r, q);
    if r != q {
      if ColonMoved(r, q) { MovedColonIsInName(r, q); } else { MovedColonIsInName(q, r); }
    }
  }

  /** For example, these two rows share a slot. */
  lemma AppModelKeysMayCollide()
    ensures RowKey(ByAppModel, Row("a:b", "c")) == RowKey(ByAppModel, Row("a", "b:c"))
  {
    assert "a:b" == "a" + ":" + "b" && "b:c" == "b" + ":" + "c";
    MovedColonCollides(Row("a:b", "c"), Row("a", "b:c"));
  }

  // ------------------------------------------------------------------ store

  datatype BudgetError = IdentifiersRequired | NotConfigured | Exceeded | InvalidUsage | QueryFailed

  /** The two tables. A query fails on text the database cannot hold, and may fail
      for reasons of its own. */
  class Database {
    var budgets: map<Row, int>
    var usage: map<UsageKey, int>

    constructor ()
    {
      budgets, usage := map[], map[];
    }

    method QueryBudget(row: Row, fault: bool) returns (r: Option<Budget>)
      ensures r == if fault || !Storable(row) then None else Some(Find(budgets, row))
    {
      if fault || !Storable(row) {
        return None;
      }
      return Some(Find(budgets, row));
    }

    method QueryUsage(key: UsageKey, fault: bool) returns (r: Option<int>)
      ensures r == if fault || !Storable(key.row) then None else Some(Used(usage, key))
    {
      if fault || !Storable(key.row) {
        return None;
      }
      return Some(Used(usage, key));
    }

    /** Insert, or add to the row that is there. */
    method Upsert(key: UsageKey, tokens: int, fault: bool) returns (ok: bool)
      modifies this`usage
      ensures ok == (!fault && Storable(key.row))
      ensures usage == if ok then old(usage)[key := old(Used(usage, key)) + tokens] else old(usage)
    {
      if fault || !Storable(key.row) {
        return false;
      }
      usage := usage[key := Used(usage, key) + tokens];
      return true;
    }
  }

  class PostgresTokenBudgetStore {
    const db: Database
    const ttl: int
    var cache: Cache

    constructor (db: Database, ttl: int)
      ensures this.db == db && this.ttl == ttl && cache == map[]
    {
      this.db, this.ttl, cache := db, ttl, map[];
    }

    /** `getBudget` when nothing else runs: the lookup, then query and store. */
    method GetBudget(row: Row, now: int, fault: bool) returns (r: Option<Budget>)
      modifies this`cache
      ensures var hit := CacheHit(old(cache), ttl, BudgetCacheKey(row), now);
        if hit.Some? then r == Some(hit.value) && cache == old(cache)
        else
          && r == (if fault || !Storable(row) then None
                   else if row !in db.budgets then Some(None)
                   else Some(Some(db.budgets[row])))
          && cache == if r.None? then old(cache) else Remember(old(cache), ttl, BudgetCacheKey(row), now, r.value)
    {
      var key := BudgetCacheKey(row);
      if ttl > 0 {
        if key in cache && now < cache[key].expiresAt {
          return Some(cache[key].budget);
        }
      }
      var reply := db.QueryBudget(row, fault);
      if reply.None? {
        return None;
      }
      if ttl > 0 {
        cache := cache[key := CachedBudget(reply.value, now + ttl)];
      }
      return reply;
    }

    /** `CheckAllowed`: no error exactly when a budget is known and today's usage is
        below it. */
    method CheckAllowed(appID: string, modelName: string, day: string, now: int, faults: (bool, bool)) returns (err: Option<BudgetError>)
      modifies this`cache
      ensures var row := Row(TrimSpace(appID), TrimSpace(modelName));
        var key := BudgetCacheKey(row);
        var hit := CacheHit(old(cache), ttl, key, now);
        var known := if hit.Some? then hit else if faults.0 || !Storable(row) then None
                     else if row !in db.budgets then Some(None) else Some(Some(db.budgets[row]));
        var used := UsageKey(day, row);
        && (err == Some(IdentifiersRequired) <==> row.app == "" || row.model == "")
        && cache == (if err == Some(IdentifiersRequired) || hit.Some? || known.None? then old(cache)
                     else Remember(old(cache), ttl, key, now, known.value))
        && (row.app != "" && row.model != "" ==>
              err == if known.None? then Some(QueryFailed)
                     else if known.value.None? then Some(NotConfigured)
                     else if faults.1 || !Storable(row) then Some(QueryFailed)
                     else if (if used in db.usage then db.usage[used] else 0) >= known.value.value then Some(Exceeded)
                     else None)
    {
      var row := Row(TrimSpace(appID), TrimSpace(modelName));
      if row.app == "" || row.model == "" {
        return Some(IdentifiersRequired);
      }
      var budget := GetBudget(row, now, faults.0);
      if budget.None? {
        return Some(QueryFailed);
      }
      if budget.value.None? {
        return Some(NotConfigured);
      }
      var used := db.QueryUsage(UsageKey(day, row), faults.1);
      if used.None? {
        return Some(QueryFailed);
      }
      if used.value >= budget.value.value {
        return Some(Exceeded);
      }
      return None;
    }

    /** `AddUsage` adds to one row of the usage table, or changes nothing. */
    method AddUsage(appID: string, modelName: string, tokens: int, day: string, fault: bool) returns (err: Option<BudgetError>)
      modifies db`usage
      ensures var row := Row(TrimSpace(appID), TrimSpace(modelName));
        var key := UsageKey(day, row);
        && (err == Some(IdentifiersRequired) <==> row.app == "" || row.model == "")
        && (err == Some(InvalidUsage) <==> row.app != "" && row.model != "" && tokens < 0)
        && (err.None? ==> Used(db.usage, key) == Used(old(db.usage), key) + tokens)
        && (err.Some? ==> db.usage == old(db.usage))
        && forall k :: k != key ==> Used(db.usage, k) == Used(old(db.usage), k)
    {
      var row := Row(TrimSpace(appID), TrimSpace(modelName));
      if row.app == "" || row.model == "" {
        return Some(IdentifiersRequired);
      }
      if tokens < 0 {
        return Some(InvalidUsage);
      }
      if tokens == 0 {
        return None;
      }
      var ok := db.Upsert(UsageKey(day, row), tokens, fault);
      return if ok then None else Some(QueryFailed);
    }
  }
}
