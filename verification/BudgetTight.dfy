/** The overshoot bound is reached: as many requests as there are slots can all pass
    the check before the first of them records its usage. */
module BudgetTight {
  import opened GoStrings
  import opened AdmissionSpec
  import M = AdmissionMachine
  import opened BudgetStore
  import opened BudgetBound

  const R := Row("app", "model")
  const K := UsageKey("2025-01-01", R)
  const META: map<string, MetaValue> := map["app_id" := Text("app")]

  lemma RequestForK(r: Request)
    requires r.day == K.day && r.metadata == META && r.modelName == "model"
    ensures KeyOf(r) == Some(K) && RowOf(r) == Some(R)
    ensures forall scope :: ResolveConcurrencyKey(scope, META, "model") == Some(RowKey(scope, R))
    ensures forall scope :: TrimSpace(RowKey(scope, R)) == RowKey(scope, R) && RowKey(scope, R) != ""
  {
    TrimmedStays("app");
    TrimmedStays("model");
    TrimmedStays("app:model");
    assert "app" + ":" + "model" == "app:model";
    forall scope ensures RowKey(scope, R) == "app" || RowKey(scope, R) == "model" || RowKey(scope, R) == "app:model" {
      match scope case ByApp => case ByModel => case ByAppModel =>
    }
  }

  /** `n` requests for row `K` have passed the check and the first `m` have recorded. */
  ghost predicate Reached(w: World, n: nat, m: nat) {
    && m <= n
    && (forall i: nat :: i < n ==> Holding(w, i) && KeyOf(w.requests[i]) == Some(K))
    && (forall i: nat :: m <= i < n ==> i in w.requests && w.requests[i].stage == Passed)
    && (forall i: nat :: n <= i ==> i !in w.requests && i !in w.sys.calls)
    && Lookup(w.sys.table, RowKey(w.scope, R)).inflight == n
  }

  function PassSteps(n: nat, budget: int): seq<Step> {
    [Arrive(n, K.day, META, "model", false), Return(n), ReadBudget(n, Configured(budget)), ReadUsage(n, false)]
  }

  lemma Exec4(w: World, a: Step, b: Step, c: Step, d: Step, key: UsageKey, budget: int, tokens: nat)
    requires a.Arrive? && b.Return? && c.ReadBudget? && d.ReadUsage?
    requires c.reply == Configured(budget)
    ensures Exec(w, [a, b, c, d]) ==
      Apply(Apply(Apply(Apply(w, a), b), c), d)
    ensures RunWithin(w, [a, b, c, d], key, budget, tokens)
  {
    hide Apply;
    var w1 := Apply(w, a);
    var w2 := Apply(w1, b);
    var w3 := Apply(w2, c);
    var w4 := Apply(w3, d);
    First(w, a, [b, c, d], key, budget, tokens);
    First(w1, b, [c, d], key, budget, tokens);
    First(w2, c, [d], key, budget, tokens);
    First(w3, d, [], key, budget, tokens);
    assert [a] + [b, c, d] == [a, b, c, d] && [b] + [c, d] == [b, c, d] && [c] + [d] == [c, d] && [d] + [] == [d];
    assert Exec(w4, []) == w4;
    assert RunWithin(w4, [], key, budget, tokens);
  }

  lemma First(w: World, first: Step, rest: seq<Step>, key: UsageKey, budget: int, tokens: nat)
    ensures Exec(w, [first] + rest) == Exec(Apply(w, first), rest)
    ensures RunWithin(w, [first] + rest, key, budget, tokens) <==>
      StepWithin(w, first, key, budget, tokens) && RunWithin(Apply(w, first), rest, key, budget, tokens)
  {
    hide Apply, StepWithin;
    assert ([first] + rest)[1..] == rest;
  }

  /** A newcomer that finds a free slot is admitted and gets its handle. */
  lemma AdmitOne(w: World, n: nat)
    requires Reached(w, n, 0) && n < w.sys.cfg.maxConcurrency
    ensures var w' := Apply(Apply(w, Arrive(n, K.day, META, "model", false)), Return(n));
      && Holding(w', n) && w' == w.(sys := w'.sys, requests := w.requests[n := Request(K.day, META, "model", Checking)])
      && w'.sys.cfg == w.sys.cfg
      && Lookup(w'.sys.table, RowKey(w.scope, R)).inflight == n + 1
      && (forall i: nat :: i != n ==> (i in w'.sys.calls <==> i in w.sys.calls))
      && (forall i: nat :: i != n && i in w.sys.calls ==> w'.sys.calls[i] == w.sys.calls[i])
  {
    hide TrimSpace, ExtractBudgetIdentifiers, ResolveConcurrencyKey;
    var r := Request(K.day, META, "model", Checking);
    RequestForK(r);
    var w1 := Apply(w, Arrive(n, K.day, META, "model", false));
    assert M.InPhase(w1.sys, n, M.Admitted);
  }

  /** With usage below the budget the check passes. */
  lemma CheckOne(w: World, n: nat, budget: int)
    requires Holding(w, n) && w.requests[n] == Request(K.day, META, "model", Checking)
    requires Used(w.usage, K) < budget
    ensures var w' := Apply(Apply(w, ReadBudget(n, Configured(budget))), ReadUsage(n, false));
      w' == w.(requests := w.requests[n := Request(K.day, META, "model", Passed)])
  {
    hide ExtractBudgetIdentifiers;
    var r := w.requests[n];
    RequestForK(r);
    var w1 := Apply(w, ReadBudget(n, Configured(budget)));
    RequestForK(w1.requests[n]);
    assert w1.requests == w.requests[n := r.(stage := BudgetRead(budget))];
    assert w.requests[n := r.(stage := BudgetRead(budget))][n := r.(stage := Passed)] == w.requests[n := r.(stage := Passed)];
  }

  lemma PassOne(w: World, n: nat, budget: int, tokens: nat)
    requires Reached(w, n, 0) && n < w.sys.cfg.maxConcurrency
    requires Used(w.usage, K) < budget
    ensures var w' := Exec(w, PassSteps(n, budget));
      && Reached(w', n + 1, 0) && w'.usage == w.usage && w'.sys.cfg == w.sys.cfg && w'.scope == w.scope
      && RunWithin(w, PassSteps(n, budget), K, budget, tokens)
  {
    hide Reached, Exec, Apply, RunWithin, ExtractBudgetIdentifiers, RowKey;
    var s := PassSteps(n, budget);
    Exec4(w, s[0], s[1], s[2], s[3], K, budget, tokens);
    AdmitOne(w, n);
    var w2 := Apply(Apply(w, s[0]), s[1]);
    CheckOne(w2, n, budget);
    var w4 := Apply(Apply(w2, s[2]), s[3]);
    var r := w4.requests[n];
    RequestForK(r);
    assert w.requests[n := w2.requests[n]][n := r] == w.requests[n := r];
    OneMore(w, w4, n);
  }

  /** One more request past the check, the others as they were. */
  lemma OneMore(w: World, w': World, n: nat)
    requires Reached(w, n, 0) && Holding(w', n) && w'.scope == w.scope
    requires w'.requests[n].stage == Passed && KeyOf(w'.requests[n]) == Some(K)
    requires w'.requests == w.requests[n := w'.requests[n]]
    requires Lookup(w'.sys.table, RowKey(w.scope, R)).inflight == n + 1
    requires forall i: nat :: i != n ==> (i in w'.sys.calls <==> i in w.sys.calls)
    requires forall i: nat :: i != n && i in w.sys.calls ==> w'.sys.calls[i] == w.sys.calls[i]
    ensures Reached(w', n + 1, 0)
  {
    hide KeyOf, RowKey;
    forall i: nat | i < n + 1 ensures Holding(w', i) && KeyOf(w'.requests[i]) == Some(K) {
      if i != n { assert Holding(w, i); }
    }
  }

  lemma RecordOne(w: World, n: nat, m: nat, tokens: nat, budget: int)
    requires Reached(w, n, m) && m < n
    ensures var w' := Exec(w, [AddUsage(m, tokens, false)]);
      && Reached(w', n, m + 1) && w'.sys == w.sys && w'.scope == w.scope
      && Used(w'.usage, K) == Used(w.usage, K) + tokens
      && RunWithin(w, [AddUsage(m, tokens, false)], K, budget, tokens)
  {
    hide ExtractBudgetIdentifiers, RowKey;
    var step := AddUsage(m, tokens, false);
    assert Holding(w, m);
    var w' := Apply(w, step);
    assert [step][1..] == [];
    assert Exec(w, [step]) == Exec(w', []);
    assert RunWithin(w', [], K, budget, tokens);
    var r := w.requests[m].(stage := Closing);
    assert KeyOf(r) == Some(K);
    assert w'.requests == w.requests[m := r];
    OneRecorded(w, w', n, m, r);
  }

  lemma OneRecorded(w: World, w': World, n: nat, m: nat, r: Request)
    requires Reached(w, n, m) && m < n && KeyOf(r) == Some(K)
    requires w'.sys == w.sys && w'.scope == w.scope && w'.requests == w.requests[m := r]
    ensures Reached(w', n, m + 1)
  {
    hide KeyOf, RowKey;
    forall i: nat | i < n ensures Holding(w', i) && KeyOf(w'.requests[i]) == Some(K) {
      assert Holding(w, i);
    }
  }

  lemma {:induction false} RunsCompose(w: World, a: seq<Step>, b: seq<Step>, key: UsageKey, budget: int, tokens: nat)
    requires RunWithin(w, a, key, budget, tokens) && RunWithin(Exec(w, a), b, key, budget, tokens)
    ensures RunWithin(w, a + b, key, budget, tokens)
    ensures Exec(w, a + b) == Exec(Exec(w, a), b)
    decreases |a|
  {
    hide Apply, StepWithin;
    if a == [] {
      assert a + b == b;
    } else {
      RunsCompose(Apply(w, a[0]), a[1..], b, key, budget, tokens);
      assert (a + b)[0] == a[0] && (a + b)[1..] == a[1..] + b;
    }
  }

  lemma {:induction false} PassAll(cfg: Config, scope: Scope, usage: map<UsageKey, int>, n: nat, budget: int, tokens: nat) returns (steps: seq<Step>)
    requires ValidConfig(cfg) && n <= cfg.maxConcurrency && Used(usage, K) < budget
    ensures var w0 := Init(cfg, scope, usage);
      var w := Exec(w0, steps);
      && Reached(w, n, 0) && w.usage == usage && w.sys.cfg == cfg && w.scope == scope
      && RunWithin(w0, steps, K, budget, tokens)
    decreases n
  {
    hide Reached, PassSteps;
    var w0 := Init(cfg, scope, usage);
    if n == 0 {
      steps := [];
      assert Reached(w0, 0, 0) by { StartReached(cfg, scope, usage); }
    } else {
      var first := PassAll(cfg, scope, usage, n - 1, budget, tokens);
      var w := Exec(w0, first);
      PassOne(w, n - 1, budget, tokens);
      steps := first + PassSteps(n - 1, budget);
      RunsCompose(w0, first, PassSteps(n - 1, budget), K, budget, tokens);
    }
  }

  lemma StartReached(cfg: Config, scope: Scope, usage: map<UsageKey, int>)
    ensures Reached(Init(cfg, scope, usage), 0, 0)
  {
  }

  lemma {:induction false} RecordAll(w: World, n: nat, m: nat, budget: int, tokens: nat) returns (steps: seq<Step>)
    requires Reached(w, n, m)
    ensures Used(Exec(w, steps).usage, K) == Used(w.usage, K) + (n - m) * tokens
    ensures RunWithin(w, steps, K, budget, tokens)
    decreases n - m
  {
    hide Reached, Used, Exec, RunWithin;
    LessOrEqual(w, n, m);
    if m == n {
      steps := [];
      NoSteps(w, K, budget, tokens);
    } else {
      var step := [AddUsage(m, tokens, false)];
      RecordOne(w, n, m, tokens, budget);
      var rest := RecordAll(Exec(w, step), n, m + 1, budget, tokens);
      steps := step + rest;
      RunsCompose(w, step, rest, K, budget, tokens);
      assert (n - m) * tokens == tokens + (n - (m + 1)) * tokens;
    }
  }

  lemma NoSteps(w: World, key: UsageKey, budget: int, tokens: nat)
    ensures Exec(w, []) == w && RunWithin(w, [], key, budget, tokens)
  {
  }

  lemma LessOrEqual(w: World, n: nat, m: nat)
    requires Reached(w, n, m)
    ensures m <= n
  {
  }

  /** For every number of slots c, budget B and M tokens a request, and in every
      scope, some run that keeps to these limits takes a row from B - 1 to exactly
      B - 1 + c * M. */
  lemma BoundIsReached(cfg: Config, scope: Scope, budget: int, tokens: nat) returns (steps: seq<Step>)
    requires ValidConfig(cfg)
    ensures RunWithin(Init(cfg, scope, map[K := budget - 1]), steps, K, budget, tokens)
    ensures Used(Exec(Init(cfg, scope, map[K := budget - 1]), steps).usage, K)
         == budget - 1 + cfg.maxConcurrency * tokens
  {
    hide Reached;
    var usage: map<UsageKey, int> := map[K := budget - 1];
    var w0 := Init(cfg, scope, usage);
    var pass := PassAll(cfg, scope, usage, cfg.maxConcurrency, budget, tokens);
    var record := RecordAll(Exec(w0, pass), cfg.maxConcurrency, 0, budget, tokens);
    steps := pass + record;
    RunsCompose(w0, pass, record, K, budget, tokens);
  }
}
