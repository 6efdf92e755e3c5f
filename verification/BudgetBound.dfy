/** Chat requests with both controls on: admission, budget check, provider call,
    usage update and the deferred release, for any number of requests at once. */
module BudgetBound {
  import opened GoStrings
  import opened AdmissionSpec
  import M = AdmissionMachine
  import AdmissionTheorems
  import opened BudgetStore

  /** How far the handler has got after admission. */
  datatype Stage =
    | Checking               // admitted, or waiting to be
    | BudgetRead(budget: int)
    | Passed                 // the budget check has passed, usage not recorded yet
    | Closing                // about to return; the deferred release runs

  datatype Request = Request(day: string, metadata: map<string, MetaValue>, modelName: string, stage: Stage)

  datatype World = World(scope: Scope, sys: M.Sys, requests: map<nat, Request>, usage: map<UsageKey, int>)

  /** What the lookup of the budget answers. */
  datatype BudgetReply = Unavailable | NotConfigured | Configured(budget: int)

  datatype Step =
    | Arrive(id: nat, day: string, metadata: map<string, MetaValue>, modelName: string, timed: bool)
    | Wake(id: nat)
    | Withdraw(id: nat, timeout: bool)
    | Return(id: nat)
    | ReadBudget(id: nat, reply: BudgetReply)
    | ReadUsage(id: nat, fault: bool)
    | AddUsage(id: nat, tokens: int, fault: bool)
    | GiveUp(id: nat)
    | Finish(id: nat)

  function Init(cfg: Config, scope: Scope, usage: map<UsageKey, int>): World {
    World(scope, M.Init(cfg), map[], usage)
  }

  function RowOf(r: Request): Option<Row> {
    ExtractBudgetIdentifiers(r.metadata, r.modelName)
  }

  function KeyOf(r: Request): Option<UsageKey> {
    if RowOf(r).Some? then Some(UsageKey(r.day, RowOf(r).value)) else None
  }

  /** The request holds its handle. */
  predicate Holding(w: World, id: nat) {
    id in w.requests && M.InPhase(w.sys, id, M.Live)
  }

  predicate Enabled(w: World, step: Step) {
    match step
    case Arrive(id, _, metadata, modelName, _) => id !in w.requests && id !in w.sys.calls
    case Wake(_) => true
    case Withdraw(_, _) => true
    case Return(_) => true
    case ReadBudget(id, _) => Holding(w, id) && w.requests[id].stage.Checking?
    case ReadUsage(id, _) => Holding(w, id) && w.requests[id].stage.BudgetRead?
    case AddUsage(id, _, _) => Holding(w, id) && w.requests[id].stage.Passed?
    case GiveUp(id) => Holding(w, id)
    case Finish(id) => Holding(w, id) && w.requests[id].stage.Closing?
  }

  function Go(w: World, id: nat, stage: Stage, usage: map<UsageKey, int>): World
    requires id in w.requests
  {
    w.(requests := w.requests[id := w.requests[id].(stage := stage)], usage := usage)
  }

  /** The handler goes on only with a configured budget ... */
  function AfterBudget(r: Request, reply: BudgetReply): Stage {
    if RowOf(r).None? || !reply.Configured? then Closing else BudgetRead(reply.budget)
  }

  /** ... and only when what is used today is below it. */
  function AfterUsage(w: World, r: Request, fault: bool): Stage
    requires r.stage.BudgetRead?
  {
    if fault || KeyOf(r).None? || Used(w.usage, KeyOf(r).value) >= r.stage.budget then Closing else Passed
  }

  /** `logRequest` records a positive number of tokens for a request it can identify. */
  function Recorded(w: World, r: Request, tokens: int, fault: bool): map<UsageKey, int> {
    if fault || tokens <= 0 || KeyOf(r).None? then w.usage
    else w.usage[KeyOf(r).value := Used(w.usage, KeyOf(r).value) + tokens]
  }

  function Admission(w: World, step: M.Step): World {
    w.(sys := M.Apply(w.sys, step))
  }

  /** A request whose key does not resolve is answered before admission. */
  function ArriveStep(w: World, id: nat, r: Request, timed: bool): World {
    var key := ResolveConcurrencyKey(w.scope, r.metadata, r.modelName);
    if key.None? then w
    else Admission(w, M.Begin(id, key.value, timed)).(requests := w.requests[id := r])
  }

  function Apply(w: World, step: Step): World {
    if !Enabled(w, step) then w
    else
      match step
      case Arrive(id, day, metadata, modelName, timed) =>
        ArriveStep(w, id, Request(day, metadata, modelName, Checking), timed)
      case Wake(id) => Admission(w, M.Wake(id))
      case Withdraw(id, timeout) => Admission(w, M.Withdraw(id, timeout))
      case Return(id) => Admission(w, M.Return(id))
      case ReadBudget(id, reply) => Go(w, id, AfterBudget(w.requests[id], reply), w.usage)
      case ReadUsage(id, fault) => Go(w, id, AfterUsage(w, w.requests[id], fault), w.usage)
      case AddUsage(id, tokens, fault) => Go(w, id, Closing, Recorded(w, w.requests[id], tokens, fault))
      case GiveUp(id) => Go(w, id, Closing, w.usage)
      case Finish(id) => Admission(w, M.ReleaseHandle(id))
  }

  function Exec(w: World, steps: seq<Step>): World
    decreases |steps|
  {
    if steps == [] then w else Exec(Apply(w, steps[0]), steps[1..])
  }

  /** A new request goes to the controller under the key that its scope asks for, and is
      answered at once only when a name for that is missing. */
  lemma ArrivesAt(w: World, id: nat, day: string, metadata: map<string, MetaValue>, modelName: string, timed: bool)
    requires id !in w.requests && id !in w.sys.calls
    ensures var w' := Apply(w, Arrive(id, day, metadata, modelName, timed));
      var app, model := AppOf(metadata), TrimSpace(modelName);
      var missing := (w.scope != ByModel && app == "") || (w.scope != ByApp && model == "");
      var key := match w.scope case ByApp => app case ByModel => model case ByAppModel => app + ":" + model;
      if missing then w' == w
      else
        && w'.sys == M.Apply(w.sys, M.Begin(id, key, timed))
        && w'.requests == w.requests[id := Request(day, metadata, modelName, Checking)]
        && w'.usage == w.usage && w'.scope == w.scope
  {
    hide TrimSpace;
    EachScopeAsksForItsNames(metadata, modelName);
  }

  /** An admitted request goes on to its provider if and only if both names are there, a
      budget is configured and today's usage is below it; otherwise it closes. */
  lemma PassesIff(w: World, id: nat, reply: BudgetReply, fault: bool)
    requires Holding(w, id) && w.requests[id].stage == Checking
    ensures var w' := Apply(Apply(w, ReadBudget(id, reply)), ReadUsage(id, fault));
      var r := w.requests[id];
      var row := Row(AppOf(r.metadata), TrimSpace(r.modelName));
      var key := UsageKey(r.day, row);
      && Holding(w', id) && w'.usage == w.usage && w'.sys == w.sys
      && (w'.requests[id].stage == Passed <==>
            && row.app != "" && row.model != "" && reply.Configured? && !fault
            && (if key in w.usage then w.usage[key] else 0) < reply.budget)
      && (w'.requests[id].stage == Passed || w'.requests[id].stage == Closing)
  {
    hide TrimSpace, ExtractBudgetIdentifiers;
    var r := w.requests[id];
    EachScopeAsksForItsNames(r.metadata, r.modelName);
  }

  // ------------------------------------------------------------------- bound

  /** In this state the step respects the bounds for this usage row: a budget read for
      it is at most `budget`, and a request adds at most `tokens` to it. */
  ghost predicate StepWithin(w: World, step: Step, key: UsageKey, budget: int, tokens: nat) {
    match step
    case ReadBudget(id, Configured(b)) => id in w.requests && RowOf(w.requests[id]) == Some(key.row) ==> b <= budget
    case AddUsage(id, t, _) => id in w.requests && KeyOf(w.requests[id]) == Some(key) ==> t <= tokens
    case _ => true
  }

  ghost predicate RunWithin(w: World, steps: seq<Step>, key: UsageKey, budget: int, tokens: nat)
    decreases |steps|
  {
    steps != [] ==> StepWithin(w, steps[0], key, budget, tokens) && RunWithin(Apply(w, steps[0]), steps[1..], key, budget, tokens)
  }

  /** Requests that have passed the check for this row and have not recorded usage. */
  ghost function Pending(w: World, key: UsageKey): set<nat> {
    set id | id in w.requests && w.requests[id].stage == Passed && KeyOf(w.requests[id]) == Some(key)
  }

  /** A request is known to the controller under the key of its row, and past admission
      it holds a slot until it is closing. */
  ghost predicate RequestOk(w: World, id: nat)
    requires id in w.requests
  {
    var r := w.requests[id];
    && id in w.sys.calls
    && (RowOf(r).Some? ==> w.sys.calls[id].key == RowKey(w.scope, RowOf(r).value))
    && (r.stage != Checking && r.stage != Closing ==> M.InPhase(w.sys, id, M.Live))
  }

  ghost predicate Consistent(w: World) {
    && M.Inv(w.sys)
    && forall id :: id in w.requests ==> RequestOk(w, id)
  }

  /** The quantity that no step raises above the bound. */
  ghost predicate Charged(w: World, key: UsageKey, tokens: nat, most: int) {
    Used(w.usage, key) + tokens * |Pending(w, key)| <= most
  }

  ghost predicate BudgetsWithin(w: World, row: Row, budget: int) {
    forall id :: id in w.requests && RowOf(w.requests[id]) == Some(row) && w.requests[id].stage.BudgetRead?
      ==> w.requests[id].stage.budget <= budget
  }

  /** Pending requests for one row hold slots of one key. */
  lemma PendingHoldSlots(w: World, key: UsageKey, extra: set<nat>)
    requires Consistent(w)
    requires forall id :: id in extra ==>
      id in w.requests && M.InPhase(w.sys, id, M.Live) && KeyOf(w.requests[id]) == Some(key)
    ensures |Pending(w, key) + extra| <= w.sys.cfg.maxConcurrency
  {
    var slot := RowKey(w.scope, key.row);
    var owners := M.Owners(w.sys, slot);
    forall id | id in Pending(w, key) + extra ensures id in owners {
      assert RequestOk(w, id);
    }
    SubsetSize(Pending(w, key) + extra, owners);
    assert |owners| == Lookup(w.sys.table, slot).inflight;
    assert slot in w.sys.table ==> KeyOk(w.sys.cfg, w.sys.table[slot]);
  }

  lemma SubsetSize<T>(a: set<T>, b: set<T>)
    requires a <= b
    ensures |a| <= |b|
  {
    assert b == a + (b - a);
  }

  lemma SlotOfRequest(w: World, r: Request)
    ensures RowOf(r).Some? ==>
      && ResolveConcurrencyKey(w.scope, r.metadata, r.modelName) == Some(RowKey(w.scope, RowOf(r).value))
      && TrimSpace(RowKey(w.scope, RowOf(r).value)) == RowKey(w.scope, RowOf(r).value)
  {
    if RowOf(r).Some? { RowDeterminesSlot(w.scope, r.metadata, r.modelName); }
  }

  /** A controller step moves the phase of its own call only, and a live handle only
      by releasing it. */
  lemma OnlyOwnPhase(s: M.Sys, step: M.Step, id: nat)
    requires id in s.calls && (step.id != id || (M.InPhase(s, id, M.Live) && !step.ReleaseHandle?))
    ensures id in M.Apply(s, step).calls && M.Apply(s, step).calls[id] == s.calls[id]
  {
  }

  /** A controller step leaves the requests as they are, if it does not release the
      handle of one that is still at work. */
  lemma AdmissionConsistent(w: World, step: M.Step)
    requires Consistent(w)
    requires step.ReleaseHandle? && step.id in w.requests ==> w.requests[step.id].stage.Closing?
    ensures Consistent(Admission(w, step))
  {
    hide M.Inv, M.Apply, RowOf;
    M.StepInv(w.sys, step);
    forall id | id in w.requests ensures RequestOk(Admission(w, step), id) {
      assert RequestOk(w, id);
      AdmissionTheorems.KeyFixed(w.sys, step, id);
      if w.requests[id].stage != Checking && w.requests[id].stage != Closing {
        OnlyOwnPhase(w.sys, step, id);
      }
    }
  }

  lemma GoConsistent(w: World, id: nat, stage: Stage, usage: map<UsageKey, int>)
    requires Consistent(w) && Holding(w, id)
    ensures Consistent(Go(w, id, stage, usage))
  {
    hide M.Inv, ExtractBudgetIdentifiers;
    var w' := Go(w, id, stage, usage);
    forall j | j in w'.requests ensures RequestOk(w', j) {
      assert RequestOk(w, j);
    }
  }

  lemma ArriveConsistent(w: World, id: nat, r: Request, timed: bool)
    requires Consistent(w) && id !in w.requests && id !in w.sys.calls && r.stage.Checking?
    ensures Consistent(ArriveStep(w, id, r, timed))
  {
    hide M.Inv, ExtractBudgetIdentifiers, ResolveConcurrencyKey, TrimSpace;
    var key := ResolveConcurrencyKey(w.scope, r.metadata, r.modelName);
    if key.Some? {
      var step := M.Begin(id, key.value, timed);
      AdmissionConsistent(w, step);
      SlotOfRequest(w, r);
      var w' := ArriveStep(w, id, r, timed);
      forall j | j in w'.requests ensures RequestOk(w', j) {
        if j != id { assert RequestOk(Admission(w, step), j); }
      }
    }
  }

  lemma StepConsistent(w: World, step: Step)
    requires Consistent(w)
    ensures Consistent(Apply(w, step))
  {
    hide Consistent, Admission, ArriveStep, Go, RowOf, KeyOf;
    if Enabled(w, step) {
      match step
      case Arrive(id, day, metadata, modelName, timed) =>
        ArriveConsistent(w, id, Request(day, metadata, modelName, Checking), timed);
      case Wake(id) => AdmissionConsistent(w, M.Wake(id));
      case Withdraw(id, timeout) => AdmissionConsistent(w, M.Withdraw(id, timeout));
      case Return(id) => AdmissionConsistent(w, M.Return(id));
      case Finish(id) => AdmissionConsistent(w, M.ReleaseHandle(id));
      case ReadBudget(id, reply) => GoConsistent(w, id, AfterBudget(w.requests[id], reply), w.usage);
      case ReadUsage(id, fault) => GoConsistent(w, id, AfterUsage(w, w.requests[id], fault), w.usage);
      case AddUsage(id, tokens, fault) => GoConsistent(w, id, Closing, Recorded(w, w.requests[id], tokens, fault));
      case GiveUp(id) => GoConsistent(w, id, Closing, w.usage);
    }
  }

  // -------------------------------------------------------------- the charge

  /** How moving one request changes the pending set. */
  lemma GoPending(w: World, id: nat, stage: Stage, usage: map<UsageKey, int>, key: UsageKey)
    requires id in w.requests
    ensures var mine := KeyOf(w.requests[id]) == Some(key);
      Pending(Go(w, id, stage, usage), key) == if mine && stage == Passed then Pending(w, key) + {id} else Pending(w, key) - {id}
  {
    hide ExtractBudgetIdentifiers;
  }

  lemma Scale(tokens: nat, a: int, b: int)
    requires a <= b
    ensures tokens * a <= tokens * b
  {
  }

  /** Passing the check: the usage is below the budget, and with this request at most
      `c` requests for the row are pending. */
  lemma PassCharged(w: World, id: nat, fault: bool, key: UsageKey, budget: int, tokens: nat, most: int)
    requires Consistent(w) && Holding(w, id) && w.requests[id].stage.BudgetRead?
    requires Charged(w, key, tokens, most) && BudgetsWithin(w, key.row, budget)
    requires most >= budget - 1 + tokens * w.sys.cfg.maxConcurrency
    ensures Charged(Apply(w, ReadUsage(id, fault)), key, tokens, most)
  {
    hide Consistent, ExtractBudgetIdentifiers;
    var r := w.requests[id];
    var stage := AfterUsage(w, r, fault);
    GoPending(w, id, stage, w.usage, key);
    if KeyOf(r) == Some(key) && stage == Passed {
      assert Used(w.usage, key) <= budget - 1;
      PendingHoldSlots(w, key, {id});
      Scale(tokens, |Pending(w, key) + {id}|, w.sys.cfg.maxConcurrency);
    } else {
      SubsetSize(Pending(w, key) - {id}, Pending(w, key));
      Scale(tokens, |Pending(w, key) - {id}|, |Pending(w, key)|);
    }
  }

  /** Recording at most `tokens` uses up this request's share of the charge. */
  lemma RecordCharged(w: World, id: nat, t: int, fault: bool, key: UsageKey, tokens: nat, most: int)
    requires Holding(w, id) && w.requests[id].stage.Passed?
    requires Charged(w, key, tokens, most)
    requires KeyOf(w.requests[id]) == Some(key) ==> t <= tokens
    ensures Charged(Apply(w, AddUsage(id, t, fault)), key, tokens, most)
  {
    hide ExtractBudgetIdentifiers, KeyOf;
    var r := w.requests[id];
    GoPending(w, id, Closing, Recorded(w, r, t, fault), key);
    var p := Pending(w, key);
    if KeyOf(r) == Some(key) {
      OneLess(tokens, p, id);
      assert Used(Recorded(w, r, t, fault), key) <= Used(w.usage, key) + tokens;
    } else {
      assert p - {id} == p;
      assert Used(Recorded(w, r, t, fault), key) == Used(w.usage, key);
    }
  }

  lemma OneLess(tokens: nat, p: set<nat>, id: nat)
    requires id in p
    ensures tokens * |p| == tokens * |p - {id}| + tokens
  {
    assert |p| == |p - {id}| + 1;
  }

  lemma LeaveCharged(w: World, id: nat, stage: Stage, key: UsageKey, tokens: nat, most: int)
    requires id in w.requests && stage != Passed && Charged(w, key, tokens, most)
    ensures Charged(Go(w, id, stage, w.usage), key, tokens, most)
  {
    GoPending(w, id, stage, w.usage, key);
    SubsetSize(Pending(w, key) - {id}, Pending(w, key));
    Scale(tokens, |Pending(w, key) - {id}|, |Pending(w, key)|);
  }

  lemma ArriveCharged(w: World, id: nat, r: Request, timed: bool, key: UsageKey)
    requires id !in w.requests && r.stage.Checking?
    ensures Pending(ArriveStep(w, id, r, timed), key) == Pending(w, key)
    ensures ArriveStep(w, id, r, timed).usage == w.usage
  {
    hide ExtractBudgetIdentifiers, M.Apply;
  }

  lemma StepCharged(w: World, step: Step, key: UsageKey, budget: int, tokens: nat, most: int)
    requires Consistent(w) && StepWithin(w, step, key, budget, tokens)
    requires Charged(w, key, tokens, most) && BudgetsWithin(w, key.row, budget)
    requires most >= budget - 1 + tokens * w.sys.cfg.maxConcurrency
    ensures Charged(Apply(w, step), key, tokens, most)
  {
    hide Consistent, ExtractBudgetIdentifiers, M.Apply, BudgetsWithin, Charged, Recorded, AfterUsage, AfterBudget, ArriveStep;
    if Enabled(w, step) {
      match step
      case Arrive(id, day, metadata, modelName, timed) =>
        ArriveCharged(w, id, Request(day, metadata, modelName, Checking), timed, key);
        SameCharge(w, Apply(w, step), key, tokens, most);
      case Wake(id) => SameCharge(w, Apply(w, step), key, tokens, most);
      case Withdraw(id, timeout) => SameCharge(w, Apply(w, step), key, tokens, most);
      case Return(id) => SameCharge(w, Apply(w, step), key, tokens, most);
      case Finish(id) => SameCharge(w, Apply(w, step), key, tokens, most);
      case ReadBudget(id, reply) =>
        assert AfterBudget(w.requests[id], reply) != Passed by { BudgetIsNotPassing(w.requests[id], reply); }
        LeaveCharged(w, id, AfterBudget(w.requests[id], reply), key, tokens, most);
      case ReadUsage(id, fault) => PassCharged(w, id, fault, key, budget, tokens, most);
      case AddUsage(id, t, fault) => RecordCharged(w, id, t, fault, key, tokens, most);
      case GiveUp(id) => LeaveCharged(w, id, Closing, key, tokens, most);
    }
  }

  lemma BudgetIsNotPassing(r: Request, reply: BudgetReply)
    ensures AfterBudget(r, reply) != Passed
  {
  }

  lemma SameCharge(w: World, w': World, key: UsageKey, tokens: nat, most: int)
    requires Charged(w, key, tokens, most) && Pending(w', key) == Pending(w, key) && w'.usage == w.usage
    ensures Charged(w', key, tokens, most)
  {
  }

  lemma StepBudgets(w: World, step: Step, key: UsageKey, budget: int, tokens: nat)
    requires BudgetsWithin(w, key.row, budget) && StepWithin(w, step, key, budget, tokens)
    ensures BudgetsWithin(Apply(w, step), key.row, budget)
    ensures Apply(w, step).sys.cfg == w.sys.cfg
  {
    hide ExtractBudgetIdentifiers, M.Apply, ResolveConcurrencyKey;
    ConfigKept(w, step);
  }

  lemma ConfigKept(w: World, step: Step)
    ensures Apply(w, step).sys.cfg == w.sys.cfg
  {
    hide ExtractBudgetIdentifiers, ResolveConcurrencyKey;
  }

  lemma {:induction false} RunCharged(w: World, steps: seq<Step>, key: UsageKey, budget: int, tokens: nat, most: int)
    requires Consistent(w) && RunWithin(w, steps, key, budget, tokens)
    requires Charged(w, key, tokens, most) && BudgetsWithin(w, key.row, budget)
    requires most >= budget - 1 + tokens * w.sys.cfg.maxConcurrency
    ensures Charged(Exec(w, steps), key, tokens, most)
    decreases |steps|
  {
    hide Consistent, Charged, BudgetsWithin, Apply, StepWithin;
    if steps != [] {
      StepConsistent(w, steps[0]);
      StepCharged(w, steps[0], key, budget, tokens, most);
      StepBudgets(w, steps[0], key, budget, tokens);
      RunCharged(Apply(w, steps[0]), steps[1..], key, budget, tokens, most);
    }
  }

  /** Budget overshoot bound: with at most `c` slots per key in any scope, a budget
      never above B and at most M tokens a request, one row's usage of a day never
      exceeds its initial value or B - 1 + c * M, whichever is larger, in any
      interleaving. */
  lemma OvershootBound(cfg: Config, scope: Scope, initial: map<UsageKey, int>, steps: seq<Step>,
                       key: UsageKey, budget: int, tokens: nat)
    requires ValidConfig(cfg)
    requires RunWithin(Init(cfg, scope, initial), steps, key, budget, tokens)
    ensures var bound := budget - 1 + cfg.maxConcurrency * tokens;
      Used(Exec(Init(cfg, scope, initial), steps).usage, key)
        <= if Used(initial, key) > bound then Used(initial, key) else bound
  {
    hide RunWithin, M.Inv, Exec;
    var w := Init(cfg, scope, initial);
    M.InitInv(cfg);
    var bound := budget - 1 + cfg.maxConcurrency * tokens;
    var most := if Used(initial, key) > bound then Used(initial, key) else bound;
    assert Pending(w, key) == {};
    RunCharged(w, steps, key, budget, tokens, most);
    var end := Exec(w, steps);
    Scale(tokens, 0, |Pending(end, key)|);
  }
}
