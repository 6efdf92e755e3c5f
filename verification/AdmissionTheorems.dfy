/** What the invariant gives over whole runs: conservation, one grant per waiter,
    drain, and first-in first-out service. */
module AdmissionTheorems {
  import opened GoStrings
  import opened AdmissionSpec
  import opened AdmissionMachine

  /** In every reachable state the slots in use for a key are exactly the calls
      that hold one; they never exceed the limit; waiters exist only while the
      limit is reached; and an idle key is not stored. */
  lemma SlotConservation(cfg: Config, steps: seq<Step>, key: string)
    requires ValidConfig(cfg)
    ensures var s := Exec(Init(cfg), steps);
      var st := Lookup(s.table, key);
      && st.inflight == |Owners(s, key)| <= cfg.maxConcurrency
      && st.waiting == |st.waiters| <= cfg.maxQueue
      && (st.waiters != [] ==> |Owners(s, key)| == cfg.maxConcurrency)
      && (key in s.table <==> Owners(s, key) != {})
  {
    InitInv(cfg);
    RunInv(Init(cfg), steps);
    ConfigFixed(Init(cfg), steps);
    var s := Exec(Init(cfg), steps);
    assert Lookup(s.table, key).inflight == |Owners(s, key)|;
    if key in s.table {
      assert KeyOk(cfg, s.table[key]);
    }
  }

  lemma {:induction false} ConfigFixed(s: Sys, steps: seq<Step>)
    ensures Exec(s, steps).cfg == s.cfg
    decreases |steps|
  {
    if steps != [] {
      ConfigFixed(Apply(s, steps[0]), steps[1..]);
    }
  }

  /** A waiter's channel is closed at most once, and a closed one is in no queue;
      a queued one is in the queue of its own key only, once. */
  lemma OneGrantPerWaiter(cfg: Config, steps: seq<Step>, id: nat, k1: string, k2: string)
    requires ValidConfig(cfg)
    ensures var s := Exec(Init(cfg), steps);
      && s.closes[id] <= 1
      && (id in s.closes ==> !QueuedFor(s, id, k1))
      && (QueuedFor(s, id, k1) && QueuedFor(s, id, k2) ==> k1 == k2)
  {
    InitInv(cfg);
    RunInv(Init(cfg), steps);
  }

  /** A withdrawal that loses the race against a hand-off keeps the slot and goes
      on to return a handle. */
  lemma LostRaceKeepsSlot(s: Sys, id: nat, timeout: bool)
    requires Inv(s) && Enabled(s, Withdraw(id, timeout)) && id in s.closes
    ensures Apply(s, Withdraw(id, timeout)) == Move(s, id, Admitted)
    ensures id in Owners(s, s.calls[id].key)
  {
    var key := s.calls[id].key;
    assert !QueuedFor(s, id, key) by {
      assert !Queued(s, id);
    }
    assert RemoveWaiter(s.table, key, id) == (s.table, false);
  }

  /** A withdrawal that wins gives up its place and nothing else. */
  lemma WonRaceGivesUpPlace(s: Sys, id: nat, timeout: bool)
    requires Inv(s) && Enabled(s, Withdraw(id, timeout)) && id !in s.closes
    ensures var s' := Apply(s, Withdraw(id, timeout));
      && s'.calls[id].phase == Rejected(if timeout then TimedOut else Canceled)
      && !QueuedFor(s', id, s.calls[id].key)
      && forall k :: Owners(s', k) == Owners(s, k)
  {
    hide Position, Without, Keep;
    var key := s.calls[id].key;
    assert QueuedFor(s, id, key) by {
      assert Queued(s, id);
    }
    WithdrawnFromTable(s, id, key);
    MoveOwners(s, WithdrawStep(s, id, timeout), id, key);
  }

  // ------------------------------------------------------------------- outcomes

  /** What becomes of a call that starts: its trimmed key is refused if empty; below the
      limit it has a slot at once; at the limit it waits, unless as many wait already as
      may. */
  lemma BeginDecides(s: Sys, id: nat, rawKey: string, timed: bool)
    requires Inv(s) && id !in s.calls
    ensures var s' := Apply(s, Begin(id, rawKey, timed));
      var key := TrimSpace(rawKey);
      var owners, waiting := |Owners(s, key)|, |QueueOf(s, key)|;
      && id in s'.calls
      && s'.calls[id].phase ==
           (if key == "" then Rejected(InvalidKey)
            else if owners < s.cfg.maxConcurrency then Admitted
            else if waiting < s.cfg.maxQueue then Waiting
            else Rejected(Full))
  {
    var key := TrimSpace(rawKey);
    assert |Owners(s, key)| == Lookup(s.table, key).inflight;
    assert key in s.table ==> KeyOk(s.cfg, s.table[key]);
  }

  /** A waiter that has been granted its slot returns a handle, whether it is woken or
      has tried to withdraw. */
  lemma GrantedReturns(s: Sys, id: nat, timeout: bool)
    requires Inv(s) && InPhase(s, id, Waiting) && id in s.closes
    ensures Apply(Apply(s, Wake(id)), Return(id)) == Move(s, id, Live)
    ensures Enabled(s, Withdraw(id, timeout)) ==>
      Apply(Apply(s, Withdraw(id, timeout)), Return(id)) == Move(s, id, Live)
  {
    MoveTwice(s, id, Admitted, Live);
    if Enabled(s, Withdraw(id, timeout)) { LostRaceKeepsSlot(s, id, timeout); }
  }

  lemma MoveTwice(s: Sys, id: nat, p: Phase, q: Phase)
    requires id in s.calls
    ensures Move(Move(s, id, p), id, q) == Move(s, id, q)
  {
    assert s.calls[id := s.calls[id].(phase := p)][id := s.calls[id].(phase := q)]
        == s.calls[id := s.calls[id].(phase := q)];
  }

  /** The call starts, if it does, with a positive `maxWait` exactly as `timed` says. */
  predicate BegunAs(steps: seq<Step>, id: nat, timed: bool) {
    forall i :: 0 <= i < |steps| && steps[i].Begin? && steps[i].id == id ==> steps[i].timed == timed
  }

  lemma StepTimed(s: Sys, step: Step, id: nat, timed: bool)
    requires step.Begin? && step.id == id ==> step.timed == timed
    requires id in s.calls ==> s.calls[id].timed == timed && (s.calls[id].phase == Rejected(TimedOut) ==> timed)
    ensures var s' := Apply(s, step);
      id in s'.calls ==> s'.calls[id].timed == timed && (s'.calls[id].phase == Rejected(TimedOut) ==> timed)
  {
  }

  lemma {:induction false} RunTimed(s: Sys, steps: seq<Step>, id: nat, timed: bool)
    requires BegunAs(steps, id, timed)
    requires id in s.calls ==> s.calls[id].timed == timed && (s.calls[id].phase == Rejected(TimedOut) ==> timed)
    ensures var s' := Exec(s, steps);
      id in s'.calls ==> s'.calls[id].timed == timed && (s'.calls[id].phase == Rejected(TimedOut) ==> timed)
    decreases |steps|
  {
    hide Apply;
    if steps != [] {
      StepTimed(s, steps[0], id, timed);
      RunTimed(Apply(s, steps[0]), steps[1..], id, timed);
    }
  }

  /** Without a positive `maxWait` no call ever times out. */
  lemma UntimedNeverTimesOut(cfg: Config, steps: seq<Step>, id: nat)
    requires BegunAs(steps, id, false)
    ensures !InPhase(Exec(Init(cfg), steps), id, Rejected(TimedOut))
  {
    RunTimed(Init(cfg), steps, id, false);
  }

  /** A waiter that has not been granted a slot can always be canceled and, with a
      positive `maxWait`, can always time out. */
  lemma WithdrawalSucceeds(cfg: Config, steps: seq<Step>, id: nat, timed: bool)
    requires ValidConfig(cfg) && BegunAs(steps, id, timed)
    ensures var s := Exec(Init(cfg), steps);
      InPhase(s, id, Waiting) && id !in s.closes ==>
        && InPhase(Apply(s, Withdraw(id, false)), id, Rejected(Canceled))
        && InPhase(Apply(s, Withdraw(id, true)), id, if timed then Rejected(TimedOut) else Waiting)
  {
    hide Apply;
    InitInv(cfg);
    RunInv(Init(cfg), steps);
    RunTimed(Init(cfg), steps, id, timed);
    var s := Exec(Init(cfg), steps);
    if InPhase(s, id, Waiting) && id !in s.closes {
      WithdrawnFrom(s, id, false);
      if timed { WithdrawnFrom(s, id, true); } else { NoTimer(s, id); }
    }
  }

  lemma WithdrawnFrom(s: Sys, id: nat, timeout: bool)
    requires Inv(s) && InPhase(s, id, Waiting) && id !in s.closes && (timeout ==> s.calls[id].timed)
    ensures InPhase(Apply(s, Withdraw(id, timeout)), id, Rejected(if timeout then TimedOut else Canceled))
  {
    WonRaceGivesUpPlace(s, id, timeout);
    KeyFixed(s, Withdraw(id, timeout), id);
  }

  lemma NoTimer(s: Sys, id: nat)
    requires InPhase(s, id, Waiting) && !s.calls[id].timed
    ensures InPhase(Apply(s, Withdraw(id, true)), id, Waiting)
  {
  }

  /** How many steps of a run release a slot through this handle. */
  ghost function Freed(s: Sys, steps: seq<Step>, id: nat): nat
    decreases |steps|
  {
    if steps == [] then 0
    else (if steps[0] == ReleaseHandle(id) && InPhase(s, id, Live) then 1 else 0) + Freed(Apply(s, steps[0]), steps[1..], id)
  }

  lemma {:induction false} ReleasedFreesNothing(s: Sys, steps: seq<Step>, id: nat)
    requires InPhase(s, id, Released)
    ensures Freed(s, steps, id) == 0
    decreases |steps|
  {
    if steps != [] {
      ReleasedFreesNothing(Apply(s, steps[0]), steps[1..], id);
    }
  }

  /** However often and whenever `Release` is called on a handle, it frees one slot. */
  lemma {:induction false} HandleFreesOnce(s: Sys, steps: seq<Step>, id: nat)
    ensures Freed(s, steps, id) <= 1
    decreases |steps|
  {
    if steps != [] {
      if steps[0] == ReleaseHandle(id) && InPhase(s, id, Live) {
        ReleasedFreesNothing(Apply(s, steps[0]), steps[1..], id);
      } else {
        HandleFreesOnce(Apply(s, steps[0]), steps[1..], id);
      }
    }
  }

  /** A call that may yet withdraw or release finds its key in the map, so neither
      function ever takes its exit for a missing one. */
  lemma KeyIsPresent(cfg: Config, steps: seq<Step>, id: nat)
    requires ValidConfig(cfg)
    ensures var s := Exec(Init(cfg), steps);
      InPhase(s, id, Waiting) || InPhase(s, id, Live) ==> s.calls[id].key in s.table
  {
    hide Apply;
    InitInv(cfg);
    RunInv(Init(cfg), steps);
    var s := Exec(Init(cfg), steps);
    if InPhase(s, id, Waiting) || InPhase(s, id, Live) {
      var key := s.calls[id].key;
      if Queued(s, id) {
        assert QueuedFor(s, id, key);
      } else {
        assert id in Owners(s, key);
        assert |Owners(s, key)| == Lookup(s.table, key).inflight;
      }
    }
  }

  ghost predicate Finished(s: Sys) {
    forall id :: id in s.calls ==> s.calls[id].phase == Released || s.calls[id].phase.Rejected?
  }

  /** Once every acquire has returned and every handle is released, nothing is left. */
  lemma Drains(cfg: Config, steps: seq<Step>)
    requires ValidConfig(cfg)
    requires Finished(Exec(Init(cfg), steps))
    ensures Exec(Init(cfg), steps).table == map[]
  {
    var s := Exec(Init(cfg), steps);
    forall key ensures key !in s.table {
      SlotConservation(cfg, steps, key);
      assert Owners(s, key) == {};
    }
  }

  // ------------------------------------------------------------------- order

  /** How many waiters of the same key are ahead of a queued call. */
  ghost function Rank(s: Sys, id: nat): nat
    requires id in s.calls
  {
    Position(Lookup(s.table, s.calls[id].key).waiters, id)
  }

  /** The step frees a slot of this key. */
  ghost predicate Frees(s: Sys, step: Step, key: string) {
    step.ReleaseHandle? && InPhase(s, step.id, Live) && s.calls[step.id].key == key
  }

  /** What one step does to one key's queue. */
  datatype Effect = Same | Added(id: nat) | Removed(at: nat)

  ghost function Changed(ws: seq<nat>, e: Effect): seq<nat>
    requires e.Removed? ==> e.at < |ws|
  {
    match e
    case Same => ws
    case Added(id) => ws + [id]
    case Removed(i) => Without(ws, i)
  }

  ghost function QueueOf(s: Sys, key: string): seq<nat> {
    Lookup(s.table, key).waiters
  }

  lemma PositionUnique<W>(s: seq<W>, i: nat)
    requires i < |s| && Distinct(s)
    ensures Position(s, s[i]) == i
  {
    var p := Position(s, s[i]);
    assert s[i] in s;
  }

  /** What stands where after a removal. */
  lemma WithoutAt<W>(ws: seq<W>, i: nat, k: nat)
    requires i < |ws| && k < |ws| - 1
    ensures |Without(ws, i)| == |ws| - 1 && Without(ws, i)[k] == ws[if k < i then k else k + 1]
  {
  }

  lemma RemovedIsGone<W>(ws: seq<W>, i: nat)
    requires Distinct(ws) && i < |ws|
    ensures ws[i] !in Without(ws, i)
  {
    var r := Without(ws, i);
    forall k | 0 <= k < |r| ensures r[k] != ws[i] {
      WithoutAt(ws, i, k);
    }
  }

  lemma RemovedPosition<W>(ws: seq<W>, i: nat, w: W)
    requires Distinct(ws) && w in ws && i < |ws|
    ensures ws[i] == w ==> w !in Without(ws, i)
    ensures ws[i] != w ==>
      && w in Without(ws, i)
      && Position(Without(ws, i), w) == Position(ws, w) - (if i < Position(ws, w) then 1 else 0)
  {
    hide Position, Distinct, Without;
    RemovedIsGone(ws, i);
    if ws[i] != w {
      var p := Position(ws, w);
      var q := if p < i then p else p - 1;
      WithoutAt(ws, i, q);
      RemovalDistinct(ws, i);
      PositionUnique(Without(ws, i), q);
    }
  }

  lemma AddedPosition<W>(ws: seq<W>, b: W, w: W)
    requires Distinct(ws) && w in ws && b !in ws
    ensures Position(ws + [b], w) == Position(ws, w)
  {
    var r := ws + [b];
    assert Distinct(r);
    assert r[Position(ws, w)] == w;
    PositionUnique(r, Position(ws, w));
  }

  /** A queue keeps its order; a removal moves those behind it up by one. */
  lemma ChangedPosition(ws: seq<nat>, e: Effect, w: nat)
    requires Distinct(ws) && w in ws
    requires e.Added? ==> e.id !in ws
    requires e.Removed? ==> e.at < |ws|
    ensures w in Changed(ws, e) <==> !(e.Removed? && ws[e.at] == w)
    ensures w in Changed(ws, e) ==>
      Position(Changed(ws, e), w) == Position(ws, w) - (if e.Removed? && e.at < Position(ws, w) then 1 else 0)
  {
    match e
    case Same =>
    case Added(b) => AddedPosition(ws, b, w);
    case Removed(i) => RemovedPosition(ws, i, w);
  }

  /** Only a newcomer is added, at the back; only the withdrawing call or, by a
      release, the head is removed. */
  lemma QueueEffect(s: Sys, step: Step, key: string) returns (e: Effect)
    requires Inv(s)
    ensures Distinct(QueueOf(s, key))
    ensures e.Removed? ==> e.at < |QueueOf(s, key)|
    ensures QueueOf(Apply(s, step), key) == Changed(QueueOf(s, key), e)
    ensures e.Added? ==> step.Begin? && step.id == e.id && e.id !in s.calls && e.id !in QueueOf(s, key)
    ensures Frees(s, step, key) ==> if QueueOf(s, key) == [] then e == Same else e == Removed(0)
    ensures e.Removed? && !Frees(s, step, key) ==> step.Withdraw? && step.id == QueueOf(s, key)[e.at]
  {
    var ws := QueueOf(s, key);
    assert key in s.table ==> KeyOk(s.cfg, s.table[key]);
    e := Same;
    if Enabled(s, step) {
      match step
      case Begin(b, rawKey, timed) =>
        assert !QueuedFor(s, b, key);
        EnterQueue(s.cfg, s.table, TrimSpace(rawKey), b, key);
        if QueueOf(Apply(s, step), key) != ws { e := Added(b); }
      case Withdraw(b, _) =>
        RemoveQueue(s.cfg, s.table, s.calls[b].key, b, key);
        if s.calls[b].key == key && b in ws { e := Removed(Position(ws, b)); }
      case ReleaseHandle(b) =>
        if s.calls[b].phase == Live {
          ReleaseQueue(s.cfg, s.table, s.calls[b].key, key);
        }
        if Frees(s, step, key) && ws != [] {
          e := Removed(0);
          assert Without(ws, 0) == ws[1..];
        }
      case Wake(b) =>
      case Return(b) =>
    }
  }

  lemma QueuedHere(s: Sys, id: nat)
    requires Inv(s)
    ensures Queued(s, id) ==> id in QueueOf(s, s.calls[id].key)
    ensures forall k :: id in QueueOf(s, k) ==> Queued(s, id) && s.calls[id].key == k
  {
    assert Queued(s, id) ==> QueuedFor(s, id, s.calls[id].key);
    assert forall k :: id in QueueOf(s, k) ==> QueuedFor(s, id, k);
  }

  /** A call keeps its key and is never forgotten. */
  lemma KeyFixed(s: Sys, step: Step, id: nat)
    requires id in s.calls
    ensures id in Apply(s, step).calls && Apply(s, step).calls[id].key == s.calls[id].key
    ensures s.calls[id].phase != Waiting ==> Apply(s, step).calls[id].phase != Waiting
    ensures s.calls[id].phase.Rejected? ==> Apply(s, step).calls[id] == s.calls[id]
    ensures s.closes <= Apply(s, step).closes
  {
  }

  /** A waiter leaves its queue only by its own withdrawal or by being granted at
      the head; until then its rank never rises and drops with every release. */
  lemma StepRank(s: Sys, step: Step, id: nat)
    requires Inv(s) && Queued(s, id)
    ensures var s' := Apply(s, step);
      var key := s.calls[id].key;
      && id in s'.calls && s'.calls[id].key == key
      && (Queued(s', id) ==>
            Rank(s', id) <= Rank(s, id) - (if Frees(s, step, key) then 1 else 0))
      && (!Queued(s', id) ==>
            || (step.Withdraw? && step.id == id && s'.calls[id].phase.Rejected?)
            || (Frees(s, step, key) && Rank(s, id) == 0 && id in s'.closes))
  {
    var key := s.calls[id].key;
    var e := QueueEffect(s, step, key);
    QueuedHere(s, id);
    KeyFixed(s, step, id);
    ChangedPosition(QueueOf(s, key), e, id);
    StepInv(s, step);
    QueuedHere(Apply(s, step), id);
    if e.Removed? && QueueOf(s, key)[e.at] == id {
      if Frees(s, step, key) {
        HeadIsGranted(s, step, key);
        PositionUnique(QueueOf(s, key), 0);
      } else if Enabled(s, step) {
        WonRaceGivesUpPlace(s, id, step.timeout);
      }
    }
  }

  lemma HeadIsGranted(s: Sys, step: Step, key: string)
    requires Inv(s) && Frees(s, step, key) && QueueOf(s, key) != []
    ensures QueueOf(s, key)[0] in Apply(s, step).closes
  {
  }

  /** How many steps of a run free a slot of this key. */
  ghost function Releases(s: Sys, steps: seq<Step>, key: string): nat
    decreases |steps|
  {
    if steps == [] then 0
    else (if Frees(s, steps[0], key) then 1 else 0) + Releases(Apply(s, steps[0]), steps[1..], key)
  }

  lemma {:induction false} GrantedStays(s: Sys, steps: seq<Step>, id: nat)
    requires id in s.closes
    ensures id in Exec(s, steps).closes
    decreases |steps|
  {
    if steps != [] {
      GrantedStays(Apply(s, steps[0]), steps[1..], id);
    }
  }

  /** A waiter that does not withdraw has been granted after as many releases on
      its key as there were waiters ahead of it, plus one. */
  lemma {:induction false} GrantedWithinRank(s: Sys, steps: seq<Step>, id: nat)
    requires Inv(s) && Queued(s, id)
    requires forall i :: 0 <= i < |steps| ==> !(steps[i].Withdraw? && steps[i].id == id)
    requires Releases(s, steps, s.calls[id].key) >= Rank(s, id) + 1
    ensures id in Exec(s, steps).closes
    decreases |steps|
  {
    var s' := Apply(s, steps[0]);
    StepInv(s, steps[0]);
    StepRank(s, steps[0], id);
    if Queued(s', id) {
      GrantedWithinRank(s', steps[1..], id);
    } else {
      GrantedStays(s', steps[1..], id);
    }
  }

  /** `b` has no claim on the key that comes before `a`'s. */
  ghost predicate Behind(s: Sys, a: nat, b: nat)
    requires a in s.calls
  {
    b in s.calls && s.calls[b].key == s.calls[a].key ==>
      s.calls[b].phase.Rejected? || (Queued(s, b) && Rank(s, a) < Rank(s, b))
  }

  lemma StepBehind(s: Sys, step: Step, a: nat, b: nat)
    requires Inv(s) && Queued(s, a) && a != b && Behind(s, a, b)
    requires Queued(Apply(s, step), a)
    ensures a in Apply(s, step).calls && Behind(Apply(s, step), a, b)
  {
    var s' := Apply(s, step);
    var key := s.calls[a].key;
    var e := QueueEffect(s, step, key);
    KeyFixed(s, step, a);
    QueuedHere(s, a);
    ChangedPosition(QueueOf(s, key), e, a);
    QueuedHere(s, b);
    StepInv(s, step);
    QueuedHere(s', a);
    QueuedHere(s', b);
    if b in s.calls {
      KeyFixed(s, step, b);
      if Queued(s, b) && s.calls[b].key == key {
        ChangedPosition(QueueOf(s, key), e, b);
        StepRank(s, step, b);
      }
    } else if b in s'.calls && s'.calls[b].key == key {
      NewcomerGoesBehind(s, step, a, b);
      ChangedPosition(QueueOf(s, key), e, a);
    }
  }

  /** A call that starts while `a` waits for its key does not get a slot at once. */
  lemma NewcomerGoesBehind(s: Sys, step: Step, a: nat, b: nat)
    requires Inv(s) && Queued(s, a) && b !in s.calls && b in Apply(s, step).calls
    requires Apply(s, step).calls[b].key == s.calls[a].key
    ensures var s' := Apply(s, step);
      || s'.calls[b].phase.Rejected?
      || (Queued(s', b) && QueueOf(s', s.calls[a].key) == QueueOf(s, s.calls[a].key) + [b])
  {
    QueuedHere(s, a);
    assert step.Begin? && step.id == b;
    EnterKeepsTable(s.cfg, s.table, TrimSpace(step.rawKey), b) by {
      QueuedHere(s, b);
    }
  }

  /** A call that has stopped waiting never waits again. */
  lemma {:induction false} NotQueuedStays(s: Sys, steps: seq<Step>, id: nat)
    requires id in s.calls && !Queued(s, id)
    ensures !Queued(Exec(s, steps), id)
    decreases |steps|
  {
    if steps != [] {
      KeyFixed(s, steps[0], id);
      NotQueuedStays(Apply(s, steps[0]), steps[1..], id);
    }
  }

  /** No overtaking: as long as `a` still waits, no call that started later, and
      none that was queued behind it, has been given a slot of that key. */
  lemma {:induction false} NoOvertaking(s: Sys, steps: seq<Step>, a: nat, b: nat)
    requires Inv(s) && Queued(s, a) && a != b && Behind(s, a, b)
    requires Queued(Exec(s, steps), a)
    ensures Behind(Exec(s, steps), a, b)
    ensures b !in Owners(Exec(s, steps), s.calls[a].key)
    decreases |steps|
  {
    if steps != [] {
      var s' := Apply(s, steps[0]);
      StepInv(s, steps[0]);
      StepRank(s, steps[0], a);
      if Queued(s', a) {
        StepBehind(s, steps[0], a, b);
        NoOvertaking(s', steps[1..], a, b);
      } else {
        NotQueuedStays(s', steps[1..], a);
      }
    }
  }
}
