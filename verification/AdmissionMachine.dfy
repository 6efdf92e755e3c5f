/** All interleavings of acquires, wake-ups, withdrawals and releases. A step is
    one locked section, or one move between locked sections, of one call of
    `Acquire` or `Release`. */
module AdmissionMachine {
  import opened GoStrings
  import opened AdmissionSpec

  datatype Reason = InvalidKey | Full | Canceled | TimedOut

  /** Where one call of `Acquire`, and the handle it returns, has got to. */
  datatype Phase =
    | Waiting                  // queued, blocked in the select
    | Admitted                 // owns a slot, has not returned yet
    | Live                     // returned a handle that is not released
    | Released
    | Rejected(reason: Reason)

  /** `timed` is `maxWait > 0`: without it no timer exists. */
  datatype Call = Call(key: string, timed: bool, phase: Phase)

  /** `closes` counts how often each waiter's channel has been closed. */
  datatype Sys = Sys(cfg: Config, table: Table<nat>, calls: map<nat, Call>, closes: multiset<nat>)

  datatype Step =
    | Begin(id: nat, rawKey: string, timed: bool)
    | Wake(id: nat)
    | Withdraw(id: nat, timeout: bool)
    | Return(id: nat)
    | ReleaseHandle(id: nat)

  function Init(cfg: Config): Sys {
    Sys(cfg, map[], map[], multiset{})
  }

  predicate InPhase(s: Sys, id: nat, p: Phase) {
    id in s.calls && s.calls[id].phase == p
  }

  predicate Enabled(s: Sys, step: Step) {
    match step
    case Begin(id, _, _) => id !in s.calls
    case Wake(id) => InPhase(s, id, Waiting) && id in s.closes
    case Withdraw(id, timeout) => InPhase(s, id, Waiting) && (timeout ==> s.calls[id].timed)
    case Return(id) => InPhase(s, id, Admitted)
    case ReleaseHandle(id) => InPhase(s, id, Live) || InPhase(s, id, Released)
  }

  function Move(s: Sys, id: nat, p: Phase): Sys
    requires id in s.calls
  {
    s.(calls := s.calls[id := s.calls[id].(phase := p)])
  }

  function BeginStep(s: Sys, id: nat, rawKey: string, timed: bool): Sys {
    var key := TrimSpace(rawKey);
    if key == "" then s.(calls := s.calls[id := Call(key, timed, Rejected(InvalidKey))])
    else
      var (table, entered) := Enter(s.cfg, s.table, key, [id]);
      var phase := match entered
        case Acquired => Admitted
        case QueueFull => Rejected(Full)
        case Enqueued => Waiting;
      s.(table := table, calls := s.calls[id := Call(key, timed, phase)])
  }

  function WithdrawStep(s: Sys, id: nat, timeout: bool): Sys
    requires id in s.calls
  {
    var (table, removed) := RemoveWaiter(s.table, s.calls[id].key, id);
    Move(s.(table := table), id,
         if !removed then Admitted
         else Rejected(if timeout then TimedOut else Canceled))
  }

  /** The handle's once guard lets only the first call through to `release`. */
  function ReleaseStep(s: Sys, id: nat): Sys
    requires id in s.calls
  {
    if s.calls[id].phase != Live then s
    else
      var (table, granted) := Release(s.table, s.calls[id].key);
      Move(s.(table := table,
              closes := if granted.Some? then s.closes + multiset{granted.value} else s.closes),
           id, Released)
  }

  /** A step that is not enabled changes nothing, so every list of steps is a run. */
  function Apply(s: Sys, step: Step): Sys {
    if !Enabled(s, step) then s
    else
      match step
      case Begin(id, rawKey, timed) => BeginStep(s, id, rawKey, timed)
      case Wake(id) => Move(s, id, Admitted)
      case Withdraw(id, timeout) => WithdrawStep(s, id, timeout)
      case Return(id) => Move(s, id, Live)
      case ReleaseHandle(id) => ReleaseStep(s, id)
  }

  function Exec(s: Sys, steps: seq<Step>): Sys
    decreases |steps|
  {
    if steps == [] then s else Exec(Apply(s, steps[0]), steps[1..])
  }

  // ---------------------------------------------------------------- ownership

  /** The call holds one slot of its key: it has a live handle, or it was given
      the slot and has not returned yet. */
  ghost predicate Owns(s: Sys, id: nat) {
    && id in s.calls
    && var p := s.calls[id].phase;
      p == Admitted || p == Live || (p == Waiting && id in s.closes)
  }

  ghost function Owners(s: Sys, key: string): set<nat> {
    set id | id in s.calls && s.calls[id].key == key && Owns(s, id)
  }

  ghost predicate QueuedFor(s: Sys, id: nat, key: string) {
    id in Lookup(s.table, key).waiters
  }

  ghost predicate Queued(s: Sys, id: nat) {
    InPhase(s, id, Waiting) && id !in s.closes
  }

  ghost predicate QueueOk(s: Sys) {
    && (forall k, id :: QueuedFor(s, id, k) ==> Queued(s, id) && s.calls[id].key == k)
    && (forall id :: Queued(s, id) ==> QueuedFor(s, id, s.calls[id].key))
  }

  ghost predicate ClosesOk(s: Sys) {
    forall id :: id in s.closes ==>
      s.closes[id] == 1 && id in s.calls && !s.calls[id].phase.Rejected?
  }

  /** Slot conservation, key by key. */
  ghost predicate Conserved(s: Sys) {
    forall k :: |Owners(s, k)| == Lookup(s.table, k).inflight
  }

  ghost predicate Inv(s: Sys) {
    && ValidConfig(s.cfg)
    && TableOk(s.cfg, s.table)
    && QueueOk(s)
    && ClosesOk(s)
    && Conserved(s)
  }

  lemma InitInv(cfg: Config)
    requires ValidConfig(cfg)
    ensures Inv(Init(cfg))
  {
    forall k ensures Owners(Init(cfg), k) == {} {
    }
  }

  /** Only the moved call can gain or lose a slot, and it keeps its key. */
  lemma MoveOwners(s: Sys, s': Sys, id: nat, key: string)
    requires id in s'.calls && s'.calls[id].key == key
    requires id in s.calls ==> s.calls[id].key == key
    requires forall j :: j != id ==> (j in s.calls <==> j in s'.calls)
    requires forall j :: j != id && j in s.calls ==> s.calls[j] == s'.calls[j] && (j in s.closes <==> j in s'.closes)
    ensures forall k :: k != key ==> Owners(s', k) == Owners(s, k)
    ensures Owners(s', key) == if Owns(s', id) then Owners(s, key) + {id} else Owners(s, key) - {id}
  {
  }

  /** When only `id` changes, and only in `key`'s queue, the queue facts carry over. */
  lemma QueueFrame(s: Sys, s': Sys, id: nat, key: string)
    requires QueueOk(s)
    requires id in s'.calls && s'.calls[id].key == key
    requires forall j :: j != id ==> (j in s.calls <==> j in s'.calls)
    requires forall j :: j != id && j in s.calls ==> s.calls[j] == s'.calls[j] && (j in s.closes <==> j in s'.closes)
    requires forall k :: k != key ==> Lookup(s'.table, k).waiters == Lookup(s.table, k).waiters
    requires forall j :: j != id ==> (QueuedFor(s', j, key) <==> QueuedFor(s, j, key))
    requires forall k :: k != key ==> !QueuedFor(s, id, k)
    requires QueuedFor(s', id, key) <==> Queued(s', id)
    ensures QueueOk(s')
  {
    forall k, j | QueuedFor(s', j, k) ensures Queued(s', j) && s'.calls[j].key == k {
      if k != key { assert QueuedFor(s, j, k); }
      if j != id { assert QueuedFor(s, j, k); }
    }
    forall j | Queued(s', j) ensures QueuedFor(s', j, s'.calls[j].key) {
      if j != id { assert Queued(s, j); assert QueuedFor(s, j, s.calls[j].key); }
    }
  }

  lemma OneCallQueue(s: Sys, s': Sys, id: nat, key: string)
    requires QueueOk(s) && s'.closes == s.closes
    requires id in s'.calls && s'.calls[id].key == key
    requires id in s.calls ==> s.calls[id].key == key
    requires s'.calls == s.calls[id := s'.calls[id]]
    requires forall k :: k != key ==> Lookup(s'.table, k) == Lookup(s.table, k)
    requires forall j :: j != id ==> (QueuedFor(s', j, key) <==> QueuedFor(s, j, key))
    requires QueuedFor(s', id, key) <==> Queued(s', id)
    ensures QueueOk(s')
  {
    assert forall k :: QueuedFor(s, id, k) ==> Queued(s, id);
    QueueFrame(s, s', id, key);
  }

  lemma OneCallOwners(s: Sys, s': Sys, id: nat, key: string)
    requires Conserved(s) && s'.closes == s.closes
    requires id in s'.calls && s'.calls[id].key == key
    requires id in s.calls ==> s.calls[id].key == key
    requires s'.calls == s.calls[id := s'.calls[id]]
    requires forall k :: k != key ==> Lookup(s'.table, k) == Lookup(s.table, k)
    requires Lookup(s'.table, key).inflight - Lookup(s.table, key).inflight
          == (if Owns(s', id) then 1 else 0) - (if Owns(s, id) then 1 else 0)
    ensures Conserved(s')
  {
    MoveOwners(s, s', id, key);
    forall k ensures |Owners(s', k)| == Lookup(s'.table, k).inflight {
      assert |Owners(s, k)| == Lookup(s.table, k).inflight;
    }
  }

  /** One call moves and its key's counter changes by what the call gained or lost. */
  lemma OneCallMoves(s: Sys, s': Sys, id: nat, key: string)
    requires Inv(s) && s'.cfg == s.cfg && s'.closes == s.closes
    requires id in s'.calls && s'.calls[id].key == key
    requires id in s.calls ==> s.calls[id].key == key
    requires s'.calls == s.calls[id := s'.calls[id]]
    requires TableOk(s.cfg, s'.table)
    requires forall k :: k != key ==> Lookup(s'.table, k) == Lookup(s.table, k)
    requires forall j :: j != id ==> (QueuedFor(s', j, key) <==> QueuedFor(s, j, key))
    requires QueuedFor(s', id, key) <==> Queued(s', id)
    requires Lookup(s'.table, key).inflight - Lookup(s.table, key).inflight
          == (if Owns(s', id) then 1 else 0) - (if Owns(s, id) then 1 else 0)
    requires id in s.closes ==> !s'.calls[id].phase.Rejected?
    ensures Inv(s')
  {
    OneCallQueue(s, s', id, key);
    OneCallOwners(s, s', id, key);
  }

  lemma BeginInv(s: Sys, id: nat, rawKey: string, timed: bool)
    requires Inv(s) && id !in s.calls
    ensures Inv(BeginStep(s, id, rawKey, timed))
  {
    var s' := BeginStep(s, id, rawKey, timed);
    var key := TrimSpace(rawKey);
    assert !Queued(s, id) && !QueuedFor(s, id, key);
    if key != "" {
      EnterKeepsTable(s.cfg, s.table, key, id);
    }
    OneCallMoves(s, s', id, key);
  }

  lemma WithdrawnFromTable(s: Sys, id: nat, key: string)
    requires ValidConfig(s.cfg) && TableOk(s.cfg, s.table)
    ensures var (t, removed) := RemoveWaiter(s.table, key, id);
      && TableOk(s.cfg, t)
      && (removed <==> id in Lookup(s.table, key).waiters)
      && id !in Lookup(t, key).waiters
      && Lookup(t, key).inflight == Lookup(s.table, key).inflight
      && (forall k :: k != key ==> Lookup(t, k) == Lookup(s.table, k))
      && (forall j :: j != id ==> (j in Lookup(t, key).waiters <==> j in Lookup(s.table, key).waiters))
  {
    if key in s.table {
      DefensiveBranchesUnreachable(s.cfg, s.table, key, id);
      var ws := s.table[key].waiters;
      var i := Position(ws, id);
      if i < |ws| {
        assert ws == ws[..i] + [id] + ws[i + 1..];
        assert forall j :: i < j < |ws| ==> ws[j] != ws[i];
      }
    }
  }

  lemma WithdrawInv(s: Sys, id: nat, timeout: bool)
    requires Inv(s) && InPhase(s, id, Waiting)
    ensures Inv(WithdrawStep(s, id, timeout))
  {
    var s' := WithdrawStep(s, id, timeout);
    var key := s.calls[id].key;
    WithdrawnFromTable(s, id, key);
    assert Queued(s, id) <==> QueuedFor(s, id, key);
    assert forall j :: j != id ==> (QueuedFor(s', j, key) <==> QueuedFor(s, j, key));
    OneCallMoves(s, s', id, key);
  }

  /** The state in which the freed slot has gone to the head of the queue but the
      releasing call is still counted. */
  function HandedOff(s: Sys, key: string): Sys
    requires key in s.table && s.table[key].waiters != []
  {
    s.(table := Release(s.table, key).0, closes := s.closes + multiset{s.table[key].waiters[0]})
  }

  lemma HandedOffTable(s: Sys, key: string)
    requires ValidConfig(s.cfg) && TableOk(s.cfg, s.table)
    requires key in s.table && s.table[key].waiters != []
    ensures var st := s.table[key];
      var t := HandedOff(s, key).table;
      && TableOk(s.cfg, t)
      && Lookup(t, key).inflight == st.inflight
      && Lookup(t, key).waiters == st.waiters[1..]
      && st.waiters[0] !in st.waiters[1..]
      && (forall k :: k != key ==> Lookup(t, k) == Lookup(s.table, k))
  {
    DefensiveBranchesUnreachable(s.cfg, s.table, key, s.table[key].waiters[0]);
  }

  lemma HandedOffQueue(s: Sys, key: string)
    requires Inv(s) && key in s.table && s.table[key].waiters != []
    ensures var w := s.table[key].waiters[0];
      && Queued(s, w) && s.calls[w].key == key
      && QueueOk(HandedOff(s, key)) && ClosesOk(HandedOff(s, key))
  {
    var ws := s.table[key].waiters;
    assert QueuedFor(s, ws[0], key);
    HandedOffTable(s, key);
    assert ws == [ws[0]] + ws[1..];
    QueueFrame(s, HandedOff(s, key), ws[0], key);
  }

  lemma HandOffReleaseQueue(s: Sys, id: nat)
    requires Inv(s) && InPhase(s, id, Live)
    requires Lookup(s.table, s.calls[id].key).waiters != []
    ensures var s' := ReleaseStep(s, id);
      QueueOk(s') && ClosesOk(s') && TableOk(s.cfg, s'.table)
  {
    var key := s.calls[id].key;
    HandedOffQueue(s, key);
    HandedOffTable(s, key);
    var mid := HandedOff(s, key);
    assert forall k :: !QueuedFor(mid, id, k) by {
      assert !Queued(mid, id);
    }
    QueueFrame(mid, ReleaseStep(s, id), id, key);
  }

  /** The head of the queue comes to own the slot that the releasing call gives up. */
  lemma SlotPasses(s: Sys, mid: Sys, s': Sys, w: nat, id: nat, key: string)
    requires Conserved(s)
    requires id in s.calls && w in s.calls && s.calls[id].key == s.calls[w].key == key
    requires Owns(s, id) && !Owns(s, w)
    requires mid.calls == s.calls && mid.closes == s.closes + multiset{w} && Owns(mid, w)
    requires id in s'.calls && s'.calls[id].key == key
    requires s'.calls == s.calls[id := s'.calls[id]] && s'.closes == mid.closes
    requires !Owns(s', id)
    requires forall k :: Lookup(s'.table, k).inflight == Lookup(s.table, k).inflight
    ensures Conserved(s')
  {
    MoveOwners(s, mid, w, key);
    MoveOwners(mid, s', id, key);
    SwapOne(Owners(s, key), Owners(s', key), id, w);
    forall k ensures |Owners(s', k)| == Lookup(s'.table, k).inflight {
      assert |Owners(s, k)| == Lookup(s.table, k).inflight;
    }
  }

  lemma HandOffReleaseOwners(s: Sys, id: nat)
    requires Inv(s) && InPhase(s, id, Live)
    requires Lookup(s.table, s.calls[id].key).waiters != []
    ensures Conserved(ReleaseStep(s, id))
  {
    var key := s.calls[id].key;
    var w := s.table[key].waiters[0];
    HandedOffTable(s, key);
    assert Queued(s, w) && s.calls[w].key == key by {
      HandedOffQueue(s, key);
    }
    SlotPasses(s, HandedOff(s, key), ReleaseStep(s, id), w, id, key);
  }

  lemma SwapOne<T>(a: set<T>, b: set<T>, gone: T, come: T)
    requires gone in a && come !in a && b == a + {come} - {gone}
    ensures |b| == |a|
  {
    assert b == a - {gone} + {come};
  }

  lemma ReleaseInv(s: Sys, id: nat)
    requires Inv(s) && (InPhase(s, id, Live) || InPhase(s, id, Released))
    ensures Inv(ReleaseStep(s, id))
  {
    if s.calls[id].phase == Live {
      var key := s.calls[id].key;
      assert id in Owners(s, key);
      assert key in s.table;
      if s.table[key].waiters == [] {
        assert !Queued(s, id);
        assert !QueuedFor(s, id, key);
        DefensiveBranchesUnreachable(s.cfg, s.table, key, id);
        OneCallMoves(s, ReleaseStep(s, id), id, key);
      } else {
        HandOffReleaseQueue(s, id);
        HandOffReleaseOwners(s, id);
      }
    }
  }

  /** Every step keeps the invariant. */
  lemma StepInv(s: Sys, step: Step)
    requires Inv(s)
    ensures Inv(Apply(s, step))
  {
    if Enabled(s, step) {
      match step
      case Begin(id, rawKey, timed) => BeginInv(s, id, rawKey, timed);
      case Wake(id) =>
        assert !Queued(s, id) && !QueuedFor(s, id, s.calls[id].key);
        OneCallMoves(s, Move(s, id, Admitted), id, s.calls[id].key);
      case Withdraw(id, timeout) => WithdrawInv(s, id, timeout);
      case Return(id) =>
        assert !Queued(s, id) && !QueuedFor(s, id, s.calls[id].key);
        OneCallMoves(s, Move(s, id, Live), id, s.calls[id].key);
      case ReleaseHandle(id) => ReleaseInv(s, id);
    }
  }

  lemma {:induction false} RunInv(s: Sys, steps: seq<Step>)
    requires Inv(s)
    ensures Inv(Exec(s, steps))
    decreases |steps|
  {
    if steps != [] {
      StepInv(s, steps[0]);
      RunInv(Apply(s, steps[0]), steps[1..]);
    }
  }
}
