/** The controller as the program builds it: a mutable map of per-key records,
    each with its waiters in a slice over a shared backing array. Every locked
    section is proved to compute the function that the machine takes as a step. */
module AdmissionController {
  import opened GoStrings
  import opened AdmissionSpec

  /** A channel on which nothing is sent; closing it wakes its one waiter. */
  class WaitChan {
    var closed: bool

    constructor ()
      ensures !closed
    {
      closed := false;
    }

    /** Closing a closed channel is a panic, hence the precondition. */
    method Close()
      requires !closed
      modifies this
      ensures closed
    {
      closed := true;
    }
  }

  /** One key's counters and its queue: `len` waiters from `off` on in `buf`.
      `queue` is the sequence they stand for. */
  class KeyedState {
    var inflight: int
    var waiting: int
    var buf: array<WaitChan>
    var off: nat
    var len: nat
    ghost var queue: seq<WaitChan>
    ghost var Repr: set<object>

    /** The slice stands for the queue, whose channels are open and queued once. */
    ghost predicate Queueing()
      reads `buf, `off, `len, `queue, buf, set w | w in queue
    {
      && off + len <= buf.Length && queue == buf[off..off + len]
      && Distinct(queue)
      && forall w :: w in queue ==> !w.closed
    }

    ghost predicate Valid()
      reads this, Repr
      ensures Valid() ==> this in Repr
    {
      && this in Repr && buf in Repr
      && (forall w :: w in queue ==> w in Repr)
      && Queueing()
    }

    ghost function Value(): KeyState<WaitChan>
      reads this
    {
      KeyState(inflight, waiting, queue)
    }

    constructor ()
      ensures Valid() && fresh(Repr)
      ensures Value() == KeyState(0, 0, [])
    {
      inflight, waiting, off, len, queue := 0, 0, 0, 0, [];
      buf := new WaitChan[0];
      Repr := {this, buf};
    }

    /** `append` at the back: in place while the backing array has room, otherwise
        into a larger copy. */
    method Append(w: WaitChan)
      requires Valid() && w !in queue && !w.closed
      modifies this`buf, this`off, this`len, this`queue, this`Repr, buf
      ensures Valid() && Repr == old(Repr) + {w, buf} && (buf == old(buf) || fresh(buf))
      ensures queue == old(queue) + [w]
    {
      if off + len == buf.Length {
        var ws := buf[off..off + len];
        buf := new WaitChan[2 * len + 1](i => if 0 <= i < |ws| then ws[i] else w);
        off := 0;
        assert buf[..len] == ws;
      }
      buf[off + len] := w;
      len := len + 1;
      queue := queue + [w];
      Repr := Repr + {w, buf};
    }

    /** Re-slicing drops the head without moving anything. */
    method TakeFirst() returns (head: WaitChan)
      requires Valid() && queue != []
      modifies this`off, this`len, this`queue
      ensures Valid()
      ensures head == old(queue)[0] && queue == old(queue)[1..]
      ensures head in Repr && head !in queue && !head.closed
    {
      head := buf[off];
      HeadAndTail(buf[..], off, off + len);
      off, len, queue := off + 1, len - 1, queue[1..];
    }

    /** Shift the waiters behind position `i` down by one, in place. */
    method ShiftDown(i: nat)
      requires off + len <= buf.Length && i < len
      modifies buf
      ensures buf[off..off + len - 1] == Without(old(buf[off..off + len]), i)
    {
      ghost var b := buf[..];
      var j := off + i;
      while j + 1 < off + len
        invariant off + i <= j < off + len
        invariant forall k :: 0 <= k < off + i ==> buf[k] == b[k]
        invariant forall k :: off + i <= k < j ==> buf[k] == b[k + 1]
        invariant forall k :: j < k < buf.Length ==> buf[k] == b[k]
      {
        buf[j] := buf[j + 1];
        j := j + 1;
      }
      ShiftedDown(b, buf[..], off, len, i);
    }

    /** Removal in the middle. */
    method Delete(i: nat)
      requires Valid() && i < |queue|
      modifies this`len, this`queue, buf
      ensures Valid()
      ensures queue == Without(old(queue), i)
    {
      ghost var q := queue;
      ShiftDown(i);
      len := len - 1;
      queue := Without(q, i);
      assert queue == buf[off..off + len];
      RemovalDistinct(q, i);
      assert forall w :: w in queue ==> w in q;
    }

    /** Linear search of the queue; the length when the waiter is not there. */
    method Find(w: WaitChan) returns (i: nat)
      requires Valid()
      ensures i == Position(queue, w)
    {
      i := 0;
      while i < len
        invariant i <= len
        invariant w !in queue[..i]
      {
        if buf[off + i] == w {
          break;
        }
        assert queue[..i + 1] == queue[..i] + [buf[off + i]];
        i := i + 1;
      }
      FirstAt(queue, w, i);
    }

    /** The per-key part of `Acquire`'s first locked section. */
    method Admit(c: Config) returns (entered: Entered, waiter: WaitChan?)
      requires Valid()
      modifies Repr
      ensures Valid() && fresh(Repr - old(Repr))
      ensures entered == Enqueued <==> waiter != null
      ensures waiter != null ==> fresh(waiter) && !waiter.closed
      ensures Value() == match entered
        case Acquired => old(Value()).(inflight := old(inflight) + 1)
        case QueueFull => old(Value())
        case Enqueued => old(Value()).(waiting := old(waiting) + 1, waiters := old(queue) + [waiter])
      ensures entered == if old(inflight) < c.maxConcurrency then Acquired else if old(waiting) >= c.maxQueue then QueueFull else Enqueued
    {
      if inflight < c.maxConcurrency {
        inflight := inflight + 1;
        return Acquired, null;
      }
      if waiting >= c.maxQueue {
        return QueueFull, null;
      }
      waiter := new WaitChan();
      waiting := waiting + 1;
      Append(waiter);
      return Enqueued, waiter;
    }

    /** The per-key part of `removeWaiter`. */
    method Withdraw(w: WaitChan) returns (removed: bool)
      requires Valid()
      modifies Repr
      ensures Valid() && Repr == old(Repr)
      ensures removed <==> w in old(queue)
      ensures Value() ==
        if removed then old(Value()).(waiting := old(waiting) - 1, waiters := Without(old(queue), Position(old(queue), w)))
        else old(Value())
    {
      var i := Find(w);
      if i == len {
        return false;
      }
      Delete(i);
      waiting := waiting - 1;
      return true;
    }

    /** Take one slot back and, when someone waits, give it to the head at once. */
    method PopForSlot() returns (waiter: WaitChan?)
      requires Valid()
      modifies this`off, this`len, this`queue, this`waiting, this`inflight
      ensures Valid() && Value() == AfterRelease(old(Value()))
      ensures old(queue) == [] <==> waiter == null
      ensures waiter != null ==> waiter == old(queue)[0] && waiter in Repr && waiter !in queue && !waiter.closed
    {
      assert len == |queue|;
      hide *;
      Uncount();
      if len == 0 {
        return null;
      }
      waiter := TakeFirst();
      Recount();
    }

    /** One slot fewer in use. */
    method Uncount()
      requires Valid()
      modifies this`inflight
      ensures Valid() && inflight == if old(inflight) > 0 then old(inflight) - 1 else old(inflight)
    {
      hide Queueing;
      if inflight > 0 {
        inflight := inflight - 1;
      }
    }

    /** One waiter fewer, and the slot in use again. */
    method Recount()
      requires Valid()
      modifies this`inflight, this`waiting
      ensures Valid() && inflight == old(inflight) + 1
      ensures waiting == if old(waiting) > 0 then old(waiting) - 1 else old(waiting)
    {
      hide Queueing;
      if waiting > 0 {
        waiting := waiting - 1;
      }
      inflight := inflight + 1;
    }

    /** The per-key part of `release`. */
    method PassSlot() returns (granted: Option<WaitChan>)
      requires Valid()
      modifies Repr
      ensures Valid() && Repr == old(Repr)
      ensures Value() == AfterRelease(old(Value()))
      ensures granted == if old(queue) == [] then None else Some(old(queue)[0])
      ensures granted.Some? ==> old(!granted.value.closed) && granted.value.closed
    {
      hide *;
      var waiter := PopForSlot();
      if waiter == null {
        return None;
      }
      Wake(waiter);
      granted := Some(waiter);
    }

    /** Wake a waiter that has left the queue. */
    method Wake(w: WaitChan)
      requires Valid() && w !in queue && !w.closed
      modifies w
      ensures Valid() && w.closed
    {
      w.Close();
    }
  }

  lemma HeadAndTail<W>(b: seq<W>, lo: nat, hi: nat)
    requires lo < hi <= |b|
    ensures var q := b[lo..hi];
      && q[0] == b[lo] && q[1..] == b[lo + 1..hi]
      && q == [q[0]] + q[1..]
      && (Distinct(q) ==> Distinct(q[1..]) && q[0] !in q[1..])
      && (forall w :: w in q[1..] ==> w in q)
  {
  }

  lemma ShiftedDown<W>(b: seq<W>, r: seq<W>, off: nat, len: nat, i: nat)
    requires i < len && off + len <= |b| && |r| == |b|
    requires forall k :: 0 <= k < off + i ==> r[k] == b[k]
    requires forall k :: off + i <= k < off + len - 1 ==> r[k] == b[k + 1]
    ensures r[off..off + len - 1] == Without(b[off..off + len], i)
  {
  }

  lemma FirstAt<W>(s: seq<W>, w: W, i: nat)
    requires i <= |s| && w !in s[..i] && (i < |s| ==> s[i] == w)
    ensures Position(s, w) == i
  {
    var p := Position(s, w);
    forall k | 0 <= k < i ensures s[k] != w {
      assert s[..i][k] == s[k];
    }
    forall k | 0 <= k < p ensures s[k] != w {
      assert s[..p][k] == s[k];
    }
  }

  /** Making an empty record first does not change what entering does. */
  lemma EnterLocated<W>(c: Config, t: Table<W>, key: string, w: seq<W>)
    ensures AdmissionSpec.Enter(c, t[key := Lookup(t, key)], key, w) == AdmissionSpec.Enter(c, t, key, w)
  {
    var st := AdmissionSpec.Enter(c, t, key, w).0[key];
    assert t[key := Lookup(t, key)][key := st] == t[key := st];
  }

  function OptionSeq(w: WaitChan?): seq<WaitChan> {
    if w == null then [] else [w]
  }

  datatype Outcome = BadKey | Ok(entered: Entered, inflightAtAdmission: int, waitingAtAdmission: int)

  /** `Table` is the abstract table that the records stand for. */
  class KeyedConcurrencyController {
    const cfg: Config
    var perKey: map<string, KeyedState>
    ghost var Table: Table<WaitChan>
    ghost var Repr: set<object>

    ghost var owner: map<object, string>

    /** The key's record is well formed, and all its parts are its own. */
    ghost predicate Record(k: string)
      requires k in perKey
      reads this, Repr
    {
      var st := perKey[k];
      && st in Repr && st.Repr <= Repr
      && st.Valid()
      && forall o :: o in st.Repr ==> o in owner && owner[o] == k
    }

    /** Every record is well formed; the table agrees with all of them but `but`'s. */
    ghost predicate ValidBut(but: Option<string>)
      reads this, Repr
    {
      && this in Repr
      && ValidConfig(cfg)
      && perKey.Keys == Table.Keys
      && owner.Keys <= Repr && this !in owner
      && (forall k :: k in perKey ==> Record(k))
      && (forall k :: k in perKey && Some(k) != but ==> Table[k] == perKey[k].Value())
    }

    ghost predicate Valid()
      reads this, Repr
    {
      ValidBut(None)
    }

    /** Work on the parts of one key leaves the other keys as they were. */
    twostate lemma OthersKept(key: string)
      requires old(Valid()) && this in Repr && old(Repr) <= Repr && this !in owner && owner.Keys <= Repr
      requires perKey.Keys == Table.Keys
      requires forall k :: k in perKey && k != key ==> k in old(perKey) && perKey[k] == old(perKey[k])
      requires forall k :: k in Table && k != key ==> k in old(Table) && Table[k] == old(Table[k])
      requires forall o :: o in old(owner) ==> o in owner && owner[o] == old(owner[o])
      requires forall o :: o in old(owner) && old(owner[o]) != key ==> unchanged(o)
      requires key in perKey ==> Record(key)
      ensures ValidBut(Some(key))
    {
      hide KeyedState.Valid;
      forall k | k in perKey && k != key ensures Record(k) && Table[k] == perKey[k].Value() {
        assert old(Record(k));
      }
    }

    /** Make an empty record for a key that has none. */
    method Make(key: string)
      requires Valid() && key !in perKey
      modifies this
      ensures Valid() && old(Repr) <= Repr && fresh(Repr - old(Repr))
      ensures key in perKey && Table == old(Table)[key := KeyState(0, 0, [])]
    {
      hide *;
      var st := new KeyedState();
      Insert(key, st);
    }

    /** Put in a record whose parts no other record has. */
    method Insert(key: string, st: KeyedState)
      requires Valid() && key !in perKey
      requires st.Valid() && st.Repr !! Repr
      modifies this
      ensures Valid() && Repr == old(Repr) + old(st.Repr)
      ensures perKey == old(perKey)[key := st] && Table == old(Table)[key := old(st.Value())]
    {
      hide KeyedState.Valid, KeyedState.Value;
      perKey := perKey[key := st];
      Table := Table[key := st.Value()];
      Adopt(key);
      assert Record(key);
      OthersKept(key);
      InSync(key);
    }

    /** Find the key's record, making an empty one if there is none. */
    method Locate(key: string) returns (st: KeyedState)
      requires Valid()
      modifies this
      ensures Valid() && old(Repr) <= Repr && fresh(Repr - old(Repr))
      ensures key in perKey && st == perKey[key]
      ensures Table == old(Table)[key := old(Lookup(Table, key))]
    {
      if key !in perKey {
        Make(key);
      }
      st := perKey[key];
      assert Record(key);
    }

    /** Take note of the parts that a key's record has gained. */
    ghost method Adopt(key: string)
      requires key in perKey
      modifies this`Repr, this`owner
      ensures Repr == old(Repr) + perKey[key].Repr
      ensures owner.Keys == old(owner).Keys + perKey[key].Repr
      ensures forall o :: o in perKey[key].Repr ==> owner[o] == key
      ensures forall o :: o in old(owner) && o !in perKey[key].Repr ==> owner[o] == old(owner[o])
    {
      Repr := Repr + perKey[key].Repr;
      owner := owner + map o | o in perKey[key].Repr :: key;
    }

    lemma InSync(key: string)
      requires key in perKey && ValidBut(Some(key)) && Table[key] == perKey[key].Value()
      ensures Valid()
    {
    }

    /** Bring the table up to date with the key's record. */
    ghost method Sync(key: string)
      requires key in perKey && ValidBut(Some(key))
      modifies this`Table
      ensures Valid()
      ensures Table == old(Table)[key := perKey[key].Value()]
    {
      hide KeyedState.Valid;
      Table := Table[key := perKey[key].Value()];
      forall k | k in perKey ensures Record(k) {
        assert old(Record(k));
        assert perKey[k].Valid();
      }
    }

    /** Drop the key's record if it has become idle. */
    method Settle(key: string)
      requires key in perKey && ValidBut(Some(key))
      modifies this`perKey, this`Table
      ensures Valid()
      ensures Table == Keep(old(Table), key, old(perKey[key].Value()))
    {
      hide KeyedState.Valid;
      var st := perKey[key];
      if st.inflight == 0 && st.waiting == 0 {
        perKey := perKey - {key};
        Table := Table - {key};
        forall k | k in perKey ensures Record(k) {
          assert old(Record(k));
          assert perKey[k].Valid();
        }
      } else {
        Sync(key);
      }
    }

    constructor (c: Config)
      requires ValidConfig(c)
      ensures Valid() && fresh(Repr)
      ensures cfg == c && Table == map[]
    {
      cfg := c;
      perKey := map[];
      Table := map[];
      owner := map[];
      Repr := {this};
    }

    /** The settings are checked before a controller is made. */
    static method New(maxConcurrency: int, maxQueue: int) returns (c: KeyedConcurrencyController?)
      ensures c == null <==> maxConcurrency <= 0 || maxQueue < 0
      ensures c != null ==> fresh(c) && c.Valid() && fresh(c.Repr) && c.Table == map[] && c.cfg == Config(maxConcurrency, maxQueue)
    {
      if maxConcurrency <= 0 || maxQueue < 0 {
        return null;
      }
      c := new KeyedConcurrencyController(Config(maxConcurrency, maxQueue));
    }

    /** The first locked section of `Acquire`, once the key has a record. */
    method AdmitAt(key: string) returns (entered: Entered, waiter: WaitChan?)
      requires Valid() && key in perKey
      modifies Repr
      ensures Valid() && fresh(Repr - old(Repr))
      ensures entered == Enqueued <==> waiter != null
      ensures waiter != null ==> fresh(waiter) && !waiter.closed
      ensures (Table, entered) == AdmissionSpec.Enter(cfg, old(Table), key, OptionSeq(waiter))
    {
      hide KeyedState.Valid;
      var st := perKey[key];
      assert Record(key);
      ghost var before := st.Value();
      assert before == Table[key];
      entered, waiter := st.Admit(cfg);
      ghost var after := st.Value();
      assert AdmissionSpec.Enter(cfg, Table, key, OptionSeq(waiter)) == (Table[key := after], entered);
      Adopt(key);
      assert Record(key);
      OthersKept(key);
      Sync(key);
      assert Table == old(Table)[key := after];
    }

    /** `Acquire` up to its first unlock. */
    method Enter(rawKey: string) returns (outcome: Outcome, key: string, waiter: WaitChan?)
      requires Valid()
      modifies Repr
      ensures Valid() && fresh(Repr - old(Repr))
      ensures key == TrimSpace(rawKey)
      ensures outcome == BadKey <==> key == ""
      ensures outcome == BadKey ==> Table == old(Table)
      ensures outcome.Ok? ==>
        && outcome.inflightAtAdmission == old(Lookup(Table, key).inflight)
        && outcome.waitingAtAdmission == old(Lookup(Table, key).waiting)
        && (Table, outcome.entered) == AdmissionSpec.Enter(cfg, old(Table), key, OptionSeq(waiter))
      ensures waiter != null ==> fresh(waiter) && !waiter.closed
      ensures outcome.Ok? && outcome.entered == Enqueued <==> waiter != null
    {
      key, waiter := TrimSpace(rawKey), null;
      if key == "" {
        return BadKey, key, null;
      }
      var st := Locate(key);
      assert Record(key) && st.Value() == old(Lookup(Table, key));
      var inflightAt, waitingAt := st.inflight, st.waiting;
      var entered;
      entered, waiter := AdmitAt(key);
      EnterLocated(cfg, old(Table), key, OptionSeq(waiter));
      outcome := Ok(entered, inflightAt, waitingAt);
    }

    method RemoveAt(key: string, waiter: WaitChan) returns (removed: bool)
      requires Valid() && key in perKey
      modifies Repr
      ensures Valid() && Repr == old(Repr)
      ensures (Table, removed) == AdmissionSpec.RemoveWaiter(old(Table), key, waiter)
    {
      hide KeyedState.Valid, Position, Without, Keep;
      var st := perKey[key];
      assert Record(key);
      ghost var before := st.Value();
      assert before == Table[key];
      removed := st.Withdraw(waiter);
      ghost var after := st.Value();
      assert AdmissionSpec.RemoveWaiter(Table, key, waiter) == (if removed then Keep(Table, key, after) else Table, removed);
      assert Record(key);
      OthersKept(key);
      if removed {
        Settle(key);
        assert Table == Keep(old(Table), key, after);
      } else {
        InSync(key);
      }
    }

    /** `removeWaiter`, run by a call that stops waiting. */
    method RemoveWaiter(key: string, waiter: WaitChan) returns (removed: bool)
      requires Valid()
      modifies Repr
      ensures Valid() && Repr == old(Repr)
      ensures (Table, removed) == AdmissionSpec.RemoveWaiter(old(Table), key, waiter)
    {
      if key !in perKey {
        return false;
      }
      removed := RemoveAt(key, waiter);
    }

    /** `release`: the head of the queue, if any, receives the slot and is woken. */
    method Release(key: string) returns (ghost granted: Option<WaitChan>)
      requires Valid()
      modifies Repr
      ensures Valid() && Repr == old(Repr)
      ensures (Table, granted) == AdmissionSpec.Release(old(Table), key)
      ensures granted.Some? ==> old(!granted.value.closed) && granted.value.closed
    {
      hide KeyedState.Valid;
      if key !in perKey {
        return None;
      }
      var st := perKey[key];
      assert Record(key);
      granted := st.PassSlot();
      assert Record(key);
      OthersKept(key);
      Settle(key);
    }
  }

  /** What a successful `Acquire` returns; its once guard makes `Release` idempotent. */
  class AdmissionHandle {
    const controller: KeyedConcurrencyController?
    const key: string
    var done: bool

    constructor (controller: KeyedConcurrencyController?, key: string)
      ensures this.controller == controller && this.key == key && !done
    {
      this.controller, this.key, done := controller, key, false;
    }

    method Release()
      requires controller != null ==> controller.Valid() && this !in controller.Repr
      modifies this, if controller != null then controller.Repr else {}
      ensures controller != null ==> controller.Valid() && controller.Repr == old(controller.Repr)
      ensures controller != null ==>
        controller.Table ==
          if key == "" || old(done) then old(controller.Table)
          else AdmissionSpec.Release(old(controller.Table), key).0
      ensures done == (old(done) || (controller != null && key != ""))
    {
      if controller == null || key == "" {
        return;
      }
      if !done {
        ghost var g := controller.Release(key);
        done := true;
      }
    }
  }
}
