/** All interleavings of requests and sweeps over the lockout table. Each critical
    section is one step; the two clock readings taken before a lock are steps of
    their own. */
module AuthMachine {
  import opened GoStrings
  import opened AuthSpec

  /** A request that passed the check, or that has read the clock to record a failure. */
  datatype Request = Checked(ip: string) | Failing(ip: string, now: int)

  datatype Sys = Sys(table: Table, clock: int, requests: map<nat, Request>, sweeper: Option<int>)

  datatype Step =
    | Tick(d: nat)
    | Begin(r: nat, ip: string)
    | Succeed(r: nat)
    | ReadClock(r: nat)
    | Fail(r: nat)
    | SweepBegin
    | SweepEnd

  datatype Answer = TooManyRequests(r: nat) | Accepted(r: nat) | Unauthorized(r: nat)

  const INIT := Sys(map[], 0, map[], None)

  /** A step that is not enabled changes nothing. `both` tells whether the sweeper has
      its first rule. */
  function Apply(s: Sys, step: Step, both: bool): Sys {
    match step
    case Tick(d) => s.(clock := s.clock + d)
    case Begin(r, ip) =>
      if r in s.requests || Blocked(s.table, ip, s.clock) then s
      else s.(table := Check(s.table, ip, s.clock), requests := s.requests[r := Checked(ip)])
    case Succeed(r) =>
      if r in s.requests && s.requests[r].Checked?
      then s.(table := Clear(s.table, s.requests[r].ip), requests := s.requests - {r})
      else s
    case ReadClock(r) =>
      if r in s.requests && s.requests[r].Checked?
      then s.(requests := s.requests[r := Failing(s.requests[r].ip, s.clock)])
      else s
    case Fail(r) =>
      if r in s.requests && s.requests[r].Failing?
      then s.(table := Record(s.table, s.requests[r].ip, s.requests[r].now), requests := s.requests - {r})
      else s
    case SweepBegin => if s.sweeper.None? then s.(sweeper := Some(s.clock)) else s
    case SweepEnd => if s.sweeper.None? then s else s.(table := Sweep(s.table, s.sweeper.value, both), sweeper := None)
  }

  function Answers(s: Sys, step: Step): seq<Answer> {
    match step
    case Begin(r, ip) => if r !in s.requests && Blocked(s.table, ip, s.clock) then [TooManyRequests(r)] else []
    case Succeed(r) => if r in s.requests && s.requests[r].Checked? then [Accepted(r)] else []
    case Fail(r) => if r in s.requests && s.requests[r].Failing? then [Unauthorized(r)] else []
    case _ => []
  }

  function Exec(s: Sys, steps: seq<Step>, both: bool): Sys
    decreases |steps|
  {
    if steps == [] then s else Exec(Apply(s, steps[0], both), steps[1..], both)
  }

  function AllAnswers(s: Sys, steps: seq<Step>, both: bool): seq<Answer>
    decreases |steps|
  {
    if steps == [] then [] else Answers(s, steps[0]) + AllAnswers(Apply(s, steps[0], both), steps[1..], both)
  }

  /** The requests of a client between their check and their outcome. */
  function InFlight(s: Sys, ip: string): set<nat> {
    set r | r in s.requests && s.requests[r].ip == ip
  }

  /** At no point of the run do more than `k` requests of the client overlap. */
  ghost predicate AtMost(k: nat, s: Sys, steps: seq<Step>, ip: string, both: bool)
    decreases |steps|
  {
    && |InFlight(s, ip)| <= k
    && (steps != [] ==> AtMost(k, Apply(s, steps[0], both), steps[1..], ip, both))
  }

  // ------------------------------------------------------------ every interleaving

  ghost predicate EntryOk(e: Entry, clock: int) {
    && e.count >= 1
    && e.lastSeen <= clock
    && (Locked(e) ==> e.lockedAt == e.lastSeen)
  }

  ghost predicate Inv(s: Sys) {
    && (forall ip | ip in s.table :: EntryOk(s.table[ip], s.clock))
    && (forall r | r in s.requests && s.requests[r].Failing? :: s.requests[r].now <= s.clock)
    && (s.sweeper.Some? ==> s.sweeper.value <= s.clock)
  }

  lemma StepInv(s: Sys, step: Step, both: bool)
    requires Inv(s)
    ensures Inv(Apply(s, step, both)) && s.clock <= Apply(s, step, both).clock
  {
  }

  lemma {:induction false} RunInv(s: Sys, steps: seq<Step>, both: bool)
    requires Inv(s)
    ensures Inv(Exec(s, steps, both)) && s.clock <= Exec(s, steps, both).clock
    decreases |steps|
  {
    if steps != [] {
      StepInv(s, steps[0], both);
      RunInv(Apply(s, steps[0], both), steps[1..], both);
    }
  }

  /** In every reachable state an entry with ten failures or more was locked when it
      was last seen. */
  lemma LockedWhenLastSeen(steps: seq<Step>, both: bool, ip: string)
    ensures var s := Exec(INIT, steps, both);
      ip in s.table && s.table[ip].count >= 10 ==> s.table[ip].lockedAt == s.table[ip].lastSeen
  {
    RunInv(INIT, steps, both);
  }

  /** Sweeper safety: whenever its pass takes effect, what it removes is a lockout that
      is over by then, or a client with fewer than ten failures and none for half an
      hour; a running lockout always stays as it is. */
  lemma SweepSparesRunningLockouts(steps: seq<Step>, both: bool, ip: string)
    ensures var s := Exec(INIT, steps, both);
      var t := Apply(s, SweepEnd, both).table;
      ip in s.table ==>
        && (Running(s.table[ip], s.clock) ==> ip in t && t[ip] == s.table[ip])
        && (ip !in t ==> Expired(s.table[ip], s.clock) || (s.table[ip].count < 10 && Stale(s.table[ip], s.clock)))
  {
    RunInv(INIT, steps, both);
  }

  lemma StepHolds(s: Sys, step: Step, both: bool, ip: string)
    requires Inv(s) && InFlight(s, ip) == {} && Blocked(s.table, ip, s.clock)
    ensures var s' := Apply(s, step, both);
      InFlight(s', ip) == {} && ip in s'.table && s'.table[ip] == s.table[ip]
  {
    var s' := Apply(s, step, both);
    assert forall r | r in s.requests && s.requests[r].ip == ip :: r in InFlight(s, ip);
    assert forall r | r in s'.requests :: s'.requests[r].ip != ip;
  }

  /** A lockout holds: once no request of the client is under way, nothing in any
      interleaving ends it or moves it before its five minutes are over, so every
      request of the client until then is turned away. */
  lemma {:induction false} LockoutHolds(s: Sys, steps: seq<Step>, both: bool, ip: string)
    requires Inv(s) && InFlight(s, ip) == {} && ip in s.table && Locked(s.table[ip])
    requires Exec(s, steps, both).clock - s.table[ip].lockedAt < LOCKOUT
    ensures var s' := Exec(s, steps, both);
      && ip in s'.table && s'.table[ip] == s.table[ip]
      && Blocked(s'.table, ip, s'.clock)
      && InFlight(s', ip) == {}
    decreases |steps|
  {
    hide Apply, Inv, InFlight;
    RunInv(s, steps, both);
    if steps != [] {
      StepHolds(s, steps[0], both, ip);
      StepInv(s, steps[0], both);
      LockoutHolds(Apply(s, steps[0], both), steps[1..], both, ip);
    }
  }

  /** The client starts no request in the run. */
  predicate Quiet(steps: seq<Step>, ip: string) {
    forall i :: 0 <= i < |steps| ==> !(steps[i].Begin? && steps[i].ip == ip)
  }

  lemma StepOnlyEnds(s: Sys, step: Step, both: bool, ip: string)
    requires InFlight(s, ip) == {} && !(step.Begin? && step.ip == ip)
    ensures var s' := Apply(s, step, both);
      InFlight(s', ip) == {} && (ip in s'.table ==> ip in s.table && s'.table[ip] == s.table[ip])
  {
    var s' := Apply(s, step, both);
    assert forall r | r in s.requests && s.requests[r].ip == ip :: r in InFlight(s, ip);
    assert forall r | r in s'.requests :: s'.requests[r].ip != ip;
  }

  lemma {:induction false} OnlyEnds(s: Sys, steps: seq<Step>, both: bool, ip: string)
    requires InFlight(s, ip) == {} && Quiet(steps, ip)
    ensures var s' := Exec(s, steps, both);
      ip in s'.table ==> ip in s.table && s'.table[ip] == s.table[ip]
    decreases |steps|
  {
    hide Apply, InFlight;
    if steps != [] {
      StepOnlyEnds(s, steps[0], both, ip);
      OnlyEnds(Apply(s, steps[0], both), steps[1..], both, ip);
    }
  }

  /** A lockout lasts exactly its five minutes: whatever happens meanwhile, the
      client's next request is turned away if and only if they are not over. */
  lemma LockoutLastsExactly(s: Sys, steps: seq<Step>, both: bool, ip: string)
    requires Inv(s) && InFlight(s, ip) == {} && ip in s.table && Locked(s.table[ip])
    requires Quiet(steps, ip)
    ensures var s' := Exec(s, steps, both);
      Blocked(s'.table, ip, s'.clock) <==> s'.clock - s.table[ip].lockedAt < 5 * MINUTE
  {
    hide Apply, Inv, InFlight;
    OnlyEnds(s, steps, both, ip);
    if Exec(s, steps, both).clock - s.table[ip].lockedAt < LOCKOUT {
      LockoutHolds(s, steps, both, ip);
    }
  }

  /** Turned away means answered so and left out; otherwise the request goes on. */
  lemma TurnedAwayIff(s: Sys, steps: seq<Step>, both: bool, ip: string, r: nat)
    requires Inv(s) && InFlight(s, ip) == {} && ip in s.table && Locked(s.table[ip])
    requires Quiet(steps, ip) && r !in Exec(s, steps, both).requests
    ensures var s' := Exec(s, steps, both);
      var next := Apply(s', Begin(r, ip), both);
      if s'.clock - s.table[ip].lockedAt < 5 * MINUTE
      then Answers(s', Begin(r, ip)) == [TooManyRequests(r)] && next == s'
      else Answers(s', Begin(r, ip)) == [] && r in next.requests && next.requests[r] == Checked(ip) && ip !in next.table
  {
    LockoutLastsExactly(s, steps, both, ip);
    OnlyEnds(s, steps, both, ip);
  }

  /** A pass of the sweeper leaves exactly the entries that are not locked for five
      minutes or more and were seen within the last half hour, as they were. */
  lemma SweepLeaves(s: Sys, ip: string)
    requires s.sweeper.None?
    ensures var t := Apply(Apply(s, SweepBegin, true), SweepEnd, true).table;
      && (ip in t <==>
            && ip in s.table
            && (s.table[ip].count >= 10 ==> s.clock - s.table[ip].lockedAt < 5 * MINUTE)
            && s.clock - s.table[ip].lastSeen < 30 * MINUTE)
      && (ip in t ==> t[ip] == s.table[ip])
  {
  }

  // ------------------------------------------------------------ how far counts go

  /** Failures counted, and failures that may yet be counted without another check. */
  ghost function Load(s: Sys, ip: string): nat {
    (if ip in s.table then s.table[ip].count else 0) + |InFlight(s, ip)|
  }

  lemma InFlightAfter(s: Sys, step: Step, both: bool, ip: string)
    ensures var s' := Apply(s, step, both);
      InFlight(s', ip) ==
        match step
        case Begin(r, x) => if x == ip && s' != s && r !in s.requests then InFlight(s, ip) + {r} else InFlight(s, ip)
        case Succeed(r) => if r in s.requests && s.requests[r].Checked? then InFlight(s, ip) - {r} else InFlight(s, ip)
        case Fail(r) => if r in s.requests && s.requests[r].Failing? then InFlight(s, ip) - {r} else InFlight(s, ip)
        case _ => InFlight(s, ip)
  {
  }

  lemma StepLoad(s: Sys, step: Step, both: bool, ip: string, k: nat)
    requires Load(s, ip) <= 9 + k
    requires |InFlight(Apply(s, step, both), ip)| <= k
    ensures Load(Apply(s, step, both), ip) <= 9 + k
  {
    InFlightAfter(s, step, both, ip);
    var s' := Apply(s, step, both);
    match step
    case Begin(r, x) =>
      if x == ip && s' != s {
        assert ip in s'.table ==> !Locked(s'.table[ip]);
      }
    case Succeed(r) =>
    case Fail(r) =>
      if r in s.requests && s.requests[r].Failing? && s.requests[r].ip == ip {
        assert r in InFlight(s, ip);
        assert |InFlight(s, ip) - {r}| == |InFlight(s, ip)| - 1;
      }
    case _ =>
  }

  /** With at most `k` overlapping requests of a client its count never exceeds 9 + k:
      ten when its requests do not overlap. */
  lemma {:induction false} CountIsBounded(s: Sys, steps: seq<Step>, both: bool, ip: string, k: nat)
    requires Load(s, ip) <= 9 + k && AtMost(k, s, steps, ip, both)
    ensures Load(Exec(s, steps, both), ip) <= 9 + k
    decreases |steps|
  {
    hide Apply, Load, InFlight;
    if steps != [] {
      StepLoad(s, steps[0], both, ip, k);
      CountIsBounded(Apply(s, steps[0], both), steps[1..], both, ip, k);
    }
  }

  // ------------------------------------------------------------ failures per window

  /** The failures of a client that a run records. */
  function Failures(s: Sys, steps: seq<Step>, both: bool, ip: string): nat
    decreases |steps|
  {
    if steps == [] then 0
    else (if Fails(s, steps[0], ip) then 1 else 0) + Failures(Apply(s, steps[0], both), steps[1..], both, ip)
  }

  predicate Fails(s: Sys, step: Step, ip: string) {
    step.Fail? && step.r in s.requests && s.requests[step.r].Failing? && s.requests[step.r].ip == ip
  }

  /** A step at which a request of the client presents the valid key. */
  predicate Succeeds(s: Sys, step: Step, ip: string) {
    step.Succeed? && step.r in s.requests && s.requests[step.r] == Checked(ip)
  }

  ghost predicate NoSuccess(s: Sys, steps: seq<Step>, both: bool, ip: string)
    decreases |steps|
  {
    steps != [] ==> !Succeeds(s, steps[0], ip) && NoSuccess(Apply(s, steps[0], both), steps[1..], both, ip)
  }

  /** Since time `from`, `n` failures were recorded that are all still counted. */
  ghost predicate Counted(s: Sys, ip: string, from: int, n: nat) {
    && from <= s.clock
    && (n > 0 ==> ip in s.table && s.table[ip].count >= n && s.table[ip].lastSeen >= from)
  }

  /** Requests of the client about to record a failure with a reading before `from`. */
  ghost function Late(s: Sys, ip: string, from: int): set<nat> {
    set r | r in s.requests && s.requests[r].Failing? && s.requests[r].ip == ip && s.requests[r].now < from
  }

  /** Recording a late failure may end what is counted: it can lock the client at a
      time long past. */
  predicate FailsLate(s: Sys, step: Step, ip: string, from: int) {
    Fails(s, step, ip) && s.requests[step.r].now < from
  }

  lemma StepCounted(s: Sys, step: Step, both: bool, ip: string, from: int, n: nat)
    requires Inv(s) && Counted(s, ip, from, n) && !Succeeds(s, step, ip)
    requires Apply(s, step, both).clock - from < LOCKOUT
    ensures Counted(Apply(s, step, both), ip, from,
                    if FailsLate(s, step, ip, from) then 0 else if Fails(s, step, ip) then n + 1 else n)
  {
  }

  lemma StepLate(s: Sys, step: Step, both: bool, ip: string, from: int)
    requires from <= s.clock
    ensures Late(Apply(s, step, both), ip, from)
      == if FailsLate(s, step, ip, from) then Late(s, ip, from) - {step.r} else Late(s, ip, from)
  {
  }

  // ------------------------------------------------------------ a valid key

  /** A valid key clears the client's record and no other. */
  lemma SuccessClears(s: Sys, r: nat, both: bool, ip: string)
    requires r in s.requests && s.requests[r] == Checked(ip)
    ensures var s' := Apply(s, Succeed(r), both);
      && ip !in s'.table
      && (forall x :: x != ip ==> (x in s'.table <==> x in s.table))
      && (forall x :: x != ip && x in s.table ==> s'.table[x] == s.table[x])
      && Answers(s, Succeed(r)) == [Accepted(r)]
  {
  }

  function CountOf(s: Sys, ip: string): nat {
    if ip in s.table then s.table[ip].count else 0
  }

  lemma StepCountsFailures(s: Sys, step: Step, both: bool, ip: string)
    ensures CountOf(Apply(s, step, both), ip) <= CountOf(s, ip) + (if Fails(s, step, ip) then 1 else 0)
  {
  }

  /** No count grows but by recorded failures. */
  lemma {:induction false} CountNeedsFailures(s: Sys, steps: seq<Step>, both: bool, ip: string)
    ensures CountOf(Exec(s, steps, both), ip) <= CountOf(s, ip) + Failures(s, steps, both, ip)
    decreases |steps|
  {
    hide Apply, CountOf, Fails;
    if steps != [] {
      StepCountsFailures(s, steps[0], both, ip);
      CountNeedsFailures(Apply(s, steps[0], both), steps[1..], both, ip);
    }
  }

  /** After a valid key, in every interleaving, the client is not turned away before ten
      failures of it have been recorded since. */
  lemma TenFailuresAfterSuccess(s: Sys, r: nat, steps: seq<Step>, both: bool, ip: string)
    requires r in s.requests && s.requests[r] == Checked(ip)
    requires var s1 := Apply(s, Succeed(r), both); Blocked(Exec(s1, steps, both).table, ip, Exec(s1, steps, both).clock)
    ensures Failures(Apply(s, Succeed(r), both), steps, both, ip) >= 10
  {
    SuccessClears(s, r, both, ip);
    CountNeedsFailures(Apply(s, Succeed(r), both), steps, both, ip);
  }

  /** What a client may still record in a window: 9 + k failures, and as many again for
      each late request. */
  function Allowance(k: nat, late: nat): nat {
    (9 + k) * (late + 1)
  }

  lemma OneLateLess(s: Sys, step: Step, ip: string, from: int, n: nat, k: nat)
    requires Counted(s, ip, from, n) && Load(s, ip) <= 9 + k && FailsLate(s, step, ip, from)
    ensures n + 1 + Allowance(k, |Late(s, ip, from) - {step.r}|) <= Allowance(k, |Late(s, ip, from)|)
  {
    assert step.r in Late(s, ip, from) && step.r in InFlight(s, ip);
    var m := |Late(s, ip, from) - {step.r}|;
    assert |Late(s, ip, from)| == m + 1;
    assert n + 1 <= 9 + k;
    assert (9 + k) * (m + 2) == (9 + k) * (m + 1) + (9 + k);
  }

  lemma CountedIsBounded(s: Sys, ip: string, from: int, n: nat, k: nat, late: nat)
    requires Counted(s, ip, from, n) && Load(s, ip) <= 9 + k
    ensures n <= Allowance(k, late)
  {
    assert (9 + k) * (late + 1) == (9 + k) * late + (9 + k);
  }

  lemma {:induction false} FailuresAreBounded(s: Sys, steps: seq<Step>, both: bool, ip: string, from: int, n: nat, k: nat)
    requires Inv(s) && Counted(s, ip, from, n) && NoSuccess(s, steps, both, ip)
    requires Load(s, ip) <= 9 + k && AtMost(k, s, steps, ip, both)
    requires Exec(s, steps, both).clock - from < LOCKOUT
    ensures n + Failures(s, steps, both, ip) <= Allowance(k, |Late(s, ip, from)|)
    decreases |steps|
  {
    hide Apply, Inv, Counted, Fails, Load, InFlight, Allowance, Late, FailsLate;
    if steps == [] {
      CountedIsBounded(s, ip, from, n, k, |Late(s, ip, from)|);
    } else {
      var step := steps[0];
      var s' := Apply(s, step, both);
      var n' := if FailsLate(s, step, ip, from) then 0 else if Fails(s, step, ip) then n + 1 else n;
      StepInv(s, step, both);
      RunInv(s', steps[1..], both);
      StepCounted(s, step, both, ip, from, n);
      StepLoad(s, step, both, ip, k);
      WindowIsPast(s, ip, from, n);
      StepLate(s, step, both, ip, from);
      FailuresAreBounded(s', steps[1..], both, ip, from, n', k);
      if FailsLate(s, step, ip, from) {
        LateFails(s, step, ip, from);
        OneLateLess(s, step, ip, from, n, k);
      }
    }
  }

  lemma LateFails(s: Sys, step: Step, ip: string, from: int)
    requires FailsLate(s, step, ip, from)
    ensures Fails(s, step, ip)
  {
  }

  lemma WindowIsPast(s: Sys, ip: string, from: int, n: nat)
    requires Counted(s, ip, from, n)
    ensures from <= s.clock
  {
  }

  /** The rate the lockout enforces, in every interleaving with the sweeper: in any
      window of less than five minutes, a client with at most `k` requests at a time and
      no valid key records at most 9 + k failures for each late request, one that read
      the clock before the window and records its failure in it, and 9 + k more. */
  lemma GuessesPerWindow(before: seq<Step>, window: seq<Step>, both: bool, ip: string, k: nat)
    requires AtMost(k, INIT, before + window, ip, both)
    requires var s := Exec(INIT, before, both);
      && NoSuccess(s, window, both, ip)
      && Exec(s, window, both).clock - s.clock < LOCKOUT
    ensures var s := Exec(INIT, before, both);
      Failures(s, window, both, ip) <= (9 + k) * (|Late(s, ip, s.clock)| + 1)
  {
    var s := Exec(INIT, before, both);
    hide Apply, Inv, InFlight, Late;
    AtMostSplits(k, INIT, before, window, ip, both);
    RunInv(INIT, before, both) by { StartsOk(ip); }
    CountIsBounded(INIT, before, both, ip, k) by { StartsOk(ip); }
    FailuresAreBounded(s, window, both, ip, s.clock, 0, k);
  }

  /** So with no late request it is at most 9 + k: ten without overlap, and eleven
      failures take at least five minutes. */
  lemma GuessesPerFreshWindow(before: seq<Step>, window: seq<Step>, both: bool, ip: string, k: nat)
    requires AtMost(k, INIT, before + window, ip, both)
    requires var s := Exec(INIT, before, both);
      && (forall r | r in s.requests && s.requests[r].ip == ip && s.requests[r].Failing? :: s.requests[r].now >= s.clock)
      && NoSuccess(s, window, both, ip)
      && Exec(s, window, both).clock - s.clock < LOCKOUT
    ensures Failures(Exec(INIT, before, both), window, both, ip) <= 9 + k
  {
    var s := Exec(INIT, before, both);
    assert Late(s, ip, s.clock) == {};
    hide *;
    GuessesPerWindow(before, window, both, ip, k);
    assert |Late(s, ip, s.clock)| == 0;
  }

  lemma StartsOk(ip: string)
    ensures Inv(INIT) && Load(INIT, ip) == 0
  {
    assert InFlight(INIT, ip) == {};
  }

  lemma {:induction false} AtMostSplits(k: nat, s: Sys, a: seq<Step>, b: seq<Step>, ip: string, both: bool)
    requires AtMost(k, s, a + b, ip, both)
    ensures AtMost(k, s, a, ip, both) && AtMost(k, Exec(s, a, both), b, ip, both)
    decreases |a|
  {
    hide Apply, InFlight;
    if a == [] {
      assert a + b == b;
    } else {
      assert (a + b)[0] == a[0] && (a + b)[1..] == a[1..] + b;
      AtMostSplits(k, Apply(s, a[0], both), a[1..], b, ip, both);
    }
  }

  /** Without overlap a late request costs one failure only: no other can start before
      it is done. */
  lemma {:induction false} LateAlone(s: Sys, steps: seq<Step>, both: bool, ip: string, from: int, r: nat)
    requires Inv(s) && from <= s.clock && InFlight(s, ip) == {r} && r in s.requests && s.requests[r].Failing?
    requires NoSuccess(s, steps, both, ip) && Load(s, ip) <= 10 && AtMost(1, s, steps, ip, both)
    requires Exec(s, steps, both).clock - from < LOCKOUT
    ensures Failures(s, steps, both, ip) <= 11
    decreases |steps|
  {
    if steps != [] {
      var step := steps[0];
      var s' := Apply(s, step, both);
      StepInv(s, step, both);
      StepLoad(s, step, both, ip, 1);
      RunInv(s', steps[1..], both);
      InFlightAfter(s, step, both, ip);
      assert r in InFlight(s, ip) && s.requests[r].ip == ip;
      hide Inv, Load;
      if step == Fail(r) {
        assert InFlight(s', ip) == {};
        NothingLate(s', ip, from);
        FailuresAreBounded(s', steps[1..], both, ip, from, 0, 1) by { assert Counted(s', ip, from, 0); }
      } else {
        OnlyOne(s, step, both, ip, r);
        LateAlone(s', steps[1..], both, ip, from, r);
      }
    }
  }

  lemma NothingLate(s: Sys, ip: string, from: int)
    requires InFlight(s, ip) == {}
    ensures |Late(s, ip, from)| == 0
  {
    assert forall r | r in s.requests && s.requests[r].ip == ip :: r in InFlight(s, ip);
    assert Late(s, ip, from) == {};
  }

  lemma OnlyOne(s: Sys, step: Step, both: bool, ip: string, r: nat)
    requires InFlight(s, ip) == {r} && r in s.requests && s.requests[r].Failing? && step != Fail(r)
    requires |InFlight(Apply(s, step, both), ip)| <= 1
    ensures var s' := Apply(s, step, both);
      InFlight(s', ip) == {r} && r in s'.requests && s'.requests[r] == s.requests[r] && !Fails(s, step, ip)
  {
    InFlightAfter(s, step, both, ip);
    assert forall q | q in s.requests && s.requests[q].ip == ip :: q in InFlight(s, ip);
    if step.Begin? && step.ip == ip && step.r !in s.requests {
      assert step.r != r && |{r} + {step.r}| == 2;
    }
  }

  /** In any window at all, then, a client whose requests do not overlap records at most
      eleven failures. */
  lemma GuessesAlone(before: seq<Step>, window: seq<Step>, both: bool, ip: string)
    requires AtMost(1, INIT, before + window, ip, both)
    requires var s := Exec(INIT, before, both);
      && NoSuccess(s, window, both, ip)
      && Exec(s, window, both).clock - s.clock < LOCKOUT
    ensures Failures(Exec(INIT, before, both), window, both, ip) <= 11
  {
    var s := Exec(INIT, before, both);
    hide Apply, Inv, Load, AtMost, NoSuccess, Failures;
    if r :| r in Late(s, ip, s.clock) {
      AtMostSplits(1, INIT, before, window, ip, both);
      RunInv(INIT, before, both) by { StartsOk(ip); }
      CountIsBounded(INIT, before, both, ip, 1) by { StartsOk(ip); }
      AtMostHere(1, s, window, ip, both);
      Single(InFlight(s, ip), r);
      LateAlone(s, window, both, ip, s.clock, r);
    } else {
      GuessesPerFreshWindow(before, window, both, ip, 1) by {
        assert forall r | r in s.requests && s.requests[r].ip == ip && s.requests[r].Failing? && s.requests[r].now < s.clock ::
          r in Late(s, ip, s.clock);
      }
    }
  }

  lemma AtMostHere(k: nat, s: Sys, steps: seq<Step>, ip: string, both: bool)
    requires AtMost(k, s, steps, ip, both)
    ensures |InFlight(s, ip)| <= k
  {
  }

  lemma Single(all: set<nat>, r: nat)
    requires r in all && |all| <= 1
    ensures all == {r}
  {
    assert |all - {r}| == 0;
    assert all == (all - {r}) + {r};
  }

  lemma {:induction false} ExecAppend(s: Sys, a: seq<Step>, b: seq<Step>, both: bool)
    ensures Exec(s, a + b, both) == Exec(Exec(s, a, both), b, both)
    decreases |a|
  {
    hide Apply;
    if a == [] {
      assert a + b == b;
    } else {
      ExecAppend(Apply(s, a[0], both), a[1..], b, both);
      assert (a + b)[0] == a[0] && (a + b)[1..] == a[1..] + b;
    }
  }

  // ------------------------------------------------------------ sweeping is invisible

  /** Nothing is held against the client any more: no entry, or an expired lockout. */
  predicate Clean(t: Table, ip: string, clock: int) {
    ip in t ==> Expired(t[ip], clock)
  }

  predicate SameEntry(a: Table, b: Table, ip: string) {
    (ip in a <==> ip in b) && (ip in a ==> a[ip] == b[ip])
  }

  /** The two states treat the client alike: they differ at most in an expired lockout
      while no request of the client is under way. */
  ghost predicate AlikeFor(a: Sys, b: Sys, ip: string) {
    || SameEntry(a.table, b.table, ip)
    || (InFlight(a, ip) == {} && Clean(a.table, ip, a.clock) && Clean(b.table, ip, b.clock))
  }

  ghost predicate Alike(a: Sys, b: Sys) {
    && a.clock == b.clock && a.requests == b.requests && a.sweeper == b.sweeper
    && forall ip :: AlikeFor(a, b, ip)
  }

  /** Requests of a client never overlapped: see CountIsBounded. */
  ghost predicate Alone(s: Sys) {
    forall ip :: Load(s, ip) <= 10
  }

  lemma UnderWay(a: Sys, b: Sys, r: nat)
    requires Alike(a, b) && r in a.requests
    ensures SameEntry(a.table, b.table, a.requests[r].ip)
  {
    var ip := a.requests[r].ip;
    assert r in InFlight(a, ip);
    assert AlikeFor(a, b, ip);
  }

  lemma NotLocked(s: Sys, ip: string)
    requires Alone(s) && InFlight(s, ip) != {} && ip in s.table
    ensures !Locked(s.table[ip])
  {
    assert Load(s, ip) <= 10;
    assert |InFlight(s, ip)| >= 1;
  }

  lemma TickAlike(a: Sys, b: Sys, d: nat, ip: string)
    requires Alike(a, b)
    ensures AlikeFor(Apply(a, Tick(d), true), Apply(b, Tick(d), false), ip)
  {
    assert AlikeFor(a, b, ip);
    InFlightAfter(a, Tick(d), true, ip);
  }

  lemma BeginAlike(a: Sys, b: Sys, r: nat, x: string, ip: string)
    requires Alike(a, b)
    ensures Answers(a, Begin(r, x)) == Answers(b, Begin(r, x))
    ensures Apply(a, Begin(r, x), true).requests == Apply(b, Begin(r, x), false).requests
    ensures AlikeFor(Apply(a, Begin(r, x), true), Apply(b, Begin(r, x), false), ip)
  {
    assert AlikeFor(a, b, ip) && AlikeFor(a, b, x);
    InFlightAfter(a, Begin(r, x), true, ip);
  }

  lemma RequestAlike(a: Sys, b: Sys, step: Step, ip: string)
    requires Alike(a, b) && (step.Succeed? || step.ReadClock? || step.Fail?)
    ensures AlikeFor(Apply(a, step, true), Apply(b, step, false), ip)
  {
    assert AlikeFor(a, b, ip);
    InFlightAfter(a, step, true, ip);
    if step.r in a.requests {
      UnderWay(a, b, step.r);
    }
  }

  lemma SweepAlike(a: Sys, b: Sys, step: Step, ip: string)
    requires Inv(a) && Inv(b) && Alike(a, b) && Alone(a) && (step.SweepBegin? || step.SweepEnd?)
    ensures AlikeFor(Apply(a, step, true), Apply(b, step, false), ip)
  {
    assert AlikeFor(a, b, ip);
    InFlightAfter(a, step, true, ip);
    if InFlight(a, ip) != {} && ip in a.table {
      NotLocked(a, ip);
    }
  }

  /** Whatever happens next gets the same answer with and without the sweeper's first
      rule, and leaves the states alike. */
  lemma StepAlike(a: Sys, b: Sys, step: Step)
    requires Inv(a) && Inv(b) && Alike(a, b) && Alone(a)
    ensures Answers(a, step) == Answers(b, step)
    ensures Alike(Apply(a, step, true), Apply(b, step, false))
  {
    hide AlikeFor, Inv, Alone, Check, Clear, Record, Sweep, InFlight, Blocked;
    var a', b' := Apply(a, step, true), Apply(b, step, false);
    if step.Begin? { BeginAlike(a, b, step.r, step.ip, ""); }
    forall ip ensures AlikeFor(a', b', ip) {
      match step
      case Tick(d) => TickAlike(a, b, d, ip);
      case Begin(r, x) => BeginAlike(a, b, r, x, ip);
      case SweepBegin => SweepAlike(a, b, step, ip);
      case SweepEnd => SweepAlike(a, b, step, ip);
      case _ => RequestAlike(a, b, step, ip);
    }
  }

  lemma StepAlone(s: Sys, step: Step, both: bool)
    requires Alone(s)
    requires forall ip :: |InFlight(Apply(s, step, both), ip)| <= 1
    ensures Alone(Apply(s, step, both))
  {
    hide Apply, Load, InFlight;
    forall ip ensures Load(Apply(s, step, both), ip) <= 10 {
      StepLoad(s, step, both, ip, 1);
    }
  }

  /** For requests that do not overlap, deleting expired lockouts in the sweeper cannot
      be told from leaving them to the reset in the handler: every run gives the same
      answers with the sweeper's first rule and without it. */
  lemma {:induction false} ExpirySweepIsInvisible(a: Sys, b: Sys, steps: seq<Step>)
    requires Inv(a) && Inv(b) && Alike(a, b) && Alone(a)
    requires forall ip :: AtMost(1, a, steps, ip, true)
    ensures AllAnswers(a, steps, true) == AllAnswers(b, steps, false)
    decreases |steps|
  {
    hide Apply, Answers, Inv, Alike, Alone, InFlight;
    if steps != [] {
      var a', b' := Apply(a, steps[0], true), Apply(b, steps[0], false);
      StepInv(a, steps[0], true);
      StepInv(b, steps[0], false);
      StepAlike(a, b, steps[0]);
      forall ip ensures |InFlight(a', ip)| <= 1 && AtMost(1, a', steps[1..], ip, true) {
        assert AtMost(1, a, steps, ip, true);
      }
      StepAlone(a, steps[0], true);
      ExpirySweepIsInvisible(a', b', steps[1..]);
    }
  }

  lemma SweepIsInvisible(steps: seq<Step>)
    requires forall ip :: AtMost(1, INIT, steps, ip, true)
    ensures AllAnswers(INIT, steps, true) == AllAnswers(INIT, steps, false)
  {
    assert forall ip :: AlikeFor(INIT, INIT, ip);
    forall ip ensures Load(INIT, ip) <= 10 {
      assert InFlight(INIT, ip) == {};
    }
    ExpirySweepIsInvisible(INIT, INIT, steps);
  }
}
