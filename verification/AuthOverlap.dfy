/** What overlapping requests can do to the lockout table: runs that reach the bounds
    of AuthMachine. */
module AuthOverlap {
  import opened GoStrings
  import opened AuthSpec
  import opened AuthMachine

  function Range(lo: nat, hi: nat): (r: set<nat>)
    ensures forall x :: x in r <==> lo <= x < hi
    ensures |r| == if lo <= hi then hi - lo else 0
    decreases hi - lo
  {
    if lo >= hi then {} else {lo} + Range(lo + 1, hi)
  }

  /** `count` failures at time `t`, and the requests `lo` to `hi` past their check. */
  ghost function AtTime(t: int, ip: string, count: nat, lo: nat, hi: nat): Sys {
    var entry := Entry(count, if Locked(Entry(count, 0, 0)) then t else NO_TIME, t);
    Sys(if count == 0 then map[] else map[ip := entry], t, map r | r in Range(lo, hi) :: Checked(ip), None)
  }

  ghost function At(ip: string, count: nat, lo: nat, hi: nat): Sys {
    AtTime(0, ip, count, lo, hi)
  }

  function Begins(ip: string, lo: nat, hi: nat): seq<Step>
    decreases hi - lo
  {
    if lo >= hi then [] else [Begin(lo, ip)] + Begins(ip, lo + 1, hi)
  }

  function Outcomes(lo: nat, hi: nat): seq<Step>
    decreases hi - lo
  {
    if lo >= hi then [] else [ReadClock(lo), Fail(lo)] + Outcomes(lo + 1, hi)
  }

  /** Guesses one at a time. */
  function Guesses(ip: string, lo: nat, hi: nat): seq<Step>
    decreases hi - lo
  {
    if lo >= hi then [] else [Begin(lo, ip), ReadClock(lo), Fail(lo)] + Guesses(ip, lo + 1, hi)
  }

  lemma AtSize(t: int, ip: string, count: nat, lo: nat, hi: nat)
    requires lo <= hi
    ensures |InFlight(AtTime(t, ip, count, lo, hi), ip)| == hi - lo
  {
    assert InFlight(AtTime(t, ip, count, lo, hi), ip) == Range(lo, hi);
  }

  lemma BeginStep(t: int, ip: string, count: nat, lo: nat, hi: nat, both: bool)
    requires lo <= hi && count < 10
    ensures Apply(AtTime(t, ip, count, lo, hi), Begin(hi, ip), both) == AtTime(t, ip, count, lo, hi + 1)
  {
    hide Range;
    var s, s' := AtTime(t, ip, count, lo, hi), AtTime(t, ip, count, lo, hi + 1);
    assert !Blocked(s.table, ip, t) && Check(s.table, ip, t) == s.table;
    assert s.requests[hi := Checked(ip)] == s'.requests;
  }

  /** The oldest request reads the clock and records its failure. */
  lemma OutcomeSteps(t: int, ip: string, count: nat, lo: nat, hi: nat, both: bool)
    requires lo < hi
    ensures var s := AtTime(t, ip, count, lo, hi);
      var s1 := Apply(s, ReadClock(lo), both);
      && InFlight(s1, ip) == InFlight(s, ip)
      && Fails(s1, Fail(lo), ip)
      && Apply(s1, Fail(lo), both) == AtTime(t, ip, count + 1, lo + 1, hi)
  {
    hide Range;
    var s, s' := AtTime(t, ip, count, lo, hi), AtTime(t, ip, count + 1, lo + 1, hi);
    assert Record(s.table, ip, t) == s'.table;
    assert s.requests[lo := Failing(ip, t)] - {lo} == s'.requests;
  }

  lemma RunStep(k: nat, s: Sys, step: Step, rest: seq<Step>, ip: string, both: bool)
    requires |InFlight(s, ip)| <= k && AtMost(k, Apply(s, step, both), rest, ip, both)
    ensures AtMost(k, s, [step] + rest, ip, both)
    ensures Exec(s, [step] + rest, both) == Exec(Apply(s, step, both), rest, both)
    ensures Failures(s, [step] + rest, both, ip)
      == (if Fails(s, step, ip) then 1 else 0) + Failures(Apply(s, step, both), rest, both, ip)
    ensures NoSuccess(s, [step] + rest, both, ip)
      <==> !Succeeds(s, step, ip) && NoSuccess(Apply(s, step, both), rest, both, ip)
  {
    hide Apply, InFlight, Fails, Succeeds;
    assert ([step] + rest)[1..] == rest;
  }

  lemma {:induction false} AtMostAppend(k: nat, s: Sys, a: seq<Step>, b: seq<Step>, ip: string, both: bool)
    requires AtMost(k, s, a, ip, both) && AtMost(k, Exec(s, a, both), b, ip, both)
    ensures AtMost(k, s, a + b, ip, both)
    decreases |a|
  {
    hide Apply, InFlight;
    if a == [] {
      assert a + b == b;
    } else {
      AtMostAppend(k, Apply(s, a[0], both), a[1..], b, ip, both);
      assert (a + b)[0] == a[0] && (a + b)[1..] == a[1..] + b;
    }
  }

  lemma {:induction false} BeginsReach(k: nat, ip: string, count: nat, lo: nat, hi: nat, last: nat, both: bool)
    requires lo <= hi <= last <= lo + k && count < 10
    ensures var s, steps := At(ip, count, lo, hi), Begins(ip, hi, last);
      Exec(s, steps, both) == At(ip, count, lo, last) && AtMost(k, s, steps, ip, both)
    decreases last - hi
  {
    hide Apply, InFlight, AtTime;
    AtSize(0, ip, count, lo, hi);
    if hi < last {
      BeginsReach(k, ip, count, lo, hi + 1, last, both);
      BeginStep(0, ip, count, lo, hi, both);
      RunStep(k, At(ip, count, lo, hi), Begin(hi, ip), Begins(ip, hi + 1, last), ip, both);
    }
  }

  lemma {:induction false} OutcomesReach(k: nat, ip: string, count: nat, lo: nat, mid: nat, hi: nat, both: bool)
    requires lo <= mid <= hi <= lo + k
    ensures var s, steps := At(ip, count, lo, hi), Outcomes(lo, mid);
      Exec(s, steps, both) == At(ip, count + mid - lo, mid, hi) && AtMost(k, s, steps, ip, both)
    decreases mid - lo
  {
    hide Apply, InFlight, AtTime;
    AtSize(0, ip, count, lo, hi);
    if lo < mid {
      var s, rest := At(ip, count, lo, hi), Outcomes(lo + 1, mid);
      OutcomesReach(k, ip, count + 1, lo + 1, mid, hi, both);
      OutcomeSteps(0, ip, count, lo, hi, both);
      var s1 := Apply(s, ReadClock(lo), both);
      RunStep(k, s1, Fail(lo), rest, ip, both);
      RunStep(k, s, ReadClock(lo), [Fail(lo)] + rest, ip, both);
      assert [ReadClock(lo), Fail(lo)] + rest == [ReadClock(lo)] + ([Fail(lo)] + rest);
    }
  }

  /** One guess of a client with no other request under way, and what follows. */
  lemma OneGuess(k: nat, t: int, s: Sys, ip: string, count: nat, r: nat, rest: seq<Step>, both: bool)
    requires k >= 1 && |InFlight(s, ip)| <= k
    requires Apply(s, Begin(r, ip), both) == AtTime(t, ip, count, r, r + 1)
    requires var s' := AtTime(t, ip, count + 1, r + 1, r + 1);
      AtMost(k, s', rest, ip, both) && NoSuccess(s', rest, both, ip)
    ensures var s' := AtTime(t, ip, count + 1, r + 1, r + 1);
      var steps := [Begin(r, ip), ReadClock(r), Fail(r)] + rest;
      && Exec(s, steps, both) == Exec(s', rest, both)
      && AtMost(k, s, steps, ip, both)
      && Failures(s, steps, both, ip) == 1 + Failures(s', rest, both, ip)
      && NoSuccess(s, steps, both, ip)
  {
    hide *;
    AtSize(t, ip, count, r, r + 1);
    OutcomeSteps(t, ip, count, r, r + 1, both);
    var s1 := AtTime(t, ip, count, r, r + 1);
    var s2 := Apply(s1, ReadClock(r), both);
    NotAnOutcome(s, Begin(r, ip), ip);
    NotAnOutcome(s1, ReadClock(r), ip);
    NoSuccessByFailing(s2, Fail(r), ip);
    RunStep(k, s2, Fail(r), rest, ip, both);
    RunStep(k, s1, ReadClock(r), [Fail(r)] + rest, ip, both);
    RunStep(k, s, Begin(r, ip), [ReadClock(r)] + ([Fail(r)] + rest), ip, both);
    assert [Begin(r, ip), ReadClock(r), Fail(r)] + rest == [Begin(r, ip)] + ([ReadClock(r)] + ([Fail(r)] + rest));
  }

  lemma NotAnOutcome(s: Sys, step: Step, ip: string)
    requires !step.Fail? && !step.Succeed?
    ensures !Fails(s, step, ip) && !Succeeds(s, step, ip)
  {
  }

  lemma NoSuccessByFailing(s: Sys, step: Step, ip: string)
    requires step.Fail?
    ensures !Succeeds(s, step, ip)
  {
  }

  lemma {:induction false} GuessesReach(k: nat, t: int, ip: string, count: nat, lo: nat, hi: nat, both: bool)
    requires lo <= hi && count + hi - lo <= 10 && k >= 1
    ensures var s, steps := AtTime(t, ip, count, lo, lo), Guesses(ip, lo, hi);
      && Exec(s, steps, both) == AtTime(t, ip, count + hi - lo, hi, hi)
      && AtMost(k, s, steps, ip, both)
      && Failures(s, steps, both, ip) == hi - lo
      && NoSuccess(s, steps, both, ip)
    decreases hi - lo
  {
    hide Apply, InFlight, AtTime, Fails;
    AtSize(t, ip, count, lo, lo);
    if lo < hi {
      GuessesReach(k, t, ip, count + 1, lo + 1, hi, both);
      BeginStep(t, ip, count, lo, lo, both);
      hide Exec, AtMost, Failures, NoSuccess;
      OneGuess(k, t, AtTime(t, ip, count, lo, lo), ip, count, lo, Guesses(ip, lo + 1, hi), both);
    }
  }

  /** Nine guesses in turn, then `k` requests past the check together, of which the
      first `f` fail. */
  function Rush(ip: string, k: nat, f: nat): seq<Step> {
    Guesses(ip, 0, 9) + Begins(ip, 9, 9 + k) + Outcomes(9, 9 + f)
  }

  lemma Nothing(ip: string)
    ensures At(ip, 0, 0, 0) == INIT
  {
  }

  lemma RushReaches(ip: string, k: nat, f: nat, both: bool)
    requires 1 <= k && f <= k
    ensures Exec(INIT, Rush(ip, k, f), both) == At(ip, 9 + f, 9 + f, 9 + k)
    ensures AtMost(k, INIT, Rush(ip, k, f), ip, both)
  {
    Nothing(ip);
    hide AtTime, Begins, Outcomes, Guesses, Exec, AtMost, INIT, Failures, NoSuccess;
    GuessesReach(k, 0, ip, 0, 0, 9, both);
    BeginsReach(k, ip, 9, 9, 9, 9 + k, both);
    OutcomesReach(k, ip, 9, 9, 9 + f, 9 + k, both);
    var a, b, c := Guesses(ip, 0, 9), Begins(ip, 9, 9 + k), Outcomes(9, 9 + f);
    AtMostAppend(k, INIT, a, b, ip, both);
    ExecAppend(INIT, a, b, both);
    AtMostAppend(k, INIT, a + b, c, ip, both);
    ExecAppend(INIT, a + b, c, both);
  }

  /** The bound on counts is reached for every number of overlapping requests, so with
      two or more of them a count can pass ten. */
  lemma CountBoundIsReached(ip: string, k: nat, both: bool)
    requires k >= 1
    ensures var s := Exec(INIT, Rush(ip, k, k), both);
      && AtMost(k, INIT, Rush(ip, k, k), ip, both)
      && ip in s.table && s.table[ip].count == 9 + k
  {
    RushReaches(ip, k, k, both);
  }

  /** Nine failures, and a tenth request that reads the clock and then is held up for as
      long as a lockout lasts. */
  function HeldUp(ip: string): seq<Step> {
    Guesses(ip, 0, 9) + [Begin(9, ip), ReadClock(9), Tick(LOCKOUT)]
  }

  /** It records its failure, and ten more guesses follow at once. */
  function Burst(ip: string): seq<Step> {
    [Fail(9)] + Guesses(ip, 10, 20)
  }

  /** The state after the first part, and after the late failure. */
  ghost function Held(ip: string): Sys {
    Sys(map[ip := Entry(9, NO_TIME, 0)], LOCKOUT, map[9 := Failing(ip, 0)], None)
  }

  ghost function Lapsed(ip: string): Sys {
    Sys(map[ip := Entry(10, 0, 0)], LOCKOUT, map[], None)
  }

  lemma HeldUpReaches(ip: string, both: bool)
    ensures Exec(INIT, HeldUp(ip), both) == Held(ip) && AtMost(1, INIT, HeldUp(ip), ip, both)
  {
    var last := [Begin(9, ip), ReadClock(9), Tick(LOCKOUT)];
    var s := At(ip, 9, 9, 9);
    HoldingUp(ip, both);
    Nothing(ip);
    GuessesReach(1, 0, ip, 0, 0, 9, both);
    hide AtTime, Exec, AtMost, Guesses, Failures, NoSuccess;
    AtMostAppend(1, INIT, Guesses(ip, 0, 9), last, ip, both);
    ExecAppend(INIT, Guesses(ip, 0, 9), last, both);
  }

  lemma HoldingUp(ip: string, both: bool)
    ensures var s, last := At(ip, 9, 9, 9), [Begin(9, ip), ReadClock(9), Tick(LOCKOUT)];
      Exec(s, last, both) == Held(ip) && AtMost(1, s, last, ip, both)
  {
    var s, s1 := At(ip, 9, 9, 9), At(ip, 9, 9, 10);
    var s2 := s1.(requests := map[9 := Failing(ip, 0)]);
    BeginStep(0, ip, 9, 9, 9, both);
    AtSize(0, ip, 9, 9, 9);
    AtSize(0, ip, 9, 9, 10);
    assert s1.requests.Keys == {9};
    assert Apply(s1, ReadClock(9), both) == s2;
    assert Apply(s2, Tick(LOCKOUT), both) == Held(ip);
    OnlyRequest(s2, ip, 9);
    OnlyRequest(Held(ip), ip, 9);
    hide Apply, InFlight, AtTime;
    RunStep(1, s2, Tick(LOCKOUT), [], ip, both);
    RunStep(1, s1, ReadClock(9), [Tick(LOCKOUT)] + [], ip, both);
    RunStep(1, s, Begin(9, ip), [ReadClock(9)] + ([Tick(LOCKOUT)] + []), ip, both);
    assert [Begin(9, ip)] + ([ReadClock(9)] + ([Tick(LOCKOUT)] + [])) == [Begin(9, ip), ReadClock(9), Tick(LOCKOUT)];
  }

  lemma OnlyRequest(s: Sys, ip: string, r: nat)
    requires s.requests.Keys <= {r}
    ensures |InFlight(s, ip)| <= 1
  {
    assert InFlight(s, ip) <= {r};
    Smaller(InFlight(s, ip), r);
  }

  /** The late failure locks the client at a time long past, so the next check resets. */
  lemma LapsedRestarts(ip: string, both: bool)
    ensures Apply(Held(ip), Fail(9), both) == Lapsed(ip) && Fails(Held(ip), Fail(9), ip)
    ensures Apply(Lapsed(ip), Begin(10, ip), both) == AtTime(LOCKOUT, ip, 0, 10, 11)
  {
    hide Range;
    assert Apply(Held(ip), Fail(9), both).requests == map[];
    var s := AtTime(LOCKOUT, ip, 0, 10, 11);
    assert s.requests.Keys == {10};
    assert s.requests == map[10 := Checked(ip)];
    assert Check(Lapsed(ip).table, ip, LOCKOUT) == map[];
  }

  lemma BurstFails(ip: string, both: bool)
    ensures AtMost(1, Held(ip), Burst(ip), ip, both) && NoSuccess(Held(ip), Burst(ip), both, ip)
    ensures Failures(Held(ip), Burst(ip), both, ip) == 11
    ensures Exec(Held(ip), Burst(ip), both).clock == LOCKOUT
  {
    var t, s, guesses := LOCKOUT, Lapsed(ip), Guesses(ip, 10, 20);
    LapsedRestarts(ip, both);
    OnlyRequest(s, ip, 9);
    OnlyRequest(Held(ip), ip, 9);
    assert AtTime(t, ip, 10, 20, 20).clock == t;
    assert guesses == [Begin(10, ip), ReadClock(10), Fail(10)] + Guesses(ip, 11, 20);
    assert Burst(ip) == [Fail(9)] + guesses;
    hide *;
    GuessesReach(1, t, ip, 1, 11, 20, both);
    OneGuess(1, t, s, ip, 0, 10, Guesses(ip, 11, 20), both);
    NoSuccessByFailing(Held(ip), Fail(9), ip);
    RunStep(1, Held(ip), Fail(9), guesses, ip, both);
  }

  /** Eleven failures in no time: the bound for requests that do not overlap is reached,
      by one that read the clock before the window. */
  lemma BoundAloneIsReached(ip: string, both: bool)
    ensures var s := Exec(INIT, HeldUp(ip), both);
      && AtMost(1, INIT, HeldUp(ip) + Burst(ip), ip, both)
      && NoSuccess(s, Burst(ip), both, ip)
      && Exec(s, Burst(ip), both).clock == s.clock
      && Failures(s, Burst(ip), both, ip) == 11
  {
    HeldUpReaches(ip, both);
    BurstFails(ip, both);
    hide Exec, AtMost, NoSuccess, Failures, HeldUp, Burst;
    AtMostAppend(1, INIT, HeldUp(ip), Burst(ip), ip, both);
  }

  /** The lockout runs out, the sweeper passes, and a request that has waited since
      before the lockout fails; then the client tries again. */
  function LateFailure(ip: string): seq<Step> {
    [Tick(LOCKOUT), SweepBegin, SweepEnd, ReadClock(10), Fail(10), Begin(11, ip)]
  }

  lemma {:induction false} AnswersAppend(s: Sys, a: seq<Step>, b: seq<Step>, both: bool)
    ensures AllAnswers(s, a + b, both) == AllAnswers(s, a, both) + AllAnswers(Exec(s, a, both), b, both)
    decreases |a|
  {
    hide Apply, Answers;
    if a == [] {
      assert a + b == b;
    } else {
      AnswersAppend(Apply(s, a[0], both), a[1..], b, both);
      assert (a + b)[0] == a[0] && (a + b)[1..] == a[1..] + b;
    }
  }

  /** The states of that run. */
  ghost function LateState(ip: string, both: bool, i: nat): Sys {
    var s := At(ip, 10, 10, 11);
    var swept := Sys(if both then map[] else s.table, LOCKOUT, s.requests, None);
    var entry := if both then Entry(1, 0, LOCKOUT) else Entry(11, LOCKOUT, LOCKOUT);
    var failed := Sys(map[ip := entry], LOCKOUT, map[], None);
    match i
    case 0 => s
    case 1 => s.(clock := LOCKOUT)
    case 2 => s.(clock := LOCKOUT, sweeper := Some(LOCKOUT))
    case 3 => swept
    case 4 => swept.(requests := map[10 := Failing(ip, LOCKOUT)])
    case 5 => failed
    case _ => if both then failed.(requests := map[11 := Checked(ip)]) else failed
  }

  /** From the late failure on, the client sees that failure and, without the sweeper's
      first rule, another lockout. */
  function LateAnswer(both: bool, i: nat): seq<Answer> {
    if i == 4 then [Unauthorized(10)] else if i == 5 && !both then [TooManyRequests(11)] else []
  }

  lemma LateStep(ip: string, both: bool, i: nat)
    requires i < 6
    ensures Apply(LateState(ip, both, i), LateFailure(ip)[i], both) == LateState(ip, both, i + 1)
    ensures Answers(LateState(ip, both, i), LateFailure(ip)[i]) == LateAnswer(both, i)
  {
    hide Range;
    var s := At(ip, 10, 10, 11);
    assert s.requests.Keys == {10};
    assert s.requests == map[10 := Checked(ip)];
  }

  lemma LateSize(ip: string, both: bool, i: nat)
    ensures |InFlight(LateState(ip, both, i), ip)| <= 1
  {
    var s := At(ip, 10, 10, 11);
    assert s.requests.Keys == {10};
    var all := InFlight(LateState(ip, both, i), ip);
    assert all <= {10} || all <= {11};
    if all <= {10} { Smaller(all, 10); } else { Smaller(all, 11); }
  }

  lemma Smaller(all: set<nat>, x: nat)
    requires all <= {x}
    ensures |all| <= 1
  {
    if x in all { assert all == {x}; } else { assert all == {}; }
  }

  function AnswersFrom(both: bool, i: nat): seq<Answer>
    decreases 6 - i
  {
    if i >= 6 then [] else LateAnswer(both, i) + AnswersFrom(both, i + 1)
  }

  lemma {:induction false} LateRun(ip: string, both: bool, i: nat)
    requires i <= 6
    ensures var s, steps := LateState(ip, both, i), LateFailure(ip)[i..];
      AtMost(2, s, steps, ip, both) && AllAnswers(s, steps, both) == AnswersFrom(both, i)
    decreases 6 - i
  {
    hide Apply, Answers, InFlight, LateState, LateAnswer, LateFailure;
    LateSize(ip, both, i);
    LateLength(ip);
    if i < 6 {
      LateStep(ip, both, i);
      assert LateFailure(ip)[i..][0] == LateFailure(ip)[i] && LateFailure(ip)[i..][1..] == LateFailure(ip)[i + 1..];
      LateRun(ip, both, i + 1);
    }
  }

  lemma LateLength(ip: string)
    ensures |LateFailure(ip)| == 6
  {
  }

  /** With two overlapping requests the sweeper's first rule does show: without it the
      late failure would lock the client again. */
  lemma SweepShowsUnderOverlap(ip: string)
    ensures var run := Rush(ip, 2, 1) + LateFailure(ip);
      && AtMost(2, INIT, run, ip, true) && AtMost(2, INIT, run, ip, false)
      && AllAnswers(INIT, run, true) != AllAnswers(INIT, run, false)
  {
    hide AtMost, AllAnswers, Rush, LateFailure, AnswersFrom;
    Rushed(ip, true);
    Rushed(ip, false);
    SameRush(ip, 2, 1);
    assert |AnswersFrom(true, 0)| == 1 && |AnswersFrom(false, 0)| == 2 by { AnswerCounts(); }
  }

  lemma AnswerCounts()
    ensures |AnswersFrom(true, 0)| == 1 && |AnswersFrom(false, 0)| == 2
  {
    hide LateAnswer;
    AnswerCount(true, 0);
    AnswerCount(false, 0);
  }

  lemma {:induction false} AnswerCount(both: bool, i: nat)
    requires i <= 6
    ensures |AnswersFrom(both, i)| == (if i <= 4 then 1 else 0) + (if i <= 5 && !both then 1 else 0)
    decreases 6 - i
  {
    if i < 6 { AnswerCount(both, i + 1); }
  }

  lemma Rushed(ip: string, both: bool)
    ensures var run := Rush(ip, 2, 1) + LateFailure(ip);
      && AtMost(2, INIT, run, ip, both)
      && AllAnswers(INIT, run, both) == AllAnswers(INIT, Rush(ip, 2, 1), both) + AnswersFrom(both, 0)
  {
    hide AtMost, AllAnswers, Rush, LateFailure, AnswersFrom, Exec, At;
    RushReaches(ip, 2, 1, both);
    LateRun(ip, both, 0);
    assert LateState(ip, both, 0) == At(ip, 10, 10, 11);
    assert LateFailure(ip)[0..] == LateFailure(ip);
    AtMostAppend(2, INIT, Rush(ip, 2, 1), LateFailure(ip), ip, both);
    AnswersAppend(INIT, Rush(ip, 2, 1), LateFailure(ip), both);
  }

  /** Until the sweeper passes, the rule makes no difference. */
  lemma {:induction false} NoSweepNoDifference(s: Sys, steps: seq<Step>)
    requires forall i :: 0 <= i < |steps| ==> !steps[i].SweepEnd?
    ensures AllAnswers(s, steps, true) == AllAnswers(s, steps, false)
    decreases |steps|
  {
    hide Answers;
    if steps != [] {
      assert !steps[0].SweepEnd?;
      NoSweepNoDifference(Apply(s, steps[0], true), steps[1..]);
    }
  }

  lemma SameRush(ip: string, k: nat, f: nat)
    ensures AllAnswers(INIT, Rush(ip, k, f), true) == AllAnswers(INIT, Rush(ip, k, f), false)
  {
    NoSweepsInGuesses(ip, 0, 9);
    NoSweepsInBegins(ip, 9, 9 + k);
    NoSweepsInOutcomes(9, 9 + f);
    NoSweepNoDifference(INIT, Rush(ip, k, f));
  }

  lemma NoSweepsInGuesses(ip: string, lo: nat, hi: nat)
    ensures forall i :: 0 <= i < |Guesses(ip, lo, hi)| ==> !Guesses(ip, lo, hi)[i].SweepEnd?
    decreases hi - lo
  {
  }

  lemma NoSweepsInBegins(ip: string, lo: nat, hi: nat)
    ensures forall i :: 0 <= i < |Begins(ip, lo, hi)| ==> !Begins(ip, lo, hi)[i].SweepEnd?
    decreases hi - lo
  {
  }

  lemma NoSweepsInOutcomes(lo: nat, hi: nat)
    ensures forall i :: 0 <= i < |Outcomes(lo, hi)| ==> !Outcomes(lo, hi)[i].SweepEnd?
    decreases hi - lo
  {
  }
}
