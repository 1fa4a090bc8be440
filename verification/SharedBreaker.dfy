/**
 The circuit breaker shared by any number of threads: every atomic load, store, fetch-update and
 lock section is one step, interleaved arbitrarily (sequentially consistent).
 */
module SharedBreaker {
  import opened Wrappers
  import opened Numbers
  import opened CircuitBreaker

  /** Where a thread stands.  Ready keeps the answer of its last can_execute. */
  datatype Pc =
    | Ready(answer: Option<bool>)
    // can_execute: load the state; locked look at the failure time; two stores of transition_to_half_open
    | TryLoad | TryCheck | TryHalfOpen | TryReset
    // record_success: load the state; bump one counter; clear the other; test; three stores of transition_to_closed
    | SuccessLoad | SuccessBump(seen: CircuitState) | SuccessClear(seen: CircuitState) | SuccessTest(seen: CircuitState)
    | CloseState | CloseFailures | CloseSuccesses
    // record_failure: bump one counter; clear the other; locked stamp; test; store of transition_to_open
    | FailureBump | FailureClear(count: nat) | FailureStamp(count: nat) | FailureTest(count: nat) | OpenState

  datatype System = System(b: Breaker, clock: int, threads: seq<Pc>)

  datatype Call = CanExecute | RecordSuccess | RecordFailure

  datatype Step = Start(thread: nat, call: Call) | Act(thread: nat) | Tick(duration: nat)

  function Entry(call: Call): Pc {
    match call
    case CanExecute => TryLoad
    case RecordSuccess => SuccessLoad
    case RecordFailure => FailureBump
  }

  /** One atomic action of a thread on the shared fields: the new fields and where the thread goes. */
  function Action(b: Breaker, clock: int, pc: Pc): (Breaker, Pc) {
    match pc
    case Ready(_) => (b, pc)
    case TryLoad => (b, if State(b) == Open then TryCheck else Ready(Some(true)))
    case TryCheck =>
      (b, if b.lastFailure.Some? && clock - b.lastFailure.value > TIMEOUT then TryHalfOpen else Ready(Some(false)))
    case TryHalfOpen => (b.(code := 2), TryReset)
    case TryReset => (b.(successes := 0), Ready(Some(true)))
    case SuccessLoad => (b, SuccessBump(State(b)))
    case SuccessBump(seen) => (b.(successes := Increment(b.successes)), SuccessClear(seen))
    case SuccessClear(seen) => (b.(failures := 0), SuccessTest(seen))
    case SuccessTest(seen) =>
      (b, if seen == HalfOpen && b.successes >= SUCCESS_THRESHOLD then CloseState else Ready(None))
    case CloseState => (b.(code := 0), CloseFailures)
    case CloseFailures => (b.(failures := 0), CloseSuccesses)
    case CloseSuccesses => (b.(successes := 0), Ready(None))
    case FailureBump => (b.(failures := Increment(b.failures)), FailureClear(Increment(b.failures)))
    case FailureClear(count) => (b.(successes := 0), FailureStamp(count))
    case FailureStamp(count) => (b.(lastFailure := Some(clock)), FailureTest(count))
    case FailureTest(count) =>
      (b, if count >= FAILURE_THRESHOLD && State(b) != Open then OpenState else Ready(None))
    case OpenState => (b.(code := 1), Ready(None))
  }

  /** A step of the system; a step no thread can take leaves it alone. */
  function Next(s: System, step: Step): System {
    match step
    case Start(i, call) =>
      if i < |s.threads| && s.threads[i].Ready? then s.(threads := s.threads[i := Entry(call)]) else s
    case Act(i) =>
      if i < |s.threads| then
        var (b, pc) := Action(s.b, s.clock, s.threads[i]);
        System(b, s.clock, s.threads[i := pc])
      else s
    case Tick(duration) => s.(clock := s.clock + duration)
  }

  function Execute(s: System, steps: seq<Step>): System
    decreases |steps|
  {
    if steps == [] then s else Execute(Next(s, steps[0]), steps[1..])
  }

  /** A new breaker and any number of threads, none inside a call. */
  predicate Initial(s: System) {
    s.b == FRESH && forall i :: 0 <= i < |s.threads| ==> s.threads[i].Ready?
  }

  // ----- What every interleaving keeps -----

  /** This thread has seen or made a recorded failure time. */
  predicate KnowsFailure(pc: Pc) {
    pc.FailureTest? || pc.OpenState? || pc.TryHalfOpen? || pc.TryReset?
  }

  /** This thread has bumped its counter and not yet cleared the other. */
  predicate BetweenCounters(pc: Pc) {
    pc.SuccessClear? || pc.FailureClear?
  }

  ghost predicate Inv(s: System) {
    && s.b.code <= 2
    && (s.b.code != 0 ==> s.b.lastFailure.Some?)
    && (s.b.lastFailure.Some? ==> s.b.lastFailure.value <= s.clock)
    && (forall i :: 0 <= i < |s.threads| && KnowsFailure(s.threads[i]) ==> s.b.lastFailure.Some?)
    && (s.b.failures > 0 && s.b.successes > 0 ==> exists i :: 0 <= i < |s.threads| && BetweenCounters(s.threads[i]))
  }

  lemma InvStep(s: System, step: Step)
    requires Inv(s)
    ensures Inv(Next(s, step))
  {
    var s' := Next(s, step);
    if !step.Tick? && step.thread < |s.threads| {
      var i := step.thread;
      assert s'.threads == s.threads[i := s'.threads[i]];
      if s.b.failures > 0 && s.b.successes > 0 {
        var j :| 0 <= j < |s.threads| && BetweenCounters(s.threads[j]);
        assert j != i ==> BetweenCounters(s'.threads[j]);
      }
      if s'.b.failures > 0 && s'.b.successes > 0 && BetweenCounters(s'.threads[i]) {
        assert BetweenCounters(s'.threads[i]);
      }
    }
  }

  /**
   Under every interleaving of any number of threads the state code stays in {0, 1, 2}, a breaker
   that is not closed has a recorded failure time, and the two counters are both positive only
   while some thread is between its two counter updates.
   */
  lemma {:induction false} InvAlways(s: System, steps: seq<Step>)
    requires Inv(s)
    ensures Inv(Execute(s, steps))
    decreases |steps|
  {
    if steps != [] {
      InvStep(s, steps[0]);
      InvAlways(Next(s, steps[0]), steps[1..]);
    }
  }

  /** When no call is in progress, one of the two counters is zero, whatever interleaving led here. */
  lemma QuietCounters(s: System, steps: seq<Step>)
    requires Initial(s)
    requires forall i :: 0 <= i < |Execute(s, steps).threads| ==> Execute(s, steps).threads[i].Ready?
    ensures Execute(s, steps).b.failures == 0 || Execute(s, steps).b.successes == 0
  {
    InvAlways(s, steps);
  }

  // ----- The breaker never wedges -----

  /** A failure time is written somewhere along the steps. */
  predicate StampsFailure(s: System, steps: seq<Step>)
    decreases |steps|
  {
    steps != [] && (
      || (steps[0].Act? && steps[0].thread < |s.threads| && s.threads[steps[0].thread].FailureStamp?)
      || StampsFailure(Next(s, steps[0]), steps[1..])
    )
  }

  function ActionsOf(i: nat, steps: seq<Step>): nat {
    if steps == [] then 0 else ActionsOf(i, steps[1..]) + if steps[0] == Act(i) then 1 else 0
  }

  predicate BackOffOver(s: System) {
    s.b.lastFailure.Some? ==> s.clock - s.b.lastFailure.value > TIMEOUT
  }

  /** Actions left in a can_execute that is being admitted; None when it is not. */
  function ActionsLeft(pc: Pc): Option<nat> {
    match pc
    case TryLoad => Some(4)
    case TryCheck => Some(3)
    case TryHalfOpen => Some(2)
    case TryReset => Some(1)
    case Ready(answer) => if answer == Some(true) then Some(0) else None
    case _ => None
  }

  /** Each own action brings an admitted call closer to its end, and nothing else moves it. */
  lemma OneStepCloser(s: System, step: Step, i: nat)
    requires Inv(s) && BackOffOver(s) && i < |s.threads|
    requires ActionsLeft(s.threads[i]).Some? && (s.threads[i] == TryCheck ==> s.b.lastFailure.Some?)
    requires !(step.Act? && step.thread < |s.threads| && s.threads[step.thread].FailureStamp?)
    requires !(step.Start? && step.thread == i)
    ensures var s' := Next(s, step);
            && BackOffOver(s') && |s'.threads| == |s.threads| && ActionsLeft(s'.threads[i]).Some?
            && (s'.threads[i] == TryCheck ==> s'.b.lastFailure.Some?)
            && ActionsLeft(s'.threads[i]).value <= ActionsLeft(s.threads[i]).value
            && (step == Act(i) && s.threads[i] != Ready(Some(true)) ==>
                  ActionsLeft(s'.threads[i]).value < ActionsLeft(s.threads[i]).value)
  {
  }

  lemma {:induction false} AdmittedAfterBackOff(s: System, steps: seq<Step>, i: nat)
    requires Inv(s) && BackOffOver(s) && i < |s.threads|
    requires ActionsLeft(s.threads[i]).Some? && (s.threads[i] == TryCheck ==> s.b.lastFailure.Some?)
    requires !StampsFailure(s, steps)
    requires forall call :: Start(i, call) !in steps
    ensures |Execute(s, steps).threads| == |s.threads|
    ensures ActionsLeft(Execute(s, steps).threads[i]).Some?
    ensures ActionsOf(i, steps) >= ActionsLeft(s.threads[i]).value ==> Execute(s, steps).threads[i] == Ready(Some(true))
    decreases |steps|
  {
    if steps != [] {
      var step, rest := steps[0], steps[1..];
      assert step in steps && forall call :: Start(i, call) !in rest;
      InvStep(s, step);
      OneStepCloser(s, step, i);
      AdmittedAfterBackOff(Next(s, step), rest, i);
    }
  }

  /**
   A thread that enters can_execute once the back-off has run out is admitted: as long as no new
   failure time is written, however the other threads interleave, it can never be refused, and
   four actions of its own complete the call.
   */
  lemma NeverWedges(s: System, before: seq<Step>, after: seq<Step>, i: nat)
    requires Initial(s)
    requires var now := Execute(s, before); i < |now.threads| && now.threads[i] == TryLoad && BackOffOver(now)
    requires !StampsFailure(Execute(s, before), after) && forall call :: Start(i, call) !in after
    ensures i < |Execute(Execute(s, before), after).threads|
    ensures var pc := Execute(Execute(s, before), after).threads[i];
            && pc != Ready(Some(false))
            && (ActionsOf(i, after) >= 4 ==> pc == Ready(Some(true)))
  {
    InvAlways(s, before);
    AdmittedAfterBackOff(Execute(s, before), after, i);
  }

  // ----- Uninterrupted calls are the sequential operations -----

  function ActTimes(s: System, i: nat, n: nat): System
    decreases n
  {
    if n == 0 then s else ActTimes(Next(s, Act(i)), i, n - 1)
  }

  function AsOperation(call: Call, now: int): Op {
    match call
    case CanExecute => Try(now)
    case RecordSuccess => Succeed(now)
    case RecordFailure => Fail(now)
  }

  /** The actions a call still needs at most. */
  function CallLength(pc: Pc): nat {
    match pc
    case Ready(_) => 0
    case TryLoad => 4
    case TryCheck => 3
    case TryHalfOpen => 2
    case TryReset => 1
    case SuccessLoad => 7
    case SuccessBump(_) => 6
    case SuccessClear(_) => 5
    case SuccessTest(_) => 4
    case CloseState => 3
    case CloseFailures => 2
    case CloseSuccesses => 1
    case FailureBump => 5
    case FailureClear(_) => 4
    case FailureStamp(_) => 3
    case FailureTest(_) => 2
    case OpenState => 1
  }

  /** The fields, and the answer, when a thread runs its call to the end without interruption. */
  function Finish(b: Breaker, clock: int, pc: Pc): (Breaker, Pc)
    decreases CallLength(pc)
  {
    if pc.Ready? then (b, pc)
    else
      var (b', pc') := Action(b, clock, pc);
      Finish(b', clock, pc')
  }

  lemma {:induction false} ActTimesFinishes(s: System, i: nat, n: nat)
    requires i < |s.threads| && CallLength(s.threads[i]) <= n
    ensures var (b, pc) := Finish(s.b, s.clock, s.threads[i]);
            ActTimes(s, i, n) == System(b, s.clock, s.threads[i := pc])
    decreases n
  {
    if n > 0 {
      ActTimesFinishes(Next(s, Act(i)), i, n - 1);
    }
  }

  /** A call that nobody interleaves with has exactly the effect and answer of the sequential operation. */
  lemma SoloCall(s: System, i: nat, call: Call)
    requires i < |s.threads| && s.threads[i].Ready?
    ensures var s' := ActTimes(Next(s, Start(i, call)), i, 7);
            && s'.b == After(s.b, AsOperation(call, s.clock))
            && s'.threads == s.threads[i := Ready(if call == CanExecute then Some(Admits(s.b, s.clock)) else None)]
  {
    ActTimesFinishes(Next(s, Start(i, call)), i, 7);
    match call
    case CanExecute => FinishTry(s.b, s.clock);
    case RecordSuccess => FinishSuccess(s.b, s.clock);
    case RecordFailure => FinishFailure(s.b, s.clock);
  }

  lemma FinishTry(b: Breaker, clock: int)
    ensures Finish(b, clock, TryLoad) == (AfterTry(b, clock), Ready(Some(Admits(b, clock))))
  {
    var (b', pc') := Action(b, clock, TryLoad);
    if State(b) == Open && Admits(b, clock) {
      assert Finish(b, clock, TryHalfOpen) == Finish(b.(code := 2), clock, TryReset);
    }
  }

  lemma FinishSuccess(b: Breaker, clock: int)
    ensures Finish(b, clock, SuccessLoad) == (AfterSuccess(b), Ready(None))
  {
    var seen := State(b);
    var bumped := b.(successes := Increment(b.successes));
    var cleared := bumped.(failures := 0);
    assert Finish(b, clock, SuccessLoad) == Finish(bumped, clock, SuccessClear(seen));
    assert Finish(bumped, clock, SuccessClear(seen)) == Finish(cleared, clock, SuccessTest(seen));
    if seen == HalfOpen && cleared.successes >= SUCCESS_THRESHOLD {
      var closed := cleared.(code := 0);
      assert Finish(cleared, clock, CloseState) == Finish(closed, clock, CloseFailures);
      assert Finish(closed.(failures := 0), clock, CloseSuccesses) ==
             (closed.(failures := 0, successes := 0), Ready(None));
    }
  }

  lemma FinishFailure(b: Breaker, clock: int)
    ensures Finish(b, clock, FailureBump) == (AfterFailure(b, clock), Ready(None))
  {
    var count := Increment(b.failures);
    var cleared, stamped := Breaker(b.code, count, 0, b.lastFailure), Breaker(b.code, count, 0, Some(clock));
    var bumped := b.(failures := count);
    assert Finish(b, clock, FailureBump) == Finish(bumped, clock, FailureClear(count));
    assert Finish(bumped, clock, FailureClear(count)) == Finish(cleared, clock, FailureStamp(count));
    assert Finish(cleared, clock, FailureStamp(count)) == Finish(stamped, clock, FailureTest(count));
    if count >= FAILURE_THRESHOLD && State(stamped) != Open {
      var tripped := stamped.(code := 1);
      assert Finish(stamped, clock, FailureTest(count)) == Finish(stamped, clock, OpenState);
      assert Finish(stamped, clock, OpenState) == Finish(tripped, clock, Ready(None));
    } else {
      assert Finish(stamped, clock, FailureTest(count)) == Finish(stamped, clock, Ready(None));
    }
  }
}
