/**
 The circuit breaker: its operations as code over counters and a state code, and its meaning in
 terms of the outcomes recorded through it.  Times are nanoseconds.
 */
module CircuitBreaker {
  import opened Wrappers
  import opened Numbers

  const FAILURE_THRESHOLD: nat := 5
  const TIMEOUT: int := 30_000_000_000
  const SUCCESS_THRESHOLD: nat := 3

  datatype CircuitState = Closed | Open | HalfOpen

  /** CircuitBreaker::state: an unknown code reads as Closed. */
  function Decode(code: nat): CircuitState {
    if code == 1 then Open else if code == 2 then HalfOpen else Closed
  }

  function Increment(n: nat): nat {
    if n < USIZE_MAX then n + 1 else n
  }

  /** The fields of a breaker. */
  datatype Breaker = Breaker(code: nat, failures: nat, successes: nat, lastFailure: Option<int>)

  const FRESH := Breaker(0, 0, 0, None)

  function State(b: Breaker): CircuitState {
    Decode(b.code)
  }

  predicate Admits(b: Breaker, now: int) {
    State(b) != Open || (b.lastFailure.Some? && now - b.lastFailure.value > TIMEOUT)
  }

  function AfterTry(b: Breaker, now: int): Breaker {
    if State(b) == Open && Admits(b, now) then b.(code := 2, successes := 0) else b
  }

  function AfterSuccess(b: Breaker): Breaker {
    var s := Increment(b.successes);
    if State(b) == HalfOpen && s >= SUCCESS_THRESHOLD then Breaker(0, 0, 0, b.lastFailure)
    else b.(failures := 0, successes := s)
  }

  function AfterFailure(b: Breaker, now: int): Breaker {
    var f := Increment(b.failures);
    Breaker(if f >= FAILURE_THRESHOLD && State(b) != Open then 1 else b.code, f, 0, Some(now))
  }

  class CircuitBreaker {
    var code: nat
    var failureCount: nat
    var successCount: nat
    var lastFailureTime: Option<int>

    ghost function Abs(): Breaker
      reads this
    {
      Breaker(code, failureCount, successCount, lastFailureTime)
    }

    constructor ()
      ensures Abs() == FRESH
    {
      code, failureCount, successCount, lastFailureTime := 0, 0, 0, None;
    }

    method CanExecute(now: int) returns (admitted: bool)
      modifies this
      ensures admitted == Admits(old(Abs()), now) && Abs() == AfterTry(old(Abs()), now)
      ensures admitted <==> old(State(Abs())) != Open
                            || (old(lastFailureTime).Some? && now - old(lastFailureTime).value > 30 * SECOND)
    {
      match Decode(code) {
        case Closed => admitted := true;
        case HalfOpen => admitted := true;
        case Open =>
          match lastFailureTime {
            case Some(last) =>
              if now - last > TIMEOUT {
                TransitionToHalfOpen();
                admitted := true;
              } else {
                admitted := false;
              }
            case None => admitted := false;
          }
      }
    }

    method RecordSuccess()
      modifies this
      ensures Abs() == AfterSuccess(old(Abs()))
    {
      var current := Decode(code);
      successCount := Increment(successCount);
      failureCount := 0;
      if current == HalfOpen && successCount >= SUCCESS_THRESHOLD {
        TransitionToClosed();
      }
    }

    method RecordFailure(now: int)
      modifies this
      ensures Abs() == AfterFailure(old(Abs()), now)
    {
      failureCount := Increment(failureCount);
      var failures := failureCount;
      successCount := 0;
      lastFailureTime := Some(now);
      if failures >= FAILURE_THRESHOLD {
        match Decode(code) {
          case Closed => TransitionToOpen();
          case HalfOpen => TransitionToOpen();
          case Open =>
        }
      }
    }

    method TransitionToClosed()
      modifies this
      ensures Abs() == Breaker(0, 0, 0, old(lastFailureTime))
    {
      code, failureCount, successCount := 0, 0, 0;
    }

    method TransitionToOpen()
      modifies this`code
      ensures code == 1
    {
      code := 1;
    }

    method TransitionToHalfOpen()
      modifies this`code, this`successCount
      ensures code == 2 && successCount == 0
    {
      code, successCount := 2, 0;
    }
  }

  // ----- Runs -----

  datatype Op = Try(now: int) | Succeed(now: int) | Fail(now: int)

  ghost function After(b: Breaker, op: Op): Breaker {
    match op
    case Try(now) => AfterTry(b, now)
    case Succeed(_) => AfterSuccess(b)
    case Fail(now) => AfterFailure(b, now)
  }

  /** The breaker after a run of operations on a new one. */
  ghost function Run(ops: seq<Op>): Breaker {
    if ops == [] then FRESH else After(Run(ops[..|ops| - 1]), ops[|ops| - 1])
  }

  /** The recorded outcomes of a run. */
  ghost function Outcomes(ops: seq<Op>): seq<Op> {
    if ops == [] then []
    else
      var before, last := Outcomes(ops[..|ops| - 1]), ops[|ops| - 1];
      if last.Try? then before else before + [last]
  }

  /** The last operation asked for permission and got it. */
  ghost predicate JustAdmitted(ops: seq<Op>) {
    ops != [] && ops[|ops| - 1].Try? && Admits(Run(ops[..|ops| - 1]), ops[|ops| - 1].now)
  }

  /** Every outcome is recorded right after can_execute returned true. */
  ghost predicate Disciplined(ops: seq<Op>) {
    ops != [] ==>
      var init := ops[..|ops| - 1];
      Disciplined(init) && (!ops[|ops| - 1].Try? ==> JustAdmitted(init))
  }

  ghost predicate Monotone(ops: seq<Op>) {
    forall i, j :: 0 <= i < j < |ops| ==> ops[i].now <= ops[j].now
  }

  // ----- The meaning, from the outcomes alone -----

  /** The run of failures that ends at position n of the history. */
  ghost function FailuresUpTo(h: seq<Op>, n: nat): nat
    requires n <= |h|
  {
    if n == 0 || !h[n - 1].Fail? then 0 else FailuresUpTo(h, n - 1) + 1
  }

  /** The run of successes that ends at position n of the history. */
  ghost function SuccessesUpTo(h: seq<Op>, n: nat): nat
    requires n <= |h|
  {
    if n == 0 || !h[n - 1].Succeed? then 0 else SuccessesUpTo(h, n - 1) + 1
  }

  ghost function TrailingFailures(h: seq<Op>): nat {
    FailuresUpTo(h, |h|)
  }

  ghost function TrailingSuccesses(h: seq<Op>): nat {
    SuccessesUpTo(h, |h|)
  }

  ghost predicate NoRecovery(h: seq<Op>, from: nat) {
    forall j :: from <= j <= |h| ==> SuccessesUpTo(h, j) < SUCCESS_THRESHOLD
  }

  /** At some point five failures in a row were recorded, and at no point since then three successes in a row. */
  ghost predicate Tripped(h: seq<Op>) {
    exists i :: 0 <= i <= |h| && FailuresUpTo(h, i) >= FAILURE_THRESHOLD && NoRecovery(h, i)
  }

  /** A call was admitted since the last outcome. */
  ghost predicate Probing(ops: seq<Op>) {
    ops != [] && ops[|ops| - 1].Try? && (JustAdmitted(ops) || Probing(ops[..|ops| - 1]))
  }

  ghost function LastFailureAt(h: seq<Op>): Option<int> {
    if h == [] then None
    else if h[|h| - 1].Fail? then Some(h[|h| - 1].now)
    else LastFailureAt(h[..|h| - 1])
  }

  lemma {:induction false} RunsOfPrefix(h: seq<Op>, o: Op, n: nat)
    requires n <= |h|
    ensures FailuresUpTo(h + [o], n) == FailuresUpTo(h, n) && SuccessesUpTo(h + [o], n) == SuccessesUpTo(h, n)
  {
    if n > 0 {
      RunsOfPrefix(h, o, n - 1);
    }
  }

  lemma TrailingStep(h: seq<Op>, o: Op)
    ensures TrailingFailures(h + [o]) == if o.Fail? then TrailingFailures(h) + 1 else 0
    ensures TrailingSuccesses(h + [o]) == if o.Succeed? then TrailingSuccesses(h) + 1 else 0
    ensures LastFailureAt(h + [o]) == if o.Fail? then Some(o.now) else LastFailureAt(h)
  {
    RunsOfPrefix(h, o, |h|);
    assert (h + [o])[..|h|] == h;
  }

  lemma NoRecoveryStep(h: seq<Op>, o: Op, from: nat)
    requires from <= |h|
    ensures NoRecovery(h + [o], from) <==> NoRecovery(h, from) && TrailingSuccesses(h + [o]) < SUCCESS_THRESHOLD
  {
    var h' := h + [o];
    forall j | from <= j <= |h|
      ensures SuccessesUpTo(h', j) == SuccessesUpTo(h, j)
    {
      RunsOfPrefix(h, o, j);
    }
    if NoRecovery(h', from) {
      assert SuccessesUpTo(h', |h'|) < SUCCESS_THRESHOLD;
    }
  }

  lemma TrippedStep(h: seq<Op>, o: Op)
    ensures Tripped(h + [o]) <==>
            TrailingFailures(h + [o]) >= FAILURE_THRESHOLD
            || (Tripped(h) && TrailingSuccesses(h + [o]) < SUCCESS_THRESHOLD)
  {
    var h' := h + [o];
    if Tripped(h') {
      var i :| 0 <= i <= |h'| && FailuresUpTo(h', i) >= FAILURE_THRESHOLD && NoRecovery(h', i);
      if i <= |h| {
        NoRecoveryStep(h, o, i);
        RunsOfPrefix(h, o, i);
      }
    }
    if TrailingFailures(h') >= FAILURE_THRESHOLD {
      TrippedNow(h');
    } else if Tripped(h) && TrailingSuccesses(h') < SUCCESS_THRESHOLD {
      var i :| 0 <= i <= |h| && FailuresUpTo(h, i) >= FAILURE_THRESHOLD && NoRecovery(h, i);
      NoRecoveryStep(h, o, i);
      RunsOfPrefix(h, o, i);
      assert FailuresUpTo(h', i) >= FAILURE_THRESHOLD;
    }
  }

  lemma TrippedNow(h: seq<Op>)
    requires TrailingFailures(h) >= FAILURE_THRESHOLD
    ensures Tripped(h)
  {
    assert FailuresUpTo(h, |h|) >= FAILURE_THRESHOLD;
    assert NoRecovery(h, |h|);
  }

  ghost predicate Refines(b: Breaker, ops: seq<Op>) {
    var h := Outcomes(ops);
    && b.failures == (if TrailingFailures(h) < USIZE_MAX then TrailingFailures(h) else USIZE_MAX)
    && b.lastFailure == LastFailureAt(h)
    && b.code <= 2
    && (State(b) == Closed <==> !Tripped(h))
    && (State(b) == Open <==> TrailingFailures(h) >= FAILURE_THRESHOLD && !Probing(ops))
    && (State(b) == HalfOpen ==> b.successes == TrailingSuccesses(h) < SUCCESS_THRESHOLD)
    && (b.failures == 0 || b.successes == 0)
  }

  lemma RunStep(ops: seq<Op>, op: Op)
    ensures Run(ops + [op]) == After(Run(ops), op)
    ensures Outcomes(ops + [op]) == if op.Try? then Outcomes(ops) else Outcomes(ops) + [op]
    ensures Probing(ops + [op]) <==> op.Try? && (Admits(Run(ops), op.now) || Probing(ops))
  {
    assert (ops + [op])[..|ops|] == ops;
  }

  lemma RefinesStep(ops: seq<Op>, op: Op)
    requires Refines(Run(ops), ops) && (op.Try? || JustAdmitted(ops))
    ensures Refines(Run(ops + [op]), ops + [op])
  {
    hide Run, Outcomes, Probing, JustAdmitted, Tripped, TrailingFailures, TrailingSuccesses, LastFailureAt;
    RunStep(ops, op);
    OneKindTrails(Outcomes(ops));
    if !op.Try? {
      TrippedStep(Outcomes(ops), op);
      TrailingStep(Outcomes(ops), op);
      AdmittedIsProbing(ops);
    }
  }

  lemma OneKindTrails(h: seq<Op>)
    ensures TrailingFailures(h) == 0 || TrailingSuccesses(h) == 0
  {
  }

  lemma AdmittedIsProbing(ops: seq<Op>)
    requires JustAdmitted(ops)
    ensures Probing(ops)
  {
  }

  /**
   The breaker refines its outcome history.  For every disciplined run: failure_count is the
   (saturated) trailing run of failures; the breaker is away from Closed exactly when the history is
   tripped, and Open exactly when the trailing run has at least five failures and nothing was
   admitted since; half-open it counts the consecutive successes; one of the counters is zero.
   */
  lemma {:induction false} BreakerRefinesHistory(ops: seq<Op>)
    requires Disciplined(ops)
    ensures Refines(Run(ops), ops)
  {
    if ops == [] {
    } else {
      var init, op := ops[..|ops| - 1], ops[|ops| - 1];
      BreakerRefinesHistory(init);
      RefinesStep(init, op);
      assert ops == init + [op];
    }
  }

  /** Right after a recorded failure the breaker is Open exactly when the trailing run has five failures. */
  lemma OpenAfterFifthFailure(ops: seq<Op>, now: int)
    requires Disciplined(ops + [Fail(now)])
    ensures State(Run(ops + [Fail(now)])) == Open <==>
            TrailingFailures(Outcomes(ops + [Fail(now)])) >= FAILURE_THRESHOLD
  {
    BreakerRefinesHistory(ops + [Fail(now)]);
  }

  /** A half-open breaker recloses at exactly the third consecutive success. */
  lemma RecloseAtThirdSuccess(ops: seq<Op>, now: int)
    requires Disciplined(ops + [Succeed(now)]) && State(Run(ops)) == HalfOpen
    ensures State(Run(ops + [Succeed(now)])) == Closed <==>
            TrailingSuccesses(Outcomes(ops + [Succeed(now)])) == SUCCESS_THRESHOLD
  {
    assert (ops + [Succeed(now)])[..|ops|] == ops;
    BreakerRefinesHistory(ops);
    RunStep(ops, Succeed(now));
    TrailingStep(Outcomes(ops), Succeed(now));
  }

  // ----- The outage bound -----

  /** Times strictly inside the back-off: a failure after five others came more than 30 s after the one before it. */
  ghost predicate Spaced(h: seq<Op>) {
    forall p :: 1 <= p < |h| && h[p].Fail? && FailuresUpTo(h, p) >= FAILURE_THRESHOLD ==>
      h[p].now - h[p - 1].now > TIMEOUT
  }

  /** Spaced so far, and a half-open breaker that has seen no success yet has sat out its back-off. */
  ghost predicate BackedOff(ops: seq<Op>) {
    var h := Outcomes(ops);
    && Spaced(h)
    && (State(Run(ops)) == HalfOpen && TrailingFailures(h) >= FAILURE_THRESHOLD ==>
          && ops != [] && LastFailureAt(h).Some?
          && ops[|ops| - 1].now - LastFailureAt(h).value > TIMEOUT)
  }

  lemma SpacedSnoc(h: seq<Op>, o: Op)
    requires Spaced(h)
    requires o.Fail? && TrailingFailures(h) >= FAILURE_THRESHOLD ==> o.now - h[|h| - 1].now > TIMEOUT
    ensures Spaced(h + [o])
  {
    var h' := h + [o];
    forall p | 1 <= p < |h'| && h'[p].Fail? && FailuresUpTo(h', p) >= FAILURE_THRESHOLD
      ensures h'[p].now - h'[p - 1].now > TIMEOUT
    {
      RunsOfPrefix(h, o, p);
    }
  }

  lemma BackedOffTry(ops: seq<Op>, now: int)
    requires Refines(Run(ops), ops) && BackedOff(ops)
    requires ops != [] ==> ops[|ops| - 1].now <= now
    ensures BackedOff(ops + [Try(now)])
  {
    RunStep(ops, Try(now));
  }

  lemma BackedOffOutcome(ops: seq<Op>, op: Op)
    requires Refines(Run(ops), ops) && BackedOff(ops)
    requires !op.Try? && JustAdmitted(ops) && ops[|ops| - 1].now <= op.now
    ensures BackedOff(ops + [op])
  {
    var h := Outcomes(ops);
    RunStep(ops, op);
    RefinesStep(ops, op);
    if TrailingFailures(h) >= FAILURE_THRESHOLD {
      TrippedNow(h);
      assert Probing(ops);
    }
    TrailingStep(h, op);
    LastFailureOfRun(h);
    SpacedSnoc(h, op);
  }

  lemma LastFailureOfRun(h: seq<Op>)
    ensures TrailingFailures(h) > 0 ==> LastFailureAt(h) == Some(h[|h| - 1].now)
  {
  }

  lemma {:induction false} BreakerBacksOff(ops: seq<Op>)
    requires Disciplined(ops) && Monotone(ops)
    ensures BackedOff(ops)
  {
    if ops != [] {
      var init, op := ops[..|ops| - 1], ops[|ops| - 1];
      assert ops == init + [op];
      BreakerBacksOff(init);
      BreakerRefinesHistory(init);
      if op.Try? {
        BackedOffTry(init, op.now);
      } else {
        BackedOffOutcome(init, op);
      }
    }
  }

  lemma {:induction false} StretchIsTrailing(h: seq<Op>, first: nat, end: nat)
    requires first <= end <= |h| && forall i :: first <= i < end ==> h[i].Fail?
    ensures FailuresUpTo(h, end) >= end - first
  {
    if first < end {
      StretchIsTrailing(h, first, end - 1);
    }
  }

  lemma {:induction false} OutcomesInOrder(ops: seq<Op>)
    requires Monotone(ops)
    ensures Monotone(Outcomes(ops))
    ensures forall o :: o in Outcomes(ops) ==> o.now <= ops[|ops| - 1].now
  {
    if ops != [] {
      OutcomesInOrder(ops[..|ops| - 1]);
    }
  }

  /**
   The outage bound: with a monotone clock, a stretch of n consecutive recorded failures that lasts
   T from its first to its last has n <= 5 + T / 30 s.
   */
  lemma {:induction false} OutageBound(ops: seq<Op>, first: nat, end: nat)
    requires Disciplined(ops) && Monotone(ops)
    requires first < end <= |Outcomes(ops)| && forall i :: first <= i < end ==> Outcomes(ops)[i].Fail?
    ensures end - first <= FAILURE_THRESHOLD + (Outcomes(ops)[end - 1].now - Outcomes(ops)[first].now) / TIMEOUT
  {
    BreakerBacksOff(ops);
    OutcomesInOrder(ops);
    if end - first > FAILURE_THRESHOLD {
      OutageLasts(Outcomes(ops), first, end);
    }
  }

  lemma {:induction false} OutageLasts(h: seq<Op>, first: nat, end: nat)
    requires Spaced(h) && Monotone(h)
    requires first + FAILURE_THRESHOLD <= end <= |h| && forall i :: first <= i < end ==> h[i].Fail?
    ensures h[end - 1].now - h[first].now >= (end - first - FAILURE_THRESHOLD) * TIMEOUT
  {
    if first + FAILURE_THRESHOLD < end {
      OutageLasts(h, first, end - 1);
      StretchIsTrailing(h, first, end - 1);
    }
  }
}
