/**
 The batching ELK sender.  Its loop is a function of a script of turns, each listing what one pass
 through the loop meets: the shared flag, the queue, the clock, and how connecting and writing went.
 Times are nanoseconds.
 */
module ElkSender {
  import opened Wrappers
  import opened Json
  import opened Numbers
  import opened CircuitBreaker
  import opened ConnectionPool
  import opened Framing

  const FIRST_DELAY: nat := 5
  const MAX_DELAY: nat := 60
  const CONNECTION_POOL_SIZE: nat := 4

  /** A validated configuration, whose batch size is at least 1, and serde_json::to_string. */
  datatype Config = Config(batchSize: nat, flushInterval: nat, serialize: Serializer)

  datatype Receipt = Got(log: Value) | TimedOut(shutdown: bool) | HungUp | JoinFailed

  /**
   How one flush goes: the time of its breaker check, whether connecting would work, and how much the
   stream takes before it fails or the write times out (None when it takes everything).
   */
  datatype FlushIo = FlushIo(admitAt: int, connects: bool, limit: Option<nat>)

  datatype Turn = Turn(shutdown: bool, queueEmpty: bool, headAt: int, receipt: Receipt,
                       checkAt: int, io: FlushIo, recordAt: int, clearAt: int)

  datatype Branch = OnReceive | OnTimeout | AtEnd
  datatype FlushResult = Rejected | NoConnection | WriteFailed | Sent

  /** What became of a flush: its result, the stream it used, and what that stream took. */
  datatype Flushed = Flushed(result: FlushResult, stream: Option<nat>, written: string)

  /** A flush with its batch, the time of the elapsed() that it followed, and the time it reset the timer. */
  datatype Attempt = Attempt(batch: seq<Value>, branch: Branch, flushed: Flushed, checkedAt: int, clearedAt: int) {
    function Result(): FlushResult {
      flushed.result
    }
  }

  /** In the loop, out of it with the final flush still to come, done, or out with an error from a failed join. */
  datatype Status = Running | Leaving | Finished | Aborted

  /** The sender's local state, with the record of what it received, attempted and asked of its breaker. */
  datatype Sender = Sender(status: Status, ops: seq<Op>, pool: Pool, retryDelay: nat, buffer: seq<Value>,
                           lastFlush: int, received: seq<Value>, attempts: seq<Attempt>)

  function Start(now: int): Sender {
    Sender(Running, [], EMPTY, FIRST_DELAY, [], now, [], [])
  }

  function Capped(delay: nat): nat {
    if delay < MAX_DELAY then delay else MAX_DELAY
  }

  // ----- One flush -----

  /** What the stream takes of a payload. */
  function Taken(payload: string, limit: Option<nat>): string {
    if limit.Some? && limit.value < |payload| then payload[..limit.value] else payload
  }

  function BatchPayload(config: Config, batch: seq<Value>): string {
    Payload(Texts(batch, config.serialize))
  }

  ghost function FlushedAs(b: Breaker, pool: Pool, io: FlushIo, payload: string): Flushed {
    var stream := Take(pool, io.connects).1;
    if !Admits(b, io.admitAt) then Flushed(Rejected, None, "")
    else if stream.None? then Flushed(NoConnection, None, "")
    else
      var written := Taken(payload, io.limit);
      Flushed(if |written| == |payload| then Sent else WriteFailed, stream, written)
  }

  ghost function PoolAfter(pool: Pool, result: FlushResult, connects: bool): Pool {
    var (taken, c) := Take(pool, connects);
    if c.None? || result == Rejected || result == NoConnection then pool
    else if result == Sent then GiveBack(taken, CONNECTION_POOL_SIZE, c.value)
    else Abandon(taken, c.value)
  }

  /** The attempt to send the buffer. */
  ghost function Tried(config: Config, s: Sender, branch: Branch, io: FlushIo, checkedAt: int, clearedAt: int): Attempt {
    Attempt(s.buffer, branch, FlushedAs(Run(s.ops), s.pool, io, BatchPayload(config, s.buffer)), checkedAt, clearedAt)
  }

  ghost function Flush(config: Config, s: Sender, branch: Branch, io: FlushIo, checkedAt: int, clearedAt: int): Sender {
    var tried := Tried(config, s, branch, io, checkedAt, clearedAt);
    s.(ops := s.ops + [Try(io.admitAt)],
       pool := PoolAfter(s.pool, tried.Result(), io.connects),
       attempts := s.attempts + [tried])
  }

  ghost function FlushAndRecord(config: Config, s: Sender, branch: Branch, t: Turn): Sender {
    var f := Flush(config, s, branch, t.io, t.checkAt, t.clearAt);
    var sent := f.attempts[|s.attempts|].Result() == Sent;
    f.(ops := f.ops + [if sent then Succeed(t.recordAt) else Fail(t.recordAt)],
       retryDelay := if branch != OnReceive then s.retryDelay
                     else if sent then FIRST_DELAY
                     else Capped(2 * s.retryDelay),
       buffer := [],
       lastFlush := t.clearAt)
  }

  // ----- One turn -----

  ghost function Admitted(s: Sender, t: Turn): Sender {
    s.(ops := s.ops + [Try(t.headAt)])
  }

  ghost function OnReceipt(config: Config, s: Sender, t: Turn): Sender {
    var due := t.checkAt - s.lastFlush >= config.flushInterval;
    match t.receipt
    case Got(log) =>
      var s' := s.(buffer := s.buffer + [log], received := s.received + [log]);
      if |s'.buffer| >= config.batchSize || due then FlushAndRecord(config, s', OnReceive, t) else s'
    case TimedOut(shutdown) =>
      var s' := if s.buffer != [] && due then FlushAndRecord(config, s, OnTimeout, t) else s;
      if shutdown then s'.(status := Leaving) else s'
    case HungUp => s.(status := Leaving)
    case JoinFailed => s.(status := Aborted)
  }

  ghost function AfterTurn(config: Config, s: Sender, t: Turn): Sender {
    if s.status != Running then s
    else if t.shutdown && t.queueEmpty then s.(status := Leaving)
    else if !Admits(Run(s.ops), t.headAt) then Admitted(s, t)
    else OnReceipt(config, Admitted(s, t), t)
  }

  /** The sender after the first n turns of a script. */
  ghost function AfterTurns(config: Config, now: int, script: seq<Turn>, n: nat): Sender
    requires n <= |script|
  {
    if n == 0 then Start(now) else AfterTurn(config, AfterTurns(config, now, script, n - 1), script[n - 1])
  }

  ghost function AfterLoop(config: Config, s: Sender, io: FlushIo): Sender {
    if s.status != Leaving then s
    else if s.buffer != [] then Flush(config, s, AtEnd, io, io.admitAt, io.admitAt).(status := Finished, buffer := [])
    else s.(status := Finished)
  }

  // ----- One turn: at most one flush -----

  /** The sender as it flushes in a turn: admitted, with what it received. */
  ghost function Ready(s: Sender, t: Turn): Sender {
    var h := Admitted(s, t);
    if t.receipt.Got? then h.(buffer := s.buffer + [t.receipt.log], received := s.received + [t.receipt.log]) else h
  }

  ghost function BranchOf(t: Turn): Branch {
    if t.receipt.Got? then OnReceive else OnTimeout
  }

  /** The turn flushes: it is admitted, and the batch is full, or not empty and due. */
  ghost predicate Flushes(config: Config, s: Sender, t: Turn) {
    && s.status == Running && !(t.shutdown && t.queueEmpty) && Admits(Run(s.ops), t.headAt)
    && (t.receipt.Got? || t.receipt.TimedOut?) && Ready(s, t).buffer != []
    && ((t.receipt.Got? && |Ready(s, t).buffer| >= config.batchSize) || t.checkAt - s.lastFlush >= config.flushInterval)
  }

  lemma TurnShape(config: Config, s: Sender, t: Turn)
    ensures var s' := AfterTurn(config, s, t);
            if Flushes(config, s, t) then
              s' == FlushAndRecord(config, Ready(s, t), BranchOf(t), t).(status := s'.status)
            else
              && s' == s.(status := s'.status, ops := s'.ops, buffer := s'.buffer, received := s'.received)
              && (s'.ops == s.ops || s'.ops == s.ops + [Try(t.headAt)])
  {
    hide FlushAndRecord, Run;
  }

  lemma RecordingOnly(config: Config, s: Sender, branch: Branch, t: Turn)
    ensures var f, r := Flush(config, s, branch, t.io, t.checkAt, t.clearAt), FlushAndRecord(config, s, branch, t);
            r.attempts == f.attempts && r.pool == f.pool
  {
    hide Tried, PoolAfter;
  }

  // ----- Exactly-once, in-order batching -----

  /** The logs of the first n attempted batches. */
  ghost function BatchesUpTo(attempts: seq<Attempt>, n: nat): seq<Value>
    requires n <= |attempts|
  {
    if n == 0 then [] else BatchesUpTo(attempts, n - 1) + attempts[n - 1].batch
  }

  ghost function Batches(attempts: seq<Attempt>): seq<Value> {
    BatchesUpTo(attempts, |attempts|)
  }

  ghost predicate SizesWithin(attempts: seq<Attempt>, batchSize: nat) {
    forall a :: a in attempts ==> 1 <= |a.batch| <= batchSize
  }

  /** Attempted batches followed by the buffer are the received logs, in order; batches have 1 to batchSize logs. */
  ghost predicate InOrder(config: Config, s: Sender) {
    && Batches(s.attempts) + s.buffer == s.received
    && |s.buffer| < config.batchSize
    && SizesWithin(s.attempts, config.batchSize)
  }

  lemma BatchesSnoc(attempts: seq<Attempt>, a: Attempt, batchSize: nat)
    ensures Batches(attempts + [a]) == Batches(attempts) + a.batch
    ensures SizesWithin(attempts, batchSize) && 1 <= |a.batch| <= batchSize ==> SizesWithin(attempts + [a], batchSize)
  {
    SameBatches(attempts, a, |attempts|);
  }

  lemma {:induction false} SameBatches(attempts: seq<Attempt>, a: Attempt, n: nat)
    requires n <= |attempts|
    ensures BatchesUpTo(attempts + [a], n) == BatchesUpTo(attempts, n)
  {
    if n > 0 {
      SameBatches(attempts, a, n - 1);
    }
  }

  lemma FlushKeepsOrder(config: Config, s: Sender, branch: Branch, t: Turn)
    requires Batches(s.attempts) + s.buffer == s.received && SizesWithin(s.attempts, config.batchSize)
    requires 1 <= |s.buffer| <= config.batchSize
    ensures InOrder(config, FlushAndRecord(config, s, branch, t))
  {
    BatchesSnoc(s.attempts, Tried(config, s, branch, t.io, t.checkAt, t.clearAt), config.batchSize);
  }

  lemma ReceiptKeepsOrder(config: Config, s: Sender, t: Turn)
    requires config.batchSize >= 1 && InOrder(config, s)
    ensures InOrder(config, OnReceipt(config, s, t))
  {
    match t.receipt
    case Got(log) =>
      var s' := s.(buffer := s.buffer + [log], received := s.received + [log]);
      assert Batches(s'.attempts) + s'.buffer == s'.received;
      FlushKeepsOrder(config, s', OnReceive, t);
    case TimedOut(_) =>
      if s.buffer != [] {
        FlushKeepsOrder(config, s, OnTimeout, t);
      }
    case HungUp =>
    case JoinFailed =>
  }

  lemma TurnKeepsOrder(config: Config, s: Sender, t: Turn)
    requires config.batchSize >= 1 && InOrder(config, s)
    ensures InOrder(config, AfterTurn(config, s, t))
  {
    var h := Admitted(s, t);
    assert InOrder(config, h) && InOrder(config, s.(status := Leaving));
    ReceiptKeepsOrder(config, h, t);
  }

  /** At every loop head the attempted batches followed by the buffer are exactly the received logs in order. */
  lemma {:induction false} ExactlyOnceInOrder(config: Config, now: int, script: seq<Turn>, n: nat)
    requires config.batchSize >= 1 && n <= |script|
    ensures InOrder(config, AfterTurns(config, now, script, n))
  {
    if n > 0 {
      ExactlyOnceInOrder(config, now, script, n - 1);
      TurnKeepsOrder(config, AfterTurns(config, now, script, n - 1), script[n - 1]);
    }
  }

  // ----- Nothing waits behind an open breaker -----

  ghost predicate NothingWaits(s: Sender) {
    && Disciplined(s.ops)
    && (State(Run(s.ops)) == Open ==> s.buffer == [])
    && (forall a :: a in s.attempts ==> a.Result() != Rejected)
  }

  lemma FlushIsAdmitted(config: Config, s: Sender, branch: Branch, t: Turn)
    requires Disciplined(s.ops) && State(Run(s.ops)) != Open
    requires forall a :: a in s.attempts ==> a.Result() != Rejected
    ensures var f := Flush(config, s, branch, t.io, t.checkAt, t.clearAt);
            && Disciplined(f.ops) && JustAdmitted(f.ops) && State(Run(f.ops)) != Open
            && (forall a :: a in f.attempts ==> a.Result() != Rejected)
    ensures NothingWaits(FlushAndRecord(config, s, branch, t))
  {
    var f := Flush(config, s, branch, t.io, t.checkAt, t.clearAt);
    RunStep(s.ops, Try(t.io.admitAt));
    assert f.ops[..|s.ops|] == s.ops;
    var r := FlushAndRecord(config, s, branch, t);
    assert r.ops[..|f.ops|] == f.ops;
  }

  lemma ReceiptNothingWaits(config: Config, s: Sender, t: Turn)
    requires NothingWaits(s) && State(Run(s.ops)) != Open
    ensures NothingWaits(OnReceipt(config, s, t))
  {
    var due := t.checkAt - s.lastFlush >= config.flushInterval;
    match t.receipt
    case Got(log) =>
      var s' := s.(buffer := s.buffer + [log], received := s.received + [log]);
      if |s'.buffer| >= config.batchSize || due {
        FlushIsAdmitted(config, s', OnReceive, t);
        assert OnReceipt(config, s, t) == FlushAndRecord(config, s', OnReceive, t);
      } else {
        assert OnReceipt(config, s, t) == s';
      }
    case TimedOut(shutdown) =>
      var s' := s;
      if s.buffer != [] && due {
        FlushIsAdmitted(config, s, OnTimeout, t);
        s' := FlushAndRecord(config, s, OnTimeout, t);
      }
      assert NothingWaits(s');
      assert OnReceipt(config, s, t) == if shutdown then s'.(status := Leaving) else s';
    case HungUp =>
    case JoinFailed =>
  }

  lemma TurnNothingWaits(config: Config, s: Sender, t: Turn)
    requires NothingWaits(s)
    ensures NothingWaits(AfterTurn(config, s, t))
  {
    var h := Admitted(s, t);
    RunStep(s.ops, Try(t.headAt));
    assert h.ops[..|s.ops|] == s.ops;
    assert NothingWaits(h) && NothingWaits(s.(status := Leaving));
    if Admits(Run(s.ops), t.headAt) {
      ReceiptNothingWaits(config, h, t);
    }
  }

  /**
   At every loop head an open breaker means an empty buffer, so the breaker check inside a flush
   never rejects one; and every outcome is recorded right after an admission, so the breaker's
   history theorems and the outage bound apply to the sender.
   */
  lemma {:induction false} NothingWaitsBehindOpenBreaker(config: Config, now: int, script: seq<Turn>, n: nat)
    requires n <= |script|
    ensures NothingWaits(AfterTurns(config, now, script, n))
  {
    if n > 0 {
      NothingWaitsBehindOpenBreaker(config, now, script, n - 1);
      TurnNothingWaits(config, AfterTurns(config, now, script, n - 1), script[n - 1]);
    }
  }

  /**
   The final flush is not rejected either, and leaves nothing behind: every received log was in exactly
   one attempted batch.
   */
  lemma FinalFlush(config: Config, now: int, script: seq<Turn>, n: nat, io: FlushIo)
    requires config.batchSize >= 1 && n <= |script| && AfterTurns(config, now, script, n).status == Leaving
    ensures var s := AfterLoop(config, AfterTurns(config, now, script, n), io);
            && s.status == Finished && s.buffer == [] && Batches(s.attempts) == s.received
            && s.received == AfterTurns(config, now, script, n).received
            && (forall a :: a in s.attempts ==> a.Result() != Rejected && 1 <= |a.batch| <= config.batchSize)
  {
    hide AfterTurns, AfterTurn, PoolAfter, Run, Batches, Disciplined;
    var s := AfterTurns(config, now, script, n);
    ExactlyOnceInOrder(config, now, script, n);
    NothingWaitsBehindOpenBreaker(config, now, script, n);
    BatchesSnoc(s.attempts, Tried(config, s, AtEnd, io, io.admitAt, io.admitAt), config.batchSize);
  }

  // ----- Back-off -----

  /** Receive-branch flush failures since the last receive-branch success. */
  ghost function FailedReceives(attempts: seq<Attempt>): nat {
    if attempts == [] then 0
    else
      var before, last := FailedReceives(attempts[..|attempts| - 1]), attempts[|attempts| - 1];
      if last.branch != OnReceive then before else if last.Result() == Sent then 0 else before + 1
  }

  ghost predicate DelayFits(s: Sender) {
    s.retryDelay == Capped(FIRST_DELAY * Pow2(FailedReceives(s.attempts)))
  }

  lemma FlushKeepsDelay(config: Config, s: Sender, branch: Branch, t: Turn)
    requires DelayFits(s)
    ensures DelayFits(FlushAndRecord(config, s, branch, t))
  {
    var a := Tried(config, s, branch, t.io, t.checkAt, t.clearAt);
    assert (s.attempts + [a])[..|s.attempts|] == s.attempts;
    var k := FailedReceives(s.attempts);
    assert Pow2(k + 1) == 2 * Pow2(k);
    assert FailedReceives(s.attempts + [a]) ==
           if branch != OnReceive then k else if a.Result() == Sent then 0 else k + 1;
    assert Pow2(0) == 1;
  }

  lemma TurnKeepsDelay(config: Config, s: Sender, t: Turn)
    requires DelayFits(s)
    ensures DelayFits(AfterTurn(config, s, t))
  {
    hide AfterTurn, FlushAndRecord, Flushes, FailedReceives, Pow2;
    TurnShape(config, s, t);
    if Flushes(config, s, t) {
      FlushKeepsDelay(config, Ready(s, t), BranchOf(t), t);
    }
  }

  /** retry_delay is min(60, 5 * 2^k); only the receive branch moves k. */
  lemma {:induction false} RetryDelayClosedForm(config: Config, now: int, script: seq<Turn>, n: nat)
    requires n <= |script|
    ensures DelayFits(AfterTurns(config, now, script, n))
  {
    if n > 0 {
      RetryDelayClosedForm(config, now, script, n - 1);
      TurnKeepsDelay(config, AfterTurns(config, now, script, n - 1), script[n - 1]);
    }
  }

  // ----- The pool under the sender -----

  ghost function WriteFailures(attempts: seq<Attempt>): nat {
    if attempts == [] then 0
    else WriteFailures(attempts[..|attempts| - 1]) + if attempts[|attempts| - 1].Result() == WriteFailed then 1 else 0
  }

  /** A pool between flushes: nothing in use, at most one connection idle, and one active count too many per leak. */
  ghost predicate AtRest(p: Pool) {
    && Conserved(p, CONNECTION_POOL_SIZE)
    && p.inUse == {} && |p.idle| <= 1
    && (p.leaked < USIZE_MAX ==> p.active == p.leaked)
  }

  lemma RestAfterFlush(p: Pool, result: FlushResult, connects: bool)
    requires AtRest(p)
    requires result == Sent || result == WriteFailed ==> p.idle != [] || connects
    ensures AtRest(PoolAfter(p, result, connects))
    ensures PoolAfter(p, result, connects).leaked == p.leaked + if result == WriteFailed then 1 else 0
  {
    var (taken, c) := Take(p, connects);
    if c.Some? && (result == Sent || result == WriteFailed) {
      TakeConserves(p, CONNECTION_POOL_SIZE, connects);
      assert taken.inUse == {c.value} && taken.idle == [];
      assert taken.inUse - {c.value} == {};
      if result == Sent {
        GiveBackConserves(taken, CONNECTION_POOL_SIZE, c.value);
      } else {
        AbandonConserves(taken, CONNECTION_POOL_SIZE, c.value);
      }
    }
  }

  /**
   Between flushes no connection is in use and at most one is idle; every dropped connection is one
   failed or timed-out write, and each leaves the active count one too high.
   */
  ghost predicate PoolSteady(s: Sender) {
    AtRest(s.pool) && s.pool.leaked == WriteFailures(s.attempts)
  }

  lemma FlushKeepsPool(config: Config, s: Sender, branch: Branch, io: FlushIo, checkedAt: int, clearedAt: int)
    requires PoolSteady(s)
    ensures PoolSteady(Flush(config, s, branch, io, checkedAt, clearedAt))
  {
    hide BatchPayload, Taken;
    var tried := Tried(config, s, branch, io, checkedAt, clearedAt);
    assert (s.attempts + [tried])[..|s.attempts|] == s.attempts;
    RestAfterFlush(s.pool, tried.Result(), io.connects);
  }

  lemma TurnKeepsPool(config: Config, s: Sender, t: Turn)
    requires PoolSteady(s)
    ensures PoolSteady(AfterTurn(config, s, t))
  {
    hide AfterTurn, Flush, FlushAndRecord, Flushes, AtRest, WriteFailures;
    TurnShape(config, s, t);
    if Flushes(config, s, t) {
      RecordingOnly(config, Ready(s, t), BranchOf(t), t);
      FlushKeepsPool(config, Ready(s, t), BranchOf(t), t.io, t.checkAt, t.clearAt);
    }
  }

  lemma {:induction false} PoolUnderSender(config: Config, now: int, script: seq<Turn>, n: nat)
    requires n <= |script|
    ensures PoolSteady(AfterTurns(config, now, script, n))
  {
    if n > 0 {
      PoolUnderSender(config, now, script, n - 1);
      TurnKeepsPool(config, AfterTurns(config, now, script, n - 1), script[n - 1]);
    }
  }

  /** The same after any whole run, the final flush included. */
  lemma PoolAfterRun(config: Config, now: int, script: seq<Turn>, finalIo: FlushIo)
    ensures PoolSteady(AfterLoop(config, AfterTurns(config, now, script, |script|), finalIo))
  {
    hide AfterTurns, Flush, WriteFailures, AtRest;
    var s := AfterTurns(config, now, script, |script|);
    PoolUnderSender(config, now, script, |script|);
    FlushKeepsPool(config, s, AtEnd, finalIo, finalIo.admitAt, finalIo.admitAt);
  }

  // ----- The clock, and the breaker bounds that follow -----

  predicate TurnClocked(t: Turn) {
    t.headAt <= t.checkAt <= t.io.admitAt <= t.recordAt <= t.clearAt
  }

  /** The clock never goes back, within a turn or from one to the next. */
  predicate Clocked(script: seq<Turn>) {
    && (forall i :: 0 <= i < |script| ==> TurnClocked(script[i]))
    && (forall i :: 0 < i < |script| ==> script[i - 1].clearAt <= script[i].headAt)
  }

  ghost predicate MonotoneUpTo(ops: seq<Op>, limit: int) {
    Monotone(ops) && forall i :: 0 <= i < |ops| ==> ops[i].now <= limit
  }

  lemma MonotoneSnoc(ops: seq<Op>, limit: int, op: Op)
    requires MonotoneUpTo(ops, limit) && limit <= op.now
    ensures MonotoneUpTo(ops + [op], op.now)
  {
  }

  lemma FlushKeepsClock(config: Config, s: Sender, branch: Branch, t: Turn)
    requires MonotoneUpTo(s.ops, t.headAt) && TurnClocked(t)
    ensures MonotoneUpTo(FlushAndRecord(config, s, branch, t).ops, t.clearAt)
  {
    MonotoneSnoc(s.ops, t.headAt, Try(t.io.admitAt));
    var r := FlushAndRecord(config, s, branch, t);
    MonotoneSnoc(s.ops + [Try(t.io.admitAt)], t.io.admitAt, r.ops[|r.ops| - 1]);
  }

  lemma LaterLimit(ops: seq<Op>, limit: int, later: int)
    requires MonotoneUpTo(ops, limit) && limit <= later
    ensures MonotoneUpTo(ops, later)
  {
  }

  lemma TurnKeepsClock(config: Config, s: Sender, t: Turn, limit: int)
    requires MonotoneUpTo(s.ops, limit) && limit <= t.headAt && TurnClocked(t)
    ensures MonotoneUpTo(AfterTurn(config, s, t).ops, t.clearAt)
  {
    hide AfterTurn, FlushAndRecord, Flushes, MonotoneUpTo;
    TurnShape(config, s, t);
    MonotoneSnoc(s.ops, limit, Try(t.headAt));
    LaterLimit(s.ops, limit, t.clearAt);
    LaterLimit(s.ops + [Try(t.headAt)], t.headAt, t.clearAt);
    if Flushes(config, s, t) {
      FlushKeepsClock(config, Ready(s, t), BranchOf(t), t);
    }
  }

  lemma {:induction false} SenderKeepsClock(config: Config, now: int, script: seq<Turn>, n: nat, at: int)
    requires Clocked(script) && n <= |script| && (n > 0 ==> script[n - 1].clearAt <= at)
    ensures MonotoneUpTo(AfterTurns(config, now, script, n).ops, at)
  {
    if n > 0 {
      SenderKeepsClock(config, now, script, n - 1, script[n - 1].headAt);
      TurnKeepsClock(config, AfterTurns(config, now, script, n - 1), script[n - 1], script[n - 1].headAt);
    }
  }

  /** A stretch of consecutive recorded flush failures that lasts T has at most 5 + T / 30 s of them. */
  lemma SenderOutageBound(config: Config, now: int, script: seq<Turn>, n: nat, first: nat, end: nat)
    requires Clocked(script) && n <= |script|
    requires var h := Outcomes(AfterTurns(config, now, script, n).ops);
             first < end <= |h| && forall i :: first <= i < end ==> h[i].Fail?
    ensures var h := Outcomes(AfterTurns(config, now, script, n).ops);
            end - first <= FAILURE_THRESHOLD + (h[end - 1].now - h[first].now) / TIMEOUT
  {
    NothingWaitsBehindOpenBreaker(config, now, script, n);
    SenderKeepsClock(config, now, script, n, if n > 0 then script[n - 1].clearAt else now);
    OutageBound(AfterTurns(config, now, script, n).ops, first, end);
  }

  // ----- Draining at shutdown and at end of input -----

  lemma {:induction false} FailureBefore(ops: seq<Op>, limit: int)
    requires MonotoneUpTo(ops, limit)
    ensures Run(ops).lastFailure.Some? ==> Run(ops).lastFailure.value <= limit
    ensures State(Run(ops)) == Open ==> Run(ops).lastFailure.Some?
  {
    if ops != [] {
      assert ops[|ops| - 1].now <= limit;
      FailureBefore(ops[..|ops| - 1], limit);
    }
  }

  /** Passes that the breaker will still skip, at 5 s or more apart. */
  ghost function SkipsLeft(b: Breaker, at: int): nat
    requires State(b) == Open ==> b.lastFailure.Some?
  {
    if Admits(b, at) then 0
    else (TIMEOUT - (at - b.lastFailure.value)) / (FIRST_DELAY * SECOND) + 1
  }

  lemma SkipShrinks(b: Breaker, at: int, next: int)
    requires State(b) == Open ==> b.lastFailure.Some?
    requires !Admits(b, at) && next - at >= FIRST_DELAY * SECOND
    ensures SkipsLeft(b, next) < SkipsLeft(b, at)
  {
  }

  lemma SkipsLeftBound(b: Breaker, at: int)
    requires State(b) == Open ==> b.lastFailure.Some? && b.lastFailure.value <= at
    ensures SkipsLeft(b, at) <= 7
  {
  }

  lemma {:induction false} DelayAtLeastFive(k: nat)
    ensures Capped(FIRST_DELAY * Pow2(k)) >= FIRST_DELAY
  {
    if k > 0 {
      DelayAtLeastFive(k - 1);
    }
  }

  /** What a pass at time `at` can rely on. */
  ghost predicate KnownFailure(b: Breaker, at: int) {
    State(b) == Open ==> b.lastFailure.Some? && b.lastFailure.value <= at
  }

  lemma KnownFailureAt(config: Config, now: int, script: seq<Turn>, n: nat)
    requires Clocked(script) && n < |script|
    ensures KnownFailure(Run(AfterTurns(config, now, script, n).ops), script[n].headAt)
  {
    SenderKeepsClock(config, now, script, n, script[n].headAt);
    FailureBefore(AfterTurns(config, now, script, n).ops, script[n].headAt);
  }

  /** One loop head of a draining sender; flag is the shutdown flag. */
  datatype Head = Head(status: Status, b: Breaker, at: int, flag: bool, queued: nat, received: nat)

  /** The head test ends the loop. */
  predicate Stops(h: Head) {
    h.flag && h.queued == 0
  }

  /**
   How one loop head leads to the next once every sender is gone: an admitted pass receives a log, or
   finds the channel disconnected; a skipped pass sleeps.
   */
  ghost predicate DrainStep(h: Head, next: Head) {
    && KnownFailure(h.b, h.at)
    && (h.flag ==> next.flag)
    && (h.status != Running ==> next.status == h.status && next.received == h.received)
    && (h.status == Running && Stops(h) ==> next.status == Leaving && next.received == h.received)
    && (h.status == Running && !Stops(h) ==>
          if !Admits(h.b, h.at)
          then && next == next.(status := Running, b := h.b, queued := h.queued, received := h.received)
               && next.at - h.at >= FIRST_DELAY * SECOND
          else if h.queued > 0
          then next == next.(status := Running, queued := h.queued - 1, received := h.received + 1)
          else next == next.(status := Leaving, received := h.received))
  }

  /** Passes the loop can still make after this one. */
  ghost function PassesLeft(h: Head): nat
    requires State(h.b) == Open ==> h.b.lastFailure.Some?
  {
    if !h.flag then 8 * h.queued + SkipsLeft(h.b, h.at)
    else if h.queued == 0 then 0
    else 8 * (h.queued - 1) + 1 + SkipsLeft(h.b, h.at)
  }

  lemma PassesShrink(h: Head, next: Head)
    requires DrainStep(h, next) && KnownFailure(next.b, next.at)
    requires h.status == Running && next.status == Running
    ensures PassesLeft(next) < PassesLeft(h)
  {
    SkipsLeftBound(next.b, next.at);
    if !Admits(h.b, h.at) {
      SkipShrinks(h.b, h.at, next.at);
    }
  }

  lemma {:induction false} DrainsWithin(heads: seq<Head>, n: nat, passes: nat)
    requires n + passes + 1 < |heads|
    requires forall i :: n <= i < |heads| - 1 ==> DrainStep(heads[i], heads[i + 1])
    requires KnownFailure(heads[n].b, heads[n].at)
    requires PassesLeft(heads[n]) <= passes
    ensures heads[n + passes + 1].status != Running
    ensures heads[n].status == Running ==>
              && heads[n + passes + 1].status == Leaving
              && heads[n + passes + 1].received == heads[n].received + heads[n].queued
    decreases passes
  {
    var h, next := heads[n], heads[n + 1];
    assert DrainStep(h, next);
    if next.status == Running {
      if passes > 0 {
        assert DrainStep(next, heads[n + 2]);
        PassesShrink(h, next);
        DrainsWithin(heads, n + 1, passes - 1);
      }
    } else {
      StaysStopped(heads, n + 1, n + passes + 1);
    }
  }

  lemma {:induction false} StaysStopped(heads: seq<Head>, n: nat, m: nat)
    requires n <= m < |heads| && heads[n].status != Running
    requires forall i :: n <= i < |heads| - 1 ==> DrainStep(heads[i], heads[i + 1])
    ensures heads[m].status == heads[n].status && heads[m].received == heads[n].received
  {
    if n < m {
      StaysStopped(heads, n, m - 1);
      assert DrainStep(heads[m - 1], heads[m]);
    }
  }

  /**
   Turn i of a drain: every sender is gone and queued[i] logs are waiting.  An admitted pass receives
   one, or finds the channel disconnected when there is none; a skipped pass sleeps for at least
   retry_delay seconds.  The flag may be clear, or come at any turn.
   */
  ghost predicate DrainTurn(config: Config, now: int, script: seq<Turn>, queued: seq<nat>, i: nat)
    requires i < |script| == |queued|
  {
    var s, t := AfterTurns(config, now, script, i), script[i];
    && (t.queueEmpty <==> queued[i] == 0)
    && (i + 1 < |script| && t.shutdown ==> script[i + 1].shutdown)
    && (s.status == Running && !(t.shutdown && t.queueEmpty) && i + 1 < |script| ==>
          if !Admits(Run(s.ops), t.headAt)
          then queued[i + 1] == queued[i] && script[i + 1].headAt - t.headAt >= s.retryDelay * SECOND
          else if queued[i] > 0 then t.receipt.Got? && queued[i + 1] == queued[i] - 1
          else t.receipt == HungUp)
  }

  ghost function HeadAt(config: Config, now: int, script: seq<Turn>, queued: seq<nat>, i: nat): Head
    requires i < |script| == |queued|
  {
    var s := AfterTurns(config, now, script, i);
    Head(s.status, Run(s.ops), script[i].headAt, script[i].shutdown, queued[i], |s.received|)
  }

  lemma TurnOfRun(config: Config, now: int, script: seq<Turn>, n: nat)
    requires n < |script|
    ensures AfterTurns(config, now, script, n + 1) == AfterTurn(config, AfterTurns(config, now, script, n), script[n])
  {
    hide AfterTurn;
  }

  lemma TurnIsDrainStep(config: Config, now: int, script: seq<Turn>, queued: seq<nat>, i: nat)
    requires Clocked(script) && i + 1 < |script| == |queued| && DrainTurn(config, now, script, queued, i)
    ensures DrainStep(HeadAt(config, now, script, queued, i), HeadAt(config, now, script, queued, i + 1))
  {
    hide KnownFailure, Clocked, AfterTurns, Run, FlushAndRecord, FailedReceives, Pow2;
    var s, t := AfterTurns(config, now, script, i), script[i];
    KnownFailureAt(config, now, script, i);
    RetryDelayClosedForm(config, now, script, i);
    DelayAtLeastFive(FailedReceives(s.attempts));
    RunStep(s.ops, Try(t.headAt));
    TurnOfRun(config, now, script, i);
    if t.receipt.Got? {
      var h := Admitted(s, t);
      FlushOnly(config, h.(buffer := h.buffer + [t.receipt.log], received := h.received + [t.receipt.log]), OnReceive, t);
    }
  }

  lemma FlushOnly(config: Config, s: Sender, branch: Branch, t: Turn)
    ensures FlushAndRecord(config, s, branch, t).status == s.status && FlushAndRecord(config, s, branch, t).received == s.received
  {
  }

  ghost function Heads(config: Config, now: int, script: seq<Turn>, queued: seq<nat>): (heads: seq<Head>)
    requires |script| == |queued|
    ensures |heads| == |script|
    ensures forall i :: 0 <= i < |script| ==> heads[i] == HeadAt(config, now, script, queued, i)
  {
    seq(|script|, i requires 0 <= i < |script| => HeadAt(config, now, script, queued, i))
  }

  /**
   The drain bound: once the senders are gone and q logs are queued, the loop makes at most 8 * q more
   passes when shutdown is set (7 skipped ones and 1 receive for each log, before its head test ends
   it), and at most 8 * (q + 1) when it is not (then a pass that finds the channel disconnected ends
   it).  Either way it ends with all q logs received and its final flush to come.
   */
  lemma DrainBound(config: Config, now: int, script: seq<Turn>, queued: seq<nat>, n: nat)
    requires Clocked(script) && n < |script| == |queued|
    requires n + (if script[n].shutdown then 8 * queued[n] + 1 else 8 * (queued[n] + 1)) < |script|
    requires forall i :: n <= i < |script| ==> DrainTurn(config, now, script, queued, i)
    ensures var m := n + if script[n].shutdown then 8 * queued[n] + 1 else 8 * (queued[n] + 1);
            var s, end := AfterTurns(config, now, script, n), AfterTurns(config, now, script, m);
            && end.status != Running
            && (s.status == Running ==> end.status == Leaving && |end.received| == |s.received| + queued[n])
  {
    hide DrainTurn, DrainStep, AfterTurn, AfterTurns, Clocked, KnownFailure;
    var heads := Heads(config, now, script, queued);
    forall i | n <= i < |heads| - 1
      ensures DrainStep(heads[i], heads[i + 1])
    {
      TurnIsDrainStep(config, now, script, queued, i);
    }
    KnownFailureAt(config, now, script, n);
    FewPassesLeft(heads[n]);
    DrainsWithin(heads, n, if script[n].shutdown then 8 * queued[n] else 8 * queued[n] + 7);
  }

  lemma FewPassesLeft(h: Head)
    requires KnownFailure(h.b, h.at)
    ensures PassesLeft(h) <= if h.flag then 8 * h.queued else 8 * h.queued + 7
  {
    SkipsLeftBound(h.b, h.at);
  }

  /** Skipped heads in a row use up the skips the breaker has left. */
  lemma {:induction false} SkipsInARow(heads: seq<Head>, n: nat, m: nat)
    requires n + m < |heads| && KnownFailure(heads[n].b, heads[n].at)
    requires forall i :: n <= i <= n + m ==> KnownFailure(heads[i].b, heads[i].at)
    requires forall i :: n <= i < n + m ==>
               && DrainStep(heads[i], heads[i + 1]) && heads[i].status == Running && !Stops(heads[i])
               && !Admits(heads[i].b, heads[i].at)
    ensures KnownFailure(heads[n + m].b, heads[n + m].at) && SkipsLeft(heads[n + m].b, heads[n + m].at) + m <= 7
  {
    if m == 0 {
      SkipsLeftBound(heads[n].b, heads[n].at);
    } else {
      SkipsInARow(heads, n, m - 1);
      var h, next := heads[n + m - 1], heads[n + m];
      assert DrainStep(h, next);
      SkipShrinks(h.b, h.at, next.at);
    }
  }

  lemma OneAdmitted(heads: seq<Head>, n: nat)
    requires n + 7 < |heads| && forall i :: n <= i < n + 8 ==> KnownFailure(heads[i].b, heads[i].at)
    requires forall i :: n <= i < n + 7 ==>
               DrainStep(heads[i], heads[i + 1]) && heads[i].status == Running && !Stops(heads[i])
    ensures exists i :: n <= i < n + 8 && Admits(heads[i].b, heads[i].at)
  {
    hide DrainStep, KnownFailure, SkipsLeft, Admits;
    if forall i :: n <= i < n + 7 ==> !Admits(heads[i].b, heads[i].at) {
      SkipsInARow(heads, n, 7);
      NoSkipsLeft(heads[n + 7]);
    }
  }

  /** An open breaker skips at most seven passes in a row: of any eight passes of a drain one is admitted. */
  lemma AtMostSevenSkips(config: Config, now: int, script: seq<Turn>, queued: seq<nat>, n: nat)
    requires Clocked(script) && n + 7 < |script| == |queued|
    requires forall i :: n <= i < n + 8 ==>
               && DrainTurn(config, now, script, queued, i) && AfterTurns(config, now, script, i).status == Running
               && !(script[i].shutdown && script[i].queueEmpty)
    ensures exists i :: n <= i < n + 8 && Admits(Run(AfterTurns(config, now, script, i).ops), script[i].headAt)
  {
    hide DrainStep, AfterTurn, AfterTurns, Clocked, KnownFailure, Admits, Run;
    var heads := Heads(config, now, script, queued);
    forall i | n <= i < n + 8
      ensures KnownFailure(heads[i].b, heads[i].at) && heads[i].status == Running && !Stops(heads[i])
    {
      KnownFailureAt(config, now, script, i);
      assert DrainTurn(config, now, script, queued, i);
    }
    forall i | n <= i < n + 7
      ensures DrainStep(heads[i], heads[i + 1])
    {
      TurnIsDrainStep(config, now, script, queued, i);
    }
    OneAdmitted(heads, n);
    var i :| n <= i < n + 8 && Admits(heads[i].b, heads[i].at);
    assert Admits(Run(AfterTurns(config, now, script, i).ops), script[i].headAt);
  }

  lemma NoSkipsLeft(h: Head)
    requires KnownFailure(h.b, h.at) && SkipsLeft(h.b, h.at) <= 0
    ensures Admits(h.b, h.at)
  {
  }
}
