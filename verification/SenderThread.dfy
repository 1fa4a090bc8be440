/**
 elk_sender_thread and flush_batch_to_elk as code over a breaker and a pool, proved against the
 ElkSender functions.
 */
module SenderThread {
  import opened Wrappers
  import opened Json
  import opened Numbers
  import opened CircuitBreaker
  import opened ConnectionPool
  import opened Framing
  import opened ElkSender
  import opened ElkDelivery

  /** AsyncWriteExt::write_all under a timeout: Ok once the stream has taken everything. */
  method WriteAll(payload: string, limit: Option<nat>) returns (ok: bool, written: string)
    ensures written == Taken(payload, limit) && (ok <==> written == payload)
  {
    if limit.Some? && limit.value < |payload| {
      return false, payload[..limit.value];
    }
    return true, payload;
  }

  /**
   An empty batch is Ok without touching anything; otherwise the result says how far the flush got, with
   the stream it used and what that took.
   */
  method FlushBatchToElk(config: Config, batch: seq<Value>, pool: ConnectionPool, breaker: CircuitBreaker, io: FlushIo)
    returns (flushed: Option<Flushed>)
    requires pool.maxSize == CONNECTION_POOL_SIZE
    modifies pool, breaker
    ensures batch == [] ==> flushed == None && breaker.Abs() == old(breaker.Abs()) && pool.Abs() == old(pool.Abs())
    ensures batch != [] ==>
              && flushed == Some(FlushedAs(old(breaker.Abs()), old(pool.Abs()), io, BatchPayload(config, batch)))
              && breaker.Abs() == AfterTry(old(breaker.Abs()), io.admitAt)
              && pool.Abs() == PoolAfter(old(pool.Abs()), flushed.value.result, io.connects)
    ensures flushed.Some? ==> Truthful(flushed.value, batch, config.serialize)
    ensures flushed.Some? && flushed.value.result == Sent && NewlineFree(config.serialize) ==>
              SplitLines(flushed.value.written, []) == Texts(batch, config.serialize)
  {
    if batch == [] {
      return None;
    }
    var admitted := breaker.CanExecute(io.admitAt);
    if !admitted {
      return Some(Flushed(Rejected, None, ""));
    }
    var stream := pool.GetConnection(io.connects);
    if stream.None? {
      return Some(Flushed(NoConnection, None, ""));
    }
    var payload := BuildPayload(batch, config.serialize);
    var ok, written := WriteAll(payload, io.limit);
    if ok {
      pool.ReturnConnection(stream.value);
      return Some(Flushed(Sent, stream, written));
    } else {
      pool.DropConnection(stream.value);
      return Some(Flushed(WriteFailed, stream, written));
    }
  }

  /** The task's local variables, with its record of what it received and attempted. */
  datatype Locals = Locals(retryDelay: nat, batchBuffer: seq<Value>, lastBatchFlush: int,
                           received: seq<Value>, attempts: seq<Attempt>)

  ghost predicate Matches(s: Sender, l: Locals, breaker: Breaker, pool: Pool) {
    && l == Locals(s.retryDelay, s.buffer, s.lastFlush, s.received, s.attempts)
    && Run(s.ops) == breaker && s.pool == pool
  }

  /** A flush in the loop, the outcome it records, and the cleared buffer. */
  method FlushInLoop(config: Config, l0: Locals, pool: ConnectionPool, breaker: CircuitBreaker, branch: Branch, t: Turn,
                     ghost s: Sender) returns (l: Locals)
    requires l0.batchBuffer != [] && Matches(s, l0, breaker.Abs(), pool.Abs())
    requires pool.maxSize == CONNECTION_POOL_SIZE
    modifies pool, breaker
    ensures Matches(FlushAndRecord(config, s, branch, t), l, breaker.Abs(), pool.Abs())
  {
    RunStep(s.ops, Try(t.io.admitAt));
    ghost var tried := s.ops + [Try(t.io.admitAt)];
    var flushed := FlushBatchToElk(config, l0.batchBuffer, pool, breaker, t.io);
    l := l0.(attempts := l0.attempts + [Attempt(l0.batchBuffer, branch, flushed.value, t.checkAt, t.clearAt)]);
    if flushed.value.result != Sent {
      breaker.RecordFailure(t.recordAt);
      RunStep(tried, Fail(t.recordAt));
      if branch == OnReceive {
        l := l.(retryDelay := Capped(2 * l.retryDelay));
      }
    } else {
      breaker.RecordSuccess();
      RunStep(tried, Succeed(t.recordAt));
      if branch == OnReceive {
        l := l.(retryDelay := FIRST_DELAY);
      }
    }
    l := l.(batchBuffer := [], lastBatchFlush := t.clearAt);
  }

  /** What a pass does with the receive result. */
  method HandleReceipt(config: Config, l0: Locals, pool: ConnectionPool, breaker: CircuitBreaker, t: Turn,
                       ghost s: Sender) returns (status: Status, l: Locals)
    requires s.status == Running && Matches(s, l0, breaker.Abs(), pool.Abs())
    requires pool.maxSize == CONNECTION_POOL_SIZE
    modifies pool, breaker
    ensures Matches(OnReceipt(config, s, t), l, breaker.Abs(), pool.Abs()) && status == OnReceipt(config, s, t).status
  {
    status, l := Running, l0;
    match t.receipt {
      case Got(log) =>
        l := l.(batchBuffer := l.batchBuffer + [log], received := l.received + [log]);
        if |l.batchBuffer| >= config.batchSize || t.checkAt - l.lastBatchFlush >= config.flushInterval {
          ghost var s' := s.(buffer := l.batchBuffer, received := l.received);
          l := FlushInLoop(config, l, pool, breaker, OnReceive, t, s');
        }
      case TimedOut(shutdown) =>
        if l.batchBuffer != [] && t.checkAt - l.lastBatchFlush >= config.flushInterval {
          l := FlushInLoop(config, l, pool, breaker, OnTimeout, t, s);
        }
        if shutdown {
          status := Leaving;
        }
      case HungUp =>
        status := Leaving;
      case JoinFailed =>
        status := Aborted;
    }
  }

  lemma {:induction false} StoppedStays(config: Config, now: int, script: seq<Turn>, n: nat, m: nat)
    requires n <= m <= |script| && AfterTurns(config, now, script, n).status != Running
    ensures AfterTurns(config, now, script, m) == AfterTurns(config, now, script, n)
  {
    if n < m {
      StoppedStays(config, now, script, n, m - 1);
    }
  }

  /** One pass through the loop. */
  method Pass(config: Config, l0: Locals, pool: ConnectionPool, breaker: CircuitBreaker, t: Turn,
              ghost s: Sender) returns (status: Status, l: Locals)
    requires s.status == Running && Matches(s, l0, breaker.Abs(), pool.Abs())
    requires pool.maxSize == CONNECTION_POOL_SIZE
    modifies pool, breaker
    ensures Matches(AfterTurn(config, s, t), l, breaker.Abs(), pool.Abs()) && status == AfterTurn(config, s, t).status
  {
    hide OnReceipt, Run, After;
    status, l := Running, l0;
    if t.shutdown && t.queueEmpty {
      return Leaving, l;
    }
    RunStep(s.ops, Try(t.headAt));
    assert After(Run(s.ops), Try(t.headAt)) == AfterTry(Run(s.ops), t.headAt) by {
      TryIsAfterTry(Run(s.ops), t.headAt);
    }
    var admitted := breaker.CanExecute(t.headAt);
    if admitted {
      status, l := HandleReceipt(config, l, pool, breaker, t, Admitted(s, t));
    }
  }

  lemma TryIsAfterTry(b: Breaker, now: int)
    ensures After(b, Try(now)) == AfterTry(b, now)
  {
  }

  lemma NextTurn(config: Config, now: int, script: seq<Turn>, i: nat)
    requires i < |script|
    ensures AfterTurns(config, now, script, i + 1) == AfterTurn(config, AfterTurns(config, now, script, i), script[i])
  {
  }

  /** The while loop of the task, over a script. */
  method SenderLoop(config: Config, now: int, script: seq<Turn>,
                    breaker: CircuitBreaker, pool: ConnectionPool) returns (status: Status, l: Locals)
    requires breaker.Abs() == FRESH && pool.Abs() == EMPTY && pool.maxSize == CONNECTION_POOL_SIZE
    modifies pool, breaker
    ensures var s := AfterTurns(config, now, script, |script|);
            Matches(s, l, breaker.Abs(), pool.Abs()) && status == s.status
  {
    hide AfterTurn, After;
    status, l := Running, Locals(FIRST_DELAY, [], now, [], []);
    ghost var s := Start(now);
    var i := 0;
    while i < |script| && status == Running
      invariant i <= |script| && s == AfterTurns(config, now, script, i)
      invariant status == s.status && Matches(s, l, breaker.Abs(), pool.Abs())
    {
      hide *;
      NextTurn(config, now, script, i);
      status, l := Pass(config, l, pool, breaker, script[i], s);
      s := AfterTurn(config, s, script[i]);
      i := i + 1;
    }
    if status != Running {
      StoppedStays(config, now, script, i, |script|);
    }
  }

  /** The sender task.  The breaker is the one registered under its name, which no other task uses. */
  method ElkSenderThread(config: Config, now: int, script: seq<Turn>, finalIo: FlushIo,
                         breaker: CircuitBreaker)
    returns (status: Status, l: Locals, pool: ConnectionPool)
    requires breaker.Abs() == FRESH
    modifies breaker
    ensures fresh(pool)
    ensures var s := AfterLoop(config, AfterTurns(config, now, script, |script|), finalIo);
            status == s.status && Matches(s, l, breaker.Abs(), pool.Abs())
    ensures AllTruthful(config, l.attempts) && Timely(config, now, l.attempts)
    ensures forall c: nat ::
              Arrived(l.attempts, c, |l.attempts|) ==
              Payload(SentTexts(l.attempts, c, |l.attempts|, config.serialize)) + CutOff(l.attempts, c, |l.attempts|)
    ensures status == Finished && config.batchSize >= 1 ==> Batches(l.attempts) == l.received
  {
    WholeRun(config, now, script, finalIo);
    pool := new ConnectionPool(CONNECTION_POOL_SIZE);
    status, l := SenderLoop(config, now, script, breaker, pool);
    ghost var s := AfterTurns(config, now, script, |script|);
    if status == Leaving {
      if l.batchBuffer != [] {
        RunStep(s.ops, Try(finalIo.admitAt));
        var flushed := FlushBatchToElk(config, l.batchBuffer, pool, breaker, finalIo);
        var last := Attempt(l.batchBuffer, AtEnd, flushed.value, finalIo.admitAt, finalIo.admitAt);
        l := l.(attempts := l.attempts + [last], batchBuffer := []);
      }
      status := Finished;
    }
  }

  /** What the theorems say of the variables with which the task ends. */
  lemma WholeRun(config: Config, now: int, script: seq<Turn>, finalIo: FlushIo)
    ensures var s := AfterLoop(config, AfterTurns(config, now, script, |script|), finalIo);
            && AllTruthful(config, s.attempts) && Timely(config, now, s.attempts)
            && (forall c: nat ::
                  Arrived(s.attempts, c, |s.attempts|) ==
                  Payload(SentTexts(s.attempts, c, |s.attempts|, config.serialize)) + CutOff(s.attempts, c, |s.attempts|))
            && (s.status == Finished && config.batchSize >= 1 ==> Batches(s.attempts) == s.received)
  {
    hide AfterTurns, Flush, AllTruthful, Timely, Sound, Arrived, SentTexts, CutOff, Payload, Batches;
    var loop := AfterTurns(config, now, script, |script|);
    var s := AfterLoop(config, loop, finalIo);
    StreamsAfterRun(config, now, script, finalIo);
    NoEarlyBatch(config, now, script, finalIo);
    forall c: nat
      ensures Arrived(s.attempts, c, |s.attempts|) ==
              Payload(SentTexts(s.attempts, c, |s.attempts|, config.serialize)) + CutOff(s.attempts, c, |s.attempts|)
    {
      StreamTook(config, s.attempts, s.pool.created, s.pool.idle, c, |s.attempts|);
    }
    LoopNotFinished(config, now, script, |script|);
    if loop.status == Leaving && config.batchSize >= 1 {
      FinalFlush(config, now, script, |script|, finalIo);
    }
  }

  /** The loop itself never ends the task. */
  lemma {:induction false} LoopNotFinished(config: Config, now: int, script: seq<Turn>, n: nat)
    requires n <= |script|
    ensures AfterTurns(config, now, script, n).status != Finished
  {
    if n > 0 {
      hide Run, FlushedAs, PoolAfter;
      LoopNotFinished(config, now, script, n - 1);
    }
  }
}
