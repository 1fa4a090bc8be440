/**
 What the sender's flushes come to: what its streams take and in which order, when a partial batch goes
 out, and how the sender fares when everything or nothing works.
 */
module ElkDelivery {
  import opened Wrappers
  import opened Json
  import opened CircuitBreaker
  import opened ConnectionPool
  import opened Framing
  import opened ElkSender

  // ----- What a result says about the write -----

  /**
   Sent says that a stream took the whole payload, WriteFailed that it took less, and the other two that
   no stream was used.  What was written is the beginning of the payload in any case.
   */
  predicate Truthful(f: Flushed, batch: seq<Value>, serialize: Serializer) {
    var payload := Payload(Texts(batch, serialize));
    && f.written <= payload
    && (f.result == Sent <==> f.stream.Some? && f.written == payload)
    && (f.result == WriteFailed <==> f.stream.Some? && f.written != payload)
    && (f.stream.None? ==> f.written == "")
  }

  lemma FlushedTruthfully(b: Breaker, pool: Pool, io: FlushIo, batch: seq<Value>, serialize: Serializer)
    ensures Truthful(FlushedAs(b, pool, io, Payload(Texts(batch, serialize))), batch, serialize)
  {
  }

  // ----- The streams -----

  /** Every attempt is truthful. */
  ghost predicate AllTruthful(config: Config, attempts: seq<Attempt>) {
    forall a :: a in attempts ==> Truthful(a.flushed, a.batch, config.serialize)
  }

  /** A stream that once took less than it was given is never used again, and none that did is idle. */
  ghost predicate Sound(attempts: seq<Attempt>, created: nat, idle: seq<nat>) {
    && (forall i :: 0 <= i < |attempts| ==> UsesStream(attempts[i], created))
    && (forall i, j :: 0 <= i < j < |attempts| && SameStream(attempts[i], attempts[j]) ==> attempts[i].Result() == Sent)
    && (forall i :: 0 <= i < |attempts| && Uses(attempts[i], idle) ==> attempts[i].Result() == Sent)
  }

  predicate UsesStream(a: Attempt, created: nat) {
    a.flushed.stream.Some? ==> a.flushed.stream.value < created
  }

  predicate SameStream(a: Attempt, b: Attempt) {
    a.flushed.stream.Some? && a.flushed.stream == b.flushed.stream
  }

  predicate Uses(a: Attempt, streams: seq<nat>) {
    a.flushed.stream.Some? && a.flushed.stream.value in streams
  }

  lemma SoundSnoc(attempts: seq<Attempt>, created: nat, idle: seq<nat>, a: Attempt, created': nat, idle': seq<nat>)
    requires Sound(attempts, created, idle) && created <= created' && UsesStream(a, created')
    requires a.flushed.stream.Some? ==> a.flushed.stream.value in idle || a.flushed.stream.value == created
    requires forall c :: c in idle' ==> c in idle || a.flushed.stream == Some(c)
    requires Uses(a, idle') ==> a.Result() == Sent
    ensures Sound(attempts + [a], created', idle')
  {
    var all := attempts + [a];
    forall i | 0 <= i < |attempts| && SameStream(attempts[i], a)
      ensures attempts[i].Result() == Sent
    {
      assert UsesStream(attempts[i], created) && Uses(attempts[i], idle);
    }
    forall i | 0 <= i < |all| && Uses(all[i], idle')
      ensures all[i].Result() == Sent
    {
      if i < |attempts| && !SameStream(attempts[i], a) {
        assert Uses(attempts[i], idle);
      }
    }
  }

  lemma FlushKeepsStreams(config: Config, s: Sender, branch: Branch, io: FlushIo, checkedAt: int, clearedAt: int)
    requires AllTruthful(config, s.attempts) && Sound(s.attempts, s.pool.created, s.pool.idle) && AtRest(s.pool)
    ensures var f := Flush(config, s, branch, io, checkedAt, clearedAt);
            AllTruthful(config, f.attempts) && Sound(f.attempts, f.pool.created, f.pool.idle)
  {
    hide Truthful, BatchPayload, Taken, Sound, PoolAfter, Run, Admits;
    var f, tried := Flush(config, s, branch, io, checkedAt, clearedAt), Tried(config, s, branch, io, checkedAt, clearedAt);
    PayloadOfBatch(config, s.buffer);
    FlushedTruthfully(Run(s.ops), s.pool, io, s.buffer, config.serialize);
    StreamOfFlush(Run(s.ops), s.pool, io, BatchPayload(config, s.buffer));
    SoundSnoc(s.attempts, s.pool.created, s.pool.idle, tried, f.pool.created, f.pool.idle);
  }

  lemma PayloadOfBatch(config: Config, batch: seq<Value>)
    ensures BatchPayload(config, batch) == Payload(Texts(batch, config.serialize))
  {
  }

  /** The pool after a flush: the stream used is new or was idle, and is idle again only when everything was sent. */
  lemma StreamOfFlush(b: Breaker, p: Pool, io: FlushIo, payload: string)
    requires AtRest(p)
    ensures var f := FlushedAs(b, p, io, payload);
            var p' := PoolAfter(p, f.result, io.connects);
            && p.created <= p'.created
            && (f.stream.Some? ==> f.stream.value in p.idle || f.stream.value == p.created)
            && (f.stream.Some? ==> f.stream.value < p'.created)
            && (forall c :: c in p'.idle ==> c in p.idle || f.stream == Some(c))
            && (f.stream.Some? && f.stream.value in p'.idle ==> f.result == Sent)
  {
    hide Taken;
    forall c | c in p.idle
      ensures c < p.created
    {
      assert InOnePlace(p, c);
    }
    var (taken, stream) := Take(p, io.connects);
    assert taken.idle == [] && (p.idle != [] ==> p.idle[0] in p.idle);
    assert stream.Some? ==> stream.value < taken.created;
  }

  ghost predicate StreamsSound(config: Config, s: Sender) {
    AllTruthful(config, s.attempts) && Sound(s.attempts, s.pool.created, s.pool.idle)
  }

  lemma TurnKeepsStreams(config: Config, s: Sender, t: Turn)
    requires StreamsSound(config, s) && AtRest(s.pool)
    ensures StreamsSound(config, AfterTurn(config, s, t))
  {
    hide AfterTurn, FlushAndRecord, Flush, Flushes, Sound, AllTruthful, AtRest;
    TurnShape(config, s, t);
    if Flushes(config, s, t) {
      RecordingOnly(config, Ready(s, t), BranchOf(t), t);
      FlushKeepsStreams(config, Ready(s, t), BranchOf(t), t.io, t.checkAt, t.clearAt);
    }
  }

  /**
   At every loop head, the result of every flush is what its write came to, a stream that took less than it
   was given was never used again, and everything ever given to an idle stream was taken whole.
   */
  lemma {:induction false} StreamsUnderSender(config: Config, now: int, script: seq<Turn>, n: nat)
    requires n <= |script|
    ensures StreamsSound(config, AfterTurns(config, now, script, n))
  {
    hide AfterTurn, StreamsSound, AtRest, WriteFailures;
    if n == 0 {
      StartsSound(config, now);
    } else {
      StreamsUnderSender(config, now, script, n - 1);
      PoolUnderSender(config, now, script, n - 1);
      TurnKeepsStreams(config, AfterTurns(config, now, script, n - 1), script[n - 1]);
    }
  }

  lemma StartsSound(config: Config, now: int)
    ensures StreamsSound(config, Start(now))
  {
  }

  /** The same after any whole run. */
  lemma StreamsAfterRun(config: Config, now: int, script: seq<Turn>, finalIo: FlushIo)
    ensures StreamsSound(config, AfterLoop(config, AfterTurns(config, now, script, |script|), finalIo))
  {
    hide AfterTurns, Flush, Sound, AllTruthful, AtRest, WriteFailures;
    var s := AfterTurns(config, now, script, |script|);
    StreamsUnderSender(config, now, script, |script|);
    PoolUnderSender(config, now, script, |script|);
    FlushKeepsStreams(config, s, AtEnd, finalIo, finalIo.admitAt, finalIo.admitAt);
  }

  // ----- What arrives -----

  /** Everything that a stream took in the first n attempts. */
  ghost function Arrived(attempts: seq<Attempt>, c: nat, n: nat): string
    requires n <= |attempts|
  {
    if n == 0 then ""
    else
      Arrived(attempts, c, n - 1)
      + if attempts[n - 1].flushed.stream == Some(c) then attempts[n - 1].flushed.written else ""
  }

  /** The texts of the batches sent on a stream, in order. */
  ghost function SentTexts(attempts: seq<Attempt>, c: nat, n: nat, serialize: Serializer): seq<string>
    requires n <= |attempts|
  {
    if n == 0 then []
    else
      var a := attempts[n - 1];
      SentTexts(attempts, c, n - 1, serialize)
      + if a.flushed.stream == Some(c) && a.Result() == Sent then Texts(a.batch, serialize) else []
  }

  /** The unfinished payload at the end of a stream: that of a failed write, if there was one. */
  ghost function CutOff(attempts: seq<Attempt>, c: nat, n: nat): string
    requires n <= |attempts|
  {
    if n == 0 then ""
    else if attempts[n - 1].flushed.stream == Some(c) && attempts[n - 1].Result() == WriteFailed
    then attempts[n - 1].flushed.written
    else CutOff(attempts, c, n - 1)
  }

  lemma {:induction false} PayloadConcat(a: seq<string>, b: seq<string>)
    ensures Payload(a + b) == Payload(a) + Payload(b)
  {
    if a == [] {
      assert a + b == b;
    } else {
      assert (a + b)[1..] == a[1..] + b;
      PayloadConcat(a[1..], b);
    }
  }

  lemma {:induction false} NothingCutOff(attempts: seq<Attempt>, c: nat, n: nat)
    requires n <= |attempts|
    requires forall i :: 0 <= i < n && attempts[i].flushed.stream == Some(c) ==> attempts[i].Result() == Sent
    ensures CutOff(attempts, c, n) == ""
  {
    if n > 0 {
      NothingCutOff(attempts, c, n - 1);
    }
  }

  /** A stream took the payloads of the batches sent on it, in order, and then the beginning of a failed one. */
  lemma {:induction false} StreamTook(config: Config, attempts: seq<Attempt>, created: nat, idle: seq<nat>, c: nat, n: nat)
    requires n <= |attempts| && AllTruthful(config, attempts) && Sound(attempts, created, idle)
    ensures Arrived(attempts, c, n) ==
            Payload(SentTexts(attempts, c, n, config.serialize)) + CutOff(attempts, c, n)
  {
    hide Payload, Texts;
    if n == 0 {
      NoPayload();
    } else {
      var a := attempts[n - 1];
      StreamTook(config, attempts, created, idle, c, n - 1);
      if a.flushed.stream == Some(c) {
        forall i | 0 <= i < n - 1 && attempts[i].flushed.stream == Some(c)
          ensures attempts[i].Result() == Sent
        {
          assert SameStream(attempts[i], attempts[n - 1]);
        }
        NothingCutOff(attempts, c, n - 1);
        assert a in attempts && Truthful(a.flushed, a.batch, config.serialize);
        var before := SentTexts(attempts, c, n - 1, config.serialize);
        assert Arrived(attempts, c, n - 1) == Payload(before) + "" == Payload(before);
        if a.Result() == Sent {
          assert SentTexts(attempts, c, n, config.serialize) == before + Texts(a.batch, config.serialize);
          PayloadConcat(before, Texts(a.batch, config.serialize));
          assert CutOff(attempts, c, n) == "" && Arrived(attempts, c, n) + "" == Arrived(attempts, c, n);
        } else {
          assert a.Result() == WriteFailed;
          assert SentTexts(attempts, c, n, config.serialize) == before;
        }
      } else {
        assert Arrived(attempts, c, n) == Arrived(attempts, c, n - 1);
        assert SentTexts(attempts, c, n, config.serialize) == SentTexts(attempts, c, n - 1, config.serialize);
      }
    }
  }

  lemma NoPayload()
    ensures Payload([]) == ""
  {
  }

  lemma {:induction false} SentNewlineFree(attempts: seq<Attempt>, c: nat, n: nat, serialize: Serializer)
    requires n <= |attempts| && NewlineFree(serialize)
    ensures forall text :: text in SentTexts(attempts, c, n, serialize) ==> NEWLINE !in text
  {
    if n > 0 {
      SentNewlineFree(attempts, c, n - 1, serialize);
      TextsNewlineFree(attempts[n - 1].batch, serialize);
    }
  }

  /**
   What a reader at the other end of a stream sees after any run: the texts of the batches sent on it, line by
   line and in order; and after them, only if a write failed on it, the beginning of that write's payload.
   */
  lemma LinesArrive(config: Config, now: int, script: seq<Turn>, finalIo: FlushIo, c: nat)
    requires NewlineFree(config.serialize)
    ensures var attempts := AfterLoop(config, AfterTurns(config, now, script, |script|), finalIo).attempts;
            var lines := SentTexts(attempts, c, |attempts|, config.serialize);
            && Arrived(attempts, c, |attempts|) == Payload(lines) + CutOff(attempts, c, |attempts|)
            && SplitLines(Payload(lines), []) == lines
            && ((forall a :: a in attempts && a.flushed.stream == Some(c) ==> a.Result() == Sent) ==>
                  SplitLines(Arrived(attempts, c, |attempts|), []) == lines)
  {
    hide AfterLoop, AfterTurns, Sound, AllTruthful, Arrived, SentTexts, CutOff, Payload, SplitLines;
    var s := AfterLoop(config, AfterTurns(config, now, script, |script|), finalIo);
    var n := |s.attempts|;
    StreamsAfterRun(config, now, script, finalIo);
    StreamTook(config, s.attempts, s.pool.created, s.pool.idle, c, n);
    SentNewlineFree(s.attempts, c, n, config.serialize);
    SplitPayload(SentTexts(s.attempts, c, n, config.serialize));
    if forall a :: a in s.attempts && a.flushed.stream == Some(c) ==> a.Result() == Sent {
      NothingCutOff(s.attempts, c, n);
      var lines := SentTexts(s.attempts, c, n, config.serialize);
      assert Payload(lines) + "" == Payload(lines);
    }
  }

  // ----- When a partial batch goes out -----

  /** When the timer was last reset before attempt i: by the attempt before, or at the start. */
  function ResetBefore(now: int, attempts: seq<Attempt>, i: nat): int
    requires i <= |attempts|
  {
    if i == 0 then now else attempts[i - 1].clearedAt
  }

  /** A batch that goes out in the loop is full, or goes out at least a flush interval after the last reset. */
  ghost predicate Timely(config: Config, now: int, attempts: seq<Attempt>) {
    forall i :: 0 <= i < |attempts| && attempts[i].branch != AtEnd && |attempts[i].batch| < config.batchSize ==>
      attempts[i].checkedAt - ResetBefore(now, attempts, i) >= config.flushInterval
  }

  ghost predicate OnTime(config: Config, now: int, s: Sender) {
    Timely(config, now, s.attempts) && s.lastFlush == ResetBefore(now, s.attempts, |s.attempts|)
  }

  lemma TimelySnoc(config: Config, now: int, attempts: seq<Attempt>, a: Attempt)
    requires Timely(config, now, attempts)
    requires a.branch != AtEnd && |a.batch| < config.batchSize ==>
               a.checkedAt - ResetBefore(now, attempts, |attempts|) >= config.flushInterval
    ensures Timely(config, now, attempts + [a])
    ensures ResetBefore(now, attempts + [a], |attempts| + 1) == a.clearedAt
  {
    var all := attempts + [a];
    forall i | 0 <= i < |all|
      ensures ResetBefore(now, all, i) == ResetBefore(now, attempts, i)
    {
    }
  }

  lemma TurnOnTime(config: Config, now: int, s: Sender, t: Turn)
    requires OnTime(config, now, s)
    ensures OnTime(config, now, AfterTurn(config, s, t))
  {
    hide FlushedAs, PoolAfter, AfterTurn, Timely;
    TurnShape(config, s, t);
    if Flushes(config, s, t) {
      var h := Ready(s, t);
      TimelySnoc(config, now, s.attempts, Tried(config, h, BranchOf(t), t.io, t.checkAt, t.clearAt));
    }
  }

  lemma {:induction false} AlwaysOnTime(config: Config, now: int, script: seq<Turn>, n: nat)
    requires n <= |script|
    ensures OnTime(config, now, AfterTurns(config, now, script, n))
  {
    if n > 0 {
      hide OnTime, AfterTurn;
      AlwaysOnTime(config, now, script, n - 1);
      TurnOnTime(config, now, AfterTurns(config, now, script, n - 1), script[n - 1]);
    }
  }

  /**
   No batch goes out early: in any whole run, one that goes out of the loop with less than batch_size logs
   does so a flush interval or more after the last flush.
   */
  lemma NoEarlyBatch(config: Config, now: int, script: seq<Turn>, finalIo: FlushIo)
    ensures Timely(config, now, AfterLoop(config, AfterTurns(config, now, script, |script|), finalIo).attempts)
  {
    hide AfterTurns, FlushedAs, PoolAfter;
    var s := AfterTurns(config, now, script, |script|);
    AlwaysOnTime(config, now, script, |script|);
    TimelySnoc(config, now, s.attempts, Tried(config, s, AtEnd, finalIo, finalIo.admitAt, finalIo.admitAt));
  }

  /**
   No batch waits longer than that: when an admitted pass with a receive or a timeout leaves logs in the
   buffer, they are fewer than batch_size, and less than a flush interval has passed since the last flush.
   */
  lemma NoLateBatch(config: Config, now: int, script: seq<Turn>, n: nat)
    requires config.batchSize >= 1 && n < |script|
    requires var s, t := AfterTurns(config, now, script, n), script[n];
             && s.status == Running && !(t.shutdown && t.queueEmpty) && Admits(Run(s.ops), t.headAt)
             && (t.receipt.Got? || t.receipt.TimedOut?)
    ensures var s' := AfterTurns(config, now, script, n + 1);
            s'.buffer != [] ==>
              && |s'.buffer| < config.batchSize
              && script[n].checkAt - ResetBefore(now, s'.attempts, |s'.attempts|) < config.flushInterval
  {
    hide AfterTurns, Run, FlushedAs, PoolAfter, Timely, InOrder;
    var s, t := AfterTurns(config, now, script, n), script[n];
    TurnOfRun(config, now, script, n);
    AlwaysOnTime(config, now, script, n);
    ExactlyOnceInOrder(config, now, script, n);
    SmallBuffer(config, s);
  }

  lemma SmallBuffer(config: Config, s: Sender)
    requires InOrder(config, s)
    ensures |s.buffer| < config.batchSize
  {
  }

  // ----- Outcomes -----

  /** The breaker was told of every flush, in order: of a success exactly when it was sent. */
  ghost predicate Recorded(s: Sender) {
    var h := Outcomes(s.ops);
    |h| == |s.attempts| && forall i :: 0 <= i < |h| ==> (h[i].Succeed? <==> s.attempts[i].Result() == Sent)
  }

  lemma TurnRecorded(config: Config, s: Sender, t: Turn)
    requires Recorded(s)
    ensures Recorded(AfterTurn(config, s, t))
  {
    hide FlushedAs, PoolAfter, AfterTurn, Run, Outcomes, Flushes, After, Probing;
    TurnShape(config, s, t);
    RunStep(s.ops, Try(t.headAt));
    if Flushes(config, s, t) {
      var h := Ready(s, t);
      var sent := Tried(config, h, BranchOf(t), t.io, t.checkAt, t.clearAt).Result() == Sent;
      RunStep(h.ops, Try(t.io.admitAt));
      RunStep(h.ops + [Try(t.io.admitAt)], if sent then Succeed(t.recordAt) else Fail(t.recordAt));
    }
  }

  lemma {:induction false} FlushesRecorded(config: Config, now: int, script: seq<Turn>, n: nat)
    requires n <= |script|
    ensures Recorded(AfterTurns(config, now, script, n))
  {
    if n > 0 {
      hide AfterTurn, Recorded;
      FlushesRecorded(config, now, script, n - 1);
      TurnRecorded(config, AfterTurns(config, now, script, n - 1), script[n - 1]);
    }
  }

  // ----- When everything works, and when nothing does -----

  predicate Works(io: FlushIo) {
    io.connects && io.limit.None?
  }

  /** No failure so far. */
  ghost predicate Thrives(s: Sender) {
    && (forall a :: a in s.attempts ==> a.Result() == Sent)
    && Run(s.ops).code == 0 && Run(s.ops).failures == 0
    && s.retryDelay == FIRST_DELAY
  }

  lemma WorkingFlush(b: Breaker, pool: Pool, io: FlushIo, payload: string)
    requires State(b) == Closed && Works(io)
    ensures FlushedAs(b, pool, io, payload).result == Sent
  {
  }

  lemma TurnThrives(config: Config, s: Sender, t: Turn)
    requires Thrives(s) && Works(t.io)
    ensures Thrives(AfterTurn(config, s, t))
  {
    hide FlushedAs, PoolAfter, AfterTurn, Run, Flushes, Outcomes, Probing;
    TurnShape(config, s, t);
    RunStep(s.ops, Try(t.headAt));
    if Flushes(config, s, t) {
      var h := Ready(s, t);
      WorkingFlush(Run(h.ops), h.pool, t.io, BatchPayload(config, h.buffer));
      RunStep(h.ops, Try(t.io.admitAt));
      RunStep(h.ops + [Try(t.io.admitAt)], Succeed(t.recordAt));
    }
  }

  /**
   When connecting and writing work, every flush is sent, and at every loop head the breaker is closed and the
   delay is 5.
   */
  lemma {:induction false} HealthyRun(config: Config, now: int, script: seq<Turn>, n: nat)
    requires n <= |script| && forall i :: 0 <= i < n ==> Works(script[i].io)
    ensures var s := AfterTurns(config, now, script, n);
            && (forall a :: a in s.attempts ==> a.Result() == Sent)
            && State(Run(s.ops)) == Closed && s.retryDelay == FIRST_DELAY
    ensures Thrives(AfterTurns(config, now, script, n))
  {
    if n > 0 {
      hide AfterTurn, Run;
      HealthyRun(config, now, script, n - 1);
      TurnThrives(config, AfterTurns(config, now, script, n - 1), script[n - 1]);
    }
  }

  /** A stream that takes nothing fails every batch of which some log serializes. */
  lemma DeadFlush(b: Breaker, pool: Pool, io: FlushIo, payload: string)
    requires io.limit == Some(0) && payload != ""
    ensures FlushedAs(b, pool, io, payload).result != Sent
  {
  }

  lemma SomethingToWrite(config: Config, batch: seq<Value>)
    requires batch != [] && forall v :: config.serialize(v).Some?
    ensures BatchPayload(config, batch) != ""
  {
    assert Texts(batch, config.serialize) != [];
  }

  lemma TurnFails(config: Config, s: Sender, t: Turn)
    requires t.io.limit == Some(0) && forall v :: config.serialize(v).Some?
    requires forall a :: a in s.attempts ==> a.Result() != Sent
    ensures forall a :: a in AfterTurn(config, s, t).attempts ==> a.Result() != Sent
  {
    hide AfterTurn, FlushAndRecord, Run, FlushedAs, PoolAfter, BatchPayload;
    TurnShape(config, s, t);
    if Flushes(config, s, t) {
      var h := Ready(s, t);
      SomethingToWrite(config, h.buffer);
      DeadFlush(Run(h.ops), h.pool, t.io, BatchPayload(config, h.buffer));
      RecordingOnly(config, h, BranchOf(t), t);
    }
  }

  /** When no stream takes anything, nothing is ever reported as sent. */
  lemma {:induction false} DeadRun(config: Config, now: int, script: seq<Turn>, n: nat)
    requires n <= |script| && forall i :: 0 <= i < n ==> script[i].io.limit == Some(0)
    requires forall v :: config.serialize(v).Some?
    ensures forall a :: a in AfterTurns(config, now, script, n).attempts ==> a.Result() != Sent
  {
    if n > 0 {
      hide AfterTurn;
      DeadRun(config, now, script, n - 1);
      TurnFails(config, AfterTurns(config, now, script, n - 1), script[n - 1]);
    }
  }
}
