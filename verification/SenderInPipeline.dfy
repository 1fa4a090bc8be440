/**
 The sender's loop inside the pipeline: each turn of ElkSender is a few of the sender's steps in the
 pipeline, with steps of the other tasks before and between them.  So every run of the loop is part of
 a run of the pipeline, and the drain bound holds of the whole system.
 */
module SenderInPipeline {
  import opened Collections
  import opened Pipeline
  import opened PipelineEnd
  import ElkSender
  import CircuitBreaker
  import Json
  import Numbers

  type Value = Json.Value

  /** The logs of some packets; logOf is the log that a packet becomes. */
  function LogsOf(packets: seq<nat>, logOf: nat -> Value): seq<Value> {
    seq(|packets|, i requires 0 <= i < |packets| => logOf(packets[i]))
  }

  /** Where the pipeline has the sender between two turns. */
  function Phase(status: ElkSender.Status): Sender {
    match status
    case Running => SenderHead
    case Leaving => Closing
    case Finished => SenderDone(true)
    case Aborted => SenderDone(false)
  }

  /** The system's sender is in the state of the loop, with the same buffer and the same attempted batches. */
  ghost predicate Matches(s: System, e: ElkSender.Sender, logOf: nat -> Value) {
    && s.main != AwaitIntel && s.sender == Phase(e.status)
    && LogsOf(s.buffer, logOf) == e.buffer
    && |s.attempts| == |e.attempts|
    && forall i :: 0 <= i < |s.attempts| ==> LogsOf(s.attempts[i], logOf) == e.attempts[i].batch
  }

  predicate Others(steps: seq<Step>) {
    forall step :: step in steps ==> !step.BySender?
  }

  /** What the other tasks do before a turn, between its head test and its receive, and before its look at the flag. */
  datatype Round = Round(before: seq<Step>, between: seq<Step>, after: seq<Step>)

  predicate Due(config: ElkSender.Config, e: ElkSender.Sender, t: ElkSender.Turn) {
    t.checkAt - e.lastFlush >= config.flushInterval
  }

  predicate Stops(t: ElkSender.Turn) {
    t.shutdown && t.queueEmpty
  }

  ghost predicate Skips(e: ElkSender.Sender, t: ElkSender.Turn) {
    !CircuitBreaker.Admits(CircuitBreaker.Run(e.ops), t.headAt)
  }

  /** The sender's step after its head test. */
  ghost function ActOf(config: ElkSender.Config, e: ElkSender.Sender, t: ElkSender.Turn): SenderAct {
    if Skips(e, t) then SkipOpenBreaker
    else
      match t.receipt
      case Got(_) => TakeElk(Due(config, e, t))
      case TimedOut(_) => SenderTimeout(Due(config, e, t))
      case HungUp => SenderHangUp
      case JoinFailed => SenderAbort
  }

  /** The steps of one turn, those of the other tasks included. */
  ghost function StepsOf(config: ElkSender.Config, e: ElkSender.Sender, t: ElkSender.Turn, r: Round): seq<Step> {
    if e.status != ElkSender.Running then r.before
    else if Stops(t) then r.before + [BySender(TestSender)]
    else
      var steps := r.before + [BySender(TestSender)] + r.between + [BySender(ActOf(config, e, t))];
      if !Skips(e, t) && t.receipt.TimedOut? then steps + r.after + [BySender(CheckSender)] else steps
  }

  /** The system in which a turn makes its head test, and the one in which it receives. */
  function AtHead(c: Config, s: System, r: Round): System {
    Execute(c, s, r.before)
  }

  function AtReceive(c: Config, s: System, r: Round): System {
    Execute(c, Next(c, AtHead(c, s, r), BySender(TestSender)), r.between)
  }

  function AtCheck(c: Config, s: System, r: Round, due: bool): System {
    Execute(c, Next(c, AtReceive(c, s, r), BySender(SenderTimeout(due))), r.after)
  }

  /** What the turn receives is what the queue and the flag then have for it. */
  ghost predicate Finds(c: Config, config: ElkSender.Config, s: System, e: ElkSender.Sender, t: ElkSender.Turn, r: Round,
                        logOf: nat -> Value)
  {
    var now := AtReceive(c, s, r);
    match t.receipt
    case Got(log) => now.elk != [] && log == logOf(now.elk[0])
    case TimedOut(flag) => now.elk == [] && ElkOpen(now) && flag == AtCheck(c, s, r, Due(config, e, t)).shutdown
    case HungUp => now.elk == [] && !ElkOpen(now)
    case JoinFailed => true
  }

  /** The turn is truthful: it lists what a sender in this system meets. */
  ghost predicate Meets(c: Config, config: ElkSender.Config, s: System, e: ElkSender.Sender, t: ElkSender.Turn, r: Round,
                        logOf: nat -> Value)
  {
    var head := AtHead(c, s, r);
    && Others(r.before) && Others(r.between) && Others(r.after)
    && t.shutdown == head.shutdown && (t.queueEmpty <==> head.elk == [])
    && (e.status == ElkSender.Running && !Stops(t) && !Skips(e, t) ==> Finds(c, config, s, e, t, r, logOf))
  }

  // ----- Steps of the other tasks -----

  /** The other tasks leave the sender's own state alone. */
  predicate SameSender(s: System, s': System) {
    && s'.sender == s.sender && s'.buffer == s.buffer && s'.attempts == s.attempts
    && (s.main != AwaitIntel ==> s'.main != AwaitIntel)
  }

  /** Once the last sender of the ELK queue is gone they leave the queue alone, too. */
  predicate SameQueue(s: System, s': System) {
    !ElkOpen(s) ==> !ElkOpen(s') && s'.elk == s.elk
  }

  lemma WorkerIsOther(c: Config, s: System, i: nat, act: WorkerAct)
    ensures SameSender(s, WorkerNext(c, s, i, act)) && SameQueue(s, WorkerNext(c, s, i, act))
  {
    hide WorkerMoves, WorkerNext;
    MovesOnlyWorker(c, s, i, act);
    MovesQueues(c, s, i, act);
    WorkerSnapshots(c, s, i, act);
  }

  lemma MainIsOther(s: System)
    ensures SameSender(s, AdvancingMain(s)) && SameQueue(s, AdvancingMain(s))
  {
  }

  lemma ReceiverIsOther(c: Config, s: System, act: ReceiverAct)
    ensures SameSender(s, ReceiverNext(c, s, act)) && SameQueue(s, ReceiverNext(c, s, act))
  {
  }

  lemma OneOther(c: Config, s: System, step: Step)
    requires !step.BySender?
    ensures SameSender(s, Next(c, s, step)) && SameQueue(s, Next(c, s, step))
  {
    hide WorkerNext, SenderNext, ReceiverNext, AdvancingMain, UpdaterNext, MergerNext;
    match step
    case ByReceiver(act) => ReceiverIsOther(c, s, act);
    case ByWorker(i, act) => WorkerIsOther(c, s, i, act);
    case MainStep => MainIsOther(s);
    case ByUpdater(act) => UpdaterOnly(s, act);
    case ByMerger(act) => MergerOnly(s, act);
    case Signal =>
  }

  lemma {:induction false} OthersKeepSender(c: Config, s: System, steps: seq<Step>)
    requires Others(steps)
    ensures SameSender(s, Execute(c, s, steps)) && SameQueue(s, Execute(c, s, steps))
    decreases |steps|
  {
    hide Next, ElkOpen;
    if steps != [] {
      var init := steps[..|steps| - 1];
      OthersKeepSender(c, s, init);
      OneOther(c, Execute(c, s, init), steps[|steps| - 1]);
    }
  }

  lemma ExecuteSnoc(c: Config, s: System, steps: seq<Step>, step: Step)
    ensures Execute(c, s, steps + [step]) == Next(c, Execute(c, s, steps), step)
  {
    hide Next;
    assert (steps + [step])[..|steps|] == steps;
  }

  /** The systems that a turn passes through, as one execution. */
  lemma TurnExecutes(c: Config, s: System, r: Round, act: SenderAct)
    ensures Execute(c, s, r.before + [BySender(TestSender)]) == Next(c, AtHead(c, s, r), BySender(TestSender))
    ensures Execute(c, s, r.before + [BySender(TestSender)] + r.between + [BySender(act)]) ==
            Next(c, AtReceive(c, s, r), BySender(act))
    ensures act.SenderTimeout? ==>
              Execute(c, s, r.before + [BySender(TestSender)] + r.between + [BySender(act)] + r.after + [BySender(CheckSender)])
              == Next(c, AtCheck(c, s, r, act.due), BySender(CheckSender))
  {
    hide Next;
    var test := r.before + [BySender(TestSender)];
    var receive := test + r.between + [BySender(act)];
    ExecuteSnoc(c, s, r.before, BySender(TestSender));
    ExecuteConcat(c, s, test, r.between);
    ExecuteSnoc(c, s, test + r.between, BySender(act));
    ExecuteConcat(c, s, receive, r.after);
    ExecuteSnoc(c, s, receive + r.after, BySender(CheckSender));
  }

  // ----- One turn -----

  lemma LogsSnoc(packets: seq<nat>, p: nat, logOf: nat -> Value)
    ensures LogsOf(packets + [p], logOf) == LogsOf(packets, logOf) + [logOf(p)]
    ensures LogsOf([], logOf) == []
  {
  }

  /** A flush attempts the same batch in both. */
  lemma FlushMatches(config: ElkSender.Config, s: System, e: ElkSender.Sender, branch: ElkSender.Branch,
                     t: ElkSender.Turn, logOf: nat -> Value)
    requires Matches(s, e, logOf) && e.buffer != []
    ensures Matches(Attempted(s), ElkSender.FlushAndRecord(config, e, branch, t), logOf)
  {
    LogsSnoc([], 0, logOf);
  }

  lemma TakeMatches(c: Config, config: ElkSender.Config, s: System, e: ElkSender.Sender, t: ElkSender.Turn,
                    logOf: nat -> Value)
    requires c.batchSize == config.batchSize && Matches(s.(sender := SenderHead), e, logOf) && s.sender == Receiving
    requires t.receipt.Got? && s.elk != [] && t.receipt.log == logOf(s.elk[0])
    ensures Matches(TakingElk(c, s, Due(config, e, t)), ElkSender.OnReceipt(config, e, t), logOf)
  {
    hide ElkSender.FlushAndRecord, Attempted;
    LogsSnoc(s.buffer, s.elk[0], logOf);
    var s' := s.(sender := SenderHead, elk := s.elk[1..], buffer := s.buffer + [s.elk[0]]);
    var e' := e.(buffer := e.buffer + [t.receipt.log], received := e.received + [t.receipt.log]);
    assert Matches(s', e', logOf);
    FlushMatches(config, s', e', ElkSender.OnReceive, t, logOf);
  }

  /** After a timeout the loop's state is that of the pipeline, short of the look at the flag. */
  lemma TimeoutMatches(config: ElkSender.Config, s: System, e: ElkSender.Sender, t: ElkSender.Turn, logOf: nat -> Value)
    requires Matches(s.(sender := SenderHead), e, logOf) && s.sender == Receiving && e.status == ElkSender.Running
    requires t.receipt.TimedOut? && s.elk == []
    ensures var s' := TimingOutSender(s, Due(config, e, t));
            && s'.sender == TimedOut
            && Matches(s'.(sender := if t.receipt.shutdown then Closing else SenderHead),
                       ElkSender.OnReceipt(config, e, t), logOf)
  {
    if e.buffer != [] {
      FlushMatches(config, s.(sender := SenderHead), e, ElkSender.OnTimeout, t, logOf);
    }
  }

  /** The head test leads to the receive, whatever the others do in between. */
  lemma ReachesReceive(c: Config, s: System, e: ElkSender.Sender, t: ElkSender.Turn, r: Round, logOf: nat -> Value)
    requires Matches(s, e, logOf) && e.status == ElkSender.Running && Others(r.before) && Others(r.between)
    requires t.shutdown == AtHead(c, s, r).shutdown && (t.queueEmpty <==> AtHead(c, s, r).elk == [])
    ensures Stops(t) ==> Matches(Next(c, AtHead(c, s, r), BySender(TestSender)), e.(status := ElkSender.Leaving), logOf)
    ensures !Stops(t) ==> var now := AtReceive(c, s, r); now.sender == Receiving && Matches(now.(sender := SenderHead), e, logOf)
  {
    hide ElkOpen, LogsOf;
    OthersKeepSender(c, s, r.before);
    OthersKeepSender(c, Next(c, AtHead(c, s, r), BySender(TestSender)), r.between);
  }

  /** What the receive step does. */
  lemma ReceiveMatches(c: Config, config: ElkSender.Config, s: System, e: ElkSender.Sender, t: ElkSender.Turn, r: Round,
                       logOf: nat -> Value)
    requires c.batchSize == config.batchSize && e.status == ElkSender.Running && !t.receipt.TimedOut? && !Skips(e, t)
    requires var now := AtReceive(c, s, r); now.sender == Receiving && Matches(now.(sender := SenderHead), e, logOf)
    requires Finds(c, config, s, e, t, r, logOf)
    ensures Matches(Next(c, AtReceive(c, s, r), BySender(ActOf(config, e, t))),
                    ElkSender.OnReceipt(config, ElkSender.Admitted(e, t), t), logOf)
  {
    hide ElkOpen, LogsOf, TakingElk, ElkSender.FlushAndRecord, Skips;
    var now := AtReceive(c, s, r);
    if t.receipt.Got? {
      TakeMatches(c, config, now, ElkSender.Admitted(e, t), t, logOf);
    }
  }

  lemma TimeoutTurnMatches(c: Config, config: ElkSender.Config, s: System, e: ElkSender.Sender, t: ElkSender.Turn, r: Round,
                           logOf: nat -> Value)
    requires e.status == ElkSender.Running && t.receipt.TimedOut? && !Skips(e, t) && Others(r.after)
    requires var now := AtReceive(c, s, r); now.sender == Receiving && Matches(now.(sender := SenderHead), e, logOf)
    requires Finds(c, config, s, e, t, r, logOf)
    ensures Matches(Next(c, AtCheck(c, s, r, Due(config, e, t)), BySender(CheckSender)),
                    ElkSender.OnReceipt(config, ElkSender.Admitted(e, t), t), logOf)
  {
    hide ElkOpen, LogsOf, TimingOutSender, ElkSender.OnReceipt, Skips, AtReceive;
    var now, due := AtReceive(c, s, r), Due(config, e, t);
    TimeoutMatches(config, now, ElkSender.Admitted(e, t), t, logOf);
    OthersKeepSender(c, Next(c, now, BySender(SenderTimeout(due))), r.after);
  }

  /** Each turn of the loop is a few steps of the system, and they end in the same state. */
  lemma TurnIsSteps(c: Config, config: ElkSender.Config, s: System, e: ElkSender.Sender, t: ElkSender.Turn, r: Round,
                    logOf: nat -> Value)
    requires c.batchSize == config.batchSize && Matches(s, e, logOf) && Meets(c, config, s, e, t, r, logOf)
    ensures Matches(Execute(c, s, StepsOf(config, e, t, r)), ElkSender.AfterTurn(config, e, t), logOf)
  {
    hide LogsOf, Next, ElkSender.OnReceipt, Execute, ElkOpen, Finds, AtReceive, AtCheck;
    TurnExecutes(c, s, r, ActOf(config, e, t));
    if e.status != ElkSender.Running {
      OthersKeepSender(c, s, r.before);
    } else {
      ReachesReceive(c, s, e, t, r, logOf);
      if !Stops(t) {
        if Skips(e, t) {
          SkipMatches(c, AtReceive(c, s, r), e, t, logOf);
        } else if t.receipt.TimedOut? {
          TimeoutTurnMatches(c, config, s, e, t, r, logOf);
        } else {
          ReceiveMatches(c, config, s, e, t, r, logOf);
        }
      }
    }
  }

  lemma SkipMatches(c: Config, s: System, e: ElkSender.Sender, t: ElkSender.Turn, logOf: nat -> Value)
    requires s.sender == Receiving && Matches(s.(sender := SenderHead), e, logOf)
    ensures Matches(Next(c, s, BySender(SkipOpenBreaker)), ElkSender.Admitted(e, t), logOf)
  {
    hide LogsOf;
  }

  // ----- Whole runs -----

  /** The system's steps in the first n turns of a script. */
  ghost function StepsUpTo(config: ElkSender.Config, now: int, script: seq<ElkSender.Turn>, rounds: seq<Round>, n: nat)
    : seq<Step>
    requires n <= |script| == |rounds|
  {
    if n == 0 then []
    else
      StepsUpTo(config, now, script, rounds, n - 1)
      + StepsOf(config, ElkSender.AfterTurns(config, now, script, n - 1), script[n - 1], rounds[n - 1])
  }

  /** The system after the first n turns. */
  ghost function SystemAt(c: Config, config: ElkSender.Config, s: System, now: int, script: seq<ElkSender.Turn>,
                          rounds: seq<Round>, n: nat): System
    requires n <= |script| == |rounds|
  {
    Execute(c, s, StepsUpTo(config, now, script, rounds, n))
  }

  /** The script is truthful: each turn lists what the sender meets in the system as it then is. */
  ghost predicate Truthful(c: Config, config: ElkSender.Config, s: System, now: int, script: seq<ElkSender.Turn>,
                           rounds: seq<Round>, logOf: nat -> Value)
  {
    && |script| == |rounds| && c.batchSize == config.batchSize
    && forall n :: 0 <= n < |script| ==>
         Meets(c, config, SystemAt(c, config, s, now, script, rounds, n), ElkSender.AfterTurns(config, now, script, n),
               script[n], rounds[n], logOf)
  }

  /** A system whose sender is about to begin its loop. */
  predicate Begins(s: System) {
    s.main != AwaitIntel && s.sender == SenderHead && s.buffer == [] && s.attempts == []
  }

  lemma SystemStep(c: Config, config: ElkSender.Config, s: System, now: int, script: seq<ElkSender.Turn>,
                   rounds: seq<Round>, n: nat)
    requires n < |script| == |rounds|
    ensures SystemAt(c, config, s, now, script, rounds, n + 1) ==
            Execute(c, SystemAt(c, config, s, now, script, rounds, n),
                    StepsOf(config, ElkSender.AfterTurns(config, now, script, n), script[n], rounds[n]))
  {
    hide Next, StepsOf;
    ExecuteConcat(c, s, StepsUpTo(config, now, script, rounds, n),
                  StepsOf(config, ElkSender.AfterTurns(config, now, script, n), script[n], rounds[n]));
  }

  /**
   The loop refines the pipeline's sender: along any truthful script the system's sender, buffer and
   attempted batches are those of the loop, turn by turn, whatever the other tasks do meanwhile.
   */
  lemma {:induction false} RunIsSteps(c: Config, config: ElkSender.Config, s: System, now: int, script: seq<ElkSender.Turn>,
                                      rounds: seq<Round>, logOf: nat -> Value, n: nat)
    requires Begins(s) && Truthful(c, config, s, now, script, rounds, logOf) && n <= |script|
    ensures Matches(SystemAt(c, config, s, now, script, rounds, n), ElkSender.AfterTurns(config, now, script, n), logOf)
  {
    hide Matches, Meets, StepsOf, ElkSender.AfterTurns, ElkSender.AfterTurn, SystemAt, Begins, Execute;
    if n == 0 {
      BeginMatches(c, config, s, now, script, rounds, logOf);
    } else {
      RunIsSteps(c, config, s, now, script, rounds, logOf, n - 1);
      SystemStep(c, config, s, now, script, rounds, n - 1);
      ElkSender.TurnOfRun(config, now, script, n - 1);
      TurnIsSteps(c, config, SystemAt(c, config, s, now, script, rounds, n - 1),
                  ElkSender.AfterTurns(config, now, script, n - 1), script[n - 1], rounds[n - 1], logOf);
    }
  }

  lemma BeginMatches(c: Config, config: ElkSender.Config, s: System, now: int, script: seq<ElkSender.Turn>,
                     rounds: seq<Round>, logOf: nat -> Value)
    requires Begins(s) && |script| == |rounds|
    ensures Matches(SystemAt(c, config, s, now, script, rounds, 0), ElkSender.AfterTurns(config, now, script, 0), logOf)
  {
    assert StepsUpTo(config, now, script, rounds, 0) == [];
  }

  // ----- There is a truthful script for whatever the others do -----

  /** A turn's times, and what its connections and writes come to, are free; the rest is what the system has. */
  predicate SameTimes(t: ElkSender.Turn, timing: ElkSender.Turn) {
    t == timing.(shutdown := t.shutdown, queueEmpty := t.queueEmpty, receipt := t.receipt)
  }

  lemma TruthfulTurn(c: Config, config: ElkSender.Config, s: System, e: ElkSender.Sender, timing: ElkSender.Turn, r: Round,
                     logOf: nat -> Value) returns (t: ElkSender.Turn)
    requires Others(r.before) && Others(r.between) && Others(r.after)
    ensures SameTimes(t, timing) && !t.receipt.JoinFailed? && Meets(c, config, s, e, t, r, logOf)
  {
    var head, now := AtHead(c, s, r), AtReceive(c, s, r);
    t := timing.(shutdown := head.shutdown, queueEmpty := head.elk == [],
                 receipt := if now.elk != [] then ElkSender.Got(logOf(now.elk[0]))
                            else if ElkOpen(now) then ElkSender.TimedOut(AtCheck(c, s, r, Due(config, e, timing)).shutdown)
                            else ElkSender.HungUp);
  }

  lemma {:induction false} SameBeginning(config: ElkSender.Config, now: int, script: seq<ElkSender.Turn>,
                                         rounds: seq<Round>, t: ElkSender.Turn, r: Round, n: nat)
    requires n <= |script| == |rounds|
    ensures ElkSender.AfterTurns(config, now, script + [t], n) == ElkSender.AfterTurns(config, now, script, n)
    ensures StepsUpTo(config, now, script + [t], rounds + [r], n) == StepsUpTo(config, now, script, rounds, n)
  {
    hide ElkSender.AfterTurn, StepsOf;
    if n > 0 {
      SameBeginning(config, now, script, rounds, t, r, n - 1);
    }
  }

  /**
   For every system, every schedule of the other tasks and all times there is a truthful script: asking for
   one restricts neither the other tasks nor the clock.
   */
  lemma {:induction false} TruthfulScript(c: Config, config: ElkSender.Config, s: System, now: int,
                                          timings: seq<ElkSender.Turn>, rounds: seq<Round>, logOf: nat -> Value)
    returns (script: seq<ElkSender.Turn>)
    requires |timings| == |rounds| && c.batchSize == config.batchSize
    requires forall r :: r in rounds ==> Others(r.before) && Others(r.between) && Others(r.after)
    ensures Truthful(c, config, s, now, script, rounds, logOf)
    ensures forall i :: 0 <= i < |script| ==> SameTimes(script[i], timings[i]) && !script[i].receipt.JoinFailed?
  {
    hide Meets, SameTimes, ElkSender.AfterTurns, StepsUpTo, Execute, Others;
    script := [];
    if timings != [] {
      var n := |timings| - 1;
      var begin, last := rounds[..n], rounds[n];
      assert last in rounds && forall r :: r in begin ==> r in rounds;
      script := TruthfulScript(c, config, s, now, timings[..n], begin, logOf);
      var t := TruthfulTurn(c, config, SystemAt(c, config, s, now, script, begin, n),
                            ElkSender.AfterTurns(config, now, script, n), timings[n], last, logOf);
      assert rounds == begin + [last];
      forall i | 0 <= i <= n
        ensures Meets(c, config, SystemAt(c, config, s, now, script + [t], rounds, i),
                      ElkSender.AfterTurns(config, now, script + [t], i), (script + [t])[i], rounds[i], logOf)
      {
        SameBeginning(config, now, script, begin, t, last, i);
      }
      script := script + [t];
    }
  }

  /** The final flush is the pipeline's. */
  lemma EndIsStep(c: Config, config: ElkSender.Config, s: System, e: ElkSender.Sender, io: ElkSender.FlushIo,
                  logOf: nat -> Value)
    requires Matches(s, e, logOf) && e.status == ElkSender.Leaving
    ensures Matches(Next(c, s, BySender(FinalFlush)), ElkSender.AfterLoop(config, e, io), logOf)
  {
    LogsSnoc([], 0, logOf);
  }

  // ----- The drain -----

  lemma SenderKeepsClosed(c: Config, s: System, act: SenderAct)
    ensures !ElkOpen(s) ==> !ElkOpen(SenderNext(c, s, act))
  {
    hide SenderNext;
    SenderOnly(c, s, act);
  }

  lemma {:induction false} ClosedStream(c: Config, s: System, steps: seq<Step>)
    requires !ElkOpen(s)
    ensures var s' := Execute(c, s, steps); !ElkOpen(s') && Stream(s') == Stream(s)
    decreases |steps|
  {
    hide Stream, ElkOpen, SenderNext;
    if steps != [] {
      var init, last := steps[..|steps| - 1], steps[|steps| - 1];
      var before := Execute(c, s, init);
      ClosedStream(c, s, init);
      if last.BySender? {
        SenderKeepsStream(c, before, last.a);
        SenderKeepsClosed(c, before, last.a);
      } else {
        OneOther(c, before, last);
        SameStream(before, Next(c, before, last));
      }
    }
  }

  // ----- The drain bound, of the whole system -----

  lemma {:induction false} FlattenMatches(attempts: seq<seq<nat>>, tried: seq<ElkSender.Attempt>, logOf: nat -> Value,
                                          n: nat)
    requires n <= |attempts| == |tried|
    requires forall i :: 0 <= i < |attempts| ==> LogsOf(attempts[i], logOf) == tried[i].batch
    ensures LogsOf(Flatten(attempts[..n]), logOf) == ElkSender.BatchesUpTo(tried, n)
  {
    if n > 0 {
      FlattenMatches(attempts, tried, logOf, n - 1);
      assert attempts[..n] == attempts[..n - 1] + [attempts[n - 1]];
      FlattenSnoc(attempts[..n - 1], attempts[n - 1]);
      LogsConcat(Flatten(attempts[..n - 1]), attempts[n - 1], logOf);
    }
  }

  /** What the loop has received are the logs of the packets attempted or buffered in the system, in order. */
  lemma ReceivedMatches(c: Config, config: ElkSender.Config, s: System, now: int, script: seq<ElkSender.Turn>,
                        rounds: seq<Round>, logOf: nat -> Value, n: nat)
    requires Begins(s) && Truthful(c, config, s, now, script, rounds, logOf) && n <= |script| && config.batchSize >= 1
    ensures var at := SystemAt(c, config, s, now, script, rounds, n);
            LogsOf(Flatten(at.attempts) + at.buffer, logOf) == ElkSender.AfterTurns(config, now, script, n).received
  {
    hide Truthful, Begins, SystemAt, ElkSender.AfterTurns, Flatten, ElkSender.BatchesUpTo, ElkSender.SizesWithin;
    ScriptHasRounds(c, config, s, now, script, rounds, logOf);
    var at, e := SystemAt(c, config, s, now, script, rounds, n), ElkSender.AfterTurns(config, now, script, n);
    RunIsSteps(c, config, s, now, script, rounds, logOf, n);
    ElkSender.ExactlyOnceInOrder(config, now, script, n);
    FlattenMatches(at.attempts, e.attempts, logOf, |at.attempts|);
    assert at.attempts[..|at.attempts|] == at.attempts;
    LogsConcat(Flatten(at.attempts), at.buffer, logOf);
  }

  lemma LogsConcat(a: seq<nat>, b: seq<nat>, logOf: nat -> Value)
    ensures LogsOf(a + b, logOf) == LogsOf(a, logOf) + LogsOf(b, logOf)
  {
  }

  lemma ScriptHasRounds(c: Config, config: ElkSender.Config, s: System, now: int, script: seq<ElkSender.Turn>,
                        rounds: seq<Round>, logOf: nat -> Value)
    requires Truthful(c, config, s, now, script, rounds, logOf)
    ensures |script| == |rounds|
  {
  }

  /** A skipped pass sleeps for retry_delay, and the blocking receive can always be joined. */
  ghost predicate Undisturbed(config: ElkSender.Config, now: int, script: seq<ElkSender.Turn>) {
    && (forall t :: t in script ==> !t.receipt.JoinFailed?)
    && (forall i :: 0 <= i < |script| - 1 ==>
          var e := ElkSender.AfterTurns(config, now, script, i);
          e.status == ElkSender.Running && !Stops(script[i]) && Skips(e, script[i]) ==>
            script[i + 1].headAt - script[i].headAt >= e.retryDelay * Numbers.SECOND)
  }

  /** How many packets wait for the sender before each turn. */
  ghost function QueuedAt(c: Config, config: ElkSender.Config, s: System, now: int, script: seq<ElkSender.Turn>,
                          rounds: seq<Round>): (queued: seq<nat>)
    requires |script| == |rounds|
    ensures |queued| == |script|
    ensures forall i :: 0 <= i < |script| ==> queued[i] == |SystemAt(c, config, s, now, script, rounds, i).elk|
  {
    seq(|script|, i requires 0 <= i < |script| => |SystemAt(c, config, s, now, script, rounds, i).elk|)
  }

  /** The queue that the head test and the receive see once its last sender is gone. */
  lemma ClosedTurn(c: Config, s: System, r: Round)
    requires !ElkOpen(s) && Others(r.before) && Others(r.between)
    ensures AtHead(c, s, r).elk == s.elk && !ElkOpen(AtHead(c, s, r))
    ensures AtReceive(c, s, r).elk == s.elk && !ElkOpen(AtReceive(c, s, r))
  {
    hide ElkOpen;
    var head := AtHead(c, s, r);
    var tested := Next(c, head, BySender(TestSender));
    OthersKeepSender(c, s, r.before);
    SenderKeepsClosed(c, head, TestSender);
    OthersKeepSender(c, tested, r.between);
  }

  /** With its last sender gone the queue has a packet to receive, or reports the disconnect. */
  lemma ClosedReceipt(c: Config, config: ElkSender.Config, s: System, e: ElkSender.Sender, t: ElkSender.Turn, r: Round,
                      logOf: nat -> Value)
    requires !ElkOpen(s) && Meets(c, config, s, e, t, r, logOf) && !t.receipt.JoinFailed?
    ensures t.queueEmpty <==> s.elk == []
    ensures t.shutdown == AtHead(c, s, r).shutdown
    ensures e.status == ElkSender.Running && !Stops(t) && !Skips(e, t) ==>
              if s.elk != [] then t.receipt.Got? else t.receipt.HungUp?
  {
    hide ElkOpen, AtHead, AtReceive, AtCheck;
    ClosedTurn(c, s, r);
  }

  lemma {:induction false} StaysClosed(c: Config, config: ElkSender.Config, s: System, now: int,
                                       script: seq<ElkSender.Turn>, rounds: seq<Round>, n: nat, m: nat)
    requires n <= m <= |script| == |rounds| && !ElkOpen(SystemAt(c, config, s, now, script, rounds, n))
    ensures var a, b := SystemAt(c, config, s, now, script, rounds, n), SystemAt(c, config, s, now, script, rounds, m);
            !ElkOpen(b) && Stream(b) == Stream(a)
  {
    hide ElkOpen, Stream, SystemAt, StepsOf, Execute;
    if n < m {
      StaysClosed(c, config, s, now, script, rounds, n, m - 1);
      SystemStep(c, config, s, now, script, rounds, m - 1);
      ClosedStream(c, SystemAt(c, config, s, now, script, rounds, m - 1),
                   StepsOf(config, ElkSender.AfterTurns(config, now, script, m - 1), script[m - 1], rounds[m - 1]));
    }
  }

  /** A flag that a head test finds set is set at the next one. */
  lemma TurnKeepsFlag(c: Config, config: ElkSender.Config, s: System, e: ElkSender.Sender, t: ElkSender.Turn, r: Round,
                      next: Round)
    requires AtHead(c, s, r).shutdown
    ensures AtHead(c, Execute(c, s, StepsOf(config, e, t, r)), next).shutdown
  {
    hide Next, Execute, ActOf;
    var steps := StepsOf(config, e, t, r);
    assert steps == r.before + steps[|r.before|..];
    ExecuteConcat(c, s, r.before, steps[|r.before|..]);
    FlagStays(c, AtHead(c, s, r), steps[|r.before|..]);
    FlagStays(c, Execute(c, s, steps), next.before);
  }

  /** The numbers of packets received and queued, through one turn behind the last sender of the queue. */
  lemma ClosedCounts(c: Config, config: ElkSender.Config, s: System, now: int, script: seq<ElkSender.Turn>,
                     rounds: seq<Round>, logOf: nat -> Value, i: nat)
    requires Begins(s) && Truthful(c, config, s, now, script, rounds, logOf) && config.batchSize >= 1
    requires i < |script| == |rounds| && !ElkOpen(SystemAt(c, config, s, now, script, rounds, i))
    ensures |ElkSender.AfterTurns(config, now, script, i).received| + |SystemAt(c, config, s, now, script, rounds, i).elk| ==
            |ElkSender.AfterTurns(config, now, script, i + 1).received|
            + |SystemAt(c, config, s, now, script, rounds, i + 1).elk|
  {
    hide Truthful, Begins, SystemAt, ElkSender.AfterTurns, Flatten, ElkOpen;
    ReceivedMatches(c, config, s, now, script, rounds, logOf, i);
    ReceivedMatches(c, config, s, now, script, rounds, logOf, i + 1);
    StaysClosed(c, config, s, now, script, rounds, i, i + 1);
  }

  /** What a turn received. */
  lemma TurnReceives(config: ElkSender.Config, e: ElkSender.Sender, t: ElkSender.Turn)
    ensures |ElkSender.AfterTurn(config, e, t).received| ==
            |e.received| + if e.status == ElkSender.Running && !Stops(t) && !Skips(e, t) && t.receipt.Got? then 1 else 0
  {
  }

  /** Behind the last sender of the queue, a truthful turn is a turn of a drain. */
  lemma TruthfulIsDrainTurn(c: Config, config: ElkSender.Config, s: System, now: int, script: seq<ElkSender.Turn>,
                            rounds: seq<Round>, logOf: nat -> Value, i: nat)
    requires Begins(s) && Truthful(c, config, s, now, script, rounds, logOf) && config.batchSize >= 1
    requires i < |script| == |rounds| && !ElkOpen(SystemAt(c, config, s, now, script, rounds, i))
    requires Undisturbed(config, now, script)
    ensures ElkSender.DrainTurn(config, now, script, QueuedAt(c, config, s, now, script, rounds), i)
  {
    hide Begins, SystemAt, ElkSender.AfterTurns, ElkSender.AfterTurn, ElkOpen, Meets, StepsOf, AtHead;
    var at, e, t, r := SystemAt(c, config, s, now, script, rounds, i), ElkSender.AfterTurns(config, now, script, i),
                       script[i], rounds[i];
    assert t in script;
    ClosedReceipt(c, config, at, e, t, r, logOf);
    if i + 1 < |script| {
      ElkSender.TurnOfRun(config, now, script, i);
      SystemStep(c, config, s, now, script, rounds, i);
      StaysClosed(c, config, s, now, script, rounds, i, i + 1);
      TurnReceives(config, e, t);
      ClosedCounts(c, config, s, now, script, rounds, logOf, i);
      if t.shutdown {
        FlagOfNextTurn(c, config, s, now, script, rounds, logOf, i);
      }
    }
  }

  lemma FlagOfNextTurn(c: Config, config: ElkSender.Config, s: System, now: int, script: seq<ElkSender.Turn>,
                       rounds: seq<Round>, logOf: nat -> Value, i: nat)
    requires Truthful(c, config, s, now, script, rounds, logOf) && i + 1 < |script| == |rounds| && script[i].shutdown
    ensures script[i + 1].shutdown
  {
    hide SystemAt, ElkSender.AfterTurns, StepsOf, Finds, Execute, AtHead;
    var at, e := SystemAt(c, config, s, now, script, rounds, i), ElkSender.AfterTurns(config, now, script, i);
    assert Meets(c, config, at, e, script[i], rounds[i], logOf);
    SystemStep(c, config, s, now, script, rounds, i);
    TurnKeepsFlag(c, config, at, e, script[i], rounds[i], rounds[i + 1]);
  }

  /** How many passes a drain of q packets takes at most, and the one that ends the loop. */
  function Passes(shutdown: bool, q: nat): nat {
    if shutdown then 8 * q + 1 else 8 * (q + 1)
  }

  /**
   The drain bound of the system: once every sender of the ELK queue is gone and q packets wait in it,
   the sender's loop ends within 8 * q + 1 turns, or 8 * (q + 1) without a signal, whatever the other tasks
   do meanwhile; then the queue is empty, and the final flush completes the attempts with every packet
   that was buffered or waiting, in order.
   */
  lemma SystemDrains(c: Config, config: ElkSender.Config, s: System, now: int, script: seq<ElkSender.Turn>,
                     rounds: seq<Round>, logOf: nat -> Value, n: nat)
    requires Begins(s) && Truthful(c, config, s, now, script, rounds, logOf) && config.batchSize >= 1
    requires ElkSender.Clocked(script) && Undisturbed(config, now, script)
    requires n < |script| == |rounds|
    requires var at := SystemAt(c, config, s, now, script, rounds, n);
             && !ElkOpen(at) && at.sender == SenderHead && n + Passes(script[n].shutdown, |at.elk|) < |script|
    ensures var at := SystemAt(c, config, s, now, script, rounds, n);
            var end := SystemAt(c, config, s, now, script, rounds, n + Passes(script[n].shutdown, |at.elk|));
            var flushed := Next(c, end, BySender(FinalFlush));
            && end.sender == Closing && end.elk == []
            && flushed.sender == SenderDone(true) && flushed.buffer == []
            && Flatten(flushed.attempts) == Flatten(at.attempts) + at.buffer + at.elk
  {
    hide Begins, SystemAt, ElkSender.AfterTurns, ElkOpen, Truthful, Undisturbed, ElkSender.Clocked, ElkSender.DrainTurn,
         Flatten;
    var queued := QueuedAt(c, config, s, now, script, rounds);
    var at, m := SystemAt(c, config, s, now, script, rounds, n), n + Passes(script[n].shutdown, queued[n]);
    var end := SystemAt(c, config, s, now, script, rounds, m);
    forall i | n <= i < |script|
      ensures ElkSender.DrainTurn(config, now, script, queued, i)
    {
      StaysClosed(c, config, s, now, script, rounds, n, i);
      TruthfulIsDrainTurn(c, config, s, now, script, rounds, logOf, i);
    }
    RunIsSteps(c, config, s, now, script, rounds, logOf, n);
    RunIsSteps(c, config, s, now, script, rounds, logOf, m);
    ElkSender.DrainBound(config, now, script, queued, n);
    StaysClosed(c, config, s, now, script, rounds, n, m);
    ReceivedMatches(c, config, s, now, script, rounds, logOf, n);
    ReceivedMatches(c, config, s, now, script, rounds, logOf, m);
    FlattenSnoc(end.attempts, end.buffer);
  }
}
