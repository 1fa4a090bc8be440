/**
 The tshark pipeline in ELK mode as a transition system: the main task that waits, spawns, joins and
 drops in order, one receiver, any number of workers, the batching sender, the state merger, the
 threat-intelligence updater, bounded queues written with try_send, and a shutdown flag that a signal
 may set at any moment.  Packets are numbered in the order the receiver normalizes them.
 */
module Pipeline {
  import opened Collections

  /**
   A validated configuration: at least one worker, positive capacities and batch size.  feeds says
   whether the threat-intelligence feeds are enabled.
   */
  datatype Config = Config(workers: nat, parsedCapacity: nat, elkCapacity: nat, batchSize: nat, feeds: bool) {
    predicate Valid() {
      workers > 0 && parsedCapacity > 0 && elkCapacity > 0 && batchSize > 0
    }
  }

  datatype Receiver = ReceiverHead | Reading | Holding(packet: nat) | ReceiverDone | ReceiverPanicked
  datatype Worker = WorkerHead | Waiting | Enriching(packet: nat) | WorkerDone
  /** TimedOut: an empty queue was seen, the flag not yet.  SenderDone says whether the task returned Ok. */
  datatype Sender = SenderHead | Receiving | TimedOut | Closing | SenderDone(ok: bool)
  datatype Updater = UpdaterHead | Refreshing | Sleeping | UpdaterDone
  datatype Merger = MergerHead | MergerWaiting | MergerDone

  /** What main waits for.  Receiver, workers and sender are spawned when AwaitIntel is over. */
  datatype Main =
    | AwaitIntel | AwaitReceiver | JoinWorkers(joined: nat) | AwaitSender | AwaitUpdater | AwaitMerger
    | Returned | Failed

  datatype System = System(
    shutdown: bool, main: Main, receiver: Receiver, workers: seq<Worker>, sender: Sender,
    produced: nat, refusedByParsed: seq<nat>, parsed: seq<nat>, refusedByElk: seq<nat>, elk: seq<nat>,
    buffer: seq<nat>, attempts: seq<seq<nat>>,
    ready: bool, updater: Updater, snapshots: nat, merger: Merger)

  datatype ReceiverAct = TestReceiver | ReadPacket | ReadNothing | EndOfInput | SendParsed | PanicReceiver
  /** SendElk says whether a snapshot is due after the packet. */
  datatype WorkerAct = TestWorker | TakeParsed | WorkerTimeout | WorkerHangUp | SendElk(due: bool)
  datatype SenderAct =
    | TestSender | SkipOpenBreaker | TakeElk(due: bool) | SenderTimeout(due: bool) | CheckSender | SenderHangUp
    | SenderAbort | FinalFlush
  datatype UpdaterAct = TestUpdater | FinishRefresh | WakeUpdater
  datatype MergerAct = TestMerger | TakeSnapshot | MergerTimeout | MergerHangUp

  datatype Step =
    | Signal | MainStep | ByReceiver(r: ReceiverAct) | ByWorker(i: nat, w: WorkerAct) | BySender(a: SenderAct)
    | ByUpdater(u: UpdaterAct) | ByMerger(m: MergerAct)

  /** Without feeds there is no updater, and nothing to wait for. */
  ghost predicate Initial(c: Config, s: System) {
    && c.Valid()
    && s == System(false, if c.feeds then AwaitIntel else AwaitReceiver, ReceiverHead, seq(c.workers, _ => WorkerHead),
                   SenderHead, 0, [], [], [], [], [], [],
                   !c.feeds, if c.feeds then UpdaterHead else UpdaterDone, 0, MergerHead)
  }

  /** Main is past the join of the sender. */
  predicate PastSender(main: Main) {
    main == AwaitUpdater || main == AwaitMerger || main == Returned
  }

  /** Main has not yet dropped its sender of the parsed queue. */
  predicate BeforeWorkers(main: Main) {
    main == AwaitIntel || main == AwaitReceiver
  }

  predicate ReceiverEnded(r: Receiver) {
    r == ReceiverDone || r == ReceiverPanicked
  }

  /** Some sender of the parsed queue is still alive: main's own or the receiver's. */
  predicate ParsedOpen(s: System) {
    BeforeWorkers(s.main) || !ReceiverEnded(s.receiver)
  }

  /** Some sender of the ELK queue is still alive: main's own or a worker's. */
  predicate ElkOpen(s: System) {
    BeforeWorkers(s.main) || s.main.JoinWorkers? || exists i :: 0 <= i < |s.workers| && s.workers[i] != WorkerDone
  }

  /** Some sender of the merger's queue is still alive: main's own or a worker's. */
  predicate MergerOpen(s: System) {
    (s.main != AwaitMerger && s.main != Returned && s.main != Failed)
    || exists i :: 0 <= i < |s.workers| && s.workers[i] != WorkerDone
  }

  function SetWorker(s: System, i: nat, w: Worker): System
    requires i < |s.workers|
  {
    s.(workers := s.workers[i := w])
  }

  /** The buffered logs become one attempted batch. */
  function Attempted(s: System): System {
    if s.buffer == [] then s else s.(attempts := s.attempts + [s.buffer], buffer := [])
  }

  // ----- The steps of each task; a step that is not enabled leaves the system alone -----

  /** The receiver's loop test: while !shutdown. */
  function TestingReceiver(s: System): System {
    if s.receiver != ReceiverHead then s else s.(receiver := if s.shutdown then ReceiverDone else Reading)
  }

  /** A line that parses and normalizes. */
  function ReadingPacket(s: System): System {
    if s.receiver != Reading then s else s.(receiver := Holding(s.produced), produced := s.produced + 1)
  }

  /** A timeout, or a line that is blank, an index line, not JSON, or not an IP packet. */
  function ReadingNothing(s: System): System {
    if s.receiver != Reading then s else s.(receiver := ReceiverHead)
  }

  /** End of input or a read error. */
  function EndingInput(s: System): System {
    if s.receiver != Reading then s else s.(receiver := ReceiverDone)
  }

  /** A long line that is not JSON, cut inside a character for the log. */
  function Panicking(s: System): System {
    if s.receiver != Reading then s else s.(receiver := ReceiverPanicked)
  }

  /** parsed_tx.try_send: a full queue refuses the packet. */
  function SendingParsed(c: Config, s: System): System {
    if !s.receiver.Holding? then s
    else if |s.parsed| < c.parsedCapacity
    then s.(receiver := ReceiverHead, parsed := s.parsed + [s.receiver.packet])
    else s.(receiver := ReceiverHead, refusedByParsed := s.refusedByParsed + [s.receiver.packet])
  }

  function TestingWorker(s: System, i: nat): System {
    if i >= |s.workers| || s.workers[i] != WorkerHead then s
    else SetWorker(s, i, if s.shutdown then WorkerDone else Waiting)
  }

  function TakingParsed(s: System, i: nat): System {
    if i >= |s.workers| || s.workers[i] != Waiting || s.parsed == [] then s
    else SetWorker(s, i, Enriching(s.parsed[0])).(parsed := s.parsed[1..])
  }

  /** recv_timeout only times out on an empty queue. */
  function TimingOutWorker(s: System, i: nat): System {
    if i >= |s.workers| || s.workers[i] != Waiting || s.parsed != [] then s
    else SetWorker(s, i, if s.shutdown then WorkerDone else WorkerHead)
  }

  /** A channel reports Disconnected only when it is empty and has no senders. */
  function HangingUpWorker(s: System, i: nat): System {
    if i >= |s.workers| || s.workers[i] != Waiting || s.parsed != [] || ParsedOpen(s) then s
    else SetWorker(s, i, WorkerDone)
  }

  /** elk_tx.try_send: refused by a full queue, and by one whose receiver is gone. */
  function SendingElk(c: Config, s: System, i: nat): System {
    if i >= |s.workers| || !s.workers[i].Enriching? then s
    else if s.sender.SenderDone? || |s.elk| >= c.elkCapacity
    then SetWorker(s, i, WorkerHead).(refusedByElk := s.refusedByElk + [s.workers[i].packet])
    else SetWorker(s, i, WorkerHead).(elk := s.elk + [s.workers[i].packet])
  }

  /** The sender's loop test: while !shutdown or the queue is not empty. */
  function TestingSender(s: System): System {
    if s.sender != SenderHead then s
    else s.(sender := if s.shutdown && s.elk == [] then Closing else Receiving)
  }

  function SkippingPass(s: System): System {
    if s.sender != Receiving then s else s.(sender := SenderHead)
  }

  /** A received log is buffered; a full batch is flushed, a smaller one when it is due. */
  function TakingElk(c: Config, s: System, due: bool): System {
    if s.sender != Receiving || s.elk == [] then s
    else
      var s' := s.(sender := SenderHead, elk := s.elk[1..], buffer := s.buffer + [s.elk[0]]);
      if |s'.buffer| >= c.batchSize || due then Attempted(s') else s'
  }

  function TimingOutSender(s: System, due: bool): System {
    if s.sender != Receiving || s.elk != [] then s
    else
      var s' := s.(sender := TimedOut);
      if due then Attempted(s') else s'
  }

  /** The look at the flag after a timeout; by then the queue may hold something again. */
  function CheckingSender(s: System): System {
    if s.sender != TimedOut then s else s.(sender := if s.shutdown then Closing else SenderHead)
  }

  function HangingUpSender(s: System): System {
    if s.sender != Receiving || s.elk != [] || ElkOpen(s) then s else s.(sender := Closing)
  }

  /** The blocking receive could not be joined: the task returns an error with its buffer unsent. */
  function AbortingSender(s: System): System {
    if s.sender != Receiving then s else s.(sender := SenderDone(false))
  }

  function FlushingFinally(s: System): System {
    if s.sender != Closing then s else Attempted(s).(sender := SenderDone(true))
  }

  /** One turn of the updater: the flag, a refresh that makes the intelligence ready, a sleep cut short by the flag. */
  function UpdaterNext(s: System, act: UpdaterAct): System {
    match act
    case TestUpdater =>
      if s.updater != UpdaterHead then s else s.(updater := if s.shutdown then UpdaterDone else Refreshing)
    case FinishRefresh => if s.updater != Refreshing then s else s.(updater := Sleeping, ready := true)
    case WakeUpdater => if s.updater != Sleeping then s else s.(updater := UpdaterHead)
  }

  function MergerNext(s: System, act: MergerAct): System {
    match act
    case TestMerger =>
      if s.merger != MergerHead then s else s.(merger := if s.shutdown then MergerDone else MergerWaiting)
    case TakeSnapshot =>
      if s.merger != MergerWaiting || s.snapshots == 0 then s
      else s.(merger := MergerHead, snapshots := s.snapshots - 1)
    case MergerTimeout =>
      if s.merger != MergerWaiting || s.snapshots > 0 then s
      else s.(merger := if s.shutdown then MergerDone else MergerHead)
    case MergerHangUp =>
      if s.merger != MergerWaiting || s.snapshots > 0 || MergerOpen(s) then s else s.(merger := MergerDone)
  }

  /**
   Wait for the intelligence, await the receiver, drop parsed_tx, join the workers in order, drop
   elk_tx, await the sender, await the updater if there is one, drop state_merger_tx, join the merger.
   */
  function AdvancingMain(s: System): System {
    match s.main
    case AwaitIntel => if s.ready then s.(main := AwaitReceiver) else s
    case AwaitReceiver =>
      if s.receiver == ReceiverDone then s.(main := JoinWorkers(0))
      else if s.receiver == ReceiverPanicked then s.(main := Failed)
      else s
    case JoinWorkers(k) =>
      if k >= |s.workers| then s.(main := AwaitSender)
      else if s.workers[k] == WorkerDone then s.(main := JoinWorkers(k + 1))
      else s
    case AwaitSender =>
      if s.sender.SenderDone? then s.(main := if s.sender.ok then AwaitUpdater else Failed) else s
    case AwaitUpdater => if s.updater == UpdaterDone then s.(main := AwaitMerger) else s
    case AwaitMerger => if s.merger == MergerDone then s.(main := Returned) else s
    case Returned => s
    case Failed => s
  }

  function ReceiverNext(c: Config, s: System, act: ReceiverAct): System {
    match act
    case TestReceiver => TestingReceiver(s)
    case ReadPacket => ReadingPacket(s)
    case ReadNothing => ReadingNothing(s)
    case EndOfInput => EndingInput(s)
    case SendParsed => SendingParsed(c, s)
    case PanicReceiver => Panicking(s)
  }

  /** What a worker's step does to the packets. */
  function WorkerMoves(c: Config, s: System, i: nat, act: WorkerAct): System {
    match act
    case TestWorker => TestingWorker(s, i)
    case TakeParsed => TakingParsed(s, i)
    case WorkerTimeout => TimingOutWorker(s, i)
    case WorkerHangUp => HangingUpWorker(s, i)
    case SendElk(_) => SendingElk(c, s, i)
  }

  /** A worker offers a snapshot after every hundredth packet, and when it ends. */
  predicate Offers(s: System, s': System, i: nat, act: WorkerAct) {
    && i < |s.workers| == |s'.workers| && s'.workers[i] != s.workers[i]
    && (s'.workers[i] == WorkerDone || act == SendElk(true))
  }

  /** state_merger_tx.try_send, on a queue of twice the number of workers. */
  function OfferSnapshot(c: Config, s: System): System {
    if s.merger != MergerDone && s.snapshots < 2 * c.workers then s.(snapshots := s.snapshots + 1) else s
  }

  function WorkerNext(c: Config, s: System, i: nat, act: WorkerAct): System {
    var s' := WorkerMoves(c, s, i, act);
    if Offers(s, s', i, act) then OfferSnapshot(c, s') else s'
  }

  function SenderNext(c: Config, s: System, act: SenderAct): System {
    match act
    case TestSender => TestingSender(s)
    case SkipOpenBreaker => SkippingPass(s)
    case TakeElk(due) => TakingElk(c, s, due)
    case SenderTimeout(due) => TimingOutSender(s, due)
    case CheckSender => CheckingSender(s)
    case SenderHangUp => HangingUpSender(s)
    case SenderAbort => AbortingSender(s)
    case FinalFlush => FlushingFinally(s)
  }

  /** Receiver, workers and sender take no step before they are spawned. */
  function Next(c: Config, s: System, step: Step): System {
    match step
    case Signal => s.(shutdown := true)
    case MainStep => AdvancingMain(s)
    case ByReceiver(act) => if s.main == AwaitIntel then s else ReceiverNext(c, s, act)
    case ByWorker(i, act) => if s.main == AwaitIntel then s else WorkerNext(c, s, i, act)
    case BySender(act) => if s.main == AwaitIntel then s else SenderNext(c, s, act)
    case ByUpdater(act) => UpdaterNext(s, act)
    case ByMerger(act) => MergerNext(s, act)
  }

  function Execute(c: Config, s: System, steps: seq<Step>): System
    decreases |steps|
  {
    if steps == [] then s else Next(c, Execute(c, s, steps[..|steps| - 1]), steps[|steps| - 1])
  }

  // ----- Where the packets are -----

  function ReceiverHand(r: Receiver): seq<nat> {
    if r.Holding? then [r.packet] else []
  }

  function WorkerHand(w: Worker): seq<nat> {
    if w.Enriching? then [w.packet] else []
  }

  function Hands(workers: seq<Worker>): seq<nat> {
    if workers == [] then [] else WorkerHand(workers[0]) + Hands(workers[1..])
  }

  function Count(q: seq<nat>, p: nat): nat {
    if q == [] then 0 else Count(q[1..], p) + if q[0] == p then 1 else 0
  }

  /** How often a packet occurs in each place, added up. */
  ghost function Occurrences(s: System, p: nat): nat {
    Count(ReceiverHand(s.receiver), p) + Count(s.refusedByParsed, p) + Count(s.parsed, p) + Count(Hands(s.workers), p)
    + Count(s.refusedByElk, p) + Count(s.elk, p) + Count(s.buffer, p) + Count(Flatten(s.attempts), p)
  }

  /** Every normalized packet is in exactly one place, once; nothing else is anywhere. */
  ghost predicate Conserved(s: System) {
    forall p: nat :: Occurrences(s, p) == if p < s.produced then 1 else 0
  }

  lemma {:induction false} CountConcat(a: seq<nat>, b: seq<nat>, p: nat)
    ensures Count(a + b, p) == Count(a, p) + Count(b, p)
  {
    if a == [] {
      assert a + b == b;
    } else {
      assert (a + b)[1..] == a[1..] + b;
      CountConcat(a[1..], b, p);
    }
  }

  lemma CountHead(q: seq<nat>, p: nat)
    requires q != []
    ensures Count(q, p) == Count(q[1..], p) + if q[0] == p then 1 else 0
  {
  }

  lemma CountSnoc(q: seq<nat>, x: nat, p: nat)
    ensures Count(q + [x], p) == Count(q, p) + if x == p then 1 else 0
    ensures Count([x], p) == if x == p then 1 else 0
    ensures Count([], p) == 0
  {
    CountConcat(q, [x], p);
  }

  lemma {:induction false} HandsUpdate(workers: seq<Worker>, i: nat, w: Worker, p: nat)
    requires i < |workers|
    ensures Count(Hands(workers[i := w]), p) + Count(WorkerHand(workers[i]), p) ==
            Count(Hands(workers), p) + Count(WorkerHand(w), p)
  {
    hide Count, WorkerHand;
    var workers' := workers[i := w];
    CountConcat(WorkerHand(workers[0]), Hands(workers[1..]), p);
    CountConcat(WorkerHand(workers'[0]), Hands(workers'[1..]), p);
    if i == 0 {
      assert workers'[1..] == workers[1..];
    } else {
      assert workers'[1..] == workers[1..][i - 1 := w];
      HandsUpdate(workers[1..], i - 1, w, p);
    }
  }

  lemma AttemptedKeepsOccurrences(s: System, p: nat)
    ensures Occurrences(Attempted(s), p) == Occurrences(s, p)
  {
    hide Count, Hands;
    CountSnoc([], 0, p);
    FlattenSnoc(s.attempts, s.buffer);
    CountConcat(Flatten(s.attempts), s.buffer, p);
  }

  lemma ReceiverOccurrences(c: Config, s: System, act: ReceiverAct, p: nat)
    ensures var s' := ReceiverNext(c, s, act);
            Occurrences(s', p) == Occurrences(s, p) + if s'.produced > s.produced && p == s.produced then 1 else 0
  {
    hide Count, Hands, Flatten;
    match act
    case ReadPacket => CountSnoc([], s.produced, p);
    case SendParsed =>
      if s.receiver.Holding? {
        var x := s.receiver.packet;
        CountSnoc([], x, p);
        if |s.parsed| < c.parsedCapacity {
          CountSnoc(s.parsed, x, p);
        } else {
          CountSnoc(s.refusedByParsed, x, p);
        }
      }
    case _ =>
  }

  lemma SetWorkerOccurrences(s: System, i: nat, w: Worker, p: nat)
    requires i < |s.workers|
    ensures Occurrences(SetWorker(s, i, w), p) + Count(WorkerHand(s.workers[i]), p) ==
            Occurrences(s, p) + Count(WorkerHand(w), p)
  {
    hide Count, Hands, Flatten;
    HandsUpdate(s.workers, i, w, p);
  }

  lemma TakingParsedOccurrences(s: System, i: nat, p: nat)
    ensures Occurrences(TakingParsed(s, i), p) == Occurrences(s, p)
  {
    hide Count, Hands, Flatten;
    if i < |s.workers| && s.workers[i] == Waiting && s.parsed != [] {
      SetWorkerOccurrences(s, i, Enriching(s.parsed[0]), p);
      CountHead(s.parsed, p);
      CountSnoc([], s.parsed[0], p);
    }
  }

  lemma SendingElkOccurrences(c: Config, s: System, i: nat, p: nat)
    ensures Occurrences(SendingElk(c, s, i), p) == Occurrences(s, p)
  {
    hide Count, Hands, Flatten;
    if i < |s.workers| && s.workers[i].Enriching? {
      var x := s.workers[i].packet;
      SetWorkerOccurrences(s, i, WorkerHead, p);
      CountSnoc([], x, p);
      if s.sender.SenderDone? || |s.elk| >= c.elkCapacity {
        CountSnoc(s.refusedByElk, x, p);
      } else {
        CountSnoc(s.elk, x, p);
      }
    }
  }

  lemma MovesOccurrences(c: Config, s: System, i: nat, act: WorkerAct, p: nat)
    ensures Occurrences(WorkerMoves(c, s, i, act), p) == Occurrences(s, p)
  {
    hide Count, Hands, Flatten;
    match act
    case TakeParsed => TakingParsedOccurrences(s, i, p);
    case SendElk(_) => SendingElkOccurrences(c, s, i, p);
    case _ =>
      var s' := WorkerMoves(c, s, i, act);
      if s' != s {
        SetWorkerOccurrences(s, i, s'.workers[i], p);
      }
  }

  /** The snapshot part of a worker's step leaves the packets alone. */
  lemma WorkerSnapshots(c: Config, s: System, i: nat, act: WorkerAct)
    ensures exists n: nat :: WorkerNext(c, s, i, act) == WorkerMoves(c, s, i, act).(snapshots := n)
    ensures WorkerMoves(c, s, i, act).snapshots <= 2 * c.workers ==> WorkerNext(c, s, i, act).snapshots <= 2 * c.workers
  {
    hide WorkerMoves;
    var s' := WorkerMoves(c, s, i, act);
    assert s' == s'.(snapshots := s'.snapshots);
    assert WorkerNext(c, s, i, act) == s'.(snapshots := WorkerNext(c, s, i, act).snapshots);
  }

  lemma WorkerOccurrences(c: Config, s: System, i: nat, act: WorkerAct, p: nat)
    ensures Occurrences(WorkerNext(c, s, i, act), p) == Occurrences(s, p)
  {
    hide Count, Hands, Flatten, WorkerMoves, WorkerNext;
    MovesOccurrences(c, s, i, act, p);
    WorkerSnapshots(c, s, i, act);
  }

  lemma TakingElkOccurrences(c: Config, s: System, due: bool, p: nat)
    ensures Occurrences(TakingElk(c, s, due), p) == Occurrences(s, p)
  {
    hide Count, Hands, Flatten;
    if s.sender == Receiving && s.elk != [] {
      var s' := s.(sender := SenderHead, elk := s.elk[1..], buffer := s.buffer + [s.elk[0]]);
      CountHead(s.elk, p);
      CountSnoc(s.buffer, s.elk[0], p);
      AttemptedKeepsOccurrences(s', p);
    }
  }

  lemma TimingOutOccurrences(s: System, due: bool, p: nat)
    ensures Occurrences(TimingOutSender(s, due), p) == Occurrences(s, p)
  {
    hide Count, Hands, Flatten;
    AttemptedKeepsOccurrences(s.(sender := TimedOut), p);
  }

  lemma SenderOccurrences(c: Config, s: System, act: SenderAct, p: nat)
    ensures Occurrences(SenderNext(c, s, act), p) == Occurrences(s, p)
  {
    hide Count, Hands, Flatten;
    match act
    case TakeElk(due) => TakingElkOccurrences(c, s, due, p);
    case SenderTimeout(due) => TimingOutOccurrences(s, due, p);
    case FinalFlush => AttemptedKeepsOccurrences(s, p);
    case _ =>
  }

  lemma MainOnly(s: System)
    ensures AdvancingMain(s) == s.(main := AdvancingMain(s).main)
  {
  }

  lemma MainOccurrences(s: System, p: nat)
    ensures Occurrences(AdvancingMain(s), p) == Occurrences(s, p)
  {
    hide Count, Hands, Flatten, AdvancingMain;
    MainOnly(s);
  }

  lemma WorkerKeepsProduced(c: Config, s: System, i: nat, act: WorkerAct)
    ensures WorkerNext(c, s, i, act).produced == s.produced
  {
    hide WorkerMoves, WorkerNext;
    MovesOnlyWorker(c, s, i, act);
    WorkerSnapshots(c, s, i, act);
  }

  lemma SenderKeepsProduced(c: Config, s: System, act: SenderAct)
    ensures SenderNext(c, s, act).produced == s.produced
  {
    hide ElkOpen;
  }

  lemma OthersKeepProduced(c: Config, s: System, step: Step)
    requires !step.ByReceiver? && !step.ByWorker? && !step.BySender?
    ensures Next(c, s, step).produced == s.produced
  {
    hide ReceiverNext, WorkerNext, SenderNext, MergerOpen;
  }

  lemma ProducedStep(c: Config, s: System, step: Step)
    ensures s.produced <= Next(c, s, step).produced <= s.produced + 1
    ensures !step.ByReceiver? ==> Next(c, s, step).produced == s.produced
  {
    hide WorkerNext, SenderNext, AdvancingMain, UpdaterNext, MergerNext;
    match step
    case ByReceiver(_) =>
    case ByWorker(i, act) => WorkerKeepsProduced(c, s, i, act);
    case BySender(act) => SenderKeepsProduced(c, s, act);
    case _ => OthersKeepProduced(c, s, step);
  }

  lemma StepOccurrences(c: Config, s: System, step: Step, p: nat)
    ensures var s' := Next(c, s, step);
            Occurrences(s', p) == Occurrences(s, p) + if s'.produced > s.produced && p == s.produced then 1 else 0
  {
    hide Count, Hands, Flatten, ReceiverNext, WorkerNext, SenderNext, AdvancingMain, UpdaterNext, MergerNext;
    ProducedStep(c, s, step);
    match step
    case ByReceiver(act) => ReceiverOccurrences(c, s, act, p);
    case ByWorker(i, act) => WorkerOccurrences(c, s, i, act, p);
    case BySender(act) => SenderOccurrences(c, s, act, p);
    case MainStep => MainOccurrences(s, p);
    case Signal =>
    case ByUpdater(act) => UpdaterOnly(s, act);
    case ByMerger(act) => MergerOnly(s, act);
  }

  lemma StepConserves(c: Config, s: System, step: Step)
    requires Conserved(s)
    ensures Conserved(Next(c, s, step))
  {
    forall p: nat
      ensures Occurrences(Next(c, s, step), p) == if p < Next(c, s, step).produced then 1 else 0
    {
      assert Occurrences(s, p) == if p < s.produced then 1 else 0;
      ProducedStep(c, s, step);
      StepOccurrences(c, s, step, p);
    }
  }

  lemma {:induction false} NoHands(n: nat)
    ensures Hands(seq(n, _ => WorkerHead)) == []
  {
    if n > 0 {
      assert seq(n, _ => WorkerHead)[1..] == seq(n - 1, _ => WorkerHead);
      NoHands(n - 1);
    }
  }

  /** At every reachable state each normalized packet is in exactly one place. */
  lemma {:induction false} ExactlyOnePlace(c: Config, s: System, steps: seq<Step>)
    requires Initial(c, s)
    ensures Conserved(Execute(c, s, steps))
    decreases |steps|
  {
    if steps == [] {
      NoHands(c.workers);
    } else {
      ExactlyOnePlace(c, s, steps[..|steps| - 1]);
      StepConserves(c, Execute(c, s, steps[..|steps| - 1]), steps[|steps| - 1]);
    }
  }

  // ----- Bounds -----

  /**
   No queue exceeds its capacity, the buffer stays below the batch size, and every batch has 1 to
   batchSize logs.
   */
  ghost predicate WithinBounds(c: Config, s: System) {
    && |s.parsed| <= c.parsedCapacity && |s.elk| <= c.elkCapacity && s.snapshots <= 2 * c.workers
    && |s.buffer| < c.batchSize
    && forall b :: b in s.attempts ==> 1 <= |b| <= c.batchSize
  }

  lemma AttemptedWithinBounds(c: Config, s: System)
    requires c.Valid() && WithinBounds(c, s.(buffer := [])) && |s.buffer| <= c.batchSize
    ensures WithinBounds(c, Attempted(s))
  {
  }

  lemma TakingElkWithinBounds(c: Config, s: System, due: bool)
    requires c.Valid() && WithinBounds(c, s)
    ensures WithinBounds(c, TakingElk(c, s, due))
  {
    hide Attempted;
    if s.sender == Receiving && s.elk != [] {
      AttemptedWithinBounds(c, s.(sender := SenderHead, elk := s.elk[1..], buffer := s.buffer + [s.elk[0]]));
    }
  }

  lemma TimingOutWithinBounds(c: Config, s: System, due: bool)
    requires c.Valid() && WithinBounds(c, s)
    ensures WithinBounds(c, TimingOutSender(s, due))
  {
    hide Attempted;
    AttemptedWithinBounds(c, s.(sender := TimedOut));
  }

  lemma FlushingWithinBounds(c: Config, s: System)
    requires c.Valid() && WithinBounds(c, s)
    ensures WithinBounds(c, FlushingFinally(s))
  {
    hide Attempted;
    AttemptedWithinBounds(c, s);
  }

  lemma SenderWithinBounds(c: Config, s: System, act: SenderAct)
    requires c.Valid() && WithinBounds(c, s)
    ensures WithinBounds(c, SenderNext(c, s, act))
  {
    hide ElkOpen, TakingElk, TimingOutSender, FlushingFinally;
    match act
    case TakeElk(due) => TakingElkWithinBounds(c, s, due);
    case SenderTimeout(due) => TimingOutWithinBounds(c, s, due);
    case FinalFlush => FlushingWithinBounds(c, s);
    case _ =>
  }

  lemma MovesWithinBounds(c: Config, s: System, i: nat, act: WorkerAct)
    requires WithinBounds(c, s)
    ensures WithinBounds(c, WorkerMoves(c, s, i, act))
  {
  }

  lemma WorkerWithinBounds(c: Config, s: System, i: nat, act: WorkerAct)
    requires WithinBounds(c, s)
    ensures WithinBounds(c, WorkerNext(c, s, i, act))
  {
    hide WorkerMoves, WorkerNext;
    MovesWithinBounds(c, s, i, act);
    WorkerSnapshots(c, s, i, act);
  }

  lemma ReceiverWithinBounds(c: Config, s: System, act: ReceiverAct)
    requires WithinBounds(c, s)
    ensures WithinBounds(c, ReceiverNext(c, s, act))
  {
  }

  lemma MergerWithinBounds(c: Config, s: System, act: MergerAct)
    requires WithinBounds(c, s)
    ensures WithinBounds(c, MergerNext(s, act))
  {
    hide MergerOpen;
  }

  lemma StepWithinBounds(c: Config, s: System, step: Step)
    requires c.Valid() && WithinBounds(c, s)
    ensures WithinBounds(c, Next(c, s, step))
  {
    hide WorkerNext, SenderNext, ReceiverNext, AdvancingMain, UpdaterNext, MergerNext;
    match step
    case ByReceiver(act) => ReceiverWithinBounds(c, s, act);
    case ByWorker(i, act) => WorkerWithinBounds(c, s, i, act);
    case BySender(act) => SenderWithinBounds(c, s, act);
    case MainStep => MainOnly(s);
    case ByUpdater(act) => UpdaterOnly(s, act);
    case ByMerger(act) => MergerWithinBounds(c, s, act);
    case Signal =>
  }

  lemma {:induction false} AlwaysWithinBounds(c: Config, s: System, steps: seq<Step>)
    requires Initial(c, s)
    ensures WithinBounds(c, Execute(c, s, steps))
    decreases |steps|
  {
    if steps != [] {
      AlwaysWithinBounds(c, s, steps[..|steps| - 1]);
      StepWithinBounds(c, Execute(c, s, steps[..|steps| - 1]), steps[|steps| - 1]);
    }
  }

  // ----- The join and drop order, and the drain at end of input -----

  predicate AllDone(workers: seq<Worker>) {
    forall i :: 0 <= i < |workers| ==> workers[i] == WorkerDone
  }

  /** Main only moves on when what it waits for has ended, and nothing moves before it is spawned. */
  ghost predicate Joined(c: Config, s: System) {
    && |s.workers| == c.workers
    && (s.main == AwaitIntel ==>
          && c.feeds && s.receiver == ReceiverHead && s.sender == SenderHead && s.parsed == [] && s.elk == []
          && forall i :: 0 <= i < |s.workers| ==> s.workers[i] == WorkerHead)
    && (!BeforeWorkers(s.main) && s.main != Failed ==> s.receiver == ReceiverDone)
    && (s.main.JoinWorkers? ==> forall i :: 0 <= i < s.main.joined && i < |s.workers| ==> s.workers[i] == WorkerDone)
    && (s.main == AwaitSender || PastSender(s.main) ==> AllDone(s.workers))
    && (PastSender(s.main) ==> s.sender == SenderDone(true))
    && (s.main == Failed ==> s.receiver == ReceiverPanicked || s.sender == SenderDone(false))
    && (s.main == Returned ==> s.merger == MergerDone)
    && (s.sender == SenderDone(true) ==> s.buffer == [])
  }

  /** The updater ends only on the flag, and main waits for a first load and for the updater's end. */
  ghost predicate Loaded(c: Config, s: System) {
    && (c.feeds && s.updater == UpdaterDone ==> s.shutdown)
    && (!c.feeds ==> s.updater == UpdaterDone)
    && (s.updater == Sleeping || s.main != AwaitIntel ==> s.ready)
    && (s.main == AwaitMerger || s.main == Returned ==> s.updater == UpdaterDone)
  }

  /** While the flag is clear, a worker only ends on a drained parsed queue, and the sender on a drained ELK queue. */
  ghost predicate DrainedBehind(s: System) {
    !s.shutdown ==>
      && ((exists i :: 0 <= i < |s.workers| && s.workers[i] == WorkerDone) ==> s.parsed == [] && !ParsedOpen(s))
      && (s.sender == Closing || s.sender == SenderDone(true) ==> s.elk == [] && !ElkOpen(s))
  }

  ghost predicate Inv(c: Config, s: System) {
    Joined(c, s) && Loaded(c, s) && DrainedBehind(s)
  }

  lemma ReceiverStepDrains(c: Config, s: System, act: ReceiverAct)
    requires Inv(c, s) && s.main != AwaitIntel
    ensures Inv(c, ReceiverNext(c, s, act))
  {
  }

  /** A worker's move leaves the other workers and the other tasks where they are. */
  lemma MovesOnlyWorker(c: Config, s: System, i: nat, act: WorkerAct)
    ensures var s' := WorkerMoves(c, s, i, act);
            && |s'.workers| == |s.workers|
            && (forall j :: 0 <= j < |s.workers| && j != i ==> s'.workers[j] == s.workers[j])
            && (i < |s.workers| && s.workers[i] == WorkerDone ==> s'.workers[i] == WorkerDone)
            && s' == s.(workers := s'.workers, parsed := s'.parsed, elk := s'.elk, refusedByElk := s'.refusedByElk)
  {
  }

  /** What a worker's move does to the queues, and when it ends. */
  lemma MovesQueues(c: Config, s: System, i: nat, act: WorkerAct)
    ensures var s' := WorkerMoves(c, s, i, act);
            && (s.parsed == [] ==> s'.parsed == [])
            && (s'.elk != s.elk ==> i < |s.workers| && s.workers[i].Enriching? && !s.sender.SenderDone?)
            && (i < |s.workers| && s'.workers[i] == WorkerDone && s.workers[i] != WorkerDone ==>
                  s.shutdown || (s.parsed == [] && !ParsedOpen(s)))
  {
  }

  lemma MovesDrain(c: Config, s: System, i: nat, act: WorkerAct)
    requires Inv(c, s) && s.main != AwaitIntel
    ensures Inv(c, WorkerMoves(c, s, i, act))
  {
    hide WorkerMoves;
    MovesOnlyWorker(c, s, i, act);
    MovesQueues(c, s, i, act);
    var s' := WorkerMoves(c, s, i, act);
    assert Loaded(c, s') && Joined(c, s');
    if j :| 0 <= j < |s'.workers| && s'.workers[j] == WorkerDone && s.workers[j] == WorkerDone {
      assert !s.shutdown ==> s.parsed == [] && !ParsedOpen(s);
    }
  }

  lemma WorkerStepDrains(c: Config, s: System, i: nat, act: WorkerAct)
    requires Inv(c, s) && s.main != AwaitIntel
    ensures Inv(c, WorkerNext(c, s, i, act))
  {
    hide WorkerMoves, WorkerNext;
    MovesDrain(c, s, i, act);
    WorkerSnapshots(c, s, i, act);
  }

  /** A sender's step touches its own buffer, attempts and the ELK queue, and ends as its tests allow. */
  lemma SenderOnly(c: Config, s: System, act: SenderAct)
    ensures var s' := SenderNext(c, s, act);
            && s' == s.(sender := s'.sender, elk := s'.elk, buffer := s'.buffer, attempts := s'.attempts)
            && (s.elk == [] ==> s'.elk == [])
            && (s.sender.SenderDone? ==> s' == s)
            && (s'.sender == SenderDone(true) && s.sender != SenderDone(true) ==>
                  s.sender == Closing && s'.buffer == [] && s'.elk == s.elk)
            && (s'.sender == Closing && s.sender != Closing ==>
                  s.shutdown || (s'.elk == [] && !ElkOpen(s)))
  {
    hide ElkOpen, Attempted;
    AttemptedOnly(s);
    AttemptedOnly(s.(sender := TimedOut));
    if s.elk != [] {
      AttemptedOnly(s.(sender := SenderHead, elk := s.elk[1..], buffer := s.buffer + [s.elk[0]]));
    }
  }

  lemma AttemptedOnly(s: System)
    ensures Attempted(s) == s.(buffer := [], attempts := Attempted(s).attempts)
  {
  }

  lemma SenderStepDrains(c: Config, s: System, act: SenderAct)
    requires Inv(c, s) && s.main != AwaitIntel
    ensures Inv(c, SenderNext(c, s, act))
  {
    hide SenderNext;
    SenderOnly(c, s, act);
  }

  lemma MainStepJoined(c: Config, s: System)
    requires Joined(c, s)
    ensures Joined(c, AdvancingMain(s))
  {
  }

  lemma MainStepLoaded(c: Config, s: System)
    requires Loaded(c, s)
    ensures Loaded(c, AdvancingMain(s))
  {
  }

  lemma MainStepDrains(c: Config, s: System)
    requires Inv(c, s)
    ensures DrainedBehind(AdvancingMain(s))
  {
    hide Loaded;
  }

  /** The predicates do not look at the flag except through the drain, nor at the snapshots. */
  lemma SignalDrains(c: Config, s: System)
    requires Inv(c, s)
    ensures Inv(c, s.(shutdown := true))
  {
    assert Joined(c, s.(shutdown := true)) by {
      hide DrainedBehind, Loaded;
    }
  }

  lemma UpdaterStepDrains(c: Config, s: System, act: UpdaterAct)
    requires Inv(c, s)
    ensures Inv(c, UpdaterNext(s, act))
  {
    hide UpdaterNext;
    UpdaterOnly(s, act);
    var s' := UpdaterNext(s, act);
    assert Joined(c, s') && DrainedBehind(s') by {
      hide Loaded;
    }
  }

  lemma UpdaterOnly(s: System, act: UpdaterAct)
    ensures UpdaterNext(s, act) == s.(updater := UpdaterNext(s, act).updater, ready := UpdaterNext(s, act).ready)
    ensures s.updater == UpdaterDone ==> UpdaterNext(s, act).updater == UpdaterDone
    ensures s.updater != UpdaterDone && UpdaterNext(s, act).updater == UpdaterDone ==> s.shutdown
    ensures s.ready ==> UpdaterNext(s, act).ready
    ensures UpdaterNext(s, act).updater == Sleeping && s.updater != Sleeping ==> UpdaterNext(s, act).ready
  {
  }

  lemma MergerOnly(s: System, act: MergerAct)
    ensures MergerNext(s, act) == s.(merger := MergerNext(s, act).merger, snapshots := MergerNext(s, act).snapshots)
    ensures s.merger == MergerDone ==> MergerNext(s, act).merger == MergerDone
  {
    hide MergerOpen;
  }

  lemma MergerStepDrains(c: Config, s: System, act: MergerAct)
    requires Inv(c, s)
    ensures Inv(c, MergerNext(s, act))
  {
    hide MergerNext;
    MergerOnly(s, act);
    var s' := MergerNext(s, act);
    assert DrainedBehind(s') && Loaded(c, s') by {
      hide Joined;
    }
  }

  lemma StepDrains(c: Config, s: System, step: Step)
    requires Inv(c, s)
    ensures Inv(c, Next(c, s, step))
  {
    hide ReceiverNext, WorkerNext, SenderNext, AdvancingMain, UpdaterNext, MergerNext, Joined, Loaded, DrainedBehind;
    match step
    case MainStep =>
      MainStepJoined(c, s);
      MainStepLoaded(c, s);
      MainStepDrains(c, s);
    case ByReceiver(act) =>
      if s.main != AwaitIntel {
        ReceiverStepDrains(c, s, act);
      }
    case ByWorker(i, act) =>
      if s.main != AwaitIntel {
        WorkerStepDrains(c, s, i, act);
      }
    case BySender(act) =>
      if s.main != AwaitIntel {
        SenderStepDrains(c, s, act);
      }
    case Signal => SignalDrains(c, s);
    case ByUpdater(act) => UpdaterStepDrains(c, s, act);
    case ByMerger(act) => MergerStepDrains(c, s, act);
  }

  lemma {:induction false} AlwaysDrains(c: Config, s: System, steps: seq<Step>)
    requires Initial(c, s)
    ensures Inv(c, Execute(c, s, steps))
    decreases |steps|
  {
    if steps != [] {
      AlwaysDrains(c, s, steps[..|steps| - 1]);
      StepDrains(c, Execute(c, s, steps[..|steps| - 1]), steps[|steps| - 1]);
    }
  }

  lemma {:induction false} DoneWorkersHoldNothing(workers: seq<Worker>)
    requires AllDone(workers)
    ensures Hands(workers) == []
  {
    if workers != [] {
      DoneWorkersHoldNothing(workers[1..]);
    }
  }

  /**
   End-of-input drain: when run gets past joining the sender and the flag was never set, both queues,
   the batch buffer and every hand are empty, so each packet was refused by one of the two queues or
   was in exactly one attempted batch.
   */
  lemma EofDrain(c: Config, s: System, steps: seq<Step>, p: nat)
    requires Initial(c, s)
    requires PastSender(Execute(c, s, steps).main) && !Execute(c, s, steps).shutdown
    ensures var e := Execute(c, s, steps);
            && e.parsed == [] && e.elk == [] && e.buffer == []
            && e.receiver == ReceiverDone && AllDone(e.workers)
            && Count(e.refusedByParsed, p) + Count(e.refusedByElk, p) + Count(Flatten(e.attempts), p) ==
               if p < e.produced then 1 else 0
  {
    var e := Execute(c, s, steps);
    AlwaysDrains(c, s, steps);
    ExactlyOnePlace(c, s, steps);
    assert Occurrences(e, p) == if p < e.produced then 1 else 0;
    DoneWorkersHoldNothing(e.workers);
    assert e.workers[0] == WorkerDone;
  }

  // ----- The sender's stream -----

  /** What the sender has received and what is still queued for it, in order. */
  function Stream(s: System): seq<nat> {
    Flatten(s.attempts) + s.buffer + s.elk
  }

  lemma AttemptedKeepsStream(s: System)
    ensures Stream(Attempted(s)) == Stream(s)
  {
    FlattenSnoc(s.attempts, s.buffer);
  }

  /** The sender's own steps do not change the stream. */
  lemma SenderKeepsStream(c: Config, s: System, act: SenderAct)
    ensures Stream(SenderNext(c, s, act)) == Stream(s)
  {
    hide Stream;
    SenderOnly(c, s, act);
    match act
    case TakeElk(due) => TakingKeepsStream(c, s, due);
    case SenderTimeout(_) =>
      AttemptedKeepsStream(s.(sender := TimedOut));
      SameStream(s, s.(sender := TimedOut));
    case FinalFlush =>
      AttemptedKeepsStream(s);
      SameStream(Attempted(s), Attempted(s).(sender := SenderDone(true)));
    case _ => SameStream(s, SenderNext(c, s, act));
  }

  lemma TakingKeepsStream(c: Config, s: System, due: bool)
    ensures Stream(TakingElk(c, s, due)) == Stream(s)
  {
    hide Flatten;
    if s.sender == Receiving && s.elk != [] {
      AttemptedKeepsStream(s.(sender := SenderHead, elk := s.elk[1..], buffer := s.buffer + [s.elk[0]]));
      assert s.buffer + [s.elk[0]] + s.elk[1..] == s.buffer + s.elk;
    }
  }

  lemma SameStream(s: System, s': System)
    requires s'.elk == s.elk && s'.buffer == s.buffer && s'.attempts == s.attempts
    ensures Stream(s') == Stream(s)
  {
  }
}
