/** What a signal can do to the packets: exactly when one may leave a packet behind in a queue. */
module PipelineSignal {
  import opened Pipeline
  import opened PipelineEnd

  /** Run got past the sender's join with an accepted packet still queued. */
  predicate Stranded(s: System) {
    PastSender(s.main) && (s.parsed != [] || s.elk != [])
  }

  /**
   No packet is being read, queued for a worker or in a hand, and the sender has not turned its back on
   a queued one.
   */
  predicate Quiet(s: System) {
    && (s.receiver == ReceiverHead || ReceiverEnded(s.receiver))
    && s.parsed == []
    && (forall i :: 0 <= i < |s.workers| ==> !s.workers[i].Enriching?)
    && (s.sender == TimedOut ==> s.elk == [])
  }

  ghost predicate CanStrand(c: Config, s: System) {
    exists more: seq<Step> :: Stranded(Execute(c, s, more))
  }

  lemma StrandsAfter(c: Config, s: System, step: Step)
    requires CanStrand(c, Next(c, s, step))
    ensures CanStrand(c, s)
  {
    var more: seq<Step> :| Stranded(Execute(c, Next(c, s, step), more));
    ExecuteCons(c, s, step, more);
    assert Stranded(Execute(c, s, [step] + more));
  }

  // ----- A quiet system stays quiet -----

  /** What a signal finds in a quiet system, and every step keeps. */
  predicate Settled(s: System) {
    && Quiet(s) && s.shutdown
    && (s.sender == TimedOut || s.sender == Closing || s.sender == SenderDone(true) ==> s.elk == [])
  }

  lemma WorkerKeepsSettled(c: Config, s: System, i: nat, act: WorkerAct)
    requires Settled(s)
    ensures Settled(WorkerNext(c, s, i, act))
  {
    hide WorkerNext;
    WorkerSnapshots(c, s, i, act);
  }

  lemma SenderKeepsSettled(c: Config, s: System, act: SenderAct)
    requires Settled(s)
    ensures Settled(SenderNext(c, s, act))
  {
    hide ElkOpen;
  }

  lemma ReceiverKeepsSettled(c: Config, s: System, act: ReceiverAct)
    requires Settled(s)
    ensures Settled(ReceiverNext(c, s, act))
  {
  }

  lemma StepKeepsSettled(c: Config, s: System, step: Step)
    requires Settled(s)
    ensures Settled(Next(c, s, step))
  {
    hide WorkerNext, SenderNext, ReceiverNext, AdvancingMain, UpdaterNext, MergerNext;
    match step
    case ByReceiver(act) => ReceiverKeepsSettled(c, s, act);
    case ByWorker(i, act) => WorkerKeepsSettled(c, s, i, act);
    case BySender(act) => SenderKeepsSettled(c, s, act);
    case MainStep => MainOnly(s);
    case ByUpdater(act) => UpdaterOnly(s, act);
    case ByMerger(act) => MergerOnly(s, act);
    case Signal =>
  }

  lemma {:induction false} SettledStays(c: Config, s: System, more: seq<Step>)
    requires Settled(s)
    ensures Settled(Execute(c, s, more))
    decreases |more|
  {
    hide Settled, Next;
    if more != [] {
      SettledStays(c, s, more[..|more| - 1]);
      StepKeepsSettled(c, Execute(c, s, more[..|more| - 1]), more[|more| - 1]);
    }
  }

  lemma SettledNeverStrands(c: Config, s: System)
    requires Settled(s) && Inv(c, s)
    ensures !CanStrand(c, s)
  {
    hide Inv;
    if more: seq<Step> :| Stranded(Execute(c, s, more)) {
      SettledStays(c, s, more);
      InvAlong(c, s, more);
      PastSenderIsDone(c, Execute(c, s, more));
    }
  }

  lemma PastSenderIsDone(c: Config, s: System)
    requires Inv(c, s) && PastSender(s.main)
    ensures s.sender == SenderDone(true)
  {
  }

  // ----- Otherwise a packet can be left behind -----

  /** A run after a signal that is not broken and has its tasks running. */
  ghost predicate Ending(c: Config, s: System) {
    c.Valid() && Inv(c, s) && s.shutdown && !Broken(s) && s.main != AwaitIntel
  }

  lemma EndingStep(c: Config, s: System, step: Step)
    requires Ending(c, s) && !Broken(Next(c, s, step))
    ensures Ending(c, Next(c, s, step))
  {
    hide Inv, Broken;
    StepDrains(c, s, step);
    StepKeepsFlag(c, s, step);
    NeverBackToIntel(c, s, step);
  }

  lemma NeverBackToIntel(c: Config, s: System, step: Step)
    requires s.main != AwaitIntel
    ensures Next(c, s, step).main != AwaitIntel
  {
    hide WorkerMoves, WorkerNext, SenderNext;
    if step.ByWorker? {
      MovesOnlyWorker(c, s, step.i, step.w);
      WorkerSnapshots(c, s, step.i, step.w);
    } else if step.BySender? {
      SenderOnly(c, s, step.a);
    }
  }

  lemma StepKeepsElk(c: Config, s: System, step: Step)
    requires s.sender.SenderDone? && s.elk != []
    ensures Next(c, s, step).sender.SenderDone? && Next(c, s, step).elk != []
  {
    hide WorkerMoves, WorkerNext, SenderNext, MergerOpen;
    if step.ByWorker? {
      MovesOnlyWorker(c, s, step.i, step.w);
      MovesQueues(c, s, step.i, step.w);
      WorkerSnapshots(c, s, step.i, step.w);
    } else if step.BySender? {
      SenderOnly(c, s, step.a);
    }
  }

  lemma {:induction false} ElkStays(c: Config, s: System, more: seq<Step>)
    requires s.sender.SenderDone? && s.elk != []
    ensures Execute(c, s, more).elk != [] && Execute(c, s, more).sender.SenderDone?
    decreases |more|
  {
    hide Next;
    if more != [] {
      ElkStays(c, s, more[..|more| - 1]);
      StepKeepsElk(c, Execute(c, s, more[..|more| - 1]), more[|more| - 1]);
    }
  }

  lemma WorkerKeepsParsed(c: Config, s: System, i: nat, act: WorkerAct)
    requires AllDone(s.workers)
    ensures WorkerNext(c, s, i, act) == s
  {
  }

  lemma StepKeepsParsed(c: Config, s: System, step: Step)
    requires AllDone(s.workers) && s.parsed != []
    ensures AllDone(Next(c, s, step).workers) && Next(c, s, step).parsed != []
  {
    hide WorkerNext, SenderNext, MergerOpen;
    if step.ByWorker? {
      WorkerKeepsParsed(c, s, step.i, step.w);
    } else if step.BySender? {
      SenderOnly(c, s, step.a);
    }
  }

  lemma {:induction false} ParsedStays(c: Config, s: System, more: seq<Step>)
    requires AllDone(s.workers) && s.parsed != []
    ensures AllDone(Execute(c, s, more).workers) && Execute(c, s, more).parsed != []
    decreases |more|
  {
    hide Next, AllDone;
    if more != [] {
      ParsedStays(c, s, more[..|more| - 1]);
      StepKeepsParsed(c, Execute(c, s, more[..|more| - 1]), more[|more| - 1]);
    }
  }

  /** What nobody takes any more is still there when the run returns. */
  lemma LeftBehind(c: Config, s: System)
    requires Ending(c, s)
    requires (s.sender.SenderDone? && s.elk != []) || (AllDone(s.workers) && s.parsed != [])
    ensures CanStrand(c, s)
  {
    hide Inv, Broken, AllDone;
    var more := FinishFrom(c, s);
    if s.sender.SenderDone? && s.elk != [] {
      ElkStays(c, s, more);
    } else {
      ParsedStays(c, s, more);
    }
    assert Stranded(Execute(c, s, more));
  }

  lemma ClosingStrands(c: Config, s: System)
    requires Ending(c, s) && s.sender == Closing && s.elk != []
    ensures CanStrand(c, s)
  {
    hide Inv;
    EndingStep(c, s, BySender(FinalFlush));
    LeftBehind(c, Next(c, s, BySender(FinalFlush)));
    StrandsAfter(c, s, BySender(FinalFlush));
  }

  function StagesLeft(sender: Sender): nat {
    match sender
    case SenderHead => 3
    case Receiving => 2
    case TimedOut => 1
    case Closing => 0
    case SenderDone(_) => 0
  }

  /** The sender's way to its closing, with the flag set: it empties the queue first if it looks. */
  function TowardsClosing(s: System): SenderAct {
    match s.sender
    case SenderHead => TestSender
    case Receiving => if s.elk != [] then TakeElk(false) else SenderTimeout(false)
    case TimedOut => CheckSender
    case Closing => CheckSender
    case SenderDone(_) => CheckSender
  }

  lemma SenderTurns(c: Config, s: System)
    requires s.shutdown && s.main != AwaitIntel && !Broken(s) && !s.sender.SenderDone? && s.sender != Closing
    ensures var s' := Next(c, s, BySender(TowardsClosing(s)));
            && !Broken(s') && !s'.sender.SenderDone? && s'.workers == s.workers
            && (|s'.elk| < |s.elk| || (|s'.elk| == |s.elk| && StagesLeft(s'.sender) < StagesLeft(s.sender)))
  {
    hide ElkOpen;
  }

  lemma HandedOn(c: Config, s: System, i: nat)
    requires c.Valid() && s.main != AwaitIntel && i < |s.workers| && s.workers[i].Enriching?
    requires s.sender == Closing && s.elk == []
    ensures var s' := Next(c, s, ByWorker(i, SendElk(false)));
            s'.sender == Closing && s'.elk != [] && (!Broken(s) ==> !Broken(s'))
  {
  }

  /** A packet in a hand: the sender may close on an empty queue before the packet gets there. */
  lemma {:induction false} HandStrands(c: Config, s: System, i: nat)
    requires Ending(c, s) && i < |s.workers| && s.workers[i].Enriching? && !s.sender.SenderDone?
    ensures CanStrand(c, s)
    decreases |s.elk|, StagesLeft(s.sender)
  {
    hide Inv, Next, Broken;
    if s.sender != Closing {
      var step := BySender(TowardsClosing(s));
      SenderTurns(c, s);
      EndingStep(c, s, step);
      HandStrands(c, Next(c, s, step), i);
      StrandsAfter(c, s, step);
    } else if s.elk != [] {
      ClosingStrands(c, s);
    } else {
      var step := ByWorker(i, SendElk(false));
      HandedOn(c, s, i);
      EndingStep(c, s, step);
      ClosingStrands(c, Next(c, s, step));
      StrandsAfter(c, s, step);
    }
  }

  lemma TestsOut(c: Config, s: System, k: nat)
    requires s.shutdown && s.main != AwaitIntel && k < |s.workers| && s.workers[k] == WorkerHead
    ensures var s' := Next(c, s, ByWorker(k, TestWorker));
            && s'.workers == s.workers[k := WorkerDone] && s'.parsed == s.parsed && (!Broken(s) ==> !Broken(s'))
  {
  }

  /** Workers that all look at the flag leave the parsed queue as it is. */
  lemma {:induction false} WorkersLeave(c: Config, s: System, k: nat)
    requires Ending(c, s) && s.parsed != [] && k <= |s.workers|
    requires forall i :: 0 <= i < k ==> s.workers[i] == WorkerDone
    requires forall i :: k <= i < |s.workers| ==> s.workers[i] == WorkerHead
    ensures CanStrand(c, s)
    decreases |s.workers| - k
  {
    hide Inv, Next, Broken;
    if k == |s.workers| {
      LeftBehind(c, s);
    } else {
      var step := ByWorker(k, TestWorker);
      TestsOut(c, s, k);
      EndingStep(c, s, step);
      WorkersLeave(c, Next(c, s, step), k + 1);
      StrandsAfter(c, s, step);
    }
  }

  lemma PicksUp(c: Config, s: System, i: nat)
    requires s.main != AwaitIntel && i < |s.workers| && s.workers[i] == Waiting && s.parsed != []
    ensures var s' := Next(c, s, ByWorker(i, TakeParsed));
            && |s'.workers| == |s.workers| && s'.workers[i].Enriching? && s'.sender == s.sender
            && (!Broken(s) ==> !Broken(s'))
  {
  }

  /** A queued packet: either some worker takes it into its hand, or all of them leave it. */
  lemma QueuedStrands(c: Config, s: System)
    requires Ending(c, s) && s.parsed != [] && !s.sender.SenderDone?
    requires forall i :: 0 <= i < |s.workers| ==> s.workers[i] != WorkerDone
    ensures CanStrand(c, s)
  {
    hide Inv, Next, Broken;
    if i :| 0 <= i < |s.workers| && s.workers[i].Enriching? {
      HandStrands(c, s, i);
    } else if i :| 0 <= i < |s.workers| && s.workers[i] == Waiting {
      var step := ByWorker(i, TakeParsed);
      PicksUp(c, s, i);
      EndingStep(c, s, step);
      HandStrands(c, Next(c, s, step), i);
      StrandsAfter(c, s, step);
    } else {
      WorkersLeave(c, s, 0);
    }
  }

  lemma Enqueued(c: Config, s: System)
    requires c.Valid() && s.main != AwaitIntel && s.receiver.Holding?
    ensures var s' := Next(c, s, ByReceiver(SendParsed));
            && s'.parsed != [] && s'.workers == s.workers && s'.sender == s.sender && (!Broken(s) ==> !Broken(s'))
  {
  }

  lemma ReadOn(c: Config, s: System)
    requires s.main != AwaitIntel && s.receiver == Reading
    ensures var s' := Next(c, s, ByReceiver(ReadPacket));
            && s'.receiver.Holding? && s'.workers == s.workers && s'.sender == s.sender && (!Broken(s) ==> !Broken(s'))
  {
  }

  lemma HeldStrands(c: Config, s: System)
    requires Ending(c, s) && s.receiver.Holding? && !s.sender.SenderDone?
    requires forall i :: 0 <= i < |s.workers| ==> s.workers[i] != WorkerDone
    ensures CanStrand(c, s)
  {
    hide Inv, Next, Broken;
    var step := ByReceiver(SendParsed);
    Enqueued(c, s);
    EndingStep(c, s, step);
    QueuedStrands(c, Next(c, s, step));
    StrandsAfter(c, s, step);
  }

  lemma ReadStrands(c: Config, s: System)
    requires Ending(c, s) && s.receiver == Reading && !s.sender.SenderDone?
    requires forall i :: 0 <= i < |s.workers| ==> s.workers[i] != WorkerDone
    ensures CanStrand(c, s)
  {
    hide Inv, Next, Broken;
    var step := ByReceiver(ReadPacket);
    ReadOn(c, s);
    EndingStep(c, s, step);
    HeldStrands(c, Next(c, s, step));
    StrandsAfter(c, s, step);
  }

  lemma TurnedAwayStrands(c: Config, s: System)
    requires Ending(c, s) && s.sender == TimedOut && s.elk != []
    ensures CanStrand(c, s)
  {
    hide Inv;
    var step := BySender(CheckSender);
    EndingStep(c, s, step);
    ClosingStrands(c, Next(c, s, step));
    StrandsAfter(c, s, step);
  }

  /** Before the signal, a task still to hand something on keeps the tasks behind it alive. */
  lemma AliveBefore(c: Config, s: System)
    requires c.Valid() && Inv(c, s) && !s.shutdown && !Broken(s)
    ensures !ReceiverEnded(s.receiver) || s.parsed != [] ==> forall i :: 0 <= i < |s.workers| ==> s.workers[i] != WorkerDone
    ensures (exists i :: 0 <= i < |s.workers| && s.workers[i] != WorkerDone) ==> !s.sender.SenderDone?
    ensures |s.workers| > 0
    ensures s.main == AwaitIntel ==> Quiet(s)
  {
  }

  lemma UnquietStrands(c: Config, s: System)
    requires c.Valid() && Inv(c, s) && !s.shutdown && !Broken(s) && !Quiet(s)
    ensures CanStrand(c, s.(shutdown := true))
  {
    hide Inv;
    var e := s.(shutdown := true);
    AliveBefore(c, s);
    SignalDrains(c, s);
    assert Ending(c, e);
    if i :| 0 <= i < |s.workers| && s.workers[i].Enriching? {
      HandStrands(c, e, i);
    } else if s.sender == TimedOut && s.elk != [] {
      TurnedAwayStrands(c, e);
    } else {
      assert s.workers[0] != WorkerDone;
      if s.parsed != [] {
        QueuedStrands(c, e);
      } else if s.receiver.Holding? {
        HeldStrands(c, e);
      } else {
        ReadStrands(c, e);
      }
    }
  }

  /**
   When a first signal is harmless.  From a reachable state that is not broken, a signal lets some run
   get past the sender's join with an accepted packet still queued if and only if a packet is being
   read, is queued for the workers or is in a hand, or the sender has timed out and not seen a packet
   that came since.  In particular a signal is harmless once the last worker has ended.
   */
  lemma SignalHarmlessIff(c: Config, s: System, steps: seq<Step>)
    requires Initial(c, s) && !Execute(c, s, steps).shutdown && !Broken(Execute(c, s, steps))
    ensures var e := Execute(c, s, steps);
            !CanStrand(c, Next(c, e, Signal)) <==> Quiet(e)
    ensures var e := Execute(c, s, steps);
            AllDone(e.workers) && e.sender != TimedOut ==> Quiet(e)
  {
    hide Inv;
    var e := Execute(c, s, steps);
    AlwaysDrains(c, s, steps);
    AliveBefore(c, e);
    if Quiet(e) {
      QuietSettles(c, e);
      SignalDrains(c, e);
      SettledNeverStrands(c, e.(shutdown := true));
    } else {
      UnquietStrands(c, e);
    }
    if AllDone(e.workers) {
      assert e.workers[0] == WorkerDone;
    }
  }

  lemma QuietSettles(c: Config, s: System)
    requires Inv(c, s) && Quiet(s) && !s.shutdown && !Broken(s)
    ensures Settled(s.(shutdown := true))
  {
  }

  /** So the drain needs the clear flag: for every configuration a signal can strand an accepted packet. */
  lemma SignalCanStrand(c: Config)
    requires c.Valid()
    ensures exists s: System, steps: seq<Step> :: Initial(c, s) && Stranded(Execute(c, s, steps))
  {
    hide Inv, Next, Broken, Quiet;
    var s, steps := ReachReading(c);
    var e := Execute(c, s, steps);
    SignalHarmlessIff(c, s, steps);
    NotQuietReading(e);
    var more: seq<Step> :| Stranded(Execute(c, Next(c, e, Signal), more));
    ExecuteCons(c, e, Signal, more);
    ExecuteConcat(c, s, steps, [Signal] + more);
    assert Stranded(Execute(c, s, steps + ([Signal] + more)));
  }

  lemma NotQuietReading(s: System)
    requires s.receiver == Reading
    ensures !Quiet(s)
  {
  }

  lemma ReachReading(c: Config) returns (s: System, steps: seq<Step>)
    requires c.Valid()
    ensures Initial(c, s)
    ensures var e := Execute(c, s, steps); e.receiver == Reading && !e.shutdown && !Broken(e)
  {
    var start := Begin(c);
    var started := Take(c, start, ByReceiver(TestReceiver));
    s, steps :| Initial(c, s) && Execute(c, s, steps) == started;
  }
}
