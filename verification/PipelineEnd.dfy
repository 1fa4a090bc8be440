/**
 How a run of the pipeline ends: when it can get past all its joins, when it needs a signal for that,
 and when it never can.
 */
module PipelineEnd {
  import opened Pipeline

  /** The receiver panicked or the sender's task failed: run returns an error without its remaining joins. */
  predicate Broken(s: System) {
    s.receiver == ReceiverPanicked || s.sender == SenderDone(false) || s.main == Failed
  }

  /** The flag was set before the updater's first look at it: it ends without a load, and main waits for one. */
  predicate Doomed(s: System) {
    s.main == AwaitIntel && !s.ready && (s.updater == UpdaterDone || (s.shutdown && s.updater == UpdaterHead))
  }

  /** Everything but the updater is over, and the updater goes on until a signal. */
  predicate Hanging(c: Config, s: System) {
    c.feeds && s.main == AwaitUpdater && !s.shutdown
  }

  // ----- Each state has a next step towards the end -----

  function ReceiverWeight(r: Receiver): nat {
    match r
    case ReceiverDone => 0
    case ReceiverPanicked => 0
    case Reading => 1
    case ReceiverHead => 2
    case Holding(_) => 8
  }

  function WorkerWeight(w: Worker): nat {
    match w
    case WorkerDone => 0
    case Waiting => 4
    case WorkerHead => 5
    case Enriching(_) => 8
  }

  function WorkersWeight(workers: seq<Worker>): nat {
    if workers == [] then 0 else WorkerWeight(workers[0]) + WorkersWeight(workers[1..])
  }

  function SenderWeight(sender: Sender): nat {
    match sender
    case SenderDone(_) => 0
    case Closing => 1
    case Receiving => 2
    case SenderHead => 3
    case TimedOut => 4
  }

  function MainWeight(c: Config, main: Main): nat {
    match main
    case AwaitIntel => c.workers + 6
    case AwaitReceiver => c.workers + 5
    case JoinWorkers(k) => if k <= c.workers then c.workers - k + 4 else 4
    case AwaitSender => 3
    case AwaitUpdater => 2
    case AwaitMerger => 1
    case Returned => 0
    case Failed => 0
  }

  function UpdaterWeight(updater: Updater, ready: bool): nat {
    match updater
    case UpdaterDone => 0
    case UpdaterHead => if ready then 1 else 5
    case Sleeping => 2
    case Refreshing => if ready then 3 else 4
  }

  function MergerWeight(merger: Merger): nat {
    match merger
    case MergerDone => 0
    case MergerWaiting => 1
    case MergerHead => 2
  }

  /** How far a run is from its end: queued packets and snapshots, then what each task still has to do. */
  function Weight(c: Config, s: System): nat {
    ReceiverWeight(s.receiver) + 5 * |s.parsed| + WorkersWeight(s.workers) + 2 * |s.elk| + SenderWeight(s.sender)
    + MainWeight(c, s.main) + UpdaterWeight(s.updater, s.ready) + 2 * s.snapshots + MergerWeight(s.merger)
  }

  lemma {:induction false} WeightUpdate(workers: seq<Worker>, i: nat, w: Worker)
    requires i < |workers|
    ensures WorkersWeight(workers[i := w]) + WorkerWeight(workers[i]) == WorkersWeight(workers) + WorkerWeight(w)
  {
    if i == 0 {
      assert workers[i := w][1..] == workers[1..];
    } else {
      assert workers[i := w][1..] == workers[1..][i - 1 := w];
      WeightUpdate(workers[1..], i - 1, w);
    }
  }

  /** The step leads on: nothing breaks or is doomed, the flag stays, the weight goes down. */
  ghost predicate Leads(c: Config, s: System, s': System) {
    !Broken(s') && !Doomed(s') && s'.shutdown == s.shutdown && Weight(c, s') < Weight(c, s)
  }

  lemma IntelProgress(c: Config, s: System) returns (step: Step)
    requires Inv(c, s) && !Broken(s) && !Doomed(s) && s.main == AwaitIntel
    ensures step != Signal && Leads(c, s, Next(c, s, step))
  {
    hide WorkersWeight;
    if s.ready {
      step := MainStep;
    } else if s.updater == UpdaterHead {
      step := ByUpdater(TestUpdater);
    } else {
      step := ByUpdater(FinishRefresh);
    }
  }

  lemma ReceiverProgress(c: Config, s: System) returns (act: ReceiverAct)
    requires !Broken(s) && s.main != AwaitIntel && s.receiver != ReceiverDone
    ensures Leads(c, s, ReceiverNext(c, s, act))
  {
    hide WorkersWeight;
    match s.receiver
    case ReceiverHead => act := TestReceiver;
    case Reading => act := EndOfInput;
    case Holding(_) => act := SendParsed;
  }

  lemma WorkerMoveWeight(c: Config, s: System, i: nat, w: Worker)
    requires i < |s.workers|
    ensures Weight(c, SetWorker(s, i, w)) + WorkerWeight(s.workers[i]) == Weight(c, s) + WorkerWeight(w)
  {
    hide WorkersWeight, ReceiverWeight, SenderWeight, MainWeight, UpdaterWeight, MergerWeight, WorkerWeight;
    WeightUpdate(s.workers, i, w);
  }

  /** A snapshot costs less than what a worker gives up by ending. */
  lemma OfferWeight(c: Config, s: System)
    ensures Weight(c, OfferSnapshot(c, s)) <= Weight(c, s) + 2
    ensures !Broken(s) ==> !Broken(OfferSnapshot(c, s))
    ensures s.main != AwaitIntel ==> !Doomed(OfferSnapshot(c, s))
    ensures OfferSnapshot(c, s).shutdown == s.shutdown
  {
    hide WorkersWeight, ReceiverWeight, SenderWeight, MainWeight, UpdaterWeight, MergerWeight;
  }

  lemma WorkerEnds(c: Config, s: System, i: nat, act: WorkerAct)
    requires !Broken(s) && s.main != AwaitIntel && i < |s.workers| && WorkerWeight(s.workers[i]) > 2
    requires WorkerMoves(c, s, i, act) == SetWorker(s, i, WorkerDone)
    ensures Leads(c, s, WorkerNext(c, s, i, act))
  {
    hide WorkerMoves, Weight;
    WorkerMoveWeight(c, s, i, WorkerDone);
    OfferWeight(c, SetWorker(s, i, WorkerDone));
    assert s.workers[i] != WorkerDone;
    assert WorkerNext(c, s, i, act) == OfferSnapshot(c, SetWorker(s, i, WorkerDone));
  }

  lemma HeadProgress(c: Config, s: System, i: nat)
    requires !Broken(s) && s.main != AwaitIntel && i < |s.workers| && s.workers[i] == WorkerHead
    ensures Leads(c, s, WorkerNext(c, s, i, TestWorker))
  {
    hide Weight;
    if s.shutdown {
      WorkerEnds(c, s, i, TestWorker);
    } else {
      WorkerMoveWeight(c, s, i, Waiting);
    }
  }

  lemma WaitingProgress(c: Config, s: System, i: nat) returns (act: WorkerAct)
    requires !Broken(s) && s.main != AwaitIntel && i < |s.workers| && s.workers[i] == Waiting && !ParsedOpen(s)
    ensures Leads(c, s, WorkerNext(c, s, i, act))
  {
    if s.parsed != [] {
      act := TakeParsed;
      TakenWeight(c, s, i);
    } else {
      hide Weight;
      act := WorkerHangUp;
      WorkerEnds(c, s, i, act);
    }
  }

  lemma TakenWeight(c: Config, s: System, i: nat)
    requires !Broken(s) && s.main != AwaitIntel && i < |s.workers| && s.workers[i] == Waiting && s.parsed != []
    ensures Leads(c, s, WorkerNext(c, s, i, TakeParsed))
  {
    hide WorkersWeight, ReceiverWeight, SenderWeight, MainWeight, UpdaterWeight, MergerWeight;
    WorkerMoveWeight(c, s, i, Enriching(s.parsed[0]));
  }

  lemma EnrichingProgress(c: Config, s: System, i: nat)
    requires !Broken(s) && s.main != AwaitIntel && i < |s.workers| && s.workers[i].Enriching?
    ensures Leads(c, s, WorkerNext(c, s, i, SendElk(false)))
  {
    hide WorkersWeight, ReceiverWeight, SenderWeight, MainWeight, UpdaterWeight, MergerWeight;
    WorkerMoveWeight(c, s, i, WorkerHead);
  }

  lemma WorkerProgress(c: Config, s: System, i: nat) returns (act: WorkerAct)
    requires !Broken(s) && s.main != AwaitIntel && !ParsedOpen(s) && i < |s.workers| && s.workers[i] != WorkerDone
    ensures Leads(c, s, WorkerNext(c, s, i, act))
  {
    hide Leads, WorkerNext;
    match s.workers[i]
    case WorkerHead =>
      act := TestWorker;
      HeadProgress(c, s, i);
    case Waiting =>
      act := WaitingProgress(c, s, i);
    case Enriching(_) =>
      act := SendElk(false);
      EnrichingProgress(c, s, i);
  }

  lemma SenderProgress(c: Config, s: System) returns (act: SenderAct)
    requires !Broken(s) && s.main != AwaitIntel && !ElkOpen(s) && !s.sender.SenderDone?
    ensures Leads(c, s, SenderNext(c, s, act))
  {
    hide WorkersWeight, ReceiverWeight, MainWeight, UpdaterWeight, MergerWeight;
    match s.sender
    case SenderHead => act := TestSender;
    case Receiving => act := if s.elk != [] then TakeElk(false) else SenderHangUp;
    case TimedOut => act := CheckSender;
    case Closing => act := FinalFlush;
  }

  lemma UpdaterProgress(c: Config, s: System) returns (act: UpdaterAct)
    requires !Broken(s) && s.main == AwaitUpdater && s.ready && s.shutdown && s.updater != UpdaterDone
    ensures Leads(c, s, UpdaterNext(s, act))
  {
    hide WorkersWeight;
    match s.updater
    case UpdaterHead => act := TestUpdater;
    case Refreshing => act := FinishRefresh;
    case Sleeping => act := WakeUpdater;
  }

  lemma MergerProgress(c: Config, s: System) returns (act: MergerAct)
    requires !Broken(s) && s.main == AwaitMerger && !MergerOpen(s) && s.merger != MergerDone
    ensures Leads(c, s, MergerNext(s, act))
  {
    hide WorkersWeight;
    match s.merger
    case MergerHead => act := TestMerger;
    case MergerWaiting => act := if s.snapshots > 0 then TakeSnapshot else MergerHangUp;
  }

  /** Main's own step leads on wherever what it waits for has ended. */
  lemma MainProgress(c: Config, s: System)
    requires Inv(c, s) && !Broken(s)
    requires s.main == AwaitReceiver ==> s.receiver == ReceiverDone
    requires s.main.JoinWorkers? ==> AllDone(s.workers)
    requires s.main == AwaitSender ==> s.sender.SenderDone?
    requires s.main == AwaitUpdater ==> s.updater == UpdaterDone
    requires s.main == AwaitMerger ==> s.merger == MergerDone
    requires s.main != AwaitIntel && s.main != Returned
    ensures Leads(c, s, AdvancingMain(s))
  {
    hide WorkersWeight, DrainedBehind;
  }

  /** Short of its end, a run that is not broken, doomed or hanging has a step that leads on. */
  lemma Progress(c: Config, s: System) returns (step: Step)
    requires Inv(c, s) && !Broken(s) && !Doomed(s) && !Hanging(c, s) && s.main != Returned
    ensures step != Signal && Leads(c, s, Next(c, s, step))
  {
    hide Leads, ReceiverNext, WorkerNext, SenderNext, UpdaterNext, MergerNext, AdvancingMain, DrainedBehind;
    if s.main == AwaitIntel {
      step := IntelProgress(c, s);
    } else if s.receiver != ReceiverDone {
      var act := ReceiverProgress(c, s);
      step := ByReceiver(act);
    } else if s.main == AwaitReceiver {
      MainProgress(c, s);
      step := MainStep;
    } else if i :| 0 <= i < |s.workers| && s.workers[i] != WorkerDone {
      var act := WorkerProgress(c, s, i);
      step := ByWorker(i, act);
    } else if s.main == AwaitSender && !s.sender.SenderDone? {
      var act := SenderProgress(c, s);
      step := BySender(act);
    } else if s.main == AwaitUpdater && s.updater != UpdaterDone {
      var act := UpdaterProgress(c, s);
      step := ByUpdater(act);
    } else if s.main == AwaitMerger && s.merger != MergerDone {
      var act := MergerProgress(c, s);
      step := ByMerger(act);
    } else {
      MainProgress(c, s);
      step := MainStep;
    }
  }

  lemma {:induction false} ExecuteCons(c: Config, s: System, step: Step, steps: seq<Step>)
    ensures Execute(c, s, [step] + steps) == Execute(c, Next(c, s, step), steps)
    decreases |steps|
  {
    hide Next;
    var all := [step] + steps;
    if steps == [] {
      assert all[..|all| - 1] == [];
      assert Execute(c, s, all[..|all| - 1]) == s;
    } else {
      assert all[..|all| - 1] == [step] + steps[..|steps| - 1];
      ExecuteCons(c, s, step, steps[..|steps| - 1]);
    }
  }

  /** Without a signal of its own, the run gets to its end or to the hanging state. */
  lemma {:induction false} FinishFrom(c: Config, s: System) returns (steps: seq<Step>)
    requires Inv(c, s) && !Broken(s) && !Doomed(s)
    ensures var e := Execute(c, s, steps);
            Inv(c, e) && !Broken(e) && e.shutdown == s.shutdown && (e.main == Returned || Hanging(c, e))
    decreases Weight(c, s)
  {
    hide Inv, Next, Weight;
    steps := [];
    if s.main != Returned && !Hanging(c, s) {
      var step := Progress(c, s);
      StepDrains(c, s, step);
      var rest := FinishFrom(c, Next(c, s, step));
      ExecuteCons(c, s, step, rest);
      steps := [step] + rest;
    }
  }

  // ----- What no continuation undoes -----

  lemma {:induction false} InvAlong(c: Config, s: System, more: seq<Step>)
    requires Inv(c, s)
    ensures Inv(c, Execute(c, s, more))
    decreases |more|
  {
    hide Inv, Next;
    if more != [] {
      InvAlong(c, s, more[..|more| - 1]);
      StepDrains(c, Execute(c, s, more[..|more| - 1]), more[|more| - 1]);
    }
  }

  lemma StepKeepsFlag(c: Config, s: System, step: Step)
    ensures s.shutdown ==> Next(c, s, step).shutdown
    ensures step != Signal ==> Next(c, s, step).shutdown == s.shutdown
  {
    hide WorkerMoves, WorkerNext, SenderNext;
    if step.ByWorker? {
      MovesOnlyWorker(c, s, step.i, step.w);
      WorkerSnapshots(c, s, step.i, step.w);
    } else if step.BySender? {
      SenderOnly(c, s, step.a);
    }
  }

  lemma StepKeepsBroken(c: Config, s: System, step: Step)
    requires Broken(s)
    ensures Broken(Next(c, s, step))
  {
    hide WorkerMoves, WorkerNext, SenderNext;
    if step.ByWorker? {
      MovesOnlyWorker(c, s, step.i, step.w);
      WorkerSnapshots(c, s, step.i, step.w);
    } else if step.BySender? {
      SenderOnly(c, s, step.a);
    }
  }

  lemma StepKeepsDoomed(c: Config, s: System, step: Step)
    requires Doomed(s)
    ensures Doomed(Next(c, s, step))
  {
    hide ReceiverNext, WorkerNext, SenderNext;
  }

  lemma {:induction false} FlagStays(c: Config, s: System, more: seq<Step>)
    requires s.shutdown
    ensures Execute(c, s, more).shutdown
    decreases |more|
  {
    hide Next;
    if more != [] {
      FlagStays(c, s, more[..|more| - 1]);
      StepKeepsFlag(c, Execute(c, s, more[..|more| - 1]), more[|more| - 1]);
    }
  }

  lemma {:induction false} BrokenStays(c: Config, s: System, more: seq<Step>)
    requires Broken(s)
    ensures Broken(Execute(c, s, more))
    decreases |more|
  {
    hide Next, Broken;
    if more != [] {
      BrokenStays(c, s, more[..|more| - 1]);
      StepKeepsBroken(c, Execute(c, s, more[..|more| - 1]), more[|more| - 1]);
    }
  }

  lemma {:induction false} DoomedStays(c: Config, s: System, more: seq<Step>)
    requires Doomed(s)
    ensures Doomed(Execute(c, s, more))
    decreases |more|
  {
    hide Next, Doomed;
    if more != [] {
      DoomedStays(c, s, more[..|more| - 1]);
      StepKeepsDoomed(c, Execute(c, s, more[..|more| - 1]), more[|more| - 1]);
    }
  }

  /** Once hanging, main moves on only after a signal. */
  lemma {:induction false} HangsUntilSignal(c: Config, s: System, more: seq<Step>)
    requires Inv(c, s) && Hanging(c, s)
    ensures Hanging(c, Execute(c, s, more)) || Execute(c, s, more).shutdown
    decreases |more|
  {
    if more != [] {
      hide Next, Joined, DrainedBehind;
      var e, step := Execute(c, s, more[..|more| - 1]), more[|more| - 1];
      HangsUntilSignal(c, s, more[..|more| - 1]);
      InvAlong(c, s, more[..|more| - 1]);
      StepKeepsFlag(c, e, step);
      if Hanging(c, e) {
        HangingStep(c, e, step);
      }
    }
  }

  lemma HangingStep(c: Config, s: System, step: Step)
    requires Hanging(c, s) && s.updater != UpdaterDone
    ensures Next(c, s, step).main == AwaitUpdater
  {
    hide WorkerMoves, WorkerNext, SenderNext;
    if step.ByWorker? {
      MovesOnlyWorker(c, s, step.i, step.w);
      WorkerSnapshots(c, s, step.i, step.w);
    } else if step.BySender? {
      SenderOnly(c, s, step.a);
    }
  }

  // ----- When a run can return -----

  /** A run that returned is not broken, and with feeds on the flag is set. */
  lemma ReturnedMeans(c: Config, s: System)
    requires Inv(c, s) && s.main == Returned
    ensures !Broken(s) && !Doomed(s) && (c.feeds ==> s.shutdown)
  {
  }

  /**
   From a reachable state some continuation passes every join if and only if nothing broke and main
   does not wait for a load that never comes.
   */
  lemma ReturnsIff(c: Config, s: System, steps: seq<Step>)
    requires Initial(c, s)
    ensures var e := Execute(c, s, steps);
            (exists more: seq<Step> :: Execute(c, e, more).main == Returned) <==> !Broken(e) && !Doomed(e)
  {
    hide Inv, Broken, Doomed;
    var e := Execute(c, s, steps);
    AlwaysDrains(c, s, steps);
    if !Broken(e) && !Doomed(e) {
      var more := ReturnFrom(c, e);
    }
    if more: seq<Step> :| Execute(c, e, more).main == Returned {
      InvAlong(c, e, more);
      ReturnedMeans(c, Execute(c, e, more));
      if Broken(e) {
        BrokenStays(c, e, more);
      }
      if Doomed(e) {
        DoomedStays(c, e, more);
      }
    }
  }

  /** With a signal for a hanging run, every run that is not broken or doomed can return. */
  lemma ReturnFrom(c: Config, s: System) returns (steps: seq<Step>)
    requires Inv(c, s) && !Broken(s) && !Doomed(s)
    ensures Execute(c, s, steps).main == Returned
  {
    hide Inv, Next;
    steps := FinishFrom(c, s);
    var e := Execute(c, s, steps);
    if e.main != Returned {
      StepDrains(c, e, Signal);
      assert Next(c, e, Signal) == e.(shutdown := true) by {
        NextSignal(c, e);
      }
      var rest := FinishFrom(c, Next(c, e, Signal));
      ExecuteConcat(c, s, steps, [Signal] + rest);
      ExecuteCons(c, e, Signal, rest);
      steps := steps + ([Signal] + rest);
    }
  }

  lemma NextSignal(c: Config, s: System)
    ensures Next(c, s, Signal) == s.(shutdown := true)
  {
  }

  lemma {:induction false} ExecuteConcat(c: Config, s: System, a: seq<Step>, b: seq<Step>)
    ensures Execute(c, s, a + b) == Execute(c, Execute(c, s, a), b)
    decreases |b|
  {
    hide Next;
    if b == [] {
      assert a + b == a;
    } else {
      assert (a + b)[..|a + b| - 1] == a + b[..|b| - 1];
      ExecuteConcat(c, s, a, b[..|b| - 1]);
    }
  }

  /**
   From a reachable state the run can pass every join without a signal if and only if none came yet,
   nothing broke and the feeds are off.  With the feeds on, the updater only ends on the flag.
   */
  lemma ReturnsWithoutSignalIff(c: Config, s: System, steps: seq<Step>)
    requires Initial(c, s)
    ensures var e := Execute(c, s, steps);
            (exists more: seq<Step> :: Execute(c, e, more).main == Returned && !Execute(c, e, more).shutdown) <==>
            !e.shutdown && !Broken(e) && !c.feeds
  {
    hide Inv, Broken;
    var e := Execute(c, s, steps);
    AlwaysDrains(c, s, steps);
    if !e.shutdown && !Broken(e) && !c.feeds {
      NotDoomedWithoutFeeds(c, e);
      var more := FinishFrom(c, e);
    }
    if more: seq<Step> :| Execute(c, e, more).main == Returned && !Execute(c, e, more).shutdown {
      InvAlong(c, e, more);
      ReturnedMeans(c, Execute(c, e, more));
      if e.shutdown {
        FlagStays(c, e, more);
      }
      if Broken(e) {
        BrokenStays(c, e, more);
      }
    }
  }

  lemma NotDoomedWithoutFeeds(c: Config, s: System)
    requires Inv(c, s) && !c.feeds
    ensures !Doomed(s)
  {
  }

  /** A reachable state that returned with the feeds on has seen the signal. */
  lemma ReturnNeedsSignal(c: Config, s: System, steps: seq<Step>)
    requires Initial(c, s) && c.feeds && Execute(c, s, steps).main == Returned
    ensures Execute(c, s, steps).shutdown
  {
    AlwaysDrains(c, s, steps);
  }

  /**
   The hanging state: with the feeds on, every run without a signal can come to a point where the input
   is read and sent, everything is drained and joined but the updater; there it stays, whatever else
   happens, until a signal comes.
   */
  lemma FeedsHang(c: Config, s: System, steps: seq<Step>) returns (more: seq<Step>)
    requires Initial(c, s) && c.feeds && !Execute(c, s, steps).shutdown && !Broken(Execute(c, s, steps))
    ensures var h := Execute(c, Execute(c, s, steps), more);
            && Hanging(c, h) && h.receiver == ReceiverDone && AllDone(h.workers) && h.sender == SenderDone(true)
            && h.parsed == [] && h.elk == [] && h.buffer == []
            && forall further: seq<Step> :: !Execute(c, h, further).shutdown ==> Execute(c, h, further).main == AwaitUpdater
  {
    var e := Execute(c, s, steps);
    AlwaysDrains(c, s, steps);
    NotDoomedWithoutSignal(c, e);
    more := FinishFrom(c, e);
    var h := Execute(c, e, more);
    assert h.main != Returned;
    assert h.workers[0] == WorkerDone;
    forall further: seq<Step> | !Execute(c, h, further).shutdown
      ensures Execute(c, h, further).main == AwaitUpdater
    {
      HangsUntilSignal(c, h, further);
    }
  }

  lemma NotDoomedWithoutSignal(c: Config, s: System)
    requires Inv(c, s) && !s.shutdown
    ensures !Doomed(s)
  {
  }

  /** A signal before the updater's first look at the flag: main waits for the intelligence forever. */
  lemma EarlySignalHangs(c: Config, s: System, more: seq<Step>)
    requires Initial(c, s) && c.feeds
    ensures Execute(c, s, [Signal] + more).main == AwaitIntel
  {
    ExecuteCons(c, s, Signal, more);
    DoomedStays(c, Next(c, s, Signal), more);
  }

  // ----- Reachable states -----

  ghost predicate Reachable(c: Config, s: System) {
    exists s0, steps :: Initial(c, s0) && Execute(c, s0, steps) == s
  }

  lemma Take(c: Config, s: System, step: Step) returns (s': System)
    requires Reachable(c, s)
    ensures s' == Next(c, s, step) && Reachable(c, s')
  {
    hide Next;
    var s0, steps :| Initial(c, s0) && Execute(c, s0, steps) == s;
    assert (steps + [step])[..|steps|] == steps;
    s' := Execute(c, s0, steps + [step]);
  }

  /** The run once its tasks are spawned, after the first load when there are feeds. */
  lemma Begin(c: Config) returns (s: System)
    requires c.Valid()
    ensures Reachable(c, s)
    ensures s == System(false, AwaitReceiver, ReceiverHead, seq(c.workers, _ => WorkerHead), SenderHead,
                        0, [], [], [], [], [], [], true, if c.feeds then Sleeping else UpdaterDone, 0, MergerHead)
  {
    s := System(false, if c.feeds then AwaitIntel else AwaitReceiver, ReceiverHead, seq(c.workers, _ => WorkerHead),
                SenderHead, 0, [], [], [], [], [], [], !c.feeds, if c.feeds then UpdaterHead else UpdaterDone, 0, MergerHead);
    assert Execute(c, s, []) == s;
    if c.feeds {
      s := Take(c, s, ByUpdater(TestUpdater));
      s := Take(c, s, ByUpdater(FinishRefresh));
      s := Take(c, s, MainStep);
    }
  }
}
