/** Arrival order through the pipeline: kept by a single worker, and only by a single one. */
module PipelineOrder {
  import opened Collections
  import opened Pipeline
  import opened PipelineEnd

  /** The packets on their way in a single-worker pipeline, oldest first. */
  datatype Line = Line(received: seq<nat>, elk: seq<nat>, hand: seq<nat>, parsed: seq<nat>, arriving: seq<nat>)

  ghost function All(l: Line): seq<nat> {
    l.received + l.elk + l.hand + l.parsed + l.arriving
  }

  ghost function LineOf(s: System): Line {
    Line(Flatten(s.attempts) + s.buffer, s.elk, if s.workers == [] then [] else WorkerHand(s.workers[0]),
         s.parsed, ReceiverHand(s.receiver))
  }

  ghost predicate Increasing(q: seq<nat>) {
    forall i, j :: 0 <= i < j < |q| ==> q[i] < q[j]
  }

  ghost predicate Below(q: seq<nat>, bound: nat) {
    forall i :: 0 <= i < |q| ==> q[i] < bound
  }

  ghost predicate Ordered(s: System) {
    Increasing(All(LineOf(s))) && Below(All(LineOf(s)), s.produced)
  }

  // ----- What the steps do to a line -----

  lemma Arrive(l: Line, p: nat)
    requires l.arriving == [] && Increasing(All(l)) && Below(All(l), p)
    ensures Increasing(All(l.(arriving := [p]))) && Below(All(l.(arriving := [p])), p + 1)
  {
    var rest := l.received + l.elk + l.hand + l.parsed;
    assert All(l) == rest && All(l.(arriving := [p])) == rest + [p];
  }

  lemma Enqueue(l: Line)
    ensures All(l.(parsed := l.parsed + l.arriving, arriving := [])) == All(l)
  {
  }

  lemma Dequeue(l: Line)
    requires l.hand == [] && l.parsed != []
    ensures All(l.(hand := [l.parsed[0]], parsed := l.parsed[1..])) == All(l)
  {
    assert l.parsed == [l.parsed[0]] + l.parsed[1..];
  }

  lemma Forward(l: Line)
    ensures All(l.(elk := l.elk + l.hand, hand := [])) == All(l)
  {
  }

  lemma DropMiddle(a: seq<nat>, x: seq<nat>, b: seq<nat>, bound: nat)
    requires Increasing(a + x + b) && Below(a + x + b, bound)
    ensures Increasing(a + b) && Below(a + b, bound)
  {
    var q, r := a + x + b, a + b;
    forall i | 0 <= i < |r|
      ensures r[i] == q[if i < |a| then i else i + |x|]
    {
    }
  }

  lemma RefuseArriving(l: Line, bound: nat)
    requires Increasing(All(l)) && Below(All(l), bound)
    ensures Increasing(All(l.(arriving := []))) && Below(All(l.(arriving := [])), bound)
  {
    var rest := l.received + l.elk + l.hand + l.parsed;
    assert All(l) == rest + l.arriving + [] && All(l.(arriving := [])) == rest + [];
    DropMiddle(rest, l.arriving, [], bound);
  }

  lemma RefuseInHand(l: Line, bound: nat)
    requires Increasing(All(l)) && Below(All(l), bound)
    ensures Increasing(All(l.(hand := []))) && Below(All(l.(hand := [])), bound)
  {
    var older, newer := l.received + l.elk, l.parsed + l.arriving;
    assert All(l) == older + l.hand + newer && All(l.(hand := [])) == older + newer;
    DropMiddle(older, l.hand, newer, bound);
  }

  // ----- The steps -----

  lemma ReceiverOrdered(c: Config, s: System, act: ReceiverAct)
    requires Ordered(s)
    ensures Ordered(ReceiverNext(c, s, act))
  {
    var s', l := ReceiverNext(c, s, act), LineOf(s);
    if act == ReadPacket && s.receiver == Reading {
      Arrive(l, s.produced);
      assert LineOf(s') == l.(arriving := [s.produced]);
    } else if act == SendParsed && s.receiver.Holding? {
      if |s.parsed| < c.parsedCapacity {
        Enqueue(l);
        assert LineOf(s') == l.(parsed := l.parsed + l.arriving, arriving := []);
      } else {
        RefuseArriving(l, s.produced);
        assert LineOf(s') == l.(arriving := []);
      }
    } else {
      assert LineOf(s') == l;
    }
  }

  lemma MovesOrdered(c: Config, s: System, i: nat, act: WorkerAct)
    requires Ordered(s) && |s.workers| == 1
    ensures Ordered(WorkerMoves(c, s, i, act))
  {
    var s', l := WorkerMoves(c, s, i, act), LineOf(s);
    if i == 0 && act == TakeParsed && s.workers[0] == Waiting && s.parsed != [] {
      Dequeue(l);
      assert LineOf(s') == l.(hand := [l.parsed[0]], parsed := l.parsed[1..]);
    } else if i == 0 && act.SendElk? && s.workers[0].Enriching? {
      if s.sender.SenderDone? || |s.elk| >= c.elkCapacity {
        RefuseInHand(l, s.produced);
        assert LineOf(s') == l.(hand := []);
      } else {
        Forward(l);
        assert LineOf(s') == l.(elk := l.elk + l.hand, hand := []);
      }
    } else {
      assert LineOf(s') == l;
    }
  }

  lemma WorkerOrdered(c: Config, s: System, i: nat, act: WorkerAct)
    requires Ordered(s) && |s.workers| == 1
    ensures Ordered(WorkerNext(c, s, i, act))
  {
    hide WorkerMoves, WorkerNext, Increasing, Below;
    MovesOrdered(c, s, i, act);
    WorkerSnapshots(c, s, i, act);
    assert LineOf(WorkerNext(c, s, i, act)) == LineOf(WorkerMoves(c, s, i, act));
  }

  lemma SenderLine(c: Config, s: System, act: SenderAct)
    ensures All(LineOf(SenderNext(c, s, act))) == All(LineOf(s))
  {
    hide SenderNext, Flatten;
    SenderOnly(c, s, act);
    SenderKeepsStream(c, s, act);
    var l, l' := LineOf(s), LineOf(SenderNext(c, s, act));
    assert l.received + l.elk == Stream(s) && l'.received + l'.elk == l.received + l.elk;
  }

  lemma SenderOrdered(c: Config, s: System, act: SenderAct)
    requires Ordered(s)
    ensures Ordered(SenderNext(c, s, act))
  {
    hide SenderNext, Increasing, Below, LineOf;
    SenderLine(c, s, act);
    SenderKeepsProduced(c, s, act);
  }

  lemma OthersLine(c: Config, s: System, step: Step)
    requires !step.ByReceiver? && !step.ByWorker? && !step.BySender?
    ensures LineOf(Next(c, s, step)) == LineOf(s) && Next(c, s, step).produced == s.produced
  {
    hide ReceiverNext, WorkerNext, SenderNext, UpdaterNext, MergerNext, AdvancingMain, Flatten;
    match step
    case Signal =>
    case MainStep => MainOnly(s);
    case ByUpdater(act) => UpdaterOnly(s, act);
    case ByMerger(act) => MergerOnly(s, act);
  }

  lemma OthersOrdered(c: Config, s: System, step: Step)
    requires Ordered(s) && !step.ByReceiver? && !step.ByWorker? && !step.BySender?
    ensures Ordered(Next(c, s, step))
  {
    hide Increasing, Below, Next, LineOf, All;
    OthersLine(c, s, step);
  }

  lemma StepOrdered(c: Config, s: System, step: Step)
    requires Ordered(s) && |s.workers| == 1
    ensures Ordered(Next(c, s, step))
  {
    hide Ordered, ReceiverNext, WorkerNext, SenderNext, UpdaterNext, MergerNext, AdvancingMain;
    match step
    case ByReceiver(act) => ReceiverOrdered(c, s, act);
    case ByWorker(i, act) => WorkerOrdered(c, s, i, act);
    case BySender(act) => SenderOrdered(c, s, act);
    case _ => OthersOrdered(c, s, step);
  }

  lemma {:induction false} AlwaysOrdered(c: Config, s: System, steps: seq<Step>)
    requires Initial(c, s) && c.workers == 1
    ensures Ordered(Execute(c, s, steps))
    decreases |steps|
  {
    if steps != [] {
      AlwaysOrdered(c, s, steps[..|steps| - 1]);
      AlwaysDrains(c, s, steps[..|steps| - 1]);
      StepOrdered(c, Execute(c, s, steps[..|steps| - 1]), steps[|steps| - 1]);
    }
  }

  lemma IncreasingPrefix(a: seq<nat>, b: seq<nat>)
    requires Increasing(a + b)
    ensures Increasing(a)
  {
    assert forall i :: 0 <= i < |a| ==> a[i] == (a + b)[i];
  }

  /** With one worker the attempted batches carry packets in arrival order, whatever was refused on the way. */
  lemma OneWorkerKeepsOrder(c: Config, s: System, steps: seq<Step>)
    requires Initial(c, s) && c.workers == 1
    ensures Increasing(Flatten(Execute(c, s, steps).attempts))
  {
    AlwaysOrdered(c, s, steps);
    var l := LineOf(Execute(c, s, steps));
    IncreasingPrefix(l.received + l.elk + l.hand + l.parsed, l.arriving);
    IncreasingPrefix(l.received + l.elk + l.hand, l.parsed);
    IncreasingPrefix(l.received + l.elk, l.hand);
    IncreasingPrefix(l.received, l.elk);
    IncreasingPrefix(Flatten(Execute(c, s, steps).attempts), Execute(c, s, steps).buffer);
  }

  // ----- More workers lose it -----

  /** The receiver reads one packet and enqueues it. */
  lemma ReceiveOne(c: Config, s: System) returns (s': System)
    requires Reachable(c, s) && s.main != AwaitIntel && s.receiver == ReceiverHead && !s.shutdown
    requires |s.parsed| < c.parsedCapacity
    ensures Reachable(c, s') && s' == s.(produced := s.produced + 1, parsed := s.parsed + [s.produced])
  {
    s' := Take(c, s, ByReceiver(TestReceiver));
    s' := Take(c, s', ByReceiver(ReadPacket));
    s' := Take(c, s', ByReceiver(SendParsed));
  }

  /** A worker takes the oldest queued packet into its hand. */
  lemma PickUp(c: Config, s: System, i: nat) returns (s': System)
    requires Reachable(c, s) && s.main != AwaitIntel && !s.shutdown && s.parsed != []
    requires i < |s.workers| && s.workers[i] == WorkerHead
    ensures Reachable(c, s')
    ensures s' == s.(workers := s.workers[i := Enriching(s.parsed[0])], parsed := s.parsed[1..])
  {
    s' := Take(c, s, ByWorker(i, TestWorker));
    s' := Take(c, s', ByWorker(i, TakeParsed));
    assert s'.workers == s.workers[i := Enriching(s.parsed[0])];
  }

  /** A worker passes its packet on and the sender attempts it at once. */
  lemma PassOn(c: Config, s: System, i: nat) returns (s': System)
    requires c.Valid() && Reachable(c, s) && s.main != AwaitIntel && !s.shutdown
    requires i < |s.workers| && s.workers[i].Enriching?
    requires s.sender == SenderHead && s.elk == [] && s.buffer == []
    ensures Reachable(c, s')
    ensures s' == s.(workers := s.workers[i := WorkerHead], attempts := s.attempts + [[s.workers[i].packet]])
  {
    s' := Take(c, s, ByWorker(i, SendElk(false)));
    assert s' == s.(workers := s.workers[i := WorkerHead], elk := [s.workers[i].packet]);
    s' := Take(c, s', BySender(TestSender));
    s' := Take(c, s', BySender(TakeElk(true)));
    assert s'.attempts == s.attempts + [[s.workers[i].packet]];
  }

  /** With more than one worker, whatever the capacities: the second packet overtakes the first. */
  lemma WorkersCanReorder(c: Config) returns (s: System)
    requires c.Valid() && c.workers > 1
    ensures Reachable(c, s) && s.attempts == [[1], [0]]
  {
    hide Next, Reachable;
    s := Begin(c);
    s := ReceiveOne(c, s);
    s := PickUp(c, s, 0);
    s := ReceiveOne(c, s);
    s := PickUp(c, s, 1);
    s := PassOn(c, s, 1);
    s := PassOn(c, s, 0);
  }

  /** Arrival order is kept in all runs of a configuration if and only if it has exactly one worker. */
  lemma OrderIffOneWorker(c: Config)
    requires c.Valid()
    ensures (forall s: System, steps: seq<Step> :: Initial(c, s) ==> Increasing(Flatten(Execute(c, s, steps).attempts))) <==>
            c.workers == 1
  {
    if c.workers == 1 {
      forall s: System, steps: seq<Step> | Initial(c, s)
        ensures Increasing(Flatten(Execute(c, s, steps).attempts))
      {
        OneWorkerKeepsOrder(c, s, steps);
      }
    } else {
      var e := WorkersCanReorder(c);
      var s, steps :| Initial(c, s) && Execute(c, s, steps) == e;
      OvertakenNotIncreasing();
      assert !Increasing(Flatten(Execute(c, s, steps).attempts));
    }
  }

  lemma OvertakenNotIncreasing()
    ensures !Increasing(Flatten([[1], [0]]))
  {
    hide Flatten, Increasing;
    var second: seq<nat>, first: seq<nat> := [1], [0];
    FlattenSnoc([second], first);
    FlattenOne(second);
    assert [second] + [first] == [[1], [0]];
    NotIncreasing(second + first);
  }

  lemma NotIncreasing(q: seq<nat>)
    requires |q| == 2 && q[0] > q[1]
    ensures !Increasing(q)
  {
  }
}
