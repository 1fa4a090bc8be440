/**
 The receiver and the enrichment workers as code: what the receiver enqueues and when it signals high
 load, and which snapshots of its history a worker hands to the state merger.
 */
module Workers {
  import opened Wrappers
  import opened Json
  import opened Collections
  import opened Numbers
  import opened Selections
  import opened Lru
  import opened Behavioral
  import opened StateMerger
  import PaloAltoParser
  import QueueMonitor
  import Utf8

  // ----- The tshark receiver -----

  /** The capacity the receiver passes to the load test, whatever capacity the queue was configured with. */
  const MAX_RECEIVER_QUEUE_SIZE: nat := 250_000
  const HIGH_LOAD_LENGTH: nat := 200_000
  const INDEX_LINE: string := "{\"index\""

  /** serde_json::from_str and normalize_packet. */
  datatype Reader = Reader(parse: string -> Option<Value>, normalize: Value -> Option<Value>)

  function ParsedLine(line: string, reader: Reader): Option<Value> {
    var text := PaloAltoParser.Trim(line);
    if text == [] || INDEX_LINE <= text then None else reader.parse(text)
  }

  /** The packet a line carries, if it carries one. */
  function PacketOf(line: string, reader: Reader): Option<Value> {
    var parsed := ParsedLine(line, reader);
    if parsed.Some? then reader.normalize(parsed.value) else None
  }

  const LOGGED_BYTES: nat := 120

  /**
   The line is none of those skipped, is not JSON, and its trimmed text is cut inside a character when
   its first 120 bytes are taken for the log message.
   */
  predicate CutsCharacter(line: string, reader: Reader) {
    var text := PaloAltoParser.Trim(line);
    && text != [] && !(INDEX_LINE <= text) && reader.parse(text).None?
    && Utf8.ByteLength(text) > LOGGED_BYTES && !Utf8.CharBoundary(text, LOGGED_BYTES)
  }

  /** In terms of the text: it is longer than 120 bytes, and no prefix of it has exactly 120. */
  lemma CutsCharacterIff(line: string, reader: Reader)
    ensures var text := PaloAltoParser.Trim(line);
            CutsCharacter(line, reader) <==>
            && text != [] && !(INDEX_LINE <= text) && reader.parse(text).None?
            && Utf8.ByteLength(text) > LOGGED_BYTES
            && forall j :: 0 <= j <= |text| ==> Utf8.ByteLength(text[..j]) != LOGGED_BYTES
  {
    Utf8.BoundaryIff(PaloAltoParser.Trim(line), LOGGED_BYTES);
  }

  /** For example 119 letters and one more character of two bytes or more, whatever follows. */
  lemma LongLineCutsCharacter(reader: Reader, c: char, rest: string)
    requires Utf8.Width(c) > 1 && !PaloAltoParser.IsWhitespace(c)
    requires rest != [] ==> !PaloAltoParser.IsWhitespace(rest[|rest| - 1])
    ensures var text := seq(119, _ => 'a') + ([c] + rest);
            reader.parse(text).None? ==> CutsCharacter(text, reader)
  {
    var a := seq(119, _ => 'a');
    var text := a + ([c] + rest);
    assert text[0] == 'a' && !PaloAltoParser.IsWhitespace('a') && !PaloAltoParser.IsWhitespace(text[|text| - 1]);
    assert PaloAltoParser.TrimStart(text) == text && PaloAltoParser.TrimEnd(text) == text;
    assert !(INDEX_LINE <= text) by {
      assert INDEX_LINE[0] == '{' && text[0] != '{';
    }
    Utf8.AfterAscii(a, [c] + rest, LOGGED_BYTES);
    assert ([c] + rest)[0] == c;
  }

  datatype ReceiverOutcome = ReceiverOutcome(parsedPacket: bool, normalizedPacket: bool, enqueued: bool)

  /** How a line is processed: to an outcome, or the slice for the log message panics. */
  datatype LineResult = Processed(outcome: ReceiverOutcome) | Panicked

  /** The queue as a line finds it: its length, and whether it accepts one more packet. */
  datatype Line = Line(text: string, queueLen: nat, room: bool, now: int)

  /** process_tshark_ek_line: a packet is offered to the queue once; the load flag depends on its length alone. */
  method ProcessTsharkEkLine(line: Line, reader: Reader, round: real -> real, monitor: QueueMonitor.QueueMonitor)
    returns (result: LineResult, sent: Option<Value>)
    requires QueueMonitor.RoundsToNearest(round) && line.queueLen < QueueMonitor.TWO_64
    modifies monitor
    ensures result == Panicked <==> CutsCharacter(line.text, reader)
    ensures result != Panicked ==>
              result == Processed(ReceiverOutcome(ParsedLine(line.text, reader).Some?, PacketOf(line.text, reader).Some?,
                                                  sent.Some?))
    ensures sent == if line.room then PacketOf(line.text, reader) else None
    ensures var text := PaloAltoParser.Trim(line.text);
            if text == "" || "{\"index\"" <= text || reader.parse(text).None?
               || reader.normalize(reader.parse(text).value).None?
            then sent == None && monitor.isHighLoad == old(monitor.isHighLoad)
            else sent == if line.room then reader.normalize(reader.parse(text).value) else None
    ensures monitor.isHighLoad ==
            if PacketOf(line.text, reader).Some? then line.queueLen >= HIGH_LOAD_LENGTH else old(monitor.isHighLoad)
  {
    var text := PaloAltoParser.Trim(line.text);
    if text == [] || INDEX_LINE <= text {
      return Processed(ReceiverOutcome(false, false, false)), None;
    }
    var json := reader.parse(text);
    if json.None? {
      var cut := if Utf8.ByteLength(text) < LOGGED_BYTES then Utf8.ByteLength(text) else LOGGED_BYTES;
      WholeIsBoundary(text);
      if !Utf8.CharBoundary(text, cut) {
        return Panicked, None;
      }
      return Processed(ReceiverOutcome(false, false, false)), None;
    }
    var packet := reader.normalize(json.value);
    if packet.None? {
      return Processed(ReceiverOutcome(true, false, false)), None;
    }
    var isHigh, reported := monitor.CheckQueueHealth(line.queueLen, MAX_RECEIVER_QUEUE_SIZE, round, line.now);
    result := Processed(ReceiverOutcome(true, true, line.room));
    sent := if line.room then packet else None;
  }

  lemma WholeIsBoundary(text: string)
    ensures Utf8.CharBoundary(text, Utf8.ByteLength(text))
  {
    Utf8.BoundaryIff(text, Utf8.ByteLength(text));
    assert text[..|text|] == text;
  }

  datatype Reading = Read(line: Line) | Quiet | Ended
  datatype ReceiverTurn = ReceiverTurn(shutdown: bool, reading: Reading)

  /** The lines read before the receiver stops: at a shutdown, the end of its input, a read error or a panic. */
  function LinesRead(script: seq<ReceiverTurn>, reader: Reader): seq<Line> {
    if script == [] || script[0].shutdown then []
    else
      match script[0].reading
      case Read(line) =>
        [line] + if CutsCharacter(line.text, reader) then [] else LinesRead(script[1..], reader)
      case Quiet => LinesRead(script[1..], reader)
      case Ended => []
  }

  /** The last line read made the receiver panic. */
  predicate EndsInPanic(lines: seq<Line>, reader: Reader) {
    lines != [] && CutsCharacter(lines[|lines| - 1].text, reader)
  }

  /** The packets of the lines, in order: those the queue took, or those it refused. */
  function Packets(lines: seq<Line>, reader: Reader, taken: bool): seq<Value> {
    if lines == [] then []
    else
      var last := lines[|lines| - 1];
      Packets(lines[..|lines| - 1], reader, taken)
      + if last.room == taken && PacketOf(last.text, reader).Some? then [PacketOf(last.text, reader).value] else []
  }

  function LineOf(t: ReceiverTurn): Option<Line> {
    if t.reading.Read? then Some(t.reading.line) else None
  }

  predicate Listens(t: ReceiverTurn) {
    !t.shutdown
  }

  function ReadsOn(reader: Reader): ReceiverTurn -> bool {
    (t: ReceiverTurn) => t.reading != Ended && (t.reading.Read? ==> !CutsCharacter(t.reading.line.text, reader))
  }

  lemma {:induction false} LinesTaken(script: seq<ReceiverTurn>, reader: Reader) returns (at: seq<nat>)
    ensures Takes(script, LinesRead(script, reader), at, LineOf, Listens, ReadsOn(reader))
  {
    hide Takes, CutsCharacter;
    if script == [] || script[0].shutdown {
      TakesNothing(script, LineOf, Listens, ReadsOn(reader));
      at := [];
    } else {
      var rest: seq<nat>, taken := [], [];
      if ReadsOn(reader)(script[0]) {
        rest := LinesTaken(script[1..], reader);
        taken := LinesRead(script[1..], reader);
      }
      var own := LineOf(script[0]);
      assert LinesRead(script, reader) == (if own.Some? then [own.value] else []) + taken;
      at := TakesCons(script, taken, rest, LineOf, Listens, ReadsOn(reader));
    }
  }

  /**
   Which lines are read: that of a turn if and only if no turn up to it finds the flag set, and none before it
   meets the end of the input or a line that makes the receiver panic.
   */
  lemma LinesByPosition(script: seq<ReceiverTurn>, reader: Reader) returns (at: seq<nat>)
    ensures Ascending(at, |script|) && |LinesRead(script, reader)| == |at|
    ensures forall j :: 0 <= j < |at| ==> script[at[j]].reading == Read(LinesRead(script, reader)[j])
    ensures forall i: nat :: i < |script| ==>
              (i in at <==>
               && script[i].reading.Read?
               && (forall k :: 0 <= k <= i ==> !script[k].shutdown)
               && (forall k :: 0 <= k < i ==>
                     script[k].reading != Ended
                     && (script[k].reading.Read? ==> !CutsCharacter(script[k].reading.line.text, reader))))
  {
    hide LinesRead, CutsCharacter;
    at := LinesTaken(script, reader);
    forall j | 0 <= j < |at|
      ensures script[at[j]].reading == Read(LinesRead(script, reader)[j])
    {
      assert LineOf(script[at[j]]) == Some(LinesRead(script, reader)[j]);
    }
    forall i: nat | i < |script|
      ensures i in at <==>
              && script[i].reading.Read?
              && (forall k :: 0 <= k <= i ==> !script[k].shutdown)
              && (forall k :: 0 <= k < i ==>
                    script[k].reading != Ended
                    && (script[k].reading.Read? ==> !CutsCharacter(script[k].reading.line.text, reader)))
    {
      assert Reached(script, i, Listens, ReadsOn(reader)) <==>
             && (forall k :: 0 <= k <= i ==> Listens(script[k]))
             && (forall k :: 0 <= k < i ==> ReadsOn(reader)(script[k]));
      assert LineOf(script[i]).Some? <==> script[i].reading.Read?;
    }
  }

  /** The packet of a line that finds room, or that does not. */
  function PacketIf(reader: Reader, taken: bool): Line -> Option<Value> {
    (l: Line) =>
      var text := PaloAltoParser.Trim(l.text);
      if l.room == taken && text != "" && !("{\"index\"" <= text) && reader.parse(text).Some?
      then reader.normalize(reader.parse(text).value) else None
  }

  /** Those packets are the lines' own, in the order of the lines. */
  lemma {:induction false} PacketsByPosition(lines: seq<Line>, reader: Reader, taken: bool) returns (at: seq<nat>)
    ensures Keeps(lines, Packets(lines, reader, taken), at, PacketIf(reader, taken))
  {
    hide Keeps;
    if lines == [] {
      at := [];
      KeepsNothing<Line, Value>(PacketIf(reader, taken));
    } else {
      var init, last := lines[..|lines| - 1], lines[|lines| - 1];
      at := PacketsByPosition(init, reader, taken);
      assert lines == init + [last];
      var own := PacketIf(reader, taken)(last);
      assert Packets(lines, reader, taken) ==
             if own.Some? then Packets(init, reader, taken) + [own.value] else Packets(init, reader, taken);
      at := KeepsSnoc(init, Packets(init, reader, taken), at, PacketIf(reader, taken), last);
    }
  }

  lemma NoLines(reader: Reader)
    ensures Packets([], reader, true) == [] && Packets([], reader, false) == []
  {
  }

  lemma PacketsStep(lines: seq<Line>, line: Line, reader: Reader)
    ensures forall taken :: Packets(lines + [line], reader, taken) ==
              Packets(lines, reader, taken)
              + if line.room == taken && PacketOf(line.text, reader).Some? then [PacketOf(line.text, reader).value] else []
  {
    assert (lines + [line])[..|lines|] == lines;
  }

  lemma NextLine(script: seq<ReceiverTurn>, i: nat, reader: Reader)
    requires i < |script| && !script[i].shutdown
    ensures LinesRead(script[i..], reader) ==
            match script[i].reading
            case Read(line) => [line] + (if CutsCharacter(line.text, reader) then [] else LinesRead(script[i + 1..], reader))
            case Quiet => LinesRead(script[i + 1..], reader)
            case Ended => []
  {
    assert script[i..][0] == script[i] && script[i..][1..] == script[i + 1..];
  }

  /** The receiver's task returns, or panics and takes run down with it. */
  datatype ReceiverEnd = Returned | Unwound

  /**
   tshark_stdin_receiver_thread over a script of turns.  The last clause: a run whose queue never holds
   200,000 packets, as with any smaller configured capacity, never signals high load however full it gets.
   */
  method ReceiverThread(script: seq<ReceiverTurn>, reader: Reader, round: real -> real,
                        monitor: QueueMonitor.QueueMonitor)
    returns (end: ReceiverEnd, enqueued: seq<Value>, packetCount: nat, ghost at: seq<nat>, ghost kept: seq<nat>)
    requires QueueMonitor.RoundsToNearest(round)
    requires forall l :: l in LinesRead(script, reader) ==> l.queueLen < QueueMonitor.TWO_64
    modifies monitor
    ensures Ascending(at, |script|) && |LinesRead(script, reader)| == |at|
    ensures forall j :: 0 <= j < |at| ==> script[at[j]].reading == Read(LinesRead(script, reader)[j])
    ensures forall i: nat :: i < |script| ==>
              (i in at <==>
               && script[i].reading.Read?
               && (forall k :: 0 <= k <= i ==> !script[k].shutdown)
               && (forall k :: 0 <= k < i ==>
                     script[k].reading != Ended
                     && (script[k].reading.Read? ==> !CutsCharacter(script[k].reading.line.text, reader))))
    ensures Keeps(LinesRead(script, reader), enqueued, kept, PacketIf(reader, true))
    ensures end == Unwound <==> EndsInPanic(LinesRead(script, reader), reader)
    ensures enqueued == Packets(LinesRead(script, reader), reader, true)
    ensures packetCount == Min(U64_MAX, |enqueued| + |Packets(LinesRead(script, reader), reader, false)|)
    ensures (forall l :: l in LinesRead(script, reader) ==> l.queueLen < HIGH_LOAD_LENGTH) && !old(monitor.isHighLoad) ==>
              !monitor.isHighLoad
  {
    hide QueueMonitor.RoundsToNearest, Packets, CutsCharacter, LinesRead, Ascending, Keeps;
    end, enqueued, packetCount := ReceiverLoop(script, reader, round, monitor);
    at := LinesByPosition(script, reader);
    kept := PacketsByPosition(LinesRead(script, reader), reader, true);
  }

  /** The loop of the receiver. */
  method ReceiverLoop(script: seq<ReceiverTurn>, reader: Reader, round: real -> real,
                      monitor: QueueMonitor.QueueMonitor)
    returns (end: ReceiverEnd, enqueued: seq<Value>, packetCount: nat)
    requires QueueMonitor.RoundsToNearest(round)
    requires forall l :: l in LinesRead(script, reader) ==> l.queueLen < QueueMonitor.TWO_64
    modifies monitor
    ensures end == Unwound <==> EndsInPanic(LinesRead(script, reader), reader)
    ensures enqueued == Packets(LinesRead(script, reader), reader, true)
    ensures packetCount == Min(U64_MAX, |enqueued| + |Packets(LinesRead(script, reader), reader, false)|)
    ensures (forall l :: l in LinesRead(script, reader) ==> l.queueLen < HIGH_LOAD_LENGTH) && !old(monitor.isHighLoad) ==>
              !monitor.isHighLoad
  {
    hide QueueMonitor.RoundsToNearest, PacketOf, ParsedLine, Packets, CutsCharacter, LinesRead, PaloAltoParser.Trim;
    NoLines(reader);
    ghost var all := LinesRead(script, reader);
    ghost var done: seq<Line> := [];
    end, enqueued, packetCount := Returned, [], 0;
    var i := 0;
    while i < |script| && !script[i].shutdown
      invariant i <= |script| && done + LinesRead(script[i..], reader) == all && !EndsInPanic(done, reader)
      invariant enqueued == Packets(done, reader, true)
      invariant packetCount == Min(U64_MAX, |enqueued| + |Packets(done, reader, false)|)
      invariant (forall l :: l in all ==> l.queueLen < HIGH_LOAD_LENGTH) && !old(monitor.isHighLoad) ==>
                  !monitor.isHighLoad
    {
      NextLine(script, i, reader);
      match script[i].reading {
        case Read(line) =>
          assert line in all;
          var result, sent := ProcessTsharkEkLine(line, reader, round, monitor);
          PacketsStep(done, line, reader);
          done := done + [line];
          if result.Panicked? {
            NoPacketInPanic(line.text, reader);
            assert done == all;
            end := Unwound;
            return;
          }
          if sent.Some? {
            enqueued := enqueued + [sent.value];
          }
          if result.outcome.normalizedPacket {
            packetCount := if packetCount < U64_MAX then packetCount + 1 else packetCount;
          }
        case Quiet =>
        case Ended =>
          assert done == all;
          return;
      }
      i := i + 1;
    }
    NoMoreLines(script, i, reader);
    assert done == all;
  }

  lemma NoPacketInPanic(line: string, reader: Reader)
    requires CutsCharacter(line, reader)
    ensures PacketOf(line, reader).None?
  {
  }

  lemma NoMoreLines(script: seq<ReceiverTurn>, i: nat, reader: Reader)
    requires i <= |script| && (i < |script| ==> script[i].shutdown)
    ensures LinesRead(script[i..], reader) == []
  {
  }

  // ----- The enrichment workers -----

  /**
   One item taken from a worker's queue: the log its enrichment counts (none when high load skips the
   enrichment, or the log does not parse), and whether the merger's queue has room for a snapshot.
   */
  datatype Item = Item(counted: Option<Value>, now: int, room: bool)
  datatype WorkerReceipt = Took(item: Item) | Idle(shutdown: bool) | HungUp
  datatype WorkerTurn = WorkerTurn(shutdown: bool, receipt: WorkerReceipt)

  /** The items a worker processes before it stops. */
  function ItemsTaken(script: seq<WorkerTurn>): seq<Item> {
    if script == [] || script[0].shutdown then []
    else
      match script[0].receipt
      case Took(item) => [item] + ItemsTaken(script[1..])
      case Idle(shutdown) => if shutdown then [] else ItemsTaken(script[1..])
      case HungUp => []
  }

  function ItemOf(t: WorkerTurn): Option<Item> {
    if t.receipt.Took? then Some(t.receipt.item) else None
  }

  predicate Runs(t: WorkerTurn) {
    !t.shutdown
  }

  predicate WorksOn(t: WorkerTurn) {
    t.receipt != Idle(true) && t.receipt != HungUp
  }

  lemma {:induction false} ItemsAreTaken(script: seq<WorkerTurn>) returns (at: seq<nat>)
    ensures Takes(script, ItemsTaken(script), at, ItemOf, Runs, WorksOn)
  {
    hide Takes;
    if script == [] || script[0].shutdown {
      TakesNothing(script, ItemOf, Runs, WorksOn);
      at := [];
    } else {
      var rest: seq<nat>, taken := [], [];
      if WorksOn(script[0]) {
        rest := ItemsAreTaken(script[1..]);
        taken := ItemsTaken(script[1..]);
      }
      var own := ItemOf(script[0]);
      assert ItemsTaken(script) == (if own.Some? then [own.value] else []) + taken;
      at := TakesCons(script, taken, rest, ItemOf, Runs, WorksOn);
    }
  }

  /**
   Which items a worker processes: that of a turn if and only if no turn up to it finds the flag set at the
   loop's head, and none before it times out with the flag set or finds the channel disconnected.
   */
  lemma ItemsByPosition(script: seq<WorkerTurn>) returns (at: seq<nat>)
    ensures Ascending(at, |script|) && |ItemsTaken(script)| == |at|
    ensures forall j :: 0 <= j < |at| ==> script[at[j]].receipt == Took(ItemsTaken(script)[j])
    ensures forall i: nat :: i < |script| ==>
              (i in at <==>
               && script[i].receipt.Took?
               && (forall k :: 0 <= k <= i ==> !script[k].shutdown)
               && (forall k :: 0 <= k < i ==> script[k].receipt != Idle(true) && script[k].receipt != HungUp))
  {
    hide ItemsTaken;
    at := ItemsAreTaken(script);
    forall j | 0 <= j < |at|
      ensures script[at[j]].receipt == Took(ItemsTaken(script)[j])
    {
      assert ItemOf(script[at[j]]) == Some(ItemsTaken(script)[j]);
    }
    forall i: nat | i < |script|
      ensures i in at <==>
              && script[i].receipt.Took?
              && (forall k :: 0 <= k <= i ==> !script[k].shutdown)
              && (forall k :: 0 <= k < i ==> script[k].receipt != Idle(true) && script[k].receipt != HungUp)
    {
      assert Reached(script, i, Runs, WorksOn) <==>
             (forall k :: 0 <= k <= i ==> Runs(script[k])) && (forall k :: 0 <= k < i ==> WorksOn(script[k]));
      assert ItemOf(script[i]).Some? <==> script[i].receipt.Took?;
    }
  }

  /** The updates of the worker's history. */
  ghost function EventsOf(items: seq<Item>): (events: seq<Event>)
    ensures |events| <= |items|
  {
    if items == [] then []
    else
      var last := items[|items| - 1];
      EventsOf(items[..|items| - 1]) + if last.counted.Some? then [Updated(last.now, last.counted.value)] else []
  }

  function UpdateOf(item: Item): Option<Event> {
    if item.counted.Some? then Some(Updated(item.now, item.counted.value)) else None
  }

  /** One update for each counted item, in their order. */
  lemma {:induction false} EventsByPosition(items: seq<Item>) returns (at: seq<nat>)
    ensures Keeps(items, EventsOf(items), at, UpdateOf)
  {
    hide Keeps;
    if items == [] {
      at := [];
      KeepsNothing<Item, Event>(UpdateOf);
    } else {
      var init, last := items[..|items| - 1], items[|items| - 1];
      at := EventsByPosition(init);
      assert items == init + [last];
      var own := UpdateOf(last);
      assert EventsOf(items) == if own.Some? then EventsOf(init) + [own.value] else EventsOf(init);
      at := KeepsSnoc(init, EventsOf(init), at, UpdateOf, last);
    }
  }

  const SNAPSHOT_EVERY: nat := 100

  /** How many events each periodic snapshot that found room includes. */
  ghost function PeriodicCuts(items: seq<Item>): (cuts: seq<nat>)
    ensures forall j :: 0 <= j < |cuts| ==> cuts[j] <= |EventsOf(items)|
  {
    if items == [] then []
    else
      PeriodicCuts(items[..|items| - 1])
      + if Min(U64_MAX, |items|) % SNAPSHOT_EVERY == 0 && items[|items| - 1].room then [|EventsOf(items)|] else []
  }

  /** A snapshot is handed over after item i: its number is a multiple of 100, and the merger's queue has room. */
  predicate SnapshotDue(items: seq<Item>, i: nat)
    requires i < |items|
  {
    Min(U64_MAX, i + 1) % 100 == 0 && items[i].room
  }

  /** The number of events up to item i, if a snapshot is due there. */
  ghost function CutAt(items: seq<Item>): int -> Option<nat> {
    (i: int) => if 0 <= i < |items| && SnapshotDue(items, i) then Some(|EventsOf(items[..i + 1])|) else None
  }

  function Indices(n: nat): (indices: seq<int>)
    ensures |indices| == n && forall i :: 0 <= i < n ==> indices[i] == i
  {
    seq(n, i requires 0 <= i < n => i)
  }

  lemma {:induction false} CutsUpTo(items: seq<Item>, n: nat) returns (at: seq<nat>)
    requires n <= |items|
    ensures Keeps(Indices(n), PeriodicCuts(items[..n]), at, CutAt(items))
  {
    hide Keeps, PeriodicCuts, EventsOf, SnapshotDue;
    if n == 0 {
      at := [];
      NoItems();
      KeepsNothing<int, nat>(CutAt(items));
      assert Indices(0) == [] && items[..0] == [];
    } else {
      at := CutsUpTo(items, n - 1);
      LastCut(items, n);
      assert Indices(n) == Indices(n - 1) + [n - 1];
      at := KeepsSnoc(Indices(n - 1), PeriodicCuts(items[..n - 1]), at, CutAt(items), n - 1);
    }
  }

  lemma LastCut(items: seq<Item>, n: nat)
    requires 0 < n <= |items|
    ensures PeriodicCuts(items[..n]) ==
            if SnapshotDue(items, n - 1) then PeriodicCuts(items[..n - 1]) + [|EventsOf(items[..n])|]
            else PeriodicCuts(items[..n - 1])
  {
    hide EventsOf;
    assert items[..n][..n - 1] == items[..n - 1];
  }

  /** The periodic snapshots are those after such items, in order, each with the events up to there. */
  lemma CutsByPosition(items: seq<Item>) returns (at: seq<nat>)
    ensures Ascending(at, |items|) && |PeriodicCuts(items)| == |at|
    ensures forall j :: 0 <= j < |at| ==> PeriodicCuts(items)[j] == |EventsOf(items[..at[j] + 1])|
    ensures forall i: nat :: i < |items| ==> (i in at <==> SnapshotDue(items, i))
  {
    hide PeriodicCuts, EventsOf, SnapshotDue;
    at := CutsUpTo(items, |items|);
    assert items[..|items|] == items;
    forall j | 0 <= j < |at|
      ensures PeriodicCuts(items)[j] == |EventsOf(items[..at[j] + 1])| && SnapshotDue(items, at[j])
    {
      assert CutAt(items)(Indices(|items|)[at[j]]) == Some(PeriodicCuts(items)[j]);
    }
    forall i: nat | i < |items| && SnapshotDue(items, i)
      ensures i in at
    {
      assert CutAt(items)(Indices(|items|)[i]).Some?;
    }
  }

  /** The same for all delivered snapshots: the periodic ones, then the final one. */
  ghost function Cuts(items: seq<Item>, finalRoom: bool): (cuts: seq<nat>)
    ensures forall j :: 0 <= j < |cuts| ==> cuts[j] <= |EventsOf(items)|
  {
    PeriodicCuts(items) + if finalRoom then [|EventsOf(items)|] else []
  }

  /** The snapshot holds exactly the counters of a history with these events. */
  ghost predicate SnapshotAt(s: Snapshot, created: int, events: seq<Event>) {
    var session := CurrentSession(created, events);
    && s.Fits() && s.last == LastTime(created, events)
    && IsSnapshotOf(s.ips, TouchesOf(session, IpTouches), MAX_UNIQUE_IPS_TO_TRACK)
    && IsSnapshotOf(s.users, TouchesOf(session, UserTouches), MAX_UNIQUE_USERS_TO_TRACK)
    && IsSnapshotOf(s.rules, TouchesOf(session, RuleTouches), MAX_RULES_TO_TRACK)
  }

  /** Every delivered snapshot is the cumulative history up to its cut. */
  ghost predicate Cumulative(delivered: seq<Snapshot>, created: int, events: seq<Event>, cuts: seq<nat>) {
    && |delivered| == |cuts|
    && forall j :: 0 <= j < |cuts| ==> cuts[j] <= |events| && SnapshotAt(delivered[j], created, events[..cuts[j]])
  }

  lemma CumulativeSnoc(delivered: seq<Snapshot>, created: int, events: seq<Event>, cuts: seq<nat>, s: Snapshot)
    requires Cumulative(delivered, created, events, cuts) && SnapshotAt(s, created, events)
    ensures Cumulative(delivered + [s], created, events, cuts + [|events|])
  {
    hide SnapshotAt;
    assert events[..|events|] == events;
  }

  lemma CumulativeLater(delivered: seq<Snapshot>, created: int, events: seq<Event>, cuts: seq<nat>, e: Event)
    requires Cumulative(delivered, created, events, cuts)
    ensures Cumulative(delivered, created, events + [e], cuts)
  {
    hide SnapshotAt;
    forall j | 0 <= j < |cuts|
      ensures cuts[j] <= |events + [e]| && SnapshotAt(delivered[j], created, (events + [e])[..cuts[j]])
    {
      assert (events + [e])[..cuts[j]] == events[..cuts[j]];
    }
  }

  method TakeSnapshot(history: AlertHistory) returns (s: Snapshot)
    requires history.Valid()
    ensures SnapshotAt(s, history.created, history.events)
  {
    hide ListsRecent, ResidentCount, Resident, CurrentSession, LastTime, IsSnapshotOf, TouchesOf;
    s := history.Clone();
  }

  lemma ItemStep(items: seq<Item>, item: Item)
    ensures EventsOf(items + [item]) ==
            if item.counted.Some? then EventsOf(items) + [Updated(item.now, item.counted.value)] else EventsOf(items)
    ensures PeriodicCuts(items + [item]) ==
            if Min(U64_MAX, |items| + 1) % SNAPSHOT_EVERY == 0 && item.room
            then PeriodicCuts(items) + [|EventsOf(items + [item])|] else PeriodicCuts(items)
  {
    assert (items + [item])[..|items|] == items;
  }

  /** One item: the enrichment's update, and the periodic snapshot. */
  method ProcessItem(history: AlertHistory, item: Item, ghost items: seq<Item>, processed0: nat,
                     delivered0: seq<Snapshot>) returns (processed: nat, delivered: seq<Snapshot>)
    requires history.Valid() && history.events == EventsOf(items) && processed0 == Min(U64_MAX, |items|)
    requires Cumulative(delivered0, history.created, EventsOf(items), PeriodicCuts(items))
    modifies history.Repr()
    ensures history.Valid() && history.events == EventsOf(items + [item]) && processed == Min(U64_MAX, |items + [item]|)
    ensures Cumulative(delivered, history.created, EventsOf(items + [item]), PeriodicCuts(items + [item]))
  {
    hide SnapshotAt, Cumulative, EventsOf, PeriodicCuts, AlertHistory.Valid, Frequent;
    ItemStep(items, item);
    processed := if processed0 < U64_MAX then processed0 + 1 else processed0;
    delivered := delivered0;
    if item.counted.Some? {
      var _ := history.EnrichBehavioral(item.counted.value, item.now);
      CumulativeLater(delivered, history.created, EventsOf(items), PeriodicCuts(items), Updated(item.now, item.counted.value));
    }
    if processed % SNAPSHOT_EVERY == 0 && item.room {
      var s := TakeSnapshot(history);
      CumulativeSnoc(delivered, history.created, EventsOf(items + [item]), PeriodicCuts(items), s);
      delivered := delivered + [s];
    }
  }

  lemma NextTurn(script: seq<WorkerTurn>, i: nat)
    requires i < |script| && !script[i].shutdown
    ensures ItemsTaken(script[i..]) ==
            match script[i].receipt
            case Took(item) => [item] + ItemsTaken(script[i + 1..])
            case Idle(shutdown) => if shutdown then [] else ItemsTaken(script[i + 1..])
            case HungUp => []
  {
    assert script[i..][0] == script[i] && script[i..][1..] == script[i + 1..];
  }

  /** The loop of a worker over a script. */
  method WorkerLoop(history: AlertHistory, script: seq<WorkerTurn>) returns (delivered: seq<Snapshot>, processed: nat)
    requires history.Valid() && history.events == []
    modifies history.Repr()
    ensures history.Valid() && history.events == EventsOf(ItemsTaken(script))
    ensures processed == Min(U64_MAX, |ItemsTaken(script)|)
    ensures Cumulative(delivered, history.created, EventsOf(ItemsTaken(script)), PeriodicCuts(ItemsTaken(script)))
  {
    hide SnapshotAt, EventsOf, PeriodicCuts, AlertHistory.Valid, ItemsTaken;
    ghost var all := ItemsTaken(script);
    ghost var items: seq<Item> := [];
    delivered, processed := [], 0;
    NoItems();
    var i := 0;
    while i < |script| && !script[i].shutdown
      invariant i <= |script| && items + ItemsTaken(script[i..]) == all
      invariant history.Valid() && history.events == EventsOf(items) && processed == Min(U64_MAX, |items|)
      invariant Cumulative(delivered, history.created, EventsOf(items), PeriodicCuts(items))
    {
      hide Cumulative;
      NextTurn(script, i);
      match script[i].receipt {
        case Took(item) =>
          processed, delivered := ProcessItem(history, item, items, processed, delivered);
          items := items + [item];
        case Idle(shutdown) =>
          if shutdown {
            assert items == all;
            return;
          }
        case HungUp =>
          assert items == all;
          return;
      }
      i := i + 1;
    }
    Stopped(script, i);
    assert items == all;
  }

  lemma Stopped(script: seq<WorkerTurn>, i: nat)
    requires i <= |script| && (i < |script| ==> script[i].shutdown)
    ensures ItemsTaken(script[i..]) == []
  {
  }

  /**
   A worker with its own fresh history.  What it hands to the merger are clones of the whole history so
   far: after every hundredth item, and at the end.
   */
  method WorkerThread(script: seq<WorkerTurn>, created: int, finalRoom: bool)
    returns (delivered: seq<Snapshot>, processed: nat, ghost at: seq<nat>)
    ensures Ascending(at, |script|) && |ItemsTaken(script)| == |at|
    ensures forall j :: 0 <= j < |at| ==> script[at[j]].receipt == Took(ItemsTaken(script)[j])
    ensures forall i: nat :: i < |script| ==>
              (i in at <==>
               && script[i].receipt.Took?
               && (forall k :: 0 <= k <= i ==> !script[k].shutdown)
               && (forall k :: 0 <= k < i ==> script[k].receipt != Idle(true) && script[k].receipt != HungUp))
    ensures processed == Min(U64_MAX, |ItemsTaken(script)|)
    ensures Cumulative(delivered, created, EventsOf(ItemsTaken(script)), Cuts(ItemsTaken(script), finalRoom))
  {
    at := ItemsByPosition(script);
    hide SnapshotAt, EventsOf, PeriodicCuts, AlertHistory.Valid, ItemsTaken, Cumulative;
    var history := new AlertHistory.Default(created);
    delivered, processed := WorkerLoop(history, script);
    if finalRoom {
      var s := TakeSnapshot(history);
      CumulativeSnoc(delivered, created, EventsOf(ItemsTaken(script)), PeriodicCuts(ItemsTaken(script)), s);
      delivered := delivered + [s];
    } else {
      assert Cuts(ItemsTaken(script), false) == PeriodicCuts(ItemsTaken(script));
    }
  }

  lemma NoItems()
    ensures EventsOf([]) == [] && PeriodicCuts([]) == []
  {
  }

  // ----- How often the merger counts an event -----

  /** Every item is counted and every snapshot finds room. */
  ghost predicate Steady(items: seq<Item>) {
    |items| <= U64_MAX && forall item :: item in items ==> item.counted.Some? && item.room
  }

  lemma {:induction false} SteadyEvents(items: seq<Item>)
    requires Steady(items)
    ensures |EventsOf(items)| == |items| && forall e :: e in EventsOf(items) ==> e.Updated?
  {
    if items != [] {
      assert items[|items| - 1] in items;
      SteadyEvents(items[..|items| - 1]);
    }
  }

  lemma NextHundred(n: nat)
    requires n > 0
    ensures n / SNAPSHOT_EVERY == (n - 1) / SNAPSHOT_EVERY + if n % SNAPSHOT_EVERY == 0 then 1 else 0
  {
  }

  lemma SteadyPrefix(items: seq<Item>, m: nat)
    requires Steady(items) && 0 < m <= |items|
    ensures PeriodicCuts(items[..m]) == PeriodicCuts(items[..m - 1]) + if m % SNAPSHOT_EVERY == 0 then [m] else []
    ensures forall j :: 0 <= j < |PeriodicCuts(items[..m])| ==> PeriodicCuts(items[..m])[j] <= m
  {
    hide EventsOf, PeriodicCuts;
    assert items[..m] == items[..m - 1] + [items[m - 1]] && items[m - 1] in items;
    assert Steady(items[..m]);
    ItemStep(items[..m - 1], items[m - 1]);
    SteadyEvents(items[..m]);
    assert forall j :: 0 <= j < |PeriodicCuts(items[..m])| ==> PeriodicCuts(items[..m])[j] <= |EventsOf(items[..m])|;
  }

  /** The hundreds after item i, up to item m and the next gap: the periodic snapshots that include its event. */
  function HundredsBetween(i: nat, m: nat, gap: nat): int {
    if i < m then Min(m, gap) / SNAPSHOT_EVERY - i / SNAPSHOT_EVERY else 0
  }

  lemma HundredsStep(i: nat, m: nat, gap: nat)
    requires 0 < m && i < gap
    ensures HundredsBetween(i, m, gap) ==
            HundredsBetween(i, m - 1, gap) + if m % SNAPSHOT_EVERY == 0 && i < m <= gap then 1 else 0
  {
    NextHundred(m);
    if i == m - 1 {
      assert (m - 1) / SNAPSHOT_EVERY == i / SNAPSHOT_EVERY;
    }
  }

  lemma {:induction false} PeriodicCovering(created: int, items: seq<Item>, m: nat, i: nat)
    requires Steady(items) && i < |items| == |EventsOf(items)| && m <= |items|
    ensures WithinEvents(PeriodicCuts(items[..m]), EventsOf(items))
    ensures Covering(created, EventsOf(items), PeriodicCuts(items[..m]), i) ==
            HundredsBetween(i, m, GapAfter(created, EventsOf(items), i))
    decreases m
  {
    hide EventsOf, PeriodicCuts, HundredsBetween, InCut;
    var events := EventsOf(items);
    var gap := GapAfter(created, events, i);
    if m == 0 {
      assert items[..0] == [];
      NoItems();
      assert HundredsBetween(i, 0, gap) == 0 by {
        NoHundreds(i, gap);
      }
    } else {
      var before, cuts := PeriodicCuts(items[..m - 1]), PeriodicCuts(items[..m]);
      SteadyPrefix(items, m);
      PeriodicCovering(created, items, m - 1, i);
      HundredsStep(i, m, gap);
      InCutIff(created, events, m, i);
      if m % SNAPSHOT_EVERY == 0 {
        assert cuts[..|cuts| - 1] == before && cuts[|cuts| - 1] == m;
      } else {
        assert cuts == before;
      }
    }
  }

  lemma NoHundreds(i: nat, gap: nat)
    ensures HundredsBetween(i, 0, gap) == 0
  {
  }

  /**
   With nothing skipped or refused, event i of n is in n/100 - i/100 + 1 delivered snapshots; when the
   next long gap comes at event g, only in the g/100 - i/100 taken before it, which may be none.
   */
  lemma DeliveredCopies(created: int, items: seq<Item>, i: nat)
    requires Steady(items) && i < |items| == |EventsOf(items)|
    ensures WithinEvents(Cuts(items, true), EventsOf(items))
    ensures var n, g := |items|, GapAfter(created, EventsOf(items), i);
            Covering(created, EventsOf(items), Cuts(items, true), i) ==
            if g == n then n / SNAPSHOT_EVERY - i / SNAPSHOT_EVERY + 1 else g / SNAPSHOT_EVERY - i / SNAPSHOT_EVERY
  {
    hide EventsOf, PeriodicCuts, InCut;
    var n, events, cuts := |items|, EventsOf(items), Cuts(items, true);
    assert items[..n] == items;
    PeriodicCovering(created, items, n, i);
    InCutIff(created, events, n, i);
    assert cuts[..|cuts| - 1] == PeriodicCuts(items) && cuts[|cuts| - 1] == n;
  }

  lemma {:induction false} WeightedAgainstOccurrences<K>(created: int, events: seq<Event>, touches: Event -> seq<Touch<K>>,
                                                         cuts: seq<nat>, k: K, n: nat)
    requires WithinEvents(cuts, events) && n <= |events|
    requires forall i: nat :: i < |events| ==> Covering(created, events, cuts, i) >= 1
    ensures Weighted(created, events, touches, cuts, k, n) >= Occurrences(events[..n], touches, k)
    ensures Weighted(created, events, touches, cuts, k, n) == Occurrences(events[..n], touches, k) <==>
            forall i: nat :: i < n && Touch(k, 1) in touches(events[i]) ==> Covering(created, events, cuts, i) == 1
  {
    if n > 0 {
      hide Covering;
      WeightedAgainstOccurrences(created, events, touches, cuts, k, n - 1);
      assert events[..n][..n - 1] == events[..n - 1] && events[..n][n - 1] == events[n - 1];
      assert Covering(created, events, cuts, n - 1) >= 1;
    }
  }

  lemma ClonesOfKind<K>(delivered: seq<Snapshot>, created: int, events: seq<Event>, cuts: seq<nat>,
                        kind: Snapshot -> map<K, nat>, touches: Event -> seq<Touch<K>>, capacity: nat)
    requires |delivered| == |cuts| && WithinEvents(cuts, events)
    requires forall j :: 0 <= j < |cuts| ==>
               IsSnapshotOf(kind(delivered[j]), TouchesOf(CurrentSession(created, events[..cuts[j]]), touches), capacity)
    ensures ClonesAt(MapsOf(delivered, kind), created, events, cuts, touches, capacity)
  {
    hide IsSnapshotOf, CurrentSession, TouchesOf;
  }

  /** The delivered snapshots are clones of the worker's history, kind by kind. */
  lemma DeliveredClones(delivered: seq<Snapshot>, created: int, events: seq<Event>, cuts: seq<nat>)
    requires Cumulative(delivered, created, events, cuts)
    ensures ClonesAt(MapsOf(delivered, Ips), created, events, cuts, IpTouches, MAX_UNIQUE_IPS_TO_TRACK)
    ensures ClonesAt(MapsOf(delivered, Users), created, events, cuts, UserTouches, MAX_UNIQUE_USERS_TO_TRACK)
    ensures ClonesAt(MapsOf(delivered, Rules), created, events, cuts, RuleTouches, MAX_RULES_TO_TRACK)
  {
    hide IsSnapshotOf, CurrentSession, TouchesOf, ClonesAt, LastTime, IpTouches, UserTouches, RuleTouches;
    ClonesOfKind(delivered, created, events, cuts, Ips, IpTouches, MAX_UNIQUE_IPS_TO_TRACK);
    ClonesOfKind(delivered, created, events, cuts, Users, UserTouches, MAX_UNIQUE_USERS_TO_TRACK);
    ClonesOfKind(delivered, created, events, cuts, Rules, RuleTouches, MAX_RULES_TO_TRACK);
  }

  /**
   What a steady worker's snapshots hold for a key, added up, when all keys fit, nothing saturates and
   no long gap comes after the first event: at least the true count, and exactly that if and only if
   every event of the key came after the last periodic snapshot.
   */
  lemma SnapshotsExactWhenRecent<K>(created: int, items: seq<Item>, counters: seq<map<K, nat>>,
                                    touches: Event -> seq<Touch<K>>, capacity: nat, k: K)
    requires Steady(items)
    requires ClonesAt(counters, created, EventsOf(items), Cuts(items, true), touches, capacity)
    requires SingleTouches(EventsOf(items), touches)
    requires |KeysOf(TouchesOf(EventsOf(items), touches))| <= capacity
    requires Occurrences(EventsOf(items), touches, k) <= U32_MAX
    requires forall i: nat :: 0 < i < |EventsOf(items)| ==> !AfterGap(created, EventsOf(items), i)
    ensures var events := EventsOf(items);
            && SumOf(counters, k) >= Occurrences(events, touches, k)
            && (SumOf(counters, k) == Occurrences(events, touches, k) <==>
                forall i: nat :: i < |events| && Touch(k, 1) in touches(events[i]) ==>
                  i / SNAPSHOT_EVERY == |events| / SNAPSHOT_EVERY)
  {
    hide EventsOf, Cuts, SingleTouches, AfterGap, Covering, ClonesAt, Steady, Occurrences, Weighted, KeysOf, TouchesOf;
    var events, cuts := EventsOf(items), Cuts(items, true);
    SteadyEvents(items);
    ClonesHaveCuts(counters, created, events, cuts, touches, capacity);
    ClonesAddUp(counters, created, events, cuts, touches, capacity, k);
    forall i: nat | i < |events|
      ensures Covering(created, events, cuts, i) >= 1
      ensures Covering(created, events, cuts, i) == 1 <==> i / SNAPSHOT_EVERY == |events| / SNAPSHOT_EVERY
    {
      CopiesWithoutGap(created, items, i);
    }
    WeightedAgainstOccurrences(created, events, touches, cuts, k, |events|);
    assert events[..|events|] == events;
  }

  lemma CopiesWithoutGap(created: int, items: seq<Item>, i: nat)
    requires Steady(items) && i < |items| == |EventsOf(items)|
    requires forall j: nat :: 0 < j < |EventsOf(items)| ==> !AfterGap(created, EventsOf(items), j)
    ensures WithinEvents(Cuts(items, true), EventsOf(items))
    ensures var copies := Covering(created, EventsOf(items), Cuts(items, true), i);
            copies >= 1 && (copies == 1 <==> i / SNAPSHOT_EVERY == |EventsOf(items)| / SNAPSHOT_EVERY)
  {
    hide EventsOf, Cuts, Covering, Steady, AfterGap;
    DeliveredCopies(created, items, i);
    NoGapAfter(created, EventsOf(items), i);
    LaterHundred(i, |items|);
  }

  lemma LaterHundred(i: nat, n: nat)
    requires i <= n
    ensures i / SNAPSHOT_EVERY <= n / SNAPSHOT_EVERY
  {
  }

  lemma NoGapAfter(created: int, events: seq<Event>, i: nat)
    requires i < |events| && forall j: nat :: 0 < j < |events| ==> !AfterGap(created, events, j)
    ensures GapAfter(created, events, i) == |events|
  {
  }

  /** For the addresses of what the worker delivers. */
  lemma DeliveredAddressesExactWhenRecent(delivered: seq<Snapshot>, created: int, items: seq<Item>, ip: string)
    requires Steady(items) && Cumulative(delivered, created, EventsOf(items), Cuts(items, true))
    requires |KeysOf(TouchesOf(EventsOf(items), IpTouches))| <= MAX_UNIQUE_IPS_TO_TRACK
    requires Occurrences(EventsOf(items), IpTouches, ip) <= U32_MAX
    requires forall i: nat :: 0 < i < |EventsOf(items)| ==> !AfterGap(created, EventsOf(items), i)
    ensures var events := EventsOf(items);
            SumOf(MapsOf(delivered, Ips), ip) == Occurrences(events, IpTouches, ip) <==>
            forall i: nat :: i < |events| && Touch(ip, 1) in IpTouches(events[i]) ==>
              i / SNAPSHOT_EVERY == |events| / SNAPSHOT_EVERY
  {
    hide ClonesAt, Cumulative, AfterGap, Cuts;
    SteadyEvents(items);
    UpdatesTouchOnce(EventsOf(items));
    DeliveredClones(delivered, created, EventsOf(items), Cuts(items, true));
    SnapshotsExactWhenRecent(created, items, MapsOf(delivered, Ips), IpTouches, MAX_UNIQUE_IPS_TO_TRACK, ip);
  }
}
