/**
 The TCP connection pool.  Connections are numbered in the order they are opened; the ghost sets
 say where each one went.
 */
module ConnectionPool {
  import opened Wrappers
  import opened Collections
  import opened Numbers
  import opened CircuitBreaker

  /** The pool's fields, and where the connections created so far are. */
  datatype Pool = Pool(idle: seq<nat>, active: nat, created: nat, inUse: set<nat>, discarded: set<nat>, leaked: nat)

  const EMPTY := Pool([], 0, 0, {}, {}, 0)

  function Decrement(n: nat): nat {
    if n > 0 then n - 1 else 0
  }

  /** get_connection: an idle connection from the front, else a new one when connecting works. */
  function Take(p: Pool, connects: bool): (Pool, Option<nat>) {
    if p.idle != [] then
      (p.(idle := p.idle[1..], active := Increment(p.active), inUse := p.inUse + {p.idle[0]}), Some(p.idle[0]))
    else if connects then
      (p.(created := p.created + 1, active := Increment(p.active), inUse := p.inUse + {p.created}), Some(p.created))
    else (p, None)
  }

  /** return_connection: back to the idle queue, or closed when that is full. */
  function GiveBack(p: Pool, maxSize: nat, c: nat): Pool {
    if |p.idle| < maxSize
    then p.(idle := p.idle + [c], active := Decrement(p.active), inUse := p.inUse - {c})
    else p.(active := Decrement(p.active), inUse := p.inUse - {c}, discarded := p.discarded + {c})
  }

  /** A connection dropped without being returned: nothing decrements the active count. */
  function Abandon(p: Pool, c: nat): Pool {
    p.(inUse := p.inUse - {c}, discarded := p.discarded + {c}, leaked := p.leaked + 1)
  }

  ghost predicate InOnePlace(p: Pool, c: nat) {
    if c < p.created then
      || (c in p.idle && c !in p.inUse && c !in p.discarded)
      || (c !in p.idle && c in p.inUse && c !in p.discarded)
      || (c !in p.idle && c !in p.inUse && c in p.discarded)
    else c !in p.idle && c !in p.inUse && c !in p.discarded
  }

  /**
   Every connection ever opened is in exactly one place, the idle queue respects its bound, and the
   active count never exceeds what is in use or was leaked.
   */
  ghost predicate Conserved(p: Pool, maxSize: nat) {
    && |p.idle| <= maxSize
    && (forall i, j :: 0 <= i < j < |p.idle| ==> p.idle[i] != p.idle[j])
    && (forall c: nat :: InOnePlace(p, c))
    && p.active <= USIZE_MAX
    && p.active <= |p.inUse| + p.leaked
  }

  lemma {:induction false} BelowSize(n: nat) returns (all: set<nat>)
    ensures |all| == n && forall c: nat :: c in all <==> c < n
  {
    all := {};
    if n > 0 {
      all := BelowSize(n - 1);
      all := all + {n - 1};
    }
  }

  /** In numbers: opened connections are the idle ones, the ones in use and the discarded ones. */
  lemma OpenedAddUp(p: Pool, maxSize: nat)
    requires Conserved(p, maxSize)
    ensures p.created == |p.idle| + |p.inUse| + |p.discarded|
  {
    var all := BelowSize(p.created);
    var idle := Elements(p.idle);
    ElementsSize(p.idle);
    forall c: nat
      ensures c in all <==> c in idle || c in p.inUse || c in p.discarded
      ensures (c in idle ==> c !in p.inUse) && (c in idle || c in p.inUse ==> c !in p.discarded)
    {
      assert InOnePlace(p, c);
    }
    assert idle !! p.inUse && (idle + p.inUse) !! p.discarded;
    assert all == (idle + p.inUse) + p.discarded;
  }

  lemma TakeConserves(p: Pool, maxSize: nat, connects: bool)
    requires Conserved(p, maxSize)
    ensures var (p', c) := Take(p, connects);
            && Conserved(p', maxSize)
            && (c.Some? ==> c.value in p'.inUse && p'.inUse == p.inUse + {c.value} && c.value !in p.inUse)
            && (c.None? ==> p' == p && p.idle == [])
  {
    var (p', c) := Take(p, connects);
    if c.Some? {
      assert InOnePlace(p, c.value);
      assert forall x :: x in p.idle <==> x in p'.idle || (p.idle != [] && x == c.value);
      forall x: nat
        ensures InOnePlace(p', x)
      {
        assert InOnePlace(p, x);
      }
    }
  }

  lemma GiveBackConserves(p: Pool, maxSize: nat, c: nat)
    requires Conserved(p, maxSize) && c in p.inUse
    ensures Conserved(GiveBack(p, maxSize, c), maxSize)
  {
    var p' := GiveBack(p, maxSize, c);
    assert InOnePlace(p, c);
    assert p.inUse == p'.inUse + {c};
    forall x: nat
      ensures InOnePlace(p', x)
    {
      assert InOnePlace(p, x);
    }
  }

  lemma AbandonConserves(p: Pool, maxSize: nat, c: nat)
    requires Conserved(p, maxSize) && c in p.inUse
    ensures Conserved(Abandon(p, c), maxSize)
  {
    var p' := Abandon(p, c);
    assert InOnePlace(p, c);
    assert p.inUse == p'.inUse + {c};
    forall x: nat
      ensures InOnePlace(p', x)
    {
      assert InOnePlace(p, x);
    }
  }

  // ----- Idle connections are a queue -----

  datatype PoolOp = Get(connects: bool) | Return(c: nat)

  function AfterOp(p: Pool, maxSize: nat, op: PoolOp): Pool {
    match op
    case Get(connects) => Take(p, connects).0
    case Return(c) => GiveBack(p, maxSize, c)
  }

  function AfterOps(p: Pool, maxSize: nat, ops: seq<PoolOp>): Pool {
    if ops == [] then p else AfterOp(AfterOps(p, maxSize, ops[..|ops| - 1]), maxSize, ops[|ops| - 1])
  }

  /** The connections that a run of operations returned to the idle queue, in order. */
  function Kept(p: Pool, maxSize: nat, ops: seq<PoolOp>): seq<nat> {
    if ops == [] then []
    else
      var init, last := ops[..|ops| - 1], ops[|ops| - 1];
      Kept(p, maxSize, init) + if last.Return? && |AfterOps(p, maxSize, init).idle| < maxSize then [last.c] else []
  }

  /** The connections that it reused, in order. */
  function Reused(p: Pool, maxSize: nat, ops: seq<PoolOp>): seq<nat> {
    if ops == [] then []
    else
      var init, last := ops[..|ops| - 1], ops[|ops| - 1];
      var before := AfterOps(p, maxSize, init);
      Reused(p, maxSize, init)
      + if last.Get? && before.idle != [] && Take(before, last.connects).1.Some?
        then [Take(before, last.connects).1.value] else []
  }

  /** First in, first out: connections are reused in the order in which they became idle. */
  lemma {:induction false} ReusedInOrder(p: Pool, maxSize: nat, ops: seq<PoolOp>)
    ensures p.idle + Kept(p, maxSize, ops) == Reused(p, maxSize, ops) + AfterOps(p, maxSize, ops).idle
  {
    if ops != [] {
      var init, last := ops[..|ops| - 1], ops[|ops| - 1];
      var before, reused, kept := AfterOps(p, maxSize, init), Reused(p, maxSize, init), Kept(p, maxSize, init);
      ReusedInOrder(p, maxSize, init);
      if last.Get? && before.idle != [] {
        assert before.idle == [before.idle[0]] + before.idle[1..];
        Reassociate(reused, [before.idle[0]], before.idle[1..]);
      } else if last.Return? && |before.idle| < maxSize {
        Reassociate(p.idle, kept, [last.c]);
        Reassociate(reused, before.idle, [last.c]);
      } else {
        assert Kept(p, maxSize, ops) == kept && Reused(p, maxSize, ops) == reused;
      }
    }
  }

  class ConnectionPool {
    const maxSize: nat
    var connections: seq<nat>
    var activeCount: nat
    /** How many streams connecting has produced; numbers the next one. */
    var created: nat
    ghost var inUse: set<nat>
    ghost var discarded: set<nat>
    ghost var leaked: nat

    ghost function Abs(): Pool
      reads this
    {
      Pool(connections, activeCount, created, inUse, discarded, leaked)
    }

    constructor (maxSize: nat)
      ensures this.maxSize == maxSize && Abs() == EMPTY
    {
      this.maxSize := maxSize;
      connections, activeCount, created := [], 0, 0;
      inUse, discarded, leaked := {}, {}, 0;
    }

    method GetConnection(connects: bool) returns (stream: Option<nat>)
      modifies this
      ensures (Abs(), stream) == Take(old(Abs()), connects)
    {
      if connections != [] {
        stream := Some(connections[0]);
        connections := connections[1..];
        activeCount := Increment(activeCount);
      } else if connects {
        stream := Some(created);
        created := created + 1;
        activeCount := Increment(activeCount);
      } else {
        stream := None;
        return;
      }
      inUse := inUse + {stream.value};
    }

    method ReturnConnection(stream: nat)
      modifies this
      ensures Abs() == GiveBack(old(Abs()), maxSize, stream)
    {
      if |connections| < maxSize {
        connections := connections + [stream];
        activeCount := Decrement(activeCount);
      } else {
        activeCount := Decrement(activeCount);
        discarded := discarded + {stream};
      }
      inUse := inUse - {stream};
    }

    /** The stream goes out of scope without being returned. */
    ghost method DropConnection(stream: nat)
      modifies this`inUse, this`discarded, this`leaked
      ensures Abs() == Abandon(old(Abs()), stream)
    {
      inUse, discarded, leaked := inUse - {stream}, discarded + {stream}, leaked + 1;
    }
  }
}
