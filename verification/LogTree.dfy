/** The strings of a log's JSON tree, by their addresses: each is found once. */
module LogTree {
  import opened Wrappers
  import opened Json

  // ----- Addresses in a tree -----

  datatype Step = Field(key: string) | Index(i: nat)
  type Address = seq<Step>

  function Child(v: Value, step: Step): Option<Value> {
    match step
    case Field(key) => Get(v, key)
    case Index(i) => if v.Array? && i < |v.elems| then Some(v.elems[i]) else None
  }

  /** What an address leads to. */
  function At(v: Value, a: Address): Option<Value>
    decreases |a|
  {
    if a == [] then Some(v)
    else if Child(v, a[0]).None? then None
    else At(Child(v, a[0]).value, a[1..])
  }

  /** No object in the tree repeats a key. */
  predicate WellFormed(v: Value) {
    match v
    case Object(members) =>
      && (forall i, j :: 0 <= i < j < |members| ==> members[i].key != members[j].key)
      && (forall m :: m in members ==> WellFormed(m.value))
    case Array(elems) => forall e :: e in elems ==> WellFormed(e)
    case _ => true
  }

  /** What a step adds to a path string. */
  function StepText(path: string, step: Step): string {
    match step
    case Field(key) => if path == "" then key else "." + key
    case Index(i) => IndexText(i)
  }

  function IndexText(i: nat): string {
    "[" + Decimal(i) + "]"
  }

  /** The path string of the first n steps of an address, as the scan builds it on the way down. */
  function RenderUpTo(a: Address, n: nat): string
    requires n <= |a|
  {
    if n == 0 then "" else RenderUpTo(a, n - 1) + StepText(RenderUpTo(a, n - 1), a[n - 1])
  }

  function Render(a: Address): string {
    RenderUpTo(a, |a|)
  }

  lemma {:induction false} RenderPrefix(a: Address, step: Step, n: nat)
    requires n <= |a|
    ensures RenderUpTo(a + [step], n) == RenderUpTo(a, n)
  {
    hide StepText;
    if n > 0 {
      RenderPrefix(a, step, n - 1);
      assert (a + [step])[n - 1] == a[n - 1];
    }
  }

  lemma RenderSnoc(a: Address, step: Step)
    ensures Render(a + [step]) == Render(a) + StepText(Render(a), step)
  {
    RenderPrefix(a, step, |a|);
  }

  // ----- String leaves -----

  datatype Leaf = Leaf(address: Address, text: string)

  /** The string leaves under a value, in the order of the walk. */
  function Leaves(v: Value, a: Address): seq<Leaf>
    decreases v, 0
  {
    match v
    case Object(members) => MemberLeaves(members, a)
    case Array(elems) => ElementLeaves(elems, 0, a)
    case String(s) => [Leaf(a, s)]
    case _ => []
  }

  function MemberLeaves(members: seq<Member>, a: Address): seq<Leaf>
    decreases members, 0
  {
    if members == [] then []
    else Leaves(members[0].value, a + [Field(members[0].key)]) + MemberLeaves(members[1..], a)
  }

  /** The leaves of elements that start at index i. */
  function ElementLeaves(elems: seq<Value>, i: nat, a: Address): seq<Leaf>
    decreases elems, 0
  {
    if elems == [] then [] else Leaves(elems[0], a + [Index(i)]) + ElementLeaves(elems[1..], i + 1, a)
  }

  ghost predicate LeafAt(v: Value, a: Address, leaf: Leaf, rest: Address) {
    leaf.address == a + rest && At(v, rest) == Some(String(leaf.text))
  }

  lemma AtStep(v: Value, step: Step, rest: Address)
    ensures ([step] + rest)[1..] == rest
    ensures At(v, [step] + rest) ==
            if Child(v, step).None? then None else At(Child(v, step).value, rest)
  {
    assert ([step] + rest)[1..] == rest;
  }

  /** Every listed leaf is where its address says. */
  lemma {:induction false} LeafIsThere(v: Value, a: Address, leaf: Leaf) returns (rest: Address)
    requires WellFormed(v) && leaf in Leaves(v, a)
    ensures LeafAt(v, a, leaf, rest)
    decreases v, 0
  {
    match v
    case Object(members) =>
      var k, r := MemberLeafIsThere(members, a, leaf);
      FindMember(members, k);
      rest := [Field(members[k].key)] + r;
      AtStep(v, Field(members[k].key), r);
      assert a + [Field(members[k].key)] + r == a + rest;
    case Array(elems) =>
      var k, r := ElementLeafIsThere(elems, 0, a, leaf);
      rest := [Index(k)] + r;
      AtStep(v, Index(k), r);
      assert a + [Index(k)] + r == a + rest;
    case String(s) =>
      rest := [];
  }

  lemma {:induction false} FindMember(members: seq<Member>, k: nat)
    requires k < |members| && forall i, j :: 0 <= i < j < |members| ==> members[i].key != members[j].key
    ensures Lookup(members, members[k].key) == Some(members[k].value)
  {
    if k > 0 {
      assert members[0].key != members[k].key;
      FindMember(members[1..], k - 1);
    }
  }

  lemma {:induction false} MemberLeafIsThere(members: seq<Member>, a: Address, leaf: Leaf) returns (k: nat, rest: Address)
    requires (forall m :: m in members ==> WellFormed(m.value)) && leaf in MemberLeaves(members, a)
    ensures k < |members| && LeafAt(members[k].value, a + [Field(members[k].key)], leaf, rest)
    decreases members, 0
  {
    assert members[0] in members;
    if leaf in Leaves(members[0].value, a + [Field(members[0].key)]) {
      k := 0;
      rest := LeafIsThere(members[0].value, a + [Field(members[0].key)], leaf);
    } else {
      k, rest := MemberLeafIsThere(members[1..], a, leaf);
      k := k + 1;
    }
  }

  lemma {:induction false} ElementLeafIsThere(elems: seq<Value>, i: nat, a: Address, leaf: Leaf) returns (k: nat, rest: Address)
    requires (forall e :: e in elems ==> WellFormed(e)) && leaf in ElementLeaves(elems, i, a)
    ensures k < |elems| && LeafAt(elems[k], a + [Index(i + k)], leaf, rest)
    decreases elems, 0
  {
    assert elems[0] in elems;
    if leaf in Leaves(elems[0], a + [Index(i)]) {
      k := 0;
      rest := LeafIsThere(elems[0], a + [Index(i)], leaf);
    } else {
      k, rest := ElementLeafIsThere(elems[1..], i + 1, a, leaf);
      k := k + 1;
    }
  }

  /** Every string in the tree is listed. */
  lemma {:induction false} LeafIsListed(v: Value, a: Address, rest: Address, s: string)
    requires At(v, rest) == Some(String(s))
    ensures Leaf(a + rest, s) in Leaves(v, a)
    decreases |rest|
  {
    if rest == [] {
      assert a + rest == a;
    } else {
      assert rest == [rest[0]] + rest[1..];
      assert a + rest == (a + [rest[0]]) + rest[1..];
      match rest[0]
      case Field(key) =>
        LeafIsListed(Get(v, key).value, a + [Field(key)], rest[1..], s);
        ChildMemberListed(v.members, key, a, Leaf(a + rest, s));
      case Index(i) =>
        LeafIsListed(v.elems[i], a + [Index(i)], rest[1..], s);
        ChildElementListed(v.elems, 0, i, a, Leaf(a + rest, s));
    }
  }

  lemma {:induction false} ChildMemberListed(members: seq<Member>, key: string, a: Address, leaf: Leaf)
    requires Lookup(members, key).Some? && leaf in Leaves(Lookup(members, key).value, a + [Field(key)])
    ensures leaf in MemberLeaves(members, a)
  {
    if members[0].key != key {
      ChildMemberListed(members[1..], key, a, leaf);
    }
  }

  lemma {:induction false} ChildElementListed(elems: seq<Value>, from: nat, k: nat, a: Address, leaf: Leaf)
    requires k < |elems| && leaf in Leaves(elems[k], a + [Index(from + k)])
    ensures leaf in ElementLeaves(elems, from, a)
  {
    if k > 0 {
      ChildElementListed(elems[1..], from + 1, k - 1, a, leaf);
    }
  }

  /** A walk lists exactly the string leaves of the tree under their addresses. */
  lemma LeavesAreExactlyTheStrings(v: Value, leaf: Leaf)
    requires WellFormed(v)
    ensures leaf in Leaves(v, []) <==> At(v, leaf.address) == Some(String(leaf.text))
  {
    if leaf in Leaves(v, []) {
      var rest := LeafIsThere(v, [], leaf);
      assert [] + rest == rest;
    }
    if At(v, leaf.address) == Some(String(leaf.text)) {
      LeafIsListed(v, [], leaf.address, leaf.text);
      assert [] + leaf.address == leaf.address;
    }
  }

  // ----- No leaf is listed twice -----

  ghost predicate DistinctAddresses(leaves: seq<Leaf>) {
    forall i, j :: 0 <= i < j < |leaves| ==> leaves[i].address != leaves[j].address
  }

  ghost predicate AllUnder(leaves: seq<Leaf>, a: Address) {
    forall leaf :: leaf in leaves ==> a <= leaf.address
  }

  lemma {:induction false} LeavesUnder(v: Value, a: Address)
    ensures AllUnder(Leaves(v, a), a)
    decreases v, 0
  {
    match v
    case Object(members) => MemberLeavesUnder(members, a);
    case Array(elems) => ElementLeavesUnder(elems, 0, a);
    case _ =>
  }

  lemma {:induction false} MemberLeavesUnder(members: seq<Member>, a: Address)
    ensures AllUnder(MemberLeaves(members, a), a)
    ensures forall leaf :: leaf in MemberLeaves(members, a) ==>
              |leaf.address| > |a| && exists m :: m in members && leaf.address[|a|] == Field(m.key)
    decreases members, 0
  {
    if members != [] {
      var m := members[0];
      LeavesUnder(m.value, a + [Field(m.key)]);
      MemberLeavesUnder(members[1..], a);
      forall leaf | leaf in MemberLeaves(members, a)
        ensures a <= leaf.address && |leaf.address| > |a| && exists x :: x in members && leaf.address[|a|] == Field(x.key)
      {
        if leaf in Leaves(m.value, a + [Field(m.key)]) {
          assert a + [Field(m.key)] <= leaf.address && m in members;
          assert leaf.address[|a|] == Field(m.key);
        } else {
          var x :| x in members[1..] && leaf.address[|a|] == Field(x.key);
          assert x in members;
        }
      }
    }
  }

  lemma {:induction false} ElementLeavesUnder(elems: seq<Value>, i: nat, a: Address)
    ensures AllUnder(ElementLeaves(elems, i, a), a)
    ensures forall leaf :: leaf in ElementLeaves(elems, i, a) ==>
              |leaf.address| > |a| && leaf.address[|a|].Index? && leaf.address[|a|].i >= i
    decreases elems, 0
  {
    if elems != [] {
      LeavesUnder(elems[0], a + [Index(i)]);
      ElementLeavesUnder(elems[1..], i + 1, a);
      forall leaf | leaf in ElementLeaves(elems, i, a)
        ensures a <= leaf.address && |leaf.address| > |a| && leaf.address[|a|].Index? && leaf.address[|a|].i >= i
      {
        if leaf in Leaves(elems[0], a + [Index(i)]) {
          assert a + [Index(i)] <= leaf.address;
          assert leaf.address[|a|] == Index(i);
        }
      }
    }
  }

  lemma ConcatDistinct(x: seq<Leaf>, y: seq<Leaf>)
    requires DistinctAddresses(x) && DistinctAddresses(y)
    requires forall p, q :: p in x && q in y ==> p.address != q.address
    ensures DistinctAddresses(x + y)
  {
    forall i, j | 0 <= i < j < |x + y|
      ensures (x + y)[i].address != (x + y)[j].address
    {
      if i < |x| <= j {
        assert x[i] in x && y[j - |x|] in y;
      }
    }
  }

  lemma {:induction false} LeavesDistinct(v: Value, a: Address)
    requires WellFormed(v)
    ensures DistinctAddresses(Leaves(v, a))
    decreases v, 0
  {
    match v
    case Object(members) => MemberLeavesDistinct(members, a);
    case Array(elems) => ElementLeavesDistinct(elems, 0, a);
    case _ =>
  }

  lemma UnderStep(leaves: seq<Leaf>, a: Address, step: Step)
    requires AllUnder(leaves, a + [step])
    ensures forall leaf :: leaf in leaves ==> |leaf.address| > |a| && leaf.address[|a|] == step
  {
    forall leaf | leaf in leaves
      ensures |leaf.address| > |a| && leaf.address[|a|] == step
    {
      assert a + [step] <= leaf.address;
      assert (a + [step])[|a|] == step;
    }
  }

  lemma {:induction false} MemberLeavesDistinct(members: seq<Member>, a: Address)
    requires forall i, j :: 0 <= i < j < |members| ==> members[i].key != members[j].key
    requires forall m :: m in members ==> WellFormed(m.value)
    ensures DistinctAddresses(MemberLeaves(members, a))
    decreases members, 0
  {
    if members != [] {
      var m := members[0];
      assert m in members;
      LeavesDistinct(m.value, a + [Field(m.key)]);
      MemberLeavesDistinct(members[1..], a);
      LeavesUnder(m.value, a + [Field(m.key)]);
      UnderStep(Leaves(m.value, a + [Field(m.key)]), a, Field(m.key));
      MemberLeavesUnder(members[1..], a);
      ConcatDistinct(Leaves(m.value, a + [Field(m.key)]), MemberLeaves(members[1..], a));
    }
  }

  lemma {:induction false} ElementLeavesDistinct(elems: seq<Value>, i: nat, a: Address)
    requires forall e :: e in elems ==> WellFormed(e)
    ensures DistinctAddresses(ElementLeaves(elems, i, a))
    decreases elems, 0
  {
    if elems != [] {
      assert elems[0] in elems;
      LeavesDistinct(elems[0], a + [Index(i)]);
      ElementLeavesDistinct(elems[1..], i + 1, a);
      LeavesUnder(elems[0], a + [Index(i)]);
      UnderStep(Leaves(elems[0], a + [Index(i)]), a, Index(i));
      ElementLeavesUnder(elems[1..], i + 1, a);
      ConcatDistinct(Leaves(elems[0], a + [Index(i)]), ElementLeaves(elems[1..], i + 1, a));
    }
  }

  // ----- The order of the walk -----

  /**
   Address x comes before y in the log: where they part, it goes to an earlier member of the object, or to an
   earlier element of the array.
   */
  predicate Before(v: Value, x: Address, y: Address)
    decreases |x|
  {
    && x != [] && y != []
    && if x[0] == y[0] then Child(v, x[0]).Some? && Before(Child(v, x[0]).value, x[1..], y[1..])
       else
         match v
         case Object(members) =>
           exists p, q :: 0 <= p < q < |members| && x[0] == Field(members[p].key) && y[0] == Field(members[q].key)
         case Array(_) => x[0].Index? && y[0].Index? && x[0].i < y[0].i
         case _ => false
  }

  /** The leaves are in that order, with addresses that start with a. */
  ghost predicate Ordered(v: Value, leaves: seq<Leaf>, a: Address) {
    && (forall i :: 0 <= i < |leaves| ==> a <= leaves[i].address)
    && forall i, j :: 0 <= i < j < |leaves| ==> Before(v, leaves[i].address[|a|..], leaves[j].address[|a|..])
  }

  lemma ChildOrdered(v: Value, step: Step, leaves: seq<Leaf>, a: Address)
    requires Child(v, step).Some? && Ordered(Child(v, step).value, leaves, a + [step])
    ensures Ordered(v, leaves, a)
    ensures forall i :: 0 <= i < |leaves| ==> |leaves[i].address| > |a| && leaves[i].address[|a|] == step
  {
    forall i | 0 <= i < |leaves|
      ensures a <= leaves[i].address && |leaves[i].address| > |a| && leaves[i].address[|a|] == step
      ensures leaves[i].address[|a|..][1..] == leaves[i].address[|a| + 1..]
    {
      assert a + [step] <= leaves[i].address;
      assert (a + [step])[|a|] == step;
    }
  }

  lemma ConcatOrdered(v: Value, x: seq<Leaf>, y: seq<Leaf>, a: Address)
    requires Ordered(v, x, a) && Ordered(v, y, a)
    requires forall i, j :: 0 <= i < |x| && 0 <= j < |y| ==> Before(v, x[i].address[|a|..], y[j].address[|a|..])
    ensures Ordered(v, x + y, a)
  {
    var all := x + y;
    forall i, j | 0 <= i < j < |all|
      ensures Before(v, all[i].address[|a|..], all[j].address[|a|..])
    {
      if i < |x| <= j {
        assert all[i] == x[i] && all[j] == y[j - |x|];
      }
    }
  }

  /** The walk lists the strings of a log in its order. */
  lemma {:induction false} LeavesInOrder(v: Value, a: Address)
    requires WellFormed(v)
    ensures Ordered(v, Leaves(v, a), a)
    decreases v, 1, 0
  {
    match v
    case Object(members) =>
      MembersInOrder(v, 0, a);
      assert members[0..] == members;
    case Array(elems) =>
      ElementsInOrder(v, 0, a);
      assert elems[0..] == elems;
    case _ =>
  }

  /** The first step leads to a member at position k or later. */
  ghost predicate FromMember(members: seq<Member>, k: nat, leaf: Leaf, a: Address) {
    |leaf.address| > |a| && exists q :: k <= q < |members| && leaf.address[|a|] == Field(members[q].key)
  }

  lemma {:induction false} MembersInOrder(v: Value, k: nat, a: Address)
    requires v.Object? && WellFormed(v) && k <= |v.members|
    ensures var leaves := MemberLeaves(v.members[k..], a);
            Ordered(v, leaves, a) && forall i :: 0 <= i < |leaves| ==> FromMember(v.members, k, leaves[i], a)
    decreases v, 0, |v.members| - k
  {
    if k < |v.members| {
      var m, step := v.members[k], Field(v.members[k].key);
      assert m in v.members && v.members[k..][1..] == v.members[k + 1..];
      var own, others := Leaves(m.value, a + [step]), MemberLeaves(v.members[k + 1..], a);
      LeavesInOrder(m.value, a + [step]);
      MembersInOrder(v, k + 1, a);
      LookupMember(v.members, m.key);
      ChildOrdered(v, step, own, a);
      forall i, j | 0 <= i < |own| && 0 <= j < |others|
        ensures Before(v, own[i].address[|a|..], others[j].address[|a|..])
      {
        var q :| k + 1 <= q < |v.members| && others[j].address[|a|] == Field(v.members[q].key);
        assert v.members[k].key != v.members[q].key;
      }
      ConcatOrdered(v, own, others, a);
      LaterMembers(v.members, k, own, others, a);
    }
  }

  lemma LaterMembers(members: seq<Member>, k: nat, own: seq<Leaf>, others: seq<Leaf>, a: Address)
    requires k < |members|
    requires forall i :: 0 <= i < |own| ==> |own[i].address| > |a| && own[i].address[|a|] == Field(members[k].key)
    requires forall i :: 0 <= i < |others| ==> FromMember(members, k + 1, others[i], a)
    ensures forall i :: 0 <= i < |own + others| ==> FromMember(members, k, (own + others)[i], a)
  {
    forall i | 0 <= i < |own + others|
      ensures FromMember(members, k, (own + others)[i], a)
    {
      if i >= |own| {
        assert FromMember(members, k + 1, others[i - |own|], a);
      }
    }
  }

  lemma {:induction false} ElementsInOrder(v: Value, k: nat, a: Address)
    requires v.Array? && WellFormed(v) && k <= |v.elems|
    ensures var leaves := ElementLeaves(v.elems[k..], k, a);
            && Ordered(v, leaves, a)
            && forall i :: 0 <= i < |leaves| ==>
                 |leaves[i].address| > |a| && leaves[i].address[|a|].Index? && leaves[i].address[|a|].i >= k
    decreases v, 0, |v.elems| - k
  {
    if k < |v.elems| {
      var e, step := v.elems[k], Index(k);
      assert e in v.elems && v.elems[k..][1..] == v.elems[k + 1..];
      var own, others := Leaves(e, a + [step]), ElementLeaves(v.elems[k + 1..], k + 1, a);
      LeavesInOrder(e, a + [step]);
      ElementsInOrder(v, k + 1, a);
      ChildOrdered(v, step, own, a);
      ConcatOrdered(v, own, others, a);
    }
  }
}
