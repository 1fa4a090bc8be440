/**
 The pattern scan over a log's JSON tree, with its printed field paths.  A regular expression is a
 predicate on strings, named by its pattern.
 */
module ThreatHunt {
  import opened Wrappers
  import opened Json
  import opened Collections
  import opened Selections
  import opened LogTree
  import opened FieldPaths

  // ----- The pattern scan -----

  /** A compiled pattern set: the names in iteration order, and which pattern matches which text. */
  type Matcher = (string, string) -> bool

  datatype Hit = Hit(pattern: string, fieldPath: string, sample: string)

  /** s.chars().take(100) */
  function Sample(s: string): (sample: string)
    ensures sample <= s && |sample| == if |s| < 100 then |s| else 100
  {
    if |s| <= 100 then s else s[..100]
  }

  /** The hits of one leaf, in pattern order. */
  function LeafHits(path: string, text: string, patterns: seq<string>, isMatch: Matcher): seq<Hit> {
    if patterns == [] then []
    else
      LeafHits(path, text, patterns[..|patterns| - 1], isMatch)
      + if isMatch(patterns[|patterns| - 1], text) then [Hit(patterns[|patterns| - 1], path, Sample(text))] else []
  }

  /** The hits of a list of leaves, in order. */
  function HitsOf(leaves: seq<Leaf>, patterns: seq<string>, isMatch: Matcher): seq<Hit> {
    if leaves == [] then []
    else
      HitsOf(leaves[..|leaves| - 1], patterns, isMatch)
      + LeafHits(Render(leaves[|leaves| - 1].address), leaves[|leaves| - 1].text, patterns, isMatch)
  }

  lemma {:induction false} HitsOfConcat(x: seq<Leaf>, y: seq<Leaf>, patterns: seq<string>, isMatch: Matcher)
    ensures HitsOf(x + y, patterns, isMatch) == HitsOf(x, patterns, isMatch) + HitsOf(y, patterns, isMatch)
  {
    if y == [] {
      assert x + y == x;
    } else {
      var init, last := y[..|y| - 1], y[|y| - 1];
      assert (x + y)[..|x + y| - 1] == x + init && (x + y)[|x + y| - 1] == last;
      HitsOfConcat(x, init, patterns, isMatch);
      Reassociate(HitsOf(x, patterns, isMatch), HitsOf(init, patterns, isMatch),
                  LeafHits(Render(last.address), last.text, patterns, isMatch));
    }
  }

  function HitIn(path: string, text: string, isMatch: Matcher): string -> Option<Hit> {
    (pattern: string) => if isMatch(pattern, text) then Some(Hit(pattern, path, Sample(text))) else None
  }

  /** A leaf's hits follow the order of the patterns. */
  lemma {:induction false} LeafHitsInOrder(path: string, text: string, patterns: seq<string>, isMatch: Matcher)
    returns (at: seq<nat>)
    ensures Keeps(patterns, LeafHits(path, text, patterns, isMatch), at, HitIn(path, text, isMatch))
  {
    hide Keeps;
    if patterns == [] {
      at := [];
      KeepsNothing<string, Hit>(HitIn(path, text, isMatch));
    } else {
      var init, last := patterns[..|patterns| - 1], patterns[|patterns| - 1];
      at := LeafHitsInOrder(path, text, init, isMatch);
      assert patterns == init + [last];
      var own, before := HitIn(path, text, isMatch)(last), LeafHits(path, text, init, isMatch);
      assert LeafHits(path, text, patterns, isMatch) == if own.Some? then before + [own.value] else before;
      at := KeepsSnoc(init, before, at, HitIn(path, text, isMatch), last);
    }
  }

  function HitsByLeaf(leaves: seq<Leaf>, patterns: seq<string>, isMatch: Matcher): seq<seq<Hit>> {
    seq(|leaves|, i requires 0 <= i < |leaves| =>
      LeafHits(Render(leaves[i].address), leaves[i].text, patterns, isMatch))
  }

  lemma HitsByLeafSnoc(leaves: seq<Leaf>, leaf: Leaf, patterns: seq<string>, isMatch: Matcher)
    ensures HitsByLeaf(leaves + [leaf], patterns, isMatch) ==
            HitsByLeaf(leaves, patterns, isMatch) + [LeafHits(Render(leaf.address), leaf.text, patterns, isMatch)]
    ensures HitsByLeaf([], patterns, isMatch) == []
  {
  }

  /** The hits follow the order of the leaves, which is that of the log. */
  lemma {:induction false} HitsInOrder(leaves: seq<Leaf>, patterns: seq<string>, isMatch: Matcher)
    ensures HitsOf(leaves, patterns, isMatch) == Flatten(HitsByLeaf(leaves, patterns, isMatch))
  {
    hide HitsByLeaf, LeafHits, Render;
    if leaves == [] {
      HitsByLeafSnoc([], Leaf([], ""), patterns, isMatch);
    } else {
      var init, last := leaves[..|leaves| - 1], leaves[|leaves| - 1];
      assert leaves == init + [last];
      HitsInOrder(init, patterns, isMatch);
      HitsByLeafSnoc(init, last, patterns, isMatch);
      FlattenSnoc(HitsByLeaf(init, patterns, isMatch), LeafHits(Render(last.address), last.text, patterns, isMatch));
    }
  }

  ghost predicate IsHitOf(h: Hit, leaf: Leaf, patterns: seq<string>, isMatch: Matcher) {
    h.pattern in patterns && isMatch(h.pattern, leaf.text) && h == Hit(h.pattern, Render(leaf.address), Sample(leaf.text))
  }

  lemma {:induction false} LeafHitsExact(leaf: Leaf, patterns: seq<string>, isMatch: Matcher, h: Hit)
    ensures h in LeafHits(Render(leaf.address), leaf.text, patterns, isMatch) <==> IsHitOf(h, leaf, patterns, isMatch)
  {
    if patterns != [] {
      LeafHitsExact(leaf, patterns[..|patterns| - 1], isMatch, h);
      assert patterns == patterns[..|patterns| - 1] + [patterns[|patterns| - 1]];
    }
  }

  lemma {:induction false} HitsExact(leaves: seq<Leaf>, patterns: seq<string>, isMatch: Matcher, h: Hit)
    ensures h in HitsOf(leaves, patterns, isMatch) <==> exists leaf :: leaf in leaves && IsHitOf(h, leaf, patterns, isMatch)
  {
    if leaves != [] {
      var init, last := leaves[..|leaves| - 1], leaves[|leaves| - 1];
      HitsExact(init, patterns, isMatch, h);
      LeafHitsExact(last, patterns, isMatch, h);
      assert forall leaf :: leaf in leaves <==> leaf in init || leaf == last;
    }
  }

  /** No two hits report the same pattern at the same path. */
  ghost predicate DistinctHits(hits: seq<Hit>) {
    forall i, j :: 0 <= i < j < |hits| ==> hits[i].pattern != hits[j].pattern || hits[i].fieldPath != hits[j].fieldPath
  }

  lemma ConcatDistinctHits(x: seq<Hit>, y: seq<Hit>)
    requires DistinctHits(x) && DistinctHits(y)
    requires forall p, q :: p in x && q in y ==> p.pattern != q.pattern || p.fieldPath != q.fieldPath
    ensures DistinctHits(x + y)
  {
    forall i, j | 0 <= i < j < |x + y|
      ensures (x + y)[i].pattern != (x + y)[j].pattern || (x + y)[i].fieldPath != (x + y)[j].fieldPath
    {
      if i < |x| <= j {
        assert x[i] in x && y[j - |x|] in y;
      }
    }
  }

  lemma {:induction false} LeafHitsDistinct(leaf: Leaf, patterns: seq<string>, isMatch: Matcher)
    requires NoDuplicates(patterns)
    ensures DistinctHits(LeafHits(Render(leaf.address), leaf.text, patterns, isMatch))
  {
    if patterns != [] {
      var init, last := patterns[..|patterns| - 1], patterns[|patterns| - 1];
      LeafHitsDistinct(leaf, init, isMatch);
      var x := LeafHits(Render(leaf.address), leaf.text, init, isMatch);
      forall h | h in x
        ensures h.pattern != last
      {
        LeafHitsExact(leaf, init, isMatch, h);
      }
      ConcatDistinctHits(x, if isMatch(last, leaf.text) then [Hit(last, Render(leaf.address), Sample(leaf.text))] else []);
    }
  }

  ghost predicate DistinctPaths(leaves: seq<Leaf>) {
    forall i, j :: 0 <= i < j < |leaves| ==> Render(leaves[i].address) != Render(leaves[j].address)
  }

  lemma {:induction false} HitsDistinct(leaves: seq<Leaf>, patterns: seq<string>, isMatch: Matcher)
    requires NoDuplicates(patterns) && DistinctPaths(leaves)
    ensures DistinctHits(HitsOf(leaves, patterns, isMatch))
  {
    if leaves != [] {
      var init, last := leaves[..|leaves| - 1], leaves[|leaves| - 1];
      HitsDistinct(init, patterns, isMatch);
      LeafHitsDistinct(last, patterns, isMatch);
      var x, y := HitsOf(init, patterns, isMatch), LeafHits(Render(last.address), last.text, patterns, isMatch);
      forall p, q | p in x && q in y
        ensures p.fieldPath != q.fieldPath
      {
        HitsExact(init, patterns, isMatch, p);
        LeafHitsExact(last, patterns, isMatch, q);
        var leaf :| leaf in init && IsHitOf(p, leaf, patterns, isMatch);
        var i :| 0 <= i < |init| && init[i] == leaf;
        assert leaves[i] == leaf;
      }
      ConcatDistinctHits(x, y);
    }
  }

  /** Every object key in the tree is path-safe. */
  ghost predicate SafeKeys(v: Value) {
    match v
    case Object(members) => forall m :: m in members ==> PathSafe(m.key) && SafeKeys(m.value)
    case Array(elems) => forall e :: e in elems ==> SafeKeys(e)
    case _ => true
  }

  lemma {:induction false} LookupIsMember(members: seq<Member>, key: string)
    ensures Lookup(members, key).Some? ==> exists m :: m in members && m.key == key && m.value == Lookup(members, key).value
  {
    if members != [] && members[0].key != key {
      LookupIsMember(members[1..], key);
      if Lookup(members, key).Some? {
        var m :| m in members[1..] && m.key == key && m.value == Lookup(members, key).value;
        assert m in members;
      }
    } else if members != [] {
      assert members[0] in members;
    }
  }

  lemma {:induction false} SafeTreeAddresses(v: Value, a: Address)
    requires SafeKeys(v) && At(v, a).Some?
    ensures SafeAddress(a)
    decreases |a|
  {
    if a != [] {
      if a[0].Field? {
        LookupIsMember(v.members, a[0].key);
      }
      SafeTreeAddresses(Child(v, a[0]).value, a[1..]);
      forall i | 0 <= i < |a|
        ensures SafeStep(a[i])
      {
        if i > 0 {
          assert a[1..][i - 1] == a[i];
        }
      }
    }
  }

  lemma SafeTreePaths(v: Value)
    requires WellFormed(v) && SafeKeys(v)
    ensures DistinctPaths(Leaves(v, []))
  {
    var leaves := Leaves(v, []);
    LeavesDistinct(v, []);
    forall i, j | 0 <= i < j < |leaves|
      ensures Render(leaves[i].address) != Render(leaves[j].address)
    {
      assert leaves[i] in leaves && leaves[j] in leaves;
      LeavesAreExactlyTheStrings(v, leaves[i]);
      LeavesAreExactlyTheStrings(v, leaves[j]);
      SafeTreeAddresses(v, leaves[i].address);
      SafeTreeAddresses(v, leaves[j].address);
      if Render(leaves[i].address) == Render(leaves[j].address) {
        RenderInjective(leaves[i].address, leaves[j].address);
      }
    }
  }

  /**
   The scan is complete: its hits are exactly the pairs of a string leaf and a pattern that matches
   it, each under the leaf's printed path; and when all keys are path-safe no two hits share both
   pattern and path, so each pair is reported once and each report names one leaf.
   */
  lemma ScanIsComplete(v: Value, patterns: seq<string>, isMatch: Matcher, h: Hit)
    requires WellFormed(v) && NoDuplicates(patterns)
    ensures h in HitsOf(Leaves(v, []), patterns, isMatch) <==>
            exists leaf: Leaf :: At(v, leaf.address) == Some(String(leaf.text)) && IsHitOf(h, leaf, patterns, isMatch)
    ensures SafeKeys(v) ==> DistinctHits(HitsOf(Leaves(v, []), patterns, isMatch))
  {
    var leaves := Leaves(v, []);
    HitsExact(leaves, patterns, isMatch, h);
    if h in HitsOf(leaves, patterns, isMatch) {
      var leaf :| leaf in leaves && IsHitOf(h, leaf, patterns, isMatch);
      LeavesAreExactlyTheStrings(v, leaf);
    }
    if leaf: Leaf :| At(v, leaf.address) == Some(String(leaf.text)) && IsHitOf(h, leaf, patterns, isMatch) {
      LeavesAreExactlyTheStrings(v, leaf);
    }
    if SafeKeys(v) {
      SafeTreePaths(v);
      HitsDistinct(leaves, patterns, isMatch);
    }
  }

  /** The pairs behind the hits of one leaf, position by position. */
  ghost function LeafPairs(leaf: Leaf, patterns: seq<string>, isMatch: Matcher): seq<(Leaf, string)> {
    if patterns == [] then []
    else
      var last := patterns[|patterns| - 1];
      LeafPairs(leaf, patterns[..|patterns| - 1], isMatch) + if isMatch(last, leaf.text) then [(leaf, last)] else []
  }

  ghost function PairsOf(leaves: seq<Leaf>, patterns: seq<string>, isMatch: Matcher): seq<(Leaf, string)> {
    if leaves == [] then []
    else PairsOf(leaves[..|leaves| - 1], patterns, isMatch) + LeafPairs(leaves[|leaves| - 1], patterns, isMatch)
  }

  function HitFor(pair: (Leaf, string)): Hit {
    Hit(pair.1, Render(pair.0.address), Sample(pair.0.text))
  }

  /** The hits are those of the pairs, one for one. */
  ghost predicate Reports(hits: seq<Hit>, pairs: seq<(Leaf, string)>) {
    |hits| == |pairs| && forall i :: 0 <= i < |hits| ==> hits[i] == HitFor(pairs[i])
  }

  lemma {:induction false} LeafPairsExact(leaf: Leaf, patterns: seq<string>, isMatch: Matcher)
    requires NoDuplicates(patterns)
    ensures Reports(LeafHits(Render(leaf.address), leaf.text, patterns, isMatch), LeafPairs(leaf, patterns, isMatch))
    ensures forall x: Leaf, p: string :: (x, p) in LeafPairs(leaf, patterns, isMatch) <==>
              x == leaf && p in patterns && isMatch(p, leaf.text)
    ensures NoDuplicates(LeafPairs(leaf, patterns, isMatch))
  {
    hide Render, Sample;
    if patterns != [] {
      var init, last := patterns[..|patterns| - 1], patterns[|patterns| - 1];
      LeafPairsExact(leaf, init, isMatch);
      assert patterns == init + [last];
      assert last !in init;
      var before := LeafPairs(leaf, init, isMatch);
      assert (leaf, last) !in before;
    }
  }

  lemma {:induction false} PairsExact(leaves: seq<Leaf>, patterns: seq<string>, isMatch: Matcher)
    requires NoDuplicates(patterns) && DistinctAddresses(leaves)
    ensures Reports(HitsOf(leaves, patterns, isMatch), PairsOf(leaves, patterns, isMatch))
    ensures forall x: Leaf, p: string :: (x, p) in PairsOf(leaves, patterns, isMatch) <==>
              x in leaves && p in patterns && isMatch(p, x.text)
    ensures NoDuplicates(PairsOf(leaves, patterns, isMatch))
  {
    hide Render, Sample, LeafHits, LeafPairs;
    if leaves != [] {
      var init, last := leaves[..|leaves| - 1], leaves[|leaves| - 1];
      PairsExact(init, patterns, isMatch);
      LeafPairsExact(last, patterns, isMatch);
      assert leaves == init + [last];
      assert last !in init;
      var before, own := PairsOf(init, patterns, isMatch), LeafPairs(last, patterns, isMatch);
      forall pair | pair in before
        ensures pair !in own
      {
        var (x, p) := pair;
        assert x in init;
      }
      NoDuplicatesConcat(before, own);
    }
  }

  /**
   One to one, whatever the keys: the hits correspond position by position to the distinct pairs of a
   string leaf and a pattern that matches it, so their number is the number of such pairs.
   */
  lemma ScanIsOneToOne(v: Value, patterns: seq<string>, isMatch: Matcher) returns (pairs: seq<(Leaf, string)>)
    requires WellFormed(v) && NoDuplicates(patterns)
    ensures Reports(HitsOf(Leaves(v, []), patterns, isMatch), pairs) && NoDuplicates(pairs)
    ensures forall leaf: Leaf, p: string :: (leaf, p) in pairs <==>
              At(v, leaf.address) == Some(String(leaf.text)) && p in patterns && isMatch(p, leaf.text)
  {
    hide HitsOf, PairsOf, Leaves, WellFormed, NoDuplicates;
    var leaves := Leaves(v, []);
    pairs := PairsOf(leaves, patterns, isMatch);
    LeavesDistinct(v, []);
    PairsExact(leaves, patterns, isMatch);
    forall leaf: Leaf, p: string
      ensures (leaf, p) in pairs <==>
              At(v, leaf.address) == Some(String(leaf.text)) && p in patterns && isMatch(p, leaf.text)
    {
      LeavesAreExactlyTheStrings(v, leaf);
    }
  }

  /** Leaves that print alike are told apart by no report: a pattern that matches both is reported twice at one path. */
  lemma CollidingHits(log: Value, x: Leaf, y: Leaf, patterns: seq<string>, isMatch: Matcher, pattern: string)
    requires Collide(log, x, y) && NoDuplicates(patterns) && pattern in patterns
    requires isMatch(pattern, x.text) && isMatch(pattern, y.text)
    ensures !DistinctHits(HitsOf(Leaves(log, []), patterns, isMatch))
  {
    hide HitsOf, Leaves, WellFormed, Render, At;
    var pairs := ScanIsOneToOne(log, patterns, isMatch);
    var hits := HitsOf(Leaves(log, []), patterns, isMatch);
    assert (x, pattern) in pairs && (y, pattern) in pairs;
    var i :| 0 <= i < |pairs| && pairs[i] == (x, pattern);
    var j :| 0 <= j < |pairs| && pairs[j] == (y, pattern);
    assert hits[i] == HitFor(pairs[i]) && hits[j] == HitFor(pairs[j]);
  }

  // ----- The scan as code -----

  /** The scan's path for an object member. */
  lemma MemberPath(a: Address, key: string)
    ensures (if Render(a) == "" then key else Render(a) + "." + key) == Render(a + [Field(key)])
  {
    RenderSnoc(a, Field(key));
  }

  lemma ElementPath(a: Address, i: nat)
    ensures Render(a) + "[" + Decimal(i) + "]" == Render(a + [Index(i)])
  {
    hide RenderUpTo;
    RenderSnoc(a, Index(i));
    Reassociate(Render(a), "[", Decimal(i));
    Reassociate(Render(a), "[" + Decimal(i), "]");
  }

  lemma MemberHitsStep(members: seq<Member>, i: nat, a: Address, patterns: seq<string>, isMatch: Matcher)
    requires i < |members|
    ensures HitsOf(MemberLeaves(members[i..], a), patterns, isMatch) ==
            HitsOf(Leaves(members[i].value, a + [Field(members[i].key)]), patterns, isMatch)
            + HitsOf(MemberLeaves(members[i + 1..], a), patterns, isMatch)
  {
    assert members[i..][1..] == members[i + 1..];
    HitsOfConcat(Leaves(members[i].value, a + [Field(members[i].key)]), MemberLeaves(members[i + 1..], a), patterns, isMatch);
  }

  lemma ElementHitsStep(elems: seq<Value>, i: nat, a: Address, patterns: seq<string>, isMatch: Matcher)
    requires i < |elems|
    ensures HitsOf(ElementLeaves(elems[i..], i, a), patterns, isMatch) ==
            HitsOf(Leaves(elems[i], a + [Index(i)]), patterns, isMatch)
            + HitsOf(ElementLeaves(elems[i + 1..], i + 1, a), patterns, isMatch)
  {
    assert elems[i..][1..] == elems[i + 1..];
    HitsOfConcat(Leaves(elems[i], a + [Index(i)]), ElementLeaves(elems[i + 1..], i + 1, a), patterns, isMatch);
  }

  lemma OneLeafHits(leaf: Leaf, patterns: seq<string>, isMatch: Matcher)
    ensures HitsOf([leaf], patterns, isMatch) == LeafHits(Render(leaf.address), leaf.text, patterns, isMatch)
  {
    assert [leaf][..0] == [];
    assert HitsOf([], patterns, isMatch) == [];
  }

  /** The scan of one string. */
  method ScanText(s: string, path: string, hits0: seq<Hit>, patterns: seq<string>, isMatch: Matcher) returns (hits: seq<Hit>)
    ensures hits == hits0 + LeafHits(path, s, patterns, isMatch)
  {
    hits := hits0;
    for i := 0 to |patterns|
      invariant hits == hits0 + LeafHits(path, s, patterns[..i], isMatch)
    {
      assert patterns[..i + 1][..i] == patterns[..i];
      if isMatch(patterns[i], s) {
        hits := hits + [Hit(patterns[i], path, Sample(s))];
      }
    }
    assert patterns[..|patterns|] == patterns;
  }

  /** scan_patterns: appends the hits under a value to the vector. */
  method ScanPatterns(v: Value, path: string, hits0: seq<Hit>, patterns: seq<string>, isMatch: Matcher, ghost a: Address)
    returns (hits: seq<Hit>)
    requires path == Render(a)
    ensures hits == hits0 + HitsOf(Leaves(v, a), patterns, isMatch)
    decreases v, 1
  {
    match v {
      case Object(members) =>
        hits := ScanMembers(members, path, hits0, patterns, isMatch, a);
      case Array(elems) =>
        hits := ScanElements(elems, path, hits0, patterns, isMatch, a);
      case String(s) =>
        OneLeafHits(Leaf(a, s), patterns, isMatch);
        hits := ScanText(s, path, hits0, patterns, isMatch);
      case _ =>
        hits := hits0;
    }
  }

  /** The object branch of the scan. */
  method ScanMembers(members: seq<Member>, path: string, hits0: seq<Hit>, patterns: seq<string>, isMatch: Matcher,
                     ghost a: Address) returns (hits: seq<Hit>)
    requires path == Render(a)
    ensures hits == hits0 + HitsOf(MemberLeaves(members, a), patterns, isMatch)
    decreases members, 0
  {
    hits := hits0;
    for i := 0 to |members|
      invariant hits + HitsOf(MemberLeaves(members[i..], a), patterns, isMatch) ==
                hits0 + HitsOf(MemberLeaves(members, a), patterns, isMatch)
    {
      var key := members[i].key;
      MemberPath(a, key);
      MemberHitsStep(members, i, a, patterns, isMatch);
      ghost var before := hits;
      hits := ScanPatterns(members[i].value, if path == "" then key else path + "." + key, hits, patterns, isMatch,
                           a + [Field(key)]);
      Reassociate(before, HitsOf(Leaves(members[i].value, a + [Field(key)]), patterns, isMatch),
                  HitsOf(MemberLeaves(members[i + 1..], a), patterns, isMatch));
    }
  }

  /** The array branch of the scan. */
  method ScanElements(elems: seq<Value>, path: string, hits0: seq<Hit>, patterns: seq<string>, isMatch: Matcher,
                      ghost a: Address) returns (hits: seq<Hit>)
    requires path == Render(a)
    ensures hits == hits0 + HitsOf(ElementLeaves(elems, 0, a), patterns, isMatch)
    decreases elems, 0
  {
    hits := hits0;
    for i := 0 to |elems|
      invariant hits + HitsOf(ElementLeaves(elems[i..], i, a), patterns, isMatch) ==
                hits0 + HitsOf(ElementLeaves(elems, 0, a), patterns, isMatch)
    {
      ElementPath(a, i);
      ElementHitsStep(elems, i, a, patterns, isMatch);
      ghost var before := hits;
      hits := ScanPatterns(elems[i], path + "[" + Decimal(i) + "]", hits, patterns, isMatch, a + [Index(i)]);
      Reassociate(before, HitsOf(Leaves(elems[i], a + [Index(i)]), patterns, isMatch),
                  HitsOf(ElementLeaves(elems[i + 1..], i + 1, a), patterns, isMatch));
    }
  }
}
