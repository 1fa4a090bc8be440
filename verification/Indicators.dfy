/** Extraction of indicators from all strings of a log, and their match against threat intelligence. */
module Indicators {
  import opened Wrappers
  import opened Json
  import opened Collections
  import opened Selections
  import opened LogTree
  import opened ThreatHunt

  // ----- All strings -----

  function TextsOf(leaves: seq<Leaf>): seq<string> {
    if leaves == [] then [] else TextsOf(leaves[..|leaves| - 1]) + [leaves[|leaves| - 1].text]
  }

  lemma {:induction false} TextsOfConcat(x: seq<Leaf>, y: seq<Leaf>)
    ensures TextsOf(x + y) == TextsOf(x) + TextsOf(y)
  {
    if y == [] {
      assert x + y == x;
    } else {
      assert (x + y)[..|x + y| - 1] == x + y[..|y| - 1];
      TextsOfConcat(x, y[..|y| - 1]);
    }
  }

  lemma {:induction false} TextsOfLeaves(leaves: seq<Leaf>, s: string)
    ensures s in TextsOf(leaves) <==> exists leaf :: leaf in leaves && leaf.text == s
  {
    if leaves != [] {
      TextsOfLeaves(leaves[..|leaves| - 1], s);
      assert forall leaf :: leaf in leaves <==> leaf in leaves[..|leaves| - 1] || leaf == leaves[|leaves| - 1];
    }
  }

  /** One text for each leaf, in order. */
  lemma {:induction false} TextsByPosition(leaves: seq<Leaf>)
    ensures |TextsOf(leaves)| == |leaves| && forall i :: 0 <= i < |leaves| ==> TextsOf(leaves)[i] == leaves[i].text
  {
    if leaves != [] {
      TextsByPosition(leaves[..|leaves| - 1]);
    }
  }

  lemma OneLeafText(leaf: Leaf)
    ensures TextsOf([leaf]) == [leaf.text]
  {
    assert [leaf][..0] == [];
  }

  lemma MemberTextsStep(members: seq<Member>, i: nat, a: Address)
    requires i < |members|
    ensures TextsOf(MemberLeaves(members[i..], a)) ==
            TextsOf(Leaves(members[i].value, a + [Field(members[i].key)])) + TextsOf(MemberLeaves(members[i + 1..], a))
  {
    assert members[i..][1..] == members[i + 1..];
    TextsOfConcat(Leaves(members[i].value, a + [Field(members[i].key)]), MemberLeaves(members[i + 1..], a));
  }

  lemma ElementTextsStep(elems: seq<Value>, i: nat, a: Address)
    requires i < |elems|
    ensures TextsOf(ElementLeaves(elems[i..], i, a)) ==
            TextsOf(Leaves(elems[i], a + [Index(i)])) + TextsOf(ElementLeaves(elems[i + 1..], i + 1, a))
  {
    assert elems[i..][1..] == elems[i + 1..];
    TextsOfConcat(Leaves(elems[i], a + [Index(i)]), ElementLeaves(elems[i + 1..], i + 1, a));
  }

  /** The recursive walk of collect_all_strings: appends the strings under a value, in the scan's order. */
  method CollectStrings(v: Value, out0: seq<string>, ghost a: Address) returns (out: seq<string>)
    ensures out == out0 + TextsOf(Leaves(v, a))
    decreases v, 1
  {
    out := out0;
    match v {
      case Object(members) => out := CollectMembers(members, out0, a);
      case Array(elems) => out := CollectElements(elems, out0, a);
      case String(s) =>
        OneLeafText(Leaf(a, s));
        out := out + [s];
      case _ =>
    }
  }

  method CollectMembers(members: seq<Member>, out0: seq<string>, ghost a: Address) returns (out: seq<string>)
    ensures out == out0 + TextsOf(MemberLeaves(members, a))
    decreases members, 0
  {
    out := out0;
    for i := 0 to |members|
      invariant out + TextsOf(MemberLeaves(members[i..], a)) == out0 + TextsOf(MemberLeaves(members, a))
    {
      MemberTextsStep(members, i, a);
      ghost var before := out;
      out := CollectStrings(members[i].value, out, a + [Field(members[i].key)]);
      Reassociate(before, TextsOf(Leaves(members[i].value, a + [Field(members[i].key)])),
                  TextsOf(MemberLeaves(members[i + 1..], a)));
    }
  }

  method CollectElements(elems: seq<Value>, out0: seq<string>, ghost a: Address) returns (out: seq<string>)
    ensures out == out0 + TextsOf(ElementLeaves(elems, 0, a))
    decreases elems, 0
  {
    out := out0;
    for i := 0 to |elems|
      invariant out + TextsOf(ElementLeaves(elems[i..], i, a)) == out0 + TextsOf(ElementLeaves(elems, 0, a))
    {
      ElementTextsStep(elems, i, a);
      ghost var before := out;
      out := CollectStrings(elems[i], out, a + [Index(i)]);
      Reassociate(before, TextsOf(Leaves(elems[i], a + [Index(i)])), TextsOf(ElementLeaves(elems[i + 1..], i + 1, a)));
    }
  }

  // ----- Deduplication -----

  /** The first occurrences, in order. */
  function FirstOccurrences(s: seq<string>): seq<string> {
    if s == [] then []
    else
      var before, last := s[..|s| - 1], s[|s| - 1];
      if last in before then FirstOccurrences(before) else FirstOccurrences(before) + [last]
  }

  lemma {:induction false} FirstOccurrencesExact(s: seq<string>)
    ensures NoDuplicates(FirstOccurrences(s))
    ensures forall x :: x in FirstOccurrences(s) <==> x in s
  {
    if s != [] {
      FirstOccurrencesExact(s[..|s| - 1]);
      assert s == s[..|s| - 1] + [s[|s| - 1]];
    }
  }

  /** found lists values in the order in which each first occurs in all; at says where. */
  ghost predicate InFirstOrder(all: seq<string>, found: seq<string>, at: seq<nat>) {
    && Ascending(at, |all|) && |found| == |at|
    && forall j :: 0 <= j < |at| ==> found[j] == all[at[j]] && found[j] !in all[..at[j]]
  }

  lemma FirstOrderSnoc(all: seq<string>, found: seq<string>, at: seq<nat>, x: string)
    requires InFirstOrder(all, found, at)
    ensures InFirstOrder(all + [x], found, at)
    ensures x !in all ==> InFirstOrder(all + [x], found + [x], at + [|all|])
  {
    var longer := all + [x];
    forall j | 0 <= j < |at|
      ensures longer[at[j]] == all[at[j]] && longer[..at[j]] == all[..at[j]]
    {
    }
    assert longer[..|all|] == all;
  }

  lemma {:induction false} FirstOccurrencesInOrder(s: seq<string>) returns (at: seq<nat>)
    ensures InFirstOrder(s, FirstOccurrences(s), at)
  {
    at := [];
    if s != [] {
      hide InFirstOrder;
      var init, last := s[..|s| - 1], s[|s| - 1];
      assert s == init + [last];
      at := FirstOccurrencesInOrder(init);
      FirstOrderSnoc(init, FirstOccurrences(init), at, last);
      if last !in init {
        at := at + [|init|];
      }
    }
  }

  /** Keeping some of them keeps that order. */
  lemma KeptInFirstOrder(all: seq<string>, found: seq<string>, at: seq<nat>, hits: seq<string>, kept: seq<nat>,
                         of: string -> Option<string>) returns (at': seq<nat>)
    requires InFirstOrder(all, found, at) && Keeps(found, hits, kept, of)
    requires forall x :: of(x).Some? ==> of(x).value == x
    ensures InFirstOrder(all, hits, at')
  {
    at' := seq(|kept|, j requires 0 <= j < |kept| => at[kept[j]]);
    forall j | 0 <= j < |at'|
      ensures hits[j] == all[at'[j]] && hits[j] !in all[..at'[j]]
    {
      assert of(found[kept[j]]) == Some(hits[j]);
    }
  }

  /** values.retain(|value| seen.insert(value.clone())) */
  method RetainFirst(values: seq<string>) returns (kept: seq<string>)
    ensures kept == FirstOccurrences(values)
    ensures NoDuplicates(kept) && forall x :: x in kept <==> x in values
  {
    kept := [];
    var seen: set<string> := {};
    for i := 0 to |values|
      invariant kept == FirstOccurrences(values[..i])
      invariant forall x :: x in seen <==> x in values[..i]
    {
      assert values[..i + 1][..i] == values[..i];
      if values[i] !in seen {
        kept := kept + [values[i]];
        seen := seen + {values[i]};
      }
    }
    assert values[..|values|] == values;
    FirstOccurrencesExact(values);
  }

  // ----- Indicators -----

  datatype Kind = Ip | Domain | Hash | Url

  /** find_iter of a kind's regular expression over a text. */
  type Finder = (Kind, string) -> seq<string>

  function FoundIn(texts: seq<string>, kind: Kind, find: Finder): seq<string> {
    if texts == [] then [] else FoundIn(texts[..|texts| - 1], kind, find) + find(kind, texts[|texts| - 1])
  }

  lemma {:induction false} FoundInExact(texts: seq<string>, kind: Kind, find: Finder, x: string)
    ensures x in FoundIn(texts, kind, find) <==> exists s :: s in texts && x in find(kind, s)
  {
    if texts != [] {
      var init, last := texts[..|texts| - 1], texts[|texts| - 1];
      FoundInExact(init, kind, find, x);
      assert texts == init + [last];
      if s :| s in texts && x in find(kind, s) {
        assert s in init || s == last;
      }
    }
  }

  /** The matches of one kind over all strings, in order of first occurrence. */
  method Extract(texts: seq<string>, kind: Kind, find: Finder) returns (found: seq<string>)
    ensures found == FirstOccurrences(FoundIn(texts, kind, find)) && NoDuplicates(found)
    ensures forall x :: x in found <==> exists s :: s in texts && x in find(kind, s)
  {
    var all := [];
    for i := 0 to |texts|
      invariant all == FoundIn(texts[..i], kind, find)
    {
      assert texts[..i + 1][..i] == texts[..i];
      all := all + find(kind, texts[i]);
    }
    assert texts[..|texts|] == texts;
    found := RetainFirst(all);
    forall x
      ensures x in found <==> exists s :: s in texts && x in find(kind, s)
    {
      FoundInExact(texts, kind, find, x);
    }
  }

  /** A malicious indicator sits in some string of the log. */
  ghost predicate Occurs(v: Value, kind: Kind, find: Finder, x: string) {
    exists a: Address, s: string :: At(v, a) == Some(String(s)) && x in find(kind, s)
  }

  lemma OccursInTexts(v: Value, kind: Kind, find: Finder, x: string)
    requires WellFormed(v)
    ensures Occurs(v, kind, find, x) <==> exists s :: s in TextsOf(Leaves(v, [])) && x in find(kind, s)
  {
    if a: Address, s: string :| At(v, a) == Some(String(s)) && x in find(kind, s) {
      LeavesAreExactlyTheStrings(v, Leaf(a, s));
      TextsOfLeaves(Leaves(v, []), s);
      assert Leaf(a, s) in Leaves(v, []);
    }
    if s :| s in TextsOf(Leaves(v, [])) && x in find(kind, s) {
      TextsOfLeaves(Leaves(v, []), s);
      var leaf :| leaf in Leaves(v, []) && leaf.text == s;
      LeavesAreExactlyTheStrings(v, leaf);
      assert At(v, leaf.address) == Some(String(s));
    }
  }

  function IfIn(known: set<string>): string -> Option<string> {
    (x: string) => if x in known then Some(x) else None
  }

  /** The known indicators of a list, in its order. */
  method KeepKnown(found: seq<string>, known: set<string>) returns (hits: seq<string>, ghost at: seq<nat>)
    requires NoDuplicates(found)
    ensures NoDuplicates(hits) && forall x :: x in hits <==> x in found && x in known
    ensures Keeps(found, hits, at, IfIn(known))
  {
    hide Keeps;
    hits, at := [], [];
    KeepsNothing<string, string>(IfIn(known));
    for i := 0 to |found|
      invariant NoDuplicates(hits) && forall x :: x in hits <==> x in found[..i] && x in known
      invariant Keeps(found[..i], hits, at, IfIn(known))
    {
      assert found[..i + 1] == found[..i] + [found[i]];
      assert found[i] !in found[..i];
      at := KeepsSnoc(found[..i], hits, at, IfIn(known), found[i]);
      if found[i] in known {
        hits := hits + [found[i]];
      }
    }
    assert found[..|found|] == found;
  }

  function MatchesByLeaf(leaves: seq<Leaf>, kind: Kind, find: Finder): seq<seq<string>> {
    seq(|leaves|, i requires 0 <= i < |leaves| => find(kind, leaves[i].text))
  }

  /** All matches of a kind: string by string in the order of the walk, and within a string as found. */
  function AllFound(v: Value, kind: Kind, find: Finder): seq<string> {
    Flatten(MatchesByLeaf(Leaves(v, []), kind, find))
  }

  /** The hits are listed in the order in which they first occur in the log. */
  ghost predicate AsFirstFound(v: Value, kind: Kind, find: Finder, hits: seq<string>) {
    exists at: seq<nat> :: InFirstOrder(AllFound(v, kind, find), hits, at)
  }

  lemma MatchesSnoc(leaves: seq<Leaf>, leaf: Leaf, kind: Kind, find: Finder)
    ensures MatchesByLeaf(leaves + [leaf], kind, find) == MatchesByLeaf(leaves, kind, find) + [find(kind, leaf.text)]
    ensures MatchesByLeaf([], kind, find) == []
  {
  }

  lemma FoundInSnoc(texts: seq<string>, text: string, kind: Kind, find: Finder)
    ensures FoundIn(texts + [text], kind, find) == FoundIn(texts, kind, find) + find(kind, text)
  {
    assert (texts + [text])[..|texts|] == texts;
  }

  lemma {:induction false} FoundInLeaves(leaves: seq<Leaf>, kind: Kind, find: Finder)
    ensures FoundIn(TextsOf(leaves), kind, find) == Flatten(MatchesByLeaf(leaves, kind, find))
  {
    hide MatchesByLeaf;
    if leaves == [] {
      MatchesSnoc([], Leaf([], ""), kind, find);
      assert TextsOf(leaves) == [];
    } else {
      var init, last := leaves[..|leaves| - 1], leaves[|leaves| - 1];
      assert leaves == init + [last];
      FoundInLeaves(init, kind, find);
      FoundInSnoc(TextsOf(init), last.text, kind, find);
      MatchesSnoc(init, last, kind, find);
      FlattenSnoc(MatchesByLeaf(init, kind, find), find(kind, last.text));
    }
  }

  lemma KnownAsFirstFound(v: Value, kind: Kind, find: Finder, hits: seq<string>, kept: seq<nat>, known: set<string>)
    requires Keeps(FirstOccurrences(FoundIn(TextsOf(Leaves(v, [])), kind, find)), hits, kept, IfIn(known))
    ensures AsFirstFound(v, kind, find, hits)
  {
    hide Keeps, InFirstOrder, FoundIn, Leaves;
    var all := FoundIn(TextsOf(Leaves(v, [])), kind, find);
    FoundInLeaves(Leaves(v, []), kind, find);
    var first := FirstOccurrencesInOrder(all);
    var at := KeptInFirstOrder(all, FirstOccurrences(all), first, hits, kept, IfIn(known));
    assert InFirstOrder(AllFound(v, kind, find), hits, at);
  }

  /**
   enrich_ioc_matches for one kind: a known malicious indicator is reported exactly once when it
   occurs in some string of the log, however often it occurs, and not otherwise.
   */
  method MatchKind(v: Value, kind: Kind, find: Finder, known: set<string>) returns (hits: seq<string>)
    requires WellFormed(v)
    ensures AsFirstFound(v, kind, find, hits)
    ensures NoDuplicates(hits) && forall x :: x in hits <==> x in known && Occurs(v, kind, find, x)
  {
    hide AsFirstFound, Keeps, Leaves, FoundIn, FirstOccurrences, WellFormed;
    var texts := CollectStrings(v, [], []);
    assert texts == TextsOf(Leaves(v, []));
    var found := Extract(texts, kind, find);
    ghost var kept;
    hits, kept := KeepKnown(found, known);
    KnownAsFirstFound(v, kind, find, hits, kept, known);
    forall x
      ensures x in hits <==> x in known && Occurs(v, kind, find, x)
    {
      OccursInTexts(v, kind, find, x);
    }
  }

  datatype Matches = Matches(ips: seq<string>, domains: seq<string>, hashes: seq<string>, urls: seq<string>)

  /** enrich_ioc_matches: None exactly when no known indicator occurs. */
  method EnrichIocMatches(v: Value, find: Finder, known: Kind -> set<string>) returns (result: Option<Matches>)
    requires WellFormed(v)
    ensures result.None? <==> forall kind: Kind, x: string :: !(x in known(kind) && Occurs(v, kind, find, x))
    ensures result.Some? ==>
              var m := result.value;
              && NoDuplicates(m.ips) && (forall x :: x in m.ips <==> x in known(Ip) && Occurs(v, Ip, find, x))
              && NoDuplicates(m.domains) && (forall x :: x in m.domains <==> x in known(Domain) && Occurs(v, Domain, find, x))
              && NoDuplicates(m.hashes) && (forall x :: x in m.hashes <==> x in known(Hash) && Occurs(v, Hash, find, x))
              && NoDuplicates(m.urls) && (forall x :: x in m.urls <==> x in known(Url) && Occurs(v, Url, find, x))
              && AsFirstFound(v, Ip, find, m.ips) && AsFirstFound(v, Domain, find, m.domains)
              && AsFirstFound(v, Hash, find, m.hashes) && AsFirstFound(v, Url, find, m.urls)
  {
    hide AsFirstFound;
    var ips := MatchKind(v, Ip, find, known(Ip));
    var domains := MatchKind(v, Domain, find, known(Domain));
    var hashes := MatchKind(v, Hash, find, known(Hash));
    var urls := MatchKind(v, Url, find, known(Url));
    if ips == [] && domains == [] && hashes == [] && urls == [] {
      result := None;
      forall kind: Kind, x: string
        ensures !(x in known(kind) && Occurs(v, kind, find, x))
      {
        match kind
        case Ip => assert x !in ips;
        case Domain => assert x !in domains;
        case Hash => assert x !in hashes;
        case Url => assert x !in urls;
      }
    } else {
      result := Some(Matches(ips, domains, hashes, urls));
      if ips != [] {
        assert ips[0] in ips;
      } else if domains != [] {
        assert domains[0] in domains;
      } else if hashes != [] {
        assert hashes[0] in hashes;
      } else {
        assert urls[0] in urls;
      }
    }
  }
}
