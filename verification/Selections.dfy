/**
 Results picked out of a list, by position: which elements contribute, and that their order is kept.
 What a loop over a list does is stated with these predicates, without the recursion that specifies it.
 */
module Selections {
  import opened Wrappers
  import opened Collections

  /** Positions of a list, from left to right. */
  ghost predicate Ascending(at: seq<nat>, length: nat) {
    && (forall i :: 0 <= i < |at| ==> at[i] < length)
    && (forall i, j :: 0 <= i < j < |at| ==> at[i] < at[j])
  }

  /** kept holds what `of` makes of each element, in order, and nothing for those it makes None of. */
  ghost predicate Keeps<T(!new), U(!new)>(s: seq<T>, kept: seq<U>, at: seq<nat>, of: T -> Option<U>) {
    && Ascending(at, |s|) && |kept| == |at|
    && (forall j :: 0 <= j < |at| ==> of(s[at[j]]) == Some(kept[j]))
    && (forall i: nat :: i < |s| && of(s[i]).Some? ==> i in at)
  }

  lemma KeepsNothing<T(!new), U(!new)>(of: T -> Option<U>)
    ensures Keeps([], [], [], of)
  {
  }

  lemma AscendingSnoc(at: seq<nat>, length: nat)
    requires Ascending(at, length)
    ensures Ascending(at, length + 1) && Ascending(at + [length], length + 1)
  {
  }

  lemma KeepsSnoc<T(!new), U(!new)>(s: seq<T>, kept: seq<U>, at: seq<nat>, of: T -> Option<U>, x: T) returns (at': seq<nat>)
    requires Keeps(s, kept, at, of)
    ensures Keeps(s + [x], if of(x).Some? then kept + [of(x).value] else kept, at', of)
  {
    AscendingSnoc(at, |s|);
    at' := if of(x).Some? then at + [|s|] else at;
    forall j | 0 <= j < |at|
      ensures at[j] < |s| && (s + [x])[at[j]] == s[at[j]]
    {
    }
    hide Ascending;
    forall i: nat | i < |s + [x]| && of((s + [x])[i]).Some?
      ensures i in at'
    {
      if i < |s| {
        assert of(s[i]).Some?;
      } else {
        assert at'[|at|] == |s|;
      }
    }
  }

  // ----- Loops that stop -----

  /** A loop over turns gets to turn i: no turn up to it closed the loop's head, and none before it ended the loop. */
  ghost predicate Reached<T>(script: seq<T>, i: nat, open: T -> bool, goesOn: T -> bool)
    requires i < |script|
  {
    (forall k :: 0 <= k <= i ==> open(script[k])) && (forall k :: 0 <= k < i ==> goesOn(script[k]))
  }

  ghost predicate Contributes<T, U>(script: seq<T>, at: seq<nat>, taken: seq<U>, of: T -> Option<U>) {
    |taken| == |at| && forall j :: 0 <= j < |at| ==> at[j] < |script| && of(script[at[j]]) == Some(taken[j])
  }

  /** taken holds what the turns that the loop gets to contribute, in order. */
  ghost predicate Takes<T(!new), U(!new)>(script: seq<T>, taken: seq<U>, at: seq<nat>, of: T -> Option<U>, open: T -> bool,
                                          goesOn: T -> bool)
  {
    && Ascending(at, |script|) && Contributes(script, at, taken, of)
    && (forall i: nat :: i < |script| ==> (i in at <==> Reached(script, i, open, goesOn) && of(script[i]).Some?))
  }

  lemma TakesNothing<T(!new), U(!new)>(script: seq<T>, of: T -> Option<U>, open: T -> bool, goesOn: T -> bool)
    requires script == [] || !open(script[0])
    ensures Takes(script, [], [], of, open, goesOn)
  {
  }

  function Shift(at: seq<nat>): (shifted: seq<nat>)
    ensures |shifted| == |at| && forall i :: 0 <= i < |at| ==> shifted[i] == at[i] + 1
  {
    seq(|at|, i requires 0 <= i < |at| => at[i] + 1)
  }

  lemma ShiftMembers(at: seq<nat>, i: nat)
    ensures i in Shift(at) <==> i > 0 && i - 1 in at
  {
    if i > 0 && i - 1 in at {
      var j :| 0 <= j < |at| && at[j] == i - 1;
      assert Shift(at)[j] == i;
    }
    if i in Shift(at) {
      var j :| 0 <= j < |at| && Shift(at)[j] == i;
      assert at[j] == i - 1;
    }
  }

  lemma ShiftAscending(at: seq<nat>, length: nat)
    requires Ascending(at, length)
    ensures Ascending(Shift(at), length + 1) && Ascending([0] + Shift(at), length + 1)
  {
  }

  lemma ShiftContributes<T, U>(script: seq<T>, at: seq<nat>, taken: seq<U>, of: T -> Option<U>)
    requires script != [] && Contributes(script[1..], at, taken, of)
    ensures Contributes(script, Shift(at), taken, of)
    ensures of(script[0]).Some? ==> Contributes(script, [0] + Shift(at), [of(script[0]).value] + taken, of)
  {
  }

  /** One more turn in front: it contributes, and lets the rest of the loop go on or not. */
  lemma TakesCons<T(!new), U(!new)>(script: seq<T>, rest: seq<U>, at: seq<nat>, of: T -> Option<U>, open: T -> bool,
                                    goesOn: T -> bool) returns (at': seq<nat>)
    requires script != [] && open(script[0])
    requires goesOn(script[0]) ==> Takes(script[1..], rest, at, of, open, goesOn)
    requires !goesOn(script[0]) ==> rest == [] && at == []
    ensures Takes(script, (if of(script[0]).Some? then [of(script[0]).value] else []) + rest, at', of, open, goesOn)
  {
    hide Ascending, Reached, Contributes;
    NoPositions(script[1..], of);
    ShiftAscending(at, |script| - 1);
    ShiftContributes(script, at, rest, of);
    assert [] + rest == rest;
    at' := if of(script[0]).Some? then [0] + Shift(at) else Shift(at);
    forall i: nat | i < |script|
      ensures i in at' <==> Reached(script, i, open, goesOn) && of(script[i]).Some?
    {
      ShiftMembers(at, i);
      if i > 0 {
        ReachedNext(script, i, open, goesOn);
        assert script[i] == script[1..][i - 1];
      } else {
        ReachedFirst(script, open, goesOn);
      }
    }
  }

  lemma NoPositions<T, U>(script: seq<T>, of: T -> Option<U>)
    ensures Ascending([], |script|) && Contributes(script, [], [], of)
  {
  }

  lemma ReachedFirst<T>(script: seq<T>, open: T -> bool, goesOn: T -> bool)
    requires script != [] && open(script[0])
    ensures Reached(script, 0, open, goesOn)
  {
  }

  lemma ReachedNext<T>(script: seq<T>, i: nat, open: T -> bool, goesOn: T -> bool)
    requires 0 < i < |script| && open(script[0])
    ensures Reached(script, i, open, goesOn) <==> goesOn(script[0]) && Reached(script[1..], i - 1, open, goesOn)
  {
    if Reached(script, i, open, goesOn) {
      forall k | 0 <= k <= i - 1
        ensures open(script[1..][k]) && (k < i - 1 ==> goesOn(script[1..][k]))
      {
        assert script[1..][k] == script[k + 1];
      }
    }
    if goesOn(script[0]) && Reached(script[1..], i - 1, open, goesOn) {
      forall k | 0 <= k <= i
        ensures open(script[k]) && (k < i ==> goesOn(script[k]))
      {
        assert k > 0 ==> script[k] == script[1..][k - 1];
      }
    }
  }
}
