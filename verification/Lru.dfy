/**
 The bounded counter cache behind the behavioural history: an LRU map from keys to u32 counters.
 The fast form is a recency list plus a map.  It is tied, by Valid(), to a ghost history of every
 touch since the last clear, through reference functions that never mention the recency list.
 */
module Lru {
  import opened Wrappers
  import opened Collections
  import opened Numbers

  /** u32::saturating_add */
  function SaturatingAdd(a: nat, b: nat): nat {
    if a + b > U32_MAX then U32_MAX else a + b
  }

  /** One get_or_insert_mut(key, || 0) followed by a saturating addition of delta. */
  datatype Touch<K> = Touch(key: K, delta: nat)

  // ----- Reference functions on histories -----

  ghost function KeysOf<K>(h: seq<Touch<K>>): set<K> {
    set t | t in h :: t.key
  }

  /** The distinct keys touched after the last touch of k (every key, when k was never touched). */
  ghost function KeysAfter<K>(h: seq<Touch<K>>, k: K): set<K> {
    if h == [] then {}
    else
      var last := h[|h| - 1].key;
      if last == k then {} else KeysAfter(h[..|h| - 1], k) + {last}
  }

  /** k is among the `capacity` most recently touched distinct keys. */
  ghost predicate Resident<K>(h: seq<Touch<K>>, capacity: nat, k: K) {
    k in KeysOf(h) && |KeysAfter(h, k)| < capacity
  }

  /** The saturated sum of the deltas of k since it last (re-)entered the most recent `capacity` keys. */
  ghost function ResidentCount<K>(h: seq<Touch<K>>, capacity: nat, k: K): nat {
    if h == [] then 0
    else
      var before, last := h[..|h| - 1], h[|h| - 1];
      if last.key != k then ResidentCount(before, capacity, k)
      else SaturatingAdd(if Resident(before, capacity, k) then ResidentCount(before, capacity, k) else 0, last.delta)
  }

  /** The true, unbounded sum of the deltas of k. */
  ghost function TotalCount<K>(h: seq<Touch<K>>, k: K): nat {
    if h == [] then 0
    else TotalCount(h[..|h| - 1], k) + if h[|h| - 1].key == k then h[|h| - 1].delta else 0
  }

  // ----- Facts about the reference functions -----

  lemma KeysOfSnoc<K>(h: seq<Touch<K>>, t: Touch<K>)
    ensures KeysOf(h + [t]) == KeysOf(h) + {t.key}
  {
    assert forall u :: u in h + [t] <==> u in h || u == t;
    assert t in h + [t];
    forall x | x in KeysOf(h)
      ensures x in KeysOf(h + [t])
    {
      var u :| u in h && u.key == x;
      assert u in h + [t];
    }
  }

  lemma KeysOfConcat<K>(g: seq<Touch<K>>, h: seq<Touch<K>>)
    ensures KeysOf(g + h) == KeysOf(g) + KeysOf(h)
  {
    forall x | x in KeysOf(g) + KeysOf(h)
      ensures x in KeysOf(g + h)
    {
      var u :| (u in g || u in h) && u.key == x;
      assert u in g + h;
    }
  }

  lemma SnocSplit<K>(h: seq<Touch<K>>, t: Touch<K>)
    ensures (h + [t])[..|h + [t]| - 1] == h && (h + [t])[|h + [t]| - 1] == t
  {
  }

  lemma TotalSnoc<K>(h: seq<Touch<K>>, t: Touch<K>, k: K)
    ensures TotalCount(h + [t], k) == TotalCount(h, k) + if t.key == k then t.delta else 0
  {
    SnocSplit(h, t);
  }

  lemma CountSnoc<K>(h: seq<Touch<K>>, t: Touch<K>, capacity: nat, k: K)
    ensures ResidentCount(h + [t], capacity, k) ==
            if t.key != k then ResidentCount(h, capacity, k)
            else SaturatingAdd(if Resident(h, capacity, k) then ResidentCount(h, capacity, k) else 0, t.delta)
  {
    hide Resident;
    SnocSplit(h, t);
  }

  lemma NothingCounted<K>(capacity: nat, k: K)
    ensures TotalCount([], k) == 0 && ResidentCount([], capacity, k) == 0
  {
  }

  lemma {:induction false} KeysAfterInHistory<K>(h: seq<Touch<K>>, k: K)
    ensures KeysAfter(h, k) <= KeysOf(h) && k !in KeysAfter(h, k)
    ensures k !in KeysOf(h) ==> KeysAfter(h, k) == KeysOf(h)
  {
    if h != [] {
      var before, last := h[..|h| - 1], h[|h| - 1];
      assert h == before + [last];
      KeysOfSnoc(before, last);
      KeysAfterInHistory(before, k);
    }
  }

  lemma {:induction false} KeysAfterConcat<K>(g: seq<Touch<K>>, h: seq<Touch<K>>, k: K)
    ensures KeysAfter(g + h, k) == if k in KeysOf(h) then KeysAfter(h, k) else KeysAfter(g, k) + KeysOf(h)
  {
    if h == [] {
      assert g + h == g;
    } else {
      var before, last := h[..|h| - 1], h[|h| - 1];
      assert h == before + [last];
      KeysOfSnoc(before, last);
      assert g + h == (g + before) + [last];
      SnocSplit(g + before, last);
      KeysAfterConcat(g, before, k);
    }
  }

  /** KeysAfter by position: the keys at the indices above the last occurrence of k. */
  lemma KeysAfterByPosition<K>(h: seq<Touch<K>>, k: K, p: nat)
    requires p < |h| && h[p].key == k && k !in KeysOf(h[p + 1..])
    ensures KeysAfter(h, k) == KeysOf(h[p + 1..])
  {
    var upTo := h[..p + 1];
    assert h == upTo + h[p + 1..];
    KeysAfterConcat(upTo, h[p + 1..], k);
    assert upTo[|upTo| - 1].key == k;
  }

  lemma {:induction false} CountUntouched<K>(g: seq<Touch<K>>, h: seq<Touch<K>>, capacity: nat, k: K)
    requires k !in KeysOf(h)
    ensures ResidentCount(g + h, capacity, k) == ResidentCount(g, capacity, k)
    ensures TotalCount(g + h, k) == TotalCount(g, k)
  {
    if h == [] {
      assert g + h == g;
    } else {
      var before, last := h[..|h| - 1], h[|h| - 1];
      assert h == before + [last];
      KeysOfSnoc(before, last);
      assert g + h == (g + before) + [last];
      SnocSplit(g + before, last);
      CountUntouched(g, before, capacity, k);
    }
  }

  lemma {:induction false} TotalConcat<K>(g: seq<Touch<K>>, h: seq<Touch<K>>, k: K)
    ensures TotalCount(g + h, k) == TotalCount(g, k) + TotalCount(h, k)
  {
    if h == [] {
      assert g + h == g;
    } else {
      var before, last := h[..|h| - 1], h[|h| - 1];
      assert h == before + [last];
      assert g + h == (g + before) + [last];
      SnocSplit(g + before, last);
      TotalConcat(g, before, k);
    }
  }

  /** A counter never exceeds the capped true count, whatever was evicted in between. */
  lemma {:induction false} CountNeverExceedsTotal<K>(h: seq<Touch<K>>, capacity: nat, k: K)
    ensures ResidentCount(h, capacity, k) <= Min(U32_MAX, TotalCount(h, k))
  {
    if h != [] {
      CountNeverExceedsTotal(h[..|h| - 1], capacity, k);
    }
  }

  /** With at most `capacity` distinct keys nothing is ever evicted and the counter is the capped true count. */
  lemma {:induction false} CountExactWithinCapacity<K>(h: seq<Touch<K>>, capacity: nat, k: K)
    requires |KeysOf(h)| <= capacity
    ensures ResidentCount(h, capacity, k) == Min(U32_MAX, TotalCount(h, k))
    ensures Resident(h, capacity, k) <==> k in KeysOf(h)
  {
    KeysAfterInHistory(h, k);
    if k in KeysOf(h) {
      StrictSubsetSize(KeysAfter(h, k), KeysOf(h), k);
    }
    if h != [] {
      var before, last := h[..|h| - 1], h[|h| - 1];
      assert h == before + [last];
      KeysOfSnoc(before, last);
      SubsetSize(KeysOf(before), KeysOf(h));
      CountExactWithinCapacity(before, capacity, k);
      if k !in KeysOf(before) {
        CountUntouched([], before, capacity, k);
        assert [] + before == before;
      }
    }
  }

  // ----- Exactly when a counter is the true count -----

  /** Every later touch of k found its entry: fewer than `capacity` distinct keys came since the touch before. */
  ghost predicate NeverEvicted<K>(h: seq<Touch<K>>, capacity: nat, k: K) {
    forall p :: 0 <= p < |h| && h[p].key == k && k in KeysOf(h[..p]) ==> Resident(h[..p], capacity, k)
  }

  lemma NeverEvictedSnoc<K>(h: seq<Touch<K>>, t: Touch<K>, capacity: nat, k: K)
    ensures NeverEvicted(h + [t], capacity, k) <==>
            NeverEvicted(h, capacity, k) && (t.key == k && k in KeysOf(h) ==> Resident(h, capacity, k))
  {
    hide Resident, KeysOf;
    var h' := h + [t];
    assert h'[..|h|] == h;
    forall p | 0 <= p < |h|
      ensures h'[..p] == h[..p] && h'[p] == h[p]
    {
    }
    if NeverEvicted(h', capacity, k) {
      assert h'[|h|] == t;
    }
  }

  /** Every touch of k adds something. */
  ghost predicate Positive<K>(h: seq<Touch<K>>, k: K) {
    forall t :: t in h && t.key == k ==> t.delta >= 1
  }

  lemma {:induction false} TouchedIsCounted<K>(h: seq<Touch<K>>, k: K)
    requires Positive(h, k)
    ensures TotalCount(h, k) == 0 <==> k !in KeysOf(h)
  {
    if h != [] {
      var before, last := h[..|h| - 1], h[|h| - 1];
      assert h == before + [last];
      KeysOfSnoc(before, last);
      TouchedIsCounted(before, k);
    }
  }

  /** A counter is the true count if and only if its entry was never evicted between two touches. */
  lemma {:induction false} CountExactIff<K>(h: seq<Touch<K>>, capacity: nat, k: K)
    requires Positive(h, k) && TotalCount(h, k) <= U32_MAX
    ensures ResidentCount(h, capacity, k) == TotalCount(h, k) <==> NeverEvicted(h, capacity, k)
  {
    hide NeverEvicted, Resident, KeysOf, TotalCount, ResidentCount;
    NothingCounted(capacity, k);
    if h == [] {
      UntouchedNeverEvicted(h, capacity, k);
      NoKeys(k);
    } else {
      var before, last := h[..|h| - 1], h[|h| - 1];
      assert h == before + [last];
      TotalSnoc(before, last, k);
      CountSnoc(before, last, capacity, k);
      CountExactIff(before, capacity, k);
      NeverEvictedSnoc(before, last, capacity, k);
      CountNeverExceedsTotal(before, capacity, k);
      TouchedIsCounted(before, k);
      ResidentIsTouched(before, capacity, k);
      UntouchedNeverEvicted(before, capacity, k);
    }
  }

  lemma NoKeys<K>(k: K)
    ensures k !in KeysOf([]) && KeysOf<K>([]) == {}
  {
  }

  lemma ResidentIsTouched<K>(h: seq<Touch<K>>, capacity: nat, k: K)
    ensures Resident(h, capacity, k) ==> k in KeysOf(h)
  {
  }

  lemma {:induction false} UntouchedNeverEvicted<K>(h: seq<Touch<K>>, capacity: nat, k: K)
    ensures k !in KeysOf(h) ==> NeverEvicted(h, capacity, k)
  {
    if k !in KeysOf(h) {
      forall p | 0 <= p < |h|
        ensures h[p].key != k
      {
        assert h[p] in h;
      }
    }
  }

  /** The index of the touch with which k's present stay began: the last one that did not find its entry. */
  ghost function StayStart<K>(h: seq<Touch<K>>, capacity: nat, k: K): (start: nat)
    ensures start <= |h|
  {
    if h == [] then 0
    else
      var before, last := h[..|h| - 1], h[|h| - 1];
      if last.key == k && !Resident(before, capacity, k) then |before| else StayStart(before, capacity, k)
  }

  lemma StaySnoc<K>(h: seq<Touch<K>>, t: Touch<K>, capacity: nat, k: K)
    ensures (h + [t])[StayStart(h + [t], capacity, k)..] ==
            (if t.key == k && !Resident(h, capacity, k) then [] else h[StayStart(h, capacity, k)..]) + [t]
  {
    hide Resident;
    SnocSplit(h, t);
  }

  /** A counter is the capped sum of the touches of the present stay, whatever came before. */
  lemma {:induction false} CountIsStayTotal<K>(h: seq<Touch<K>>, capacity: nat, k: K)
    ensures ResidentCount(h, capacity, k) == Min(U32_MAX, TotalCount(h[StayStart(h, capacity, k)..], k))
  {
    hide Resident, TotalCount, ResidentCount, StayStart;
    NothingCounted(capacity, k);
    if h == [] {
      assert h[StayStart(h, capacity, k)..] == [];
    } else {
      var before, last := h[..|h| - 1], h[|h| - 1];
      assert h == before + [last];
      CountIsStayTotal(before, capacity, k);
      StaySnoc(before, last, capacity, k);
      CountSnoc(before, last, capacity, k);
      TotalSnoc([], last, k);
      TotalSnoc(before[StayStart(before, capacity, k)..], last, k);
    }
  }

  // ----- Rotation through one key too many -----

  /** One touch of each key, in order. */
  ghost function Round<K>(keys: seq<K>): seq<Touch<K>> {
    if keys == [] then [] else Round(keys[..|keys| - 1]) + [Touch(keys[|keys| - 1], 1)]
  }

  ghost function Rotation<K>(rounds: nat, keys: seq<K>): seq<Touch<K>> {
    if rounds == 0 then [] else Rotation(rounds - 1, keys) + Round(keys)
  }

  lemma {:induction false} RoundConcat<K>(a: seq<K>, b: seq<K>)
    ensures Round(a + b) == Round(a) + Round(b)
  {
    if b == [] {
      assert a + b == a;
    } else {
      assert (a + b)[..|a + b| - 1] == a + b[..|b| - 1];
      RoundConcat(a, b[..|b| - 1]);
    }
  }

  lemma RoundOfOne<K>(k: K)
    ensures Round([k]) == [Touch(k, 1)]
  {
    assert [k][..0] == [];
  }

  lemma {:induction false} RoundKeys<K>(keys: seq<K>)
    ensures KeysOf(Round(keys)) == Elements(keys)
  {
    if keys != [] {
      var init, last := keys[..|keys| - 1], keys[|keys| - 1];
      RoundKeys(init);
      KeysOfSnoc(Round(init), Touch(last, 1));
      assert keys == init + [last];
      assert Elements(keys) == Elements(init) + {last};
    }
  }

  /** A round around k: the keys before it, k, the keys after it. */
  lemma RoundAround<K>(a: seq<K>, k: K, b: seq<K>)
    ensures Round(a + [k] + b) == Round(a) + [Touch(k, 1)] + Round(b)
  {
    RoundConcat(a + [k], b);
    RoundConcat(a, [k]);
    RoundOfOne(k);
  }

  lemma AroundSplit<K>(a: seq<K>, k: K, b: seq<K>)
    requires NoDuplicates(a + [k] + b)
    ensures k !in a && k !in b && |Elements(b + a)| == |a| + |b|
  {
    var keys := a + [k] + b;
    assert keys[|a|] == k;
    forall i | 0 <= i < |a|
      ensures a[i] != k
    {
      assert keys[i] == a[i];
    }
    forall i | 0 <= i < |b|
      ensures b[i] != k
    {
      assert keys[|a| + 1 + i] == b[i];
    }
    var others := b + a;
    forall i, j | 0 <= i < j < |others|
      ensures others[i] != others[j]
    {
      var p := if i < |b| then |a| + 1 + i else i - |b|;
      var q := if j < |b| then |a| + 1 + j else j - |b|;
      assert keys[p] == others[i] && keys[q] == others[j];
      assert keys[if p < q then p else q] != keys[if p < q then q else p];
    }
    ElementsSize(others);
  }

  /** When k's turn comes again, `capacity` other keys have come since, and it is gone. */
  lemma RotatedOut<K>(rounds: nat, a: seq<K>, k: K, b: seq<K>, capacity: nat)
    requires NoDuplicates(a + [k] + b) && |a| + |b| == capacity
    ensures !Resident(Rotation(rounds, a + [k] + b) + Round(a), capacity, k)
  {
    AroundSplit(a, k, b);
    RoundKeys(a);
    RoundKeys(b);
    var before := Rotation(rounds, a + [k] + b) + Round(a);
    if rounds == 0 {
      assert before == Round(a);
      assert k !in Elements(a);
    } else {
      RoundAround(a, k, b);
      var earlier := Rotation(rounds - 1, a + [k] + b) + Round(a) + [Touch(k, 1)];
      assert before == earlier + (Round(b) + Round(a));
      KeysOfConcat(Round(b), Round(a));
      assert Elements(b + a) == Elements(b) + Elements(a);
      assert k !in Elements(b) + Elements(a);
      KeysAfterConcat(earlier, Round(b) + Round(a), k);
      SubsetSize(Elements(b + a), KeysAfter(before, k));
    }
  }

  /** For every capacity: rotating through one key more than fit touches each key any number of times and counts one. */
  lemma {:induction false} RotationCountsOne<K>(rounds: nat, a: seq<K>, k: K, b: seq<K>, capacity: nat)
    requires NoDuplicates(a + [k] + b) && |a| + |b| == capacity
    ensures var h := Rotation(rounds, a + [k] + b);
            TotalCount(h, k) == rounds && ResidentCount(h, capacity, k) == if rounds == 0 then 0 else 1
  {
    hide ResidentCount, TotalCount, Resident, Round, KeysOf;
    NothingCounted(capacity, k);
    if rounds > 0 {
      var keys, t := a + [k] + b, Touch(k, 1);
      RotationCountsOne(rounds - 1, a, k, b, capacity);
      RotatedOut(rounds - 1, a, k, b, capacity);
      AroundSplit(a, k, b);
      RoundAround(a, k, b);
      RoundKeys(a);
      RoundKeys(b);
      assert k !in Elements(a) && k !in Elements(b);
      var before := Rotation(rounds - 1, keys) + Round(a);
      assert Rotation(rounds, keys) == (before + [t]) + Round(b);
      CountUntouched(before + [t], Round(b), capacity, k);
      CountSnoc(before, t, capacity, k);
      TotalSnoc(before, t, k);
      CountUntouched(Rotation(rounds - 1, keys), Round(a), capacity, k);
    }
  }

  /** The key touched last is always resident: a cache has at least one slot. */
  lemma LastTouchedIsResident<K>(h: seq<Touch<K>>, capacity: nat)
    requires h != [] && capacity >= 1
    ensures Resident(h, capacity, h[|h| - 1].key)
  {
    assert h[|h| - 1] in h;
  }

  // ----- The recency list against the history -----

  /** order lists the resident keys, most recently touched first. */
  ghost predicate ListsRecent<K>(order: seq<K>, h: seq<Touch<K>>, capacity: nat) {
    && NoDuplicates(order)
    && |order| <= capacity
    && Elements(order) <= KeysOf(h)
    && (forall i :: 0 <= i < |order| ==> KeysAfter(h, order[i]) == Elements(order[..i]))
    && (forall k :: k in KeysOf(h) && k !in order ==> |order| == capacity && Elements(order) <= KeysAfter(h, k))
  }

  /** The list holds exactly the `capacity` most recently touched distinct keys. */
  lemma ListedIffResident<K>(order: seq<K>, h: seq<Touch<K>>, capacity: nat, k: K)
    requires ListsRecent(order, h, capacity)
    ensures k in order <==> Resident(h, capacity, k)
  {
    if k in order {
      var i :| 0 <= i < |order| && order[i] == k;
      ElementsSize(order[..i]);
      assert k in Elements(order);
    } else if k in KeysOf(h) {
      ElementsSize(order);
      SubsetSize(Elements(order), KeysAfter(h, k));
    }
  }

  /** Promotion of a listed key to the front. */
  lemma PromoteListsRecent<K>(newer: seq<K>, k: K, older: seq<K>, h: seq<Touch<K>>, capacity: nat, delta: nat)
    requires ListsRecent(newer + [k] + older, h, capacity)
    ensures ListsRecent([k] + newer + older, h + [Touch(k, delta)], capacity)
    ensures Elements([k] + newer + older) == Elements(newer + [k] + older)
  {
    var order := newer + [k] + older;
    var order', h' := [k] + newer + older, h + [Touch(k, delta)];
    KeysOfSnoc(h, Touch(k, delta));
    SnocSplit(h, Touch(k, delta));
    PromoteKeepsElements(newer, k, older);
    PromoteKeepsDistinct(newer, k, older);
    forall i | 0 <= i < |order'|
      ensures KeysAfter(h', order'[i]) == Elements(order'[..i])
    {
      PromotedPrefix(newer, k, older, i);
    }
  }

  lemma PromoteKeepsElements<K>(newer: seq<K>, k: K, older: seq<K>)
    ensures Elements([k] + newer + older) == Elements(newer + [k] + older)
  {
    assert forall x :: x in [k] + newer + older <==> x == k || x in newer || x in older;
    assert forall x :: x in newer + [k] + older <==> x == k || x in newer || x in older;
  }

  lemma PromoteKeepsDistinct<K>(newer: seq<K>, k: K, older: seq<K>)
    requires NoDuplicates(newer + [k] + older)
    ensures NoDuplicates([k] + newer + older)
  {
    var order, order', n := newer + [k] + older, [k] + newer + older, |newer|;
    assert order[n] == k;
    forall i, j | 0 <= i < j < |order'|
      ensures order'[i] != order'[j]
    {
      var oi := if i == 0 then n else if i <= n then i - 1 else i;
      var oj := if j <= n then j - 1 else j;
      assert order'[i] == order[oi] && order'[j] == order[oj] && oi != oj;
      assert order[if oi < oj then oi else oj] != order[if oi < oj then oj else oi];
    }
  }

  /** Every position of the promoted list against the old one. */
  lemma PromotedPrefix<K>(newer: seq<K>, k: K, older: seq<K>, i: nat)
    requires i < |[k] + newer + older| && NoDuplicates(newer + [k] + older)
    ensures var order, order' := newer + [k] + older, [k] + newer + older;
            if i == 0 then order'[i] == k && order'[..i] == []
            else
              var o := if i <= |newer| then i - 1 else i;
              && order'[i] == order[o] && order[o] != k
              && Elements(order'[..i]) == Elements(order[..o]) + {k}
  {
    var order, order' := newer + [k] + older, [k] + newer + older;
    if 0 < i <= |newer| {
      assert order'[..i] == [k] + order[..i - 1];
      assert order[i - 1] != order[|newer|];
    } else if i > |newer| {
      var tail := older[..i - |newer| - 1];
      assert order'[..i] == [k] + newer + tail && order[..i] == newer + [k] + tail;
      PromoteKeepsElements(newer, k, tail);
      assert order[|newer|] == k && k in order[..i];
    }
  }

  /** Insertion of an unlisted key at the front while a slot is free: then k was never touched. */
  lemma FillListsRecent<K>(order: seq<K>, h: seq<Touch<K>>, capacity: nat, k: K, delta: nat)
    requires ListsRecent(order, h, capacity) && k !in order && |order| < capacity
    ensures ListsRecent([k] + order, h + [Touch(k, delta)], capacity)
  {
    KeysOfSnoc(h, Touch(k, delta));
    SnocSplit(h, Touch(k, delta));
    PushFrontElements(k, order);
    PushFrontPrefixes(order, h, k, delta);
  }

  /** Insertion of an unlisted key at the front of a full list, which loses its last key. */
  lemma EvictListsRecent<K>(kept: seq<K>, evicted: K, h: seq<Touch<K>>, capacity: nat, k: K, delta: nat)
    requires ListsRecent(kept + [evicted], h, capacity) && k !in kept + [evicted] && |kept| + 1 == capacity
    ensures ListsRecent([k] + kept, h + [Touch(k, delta)], capacity)
    ensures Elements(kept + [evicted]) == Elements(kept) + {evicted} && evicted !in kept
  {
    var order, order', h' := kept + [evicted], [k] + kept, h + [Touch(k, delta)];
    KeysOfSnoc(h, Touch(k, delta));
    SnocSplit(h, Touch(k, delta));
    PushFrontElements(k, kept);
    WithoutLast(kept, evicted, h, capacity);
    PushFrontPrefixes(kept, h, k, delta);
    forall x | x in KeysOf(h') && x !in order'
      ensures Elements(order') <= KeysAfter(h', x)
    {
      assert order'[0] == k;
      assert KeysAfter(h', x) == KeysAfter(h, x) + {k};
    }
  }

  lemma RecentIsDistinct<K>(order: seq<K>, h: seq<Touch<K>>, capacity: nat)
    requires ListsRecent(order, h, capacity)
    ensures NoDuplicates(order)
  {
  }

  lemma ListedPrefix<K>(order: seq<K>, h: seq<Touch<K>>, capacity: nat, i: nat)
    requires ListsRecent(order, h, capacity) && i < |order|
    ensures KeysAfter(h, order[i]) == Elements(order[..i])
  {
  }

  lemma UnlistedIsOlder<K>(order: seq<K>, h: seq<Touch<K>>, capacity: nat, k: K)
    requires ListsRecent(order, h, capacity) && k in KeysOf(h) && k !in order
    ensures |order| == capacity && Elements(order) <= KeysAfter(h, k)
  {
  }

  /** A full list without its last key: every other key is older than all that stays. */
  lemma WithoutLast<K>(kept: seq<K>, evicted: K, h: seq<Touch<K>>, capacity: nat)
    requires ListsRecent(kept + [evicted], h, capacity)
    ensures Elements(kept + [evicted]) == Elements(kept) + {evicted} && evicted !in kept && NoDuplicates(kept)
    ensures forall i :: 0 <= i < |kept| ==> KeysAfter(h, kept[i]) == Elements(kept[..i])
    ensures forall x :: x in KeysOf(h) && x !in kept ==> Elements(kept) <= KeysAfter(h, x)
  {
    hide ListsRecent, KeysAfter, KeysOf, Elements, NoDuplicates;
    var order := kept + [evicted];
    RecentIsDistinct(order, h, capacity);
    NoDuplicatesSnoc(kept, evicted);
    ElementsSnoc(kept, evicted);
    assert order[..|kept|] == kept && order[|kept|] == evicted;
    forall i | 0 <= i < |kept|
      ensures KeysAfter(h, kept[i]) == Elements(kept[..i])
    {
      assert kept[i] == order[i] && kept[..i] == order[..i];
      ListedPrefix(order, h, capacity, i);
    }
    forall x | x in KeysOf(h) && x !in kept
      ensures Elements(kept) <= KeysAfter(h, x)
    {
      if x == evicted {
        ListedPrefix(order, h, capacity, |kept|);
      } else {
        UnlistedIsOlder(order, h, capacity, x);
      }
    }
  }

  lemma PushFrontElements<K>(k: K, s: seq<K>)
    ensures Elements([k] + s) == {k} + Elements(s)
  {
  }

  lemma PushFrontPrefixes<K>(order: seq<K>, h: seq<Touch<K>>, k: K, delta: nat)
    requires k !in order
    requires forall i :: 0 <= i < |order| ==> KeysAfter(h, order[i]) == Elements(order[..i])
    ensures forall i :: 0 <= i < |[k] + order| ==>
              KeysAfter(h + [Touch(k, delta)], ([k] + order)[i]) == Elements(([k] + order)[..i])
  {
    var order', h' := [k] + order, h + [Touch(k, delta)];
    SnocSplit(h, Touch(k, delta));
    forall i | 0 <= i < |order'|
      ensures KeysAfter(h', order'[i]) == Elements(order'[..i])
    {
      if i > 0 {
        assert order'[i] == order[i - 1] && order'[..i] == [k] + order[..i - 1];
        PushFrontElements(k, order[..i - 1]);
      }
    }
  }

  /** What the counters become when k is touched. */
  lemma TouchedCounts<K>(h: seq<Touch<K>>, capacity: nat, k: K, delta: nat)
    ensures forall x :: ResidentCount(h + [Touch(k, delta)], capacity, x) ==
              if x != k then ResidentCount(h, capacity, x)
              else SaturatingAdd(if Resident(h, capacity, k) then ResidentCount(h, capacity, k) else 0, delta)
  {
    forall x
      ensures ResidentCount(h + [Touch(k, delta)], capacity, x) ==
              if x != k then ResidentCount(h, capacity, x)
              else SaturatingAdd(if Resident(h, capacity, k) then ResidentCount(h, capacity, k) else 0, delta)
    {
      CountSnoc(h, Touch(k, delta), capacity, x);
    }
  }

  // ----- The cache -----

  /** What stays listed when a new key comes in: a full list loses its last key. */
  function Kept<K>(order: seq<K>, capacity: nat): seq<K> {
    if 0 < |order| == capacity then order[..capacity - 1] else order
  }

  lemma InsertListsRecent<K>(order: seq<K>, h: seq<Touch<K>>, capacity: nat, k: K, delta: nat)
    requires ListsRecent(order, h, capacity) && k !in order && capacity >= 1
    ensures ListsRecent([k] + Kept(order, capacity), h + [Touch(k, delta)], capacity)
    ensures Elements([k] + Kept(order, capacity)) ==
            {k} + (Elements(order) - if |order| == capacity then {order[capacity - 1]} else {})
  {
    PushFrontElements(k, Kept(order, capacity));
    if |order| == capacity {
      var kept, evicted := order[..capacity - 1], order[capacity - 1];
      assert order == kept + [evicted];
      EvictListsRecent(kept, evicted, h, capacity, k, delta);
    } else {
      FillListsRecent(order, h, capacity, k, delta);
    }
  }

  class LruCache<K(==)> {
    const capacity: nat
    var order: seq<K>
    var counts: map<K, nat>
    ghost var history: seq<Touch<K>>

    ghost predicate Valid()
      reads this
    {
      && capacity >= 1
      && ListsRecent(order, history, capacity)
      && counts.Keys == Elements(order)
      && forall k :: k in counts ==> counts[k] == ResidentCount(history, capacity, k)
    }

    constructor (capacity: nat)
      requires capacity >= 1
      ensures Valid() && this.capacity == capacity && history == []
    {
      this.capacity := capacity;
      order, counts, history := [], map[], [];
    }

    method Clear()
      requires Valid()
      modifies this
      ensures Valid() && history == []
    {
      order, counts, history := [], map[], [];
    }

    method PositionOf(k: K) returns (p: nat)
      requires k in order
      ensures p < |order| && order[p] == k
    {
      p := 0;
      while order[p] != k
        invariant p < |order| && k in order[p..]
        decreases |order| - p
      {
        p := p + 1;
      }
    }

    /** get_or_insert_mut(k, || 0), then saturating_add(delta) through the returned reference. */
    method Add(k: K, delta: nat)
      requires Valid()
      modifies this
      ensures Valid() && history == old(history) + [Touch(k, delta)]
    {
      TouchedCounts(history, capacity, k, delta);
      ListedIffResident(order, history, capacity, k);
      if k in counts {
        Promote(k, delta);
        counts := counts[k := SaturatingAdd(counts[k], delta)];
      } else {
        Insert(k, delta);
        counts := counts[k := SaturatingAdd(0, delta)];
      }
      history := history + [Touch(k, delta)];
    }

    method Promote(k: K, ghost delta: nat)
      requires Valid() && k in counts
      modifies this`order
      ensures ListsRecent(order, history + [Touch(k, delta)], capacity)
      ensures Elements(order) == old(Elements(order))
    {
      hide ListsRecent, ResidentCount;
      var p := PositionOf(k);
      assert order == order[..p] + [k] + order[p + 1..];
      PromoteListsRecent(order[..p], k, order[p + 1..], history, capacity, delta);
      order := [k] + order[..p] + order[p + 1..];
    }

    method Insert(k: K, ghost delta: nat)
      requires Valid() && k !in counts
      modifies this`order, this`counts
      ensures ListsRecent(order, history + [Touch(k, delta)], capacity)
      ensures Elements(order) == counts.Keys + {k}
      ensures counts.Keys <= old(counts).Keys && forall x :: x in counts ==> counts[x] == old(counts)[x]
    {
      InsertListsRecent(order, history, capacity, k, delta);
      if |order| == capacity {
        counts := counts - {order[capacity - 1]};
      }
      order := [k] + Kept(order, capacity);
    }

    /** peek: the counter of k, without promotion. */
    method Peek(k: K) returns (count: Option<nat>)
      requires Valid()
      ensures count.Some? <==> Resident(history, capacity, k)
      ensures count.Some? ==> count.value == ResidentCount(history, capacity, k)
    {
      ListedIffResident(order, history, capacity, k);
      count := if k in counts then Some(counts[k]) else None;
    }
  }
}
