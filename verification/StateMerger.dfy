/**
 What merging does to the counters: eviction in the middle of a merge, the exact sum when everything
 fits, and independence of the order in which worker snapshots arrive at the state merger.
 */
module StateMerger {
  import opened Wrappers
  import opened Collections
  import opened Numbers
  import opened Selections
  import opened Lru
  import opened Behavioral

  // ----- One merge, with eviction -----

  /** When visit p of a merge is folded in, the receiver's own entry for the key is still stored. */
  ghost predicate StillStored<K>(h: seq<Touch<K>>, visits: seq<Touch<K>>, capacity: nat, p: nat)
    requires p < |visits|
  {
    var k := visits[p].key;
    k in KeysOf(h) && |KeysAfter(h, k) + KeysOf(visits[..p])| < capacity
  }

  lemma VisitSplit<K>(visits: seq<Touch<K>>, counters: map<K, nat>, p: nat)
    requires Enumerates(visits, counters) && p < |visits|
    ensures visits == visits[..p] + [visits[p]] + visits[p + 1..]
    ensures visits[p].key !in KeysOf(visits[..p]) && visits[p].key !in KeysOf(visits[p + 1..])
    ensures visits[p].key in counters && visits[p].delta == counters[visits[p].key]
  {
    assert visits[p] in visits;
  }

  /**
   The merged counter of a visited key: its own count is added exactly when its entry is still
   stored as the merge reaches it, that is, when fewer than `capacity` other keys are either more
   recent in the receiver or visited earlier.
   */
  lemma MergedCount<K>(h: seq<Touch<K>>, visits: seq<Touch<K>>, counters: map<K, nat>, capacity: nat, p: nat)
    requires Enumerates(visits, counters) && p < |visits|
    ensures ResidentCount(h + visits, capacity, visits[p].key) ==
            SaturatingAdd(if StillStored(h, visits, capacity, p) then ResidentCount(h, capacity, visits[p].key) else 0,
                          counters[visits[p].key])
  {
    hide ResidentCount, TotalCount, KeysAfter, KeysOf, Enumerates;
    var k, seen, unseen := visits[p].key, visits[..p], visits[p + 1..];
    VisitSplit(visits, counters, p);
    var upTo := h + seen;
    assert h + visits == (upTo + [visits[p]]) + unseen;
    CountUntouched(upTo + [visits[p]], unseen, capacity, k);
    CountSnoc(upTo, visits[p], capacity, k);
    CountUntouched(h, seen, capacity, k);
    KeysAfterConcat(h, seen, k);
    KeysOfConcat(h, seen);
  }

  /** What the receiver stores for a key before the merge. */
  ghost function StoredCount<K>(h: seq<Touch<K>>, capacity: nat, k: K): nat {
    if Resident(h, capacity, k) then ResidentCount(h, capacity, k) else 0
  }

  lemma {:induction false} DistinctKeys<K>(visits: seq<Touch<K>>)
    requires forall i, j :: 0 <= i < j < |visits| ==> visits[i].key != visits[j].key
    ensures |KeysOf(visits)| == |visits|
  {
    if visits != [] {
      var init, last := visits[..|visits| - 1], visits[|visits| - 1];
      DistinctKeys(init);
      assert visits == init + [last];
      KeysOfSnoc(init, last);
    }
  }

  /**
   Merge under eviction: every key of the other history survives the merge, and its counter lies
   between the other's count and the saturated sum with the receiver's stored count, whatever the order
   of the visits.
   */
  lemma MergedKeySurvives<K>(h: seq<Touch<K>>, visits: seq<Touch<K>>, counters: map<K, nat>, capacity: nat, k: K)
    requires Enumerates(visits, counters) && |counters| <= capacity && k in counters && counters[k] <= U32_MAX
    ensures Resident(h + visits, capacity, k)
    ensures counters[k] <= ResidentCount(h + visits, capacity, k) <= SaturatingAdd(StoredCount(h, capacity, k), counters[k])
  {
    hide ResidentCount, KeysAfter;
    assert k in KeysOf(visits);
    var v :| v in visits && v.key == k;
    var p :| 0 <= p < |visits| && visits[p] == v;
    MergedCount(h, visits, counters, capacity, p);
    KeysAfterConcat(h, visits, k);
    KeysOfConcat(h, visits);
    KeysAfterInHistory(visits, k);
    StrictSubsetSize(KeysAfter(visits, k), KeysOf(visits), k);
    assert |counters| == |counters.Keys|;
    SubsetSize(KeysAfter(h, k), KeysAfter(h, k) + KeysOf(visits[..p]));
  }

  /** A key only the receiver has keeps its count, and stays exactly when it and the newcomers fit together. */
  lemma UnvisitedKey<K>(h: seq<Touch<K>>, visits: seq<Touch<K>>, counters: map<K, nat>, capacity: nat, k: K)
    requires Enumerates(visits, counters) && k !in counters
    ensures Resident(h + visits, capacity, k) <==> k in KeysOf(h) && |KeysAfter(h, k) + counters.Keys| < capacity
    ensures ResidentCount(h + visits, capacity, k) == ResidentCount(h, capacity, k)
  {
    KeysAfterConcat(h, visits, k);
    KeysOfConcat(h, visits);
    CountUntouched(h, visits, capacity, k);
  }

  /** A full receiver in which a is the oldest entry. */
  ghost function Oldest<K>(a: K, bs: seq<K>): seq<Touch<K>> {
    [Touch(a, 1)] + Round(bs)
  }

  lemma OldestStored<K>(a: K, bs: seq<K>, capacity: nat)
    requires a !in bs
    ensures a in KeysOf(Oldest(a, bs)) && KeysAfter(Oldest(a, bs), a) == Elements(bs)
    ensures ResidentCount(Oldest(a, bs), capacity, a) == 1
  {
    var first := [Touch(a, 1)];
    RoundKeys(bs);
    assert a !in Elements(bs);
    KeysAfterConcat(first, Round(bs), a);
    KeysOfConcat(first, Round(bs));
    assert first[0] in first && first == [] + [Touch(a, 1)];
    SnocSplit([], Touch(a, 1));
    CountUntouched(first, Round(bs), capacity, a);
  }

  lemma TwoVisits<K>(a: K, x: K)
    requires a != x
    ensures Enumerates([Touch(a, 1), Touch(x, 1)], map[a := 1, x := 1])
  {
    var first, both := [Touch(a, 1)], [Touch(a, 1), Touch(x, 1)];
    assert both == first + [Touch(x, 1)] && first == [] + [Touch(a, 1)];
    KeysOfSnoc(first, Touch(x, 1));
    KeysOfSnoc([], Touch(a, 1));
  }

  /**
   Under eviction the visiting order shows, at every capacity above one: with a full receiver whose
   oldest entry is a, merging a newcomer x and a leaves 2 or 1 for a, as a or x is visited first.
   */
  lemma VisitOrderMatters<K>(a: K, bs: seq<K>, x: K, capacity: nat)
    requires capacity == |bs| + 1 >= 2 && NoDuplicates(bs) && a !in bs && x !in bs && a != x
    ensures var h, counters := Oldest(a, bs), map[a := 1, x := 1];
            var aFirst, xFirst := [Touch(a, 1), Touch(x, 1)], [Touch(x, 1), Touch(a, 1)];
            && |counters| <= capacity && Enumerates(aFirst, counters) && Enumerates(xFirst, counters)
            && ResidentCount(h + aFirst, capacity, a) == 2 && ResidentCount(h + xFirst, capacity, a) == 1
  {
    hide ResidentCount, KeysAfter, KeysOf, Enumerates, StillStored, Oldest;
    var h, counters := Oldest(a, bs), map[a := 1, x := 1];
    var aFirst, xFirst := [Touch(a, 1), Touch(x, 1)], [Touch(x, 1), Touch(a, 1)];
    OldestStored(a, bs, capacity);
    ElementsSize(bs);
    TwoVisits(a, x);
    TwoVisits(x, a);
    assert counters == map[x := 1, a := 1];
    MergedCount(h, aFirst, counters, capacity, 0);
    StoredWhenFirst(h, aFirst, a, bs, capacity);
    MergedCount(h, xFirst, counters, capacity, 1);
    GoneWhenSecond(h, xFirst, a, bs, x, capacity);
  }

  lemma StoredWhenFirst<K>(h: seq<Touch<K>>, visits: seq<Touch<K>>, a: K, bs: seq<K>, capacity: nat)
    requires visits != [] && visits[0].key == a && a in KeysOf(h)
    requires KeysAfter(h, a) == Elements(bs) && |Elements(bs)| < capacity
    ensures StillStored(h, visits, capacity, 0)
  {
    assert KeysAfter(h, a) + KeysOf(visits[..0]) == Elements(bs);
  }

  lemma GoneWhenSecond<K>(h: seq<Touch<K>>, visits: seq<Touch<K>>, a: K, bs: seq<K>, x: K, capacity: nat)
    requires |visits| == 2 && visits[0].key == x && visits[1].key == a && x !in bs
    requires KeysAfter(h, a) == Elements(bs) && |Elements(bs)| + 1 == capacity
    ensures !StillStored(h, visits, capacity, 1)
  {
    assert visits[..1] == [] + [visits[0]];
    KeysOfSnoc([], visits[0]);
    assert KeysAfter(h, a) + KeysOf(visits[..1]) == Elements(bs) + {x};
  }

  /** A cache of one slot has nothing to reorder: all enumerations of what fits are the same. */
  lemma OneSlotOneOrder<K>(v: seq<Touch<K>>, w: seq<Touch<K>>, counters: map<K, nat>)
    requires Enumerates(v, counters) && Enumerates(w, counters) && |counters| <= 1
    ensures v == w
  {
    DistinctKeys(v);
    DistinctKeys(w);
    assert |counters| == |counters.Keys|;
    if v != [] {
      assert v[0] in v && w[0] in w;
      assert counters.Keys == {v[0].key} by {
        SubsetSize({v[0].key}, counters.Keys);
      }
    }
  }

  // ----- Many merges that fit -----

  function CountIn<K>(counters: map<K, nat>, k: K): nat {
    if k in counters then counters[k] else 0
  }

  ghost function SumOf<K>(snapshots: seq<map<K, nat>>, k: K): nat {
    if snapshots == [] then 0
    else SumOf(snapshots[..|snapshots| - 1], k) + CountIn(snapshots[|snapshots| - 1], k)
  }

  ghost function AllKeys<K>(snapshots: seq<map<K, nat>>): set<K> {
    if snapshots == [] then {} else AllKeys(snapshots[..|snapshots| - 1]) + snapshots[|snapshots| - 1].Keys
  }

  /** Each event is the merge of the snapshot at its place. */
  ghost predicate MergesOf<K>(events: seq<Event>, touches: Event -> seq<Touch<K>>, snapshots: seq<map<K, nat>>) {
    |events| == |snapshots| && forall j :: 0 <= j < |events| ==> Enumerates(touches(events[j]), snapshots[j])
  }

  lemma {:induction false} EnumeratedTotal<K>(visits: seq<Touch<K>>, counters: map<K, nat>, k: K)
    requires Enumerates(visits, counters)
    ensures TotalCount(visits, k) == CountIn(counters, k)
  {
    if k in counters {
      assert k in KeysOf(visits);
      var v :| v in visits && v.key == k;
      var p :| 0 <= p < |visits| && visits[p] == v;
      VisitSplit(visits, counters, p);
      var upTo := visits[..p] + [visits[p]];
      CountUntouched(upTo, visits[p + 1..], 0, k);
      SnocSplit(visits[..p], visits[p]);
      CountUntouched([], visits[..p], 0, k);
      assert [] + visits[..p] == visits[..p];
    } else {
      CountUntouched([], visits, 0, k);
      assert [] + visits == visits;
    }
  }

  lemma EnumeratedKeys<K>(visits: seq<Touch<K>>, counters: map<K, nat>)
    requires Enumerates(visits, counters)
    ensures KeysOf(visits) == counters.Keys
  {
  }

  lemma {:induction false} MergesTotal<K>(events: seq<Event>, touches: Event -> seq<Touch<K>>,
                                          snapshots: seq<map<K, nat>>, k: K)
    requires MergesOf(events, touches, snapshots)
    ensures TotalCount(TouchesOf(events, touches), k) == SumOf(snapshots, k)
    ensures KeysOf(TouchesOf(events, touches)) == AllKeys(snapshots)
  {
    hide TotalCount, KeysOf, Enumerates;
    if events == [] {
      NothingCounted(0, k);
      NoKeys(k);
      assert TouchesOf(events, touches) == [];
    } else {
      var n := |events| - 1;
      MergesTotal(events[..n], touches, snapshots[..n], k);
      EnumeratedTotal(touches(events[n]), snapshots[n], k);
      EnumeratedKeys(touches(events[n]), snapshots[n]);
      TotalConcat(TouchesOf(events[..n], touches), touches(events[n]), k);
      KeysOfConcat(TouchesOf(events[..n], touches), touches(events[n]));
    }
  }

  /** Everything fits: the merged counters are exactly the pointwise saturated sums of the delivered snapshots. */
  lemma MergedSum<K>(events: seq<Event>, touches: Event -> seq<Touch<K>>, snapshots: seq<map<K, nat>>,
                     capacity: nat, k: K)
    requires MergesOf(events, touches, snapshots) && |AllKeys(snapshots)| <= capacity
    ensures Resident(TouchesOf(events, touches), capacity, k) <==> k in AllKeys(snapshots)
    ensures ResidentCount(TouchesOf(events, touches), capacity, k) == Min(U32_MAX, SumOf(snapshots, k))
  {
    MergesTotal(events, touches, snapshots, k);
    CountExactWithinCapacity(TouchesOf(events, touches), capacity, k);
  }

  lemma {:induction false} SumOfRemoved<K>(snapshots: seq<map<K, nat>>, i: nat, k: K)
    requires i < |snapshots|
    ensures SumOf(snapshots, k) == SumOf(snapshots[..i] + snapshots[i + 1..], k) + CountIn(snapshots[i], k)
  {
    var n := |snapshots| - 1;
    if i == n {
      assert snapshots[..i] + snapshots[i + 1..] == snapshots[..n];
    } else {
      SumOfRemoved(snapshots[..n], i, k);
      var rest := snapshots[..i] + snapshots[i + 1..];
      assert rest[..|rest| - 1] == snapshots[..n][..i] + snapshots[..n][i + 1..];
    }
  }

  lemma {:induction false} AllKeysOfRemoved<K>(snapshots: seq<map<K, nat>>, i: nat)
    requires i < |snapshots|
    ensures AllKeys(snapshots) == AllKeys(snapshots[..i] + snapshots[i + 1..]) + snapshots[i].Keys
  {
    var n := |snapshots| - 1;
    if i == n {
      assert snapshots[..i] + snapshots[i + 1..] == snapshots[..n];
    } else {
      AllKeysOfRemoved(snapshots[..n], i);
      var rest := snapshots[..i] + snapshots[i + 1..];
      assert rest[..|rest| - 1] == snapshots[..n][..i] + snapshots[..n][i + 1..];
    }
  }

  lemma MultisetWithout<T>(s: seq<T>, i: nat)
    requires i < |s|
    ensures multiset(s[..i] + s[i + 1..]) == multiset(s) - multiset{s[i]}
  {
    assert s == s[..i] + ([s[i]] + s[i + 1..]);
  }

  lemma FindLast<T>(a: seq<T>, b: seq<T>) returns (i: nat)
    requires a != [] && multiset(a) == multiset(b)
    ensures i < |b| && b[i] == a[|a| - 1]
    ensures multiset(a[..|a| - 1]) == multiset(b[..i] + b[i + 1..])
  {
    var n := |a| - 1;
    assert a[n] in multiset(b);
    i :| 0 <= i < |b| && b[i] == a[n];
    MultisetWithout(a, n);
    MultisetWithout(b, i);
    assert a[..n] + a[n + 1..] == a[..n];
  }

  lemma {:induction false} SumOfPermutation<K>(a: seq<map<K, nat>>, b: seq<map<K, nat>>, k: K)
    requires multiset(a) == multiset(b)
    ensures SumOf(a, k) == SumOf(b, k) && AllKeys(a) == AllKeys(b)
  {
    if a == [] {
      assert |multiset(b)| == 0;
    } else {
      var i := FindLast(a, b);
      SumOfRemoved(b, i, k);
      AllKeysOfRemoved(b, i);
      SumOfPermutation(a[..|a| - 1], b[..i] + b[i + 1..], k);
    }
  }

  /**
   Order independence: any two delivery orders of the same snapshots, and any visiting orders, give the
   same counters.
   */
  lemma DeliveryOrderIrrelevant<K>(touches: Event -> seq<Touch<K>>,
                                   events1: seq<Event>, a: seq<map<K, nat>>,
                                   events2: seq<Event>, b: seq<map<K, nat>>, capacity: nat, k: K)
    requires MergesOf(events1, touches, a) && MergesOf(events2, touches, b)
    requires multiset(a) == multiset(b) && |AllKeys(a)| <= capacity
    ensures var h1, h2 := TouchesOf(events1, touches), TouchesOf(events2, touches);
            && (Resident(h1, capacity, k) <==> Resident(h2, capacity, k))
            && ResidentCount(h1, capacity, k) == ResidentCount(h2, capacity, k) == Min(U32_MAX, SumOf(a, k))
  {
    SumOfPermutation(a, b, k);
    MergedSum(events1, touches, a, capacity, k);
    MergedSum(events2, touches, b, capacity, k);
  }

  /** On the cache itself: it stores the keys of the merged snapshots, each with the capped sum of its counts. */
  lemma MergedCounters<K>(cache: LruCache<K>, session: seq<Event>, touches: Event -> seq<Touch<K>>,
                          snapshots: seq<map<K, nat>>, k: K)
    requires cache.Valid() && cache.history == TouchesOf(session, touches)
    requires MergesOf(session, touches, snapshots) && |AllKeys(snapshots)| <= cache.capacity
    ensures k in cache.counts <==> k in AllKeys(snapshots)
    ensures k in cache.counts ==> cache.counts[k] == Min(U32_MAX, SumOf(snapshots, k))
  {
    hide ListsRecent, ResidentCount;
    ListedIffResident(cache.order, cache.history, cache.capacity, k);
    MergedSum(session, touches, snapshots, cache.capacity, k);
  }

  /** The cache stores the capped pointwise sums of the counters, and nothing else. */
  ghost predicate StoresSums<K(!new)>(cache: LruCache<K>, snapshots: seq<map<K, nat>>)
    reads cache
  {
    forall k ::
      && (k in cache.counts <==> k in AllKeys(snapshots))
      && (k in cache.counts ==> cache.counts[k] == Min(U32_MAX, SumOf(snapshots, k)))
  }

  ghost predicate StoresIfFitting<K(!new)>(cache: LruCache<K>, snapshots: seq<map<K, nat>>)
    reads cache
  {
    |AllKeys(snapshots)| <= cache.capacity ==> StoresSums(cache, snapshots)
  }

  lemma FittingSumsStored<K(!new)>(cache: LruCache<K>, session: seq<Event>, touches: Event -> seq<Touch<K>>,
                                   snapshots: seq<map<K, nat>>)
    requires cache.Valid() && cache.history == TouchesOf(session, touches)
    requires MergesOf(session, touches, snapshots)
    ensures StoresIfFitting(cache, snapshots)
  {
    hide MergesOf;
    if |AllKeys(snapshots)| <= cache.capacity {
      forall k: K
        ensures k in cache.counts <==> k in AllKeys(snapshots)
        ensures k in cache.counts ==> cache.counts[k] == Min(U32_MAX, SumOf(snapshots, k))
      {
        MergedCounters(cache, session, touches, snapshots, k);
      }
    }
  }

  // ----- Cumulative snapshots -----

  /** A snapshot taken after `cut` events includes event i: it came before, and no long gap after it. */
  ghost predicate InCut(created: int, events: seq<Event>, cut: nat, i: nat)
    requires cut <= |events|
  {
    SessionStart(created, events[..cut]) <= i < cut
  }

  /** The next event after event i that comes after a long gap; the number of events when there is none. */
  ghost function NextGap(created: int, events: seq<Event>, i: nat, from: nat): (g: nat)
    requires i < from <= |events|
    ensures from <= g <= |events| && (g < |events| ==> AfterGap(created, events, g))
    ensures forall j: nat :: from <= j < g ==> !AfterGap(created, events, j)
    decreases |events| - from
  {
    if from == |events| || AfterGap(created, events, from) then from else NextGap(created, events, i, from + 1)
  }

  ghost function GapAfter(created: int, events: seq<Event>, i: nat): (g: nat)
    requires i < |events|
    ensures i < g <= |events|
  {
    NextGap(created, events, i, i + 1)
  }

  lemma AfterGapInPrefix(created: int, events: seq<Event>, cut: nat, j: nat)
    requires j < cut <= |events|
    ensures AfterGap(created, events[..cut], j) <==> AfterGap(created, events, j)
  {
    assert events[..cut][..j] == events[..j];
  }

  /** What a gap does: the snapshots that include event i are those between it and the next gap. */
  lemma InCutIff(created: int, events: seq<Event>, cut: nat, i: nat)
    requires cut <= |events| && i < |events|
    ensures InCut(created, events, cut, i) <==> i < cut <= GapAfter(created, events, i)
  {
    if i < cut {
      var start, g := SessionStart(created, events[..cut]), GapAfter(created, events, i);
      SessionIsGapFreeSuffix(created, events[..cut]);
      if g < cut {
        AfterGapInPrefix(created, events, cut, g);
      } else if start > i {
        AfterGapInPrefix(created, events, cut, start);
      }
    }
  }

  ghost predicate WithinEvents(cuts: seq<nat>, events: seq<Event>) {
    forall j :: 0 <= j < |cuts| ==> cuts[j] <= |events|
  }

  /** How many of the snapshots, taken after `cuts` events each, include event i. */
  ghost function Covering(created: int, events: seq<Event>, cuts: seq<nat>, i: nat): nat
    requires WithinEvents(cuts, events)
  {
    if cuts == [] then 0
    else
      var n := |cuts| - 1;
      Covering(created, events, cuts[..n], i) + if InCut(created, events, cuts[n], i) then 1 else 0
  }

  /** The first n events of k, each weighted by the number of snapshots that include it. */
  ghost function Weighted<K>(created: int, events: seq<Event>, touches: Event -> seq<Touch<K>>, cuts: seq<nat>, k: K,
                             n: nat): nat
    requires WithinEvents(cuts, events) && n <= |events|
  {
    if n == 0 then 0
    else
      Weighted(created, events, touches, cuts, k, n - 1)
      + if Touch(k, 1) in touches(events[n - 1]) then Covering(created, events, cuts, n - 1) else 0
  }

  /** The events of k in the sessions of the snapshots, added up. */
  ghost function SessionSum<K>(created: int, events: seq<Event>, touches: Event -> seq<Touch<K>>, cuts: seq<nat>,
                               k: K): nat
    requires WithinEvents(cuts, events)
  {
    if cuts == [] then 0
    else
      var n := |cuts| - 1;
      SessionSum(created, events, touches, cuts[..n], k)
      + Occurrences(CurrentSession(created, events[..cuts[n]]), touches, k)
  }

  lemma {:induction false} OccurrencesConcat<K>(a: seq<Event>, b: seq<Event>, touches: Event -> seq<Touch<K>>, k: K)
    ensures Occurrences(a + b, touches, k) == Occurrences(a, touches, k) + Occurrences(b, touches, k)
  {
    if b == [] {
      assert a + b == a;
    } else {
      assert (a + b)[..|a + b| - 1] == a + b[..|b| - 1];
      OccurrencesConcat(a, b[..|b| - 1], touches, k);
    }
  }

  lemma {:induction false} NoSnapshots<K>(created: int, events: seq<Event>, touches: Event -> seq<Touch<K>>, k: K, n: nat)
    requires n <= |events|
    ensures Weighted(created, events, touches, [], k, n) == 0
  {
    if n > 0 {
      NoSnapshots(created, events, touches, k, n - 1);
    }
  }

  /** The events of k from `start` to `end` among the first n. */
  ghost function SlicePart<K>(events: seq<Event>, touches: Event -> seq<Touch<K>>, k: K, start: nat, end: nat, n: nat): nat
    requires start <= end <= |events| && n <= |events|
  {
    if n <= start then 0 else Occurrences(events[start..Min(n, end)], touches, k)
  }

  lemma SlicePartStep<K>(events: seq<Event>, touches: Event -> seq<Touch<K>>, k: K, start: nat, end: nat, n: nat)
    requires start <= end <= |events| && 0 < n <= |events|
    ensures SlicePart(events, touches, k, start, end, n) ==
            SlicePart(events, touches, k, start, end, n - 1)
            + if start <= n - 1 < end && Touch(k, 1) in touches(events[n - 1]) then 1 else 0
  {
    if start < n <= end {
      var slice := events[start..n];
      assert slice[..|slice| - 1] == events[start..n - 1] && slice[|slice| - 1] == events[n - 1];
      if start == n - 1 {
        assert slice[..|slice| - 1] == [] && |slice| == 1;
        assert Occurrences(slice[..|slice| - 1], touches, k) == 0;
      }
    } else if n > end && n - 1 <= start {
      assert events[start..end] == [];
    }
  }

  /** One more snapshot adds the events of its session among the first n. */
  lemma {:induction false} OneMoreSnapshot<K>(created: int, events: seq<Event>, touches: Event -> seq<Touch<K>>,
                                              cuts: seq<nat>, k: K, n: nat)
    requires WithinEvents(cuts, events) && cuts != [] && n <= |events|
    ensures var last := cuts[|cuts| - 1];
            Weighted(created, events, touches, cuts, k, n) ==
            Weighted(created, events, touches, cuts[..|cuts| - 1], k, n)
            + SlicePart(events, touches, k, SessionStart(created, events[..last]), last, n)
  {
    hide SlicePart, SessionStart;
    var last := cuts[|cuts| - 1];
    var start := SessionStart(created, events[..last]);
    if n > 0 {
      OneMoreSnapshot(created, events, touches, cuts, k, n - 1);
      SlicePartStep(events, touches, k, start, last, n);
    } else {
      NothingYet(events, touches, k, start, last);
    }
  }

  lemma NothingYet<K>(events: seq<Event>, touches: Event -> seq<Touch<K>>, k: K, start: nat, end: nat)
    requires start <= end <= |events|
    ensures SlicePart(events, touches, k, start, end, 0) == 0
  {
  }

  lemma WholeSession<K>(created: int, events: seq<Event>, touches: Event -> seq<Touch<K>>, k: K, cut: nat)
    requires cut <= |events|
    ensures SlicePart(events, touches, k, SessionStart(created, events[..cut]), cut, |events|) ==
            Occurrences(CurrentSession(created, events[..cut]), touches, k)
  {
    var start := SessionStart(created, events[..cut]);
    assert events[..cut][start..] == events[start..cut];
    if |events| <= start {
      assert events[start..cut] == [];
    }
  }

  /**
   Workers deliver cumulative clones, so what a merger adds up counts every event once per delivered
   snapshot whose session includes it, not once.
   */
  lemma {:induction false} SnapshotsRecount<K>(created: int, events: seq<Event>, touches: Event -> seq<Touch<K>>,
                                               cuts: seq<nat>, k: K)
    requires WithinEvents(cuts, events)
    ensures SessionSum(created, events, touches, cuts, k) == Weighted(created, events, touches, cuts, k, |events|)
  {
    if cuts == [] {
      NoSnapshots(created, events, touches, k, |events|);
    } else {
      var last := cuts[|cuts| - 1];
      SnapshotsRecount(created, events, touches, cuts[..|cuts| - 1], k);
      OneMoreSnapshot(created, events, touches, cuts, k, |events|);
      WholeSession(created, events, touches, k, last);
    }
  }

  /** The j-th counters are the clone of a history after cuts[j] events. */
  ghost predicate ClonesAt<K>(counters: seq<map<K, nat>>, created: int, events: seq<Event>, cuts: seq<nat>,
                              touches: Event -> seq<Touch<K>>, capacity: nat)
  {
    && WithinEvents(cuts, events) && |counters| == |cuts|
    && forall j :: 0 <= j < |cuts| ==>
         IsSnapshotOf(counters[j], TouchesOf(CurrentSession(created, events[..cuts[j]]), touches), capacity)
  }

  /** A clone's counter is the number of its session's events, when no key was evicted and nothing saturated. */
  lemma CloneCounts<K>(counters: map<K, nat>, created: int, events: seq<Event>, cut: nat,
                       touches: Event -> seq<Touch<K>>, capacity: nat, k: K)
    requires cut <= |events|
    requires IsSnapshotOf(counters, TouchesOf(CurrentSession(created, events[..cut]), touches), capacity)
    requires SingleTouches(events, touches)
    requires |KeysOf(TouchesOf(events, touches))| <= capacity && Occurrences(events, touches, k) <= U32_MAX
    ensures CountIn(counters, k) == Occurrences(CurrentSession(created, events[..cut]), touches, k)
  {
    hide TouchesOf, Occurrences, SessionStart, KeysOf, SingleTouches, Resident, ResidentCount, TotalCount;
    var start := SessionStart(created, events[..cut]);
    var session, h := events[start..cut], TouchesOf(events[start..cut], touches);
    assert events[..cut][start..] == session;
    SliceFits(events, start, cut, touches, k);
    TotalIsOccurrences(session, touches, k);
    CountExactWithinCapacity(h, capacity, k);
    if k !in KeysOf(h) {
      CountUntouched([], h, capacity, k);
      assert [] + h == h;
      NothingCounted(capacity, k);
    }
  }

  /** A slice of the events has no more keys, and no more of a key, than the whole. */
  lemma SliceFits<K>(events: seq<Event>, start: nat, cut: nat, touches: Event -> seq<Touch<K>>, k: K)
    requires start <= cut <= |events| && SingleTouches(events, touches)
    ensures SingleTouches(events[start..cut], touches)
    ensures KeysOf(TouchesOf(events[start..cut], touches)) <= KeysOf(TouchesOf(events, touches))
    ensures |KeysOf(TouchesOf(events[start..cut], touches))| <= |KeysOf(TouchesOf(events, touches))|
    ensures Occurrences(events[start..cut], touches, k) <= Occurrences(events, touches, k)
  {
    hide TouchesOf, Occurrences, KeysOf;
    var session := events[start..cut];
    assert events == (events[..start] + session) + events[cut..];
    TouchesConcat(events[..start] + session, events[cut..], touches);
    TouchesConcat(events[..start], session, touches);
    KeysOfConcat(TouchesOf(events[..start], touches), TouchesOf(session, touches));
    KeysOfConcat(TouchesOf(events[..start] + session, touches), TouchesOf(events[cut..], touches));
    SubsetSize(KeysOf(TouchesOf(session, touches)), KeysOf(TouchesOf(events, touches)));
    OccurrencesConcat(events[..start] + session, events[cut..], touches, k);
    OccurrencesConcat(events[..start], session, touches, k);
  }

  lemma ClonesHaveCuts<K>(counters: seq<map<K, nat>>, created: int, events: seq<Event>, cuts: seq<nat>,
                          touches: Event -> seq<Touch<K>>, capacity: nat)
    requires ClonesAt(counters, created, events, cuts, touches, capacity)
    ensures WithinEvents(cuts, events) && |counters| == |cuts|
  {
  }

  lemma LastClone<K>(counters: seq<map<K, nat>>, created: int, events: seq<Event>, cuts: seq<nat>,
                     touches: Event -> seq<Touch<K>>, capacity: nat)
    requires ClonesAt(counters, created, events, cuts, touches, capacity) && cuts != []
    ensures var n := |cuts| - 1;
            && |counters| == |cuts| && cuts[n] <= |events|
            && ClonesAt(counters[..n], created, events, cuts[..n], touches, capacity)
            && IsSnapshotOf(counters[n], TouchesOf(CurrentSession(created, events[..cuts[n]]), touches), capacity)
  {
    hide IsSnapshotOf, CurrentSession;
  }

  lemma NoClones<K>(created: int, events: seq<Event>, touches: Event -> seq<Touch<K>>, k: K)
    ensures SessionSum(created, events, touches, [], k) == 0
  {
  }

  lemma SessionSumSnoc<K>(created: int, events: seq<Event>, touches: Event -> seq<Touch<K>>, cuts: seq<nat>, k: K)
    requires WithinEvents(cuts, events) && cuts != []
    ensures var n := |cuts| - 1;
            SessionSum(created, events, touches, cuts, k) ==
            SessionSum(created, events, touches, cuts[..n], k)
            + Occurrences(CurrentSession(created, events[..cuts[n]]), touches, k)
  {
  }

  /**
   What the clones of a history hold for a key, added up: each of the key's events once for every clone
   whose session includes it.
   */
  lemma {:induction false} ClonesAddUp<K>(counters: seq<map<K, nat>>, created: int, events: seq<Event>, cuts: seq<nat>,
                                          touches: Event -> seq<Touch<K>>, capacity: nat, k: K)
    requires ClonesAt(counters, created, events, cuts, touches, capacity) && SingleTouches(events, touches)
    requires |KeysOf(TouchesOf(events, touches))| <= capacity && Occurrences(events, touches, k) <= U32_MAX
    ensures SumOf(counters, k) == SessionSum(created, events, touches, cuts, k)
    ensures SumOf(counters, k) == Weighted(created, events, touches, cuts, k, |events|)
  {
    hide ClonesAt, IsSnapshotOf, SingleTouches, Occurrences, TouchesOf, KeysOf, Weighted, SessionSum, CurrentSession;
    ClonesHaveCuts(counters, created, events, cuts, touches, capacity);
    SnapshotsRecount(created, events, touches, cuts, k);
    if cuts == [] {
      NoClones(created, events, touches, k);
    } else {
      var n := |cuts| - 1;
      LastClone(counters, created, events, cuts, touches, capacity);
      ClonesAddUp(counters[..n], created, events, cuts[..n], touches, capacity, k);
      CloneCounts(counters[n], created, events, cuts[n], touches, capacity, k);
      SessionSumSnoc(created, events, touches, cuts, k);
    }
  }

  // ----- The merger thread -----

  /** What one turn of the merger's loop meets: the flag at the loop head, then the receive. */
  datatype Turn = Turn(shutdownAtHead: bool, receipt: Receipt)
  datatype Receipt = Received(snapshot: Snapshot, now: int) | Timeout(shutdown: bool) | Disconnected

  /** The snapshots the loop takes in before it stops: at a shutdown, a disconnect or the end of the script. */
  ghost function Delivered(script: seq<Turn>): seq<(Snapshot, int)> {
    if script == [] || script[0].shutdownAtHead then []
    else
      match script[0].receipt
      case Received(snapshot, now) => [(snapshot, now)] + Delivered(script[1..])
      case Timeout(shutdown) => if shutdown then [] else Delivered(script[1..])
      case Disconnected => []
  }

  function MergedIn(t: Turn): Option<(Snapshot, int)> {
    if t.receipt.Received? then Some((t.receipt.snapshot, t.receipt.now)) else None
  }

  predicate OpenHead(t: Turn) {
    !t.shutdownAtHead
  }

  predicate GoesOn(t: Turn) {
    t.receipt != Timeout(true) && t.receipt != Disconnected
  }

  lemma {:induction false} DeliveredTaken(script: seq<Turn>) returns (at: seq<nat>)
    ensures Takes(script, Delivered(script), at, MergedIn, OpenHead, GoesOn)
  {
    hide Takes;
    if script == [] || script[0].shutdownAtHead {
      TakesNothing(script, MergedIn, OpenHead, GoesOn);
      at := [];
    } else {
      var rest: seq<nat>, taken := [], [];
      if GoesOn(script[0]) {
        rest := DeliveredTaken(script[1..]);
        taken := Delivered(script[1..]);
      }
      var own := MergedIn(script[0]);
      assert Delivered(script) == (if own.Some? then [own.value] else []) + taken;
      at := TakesCons(script, taken, rest, MergedIn, OpenHead, GoesOn);
    }
  }

  /**
   Which snapshots are taken in: that of a turn if and only if no turn up to it finds the flag at the loop's
   head, and none before it times out with the flag set or finds the channel disconnected.
   */
  lemma DeliveredByPosition(script: seq<Turn>) returns (at: seq<nat>)
    ensures Ascending(at, |script|) && |Delivered(script)| == |at|
    ensures forall j :: 0 <= j < |at| ==>
              script[at[j]].receipt == Received(Delivered(script)[j].0, Delivered(script)[j].1)
    ensures forall i: nat :: i < |script| ==>
              (i in at <==>
               && script[i].receipt.Received?
               && (forall k :: 0 <= k <= i ==> !script[k].shutdownAtHead)
               && (forall k :: 0 <= k < i ==> script[k].receipt != Timeout(true) && script[k].receipt != Disconnected))
  {
    hide Delivered;
    at := DeliveredTaken(script);
    forall j | 0 <= j < |at|
      ensures script[at[j]].receipt == Received(Delivered(script)[j].0, Delivered(script)[j].1)
    {
      assert MergedIn(script[at[j]]) == Some(Delivered(script)[j]);
    }
    forall i: nat | i < |script|
      ensures i in at <==>
              && script[i].receipt.Received?
              && (forall k :: 0 <= k <= i ==> !script[k].shutdownAtHead)
              && (forall k :: 0 <= k < i ==> script[k].receipt != Timeout(true) && script[k].receipt != Disconnected)
    {
      assert Reached(script, i, OpenHead, GoesOn) <==>
             && (forall k :: 0 <= k <= i ==> OpenHead(script[k]))
             && (forall k :: 0 <= k < i ==> GoesOn(script[k]));
      assert MergedIn(script[i]).Some? <==> script[i].receipt.Received?;
    }
  }

  /** A receive that times out with the flag clear changes nothing, wherever it comes. */
  lemma {:induction false} QuietTurnIrrelevant(script: seq<Turn>, i: nat)
    requires i <= |script|
    ensures Delivered(script[..i] + [Turn(false, Timeout(false))] + script[i..]) == Delivered(script)
  {
    var quiet := [Turn(false, Timeout(false))];
    var longer := script[..i] + quiet + script[i..];
    if i == 0 {
      assert longer == quiet + script && longer[1..] == script;
    } else {
      assert longer[0] == script[0];
      assert longer[1..] == script[1..][..i - 1] + quiet + script[1..][i - 1..];
      QuietTurnIrrelevant(script[1..], i - 1);
    }
  }

  function Ips(s: Snapshot): map<string, nat> {
    s.ips
  }

  function Users(s: Snapshot): map<string, nat> {
    s.users
  }

  function Rules(s: Snapshot): map<nat, nat> {
    s.rules
  }

  /** One kind of counters, snapshot by snapshot. */
  function MapsOf<K>(snapshots: seq<Snapshot>, kind: Snapshot -> map<K, nat>): seq<map<K, nat>> {
    seq(|snapshots|, i requires 0 <= i < |snapshots| => kind(snapshots[i]))
  }

  function SnapshotsOf(delivered: seq<(Snapshot, int)>): seq<Snapshot> {
    seq(|delivered|, i requires 0 <= i < |delivered| => delivered[i].0)
  }

  ghost predicate MergesAll(events: seq<Event>, delivered: seq<(Snapshot, int)>) {
    |events| == |delivered| && forall j :: 0 <= j < |events| ==> MergeOf(events[j], delivered[j].0, delivered[j].1)
  }

  /** The history stores the capped sums of the snapshots, kind by kind wherever all keys of the kind fit. */
  ghost predicate StoresFittingSums(history: AlertHistory, snapshots: seq<Snapshot>)
    reads history.Repr()
  {
    && StoresIfFitting(history.srcIps, MapsOf(snapshots, Ips))
    && StoresIfFitting(history.users, MapsOf(snapshots, Users))
    && StoresIfFitting(history.rules, MapsOf(snapshots, Rules))
  }

  lemma MergesKind<K>(events: seq<Event>, touches: Event -> seq<Touch<K>>, snapshots: seq<Snapshot>,
                      kind: Snapshot -> map<K, nat>)
    requires |events| == |snapshots|
    requires forall j :: 0 <= j < |events| ==> Enumerates(touches(events[j]), kind(snapshots[j]))
    ensures MergesOf(events, touches, MapsOf(snapshots, kind))
  {
  }

  lemma MergeOfKinds(e: Event, other: Snapshot, now: int)
    requires MergeOf(e, other, now)
    ensures Enumerates(IpTouches(e), Ips(other)) && Enumerates(UserTouches(e), Users(other))
    ensures Enumerates(RuleTouches(e), Rules(other))
  {
    hide Enumerates;
  }

  /** After merging nothing but these snapshots, a history stores the sums of those since the last long gap. */
  lemma MergedHistory(history: AlertHistory, delivered: seq<(Snapshot, int)>)
    requires history.Valid() && MergesAll(history.events, delivered)
    ensures StoresFittingSums(history, SnapshotsOf(delivered[SessionStart(history.created, history.events)..]))
  {
    hide MergesOf, StoresSums, MergeOf, Enumerates, ListsRecent, ResidentCount, MapsOf, IpTouches, UserTouches, RuleTouches,
         Ips, Users, Rules, AllKeys;
    var start := SessionStart(history.created, history.events);
    var session, snapshots := history.Session(), SnapshotsOf(delivered[start..]);
    forall j | 0 <= j < |session|
      ensures Enumerates(IpTouches(session[j]), Ips(snapshots[j]))
      ensures Enumerates(UserTouches(session[j]), Users(snapshots[j]))
      ensures Enumerates(RuleTouches(session[j]), Rules(snapshots[j]))
    {
      assert session[j] == history.events[start + j] && snapshots[j] == delivered[start + j].0;
      MergeOfKinds(session[j], snapshots[j], delivered[start + j].1);
    }
    MergesKind(session, IpTouches, snapshots, Ips);
    MergesKind(session, UserTouches, snapshots, Users);
    MergesKind(session, RuleTouches, snapshots, Rules);
    FittingSumsStored(history.srcIps, session, IpTouches, MapsOf(snapshots, Ips));
    FittingSumsStored(history.users, session, UserTouches, MapsOf(snapshots, Users));
    FittingSumsStored(history.rules, session, RuleTouches, MapsOf(snapshots, Rules));
  }

  lemma OneSession(created: int, events: seq<Event>)
    requires forall i: nat :: 0 < i < |events| ==> !AfterGap(created, events, i)
    ensures SessionStart(created, events) == 0
  {
    SessionIsGapFreeSuffix(created, events);
  }

  /** No merge comes a long gap after the one before it, in time or in the other history's own time. */
  predicate Unbroken(delivered: seq<(Snapshot, int)>) {
    forall i :: 0 < i < |delivered| ==>
      var (other, now) := delivered[i - 1];
      !Expired(delivered[i].1, if now > other.last then now else other.last)
  }

  /** Then all of them count. */
  lemma UnbrokenHistory(history: AlertHistory, delivered: seq<(Snapshot, int)>)
    requires history.Valid() && MergesAll(history.events, delivered) && Unbroken(delivered)
    ensures StoresFittingSums(history, SnapshotsOf(delivered))
  {
    hide StoresFittingSums, Expired, AlertHistory.Valid;
    forall i: nat | 0 < i < |history.events|
      ensures !AfterGap(history.created, history.events, i)
    {
      assert MergeOf(history.events[i], delivered[i].0, delivered[i].1);
      assert MergeOf(history.events[i - 1], delivered[i - 1].0, delivered[i - 1].1);
      assert history.events[..i] == history.events[..i - 1] + [history.events[i - 1]];
      LastTimeStep(history.created, history.events[..i - 1], history.events[i - 1]);
    }
    OneSession(history.created, history.events);
    MergedHistory(history, delivered);
    assert delivered[0..] == delivered;
  }

  /** state_merger_thread over a script of turns; saving to disk is not part of this model. */
  method StateMergerThread(history: AlertHistory, script: seq<Turn>) returns (updatesProcessed: nat, ghost at: seq<nat>)
    requires history.Valid()
    modifies history.Repr()
    ensures Ascending(at, |script|) && |history.events| == |old(history.events)| + |at|
    ensures forall j :: 0 <= j < |at| ==>
              && script[at[j]].receipt.Received?
              && MergeOf(history.events[|old(history.events)| + j], script[at[j]].receipt.snapshot, script[at[j]].receipt.now)
    ensures forall i: nat :: i < |script| ==>
              (i in at <==>
               && script[i].receipt.Received?
               && (forall k :: 0 <= k <= i ==> !script[k].shutdownAtHead)
               && (forall k :: 0 <= k < i ==> script[k].receipt != Timeout(true) && script[k].receipt != Disconnected))
    ensures history.Valid() && updatesProcessed == Min(U64_MAX, |Delivered(script)|)
    ensures |history.events| == |old(history.events)| + |Delivered(script)|
    ensures history.events[..|old(history.events)|] == old(history.events)
    ensures MergesAll(history.events[|old(history.events)|..], Delivered(script))
    ensures old(history.events) == [] ==>
              StoresFittingSums(history, SnapshotsOf(Delivered(script)[SessionStart(history.created, history.events)..]))
    ensures old(history.events) == [] && Unbroken(Delivered(script)) ==>
              StoresFittingSums(history, SnapshotsOf(Delivered(script)))
  {
    hide StoresFittingSums, Unbroken, AlertHistory.Valid, MergeOf, Delivered;
    at := DeliveredByPosition(script);
    updatesProcessed := MergerLoop(history, script);
    forall j | 0 <= j < |at|
      ensures MergeOf(history.events[|old(history.events)| + j], script[at[j]].receipt.snapshot, script[at[j]].receipt.now)
    {
      assert MergeOf(history.events[|old(history.events)|..][j], Delivered(script)[j].0, Delivered(script)[j].1);
    }
    if old(history.events) == [] {
      assert history.events[0..] == history.events;
      MergedHistory(history, Delivered(script));
      if Unbroken(Delivered(script)) {
        UnbrokenHistory(history, Delivered(script));
      }
    }
  }

  /** The loop. */
  method MergerLoop(history: AlertHistory, script: seq<Turn>) returns (updatesProcessed: nat)
    requires history.Valid()
    modifies history.Repr()
    ensures history.Valid() && updatesProcessed == Min(U64_MAX, |Delivered(script)|)
    ensures |history.events| == |old(history.events)| + |Delivered(script)|
    ensures history.events[..|old(history.events)|] == old(history.events)
    ensures MergesAll(history.events[|old(history.events)|..], Delivered(script))
  {
    hide MergeOf, ListsRecent, ResidentCount, CountsSession, LastTime;
    ghost var n, all, merged := |history.events|, Delivered(script), 0;
    updatesProcessed := 0;
    var i := 0;
    while i < |script| && !script[i].shutdownAtHead
      invariant i <= |script| && merged <= |all| && updatesProcessed == Min(U64_MAX, merged)
      invariant history.Valid() && all[merged..] == Delivered(script[i..])
      invariant |history.events| == n + merged && history.events[..n] == old(history.events)
      invariant forall j :: 0 <= j < merged ==> MergeOf(history.events[n + j], all[j].0, all[j].1)
    {
      assert script[i..][0] == script[i] && script[i..][1..] == script[i + 1..];
      match script[i].receipt {
        case Received(snapshot, now) =>
          assert all[merged..][0] == (snapshot, now);
          assert all[merged..][1..] == all[merged + 1..];
          updatesProcessed := if updatesProcessed < U64_MAX then updatesProcessed + 1 else updatesProcessed;
          history.Merge(snapshot, now);
          merged := merged + 1;
        case Timeout(shutdown) =>
          if shutdown {
            break;
          }
        case Disconnected =>
          break;
      }
      i := i + 1;
    }
  }
}
