/**
 From the workers to the merger: what the merged state holds of the events of all the workers, in
 whatever order their snapshots arrive.
 */
module Handover {
  import opened Collections
  import opened Numbers
  import opened Lru
  import opened Behavioral
  import opened StateMerger
  import opened Workers

  /** One worker's run: when its history was created, the items it took, and whether its last snapshot found room. */
  datatype WorkerRun = WorkerRun(created: int, items: seq<Item>, finalRoom: bool)

  /** Each worker delivered what its thread delivers. */
  ghost predicate Delivers(runs: seq<WorkerRun>, handed: seq<seq<Snapshot>>) {
    && |runs| == |handed|
    && forall w :: 0 <= w < |runs| ==>
         Cumulative(handed[w], runs[w].created, EventsOf(runs[w].items), Cuts(runs[w].items, runs[w].finalRoom))
  }

  /** The same for one kind of counters. */
  ghost predicate DeliversClones<K>(runs: seq<WorkerRun>, handed: seq<seq<Snapshot>>, kind: Snapshot -> map<K, nat>,
                                    touches: Event -> seq<Touch<K>>, capacity: nat)
  {
    && |runs| == |handed|
    && forall w :: 0 <= w < |runs| ==>
         ClonesAt(MapsOf(handed[w], kind), runs[w].created, EventsOf(runs[w].items),
                  Cuts(runs[w].items, runs[w].finalRoom), touches, capacity)
  }

  /** The snapshots of all the workers, each once, in any order; interleavings are among them. */
  ghost predicate Gathers(snapshots: seq<Snapshot>, handed: seq<seq<Snapshot>>) {
    multiset(snapshots) == multiset(Flatten(handed))
  }

  /** All keys that any worker counted. */
  ghost function KeysOfRuns<K>(runs: seq<WorkerRun>, touches: Event -> seq<Touch<K>>): set<K> {
    if runs == [] then {}
    else
      KeysOfRuns(runs[..|runs| - 1], touches) + KeysOf(TouchesOf(EventsOf(runs[|runs| - 1].items), touches))
  }

  /** The events of k of one worker, each as often as it delivered a snapshot that includes it. */
  ghost function RunWeight<K>(run: WorkerRun, touches: Event -> seq<Touch<K>>, k: K): nat {
    var events, cuts := EventsOf(run.items), Cuts(run.items, run.finalRoom);
    Weighted(run.created, events, touches, cuts, k, |events|)
  }

  ghost function TotalWeight<K>(runs: seq<WorkerRun>, touches: Event -> seq<Touch<K>>, k: K): nat {
    if runs == [] then 0
    else TotalWeight(runs[..|runs| - 1], touches, k) + RunWeight(runs[|runs| - 1], touches, k)
  }

  /** No worker's own counter of k saturates. */
  ghost predicate Unsaturated<K>(runs: seq<WorkerRun>, touches: Event -> seq<Touch<K>>, k: K) {
    forall w :: 0 <= w < |runs| ==> Occurrences(EventsOf(runs[w].items), touches, k) <= U32_MAX
  }

  // ----- Sums over concatenations and permutations -----

  lemma {:induction false} SumOfConcat<K>(a: seq<map<K, nat>>, b: seq<map<K, nat>>, k: K)
    ensures SumOf(a + b, k) == SumOf(a, k) + SumOf(b, k) && AllKeys(a + b) == AllKeys(a) + AllKeys(b)
  {
    if b == [] {
      assert a + b == a;
    } else {
      assert (a + b)[..|a + b| - 1] == a + b[..|b| - 1];
      SumOfConcat(a, b[..|b| - 1], k);
    }
  }

  lemma MapsOfConcat<K>(a: seq<Snapshot>, b: seq<Snapshot>, kind: Snapshot -> map<K, nat>)
    ensures MapsOf(a + b, kind) == MapsOf(a, kind) + MapsOf(b, kind)
  {
  }

  lemma {:induction false} MapsOfPermutation<K>(a: seq<Snapshot>, b: seq<Snapshot>, kind: Snapshot -> map<K, nat>)
    requires multiset(a) == multiset(b)
    ensures multiset(MapsOf(a, kind)) == multiset(MapsOf(b, kind))
  {
    if a == [] {
      assert |multiset(b)| == 0;
    } else {
      var n := |a| - 1;
      var i := FindLast(a, b);
      MapsOfPermutation(a[..n], b[..i] + b[i + 1..], kind);
      var ma, mb := MapsOf(a, kind), MapsOf(b, kind);
      assert MapsOf(a[..n], kind) == ma[..n] && ma == ma[..n] + [ma[n]];
      assert MapsOf(b[..i] + b[i + 1..], kind) == mb[..i] + mb[i + 1..];
      MultisetWithout(mb, i);
    }
  }

  // ----- One worker after the other -----

  /** A clone has no keys but those of its worker's events. */
  lemma {:induction false} ClonesKeys<K>(counters: seq<map<K, nat>>, created: int, events: seq<Event>, cuts: seq<nat>,
                                         touches: Event -> seq<Touch<K>>, capacity: nat, k: K)
    requires ClonesAt(counters, created, events, cuts, touches, capacity) && SingleTouches(events, touches)
    ensures AllKeys(counters) <= KeysOf(TouchesOf(events, touches))
  {
    hide ClonesAt, SingleTouches, TouchesOf, KeysOf, CurrentSession;
    ClonesHaveCuts(counters, created, events, cuts, touches, capacity);
    if cuts != [] {
      var n := |cuts| - 1;
      LastClone(counters, created, events, cuts, touches, capacity);
      ClonesKeys(counters[..n], created, events, cuts[..n], touches, capacity, k);
      CutKeys(created, events, cuts[n], touches, k);
    }
  }

  lemma CutKeys<K>(created: int, events: seq<Event>, cut: nat, touches: Event -> seq<Touch<K>>, k: K)
    requires cut <= |events| && SingleTouches(events, touches)
    ensures KeysOf(TouchesOf(CurrentSession(created, events[..cut]), touches)) <= KeysOf(TouchesOf(events, touches))
  {
    hide SingleTouches, TouchesOf, KeysOf;
    var start := SessionStart(created, events[..cut]);
    SliceFits(events, start, cut, touches, k);
    assert events[..cut][start..] == events[start..cut];
  }

  lemma {:induction false} CountedAreUpdates(items: seq<Item>)
    ensures forall e :: e in EventsOf(items) ==> e.Updated?
  {
    if items != [] {
      CountedAreUpdates(items[..|items| - 1]);
    }
  }

  /** Every worker counts each event once. */
  ghost predicate CountsOnce<K>(touches: Event -> seq<Touch<K>>) {
    forall items: seq<Item> :: SingleTouches(EventsOf(items), touches)
  }

  lemma WorkersCountOnce()
    ensures CountsOnce(IpTouches) && CountsOnce(UserTouches) && CountsOnce(RuleTouches)
  {
    hide EventsOf, SingleTouches;
    forall items: seq<Item>
      ensures SingleTouches(EventsOf(items), IpTouches) && SingleTouches(EventsOf(items), UserTouches)
      ensures SingleTouches(EventsOf(items), RuleTouches)
    {
      CountedAreUpdates(items);
      UpdatesTouchOnce(EventsOf(items));
    }
  }

  lemma OneRunAddsUp<K>(run: WorkerRun, snapshots: seq<Snapshot>, kind: Snapshot -> map<K, nat>,
                        touches: Event -> seq<Touch<K>>, capacity: nat, k: K)
    requires ClonesAt(MapsOf(snapshots, kind), run.created, EventsOf(run.items), Cuts(run.items, run.finalRoom), touches,
                      capacity)
    requires CountsOnce(touches) && |KeysOf(TouchesOf(EventsOf(run.items), touches))| <= capacity
    requires Occurrences(EventsOf(run.items), touches, k) <= U32_MAX
    ensures SumOf(MapsOf(snapshots, kind), k) == RunWeight(run, touches, k)
    ensures AllKeys(MapsOf(snapshots, kind)) <= KeysOf(TouchesOf(EventsOf(run.items), touches))
  {
    hide ClonesAt, SingleTouches, EventsOf, Cuts, TouchesOf, KeysOf, Occurrences, Weighted, SumOf, AllKeys, MapsOf;
    var events, cuts := EventsOf(run.items), Cuts(run.items, run.finalRoom);
    assert SingleTouches(events, touches);
    ClonesAddUp(MapsOf(snapshots, kind), run.created, events, cuts, touches, capacity, k);
    ClonesKeys(MapsOf(snapshots, kind), run.created, events, cuts, touches, capacity, k);
  }

  lemma {:induction false} HandedAddUp<K>(runs: seq<WorkerRun>, handed: seq<seq<Snapshot>>, kind: Snapshot -> map<K, nat>,
                                          touches: Event -> seq<Touch<K>>, capacity: nat, k: K)
    requires DeliversClones(runs, handed, kind, touches, capacity) && CountsOnce(touches)
    requires |KeysOfRuns(runs, touches)| <= capacity && Unsaturated(runs, touches, k)
    ensures SumOf(MapsOf(Flatten(handed), kind), k) == TotalWeight(runs, touches, k)
    ensures AllKeys(MapsOf(Flatten(handed), kind)) <= KeysOfRuns(runs, touches)
  {
    hide ClonesAt, CountsOnce, EventsOf, Cuts, TouchesOf, KeysOf, Occurrences, RunWeight;
    if runs != [] {
      var n := |runs| - 1;
      var before, last := runs[..n], runs[n];
      var own := KeysOf(TouchesOf(EventsOf(last.items), touches));
      SubsetSize(KeysOfRuns(before, touches), KeysOfRuns(runs, touches));
      SubsetSize(own, KeysOfRuns(runs, touches));
      HandedAddUp(before, handed[..n], kind, touches, capacity, k);
      OneRunAddsUp(last, handed[n], kind, touches, capacity, k);
      MapsOfConcat(Flatten(handed[..n]), handed[n], kind);
      SumOfConcat(MapsOf(Flatten(handed[..n]), kind), MapsOf(handed[n], kind), k);
    }
  }

  // ----- The merged state -----

  /** The cache holds, of each key, the capped number of all workers' events, weighted by their snapshots. */
  ghost predicate HoldsWeights<K(!new)>(cache: LruCache<K>, runs: seq<WorkerRun>, touches: Event -> seq<Touch<K>>)
    reads cache
  {
    |KeysOfRuns(runs, touches)| <= cache.capacity ==>
      forall k :: Unsaturated(runs, touches, k) ==>
        CountIn(cache.counts, k) == Min(U32_MAX, TotalWeight(runs, touches, k))
  }

  lemma NoSumWithoutKey<K>(counters: seq<map<K, nat>>, k: K)
    ensures k !in AllKeys(counters) ==> SumOf(counters, k) == 0
  {
    if counters != [] {
      NoSumWithoutKey(counters[..|counters| - 1], k);
    }
  }

  lemma WeightsStored<K(!new)>(cache: LruCache<K>, snapshots: seq<Snapshot>, runs: seq<WorkerRun>,
                               handed: seq<seq<Snapshot>>, kind: Snapshot -> map<K, nat>, touches: Event -> seq<Touch<K>>)
    requires StoresIfFitting(cache, MapsOf(snapshots, kind)) && Gathers(snapshots, handed)
    requires DeliversClones(runs, handed, kind, touches, cache.capacity) && CountsOnce(touches)
    ensures HoldsWeights(cache, runs, touches)
  {
    hide DeliversClones, CountsOnce, KeysOfRuns, Unsaturated, TotalWeight, SumOf, AllKeys, MapsOf, Flatten;
    var all, flat := MapsOf(snapshots, kind), MapsOf(Flatten(handed), kind);
    MapsOfPermutation(snapshots, Flatten(handed), kind);
    if |KeysOfRuns(runs, touches)| <= cache.capacity {
      forall k | Unsaturated(runs, touches, k)
        ensures CountIn(cache.counts, k) == Min(U32_MAX, TotalWeight(runs, touches, k))
      {
        HandedAddUp(runs, handed, kind, touches, cache.capacity, k);
        SumOfPermutation(all, flat, k);
        SubsetSize(AllKeys(all), KeysOfRuns(runs, touches));
        NoSumWithoutKey(all, k);
      }
    }
  }

  /**
   From the workers' events to the merged state: whatever the order in which the snapshots of all the
   workers arrive, when no long gap comes between the merges, the merged history holds for every
   address, user and rule the capped number of its events over all the workers, each event counted once
   for every delivered snapshot that includes it, for each kind whose keys fit.
   */
  lemma MergedFromWorkers(history: AlertHistory, delivered: seq<(Snapshot, int)>, runs: seq<WorkerRun>,
                          handed: seq<seq<Snapshot>>)
    requires history.Valid() && MergesAll(history.events, delivered) && Unbroken(delivered)
    requires Delivers(runs, handed) && Gathers(SnapshotsOf(delivered), handed)
    ensures HoldsWeights(history.srcIps, runs, IpTouches)
    ensures HoldsWeights(history.users, runs, UserTouches)
    ensures HoldsWeights(history.rules, runs, RuleTouches)
  {
    hide MergesAll, Unbroken, Gathers, HoldsWeights, Cumulative, ClonesAt, EventsOf, Cuts, StoresIfFitting, CountsOnce,
         ListsRecent, CountsSession, LastTime;
    UnbrokenHistory(history, delivered);
    WorkersCountOnce();
    forall w | 0 <= w < |runs|
      ensures var events, cuts := EventsOf(runs[w].items), Cuts(runs[w].items, runs[w].finalRoom);
              && ClonesAt(MapsOf(handed[w], Ips), runs[w].created, events, cuts, IpTouches, MAX_UNIQUE_IPS_TO_TRACK)
              && ClonesAt(MapsOf(handed[w], Users), runs[w].created, events, cuts, UserTouches, MAX_UNIQUE_USERS_TO_TRACK)
              && ClonesAt(MapsOf(handed[w], Rules), runs[w].created, events, cuts, RuleTouches, MAX_RULES_TO_TRACK)
    {
      DeliveredClones(handed[w], runs[w].created, EventsOf(runs[w].items), Cuts(runs[w].items, runs[w].finalRoom));
    }
    var snapshots := SnapshotsOf(delivered);
    WeightsStored(history.srcIps, snapshots, runs, handed, Ips, IpTouches);
    WeightsStored(history.users, snapshots, runs, handed, Users, UserTouches);
    WeightsStored(history.rules, snapshots, runs, handed, Rules, RuleTouches);
  }
}
