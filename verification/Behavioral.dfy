/**
 The behavioural history: three LRU counter caches that are cleared after a quiet gap.
 Every history carries a ghost record of its updates and merges; Valid() says that each cache is
 exactly what that record's current session (the events since the last long gap) determines.
 Times are nanoseconds.
 */
module Behavioral {
  import opened Wrappers
  import opened Json
  import opened Collections
  import opened Numbers
  import opened Lru

  const MAX_UNIQUE_IPS_TO_TRACK: nat := 250_000
  const MAX_UNIQUE_USERS_TO_TRACK: nat := 100_000
  const MAX_RULES_TO_TRACK: nat := 10_000
  const BEHAVIOR_WINDOW_MINUTES: int := 5
  const HIGH_SEVERITY_THRESHOLD: nat := 10

  // ----- Time -----

  /** Integer division that truncates toward zero. */
  function TruncatingDiv(a: int, b: int): int
    requires b > 0
  {
    if a >= 0 then a / b else -((-a) / b)
  }

  /** TimeDelta::num_minutes: whole seconds first, then whole minutes. */
  function NumMinutes(delta: int): int {
    TruncatingDiv(TruncatingDiv(delta, SECOND), 60)
  }

  predicate Expired(now: int, last: int) {
    NumMinutes(now - last) > BEHAVIOR_WINDOW_MINUTES
  }

  /** "More than 5 minutes" is a gap of at least 360 seconds; a clock that ran backwards never expires. */
  lemma ExpiredMeansSixMinutes(now: int, last: int)
    ensures Expired(now, last) <==> now - last >= 360 * SECOND
  {
    var d := now - last;
    if d >= 0 {
      var s := d / SECOND;
      assert s * SECOND <= d < (s + 1) * SECOND;
      assert s / 60 > 5 <==> s >= 360;
    }
  }

  // ----- The fields a log is counted under -----

  /** get(..).or_else(..).or_else(..).and_then(as_str): the first key present decides, even if it holds no string. */
  function SourceIp(log: Value): Option<string> {
    var field := if Get(log, "source_address").Some? then Get(log, "source_address")
                 else if Get(log, "srcip").Some? then Get(log, "srcip")
                 else Get(log, "src");
    if field.Some? then AsStr(field.value) else None
  }

  function User(log: Value): Option<string> {
    var field := Get(log, "user");
    if field.Some? then AsStr(field.value) else None
  }

  /** logid as a u32; larger numbers are skipped. */
  function RuleId(log: Value): Option<nat> {
    var field := Get(log, "logid");
    if field.Some? && AsU64(field.value).Some? && AsU64(field.value).value <= U32_MAX
    then AsU64(field.value) else None
  }

  // ----- What a log names, by its members -----

  predicate Has(log: Value, key: string, v: Value) {
    log.Object? && Member(key, v) in log.members
  }

  predicate Lacks(log: Value, key: string) {
    log.Object? ==> forall m :: m in log.members ==> m.key != key
  }

  /** No key is repeated, as in every object serde_json builds. */
  predicate Sound(log: Value) {
    log.Object? ==> UniqueKeys(log.members)
  }

  /** The first of source_address, srcip and src that is present is this text. */
  predicate NamesAddress(log: Value, ip: string) {
    || Has(log, "source_address", String(ip))
    || (Lacks(log, "source_address") && Has(log, "srcip", String(ip)))
    || (Lacks(log, "source_address") && Lacks(log, "srcip") && Has(log, "src", String(ip)))
  }

  predicate NamesUser(log: Value, user: string) {
    Has(log, "user", String(user))
  }

  /** logid is this unsigned integer, and it is no larger than u32::MAX. */
  predicate NamesRule(log: Value, id: nat) {
    Has(log, "logid", Num(PosInt(id))) && id <= U32_MAX
  }

  lemma GetIsMember(log: Value, key: string, v: Value)
    requires Sound(log)
    ensures Get(log, key) == Some(v) <==> Has(log, key, v)
    ensures Get(log, key).None? <==> Lacks(log, key)
  {
    if log.Object? {
      LookupMember(log.members, key);
      if Has(log, key, v) {
        assert Member(key, v) in log.members;
      }
      if Get(log, key).Some? {
        assert Member(key, Get(log, key).value) in log.members;
      }
    }
  }

  lemma AddressNamed(log: Value, ip: string)
    requires Sound(log)
    ensures SourceIp(log) == Some(ip) <==> NamesAddress(log, ip)
  {
    hide Has, Lacks, Get;
    GetIsMember(log, "source_address", String(ip));
    GetIsMember(log, "srcip", String(ip));
    GetIsMember(log, "src", String(ip));
  }

  lemma UserNamed(log: Value, user: string)
    requires Sound(log)
    ensures User(log) == Some(user) <==> NamesUser(log, user)
  {
    hide Has, Lacks, Get;
    GetIsMember(log, "user", String(user));
  }

  lemma RuleNamed(log: Value, id: nat)
    requires Sound(log)
    ensures RuleId(log) == Some(id) <==> NamesRule(log, id)
  {
    hide Has, Lacks, Get;
    GetIsMember(log, "logid", Num(PosInt(id)));
  }

  // ----- The ghost record of a history -----

  /** An update at a time, or the merge of another history's counters in the order they were visited. */
  datatype Event =
    | Updated(at: int, log: Value)
    | Merged(at: int, otherLast: int, ips: seq<Touch<string>>, users: seq<Touch<string>>, rules: seq<Touch<nat>>)

  function Once<K>(key: Option<K>): seq<Touch<K>> {
    if key.Some? then [Touch(key.value, 1)] else []
  }

  function IpTouches(e: Event): seq<Touch<string>> {
    if e.Updated? then Once(SourceIp(e.log)) else e.ips
  }

  function UserTouches(e: Event): seq<Touch<string>> {
    if e.Updated? then Once(User(e.log)) else e.users
  }

  function RuleTouches(e: Event): seq<Touch<nat>> {
    if e.Updated? then Once(RuleId(e.log)) else e.rules
  }

  /**
   What an update counts: one touch for the address, the user and the rule that the log names, and none for
   a kind of which it names none.
   */
  lemma UpdateCounts(at: int, log: Value)
    requires Sound(log)
    ensures var e := Updated(at, log);
            && (forall ip :: IpTouches(e) == [Touch(ip, 1)] <==> NamesAddress(log, ip))
            && (IpTouches(e) == [] <==> forall ip :: !NamesAddress(log, ip))
            && (forall user :: UserTouches(e) == [Touch(user, 1)] <==> NamesUser(log, user))
            && (UserTouches(e) == [] <==> forall user :: !NamesUser(log, user))
            && (forall id: nat :: RuleTouches(e) == [Touch(id, 1)] <==> NamesRule(log, id))
            && (RuleTouches(e) == [] <==> forall id: nat :: !NamesRule(log, id))
  {
    hide SourceIp, User, RuleId, NamesAddress, NamesUser, NamesRule;
    forall ip: string
      ensures SourceIp(log) == Some(ip) <==> NamesAddress(log, ip)
    {
      AddressNamed(log, ip);
    }
    forall user: string
      ensures User(log) == Some(user) <==> NamesUser(log, user)
    {
      UserNamed(log, user);
    }
    forall id: nat
      ensures RuleId(log) == Some(id) <==> NamesRule(log, id)
    {
      RuleNamed(log, id);
    }
  }

  /** The first of the three address keys that is present decides, even when it holds no string. */
  lemma FirstAddressDecides(at: int, log: Value, v: Value)
    requires Sound(log)
    ensures var e := Updated(at, log);
            && (Has(log, "source_address", v) ==> IpTouches(e) == if v.String? then [Touch(v.s, 1)] else [])
            && (Lacks(log, "source_address") && Has(log, "srcip", v) ==>
                  IpTouches(e) == if v.String? then [Touch(v.s, 1)] else [])
            && (Lacks(log, "source_address") && Lacks(log, "srcip") && Has(log, "src", v) ==>
                  IpTouches(e) == if v.String? then [Touch(v.s, 1)] else [])
            && (Lacks(log, "source_address") && Lacks(log, "srcip") && Lacks(log, "src") ==> IpTouches(e) == [])
  {
    hide Has, Lacks, Get;
    GetIsMember(log, "source_address", v);
    GetIsMember(log, "srcip", v);
    GetIsMember(log, "src", v);
  }

  /** Two logs agree on a key. */
  predicate Agree(a: Value, b: Value, key: string) {
    Get(a, key) == Get(b, key)
  }

  /** No other member matters to what is counted. */
  lemma OtherMembersDoNotCount(at: int, a: Value, b: Value)
    requires Agree(a, b, "source_address") && Agree(a, b, "srcip") && Agree(a, b, "src")
    requires Agree(a, b, "user") && Agree(a, b, "logid")
    ensures IpTouches(Updated(at, a)) == IpTouches(Updated(at, b))
    ensures UserTouches(Updated(at, a)) == UserTouches(Updated(at, b))
    ensures RuleTouches(Updated(at, a)) == RuleTouches(Updated(at, b))
  {
    hide Get;
  }

  /** All touches of a run of events, in order. */
  ghost function TouchesOf<K>(events: seq<Event>, touches: Event -> seq<Touch<K>>): seq<Touch<K>> {
    if events == [] then []
    else TouchesOf(events[..|events| - 1], touches) + touches(events[|events| - 1])
  }

  /** last_alert_time after the events. */
  ghost function LastTime(created: int, events: seq<Event>): int {
    if events == [] then created
    else
      var e := events[|events| - 1];
      if e.Updated? || e.at > e.otherLast then e.at else e.otherLast
  }

  lemma LastTimeStep(created: int, events: seq<Event>, e: Event)
    ensures LastTime(created, events + [e]) == if e.Updated? || e.at > e.otherLast then e.at else e.otherLast
  {
  }

  /** Event i arrived a long gap after the one before it. */
  ghost predicate AfterGap(created: int, events: seq<Event>, i: nat)
    requires i < |events|
  {
    Expired(events[i].at, LastTime(created, events[..i]))
  }

  /** In times: 360 seconds or more after the update before, the later of a merge's two times, or the beginning. */
  lemma GapByTimes(created: int, events: seq<Event>, i: nat)
    requires i < |events|
    ensures AfterGap(created, events, i) <==>
            events[i].at - (if i == 0 then created
                            else if events[i - 1].Merged? && events[i - 1].otherLast > events[i - 1].at
                            then events[i - 1].otherLast
                            else events[i - 1].at) >= 360 * SECOND
  {
    ExpiredMeansSixMinutes(events[i].at, LastTime(created, events[..i]));
    if i > 0 {
      assert events[..i][|events[..i]| - 1] == events[i - 1];
    }
  }

  /** Where the current session starts: the last event that came after a long gap, else the beginning. */
  ghost function SessionStart(created: int, events: seq<Event>): (start: nat)
    ensures start <= |events|
  {
    if events == [] then 0
    else if AfterGap(created, events, |events| - 1) then |events| - 1
    else SessionStart(created, events[..|events| - 1])
  }

  ghost function CurrentSession(created: int, events: seq<Event>): seq<Event> {
    events[SessionStart(created, events)..]
  }

  /**
   The session is the maximal gap-free suffix: no gap after its first event, and a gap before it unless
   it is everything.
   */
  lemma {:induction false} SessionIsGapFreeSuffix(created: int, events: seq<Event>)
    ensures var start := SessionStart(created, events);
            && (forall i :: start < i < |events| ==> !AfterGap(created, events, i))
            && (start == 0 || (start < |events| && AfterGap(created, events, start)))
  {
    if events != [] {
      var init := events[..|events| - 1];
      SessionIsGapFreeSuffix(created, init);
      forall i: nat | i < |init|
        ensures AfterGap(created, events, i) == AfterGap(created, init, i)
      {
        assert events[..i] == init[..i];
      }
    }
  }

  /** One more event extends the session, or starts a new one after a long gap. */
  lemma SessionStep<K>(created: int, events: seq<Event>, e: Event, touches: Event -> seq<Touch<K>>)
    ensures TouchesOf(CurrentSession(created, events + [e]), touches) ==
            (if Expired(e.at, LastTime(created, events)) then [] else TouchesOf(CurrentSession(created, events), touches))
            + touches(e)
  {
    var events' := events + [e];
    assert events'[..|events|] == events;
    var before := if Expired(e.at, LastTime(created, events)) then [] else CurrentSession(created, events);
    assert CurrentSession(created, events') == before + [e];
    assert (before + [e])[..|before|] == before;
  }

  /** The three cache histories are the touches of the current session. */
  ghost predicate CountsSession(created: int, events: seq<Event>,
                                ips: seq<Touch<string>>, users: seq<Touch<string>>, rules: seq<Touch<nat>>)
  {
    var session := CurrentSession(created, events);
    && ips == TouchesOf(session, IpTouches)
    && users == TouchesOf(session, UserTouches)
    && rules == TouchesOf(session, RuleTouches)
  }

  lemma CountsSessionStep(created: int, events: seq<Event>, e: Event,
                          ips: seq<Touch<string>>, users: seq<Touch<string>>, rules: seq<Touch<nat>>)
    requires CountsSession(created, events, ips, users, rules)
    ensures var expired := Expired(e.at, LastTime(created, events));
            CountsSession(created, events + [e],
                          (if expired then [] else ips) + IpTouches(e),
                          (if expired then [] else users) + UserTouches(e),
                          (if expired then [] else rules) + RuleTouches(e))
  {
    SessionStep(created, events, e, IpTouches);
    SessionStep(created, events, e, UserTouches);
    SessionStep(created, events, e, RuleTouches);
  }

  /** How many events of a run are updates counted under the key. */
  ghost function Occurrences<K>(events: seq<Event>, touches: Event -> seq<Touch<K>>, k: K): nat {
    if events == [] then 0
    else
      var e := events[|events| - 1];
      Occurrences(events[..|events| - 1], touches, k) + if Touch(k, 1) in touches(e) then 1 else 0
  }

  /** A worker's own history: updates only, so each event touches a key at most once. */
  ghost predicate SingleTouches<K>(events: seq<Event>, touches: Event -> seq<Touch<K>>) {
    forall e :: e in events ==> |touches(e)| <= 1 && forall t :: t in touches(e) ==> t.delta == 1
  }

  lemma UpdatesTouchOnce(events: seq<Event>)
    requires forall e :: e in events ==> e.Updated?
    ensures SingleTouches(events, IpTouches) && SingleTouches(events, UserTouches) && SingleTouches(events, RuleTouches)
  {
  }

  lemma OneTouchTotal<K>(one: seq<Touch<K>>, k: K)
    requires |one| <= 1 && forall t :: t in one ==> t.delta == 1
    ensures TotalCount(one, k) == if Touch(k, 1) in one then 1 else 0
  {
    if one != [] {
      assert one == [] + [one[0]] && one[0] in one;
      SnocSplit([], one[0]);
    }
  }

  lemma {:induction false} TotalIsOccurrences<K>(events: seq<Event>, touches: Event -> seq<Touch<K>>, k: K)
    requires SingleTouches(events, touches)
    ensures TotalCount(TouchesOf(events, touches), k) == Occurrences(events, touches, k)
  {
    if events != [] {
      hide TotalCount;
      var init, e := events[..|events| - 1], events[|events| - 1];
      assert e in events;
      TotalIsOccurrences(init, touches, k);
      TotalConcat(TouchesOf(init, touches), touches(e), k);
      OneTouchTotal(touches(e), k);
    } else {
      assert TouchesOf(events, touches) == [];
    }
  }

  /** The counter reported for a key, when it is stored and above the threshold. */
  ghost function Frequent<K>(h: seq<Touch<K>>, capacity: nat, key: Option<K>): Option<nat> {
    if key.Some? && Resident(h, capacity, key.value) && ResidentCount(h, capacity, key.value) > HIGH_SEVERITY_THRESHOLD
    then Some(ResidentCount(h, capacity, key.value)) else None
  }

  /** No false alarms: a reported key has more than 10 real events in the session, at least as many as reported. */
  lemma FrequentIsReal<K>(session: seq<Event>, touches: Event -> seq<Touch<K>>, capacity: nat, k: K)
    requires SingleTouches(session, touches)
    requires Frequent(TouchesOf(session, touches), capacity, Some(k)).Some?
    ensures Occurrences(session, touches, k) > HIGH_SEVERITY_THRESHOLD
    ensures Frequent(TouchesOf(session, touches), capacity, Some(k)).value <= Occurrences(session, touches, k)
  {
    CountNeverExceedsTotal(TouchesOf(session, touches), capacity, k);
    TotalIsOccurrences(session, touches, k);
  }

  /** No missed alarms while the session has at most `capacity` distinct keys. */
  lemma FrequentIffManyOccurrences<K>(session: seq<Event>, touches: Event -> seq<Touch<K>>, capacity: nat, k: K)
    requires SingleTouches(session, touches) && |KeysOf(TouchesOf(session, touches))| <= capacity
    ensures Frequent(TouchesOf(session, touches), capacity, Some(k)) ==
            if Occurrences(session, touches, k) > HIGH_SEVERITY_THRESHOLD
            then Some(Min(U32_MAX, Occurrences(session, touches, k))) else None
  {
    var h := TouchesOf(session, touches);
    CountExactWithinCapacity(h, capacity, k);
    TotalIsOccurrences(session, touches, k);
    if k !in KeysOf(h) {
      CountUntouched([], h, capacity, k);
      assert [] + h == h;
    }
  }

  /** An alarm is raised exactly when more than 10 touches of the stored key belong to its present stay. */
  lemma FrequentIffLongStay<K>(h: seq<Touch<K>>, capacity: nat, k: K)
    requires Resident(h, capacity, k)
    ensures var stay := TotalCount(h[StayStart(h, capacity, k)..], k);
            Frequent(h, capacity, Some(k)) == if stay > HIGH_SEVERITY_THRESHOLD then Some(Min(U32_MAX, stay)) else None
  {
    CountIsStayTotal(h, capacity, k);
  }

  /** What should be reported about a key with this many occurrences. */
  function TrueReport(occurrences: nat): Option<nat> {
    if occurrences > HIGH_SEVERITY_THRESHOLD then Some(occurrences) else None
  }

  lemma SingleTouchesPositive<K>(session: seq<Event>, touches: Event -> seq<Touch<K>>, k: K)
    requires SingleTouches(session, touches)
    ensures Positive(TouchesOf(session, touches), k)
  {
    if session != [] {
      hide SingleTouches;
      var init, e := session[..|session| - 1], session[|session| - 1];
      assert SingleTouches(init, touches) && forall t :: t in touches(e) ==> t.delta == 1 by {
        SingleTouchesInit(session, touches);
      }
      SingleTouchesPositive(init, touches, k);
    }
  }

  lemma SingleTouchesInit<K>(session: seq<Event>, touches: Event -> seq<Touch<K>>)
    requires SingleTouches(session, touches) && session != []
    ensures SingleTouches(session[..|session| - 1], touches)
    ensures forall t :: t in touches(session[|session| - 1]) ==> t.delta == 1
  {
    assert session[|session| - 1] in session;
  }

  /**
   The report about a stored key is the true one if and only if the key has at most 10 events or was
   never evicted between two of them, that is, fewer than `capacity` other keys came in between.
   */
  lemma FrequentExactIff<K>(session: seq<Event>, touches: Event -> seq<Touch<K>>, capacity: nat, k: K)
    requires SingleTouches(session, touches) && Resident(TouchesOf(session, touches), capacity, k)
    requires Occurrences(session, touches, k) <= U32_MAX
    ensures Frequent(TouchesOf(session, touches), capacity, Some(k)) == TrueReport(Occurrences(session, touches, k)) <==>
            Occurrences(session, touches, k) <= HIGH_SEVERITY_THRESHOLD
            || NeverEvicted(TouchesOf(session, touches), capacity, k)
  {
    hide NeverEvicted, Resident, SingleTouches;
    var h := TouchesOf(session, touches);
    TotalIsOccurrences(session, touches, k);
    SingleTouchesPositive(session, touches, k);
    CountExactIff(h, capacity, k);
    CountNeverExceedsTotal(h, capacity, k);
  }

  // ----- Missed alarms -----

  function AddressLog(ip: string): Value {
    Object([Member("source_address", String(ip))])
  }

  /** One event for each address, in order, all at one time. */
  ghost function Visits(at: int, ips: seq<string>): seq<Event> {
    if ips == [] then [] else Visits(at, ips[..|ips| - 1]) + [Updated(at, AddressLog(ips[|ips| - 1]))]
  }

  ghost function RotatedVisits(rounds: nat, at: int, ips: seq<string>): seq<Event> {
    if rounds == 0 then [] else RotatedVisits(rounds - 1, at, ips) + Visits(at, ips)
  }

  lemma {:induction false} TouchesConcat<K>(a: seq<Event>, b: seq<Event>, touches: Event -> seq<Touch<K>>)
    ensures TouchesOf(a + b, touches) == TouchesOf(a, touches) + TouchesOf(b, touches)
  {
    if b == [] {
      assert a + b == a;
    } else {
      assert (a + b)[..|a + b| - 1] == a + b[..|b| - 1];
      TouchesConcat(a, b[..|b| - 1], touches);
    }
  }

  lemma {:induction false} VisitsTouch(at: int, ips: seq<string>)
    ensures TouchesOf(Visits(at, ips), IpTouches) == Round(ips)
    ensures forall e :: e in Visits(at, ips) ==> e.Updated? && e.at == at
  {
    if ips != [] {
      var init, last := ips[..|ips| - 1], ips[|ips| - 1];
      VisitsTouch(at, init);
      var e := Updated(at, AddressLog(last));
      assert (Visits(at, init) + [e])[..|Visits(at, init)|] == Visits(at, init);
      assert IpTouches(e) == [Touch(last, 1)] by {
        AddressCounted(last);
      }
    }
  }

  lemma AddressCounted(ip: string)
    ensures SourceIp(AddressLog(ip)) == Some(ip)
  {
    assert Lookup(AddressLog(ip).members, "source_address") == Some(String(ip));
  }

  lemma {:induction false} RotatedVisitsTouch(rounds: nat, at: int, ips: seq<string>)
    ensures TouchesOf(RotatedVisits(rounds, at, ips), IpTouches) == Rotation(rounds, ips)
    ensures forall e :: e in RotatedVisits(rounds, at, ips) ==> e.Updated? && e.at == at
  {
    if rounds > 0 {
      RotatedVisitsTouch(rounds - 1, at, ips);
      VisitsTouch(at, ips);
      TouchesConcat(RotatedVisits(rounds - 1, at, ips), Visits(at, ips), IpTouches);
    }
  }

  lemma {:induction false} NoGapAtOneTime(created: int, events: seq<Event>)
    requires forall e :: e in events ==> e.Updated? && e.at == created
    ensures LastTime(created, events) == created && CurrentSession(created, events) == events
  {
    if events != [] {
      var init := events[..|events| - 1];
      assert events[|events| - 1] in events;
      NoGapAtOneTime(created, init);
      ExpiredMeansSixMinutes(created, created);
      assert SessionStart(created, init) == 0 || init == [];
    }
  }

  /**
   Missed alarms, at the capacity the code has and any other: in a session that rotates through one
   address more than fit, every address can have any number of events and none is ever reported.
   */
  lemma EvictionHidesRepeats(created: int, rounds: nat, a: seq<string>, ip: string, b: seq<string>, capacity: nat)
    requires NoDuplicates(a + [ip] + b) && |a| + |b| == capacity
    ensures var events := RotatedVisits(rounds, created, a + [ip] + b);
            var session := CurrentSession(created, events);
            && session == events && (forall e :: e in events ==> e.Updated?)
            && Occurrences(session, IpTouches, ip) == rounds
            && Frequent(TouchesOf(session, IpTouches), capacity, Some(ip)) == None
  {
    var ips := a + [ip] + b;
    var events := RotatedVisits(rounds, created, ips);
    RotatedVisitsTouch(rounds, created, ips);
    NoGapAtOneTime(created, events);
    UpdatesTouchOnce(events);
    TotalIsOccurrences(events, IpTouches, ip);
    RotationCountsOne(rounds, a, ip, b, capacity);
  }

  /** There are enough addresses for that: 0, 1, 2 and so on in decimal, say. */
  lemma ManyAddresses(n: nat) returns (ips: seq<string>)
    ensures |ips| == n && NoDuplicates(ips)
  {
    ips := seq(n, i requires 0 <= i < n => Decimal(i));
    forall i, j | 0 <= i < j < n
      ensures ips[i] != ips[j]
    {
      DecimalRoundTrip(i);
      DecimalRoundTrip(j);
    }
  }

  /** With the address cache's own capacity: some 250,001 addresses go unreported however often they all come back. */
  lemma AddressesGoUnreported(created: int, rounds: nat) returns (ips: seq<string>)
    ensures |ips| == MAX_UNIQUE_IPS_TO_TRACK + 1 && NoDuplicates(ips)
    ensures var session := CurrentSession(created, RotatedVisits(rounds, created, ips));
            forall ip :: ip in ips ==>
              && Occurrences(session, IpTouches, ip) == rounds
              && Frequent(TouchesOf(session, IpTouches), MAX_UNIQUE_IPS_TO_TRACK, Some(ip)) == None
  {
    ips := ManyAddresses(MAX_UNIQUE_IPS_TO_TRACK + 1);
    var session := CurrentSession(created, RotatedVisits(rounds, created, ips));
    forall ip | ip in ips
      ensures Occurrences(session, IpTouches, ip) == rounds
      ensures Frequent(TouchesOf(session, IpTouches), MAX_UNIQUE_IPS_TO_TRACK, Some(ip)) == None
    {
      hide Frequent, Occurrences, CurrentSession, RotatedVisits;
      var i :| 0 <= i < |ips| && ips[i] == ip;
      assert ips == ips[..i] + [ip] + ips[i + 1..];
      EvictionHidesRepeats(created, rounds, ips[..i], ip, ips[i + 1..], MAX_UNIQUE_IPS_TO_TRACK);
    }
  }

  // ----- The report of an update -----

  /**
   A report about a log's key, against the session's real events: none without a key; never more than
   is real, and only above 10; and the true one exactly when the key has at most 10 events or was
   never evicted between two of them.
   */
  ghost predicate FairReport<K>(reported: Option<nat>, session: seq<Event>, touches: Event -> seq<Touch<K>>,
                                capacity: nat, key: Option<K>)
  {
    if key.None? then reported == None
    else
      var occurrences := Occurrences(session, touches, key.value);
      && (reported.Some? ==> occurrences > HIGH_SEVERITY_THRESHOLD && reported.value <= occurrences)
      && (occurrences <= U32_MAX ==>
            (reported == TrueReport(occurrences) <==>
             occurrences <= HIGH_SEVERITY_THRESHOLD || NeverEvicted(TouchesOf(session, touches), capacity, key.value)))
  }

  lemma ReportIsFair<K>(created: int, events: seq<Event>, e: Event, touches: Event -> seq<Touch<K>>, capacity: nat,
                        key: Option<K>)
    requires SingleTouches(events + [e], touches) && touches(e) == Once(key) && capacity >= 1
    ensures var session := CurrentSession(created, events + [e]);
            FairReport(Frequent(TouchesOf(session, touches), capacity, key), session, touches, capacity, key)
  {
    var session := CurrentSession(created, events + [e]);
    if key.Some? {
      assert SingleTouches(session, touches) by {
        assert forall x :: x in session ==> x in events + [e];
      }
      hide SingleTouches, NeverEvicted, Resident, CurrentSession;
      SessionStep(created, events, e, touches);
      LastTouchedIsResident(TouchesOf(session, touches), capacity);
      if Frequent(TouchesOf(session, touches), capacity, key).Some? {
        FrequentIsReal(session, touches, capacity, key.value);
      }
      if Occurrences(session, touches, key.value) <= U32_MAX {
        FrequentExactIff(session, touches, capacity, key.value);
      }
    }
  }

  // ----- The report in terms of what the logs name -----

  /** How many of the events are updates with a log that names k. */
  ghost function Naming<K>(session: seq<Event>, names: (Value, K) -> bool, k: K): nat {
    if session == [] then 0
    else
      var e := session[|session| - 1];
      Naming(session[..|session| - 1], names, k) + if e.Updated? && names(e.log, k) then 1 else 0
  }

  ghost predicate NamedWithin<K(!new)>(session: seq<Event>, names: (Value, K) -> bool, keys: set<K>) {
    forall e, k :: e in session && e.Updated? && names(e.log, k) ==> k in keys
  }

  /** At most `capacity` different keys are named. */
  ghost predicate Fitting<K(!new)>(session: seq<Event>, names: (Value, K) -> bool, capacity: nat) {
    exists keys: set<K> :: |keys| <= capacity && NamedWithin(session, names, keys)
  }

  /** The report about a log: on the number of the session's logs that name what it names, if that fits the cache. */
  ghost predicate ReportsNamed<K(!new)>(reported: Option<nat>, session: seq<Event>, names: (Value, K) -> bool, log: Value,
                                        capacity: nat)
  {
    && (forall k :: names(log, k) && Fitting(session, names, capacity) ==>
          reported == if Naming(session, names, k) > HIGH_SEVERITY_THRESHOLD
                      then Some(Min(U32_MAX, Naming(session, names, k))) else None)
    && ((forall k :: !names(log, k)) ==> reported == None)
  }

  /** Every event is an update, and counts once what its log names. */
  ghost predicate CountsNamed<K(!new)>(session: seq<Event>, touches: Event -> seq<Touch<K>>, names: (Value, K) -> bool) {
    forall e :: e in session ==>
      && e.Updated? && |touches(e)| <= 1
      && (forall k :: touches(e) == [Touch(k, 1)] <==> names(e.log, k))
      && (forall t :: t in touches(e) ==> t.delta == 1)
  }

  lemma {:induction false} OccurrencesAreNaming<K(!new)>(session: seq<Event>, touches: Event -> seq<Touch<K>>,
                                                         names: (Value, K) -> bool, k: K)
    requires CountsNamed(session, touches, names)
    ensures Occurrences(session, touches, k) == Naming(session, names, k)
  {
    if session != [] {
      var init, e := session[..|session| - 1], session[|session| - 1];
      assert e in session && forall x :: x in init ==> x in session;
      OccurrencesAreNaming(init, touches, names, k);
      if Touch(k, 1) in touches(e) {
        assert touches(e) == [touches(e)[0]];
      }
    }
  }

  lemma {:induction false} NamedKeys<K(!new)>(session: seq<Event>, touches: Event -> seq<Touch<K>>,
                                              names: (Value, K) -> bool, keys: set<K>)
    requires CountsNamed(session, touches, names)
    requires NamedWithin(session, names, keys)
    ensures KeysOf(TouchesOf(session, touches)) <= keys
  {
    if session != [] {
      var init, e := session[..|session| - 1], session[|session| - 1];
      assert e in session && forall x :: x in init ==> x in session;
      NamedKeys(init, touches, names, keys);
      KeysOfConcat(TouchesOf(init, touches), touches(e));
      forall t | t in touches(e)
        ensures t.key in keys
      {
        assert touches(e) == [Touch(t.key, 1)];
        assert names(e.log, t.key);
      }
    }
  }

  lemma NamedReport<K(!new)>(session: seq<Event>, touches: Event -> seq<Touch<K>>, names: (Value, K) -> bool, log: Value,
                             capacity: nat, key: Option<K>)
    requires CountsNamed(session, touches, names) && forall k :: key == Some(k) <==> names(log, k)
    ensures ReportsNamed(Frequent(TouchesOf(session, touches), capacity, key), session, names, log, capacity)
  {
    hide TouchesOf, KeysOf, Occurrences, Naming;
    var reported := Frequent(TouchesOf(session, touches), capacity, key);
    assert SingleTouches(session, touches);
    forall k | names(log, k) && Fitting(session, names, capacity)
      ensures reported == if Naming(session, names, k) > HIGH_SEVERITY_THRESHOLD
                          then Some(Min(U32_MAX, Naming(session, names, k))) else None
    {
      hide Frequent;
      var keys: set<K> :| |keys| <= capacity && NamedWithin(session, names, keys);
      NamedKeys(session, touches, names, keys);
      SubsetSize(KeysOf(TouchesOf(session, touches)), keys);
      OccurrencesAreNaming(session, touches, names, k);
      FrequentIffManyOccurrences(session, touches, capacity, k);
    }
  }

  /** A worker's own events count what their logs name. */
  lemma UpdatesCountNamed(session: seq<Event>)
    requires forall e :: e in session ==> e.Updated? && Sound(e.log)
    ensures CountsNamed(session, IpTouches, NamesAddress) && CountsNamed(session, UserTouches, NamesUser)
    ensures CountsNamed(session, RuleTouches, NamesRule)
  {
    hide Sound, NamesAddress, NamesUser, NamesRule, SourceIp, User, RuleId;
    forall e | e in session
      ensures forall ip :: IpTouches(e) == [Touch(ip, 1)] <==> NamesAddress(e.log, ip)
      ensures forall user :: UserTouches(e) == [Touch(user, 1)] <==> NamesUser(e.log, user)
      ensures forall id: nat :: RuleTouches(e) == [Touch(id, 1)] <==> NamesRule(e.log, id)
    {
      UpdateCounts(e.at, e.log);
    }
  }

  /** The whole report of a worker's own history about a log. */
  lemma NamedReports(session: seq<Event>, log: Value)
    requires Sound(log) && forall e :: e in session ==> e.Updated? && Sound(e.log)
    ensures ReportsNamed(Frequent(TouchesOf(session, IpTouches), MAX_UNIQUE_IPS_TO_TRACK, SourceIp(log)), session,
                         NamesAddress, log, MAX_UNIQUE_IPS_TO_TRACK)
    ensures ReportsNamed(Frequent(TouchesOf(session, UserTouches), MAX_UNIQUE_USERS_TO_TRACK, User(log)), session,
                         NamesUser, log, MAX_UNIQUE_USERS_TO_TRACK)
    ensures ReportsNamed(Frequent(TouchesOf(session, RuleTouches), MAX_RULES_TO_TRACK, RuleId(log)), session,
                         NamesRule, log, MAX_RULES_TO_TRACK)
  {
    hide ReportsNamed, CountsNamed, Frequent, TouchesOf, SourceIp, User, RuleId, Sound, NamesAddress, NamesUser, NamesRule;
    UpdatesCountNamed(session);
    forall ip: string
      ensures SourceIp(log) == Some(ip) <==> NamesAddress(log, ip)
    {
      AddressNamed(log, ip);
    }
    forall user: string
      ensures User(log) == Some(user) <==> NamesUser(log, user)
    {
      UserNamed(log, user);
    }
    forall id: nat
      ensures RuleId(log) == Some(id) <==> NamesRule(log, id)
    {
      RuleNamed(log, id);
    }
    NamedReport(session, IpTouches, NamesAddress, log, MAX_UNIQUE_IPS_TO_TRACK, SourceIp(log));
    NamedReport(session, UserTouches, NamesUser, log, MAX_UNIQUE_USERS_TO_TRACK, User(log));
    NamedReport(session, RuleTouches, NamesRule, log, MAX_RULES_TO_TRACK, RuleId(log));
  }

  // ----- Snapshots -----

  /** A clone of a history's counters, as sent to the state merger. */
  datatype Snapshot = Snapshot(ips: map<string, nat>, users: map<string, nat>, rules: map<nat, nat>, last: int)
  {
    /** The caches it was cloned from have the fixed capacities. */
    predicate Fits() {
      && |ips| <= MAX_UNIQUE_IPS_TO_TRACK
      && |users| <= MAX_UNIQUE_USERS_TO_TRACK
      && |rules| <= MAX_RULES_TO_TRACK
    }
  }

  /** The visits enumerate the counters once each, in some order. */
  ghost predicate Enumerates<K>(visits: seq<Touch<K>>, counters: map<K, nat>) {
    && (forall i, j :: 0 <= i < j < |visits| ==> visits[i].key != visits[j].key)
    && KeysOf(visits) == counters.Keys
    && (forall v :: v in visits ==> v.key in counters && v.delta == counters[v.key])
  }

  /** The event records the merge of the snapshot at the time given. */
  ghost predicate MergeOf(e: Event, other: Snapshot, now: int) {
    && e.Merged? && e.at == now && e.otherLast == other.last
    && Enumerates(e.ips, other.ips) && Enumerates(e.users, other.users) && Enumerates(e.rules, other.rules)
  }

  // ----- The history object -----

  lemma CacheHoldsRecent<K>(cache: LruCache<K>, k: K)
    requires cache.Valid()
    ensures k in cache.counts <==> Resident(cache.history, cache.capacity, k)
    ensures k in cache.counts ==> cache.counts[k] == ResidentCount(cache.history, cache.capacity, k)
    ensures |cache.counts| <= cache.capacity
  {
    ListedIffResident(cache.order, cache.history, cache.capacity, k);
    ElementsSize(cache.order);
    assert |cache.counts| == |cache.counts.Keys|;
  }

  datatype Anomalies = Anomalies(ip: Option<nat>, user: Option<nat>, logid: Option<nat>)

  class AlertHistory {
    const srcIps: LruCache<string>
    const users: LruCache<string>
    const rules: LruCache<nat>
    var lastAlertTime: int
    ghost const created: int
    ghost var events: seq<Event>

    ghost function Repr(): set<object> {
      {this, srcIps, users, rules}
    }

    ghost function Session(): seq<Event>
      reads this
    {
      CurrentSession(created, events)
    }

    ghost predicate Valid()
      reads Repr()
    {
      && srcIps != users
      && srcIps.Valid() && srcIps.capacity == MAX_UNIQUE_IPS_TO_TRACK
      && users.Valid() && users.capacity == MAX_UNIQUE_USERS_TO_TRACK
      && rules.Valid() && rules.capacity == MAX_RULES_TO_TRACK
      && lastAlertTime == LastTime(created, events)
      && CountsSession(created, events, srcIps.history, users.history, rules.history)
    }

    /**
     The stored keys are the most recently touched distinct keys of the session, with the counts of
     their stay: the addresses here, users and rules alike through CacheHoldsRecent.
     */
    lemma StoredKeysAreRecent(k: string)
      requires Valid()
      ensures var h := TouchesOf(Session(), IpTouches);
              && (k in srcIps.counts <==> Resident(h, MAX_UNIQUE_IPS_TO_TRACK, k))
              && (k in srcIps.counts ==> srcIps.counts[k] == ResidentCount(h, MAX_UNIQUE_IPS_TO_TRACK, k))
    {
      CacheHoldsRecent(srcIps, k);
    }

    constructor Default(now: int)
      ensures Valid() && events == [] && created == now && fresh(Repr())
    {
      srcIps := new LruCache<string>(MAX_UNIQUE_IPS_TO_TRACK);
      users := new LruCache<string>(MAX_UNIQUE_USERS_TO_TRACK);
      rules := new LruCache<nat>(MAX_RULES_TO_TRACK);
      lastAlertTime, created, events := now, now, [];
    }

    /** The window check that update and merge share. */
    method ClearIfExpired(now: int)
      requires Valid()
      modifies srcIps, users, rules
      ensures srcIps.Valid() && users.Valid() && rules.Valid()
      ensures srcIps.history == if Expired(now, lastAlertTime) then [] else old(srcIps.history)
      ensures users.history == if Expired(now, lastAlertTime) then [] else old(users.history)
      ensures rules.history == if Expired(now, lastAlertTime) then [] else old(rules.history)
    {
      if NumMinutes(now - lastAlertTime) > BEHAVIOR_WINDOW_MINUTES {
        srcIps.Clear();
        users.Clear();
        rules.Clear();
      }
    }

    method Update(log: Value, now: int)
      requires Valid()
      modifies Repr()
      ensures Valid() && events == old(events) + [Updated(now, log)]
    {
      hide ListsRecent, ResidentCount, Resident, CountsSession, CurrentSession, Expired, LastTime, SourceIp, User, RuleId;
      ghost var e := Updated(now, log);
      CountsSessionStep(created, events, e, srcIps.history, users.history, rules.history);
      LastTimeStep(created, events, e);
      ClearIfExpired(now);
      lastAlertTime := now;
      CountOnce(srcIps, SourceIp(log));
      CountOnce(users, User(log));
      CountOnce(rules, RuleId(log));
      events := events + [e];
    }

    method IsSuspiciousActivity(log: Value) returns (found: Option<Anomalies>)
      requires Valid()
      ensures var a := Anomalies(Frequent(srcIps.history, srcIps.capacity, SourceIp(log)),
                                 Frequent(users.history, users.capacity, User(log)),
                                 Frequent(rules.history, rules.capacity, RuleId(log)));
              found == if a == Anomalies(None, None, None) then None else Some(a)
    {
      hide ListsRecent, ResidentCount, Resident, CountsSession, CurrentSession, LastTime, SourceIp, User, RuleId;
      var anomalies := Anomalies(None, None, None);
      var foundAnomaly := false;
      var ip := SourceIp(log);
      if ip.Some? {
        var count := srcIps.Peek(ip.value);
        if count.Some? && count.value > HIGH_SEVERITY_THRESHOLD {
          anomalies, foundAnomaly := anomalies.(ip := count), true;
        }
      }
      var user := User(log);
      if user.Some? {
        var count := users.Peek(user.value);
        if count.Some? && count.value > HIGH_SEVERITY_THRESHOLD {
          anomalies, foundAnomaly := anomalies.(user := count), true;
        }
      }
      var rule := RuleId(log);
      if rule.Some? {
        var count := rules.Peek(rule.value);
        if count.Some? && count.value > HIGH_SEVERITY_THRESHOLD {
          anomalies, foundAnomaly := anomalies.(logid := count), true;
        }
      }
      found := if foundAnomaly then Some(anomalies) else None;
    }

    /** enrich_behavioral: count the log, then look it up. */
    method EnrichBehavioral(log: Value, now: int) returns (found: Option<Anomalies>)
      requires Valid()
      modifies Repr()
      ensures Valid() && events == old(events) + [Updated(now, log)]
      ensures var a := Anomalies(
                Frequent(TouchesOf(Session(), IpTouches), MAX_UNIQUE_IPS_TO_TRACK, SourceIp(log)),
                Frequent(TouchesOf(Session(), UserTouches), MAX_UNIQUE_USERS_TO_TRACK, User(log)),
                Frequent(TouchesOf(Session(), RuleTouches), MAX_RULES_TO_TRACK, RuleId(log)));
              found == if a == Anomalies(None, None, None) then None else Some(a)
      ensures (forall e :: e in events ==> e.Updated?) ==>
                var a := if found.Some? then found.value else Anomalies(None, None, None);
                && FairReport(a.ip, Session(), IpTouches, MAX_UNIQUE_IPS_TO_TRACK, SourceIp(log))
                && FairReport(a.user, Session(), UserTouches, MAX_UNIQUE_USERS_TO_TRACK, User(log))
                && FairReport(a.logid, Session(), RuleTouches, MAX_RULES_TO_TRACK, RuleId(log))
      ensures (forall e :: e in events ==> e.Updated? && Sound(e.log)) ==>
                var a := if found.Some? then found.value else Anomalies(None, None, None);
                && ReportsNamed(a.ip, Session(), NamesAddress, log, MAX_UNIQUE_IPS_TO_TRACK)
                && ReportsNamed(a.user, Session(), NamesUser, log, MAX_UNIQUE_USERS_TO_TRACK)
                && ReportsNamed(a.logid, Session(), NamesRule, log, MAX_RULES_TO_TRACK)
    {
      hide FairReport, Frequent, TouchesOf, SessionStart, SourceIp, User, RuleId, Sound, ReportsNamed;
      ghost var before, e := events, Updated(now, log);
      Update(log, now);
      found := IsSuspiciousActivity(log);
      if forall x :: x in events ==> x.Updated? {
        UpdatesTouchOnce(events);
        ReportIsFair(created, before, e, IpTouches, MAX_UNIQUE_IPS_TO_TRACK, SourceIp(log));
        ReportIsFair(created, before, e, UserTouches, MAX_UNIQUE_USERS_TO_TRACK, User(log));
        ReportIsFair(created, before, e, RuleTouches, MAX_RULES_TO_TRACK, RuleId(log));
      }
      if forall x :: x in events ==> x.Updated? && Sound(x.log) {
        assert e in events;
        assert forall x :: x in Session() ==> x in events;
        NamedReports(Session(), log);
      }
    }

    /** worker_state.clone() */
    method Clone() returns (snapshot: Snapshot)
      requires Valid()
      ensures snapshot.Fits() && snapshot.last == LastTime(created, events)
      ensures IsSnapshotOf(snapshot.ips, srcIps.history, srcIps.capacity)
      ensures IsSnapshotOf(snapshot.users, users.history, users.capacity)
      ensures IsSnapshotOf(snapshot.rules, rules.history, rules.capacity)
    {
      SnapshotOfValid(srcIps.order, srcIps.counts, srcIps.history, srcIps.capacity);
      SnapshotOfValid(users.order, users.counts, users.history, users.capacity);
      SnapshotOfValid(rules.order, rules.counts, rules.history, rules.capacity);
      snapshot := Snapshot(srcIps.counts, users.counts, rules.counts, lastAlertTime);
    }

    /** Folds another history's counters into this one. */
    method Merge(other: Snapshot, now: int)
      requires Valid()
      modifies Repr()
      ensures Valid() && |events| == |old(events)| + 1
      ensures events == old(events) + [events[|old(events)|]] && MergeOf(events[|old(events)|], other, now)
    {
      hide ListsRecent, ResidentCount, Resident, Enumerates, CountsSession, CurrentSession, Expired, LastTime;
      ClearIfExpired(now);
      ghost var ips := AddAll(srcIps, other.ips);
      ghost var names := AddAll(users, other.users);
      ghost var ids := AddAll(rules, other.rules);
      ghost var e := Merged(now, other.last, ips, names, ids);
      CountsSessionStep(created, events, e, old(srcIps.history), old(users.history), old(rules.history));
      LastTimeStep(created, events, e);
      lastAlertTime := if now > other.last then now else other.last;
      events := events + [e];
    }
  }

  /** The counters of a snapshot are exactly the resident keys' counts of the history it was taken from. */
  ghost predicate IsSnapshotOf<K>(counters: map<K, nat>, h: seq<Touch<K>>, capacity: nat) {
    && (forall k :: k in KeysOf(h) ==> (k in counters <==> Resident(h, capacity, k)))
    && counters.Keys <= KeysOf(h)
    && (forall k :: k in counters ==> counters[k] == ResidentCount(h, capacity, k))
  }

  lemma SnapshotOfValid<K>(order: seq<K>, counts: map<K, nat>, h: seq<Touch<K>>, capacity: nat)
    requires ListsRecent(order, h, capacity) && counts.Keys == Elements(order)
    requires forall k :: k in counts ==> counts[k] == ResidentCount(h, capacity, k)
    ensures IsSnapshotOf(counts, h, capacity) && |counts| <= capacity
  {
    forall k | k in KeysOf(h)
      ensures k in counts <==> Resident(h, capacity, k)
    {
      ListedIffResident(order, h, capacity, k);
    }
    ElementsSize(order);
    assert |counts| == |counts.Keys|;
  }

  /** One of update's three counters: skipped when the log has no usable key. */
  method CountOnce<K>(cache: LruCache<K>, key: Option<K>)
    requires cache.Valid()
    modifies cache
    ensures cache.Valid() && cache.history == old(cache.history) + Once(key)
  {
    if key.Some? {
      cache.Add(key.value, 1);
    }
  }

  /** One of merge's three loops.  The order in which the other cache is drained is left open. */
  method AddAll<K>(cache: LruCache<K>, counters: map<K, nat>) returns (ghost visits: seq<Touch<K>>)
    requires cache.Valid()
    modifies cache
    ensures cache.Valid() && cache.history == old(cache.history) + visits
    ensures Enumerates(visits, counters)
  {
    hide ListsRecent, ResidentCount;
    visits := [];
    var rest := counters.Keys;
    while rest != {}
      invariant cache.Valid() && cache.history == old(cache.history) + visits
      invariant rest <= counters.Keys
      invariant Enumerates(visits, map k | k in counters && k !in rest :: counters[k])
      decreases rest
    {
      var k :| k in rest;
      cache.Add(k, counters[k]);
      ghost var visits0 := visits;
      visits := visits + [Touch(k, counters[k])];
      KeysOfSnoc(visits0, Touch(k, counters[k]));
      forall v | v in visits0
        ensures v.key != k
      {
        assert v.key in KeysOf(visits0);
      }
      rest := rest - {k};
    }
    assert (map k | k in counters && k !in rest :: counters[k]) == counters;
  }
}
