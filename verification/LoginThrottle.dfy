/**
 The password throttle: three counters per attempt, each an atomic INCR in a time bucket, checked in
 order so that a refused reservation stops before the later ones. First a reservation is one step; then
 each INCR, and each delete of a counter, is its own step among those of other attempts.
 */
module LoginThrottle {

  import opened Wrappers
  import opened Sets

  const HOUR_MS: nat := 60 * 60 * 1000
  const DAY_MS: nat := 24 * HOUR_MS
  const HOUR_BUCKET_TTL_MS: nat := 2 * HOUR_MS
  const DAY_BUCKET_TTL_MS: nat := 2 * DAY_MS

  /** The counter keys: phone, ip and bucket number. */
  datatype Key = PhoneIp(phone: nat, ip: nat, hour: nat) | Phone(phone: nat, day: nat) | Ip(ip: nat, hour: nat)

  datatype Event = Reserve(phone: nat, ip: nat, at: nat) | Clear(phone: nat, from: Option<nat>, at: nat)

  type Counters = map<Key, nat>

  function Limit(k: Key): nat {
    match k
    case PhoneIp(_, _, _) => 10
    case Phone(_, _) => 30
    case Ip(_, _) => 50
  }

  function Hour(t: nat): nat { t / HOUR_MS }
  function Day(t: nat): nat { t / DAY_MS }

  function Count(c: Counters, k: Key): nat { if k in c then c[k] else 0 }

  function Bump(c: Counters, k: Key): Counters { c[k := Count(c, k) + 1] }

  /** The keys of an attempt, in the order they are checked. */
  function KeysOf(e: Event): seq<Key>
    requires e.Reserve?
  {
    [PhoneIp(e.phone, e.ip, Hour(e.at)), Phone(e.phone, Day(e.at)), Ip(e.ip, Hour(e.at))]
  }

  function Cleared(e: Event): set<Key> {
    if e.Reserve? then {}
    else {Phone(e.phone, Day(e.at))} + if e.from.Some? then {PhoneIp(e.phone, e.from.value, Hour(e.at))} else {}
  }

  /** Bump the keys in order until one is over its limit. */
  function BumpWhileAdmitted(c: Counters, keys: seq<Key>): (Counters, bool)
    decreases |keys|
  {
    if keys == [] then (c, true)
    else
      var d := Bump(c, keys[0]);
      if Count(d, keys[0]) > Limit(keys[0]) then (d, false) else BumpWhileAdmitted(d, keys[1..])
  }

  function Step(c: Counters, e: Event): Counters {
    if e.Reserve? then BumpWhileAdmitted(c, KeysOf(e)).0 else c - Cleared(e)
  }

  predicate Admits(c: Counters, e: Event) { e.Reserve? && BumpWhileAdmitted(c, KeysOf(e)).1 }

  function After(log: seq<Event>): Counters {
    if log == [] then map[] else Step(After(log[..|log| - 1]), log[|log| - 1])
  }

  // ---- One attempt ----

  predicate Full(c: Counters, k: Key) { Count(c, k) >= Limit(k) }

  /** An attempt is admitted exactly when none of its counters was used up; a refusal leaves every later counter alone. */
  lemma ReserveExactly(c: Counters, e: Event)
    requires e.Reserve?
    ensures var k := KeysOf(e);
            && (Admits(c, e) <==> !Full(c, k[0]) && !Full(c, k[1]) && !Full(c, k[2]))
            && Step(c, e) == if Full(c, k[0]) then Bump(c, k[0])
                             else if Full(c, k[1]) then Bump(Bump(c, k[0]), k[1])
                             else Bump(Bump(Bump(c, k[0]), k[1]), k[2])
  {
    var k := KeysOf(e);
    var d0 := Bump(c, k[0]);
    var d1 := Bump(d0, k[1]);
    UnfoldBump(c, k[0], [k[1], k[2]]);
    UnfoldBump(d0, k[1], [k[2]]);
    UnfoldBump(d1, k[2], []);
    UnfoldBump(Bump(d1, k[2]), k[2], []);
    assert k == [k[0]] + [k[1], k[2]] && [k[1], k[2]] == [k[1]] + [k[2]] && [k[2]] == [k[2]] + [];
  }

  lemma UnfoldBump(c: Counters, k: Key, rest: seq<Key>)
    ensures BumpWhileAdmitted(c, [k] + rest) ==
            if Full(c, k) then (Bump(c, k), false) else BumpWhileAdmitted(Bump(c, k), rest)
    ensures BumpWhileAdmitted(c, []) == (c, true)
  {
    assert ([k] + rest)[1..] == rest;
  }

  // ---- Any log of attempts and clears ----

  /** Admitted attempts that count against k, since k was last cleared. */
  function AdmittedSince(log: seq<Event>, k: Key): nat {
    if log == [] then 0
    else
      var before, e := log[..|log| - 1], log[|log| - 1];
      if k in Cleared(e) then 0
      else AdmittedSince(before, k) + if Admits(After(before), e) && k in KeysOf(e) then 1 else 0
  }

  /** Attempts that advanced the counter `later`, of those counting against k, since k was last cleared. */
  function AdvancedSince(log: seq<Event>, k: Key, later: Key): nat {
    if log == [] then 0
    else
      var before, e := log[..|log| - 1], log[|log| - 1];
      if k in Cleared(e) then 0
      else
        AdvancedSince(before, k, later)
        + if e.Reserve? && k in KeysOf(e) && Count(After(log), later) > Count(After(before), later) then 1 else 0
  }

  /** The caps: at most 10 per (phone, IP, hour), 30 per (phone, day) and 50 per (IP, hour) since the last clear. */
  lemma {:induction false} AdmittedWithinLimit(log: seq<Event>, k: Key)
    ensures AdmittedSince(log, k) <= Limit(k) && AdmittedSince(log, k) <= Count(After(log), k)
    decreases |log|
  {
    if log != [] {
      var before, e := log[..|log| - 1], log[|log| - 1];
      AdmittedWithinLimit(before, k);
      if e.Reserve? { ReserveExactly(After(before), e); }
    }
  }

  // ---- The caps over the attempts themselves ----

  /** What is capped: a phone from one IP in an hour, a phone in a day, an IP in an hour. */
  datatype Cap = PairCap(phone: nat, ip: nat, hour: nat) | PhoneCap(phone: nat, day: nat) | IpCap(ip: nat, hour: nat)

  function Most(cap: Cap): nat {
    match cap
    case PairCap(_, _, _) => 10
    case PhoneCap(_, _) => 30
    case IpCap(_, _) => 50
  }

  /** The attempt is one of those the cap is about. */
  predicate Under(e: Event, cap: Cap) {
    e.Reserve? &&
    match cap
    case PairCap(phone, ip, hour) => e.phone == phone && e.ip == ip && hour * HOUR_MS <= e.at < (hour + 1) * HOUR_MS
    case PhoneCap(phone, day) => e.phone == phone && day * DAY_MS <= e.at < (day + 1) * DAY_MS
    case IpCap(ip, hour) => e.ip == ip && hour * HOUR_MS <= e.at < (hour + 1) * HOUR_MS
  }

  /** A proven login clears its phone and IP in that hour and its phone on that day, a proven reset the latter. */
  predicate Lifts(e: Event, cap: Cap) {
    e.Clear? &&
    match cap
    case PairCap(phone, ip, hour) =>
      e.phone == phone && e.from == Some(ip) && hour * HOUR_MS <= e.at < (hour + 1) * HOUR_MS
    case PhoneCap(phone, day) => e.phone == phone && day * DAY_MS <= e.at < (day + 1) * DAY_MS
    case IpCap(_, _) => false
  }

  /** The attempts under the cap that were admitted, and all of them, since it was last lifted. */
  function AdmittedUnder(log: seq<Event>, cap: Cap): nat {
    if log == [] then 0
    else
      var before, e := log[..|log| - 1], log[|log| - 1];
      if Lifts(e, cap) then 0 else AdmittedUnder(before, cap) + if Under(e, cap) && Admits(After(before), e) then 1 else 0
  }

  function TriedUnder(log: seq<Event>, cap: Cap): nat {
    if log == [] then 0
    else
      var before, e := log[..|log| - 1], log[|log| - 1];
      if Lifts(e, cap) then 0 else TriedUnder(before, cap) + if Under(e, cap) then 1 else 0
  }

  function KeyOf(cap: Cap): Key {
    match cap
    case PairCap(phone, ip, hour) => PhoneIp(phone, ip, hour)
    case PhoneCap(phone, day) => Phone(phone, day)
    case IpCap(ip, hour) => Ip(ip, hour)
  }

  lemma InBucket(at: nat, width: nat, n: nat)
    requires width > 0
    ensures at / width == n <==> n * width <= at < (n + 1) * width
  {
    var q := at / width;
    assert at == q * width + at % width;
    if q < n { assert (q + 1) * width <= n * width; }
    if q > n { assert (n + 1) * width <= q * width; }
  }

  /** The counter of a cap is one of an attempt's, and is cleared, exactly when the cap is about it and is lifted. */
  lemma CounterOfCap(e: Event, cap: Cap)
    ensures e.Reserve? ==> (KeyOf(cap) in KeysOf(e) <==> Under(e, cap))
    ensures KeyOf(cap) in Cleared(e) <==> Lifts(e, cap)
    ensures Limit(KeyOf(cap)) == Most(cap)
  {
    match cap
    case PairCap(_, _, hour) => InBucket(e.at, HOUR_MS, hour);
    case PhoneCap(_, day) => InBucket(e.at, DAY_MS, day);
    case IpCap(_, hour) => InBucket(e.at, HOUR_MS, hour);
  }

  lemma {:induction false} CounterCounts(log: seq<Event>, cap: Cap)
    ensures AdmittedUnder(log, cap) == AdmittedSince(log, KeyOf(cap))
    ensures Count(After(log), KeyOf(cap)) <= TriedUnder(log, cap)
    decreases |log|
  {
    if log != [] {
      var before, e := log[..|log| - 1], log[|log| - 1];
      CounterCounts(before, cap);
      CounterOfCap(e, cap);
      if e.Reserve? { ReserveExactly(After(before), e); }
    }
  }

  /**
   For any log: since a phone was last cleared that day at most 30 attempts on it are admitted, from one
   IP at most 10 an hour, and at most 50 an hour from one IP on all phones.
   */
  lemma CapsHold(log: seq<Event>, cap: Cap)
    ensures AdmittedUnder(log, cap) <= Most(cap)
  {
    CounterCounts(log, cap);
    AdmittedWithinLimit(log, KeyOf(cap));
    CounterOfCap(Clear(0, None, 0), cap);
  }

  /** And nobody is refused before a cap is used up: an attempt under caps with room left is admitted. */
  lemma RoomLeftAdmits(log: seq<Event>, e: Event)
    requires e.Reserve? && forall cap :: Under(e, cap) ==> TriedUnder(log, cap) < Most(cap)
    ensures Admits(After(log), e)
  {
    var pair, day, ip := PairCap(e.phone, e.ip, Hour(e.at)), PhoneCap(e.phone, Day(e.at)), IpCap(e.ip, Hour(e.at));
    ReserveExactly(After(log), e);
    InBucket(e.at, HOUR_MS, Hour(e.at));
    InBucket(e.at, DAY_MS, Day(e.at));
    CounterCounts(log, pair);
    CounterCounts(log, day);
    CounterCounts(log, ip);
    assert Under(e, pair) && Under(e, day) && Under(e, ip);
  }

  /** Nothing clears an IP's hourly counter, so its cap holds over the whole hour. */
  lemma IpCounterNeverCleared(e: Event, ip: nat, hour: nat)
    ensures Ip(ip, hour) !in Cleared(e)
  {
  }

  /** One IP moves a phone's day counter at most ten times an hour between clears of its own counter. */
  lemma {:induction false} OneIpAdvancesDayAtMostTen(log: seq<Event>, phone: nat, ip: nat, hour: nat, day: nat)
    ensures AdvancedSince(log, PhoneIp(phone, ip, hour), Phone(phone, day)) <= 10
    ensures AdvancedSince(log, PhoneIp(phone, ip, hour), Phone(phone, day)) <= Count(After(log), PhoneIp(phone, ip, hour))
    decreases |log|
  {
    if log != [] {
      var before, e := log[..|log| - 1], log[|log| - 1];
      OneIpAdvancesDayAtMostTen(before, phone, ip, hour, day);
      if e.Reserve? { ReserveExactly(After(before), e); }
    }
  }

  /** Each attempt that is within its own hourly cap advances the phone's day counter, and no other of that IP does. */
  lemma AttemptAdvancesDay(log: seq<Event>, e: Event)
    requires e.Reserve?
    ensures var own, day := PhoneIp(e.phone, e.ip, Hour(e.at)), Phone(e.phone, Day(e.at));
            AdvancedSince(log + [e], own, day) == AdvancedSince(log, own, day) + if Count(After(log), own) < 10 then 1 else 0
  {
    ReserveExactly(After(log), e);
    assert (log + [e])[..|log|] == log && (log + [e])[|log|] == e;
    assert After(log + [e]) == Step(After(log), e);
  }

  /** A bucket's key, armed at its first write, outlives the bucket. */
  lemma TtlCoversBucket(t: nat, later: nat)
    requires t <= later
    ensures Hour(later) == Hour(t) ==> later < t + HOUR_BUCKET_TTL_MS
    ensures Day(later) == Day(t) ==> later < t + DAY_BUCKET_TTL_MS
  {
  }

  // ---- Each INCR its own step ----

  /** A reservation under way: its keys, how many of their INCRs it passed, and whether one was over its limit. */
  datatype Attempt = Attempt(keys: seq<Key>, passed: nat, refused: bool)

  /**
   held: the attempts that passed the INCR of a key since it was last deleted. crossed: those under way
   past it when it was deleted. finished: those admitted since then that count against it.
   */
  datatype Shared = Shared(counters: Counters, attempts: map<nat, Attempt>,
                           held: map<Key, set<nat>>, crossed: map<Key, set<nat>>, finished: map<Key, set<nat>>)

  /** Drop: a clear deletes the key, or its TTL does. */
  datatype Call = Begin(id: nat, phone: nat, ip: nat, at: nat) | Incr(id: nat) | Drop(key: Key)

  predicate UnderWay(a: Attempt) { !a.refused && a.passed < |a.keys| }

  predicate Admitted(a: Attempt) { !a.refused && a.passed == |a.keys| }

  predicate Counts(a: Attempt, k: Key) { a.passed <= |a.keys| && k in a.keys[..a.passed] }

  function Of(m: map<Key, set<nat>>, k: Key): set<nat> { if k in m then m[k] else {} }

  predicate Callable(s: Shared, c: Call) {
    match c
    case Begin(id, _, _, _) => id !in s.attempts
    case Incr(id) => id in s.attempts && UnderWay(s.attempts[id])
    case Drop(_) => true
  }

  /** An INCR over the limit ends the attempt; within it, the attempt goes on to its next key. */
  function AfterIncr(s: Shared, id: nat): Shared
    requires Callable(s, Incr(id))
  {
    var a := s.attempts[id];
    var k := a.keys[a.passed];
    var c := Bump(s.counters, k);
    if Count(c, k) > Limit(k) then s.(counters := c, attempts := s.attempts[id := a.(refused := true)])
    else
      var b := a.(passed := a.passed + 1);
      s.(counters := c, attempts := s.attempts[id := b], held := s.held[k := Of(s.held, k) + {id}],
         finished := if Admitted(b) then Finish(s.finished, b.keys, id) else s.finished)
  }

  function Finish(finished: map<Key, set<nat>>, keys: seq<Key>, id: nat): map<Key, set<nat>> {
    map k | k in finished.Keys + (set j | j in keys) :: if k in keys then Of(finished, k) + {id} else Of(finished, k)
  }

  function AfterDrop(s: Shared, k: Key): Shared {
    var open := set id | id in s.attempts && UnderWay(s.attempts[id]) && Counts(s.attempts[id], k);
    s.(counters := s.counters - {k}, held := s.held[k := {}], crossed := s.crossed[k := open], finished := s.finished[k := {}])
  }

  function Act(s: Shared, c: Call): Shared
    requires Callable(s, c)
  {
    match c
    case Begin(id, phone, ip, at) => s.(attempts := s.attempts[id := Attempt(KeysOf(Reserve(phone, ip, at)), 0, false)])
    case Incr(id) => AfterIncr(s, id)
    case Drop(k) => AfterDrop(s, k)
  }

  ghost predicate Runs(s: Shared, calls: seq<Call>)
    decreases |calls|
  {
    calls == [] || (Callable(s, calls[0]) && Runs(Act(s, calls[0]), calls[1..]))
  }

  ghost function Exec(s: Shared, calls: seq<Call>): Shared
    requires Runs(s, calls)
    decreases |calls|
  {
    if calls == [] then s else Exec(Act(s, calls[0]), calls[1..])
  }

  function Unused(): Shared { Shared(map[], map[], map[], map[], map[]) }

  /** The counter bounds what is held. */
  ghost predicate HeldBounded(s: Shared) {
    forall k :: |Of(s.held, k)| <= Limit(k) && |Of(s.held, k)| <= Count(s.counters, k)
  }

  /** An attempt under way that passed a key is held there, or crossed its last delete. */
  ghost predicate OpenPlaced(s: Shared) {
    forall k, id :: id in s.attempts && UnderWay(s.attempts[id]) && Counts(s.attempts[id], k) ==>
      id in Of(s.held, k) || id in Of(s.crossed, k)
  }

  /** So is every attempt admitted since. */
  ghost predicate FinishedPlaced(s: Shared) {
    forall k :: Of(s.finished, k) <= Of(s.held, k) + Of(s.crossed, k)
  }

  ghost predicate Sound(s: Shared) { HeldBounded(s) && OpenPlaced(s) && FinishedPlaced(s) }

  lemma IncrKeepsHeld(s: Shared, id: nat)
    requires HeldBounded(s) && Callable(s, Incr(id))
    ensures HeldBounded(AfterIncr(s, id))
  {
    var t := AfterIncr(s, id);
    var key := s.attempts[id].keys[s.attempts[id].passed];
    forall k
      ensures |Of(t.held, k)| <= Limit(k) && |Of(t.held, k)| <= Count(t.counters, k)
    {
      assert k != key ==> Of(t.held, k) == Of(s.held, k) && Count(t.counters, k) == Count(s.counters, k);
    }
  }

  /** What one INCR does to the places of its attempt. */
  lemma IncrMoves(s: Shared, id: nat)
    requires Callable(s, Incr(id))
    ensures var t := AfterIncr(s, id);
            && t.crossed == s.crossed && (forall k :: Of(s.held, k) <= Of(t.held, k))
            && (forall k :: !t.attempts[id].refused && Counts(t.attempts[id], k) ==>
                  id in Of(t.held, k) || Counts(s.attempts[id], k))
            && (forall k :: Of(t.finished, k) <= Of(s.finished, k)
                                                 + if Admitted(t.attempts[id]) && Counts(t.attempts[id], k) then {id} else {})
  {
    var a, t := s.attempts[id], AfterIncr(s, id);
    var b := t.attempts[id];
    if !b.refused {
      assert b.keys[..b.passed] == a.keys[..a.passed] + [a.keys[a.passed]];
      assert Admitted(b) ==> b.keys[..b.passed] == b.keys;
    }
  }

  lemma IncrKeepsOpen(s: Shared, id: nat)
    requires OpenPlaced(s) && Callable(s, Incr(id))
    ensures OpenPlaced(AfterIncr(s, id))
  {
    IncrMoves(s, id);
    var t := AfterIncr(s, id);
    assert forall j :: j != id && j in t.attempts ==> j in s.attempts && t.attempts[j] == s.attempts[j];
    assert UnderWay(s.attempts[id]);
    hide AfterIncr, Counts, Of;
    forall k, j | j in t.attempts && UnderWay(t.attempts[j]) && Counts(t.attempts[j], k)
      ensures j in Of(t.held, k) || j in Of(t.crossed, k)
    {
      assert Of(s.held, k) <= Of(t.held, k);
    }
  }

  lemma IncrKeepsFinished(s: Shared, id: nat)
    requires OpenPlaced(s) && FinishedPlaced(s) && Callable(s, Incr(id))
    ensures FinishedPlaced(AfterIncr(s, id))
  {
    IncrMoves(s, id);
    var t := AfterIncr(s, id);
    assert UnderWay(s.attempts[id]);
    hide AfterIncr, Counts, Of;
    forall k
      ensures Of(t.finished, k) <= Of(t.held, k) + Of(t.crossed, k)
    {
      assert Of(s.held, k) <= Of(t.held, k);
      assert Admitted(t.attempts[id]) && Counts(t.attempts[id], k) ==> id in Of(t.held, k) || id in Of(t.crossed, k);
    }
  }

  /** What a delete does to the places of a key, and of no other. */
  lemma DropMoves(s: Shared, key: Key)
    ensures var t := AfterDrop(s, key);
            && t.attempts == s.attempts
            && (forall k :: k != key ==> Count(t.counters, k) == Count(s.counters, k) && Of(t.held, k) == Of(s.held, k)
                                         && Of(t.crossed, k) == Of(s.crossed, k) && Of(t.finished, k) == Of(s.finished, k))
            && Of(t.held, key) == {} && Of(t.finished, key) == {}
            && forall id :: id in s.attempts && UnderWay(s.attempts[id]) && Counts(s.attempts[id], key) ==> id in Of(t.crossed, key)
  {
    hide UnderWay, Counts, Limit;
  }

  lemma DropKeepsSound(s: Shared, key: Key)
    requires Sound(s)
    ensures Sound(AfterDrop(s, key))
  {
    DropMoves(s, key);
    hide AfterDrop, UnderWay, Counts, Of, Count;
    var t := AfterDrop(s, key);
    forall k
      ensures |Of(t.held, k)| <= Limit(k) && |Of(t.held, k)| <= Count(t.counters, k)
      ensures Of(t.finished, k) <= Of(t.held, k) + Of(t.crossed, k)
    {
      if k != key { assert Of(t.held, k) == Of(s.held, k); }
    }
    forall k, id | id in t.attempts && UnderWay(t.attempts[id]) && Counts(t.attempts[id], k)
      ensures id in Of(t.held, k) || id in Of(t.crossed, k)
    {
      if k != key { assert Of(t.held, k) == Of(s.held, k); }
    }
  }

  lemma StepKeepsSound(s: Shared, c: Call)
    requires Sound(s) && Callable(s, c)
    ensures Sound(Act(s, c))
  {
    match c
    case Begin(id, phone, ip, at) =>
      var t := Act(s, c);
      assert t.attempts[id].keys[..0] == [];
      assert forall j :: j != id && j in t.attempts ==> t.attempts[j] == s.attempts[j];
    case Incr(id) =>
      IncrKeepsHeld(s, id);
      IncrKeepsOpen(s, id);
      IncrKeepsFinished(s, id);
    case Drop(k) => DropKeepsSound(s, k);
  }

  lemma {:induction false} RunKeepsSound(s: Shared, calls: seq<Call>)
    requires Sound(s) && Runs(s, calls)
    ensures Sound(Exec(s, calls))
    decreases |calls|
  {
    if calls != [] {
      StepKeepsSound(s, calls[0]);
      RunKeepsSound(Act(s, calls[0]), calls[1..]);
    }
  }

  /**
   The caps with clears and other attempts between any two INCRs: at most Limit(k) attempts pass the
   INCR of k between two deletes of it. An attempt admitted after a delete may have passed k before it,
   so those exceed the limit by at most the attempts that were under way past k at the delete.
   */
  lemma InterleavedCaps(calls: seq<Call>, k: Key)
    requires Runs(Unused(), calls)
    ensures var e := Exec(Unused(), calls);
            && |Of(e.held, k)| <= Limit(k)
            && |Of(e.finished, k)| <= Limit(k) + |Of(e.crossed, k)|
            && (Of(e.crossed, k) == {} ==> |Of(e.finished, k)| <= Limit(k))
  {
    RunKeepsSound(Unused(), calls);
    var e := Exec(Unused(), calls);
    var held, crossed := Of(e.held, k), Of(e.crossed, k);
    SubsetSize(Of(e.finished, k), held + crossed);
    assert held + crossed == held + (crossed - held);
    SubsetSize(crossed - held, crossed);
  }

  // ---- The overshoot is reached ----

  lemma RunFrom(s: Shared, c: Call, rest: seq<Call>)
    requires Callable(s, c) && Runs(Act(s, c), rest)
    ensures Runs(s, [c] + rest) && Exec(s, [c] + rest) == Exec(Act(s, c), rest)
  {
    assert ([c] + rest)[1..] == rest;
  }

  lemma {:induction false} RunsJoin(s: Shared, first: seq<Call>, second: seq<Call>)
    requires Runs(s, first) && Runs(Exec(s, first), second)
    ensures Runs(s, first + second) && Exec(s, first + second) == Exec(Exec(s, first), second)
    decreases |first|
  {
    if first == [] {
      assert first + second == second;
    } else {
      assert (first + second)[1..] == first[1..] + second;
      RunsJoin(Act(s, first[0]), first[1..], second);
    }
  }

  /** What an attempt that passes one more INCR changes. */
  ghost predicate Passes(s: Shared, t: Shared, id: nat) {
    && id in s.attempts && UnderWay(s.attempts[id])
    && var a := s.attempts[id];
       var key := a.keys[a.passed];
       && t.counters == Bump(s.counters, key) && t.crossed == s.crossed
       && t.attempts == s.attempts[id := a.(passed := a.passed + 1)]
       && forall k :: Of(t.finished, k) == Of(s.finished, k) + if a.passed + 1 == |a.keys| && k in a.keys then {id} else {}
  }

  lemma IncrPasses(s: Shared, id: nat)
    requires Callable(s, Incr(id)) && !Full(s.counters, s.attempts[id].keys[s.attempts[id].passed])
    ensures Passes(s, AfterIncr(s, id), id)
  {
  }

  /** Between s and t attempt id passed the counters of `keys`, and was admitted. */
  ghost predicate Finishes(s: Shared, t: Shared, id: nat, keys: set<Key>) {
    && t.crossed == s.crossed && id in t.attempts && t.attempts == s.attempts[id := t.attempts[id]]
    && (forall k :: Count(t.counters, k) == Count(s.counters, k) + if k in keys then 1 else 0)
    && |t.attempts[id].keys| == 3 && Admitted(t.attempts[id])
    && forall k :: Of(t.finished, k) == Of(s.finished, k) + if k in t.attempts[id].keys then {id} else {}
  }

  lemma PassesOne(s: Shared, t: Shared, id: nat)
    requires Passes(s, t, id)
    ensures id in t.attempts && t.attempts[id] == s.attempts[id].(passed := s.attempts[id].passed + 1)
    ensures forall j :: j != s.attempts[id].keys[s.attempts[id].passed] ==> Count(t.counters, j) == Count(s.counters, j)
  {
  }

  lemma PassesTwo(s: Shared, t: Shared, u: Shared, id: nat, k: seq<Key>)
    requires Passes(s, t, id) && Passes(t, u, id) && s.attempts[id] == Attempt(k, 1, false) && |k| == 3 && k[1] != k[2]
    ensures Finishes(s, u, id, {k[1], k[2]}) && u.attempts[id].keys == k
  {
  }

  lemma PassesThen(s: Shared, t: Shared, u: Shared, id: nat, k: seq<Key>)
    requires Passes(s, t, id) && s.attempts[id] == Attempt(k, 0, false) && |k| == 3 && k[0] != k[1] && k[0] != k[2]
    requires Finishes(t, u, id, {k[1], k[2]}) && u.attempts[id].keys == k
    ensures Finishes(s, u, id, {k[0], k[1], k[2]})
  {
  }

  /** An attempt that passed its first counter passes the other two. */
  lemma RestPasses(s: Shared, id: nat, k: seq<Key>)
    requires id in s.attempts && s.attempts[id] == Attempt(k, 1, false) && |k| == 3
    requires k[1] != k[2] && !Full(s.counters, k[1]) && !Full(s.counters, k[2])
    ensures Runs(s, [Incr(id), Incr(id)]) && Finishes(s, Exec(s, [Incr(id), Incr(id)]), id, {k[1], k[2]})
    ensures Exec(s, [Incr(id), Incr(id)]).attempts[id].keys == k
  {
    hide AfterIncr, Finishes, Passes;
    var t := AfterIncr(s, id);
    IncrPasses(s, id);
    PassesOne(s, t, id);
    IncrPasses(t, id);
    var u := AfterIncr(t, id);
    PassesTwo(s, t, u, id, k);
    RunFrom(t, Incr(id), []);
    RunFrom(s, Incr(id), [Incr(id)]);
    assert [Incr(id), Incr(id)] == [Incr(id)] + [Incr(id)];
  }

  lemma BeginOnly(s: Shared, s0: Shared, u: Shared, id: nat, keys: set<Key>)
    requires Finishes(s0, u, id, keys) && id in s0.attempts && s0 == s.(attempts := s.attempts[id := s0.attempts[id]])
    ensures Finishes(s, u, id, keys)
  {
  }

  /** An attempt on counters that are not full is admitted. */
  lemma WholePasses(s: Shared, id: nat, phone: nat, ip: nat, at: nat)
    requires id !in s.attempts
    requires forall k :: k in KeysOf(Reserve(phone, ip, at)) ==> !Full(s.counters, k)
    ensures var k := KeysOf(Reserve(phone, ip, at));
            var calls := [Begin(id, phone, ip, at), Incr(id), Incr(id), Incr(id)];
            Runs(s, calls) && Finishes(s, Exec(s, calls), id, {k[0], k[1], k[2]}) && Exec(s, calls).attempts[id].keys == k
  {
    var k := KeysOf(Reserve(phone, ip, at));
    var s0 := Act(s, Begin(id, phone, ip, at));
    assert s0.attempts[id] == Attempt(k, 0, false) && |k| == 3 && k[0] != k[1] && k[0] != k[2] && k[1] != k[2];
    hide KeysOf;
    assert k[0] in k && k[1] in k && k[2] in k;
    hide AfterIncr, Finishes, Passes;
    var s1 := AfterIncr(s0, id);
    IncrPasses(s0, id);
    PassesOne(s0, s1, id);
    RestPasses(s1, id, k);
    PassesThen(s0, s1, Exec(s1, [Incr(id), Incr(id)]), id, k);
    BeginOnly(s, s0, Exec(s1, [Incr(id), Incr(id)]), id, {k[0], k[1], k[2]});
    RunFrom(s0, Incr(id), [Incr(id), Incr(id)]);
    RunFrom(s, Begin(id, phone, ip, at), [Incr(id)] + [Incr(id), Incr(id)]);
    assert [Begin(id, phone, ip, at), Incr(id), Incr(id), Incr(id)]
        == [Begin(id, phone, ip, at)] + ([Incr(id)] + [Incr(id), Incr(id)]);
  }

  ghost function OneTo(n: nat): set<nat> { if n == 0 then {} else OneTo(n - 1) + {n} }

  lemma {:induction false} OneToSize(n: nat)
    ensures |OneTo(n)| == n && forall id :: id in OneTo(n) ==> 1 <= id <= n
  {
    if n > 0 { OneToSize(n - 1); }
  }

  /** What attempts 1 to n leave. */
  ghost predicate AfterMany(s: Shared, t: Shared, n: nat, keys: seq<Key>) {
    && t.crossed == s.crossed && (forall id :: id in t.attempts ==> id <= n)
    && (0 in s.attempts ==> 0 in t.attempts && t.attempts[0] == s.attempts[0])
    && (forall k :: Count(t.counters, k) <= Count(s.counters, k) + n)
    && forall k :: k in keys ==> Of(t.finished, k) == Of(s.finished, k) + OneTo(n)
  }

  lemma ManyMore(s: Shared, t: Shared, u: Shared, n: nat, keys: seq<Key>)
    requires n > 0 && AfterMany(s, t, n - 1, keys) && |keys| == 3
    requires Finishes(t, u, n, {keys[0], keys[1], keys[2]}) && u.attempts[n].keys == keys
    ensures AfterMany(s, u, n, keys)
  {
  }

  /** Attempts 1 to n, one after the other, while none of their counters has more than n below its limit taken. */
  lemma {:induction false} ManyPass(s: Shared, n: nat, phone: nat, ip: nat, at: nat) returns (calls: seq<Call>)
    requires forall id :: id in s.attempts ==> id == 0
    requires forall k :: k in KeysOf(Reserve(phone, ip, at)) ==> Count(s.counters, k) + n <= Limit(k)
    ensures Runs(s, calls)
    ensures AfterMany(s, Exec(s, calls), n, KeysOf(Reserve(phone, ip, at)))
  {
    var keys := KeysOf(Reserve(phone, ip, at));
    NoneYet(s, keys);
    hide AfterMany, Finishes, KeysOf, Full, Count, Runs, Exec, Limit;
    calls := [];
    if n == 0 {
      NoCalls(s);
    } else {
      calls := ManyPass(s, n - 1, phone, ip, at);
      var t := Exec(s, calls);
      ReadyForNext(s, t, n, keys);
      var more := [Begin(n, phone, ip, at), Incr(n), Incr(n), Incr(n)];
      WholePasses(t, n, phone, ip, at);
      RunsJoin(s, calls, more);
      ManyMore(s, t, Exec(t, more), n, keys);
      calls := calls + more;
    }
  }

  lemma NoCalls(s: Shared)
    ensures Runs(s, []) && Exec(s, []) == s
  {
  }

  lemma NoneYet(s: Shared, keys: seq<Key>)
    requires forall id :: id in s.attempts ==> id == 0
    ensures AfterMany(s, s, 0, keys)
  {
  }

  lemma ReadyForNext(s: Shared, t: Shared, n: nat, keys: seq<Key>)
    requires n > 0 && AfterMany(s, t, n - 1, keys)
    requires forall k :: k in keys ==> Count(s.counters, k) + n <= Limit(k)
    ensures n !in t.attempts && forall k :: k in keys ==> !Full(t.counters, k)
  {
  }

  /** An attempt paused past its own counter, which is then cleared. */
  function Paused(keys: seq<Key>): Shared
    requires keys != []
  {
    Shared(map[], map[0 := Attempt(keys, 1, false)], map[keys[0] := {}], map[keys[0] := {0}], map[keys[0] := {}])
  }

  lemma PausedIsReached(phone: nat, ip: nat, at: nat)
    ensures var keys := KeysOf(Reserve(phone, ip, at));
            var calls := [Begin(0, phone, ip, at), Incr(0), Drop(keys[0])];
            Runs(Unused(), calls) && Exec(Unused(), calls) == Paused(keys)
  {
    var keys := KeysOf(Reserve(phone, ip, at));
    assert |keys| == 3 && Limit(keys[0]) == 10;
    hide KeysOf;
    var s1 := Act(Unused(), Begin(0, phone, ip, at));
    var s2 := AfterIncr(s1, 0);
    assert s2.counters == map[keys[0] := 1] && s2.attempts == map[0 := Attempt(keys, 1, false)];
    assert s2.crossed == map[] && s2.finished == map[];
    assert keys[..1] == [keys[0]];
    var s3 := AfterDrop(s2, keys[0]);
    assert forall id :: id in s3.crossed[keys[0]] <==> id == 0;
    assert s3.crossed[keys[0]] == {0};
    assert s3.counters == map[] && s3.crossed == map[keys[0] := {0}] && s3.finished == map[keys[0] := {}];
    assert s3.held == map[keys[0] := {}];
    RunFrom(s2, Drop(keys[0]), []);
    RunFrom(s1, Incr(0), [Drop(keys[0])]);
    RunFrom(Unused(), Begin(0, phone, ip, at), [Incr(0)] + [Drop(keys[0])]);
    assert [Begin(0, phone, ip, at), Incr(0), Drop(keys[0])] == [Begin(0, phone, ip, at)] + ([Incr(0)] + [Drop(keys[0])]);
  }

  lemma LastOneOver(s: Shared, t: Shared, u: Shared, n: nat, keys: seq<Key>)
    requires |keys| == 3 && s == Paused(keys) && AfterMany(s, t, n, keys)
    requires Finishes(t, u, 0, {keys[1], keys[2]}) && u.attempts[0].keys == keys
    ensures Of(u.crossed, keys[0]) == {0} && |Of(u.finished, keys[0])| == n + 1
  {
    OneToSize(n);
    hide OneTo;
    assert Of(s.finished, keys[0]) == {};
    assert Of(u.finished, keys[0]) == OneTo(n) + {0};
  }

  /** One attempt pauses past its own counter, the counter is cleared, ten more are admitted, and then it is: eleven. */
  lemma OvershootIsReached(phone: nat, ip: nat, at: nat) returns (calls: seq<Call>)
    ensures var k := PhoneIp(phone, ip, Hour(at));
            && Runs(Unused(), calls) && Of(Exec(Unused(), calls).crossed, k) == {0}
            && |Of(Exec(Unused(), calls).finished, k)| == Limit(k) + 1
  {
    var keys := KeysOf(Reserve(phone, ip, at));
    assert |keys| == 3 && keys[0] == PhoneIp(phone, ip, Hour(at)) && keys[1] != keys[2];
    assert Limit(keys[0]) == 10 && Limit(keys[1]) == 30 && Limit(keys[2]) == 50;
    hide KeysOf, AfterMany, Finishes, Runs, Exec, Limit;
    var head := [Begin(0, phone, ip, at), Incr(0), Drop(keys[0])];
    PausedIsReached(phone, ip, at);
    var s := Paused(keys);
    var many := ManyPass(s, 10, phone, ip, at);
    var t := Exec(s, many);
    RoomLeft(s, t, keys);
    RestPasses(t, 0, keys);
    var rest := [Incr(0), Incr(0)];
    LastOneOver(s, t, Exec(t, rest), 10, keys);
    RunsJoin(s, many, rest);
    RunsJoin(Unused(), head, many + rest);
    calls := head + (many + rest);
  }

  lemma RoomLeft(s: Shared, t: Shared, keys: seq<Key>)
    requires |keys| == 3 && s == Paused(keys) && AfterMany(s, t, 10, keys) && Limit(keys[1]) > 10 && Limit(keys[2]) > 10
    ensures 0 in t.attempts && t.attempts[0] == Attempt(keys, 1, false)
    ensures !Full(t.counters, keys[1]) && !Full(t.counters, keys[2])
  {
  }

  /** With nothing in between, an attempt's INCRs are one reservation. */
  lemma IncrsAreOneReservation(s: Shared, id: nat, phone: nat, ip: nat, at: nat)
    requires id !in s.attempts
    ensures var e := Reserve(phone, ip, at);
            var t := Alone(Act(s, Begin(id, phone, ip, at)), id);
            t.counters == Step(s.counters, e) && (Admitted(t.attempts[id]) <==> Admits(s.counters, e))
  {
    var s0 := Act(s, Begin(id, phone, ip, at));
    var keys := KeysOf(Reserve(phone, ip, at));
    assert s0.attempts[id].keys[0..] == keys;
    AloneBumps(s0, id);
  }

  lemma {:induction false} AloneBumps(s: Shared, id: nat)
    requires id in s.attempts && !s.attempts[id].refused && s.attempts[id].passed <= |s.attempts[id].keys|
    ensures var t := Alone(s, id);
            var left := BumpWhileAdmitted(s.counters, s.attempts[id].keys[s.attempts[id].passed..]);
            t.counters == left.0 && (Admitted(t.attempts[id]) <==> left.1)
    decreases |s.attempts[id].keys| - s.attempts[id].passed
  {
    var a := s.attempts[id];
    if a.passed < |a.keys| {
      var t := AfterIncr(s, id);
      assert a.keys[a.passed..] == [a.keys[a.passed]] + a.keys[a.passed + 1..];
      UnfoldBump(s.counters, a.keys[a.passed], a.keys[a.passed + 1..]);
      if !t.attempts[id].refused { AloneBumps(t, id); }
    }
  }

  /** The attempt runs to its end with no other step in between. */
  function Alone(s: Shared, id: nat): (t: Shared)
    requires id in s.attempts
    ensures id in t.attempts
    decreases if UnderWay(s.attempts[id]) then |s.attempts[id].keys| - s.attempts[id].passed else 0
  {
    if UnderWay(s.attempts[id]) then Alone(AfterIncr(s, id), id) else s
  }

  class Throttle {
    var counters: Counters

    constructor ()
      ensures counters == map[]
    {
      counters := map[];
    }

    method BumpCounter(k: Key) returns (n: nat)
      modifies this
      ensures counters == Bump(old(counters), k) && n == Count(counters, k)
    {
      n := Count(counters, k) + 1;
      counters := counters[k := n];
    }

    method ReserveLoginAttempt(phone: nat, ip: nat, at: nat) returns (ok: bool)
      modifies this
      ensures counters == Step(old(counters), Reserve(phone, ip, at))
      ensures ok <==> Admits(old(counters), Reserve(phone, ip, at))
    {
      ReserveExactly(counters, Reserve(phone, ip, at));
      var hour, day := at / HOUR_MS, at / DAY_MS;
      var perPair := BumpCounter(PhoneIp(phone, ip, hour));
      if perPair > 10 { return false; }
      var perPhone := BumpCounter(Phone(phone, day));
      if perPhone > 30 { return false; }
      var perIp := BumpCounter(Ip(ip, hour));
      ok := perIp <= 50;
    }

    method ClearLoginFailures(phone: nat, from: Option<nat>, at: nat)
      modifies this
      ensures counters == Step(old(counters), Clear(phone, from, at))
    {
      if from.Some? { counters := counters - {PhoneIp(phone, from.value, at / HOUR_MS)}; }
      counters := counters - {Phone(phone, at / DAY_MS)};
    }
  }
}
