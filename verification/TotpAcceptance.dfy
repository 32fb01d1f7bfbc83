/**
 Acceptance of a one-time code (section 5.2 of RFC 6238: a code is used once). Many calls of
 acceptCode on one row interleave at every Redis call; the row lock may expire while it is
 held and its release is a read followed by a delete. Times are in ms.
 */
module TotpAcceptance {

  const STEP_MS: int := 30_000
  const LOCK_TTL_MS: int := 5_000
  const USED_TTL_MS: int := 4 * STEP_MS
  const LAST_TTL_MS: int := 24 * 60 * 60 * 1000

  type CallId = nat

  datatype Lock = Free | Held(owner: CallId, expiresAt: int)
  datatype Last = NoStep | Last(step: int, expiresAt: int)

  /** Where a call stands. `lockedAt` is when it took the row lock. */
  datatype Pc =
    | Locked(lockedAt: int)
    | Read(lockedAt: int, seen: Last)
    | Checked(lockedAt: int, step: int, checkedAt: int)
    | Claimed(lockedAt: int, step: int, checkedAt: int, claimedAt: int)
    | Releasing(lockedAt: int)
    | Deleting(lockedAt: int)
    | Done

  /** What acceptCode returns. */
  datatype Answer = True | False | Threw

  datatype Accept = Accept(call: CallId, step: int, checkedAt: int, claimedAt: int)

  datatype State = State(
    now: int,
    lock: Lock,
    last: Last,
    used: map<int, int>,        // step -> expiry of its marker
    calls: map<CallId, Pc>,
    accepted: seq<Accept>)      // the steps accepted, in the order of their last-step writes

  datatype Action =
    | Tick(ms: nat)
    | TakeLock(call: CallId)                   // SET lock NX EX
    | ReadLast(call: CallId)                   // GET last
    | CheckCode(call: CallId, found: Last)     // verifyTotp on the clock; NoStep when no step matches
    | Claim(call: CallId)                      // SET used:<step> NX EX
    | WriteLast(call: CallId)                  // SET last EX
    | CompareLock(call: CallId)                // GET lock
    | DeleteLock(call: CallId)                 // DEL lock
    | Fail(call: CallId)                       // a Redis call throws inside the try: on to the finally block
    | Stop(call: CallId)                       // the call ends where it is, with the lock as it is

  // ---- Redis with expiry ----

  function LiveLock(s: State): Lock {
    if s.lock.Held? && s.now < s.lock.expiresAt then s.lock else Free
  }

  function LiveLast(s: State): Last {
    if s.last.Last? && s.now < s.last.expiresAt then s.last else NoStep
  }

  predicate MarkerLive(s: State, step: int) { step in s.used && s.now < s.used[step] }

  function ClockStep(ms: int): int { ms / STEP_MS }

  /** A step verifyTotp may return: within one of the clock's step, above the last step read. */
  predicate Verifies(now: int, step: int, seen: Last) {
    ClockStep(now) - 1 <= step <= ClockStep(now) + 1 && (seen.Last? ==> step > seen.step)
  }

  // ---- The steps of acceptCode ----

  predicate InTry(pc: Pc) { pc.Locked? || pc.Read? || pc.Checked? || pc.Claimed? }

  predicate Holding(pc: Pc) { !pc.Done? }

  predicate Enabled(s: State, a: Action) {
    match a
    case Tick(_) => true
    case TakeLock(c) => c !in s.calls
    case ReadLast(c) => c in s.calls && s.calls[c].Locked?
    case CheckCode(c, m) => c in s.calls && s.calls[c].Read? && (m.Last? ==> Verifies(s.now, m.step, s.calls[c].seen))
    case Claim(c) => c in s.calls && s.calls[c].Checked?
    case WriteLast(c) => c in s.calls && s.calls[c].Claimed?
    case CompareLock(c) => c in s.calls && s.calls[c].Releasing?
    case DeleteLock(c) => c in s.calls && s.calls[c].Deleting?
    case Fail(c) => c in s.calls && InTry(s.calls[c])
    case Stop(c) => c in s.calls && Holding(s.calls[c])
  }

  function Goto(s: State, c: CallId, pc: Pc): State { s.(calls := s.calls[c := pc]) }

  function Apply(s: State, a: Action): State
    requires Enabled(s, a)
  {
    match a
    case Tick(ms) => s.(now := s.now + ms)
    case TakeLock(c) =>
      if LiveLock(s).Held? then Goto(s, c, Done)
      else Goto(s, c, Locked(s.now)).(lock := Held(c, s.now + LOCK_TTL_MS))
    case ReadLast(c) => Goto(s, c, Read(s.calls[c].lockedAt, LiveLast(s)))
    case CheckCode(c, m) =>
      var at := s.calls[c].lockedAt;
      if m.Last? then Goto(s, c, Checked(at, m.step, s.now)) else Goto(s, c, Releasing(at))
    case Claim(c) =>
      var pc := s.calls[c];
      if MarkerLive(s, pc.step) then Goto(s, c, Releasing(pc.lockedAt))
      else
        Goto(s, c, Claimed(pc.lockedAt, pc.step, pc.checkedAt, s.now))
        .(used := s.used[pc.step := s.now + USED_TTL_MS])
    case WriteLast(c) =>
      var pc := s.calls[c];
      Goto(s, c, Releasing(pc.lockedAt))
      .(last := Last(pc.step, s.now + LAST_TTL_MS),
        accepted := s.accepted + [Accept(c, pc.step, pc.checkedAt, pc.claimedAt)])
    case CompareLock(c) =>
      if LiveLock(s).Held? && s.lock.owner == c then Goto(s, c, Deleting(s.calls[c].lockedAt)) else Goto(s, c, Done)
    case DeleteLock(c) => Goto(s, c, Done).(lock := Free)
    case Fail(c) => Goto(s, c, Releasing(s.calls[c].lockedAt))
    case Stop(c) => Goto(s, c, Done)
  }

  ghost predicate Runs(s: State, actions: seq<Action>)
    decreases |actions|
  {
    actions == [] || (Enabled(s, actions[0]) && Runs(Apply(s, actions[0]), actions[1..]))
  }

  ghost function Exec(s: State, actions: seq<Action>): State
    requires Runs(s, actions)
    decreases |actions|
  {
    if actions == [] then s else Exec(Apply(s, actions[0]), actions[1..])
  }

  ghost predicate Fresh(s: State) {
    s.lock == Free && s.last == NoStep && s.used == map[] && s.calls == map[] && s.accepted == []
  }

  // ---- One-time use ----

  /** Every claim comes at most `d` ms after its check. */
  ghost predicate Timely(s: State, actions: seq<Action>, d: int)
    requires Runs(s, actions)
    decreases |actions|
  {
    actions != [] ==>
      && (actions[0].Claim? ==> s.now - s.calls[actions[0].call].checkedAt <= d)
      && Timely(Apply(s, actions[0]), actions[1..], d)
  }

  ghost predicate AcceptedOnce(s: State) {
    forall i, j :: 0 <= i < j < |s.accepted| ==> s.accepted[i].step != s.accepted[j].step
  }

  /** A code for `step` passes the ±1 window for 90 s. */
  predicate InWindow(step: int, at: int) { (step - 1) * STEP_MS <= at < (step + 2) * STEP_MS }

  /** The claim of `step` at `claimedAt` stands: its marker is the one this claim wrote. */
  ghost predicate Stands(s: State, step: int, checkedAt: int, claimedAt: int) {
    && InWindow(step, checkedAt) && checkedAt <= claimedAt <= s.now
    && step in s.used && s.used[step] == claimedAt + USED_TTL_MS
  }

  ghost predicate MarkersCover(s: State) {
    && AcceptedOnce(s)
    && (forall i :: 0 <= i < |s.accepted| ==>
          Stands(s, s.accepted[i].step, s.accepted[i].checkedAt, s.accepted[i].claimedAt))
    && (forall c :: c in s.calls && s.calls[c].Claimed? ==>
          Stands(s, s.calls[c].step, s.calls[c].checkedAt, s.calls[c].claimedAt))
    && (forall c, i :: c in s.calls && s.calls[c].Claimed? && 0 <= i < |s.accepted| ==>
          s.accepted[i].step != s.calls[c].step)
    && (forall c, d :: c in s.calls && d in s.calls && c != d && s.calls[c].Claimed? && s.calls[d].Claimed? ==>
          s.calls[c].step != s.calls[d].step)
    && (forall c :: c in s.calls && s.calls[c].Checked? ==>
          InWindow(s.calls[c].step, s.calls[c].checkedAt) && s.calls[c].checkedAt <= s.now)
  }

  lemma VerifiedStepInWindow(now: int, step: int, seen: Last)
    requires Verifies(now, step, seen)
    ensures InWindow(step, now)
  {
  }

  /** A claim that stands keeps its marker for as long as its step can still be checked and claimed in time. */
  lemma MarkerOutlivesTheWindow(s: State, step: int, checkedAt: int, claimedAt: int, again: int)
    requires Stands(s, step, checkedAt, claimedAt) && InWindow(step, again) && s.now - again <= STEP_MS
    ensures MarkerLive(s, step)
  {
    assert claimedAt >= (step - 1) * STEP_MS;
    assert s.now < (step + 3) * STEP_MS;
  }

  lemma ClaimKeepsMarkers(s: State, c: CallId)
    requires MarkersCover(s) && Enabled(s, Claim(c))
    requires s.now - s.calls[c].checkedAt <= STEP_MS
    ensures MarkersCover(Apply(s, Claim(c)))
  {
    var pc := s.calls[c];
    if !MarkerLive(s, pc.step) {
      forall i | 0 <= i < |s.accepted| ensures s.accepted[i].step != pc.step {
        var a := s.accepted[i];
        if a.step == pc.step { MarkerOutlivesTheWindow(s, a.step, a.checkedAt, a.claimedAt, pc.checkedAt); }
      }
      forall o | o in s.calls && s.calls[o].Claimed? ensures s.calls[o].step != pc.step {
        var p := s.calls[o];
        if p.step == pc.step { MarkerOutlivesTheWindow(s, p.step, p.checkedAt, p.claimedAt, pc.checkedAt); }
      }
    }
  }

  lemma WriteKeepsMarkers(s: State, c: CallId)
    requires MarkersCover(s) && Enabled(s, WriteLast(c))
    ensures MarkersCover(Apply(s, WriteLast(c)))
  {
  }

  lemma CheckKeepsMarkers(s: State, c: CallId, m: Last)
    requires MarkersCover(s) && Enabled(s, CheckCode(c, m))
    ensures MarkersCover(Apply(s, CheckCode(c, m)))
  {
    if m.Last? { VerifiedStepInWindow(s.now, m.step, s.calls[c].seen); }
  }

  lemma StepKeepsMarkers(s: State, a: Action)
    requires MarkersCover(s) && Enabled(s, a)
    requires a.Claim? ==> s.now - s.calls[a.call].checkedAt <= STEP_MS
    ensures MarkersCover(Apply(s, a))
  {
    match a
    case Claim(c) => ClaimKeepsMarkers(s, c);
    case WriteLast(c) => WriteKeepsMarkers(s, c);
    case CheckCode(c, m) => CheckKeepsMarkers(s, c, m);
    case _ =>
  }

  lemma {:induction false} NoStepTwiceFrom(s: State, actions: seq<Action>, d: int)
    requires d <= STEP_MS && MarkersCover(s) && Runs(s, actions) && Timely(s, actions, d)
    ensures MarkersCover(Exec(s, actions))
    decreases |actions|
  {
    if actions != [] {
      StepKeepsMarkers(s, actions[0]);
      NoStepTwiceFrom(Apply(s, actions[0]), actions[1..], d);
    }
  }

  /** No step is accepted twice, whatever the interleaving and however late the lock is released. */
  lemma NoStepAcceptedTwice(s: State, actions: seq<Action>, d: int)
    requires Fresh(s) && d <= STEP_MS && Runs(s, actions) && Timely(s, actions, d)
    ensures AcceptedOnce(Exec(s, actions))
  {
    NoStepTwiceFrom(s, actions, d);
  }

  // ---- 30 s from check to claim is the exact limit ----

  ghost predicate OneTimeUse(d: int) {
    forall s: State, actions: seq<Action> ::
      Fresh(s) && Runs(s, actions) && Timely(s, actions, d) ==> AcceptedOnce(Exec(s, actions))
  }

  lemma RunStep(s: State, a: Action, rest: seq<Action>, d: int) returns (actions: seq<Action>)
    requires Enabled(s, a) && Runs(Apply(s, a), rest) && Timely(Apply(s, a), rest, d)
    requires a.Claim? ==> s.now - s.calls[a.call].checkedAt <= d
    ensures actions == [a] + rest && Runs(s, actions) && Timely(s, actions, d)
    ensures Exec(s, actions) == Exec(Apply(s, a), rest)
    ensures forall h :: HoldsWithin(s, h) && HeldThroughout(Apply(s, a), rest, h) ==> HeldThroughout(s, actions, h)
  {
    actions := [a] + rest;
    assert actions[1..] == rest;
  }

  ghost function Initial(): State { State(0, Free, NoStep, map[], map[], []) }

  /** Call 0 has claimed `step` at time 0; the lock has just expired and the last step is not yet written. */
  ghost function EarlyClaim(step: int): State {
    State(LOCK_TTL_MS, Held(0, LOCK_TTL_MS), NoStep, map[step := USED_TTL_MS], map[0 := Claimed(0, step, 0, 0)], [])
  }

  lemma FirstCall(step: int, rest: seq<Action>, d: int) returns (actions: seq<Action>)
    requires 0 <= step <= 1 && d >= 0 && Runs(EarlyClaim(step), rest) && Timely(EarlyClaim(step), rest, d)
    ensures Runs(Initial(), actions) && Timely(Initial(), actions, d)
    ensures Exec(Initial(), actions) == Exec(EarlyClaim(step), rest)
    ensures forall h :: h > LOCK_TTL_MS && HeldThroughout(EarlyClaim(step), rest, h) ==> HeldThroughout(Initial(), actions, h)
  {
    var code := Last(step, 0);
    var s := Initial();
    var s1 := Apply(s, TakeLock(0));
    var s2 := Apply(s1, ReadLast(0));
    var s3 := Apply(s2, CheckCode(0, code));
    var s4 := Apply(s3, Claim(0));
    assert Apply(s4, Tick(LOCK_TTL_MS)) == EarlyClaim(step);
    actions := RunStep(s4, Tick(LOCK_TTL_MS), rest, d);
    actions := RunStep(s3, Claim(0), actions, d);
    actions := RunStep(s2, CheckCode(0, code), actions, d);
    actions := RunStep(s1, ReadLast(0), actions, d);
    actions := RunStep(s, TakeLock(0), actions, d);
  }

  lemma LateClaim(d: int) returns (rest: seq<Action>)
    requires d > STEP_MS
    ensures Runs(EarlyClaim(1), rest) && Timely(EarlyClaim(1), rest, d) && !AcceptedOnce(Exec(EarlyClaim(1), rest))
  {
    var code := Last(1, 0);
    var wait := Tick(3 * STEP_MS - 1 - LOCK_TTL_MS);
    var s5 := EarlyClaim(1);
    var s6 := Apply(s5, TakeLock(1));
    var s7 := Apply(s6, ReadLast(1));
    var s8 := Apply(s7, wait);
    var s9 := Apply(s8, CheckCode(1, code));
    var s10 := Apply(s9, Tick(STEP_MS + 1));
    rest := BothWrite(Apply(s10, Claim(1)), d);
    ghost var accepted := Exec(Apply(s10, Claim(1)), rest).accepted;
    assert accepted[0].step == accepted[1].step;
    rest := RunStep(s10, Claim(1), rest, d);
    rest := RunStep(s9, Tick(STEP_MS + 1), rest, d);
    rest := RunStep(s8, CheckCode(1, code), rest, d);
    rest := RunStep(s7, wait, rest, d);
    rest := RunStep(s6, ReadLast(1), rest, d);
    rest := RunStep(s5, TakeLock(1), rest, d);
  }

  /** Call 1 writes its step as the last one, and call 0 after it. */
  lemma BothWrite(s: State, d: int) returns (rest: seq<Action>)
    requires 0 in s.calls && s.calls[0].Claimed? && 1 in s.calls && s.calls[1].Claimed?
    ensures Runs(s, rest) && Timely(s, rest, d)
    ensures Exec(s, rest).accepted ==
            s.accepted + [Accept(1, s.calls[1].step, s.calls[1].checkedAt, s.calls[1].claimedAt)]
            + [Accept(0, s.calls[0].step, s.calls[0].checkedAt, s.calls[0].claimedAt)]
    ensures forall h :: HoldsWithin(s, h) ==> HeldThroughout(s, rest, h)
  {
    var s1 := Apply(s, WriteLast(1));
    var s2 := Apply(s1, WriteLast(0));
    rest := RunStep(s1, WriteLast(0), [], d);
    rest := RunStep(s, WriteLast(1), rest, d);
  }

  /** Two calls with one code: the first claims as early as possible, the second as late as possible. */
  lemma SlowReplayAcceptsTwice(d: int) returns (s: State, actions: seq<Action>)
    requires d > STEP_MS
    ensures Fresh(s) && Runs(s, actions) && Timely(s, actions, d) && !AcceptedOnce(Exec(s, actions))
  {
    s := Initial();
    var rest := LateClaim(d);
    actions := FirstCall(1, rest, d);
  }

  /** One-time use holds for all runs exactly when a claim follows its check within one 30 s step. */
  lemma OneTimeUseExactly(d: int)
    ensures OneTimeUse(d) <==> d <= STEP_MS
  {
    if d <= STEP_MS {
      forall s: State, actions: seq<Action> | Fresh(s) && Runs(s, actions) && Timely(s, actions, d)
        ensures AcceptedOnce(Exec(s, actions))
      {
        NoStepAcceptedTwice(s, actions, d);
      }
    } else {
      var s, actions := SlowReplayAcceptsTwice(d);
    }
  }

  // ---- Accepted steps increase while no hold outlives the lock ----

  /** Every call that holds took the lock less than `h` ms ago. */
  ghost predicate HoldsWithin(s: State, h: int) {
    forall c :: c in s.calls && Holding(s.calls[c]) ==> s.now < s.calls[c].lockedAt + h
  }

  ghost predicate HeldThroughout(s: State, actions: seq<Action>, h: int)
    requires Runs(s, actions)
    decreases |actions|
  {
    HoldsWithin(s, h) && (actions != [] ==> HeldThroughout(Apply(s, actions[0]), actions[1..], h))
  }

  ghost predicate StepsIncrease(s: State) {
    forall i, j :: 0 <= i < j < |s.accepted| ==> s.accepted[i].step < s.accepted[j].step
  }

  ghost predicate HolderHasLock(s: State) {
    forall c :: c in s.calls && Holding(s.calls[c]) ==> s.lock == Held(c, s.calls[c].lockedAt + LOCK_TTL_MS)
  }

  /** `last` is the last step accepted, and lives a day from the check of it. */
  ghost predicate LastIsKnown(s: State) {
    s.accepted != [] ==>
      var a := s.accepted[|s.accepted| - 1];
      && a.checkedAt <= s.now && InWindow(a.step, a.checkedAt)
      && s.last.Last? && s.last.step == a.step && s.last.expiresAt >= a.checkedAt + LAST_TTL_MS
  }

  /** What a holder has read or matched is still right about the last accepted step. */
  ghost predicate HolderIsCurrent(s: State) {
    forall c :: c in s.calls && Holding(s.calls[c]) ==>
      var pc := s.calls[c];
      && (s.accepted != [] ==>
            var a := s.accepted[|s.accepted| - 1];
            && (pc.Read? ==> if pc.seen.Last? then pc.seen.step == a.step else s.now >= a.checkedAt + LAST_TTL_MS)
            && (pc.Checked? || pc.Claimed? ==> pc.step > a.step))
      && (pc.Checked? || pc.Claimed? ==> InWindow(pc.step, pc.checkedAt) && pc.checkedAt <= s.now)
  }

  ghost predicate Ordered(s: State) {
    StepsIncrease(s) && HolderHasLock(s) && LastIsKnown(s) && HolderIsCurrent(s)
  }

  /** A day after the last check, any step in the window is a later one. */
  lemma ADayLaterIsLater(a: Accept, now: int, step: int)
    requires InWindow(a.step, a.checkedAt) && now >= a.checkedAt + LAST_TTL_MS && InWindow(step, now)
    ensures step > a.step
  {
  }

  lemma OnlyOneHolder(s: State, c: CallId, other: CallId)
    requires HolderHasLock(s) && c in s.calls && other in s.calls
    requires Holding(s.calls[c]) && Holding(s.calls[other])
    ensures c == other
  {
  }

  lemma TakeKeepsOrder(s: State, c: CallId)
    requires Ordered(s) && HoldsWithin(s, LOCK_TTL_MS) && Enabled(s, TakeLock(c))
    ensures Ordered(Apply(s, TakeLock(c)))
  {
    if LiveLock(s) == Free {
      forall o | o in s.calls ensures !Holding(s.calls[o]) {
      }
    }
  }

  lemma CheckKeepsOrder(s: State, c: CallId, m: Last)
    requires Ordered(s) && Enabled(s, CheckCode(c, m))
    ensures Ordered(Apply(s, CheckCode(c, m)))
  {
    if m.Last? {
      VerifiedStepInWindow(s.now, m.step, s.calls[c].seen);
      if s.accepted != [] && !s.calls[c].seen.Last? {
        ADayLaterIsLater(s.accepted[|s.accepted| - 1], s.now, m.step);
      }
    }
  }

  lemma ClaimKeepsOrder(s: State, c: CallId)
    requires Ordered(s) && Enabled(s, Claim(c))
    ensures Ordered(Apply(s, Claim(c)))
  {
    forall o | o in s.calls && Holding(s.calls[o]) ensures o == c { OnlyOneHolder(s, c, o); }
  }

  lemma WriteKeepsOrder(s: State, c: CallId)
    requires Ordered(s) && Enabled(s, WriteLast(c))
    ensures Ordered(Apply(s, WriteLast(c)))
  {
    forall o | o in s.calls && Holding(s.calls[o]) ensures o == c { OnlyOneHolder(s, c, o); }
  }

  lemma ReleaseKeepsOrder(s: State, c: CallId)
    requires Ordered(s) && HoldsWithin(s, LOCK_TTL_MS) && Enabled(s, DeleteLock(c))
    ensures Ordered(Apply(s, DeleteLock(c)))
  {
    forall o | o in s.calls && Holding(s.calls[o]) ensures o == c { OnlyOneHolder(s, c, o); }
  }

  lemma StepKeepsOrder(s: State, a: Action)
    requires Ordered(s) && HoldsWithin(s, LOCK_TTL_MS) && Enabled(s, a)
    ensures Ordered(Apply(s, a))
  {
    match a
    case Tick(_) =>
    case TakeLock(c) => TakeKeepsOrder(s, c);
    case ReadLast(c) =>
    case CheckCode(c, m) => CheckKeepsOrder(s, c, m);
    case Claim(c) => ClaimKeepsOrder(s, c);
    case WriteLast(c) => WriteKeepsOrder(s, c);
    case CompareLock(c) =>
    case DeleteLock(c) => ReleaseKeepsOrder(s, c);
    case Fail(c) =>
    case Stop(c) =>
  }

  lemma {:induction false} OrderedThroughout(s: State, actions: seq<Action>, h: int)
    requires h <= LOCK_TTL_MS && Ordered(s) && Runs(s, actions) && HeldThroughout(s, actions, h)
    ensures Ordered(Exec(s, actions))
    decreases |actions|
  {
    if actions != [] {
      StepKeepsOrder(s, actions[0]);
      OrderedThroughout(Apply(s, actions[0]), actions[1..], h);
    }
  }

  /** Accepted steps strictly increase over the whole run, for any number of calls and any delay to the claim. */
  lemma AcceptedStepsIncrease(s: State, actions: seq<Action>, h: int)
    requires h <= LOCK_TTL_MS && Fresh(s) && Runs(s, actions) && HeldThroughout(s, actions, h)
    ensures StepsIncrease(Exec(s, actions))
  {
    OrderedThroughout(s, actions, h);
  }

  // ---- and the lock's TTL is the exact limit ----

  ghost predicate OrderKept(h: int) {
    forall s: State, actions: seq<Action> ::
      Fresh(s) && Runs(s, actions) && HeldThroughout(s, actions, h) ==> StepsIncrease(Exec(s, actions))
  }

  /** While call 0 stands between its claim of step 0 and its write, call 1 accepts step 1. */
  lemma NewerStepBetween() returns (rest: seq<Action>)
    ensures Runs(EarlyClaim(0), rest) && Timely(EarlyClaim(0), rest, 0)
    ensures !StepsIncrease(Exec(EarlyClaim(0), rest))
    ensures forall h :: h > LOCK_TTL_MS ==> HeldThroughout(EarlyClaim(0), rest, h)
  {
    hide Runs, Exec, Timely, HeldThroughout;
    var s5 := EarlyClaim(0);
    var s6 := Apply(s5, TakeLock(1));
    var s7 := Apply(s6, ReadLast(1));
    var s8 := Apply(s7, CheckCode(1, Last(1, 0)));
    var s9 := Apply(s8, Claim(1));
    rest := BothWrite(s9, 0);
    ghost var accepted := Exec(s9, rest).accepted;
    assert accepted[0].step == 1 && accepted[1].step == 0;
    rest := RunStep(s8, Claim(1), rest, 0);
    rest := RunStep(s7, CheckCode(1, Last(1, 0)), rest, 0);
    rest := RunStep(s6, ReadLast(1), rest, 0);
    rest := RunStep(s5, TakeLock(1), rest, 0);
  }

  /** A holder stopped between its claim and its write accepts its step after the next call has accepted a newer one. */
  lemma StoppedHolderBreaksTheOrder(h: int) returns (s: State, actions: seq<Action>)
    requires h > LOCK_TTL_MS
    ensures Fresh(s) && Runs(s, actions) && Timely(s, actions, 0) && HeldThroughout(s, actions, h)
    ensures !StepsIncrease(Exec(s, actions))
  {
    s := Initial();
    var rest := NewerStepBetween();
    actions := FirstCall(0, rest, 0);
  }

  /** Accepted steps increase in all runs exactly when every call is over before its lock can expire. */
  lemma OrderKeptExactly(h: int)
    ensures OrderKept(h) <==> h <= LOCK_TTL_MS
  {
    if h <= LOCK_TTL_MS {
      forall s: State, actions: seq<Action> | Fresh(s) && Runs(s, actions) && HeldThroughout(s, actions, h)
        ensures StepsIncrease(Exec(s, actions))
      {
        AcceptedStepsIncrease(s, actions, h);
      }
    } else {
      var s, actions := StoppedHolderBreaksTheOrder(h);
    }
  }

  // ---- acceptCode against Redis ----

  function CallOf(a: Action): set<CallId> { if a.Tick? then {} else {a.call} }

  lemma {:induction false} RunsJoin(s: State, first: seq<Action>, second: seq<Action>)
    requires Runs(s, first) && Runs(Exec(s, first), second)
    ensures Runs(s, first + second) && Exec(s, first + second) == Exec(Exec(s, first), second)
    decreases |first|
  {
    if first == [] {
      assert first + second == second;
    } else {
      assert (first + second)[1..] == first[1..] + second;
      RunsJoin(Apply(s, first[0]), first[1..], second);
    }
  }

  ghost predicate IsRun(before: State, run: seq<Action>, after: State) {
    Runs(before, run) && after == Exec(before, run)
  }

  /** Call c has accepted a step. */
  ghost predicate AcceptedBy(s: State, c: CallId) { exists i :: 0 <= i < |s.accepted| && s.accepted[i].call == c }

  lemma OthersAcceptForThemselves(s: State, a: Action, c: CallId)
    requires Enabled(s, a) && a != WriteLast(c)
    ensures AcceptedBy(Apply(s, a), c) <==> AcceptedBy(s, c)
  {
    var t := Apply(s, a);
    if AcceptedBy(s, c) {
      var i :| 0 <= i < |s.accepted| && s.accepted[i].call == c;
      assert t.accepted[i] == s.accepted[i];
    }
    if AcceptedBy(t, c) {
      var i :| 0 <= i < |t.accepted| && t.accepted[i].call == c;
      assert i < |s.accepted| && s.accepted[i] == t.accepted[i];
    }
  }

  lemma RunThen(before: State, run: seq<Action>, after: State, a: Action)
    requires IsRun(before, run, after) && Enabled(after, a)
    ensures IsRun(before, run + [a], Apply(after, a))
  {
    RunsJoin(before, run, [a]);
  }

  /**
   Why a call that answers false does: at `at` the lock was held, or the code matched no step above the
   last one it had read, or the marker of its step was there.
   */
  ghost predicate Refuses(at: State, me: CallId, code: int -> Last) {
    if me !in at.calls then LiveLock(at).Held?
    else match at.calls[me]
         case Read(_, seen) => code(at.now).Last? && seen.Last? ==> code(at.now).step <= seen.step
         case Checked(_, step, _) => MarkerLive(at, step)
         case _ => false
  }

  ghost predicate Reached(start: State, run: seq<Action>, n: nat, at: State) { n <= |run| && IsRun(start, run[..n], at) }

  lemma NowReached(start: State, run: seq<Action>, s: State)
    requires IsRun(start, run, s)
    ensures Reached(start, run, |run|, s)
  {
    assert run[..|run|] == run;
  }

  lemma LockedOut(at: State, me: CallId, code: int -> Last)
    requires me !in at.calls && Apply(at, TakeLock(me)).calls[me].Done?
    ensures Refuses(at, me, code)
  {
  }

  lemma ReachedStays(start: State, run: seq<Action>, longer: seq<Action>, n: nat, at: State)
    requires Reached(start, run, n, at) && run <= longer
    ensures Reached(start, longer, n, at)
  {
    assert longer[..n] == run[..n];
  }

  // ---- A good code is accepted ----

  lemma NoActions(s: State)
    ensures Runs(s, []) && Timely(s, [], 0) && Exec(s, []) == s
  {
  }

  /** A last step is read for a day from its write and no longer, and so is a lock for 5 s, and a marker for 120 s. */
  lemma KeysLiveTheirTtl(s: State, c: CallId, ms: nat)
    requires c in s.calls && s.calls[c].Claimed?
    ensures var t := Apply(Apply(s, WriteLast(c)), Tick(ms)); LiveLast(t).Last? <==> ms < 24 * 3_600_000
    ensures s.calls[c].step in s.used && s.used[s.calls[c].step] == s.calls[c].claimedAt + USED_TTL_MS ==>
              (MarkerLive(Apply(s, Tick(ms)), s.calls[c].step) <==> s.now + ms < s.calls[c].claimedAt + 120_000)
  {
  }

  /** From the match on: the claim, the write and the release of its own lock. */
  lemma LoneMatchIsAccepted(s: State, c: CallId, step: int, checkedAt: int)
    requires c in s.calls && s.calls[c].Checked? && s.calls[c].step == step && s.calls[c].checkedAt == checkedAt == s.now
    requires LiveLock(s).Held? && s.lock.owner == c && !MarkerLive(s, step)
    ensures var run := [Claim(c), WriteLast(c), CompareLock(c), DeleteLock(c)];
            && Runs(s, run) && Timely(s, run, 0)
            && var e := Exec(s, run);
               && e.accepted == s.accepted + [Accept(c, step, checkedAt, s.now)] && e.lock == Free
               && LiveLast(e).Last? && LiveLast(e).step == step && MarkerLive(e, step) && c in e.calls && e.calls[c].Done?
  {
    hide Runs, Exec, Timely, HeldThroughout;
    var s4 := Apply(s, Claim(c));
    var s5 := Apply(s4, WriteLast(c));
    var s6 := Apply(s5, CompareLock(c));
    var s7 := Apply(s6, DeleteLock(c));
    NoActions(s7);
    var r := RunStep(s6, DeleteLock(c), [], 0);
    r := RunStep(s5, CompareLock(c), r, 0);
    r := RunStep(s4, WriteLast(c), r, 0);
    r := RunStep(s, Claim(c), r, 0);
    assert r == [Claim(c), WriteLast(c), CompareLock(c), DeleteLock(c)];
  }

  /** With the lock free, no failure and nothing in between, a code of a new step is accepted and the lock is freed. */
  lemma LoneCodeIsAccepted(s: State, c: CallId, step: int)
    requires c !in s.calls && LiveLock(s) == Free && Verifies(s.now, step, LiveLast(s)) && !MarkerLive(s, step)
    ensures var run := LoneRun(c, step);
            && Runs(s, run)
            && var e := Exec(s, run);
               && e.accepted == s.accepted + [Accept(c, step, s.now, s.now)] && e.lock == Free
               && LiveLast(e).Last? && LiveLast(e).step == step && MarkerLive(e, step) && c in e.calls && e.calls[c].Done?
  {
    hide Runs, Exec, Timely, HeldThroughout;
    var code := Last(step, 0);
    var s1 := Apply(s, TakeLock(c));
    var s2 := Apply(s1, ReadLast(c));
    var s3 := Apply(s2, CheckCode(c, code));
    LoneMatchIsAccepted(s3, c, step, s.now);
    var r := RunStep(s2, CheckCode(c, code), [Claim(c), WriteLast(c), CompareLock(c), DeleteLock(c)], 0);
    r := RunStep(s1, ReadLast(c), r, 0);
    r := RunStep(s, TakeLock(c), r, 0);
    assert r == LoneRun(c, step);
  }

  function LoneRun(c: CallId, step: int): seq<Action> {
    [TakeLock(c), ReadLast(c), CheckCode(c, Last(step, 0)), Claim(c), WriteLast(c), CompareLock(c), DeleteLock(c)]
  }

  /** One customer row's keys in Redis, the clock, and the calls in flight on it. */
  class MfaRedis {
    var s: State
    ghost var start: State
    ghost var run: seq<Action>

    ghost predicate Valid() reads this { IsRun(start, run, s) }

    constructor ()
      ensures Valid() && Fresh(s) && start == s && run == []
    {
      s := State(0, Free, NoStep, map[], map[], []);
      start := State(0, Free, NoStep, map[], map[], []);
      run := [];
    }

    /** One Redis call (or one clock reading) of one call of acceptCode. */
    method Do(a: Action)
      requires Valid() && Enabled(s, a)
      modifies this
      ensures Valid() && start == old(start)
      ensures s == Apply(old(s), a) && run == old(run) + [a]
    {
      RunThen(start, run, s, a);
      run := run + [a];
      s := Apply(s, a);
    }

    /** Time passes and other calls run, any number of steps of them, between two of ours. */
    method Others(me: CallId)
      requires Valid()
      modifies this
      ensures Valid() && start == old(start)
      ensures old(run) <= run
      ensures me in s.calls <==> me in old(s).calls
      ensures me in s.calls ==> s.calls[me] == old(s).calls[me]
      ensures AcceptedBy(s, me) <==> AcceptedBy(old(s), me)
    {
      hide AcceptedBy;
      var steps: nat := *;
      while steps > 0
        invariant Valid() && start == old(start)
        invariant old(run) <= run
        invariant me in s.calls <==> me in old(s).calls
        invariant me in s.calls ==> s.calls[me] == old(s).calls[me]
        invariant AcceptedBy(s, me) <==> AcceptedBy(old(s), me)
      {
        var a: Action := *;
        if Enabled(s, a) && me !in CallOf(a) {
          OthersAcceptForThemselves(s, a, me);
          Do(a);
        }
        steps := steps - 1;
      }
    }

    /**
     acceptCode, one Redis call at a time with the other calls in between; any Redis call may throw, with
     or without having been carried out. `code(now)` is the step the submitted code matches on the clock,
     before the replay check. The execution is a run of the machine above. An answer of true means that
     this call accepted a step after its own claim and write, and an answer of false that it did not, for
     a reason that held at `at`, after `n` steps of the run. It throws exactly when a Redis call did (`threw`).
     */
    method AcceptCode(me: CallId, code: int -> Last) returns (answer: Answer, ghost threw: bool, ghost at: State, ghost n: nat)
      requires Valid() && me !in s.calls && !AcceptedBy(s, me)
      requires forall now :: code(now).Last? ==> ClockStep(now) - 1 <= code(now).step <= ClockStep(now) + 1
      modifies this
      ensures Valid() && start == old(start)
      ensures me in s.calls ==> s.calls[me].Done?
      ensures answer == True ==> AcceptedBy(s, me) && Claim(me) in run && WriteLast(me) in run
      ensures answer == Threw <==> threw
      ensures answer == False ==> !AcceptedBy(s, me) && Reached(start, run, n, at) && Refuses(at, me, code)
    {
      hide AcceptedBy, Reached, Refuses;
      threw, at, n := false, s, |run|;
      if * { return Threw, true, at, n; }
      Others(me);
      at, n := s, |run|;
      NowReached(start, run, s);
      OthersAcceptForThemselves(s, TakeLock(me), me);
      Do(TakeLock(me));
      ReachedStays(start, run[..n], run, n, at);
      if s.calls[me].Done? {
        LockedOut(at, me, code);
        return False, false, at, n;
      }
      if * {
        Others(me);
        OthersAcceptForThemselves(s, Stop(me), me);
        Do(Stop(me));
        return Threw, true, at, n;
      }
      answer, threw, at, n := Attempt(me, code);
      ghost var tried := run;
      var released := Release(me);
      threw := threw || !released;
      if !released { answer := Threw; }
      if answer == False { ReachedStays(start, tried, run, n, at); }
    }

    /** The try block. */
    method Attempt(me: CallId, code: int -> Last) returns (answer: Answer, ghost threw: bool, ghost at: State, ghost n: nat)
      requires Valid() && me in s.calls && s.calls[me].Locked? && !AcceptedBy(s, me)
      requires forall now :: code(now).Last? ==> ClockStep(now) - 1 <= code(now).step <= ClockStep(now) + 1
      modifies this
      ensures Valid() && start == old(start) && me in s.calls && s.calls[me].Releasing?
      ensures answer == True ==> AcceptedBy(s, me) && Claim(me) in run && WriteLast(me) in run
      ensures answer == Threw <==> threw
      ensures answer == False ==> !AcceptedBy(s, me) && Reached(start, run, n, at) && Refuses(at, me, code)
    {
      hide AcceptedBy, Reached;
      Others(me);
      threw, at, n := false, s, |run|;
      if * {
        threw := true;
        answer := Throw(me);
        return;
      }
      OthersAcceptForThemselves(s, ReadLast(me), me);
      Do(ReadLast(me));
      Others(me);
      at, n := s, |run|;
      NowReached(start, run, s);
      var seen := s.calls[me].seen;
      var found := code(s.now);
      if found.Last? && seen.Last? && found.step <= seen.step { found := NoStep; }
      OthersAcceptForThemselves(s, CheckCode(me, found), me);
      Do(CheckCode(me, found));
      if s.calls[me].Releasing? {
        ReachedStays(start, run[..n], run, n, at);
        return False, false, at, n;
      }
      answer, threw, at, n := ClaimStep(me, code);
    }

    method Throw(me: CallId) returns (answer: Answer)
      requires Valid() && me in s.calls && InTry(s.calls[me])
      modifies this
      ensures Valid() && start == old(start) && s == Apply(old(s), Fail(me)) && answer == Threw
    {
      Do(Fail(me));
      return Threw;
    }

    method ClaimStep(me: CallId, ghost code: int -> Last) returns (answer: Answer, ghost threw: bool, ghost at: State, ghost n: nat)
      requires Valid() && me in s.calls && s.calls[me].Checked? && !AcceptedBy(s, me)
      modifies this
      ensures Valid() && start == old(start) && me in s.calls && s.calls[me].Releasing?
      ensures answer == True ==> AcceptedBy(s, me) && Claim(me) in run && WriteLast(me) in run
      ensures answer == Threw <==> threw
      ensures answer == False ==> !AcceptedBy(s, me) && Reached(start, run, n, at) && Refuses(at, me, code)
    {
      hide Reached;
      Others(me);
      threw, at, n := false, s, |run|;
      NowReached(start, run, s);
      if * {
        threw := true;
        answer := Throw(me);
        return;
      }
      OthersAcceptForThemselves(s, Claim(me), me);
      Do(Claim(me));
      if s.calls[me].Releasing? {
        ReachedStays(start, run[..n], run, n, at);
        return False, false, at, n;
      }
      ghost var claimed := run;
      Others(me);
      assert run[|claimed| - 1] == claimed[|claimed| - 1] == Claim(me);
      if * {
        threw := true;
        answer := Throw(me);
        return;
      }
      ghost var before := |s.accepted|;
      Do(WriteLast(me));
      assert s.accepted[before].call == me;
      if * { return Threw, true, at, n; }
      return True, false, at, n;
    }

    /** The finally block: compare the owner, then delete. Another call may take the lock in between; either may throw. */
    method Release(me: CallId) returns (released: bool)
      requires Valid() && me in s.calls && s.calls[me].Releasing?
      modifies this
      ensures Valid() && start == old(start) && me in s.calls && s.calls[me].Done?
      ensures old(run) <= run
      ensures released ==> CompareLock(me) in run
      ensures AcceptedBy(s, me) <==> AcceptedBy(old(s), me)
    {
      hide AcceptedBy;
      Others(me);
      released := *;
      if released {
        OthersAcceptForThemselves(s, CompareLock(me), me);
        Do(CompareLock(me));
        ghost var compared := run;
        assert compared[|compared| - 1] == CompareLock(me);
        if s.calls[me].Done? { return; }
        Others(me);
        assert run[|compared| - 1] == compared[|compared| - 1];
        released := *;
      }
      var last := if released then DeleteLock(me) else Stop(me);
      OthersAcceptForThemselves(s, last, me);
      Do(last);
    }
  }
}
