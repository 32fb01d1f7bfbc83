/**
 The AML sweep's cursor. Any number of sweeps run at once (the lock may lapse), each one store call
 at a time: read the cursor, list a batch past it, evaluate row by row, read the cursor again, write
 it. Rows are inserted and settle in between, Redis may fail at any call, and a sweep that was killed
 simply takes no further step.
 */
module AmlSweep {

  import opened Sets

  const LOOKBACK_MS: int := 24 * 3_600_000
  const COMMIT_LAG_MS: int := 2 * 60_000

  type Pid = nat
  type DedupeKey = nat

  /** A cursor, and the key of a row: creation time, then id. */
  datatype Pos = Pos(at: int, id: nat)

  predicate Before(a: Pos, b: Pos) { a.at < b.at || (a.at == b.at && a.id < b.id) }

  /** A row as the batch read it; `live`: neither blocked nor cancelled. */
  datatype Item = Item(pos: Pos, live: bool)

  /** cur: the last completed row, or the start of the scan while `moved` is false. */
  datatype Sweep =
    | Begun(now: int)
    | Located(now: int, cur: Pos, up: bool)
    | Looping(cur: Pos, moved: bool, rest: seq<Item>, up: bool)
    | Raising(cur: Pos, moved: bool, rest: seq<Item>, up: bool, hits: set<DedupeKey>, left: set<DedupeKey>)
    | Deciding(last: Pos)
    | Writing(last: Pos)
    | Ended

  /**
   rows: position to `live`. done: the rows evaluated to completion with Redis up and their
   destination remembered, each with the hits found. alerts and audits count the committed outbox and
   audit rows of a dedupe key.
   */
  datatype State = State(clock: int, rows: map<Pos, bool>, cursor: Pos, done: map<Pos, set<DedupeKey>>,
                         alerts: multiset<DedupeKey>, audits: multiset<DedupeKey>, sweeps: map<Pid, Sweep>)

  datatype Action =
    // the world
    | Tick(ms: nat)
    | Insert(pos: Pos)
    | Settle(pos: Pos)
    // one sweep
    | Begin(p: Pid)
    | ReadCursor(p: Pid, ok: bool)
    | List(p: Pid, batch: seq<Item>, limit: nat)
    | SkipRow(p: Pid)
    | Evaluate(p: Pid, hits: set<DedupeKey>, redis: bool)
    | Raise(p: Pid, key: DedupeKey)
    | Complete(p: Pid, seeded: bool)
    | Stop(p: Pid)
    | ReadCurrent(p: Pid, ok: bool)
    | WriteCursor(p: Pid)

  // ---- The batch query ----

  predicate Ascending(batch: seq<Item>) {
    forall i, j :: 0 <= i < j < |batch| ==> Before(batch[i].pos, batch[j].pos)
  }

  predicate Listed(batch: seq<Item>, x: Pos) { exists i :: 0 <= i < |batch| && batch[i].pos == x }

  /** listCreatedSince: strictly after `from`, created strictly before `before`, ascending, at most `limit`. */
  predicate IsListing(rows: map<Pos, bool>, from: Pos, before: int, limit: nat, batch: seq<Item>) {
    && |batch| <= limit
    && Ascending(batch)
    && (forall i :: 0 <= i < |batch| ==>
         var x := batch[i].pos; x in rows && rows[x] == batch[i].live && Before(from, x) && x.at < before)
    && (forall x :: x in rows && Before(from, x) && x.at < before ==>
         Listed(batch, x) || (|batch| == limit && (forall i :: 0 <= i < |batch| ==> Before(batch[i].pos, x))))
  }

  // ---- Steps ----

  /** A row commits at most `lag` after its creation time. */
  predicate Enabled(s: State, a: Action, lag: int) {
    match a
    case Tick(_) => true
    case Insert(x) => x !in s.rows && s.clock - lag <= x.at
    case Settle(x) => x in s.rows
    case Begin(p) => p !in s.sweeps
    case ReadCursor(p, _) => p in s.sweeps && s.sweeps[p].Begun?
    case List(p, batch, limit) =>
      p in s.sweeps && s.sweeps[p].Located? &&
      IsListing(s.rows, s.sweeps[p].cur, s.sweeps[p].now - COMMIT_LAG_MS, limit, batch)
    case SkipRow(p) => p in s.sweeps && s.sweeps[p].Looping? && s.sweeps[p].rest != [] && !s.sweeps[p].rest[0].live
    case Evaluate(p, _, _) => p in s.sweeps && s.sweeps[p].Looping? && s.sweeps[p].rest != [] && s.sweeps[p].rest[0].live
    case Raise(p, key) => p in s.sweeps && s.sweeps[p].Raising? && key in s.sweeps[p].left
    case Complete(p, _) => p in s.sweeps && s.sweeps[p].Raising? && s.sweeps[p].left == {} && s.sweeps[p].rest != []
    case Stop(p) => p in s.sweeps && (s.sweeps[p].Begun? || s.sweeps[p].Looping? || s.sweeps[p].Raising?)
    case ReadCurrent(p, _) => p in s.sweeps && s.sweeps[p].Deciding?
    case WriteCursor(p) => p in s.sweeps && s.sweeps[p].Writing?
  }

  function At(s: State, p: Pid, w: Sweep): State { s.(sweeps := s.sweeps[p := w]) }

  function Next(s: State, w: Sweep, a: Action): Sweep {
    match a
    case ReadCursor(_, ok) =>
      if !w.Begun? then w
      else if ok then Located(w.now, s.cursor, true) else Located(w.now, Pos(w.now - LOOKBACK_MS, 0), false)
    case List(_, batch, _) => if !w.Located? then w else Looping(w.cur, false, batch, w.up)
    case SkipRow(_) => if !w.Looping? || w.rest == [] then w else Looping(w.rest[0].pos, true, w.rest[1..], w.up)
    case Evaluate(_, hits, redis) => if !w.Looping? then w else Raising(w.cur, w.moved, w.rest, w.up && redis, hits, hits)
    case Raise(_, key) => if !w.Raising? then w else w.(left := w.left - {key})
    case Complete(_, seeded) =>
      if !w.Raising? || w.rest == [] then w else Looping(w.rest[0].pos, true, w.rest[1..], w.up && seeded)
    case Stop(_) => if (w.Looping? || w.Raising?) && w.moved && w.up then Deciding(w.cur) else Ended
    case ReadCurrent(_, ok) => if !w.Deciding? then w else if ok && Before(s.cursor, w.last) then Writing(w.last) else Ended
    case WriteCursor(_) => Ended
    case _ => w
  }

  /** enqueue and the audit row commit together, and only a new dedupe key writes either. */
  function RaiseAlert(s: State, key: DedupeKey): State {
    if key in s.alerts then s else s.(alerts := s.alerts + multiset{key}, audits := s.audits + multiset{key})
  }

  function ApplyWorld(s: State, a: Action): State {
    match a
    case Tick(ms) => s.(clock := s.clock + ms)
    case Insert(x) => s.(rows := s.rows[x := true])
    case Settle(x) => s.(rows := s.rows[x := false])
    case Begin(p) => At(s, p, Begun(s.clock))
    case _ => s
  }

  /** What a sweep's step does to the shared stores. */
  function ApplyStores(s: State, w: Sweep, a: Action): State {
    match a
    case Raise(_, key) => RaiseAlert(s, key)
    case Complete(_, seeded) =>
      if w.Raising? && w.rest != [] && w.up && seeded then s.(done := s.done[w.rest[0].pos := w.hits]) else s
    case WriteCursor(_) => if w.Writing? then s.(cursor := w.last) else s
    case _ => s
  }

  function SweepOf(a: Action): set<Pid> {
    if a.Tick? || a.Insert? || a.Settle? || a.Begin? then {} else {a.p}
  }

  function Apply(s: State, a: Action): State {
    if a.Tick? || a.Insert? || a.Settle? || a.Begin? then ApplyWorld(s, a)
    else if a.p !in s.sweeps then s
    else At(ApplyStores(s, s.sweeps[a.p], a), a.p, Next(s, s.sweeps[a.p], a))
  }

  ghost predicate Runs(s: State, actions: seq<Action>, lag: int)
    decreases |actions|
  {
    actions == [] || (Enabled(s, actions[0], lag) && Runs(Apply(s, actions[0]), actions[1..], lag))
  }

  function Exec(s: State, actions: seq<Action>): State
    decreases |actions|
  {
    if actions == [] then s else Exec(Apply(s, actions[0]), actions[1..])
  }

  // ---- The cursor never passes an unevaluated row ----

  /** Every live row up to c was evaluated to completion, and no row can appear up to c any more. */
  ghost predicate SafeAt(s: State, c: Pos) {
    && c.at < s.clock - COMMIT_LAG_MS
    && forall x :: x in s.rows && s.rows[x] && !Before(c, x) ==> x in s.done
  }

  /** Nothing but the batch's own rows lies between `cur` and the batch's end. */
  ghost predicate Contiguous(s: State, cur: Pos, rest: seq<Item>) {
    && Ascending(rest)
    && (forall i :: 0 <= i < |rest| ==>
         && Before(cur, rest[i].pos) && rest[i].pos.at < s.clock - COMMIT_LAG_MS
         && rest[i].pos in s.rows && (!rest[i].live ==> !s.rows[rest[i].pos]))
    && (forall x, i :: x in s.rows && 0 <= i < |rest| && Before(cur, x) && !Before(rest[i].pos, x) ==> Listed(rest, x))
  }

  ghost predicate SweepSafe(s: State, w: Sweep) {
    match w
    case Begun(now) => now <= s.clock
    case Located(now, cur, up) => now <= s.clock && (up ==> SafeAt(s, cur))
    case Looping(cur, moved, rest, up) => up ==> SafeAt(s, cur) && Contiguous(s, cur, rest)
    case Raising(cur, moved, rest, up, hits, left) =>
      && (up ==> SafeAt(s, cur) && Contiguous(s, cur, rest))
      && (forall k :: k in hits ==> k in left || k in s.alerts)
    case Deciding(last) => SafeAt(s, last)
    case Writing(last) => SafeAt(s, last)
    case Ended => true
  }

  /** The cursor's promise: everything behind it was evaluated, and every hit found there is alerted. */
  ghost predicate CursorSafe(s: State) {
    && SafeAt(s, s.cursor)
    && forall x, k :: x in s.done && k in s.done[x] ==> k in s.alerts
  }

  ghost predicate SweepsSafe(s: State) { forall p :: p in s.sweeps ==> SweepSafe(s, s.sweeps[p]) }

  ghost predicate OneAlertPerKey(s: State) {
    s.alerts == s.audits && forall k :: s.alerts[k] <= 1
  }

  ghost predicate Inv(s: State) { CursorSafe(s) && SweepsSafe(s) && OneAlertPerKey(s) }

  /** How the stores may move under a sweep that is not stepping. */
  ghost predicate Grows(s: State, t: State) {
    && s.clock <= t.clock
    && (forall x :: x in s.rows ==> x in t.rows && (t.rows[x] ==> s.rows[x]))
    && (forall x :: x in t.rows && x !in s.rows ==> s.clock - COMMIT_LAG_MS <= x.at)
    && (forall x :: x in s.done ==> x in t.done)
    && (forall k :: k in s.alerts ==> k in t.alerts)
  }

  lemma StepGrows(s: State, a: Action, lag: int)
    requires Enabled(s, a, lag) && lag <= COMMIT_LAG_MS
    ensures Grows(s, Apply(s, a))
  {
  }

  lemma SafeAtStays(s: State, t: State, c: Pos)
    requires Grows(s, t) && SafeAt(s, c)
    ensures SafeAt(t, c)
  {
  }

  lemma ContiguousStays(s: State, t: State, cur: Pos, rest: seq<Item>)
    requires Grows(s, t) && Contiguous(s, cur, rest)
    ensures Contiguous(t, cur, rest)
  {
    forall x, i | x in t.rows && 0 <= i < |rest| && Before(cur, x) && !Before(rest[i].pos, x)
      ensures Listed(rest, x)
    {
      assert x in s.rows;
    }
  }

  lemma SweepSafeStays(s: State, t: State, w: Sweep)
    requires Grows(s, t) && SweepSafe(s, w)
    ensures SweepSafe(t, w)
  {
    match w
    case Begun(_) =>
    case Located(_, cur, up) => if up { SafeAtStays(s, t, cur); }
    case Looping(cur, _, rest, up) => if up { SafeAtStays(s, t, cur); ContiguousStays(s, t, cur, rest); }
    case Raising(cur, _, rest, up, _, _) => if up { SafeAtStays(s, t, cur); ContiguousStays(s, t, cur, rest); }
    case Deciding(last) => SafeAtStays(s, t, last);
    case Writing(last) => SafeAtStays(s, t, last);
    case Ended =>
  }

  /** Past its first row a batch is still contiguous, from that row on. */
  lemma ContiguousTail(s: State, cur: Pos, rest: seq<Item>)
    requires Contiguous(s, cur, rest) && rest != []
    ensures Contiguous(s, rest[0].pos, rest[1..])
  {
    var tail := rest[1..];
    forall i | 0 <= i < |tail|
      ensures Before(rest[0].pos, tail[i].pos) && tail[i] == rest[i + 1]
    {
    }
    forall x, i | x in s.rows && 0 <= i < |tail| && Before(rest[0].pos, x) && !Before(tail[i].pos, x)
      ensures Listed(tail, x)
    {
      assert Before(cur, x) && !Before(rest[i + 1].pos, x);
      var j :| 0 <= j < |rest| && rest[j].pos == x;
      assert tail[j - 1].pos == x;
    }
  }

  /** The row after `cur` was dealt with, so the cursor may stand on it. */
  lemma SafePastFirst(s: State, cur: Pos, rest: seq<Item>)
    requires SafeAt(s, cur) && Contiguous(s, cur, rest) && rest != []
    requires rest[0].pos in s.done || !s.rows[rest[0].pos]
    ensures SafeAt(s, rest[0].pos)
  {
    var c := rest[0].pos;
    forall x | x in s.rows && s.rows[x] && !Before(c, x)
      ensures x in s.done
    {
      if Before(cur, x) {
        var j :| 0 <= j < |rest| && rest[j].pos == x;
        assert j == 0;
      }
    }
  }

  /** A fresh listing starts a contiguous batch. */
  lemma ListingIsContiguous(s: State, cur: Pos, now: int, limit: nat, batch: seq<Item>)
    requires now <= s.clock && IsListing(s.rows, cur, now - COMMIT_LAG_MS, limit, batch)
    ensures Contiguous(s, cur, batch)
  {
    forall x, i | x in s.rows && 0 <= i < |batch| && Before(cur, x) && !Before(batch[i].pos, x)
      ensures Listed(batch, x)
    {
      assert batch[i].pos.at < now - COMMIT_LAG_MS;
    }
  }

  /** The sweep taking the step, if it is one, was safe before it. */
  ghost predicate StepperSafe(s: State, a: Action) {
    SweepOf(a) != {} && a.p in s.sweeps ==> SweepSafe(s, s.sweeps[a.p])
  }

  lemma OwnStepSafe(s: State, a: Action, lag: int)
    requires CursorSafe(s) && StepperSafe(s, a) && Enabled(s, a, lag) && lag <= COMMIT_LAG_MS && SweepOf(a) != {}
    ensures SweepSafe(Apply(s, a), Apply(s, a).sweeps[a.p])
  {
    var t := Apply(s, a);
    StepGrows(s, a, lag);
    var w := s.sweeps[a.p];
    SweepSafeStays(s, t, w);
    match a
    case List(_, batch, limit) =>
      ListingIsContiguous(t, w.cur, w.now, limit, batch);
    case SkipRow(_) =>
      if w.up { SafePastFirst(t, w.cur, w.rest); ContiguousTail(t, w.cur, w.rest); }
    case Complete(_, seeded) =>
      if w.up && seeded { SafePastFirst(t, w.cur, w.rest); ContiguousTail(t, w.cur, w.rest); }
    case ReadCursor(_, ok) => SafeAtStays(s, t, s.cursor);
    case _ =>
  }

  lemma StepKeepsAlerts(s: State, a: Action)
    requires OneAlertPerKey(s)
    ensures OneAlertPerKey(Apply(s, a))
  {
  }

  lemma StepKeepsHits(s: State, a: Action, lag: int)
    requires CursorSafe(s) && StepperSafe(s, a) && Enabled(s, a, lag)
    ensures forall x, k :: x in Apply(s, a).done && k in Apply(s, a).done[x] ==> k in Apply(s, a).alerts
  {
  }

  lemma StoresStaySafe(s: State, a: Action, lag: int)
    requires CursorSafe(s) && StepperSafe(s, a) && Enabled(s, a, lag) && lag <= COMMIT_LAG_MS
    ensures CursorSafe(Apply(s, a))
  {
    hide Enabled;
    var t := Apply(s, a);
    StepGrows(s, a, lag);
    StepKeepsHits(s, a, lag);
    SafeAtStays(s, t, s.cursor);
    if a.WriteCursor? && t.cursor != s.cursor { SafeAtStays(s, t, t.cursor); }
  }

  lemma StepKeepsInv(s: State, a: Action, lag: int)
    requires Inv(s) && Enabled(s, a, lag) && lag <= COMMIT_LAG_MS
    ensures Inv(Apply(s, a))
  {
    var t := Apply(s, a);
    StepGrows(s, a, lag);
    StoresStaySafe(s, a, lag);
    StepKeepsAlerts(s, a);
    forall p | p in t.sweeps
      ensures SweepSafe(t, t.sweeps[p])
    {
      if p in SweepOf(a) { OwnStepSafe(s, a, lag); }
      else if p in s.sweeps && t.sweeps[p] == s.sweeps[p] { SweepSafeStays(s, t, s.sweeps[p]); }
    }
  }

  lemma {:induction false} RunKeepsInv(s: State, actions: seq<Action>, lag: int)
    requires Inv(s) && Runs(s, actions, lag) && lag <= COMMIT_LAG_MS
    ensures Inv(Exec(s, actions))
    decreases |actions|
  {
    if actions != [] {
      StepKeepsInv(s, actions[0], lag);
      RunKeepsInv(Apply(s, actions[0]), actions[1..], lag);
    }
  }

  /** The stored cursor is trusted, and no sweep has begun. */
  ghost predicate Start(s: State) { CursorSafe(s) && OneAlertPerKey(s) && s.sweeps == map[] }

  /**
   Whatever interleaves: behind the cursor every live row was evaluated to completion with Redis up
   and its destination remembered, every hit it had is alerted exactly once, and each alert has
   exactly one audit row.
   */
  lemma CursorNeverPassesUnevaluated(s: State, actions: seq<Action>)
    requires Start(s) && Runs(s, actions, COMMIT_LAG_MS)
    ensures var e := Exec(s, actions);
            && (forall x :: x in e.rows && e.rows[x] && !Before(e.cursor, x) ==>
                 x in e.done && forall k :: k in e.done[x] ==> e.alerts[k] == 1)
            && e.alerts == e.audits && (forall k :: e.alerts[k] <= 1)
  {
    RunKeepsInv(s, actions, COMMIT_LAG_MS);
  }

  ghost predicate SafeUnderLag(lag: int) {
    forall s, actions {:trigger Runs(s, actions, lag)} :: Start(s) && Runs(s, actions, lag) ==> CursorSafe(Exec(s, actions))
  }

  /** The two-minute guard is exact: one more millisecond of commit lag and a row slips behind the cursor. */
  lemma CommitLagExactly(lag: int)
    ensures SafeUnderLag(lag) <==> lag <= COMMIT_LAG_MS
  {
    if lag <= COMMIT_LAG_MS {
      forall s, actions | Start(s) && Runs(s, actions, lag)
        ensures CursorSafe(Exec(s, actions))
      {
        RunKeepsInv(s, actions, lag);
      }
    } else {
      var at := -COMMIT_LAG_MS - 1;
      var s := State(0, map[Pos(at, 1) := false], Pos(at, 1), map[], multiset{}, multiset{}, map[]);
      var late := [Insert(Pos(at, 0))];
      assert late[1..] == [];
      assert Runs(Apply(s, late[0]), late[1..], lag);
      assert Runs(s, late, lag);
      var e := Exec(s, late);
      assert e == Exec(Apply(s, late[0]), []) == Apply(s, late[0]);
      assert Pos(at, 0) in e.rows && e.rows[Pos(at, 0)] && !Before(e.cursor, Pos(at, 0)) && Pos(at, 0) !in e.done;
      assert Start(s) && !CursorSafe(Exec(s, late));
    }
  }

  // ---- The cursor moves forward ----

  function Later(a: Pos, b: Pos): Pos { if Before(a, b) then b else a }

  /** With nothing in between, the second read and the write leave the cursor at the later of it and the last row done. */
  lemma AdvanceKeepsTheLater(s: State, p: Pid)
    requires p in s.sweeps && s.sweeps[p].Deciding?
    ensures var t := Apply(s, ReadCurrent(p, true));
            && (t.sweeps[p].Writing? ==> Apply(t, WriteCursor(p)).cursor == Later(s.cursor, s.sweeps[p].last))
            && (!t.sweeps[p].Writing? ==> t.sweeps[p].Ended? && t.cursor == s.cursor == Later(s.cursor, s.sweeps[p].last))
  {
  }

  /** A step of p that does not fail; it stops only at the end of its batch. */
  predicate Smooth(s: State, a: Action, p: Pid) {
    SweepOf(a) == {p} && p in s.sweeps &&
    match a
    case ReadCursor(_, ok) => ok
    case Evaluate(_, _, redis) => redis
    case Complete(_, seeded) => seeded
    case ReadCurrent(_, ok) => ok
    case Stop(_) => s.sweeps[p].Looping? && s.sweeps[p].rest == []
    case _ => true
  }

  ghost predicate SmoothRun(s: State, actions: seq<Action>, p: Pid, lag: int)
    requires Runs(s, actions, lag)
    decreases |actions|
  {
    actions != [] ==> Smooth(s, actions[0], p) && SmoothRun(Apply(s, actions[0]), actions[1..], p, lag)
  }

  /** The last row of a batch that starts at cur. */
  function EndOf(cur: Pos, rest: seq<Item>): Pos { if rest == [] then cur else rest[|rest| - 1].pos }

  /** Sweep w is on its way from the stored cursor to `target`. */
  ghost predicate Heading(s: State, w: Sweep, target: Pos) {
    match w
    case Looping(cur, moved, rest, up) =>
      up && EndOf(cur, rest) == target && (moved || rest != []) && Before(s.cursor, target)
    case Raising(cur, moved, rest, up, _, _) => up && rest != [] && EndOf(cur, rest) == target && Before(s.cursor, target)
    case Deciding(last) => last == target && Before(s.cursor, target)
    case Writing(last) => last == target
    case Ended => s.cursor == target
    case _ => false
  }

  lemma SmoothStepHeads(s: State, a: Action, p: Pid, target: Pos, lag: int)
    requires Enabled(s, a, lag) && Smooth(s, a, p) && Heading(s, s.sweeps[p], target)
    ensures var t := Apply(s, a); p in t.sweeps && Heading(t, t.sweeps[p], target)
  {
  }

  lemma {:induction false} SmoothRunArrives(s: State, actions: seq<Action>, p: Pid, target: Pos, lag: int)
    requires Runs(s, actions, lag) && SmoothRun(s, actions, p, lag)
    requires p in s.sweeps && Heading(s, s.sweeps[p], target)
    ensures var e := Exec(s, actions); p in e.sweeps && Heading(e, e.sweeps[p], target)
    decreases |actions|
  {
    if actions != [] {
      SmoothStepHeads(s, actions[0], p, target, lag);
      SmoothRunArrives(Apply(s, actions[0]), actions[1..], p, target, lag);
    }
  }

  /** Every lone sweep without a failure that has listed a batch ends with the cursor on the last row of it. */
  lemma SweepEndsOnLastRow(s: State, actions: seq<Action>, p: Pid, batch: seq<Item>, lag: int)
    requires p in s.sweeps && s.sweeps[p] == Looping(s.cursor, false, batch, true)
    requires batch != [] && Ascending(batch) && Before(s.cursor, batch[0].pos)
    requires Runs(s, actions, lag) && SmoothRun(s, actions, p, lag)
    requires p in Exec(s, actions).sweeps && Exec(s, actions).sweeps[p].Ended?
    ensures Exec(s, actions).cursor == batch[|batch| - 1].pos
  {
    SmoothRunArrives(s, actions, p, batch[|batch| - 1].pos, lag);
  }

  // ---- Repeated sweeps pass every row ----

  lemma SmoothStep(s: State, a: Action, rest: seq<Action>, p: Pid, lag: int) returns (actions: seq<Action>)
    requires Enabled(s, a, lag) && Smooth(s, a, p)
    requires Runs(Apply(s, a), rest, lag) && SmoothRun(Apply(s, a), rest, p, lag)
    ensures actions == [a] + rest && Runs(s, actions, lag) && SmoothRun(s, actions, p, lag)
    ensures Exec(s, actions) == Exec(Apply(s, a), rest)
  {
    actions := [a] + rest;
    assert actions[1..] == rest;
  }

  /** A lone sweep can always go on to its end, and leaves the rows and the clock alone. */
  lemma {:induction false} SmoothToTheEnd(s: State, p: Pid, lag: int) returns (actions: seq<Action>)
    requires p in s.sweeps && s.sweeps[p].Looping? && s.sweeps[p].up
    ensures Runs(s, actions, lag) && SmoothRun(s, actions, p, lag)
    ensures var e := Exec(s, actions); p in e.sweeps && e.sweeps[p].Ended? && e.rows == s.rows && e.clock == s.clock
    decreases |s.sweeps[p].rest|
  {
    var w := s.sweeps[p];
    if w.rest == [] {
      actions := SmoothDecision(s, p, lag);
    } else if !w.rest[0].live {
      actions := SmoothToTheEnd(Apply(s, SkipRow(p)), p, lag);
      actions := SmoothStep(s, SkipRow(p), actions, p, lag);
    } else {
      var t := Apply(s, Evaluate(p, {}, true));
      actions := SmoothToTheEnd(Apply(t, Complete(p, true)), p, lag);
      actions := SmoothStep(t, Complete(p, true), actions, p, lag);
      actions := SmoothStep(s, Evaluate(p, {}, true), actions, p, lag);
    }
  }

  lemma SmoothDecision(s: State, p: Pid, lag: int) returns (actions: seq<Action>)
    requires p in s.sweeps && s.sweeps[p].Looping? && s.sweeps[p].up && s.sweeps[p].rest == []
    ensures Runs(s, actions, lag) && SmoothRun(s, actions, p, lag)
    ensures var e := Exec(s, actions); p in e.sweeps && e.sweeps[p].Ended? && e.rows == s.rows && e.clock == s.clock
  {
    var t := Apply(s, Stop(p));
    actions := [];
    if t.sweeps[p].Deciding? {
      var u := Apply(t, ReadCurrent(p, true));
      if u.sweeps[p].Writing? { actions := SmoothStep(u, WriteCursor(p), [], p, lag); }
      actions := SmoothStep(t, ReadCurrent(p, true), actions, p, lag);
    }
    actions := SmoothStep(s, Stop(p), actions, p, lag);
  }

  /** The rows a sweep that starts now would still have to pass. */
  ghost function Ahead(s: State): set<Pos> {
    set x | x in s.rows && Before(s.cursor, x) && x.at < s.clock - COMMIT_LAG_MS
  }

  ghost predicate IsQuery(query: Query) {
    forall rows, from, before, n :: IsListing(rows, from, before, n, query(rows, from, before, n))
  }

  /** One lone sweep without a failure, from its lock to its end. */
  lemma OneSweep(s: State, p: Pid, query: Query, limit: nat, lag: int) returns (actions: seq<Action>)
    requires p !in s.sweeps && IsQuery(query) && limit > 0 && Ahead(s) != {}
    ensures Runs(s, actions, lag)
    ensures var e := Exec(s, actions);
            && e.rows == s.rows && e.clock == s.clock && Before(s.cursor, e.cursor) && e.cursor in Ahead(s)
  {
    var s1 := Apply(s, Begin(p));
    var s2 := Apply(s1, ReadCursor(p, true));
    var batch := query(s.rows, s.cursor, s.clock - COMMIT_LAG_MS, limit);
    assert IsListing(s.rows, s.cursor, s.clock - COMMIT_LAG_MS, limit, batch);
    var s3 := Apply(s2, List(p, batch, limit));
    ListingReachesAhead(s, limit, batch);
    actions := SmoothToTheEnd(s3, p, lag);
    SweepEndsOnLastRow(s3, actions, p, batch, lag);
    RunFrom(s2, List(p, batch, limit), actions, lag);
    RunFrom(s1, ReadCursor(p, true), [List(p, batch, limit)] + actions, lag);
    RunFrom(s, Begin(p), [ReadCursor(p, true)] + ([List(p, batch, limit)] + actions), lag);
    actions := [Begin(p)] + ([ReadCursor(p, true)] + ([List(p, batch, limit)] + actions));
  }

  lemma RunFrom(s: State, a: Action, rest: seq<Action>, lag: int)
    requires Enabled(s, a, lag) && Runs(Apply(s, a), rest, lag)
    ensures Runs(s, [a] + rest, lag) && Exec(s, [a] + rest) == Exec(Apply(s, a), rest)
  {
    assert ([a] + rest)[1..] == rest;
  }

  lemma ListingReachesAhead(s: State, limit: nat, batch: seq<Item>)
    requires limit > 0 && Ahead(s) != {} && IsListing(s.rows, s.cursor, s.clock - COMMIT_LAG_MS, limit, batch)
    ensures batch != [] && Before(s.cursor, batch[0].pos) && batch[|batch| - 1].pos in Ahead(s)
  {
    var x :| x in Ahead(s);
    assert Listed(batch, x) || |batch| == limit;
  }

  /** Whatever the batch size, finitely many sweeps in a row carry the cursor past any row older than the guard. */
  lemma {:induction false} EveryRowIsPassed(s: State, query: Query, limit: nat, lag: int, x: Pos) returns (actions: seq<Action>)
    requires IsQuery(query) && limit > 0 && x in s.rows && x.at < s.clock - COMMIT_LAG_MS
    ensures Runs(s, actions, lag) && !Before(Exec(s, actions).cursor, x)
    decreases |Ahead(s)|
  {
    actions := [];
    if Before(s.cursor, x) {
      assert x in Ahead(s);
      var p := FreePid(s.sweeps.Keys);
      actions := OneSweep(s, p, query, limit, lag);
      var t := Exec(s, actions);
      AheadShrinks(s, t);
      var more := EveryRowIsPassed(t, query, limit, lag, x);
      RunsJoin(s, actions, more, lag);
      actions := actions + more;
    }
  }

  /** So every row is passed in the end, once the clock has moved on far enough. */
  lemma EveryRowIsPassedInTime(s: State, query: Query, limit: nat, lag: int, x: Pos) returns (actions: seq<Action>)
    requires IsQuery(query) && limit > 0 && x in s.rows
    ensures Runs(s, actions, lag) && !Before(Exec(s, actions).cursor, x)
  {
    var ms: nat := if x.at < s.clock - COMMIT_LAG_MS then 0 else x.at - s.clock + COMMIT_LAG_MS + 1;
    actions := EveryRowIsPassed(Apply(s, Tick(ms)), query, limit, lag, x);
    RunFrom(s, Tick(ms), actions, lag);
    actions := [Tick(ms)] + actions;
  }

  lemma AheadShrinks(s: State, t: State)
    requires t.rows == s.rows && t.clock == s.clock && Before(s.cursor, t.cursor) && t.cursor in Ahead(s)
    ensures |Ahead(t)| < |Ahead(s)|
  {
    assert t.cursor !in Ahead(t);
    assert Ahead(t) <= Ahead(s) - {t.cursor};
    SubsetSize(Ahead(t), Ahead(s) - {t.cursor});
  }

  lemma {:induction false} FreePid(pids: set<Pid>) returns (p: Pid)
    ensures forall q :: q in pids ==> q < p
  {
    p := 0;
    if pids != {} {
      var q :| q in pids;
      var r := FreePid(pids - {q});
      p := if r <= q then q + 1 else r;
      assert forall j :: j in pids ==> j == q || j in pids - {q};
    }
  }

  lemma {:induction false} RunsJoin(s: State, first: seq<Action>, second: seq<Action>, lag: int)
    requires Runs(s, first, lag) && Runs(Exec(s, first), second, lag)
    ensures Runs(s, first + second, lag) && Exec(s, first + second) == Exec(Exec(s, first), second)
    decreases |first|
  {
    if first == [] {
      assert first + second == second;
    } else {
      assert (first + second)[1..] == first[1..] + second;
      RunsJoin(Apply(s, first[0]), first[1..], second, lag);
    }
  }

  // ---- amlSweep against the stores ----

  ghost predicate IsRun(before: State, run: seq<Action>, after: State) {
    Runs(before, run, COMMIT_LAG_MS) && after == Exec(before, run)
  }

  lemma RunThen(before: State, run: seq<Action>, after: State, a: Action)
    requires IsRun(before, run, after) && Enabled(after, a, COMMIT_LAG_MS)
    ensures IsRun(before, run + [a], Apply(after, a))
  {
    RunsJoin(before, run, [a], COMMIT_LAG_MS);
  }

  type Query = (map<Pos, bool>, Pos, int, nat) -> seq<Item>

  class Stores {
    var s: State
    ghost var start: State
    ghost var run: seq<Action>

    ghost predicate Valid() reads this { IsRun(start, run, s) }

    constructor (initial: State)
      ensures Valid() && s == initial && start == initial && run == []
    {
      s := initial;
      start := initial;
      run := [];
    }

    /** One store call of one sweep, or one move of the world. */
    method Do(a: Action)
      requires Valid() && Enabled(s, a, COMMIT_LAG_MS)
      modifies this
      ensures Valid() && start == old(start)
      ensures s == Apply(old(s), a) && run == old(run) + [a]
    {
      RunThen(start, run, s, a);
      run := run + [a];
      s := Apply(s, a);
    }

    twostate predicate Untouched(me: Pid)
      reads this
    {
      && start == old(start)
      && (me in s.sweeps <==> me in old(s).sweeps)
      && (me in s.sweeps ==> s.sweeps[me] == old(s).sweeps[me])
      && (WriteCursor(me) in run <==> WriteCursor(me) in old(run))
    }

    /** Any number of steps of the world and of other sweeps, between two of ours. */
    method Others(me: Pid)
      requires Valid()
      modifies this
      ensures Valid() && Untouched(me)
    {
      var steps: nat := *;
      while steps > 0
        invariant Valid() && Untouched(me)
      {
        var a: Action := *;
        if Enabled(s, a, COMMIT_LAG_MS) && me !in SweepOf(a) && a != Begin(me) { Do(a); }
        steps := steps - 1;
      }
    }

    /** Raise the row's hits one transaction at a time; any of them may fail. */
    method RaiseHits(me: Pid) returns (raised: bool)
      requires Valid() && me in s.sweeps && s.sweeps[me].Raising?
      modifies this
      ensures Valid() && start == old(start) && (WriteCursor(me) in run <==> WriteCursor(me) in old(run))
      ensures me in s.sweeps && s.sweeps[me].Raising? && s.sweeps[me] == old(s).sweeps[me].(left := s.sweeps[me].left)
      ensures raised ==> s.sweeps[me].left == {}
    {
      while s.sweeps[me].left != {}
        invariant Valid() && start == old(start) && (WriteCursor(me) in run <==> WriteCursor(me) in old(run))
        invariant me in s.sweeps && s.sweeps[me].Raising? && s.sweeps[me] == old(s).sweeps[me].(left := s.sweeps[me].left)
        decreases s.sweeps[me].left
      {
        Others(me);
        var fails: bool := *;
        if fails { return false; }
        var key :| key in s.sweeps[me].left;
        Do(Raise(me, key));
      }
      raised := true;
    }

    /** Evaluate the batch's next row; `done` is false when it failed and the batch must stop. */
    method EvaluateRow(me: Pid) returns (done: bool)
      requires Valid() && me in s.sweeps && s.sweeps[me].Looping? && s.sweeps[me].rest != []
      modifies this
      ensures Valid() && start == old(start) && (WriteCursor(me) in run <==> WriteCursor(me) in old(run))
      ensures me in s.sweeps
      ensures var was := old(s).sweeps[me];
              var w := s.sweeps[me];
              if done then w.Looping? && w.moved && w.cur == was.rest[0].pos && w.rest == was.rest[1..] && (w.up ==> was.up)
              else (w.Looping? || w.Raising?) && w.moved == was.moved && w.cur == was.cur && (w.up ==> was.up)
    {
      if !s.sweeps[me].rest[0].live {
        Do(SkipRow(me));
        return true;
      }
      var hits: set<DedupeKey>, redis: bool, fails: bool := *, *, *;
      if fails { return false; }
      Do(Evaluate(me, hits, redis));
      var raised := RaiseHits(me);
      if !raised { return false; }
      Others(me);
      var seeded: bool := *;
      Do(Complete(me, seeded));
      return true;
    }

    /** The batch loop, under a wall-clock budget. `cut`: the time was up, or a row failed. */
    method EvaluateBatch(me: Pid) returns (scanned: nat, up: bool, ghost cut: bool)
      requires Valid() && me in s.sweeps && s.sweeps[me].Looping? && !s.sweeps[me].moved
      modifies this
      ensures Valid() && start == old(start) && (WriteCursor(me) in run <==> WriteCursor(me) in old(run))
      ensures me in s.sweeps && (s.sweeps[me].Ended? || s.sweeps[me].Deciding?)
      ensures scanned <= |old(s).sweeps[me].rest|
      ensures s.sweeps[me].Deciding? <==> scanned > 0 && up
      ensures !cut ==> scanned == |old(s).sweeps[me].rest|
      ensures s.sweeps[me].Deciding? ==> s.sweeps[me].last == old(s).sweeps[me].rest[scanned - 1].pos
      ensures up ==> old(s).sweeps[me].up
    {
      scanned, cut := 0, false;
      ghost var batch := s.sweeps[me].rest;
      while s.sweeps[me].rest != []
        invariant Valid() && start == old(start) && (WriteCursor(me) in run <==> WriteCursor(me) in old(run))
        invariant me in s.sweeps && s.sweeps[me].Looping? && (s.sweeps[me].up ==> old(s).sweeps[me].up)
        invariant scanned <= |batch| && s.sweeps[me].rest == batch[scanned..] && (s.sweeps[me].moved <==> scanned > 0)
        invariant scanned > 0 ==> s.sweeps[me].cur == batch[scanned - 1].pos
        decreases |s.sweeps[me].rest|
      {
        Others(me);
        var late: bool := *;
        if late {
          cut := true;
          break;
        }
        var done := EvaluateRow(me);
        if !done {
          cut := true;
          break;
        }
        scanned := scanned + 1;
      }
      up := s.sweeps[me].up;
      Do(Stop(me));
    }

    /** Take the lock, read the cursor and list the batch; `locked` when another sweep holds the lock. */
    method ListBatch(me: Pid, query: Query, limit: nat) returns (locked: bool)
      requires Valid() && me !in s.sweeps
      requires forall rows, from, before, n :: IsListing(rows, from, before, n, query(rows, from, before, n))
      modifies this
      ensures Valid() && start == old(start) && (WriteCursor(me) in run <==> WriteCursor(me) in old(run))
      ensures me in s.sweeps
      ensures if locked then s.sweeps[me].Ended?
              else s.sweeps[me].Looping? && !s.sweeps[me].moved && |s.sweeps[me].rest| <= limit
    {
      Others(me);
      Do(Begin(me));
      locked := *;
      if locked { Do(Stop(me)); return; }
      Others(me);
      var up: bool := *;
      Do(ReadCursor(me, up));
      Others(me);
      var w := s.sweeps[me];
      var batch := query(s.rows, w.cur, w.now - COMMIT_LAG_MS, limit);
      assert IsListing(s.rows, w.cur, w.now - COMMIT_LAG_MS, limit, batch);
      Do(List(me, batch, limit));
    }

    /**
     amlSweep, one store call at a time with everything else in between: an execution is a run of the
     machine above. `query` is the ledger's batch read. The cursor is written only after at least one
     row was completed and only while Redis never failed; then, if it could be read again, it is left at
     the later of what was read and the last row completed. `cut`: the time was up, or a row failed.
     */
    method AmlSweep(me: Pid, query: Query, limit: nat)
      returns (scanned: nat, up: bool, ghost batch: seq<Item>, ghost cut: bool, ghost reread: bool, ghost read: Pos)
      requires Valid() && me !in s.sweeps && WriteCursor(me) !in run
      requires forall rows, from, before, n :: IsListing(rows, from, before, n, query(rows, from, before, n))
      modifies this
      ensures Valid() && start == old(start)
      ensures me in s.sweeps && s.sweeps[me].Ended?
      ensures scanned <= limit
      ensures scanned <= |batch| && (!cut ==> scanned == |batch|)
      ensures WriteCursor(me) in run ==> scanned > 0 && up && reread
      ensures scanned > 0 && up && reread ==> s.cursor == Later(read, batch[scanned - 1].pos)
    {
      scanned, up, batch, cut, reread, read := 0, true, [], false, false, s.cursor;
      var locked := ListBatch(me, query, limit);
      if locked { return; }
      batch := s.sweeps[me].rest;
      scanned, up, cut := EvaluateBatch(me);
      if s.sweeps[me].Deciding? { reread, read := AdvanceCursor(me); }
    }

    /**
     Read the cursor again (`read`) and write it only forward; another sweep may write in between. `ok`:
     the read did not fail.
     */
    method AdvanceCursor(me: Pid) returns (ok: bool, ghost read: Pos)
      requires Valid() && me in s.sweeps && s.sweeps[me].Deciding? && WriteCursor(me) !in run
      modifies this
      ensures Valid() && start == old(start)
      ensures me in s.sweeps && s.sweeps[me].Ended?
      ensures WriteCursor(me) in run <==> ok && Before(read, old(s).sweeps[me].last)
      ensures WriteCursor(me) in run ==> s.cursor == Later(read, old(s).sweeps[me].last)
      ensures ok && WriteCursor(me) !in run ==> s.cursor == read == Later(read, old(s).sweeps[me].last)
    {
      Others(me);
      ok := *;
      read := s.cursor;
      Do(ReadCurrent(me, ok));
      if s.sweeps[me].Writing? {
        Others(me);
        Do(WriteCursor(me));
      }
    }
  }
}
