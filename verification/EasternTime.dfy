/**
 Eastern-time calendar bounds: the UTC instant of local midnight, found with a two-pass
 offset correction. Instants are milliseconds; the offset is a function of the instant.
 */
module EasternTime {

  const HOUR_MS: int := 3_600_000
  const DAY_MS: int := 24 * HOUR_MS
  const EST: int := -5 * HOUR_MS
  const EDT: int := -4 * HOUR_MS

  type Offsets = int -> int

  /** The offset before instant `t` puts the change at 02:00 on the local clock. */
  ghost predicate ChangesAtTwo(off: Offsets, t: int) {
    off(t - 1) != off(t) ==> (t + off(t - 1)) % DAY_MS == 2 * HOUR_MS
  }

  /** Eastern time: -5 h or -4 h, changing only at 02:00 local time. */
  ghost predicate Eastern(off: Offsets) {
    && (forall t :: off(t) == EST || off(t) == EDT)
    && (forall t :: ChangesAtTwo(off, t))
  }

  function Local(off: Offsets, at: int): int { at + off(at) }

  /** The local calendar day, counted from the epoch (Dafny's / rounds down for a positive divisor). */
  function LocalDay(off: Offsets, at: int): int { Local(off, at) / DAY_MS }

  /** etMidnight: guess with the offset at `near`, then re-read the offset at the guess. */
  function EtMidnight(off: Offsets, day: int, near: int): int {
    var wall := day * DAY_MS;
    var guess := wall - off(near);
    wall - off(guess)
  }

  function EasternDayStart(off: Offsets, at: int): int {
    EtMidnight(off, LocalDay(off, at), at)
  }

  // ---- Offset changes between two instants ----

  /** Two different offsets have a change between them. */
  lemma {:induction false} ChangeBetween(off: Offsets, a: int, b: int) returns (t: int)
    requires a <= b && off(a) != off(b)
    ensures a < t <= b && off(t - 1) == off(a) && off(t) != off(a)
    decreases b - a
  {
    if off(b - 1) == off(a) {
      t := b;
    } else {
      t := ChangeBetween(off, a, b - 1);
    }
  }

  /** No change falls between 04:00 of the day before and 02:00 of `day`: offsets agree across its midnight. */
  lemma SteadyAroundMidnight(off: Offsets, day: int, a: int, b: int)
    requires Eastern(off) && a <= b
    requires day * DAY_MS - 20 * HOUR_MS <= a + EST && b + EDT < day * DAY_MS + 2 * HOUR_MS
    ensures off(a) == off(b)
  {
    if off(a) != off(b) {
      var t := ChangeBetween(off, a, b);
      assert ChangesAtTwo(off, t);
      var local := t + off(t - 1);
      assert day * DAY_MS - 20 * HOUR_MS < local < day * DAY_MS + 2 * HOUR_MS;
      NotTwoOClock(day, local);
    }
  }

  lemma NotTwoOClock(day: int, local: int)
    requires day * DAY_MS - 20 * HOUR_MS <= local < day * DAY_MS + 2 * HOUR_MS
    ensures local % DAY_MS != 2 * HOUR_MS
  {
  }

  // ---- Local midnight ----

  ghost predicate IsMidnight(off: Offsets, day: int, m: int) { Local(off, m) == day * DAY_MS }

  /** Whatever instant the first guess starts from, the second pass lands on local midnight. */
  lemma TwoPassesSuffice(off: Offsets, day: int, near: int)
    requires Eastern(off)
    ensures IsMidnight(off, day, EtMidnight(off, day, near))
  {
    assert off(near) == EST || off(near) == EDT;
    var guess := day * DAY_MS - off(near);
    assert off(guess) == EST || off(guess) == EDT;
    SteadyAroundMidnight(off, day, day * DAY_MS - EDT, day * DAY_MS - EST);
  }

  lemma MidnightIsUnique(off: Offsets, day: int, m: int, n: int)
    requires Eastern(off) && IsMidnight(off, day, m) && IsMidnight(off, day, n)
    ensures m == n
  {
    assert off(m) == EST || off(m) == EDT;
    assert off(n) == EST || off(n) == EDT;
    SteadyAroundMidnight(off, day, day * DAY_MS - EDT, day * DAY_MS - EST);
  }

  /** The local day changes exactly at its midnight, also when an hour is skipped or repeated later that day. */
  lemma DayBeginsAtMidnight(off: Offsets, day: int, m: int, at: int)
    requires Eastern(off) && IsMidnight(off, day, m)
    ensures m <= at <==> LocalDay(off, at) >= day
  {
    assert off(at) == EST || off(at) == EDT;
    assert off(m) == EST || off(m) == EDT;
    if m - HOUR_MS <= at < m {
      SteadyAroundMidnight(off, day, at, m);
    } else if m <= at < m + HOUR_MS {
      SteadyAroundMidnight(off, day, m, at);
    }
    assert m <= at <==> Local(off, at) >= day * DAY_MS;
    DayOf(Local(off, at), day);
  }

  lemma DayOf(local: int, day: int)
    ensures local / DAY_MS >= day <==> local >= day * DAY_MS
  {
  }

  // ---- easternDayStart ----

  /** The unique instant of local midnight of the argument's local date. */
  lemma DayStartIsLocalMidnight(off: Offsets, at: int)
    requires Eastern(off)
    ensures IsMidnight(off, LocalDay(off, at), EasternDayStart(off, at))
    ensures forall m :: IsMidnight(off, LocalDay(off, at), m) ==> m == EasternDayStart(off, at)
  {
    TwoPassesSuffice(off, LocalDay(off, at), at);
    forall m | IsMidnight(off, LocalDay(off, at), m) ensures m == EasternDayStart(off, at) {
      MidnightIsUnique(off, LocalDay(off, at), m, EasternDayStart(off, at));
    }
  }

  /** Every instant lies in its own day, on 23 h and 25 h days as well. */
  lemma DayContainsInstant(off: Offsets, at: int, near: int)
    requires Eastern(off)
    ensures EasternDayStart(off, at) <= at < EtMidnight(off, LocalDay(off, at) + 1, near)
  {
    var day := LocalDay(off, at);
    TwoPassesSuffice(off, day, at);
    DayBeginsAtMidnight(off, day, EasternDayStart(off, at), at);
    TwoPassesSuffice(off, day + 1, near);
    DayBeginsAtMidnight(off, day + 1, EtMidnight(off, day + 1, near), at);
  }

  lemma DayStartIdempotent(off: Offsets, at: int)
    requires Eastern(off)
    ensures EasternDayStart(off, EasternDayStart(off, at)) == EasternDayStart(off, at)
  {
    var start := EasternDayStart(off, at);
    DayStartIsLocalMidnight(off, at);
    DayOf(Local(off, start), LocalDay(off, at));
    DayOf(Local(off, start), LocalDay(off, at) + 1);
    DayStartIsLocalMidnight(off, start);
  }

  lemma LocalDayMonotone(off: Offsets, at: int, later: int)
    requires Eastern(off) && at <= later
    ensures LocalDay(off, at) <= LocalDay(off, later)
  {
    var day := LocalDay(off, at);
    TwoPassesSuffice(off, day, at);
    DayBeginsAtMidnight(off, day, EasternDayStart(off, at), at);
    DayBeginsAtMidnight(off, day, EasternDayStart(off, at), later);
  }

  lemma MidnightsOrdered(off: Offsets, d: int, e: int, m: int, n: int)
    requires Eastern(off) && d <= e && IsMidnight(off, d, m) && IsMidnight(off, e, n)
    ensures m <= n
  {
    DayBeginsAtMidnight(off, d, m, n);
    DayOf(Local(off, n), e);
  }

  lemma DayStartMonotone(off: Offsets, at: int, later: int)
    requires Eastern(off) && at <= later
    ensures EasternDayStart(off, at) <= EasternDayStart(off, later)
  {
    LocalDayMonotone(off, at, later);
    TwoPassesSuffice(off, LocalDay(off, at), at);
    TwoPassesSuffice(off, LocalDay(off, later), later);
    MidnightsOrdered(off, LocalDay(off, at), LocalDay(off, later), EasternDayStart(off, at), EasternDayStart(off, later));
  }

  /** Without the 02:00 rule two passes can miss midnight: a change at local 00:30 is enough. */
  lemma MidnightChangeBreaksTwoPasses(off: Offsets)
    requires forall t :: off(t) == if t < 4 * HOUR_MS + HOUR_MS / 2 then EDT else EST
    ensures LocalDay(off, 6 * HOUR_MS) == 0 && EasternDayStart(off, 6 * HOUR_MS) == 5 * HOUR_MS
    ensures IsMidnight(off, 0, 4 * HOUR_MS) && IsMidnight(off, 0, 5 * HOUR_MS)
    ensures EasternDayStart(off, 4 * HOUR_MS) == 4 * HOUR_MS
  {
    assert off(6 * HOUR_MS) == EST && off(4 * HOUR_MS) == EDT && off(5 * HOUR_MS) == EST;
  }

  // ---- easternMonthStart ----

  /** The first day of the month of a day; `next` is the first day of the month after it. */
  datatype Calendar = Calendar(first: int -> int, next: int -> int)

  ghost predicate Months(c: Calendar) {
    forall d, e :: c.first(d) <= d < c.next(d) && (c.first(d) <= e < c.next(d) ==> c.first(e) == c.first(d))
  }

  function EasternMonthStart(off: Offsets, c: Calendar, at: int): int {
    EtMidnight(off, c.first(LocalDay(off, at)), at)
  }

  /** The month start is the midnight of the month's first day and the month contains the instant. */
  lemma MonthStartIsFirstMidnight(off: Offsets, c: Calendar, at: int, near: int)
    requires Eastern(off) && Months(c)
    ensures IsMidnight(off, c.first(LocalDay(off, at)), EasternMonthStart(off, c, at))
    ensures EasternMonthStart(off, c, at) <= at < EtMidnight(off, c.next(LocalDay(off, at)), near)
  {
    var day := LocalDay(off, at);
    TwoPassesSuffice(off, c.first(day), at);
    DayBeginsAtMidnight(off, c.first(day), EasternMonthStart(off, c, at), at);
    TwoPassesSuffice(off, c.next(day), near);
    DayBeginsAtMidnight(off, c.next(day), EtMidnight(off, c.next(day), near), at);
    assert c.first(day) <= day < c.next(day);
  }

  /** Two instants share a month start exactly when their local dates share a month. */
  lemma MonthStartSeparatesMonths(off: Offsets, c: Calendar, at: int, other: int)
    requires Eastern(off) && Months(c)
    ensures EasternMonthStart(off, c, at) == EasternMonthStart(off, c, other)
      <==> c.first(LocalDay(off, at)) == c.first(LocalDay(off, other))
  {
    var d, e := c.first(LocalDay(off, at)), c.first(LocalDay(off, other));
    TwoPassesSuffice(off, d, at);
    TwoPassesSuffice(off, e, other);
    if d == e { MidnightIsUnique(off, d, EasternMonthStart(off, c, at), EasternMonthStart(off, c, other)); }
  }

  lemma MonthFirstMonotone(c: Calendar, d: int, e: int)
    requires Months(c) && d <= e
    ensures c.first(d) <= c.first(e)
  {
    assert c.first(d) <= c.first(d) < c.next(d) ==> c.first(c.first(d)) == c.first(d);
    assert c.first(e) <= c.first(d) < c.next(e) ==> c.first(c.first(d)) == c.first(e);
  }

  lemma MonthStartIdempotent(off: Offsets, c: Calendar, at: int)
    requires Eastern(off) && Months(c)
    ensures EasternMonthStart(off, c, EasternMonthStart(off, c, at)) == EasternMonthStart(off, c, at)
  {
    var day, start := LocalDay(off, at), EasternMonthStart(off, c, at);
    TwoPassesSuffice(off, c.first(day), at);
    DayOf(Local(off, start), c.first(day));
    DayOf(Local(off, start), c.first(day) + 1);
    assert c.first(c.first(day)) == c.first(day) by { assert c.first(day) <= c.first(day) < c.next(day); }
    MonthStartSeparatesMonths(off, c, start, at);
  }

  lemma MonthStartMonotone(off: Offsets, c: Calendar, at: int, later: int)
    requires Eastern(off) && Months(c) && at <= later
    ensures EasternMonthStart(off, c, at) <= EasternMonthStart(off, c, later)
  {
    var day, day' := LocalDay(off, at), LocalDay(off, later);
    LocalDayMonotone(off, at, later);
    MonthFirstMonotone(c, day, day');
    TwoPassesSuffice(off, c.first(day), at);
    TwoPassesSuffice(off, c.first(day'), later);
    MidnightsOrdered(off, c.first(day), c.first(day'), EasternMonthStart(off, c, at), EasternMonthStart(off, c, later));
  }
}
