/**
 The structuring rule over one sender's history. A send is judged on aggregates of the sends
 strictly before it; the rule must fire on the rising edge only.
 */
module AmlRules {

  import opened Wrappers

  const DAY_MS: int := 86_400_000
  const BAND_WINDOW_MS: int := 7 * DAY_MS
  const SUM_WINDOW_MS: int := 30 * DAY_MS

  /** A live send that is neither blocked nor cancelled. */
  datatype Send = Send(at: int, cents: nat)

  /** Thresholds in cents; `lower` is band times the large amount, which need not be whole. */
  datatype Config = Config(count: nat, aggCents: nat, large: nat, lower: real)

  datatype Stats = Stats(bandCount7d: nat, subTSum30d: nat, subTCount30d: nat)
  datatype Window = SevenDays | ThirtyDays
  datatype Hit = Hit(window: Window, count: nat, sumCents: nat)

  predicate InBand(cents: nat, cfg: Config) { cents as real >= cfg.lower && cents < cfg.large }

  // ---- The ledger's aggregates ----

  function BandCount(h: seq<Send>, since: int, cfg: Config): nat {
    if h == [] then 0
    else
      var last := h[|h| - 1];
      BandCount(h[..|h| - 1], since, cfg) + if last.at >= since && InBand(last.cents, cfg) then 1 else 0
  }

  predicate SubThreshold(x: Send, since: int, cfg: Config) { x.at >= since && x.cents < cfg.large }

  function SubTSum(h: seq<Send>, since: int, cfg: Config): nat {
    if h == [] then 0
    else
      var last := h[|h| - 1];
      SubTSum(h[..|h| - 1], since, cfg) + if SubThreshold(last, since, cfg) then last.cents else 0
  }

  function SubTCount(h: seq<Send>, since: int, cfg: Config): nat {
    if h == [] then 0
    else SubTCount(h[..|h| - 1], since, cfg) + if SubThreshold(h[|h| - 1], since, cfg) then 1 else 0
  }

  /** senderAmlStats: over the sends in `before`, in windows that end at `at`. */
  function SenderStats(before: seq<Send>, at: int, cfg: Config): Stats {
    Stats(BandCount(before, at - BAND_WINDOW_MS, cfg),
          SubTSum(before, at - SUM_WINDOW_MS, cfg),
          SubTCount(before, at - SUM_WINDOW_MS, cfg))
  }

  function Structuring(prior: Stats, cents: nat, cfg: Config): Option<Hit> {
    if cents >= cfg.large then None
    else if prior.bandCount7d >= cfg.count || prior.subTSum30d >= cfg.aggCents then None
    else
      var bandAfter := prior.bandCount7d + if InBand(cents, cfg) then 1 else 0;
      var sumAfter := prior.subTSum30d + cents;
      if bandAfter >= cfg.count then Some(Hit(SevenDays, bandAfter, sumAfter))
      else if sumAfter >= cfg.aggCents then Some(Hit(ThirtyDays, prior.subTCount30d + 1, sumAfter))
      else None
  }

  /** The verdict on the i-th send of a history. */
  function Verdict(h: seq<Send>, i: nat, cfg: Config): Option<Hit>
    requires i < |h|
  {
    Structuring(SenderStats(h[..i], h[i].at, cfg), h[i].cents, cfg)
  }

  /** The sends in the band in the seven days up to `at`, and those under the threshold in the thirty days. */
  ghost function InBandWithin(h: seq<Send>, at: int, cfg: Config): set<int> {
    set i | 0 <= i < |h| && at - 7 * 24 * 3_600_000 <= h[i].at && cfg.lower <= h[i].cents as real && h[i].cents < cfg.large
  }

  ghost function UnderWithin(h: seq<Send>, at: int, cfg: Config): set<int> {
    set i | 0 <= i < |h| && at - 30 * 24 * 3_600_000 <= h[i].at && h[i].cents < cfg.large
  }

  ghost function CentsOf(h: seq<Send>, which: set<int>): int {
    if h == [] then 0
    else CentsOf(h[..|h| - 1], which) + if |h| - 1 in which then h[|h| - 1].cents else 0
  }

  lemma {:induction false} CentsDependOnBelow(h: seq<Send>, a: set<int>, b: set<int>)
    requires forall i :: 0 <= i < |h| ==> (i in a <==> i in b)
    ensures CentsOf(h, a) == CentsOf(h, b)
    decreases |h|
  {
    if h != [] { CentsDependOnBelow(h[..|h| - 1], a, b); }
  }

  lemma {:induction false} BandCounts(h: seq<Send>, at: int, cfg: Config)
    ensures BandCount(h, at - BAND_WINDOW_MS, cfg) == |InBandWithin(h, at, cfg)|
    decreases |h|
  {
    if h != [] {
      var n := |h| - 1;
      BandCounts(h[..n], at, cfg);
      var more := if at - BAND_WINDOW_MS <= h[n].at && InBand(h[n].cents, cfg) then {n} else {};
      assert InBandWithin(h, at, cfg) == InBandWithin(h[..n], at, cfg) + more;
      assert n !in InBandWithin(h[..n], at, cfg);
    }
  }

  lemma {:induction false} UnderCounts(h: seq<Send>, at: int, cfg: Config)
    ensures SubTCount(h, at - SUM_WINDOW_MS, cfg) == |UnderWithin(h, at, cfg)|
    decreases |h|
  {
    if h != [] {
      var n := |h| - 1;
      UnderCounts(h[..n], at, cfg);
      var more := if SubThreshold(h[n], at - SUM_WINDOW_MS, cfg) then {n} else {};
      assert UnderWithin(h, at, cfg) == UnderWithin(h[..n], at, cfg) + more;
      assert n !in UnderWithin(h[..n], at, cfg);
    }
  }

  lemma {:induction false} UnderAddsUp(h: seq<Send>, at: int, cfg: Config)
    ensures SubTSum(h, at - SUM_WINDOW_MS, cfg) == CentsOf(h, UnderWithin(h, at, cfg))
    decreases |h|
  {
    if h != [] {
      var n := |h| - 1;
      UnderAddsUp(h[..n], at, cfg);
      CentsDependOnBelow(h[..n], UnderWithin(h, at, cfg), UnderWithin(h[..n], at, cfg));
      assert n in UnderWithin(h, at, cfg) <==> SubThreshold(h[n], at - SUM_WINDOW_MS, cfg);
    }
  }

  /** What the aggregates count and add up. */
  lemma StatsCount(h: seq<Send>, at: int, cfg: Config)
    ensures var t := SenderStats(h, at, cfg);
            && t.bandCount7d == |InBandWithin(h, at, cfg)| && t.subTCount30d == |UnderWithin(h, at, cfg)|
            && t.subTSum30d == CentsOf(h, UnderWithin(h, at, cfg))
  {
    BandCounts(h, at, cfg);
    UnderCounts(h, at, cfg);
    UnderAddsUp(h, at, cfg);
  }

  // ---- Exactly the rising edge ----

  /** The watched condition over some sends, in the windows that end at `at`. */
  ghost predicate Watched(sends: seq<Send>, at: int, cfg: Config) {
    || BandCount(sends, at - BAND_WINDOW_MS, cfg) >= cfg.count
    || SubTSum(sends, at - SUM_WINDOW_MS, cfg) >= cfg.aggCents
  }

  /** It fires exactly when a sub-threshold send turns the condition from false to true, and reports what it then counts. */
  lemma FiresOnTheEdge(h: seq<Send>, i: nat, cfg: Config)
    requires i < |h|
    ensures Verdict(h, i, cfg).Some? <==>
            h[i].cents < cfg.large && !Watched(h[..i], h[i].at, cfg) && Watched(h[..i + 1], h[i].at, cfg)
    ensures Verdict(h, i, cfg).Some? ==>
              var hit := Verdict(h, i, cfg).value;
              var upTo := h[..i + 1];
              && hit.sumCents == SubTSum(upTo, h[i].at - SUM_WINDOW_MS, cfg)
              && match hit.window
                 case SevenDays => hit.count == BandCount(upTo, h[i].at - BAND_WINDOW_MS, cfg) >= cfg.count
                 case ThirtyDays => hit.count == SubTCount(upTo, h[i].at - SUM_WINDOW_MS, cfg) && hit.sumCents >= cfg.aggCents
  {
    assert h[..i + 1][..i] == h[..i];
    assert h[..i + 1][i] == h[i];
  }

  // ---- Silent while what it counted is still in the window ----

  /** Every send of `a` that the first window counts, the second counts too. */
  ghost predicate StillIn(a: seq<Send>, since: int, later: int, cfg: Config, band: bool) {
    forall j :: 0 <= j < |a| && a[j].at >= since && (if band then InBand(a[j].cents, cfg) else a[j].cents < cfg.large)
      ==> a[j].at >= later
  }

  lemma {:induction false} BandCountGrows(a: seq<Send>, b: seq<Send>, since: int, later: int, cfg: Config)
    requires a <= b && StillIn(a, since, later, cfg, true)
    ensures BandCount(a, since, cfg) <= BandCount(b, later, cfg)
    decreases |b|
  {
    if |a| < |b| {
      BandCountGrows(a, b[..|b| - 1], since, later, cfg);
    } else if b != [] {
      assert a == b;
      BandCountGrows(a[..|a| - 1], b[..|b| - 1], since, later, cfg);
    }
  }

  lemma {:induction false} SubTSumGrows(a: seq<Send>, b: seq<Send>, since: int, later: int, cfg: Config)
    requires a <= b && StillIn(a, since, later, cfg, false)
    ensures SubTSum(a, since, cfg) <= SubTSum(b, later, cfg)
    decreases |b|
  {
    if |a| < |b| {
      SubTSumGrows(a, b[..|b| - 1], since, later, cfg);
    } else if b != [] {
      assert a == b;
      SubTSumGrows(a[..|a| - 1], b[..|b| - 1], since, later, cfg);
    }
  }

  /**
   After a hit at i, a later send k stays silent as long as its window still holds every send the
   hit counted: the band sends for a 7-day hit, the sub-threshold sends for a 30-day one.
   */
  lemma NoSecondHitInTheWindow(h: seq<Send>, i: nat, k: nat, cfg: Config)
    requires i < k < |h| && Verdict(h, i, cfg).Some?
    requires match Verdict(h, i, cfg).value.window
             case SevenDays => StillIn(h[..i + 1], h[i].at - BAND_WINDOW_MS, h[k].at - BAND_WINDOW_MS, cfg, true)
             case ThirtyDays => StillIn(h[..i + 1], h[i].at - SUM_WINDOW_MS, h[k].at - SUM_WINDOW_MS, cfg, false)
    ensures Verdict(h, k, cfg) == None
  {
    FiresOnTheEdge(h, i, cfg);
    assert h[..i + 1] <= h[..k];
    match Verdict(h, i, cfg).value.window
    case SevenDays => BandCountGrows(h[..i + 1], h[..k], h[i].at - BAND_WINDOW_MS, h[k].at - BAND_WINDOW_MS, cfg);
    case ThirtyDays => SubTSumGrows(h[..i + 1], h[..k], h[i].at - SUM_WINDOW_MS, h[k].at - SUM_WINDOW_MS, cfg);
  }

  /** Between two hits, some send the first one counted has left the later one's window. */
  lemma HitsAreApart(h: seq<Send>, i: nat, k: nat, cfg: Config) returns (j: nat)
    requires i < k < |h| && Verdict(h, i, cfg).Some? && Verdict(h, k, cfg).Some?
    ensures j <= i && h[j].cents < cfg.large
    ensures match Verdict(h, i, cfg).value.window
            case SevenDays => InBand(h[j].cents, cfg) && h[j].at + BAND_WINDOW_MS < h[k].at
            case ThirtyDays => h[j].at + SUM_WINDOW_MS < h[k].at
  {
    var a := h[..i + 1];
    var seven := Verdict(h, i, cfg).value.window.SevenDays?;
    var width := if seven then BAND_WINDOW_MS else SUM_WINDOW_MS;
    if StillIn(a, h[i].at - width, h[k].at - width, cfg, seven) {
      NoSecondHitInTheWindow(h, i, k, cfg);
    }
    j :| 0 <= j < |a| && a[j].at < h[k].at - width && if seven then InBand(a[j].cents, cfg) else a[j].cents < cfg.large;
    assert a[j] == h[j];
    assert InBand(a[j].cents, cfg) ==> a[j].cents < cfg.large;
    assert a[j].cents < cfg.large;
  }

  // ---- A row scanned again ----

  /** A ledger row; blocked and cancelled rows are not live and leave the aggregates. */
  datatype Entry = Entry(send: Send, live: bool)

  function LiveSends(rows: seq<Entry>): seq<Send> {
    if rows == [] then []
    else
      var last := rows[|rows| - 1];
      LiveSends(rows[..|rows| - 1]) + if last.live then [last.send] else []
  }

  /** Between two scans rows may be blocked or cancelled. */
  ghost predicate Settling(was: seq<Entry>, now: seq<Entry>) {
    |was| == |now| && forall j :: 0 <= j < |was| ==> now[j].send == was[j].send && (now[j].live ==> was[j].live)
  }

  /** No row that left in between was counted in the thirty days before `at`. */
  ghost predicate NoneCountedLeft(was: seq<Entry>, now: seq<Entry>, at: int, cfg: Config)
    requires |was| == |now|
  {
    forall j :: 0 <= j < |was| && was[j].live && !now[j].live ==> !SubThreshold(was[j].send, at - SUM_WINDOW_MS, cfg)
  }

  lemma {:induction false} StatsShrink(was: seq<Entry>, now: seq<Entry>, at: int, cfg: Config)
    requires Settling(was, now)
    ensures var before, after := SenderStats(LiveSends(was), at, cfg), SenderStats(LiveSends(now), at, cfg);
            && after.bandCount7d <= before.bandCount7d && after.subTSum30d <= before.subTSum30d
            && after.subTCount30d <= before.subTCount30d
            && (after.subTCount30d == before.subTCount30d <==> NoneCountedLeft(was, now, at, cfg))
            && (NoneCountedLeft(was, now, at, cfg) ==> after == before)
  {
    if was != [] {
      var n := |was| - 1;
      StatsShrink(was[..n], now[..n], at, cfg);
      LastCounts(was, at, cfg);
      LastCounts(now, at, cfg);
      assert NoneCountedLeft(was, now, at, cfg) <==>
        NoneCountedLeft(was[..n], now[..n], at, cfg)
        && (was[n].live && !now[n].live ==> !SubThreshold(was[n].send, at - SUM_WINDOW_MS, cfg));
    }
  }

  lemma OneMoreSend(h: seq<Send>, x: Send, since: int, cfg: Config)
    ensures BandCount(h + [x], since, cfg) == BandCount(h, since, cfg) + if x.at >= since && InBand(x.cents, cfg) then 1 else 0
    ensures SubTSum(h + [x], since, cfg) == SubTSum(h, since, cfg) + if SubThreshold(x, since, cfg) then x.cents else 0
    ensures SubTCount(h + [x], since, cfg) == SubTCount(h, since, cfg) + if SubThreshold(x, since, cfg) then 1 else 0
  {
    assert (h + [x])[..|h|] == h && (h + [x])[|h|] == x;
  }

  /** What the last row adds to the aggregates. */
  lemma LastCounts(rows: seq<Entry>, at: int, cfg: Config)
    requires rows != []
    ensures var last := rows[|rows| - 1];
            var counted := last.live && SubThreshold(last.send, at - SUM_WINDOW_MS, cfg);
            var before, after := SenderStats(LiveSends(rows[..|rows| - 1]), at, cfg), SenderStats(LiveSends(rows), at, cfg);
            && after.subTCount30d == before.subTCount30d + (if counted then 1 else 0)
            && after.subTSum30d == before.subTSum30d + (if counted then last.send.cents else 0)
            && after.bandCount7d == before.bandCount7d
               + if last.live && last.send.at >= at - BAND_WINDOW_MS && InBand(last.send.cents, cfg) then 1 else 0
  {
    var last := rows[|rows| - 1];
    var rest := LiveSends(rows[..|rows| - 1]);
    assert LiveSends(rows) == if last.live then rest + [last.send] else rest;
    hide LiveSends, BandCount, SubTSum, SubTCount, InBand, SubThreshold;
    OneMoreSend(rest, last.send, at - BAND_WINDOW_MS, cfg);
    OneMoreSend(rest, last.send, at - SUM_WINDOW_MS, cfg);
  }

  /** A re-scan reads the same aggregates exactly when no row counted before has been blocked or cancelled since. */
  lemma RescanReadsTheSameExactly(was: seq<Entry>, now: seq<Entry>, at: int, cfg: Config)
    requires Settling(was, now)
    ensures SenderStats(LiveSends(now), at, cfg) == SenderStats(LiveSends(was), at, cfg) <==> NoneCountedLeft(was, now, at, cfg)
  {
    StatsShrink(was, now, at, cfg);
  }

  /** The scan of row i: the live rows before it are its history. */
  function Scan(rows: seq<Entry>, i: nat, cfg: Config): Option<Hit>
    requires i < |rows|
  {
    Verdict(LiveSends(rows[..i]) + [rows[i].send], |LiveSends(rows[..i])|, cfg)
  }

  /** Then it repeats the verdict, whatever was sent since. */
  lemma RescanRepeats(was: seq<Entry>, now: seq<Entry>, more: seq<Entry>, i: nat, cfg: Config)
    requires Settling(was, now) && i < |was|
    requires NoneCountedLeft(was[..i], now[..i], was[i].send.at, cfg)
    ensures Scan(now + more, i, cfg) == Scan(was, i, cfg)
  {
    assert (now + more)[..i] == now[..i];
    RescanReadsTheSameExactly(was[..i], now[..i], was[i].send.at, cfg);
    assert forall h: seq<Send>, x: Send :: (h + [x])[..|h|] == h;
  }

  /** The third of three equal sends in the band is past the edge; with the second one cancelled it is the edge. */
  lemma CancelledRowRaisesAHit(x: Send, cfg: Config)
    requires cfg.count == 2 && InBand(x.cents, cfg) && 2 * x.cents < cfg.aggCents
    ensures var was := [Entry(x, true), Entry(x, true), Entry(x, true)];
            var now := was[1 := Entry(x, false)];
            Settling(was, now) && Scan(was, 2, cfg) == None && Scan(now, 2, cfg).Some?
  {
    var was := [Entry(x, true), Entry(x, true), Entry(x, true)];
    var now := was[1 := Entry(x, false)];
    assert was[..2] == [Entry(x, true)] + [Entry(x, true)] && now[..2] == [Entry(x, true)] + [Entry(x, false)];
    LiveMore([], Entry(x, true));
    LiveMore([Entry(x, true)], Entry(x, true));
    LiveMore([Entry(x, true)], Entry(x, false));
    hide LiveSends, BandCount, SubTSum, SubTCount, InBand;
    OneMoreSend([], x, x.at - BAND_WINDOW_MS, cfg);
    OneMoreSend([], x, x.at - SUM_WINDOW_MS, cfg);
    OneMoreSend([x], x, x.at - BAND_WINDOW_MS, cfg);
    OneMoreSend([x], x, x.at - SUM_WINDOW_MS, cfg);
    NoSendsCountNothing(cfg);
    assert [] + [x] == [x] && ([x, x] + [x])[..2] == [x, x] && ([x] + [x])[..1] == [x];
  }

  lemma LiveMore(rows: seq<Entry>, e: Entry)
    ensures LiveSends(rows + [e]) == LiveSends(rows) + if e.live then [e.send] else []
  {
    assert (rows + [e])[..|rows|] == rows;
  }

  lemma NoSendsCountNothing(cfg: Config)
    ensures forall since :: BandCount([], since, cfg) == SubTSum([], since, cfg) == SubTCount([], since, cfg) == 0
  {
  }
}
