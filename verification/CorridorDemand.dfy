/**
 The corridor-demand ranking: leads bucketed by destination, rolled up per window and sorted. Amounts
 are exact reals; destinations, labels and codes are numbers in their string order.
 */
module CorridorDemand {

  import opened Wrappers
  import opened Sets

  const DAY_MS: int := 86_400_000

  type Label = nat      // a trimmed raw spelling
  type Spelling = nat   // a normalized spelling
  type Code = nat       // a country code
  type Currency = nat

  /** ts: None when the capture date does not parse; currency: None when it is not a known code. */
  datatype Request = Request(typed: Label, ts: Option<int>, sender: nat, amount: Option<real>, currency: Option<Currency>)

  /** norm: normalizeDestination; lower: a code's lower case; rates: to USD, for the currencies that resolved. */
  datatype Config = Config(norm: Label -> Spelling, alias: map<Spelling, Code>, lower: Code -> Spelling,
                           supported: set<Code>, rates: map<Currency, real>, windows: set<nat>, now: int)

  datatype Stats = Stats(leads: nat, distinctSenders: nat, usdDemand: real, pricedLeads: nat)

  datatype Entry = Entry(key: Spelling, destination: Label, supported: bool, total: Stats, windows: map<nat, Stats>,
                         growthLeads: Option<int>, growthPct: Option<real>)

  // ---- Folding a destination ----

  function KeyOf(c: Config, l: Label): Spelling {
    var n := c.norm(l);
    if n in c.alias then c.lower(c.alias[n]) else n
  }

  function FlagOf(c: Config, l: Label): bool {
    var n := c.norm(l);
    n in c.alias && c.alias[n] in c.supported
  }

  /** The supported flag is taken from whichever lead of a key comes first. */
  ghost predicate FlagFollowsKey(c: Config) {
    forall a, b :: KeyOf(c, a) == KeyOf(c, b) ==> FlagOf(c, a) == FlagOf(c, b)
  }

  /** Each supported code's lower case is itself an alias (of anything). */
  ghost predicate OwnAlias(c: Config) {
    forall n :: n in c.alias && c.alias[n] in c.supported ==> c.lower(c.alias[n]) in c.alias
  }

  ghost predicate CanBeTyped(c: Config, n: Spelling) { exists l :: c.norm(l) == n }

  /** Lower case tells codes apart, and every spelling can be typed. */
  ghost predicate Foldable(c: Config) {
    && (forall x, y :: c.lower(x) == c.lower(y) ==> x == y)
    && (forall n :: CanBeTyped(c, n))
  }

  /** So the flag does not depend on the order of the leads exactly when no supported code lacks that alias. */
  lemma FlagFollowsKeyExactly(c: Config)
    requires Foldable(c)
    ensures FlagFollowsKey(c) <==> OwnAlias(c)
  {
    if OwnAlias(c) {
      forall a, b | KeyOf(c, a) == KeyOf(c, b)
        ensures FlagOf(c, a) == FlagOf(c, b)
      {
        FlagsAgree(c, a, b);
      }
    }
    if FlagFollowsKey(c) {
      forall n | n in c.alias && c.alias[n] in c.supported
        ensures c.lower(c.alias[n]) in c.alias
      {
        var low := c.lower(c.alias[n]);
        assert CanBeTyped(c, n) && CanBeTyped(c, low);
        var l :| c.norm(l) == n;
        var m :| c.norm(m) == low;
        assert FlagOf(c, l);
        assert low !in c.alias ==> KeyOf(c, m) == KeyOf(c, l) && !FlagOf(c, m);
      }
    }
  }

  lemma FlagsAgree(c: Config, a: Label, b: Label)
    requires Foldable(c) && OwnAlias(c) && KeyOf(c, a) == KeyOf(c, b)
    ensures FlagOf(c, a) == FlagOf(c, b)
  {
    var m, n := c.norm(a), c.norm(b);
    if m in c.alias && n in c.alias {
      assert c.alias[m] == c.alias[n];
    }
  }

  // ---- What the rows of one key add up to ----

  predicate Included(r: Request, since: Option<int>) {
    since.Some? ==> r.ts.Some? && r.ts.value >= since.value
  }

  function Usd(c: Config, r: Request): Option<real> {
    if r.amount.Some? && r.currency.Some? && r.currency.value in c.rates
    then Some(r.amount.value * c.rates[r.currency.value]) else None
  }

  datatype Sums = Sums(leads: nat, priced: nat, usd: real)

  function Plus(a: Sums, b: Sums): Sums { Sums(a.leads + b.leads, a.priced + b.priced, a.usd + b.usd) }

  function Nothing(): Sums { Sums(0, 0, 0.0) }

  /** One row's part of a window. */
  function Share(c: Config, since: Option<int>): Request -> Sums {
    (r: Request) =>
      if !Included(r, since) then Nothing()
      else match Usd(c, r)
           case None => Sums(1, 0, 0.0)
           case Some(x) => Sums(1, 1, x)
  }

  function Spelled(l: Label): Request -> Sums {
    (r: Request) => if r.typed == l then Sums(1, 0, 0.0) else Nothing()
  }

  function Total(f: Request -> Sums, rows: seq<Request>): Sums {
    if rows == [] then Nothing() else Plus(Total(f, rows[..|rows| - 1]), f(rows[|rows| - 1]))
  }

  function SumOf(c: Config, rows: seq<Request>, since: Option<int>): Sums { Total(Share(c, since), rows) }

  function Senders(rows: seq<Request>, since: Option<int>): set<nat> {
    set r | r in rows && Included(r, since) :: r.sender
  }

  /** Math.round to cents: halves go up. */
  function RoundCents(x: real): real { (x * 100.0 + 0.5).Floor as real / 100.0 }

  function StatsOf(c: Config, rows: seq<Request>, since: Option<int>): Stats {
    var t := SumOf(c, rows, since);
    Stats(t.leads, |Senders(rows, since)|, RoundCents(t.usd), t.priced)
  }

  function LabelCount(rows: seq<Request>, l: Label): nat { Total(Spelled(l), rows).leads }

  /** The most frequent spelling, the first of them in string order. */
  ghost predicate IsLabel(rows: seq<Request>, best: Label) {
    LabelCount(rows, best) > 0 &&
    forall l :: LabelCount(rows, l) < LabelCount(rows, best) || (LabelCount(rows, l) == LabelCount(rows, best) && best <= l)
  }

  ghost predicate IsShortest(windows: set<nat>, d: nat) { d in windows && forall w :: w in windows ==> d <= w }

  /** Leads in the shortest window less those in the one before it, once history reaches back that far. */
  function GrowthOf(c: Config, rows: seq<Request>, days: nat): (Option<int>, Option<real>) {
    var recentCut, priorCut := c.now - days * DAY_MS, c.now - 2 * days * DAY_MS;
    if !(exists r :: r in rows && r.ts.Some? && r.ts.value < recentCut) then (None, None)
    else
      var recent := SumOf(c, rows, Some(recentCut)).leads;
      var prior := SumOf(c, rows, Some(priorCut)).leads - recent;
      (Some(recent - prior), if prior > 0 then Some((recent - prior) as real / prior as real * 100.0) else None)
  }

  function WindowsOf(c: Config, rows: seq<Request>): map<nat, Stats> {
    map d | d in c.windows :: StatsOf(c, rows, Some(c.now - d * DAY_MS))
  }

  /** The leads of one key, in order. */
  function Of(c: Config, requests: seq<Request>, k: Spelling): seq<Request> {
    if requests == [] then []
    else
      var last := requests[|requests| - 1];
      Of(c, requests[..|requests| - 1], k) + if KeyOf(c, last.typed) == k then [last] else []
  }

  ghost predicate IsEntry(c: Config, requests: seq<Request>, e: Entry) {
    var rows := Of(c, requests, e.key);
    && rows != []
    && IsLabel(rows, e.destination)
    && e.supported == FlagOf(c, rows[0].typed)
    && e.total == StatsOf(c, rows, None)
    && e.windows == WindowsOf(c, rows)
    && (if c.windows == {} then e.growthLeads == None && e.growthPct == None
        else exists d :: IsShortest(c.windows, d) && (e.growthLeads, e.growthPct) == GrowthOf(c, rows, d))
  }

  // ---- What the numbers mean ----

  /** The leads captured from `from` on and, if given, before `until`. */
  ghost function Between(rows: seq<Request>, from: int, until: Option<int>): set<int> {
    set i | 0 <= i < |rows| && rows[i].ts.Some? && from <= rows[i].ts.value && (until.Some? ==> rows[i].ts.value < until.value)
  }

  ghost function InWindow(rows: seq<Request>, since: Option<int>): set<int> {
    set i | 0 <= i < |rows| && Included(rows[i], since)
  }

  ghost function PricedIn(c: Config, rows: seq<Request>, since: Option<int>): set<int> {
    set i | 0 <= i < |rows| && Included(rows[i], since) && Usd(c, rows[i]).Some?
  }

  lemma SumOfLast(c: Config, rows: seq<Request>, since: Option<int>)
    requires rows != []
    ensures var n := |rows| - 1;
            var was, now := SumOf(c, rows[..n], since), SumOf(c, rows, since);
            && now.leads == was.leads + (if Included(rows[n], since) then 1 else 0)
            && now.priced == was.priced + if Included(rows[n], since) && Usd(c, rows[n]).Some? then 1 else 0
  {
  }

  lemma {:induction false} LeadsCount(c: Config, rows: seq<Request>, since: Option<int>)
    ensures SumOf(c, rows, since).leads == |InWindow(rows, since)|
    decreases |rows|
  {
    hide SumOf, Included, Usd, StatsOf;
    if rows == [] {
      NoRows(c, since);
    } else {
      var n := |rows| - 1;
      LeadsCount(c, rows[..n], since);
      SumOfLast(c, rows, since);
      assert InWindow(rows, since) == InWindow(rows[..n], since) + if Included(rows[n], since) then {n} else {};
      assert n !in InWindow(rows[..n], since);
    }
  }

  lemma {:induction false} PricedCount(c: Config, rows: seq<Request>, since: Option<int>)
    ensures SumOf(c, rows, since).priced == |PricedIn(c, rows, since)|
    decreases |rows|
  {
    hide SumOf, Included, Usd;
    if rows == [] {
      NoRows(c, since);
    } else {
      var n := |rows| - 1;
      PricedCount(c, rows[..n], since);
      SumOfLast(c, rows, since);
      var more := if Included(rows[n], since) && Usd(c, rows[n]).Some? then {n} else {};
      assert PricedIn(c, rows, since) == PricedIn(c, rows[..n], since) + more;
      assert n !in PricedIn(c, rows[..n], since);
    }
  }

  lemma NoRows(c: Config, since: Option<int>)
    ensures SumOf(c, [], since) == Nothing()
  {
  }

  /** The stats of a window count its leads, its senders and its priced leads. */
  lemma StatsCount(c: Config, rows: seq<Request>, since: Option<int>)
    ensures var t := StatsOf(c, rows, since);
            && t.leads == |InWindow(rows, since)| && t.pricedLeads == |PricedIn(c, rows, since)|
            && t.distinctSenders == |set r | r in rows && Included(r, since) :: r.sender|
  {
    LeadsCount(c, rows, since);
    PricedCount(c, rows, since);
  }

  lemma WindowSplits(rows: seq<Request>, recentCut: int, priorCut: int)
    requires priorCut <= recentCut
    ensures InWindow(rows, Some(recentCut)) == Between(rows, recentCut, None)
    ensures |InWindow(rows, Some(priorCut))| == |Between(rows, priorCut, Some(recentCut))| + |Between(rows, recentCut, None)|
  {
    assert InWindow(rows, Some(priorCut)) == Between(rows, priorCut, Some(recentCut)) + Between(rows, recentCut, None);
    assert Between(rows, priorCut, Some(recentCut)) !! Between(rows, recentCut, None);
  }

  /**
   Growth is reported exactly when a lead is older than the shortest window, and is then the leads of
   that window less those of the equally long one before it, also as a percentage when there were any.
   */
  lemma GrowthCompares(c: Config, rows: seq<Request>, days: nat)
    ensures var recentCut, priorCut := c.now - days * DAY_MS, c.now - 2 * days * DAY_MS;
            var recent, prior := |Between(rows, recentCut, None)|, |Between(rows, priorCut, Some(recentCut))|;
            var (leads, pct) := GrowthOf(c, rows, days);
            && (leads.Some? <==> exists i :: 0 <= i < |rows| && rows[i].ts.Some? && rows[i].ts.value < recentCut)
            && (leads.Some? ==> leads.value == recent - prior)
            && (pct.Some? <==> leads.Some? && prior > 0)
            && (pct.Some? ==> pct.value * prior as real == 100.0 * (recent - prior) as real)
  {
    var recentCut, priorCut := c.now - days * DAY_MS, c.now - 2 * days * DAY_MS;
    hide SumOf, InWindow, Between;
    LeadsCount(c, rows, Some(recentCut));
    LeadsCount(c, rows, Some(priorCut));
    WindowSplits(rows, recentCut, priorCut);
    assert forall r :: r in rows <==> exists i :: 0 <= i < |rows| && rows[i] == r;
  }

  /** Rounding gives whole cents, at most half a cent away, and up when it is half a cent. */
  lemma RoundsToCents(x: real)
    ensures var r := RoundCents(x);
            (r * 100.0).Floor as real == r * 100.0 && -0.005 < r - x <= 0.005
  {
    var n := (x * 100.0 + 0.5).Floor;
    assert RoundCents(x) * 100.0 == n as real;
  }

  // ---- The ranking order ----

  /** Leads, then senders, then USD, all descending, then the key ascending. */
  predicate Above(a: Entry, b: Entry) {
    if a.total.leads != b.total.leads then a.total.leads > b.total.leads
    else if a.total.distinctSenders != b.total.distinctSenders then a.total.distinctSenders > b.total.distinctSenders
    else if a.total.usdDemand != b.total.usdDemand then a.total.usdDemand > b.total.usdDemand
    else a.key < b.key
  }

  ghost predicate Ranked(result: seq<Entry>) {
    forall i, j :: 0 <= i < j < |result| ==> Above(result[i], result[j])
  }

  ghost predicate IsRanking(c: Config, requests: seq<Request>, result: seq<Entry>) {
    && Ranked(result)
    && (forall e :: e in result ==> IsEntry(c, requests, e))
    && (forall r :: r in requests ==> exists i :: 0 <= i < |result| && result[i].key == KeyOf(c, r.typed))
  }

  // ---- The order of the input does not matter ----

  lemma {:induction false} TotalWithout(f: Request -> Sums, rows: seq<Request>, i: nat)
    requires i < |rows|
    ensures Total(f, rows) == Plus(Total(f, rows[..i] + rows[i + 1..]), f(rows[i]))
    decreases |rows|
  {
    var n := |rows| - 1;
    var rest := rows[..i] + rows[i + 1..];
    if i == n {
      assert rest == rows[..n];
    } else {
      TotalWithout(f, rows[..n], i);
      assert rest[..|rest| - 1] == rows[..n][..i] + rows[..n][i + 1..];
      assert rest[|rest| - 1] == rows[n];
    }
  }

  lemma RemoveOne(a: seq<Request>, b: seq<Request>, i: nat)
    requires multiset(a) == multiset(b) && a != [] && i < |b| && b[i] == a[|a| - 1]
    ensures multiset(a[..|a| - 1]) == multiset(b[..i] + b[i + 1..])
  {
    var n := |a| - 1;
    assert b == b[..i] + [b[i]] + b[i + 1..];
    assert a == a[..n] + [a[n]];
    assert multiset(b) == multiset(b[..i] + b[i + 1..]) + multiset{b[i]};
    assert multiset(a) == multiset(a[..n]) + multiset{a[n]};
    assert multiset(a[..n]) == multiset(a) - multiset{a[n]};
  }

  lemma {:induction false} TotalPermutes(f: Request -> Sums, a: seq<Request>, b: seq<Request>)
    requires multiset(a) == multiset(b)
    ensures Total(f, a) == Total(f, b)
    decreases |a|
  {
    SameLength(a, b);
    if a != [] {
      var n := |a| - 1;
      assert a[n] in multiset(b);
      var i :| 0 <= i < |b| && b[i] == a[n];
      RemoveOne(a, b, i);
      TotalPermutes(f, a[..n], b[..i] + b[i + 1..]);
      TotalWithout(f, b, i);
    }
  }

  lemma SameLength(a: seq<Request>, b: seq<Request>)
    requires multiset(a) == multiset(b)
    ensures |a| == |b|
  {
    assert |multiset(a)| == |a| && |multiset(b)| == |b|;
  }

  lemma SendersPermute(a: seq<Request>, b: seq<Request>, since: Option<int>)
    requires multiset(a) == multiset(b)
    ensures Senders(a, since) == Senders(b, since)
  {
    assert forall r :: r in a <==> r in multiset(a);
    assert forall r :: r in b <==> r in multiset(b);
  }

  lemma StatsPermute(c: Config, a: seq<Request>, b: seq<Request>, since: Option<int>)
    requires multiset(a) == multiset(b)
    ensures StatsOf(c, a, since) == StatsOf(c, b, since)
  {
    TotalPermutes(Share(c, since), a, b);
    SendersPermute(a, b, since);
  }

  lemma {:induction false} OfCounts(c: Config, requests: seq<Request>, k: Spelling, r: Request)
    ensures multiset(Of(c, requests, k))[r] == if KeyOf(c, r.typed) == k then multiset(requests)[r] else 0
    decreases |requests|
  {
    if requests != [] {
      var n := |requests| - 1;
      OfCounts(c, requests[..n], k, r);
      assert requests == requests[..n] + [requests[n]];
    }
  }

  lemma OfPermutes(c: Config, a: seq<Request>, b: seq<Request>, k: Spelling)
    requires multiset(a) == multiset(b)
    ensures multiset(Of(c, a, k)) == multiset(Of(c, b, k))
  {
    forall r
      ensures multiset(Of(c, a, k))[r] == multiset(Of(c, b, k))[r]
    {
      OfCounts(c, a, k, r);
      OfCounts(c, b, k, r);
    }
  }

  lemma OfMembers(c: Config, requests: seq<Request>, k: Spelling, r: Request)
    ensures r in Of(c, requests, k) <==> r in requests && KeyOf(c, r.typed) == k
  {
    OfCounts(c, requests, k, r);
    assert r in Of(c, requests, k) <==> r in multiset(Of(c, requests, k));
    assert r in requests <==> r in multiset(requests);
  }

  lemma GrowthPermutes(c: Config, a: seq<Request>, b: seq<Request>, days: nat)
    requires multiset(a) == multiset(b)
    ensures GrowthOf(c, a, days) == GrowthOf(c, b, days)
  {
    hide Total, Share;
    var recentCut, priorCut := c.now - days * DAY_MS, c.now - 2 * days * DAY_MS;
    TotalPermutes(Share(c, Some(recentCut)), a, b);
    TotalPermutes(Share(c, Some(priorCut)), a, b);
    assert forall r :: r in a <==> r in multiset(a);
    assert forall r :: r in b <==> r in multiset(b);
  }

  lemma LabelPermutes(a: seq<Request>, b: seq<Request>, x: Label, y: Label)
    requires multiset(a) == multiset(b) && IsLabel(a, x) && IsLabel(b, y)
    ensures x == y
  {
    TotalPermutes(Spelled(x), a, b);
    TotalPermutes(Spelled(y), a, b);
    assert LabelCount(a, y) <= LabelCount(a, x) && LabelCount(b, x) <= LabelCount(b, y);
  }

  lemma WindowsPermute(c: Config, a: seq<Request>, b: seq<Request>)
    requires multiset(a) == multiset(b)
    ensures WindowsOf(c, a) == WindowsOf(c, b)
  {
    hide StatsOf;
    forall d | d in c.windows
      ensures StatsOf(c, a, Some(c.now - d * DAY_MS)) == StatsOf(c, b, Some(c.now - d * DAY_MS))
    {
      StatsPermute(c, a, b, Some(c.now - d * DAY_MS));
    }
  }

  lemma FlagsPermute(c: Config, a: seq<Request>, b: seq<Request>, k: Spelling)
    requires (FlagFollowsKey(c) || a == b) && Of(c, a, k) != [] && Of(c, b, k) != []
    ensures FlagOf(c, Of(c, a, k)[0].typed) == FlagOf(c, Of(c, b, k)[0].typed)
  {
    OfMembers(c, a, k, Of(c, a, k)[0]);
    OfMembers(c, b, k, Of(c, b, k)[0]);
  }

  /** One key has one entry, whatever order its leads came in. */
  lemma EntryIsDetermined(c: Config, a: seq<Request>, b: seq<Request>, x: Entry, y: Entry)
    requires (FlagFollowsKey(c) || a == b) && multiset(a) == multiset(b) && x.key == y.key
    requires IsEntry(c, a, x) && IsEntry(c, b, y)
    ensures x == y
  {
    hide StatsOf, WindowsOf, GrowthOf, IsLabel, FlagFollowsKey, Of, FlagOf;
    var s, t := Of(c, a, x.key), Of(c, b, x.key);
    OfPermutes(c, a, b, x.key);
    FlagsPermute(c, a, b, x.key);
    LabelPermutes(s, t, x.destination, y.destination);
    StatsPermute(c, s, t, None);
    WindowsPermute(c, s, t);
    if c.windows != {} {
      var d :| IsShortest(c.windows, d) && (x.growthLeads, x.growthPct) == GrowthOf(c, s, d);
      var e :| IsShortest(c.windows, e) && (y.growthLeads, y.growthPct) == GrowthOf(c, t, e);
      assert d == e;
      GrowthPermutes(c, s, t, d);
    }
  }

  lemma {:induction false} RankedIsUnique(a: seq<Entry>, b: seq<Entry>)
    requires Ranked(a) && Ranked(b) && forall e :: e in a <==> e in b
    ensures a == b
    decreases |a|
  {
    if a == [] {
      assert forall i :: 0 <= i < |b| ==> b[i] in b;
    } else {
      assert a[0] in b && b != [] && b[0] in a;
      var j :| 0 <= j < |b| && b[j] == a[0];
      var i :| 0 <= i < |a| && a[i] == b[0];
      assert a[0] == b[0];
      forall e
        ensures e in a[1..] <==> e in b[1..]
      {
        assert e in a[1..] ==> Above(a[0], e);
        assert e in b[1..] ==> Above(b[0], e);
        assert e in a <==> e == a[0] || e in a[1..];
        assert e in b <==> e == b[0] || e in b[1..];
      }
      RankedIsUnique(a[1..], b[1..]);
    }
  }

  lemma EntryAcross(c: Config, a: seq<Request>, b: seq<Request>, ra: seq<Entry>, rb: seq<Entry>, e: Entry)
    requires FlagFollowsKey(c) && multiset(a) == multiset(b) && IsRanking(c, a, ra) && IsRanking(c, b, rb) && e in ra
    ensures e in rb
  {
    var r := Of(c, a, e.key)[0];
    OfMembers(c, a, e.key, r);
    assert r in multiset(a) && r in b;
    var i :| 0 <= i < |rb| && rb[i].key == KeyOf(c, r.typed);
    assert rb[i] in rb;
    EntryIsDetermined(c, a, b, e, rb[i]);
  }

  /** Every permutation of the leads gives the same ranking, provided the flag follows the key. */
  lemma RankingIgnoresOrder(c: Config, a: seq<Request>, b: seq<Request>, ra: seq<Entry>, rb: seq<Entry>)
    requires FlagFollowsKey(c) && multiset(a) == multiset(b) && IsRanking(c, a, ra) && IsRanking(c, b, rb)
    ensures ra == rb
  {
    forall e
      ensures e in ra <==> e in rb
    {
      if e in ra { EntryAcross(c, a, b, ra, rb, e); }
      if e in rb { EntryAcross(c, b, a, rb, ra, e); }
    }
    RankedIsUnique(ra, rb);
  }

  // ---- Windows nest, and leads are conserved ----

  lemma {:induction false} SumsNest(c: Config, rows: seq<Request>, since: Option<int>, wider: Option<int>)
    requires forall r :: Included(r, since) ==> Included(r, wider)
    ensures SumOf(c, rows, since).leads <= SumOf(c, rows, wider).leads
    ensures SumOf(c, rows, since).priced <= SumOf(c, rows, wider).priced
    ensures SumOf(c, rows, since).priced <= SumOf(c, rows, since).leads <= |rows|
    decreases |rows|
  {
    if rows != [] { SumsNest(c, rows[..|rows| - 1], since, wider); }
  }

  /** A longer window counts at least as much, and the total counts at least as much as any window. */
  lemma WindowsNest(c: Config, requests: seq<Request>, e: Entry, short: nat, long: nat)
    requires IsEntry(c, requests, e) && short in c.windows && long in c.windows && short <= long
    ensures var s, l, t := e.windows[short], e.windows[long], e.total;
            && s.leads <= l.leads <= t.leads
            && s.distinctSenders <= l.distinctSenders <= t.distinctSenders
            && s.pricedLeads <= l.pricedLeads <= t.pricedLeads <= t.leads
  {
    hide GrowthOf, IsLabel, Total;
    var rows := Of(c, requests, e.key);
    var cutShort, cutLong := Some(c.now - short * DAY_MS), Some(c.now - long * DAY_MS);
    assert c.now - long * DAY_MS <= c.now - short * DAY_MS;
    SumsNest(c, rows, cutShort, cutLong);
    SumsNest(c, rows, cutLong, None);
    SumsNest(c, rows, None, None);
    SubsetSize(Senders(rows, cutShort), Senders(rows, cutLong));
    SubsetSize(Senders(rows, cutLong), Senders(rows, None));
  }

  lemma {:induction false} TotalLeads(c: Config, rows: seq<Request>)
    ensures SumOf(c, rows, None).leads == |rows|
    decreases |rows|
  {
    if rows != [] { TotalLeads(c, rows[..|rows| - 1]); }
  }

  function LeadsIn(result: seq<Entry>): nat {
    if result == [] then 0 else LeadsIn(result[..|result| - 1]) + result[|result| - 1].total.leads
  }

  /** How many of the requests have their key among the first n entries. */
  function Covered(c: Config, requests: seq<Request>, result: seq<Entry>): nat {
    if result == [] then 0
    else Covered(c, requests, result[..|result| - 1]) + |Of(c, requests, result[|result| - 1].key)|
  }

  lemma {:induction false} LeadsAreCovered(c: Config, requests: seq<Request>, result: seq<Entry>)
    requires forall e :: e in result ==> IsEntry(c, requests, e)
    ensures LeadsIn(result) == Covered(c, requests, result)
    decreases |result|
  {
    if result != [] {
      var last := result[|result| - 1];
      assert last in result;
      TotalLeads(c, Of(c, requests, last.key));
      LeadsAreCovered(c, requests, result[..|result| - 1]);
    }
  }

  /** One more request adds one to exactly the entry of its key. */
  lemma {:induction false} CoveredGrows(c: Config, requests: seq<Request>, result: seq<Entry>)
    requires requests != [] && forall i, j :: 0 <= i < j < |result| ==> result[i].key != result[j].key
    ensures var k := KeyOf(c, requests[|requests| - 1].typed);
            Covered(c, requests, result) == Covered(c, requests[..|requests| - 1], result)
              + if exists i :: 0 <= i < |result| && result[i].key == k then 1 else 0
    decreases |result|
  {
    if result != [] {
      var n := |result| - 1;
      var k := KeyOf(c, requests[|requests| - 1].typed);
      CoveredGrows(c, requests, result[..n]);
      OfLast(c, requests, result[n].key);
      CoveredLast(c, requests, result);
      CoveredLast(c, requests[..|requests| - 1], result);
      hide Covered, Of, KeyOf;
      SomeLast(result, k);
    }
  }

  lemma OfLast(c: Config, requests: seq<Request>, k: Spelling)
    requires requests != []
    ensures |Of(c, requests, k)|
            == |Of(c, requests[..|requests| - 1], k)| + if KeyOf(c, requests[|requests| - 1].typed) == k then 1 else 0
  {
  }

  lemma CoveredLast(c: Config, requests: seq<Request>, result: seq<Entry>)
    requires result != []
    ensures var n := |result| - 1;
            Covered(c, requests, result) == Covered(c, requests, result[..n]) + |Of(c, requests, result[n].key)|
  {
  }

  /** With distinct keys, k is the key of the last entry or of one before it, not both. */
  lemma SomeLast(result: seq<Entry>, k: Spelling)
    requires result != [] && forall i, j :: 0 <= i < j < |result| ==> result[i].key != result[j].key
    ensures var n := |result| - 1;
            var before := exists i :: 0 <= i < n && result[..n][i].key == k;
            && ((exists i :: 0 <= i < |result| && result[i].key == k) <==> before || result[n].key == k)
            && !(before && result[n].key == k)
  {
    var n := |result| - 1;
    assert forall i :: 0 <= i < n ==> result[..n][i] == result[i];
  }

  lemma {:induction false} AllCovered(c: Config, requests: seq<Request>, result: seq<Entry>)
    requires forall i, j :: 0 <= i < j < |result| ==> result[i].key != result[j].key
    requires forall r :: r in requests ==> exists i :: 0 <= i < |result| && result[i].key == KeyOf(c, r.typed)
    ensures Covered(c, requests, result) == |requests|
    decreases |requests|
  {
    if requests == [] {
      NothingCovered(c, result);
    } else {
      assert requests[|requests| - 1] in requests;
      CoveredGrows(c, requests, result);
      AllCovered(c, requests[..|requests| - 1], result);
    }
  }

  lemma {:induction false} NothingCovered(c: Config, result: seq<Entry>)
    ensures Covered(c, [], result) == 0
    decreases |result|
  {
    if result != [] { NothingCovered(c, result[..|result| - 1]); }
  }

  lemma KeysDiffer(c: Config, requests: seq<Request>, result: seq<Entry>, i: nat, j: nat)
    requires IsRanking(c, requests, result) && i < j < |result|
    ensures result[i].key != result[j].key
  {
    var x, y := result[i], result[j];
    assert x in result && y in result;
    if x.key == y.key { EntryIsDetermined(c, requests, requests, x, y); }
  }

  /** Every lead is counted in exactly one entry. */
  lemma LeadsAreConserved(c: Config, requests: seq<Request>, result: seq<Entry>)
    requires IsRanking(c, requests, result)
    ensures LeadsIn(result) == |requests|
  {
    hide IsEntry;
    forall i, j | 0 <= i < j < |result|
      ensures result[i].key != result[j].key
    {
      KeysDiffer(c, requests, result, i, j);
    }
    LeadsAreCovered(c, requests, result);
    AllCovered(c, requests, result);
  }

  // ---- The aggregation loops ----

  lemma TakeOne(f: Request -> Sums, rows: seq<Request>, i: nat)
    requires i < |rows|
    ensures Total(f, rows[..i + 1]) == Plus(Total(f, rows[..i]), f(rows[i]))
  {
    assert rows[..i + 1][..i] == rows[..i];
  }

  method StatsFor(c: Config, rows: seq<Request>, since: Option<int>) returns (s: Stats)
    ensures s == StatsOf(c, rows, since)
  {
    var senders: set<nat> := {};
    var leads: nat, pricedLeads: nat, usdDemand: real := 0, 0, 0.0;
    for i := 0 to |rows|
      invariant Sums(leads, pricedLeads, usdDemand) == SumOf(c, rows[..i], since)
      invariant senders == Senders(rows[..i], since)
    {
      var r := rows[i];
      TakeOne(Share(c, since), rows, i);
      assert forall x :: x in rows[..i + 1] <==> x in rows[..i] || x == r;
      if Included(r, since) {
        leads := leads + 1;
        senders := senders + {r.sender};
        var usd := Usd(c, r);
        if usd.Some? {
          usdDemand := usdDemand + usd.value;
          pricedLeads := pricedLeads + 1;
        }
      }
    }
    assert rows[..|rows|] == rows;
    s := Stats(leads, |senders|, RoundCents(usdDemand), pricedLeads);
  }

  /** The label counts of a bucket. */
  ghost predicate CountsLabels(labels: map<Label, nat>, rows: seq<Request>) {
    && (forall l :: l in labels ==> labels[l] == LabelCount(rows, l) > 0)
    && (forall l :: l !in labels ==> LabelCount(rows, l) == 0)
  }

  /** pickLabel: the map is walked in any order. */
  method PickLabel(labels: map<Label, nat>, ghost rows: seq<Request>) returns (best: Label)
    requires CountsLabels(labels, rows) && labels != map[]
    ensures IsLabel(rows, best)
  {
    hide LabelCount;
    best := 0;
    var bestCount: int := -1;
    var todo := labels.Keys;
    while todo != {}
      invariant todo <= labels.Keys
      invariant bestCount == -1 <==> todo == labels.Keys
      invariant bestCount >= 0 ==> best in labels && bestCount == labels[best]
      invariant forall l :: l in labels && l !in todo ==> labels[l] < bestCount || (labels[l] == bestCount && best <= l)
    {
      var l :| l in todo;
      var count := labels[l];
      if count > bestCount || (count == bestCount && l < best) {
        best, bestCount := l, count;
      }
      todo := todo - {l};
    }
    assert labels.Keys != {};
  }

  datatype Accum = Accum(labels: map<Label, nat>, supported: bool, rows: seq<Request>)

  ghost predicate IsBucket(c: Config, requests: seq<Request>, k: Spelling, acc: Accum) {
    && acc.rows == Of(c, requests, k) != []
    && acc.supported == FlagOf(c, acc.rows[0].typed)
    && CountsLabels(acc.labels, acc.rows)
  }

  lemma BucketGrows(c: Config, requests: seq<Request>, i: nat, k: Spelling)
    requires i < |requests|
    ensures Of(c, requests[..i + 1], k) ==
            Of(c, requests[..i], k) + if KeyOf(c, requests[i].typed) == k then [requests[i]] else []
  {
    assert requests[..i + 1][..i] == requests[..i];
  }

  lemma LabelsGrow(labels: map<Label, nat>, rows: seq<Request>, r: Request)
    requires CountsLabels(labels, rows)
    ensures CountsLabels(labels[r.typed := 1 + if r.typed in labels then labels[r.typed] else 0], rows + [r])
  {
    var more := rows + [r];
    assert more[..|rows|] == rows;
    assert forall l :: LabelCount(more, l) == Plus(Total(Spelled(l), rows), Spelled(l)(r)).leads;
  }

  lemma OtherBucketsStay(c: Config, requests: seq<Request>, i: nat, k: Spelling)
    requires i < |requests| && KeyOf(c, requests[i].typed) != k
    ensures Of(c, requests[..i + 1], k) == Of(c, requests[..i], k)
  {
    BucketGrows(c, requests, i, k);
  }

  lemma OwnBucketGrows(c: Config, requests: seq<Request>, i: nat, acc: Accum)
    requires i < |requests|
    requires var k := KeyOf(c, requests[i].typed);
             if Of(c, requests[..i], k) == [] then acc == Accum(map[], FlagOf(c, requests[i].typed), [])
             else IsBucket(c, requests[..i], k, acc)
    ensures var r := requests[i];
            var count := if r.typed in acc.labels then acc.labels[r.typed] else 0;
            IsBucket(c, requests[..i + 1], KeyOf(c, r.typed),
                     Accum(acc.labels[r.typed := 1 + count], acc.supported, acc.rows + [r]))
  {
    hide CountsLabels;
    BucketGrows(c, requests, i, KeyOf(c, requests[i].typed));
    NoLabels();
    LabelsGrow(acc.labels, acc.rows, requests[i]);
  }

  lemma NoLabels()
    ensures CountsLabels(map[], [])
  {
  }

  /** Every lead goes into the bucket of its key, in order. */
  method Bucket(c: Config, requests: seq<Request>) returns (byKey: map<Spelling, Accum>)
    ensures forall k :: k in byKey ==> IsBucket(c, requests, k, byKey[k])
    ensures forall k :: k !in byKey ==> Of(c, requests, k) == []
  {
    hide Of, CountsLabels, KeyOf, FlagOf;
    byKey := map[];
    NoneYet(c);
    for i := 0 to |requests|
      invariant forall k :: k in byKey ==> IsBucket(c, requests[..i], k, byKey[k])
      invariant forall k :: k !in byKey ==> Of(c, requests[..i], k) == []
    {
      var r := requests[i];
      var key := KeyOf(c, r.typed);
      var acc := if key in byKey then byKey[key] else Accum(map[], FlagOf(c, r.typed), []);
      OwnBucketGrows(c, requests, i, acc);
      forall k | k != key
        ensures Of(c, requests[..i + 1], k) == Of(c, requests[..i], k)
      {
        OtherBucketsStay(c, requests, i, k);
      }
      var count := if r.typed in acc.labels then acc.labels[r.typed] else 0;
      byKey := byKey[key := Accum(acc.labels[r.typed := 1 + count], acc.supported, acc.rows + [r])];
    }
    assert requests[..|requests|] == requests;
  }

  lemma NoneYet(c: Config)
    ensures forall k :: Of(c, [], k) == []
  {
  }

  /** The growth slope of one bucket. */
  method Growth(c: Config, rows: seq<Request>, days: nat) returns (leads: Option<int>, pct: Option<real>)
    ensures (leads, pct) == GrowthOf(c, rows, days)
  {
    var recentCut, priorCut := c.now - days * DAY_MS, c.now - 2 * days * DAY_MS;
    var history := false;
    for i := 0 to |rows|
      invariant history <==> exists r :: r in rows[..i] && r.ts.Some? && r.ts.value < recentCut
    {
      assert rows[..i + 1] == rows[..i] + [rows[i]];
      if rows[i].ts.Some? && rows[i].ts.value < recentCut { history := true; }
    }
    assert rows[..|rows|] == rows;
    if !history { return None, None; }
    var recent := StatsFor(c, rows, Some(recentCut));
    var upToPrior := StatsFor(c, rows, Some(priorCut));
    var prior: int := upToPrior.leads - recent.leads;
    var growth: int := recent.leads - prior;
    leads := Some(growth);
    pct := if prior > 0 then Some(growth as real / prior as real * 100.0) else None;
  }

  method WindowStats(c: Config, rows: seq<Request>) returns (windows: map<nat, Stats>)
    ensures windows == WindowsOf(c, rows)
  {
    hide StatsOf;
    windows := map[];
    var todo := c.windows;
    while todo != {}
      invariant todo <= c.windows && windows.Keys == c.windows - todo
      invariant forall d :: d in windows ==> windows[d] == StatsOf(c, rows, Some(c.now - d * DAY_MS))
    {
      var d :| d in todo;
      var s := StatsFor(c, rows, Some(c.now - d * DAY_MS));
      windows := windows[d := s];
      todo := todo - {d};
    }
  }

  method Shortest(windows: set<nat>) returns (d: nat)
    requires windows != {}
    ensures IsShortest(windows, d)
  {
    d :| d in windows;
    var todo := windows - {d};
    while todo != {}
      invariant todo <= windows && d in windows
      invariant forall w :: w in windows && w !in todo ==> d <= w
    {
      var w :| w in todo;
      if w < d { d := w; }
      todo := todo - {w};
    }
  }

  /** One bucket's entry. */
  method RollUp(c: Config, ghost requests: seq<Request>, key: Spelling, acc: Accum) returns (e: Entry)
    requires IsBucket(c, requests, key, acc)
    ensures IsEntry(c, requests, e) && e.key == key
  {
    hide StatsOf, WindowsOf, GrowthOf, IsLabel, Of, LabelCount;
    var total := StatsFor(c, acc.rows, None);
    var windows := WindowStats(c, acc.rows);
    var growth: Option<int>, pct: Option<real> := None, None;
    if c.windows != {} {
      var shortest := Shortest(c.windows);
      growth, pct := Growth(c, acc.rows, shortest);
    }
    SomeLabel(acc.labels, acc.rows);
    var destination := PickLabel(acc.labels, acc.rows);
    e := Entry(key, destination, acc.supported, total, windows, growth, pct);
  }

  lemma SomeLabel(labels: map<Label, nat>, rows: seq<Request>)
    requires CountsLabels(labels, rows) && rows != []
    ensures labels != map[]
  {
    var last := rows[|rows| - 1];
    assert LabelCount(rows, last.typed) > 0;
    assert last.typed in labels;
  }

  /** The sort: on entries with different keys the order is total. */
  method SortByRank(entries: seq<Entry>) returns (sorted: seq<Entry>)
    requires forall i, j :: 0 <= i < j < |entries| ==> entries[i].key != entries[j].key
    ensures Ranked(sorted) && multiset(sorted) == multiset(entries)
  {
    sorted := [];
    for i := 0 to |entries|
      invariant Ranked(sorted) && multiset(sorted) == multiset(entries[..i])
    {
      assert entries[..i + 1] == entries[..i] + [entries[i]];
      forall e | e in sorted
        ensures e.key != entries[i].key
      {
        assert e in multiset(entries[..i]);
      }
      sorted := InsertRanked(sorted, entries[i]);
    }
    assert entries[..|entries|] == entries;
  }

  lemma AboveIsTotal(a: Entry, b: Entry)
    requires a.key != b.key && !Above(a, b)
    ensures Above(b, a)
  {
  }

  lemma AboveIsTransitive(a: Entry, b: Entry, e: Entry)
    requires Above(a, b) && Above(b, e)
    ensures Above(a, e)
  {
  }

  lemma InsertKeepsRanked(sorted: seq<Entry>, x: Entry, p: nat)
    requires Ranked(sorted) && p <= |sorted| && (forall e :: e in sorted ==> e.key != x.key)
    requires (forall i :: 0 <= i < p ==> Above(sorted[i], x)) && (p < |sorted| ==> !Above(sorted[p], x))
    ensures Ranked(sorted[..p] + [x] + sorted[p..])
  {
    hide Above;
    forall i | p <= i < |sorted|
      ensures Above(x, sorted[i])
    {
      assert sorted[p] in sorted;
      AboveIsTotal(sorted[p], x);
      if p < i { AboveIsTransitive(x, sorted[p], sorted[i]); }
    }
  }

  method InsertRanked(sorted: seq<Entry>, x: Entry) returns (more: seq<Entry>)
    requires Ranked(sorted) && forall e :: e in sorted ==> e.key != x.key
    ensures Ranked(more) && multiset(more) == multiset(sorted) + multiset{x}
  {
    hide Ranked;
    var p := 0;
    while p < |sorted| && Above(sorted[p], x)
      invariant p <= |sorted|
      invariant forall i :: 0 <= i < p ==> Above(sorted[i], x)
    {
      p := p + 1;
    }
    InsertKeepsRanked(sorted, x, p);
    more := sorted[..p] + [x] + sorted[p..];
    assert sorted == sorted[..p] + sorted[p..];
  }

  /** rankCorridorDemand, after the rates were fetched. */
  method RankCorridorDemand(c: Config, requests: seq<Request>) returns (result: seq<Entry>)
    ensures IsRanking(c, requests, result)
  {
    hide IsEntry, IsBucket, Ranked, Of;
    var byKey := Bucket(c, requests);
    var entries: seq<Entry> := [];
    var todo := byKey.Keys;
    while todo != {}
      invariant todo <= byKey.Keys
      invariant forall e :: e in entries ==> IsEntry(c, requests, e) && e.key in byKey && e.key !in todo
      invariant forall k :: k in byKey && k !in todo ==> exists e :: e in entries && e.key == k
      invariant forall i, j :: 0 <= i < j < |entries| ==> entries[i].key != entries[j].key
    {
      var key :| key in todo;
      var e := RollUp(c, requests, key, byKey[key]);
      assert forall i :: 0 <= i < |entries| ==> entries[i] in entries;
      entries := entries + [e];
      assert e in entries;
      todo := todo - {key};
    }
    result := SortByRank(entries);
    forall e
      ensures e in result <==> e in entries
    {
      assert e in result <==> e in multiset(result);
      assert e in entries <==> e in multiset(entries);
    }
    forall r | r in requests
      ensures exists i :: 0 <= i < |result| && result[i].key == KeyOf(c, r.typed)
    {
      OfMembers(c, requests, KeyOf(c, r.typed), r);
      assert KeyOf(c, r.typed) in byKey;
      var e :| e in entries && e.key == KeyOf(c, r.typed);
      assert e in result;
    }
  }

  // ---- The condition is needed ----

  ghost predicate OrderIndependent(c: Config) {
    forall a, b, ra, rb ::
      multiset(a) == multiset(b) && IsRanking(c, a, ra) && IsRanking(c, b, rb) ==> ra == rb
  }

  lemma LabelExists(rows: seq<Request>) returns (best: Label)
    requires rows != []
    ensures IsLabel(rows, best)
  {
    hide Total;
    var labels := set r | r in rows :: r.typed;
    best := rows[0].typed;
    var todo := labels;
    while todo != {}
      invariant todo <= labels && best in labels
      invariant forall l :: l in labels && l !in todo ==>
                  LabelCount(rows, l) < LabelCount(rows, best) || (LabelCount(rows, l) == LabelCount(rows, best) && best <= l)
    {
      var l :| l in todo;
      if LabelCount(rows, l) > LabelCount(rows, best) || (LabelCount(rows, l) == LabelCount(rows, best) && l < best) {
        best := l;
      }
      todo := todo - {l};
    }
    forall l
      ensures LabelCount(rows, l) > 0 <==> l in labels
    {
      CountedLabels(rows, l);
    }
  }

  lemma {:induction false} CountedLabels(rows: seq<Request>, l: Label)
    ensures LabelCount(rows, l) > 0 <==> exists r :: r in rows && r.typed == l
    decreases |rows|
  {
    if rows != [] {
      var n := |rows| - 1;
      CountedLabels(rows[..n], l);
      assert forall r :: r in rows <==> r in rows[..n] || r == rows[n];
    }
  }

  lemma ShortestExists(windows: set<nat>) returns (d: nat)
    requires windows != {}
    ensures IsShortest(windows, d)
  {
    d :| d in windows;
    var todo := windows - {d};
    while todo != {}
      invariant todo <= windows && d in windows
      invariant forall w :: w in windows && w !in todo ==> d <= w
    {
      var w :| w in todo;
      if w < d { d := w; }
      todo := todo - {w};
    }
  }

  lemma EntryExists(c: Config, requests: seq<Request>, k: Spelling) returns (e: Entry)
    requires Of(c, requests, k) != []
    ensures IsEntry(c, requests, e) && e.key == k
  {
    hide StatsOf, WindowsOf, GrowthOf, IsLabel, FlagOf, Of;
    var rows := Of(c, requests, k);
    var top := LabelExists(rows);
    var growth: (Option<int>, Option<real>) := (None, None);
    if c.windows != {} {
      var d := ShortestExists(c.windows);
      growth := GrowthOf(c, rows, d);
    }
    e := Entry(k, top, FlagOf(c, rows[0].typed), StatsOf(c, rows, None), WindowsOf(c, rows), growth.0, growth.1);
  }

  lemma OfTwo(c: Config, x: Request, y: Request)
    requires KeyOf(c, x.typed) == KeyOf(c, y.typed)
    ensures Of(c, [x, y], KeyOf(c, x.typed)) == [x, y]
  {
    hide KeyOf;
    assert [x, y][..1] == [x] && [x][..0] == [];
    assert Of(c, [x], KeyOf(c, x.typed)) == [x];
  }

  lemma TwoLeads(c: Config, x: Request, y: Request) returns (result: seq<Entry>)
    requires KeyOf(c, x.typed) == KeyOf(c, y.typed)
    ensures IsRanking(c, [x, y], result) && |result| == 1 && result[0].supported == FlagOf(c, x.typed)
  {
    hide Of, KeyOf, FlagOf, IsLabel, StatsOf, WindowsOf, GrowthOf;
    OfTwo(c, x, y);
    var e := EntryExists(c, [x, y], KeyOf(c, x.typed));
    result := [e];
    assert result[0].key == KeyOf(c, x.typed);
  }

  /** The ranking ignores the order of the leads, for all leads, exactly when the alias table meets its condition. */
  lemma OrderIndependentExactly(c: Config)
    requires Foldable(c)
    ensures OrderIndependent(c) <==> OwnAlias(c)
  {
    hide IsRanking;
    FlagFollowsKeyExactly(c);
    if FlagFollowsKey(c) {
      forall a, b, ra, rb | multiset(a) == multiset(b) && IsRanking(c, a, ra) && IsRanking(c, b, rb)
        ensures ra == rb
      {
        RankingIgnoresOrder(c, a, b, ra, rb);
      }
    } else {
      var p, q :| KeyOf(c, p) == KeyOf(c, q) && FlagOf(c, p) != FlagOf(c, q);
      var x, y := Request(p, None, 0, None, None), Request(q, None, 0, None, None);
      var ra := TwoLeads(c, x, y);
      var rb := TwoLeads(c, y, x);
      var a: seq<Request>, b: seq<Request> := [x, y], [y, x];
      assert multiset(a) == multiset{x, y} == multiset(b);
      assert ra != rb;
    }
  }
}
