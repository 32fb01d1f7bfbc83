/**
 How the sweep counts the distinct senders of a payout destination: a Redis sorted set whose members
 are the senders and whose scores are the times of their sends, in ms. Every visit runs ZADD GT,
 ZREMRANGEBYSCORE, ZCARD, a rank trim to twice the threshold and EXPIRE, so what is stored is a
 bounded cache of a set that is never trimmed.
 */
module AmlDestinationSet {

  import opened Sets

  // Blind indexes are fixed-length hex, so Redis' byte order on members is a number order.
  type Member = nat
  type Scores = map<Member, int>

  const DAY_MS: int := 86_400_000
  const CLUSTER_WINDOW_MS: int := 30 * DAY_MS
  const DEST_ZSET_TTL_MS: int := 31 * DAY_MS

  datatype Visit = Visit(member: Member, score: int, senders: nat)

  ghost predicate Thresholds(vs: seq<Visit>, allowed: set<nat>) {
    forall i :: 0 <= i < |vs| ==> vs[i].senders in allowed
  }

  // ---- The Redis commands on values ----

  /** Redis orders a sorted set by score, then by member. */
  predicate Lower(z: Scores, x: Member, y: Member)
    requires x in z && y in z
  {
    z[x] < z[y] || (z[x] == z[y] && x < y)
  }

  function Max(a: int, b: int): int { if a < b then b else a }

  function Min(a: int, b: int): int { if a < b then a else b }

  /** ZADD key GT score member */
  function Raise(z: Scores, m: Member, s: int): Scores {
    z[m := if m in z then Max(z[m], s) else s]
  }

  /** ZREMRANGEBYSCORE key -inf (cutoff */
  function Evict(z: Scores, cutoff: int): Scores {
    map m | m in z && z[m] >= cutoff :: z[m]
  }

  ghost predicate IsLowest(z: Scores, m: Member) {
    m in z && forall y :: y in z && y != m ==> Lower(z, m, y)
  }

  /** ZREMRANGEBYRANK key 0 -(cap + 1): drop the lowest entries until `cap` are left. */
  ghost function Trim(z: Scores, cap: nat): Scores
    decreases |z|
  {
    if |z| <= cap then z
    else
      LowestExists(z);
      var low :| IsLowest(z, low);
      Trim(z - {low}, cap)
  }

  lemma {:induction false} LowestExists(z: Scores)
    requires z != map[]
    ensures exists m :: IsLowest(z, m)
    decreases |z|
  {
    var m :| m in z;
    var rest := z - {m};
    assert z.Keys == rest.Keys + {m};
    if rest == map[] {
      assert IsLowest(z, m);
    } else {
      LowestExists(rest);
      var l :| IsLowest(rest, l);
      assert forall y :: y in z && y != m ==> y in rest;
      if Lower(z, m, l) {
        assert IsLowest(z, m);
      } else {
        assert IsLowest(z, l);
      }
    }
  }

  // ---- What the sweep does on one visit, with and without the trim ----

  ghost function AfterUntrimmed(z: Scores, v: Visit): Scores {
    Evict(Raise(z, v.member, v.score), v.score - CLUSTER_WINDOW_MS)
  }

  ghost function AfterTrimmed(z: Scores, v: Visit): Scores {
    Trim(AfterUntrimmed(z, v), 2 * v.senders)
  }

  ghost function Untrimmed(vs: seq<Visit>): Scores {
    if vs == [] then map[] else AfterUntrimmed(Untrimmed(vs[..|vs| - 1]), vs[|vs| - 1])
  }

  ghost function Trimmed(vs: seq<Visit>): Scores {
    if vs == [] then map[] else AfterTrimmed(Trimmed(vs[..|vs| - 1]), vs[|vs| - 1])
  }

  /** cluster(): at least `senders` distinct senders counted by the last visit. */
  ghost predicate Fires(z: Scores, senders: nat) { |z| >= senders }

  // ---- Top sets ----

  /** `a` holds the `k` highest members of `z` (all of them when there are fewer). */
  ghost predicate IsTop(z: Scores, a: set<Member>, k: nat) {
    && a <= z.Keys
    && |a| == Min(k, |z|)
    && forall x, y :: x in a && y in z && y !in a ==> Lower(z, y, x)
  }

  lemma LowerIsStrict(z: Scores, x: Member, y: Member)
    requires x in z && y in z
    ensures !(Lower(z, x, y) && Lower(z, y, x))
  {
  }

  lemma TopWithoutLowest(z: Scores, low: Member, a: set<Member>, k: nat)
    requires |z| > k && IsLowest(z, low) && IsTop(z - {low}, a, k)
    ensures IsTop(z, a, k)
  {
    var rest := z - {low};
    assert z.Keys == rest.Keys + {low};
    forall x, y | x in a && y in z && y !in a ensures Lower(z, y, x) {
      if y != low { assert y in rest && Lower(rest, y, x); }
    }
  }

  lemma {:induction false} TrimKeepsTop(z: Scores, k: nat)
    ensures IsTop(z, Trim(z, k).Keys, k)
    ensures forall m :: m in Trim(z, k) ==> Trim(z, k)[m] == z[m]
    decreases |z|
  {
    if |z| > k {
      LowestExists(z);
      var low :| IsLowest(z, low) && Trim(z, k) == Trim(z - {low}, k);
      TrimKeepsTop(z - {low}, k);
      TopWithoutLowest(z, low, Trim(z, k).Keys, k);
    }
  }

  /** Any two top sets are nested: the smaller one sits inside the larger one. */
  lemma TopSetsNest(z: Scores, a: set<Member>, c: nat, b: set<Member>, k: nat)
    requires c <= k && IsTop(z, a, c) && IsTop(z, b, k)
    ensures a <= b
  {
    if x :| x in a && x !in b {
      forall y | y in b ensures y in a { LowerIsStrict(z, x, y); }
      assert b <= a - {x};
      SubsetSize(b, a - {x});
      SubsetSize(b, z.Keys);
      SubsetSize(a, z.Keys);
    }
  }

  /** Restricting to a larger top set does not change a smaller one. */
  lemma TopOfTop(z: Scores, t: Scores, a: set<Member>, c: nat, k: nat)
    requires c <= k && IsTop(z, a, c) && IsTop(z, t.Keys, k)
    requires forall m :: m in t ==> t[m] == z[m]
    ensures IsTop(t, a, c)
  {
    TopSetsNest(z, a, c, t.Keys, k);
    SubsetSize(a, t.Keys);
    forall x, y | x in a && y in t && y !in a ensures Lower(t, y, x) {
      assert Lower(z, y, x);
    }
  }

  // ---- The trimmed set against the never-trimmed one ----

  /** Entries of `t` are entries of `u` with the same or a higher score there. */
  ghost predicate Dominated(t: Scores, u: Scores) {
    forall m :: m in t ==> m in u && t[m] <= u[m]
  }

  /** Both sets have the same `c` highest entries, with the same scores. */
  ghost predicate AgreeOn(t: Scores, u: Scores, a: set<Member>, c: nat) {
    && IsTop(t, a, c) && IsTop(u, a, c)
    && (forall m :: m in a ==> t[m] == u[m])
  }

  ghost predicate Agree(t: Scores, u: Scores, c: nat) {
    Dominated(t, u) && exists a :: AgreeOn(t, u, a, c)
  }

  lemma RaiseSize(z: Scores, m: Member, s: int)
    ensures |Raise(z, m, s)| == if m in z then |z| else |z| + 1
  {
    assert Raise(z, m, s).Keys == z.Keys + {m};
  }

  /** A raise that leaves `m` below the whole top set leaves the top set alone. */
  lemma RaiseBelowTop(z: Scores, a: set<Member>, c: nat, m: Member, s: int)
    requires IsTop(z, a, c) && |a| == c && m !in a
    requires var r := Raise(z, m, s); forall x :: x in a ==> Lower(r, m, x)
    ensures IsTop(Raise(z, m, s), a, c)
  {
    var r := Raise(z, m, s);
    RaiseSize(z, m, s);
    SubsetSize(a, z.Keys);
    forall x, y | x in a && y in r && y !in a ensures Lower(r, y, x) {
      if y != m { assert Lower(z, y, x); }
    }
  }

  /** A raise above the lowest of a full top set replaces that lowest entry. */
  lemma RaiseIntoTop(z: Scores, a: set<Member>, c: nat, m: Member, s: int, low: Member)
    requires IsTop(z, a, c) && |a| == c && m !in a
    requires low in a && forall x :: x in a && x != low ==> Lower(z, low, x)
    requires Lower(Raise(z, m, s), low, m)
    ensures IsTop(Raise(z, m, s), a - {low} + {m}, c)
  {
    var r := Raise(z, m, s);
    var b := a - {low} + {m};
    RaiseSize(z, m, s);
    SubsetSize(a, z.Keys);
    forall x, y | x in b && y in r && y !in b ensures Lower(r, y, x) {
      if y == low {
        if x != m { assert Lower(z, low, x); }
      } else {
        assert Lower(z, y, low);
        if x != m { assert Lower(z, y, x); }
      }
    }
  }

  lemma RaiseInsideTop(z: Scores, a: set<Member>, c: nat, m: Member, s: int)
    requires IsTop(z, a, c) && m in a
    ensures IsTop(Raise(z, m, s), a, c)
  {
    var r := Raise(z, m, s);
    RaiseSize(z, m, s);
    forall x, y | x in a && y in r && y !in a ensures Lower(r, y, x) {
      assert Lower(z, y, x);
    }
  }

  lemma RaisePartialTop(z: Scores, a: set<Member>, c: nat, m: Member, s: int)
    requires IsTop(z, a, c) && |a| < c && m !in a
    ensures z.Keys == a && IsTop(Raise(z, m, s), a + {m}, c)
  {
    SubsetSize(a, z.Keys);
    RaiseSize(z, m, s);
    assert Raise(z, m, s).Keys == a + {m};
  }

  lemma LowestOf(z: Scores, a: set<Member>) returns (low: Member)
    requires a != {} && a <= z.Keys
    ensures low in a && forall x :: x in a && x != low ==> Lower(z, low, x)
  {
    var sub := map m | m in a :: z[m];
    var any :| any in a;
    assert any in sub;
    LowestExists(sub);
    low :| IsLowest(sub, low);
    forall x | x in a && x != low ensures Lower(z, low, x) {
      assert x in sub;
      assert Lower(sub, low, x);
    }
  }

  lemma RaiseStaysBelow(t: Scores, u: Scores, a: set<Member>, m: Member, s: int, c: nat)
    requires AgreeOn(t, u, a, c) && |a| == c && m !in a
    requires forall x :: x in a ==> Lower(Raise(t, m, s), m, x) && Lower(Raise(u, m, s), m, x)
    ensures AgreeOn(Raise(t, m, s), Raise(u, m, s), a, c)
  {
    RaiseBelowTop(t, a, c, m, s);
    RaiseBelowTop(u, a, c, m, s);
  }

  lemma RaiseReplacesLowest(t: Scores, u: Scores, a: set<Member>, m: Member, s: int, c: nat, low: Member)
    requires AgreeOn(t, u, a, c) && |a| == c && m !in a && Raise(t, m, s)[m] == Raise(u, m, s)[m]
    requires low in a && forall x :: x in a && x != low ==> Lower(t, low, x)
    requires Lower(Raise(t, m, s), low, m)
    ensures AgreeOn(Raise(t, m, s), Raise(u, m, s), a - {low} + {m}, c)
  {
    forall x | x in a && x != low ensures Lower(u, low, x) { assert Lower(t, low, x); }
    RaiseIntoTop(t, a, c, m, s, low);
    RaiseIntoTop(u, a, c, m, s, low);
  }

  lemma RaiseKeepsFullAgreement(t: Scores, u: Scores, a: set<Member>, m: Member, s: int, c: nat)
    requires c > 0 && Dominated(t, u) && AgreeOn(t, u, a, c) && |a| == c && m !in a
    ensures exists b :: AgreeOn(Raise(t, m, s), Raise(u, m, s), b, c)
  {
    var low := LowestOf(t, a);
    var t', u' := Raise(t, m, s), Raise(u, m, s);
    if m in u && u[m] >= s {
      forall x | x in a ensures Lower(u', m, x) && Lower(t', m, x) { assert Lower(u, m, x); }
      RaiseStaysBelow(t, u, a, m, s, c);
    } else if Lower(t', m, low) {
      forall x | x in a ensures Lower(u', m, x) && Lower(t', m, x) {
        if x != low { assert Lower(t, low, x); }
      }
      RaiseStaysBelow(t, u, a, m, s, c);
    } else {
      RaiseReplacesLowest(t, u, a, m, s, c, low);
    }
  }

  lemma RaiseKeepsAgreement(t: Scores, u: Scores, m: Member, s: int, c: nat)
    requires c > 0 && Agree(t, u, c)
    ensures Agree(Raise(t, m, s), Raise(u, m, s), c)
  {
    var a :| AgreeOn(t, u, a, c);
    if m in a {
      RaiseInsideTop(t, a, c, m, s);
      RaiseInsideTop(u, a, c, m, s);
      assert AgreeOn(Raise(t, m, s), Raise(u, m, s), a, c);
    } else if |a| < c {
      RaisePartialTop(t, a, c, m, s);
      RaisePartialTop(u, a, c, m, s);
      assert AgreeOn(Raise(t, m, s), Raise(u, m, s), a + {m}, c);
    } else {
      RaiseKeepsFullAgreement(t, u, a, m, s, c);
    }
  }

  ghost function AtLeast(z: Scores, a: set<Member>, cutoff: int): set<Member> {
    set x | x in a && x in z && z[x] >= cutoff
  }

  lemma EvictTop(z: Scores, a: set<Member>, c: nat, cutoff: int)
    requires IsTop(z, a, c)
    ensures IsTop(Evict(z, cutoff), AtLeast(z, a, cutoff), c)
  {
    var e := Evict(z, cutoff);
    var b := AtLeast(z, a, cutoff);
    SubsetSize(b, e.Keys);
    SubsetSize(e.Keys, z.Keys);
    SubsetSize(a, z.Keys);
    forall x, y | x in b && y in e && y !in b ensures Lower(e, y, x) { assert Lower(z, y, x); }
    if b == a {
      if |a| < c { assert e.Keys == z.Keys; }
    } else {
      var gone :| gone in a && gone !in b;
      assert forall y :: y in z && y !in a ==> Lower(z, y, gone);
      assert e.Keys == b;
      SubsetSize(b, a);
    }
  }

  lemma EvictKeepsAgreement(t: Scores, u: Scores, cutoff: int, c: nat)
    requires Agree(t, u, c)
    ensures Agree(Evict(t, cutoff), Evict(u, cutoff), c)
  {
    var a :| AgreeOn(t, u, a, c);
    EvictTop(t, a, c, cutoff);
    EvictTop(u, a, c, cutoff);
    assert AtLeast(t, a, cutoff) == AtLeast(u, a, cutoff);
    assert AgreeOn(Evict(t, cutoff), Evict(u, cutoff), AtLeast(t, a, cutoff), c);
  }

  lemma TrimKeepsAgreement(t: Scores, u: Scores, k: nat, c: nat)
    requires c <= k && Agree(t, u, c)
    ensures Agree(Trim(t, k), u, c)
  {
    var a :| AgreeOn(t, u, a, c);
    TrimKeepsTop(t, k);
    TopOfTop(t, Trim(t, k), a, c, k);
    assert AgreeOn(Trim(t, k), u, a, c);
  }

  lemma EmptyAgrees(c: nat)
    ensures Agree(map[], map[], c)
  {
    assert AgreeOn(map[], map[], {}, c);
  }

  /** Top-k commutes with raise-score inserts and with cutoff eviction, over whole histories. */
  lemma {:induction false} TrimmedAgrees(vs: seq<Visit>, c: nat)
    requires c > 0 && forall i :: 0 <= i < |vs| ==> c <= 2 * vs[i].senders
    ensures Agree(Trimmed(vs), Untrimmed(vs), c)
  {
    hide AgreeOn, Trim, Raise, Evict;
    if vs == [] {
      EmptyAgrees(c);
    } else {
      var before, v := vs[..|vs| - 1], vs[|vs| - 1];
      TrimmedAgrees(before, c);
      var t, u := Trimmed(before), Untrimmed(before);
      RaiseKeepsAgreement(t, u, v.member, v.score, c);
      EvictKeepsAgreement(Raise(t, v.member, v.score), Raise(u, v.member, v.score), v.score - CLUSTER_WINDOW_MS, c);
      TrimKeepsAgreement(AfterUntrimmed(t, v), AfterUntrimmed(u, v), 2 * v.senders, c);
    }
  }

  /** One threshold per key: the stored set is exactly the top 2 x senders of the untrimmed set. */
  lemma StoredSetIsTopOfUntrimmed(vs: seq<Visit>, senders: nat)
    requires senders > 0 && Thresholds(vs, {senders})
    ensures IsTop(Untrimmed(vs), Trimmed(vs).Keys, 2 * senders)
    ensures forall m :: m in Trimmed(vs) ==> Trimmed(vs)[m] == Untrimmed(vs)[m]
    ensures Fires(Trimmed(vs), senders) <==> Fires(Untrimmed(vs), senders)
  {
    TrimmedAgrees(vs, 2 * senders);
    var t, u := Trimmed(vs), Untrimmed(vs);
    var a :| AgreeOn(t, u, a, 2 * senders);
    if vs != [] {
      TrimKeepsTop(AfterUntrimmed(Trimmed(vs[..|vs| - 1]), vs[|vs| - 1]), 2 * senders);
    }
    assert |t| <= 2 * senders;
    SubsetSize(a, t.Keys);
  }

  /** Different thresholds on one key never change a verdict when each is at most twice every other. */
  lemma VerdictsAgree(vs: seq<Visit>)
    requires vs != []
    requires forall i, j :: 0 <= i < |vs| && 0 <= j < |vs| ==> 0 < vs[i].senders <= 2 * vs[j].senders
    ensures Fires(Trimmed(vs), vs[|vs| - 1].senders) <==> Fires(Untrimmed(vs), vs[|vs| - 1].senders)
  {
    var s := vs[|vs| - 1].senders;
    TrimmedAgrees(vs, s);
    var t, u := Trimmed(vs), Untrimmed(vs);
    var a :| AgreeOn(t, u, a, s);
    SubsetSize(a, t.Keys);
    SubsetSize(a, u.Keys);
    SubsetSize(t.Keys, u.Keys);
  }

  // ---- The condition on mixed thresholds is exact ----

  /** `n` distinct senders at one instant, each checked against threshold `t`. */
  function Burst(n: nat, t: nat): seq<Visit> { seq(n, i requires 0 <= i => Visit(i, 0, t)) }

  ghost function Range(lo: nat, hi: nat): (r: set<Member>)
    ensures forall m :: m in r <==> lo <= m < hi
    ensures lo <= hi ==> |r| == hi - lo
    decreases hi - lo
  {
    if lo >= hi then {} else {lo} + Range(lo + 1, hi)
  }

  ghost predicate AllZero(z: Scores) { forall m :: m in z ==> z[m] == 0 }

  lemma VisitAtZero(z: Scores, v: Visit)
    requires AllZero(z) && v.score == 0
    ensures AllZero(AfterUntrimmed(z, v)) && AfterUntrimmed(z, v).Keys == z.Keys + {v.member}
  {
  }

  lemma TrimRange(z: Scores, lo: nat, hi: nat, cap: nat)
    requires AllZero(z) && lo <= hi && z.Keys == Range(lo, hi)
    ensures AllZero(Trim(z, cap)) && Trim(z, cap).Keys == Range(Max(lo, hi - cap), hi)
  {
    TrimKeepsTop(z, cap);
    var b := Range(Max(lo, hi - cap), hi);
    assert |z| == |z.Keys|;
    assert IsTop(z, b, cap);
    TopSetsNest(z, b, cap, Trim(z, cap).Keys, cap);
    TopSetsNest(z, Trim(z, cap).Keys, cap, b, cap);
  }

  lemma HistoriesExtend(vs: seq<Visit>, v: Visit)
    ensures Untrimmed(vs + [v]) == AfterUntrimmed(Untrimmed(vs), v)
    ensures Trimmed(vs + [v]) == AfterTrimmed(Trimmed(vs), v)
  {
    assert (vs + [v])[..|vs|] == vs;
  }

  lemma {:induction false} BurstSets(n: nat, t: nat)
    ensures AllZero(Untrimmed(Burst(n, t))) && Untrimmed(Burst(n, t)).Keys == Range(0, n)
    ensures AllZero(Trimmed(Burst(n, t))) && Trimmed(Burst(n, t)).Keys == Range(Max(0, n - 2 * t), n)
  {
    if n == 0 {
      assert Burst(0, t) == [];
    } else {
      var before, v := Burst(n - 1, t), Visit(n - 1, 0, t);
      assert Burst(n, t) == before + [v];
      HistoriesExtend(before, v);
      BurstSets(n - 1, t);
      BurstStep(Untrimmed(before), Trimmed(before), n, t);
    }
  }

  lemma BurstStep(u: Scores, z: Scores, n: nat, t: nat)
    requires n > 0 && AllZero(u) && u.Keys == Range(0, n - 1)
    requires AllZero(z) && z.Keys == Range(Max(0, n - 1 - 2 * t), n - 1)
    ensures var v := Visit(n - 1, 0, t);
            && AllZero(AfterUntrimmed(u, v)) && AfterUntrimmed(u, v).Keys == Range(0, n)
            && AllZero(AfterTrimmed(z, v)) && AfterTrimmed(z, v).Keys == Range(Max(0, n - 2 * t), n)
  {
    hide AllZero, AfterUntrimmed, Trim, Range;
    RangeAfterVisit(u, 0, n, t);
    RangeAfterVisit(z, Max(0, n - 1 - 2 * t), n, t);
    TrimRange(AfterUntrimmed(z, Visit(n - 1, 0, t)), Max(0, n - 1 - 2 * t), n, 2 * t);
  }

  lemma RangeAfterVisit(z: Scores, lo: nat, n: nat, t: nat)
    requires lo < n && AllZero(z) && z.Keys == Range(lo, n - 1)
    ensures AllZero(AfterUntrimmed(z, Visit(n - 1, 0, t))) && AfterUntrimmed(z, Visit(n - 1, 0, t)).Keys == Range(lo, n)
  {
    hide AllZero, AfterUntrimmed, Range;
    VisitAtZero(z, Visit(n - 1, 0, t));
    RangeExtends(lo, n - 1);
  }

  lemma RangeExtends(lo: nat, hi: nat)
    requires lo <= hi
    ensures Range(lo, hi) + {hi} == Range(lo, hi + 1)
  {
    hide Range;
    assert forall m :: m in Range(lo, hi) + {hi} <==> lo <= m < hi + 1;
  }

  /** A threshold above twice another one on the same key misses a true cluster. */
  lemma MixedThresholdsMissACluster(s: nat, t: nat) returns (vs: seq<Visit>)
    requires 0 < t && 2 * t < s
    ensures vs != [] && Thresholds(vs, {s, t}) && vs[|vs| - 1].senders == s
    ensures Fires(Untrimmed(vs), s) && !Fires(Trimmed(vs), s)
  {
    hide Trimmed, Untrimmed, AfterTrimmed, AfterUntrimmed, Fires, Range, AllZero;
    var burst := Burst(s, t);
    var last := Visit(s - 1, 0, s);
    vs := burst + [last];
    BurstSets(s, t);
    HistoriesExtend(burst, last);
    LateCheck(Untrimmed(burst), Trimmed(burst), s, t);
  }

  lemma LateCheck(u: Scores, z: Scores, s: nat, t: nat)
    requires 0 < t && 2 * t < s
    requires AllZero(u) && u.Keys == Range(0, s) && AllZero(z) && z.Keys == Range(s - 2 * t, s)
    ensures var last := Visit(s - 1, 0, s);
            Fires(AfterUntrimmed(u, last), s) && !Fires(AfterTrimmed(z, last), s)
  {
    hide AllZero, Trim, AfterUntrimmed, Range;
    var last := Visit(s - 1, 0, s);
    var un, tr := AfterUntrimmed(u, last), AfterUntrimmed(z, last);
    VisitAtZero(u, last);
    VisitAtZero(z, last);
    assert un.Keys == Range(0, s);
    TrimRange(tr, s - 2 * t, s, 2 * s);
    assert |un| == |un.Keys|;
    assert |AfterTrimmed(z, last)| == |AfterTrimmed(z, last).Keys|;
  }

  ghost predicate AlwaysSameVerdict(allowed: set<nat>) {
    forall vs: seq<Visit> :: vs != [] && Thresholds(vs, allowed) ==>
      (Fires(Trimmed(vs), vs[|vs| - 1].senders) <==> Fires(Untrimmed(vs), vs[|vs| - 1].senders))
  }

  /** The trim is invisible on a key exactly when no threshold used on it exceeds twice another. */
  lemma TrimInvisibleExactly(allowed: set<nat>)
    requires forall s :: s in allowed ==> s > 0
    ensures AlwaysSameVerdict(allowed) <==> forall s, t :: s in allowed && t in allowed ==> s <= 2 * t
  {
    if forall s, t :: s in allowed && t in allowed ==> s <= 2 * t {
      forall vs: seq<Visit> | vs != [] && Thresholds(vs, allowed)
        ensures Fires(Trimmed(vs), vs[|vs| - 1].senders) <==> Fires(Untrimmed(vs), vs[|vs| - 1].senders)
      {
        VerdictsAgree(vs);
      }
    } else {
      var s, t :| s in allowed && t in allowed && s > 2 * t;
      var vs := MixedThresholdsMissACluster(s, t);
      assert Thresholds(vs, allowed);
    }
  }

  // ---- The untrimmed set counts the senders of the last 30 days ----

  ghost predicate InOrder(vs: seq<Visit>) {
    forall i, j :: 0 <= i <= j < |vs| ==> vs[i].score <= vs[j].score
  }

  /** The distinct senders of the visits inside the window that ends at the last visit. */
  function RecentSenders(vs: seq<Visit>): set<Member>
    requires vs != []
  {
    set i | 0 <= i < |vs| && vs[i].score >= vs[|vs| - 1].score - CLUSTER_WINDOW_MS :: vs[i].member
  }

  /** The stored score of a member is the score of its latest visit. */
  ghost predicate LatestAt(vs: seq<Visit>, m: Member, i: int) {
    0 <= i < |vs| && vs[i].member == m && forall j :: i < j < |vs| ==> vs[j].member != m
  }

  ghost predicate ScoresAreLatest(vs: seq<Visit>, u: Scores) {
    forall m :: m in u ==> exists i :: LatestAt(vs, m, i) && vs[i].score == u[m]
  }

  lemma LatestAfterVisit(before: seq<Visit>, u: Scores, v: Visit)
    requires InOrder(before + [v]) && ScoresAreLatest(before, u)
    ensures ScoresAreLatest(before + [v], AfterUntrimmed(u, v))
  {
    var vs, u' := before + [v], AfterUntrimmed(u, v);
    forall m | m in u' ensures exists i :: LatestAt(vs, m, i) && vs[i].score == u'[m] {
      if m in u { var i :| LatestAt(before, m, i) && before[i].score == u[m]; assert vs[i].score <= vs[|before|].score; }
      if m == v.member {
        assert LatestAt(vs, m, |before|) && vs[|before|].score == u'[m];
      } else {
        var i :| LatestAt(before, m, i) && before[i].score == u[m];
        assert LatestAt(vs, m, i) && vs[i].score == u'[m];
      }
    }
  }

  lemma {:induction false} UntrimmedIsRecent(vs: seq<Visit>)
    requires InOrder(vs)
    ensures ScoresAreLatest(vs, Untrimmed(vs))
    ensures vs != [] ==> Untrimmed(vs).Keys == RecentSenders(vs)
  {
    if vs != [] {
      var n := |vs| - 1;
      var before, v := vs[..n], vs[n];
      UntrimmedIsRecent(before);
      assert vs == before + [v];
      LatestAfterVisit(before, Untrimmed(before), v);
      var u, u' := Untrimmed(before), Untrimmed(vs);
      forall m | m in u' ensures m in RecentSenders(vs) {
        var i :| LatestAt(vs, m, i) && vs[i].score == u'[m];
      }
      forall m | m in RecentSenders(vs) ensures m in u' { RecentStays(vs, m); }
    }
  }

  lemma RecentStays(vs: seq<Visit>, m: Member)
    requires vs != [] && InOrder(vs) && m in RecentSenders(vs)
    requires var before := vs[..|vs| - 1];
             ScoresAreLatest(before, Untrimmed(before)) && (before != [] ==> Untrimmed(before).Keys == RecentSenders(before))
    ensures m in Untrimmed(vs)
  {
    var n := |vs| - 1;
    var before := vs[..n];
    if m != vs[n].member {
      var i :| 0 <= i < n && vs[i].member == m && vs[i].score >= vs[n].score - CLUSTER_WINDOW_MS;
      assert vs[n - 1].score <= vs[n].score;
      assert before[i].score >= before[n - 1].score - CLUSTER_WINDOW_MS && before[i].member == m;
      assert m in RecentSenders(before);
      var j :| LatestAt(before, m, j) && before[j].score == Untrimmed(before)[m];
      assert vs[i].score <= vs[j].score;
    }
  }

  /** With creation times in order, the alert means: `senders` distinct senders within 30 days. */
  lemma AlertCountsDistinctSenders(vs: seq<Visit>, senders: nat)
    requires vs != [] && senders > 0 && Thresholds(vs, {senders}) && InOrder(vs)
    ensures Fires(Trimmed(vs), senders) <==> |RecentSenders(vs)| >= senders
  {
    StoredSetIsTopOfUntrimmed(vs, senders);
    UntrimmedIsRecent(vs);
    assert |Untrimmed(vs)| == |Untrimmed(vs).Keys|;
  }

  // ---- Key expiry ----

  /** A stored key: its entries and the wall-clock instant at which Redis drops it. */
  datatype Key = Key(scores: Scores, expiresAt: int)

  function LiveScores(k: Key, wall: int): Scores {
    if wall < k.expiresAt then k.scores else map[]
  }

  ghost function AfterVisitAt(k: Key, v: Visit, wall: int): Key {
    Key(AfterTrimmed(LiveScores(k, wall), v), wall + DEST_ZSET_TTL_MS)
  }

  ghost function Stored(vs: seq<Visit>, walls: seq<int>): Key
    requires |vs| == |walls|
  {
    if vs == [] then Key(map[], 0)
    else
      var n := |vs| - 1;
      AfterVisitAt(Stored(vs[..n], walls[..n]), vs[n], walls[n])
  }

  /** Rows are visited after they are created, at most `lag` ms later, on a forward clock. */
  ghost predicate LagWithin(vs: seq<Visit>, walls: seq<int>, lag: int)
    requires |vs| == |walls|
  {
    && (forall i :: 0 <= i < |vs| ==> vs[i].score <= walls[i] <= vs[i].score + lag)
    && (forall i, j :: 0 <= i <= j < |walls| ==> walls[i] <= walls[j])
  }

  lemma VisitKeepsBound(t: Scores, v: Visit, bound: int)
    requires v.score <= bound && forall m :: m in t ==> t[m] <= bound
    ensures forall m :: m in AfterTrimmed(t, v) ==> AfterTrimmed(t, v)[m] <= bound
  {
    TrimKeepsTop(AfterUntrimmed(t, v), 2 * v.senders);
  }

  /** What expired with the key would have been evicted by this visit anyway. */
  lemma ExpiredIsEvicted(t: Scores, v: Visit, bound: int)
    requires bound < v.score - CLUSTER_WINDOW_MS && forall m :: m in t ==> t[m] <= bound
    ensures AfterUntrimmed(t, v) == AfterUntrimmed(map[], v)
  {
  }

  /** The 31-day expiry never changes the stored set, whatever the order of the scores. */
  lemma {:induction false} ExpiryInvisible(vs: seq<Visit>, walls: seq<int>, lag: int)
    requires |vs| == |walls| && lag < DAY_MS && LagWithin(vs, walls, lag)
    ensures Stored(vs, walls).scores == Trimmed(vs)
    ensures vs != [] ==> Stored(vs, walls).expiresAt == walls[|walls| - 1] + DEST_ZSET_TTL_MS
    ensures vs != [] ==> forall m :: m in Trimmed(vs) ==> Trimmed(vs)[m] <= walls[|walls| - 1]
  {
    hide Trim, AfterUntrimmed;
    if vs != [] {
      var n := |vs| - 1;
      var v, wall := vs[n], walls[n];
      ExpiryInvisible(vs[..n], walls[..n], lag);
      var k := Stored(vs[..n], walls[..n]);
      if n > 0 {
        assert walls[n - 1] <= wall;
        if wall >= k.expiresAt { ExpiredIsEvicted(k.scores, v, walls[n - 1]); }
      }
      VisitKeepsBound(Trimmed(vs[..n]), v, wall);
    }
  }

  ghost predicate NeverExpiresEarly(lag: int) {
    forall vs: seq<Visit>, walls: seq<int> {:trigger Stored(vs, walls)} ::
      |vs| == |walls| && LagWithin(vs, walls, lag) ==> Stored(vs, walls).scores == Trimmed(vs)
  }

  /** A sender at time 0, and another one visited 31 days later although created a day before that. */
  lemma LateVisitFindsNoKey(senders: nat) returns (vs: seq<Visit>, walls: seq<int>)
    requires senders > 0
    ensures |vs| == |walls| && LagWithin(vs, walls, DAY_MS)
    ensures 0 in Trimmed(vs) && 0 !in Stored(vs, walls).scores
  {
    var first, second := Visit(0, 0, senders), Visit(1, CLUSTER_WINDOW_MS, senders);
    vs, walls := [first, second], [0, DEST_ZSET_TTL_MS];
    assert vs[..1] == [first] && walls[..1] == [0] && vs[..1][..0] == [] && walls[..1][..0] == [];
    var one: Scores := map[0 := 0];
    var two: Scores := map[0 := 0, 1 := CLUSTER_WINDOW_MS];
    assert AfterUntrimmed(map[], first) == one;
    assert |one| == 1 && |two| == 2 by { assert two.Keys == {0, 1}; assert one.Keys == {0}; }
    assert Trimmed(vs[..1]) == AfterTrimmed(map[], first) == one;
    assert AfterUntrimmed(one, second) == two;
    assert Trimmed(vs) == AfterTrimmed(one, second) == two;
    var k := Stored(vs[..1], walls[..1]);
    assert k.expiresAt == DEST_ZSET_TTL_MS;
    assert AfterUntrimmed(map[], second) == map[1 := CLUSTER_WINDOW_MS];
    TrimKeepsTop(AfterUntrimmed(map[], second), 2 * senders);
    assert Stored(vs, walls).scores == AfterTrimmed(map[], second);
  }

  /** The key's expiry never changes the stored set exactly when every row is visited within a day of its creation. */
  lemma ExpiryInvisibleExactly(lag: int)
    ensures NeverExpiresEarly(lag) <==> lag < DAY_MS
  {
    if lag < DAY_MS {
      forall vs: seq<Visit>, walls: seq<int> | |vs| == |walls| && LagWithin(vs, walls, lag)
        ensures Stored(vs, walls).scores == Trimmed(vs)
      {
        ExpiryInvisible(vs, walls, lag);
      }
    } else {
      var vs, walls := LateVisitFindsNoKey(1);
      assert LagWithin(vs, walls, lag);
    }
  }

  // ---- The visit, as the sweep runs it against Redis ----

  /** The sorted-set commands on one key. */
  class SortedSet {
    var scores: Scores
    var expiresAt: int
    var now: int

    ghost function Stored(): Key reads this { Key(scores, expiresAt) }

    constructor ()
      ensures Stored() == Key(map[], 0)
    {
      scores, expiresAt, now := map[], 0, 0;
    }

    /** Expired keys read as missing; a write then starts an empty key. */
    method Touch()
      modifies this`scores
      ensures scores == LiveScores(old(Stored()), now)
    {
      if now >= expiresAt { scores := map[]; }
    }

    method ZAddGt(m: Member, s: int)
      modifies this`scores
      ensures scores == Raise(old(scores), m, s)
    {
      if m !in scores || s > scores[m] { scores := scores[m := s]; }
    }

    method ZRemRangeByScoreBelow(cutoff: int)
      modifies this`scores
      ensures scores == Evict(old(scores), cutoff)
    {
      scores := map m | m in scores && scores[m] >= cutoff :: scores[m];
    }

    method ZRemRangeByRankKeeping(cap: nat)
      modifies this`scores
      ensures scores == Trim(old(scores), cap)
    {
      while |scores| > cap
        invariant Trim(scores, cap) == Trim(old(scores), cap)
        decreases |scores|
      {
        LowestExists(scores);
        var low :| low in scores && forall y :: y in scores && y != low ==> Lower(scores, low, y);
        LowestUnique(scores, low, cap);
        scores := scores - {low};
      }
    }

    /** R3 of evaluateRow: the count the cluster rule is given, and the key it leaves behind. */
    method VisitDestination(v: Visit, wall: int) returns (card: nat)
      modifies this
      ensures Stored() == AfterVisitAt(old(Stored()), v, wall) && now == wall
      ensures card == |scores|
    {
      now := wall;
      Touch();
      ZAddGt(v.member, v.score);
      ZRemRangeByScoreBelow(v.score - CLUSTER_WINDOW_MS);
      card := |scores|;
      var cap := v.senders * 2;
      TrimKeepsTop(scores, cap);
      if card > cap {
        ZRemRangeByRankKeeping(cap);
        card := cap;
      }
      expiresAt := now + DEST_ZSET_TTL_MS;
    }
  }

  lemma LowestUnique(z: Scores, low: Member, cap: nat)
    requires |z| > cap && IsLowest(z, low)
    ensures Trim(z, cap) == Trim(z - {low}, cap)
  {
    LowestExists(z);
    var l :| IsLowest(z, l) && Trim(z, cap) == Trim(z - {l}, cap);
    if l != low { assert Lower(z, l, low); assert Lower(z, low, l); }
  }
}
