/**
 Customer sessions: records by token hash, a revoke index of hashes per phone that expires, and the
 older index of raw tokens. The purge carries the raw tokens into the hashed index and then deletes
 the older one; time passes between any two Redis calls and any operation may stop after any of them.
 */
module CustomerSessions {

  import opened Wrappers

  const ABSOLUTE_MS: int := 12 * 60 * 60 * 1000
  const INDEX_TTL: int := ABSOLUTE_MS

  type Phone = nat
  type Token = nat
  type Hash = nat

  datatype Record = Record(phone: Phone, created: int)
  datatype Index = Index(members: set<Hash>, expiresAt: Option<int>)

  datatype Keys = Keys(now: int, records: map<Hash, Record>, hashed: map<Phone, Index>, legacy: map<Phone, set<Token>>)

  /** The session is still inside its twelve hours. */
  predicate Inside(s: Keys, h: Hash) { h in s.records && s.now < s.records[h].created + ABSOLUTE_MS }

  predicate LiveIndex(s: Keys, p: Phone) {
    p in s.hashed && (s.hashed[p].expiresAt.Some? ==> s.now < s.hashed[p].expiresAt.value)
  }

  // ---- The Redis commands ----

  function Wait(s: Keys, ms: nat): Keys { s.(now := s.now + ms) }

  function MembersOf(s: Keys, p: Phone): set<Hash> { if LiveIndex(s, p) then s.hashed[p].members else {} }

  function SAdd(s: Keys, p: Phone, h: Hash): Keys {
    if LiveIndex(s, p)
    then s.(hashed := s.hashed[p := s.hashed[p].(members := s.hashed[p].members + {h})])
    else s.(hashed := s.hashed[p := Index({h}, None)])
  }

  function Expire(s: Keys, p: Phone): Keys {
    if LiveIndex(s, p) then s.(hashed := s.hashed[p := s.hashed[p].(expiresAt := Some(s.now + INDEX_TTL))]) else s
  }

  function DelRecord(s: Keys, h: Hash): Keys { s.(records := s.records - {h}) }

  function DelHashed(s: Keys, p: Phone): Keys { s.(hashed := s.hashed - {p}) }

  function DelLegacy(s: Keys, p: Phone): Keys { s.(legacy := s.legacy - {p}) }

  function LegacyOf(s: Keys, p: Phone): set<Token> { if p in s.legacy then s.legacy[p] else {} }

  /** A session is inside its life for 12 h from its creation, and an index lives as long from its EXPIRE, and no longer. */
  lemma KeysLiveTheirTtl(s: Keys, p: Phone, h: Hash, ms: nat)
    ensures h in s.records && s.records[h].created == s.now ==> (Inside(Wait(s, ms), h) <==> ms < 12 * 3_600_000)
    ensures LiveIndex(s, p) ==> (LiveIndex(Wait(Expire(s, p), ms), p) <==> ms < 12 * 3_600_000)
  {
  }

  // ---- Reachability from the revoke indexes ----

  /** In the hashed index, which lasts at least as long as the session may. */
  ghost predicate HashIndexed(s: Keys, h: Hash)
    requires h in s.records
  {
    var p := s.records[h].phone;
    && p in s.hashed && h in s.hashed[p].members
    && (s.hashed[p].expiresAt.Some? ==> s.records[h].created + ABSOLUTE_MS <= s.hashed[p].expiresAt.value)
  }

  ghost predicate LegacyIndexed(s: Keys, hash: Token -> Hash, h: Hash)
    requires h in s.records
  {
    exists t :: t in LegacyOf(s, s.records[h].phone) && hash(t) == h
  }

  /** revokeAll would find every session inside its life; none is minted in the future. */
  ghost predicate AllReachable(s: Keys, hash: Token -> Hash) {
    forall h :: Inside(s, h) ==>
      s.records[h].created <= s.now && (HashIndexed(s, h) || LegacyIndexed(s, hash, h))
  }

  /** Every session of p inside its life is in the hashed index. */
  ghost predicate Migrated(s: Keys, p: Phone) {
    forall h :: Inside(s, h) && s.records[h].phone == p ==> HashIndexed(s, h)
  }

  /** No record appears or changes, and none still inside its life loses an index. */
  ghost predicate Keeps(s: Keys, t: Keys, hash: Token -> Hash) {
    && s.now <= t.now
    && forall h :: Inside(t, h) ==>
         && Inside(s, h) && t.records[h] == s.records[h]
         && (HashIndexed(s, h) ==> HashIndexed(t, h))
         && (LegacyIndexed(s, hash, h) && !HashIndexed(t, h) ==> LegacyIndexed(t, hash, h))
  }

  lemma KeepsReachable(s: Keys, t: Keys, hash: Token -> Hash)
    requires AllReachable(s, hash) && Keeps(s, t, hash)
    ensures AllReachable(t, hash)
    ensures forall p :: Migrated(s, p) ==> Migrated(t, p)
  {
    forall h | Inside(t, h)
      ensures t.records[h].created <= t.now && (HashIndexed(t, h) || LegacyIndexed(t, hash, h))
    {
      assert Inside(s, h);
    }
    forall p, h | Migrated(s, p) && Inside(t, h) && t.records[h].phone == p
      ensures HashIndexed(t, h)
    {
      assert Inside(s, h);
    }
  }

  lemma KeepsJoin(s: Keys, t: Keys, u: Keys, hash: Token -> Hash)
    requires Keeps(s, t, hash) && Keeps(t, u, hash)
    ensures Keeps(s, u, hash)
  {
    forall h | Inside(u, h)
      ensures Inside(s, h) && Inside(t, h)
    {
    }
  }

  lemma SAddKeeps(s: Keys, p: Phone, g: Hash, hash: Token -> Hash)
    ensures Keeps(s, SAdd(s, p, g), hash)
  {
    var t := SAdd(s, p, g);
    forall h | Inside(t, h)
      ensures Inside(s, h) && (HashIndexed(s, h) ==> HashIndexed(t, h))
      ensures LegacyIndexed(s, hash, h) ==> LegacyIndexed(t, hash, h)
    {
    }
  }

  lemma ExpireKeeps(s: Keys, p: Phone, hash: Token -> Hash)
    requires AllReachable(s, hash)
    ensures Keeps(s, Expire(s, p), hash)
  {
    var t := Expire(s, p);
    forall h | Inside(t, h)
      ensures Inside(s, h) && (HashIndexed(s, h) ==> HashIndexed(t, h))
      ensures LegacyIndexed(s, hash, h) ==> LegacyIndexed(t, hash, h)
    {
      assert Inside(s, h);
    }
  }

  lemma WaitKeeps(s: Keys, ms: nat, hash: Token -> Hash)
    ensures Keeps(s, s.(now := s.now + ms), hash)
  {
  }

  lemma DelRecordKeeps(s: Keys, g: Hash, hash: Token -> Hash)
    ensures Keeps(s, DelRecord(s, g), hash)
  {
  }

  /** Deleting the raw index is safe exactly when what it reached is in the hashed one. */
  lemma DelLegacyExactly(s: Keys, p: Phone, hash: Token -> Hash)
    requires AllReachable(s, hash)
    ensures AllReachable(DelLegacy(s, p), hash) <==> Migrated(s, p)
    ensures Migrated(s, p) ==> Keeps(s, DelLegacy(s, p), hash)
  {
    var t := DelLegacy(s, p);
    forall h | Inside(s, h)
      ensures Inside(t, h) && (HashIndexed(t, h) <==> HashIndexed(s, h))
      ensures LegacyIndexed(t, hash, h) <==> (LegacyIndexed(s, hash, h) && s.records[h].phone != p)
    {
    }
    forall h | Inside(t, h)
      ensures Inside(s, h)
    {
    }
  }

  lemma DelHashedKeeps(s: Keys, p: Phone, hash: Token -> Hash)
    requires forall h :: Inside(s, h) ==> s.records[h].phone != p
    ensures Keeps(s, DelHashed(s, p), hash)
  {
  }

  // ---- Filling a hashed index from the raw one ----

  /** Every raw token of a session of p inside its life is listed for p. */
  ghost predicate Carried(s: Keys, p: Phone, raw: set<Token>, hash: Token -> Hash) {
    forall t :: t in raw && Inside(s, hash(t)) && s.records[hash(t)].phone == p ==> hash(t) in MembersOf(s, p)
  }

  /** For sessions of p inside their life, listed means indexed for long enough, and each one not listed has a raw token. */
  ghost predicate Settled(s: Keys, p: Phone, raw: set<Token>, hash: Token -> Hash) {
    forall h :: Inside(s, h) && s.records[h].phone == p ==>
      (HashIndexed(s, h) <==> h in MembersOf(s, p)) && (HashIndexed(s, h) || exists t :: t in raw && hash(t) == h)
  }

  lemma SettledExactly(s: Keys, p: Phone, raw: set<Token>, hash: Token -> Hash)
    requires Settled(s, p, raw, hash)
    ensures Migrated(s, p) <==> Carried(s, p, raw, hash)
  {
  }

  lemma ExpireSettles(s: Keys, p: Phone, hash: Token -> Hash)
    requires AllReachable(s, hash)
    ensures Settled(Expire(s, p), p, LegacyOf(s, p), hash)
  {
    var e := Expire(s, p);
    forall h | Inside(e, h) && e.records[h].phone == p
      ensures HashIndexed(e, h) <==> h in MembersOf(e, p)
      ensures HashIndexed(e, h) || exists t :: t in LegacyOf(s, p) && hash(t) == h
    {
      assert Inside(s, h);
    }
  }

  /** The EXPIRE covers the phone exactly when every raw token of a session inside its life is a member by then. */
  lemma ExpireMigrates(s: Keys, p: Phone, hash: Token -> Hash)
    requires AllReachable(s, hash)
    ensures Migrated(Expire(s, p), p) <==> Carried(s, p, LegacyOf(s, p), hash)
  {
    ExpireSettles(s, p, hash);
    SettledExactly(Expire(s, p), p, LegacyOf(s, p), hash);
    assert MembersOf(Expire(s, p), p) == MembersOf(s, p);
    assert forall h :: Inside(Expire(s, p), h) <==> Inside(s, h);
  }

  lemma SettledStays(s: Keys, t: Keys, p: Phone, raw: set<Token>, hash: Token -> Hash)
    requires Settled(s, p, raw, hash) && s.now <= t.now && t.records == s.records
    requires (p in t.hashed <==> p in s.hashed) && (p in s.hashed ==> t.hashed[p] == s.hashed[p])
    ensures Settled(t, p, raw, hash)
  {
    forall h | Inside(t, h) && t.records[h].phone == p
      ensures HashIndexed(t, h) <==> h in MembersOf(t, p)
      ensures HashIndexed(t, h) || exists r :: r in raw && hash(r) == h
    {
      assert Inside(s, h);
    }
  }

  /** The SADDs so far, each after a wait. */
  ghost function Added(s: Keys, p: Phone, hashes: seq<Hash>, waits: seq<nat>): Keys
    requires |hashes| == |waits|
  {
    if hashes == [] then s
    else
      var n := |hashes| - 1;
      SAdd(Wait(Added(s, p, hashes[..n], waits[..n]), waits[n]), p, hashes[n])
  }

  /** The SADDs and then the EXPIRE. */
  ghost function Fill(s: Keys, p: Phone, hashes: seq<Hash>, waits: seq<nat>, last: nat): Keys
    requires |hashes| == |waits|
  {
    Expire(Wait(Added(s, p, hashes, waits), last), p)
  }

  ghost predicate Lists(hashes: seq<Hash>, raw: set<Token>, hash: Token -> Hash) {
    forall h :: h in hashes <==> exists t :: t in raw && hash(t) == h
  }

  ghost predicate IsFill(s: Keys, e: Keys, p: Phone, hash: Token -> Hash) {
    exists hashes: seq<Hash>, waits: seq<nat>, last: nat ::
      |hashes| == |waits| && Lists(hashes, LegacyOf(s, p), hash) && e == Fill(s, p, hashes, waits, last)
  }

  /** Within d ms the live index of p runs out, and a session with a raw token lives longer. */
  ghost predicate AtRisk(s: Keys, p: Phone, d: int, hash: Token -> Hash) {
    && LiveIndex(s, p) && s.hashed[p].expiresAt.Some? && s.hashed[p].expiresAt.value <= s.now + d
    && exists t :: t in LegacyOf(s, p) && hash(t) in s.records && s.records[hash(t)].phone == p
                   && s.hashed[p].expiresAt.value < s.records[hash(t)].created + ABSOLUTE_MS
  }

  ghost predicate NoneAtRisk(s: Keys, d: int, hash: Token -> Hash) {
    forall p :: p in s.legacy ==> !AtRisk(s, p, d, hash)
  }

  /** The index of p that is live, if any, is live at `then` too. */
  predicate OutlastsFill(s: Keys, p: Phone, till: int) {
    LiveIndex(s, p) && s.hashed[p].expiresAt.Some? ==> till < s.hashed[p].expiresAt.value
  }

  lemma {:induction false} AddedLists(s: Keys, p: Phone, hashes: seq<Hash>, waits: seq<nat>)
    requires |hashes| == |waits|
    ensures var a := Added(s, p, hashes, waits);
            && s.now <= a.now && a.records == s.records && a.legacy == s.legacy
            && (OutlastsFill(s, p, a.now) ==>
                  && (LiveIndex(s, p) || hashes != [] ==> LiveIndex(a, p))
                  && (LiveIndex(a, p) && a.hashed[p].expiresAt.Some? ==>
                        LiveIndex(s, p) && a.hashed[p].expiresAt == s.hashed[p].expiresAt)
                  && forall h :: h in hashes ==> h in MembersOf(a, p))
  {
    if hashes != [] {
      var n := |hashes| - 1;
      AddedLists(s, p, hashes[..n], waits[..n]);
      assert hashes == hashes[..n] + [hashes[n]];
    }
  }

  /** Only the hashed index of p differs, and the clock. */
  ghost predicate OnlyIndexOf(s: Keys, t: Keys, p: Phone) {
    && t.records == s.records && t.legacy == s.legacy && s.now <= t.now
    && forall q :: q != p ==> (q in t.hashed <==> q in s.hashed) && (q in t.hashed ==> t.hashed[q] == s.hashed[q])
  }

  lemma {:induction false} AddedKeeps(s: Keys, p: Phone, hashes: seq<Hash>, waits: seq<nat>, hash: Token -> Hash)
    requires |hashes| == |waits| && AllReachable(s, hash)
    ensures var a := Added(s, p, hashes, waits); AllReachable(a, hash) && Keeps(s, a, hash) && OnlyIndexOf(s, a, p)
  {
    if hashes != [] {
      var n := |hashes| - 1;
      AddedKeeps(s, p, hashes[..n], waits[..n], hash);
      var a := Added(s, p, hashes[..n], waits[..n]);
      var b := Wait(a, waits[n]);
      WaitKeeps(a, waits[n], hash);
      SAddKeeps(b, p, hashes[n], hash);
      KeepsJoin(a, b, SAdd(b, p, hashes[n]), hash);
      KeepsJoin(s, a, SAdd(b, p, hashes[n]), hash);
      KeepsReachable(s, SAdd(b, p, hashes[n]), hash);
    }
  }

  lemma AddedNext(s: Keys, p: Phone, hashes: seq<Hash>, waits: seq<nat>, h: Hash, ms: nat)
    requires |hashes| == |waits|
    ensures Added(s, p, hashes + [h], waits + [ms]) == SAdd(Wait(Added(s, p, hashes, waits), ms), p, h)
  {
    assert (hashes + [h])[..|hashes|] == hashes && (waits + [ms])[..|waits|] == waits;
  }

  lemma ListsNext(hashes: seq<Hash>, raw: set<Token>, t: Token, hash: Token -> Hash)
    requires Lists(hashes, raw, hash)
    ensures Lists(hashes + [hash(t)], raw + {t}, hash)
  {
    forall h
      ensures h in hashes + [hash(t)] <==> exists u :: u in raw + {t} && hash(u) == h
    {
      assert (exists u :: u in raw + {t} && hash(u) == h) <==> h == hash(t) || exists u :: u in raw && hash(u) == h;
    }
  }

  lemma NothingToFill(s: Keys, p: Phone, hash: Token -> Hash)
    requires AllReachable(s, hash)
    ensures Keeps(s, s, hash) && OnlyIndexOf(s, s, p) && Added(s, p, [], []) == s && Lists([], {}, hash)
    ensures LegacyOf(s, p) == {} ==> Settled(s, p, {}, hash) && Migrated(s, p)
  {
  }

  lemma FillKeeps(s: Keys, p: Phone, hashes: seq<Hash>, waits: seq<nat>, last: nat, hash: Token -> Hash)
    requires |hashes| == |waits| && AllReachable(s, hash)
    ensures var e := Fill(s, p, hashes, waits, last);
            && AllReachable(e, hash) && Keeps(s, e, hash) && OnlyIndexOf(s, e, p)
            && Settled(e, p, LegacyOf(s, p), hash)
  {
    var a := Added(s, p, hashes, waits);
    var b := Wait(a, last);
    AddedKeeps(s, p, hashes, waits, hash);
    WaitKeeps(a, last, hash);
    KeepsReachable(a, b, hash);
    ExpireKeeps(b, p, hash);
    ExpireSettles(b, p, hash);
    KeepsJoin(a, b, Expire(b, p), hash);
    KeepsJoin(s, a, Expire(b, p), hash);
    KeepsReachable(s, Expire(b, p), hash);
  }

  /** A fill of a key that is not at risk for as long as it takes covers the phone. */
  lemma FillMigrates(s: Keys, p: Phone, hashes: seq<Hash>, waits: seq<nat>, last: nat, hash: Token -> Hash)
    requires |hashes| == |waits| && AllReachable(s, hash) && Lists(hashes, LegacyOf(s, p), hash)
    requires !AtRisk(s, p, Fill(s, p, hashes, waits, last).now - s.now, hash)
    ensures Migrated(Fill(s, p, hashes, waits, last), p)
  {
    var a := Added(s, p, hashes, waits);
    var b := Wait(a, last);
    AddedLists(s, p, hashes, waits);
    AddedKeeps(s, p, hashes, waits, hash);
    WaitKeeps(a, last, hash);
    KeepsReachable(a, b, hash);
    forall t | t in LegacyOf(s, p) && Inside(b, hash(t)) && b.records[hash(t)].phone == p
      ensures hash(t) in MembersOf(b, p)
    {
      assert hash(t) in hashes;
      assert OutlastsFill(s, p, b.now);
    }
    ExpireMigrates(b, p, hash);
  }

  lemma {:induction false} AddedAtOnce(s: Keys, p: Phone, hashes: seq<Hash>)
    requires LiveIndex(s, p)
    ensures var a := Added(s, p, hashes, seq(|hashes|, _ => 0));
            && a.now == s.now && a.records == s.records && a.legacy == s.legacy
            && LiveIndex(a, p) && a.hashed[p].expiresAt == s.hashed[p].expiresAt
  {
    var waits := seq(|hashes|, _ => 0);
    if hashes != [] {
      var n := |hashes| - 1;
      assert waits[..n] == seq(n, _ => 0);
      AddedAtOnce(s, p, hashes[..n]);
    }
  }

  /** A key at risk is lost when the EXPIRE comes just as its target has run out. */
  lemma LateExpireLoses(s: Keys, p: Phone, d: int, hashes: seq<Hash>, hash: Token -> Hash) returns (waits: seq<nat>, last: nat)
    requires AllReachable(s, hash) && AtRisk(s, p, d, hash)
    ensures |waits| == |hashes|
    ensures Fill(s, p, hashes, waits, last).now <= s.now + d && !Migrated(Fill(s, p, hashes, waits, last), p)
  {
    waits := seq(|hashes|, _ => 0);
    last := s.hashed[p].expiresAt.value - s.now;
    AddedAtOnce(s, p, hashes);
    var e := Fill(s, p, hashes, waits, last);
    var t :| t in LegacyOf(s, p) && hash(t) in s.records && s.records[hash(t)].phone == p
             && s.hashed[p].expiresAt.value < s.records[hash(t)].created + ABSOLUTE_MS;
    assert Inside(e, hash(t)) && !HashIndexed(e, hash(t));
  }

  lemma {:induction false} SomeListing(raw: set<Token>, hash: Token -> Hash) returns (hashes: seq<Hash>)
    ensures Lists(hashes, raw, hash)
  {
    hashes := [];
    if raw != {} {
      var t :| t in raw;
      var rest := SomeListing(raw - {t}, hash);
      hashes := [hash(t)] + rest;
      forall h
        ensures h in hashes <==> exists u :: u in raw && hash(u) == h
      {
        assert (exists u :: u in raw && hash(u) == h) <==> h == hash(t) || exists u :: u in raw - {t} && hash(u) == h;
      }
    }
  }

  /** Every fill of p within d ms covers the phone. */
  ghost predicate FillIsSafe(s: Keys, p: Phone, d: int, hash: Token -> Hash) {
    forall hashes: seq<Hash>, waits: seq<nat>, last: nat ::
      |hashes| == |waits| && Lists(hashes, LegacyOf(s, p), hash) && Fill(s, p, hashes, waits, last).now <= s.now + d
      ==> Migrated(Fill(s, p, hashes, waits, last), p)
  }

  /** So a migration is safe exactly when no target runs out during it before a session of one of its raw tokens. */
  lemma FillIsSafeExactly(s: Keys, p: Phone, d: int, hash: Token -> Hash)
    requires AllReachable(s, hash)
    ensures FillIsSafe(s, p, d, hash) <==> !AtRisk(s, p, d, hash)
  {
    if AtRisk(s, p, d, hash) {
      var hashes := SomeListing(LegacyOf(s, p), hash);
      var waits, last := LateExpireLoses(s, p, d, hashes, hash);
    } else {
      forall hashes: seq<Hash>, waits: seq<nat>, last: nat
        | |hashes| == |waits| && Lists(hashes, LegacyOf(s, p), hash) && Fill(s, p, hashes, waits, last).now <= s.now + d
        ensures Migrated(Fill(s, p, hashes, waits, last), p)
      {
        FillMigrates(s, p, hashes, waits, last, hash);
      }
    }
  }

  ghost function OneMsLeft(): Keys {
    Keys(0, map[0 := Record(0, 0), 1 := Record(0, 0)], map[0 := Index({2}, Some(1))], map[0 := {0, 1}])
  }

  function SameNumber(t: Token): Hash { t }

  /** A target with 1 ms left: SADD, the lapse, SADD, EXPIRE and DEL leave a live session in no index. */
  lemma LapseLosesASession()
    ensures AllReachable(OneMsLeft(), SameNumber)
    ensures var filled := Fill(OneMsLeft(), 0, [0, 1], [0, 1], 0);
            LiveIndex(filled, 0) && Inside(filled, 0) && !AllReachable(DelLegacy(filled, 0), SameNumber)
  {
    var s := OneMsLeft();
    assert forall h :: Inside(s, h) ==> h in LegacyOf(s, 0) && SameNumber(h) == h;
    var a := SAdd(s, 0, 0);
    var b := SAdd(Wait(a, 1), 0, 1);
    assert [0, 1][..1] == [0] && Added(s, 0, [0], [0]) == a;
    assert Added(s, 0, [0, 1], [0, 1]) == b;
    var filled := Fill(s, 0, [0, 1], [0, 1], 0);
    assert Inside(DelLegacy(filled, 0), 0) && !HashIndexed(DelLegacy(filled, 0), 0);
  }

  // ---- Deleting the raw indexes ----

  /** Raw indexes of `was` may be deleted by now; each of those keys was settled. */
  ghost predicate Purging(s: Keys, was: map<Phone, set<Token>>, hash: Token -> Hash) {
    && AllReachable(s.(legacy := was), hash)
    && (forall p :: p in s.legacy ==> p in was && s.legacy[p] == was[p])
    && (forall p :: p in was && p !in s.legacy ==> Settled(s, p, was[p], hash))
  }

  /** Since `was`, key p was settled, and covered if it was not at risk for that long. */
  ghost predicate SettledSince(was: Keys, s: Keys, p: Phone, hash: Token -> Hash) {
    && Settled(s, p, LegacyOf(was, p), hash)
    && (!AtRisk(was, p, s.now - was.now, hash) ==> Migrated(s, p))
  }

  ghost predicate SameIndex(s: Keys, t: Keys, p: Phone) {
    (p in t.hashed <==> p in s.hashed) && (p in t.hashed ==> t.hashed[p] == s.hashed[p])
  }

  lemma MigratedStays(s: Keys, t: Keys, p: Phone)
    requires Migrated(s, p) && s.now <= t.now && t.records == s.records && SameIndex(s, t, p)
    ensures Migrated(t, p)
  {
    forall h | Inside(t, h) && t.records[h].phone == p
      ensures HashIndexed(t, h)
    {
      assert Inside(s, h);
    }
  }

  lemma SettledSinceStays(was: Keys, s: Keys, t: Keys, p: Phone, hash: Token -> Hash)
    requires SettledSince(was, s, p, hash) && s.now <= t.now && t.records == s.records && SameIndex(s, t, p)
    ensures SettledSince(was, t, p, hash)
  {
    SettledStays(s, t, p, LegacyOf(was, p), hash);
    if Migrated(s, p) { MigratedStays(s, t, p); }
  }

  /** A key at risk for the rest of the run was at risk for all of it. */
  lemma RiskStays(was: Keys, s: Keys, t: Keys, p: Phone, hash: Token -> Hash)
    requires was.now <= s.now <= t.now && s.records == was.records && s.legacy == was.legacy && SameIndex(was, s, p)
    ensures AtRisk(s, p, t.now - s.now, hash) ==> AtRisk(was, p, t.now - was.now, hash)
  {
  }

  lemma PurgingNext(s: Keys, t: Keys, was: map<Phone, set<Token>>, p: Phone, hash: Token -> Hash)
    requires Purging(s, was, hash) && t == s.(now := t.now) && s.now <= t.now
    requires p in was ==> Settled(s, p, was[p], hash)
    ensures Purging(DelLegacy(t, p), was, hash)
  {
    var e := DelLegacy(t, p);
    WaitKeeps(s.(legacy := was), t.now - s.now, hash);
    KeepsReachable(s.(legacy := was), t.(legacy := was), hash);
    assert e.(legacy := was) == t.(legacy := was);
    forall q | q in was && q !in e.legacy
      ensures Settled(e, q, was[q], hash)
    {
      SettledStays(s, e, q, was[q], hash);
    }
  }

  /** The deletes so far lost no session exactly when every raw token of a live session had been carried over. */
  lemma PurgedExactly(s: Keys, was: map<Phone, set<Token>>, hash: Token -> Hash)
    requires Purging(s, was, hash)
    ensures AllReachable(s, hash) <==> forall p :: p in was && p !in s.legacy ==> Carried(s, p, was[p], hash)
  {
    var full := s.(legacy := was);
    forall p | p in was && p !in s.legacy
      ensures Migrated(s, p) <==> Carried(s, p, was[p], hash)
    {
      SettledExactly(s, p, was[p], hash);
    }
    forall h | Inside(s, h)
      ensures s.records[h].created <= s.now
      ensures HashIndexed(full, h) <==> HashIndexed(s, h)
      ensures HashIndexed(s, h) || LegacyIndexed(full, hash, h)
      ensures LegacyIndexed(s, hash, h) <==> LegacyIndexed(full, hash, h) && s.records[h].phone in s.legacy
    {
      assert Inside(full, h);
    }
  }

  // ---- createSession from its first write to its last ----

  function SetRecord(s: Keys, p: Phone, h: Hash, created: int): Keys { s.(records := s.records[h := Record(p, created)]) }

  /** The write that makes a session live is safe exactly when the session is indexed, or over already. */
  lemma SetRecordExactly(s: Keys, p: Phone, h: Hash, created: int, hash: Token -> Hash)
    requires AllReachable(s, hash) && h !in s.records && created <= s.now
    ensures var t := SetRecord(s, p, h, created);
            AllReachable(t, hash) <==> !Inside(t, h) || HashIndexed(t, h) || LegacyIndexed(t, hash, h)
  {
    var t := SetRecord(s, p, h, created);
    forall g | g != h && Inside(t, g)
      ensures t.records[g].created <= t.now && (HashIndexed(t, g) || LegacyIndexed(t, hash, g))
    {
      assert Inside(s, g);
    }
  }

  /** The time before each of createSession's three writes. */
  datatype Waits = Waits(add: nat, arm: nat, put: nat)

  function Total(w: Waits): nat { w.add + w.arm + w.put }

  /** SADD, then EXPIRE. */
  function Listed(s: Keys, p: Phone, h: Hash, add: nat, arm: nat): Keys {
    Expire(Wait(SAdd(Wait(s, add), p, h), arm), p)
  }

  function Create(s: Keys, p: Phone, h: Hash, w: Waits): Keys {
    SetRecord(Wait(Listed(s, p, h, w.add, w.arm), w.put), p, h, s.now)
  }

  /** The live index of p, if it expires, does so later than `from` and at most `to` ms from now. */
  predicate RunsOutBetween(s: Keys, p: Phone, from: int, to: int) {
    LiveIndex(s, p) && s.hashed[p].expiresAt.Some? && s.now + from < s.hashed[p].expiresAt.value <= s.now + to
  }

  /** The live index of p runs out within d ms. */
  predicate RunsOut(s: Keys, p: Phone, d: int) {
    LiveIndex(s, p) && s.hashed[p].expiresAt.Some? && s.hashed[p].expiresAt.value <= s.now + d
  }

  ghost predicate HasRawToken(s: Keys, p: Phone, h: Hash, hash: Token -> Hash) {
    exists t :: t in LegacyOf(s, p) && hash(t) == h
  }

  lemma ListedExactly(s: Keys, p: Phone, h: Hash, add: nat, arm: nat)
    ensures var t := Listed(s, p, h, add, arm);
            && t.now == s.now + add + arm && t.records == s.records && t.legacy == s.legacy && p in t.hashed
            && if RunsOutBetween(s, p, add, add + arm)
               then t.hashed[p].expiresAt.Some? && t.hashed[p].expiresAt.value <= t.now
               else h in t.hashed[p].members && t.hashed[p].expiresAt == Some(t.now + INDEX_TTL)
  {
  }

  lemma ListedKeeps(s: Keys, p: Phone, h: Hash, w: Waits, hash: Token -> Hash)
    requires AllReachable(s, hash)
    ensures AllReachable(Listed(s, p, h, w.add, w.arm), hash)
    ensures AllReachable(Wait(Listed(s, p, h, w.add, w.arm), w.put), hash)
  {
    hide AllReachable, Keeps, LiveIndex;
    var a := Wait(s, w.add);
    WaitKeeps(s, w.add, hash);
    KeepsReachable(s, a, hash);
    var b := SAdd(a, p, h);
    SAddKeeps(a, p, h, hash);
    KeepsReachable(a, b, hash);
    var c := Wait(b, w.arm);
    WaitKeeps(b, w.arm, hash);
    KeepsReachable(b, c, hash);
    var e := Expire(c, p);
    ExpireKeeps(c, p, hash);
    KeepsReachable(c, e, hash);
    WaitKeeps(e, w.put, hash);
    KeepsReachable(e, Wait(e, w.put), hash);
  }

  /** Whether a sign-in leaves every session reachable, from the keys before it and the waits alone. */
  lemma CreateExactly(s: Keys, p: Phone, h: Hash, w: Waits, hash: Token -> Hash)
    requires AllReachable(s, hash) && h !in s.records
    ensures AllReachable(Create(s, p, h, w), hash) <==>
              !RunsOutBetween(s, p, w.add, w.add + w.arm) || Total(w) >= ABSOLUTE_MS || HasRawToken(s, p, h, hash)
  {
    ListedKeeps(s, p, h, w, hash);
    ListedExactly(s, p, h, w.add, w.arm);
    SetRecordExactly(Wait(Listed(s, p, h, w.add, w.arm), w.put), p, h, s.now, hash);
    hide AllReachable, Listed, RunsOutBetween;
  }

  ghost predicate AlwaysReachable(s: Keys, p: Phone, h: Hash, d: int, hash: Token -> Hash) {
    forall w :: Total(w) <= d ==> AllReachable(Create(s, p, h, w), hash)
  }

  /** What can be checked before a sign-in that takes so long. */
  ghost predicate SafeToCreate(s: Keys, p: Phone, h: Hash, d: int, hash: Token -> Hash) {
    !RunsOut(s, p, if d < ABSOLUTE_MS then d else ABSOLUTE_MS - 1) || HasRawToken(s, p, h, hash)
  }

  /** A sign-in of at most d ms leaves every session reachable exactly when the index does not run out meanwhile. */
  lemma CreateIsSafeExactly(s: Keys, p: Phone, h: Hash, d: int, hash: Token -> Hash)
    requires AllReachable(s, hash) && h !in s.records
    ensures AlwaysReachable(s, p, h, d, hash) <==> SafeToCreate(s, p, h, d, hash)
  {
    if SafeToCreate(s, p, h, d, hash) {
      forall w | Total(w) <= d
        ensures AllReachable(Create(s, p, h, w), hash)
      {
        CreateExactly(s, p, h, w, hash);
      }
    } else {
      var w := Waits(0, s.hashed[p].expiresAt.value - s.now, 0);
      CreateExactly(s, p, h, w, hash);
      assert Total(w) <= d;
    }
  }

  /** SADD, the lapse, EXPIRE and SET leave a live session that no revoke finds. */
  lemma LapseHidesASession(s: Keys, p: Phone, h: Hash, hash: Token -> Hash)
    requires AllReachable(s, hash) && h !in s.records && RunsOut(s, p, ABSOLUTE_MS - 1) && !HasRawToken(s, p, h, hash)
    ensures var t := Create(s, p, h, Waits(0, s.hashed[p].expiresAt.value - s.now, 0));
            Inside(t, h) && t.records[h].phone == p && h !in MembersOf(t, p) && !AllReachable(t, hash)
  {
    var left := s.hashed[p].expiresAt.value - s.now;
    CreateExactly(s, p, h, Waits(0, left, 0), hash);
    ListedExactly(s, p, h, 0, left);
  }

  /** Such keys: an index with 1 ms left, that lists a session which is over. */
  lemma IndexAboutToLapse(hash: Token -> Hash) returns (s: Keys)
    ensures AllReachable(s, hash) && s.records == map[] && RunsOut(s, 0, 1) && forall h :: !HasRawToken(s, 0, h, hash)
  {
    s := Keys(0, map[], map[0 := Index({1}, Some(1))], map[]);
  }

  // ---- The operations ----

  /** The distinct keys of any SCAN replies, which may repeat a key. */
  method ScanAll(pages: seq<seq<Phone>>) returns (keys: seq<Phone>)
    ensures forall i, j :: 0 <= i < j < |keys| ==> keys[i] != keys[j]
    ensures forall p :: p in keys <==> exists i :: 0 <= i < |pages| && p in pages[i]
  {
    keys := [];
    for i := 0 to |pages|
      invariant forall a, b :: 0 <= a < b < |keys| ==> keys[a] != keys[b]
      invariant forall p :: p in keys <==> exists n :: 0 <= n < i && p in pages[n]
    {
      ghost var before := keys;
      for j := 0 to |pages[i]|
        invariant forall a, b :: 0 <= a < b < |keys| ==> keys[a] != keys[b]
        invariant forall p :: p in keys <==> p in before || p in pages[i][..j]
      {
        if pages[i][j] !in keys { keys := keys + [pages[i][j]]; }
      }
      assert pages[i][..|pages[i]|] == pages[i];
    }
  }

  class Redis {
    var now: int
    var records: map<Hash, Record>
    var hashed: map<Phone, Index>
    var legacy: map<Phone, set<Token>>
    const hash: Token -> Hash

    function Snapshot(): Keys
      reads this
    {
      Keys(now, records, hashed, legacy)
    }

    ghost predicate Valid()
      reads this
    {
      AllReachable(Snapshot(), hash)
    }

    constructor (k: Keys, hash: Token -> Hash)
      requires AllReachable(k, hash)
      ensures Snapshot() == k && this.hash == hash
    {
      now, records, hashed, legacy, this.hash := k.now, k.records, k.hashed, k.legacy, hash;
    }

    method Store(k: Keys)
      modifies this
      ensures Snapshot() == k
    {
      now, records, hashed, legacy := k.now, k.records, k.hashed, k.legacy;
    }

    method Pause()
      modifies this
      ensures Keeps(old(Snapshot()), Snapshot(), hash)
      ensures Snapshot() == old(Snapshot()).(now := now) && now >= old(now)
    {
      var ms: int := *;
      WaitKeeps(Snapshot(), if ms > 0 then ms else 0, hash);
      if ms > 0 { now := now + ms; }
    }

    /** createSession's writes to the index. */
    method IndexToken(p: Phone, h: Hash) returns (done: bool, ghost add: nat, ghost arm: nat)
      requires Valid()
      modifies this
      ensures Valid() && records == old(records) && legacy == old(legacy) && now >= old(now)
      ensures done ==> Snapshot() == Listed(old(Snapshot()), p, h, add, arm)
    {
      hide AllReachable, Keeps;
      done, add, arm := false, 0, 0;
      Pass(true);
      add := now - old(now);
      SAddKeeps(Snapshot(), p, h, hash);
      KeepsReachable(Snapshot(), SAdd(Snapshot(), p, h), hash);
      Store(SAdd(Snapshot(), p, h));
      var stop: bool := *;
      if stop { return; }
      Pass(true);
      arm := now - old(now) - add;
      ExpireKeeps(Snapshot(), p, hash);
      KeepsReachable(Snapshot(), Expire(Snapshot(), p), hash);
      Store(Expire(Snapshot(), p));
      done := true;
    }

    /**
     createSession. Stopped before its last write it leaves every session reachable. Complete, it is the
     whole run of its writes, and safe when the index did not run out while it took.
     */
    method CreateSession(p: Phone, h: Hash) returns (done: bool, ghost w: Waits)
      requires Valid() && h !in records
      modifies this
      ensures !done ==> Valid()
      ensures done ==> Snapshot() == Create(old(Snapshot()), p, h, w) && now == old(now) + Total(w)
      ensures done ==> h in records && records[h] == Record(p, old(now))
      ensures done ==> (Valid() <==> !RunsOutBetween(old(Snapshot()), p, w.add, w.add + w.arm)
                                     || now - old(now) >= ABSOLUTE_MS || HasRawToken(old(Snapshot()), p, h, hash))
      ensures SafeToCreate(old(Snapshot()), p, h, now - old(now), hash) ==> Valid()
    {
      hide AllReachable, Keeps, HasRawToken;
      ghost var before := Snapshot();
      var created := now;
      ghost var add, arm;
      done, add, arm := IndexToken(p, h);
      w := Waits(add, arm, 0);
      if !done { return; }
      done := false;
      var stop: bool := *;
      if stop { return; }
      ghost var at := now;
      Pass(true);
      w := w.(put := now - at);
      CreateExactly(before, p, h, w, hash);
      Store(SetRecord(Snapshot(), p, h, created));
      done := true;
    }

    /**
     revokeAll: complete, it leaves no session of p inside its life, if each could be reached when it began,
     and neither of its indexes.
     */
    method RevokeAll(p: Phone) returns (done: bool)
      modifies this
      ensures old(Valid()) ==> Valid()
      ensures old(Valid()) && done ==> forall h :: Inside(Snapshot(), h) ==> records[h].phone != p
      ensures done ==> p !in hashed && p !in legacy
    {
      ghost var sound := Valid();
      done := DeleteListed(p);
      if !done { return; }
      done := false;
      Pass(sound);
      if sound { DelHashedKeeps(Snapshot(), p, hash); }
      Store(DelHashed(Snapshot(), p));
      var stop: bool := *;
      if stop { return; }
      Pass(sound);
      if sound { DelLegacyExactly(Snapshot(), p, hash); }
      Store(DelLegacy(Snapshot(), p));
      done := true;
    }

    method Pass(ghost sound: bool)
      requires sound ==> Valid()
      modifies this
      ensures sound ==> Valid()
      ensures Keeps(old(Snapshot()), Snapshot(), hash)
      ensures Snapshot() == old(Snapshot()).(now := now) && now >= old(now)
    {
      ghost var before := Snapshot();
      Pause();
      if sound { KeepsReachable(before, Snapshot(), hash); }
    }

    method DeleteListed(p: Phone) returns (done: bool)
      modifies this
      ensures old(Valid()) ==> Valid()
      ensures old(Valid()) && done ==> forall h :: Inside(Snapshot(), h) ==> records[h].phone != p
    {
      ghost var sound := Valid();
      done := false;
      var hashes := MembersOf(Snapshot(), p);
      while hashes != {}
        invariant legacy == old(legacy) && (sound ==> Valid())
        invariant sound ==> forall h :: Inside(Snapshot(), h) && records[h].phone == p ==>
                    h in hashes || LegacyIndexed(Snapshot(), hash, h)
      {
        var h :| h in hashes;
        Pause();
        DelRecordKeeps(Snapshot(), h, hash);
        Store(DelRecord(Snapshot(), h));
        hashes := hashes - {h};
        var stop: bool := *;
        if stop { return; }
      }
      Pause();
      var tokens := LegacyOf(Snapshot(), p);
      while tokens != {}
        invariant sound ==> Valid()
        invariant sound ==> forall h :: Inside(Snapshot(), h) && records[h].phone == p ==>
                    exists t :: t in tokens && hash(t) == h
      {
        var t :| t in tokens;
        Pause();
        DelRecordKeeps(Snapshot(), hash(t), hash);
        Store(DelRecord(Snapshot(), hash(t)));
        tokens := tokens - {t};
        var stop: bool := *;
        if stop { return; }
      }
      done := true;
    }

    /**
     The migration of one legacy key: every raw token's hash is added, then the target is re-armed. It
     is a fill, so a key not at risk while it took is covered; in any case a session of p inside its
     life is covered exactly when it is a member.
     */
    method MigrateKey(p: Phone) returns (done: bool)
      requires Valid()
      modifies this
      ensures Valid() && Keeps(old(Snapshot()), Snapshot(), hash) && OnlyIndexOf(old(Snapshot()), Snapshot(), p)
      ensures done && LegacyOf(old(Snapshot()), p) != {} ==> IsFill(old(Snapshot()), Snapshot(), p, hash)
      ensures done ==> Settled(Snapshot(), p, LegacyOf(Snapshot(), p), hash)
      ensures done && !AtRisk(old(Snapshot()), p, now - old(now), hash) ==> Migrated(Snapshot(), p)
    {
      hide AllReachable, Keeps, OnlyIndexOf, Settled, Migrated, AtRisk, Added, Lists, Inside;
      var raw := LegacyOf(Snapshot(), p);
      NothingToFill(Snapshot(), p, hash);
      if raw == {} { return true; }
      done := false;
      ghost var start := Snapshot();
      ghost var hashes: seq<Hash>, waits: seq<nat> := [], [];
      var todo := raw;
      assert raw - todo == {};
      while todo != {}
        invariant todo <= raw && |hashes| == |waits|
        invariant Snapshot() == Added(start, p, hashes, waits)
        invariant Lists(hashes, raw - todo, hash)
      {
        var t :| t in todo;
        var before := now;
        Pause();
        Store(SAdd(Snapshot(), p, hash(t)));
        AddedNext(start, p, hashes, waits, hash(t), now - before);
        ListsNext(hashes, raw - todo, t, hash);
        assert raw - (todo - {t}) == raw - todo + {t};
        hashes, waits, todo := hashes + [hash(t)], waits + [now - before], todo - {t};
        var stop: bool := *;
        if stop {
          AddedKeeps(start, p, hashes, waits, hash);
          return;
        }
      }
      var before := now;
      Pause();
      Store(Expire(Snapshot(), p));
      assert raw - todo == raw && Snapshot() == Fill(start, p, hashes, waits, now - before);
      FillKeeps(start, p, hashes, waits, now - before, hash);
      if !AtRisk(start, p, now - start.now, hash) { FillMigrates(start, p, hashes, waits, now - before, hash); }
      done := true;
    }

    /**
     The customer purge over any SCAN replies, which may stop anywhere. Every session inside its life
     can still be reached from a revoke index exactly when, for each raw index deleted, every raw token
     of such a session is in its phone's hashed index; and so it is when no key was at risk for as long
     as the purge took.
     */
    method PurgeLegacy(pages: seq<seq<Phone>>, del: bool) returns (done: bool)
      requires Valid()
      modifies this
      ensures !del ==> Snapshot() == old(Snapshot())
      ensures now >= old(now) && forall p :: p in legacy ==> p in old(legacy) && legacy[p] == old(legacy)[p]
      ensures Valid() <==> forall p :: p in old(legacy) && p !in legacy ==> Carried(Snapshot(), p, old(legacy)[p], hash)
      ensures NoneAtRisk(old(Snapshot()), now - old(now), hash) ==> Valid()
      ensures del && done ==> forall i, p :: 0 <= i < |pages| && p in pages[i] ==> p !in legacy
    {
      var keys := ScanAll(pages);
      if !del { return true; }
      done := MigrateKeys(keys);
      if !done { return; }
      ghost var start := old(Snapshot());
      done := DeleteKeys(keys, start);
      PurgedExactly(Snapshot(), start.legacy, hash);
      forall p | p in start.legacy && p !in legacy && !AtRisk(start, p, now - start.now, hash)
        ensures Carried(Snapshot(), p, start.legacy[p], hash)
      {
        SettledExactly(Snapshot(), p, start.legacy[p], hash);
      }
    }

    method MigrateKeys(keys: seq<Phone>) returns (done: bool)
      requires Valid() && forall i, j :: 0 <= i < j < |keys| ==> keys[i] != keys[j]
      modifies this
      ensures Valid() && legacy == old(legacy) && now >= old(now)
      ensures done ==> forall j :: 0 <= j < |keys| ==> SettledSince(old(Snapshot()), Snapshot(), keys[j], hash)
    {
      done := false;
      for i := 0 to |keys|
        invariant Valid() && legacy == old(legacy) && records == old(records) && now >= old(now)
        invariant forall j :: 0 <= j < i ==> SettledSince(old(Snapshot()), Snapshot(), keys[j], hash)
        invariant forall j :: i <= j < |keys| ==> SameIndex(old(Snapshot()), Snapshot(), keys[j])
      {
        ghost var before := Snapshot();
        var moved := MigrateKey(keys[i]);
        if !moved { return; }
        forall j | 0 <= j < i
          ensures SettledSince(old(Snapshot()), Snapshot(), keys[j], hash)
        {
          SettledSinceStays(old(Snapshot()), before, Snapshot(), keys[j], hash);
        }
        RiskStays(old(Snapshot()), before, Snapshot(), keys[i], hash);
      }
      done := true;
    }

    method DeleteKeys(keys: seq<Phone>, ghost was: Keys) returns (done: bool)
      requires Valid() && legacy == was.legacy && was.now <= now
      requires forall j :: 0 <= j < |keys| ==> SettledSince(was, Snapshot(), keys[j], hash)
      modifies this
      ensures Purging(Snapshot(), was.legacy, hash) && now >= old(now)
      ensures forall p :: p in was.legacy && p !in legacy ==> SettledSince(was, Snapshot(), p, hash)
      ensures done ==> forall p :: p in keys ==> p !in legacy
    {
      done := false;
      assert Snapshot().(legacy := was.legacy) == Snapshot();
      for i := 0 to |keys|
        invariant Purging(Snapshot(), was.legacy, hash) && now >= old(now)
        invariant forall j :: 0 <= j < |keys| ==> SettledSince(was, Snapshot(), keys[j], hash)
        invariant forall p :: p in was.legacy && p !in legacy ==> p in keys[..i]
        invariant forall j :: 0 <= j < i ==> keys[j] !in legacy
      {
        ghost var before := Snapshot();
        Pause();
        PurgingNext(before, Snapshot(), was.legacy, keys[i], hash);
        Store(DelLegacy(Snapshot(), keys[i]));
        forall j | 0 <= j < |keys|
          ensures SettledSince(was, Snapshot(), keys[j], hash)
        {
          SettledSinceStays(was, before, Snapshot(), keys[j], hash);
        }
        var stop: bool := *;
        if stop { return; }
      }
      done := true;
    }

    /** A password reset at any time after a purge that stopped anywhere still ends every session of the phone. */
    method PurgeThenRevoke(pages: seq<seq<Phone>>, p: Phone) returns (revoked: bool, ghost purged: Keys)
      requires Valid()
      modifies this
      ensures revoked && (forall q :: q in old(legacy) && q !in purged.legacy ==> Carried(purged, q, old(legacy)[q], hash))
              ==> forall h :: Inside(Snapshot(), h) ==> records[h].phone != p
      ensures revoked && NoneAtRisk(old(Snapshot()), purged.now - old(now), hash)
              ==> forall h :: Inside(Snapshot(), h) ==> records[h].phone != p
    {
      var done := PurgeLegacy(pages, true);
      purged := Snapshot();
      Pass(Valid());
      revoked := RevokeAll(p);
    }
  }
}
