/**
 Staff sessions in Redis: a session record per token hash, a seen record beside it, and a revoke
 index per user, all expiring. Operations run one at a time, but any of them may be slow between two
 Redis calls and may stop after any of them; sign-ins and revocations that overlap are SessionOverlap.
 */
module StaffSessions {

  import opened Wrappers

  const SECOND: int := 1000
  const HOUR: int := 3600 * SECOND
  const ABSOLUTE_MS: int := 12 * HOUR
  const SESSION_TTL: int := 12 * HOUR
  const SEEN_GRACE: int := HOUR
  const INDEX_TTL: int := 7 * 24 * HOUR
  const IDLE_MS: int := 30 * 60 * SECOND
  const SEEN_REFRESH_MS: int := 60 * SECOND

  type User = nat
  type Hash = nat

  datatype Session = Session(user: User, expiresAt: int)
  datatype Seen = Seen(created: int, last: int, expiresAt: int)
  /** A set key has no expiry until EXPIRE gives it one. */
  datatype Index = Index(members: set<Hash>, expiresAt: Option<int>)

  datatype Keys = Keys(now: int, sess: map<Hash, Session>, seen: map<Hash, Seen>, index: map<User, Index>)

  predicate LiveSession(s: Keys, h: Hash) { h in s.sess && s.now < s.sess[h].expiresAt }

  predicate LiveSeen(s: Keys, h: Hash) { h in s.seen && s.now < s.seen[h].expiresAt }

  predicate LiveIndex(s: Keys, u: User) {
    u in s.index && (s.index[u].expiresAt.Some? ==> s.now < s.index[u].expiresAt.value)
  }

  function MembersOf(s: Keys, u: User): set<Hash> { if LiveIndex(s, u) then s.index[u].members else {} }

  function CeilSeconds(ms: int): int { (ms + SECOND - 1) / SECOND * SECOND }

  /** seenTtlSeconds, in ms: what is left of the absolute window, at least a second, plus the grace. */
  function SeenTtl(created: int, now: int): int {
    (if created + ABSOLUTE_MS - now <= 0 then SECOND else CeilSeconds(created + ABSOLUTE_MS - now)) + SEEN_GRACE
  }

  // ---- The Redis commands ----

  function Wait(s: Keys, ms: nat): Keys { s.(now := s.now + ms) }

  function SAdd(s: Keys, u: User, h: Hash): Keys {
    if LiveIndex(s, u)
    then s.(index := s.index[u := s.index[u].(members := s.index[u].members + {h})])
    else s.(index := s.index[u := Index({h}, None)])
  }

  function ExpireIndex(s: Keys, u: User): Keys {
    if LiveIndex(s, u) then s.(index := s.index[u := s.index[u].(expiresAt := Some(s.now + INDEX_TTL))]) else s
  }

  function SRem(s: Keys, u: User, h: Hash): Keys {
    if LiveIndex(s, u) then s.(index := s.index[u := s.index[u].(members := s.index[u].members - {h})]) else s
  }

  function DelIndex(s: Keys, u: User): Keys { s.(index := s.index - {u}) }

  function SetSeen(s: Keys, h: Hash, created: int, last: int, ttl: int): Keys {
    s.(seen := s.seen[h := Seen(created, last, s.now + ttl)])
  }

  function DelSeen(s: Keys, h: Hash): Keys { s.(seen := s.seen - {h}) }

  function SetSession(s: Keys, h: Hash, u: User): Keys {
    s.(sess := s.sess[h := Session(u, s.now + SESSION_TTL)])
  }

  function DelSession(s: Keys, h: Hash): Keys { s.(sess := s.sess - {h}) }

  function ExpireSession(s: Keys, h: Hash): Keys {
    if LiveSession(s, h) then s.(sess := s.sess[h := s.sess[h].(expiresAt := s.now + SESSION_TTL)]) else s
  }

  /** A session lives 12 h from its write, a seen record for its TTL and an index for 7 days, and no longer. */
  lemma KeysLiveTheirTtl(s: Keys, h: Hash, u: User, created: int, last: int, ttl: int, ms: nat)
    ensures LiveSession(Wait(SetSession(s, h, u), ms), h) <==> ms < 12 * 3_600_000
    ensures LiveSession(s, h) ==> (LiveSession(Wait(ExpireSession(s, h), ms), h) <==> ms < 12 * 3_600_000)
    ensures LiveSeen(Wait(SetSeen(s, h, created, last, ttl), ms), h) <==> ms < ttl
    ensures LiveIndex(s, u) ==> (LiveIndex(Wait(ExpireIndex(s, u), ms), u) <==> ms < 7 * 24 * 3_600_000)
  {
  }

  // ---- What every stopping point keeps ----

  /** h is in its user's revoke index, which outlives it. */
  ghost predicate Indexed(s: Keys, h: Hash)
    requires h in s.sess
  {
    var u := s.sess[h].user;
    && u in s.index && h in s.index[u].members
    && (s.index[u].expiresAt.Some? ==> s.sess[h].expiresAt <= s.index[u].expiresAt.value)
  }

  /** h has a seen record that outlives it, now and after any refresh. */
  ghost predicate HasSeen(s: Keys, h: Hash)
    requires h in s.sess
  {
    h in s.seen && s.sess[h].expiresAt <= s.seen[h].expiresAt
    && s.sess[h].expiresAt <= s.seen[h].created + ABSOLUTE_MS + SEEN_GRACE
  }

  ghost predicate Revocable(s: Keys) {
    forall h :: LiveSession(s, h) ==> Indexed(s, h) && s.sess[h].expiresAt <= s.now + SESSION_TTL
  }

  ghost predicate SeenOutlives(s: Keys) {
    forall h :: LiveSession(s, h) ==> HasSeen(s, h)
  }

  ghost predicate Inv(s: Keys) { Revocable(s) && SeenOutlives(s) }

  /** A dead session stays dead. */
  ghost predicate NoneRevived(s: Keys, t: Keys) {
    forall h :: LiveSession(t, h) ==> LiveSession(s, h) && t.sess[h].user == s.sess[h].user
  }

  /** A session still live has the seen times it had. */
  ghost predicate SeenKept(s: Keys, t: Keys) {
    && s.now <= t.now
    && forall h :: LiveSession(t, h) ==>
         LiveSession(s, h) && h in s.seen && h in t.seen
         && t.seen[h].created == s.seen[h].created && t.seen[h].last == s.seen[h].last
  }

  /** Every live session of t was live in s and is still indexed and seen. */
  ghost predicate StillGood(s: Keys, t: Keys) {
    && s.now <= t.now
    && forall h :: LiveSession(t, h) ==> LiveSession(s, h) && t.sess[h] == s.sess[h] && Indexed(t, h) && HasSeen(t, h)
  }

  lemma GoodKeeps(s: Keys, t: Keys)
    requires Inv(s) && StillGood(s, t)
    ensures Inv(t) && NoneRevived(s, t)
  {
    forall h | LiveSession(t, h)
      ensures Indexed(t, h) && t.sess[h].expiresAt <= t.now + SESSION_TTL && HasSeen(t, h)
    {
      assert LiveSession(s, h);
    }
  }

  lemma WaitKeeps(s: Keys, ms: nat)
    requires Inv(s)
    ensures Inv(Wait(s, ms)) && NoneRevived(s, Wait(s, ms))
    ensures SeenKept(s, Wait(s, ms))
  {
    var t := Wait(s, ms);
    forall g | LiveSession(t, g)
      ensures LiveSession(s, g) && Indexed(t, g) && HasSeen(t, g)
    {
      assert LiveSession(s, g) && Indexed(s, g) && HasSeen(s, g);
    }
    GoodKeeps(s, t);
  }

  lemma SAddKeeps(s: Keys, u: User, h: Hash)
    requires Inv(s)
    ensures Inv(SAdd(s, u, h)) && NoneRevived(s, SAdd(s, u, h))
    ensures SeenKept(s, SAdd(s, u, h))
  {
    var t := SAdd(s, u, h);
    forall g | LiveSession(t, g)
      ensures LiveSession(s, g) && Indexed(t, g) && HasSeen(t, g)
    {
      assert LiveSession(s, g) && Indexed(s, g) && HasSeen(s, g);
    }
    GoodKeeps(s, t);
  }

  lemma ExpireIndexKeeps(s: Keys, u: User)
    requires Inv(s)
    ensures Inv(ExpireIndex(s, u)) && NoneRevived(s, ExpireIndex(s, u))
    ensures SeenKept(s, ExpireIndex(s, u))
  {
    var t := ExpireIndex(s, u);
    forall g | LiveSession(t, g)
      ensures LiveSession(s, g) && Indexed(t, g) && HasSeen(t, g)
    {
      assert LiveSession(s, g) && Indexed(s, g) && HasSeen(s, g);
    }
    GoodKeeps(s, t);
  }

  lemma SRemKeeps(s: Keys, u: User, h: Hash)
    requires Inv(s) && !LiveSession(s, h)
    ensures Inv(SRem(s, u, h)) && NoneRevived(s, SRem(s, u, h))
    ensures SeenKept(s, SRem(s, u, h))
  {
    var t := SRem(s, u, h);
    forall g | LiveSession(t, g)
      ensures LiveSession(s, g) && Indexed(t, g) && HasSeen(t, g)
    {
      assert LiveSession(s, g) && Indexed(s, g) && HasSeen(s, g);
    }
    GoodKeeps(s, t);
  }

  lemma DelIndexKeeps(s: Keys, u: User)
    requires Inv(s) && (forall h :: LiveSession(s, h) ==> s.sess[h].user != u)
    ensures Inv(DelIndex(s, u)) && NoneRevived(s, DelIndex(s, u))
    ensures SeenKept(s, DelIndex(s, u))
  {
    var t := DelIndex(s, u);
    forall g | LiveSession(t, g)
      ensures LiveSession(s, g) && Indexed(t, g) && HasSeen(t, g)
    {
      assert LiveSession(s, g) && Indexed(s, g) && HasSeen(s, g);
    }
    GoodKeeps(s, t);
  }

  lemma DelSeenKeeps(s: Keys, h: Hash)
    requires Inv(s) && !LiveSession(s, h)
    ensures Inv(DelSeen(s, h)) && NoneRevived(s, DelSeen(s, h))
    ensures SeenKept(s, DelSeen(s, h))
  {
    var t := DelSeen(s, h);
    forall g | LiveSession(t, g)
      ensures LiveSession(s, g) && Indexed(t, g) && HasSeen(t, g)
    {
      assert LiveSession(s, g) && Indexed(s, g) && HasSeen(s, g);
    }
    GoodKeeps(s, t);
  }

  lemma SetSeenKeeps(s: Keys, h: Hash, created: int, last: int, ttl: int)
    requires Inv(s) && !LiveSession(s, h)
    ensures Inv(SetSeen(s, h, created, last, ttl)) && NoneRevived(s, SetSeen(s, h, created, last, ttl))
    ensures SeenKept(s, SetSeen(s, h, created, last, ttl))
  {
    var t := SetSeen(s, h, created, last, ttl);
    forall g | LiveSession(t, g)
      ensures LiveSession(s, g) && Indexed(t, g) && HasSeen(t, g)
    {
      assert LiveSession(s, g) && Indexed(s, g) && HasSeen(s, g);
    }
    GoodKeeps(s, t);
  }

  lemma RefreshSeenKeeps(s: Keys, h: Hash, created: int, at: int)
    requires Inv(s) && at <= s.now && h in s.seen && s.seen[h].created == created
    ensures Inv(SetSeen(s, h, created, at, SeenTtl(created, at)))
    ensures NoneRevived(s, SetSeen(s, h, created, at, SeenTtl(created, at)))
  {
    var t := SetSeen(s, h, created, at, SeenTtl(created, at));
    SeenTtlCovers(created, at);
    forall g | LiveSession(t, g)
      ensures LiveSession(s, g) && Indexed(t, g) && HasSeen(t, g)
    {
      assert LiveSession(s, g) && Indexed(s, g) && HasSeen(s, g);
    }
    GoodKeeps(s, t);
  }

  lemma DelSessionKeeps(s: Keys, h: Hash)
    requires Inv(s)
    ensures Inv(DelSession(s, h)) && NoneRevived(s, DelSession(s, h))
    ensures SeenKept(s, DelSession(s, h))
  {
    var t := DelSession(s, h);
    forall g | LiveSession(t, g)
      ensures LiveSession(s, g) && Indexed(t, g) && HasSeen(t, g)
    {
      assert LiveSession(s, g) && Indexed(s, g) && HasSeen(s, g);
    }
    GoodKeeps(s, t);
  }

  /** Re-arming never shortens a seen record below the absolute window plus the grace. */
  lemma SeenTtlCovers(created: int, now: int)
    ensures created + ABSOLUTE_MS + SEEN_GRACE <= now + SeenTtl(created, now)
    ensures SECOND + SEEN_GRACE <= SeenTtl(created, now)
    ensures SeenTtl(created, now) <= SECOND + SEEN_GRACE + if created + ABSOLUTE_MS <= now then 0 else created + ABSOLUTE_MS - now
  {
  }

  /** The write that makes a session live: exactly what must already stand. */
  lemma SetSessionExactly(s: Keys, h: Hash, u: User)
    requires Inv(s) && !LiveSession(s, h)
    ensures var t := SetSession(s, h, u);
            && (Revocable(t) <==>
                 u in s.index && h in s.index[u].members
                 && (s.index[u].expiresAt.Some? ==> s.now + SESSION_TTL <= s.index[u].expiresAt.value))
            && (SeenOutlives(t) <==>
                 h in s.seen && s.now + SESSION_TTL <= s.seen[h].expiresAt
                 && s.now <= s.seen[h].created + SEEN_GRACE)
  {
    var t := SetSession(s, h, u);
    assert LiveSession(t, h);
    forall g | LiveSession(t, g) && g != h
      ensures Indexed(t, g) && HasSeen(t, g)
    {
      assert LiveSession(s, g);
    }
  }

  // ---- createSession from its first write to its last ----

  /** The time before each of createSession's four writes. */
  datatype Waits = Waits(add: nat, arm: nat, see: nat, put: nat)

  function Total(w: Waits): nat { w.add + w.arm + w.see + w.put }

  /** SADD, then EXPIRE. */
  function Listed(s: Keys, u: User, h: Hash, add: nat, arm: nat): Keys {
    ExpireIndex(Wait(SAdd(Wait(s, add), u, h), arm), u)
  }

  /** The seen record is written before the session record. */
  function Prepared(s: Keys, u: User, h: Hash, w: Waits): Keys {
    SetSeen(Wait(Listed(s, u, h, w.add, w.arm), w.see), h, s.now, s.now, SeenTtl(s.now, s.now))
  }

  function Create(s: Keys, u: User, h: Hash, w: Waits): Keys {
    SetSession(Wait(Prepared(s, u, h, w), w.put), h, u)
  }

  /** The live index of u, if it expires, does so later than `from` and at most `to` ms from now. */
  predicate RunsOutBetween(s: Keys, u: User, from: int, to: int) {
    LiveIndex(s, u) && s.index[u].expiresAt.Some? && s.now + from < s.index[u].expiresAt.value <= s.now + to
  }

  /** The live index of u runs out within d ms. */
  predicate RunsOut(s: Keys, u: User, d: int) {
    LiveIndex(s, u) && s.index[u].expiresAt.Some? && s.index[u].expiresAt.value <= s.now + d
  }

  lemma ListedExactly(s: Keys, u: User, h: Hash, add: nat, arm: nat)
    ensures var t := Listed(s, u, h, add, arm);
            && t.now == s.now + add + arm && t.sess == s.sess && t.seen == s.seen && u in t.index
            && if RunsOutBetween(s, u, add, add + arm)
               then t.index[u].expiresAt.Some? && t.index[u].expiresAt.value <= t.now
               else h in t.index[u].members && t.index[u].expiresAt == Some(t.now + INDEX_TTL)
  {
  }

  lemma PreparedKeeps(s: Keys, u: User, h: Hash, w: Waits)
    requires Inv(s) && !LiveSession(s, h)
    ensures Inv(Listed(s, u, h, w.add, w.arm)) && Inv(Prepared(s, u, h, w)) && Inv(Wait(Prepared(s, u, h, w), w.put))
    ensures !LiveSession(Wait(Prepared(s, u, h, w), w.put), h)
  {
    hide Inv, LiveIndex, LiveSeen, SeenTtl, SeenKept;
    var a := Wait(s, w.add);
    WaitKeeps(s, w.add);
    SAddKeeps(a, u, h);
    var b := SAdd(a, u, h);
    WaitKeeps(b, w.arm);
    ExpireIndexKeeps(Wait(b, w.arm), u);
    var c := Listed(s, u, h, w.add, w.arm);
    WaitKeeps(c, w.see);
    SetSeenKeeps(Wait(c, w.see), h, s.now, s.now, SeenTtl(s.now, s.now));
    WaitKeeps(Prepared(s, u, h, w), w.put);
  }

  /** Each promise after a creation, from the keys before it and the waits alone. */
  lemma CreateExactly(s: Keys, u: User, h: Hash, w: Waits)
    requires Inv(s) && !LiveSession(s, h)
    ensures Revocable(Create(s, u, h, w)) <==>
              !RunsOutBetween(s, u, w.add, w.add + w.arm) && w.see + w.put <= INDEX_TTL - SESSION_TTL
    ensures SeenOutlives(Create(s, u, h, w)) <==> Total(w) <= SEEN_GRACE
  {
    PreparedKeeps(s, u, h, w);
    ListedExactly(s, u, h, w.add, w.arm);
    SetSessionExactly(Wait(Prepared(s, u, h, w), w.put), h, u);
    SeenTtlOfNew(s.now);
    hide Revocable, SeenOutlives, Inv, SetSession, Listed, SeenTtl, RunsOutBetween;
  }

  lemma SeenTtlOfNew(now: int)
    ensures SeenTtl(now, now) == ABSOLUTE_MS + SEEN_GRACE
  {
  }

  /** What can be checked before a call that takes so long. */
  predicate SafeToCreate(s: Keys, u: User, took: int) { !RunsOut(s, u, took) && took <= SEEN_GRACE }

  lemma NotLateIsSafe(s: Keys, u: User, w: Waits)
    ensures SafeToCreate(s, u, Total(w)) ==>
              !RunsOutBetween(s, u, w.add, w.add + w.arm) && w.see + w.put <= INDEX_TTL - SESSION_TTL
  {
  }

  ghost predicate AlwaysRevocable(s: Keys, u: User, h: Hash, d: int) {
    forall w :: Total(w) <= d ==> Revocable(Create(s, u, h, w))
  }

  ghost predicate AlwaysSeen(s: Keys, u: User, h: Hash, d: int) {
    forall w :: Total(w) <= d ==> SeenOutlives(Create(s, u, h, w))
  }

  /** A creation of at most d ms leaves every session revocable exactly when the user's index does not run out meanwhile. */
  lemma CreateIsRevocableExactly(s: Keys, u: User, h: Hash, d: int)
    requires Inv(s) && !LiveSession(s, h)
    ensures AlwaysRevocable(s, u, h, d) <==> !RunsOut(s, u, d) && d <= INDEX_TTL - SESSION_TTL
  {
    if !RunsOut(s, u, d) && d <= INDEX_TTL - SESSION_TTL {
      forall w | Total(w) <= d
        ensures Revocable(Create(s, u, h, w))
      {
        CreateExactly(s, u, h, w);
      }
    } else {
      var w := if RunsOut(s, u, d) then Waits(0, s.index[u].expiresAt.value - s.now, 0, 0) else Waits(0, 0, d, 0);
      CreateExactly(s, u, h, w);
      assert Total(w) <= d;
    }
  }

  /** And leaves each with a seen record that outlives it exactly when d is at most the grace. */
  lemma CreateIsSeenExactly(s: Keys, u: User, h: Hash, d: int)
    requires Inv(s) && !LiveSession(s, h)
    ensures AlwaysSeen(s, u, h, d) <==> d <= SEEN_GRACE
  {
    if d <= SEEN_GRACE {
      forall w | Total(w) <= d
        ensures SeenOutlives(Create(s, u, h, w))
      {
        CreateExactly(s, u, h, w);
      }
    } else {
      CreateExactly(s, u, h, Waits(d, 0, 0, 0));
      assert Total(Waits(d, 0, 0, 0)) <= d;
    }
  }

  /** Both together: what SafeToCreate says is what such a creation needs. */
  lemma SafeToCreateExactly(s: Keys, u: User, h: Hash, d: int)
    requires Inv(s) && !LiveSession(s, h)
    ensures AlwaysRevocable(s, u, h, d) && AlwaysSeen(s, u, h, d) <==> SafeToCreate(s, u, d)
  {
    CreateIsRevocableExactly(s, u, h, d);
    CreateIsSeenExactly(s, u, h, d);
  }

  /** SADD, the lapse, EXPIRE and the two records leave a live session that no revoke finds. */
  lemma LapseHidesASession(s: Keys, u: User, h: Hash)
    requires Inv(s) && !LiveSession(s, h) && LiveIndex(s, u) && s.index[u].expiresAt.Some?
    ensures var t := Create(s, u, h, Waits(0, s.index[u].expiresAt.value - s.now, 0, 0));
            LiveSession(t, h) && t.sess[h].user == u && !LiveIndex(t, u) && !Revocable(t)
  {
    var left := s.index[u].expiresAt.value - s.now;
    CreateExactly(s, u, h, Waits(0, left, 0, 0));
    ListedExactly(s, u, h, 0, left);
  }

  /** Such keys: an index with 1 ms left, that lists a session which is over. */
  lemma IndexAboutToLapse() returns (s: Keys)
    ensures Inv(s) && LiveIndex(s, 0) && RunsOut(s, 0, 1) && !LiveSession(s, 7)
  {
    s := Keys(0, map[], map[], map[0 := Index({1}, Some(1))]);
  }

  // ---- The idle clock ----

  /** getSessionUser's verdict on a seen record, and the last-seen time it leaves. */
  predicate Accepts(created: int, last: int, now: int) { now - created <= ABSOLUTE_MS && now - last <= IDLE_MS }

  function Refreshed(last: int, now: int): int { if now - last >= SEEN_REFRESH_MS then now else last }

  /** Reads at the given times, each accepted, leave this last-seen time. */
  function LastSeen(created: int, uses: seq<int>): int {
    if uses == [] then created else Refreshed(LastSeen(created, uses[..|uses| - 1]), uses[|uses| - 1])
  }

  ghost predicate InOrder(created: int, uses: seq<int>) {
    && (forall i :: 0 <= i < |uses| ==> created <= uses[i])
    && (forall i, j :: 0 <= i < j < |uses| ==> uses[i] <= uses[j])
  }

  function LastUse(created: int, uses: seq<int>): int { if uses == [] then created else uses[|uses| - 1] }

  /** The stored time lags the exact one by less than the refresh interval. */
  lemma {:induction false} StoredLags(created: int, uses: seq<int>)
    requires InOrder(created, uses)
    ensures created <= LastSeen(created, uses)
    ensures LastSeen(created, uses) <= LastUse(created, uses) < LastSeen(created, uses) + SEEN_REFRESH_MS
    decreases |uses|
  {
    if uses != [] {
      StoredLags(created, uses[..|uses| - 1]);
    }
  }

  /** The lazy clock against the exact one, after any accepted uses. */
  lemma {:induction false} LazyClockRefinesExact(created: int, uses: seq<int>, now: int)
    requires InOrder(created, uses) && LastUse(created, uses) <= now
    ensures var idle := now - LastUse(created, uses);
            var accepted := Accepts(created, LastSeen(created, uses), now);
            && (idle > IDLE_MS ==> !accepted)
            && (now - created > ABSOLUTE_MS ==> !accepted)
            && (idle <= IDLE_MS - SEEN_REFRESH_MS + 1 && now - created <= ABSOLUTE_MS ==> accepted)
  {
    StoredLags(created, uses);
  }

  ghost predicate NeverRefusedWithin(gap: int) {
    forall created, uses, now {:trigger Accepts(created, LastSeen(created, uses), now)} ::
      (InOrder(created, uses) && LastUse(created, uses) <= now <= LastUse(created, uses) + gap && now - created <= ABSOLUTE_MS)
      ==> Accepts(created, LastSeen(created, uses), now)
  }

  /** The longest pause that is always forgiven: one refresh interval short of the idle limit, plus a millisecond. */
  lemma ForgivenGapExactly(gap: int)
    ensures NeverRefusedWithin(gap) <==> gap <= IDLE_MS - SEEN_REFRESH_MS + 1
  {
    if gap <= IDLE_MS - SEEN_REFRESH_MS + 1 {
      forall created, uses, now | InOrder(created, uses) && LastUse(created, uses) <= now <= LastUse(created, uses) + gap
                                   && now - created <= ABSOLUTE_MS
        ensures Accepts(created, LastSeen(created, uses), now)
      {
        LazyClockRefinesExact(created, uses, now);
      }
    } else {
      var uses := [SEEN_REFRESH_MS - 1];
      assert uses[..0] == [];
      assert LastSeen(0, uses) == 0;
      assert !Accepts(0, LastSeen(0, uses), IDLE_MS + 1);
    }
  }

  /** The seen record of every live session is the one its accepted reads left. */
  ghost predicate Tracks(s: Keys, uses: map<Hash, seq<int>>) {
    forall h :: LiveSession(s, h) ==> h in uses && h in s.seen && TracksOne(s.seen[h], uses[h], s.now)
  }

  ghost predicate TracksOne(seen: Seen, uses: seq<int>, now: int) {
    InOrder(seen.created, uses) && LastUse(seen.created, uses) <= now && seen.last == LastSeen(seen.created, uses)
  }

  lemma TracksStays(s: Keys, t: Keys, uses: map<Hash, seq<int>>)
    requires Tracks(s, uses) && SeenKept(s, t)
    ensures Tracks(t, uses)
  {
  }

  function UsesOf(uses: map<Hash, seq<int>>, h: Hash): seq<int> { if h in uses then uses[h] else [] }

  /** One more accepted read. */
  lemma UseTracked(was: Seen, next: Seen, uses: seq<int>, at: int, now: int)
    requires TracksOne(was, uses, at) && at <= now
    requires next.created == was.created && next.last == Refreshed(was.last, at)
    ensures TracksOne(next, uses + [at], now)
  {
    assert (uses + [at])[..|uses|] == uses;
    StoredLags(was.created, uses);
    assert uses != [] ==> uses[|uses| - 1] <= at;
    assert forall i :: 0 <= i < |uses| ==> uses[i] <= LastUse(was.created, uses);
  }

  lemma TracksAt(s: Keys, h: Hash, uses: map<Hash, seq<int>>, at: int)
    requires Tracks(s, uses) && LiveSession(s, h) && s.now <= at
    ensures h in s.seen && TracksOne(s.seen[h], UsesOf(uses, h), at)
  {
  }

  lemma ReadTracked(s: Keys, t: Keys, h: Hash, at: int, uses: map<Hash, seq<int>>)
    requires Tracks(s, uses) && h in s.seen && TracksOne(s.seen[h], UsesOf(uses, h), at)
    requires at <= t.now && s.now <= t.now && t.sess == s.sess
    requires h in t.seen && t.seen == s.seen[h := t.seen[h]]
    requires t.seen[h].created == s.seen[h].created && t.seen[h].last == Refreshed(s.seen[h].last, at)
    ensures Tracks(t, uses[h := UsesOf(uses, h) + [at]])
  {
    UseTracked(s.seen[h], t.seen[h], UsesOf(uses, h), at, t.now);
    forall g | LiveSession(t, g)
      ensures g in t.seen && (g != h ==> g in uses && TracksOne(t.seen[g], uses[g], t.now))
    {
      assert LiveSession(s, g);
    }
  }

  lemma NewIsTracked(s: Keys, u: User, h: Hash, created: int, uses: map<Hash, seq<int>>)
    requires Tracks(s, uses) && h in s.seen && s.seen[h].created == s.seen[h].last == created <= s.now
    ensures Tracks(SetSession(s, h, u), uses[h := []])
  {
    forall g | g != h && LiveSession(SetSession(s, h, u), g)
      ensures LiveSession(s, g)
    {
    }
  }

  /** The exact clocks of a session: time since its last accepted read, and since its creation. */
  ghost predicate FollowsClocks(accepted: bool, idle: int, age: int) {
    && (accepted ==> idle <= IDLE_MS && age <= ABSOLUTE_MS)
    && (idle <= IDLE_MS - SEEN_REFRESH_MS + 1 && age <= ABSOLUTE_MS ==> accepted)
  }

  lemma VerdictFollowsClocks(seen: Seen, uses: seq<int>, at: int)
    requires TracksOne(seen, uses, at)
    ensures FollowsClocks(Accepts(seen.created, seen.last, at), at - LastUse(seen.created, uses), at - seen.created)
  {
    LazyClockRefinesExact(seen.created, uses, at);
  }

  lemma SeenLostLast(s: Keys, h: Hash)
    requires Inv(s) && !LiveSeen(s, h)
    ensures !LiveSession(s, h)
  {
  }

  // ---- What a history of operations shows ----

  /** A creation, with the keys as it found them, or a read that its session outlived. */
  datatype Event = Created(before: Keys, user: User, took: int) | ReadAt(idle: int, age: int, accepted: bool)

  ghost predicate AllSafe(log: seq<Event>) {
    forall i :: 0 <= i < |log| && log[i].Created? ==> SafeToCreate(log[i].before, log[i].user, log[i].took)
  }

  lemma OneMoreEvent(log: seq<Event>, e: Event)
    ensures AllSafe(log + [e]) <==> AllSafe(log) && (e.Created? ==> SafeToCreate(e.before, e.user, e.took))
  {
    assert forall i :: 0 <= i < |log| ==> (log + [e])[i] == log[i];
    assert (log + [e])[|log|] == e;
  }

  ghost predicate ReadsFollowClocks(log: seq<Event>) {
    forall i :: 0 <= i < |log| && log[i].ReadAt? ==> FollowsClocks(log[i].accepted, log[i].idle, log[i].age)
  }

  // ---- The store's operations, one Redis call at a time ----

  class Redis {
    var now: int
    var sess: map<Hash, Session>
    var seen: map<Hash, Seen>
    var index: map<User, Index>
    var used: set<Hash>   // every token hash ever minted: a new token is random
    ghost var uses: map<Hash, seq<int>>   // the clock readings of the accepted reads of each session

    function Snapshot(): Keys
      reads this
    {
      Keys(now, sess, seen, index)
    }

    ghost predicate Valid()
      reads this
    {
      Inv(Snapshot()) && sess.Keys <= used && Tracks(Snapshot(), uses)
    }

    constructor ()
      ensures Valid() && used == {}
    {
      now, sess, seen, index := 0, map[], map[], map[];
      used, uses := {}, map[];
    }

    method Store(k: Keys)
      modifies this
      ensures Snapshot() == k && used == old(used) && uses == old(uses)
    {
      now, sess, seen, index := k.now, k.sess, k.seen, k.index;
    }

    /** A command that revives no session and leaves the seen times of the live ones. */
    method Step(k: Keys)
      requires Valid() && Inv(k) && NoneRevived(Snapshot(), k) && SeenKept(Snapshot(), k) && k.sess.Keys <= sess.Keys
      modifies this
      ensures Valid() && Snapshot() == k && used == old(used) && uses == old(uses)
    {
      TracksStays(Snapshot(), k, uses);
      Store(k);
    }

    /** What every operation but the creation keeps. */
    twostate predicate Kept()
      reads this
    {
      Valid() && used == old(used) && now >= old(now) && NoneRevived(old(Snapshot()), Snapshot())
    }

    method Pause()
      requires Valid()
      modifies this
      ensures Kept() && uses == old(uses) && Snapshot() == old(Snapshot()).(now := now)
    {
      var ms: int := *;
      if ms > 0 {
        WaitKeeps(Snapshot(), ms);
        Step(Wait(Snapshot(), ms));
      }
    }

    /** createSession's first two writes: the hash goes into the index, and the index is re-armed. */
    method IndexToken(u: User, h: Hash) returns (done: bool, ghost add: nat, ghost arm: nat)
      requires Valid()
      modifies this
      ensures Kept() && uses == old(uses)
      ensures sess == old(sess)
      ensures done ==> Snapshot() == Listed(old(Snapshot()), u, h, add, arm) && now == old(now) + add + arm
    {
      done, add, arm := false, 0, 0;
      Pause();
      add := now - old(now);
      SAddKeeps(Snapshot(), u, h);
      Step(SAdd(Snapshot(), u, h));
      var stop: bool := *;
      if stop { return; }
      Pause();
      arm := now - old(now) - add;
      ExpireIndexKeeps(Snapshot(), u);
      Step(ExpireIndex(Snapshot(), u));
      done := true;
    }

    /**
     createSession. Stopped anywhere before its last write it keeps both promises. Complete, it is the
     whole run of its writes; it keeps both promises when the index did not run out while it took, and
     it took at most the grace.
     */
    method CreateSession(u: User, h: Hash) returns (done: bool, ghost w: Waits)
      requires Valid() && h !in used
      modifies this
      ensures used == old(used) + {h} && sess.Keys <= used && now >= old(now)
      ensures !done ==> Valid()
      ensures done ==> Snapshot() == Create(old(Snapshot()), u, h, w) && now == old(now) + Total(w)
      ensures done ==> LiveSession(Snapshot(), h) && sess[h] == Session(u, now + SESSION_TTL)
      ensures done ==> h in seen && seen[h].created == seen[h].last == old(now)
      ensures done ==> (Revocable(Snapshot()) <==> !RunsOutBetween(old(Snapshot()), u, w.add, w.add + w.arm)
                                                     && w.see + w.put <= INDEX_TTL - SESSION_TTL)
      ensures done ==> (SeenOutlives(Snapshot()) <==> now - old(now) <= SEEN_GRACE)
      ensures SafeToCreate(old(Snapshot()), u, now - old(now)) ==> Valid()
      ensures forall g :: LiveSession(Snapshot(), g) ==> g == h || old(LiveSession(Snapshot(), g))
    {
      hide Prepared, RunsOutBetween, RunsOut, Tracks, Revocable, SeenOutlives;
      used := used + {h};
      ghost var before := Snapshot();
      done, w := Prepare(u, h);
      if !done { return; }
      CreateExactly(before, u, h, w);
      NotLateIsSafe(before, u, w);
      NewIsTracked(Snapshot(), u, h, before.now, uses);
      Store(SetSession(Snapshot(), h, u));
      uses := uses[h := []];
    }

    /** Every write of createSession but the last, and the wait before that one. */
    method Prepare(u: User, h: Hash) returns (done: bool, ghost w: Waits)
      requires Valid() && !LiveSession(Snapshot(), h)
      modifies this
      ensures Kept() && uses == old(uses) && sess == old(sess)
      ensures done ==> Snapshot() == Wait(Prepared(old(Snapshot()), u, h, w), w.put) && now == old(now) + Total(w)
      ensures done ==> h in seen && seen[h].created == seen[h].last == old(now)
    {
      hide Inv, Listed, SeenTtl, Tracks;
      var created := now;
      ghost var add, arm;
      done, add, arm := IndexToken(u, h);
      w := Waits(add, arm, 0, 0);
      if !done { return; }
      done := false;
      var stop: bool := *;
      if stop { return; }
      ghost var at := now;
      Pause();
      w := w.(see := now - at);
      SetSeenKeeps(Snapshot(), h, created, created, SeenTtl(created, created));
      Step(SetSeen(Snapshot(), h, created, created, SeenTtl(created, created)));
      stop := *;
      if stop { return; }
      at := now;
      Pause();
      w := w.(put := now - at);
      done := true;
    }

    /** Revoke one session in the order of getSessionUser: the record first, and nothing of it is left when complete. */
    method RevokeExpired(h: Hash, u: User) returns (done: bool)
      requires Valid()
      modifies this
      ensures Kept() && uses == old(uses)
      ensures h !in sess
      ensures done ==> h !in seen && h !in MembersOf(Snapshot(), u)
    {
      done := false;
      Pause();
      DelSessionKeeps(Snapshot(), h);
      Step(DelSession(Snapshot(), h));
      var stop: bool := *;
      if stop { return; }
      Pause();
      DelSeenKeeps(Snapshot(), h);
      Step(DelSeen(Snapshot(), h));
      stop := *;
      if stop { return; }
      Pause();
      SRemKeeps(Snapshot(), u, h);
      Step(SRem(Snapshot(), u, h));
      done := true;
    }

    /**
     getSessionUser. An answer means the session record was live when it was read and its user is the
     answer; unless the session ended during the call itself (`late`), the verdict is that of both
     windows at the clock reading `at`: a refused session is deleted, an accepted one keeps its
     creation time and is refreshed when a minute has passed. Against the exact clocks, whatever came
     before: idle for over 30 minutes or older than 12 hours is refused, at most 29 minutes accepted.
     */
    method GetSessionUser(h: Hash) returns (user: Option<User>, at: int, late: bool)
      requires Valid()
      modifies this
      ensures Kept()
      ensures uses == if user.Some? && !late then old(uses)[h := UsesOf(old(uses), h) + [at]] else old(uses)
      ensures user.Some? ==> old(LiveSession(Snapshot(), h)) && user.value == old(sess)[h].user
      ensures old(LiveSession(Snapshot(), h)) && !late ==>
                h in old(seen) && (user.Some? <==> Accepts(old(seen)[h].created, old(seen)[h].last, at))
      ensures old(LiveSession(Snapshot(), h)) && user.None? ==> h !in sess
      ensures user.Some? && !late ==>
                h in seen && seen[h].created == old(seen)[h].created && seen[h].last == Refreshed(old(seen)[h].last, at)
      ensures late ==> !LiveSession(Snapshot(), h)
      ensures at >= old(now)
      ensures old(LiveSession(Snapshot(), h)) && !late ==>
                var created := old(seen)[h].created;
                FollowsClocks(user.Some?, at - LastUse(created, UsesOf(old(uses), h)), at - created)
    {
      hide Tracks, TracksOne, FollowsClocks, Inv;
      late, at := false, now;
      ghost var begun := Snapshot();
      if !LiveSession(Snapshot(), h) { return None, at, false; }
      var name := sess[h].user;
      Pause();
      at := now;
      Pause();
      if !LiveSeen(Snapshot(), h) {
        late := true;
        Adopt(h, at);
        return Some(name), at, late;
      }
      var record := seen[h];
      TracksAt(begun, h, uses, at);
      VerdictFollowsClocks(record, UsesOf(uses, h), at);
      if !Accepts(record.created, record.last, at) {
        var revoked := RevokeExpired(h, name);
        return None, at, false;
      }
      ghost var before := Snapshot();
      if at - record.last >= SEEN_REFRESH_MS {
        Pause();
        RefreshSeenKeeps(Snapshot(), h, record.created, at);
        Store(SetSeen(Snapshot(), h, record.created, at, SeenTtl(record.created, at)));
      }
      ReadTracked(before, Snapshot(), h, at, uses);
      uses := uses[h := UsesOf(uses, h) + [at]];
      return Some(name), at, late;
    }

    /** The adopt-once writes. Sessions of this build reach them only after the session itself is gone. */
    method Adopt(h: Hash, at: int)
      requires Valid() && !LiveSeen(Snapshot(), h) && at <= now
      modifies this
      ensures Kept() && uses == old(uses)
      ensures !LiveSession(Snapshot(), h)
      ensures h in seen && seen[h].created == seen[h].last == at && seen[h].expiresAt >= at + SeenTtl(at, at)
    {
      SeenLostLast(Snapshot(), h);
      Pause();
      SetSeenKeeps(Snapshot(), h, at, at, SeenTtl(at, at));
      Step(SetSeen(Snapshot(), h, at, at, SeenTtl(at, at)));
      Pause();
      assert ExpireSession(Snapshot(), h) == Snapshot();
      Step(ExpireSession(Snapshot(), h));
    }

    /** peekSessionUser: the same verdict and no write. */
    method PeekSessionUser(h: Hash) returns (user: Option<User>, at: int)
      requires Valid()
      modifies this
      ensures Kept() && uses == old(uses)
      ensures Snapshot() == old(Snapshot()).(now := now)
      ensures user.Some? ==> old(LiveSession(Snapshot(), h)) && user.value == old(sess)[h].user
      ensures user.Some? ==> h in seen && Accepts(seen[h].created, seen[h].last, at)
      ensures old(LiveSession(Snapshot(), h)) && user.None? ==>
                !LiveSeen(Snapshot(), h) || !Accepts(seen[h].created, seen[h].last, at)
      ensures old(LiveSession(Snapshot(), h)) && LiveSeen(Snapshot(), h) ==>
                var created := old(seen)[h].created;
                FollowsClocks(user.Some?, at - LastUse(created, UsesOf(uses, h)), at - created)
    {
      hide Tracks, TracksOne, FollowsClocks, Inv;
      ghost var begun := Snapshot();
      at := now;
      if !LiveSession(Snapshot(), h) { return None, at; }
      var name := sess[h].user;
      Pause();
      if !LiveSeen(Snapshot(), h) { return None, at; }
      var record := seen[h];
      Pause();
      at := now;
      TracksAt(begun, h, uses, at);
      VerdictFollowsClocks(record, UsesOf(uses, h), at);
      return if Accepts(record.created, record.last, at) then Some(name) else None, at;
    }

    method DeleteSession(h: Hash) returns (done: bool)
      requires Valid()
      modifies this
      ensures Kept() && uses == old(uses)
      ensures done ==> h !in sess && h !in seen
      ensures done && old(LiveSession(Snapshot(), h)) ==> h !in MembersOf(Snapshot(), old(sess)[h].user)
    {
      done := false;
      var name := if LiveSession(Snapshot(), h) then Some(sess[h].user) else None;
      Pause();
      DelSessionKeeps(Snapshot(), h);
      Step(DelSession(Snapshot(), h));
      var stop: bool := *;
      if stop { return; }
      Pause();
      DelSeenKeeps(Snapshot(), h);
      Step(DelSeen(Snapshot(), h));
      stop := *;
      if stop { return; }
      if name.Some? {
        Pause();
        SRemKeeps(Snapshot(), name.value, h);
        Step(SRem(Snapshot(), name.value, h));
      }
      done := true;
    }

    /**
     deleteAllSessionsFor: complete, it leaves no live session of the user, whatever stopped before it, no
     record of a session it listed and no index.
     */
    method DeleteAllSessionsFor(u: User) returns (done: bool)
      requires Valid()
      modifies this
      ensures Kept() && uses == old(uses)
      ensures done ==> forall h :: LiveSession(Snapshot(), h) ==> sess[h].user != u
      ensures done ==> u !in index && forall h :: h in old(MembersOf(Snapshot(), u)) ==> h !in sess && h !in seen
    {
      done := false;
      var hashes := MembersOf(Snapshot(), u);
      ghost var listed := hashes;
      assert forall h :: LiveSession(Snapshot(), h) && sess[h].user == u ==> Indexed(Snapshot(), h);
      while hashes != {}
        invariant Kept() && uses == old(uses)
        invariant forall h :: LiveSession(Snapshot(), h) && sess[h].user == u ==> h in hashes
        invariant forall h :: h in listed && h !in hashes ==> h !in sess && h !in seen
      {
        var h :| h in hashes;
        Pause();
        DelSessionKeeps(Snapshot(), h);
        Step(DelSession(Snapshot(), h));
        var stop: bool := *;
        if stop { return; }
        Pause();
        DelSeenKeeps(Snapshot(), h);
        Step(DelSeen(Snapshot(), h));
        hashes := hashes - {h};
        stop := *;
        if stop { return; }
      }
      Pause();
      DelIndexKeeps(Snapshot(), u);
      Step(DelIndex(Snapshot(), u));
      done := true;
    }

    /**
     Any history of the operations, up to the first creation that is not safe. As long as every creation
     began with an index that did not run out before it was over, and took at most the grace, both
     promises hold; every read that was not overtaken by the end of its session follows the exact clocks;
     and a session that was dead (revoked, expired or signed out) is never accepted again.
     */
    method Serve() returns (ghost log: seq<Event>)
      requires Valid()
      modifies this
      ensures AllSafe(log) ==> Valid()
      ensures ReadsFollowClocks(log)
      ensures old(used) <= used
      ensures forall h :: h in old(used) && LiveSession(Snapshot(), h) ==> old(LiveSession(Snapshot(), h))
    {
      log := [];
      var safe := true;
      var steps: nat := *;
      while safe && steps > 0
        invariant (safe ==> Valid()) && (safe <==> AllSafe(log)) && ReadsFollowClocks(log)
        invariant old(used) <= used && sess.Keys <= used
        invariant forall h :: h in old(used) && LiveSession(Snapshot(), h) ==> old(LiveSession(Snapshot(), h))
        decreases steps
      {
        var op: int, u: User, h: Hash := *, *, *;
        var before := Snapshot();
        if op == 0 {
          ghost var earlier := uses;
          var user, at, late := GetSessionUser(h);
          if LiveSession(before, h) && !late {
            ghost var created := before.seen[h].created;
            log := log + [ReadAt(at - LastUse(created, UsesOf(earlier, h)), at - created, user.Some?)];
          }
        } else if op == 1 {
          var done := DeleteSession(h);
        } else if op == 2 {
          var done := DeleteAllSessionsFor(u);
        } else if op == 3 {
          var user, at := PeekSessionUser(h);
          if LiveSession(before, h) && LiveSeen(Snapshot(), h) {
            ghost var created := before.seen[h].created;
            log := log + [ReadAt(at - LastUse(created, UsesOf(uses, h)), at - created, user.Some?)];
          }
        } else if h !in used {
          ghost var done, w := CreateSession(u, h);
          safe := SafeToCreate(before, u, now - before.now);
          OneMoreEvent(log, Created(before, u, now - before.now));
          log := log + [Created(before, u, now - before.now)];
        }
        steps := steps - 1;
      }
    }
  }
}
