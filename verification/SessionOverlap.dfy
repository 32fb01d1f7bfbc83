/**
 Sign-ins and revocations of one store that overlap, command by command. A sign-in lists its hash in
 the user's index (SADD) and later writes the session record (SET); a revocation reads the index
 (SMEMBERS), deletes the records it read one by one, and then deletes the index. Staff and customer
 sessions have this shape; expiry is left to their own modules.
 */
module SessionOverlap {

  type User = nat
  type Hash = nat
  type Pid = nat

  /** A revocation under way: the hashes it read and has not deleted yet. */
  datatype Revoke = Revoke(user: User, left: set<Hash>)

  datatype State = State(live: map<Hash, User>, index: map<User, set<Hash>>, used: set<Hash>,
                         signIns: map<Hash, User>, revokes: map<Pid, Revoke>)

  datatype Action =
    | Add(h: Hash, u: User)          // SADD
    | Put(h: Hash)                   // SET the session record
    | Abandon(h: Hash)               // a sign-in that stops in between
    | Members(p: Pid, user: User)    // SMEMBERS
    | DelOne(p: Pid, h: Hash)        // DEL one record
    | DelIndex(p: Pid)               // DEL the index
    | Quit(p: Pid)                   // a revocation that stops
    | SignOut(h: Hash)

  function IndexOf(s: State, u: User): set<Hash> { if u in s.index then s.index[u] else {} }

  predicate Enabled(s: State, a: Action) {
    match a
    case Add(h, _) => h !in s.used
    case Put(h) => h in s.signIns
    case Abandon(h) => h in s.signIns
    case Members(p, _) => p !in s.revokes
    case DelOne(p, h) => p in s.revokes && h in s.revokes[p].left
    case DelIndex(p) => p in s.revokes && s.revokes[p].left == {}
    case Quit(p) => p in s.revokes
    case SignOut(_) => true
  }

  function Apply(s: State, a: Action): State
    requires Enabled(s, a)
  {
    match a
    case Add(h, u) => s.(index := s.index[u := IndexOf(s, u) + {h}], used := s.used + {h}, signIns := s.signIns[h := u])
    case Put(h) => s.(live := s.live[h := s.signIns[h]], signIns := s.signIns - {h})
    case Abandon(h) => s.(signIns := s.signIns - {h})
    case Members(p, u) => s.(revokes := s.revokes[p := Revoke(u, IndexOf(s, u))])
    case DelOne(p, h) =>
      var r := s.revokes[p];
      s.(live := s.live - {h}, revokes := s.revokes[p := r.(left := r.left - {h})])
    case DelIndex(p) => s.(index := s.index - {s.revokes[p].user}, revokes := s.revokes - {p})
    case Quit(p) => s.(revokes := s.revokes - {p})
    case SignOut(h) => s.(live := s.live - {h})
  }

  ghost predicate Runs(s: State, actions: seq<Action>)
    decreases |actions|
  {
    actions == [] || (Enabled(s, actions[0]) && Runs(Apply(s, actions[0]), actions[1..]))
  }

  ghost function Exec(s: State, actions: seq<Action>): State
    requires Runs(s, actions)
    decreases |actions|
  {
    if actions == [] then s else Exec(Apply(s, actions[0]), actions[1..])
  }

  /** A revocation finds every live session. */
  ghost predicate AllListed(s: State) {
    forall h :: h in s.live ==> h in IndexOf(s, s.live[h])
  }

  /** A sign-out ends its session, a revocation with nothing left empties the index and is over, and one that stops is over. */
  lemma EndsExactly(s: State, h: Hash, p: Pid)
    ensures h !in Apply(s, SignOut(h)).live
    ensures forall g :: g != h ==> (g in Apply(s, SignOut(h)).live <==> g in s.live)
    ensures Enabled(s, Abandon(h)) ==> h !in Apply(s, Abandon(h)).signIns && Apply(s, Abandon(h)).live == s.live
    ensures Enabled(s, Quit(p)) ==> p !in Apply(s, Quit(p)).revokes && Apply(s, Quit(p)).index == s.index
    ensures Enabled(s, DelIndex(p)) ==>
              p !in Apply(s, DelIndex(p)).revokes && IndexOf(Apply(s, DelIndex(p)), s.revokes[p].user) == {}
  {
  }

  // ---- The steps that hide a session ----

  /** A record is written after its index was deleted, or an index is deleted with a session that came after it was read. */
  ghost predicate Hides(s: State, a: Action) {
    match a
    case Put(h) => h in s.signIns && h !in IndexOf(s, s.signIns[h])
    case DelIndex(p) => p in s.revokes && exists h :: h in s.live && s.live[h] == s.revokes[p].user
    case _ => false
  }

  /** Sign-ins, sessions and what is listed name hashes that were used. */
  ghost predicate Known(s: State) {
    && s.live.Keys <= s.used && s.signIns.Keys <= s.used && s.live.Keys !! s.signIns.Keys
    && (forall u, h :: u in s.index && h in s.index[u] ==> h in s.used)
    && (forall p :: p in s.revokes ==> s.revokes[p].left <= s.used)
  }

  lemma StepKeepsKnown(s: State, a: Action)
    requires Known(s) && Enabled(s, a)
    ensures Known(Apply(s, a))
  {
  }

  lemma HidesExactly(s: State, a: Action)
    requires AllListed(s) && Known(s) && Enabled(s, a)
    ensures AllListed(Apply(s, a)) <==> !Hides(s, a)
  {
    var t := Apply(s, a);
    match a
    case Put(h) =>
      assert h in t.live;
      assert forall g :: g in t.live && g != h ==> g in s.live && t.live[g] == s.live[g];
    case DelIndex(p) =>
      var u := s.revokes[p].user;
      assert IndexOf(t, u) == {} && forall v :: v != u ==> IndexOf(t, v) == IndexOf(s, v);
      if Hides(s, a) {
        var h :| h in s.live && s.live[h] == u;
        assert h in t.live;
      }
    case _ =>
  }

  ghost predicate ListedThroughout(s: State, actions: seq<Action>)
    requires Runs(s, actions)
    decreases |actions|
  {
    AllListed(s) && (actions != [] ==> ListedThroughout(Apply(s, actions[0]), actions[1..]))
  }

  ghost predicate NothingHides(s: State, actions: seq<Action>)
    requires Runs(s, actions)
    decreases |actions|
  {
    actions != [] ==> !Hides(s, actions[0]) && NothingHides(Apply(s, actions[0]), actions[1..])
  }

  /** Over any run, every live session is listed at every point exactly when no step hides one. */
  lemma {:induction false} ListedExactly(s: State, actions: seq<Action>)
    requires AllListed(s) && Known(s) && Runs(s, actions)
    ensures ListedThroughout(s, actions) <==> NothingHides(s, actions)
    decreases |actions|
  {
    if actions != [] {
      HidesExactly(s, actions[0]);
      StepKeepsKnown(s, actions[0]);
      if AllListed(Apply(s, actions[0])) { ListedExactly(Apply(s, actions[0]), actions[1..]); }
    }
  }

  // ---- Operations that do not overlap hide nothing ----

  /** No sign-in and revocation of one user are both under way. */
  ghost predicate Apart(s: State) {
    forall h, p :: h in s.signIns && p in s.revokes ==> s.signIns[h] != s.revokes[p].user
  }

  ghost predicate ApartThroughout(s: State, actions: seq<Action>)
    requires Runs(s, actions)
    decreases |actions|
  {
    Apart(s) && (actions != [] ==> ApartThroughout(Apply(s, actions[0]), actions[1..]))
  }

  /** A sign-in under way is listed, and a revocation has still to delete every live session of its user. */
  ghost predicate Sound(s: State) {
    && Known(s) && AllListed(s)
    && (forall h :: h in s.signIns ==> h in IndexOf(s, s.signIns[h]))
    && (forall p, h :: p in s.revokes && h in s.live && s.live[h] == s.revokes[p].user ==> h in s.revokes[p].left)
  }

  lemma ApartStepHidesNothing(s: State, a: Action)
    requires Sound(s) && Apart(s) && Enabled(s, a)
    ensures !Hides(s, a) && AllListed(Apply(s, a))
  {
    HidesExactly(s, a);
  }

  lemma ApartStepIsSound(s: State, a: Action)
    requires Sound(s) && Apart(s) && Enabled(s, a)
    ensures Sound(Apply(s, a))
  {
    var t := Apply(s, a);
    StepKeepsKnown(s, a);
    ApartStepHidesNothing(s, a);
    forall h | h in t.signIns
      ensures h in IndexOf(t, t.signIns[h])
    {
      assert !a.Add? ==> h in s.signIns && t.signIns[h] == s.signIns[h];
    }
    forall p, h | p in t.revokes && h in t.live && t.live[h] == t.revokes[p].user
      ensures h in t.revokes[p].left
    {
      assert !a.Put? ==> h in s.live && t.live[h] == s.live[h];
    }
  }

  /** Every live session is listed throughout, and a revocation leaves none of its user, as long as no two overlap. */
  lemma {:induction false} ApartKeepsListed(s: State, actions: seq<Action>)
    requires Sound(s) && Runs(s, actions) && ApartThroughout(s, actions)
    ensures ListedThroughout(s, actions) && Sound(Exec(s, actions))
    decreases |actions|
  {
    if actions != [] {
      ApartStepIsSound(s, actions[0]);
      ApartKeepsListed(Apply(s, actions[0]), actions[1..]);
    }
  }

  /** And then no live session of the user is left when its index is deleted. */
  lemma ApartRevokeIsComplete(s: State, p: Pid)
    requires Sound(s) && Apart(s) && Enabled(s, DelIndex(p))
    ensures forall h :: h in Apply(s, DelIndex(p)).live ==> s.live[h] != s.revokes[p].user
  {
  }

  // ---- One overlap is enough ----

  /** SADD, SMEMBERS, DEL of a record not there yet, DEL of the index, SET: a live session in no index. */
  lemma OverlapHidesASession(u: User, h: Hash, p: Pid)
    ensures var s := State(map[], map[], {}, map[], map[]);
            var run := [Add(h, u), Members(p, u), DelOne(p, h), DelIndex(p), Put(h)];
            Sound(s) && Runs(s, run) && h in Exec(s, run).live && h !in IndexOf(Exec(s, run), u)
  {
    var s := State(map[], map[], {}, map[], map[]);
    var s1 := Apply(s, Add(h, u));
    var s2 := Apply(s1, Members(p, u));
    var s3 := Apply(s2, DelOne(p, h));
    var s4 := Apply(s3, DelIndex(p));
    var s5 := Apply(s4, Put(h));
    RunFrom(s4, Put(h), []);
    RunFrom(s3, DelIndex(p), [Put(h)]);
    RunFrom(s2, DelOne(p, h), [DelIndex(p), Put(h)]);
    RunFrom(s1, Members(p, u), [DelOne(p, h), DelIndex(p), Put(h)]);
    RunFrom(s, Add(h, u), [Members(p, u), DelOne(p, h), DelIndex(p), Put(h)]);
  }

  lemma RunFrom(s: State, a: Action, rest: seq<Action>)
    requires Enabled(s, a) && Runs(Apply(s, a), rest)
    ensures Runs(s, [a] + rest) && Exec(s, [a] + rest) == Exec(Apply(s, a), rest)
  {
    assert ([a] + rest)[1..] == rest;
  }
}
