/**
 Claim-first minting: bind an idempotency key to a fresh id, then mint that id. Any number of cron
 runs, bill payments and nudges go on at once, one store call at a time, and any of them may stop
 after any call (it then takes no further step).
 */
module ClaimFirst {

  import opened Wrappers

  type Pid = nat
  type Id = nat

  /** sched:<schedule>:<Eastern day>, b2binvoice:<invoice>, and the day's nudge markers of a schedule. */
  datatype Key = Sched(schedule: nat, day: int) | Bill(invoice: nat) | Nudge(schedule: nat, day: int, kind: nat)

  datatype Status = Awaiting | Blocked | Settled

  /** A ledger row: the claim it was minted for, and whether its sender was charged. */
  datatype Row = Row(key: Key, status: Status, charged: bool)

  /** Inactive: the schedule was paused between the last look at it and the mint. */
  datatype Outcome = Ok(blocked: bool) | Busy | Refused | Inactive

  datatype Proc =
    | Claimed(key: Key, id: Id, mine: bool)
    | Minting(key: Key, id: Id, retried: bool)
    | Sending(key: Key, id: Id, payable: bool)
    | Marking(key: Key, id: Id)
    | Done(key: Key, id: Id)
    | Nudging(key: Key, id: Id)
    | Ended

  /** links: the pay links sent; marked: the schedule days recorded as run; nudged: the nudges sent. */
  datatype State = State(idem: map<Key, Id>, rows: map<Id, Row>, used: set<Id>,
                         links: set<(Key, Id)>, marked: set<Key>, nudged: multiset<Key>, procs: map<Pid, Proc>)

  datatype Action =
    | Claim(p: Pid, key: Key, candidate: Id)
    | FindBill(p: Pid, key: Key)              // a bill that is no longer unpaid
    | Lookup(p: Pid)
    | Mint(p: Pid, outcome: Outcome)
    | SendLink(p: Pid)
    | SkipLink(p: Pid)
    | MarkRun(p: Pid)
    | SendNudge(p: Pid)
    | Quit(p: Pid)
    | RowMoves(moved: Id, status: Status, charged: bool)

  predicate Enabled(s: State, a: Action) {
    match a
    case Claim(p, _, candidate) => p !in s.procs && candidate !in s.used
    case FindBill(p, key) => p !in s.procs && key.Bill?
    case Lookup(p) => p in s.procs && s.procs[p].Claimed? && !s.procs[p].key.Nudge?
    case Mint(p, _) => p in s.procs && s.procs[p].Minting?
    case SendLink(p) => p in s.procs && s.procs[p].Sending? && s.procs[p].payable
    case SkipLink(p) => p in s.procs && s.procs[p].Sending? && !s.procs[p].payable
    case MarkRun(p) => p in s.procs && s.procs[p].Marking?
    case SendNudge(p) => p in s.procs && s.procs[p].Nudging?
    case Quit(p) => p in s.procs
    case RowMoves(id, _, _) => id in s.rows
  }

  function Bound(s: State, key: Key, candidate: Id): Id { if key in s.idem then s.idem[key] else candidate }

  /** What a schedule's run does with the row it found or minted; a bill's payment is done. */
  function Proceed(key: Key, id: Id, payable: bool): Proc {
    if key.Sched? then Sending(key, id, payable) else Done(key, id)
  }

  /** The winner of a nudge key sends; any other claimer of it stops. */
  function AfterClaim(key: Key, id: Id, mine: bool): Proc {
    if !key.Nudge? then Claimed(key, id, mine) else if mine then Nudging(key, id) else Ended
  }

  function AfterLookup(s: State, w: Proc): Proc
    requires w.Claimed?
  {
    if !w.mine && w.id in s.rows
    then Proceed(w.key, w.id, s.rows[w.id].status == Awaiting && !s.rows[w.id].charged)
    else Minting(w.key, w.id, false)
  }

  /** createTransfer: the row of an id that exists is returned as it is. */
  function AfterMint(s: State, w: Proc, outcome: Outcome): (State, Proc)
    requires w.Minting?
  {
    match outcome
    case Busy => (s, if w.key.Sched? && !w.retried then w.(retried := true) else Ended)
    case Refused => (s, Ended)
    case Inactive => (s, Ended)
    case Ok(blocked) =>
      if w.id in s.rows then (s, Proceed(w.key, w.id, s.rows[w.id].status == Awaiting))
      else (s.(rows := s.rows[w.id := Row(w.key, if blocked then Blocked else Awaiting, false)]),
            Proceed(w.key, w.id, !blocked))
  }

  function At(s: State, p: Pid, w: Proc): State { s.(procs := s.procs[p := w]) }

  function Apply(s: State, a: Action): State
    requires Enabled(s, a)
  {
    match a
    case Claim(p, key, candidate) =>
      var id := Bound(s, key, candidate);
      At(s.(idem := s.idem[key := id], used := s.used + {candidate}), p, AfterClaim(key, id, id == candidate))
    case FindBill(p, key) =>
      At(s, p, if key in s.idem && s.idem[key] in s.rows then Done(key, s.idem[key]) else Ended)
    case Lookup(p) => At(s, p, AfterLookup(s, s.procs[p]))
    case Mint(p, outcome) => var t := AfterMint(s, s.procs[p], outcome); At(t.0, p, t.1)
    case SendLink(p) =>
      var w := s.procs[p];
      At(s.(links := s.links + {(w.key, w.id)}), p, Marking(w.key, w.id))
    case SkipLink(p) => At(s, p, Marking(s.procs[p].key, s.procs[p].id))
    case MarkRun(p) =>
      var w := s.procs[p];
      At(s.(marked := s.marked + {w.key}), p, Done(w.key, w.id))
    case SendNudge(p) => At(s.(nudged := s.nudged + multiset{s.procs[p].key}), p, Ended)
    case Quit(p) => At(s, p, Ended)
    case RowMoves(id, status, charged) => s.(rows := s.rows[id := s.rows[id].(status := status, charged := charged)])
  }

  ghost predicate Runs(s: State, actions: seq<Action>)
    decreases |actions|
  {
    actions == [] || (Enabled(s, actions[0]) && Runs(Apply(s, actions[0]), actions[1..]))
  }

  ghost function Exec(s: State, actions: seq<Action>): State
    requires Runs(s, actions)
    decreases |actions|
  {
    if actions == [] then s else Exec(Apply(s, actions[0]), actions[1..])
  }

  // ---- What every interleaving keeps ----

  ghost predicate Binds(s: State, key: Key, id: Id) { key in s.idem && s.idem[key] == id }

  /** A key is bound to one id for good, and no two keys share one. */
  ghost predicate ClaimsSound(s: State) {
    && (forall k :: k in s.idem ==> s.idem[k] in s.used)
    && (forall k, j :: k in s.idem && j in s.idem && s.idem[k] == s.idem[j] ==> k == j)
  }

  /** Every row was minted for the key bound to its id. */
  ghost predicate RowsSound(s: State) {
    forall id :: id in s.rows ==> Binds(s, s.rows[id].key, id)
  }

  ghost predicate ProcSound(s: State, w: Proc) {
    match w
    case Ended => true
    case Nudging(key, id) => key.Nudge? && Binds(s, key, id) && key !in s.nudged
    case Claimed(key, id, _) => Binds(s, key, id)
    case Minting(key, id, _) => Binds(s, key, id)
    case Sending(key, id, _) => key.Sched? && Binds(s, key, id) && id in s.rows
    case Marking(key, id) => key.Sched? && Binds(s, key, id) && id in s.rows
    case Done(key, id) => Binds(s, key, id) && id in s.rows
  }

  /** What was sent or recorded names a row that exists. */
  ghost predicate OutputsSound(s: State) {
    && (forall l :: l in s.links ==> Binds(s, l.0, l.1) && l.1 in s.rows)
    && (forall k :: k in s.marked ==> k in s.idem && s.idem[k] in s.rows)
  }

  ghost predicate NudgesSound(s: State) {
    forall k :: s.nudged[k] <= 1 && (k in s.nudged ==> k in s.idem)
  }

  ghost predicate NudgersAlone(s: State) {
    forall p, q ::
      (p in s.procs && q in s.procs && s.procs[p].Nudging? && s.procs[q].Nudging? && s.procs[p].key == s.procs[q].key)
      ==> p == q
  }

  ghost predicate Inv(s: State) {
    && ClaimsSound(s) && RowsSound(s) && OutputsSound(s) && NudgesSound(s) && NudgersAlone(s)
    && forall p :: p in s.procs ==> ProcSound(s, s.procs[p])
  }

  /** The stores only grow: claims are permanent and rows are not deleted. */
  ghost predicate Grows(s: State, t: State) {
    && (forall k :: k in s.idem ==> k in t.idem && t.idem[k] == s.idem[k])
    && (forall id :: id in s.rows ==> id in t.rows && t.rows[id].key == s.rows[id].key)
    && s.links <= t.links && s.marked <= t.marked
  }

  lemma StepGrows(s: State, a: Action)
    requires Enabled(s, a)
    ensures Grows(s, Apply(s, a))
  {
  }

  function CallerOf(a: Action): set<Pid> { if a.RowMoves? then {} else {a.p} }

  lemma OthersLeaveMine(s: State, a: Action, me: Pid)
    requires Enabled(s, a) && me !in CallerOf(a)
    ensures me in Apply(s, a).procs <==> me in s.procs
    ensures me in s.procs ==> Apply(s, a).procs[me] == s.procs[me]
  {
  }

  /** The caller taking the step was sound before it. */
  ghost predicate CallerSound(s: State, a: Action) {
    !a.RowMoves? && a.p in s.procs ==> ProcSound(s, s.procs[a.p])
  }

  lemma StepKeepsClaims(s: State, a: Action)
    requires ClaimsSound(s) && Enabled(s, a)
    ensures ClaimsSound(Apply(s, a))
  {
  }

  lemma StepKeepsRows(s: State, a: Action)
    requires RowsSound(s) && CallerSound(s, a) && Enabled(s, a)
    ensures RowsSound(Apply(s, a))
  {
  }

  lemma StepKeepsOutputs(s: State, a: Action)
    requires OutputsSound(s) && CallerSound(s, a) && Enabled(s, a)
    ensures OutputsSound(Apply(s, a))
  {
    StepGrows(s, a);
  }

  lemma StepKeepsNudges(s: State, a: Action)
    requires NudgesSound(s) && CallerSound(s, a) && Enabled(s, a)
    ensures NudgesSound(Apply(s, a))
  {
  }

  lemma ClaimIsSound(s: State, a: Action)
    requires Enabled(s, a) && a.Claim? && NudgesSound(s)
    requires forall k :: k in s.idem ==> s.idem[k] in s.used
    ensures ProcSound(Apply(s, a), Apply(s, a).procs[a.p])
  {
    assert a.key in s.idem ==> s.idem[a.key] != a.candidate;
  }

  lemma StepKeepsCaller(s: State, a: Action)
    requires CallerSound(s, a) && Enabled(s, a) && !a.RowMoves? && !a.Claim?
    ensures ProcSound(Apply(s, a), Apply(s, a).procs[a.p])
  {
    StepGrows(s, a);
  }

  lemma StepKeepsOthers(s: State, a: Action, w: Proc)
    requires Enabled(s, a) && ProcSound(s, w)
    requires a.SendNudge? && w.Nudging? ==> s.procs[a.p].key != w.key
    ensures ProcSound(Apply(s, a), w)
  {
    StepGrows(s, a);
  }

  /** A process about to nudge was so before, or has just won a key nobody had claimed. */
  lemma NudgerComesFrom(s: State, a: Action, p: Pid)
    requires Enabled(s, a) && p in Apply(s, a).procs && Apply(s, a).procs[p].Nudging?
    requires forall k :: k in s.idem ==> s.idem[k] in s.used
    ensures var w := Apply(s, a).procs[p];
            if a.Claim? && a.p == p then w.key == a.key && a.key !in s.idem
            else p in s.procs && s.procs[p] == w
  {
  }

  lemma StepKeepsAlone(s: State, a: Action)
    requires Inv(s) && Enabled(s, a)
    ensures NudgersAlone(Apply(s, a))
  {
    var procs := Apply(s, a).procs;
    forall p, q | p in procs && q in procs && procs[p].Nudging? && procs[q].Nudging? && procs[p].key == procs[q].key
      ensures p == q
    {
      NudgersApart(s, a, p, q);
    }
  }

  lemma NudgersApart(s: State, a: Action, p: Pid, q: Pid)
    requires Inv(s) && Enabled(s, a)
    requires p in Apply(s, a).procs && q in Apply(s, a).procs
    requires Apply(s, a).procs[p].Nudging? && Apply(s, a).procs[q].Nudging?
    requires Apply(s, a).procs[p].key == Apply(s, a).procs[q].key
    ensures p == q
  {
    NudgerComesFrom(s, a, p);
    NudgerComesFrom(s, a, q);
    assert p in s.procs ==> ProcSound(s, s.procs[p]);
    assert q in s.procs ==> ProcSound(s, s.procs[q]);
  }

  lemma StepKeepsProcs(s: State, a: Action, q: Pid)
    requires Inv(s) && Enabled(s, a) && q in Apply(s, a).procs
    ensures ProcSound(Apply(s, a), Apply(s, a).procs[q])
  {
    if q in CallerOf(a) {
      if a.Claim? { ClaimIsSound(s, a); } else { StepKeepsCaller(s, a); }
    } else {
      OthersLeaveMine(s, a, q);
      StepKeepsOthers(s, a, s.procs[q]);
    }
  }

  lemma StepKeepsInv(s: State, a: Action)
    requires Inv(s) && Enabled(s, a)
    ensures Inv(Apply(s, a))
  {
    var t := Apply(s, a);
    StepKeepsClaims(s, a);
    StepKeepsRows(s, a);
    StepKeepsOutputs(s, a);
    StepKeepsNudges(s, a);
    StepKeepsAlone(s, a);
    forall q | q in t.procs
      ensures ProcSound(t, t.procs[q])
    {
      StepKeepsProcs(s, a, q);
    }
  }

  lemma {:induction false} RunKeepsInv(s: State, actions: seq<Action>)
    requires Inv(s) && Runs(s, actions)
    ensures Inv(Exec(s, actions)) && Grows(s, Exec(s, actions))
    decreases |actions|
  {
    if actions != [] {
      StepKeepsInv(s, actions[0]);
      StepGrows(s, actions[0]);
      RunKeepsInv(Apply(s, actions[0]), actions[1..]);
    }
  }

  /** Nothing is in flight; the stores are as any earlier runs left them. */
  ghost predicate Start(s: State) { Inv(s) && s.procs == map[] }

  /**
   However the calls interleave and wherever any of them stops: one row per schedule day or bill at
   most, every link and every recorded day has that row, every finished payment of a bill names it,
   and each nudge goes out at most once.
   */
  lemma OneTransferPerClaim(s: State, actions: seq<Action>)
    requires Start(s) && Runs(s, actions)
    ensures var e := Exec(s, actions);
            && (forall i, j :: i in e.rows && j in e.rows && e.rows[i].key == e.rows[j].key ==> i == j)
            && (forall l :: l in e.links ==> l.1 in e.rows && e.rows[l.1].key == l.0)
            && (forall k :: k in e.marked ==> exists i :: i in e.rows && e.rows[i].key == k)
            && (forall p :: p in e.procs && e.procs[p].Done? ==>
                 e.procs[p].id in e.rows && e.rows[e.procs[p].id].key == e.procs[p].key)
            && (forall k :: e.nudged[k] <= 1)
  {
    RunKeepsInv(s, actions);
    var e := Exec(s, actions);
    forall k | k in e.marked
      ensures exists i :: i in e.rows && e.rows[i].key == k
    {
      assert Binds(e, e.rows[e.idem[k]].key, e.idem[k]);
    }
    forall p | p in e.procs && e.procs[p].Done?
      ensures e.procs[p].id in e.rows && e.rows[e.procs[p].id].key == e.procs[p].key
    {
      assert ProcSound(e, e.procs[p]);
    }
  }

  /** A day is recorded as run, and a link is sent, only when the row it stands for is already in the ledger. */
  lemma RowBeforeRecord(s: State, actions: seq<Action>, p: Pid)
    requires Start(s) && Runs(s, actions)
    requires p in Exec(s, actions).procs && (Exec(s, actions).procs[p].Marking? || Exec(s, actions).procs[p].Sending?)
    ensures var e := Exec(s, actions);
            e.procs[p].id in e.rows && e.rows[e.procs[p].id].key == e.procs[p].key
  {
    RunKeepsInv(s, actions);
    var e := Exec(s, actions);
    assert ProcSound(e, e.procs[p]);
  }

  // ---- Which rows get a link ----

  /** A lookup or a mint decides to send the link exactly when the row awaits payment, a lookup also that it is not charged. */
  lemma PayableExactly(s: State, a: Action)
    requires Enabled(s, a) && (a.Lookup? || a.Mint?) && Apply(s, a).procs[a.p].Sending?
    ensures var t := Apply(s, a);
            var w := t.procs[a.p];
            && w.id in t.rows
            && (w.payable <==> t.rows[w.id].status == Awaiting && (a.Lookup? ==> !t.rows[w.id].charged))
  {
  }

  /** Every caller past the decision on the row of `key` decided as that row stands. */
  ghost predicate DecidedAsItStands(s: State, key: Key, id: Id) {
    && (id in s.rows ==> !s.rows[id].charged)
    && forall p :: p in s.procs && (s.procs[p].Sending? || s.procs[p].Marking?) && s.procs[p].id == id ==>
         && s.procs[p].key == key && id in s.rows
         && (s.procs[p].Sending? ==> (s.procs[p].payable <==> s.rows[id].status == Awaiting))
         && (s.procs[p].Marking? ==> ((key, id) in s.links <==> s.rows[id].status == Awaiting))
  }

  /** The link of the row is out only if it awaits payment, and once its day is recorded exactly then. */
  ghost predicate LinkFollowsRow(s: State, key: Key, id: Id) {
    && DecidedAsItStands(s, key, id)
    && ((key, id) in s.links ==> id in s.rows && s.rows[id].status == Awaiting)
    && (key in s.marked && Binds(s, key, id) ==> id in s.rows && ((key, id) in s.links <==> s.rows[id].status == Awaiting))
  }

  predicate Moves(a: Action, id: Id) { a.RowMoves? && a.moved == id }

  lemma CallerOfIdHasKey(s: State, key: Key, id: Id, w: Proc)
    requires ClaimsSound(s) && Binds(s, key, id) && ProcSound(s, w) && !w.Ended? && w.id == id
    ensures w.key == key
  {
  }

  /** What a caller decides is as the row stands then. */
  lemma CallerDecides(s: State, a: Action, key: Key, id: Id)
    requires DecidedAsItStands(s, key, id) && Enabled(s, a) && !a.RowMoves? && CallerSound(s, a)
    requires (key, id) in s.links ==> id in s.rows && s.rows[id].status == Awaiting
    requires var w := Apply(s, a).procs[a.p]; (w.Sending? || w.Marking?) && w.id == id && w.key == key
    ensures var t := Apply(s, a);
            var w := t.procs[a.p];
            && id in t.rows
            && (w.Sending? ==> (w.payable <==> t.rows[id].status == Awaiting))
            && (w.Marking? ==> ((key, id) in t.links <==> t.rows[id].status == Awaiting))
  {
    if a.Lookup? || a.Mint? { PayableExactly(s, a); }
  }

  lemma ProcDecided(s: State, a: Action, key: Key, id: Id, p: Pid)
    requires DecidedAsItStands(s, key, id) && Enabled(s, a) && !Moves(a, id) && CallerSound(s, a)
    requires (key, id) in s.links ==> id in s.rows && s.rows[id].status == Awaiting
    requires var t := Apply(s, a);
             p in t.procs && (t.procs[p].Sending? || t.procs[p].Marking?) && t.procs[p].id == id && t.procs[p].key == key
    ensures var t := Apply(s, a);
            && id in t.rows
            && (t.procs[p].Sending? ==> (t.procs[p].payable <==> t.rows[id].status == Awaiting))
            && (t.procs[p].Marking? ==> ((key, id) in t.links <==> t.rows[id].status == Awaiting))
  {
    if p in CallerOf(a) {
      CallerDecides(s, a, key, id);
    } else {
      OthersLeaveMine(s, a, p);
      RowStands(s, a, id);
      LinksStand(s, a, key, id);
    }
    hide Apply, Enabled, CallerSound;
  }

  lemma StepKeepsDecided(s: State, a: Action, key: Key, id: Id)
    requires Inv(s) && Binds(s, key, id) && LinkFollowsRow(s, key, id) && Enabled(s, a) && !Moves(a, id)
    ensures DecidedAsItStands(Apply(s, a), key, id)
  {
    hide Apply, Inv, Grows, Enabled, ProcSound, ClaimsSound, Binds, CallerSound;
    var t := Apply(s, a);
    StepKeepsInv(s, a);
    StepGrows(s, a);
    RowStands(s, a, id);
    CallerIsSound(s, a);
    SoundParts(t);
    BindsStays(s, t, key, id);
    forall p | p in t.procs && (t.procs[p].Sending? || t.procs[p].Marking?) && t.procs[p].id == id
      ensures t.procs[p].key == key && id in t.rows
      ensures t.procs[p].Sending? ==> (t.procs[p].payable <==> t.rows[id].status == Awaiting)
      ensures t.procs[p].Marking? ==> ((key, id) in t.links <==> t.rows[id].status == Awaiting)
    {
      CallerOfIdHasKey(t, key, id, t.procs[p]);
      ProcDecided(s, a, key, id, p);
    }
  }

  lemma CallerIsSound(s: State, a: Action)
    requires Inv(s)
    ensures CallerSound(s, a)
  {
  }

  lemma SoundParts(s: State)
    requires Inv(s)
    ensures ClaimsSound(s) && forall p :: p in s.procs ==> ProcSound(s, s.procs[p])
  {
  }

  lemma BindsStays(s: State, t: State, key: Key, id: Id)
    requires Grows(s, t) && Binds(s, key, id)
    ensures Binds(t, key, id)
  {
  }

  /** A row that does not move stands as it is; a new one is not charged. */
  lemma RowStands(s: State, a: Action, id: Id)
    requires Enabled(s, a) && !Moves(a, id)
    ensures var t := Apply(s, a);
            if id in s.rows then id in t.rows && t.rows[id] == s.rows[id] else id in t.rows ==> !t.rows[id].charged
  {
  }

  /** Another caller's step sends the link of the row only as the row stands. */
  lemma LinksStand(s: State, a: Action, key: Key, id: Id)
    requires Enabled(s, a) && DecidedAsItStands(s, key, id) && ((key, id) in s.links ==> id in s.rows && s.rows[id].status == Awaiting)
    ensures (key, id) in s.links ==> (key, id) in Apply(s, a).links
    ensures (key, id) in Apply(s, a).links ==> id in s.rows && s.rows[id].status == Awaiting
  {
  }

  lemma StepKeepsLink(s: State, a: Action, key: Key, id: Id)
    requires Inv(s) && Binds(s, key, id) && LinkFollowsRow(s, key, id) && Enabled(s, a) && !Moves(a, id)
    ensures LinkFollowsRow(Apply(s, a), key, id) && Binds(Apply(s, a), key, id)
  {
    StepKeepsDecided(s, a, key, id);
    StepGrows(s, a);
    RowStands(s, a, id);
    LinksStand(s, a, key, id);
    if key !in s.marked && key in Apply(s, a).marked { MarkStands(s, a, key, id); }
    hide Apply, Inv, DecidedAsItStands;
  }

  /** A day is recorded by a caller that has dealt with the link. */
  lemma MarkStands(s: State, a: Action, key: Key, id: Id)
    requires Inv(s) && Binds(s, key, id) && Enabled(s, a) && DecidedAsItStands(s, key, id)
    requires key !in s.marked && key in Apply(s, a).marked
    ensures id in s.rows && Apply(s, a).links == s.links && ((key, id) in s.links <==> s.rows[id].status == Awaiting)
  {
    assert ProcSound(s, s.procs[a.p]);
  }

  /** A claim binds an id that nothing has used yet. */
  lemma ClaimStartsClean(s: State, a: Action, key: Key, id: Id)
    requires Inv(s) && key !in s.idem && Enabled(s, a) && Binds(Apply(s, a), key, id)
    ensures LinkFollowsRow(Apply(s, a), key, id)
  {
    var t := Apply(s, a);
    assert a.Claim? && a.candidate == id && id !in s.used;
    forall k | k in s.idem
      ensures s.idem[k] != id
    {
    }
    assert id !in s.rows;
    forall p | p in s.procs && (s.procs[p].Sending? || s.procs[p].Marking?)
      ensures s.procs[p].id != id
    {
      assert ProcSound(s, s.procs[p]);
    }
  }

  lemma {:induction false} RunKeepsLink(s: State, actions: seq<Action>, key: Key, id: Id)
    requires Inv(s) && Runs(s, actions) && Binds(Exec(s, actions), key, id)
    requires Binds(s, key, id) ==> LinkFollowsRow(s, key, id)
    requires forall a :: a in actions ==> !Moves(a, id)
    ensures LinkFollowsRow(Exec(s, actions), key, id)
    decreases |actions|
  {
    hide LinkFollowsRow;
    if actions != [] {
      var t := Apply(s, actions[0]);
      StepKeepsInv(s, actions[0]);
      RunKeepsInv(t, actions[1..]);
      if Binds(s, key, id) {
        StepKeepsLink(s, actions[0], key, id);
      } else if Binds(t, key, id) {
        StepGrows(s, actions[0]);
        ClaimStartsClean(s, actions[0], key, id);
      }
      RunKeepsLink(t, actions[1..], key, id);
    }
  }

  /**
   A schedule day first claimed in this run, whatever interleaves: if its row did not move after the
   mint, its link is out only when the row awaits payment, and once the day is recorded exactly then.
   */
  lemma LinkExactlyWhenPayable(s: State, actions: seq<Action>, key: Key, id: Id)
    requires Start(s) && Runs(s, actions) && key !in s.idem && Binds(Exec(s, actions), key, id)
    requires forall a :: a in actions ==> !Moves(a, id)
    ensures var e := Exec(s, actions);
            && ((key, id) in e.links ==> id in e.rows && e.rows[id].status == Awaiting)
            && (key in e.marked ==> id in e.rows && ((key, id) in e.links <==> e.rows[id].status == Awaiting))
  {
    RunKeepsLink(s, actions, key, id);
  }

  /** The first caller of a key gets its own candidate, and any later one the id bound then. */
  lemma FirstClaimWins(s: State, p: Pid, key: Key, candidate: Id)
    requires ClaimsSound(s) && Enabled(s, Claim(p, key, candidate))
    ensures var t := Apply(s, Claim(p, key, candidate));
            && Binds(t, key, if key in s.idem then s.idem[key] else candidate)
            && (key.Nudge? ==> if key in s.idem then t.procs[p].Ended? else t.procs[p].Nudging?)
            && (!key.Nudge? ==> t.procs[p] == Claimed(key, t.idem[key], key !in s.idem))
  {
  }

  /** A later run of a day finds the row of the first one if it is there, and mints that id otherwise; the first one mints. */
  lemma LookupExactly(s: State, p: Pid)
    requires Enabled(s, Lookup(p)) && s.procs[p].key.Sched?
    ensures var w, t := s.procs[p], Apply(s, Lookup(p));
            if w.mine || w.id !in s.rows then t.procs[p] == Minting(w.key, w.id, false)
            else t.procs[p] == Sending(w.key, w.id, s.rows[w.id].status == Awaiting && !s.rows[w.id].charged)
  {
  }

  /** With no failure and nothing in between, a schedule day not claimed before is minted, linked and recorded. */
  lemma LoneScheduleFires(s: State, p: Pid, key: Key, id: Id)
    requires key.Sched? && key !in s.idem && id !in s.used && id !in s.rows && p !in s.procs
    ensures var run := [Claim(p, key, id), Lookup(p), Mint(p, Ok(false)), SendLink(p), MarkRun(p)];
            && Runs(s, run)
            && var e := Exec(s, run);
               e.rows == s.rows[id := Row(key, Awaiting, false)] && (key, id) in e.links && key in e.marked
  {
    var s1 := Apply(s, Claim(p, key, id));
    var s2 := Apply(s1, Lookup(p));
    assert s2.procs[p] == Minting(key, id, false) && s2.rows == s.rows;
    var s3 := Apply(s2, Mint(p, Ok(false)));
    assert s3.procs[p] == Sending(key, id, true) && s3.rows == s.rows[id := Row(key, Awaiting, false)];
    var s4 := Apply(s3, SendLink(p));
    assert s4.procs[p] == Marking(key, id) && s4.rows == s3.rows;
    RunFrom(s4, MarkRun(p), []);
    RunFrom(s3, SendLink(p), [MarkRun(p)]);
    RunFrom(s2, Mint(p, Ok(false)), [SendLink(p), MarkRun(p)]);
    RunFrom(s1, Lookup(p), [Mint(p, Ok(false)), SendLink(p), MarkRun(p)]);
    RunFrom(s, Claim(p, key, id), [Lookup(p), Mint(p, Ok(false)), SendLink(p), MarkRun(p)]);
  }

  // ---- Links to charged rows ----

  /** The step of p decides to send the link of a row that is charged at that moment. */
  ghost predicate LinksCharged(s: State, a: Action)
    requires Enabled(s, a)
  {
    && (a.Lookup? || a.Mint?)
    && var t := Apply(s, a);
       var w := t.procs[a.p];
       w.Sending? && w.payable && w.id in t.rows && t.rows[w.id].charged
  }

  /** A mint that returns the row of another run, charged but not yet settled. */
  ghost predicate MintsChargedRow(s: State, a: Action) {
    && a.Mint? && a.outcome.Ok? && a.p in s.procs && s.procs[a.p].Minting? && s.procs[a.p].key.Sched?
    && s.procs[a.p].id in s.rows && s.rows[s.procs[a.p].id].status == Awaiting && s.rows[s.procs[a.p].id].charged
  }

  /** The lookup tests the charge and the mint does not: exactly the latter links a charged row. */
  lemma LinksChargedExactly(s: State, a: Action)
    requires Enabled(s, a)
    ensures LinksCharged(s, a) <==> MintsChargedRow(s, a)
  {
  }

  ghost predicate NeverLinksCharged(s: State, actions: seq<Action>)
    requires Runs(s, actions)
    decreases |actions|
  {
    actions != [] ==> !LinksCharged(s, actions[0]) && NeverLinksCharged(Apply(s, actions[0]), actions[1..])
  }

  ghost predicate NeverMintsChargedRow(s: State, actions: seq<Action>)
    requires Runs(s, actions)
    decreases |actions|
  {
    actions != [] ==> !MintsChargedRow(s, actions[0]) && NeverMintsChargedRow(Apply(s, actions[0]), actions[1..])
  }

  lemma {:induction false} NeverLinksChargedExactly(s: State, actions: seq<Action>)
    requires Runs(s, actions)
    ensures NeverLinksCharged(s, actions) <==> NeverMintsChargedRow(s, actions)
    decreases |actions|
  {
    if actions != [] {
      LinksChargedExactly(s, actions[0]);
      NeverLinksChargedExactly(Apply(s, actions[0]), actions[1..]);
    }
  }

  lemma RunFrom(s: State, a: Action, rest: seq<Action>)
    requires Enabled(s, a) && Runs(Apply(s, a), rest)
    ensures Runs(s, [a] + rest) && Exec(s, [a] + rest) == Exec(Apply(s, a), rest)
  {
    assert ([a] + rest)[1..] == rest;
  }

  ghost function Empty(): State { State(map[], map[], {}, {}, {}, multiset{}, map[]) }

  /** Both runs of a day have looked and found no row. */
  lemma BothLookedFirst(key: Key, rest: seq<Action>) returns (s: State, actions: seq<Action>)
    requires key.Sched?
    ensures s.procs == map[0 := Minting(key, 0, false), 1 := Minting(key, 0, false)] && s.rows == map[] && s.links == {}
    ensures Runs(s, rest) ==> Runs(Empty(), actions) && Exec(Empty(), actions) == Exec(s, rest)
  {
    var s1 := Apply(Empty(), Claim(0, key, 0));
    var s2 := Apply(s1, Lookup(0));
    var s3 := Apply(s2, Claim(1, key, 1));
    s := Apply(s3, Lookup(1));
    actions := [Claim(0, key, 0)] + ([Lookup(0)] + ([Claim(1, key, 1)] + ([Lookup(1)] + rest)));
    if Runs(s, rest) {
      RunFrom(s3, Lookup(1), rest);
      RunFrom(s2, Claim(1, key, 1), [Lookup(1)] + rest);
      RunFrom(s1, Lookup(0), [Claim(1, key, 1)] + ([Lookup(1)] + rest));
      RunFrom(Empty(), Claim(0, key, 0), [Lookup(0)] + ([Claim(1, key, 1)] + ([Lookup(1)] + rest)));
    }
  }

  lemma SecondMintLinks(s: State, key: Key)
    requires key.Sched? && s.procs == map[0 := Minting(key, 0, false), 1 := Minting(key, 0, false)] && s.rows == map[]
    ensures var rest := [Mint(0, Ok(false)), RowMoves(0, Awaiting, true), Mint(1, Ok(false)), SendLink(1)];
            Runs(s, rest) && (key, 0) in Exec(s, rest).links && Exec(s, rest).rows[0] == Row(key, Awaiting, true)
  {
    var s1 := Apply(s, Mint(0, Ok(false)));
    var s2 := Apply(s1, RowMoves(0, Awaiting, true));
    var s3 := Apply(s2, Mint(1, Ok(false)));
    RunFrom(s3, SendLink(1), []);
    RunFrom(s2, Mint(1, Ok(false)), [SendLink(1)]);
    RunFrom(s1, RowMoves(0, Awaiting, true), [Mint(1, Ok(false)), SendLink(1)]);
    RunFrom(s, Mint(0, Ok(false)), [RowMoves(0, Awaiting, true), Mint(1, Ok(false)), SendLink(1)]);
  }

  /** Two runs look before either mints; the first mints, its sender is charged, and the second sends the link again. */
  lemma ChargedRowGetsALink(key: Key) returns (actions: seq<Action>)
    requires key.Sched?
    ensures Start(Empty()) && Runs(Empty(), actions)
    ensures var e := Exec(Empty(), actions);
            (key, 0) in e.links && 0 in e.rows && e.rows[0] == Row(key, Awaiting, true)
  {
    var rest := [Mint(0, Ok(false)), RowMoves(0, Awaiting, true), Mint(1, Ok(false)), SendLink(1)];
    var s;
    s, actions := BothLookedFirst(key, rest);
    SecondMintLinks(s, key);
  }

  // ---- The callers ----

  lemma {:induction false} RunsJoin(s: State, first: seq<Action>, second: seq<Action>)
    requires Runs(s, first) && Runs(Exec(s, first), second)
    ensures Runs(s, first + second) && Exec(s, first + second) == Exec(Exec(s, first), second)
    decreases |first|
  {
    if first == [] {
      assert first + second == second;
    } else {
      assert (first + second)[1..] == first[1..] + second;
      RunsJoin(Apply(s, first[0]), first[1..], second);
    }
  }

  ghost predicate IsRun(before: State, run: seq<Action>, after: State) {
    Runs(before, run) && after == Exec(before, run)
  }

  lemma RunThen(before: State, run: seq<Action>, after: State, a: Action)
    requires IsRun(before, run, after) && Enabled(after, a)
    ensures IsRun(before, run + [a], Apply(after, a))
  {
    RunsJoin(before, run, [a]);
  }

  lemma GrowsFrom(s: State)
    ensures Grows(s, s)
  {
  }

  lemma MarkedStay(s: State, t: State)
    requires Grows(s, t)
    ensures s.marked <= t.marked
  {
  }

  lemma GrowsOn(s: State, t: State, u: State)
    requires Grows(s, t) && Grows(t, u)
    ensures Grows(s, u)
  {
  }

  predicate Arrived(w: Proc, key: Key) {
    if key.Sched? then w.Sending? && w.key == key else w.Done? && w.key == key
  }

  /** What the checks before the claim decide for one active schedule. */
  datatype Gate = Skip | Unverified | NoName | Ready
  datatype Due = Due(schedule: nat, gate: Gate)
  datatype Result = Fired | Failed | Passed | Stopped

  /** The due schedules that are to be counted one way or the other. */
  function Counted(due: seq<Due>): nat {
    if due == [] then 0
    else Counted(due[..|due| - 1]) + if due[|due| - 1].gate.Ready? || due[|due| - 1].gate.NoName? then 1 else 0
  }

  lemma NoneCounted(due: seq<Due>)
    ensures Counted(due[..0]) == 0
  {
  }

  lemma CountedNext(due: seq<Due>, i: nat)
    requires i < |due|
    ensures Counted(due[..i + 1]) == Counted(due[..i]) + if due[i].gate.Ready? || due[i].gate.NoName? then 1 else 0
  {
    assert due[..i + 1][..i] == due[..i];
  }

  class Stores {
    var s: State
    ghost var start: State
    ghost var run: seq<Action>

    ghost predicate Valid() reads this { IsRun(start, run, s) && Start(start) }

    constructor ()
      ensures Valid() && run == []
    {
      s := State(map[], map[], {}, {}, {}, multiset{}, map[]);
      start := State(map[], map[], {}, {}, {}, multiset{}, map[]);
      run := [];
    }

    /** One store call of one caller. */
    method Do(a: Action)
      requires Valid() && Enabled(s, a)
      modifies this
      ensures Valid() && Grows(old(s), s)
      ensures s == Apply(old(s), a)
    {
      RunThen(start, run, s, a);
      StepGrows(s, a);
      run := run + [a];
      s := Apply(s, a);
    }

    method DoOther(a: Action, me: Pid, ghost before: State)
      requires Valid() && Enabled(s, a) && me !in CallerOf(a) && Grows(before, s)
      modifies this
      ensures Valid() && Grows(before, s)
      ensures me in s.procs <==> me in old(s).procs
      ensures me in s.procs ==> s.procs[me] == old(s).procs[me]
    {
      OthersLeaveMine(s, a, me);
      Do(a);
      GrowsOn(before, old(s), s);
    }

    /** Steps of any other callers, and of the ledger, between two of ours. */
    method Others(me: Pid)
      requires Valid()
      modifies this
      ensures Valid() && Grows(old(s), s)
      ensures me in s.procs <==> me in old(s).procs
      ensures me in s.procs ==> s.procs[me] == old(s).procs[me]
    {
      var steps: nat := *;
      while steps > 0
        invariant Valid() && Grows(old(s), s)
        invariant me in s.procs <==> me in old(s).procs
        invariant me in s.procs ==> s.procs[me] == old(s).procs[me]
        decreases steps
      {
        var a: Action := *;
        if Enabled(s, a) && me !in CallerOf(a) { DoOther(a, me, old(s)); }
        steps := steps - 1;
      }
    }

    /** A random id: none that was drawn before. */
    method NewId(taken: set<nat>) returns (id: nat)
      ensures id !in taken
    {
      id := 0;
      var rest := taken;
      while rest != {}
        invariant rest <= taken
        invariant forall u :: u in taken && u !in rest ==> u < id
      {
        var u :| u in rest;
        if u >= id { id := u + 1; }
        rest := rest - {u};
      }
    }

    method ClaimKey(key: Key) returns (me: Pid)
      requires Valid()
      modifies this
      ensures Valid() && Grows(old(s), s)
      ensures me in s.procs && s.procs[me] != Ended ==> s.procs[me].key == key
      ensures me in s.procs && (key.Nudge? ==> s.procs[me].Nudging? || s.procs[me].Ended?)
      ensures !key.Nudge? ==> s.procs[me].Claimed?
    {
      me := NewId(s.procs.Keys);
      Others(me);
      var candidate := NewId(s.used);
      Do(Claim(me, key, candidate));
    }

    /** createTransfer; its outcome is the world's. */
    method TryMint(me: Pid, key: Key) returns (outcome: Outcome)
      requires Valid() && me in s.procs && s.procs[me].Minting? && s.procs[me].key == key && !key.Nudge?
      modifies this
      ensures Valid() && Grows(old(s), s) && me in s.procs
      ensures var w := s.procs[me];
              if outcome.Ok? then Arrived(w, key)
              else if outcome.Busy? && key.Sched? && !old(s).procs[me].retried then w.Minting? && w.key == key && w.retried
              else w.Ended?
    {
      Others(me);
      outcome := *;
      Do(Mint(me, outcome));
    }

    /**
     Lookup and mint, with one retry on a busy sender lock for a schedule. `mint` is the last outcome of
     createTransfer, if it was called, and `tries` how often it was.
     */
    method Settle(me: Pid, key: Key) returns (ok: bool, mint: Option<Outcome>, ghost tries: nat)
      requires Valid() && me in s.procs && s.procs[me].Claimed? && s.procs[me].key == key && !key.Nudge?
      modifies this
      ensures Valid() && Grows(old(s), s) && me in s.procs
      ensures ok <==> Arrived(s.procs[me], key)
      ensures ok <==> mint == None || mint.value.Ok?
      ensures mint == Some(Busy) ==> tries == if key.Sched? then 2 else 1
    {
      mint, tries := None, 0;
      Others(me);
      Do(Lookup(me));
      if s.procs[me].Minting? {
        var outcome := TryMint(me, key);
        mint, tries := Some(outcome), 1;
        if s.procs[me].Minting? {
          outcome := TryMint(me, key);
          mint, tries := Some(outcome), 2;
        }
      }
      ok := !s.procs[me].Ended?;
    }

    /**
     One due schedule, from the claim to the recorded run. It may stop after any call. It passes when the
     mint found the schedule paused, and fails when the mint was refused or stayed busy, or the link of a
     payable row could not be sent (`unsent`).
     */
    method FireSchedule(schedule: nat, day: int) returns (r: Result, ghost mint: Option<Outcome>, ghost unsent: bool)
      requires Valid()
      modifies this
      ensures Valid() && Grows(old(s), s)
      ensures r == Fired ==> Sched(schedule, day) in s.marked && (mint == None || mint.value.Ok?)
      ensures r == Passed <==> mint == Some(Inactive)
      ensures r == Failed <==> mint in {Some(Refused), Some(Busy)} || unsent
    {
      hide Grows, IsRun, Start, Arrived;
      var key := Sched(schedule, day);
      mint, unsent := None, false;
      ghost var begun := s;
      var me := ClaimKey(key);
      ghost var claimed := s;
      var stop: bool := *;
      if stop { return Stopped, mint, unsent; }
      var ok, last;
      ghost var tries;
      ok, last, tries := Settle(me, key);
      GrowsOn(begun, claimed, s);
      ghost var settled := s;
      mint := last;
      if !ok { return if last == Some(Inactive) then Passed else Failed, mint, unsent; }
      r, unsent := SendAndMark(me, key);
      GrowsOn(begun, settled, s);
    }

    /** The link of a payable row, and the recorded run. */
    method SendAndMark(me: Pid, key: Key) returns (r: Result, ghost unsent: bool)
      requires Valid() && me in s.procs && Arrived(s.procs[me], key) && key.Sched?
      modifies this
      ensures Valid() && Grows(old(s), s)
      ensures r == Fired ==> key in s.marked
      ensures r != Passed && (r == Failed <==> unsent)
      ensures unsent ==> old(s).procs[me].payable
    {
      unsent := false;
      Others(me);
      var sent: bool := *;
      if s.procs[me].payable {
        if !sent { return Failed, true; }
        Do(SendLink(me));
      } else {
        Do(SkipLink(me));
      }
      Others(me);
      var stop: bool := *;
      if stop { return Stopped, unsent; }
      Do(MarkRun(me));
      r := Fired;
    }

    /** claimKycNudge and nudgeNamelessOwner: only the first claimer of the day sends. */
    method NudgeOnce(schedule: nat, day: int, kind: nat) returns (sent: bool)
      requires Valid()
      modifies this
      ensures Valid() && Grows(old(s), s)
      ensures sent ==> s.nudged[Nudge(schedule, day, kind)] == 1
    {
      var me := ClaimKey(Nudge(schedule, day, kind));
      sent := false;
      if s.procs[me].Ended? { return; }
      Others(me);
      var stop: bool := *;
      if stop { return; }
      Do(SendNudge(me));
      sent := true;
      RunKeepsInv(start, run);
    }

    /**
     runDueSchedules: every due schedule that is ready or lacks a name is counted as fired or failed, or
     was found paused at the mint; every schedule that fired is recorded. `done` is false when stopped.
     */
    method RunDueSchedules(due: seq<Due>, day: int)
      returns (fired: nat, failed: nat, ghost ran: seq<nat>, ghost passed: nat, done: bool)
      requires Valid()
      modifies this
      ensures Valid() && Grows(old(s), s)
      ensures fired == |ran| && forall x :: x in ran ==> Sched(x, day) in s.marked
      ensures fired + failed + passed <= |due|
      ensures done ==> fired + failed + passed == Counted(due)
    {
      hide Grows, Counted, IsRun, Start;
      fired, failed, ran, passed, done := 0, 0, [], 0, false;
      NoneCounted(due);
      GrowsFrom(s);
      for i := 0 to |due|
        invariant Valid() && Grows(old(s), s)
        invariant fired == |ran| && forall x :: x in ran ==> Sched(x, day) in s.marked
        invariant fired + failed + passed == Counted(due[..i]) <= i
      {
        CountedNext(due, i);
        ghost var before := s;
        var r := RunSchedule(due[i], day);
        MarkedStay(before, s);
        GrowsOn(old(s), before, s);
        match r
        case None =>
        case Some(Stopped) => return;
        case Some(Fired) =>
          fired := fired + 1;
          ran := ran + [due[i].schedule];
        case Some(Failed) => failed := failed + 1;
        case Some(Passed) => passed := passed + 1;
      }
      assert due[..|due|] == due;
      done := true;
    }

    /** One schedule of the loop; None when it is not counted. */
    method RunSchedule(d: Due, day: int) returns (r: Option<Result>)
      requires Valid()
      modifies this
      ensures Valid() && Grows(old(s), s)
      ensures r == None <==> d.gate.Skip? || d.gate.Unverified?
      ensures r == Some(Fired) ==> Sched(d.schedule, day) in s.marked
    {
      match d.gate
      case Skip => return None;
      case Unverified =>
        var sent := NudgeOnce(d.schedule, day, 0);
        return None;
      case NoName =>
        var sent := NudgeOnce(d.schedule, day, 1);
        return Some(Failed);
      case Ready =>
        var outcome;
        ghost var mint, unsent;
        outcome, mint, unsent := FireSchedule(d.schedule, day);
        return Some(outcome);
    }

    /**
     finalizeCrossBorderBillPayment: any answer with a transfer id gives the id bound to the bill. For a
     bill already paid that is whether it was bound and minted; for an unpaid one that is admitted, a
     refusal comes from the mint alone.
     */
    method FinalizeBill(invoice: nat, unpaid: bool, admitted: bool) returns (transfer: Option<Id>, ghost mint: Option<Outcome>)
      requires Valid()
      modifies this
      ensures Valid() && Grows(old(s), s)
      ensures transfer.Some? ==> Binds(s, Bill(invoice), transfer.value) && transfer.value in s.rows
      ensures !unpaid ==> (transfer.Some? <==> Bill(invoice) in old(s).idem && old(s).idem[Bill(invoice)] in old(s).rows)
      ensures unpaid && admitted ==> (transfer.Some? <==> mint == None || mint.value.Ok?)
    {
      mint := None;
      var me;
      if !unpaid {
        me := NewId(s.procs.Keys);
        Do(FindBill(me, Bill(invoice)));
        RunKeepsInv(start, run);
        assert ProcSound(s, s.procs[me]);
        return if s.procs[me].Done? then Some(s.procs[me].id) else None, mint;
      }
      if !admitted { return None, mint; }
      me := ClaimKey(Bill(invoice));
      var ok, last;
      ghost var tries;
      ok, last, tries := Settle(me, Bill(invoice));
      mint := last;
      if !ok { return None, mint; }
      RunKeepsInv(start, run);
      assert ProcSound(s, s.procs[me]);
      return Some(s.procs[me].id), mint;
    }
  }
}
