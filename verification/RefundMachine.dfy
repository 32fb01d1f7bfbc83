/**
 Refunds, holds and cancels of one transfer row. Each staff action is one transaction: an
 advisory read, then a guarded claim and an outbox insert that commit together. The claim may
 run on a row that moved since the read, so an action carries the row it read (`seen`), which
 may be any earlier version of the row.
 */
module RefundMachine {

  import opened Wrappers

  datatype Status = Awaiting | InReview | Paid | Delivered | Cancelled | Blocked
  datatype Refund = NoRefund | Requested | Pending | Completed | Failed
  datatype Debit = NoDebit | DebitPending | DebitFailed | DebitReturned | DebitSucceeded
  datatype Compliance = Cleared | Flagged | Sanctioned

  /** charged: funding_ref is set; intent: a PSP intent is bound; pulled: the partner's rail debits the payer. */
  datatype Row = Row(status: Status, refund: Refund, charged: bool, intent: bool, debit: Debit,
                     compliance: Compliance, pulled: bool)

  /** Outbox dedupe keys: refund:<id>, refund:<id>:retry:<ms>, instruct:<id>. */
  datatype Key = RefundKey | RetryKey(ms: int) | InstructKey
  datatype Effect = Queued | Done

  /** How far the worker gets with a refund: the send and the row's update are two calls, then the effect is marked done. */
  datatype Reach = Whole | SentOnly | Committed

  /** `past` holds every committed version of the row; the counters are history. `sends`: refunds sent by the worker. */
  datatype State = State(row: Row, past: set<Row>, outbox: map<Key, Effect>,
                         completions: nat, releases: nat, rejects: nat, sends: nat)

  datatype Action =
    // staff
    | Cancel(seen: Row)
    | Reverse(seen: Row)
    | Release(seen: Row)
    | Reject(seen: Row)
    | Issue(seen: Row)
    | Approve(seen: Row)
    | Dismiss
    | Retry(seen: Row, ms: int)
    | DiscardEffect(key: Key)     // a dead outbox row is marked done by hand
    // the sender
    | Request(seen: Row)          // a refund request on a paid row
    | Escalate                    // a cancel request too late to grant, turned into a refund request
    // the worker and the funding provider
    | Drain(key: Key, reach: Reach)               // the worker sends the refund
    | Callback(paid: bool, settles: Option<Key>)  // the provider's verdict; settles: it finishes that effect too
    // the ledger's forward moves
    | Capture | BindIntent | DebitMoves(to: Debit) | Rescreen(verdict: Compliance)
    | Pay | Hold
    | RailStatus(paidOut: bool)   // the rail's signed callback: funded, or paid out
    | FailPaid                    // the rail's failure, or the sender's cancel in time

  // ---- The guarded updates ----

  function LegalFrom(next: Refund): set<Refund> {
    match next
    case Requested => {NoRefund}
    case NoRefund => {Requested}
    case Pending => {NoRefund, Requested, Failed}
    case Completed => {Pending}
    case Failed => {Pending}
  }

  /** updateRefund: None unless the stored state is a legal predecessor (narrowed to `from` when given). */
  function UpdateRefund(r: Row, next: Refund, from: Option<Refund>): Option<Row> {
    if r.refund in LegalFrom(next) && (from.Some? ==> r.refund == from.value)
    then Some(r.(refund := next)) else None
  }

  predicate FundingGate(r: Row) { r.debit == NoDebit || r.debit == DebitSucceeded }

  /** cancelIfCancellable: awaiting payment, never charged, no intent bound. */
  predicate Voidable(r: Row) { r.status == Awaiting && !r.charged && !r.intent }

  /** failPaidFromRail moves the refund on only when there is money to return here. */
  predicate Refundable(r: Row) { r.charged || r.pulled }

  datatype CancelDecision = Void | Noop | Refuse

  function DecideStaffCancel(r: Row): CancelDecision {
    match r.status
    case Delivered => Noop
    case Cancelled => Noop
    case Blocked => Refuse
    case Paid => Refuse
    case InReview => Refuse
    case Awaiting => if !r.charged && !r.intent then Void else Refuse
  }

  // ---- Steps ----

  function Commit(s: State, r: Row): State { s.(row := r, past := s.past + {r}) }

  /** enqueue: a used dedupe key is a silent no-op. */
  function Enqueue(s: State, k: Key): State {
    if k in s.outbox then s else s.(outbox := s.outbox[k := Queued])
  }

  function MarkDone(s: State, k: Key): State {
    if k in s.outbox then s.(outbox := s.outbox[k := Done]) else s
  }

  /** Claim a move of the refund and queue its effect; `mustBeFresh` rolls back on a used key. */
  function StartRefund(s: State, from: Option<Refund>, k: Key, mustBeFresh: bool): State {
    var r := UpdateRefund(s.row, Pending, from);
    if r == None || (mustBeFresh && k in s.outbox) then s else Enqueue(Commit(s, r.value), k)
  }

  predicate IsQueued(s: State, k: Key) {
    !k.InstructKey? && k in s.outbox && s.outbox[k] == Queued
  }

  predicate Enabled(s: State, a: Action) {
    match a
    case Cancel(seen) => seen in s.past
    case Reverse(seen) => seen in s.past
    case Release(seen) => seen in s.past
    case Reject(seen) => seen in s.past
    case Issue(seen) => seen in s.past
    case Approve(seen) => seen in s.past
    case Retry(seen, _) => seen in s.past
    case Request(seen) => seen in s.past
    case DiscardEffect(k) => IsQueued(s, k)
    case Drain(k, _) => IsQueued(s, k)
    case Callback(_, k) => k.Some? ==> !k.value.InstructKey?
    case DebitMoves(to) => s.row.intent
    case _ => true
  }

  function ApplyCancel(s: State, seen: Row): State {
    if DecideStaffCancel(seen) == Void && Voidable(s.row) then Commit(s, s.row.(status := Cancelled)) else s
  }

  /** updateRefund's answer is not looked at here; a used key rolls the transaction back. */
  function ApplyReverse(s: State, seen: Row): State {
    if seen.pulled && (seen.status == Paid || seen.status == Delivered) && seen.refund == NoRefund && RefundKey !in s.outbox
    then
      var r := UpdateRefund(s.row, Pending, None);
      Enqueue(if r.Some? then Commit(s, r.value) else s, RefundKey)
    else s
  }

  function ApplyRelease(s: State, seen: Row): State {
    if seen.status == InReview && s.row.status == InReview && s.row.compliance != Sanctioned && FundingGate(s.row)
    then Enqueue(Commit(s, s.row.(status := Paid)), InstructKey).(releases := s.releases + 1)
    else s
  }

  /** For a charged hold neither the refund claim's answer nor the enqueue's is looked at. */
  function ApplyReject(s: State, seen: Row): State {
    if seen.status == InReview && s.row.status == InReview
    then
      var c := Commit(s, s.row.(status := Cancelled)).(rejects := s.rejects + 1);
      if !s.row.charged then c
      else
        var r := UpdateRefund(c.row, Pending, None);
        Enqueue(if r.Some? then Commit(c, r.value) else c, RefundKey)
    else s
  }

  function ApplyIssue(s: State, seen: Row): State {
    if (seen.status == Paid || seen.status == Delivered) && seen.charged && FundingGate(seen) && seen.refund == NoRefund
    then StartRefund(s, Some(NoRefund), RefundKey, true)
    else s
  }

  function ApplyApprove(s: State, seen: Row): State {
    if seen.refund == Requested then StartRefund(s, Some(Requested), RefundKey, false) else s
  }

  function ApplyDismiss(s: State): State {
    var r := UpdateRefund(s.row, NoRefund, Some(Requested));
    if r.Some? then Commit(s, r.value) else s
  }

  function ApplyRetry(s: State, seen: Row, ms: int): State {
    if seen.refund == Failed then StartRefund(s, Some(Failed), RetryKey(ms), false) else s
  }

  function ApplyRequest(s: State): State {
    var r := UpdateRefund(s.row, Requested, None);
    if r.Some? then Commit(s, r.value) else s
  }

  /** The worker: nothing for a completed row; otherwise the money goes back and the row is completed if it may be. */
  function ApplyDrain(s: State, k: Key, reach: Reach): State {
    var sent := if s.row.refund == Completed then s else s.(sends := s.sends + 1);
    if reach == SentOnly then sent
    else
      var r := UpdateRefund(s.row, Completed, None);
      var c := if r.Some? then Commit(sent, r.value).(completions := s.completions + 1) else sent;
      if reach == Committed then c else MarkDone(c, k)
  }

  function ApplyCallback(s: State, paid: bool, settles: Option<Key>): State {
    var r := UpdateRefund(s.row, if paid then Completed else Failed, None);
    if r == None then s
    else
      var c := Commit(s, r.value).(completions := s.completions + if paid then 1 else 0);
      if settles.Some? then MarkDone(c, settles.value) else c
  }

  function ApplyFailPaid(s: State): State {
    if s.row.status != Paid then s
    else
      var c := s.row.(status := Cancelled);
      if c.refund in {NoRefund, Requested} && Refundable(c)
      then Enqueue(Commit(s, c.(refund := Pending)), RefundKey)
      else Commit(s, c)
  }

  /** updateTransferFromWebhook: forward only, never out of a hold, and to delivered only with no refund. */
  predicate RailMoves(r: Row, paidOut: bool) {
    && (if paidOut then r.status in {Awaiting, Paid} && r.refund == NoRefund else r.status == Awaiting)
    && r.compliance != Sanctioned
    && (r.status == Awaiting ==> r.compliance == Cleared && FundingGate(r))
  }

  function ApplyForward(s: State, a: Action): State {
    match a
    case Capture => if !s.row.charged && !s.row.intent then Commit(s, s.row.(charged := true)) else s
    case BindIntent =>
      if Voidable(s.row) then Commit(s, s.row.(intent := true, debit := DebitPending)) else s
    case DebitMoves(to) =>
      Commit(s, s.row.(debit := to, charged := s.row.charged || to == DebitSucceeded))
    case Rescreen(v) =>
      if s.row.status == Awaiting && s.row.compliance != Sanctioned && v != Cleared
      then Commit(s, s.row.(compliance := v, status := if v == Sanctioned && Voidable(s.row) then Blocked else Awaiting))
      else s
    case Pay =>
      if s.row.status == Awaiting && s.row.compliance == Cleared && FundingGate(s.row)
      then Enqueue(Commit(s, s.row.(status := Paid)), InstructKey) else s
    case Hold =>
      if s.row.status == Awaiting && s.row.compliance != Sanctioned && FundingGate(s.row)
      then Commit(s, s.row.(status := InReview)) else s
    case RailStatus(paidOut) =>
      if RailMoves(s.row, paidOut) then Commit(s, s.row.(status := if paidOut then Delivered else Paid)) else s
    case _ => s
  }

  function Apply(s: State, a: Action): State {
    match a
    case Cancel(seen) => ApplyCancel(s, seen)
    case Reverse(seen) => ApplyReverse(s, seen)
    case Release(seen) => ApplyRelease(s, seen)
    case Reject(seen) => ApplyReject(s, seen)
    case Issue(seen) => ApplyIssue(s, seen)
    case Approve(seen) => ApplyApprove(s, seen)
    case Dismiss => ApplyDismiss(s)
    case Retry(seen, ms) => ApplyRetry(s, seen, ms)
    case DiscardEffect(k) => MarkDone(s, k)
    case Request(seen) => if seen.status == Paid && seen.refund == NoRefund then ApplyRequest(s) else s
    case Escalate => if s.row.status == InReview || s.row.status == Paid then ApplyRequest(s) else s
    case Drain(k, reach) => ApplyDrain(s, k, reach)
    case Callback(paid, settles) => ApplyCallback(s, paid, settles)
    case FailPaid => ApplyFailPaid(s)
    case _ => ApplyForward(s, a)
  }

  /** The actions that may start a refund. */
  predicate IsStart(a: Action) {
    a.Reverse? || a.Reject? || a.Issue? || a.Approve? || a.Retry? || a.FailPaid?
  }

  ghost predicate Runs(s: State, actions: seq<Action>)
    decreases |actions|
  {
    actions == [] || (Enabled(s, actions[0]) && Runs(Apply(s, actions[0]), actions[1..]))
  }

  ghost function Exec(s: State, actions: seq<Action>): State
    requires Runs(s, actions)
    decreases |actions|
  {
    if actions == [] then s else Exec(Apply(s, actions[0]), actions[1..])
  }

  /** A minted row: no refund, nothing queued, and neither held nor paid yet. */
  ghost predicate Fresh(s: State) {
    && s.row.status in {Awaiting, Blocked} && s.row.refund == NoRefund && !s.row.charged && !s.row.intent
    && s.past == {s.row} && s.outbox == map[] && s.completions == 0 && s.releases == 0 && s.rejects == 0 && s.sends == 0
  }

  // ---- What every run keeps, whatever interleaves ----

  predicate BeforeRefund(r: Row) { r.refund == NoRefund || r.refund == Requested }

  /** The refund's keys are unused exactly until the refund starts. */
  ghost predicate KeysFollowRefund(s: State) {
    && (RefundKey in s.outbox <==> !BeforeRefund(s.row))
    && (BeforeRefund(s.row) ==> forall ms {:trigger RetryKey(ms)} :: RetryKey(ms) !in s.outbox)
  }

  predicate CompletedOnce(s: State) { s.completions == if s.row.refund == Completed then 1 else 0 }

  predicate DecidedOnce(s: State) {
    && s.releases + s.rejects <= 1
    && (s.row.status in {Awaiting, InReview, Blocked} ==> s.releases == 0 && s.rejects == 0)
    && (s.rejects == 1 ==> s.row.status == Cancelled)
  }

  ghost predicate Core(s: State) {
    s.row in s.past && KeysFollowRefund(s) && CompletedOnce(s) && DecidedOnce(s)
  }

  lemma StepKeepsKeys(s: State, a: Action)
    requires KeysFollowRefund(s) && Enabled(s, a)
    ensures KeysFollowRefund(Apply(s, a))
  {
  }

  lemma StepKeepsCompletions(s: State, a: Action)
    requires CompletedOnce(s) && Enabled(s, a)
    ensures CompletedOnce(Apply(s, a))
  {
    hide FundingGate, Enabled, DecideStaffCancel, Refundable, Voidable;
  }

  lemma StepKeepsDecisions(s: State, a: Action)
    requires DecidedOnce(s) && Enabled(s, a)
    ensures DecidedOnce(Apply(s, a))
  {
    hide LegalFrom, FundingGate, Enabled, DecideStaffCancel, Refundable;
  }

  lemma StepKeepsPast(s: State, a: Action)
    requires s.row in s.past && Enabled(s, a)
    ensures s.past <= Apply(s, a).past && Apply(s, a).row in Apply(s, a).past
  {
  }

  lemma {:induction false} RunKeepsCore(s: State, actions: seq<Action>)
    requires Core(s) && Runs(s, actions)
    ensures Core(Exec(s, actions))
    decreases |actions|
  {
    if actions != [] {
      StepKeepsKeys(s, actions[0]);
      StepKeepsCompletions(s, actions[0]);
      StepKeepsDecisions(s, actions[0]);
      StepKeepsPast(s, actions[0]);
      RunKeepsCore(Apply(s, actions[0]), actions[1..]);
    }
  }

  /** From a minted row, in any interleaving: one completion at most, and one decision of a hold at most. */
  lemma AtMostOnce(s: State, actions: seq<Action>)
    requires Fresh(s) && Runs(s, actions)
    ensures var e := Exec(s, actions);
            && e.completions <= 1
            && e.releases + e.rejects <= 1
            && (e.rejects == 1 ==> e.row.status == Cancelled)
            && (e.completions == 1 <==> e.row.refund == Completed)
            && (e.row.refund in {NoRefund, Requested} <==> RefundKey !in e.outbox)
  {
    RunKeepsCore(s, actions);
  }

  // ---- An action on the row it read takes effect exactly when that row allows it ----

  /** The refund becomes pending and its own new effect is queued. */
  predicate Starts(s: State, t: State, k: Key) {
    t.row == s.row.(refund := Pending) && k !in s.outbox && t.outbox == s.outbox[k := Queued]
  }

  /** Captured money that has left the payer, with nothing returned or asked for yet. */
  predicate Issuable(r: Row) {
    r.status in {Paid, Delivered} && r.charged && r.debit in {NoDebit, DebitSucceeded} && r.refund == NoRefund
  }

  /** A settlement the partner's rail pulled, with nothing returned or asked for yet. */
  predicate Reversible(r: Row) { r.status in {Paid, Delivered} && r.pulled && r.refund == NoRefund }

  lemma StaffStartsExactly(s: State)
    requires Core(s)
    ensures if Issuable(s.row) then Starts(s, Apply(s, Issue(s.row)), RefundKey) else Apply(s, Issue(s.row)) == s
    ensures if Reversible(s.row) then Starts(s, Apply(s, Reverse(s.row)), RefundKey) else Apply(s, Reverse(s.row)) == s
    ensures if s.row.refund == Requested then Starts(s, Apply(s, Approve(s.row)), RefundKey) else Apply(s, Approve(s.row)) == s
    ensures forall ms :: if s.row.refund != Failed then Apply(s, Retry(s.row, ms)) == s
                         else RetryKey(ms) !in s.outbox ==> Starts(s, Apply(s, Retry(s.row, ms)), RetryKey(ms))
  {
  }

  /** A dismissal, a release and a reject of the row as read, and the failure of a paid row. */
  lemma StaffDecidesExactly(s: State)
    requires Core(s)
    ensures var t := Apply(s, Dismiss);
            if s.row.refund == Requested then t.row == s.row.(refund := NoRefund) && t.outbox == s.outbox else t == s
    ensures var t := Apply(s, Release(s.row));
            if s.row.status == InReview && s.row.compliance != Sanctioned && s.row.debit in {NoDebit, DebitSucceeded}
            then t.row == s.row.(status := Paid) && InstructKey in t.outbox else t == s
    ensures var t := Apply(s, Reject(s.row));
            if s.row.status == InReview then t.row.status == Cancelled && (!s.row.charged ==> t.row.refund == s.row.refund)
            else t == s
  {
  }

  /** A paid row that fails is cancelled, and its money, if any was taken or pulled, starts on its way back. */
  lemma FailureReturnsTheMoney(s: State)
    requires Core(s) && s.row.status == Paid
    ensures var t := Apply(s, FailPaid);
            && t.row.status == Cancelled
            && ((s.row.charged || s.row.pulled) && BeforeRefund(s.row) ==>
                  t.row.refund == Pending && t.outbox == s.outbox[RefundKey := Queued])
  {
  }

  /** A worker that is not stopped sends a pending refund once, completes it and finishes its effect. */
  lemma DrainCompletes(s: State, k: Key)
    requires s.row.refund == Pending && IsQueued(s, k)
    ensures var t := Apply(s, Drain(k, Whole));
            t.row.refund == Completed && t.sends == s.sends + 1 && t.completions == s.completions + 1
            && t.outbox == s.outbox[k := Done]
  {
  }

  /** When the ledger's own moves land: each only from the status, the money and the verdict that allow it. */
  lemma MoneyMovesExactly(s: State, to: Debit)
    ensures Apply(s, Capture).row == s.row.(charged := s.row.charged || !s.row.intent)
    ensures var t := Apply(s, BindIntent);
            if s.row.status == Awaiting && !s.row.charged && !s.row.intent
            then t.row == s.row.(intent := true, debit := DebitPending) else t == s
    ensures Apply(s, DebitMoves(to)).row == s.row.(debit := to, charged := s.row.charged || to == DebitSucceeded)
  {
  }

  lemma ScreeningMovesExactly(s: State, v: Compliance)
    ensures var t := Apply(s, Rescreen(v));
            if s.row.status != Awaiting || s.row.compliance == Sanctioned || v == Cleared then t == s
            else
              var blocks := v == Sanctioned && !s.row.charged && !s.row.intent;
              t.row == s.row.(compliance := v, status := if blocks then Blocked else Awaiting)
  {
  }

  lemma StatusMovesExactly(s: State)
    ensures Apply(s, Pay).row.status == Paid <==>
              s.row.status == Paid
              || (s.row.status == Awaiting && s.row.compliance == Cleared && s.row.debit in {NoDebit, DebitSucceeded})
    ensures Apply(s, Hold).row.status == InReview <==>
              s.row.status == InReview
              || (s.row.status == Awaiting && s.row.compliance != Sanctioned && s.row.debit in {NoDebit, DebitSucceeded})
    ensures Apply(s, RailStatus(true)).row.status == Delivered <==>
              s.row.status == Delivered
              || (s.row.status == Paid && s.row.refund == NoRefund && s.row.compliance != Sanctioned)
              || (s.row.status == Awaiting && s.row.refund == NoRefund && s.row.compliance == Cleared
                  && s.row.debit in {NoDebit, DebitSucceeded})
    ensures Apply(s, RailStatus(false)).row.status == Paid <==>
              s.row.status == Paid
              || (s.row.status == Awaiting && s.row.compliance == Cleared && s.row.debit in {NoDebit, DebitSucceeded})
  {
  }

  /** A verdict of the provider ends a pending refund, one way or the other, and changes no other. */
  lemma VerdictsExactly(s: State, paid: bool)
    ensures var t := Apply(s, Callback(paid, None));
            t.row == (if s.row.refund == Pending then s.row.(refund := if paid then Completed else Failed) else s.row)
            && t.outbox == s.outbox
    ensures s.row.refund == Pending ==> forall k :: k in s.outbox ==> Apply(s, Callback(paid, Some(k))).outbox == s.outbox[k := Done]
  {
  }

  /** The sender's request is recorded exactly for a paid row with no refund, an escalation for a held or paid one. */
  lemma RequestsExactly(s: State)
    ensures Apply(s, Request(s.row)).row.refund == Requested <==>
              s.row.refund == Requested || (s.row.status == Paid && s.row.refund == NoRefund)
    ensures Apply(s, Escalate).row.refund == Requested <==>
              s.row.refund == Requested || (s.row.status in {InReview, Paid} && s.row.refund == NoRefund)
  {
  }

  // ---- The ledger's order ----

  function Rank(t: Status): nat {
    match t
    case Awaiting => 0
    case InReview => 1
    case Paid => 2
    case _ => 3
  }

  predicate MovedForward(before: Status, after: Status) { after == before || Rank(before) < Rank(after) }

  lemma StepMovesForward(s: State, a: Action)
    requires Enabled(s, a)
    ensures MovedForward(s.row.status, Apply(s, a).row.status)
  {
    hide LegalFrom, FundingGate, Enabled, DecideStaffCancel, Refundable;
  }

  /** A row that left a status never comes back to it; delivered, cancelled and blocked rows stay. */
  lemma {:induction false} RunMovesForward(s: State, actions: seq<Action>)
    requires Runs(s, actions)
    ensures MovedForward(s.row.status, Exec(s, actions).row.status)
    decreases |actions|
  {
    if actions != [] {
      StepMovesForward(s, actions[0]);
      RunMovesForward(Apply(s, actions[0]), actions[1..]);
    }
  }

  /** The shown policy and the guarded claim agree, so a void lands exactly when the row has no money behind it. */
  lemma CancelVoidsExactlyUncharged(s: State, seen: Row)
    requires seen in s.past
    ensures DecideStaffCancel(seen) == Void <==> Voidable(seen)
    ensures Apply(s, Cancel(s.row)).row.status == Cancelled <==> (Voidable(s.row) || s.row.status == Cancelled)
    ensures Apply(s, Cancel(seen)) != s ==>
              Voidable(s.row) && Apply(s, Cancel(seen)).row == s.row.(status := Cancelled)
              && Apply(s, Cancel(seen)).outbox == s.outbox
  {
  }

  // ---- Five promises, and the steps that break each ----

  datatype Promise =
    | NeverStranded    // a pending refund has an effect that will be drained
    | OneEffect        // a refund is pending exactly while one refund effect is undrained
    | ChargeReturned   // a cancelled row that was charged has its refund under way
    | Instructed       // a paid or delivered row has had its payout queued
    | SentOnce         // the worker sends the money at most once, and then the refund is completed

  ghost predicate NothingQueued(s: State) { forall k :: !IsQueued(s, k) }

  ghost predicate OnlyQueued(s: State, k: Key) { IsQueued(s, k) && forall j :: IsQueued(s, j) ==> j == k }

  ghost predicate Holds(p: Promise, s: State) {
    match p
    case NeverStranded => s.row.refund == Pending ==> exists k :: IsQueued(s, k)
    case OneEffect => if s.row.refund == Pending then exists k :: OnlyQueued(s, k) else NothingQueued(s)
    case ChargeReturned => s.row.status == Cancelled && s.row.charged ==> !BeforeRefund(s.row)
    case Instructed => s.row.status in {Paid, Delivered} ==> InstructKey in s.outbox
    case SentOnce => s.sends <= 1 && (s.sends == 1 ==> s.row.refund == Completed)
  }

  /** A failed refund is claimed again on a key that is already spent, so the enqueue adds nothing. */
  predicate RestartsOnSpentKey(s: State, a: Action) {
    && s.row.refund == Failed
    && match a
       case Reject(seen) => seen.status == InReview && s.row.status == InReview && s.row.charged
       case Retry(seen, ms) => seen.refund == Failed && RetryKey(ms) in s.outbox
       case _ => false
  }

  predicate ChargesCancelledRow(s: State, a: Action) {
    s.row.status == Cancelled && !s.row.charged && BeforeRefund(s.row) && ((a.Capture? && !s.row.intent) || a == DebitMoves(DebitSucceeded))
  }

  ghost predicate Breaks(p: Promise, s: State, a: Action) {
    match p
    case NeverStranded =>
      || (RestartsOnSpentKey(s, a) && NothingQueued(s))
      || (a.DiscardEffect? && s.row.refund == Pending && OnlyQueued(s, a.key))
    case OneEffect =>
      || RestartsOnSpentKey(s, a)
      || a.DiscardEffect?
      || (a.Drain? && a.reach == Committed)
      || (a.Callback? && s.row.refund == Pending && (a.settles.Some? ==> !IsQueued(s, a.settles.value)))
    case ChargeReturned => ChargesCancelledRow(s, a)
    case Instructed => a.RailStatus? && s.row.status == Awaiting && RailMoves(s.row, a.paidOut) && InstructKey !in s.outbox
    case SentOnce => a.Drain? && (s.row.refund == Failed || (s.row.refund == Pending && a.reach == SentOnly))
  }

  /** What one step does to the undrained effects: it adds at most `added` and finishes at most `finished`. */
  ghost predicate EffectsMove(s: State, t: State, added: Option<Key>, finished: Option<Key>) {
    forall k {:trigger IsQueued(t, k)} {:trigger IsQueued(s, k)} ::
      IsQueued(t, k) <==> ((IsQueued(s, k) && Some(k) != finished) || Some(k) == added)
  }

  function Added(s: State, a: Action): Option<Key> {
    if a.Retry? && a.seen.refund == Failed && s.row.refund == Failed && RetryKey(a.ms) !in s.outbox
    then Some(RetryKey(a.ms))
    else if !a.Retry? && RefundKey !in s.outbox && RefundKey in Apply(s, a).outbox then Some(RefundKey)
    else None
  }

  function Finished(s: State, a: Action): Option<Key> {
    match a
    case DiscardEffect(k) => Some(k)
    case Drain(k, reach) => if reach == Whole then Some(k) else None
    case Callback(_, settles) => if s.row.refund == Pending then settles else None
    case _ => None
  }

  lemma StepMovesEffects(s: State, a: Action)
    requires Core(s) && Enabled(s, a)
    ensures EffectsMove(s, Apply(s, a), Added(s, a), Finished(s, a))
  {
    hide FundingGate, DecideStaffCancel, Voidable, Refundable, CompletedOnce, DecidedOnce;
  }

  /** Where a refund goes in one step, beside the effect it starts. */
  lemma AddedStartsRefund(s: State, a: Action)
    requires Core(s) && Enabled(s, a) && Added(s, a).Some?
    ensures s.row.refund != Pending && Apply(s, a).row.refund == Pending
    ensures !RestartsOnSpentKey(s, a) && IsStart(a)
  {
  }

  lemma OnlyStartsMakePending(s: State, a: Action)
    requires !IsStart(a) && s.row.refund != Pending
    ensures Apply(s, a).row.refund != Pending
  {
    hide FundingGate, DecideStaffCancel, Voidable;
  }

  lemma StartOnSpentKey(s: State, a: Action)
    requires IsStart(a) && Core(s) && s.row.refund != Pending && Added(s, a).None?
    ensures Apply(s, a).row.refund == Pending <==> RestartsOnSpentKey(s, a)
  {
    hide FundingGate, DecideStaffCancel, Voidable, Refundable, CompletedOnce, DecidedOnce;
  }

  lemma StartsWithoutEffect(s: State, a: Action)
    requires Core(s) && Enabled(s, a) && s.row.refund != Pending && Added(s, a).None?
    ensures Apply(s, a).row.refund == Pending <==> RestartsOnSpentKey(s, a)
  {
    hide Apply, Added, Core, Enabled;
    if IsStart(a) { StartOnSpentKey(s, a); } else { OnlyStartsMakePending(s, a); }
  }

  predicate EndsPending(a: Action) { (a.Drain? && a.reach != SentOnly) || a.Callback? }

  lemma StartKeepsPending(s: State, a: Action)
    requires IsStart(a) && s.row.refund == Pending
    ensures Apply(s, a).row.refund == Pending
  {
    hide FundingGate, Refundable;
  }

  lemma LeavesPending(s: State, a: Action)
    requires Enabled(s, a) && s.row.refund == Pending
    ensures Apply(s, a).row.refund != Pending <==> EndsPending(a)
  {
    if IsStart(a) { StartKeepsPending(s, a); }
    hide FundingGate, DecideStaffCancel, Voidable, Refundable, Enabled, IsQueued;
    hide ApplyReverse, ApplyReject, ApplyIssue, ApplyApprove, ApplyRetry, ApplyFailPaid;
  }

  lemma StepMovesRefund(s: State, a: Action)
    requires Core(s) && Enabled(s, a)
    ensures var t := Apply(s, a);
            && (Added(s, a).Some? ==>
                 s.row.refund != Pending && t.row.refund == Pending && !RestartsOnSpentKey(s, a) && IsStart(a))
            && (s.row.refund != Pending && Added(s, a).None? ==> (t.row.refund == Pending <==> RestartsOnSpentKey(s, a)))
            && (s.row.refund == Pending ==> (t.row.refund != Pending <==> EndsPending(a)))
  {
    hide Apply, Added, RestartsOnSpentKey, Core, Enabled;
    if Added(s, a).Some? { AddedStartsRefund(s, a); }
    else if s.row.refund != Pending { StartsWithoutEffect(s, a); }
    if s.row.refund == Pending { LeavesPending(s, a); }
  }

  lemma NeverStrandedStep(s: State, a: Action)
    requires Core(s) && Enabled(s, a) && Holds(NeverStranded, s)
    ensures Holds(NeverStranded, Apply(s, a)) <==> !Breaks(NeverStranded, s, a)
  {
    hide Apply, Added, Core;
    StepMovesEffects(s, a);
    StepMovesRefund(s, a);
    var t := Apply(s, a);
    if t.row.refund == Pending {
      if Added(s, a).Some? {
        assert IsQueued(t, Added(s, a).value);
      } else if s.row.refund == Pending {
        if a.DiscardEffect? && !OnlyQueued(s, a.key) {
          var j :| IsQueued(s, j) && j != a.key;
          assert IsQueued(t, j);
        }
      }
    }
  }

  lemma OneEffectStep(s: State, a: Action)
    requires Core(s) && Enabled(s, a) && Holds(OneEffect, s)
    ensures Holds(OneEffect, Apply(s, a)) <==> !Breaks(OneEffect, s, a)
  {
    hide Apply, Added, Core;
    StepMovesEffects(s, a);
    StepMovesRefund(s, a);
    var t := Apply(s, a);
    if Added(s, a).Some? {
      assert OnlyQueued(t, Added(s, a).value);
    } else if s.row.refund == Pending {
      var k :| OnlyQueued(s, k);
      assert t.row.refund == Pending && Finished(s, a) == None ==> OnlyQueued(t, k);
      assert IsQueued(t, k) <==> Finished(s, a) != Some(k);
    }
  }

  lemma ChargeReturnedStep(s: State, a: Action)
    requires Core(s) && Enabled(s, a) && Holds(ChargeReturned, s)
    ensures Holds(ChargeReturned, Apply(s, a)) <==> !Breaks(ChargeReturned, s, a)
  {
    hide FundingGate, KeysFollowRefund, CompletedOnce, DecidedOnce, Core, DecideStaffCancel;
  }

  lemma InstructedStep(s: State, a: Action)
    requires Core(s) && Enabled(s, a) && Holds(Instructed, s)
    ensures Holds(Instructed, Apply(s, a)) <==> !Breaks(Instructed, s, a)
  {
    hide LegalFrom, DecideStaffCancel, Refundable, Voidable, Core;
    RailMovesFrom(s.row);
  }

  lemma RailMovesFrom(r: Row)
    ensures RailMoves(r, false) ==> r.status == Awaiting
    ensures RailMoves(r, true) ==> r.status in {Awaiting, Paid}
  {
  }

  lemma SentOnceStep(s: State, a: Action)
    requires Core(s) && Enabled(s, a) && Holds(SentOnce, s)
    ensures Holds(SentOnce, Apply(s, a)) <==> !Breaks(SentOnce, s, a)
  {
  }

  lemma PromiseStep(p: Promise, s: State, a: Action)
    requires Core(s) && Enabled(s, a) && Holds(p, s)
    ensures Holds(p, Apply(s, a)) <==> !Breaks(p, s, a)
  {
    match p
    case NeverStranded => NeverStrandedStep(s, a);
    case OneEffect => OneEffectStep(s, a);
    case ChargeReturned => ChargeReturnedStep(s, a);
    case Instructed => InstructedStep(s, a);
    case SentOnce => SentOnceStep(s, a);
  }

  ghost predicate HoldsThroughout(p: Promise, s: State, actions: seq<Action>)
    requires Runs(s, actions)
    decreases |actions|
  {
    Holds(p, s) && (actions != [] ==> HoldsThroughout(p, Apply(s, actions[0]), actions[1..]))
  }

  ghost predicate NoStepBreaks(p: Promise, s: State, actions: seq<Action>)
    requires Runs(s, actions)
    decreases |actions|
  {
    actions != [] ==> !Breaks(p, s, actions[0]) && NoStepBreaks(p, Apply(s, actions[0]), actions[1..])
  }

  lemma {:induction false} KeptExactlyFrom(p: Promise, s: State, actions: seq<Action>)
    requires Core(s) && Holds(p, s) && Runs(s, actions)
    ensures HoldsThroughout(p, s, actions) <==> NoStepBreaks(p, s, actions)
    decreases |actions|
  {
    if actions != [] {
      var a, rest := actions[0], actions[1..];
      var t := Apply(s, a);
      PromiseStep(p, s, a);
      StepKeepsKeys(s, a);
      StepKeepsCompletions(s, a);
      StepKeepsDecisions(s, a);
      StepKeepsPast(s, a);
      if Holds(p, t) {
        KeptExactlyFrom(p, t, rest);
      }
    }
  }

  /** Over every run of a minted row, each promise holds at every point exactly when no step breaks it. */
  lemma PromiseKeptExactly(p: Promise, s: State, actions: seq<Action>)
    requires Fresh(s) && Runs(s, actions)
    ensures HoldsThroughout(p, s, actions) <==> NoStepBreaks(p, s, actions)
  {
    KeptExactlyFrom(p, s, actions);
  }

  // ---- The payout ----

  predicate WasPaid(s: State) { exists r :: r in s.past && r.status == Paid }

  /** The rail is instructed only for a row that was paid, and a delivered row that was instructed was. */
  ghost predicate InstructedOnlyPaid(s: State) {
    s.row in s.past && (InstructKey in s.outbox ==> WasPaid(s))
  }

  /** A step makes the row paid from a funded row that is not sanctioned, and only such a step instructs the rail. */
  lemma StepInstructs(s: State, a: Action)
    requires Enabled(s, a)
    ensures var t := Apply(s, a);
            && (InstructKey in t.outbox ==>
                  InstructKey in s.outbox || (s.row.status != Paid && t.row.status == Paid && !a.RailStatus?))
            && (s.row.status !in {Paid, Delivered} && t.row.status in {Paid, Delivered} ==>
                  && s.row.debit in {NoDebit, DebitSucceeded} && s.row.compliance != Sanctioned
                  && ((s.row.status == InReview && a.Release?) || (s.row.status == Awaiting && s.row.compliance == Cleared)))
  {
    hide LegalFrom, DecideStaffCancel, Refundable, Voidable;
  }

  /** What one step adds to the past. */
  lemma StepAddsRow(s: State, a: Action)
    requires Enabled(s, a) && s.row in s.past
    ensures var t := Apply(s, a);
            t.row in t.past && s.past <= t.past && forall r :: r in t.past ==> r in s.past || r.status == t.row.status
  {
    hide LegalFrom, DecideStaffCancel, Refundable, Voidable, FundingGate;
  }

  lemma StepKeepsInstructed(s: State, a: Action)
    requires InstructedOnlyPaid(s) && Enabled(s, a)
    ensures InstructedOnlyPaid(Apply(s, a))
  {
    hide Apply, Enabled;
    StepInstructs(s, a);
    StepAddsRow(s, a);
    var t := Apply(s, a);
    if WasPaid(s) {
      var r :| r in s.past && r.status == Paid;
      assert r in t.past;
    }
    assert t.row in t.past;
  }

  lemma {:induction false} RunKeepsInstructed(s: State, actions: seq<Action>)
    requires InstructedOnlyPaid(s) && Runs(s, actions)
    ensures InstructedOnlyPaid(Exec(s, actions))
    decreases |actions|
  {
    if actions != [] {
      StepKeepsInstructed(s, actions[0]);
      RunKeepsInstructed(Apply(s, actions[0]), actions[1..]);
    }
  }

  lemma {:induction false} PromiseAtTheEnd(p: Promise, s: State, actions: seq<Action>)
    requires Runs(s, actions) && HoldsThroughout(p, s, actions)
    ensures Holds(p, Exec(s, actions))
    decreases |actions|
  {
    if actions != [] { PromiseAtTheEnd(p, Apply(s, actions[0]), actions[1..]); }
  }

  /**
   Over every run of a minted row the payout is queued only for a row that was paid; and it is for every
   paid or delivered row, as long as the rail's callback moves no row that still awaits payment.
   */
  lemma PaidExactlyWhenInstructed(s: State, actions: seq<Action>)
    requires Fresh(s) && Runs(s, actions)
    ensures var e := Exec(s, actions);
            && (InstructKey in e.outbox ==> exists r :: r in e.past && r.status == Paid)
            && (NoStepBreaks(Instructed, s, actions) && e.row.status in {Paid, Delivered} ==> InstructKey in e.outbox)
  {
    RunKeepsInstructed(s, actions);
    PromiseKeptExactly(Instructed, s, actions);
    if NoStepBreaks(Instructed, s, actions) { PromiseAtTheEnd(Instructed, s, actions); }
  }

  /** OneEffect in numbers. */
  lemma OneEffectCounts(s: State)
    requires Holds(OneEffect, s)
    ensures |set k | k in s.outbox && IsQueued(s, k)| == if s.row.refund == Pending then 1 else 0
  {
    var q := set k | k in s.outbox && IsQueued(s, k);
    if s.row.refund == Pending {
      var k :| OnlyQueued(s, k);
      assert q == {k};
    } else {
      assert q == {};
    }
  }

  // ---- A hold can be rejected on a spent key only after an escalation ----

  /** Before it is paid, a row that was never escalated was never anything but unrefunded. */
  ghost predicate NeverRequested(s: State) {
    s.row.status in {Awaiting, InReview, Blocked} ==>
      s.row in s.past && forall r :: r in s.past ==> r.refund == NoRefund && r.status in {Awaiting, InReview, Blocked}
  }

  lemma StepKeepsNeverRequested(s: State, a: Action)
    requires NeverRequested(s) && Enabled(s, a) && a != Escalate
    ensures NeverRequested(Apply(s, a))
  {
    hide FundingGate, DecideStaffCancel, Refundable;
  }

  lemma {:induction false} RunKeepsNeverRequested(s: State, actions: seq<Action>)
    requires NeverRequested(s) && Runs(s, actions) && Escalate !in actions
    ensures NeverRequested(Exec(s, actions))
    decreases |actions|
  {
    if actions != [] {
      StepKeepsNeverRequested(s, actions[0]);
      RunKeepsNeverRequested(Apply(s, actions[0]), actions[1..]);
    }
  }

  /** Without an escalation every effective reject of a charged hold starts a refund with its own effect. */
  lemma UnescalatedRejectRefunds(s: State, actions: seq<Action>, seen: Row)
    requires Fresh(s) && Runs(s, actions) && Escalate !in actions
    requires seen in Exec(s, actions).past
    ensures var e := Exec(s, actions);
            var t := Apply(e, Reject(seen));
            e.row.status == InReview && seen.status == InReview ==>
              && t.row == e.row.(status := Cancelled, refund := if e.row.charged then Pending else NoRefund)
              && t.outbox == if e.row.charged then e.outbox[RefundKey := Queued] else e.outbox
  {
    RunKeepsNeverRequested(s, actions);
    RunKeepsCore(s, actions);
  }

  // ---- Every kind of break is reached ----

  function Minted(): State {
    var r := Row(Awaiting, NoRefund, false, false, NoDebit, Cleared, false);
    State(r, {r}, map[], 0, 0, 0, 0)
  }

  lemma RunFrom(s: State, a: Action, rest: seq<Action>)
    requires Enabled(s, a) && Runs(Apply(s, a), rest)
    ensures Runs(s, [a] + rest) && Exec(s, [a] + rest) == Exec(Apply(s, a), rest)
  {
    assert ([a] + rest)[1..] == rest;
  }

  /** The rows of the escalated hold, in order. */
  function EscalatedRow(n: nat): Row
    requires n <= 5
  {
    if n == 0 then Row(Awaiting, NoRefund, true, false, NoDebit, Cleared, false)
    else if n == 1 then Row(InReview, NoRefund, true, false, NoDebit, Cleared, false)
    else if n == 2 then Row(InReview, Requested, true, false, NoDebit, Cleared, false)
    else if n == 3 then Row(InReview, Pending, true, false, NoDebit, Cleared, false)
    else if n == 4 then Row(InReview, Failed, true, false, NoDebit, Cleared, false)
    else Row(Cancelled, Pending, true, false, NoDebit, Cleared, false)
  }

  function EscalatedTail(): seq<Action> {
    [Callback(false, None), Drain(RefundKey, Whole), Reject(EscalatedRow(4))]
  }

  function EscalatedRun(): seq<Action> {
    [Capture, Hold, Escalate, Approve(EscalatedRow(2))] + EscalatedTail()
  }

  lemma EscalatedTailStrands(s: State)
    requires s.row == EscalatedRow(3) && s.outbox == map[RefundKey := Queued]
    ensures Runs(s, EscalatedTail())
    ensures var e := Exec(s, EscalatedTail()); e.row == EscalatedRow(5) && e.outbox == map[RefundKey := Done]
  {
    var s5 := Apply(s, Callback(false, None));
    assert s5.row == EscalatedRow(4) && s5.outbox == map[RefundKey := Queued];
    var s6 := Apply(s5, Drain(RefundKey, Whole));
    assert s6.row == EscalatedRow(4) && s6.outbox == map[RefundKey := Done];
    var s7 := Apply(s6, Reject(EscalatedRow(4)));
    assert s7.row == EscalatedRow(5) && s7.outbox == map[RefundKey := Done];
    RunFrom(s6, Reject(EscalatedRow(4)), []);
    RunFrom(s5, Drain(RefundKey, Whole), [Reject(EscalatedRow(4))]);
    RunFrom(s, Callback(false, None), [Drain(RefundKey, Whole)] + [Reject(EscalatedRow(4))]);
    assert EscalatedTail() == [Callback(false, None)] + ([Drain(RefundKey, Whole)] + [Reject(EscalatedRow(4))]);
  }

  lemma EscalatedMiddle(s: State)
    requires s.row == EscalatedRow(1) && s.outbox == map[]
    ensures Runs(s, [Escalate, Approve(EscalatedRow(2))] + EscalatedTail())
    ensures var e := Exec(s, [Escalate, Approve(EscalatedRow(2))] + EscalatedTail());
            e.row == EscalatedRow(5) && e.outbox == map[RefundKey := Done]
  {
    var s3 := Apply(s, Escalate);
    assert s3.row == EscalatedRow(2) && s3.outbox == map[];
    var s4 := Apply(s3, Approve(EscalatedRow(2)));
    assert s4.row == EscalatedRow(3) && s4.outbox == map[RefundKey := Queued];
    var tail := EscalatedTail();
    EscalatedTailStrands(s4);
    RunFrom(s3, Approve(EscalatedRow(2)), tail);
    RunFrom(s, Escalate, [Approve(EscalatedRow(2))] + tail);
    assert [Escalate, Approve(EscalatedRow(2))] + tail == [Escalate] + ([Approve(EscalatedRow(2))] + tail);
  }

  /**
   A charged hold whose refund was escalated, approved and reported failed, and whose effect the
   worker then finished: rejecting it leaves a pending refund that nothing will ever send.
   */
  lemma EscalatedRejectStrands()
    ensures Fresh(Minted()) && Runs(Minted(), EscalatedRun())
    ensures var e := Exec(Minted(), EscalatedRun());
            e.row == EscalatedRow(5) && e.outbox == map[RefundKey := Done] && !Holds(NeverStranded, e)
  {
    var s1 := Apply(Minted(), Capture);
    assert s1.row == EscalatedRow(0) && s1.outbox == map[];
    var s2 := Apply(s1, Hold);
    assert s2.row == EscalatedRow(1) && s2.outbox == map[];
    EscalatedMiddle(s2);
    var rest := [Escalate, Approve(EscalatedRow(2))] + EscalatedTail();
    RunFrom(s1, Hold, rest);
    RunFrom(Minted(), Capture, [Hold] + rest);
    assert EscalatedRun() == [Capture] + ([Hold] + rest);
  }

  function RetriedRow(refund: Refund): Row { Row(Paid, refund, true, false, NoDebit, Cleared, false) }

  function RetriedRun(ms: int): seq<Action> {
    [Capture, Pay, Issue(RetriedRow(NoRefund)), Callback(false, None), Retry(RetriedRow(Failed), ms)]
  }

  lemma RetriedTail(s: State, ms: int)
    requires s.row == RetriedRow(Pending) && IsQueued(s, RefundKey) && RetryKey(ms) !in s.outbox
    ensures var rest := [Callback(false, None), Retry(RetriedRow(Failed), ms)];
            Runs(s, rest) && Exec(s, rest).row == RetriedRow(Pending)
            && IsQueued(Exec(s, rest), RefundKey) && IsQueued(Exec(s, rest), RetryKey(ms))
  {
    var s4 := Apply(s, Callback(false, None));
    assert s4.row == RetriedRow(Failed) && s4.outbox == s.outbox;
    var s5 := Apply(s4, Retry(RetriedRow(Failed), ms));
    assert s5.row == RetriedRow(Pending) && s5.outbox == s.outbox[RetryKey(ms) := Queued];
    RunFrom(s4, Retry(RetriedRow(Failed), ms), []);
    RunFrom(s, Callback(false, None), [Retry(RetriedRow(Failed), ms)]);
  }

  /** The provider's failure verdict leaves the first effect undrained, so a retry makes two. */
  lemma RetryAfterVerdictQueuesTwo(ms: int)
    ensures Runs(Minted(), RetriedRun(ms))
    ensures var e := Exec(Minted(), RetriedRun(ms));
            e.row.refund == Pending && IsQueued(e, RefundKey) && IsQueued(e, RetryKey(ms)) && !Holds(OneEffect, e)
  {
    var s1 := Apply(Minted(), Capture);
    var s2 := Apply(s1, Pay);
    assert s2.row == RetriedRow(NoRefund) && s2.outbox == map[InstructKey := Queued];
    var s3 := Apply(s2, Issue(RetriedRow(NoRefund)));
    assert s3.row == RetriedRow(Pending) && s3.outbox == s2.outbox[RefundKey := Queued];
    var tail := [Callback(false, None), Retry(RetriedRow(Failed), ms)];
    RetriedTail(s3, ms);
    RunFrom(s2, Issue(RetriedRow(NoRefund)), tail);
    RunFrom(s1, Pay, [Issue(RetriedRow(NoRefund))] + tail);
    RunFrom(Minted(), Capture, [Pay] + ([Issue(RetriedRow(NoRefund))] + tail));
    assert RetriedRun(ms) == [Capture] + ([Pay] + ([Issue(RetriedRow(NoRefund))] + tail));
  }

  /** The charge of a row that was cancelled first: recording it does not look at the status. */
  lemma LateCaptureStays()
    ensures var run := [Cancel(Minted().row), Capture];
            Runs(Minted(), run) && !Holds(ChargeReturned, Exec(Minted(), run))
            && NothingQueued(Exec(Minted(), run))
  {
    var s1 := Apply(Minted(), Cancel(Minted().row));
    assert s1.row.status == Cancelled && s1.outbox == map[];
    RunFrom(s1, Capture, []);
    RunFrom(Minted(), Cancel(Minted().row), [Capture]);
    assert [Cancel(Minted().row)] + [Capture] == [Cancel(Minted().row), Capture];
  }

  /** The rail's callback alone: a row that awaited payment is paid, with no payout queued. */
  lemma CallbackPaysUninstructed()
    ensures var run := [RailStatus(false)];
            Runs(Minted(), run) && Exec(Minted(), run).row.status == Paid && !Holds(Instructed, Exec(Minted(), run))
  {
    RunFrom(Minted(), RailStatus(false), []);
    assert [RailStatus(false)] + [] == [RailStatus(false)];
  }

  function ResentTail(ms: int): seq<Action> {
    [Drain(RefundKey, Whole), Retry(RetriedRow(Failed), ms), Drain(RetryKey(ms), Whole)]
  }

  lemma ResentTailSends(s: State, ms: int)
    requires s.row == RetriedRow(Failed) && s.sends == 0 && IsQueued(s, RefundKey) && RetryKey(ms) !in s.outbox
    requires s.row in s.past
    ensures Runs(s, ResentTail(ms)) && Exec(s, ResentTail(ms)).sends == 2
  {
    var s1 := Apply(s, Drain(RefundKey, Whole));
    assert s1.row == RetriedRow(Failed) && s1.sends == 1 && s1.outbox == s.outbox[RefundKey := Done];
    var s2 := Apply(s1, Retry(RetriedRow(Failed), ms));
    assert s2.row == RetriedRow(Pending) && s2.sends == 1 && IsQueued(s2, RetryKey(ms));
    RunFrom(s2, Drain(RetryKey(ms), Whole), []);
    RunFrom(s1, Retry(RetriedRow(Failed), ms), [Drain(RetryKey(ms), Whole)]);
    RunFrom(s, Drain(RefundKey, Whole), [Retry(RetriedRow(Failed), ms)] + [Drain(RetryKey(ms), Whole)]);
    assert ResentTail(ms) == [Drain(RefundKey, Whole)] + ([Retry(RetriedRow(Failed), ms)] + [Drain(RetryKey(ms), Whole)]);
  }

  function ResentRun(ms: int): seq<Action> {
    [Capture, Pay, Issue(RetriedRow(NoRefund)), Callback(false, None)] + ResentTail(ms)
  }

  /** The worker drains the first effect after the provider's failure verdict, and staff retry: the money is sent twice. */
  lemma DrainAfterVerdictSendsTwice(ms: int)
    ensures Runs(Minted(), ResentRun(ms)) && Exec(Minted(), ResentRun(ms)).sends == 2
  {
    var s1 := Apply(Minted(), Capture);
    var s2 := Apply(s1, Pay);
    assert s2.row == RetriedRow(NoRefund) && s2.outbox == map[InstructKey := Queued];
    var s3 := Apply(s2, Issue(RetriedRow(NoRefund)));
    assert s3.row == RetriedRow(Pending) && s3.outbox == s2.outbox[RefundKey := Queued];
    var s4 := Apply(s3, Callback(false, None));
    assert s4.row == RetriedRow(Failed) && s4.outbox == s3.outbox;
    var tail := ResentTail(ms);
    ResentTailSends(s4, ms);
    RunFrom(s3, Callback(false, None), tail);
    RunFrom(s2, Issue(RetriedRow(NoRefund)), [Callback(false, None)] + tail);
    RunFrom(s1, Pay, [Issue(RetriedRow(NoRefund))] + ([Callback(false, None)] + tail));
    RunFrom(Minted(), Capture, [Pay] + ([Issue(RetriedRow(NoRefund))] + ([Callback(false, None)] + tail)));
    assert ResentRun(ms) == [Capture] + ([Pay] + ([Issue(RetriedRow(NoRefund))] + ([Callback(false, None)] + tail)));
  }

  // ---- The staff actions as transactions over the ledger ----

  /** One row and its outbox. A method that throws leaves everything as it found it. */
  class Ledger {
    var row: Row
    var outbox: map<Key, Effect>
    ghost var past: set<Row>
    ghost var completions: nat
    ghost var releases: nat
    ghost var rejects: nat
    ghost var sends: nat

    ghost function Snapshot(): State
      reads this
    {
      State(row, past, outbox, completions, releases, rejects, sends)
    }

    method Write(r: Row)
      modifies this
      ensures Snapshot() == Commit(old(Snapshot()), r)
    {
      row, past := r, past + {r};
    }

    method ClaimRefund(next: Refund, from: Option<Refund>) returns (updated: Option<Row>)
      modifies this
      ensures updated == UpdateRefund(old(row), next, from)
      ensures Snapshot() == if updated.Some? then Commit(old(Snapshot()), updated.value) else old(Snapshot())
    {
      var legal := row.refund in LegalFrom(next) && (from.Some? ==> row.refund == from.value);
      if !legal { return None; }
      Write(row.(refund := next));
      return Some(row);
    }

    method EnqueueEffect(k: Key) returns (isNew: bool)
      modifies this
      ensures isNew <==> k !in old(outbox)
      ensures Snapshot() == Enqueue(old(Snapshot()), k)
    {
      isNew := k !in outbox;
      if isNew { outbox := outbox[k := Queued]; }
    }

    method CancelTransfer(seen: Row) returns (outcome: CancelDecision)
      requires seen in past
      modifies this
      ensures Snapshot() == Apply(old(Snapshot()), Cancel(seen))
      ensures outcome == Void ==> old(Voidable(row)) && row == old(row).(status := Cancelled)
      ensures seen == old(row) ==> (outcome == Void <==> seen.status == Awaiting && !seen.charged && !seen.intent)
      ensures outcome != Void ==> Snapshot() == old(Snapshot())
    {
      outcome := DecideStaffCancel(seen);
      if outcome != Void { return; }
      if row.status == Awaiting && !row.charged && !row.intent {
        Write(row.(status := Cancelled));
      } else {
        outcome := Refuse;
      }
    }

    method ReverseB2bSettlement(seen: Row) returns (ok: bool)
      requires seen in past
      modifies this
      ensures Snapshot() == Apply(old(Snapshot()), Reverse(seen))
      ensures ok ==> RefundKey !in old(outbox) && RefundKey in outbox
      ensures seen == old(row) && old(Core(Snapshot())) ==> (ok <==> Reversible(seen)) && (ok ==> row.refund == Pending)
      ensures !ok ==> Snapshot() == old(Snapshot())
    {
      if !seen.pulled { return false; }
      if seen.status != Paid && seen.status != Delivered { return false; }
      if seen.refund != NoRefund { return false; }
      ghost var wasPast := past;
      var was := row;
      var updated := ClaimRefund(Pending, None);
      ok := EnqueueEffect(RefundKey);
      if !ok { row, past := was, wasPast; }
    }

    method ReleaseTransfer(seen: Row) returns (ok: bool)
      requires seen in past
      modifies this
      ensures Snapshot() == Apply(old(Snapshot()), Release(seen))
      ensures ok <==> releases == old(releases) + 1
      ensures ok ==> row == old(row).(status := Paid) && InstructKey in outbox
      ensures seen == old(row) ==> (ok <==> seen.status == InReview && seen.compliance != Sanctioned
                                            && seen.debit in {NoDebit, DebitSucceeded})
      ensures !ok ==> Snapshot() == old(Snapshot())
    {
      if seen.status != InReview { return false; }
      if row.status != InReview || row.compliance == Sanctioned || !FundingGate(row) { return false; }
      Write(row.(status := Paid));
      var isNew := EnqueueEffect(InstructKey);
      releases := releases + 1;
      ok := true;
    }

    method RejectTransfer(seen: Row) returns (ok: bool)
      requires seen in past
      modifies this
      ensures Snapshot() == Apply(old(Snapshot()), Reject(seen))
      ensures ok <==> rejects == old(rejects) + 1
      ensures seen == old(row) ==> (ok <==> seen.status == InReview)
      ensures ok ==> row.status == Cancelled
      ensures !ok ==> Snapshot() == old(Snapshot())
    {
      if seen.status != InReview { return false; }
      if row.status != InReview { return false; }
      Write(row.(status := Cancelled));
      rejects := rejects + 1;
      ok := true;
      if !row.charged { return; }
      var updated := ClaimRefund(Pending, None);
      var isNew := EnqueueEffect(RefundKey);
    }

    method IssueRefund(seen: Row) returns (ok: bool)
      requires seen in past
      modifies this
      ensures Snapshot() == Apply(old(Snapshot()), Issue(seen))
      ensures ok ==> old(row).refund == NoRefund && row.refund == Pending && RefundKey !in old(outbox) && RefundKey in outbox
      ensures seen == old(row) && old(Core(Snapshot())) ==> (ok <==> Issuable(seen))
      ensures !ok ==> Snapshot() == old(Snapshot())
    {
      if seen.status != Paid && seen.status != Delivered { return false; }
      if !seen.charged { return false; }
      if seen.debit != NoDebit && seen.debit != DebitSucceeded { return false; }
      if seen.refund != NoRefund { return false; }
      ghost var wasPast := past;
      var was := row;
      var updated := ClaimRefund(Pending, Some(NoRefund));
      if updated == None { return false; }
      ok := EnqueueEffect(RefundKey);
      if !ok { row, past := was, wasPast; }
    }

    /** Under Core the key is always isNew here, although the code does not look. */
    method ApproveRefund(seen: Row) returns (ok: bool)
      requires seen in past
      modifies this
      ensures Snapshot() == Apply(old(Snapshot()), Approve(seen))
      ensures ok ==> old(row).refund == Requested && row.refund == Pending
      ensures seen == old(row) ==> (ok <==> seen.refund == Requested)
      ensures ok && old(Core(Snapshot())) ==> RefundKey !in old(outbox) && outbox == old(outbox)[RefundKey := Queued]
      ensures !ok ==> Snapshot() == old(Snapshot())
    {
      if seen.refund != Requested { return false; }
      var updated := ClaimRefund(Pending, Some(Requested));
      if updated == None { return false; }
      var isNew := EnqueueEffect(RefundKey);
      ok := true;
    }

    method DismissRefund() returns (ok: bool)
      modifies this
      ensures Snapshot() == Apply(old(Snapshot()), Dismiss)
      ensures ok <==> old(row).refund == Requested
      ensures row == if ok then old(row).(refund := NoRefund) else old(row)
    {
      var updated := ClaimRefund(NoRefund, Some(Requested));
      ok := updated.Some?;
    }

    method RetryRefund(seen: Row, ms: int) returns (ok: bool)
      requires seen in past
      modifies this
      ensures Snapshot() == Apply(old(Snapshot()), Retry(seen, ms))
      ensures ok ==> old(row).refund == Failed && row.refund == Pending && RetryKey(ms) in outbox
      ensures seen == old(row) ==> (ok <==> seen.refund == Failed)
      ensures !ok ==> Snapshot() == old(Snapshot())
    {
      if seen.refund != Failed { return false; }
      var updated := ClaimRefund(Pending, Some(Failed));
      if updated == None { return false; }
      var isNew := EnqueueEffect(RetryKey(ms));
      ok := true;
    }
  }
}
