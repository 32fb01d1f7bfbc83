/**
 The re-sealing loop over one encrypted column: pages of stale rows by key, each row opened, sealed
 again under the current key and written back by compare-and-set, while other writers change the
 table between any two statements. Both scripts run this loop: the key-ring pass over v2 values
 under another key id, and the v1 to v2 pass.
 */
module Reseal {

  import opened Wrappers
  import opened Sets

  // A row key (the tuple of key columns). Its order is a parameter; so is the row's crypto context.
  type Key = int
  type Order = (Key, Key) -> bool

  /** Symbolic field crypto. The nonce makes two seals of one value different blobs. */
  datatype Blob =
    | V1(plain: string)
    | V1Damaged
    | V2(kid: int, context: Key, sealed: string, nonce: int)
    | V2Damaged(kid: int)
    | Plain(text: string)

  datatype Pass = KeyRing(kid: int) | AadV2(kid: int)

  predicate Stale(pass: Pass, b: Blob) {
    match pass
    case KeyRing(kid) => (b.V2? || b.V2Damaged?) && b.kid != kid
    case AadV2(_) => b.V1? || b.V1Damaged?
  }

  /** decryptField: a v1 value ignores the context, a v2 value opens only in its own and under a held key. */
  function Open(ring: set<int>, context: Key, b: Blob): Option<string> {
    match b
    case V1(p) => Some(p)
    case V2(kid, c, p, _) => if kid in ring && c == context then Some(p) else None
    case _ => None
  }

  function Seal(kid: int, context: Key, plain: string, nonce: int): Blob { V2(kid, context, plain, nonce) }

  /** A sealed value opens to its text exactly with its key at hand and in the row it was sealed for. */
  lemma SealOpensExactly(ring: set<int>, kid: int, sealedFor: Key, openedFor: Key, plain: string, nonce: int)
    ensures Open(ring, openedFor, Seal(kid, sealedFor, plain, nonce)) == Some(plain) <==> kid in ring && openedFor == sealedFor
    ensures kid !in ring || openedFor != sealedFor ==> Open(ring, openedFor, Seal(kid, sealedFor, plain, nonce)) == None
  {
  }

  type Rows = map<Key, Blob>

  ghost predicate StaleAt(pass: Pass, rows: Rows, k: Key) { k in rows && Stale(pass, rows[k]) }

  function StaleKeys(pass: Pass, rows: Rows): set<Key> { set k | k in rows && Stale(pass, rows[k]) }

  // ---- The page query ----

  ghost predicate TotalOrder(lt: Order) {
    && (forall a :: !lt(a, a))
    && (forall a, b, c :: lt(a, b) && lt(b, c) ==> lt(a, c))
    && (forall a, b :: lt(a, b) || a == b || lt(b, a))
  }

  lemma Trans(lt: Order, a: Key, b: Key, c: Key)
    requires TotalOrder(lt) && lt(a, b) && lt(b, c)
    ensures lt(a, c)
  {
  }

  ghost predicate Sorted(lt: Order, page: seq<Key>) {
    forall i, j :: 0 <= i < j < |page| ==> lt(page[i], page[j])
  }

  predicate Past(past: Order, after: Option<Key>, k: Key) { after.Some? ==> past(after.value, k) }

  /** The first `batch` keys past the cursor: `sort` orders the page, `past` compares with the cursor. */
  ghost predicate IsPage(keys: set<Key>, sort: Order, past: Order, after: Option<Key>, batch: nat, page: seq<Key>) {
    && |page| <= batch
    && Sorted(sort, page)
    && (forall k :: k in page ==> k in keys && Past(past, after, k))
    && (forall k :: k in keys && Past(past, after, k) ==>
         k in page || (|page| == batch && forall i :: 0 <= i < |page| ==> sort(page[i], k)))
  }

  type Query = (set<Key>, Option<Key>, nat) -> seq<Key>

  /**
   The page query, with one order for sorting and for the cursor. The key-ring script sorts by the typed
   column and compares typed values. The v1 to v2 script sorts by the key cast to text and compares it
   uncast, so its two orders are one only for text keys, which every table that can hold v1 values has;
   on other keys they need not agree, and OrdersMustAgree says what that costs.
   */
  ghost predicate Queries(query: Query, lt: Order) {
    forall keys, after, batch :: IsPage(keys, lt, lt, after, batch, query(keys, after, batch))
  }

  // ---- Sort order and cursor order must be the same ----

  /** A scan over rows that all fail to open, so that none of them changes. */
  ghost predicate Scan(keys: set<Key>, sort: Order, past: Order, after: Option<Key>, batch: nat, visited: seq<Key>)
    decreases |visited|
  {
    exists page :: IsPage(keys, sort, past, after, batch, page) &&
      if page == [] then visited == []
      else page <= visited && Scan(keys, sort, past, Some(page[|page| - 1]), batch, visited[|page|..])
  }

  ghost predicate ScansVisitAll(sort: Order, past: Order) {
    forall keys, batch, visited {:trigger Scan(keys, sort, past, None, batch, visited)} ::
      batch >= 1 && Scan(keys, sort, past, None, batch, visited) ==> forall k :: k in keys ==> k in visited
  }

  ghost predicate SameOrder(sort: Order, past: Order) { forall a, b :: sort(a, b) <==> past(a, b) }

  lemma {:induction false} ScanVisitsAhead(keys: set<Key>, sort: Order, past: Order, after: Option<Key>, batch: nat,
                                           visited: seq<Key>)
    requires SameOrder(sort, past) && batch >= 1 && Scan(keys, sort, past, after, batch, visited)
    ensures forall k :: k in keys && Past(past, after, k) ==> k in visited
    decreases |visited|
  {
    var page :| IsPage(keys, sort, past, after, batch, page) &&
      if page == [] then visited == []
      else page <= visited && Scan(keys, sort, past, Some(page[|page| - 1]), batch, visited[|page|..]);
    if page != [] {
      var last := page[|page| - 1];
      ScanVisitsAhead(keys, sort, past, Some(last), batch, visited[|page|..]);
      forall k | k in keys && Past(past, after, k) && k !in page
        ensures k in visited
      {
        assert sort(last, k) <==> past(last, k);
      }
    }
  }

  /** Two rows on which the orders disagree: with pages of one, the scan ends without the second. */
  lemma DisagreementSkips(sort: Order, past: Order, a: Key, b: Key)
    requires TotalOrder(sort) && TotalOrder(past) && sort(a, b) && past(b, a)
    ensures Scan({a, b}, sort, past, None, 1, [a]) && b !in [a]
  {
    var keys := {a, b};
    assert IsPage(keys, sort, past, None, 1, [a]);
    assert IsPage(keys, sort, past, Some(a), 1, []);
    assert Scan(keys, sort, past, Some(a), 1, []);
    assert [a] <= [a] && [a][|[a]|..] == [];
  }

  /** No stale row is ever skipped, for any table and page size, exactly when the two orders are one. */
  lemma OrdersMustAgree(sort: Order, past: Order)
    requires TotalOrder(sort) && TotalOrder(past)
    ensures ScansVisitAll(sort, past) <==> SameOrder(sort, past)
  {
    if SameOrder(sort, past) {
      forall keys, batch, visited | batch >= 1 && Scan(keys, sort, past, None, batch, visited)
        ensures forall k :: k in keys ==> k in visited
      {
        ScanVisitsAhead(keys, sort, past, None, batch, visited);
        assert forall k :: k in keys ==> Past(past, None, k);
      }
    } else {
      var a, b :| sort(a, b) != past(a, b);
      if sort(a, b) {
        DisagreementSkips(sort, past, a, b);
        assert b in {a, b};
      } else {
        DisagreementSkips(sort, past, b, a);
        assert {b, a} == {a, b} && a in {b, a};
      }
    }
  }

  // ---- The loop against a table that others write ----

  datatype Report = Report(resealed: nat, skipped: nat, failed: nat)

  ghost predicate SameOpened(ring: set<int>, was: Rows, now: Rows) {
    && was.Keys == now.Keys
    && forall k :: k in was ==> Open(ring, k, was[k]) == Open(ring, k, now[k])
  }

  /** One of the script's own writes: one stale row that opens becomes a current row that opens to the same text. */
  ghost predicate OwnWrite(pass: Pass, ring: set<int>, was: Rows, now: Rows) {
    exists k :: k in was && k in now && now == was[k := now[k]]
      && Stale(pass, was[k]) && !Stale(pass, now[k])
      && Open(ring, k, was[k]).Some? && Open(ring, k, now[k]) == Open(ring, k, was[k])
  }

  /** One table column. `history` holds every version of it and `own` marks the versions the script wrote. */
  class Table {
    var rows: Rows
    const busy: bool            // other writers exist
    const universe: set<Key>    // every key a row may ever have
    ghost var history: seq<Rows>
    ghost var own: set<int>

    ghost predicate Valid()
      reads this
    {
      && rows.Keys <= universe
      && history != [] && history[|history| - 1] == rows
      && (forall v :: v in own ==> 0 < v < |history|)
    }

    constructor (initial: Rows, busy: bool, universe: set<Key>)
      requires initial.Keys <= universe
      ensures Valid() && rows == initial && this.busy == busy && own == {}
    {
      rows := initial;
      this.busy := busy;
      this.universe := universe;
      history := [initial];
      own := {};
    }

    /** Any number of writes, inserts and deletes by others. */
    method Others()
      requires Valid()
      modifies this
      ensures Valid() && own == old(own) && old(history) <= history
      ensures !busy ==> rows == old(rows)
    {
      var steps: nat := *;
      while busy && steps > 0
        invariant Valid() && own == old(own) && old(history) <= history
        invariant !busy ==> rows == old(rows)
        decreases steps
      {
        var k: Key, b: Blob, drop: bool := *, *, *;
        if drop {
          rows := map j | j in rows && j != k :: rows[j];
        } else if k in universe {
          rows := rows[k := b];
        }
        history := history + [rows];
        steps := steps - 1;
      }
    }

    /** UPDATE .. SET col = next WHERE key AND col = was. */
    method CompareAndSet(k: Key, was: Blob, next: Blob) returns (ok: bool)
      requires Valid()
      modifies this
      ensures Valid() && old(history) <= history
      ensures ok <==> k in old(rows) && old(rows)[k] == was
      ensures ok ==> rows == old(rows)[k := next] && history == old(history) + [rows] && own == old(own) + {|old(history)|}
      ensures !ok ==> rows == old(rows) && history == old(history) && own == old(own)
    {
      ok := k in rows && rows[k] == was;
      if ok {
        rows := rows[k := next];
        own := own + {|history|};
        history := history + [rows];
      }
    }
  }

  /** Some version from `since` on in which row k was absent or not stale. */
  ghost predicate NotStaleOnce(pass: Pass, history: seq<Rows>, since: nat, k: Key) {
    exists v :: since <= v < |history| && !StaleAt(pass, history[v], k)
  }

  lemma NotStaleStays(pass: Pass, history: seq<Rows>, longer: seq<Rows>, since: nat, k: Key)
    requires NotStaleOnce(pass, history, since, k) && history <= longer
    ensures NotStaleOnce(pass, longer, since, k)
  {
    var v :| since <= v < |history| && !StaleAt(pass, history[v], k);
    assert !StaleAt(pass, longer[v], k);
  }

  ghost predicate OwnWritesPreserve(pass: Pass, ring: set<int>, t: Table, before: set<int>)
    requires t.Valid()
    reads t
  {
    forall v :: v in t.own && v !in before ==> OwnWrite(pass, ring, t.history[v - 1], t.history[v])
  }

  /** The text sealed as a v2 value of this row under the current key of the pass. */
  predicate Resealed(pass: Pass, k: Key, plain: string, now: Blob) {
    now.V2? && now.kid == pass.kid && now.context == k && now.sealed == plain
  }

  /** Each row counted as resealed is one write of ours, and the other way round. */
  ghost predicate CountsWrites(t: Table, before: set<int>, was: Report, now: Report)
    reads t
  {
    before <= t.own && now.resealed - was.resealed == |t.own| - |before|
  }

  /** Re-seal one row read as `was`; counts it exactly once. */
  method ResealRow(t: Table, pass: Pass, ring: set<int>, k: Key, was: Blob, report: Report) returns (next: Report)
    requires t.Valid() && pass.kid in ring && Stale(pass, was)
    modifies t
    ensures t.Valid() && old(t.history) <= t.history
    ensures next.resealed + next.skipped + next.failed == report.resealed + report.skipped + report.failed + 1
    ensures next.failed - report.failed == if Open(ring, k, was) == None then 1 else 0
    ensures CountsWrites(t, old(t.own), report, next)
    ensures !t.busy && k in old(t.rows) && old(t.rows)[k] == was ==> next.skipped == report.skipped
    ensures OwnWritesPreserve(pass, ring, t, old(t.own))
    ensures !t.busy && k in old(t.rows) && old(t.rows)[k] == was ==>
              && SameOpened(ring, old(t.rows), t.rows)
              && (if Open(ring, k, was) == None then t.rows == old(t.rows)
                  else Resealed(pass, k, Open(ring, k, was).value, t.rows[k]) && t.rows == old(t.rows)[k := t.rows[k]])
  {
    var plain := Open(ring, k, was);
    if plain == None { return report.(failed := report.failed + 1); }
    var nonce: int := *;
    var sealed := Seal(pass.kid, k, plain.value, nonce);
    t.Others();
    var ok := t.CompareAndSet(k, was, sealed);
    next := if ok then report.(resealed := report.resealed + 1) else report.(skipped := report.skipped + 1);
  }

  /** With no other writer: what a visited row became. */
  ghost predicate Handled(pass: Pass, ring: set<int>, k: Key, was: Rows, now: Rows)
    requires k in was && k in now
  {
    if Open(ring, k, was[k]) == None then now[k] == was[k] else Resealed(pass, k, Open(ring, k, was[k]).value, now[k])
  }

  /** With no other writer: the rows in `visited` are handled, the others untouched, and all open as before. */
  ghost predicate HandledExactly(pass: Pass, ring: set<int>, visited: seq<Key>, was: Rows, now: Rows) {
    && SameOpened(ring, was, now)
    && (forall k :: k in visited ==> StaleAt(pass, was, k) && Handled(pass, ring, k, was, now))
    && (forall k :: k in was && k !in visited ==> now[k] == was[k])
  }

  lemma HandledMore(pass: Pass, ring: set<int>, visited: seq<Key>, k: Key, was: Rows, mid: Rows, now: Rows)
    requires HandledExactly(pass, ring, visited, was, mid)
    requires k !in visited && StaleAt(pass, was, k) && SameOpened(ring, mid, now)
    requires if Open(ring, k, was[k]) == None then now == mid
             else k in now && Resealed(pass, k, Open(ring, k, was[k]).value, now[k]) && now == mid[k := now[k]]
    ensures HandledExactly(pass, ring, visited + [k], was, now)
  {
    forall j | j in visited + [k]
      ensures StaleAt(pass, was, j) && Handled(pass, ring, j, was, now)
    {
      assert j in visited || j == k;
    }
  }

  lemma OwnWritesJoin(pass: Pass, ring: set<int>, t: Table, before: set<int>, mid: set<int>, midHistory: seq<Rows>)
    requires t.Valid() && midHistory <= t.history
    requires OwnWritesPreserve(pass, ring, t, mid)
    requires forall v :: v in mid && v !in before ==>
               0 < v < |midHistory| && OwnWrite(pass, ring, midHistory[v - 1], midHistory[v])
    ensures OwnWritesPreserve(pass, ring, t, before)
  {
  }

  /** How many of the keys do not open in the rows read. */
  ghost function Unopened(ring: set<int>, snapshot: Rows, keys: seq<Key>): nat
  {
    if keys == [] then 0
    else
      var n := |keys| - 1;
      var opens := keys[n] in snapshot && Open(ring, keys[n], snapshot[keys[n]]).Some?;
      Unopened(ring, snapshot, keys[..n]) + if opens then 0 else 1
  }

  method ResealPage(t: Table, pass: Pass, ring: set<int>, page: seq<Key>, snapshot: Rows, report: Report,
                    ghost seen: seq<Key>, ghost first: Rows)
    returns (next: Report)
    requires t.Valid() && pass.kid in ring
    requires forall k :: k in page ==> StaleAt(pass, snapshot, k)
    requires forall i, j :: 0 <= i < j < |page| ==> page[i] != page[j]
    requires forall k :: k in page ==> k !in seen
    requires !t.busy ==> t.rows == snapshot && HandledExactly(pass, ring, seen, first, t.rows)
    modifies t
    ensures t.Valid() && old(t.history) <= t.history
    ensures next.resealed + next.skipped + next.failed == report.resealed + report.skipped + report.failed + |page|
    ensures OwnWritesPreserve(pass, ring, t, old(t.own)) && CountsWrites(t, old(t.own), report, next)
    ensures !t.busy ==> next.skipped == report.skipped
    ensures next.failed - report.failed == Unopened(ring, snapshot, page)
    ensures !t.busy ==> HandledExactly(pass, ring, seen + page, first, t.rows)
  {
    hide Resealed, Open;
    next := report;
    ghost var before := t.own;
    assert seen + page[..0] == seen;
    for i := 0 to |page|
      invariant t.Valid() && old(t.history) <= t.history
      invariant next.resealed + next.skipped + next.failed == report.resealed + report.skipped + report.failed + i
      invariant OwnWritesPreserve(pass, ring, t, before) && CountsWrites(t, before, report, next)
      invariant !t.busy ==> next.skipped == report.skipped
      invariant next.failed - report.failed == Unopened(ring, snapshot, page[..i])
      invariant !t.busy ==> HandledExactly(pass, ring, seen + page[..i], first, t.rows)
      invariant !t.busy ==> forall k :: k in snapshot && k !in page[..i] ==> k in t.rows && t.rows[k] == snapshot[k]
    {
      var k := page[i];
      ghost var mid, midOwn, midHistory := t.rows, t.own, t.history;
      assert k in page && k !in page[..i];
      next := ResealRow(t, pass, ring, k, snapshot[k], next);
      OwnWritesJoin(pass, ring, t, before, midOwn, midHistory);
      if !t.busy {
        HandledMore(pass, ring, seen + page[..i], k, first, mid, t.rows);
      }
      assert (seen + page[..i]) + [k] == seen + page[..i + 1];
      assert page[..i + 1][..i] == page[..i];
    }
    assert page[..|page|] == page;
  }

  function Ahead(universe: set<Key>, lt: Order, after: Option<Key>): set<Key> {
    set k | k in universe && Past(lt, after, k)
  }

  lemma AheadShrinks(universe: set<Key>, lt: Order, after: Option<Key>, last: Key)
    requires TotalOrder(lt) && last in universe && Past(lt, after, last)
    ensures |Ahead(universe, lt, Some(last))| < |Ahead(universe, lt, after)|
  {
    var less, more := Ahead(universe, lt, Some(last)), Ahead(universe, lt, after);
    assert last in more && last !in less;
    forall k | k in less
      ensures k in more - {last}
    {
      if after.Some? { Trans(lt, after.value, last, k); }
    }
    SubsetSize(less, more - {last});
  }

  /** Where the scan stands: what it visited, in order, and that it missed nothing behind the cursor. */
  ghost predicate ScanState(pass: Pass, lt: Order, after: Option<Key>, visited: seq<Key>, history: seq<Rows>, since: nat) {
    && Sorted(lt, visited)
    && (after == None <==> visited == [])
    && (after.Some? ==> visited != [] && visited[|visited| - 1] == after.value)
    && (forall k :: !Past(lt, after, k) && k !in visited ==> NotStaleOnce(pass, history, since, k))
  }

  lemma ScanAdvances(pass: Pass, lt: Order, after: Option<Key>, visited: seq<Key>, history: seq<Rows>, since: nat,
                     v: nat, batch: nat, page: seq<Key>, longer: seq<Rows>)
    requires TotalOrder(lt) && ScanState(pass, lt, after, visited, history, since)
    requires since <= v < |history| && history <= longer && page != []
    requires IsPage(StaleKeys(pass, history[v]), lt, lt, after, batch, page)
    ensures ScanState(pass, lt, Some(page[|page| - 1]), visited + page, longer, since)
  {
    var last := page[|page| - 1];
    forall i, j | 0 <= i < j < |visited + page|
      ensures lt((visited + page)[i], (visited + page)[j])
    {
      if i < |visited| <= j {
        var k := page[j - |visited|];
        assert k in page && visited != [];
        var here := visited[|visited| - 1];
        if i < |visited| - 1 { Trans(lt, visited[i], here, k); }
      }
    }
    forall k | !Past(lt, Some(last), k) && k !in visited + page
      ensures NotStaleOnce(pass, longer, since, k)
    {
      if Past(lt, after, k) {
        assert k !in StaleKeys(pass, history[v]);
        assert !StaleAt(pass, history[v], k);
      }
      NotStaleStays(pass, history, longer, since, k);
    }
  }

  lemma ScanEnds(pass: Pass, lt: Order, after: Option<Key>, visited: seq<Key>, history: seq<Rows>, since: nat, batch: nat)
    requires ScanState(pass, lt, after, visited, history, since) && batch >= 1 && since < |history|
    requires IsPage(StaleKeys(pass, history[|history| - 1]), lt, lt, after, batch, [])
    ensures forall k :: k !in visited ==> NotStaleOnce(pass, history, since, k)
  {
    forall k | k !in visited
      ensures NotStaleOnce(pass, history, since, k)
    {
      if Past(lt, after, k) {
        assert !StaleAt(pass, history[|history| - 1], k);
      }
    }
  }

  /** Between two pages; `since`, `before` and `first` are the history, own writes and rows at the start. */
  ghost predicate Progress(t: Table, pass: Pass, ring: set<int>, lt: Order, after: Option<Key>, visited: seq<Key>,
                           since: nat, before: set<int>, first: Rows)
    reads t
  {
    && t.Valid() && since < |t.history|
    && ScanState(pass, lt, after, visited, t.history, since)
    && OwnWritesPreserve(pass, ring, t, before)
    && before <= t.own
    && (!t.busy ==> HandledExactly(pass, ring, visited, first, t.rows) && VisitedBehind(pass, lt, after, visited, t.rows))
  }

  /** One turn of the endless loop; `done` when the page is empty. */
  method ResealNext(t: Table, pass: Pass, ring: set<int>, batch: nat, lt: Order, query: Query, after: Option<Key>, report: Report,
                    ghost visited: seq<Key>, ghost since: nat, ghost before: set<int>, ghost first: Rows)
    returns (done: bool, next: Option<Key>, more: Report, ghost seen: seq<Key>)
    requires pass.kid in ring && batch >= 1 && TotalOrder(lt) && Queries(query, lt)
    requires Progress(t, pass, ring, lt, after, visited, since, before, first)
    modifies t
    ensures Progress(t, pass, ring, lt, next, seen, since, before, first) && old(t.history) <= t.history
    ensures more.resealed + more.skipped + more.failed + |visited| == report.resealed + report.skipped + report.failed + |seen|
    ensures CountsWrites(t, old(t.own), report, more) && (!t.busy ==> more.skipped == report.skipped)
    ensures done ==> forall k :: k !in seen ==> NotStaleOnce(pass, t.history, since, k)
    ensures done && !t.busy ==> forall k :: StaleAt(pass, t.rows, k) ==> k in seen
    ensures !done ==> |Ahead(t.universe, lt, next)| < |Ahead(t.universe, lt, after)|
  {
    next, more, seen := after, report, visited;
    ghost var history0 := t.history;
    t.Others();
    KeepScan(pass, lt, after, visited, history0, t.history, since);
    var snapshot := t.rows;
    var page := query(StaleKeys(pass, snapshot), after, batch);
    assert IsPage(StaleKeys(pass, snapshot), lt, lt, after, batch, page);
    done := page == [];
    if done {
      ScanEnds(pass, lt, after, visited, t.history, since, batch);
      if !t.busy { AllVisited(pass, lt, after, visited, t.rows, batch); }
      return;
    }
    ghost var mid, midHistory := t.own, t.history;
    PageIsNew(lt, after, visited, StaleKeys(pass, snapshot), batch, page);
    more := ResealPage(t, pass, ring, page, snapshot, report, visited, first);
    OwnWritesJoin(pass, ring, t, before, mid, midHistory);
    ScanAdvances(pass, lt, after, visited, midHistory, since, |midHistory| - 1, batch, page, t.history);
    if !t.busy { VisitedAdvances(pass, ring, lt, after, visited, first, snapshot, t.rows, batch, page); }
    next, seen := Some(page[|page| - 1]), visited + page;
    assert page[|page| - 1] in page;
    AheadShrinks(t.universe, lt, after, page[|page| - 1]);
  }

  /**
   resealColumn. It ends for every batch of at least one row; visits keys in strictly increasing
   order, so none twice, and misses only rows that were not stale at some moment of the run; counts
   each visit once; and every version it wrote differs from the one before in one stale row that now
   opens to the same text under the current key. With no other writer the rows it leaves stale are
   the ones that do not open, and no opened text changed.
   */
  method ResealColumn(t: Table, pass: Pass, ring: set<int>, batch: nat, lt: Order, query: Query)
    returns (report: Report, ghost visited: seq<Key>)
    requires t.Valid() && pass.kid in ring && batch >= 1 && TotalOrder(lt) && Queries(query, lt)
    modifies t
    ensures t.Valid() && old(t.history) <= t.history
    ensures Sorted(lt, visited)
    ensures forall k :: k !in visited ==> NotStaleOnce(pass, t.history, |old(t.history)| - 1, k)
    ensures report.resealed + report.skipped + report.failed == |visited|
    ensures OwnWritesPreserve(pass, ring, t, old(t.own))
    ensures old(t.own) <= t.own && report.resealed == |t.own - old(t.own)| && (!t.busy ==> report.skipped == 0)
    ensures !t.busy ==> HandledExactly(pass, ring, visited, old(t.rows), t.rows)
    ensures !t.busy ==> forall k :: StaleAt(pass, t.rows, k) ==> k in visited && Open(ring, k, old(t.rows)[k]) == None
    ensures !t.busy ==> Rotated(pass, ring, old(t.rows), t.rows)
  {
    report, visited := Report(0, 0, 0), [];
    var after: Option<Key> := None;
    var done := false;
    ghost var before, since, first := t.own, |t.history| - 1, t.rows;
    while !done
      invariant Progress(t, pass, ring, lt, after, visited, since, before, first) && old(t.history) <= t.history
      invariant report.resealed + report.skipped + report.failed == |visited|
      invariant CountsWrites(t, before, Report(0, 0, 0), report) && (!t.busy ==> report.skipped == 0)
      invariant done ==> forall k :: k !in visited ==> NotStaleOnce(pass, t.history, since, k)
      invariant done && !t.busy ==> forall k :: StaleAt(pass, t.rows, k) ==> k in visited
      decreases !done, |Ahead(t.universe, lt, after)|
    {
      done, after, report, visited := ResealNext(t, pass, ring, batch, lt, query, after, report, visited, since, before, first);
    }
    if !t.busy { HandledIsRotated(pass, ring, visited, first, t.rows); }
  }

  /**
   What a pass is for. The key-ring pass seals every v2 value of another key again under the current one,
   if the ring still opens it; the v1 pass makes a v2 value of every v1 value; and neither touches another.
   */
  ghost predicate Rotated(pass: Pass, ring: set<int>, was: Rows, now: Rows) {
    && now.Keys == was.Keys
    && forall k :: k in was ==>
         match pass
         case KeyRing(kid) =>
           && (was[k].V2? && was[k].kid != kid && was[k].kid in ring && was[k].context == k ==>
                 Resealed(pass, k, was[k].sealed, now[k]))
           && (was[k].V1? || was[k].V1Damaged? || was[k].Plain? || was[k].kid == kid ==> now[k] == was[k])
         case AadV2(_) =>
           && (was[k].V1? ==> Resealed(pass, k, was[k].plain, now[k]))
           && (was[k].V2? || was[k].V2Damaged? || was[k].Plain? ==> now[k] == was[k])
  }

  lemma HandledIsRotated(pass: Pass, ring: set<int>, visited: seq<Key>, was: Rows, now: Rows)
    requires pass.kid in ring && HandledExactly(pass, ring, visited, was, now)
    requires forall k :: StaleAt(pass, now, k) ==> k in visited
    ensures Rotated(pass, ring, was, now)
  {
    forall k | k in was
      ensures StaleAt(pass, was, k) <==> k in visited
    {
    }
  }

  ghost predicate VisitedBehind(pass: Pass, lt: Order, after: Option<Key>, visited: seq<Key>, now: Rows) {
    forall k :: StaleAt(pass, now, k) && !Past(lt, after, k) ==> k in visited
  }

  lemma VisitedAdvances(pass: Pass, ring: set<int>, lt: Order, after: Option<Key>, visited: seq<Key>, first: Rows,
                        snapshot: Rows, now: Rows, batch: nat, page: seq<Key>)
    requires TotalOrder(lt) && page != [] && VisitedBehind(pass, lt, after, visited, snapshot)
    requires IsPage(StaleKeys(pass, snapshot), lt, lt, after, batch, page)
    requires HandledExactly(pass, ring, visited, first, snapshot) && HandledExactly(pass, ring, visited + page, first, now)
    ensures VisitedBehind(pass, lt, Some(page[|page| - 1]), visited + page, now)
  {
    var last := page[|page| - 1];
    forall k | StaleAt(pass, now, k) && !Past(lt, Some(last), k)
      ensures k in visited + page
    {
      assert k !in visited + page ==> k in StaleKeys(pass, snapshot);
    }
  }

  lemma AllVisited(pass: Pass, lt: Order, after: Option<Key>, visited: seq<Key>, now: Rows, batch: nat)
    requires VisitedBehind(pass, lt, after, visited, now) && batch >= 1
    requires IsPage(StaleKeys(pass, now), lt, lt, after, batch, [])
    ensures forall k :: StaleAt(pass, now, k) ==> k in visited
  {
    forall k | StaleAt(pass, now, k)
      ensures k in visited
    {
      assert k in StaleKeys(pass, now);
    }
  }

  lemma KeepScan(pass: Pass, lt: Order, after: Option<Key>, visited: seq<Key>, history: seq<Rows>, longer: seq<Rows>, since: nat)
    requires ScanState(pass, lt, after, visited, history, since) && history <= longer
    ensures ScanState(pass, lt, after, visited, longer, since)
  {
    forall k | !Past(lt, after, k) && k !in visited
      ensures NotStaleOnce(pass, longer, since, k)
    {
      NotStaleStays(pass, history, longer, since, k);
    }
  }

  lemma PageIsNew(lt: Order, after: Option<Key>, visited: seq<Key>, keys: set<Key>, batch: nat, page: seq<Key>)
    requires TotalOrder(lt) && Sorted(lt, visited) && IsPage(keys, lt, lt, after, batch, page)
    requires if after == None then visited == [] else visited != [] && visited[|visited| - 1] == after.value
    ensures forall k :: k in page ==> k !in visited
    ensures forall i, j :: 0 <= i < j < |page| ==> page[i] != page[j]
  {
    forall k | k in page
      ensures k !in visited
    {
      if after.Some? {
        var here := after.value;
        assert lt(here, k);
        assert forall i :: 0 <= i < |visited| - 1 ==> lt(visited[i], visited[|visited| - 1]);
        assert forall i :: 0 <= i < |visited| ==> visited[i] != k;
      }
    }
  }
}
