/**
 The three-phase move of application documents out of the public store: copy every migratable
 object, rewrite each row that did not change, delete the old objects. Rows are edited by others at
 any moment, every call may fail, and the run may stop anywhere.
 */
module DocMigration {

  import opened Wrappers

  type RowId = nat
  type Bytes = int

  /** How a row's transaction ended for the script; it may also have committed when it threw. */
  datatype Tx = Written | Changed | Threw

  datatype Url = Public(name: nat) | Private(name: nat)
  datatype Doc = Doc(title: string, url: Url, contentType: nat)
  datatype Slot = Slot(row: RowId, index: nat)

  type Rows = map<RowId, seq<Doc>>
  type Objects = map<Url, Bytes>

  class Report {
    var docsPublic: nat
    var docsMigratable: nat
    var docsSkipped: nat
    var docsMigrated: nat
    var rowsRewritten: nat
    var rowsChanged: nat
    var deleted: nat
    var failures: nat

    constructor ()
      ensures docsPublic == docsMigratable == docsSkipped == docsMigrated == 0
      ensures rowsRewritten == rowsChanged == deleted == failures == 0
    {
      docsPublic, docsMigratable, docsSkipped, docsMigrated := 0, 0, 0, 0;
      rowsRewritten, rowsChanged, deleted, failures := 0, 0, 0, 0;
    }
  }

  // ---- References ----

  ghost predicate References(rows: Rows, r: RowId, u: Url) {
    r in rows && exists i :: 0 <= i < |rows[r]| && rows[r][i].url == u
  }

  ghost predicate Unreferenced(rows: Rows, u: Url) { forall r :: !References(rows, r, u) }

  /** Every document a row names exists. */
  ghost predicate NoDangling(rows: Rows, objects: Objects) {
    forall r, u :: References(rows, r, u) ==> u in objects
  }

  ghost predicate NoPublic(rows: Rows) { forall r, u :: References(rows, r, u) ==> u.Private? }

  /** Each public URL occurs in one document slot. */
  ghost predicate OneSlot(rows: Rows) {
    forall r, q, i, j ::
      (r in rows && q in rows && 0 <= i < |rows[r]| && 0 <= j < |rows[q]|
       && rows[r][i].url.Public? && rows[r][i].url == rows[q][j].url)
      ==> r == q && i == j
  }

  /** Each public URL occurs in one row, any number of times. */
  ghost predicate OneRow(rows: Rows) {
    forall r, q, u: Url :: u.Public? && References(rows, r, u) && References(rows, q, u) ==> r == q
  }

  /** A slot that names the URL of a copied slot is in the same row and was copied too. */
  ghost predicate Covered(rows: Rows, copies: map<Slot, Url>) {
    forall s, r, i: nat ::
      s in copies && s.row in rows && s.index < |rows[s.row]|
      && r in rows && i < |rows[r]| && rows[r][i].url == rows[s.row][s.index].url
      ==> r == s.row && Slot(r, i) in copies
  }

  /** Public references only ever disappear. */
  ghost predicate PublicShrinks(was: Rows, now: Rows) {
    forall r, u: Url :: u.Public? && References(now, r, u) ==> References(was, r, u)
  }

  /** What edits by others may do: they name no public object their row did not name, and none of the run's copies. */
  ghost predicate EditsOnly(was: Rows, now: Rows, mine: set<Url>) {
    forall r, u :: References(now, r, u) && (u.Public? || u in mine) ==> References(was, r, u)
  }

  ghost predicate Grows(was: Objects, now: Objects) {
    forall u :: u in was ==> u in now && now[u] == was[u]
  }

  // ---- Rewriting one row ----

  /** The row's documents with the copied slots replaced. */
  function Rewritten(docs: seq<Doc>, r: RowId, copies: map<Slot, Url>): seq<Doc> {
    seq(|docs|, i requires 0 <= i < |docs| =>
      if Slot(r, i) in copies then docs[i].(url := copies[Slot(r, i)]) else docs[i])
  }

  /** Copies of public slots of the snapshot, each at its own private object with the same bytes. */
  ghost predicate GoodCopies(copies: map<Slot, Url>, snapshot: Rows, objects: Objects) {
    forall s :: s in copies ==>
      && s.row in snapshot && s.index < |snapshot[s.row]|
      && snapshot[s.row][s.index].url.Public? && copies[s].Private?
      && copies[s] in objects && snapshot[s.row][s.index].url in objects
      && objects[copies[s]] == objects[snapshot[s.row][s.index].url]
  }

  /** The documents keep their labels, types and bytes. */
  ghost predicate SameDocuments(was: seq<Doc>, now: seq<Doc>, objects: Objects) {
    |was| == |now| && forall i :: 0 <= i < |was| ==>
      && was[i].url in objects && now[i].url in objects
      && objects[now[i].url] == objects[was[i].url]
      && now[i].title == was[i].title && now[i].contentType == was[i].contentType
  }

  lemma RewriteKeepsReferences(rows: Rows, r: RowId, copies: map<Slot, Url>, snapshot: Rows, objects: Objects)
    requires r in rows && r in snapshot && rows[r] == snapshot[r]
    requires NoDangling(rows, objects) && GoodCopies(copies, snapshot, objects)
    ensures NoDangling(rows[r := Rewritten(rows[r], r, copies)], objects)
    ensures PublicShrinks(rows, rows[r := Rewritten(rows[r], r, copies)])
    ensures SameDocuments(rows[r], Rewritten(rows[r], r, copies), objects)
  {
    var next := Rewritten(rows[r], r, copies);
    var now: Rows := rows[r := next];
    forall i | 0 <= i < |next|
      ensures next[i].url in objects && (next[i].url.Public? ==> next[i] == rows[r][i])
      ensures rows[r][i].url in objects && objects[next[i].url] == objects[rows[r][i].url]
    {
      assert References(rows, r, rows[r][i].url);
    }
    forall q, u | References(now, q, u)
      ensures u in objects && (u.Public? ==> References(rows, q, u))
    {
      assert q != r ==> References(rows, q, u);
    }
  }

  /** After the rewrite nothing names the old URL of a copied slot. */
  lemma RewriteFrees(rows: Rows, r: RowId, copies: map<Slot, Url>, snapshot: Rows, objects: Objects, i: nat)
    requires r in rows && r in snapshot && rows[r] == snapshot[r]
    requires Covered(snapshot, copies) && PublicShrinks(snapshot, rows) && GoodCopies(copies, snapshot, objects)
    requires Slot(r, i) in copies
    ensures Unreferenced(rows[r := Rewritten(rows[r], r, copies)], snapshot[r][i].url)
  {
    var u := snapshot[r][i].url;
    var now: Rows := rows[r := Rewritten(rows[r], r, copies)];
    forall q, j | q in now && 0 <= j < |now[q]|
      ensures now[q][j].url != u
    {
      assert q != r && now[q][j].url == u ==> References(rows, q, u) && References(snapshot, q, u);
      assert q == r && Slot(r, j) !in copies ==> now[q][j] == snapshot[r][j];
    }
  }

  // ---- When the delete is safe ----

  /** The table once the rows in `rewritten` were rewritten and the others were not. */
  ghost function PartlyRewritten(rows: Rows, copies: map<Slot, Url>, rewritten: set<RowId>): Rows {
    map r | r in rows :: if r in rewritten then Rewritten(rows[r], r, copies) else rows[r]
  }

  /** The old URL of a slot that was copied and whose row was rewritten. */
  ghost predicate Replaced(rows: Rows, copies: map<Slot, Url>, rewritten: set<RowId>, u: Url) {
    exists s :: s in copies && s.row in rewritten && s.row in rows && s.index < |rows[s.row]| && rows[s.row][s.index].url == u
  }

  /** What the delete of those URLs leaves. */
  ghost function AfterDelete(rows: Rows, copies: map<Slot, Url>, rewritten: set<RowId>, objects: Objects): Objects {
    map u | u in objects && !Replaced(rows, copies, rewritten, u) :: objects[u]
  }

  /** Whichever rows could be rewritten before it, the delete leaves no document without its object. */
  ghost predicate DeleteIsSafe(rows: Rows, copies: map<Slot, Url>, objects: Objects) {
    forall rewritten: set<RowId> ::
      NoDangling(PartlyRewritten(rows, copies, rewritten), AfterDelete(rows, copies, rewritten, objects))
  }

  lemma CoveredDeleteIsSafe(rows: Rows, copies: map<Slot, Url>, objects: Objects, rewritten: set<RowId>)
    requires NoDangling(rows, objects) && GoodCopies(copies, rows, objects) && Covered(rows, copies)
    ensures NoDangling(PartlyRewritten(rows, copies, rewritten), AfterDelete(rows, copies, rewritten, objects))
  {
    var now := PartlyRewritten(rows, copies, rewritten);
    forall r, u | References(now, r, u)
      ensures u in objects && !Replaced(rows, copies, rewritten, u)
    {
      var i: nat :| i < |now[r]| && now[r][i].url == u;
      if now[r][i] == rows[r][i] {
        assert References(rows, r, u);
        assert Slot(r, i) in copies ==> r !in rewritten;
      } else {
        assert Slot(r, i) in copies && u == copies[Slot(r, i)];
      }
    }
  }

  lemma UncoveredDeleteDangles(rows: Rows, copies: map<Slot, Url>, objects: Objects, s: Slot, r: RowId, i: nat)
    requires GoodCopies(copies, rows, objects) && s in copies
    requires r in rows && i < |rows[r]| && rows[r][i].url == rows[s.row][s.index].url
    requires r != s.row || Slot(r, i) !in copies
    ensures !NoDangling(PartlyRewritten(rows, copies, {s.row}), AfterDelete(rows, copies, {s.row}, objects))
  {
    var u := rows[r][i].url;
    var now := PartlyRewritten(rows, copies, {s.row});
    assert now[r][i] == rows[r][i] && References(now, r, u);
    assert Replaced(rows, copies, {s.row}, u);
  }

  /** The delete is safe exactly when every slot naming a copied URL is in the same row and was copied too. */
  lemma DeleteIsSafeExactly(rows: Rows, copies: map<Slot, Url>, objects: Objects)
    requires NoDangling(rows, objects) && GoodCopies(copies, rows, objects)
    ensures DeleteIsSafe(rows, copies, objects) <==> Covered(rows, copies)
  {
    if Covered(rows, copies) {
      forall rewritten: set<RowId>
        ensures NoDangling(PartlyRewritten(rows, copies, rewritten), AfterDelete(rows, copies, rewritten, objects))
      {
        CoveredDeleteIsSafe(rows, copies, objects, rewritten);
      }
    } else {
      var s, r, i: nat :| s in copies && r in rows && i < |rows[r]| && rows[r][i].url == rows[s.row][s.index].url
                          && (r != s.row || Slot(r, i) !in copies);
      UncoveredDeleteDangles(rows, copies, objects, s, r, i);
    }
  }

  /** The copies a run can end phase 1 with: any public slots, since any fetch may be skipped. */
  ghost predicate OfPublicSlots(rows: Rows, copies: map<Slot, Url>) {
    forall s :: s in copies ==> s.row in rows && s.index < |rows[s.row]| && rows[s.row][s.index].url.Public?
  }

  /** The delete is safe whatever phase 1 skips exactly when each public URL is in one slot. */
  lemma AnySkipIsSafeExactly(rows: Rows)
    ensures (forall copies :: OfPublicSlots(rows, copies) ==> Covered(rows, copies)) <==> OneSlot(rows)
  {
    if !OneSlot(rows) {
      var r, q, i: nat, j: nat :|
        r in rows && q in rows && i < |rows[r]| && j < |rows[q]|
        && rows[r][i].url.Public? && rows[r][i].url == rows[q][j].url && (r != q || i != j);
      var copies := map[Slot(r, i) := Private(0)];
      assert OfPublicSlots(rows, copies);
      assert Slot(r, i) in copies && Slot(q, j) !in copies;
      assert !Covered(rows, copies);
    }
  }

  /** A URL named several times in one row is safe once all of its slots were copied. */
  lemma AllCopiedIsCovered(rows: Rows, copies: map<Slot, Url>)
    requires OneRow(rows) && OfPublicSlots(rows, copies) && AllCopied(rows.Keys, rows, copies)
    ensures Covered(rows, copies)
  {
    forall s, r, i: nat | s in copies && r in rows && i < |rows[r]| && rows[r][i].url == rows[s.row][s.index].url
      ensures r == s.row && Slot(r, i) in copies
    {
      assert References(rows, r, rows[r][i].url) && References(rows, s.row, rows[r][i].url);
    }
  }

  /** A URL in two rows dangles when only one of them could be rewritten before the delete. */
  lemma SharedUrlDangles(rows: Rows, copies: map<Slot, Url>, objects: Objects, s: Slot, r: RowId)
    requires GoodCopies(copies, rows, objects) && s in copies && r != s.row
    requires References(rows, r, rows[s.row][s.index].url)
    ensures !NoDangling(PartlyRewritten(rows, copies, {s.row}), AfterDelete(rows, copies, {s.row}, objects))
  {
    var i: nat :| i < |rows[r]| && rows[r][i].url == rows[s.row][s.index].url;
    UncoveredDeleteDangles(rows, copies, objects, s, r, i);
  }

  // ---- The run ----

  /** The applications table and both object stores. `mine`: objects this run put; `writes` counts its own calls. */
  class World {
    var rows: Rows
    var objects: Objects
    var mine: set<Url>
    var writes: nat

    ghost predicate Valid()
      reads this
    {
      NoDangling(rows, objects) && mine <= objects.Keys && forall u :: u in mine ==> u.Private?
    }

    constructor (rows: Rows, objects: Objects)
      requires NoDangling(rows, objects)
      ensures Valid() && this.rows == rows && this.objects == objects && mine == {} && writes == 0
    {
      this.rows, this.objects, mine, writes := rows, objects, {}, 0;
    }

    /** Edits of applications by others, each to objects that exist, and uploads. */
    method Others()
      requires Valid()
      modifies this`rows, this`objects
      ensures Valid() && Grows(old(objects), objects) && EditsOnly(old(rows), rows, mine)
    {
      var steps: nat := *;
      while steps > 0
        invariant Valid() && Grows(old(objects), objects) && EditsOnly(old(rows), rows, mine)
        decreases steps
      {
        var r: RowId, docs: seq<Doc>, name: nat, bytes: Bytes := *, *, *, *;
        if Private(name) !in objects { objects := objects[Private(name) := bytes]; }
        var known := if r in rows then UrlsOf(rows[r]) else {};
        if forall d :: d in docs ==> d.url in known || (d.url.Private? && d.url !in mine && d.url in objects) {
          EditKeeps(rows, r, docs, objects, mine);
          rows := rows[r := docs];
        }
        steps := steps - 1;
      }
    }

    /** put to the private store: a new object, or a failure that may leave an orphan behind. */
    method Put(bytes: Bytes) returns (url: Option<Url>)
      requires Valid()
      modifies this`objects, this`mine, this`writes
      ensures Valid() && Grows(old(objects), objects) && writes == old(writes) + 1
      ensures old(mine) <= mine
      ensures url.Some? ==> url.value.Private? && url.value !in old(objects) && url.value in mine
                            && objects[url.value] == bytes
    {
      writes := writes + 1;
      var name: nat, fails: bool := *, *;
      if Private(name) in objects { return None; }
      objects := objects[Private(name) := bytes];
      mine := mine + {Private(name)};
      return if fails then None else Some(Private(name));
    }

    /** del of several urls: each named object is gone when it succeeds, some of them when it fails. */
    method Del(urls: set<Url>) returns (ok: bool)
      requires Valid()
      modifies this`objects, this`mine, this`writes
      ensures writes == old(writes) + 1 && mine <= old(mine)
      ensures (forall u :: u in urls ==> Unreferenced(rows, u)) ==> Valid()
      ensures forall u :: u in old(objects) && u !in urls ==> u in objects && objects[u] == old(objects)[u]
      ensures ok ==> forall u :: u in urls ==> u !in objects
    {
      writes := writes + 1;
      ok := *;
      var kept: set<Url> := *;
      var gone := if ok then urls else urls - kept;
      objects := objects - gone;
      mine := mine - gone;
    }

    /** One transaction: compare the locked row with the snapshot, and write it only when unchanged. It may throw. */
    method RewriteIfUnchanged(r: RowId, snapshot: Rows, copies: map<Slot, Url>) returns (tx: Tx)
      requires Valid() && r in snapshot
      requires GoodCopies(copies, snapshot, objects) && PublicShrinks(snapshot, rows)
      modifies this`rows, this`writes
      ensures Valid() && PublicShrinks(old(rows), rows)
      ensures tx == Written || rows != old(rows) ==>
                Rewrites(old(rows), rows, r, snapshot, copies) && SameDocuments(snapshot[r], rows[r], objects)
      ensures tx == Changed ==> rows == old(rows) && !(r in old(rows) && old(rows)[r] == snapshot[r])
      ensures tx == Written && Covered(snapshot, copies) ==>
                forall i: nat :: Slot(r, i) in copies ==> Unreferenced(rows, snapshot[r][i].url)
    {
      var throws: bool, commits: bool := *, *;
      if throws && !commits { return Threw; }
      if r !in rows || rows[r] != snapshot[r] { return if throws then Threw else Changed; }
      RewriteKeepsReferences(rows, r, copies, snapshot, objects);
      forall i: nat | Slot(r, i) in copies && Covered(snapshot, copies)
        ensures Unreferenced(rows[r := Rewritten(rows[r], r, copies)], snapshot[r][i].url)
      {
        RewriteFrees(rows, r, copies, snapshot, objects, i);
      }
      rows := rows[r := Rewritten(rows[r], r, copies)];
      writes := writes + 1;
      tx := if throws then Threw else Written;
    }
  }

  /** Row r was as in the snapshot and is now rewritten; nothing else changed. */
  ghost predicate Rewrites(was: Rows, now: Rows, r: RowId, snapshot: Rows, copies: map<Slot, Url>) {
    r in snapshot && r in was && was[r] == snapshot[r] && now == was[r := Rewritten(snapshot[r], r, copies)]
  }

  function UrlsOf(docs: seq<Doc>): set<Url> { set d | d in docs :: d.url }

  lemma EditKeeps(rows: Rows, r: RowId, docs: seq<Doc>, objects: Objects, mine: set<Url>)
    requires NoDangling(rows, objects)
    requires forall d :: d in docs ==>
               (r in rows && d.url in UrlsOf(rows[r])) || (d.url.Private? && d.url !in mine && d.url in objects)
    ensures NoDangling(rows[r := docs], objects) && EditsOnly(rows, rows[r := docs], mine)
  {
    var now: Rows := rows[r := docs];
    forall q, u | References(now, q, u)
      ensures u in objects && (u.Public? || u in mine ==> References(rows, q, u))
    {
      if q == r {
        var i :| 0 <= i < |docs| && docs[i].url == u;
        assert docs[i] in docs;
        if r in rows && u in UrlsOf(rows[r]) {
          var d :| d in rows[r] && d.url == u;
          var j :| 0 <= j < |rows[r]| && rows[r][j] == d;
          assert References(rows, r, u);
        }
      } else {
        assert References(rows, q, u);
      }
    }
  }

  ghost predicate PublicExist(snapshot: Rows, objects: Objects) {
    forall r, u: Url :: u.Public? && References(snapshot, r, u) ==> u in objects
  }

  /** Between the snapshot and the rewrite: the copies are good and nothing names them yet. */
  ghost predicate Copying(w: World, snapshot: Rows, copies: map<Slot, Url>)
    reads w
  {
    && w.Valid() && PublicShrinks(snapshot, w.rows) && PublicExist(snapshot, w.objects)
    && GoodCopies(copies, snapshot, w.objects)
    && forall s :: s in copies ==> copies[s] in w.mine && Unreferenced(w.rows, copies[s])
  }

  /** What a fetch of a slot's object gives: the type its bytes show, or None when it fails or shows none. */
  type Fetch = Slot -> Option<nat>

  predicate Matches(fetch: Fetch, snapshot: Rows, s: Slot) {
    s.row in snapshot && s.index < |snapshot[s.row]| && fetch(s) == Some(snapshot[s.row][s.index].contentType)
  }

  /** Every public slot of the rows in `ids` whose bytes match its declared type was copied. */
  ghost predicate MatchesCopied(fetch: Fetch, ids: set<RowId>, snapshot: Rows, copies: map<Slot, Url>) {
    forall r, i: nat ::
      (r in ids && r in snapshot && i < |snapshot[r]| && snapshot[r][i].url.Public? && Matches(fetch, snapshot, Slot(r, i)))
      ==> Slot(r, i) in copies
  }

  ghost predicate OnlyMatches(fetch: Fetch, snapshot: Rows, copies: map<Slot, Url>) {
    forall s :: s in copies ==> Matches(fetch, snapshot, s)
  }

  ghost predicate AllMatch(fetch: Fetch, ids: set<RowId>, snapshot: Rows) {
    forall r, i: nat :: r in ids && r in snapshot && i < |snapshot[r]| && snapshot[r][i].url.Public? ==> Matches(fetch, snapshot, Slot(r, i))
  }

  lemma AllMatchesCopied(fetch: Fetch, ids: set<RowId>, snapshot: Rows, copies: map<Slot, Url>)
    requires MatchesCopied(fetch, ids, snapshot, copies) && AllMatch(fetch, ids, snapshot)
    ensures AllCopied(ids, snapshot, copies)
  {
  }

  /** Every public slot of the rows in `ids` was copied. */
  ghost predicate AllCopied(ids: set<RowId>, snapshot: Rows, copies: map<Slot, Url>) {
    forall r, i :: r in ids && r in snapshot && 0 <= i < |snapshot[r]| && snapshot[r][i].url.Public? ==> Slot(r, i) in copies
  }

  method Interlude(w: World, ghost snapshot: Rows, ghost copies: map<Slot, Url>)
    requires Copying(w, snapshot, copies)
    modifies w
    ensures Copying(w, snapshot, copies) && w.writes == old(w.writes) && w.mine == old(w.mine)
    ensures Grows(old(w.objects), w.objects)
  {
    w.Others();
    forall s | s in copies
      ensures Unreferenced(w.rows, copies[s])
    {
      forall r
        ensures !References(w.rows, r, copies[s])
      {
        assert !References(old(w.rows), r, copies[s]);
      }
    }
  }

  /** Phase 1 for one public slot: fetch, sniff, put. */
  method CopySlot(w: World, rep: Report, ghost snapshot: Rows, slot: Slot, doc: Doc, copies: map<Slot, Url>, fetch: Fetch,
                  apply: bool)
    returns (more: map<Slot, Url>)
    requires Copying(w, snapshot, copies) && doc.url.Public?
    requires slot.row in snapshot && slot.index < |snapshot[slot.row]| && snapshot[slot.row][slot.index] == doc
    modifies w, rep`docsMigratable, rep`docsSkipped, rep`failures
    ensures Copying(w, snapshot, more) && copies.Keys <= more.Keys <= copies.Keys + {slot}
    ensures rep.docsMigratable + rep.docsSkipped == old(rep.docsMigratable + rep.docsSkipped) + 1
    ensures rep.docsSkipped >= old(rep.docsSkipped) && rep.failures >= old(rep.failures)
    ensures rep.docsSkipped == old(rep.docsSkipped) <==> Matches(fetch, snapshot, slot)
    ensures rep.failures <= old(rep.failures) + 1 && rep.docsSkipped <= old(rep.docsSkipped) + 1
    ensures rep.failures == old(rep.failures) && Matches(fetch, snapshot, slot) && apply ==> slot in more
    ensures slot in more && slot !in copies ==> Matches(fetch, snapshot, slot)
    ensures !apply ==> w.writes == old(w.writes) && rep.failures == old(rep.failures) && more == copies
    ensures Grows(old(w.objects), w.objects)
  {
    more := copies;
    Interlude(w, snapshot, copies);
    var sniffed := fetch(slot);
    if sniffed == None || sniffed.value != doc.contentType {
      rep.docsSkipped := rep.docsSkipped + 1;
      return;
    }
    rep.docsMigratable := rep.docsMigratable + 1;
    if !apply { return; }
    assert References(snapshot, slot.row, doc.url);
    var bytes := w.objects[doc.url];
    Interlude(w, snapshot, copies);
    var ok;
    more, ok := PutCopy(w, snapshot, slot, doc, bytes, copies);
    if !ok { rep.failures := rep.failures + 1; }
  }

  method PutCopy(w: World, ghost snapshot: Rows, slot: Slot, ghost doc: Doc, bytes: Bytes, copies: map<Slot, Url>)
    returns (more: map<Slot, Url>, ok: bool)
    requires Copying(w, snapshot, copies) && doc.url.Public? && doc.url in w.objects && w.objects[doc.url] == bytes
    requires slot.row in snapshot && slot.index < |snapshot[slot.row]| && snapshot[slot.row][slot.index] == doc
    modifies w
    ensures Copying(w, snapshot, more)
    ensures if ok then more.Keys == copies.Keys + {slot} else more == copies
    ensures Grows(old(w.objects), w.objects)
  {
    var url := w.Put(bytes);
    ok := url.Some?;
    more := if ok then copies[slot := url.value] else copies;
    assert ok ==> Unreferenced(w.rows, url.value);
  }

  method CopyRow(w: World, rep: Report, snapshot: Rows, r: RowId, copies: map<Slot, Url>, fetch: Fetch, apply: bool)
    returns (more: map<Slot, Url>, stopped: bool)
    requires Copying(w, snapshot, copies) && r in snapshot && OnlyMatches(fetch, snapshot, copies)
    requires rep.docsPublic == rep.docsMigratable + rep.docsSkipped
    modifies w, rep`docsPublic, rep`docsMigratable, rep`docsSkipped, rep`failures
    ensures Copying(w, snapshot, more) && copies.Keys <= more.Keys && OnlyMatches(fetch, snapshot, more)
    ensures rep.docsPublic == rep.docsMigratable + rep.docsSkipped
    ensures rep.docsSkipped >= old(rep.docsSkipped) && rep.failures >= old(rep.failures)
    ensures !stopped && rep.failures == old(rep.failures) && apply ==> MatchesCopied(fetch, {r}, snapshot, more)
    ensures !stopped ==> (rep.docsSkipped == old(rep.docsSkipped) <==> AllMatch(fetch, {r}, snapshot))
    ensures AllPrivate(snapshot[r]) ==> !stopped && unchanged(rep) && more == copies && w.writes == old(w.writes)
    ensures !apply ==> w.writes == old(w.writes) && rep.failures == old(rep.failures) && more == copies
    ensures Grows(old(w.objects), w.objects)
  {
    hide GoodCopies, PublicShrinks, PublicExist, Matches;
    more, stopped := copies, false;
    var docs := snapshot[r];
    for i := 0 to |docs|
      invariant Copying(w, snapshot, more) && copies.Keys <= more.Keys && OnlyMatches(fetch, snapshot, more)
      invariant rep.docsPublic == rep.docsMigratable + rep.docsSkipped
      invariant rep.docsSkipped >= old(rep.docsSkipped) && rep.failures >= old(rep.failures)
      invariant rep.failures == old(rep.failures) && apply
                ==> forall j :: 0 <= j < i && docs[j].url.Public? && Matches(fetch, snapshot, Slot(r, j)) ==> Slot(r, j) in more
      invariant rep.docsSkipped == old(rep.docsSkipped)
                <==> forall j :: 0 <= j < i && docs[j].url.Public? ==> Matches(fetch, snapshot, Slot(r, j))
      invariant (forall j :: 0 <= j < i ==> docs[j].url.Private?)
                ==> unchanged(rep) && more == copies && w.writes == old(w.writes)
      invariant !apply ==> w.writes == old(w.writes) && rep.failures == old(rep.failures) && more == copies
      invariant Grows(old(w.objects), w.objects)
    {
      if docs[i].url.Public? {
        rep.docsPublic := rep.docsPublic + 1;
        more := CopySlot(w, rep, snapshot, Slot(r, i), docs[i], more, fetch, apply);
        var stop: bool := *;
        if stop { stopped := true; return; }
      }
    }
  }

  ghost predicate RowPrivate(rows: Rows, r: RowId) { forall u :: References(rows, r, u) ==> u.Private? }

  ghost predicate AllPrivate(docs: seq<Doc>) { forall i :: 0 <= i < |docs| ==> docs[i].url.Private? }

  ghost predicate PrivateRows(rows: Rows) { forall r :: r in rows ==> AllPrivate(rows[r]) }

  lemma NoPublicIsPrivateRows(rows: Rows)
    ensures NoPublic(rows) <==> PrivateRows(rows)
  {
    forall r, i | r in rows && 0 <= i < |rows[r]|
      ensures References(rows, r, rows[r][i].url)
    {
    }
    if PrivateRows(rows) {
      forall r, u | References(rows, r, u)
        ensures u.Private?
      {
        assert AllPrivate(rows[r]);
      }
    }
  }

  lemma CopiedMore(fetch: Fetch, ids: set<RowId>, r: RowId, snapshot: Rows, copies: map<Slot, Url>, more: map<Slot, Url>)
    requires copies.Keys <= more.Keys
    ensures MatchesCopied(fetch, ids, snapshot, copies) && MatchesCopied(fetch, {r}, snapshot, more)
            ==> MatchesCopied(fetch, ids + {r}, snapshot, more)
    ensures AllMatch(fetch, ids + {r}, snapshot) <==> AllMatch(fetch, ids, snapshot) && AllMatch(fetch, {r}, snapshot)
  {
  }

  /** Phase 1 so far, over the rows `ids`, since the run had made `start` write calls. */
  ghost predicate CopyProgress(w: World, rep: Report, apply: bool, ids: set<RowId>, snapshot: Rows, copies: map<Slot, Url>,
                               fetch: Fetch, start: nat)
    reads w, rep
  {
    && rep.docsPublic == rep.docsMigratable + rep.docsSkipped
    && OnlyMatches(fetch, snapshot, copies)
    && (rep.failures == 0 && apply ==> MatchesCopied(fetch, ids, snapshot, copies))
    && (rep.docsSkipped == 0 <==> AllMatch(fetch, ids, snapshot))
    && (PrivateRows(snapshot) ==> rep.docsPublic == 0 && rep.failures == 0 && copies == map[] && w.writes == start)
    && (!apply ==> w.writes == start && rep.failures == 0 && copies == map[])
  }

  method CopyNext(w: World, rep: Report, snapshot: Rows, r: RowId, copies: map<Slot, Url>, fetch: Fetch, apply: bool,
                  ghost ids: set<RowId>, ghost start: nat)
    returns (more: map<Slot, Url>, stopped: bool)
    requires Copying(w, snapshot, copies) && r in snapshot
    requires CopyProgress(w, rep, apply, ids, snapshot, copies, fetch, start)
    modifies w, rep`docsPublic, rep`docsMigratable, rep`docsSkipped, rep`failures
    ensures Copying(w, snapshot, more) && rep.docsPublic == rep.docsMigratable + rep.docsSkipped
    ensures OnlyMatches(fetch, snapshot, more)
    ensures stopped ==> !PrivateRows(snapshot) && (!apply ==> w.writes == old(w.writes))
    ensures !stopped ==> CopyProgress(w, rep, apply, ids + {r}, snapshot, more, fetch, start)
    ensures Grows(old(w.objects), w.objects)
  {
    more, stopped := CopyRow(w, rep, snapshot, r, copies, fetch, apply);
    CopiedMore(fetch, ids, r, snapshot, copies, more);
  }

  /** Phase 1 over every row of the snapshot. */
  method CopyPhase(w: World, rep: Report, snapshot: Rows, fetch: Fetch, apply: bool)
    returns (copies: map<Slot, Url>, stopped: bool)
    requires Copying(w, snapshot, map[])
    requires rep.docsPublic == rep.docsMigratable == rep.docsSkipped == rep.failures == 0
    modifies w, rep`docsPublic, rep`docsMigratable, rep`docsSkipped, rep`failures
    ensures Copying(w, snapshot, copies) && rep.docsPublic == rep.docsMigratable + rep.docsSkipped
    ensures OnlyMatches(fetch, snapshot, copies)
    ensures stopped ==> !PrivateRows(snapshot) && (!apply ==> w.writes == old(w.writes))
    ensures !stopped ==> CopyProgress(w, rep, apply, snapshot.Keys, snapshot, copies, fetch, old(w.writes))
    ensures Grows(old(w.objects), w.objects)
  {
    copies, stopped := map[], false;
    var todo := snapshot.Keys;
    ghost var ids: set<RowId> := {};
    while todo != {}
      invariant ids + todo == snapshot.Keys
      invariant Copying(w, snapshot, copies)
      invariant CopyProgress(w, rep, apply, ids, snapshot, copies, fetch, old(w.writes))
      invariant Grows(old(w.objects), w.objects)
    {
      var r :| r in todo;
      copies, stopped := CopyNext(w, rep, snapshot, r, copies, fetch, apply, ids, old(w.writes));
      if stopped { return; }
      ids, todo := ids + {r}, todo - {r};
    }
  }

  /** Between the first rewrite and the delete. */
  ghost predicate Rewriting(w: World, snapshot: Rows, copies: map<Slot, Url>, oldUrls: seq<Url>)
    reads w
  {
    && w.Valid() && PublicShrinks(snapshot, w.rows) && GoodCopies(copies, snapshot, w.objects)
    && forall u :: u in oldUrls ==> u.Public? && (Covered(snapshot, copies) ==> Unreferenced(w.rows, u))
  }

  method RewriteInterlude(w: World, ghost snapshot: Rows, ghost copies: map<Slot, Url>, ghost oldUrls: seq<Url>)
    requires Rewriting(w, snapshot, copies, oldUrls)
    modifies w
    ensures Rewriting(w, snapshot, copies, oldUrls) && w.writes == old(w.writes)
    ensures forall r :: RowPrivate(old(w.rows), r) ==> RowPrivate(w.rows, r)
    ensures Grows(old(w.objects), w.objects)
  {
    w.Others();
    forall u | u in oldUrls && Covered(snapshot, copies)
      ensures Unreferenced(w.rows, u)
    {
      forall r
        ensures !References(w.rows, r, u)
      {
        assert !References(old(w.rows), r, u);
      }
    }
  }

  /** The old URLs of a row's copies. */
  function OldUrls(docs: seq<Doc>, r: RowId, copies: map<Slot, Url>, from: nat): (urls: seq<Url>)
    requires from <= |docs|
    ensures forall u :: u in urls <==> exists i: nat :: from <= i < |docs| && Slot(r, i) in copies && docs[i].url == u
    decreases |docs| - from
  {
    if from == |docs| then []
    else (if Slot(r, from) in copies then [docs[from].url] else []) + OldUrls(docs, r, copies, from + 1)
  }

  /** Phase 2 for one row: its own transaction, which may throw before or after it commits. */
  method RewriteRow(w: World, rep: Report, snapshot: Rows, r: RowId, copies: map<Slot, Url>, oldUrls: seq<Url>)
    returns (more: seq<Url>, ghost tx: Option<Tx>)
    requires Rewriting(w, snapshot, copies, oldUrls) && r in snapshot
    modifies w, rep`docsMigrated, rep`rowsRewritten, rep`rowsChanged, rep`failures
    ensures Rewriting(w, snapshot, copies, more)
    ensures rep.failures >= old(rep.failures) && rep.rowsChanged >= old(rep.rowsChanged)
    ensures |more| - |oldUrls| == rep.docsMigrated - old(rep.docsMigrated)
    ensures forall q :: RowPrivate(old(w.rows), q) ==> RowPrivate(w.rows, q)
    ensures rep.failures == old(rep.failures) && rep.rowsChanged == old(rep.rowsChanged) && AllCopied({r}, snapshot, copies)
            ==> RowPrivate(w.rows, r)
    ensures OldUrls(snapshot[r], r, copies, 0) == [] ==> more == oldUrls && unchanged(rep) && w.writes == old(w.writes)
    ensures tx == None <==> OldUrls(snapshot[r], r, copies, 0) == []
    ensures rep.rowsRewritten - old(rep.rowsRewritten) == if tx == Some(Written) then 1 else 0
    ensures rep.rowsChanged - old(rep.rowsChanged) == if tx == Some(Changed) then 1 else 0
    ensures rep.failures - old(rep.failures) == if tx == Some(Threw) then 1 else 0
    ensures more == oldUrls + if tx == Some(Written) then OldUrls(snapshot[r], r, copies, 0) else []
    ensures oldUrls <= more && forall u :: u in more ==> u in oldUrls || u in OldUrls(snapshot[r], r, copies, 0)
    ensures rep.failures == old(rep.failures) && rep.rowsChanged == old(rep.rowsChanged)
            ==> forall u :: u in OldUrls(snapshot[r], r, copies, 0) ==> u in more
    ensures Grows(old(w.objects), w.objects)
  {
    more, tx := oldUrls, None;
    var urls := OldUrls(snapshot[r], r, copies, 0);
    if urls == [] {
      NothingToRewrite(w.rows, snapshot, r, copies);
      return;
    }
    RewriteInterlude(w, snapshot, copies, oldUrls);
    ghost var before := w.rows;
    var result := w.RewriteIfUnchanged(r, snapshot, copies);
    tx := Some(result);
    AfterRewrite(before, w.rows, snapshot, r, copies, oldUrls, w.objects);
    match result
    case Threw => rep.failures := rep.failures + 1;
    case Changed => rep.rowsChanged := rep.rowsChanged + 1;
    case Written =>
      rep.rowsRewritten := rep.rowsRewritten + 1;
      rep.docsMigrated := rep.docsMigrated + |urls|;
      more := oldUrls + urls;
  }

  lemma NothingToRewrite(rows: Rows, snapshot: Rows, r: RowId, copies: map<Slot, Url>)
    requires PublicShrinks(snapshot, rows) && r in snapshot && OldUrls(snapshot[r], r, copies, 0) == []
    ensures AllCopied({r}, snapshot, copies) ==> RowPrivate(rows, r)
  {
    if AllCopied({r}, snapshot, copies) {
      forall i: nat | i < |snapshot[r]|
        ensures snapshot[r][i].url.Private?
      {
        var u := snapshot[r][i].url;
        assert u !in OldUrls(snapshot[r], r, copies, 0);
      }
    }
  }

  lemma AfterRewrite(was: Rows, now: Rows, snapshot: Rows, r: RowId, copies: map<Slot, Url>, oldUrls: seq<Url>, objects: Objects)
    requires r in snapshot && GoodCopies(copies, snapshot, objects) && PublicShrinks(was, now)
    requires forall u :: u in oldUrls ==> u.Public?
    requires now == was || now == was[r := Rewritten(snapshot[r], r, copies)]
    requires now != was ==> r in was && was[r] == snapshot[r]
    ensures forall u :: u in oldUrls && Unreferenced(was, u) ==> Unreferenced(now, u)
    ensures forall q :: RowPrivate(was, q) ==> RowPrivate(now, q)
    ensures r in now && now[r] == Rewritten(snapshot[r], r, copies) && AllCopied({r}, snapshot, copies) ==> RowPrivate(now, r)
  {
    forall q, u: Url | References(now, q, u) && u.Public?
      ensures References(was, q, u)
    {
    }
    if r in now && now[r] == Rewritten(snapshot[r], r, copies) && AllCopied({r}, snapshot, copies) {
      forall i: nat | i < |now[r]|
        ensures now[r][i].url.Private?
      {
        assert snapshot[r][i].url.Public? ==> Slot(r, i) in copies;
      }
    }
  }

  lemma {:induction false} NoCopiesNoUrls(docs: seq<Doc>, r: RowId, from: nat)
    requires from <= |docs|
    ensures OldUrls(docs, r, map[], from) == []
    decreases |docs| - from
  {
    if from < |docs| { NoCopiesNoUrls(docs, r, from + 1); }
  }

  ghost predicate RewriteProgress(w: World, rep: Report, ids: set<RowId>, snapshot: Rows, copies: map<Slot, Url>,
                                  oldUrls: seq<Url>, start: nat)
    reads w, rep
  {
    && |oldUrls| == rep.docsMigrated
    && (rep.failures == 0 && rep.rowsChanged == 0 && AllCopied(snapshot.Keys, snapshot, copies) ==>
          forall r :: r in ids ==> RowPrivate(w.rows, r))
    && (copies == map[] ==> oldUrls == [] && rep.failures == 0 && w.writes == start)
    && (forall u :: u in oldUrls ==> WasCopied(snapshot, copies, u))
    && (rep.failures == 0 && rep.rowsChanged == 0 ==>
          forall s :: s in copies && s.row in ids && s.row in snapshot && s.index < |snapshot[s.row]|
                      ==> snapshot[s.row][s.index].url in oldUrls)
  }

  /** u is the URL of a slot that was copied. */
  ghost predicate WasCopied(snapshot: Rows, copies: map<Slot, Url>, u: Url) {
    exists s :: s in copies && s.row in snapshot && s.index < |snapshot[s.row]| && snapshot[s.row][s.index].url == u
  }

  lemma CollectedMore(snapshot: Rows, copies: map<Slot, Url>, r: RowId)
    requires r in snapshot
    ensures forall u :: u in OldUrls(snapshot[r], r, copies, 0) ==> WasCopied(snapshot, copies, u)
    ensures forall s :: s in copies && s.row == r && s.index < |snapshot[r]|
                        ==> snapshot[r][s.index].url in OldUrls(snapshot[r], r, copies, 0)
  {
    forall u | u in OldUrls(snapshot[r], r, copies, 0)
      ensures WasCopied(snapshot, copies, u)
    {
      var i: nat :| i < |snapshot[r]| && Slot(r, i) in copies && snapshot[r][i].url == u;
      assert Slot(r, i).row == r;
    }
    forall s | s in copies && s.row == r && s.index < |snapshot[r]|
      ensures snapshot[r][s.index].url in OldUrls(snapshot[r], r, copies, 0)
    {
      assert Slot(r, s.index) == s;
    }
  }

  method RewriteNext(w: World, rep: Report, snapshot: Rows, r: RowId, copies: map<Slot, Url>, oldUrls: seq<Url>,
                     ghost ids: set<RowId>, ghost start: nat)
    returns (more: seq<Url>)
    requires Rewriting(w, snapshot, copies, oldUrls) && r in snapshot
    requires RewriteProgress(w, rep, ids, snapshot, copies, oldUrls, start)
    modifies w, rep`docsMigrated, rep`rowsRewritten, rep`rowsChanged, rep`failures
    ensures Rewriting(w, snapshot, copies, more)
    ensures RewriteProgress(w, rep, ids + {r}, snapshot, copies, more, start)
    ensures Grows(old(w.objects), w.objects)
  {
    hide Rewriting, RowPrivate;
    CollectedMore(snapshot, copies, r);
    if copies == map[] { NoCopiesNoUrls(snapshot[r], r, 0); }
    ghost var tx;
    more, tx := RewriteRow(w, rep, snapshot, r, copies, oldUrls);
  }

  /** Phase 2 over every row of the snapshot. */
  method RewritePhase(w: World, rep: Report, snapshot: Rows, copies: map<Slot, Url>) returns (oldUrls: seq<Url>, stopped: bool)
    requires Rewriting(w, snapshot, copies, [])
    requires rep.docsMigrated == rep.rowsChanged == rep.failures == 0
    modifies w, rep`docsMigrated, rep`rowsRewritten, rep`rowsChanged, rep`failures
    ensures Rewriting(w, snapshot, copies, oldUrls)
    ensures stopped ==> copies != map[]
    ensures !stopped ==> RewriteProgress(w, rep, snapshot.Keys, snapshot, copies, oldUrls, old(w.writes))
    ensures Grows(old(w.objects), w.objects)
  {
    oldUrls, stopped := [], false;
    var todo := snapshot.Keys;
    ghost var ids: set<RowId> := {};
    while todo != {}
      invariant ids + todo == snapshot.Keys
      invariant Rewriting(w, snapshot, copies, oldUrls)
      invariant RewriteProgress(w, rep, ids, snapshot, copies, oldUrls, old(w.writes))
      invariant Grows(old(w.objects), w.objects)
    {
      var r :| r in todo;
      oldUrls := RewriteNext(w, rep, snapshot, r, copies, oldUrls, ids, old(w.writes));
      ids, todo := ids + {r}, todo - {r};
      var stop: bool := *;
      if stop && copies != map[] { stopped := true; return; }
    }
  }

  ghost predicate Clean(rep: Report)
    reads rep
  {
    rep.failures == 0 && rep.docsSkipped == 0 && rep.rowsChanged == 0
  }

  /** What a caller can rely on: no public URL is named twice, or none in two rows and nothing was skipped. */
  ghost predicate SafeRun(rows: Rows, rep: Report)
    reads rep
  {
    OneSlot(rows) || (OneRow(rows) && rep.docsSkipped == 0)
  }

  /** The public objects are as they were. */
  ghost predicate PublicKept(was: Objects, now: Objects) {
    forall u: Url :: u.Public? && u in was ==> u in now && now[u] == was[u]
  }

  /** Only the objects of copied slots are gone. */
  ghost predicate OnlyCopiedGone(snapshot: Rows, copies: map<Slot, Url>, was: Objects, now: Objects) {
    forall u: Url :: u.Public? && u in was && u !in now ==> WasCopied(snapshot, copies, u)
  }

  /** The old object of every copied slot is gone. */
  ghost predicate AllCopiedGone(snapshot: Rows, copies: map<Slot, Url>, now: Objects) {
    forall u :: WasCopied(snapshot, copies, u) ==> u !in now
  }

  /**
   The script, on any table. `done` is false when it stopped part way, `deletes` says that it got to the
   delete. At every such point, and at the end, each document URL in a row names an existing object, if
   every slot naming a copied URL was in the same row and copied too; so it is when no public URL was
   named twice, or none in two rows and nothing was skipped, and always when nothing was deleted. Only
   slots whose bytes match their type are copied. No public object is deleted unless every put and every
   row rewrite went well, and then only those of copied slots; when the delete went well and no row had
   changed, all of those. A run that found nothing to skip and changed no row leaves no public URL
   behind and no object it named, and a run over a table without one makes no write call.
   */
  method Migrate(w: World, fetch: Fetch, apply: bool)
    returns (rep: Report, done: bool, ghost copies: map<Slot, Url>, ghost deletes: bool)
    requires w.Valid()
    modifies w
    ensures fresh(rep) && OfPublicSlots(old(w.rows), copies) && OnlyMatches(fetch, old(w.rows), copies)
    ensures Covered(old(w.rows), copies) || SafeRun(old(w.rows), rep) ==> w.Valid()
    ensures PublicShrinks(old(w.rows), w.rows)
    ensures rep.docsPublic == rep.docsMigratable + rep.docsSkipped
    ensures rep.deleted != 0 ==> rep.deleted == rep.docsMigrated
    ensures done ==> (rep.docsSkipped == 0 <==> AllMatch(fetch, old(w.rows).Keys, old(w.rows)))
    ensures !deletes ==> PublicKept(old(w.objects), w.objects)
    ensures deletes ==> done && apply && (rep.failures == if rep.deleted == 0 then 1 else 0)
    ensures OnlyCopiedGone(old(w.rows), copies, old(w.objects), w.objects)
    ensures done && apply && rep.failures == 0 ==> MatchesCopied(fetch, old(w.rows).Keys, old(w.rows), copies)
    ensures done && apply && rep.failures == 0 && rep.rowsChanged == 0 ==> AllCopiedGone(old(w.rows), copies, w.objects)
    ensures done && apply && Clean(rep) ==>
              && NoPublic(w.rows) && w.Valid()
              && forall r, u: Url :: u.Public? && References(old(w.rows), r, u) ==> u !in w.objects
    ensures NoPublic(old(w.rows)) ==> done && w.writes == old(w.writes) && rep.docsPublic == 0
    ensures !apply ==> w.writes == old(w.writes) && w.Valid()
  {
    hide AllPrivate, RowPrivate, Covered, OneSlot, OneRow, AllMatch, MatchesCopied;
    rep := new Report();
    deletes := false;
    var snapshot := w.rows;
    NoPublicIsPrivateRows(snapshot);
    var made, stopped := CopyPhase(w, rep, snapshot, fetch, apply);
    copies := made;
    done := !stopped;
    if stopped || !apply { return; }
    if rep.failures > 0 {
      CleanUp(w, snapshot, made);
      return;
    }
    if rep.docsSkipped == 0 { AllMatchesCopied(fetch, snapshot.Keys, snapshot, made); }
    SafeRunIsCovered(snapshot, made, rep);
    done, deletes := MoveCopies(w, rep, snapshot, made);
    if AllCopied(snapshot.Keys, snapshot, made) { AllCopiedWas(snapshot, made); }
  }

  lemma AllCopiedWas(snapshot: Rows, copies: map<Slot, Url>)
    requires AllCopied(snapshot.Keys, snapshot, copies)
    ensures forall r, u: Url :: u.Public? && References(snapshot, r, u) ==> WasCopied(snapshot, copies, u)
  {
    forall r, u: Url | u.Public? && References(snapshot, r, u)
      ensures WasCopied(snapshot, copies, u)
    {
      var i: nat :| i < |snapshot[r]| && snapshot[r][i].url == u;
      assert Slot(r, i) in copies;
    }
  }

  lemma SafeRunIsCovered(snapshot: Rows, copies: map<Slot, Url>, rep: Report)
    requires OfPublicSlots(snapshot, copies)
    requires rep.docsSkipped == 0 ==> AllCopied(snapshot.Keys, snapshot, copies)
    ensures SafeRun(snapshot, rep) ==> Covered(snapshot, copies)
  {
    if OneSlot(snapshot) {
      AnySkipIsSafeExactly(snapshot);
    } else if SafeRun(snapshot, rep) {
      AllCopiedIsCovered(snapshot, copies);
    }
  }

  /** A put failed: the private copies of this run are deleted, best effort, and nothing else happens. */
  method CleanUp(w: World, ghost snapshot: Rows, copies: map<Slot, Url>)
    requires Copying(w, snapshot, copies)
    modifies w
    ensures w.Valid() && PublicShrinks(snapshot, w.rows) && w.rows == old(w.rows)
    ensures PublicKept(old(w.objects), w.objects)
    ensures copies == map[] ==> w.writes == old(w.writes)
  {
    if copies != map[] {
      var urls := set s | s in copies :: copies[s];
      var cleaned := w.Del(urls);
    }
  }

  /** Phases 2 and 3. */
  method MoveCopies(w: World, rep: Report, snapshot: Rows, copies: map<Slot, Url>) returns (done: bool, ghost deletes: bool)
    requires Copying(w, snapshot, copies)
    requires rep.docsMigrated == rep.rowsChanged == rep.deleted == rep.failures == 0
    modifies w, rep`docsMigrated, rep`rowsRewritten, rep`rowsChanged, rep`deleted, rep`failures
    ensures PublicShrinks(snapshot, w.rows)
    ensures Covered(snapshot, copies) ==> w.Valid()
    ensures rep.deleted != 0 ==> rep.deleted == rep.docsMigrated
    ensures !deletes ==> PublicKept(old(w.objects), w.objects)
    ensures deletes ==> done && (rep.failures == if rep.deleted == 0 then 1 else 0)
    ensures OnlyCopiedGone(snapshot, copies, old(w.objects), w.objects)
    ensures done && rep.failures == 0 && rep.rowsChanged == 0 ==> AllCopiedGone(snapshot, copies, w.objects)
    ensures done && Clean(rep) && AllCopied(snapshot.Keys, snapshot, copies) ==> NoPublic(w.rows) && w.Valid()
    ensures copies == map[] ==> done && w.writes == old(w.writes) && w.Valid()
  {
    hide AllPrivate, RowPrivate, Covered, PublicShrinks, GoodCopies, AllCopied;
    deletes := false;
    var oldUrls, stopped := RewritePhase(w, rep, snapshot, copies);
    done := !stopped;
    if stopped || rep.failures > 0 { return; }
    RowsArePrivate(snapshot, w.rows);
    if oldUrls != [] {
      deletes := true;
      NoneNamed(w.rows, oldUrls);
      DeleteOld(w, rep, oldUrls);
    }
    if rep.failures == 0 && rep.rowsChanged == 0 { AllCollectedGone(snapshot, copies, oldUrls, w.objects); }
  }

  lemma NoneNamed(rows: Rows, urls: seq<Url>)
    requires forall u :: u in urls ==> u.Public?
    ensures NoPublic(rows) ==> forall u :: u in urls ==> Unreferenced(rows, u)
  {
  }

  lemma AllCollectedGone(snapshot: Rows, copies: map<Slot, Url>, urls: seq<Url>, now: Objects)
    requires forall s :: s in copies && s.row in snapshot && s.index < |snapshot[s.row]| ==> snapshot[s.row][s.index].url in urls
    requires forall u :: u in urls ==> u !in now
    ensures AllCopiedGone(snapshot, copies, now)
  {
  }

  /** Phase 3: the objects of the URLs collected are deleted, or some of them when the call fails. */
  method DeleteOld(w: World, rep: Report, oldUrls: seq<Url>)
    requires w.Valid() && oldUrls != [] && rep.failures == rep.deleted == 0
    modifies w, rep`deleted, rep`failures
    ensures w.rows == old(w.rows) && ((forall u :: u in oldUrls ==> Unreferenced(w.rows, u)) ==> w.Valid())
    ensures rep.failures == (if rep.deleted == 0 then 1 else 0) && (rep.deleted != 0 ==> rep.deleted == |oldUrls|)
    ensures forall u :: u in old(w.objects) && u !in oldUrls ==> u in w.objects && w.objects[u] == old(w.objects)[u]
    ensures rep.failures == 0 ==> forall u :: u in oldUrls ==> u !in w.objects
  {
    var gone := set u | u in oldUrls;
    var ok := w.Del(gone);
    if ok { rep.deleted := |oldUrls|; } else { rep.failures := rep.failures + 1; }
  }

  lemma RowsArePrivate(snapshot: Rows, rows: Rows)
    requires PublicShrinks(snapshot, rows)
    ensures (forall r :: r in snapshot ==> RowPrivate(rows, r)) ==> NoPublic(rows)
  {
  }

  lemma NoPublicOneSlot(rows: Rows)
    requires NoPublic(rows)
    ensures OneSlot(rows)
  {
    NoPublicIsPrivateRows(rows);
  }

  /** After a clean run on any table, and any edits since, a second run finds nothing public and writes nothing. */
  method RunTwice(w: World, fetch: Fetch, again: Fetch) returns (first: Report, second: Report, done: bool)
    requires w.Valid()
    modifies w
    ensures SafeRun(old(w.rows), first) ==> w.Valid()
    ensures done && Clean(first) ==> second.docsPublic == 0 && NoPublic(w.rows) && w.Valid()
  {
    ghost var copies, deletes;
    first, done, copies, deletes := Migrate(w, fetch, true);
    second := first;
    if !done || first.failures > 0 || first.docsSkipped > 0 || first.rowsChanged > 0 { return; }
    w.Others();
    NoPublicOneSlot(w.rows);
    ghost var before := w.writes;
    second, done, copies, deletes := Migrate(w, again, true);
    assert w.writes == before;
  }
}
