/**
  The active index over whole histories: whatever publications, approvals,
  rejections, supersessions and run-queue steps are interleaved, each offering's
  active documents are the set of its latest accepted snapshot.
 */
module IndexHistory {
  import opened Wrappers
  import opened Schema
  import opened RunQueue
  import opened KnowledgePublication
  import opened ReviewSupersession
  import opened Publication
  import opened IndexInvariants
  import opened History

  // ---- the latest accepted snapshot ---------------------------------------

  datatype Acceptance = Acceptance(scope: Scope, acceptedAt: Time, queuedAt: Time)

  function AcceptedOf(d: Db): map<SnapshotId, Acceptance> {
    map s | s in d.snapshots && d.snapshots[s].status.Accepted? && d.snapshots[s].acceptedAt.Some?
            && d.snapshots[s].run in d.runs ::
      Acceptance(d.snapshots[s].scope, d.snapshots[s].acceptedAt.value, d.runs[d.snapshots[s].run].queuedAt)
  }

  /** `(accepted_at, queued_at, id)` of a, at least that of b. */
  predicate AtLeast(a: Acceptance, ida: SnapshotId, b: Acceptance, idb: SnapshotId) {
    a.acceptedAt > b.acceptedAt
    || (a.acceptedAt == b.acceptedAt && (a.queuedAt > b.queuedAt || (a.queuedAt == b.queuedAt && ida >= idb)))
  }

  ghost predicate IsLatest(accepted: map<SnapshotId, Acceptance>, s: SnapshotId) {
    s in accepted
    && forall t :: t in accepted && accepted[t].scope == accepted[s].scope ==> AtLeast(accepted[s], s, accepted[t], t)
  }

  /** A run that does not exist dates nothing, so nothing is before it. */
  predicate DatedBefore(d: Db, s: SnapshotId, beforeRun: Option<RunId>)
    requires s in d.snapshots
  {
    beforeRun.Some? ==> beforeRun.value in d.runs && d.snapshots[s].createdAt < d.runs[beforeRun.value].queuedAt
  }

  function CandidatesFor(d: Db, scope: Scope, beforeRun: Option<RunId>): (r: set<SnapshotId>)
    ensures forall s :: s in r <==>
              s in AcceptedOf(d) && AcceptedOf(d)[s].scope == scope && DatedBefore(d, s, beforeRun)
  {
    set s | s in AcceptedOf(d) && AcceptedOf(d)[s].scope == scope && DatedBefore(d, s, beforeRun)
  }

  /** The same in the tables' columns: an accepted snapshot of the offering whose run is
      there, created before the given run, if any, was queued. */
  ghost predicate AcceptedFor(snapshots: map<SnapshotId, SnapshotRow>, runs: map<RunId, RunRow>, scope: Scope,
                              beforeRun: Option<RunId>, s: SnapshotId)
  {
    && s in snapshots && snapshots[s].status == Accepted && snapshots[s].acceptedAt.Some? && snapshots[s].run in runs
    && snapshots[s].scope == scope
    && (beforeRun.None? || (beforeRun.value in runs && snapshots[s].createdAt < runs[beforeRun.value].queuedAt))
  }

  /** `t` was accepted earlier than `s`, or at once with it and of a run queued earlier, or
      queued at once and of a smaller id, or is `s`. */
  ghost predicate NoLater(snapshots: map<SnapshotId, SnapshotRow>, runs: map<RunId, RunRow>,
                          t: SnapshotId, s: SnapshotId)
    requires t in snapshots && snapshots[t].acceptedAt.Some? && snapshots[t].run in runs
    requires s in snapshots && snapshots[s].acceptedAt.Some? && snapshots[s].run in runs
  {
    && snapshots[t].acceptedAt.value <= snapshots[s].acceptedAt.value
    && (snapshots[t].acceptedAt == snapshots[s].acceptedAt ==>
          && runs[snapshots[t].run].queuedAt <= runs[snapshots[s].run].queuedAt
          && (runs[snapshots[t].run].queuedAt == runs[snapshots[s].run].queuedAt ==> t <= s))
  }

  lemma CandidatesInColumns(d: Db, scope: Scope, beforeRun: Option<RunId>)
    ensures forall t ::
              t in CandidatesFor(d, scope, beforeRun) <==> AcceptedFor(d.snapshots, d.runs, scope, beforeRun, t)
  {
  }

  lemma AtLeastInColumns(d: Db, s: SnapshotId)
    requires s in AcceptedOf(d)
    ensures forall t :: t in AcceptedOf(d) ==>
              (AtLeast(AcceptedOf(d)[s], s, AcceptedOf(d)[t], t) <==> NoLater(d.snapshots, d.runs, t, s))
  {
  }

  class SnapshotRepository {
    const db: Database

    constructor (db: Database)
      ensures this.db == db
    {
      this.db := db;
    }

    /** `ORDER BY accepted_at DESC, queued_at DESC, id DESC LIMIT 1` over the offering's
        accepted snapshots, or those dated before a run was queued. */
    method GetLatestAccepted(scope: Scope, beforeRun: Option<RunId>) returns (r: Option<SnapshotId>)
      ensures r.None? <==> CandidatesFor(db.View(), scope, beforeRun) == {}
      ensures r.Some? ==>
                && r.value in CandidatesFor(db.View(), scope, beforeRun)
                && forall t :: t in CandidatesFor(db.View(), scope, beforeRun) ==>
                     AtLeast(AcceptedOf(db.View())[r.value], r.value, AcceptedOf(db.View())[t], t)
      ensures r.None? ==>
                forall t :: t in db.snapshots ==> !AcceptedFor(db.snapshots, db.runs, scope, beforeRun, t)
      ensures r.Some? ==>
                && AcceptedFor(db.snapshots, db.runs, scope, beforeRun, r.value)
                && forall t :: t in db.snapshots && AcceptedFor(db.snapshots, db.runs, scope, beforeRun, t) ==>
                     NoLater(db.snapshots, db.runs, t, r.value)
    {
      var accepted := AcceptedOf(db.View());
      var candidates := CandidatesFor(db.View(), scope, beforeRun);
      CandidatesInColumns(db.View(), scope, beforeRun);
      if candidates == {} {
        return None;
      }
      var best :| best in candidates;
      var rest := candidates - {best};
      while rest != {}
        invariant best in candidates && best !in rest && rest <= candidates
        invariant forall t :: t in candidates && t !in rest ==> AtLeast(accepted[best], best, accepted[t], t)
        decreases |rest|
      {
        var t :| t in rest;
        if AtLeast(accepted[t], t, accepted[best], best) {
          best := t;
        }
        rest := rest - {t};
      }
      AtLeastInColumns(db.View(), best);
      r := Some(best);
    }
  }

  /** Without a run to stay before, the first of the candidates is the latest accepted. */
  lemma UnfilteredIsLatest(d: Db, scope: Scope, s: SnapshotId)
    requires s in AcceptedOf(d) && AcceptedOf(d)[s].scope == scope
    ensures IsLatest(AcceptedOf(d), s) <==>
              s in CandidatesFor(d, scope, None)
              && forall t :: t in CandidatesFor(d, scope, None) ==> AtLeast(AcceptedOf(d)[s], s, AcceptedOf(d)[t], t)
  {
    assert forall t :: t in CandidatesFor(d, scope, None) <==> t in AcceptedOf(d) && AcceptedOf(d)[t].scope == scope;
  }

  ghost predicate LatestLinks(accepted: map<SnapshotId, Acceptance>, links: set<Link>, v: Version) {
    exists s :: IsLatest(accepted, s) && Link(s, v) in links
  }

  /** A document is active exactly when the latest accepted snapshot of an offering
      links it. */
  ghost predicate IndexAgrees(d: Db) {
    forall v :: v in ActiveDocs(d) <==> LatestLinks(AcceptedOf(d), d.links, v)
  }

  // ---- executions and snapshots -------------------------------------------

  predicate SameWork(a: ExecRow, b: ExecRow) {
    a.run == b.run && a.offering == b.offering
  }

  /** The snapshot's execution, of its run and offering, is no longer open. */
  predicate OwnExec(row: SnapshotRow, execs: map<ExecId, ExecRow>) {
    && row.exec in execs && execs[row.exec].run == row.run && execs[row.exec].offering == row.scope.offering
    && !execs[row.exec].status.IsOpen()
  }

  /** A run has one execution per offering, and an execution that has a snapshot is
      no longer open. */
  ghost predicate ExecsOk(d: Db) {
    && (forall x, y :: x in d.execs && y in d.execs && SameWork(d.execs[x], d.execs[y]) ==> x == y)
    && (forall s :: s in d.snapshots ==> OwnExec(d.snapshots[s], d.execs))
    && (forall x :: x in d.execs ==> d.execs[x].run in d.runs)
  }

  ghost predicate AllOk(d: Db) {
    Inv(d) && ExecsOk(d)
  }

  /** So a publication that is let through always inserts its snapshot. */
  lemma PublishesFresh(d: Db, p: Request)
    requires ExecsOk(d) && Publishable(d, p)
    ensures AttemptsOf(d.snapshots, p.row) == {} && p.snapshot !in d.snapshots
  {
    forall s | s in d.snapshots ensures s !in AttemptsOf(d.snapshots, p.row) {
      var x := d.snapshots[s].exec;
      assert x != p.exec && !SameWork(d.execs[x], d.execs[p.exec]);
    }
  }

  // ---- what leaves the index view alone -----------------------------------

  /** Same accepted snapshots with the same links, and same active documents. */
  ghost predicate SameView(d: Db, d': Db) {
    && AcceptedOf(d') == AcceptedOf(d)
    && ActiveDocs(d') == ActiveDocs(d)
    && forall s, v :: s in AcceptedOf(d) ==> (Link(s, v) in d'.links <==> Link(s, v) in d.links)
  }

  lemma SameViewAgrees(d: Db, d': Db)
    requires SameView(d, d')
    ensures IndexAgrees(d') <==> IndexAgrees(d)
  {
    forall v ensures LatestLinks(AcceptedOf(d'), d'.links, v) <==> LatestLinks(AcceptedOf(d), d.links, v) {
    }
  }

  lemma SameViewTwice(a: Db, b: Db, c: Db)
    requires SameView(a, b) && SameView(b, c)
    ensures SameView(a, c)
  {
  }

  // ---- discarding and closing leave accepted snapshots alone --------------

  lemma DiscardLeavesView(d: Db, gone: set<SnapshotId>)
    requires DocumentsOk(d) && forall s :: s in gone ==> s !in AcceptedOf(d)
    ensures SameView(d, DiscardAllDb(d, gone))
  {
    DiscardAllKeeps(d, gone);
    assert AcceptedOf(DiscardAllDb(d, gone)) == AcceptedOf(d);
  }

  lemma CloseLeavesView(d: Db, snapshots: set<SnapshotId>, now: Time)
    requires SnapshotsOk(d)
    ensures SameView(d, CloseAllDb(d, snapshots, now))
  {
    var d1 := CloseAllDb(d, snapshots, now);
    assert AcceptedOf(d1) == AcceptedOf(d);
  }

  /** The same snapshots of the same work. */
  ghost predicate SameSnapshots(d: Db, d': Db) {
    d'.snapshots.Keys == d.snapshots.Keys
    && forall s :: s in d.snapshots ==>
         d'.snapshots[s].exec == d.snapshots[s].exec && d'.snapshots[s].run == d.snapshots[s].run
         && d'.snapshots[s].scope == d.snapshots[s].scope
  }

  lemma ExecsFrame(d: Db, d': Db)
    requires ExecsOk(d) && SameSnapshots(d, d') && d.runs.Keys <= d'.runs.Keys
    requires ExecsMove(d.execs, d'.execs) && d'.execs.Keys == d.execs.Keys
    ensures ExecsOk(d')
  {
    forall x, y | x in d'.execs && y in d'.execs && SameWork(d'.execs[x], d'.execs[y]) ensures x == y {
      assert SameWork(d.execs[x], d.execs[y]);
    }
  }

  lemma LinksFrame(d: Db, d': Db)
    requires DocumentsOk(d) && SameSnapshots(d, d')
    requires d'.documents == d.documents && d'.chunks == d.chunks && d'.links == d.links
    ensures DocumentsOk(d')
  {
  }

  lemma CloseChanges(d: Db, snapshots: set<SnapshotId>, now: Time)
    ensures var d1 := CloseAllDb(d, snapshots, now);
            && d1 == d.(snapshots := d1.snapshots, execs := d1.execs)
            && SameSnapshots(d, d1) && d1.execs.Keys == d.execs.Keys && ExecsMove(d.execs, d1.execs)
            && forall s :: s in d.snapshots ==>
                 d1.snapshots[s] == d.snapshots[s]
                 || (d.snapshots[s].status.ReviewRequired? && d1.snapshots[s] == RejectedRow(d.snapshots[s]))
  {
  }

  lemma CloseKeeps(d: Db, snapshots: set<SnapshotId>, now: Time)
    requires Inv(d)
    ensures Inv(CloseAllDb(d, snapshots, now))
  {
    CloseChanges(d, snapshots, now);
    LinksFrame(d, CloseAllDb(d, snapshots, now));
  }

  lemma DiscardKeeps(d: Db, gone: set<SnapshotId>)
    requires Inv(d)
    ensures Inv(DiscardAllDb(d, gone))
  {
    DiscardAllKeeps(d, gone);
  }

  /** Supersession keeps the invariants and, since it only touches snapshots that wait
      for a review, never the index. */
  lemma SupersedeKeeps(d: Db, s: SnapshotId, now: Time)
    requires Inv(d)
    ensures var d1 := SupersedeDb(d, s, now);
            Inv(d1) && SameView(d, d1) && SameSnapshots(d, d1) && d1.runs == d.runs
            && d1.execs.Keys == d.execs.Keys && ExecsMove(d.execs, d1.execs)
  {
    DismissKeeps(d, Moot(d, s), ReviewSuperseded, Reviewed(d, Moot(d, s)), now);
  }

  lemma {:induction false} DismissKeeps(d: Db, ids: set<ReviewId>, end: ReviewStatus, closing: set<SnapshotId>,
                                        now: Time)
    requires Inv(d) && !end.ReviewPending?
    requires forall r :: r in ids ==> r in d.reviews && d.reviews[r].status.ReviewPending?
    ensures var d1 := DismissDb(d, ids, end, closing, now);
            Inv(d1) && SameView(d, d1) && SameSnapshots(d, d1) && d1.runs == d.runs
            && d1.execs.Keys == d.execs.Keys && ExecsMove(d.execs, d1.execs)
  {
    var d1 := d.(reviews := Settle(d.reviews, ids, end));
    var older := Reviewed(d, ids);
    assert Inv(d1) && SameView(d, d1);
    forall o | o in older ensures o !in AcceptedOf(d1) {
      var r :| r in ids && r in d.reviews && d.reviews[r].snapshot == o;
    }
    DiscardLeavesView(d1, older);
    DiscardKeeps(d1, older);
    var d2 := DiscardAllDb(d1, older);
    CloseLeavesView(d2, closing, now);
    CloseKeeps(d2, closing, now);
    CloseChanges(d2, closing, now);
    SameViewTwice(d, d1, d2);
    SameViewTwice(d, d2, CloseAllDb(d2, closing, now));
  }

  // ---- publishing ---------------------------------------------------------

  /** A new snapshot with links to stored documents of its own bank. */
  lemma AddSnapshotKeeps(d: Db, d': Db, s: SnapshotId, row: SnapshotRow, versions: set<Version>)
    requires Inv(d) && s !in d.snapshots && row.run in d.runs && (row.status.Accepted? <==> row.acceptedAt.Some?)
    requires forall v :: v in versions ==> v in d.documents && v.scope == row.scope
    requires d' == d.(snapshots := d.snapshots[s := row], links := d.links + LinksTo(s, versions))
    ensures Inv(d') && ActiveDocs(d') == ActiveDocs(d)
  {
    assert LinksOk(d');
    assert ReviewsOk(d');
  }

  lemma RecordedRows(d: Db, p: Request, now: Time)
    requires AllOk(d) && Publishable(d, p)
    ensures var stored, versions := StoreAllDb(d, p.documents, now), VersionsOf(p.documents);
            && p.snapshot !in d.snapshots
            && RecordedDb(d, p, now) == stored.(snapshots := stored.snapshots[p.snapshot := p.row],
                                                links := stored.links + LinksTo(p.snapshot, versions))
  {
    PublishesFresh(d, p);
    StoreAllLeaves(d, p.documents, now);
  }

  lemma RecordKeeps(d: Db, p: Request, now: Time)
    requires AllOk(d) && Publishable(d, p) && p.SameBank()
    ensures var d1 := RecordedDb(d, p, now);
            && Inv(d1) && ActiveDocs(d1) == ActiveDocs(d)
            && d1.runs == d.runs && d1.execs == d.execs && d1.reviews == d.reviews
            && p.snapshot !in d.snapshots && d1.snapshots == d.snapshots[p.snapshot := p.row]
            && d1.links == d.links + LinksTo(p.snapshot, VersionsOf(p.documents))
            && VersionsOf(p.documents) <= d1.documents.Keys
  {
    RecordedRows(d, p, now);
    StoreAllLeaves(d, p.documents, now);
    StoreAllKeeps(d, p.documents, now);
    var stored := StoreAllDb(d, p.documents, now);
    forall v | v in VersionsOf(p.documents) ensures v in stored.documents && v.scope == p.row.scope {
      var i :| 0 <= i < |p.documents| && p.documents[i].version == v;
    }
    AddSnapshotKeeps(stored, RecordedDb(d, p, now), p.snapshot, p.row, VersionsOf(p.documents));
  }

  /** The snapshots of `d` and the published one, of the same work each. */
  ghost predicate HasPublished(d: Db, d': Db, p: Request) {
    && d'.snapshots.Keys == d.snapshots.Keys + {p.snapshot}
    && forall s :: s in d'.snapshots ==>
         var row := if s == p.snapshot then p.row else d.snapshots[s];
         d'.snapshots[s].exec == row.exec && d'.snapshots[s].run == row.run && d'.snapshots[s].scope == row.scope
  }

  lemma PublishKeepsExecs(d: Db, d': Db, p: Request, now: Time)
    requires ExecsOk(d) && Publishable(d, p)
    requires HasPublished(d, d', p) && d'.runs == d.runs
    requires d'.execs.Keys == d.execs.Keys && ExecsMove(d.execs, d'.execs)
    ensures ExecsOk(CompletedDb(d', p.exec, PublicationStatus(p.row.status), now))
  {
    var d3 := CompletedDb(d', p.exec, PublicationStatus(p.row.status), now);
    CompletingMovesExecs(d.execs, d', p.exec, PublicationStatus(p.row.status), now);
    MovedExecsOk(d, d3);
    assert OwnExec(p.row, d3.execs);
    assert HasPublished(d, d3, p);
    SnapshotsExecsOk(d, d3, p);
  }

  /** A publication completes an execution that is still open. */
  lemma CompletingMovesExecs(execs: map<ExecId, ExecRow>, d: Db, x: ExecId, status: ExecStatus, now: Time)
    requires d.execs.Keys == execs.Keys && ExecsMove(execs, d.execs) && x in execs
    requires execs[x].status.IsOpen() && !status.IsOpen()
    ensures var execs' := CompletedDb(d, x, status, now).execs;
            execs'.Keys == execs.Keys && ExecsMove(execs, execs') && !execs'[x].status.IsOpen()
  {
    ExecPointMoves(execs, d.execs, x, PublishedExec(d.execs[x], status, now));
  }

  lemma SnapshotsExecsOk(d: Db, d': Db, p: Request)
    requires forall s :: s in d.snapshots ==> OwnExec(d.snapshots[s], d'.execs)
    requires OwnExec(p.row, d'.execs) && HasPublished(d, d', p)
    ensures forall s :: s in d'.snapshots ==> OwnExec(d'.snapshots[s], d'.execs)
  {
  }

  lemma MovedExecsOk(d: Db, d': Db)
    requires ExecsOk(d) && d'.runs == d.runs && d'.execs.Keys == d.execs.Keys && ExecsMove(d.execs, d'.execs)
    ensures forall x, y :: x in d'.execs && y in d'.execs && SameWork(d'.execs[x], d'.execs[y]) ==> x == y
    ensures forall s :: s in d.snapshots ==> OwnExec(d.snapshots[s], d'.execs)
    ensures forall x :: x in d'.execs ==> d'.execs[x].run in d'.runs
  {
    forall x, y | x in d'.execs && y in d'.execs && SameWork(d'.execs[x], d'.execs[y]) ensures x == y {
      assert SameWork(d.execs[x], d.execs[y]);
    }
  }

  lemma ActivateKeepsInv(d: Db, s: SnapshotId, now: Time)
    requires Inv(d) && s in d.snapshots
    ensures var d1 := ActivateDb(d, s, now);
            Inv(d1) && d1 == d.(documents := d1.documents, chunks := d1.chunks)
  {
    ActivateKeeps(d, s, now);
  }

  lemma IndexKeeps(d: Db, p: Request, now: Time)
    requires AllOk(d) && Publishable(d, p) && p.SameBank()
    ensures var d1 := IndexedDb(d, p, now);
            && Inv(d1) && d1.runs == d.runs && d1.execs == d.execs
            && p.snapshot !in d.snapshots && d1.snapshots == d.snapshots[p.snapshot := p.row]
            && d1.links == d.links + LinksTo(p.snapshot, VersionsOf(p.documents))
  {
    RecordKeeps(d, p, now);
    ActivateKeepsInv(RecordedDb(d, p, now), p.snapshot, now);
  }

  /** After the index is set, superseding and completing keep the invariants and the view. */
  lemma CompleteKeeps(d: Db, i: Db, p: Request, now: Time)
    requires ExecsOk(d) && Publishable(d, p) && Inv(i) && HasPublished(d, i, p)
    requires i.runs == d.runs && i.execs == d.execs
    ensures var d1 := CompletedDb(SupersedeDb(i, p.snapshot, now), p.exec, PublicationStatus(p.row.status), now);
            AllOk(d1) && SameView(i, d1)
  {
    SupersedeKeeps(i, p.snapshot, now);
    SettledKeeps(d, i, SupersedeDb(i, p.snapshot, now), p, now);
  }

  lemma SettledKeeps(d: Db, i: Db, d1: Db, p: Request, now: Time)
    requires ExecsOk(d) && Publishable(d, p) && HasPublished(d, i, p) && i.runs == d.runs && i.execs == d.execs
    requires Inv(d1) && SameView(i, d1) && SameSnapshots(i, d1) && d1.runs == i.runs
    requires d1.execs.Keys == i.execs.Keys && ExecsMove(i.execs, d1.execs)
    ensures var d2 := CompletedDb(d1, p.exec, PublicationStatus(p.row.status), now);
            AllOk(d2) && SameView(i, d2)
  {
    assert HasPublished(d, d1, p);
    PublishKeepsExecs(d, d1, p, now);
    var d2 := CompletedDb(d1, p.exec, PublicationStatus(p.row.status), now);
    ExecsDoNotMatter(d1, d2);
    SameViewTwice(i, d1, d2);
  }

  /** A publication keeps the invariants, whatever it publishes, as long as its
      documents carry its own bank. */
  lemma PublishKeeps(d: Db, p: Request, now: Time)
    requires AllOk(d) && p.SameBank()
    ensures AllOk(PublishDb(d, p, now))
    ensures Publishable(d, p) ==> SameView(IndexedDb(d, p, now), PublishDb(d, p, now))
  {
    if Publishable(d, p) {
      IndexKeeps(d, p, now);
      CompleteKeeps(d, IndexedDb(d, p, now), p, now);
    }
  }

  lemma ExecsDoNotMatter(d: Db, d': Db)
    requires d' == d.(execs := d'.execs)
    ensures Inv(d) ==> Inv(d')
    ensures SameView(d, d')
  {
    assert AcceptedOf(d') == AcceptedOf(d);
  }

  // ---- how a publication moves the index ----------------------------------

  function AcceptanceOf(d: Db, p: Request): Acceptance
    requires p.row.acceptedAt.Some? && p.row.run in d.runs
  {
    Acceptance(p.row.scope, p.row.acceptedAt.value, d.runs[p.row.run].queuedAt)
  }

  /** No accepted snapshot of the scope comes after one accepted like this. */
  predicate Above(accepted: map<SnapshotId, Acceptance>, a: Acceptance, id: SnapshotId) {
    forall t :: t in accepted && accepted[t].scope == a.scope ==> !AtLeast(accepted[t], t, a, id)
  }

  function ActiveIn(d: Db, scope: Scope): set<Version> {
    set v | v in ActiveDocs(d) && v.scope == scope
  }

  lemma LatestIsUnique(accepted: map<SnapshotId, Acceptance>, a: SnapshotId, b: SnapshotId)
    requires IsLatest(accepted, a) && IsLatest(accepted, b) && accepted[a].scope == accepted[b].scope
    ensures a == b
  {
  }

  lemma InsertMovesAcceptance(d: Db, d1: Db, p: Request)
    requires p.WellFormed() && p.row.run in d.runs && p.snapshot !in d.snapshots
    requires d1.runs == d.runs && d1.snapshots == d.snapshots[p.snapshot := p.row]
    ensures p.snapshot !in AcceptedOf(d)
    ensures AcceptedOf(d1) ==
              if p.row.status.Accepted? then AcceptedOf(d)[p.snapshot := AcceptanceOf(d, p)] else AcceptedOf(d)
  {
  }

  lemma LinksMove(d: Db, p: Request)
    requires LinksOk(d) && p.snapshot !in d.snapshots
    ensures var links := d.links + LinksTo(p.snapshot, VersionsOf(p.documents));
            && (forall t, v :: t in d.snapshots ==> (Link(t, v) in links <==> Link(t, v) in d.links))
            && (forall v :: Link(p.snapshot, v) in links <==> v in VersionsOf(p.documents))
  {
  }

  /** A candidate, review or rejected publication never moves the index. */
  lemma {:induction false} UnacceptedLeavesView(d: Db, p: Request, now: Time)
    requires AllOk(d) && Publishable(d, p) && p.SameBank() && !p.row.status.Accepted?
    ensures SameView(d, PublishDb(d, p, now))
  {
    PublishKeeps(d, p, now);
    RecordKeeps(d, p, now);
    var d1 := RecordedDb(d, p, now);
    RunExists(d, p);
    InsertMovesAcceptance(d, d1, p);
    LinksMove(d, p);
    assert SameView(d, d1);
    SameViewTwice(d, d1, PublishDb(d, p, now));
  }

  lemma RunExists(d: Db, p: Request)
    requires ExecsOk(d) && Publishable(d, p)
    ensures p.row.run in d.runs
  {
  }

  lemma ActivatedDocs(d: Db, r: Db, p: Request, now: Time)
    requires DocumentsOk(r) && p.snapshot in r.snapshots && r.snapshots[p.snapshot] == p.row
    requires ActiveDocs(r) == ActiveDocs(d) && VersionsOf(p.documents) <= r.documents.Keys
    requires forall v :: v in VersionsOf(p.documents) ==> v.scope == p.row.scope
    requires forall v :: Link(p.snapshot, v) in r.links <==> v in VersionsOf(p.documents)
    ensures forall v :: v in ActiveDocs(ActivateDb(r, p.snapshot, now)) <==>
              if v.scope == p.row.scope then v in VersionsOf(p.documents) else v in ActiveDocs(d)
  {
    ActivateMakesTheIndex(r, p.snapshot, now);
    var d1 := ActivateDb(r, p.snapshot, now);
    forall v ensures v in ActiveDocs(d1) <==>
                     if v.scope == p.row.scope then v in VersionsOf(p.documents) else v in ActiveDocs(d) {
      assert v in ActiveDocs(r) <==> v in ActiveDocs(d);
    }
  }

  /** An accepted one adds its acceptance, and replaces the offering's active set when
      it has documents. */
  lemma AcceptedMovesIndex(d: Db, p: Request, now: Time)
    requires AllOk(d) && Publishable(d, p) && p.SameBank() && p.row.status.Accepted?
    ensures p.row.run in d.runs && p.snapshot !in AcceptedOf(d) && p.snapshot !in d.snapshots
    ensures AcceptedOf(IndexedDb(d, p, now)) == AcceptedOf(d)[p.snapshot := AcceptanceOf(d, p)]
    ensures p.documents == [] ==> ActiveDocs(IndexedDb(d, p, now)) == ActiveDocs(d)
    ensures p.documents != [] ==>
              forall v :: v in ActiveDocs(IndexedDb(d, p, now)) <==>
                if v.scope == p.row.scope then v in VersionsOf(p.documents) else v in ActiveDocs(d)
  {
    RunExists(d, p);
    RecordKeeps(d, p, now);
    IndexKeeps(d, p, now);
    InsertMovesAcceptance(d, IndexedDb(d, p, now), p);
    if p.documents != [] {
      LinksMove(d, p);
      InScope(p);
      ActivatedDocs(d, RecordedDb(d, p, now), p, now);
    }
  }

  lemma InScope(p: Request)
    requires p.WellFormed() && p.SameBank()
    ensures forall v :: v in VersionsOf(p.documents) ==> v.scope == p.row.scope
    ensures p.documents != [] ==> exists v :: v in VersionsOf(p.documents)
  {
    forall v | v in VersionsOf(p.documents) ensures v.scope == p.row.scope {
      var i :| 0 <= i < |p.documents| && p.documents[i].version == v;
    }
    if p.documents != [] {
      assert p.documents[0].version in VersionsOf(p.documents);
    }
  }

  /** The latest set after one more acceptance: the new one's if it comes after every
      accepted snapshot of its scope, and otherwise what it was. */
  lemma LatestAfter(accepted: map<SnapshotId, Acceptance>, links: set<Link>,
                                       id: SnapshotId, a: Acceptance, links': set<Link>, v: Version)
    requires id !in accepted
    requires forall t, w :: t in accepted ==> (Link(t, w) in links' <==> Link(t, w) in links)
    requires forall t, w :: t in accepted && Link(t, w) in links ==> w.scope == accepted[t].scope
    requires forall w :: Link(id, w) in links' ==> w.scope == a.scope
    ensures LatestLinks(accepted[id := a], links', v) <==>
              if v.scope == a.scope && Above(accepted, a, id) then Link(id, v) in links'
              else LatestLinks(accepted, links, v)
  {
    var accepted' := accepted[id := a];
    if v.scope == a.scope && Above(accepted, a, id) {
      assert IsLatest(accepted', id);
      if s :| IsLatest(accepted', s) && Link(s, v) in links' {
        LatestIsUnique(accepted', s, id);
      }
    } else {
      forall s | s in accepted && Link(s, v) in links ensures IsLatest(accepted', s) <==> IsLatest(accepted, s) {
        LatestKept(accepted, id, a, s);
      }
      LatestIsAbove(accepted, id, a);
      if s :| IsLatest(accepted', s) && Link(s, v) in links' {
        assert s != id;
        assert IsLatest(accepted, s) && Link(s, v) in links;
      }
      if s :| IsLatest(accepted, s) && Link(s, v) in links {
        assert IsLatest(accepted', s) && Link(s, v) in links';
      }
    }
  }

  lemma LatestIsAbove(accepted: map<SnapshotId, Acceptance>, id: SnapshotId, a: Acceptance)
    requires id !in accepted
    ensures IsLatest(accepted[id := a], id) ==> Above(accepted, a, id)
  {
    var accepted' := accepted[id := a];
    if IsLatest(accepted', id) {
      forall t | t in accepted && accepted[t].scope == a.scope ensures !AtLeast(accepted[t], t, a, id) {
        assert accepted'[t] == accepted[t] && AtLeast(a, id, accepted'[t], t);
      }
    }
  }

  lemma LatestKept(accepted: map<SnapshotId, Acceptance>, id: SnapshotId, a: Acceptance, s: SnapshotId)
    requires id !in accepted && s in accepted
    requires accepted[s].scope == a.scope ==> !Above(accepted, a, id)
    ensures IsLatest(accepted[id := a], s) <==> IsLatest(accepted, s)
  {
    var accepted' := accepted[id := a];
    if IsLatest(accepted', s) {
      forall t | t in accepted && accepted[t].scope == accepted[s].scope
        ensures AtLeast(accepted[s], s, accepted[t], t)
      {
        assert accepted'[t] == accepted[t];
      }
    }
    if IsLatest(accepted, s) && accepted[s].scope == a.scope {
      var t :| t in accepted && accepted[t].scope == a.scope && AtLeast(accepted[t], t, a, id);
      assert AtLeast(accepted[s], s, accepted[t], t);
    }
  }

  /** When an accepted publication keeps the index in agreement with
      `get_latest_accepted`. One with documents does exactly when it comes after every
      accepted snapshot of its offering, or happens to list the very documents that
      are active. One without documents does exactly when it does not come last, or
      nothing is active to begin with. */
  lemma {:induction false} AcceptedAgreesIff(d: Db, p: Request, now: Time)
    requires AllOk(d) && IndexAgrees(d)
    requires Publishable(d, p) && p.SameBank() && p.row.status.Accepted? && p.row.run in d.runs
    ensures IndexAgrees(PublishDb(d, p, now)) <==>
              var above := Above(AcceptedOf(d), AcceptanceOf(d, p), p.snapshot);
              if p.documents != [] then above || VersionsOf(p.documents) == ActiveIn(d, p.row.scope)
              else !above || ActiveIn(d, p.row.scope) == {}
  {
    PublishKeeps(d, p, now);
    AcceptedMovesIndex(d, p, now);
    IndexKeeps(d, p, now);
    InScope(p);
    LinksMove(d, p);
    var d1 := IndexedDb(d, p, now);
    SameViewAgrees(d1, PublishDb(d, p, now));
    var accepted, a := AcceptedOf(d), AcceptanceOf(d, p);
    forall v ensures LatestLinks(AcceptedOf(d1), d1.links, v) <==>
                       if v.scope == a.scope && Above(accepted, a, p.snapshot) then v in VersionsOf(p.documents)
                       else v in ActiveDocs(d) {
      LatestAfter(accepted, d.links, p.snapshot, a, d1.links, v);
    }
    AgreesIff(d, d1, p, Above(accepted, a, p.snapshot));
  }

  lemma AgreesIff(d: Db, d1: Db, p: Request, above: bool)
    requires forall v :: LatestLinks(AcceptedOf(d1), d1.links, v) <==>
               if v.scope == p.row.scope && above then v in VersionsOf(p.documents) else v in ActiveDocs(d)
    requires p.documents == [] ==> ActiveDocs(d1) == ActiveDocs(d)
    requires p.documents != [] ==>
               forall v :: v in ActiveDocs(d1) <==>
                 if v.scope == p.row.scope then v in VersionsOf(p.documents) else v in ActiveDocs(d)
    requires forall v :: v in VersionsOf(p.documents) ==> v.scope == p.row.scope
    ensures IndexAgrees(d1) <==>
              if p.documents != [] then above || VersionsOf(p.documents) == ActiveIn(d, p.row.scope)
              else !above || ActiveIn(d, p.row.scope) == {}
  {
    var docs, active := VersionsOf(p.documents), ActiveIn(d, p.row.scope);
    if p.documents != [] && !above {
      if IndexAgrees(d1) {
        forall v ensures v in docs <==> v in active {
          assert v in ActiveDocs(d1) <==> LatestLinks(AcceptedOf(d1), d1.links, v);
        }
      }
    }
    if p.documents == [] && above {
      assert docs == {};
      if IndexAgrees(d1) {
        forall v ensures v !in active {
          assert v in ActiveDocs(d1) <==> LatestLinks(AcceptedOf(d1), d1.links, v);
        }
      }
    }
  }

  // ---- approving and rejecting --------------------------------------------

  function ApprovalOf(d: Db, s: SnapshotId, now: Time): Acceptance
    requires Dated(d, s)
  {
    Acceptance(d.snapshots[s].scope, now, d.runs[d.snapshots[s].run].queuedAt)
  }

  /** Accepting a snapshot without a pending review keeps the invariants. */
  lemma AcceptKeepsInv(d: Db, s: SnapshotId, now: Time)
    requires Inv(d) && s in d.snapshots && d.snapshots[s].status.ReviewRequired? && Resolved(d, s)
    ensures var d1 := AcceptDb(d, s, now);
            Inv(d1) && SameSnapshots(d, d1) && d1 == d.(snapshots := d1.snapshots)
  {
    var d1 := AcceptDb(d, s, now);
    LinksFrame(d, d1);
    assert SnapshotsOk(d1);
    forall r | r in d1.reviews && d1.reviews[r].status.ReviewPending?
      ensures d1.reviews[r].snapshot in d1.snapshots && !d1.snapshots[d1.reviews[r].snapshot].status.Accepted?
    {
      assert d1.reviews[r].snapshot != s;
    }
  }

  lemma AcceptAddsAcceptance(d: Db, s: SnapshotId, now: Time)
    requires SnapshotsOk(d) && s in d.snapshots && d.snapshots[s].status.ReviewRequired?
    ensures s !in AcceptedOf(d)
    ensures AcceptedOf(AcceptDb(d, s, now)) == AcceptedOf(d)[s := ApprovalOf(d, s, now)]
  {
  }

  lemma AcceptKeeps(d: Db, s: SnapshotId, now: Time)
    requires Inv(d) && s in d.snapshots && d.snapshots[s].status.ReviewRequired? && Resolved(d, s)
    ensures var d1 := AcceptDb(d, s, now);
            && Inv(d1) && SameSnapshots(d, d1) && s !in AcceptedOf(d)
            && d1 == d.(snapshots := d1.snapshots)
            && AcceptedOf(d1) == AcceptedOf(d)[s := ApprovalOf(d, s, now)]
  {
    AcceptKeepsInv(d, s, now);
    AcceptAddsAcceptance(d, s, now);
  }

  lemma ActivateApprovedKeeps(d: Db, s: SnapshotId, x: ExecId, now: Time)
    requires AllOk(d)
    requires s in d.snapshots && d.snapshots[s].status.ReviewRequired? && Resolved(d, s)
    ensures AllOk(ActivateApprovedDb(d, s, x, now))
    ensures SameView(AcceptDb(ActivateDb(d, s, now), s, now), ActivateApprovedDb(d, s, x, now))
  {
    ActivateKeepsInv(d, s, now);
    var d1 := ActivateDb(d, s, now);
    AcceptKeeps(d1, s, now);
    var d2 := AcceptDb(d1, s, now);
    SupersedeKeeps(d2, s, now);
    var d3 := SupersedeDb(d2, s, now);
    var d4 := ActivateApprovedDb(d, s, x, now);
    ExecsDoNotMatter(d3, d4);
    SameViewTwice(d2, d3, d4);
    ActivateApprovedMovesExecs(d, s, x, now);
    ExecsFrame(d, d4);
  }

  /** The documents a snapshot links. */
  function LinkedBy(links: set<Link>, s: SnapshotId): set<Version> {
    set l | l in links && l.snapshot == s :: l.version
  }

  /** An approval before its activation: one review decided, one canonical form changed. */
  lemma ApprovedKeeps(d: Db, r: ReviewId, a: Approval)
    requires AllOk(d) && ApprovalFits(d, r, a)
    ensures var d1 := ApprovedDb(d, r, a);
            AllOk(d1) && SameView(d, d1) && SameSnapshots(d, d1) && d1.snapshots[a.snapshot].status.ReviewRequired?
  {
    var d1 := ApprovedDb(d, r, a);
    NewFormKeeps(d, d1, a.snapshot, a.canonical);
    assert ReviewsOk(d1);
    ExecsFrame(d, d1);
  }

  ghost predicate OnlyForm(d: Db, d': Db, s: SnapshotId, canonical: string) {
    s in d.snapshots
    && d' == d.(reviews := d'.reviews, snapshots := d.snapshots[s := d.snapshots[s].(canonical := canonical)])
  }

  lemma NewFormLeavesView(d: Db, d': Db, s: SnapshotId, canonical: string)
    requires SnapshotsOk(d) && OnlyForm(d, d', s, canonical)
    ensures SameView(d, d')
  {
    assert AcceptedOf(d') == AcceptedOf(d);
  }

  /** Changing a snapshot's canonical form, and reviews, changes nothing else. */
  lemma NewFormKeeps(d: Db, d': Db, s: SnapshotId, canonical: string)
    requires DocumentsOk(d) && SnapshotsOk(d) && OnlyForm(d, d', s, canonical)
    ensures DocumentsOk(d') && SnapshotsOk(d') && SameView(d, d') && SameSnapshots(d, d')
  {
    LinksFrame(d, d');
    NewFormLeavesView(d, d', s, canonical);
  }

  lemma ApproveKeeps(d: Db, r: ReviewId, a: Approval, now: Time)
    requires AllOk(d)
    ensures AllOk(ApproveDb(d, r, a, now))
  {
    if Approvable(d, r, a) {
      ApprovedKeeps(d, r, a);
      if Activates(d, r, a) {
        ActivateApprovedKeeps(ApprovedDb(d, r, a), a.snapshot, d.reviews[r].exec, now);
      }
    }
  }

  /** Activating an approved snapshot leaves the index in agreement exactly when the
      snapshot comes after every accepted one of its offering, or links the very
      documents that are active. */
  lemma ActivateAgreesIff(d: Db, s: SnapshotId, now: Time)
    requires Inv(d) && IndexAgrees(d)
    requires s in d.snapshots && d.snapshots[s].status.ReviewRequired? && Resolved(d, s)
    ensures IndexAgrees(AcceptDb(ActivateDb(d, s, now), s, now)) <==>
              || Above(AcceptedOf(d), ApprovalOf(d, s, now), s)
              || LinkedBy(d.links, s) == ActiveIn(d, d.snapshots[s].scope)
  {
    var d1 := ActivateDb(d, s, now);
    var d2 := AcceptDb(d1, s, now);
    ActivateKeepsInv(d, s, now);
    assert AcceptedOf(d1) == AcceptedOf(d);
    AcceptKeeps(d1, s, now);
    ActivateMakesTheIndex(d, s, now);
    var a := ApprovalOf(d, s, now);
    var above, set0, active := Above(AcceptedOf(d), a, s), LinkedBy(d.links, s), ActiveIn(d, a.scope);
    forall v ensures v in set0 <==> Link(s, v) in d.links {
      LinkedHas(d.links, s, v);
    }
    forall v ensures v in ActiveDocs(d2) <==> if v.scope == a.scope then v in set0 else v in ActiveDocs(d) {
      assert v in ActiveDocs(d2) <==> v in d.documents && d1.documents[v].active;
    }
    forall v ensures LatestLinks(AcceptedOf(d2), d2.links, v) <==>
                       if v.scope == a.scope && above then v in set0 else v in ActiveDocs(d) {
      LatestAfter(AcceptedOf(d), d.links, s, a, d2.links, v);
      assert v in ActiveDocs(d) <==> LatestLinks(AcceptedOf(d), d.links, v);
    }
    AgreesOnScope(d2, a.scope, set0, active, above, ActiveDocs(d));
  }

  lemma LinkedHas(links: set<Link>, s: SnapshotId, v: Version)
    ensures v in LinkedBy(links, s) <==> Link(s, v) in links
  {
    if v in LinkedBy(links, s) {
      var l :| l in links && l.snapshot == s && l.version == v;
      assert l == Link(s, v);
    }
    assert Link(s, v) in links ==> Link(s, v).version in LinkedBy(links, s);
  }

  lemma AgreesOnScope(d: Db, scope: Scope, linked: set<Version>, active: set<Version>, above: bool,
                                         before: set<Version>)
    requires forall v :: v in ActiveDocs(d) <==> if v.scope == scope then v in linked else v in before
    requires forall v :: LatestLinks(AcceptedOf(d), d.links, v) <==>
               if v.scope == scope && above then v in linked else v in before
    requires forall v :: v in active <==> v.scope == scope && v in before
    requires forall v :: v in linked ==> v.scope == scope
    ensures IndexAgrees(d) <==> above || linked == active
  {
    if IndexAgrees(d) && !above {
      forall v ensures v in linked <==> v in active {
        assert v in ActiveDocs(d) <==> LatestLinks(AcceptedOf(d), d.links, v);
      }
    }
  }

  ghost predicate AgreesWhenActivated(d: Db, s: SnapshotId, now: Time)
    requires Dated(d, s)
  {
    Above(AcceptedOf(d), ApprovalOf(d, s, now), s) || LinkedBy(d.links, s) == ActiveIn(d, d.snapshots[s].scope)
  }

  lemma ActivatedAgreesIff(d: Db, s: SnapshotId, x: ExecId, now: Time)
    requires AllOk(d) && IndexAgrees(d)
    requires s in d.snapshots && d.snapshots[s].status.ReviewRequired? && Resolved(d, s)
    ensures IndexAgrees(ActivateApprovedDb(d, s, x, now)) <==> AgreesWhenActivated(d, s, now)
  {
    var accepted, d1 := AcceptDb(ActivateDb(d, s, now), s, now), ActivateApprovedDb(d, s, x, now);
    assert IndexAgrees(accepted) <==> AgreesWhenActivated(d, s, now) by {
      ActivateAgreesIff(d, s, now);
    }
    assert SameView(accepted, d1) by {
      ActivateApprovedKeeps(d, s, x, now);
    }
    SameViewAgrees(accepted, d1);
  }

  lemma SameCondition(d: Db, d1: Db, s: SnapshotId, now: Time)
    requires Dated(d, s) && SameView(d, d1) && SameSnapshots(d, d1) && d1.links == d.links && d1.runs == d.runs
    ensures AgreesWhenActivated(d1, s, now) <==> AgreesWhenActivated(d, s, now)
  {
    assert ActiveIn(d1, d.snapshots[s].scope) == ActiveIn(d, d.snapshots[s].scope);
  }

  /** When an approval keeps the index in agreement with `get_latest_accepted`: one that
      activates nothing always does; one that activates exactly when its snapshot comes
      after every accepted one, or links the very documents that are active. */
  lemma ApproveAgreesIff(d: Db, r: ReviewId, a: Approval, now: Time)
    requires AllOk(d) && IndexAgrees(d) && Approvable(d, r, a)
    ensures IndexAgrees(ApproveDb(d, r, a, now)) <==> (Activates(d, r, a) ==> AgreesWhenActivated(d, a.snapshot, now))
  {
    var d1 := ApprovedDb(d, r, a);
    ApprovedKeeps(d, r, a);
    SameViewAgrees(d, d1);
    if Activates(d, r, a) {
      ActivatedAgreesIff(d1, a.snapshot, d.reviews[r].exec, now);
      SameCondition(d, d1, a.snapshot, now);
    }
  }

  lemma RejectKeeps(d: Db, r: ReviewId, now: Time)
    requires AllOk(d)
    ensures AllOk(RejectDb(d, r, now)) && SameView(d, RejectDb(d, r, now))
  {
    if Decidable(d, r) {
      var s := d.reviews[r].snapshot;
      var d1 := d.(reviews := RejectedReviews(d.reviews, r));
      assert Inv(d1) && SameView(d, d1) && s !in AcceptedOf(d1);
      DiscardIsDiscardAll(d1, s);
      DiscardLeavesView(d1, {s});
      DiscardKeeps(d1, {s});
      var d2, d3 := DiscardDb(d1, s), RejectDb(d, r, now);
      RejectRows(d2, d3, s);
      MoveExecMoves(d.execs, d.reviews[r].exec, ExecFailed, "review_rejected", now);
      ExecsFrame(d, d3);
      SameViewTwice(d, d1, d2);
      SameViewTwice(d, d2, d3);
    }
  }

  lemma RejectRows(d: Db, d': Db, s: SnapshotId)
    requires Inv(d) && d' == d.(snapshots := d'.snapshots, execs := d'.execs)
    requires d'.snapshots == if s in d.snapshots && d.snapshots[s].status.ReviewRequired?
                             then d.snapshots[s := RejectedRow(d.snapshots[s])] else d.snapshots
    ensures Inv(d') && SameView(d, d') && SameSnapshots(d, d')
  {
    LinksFrame(d, d');
    assert AcceptedOf(d') == AcceptedOf(d);
  }

  lemma RaiseKeeps(d: Db, r: ReviewId, task: ReviewRow, now: Time)
    requires AllOk(d)
    requires task.snapshot in d.snapshots ==> !d.snapshots[task.snapshot].status.Accepted?
    ensures AllOk(RaiseDb(d, r, task, now)) && SameView(d, RaiseDb(d, r, task, now))
  {
    if Raisable(d, r, task) {
      var ids := Replaced(d, task);
      var closing := Reviewed(d, ids) - {task.snapshot};
      DismissKeeps(d, ids, ReviewSuperseded, closing, now);
      var d1 := DismissDb(d, ids, ReviewSuperseded, closing, now);
      ExecsFrame(d, d1);
      AddReviewKeeps(d1, r, task, AcceptedOf(d));
      SameViewTwice(d, d1, RaiseDb(d, r, task, now));
    }
  }

  lemma AddReviewKeeps(d: Db, r: ReviewId, row: ReviewRow, accepted: map<SnapshotId, Acceptance>)
    requires AllOk(d) && row.snapshot in d.snapshots && AcceptedOf(d) == accepted && row.snapshot !in accepted
    ensures AllOk(d.(reviews := d.reviews[r := row])) && SameView(d, d.(reviews := d.reviews[r := row]))
  {
  }

  lemma WithdrawKeeps(d: Db, r: ReviewId, failed: bool, now: Time)
    requires AllOk(d)
    ensures AllOk(WithdrawDb(d, r, failed, now)) && SameView(d, WithdrawDb(d, r, failed, now))
  {
    if Decidable(d, r) {
      DismissKeeps(d, {r}, if failed then ReviewFailed else ReviewSuperseded, {d.reviews[r].snapshot}, now);
      ExecsFrame(d, WithdrawDb(d, r, failed, now));
    }
  }

  // ---- run-queue steps ----------------------------------------------------

  predicate QueueStep(e: Event) {
    !e.IsPublication()
  }

  lemma QueueStepLeaves(d: Db, e: Event)
    requires QueueStep(e)
    ensures Step(d, e) == d.(runs := Step(d, e).runs, execs := Step(d, e).execs)
  {
  }

  lemma QueueKeepsRows(d: Db, d': Db, now: Time)
    requires SnapshotsOk(d) && ReviewsOk(d)
    requires d' == d.(runs := d'.runs, execs := d'.execs) && RunsMove(d.runs, d'.runs, now)
    ensures SnapshotsOk(d') && ReviewsOk(d')
  {
  }

  lemma QueueLeavesView(d: Db, d': Db, now: Time)
    requires SnapshotsOk(d) && d' == d.(runs := d'.runs, execs := d'.execs) && RunsMove(d.runs, d'.runs, now)
    ensures SameView(d, d')
  {
    assert AcceptedOf(d') == AcceptedOf(d);
  }

  lemma QueueFrame(d: Db, d': Db, now: Time)
    requires Inv(d) && d' == d.(runs := d'.runs, execs := d'.execs) && RunsMove(d.runs, d'.runs, now)
    ensures Inv(d') && SameView(d, d') && SameSnapshots(d, d')
  {
    LinksFrame(d, d');
    QueueKeepsRows(d, d', now);
    QueueLeavesView(d, d', now);
  }

  lemma QueueStepKeeps(d: Db, e: Event)
    requires AllOk(d) && QueueStep(e)
    ensures AllOk(Step(d, e)) && SameView(d, Step(d, e))
  {
    var d1 := Step(d, e);
    QueueStepLeaves(d, e);
    StepMovesRuns(d, e);
    StepMovesExecs(d, e);
    QueueFrame(d, d1, e.now);
    if e.CreateExec? {
      CreateKeepsExecs(d, e.exec, e.run, e.product, e.offeringId);
    } else {
      ExecsFrame(d, d1);
    }
  }

  lemma CreateKeepsExecs(d: Db, x: ExecId, run: RunId, product: string, offering: string)
    requires ExecsOk(d)
    ensures ExecsOk(CreateExecDb(d, x, run, product, offering))
  {
    var d1 := CreateExecDb(d, x, run, product, offering);
    if d1 != d {
      forall y, z | y in d1.execs && z in d1.execs && SameWork(d1.execs[y], d1.execs[z]) ensures y == z {
        assert forall w :: w in d.execs ==> w !in ExecsFor(d.execs, run, offering);
      }
    }
  }

  // ---- histories ----------------------------------------------------------

  /** What keeps the invariants: documents carry their snapshot's bank, and reviews are
      raised on snapshots not accepted yet. */
  ghost predicate StepSound(d: Db, e: Event) {
    (e.Publish? ==> e.request.SameBank())
    && (e.Raise? && e.task.snapshot in d.snapshots ==> !d.snapshots[e.task.snapshot].status.Accepted?)
  }

  /** What also keeps the index on the latest snapshot: an accepted publication has
      documents and, like an approval that activates, comes after everything accepted
      before it. */
  ghost predicate StepInOrder(d: Db, e: Event) {
    match e
    case Publish(p, now) =>
      Publishable(d, p) && p.row.status.Accepted? && p.row.run in d.runs ==>
        p.documents != [] && Above(AcceptedOf(d), AcceptanceOf(d, p), p.snapshot)
    case Approve(r, a, now) =>
      Approvable(d, r, a) && Activates(d, r, a) && Dated(d, a.snapshot) ==>
        Above(AcceptedOf(d), ApprovalOf(d, a.snapshot, now), a.snapshot)
    case _ => true
  }

  ghost predicate Sound(d: Db, es: seq<Event>) {
    forall i :: 0 <= i < |es| ==> StepSound(Run(d, es[..i]), es[i])
  }

  ghost predicate InOrder(d: Db, es: seq<Event>) {
    forall i :: 0 <= i < |es| ==> StepInOrder(Run(d, es[..i]), es[i])
  }

  lemma PublishStepKeeps(d: Db, e: Event)
    requires AllOk(d) && StepSound(d, e) && e.Publish?
    ensures AllOk(Step(d, e))
  {
    assert Step(d, e) == PublishDb(d, e.request, e.now);
    PublishKeeps(d, e.request, e.now);
  }

  lemma ApproveStepKeeps(d: Db, e: Event)
    requires AllOk(d) && e.Approve?
    ensures AllOk(Step(d, e))
  {
    assert Step(d, e) == ApproveDb(d, e.review, e.approval, e.now);
    ApproveKeeps(d, e.review, e.approval, e.now);
  }

  lemma RaiseStepKeeps(d: Db, e: Event)
    requires AllOk(d) && StepSound(d, e) && e.Raise?
    ensures AllOk(Step(d, e)) && SameView(d, Step(d, e))
  {
    assert Step(d, e) == RaiseDb(d, e.review, e.task, e.now);
    RaiseKeeps(d, e.review, e.task, e.now);
  }

  lemma RejectStepKeeps(d: Db, e: Event)
    requires AllOk(d) && e.Reject?
    ensures AllOk(Step(d, e)) && SameView(d, Step(d, e))
  {
    assert Step(d, e) == RejectDb(d, e.review, e.now);
    RejectKeeps(d, e.review, e.now);
  }

  lemma WithdrawStep(d: Db, e: Event)
    requires e.Withdraw?
    ensures Step(d, e) == WithdrawDb(d, e.review, e.failed, e.now)
  {
  }

  lemma WithdrawStepKeeps(d: Db, e: Event)
    requires AllOk(d) && e.Withdraw?
    ensures AllOk(Step(d, e)) && SameView(d, Step(d, e))
  {
    WithdrawStep(d, e);
    WithdrawKeeps(d, e.review, e.failed, e.now);
  }

  lemma PublicationStepKeeps(d: Db, e: Event)
    requires AllOk(d) && StepSound(d, e) && e.IsPublication()
    ensures AllOk(Step(d, e))
    ensures !e.Publish? && !e.Approve? ==> SameView(d, Step(d, e))
  {
    if e.Publish? {
      PublishStepKeeps(d, e);
    } else if e.Approve? {
      ApproveStepKeeps(d, e);
    } else if e.Raise? {
      RaiseStepKeeps(d, e);
    } else if e.Reject? {
      RejectStepKeeps(d, e);
    } else {
      WithdrawStepKeeps(d, e);
    }
  }

  lemma StepKeeps(d: Db, e: Event)
    requires AllOk(d) && StepSound(d, e)
    ensures AllOk(Step(d, e))
  {
    if e.IsPublication() {
      PublicationStepKeeps(d, e);
    } else {
      QueueStepKeeps(d, e);
    }
  }

  lemma PublishAgrees(d: Db, p: Request, now: Time)
    requires AllOk(d) && IndexAgrees(d) && p.SameBank() && StepInOrder(d, Event.Publish(p, now))
    ensures IndexAgrees(PublishDb(d, p, now))
  {
    if Publishable(d, p) {
      if p.row.status.Accepted? {
        RunExists(d, p);
        AcceptedAgreesIff(d, p, now);
      } else {
        UnacceptedLeavesView(d, p, now);
        SameViewAgrees(d, PublishDb(d, p, now));
      }
    }
  }

  lemma ApproveAgrees(d: Db, r: ReviewId, a: Approval, now: Time)
    requires AllOk(d) && IndexAgrees(d) && StepInOrder(d, Event.Approve(r, a, now))
    ensures IndexAgrees(ApproveDb(d, r, a, now))
  {
    if Approvable(d, r, a) {
      ApproveAgreesIff(d, r, a, now);
    }
  }

  lemma StepAgrees(d: Db, e: Event)
    requires AllOk(d) && IndexAgrees(d) && StepSound(d, e) && StepInOrder(d, e)
    ensures IndexAgrees(Step(d, e))
  {
    if e.Publish? {
      PublishAgrees(d, e.request, e.now);
    } else if e.Approve? {
      ApproveAgrees(d, e.review, e.approval, e.now);
    } else {
      if e.IsPublication() {
        PublicationStepKeeps(d, e);
      } else {
        QueueStepKeeps(d, e);
      }
      SameViewAgrees(d, Step(d, e));
    }
  }

  lemma SoundBefore(d: Db, es: seq<Event>)
    requires es != [] && Sound(d, es)
    ensures Sound(d, es[..|es| - 1])
  {
    var before := es[..|es| - 1];
    forall i | 0 <= i < |before| ensures StepSound(Run(d, before[..i]), before[i]) {
      assert before[..i] == es[..i];
    }
  }

  lemma InOrderBefore(d: Db, es: seq<Event>)
    requires es != [] && InOrder(d, es)
    ensures InOrder(d, es[..|es| - 1])
  {
    var before := es[..|es| - 1];
    forall i | 0 <= i < |before| ensures StepInOrder(Run(d, before[..i]), before[i]) {
      assert before[..i] == es[..i];
    }
  }

  /** The invariants hold in every history: links join one offering, chunks follow
      their document and are complete, and flags match publication states. */
  lemma {:induction false} InvariantsAlways(es: seq<Event>)
    requires Sound(EMPTY, es)
    ensures AllOk(Run(EMPTY, es))
  {
    if es != [] {
      SoundBefore(EMPTY, es);
      InvariantsAlways(es[..|es| - 1]);
      StepKeeps(Run(EMPTY, es[..|es| - 1]), es[|es| - 1]);
    }
  }

  /** In every history whose accepted snapshots arrive in increasing order and carry
      documents, each offering's active documents are the linked set of its latest
      accepted snapshot, however candidates, approvals, rejections, supersessions and
      run-queue steps are interleaved. */
  lemma {:induction false} IndexIsLatestAccepted(es: seq<Event>)
    requires Sound(EMPTY, es) && InOrder(EMPTY, es)
    ensures IndexAgrees(Run(EMPTY, es))
  {
    if es == [] {
      assert ActiveDocs(EMPTY) == {};
      assert AcceptedOf(EMPTY) == map[];
    } else {
      SoundBefore(EMPTY, es);
      InOrderBefore(EMPTY, es);
      IndexIsLatestAccepted(es[..|es| - 1]);
      InvariantsAlways(es[..|es| - 1]);
      StepAgrees(Run(EMPTY, es[..|es| - 1]), es[|es| - 1]);
    }
  }

  // ---- the same in the tables' columns ------------------------------------

  /** `s` is accepted, and no accepted snapshot of its offering was accepted later. */
  ghost predicate LastAccepted(d: Db, s: SnapshotId) {
    && s in d.snapshots && AcceptedFor(d.snapshots, d.runs, d.snapshots[s].scope, None, s)
    && forall t :: t in d.snapshots && AcceptedFor(d.snapshots, d.runs, d.snapshots[s].scope, None, t) ==>
         NoLater(d.snapshots, d.runs, t, s)
  }

  lemma LatestIsLastAccepted(d: Db, s: SnapshotId)
    ensures IsLatest(AcceptedOf(d), s) <==> LastAccepted(d, s)
  {
    var accepted := AcceptedOf(d);
    if s in accepted {
      CandidatesInColumns(d, accepted[s].scope, None);
      AtLeastInColumns(d, s);
      assert forall t :: t in CandidatesFor(d, accepted[s].scope, None) <==>
                           t in accepted && accepted[t].scope == accepted[s].scope;
    }
  }

  /** Every activation is later than all accepted before it: an accepted publication has
      documents and a later time than any accepted snapshot of its offering, and so has the
      approval that activates one. */
  ghost predicate StepLater(d: Db, e: Event) {
    && (e.Publish? && Publishable(d, e.request) && e.request.row.status.Accepted? ==>
          e.request.documents != [] && AllBefore(d, e.request.row.scope, e.request.row.acceptedAt.value))
    && (e.Approve? && Approvable(d, e.review, e.approval) && Activates(d, e.review, e.approval) ==>
          AllBefore(d, d.snapshots[e.approval.snapshot].scope, e.now))
  }

  /** Every accepted snapshot of the offering was accepted before this time. */
  ghost predicate AllBefore(d: Db, scope: Scope, time: Time) {
    forall t ::
      (t in d.snapshots && d.snapshots[t].status == Accepted && d.snapshots[t].scope == scope
       && d.snapshots[t].acceptedAt.Some?) ==> d.snapshots[t].acceptedAt.value < time
  }

  ghost predicate Later(d: Db, es: seq<Event>) {
    forall i :: 0 <= i < |es| ==> StepLater(Run(d, es[..i]), es[i])
  }

  lemma LaterIsInOrder(d: Db, e: Event)
    requires StepLater(d, e)
    ensures StepInOrder(d, e)
  {
  }

  /** So: when every snapshot of an offering is accepted at a later time than those before
      it, a document is active exactly when the offering's last accepted snapshot links it. */
  lemma {:induction false} ActiveIffLastAcceptedLinks(es: seq<Event>, v: Version)
    requires Sound(EMPTY, es) && Later(EMPTY, es)
    ensures var d := Run(EMPTY, es);
            v in d.documents && d.documents[v].active <==>
            exists s :: s in d.snapshots && LastAccepted(d, s) && Link(s, v) in d.links
  {
    forall i | 0 <= i < |es| ensures StepInOrder(Run(EMPTY, es[..i]), es[i]) {
      LaterIsInOrder(Run(EMPTY, es[..i]), es[i]);
    }
    IndexIsLatestAccepted(es);
    var d := Run(EMPTY, es);
    forall s ensures IsLatest(AcceptedOf(d), s) <==> LastAccepted(d, s) {
      LatestIsLastAccepted(d, s);
    }
    assert v in ActiveDocs(d) <==> LatestLinks(AcceptedOf(d), d.links, v);
  }
}
