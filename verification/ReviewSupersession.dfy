/**
  Superseding the pending reviews a newer snapshot made moot
  (app/repositories/review_supersession.py).
 */
module ReviewSupersession {
  import opened Wrappers
  import opened Schema
  import opened Tables
  import opened KnowledgePublication

  /** The snapshot and its run are both there, as the join needs. */
  predicate Dated(d: Db, s: SnapshotId) {
    s in d.snapshots && d.snapshots[s].run in d.runs
  }

  /** `(older.created_at, older_run.queued_at) < (current.created_at, run.queued_at)`,
      for two snapshots of one offering. */
  predicate StrictlyOlder(d: Db, older: SnapshotId, current: SnapshotId) {
    Dated(d, older) && Dated(d, current)
    && d.snapshots[older].scope == d.snapshots[current].scope
    && (d.snapshots[older].createdAt < d.snapshots[current].createdAt
        || (d.snapshots[older].createdAt == d.snapshots[current].createdAt
            && d.runs[d.snapshots[older].run].queuedAt < d.runs[d.snapshots[current].run].queuedAt))
  }

  // ---- superseding --------------------------------------------------------

  /** The pending reviews of the offering's strictly older snapshots. */
  function Moot(d: Db, s: SnapshotId): set<ReviewId> {
    set r | r in d.reviews && d.reviews[r].status.ReviewPending? && StrictlyOlder(d, d.reviews[r].snapshot, s)
  }

  function Settle(reviews: map<ReviewId, ReviewRow>, ids: set<ReviewId>, end: ReviewStatus)
    : (r: map<ReviewId, ReviewRow>)
    ensures r.Keys == reviews.Keys
  {
    map r | r in reviews :: if r in ids then reviews[r].(status := end) else reviews[r]
  }

  function Reviewed(d: Db, ids: set<ReviewId>): set<SnapshotId> {
    set r | r in ids && r in d.reviews :: d.reviews[r].snapshot
  }

  /** A snapshot still review_required without a pending review can never be activated. */
  predicate Unreviewable(d: Db, s: SnapshotId) {
    s in d.snapshots && d.snapshots[s].status.ReviewRequired?
    && forall r :: r in d.reviews && d.reviews[r].snapshot == s ==> !d.reviews[r].status.ReviewPending?
  }

  function RejectedRow(row: SnapshotRow): SnapshotRow {
    row.(status := Rejected, acceptedAt := None)
  }

  function ClosedExec(row: ExecRow, stage: string, now: Time): ExecRow {
    row.(status := ExecFailed, stage := Some(stage),
         completedAt := if row.completedAt.Some? then row.completedAt else Some(now))
  }

  const REVIEW_SUPERSEDED := "review_superseded"

  /** Closes the snapshot, and its execution when that still waits for the review. */
  function CloseOneDb(d: Db, s: SnapshotId, now: Time): Db {
    if !Unreviewable(d, s) then d
    else
      var x := d.snapshots[s].exec;
      d.(snapshots := d.snapshots[s := RejectedRow(d.snapshots[s])],
         execs := if x in d.execs && d.execs[x].status.ExecCandidateReview?
                  then d.execs[x := ClosedExec(d.execs[x], REVIEW_SUPERSEDED, now)] else d.execs)
  }

  function ToClose(d: Db, snapshots: set<SnapshotId>): set<SnapshotId> {
    set s | s in snapshots && Unreviewable(d, s)
  }

  function CloseSnapshots(rows: map<SnapshotId, SnapshotRow>, closed: set<SnapshotId>)
    : (r: map<SnapshotId, SnapshotRow>)
    ensures r.Keys == rows.Keys
  {
    map s | s in rows :: if s in closed then RejectedRow(rows[s]) else rows[s]
  }

  function ExecsOf(rows: map<SnapshotId, SnapshotRow>, closed: set<SnapshotId>): set<ExecId> {
    set s | s in closed && s in rows :: rows[s].exec
  }

  function CloseExecs(execs: map<ExecId, ExecRow>, of: set<ExecId>, now: Time): (r: map<ExecId, ExecRow>)
    ensures r.Keys == execs.Keys
  {
    map x | x in execs ::
      if x in of && execs[x].status.ExecCandidateReview? then ClosedExec(execs[x], REVIEW_SUPERSEDED, now) else execs[x]
  }

  function CloseAllDb(d: Db, snapshots: set<SnapshotId>, now: Time): Db {
    var closed := ToClose(d, snapshots);
    d.(snapshots := CloseSnapshots(d.snapshots, closed),
       execs := CloseExecs(d.execs, ExecsOf(d.snapshots, closed), now))
  }

  /** Closing one by one is closing the collection. */
  lemma {:induction false} CloseOneMore(d: Db, done: set<SnapshotId>, s: SnapshotId, now: Time)
    ensures CloseOneDb(CloseAllDb(d, done, now), s, now) == CloseAllDb(d, done + {s}, now)
  {
    var closed := ToClose(d, done);
    var d1 := CloseAllDb(d, done, now);
    if Unreviewable(d, s) && s !in closed {
      assert ToClose(d, done + {s}) == closed + {s};
      assert d1.snapshots[s] == d.snapshots[s];
      assert Unreviewable(d1, s);
      CloseSnapshotsStep(d.snapshots, closed, s);
      CloseExecsStep(d.snapshots, d.execs, closed, s, now);
    } else {
      assert ToClose(d, done + {s}) == closed;
      assert !Unreviewable(d1, s);
    }
  }

  lemma CloseSnapshotsStep(rows: map<SnapshotId, SnapshotRow>, closed: set<SnapshotId>, s: SnapshotId)
    requires s in rows && s !in closed
    ensures CloseSnapshots(rows, closed + {s}) == CloseSnapshots(rows, closed)[s := RejectedRow(rows[s])]
  {
  }

  lemma CloseExecsStep(rows: map<SnapshotId, SnapshotRow>, execs: map<ExecId, ExecRow>,
                                          closed: set<SnapshotId>, s: SnapshotId, now: Time)
    requires s in rows
    ensures var x, before := rows[s].exec, CloseExecs(execs, ExecsOf(rows, closed), now);
            CloseExecs(execs, ExecsOf(rows, closed + {s}), now)
            == if x in before && before[x].status.ExecCandidateReview?
               then before[x := ClosedExec(before[x], REVIEW_SUPERSEDED, now)] else before
  {
    assert ExecsOf(rows, closed + {s}) == ExecsOf(rows, closed) + {rows[s].exec};
  }

  lemma CloseNone(d: Db, now: Time)
    ensures CloseAllDb(d, {}, now) == d
  {
    assert ToClose(d, {}) == {};
    assert CloseSnapshots(d.snapshots, {}) == d.snapshots;
    assert ExecsOf(d.snapshots, {}) == {};
    assert CloseExecs(d.execs, {}, now) == d.execs;
  }

  /** Closing, snapshot by snapshot: a listed one under review with no pending review is
      rejected, and its execution, if it waits for the review, failed. */
  lemma ClosedSnapshot(d: Db, snapshots: set<SnapshotId>, now: Time, s: SnapshotId)
    requires s in d.snapshots
    ensures var d1, row := CloseAllDb(d, snapshots, now), d.snapshots[s];
            var close := s in snapshots && row.status == ReviewRequired
                         && forall r :: r in d.reviews && d.reviews[r].snapshot == s ==>
                              d.reviews[r].status != ReviewPending;
            && s in d1.snapshots
            && d1.snapshots[s] == (if close then row.(status := Rejected, acceptedAt := None) else row)
            && (close && row.exec in d.execs && d.execs[row.exec].status == ExecCandidateReview ==>
                  row.exec in d1.execs && d1.execs[row.exec] ==
                    d.execs[row.exec].(status := ExecFailed, stage := Some("review_superseded"),
                                       completedAt := if d.execs[row.exec].completedAt.Some?
                                                      then d.execs[row.exec].completedAt else Some(now)))
            && (row.exec in d.execs && d.execs[row.exec].status != ExecCandidateReview ==>
                  row.exec in d1.execs && d1.execs[row.exec] == d.execs[row.exec])
  {
    if s in ToClose(d, snapshots) {
      assert d.snapshots[s].exec in ExecsOf(d.snapshots, ToClose(d, snapshots));
    }
  }

  /** The two updates for one snapshot. */
  method CloseIfUnreviewable(db: Database, s: SnapshotId, now: Time)
    modifies db
    ensures db.View() == CloseOneDb(old(db.View()), s, now)
  {
    if Unreviewable(db.View(), s) {
      var x := db.snapshots[s].exec;
      db.snapshots := db.snapshots[s := RejectedRow(db.snapshots[s])];
      if x in db.execs && db.execs[x].status.ExecCandidateReview? {
        db.execs := db.execs[x := ClosedExec(db.execs[x], REVIEW_SUPERSEDED, now)];
      }
    }
  }

  method CloseUnreviewableSnapshots(db: Database, snapshots: set<SnapshotId>, now: Time)
    modifies db
    ensures db.View() == CloseAllDb(old(db.View()), snapshots, now)
  {
    ghost var before := db.View();
    var rest := snapshots;
    CloseNone(before, now);
    while rest != {}
      invariant rest <= snapshots
      invariant db.View() == CloseAllDb(before, snapshots - rest, now)
      decreases |rest|
    {
      var s :| s in rest;
      CloseOneMore(before, snapshots - rest, s, now);
      assert snapshots - (rest - {s}) == (snapshots - rest) + {s};
      CloseIfUnreviewable(db, s, now);
      rest := rest - {s};
    }
    assert snapshots - rest == snapshots;
  }

  /** The reviews end as given, their snapshots' never-published versions are discarded,
      and those of the `closing` snapshots closed that nobody can review any more. */
  function DismissDb(d: Db, ids: set<ReviewId>, end: ReviewStatus, closing: set<SnapshotId>, now: Time): Db {
    CloseAllDb(DiscardAllDb(d.(reviews := Settle(d.reviews, ids, end)), Reviewed(d, ids)), closing, now)
  }

  method SettleReviews(db: Database, ids: set<ReviewId>, end: ReviewStatus)
    modifies db`reviews
    ensures db.reviews == Settle(old(db.reviews), ids, end)
  {
    var settling := set r | r in db.reviews && r in ids;
    db.reviews := UpdateWhere(db.reviews, settling, (row: ReviewRow) => row.(status := end));
  }

  method DiscardEachSnapshot(db: Database, snapshots: set<SnapshotId>)
    modifies db
    ensures db.View() == DiscardAllDb(old(db.View()), snapshots)
  {
    ghost var before := db.View();
    var rest := snapshots;
    DiscardNone(before);
    while rest != {}
      invariant rest <= snapshots
      invariant db.View() == DiscardAllDb(before, snapshots - rest)
      decreases |rest|
    {
      var s :| s in rest;
      DiscardOneMore(before, snapshots - rest, s);
      assert snapshots - (rest - {s}) == (snapshots - rest) + {s};
      var _ := DiscardSnapshotDocuments(db, s);
      rest := rest - {s};
    }
    assert snapshots - rest == snapshots;
  }

  method DismissReviews(db: Database, ids: set<ReviewId>, end: ReviewStatus, closing: set<SnapshotId>, now: Time)
    modifies db
    ensures db.View() == DismissDb(old(db.View()), ids, end, closing, now)
  {
    var older := Reviewed(db.View(), ids);
    SettleReviews(db, ids, end);
    DiscardEachSnapshot(db, older);
    CloseUnreviewableSnapshots(db, closing, now);
  }

  function SupersedeDb(d: Db, s: SnapshotId, now: Time): Db {
    DismissDb(d, Moot(d, s), ReviewSuperseded, Reviewed(d, Moot(d, s)), now)
  }

  method SupersedeReviewsOlderThan(db: Database, s: SnapshotId, now: Time) returns (ids: set<ReviewId>)
    modifies db
    ensures db.View() == SupersedeDb(old(db.View()), s, now)
    ensures ids == Moot(old(db.View()), s)
    ensures forall r :: r in ids ==> r in old(db.reviews) && old(db.reviews)[r].status == ReviewPending
    ensures forall r :: r in old(db.reviews) && old(db.reviews)[r].status == ReviewPending ==>
              var snapshots, runs, t := old(db.snapshots), old(db.runs), old(db.reviews)[r].snapshot;
              r in ids <==>
                && s in snapshots && t in snapshots && snapshots[s].run in runs && snapshots[t].run in runs
                && snapshots[t].scope == snapshots[s].scope && snapshots[t].createdAt <= snapshots[s].createdAt
                && (snapshots[t].createdAt == snapshots[s].createdAt ==>
                      runs[snapshots[t].run].queuedAt < runs[snapshots[s].run].queuedAt)
  {
    ids := Moot(db.View(), s);
    DismissReviews(db, ids, ReviewSuperseded, Reviewed(db.View(), ids), now);
  }

  // ---- the approval guard -------------------------------------------------

  predicate NewerAccepted(d: Db, s: SnapshotId, newer: SnapshotId) {
    newer in d.snapshots && d.snapshots[newer].status.Accepted? && StrictlyOlder(d, s, newer)
  }

  function NewerAcceptedSnapshotExists(d: Db, s: SnapshotId): bool {
    exists newer :: newer in d.snapshots && NewerAccepted(d, s, newer)
  }
}
