/**
  What an execution's status says of its snapshot, over whole histories: an offering's
  result is recorded twice, in tariff_snapshots and in offering_executions, and every
  publication, decision and closing updates both.
 */
module ExecutionHistory {
  import opened Wrappers
  import opened Schema
  import opened OwnerPattern
  import opened RunQueue
  import opened KnowledgePublication
  import opened ReviewSupersession
  import opened Publication
  import opened IndexInvariants
  import opened History
  import opened IndexHistory

  // ---- one publication ----------------------------------------------------

  /** A publication leaves its execution succeeded, waiting for review or failed as its
      snapshot is accepted, a candidate or under review, or rejected. */
  lemma PublishedExecution(d: Db, p: Request, now: Time)
    requires Publishable(d, p)
    ensures p.exec in PublishDb(d, p, now).execs
    ensures var x := PublishDb(d, p, now).execs[p.exec];
            && (x.status == ExecSucceeded <==> p.row.status == Accepted)
            && (x.status == ExecCandidateReview <==> p.row.status == Candidate || p.row.status == ReviewRequired)
            && (x.status == ExecFailed <==> p.row.status == Rejected)
            && x.completedAt == Some(now) && x.stage == Some("published")
  {
    PublishMovesExecs(d, p, now);
    IndexingLeaves(d, p, now);
  }

  /** It stores its snapshot as given, linking exactly its documents. */
  lemma PublishedSnapshot(d: Db, p: Request, now: Time)
    requires AllOk(d) && Publishable(d, p) && p.SameBank()
    ensures var d1 := PublishDb(d, p, now);
            && p.snapshot !in d.snapshots && p.snapshot in d1.snapshots && d1.snapshots[p.snapshot] == p.row
            && forall v :: Link(p.snapshot, v) in d1.links <==>
                 exists k :: 0 <= k < |p.documents| && p.documents[k].version == v
  {
    var i := IndexedDb(d, p, now);
    IndexKeeps(d, p, now);
    SupersedeLinks(i, p.snapshot, now);
    LinksMove(d, p);
  }

  lemma SupersedeLinks(d: Db, s: SnapshotId, now: Time)
    requires s in d.snapshots
    ensures var d1 := SupersedeDb(d, s, now);
            && s in d1.snapshots && d1.snapshots[s] == d.snapshots[s]
            && forall v :: Link(s, v) in d1.links <==> Link(s, v) in d.links
  {
    var ids := Moot(d, s);
    assert s !in Reviewed(d, ids);
  }

  // ---- the invariant ------------------------------------------------------

  /** An execution is as its snapshot's status says; one of a mere candidate may have
      failed with a rejected review. */
  predicate Tells(status: SnapshotStatus, x: ExecStatus) {
    match status
    case Accepted => x == ExecSucceeded
    case ReviewRequired => x == ExecCandidateReview
    case Candidate => x == ExecCandidateReview || x == ExecFailed
    case Rejected => x == ExecFailed
  }

  /** True of every snapshot but those whose transaction is under way. */
  ghost predicate TellBut(d: Db, but: set<SnapshotId>) {
    forall s :: s in d.snapshots && s !in but ==>
      d.snapshots[s].exec in d.execs && Tells(d.snapshots[s].status, d.execs[d.snapshots[s].exec].status)
  }

  /** No two snapshots share an execution. */
  ghost predicate OwnExecs(snapshots: map<SnapshotId, SnapshotRow>) {
    forall s, t :: s in snapshots && t in snapshots && snapshots[s].exec == snapshots[t].exec ==> s == t
  }

  /** A review names its snapshot's own execution. */
  ghost predicate OwnReviews(d: Db) {
    forall r :: r in d.reviews ==>
      d.reviews[r].snapshot in d.snapshots && d.reviews[r].exec == d.snapshots[d.reviews[r].snapshot].exec
  }

  ghost predicate Told(d: Db) {
    TellBut(d, {}) && OwnExecs(d.snapshots) && OwnReviews(d)
  }

  /** Nothing checks that a review is raised with its snapshot's execution; the pipeline
      does so. */
  ghost predicate RaisesOwn(d: Db, e: Event) {
    e.Raise? && e.task.snapshot in d.snapshots ==> e.task.exec == d.snapshots[e.task.snapshot].exec
  }

  ghost predicate AllRaiseOwn(es: seq<Event>) {
    forall i :: 0 <= i < |es| ==> RaisesOwn(Run(EMPTY, es[..i]), es[i])
  }

  // ---- closing ------------------------------------------------------------

  /** Reviews keep their place whatever becomes of their status. */
  ghost predicate SamePlaces(d: Db, d': Db) {
    d'.reviews.Keys == d.reviews.Keys
    && forall r :: r in d.reviews ==>
         d'.reviews[r].snapshot == d.reviews[r].snapshot && d'.reviews[r].exec == d.reviews[r].exec
  }

  lemma PlacesKept(d: Db, d': Db)
    requires OwnExecs(d.snapshots) && OwnReviews(d) && SameSnapshots(d, d') && SamePlaces(d, d')
    ensures OwnExecs(d'.snapshots) && OwnReviews(d')
  {
  }

  /** What is not closed keeps its row and its own execution's. */
  lemma CloseLeaves(d: Db, snapshots: set<SnapshotId>, now: Time, s: SnapshotId)
    requires OwnExecs(d.snapshots) && s in d.snapshots && s !in ToClose(d, snapshots)
    ensures var d1, x := CloseAllDb(d, snapshots, now), d.snapshots[s].exec;
            d1.snapshots[s] == d.snapshots[s] && (x in d.execs ==> d1.execs[x] == d.execs[x])
  {
    var closed := ToClose(d, snapshots);
    assert forall t :: t in closed && t in d.snapshots ==> d.snapshots[t].exec != d.snapshots[s].exec;
    assert d.snapshots[s].exec !in ExecsOf(d.snapshots, closed);
  }

  /** Closing rejects a snapshot and fails its own execution, and no other's. */
  lemma CloseTells(d: Db, snapshots: set<SnapshotId>, now: Time, but: set<SnapshotId>)
    requires TellBut(d, but) && OwnExecs(d.snapshots)
    ensures TellBut(CloseAllDb(d, snapshots, now), but)
  {
    var d1, closed := CloseAllDb(d, snapshots, now), ToClose(d, snapshots);
    forall s | s in d1.snapshots && s !in but
      ensures d1.snapshots[s].exec in d1.execs
      ensures Tells(d1.snapshots[s].status, d1.execs[d1.snapshots[s].exec].status)
    {
      if s in closed {
        assert d.snapshots[s].exec in ExecsOf(d.snapshots, closed);
      } else {
        CloseLeaves(d, snapshots, now, s);
      }
    }
  }

  lemma DismissTells(d: Db, ids: set<ReviewId>, end: ReviewStatus, closing: set<SnapshotId>, now: Time,
                     but: set<SnapshotId>)
    requires TellBut(d, but) && OwnExecs(d.snapshots)
    ensures TellBut(DismissDb(d, ids, end, closing, now), but)
  {
    CloseTells(DiscardAllDb(d.(reviews := Settle(d.reviews, ids, end)), Reviewed(d, ids)), closing, now, but);
  }

  lemma DismissPlaces(d: Db, ids: set<ReviewId>, end: ReviewStatus, closing: set<SnapshotId>, now: Time)
    ensures SameSnapshots(d, DismissDb(d, ids, end, closing, now))
    ensures SamePlaces(d, DismissDb(d, ids, end, closing, now))
  {
    CloseChanges(DiscardAllDb(d.(reviews := Settle(d.reviews, ids, end)), Reviewed(d, ids)), closing, now);
  }

  lemma DismissTold(d: Db, ids: set<ReviewId>, end: ReviewStatus, closing: set<SnapshotId>, now: Time)
    requires Told(d)
    ensures Told(DismissDb(d, ids, end, closing, now))
  {
    DismissTells(d, ids, end, closing, now, {});
    DismissPlaces(d, ids, end, closing, now);
    PlacesKept(d, DismissDb(d, ids, end, closing, now));
  }

  /** A snapshot is not older than itself, so superseding leaves it and its execution. */
  lemma SupersedeLeaves(d: Db, s: SnapshotId, now: Time)
    requires OwnExecs(d.snapshots) && s in d.snapshots && d.snapshots[s].exec in d.execs
    ensures var d1, x := SupersedeDb(d, s, now), d.snapshots[s].exec;
            s in d1.snapshots && d1.snapshots[s] == d.snapshots[s] && x in d1.execs && d1.execs[x] == d.execs[x]
  {
    var ids := Moot(d, s);
    var d1 := DiscardAllDb(d.(reviews := Settle(d.reviews, ids, ReviewSuperseded)), Reviewed(d, ids));
    assert s !in Reviewed(d, ids);
    CloseLeaves(d1, Reviewed(d, ids), now, s);
  }

  // ---- steps --------------------------------------------------------------

  /** Completing the one execution that is under way. */
  lemma PointTells(d: Db, d': Db, s: SnapshotId)
    requires TellBut(d, {s}) && OwnExecs(d.snapshots) && s in d.snapshots && SameSnapshots(d, d')
    requires d.snapshots[s].exec in d.execs
    requires d'.execs.Keys == d.execs.Keys && Tells(d'.snapshots[s].status, d'.execs[d.snapshots[s].exec].status)
    requires forall t :: t in d.snapshots && t != s ==> d'.snapshots[t].status == d.snapshots[t].status
    requires forall x :: x in d.execs && x != d.snapshots[s].exec ==> d'.execs[x] == d.execs[x]
    ensures TellBut(d', {})
  {
  }

  lemma InsertTells(d: Db, i: Db, p: Request)
    requires Told(d) && AllOk(d) && p.snapshot !in d.snapshots && p.row.exec == p.exec
    requires p.exec in d.execs && d.execs[p.exec].status.IsOpen()
    requires i.snapshots == d.snapshots[p.snapshot := p.row] && i.reviews == d.reviews && i.execs == d.execs
    ensures OwnExecs(i.snapshots) && OwnReviews(i) && TellBut(i, {p.snapshot})
  {
    assert forall s :: s in d.snapshots ==> d.snapshots[s].exec != p.exec;
  }

  lemma PublishTold(d: Db, p: Request, now: Time)
    requires AllOk(d) && Told(d) && p.SameBank()
    ensures Told(PublishDb(d, p, now))
  {
    if Publishable(d, p) {
      var i := IndexedDb(d, p, now);
      IndexKeeps(d, p, now);
      IndexingLeaves(d, p, now);
      InsertTells(d, i, p);
      SupersededTold(i, p.snapshot, now);
      CompletedTold(SupersedeDb(i, p.snapshot, now), p, now);
    }
  }

  lemma SupersededTold(i: Db, s: SnapshotId, now: Time)
    requires OwnExecs(i.snapshots) && OwnReviews(i) && TellBut(i, {s})
    requires s in i.snapshots && i.snapshots[s].exec in i.execs
    ensures var d1 := SupersedeDb(i, s, now);
            && OwnExecs(d1.snapshots) && OwnReviews(d1) && TellBut(d1, {s})
            && s in d1.snapshots && d1.snapshots[s] == i.snapshots[s]
            && i.snapshots[s].exec in d1.execs && d1.execs[i.snapshots[s].exec] == i.execs[i.snapshots[s].exec]
  {
    var ids := Moot(i, s);
    DismissTells(i, ids, ReviewSuperseded, Reviewed(i, ids), now, {s});
    DismissPlaces(i, ids, ReviewSuperseded, Reviewed(i, ids), now);
    PlacesKept(i, SupersedeDb(i, s, now));
    SupersedeLeaves(i, s, now);
  }

  lemma CompletedTold(d: Db, p: Request, now: Time)
    requires OwnExecs(d.snapshots) && OwnReviews(d) && TellBut(d, {p.snapshot})
    requires p.snapshot in d.snapshots && d.snapshots[p.snapshot] == p.row && p.row.exec == p.exec && p.exec in d.execs
    ensures Told(CompletedDb(d, p.exec, PublicationStatus(p.row.status), now))
  {
    PointTells(d, CompletedDb(d, p.exec, PublicationStatus(p.row.status), now), p.snapshot);
  }

  lemma ApprovedTold(d: Db, r: ReviewId, a: Approval)
    requires Told(d) && ApprovalFits(d, r, a)
    ensures Told(ApprovedDb(d, r, a))
  {
  }

  lemma AcceptedTold(d: Db, d': Db, s: SnapshotId)
    requires Told(d) && s in d.snapshots && SameSnapshots(d, d') && SamePlaces(d, d') && d'.execs == d.execs
    requires forall t :: t in d.snapshots && t != s ==> d'.snapshots[t] == d.snapshots[t]
    ensures TellBut(d', {s}) && OwnExecs(d'.snapshots) && OwnReviews(d')
  {
    PlacesKept(d, d');
  }

  lemma AcceptingLeaves(d: Db, s: SnapshotId, now: Time)
    requires s in d.snapshots && d.snapshots[s].status.ReviewRequired?
    ensures var d2 := AcceptDb(ActivateDb(d, s, now), s, now);
            && SameSnapshots(d, d2) && SamePlaces(d, d2) && d2.execs == d.execs && d2.snapshots[s].status.Accepted?
            && forall t :: t in d.snapshots && t != s ==> d2.snapshots[t] == d.snapshots[t]
  {
    ActivatingLeaves(d, s, now);
  }

  lemma ActivatedTold(d: Db, s: SnapshotId, x: ExecId, now: Time)
    requires Told(d) && s in d.snapshots && d.snapshots[s].status.ReviewRequired? && x == d.snapshots[s].exec
    ensures Told(ActivateApprovedDb(d, s, x, now))
  {
    var d2 := AcceptDb(ActivateDb(d, s, now), s, now);
    AcceptingLeaves(d, s, now);
    AcceptedTold(d, d2, s);
    SupersededTold(d2, s, now);
    MovedTold(SupersedeDb(d2, s, now), s, now);
  }

  lemma MovedTold(d: Db, s: SnapshotId, now: Time)
    requires OwnExecs(d.snapshots) && OwnReviews(d) && TellBut(d, {s}) && s in d.snapshots
    requires d.snapshots[s].status.Accepted?
    requires d.snapshots[s].exec in d.execs && d.execs[d.snapshots[s].exec].status.ExecCandidateReview?
    ensures Told(d.(execs := MoveExec(d.execs, d.snapshots[s].exec, ExecSucceeded, "review_approved", now)))
  {
    PointTells(d, d.(execs := MoveExec(d.execs, d.snapshots[s].exec, ExecSucceeded, "review_approved", now)), s);
  }

  lemma ApproveTold(d: Db, r: ReviewId, a: Approval, now: Time)
    requires Told(d)
    ensures Told(ApproveDb(d, r, a, now))
  {
    if Approvable(d, r, a) {
      ApprovedTold(d, r, a);
      if Activates(d, r, a) {
        ActivatedTold(ApprovedDb(d, r, a), a.snapshot, d.reviews[r].exec, now);
      }
    }
  }

  /** A rejected review's snapshot and the tables otherwise. */
  ghost predicate RejectsOnly(d: Db, d': Db, s: SnapshotId, x: ExecId, now: Time) {
    && s in d.snapshots && d'.snapshots.Keys == d.snapshots.Keys
    && (forall t :: t in d.snapshots && t != s ==> d'.snapshots[t] == d.snapshots[t])
    && d'.snapshots[s] == (if d.snapshots[s].status.ReviewRequired? then RejectedRow(d.snapshots[s])
                           else d.snapshots[s])
    && d'.execs == MoveExec(d.execs, x, ExecFailed, "review_rejected", now)
  }

  lemma RejectsThem(d: Db, r: ReviewId, now: Time)
    requires Decidable(d, r) && d.reviews[r].snapshot in d.snapshots
    ensures SamePlaces(d, RejectDb(d, r, now))
    ensures RejectsOnly(d, RejectDb(d, r, now), d.reviews[r].snapshot, d.reviews[r].exec, now)
  {
  }

  lemma RejectsTold(d: Db, d': Db, s: SnapshotId, now: Time)
    requires Told(d) && s in d.snapshots && d.snapshots[s].status != Accepted && SamePlaces(d, d')
    requires RejectsOnly(d, d', s, d.snapshots[s].exec, now)
    ensures Told(d')
  {
    PlacesKept(d, d');
    PointTells(d, d', s);
  }

  lemma RejectTold(d: Db, r: ReviewId, now: Time)
    requires Told(d) && ReviewsOk(d)
    ensures Told(RejectDb(d, r, now))
  {
    if Decidable(d, r) {
      RejectsThem(d, r, now);
      RejectsTold(d, RejectDb(d, r, now), d.reviews[r].snapshot, now);
    }
  }

  lemma WithdrawTold(d: Db, r: ReviewId, failed: bool, now: Time)
    requires Told(d)
    ensures Told(WithdrawDb(d, r, failed, now))
  {
    if Decidable(d, r) {
      DismissTold(d, {r}, if failed then ReviewFailed else ReviewSuperseded, {d.reviews[r].snapshot}, now);
    }
  }

  lemma AddReviewTold(d: Db, r: ReviewId, task: ReviewRow)
    requires Told(d) && task.snapshot in d.snapshots && task.exec == d.snapshots[task.snapshot].exec
    ensures Told(d.(reviews := d.reviews[r := task]))
  {
  }

  lemma RaiseTold(d: Db, r: ReviewId, task: ReviewRow, now: Time)
    requires Told(d) && (task.snapshot in d.snapshots ==> task.exec == d.snapshots[task.snapshot].exec)
    ensures Told(RaiseDb(d, r, task, now))
  {
    if Raisable(d, r, task) {
      var ids := Replaced(d, task);
      var closing := Reviewed(d, ids) - {task.snapshot};
      DismissTold(d, ids, ReviewSuperseded, closing, now);
      DismissPlaces(d, ids, ReviewSuperseded, closing, now);
      AddReviewTold(DismissDb(d, ids, ReviewSuperseded, closing, now), r, task);
    }
  }

  /** The run queue's steps only touch open executions. */
  ghost predicate ClosedStay(execs: map<ExecId, ExecRow>, execs': map<ExecId, ExecRow>) {
    forall x :: x in execs && !execs[x].status.IsOpen() ==> x in execs' && execs'[x].status == execs[x].status
  }

  lemma FailOpenStay(execs: map<ExecId, ExecRow>, ids: set<RunId>, code: string, now: Time)
    ensures ClosedStay(execs, FailOpenExecs(execs, ids, code, now))
  {
  }

  lemma CancelStays(d: Db, id: RunId, requester: string, staleBefore: Option<Time>, now: Time)
    ensures ClosedStay(d.execs, CancelDb(d, id, requester, staleBefore, now).execs)
  {
    CancelExecs(d, id, requester, staleBefore, now);
    FailOpenStay(d.execs, {id}, CANCELLED, now);
  }

  lemma CreateStays(d: Db, x: ExecId, run: RunId, product: string, offering: string)
    ensures ClosedStay(d.execs, CreateExecDb(d, x, run, product, offering).execs)
  {
  }

  lemma StartStays(d: Db, x: ExecId, stage: string, now: Time)
    ensures ClosedStay(d.execs, StartExecDb(d, x, stage, now).execs)
  {
  }

  lemma FailStays(d: Db, x: ExecId, stage: string, code: string, now: Time)
    ensures ClosedStay(d.execs, FailExecDb(d, x, stage, code, now).execs)
  {
  }

  lemma QueueStays(d: Db, e: Event)
    requires QueueStep(e)
    ensures ClosedStay(d.execs, Step(d, e).execs)
  {
    if e.Cancel? {
      CancelStays(d, e.id, e.requester, e.staleBefore, e.now);
    } else if e.Recover? {
      FailOpenStay(d.execs, Stale(d.runs, e.before, e.locked), ABANDONED, e.now);
    } else if e.Interrupt? {
      FailOpenStay(d.execs, OwnedLike(d.runs, PrefixPattern(e.prefix), e.claimedBefore, e.locked), INTERRUPTED, e.now);
    } else if e.CreateExec? {
      CreateStays(d, e.exec, e.run, e.product, e.offeringId);
    } else if e.StartExec? {
      StartStays(d, e.exec, e.stage, e.now);
    } else if e.FailExec? {
      FailStays(d, e.exec, e.stage, e.code, e.now);
    }
  }

  lemma StayTold(d: Db, d': Db)
    requires Told(d) && d'.snapshots == d.snapshots && d'.reviews == d.reviews && ClosedStay(d.execs, d'.execs)
    ensures Told(d')
  {
  }

  lemma StepTold(d: Db, e: Event)
    requires AllOk(d) && StepSound(d, e) && RaisesOwn(d, e) && Told(d)
    ensures Told(Step(d, e))
  {
    if e.Publish? {
      PublishTold(d, e.request, e.now);
    } else if e.Raise? {
      RaiseTold(d, e.review, e.task, e.now);
    } else if e.Approve? {
      ApproveTold(d, e.review, e.approval, e.now);
    } else if e.Reject? {
      RejectTold(d, e.review, e.now);
    } else if e.Withdraw? {
      WithdrawTold(d, e.review, e.failed, e.now);
    } else {
      QueueStays(d, e);
      QueueStepLeaves(d, e);
      StayTold(d, Step(d, e));
    }
  }

  lemma {:induction false} ToldAlways(es: seq<Event>)
    requires Sound(EMPTY, es) && AllRaiseOwn(es)
    ensures Told(Run(EMPTY, es))
  {
    if es != [] {
      var before := es[..|es| - 1];
      SoundBefore(EMPTY, es);
      forall i | 0 <= i < |before| ensures RaisesOwn(Run(EMPTY, before[..i]), before[i]) {
        assert before[..i] == es[..i];
      }
      ToldAlways(before);
      InvariantsAlways(before);
      StepTold(Run(EMPTY, before), es[|es| - 1]);
    }
  }

  /** In every history a snapshot that is accepted has an execution that succeeded, one
      under review has one that waits, and a rejected one has one that failed. */
  lemma {:induction false} ExecutionTellsSnapshot(es: seq<Event>, s: SnapshotId)
    requires Sound(EMPTY, es) && AllRaiseOwn(es) && s in Run(EMPTY, es).snapshots
    ensures var d := Run(EMPTY, es);
            var row := d.snapshots[s];
            && row.exec in d.execs
            && (row.status == Accepted ==> d.execs[row.exec].status == ExecSucceeded)
            && (row.status == ReviewRequired ==> d.execs[row.exec].status == ExecCandidateReview)
            && (row.status == Rejected ==> d.execs[row.exec].status == ExecFailed)
            && forall t :: t in d.snapshots && d.snapshots[t].exec == row.exec ==> t == s
  {
    ToldAlways(es);
  }

  /** And the premise counts: an approval that activates leaves its snapshot's execution
      succeeded exactly when the review names that execution. */
  lemma ApprovalSucceedsIff(d: Db, r: ReviewId, a: Approval, now: Time)
    requires Approvable(d, r, a) && Activates(d, r, a) && OwnExecs(d.snapshots)
    requires var x := d.snapshots[a.snapshot].exec; x in d.execs && d.execs[x].status.ExecCandidateReview?
    ensures var x, d1 := d.snapshots[a.snapshot].exec, ApproveDb(d, r, a, now);
            && x in d1.execs && (d1.execs[x].status.ExecSucceeded? <==> d.reviews[r].exec == x)
            && (d.reviews[r].exec == x ==>
                  && d1.execs[x].stage == Some("review_approved")
                  && d1.execs[x].completedAt == if d.execs[x].completedAt.Some? then d.execs[x].completedAt
                                                else Some(now))
  {
    var d1, s := ApprovedDb(d, r, a), a.snapshot;
    ActivatingLeaves(d1, s, now);
    SupersedeLeaves(AcceptDb(ActivateDb(d1, s, now), s, now), s, now);
  }

  // ---- every status is reached --------------------------------------------

  /** From an execution that is created the pipeline's steps lead to running and failed. */
  lemma PipelineMovesExecution(d: Db, run: RunId, product: string, offering: string, x: ExecId, stage: string,
                               code: string, now: Time)
    requires run in d.runs && x !in d.execs && ExecsFor(d.execs, run, offering) == {}
    ensures var created := Step(d, Event.CreateExec(x, run, product, offering, now));
            var started := Step(created, Event.StartExec(x, stage, now));
            var failed := Step(started, Event.FailExec(x, stage, code, now));
            && x in created.execs && created.execs[x].status == ExecPending
            && x in started.execs && started.execs[x].status == ExecRunning && started.execs[x].startedAt == Some(now)
            && x in failed.execs && failed.execs[x].status == ExecFailed && failed.execs[x].startedAt == Some(now)
  {
  }
}
