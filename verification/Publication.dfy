/**
  Publishing an offering's result, and deciding its reviews
  (app/repositories/monitoring.py PostgresOfferingPublicationRepository,
  app/repositories/reviews.py).
 */
module Publication {
  import opened Wrappers
  import opened Schema
  import opened Names
  import opened KnowledgePublication
  import opened ReviewSupersession

  /** `projectable`: the structured projector accepts the snapshot's extraction. */
  datatype Request = Request(
    exec: ExecId,
    snapshot: SnapshotId,
    row: SnapshotRow,
    documents: seq<Document>,
    projectable: bool)
  {
    /** What constructing an OfferingPublication and its snapshot checks. */
    predicate WellFormed() {
      && row.exec == exec
      && (row.status.Accepted? <==> row.acceptedAt.Some?)
      && forall i :: 0 <= i < |documents| ==>
           && documents[i].run == row.run
           && documents[i].version.scope.product == row.scope.product
           && documents[i].version.scope.offering == row.scope.offering
    }

    /** Nothing checks this: a document carries its own bank. */
    ghost predicate SameBank() {
      forall i :: 0 <= i < |documents| ==> documents[i].version.scope.bank == row.scope.bank
    }
  }

  // ---- publish ------------------------------------------------------------

  function PublicationStatus(status: SnapshotStatus): ExecStatus {
    match status
    case Accepted => ExecSucceeded
    case Candidate => ExecCandidateReview
    case ReviewRequired => ExecCandidateReview
    case Rejected => ExecFailed
  }

  /** The snapshots of a run's offering; a uniqueness constraint allows one. */
  function AttemptsOf(snapshots: map<SnapshotId, SnapshotRow>, row: SnapshotRow): set<SnapshotId> {
    set s | s in snapshots && snapshots[s].run == row.run && snapshots[s].scope.offering == row.scope.offering
  }

  predicate ScopeMatches(x: ExecRow, row: SnapshotRow) {
    x.run == row.run && x.product == row.scope.product && x.offering == row.scope.offering
  }

  /** The execution is there, of the snapshot's scope, and still open. */
  predicate MayPublish(d: Db, p: Request) {
    p.exec in d.execs && ScopeMatches(d.execs[p.exec], p.row) && d.execs[p.exec].status.IsOpen()
  }

  /** The insert conflicts with nothing but an earlier save of the same snapshot, and
      its run exists. */
  predicate SnapshotFits(d: Db, p: Request) {
    var attempts := AttemptsOf(d.snapshots, p.row);
    if attempts == {} then p.snapshot !in d.snapshots && p.row.run in d.runs else attempts == {p.snapshot}
  }

  function InsertSnapshotDb(d: Db, p: Request): Db {
    if AttemptsOf(d.snapshots, p.row) == {} then d.(snapshots := d.snapshots[p.snapshot := p.row]) else d
  }

  predicate Publishable(d: Db, p: Request) {
    p.WellFormed() && MayPublish(d, p) && SnapshotFits(d, p) && (p.row.status.Accepted? ==> p.projectable)
  }

  /** Why a publication is refused. */
  function PublicationRefusal(d: Db, p: Request): Option<Error> {
    if !p.WellFormed() then Some(InvalidArgument)
    else if !MayPublish(d, p) || !SnapshotFits(d, p) then Some(PublicationRefused)
    else if p.row.status.Accepted? && !p.projectable then Some(InvalidArgument)
    else None
  }

  lemma SnapshotFitsIff(d: Db, p: Request)
    ensures SnapshotFits(d, p) <==>
              && (forall s :: (s in d.snapshots && d.snapshots[s].run == p.row.run
                               && d.snapshots[s].scope.offering == p.row.scope.offering) ==> s == p.snapshot)
              && (p.snapshot in d.snapshots ==>
                    && d.snapshots[p.snapshot].run == p.row.run
                    && d.snapshots[p.snapshot].scope.offering == p.row.scope.offering)
              && (p.snapshot !in d.snapshots ==> p.row.run in d.runs)
  {
    var attempts := AttemptsOf(d.snapshots, p.row);
    forall s
      ensures s in attempts <==> (s in d.snapshots && d.snapshots[s].run == p.row.run
                                  && d.snapshots[s].scope.offering == p.row.scope.offering)
    {
    }
    if p.snapshot in attempts {
      assert (forall s :: s in attempts ==> s == p.snapshot) ==> attempts == {p.snapshot};
    } else {
      assert (forall s :: s in attempts ==> s == p.snapshot) ==> attempts == {};
    }
  }

  /** What a publication needs: an open execution of its own scope, documents of its run and
      offering, a run and offering without a snapshot (or with this very one), and for an
      accepted snapshot a time of acceptance and a projection. */
  lemma PublishableIff(d: Db, p: Request)
    ensures Publishable(d, p) <==>
              && p.exec in d.execs && (d.execs[p.exec].status == ExecPending || d.execs[p.exec].status == ExecRunning)
              && d.execs[p.exec].run == p.row.run && d.execs[p.exec].product == p.row.scope.product
              && d.execs[p.exec].offering == p.row.scope.offering && p.row.exec == p.exec
              && (forall k :: 0 <= k < |p.documents| ==>
                    && p.documents[k].run == p.row.run && p.documents[k].version.scope.product == p.row.scope.product
                    && p.documents[k].version.scope.offering == p.row.scope.offering)
              && (forall s :: (s in d.snapshots && d.snapshots[s].run == p.row.run
                               && d.snapshots[s].scope.offering == p.row.scope.offering) ==> s == p.snapshot)
              && (p.snapshot in d.snapshots ==>
                    && d.snapshots[p.snapshot].run == p.row.run
                    && d.snapshots[p.snapshot].scope.offering == p.row.scope.offering)
              && (p.snapshot !in d.snapshots ==> p.row.run in d.runs)
              && (p.row.status == Accepted <==> p.row.acceptedAt.Some?) && (p.row.status == Accepted ==> p.projectable)
  {
    SnapshotFitsIff(d, p);
  }

  function PublishedExec(row: ExecRow, status: ExecStatus, now: Time): ExecRow {
    row.(status := status, stage := Some("published"), completedAt := Some(now))
  }

  /** The tables after storing, inserting and linking. */
  function RecordedDb(d: Db, p: Request, now: Time): Db {
    LinkDb(InsertSnapshotDb(StoreAllDb(d, p.documents, now), p), p.snapshot, VersionsOf(p.documents))
  }

  /** ... and after the accepted set, if it has documents, became the index. */
  function IndexedDb(d: Db, p: Request, now: Time): Db {
    var recorded := RecordedDb(d, p, now);
    if p.row.status.Accepted? && p.documents != [] then ActivateDb(recorded, p.snapshot, now) else recorded
  }

  function CompletedDb(d: Db, x: ExecId, status: ExecStatus, now: Time): Db {
    if x !in d.execs then d else d.(execs := d.execs[x := PublishedExec(d.execs[x], status, now)])
  }

  function PublishDb(d: Db, p: Request, now: Time): Db {
    if !Publishable(d, p) then d
    else CompletedDb(SupersedeDb(IndexedDb(d, p, now), p.snapshot, now), p.exec, PublicationStatus(p.row.status), now)
  }

  class OfferingPublicationRepository {
    const db: Database

    constructor (db: Database)
      ensures this.db == db
    {
      this.db := db;
    }

    method StoreDocuments(documents: seq<Document>, now: Time)
      modifies db
      ensures db.View() == StoreAllDb(old(db.View()), documents, now)
    {
      assert documents[..0] == [];
      for i := 0 to |documents|
        invariant db.View() == StoreAllDb(old(db.View()), documents[..i], now)
      {
        var _ := StoreDocumentVersion(db, documents[i], now);
        assert documents[..i + 1][..i] == documents[..i];
      }
      assert documents[..|documents|] == documents;
    }

    /** One transaction: a refused publication leaves the tables as they were. */
    method Publish(p: Request, now: Time) returns (r: Result<SnapshotId>)
      modifies db
      ensures db.View() == PublishDb(old(db.View()), p, now)
      ensures r == if Publishable(old(db.View()), p) then Ok(p.snapshot)
                   else Err(PublicationRefusal(old(db.View()), p).value)
      ensures r.Err? ==> db.View() == old(db.View())
      ensures r.Ok? ==>
                && p.exec in old(db.execs) && old(db.execs)[p.exec].run == p.row.run
                && old(db.execs)[p.exec].product == p.row.scope.product
                && old(db.execs)[p.exec].offering == p.row.scope.offering
                && (old(db.execs)[p.exec].status.ExecPending? || old(db.execs)[p.exec].status.ExecRunning?)
                && (p.row.status == Accepted ==> p.projectable)
      ensures r == Err(PublicationRefused) ==> !MayPublish(old(db.View()), p) || !SnapshotFits(old(db.View()), p)
      ensures r == Err(InvalidArgument) ==> !p.WellFormed() || (p.row.status == Accepted && !p.projectable)
      ensures r.Err? ==> r.error == PublicationRefused || r.error == InvalidArgument
    {
      if !p.WellFormed() {
        return Err(InvalidArgument);
      }
      var before := db.View();
      if !MayPublish(db.View(), p) {
        return Err(PublicationRefused);
      }
      StoreDocuments(p.documents, now);
      StoreAllLeaves(before, p.documents, now);
      var attempts := AttemptsOf(db.snapshots, p.row);
      if attempts == {} {
        if p.snapshot in db.snapshots || p.row.run !in db.runs {
          db.Rollback(before);
          return Err(PublicationRefused);
        }
        db.snapshots := db.snapshots[p.snapshot := p.row];
      } else if attempts != {p.snapshot} {
        db.Rollback(before);
        return Err(PublicationRefused);
      }
      LinkSnapshotDocuments(db, p.snapshot, p.documents);
      if p.row.status.Accepted? {
        if p.documents != [] {
          var _, _ := ActivateSnapshotSet(db, p.snapshot, now);
        }
        if !p.projectable {
          db.Rollback(before);
          return Err(InvalidArgument);
        }
      }
      var _ := SupersedeReviewsOlderThan(db, p.snapshot, now);
      if p.exec in db.execs {
        db.execs := db.execs[p.exec := PublishedExec(db.execs[p.exec], PublicationStatus(p.row.status), now)];
      }
      r := Ok(p.snapshot);
    }
  }

  lemma {:induction false} StoreAllLeaves(d: Db, docs: seq<Document>, now: Time)
    ensures var d1 := StoreAllDb(d, docs, now);
            d1.runs == d.runs && d1.execs == d.execs && d1.snapshots == d.snapshots
            && d1.reviews == d.reviews && d1.links == d.links
  {
    if docs != [] {
      StoreAllLeaves(d, docs[..|docs| - 1], now);
    }
  }

  lemma RecordingLeaves(d: Db, p: Request, now: Time)
    ensures var d1 := RecordedDb(d, p, now);
            d1.runs == d.runs && d1.execs == d.execs && d1.reviews == d.reviews
  {
    StoreAllLeaves(d, p.documents, now);
  }

  lemma ActivatingLeaves(d: Db, s: SnapshotId, now: Time)
    ensures var d1 := ActivateDb(d, s, now);
            d1.runs == d.runs && d1.execs == d.execs && d1.reviews == d.reviews
  {
  }

  /** Storing, inserting, linking and activating touch no run, execution or review. */
  lemma IndexingLeaves(d: Db, p: Request, now: Time)
    ensures var d1 := IndexedDb(d, p, now);
            d1.runs == d.runs && d1.execs == d.execs && d1.reviews == d.reviews
  {
    RecordingLeaves(d, p, now);
    ActivatingLeaves(RecordedDb(d, p, now), p.snapshot, now);
  }

  // ---- reviews ------------------------------------------------------------

  predicate Decidable(d: Db, r: ReviewId) {
    r in d.reviews && d.reviews[r].status.ReviewPending?
  }

  /** An approval: the decision, the snapshot it is about with the canonical form the
      reviewer saw and the one the decision leads to, the caller's word that no other
      signal blocks activation, and whether the projector accepts the result. */
  datatype Approval = Approval(
    decision: Decision,
    snapshot: SnapshotId,
    expected: string,
    canonical: string,
    ready: bool,
    projectable: bool)

  /** The review waits and the approval is about its unchanged, reviewable snapshot. */
  predicate ApprovalFits(d: Db, r: ReviewId, a: Approval) {
    && !a.decision.rejectsAll
    && Decidable(d, r) && d.reviews[r].snapshot == a.snapshot && a.snapshot in d.snapshots
    && d.snapshots[a.snapshot].status.ReviewRequired? && d.snapshots[a.snapshot].canonical == a.expected
  }

  /** The guard of an approval: nothing newer of the offering has been accepted, and what
      would be activated can be projected. */
  predicate Approvable(d: Db, r: ReviewId, a: Approval) {
    && ApprovalFits(d, r, a) && !NewerAcceptedSnapshotExists(d, a.snapshot)
    && (Activates(d, r, a) ==> a.projectable)
  }

  function ApprovedReviews(reviews: map<ReviewId, ReviewRow>, r: ReviewId, decision: Decision): map<ReviewId, ReviewRow>
    requires r in reviews
  {
    reviews[r := reviews[r].(status := ReviewApproved, decision := Some(decision))]
  }

  function ApprovedDb(d: Db, r: ReviewId, a: Approval): Db
    requires r in d.reviews && a.snapshot in d.snapshots
  {
    d.(reviews := ApprovedReviews(d.reviews, r, a.decision),
       snapshots := d.snapshots[a.snapshot := d.snapshots[a.snapshot].(canonical := a.canonical)])
  }

  /** It is the last approval of a ready snapshot. */
  predicate Activates(d: Db, r: ReviewId, a: Approval)
    requires r in d.reviews && a.snapshot in d.snapshots
  {
    a.ready && Resolved(ApprovedDb(d, r, a), a.snapshot)
  }

  /** The same decision again: answered with the stored review. */
  predicate AlreadyApproved(d: Db, r: ReviewId, a: Approval) {
    r in d.reviews && d.reviews[r].status.ReviewApproved? && d.reviews[r].decision == Some(a.decision)
  }

  /** What an approval by an accepted reviewer answers; the checks come in this order. */
  function ApprovalAnswer(d: Db, r: ReviewId, a: Approval): Result<ReviewRow> {
    if a.decision.rejectsAll then Err(InvalidArgument)
    else if r !in d.reviews then Err(ReviewNotFound)
    else if AlreadyApproved(d, r, a) then Ok(d.reviews[r])
    else if !d.reviews[r].status.ReviewPending? then Err(ReviewConflict)
    else if d.reviews[r].snapshot != a.snapshot then Err(InvalidArgument)
    else if a.snapshot !in d.snapshots then Err(SnapshotNotFound)
    else if !d.snapshots[a.snapshot].status.ReviewRequired? then Err(ReviewConflict)
    else if d.snapshots[a.snapshot].canonical != a.expected then Err(ReviewConflict)
    else if NewerAcceptedSnapshotExists(d, a.snapshot) then Err(StaleReview)
    else if Activates(d, r, a) && !a.projectable then Err(InvalidArgument)
    else Ok(d.reviews[r].(status := ReviewApproved, decision := Some(a.decision)))
  }

  predicate Resolved(d: Db, s: SnapshotId) {
    forall r :: r in d.reviews && d.reviews[r].snapshot == s ==> d.reviews[r].status.ReviewApproved?
  }

  function AcceptDb(d: Db, s: SnapshotId, now: Time): Db
    requires s in d.snapshots
  {
    if d.snapshots[s].status.ReviewRequired?
    then d.(snapshots := d.snapshots[s := d.snapshots[s].(status := Accepted, acceptedAt := Some(now))])
    else d
  }

  function MoveExec(execs: map<ExecId, ExecRow>, x: ExecId, status: ExecStatus, stage: string, now: Time)
    : map<ExecId, ExecRow>
  {
    if x in execs && execs[x].status.ExecCandidateReview? then
      execs[x := execs[x].(status := status, stage := Some(stage),
                           completedAt := if execs[x].completedAt.Some? then execs[x].completedAt else Some(now))]
    else execs
  }

  /** The last approval of a snapshot publishes it like an accepted run. */
  function ActivateApprovedDb(d: Db, s: SnapshotId, x: ExecId, now: Time): Db
    requires s in d.snapshots
  {
    var d1 := SupersedeDb(AcceptDb(ActivateDb(d, s, now), s, now), s, now);
    d1.(execs := MoveExec(d1.execs, x, ExecSucceeded, "review_approved", now))
  }

  function ApproveDb(d: Db, r: ReviewId, a: Approval, now: Time): Db {
    if !Approvable(d, r, a) then d
    else
      var d1 := ApprovedDb(d, r, a);
      if Activates(d, r, a) then ActivateApprovedDb(d1, a.snapshot, d.reviews[r].exec, now) else d1
  }

  function RejectedReviews(reviews: map<ReviewId, ReviewRow>, r: ReviewId): map<ReviewId, ReviewRow>
    requires r in reviews
  {
    reviews[r := reviews[r].(status := ReviewRejected, decision := Some(REJECT_ALL))]
  }

  function RejectDb(d: Db, r: ReviewId, now: Time): Db {
    if !Decidable(d, r) then d
    else
      var s := d.reviews[r].snapshot;
      var d1 := DiscardDb(d.(reviews := RejectedReviews(d.reviews, r)), s);
      d1.(snapshots := if s in d1.snapshots && d1.snapshots[s].status.ReviewRequired?
                       then d1.snapshots[s := RejectedRow(d1.snapshots[s])] else d1.snapshots,
          execs := MoveExec(d1.execs, d.reviews[r].exec, ExecFailed, "review_rejected", now))
  }

  function RejectionAnswer(d: Db, r: ReviewId): Result<ReviewRow> {
    if r !in d.reviews then Err(ReviewNotFound)
    else if d.reviews[r].status.ReviewRejected? && d.reviews[r].decision == Some(REJECT_ALL) then Ok(d.reviews[r])
    else if !d.reviews[r].status.ReviewPending? then Err(ReviewConflict)
    else Ok(d.reviews[r].(status := ReviewRejected, decision := Some(REJECT_ALL)))
  }

  // ---- raising and closing reviews ----------------------------------------

  /** The pending reviews a new one replaces: of the same issue of the same offering, and
      either on another snapshot or for the same reason. */
  function Replaced(d: Db, task: ReviewRow): set<ReviewId> {
    set r | r in d.reviews && d.reviews[r].status.ReviewPending?
      && d.reviews[r].product == task.product && d.reviews[r].offering == task.offering
      && d.reviews[r].issue == task.issue
      && (d.reviews[r].snapshot != task.snapshot || d.reviews[r].reason == task.reason)
  }

  /** A new review is pending, and its snapshot and execution exist. */
  predicate Raisable(d: Db, r: ReviewId, task: ReviewRow) {
    task.status.ReviewPending? && r !in d.reviews && task.snapshot in d.snapshots && task.exec in d.execs
  }

  /** The new review's own snapshot is not closed: it has a pending review again. */
  function RaiseDb(d: Db, r: ReviewId, task: ReviewRow, now: Time): Db {
    if !Raisable(d, r, task) then d
    else
      var ids := Replaced(d, task);
      var d1 := DismissDb(d, ids, ReviewSuperseded, Reviewed(d, ids) - {task.snapshot}, now);
      d1.(reviews := d1.reviews[r := task])
  }

  /** One pending review is superseded, or given up as failed. */
  function WithdrawDb(d: Db, r: ReviewId, failed: bool, now: Time): Db {
    if !Decidable(d, r) then d
    else DismissDb(d, {r}, if failed then ReviewFailed else ReviewSuperseded, {d.reviews[r].snapshot}, now)
  }

  function WithdrawalAnswer(d: Db, r: ReviewId, end: ReviewStatus): Result<ReviewRow> {
    if r !in d.reviews then Err(ReviewNotFound)
    else if d.reviews[r].status == end then Ok(d.reviews[r])
    else if !d.reviews[r].status.ReviewPending? then Err(ReviewConflict)
    else Ok(d.reviews[r].(status := end))
  }

  class ReviewRepository {
    const db: Database

    constructor (db: Database)
      ensures this.db == db
    {
      this.db := db;
    }

    method ApproveWithSnapshot(r: ReviewId, a: Approval, reviewer: string, now: Time)
      returns (result: Result<ReviewRow>)
      modifies db
      ensures !NameAccepted(reviewer) ==> result == Err(InvalidArgument) && db.View() == old(db.View())
      ensures NameAccepted(reviewer) ==>
                db.View() == ApproveDb(old(db.View()), r, a, now) && result == ApprovalAnswer(old(db.View()), r, a)
      ensures result.Err? ==> db.View() == old(db.View())
    {
      if a.decision.rejectsAll || !NameAccepted(reviewer) {
        return Err(InvalidArgument);
      }
      if r !in db.reviews {
        return Err(ReviewNotFound);
      }
      var current := db.reviews[r];
      if current.status.ReviewApproved? && current.decision == Some(a.decision) {
        return Ok(current);
      }
      if !current.status.ReviewPending? {
        return Err(ReviewConflict);
      }
      if current.snapshot != a.snapshot {
        return Err(InvalidArgument);
      }
      var s := a.snapshot;
      if s !in db.snapshots {
        return Err(SnapshotNotFound);
      }
      if !db.snapshots[s].status.ReviewRequired? || db.snapshots[s].canonical != a.expected {
        return Err(ReviewConflict);
      }
      if NewerAcceptedSnapshotExists(db.View(), s) {
        return Err(StaleReview);
      }
      var before := db.View();
      var row := current.(status := ReviewApproved, decision := Some(a.decision));
      db.reviews := db.reviews[r := row];
      db.snapshots := db.snapshots[s := db.snapshots[s].(canonical := a.canonical)];
      assert db.View() == ApprovedDb(before, r, a);
      if !a.ready || !Resolved(db.View(), s) {
        return Ok(row);
      }
      var _, _ := ActivateSnapshotSet(db, s, now);
      if db.snapshots[s].status.ReviewRequired? {
        db.snapshots := db.snapshots[s := db.snapshots[s].(status := Accepted, acceptedAt := Some(now))];
      }
      if !a.projectable {
        db.Rollback(before);
        return Err(InvalidArgument);
      }
      var _ := SupersedeReviewsOlderThan(db, s, now);
      db.execs := MoveExec(db.execs, current.exec, ExecSucceeded, "review_approved", now);
      result := Ok(row);
    }

    method Reject(r: ReviewId, reviewer: string, now: Time) returns (result: Result<ReviewRow>)
      modifies db
      ensures !NameAccepted(reviewer) ==> result == Err(InvalidArgument) && db.View() == old(db.View())
      ensures NameAccepted(reviewer) ==>
                db.View() == RejectDb(old(db.View()), r, now) && result == RejectionAnswer(old(db.View()), r)
      ensures result.Err? ==> db.View() == old(db.View())
    {
      if !NameAccepted(reviewer) {
        return Err(InvalidArgument);
      }
      if r !in db.reviews {
        return Err(ReviewNotFound);
      }
      var current := db.reviews[r];
      if current.status.ReviewRejected? && current.decision == Some(REJECT_ALL) {
        return Ok(current);
      }
      if !current.status.ReviewPending? {
        return Err(ReviewConflict);
      }
      var s, row := current.snapshot, current.(status := ReviewRejected, decision := Some(REJECT_ALL));
      db.reviews := db.reviews[r := row];
      var _ := DiscardSnapshotDocuments(db, s);
      if s in db.snapshots && db.snapshots[s].status.ReviewRequired? {
        db.snapshots := db.snapshots[s := RejectedRow(db.snapshots[s])];
      }
      db.execs := MoveExec(db.execs, current.exec, ExecFailed, "review_rejected", now);
      result := Ok(row);
    }

    /** `r` stands for the review's idempotency key. */
    method Create(r: ReviewId, task: ReviewRow, now: Time) returns (result: Result<ReviewRow>)
      modifies db
      ensures db.View() == RaiseDb(old(db.View()), r, task, now)
      ensures result == if !task.status.ReviewPending? then Err(InvalidArgument)
                        else if r in old(db.reviews) then Ok(old(db.reviews)[r])
                        else if Raisable(old(db.View()), r, task) then Ok(task) else Err(ReferenceMissing)
      ensures result.Err? || r in old(db.reviews) ==> db.View() == old(db.View())
    {
      if !task.status.ReviewPending? {
        return Err(InvalidArgument);
      }
      if r in db.reviews {
        return Ok(db.reviews[r]);
      }
      var before := db.View();
      var ids := Replaced(before, task);
      DismissReviews(db, ids, ReviewSuperseded, Reviewed(before, ids) - {task.snapshot}, now);
      if task.snapshot !in before.snapshots || task.exec !in before.execs {
        db.Rollback(before);
        return Err(ReferenceMissing);
      }
      db.reviews := db.reviews[r := task];
      result := Ok(task);
    }

    /** `supersede`, or `fail` when `failed`. */
    method Withdraw(r: ReviewId, failed: bool, now: Time) returns (result: Result<ReviewRow>)
      modifies db
      ensures db.View() == WithdrawDb(old(db.View()), r, failed, now)
      ensures result == WithdrawalAnswer(old(db.View()), r, if failed then ReviewFailed else ReviewSuperseded)
      ensures result.Err? ==> db.View() == old(db.View())
    {
      var end := if failed then ReviewFailed else ReviewSuperseded;
      if r !in db.reviews {
        return Err(ReviewNotFound);
      }
      var current := db.reviews[r];
      if current.status == end {
        return Ok(current);
      }
      if !current.status.ReviewPending? {
        return Err(ReviewConflict);
      }
      DismissReviews(db, {r}, end, {current.snapshot}, now);
      result := Ok(current.(status := end));
    }
  }
}
