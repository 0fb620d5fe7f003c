/**
  Histories: any sequence of repository transactions by any processes. Each event is
  one committed transaction; a refused one leaves the database as it was.
 */
module History {
  import opened Wrappers
  import opened Schema
  import opened OwnerPattern
  import opened RunQueue
  import opened KnowledgePublication
  import opened ReviewSupersession
  import opened Publication

  /** `now` is a transaction's time and `locked` the rows that others hold. Names are
      already stripped, as the repository passes them on. */
  datatype Event =
    | Submit(id: RunId, product: string, offering: Option<string>, key: Option<string>, now: Time)
    | Claim(id: RunId, owner: string, now: Time)
    | Heartbeat(id: RunId, owner: string, now: Time)
    | Cancel(id: RunId, requester: string, staleBefore: Option<Time>, now: Time)
    | Recover(before: Time, locked: set<RunId>, now: Time)
    | Interrupt(prefix: string, claimedBefore: Option<Time>, locked: set<RunId>, now: Time)
    | Finish(id: RunId, status: RunStatus, failure: Option<string>, now: Time)
    | Pause(id: RunId, now: Time)
    | FinishAfterReview(id: RunId, status: RunStatus, now: Time)
    | CreateExec(exec: ExecId, run: RunId, product: string, offeringId: string, now: Time)
    | StartExec(exec: ExecId, stage: string, now: Time)
    | FailExec(exec: ExecId, stage: string, code: string, now: Time)
    | Publish(request: Request, now: Time)
    | Raise(review: ReviewId, task: ReviewRow, now: Time)
    | Approve(review: ReviewId, approval: Approval, now: Time)
    | Reject(review: ReviewId, now: Time)
    | Withdraw(review: ReviewId, failed: bool, now: Time)
  {
    /** Steps on snapshots, documents and reviews; the others are the run queue's. */
    predicate IsPublication() {
      Publish? || Raise? || Approve? || Reject? || Withdraw?
    }
  }

  function Step(d: Db, e: Event): Db {
    match e
    case Submit(id, product, offering, key, now) => SubmitDb(d, id, product, offering, key, now)
    case Claim(id, owner, now) => ClaimDb(d, id, owner, now)
    case Heartbeat(id, owner, now) => HeartbeatDb(d, id, owner, now)
    case Cancel(id, requester, staleBefore, now) => CancelDb(d, id, requester, staleBefore, now)
    case Recover(before, locked, now) => RecoverDb(d, before, locked, now)
    case Interrupt(prefix, claimedBefore, locked, now) => InterruptDb(d, prefix, claimedBefore, locked, now)
    case Finish(id, status, failure, now) => FinishDb(d, id, status, failure, now)
    case Pause(id, now) => PauseDb(d, id)
    case FinishAfterReview(id, status, now) => FinishAfterReviewDb(d, id, status, now)
    case CreateExec(exec, run, product, offeringId, now) => CreateExecDb(d, exec, run, product, offeringId)
    case StartExec(exec, stage, now) => StartExecDb(d, exec, stage, now)
    case FailExec(exec, stage, code, now) => FailExecDb(d, exec, stage, code, now)
    case Publish(request, now) => PublishDb(d, request, now)
    case Raise(review, task, now) => RaiseDb(d, review, task, now)
    case Approve(review, approval, now) => ApproveDb(d, review, approval, now)
    case Reject(review, now) => RejectDb(d, review, now)
    case Withdraw(review, failed, now) => WithdrawDb(d, review, failed, now)
  }

  /** The database after a whole history. */
  function Run(d: Db, es: seq<Event>): Db {
    if es == [] then d else Step(Run(d, es[..|es| - 1]), es[|es| - 1])
  }

  lemma RunOne(d: Db, es: seq<Event>, e: Event)
    ensures Run(d, es + [e]) == Step(Run(d, es), e)
  {
    assert (es + [e])[..|es|] == es;
  }

  lemma {:induction false} RunConcat(d: Db, a: seq<Event>, b: seq<Event>)
    ensures Run(d, a + b) == Run(Run(d, a), b)
  {
    if b == [] {
      assert a + b == a;
    } else {
      assert (a + b)[..|a + b| - 1] == a + b[..|b| - 1];
      RunConcat(d, a, b[..|b| - 1]);
    }
  }

  /** Transactions commit in the order of their times, and none precedes `start`. */
  ghost predicate Clocked(es: seq<Event>, start: Time) {
    (forall i :: 0 <= i < |es| ==> start <= es[i].now)
    && (forall i, j :: 0 <= i < j < |es| ==> es[i].now <= es[j].now)
  }

  // ---- how one step may change a run's row --------------------------------

  predicate Closing(a: RunRow, b: RunRow, now: Time) {
    a.status.IsActive() && b.error.Some?
    && b == a.(status := Failed, completedAt := Some(now), error := b.error, cancelRequestedAt := b.cancelRequestedAt)
    && (a.cancelRequestedAt.Some? ==> b.cancelRequestedAt == a.cancelRequestedAt)
  }

  predicate RowMove(a: RunRow, b: RunRow, now: Time) {
    || b == a
    || (a.status.Queued? && b.claimedBy.Some? && b == Claimed(a, b.claimedBy.value, now))
    || (a.status.Running? && b == a.(heartbeatAt := Some(now)))
    || (a.status.Running? && b == AskedToStop(a, now))
    || Closing(a, b, now)
    || (a.status.Running? && b.status.IsTerminal()
        && b == a.(status := b.status, completedAt := Some(now), error := b.error))
    || (a.status.Running? && b == a.(status := AwaitingReview, claimedBy := None, claimedAt := None))
    || (a.status.AwaitingReview? && b.status.IsTerminal() && b == a.(status := b.status, completedAt := Some(now)))
  }

  predicate NewRow(b: RunRow, now: Time) {
    b == NewRun(b.product, b.offering, b.key, now)
  }

  /** No step deletes a run, changes it outside these moves, or inserts any but a
      queued one. */
  ghost predicate RunsMove(runs: map<RunId, RunRow>, runs': map<RunId, RunRow>, now: Time) {
    (forall r :: r in runs ==> r in runs' && RowMove(runs[r], runs'[r], now))
    && (forall r :: r in runs' && r !in runs ==> NewRow(runs'[r], now))
  }

  lemma PointMoves(runs: map<RunId, RunRow>, id: RunId, b: RunRow, now: Time)
    requires id in runs && RowMove(runs[id], b, now)
    ensures RunsMove(runs, runs[id := b], now)
  {
  }

  lemma CloseMoves(runs: map<RunId, RunRow>, ids: set<RunId>, code: string, now: Time)
    requires forall r :: r in ids ==> r in runs && runs[r].status.Running?
    ensures RunsMove(runs, CloseRuns(runs, ids, code, now), now)
  {
    var runs' := CloseRuns(runs, ids, code, now);
    forall r | r in runs ensures RowMove(runs[r], runs'[r], now) {
      if r in ids {
        assert Closing(runs[r], runs'[r], now);
      }
    }
  }

  lemma CancelMoves(d: Db, id: RunId, requester: string, staleBefore: Option<Time>, now: Time)
    ensures RunsMove(d.runs, CancelDb(d, id, requester, staleBefore, now).runs, now)
  {
    if id in d.runs && d.runs[id].status.IsActive() {
      var b := CancelDb(d, id, requester, staleBefore, now).runs[id];
      assert b == AskedToStop(d.runs[id], now) || Closing(d.runs[id], b, now);
      PointMoves(d.runs, id, b, now);
    }
  }

  lemma SubmitMoves(d: Db, id: RunId, product: string, offering: Option<string>, key: Option<string>, now: Time)
    ensures RunsMove(d.runs, SubmitDb(d, id, product, offering, key, now).runs, now)
  {
  }

  lemma PublishLeavesRuns(d: Db, p: Request, now: Time)
    ensures PublishDb(d, p, now).runs == d.runs
  {
    IndexingLeaves(d, p, now);
  }

  lemma ApproveLeavesRuns(d: Db, r: ReviewId, a: Approval, now: Time)
    ensures ApproveDb(d, r, a, now).runs == d.runs
  {
  }

  lemma PublicationLeavesRuns(d: Db, e: Event)
    requires e.IsPublication()
    ensures Step(d, e).runs == d.runs
  {
    match e
    case Publish(p, now) => PublishLeavesRuns(d, p, now);
    case Approve(r, a, now) => ApproveLeavesRuns(d, r, a, now);
    case Raise(r, task, now) => assert RaiseDb(d, r, task, now).runs == d.runs;
    case Reject(r, now) => assert RejectDb(d, r, now).runs == d.runs;
    case Withdraw(r, failed, now) => assert WithdrawDb(d, r, failed, now).runs == d.runs;
  }

  lemma ClaimMoves(d: Db, id: RunId, owner: string, now: Time)
    ensures RunsMove(d.runs, ClaimDb(d, id, owner, now).runs, now)
  {
    if id in d.runs && d.runs[id].status.Queued? {
      PointMoves(d.runs, id, Claimed(d.runs[id], owner, now), now);
    }
  }

  lemma HeartbeatMoves(d: Db, id: RunId, owner: string, now: Time)
    ensures RunsMove(d.runs, HeartbeatDb(d, id, owner, now).runs, now)
  {
    if Renewable(d, id, owner) {
      PointMoves(d.runs, id, d.runs[id].(heartbeatAt := Some(now)), now);
    }
  }

  lemma FinishMoves(d: Db, id: RunId, status: RunStatus, failure: Option<string>, now: Time)
    ensures RunsMove(d.runs, FinishDb(d, id, status, failure, now).runs, now)
  {
    if status.IsTerminal() && id in d.runs && d.runs[id].status.Running? {
      PointMoves(d.runs, id, d.runs[id].(status := status, completedAt := Some(now), error := failure), now);
    }
  }

  lemma PauseMoves(d: Db, id: RunId, now: Time)
    ensures RunsMove(d.runs, PauseDb(d, id).runs, now)
  {
    if id in d.runs && d.runs[id].status.Running? {
      PointMoves(d.runs, id, d.runs[id].(status := AwaitingReview, claimedBy := None, claimedAt := None), now);
    }
  }

  lemma FinishAfterReviewMoves(d: Db, id: RunId, status: RunStatus, now: Time)
    ensures RunsMove(d.runs, FinishAfterReviewDb(d, id, status, now).runs, now)
  {
    if status.IsTerminal() && id in d.runs && d.runs[id].status.AwaitingReview? {
      PointMoves(d.runs, id, d.runs[id].(status := status, completedAt := Some(now)), now);
    }
  }

  lemma StepMovesRuns(d: Db, e: Event)
    ensures RunsMove(d.runs, Step(d, e).runs, e.now)
  {
    match e
    case Submit(id, product, offering, key, now) => SubmitMoves(d, id, product, offering, key, now);
    case Claim(id, owner, now) => ClaimMoves(d, id, owner, now);
    case Heartbeat(id, owner, now) => HeartbeatMoves(d, id, owner, now);
    case Cancel(id, requester, staleBefore, now) => CancelMoves(d, id, requester, staleBefore, now);
    case Recover(before, locked, now) => CloseMoves(d.runs, Stale(d.runs, before, locked), ABANDONED, now);
    case Interrupt(prefix, claimedBefore, locked, now) =>
      CloseMoves(d.runs, OwnedLike(d.runs, PrefixPattern(prefix), claimedBefore, locked), INTERRUPTED, now);
    case Finish(id, status, failure, now) => FinishMoves(d, id, status, failure, now);
    case Pause(id, now) => PauseMoves(d, id, now);
    case FinishAfterReview(id, status, now) => FinishAfterReviewMoves(d, id, status, now);
    case CreateExec(_, _, _, _, _) =>
    case StartExec(_, _, _) =>
    case FailExec(_, _, _, _) =>
    case _ => PublicationLeavesRuns(d, e);
  }

  // ---- how one step may change an execution's row -------------------------

  /** Scope is fixed, an execution that is not open never opens again, and a failed
      one never changes. */
  predicate ExecMove(a: ExecRow, b: ExecRow) {
    b.run == a.run && b.product == a.product && b.offering == a.offering
    && (!a.status.IsOpen() ==> !b.status.IsOpen())
    && (a.status.ExecFailed? ==> b == a)
  }

  ghost predicate ExecsMove(execs: map<ExecId, ExecRow>, execs': map<ExecId, ExecRow>) {
    forall x :: x in execs ==> x in execs' && ExecMove(execs[x], execs'[x])
  }

  lemma DismissMovesExecs(d: Db, ids: set<ReviewId>, end: ReviewStatus, closing: set<SnapshotId>, now: Time)
    ensures DismissDb(d, ids, end, closing, now).execs.Keys == d.execs.Keys
    ensures forall x :: x in d.execs ==>
              var b := DismissDb(d, ids, end, closing, now).execs[x];
              || b == d.execs[x]
              || (d.execs[x].status.ExecCandidateReview? && b == ClosedExec(d.execs[x], REVIEW_SUPERSEDED, now))
  {
  }

  lemma PublishMovesExecs(d: Db, p: Request, now: Time)
    ensures PublishDb(d, p, now).execs.Keys == d.execs.Keys
    ensures ExecsMove(d.execs, PublishDb(d, p, now).execs)
  {
    if Publishable(d, p) {
      IndexingLeaves(d, p, now);
      var i := IndexedDb(d, p, now);
      DismissMovesExecs(i, Moot(i, p.snapshot), ReviewSuperseded, Reviewed(i, Moot(i, p.snapshot)), now);
      PublishedExecMoves(d.execs, SupersedeDb(IndexedDb(d, p, now), p.snapshot, now).execs, p.exec,
                         PublicationStatus(p.row.status), now);
    }
  }

  /** An open execution is not touched by supersession, and then it is closed. */
  lemma PublishedExecMoves(execs: map<ExecId, ExecRow>, execs': map<ExecId, ExecRow>, x: ExecId, status: ExecStatus,
                           now: Time)
    requires execs'.Keys == execs.Keys && x in execs && execs[x].status.IsOpen() && !status.IsOpen()
    requires forall y :: y in execs ==>
               || execs'[y] == execs[y]
               || (execs[y].status.ExecCandidateReview? && execs'[y] == ClosedExec(execs[y], REVIEW_SUPERSEDED, now))
    ensures ExecsMove(execs, execs'[x := PublishedExec(execs'[x], status, now)])
  {
    assert execs'[x] == execs[x];
    ExecPointMoves(execs, execs', x, PublishedExec(execs'[x], status, now));
  }

  lemma ExecPointMoves(execs: map<ExecId, ExecRow>, execs': map<ExecId, ExecRow>, x: ExecId, row: ExecRow)
    requires ExecsMove(execs, execs') && x in execs && ExecMove(execs[x], row)
    ensures ExecsMove(execs, execs'[x := row])
  {
  }

  lemma MoveExecMoves(execs: map<ExecId, ExecRow>, x: ExecId, status: ExecStatus, stage: string, now: Time)
    requires !status.IsOpen()
    ensures ExecsMove(execs, MoveExec(execs, x, status, stage, now))
    ensures MoveExec(execs, x, status, stage, now).Keys == execs.Keys
  {
  }

  lemma SupersedeMovesExecs(d: Db, s: SnapshotId, now: Time)
    ensures SupersedeDb(d, s, now).execs.Keys == d.execs.Keys && ExecsMove(d.execs, SupersedeDb(d, s, now).execs)
  {
    DismissMovesExecs(d, Moot(d, s), ReviewSuperseded, Reviewed(d, Moot(d, s)), now);
  }

  lemma ActivateApprovedMovesExecs(d: Db, s: SnapshotId, x: ExecId, now: Time)
    requires s in d.snapshots
    ensures ActivateApprovedDb(d, s, x, now).execs.Keys == d.execs.Keys
    ensures ExecsMove(d.execs, ActivateApprovedDb(d, s, x, now).execs)
  {
    ActivatingLeaves(d, s, now);
    var d1 := AcceptDb(ActivateDb(d, s, now), s, now);
    SupersedeMovesExecs(d1, s, now);
    var execs := SupersedeDb(d1, s, now).execs;
    MoveExecMoves(execs, x, ExecSucceeded, "review_approved", now);
    ExecsMoveTwice(d.execs, execs, MoveExec(execs, x, ExecSucceeded, "review_approved", now));
  }

  lemma ApproveMovesExecs(d: Db, r: ReviewId, a: Approval, now: Time)
    ensures ApproveDb(d, r, a, now).execs.Keys == d.execs.Keys
    ensures ExecsMove(d.execs, ApproveDb(d, r, a, now).execs)
  {
    if Approvable(d, r, a) && Activates(d, r, a) {
      ActivateApprovedMovesExecs(ApprovedDb(d, r, a), a.snapshot, d.reviews[r].exec, now);
    }
  }

  lemma ExecsMoveTwice(a: map<ExecId, ExecRow>, b: map<ExecId, ExecRow>, c: map<ExecId, ExecRow>)
    requires ExecsMove(a, b) && ExecsMove(b, c)
    ensures ExecsMove(a, c)
  {
  }

  lemma FailOpenMoves(execs: map<ExecId, ExecRow>, ids: set<RunId>, code: string, now: Time)
    ensures ExecsMove(execs, FailOpenExecs(execs, ids, code, now))
  {
  }

  lemma PipelineMovesExecs(d: Db, e: Event)
    requires e.CreateExec? || e.StartExec? || e.FailExec?
    ensures ExecsMove(d.execs, Step(d, e).execs)
    ensures !e.CreateExec? ==> Step(d, e).execs.Keys == d.execs.Keys
  {
    var x, execs' := e.exec, Step(d, e).execs;
    assert execs' == d.execs || (x in execs' && execs' == d.execs[x := execs'[x]]);
    if x in d.execs {
      assert ExecMove(d.execs[x], execs'[x]);
    }
  }

  lemma WithdrawMovesExecs(d: Db, r: ReviewId, failed: bool, now: Time)
    ensures WithdrawDb(d, r, failed, now).execs.Keys == d.execs.Keys
    ensures ExecsMove(d.execs, WithdrawDb(d, r, failed, now).execs)
  {
    if Decidable(d, r) {
      DismissMovesExecs(d, {r}, if failed then ReviewFailed else ReviewSuperseded, {d.reviews[r].snapshot}, now);
    }
  }

  lemma RaiseMovesExecs(d: Db, r: ReviewId, task: ReviewRow, now: Time)
    ensures RaiseDb(d, r, task, now).execs.Keys == d.execs.Keys
    ensures ExecsMove(d.execs, RaiseDb(d, r, task, now).execs)
  {
    if Raisable(d, r, task) {
      var ids := Replaced(d, task);
      DismissMovesExecs(d, ids, ReviewSuperseded, Reviewed(d, ids) - {task.snapshot}, now);
    }
  }

  lemma RejectMovesExecs(d: Db, r: ReviewId, now: Time)
    ensures RejectDb(d, r, now).execs.Keys == d.execs.Keys
    ensures ExecsMove(d.execs, RejectDb(d, r, now).execs)
  {
    if Decidable(d, r) {
      MoveExecMoves(d.execs, d.reviews[r].exec, ExecFailed, "review_rejected", now);
    }
  }

  lemma PublicationMovesExecs(d: Db, e: Event)
    requires e.IsPublication()
    ensures ExecsMove(d.execs, Step(d, e).execs) && Step(d, e).execs.Keys == d.execs.Keys
  {
    if e.Publish? {
      PublishMovesExecs(d, e.request, e.now);
    } else if e.Raise? {
      RaiseMovesExecs(d, e.review, e.task, e.now);
    } else if e.Approve? {
      ApproveMovesExecs(d, e.review, e.approval, e.now);
    } else if e.Reject? {
      RejectMovesExecs(d, e.review, e.now);
    } else {
      WithdrawMovesExecs(d, e.review, e.failed, e.now);
    }
  }

  lemma CancelExecs(d: Db, id: RunId, requester: string, staleBefore: Option<Time>, now: Time)
    ensures CancelDb(d, id, requester, staleBefore, now).execs ==
              if id in d.runs && d.runs[id].status.IsActive() && Unowned(d.runs[id], requester, staleBefore)
              then FailOpenExecs(d.execs, {id}, CANCELLED, now)
              else d.execs
  {
  }

  lemma CancelMovesExecs(d: Db, id: RunId, requester: string, staleBefore: Option<Time>, now: Time)
    ensures CancelDb(d, id, requester, staleBefore, now).execs.Keys == d.execs.Keys
    ensures ExecsMove(d.execs, CancelDb(d, id, requester, staleBefore, now).execs)
  {
    CancelExecs(d, id, requester, staleBefore, now);
    FailOpenMoves(d.execs, {id}, CANCELLED, now);
  }

  lemma QueueMovesExecs(d: Db, e: Event)
    requires !e.IsPublication()
    ensures ExecsMove(d.execs, Step(d, e).execs)
    ensures !e.CreateExec? ==> Step(d, e).execs.Keys == d.execs.Keys
  {
    match e
    case Cancel(id, requester, staleBefore, now) => CancelMovesExecs(d, id, requester, staleBefore, now);
    case Recover(before, locked, now) => FailOpenMoves(d.execs, Stale(d.runs, before, locked), ABANDONED, now);
    case Interrupt(prefix, claimedBefore, locked, now) =>
      FailOpenMoves(d.execs, OwnedLike(d.runs, PrefixPattern(prefix), claimedBefore, locked), INTERRUPTED, now);
    case CreateExec(_, _, _, _, _) => PipelineMovesExecs(d, e);
    case StartExec(_, _, _) => PipelineMovesExecs(d, e);
    case FailExec(_, _, _, _) => PipelineMovesExecs(d, e);
    case _ =>
  }

  lemma StepMovesExecs(d: Db, e: Event)
    ensures ExecsMove(d.execs, Step(d, e).execs)
    ensures !e.CreateExec? ==> Step(d, e).execs.Keys == d.execs.Keys
  {
    if e.IsPublication() {
      PublicationMovesExecs(d, e);
    } else {
      QueueMovesExecs(d, e);
    }
  }
}
