/**
  What a decision on a review does, and that it is final (app/repositories/reviews.py):
  when an approval accepts its snapshot, that a refused decision changes nothing, and that
  repeating one answers what is stored.
 */
module ReviewDecisions {
  import opened Wrappers
  import opened Schema
  import opened KnowledgePublication
  import opened ReviewSupersession
  import opened Publication
  import opened History
  import opened IndexHistory
  import opened ReviewHistory
  import opened SnapshotSets
  import opened StrandedSnapshots

  // ---- approving ----------------------------------------------------------

  /** `(created_at, queued_at)` of `t`'s snapshot and run is at most that of `s`. */
  ghost predicate NotNewer(d: Db, t: SnapshotId, s: SnapshotId)
    requires t in d.snapshots && d.snapshots[t].run in d.runs && s in d.snapshots && d.snapshots[s].run in d.runs
  {
    var newer, older := d.snapshots[t], d.snapshots[s];
    && newer.createdAt <= older.createdAt
    && (newer.createdAt == older.createdAt ==> d.runs[newer.run].queuedAt <= d.runs[older.run].queuedAt)
  }

  /** Nothing accepted of the offering is newer. */
  ghost predicate NoneNewer(d: Db, s: SnapshotId) {
    forall t ::
      (t in d.snapshots && d.snapshots[t].status == Accepted && d.snapshots[t].run in d.runs
       && s in d.snapshots && d.snapshots[s].run in d.runs && d.snapshots[t].scope == d.snapshots[s].scope)
      ==> NotNewer(d, t, s)
  }

  lemma GuardInColumns(d: Db, s: SnapshotId)
    ensures NewerAcceptedSnapshotExists(d, s) <==> !NoneNewer(d, s)
  {
    if !NoneNewer(d, s) {
      var t :| t in d.snapshots && d.snapshots[t].status == Accepted && d.snapshots[t].run in d.runs
               && s in d.snapshots && d.snapshots[s].run in d.runs && d.snapshots[t].scope == d.snapshots[s].scope
               && !NotNewer(d, t, s);
      assert NewerAccepted(d, s, t);
    }
  }

  /** What the approval needs for its snapshot to become the accepted one. */
  ghost predicate LastApproval(d: Db, r: ReviewId, a: Approval) {
    && r in d.reviews && d.reviews[r].status == ReviewPending && d.reviews[r].snapshot == a.snapshot
    && !a.decision.rejectsAll && a.ready && a.projectable
    && a.snapshot in d.snapshots && d.snapshots[a.snapshot].status == ReviewRequired
    && d.snapshots[a.snapshot].canonical == a.expected
    && (forall q :: q in d.reviews && q != r && d.reviews[q].snapshot == a.snapshot ==>
          d.reviews[q].status == ReviewApproved)
    && NoneNewer(d, a.snapshot)
  }

  lemma ActivatesIff(d: Db, r: ReviewId, a: Approval)
    requires ApprovalFits(d, r, a)
    ensures Activates(d, r, a) <==>
              a.ready && forall q :: q in d.reviews && q != r && d.reviews[q].snapshot == a.snapshot ==>
                d.reviews[q].status == ReviewApproved
  {
    var d1 := ApprovedDb(d, r, a);
    assert d1.reviews[r].status.ReviewApproved?;
    if Activates(d, r, a) {
      forall q | q in d.reviews && q != r && d.reviews[q].snapshot == a.snapshot
        ensures d.reviews[q].status == ReviewApproved
      {
        assert d1.reviews[q] == d.reviews[q];
      }
    }
  }

  lemma LastApprovalIff(d: Db, r: ReviewId, a: Approval)
    ensures LastApproval(d, r, a) <==> Approvable(d, r, a) && Activates(d, r, a)
  {
    GuardInColumns(d, a.snapshot);
    if ApprovalFits(d, r, a) {
      ActivatesIff(d, r, a);
    }
  }

  lemma ActivationAccepts(d: Db, s: SnapshotId, x: ExecId, now: Time, t: SnapshotId)
    requires s in d.snapshots && d.snapshots[s].status.ReviewRequired? && t in d.snapshots
    ensures var d1 := ActivateApprovedDb(d, s, x, now);
            t in d1.snapshots && (d1.snapshots[t].status.Accepted? <==> t == s || d.snapshots[t].status.Accepted?)
  {
    var d2 := AcceptDb(ActivateDb(d, s, now), s, now);
    var ids := Moot(d2, s);
    CloseChanges(DiscardAllDb(d2.(reviews := Settle(d2.reviews, ids, ReviewSuperseded)), Reviewed(d2, ids)),
                 Reviewed(d2, ids), now);
  }

  /** An approval makes a snapshot accepted exactly when it is the last approval of that
      snapshot, which is ready, unchanged and not older than an accepted one. */
  lemma {:induction false} ApprovalAcceptsIff(d: Db, r: ReviewId, a: Approval, now: Time, s: SnapshotId)
    requires s in d.snapshots && d.snapshots[s].status != Accepted
    ensures var d1 := ApproveDb(d, r, a, now);
            s in d1.snapshots && (d1.snapshots[s].status == Accepted <==> s == a.snapshot && LastApproval(d, r, a))
  {
    LastApprovalIff(d, r, a);
    if Approvable(d, r, a) && Activates(d, r, a) {
      ActivationAccepts(ApprovedDb(d, r, a), a.snapshot, d.reviews[r].exec, now, s);
    }
  }

  // ---- what is stored, and a refusal --------------------------------------

  lemma ActivationKeepsReview(d: Db, s: SnapshotId, x: ExecId, now: Time, r: ReviewId)
    requires s in d.snapshots && r in d.reviews && !d.reviews[r].status.ReviewPending?
    ensures r in ActivateApprovedDb(d, s, x, now).reviews
    ensures ActivateApprovedDb(d, s, x, now).reviews[r] == d.reviews[r]
  {
    ActivatingLeaves(d, s, now);
    SupersedeReviews(AcceptDb(ActivateDb(d, s, now), s, now), s, now);
  }

  lemma ActivationKeepsForm(d: Db, s: SnapshotId, x: ExecId, now: Time)
    requires s in d.snapshots
    ensures var d1 := ActivateApprovedDb(d, s, x, now);
            s in d1.snapshots && d1.snapshots[s].canonical == d.snapshots[s].canonical
  {
    var d2 := AcceptDb(ActivateDb(d, s, now), s, now);
    var ids := Moot(d2, s);
    CloseChanges(DiscardAllDb(d2.(reviews := Settle(d2.reviews, ids, ReviewSuperseded)), Reviewed(d2, ids)),
                 Reviewed(d2, ids), now);
  }

  /** An approval of a pending review either stores exactly this decision or is refused
      with the tables as they were. */
  lemma {:induction false} ApprovalStores(d: Db, r: ReviewId, a: Approval, now: Time)
    requires r in d.reviews && d.reviews[r].status == ReviewPending
    ensures var d1, answer := ApproveDb(d, r, a, now), ApprovalAnswer(d, r, a);
            && (answer.Err? ==> d1 == d)
            && (answer.Ok? ==>
                  && r in d1.reviews && answer.value == d1.reviews[r]
                  && d1.reviews[r] == d.reviews[r].(status := ReviewApproved, decision := Some(a.decision))
                  && a.snapshot in d1.snapshots && d1.snapshots[a.snapshot].canonical == a.canonical)
            && (answer == Err(StaleReview) ==> !NoneNewer(d, a.snapshot))
            && (answer.Ok? ==> NoneNewer(d, a.snapshot))
  {
    GuardInColumns(d, a.snapshot);
    if Approvable(d, r, a) && Activates(d, r, a) {
      ActivationKeepsReview(ApprovedDb(d, r, a), a.snapshot, d.reviews[r].exec, now, r);
      ActivationKeepsForm(ApprovedDb(d, r, a), a.snapshot, d.reviews[r].exec, now);
    }
  }

  /** Why an approval is refused. */
  lemma RefusedApprovals(d: Db, r: ReviewId, a: Approval)
    requires !a.decision.rejectsAll
    ensures ApprovalAnswer(d, r, a) == Err(ReviewNotFound) <==> r !in d.reviews
    ensures r in d.reviews && d.reviews[r].status == ReviewPending ==>
              var answer, s := ApprovalAnswer(d, r, a), a.snapshot;
              var same := d.reviews[r].snapshot == s;
              && (answer == Err(SnapshotNotFound) <==> same && s !in d.snapshots)
              && (answer == Err(ReviewConflict) <==>
                    && same && s in d.snapshots
                    && (d.snapshots[s].status != ReviewRequired || d.snapshots[s].canonical != a.expected))
              && (answer == Err(StaleReview) <==>
                    && same && s in d.snapshots && d.snapshots[s].status == ReviewRequired
                    && d.snapshots[s].canonical == a.expected && !NoneNewer(d, s))
              && (answer == Err(InvalidArgument) ==> !same || !a.projectable)
              && (answer.Err? ==> answer.error != ReviewNotFound && answer.error != ReferenceMissing)
    ensures r in d.reviews && d.reviews[r].status != ReviewPending ==>
              ApprovalAnswer(d, r, a) ==
              if d.reviews[r].status == ReviewApproved && d.reviews[r].decision == Some(a.decision)
              then Ok(d.reviews[r]) else Err(ReviewConflict)
  {
    GuardInColumns(d, a.snapshot);
  }

  /** A rejection stores that nothing was acceptable, rejects the snapshot under review with
      its execution, and releases the snapshot's documents. */
  lemma RejectionStores(d: Db, r: ReviewId, now: Time)
    requires r in d.reviews && d.reviews[r].status == ReviewPending
    ensures var d1, s, x := RejectDb(d, r, now), d.reviews[r].snapshot, d.reviews[r].exec;
            && r in d1.reviews && d1.reviews == d.reviews[r := d1.reviews[r]]
            && d1.reviews[r] == d.reviews[r].(status := ReviewRejected, decision := Some(Decision(true, "")))
            && RejectionAnswer(d, r) == Ok(d1.reviews[r])
            && (forall l :: l in d1.links <==> l in d.links && l.snapshot != s)
            && d1.snapshots.Keys == d.snapshots.Keys
            && (s in d.snapshots && d.snapshots[s].status == ReviewRequired ==> d1.snapshots[s].status == Rejected)
            && (x in d.execs && d.execs[x].status == ExecCandidateReview ==>
                  && x in d1.execs && d1.execs[x].status == ExecFailed
                  && d1.execs[x].stage == Some("review_rejected")
                  && d1.execs[x].completedAt == if d.execs[x].completedAt.Some? then d.execs[x].completedAt
                                                else Some(now))
  {
  }

  /** A withdrawal ends that one review as asked. */
  lemma WithdrawalStores(d: Db, r: ReviewId, failed: bool, now: Time)
    requires r in d.reviews && d.reviews[r].status == ReviewPending
    ensures var d1, end := WithdrawDb(d, r, failed, now), if failed then ReviewFailed else ReviewSuperseded;
            && d1.reviews == d.reviews[r := d.reviews[r].(status := end)]
            && WithdrawalAnswer(d, r, end) == Ok(d1.reviews[r])
            && (forall l :: l in d1.links <==> l in d.links && l.snapshot != d.reviews[r].snapshot)
  {
    assert Reviewed(d, {r}) == {d.reviews[r].snapshot};
    DismissSettles(d, {r}, if failed then ReviewFailed else ReviewSuperseded, {d.reviews[r].snapshot}, now);
  }

  /** A new review replaces the pending reviews of its issue that are on another snapshot or
      have its reason: a sibling of another reason on its own snapshot stays. */
  lemma RaiseReplaces(d: Db, r: ReviewId, task: ReviewRow, now: Time, q: ReviewId)
    requires task.status == ReviewPending && r !in d.reviews && task.snapshot in d.snapshots && task.exec in d.execs
    requires q in d.reviews
    ensures var d1, row := RaiseDb(d, r, task, now), d.reviews[q];
            && r in d1.reviews && d1.reviews[r] == task
            && task.snapshot in d1.snapshots && d1.snapshots[task.snapshot] == d.snapshots[task.snapshot]
            && q in d1.reviews && d1.reviews[q] ==
               if row.status == ReviewPending && row.product == task.product && row.offering == task.offering
                  && row.issue == task.issue && (row.snapshot != task.snapshot || row.reason == task.reason)
               then row.(status := ReviewSuperseded) else row
  {
    RaiseAges(d, r, task, now);
  }

  /** An approval that accepts its snapshot supersedes, of the other pending reviews, exactly
      those of the offering's older snapshots. */
  lemma {:induction false} ApprovalSupersedes(d: Db, r: ReviewId, a: Approval, now: Time, q: ReviewId)
    requires LastApproval(d, r, a) && q in d.reviews && q != r && d.reviews[q].status == ReviewPending
    ensures var d1, s, t := ApproveDb(d, r, a, now), a.snapshot, d.reviews[q].snapshot;
            && q in d1.reviews
            && d1.reviews[q] ==
               if && t in d.snapshots && d.snapshots[t].scope == d.snapshots[s].scope
                  && d.snapshots[t].run in d.runs && d.snapshots[s].run in d.runs && !NotNewer(d, s, t)
               then d.reviews[q].(status := ReviewSuperseded) else d.reviews[q]
  {
    LastApprovalIff(d, r, a);
    var s, t, d1 := a.snapshot, d.reviews[q].snapshot, ApprovedDb(d, r, a);
    ActivatingLeaves(d1, s, now);
    var d2 := AcceptDb(ActivateDb(d1, s, now), s, now);
    SupersedeReviews(d2, s, now);
    SameRowsSameAge(d, d2, t, s);
    assert q in Moot(d2, s) <==> StrictlyOlder(d2, t, s);
  }

  lemma SameRowsSameAge(d: Db, d': Db, t: SnapshotId, s: SnapshotId)
    requires d'.runs == d.runs && d'.snapshots.Keys == d.snapshots.Keys && s in d.snapshots
    requires forall u :: u in d.snapshots ==>
               && d'.snapshots[u].run == d.snapshots[u].run && d'.snapshots[u].scope == d.snapshots[u].scope
               && d'.snapshots[u].createdAt == d.snapshots[u].createdAt
    ensures StrictlyOlder(d', t, s) <==>
              && t in d.snapshots && d.snapshots[t].scope == d.snapshots[s].scope
              && d.snapshots[t].run in d.runs && d.snapshots[s].run in d.runs && !NotNewer(d, s, t)
  {
  }

  // ---- a decision is final ------------------------------------------------

  lemma StepEndedStay(d: Db, e: Event)
    ensures EndedStay(d.reviews, Step(d, e).reviews)
  {
    if e.Raise? {
      RaiseMoves(d, e.review, e.task, e.now);
    } else {
      StepMovesReviews(d, e);
    }
  }

  /** A review that was decided, superseded or given up never changes again, whatever
      happens afterwards. */
  lemma {:induction false} EndedReviewIsFinal(d: Db, es: seq<Event>, r: ReviewId)
    requires r in d.reviews && d.reviews[r].status != ReviewPending
    ensures r in Run(d, es).reviews && Run(d, es).reviews[r] == d.reviews[r]
  {
    if es != [] {
      EndedReviewIsFinal(d, es[..|es| - 1], r);
      StepEndedStay(Run(d, es[..|es| - 1]), es[|es| - 1]);
    }
  }

  /** So an approval can be repeated at any later time: the same decision is answered with
      the review as stored, another one is refused, and neither changes a table. */
  lemma {:induction false} RepeatedApproval(d: Db, r: ReviewId, a: Approval, now: Time, es: seq<Event>, again: Approval,
                                            later: Time)
    requires r in d.reviews && d.reviews[r].status == ReviewPending && ApprovalAnswer(d, r, a).Ok?
    requires !again.decision.rejectsAll
    ensures var d1 := Run(Step(d, Event.Approve(r, a, now)), es);
            && ApproveDb(d1, r, again, later) == d1
            && ApprovalAnswer(d1, r, again) == if again.decision == a.decision then ApprovalAnswer(d, r, a)
                                               else Err(ReviewConflict)
  {
    ApprovalStores(d, r, a, now);
    EndedReviewIsFinal(ApproveDb(d, r, a, now), es, r);
  }

  /** And so can a rejection. */
  lemma {:induction false} RepeatedRejection(d: Db, r: ReviewId, now: Time, es: seq<Event>, later: Time)
    requires r in d.reviews && d.reviews[r].status == ReviewPending
    ensures var d1 := Run(Step(d, Event.Reject(r, now)), es);
            && RejectDb(d1, r, later) == d1 && RejectionAnswer(d1, r) == RejectionAnswer(d, r)
            && forall a :: ApproveDb(d1, r, a, later) == d1 && ApprovalAnswer(d1, r, a).Err?
  {
    RejectionStores(d, r, now);
    EndedReviewIsFinal(RejectDb(d, r, now), es, r);
  }
}
