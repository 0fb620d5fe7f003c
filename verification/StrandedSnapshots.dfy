/**
  Candidate snapshots nobody can review any more (app/repositories/review_supersession.py
  close_unreviewable_snapshots, app/repositories/reviews.py). Every dismissal closes the
  ones it leaves behind; an approval does not look.
 */
module StrandedSnapshots {
  import opened Schema
  import opened KnowledgePublication
  import opened ReviewSupersession
  import opened Publication
  import opened IndexInvariants
  import opened History
  import opened IndexHistory
  import opened ReviewHistory
  import opened SnapshotSets

  /** A snapshot waits for a review, none is pending, and one ended otherwise than approved:
      approving more will never resolve it, and its documents are gone. */
  ghost predicate Stranded(d: Db, s: SnapshotId) {
    Unreviewable(d, s) && Spoiled(d.reviews, s)
  }

  ghost predicate ReviewsPlaced(d: Db) {
    forall r :: r in d.reviews ==> d.reviews[r].snapshot in d.snapshots
  }

  ghost predicate NoneStranded(d: Db) {
    forall s :: s in d.snapshots ==> !Stranded(d, s)
  }

  ghost predicate OthersPending(d: Db, r: ReviewId, s: SnapshotId) {
    exists q :: q in d.reviews && q != r && d.reviews[q].snapshot == s && d.reviews[q].status.ReviewPending?
  }

  /** An approval strands its snapshot: a sibling already ended otherwise, and no other one
      is pending. */
  ghost predicate Strands(d: Db, e: Event) {
    e.Approve? && Approvable(d, e.review, e.approval)
    && Spoiled(d.reviews, e.approval.snapshot) && !OthersPending(d, e.review, e.approval.snapshot)
  }

  // ---- what strands nothing -----------------------------------------------

  /** A step that ends no review and leaves no new snapshot waiting. */
  ghost predicate SameWaiting(d: Db, d': Db) {
    && d'.reviews == d.reviews && d'.snapshots.Keys == d.snapshots.Keys
    && forall s :: s in d.snapshots && d'.snapshots[s].status.ReviewRequired? ==> d.snapshots[s].status.ReviewRequired?
  }

  lemma SameWaitingKeeps(d: Db, d': Db)
    requires SameWaiting(d, d') && NoneStranded(d)
    ensures NoneStranded(d')
  {
    forall s | s in d'.snapshots && Stranded(d', s) ensures Stranded(d, s) {
    }
  }

  /** Of the snapshots whose reviews a dismissal ends, only those it was not told to close
      can be left stranded. */
  lemma DismissStrands(d: Db, ids: set<ReviewId>, end: ReviewStatus, closing: set<SnapshotId>, now: Time, s: SnapshotId)
    requires NoneStranded(d) && s in d.snapshots
    requires s in Reviewed(d, ids) ==> s in closing
    ensures s in DismissDb(d, ids, end, closing, now).snapshots && !Stranded(DismissDb(d, ids, end, closing, now), s)
  {
    var d2 := DiscardAllDb(d.(reviews := Settle(d.reviews, ids, end)), Reviewed(d, ids));
    var d3 := DismissDb(d, ids, end, closing, now);
    CloseChanges(d2, closing, now);
    if s in Reviewed(d, ids) {
      if Unreviewable(d2, s) {
        assert s in ToClose(d2, closing);
      }
    } else if Stranded(d3, s) {
      UntouchedReviews(d, ids, end, s);
      assert Stranded(d, s);
    }
  }

  lemma UntouchedReviews(d: Db, ids: set<ReviewId>, end: ReviewStatus, s: SnapshotId)
    requires s !in Reviewed(d, ids)
    ensures forall r :: r in d.reviews && d.reviews[r].snapshot == s ==> Settle(d.reviews, ids, end)[r] == d.reviews[r]
    ensures Spoiled(Settle(d.reviews, ids, end), s) ==> Spoiled(d.reviews, s)
  {
    var after := Settle(d.reviews, ids, end);
    forall r | r in d.reviews && d.reviews[r].snapshot == s ensures after[r] == d.reviews[r] {
      var on := d.reviews[r].snapshot;
      assert r in ids ==> on in Reviewed(d, ids);
    }
    if Spoiled(after, s) {
      var r :| r in after && after[r].snapshot == s && EndedUnapproved(after[r]);
      assert EndedUnapproved(d.reviews[r]);
    }
  }

  lemma DismissKeepsNone(d: Db, ids: set<ReviewId>, end: ReviewStatus, now: Time)
    requires NoneStranded(d)
    ensures NoneStranded(DismissDb(d, ids, end, Reviewed(d, ids), now))
  {
    CloseChanges(DiscardAllDb(d.(reviews := Settle(d.reviews, ids, end)), Reviewed(d, ids)), Reviewed(d, ids), now);
    forall s | s in DismissDb(d, ids, end, Reviewed(d, ids), now).snapshots
      ensures !Stranded(DismissDb(d, ids, end, Reviewed(d, ids), now), s)
    {
      DismissStrands(d, ids, end, Reviewed(d, ids), now, s);
    }
  }

  lemma SupersedeKeepsNone(d: Db, s: SnapshotId, now: Time)
    requires NoneStranded(d)
    ensures NoneStranded(SupersedeDb(d, s, now))
  {
    DismissKeepsNone(d, Moot(d, s), ReviewSuperseded, now);
  }

  /** A new snapshot has no review yet. */
  lemma InsertKeepsNone(d: Db, i: Db, p: SnapshotId, row: SnapshotRow)
    requires NoneStranded(d) && ReviewsPlaced(d) && p !in d.snapshots
    requires i.reviews == d.reviews && i.snapshots == d.snapshots[p := row]
    ensures NoneStranded(i)
  {
    forall s | s in i.snapshots ensures !Stranded(i, s) {
      if s == p {
        assert !Spoiled(i.reviews, p);
      } else {
        assert !Stranded(d, s);
      }
    }
  }

  lemma PublishKeepsNone(d: Db, p: Request, now: Time)
    requires AllOk(d) && p.SameBank() && NoneStranded(d) && ReviewsPlaced(d)
    ensures NoneStranded(PublishDb(d, p, now))
  {
    if Publishable(d, p) {
      var i := IndexedDb(d, p, now);
      IndexKeeps(d, p, now);
      IndexingLeaves(d, p, now);
      InsertKeepsNone(d, i, p.snapshot, p.row);
      SupersedeKeepsNone(i, p.snapshot, now);
      SameWaitingKeeps(SupersedeDb(i, p.snapshot, now), PublishDb(d, p, now));
    }
  }

  lemma WithdrawKeepsNone(d: Db, r: ReviewId, failed: bool, now: Time)
    requires NoneStranded(d)
    ensures NoneStranded(WithdrawDb(d, r, failed, now))
  {
    if Decidable(d, r) {
      assert Reviewed(d, {r}) == {d.reviews[r].snapshot};
      DismissKeepsNone(d, {r}, if failed then ReviewFailed else ReviewSuperseded, now);
    }
  }

  /** The replaced reviews' snapshots are closed, but the new review's own, which waits for
      the new review. */
  lemma RaiseKeepsNone(d: Db, r: ReviewId, task: ReviewRow, now: Time)
    requires NoneStranded(d)
    ensures NoneStranded(RaiseDb(d, r, task, now))
  {
    if Raisable(d, r, task) {
      var ids := Replaced(d, task);
      var closing := Reviewed(d, ids) - {task.snapshot};
      var d1, d2 := DismissDb(d, ids, ReviewSuperseded, closing, now), RaiseDb(d, r, task, now);
      var ended := d.(reviews := Settle(d.reviews, ids, ReviewSuperseded));
      CloseChanges(DiscardAllDb(ended, Reviewed(d, ids)), closing, now);
      forall s | s in d2.snapshots ensures !Stranded(d2, s) {
        if s == task.snapshot {
          assert d2.reviews[r].status.ReviewPending?;
        } else {
          DismissStrands(d, ids, ReviewSuperseded, closing, now, s);
          AddedElsewhere(d1, d2, r, task, s);
        }
      }
    }
  }

  lemma AddedElsewhere(d: Db, d': Db, r: ReviewId, task: ReviewRow, s: SnapshotId)
    requires !Stranded(d, s) && r !in d.reviews && task.snapshot != s && d' == d.(reviews := d.reviews[r := task])
    ensures !Stranded(d', s)
  {
    if Stranded(d', s) {
      var q :| q in d'.reviews && d'.reviews[q].snapshot == s && EndedUnapproved(d'.reviews[q]);
      assert EndedUnapproved(d.reviews[q]);
      forall q | q in d.reviews && d.reviews[q].snapshot == s ensures !d.reviews[q].status.ReviewPending? {
        assert d'.reviews[q] == d.reviews[q];
      }
    }
  }

  lemma RejectKeepsNone(d: Db, r: ReviewId, now: Time)
    requires NoneStranded(d)
    ensures NoneStranded(RejectDb(d, r, now))
  {
    if Decidable(d, r) {
      var d1 := RejectDb(d, r, now);
      forall s | s in d1.snapshots && s != d.reviews[r].snapshot ensures !Stranded(d1, s) {
        OneReviewElsewhere(d, d1, r, s);
      }
    }
  }

  /** A decision on one snapshot's review leaves the reviews of another as they are. */
  lemma OneReviewElsewhere(d: Db, d': Db, r: ReviewId, s: SnapshotId)
    requires s in d.snapshots && !Stranded(d, s) && r in d.reviews && d.reviews[r].snapshot != s
    requires d'.reviews.Keys == d.reviews.Keys && d'.reviews[r].snapshot == d.reviews[r].snapshot
    requires forall q :: q in d.reviews && q != r ==> d'.reviews[q] == d.reviews[q]
    requires s in d'.snapshots && (d'.snapshots[s].status.ReviewRequired? ==> d.snapshots[s].status.ReviewRequired?)
    ensures !Stranded(d', s)
  {
    if Stranded(d', s) {
      var q :| q in d'.reviews && d'.reviews[q].snapshot == s && EndedUnapproved(d'.reviews[q]);
      assert EndedUnapproved(d.reviews[q]);
      forall q | q in d.reviews && d.reviews[q].snapshot == s ensures !d.reviews[q].status.ReviewPending? {
        assert d'.reviews[q] == d.reviews[q];
      }
    }
  }

  // ---- the approval -------------------------------------------------------

  lemma ApprovedSpoiled(d: Db, r: ReviewId, a: Approval)
    requires ApprovalFits(d, r, a)
    ensures Spoiled(ApprovedDb(d, r, a).reviews, a.snapshot) <==> Spoiled(d.reviews, a.snapshot)
  {
    var after := ApprovedDb(d, r, a).reviews;
    if Spoiled(d.reviews, a.snapshot) {
      var q :| q in d.reviews && d.reviews[q].snapshot == a.snapshot && EndedUnapproved(d.reviews[q]);
      assert EndedUnapproved(after[q]);
    }
    if Spoiled(after, a.snapshot) {
      var q :| q in after && after[q].snapshot == a.snapshot && EndedUnapproved(after[q]);
      assert EndedUnapproved(d.reviews[q]);
    }
  }

  lemma SpoiledNeverResolves(d: Db, s: SnapshotId)
    requires Spoiled(d.reviews, s)
    ensures !Resolved(d, s)
  {
  }

  lemma ApprovedUnreviewable(d: Db, r: ReviewId, a: Approval)
    requires ApprovalFits(d, r, a)
    ensures Unreviewable(ApprovedDb(d, r, a), a.snapshot) <==> !OthersPending(d, r, a.snapshot)
  {
    var d1 := ApprovedDb(d, r, a);
    if Unreviewable(d1, a.snapshot) {
      forall q | q in d.reviews && q != r && d.reviews[q].snapshot == a.snapshot
        ensures !d.reviews[q].status.ReviewPending?
      {
        assert d1.reviews[q] == d.reviews[q];
      }
    }
  }

  lemma ActivatedIsAccepted(d: Db, s: SnapshotId, x: ExecId, now: Time)
    requires Inv(d) && s in d.snapshots && d.snapshots[s].status.ReviewRequired? && Resolved(d, s)
    ensures var d1 := ActivateApprovedDb(d, s, x, now);
            s in d1.snapshots && d1.snapshots[s].status.Accepted?
  {
    var d1 := AcceptDb(ActivateDb(d, s, now), s, now);
    var ended := d1.(reviews := Settle(d1.reviews, Moot(d1, s), ReviewSuperseded));
    CloseChanges(DiscardAllDb(ended, Reviewed(d1, Moot(d1, s))), Reviewed(d1, Moot(d1, s)), now);
  }

  /** An approval leaves its own snapshot stranded exactly when a sibling review ended
      otherwise than approved and no other one is pending. */
  lemma ApprovalStrandsIff(d: Db, r: ReviewId, a: Approval, now: Time)
    requires AllOk(d) && Approvable(d, r, a)
    ensures Stranded(ApproveDb(d, r, a, now), a.snapshot) <==>
              Spoiled(d.reviews, a.snapshot) && !OthersPending(d, r, a.snapshot)
  {
    ApprovedSpoiled(d, r, a);
    ApprovedUnreviewable(d, r, a);
    if Spoiled(d.reviews, a.snapshot) {
      SpoiledNeverResolves(ApprovedDb(d, r, a), a.snapshot);
    } else if Activates(d, r, a) {
      ApprovedKeeps(d, r, a);
      ActivatedIsAccepted(ApprovedDb(d, r, a), a.snapshot, d.reviews[r].exec, now);
    }
  }

  lemma ActivateKeepsNone(d: Db, s: SnapshotId, x: ExecId, now: Time)
    requires AllOk(d) && NoneStranded(d)
    requires s in d.snapshots && d.snapshots[s].status.ReviewRequired? && Resolved(d, s)
    ensures NoneStranded(ActivateApprovedDb(d, s, x, now))
  {
    var d1 := AcceptDb(ActivateDb(d, s, now), s, now);
    SameWaitingKeeps(d, d1);
    SupersedeKeepsNone(d1, s, now);
    SameWaitingKeeps(SupersedeDb(d1, s, now), ActivateApprovedDb(d, s, x, now));
  }

  lemma ApprovedKeepsNone(d: Db, r: ReviewId, a: Approval)
    requires ApprovalFits(d, r, a) && NoneStranded(d)
    requires !(Spoiled(d.reviews, a.snapshot) && !OthersPending(d, r, a.snapshot))
    ensures NoneStranded(ApprovedDb(d, r, a))
  {
    var d1 := ApprovedDb(d, r, a);
    forall s | s in d1.snapshots ensures !Stranded(d1, s) {
      if s == a.snapshot {
        ApprovedSpoiled(d, r, a);
        ApprovedUnreviewable(d, r, a);
      } else {
        OneReviewElsewhere(d, d1, r, s);
      }
    }
  }

  lemma ApproveKeepsNone(d: Db, r: ReviewId, a: Approval, now: Time)
    requires AllOk(d) && NoneStranded(d) && !Strands(d, Event.Approve(r, a, now))
    ensures NoneStranded(ApproveDb(d, r, a, now))
  {
    if Approvable(d, r, a) {
      ApprovedKeepsNone(d, r, a);
      ApprovedKeeps(d, r, a);
      if Activates(d, r, a) {
        ActivateKeepsNone(ApprovedDb(d, r, a), a.snapshot, d.reviews[r].exec, now);
      }
    }
  }

  // ---- histories ----------------------------------------------------------

  lemma QueueKeepsNone(d: Db, e: Event)
    requires QueueStep(e) && NoneStranded(d)
    ensures NoneStranded(Step(d, e))
  {
    QueueStepLeaves(d, e);
    SameWaitingKeeps(d, Step(d, e));
  }

  lemma OtherKeepsNone(d: Db, e: Event)
    requires AllOk(d) && StepSound(d, e) && ReviewsPlaced(d) && NoneStranded(d) && !Strands(d, e)
    ensures NoneStranded(Step(d, e))
  {
    match e
    case Publish(p, now) => PublishKeepsNone(d, p, now);
    case Raise(r, task, now) => RaiseKeepsNone(d, r, task, now);
    case Approve(r, a, now) => ApproveKeepsNone(d, r, a, now);
    case Reject(r, now) => RejectKeepsNone(d, r, now);
    case Withdraw(r, failed, now) => WithdrawKeepsNone(d, r, failed, now);
    case _ => QueueKeepsNone(d, e);
  }

  /** One step leaves a snapshot stranded exactly when it is such an approval. */
  lemma StepStrandsIff(d: Db, e: Event)
    requires AllOk(d) && StepSound(d, e) && ReviewsPlaced(d) && NoneStranded(d)
    ensures NoneStranded(Step(d, e)) <==> !Strands(d, e)
  {
    if Strands(d, e) {
      ApprovalStrandsIff(d, e.review, e.approval, e.now);
      assert Stranded(Step(d, e), e.approval.snapshot);
    } else {
      OtherKeepsNone(d, e);
    }
  }

  /** No step but a raise adds a review or moves one to another snapshot, and an ended review
      never changes. */
  ghost predicate ReviewsMove(reviews: map<ReviewId, ReviewRow>, reviews': map<ReviewId, ReviewRow>) {
    && reviews'.Keys == reviews.Keys && EndedStay(reviews, reviews')
    && forall r :: r in reviews ==> reviews'[r].snapshot == reviews[r].snapshot
  }

  lemma MovesTwice(a: map<ReviewId, ReviewRow>, b: map<ReviewId, ReviewRow>, c: map<ReviewId, ReviewRow>)
    requires ReviewsMove(a, b) && ReviewsMove(b, c)
    ensures ReviewsMove(a, c)
  {
  }

  lemma SupersedeMoves(d: Db, s: SnapshotId, now: Time)
    ensures ReviewsMove(d.reviews, SupersedeDb(d, s, now).reviews)
  {
    SupersedeReviews(d, s, now);
  }

  lemma PublishMoves(d: Db, p: Request, now: Time)
    ensures ReviewsMove(d.reviews, PublishDb(d, p, now).reviews)
  {
    if Publishable(d, p) {
      var i := IndexedDb(d, p, now);
      IndexingLeaves(d, p, now);
      SupersedeMoves(i, p.snapshot, now);
      CompletingKeeps(SupersedeDb(i, p.snapshot, now), p.exec, PublicationStatus(p.row.status), now);
    }
  }

  lemma ApproveMoves(d: Db, r: ReviewId, a: Approval, now: Time)
    ensures ReviewsMove(d.reviews, ApproveDb(d, r, a, now).reviews)
  {
    if Approvable(d, r, a) {
      var d1 := ApprovedDb(d, r, a);
      assert ReviewsMove(d.reviews, d1.reviews);
      if Activates(d, r, a) {
        ActivatingLeaves(d1, a.snapshot, now);
        SupersedeMoves(AcceptDb(ActivateDb(d1, a.snapshot, now), a.snapshot, now), a.snapshot, now);
        MovesTwice(d.reviews, d1.reviews, ApproveDb(d, r, a, now).reviews);
      }
    }
  }

  lemma RejectMoves(d: Db, r: ReviewId, now: Time)
    ensures ReviewsMove(d.reviews, RejectDb(d, r, now).reviews)
  {
  }

  lemma SettleMoves(reviews: map<ReviewId, ReviewRow>, r: ReviewId, end: ReviewStatus)
    requires r in reviews && reviews[r].status.ReviewPending?
    ensures ReviewsMove(reviews, Settle(reviews, {r}, end))
  {
  }

  lemma DismissSettles(d: Db, ids: set<ReviewId>, end: ReviewStatus, closing: set<SnapshotId>, now: Time)
    ensures DismissDb(d, ids, end, closing, now).reviews == Settle(d.reviews, ids, end)
  {
  }

  lemma WithdrawMoves(d: Db, r: ReviewId, failed: bool, now: Time)
    ensures ReviewsMove(d.reviews, WithdrawDb(d, r, failed, now).reviews)
  {
    if Decidable(d, r) {
      var end := if failed then ReviewFailed else ReviewSuperseded;
      DismissSettles(d, {r}, end, {d.reviews[r].snapshot}, now);
      SettleMoves(d.reviews, r, end);
    }
  }

  lemma QueueMoves(d: Db, e: Event)
    requires QueueStep(e)
    ensures ReviewsMove(d.reviews, Step(d, e).reviews)
  {
    QueueStepLeaves(d, e);
  }

  lemma StepMovesReviews(d: Db, e: Event)
    requires !e.Raise?
    ensures ReviewsMove(d.reviews, Step(d, e).reviews)
  {
    if e.Publish? {
      PublishMoves(d, e.request, e.now);
    } else if e.Approve? {
      ApproveMoves(d, e.review, e.approval, e.now);
    } else if e.Reject? {
      RejectMoves(d, e.review, e.now);
    } else if e.Withdraw? {
      WithdrawMoves(d, e.review, e.failed, e.now);
    } else {
      QueueMoves(d, e);
    }
  }

  lemma RaiseMoves(d: Db, r: ReviewId, task: ReviewRow, now: Time)
    ensures EndedStay(d.reviews, RaiseDb(d, r, task, now).reviews)
    ensures ReviewsPlaced(d) ==> ReviewsPlaced(RaiseDb(d, r, task, now))
  {
    if Raisable(d, r, task) {
      RaiseAges(d, r, task, now);
    }
  }

  /** Snapshots are never deleted. */
  lemma StepKeepsSnapshots(d: Db, e: Event)
    requires AllOk(d) && StepSound(d, e)
    ensures d.snapshots.Keys <= Step(d, e).snapshots.Keys
  {
    if e.Publish? {
      if Publishable(d, e.request) {
        PublishAges(d, e.request, e.now);
      }
    } else if e.Raise? {
      if Raisable(d, e.review, e.task) {
        RaiseAges(d, e.review, e.task, e.now);
      }
    } else {
      OtherStepAges(d, e);
    }
  }

  lemma StepPlaces(d: Db, e: Event)
    requires AllOk(d) && StepSound(d, e) && ReviewsPlaced(d)
    ensures ReviewsPlaced(Step(d, e))
  {
    StepKeepsSnapshots(d, e);
    if e.Raise? {
      RaiseMoves(d, e.review, e.task, e.now);
    } else {
      StepMovesReviews(d, e);
    }
  }

  lemma {:induction false} ReviewsPlacedAlways(es: seq<Event>)
    requires Sound(EMPTY, es)
    ensures ReviewsPlaced(Run(EMPTY, es))
  {
    if es != [] {
      SoundBefore(EMPTY, es);
      ReviewsPlacedAlways(es[..|es| - 1]);
      InvariantsAlways(es[..|es| - 1]);
      StepPlaces(Run(EMPTY, es[..|es| - 1]), es[|es| - 1]);
    }
  }

  lemma SoundPrefix(es: seq<Event>, n: nat)
    requires n <= |es| && Sound(EMPTY, es)
    ensures Sound(EMPTY, es[..n])
  {
    forall i | 0 <= i < n ensures StepSound(Run(EMPTY, es[..n][..i]), es[..n][i]) {
      assert es[..n][..i] == es[..i];
    }
  }

  lemma PrefixStrandsIff(es: seq<Event>, i: nat)
    requires i < |es| && Sound(EMPTY, es) && NoneStranded(Run(EMPTY, es[..i]))
    ensures NoneStranded(Run(EMPTY, es[..i + 1])) <==> !Strands(Run(EMPTY, es[..i]), es[i])
  {
    SoundPrefix(es, i);
    InvariantsAlways(es[..i]);
    ReviewsPlacedAlways(es[..i]);
    assert es[..i + 1][..i] == es[..i];
    StepStrandsIff(Run(EMPTY, es[..i]), es[i]);
  }

  lemma {:induction false} UnstrandedThrough(es: seq<Event>, n: nat)
    requires n <= |es| && Sound(EMPTY, es)
    requires forall i :: 0 <= i < n ==> !Strands(Run(EMPTY, es[..i]), es[i])
    ensures NoneStranded(Run(EMPTY, es[..n]))
  {
    if n > 0 {
      UnstrandedThrough(es, n - 1);
      PrefixStrandsIff(es, n - 1);
    }
  }

  /** A history never leaves a snapshot stranded exactly when it holds no approval of a review
      one of whose siblings ended otherwise while no other is pending. */
  lemma {:induction false} NeverStrandedIff(es: seq<Event>)
    requires Sound(EMPTY, es)
    ensures (forall n :: 0 <= n <= |es| ==> NoneStranded(Run(EMPTY, es[..n])))
            <==> forall i :: 0 <= i < |es| ==> !Strands(Run(EMPTY, es[..i]), es[i])
  {
    if forall i :: 0 <= i < |es| ==> !Strands(Run(EMPTY, es[..i]), es[i]) {
      forall n | 0 <= n <= |es| ensures NoneStranded(Run(EMPTY, es[..n])) {
        UnstrandedThrough(es, n);
      }
    }
    if forall n :: 0 <= n <= |es| ==> NoneStranded(Run(EMPTY, es[..n])) {
      forall i | 0 <= i < |es| ensures !Strands(Run(EMPTY, es[..i]), es[i]) {
        assert NoneStranded(Run(EMPTY, es[..i])) && NoneStranded(Run(EMPTY, es[..i + 1]));
        PrefixStrandsIff(es, i);
      }
    }
  }

  // ---- it is never accepted -----------------------------------------------

  ghost predicate Hopeless(d: Db, s: SnapshotId) {
    s in d.snapshots && !d.snapshots[s].status.Accepted? && Spoiled(d.reviews, s)
  }

  lemma DismissAccepts(d: Db, ids: set<ReviewId>, end: ReviewStatus, closing: set<SnapshotId>, now: Time, s: SnapshotId)
    requires s in d.snapshots && !d.snapshots[s].status.Accepted?
    ensures var d1 := DismissDb(d, ids, end, closing, now);
            s in d1.snapshots && !d1.snapshots[s].status.Accepted?
  {
    CloseChanges(DiscardAllDb(d.(reviews := Settle(d.reviews, ids, end)), Reviewed(d, ids)), closing, now);
  }

  lemma PublishAccepts(d: Db, p: Request, now: Time, s: SnapshotId)
    requires AllOk(d) && p.SameBank() && s in d.snapshots && !d.snapshots[s].status.Accepted?
    ensures s in PublishDb(d, p, now).snapshots && !PublishDb(d, p, now).snapshots[s].status.Accepted?
  {
    if Publishable(d, p) {
      var i := IndexedDb(d, p, now);
      IndexKeeps(d, p, now);
      DismissAccepts(i, Moot(i, p.snapshot), ReviewSuperseded, Reviewed(i, Moot(i, p.snapshot)), now, s);
      CompletingKeeps(SupersedeDb(i, p.snapshot, now), p.exec, PublicationStatus(p.row.status), now);
    }
  }

  lemma ApproveAccepts(d: Db, r: ReviewId, a: Approval, now: Time, s: SnapshotId)
    requires Hopeless(d, s)
    ensures s in ApproveDb(d, r, a, now).snapshots && !ApproveDb(d, r, a, now).snapshots[s].status.Accepted?
  {
    if Approvable(d, r, a) && Activates(d, r, a) {
      var d1 := ApprovedDb(d, r, a);
      assert ReviewsMove(d.reviews, d1.reviews);
      SpoiledStays(d.reviews, d1.reviews, s);
      SpoiledNeverResolves(d1, s);
      var d2 := AcceptDb(ActivateDb(d1, a.snapshot, now), a.snapshot, now);
      DismissAccepts(d2, Moot(d2, a.snapshot), ReviewSuperseded, Reviewed(d2, Moot(d2, a.snapshot)), now, s);
    }
  }

  lemma RaiseAccepts(d: Db, r: ReviewId, task: ReviewRow, now: Time, s: SnapshotId)
    requires s in d.snapshots && !d.snapshots[s].status.Accepted?
    ensures s in RaiseDb(d, r, task, now).snapshots && !RaiseDb(d, r, task, now).snapshots[s].status.Accepted?
  {
    var ids := Replaced(d, task);
    DismissAccepts(d, ids, ReviewSuperseded, Reviewed(d, ids) - {task.snapshot}, now, s);
  }

  lemma WithdrawAccepts(d: Db, r: ReviewId, failed: bool, now: Time, s: SnapshotId)
    requires s in d.snapshots && !d.snapshots[s].status.Accepted?
    ensures s in WithdrawDb(d, r, failed, now).snapshots && !WithdrawDb(d, r, failed, now).snapshots[s].status.Accepted?
  {
    if Decidable(d, r) {
      DismissAccepts(d, {r}, if failed then ReviewFailed else ReviewSuperseded, {d.reviews[r].snapshot}, now, s);
    }
  }

  lemma OtherAccepts(d: Db, e: Event, s: SnapshotId)
    requires e.Raise? || e.Reject? || e.Withdraw? || QueueStep(e)
    requires s in d.snapshots && !d.snapshots[s].status.Accepted?
    ensures s in Step(d, e).snapshots && !Step(d, e).snapshots[s].status.Accepted?
  {
    match e
    case Raise(r, task, now) => RaiseAccepts(d, r, task, now, s);
    case Withdraw(r, failed, now) => WithdrawAccepts(d, r, failed, now, s);
    case Reject(r, now) => assert s in RejectDb(d, r, now).snapshots;
    case _ => QueueStepLeaves(d, e);
  }

  lemma StepHopeless(d: Db, e: Event, s: SnapshotId)
    requires AllOk(d) && StepSound(d, e) && Hopeless(d, s)
    ensures Hopeless(Step(d, e), s)
  {
    if e.Publish? {
      PublishAccepts(d, e.request, e.now, s);
    } else if e.Approve? {
      ApproveAccepts(d, e.review, e.approval, e.now, s);
    } else {
      OtherAccepts(d, e, s);
    }
    if e.Raise? {
      RaiseMoves(d, e.review, e.task, e.now);
    } else {
      StepMovesReviews(d, e);
    }
    SpoiledStays(d.reviews, Step(d, e).reviews, s);
  }

  lemma {:induction false} HopelessForGood(es: seq<Event>, more: seq<Event>, s: SnapshotId)
    requires Sound(EMPTY, es + more) && Hopeless(Run(EMPTY, es), s)
    ensures Hopeless(Run(EMPTY, es + more), s)
  {
    if more == [] {
      assert es + more == es;
    } else {
      var before, last := es + more[..|more| - 1], more[|more| - 1];
      assert es + more == before + [last];
      assert (es + more)[..|before|] == before;
      SoundPrefix(es + more, |before|);
      HopelessForGood(es, more[..|more| - 1], s);
      InvariantsAlways(before);
      assert StepSound(Run(EMPTY, before), (es + more)[|before|]);
      StepHopeless(Run(EMPTY, before), last, s);
      RunOne(EMPTY, before, last);
    }
  }

  /** A stranded snapshot is never accepted, in any continuation, whatever is approved. */
  lemma {:induction false} StrandedIsForGood(es: seq<Event>, more: seq<Event>, s: SnapshotId)
    requires Sound(EMPTY, es + more) && Stranded(Run(EMPTY, es), s)
    ensures var d := Run(EMPTY, es + more);
            s in d.snapshots && !d.snapshots[s].status.Accepted? && Spoiled(d.reviews, s)
  {
    HopelessForGood(es, more, s);
  }
}
