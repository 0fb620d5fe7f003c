/**
  Supersession against the approval guard: which pending reviews a publication closes,
  which ones the guard refuses afterwards, and where pending reviews can be.
 */
module ReviewHistory {
  import opened Wrappers
  import opened Schema
  import opened KnowledgePublication
  import opened ReviewSupersession
  import opened Publication
  import opened IndexInvariants
  import opened History
  import opened IndexHistory

  // ---- one publication ----------------------------------------------------

  /** Ages are fixed: supersession compares snapshots as any later reader would. */
  lemma AgesKept(d: Db, d': Db, a: SnapshotId, b: SnapshotId)
    requires SameSnapshots(d, d') && d'.runs == d.runs
    requires forall s :: s in d.snapshots ==> d'.snapshots[s].createdAt == d.snapshots[s].createdAt
    ensures StrictlyOlder(d', a, b) <==> StrictlyOlder(d, a, b)
  {
  }

  lemma SupersedeReviews(d: Db, s: SnapshotId, now: Time)
    ensures var d1 := SupersedeDb(d, s, now);
            && d1.reviews == Settle(d.reviews, Moot(d, s), ReviewSuperseded)
            && d1.runs == d.runs && SameSnapshots(d, d1)
            && (forall t :: t in d.snapshots ==> d1.snapshots[t].createdAt == d.snapshots[t].createdAt)
  {
    var ids := Moot(d, s);
    CloseChanges(DiscardAllDb(d.(reviews := Settle(d.reviews, ids, ReviewSuperseded)), Reviewed(d, ids)),
                 Reviewed(d, ids), now);
  }

  /** A snapshot whose reviews were superseded has no pending review left, and is closed
      with its waiting execution. */
  lemma SupersededIsClosed(d: Db, s: SnapshotId, now: Time, t: SnapshotId)
    requires t in Reviewed(d, Moot(d, s)) && t in d.snapshots && d.snapshots[t].status.ReviewRequired?
    ensures var d1, x := SupersedeDb(d, s, now), d.snapshots[t].exec;
            && t in d1.snapshots && d1.snapshots[t].status.Rejected?
            && (x in d.execs && d.execs[x].status.ExecCandidateReview? ==>
                  x in d1.execs && d1.execs[x].status.ExecFailed? && d1.execs[x].stage == Some(REVIEW_SUPERSEDED))
  {
    var ids := Moot(d, s);
    var older := Reviewed(d, ids);
    var d2 := DiscardAllDb(d.(reviews := Settle(d.reviews, ids, ReviewSuperseded)), older);
    var m :| m in ids && m in d.reviews && d.reviews[m].snapshot == t;
    forall r | r in d2.reviews && d2.reviews[r].snapshot == t ensures !d2.reviews[r].status.ReviewPending? {
      assert r in ids || !d.reviews[r].status.ReviewPending?;
    }
    assert t in ToClose(d2, older);
    assert d.snapshots[t].exec in ExecsOf(d2.snapshots, ToClose(d2, older));
  }

  lemma CompletingKeeps(d: Db, x: ExecId, status: ExecStatus, now: Time)
    ensures var d1 := CompletedDb(d, x, status, now);
            && d1.reviews == d.reviews && d1.snapshots == d.snapshots && d1.runs == d.runs
            && forall y :: y in d.execs && y != x ==> y in d1.execs && d1.execs[y] == d.execs[y]
  {
  }

  /** What publishing a snapshot does to a pending review of any offering: it is
      superseded iff its snapshot is strictly older, and then that snapshot, if it was
      still review_required, ends rejected and its waiting execution failed. */
  lemma {:induction false} SupersedesStrictlyOlder(d: Db, p: Request, now: Time, r: ReviewId)
    requires AllOk(d) && Publishable(d, p) && p.SameBank()
    requires r in d.reviews && d.reviews[r].status.ReviewPending?
    ensures var d1, s := PublishDb(d, p, now), d.reviews[r].snapshot;
            && r in d1.reviews && s in d1.snapshots
            && (d1.reviews[r].status == if StrictlyOlder(d1, s, p.snapshot) then ReviewSuperseded else ReviewPending)
            && (d1.reviews[r].status.ReviewSuperseded? && d.snapshots[s].status.ReviewRequired? ==>
                  && d1.snapshots[s].status.Rejected?
                  && d.snapshots[s].exec in d.execs && d.snapshots[s].exec in d1.execs
                  && (d.execs[d.snapshots[s].exec].status.ExecCandidateReview? ==>
                        d1.execs[d.snapshots[s].exec].status.ExecFailed?))
  {
    IndexKeeps(d, p, now);
    IndexingLeaves(d, p, now);
    var i, d1, s := IndexedDb(d, p, now), PublishDb(d, p, now), d.reviews[r].snapshot;
    SupersedeReviews(i, p.snapshot, now);
    CompletingKeeps(SupersedeDb(IndexedDb(d, p, now), p.snapshot, now), p.exec, PublicationStatus(p.row.status), now);
    AgesKept(i, d1, s, p.snapshot);
    assert i.snapshots[s] == d.snapshots[s];
    if r in Moot(i, p.snapshot) && i.snapshots[s].status.ReviewRequired? {
      assert s in Reviewed(i, Moot(i, p.snapshot));
      SupersededIsClosed(i, p.snapshot, now, s);
    }
    assert d.snapshots[s].exec != p.exec;
  }

  /** The same in columns: a pending review is superseded exactly when its snapshot is of
      the published one's offering and was created before it, or at once with it by a run
      queued earlier. */
  lemma {:induction false} SupersededIff(d: Db, p: Request, now: Time, r: ReviewId)
    requires AllOk(d) && Publishable(d, p) && p.SameBank()
    requires r in d.reviews && d.reviews[r].status == ReviewPending
    ensures var d1, s := PublishDb(d, p, now), d.reviews[r].snapshot;
            && r in d1.reviews && s in d.snapshots && d.snapshots[s].run in d.runs && p.row.run in d.runs
            && (d1.reviews[r].status == ReviewSuperseded <==>
                  && d.snapshots[s].scope == p.row.scope && d.snapshots[s].createdAt <= p.row.createdAt
                  && (d.snapshots[s].createdAt == p.row.createdAt ==>
                        d.runs[d.snapshots[s].run].queuedAt < d.runs[p.row.run].queuedAt))
            && (d1.reviews[r].status != ReviewSuperseded ==> d1.reviews[r] == d.reviews[r])
  {
    IndexKeeps(d, p, now);
    IndexingLeaves(d, p, now);
    var i, s := IndexedDb(d, p, now), d.reviews[r].snapshot;
    RunExists(d, p);
    SupersedeReviews(i, p.snapshot, now);
    CompletingKeeps(SupersedeDb(i, p.snapshot, now), p.exec, PublicationStatus(p.row.status), now);
    InsertedOlderIff(d, i, p, s);
    assert r in Moot(i, p.snapshot) <==> StrictlyOlder(i, s, p.snapshot);
  }

  lemma InsertedOlderIff(d: Db, i: Db, p: Request, s: SnapshotId)
    requires Dated(d, s) && p.snapshot !in d.snapshots && p.row.run in d.runs
    requires i.snapshots == d.snapshots[p.snapshot := p.row] && i.runs == d.runs
    ensures StrictlyOlder(i, s, p.snapshot) <==>
              && d.snapshots[s].scope == p.row.scope && d.snapshots[s].createdAt <= p.row.createdAt
              && (d.snapshots[s].createdAt == p.row.createdAt ==>
                    d.runs[d.snapshots[s].run].queuedAt < d.runs[p.row.run].queuedAt)
  {
  }

  // ---- the approval guard after a publication -----------------------------

  /** The same snapshots with the same ages, and the same ones accepted. */
  ghost predicate SameAccepted(d: Db, d': Db) {
    && d'.snapshots.Keys == d.snapshots.Keys && SameAges(d, d')
    && forall t :: t in d.snapshots ==> (d'.snapshots[t].status.Accepted? <==> d.snapshots[t].status.Accepted?)
  }

  lemma SupersedingKeepsAccepted(d: Db, s: SnapshotId, now: Time)
    requires Inv(d)
    ensures SameAccepted(d, SupersedeDb(d, s, now))
  {
    var ids := Moot(d, s);
    CloseChanges(DiscardAllDb(d.(reviews := Settle(d.reviews, ids, ReviewSuperseded)), Reviewed(d, ids)),
                 Reviewed(d, ids), now);
  }

  lemma PublishingKeepsAccepted(d: Db, p: Request, now: Time)
    requires AllOk(d) && Publishable(d, p) && p.SameBank()
    ensures SameAccepted(IndexedDb(d, p, now), PublishDb(d, p, now))
    ensures var i := IndexedDb(d, p, now);
            Inv(i) && SameAges(d, i) && p.snapshot !in d.snapshots && i.snapshots == d.snapshots[p.snapshot := p.row]
  {
    IndexAges(d, p, now);
    IndexKeeps(d, p, now);
    SupersedingKeepsAccepted(IndexedDb(d, p, now), p.snapshot, now);
    CompletingKeeps(SupersedeDb(IndexedDb(d, p, now), p.snapshot, now), p.exec, PublicationStatus(p.row.status), now);
  }

  lemma SameGuard(d: Db, d': Db, s: SnapshotId)
    requires SnapshotsOk(d) && SameAccepted(d, d') && s in d.snapshots
    ensures NewerAcceptedSnapshotExists(d', s) <==> NewerAcceptedSnapshotExists(d, s)
  {
    forall t | t in d.snapshots ensures NewerAccepted(d', s, t) <==> NewerAccepted(d, s, t) {
      OlderKept(d, d', s, t);
    }
  }

  lemma GuardAfterInsert(d: Db, d': Db, p: SnapshotId, row: SnapshotRow, s: SnapshotId)
    requires SnapshotsOk(d) && SameAges(d, d') && p !in d.snapshots && d'.snapshots == d.snapshots[p := row]
    requires s in d.snapshots
    ensures NewerAcceptedSnapshotExists(d', s) <==>
              (row.status.Accepted? && StrictlyOlder(d', s, p)) || NewerAcceptedSnapshotExists(d, s)
  {
    forall t | t in d.snapshots ensures NewerAccepted(d', s, t) <==> NewerAccepted(d, s, t) {
      OlderKept(d, d', s, t);
    }
    assert NewerAccepted(d', s, p) <==> row.status.Accepted? && StrictlyOlder(d', s, p);
  }

  /** Whom the approval guard refuses once a snapshot is published, accepted or not: the
      strictly older ones if it is accepted, and those it refused already. */
  lemma GuardAfterPublishing(d: Db, p: Request, now: Time, s: SnapshotId)
    requires AllOk(d) && Publishable(d, p) && p.SameBank() && s in d.snapshots
    ensures var d1 := PublishDb(d, p, now);
            NewerAcceptedSnapshotExists(d1, s) <==>
              (p.row.status.Accepted? && StrictlyOlder(d1, s, p.snapshot)) || NewerAcceptedSnapshotExists(d, s)
  {
    PublishingKeepsAccepted(d, p, now);
    var i := IndexedDb(d, p, now);
    GuardAfterInsert(d, i, p.snapshot, p.row, s);
    SameGuard(i, PublishDb(d, p, now), s);
    OlderKept(i, PublishDb(d, p, now), s, p.snapshot);
  }

  /** Supersession against the guard. The reason it records, a newer accepted snapshot, is
      true of a superseded review iff the published snapshot is accepted or a newer one
      was accepted already. A review that stays pending is refused by the guard iff it was
      refused before. */
  lemma {:induction false} SupersessionMatchesGuard(d: Db, p: Request, now: Time, r: ReviewId)
    requires AllOk(d) && Publishable(d, p) && p.SameBank()
    requires r in d.reviews && d.reviews[r].status.ReviewPending?
    ensures var d1, s := PublishDb(d, p, now), d.reviews[r].snapshot;
            && r in d1.reviews
            && (d1.reviews[r].status.ReviewSuperseded? ==>
                  (NewerAcceptedSnapshotExists(d1, s) <==> p.row.status.Accepted? || NewerAcceptedSnapshotExists(d, s)))
            && (d1.reviews[r].status.ReviewPending? ==>
                  (NewerAcceptedSnapshotExists(d1, s) <==> NewerAcceptedSnapshotExists(d, s)))
  {
    SupersedesStrictlyOlder(d, p, now, r);
    GuardAfterPublishing(d, p, now, d.reviews[r].snapshot);
  }

  // ---- histories ----------------------------------------------------------

  /** The offering's snapshots never tie. */
  ghost predicate NeverTie(d: Db) {
    forall s, t :: s in d.snapshots && t in d.snapshots && s != t && d.snapshots[s].scope == d.snapshots[t].scope ==>
      StrictlyOlder(d, s, t) || StrictlyOlder(d, t, s)
  }

  ghost predicate IsNewest(d: Db, s: SnapshotId) {
    s in d.snapshots && forall t :: t in d.snapshots ==> !StrictlyOlder(d, s, t)
  }

  ghost predicate PendingOnNewest(d: Db) {
    forall r :: r in d.reviews && d.reviews[r].status.ReviewPending? ==> IsNewest(d, d.reviews[r].snapshot)
  }

  /** Publications come in increasing (created_at, queued_at) order within an offering,
      and reviews are raised before the next one. */
  ghost predicate StepTimely(d: Db, e: Event) {
    match e
    case Publish(p, now) =>
      Publishable(d, p) ==> forall t :: t in d.snapshots && d.snapshots[t].scope == p.row.scope ==>
        StrictlyOlder(PublishDb(d, p, now), t, p.snapshot)
    case Raise(r, task, now) => task.snapshot in d.snapshots ==> IsNewest(d, task.snapshot)
    case _ => true
  }

  ghost predicate Timely(d: Db, es: seq<Event>) {
    forall i :: 0 <= i < |es| ==> StepTimely(Run(d, es[..i]), es[i])
  }

  /** Snapshots keep what dates them. */
  ghost predicate SameAges(d: Db, d': Db) {
    forall s :: s in d.snapshots && Dated(d, s) ==>
      Dated(d', s) && d'.snapshots[s].scope == d.snapshots[s].scope
      && d'.snapshots[s].createdAt == d.snapshots[s].createdAt
      && d'.runs[d'.snapshots[s].run].queuedAt == d.runs[d.snapshots[s].run].queuedAt
  }

  /** No pending review appears, and those that remain are unchanged. */
  ghost predicate FewerPending(d: Db, d': Db) {
    d'.reviews.Keys == d.reviews.Keys
    && forall r :: r in d'.reviews && d'.reviews[r].status.ReviewPending? ==> d'.reviews[r] == d.reviews[r]
  }

  /** A step that adds no snapshot and no pending review. */
  ghost predicate OnlyAges(d: Db, d': Db) {
    SameAges(d, d') && d'.snapshots.Keys == d.snapshots.Keys && FewerPending(d, d')
  }

  lemma QueueAges(d: Db, d': Db, now: Time)
    requires d' == d.(runs := d'.runs, execs := d'.execs) && RunsMove(d.runs, d'.runs, now)
    ensures OnlyAges(d, d')
  {
  }

  lemma QueueStepAges(d: Db, e: Event)
    requires QueueStep(e)
    ensures OnlyAges(d, Step(d, e))
  {
    QueueStepLeaves(d, e);
    StepMovesRuns(d, e);
    QueueAges(d, Step(d, e), e.now);
  }

  lemma DismissAges(d: Db, ids: set<ReviewId>, end: ReviewStatus, closing: set<SnapshotId>, now: Time)
    requires !end.ReviewPending?
    ensures OnlyAges(d, DismissDb(d, ids, end, closing, now))
  {
    CloseChanges(DiscardAllDb(d.(reviews := Settle(d.reviews, ids, end)), Reviewed(d, ids)), closing, now);
  }

  lemma WithdrawAges(d: Db, r: ReviewId, failed: bool, now: Time)
    ensures OnlyAges(d, WithdrawDb(d, r, failed, now))
  {
    if Decidable(d, r) {
      DismissAges(d, {r}, if failed then ReviewFailed else ReviewSuperseded, {d.reviews[r].snapshot}, now);
    }
  }

  lemma RejectAges(d: Db, r: ReviewId, now: Time)
    ensures OnlyAges(d, RejectDb(d, r, now))
  {
  }

  /** The new review is the only one that a raise adds. */
  lemma RaiseAges(d: Db, r: ReviewId, task: ReviewRow, now: Time)
    requires Raisable(d, r, task)
    ensures var d1, ids := RaiseDb(d, r, task, now), Replaced(d, task);
            && SameAges(d, d1) && d1.snapshots.Keys == d.snapshots.Keys
            && d1.reviews == Settle(d.reviews, ids, ReviewSuperseded)[r := task]
  {
    var ids := Replaced(d, task);
    DismissAges(d, ids, ReviewSuperseded, Reviewed(d, ids) - {task.snapshot}, now);
  }

  lemma SupersedeAges(d: Db, s: SnapshotId, now: Time)
    requires Inv(d)
    ensures var d1 := SupersedeDb(d, s, now);
            && SameAges(d, d1) && d1.snapshots.Keys == d.snapshots.Keys && FewerPending(d, d1)
            && forall r :: r in d1.reviews && d1.reviews[r].status.ReviewPending? ==>
                 !StrictlyOlder(d, d1.reviews[r].snapshot, s)
  {
    SupersedeReviews(d, s, now);
  }

  lemma ActivateApprovedAges(d: Db, s: SnapshotId, x: ExecId, now: Time)
    requires Inv(d) && s in d.snapshots && d.snapshots[s].status.ReviewRequired? && Resolved(d, s)
    ensures OnlyAges(d, ActivateApprovedDb(d, s, x, now))
  {
    ActivateKeepsInv(d, s, now);
    var d1 := ActivateDb(d, s, now);
    AcceptKeeps(d1, s, now);
    var d2 := AcceptDb(d1, s, now);
    assert OnlyAges(d, d2);
    SupersedeAges(d2, s, now);
  }

  lemma ApproveAges(d: Db, r: ReviewId, a: Approval, now: Time)
    requires AllOk(d)
    ensures OnlyAges(d, ApproveDb(d, r, a, now))
  {
    if Approvable(d, r, a) {
      var d1 := ApprovedDb(d, r, a);
      ApprovedKeeps(d, r, a);
      assert OnlyAges(d, d1);
      if Activates(d, r, a) {
        ActivateApprovedAges(d1, a.snapshot, d.reviews[r].exec, now);
        AgesTwice(d, d1, ApproveDb(d, r, a, now));
      }
    }
  }

  lemma AgesTwice(a: Db, b: Db, c: Db)
    requires OnlyAges(a, b) && OnlyAges(b, c)
    ensures OnlyAges(a, c)
  {
  }

  lemma IndexAges(d: Db, p: Request, now: Time)
    requires AllOk(d) && Publishable(d, p) && p.SameBank()
    ensures var i := IndexedDb(d, p, now);
            && Inv(i) && SameAges(d, i) && i.reviews == d.reviews && i.snapshots.Keys == d.snapshots.Keys + {p.snapshot}
            && i.snapshots[p.snapshot].scope == p.row.scope
  {
    IndexKeeps(d, p, now);
    StoreAllLeaves(d, p.documents, now);
  }

  lemma PublishAges(d: Db, p: Request, now: Time)
    requires AllOk(d) && Publishable(d, p) && p.SameBank()
    ensures var d1 := PublishDb(d, p, now);
            && SameAges(d, d1) && d1.snapshots.Keys == d.snapshots.Keys + {p.snapshot} && FewerPending(d, d1)
            && d1.snapshots[p.snapshot].scope == p.row.scope
            && forall r :: r in d1.reviews && d1.reviews[r].status.ReviewPending? ==>
                 !StrictlyOlder(d1, d1.reviews[r].snapshot, p.snapshot)
  {
    IndexAges(d, p, now);
    SupersedeAges(IndexedDb(d, p, now), p.snapshot, now);
    CompletingKeeps(SupersedeDb(IndexedDb(d, p, now), p.snapshot, now), p.exec, PublicationStatus(p.row.status), now);
    AgesOfPending(IndexedDb(d, p, now), PublishDb(d, p, now), p.snapshot);
  }

  lemma AgesOfPending(i: Db, d': Db, s: SnapshotId)
    requires Inv(i) && SameAges(i, d') && d'.snapshots.Keys == i.snapshots.Keys && s in i.snapshots
    requires forall r :: r in d'.reviews && d'.reviews[r].status.ReviewPending? ==>
             !StrictlyOlder(i, d'.reviews[r].snapshot, s)
    ensures forall r :: r in d'.reviews && d'.reviews[r].status.ReviewPending? ==>
            !StrictlyOlder(d', d'.reviews[r].snapshot, s)
  {
    forall r | r in d'.reviews && d'.reviews[r].status.ReviewPending?
      ensures !StrictlyOlder(d', d'.reviews[r].snapshot, s)
    {
      if d'.reviews[r].snapshot in i.snapshots {
        OlderKept(i, d', d'.reviews[r].snapshot, s);
      }
    }
  }

  lemma OlderKept(d: Db, d': Db, a: SnapshotId, b: SnapshotId)
    requires SnapshotsOk(d) && SameAges(d, d') && a in d.snapshots && b in d.snapshots
    ensures StrictlyOlder(d', a, b) <==> StrictlyOlder(d, a, b)
  {
  }

  /** Every step but a publication and a raise. */
  lemma OtherStepAges(d: Db, e: Event)
    requires AllOk(d) && !e.Publish? && !e.Raise?
    ensures OnlyAges(d, Step(d, e))
  {
    match e
    case Approve(r, a, now) => ApproveAges(d, r, a, now);
    case Reject(r, now) => RejectAges(d, r, now);
    case Withdraw(r, failed, now) => WithdrawAges(d, r, failed, now);
    case _ => QueueStepAges(d, e);
  }

  lemma RaiseKeepsPending(d: Db, r: ReviewId, task: ReviewRow, now: Time)
    requires SnapshotsOk(d) && NeverTie(d) && PendingOnNewest(d)
    requires task.snapshot in d.snapshots ==> IsNewest(d, task.snapshot)
    ensures NeverTie(RaiseDb(d, r, task, now)) && PendingOnNewest(RaiseDb(d, r, task, now))
  {
    if Raisable(d, r, task) {
      RaiseAges(d, r, task, now);
      OlderPending(d, RaiseDb(d, r, task, now));
    }
  }

  lemma PublishKeepsPending(d: Db, p: Request, now: Time)
    requires AllOk(d) && p.SameBank() && StepTimely(d, Event.Publish(p, now))
    requires NeverTie(d) && PendingOnNewest(d)
    ensures NeverTie(PublishDb(d, p, now)) && PendingOnNewest(PublishDb(d, p, now))
  {
    if Publishable(d, p) {
      PublishAges(d, p, now);
      PublishedPending(d, PublishDb(d, p, now), p.snapshot);
    }
  }

  lemma StepKeepsPending(d: Db, e: Event)
    requires AllOk(d) && StepSound(d, e) && StepTimely(d, e)
    requires NeverTie(d) && PendingOnNewest(d)
    ensures NeverTie(Step(d, e)) && PendingOnNewest(Step(d, e))
  {
    if e.Publish? {
      PublishKeepsPending(d, e.request, e.now);
    } else if e.Raise? {
      RaiseKeepsPending(d, e.review, e.task, e.now);
    } else {
      OtherStepAges(d, e);
      OlderPending(d, Step(d, e));
    }
  }

  /** Without a new snapshot pending reviews stay on the newest one. */
  lemma OlderPending(d: Db, d': Db)
    requires SnapshotsOk(d) && SameAges(d, d') && d'.snapshots.Keys == d.snapshots.Keys
    requires NeverTie(d) && PendingOnNewest(d)
    requires forall r :: r in d'.reviews && d'.reviews[r].status.ReviewPending? ==>
               (r in d.reviews && d'.reviews[r] == d.reviews[r]) || IsNewest(d, d'.reviews[r].snapshot)
    ensures NeverTie(d') && PendingOnNewest(d')
  {
    forall s, t | s in d.snapshots && t in d.snapshots ensures StrictlyOlder(d', s, t) <==> StrictlyOlder(d, s, t) {
      OlderKept(d, d', s, t);
    }
  }

  /** A new newest snapshot leaves pending reviews of its offering on itself only: the
      older ones were superseded. */
  lemma PublishedPending(d: Db, d': Db, s: SnapshotId)
    requires SnapshotsOk(d) && SameAges(d, d') && d'.snapshots.Keys == d.snapshots.Keys + {s}
    requires NeverTie(d) && PendingOnNewest(d)
    requires forall t :: t in d.snapshots && d.snapshots[t].scope == d'.snapshots[s].scope ==> StrictlyOlder(d', t, s)
    requires FewerPending(d, d')
    requires forall r :: r in d'.reviews && d'.reviews[r].status.ReviewPending? ==>
               !StrictlyOlder(d', d'.reviews[r].snapshot, s)
    ensures NeverTie(d') && PendingOnNewest(d')
  {
    forall a, b | a in d.snapshots && b in d.snapshots ensures StrictlyOlder(d', a, b) <==> StrictlyOlder(d, a, b) {
      OlderKept(d, d', a, b);
    }
  }

  /** In every timely history an offering's pending reviews all sit on one snapshot, its
      newest, so the approval guard refuses none of them. */
  lemma {:induction false} PendingOnOneSnapshot(es: seq<Event>)
    requires Sound(EMPTY, es) && Timely(EMPTY, es)
    ensures NeverTie(Run(EMPTY, es)) && PendingOnNewest(Run(EMPTY, es))
    ensures var d := Run(EMPTY, es);
            forall q, r :: q in d.reviews && r in d.reviews
              && d.reviews[q].status.ReviewPending? && d.reviews[r].status.ReviewPending?
              && d.snapshots[d.reviews[q].snapshot].scope == d.snapshots[d.reviews[r].snapshot].scope
              ==> d.reviews[q].snapshot == d.reviews[r].snapshot
    ensures var d := Run(EMPTY, es);
            forall r :: r in d.reviews && d.reviews[r].status.ReviewPending? ==>
              !NewerAcceptedSnapshotExists(d, d.reviews[r].snapshot)
  {
    if es != [] {
      var before := es[..|es| - 1];
      SoundBefore(EMPTY, es);
      forall i | 0 <= i < |before| ensures StepTimely(Run(EMPTY, before[..i]), before[i]) {
        assert before[..i] == es[..i];
      }
      PendingOnOneSnapshot(before);
      InvariantsAlways(before);
      StepKeepsPending(Run(EMPTY, before), es[|es| - 1]);
    }
  }

  // ---- one pending review per question ------------------------------------

  /** What the unique index on pending reviews demands. */
  ghost predicate PendingUnique(reviews: map<ReviewId, ReviewRow>) {
    forall q, r :: q in reviews && r in reviews && Collide(reviews[q], reviews[r]) ==> q == r
  }

  predicate Collide(a: ReviewRow, b: ReviewRow) {
    a.status.ReviewPending? && b.status.ReviewPending? && SameQuestion(a, b)
  }

  predicate SameQuestion(a: ReviewRow, b: ReviewRow) {
    a.product == b.product && a.offering == b.offering && a.issue == b.issue && a.reason == b.reason
  }

  /** Whatever a raise replaces, the index never refuses the new review. */
  lemma RaiseKeepsUnique(d: Db, r: ReviewId, task: ReviewRow, now: Time)
    requires PendingUnique(d.reviews)
    ensures PendingUnique(RaiseDb(d, r, task, now).reviews)
  {
    if Raisable(d, r, task) {
      RaiseAges(d, r, task, now);
      forall q | q in d.reviews && SameQuestion(d.reviews[q], task)
        ensures !Settle(d.reviews, Replaced(d, task), ReviewSuperseded)[q].status.ReviewPending?
      {
        assert q in Replaced(d, task) || !d.reviews[q].status.ReviewPending?;
      }
    }
  }

  lemma FewerKeepsUnique(d: Db, d': Db)
    requires PendingUnique(d.reviews) && FewerPending(d, d')
    ensures PendingUnique(d'.reviews)
  {
  }

  /** Whatever a publication does to the documents, of the reviews it only ends some. */
  lemma PublishFewer(d: Db, p: Request, now: Time)
    ensures FewerPending(d, PublishDb(d, p, now))
  {
    if Publishable(d, p) {
      IndexingLeaves(d, p, now);
      SupersedeReviews(IndexedDb(d, p, now), p.snapshot, now);
      CompletingKeeps(SupersedeDb(IndexedDb(d, p, now), p.snapshot, now), p.exec, PublicationStatus(p.row.status), now);
    }
  }

  lemma ActivateFewer(d: Db, s: SnapshotId, x: ExecId, now: Time)
    requires s in d.snapshots
    ensures FewerPending(d, ActivateApprovedDb(d, s, x, now))
  {
    ActivatingLeaves(d, s, now);
    SupersedeReviews(AcceptDb(ActivateDb(d, s, now), s, now), s, now);
  }

  lemma ApproveFewer(d: Db, r: ReviewId, a: Approval, now: Time)
    ensures FewerPending(d, ApproveDb(d, r, a, now))
  {
    if Approvable(d, r, a) {
      var d1 := ApprovedDb(d, r, a);
      assert FewerPending(d, d1);
      if Activates(d, r, a) {
        ActivateFewer(d1, a.snapshot, d.reviews[r].exec, now);
        FewerTwice(d, d1, ApproveDb(d, r, a, now));
      }
    }
  }

  lemma FewerTwice(a: Db, b: Db, c: Db)
    requires FewerPending(a, b) && FewerPending(b, c)
    ensures FewerPending(a, c)
  {
  }

  lemma StepFewer(d: Db, e: Event)
    requires !e.Raise?
    ensures FewerPending(d, Step(d, e))
  {
    match e
    case Publish(p, now) => PublishFewer(d, p, now);
    case Approve(r, a, now) => ApproveFewer(d, r, a, now);
    case Reject(r, now) => RejectAges(d, r, now);
    case Withdraw(r, failed, now) => WithdrawAges(d, r, failed, now);
    case _ => QueueStepAges(d, e);
  }

  lemma StepKeepsUnique(d: Db, e: Event)
    requires PendingUnique(d.reviews)
    ensures PendingUnique(Step(d, e).reviews)
  {
    if e.Raise? {
      RaiseKeepsUnique(d, e.review, e.task, e.now);
    } else {
      StepFewer(d, e);
      FewerKeepsUnique(d, Step(d, e));
    }
  }

  /** In every history an offering has at most one pending review of an issue for a
      reason. */
  lemma {:induction false} OnePendingPerQuestion(es: seq<Event>)
    ensures PendingUnique(Run(EMPTY, es).reviews)
  {
    if es != [] {
      OnePendingPerQuestion(es[..|es| - 1]);
      StepKeepsUnique(Run(EMPTY, es[..|es| - 1]), es[|es| - 1]);
    }
  }
}
