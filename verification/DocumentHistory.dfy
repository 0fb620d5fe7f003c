/**
  What a document version's publication state says about its history.
 */
module DocumentHistory {
  import opened Schema
  import opened KnowledgePublication
  import opened ReviewSupersession
  import opened Publication
  import opened IndexInvariants
  import opened History
  import opened IndexHistory

  /** The versions some state of the history had active. */
  function EverActive(d: Db, es: seq<Event>): set<Version> {
    if es == [] then ActiveDocs(d) else EverActive(d, es[..|es| - 1]) + ActiveDocs(Run(d, es))
  }

  /** The versions whose state is not 'pending_review'. */
  function Published(d: Db): set<Version> {
    set v | v in d.documents && !d.documents[v].state.PendingReview?
  }

  lemma ActivatePublishes(d: Db, s: SnapshotId, now: Time)
    requires DocumentsOk(d) && s in d.snapshots
    ensures Published(ActivateDb(d, s, now)) == Published(d) + ActiveDocs(ActivateDb(d, s, now))
  {
    ActivateKeeps(d, s, now);
    var d1 := ActivateDb(d, s, now);
    assert d1.documents.Keys == d.documents.Keys;
    forall v | v in d.documents ensures v in Published(d1) <==> v in Published(d) + ActiveDocs(d1) {
      assert d1.documents[v].active <==> d1.documents[v].state.Active?;
    }
  }

  lemma {:induction false} StorePublishes(d: Db, docs: seq<Document>, now: Time)
    requires DocumentsOk(d)
    ensures Published(StoreAllDb(d, docs, now)) == Published(d)
  {
    if docs != [] {
      var before := StoreAllDb(d, docs[..|docs| - 1], now);
      StorePublishes(d, docs[..|docs| - 1], now);
      StoreAllKeeps(d, docs[..|docs| - 1], now);
      assert Published(StoreAllDb(d, docs, now)) == Published(before);
    }
  }

  lemma SupersedePublishes(d: Db, s: SnapshotId, now: Time)
    ensures Published(SupersedeDb(d, s, now)) == Published(d)
  {
    DismissPublishes(d, Moot(d, s), ReviewSuperseded, Reviewed(d, Moot(d, s)), now);
  }

  lemma DismissPublishes(d: Db, ids: set<ReviewId>, end: ReviewStatus, closing: set<SnapshotId>, now: Time)
    ensures Published(DismissDb(d, ids, end, closing, now)) == Published(d)
  {
    DiscardPublishes(d.(reviews := Settle(d.reviews, ids, end)), Reviewed(d, ids));
  }

  lemma WithdrawPublishes(d: Db, r: ReviewId, failed: bool, now: Time)
    ensures Published(WithdrawDb(d, r, failed, now)) == Published(d)
  {
    if Decidable(d, r) {
      DismissPublishes(d, {r}, if failed then ReviewFailed else ReviewSuperseded, {d.reviews[r].snapshot}, now);
    }
  }

  lemma RaisePublishes(d: Db, r: ReviewId, task: ReviewRow, now: Time)
    ensures Published(RaiseDb(d, r, task, now)) == Published(d)
  {
    if Raisable(d, r, task) {
      var ids := Replaced(d, task);
      DismissPublishes(d, ids, ReviewSuperseded, Reviewed(d, ids) - {task.snapshot}, now);
    }
  }

  lemma DiscardPublishes(d: Db, gone: set<SnapshotId>)
    ensures Published(DiscardAllDb(d, gone)) == Published(d)
  {
  }

  lemma IndexPublishes(d: Db, p: Request, now: Time)
    requires AllOk(d) && p.SameBank() && Publishable(d, p)
    ensures Published(IndexedDb(d, p, now)) == Published(d) + ActiveDocs(IndexedDb(d, p, now))
  {
    RecordKeeps(d, p, now);
    StorePublishes(d, p.documents, now);
    var recorded := RecordedDb(d, p, now);
    assert Published(recorded) == Published(d);
    ActiveArePublished(recorded);
    if p.row.status.Accepted? && p.documents != [] {
      ActivatePublishes(recorded, p.snapshot, now);
    }
  }

  lemma PublishPublishes(d: Db, p: Request, now: Time)
    requires AllOk(d) && p.SameBank() && Publishable(d, p)
    ensures Published(PublishDb(d, p, now)) == Published(d) + ActiveDocs(PublishDb(d, p, now))
  {
    PublishKeeps(d, p, now);
    IndexPublishes(d, p, now);
    SupersedePublishes(IndexedDb(d, p, now), p.snapshot, now);
  }

  lemma ActiveArePublished(d: Db)
    requires StatesOk(d)
    ensures ActiveDocs(d) <= Published(d)
  {
  }

  lemma ActivatedPublishes(d: Db, s: SnapshotId, x: ExecId, now: Time)
    requires AllOk(d) && s in d.snapshots && d.snapshots[s].status.ReviewRequired? && Resolved(d, s)
    ensures var d1 := ActivateApprovedDb(d, s, x, now);
            Published(d1) == Published(d) + ActiveDocs(d1)
  {
    ActivatePublishes(d, s, now);
    ActivateApprovedKeeps(d, s, x, now);
    SupersedePublishes(AcceptDb(ActivateDb(d, s, now), s, now), s, now);
  }

  lemma ApprovePublishes(d: Db, r: ReviewId, a: Approval, now: Time)
    requires AllOk(d) && Approvable(d, r, a)
    ensures Published(ApproveDb(d, r, a, now)) == Published(d) + ActiveDocs(ApproveDb(d, r, a, now))
  {
    var d1 := ApprovedDb(d, r, a);
    ApprovedKeeps(d, r, a);
    assert Published(d1) == Published(d);
    if Activates(d, r, a) {
      ActivatedPublishes(d1, a.snapshot, d.reviews[r].exec, now);
    } else {
      ActiveArePublished(d1);
    }
  }

  lemma RejectPublishes(d: Db, r: ReviewId, now: Time)
    requires AllOk(d)
    ensures Published(RejectDb(d, r, now)) == Published(d)
  {
    if Decidable(d, r) {
      var d1 := d.(reviews := RejectedReviews(d.reviews, r));
      DiscardIsDiscardAll(d1, d.reviews[r].snapshot);
      DiscardPublishes(d1, {d.reviews[r].snapshot});
    }
  }

  /** Everything but a publication and an approval. */
  predicate Quiet(d: Db, e: Event) {
    !(e.Publish? && Publishable(d, e.request)) && !(e.Approve? && Approvable(d, e.review, e.approval))
  }

  lemma QuietPublishes(d: Db, e: Event)
    requires AllOk(d) && Quiet(d, e)
    ensures Published(Step(d, e)) == Published(d)
  {
    match e
    case Raise(r, task, now) => RaisePublishes(d, r, task, now);
    case Withdraw(r, failed, now) => WithdrawPublishes(d, r, failed, now);
    case Reject(r, now) => RejectPublishes(d, r, now);
    case Publish(_, _) =>
    case Approve(_, _, _) =>
    case _ => QueueStepLeaves(d, e);
  }

  /** One step adds to the published versions exactly those it leaves active: nothing
      published is ever deleted or becomes pending again. */
  lemma StepPublishes(d: Db, e: Event)
    requires AllOk(d) && StepSound(d, e)
    ensures Published(Step(d, e)) == Published(d) + ActiveDocs(Step(d, e))
  {
    if Quiet(d, e) {
      QuietPublishes(d, e);
      StepKeeps(d, e);
      ActiveArePublished(Step(d, e));
    } else if e.Publish? {
      PublishPublishes(d, e.request, e.now);
    } else {
      ApprovePublishes(d, e.review, e.approval, e.now);
    }
  }

  /** In every history a stored version is 'pending_review' exactly when it was never
      active, and a version that was ever active is never deleted. */
  lemma {:induction false} PendingIffNeverActive(es: seq<Event>)
    requires Sound(EMPTY, es)
    ensures Published(Run(EMPTY, es)) == EverActive(EMPTY, es)
    ensures forall v :: v in Run(EMPTY, es).documents ==>
              (Run(EMPTY, es).documents[v].state.PendingReview? <==> v !in EverActive(EMPTY, es))
    ensures EverActive(EMPTY, es) <= Run(EMPTY, es).documents.Keys
  {
    if es == [] {
      assert Published(EMPTY) == EverActive(EMPTY, es) == {};
    } else {
      var before := es[..|es| - 1];
      SoundBefore(EMPTY, es);
      PendingIffNeverActive(before);
      InvariantsAlways(before);
      StepPublishes(Run(EMPTY, before), es[|es| - 1]);
    }
  }
}
