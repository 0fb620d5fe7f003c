/**
  The documents a snapshot was published with: a discard can take them from a snapshot
  that will not be accepted, never from one that is or was.
 */
module SnapshotSets {
  import opened Schema
  import opened KnowledgePublication
  import opened ReviewSupersession
  import opened Publication
  import opened IndexInvariants
  import opened History
  import opened IndexHistory

  /** What each snapshot was published with. */
  function SetsAfter(es: seq<Event>): map<SnapshotId, set<Version>> {
    if es == [] then map[]
    else SetsStep(SetsAfter(es[..|es| - 1]), Run(EMPTY, es[..|es| - 1]), es[|es| - 1])
  }

  function SetsStep(sets: map<SnapshotId, set<Version>>, d: Db, e: Event): map<SnapshotId, set<Version>> {
    if e.Publish? && Publishable(d, e.request) then sets[e.request.snapshot := VersionsOf(e.request.documents)]
    else sets
  }

  predicate EndedUnapproved(row: ReviewRow) {
    !row.status.ReviewPending? && !row.status.ReviewApproved?
  }

  /** A review of the snapshot ended otherwise than approved, so it never resolves. */
  ghost predicate Spoiled(reviews: map<ReviewId, ReviewRow>, s: SnapshotId) {
    exists r :: r in reviews && reviews[r].snapshot == s && EndedUnapproved(reviews[r])
  }

  /** A snapshot still links what it was published with, unless it is spoiled. */
  ghost predicate SetsHold(d: Db, sets: map<SnapshotId, set<Version>>) {
    && sets.Keys == d.snapshots.Keys
    && forall s :: s in sets ==> SetHolds(d, s, sets[s])
  }

  ghost predicate SetHolds(d: Db, s: SnapshotId, published: set<Version>)
    requires s in d.snapshots
  {
    LinkedBy(d.links, s) == published || (Spoiled(d.reviews, s) && !d.snapshots[s].status.Accepted?)
  }

  // ---- steps --------------------------------------------------------------

  lemma SameLinked(links: set<Link>, links': set<Link>, s: SnapshotId)
    requires forall v :: Link(s, v) in links <==> Link(s, v) in links'
    ensures LinkedBy(links, s) == LinkedBy(links', s)
  {
    forall v ensures v in LinkedBy(links, s) <==> v in LinkedBy(links', s) {
      LinkedHas(links, s, v);
      LinkedHas(links', s, v);
    }
  }

  /** Nobody's links, reviews that ended or acceptance change. */
  ghost predicate SameSets(d: Db, d': Db) {
    && d'.links == d.links && d'.snapshots.Keys == d.snapshots.Keys && EndedStay(d.reviews, d'.reviews)
    && forall s :: s in d.snapshots && !d.snapshots[s].status.Accepted? ==> !d'.snapshots[s].status.Accepted?
  }

  ghost predicate EndedStay(reviews: map<ReviewId, ReviewRow>, reviews': map<ReviewId, ReviewRow>) {
    forall r :: r in reviews && !reviews[r].status.ReviewPending? ==> r in reviews' && reviews'[r] == reviews[r]
  }

  lemma SpoiledStays(reviews: map<ReviewId, ReviewRow>, reviews': map<ReviewId, ReviewRow>, s: SnapshotId)
    requires EndedStay(reviews, reviews') && Spoiled(reviews, s)
    ensures Spoiled(reviews', s)
  {
    var r :| r in reviews && reviews[r].snapshot == s && EndedUnapproved(reviews[r]);
    assert EndedUnapproved(reviews'[r]) && reviews'[r].snapshot == s;
  }

  lemma SameSetsHold(d: Db, d': Db, sets: map<SnapshotId, set<Version>>)
    requires SetsHold(d, sets) && SameSets(d, d')
    ensures SetsHold(d', sets)
  {
    forall s | s in sets ensures SetHolds(d', s, sets[s]) {
      if LinkedBy(d.links, s) != sets[s] {
        SpoiledStays(d.reviews, d'.reviews, s);
      }
    }
  }

  lemma SettledStay(reviews: map<ReviewId, ReviewRow>, ids: set<ReviewId>, end: ReviewStatus)
    requires forall r :: r in ids ==> r in reviews && reviews[r].status.ReviewPending?
    ensures EndedStay(reviews, Settle(reviews, ids, end))
  {
  }

  lemma SettledIsSpoiled(d: Db, ids: set<ReviewId>, end: ReviewStatus, s: SnapshotId)
    requires !end.ReviewPending? && !end.ReviewApproved? && s in Reviewed(d, ids)
    ensures Spoiled(Settle(d.reviews, ids, end), s)
  {
    var r :| r in ids && r in d.reviews && d.reviews[r].snapshot == s;
    assert EndedUnapproved(Settle(d.reviews, ids, end)[r]);
  }

  lemma DiscardedLinks(d: Db, gone: set<SnapshotId>, s: SnapshotId)
    requires s !in gone
    ensures LinkedBy(DiscardAllDb(d, gone).links, s) == LinkedBy(d.links, s)
  {
    SameLinked(d.links, DiscardAllDb(d, gone).links, s);
  }

  /** Dismissing reviews discards only the documents of snapshots it spoils. */
  lemma DismissHolds(d: Db, ids: set<ReviewId>, end: ReviewStatus, closing: set<SnapshotId>, now: Time,
                     sets: map<SnapshotId, set<Version>>)
    requires ReviewsOk(d) && SetsHold(d, sets) && !end.ReviewPending? && !end.ReviewApproved?
    requires forall r :: r in ids ==> r in d.reviews && d.reviews[r].status.ReviewPending?
    ensures SetsHold(DismissDb(d, ids, end, closing, now), sets)
  {
    var d1 := d.(reviews := Settle(d.reviews, ids, end));
    var d2, d3 := DiscardAllDb(d1, Reviewed(d, ids)), DismissDb(d, ids, end, closing, now);
    CloseChanges(d2, closing, now);
    SettledStay(d.reviews, ids, end);
    forall s | s in sets ensures SetHolds(d3, s, sets[s]) {
      if s in Reviewed(d, ids) {
        SettledIsSpoiled(d, ids, end, s);
        var r :| r in ids && r in d.reviews && d.reviews[r].snapshot == s;
        assert !d.snapshots[s].status.Accepted?;
      } else {
        DiscardedLinks(d1, Reviewed(d, ids), s);
        if LinkedBy(d.links, s) != sets[s] {
          SpoiledStays(d.reviews, d1.reviews, s);
        }
      }
    }
  }

  lemma SupersedeHolds(d: Db, s: SnapshotId, now: Time, sets: map<SnapshotId, set<Version>>)
    requires ReviewsOk(d) && SetsHold(d, sets)
    ensures SetsHold(SupersedeDb(d, s, now), sets)
  {
    DismissHolds(d, Moot(d, s), ReviewSuperseded, Reviewed(d, Moot(d, s)), now, sets);
  }

  /** A new snapshot links what it was published with; the others' links stay. */
  lemma IndexHolds(d: Db, i: Db, p: Request, sets: map<SnapshotId, set<Version>>)
    requires LinksOk(d) && SetsHold(d, sets) && p.snapshot !in d.snapshots
    requires i.links == d.links + LinksTo(p.snapshot, VersionsOf(p.documents))
    requires i.snapshots == d.snapshots[p.snapshot := p.row] && i.reviews == d.reviews
    ensures SetsHold(i, sets[p.snapshot := VersionsOf(p.documents)])
  {
    forall v ensures v in LinkedBy(i.links, p.snapshot) <==> v in VersionsOf(p.documents) {
      LinkedHas(i.links, p.snapshot, v);
      assert Link(p.snapshot, v) in LinksTo(p.snapshot, VersionsOf(p.documents)) <==> v in VersionsOf(p.documents);
    }
    forall s | s in sets ensures LinkedBy(i.links, s) == LinkedBy(d.links, s) {
      SameLinked(d.links, i.links, s);
    }
  }

  lemma PublishHolds(d: Db, p: Request, now: Time, sets: map<SnapshotId, set<Version>>)
    requires AllOk(d) && p.SameBank() && Publishable(d, p) && SetsHold(d, sets)
    ensures SetsHold(PublishDb(d, p, now), sets[p.snapshot := VersionsOf(p.documents)])
  {
    var i := IndexedDb(d, p, now);
    IndexKeeps(d, p, now);
    IndexingLeaves(d, p, now);
    IndexHolds(d, i, p, sets);
    SupersedeHolds(i, p.snapshot, now, sets[p.snapshot := VersionsOf(p.documents)]);
    SameSetsHold(SupersedeDb(i, p.snapshot, now), PublishDb(d, p, now), sets[p.snapshot := VersionsOf(p.documents)]);
  }

  /** A snapshot that resolves is not spoiled, so it is accepted with its own documents. */
  lemma AcceptHolds(d: Db, s: SnapshotId, now: Time, sets: map<SnapshotId, set<Version>>)
    requires SetsHold(d, sets) && s in d.snapshots && Resolved(d, s)
    ensures SetsHold(AcceptDb(d, s, now), sets)
  {
    assert !Spoiled(d.reviews, s);
    forall t | t in sets ensures SetHolds(AcceptDb(d, s, now), t, sets[t]) {
      assert SetHolds(d, t, sets[t]);
    }
  }

  lemma ActivateHolds(d: Db, s: SnapshotId, x: ExecId, now: Time, sets: map<SnapshotId, set<Version>>)
    requires AllOk(d) && SetsHold(d, sets)
    requires s in d.snapshots && d.snapshots[s].status.ReviewRequired? && Resolved(d, s)
    ensures SetsHold(ActivateApprovedDb(d, s, x, now), sets)
  {
    var d1 := ActivateDb(d, s, now);
    ActivateKeepsInv(d, s, now);
    SameSetsHold(d, d1, sets);
    AcceptKeeps(d1, s, now);
    AcceptHolds(d1, s, now, sets);
    SupersedeHolds(AcceptDb(d1, s, now), s, now, sets);
    SameSetsHold(SupersedeDb(AcceptDb(d1, s, now), s, now), ActivateApprovedDb(d, s, x, now), sets);
  }

  lemma ApproveHolds(d: Db, r: ReviewId, a: Approval, now: Time, sets: map<SnapshotId, set<Version>>)
    requires AllOk(d) && SetsHold(d, sets)
    ensures SetsHold(ApproveDb(d, r, a, now), sets)
  {
    if Approvable(d, r, a) {
      var d1 := ApprovedDb(d, r, a);
      ApprovedKeeps(d, r, a);
      SameSetsHold(d, d1, sets);
      if Activates(d, r, a) {
        ActivateHolds(d1, a.snapshot, d.reviews[r].exec, now, sets);
      }
    }
  }

  /** A rejection is a discard of the one snapshot that its review spoils. */
  lemma RejectHolds(d: Db, r: ReviewId, now: Time, sets: map<SnapshotId, set<Version>>)
    requires ReviewsOk(d) && SetsHold(d, sets)
    ensures SetsHold(RejectDb(d, r, now), sets)
  {
    if Decidable(d, r) {
      var s, d1 := d.reviews[r].snapshot, RejectDb(d, r, now);
      assert EndedUnapproved(d1.reviews[r]) && d1.reviews[r].snapshot == s;
      assert EndedStay(d.reviews, d1.reviews);
      forall t | t in sets ensures SetHolds(d1, t, sets[t]) {
        if t != s {
          SameLinked(d.links, d1.links, t);
          if LinkedBy(d.links, t) != sets[t] {
            SpoiledStays(d.reviews, d1.reviews, t);
          }
        }
      }
    }
  }

  lemma WithdrawHolds(d: Db, r: ReviewId, failed: bool, now: Time, sets: map<SnapshotId, set<Version>>)
    requires ReviewsOk(d) && SetsHold(d, sets)
    ensures SetsHold(WithdrawDb(d, r, failed, now), sets)
  {
    if Decidable(d, r) {
      DismissHolds(d, {r}, if failed then ReviewFailed else ReviewSuperseded, {d.reviews[r].snapshot}, now, sets);
    }
  }

  lemma RaiseHolds(d: Db, r: ReviewId, task: ReviewRow, now: Time, sets: map<SnapshotId, set<Version>>)
    requires ReviewsOk(d) && SetsHold(d, sets)
    ensures SetsHold(RaiseDb(d, r, task, now), sets)
  {
    if Raisable(d, r, task) {
      var ids := Replaced(d, task);
      var closing := Reviewed(d, ids) - {task.snapshot};
      DismissHolds(d, ids, ReviewSuperseded, closing, now, sets);
      SameSetsHold(DismissDb(d, ids, ReviewSuperseded, closing, now), RaiseDb(d, r, task, now), sets);
    }
  }

  lemma QueueHolds(d: Db, e: Event, sets: map<SnapshotId, set<Version>>)
    requires QueueStep(e) && SetsHold(d, sets)
    ensures SetsHold(Step(d, e), sets)
  {
    QueueStepLeaves(d, e);
    SameSetsHold(d, Step(d, e), sets);
  }

  lemma StepHolds(d: Db, e: Event, sets: map<SnapshotId, set<Version>>)
    requires AllOk(d) && StepSound(d, e) && SetsHold(d, sets)
    ensures SetsHold(Step(d, e), SetsStep(sets, d, e))
  {
    match e
    case Publish(p, now) =>
      if Publishable(d, p) {
        PublishHolds(d, p, now, sets);
      }
    case Raise(r, task, now) => RaiseHolds(d, r, task, now, sets);
    case Approve(r, a, now) => ApproveHolds(d, r, a, now, sets);
    case Reject(r, now) => RejectHolds(d, r, now, sets);
    case Withdraw(r, failed, now) => WithdrawHolds(d, r, failed, now, sets);
    case _ => QueueHolds(d, e, sets);
  }

  // ---- histories ----------------------------------------------------------

  lemma {:induction false} SetsHoldAlways(es: seq<Event>)
    requires Sound(EMPTY, es)
    ensures SetsHold(Run(EMPTY, es), SetsAfter(es))
  {
    if es != [] {
      var before := es[..|es| - 1];
      SoundBefore(EMPTY, es);
      SetsHoldAlways(before);
      InvariantsAlways(before);
      StepHolds(Run(EMPTY, before), es[|es| - 1], SetsAfter(before));
    }
  }

  /** In every history an accepted snapshot links exactly the documents it was published
      with, whatever was rejected, superseded and discarded around it. */
  lemma {:induction false} AcceptedKeepsItsSet(es: seq<Event>, s: SnapshotId)
    requires Sound(EMPTY, es)
    requires s in Run(EMPTY, es).snapshots && Run(EMPTY, es).snapshots[s].status.Accepted?
    ensures s in SetsAfter(es) && LinkedBy(Run(EMPTY, es).links, s) == SetsAfter(es)[s]
  {
    SetsHoldAlways(es);
    assert SetHolds(Run(EMPTY, es), s, SetsAfter(es)[s]);
  }

  /** So the index is what was published: a document is active exactly when the latest
      accepted snapshot of an offering was published with it. */
  lemma {:induction false} IndexIsLatestPublished(es: seq<Event>, v: Version)
    requires Sound(EMPTY, es) && InOrder(EMPTY, es)
    ensures var d, sets := Run(EMPTY, es), SetsAfter(es);
            v in ActiveDocs(d) <==> exists s :: IsLatest(AcceptedOf(d), s) && s in sets && v in sets[s]
  {
    var d := Run(EMPTY, es);
    IndexIsLatestAccepted(es);
    forall s | IsLatest(AcceptedOf(d), s)
      ensures s in SetsAfter(es) && (v in SetsAfter(es)[s] <==> Link(s, v) in d.links)
    {
      AcceptedKeepsItsSet(es, s);
      LinkedHas(d.links, s, v);
    }
    assert v in ActiveDocs(d) <==> LatestLinks(AcceptedOf(d), d.links, v);
  }
}
