/**
  Two histories in which the reviews' own promises fail, step by step from the empty
  database: a superseded review whose recorded reason is false, and a candidate snapshot
  that is left waiting with nobody to review it.
 */
module ReviewExamples {
  import opened Wrappers
  import opened Schema
  import opened KnowledgePublication
  import opened ReviewSupersession
  import opened RunQueue
  import opened Publication
  import opened History
  import opened IndexHistory
  import opened ReviewHistory
  import opened SnapshotSets
  import opened StrandedSnapshots

  // ---- one step at a time -------------------------------------------------

  /** The history is sound and leads to these tables. */
  ghost predicate LeadsTo(es: seq<Event>, d: Db) {
    Sound(EMPTY, es) && Run(EMPTY, es) == d
  }

  lemma Extend(es: seq<Event>, d: Db, e: Event)
    requires LeadsTo(es, d) && StepSound(d, e)
    ensures LeadsTo(es + [e], Step(d, e))
  {
    var longer := es + [e];
    RunOne(EMPTY, es, e);
    forall i | 0 <= i < |longer| ensures StepSound(Run(EMPTY, longer[..i]), longer[i]) {
      assert longer[..i] == es[..i];
      assert i == |es| ==> es[..i] == es;
    }
  }

  lemma DismissNothing(d: Db, now: Time)
    ensures DismissDb(d, {}, ReviewSuperseded, {}, now) == d
  {
    assert Settle(d.reviews, {}, ReviewSuperseded) == d.reviews;
    assert Reviewed(d, {}) == {};
    DiscardNone(d);
    CloseNone(d, now);
  }

  /** Publishing a snapshot without documents while no review exists. */
  lemma PublishBare(d: Db, p: Request, now: Time)
    requires Publishable(d, p) && p.documents == [] && d.reviews == map[] && !p.row.status.Accepted?
    requires AttemptsOf(d.snapshots, p.row) == {}
    ensures PublishDb(d, p, now) == CompletedDb(d.(snapshots := d.snapshots[p.snapshot := p.row]), p.exec,
                                                PublicationStatus(p.row.status), now)
  {
    var i := d.(snapshots := d.snapshots[p.snapshot := p.row]);
    assert LinksTo(p.snapshot, VersionsOf(p.documents)) == {};
    assert IndexedDb(d, p, now) == i;
    assert Moot(i, p.snapshot) == {} && Reviewed(i, {}) == {};
    DismissNothing(i, now);
  }

  lemma RaiseFirst(d: Db, r: ReviewId, task: ReviewRow, now: Time)
    requires Raisable(d, r, task) && Replaced(d, task) == {}
    ensures RaiseDb(d, r, task, now) == d.(reviews := d.reviews[r := task])
  {
    assert Reviewed(d, {}) - {task.snapshot} == {};
    DismissNothing(d, now);
  }

  // ---- a run publishes a candidate and raises a review --------------------

  function Submission(scope: Scope, id: RunId, now: Time): Event {
    Event.Submit(id, scope.product, Some(scope.offering), None, now)
  }

  function QueuedRun(scope: Scope, now: Time): RunRow {
    NewRun(scope.product, Some(scope.offering), None, now)
  }

  function Candidate(scope: Scope, id: nat, dated: Time): Request {
    Request(id, id, SnapshotRow(id, id, scope, ReviewRequired, "", dated, None), [], false)
  }

  function Question(scope: Scope, issue: string): ReviewRow {
    ReviewRow(0, 0, scope.product, scope.offering, issue, "", ReviewPending, None)
  }

  function PendingExec(scope: Scope, run: RunId): ExecRow {
    ExecRow(run, scope.product, scope.offering, ExecPending, None, None, None, None)
  }

  function Executing(scope: Scope): Db {
    EMPTY.(runs := map[0 := Claimed(QueuedRun(scope, 0), "w", 0)], execs := map[0 := PendingExec(scope, 0)])
  }

  function Starting(scope: Scope): seq<Event> {
    [Submission(scope, 0, 0)] + [Event.Claim(0, "w", 0)] + [Event.CreateExec(0, 0, scope.product, scope.offering, 0)]
  }

  lemma StartingLeads(scope: Scope)
    ensures LeadsTo(Starting(scope), Executing(scope))
  {
    var d1 := EMPTY.(runs := map[0 := QueuedRun(scope, 0)]);
    assert ActiveFor(map[], scope.product, Some(scope.offering)) == {};
    assert Step(EMPTY, Submission(scope, 0, 0)) == d1;
    assert LeadsTo([], EMPTY);
    Extend([], EMPTY, Submission(scope, 0, 0));
    assert [] + [Submission(scope, 0, 0)] == [Submission(scope, 0, 0)];
    var d2 := EMPTY.(runs := map[0 := Claimed(QueuedRun(scope, 0), "w", 0)]);
    assert Step(d1, Event.Claim(0, "w", 0)) == d2;
    Extend([Submission(scope, 0, 0)], d1, Event.Claim(0, "w", 0));
    assert ExecsFor(map[], 0, scope.offering) == {};
    assert Step(d2, Event.CreateExec(0, 0, scope.product, scope.offering, 0)) == Executing(scope);
    Extend([Submission(scope, 0, 0)] + [Event.Claim(0, "w", 0)], d2,
           Event.CreateExec(0, 0, scope.product, scope.offering, 0));
  }

  /** The tables once the candidate is published and its first review raised. */
  function Raised(scope: Scope): Db {
    Executing(scope).(
      execs := map[0 := PublishedExec(PendingExec(scope, 0), ExecCandidateReview, 1)],
      snapshots := map[0 := Candidate(scope, 0, 1).row],
      reviews := map[0 := Question(scope, "rate")])
  }

  function Opening(scope: Scope): seq<Event> {
    Starting(scope) + [Event.Publish(Candidate(scope, 0, 1), 1)] + [Event.Raise(0, Question(scope, "rate"), 1)]
  }

  lemma CandidatePublished(scope: Scope)
    ensures Step(Executing(scope), Event.Publish(Candidate(scope, 0, 1), 1)) == Raised(scope).(reviews := map[])
  {
    var d, p := Executing(scope), Candidate(scope, 0, 1);
    assert AttemptsOf(d.snapshots, p.row) == {};
    PublishBare(d, p, 1);
    assert PublishDb(d, p, 1).execs == Raised(scope).execs;
  }

  lemma FirstRaised(scope: Scope)
    ensures var d := Raised(scope).(reviews := map[]);
            Step(d, Event.Raise(0, Question(scope, "rate"), 1)) == Raised(scope)
  {
    var d := Raised(scope).(reviews := map[]);
    assert Replaced(d, Question(scope, "rate")) == {};
    RaiseFirst(d, 0, Question(scope, "rate"), 1);
  }

  lemma OpeningLeads(scope: Scope)
    ensures LeadsTo(Opening(scope), Raised(scope))
  {
    StartingLeads(scope);
    CandidatePublished(scope);
    Extend(Starting(scope), Executing(scope), Event.Publish(Candidate(scope, 0, 1), 1));
    FirstRaised(scope);
    Extend(Starting(scope) + [Event.Publish(Candidate(scope, 0, 1), 1)], Raised(scope).(reviews := map[]),
           Event.Raise(0, Question(scope, "rate"), 1));
  }

  // ---- a false reason -----------------------------------------------------

  /** The first run pauses, and a second one of the same offering executes. */
  function Waiting(scope: Scope): Db {
    var first := Claimed(QueuedRun(scope, 0), "w", 0).(status := AwaitingReview, claimedBy := None, claimedAt := None);
    Raised(scope).(runs := map[0 := first, 1 := Claimed(QueuedRun(scope, 2), "w", 2)],
                   execs := Raised(scope).execs[1 := PendingExec(scope, 1)])
  }

  function Again(scope: Scope): seq<Event> {
    Opening(scope) + [Event.Pause(0, 1)] + [Submission(scope, 1, 2)] + [Event.Claim(1, "w", 2)]
    + [Event.CreateExec(1, 1, scope.product, scope.offering, 2)]
  }

  lemma Paused(scope: Scope)
    ensures Step(Raised(scope), Event.Pause(0, 1)) == Raised(scope).(runs := map[0 := Waiting(scope).runs[0]])
  {
  }

  lemma Submitted(scope: Scope)
    ensures var first := Waiting(scope).runs[0];
            Step(Raised(scope).(runs := map[0 := first]), Submission(scope, 1, 2))
            == Raised(scope).(runs := map[0 := first, 1 := QueuedRun(scope, 2)])
  {
    assert ActiveFor(map[0 := Waiting(scope).runs[0]], scope.product, Some(scope.offering)) == {};
  }

  lemma ClaimedAgain(scope: Scope)
    ensures var d := Raised(scope).(runs := map[0 := Waiting(scope).runs[0], 1 := QueuedRun(scope, 2)]);
            Step(d, Event.Claim(1, "w", 2)) == Raised(scope).(runs := Waiting(scope).runs)
  {
  }

  lemma CreatedAgain(scope: Scope)
    ensures Step(Raised(scope).(runs := Waiting(scope).runs), Event.CreateExec(1, 1, scope.product, scope.offering, 2))
            == Waiting(scope)
  {
    assert ExecsFor(Raised(scope).execs, 1, scope.offering) == {};
  }

  lemma AgainLeads(scope: Scope)
    ensures LeadsTo(Again(scope), Waiting(scope))
  {
    var first, es := Waiting(scope).runs[0], Opening(scope);
    OpeningLeads(scope);
    Paused(scope);
    Extend(es, Raised(scope), Event.Pause(0, 1));
    Submitted(scope);
    Extend(es + [Event.Pause(0, 1)], Raised(scope).(runs := map[0 := first]), Submission(scope, 1, 2));
    ClaimedAgain(scope);
    Extend(es + [Event.Pause(0, 1)] + [Submission(scope, 1, 2)],
           Raised(scope).(runs := map[0 := first, 1 := QueuedRun(scope, 2)]), Event.Claim(1, "w", 2));
    CreatedAgain(scope);
    Extend(es + [Event.Pause(0, 1)] + [Submission(scope, 1, 2)] + [Event.Claim(1, "w", 2)],
           Raised(scope).(runs := Waiting(scope).runs), Event.CreateExec(1, 1, scope.product, scope.offering, 2));
  }

  lemma SecondIsNewer(d: Db, scope: Scope)
    requires d.snapshots.Keys == {0, 1} && d.runs == Waiting(scope).runs
    requires d.snapshots[0].run == 0 && d.snapshots[0].scope == scope && d.snapshots[0].createdAt == 1
    requires d.snapshots[1] == Candidate(scope, 1, 3).row
    ensures StrictlyOlder(d, 0, 1)
  {
  }

  lemma SecondFits(scope: Scope)
    ensures Publishable(Waiting(scope), Candidate(scope, 1, 3)) && Candidate(scope, 1, 3).SameBank()
  {
    assert AttemptsOf(Waiting(scope).snapshots, Candidate(scope, 1, 3).row) == {};
  }

  lemma FirstIsOlder(scope: Scope)
    requires AllOk(Waiting(scope))
    ensures StrictlyOlder(PublishDb(Waiting(scope), Candidate(scope, 1, 3), 3), 0, 1)
  {
    var d, p := Waiting(scope), Candidate(scope, 1, 3);
    SecondFits(scope);
    PublishingKeepsAccepted(d, p, 3);
    IndexingLeaves(d, p, 3);
    SecondIsNewer(IndexedDb(d, p, 3), scope);
    OlderKept(IndexedDb(d, p, 3), PublishDb(d, p, 3), 0, 1);
  }

  lemma NothingAccepted(scope: Scope)
    ensures !NewerAcceptedSnapshotExists(Waiting(scope), 0)
  {
  }

  ghost predicate FalselySuperseded(d: Db, r: ReviewId) {
    r in d.reviews && d.reviews[r].status.ReviewSuperseded? && !NewerAcceptedSnapshotExists(d, d.reviews[r].snapshot)
  }

  /** Publishing a newer candidate over a waiting one, none newer being accepted. */
  lemma PublishFalsely(d: Db, p: Request, now: Time, r: ReviewId)
    requires AllOk(d) && Publishable(d, p) && p.SameBank() && !p.row.status.Accepted?
    requires r in d.reviews && d.reviews[r].status.ReviewPending?
    requires !NewerAcceptedSnapshotExists(d, d.reviews[r].snapshot)
    requires StrictlyOlder(PublishDb(d, p, now), d.reviews[r].snapshot, p.snapshot)
    ensures FalselySuperseded(PublishDb(d, p, now), r)
  {
    SupersedesStrictlyOlder(d, p, now, r);
    GuardAfterPublishing(d, p, now, d.reviews[r].snapshot);
    PublishPlaces(d, p, now);
  }

  lemma PublishStep(d: Db, p: Request, now: Time)
    ensures Step(d, Event.Publish(p, now)) == PublishDb(d, p, now)
  {
  }

  lemma FirstWaits(scope: Scope)
    ensures var reviews := Waiting(scope).reviews;
            0 in reviews && reviews[0].status.ReviewPending? && reviews[0].snapshot == 0
  {
  }

  lemma SecondSupersedes(scope: Scope, d: Db)
    requires AllOk(d) && d == Waiting(scope)
    ensures FalselySuperseded(PublishDb(d, Candidate(scope, 1, 3), 3), 0)
  {
    FirstWaits(scope);
    SecondFits(scope);
    FirstIsOlder(scope);
    NothingAccepted(scope);
    PublishFalsely(d, Candidate(scope, 1, 3), 3, 0);
  }

  lemma ExtendWith(es: seq<Event>, d: Db, e: Event, r: ReviewId)
    requires LeadsTo(es, d) && StepSound(d, e) && FalselySuperseded(Step(d, e), r)
    ensures Sound(EMPTY, es + [e]) && FalselySuperseded(Run(EMPTY, es + [e]), r)
  {
    Extend(es, d, e);
  }

  /** When the second run publishes its newer candidate, the waiting review is superseded for
      the reason that a newer snapshot was accepted. No snapshot was ever accepted. */
  lemma CandidateReasonIsFalse(scope: Scope)
    ensures var es := Again(scope) + [Event.Publish(Candidate(scope, 1, 3), 3)];
            Sound(EMPTY, es) && FalselySuperseded(Run(EMPTY, es), 0)
  {
    AgainLeads(scope);
    InvariantsAlways(Again(scope));
    SecondSupersedes(scope, Waiting(scope));
    PublishStep(Waiting(scope), Candidate(scope, 1, 3), 3);
    ExtendWith(Again(scope), Waiting(scope), Event.Publish(Candidate(scope, 1, 3), 3), 0);
  }

  lemma PublishPlaces(d: Db, p: Request, now: Time)
    ensures forall r :: r in d.reviews ==>
              r in PublishDb(d, p, now).reviews && PublishDb(d, p, now).reviews[r].snapshot == d.reviews[r].snapshot
  {
    PublishMoves(d, p, now);
  }

  // ---- a stranded snapshot ------------------------------------------------

  function Both(scope: Scope): Db {
    Raised(scope).(reviews := map[0 := Question(scope, "rate"), 1 := Question(scope, "fee")])
  }

  function Answer(): Approval {
    Approval(Decision(false, ""), 0, "", "", true, true)
  }

  function Asking(scope: Scope): seq<Event> {
    Opening(scope) + [Event.Raise(1, Question(scope, "fee"), 1)] + [Event.Withdraw(0, false, 1)]
  }

  lemma BothLead(scope: Scope)
    ensures LeadsTo(Opening(scope) + [Event.Raise(1, Question(scope, "fee"), 1)], Both(scope))
  {
    var d, task := Raised(scope), Question(scope, "fee");
    OpeningLeads(scope);
    assert "fee"[0] != "rate"[0];
    assert Replaced(d, task) == {};
    RaiseFirst(d, 1, task, 1);
    assert Step(d, Event.Raise(1, task, 1)) == Both(scope);
    Extend(Opening(scope), d, Event.Raise(1, task, 1));
  }

  /** The other review is still pending, so withdrawing one closes nothing. */
  lemma OneWithdrawn(scope: Scope)
    ensures var d := WithdrawDb(Both(scope), 0, false, 1);
            && d.reviews == Settle(Both(scope).reviews, {0}, ReviewSuperseded)
            && d.snapshots == Both(scope).snapshots
  {
    var d := Both(scope);
    var d1 := DiscardAllDb(d.(reviews := Settle(d.reviews, {0}, ReviewSuperseded)), Reviewed(d, {0}));
    assert d1.reviews[1].status.ReviewPending? && d1.reviews[1].snapshot == 0;
    assert ToClose(d1, {0}) == {};
  }

  lemma AnswerStrands(scope: Scope, d: Db)
    requires AllOk(d) && d.snapshots == Both(scope).snapshots
    requires d.reviews == Settle(Both(scope).reviews, {0}, ReviewSuperseded)
    ensures Approvable(d, 1, Answer()) && Stranded(ApproveDb(d, 1, Answer(), 1), 0)
  {
    assert EndedUnapproved(d.reviews[0]) && Spoiled(d.reviews, 0);
    assert !OthersPending(d, 1, 0);
    assert !NewerAcceptedSnapshotExists(d, 0);
    SpoiledNeverActivates(d, 1, Answer());
    ApprovalStrandsIff(d, 1, Answer(), 1);
  }

  lemma ExtendStranded(es: seq<Event>, d: Db, e: Event, s: SnapshotId)
    requires LeadsTo(es, d) && StepSound(d, e) && Stranded(Step(d, e), s)
    ensures Sound(EMPTY, es + [e]) && Stranded(Run(EMPTY, es + [e]), s)
  {
    Extend(es, d, e);
  }

  lemma WithdrawLeads(es: seq<Event>, d: Db, r: ReviewId)
    requires LeadsTo(es, d)
    ensures LeadsTo(es + [Event.Withdraw(r, false, 1)], WithdrawDb(d, r, false, 1))
  {
    Extend(es, d, Event.Withdraw(r, false, 1));
  }

  lemma AskingLeads(scope: Scope)
    ensures LeadsTo(Asking(scope), WithdrawDb(Both(scope), 0, false, 1))
  {
    BothLead(scope);
    WithdrawLeads(Opening(scope) + [Event.Raise(1, Question(scope, "fee"), 1)], Both(scope), 0);
  }

  lemma ApproveStep(d: Db, r: ReviewId, a: Approval)
    ensures Step(d, Event.Approve(r, a, 1)) == ApproveDb(d, r, a, 1)
  {
  }

  lemma AnswerStrandsStep(scope: Scope, d: Db)
    requires AllOk(d) && d.snapshots == Both(scope).snapshots
    requires d.reviews == Settle(Both(scope).reviews, {0}, ReviewSuperseded)
    ensures Stranded(Step(d, Event.Approve(1, Answer(), 1)), 0)
  {
    AnswerStrands(scope, d);
    ApproveStep(d, 1, Answer());
  }

  /** Two reviews of one candidate: one is superseded, and its documents are discarded; the
      other is approved. The candidate waits for a review, and none is pending. */
  lemma ApprovalStrands(scope: Scope)
    ensures var es := Asking(scope) + [Event.Approve(1, Answer(), 1)];
            Sound(EMPTY, es) && Stranded(Run(EMPTY, es), 0)
  {
    AskingLeads(scope);
    var d := Run(EMPTY, Asking(scope));
    InvariantsAlways(Asking(scope));
    OneWithdrawn(scope);
    AnswerStrandsStep(scope, d);
    ExtendStranded(Asking(scope), d, Event.Approve(1, Answer(), 1), 0);
  }

  lemma SpoiledNeverActivates(d: Db, r: ReviewId, a: Approval)
    requires ApprovalFits(d, r, a) && Spoiled(d.reviews, a.snapshot)
    ensures !Activates(d, r, a)
  {
    ApprovedSpoiled(d, r, a);
    SpoiledNeverResolves(ApprovedDb(d, r, a), a.snapshot);
  }
}
