/**
  Closing a run from outside: whom it closes, and what a process that lost its run
  can still publish.
 */
module Fencing {
  import opened Wrappers
  import opened Schema
  import opened OwnerPattern
  import opened RunQueue
  import opened Publication
  import opened History

  /** The event closes run r from outside: recovery, interruption or an immediate cancel. */
  ghost predicate ClosesRun(d: Db, e: Event, r: RunId) {
    match e
    case Recover(before, locked, now) => r in Stale(d.runs, before, locked)
    case Interrupt(prefix, claimedBefore, locked, now) =>
      r in OwnedLike(d.runs, PrefixPattern(prefix), claimedBefore, locked)
    case Cancel(id, requester, staleBefore, now) =>
      id == r && CancelOutcomeOf(d, id, requester, staleBefore) == Ok(CancelledNow)
    case _ => false
  }

  ghost predicate NoneOpen(d: Db, r: RunId) {
    forall x :: x in d.execs && d.execs[x].run == r ==> !d.execs[x].status.IsOpen()
  }

  /** Closing a run fails every execution of it that was still open. */
  lemma ClosingFailsExecutions(d: Db, e: Event, r: RunId)
    requires ClosesRun(d, e, r)
    ensures NoneOpen(Step(d, e), r)
    ensures Step(d, e).runs[r].status.Failed?
    ensures forall x :: x in d.execs && d.execs[x].run == r && d.execs[x].status.IsOpen()
              ==> Step(d, e).execs[x].status.ExecFailed?
  {
  }

  lemma {:induction false} StaysClosed(d: Db, es: seq<Event>, x: ExecId)
    requires x in d.execs && !d.execs[x].status.IsOpen()
    ensures var d1 := Run(d, es); x in d1.execs && !d1.execs[x].status.IsOpen()
  {
    if es != [] {
      StaysClosed(d, es[..|es| - 1], x);
      StepMovesExecs(Run(d, es[..|es| - 1]), es[|es| - 1]);
    }
  }

  /** Fencing. Once a run is closed from outside, no execution of it that existed then
      can be started, failed or published in any continuation: a stale owner's publish
      changes no snapshot, link, document, chunk or review. */
  lemma StaleOwnerIsFenced(d: Db, e: Event, r: RunId, es: seq<Event>, x: ExecId, p: Request, now: Time)
    requires ClosesRun(d, e, r) && x in d.execs && d.execs[x].run == r
    requires p.exec == x
    ensures var later := Run(Step(d, e), es);
            && PublishDb(later, p, now) == later
            && (forall stage :: StartExecDb(later, x, stage, now) == later)
            && (forall stage, code :: FailExecDb(later, x, stage, code, now) == later)
  {
    ClosingFailsExecutions(d, e, r);
    StepMovesExecs(d, e);
    StaysClosed(Step(d, e), es, x);
  }

  /** The fence covers exactly the executions that existed. Nothing checks the run when
      an execution is created, so any open execution of a closed run was created after
      the closing. */
  lemma {:induction false} OpenMeansCreatedLater(d: Db, r: RunId, es: seq<Event>, x: ExecId) returns (i: nat)
    requires NoneOpen(d, r)
    requires x in Run(d, es).execs && Run(d, es).execs[x].run == r && Run(d, es).execs[x].status.IsOpen()
    ensures i < |es| && es[i].CreateExec? && es[i].exec == x && es[i].run == r
    ensures x !in Run(d, es[..i]).execs
  {
    var before := es[..|es| - 1];
    var d1 := Run(d, before);
    StepMovesExecs(d1, es[|es| - 1]);
    if x in d1.execs {
      i := OpenMeansCreatedLater(d, r, before, x);
      assert before[..i] == es[..i];
    } else {
      i := |es| - 1;
    }
  }

  /** When a closed run can publish again: creating an execution opens one exactly when
      the run has none for that offering yet. */
  lemma CreateReopensIff(d: Db, r: RunId, x: ExecId, product: string, offering: string)
    requires r in d.runs && NoneOpen(d, r) && x !in d.execs
    ensures !NoneOpen(CreateExecDb(d, x, r, product, offering), r) <==> ExecsFor(d.execs, r, offering) == {}
  {
    var d1 := CreateExecDb(d, x, r, product, offering);
    if ExecsFor(d.execs, r, offering) == {} {
      assert d1.execs[x].run == r && d1.execs[x].status.IsOpen();
    }
  }

  /** And such a late execution publishes, although its run is closed, unless what it
      would accept cannot be projected. */
  lemma LateExecutionPublishes(d: Db, p: Request, now: Time)
    requires p.row.run in d.runs && d.runs[p.row.run].status.Failed?
    requires p.WellFormed() && p.exec !in d.execs && p.snapshot !in d.snapshots
    requires ExecsFor(d.execs, p.row.run, p.row.scope.offering) == {} && AttemptsOf(d.snapshots, p.row) == {}
    ensures var created := CreateExecDb(d, p.exec, p.row.run, p.row.scope.product, p.row.scope.offering);
            && (Publishable(created, p) <==> (p.row.status.Accepted? ==> p.projectable))
            && (Publishable(created, p) ==> PublishDb(created, p, now) != created)
  {
    var created := CreateExecDb(d, p.exec, p.row.run, p.row.scope.product, p.row.scope.offering);
    IndexingLeaves(created, p, now);
    if Publishable(created, p) {
      assert PublishDb(created, p, now).execs[p.exec].status == PublicationStatus(p.row.status);
    }
  }

  // ---- whom an interruption closes ----------------------------------------

  /** With no time bound and no row locked, an interruption closes exactly the running
      runs whose owner's name begins with the prefix, and leaves every other row alone. */
  lemma InterruptClosesExactly(d: Db, prefix: string, r: RunId, now: Time)
    requires r in d.runs
    ensures var owner := d.runs[r].claimedBy;
            InterruptDb(d, prefix, None, {}, now).runs[r] ==
            if d.runs[r].status.Running? && owner.Some? && prefix <= owner.value
            then ClosedRun(d.runs[r], INTERRUPTED, now)
            else d.runs[r]
  {
    if d.runs[r].claimedBy.Some? {
      PatternIsPrefix(prefix, d.runs[r].claimedBy.value);
    }
  }

  /** Given a whole owner name, it closes the runs of that process only: a running run of
      another process on a colon-free host is never closed. */
  lemma OneProcessClosed(d: Db, host: string, pid: string, token: string, r: RunId,
                                            host': string, pid': string, token': string, now: Time)
    requires IsDigits(pid) && IsToken(token) && IsDigits(pid') && IsToken(token') && ':' !in host'
    requires r in d.runs && d.runs[r].status.Running? && d.runs[r].claimedBy == Some(ProcessOwner(host', pid', token'))
    ensures InterruptDb(d, ProcessOwner(host, pid, token), None, {}, now).runs[r].status.Failed?
            <==> d.runs[r].claimedBy == Some(ProcessOwner(host, pid, token))
  {
    InterruptClosesExactly(d, ProcessOwner(host, pid, token), r, now);
    OwnersPrefixFree(host, pid, token, host', pid', token');
  }
}
