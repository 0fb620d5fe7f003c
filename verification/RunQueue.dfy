/**
  The run queue and its lease protocol (app/repositories/monitoring.py,
  PostgresRunRepository). The functions give the table a transaction leaves; the
  class makes the same updates statement by statement and is proved against them.
 */
module RunQueue {
  import opened Wrappers
  import opened Schema
  import opened Names
  import opened Tables
  import opened OwnerPattern

  datatype LeaseState = Held | CancelRequested | Lost | Released
  datatype CancelOutcome = CancelledNow | Requested | NotActive
  datatype Submission = Submission(run: RunId, created: bool, reused: Option<string>)

  const IDEMPOTENCY_REUSED := "run.idempotency_reused"
  const ACTIVE_RUN_EXISTS := "run.active_run_exists"

  // ---- submit -------------------------------------------------------------

  function Recorded(runs: map<RunId, RunRow>, key: string): set<RunId> {
    set r | r in runs && runs[r].key == Some(key)
  }

  /** A run covers its own offering, and a family-wide run (None) covers them all. */
  predicate Overlaps(row: RunRow, product: string, offering: Option<string>) {
    row.product == product && (offering.None? || row.offering.None? || row.offering == offering)
  }

  function ActiveFor(runs: map<RunId, RunRow>, product: string, offering: Option<string>): set<RunId> {
    set r | r in runs && runs[r].status.IsActive() && Overlaps(runs[r], product, offering)
  }

  function NewRun(product: string, offering: Option<string>, key: Option<string>, now: Time): RunRow {
    RunRow(product, offering, key, Queued, now, None, None, None, None, None, None, None)
  }

  function SubmitDb(d: Db, id: RunId, product: string, offering: Option<string>, key: Option<string>, now: Time): Db {
    if key.Some? && Recorded(d.runs, key.value) != {} then d
    else if ActiveFor(d.runs, product, offering) != {} then d
    else if id in d.runs then d
    else d.(runs := d.runs[id := NewRun(product, offering, key, now)])
  }

  /** `ORDER BY queued_at, id` */
  predicate QueuedBefore(runs: map<RunId, RunRow>, a: RunId, b: RunId)
    requires a in runs && b in runs
  {
    runs[a].queuedAt < runs[b].queuedAt || (runs[a].queuedAt == runs[b].queuedAt && a <= b)
  }

  ghost predicate IsFirst(runs: map<RunId, RunRow>, ids: set<RunId>, first: RunId) {
    ids <= runs.Keys && first in ids && forall r :: r in ids ==> QueuedBefore(runs, first, r)
  }

  /** `ORDER BY queued_at, id LIMIT 1` over a non-empty selection. */
  method First(runs: map<RunId, RunRow>, ids: set<RunId>) returns (first: RunId)
    requires ids != {} && ids <= runs.Keys
    ensures IsFirst(runs, ids, first)
  {
    first :| first in ids;
    var rest := ids - {first};
    while rest != {}
      invariant first in ids && rest <= ids
      invariant first !in rest && forall r :: r in ids && r !in rest ==> QueuedBefore(runs, first, r)
      decreases |rest|
    {
      var r :| r in rest;
      if QueuedBefore(runs, r, first) {
        first := r;
      }
      rest := rest - {r};
    }
  }

  // ---- claim and heartbeat ------------------------------------------------

  function Claimed(row: RunRow, owner: string, now: Time): RunRow {
    row.(status := Running, startedAt := Some(now), claimedAt := Some(now), claimedBy := Some(owner))
  }

  function ClaimDb(d: Db, id: RunId, owner: string, now: Time): Db {
    if id in d.runs && d.runs[id].status.Queued? then d.(runs := d.runs[id := Claimed(d.runs[id], owner, now)])
    else d
  }

  /** The queued rows no other transaction has locked (`FOR UPDATE SKIP LOCKED`). */
  function Claimable(runs: map<RunId, RunRow>, locked: set<RunId>): set<RunId> {
    set r | r in runs && runs[r].status.Queued? && r !in locked
  }

  predicate Renewable(d: Db, id: RunId, owner: string) {
    id in d.runs && d.runs[id].status.Running? && d.runs[id].claimedBy == Some(owner)
  }

  function HeartbeatDb(d: Db, id: RunId, owner: string, now: Time): Db {
    if Renewable(d, id, owner) then d.(runs := d.runs[id := d.runs[id].(heartbeatAt := Some(now))]) else d
  }

  /** What a heartbeat reports. */
  function HeartbeatState(d: Db, id: RunId, owner: string): Result<LeaseState> {
    if id !in d.runs then Err(RunNotFound)
    else
      var row := d.runs[id];
      if Renewable(d, id, owner) then Ok(if row.cancelRequestedAt.Some? then CancelRequested else Held)
      else if row.status.Running? || row.error == Some(ABANDONED) || row.error == Some(INTERRUPTED) then Ok(Lost)
      else Ok(Released)
  }

  // ---- closing a run from outside -----------------------------------------

  function FailedExec(row: ExecRow, code: string, now: Time): ExecRow {
    row.(status := ExecFailed, completedAt := Some(now), failureCode := Some(code))
  }

  function FailOpenExecs(execs: map<ExecId, ExecRow>, ids: set<RunId>, code: string, now: Time)
    : (r: map<ExecId, ExecRow>)
    ensures r.Keys == execs.Keys
  {
    map x | x in execs ::
      if execs[x].run in ids && execs[x].status.IsOpen() then FailedExec(execs[x], code, now) else execs[x]
  }

  function ClosedRun(row: RunRow, code: string, now: Time): RunRow {
    row.(status := Failed, completedAt := Some(now), error := Some(code))
  }

  function CloseRuns(runs: map<RunId, RunRow>, ids: set<RunId>, code: string, now: Time): (r: map<RunId, RunRow>)
    ensures r.Keys == runs.Keys
  {
    map id | id in runs :: if id in ids then ClosedRun(runs[id], code, now) else runs[id]
  }

  function CloseDb(d: Db, ids: set<RunId>, code: string, now: Time): Db {
    d.(execs := FailOpenExecs(d.execs, ids, code, now), runs := CloseRuns(d.runs, ids, code, now))
  }

  function LeaseBefore(row: RunRow, cutoff: Time): bool {
    row.LeaseAt().Some? && row.LeaseAt().value < cutoff
  }

  function Stale(runs: map<RunId, RunRow>, before: Time, locked: set<RunId>): set<RunId> {
    set r | r in runs && runs[r].status.Running? && LeaseBefore(runs[r], before) && r !in locked
  }

  function OwnedLike(runs: map<RunId, RunRow>, pattern: string, before: Option<Time>, locked: set<RunId>): set<RunId> {
    set r | r in runs && runs[r].status.Running? && r !in locked
      && runs[r].claimedBy.Some? && Like(runs[r].claimedBy.value, pattern)
      && (before.Some? ==> runs[r].claimedAt.Some? && runs[r].claimedAt.value < before.value)
  }

  function RecoverDb(d: Db, before: Time, locked: set<RunId>, now: Time): Db {
    CloseDb(d, Stale(d.runs, before, locked), ABANDONED, now)
  }

  function InterruptDb(d: Db, prefix: string, before: Option<Time>, locked: set<RunId>, now: Time): Db {
    CloseDb(d, OwnedLike(d.runs, PrefixPattern(prefix), before, locked), INTERRUPTED, now)
  }

  /** Nobody can be executing the run: it is queued, the caller itself claimed it,
      or its lease is older than the caller's cutoff. */
  predicate Unowned(row: RunRow, requester: string, staleBefore: Option<Time>) {
    row.status.Queued? || row.claimedBy == Some(requester)
    || (staleBefore.Some? && LeaseBefore(row, staleBefore.value))
  }

  function AskedToStop(row: RunRow, now: Time): RunRow {
    row.(cancelRequestedAt := if row.cancelRequestedAt.Some? then row.cancelRequestedAt else Some(now))
  }

  function CancelOutcomeOf(d: Db, id: RunId, requester: string, staleBefore: Option<Time>): Result<CancelOutcome> {
    if id !in d.runs then Err(RunNotFound)
    else if !d.runs[id].status.IsActive() then Ok(NotActive)
    else if Unowned(d.runs[id], requester, staleBefore) then Ok(CancelledNow)
    else Ok(Requested)
  }

  function CancelDb(d: Db, id: RunId, requester: string, staleBefore: Option<Time>, now: Time): Db {
    if id !in d.runs || !d.runs[id].status.IsActive() then d
    else if !Unowned(d.runs[id], requester, staleBefore) then d.(runs := d.runs[id := AskedToStop(d.runs[id], now)])
    else d.(execs := FailOpenExecs(d.execs, {id}, CANCELLED, now),
            runs := d.runs[id := AskedToStop(ClosedRun(d.runs[id], CANCELLED, now), now)])
  }

  // ---- closing a run from inside ------------------------------------------

  function FinishDb(d: Db, id: RunId, status: RunStatus, failure: Option<string>, now: Time): Db {
    if status.IsTerminal() && id in d.runs && d.runs[id].status.Running? then
      d.(runs := d.runs[id := d.runs[id].(status := status, completedAt := Some(now), error := failure)])
    else d
  }

  function PauseDb(d: Db, id: RunId): Db {
    if id in d.runs && d.runs[id].status.Running? then
      d.(runs := d.runs[id := d.runs[id].(status := AwaitingReview, claimedBy := None, claimedAt := None)])
    else d
  }

  function FinishAfterReviewDb(d: Db, id: RunId, status: RunStatus, now: Time): Db {
    if status.IsTerminal() && id in d.runs && d.runs[id].status.AwaitingReview? then
      d.(runs := d.runs[id := d.runs[id].(status := status, completedAt := Some(now))])
    else d
  }

  // ---- offering executions ------------------------------------------------

  function ExecsFor(execs: map<ExecId, ExecRow>, run: RunId, offering: string): set<ExecId> {
    set x | x in execs && execs[x].run == run && execs[x].offering == offering
  }

  function CreateExecDb(d: Db, id: ExecId, run: RunId, product: string, offering: string): Db {
    if run !in d.runs || ExecsFor(d.execs, run, offering) != {} || id in d.execs then d
    else d.(execs := d.execs[id := ExecRow(run, product, offering, ExecPending, None, None, None, None)])
  }

  function StartExecDb(d: Db, id: ExecId, stage: string, now: Time): Db {
    if id in d.execs && d.execs[id].status.IsOpen() then
      var row := d.execs[id];
      d.(execs := d.execs[id := row.(status := ExecRunning, stage := Some(stage),
                                     startedAt := if row.startedAt.Some? then row.startedAt else Some(now))])
    else d
  }

  function FailExecDb(d: Db, id: ExecId, stage: string, code: string, now: Time): Db {
    if id in d.execs && d.execs[id].status.IsOpen() then
      d.(execs := d.execs[id := FailedExec(d.execs[id], code, now).(stage := Some(stage))])
    else d
  }

  // ---- the repository -----------------------------------------------------

  /** Each method is one transaction; `now` is its transaction time, `uuid` the id
      it draws and `locked` the rows other transactions hold, which it skips. */
  class RunRepository {
    const db: Database

    constructor (db: Database)
      ensures this.db == db
    {
      this.db := db;
    }

    /** Returns a run for the command: the one recorded under the key, else the first
        active run that overlaps its scope, else a new queued run. */
    method Submit(product: string, offering: Option<string>, idempotencyKey: Option<string>, uuid: RunId, now: Time)
      returns (r: Result<Submission>)
      requires uuid !in db.runs
      modifies db
      ensures var key := if idempotencyKey == Some("") || idempotencyKey.None? then None
                         else Some(Strip(idempotencyKey.value));
              var refused := idempotencyKey.Some? && (key.None? || key.value == "" || |key.value| > 200);
              if refused then r == Err(InvalidArgument) && db.View() == old(db.View())
              else
                && db.View() == SubmitDb(old(db.View()), uuid, product, offering, key, now)
                && r.Ok?
                && (if key.Some? && Recorded(old(db.runs), key.value) != {} then
                      r.value.run in Recorded(old(db.runs), key.value)
                      && !r.value.created && r.value.reused == Some("run.idempotency_reused")
                    else if ActiveFor(old(db.runs), product, offering) != {} then
                      IsFirst(old(db.runs), ActiveFor(old(db.runs), product, offering), r.value.run)
                      && !r.value.created && r.value.reused == Some("run.active_run_exists")
                    else r.value == Submission(uuid, true, None))
      ensures r.Ok? ==>
                (r.value.created <==>
                   forall q :: q in old(db.runs) ==>
                     var row := old(db.runs)[q];
                     && (idempotencyKey.Some? ==> row.key != Some(Strip(idempotencyKey.value)))
                     && !((row.status.Queued? || row.status.Running?) && row.product == product
                          && (offering.None? || row.offering.None? || row.offering == offering)))
      ensures r.Ok? && r.value.created ==>
                && uuid in db.runs && r.value.run == uuid && db.runs == old(db.runs)[uuid := db.runs[uuid]]
                && db.runs[uuid].product == product && db.runs[uuid].offering == offering
                && db.runs[uuid].key == (if idempotencyKey.None? then None else Some(Strip(idempotencyKey.value)))
                && db.runs[uuid].status.Queued? && db.runs[uuid].queuedAt == now && db.runs[uuid].claimedBy.None?
      ensures r.Ok? && !r.value.created ==> db.View() == old(db.View()) && r.value.run in old(db.runs)
    {
      var key: Option<string> := None;
      if idempotencyKey.Some? {
        if idempotencyKey.value != "" {
          key := Some(Strip(idempotencyKey.value));
        }
        if key.None? || key.value == "" || |key.value| > 200 {
          return Err(InvalidArgument);
        }
      }
      if key.Some? {
        var recorded := Recorded(db.runs, key.value);
        assert forall q :: q in db.runs && db.runs[q].key == key ==> q in recorded;
        if recorded != {} {
          var existing :| existing in recorded;
          return Ok(Submission(existing, false, Some(IDEMPOTENCY_REUSED)));
        }
      }
      var active := ActiveFor(db.runs, product, offering);
      assert forall q :: q in db.runs && db.runs[q].status.IsActive() && Overlaps(db.runs[q], product, offering) ==>
                           q in active;
      if active != {} {
        var first := First(db.runs, active);
        return Ok(Submission(first, false, Some(ACTIVE_RUN_EXISTS)));
      }
      db.runs := db.runs[uuid := NewRun(product, offering, key, now)];
      r := Ok(Submission(uuid, true, None));
    }

    /** Claims the first unlocked queued run. */
    method ClaimNext(workerId: string, locked: set<RunId>, now: Time) returns (r: Result<Option<RunId>>)
      modifies db
      ensures !NameAccepted(workerId) ==> r == Err(InvalidArgument) && db.View() == old(db.View())
      ensures NameAccepted(workerId) ==> r.Ok?
      ensures r == Ok(None) ==> Claimable(old(db.runs), locked) == {} && db.View() == old(db.View())
      ensures r.Ok? && r.value.Some? ==>
                IsFirst(old(db.runs), Claimable(old(db.runs), locked), r.value.value)
                && db.View() == ClaimDb(old(db.View()), r.value.value, Strip(workerId), now)
      ensures r == Ok(None) ==> forall q :: q in old(db.runs) && old(db.runs)[q].status.Queued? ==> q in locked
      ensures r.Ok? && r.value.Some? ==>
                var id, before := r.value.value, old(db.runs);
                && id in before && before[id].status.Queued? && id !in locked
                && (forall q :: q in before && before[q].status.Queued? && q !in locked ==>
                      before[id].queuedAt <= before[q].queuedAt
                      && (before[id].queuedAt == before[q].queuedAt ==> id <= q))
                && id in db.runs && db.runs == before[id := db.runs[id]]
                && db.runs[id] == before[id].(status := Running, startedAt := Some(now), claimedAt := Some(now),
                                              claimedBy := Some(Strip(workerId)))
    {
      if !NameAccepted(workerId) {
        return Err(InvalidArgument);
      }
      var candidates := Claimable(db.runs, locked);
      assert forall q :: q in db.runs && db.runs[q].status.Queued? && q !in locked ==> q in candidates;
      if candidates == {} {
        return Ok(None);
      }
      var candidate := First(db.runs, candidates);
      assert forall q :: q in candidates ==> QueuedBefore(db.runs, candidate, q);
      db.runs := db.runs[candidate := Claimed(db.runs[candidate], Strip(workerId), now)];
      r := Ok(Some(candidate));
    }

    method Claim(id: RunId, owner: string, now: Time) returns (r: Result<bool>)
      modifies db
      ensures !NameAccepted(owner) ==> r == Err(InvalidArgument) && db.View() == old(db.View())
      ensures NameAccepted(owner) ==>
                r == Ok(id in old(db.runs) && old(db.runs)[id].status.Queued?)
                && db.View() == ClaimDb(old(db.View()), id, Strip(owner), now)
      ensures r == Ok(true) ==>
                && id in db.runs && db.runs == old(db.runs)[id := db.runs[id]]
                && db.runs[id] == old(db.runs)[id].(status := Running, startedAt := Some(now), claimedAt := Some(now),
                                                    claimedBy := Some(Strip(owner)))
      ensures r != Ok(true) ==> db.View() == old(db.View())
    {
      if !NameAccepted(owner) {
        return Err(InvalidArgument);
      }
      if id in db.runs && db.runs[id].status.Queued? {
        db.runs := db.runs[id := Claimed(db.runs[id], Strip(owner), now)];
        return Ok(true);
      }
      r := Ok(false);
    }

    /** `UPDATE offering_executions ... WHERE run_id = ANY(:run_ids)` and still open. */
    method FailOpenExecutions(ids: set<RunId>, code: string, now: Time)
      modifies db`execs
      ensures db.execs == FailOpenExecs(old(db.execs), ids, code, now)
    {
      var which := set x | x in db.execs && db.execs[x].run in ids && db.execs[x].status.IsOpen();
      db.execs := UpdateWhere(db.execs, which, (row: ExecRow) => FailedExec(row, code, now));
    }

    method CloseRunRows(ids: set<RunId>, code: string, now: Time)
      modifies db`runs
      ensures db.runs == CloseRuns(old(db.runs), ids, code, now)
    {
      var which := set r | r in db.runs && r in ids;
      db.runs := UpdateWhere(db.runs, which, (row: RunRow) => ClosedRun(row, code, now));
    }

    method FailInterrupted(ownerPrefix: string, before: Option<Time>, locked: set<RunId>, now: Time)
      returns (r: Result<nat>)
      modifies db
      ensures !NameAccepted(ownerPrefix) ==> r == Err(InvalidArgument) && db.View() == old(db.View())
      ensures NameAccepted(ownerPrefix) ==>
                db.View() == InterruptDb(old(db.View()), Strip(ownerPrefix), before, locked, now)
                && r == Ok(|OwnedLike(old(db.runs), PrefixPattern(Strip(ownerPrefix)), before, locked)|)
      ensures r.Ok? ==>
                forall q :: q in old(db.runs) ==>
                  var row := old(db.runs)[q];
                  q in db.runs && db.runs[q] ==
                    if row.status.Running? && q !in locked
                       && row.claimedBy.Some? && Strip(ownerPrefix) <= row.claimedBy.value
                       && (before.Some? ==> row.claimedAt.Some? && row.claimedAt.value < before.value)
                    then row.(status := Failed, completedAt := Some(now), error := Some("run.interrupted")) else row
      ensures r.Ok? ==>
                forall x :: x in old(db.execs) ==>
                  var row := old(db.execs)[x];
                  x in db.execs && db.execs[x] ==
                    if (row.status.ExecPending? || row.status.ExecRunning?)
                       && row.run in old(db.runs) && db.runs[row.run] != old(db.runs)[row.run]
                    then row.(status := ExecFailed, completedAt := Some(now), failureCode := Some("run.interrupted"))
                    else row
    {
      if !NameAccepted(ownerPrefix) {
        return Err(InvalidArgument);
      }
      var ids := OwnedLike(db.runs, PrefixPattern(Strip(ownerPrefix)), before, locked);
      CloseNothing(db.View(), INTERRUPTED, now);
      OwnedIffPrefix(db.runs, Strip(ownerPrefix), before, locked);
      if ids != {} {
        FailOpenExecutions(ids, INTERRUPTED, now);
        CloseRunRows(ids, INTERRUPTED, now);
      }
      r := Ok(|ids|);
    }

    method RecoverAbandoned(before: Time, locked: set<RunId>, now: Time) returns (r: Result<nat>)
      modifies db
      ensures db.View() == RecoverDb(old(db.View()), before, locked, now)
      ensures r == Ok(|Stale(old(db.runs), before, locked)|)
      ensures forall q :: q in old(db.runs) ==>
                var row := old(db.runs)[q];
                var lease := if row.heartbeatAt.Some? then row.heartbeatAt else row.claimedAt;
                q in db.runs && db.runs[q] ==
                  if row.status.Running? && q !in locked && lease.Some? && lease.value < before
                  then row.(status := Failed, completedAt := Some(now), error := Some("run.abandoned")) else row
      ensures forall x :: x in old(db.execs) ==>
                var row := old(db.execs)[x];
                x in db.execs && db.execs[x] ==
                  if (row.status.ExecPending? || row.status.ExecRunning?)
                     && row.run in old(db.runs) && db.runs[row.run] != old(db.runs)[row.run]
                  then row.(status := ExecFailed, completedAt := Some(now), failureCode := Some("run.abandoned"))
                  else row
    {
      var ids := Stale(db.runs, before, locked);
      CloseNothing(db.View(), ABANDONED, now);
      if ids != {} {
        FailOpenExecutions(ids, ABANDONED, now);
        CloseRunRows(ids, ABANDONED, now);
      }
      r := Ok(|ids|);
    }

    method Heartbeat(id: RunId, owner: string, now: Time) returns (r: Result<LeaseState>)
      modifies db
      ensures db.View() == HeartbeatDb(old(db.View()), id, owner, now)
      ensures r == HeartbeatState(old(db.View()), id, owner)
      ensures r == Ok(Held) || r == Ok(CancelRequested) ==>
                && id in old(db.runs) && old(db.runs)[id].status.Running? && old(db.runs)[id].claimedBy == Some(owner)
                && db.runs == old(db.runs)[id := old(db.runs)[id].(heartbeatAt := Some(now))]
                && (r == Ok(CancelRequested) <==> old(db.runs)[id].cancelRequestedAt.Some?)
      ensures r != Ok(Held) && r != Ok(CancelRequested) ==> db.View() == old(db.View())
    {
      if id in db.runs && db.runs[id].status.Running? && db.runs[id].claimedBy == Some(owner) {
        db.runs := db.runs[id := db.runs[id].(heartbeatAt := Some(now))];
        return Ok(if db.runs[id].cancelRequestedAt.Some? then CancelRequested else Held);
      }
      if id !in db.runs {
        return Err(RunNotFound);
      }
      var current := db.runs[id];
      if current.status.Running? || current.error == Some(ABANDONED) || current.error == Some(INTERRUPTED) {
        return Ok(Lost);
      }
      r := Ok(Released);
    }

    method CancelRun(id: RunId, requestedBy: string, staleBefore: Option<Time>, now: Time)
      returns (r: Result<CancelOutcome>)
      modifies db
      ensures !NameAccepted(requestedBy) ==> r == Err(InvalidArgument) && db.View() == old(db.View())
      ensures NameAccepted(requestedBy) ==>
                db.View() == CancelDb(old(db.View()), id, Strip(requestedBy), staleBefore, now)
                && r == CancelOutcomeOf(old(db.View()), id, Strip(requestedBy), staleBefore)
      ensures r == Err(RunNotFound) ==> id !in old(db.runs)
      ensures r.Err? || r == Ok(NotActive) ==> db.View() == old(db.View())
      ensures r.Ok? ==>
                && id in old(db.runs) && id in db.runs && db.runs == old(db.runs)[id := db.runs[id]]
                && (r.value.NotActive? <==> !old(db.runs)[id].status.Queued? && !old(db.runs)[id].status.Running?)
      ensures r.Ok? && !r.value.NotActive? ==>
                var row := old(db.runs)[id];
                var lease := if row.heartbeatAt.Some? then row.heartbeatAt else row.claimedAt;
                var asked := if row.cancelRequestedAt.Some? then row.cancelRequestedAt else Some(now);
                && (r.value.CancelledNow? <==>
                      || row.status.Queued? || row.claimedBy == Some(Strip(requestedBy))
                      || (staleBefore.Some? && lease.Some? && lease.value < staleBefore.value))
                && db.runs[id] == if r.value.Requested? then row.(cancelRequestedAt := asked)
                                  else row.(status := Failed, completedAt := Some(now), error := Some("run.cancelled"),
                                            cancelRequestedAt := asked)
      ensures forall x :: x in old(db.execs) ==>
                var row := old(db.execs)[x];
                x in db.execs && db.execs[x] ==
                  if r == Ok(CancelledNow) && row.run == id && (row.status.ExecPending? || row.status.ExecRunning?)
                  then row.(status := ExecFailed, completedAt := Some(now), failureCode := Some("run.cancelled"))
                  else row
    {
      if !NameAccepted(requestedBy) {
        return Err(InvalidArgument);
      }
      if id !in db.runs {
        return Err(RunNotFound);
      }
      if !db.runs[id].status.IsActive() {
        return Ok(NotActive);
      }
      if !Unowned(db.runs[id], Strip(requestedBy), staleBefore) {
        db.runs := db.runs[id := AskedToStop(db.runs[id], now)];
        return Ok(Requested);
      }
      FailOpenExecutions({id}, CANCELLED, now);
      db.runs := db.runs[id := AskedToStop(ClosedRun(db.runs[id], CANCELLED, now), now)];
      r := Ok(CancelledNow);
    }

    method Finish(id: RunId, status: RunStatus, failureCode: Option<string>, now: Time) returns (r: Result<RunRow>)
      modifies db
      ensures db.View() == FinishDb(old(db.View()), id, status, failureCode, now)
      ensures r.Ok? <==> status.IsTerminal() && id in old(db.runs) && old(db.runs)[id].status.Running?
      ensures r.Ok? ==>
                && r.value == old(db.runs)[id].(status := status, completedAt := Some(now), error := failureCode)
                && db.runs == old(db.runs)[id := r.value]
      ensures r.Err? ==> db.View() == old(db.View())
      ensures r.Err? ==> r.error == if !status.IsTerminal() then InvalidArgument
                                    else if id !in old(db.runs) then RunNotFound else InvalidRunTransition
      ensures r == Err(InvalidArgument) <==> status.Queued? || status.Running? || status.AwaitingReview?
    {
      if !status.IsTerminal() {
        return Err(InvalidArgument);
      }
      if id in db.runs && db.runs[id].status.Running? {
        db.runs := db.runs[id := db.runs[id].(status := status, completedAt := Some(now), error := failureCode)];
        return Ok(db.runs[id]);
      }
      r := Err(if id !in db.runs then RunNotFound else InvalidRunTransition);
    }

    method PauseForReview(id: RunId) returns (r: Result<RunRow>)
      modifies db
      ensures db.View() == PauseDb(old(db.View()), id)
      ensures r.Ok? <==> id in old(db.runs) && old(db.runs)[id].status.Running?
      ensures r.Ok? ==>
                && r.value == old(db.runs)[id].(status := AwaitingReview, claimedBy := None, claimedAt := None)
                && db.runs == old(db.runs)[id := r.value]
      ensures r.Err? ==> r.error == InvalidRunTransition && db.View() == old(db.View())
    {
      if id in db.runs && db.runs[id].status.Running? {
        db.runs := db.runs[id := db.runs[id].(status := AwaitingReview, claimedBy := None, claimedAt := None)];
        return Ok(db.runs[id]);
      }
      r := Err(InvalidRunTransition);
    }

    method FinishAfterReview(id: RunId, status: RunStatus, now: Time) returns (r: Result<RunRow>)
      modifies db
      ensures db.View() == FinishAfterReviewDb(old(db.View()), id, status, now)
      ensures r.Ok? <==> status.IsTerminal() && id in old(db.runs) && old(db.runs)[id].status.AwaitingReview?
      ensures r.Ok? ==>
                && r.value == old(db.runs)[id].(status := status, completedAt := Some(now))
                && db.runs == old(db.runs)[id := r.value]
      ensures r.Err? ==> r.error == if !status.IsTerminal() then InvalidArgument else InvalidRunTransition
      ensures r == Err(InvalidArgument) <==> status.Queued? || status.Running? || status.AwaitingReview?
      ensures r.Err? ==> db.View() == old(db.View())
    {
      if !status.IsTerminal() {
        return Err(InvalidArgument);
      }
      if id in db.runs && db.runs[id].status.AwaitingReview? {
        db.runs := db.runs[id := db.runs[id].(status := status, completedAt := Some(now))];
        return Ok(db.runs[id]);
      }
      r := Err(InvalidRunTransition);
    }

    /** Returns the execution of the run's offering, creating it at most once. */
    method CreateOfferingExecution(run: RunId, product: string, offering: string, uuid: ExecId)
      returns (r: Result<ExecId>)
      requires uuid !in db.execs
      modifies db
      ensures db.View() == CreateExecDb(old(db.View()), uuid, run, product, offering)
      ensures r.Ok? <==> run in old(db.runs) || ExecsFor(old(db.execs), run, offering) != {}
      ensures r.Ok? ==> r.value in ExecsFor(db.execs, run, offering)
      ensures r.Err? ==> r.error == RunNotFound && db.View() == old(db.View())
      ensures r.Ok? ==>
                && r.value in db.execs && db.execs[r.value].run == run && db.execs[r.value].offering == offering
                && (r.value in old(db.execs) ==> db.View() == old(db.View()))
                && (r.value !in old(db.execs) ==>
                      && db.execs == old(db.execs)[r.value := db.execs[r.value]]
                      && db.execs[r.value].product == product && db.execs[r.value].status.ExecPending?
                      && forall x :: x in old(db.execs) && old(db.execs)[x].run == run ==>
                           old(db.execs)[x].offering != offering)
    {
      var existing := ExecsFor(db.execs, run, offering);
      if existing != {} {
        var x :| x in existing;
        return Ok(x);
      }
      if run !in db.runs {
        return Err(RunNotFound);
      }
      assert forall x :: x in db.execs && db.execs[x].run == run && db.execs[x].offering == offering ==> x in existing;
      db.execs := db.execs[uuid := ExecRow(run, product, offering, ExecPending, None, None, None, None)];
      r := Ok(uuid);
    }

    method StartOfferingExecution(id: ExecId, stage: string, now: Time) returns (r: Result<()>)
      modifies db
      ensures db.View() == StartExecDb(old(db.View()), id, stage, now)
      ensures r == if id in old(db.execs) && old(db.execs)[id].status.IsOpen() then Ok(())
                   else Err(InvalidRunTransition)
      ensures r.Ok? ==>
                var row := old(db.execs)[id];
                && (row.status.ExecPending? || row.status.ExecRunning?) && id in db.execs
                && db.execs == old(db.execs)[id := db.execs[id]]
                && db.execs[id].status.ExecRunning? && db.execs[id].stage == Some(stage)
                && db.execs[id].startedAt == if row.startedAt.Some? then row.startedAt else Some(now)
      ensures r.Err? ==> db.View() == old(db.View())
    {
      if id !in db.execs || !db.execs[id].status.IsOpen() {
        return Err(InvalidRunTransition);
      }
      var row := db.execs[id];
      db.execs := db.execs[id := row.(status := ExecRunning, stage := Some(stage),
                                      startedAt := if row.startedAt.Some? then row.startedAt else Some(now))];
      r := Ok(());
    }

    method FailOfferingExecution(id: ExecId, stage: string, failureCode: string, now: Time) returns (r: Result<()>)
      modifies db
      ensures var refused := |stage| > 100 || Strip(stage) == "" || |failureCode| > 100 || Strip(failureCode) == "";
              if refused then r == Err(InvalidArgument) && db.View() == old(db.View())
              else
                db.View() == FailExecDb(old(db.View()), id, Strip(stage), Strip(failureCode), now)
                && r == if id in old(db.execs) && old(db.execs)[id].status.IsOpen() then Ok(())
                     else Err(InvalidRunTransition)
      ensures r.Ok? ==>
                && (old(db.execs)[id].status.ExecPending? || old(db.execs)[id].status.ExecRunning?) && id in db.execs
                && db.execs == old(db.execs)[id := db.execs[id]]
                && db.execs[id].status.ExecFailed? && db.execs[id].stage == Some(Strip(stage))
                && db.execs[id].failureCode == Some(Strip(failureCode)) && db.execs[id].completedAt == Some(now)
      ensures r.Err? ==> db.View() == old(db.View())
    {
      if |stage| > 100 || Strip(stage) == "" || |failureCode| > 100 || Strip(failureCode) == "" {
        return Err(InvalidArgument);
      }
      if id !in db.execs || !db.execs[id].status.IsOpen() {
        return Err(InvalidRunTransition);
      }
      db.execs := db.execs[id := FailedExec(db.execs[id], Strip(failureCode), now).(stage := Some(Strip(stage)))];
      r := Ok(());
    }
  }

  lemma OwnedIffPrefix(runs: map<RunId, RunRow>, prefix: string, before: Option<Time>, locked: set<RunId>)
    ensures forall q :: q in runs ==>
              (q in OwnedLike(runs, PrefixPattern(prefix), before, locked) <==>
                 && runs[q].status.Running? && q !in locked && runs[q].claimedBy.Some?
                 && prefix <= runs[q].claimedBy.value
                 && (before.Some? ==> runs[q].claimedAt.Some? && runs[q].claimedAt.value < before.value))
  {
    forall q | q in runs && runs[q].claimedBy.Some?
      ensures Like(runs[q].claimedBy.value, PrefixPattern(prefix)) <==> prefix <= runs[q].claimedBy.value
    {
      PatternIsPrefix(prefix, runs[q].claimedBy.value);
    }
  }

  lemma CloseNothing(d: Db, code: string, now: Time)
    ensures CloseDb(d, {}, code, now) == d
  {
    assert FailOpenExecs(d.execs, {}, code, now) == d.execs;
    assert CloseRuns(d.runs, {}, code, now) == d.runs;
  }
}
