/**
  What holds of a run over whole histories: its timestamps, that its end is final,
  that it is executed once, and what its owner's heartbeats can report.
 */
module RunHistory {
  import opened Wrappers
  import opened Schema
  import opened Names
  import opened OwnerPattern
  import opened RunQueue
  import opened History

  // ---- lifecycle ----------------------------------------------------------

  /** `MonitoringRun.validate_lifecycle` */
  predicate ValidLifecycle(row: RunRow) {
    && (row.status.Running? || row.status.AwaitingReview? ==> row.startedAt.Some?)
    && (row.status.IsTerminal() ==> row.completedAt.Some?)
    && (row.startedAt.Some? ==> row.queuedAt <= row.startedAt.value)
    && (row.completedAt.Some? && row.startedAt.Some? ==> row.startedAt.value <= row.completedAt.value)
  }

  predicate StampedBy(row: RunRow, now: Time) {
    && row.queuedAt <= now
    && (row.startedAt.Some? ==> row.startedAt.value <= now)
    && (row.completedAt.Some? ==> row.completedAt.value <= now)
  }

  /** What a run carries before it starts and before it ends. */
  predicate Unmarked(row: RunRow) {
    && (row.status.Queued? ==>
          row.startedAt.None? && row.claimedBy.None? && row.heartbeatAt.None? && row.cancelRequestedAt.None?)
    && (!row.status.IsTerminal() ==> row.completedAt.None? && row.error.None?)
    && (row.status.Running? ==> row.claimedBy.Some? && row.claimedAt.Some?)
  }

  predicate RowOk(row: RunRow, now: Time) {
    ValidLifecycle(row) && StampedBy(row, now) && Unmarked(row)
  }

  lemma MoveKeepsRow(a: RunRow, b: RunRow, before: Time, now: Time)
    requires RowOk(a, before) && before <= now && RowMove(a, b, now)
    ensures RowOk(b, now)
  {
  }

  ghost predicate RowsOk(d: Db, now: Time) {
    forall r :: r in d.runs ==> RowOk(d.runs[r], now)
  }

  lemma StepKeepsRows(d: Db, e: Event, before: Time)
    requires RowsOk(d, before) && before <= e.now
    ensures RowsOk(Step(d, e), e.now)
  {
    StepMovesRuns(d, e);
    var d1 := Step(d, e);
    forall r | r in d1.runs ensures RowOk(d1.runs[r], e.now) {
      if r in d.runs {
        MoveKeepsRow(d.runs[r], d1.runs[r], before, e.now);
      }
    }
  }

  lemma {:induction false} HistoryKeepsRows(d: Db, es: seq<Event>, start: Time) returns (now: Time)
    requires RowsOk(d, start) && Clocked(es, start)
    ensures RowsOk(Run(d, es), now)
    ensures start <= now && forall i :: 0 <= i < |es| ==> es[i].now <= now
    ensures now == start || (es != [] && now == es[|es| - 1].now)
  {
    now := start;
    if es != [] {
      var before := HistoryKeepsRows(d, es[..|es| - 1], start);
      now := es[|es| - 1].now;
      StepKeepsRows(Run(d, es[..|es| - 1]), es[|es| - 1], before);
    }
  }

  /** With transactions in the order of their times every row satisfies the lifecycle rules,
      a run cancelled before it ever started included. */
  lemma {:induction false} EveryRowIsValid(es: seq<Event>, start: Time, r: RunId)
    requires Clocked(es, start) && r in Run(EMPTY, es).runs
    ensures ValidLifecycle(Run(EMPTY, es).runs[r])
  {
    var now := HistoryKeepsRows(EMPTY, es, start);
  }

  ghost predicate NoneMarked(runs: map<RunId, RunRow>) {
    forall r :: r in runs ==> Unmarked(runs[r])
  }

  lemma MovesKeepUnmarked(runs: map<RunId, RunRow>, runs': map<RunId, RunRow>, now: Time)
    requires NoneMarked(runs) && RunsMove(runs, runs', now)
    ensures NoneMarked(runs')
  {
    forall r | r in runs' ensures Unmarked(runs'[r]) {
      if r in runs {
        MoveKeepsUnmarked(runs[r], runs'[r], now);
      }
    }
  }

  /** Clock or no clock, no row is marked before its time. */
  lemma {:induction false} UnmarkedAlways(es: seq<Event>)
    ensures NoneMarked(Run(EMPTY, es).runs)
  {
    if es != [] {
      var d, e := Run(EMPTY, es[..|es| - 1]), es[|es| - 1];
      UnmarkedAlways(es[..|es| - 1]);
      StepMovesRuns(d, e);
      MovesKeepUnmarked(d.runs, Step(d, e).runs, e.now);
    }
  }

  lemma MoveKeepsUnmarked(a: RunRow, b: RunRow, now: Time)
    requires Unmarked(a) && RowMove(a, b, now)
    ensures Unmarked(b)
  {
  }

  /** What the clock is for: whatever the times of a history were, claiming a queued run
      leaves a valid row exactly when the claim does not precede the queueing. */
  lemma {:induction false} ClaimIsValidIff(es: seq<Event>, r: RunId, owner: string, now: Time)
    requires r in Run(EMPTY, es).runs && Run(EMPTY, es).runs[r].status.Queued?
    ensures var d := Run(EMPTY, es);
            ValidLifecycle(Step(d, Event.Claim(r, owner, now)).runs[r]) <==> d.runs[r].queuedAt <= now
  {
    UnmarkedAlways(es);
  }

  /** The time of a step that starts a run, or ends one that has started, is not before the
      stamp it must follow. */
  predicate StampsInOrder(a: RunRow, b: RunRow, now: Time) {
    && (a.status.Queued? && b.status.Running? ==> a.queuedAt <= now)
    && (!a.status.IsTerminal() && b.status.IsTerminal() && a.startedAt.Some? ==> a.startedAt.value <= now)
  }

  lemma MoveIsValidIff(a: RunRow, b: RunRow, now: Time)
    requires Unmarked(a) && ValidLifecycle(a) && RowMove(a, b, now)
    ensures ValidLifecycle(b) <==> StampsInOrder(a, b, now)
  {
  }

  /** The same of every step on every run: it keeps a valid row valid exactly when its stamps
      are in order. */
  lemma {:induction false} StepIsValidIff(es: seq<Event>, r: RunId, e: Event)
    requires r in Run(EMPTY, es).runs && ValidLifecycle(Run(EMPTY, es).runs[r])
    ensures var d := Run(EMPTY, es);
            && r in Step(d, e).runs
            && (ValidLifecycle(Step(d, e).runs[r]) <==> StampsInOrder(d.runs[r], Step(d, e).runs[r], e.now))
  {
    var d := Run(EMPTY, es);
    UnmarkedAlways(es);
    StepMovesRuns(d, e);
    MoveIsValidIff(d.runs[r], Step(d, e).runs[r], e.now);
  }

  ghost predicate RowsValid(runs: map<RunId, RunRow>) {
    forall r :: r in runs ==> ValidLifecycle(runs[r])
  }

  /** Every run a step starts or ends gets its stamps in order. */
  ghost predicate KeepsStampsInOrder(d: Db, e: Event) {
    forall r :: r in d.runs && r in Step(d, e).runs ==> StampsInOrder(d.runs[r], Step(d, e).runs[r], e.now)
  }

  lemma MovesAreValidIff(runs: map<RunId, RunRow>, runs': map<RunId, RunRow>, now: Time)
    requires NoneMarked(runs) && RowsValid(runs) && RunsMove(runs, runs', now)
    ensures RowsValid(runs') <==> forall r :: r in runs ==> StampsInOrder(runs[r], runs'[r], now)
  {
    forall r | r in runs ensures ValidLifecycle(runs'[r]) <==> StampsInOrder(runs[r], runs'[r], now) {
      MoveIsValidIff(runs[r], runs'[r], now);
    }
    forall r | r in runs' && r !in runs ensures ValidLifecycle(runs'[r]) {
      assert NewRow(runs'[r], now);
    }
  }

  lemma PrefixIsValidIff(es: seq<Event>, i: nat)
    requires i < |es| && RowsValid(Run(EMPTY, es[..i]).runs)
    ensures RowsValid(Run(EMPTY, es[..i + 1]).runs) <==> KeepsStampsInOrder(Run(EMPTY, es[..i]), es[i])
  {
    var d := Run(EMPTY, es[..i]);
    UnmarkedAlways(es[..i]);
    StepMovesRuns(d, es[i]);
    MovesAreValidIff(d.runs, Step(d, es[i]).runs, es[i].now);
    assert es[..i + 1][..i] == es[..i];
  }

  lemma {:induction false} ValidThrough(es: seq<Event>, n: nat)
    requires n <= |es| && forall i :: 0 <= i < n ==> KeepsStampsInOrder(Run(EMPTY, es[..i]), es[i])
    ensures RowsValid(Run(EMPTY, es[..n]).runs)
  {
    if n > 0 {
      ValidThrough(es, n - 1);
      PrefixIsValidIff(es, n - 1);
    }
  }

  /** A history's rows are valid all along exactly when each of its steps stamps in order. */
  lemma {:induction false} RowsValidIff(es: seq<Event>)
    ensures (forall n :: 0 <= n <= |es| ==> RowsValid(Run(EMPTY, es[..n]).runs))
            <==> forall i :: 0 <= i < |es| ==> KeepsStampsInOrder(Run(EMPTY, es[..i]), es[i])
  {
    if forall i :: 0 <= i < |es| ==> KeepsStampsInOrder(Run(EMPTY, es[..i]), es[i]) {
      forall n | 0 <= n <= |es| ensures RowsValid(Run(EMPTY, es[..n]).runs) {
        ValidThrough(es, n);
      }
    }
    if forall n :: 0 <= n <= |es| ==> RowsValid(Run(EMPTY, es[..n]).runs) {
      forall i | 0 <= i < |es| ensures KeepsStampsInOrder(Run(EMPTY, es[..i]), es[i]) {
        assert RowsValid(Run(EMPTY, es[..i]).runs) && RowsValid(Run(EMPTY, es[..i + 1]).runs);
        PrefixIsValidIff(es, i);
      }
    }
  }

  /** A transaction's time is when it began. A claim that began before the submission it
      then finds committed breaks the rules. */
  lemma BackwardClockBreaksIt()
    ensures var es := [Event.Submit(0, "mortgage", None, None, 10), Event.Claim(0, "w", 9)];
            0 in Run(EMPTY, es).runs && !ValidLifecycle(Run(EMPTY, es).runs[0])
  {
    var es := [Event.Submit(0, "mortgage", None, None, 10), Event.Claim(0, "w", 9)];
    assert es[..1] == [es[0]] && es[..1][..0] == [];
    assert Run(EMPTY, es[..1]) == Step(EMPTY, es[0]);
    assert ActiveFor(map[], "mortgage", None) == {};
    ClaimIsValidIff(es[..1], 0, "w", 9);
  }

  // ---- a run's end is final and its execution happens once ----------------

  function Rank(s: RunStatus): nat {
    if s.Queued? then 0 else if s.Running? then 1 else if s.AwaitingReview? then 2 else 3
  }

  /** `b` is a later row of the same run: further on, of the same scope and key, and the
      same in every column once terminal. */
  predicate MovedOn(a: RunRow, b: RunRow) {
    Rank(a.status) <= Rank(b.status)
    && b.product == a.product && b.offering == a.offering && b.key == a.key && b.queuedAt == a.queuedAt
    && (a.status.IsTerminal() ==> b == a)
  }

  lemma MoveMovesOn(a: RunRow, b: RunRow, now: Time)
    requires RowMove(a, b, now)
    ensures MovedOn(a, b)
  {
  }

  /** A run only moves forward, keeps its scope and key, and once terminal its row
      never changes again in any column. */
  lemma {:induction false} RunMovesForward(d: Db, es: seq<Event>, r: RunId)
    requires r in d.runs
    ensures r in Run(d, es).runs && MovedOn(d.runs[r], Run(d, es).runs[r])
  {
    if es != [] {
      var d1, e := Run(d, es[..|es| - 1]), es[|es| - 1];
      RunMovesForward(d, es[..|es| - 1], r);
      StepMovesRuns(d1, e);
      MoveMovesOn(d1.runs[r], Step(d1, e).runs[r], e.now);
    }
  }

  /** Event i takes the run from the queue: the only way it starts executing. */
  ghost predicate StartsAt(d: Db, es: seq<Event>, i: nat, r: RunId) {
    i < |es| && r in Run(d, es[..i]).runs && Run(d, es[..i]).runs[r].status.Queued?
    && r in Run(d, es[..i + 1]).runs && Run(d, es[..i + 1]).runs[r].status.Running?
  }

  lemma StartedOnce(d: Db, es: seq<Event>, i: nat, j: nat, r: RunId)
    requires StartsAt(d, es, i, r) && StartsAt(d, es, j, r)
    ensures i == j
  {
    if i < j {
      RestAfter(d, es, i + 1, j);
      RunMovesForward(Run(d, es[..i + 1]), es[i + 1..j], r);
      assert false;
    } else if j < i {
      RestAfter(d, es, j + 1, i);
      RunMovesForward(Run(d, es[..j + 1]), es[j + 1..i], r);
      assert false;
    }
  }

  lemma RestAfter(d: Db, es: seq<Event>, i: nat, j: nat)
    requires i <= j <= |es|
    ensures Run(d, es[..j]) == Run(Run(d, es[..i]), es[i..j])
  {
    assert es[..j] == es[..i] + es[i..j];
    RunConcat(d, es[..i], es[i..j]);
  }

  // ---- what the owner's heartbeats report ---------------------------------

  /** What became of a claimed run. */
  datatype Fate =
    | Executing(asked: bool)
    | ClosedAbandoned
    | ClosedInterrupted
    | ClosedCancelled
    | Ended
    | Paused

  function NextFate(d: Db, e: Event, r: RunId, fate: Fate): Fate {
    if !fate.Executing? then fate
    else match e
      case Recover(before, locked, now) => if r in Stale(d.runs, before, locked) then ClosedAbandoned else fate
      case Interrupt(prefix, claimedBefore, locked, now) =>
        if r in OwnedLike(d.runs, PrefixPattern(prefix), claimedBefore, locked) then ClosedInterrupted else fate
      case Cancel(id, requester, staleBefore, now) =>
        if id != r || r !in d.runs then fate
        else if Unowned(d.runs[r], requester, staleBefore) then ClosedCancelled else Executing(true)
      case Finish(id, status, failure, now) => if id == r && status.IsTerminal() then Ended else fate
      case Pause(id, now) => if id == r then Paused else fate
      case _ => fate
  }

  /** The fate of a run that was executing at d, decided by the events alone: which of
      them closed it, and whether a cancel request came first. */
  function FateOf(d: Db, es: seq<Event>, r: RunId): Fate {
    if es == [] then Executing(false)
    else NextFate(Run(d, es[..|es| - 1]), es[|es| - 1], r, FateOf(d, es[..|es| - 1], r))
  }

  function Report(fate: Fate): LeaseState {
    match fate
    case Executing(asked) => if asked then CancelRequested else Held
    case ClosedAbandoned => Lost
    case ClosedInterrupted => Lost
    case _ => Released
  }

  /** Callers finish a run with their own failure codes. */
  ghost predicate OwnCodes(es: seq<Event>) {
    forall i :: 0 <= i < |es| && es[i].Finish? ==>
      es[i].failure != Some(ABANDONED) && es[i].failure != Some(INTERRUPTED)
  }

  predicate RowShows(row: RunRow, owner: string, fate: Fate) {
    match fate
    case Executing(asked) =>
      row.status.Running? && row.claimedBy == Some(owner) && (row.cancelRequestedAt.Some? <==> asked) && row.error.None?
    case ClosedAbandoned => row.status.Failed? && row.error == Some(ABANDONED)
    case ClosedInterrupted => row.status.Failed? && row.error == Some(INTERRUPTED)
    case ClosedCancelled => row.status.Failed? && row.error == Some(CANCELLED)
    case Ended => row.status.IsTerminal() && row.error != Some(ABANDONED) && row.error != Some(INTERRUPTED)
    case Paused => (row.status.AwaitingReview? || row.status.IsTerminal()) && row.error.None?
  }

  lemma SettledShows(a: RunRow, b: RunRow, now: Time, owner: string, fate: Fate)
    requires RowShows(a, owner, fate) && !fate.Executing? && RowMove(a, b, now)
    ensures RowShows(b, owner, fate)
  {
  }

  lemma RecoverShows(d: Db, e: Event, r: RunId, owner: string, asked: bool)
    requires r in d.runs && RowShows(d.runs[r], owner, Executing(asked)) && e.Recover?
    ensures r in Step(d, e).runs && RowShows(Step(d, e).runs[r], owner, NextFate(d, e, r, Executing(asked)))
  {
    var ids := Stale(d.runs, e.before, e.locked);
    assert Step(d, e).runs[r] == if r in ids then ClosedRun(d.runs[r], ABANDONED, e.now) else d.runs[r];
  }

  lemma InterruptShows(d: Db, e: Event, r: RunId, owner: string, asked: bool)
    requires r in d.runs && RowShows(d.runs[r], owner, Executing(asked)) && e.Interrupt?
    ensures r in Step(d, e).runs && RowShows(Step(d, e).runs[r], owner, NextFate(d, e, r, Executing(asked)))
  {
    var ids := OwnedLike(d.runs, PrefixPattern(e.prefix), e.claimedBefore, e.locked);
    assert Step(d, e).runs[r] == if r in ids then ClosedRun(d.runs[r], INTERRUPTED, e.now) else d.runs[r];
  }

  lemma CancelShows(d: Db, e: Event, r: RunId, owner: string, asked: bool)
    requires r in d.runs && RowShows(d.runs[r], owner, Executing(asked)) && e.Cancel?
    ensures r in Step(d, e).runs && RowShows(Step(d, e).runs[r], owner, NextFate(d, e, r, Executing(asked)))
  {
    if e.id == r {
      assert Step(d, e).runs[r] ==
        if Unowned(d.runs[r], e.requester, e.staleBefore)
        then AskedToStop(ClosedRun(d.runs[r], CANCELLED, e.now), e.now)
        else AskedToStop(d.runs[r], e.now);
    }
  }

  lemma OwnExecutingShows(d: Db, e: Event, r: RunId, owner: string, asked: bool)
    requires r in d.runs && RowShows(d.runs[r], owner, Executing(asked))
    requires e.Claim? || e.Heartbeat? || e.Finish? || e.Pause? || e.FinishAfterReview? || e.Submit?
    requires e.Finish? ==> e.failure != Some(ABANDONED) && e.failure != Some(INTERRUPTED)
    ensures r in Step(d, e).runs && RowShows(Step(d, e).runs[r], owner, NextFate(d, e, r, Executing(asked)))
  {
  }

  lemma StepShows(d: Db, e: Event, r: RunId, owner: string, fate: Fate)
    requires r in d.runs && RowShows(d.runs[r], owner, fate)
    requires e.Finish? ==> e.failure != Some(ABANDONED) && e.failure != Some(INTERRUPTED)
    ensures r in Step(d, e).runs && RowShows(Step(d, e).runs[r], owner, NextFate(d, e, r, fate))
  {
    StepMovesRuns(d, e);
    if !fate.Executing? {
      SettledShows(d.runs[r], Step(d, e).runs[r], e.now, owner, fate);
    } else if e.Recover? {
      RecoverShows(d, e, r, owner, fate.asked);
    } else if e.Interrupt? {
      InterruptShows(d, e, r, owner, fate.asked);
    } else if e.Cancel? {
      CancelShows(d, e, r, owner, fate.asked);
    } else if e.IsPublication() {
      PublicationLeavesRuns(d, e);
    } else if e.CreateExec? || e.StartExec? || e.FailExec? {
      assert Step(d, e).runs == d.runs;
    } else {
      OwnExecutingShows(d, e, r, owner, fate.asked);
    }
  }

  lemma {:induction false} HistoryShows(d: Db, es: seq<Event>, r: RunId, owner: string)
    requires r in d.runs && RowShows(d.runs[r], owner, Executing(false)) && OwnCodes(es)
    ensures r in Run(d, es).runs && RowShows(Run(d, es).runs[r], owner, FateOf(d, es, r))
  {
    if es != [] {
      HistoryShows(d, es[..|es| - 1], r, owner);
      StepShows(Run(d, es[..|es| - 1]), es[|es| - 1], r, owner, FateOf(d, es[..|es| - 1], r));
    }
  }

  /** From the claim on, in any history, the claimer's heartbeat reports exactly the
      run's fate: HELD or CANCEL_REQUESTED while it executes, LOST after recovery or
      interruption, RELEASED after it ended, paused or was cancelled. */
  lemma {:induction false} HeartbeatReportsFate(before: seq<Event>, r: RunId, owner: string, now: Time,
                                                after: seq<Event>)
    requires r in Run(EMPTY, before).runs && Run(EMPTY, before).runs[r].status.Queued?
    requires OwnCodes(after)
    ensures var claimed := Step(Run(EMPTY, before), Event.Claim(r, owner, now));
            HeartbeatState(Run(claimed, after), r, owner) == Ok(Report(FateOf(claimed, after, r)))
  {
    UnmarkedAlways(before);
    HistoryShows(Step(Run(EMPTY, before), Event.Claim(r, owner, now)), after, r, owner);
  }

  /** Once asked to stop, a run that still executes stays asked; and its fate, once
      decided, never changes. */
  lemma {:induction false} FateIsSettled(d: Db, a: seq<Event>, b: seq<Event>, r: RunId)
    ensures !FateOf(d, a, r).Executing? ==> FateOf(d, a + b, r) == FateOf(d, a, r)
    ensures FateOf(d, a, r) == Executing(true) ==> FateOf(d, a + b, r) != Executing(false)
  {
    if b == [] {
      assert a + b == a;
    } else {
      assert (a + b)[..|a + b| - 1] == a + b[..|b| - 1];
      FateIsSettled(d, a, b[..|b| - 1], r);
    }
  }

  /** What the claimer's heartbeats tell it for good: a cancel request is never taken
      back, and LOST and RELEASED are final. */
  lemma HeartbeatIsSettled(before: seq<Event>, r: RunId, owner: string, now: Time, a: seq<Event>, b: seq<Event>)
    requires r in Run(EMPTY, before).runs && Run(EMPTY, before).runs[r].status.Queued?
    requires OwnCodes(a + b)
    ensures var claimed := Step(Run(EMPTY, before), Event.Claim(r, owner, now));
            var first := HeartbeatState(Run(claimed, a), r, owner);
            var later := HeartbeatState(Run(claimed, a + b), r, owner);
            && (first == Ok(CancelRequested) ==> later != Ok(Held))
            && (first == Ok(Lost) ==> later == Ok(Lost))
            && (first == Ok(Released) ==> later == Ok(Released))
  {
    var claimed := Step(Run(EMPTY, before), Event.Claim(r, owner, now));
    assert OwnCodes(a) by {
      assert forall i :: 0 <= i < |a| ==> a[i] == (a + b)[i];
    }
    HeartbeatReportsFate(before, r, owner, now, a);
    HeartbeatReportsFate(before, r, owner, now, a + b);
    FateIsSettled(claimed, a, b, r);
  }

  /** A claim stores the stripped name while a heartbeat compares the name as given.
      So the claimer of an executing run hears "running under another owner" exactly
      when it uses a name that is not already stripped. */
  lemma {:induction false} ClaimerSeesItself(before: seq<Event>, r: RunId, name: string, now: Time, after: seq<Event>)
    requires r in Run(EMPTY, before).runs && Run(EMPTY, before).runs[r].status.Queued?
    requires var claimed := Step(Run(EMPTY, before), Event.Claim(r, Strip(name), now));
             OwnCodes(after) && FateOf(claimed, after, r).Executing?
    ensures var claimed := Step(Run(EMPTY, before), Event.Claim(r, Strip(name), now));
            HeartbeatState(Run(claimed, after), r, name) == Ok(Lost) <==> name != Strip(name)
  {
    UnmarkedAlways(before);
    HistoryShows(Step(Run(EMPTY, before), Event.Claim(r, Strip(name), now)), after, r, Strip(name));
  }

  // ---- every status is reached --------------------------------------------

  /** What leads a run of an empty queue to each status. */
  function Towards(status: RunStatus, product: string): seq<Event> {
    var submitted := [Event.Submit(0, product, None, None, 1)];
    var claimed := submitted + [Event.Claim(0, "w", 2)];
    match status
    case Queued => submitted
    case Running => claimed
    case AwaitingReview => claimed + [Event.Pause(0, 3)]
    case PartialSuccess => claimed + [Event.Pause(0, 3)] + [Event.FinishAfterReview(0, PartialSuccess, 4)]
    case Succeeded => claimed + [Event.Finish(0, Succeeded, None, 3)]
    case Failed => claimed + [Event.Finish(0, Failed, Some("x"), 3)]
  }

  lemma SubmittedAlone(product: string)
    ensures Run(EMPTY, Towards(Queued, product)) ==
            EMPTY.(runs := map[0 := RunRow(product, None, None, Queued, 1, None, None, None, None, None, None, None)])
  {
    assert Towards(Queued, product)[..0] == [];
    assert ActiveFor(map[], product, None) == {};
  }

  lemma ClaimedAlone(product: string)
    ensures Run(EMPTY, Towards(Running, product)).runs ==
            map[0 := RunRow(product, None, None, Running, 1, Some(2), None, None, Some("w"), Some(2), None, None)]
  {
    SubmittedAlone(product);
    RunOne(EMPTY, Towards(Queued, product), Event.Claim(0, "w", 2));
  }

  lemma PausedAlone(product: string)
    ensures Run(EMPTY, Towards(AwaitingReview, product)).runs ==
            map[0 := RunRow(product, None, None, AwaitingReview, 1, Some(2), None, None, None, None, None, None)]
  {
    ClaimedAlone(product);
    RunOne(EMPTY, Towards(Running, product), Event.Pause(0, 3));
  }

  lemma FinishedAlone(status: RunStatus, product: string, failure: Option<string>)
    requires status.Succeeded? || status.Failed?
    ensures var d := Run(EMPTY, Towards(Running, product) + [Event.Finish(0, status, failure, 3)]);
            0 in d.runs && d.runs[0].status == status
  {
    ClaimedAlone(product);
    RunOne(EMPTY, Towards(Running, product), Event.Finish(0, status, failure, 3));
  }

  lemma FinishedAfterReview(product: string)
    ensures var d := Run(EMPTY, Towards(PartialSuccess, product));
            0 in d.runs && d.runs[0].status == PartialSuccess
  {
    PausedAlone(product);
    RunOne(EMPTY, Towards(AwaitingReview, product), Event.FinishAfterReview(0, PartialSuccess, 4));
  }

  /** No status is out of reach: the histories of these theorems lead to all of them. */
  lemma EveryStatusIsReached(status: RunStatus, product: string)
    ensures 0 in Run(EMPTY, Towards(status, product)).runs
    ensures Run(EMPTY, Towards(status, product)).runs[0].status == status
  {
    match status
    case Queued => SubmittedAlone(product);
    case Running => ClaimedAlone(product);
    case AwaitingReview => PausedAlone(product);
    case PartialSuccess => FinishedAfterReview(product);
    case Succeeded => FinishedAlone(Succeeded, product, None);
    case Failed => FinishedAlone(Failed, product, Some("x"));
  }
}
