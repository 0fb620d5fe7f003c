/**
  The lease on a clock: an owner that keeps beating is never closed as abandoned
  (app/config/models.py SchedulerSettings, app/worker.py, app/repositories/monitoring.py).
  Times are integers in a unit as fine as needed.
 */
module Lease {
  import opened Wrappers
  import opened Schema
  import opened RunQueue
  import opened History
  import opened RunHistory
  import opened Fencing

  /** `validate_lease` */
  predicate LeaseAccepted(lease: Time, heartbeat: Time) {
    !(lease < 4 * heartbeat)
  }

  /** The owner's beat, which may fail to reach the database, or any transaction. */
  datatype Tick =
    | Beat(hit: bool, now: Time)
    | Other(event: Event)
  {
    function At(): Time {
      if Beat? then now else event.now
    }
  }

  /** An executing run and its owner's beating: `lastBeat` was the last attempt (at
      first the claim), after `misses` failed ones in a row. */
  datatype State = State(db: Db, lastBeat: Time, misses: nat)

  function Next(s: State, r: RunId, owner: string, tick: Tick): State {
    match tick
    case Beat(hit, now) =>
      if hit then State(Step(s.db, Event.Heartbeat(r, owner, now)), now, 0) else State(s.db, now, s.misses + 1)
    case Other(e) => s.(db := Step(s.db, e))
  }

  function Replay(s: State, r: RunId, owner: string, ticks: seq<Tick>): State {
    if ticks == [] then s
    else Next(Replay(s, r, owner, ticks[..|ticks| - 1]), r, owner, ticks[|ticks| - 1])
  }

  /** Recovery and stale cancels use the cutoff "one lease ago", read before their
      transaction begins. */
  predicate UsesCutoff(e: Event, lease: Time) {
    match e
    case Recover(before, locked, now) => before <= now - lease
    case Cancel(id, requester, staleBefore, now) => staleBefore.Some? ==> staleBefore.value <= now - lease
    case _ => true
  }

  /** The owner is punctual at this tick: no more than one heartbeat interval has gone
      since its last attempt, and a miss is at most the third in a row. */
  predicate Punctual(s: State, tick: Tick, heartbeat: Time) {
    s.lastBeat <= tick.At() <= s.lastBeat + heartbeat
    && (tick.Beat? && !tick.hit ==> s.misses < 3)
  }

  ghost predicate Disciplined(s: State, r: RunId, owner: string, ticks: seq<Tick>, lease: Time, heartbeat: Time) {
    forall i :: 0 <= i < |ticks| ==>
      && Punctual(Replay(s, r, owner, ticks[..i]), ticks[i], heartbeat)
      && (ticks[i].Other? ==> UsesCutoff(ticks[i].event, lease))
      && (forall j :: 0 <= j < i ==> ticks[j].At() <= ticks[i].At())
  }

  /** The run has just been claimed by `owner`. */
  ghost predicate JustClaimed(s: State, r: RunId, owner: string) {
    r in s.db.runs && s.db.runs[r].status.Running? && s.db.runs[r].claimedBy == Some(owner)
    && s.db.runs[r].claimedAt == Some(s.lastBeat) && s.db.runs[r].heartbeatAt.None? && s.misses == 0
  }

  /** Somebody else closes the run because its lease looks expired: recovery, or the
      cancel of a process that does not own it. */
  ghost predicate ClosedAsStale(d: Db, e: Event, r: RunId, owner: string) {
    (e.Recover? || (e.Cancel? && e.requester != owner)) && ClosesRun(d, e, r)
  }

  /** While the run executes, its lease is at most `misses` beats behind the last one. */
  ghost predicate Fresh(s: State, r: RunId, owner: string, heartbeat: Time) {
    && s.misses <= 3
    && r in s.db.runs && !s.db.runs[r].status.Queued?
    && (s.db.runs[r].status.Running? ==>
          && s.db.runs[r].claimedBy == Some(owner)
          && s.db.runs[r].LeaseAt().Some?
          && s.lastBeat - s.misses * heartbeat <= s.db.runs[r].LeaseAt().value)
  }

  lemma NextFresh(s: State, r: RunId, owner: string, tick: Tick, heartbeat: Time)
    requires Fresh(s, r, owner, heartbeat) && Punctual(s, tick, heartbeat)
    requires tick.Other? && s.db.runs[r].status.Running? ==> s.db.runs[r].LeaseAt().value <= tick.At()
    ensures Fresh(Next(s, r, owner, tick), r, owner, heartbeat)
  {
    if tick.Other? {
      StepMovesRuns(s.db, tick.event);
    }
  }

  /** Leases never lie in the future. */
  ghost predicate Past(s: State, r: RunId, now: Time) {
    r in s.db.runs && s.db.runs[r].status.Running? && s.db.runs[r].LeaseAt().Some? ==>
      s.db.runs[r].LeaseAt().value <= now
  }

  lemma {:induction false} ReplayFresh(s: State, r: RunId, owner: string, ticks: seq<Tick>, lease: Time,
                                       heartbeat: Time)
    requires JustClaimed(s, r, owner) && Disciplined(s, r, owner, ticks, lease, heartbeat)
    ensures var t := Replay(s, r, owner, ticks);
            && Fresh(t, r, owner, heartbeat)
            && Past(t, r, if ticks == [] then s.lastBeat else ticks[|ticks| - 1].At())
  {
    if ticks != [] {
      var before, tick := ticks[..|ticks| - 1], ticks[|ticks| - 1];
      DisciplinedPrefix(s, r, owner, ticks, |ticks| - 1, lease, heartbeat);
      ReplayFresh(s, r, owner, before, lease, heartbeat);
      var t := Replay(s, r, owner, before);
      assert ticks[..|ticks| - 1] == before;
      assert Punctual(t, tick, heartbeat);
      StartsLater(s, r, owner, ticks, lease, heartbeat);
      NextFresh(t, r, owner, tick, heartbeat);
      NextPast(t, r, owner, tick, heartbeat);
    }
  }

  /** No move of a row dates its lease later than the move. */
  lemma MoveIsPast(a: RunRow, b: RunRow, now: Time)
    requires RowMove(a, b, now) && b.status.Running? && b.LeaseAt().Some?
    requires a.status.Running? && a.LeaseAt().Some? ==> a.LeaseAt().value <= now
    requires a.status.Queued? ==> a.heartbeatAt.None?
    ensures b.LeaseAt().value <= now
  {
  }

  lemma OtherIsPast(s: State, r: RunId, e: Event)
    requires Past(s, r, e.now) && r in s.db.runs && !s.db.runs[r].status.Queued?
    ensures Past(s.(db := Step(s.db, e)), r, e.now)
  {
    StepMovesRuns(s.db, e);
    var a, b := s.db.runs[r], Step(s.db, e).runs[r];
    if b.status.Running? && b.LeaseAt().Some? {
      MoveIsPast(a, b, e.now);
    }
  }

  lemma NextPast(s: State, r: RunId, owner: string, tick: Tick, heartbeat: Time)
    requires Fresh(s, r, owner, heartbeat) && Past(s, r, tick.At())
    ensures Past(Next(s, r, owner, tick), r, tick.At())
  {
    if tick.Other? {
      OtherIsPast(s, r, tick.event);
    }
  }

  lemma DisciplinedPrefix(s: State, r: RunId, owner: string, ticks: seq<Tick>, n: nat, lease: Time, heartbeat: Time)
    requires n <= |ticks| && Disciplined(s, r, owner, ticks, lease, heartbeat)
    ensures Disciplined(s, r, owner, ticks[..n], lease, heartbeat)
  {
    forall i | 0 <= i < n ensures ticks[..n][..i] == ticks[..i] && ticks[..n][i] == ticks[i] {
    }
  }

  lemma StartsLater(s: State, r: RunId, owner: string, ticks: seq<Tick>, lease: Time, heartbeat: Time)
    requires ticks != [] && Disciplined(s, r, owner, ticks, lease, heartbeat)
    ensures s.lastBeat <= ticks[|ticks| - 1].At()
    ensures |ticks| > 1 ==> ticks[|ticks| - 2].At() <= ticks[|ticks| - 1].At()
  {
    assert ticks[..0] == [];
    assert Punctual(Replay(s, r, owner, ticks[..0]), ticks[0], heartbeat);
  }

  lemma FreshIsNotStale(s: State, e: Event, r: RunId, owner: string, lease: Time, heartbeat: Time)
    requires LeaseAccepted(lease, heartbeat) && UsesCutoff(e, lease)
    requires Fresh(s, r, owner, heartbeat) && Punctual(s, Other(e), heartbeat)
    ensures !ClosedAsStale(s.db, e, r, owner)
  {
    assert s.misses * heartbeat <= 3 * heartbeat;
    var row := s.db.runs[r];
    if row.status.Running? {
      assert !LeaseBefore(row, e.now - lease);
    }
  }

  /** Lease safety: with an accepted lease, an owner that never misses more than three
      beats in a row is never closed as stale, over traces of any length. */
  lemma PunctualOwnerIsSafe(s: State, r: RunId, owner: string, ticks: seq<Tick>, i: nat, lease: Time, heartbeat: Time)
    requires LeaseAccepted(lease, heartbeat)
    requires JustClaimed(s, r, owner) && Disciplined(s, r, owner, ticks, lease, heartbeat)
    requires i < |ticks| && ticks[i].Other?
    ensures !ClosedAsStale(Replay(s, r, owner, ticks[..i]).db, ticks[i].event, r, owner)
  {
    DisciplinedPrefix(s, r, owner, ticks, i, lease, heartbeat);
    ReplayFresh(s, r, owner, ticks[..i], lease, heartbeat);
    FreshIsNotStale(Replay(s, r, owner, ticks[..i]), ticks[i].event, r, owner, lease, heartbeat);
  }

  /** A claim starts a fresh lease: it does not touch the heartbeat column, but no queued
      run of any history has a heartbeat. */
  lemma {:induction false} ClaimStartsLease(es: seq<Event>, r: RunId, owner: string, now: Time)
    requires r in Run(EMPTY, es).runs && Run(EMPTY, es).runs[r].status.Queued?
    ensures JustClaimed(State(Step(Run(EMPTY, es), Event.Claim(r, owner, now)), now, 0), r, owner)
  {
    UnmarkedAlways(es);
  }

  /** From the claim on, whatever happened before it. */
  lemma ClaimedOwnerIsSafe(es: seq<Event>, r: RunId, owner: string, now: Time, ticks: seq<Tick>, i: nat,
                                              lease: Time, heartbeat: Time)
    requires LeaseAccepted(lease, heartbeat)
    requires r in Run(EMPTY, es).runs && Run(EMPTY, es).runs[r].status.Queued?
    requires var claimed := State(Step(Run(EMPTY, es), Event.Claim(r, owner, now)), now, 0);
             Disciplined(claimed, r, owner, ticks, lease, heartbeat)
    requires i < |ticks| && ticks[i].Other?
    ensures var claimed := State(Step(Run(EMPTY, es), Event.Claim(r, owner, now)), now, 0);
            !ClosedAsStale(Replay(claimed, r, owner, ticks[..i]).db, ticks[i].event, r, owner)
  {
    ClaimStartsLease(es, r, owner, now);
    PunctualOwnerIsSafe(State(Step(Run(EMPTY, es), Event.Claim(r, owner, now)), now, 0), r, owner, ticks, i, lease,
                        heartbeat);
  }

  /** The bound is exact: under any shorter lease a punctual owner is closed while it
      waits for the beat after its third miss. */
  lemma ShortLeaseIsUnsafe(s: State, r: RunId, owner: string, lease: Time, heartbeat: Time)
    returns (ticks: seq<Tick>)
    requires 0 < heartbeat && !LeaseAccepted(lease, heartbeat)
    requires JustClaimed(s, r, owner)
    ensures Disciplined(s, r, owner, ticks, lease, heartbeat)
    ensures |ticks| == 4 && ticks[3].Other?
            && ClosedAsStale(Replay(s, r, owner, ticks[..3]).db, ticks[3].event, r, owner)
  {
    var c := s.lastBeat;
    var now := c + 4 * heartbeat;
    ticks := [Beat(false, c + heartbeat), Beat(false, c + 2 * heartbeat), Beat(false, c + 3 * heartbeat),
              Other(Recover(now - lease, {}, now))];
    assert ticks[..0] == [] && ticks[..1] == [ticks[0]] && ticks[..2] == [ticks[0], ticks[1]];
    assert ticks[..3] == [ticks[0], ticks[1], ticks[2]];
    assert ticks[..1][..0] == [] && ticks[..2][..1] == ticks[..1] && ticks[..3][..2] == ticks[..2];
    assert Replay(s, r, owner, ticks[..1]) == State(s.db, c + heartbeat, 1);
    assert Replay(s, r, owner, ticks[..2]) == State(s.db, c + 2 * heartbeat, 2);
    assert Replay(s, r, owner, ticks[..3]) == State(s.db, c + 3 * heartbeat, 3);
  }
}
