/**
  Submission as concurrent transactions (app/repositories/monitoring.py, submit and
  its helpers). The steps of any number of submissions interleave with each other and
  with every other transaction; only the advisory locks order them. A transaction's
  insert becomes visible, and its locks are released, when it commits.
 */
module SubmitProtocol {
  import opened Wrappers
  import opened Schema
  import opened RunQueue
  import opened History

  datatype Command = Command(product: string, offering: Option<string>, key: Option<string>)

  /** Where a submission is; `uuid` is the id it would insert. */
  datatype Phase =
    | AtKey                          // before the idempotency lock
    | KeyLocked                      // holds it, has not looked for the key yet
    | AtFamily                       // before the product-family lock
    | FamilyLocked                   // holds it, has not looked for an active run yet
    | Inserted(row: RunRow)          // inserted, not committed
    | Done(run: RunId, created: bool)
    | Left                           // rolled back: it failed or its caller gave up

  datatype Tx = Tx(command: Command, uuid: RunId, phase: Phase)

  type TxId = nat

  datatype Lock = KeyLock(key: string) | FamilyLock(product: string)

  datatype State = State(db: Db, txs: map<TxId, Tx>, held: map<Lock, TxId>)

  datatype Move =
    | Begin(tx: TxId, command: Command, uuid: RunId)
    | LockKey(tx: TxId)
    | FindKey(tx: TxId, found: RunId)     // `found` matters only when the key is recorded
    | LockFamily(tx: TxId)
    | FindActive(tx: TxId, found: RunId, now: Time)
    | Commit(tx: TxId)
    | Leave(tx: TxId)                     // at any point before that
    | Other(event: Event)                 // any other committed transaction

  function Release(held: map<Lock, TxId>, tx: TxId): map<Lock, TxId> {
    map l | l in held && held[l] != tx :: held[l]
  }

  function At(s: State, t: TxId, phase: Phase): State
    requires t in s.txs
  {
    s.(txs := s.txs[t := s.txs[t].(phase := phase)])
  }

  /** A submission that returns an existing run ends its transaction. */
  function Return(s: State, t: TxId, run: RunId): State
    requires t in s.txs
  {
    At(s, t, Done(run, false)).(held := Release(s.held, t))
  }

  /** The ids that some row has or may get. */
  predicate IdFree(s: State, uuid: RunId) {
    uuid !in s.db.runs && forall t :: t in s.txs ==> s.txs[t].uuid != uuid
  }

  ghost predicate Enabled(s: State, m: Move) {
    match m
    case Begin(t, command, uuid) => t !in s.txs && IdFree(s, uuid)
    case LockKey(t) =>
      t in s.txs && s.txs[t].phase.AtKey? && s.txs[t].command.key.Some?
      && KeyLock(s.txs[t].command.key.value) !in s.held
    case FindKey(t, found) =>
      t in s.txs && s.txs[t].phase.KeyLocked? && s.txs[t].command.key.Some?
      && (Recorded(s.db.runs, s.txs[t].command.key.value) != {} ==>
            found in Recorded(s.db.runs, s.txs[t].command.key.value))
    case LockFamily(t) =>
      t in s.txs && s.txs[t].phase.AtFamily? && FamilyLock(s.txs[t].command.product) !in s.held
    case FindActive(t, found, now) =>
      t in s.txs && s.txs[t].phase.FamilyLocked?
      && var active := ActiveFor(s.db.runs, s.txs[t].command.product, s.txs[t].command.offering);
         active != {} ==> IsFirst(s.db.runs, active, found)
    case Commit(t) => t in s.txs && s.txs[t].phase.Inserted?
    case Leave(t) => t in s.txs && !s.txs[t].phase.Done?
    case Other(e) => !e.Submit?
  }

  function Apply(s: State, m: Move): State
    requires Enabled(s, m)
  {
    match m
    case Begin(t, command, uuid) =>
      s.(txs := s.txs[t := Tx(command, uuid, if command.key.Some? then AtKey else AtFamily)])
    case LockKey(t) =>
      At(s, t, KeyLocked).(held := s.held[KeyLock(s.txs[t].command.key.value) := t])
    case FindKey(t, found) =>
      if Recorded(s.db.runs, s.txs[t].command.key.value) != {} then Return(s, t, found) else At(s, t, AtFamily)
    case LockFamily(t) =>
      At(s, t, FamilyLocked).(held := s.held[FamilyLock(s.txs[t].command.product) := t])
    case FindActive(t, found, now) =>
      var c := s.txs[t].command;
      if ActiveFor(s.db.runs, c.product, c.offering) != {} then Return(s, t, found)
      else At(s, t, Inserted(NewRun(c.product, c.offering, c.key, now)))
    case Commit(t) =>
      var x := s.txs[t];
      At(s.(db := s.db.(runs := s.db.runs[x.uuid := x.phase.row])), t, Done(x.uuid, true)).(held := Release(s.held, t))
    case Leave(t) => At(s, t, Left).(held := Release(s.held, t))
    case Other(e) => s.(db := Step(s.db, e))
  }

  /** A move that is not enabled waits: the state stays. */
  ghost function Next(s: State, m: Move): State {
    if Enabled(s, m) then Apply(s, m) else s
  }

  const START: State := State(EMPTY, map[], map[])

  /** The state after any interleaving of moves. */
  ghost function Replay(s: State, ms: seq<Move>): State {
    if ms == [] then s else Next(Replay(s, ms[..|ms| - 1]), ms[|ms| - 1])
  }

  // ---- one submission by itself -------------------------------------------

  /** A submission's moves in their order; one that does not apply leaves the state. */
  ghost function Alone(s: State, t: TxId, c: Command, uuid: RunId, recorded: RunId, active: RunId, now: Time): State {
    var begun := Next(s, Begin(t, c, uuid));
    var looked := Next(Next(begun, LockKey(t)), FindKey(t, recorded));
    Next(Next(Next(looked, LockFamily(t)), FindActive(t, active, now)), Commit(t))
  }

  lemma LooksForKey(s: State, t: TxId, c: Command, uuid: RunId, recorded: RunId)
    requires t in s.txs && s.txs[t] == Tx(c, uuid, if c.key.Some? then AtKey else AtFamily)
    requires c.key.Some? ==> KeyLock(c.key.value) !in s.held
    requires c.key.Some? && Recorded(s.db.runs, c.key.value) != {} ==> recorded in Recorded(s.db.runs, c.key.value)
    ensures var looked := Next(Next(s, LockKey(t)), FindKey(t, recorded));
            && t in looked.txs && looked.db == s.db
            && looked.txs[t].command == c && looked.txs[t].uuid == uuid
            && (looked.txs[t].phase ==
                if c.key.Some? && Recorded(s.db.runs, c.key.value) != {} then Done(recorded, false) else AtFamily)
            && (FamilyLock(c.product) !in s.held ==> FamilyLock(c.product) !in looked.held)
  {
    var locked := Next(s, LockKey(t));
    if c.key.Some? {
      assert locked.txs[t] == Tx(c, uuid, KeyLocked) && locked.db == s.db;
    } else {
      assert locked == s;
    }
  }

  lemma LooksForActive(s: State, t: TxId, c: Command, uuid: RunId, active: RunId, now: Time)
    requires t in s.txs && s.txs[t] == Tx(c, uuid, AtFamily) && FamilyLock(c.product) !in s.held
    requires var found := ActiveFor(s.db.runs, c.product, c.offering);
             found != {} ==> IsFirst(s.db.runs, found, active)
    ensures var end := Next(Next(Next(s, LockFamily(t)), FindActive(t, active, now)), Commit(t));
            && t in end.txs
            && (ActiveFor(s.db.runs, c.product, c.offering) != {} ==>
                 end.db == s.db && end.txs[t].phase == Done(active, false))
            && (ActiveFor(s.db.runs, c.product, c.offering) == {} ==>
                  && end.db == s.db.(runs := s.db.runs[uuid := NewRun(c.product, c.offering, c.key, now)])
                  && end.txs[t].phase == Done(uuid, true))
  {
    var locked := Next(s, LockFamily(t));
    assert locked.txs[t] == Tx(c, uuid, FamilyLocked) && locked.db == s.db;
    var looked := Next(locked, FindActive(t, active, now));
    if ActiveFor(s.db.runs, c.product, c.offering) == {} {
      assert looked.txs[t] == Tx(c, uuid, Inserted(NewRun(c.product, c.offering, c.key, now)));
    }
  }

  /** With its locks free, a submission that nothing interleaves with does to the
      database just what the atomic submission does, and says which run it returns: the
      recorded one, else the first active one, else the new one. */
  lemma {:induction false} AloneIsAtomic(s: State, t: TxId, c: Command, uuid: RunId, recorded: RunId, active: RunId,
                                         now: Time)
    requires t !in s.txs && IdFree(s, uuid) && FamilyLock(c.product) !in s.held
    requires c.key.Some? ==> KeyLock(c.key.value) !in s.held
    requires c.key.Some? && Recorded(s.db.runs, c.key.value) != {} ==> recorded in Recorded(s.db.runs, c.key.value)
    requires var found := ActiveFor(s.db.runs, c.product, c.offering);
             found != {} ==> IsFirst(s.db.runs, found, active)
    ensures var end := Alone(s, t, c, uuid, recorded, active, now);
            && end.db == SubmitDb(s.db, uuid, c.product, c.offering, c.key, now) && t in end.txs
            && end.txs[t].phase ==
                 if c.key.Some? && Recorded(s.db.runs, c.key.value) != {} then Done(recorded, false)
                 else if ActiveFor(s.db.runs, c.product, c.offering) != {} then Done(active, false)
                 else Done(uuid, true)
  {
    var begun := Next(s, Begin(t, c, uuid));
    LooksForKey(begun, t, c, uuid, recorded);
    var looked := Next(Next(begun, LockKey(t)), FindKey(t, recorded));
    if looked.txs[t].phase.AtFamily? {
      LooksForActive(looked, t, c, uuid, active, now);
    }
  }

  // ---- safety -------------------------------------------------------------

  /** Two runs compete for an offering: both cover it. A family-wide run covers them all. */
  predicate Compete(a: RunRow, b: RunRow) {
    a.product == b.product && (a.offering.None? || b.offering.None? || a.offering == b.offering)
  }

  predicate BothActive(a: RunRow, b: RunRow) {
    a.status.IsActive() && b.status.IsActive()
  }

  /** At most one queued or running run covers any offering. */
  ghost predicate Exclusive(runs: map<RunId, RunRow>) {
    forall q, r :: q in runs && r in runs && BothActive(runs[q], runs[r]) && Compete(runs[q], runs[r]) ==> q == r
  }

  ghost predicate KeysUnique(runs: map<RunId, RunRow>) {
    forall q, r :: q in runs && r in runs && runs[q].key.Some? && runs[q].key == runs[r].key ==> q == r
  }

  /** A submission past its key check holds the key's lock, and nobody has recorded it. */
  predicate PastKey(x: Tx) {
    x.command.key.Some? && (x.phase.AtFamily? || x.phase.FamilyLocked? || x.phase.Inserted?)
  }

  ghost predicate Holds(s: State, l: Lock, t: TxId) {
    l in s.held && s.held[l] == t
  }

  ghost predicate LocksOk(s: State) {
    forall t :: t in s.txs ==>
      var x := s.txs[t];
      && (x.phase.KeyLocked? || x.phase.AtKey? ==> x.command.key.Some?)
      && ((x.phase.KeyLocked? || PastKey(x)) ==> Holds(s, KeyLock(x.command.key.value), t))
      && ((x.phase.FamilyLocked? || x.phase.Inserted?) ==> Holds(s, FamilyLock(x.command.product), t))
  }

  /** What a submission saw under its locks is still so. */
  ghost predicate ChecksStand(s: State) {
    forall t :: t in s.txs ==>
      var x := s.txs[t];
      && (PastKey(x) ==> Recorded(s.db.runs, x.command.key.value) == {})
      && (x.phase.Inserted? ==>
            && ActiveFor(s.db.runs, x.command.product, x.command.offering) == {}
            && x.phase.row == NewRun(x.command.product, x.command.offering, x.command.key, x.phase.row.queuedAt))
  }

  /** An unfinished submission's id is still its own. */
  ghost predicate IdsOk(s: State) {
    && (forall t :: t in s.txs && !s.txs[t].phase.Done? ==> s.txs[t].uuid !in s.db.runs)
    && (forall t, u :: t in s.txs && u in s.txs && s.txs[t].uuid == s.txs[u].uuid ==> t == u)
  }

  /** A finished submission's run exists and stays. */
  ghost predicate ResultsOk(s: State) {
    forall t :: t in s.txs && s.txs[t].phase.Done? ==> s.txs[t].phase.run in s.db.runs
  }

  ghost predicate Safe(s: State) {
    && Exclusive(s.db.runs) && KeysUnique(s.db.runs)
    && LocksOk(s) && ChecksStand(s) && IdsOk(s) && ResultsOk(s)
  }

  // ---- other transactions never add to what is covered or recorded --------

  lemma NoNewRuns(d: Db, e: Event)
    requires !e.Submit?
    ensures Step(d, e).runs.Keys == d.runs.Keys
  {
    if e.IsPublication() {
      PublicationLeavesRuns(d, e);
    }
  }

  lemma MoveShrinks(a: RunRow, b: RunRow, now: Time)
    requires RowMove(a, b, now)
    ensures b.product == a.product && b.offering == a.offering && b.key == a.key
            && (b.status.IsActive() ==> a.status.IsActive())
  {
  }

  lemma OthersOnlyShrink(d: Db, e: Event)
    requires !e.Submit?
    ensures Step(d, e).runs.Keys == d.runs.Keys
    ensures forall r :: r in d.runs ==>
              var a, b := d.runs[r], Step(d, e).runs[r];
              && b.product == a.product && b.offering == a.offering && b.key == a.key
              && (b.status.IsActive() ==> a.status.IsActive())
  {
    NoNewRuns(d, e);
    StepMovesRuns(d, e);
    forall r | r in d.runs ensures
      var a, b := d.runs[r], Step(d, e).runs[r];
      && b.product == a.product && b.offering == a.offering && b.key == a.key
      && (b.status.IsActive() ==> a.status.IsActive())
    {
      MoveShrinks(d.runs[r], Step(d, e).runs[r], e.now);
    }
  }

  lemma OtherSafe(s: State, e: Event)
    requires Safe(s) && !e.Submit?
    ensures Safe(s.(db := Step(s.db, e)))
  {
    OthersOnlyShrink(s.db, e);
    var s1 := s.(db := Step(s.db, e));
    assert LocksOk(s1);
    forall t | t in s1.txs && PastKey(s1.txs[t]) ensures Recorded(s1.db.runs, s1.txs[t].command.key.value) == {} {
      forall r | r in s1.db.runs ensures s1.db.runs[r].key != s1.txs[t].command.key {
        assert r !in Recorded(s.db.runs, s.txs[t].command.key.value);
      }
    }
    forall t | t in s1.txs && s1.txs[t].phase.Inserted?
      ensures ActiveFor(s1.db.runs, s1.txs[t].command.product, s1.txs[t].command.offering) == {}
    {
      var c := s1.txs[t].command;
      forall r | r in s1.db.runs
        ensures !(s1.db.runs[r].status.IsActive() && Overlaps(s1.db.runs[r], c.product, c.offering))
      {
        assert r !in ActiveFor(s.db.runs, c.product, c.offering);
      }
    }
  }

  // ---- the moves of submissions -------------------------------------------

  lemma BeginSafe(s: State, t: TxId, command: Command, uuid: RunId)
    requires Safe(s) && Enabled(s, Begin(t, command, uuid))
    ensures Safe(Apply(s, Begin(t, command, uuid)))
  {
    var s1 := Apply(s, Begin(t, command, uuid));
    assert LocksOk(s1);
    assert ChecksStand(s1);
    assert IdsOk(s1);
  }

  lemma LockSafe(s: State, t: TxId, l: Lock, phase: Phase)
    requires Safe(s) && t in s.txs && l !in s.held
    requires var x := s.txs[t];
             || (x.phase.AtKey? && phase.KeyLocked? && l == KeyLock(x.command.key.value))
             || (x.phase.AtFamily? && phase.FamilyLocked? && l == FamilyLock(x.command.product))
    ensures Safe(At(s, t, phase).(held := s.held[l := t]))
  {
    var s1 := At(s, t, phase).(held := s.held[l := t]);
    assert LocksOk(s1);
    assert ChecksStand(s1);
    assert IdsOk(s1);
  }

  /** A submission that returns an existing run, or rolls back, leaves no trace. */
  lemma EndSafe(s: State, t: TxId, phase: Phase)
    requires Safe(s) && t in s.txs && !s.txs[t].phase.Done?
    requires phase.Left? || (phase.Done? && phase.run in s.db.runs)
    ensures Safe(At(s, t, phase).(held := Release(s.held, t)))
  {
    var s1 := At(s, t, phase).(held := Release(s.held, t));
    forall u | u in s1.txs && u != t ensures s1.txs[u] == s.txs[u] {
    }
    assert LocksOk(s1);
    assert ChecksStand(s1);
    assert IdsOk(s1);
  }

  lemma FindMoveSafe(s: State, m: Move)
    requires Safe(s) && Enabled(s, m) && (m.FindKey? || m.FindActive?)
    ensures Safe(Apply(s, m))
  {
    var x := s.txs[m.tx];
    if (if m.FindKey? then Recorded(s.db.runs, x.command.key.value) != {}
        else ActiveFor(s.db.runs, x.command.product, x.command.offering) != {}) {
      EndSafe(s, m.tx, Done(m.found, false));
    } else {
      AdvanceSafe(s, m.tx, Apply(s, m).txs[m.tx].phase);
    }
  }

  lemma AdvanceSafe(s: State, t: TxId, phase: Phase)
    requires Safe(s) && t in s.txs
    requires var x := s.txs[t];
             || (x.phase.KeyLocked? && phase.AtFamily? && Recorded(s.db.runs, x.command.key.value) == {})
             || (x.phase.FamilyLocked? && phase.Inserted?
                 && ActiveFor(s.db.runs, x.command.product, x.command.offering) == {}
                 && phase.row == NewRun(x.command.product, x.command.offering, x.command.key, phase.row.queuedAt))
    ensures Safe(At(s, t, phase))
  {
    var s1 := At(s, t, phase);
    forall u | u in s1.txs && u != t ensures s1.txs[u] == s.txs[u] {
    }
    assert LocksOk(s1);
    assert ChecksStand(s1);
    assert IdsOk(s1);
  }

  /** A commit releases only its own locks. */
  lemma CommitLocks(s: State, t: TxId)
    requires LocksOk(s) && Enabled(s, Commit(t))
    ensures LocksOk(Apply(s, Commit(t)))
  {
  }

  /** A commit keeps everything: the new run competes with no active run, since the
      check under the family lock still stands, and the locks kept every other
      submission of its family or key from standing between its check and its commit. */
  lemma CommitSafe(s: State, t: TxId)
    requires Safe(s) && Enabled(s, Commit(t))
    ensures Safe(Apply(s, Commit(t)))
  {
    var s1, x := Apply(s, Commit(t)), s.txs[t];
    CommitExclusive(s, t);
    CommitKeys(s, t);
    CommitLocks(s, t);
    forall u | u in s1.txs && u != t ensures s1.txs[u] == s.txs[u] {
    }
    forall u | u in s1.txs && PastKey(s1.txs[u]) ensures Recorded(s1.db.runs, s1.txs[u].command.key.value) == {} {
      OtherKey(s, t, u);
    }
    forall u | u in s1.txs && s1.txs[u].phase.Inserted?
      ensures ActiveFor(s1.db.runs, s1.txs[u].command.product, s1.txs[u].command.offering) == {}
    {
      OtherFamily(s, t, u);
    }
  }

  lemma CommitExclusive(s: State, t: TxId)
    requires Safe(s) && Enabled(s, Commit(t))
    ensures Exclusive(Apply(s, Commit(t)).db.runs)
  {
    var x, runs := s.txs[t], Apply(s, Commit(t)).db.runs;
    forall r | r in s.db.runs && s.db.runs[r].status.IsActive() ensures !Compete(s.db.runs[r], x.phase.row) {
      assert r !in ActiveFor(s.db.runs, x.command.product, x.command.offering);
    }
    forall q, r | q in runs && r in runs && BothActive(runs[q], runs[r]) && Compete(runs[q], runs[r]) ensures q == r {
      if q != x.uuid && r != x.uuid {
        assert BothActive(s.db.runs[q], s.db.runs[r]) && Compete(s.db.runs[q], s.db.runs[r]);
      }
    }
  }

  lemma CommitKeys(s: State, t: TxId)
    requires Safe(s) && Enabled(s, Commit(t))
    ensures KeysUnique(Apply(s, Commit(t)).db.runs)
  {
    var x := s.txs[t];
    forall r | r in s.db.runs ensures x.command.key.Some? ==> s.db.runs[r].key != x.command.key {
      assert x.command.key.Some? ==> r !in Recorded(s.db.runs, x.command.key.value);
    }
  }

  lemma OtherKey(s: State, t: TxId, u: TxId)
    requires Safe(s) && Enabled(s, Commit(t)) && u in s.txs && u != t && PastKey(s.txs[u])
    ensures Recorded(Apply(s, Commit(t)).db.runs, s.txs[u].command.key.value) == {}
  {
    var x, key := s.txs[t], s.txs[u].command.key.value;
    assert x.command.key != Some(key);
    assert Recorded(s.db.runs, key) == {};
    forall r | r in s.db.runs ensures s.db.runs[r].key != Some(key) {
      assert r !in Recorded(s.db.runs, key);
    }
  }

  lemma OtherFamily(s: State, t: TxId, u: TxId)
    requires Safe(s) && Enabled(s, Commit(t)) && u in s.txs && u != t && s.txs[u].phase.Inserted?
    ensures ActiveFor(Apply(s, Commit(t)).db.runs, s.txs[u].command.product, s.txs[u].command.offering) == {}
  {
    var x, c := s.txs[t], s.txs[u].command;
    assert x.command.product != c.product;
    assert ActiveFor(s.db.runs, c.product, c.offering) == {};
    forall r | r in s.db.runs
      ensures !(s.db.runs[r].status.IsActive() && Overlaps(s.db.runs[r], c.product, c.offering))
    {
      assert r !in ActiveFor(s.db.runs, c.product, c.offering);
    }
  }

  lemma NextSafe(s: State, m: Move)
    requires Safe(s)
    ensures Safe(Next(s, m))
  {
    if Enabled(s, m) {
      match m
      case Commit(t) => CommitSafe(s, t);
      case Leave(t) => EndSafe(s, t, Left);
      case Other(e) => OtherSafe(s, e);
      case FindKey(_, _) => FindMoveSafe(s, m);
      case FindActive(_, _, _) => FindMoveSafe(s, m);
      case Begin(t, command, uuid) => BeginSafe(s, t, command, uuid);
      case LockKey(t) => LockSafe(s, t, KeyLock(s.txs[t].command.key.value), KeyLocked);
      case LockFamily(t) => LockSafe(s, t, FamilyLock(s.txs[t].command.product), FamilyLocked);
    }
  }

  /** In every interleaving at most one queued or running run covers any offering, and
      no two runs share an idempotency key. */
  lemma {:induction false} AlwaysSafe(ms: seq<Move>)
    ensures Safe(Replay(START, ms))
    ensures Exclusive(Replay(START, ms).db.runs) && KeysUnique(Replay(START, ms).db.runs)
  {
    if ms != [] {
      AlwaysSafe(ms[..|ms| - 1]);
      NextSafe(Replay(START, ms[..|ms| - 1]), ms[|ms| - 1]);
    }
  }

  // ---- locks end with their transaction -----------------------------------

  ghost predicate HeldByActive(s: State) {
    forall l :: l in s.held ==>
      s.held[l] in s.txs && !s.txs[s.held[l]].phase.Done? && !s.txs[s.held[l]].phase.Left?
  }

  lemma NextHeldByActive(s: State, m: Move)
    requires HeldByActive(s)
    ensures HeldByActive(Next(s, m))
  {
    if Enabled(s, m) {
      match m
      case Begin(_, _, _) =>
      case LockKey(_) =>
      case FindKey(_, _) =>
      case LockFamily(_) =>
      case FindActive(_, _, _) =>
      case Commit(_) =>
      case Leave(_) =>
      case Other(_) =>
    }
  }

  lemma {:induction false} AlwaysHeldByActive(ms: seq<Move>)
    ensures HeldByActive(Replay(START, ms))
  {
    if ms != [] {
      AlwaysHeldByActive(ms[..|ms| - 1]);
      NextHeldByActive(Replay(START, ms[..|ms| - 1]), ms[|ms| - 1]);
    }
  }

  /** In every interleaving a submission that returned or rolled back holds no lock, so a
      lock is free again when its holder is through. */
  lemma {:induction false} EndedHoldsNothing(ms: seq<Move>, t: TxId, l: Lock)
    requires var s := Replay(START, ms);
             t in s.txs && (s.txs[t].phase.Done? || s.txs[t].phase.Left?)
    ensures !Holds(Replay(START, ms), l, t)
  {
    AlwaysHeldByActive(ms);
  }

  // ---- idempotency --------------------------------------------------------

  predicate EndedBy(s: State, t: TxId) {
    t in s.txs && s.txs[t].phase.Done?
  }

  /** Run r carries the key, and a submission of the key that is not in `before` as
      finished either has not looked yet, rolled back or returned r. */
  ghost predicate KeyAnswers(s: State, key: string, r: RunId, before: State) {
    && r in s.db.runs && s.db.runs[r].key == Some(key)
    && forall t :: t in s.txs && s.txs[t].command.key == Some(key) && !EndedBy(before, t) ==>
         s.txs[t].phase.AtKey? || s.txs[t].phase.KeyLocked? || s.txs[t].phase.Left? || s.txs[t].phase == Done(r, false)
  }

  lemma OtherAnswers(s: State, e: Event, key: string, r: RunId, before: State)
    requires KeyAnswers(s, key, r, before) && !e.Submit?
    ensures KeyAnswers(s.(db := Step(s.db, e)), key, r, before)
  {
    OthersOnlyShrink(s.db, e);
  }

  /** The submission that looks for the recorded key finds that run. */
  lemma FindKeyAnswers(s: State, m: Move, key: string, r: RunId, before: State)
    requires Safe(s) && KeyAnswers(s, key, r, before) && m.FindKey? && Enabled(s, m)
    ensures KeyAnswers(Apply(s, m), key, r, before)
  {
    assert r in Recorded(s.db.runs, key);
    if s.txs[m.tx].command.key == Some(key) {
      assert m.found in Recorded(s.db.runs, key);
      assert m.found == r;
    }
  }

  lemma FamilyMoveAnswers(s: State, m: Move, key: string, r: RunId, before: State)
    requires Safe(s) && KeyAnswers(s, key, r, before) && (m.FindActive? || m.Commit?) && Enabled(s, m)
    ensures KeyAnswers(Apply(s, m), key, r, before)
  {
    assert r in Recorded(s.db.runs, key);
  }

  lemma LockMoveAnswers(s: State, m: Move, key: string, r: RunId, before: State)
    requires KeyAnswers(s, key, r, before) && Enabled(s, m)
    requires m.Begin? || m.LockKey? || m.LockFamily? || m.Leave?
    ensures KeyAnswers(Apply(s, m), key, r, before)
  {
  }

  lemma NextAnswers(s: State, m: Move, key: string, r: RunId, before: State)
    requires Safe(s) && KeyAnswers(s, key, r, before)
    ensures KeyAnswers(Next(s, m), key, r, before)
  {
    if Enabled(s, m) {
      match m
      case Other(e) => OtherAnswers(s, e, key, r, before);
      case FindKey(_, _) => FindKeyAnswers(s, m, key, r, before);
      case FindActive(_, _, _) => FamilyMoveAnswers(s, m, key, r, before);
      case Commit(_) => FamilyMoveAnswers(s, m, key, r, before);
      case _ => LockMoveAnswers(s, m, key, r, before);
    }
  }

  lemma {:induction false} ReplayAnswers(s: State, more: seq<Move>, key: string, r: RunId)
    requires Safe(s) && r in s.db.runs && s.db.runs[r].key == Some(key)
    ensures Safe(Replay(s, more)) && KeyAnswers(Replay(s, more), key, r, s)
  {
    if more == [] {
      assert r in Recorded(s.db.runs, key);
    } else {
      ReplayAnswers(s, more[..|more| - 1], key, r);
      NextSafe(Replay(s, more[..|more| - 1]), more[|more| - 1]);
      NextAnswers(Replay(s, more[..|more| - 1]), more[|more| - 1], key, r, s);
    }
  }

  // ---- what a submission that inserted leaves -----------------------------

  /** The run of a submission that created one has its command's scope and key. */
  ghost predicate CreatedOk(s: State) {
    forall t :: t in s.txs && s.txs[t].phase.Done? && s.txs[t].phase.created ==>
      var c, r := s.txs[t].command, s.txs[t].phase.run;
      && r in s.db.runs && s.db.runs[r].product == c.product && s.db.runs[r].offering == c.offering
      && s.db.runs[r].key == c.key
  }

  lemma MoveKeepsCommand(a: RunRow, b: RunRow, now: Time)
    requires RowMove(a, b, now)
    ensures b.product == a.product && b.offering == a.offering && b.key == a.key
  {
  }

  lemma MovesKeepCreated(s: State, d: Db, now: Time)
    requires CreatedOk(s) && RunsMove(s.db.runs, d.runs, now)
    ensures CreatedOk(s.(db := d))
  {
    forall r | r in s.db.runs
      ensures r in d.runs && d.runs[r].product == s.db.runs[r].product
      ensures d.runs[r].offering == s.db.runs[r].offering && d.runs[r].key == s.db.runs[r].key
    {
      MoveKeepsCommand(s.db.runs[r], d.runs[r], now);
    }
  }

  lemma OtherKeepsCreated(s: State, e: Event)
    requires CreatedOk(s)
    ensures CreatedOk(s.(db := Step(s.db, e)))
  {
    StepMovesRuns(s.db, e);
    MovesKeepCreated(s, Step(s.db, e), e.now);
  }

  lemma CommitKeepsCreated(s: State, t: TxId)
    requires Safe(s) && CreatedOk(s) && Enabled(s, Commit(t))
    ensures CreatedOk(Apply(s, Commit(t)))
  {
    var s1, c := Apply(s, Commit(t)), s.txs[t].command;
    assert s.txs[t].phase.row == NewRun(c.product, c.offering, c.key, s.txs[t].phase.row.queuedAt);
    forall u | u in s1.txs && u != t ensures s1.txs[u] == s.txs[u] {
    }
  }

  lemma NextKeepsCreated(s: State, m: Move)
    requires Safe(s) && CreatedOk(s)
    ensures CreatedOk(Next(s, m))
  {
    if Enabled(s, m) {
      match m
      case Other(e) => OtherKeepsCreated(s, e);
      case Commit(t) => CommitKeepsCreated(s, t);
      case _ =>
    }
  }

  /** In every interleaving a submission that created a run recorded its command's scope
      and key in it. */
  lemma {:induction false} CreatedRunCarriesCommand(ms: seq<Move>, t: TxId, r: RunId)
    requires t in Replay(START, ms).txs && Replay(START, ms).txs[t].phase == Done(r, true)
    ensures var s, c := Replay(START, ms), Replay(START, ms).txs[t].command;
            && r in s.db.runs && s.db.runs[r].product == c.product && s.db.runs[r].offering == c.offering
            && s.db.runs[r].key == c.key
  {
    AlwaysCreated(ms);
  }

  lemma {:induction false} AlwaysCreated(ms: seq<Move>)
    ensures CreatedOk(Replay(START, ms))
  {
    if ms != [] {
      AlwaysSafe(ms[..|ms| - 1]);
      AlwaysCreated(ms[..|ms| - 1]);
      NextKeepsCreated(Replay(START, ms[..|ms| - 1]), ms[|ms| - 1]);
    }
  }

  /** Once a submission of a key has created a run, every submission of that key that
      finishes afterwards, however it was interleaved, returns that run and creates
      nothing, whatever became of the run. */
  lemma {:induction false} RecordedKeyReturnsSameRun(ms: seq<Move>, more: seq<Move>, key: string, first: TxId, r: RunId,
                                                     t: TxId)
    requires var s := Replay(START, ms);
             && first in s.txs && s.txs[first].command.key == Some(key) && s.txs[first].phase == Done(r, true)
             && !(t in s.txs && s.txs[t].phase.Done?)
    requires var s := Replay(Replay(START, ms), more);
             t in s.txs && s.txs[t].command.key == Some(key) && s.txs[t].phase.Done?
    ensures Replay(Replay(START, ms), more).txs[t].phase == Done(r, false)
  {
    AlwaysSafe(ms);
    CreatedRunCarriesCommand(ms, first, r);
    ReplayAnswers(Replay(START, ms), more, key, r);
  }

  /** The key counts from the submission that creates a run: one answered with an active
      run records nothing, so its key is free for the next submission. */
  lemma KeyIsRecordedIff(d: Db, id: RunId, product: string, offering: Option<string>, key: string, now: Time)
    requires id !in d.runs
    ensures var runs := SubmitDb(d, id, product, offering, Some(key), now).runs;
            (exists q :: q in runs && runs[q].key == Some(key)) <==>
              || (exists q :: q in d.runs && d.runs[q].key == Some(key))
              || (forall q :: q in d.runs && (d.runs[q].status.Queued? || d.runs[q].status.Running?) ==>
                    !(d.runs[q].product == product
                      && (offering.None? || d.runs[q].offering.None? || d.runs[q].offering == offering)))
  {
    var runs := SubmitDb(d, id, product, offering, Some(key), now).runs;
    assert forall q :: q in d.runs && d.runs[q].key == Some(key) ==> q in Recorded(d.runs, key);
    assert forall q :: q in d.runs && d.runs[q].status.IsActive() && Overlaps(d.runs[q], product, offering) ==>
                         q in ActiveFor(d.runs, product, offering);
    if id in runs {
      assert runs[id].key == Some(key);
    }
  }
}
