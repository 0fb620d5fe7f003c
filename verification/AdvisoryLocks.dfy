/**
  The advisory locks of concurrent transactions (app/repositories/monitoring.py,
  knowledge_publication.py, reviews.py). A transaction takes its locks one by one in
  the order its code asks for them, waits while another holds the next one, and lets
  all of them go when it ends. Publication asks for its document versions' locks in
  whatever order the documents come; nothing sorts them.
 */
module AdvisoryLocks {
  import opened Wrappers
  import opened Schema

  datatype Lock =
    | IdempotencyLock(key: string)
    | FamilyLock(product: string)
    | OfferingLock(scope: Scope)
    | VersionLock(version: Version)
    | IssueLock(product: string, offering: string, issue: string)
  {
    /** Every transaction that takes this lock takes it first. */
    predicate IsOutermost() {
      IdempotencyLock? || OfferingLock?
    }
  }

  datatype Work =
    | Submit(key: Option<string>, product: string)
    | Publish(scope: Scope, versions: seq<Version>)
    | CreateReview(scope: Scope, issue: string)
    | Decide(scope: Scope)                            // approve, reject, backfill one offering
  {
    /** The locks it asks for, in order. */
    function Locks(): seq<Lock> {
      match this
      case Submit(key, product) => (if key.Some? then [IdempotencyLock(key.value)] else []) + [FamilyLock(product)]
      case Publish(scope, versions) =>
        [OfferingLock(scope)] + seq(|versions|, i requires 0 <= i < |versions| => VersionLock(versions[i]))
      case CreateReview(scope, issue) => [OfferingLock(scope), IssueLock(scope.product, scope.offering, issue)]
      case Decide(scope) => [OfferingLock(scope)]
    }

    /** A publication's documents carry the snapshot's bank, product and offering. The
        source checks product and offering only. */
    predicate OwnDocuments() {
      Publish? ==> forall i :: 0 <= i < |versions| ==> versions[i].scope == scope
    }
  }

  /** Of its locks the first `next` are taken; `ended` after commit or rollback. */
  datatype Tx = Tx(work: Work, locks: seq<Lock>, next: nat, ended: bool) {
    predicate Wants() {
      !ended && next < |locks|
    }

    function Wanted(): Lock
      requires Wants()
    {
      locks[next]
    }

    function Remaining(): nat {
      if ended then 0 else if next < |locks| then |locks| - next + 1 else 1
    }
  }

  datatype State = State(txs: seq<Tx>, held: map<Lock, nat>)

  const START: State := State([], map[])

  datatype Move =
    | Begin(work: Work)
    | Acquire(t: nat)
    | Commit(t: nat)    // with all its locks
    | Leave(t: nat)     // before that: it returned early, was refused or failed

  predicate Blocked(s: State, t: nat)
    requires t < |s.txs|
  {
    s.txs[t].Wants() && s.txs[t].Wanted() in s.held && s.held[s.txs[t].Wanted()] != t
  }

  predicate WaitsFor(s: State, t: nat, u: nat) {
    t < |s.txs| && u < |s.txs| && Blocked(s, t) && s.held[s.txs[t].Wanted()] == u
  }

  predicate Enabled(s: State, m: Move) {
    match m
    case Begin(_) => true
    case Acquire(t) => t < |s.txs| && s.txs[t].Wants() && !Blocked(s, t)
    case Commit(t) => t < |s.txs| && !s.txs[t].ended && !s.txs[t].Wants()
    case Leave(t) => t < |s.txs| && !s.txs[t].ended
  }

  function End(s: State, t: nat): State
    requires t < |s.txs|
  {
    State(s.txs[t := s.txs[t].(ended := true)], map l | l in s.held && s.held[l] != t :: s.held[l])
  }

  /** A move that is not enabled waits. A lock its holder asks for again is granted. */
  function Next(s: State, m: Move): State {
    if !Enabled(s, m) then s else
      match m
      case Begin(work) => s.(txs := s.txs + [Tx(work, work.Locks(), 0, false)])
      case Acquire(t) =>
        State(s.txs[t := s.txs[t].(next := s.txs[t].next + 1)], s.held[s.txs[t].Wanted() := t])
      case Commit(t) => End(s, t)
      case Leave(t) => End(s, t)
  }

  function Replay(s: State, ms: seq<Move>): State {
    if ms == [] then s else Next(Replay(s, ms[..|ms| - 1]), ms[|ms| - 1])
  }

  predicate AllOwn(ms: seq<Move>) {
    forall i :: 0 <= i < |ms| && ms[i].Begin? ==> ms[i].work.OwnDocuments()
  }

  // ---- what holds in every reachable state --------------------------------

  /** Held locks are exactly the taken ones of transactions that have not ended. */
  ghost predicate TwoPhase(s: State) {
    && (forall l :: l in s.held ==> s.held[l] < |s.txs| && Took(s.txs[s.held[l]], l))
    && (forall t :: 0 <= t < |s.txs| && !s.txs[t].ended ==> HoldsAll(s.held, t, s.txs[t]))
  }

  ghost predicate HoldsAll(held: map<Lock, nat>, t: nat, x: Tx) {
    && x.next <= |x.locks|
    && forall k :: 0 <= k < x.next ==> x.locks[k] in held && held[x.locks[k]] == t
  }

  ghost predicate Took(x: Tx, l: Lock) {
    !x.ended && exists k :: 0 <= k < x.next && k < |x.locks| && x.locks[k] == l
  }

  ghost predicate Reachable(s: State) {
    TwoPhase(s) && forall t :: 0 <= t < |s.txs| ==> Follows(s.txs[t])
  }

  predicate Follows(x: Tx) {
    x.locks == x.work.Locks() && x.work.OwnDocuments()
  }

  lemma AcquireKeeps(s: State, t: nat)
    requires TwoPhase(s) && Enabled(s, Acquire(t))
    ensures TwoPhase(Next(s, Acquire(t)))
  {
    var s1, lock := Next(s, Acquire(t)), s.txs[t].Wanted();
    forall l | l in s1.held ensures s1.held[l] < |s1.txs| && Took(s1.txs[s1.held[l]], l) {
      if l == lock {
        assert s1.txs[t].locks[s.txs[t].next] == l;
      } else {
        var x := s.txs[s.held[l]];
        var k :| 0 <= k < x.next && k < |x.locks| && x.locks[k] == l;
        assert s1.txs[s.held[l]].locks[k] == l;
      }
    }
    forall u | 0 <= u < |s1.txs| && !s1.txs[u].ended ensures HoldsAll(s1.held, u, s1.txs[u]) {
      assert HoldsAll(s.held, u, s.txs[u]);
    }
  }

  lemma EndKeeps(s: State, t: nat)
    requires TwoPhase(s) && t < |s.txs| && !s.txs[t].ended
    ensures TwoPhase(End(s, t))
  {
    var s1 := End(s, t);
    forall l | l in s1.held ensures s1.held[l] < |s1.txs| && Took(s1.txs[s1.held[l]], l) {
      assert s1.txs[s.held[l]] == s.txs[s.held[l]];
    }
    forall u | 0 <= u < |s1.txs| && !s1.txs[u].ended ensures HoldsAll(s1.held, u, s1.txs[u]) {
      assert HoldsAll(s.held, u, s.txs[u]);
    }
  }

  lemma NextKeeps(s: State, m: Move)
    requires Reachable(s) && (m.Begin? ==> m.work.OwnDocuments())
    ensures Reachable(Next(s, m))
  {
    if Enabled(s, m) {
      match m
      case Begin(work) =>
      case Acquire(t) => AcquireKeeps(s, t);
      case Commit(t) => EndKeeps(s, t);
      case Leave(t) => EndKeeps(s, t);
    }
  }

  lemma {:induction false} ReplayKeeps(s: State, ms: seq<Move>)
    requires Reachable(s) && AllOwn(ms)
    ensures Reachable(Replay(s, ms))
  {
    if ms != [] {
      ReplayKeeps(s, ms[..|ms| - 1]);
      NextKeeps(Replay(s, ms[..|ms| - 1]), ms[|ms| - 1]);
    }
  }

  // ---- what the locks are for ---------------------------------------------

  /** Two transactions that must not run at once: submissions of one product family or one
      key, and publications and decisions of one offering. */
  predicate Conflict(a: Work, b: Work) {
    || (a.Submit? && b.Submit? && (a.product == b.product || (a.key.Some? && a.key == b.key)))
    || (!a.Submit? && !b.Submit? && a.scope == b.scope)
  }

  ghost predicate Asks(s: State) {
    TwoPhase(s) && forall t :: 0 <= t < |s.txs| ==> s.txs[t].locks == s.txs[t].work.Locks()
  }

  lemma {:induction false} ReplayAsks(ms: seq<Move>)
    ensures Asks(Replay(START, ms))
  {
    if ms != [] {
      ReplayAsks(ms[..|ms| - 1]);
      var s, m := Replay(START, ms[..|ms| - 1]), ms[|ms| - 1];
      if Enabled(s, m) {
        match m
        case Begin(_) =>
        case Acquire(t) => AcquireKeeps(s, t);
        case Commit(t) => EndKeeps(s, t);
        case Leave(t) => EndKeeps(s, t);
      }
    }
  }

  lemma SharedLock(a: Work, b: Work) returns (i: nat, j: nat)
    requires Conflict(a, b)
    ensures i < |a.Locks()| && j < |b.Locks()| && a.Locks()[i] == b.Locks()[j]
  {
    i, j := 0, 0;
    if a.Submit? && a.product == b.product {
      i, j := |a.Locks()| - 1, |b.Locks()| - 1;
    }
  }

  /** In every interleaving at most one of two conflicting transactions has all its locks:
      what they read under them they change one after the other. */
  lemma {:induction false} OneAtATime(ms: seq<Move>, t: nat, u: nat)
    requires var s := Replay(START, ms);
             && t < |s.txs| && u < |s.txs| && Conflict(s.txs[t].work, s.txs[u].work)
             && !s.txs[t].ended && !s.txs[t].Wants() && !s.txs[u].ended && !s.txs[u].Wants()
    ensures t == u
  {
    ReplayAsks(ms);
    var s := Replay(START, ms);
    var i, j := SharedLock(s.txs[t].work, s.txs[u].work);
    assert HoldsAll(s.held, t, s.txs[t]) && HoldsAll(s.held, u, s.txs[u]);
    assert s.held[s.txs[t].locks[i]] == t && s.held[s.txs[u].locks[j]] == u;
  }

  // ---- waiting goes strictly upwards --------------------------------------

  /** 0: waits with no lock yet. 1: waits holding its outermost lock, or without one for
      an inner lock. 2: does not wait. */
  function Level(s: State, t: nat): nat
    requires t < |s.txs|
  {
    if !Blocked(s, t) then 2 else if s.txs[t].Wanted().IsOutermost() then 0 else 1
  }

  /** Who takes a version's lock holds the lock of the version's offering. */
  lemma VersionUnderOffering(x: Tx, k: nat)
    requires Follows(x) && k < |x.locks| && x.locks[k].VersionLock?
    ensures k > 0 && x.locks[0] == OfferingLock(x.locks[k].version.scope)
  {
    assert x.work.Publish?;
    assert x.locks[k] == VersionLock(x.work.versions[k - 1]);
  }

  /** Only the holder of an offering's lock can hold or want that offering's version
      locks, so nobody ever waits for one. */
  lemma VersionLockIsFree(s: State, t: nat)
    requires Reachable(s) && t < |s.txs| && s.txs[t].Wants() && s.txs[t].Wanted().VersionLock?
    ensures !Blocked(s, t)
  {
    var x, l := s.txs[t], s.txs[t].Wanted();
    VersionUnderOffering(x, x.next);
    if l in s.held {
      var y := s.txs[s.held[l]];
      assert Took(y, l);
      var k :| 0 <= k < y.next && k < |y.locks| && y.locks[k] == l;
      VersionUnderOffering(y, k);
      assert HoldsAll(s.held, s.held[l], y) && HoldsAll(s.held, t, x);
      assert s.held[x.locks[0]] == t && s.held[y.locks[0]] == s.held[l];
    }
  }

  lemma HolderOfInner(s: State, u: nat, l: Lock)
    requires u < |s.txs| && Follows(s.txs[u]) && Took(s.txs[u], l) && (l.FamilyLock? || l.IssueLock?)
    ensures !Blocked(s, u)
  {
    var y := s.txs[u];
    var k :| 0 <= k < y.next && k < |y.locks| && y.locks[k] == l;
    assert k == |y.locks| - 1;
  }

  lemma HolderOfOutermost(s: State, u: nat, l: Lock)
    requires u < |s.txs| && Follows(s.txs[u]) && Took(s.txs[u], l) && l.IsOutermost()
    ensures Level(s, u) > 0
  {
    var y := s.txs[u];
    var k :| 0 <= k < y.next && k < |y.locks| && y.locks[k] == l;
    assert k == 0;
  }

  lemma WaitingRises(s: State, t: nat, u: nat)
    requires Reachable(s) && WaitsFor(s, t, u)
    ensures Level(s, t) < Level(s, u)
  {
    var l := s.txs[t].Wanted();
    assert Took(s.txs[u], l);
    match l
    case VersionLock(_) => VersionLockIsFree(s, t);
    case FamilyLock(_) => HolderOfInner(s, u, l);
    case IssueLock(_, _, _) => HolderOfInner(s, u, l);
    case IdempotencyLock(_) => HolderOfOutermost(s, u, l);
    case OfferingLock(_) => HolderOfOutermost(s, u, l);
  }

  /** A chain of transactions, each waiting for the next. */
  predicate WaitChain(s: State, chain: seq<nat>) {
    |chain| > 0 && chain[0] < |s.txs| && forall i :: 0 <= i < |chain| - 1 ==> WaitsFor(s, chain[i], chain[i + 1])
  }

  lemma {:induction false} ChainRises(s: State, chain: seq<nat>)
    requires Reachable(s) && WaitChain(s, chain)
    ensures chain[|chain| - 1] < |s.txs| && Level(s, chain[|chain| - 1]) >= Level(s, chain[0]) + |chain| - 1
  {
    if |chain| > 1 {
      WaitingRises(s, chain[0], chain[1]);
      assert WaitsFor(s, chain[0], chain[1]);
      forall i | 0 <= i < |chain| - 2 ensures WaitsFor(s, chain[1..][i], chain[1..][i + 1]) {
        assert WaitsFor(s, chain[i + 1], chain[i + 2]);
      }
      ChainRises(s, chain[1..]);
    }
  }

  /** No deadlock: in every interleaving of any number of transactions no chain of waits
      returns to where it began, and none is longer than two waits. */
  lemma NoWaitCycle(ms: seq<Move>, chain: seq<nat>)
    requires AllOwn(ms) && WaitChain(Replay(START, ms), chain)
    ensures |chain| <= 3
    ensures |chain| > 1 ==> chain[0] != chain[|chain| - 1]
  {
    ReplayKeeps(START, ms);
    ChainRises(Replay(START, ms), chain);
  }

  // ---- everyone can finish ------------------------------------------------

  function Remaining(txs: seq<Tx>): nat {
    if txs == [] then 0 else Remaining(txs[..|txs| - 1]) + txs[|txs| - 1].Remaining()
  }

  lemma {:induction false} RemainingUpdate(txs: seq<Tx>, t: nat, x: Tx)
    requires t < |txs|
    ensures Remaining(txs[t := x]) == Remaining(txs) - txs[t].Remaining() + x.Remaining()
  {
    var last := |txs| - 1;
    if t == last {
      assert txs[t := x][..last] == txs[..last];
    } else {
      RemainingUpdate(txs[..last], t, x);
      assert txs[t := x][..last] == txs[..last][t := x];
    }
  }

  ghost predicate AllEnded(s: State) {
    forall t :: 0 <= t < |s.txs| ==> s.txs[t].ended
  }

  /** Following the waits from any unfinished transaction reaches one that can move. */
  lemma {:induction false} SomeoneMoves(s: State, t: nat) returns (u: nat)
    requires Reachable(s) && t < |s.txs| && !s.txs[t].ended
    ensures u < |s.txs| && !s.txs[u].ended && !Blocked(s, u)
    decreases 2 - Level(s, t)
  {
    if Blocked(s, t) {
      var next := s.held[s.txs[t].Wanted()];
      assert Took(s.txs[next], s.txs[t].Wanted());
      WaitingRises(s, t, next);
      u := SomeoneMoves(s, next);
    } else {
      u := t;
    }
  }

  /** Its next step: take the next lock, or commit with all of them. */
  function Forward(s: State, t: nat): Move
    requires t < |s.txs|
  {
    if s.txs[t].Wants() then Acquire(t) else Commit(t)
  }

  predicate OnlyForward(ms: seq<Move>) {
    forall i :: 0 <= i < |ms| ==> ms[i].Acquire? || ms[i].Commit?
  }

  lemma ForwardProgress(s: State, t: nat)
    requires t < |s.txs| && !s.txs[t].ended && !Blocked(s, t)
    ensures Remaining(Next(s, Forward(s, t)).txs) < Remaining(s.txs)
  {
    var x := s.txs[t];
    var y := if x.Wants() then x.(next := x.next + 1) else x.(ended := true);
    assert Next(s, Forward(s, t)).txs == s.txs[t := y];
    assert y.Remaining() < x.Remaining();
    RemainingUpdate(s.txs, t, y);
  }

  lemma {:induction false} ReplayFirst(s: State, m: Move, ms: seq<Move>)
    ensures Replay(s, [m] + ms) == Replay(Next(s, m), ms)
  {
    var all := [m] + ms;
    if ms == [] {
      assert all[..0] == [];
    } else {
      assert all[..|all| - 1] == [m] + ms[..|ms| - 1];
      ReplayFirst(s, m, ms[..|ms| - 1]);
    }
  }

  lemma ForwardThen(s: State, u: nat, rest: seq<Move>)
    requires u < |s.txs| && OnlyForward(rest)
    ensures OnlyForward([Forward(s, u)] + rest)
            && Replay(s, [Forward(s, u)] + rest) == Replay(Next(s, Forward(s, u)), rest)
  {
    ReplayFirst(s, Forward(s, u), rest);
  }

  lemma {:induction false} FinishFrom(s: State) returns (more: seq<Move>)
    requires Reachable(s)
    ensures OnlyForward(more) && AllEnded(Replay(s, more))
    decreases Remaining(s.txs)
  {
    if t :| 0 <= t < |s.txs| && !s.txs[t].ended {
      var u := SomeoneMoves(s, t);
      ForwardProgress(s, u);
      NextKeeps(s, Forward(s, u));
      var rest := FinishFrom(Next(s, Forward(s, u)));
      ForwardThen(s, u, rest);
      more := [Forward(s, u)] + rest;
    } else {
      more := [];
    }
  }

  /** From every reachable state all transactions can take the rest of their locks and
      commit: none has to be rolled back to let the others on. */
  lemma EveryoneCanCommit(ms: seq<Move>) returns (more: seq<Move>)
    requires AllOwn(ms)
    ensures OnlyForward(more) && AllEnded(Replay(Replay(START, ms), more))
  {
    ReplayKeeps(START, ms);
    more := FinishFrom(Replay(START, ms));
  }

  // ---- why the documents' bank matters ------------------------------------

  lemma ReplayPair(s: State, ms: seq<Move>, m: Move, n: Move)
    ensures Replay(s, ms + [m, n]) == Next(Next(Replay(s, ms), m), n)
  {
    var all := ms + [m, n];
    assert all[..|all| - 1] == ms + [m];
    assert (ms + [m])[..|ms|] == ms;
  }

  /** Two transactions that each took their first two of three locks wait for each other. */
  lemma BothInner(p: Work, ps: seq<Lock>, q: Work, qs: seq<Lock>)
    requires p.Locks() == ps && q.Locks() == qs && |ps| == 3 && |qs| == 3
    requires ps[0] != qs[0] && ps[1] == qs[2] && ps[2] == qs[1] && ps[1] != ps[2]
    requires ps[0] != ps[1] && ps[0] != ps[2] && qs[0] != ps[1] && qs[0] != ps[2]
    ensures var begun := Next(Next(START, Begin(p)), Begin(q));
            var s := Next(Next(Next(Next(begun, Acquire(0)), Acquire(1)), Acquire(0)), Acquire(1));
            WaitsFor(s, 0, 1) && WaitsFor(s, 1, 0)
  {
    var s2 := Next(Next(START, Begin(p)), Begin(q));
    assert s2 == State([Tx(p, ps, 0, false), Tx(q, qs, 0, false)], map[]);
    var s4 := Next(Next(s2, Acquire(0)), Acquire(1));
    assert s4 == State([Tx(p, ps, 1, false), Tx(q, qs, 1, false)], map[ps[0] := 0, qs[0] := 1]);
    var s6 := Next(Next(s4, Acquire(0)), Acquire(1));
    assert s6.txs == [Tx(p, ps, 2, false), Tx(q, qs, 2, false)];
    assert s6.held == map[ps[0] := 0, qs[0] := 1, ps[1] := 0, qs[1] := 1];
  }

  /** Publications of two offerings that both store versions v and w, in opposite order,
      can wait for each other for ever. At most one of the two can own them. */
  lemma ForeignDocumentsDeadlock(a: Scope, b: Scope, v: Version, w: Version) returns (ms: seq<Move>)
    requires a != b && v != w
    ensures !AllOwn(ms)
    ensures WaitsFor(Replay(START, ms), 0, 1) && WaitsFor(Replay(START, ms), 1, 0)
  {
    var p, q := Publish(a, [v, w]), Publish(b, [w, v]);
    var ps, qs := [OfferingLock(a), VersionLock(v), VersionLock(w)], [OfferingLock(b), VersionLock(w), VersionLock(v)];
    var begun, outer, inner := [Begin(p), Begin(q)], [Acquire(0), Acquire(1)], [Acquire(0), Acquire(1)];
    ms := begun + outer + inner;
    assert ms[0].work == p && ms[1].work == q;
    assert p.versions[0] == v && p.versions[1] == w && q.versions[0] == w;
    assert p.Locks() == ps && q.Locks() == qs;
    ReplayPair(START, [], Begin(p), Begin(q));
    assert [] + begun == begun;
    ReplayPair(START, begun, Acquire(0), Acquire(1));
    ReplayPair(START, begun + outer, Acquire(0), Acquire(1));
    BothInner(p, ps, q, qs);
  }
}
