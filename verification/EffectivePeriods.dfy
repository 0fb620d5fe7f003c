/**
  Where a day falls against a set of effective periods
  (app/domain/effective_periods.py). A day is its ordinal number.
 */
module EffectivePeriods {
  import opened Wrappers

  datatype Period = Period(start: Option<int>, end: Option<int>) {
    predicate Dated() {
      start.Some? || end.Some?
    }

    /** What constructing an EffectivePeriod checks (app/domain/source_discovery.py). */
    predicate WellOrdered() {
      start.Some? && end.Some? ==> start.value <= end.value
    }

    predicate Covers(day: int) {
      (start.None? || start.value <= day) && (end.None? || day <= end.value)
    }

    predicate Ended(day: int) {
      end.Some? && end.value < day
    }

    predicate NotBegun(day: int) {
      start.Some? && start.value > day
    }
  }

  datatype PeriodStatus = Current | Historical | Future | TimeBounded

  function DatedOf(ps: seq<Period>): seq<Period> {
    if ps == [] then []
    else DatedOf(ps[..|ps| - 1]) + (if ps[|ps| - 1].Dated() then [ps[|ps| - 1]] else [])
  }

  function Status(ps: seq<Period>, day: int): Option<PeriodStatus> {
    var dated := DatedOf(ps);
    if dated == [] then None
    else if exists p :: p in dated && p.Covers(day) then Some(Current)
    else if forall p :: p in dated ==> p.Ended(day) then Some(Historical)
    else if forall p :: p in dated ==> p.NotBegun(day) then Some(Future)
    else Some(TimeBounded)
  }

  lemma {:induction false} DatedOfIsFilter(ps: seq<Period>)
    ensures forall p :: p in DatedOf(ps) <==> p in ps && p.Dated()
  {
    if ps != [] {
      DatedOfIsFilter(ps[..|ps| - 1]);
      forall p ensures p in ps <==> p in ps[..|ps| - 1] || p == ps[|ps| - 1] {
        assert ps == ps[..|ps| - 1] + [ps[|ps| - 1]];
      }
    }
  }

  /** No status without a date. */
  lemma UndatedIff(ps: seq<Period>, day: int)
    ensures Status(ps, day) == None <==> forall p :: p in ps ==> p.start.None? && p.end.None?
  {
    DatedOfIsFilter(ps);
    if DatedOf(ps) != [] {
      assert DatedOf(ps)[0] in DatedOf(ps);
    }
  }

  /** Current: some period with a date has begun, or has no beginning, and has not ended, or
      has no end. */
  lemma CurrentIff(ps: seq<Period>, day: int)
    ensures Status(ps, day) == Some(Current) <==>
            exists p :: p in ps && (p.start.Some? || p.end.Some?)
                        && (p.start.Some? ==> p.start.value <= day) && (p.end.Some? ==> day <= p.end.value)
  {
    DatedOfIsFilter(ps);
    if p :| p in ps && p.Dated() && p.Covers(day) {
      assert p in DatedOf(ps);
    }
  }

  /** Historical: every period with a date, of which there is one, ended before the day. */
  lemma HistoricalIff(ps: seq<Period>, day: int)
    ensures Status(ps, day) == Some(Historical) <==>
            && (exists p :: p in ps && (p.start.Some? || p.end.Some?))
            && (forall p :: p in ps && (p.start.Some? || p.end.Some?) ==> p.end.Some? && p.end.value < day)
  {
    DatedOfIsFilter(ps);
    if DatedOf(ps) != [] {
      assert DatedOf(ps)[0] in DatedOf(ps);
    }
  }

  /** Future: every dated period begins after the day and, as historical is asked first, one
      has not ended before it, which goes without saying of well-ordered ones. */
  lemma FutureIff(ps: seq<Period>, day: int)
    ensures Status(ps, day) == Some(Future) <==>
            && (exists p :: p in ps && (p.start.Some? || p.end.Some?))
            && (forall p :: p in ps && (p.start.Some? || p.end.Some?) ==> p.start.Some? && day < p.start.value)
            && (exists p :: p in ps && (p.start.Some? || p.end.Some?) && (p.end.Some? ==> day <= p.end.value))
  {
    DatedOfIsFilter(ps);
    if DatedOf(ps) != [] {
      assert DatedOf(ps)[0] in DatedOf(ps);
    }
  }

  /** Neither the order of the periods nor their repetition matters. */
  lemma OrderIrrelevant(ps: seq<Period>, qs: seq<Period>, day: int)
    requires forall p :: p in ps <==> p in qs
    ensures Status(ps, day) == Status(qs, day)
  {
    DatedOfIsFilter(ps);
    DatedOfIsFilter(qs);
    forall p ensures p in DatedOf(ps) <==> p in DatedOf(qs) {
    }
    assert DatedOf(ps) != [] ==> DatedOf(ps)[0] in DatedOf(ps);
    assert DatedOf(qs) != [] ==> DatedOf(qs)[0] in DatedOf(qs);
  }

  /** As the day advances, future is where it begins and historical where it stays. */
  lemma FutureBefore(ps: seq<Period>, day: int, earlier: int)
    requires Status(ps, day) == Some(Future) && earlier <= day
    ensures Status(ps, earlier) == Some(Future)
  {
    var dated := DatedOf(ps);
    forall p | p in dated ensures p.NotBegun(earlier) && !p.Covers(earlier) {
      assert p.NotBegun(day);
    }
    var p :| p in dated && !p.Ended(day);
    assert !p.Ended(earlier);
  }

  lemma HistoricalAfter(ps: seq<Period>, day: int, later: int)
    requires Status(ps, day) == Some(Historical) && day <= later
    ensures Status(ps, later) == Some(Historical)
  {
    forall p | p in DatedOf(ps) ensures p.Ended(later) && !p.Covers(later) {
      assert p.Ended(day);
    }
  }

  /** Time-bounded means a gap: one period is over, another is still to come, and none
      covers the day. */
  lemma TimeBoundedIff(ps: seq<Period>, day: int)
    requires forall p :: p in ps ==> p.WellOrdered()
    ensures Status(ps, day) == Some(TimeBounded) <==>
            && (exists p :: p in ps && p.Ended(day))
            && (exists p :: p in ps && p.NotBegun(day))
            && (forall p :: p in ps && p.Dated() ==> !p.Covers(day))
  {
    DatedOfIsFilter(ps);
    var dated := DatedOf(ps);
    forall p | p in dated ensures p.Covers(day) <==> !p.Ended(day) && !p.NotBegun(day) {
    }
    forall p | p in dated ensures !(p.Ended(day) && p.NotBegun(day)) {
      assert p.WellOrdered();
    }
    if p :| p in ps && p.Ended(day) {
      assert p in dated;
    }
    if p :| p in ps && p.NotBegun(day) {
      assert p in dated;
    }
  }
}
