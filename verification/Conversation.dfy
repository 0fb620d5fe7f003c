/**
  The chat's view of its append-only session log (app/cli.py).

  A rewind never deletes history: it appends a marker naming an invocation, and
  readers compute the live conversation from the raw log.
 */
module Conversation {
  import opened Wrappers

  /** A tool call inside an event; `args` is opaque payload. */
  datatype Call = Call(name: string, id: string, args: string)

  /** One content part: it may carry a call, a response to a call id, or neither. */
  datatype Part = Part(call: Option<Call>, response: Option<string>)

  datatype Event = Event(invocation: string, rewindBefore: Option<string>, parts: seq<Part>)

  type Log = seq<Event>

  /** An event is a rewind marker when it names a non-empty target. */
  predicate IsMarker(e: Event) {
    e.rewindBefore.Some? && e.rewindBefore.value != ""
  }

  // ---- rewind -------------------------------------------------------------

  /** The first raw position of invocation `target`, or the length of the log. */
  function FirstOf(log: Log, target: string): (p: nat)
    ensures p <= |log|
    ensures forall k :: 0 <= k < p ==> log[k].invocation != target
    ensures p < |log| ==> log[p].invocation == target
  {
    if log == [] then 0
    else if log[0].invocation == target then 0
    else 1 + FirstOf(log[1..], target)
  }

  /** The live conversation, by recursion on the log's last event: a marker returns
      to the conversation as it was just before its target's first event, and a
      marker with an unknown target is simply not part of it. */
  function Live(log: Log): Log
    decreases |log|
  {
    if log == [] then []
    else
      var before, e := log[..|log| - 1], log[|log| - 1];
      if IsMarker(e) then Live(before[..FirstOf(before, e.rewindBefore.value)])
      else Live(before) + [e]
  }

  function Reversed<T>(s: seq<T>): (r: seq<T>)
    ensures |r| == |s|
    ensures forall i :: 0 <= i < |s| ==> r[i] == s[|s| - 1 - i]
  {
    if s == [] then [] else Reversed(s[1..]) + [s[0]]
  }

  /** The backward jumping scan: it visits only what it keeps, skipping from a
      marker to just before its target's first event. */
  method LiveEvents(events: Log) returns (kept: seq<Event>)
    ensures kept == Live(events)
  {
    kept := [];
    var index := |events| - 1;
    assert events[..|events|] == events;
    while index >= 0
      invariant -1 <= index < |events|
      invariant Live(events) == Live(events[..index + 1]) + Reversed(kept)
    {
      var event := events[index];
      LiveStep(events, index);
      if IsMarker(event) {
        index := FirstPosition(events, index, event.rewindBefore.value);
      } else {
        assert Reversed(kept + [event]) == [event] + Reversed(kept);
        kept := kept + [event];
      }
      index := index - 1;
    }
    assert Live(events[..0]) == [];
    kept := Reversed(kept);
  }

  /** The scan for a marker's target among the events before it; `index` itself when
      there is none. */
  method FirstPosition(events: Log, index: nat, target: string) returns (position: nat)
    requires index < |events|
    ensures position == FirstOf(events[..index], target)
  {
    position := 0;
    while position < index && events[position].invocation != target
      invariant position <= index
      invariant forall k :: 0 <= k < position ==> events[k].invocation != target
    {
      position := position + 1;
    }
  }

  lemma LiveStep(events: Log, index: nat)
    requires index < |events|
    ensures var e := events[index];
            Live(events[..index + 1]) ==
            if IsMarker(e) then Live(events[..FirstOf(events[..index], e.rewindBefore.value)])
            else Live(events[..index]) + [e]
  {
    var log := events[..index + 1];
    assert log[..|log| - 1] == events[..index];
    var e := events[index];
    if IsMarker(e) {
      var p := FirstOf(events[..index], e.rewindBefore.value);
      assert events[..index][..p] == events[..p];
    }
  }

  /** An event that names no target, or a blank one, is part of the conversation. */
  lemma UnmarkedStays(log: Log, e: Event)
    requires e.rewindBefore.None? || e.rewindBefore == Some("")
    ensures Live(log + [e]) == Live(log) + [e]
  {
    assert (log + [e])[..|log|] == log;
  }

  // ---- what a rewind means ------------------------------------------------

  /** The raw positions of the live events. */
  function LiveAt(log: Log): (live: seq<nat>)
    ensures forall i :: 0 <= i < |live| ==> live[i] < |log|
    decreases |log|
  {
    if log == [] then []
    else
      var before, e := log[..|log| - 1], log[|log| - 1];
      if IsMarker(e) then LiveAt(before[..FirstOf(before, e.rewindBefore.value)])
      else LiveAt(before) + [|log| - 1]
  }

  lemma {:induction false} LiveIsAtLivePositions(log: Log)
    ensures |Live(log)| == |LiveAt(log)|
    ensures forall i :: 0 <= i < |Live(log)| ==> Live(log)[i] == log[LiveAt(log)[i]]
    decreases |log|
  {
    if log != [] {
      var before, e := log[..|log| - 1], log[|log| - 1];
      if IsMarker(e) {
        LiveIsAtLivePositions(before[..FirstOf(before, e.rewindBefore.value)]);
      } else {
        LiveIsAtLivePositions(before);
      }
    }
  }

  /** The event at m is a rewind to before position k. */
  predicate GoesBackTo(log: Log, m: nat, k: nat)
    requires m < |log|
  {
    IsMarker(log[m]) && FirstOf(log[..m], log[m].rewindBefore.value) <= k
  }

  /** A later rewind, itself not undone, goes back to before position k. */
  ghost predicate Undone(log: Log, k: nat)
    decreases |log| - k
  {
    exists m :: k < m < |log| && GoesBackTo(log, m, k) && !Undone(log, m)
  }

  /** Later rewinds that stay at or above p change nothing below p. */
  lemma {:induction false} UndoneBelow(log: Log, p: nat, k: nat)
    requires k < p <= |log|
    requires forall m :: p <= m < |log| && IsMarker(log[m]) && !Undone(log, m) ==>
               FirstOf(log[..m], log[m].rewindBefore.value) >= p
    ensures Undone(log, k) <==> Undone(log[..p], k)
    decreases p - k
  {
    forall m | k < m < p ensures log[..p][..m] == log[..m] && (Undone(log, m) <==> Undone(log[..p], m)) {
      UndoneBelow(log, p, m);
    }
    if Undone(log, k) {
      var m :| k < m < |log| && GoesBackTo(log, m, k) && !Undone(log, m);
      assert m < p && log[..p][m] == log[m];
    }
    if Undone(log[..p], k) {
      var m :| k < m < p && GoesBackTo(log[..p], m, k) && !Undone(log[..p], m);
      assert log[..p][m] == log[m];
    }
  }

  /** The last event is undone by nothing; as a marker it undoes all from its target on. */
  lemma LastRewinds(log: Log, k: nat)
    requires log != [] && IsMarker(log[|log| - 1])
    requires FirstOf(log[..|log| - 1], log[|log| - 1].rewindBefore.value) <= k < |log| - 1
    ensures Undone(log, k)
  {
    assert !Undone(log, |log| - 1);
  }

  /** Below a marker's target nothing depends on the marker or on what it skips. */
  lemma {:induction false} BelowMarker(log: Log, p: nat, k: nat)
    requires log != [] && IsMarker(log[|log| - 1]) && k < p
    requires p == FirstOf(log[..|log| - 1], log[|log| - 1].rewindBefore.value)
    ensures Undone(log, k) <==> Undone(log[..p], k)
  {
    forall m | p <= m < |log| - 1 ensures Undone(log, m) {
      LastRewinds(log, m);
    }
    UndoneBelow(log, p, k);
  }

  lemma {:induction false} BelowEvent(log: Log, k: nat)
    requires log != [] && !IsMarker(log[|log| - 1]) && k < |log| - 1
    ensures Undone(log, k) <==> Undone(log[..|log| - 1], k)
  {
    UndoneBelow(log, |log| - 1, k);
  }

  /** Which positions are live, without the jumps: those of events that are no marker and
      that no later, effective rewind went back beyond. */
  lemma {:induction false} LiveIff(log: Log, k: nat)
    ensures k in LiveAt(log) <==> k < |log| && !IsMarker(log[k]) && !Undone(log, k)
    decreases |log|
  {
    if log != [] {
      var last := |log| - 1;
      if IsMarker(log[last]) {
        var p := FirstOf(log[..last], log[last].rewindBefore.value);
        LiveAtBelow(log, p);
        LiveIff(log[..p], k);
        if k < p {
          BelowMarker(log, p, k);
        } else if k < last {
          LastRewinds(log, k);
        }
      } else {
        LiveAtBelow(log, last);
        LiveIff(log[..last], k);
        if k < last {
          BelowEvent(log, k);
        }
      }
    }
  }

  lemma LiveAtBelow(log: Log, p: nat)
    requires log != [] && p < |log|
    requires var before, e := log[..|log| - 1], log[|log| - 1];
             p == if IsMarker(e) then FirstOf(before, e.rewindBefore.value) else |before|
    ensures LiveAt(log) == LiveAt(log[..p]) + (if IsMarker(log[|log| - 1]) then [] else [|log| - 1])
  {
    assert log[..|log| - 1][..p] == log[..p];
  }

  /** And they are read in their raw order. */
  lemma {:induction false} LiveInOrder(log: Log)
    ensures forall i, j :: 0 <= i < j < |LiveAt(log)| ==> LiveAt(log)[i] < LiveAt(log)[j]
    decreases |log|
  {
    if log != [] {
      var before, e := log[..|log| - 1], log[|log| - 1];
      if IsMarker(e) {
        LiveInOrder(before[..FirstOf(before, e.rewindBefore.value)]);
      } else {
        LiveInOrder(before);
      }
    }
  }

  /** A rewind marker naming invocation `target`, carrying no content. */
  function Marker(invocation: string, target: string): Event {
    Event(invocation, Some(target), [])
  }

  /** Appending a marker whose target first occurs at raw position p restores the
      conversation of the first p raw events, so every marker after p is undone
      with the rest; a marker with an unknown target changes nothing. */
  lemma {:induction false} RewindRestores(log: Log, invocation: string, target: string)
    requires target != ""
    ensures Live(log + [Marker(invocation, target)]) == Live(log[..FirstOf(log, target)])
    ensures FirstOf(log, target) == |log| ==> Live(log + [Marker(invocation, target)]) == Live(log)
  {
    var longer := log + [Marker(invocation, target)];
    assert longer[..|longer| - 1] == log;
    assert log[..|log|] == log;
  }

  /** An event that is still live remembers its past: the live list below it is the
      live list of the raw events before it. */
  lemma {:induction false} LivePast(log: Log, i: nat)
    requires i < |LiveAt(log)|
    ensures i < |Live(log)| && Live(log)[..i] == Live(log[..LiveAt(log)[i]])
    decreases |log|
  {
    LiveIsAtLivePositions(log);
    var before, e := log[..|log| - 1], log[|log| - 1];
    if IsMarker(e) {
      var p := FirstOf(before, e.rewindBefore.value);
      LivePast(before[..p], i);
      assert before[..p][..LiveAt(log)[i]] == log[..LiveAt(log)[i]];
    } else {
      LiveIsAtLivePositions(before);
      if i < |LiveAt(before)| {
        LivePast(before, i);
        assert before[..LiveAt(before)[i]] == log[..LiveAt(before)[i]];
        assert Live(log)[..i] == Live(before)[..i];
      } else {
        assert Live(log)[..i] == Live(before);
      }
    }
  }

  /** Nothing of `target` is live before its first event. */
  lemma NoneBefore(log: Log, target: string)
    ensures forall e :: e in Live(log[..FirstOf(log, target)]) ==> e.invocation != target
  {
    var earlier := log[..FirstOf(log, target)];
    LiveIsAtLivePositions(earlier);
    forall e | e in Live(earlier) ensures e.invocation != target {
      var i :| 0 <= i < |Live(earlier)| && Live(earlier)[i] == e;
      assert e == log[LiveAt(earlier)[i]];
    }
  }

  /** What a rewind does to a reader: when the target's first raw event is live, at
      place i of the live list, the rewind cuts the list there. Nothing of the
      target survives, and nothing before it is lost. */
  lemma {:induction false} RewindCutsTheLiveList(log: Log, invocation: string, target: string, i: nat)
    requires target != ""
    requires i < |LiveAt(log)| && LiveAt(log)[i] == FirstOf(log, target)
    ensures i < |Live(log)| && Live(log + [Marker(invocation, target)]) == Live(log)[..i]
    ensures forall e :: e in Live(log)[..i] ==> e.invocation != target
  {
    RewindRestores(log, invocation, target);
    LivePast(log, i);
    NoneBefore(log, target);
  }

  /** Reading forward and truncating the kept list at each marker. */
  function Forward(log: Log): Log
    decreases |log|
  {
    if log == [] then []
    else
      var kept := Forward(log[..|log| - 1]);
      var e := log[|log| - 1];
      if IsMarker(e) then kept[..FirstOf(kept, e.rewindBefore.value)] else kept + [e]
  }

  /** Every marker's target was, when the marker was appended, either unknown or live. */
  ghost predicate TargetsLive(log: Log) {
    forall m :: 0 <= m < |log| && IsMarker(log[m]) ==> TargetLive(log[..m], log[m].rewindBefore.value)
  }

  ghost predicate TargetLive(before: Log, target: string) {
    FirstOf(before, target) == |before| || FirstOf(before, target) in LiveAt(before)
  }

  /** Cutting the live list at a known live target is going back to just before it. */
  lemma CutIsRewind(before: Log, target: string)
    requires TargetLive(before, target)
    ensures Live(before)[..FirstOf(Live(before), target)] == Live(before[..FirstOf(before, target)])
  {
    NoneBefore(before, target);
    var live, p := Live(before), FirstOf(before, target);
    if p == |before| {
      assert before[..p] == before;
      FirstOfAbsent(live, target);
    } else {
      var i :| 0 <= i < |LiveAt(before)| && LiveAt(before)[i] == p;
      LivePast(before, i);
      LiveIsAtLivePositions(before);
      FirstOfUnique(live, target, i) by {
        forall k | 0 <= k < i ensures live[k].invocation != target {
          assert live[k] == live[..i][k];
        }
      }
    }
  }

  lemma FirstOfAbsent(log: Log, target: string)
    requires forall e :: e in log ==> e.invocation != target
    ensures FirstOf(log, target) == |log| && log[..|log|] == log
  {
  }

  /** Forward truncation is the same reading as long as nobody rewinds to an
      invocation that an earlier rewind removed. */
  lemma {:induction false} ForwardAgrees(log: Log)
    requires TargetsLive(log)
    ensures Forward(log) == Live(log)
    decreases |log|
  {
    if log != [] {
      var last := |log| - 1;
      var before, e := log[..last], log[last];
      TargetsLiveBefore(log);
      ForwardAgrees(before);
      if IsMarker(e) {
        CutIsRewind(before, e.rewindBefore.value);
      }
    }
  }

  lemma TargetsLiveBefore(log: Log)
    requires TargetsLive(log) && log != []
    ensures TargetsLive(log[..|log| - 1])
    ensures IsMarker(log[|log| - 1]) ==> TargetLive(log[..|log| - 1], log[|log| - 1].rewindBefore.value)
  {
    var before := log[..|log| - 1];
    forall m | 0 <= m < |before| && IsMarker(before[m]) ensures TargetLive(before[..m], before[m].rewindBefore.value) {
      assert before[..m] == log[..m];
    }
  }

  lemma FirstOfUnique(log: Log, target: string, i: nat)
    requires i < |log| && log[i].invocation == target
    requires forall k :: 0 <= k < i ==> log[k].invocation != target
    ensures FirstOf(log, target) == i
  {
  }

  /** Without that condition the two readings differ: rewinding to "b", which the
      rewind to "a" had already removed, brings "a" back. */
  lemma ForwardDiffers()
    ensures var a, b, c := Event("a", None, []), Event("b", None, []), Event("c", None, []);
            var log := [a, b, Marker("r", "a"), c, Marker("q", "b")];
            Live(log) == [a] && Forward(log) == [c]
  {
    var a, b, c := Event("a", None, []), Event("b", None, []), Event("c", None, []);
    var log := [a, b, Marker("r", "a"), c, Marker("q", "b")];
    assert log[..4] == [a, b, Marker("r", "a"), c];
    assert log[..4][..3] == [a, b, Marker("r", "a")];
    assert log[..4][..3][..2] == [a, b];
    assert [a, b][..1] == [a];
    assert log[..4][..1] == [a] && [a][..0] == [];
    assert FirstOf(log[..4], "b") == 1 by { FirstOfUnique(log[..4], "b", 1); }
    assert Live(log) == Live([a]);
    assert Forward([a, b]) == [a, b] by { assert Forward([a]) == [a] by { assert Forward([]) == []; } }
    assert Forward([a, b, Marker("r", "a")]) == [] by { FirstOfUnique([a, b], "a", 0); }
    assert Forward(log[..4]) == [c];
    assert FirstOf([c], "b") == 1;
  }
}
