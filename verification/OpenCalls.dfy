/**
  Finding the call a conversation is still waiting on (app/cli.py): the review
  pause the user has not answered, and the monitoring call that never got a
  response. Both scan the live conversation into an insertion-ordered dictionary
  of open calls and take its newest entry.
 */
module OpenCalls {
  import opened Wrappers
  import opened Conversation

  const REVIEW_REQUEST := "adk_request_input"
  const MONITORING_TOOLS := {"run_tariff_monitoring", "review_pending_candidates"}

  /** A part together with the invocation of its event. */
  datatype Item = Item(invocation: string, part: Part)

  /** An open call: its id, and the invocation and arguments last announced for it. */
  datatype Opened = Opened(id: string, invocation: string, args: string)

  function PartsOf(e: Event): (r: seq<Item>)
    ensures |r| == |e.parts|
  {
    seq(|e.parts|, i requires 0 <= i < |e.parts| => Item(e.invocation, e.parts[i]))
  }

  function Items(events: Log): seq<Item> {
    if events == [] then [] else Items(events[..|events| - 1]) + PartsOf(events[|events| - 1])
  }

  predicate Calls(item: Item, names: set<string>) {
    item.part.call.Some? && item.part.call.value.name in names && item.part.call.value.id != ""
  }

  /** The part calls one of the tools under this id, which is not blank. */
  predicate Opens(item: Item, names: set<string>, id: string) {
    item.part.call.Some? && item.part.call.value.name in names && item.part.call.value.id == id && id != ""
  }

  predicate Answers(item: Item, id: string) {
    item.part.response == Some(id)
  }

  function Announced(item: Item, names: set<string>): Opened
    requires Calls(item, names)
  {
    Opened(item.part.call.value.id, item.invocation, item.part.call.value.args)
  }

  // ---- the dictionary -----------------------------------------------------

  function IndexOf(d: seq<Opened>, id: string): (i: nat)
    ensures i <= |d|
    ensures forall k :: 0 <= k < i ==> d[k].id != id
    ensures i < |d| ==> d[i].id == id
  {
    if d == [] then 0 else if d[0].id == id then 0 else 1 + IndexOf(d[1..], id)
  }

  /** Assignment to a key: an existing key keeps its place. */
  function Put(d: seq<Opened>, o: Opened): seq<Opened> {
    var i := IndexOf(d, o.id);
    if i < |d| then d[i := o] else d + [o]
  }

  /** Removal of a key that may be absent. */
  function Pop(d: seq<Opened>, id: Option<string>): seq<Opened> {
    if id.None? then d
    else
      var i := IndexOf(d, id.value);
      if i < |d| then d[..i] + d[i + 1..] else d
  }

  /** One part: its call first, then its response. */
  function Note(d: seq<Opened>, item: Item, names: set<string>): seq<Opened> {
    Pop(if Calls(item, names) then Put(d, Announced(item, names)) else d, item.part.response)
  }

  function Scan(items: seq<Item>, names: set<string>): seq<Opened> {
    if items == [] then []
    else Note(Scan(items[..|items| - 1], names), items[|items| - 1], names)
  }

  function Newest(d: seq<Opened>): Option<Opened> {
    if d == [] then None else Some(d[|d| - 1])
  }

  /** The scan both readers share. */
  method OpenCallsOf(events: Log, names: set<string>) returns (openCalls: seq<Opened>)
    ensures openCalls == Scan(Items(Live(events)), names)
  {
    var live := LiveEvents(events);
    openCalls := [];
    for e := 0 to |live|
      invariant openCalls == Scan(Items(live[..e]), names)
    {
      openCalls := NoteEvent(live[e], names, openCalls, Items(live[..e]));
      assert live[..e + 1][..e] == live[..e];
    }
    assert live[..|live|] == live;
  }

  method NoteEvent(event: Event, names: set<string>, before: seq<Opened>, ghost seen: seq<Item>)
    returns (openCalls: seq<Opened>)
    requires before == Scan(seen, names)
    ensures openCalls == Scan(seen + PartsOf(event), names)
  {
    openCalls := before;
    ghost var parts := PartsOf(event);
    assert seen + parts[..0] == seen;
    for p := 0 to |event.parts|
      invariant openCalls == Scan(seen + parts[..p], names)
    {
      var part := event.parts[p];
      ScanStep(seen, parts, p, names);
      if part.call.Some? && part.call.value.name in names && part.call.value.id != "" {
        openCalls := Put(openCalls, Opened(part.call.value.id, event.invocation, part.call.value.args));
      }
      openCalls := Pop(openCalls, part.response);
    }
    assert parts[..|event.parts|] == parts;
  }

  lemma ScanStep(seen: seq<Item>, parts: seq<Item>, p: nat, names: set<string>)
    requires p < |parts|
    ensures Scan(seen + parts[..p + 1], names) == Note(Scan(seen + parts[..p], names), parts[p], names)
  {
    var items := seen + parts[..p + 1];
    assert items[..|items| - 1] == seen + parts[..p];
  }

  method PendingReview(events: Log) returns (pending: Option<Opened>)
    ensures pending == Newest(Scan(Items(Live(events)), {"adk_request_input"}))
  {
    var openCalls := OpenCallsOf(events, {REVIEW_REQUEST});
    pending := Newest(openCalls);
  }

  method DanglingMonitoringInvocation(events: Log) returns (invocation: Option<string>)
    ensures var newest := Newest(Scan(Items(Live(events)), {"run_tariff_monitoring", "review_pending_candidates"}));
            invocation == if newest.None? then None else Some(newest.value.invocation)
  {
    var calls := OpenCallsOf(events, MONITORING_TOOLS);
    var newest := Newest(calls);
    invocation := if newest.None? then None else Some(newest.value.invocation);
  }

  // ---- what the scan finds ------------------------------------------------

  /** The last place that answers `id`, or -1. */
  function LastAnswer(items: seq<Item>, id: string): (a: int)
    ensures -1 <= a < |items|
    ensures a >= 0 ==> Answers(items[a], id)
    ensures forall k :: a < k < |items| ==> !Answers(items[k], id)
  {
    if items == [] then -1
    else if Answers(items[|items| - 1], id) then |items| - 1
    else LastAnswer(items[..|items| - 1], id)
  }

  /** `id` is called at `i` of `items`, after its last response among `answered`. */
  ghost predicate OpenAt(items: seq<Item>, answered: seq<Item>, names: set<string>, id: string, i: int) {
    LastAnswer(answered, id) < i < |items| && Opens(items[i], names, id)
  }

  /** `id` was opened at `i`: the first call since its last response. */
  ghost predicate FirstOpenAt(items: seq<Item>, answered: seq<Item>, names: set<string>, id: string, i: int) {
    OpenAt(items, answered, names, id, i)
    && forall k :: LastAnswer(answered, id) < k < i ==> !Opens(items[k], names, id)
  }

  /** `o` is what the announcement at `i`, the last one of its id, said. */
  ghost predicate LastSaidAt(items: seq<Item>, names: set<string>, o: Opened, i: int) {
    0 <= i < |items| && Opens(items[i], names, o.id)
    && o.invocation == items[i].invocation && o.args == items[i].part.call.value.args
    && forall k :: i < k < |items| ==> !Opens(items[k], names, o.id)
  }

  ghost predicate Has(d: seq<Opened>, id: string) {
    exists x :: 0 <= x < |d| && d[x].id == id
  }

  /** Each id of `d` was opened at the place given for it, and they come in that order. */
  ghost predicate Placed(items: seq<Item>, answered: seq<Item>, names: set<string>, d: seq<Opened>, at: seq<int>) {
    && |at| == |d|
    && (forall x :: 0 <= x < |d| ==> FirstOpenAt(items, answered, names, d[x].id, at[x]))
    && (forall x, y :: 0 <= x < y < |d| ==> at[x] < at[y])
  }

  ghost predicate Said(items: seq<Item>, names: set<string>, d: seq<Opened>, said: seq<int>) {
    |said| == |d| && forall x :: 0 <= x < |d| ==> LastSaidAt(items, names, d[x], said[x])
  }

  ghost predicate Complete(items: seq<Item>, answered: seq<Item>, names: set<string>, d: seq<Opened>) {
    forall id, i :: OpenAt(items, answered, names, id, i) ==> Has(d, id)
  }

  /** The dictionary `d` holds exactly the open ids, in the order in which they were
      opened (at the places `at`), each with its last announcement (at `said`). */
  ghost predicate Describes(items: seq<Item>, answered: seq<Item>, names: set<string>,
                            d: seq<Opened>, at: seq<int>, said: seq<int>) {
    Placed(items, answered, names, d, at) && Said(items, names, d, said) && Complete(items, answered, names, d)
  }

  /** The scan's dictionary describes the open calls of what it scanned. */
  lemma {:induction false} ScanDescribes(items: seq<Item>, names: set<string>) returns (at: seq<int>, said: seq<int>)
    ensures Describes(items, items, names, Scan(items, names), at, said)
  {
    if items == [] {
      at, said := [], [];
    } else {
      var before, item := items[..|items| - 1], items[|items| - 1];
      assert items == before + [item];
      at, said := ScanDescribes(before, names);
      var d := Scan(before, names);
      if Calls(item, names) {
        at, said := CallNoted(before, item, names, d, at, said);
        d := Put(d, Announced(item, names));
      } else {
        OtherNoted(before, item, names, d, at, said);
      }
      at, said := ResponseNoted(before, item, names, d, at, said);
    }
  }

  lemma DistinctIds(items: seq<Item>, answered: seq<Item>, names: set<string>, d: seq<Opened>, at: seq<int>)
    requires Placed(items, answered, names, d, at)
    ensures forall x, y :: 0 <= x < y < |d| ==> d[x].id != d[y].id
  {
  }

  lemma OtherNoted(before: seq<Item>, item: Item, names: set<string>, d: seq<Opened>, at: seq<int>, said: seq<int>)
    requires Describes(before, before, names, d, at, said) && !Calls(item, names)
    ensures Describes(before + [item], before, names, d, at, said)
  {
    var items := before + [item];
    forall id, i | OpenAt(items, before, names, id, i) ensures Has(d, id) {
      assert OpenAt(before, before, names, id, i);
    }
  }

  lemma CallNoted(before: seq<Item>, item: Item, names: set<string>, d: seq<Opened>, at: seq<int>, said: seq<int>)
    returns (at': seq<int>, said': seq<int>)
    requires Describes(before, before, names, d, at, said) && Calls(item, names)
    ensures Describes(before + [item], before, names, Put(d, Announced(item, names)), at', said')
  {
    var n, o := |before|, Announced(item, names);
    var x := IndexOf(d, o.id);
    at' := if x < |d| then at else at + [n];
    said' := if x < |d| then said[x := n] else said + [n];
    DistinctIds(before, before, names, d, at);
    assert Placed(before + [item], before, names, Put(d, o), at') by {
      CallPlaced(before, item, names, d, at);
    }
    assert Said(before + [item], names, Put(d, o), said') by {
      CallSaid(before, item, names, d, said);
    }
    CallComplete(before, item, names, d);
  }

  lemma CallPlaced(before: seq<Item>, item: Item, names: set<string>, d: seq<Opened>, at: seq<int>)
    requires Placed(before, before, names, d, at) && Complete(before, before, names, d) && Calls(item, names)
    ensures var o := Announced(item, names);
            Placed(before + [item], before, names, Put(d, o), if IndexOf(d, o.id) < |d| then at else at + [|before|])
  {
    var items, o := before + [item], Announced(item, names);
    StillPlaced(before, item, names, d, at);
    if IndexOf(d, o.id) < |d| {
      SameIdsPlaced(items, before, names, d, Put(d, o), at);
    } else {
      NewlyOpen(before, item, names, d, o.id);
      OneMorePlaced(items, before, names, d, at, o, |before|);
    }
  }

  lemma SameIdsPlaced(items: seq<Item>, answered: seq<Item>, names: set<string>, d: seq<Opened>, d': seq<Opened>,
                      at: seq<int>)
    requires Placed(items, answered, names, d, at)
    requires |d'| == |d| && forall x :: 0 <= x < |d| ==> d'[x].id == d[x].id
    ensures Placed(items, answered, names, d', at)
  {
  }

  lemma OneMorePlaced(items: seq<Item>, answered: seq<Item>, names: set<string>, d: seq<Opened>, at: seq<int>,
                      o: Opened, i: int)
    requires Placed(items, answered, names, d, at) && FirstOpenAt(items, answered, names, o.id, i)
    requires forall x :: 0 <= x < |at| ==> at[x] < i
    ensures Placed(items, answered, names, d + [o], at + [i])
  {
  }

  lemma StillPlaced(before: seq<Item>, item: Item, names: set<string>, d: seq<Opened>, at: seq<int>)
    requires Placed(before, before, names, d, at)
    ensures Placed(before + [item], before, names, d, at)
    ensures forall x :: 0 <= x < |d| ==> at[x] < |before|
  {
    forall x | 0 <= x < |d| ensures FirstOpenAt(before + [item], before, names, d[x].id, at[x]) {
      StillFirst(before, item, names, d[x].id, at[x]);
    }
  }

  lemma StillFirst(before: seq<Item>, item: Item, names: set<string>, id: string, i: int)
    requires FirstOpenAt(before, before, names, id, i)
    ensures FirstOpenAt(before + [item], before, names, id, i)
  {
    assert forall k :: 0 <= k < |before| ==> (before + [item])[k] == before[k];
  }

  lemma NewlyOpen(before: seq<Item>, item: Item, names: set<string>, d: seq<Opened>, id: string)
    requires Opens(item, names, id) && Complete(before, before, names, d) && !Has(d, id)
    ensures FirstOpenAt(before + [item], before, names, id, |before|)
  {
    forall k | LastAnswer(before, id) < k < |before| ensures !Opens((before + [item])[k], names, id) {
      assert !OpenAt(before, before, names, id, k);
    }
  }

  lemma {:induction false} CallSaid(before: seq<Item>, item: Item, names: set<string>, d: seq<Opened>, said: seq<int>)
    requires Said(before, names, d, said) && Calls(item, names)
    requires forall x, y :: 0 <= x < y < |d| ==> d[x].id != d[y].id
    ensures var o, n := Announced(item, names), |before|;
            var x := IndexOf(d, o.id);
            Said(before + [item], names, Put(d, o), if x < |d| then said[x := n] else said + [n])
  {
  }

  lemma CallComplete(before: seq<Item>, item: Item, names: set<string>, d: seq<Opened>)
    requires Complete(before, before, names, d) && Calls(item, names)
    ensures Complete(before + [item], before, names, Put(d, Announced(item, names)))
  {
    var o := Announced(item, names);
    var called := Put(d, o);
    forall id, i | OpenAt(before + [item], before, names, id, i) ensures Has(called, id) {
      if i < |before| {
        assert OpenAt(before, before, names, id, i);
        var y :| 0 <= y < |d| && d[y].id == id;
        assert called[y].id == id;
      } else {
        assert called[IndexOf(d, o.id)].id == id;
      }
    }
  }

  lemma LastAnswerStep(before: seq<Item>, item: Item, id: string)
    ensures LastAnswer(before + [item], id) == if Answers(item, id) then |before| else LastAnswer(before, id)
  {
    assert (before + [item])[..|before|] == before;
  }

  function Without<T>(s: seq<T>, x: nat): (r: seq<T>)
    ensures |r| == if x < |s| then |s| - 1 else |s|
    ensures forall k :: 0 <= k < |r| ==> r[k] == s[if k < x then k else k + 1]
  {
    if x < |s| then s[..x] + s[x + 1..] else s
  }

  lemma ResponseNoted(before: seq<Item>, item: Item, names: set<string>, d: seq<Opened>, at: seq<int>, said: seq<int>)
    returns (at': seq<int>, said': seq<int>)
    requires Describes(before + [item], before, names, d, at, said)
    ensures Describes(before + [item], before + [item], names, Pop(d, item.part.response), at', said')
  {
    var gone := if item.part.response.Some? then IndexOf(d, item.part.response.value) else |d|;
    at', said' := Without(at, gone), Without(said, gone);
    assert Pop(d, item.part.response) == Without(d, gone);
    DistinctIds(before + [item], before, names, d, at);
    ResponsePlaced(before, item, names, d, at, gone);
    ResponseComplete(before, item, names, d, gone);
  }

  lemma {:induction false} ResponsePlaced(before: seq<Item>, item: Item, names: set<string>, d: seq<Opened>,
                                          at: seq<int>, gone: nat)
    requires Placed(before + [item], before, names, d, at)
    requires forall x, y :: 0 <= x < y < |d| ==> d[x].id != d[y].id
    requires gone == if item.part.response.Some? then IndexOf(d, item.part.response.value) else |d|
    ensures Placed(before + [item], before + [item], names, Without(d, gone), Without(at, gone))
  {
    var left, at' := Without(d, gone), Without(at, gone);
    forall x | 0 <= x < |left| ensures FirstOpenAt(before + [item], before + [item], names, left[x].id, at'[x]) {
      var y := if x < gone then x else x + 1;
      assert FirstOpenAt(before + [item], before, names, d[y].id, at[y]);
      LastAnswerStep(before, item, d[y].id);
      assert !Answers(item, d[y].id);
    }
  }

  lemma {:induction false} ResponseComplete(before: seq<Item>, item: Item, names: set<string>, d: seq<Opened>,
                                            gone: nat)
    requires Complete(before + [item], before, names, d)
    requires gone == if item.part.response.Some? then IndexOf(d, item.part.response.value) else |d|
    ensures Complete(before + [item], before + [item], names, Without(d, gone))
  {
    var items, left := before + [item], Without(d, gone);
    forall id, i | OpenAt(items, items, names, id, i) ensures Has(left, id) {
      LastAnswerStep(before, item, id);
      assert OpenAt(items, before, names, id, i);
      var y :| 0 <= y < |d| && d[y].id == id;
      assert left[if y < gone then y else y - 1].id == id;
    }
  }

  // ---- the two readings ---------------------------------------------------

  /** What the readings return: nothing when no call is open, and otherwise the open
      call that was opened last, as last announced. Re-announcing an open call does
      not make it newer. */
  lemma NewestIsLatestOpened(items: seq<Item>, names: set<string>)
    ensures Newest(Scan(items, names)).None? <==> forall id, i :: !OpenAt(items, items, names, id, i)
    ensures var r := Newest(Scan(items, names));
            r.Some? ==>
              exists first, said :: FirstOpenAt(items, items, names, r.value.id, first)
                && LastSaidAt(items, names, r.value, said)
                && forall id, i :: id != r.value.id && FirstOpenAt(items, items, names, id, i) ==> i < first
  {
    var at, said := ScanDescribes(items, names);
    var d := Scan(items, names);
    if d == [] {
      assert forall id :: !Has(d, id);
    } else {
      var newest := |d| - 1;
      assert OpenAt(items, items, names, d[newest].id, at[newest]);
      assert LastSaidAt(items, names, d[newest], said[newest]);
      LastIsNewest(items, names, d, at);
    }
  }

  lemma LastIsNewest(items: seq<Item>, names: set<string>, d: seq<Opened>, at: seq<int>)
    requires d != [] && Placed(items, items, names, d, at) && Complete(items, items, names, d)
    ensures forall id, i :: id != d[|d| - 1].id && FirstOpenAt(items, items, names, id, i) ==> i < at[|d| - 1]
  {
    forall id, i | id != d[|d| - 1].id && FirstOpenAt(items, items, names, id, i) ensures i < at[|d| - 1] {
      assert OpenAt(items, items, names, id, i);
      var x :| 0 <= x < |d| && d[x].id == id;
      SameFirst(items, names, id, i, at[x]);
    }
  }

  lemma SameFirst(items: seq<Item>, names: set<string>, id: string, i: int, j: int)
    requires FirstOpenAt(items, items, names, id, i) && FirstOpenAt(items, items, names, id, j)
    ensures i == j
  {
  }

  /** An open call was made by an event of the log. */
  lemma {:induction false} ItemsComeFrom(events: Log, i: nat)
    requires i < |Items(events)|
    ensures exists e :: e in events && Items(events)[i].invocation == e.invocation
  {
    var before, last := events[..|events| - 1], events[|events| - 1];
    assert events == before + [last];
    if i < |Items(before)| {
      ItemsComeFrom(before, i);
    } else {
      assert Items(events)[i] == PartsOf(last)[i - |Items(before)|];
    }
  }

  /** A rewind to a known invocation closes what it opened: whatever the readings return
      afterwards belongs to another invocation. */
  lemma RewoundIsNotRead(log: Log, invocation: string, target: string, names: set<string>)
    requires target != "" && FirstOf(log, target) < |log|
    ensures var r := Newest(Scan(Items(Live(log + [Marker(invocation, target)])), names));
            r.Some? ==> r.value.invocation != target
  {
    var before := Live(log[..FirstOf(log, target)]);
    var items := Items(before);
    RewindRestores(log, invocation, target);
    NoneBefore(log, target);
    var r := Newest(Scan(items, names));
    NewestIsLatestOpened(items, names);
    if r.Some? {
      var first, said :| FirstOpenAt(items, items, names, r.value.id, first) && LastSaidAt(items, names, r.value, said);
      ItemsComeFrom(before, said);
    }
  }

  /** After a rewind to `target` the readings return what they returned on the log
      just before the target's first event, and a rewind to an unknown invocation
      changes neither. */
  lemma ReadingAfterRewind(log: Log, invocation: string, target: string, names: set<string>)
    requires target != ""
    ensures Newest(Scan(Items(Live(log + [Marker(invocation, target)])), names))
         == Newest(Scan(Items(Live(log[..FirstOf(log, target)])), names))
    ensures FirstOf(log, target) == |log|
            ==> Newest(Scan(Items(Live(log + [Marker(invocation, target)])), names))
                == Newest(Scan(Items(Live(log)), names))
  {
    RewindRestores(log, invocation, target);
  }
}
