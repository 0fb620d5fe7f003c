/**
  Remembered review decisions (app/repositories/review_memory.py; the table and its
  unique constraint are in migrations/021). One protocol, two implementations: a list
  kept in memory, and a table with an upsert. Here each is specified on its own, and
  the two are related afterwards.
 */
module ReviewMemory {
  import opened Wrappers

  type Time = int

  /** What the table's unique constraint ranges over. */
  datatype Key = Key(offering: string, field: string, result: string) {
    predicate SameField(other: Key) {
      offering == other.offering && field == other.field
    }
  }

  /** `answer` stands for the decision, the reviewer and the review's id. */
  datatype Decision = Decision(key: Key, prompt: Option<string>, answer: string)

  datatype Query = Query(offering: string, field: string, prompts: seq<string>, results: seq<string>)

  /** A decision without a prompt fingerprint matches no prompt. */
  predicate Matches(d: Decision, q: Query) {
    && d.key.offering == q.offering && d.key.field == q.field
    && (d.key.result in q.results || (d.prompt.Some? && d.prompt.value in q.prompts))
  }

  // ---- the list -----------------------------------------------------------

  /** The latest match. */
  function Find(ds: seq<Decision>, q: Query): Option<Decision> {
    if ds == [] then None
    else if Matches(ds[|ds| - 1], q) then Some(ds[|ds| - 1])
    else Find(ds[..|ds| - 1], q)
  }

  function Without(ds: seq<Decision>, key: Key): seq<Decision> {
    if ds == [] then []
    else Without(ds[..|ds| - 1], key) + (if ds[|ds| - 1].key != key then [ds[|ds| - 1]] else [])
  }

  function Remembered(ds: seq<Decision>, d: Decision): seq<Decision> {
    Without(ds, d.key) + [d]
  }

  class InMemoryReviewDecisionMemory {
    var decisions: seq<Decision>

    constructor ()
      ensures decisions == []
    {
      decisions := [];
    }

    method FindDecision(q: Query) returns (r: Option<Decision>)
      ensures r == Find(decisions, q)
      ensures r.None? ==>
                forall d :: d in decisions && d.key.offering == q.offering && d.key.field == q.field ==>
                  d.key.result !in q.results && (d.prompt.None? || d.prompt.value !in q.prompts)
      ensures r.Some? ==>
                && r.value in decisions && r.value.key.offering == q.offering && r.value.key.field == q.field
                && (r.value.key.result in q.results
                    || (r.value.prompt.Some? && r.value.prompt.value in q.prompts))
    {
      var i := |decisions|;
      assert decisions[..i] == decisions;
      while i > 0
        invariant 0 <= i <= |decisions|
        invariant Find(decisions, q) == Find(decisions[..i], q)
        invariant forall k :: i <= k < |decisions| ==> !Matches(decisions[k], q)
      {
        i := i - 1;
        assert decisions[..i + 1][..i] == decisions[..i];
        if Matches(decisions[i], q) {
          return Some(decisions[i]);
        }
      }
      return None;
    }

    method Remember(d: Decision)
      modifies this
      ensures decisions == Remembered(old(decisions), d)
    {
      var kept := [];
      for i := 0 to |decisions|
        invariant kept == Without(decisions[..i], d.key)
      {
        assert decisions[..i + 1][..i] == decisions[..i];
        if decisions[i].key != d.key {
          kept := kept + [decisions[i]];
        }
      }
      assert decisions[..|decisions|] == decisions;
      decisions := kept + [d];
    }
  }

  // ---- the table ----------------------------------------------------------

  datatype Row = Row(id: nat, prompt: Option<string>, answer: string, createdAt: Time)

  /** `nextId` is the id sequence, which an upsert advances whether or not it inserts. */
  datatype Table = Table(rows: map<Key, Row>, nextId: nat)

  function DecisionAt(rows: map<Key, Row>, key: Key): Decision
    requires key in rows
  {
    Decision(key, rows[key].prompt, rows[key].answer)
  }

  /** An update keeps the row's id and renews its time. */
  function Upserted(t: Table, d: Decision, now: Time): Table {
    var id := if d.key in t.rows then t.rows[d.key].id else t.nextId;
    Table(t.rows[d.key := Row(id, d.prompt, d.answer, now)], t.nextId + 1)
  }

  /** `ORDER BY created_at DESC, id DESC` */
  predicate Newer(a: Row, b: Row) {
    a.createdAt > b.createdAt || (a.createdAt == b.createdAt && a.id > b.id)
  }

  /** The query's first row in that order, or nothing when no row matches. */
  ghost predicate Answers(rows: map<Key, Row>, q: Query, r: Option<Decision>) {
    match r
    case None => forall k :: k in rows ==> !Matches(DecisionAt(rows, k), q)
    case Some(d) =>
      && d.key in rows && d == DecisionAt(rows, d.key) && Matches(d, q)
      && forall k :: k in rows && k != d.key && Matches(DecisionAt(rows, k), q) ==> Newer(rows[d.key], rows[k])
  }

  /** Ids come from the sequence and no two rows share one. */
  ghost predicate IdsOk(t: Table) {
    && (forall k :: k in t.rows ==> t.rows[k].id < t.nextId)
    && forall k, l :: k in t.rows && l in t.rows && t.rows[k].id == t.rows[l].id ==> k == l
  }

  class PostgresReviewDecisionMemory {
    var rows: map<Key, Row>
    var nextId: nat

    constructor ()
      ensures View() == Table(map[], 0)
    {
      rows, nextId := map[], 0;
    }

    function View(): Table
      reads this
    {
      Table(rows, nextId)
    }

    method FindDecision(q: Query) returns (r: Option<Decision>)
      requires IdsOk(View())
      ensures Answers(rows, q, r)
      ensures r.None? ==>
                forall k :: k in rows && k.offering == q.offering && k.field == q.field ==>
                  k.result !in q.results && (rows[k].prompt.None? || rows[k].prompt.value !in q.prompts)
      ensures r.Some? ==>
                var k := r.value.key;
                && k in rows && r.value.prompt == rows[k].prompt && r.value.answer == rows[k].answer
                && k.offering == q.offering && k.field == q.field
                && (k.result in q.results || (rows[k].prompt.Some? && rows[k].prompt.value in q.prompts))
    {
      r := None;
      if q.prompts == [] && q.results == [] {
        return;
      }
      var rest := rows.Keys;
      while rest != {}
        invariant rest <= rows.Keys
        invariant r.Some? ==>
                    var d := r.value;
                    d.key in rows && d.key !in rest && d == DecisionAt(rows, d.key) && Matches(d, q)
        invariant forall k :: k in rows && k !in rest && Matches(DecisionAt(rows, k), q) ==>
                                r.Some? && (k == r.value.key || Newer(rows[r.value.key], rows[k]))
        decreases |rest|
      {
        var k :| k in rest;
        rest := rest - {k};
        if Matches(DecisionAt(rows, k), q) && (r.None? || Newer(rows[k], rows[r.value.key])) {
          r := Some(DecisionAt(rows, k));
        }
      }
    }

    method Remember(d: Decision, now: Time)
      modifies this
      ensures View() == Upserted(old(View()), d, now)
    {
      if d.key in rows {
        rows := rows[d.key := rows[d.key].(prompt := d.prompt, answer := d.answer, createdAt := now)];
      } else {
        rows := rows[d.key := Row(nextId, d.prompt, d.answer, now)];
      }
      nextId := nextId + 1;
    }
  }

  // ---- one remembers what the other does ----------------------------------

  /** The same decisions, one for each key. */
  ghost predicate SameDecisions(ds: seq<Decision>, rows: map<Key, Row>) {
    && (forall i :: 0 <= i < |ds| ==> ds[i].key in rows && ds[i] == DecisionAt(rows, ds[i].key))
    && (forall k :: k in rows ==> exists i :: 0 <= i < |ds| && ds[i].key == k)
    && (forall i, j :: 0 <= i < j < |ds| ==> ds[i].key != ds[j].key)
  }

  /** Among the decisions on one field, later in the list is newer in the table. */
  ghost predicate SameOrder(ds: seq<Decision>, rows: map<Key, Row>)
    requires SameDecisions(ds, rows)
  {
    forall i, j :: 0 <= i < j < |ds| && ds[i].key.SameField(ds[j].key) ==> Newer(rows[ds[j].key], rows[ds[i].key])
  }

  ghost predicate FindsAgree(ds: seq<Decision>, rows: map<Key, Row>) {
    forall q :: Answers(rows, q, Find(ds, q))
  }

  lemma {:induction false} FindIsLastMatch(ds: seq<Decision>, q: Query) returns (at: nat)
    ensures Find(ds, q).None? ==> forall i :: 0 <= i < |ds| ==> !Matches(ds[i], q)
    ensures Find(ds, q).Some? ==>
              && at < |ds| && Find(ds, q) == Some(ds[at]) && Matches(ds[at], q)
              && forall i :: at < i < |ds| ==> !Matches(ds[i], q)
  {
    if ds == [] {
      at := 0;
    } else if Matches(ds[|ds| - 1], q) {
      at := |ds| - 1;
    } else {
      at := FindIsLastMatch(ds[..|ds| - 1], q);
      forall i | 0 <= i < |ds| - 1 ensures ds[i] == ds[..|ds| - 1][i] {
      }
    }
  }

  lemma OneAnswer(rows: map<Key, Row>, q: Query, r: Option<Decision>, s: Option<Decision>)
    requires Answers(rows, q, r) && Answers(rows, q, s)
    ensures r == s
  {
    if r.Some? && s.Some? {
      var a, b := rows[r.value.key], rows[s.value.key];
      assert Newer(a, b) ==> !Newer(b, a);
    }
  }

  lemma SameOrderSameAnswer(ds: seq<Decision>, rows: map<Key, Row>, q: Query)
    requires SameDecisions(ds, rows) && SameOrder(ds, rows)
    ensures Answers(rows, q, Find(ds, q))
  {
    var at := FindIsLastMatch(ds, q);
    forall k | k in rows && Matches(DecisionAt(rows, k), q)
      ensures Find(ds, q).Some? && (k == ds[at].key || Newer(rows[ds[at].key], rows[k]))
    {
      var i :| 0 <= i < |ds| && ds[i].key == k;
      assert ds[i] == DecisionAt(rows, k);
    }
  }

  lemma SameAnswerSameOrder(ds: seq<Decision>, rows: map<Key, Row>, i: nat, j: nat)
    requires SameDecisions(ds, rows) && i < j < |ds| && ds[i].key.SameField(ds[j].key)
    requires FindsAgree(ds, rows)
    ensures Newer(rows[ds[j].key], rows[ds[i].key])
  {
    var q := Query(ds[j].key.offering, ds[j].key.field, [], [ds[i].key.result, ds[j].key.result]);
    assert Matches(ds[i], q) && Matches(ds[j], q);
    var at := FindIsLastMatch(ds, q);
    assert ds[at].key == ds[i].key || ds[at].key == ds[j].key;
    assert at == j;
    assert Answers(rows, q, Some(ds[j]));
    assert Matches(DecisionAt(rows, ds[i].key), q);
  }

  /** The memories agree on every find exactly when they order each field's decisions
      alike. */
  lemma FindsAgreeIff(ds: seq<Decision>, rows: map<Key, Row>)
    requires SameDecisions(ds, rows)
    ensures FindsAgree(ds, rows) <==> SameOrder(ds, rows)
  {
    if SameOrder(ds, rows) {
      forall q ensures Answers(rows, q, Find(ds, q)) {
        SameOrderSameAnswer(ds, rows, q);
      }
    }
    if FindsAgree(ds, rows) {
      forall i, j | 0 <= i < j < |ds| && ds[i].key.SameField(ds[j].key)
        ensures Newer(rows[ds[j].key], rows[ds[i].key])
      {
        SameAnswerSameOrder(ds, rows, i, j);
      }
    }
  }

  // ---- what was remembered last is found ----------------------------------

  /** The list answers a query on a field with what was remembered last, when the query
      lists its result or its prompt. */
  lemma RememberedIsFound(ds: seq<Decision>, d: Decision, q: Query)
    requires q.offering == d.key.offering && q.field == d.key.field
    requires d.key.result in q.results || (d.prompt.Some? && d.prompt.value in q.prompts)
    ensures Find(Remembered(ds, d), q) == Some(d)
  {
  }

  /** The table does so exactly when no other row that the query lists is at least as new. */
  lemma RememberedIsAnsweredIff(t: Table, d: Decision, now: Time, q: Query)
    requires IdsOk(t) && q.offering == d.key.offering && q.field == d.key.field
    requires d.key.result in q.results || (d.prompt.Some? && d.prompt.value in q.prompts)
    ensures Answers(Upserted(t, d, now).rows, q, Some(d)) <==>
            forall k ::
              (k in t.rows && k != d.key && k.offering == q.offering && k.field == q.field
               && (k.result in q.results || (t.rows[k].prompt.Some? && t.rows[k].prompt.value in q.prompts)))
              ==> t.rows[k].createdAt < now
                  || (t.rows[k].createdAt == now && (d.key in t.rows ==> t.rows[k].id < t.rows[d.key].id))
  {
    var rows := Upserted(t, d, now).rows;
    assert rows[d.key].prompt == d.prompt && rows[d.key].answer == d.answer;
    forall k | k in t.rows && k != d.key ensures rows[k] == t.rows[k] && DecisionAt(rows, k) == DecisionAt(t.rows, k) {
    }
    if Answers(rows, q, Some(d)) {
      forall k | (k in t.rows && k != d.key && k.offering == q.offering && k.field == q.field
                  && (k.result in q.results || (t.rows[k].prompt.Some? && t.rows[k].prompt.value in q.prompts)))
        ensures Newer(rows[d.key], t.rows[k])
      {
        assert Matches(DecisionAt(rows, k), q);
      }
    }
  }

  /** The list and the table hold nothing for a query exactly when no decision of its field
      has a listed result or a listed prompt. */
  lemma NothingFoundIff(ds: seq<Decision>, q: Query)
    ensures Find(ds, q).None? <==>
            forall i :: 0 <= i < |ds| && ds[i].key.offering == q.offering && ds[i].key.field == q.field ==>
              ds[i].key.result !in q.results && (ds[i].prompt.None? || ds[i].prompt.value !in q.prompts)
  {
    var at := FindIsLastMatch(ds, q);
    if Find(ds, q).None? {
      forall i | 0 <= i < |ds| ensures !Matches(ds[i], q) {
      }
    }
  }

  lemma NothingAnsweredIff(rows: map<Key, Row>, q: Query)
    ensures Answers(rows, q, None) <==>
            forall k :: k in rows && k.offering == q.offering && k.field == q.field ==>
              k.result !in q.results && (rows[k].prompt.None? || rows[k].prompt.value !in q.prompts)
  {
    if Answers(rows, q, None) {
      forall k | k in rows ensures !Matches(DecisionAt(rows, k), q) {
      }
    }
  }

  // ---- remembering keeps the two alike ------------------------------------

  /** Another decision on the field is at least as new as the one about to be stored: it
      has a later time, or the same time and a later id. */
  ghost predicate Overtaken(rows: map<Key, Row>, key: Key, now: Time) {
    exists k :: k in rows && k != key && k.SameField(key)
      && (rows[k].createdAt > now || (rows[k].createdAt == now && key in rows && rows[k].id > rows[key].id))
  }

  /** Dropping a key keeps every other decision, in its order. */
  lemma {:induction false} WithoutKeeps(ds: seq<Decision>, key: Key) returns (from: seq<nat>)
    ensures Selected(ds, Without(ds, key), from)
    ensures forall i :: 0 <= i < |from| ==> Without(ds, key)[i].key != key
    ensures forall n :: 0 <= n < |ds| && ds[n].key != key ==> n in from
  {
    if ds == [] {
      from := [];
    } else {
      var shorter := ds[..|ds| - 1];
      from := WithoutKeeps(shorter, key);
      if ds[|ds| - 1].key != key {
        from := from + [|ds| - 1];
      }
      forall n | 0 <= n < |ds| && ds[n].key != key ensures n in from {
        if n < |ds| - 1 {
          assert shorter[n].key != key;
        } else {
          assert from[|from| - 1] == n;
        }
      }
    }
  }

  lemma WithoutKeepsDecisions(ds: seq<Decision>, rows: map<Key, Row>, key: Key)
    requires SameDecisions(ds, rows)
    ensures SameDecisions(Without(ds, key), rows - {key})
    ensures SameOrder(ds, rows) ==> SameOrder(Without(ds, key), rows - {key})
  {
    var from := WithoutKeeps(ds, key);
    SelectedDecisions(ds, rows, Without(ds, key), rows - {key}, from);
    if SameOrder(ds, rows) {
      SelectedOrder(ds, rows, Without(ds, key), rows - {key}, from);
    }
  }

  /** `kept` is the part of `ds` at the positions `from`. */
  ghost predicate Selected(ds: seq<Decision>, kept: seq<Decision>, from: seq<nat>) {
    && |from| == |kept|
    && (forall i :: 0 <= i < |kept| ==> from[i] < |ds| && kept[i] == ds[from[i]])
    && forall i, j :: 0 <= i < j < |kept| ==> from[i] < from[j]
  }

  lemma SelectedDecisions(ds: seq<Decision>, rows: map<Key, Row>,
                                             kept: seq<Decision>, others: map<Key, Row>, from: seq<nat>)
    requires SameDecisions(ds, rows) && Selected(ds, kept, from)
    requires forall k :: k in others ==> k in rows && others[k] == rows[k]
    requires forall i :: 0 <= i < |kept| ==> kept[i].key in others
    requires forall n :: 0 <= n < |ds| && ds[n].key in others ==> n in from
    ensures SameDecisions(kept, others)
  {
    forall k | k in others ensures exists i :: 0 <= i < |kept| && kept[i].key == k {
      var n :| 0 <= n < |ds| && ds[n].key == k;
      var i :| 0 <= i < |from| && from[i] == n;
      assert kept[i].key == k;
    }
    forall i | 0 <= i < |kept| ensures kept[i] == DecisionAt(others, kept[i].key) {
      assert ds[from[i]] == DecisionAt(rows, ds[from[i]].key);
    }
    forall i, j | 0 <= i < j < |kept| ensures kept[i].key != kept[j].key {
      assert ds[from[i]].key != ds[from[j]].key;
    }
  }

  lemma SelectedOrder(ds: seq<Decision>, rows: map<Key, Row>,
                                         kept: seq<Decision>, others: map<Key, Row>, from: seq<nat>)
    requires SameDecisions(ds, rows) && SameOrder(ds, rows) && Selected(ds, kept, from) && SameDecisions(kept, others)
    requires forall k :: k in others ==> k in rows && others[k] == rows[k]
    ensures SameOrder(kept, others)
  {
    forall i, j | 0 <= i < j < |kept| && kept[i].key.SameField(kept[j].key)
      ensures Newer(others[kept[j].key], others[kept[i].key])
    {
      assert from[i] < from[j] && kept[i] == ds[from[i]] && kept[j] == ds[from[j]];
    }
  }

  lemma AddKeepsDecisions(ds: seq<Decision>, rows: map<Key, Row>, d: Decision, row: Row)
    requires SameDecisions(ds, rows) && d.key !in rows && row.prompt == d.prompt && row.answer == d.answer
    ensures SameDecisions(ds + [d], rows[d.key := row])
  {
    var after := ds + [d];
    assert after[|ds|] == d;
    forall k | k in rows ensures exists i :: 0 <= i < |after| && after[i].key == k {
      var i :| 0 <= i < |ds| && ds[i].key == k;
      assert after[i] == ds[i];
    }
  }

  /** Appending keeps the order exactly when the new row is the newest of its field. */
  lemma AddOrdersIff(ds: seq<Decision>, rows: map<Key, Row>, d: Decision, row: Row)
    requires SameDecisions(ds, rows) && SameOrder(ds, rows) && d.key !in rows
    requires SameDecisions(ds + [d], rows[d.key := row])
    ensures SameOrder(ds + [d], rows[d.key := row]) <==> forall k :: k in rows && k.SameField(d.key) ==>
            Newer(row, rows[k])
  {
    var after, rows' := ds + [d], rows[d.key := row];
    if SameOrder(after, rows') {
      forall k | k in rows && k.SameField(d.key) ensures Newer(row, rows[k]) {
        var i :| 0 <= i < |ds| && ds[i].key == k;
        assert after[i] == ds[i] && after[|ds|] == d;
      }
    }
    if forall k :: k in rows && k.SameField(d.key) ==> Newer(row, rows[k]) {
      forall i, j | 0 <= i < j < |after| && after[i].key.SameField(after[j].key)
        ensures Newer(rows'[after[j].key], rows'[after[i].key])
      {
        assert after[i] == ds[i] && ds[i].key in rows;
        assert j < |ds| ==> after[j] == ds[j];
      }
    }
  }

  lemma RememberKeepsIds(t: Table, d: Decision, now: Time)
    requires IdsOk(t)
    ensures IdsOk(Upserted(t, d, now))
  {
  }

  /** In the table the new decision comes first for its field, unless it is overtaken. */
  lemma NewestIff(t: Table, d: Decision, now: Time)
    requires IdsOk(t)
    ensures var row := Upserted(t, d, now).rows[d.key];
            (forall k :: k in t.rows - {d.key} && k.SameField(d.key) ==> Newer(row, (t.rows - {d.key})[k]))
            <==> !Overtaken(t.rows, d.key, now)
  {
    var row, others := Upserted(t, d, now).rows[d.key], t.rows - {d.key};
    if Overtaken(t.rows, d.key, now) {
      var k :| k in t.rows && k != d.key && k.SameField(d.key)
        && (t.rows[k].createdAt > now
            || (t.rows[k].createdAt == now && d.key in t.rows && t.rows[k].id > t.rows[d.key].id));
      assert k in others && !Newer(row, others[k]);
    } else {
      forall k | k in others && k.SameField(d.key) ensures Newer(row, others[k]) {
        assert t.rows[k].createdAt <= now;
        assert !(d.key in t.rows && t.rows[k].createdAt == now && t.rows[k].id > t.rows[d.key].id);
        assert d.key in t.rows ==> t.rows[k].id != t.rows[d.key].id;
      }
    }
  }

  lemma RememberKeepsDecisions(ds: seq<Decision>, t: Table, d: Decision, now: Time)
    requires SameDecisions(ds, t.rows)
    ensures SameDecisions(Remembered(ds, d), Upserted(t, d, now).rows)
  {
    var kept, others, row := Without(ds, d.key), t.rows - {d.key}, Upserted(t, d, now).rows[d.key];
    assert others[d.key := row] == Upserted(t, d, now).rows;
    WithoutKeepsDecisions(ds, t.rows, d.key);
    AddKeepsDecisions(kept, others, d, row);
  }

  lemma RememberOrdersIff(ds: seq<Decision>, t: Table, d: Decision, now: Time)
    requires SameDecisions(ds, t.rows) && SameOrder(ds, t.rows) && IdsOk(t)
    ensures SameDecisions(Remembered(ds, d), Upserted(t, d, now).rows)
    ensures SameOrder(Remembered(ds, d), Upserted(t, d, now).rows) <==> !Overtaken(t.rows, d.key, now)
  {
    var kept, others, row := Without(ds, d.key), t.rows - {d.key}, Upserted(t, d, now).rows[d.key];
    assert others[d.key := row] == Upserted(t, d, now).rows;
    WithoutKeepsDecisions(ds, t.rows, d.key);
    AddKeepsDecisions(kept, others, d, row);
    AddOrdersIff(kept, others, d, row);
    NewestIff(t, d, now);
  }

  /** Remembering keeps the memories in agreement on every find exactly when the decision is
      not overtaken, whatever the clock does. */
  lemma RememberAgreesIff(ds: seq<Decision>, t: Table, d: Decision, now: Time)
    requires SameDecisions(ds, t.rows) && FindsAgree(ds, t.rows) && IdsOk(t)
    ensures FindsAgree(Remembered(ds, d), Upserted(t, d, now).rows) <==> !Overtaken(t.rows, d.key, now)
  {
    FindsAgreeIff(ds, t.rows);
    RememberOrdersIff(ds, t, d, now);
    FindsAgreeIff(Remembered(ds, d), Upserted(t, d, now).rows);
  }

  // ---- over whole histories -----------------------------------------------

  datatype Remembering = Remembering(decision: Decision, now: Time)

  function ListAfter(h: seq<Remembering>): seq<Decision> {
    if h == [] then [] else Remembered(ListAfter(h[..|h| - 1]), h[|h| - 1].decision)
  }

  function TableAfter(h: seq<Remembering>): Table {
    if h == [] then Table(map[], 0) else Upserted(TableAfter(h[..|h| - 1]), h[|h| - 1].decision, h[|h| - 1].now)
  }

  predicate StrictlyIncreasing(h: seq<Remembering>) {
    forall i, j :: 0 <= i < j < |h| ==> h[i].now < h[j].now
  }

  ghost predicate NeverOvertaken(h: seq<Remembering>) {
    forall i :: 0 <= i < |h| ==> !Overtaken(TableAfter(h[..i]).rows, h[i].decision.key, h[i].now)
  }

  ghost predicate AgreesAfter(h: seq<Remembering>) {
    FindsAgree(ListAfter(h), TableAfter(h).rows)
  }

  ghost predicate StampedBy(rows: map<Key, Row>, h: seq<Remembering>) {
    forall k :: k in rows ==> exists i :: 0 <= i < |h| && rows[k].createdAt == h[i].now
  }

  lemma {:induction false} HistoryHolds(h: seq<Remembering>)
    ensures SameDecisions(ListAfter(h), TableAfter(h).rows) && IdsOk(TableAfter(h))
    ensures StampedBy(TableAfter(h).rows, h)
  {
    if h != [] {
      var before, last := h[..|h| - 1], h[|h| - 1];
      HistoryHolds(before);
      RememberKeepsDecisions(ListAfter(before), TableAfter(before), last.decision, last.now);
      RememberKeepsIds(TableAfter(before), last.decision, last.now);
      StampsGrow(TableAfter(before), h);
    }
  }

  lemma StepAgrees(h: seq<Remembering>, i: nat)
    requires i < |h| && AgreesAfter(h[..i])
    ensures AgreesAfter(h[..i + 1]) <==> !Overtaken(TableAfter(h[..i]).rows, h[i].decision.key, h[i].now)
  {
    HistoryHolds(h[..i]);
    assert h[..i + 1][..i] == h[..i];
    RememberAgreesIff(ListAfter(h[..i]), TableAfter(h[..i]), h[i].decision, h[i].now);
  }

  lemma {:induction false} AgreesThrough(h: seq<Remembering>, n: nat)
    requires n <= |h| && NeverOvertaken(h)
    ensures AgreesAfter(h[..n])
  {
    if n == 0 {
      FindsAgreeIff([], map[]);
    } else {
      AgreesThrough(h, n - 1);
      StepAgrees(h, n - 1);
    }
  }

  /** Whatever the clock does, the two memories agree on every find all along exactly when
      no decision is overtaken. */
  lemma {:induction false} MemoriesAgreeIff(h: seq<Remembering>)
    ensures (forall n :: 0 <= n <= |h| ==> AgreesAfter(h[..n])) <==> NeverOvertaken(h)
  {
    if NeverOvertaken(h) {
      forall n | 0 <= n <= |h| ensures AgreesAfter(h[..n]) {
        AgreesThrough(h, n);
      }
    }
    if forall n :: 0 <= n <= |h| ==> AgreesAfter(h[..n]) {
      forall i | 0 <= i < |h| ensures !Overtaken(TableAfter(h[..i]).rows, h[i].decision.key, h[i].now) {
        assert AgreesAfter(h[..i]) && AgreesAfter(h[..i + 1]);
        StepAgrees(h, i);
      }
    }
  }

  lemma StrictIsNeverOvertaken(h: seq<Remembering>)
    requires StrictlyIncreasing(h)
    ensures NeverOvertaken(h)
  {
    forall i | 0 <= i < |h| ensures !Overtaken(TableAfter(h[..i]).rows, h[i].decision.key, h[i].now) {
      var rows := TableAfter(h[..i]).rows;
      HistoryHolds(h[..i]);
      forall k | k in rows ensures rows[k].createdAt < h[i].now {
        var j :| 0 <= j < i && rows[k].createdAt == h[..i][j].now;
        assert h[j].now < h[i].now;
      }
    }
  }

  lemma StampsGrow(t: Table, h: seq<Remembering>)
    requires h != [] && StampedBy(t.rows, h[..|h| - 1])
    ensures StampedBy(Upserted(t, h[|h| - 1].decision, h[|h| - 1].now).rows, h)
  {
    var before, last := h[..|h| - 1], h[|h| - 1];
    var rows := Upserted(t, last.decision, last.now).rows;
    forall k | k in rows ensures exists i :: 0 <= i < |h| && rows[k].createdAt == h[i].now {
      if k == last.decision.key {
        assert rows[k].createdAt == h[|h| - 1].now;
      } else {
        var i :| 0 <= i < |before| && t.rows[k].createdAt == before[i].now;
        assert h[i].now == before[i].now;
      }
    }
  }

  /** For every sequence of remembered decisions under a strictly increasing clock, the
      table's answer to every query is the list's. */
  lemma MemoriesAgree(h: seq<Remembering>, q: Query, r: Option<Decision>)
    requires StrictlyIncreasing(h)
    ensures Answers(TableAfter(h).rows, q, r) <==> r == Find(ListAfter(h), q)
  {
    StrictIsNeverOvertaken(h);
    AgreesThrough(h, |h|);
    assert h[..|h|] == h;
    assert Answers(TableAfter(h).rows, q, Find(ListAfter(h), q));
    if Answers(TableAfter(h).rows, q, r) {
      OneAnswer(TableAfter(h).rows, q, r, Find(ListAfter(h), q));
    }
  }

  lemma TableAfterTwo(a: Decision, b: Decision, earlier: Time, now: Time)
    requires a.key != b.key
    ensures TableAfter([Remembering(a, earlier), Remembering(b, now)]).rows
            == map[a.key := Row(0, a.prompt, a.answer, earlier), b.key := Row(1, b.prompt, b.answer, now)]
  {
    var h1, h2 := [Remembering(a, earlier)], [Remembering(a, earlier), Remembering(b, now)];
    assert h2[..1] == h1 && h1[..0] == [];
    assert TableAfter(h1) == Table(map[a.key := Row(0, a.prompt, a.answer, earlier)], 1);
  }

  lemma TwoAgree(a: Decision, b: Decision, earlier: Time, now: Time)
    requires earlier < now
    ensures var h := [Remembering(a, earlier), Remembering(b, now)];
            && SameDecisions(ListAfter(h), TableAfter(h).rows) && IdsOk(TableAfter(h))
            && FindsAgree(ListAfter(h), TableAfter(h).rows)
  {
    var h := [Remembering(a, earlier), Remembering(b, now)];
    HistoryHolds(h);
    StrictIsNeverOvertaken(h);
    AgreesThrough(h, 2);
    assert h[..2] == h;
  }

  /** A clock that stands still is not enough: for any two decisions on one field, giving
      the first again in the instant in which the second was stored makes it the latest in
      the list and not in the table. */
  lemma TieDisagrees(a: Decision, b: Decision, earlier: Time, now: Time) returns (q: Query)
    requires a.key != b.key && b.key.SameField(a.key) && earlier < now
    ensures var h := [Remembering(a, earlier), Remembering(b, now), Remembering(a, now)];
            !Answers(TableAfter(h).rows, q, Find(ListAfter(h), q))
  {
    var h2 := [Remembering(a, earlier), Remembering(b, now)];
    var h := h2 + [Remembering(a, now)];
    assert h[..2] == h2 && h == [Remembering(a, earlier), Remembering(b, now), Remembering(a, now)];
    TwoAgree(a, b, earlier, now);
    TableAfterTwo(a, b, earlier, now);
    var ds, t := ListAfter(h2), TableAfter(h2);
    assert t.rows[b.key].createdAt == now && Overtaken(t.rows, a.key, now);
    RememberAgreesIff(ds, t, a, now);
    assert TableAfter(h) == Upserted(t, a, now) && ListAfter(h) == Remembered(ds, a);
    q :| !Answers(TableAfter(h).rows, q, Find(ListAfter(h), q));
  }
}
