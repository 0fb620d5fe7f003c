/**
  A bulk update: the rows a statement selects are changed one by one, each from its
  value before the statement.
 */
module Tables {
  method UpdateWhere<K, V>(rows: map<K, V>, which: set<K>, change: V -> V) returns (r: map<K, V>)
    requires which <= rows.Keys
    ensures r.Keys == rows.Keys
    ensures forall k :: k in rows ==> r[k] == if k in which then change(rows[k]) else rows[k]
  {
    r := rows;
    var rest := which;
    while rest != {}
      invariant rest <= which && r.Keys == rows.Keys
      invariant forall k :: k in rows ==> r[k] == if k in which && k !in rest then change(rows[k]) else rows[k]
      decreases |rest|
    {
      var k :| k in rest;
      r := r[k := change(r[k])];
      rest := rest - {k};
    }
  }
}
