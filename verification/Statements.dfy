/** SELECT, UPDATE and DELETE with a WHERE clause over a keyed table, row by row. */
module Statements {
  import opened Wrappers

  function Matching<K, V>(rows: map<K, V>, where: V -> bool): set<K> { set k | k in rows && where(rows[k]) }

  /** A matching row that no matching row among `seen` comes before. */
  ghost predicate IsFirst<K(!new), V>(rows: map<K, V>, where: V -> bool, order: V -> int, seen: set<K>, k: K) {
    k in rows && k in seen && where(rows[k]) &&
    forall l :: l in rows && l in seen && where(rows[l]) ==> order(rows[k]) <= order(rows[l])
  }

  ghost predicate NoneMatches<K(!new), V>(rows: map<K, V>, where: V -> bool, seen: set<K>) {
    forall l :: l in rows && l in seen ==> !where(rows[l])
  }

  /** `WHERE … ORDER BY … LIMIT 1`: a first matching row, or nothing when none matches. */
  method SelectFirst<K(==, !new), V>(rows: map<K, V>, where: V -> bool, order: V -> int) returns (first: Option<K>)
    ensures first.None? ==> NoneMatches(rows, where, rows.Keys)
    ensures first.Some? ==> IsFirst(rows, where, order, rows.Keys, first.value)
  {
    first := None;
    var todo, seen := rows.Keys, {};
    while todo != {}
      invariant todo + seen == rows.Keys
      invariant first.None? ==> NoneMatches(rows, where, seen)
      invariant first.Some? ==> IsFirst(rows, where, order, seen, first.value)
      decreases |todo|
    {
      var k :| k in todo;
      if where(rows[k]) && (first.None? || order(rows[k]) < order(rows[first.value])) {
        first := Some(k);
      }
      todo, seen := todo - {k}, seen + {k};
    }
    assert seen == rows.Keys;
  }

  lemma OneLess<K>(found: set<K>, todo: set<K>, k: K)
    requires k in todo
    ensures |found - (todo - {k})| == |found - todo| + if k in found then 1 else 0
  {
    if k in found {
      assert found - (todo - {k}) == found - todo + {k};
    } else {
      assert found - (todo - {k}) == found - todo;
    }
  }

  /** What the UPDATE has done once only `todo` is left. */
  ghost predicate UpdatedBut<K(!new), V>(
    rows: map<K, V>, before: map<K, V>, where: V -> bool, change: V -> V, todo: set<K>)
  {
    rows.Keys == before.Keys &&
    forall k :: k in rows ==> rows[k] == if k !in todo && where(before[k]) then change(before[k]) else before[k]
  }

  lemma UpdateOne<K(!new), V>(
    rows: map<K, V>, before: map<K, V>, where: V -> bool, change: V -> V, todo: set<K>, k: K)
    requires UpdatedBut(rows, before, where, change, todo) && k in todo && k in rows
    ensures UpdatedBut(if where(rows[k]) then rows[k := change(rows[k])] else rows, before, where, change, todo - {k})
  {
  }

  /** The rows that match are changed, no others, and they are counted. */
  method UpdateWhere<K(==, !new), V>(before: map<K, V>, where: V -> bool, change: V -> V)
    returns (rows: map<K, V>, affected: nat)
    ensures rows.Keys == before.Keys
    ensures forall k :: k in rows ==> rows[k] == if where(before[k]) then change(before[k]) else before[k]
    ensures affected == |Matching(before, where)|
  {
    rows, affected := before, 0;
    var todo := rows.Keys;
    ghost var found := Matching(before, where);
    assert found - todo == {};
    while todo != {}
      invariant todo <= before.Keys && UpdatedBut(rows, before, where, change, todo)
      invariant affected == |found - todo|
      decreases |todo|
    {
      var k :| k in todo;
      OneLess(found, todo, k);
      UpdateOne(rows, before, where, change, todo, k);
      if where(rows[k]) {
        rows := rows[k := change(rows[k])];
        affected := affected + 1;
      }
      todo := todo - {k};
    }
    assert found - {} == found;
  }

  /** The rows that match are gone, the others unchanged, and they are counted. */
  method DeleteWhere<K(==, !new), V>(before: map<K, V>, where: V -> bool) returns (rows: map<K, V>, affected: nat)
    ensures forall k :: k in rows <==> k in before && !where(before[k])
    ensures forall k :: k in rows ==> rows[k] == before[k]
    ensures |rows| + affected == |before|
  {
    rows, affected := before, 0;
    var todo := rows.Keys;
    while todo != {}
      invariant todo <= rows.Keys <= before.Keys
      invariant forall k :: k in rows ==> rows[k] == before[k]
      invariant forall k :: k in before && k !in todo ==> (k in rows <==> !where(before[k]))
      invariant |rows.Keys| + affected == |before.Keys|
      decreases |todo|
    {
      var k :| k in todo;
      if where(rows[k]) {
        assert (rows - {k}).Keys == rows.Keys - {k};
        rows := rows - {k};
        affected := affected + 1;
      }
      todo := todo - {k};
    }
  }
}
