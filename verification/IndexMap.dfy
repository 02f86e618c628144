/** Insertion-ordered maps, as the sequence of their entries. */
module IndexMap {
  import opened Wrappers

  type Entries<V> = seq<(string, V)>

  function Keys<V>(m: Entries<V>): set<string> {
    set i | 0 <= i < |m| :: m[i].0
  }

  lemma KeysCons<V>(head: (string, V), rest: Entries<V>)
    ensures Keys([head] + rest) == {head.0} + Keys(rest)
  {
    var all := [head] + rest;
    assert all[0] == head;
    assert forall i | 0 <= i < |rest| :: rest[i] == all[i + 1];
    assert forall i | 1 <= i < |all| :: all[i] == rest[i - 1];
  }

  ghost predicate Distinct<V>(m: Entries<V>) {
    forall i, j | 0 <= i < j < |m| :: m[i].0 != m[j].0
  }

  /** The value of the first entry with the key; the only one when keys are distinct. */
  function Find<V>(m: Entries<V>, key: string): (r: Option<V>)
    ensures r.Some? <==> key in Keys(m)
    ensures r.Some? ==> (key, r.value) in m
  {
    if m == [] then None
    else if m[0].0 == key then
      assert (key, m[0].1) == m[0];
      Some(m[0].1)
    else
      assert m == [m[0]] + m[1..];
      KeysCons(m[0], m[1..]);
      Find(m[1..], key)
  }

  /** `IndexMap::insert`: replaces the value in place, or appends a new entry. */
  function Insert<V>(m: Entries<V>, key: string, value: V): (r: Entries<V>)
    ensures Keys(r) == Keys(m) + {key}
    ensures key !in Keys(m) ==> r == m + [(key, value)]
  {
    if m == [] then
      KeysCons((key, value), []);
      assert [(key, value)] + [] == [(key, value)];
      [(key, value)]
    else if m[0].0 == key then
      assert m == [m[0]] + m[1..];
      KeysCons(m[0], m[1..]);
      KeysCons((key, value), m[1..]);
      [(key, value)] + m[1..]
    else
      var rest := Insert(m[1..], key, value);
      assert m == [m[0]] + m[1..];
      KeysCons(m[0], m[1..]);
      KeysCons(m[0], rest);
      [m[0]] + rest
  }

  /** `collect::<IndexMap<_, _>>` (and a loop of inserts): entries in order, later values replacing earlier ones. */
  function InsertAll<V>(m: Entries<V>, more: Entries<V>): (r: Entries<V>)
    decreases |more|
  {
    if more == [] then m else InsertAll(Insert(m, more[0].0, more[0].1), more[1..])
  }

  lemma FindDistinct<V>(m: Entries<V>, i: nat)
    requires Distinct(m) && i < |m|
    ensures Find(m, m[i].0) == Some(m[i].1)
  {
    if i > 0 {
      FindDistinct(m[1..], i - 1);
    }
  }

  lemma KeysAppend<V>(a: Entries<V>, b: Entries<V>)
    ensures Keys(a + b) == Keys(a) + Keys(b)
  {
    forall k | k in Keys(a) + Keys(b) ensures k in Keys(a + b) {
      if k in Keys(a) {
        var i :| 0 <= i < |a| && a[i].0 == k;
        assert (a + b)[i].0 == k;
      } else {
        var i :| 0 <= i < |b| && b[i].0 == k;
        assert (a + b)[|a| + i].0 == k;
      }
    }
  }

  /** Nothing is lost or moved when the keys are new and distinct. */
  lemma {:induction false} InsertAllOfNew<V>(m: Entries<V>, more: Entries<V>)
    requires Distinct(more)
    requires forall i, j | 0 <= i < |m| && 0 <= j < |more| :: m[i].0 != more[j].0
    ensures InsertAll(m, more) == m + more
    decreases |more|
  {
    if more == [] {
      assert m + more == m;
    } else {
      var (key, value) := more[0];
      assert key !in Keys(m);
      var grown := Insert(m, key, value);
      assert grown == m + [(key, value)];
      assert grown + more[1..] == m + more;
      InsertAllOfNew(grown, more[1..]);
    }
  }
}
