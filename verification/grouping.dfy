/** The grouping loop of create_partitions: rows (toid, divide_id) are
    folded into an insertion-ordered mapping from each toid to the list of
    its divide ids, exactly as `defaultdict(list)` followed by `items()`. */
module Grouping {

  /** One item of the mapping: a key and the values appended under it. */
  datatype Group<K, V> = Group(key: K, members: seq<V>)

  predicate Distinct<T(==)>(s: seq<T>) {
    forall i, j :: 0 <= i < j < |s| ==> s[i] != s[j]
  }

  function Elems<T>(s: seq<T>): set<T> {
    set x | x in s
  }

  /** The keys of an item sequence, in order. */
  function Keys<K, V>(gs: seq<Group<K, V>>): seq<K> {
    seq(|gs|, i requires 0 <= i < |gs| => gs[i].key)
  }

  /** All values of an item sequence: item order first, then the order
      within each item. */
  function Flatten<K, V>(gs: seq<Group<K, V>>): seq<V> {
    if |gs| == 0 then [] else gs[0].members + Flatten(gs[1..])
  }

  function RowKeys<K, V>(rows: seq<(K, V)>): seq<K> {
    seq(|rows|, i requires 0 <= i < |rows| => rows[i].0)
  }

  function RowValues<K, V>(rows: seq<(K, V)>): seq<V> {
    seq(|rows|, i requires 0 <= i < |rows| => rows[i].1)
  }

  /** Reference definition: the values of the rows whose key is k, in row
      order. */
  function ValuesOf<K(==), V>(rows: seq<(K, V)>, k: K): seq<V> {
    if |rows| == 0 then []
    else
      var last := rows[|rows| - 1];
      ValuesOf(rows[..|rows| - 1], k) + (if last.0 == k then [last.1] else [])
  }

  /** The position where k first occurs in ks. */
  function FirstIndex<T(==)>(ks: seq<T>, k: T): (i: nat)
    requires k in ks
    ensures i < |ks| && ks[i] == k
    ensures k !in ks[..i]
  {
    if ks[0] == k then 0
    else
      var j := FirstIndex(ks[1..], k);
      assert ks[..j + 1] == [ks[0]] + ks[1..][..j];
      j + 1
  }

  /** `nexus[k].append(v)` on an insertion-ordered mapping: an existing key
      keeps its place and gains v at the end of its list, a new key is
      placed last with the list [v]. */
  function Add<K(==), V>(gs: seq<Group<K, V>>, k: K, v: V): (r: seq<Group<K, V>>)
    requires Distinct(Keys(gs))
    ensures Distinct(Keys(r))
    ensures k in Keys(gs) ==> Keys(r) == Keys(gs)
    ensures k !in Keys(gs) ==> Keys(r) == Keys(gs) + [k]
    ensures forall i :: 0 <= i < |r| && r[i].key != k ==> i < |gs| && r[i] == gs[i]
    ensures forall i :: 0 <= i < |r| && r[i].key == k ==>
      r[i].members == (if i < |gs| then gs[i].members else []) + [v]
  {
    var ks := Keys(gs);
    assert forall j :: 0 <= j < |gs| ==> ks[j] == gs[j].key;
    if k in ks then
      var i := FirstIndex(ks, k);
      var r := gs[i := Group(k, gs[i].members + [v])];
      assert Keys(r) == ks;
      r
    else
      var r := gs + [Group(k, [v])];
      assert Keys(r) == ks + [k];
      r
  }

  /** The grouping loop over the query result (lines 16-18 and the
      `items()` of line 23). */
  function GroupBy<K(==), V>(rows: seq<(K, V)>): (gs: seq<Group<K, V>>)
    ensures Distinct(Keys(gs))
    ensures Elems(Keys(gs)) == Elems(RowKeys(rows))
    ensures |gs| <= |rows|
    ensures |gs| == 0 <==> |rows| == 0
  {
    if |rows| == 0 then []
    else
      var init := rows[..|rows| - 1];
      var last := rows[|rows| - 1];
      var before := GroupBy(init);
      var r := Add(before, last.0, last.1);
      assert RowKeys(rows) == RowKeys(init) + [last.0];
      assert Elems(RowKeys(rows)) == Elems(RowKeys(init)) + {last.0};
      assert Elems(Keys(r)) == Elems(Keys(before)) + {last.0} by {
        if last.0 !in Keys(before) {
          assert Keys(r) == Keys(before) + [last.0];
        }
      }
      r
  }

  lemma {:induction false} FlattenAppend<K, V>(a: seq<Group<K, V>>, b: seq<Group<K, V>>)
    ensures Flatten(a + b) == Flatten(a) + Flatten(b)
  {
    if |a| == 0 {
      assert a + b == b;
    } else {
      assert (a + b)[1..] == a[1..] + b;
      FlattenAppend(a[1..], b);
    }
  }

  lemma FirstIndexUnique<T>(ks: seq<T>, k: T, i: nat)
    requires i < |ks| && ks[i] == k && k !in ks[..i]
    ensures FirstIndex(ks, k) == i
  {
  }

  /** Appending a row does not move the first occurrence of a key already
      seen, and places a new key's first occurrence at the end. */
  lemma FirstIndexAppend<T>(ks: seq<T>, x: T, k: T)
    requires k in ks + [x]
    ensures k in ks ==> FirstIndex(ks + [x], k) == FirstIndex(ks, k)
    ensures k !in ks ==> FirstIndex(ks + [x], k) == |ks|
  {
    if k in ks {
      var i := FirstIndex(ks, k);
      assert (ks + [x])[..i] == ks[..i];
      FirstIndexUnique(ks + [x], k, i);
    } else {
      assert (ks + [x])[..|ks|] == ks;
      FirstIndexUnique(ks + [x], k, |ks|);
    }
  }

  lemma {:induction false} ValuesOfAbsent<K, V>(rows: seq<(K, V)>, k: K)
    requires k !in RowKeys(rows)
    ensures ValuesOf(rows, k) == []
  {
    if |rows| > 0 {
      var init := rows[..|rows| - 1];
      assert RowKeys(rows) == RowKeys(init) + [rows[|rows| - 1].0];
      ValuesOfAbsent(init, k);
    }
  }

  /** Each item holds exactly the values of the rows with its key, in row
      order: nothing is lost, reordered or misfiled. */
  lemma {:induction false} GroupByMembers<K, V>(rows: seq<(K, V)>)
    ensures forall i :: 0 <= i < |GroupBy(rows)| ==>
      GroupBy(rows)[i].members == ValuesOf(rows, GroupBy(rows)[i].key)
  {
    if |rows| > 0 {
      var init := rows[..|rows| - 1];
      var last := rows[|rows| - 1];
      var before := GroupBy(init);
      var r := GroupBy(rows);
      assert r == Add(before, last.0, last.1);
      GroupByMembers(init);
      forall i | 0 <= i < |r|
        ensures r[i].members == ValuesOf(rows, r[i].key)
      {
        if r[i].key == last.0 && i >= |before| {
          assert last.0 !in Keys(before);
          assert last.0 !in RowKeys(init) by {
            assert last.0 !in Elems(Keys(before));
          }
          ValuesOfAbsent(init, last.0);
        }
      }
    }
  }

  /** Keys come out in the order of their first occurrence in the rows. */
  lemma {:induction false} GroupByFirstSeenOrder<K, V>(rows: seq<(K, V)>)
    ensures forall i, j :: 0 <= i < j < |GroupBy(rows)| ==>
      GroupBy(rows)[i].key in RowKeys(rows) && GroupBy(rows)[j].key in RowKeys(rows) &&
      FirstIndex(RowKeys(rows), GroupBy(rows)[i].key) < FirstIndex(RowKeys(rows), GroupBy(rows)[j].key)
  {
    var r := GroupBy(rows);
    forall i | 0 <= i < |r|
      ensures r[i].key in RowKeys(rows)
    {
      assert Keys(r)[i] == r[i].key;
      assert r[i].key in Elems(Keys(r));
    }
    if |rows| > 0 {
      var init := rows[..|rows| - 1];
      var last := rows[|rows| - 1];
      var before := GroupBy(init);
      assert r == Add(before, last.0, last.1);
      assert RowKeys(rows) == RowKeys(init) + [last.0];
      GroupByFirstSeenOrder(init);
      forall i | 0 <= i < |before|
        ensures before[i].key in RowKeys(init)
        ensures r[i].key == before[i].key
        ensures FirstIndex(RowKeys(rows), r[i].key) == FirstIndex(RowKeys(init), before[i].key)
      {
        assert Keys(r)[i] == Keys(before)[i];
        assert before[i].key in Elems(Keys(before));
        FirstIndexAppend(RowKeys(init), last.0, before[i].key);
      }
      if last.0 !in Keys(before) {
        assert last.0 !in RowKeys(init) by {
          assert last.0 !in Elems(Keys(before));
        }
        assert Keys(r)[|before|] == last.0;
        FirstIndexAppend(RowKeys(init), last.0, last.0);
      }
    }
  }

  lemma AddPreservesValues<K, V>(gs: seq<Group<K, V>>, k: K, v: V)
    requires Distinct(Keys(gs))
    ensures multiset(Flatten(Add(gs, k, v))) == multiset(Flatten(gs)) + multiset{v}
  {
    var r := Add(gs, k, v);
    if k in Keys(gs) {
      var i := FirstIndex(Keys(gs), k);
      var g := Group(k, gs[i].members + [v]);
      assert r == gs[..i] + [g] + gs[i + 1..];
      assert gs == gs[..i] + [gs[i]] + gs[i + 1..];
      FlattenAppend(gs[..i] + [g], gs[i + 1..]);
      FlattenAppend(gs[..i], [g]);
      FlattenAppend(gs[..i] + [gs[i]], gs[i + 1..]);
      FlattenAppend(gs[..i], [gs[i]]);
      assert Flatten([g]) == g.members;
      assert Flatten([gs[i]]) == gs[i].members;
    } else {
      FlattenAppend(gs, [Group(k, [v])]);
      assert Flatten([Group(k, [v])]) == [v];
    }
  }

  /** Every row contributes its divide id to exactly one item. */
  lemma {:induction false} GroupByPreservesValues<K, V>(rows: seq<(K, V)>)
    ensures multiset(Flatten(GroupBy(rows))) == multiset(RowValues(rows))
    ensures |Flatten(GroupBy(rows))| == |rows|
  {
    if |rows| > 0 {
      var init := rows[..|rows| - 1];
      var last := rows[|rows| - 1];
      var before := GroupBy(init);
      assert GroupBy(rows) == Add(before, last.0, last.1);
      GroupByPreservesValues(init);
      AddPreservesValues(before, last.0, last.1);
      assert RowValues(rows) == RowValues(init) + [last.1];
      assert multiset(RowValues(rows)) == multiset(RowValues(init)) + multiset{last.1};
    }
    assert |multiset(Flatten(GroupBy(rows)))| == |Flatten(GroupBy(rows))|;
    assert |multiset(RowValues(rows))| == |rows|;
  }

  lemma {:induction false} DistinctElemsCount<T>(s: seq<T>)
    requires Distinct(s)
    ensures |Elems(s)| == |s|
  {
    if |s| > 0 {
      var init := s[..|s| - 1];
      assert Elems(s) == Elems(init) + {s[|s| - 1]};
      assert s[|s| - 1] !in Elems(init);
      DistinctElemsCount(init);
    }
  }

  /** There is one item per distinct key in the rows. */
  lemma GroupCount<K, V>(rows: seq<(K, V)>)
    ensures |GroupBy(rows)| == |Elems(RowKeys(rows))|
  {
    DistinctElemsCount(Keys(GroupBy(rows)));
  }
}
