/** create_partitions of docker/partition_gen.py without its I/O: the rows
    of the `divides` table are grouped by toid, the requested partition
    count is clamped to the number of toids, and the ordered groups are cut
    into blocks of ceil(groups / count) groups, one partition each. */
module PartitionGen {
  import opened Numeric
  import opened Grouping
  import opened Chunking

  /** The exceptions lines 20-25 raise for degenerate counts. */
  datatype Failure =
    | ZeroDivision   // ceil(len(nexus) / 0) at line 21
    | ZeroRangeStep  // range(0, len, 0) at line 25

  datatype Result<T> = Ok(value: T) | Err(error: Failure)

  /** What lines 39-40 write: the count that names the file
      `partitions_<count>.json`, and the partition list. */
  datatype Output<K, V> = Output(fileCount: int, partitions: seq<Partition<K, V>>)

  /** The number of distinct toids among the rows. */
  function DistinctToids<K(==), V>(rows: seq<(K, V)>): nat {
    |Elems(RowKeys(rows))|
  }

  /** Lines 16-35 for the rows of the query and a requested count (a
      Python int, so zero and negative values are possible). The file is
      named after the request clamped to the number of distinct toids;
      whenever partitions are emitted, their `nex-ids` are the distinct
      toids in first-seen order and their `cat-ids` are the grouped divide
      ids. */
  function CreatePartitions<K(==), V>(rows: seq<(K, V)>, requested: int): (r: Result<Output<K, V>>)
    ensures r.Ok? ==> r.value.fileCount == Min(requested, DistinctToids(rows))
    ensures r.Ok? && r.value.partitions != [] ==>
      && NexIds(r.value.partitions) == Keys(GroupBy(rows))
      && CatIds(r.value.partitions) == Flatten(GroupBy(rows))
  {
    var groups := GroupBy(rows);
    GroupCount(rows);
    var count := Min(requested, |groups|);
    if count == 0 then Err(ZeroDivision)
    else
      var size := PyCeil(|groups|, count);
      if size == 0 then Err(ZeroRangeStep)
      // range(0, len, size) with a negative step and len >= 0 is empty
      else if size < 0 then Ok(Output(count, []))
      else Ok(Output(count, Chunk(groups, size)))
  }

  /** Which inputs fail, which produce an empty partition list, and which
      produce partitions; the file count is always the clamped count. */
  lemma CreatePartitionsOutcome<K, V>(rows: seq<(K, V)>, requested: int)
    ensures CreatePartitions(rows, requested) == Err(ZeroDivision) <==>
      requested == 0 || (|rows| == 0 && requested > 0)
    ensures CreatePartitions(rows, requested) == Err(ZeroRangeStep) <==>
      requested < 0 && DistinctToids(rows) < -requested
    ensures CreatePartitions(rows, requested).Ok? ==>
      CreatePartitions(rows, requested).value.fileCount == Min(requested, DistinctToids(rows))
    ensures (CreatePartitions(rows, requested).Ok? &&
             CreatePartitions(rows, requested).value.partitions != []) <==>
      requested >= 1 && |rows| >= 1
  {
    var g := |GroupBy(rows)|;
    GroupCount(rows);
    if requested < 0 {
      PyCeilNegative(g, requested);
    } else if requested >= 1 && g >= 1 {
      var count := Min(requested, g);
      var size := PyCeil(g, count);
      ClampedBlockCount(g, count);
      ChunkShape(GroupBy(rows), size);
    }
  }

  /** With a positive request and at least one row, the count is clamped
      to the number of distinct toids, and between 1 and that count
      partitions are emitted: ceil(groups / size) of them, for
      size = ceil(groups / count). */
  lemma PartitionCount<K, V>(rows: seq<(K, V)>, requested: int)
    requires requested >= 1 && |rows| >= 1
    ensures CreatePartitions(rows, requested).Ok?
    ensures CreatePartitions(rows, requested).value.fileCount == Min(requested, DistinctToids(rows))
    ensures 1 <= |CreatePartitions(rows, requested).value.partitions|
              <= CreatePartitions(rows, requested).value.fileCount
              <= DistinctToids(rows)
    ensures |CreatePartitions(rows, requested).value.partitions| ==
      CeilDiv(DistinctToids(rows), CeilDiv(DistinctToids(rows), Min(requested, DistinctToids(rows))))
  {
    GroupCount(rows);
    var g := |GroupBy(rows)|;
    ClampedBlockCount(g, Min(requested, g));
    ChunkShape(GroupBy(rows), CeilDiv(g, Min(requested, g)));
  }

  /** Partitions are numbered 0, 1, ... in emission order, carry no remote
      connections, and hold `size` toids each except the last, which holds
      between 1 and `size`. */
  lemma PartitionNumbering<K, V>(rows: seq<(K, V)>, requested: int)
    requires requested >= 1 && |rows| >= 1
    ensures CreatePartitions(rows, requested).Ok?
    ensures DistinctToids(rows) >= 1
    ensures var ps := CreatePartitions(rows, requested).value.partitions;
      var size := CeilDiv(DistinctToids(rows), Min(requested, DistinctToids(rows)));
      && (forall k :: 0 <= k < |ps| ==> ps[k].id == k && ps[k].remoteConnections == [])
      && (forall k :: 0 <= k < |ps| - 1 ==> |ps[k].nexIds| == size)
      && (|ps| > 0 ==> 1 <= |ps[|ps| - 1].nexIds| <= size)
  {
    GroupCount(rows);
    var g := |GroupBy(rows)|;
    ClampedBlockCount(g, Min(requested, g));
    ChunkShape(GroupBy(rows), CeilDiv(g, Min(requested, g)));
  }

  /** The `nex-ids`, concatenated in partition order, are the distinct
      toids in first-seen order; each toid sits in exactly one partition. */
  lemma PartitionsCoverToids<K, V>(rows: seq<(K, V)>, requested: int)
    requires requested >= 1 && |rows| >= 1
    ensures CreatePartitions(rows, requested).Ok?
    ensures var ps := CreatePartitions(rows, requested).value.partitions;
      && NexIds(ps) == Keys(GroupBy(rows))
      && Distinct(NexIds(ps))
      && Elems(NexIds(ps)) == Elems(RowKeys(rows))
      && (forall x :: x in RowKeys(rows) <==> exists k :: 0 <= k < |ps| && x in ps[k].nexIds)
      && (forall k1, k2 :: 0 <= k1 < k2 < |ps| ==>
            forall x :: x in ps[k1].nexIds ==> x !in ps[k2].nexIds)
  {
    PartitionCount(rows, requested);
    var groups := GroupBy(rows);
    var g := |groups|;
    var size := CeilDiv(g, Min(requested, g));
    ClampedBlockCount(g, Min(requested, g));
    ChunkKeysOnce(groups, size);
    forall x
      ensures x in RowKeys(rows) <==> x in Keys(groups)
    {
      assert x in RowKeys(rows) <==> x in Elems(RowKeys(rows));
      assert x in Keys(groups) <==> x in Elems(Keys(groups));
    }
  }

  /** The concatenated divide ids of the toids ks, each toid's in row order. */
  function ValuesOfAll<K(==), V>(rows: seq<(K, V)>, ks: seq<K>): seq<V> {
    if |ks| == 0 then [] else ValuesOf(rows, ks[0]) + ValuesOfAll(rows, ks[1..])
  }

  lemma {:induction false} GroupsOfValues<K, V>(rows: seq<(K, V)>, ks: seq<K>)
    requires forall x :: x in ks ==> x in Keys(GroupBy(rows))
    ensures Flatten(GroupsOf(GroupBy(rows), ks)) == ValuesOfAll(rows, ks)
  {
    var groups := GroupBy(rows);
    if |ks| > 0 {
      GroupByMembers(rows);
      GroupsOfValues(rows, ks[1..]);
      var here := GroupsOf(groups, ks);
      assert here[1..] == GroupsOf(groups, ks[1..]);
      var i := FirstIndex(Keys(groups), ks[0]);
      assert here[0] == groups[i];
    }
  }

  /** Each partition's `cat-ids` are the divide ids of its toids: toid by
      toid in `nex-ids` order, each toid's in row order. Concatenated over
      all partitions they are the grouped divide ids, a permutation of the
      divide ids of the input rows. */
  lemma PartitionsCoverDivides<K, V>(rows: seq<(K, V)>, requested: int)
    requires requested >= 1 && |rows| >= 1
    ensures CreatePartitions(rows, requested).Ok?
    ensures var ps := CreatePartitions(rows, requested).value.partitions;
      && (forall k :: 0 <= k < |ps| ==> ps[k].catIds == ValuesOfAll(rows, ps[k].nexIds))
      && CatIds(ps) == Flatten(GroupBy(rows))
      && multiset(CatIds(ps)) == multiset(RowValues(rows))
  {
    PartitionCount(rows, requested);
    var groups := GroupBy(rows);
    var g := |groups|;
    var size := CeilDiv(g, Min(requested, g));
    ClampedBlockCount(g, Min(requested, g));
    var ps := Chunk(groups, size);
    ChunkCatOfNex(groups, size);
    GroupByPreservesValues(rows);
    forall k | 0 <= k < |ps|
      ensures ps[k].catIds == ValuesOfAll(rows, ps[k].nexIds)
    {
      GroupsOfValues(rows, ps[k].nexIds);
    }
  }

  /** `nexus.items()` for an insertion-ordered dict: the keys in insertion
      order, each with its list. */
  function Items<K(==), V>(order: seq<K>, nexus: map<K, seq<V>>): seq<Group<K, V>>
    requires forall k :: k in order ==> k in nexus
  {
    seq(|order|, j requires 0 <= j < |order| => Group(order[j], nexus[order[j]]))
  }

  /** One step of the grouping loop on the dict agrees with Add. */
  lemma ItemsAdd<K, V>(order: seq<K>, nexus: map<K, seq<V>>, k: K, v: V)
    requires Distinct(order) && Elems(order) == nexus.Keys
    ensures Keys(Items(order, nexus)) == order
    ensures k in nexus ==>
      Items(order, nexus[k := nexus[k] + [v]]) == Add(Items(order, nexus), k, v)
    ensures k !in nexus ==>
      Items(order + [k], nexus[k := [v]]) == Add(Items(order, nexus), k, v)
  {
  }

  /** One iteration of the grouping loop keeps the dict in step with
      `GroupBy` of the rows read so far. */
  lemma GroupRowsStep<K, V>(rows: seq<(K, V)>, n: nat, order: seq<K>, nexus: map<K, seq<V>>)
    requires n < |rows|
    requires Distinct(order) && Elems(order) == nexus.Keys
    requires Items(order, nexus) == GroupBy(rows[..n])
    ensures var (k, v) := rows[n];
      k in nexus ==> Items(order, nexus[k := nexus[k] + [v]]) == GroupBy(rows[..n + 1])
    ensures var (k, v) := rows[n];
      k !in nexus ==>
        && Distinct(order + [k])
        && Elems(order + [k]) == nexus[k := [v]].Keys
        && Items(order + [k], nexus[k := [v]]) == GroupBy(rows[..n + 1])
  {
    var (k, v) := rows[n];
    assert rows[..n + 1][..n] == rows[..n];
    ItemsAdd(order, nexus, k, v);
    if k !in nexus {
      assert k !in Elems(order);
      assert Elems(order + [k]) == Elems(order) + {k};
    }
  }

  /** The grouping loop of lines 16-18 as written, on a dict that keeps
      insertion order. */
  method GroupRows<K(==), V>(rows: seq<(K, V)>) returns (order: seq<K>, nexus: map<K, seq<V>>)
    ensures Distinct(order) && Elems(order) == nexus.Keys
    ensures Items(order, nexus) == GroupBy(rows)
  {
    order := [];
    nexus := map[];
    var n := 0;
    while n < |rows|
      invariant 0 <= n <= |rows|
      invariant Distinct(order) && Elems(order) == nexus.Keys
      invariant Items(order, nexus) == GroupBy(rows[..n])
    {
      var (k, v) := rows[n];
      GroupRowsStep(rows, n, order, nexus);
      if k in nexus {
        nexus := nexus[k := nexus[k] + [v]];
      } else {
        order := order + [k];
        nexus := nexus[k := [v]];
      }
      n := n + 1;
    }
    assert rows[..|rows|] == rows;
  }

  /** The body of the outer loop (lines 26-34): the inner loop visits
      i .. i + size - 1 and skips the indices past the end. */
  method BuildPartition<K, V>(items: seq<Group<K, V>>, i: nat, size: nat) returns (p: Partition<K, V>)
    requires i < |items| && size >= 1
    ensures p == MakePartition(items, i, size)
  {
    var cat: seq<V> := [];
    var nex: seq<K> := [];
    var j := i;
    while j < i + size
      invariant i <= j <= i + size
      invariant nex == Keys(items[i..Min(j, |items|)])
      invariant cat == Flatten(items[i..Min(j, |items|)])
    {
      if j < |items| {
        assert items[i..j + 1] == items[i..j] + [items[j]];
        FlattenAppend(items[i..j], [items[j]]);
        cat := cat + items[j].members;
        nex := nex + [items[j].key];
      }
      j := j + 1;
    }
    p := Partition(i / size, cat, nex, []);
  }

  /** The outer loop `for i in range(0, len(items), size)` of line 25. */
  method ChunkItems<K, V>(items: seq<Group<K, V>>, size: nat) returns (parts: seq<Partition<K, V>>)
    requires size >= 1
    ensures parts == Chunk(items, size)
  {
    parts := [];
    var i: nat := 0;
    while i < |items|
      invariant parts + ChunkFrom(items, i, size) == ChunkFrom(items, 0, size)
      decreases |items| - i
    {
      var p := BuildPartition(items, i, size);
      assert ChunkFrom(items, i, size) == [p] + ChunkFrom(items, i + size, size);
      assert (parts + [p]) + ChunkFrom(items, i + size, size) == parts + ChunkFrom(items, i, size);
      parts := parts + [p];
      i := i + size;
    }
    assert ChunkFrom(items, i, size) == [];
    assert parts == parts + ChunkFrom(items, i, size);
    assert items[0..] == items;
  }

  /** Lines 16-35 as written, loop by loop. */
  method RunCreatePartitions<K(==), V>(rows: seq<(K, V)>, requested: int) returns (r: Result<Output<K, V>>)
    ensures r == CreatePartitions(rows, requested)
  {
    var order, nexus := GroupRows(rows);
    var items := Items(order, nexus);
    DistinctElemsCount(order);
    var numNexus := |nexus|;
    assert numNexus == |items| by {
      assert |nexus.Keys| == |nexus|;
    }
    var count := Min(requested, numNexus);
    if count == 0 {
      return Err(ZeroDivision);
    }
    var size := PyCeil(numNexus, count);
    if size == 0 {
      return Err(ZeroRangeStep);
    }
    var parts: seq<Partition<K, V>> := [];
    // range(0, len, size) with a negative step and len >= 0 is empty
    if size > 0 {
      parts := ChunkItems(items, size);
    }
    r := Ok(Output(count, parts));
  }

  /** Five toids A:[1,2], B:[3], C:[4], D:[5,6], E:[7], as table rows. */
  const ExampleRows: seq<(char, int)> :=
    [('A', 1), ('A', 2), ('B', 3), ('C', 4), ('D', 5), ('D', 6), ('E', 7)]

  /** The grouping of the example, one appended row at a time. */
  lemma ExampleGroups1()
    ensures GroupBy(ExampleRows[..1]) == [Group('A', [1])]
  {
  }

  lemma ExampleGroups2()
    ensures GroupBy(ExampleRows[..2]) == [Group('A', [1, 2])]
  {
    var before: seq<Group<char, int>> := [Group('A', [1])];
    ExampleGroups1();
    assert ExampleRows[..2][..1] == ExampleRows[..1];
    assert Keys(before) == ['A'];
    assert FirstIndex(Keys(before), 'A') == 0;
    assert [1] + [2] == [1, 2];
    assert before[0 := Group('A', before[0].members + [2])] == [Group('A', [1, 2])];
    assert GroupBy(ExampleRows[..2]) == Add(before, 'A', 2);
  }

  lemma ExampleGroups3()
    ensures GroupBy(ExampleRows[..3]) == [Group('A', [1, 2]), Group('B', [3])]
  {
    ExampleGroups2();
    assert ExampleRows[..3][..2] == ExampleRows[..2];
    assert Keys([Group('A', [1, 2])]) == ['A'];
  }

  lemma ExampleGroups4()
    ensures GroupBy(ExampleRows[..4]) == [Group('A', [1, 2]), Group('B', [3]), Group('C', [4])]
  {
    ExampleGroups3();
    assert ExampleRows[..4][..3] == ExampleRows[..3];
    assert Keys([Group('A', [1, 2]), Group('B', [3])]) == ['A', 'B'];
  }

  lemma ExampleGroups5()
    ensures GroupBy(ExampleRows[..5]) ==
      [Group('A', [1, 2]), Group('B', [3]), Group('C', [4]), Group('D', [5])]
  {
    ExampleGroups4();
    assert ExampleRows[..5][..4] == ExampleRows[..4];
    assert Keys([Group('A', [1, 2]), Group('B', [3]), Group('C', [4])]) == ['A', 'B', 'C'];
  }

  lemma ExampleGroups6()
    ensures GroupBy(ExampleRows[..6]) ==
      [Group('A', [1, 2]), Group('B', [3]), Group('C', [4]), Group('D', [5, 6])]
  {
    var before: seq<Group<char, int>> :=
      [Group('A', [1, 2]), Group('B', [3]), Group('C', [4]), Group('D', [5])];
    ExampleGroups5();
    assert ExampleRows[..6][..5] == ExampleRows[..5];
    assert Keys(before) == ['A', 'B', 'C', 'D'];
    assert FirstIndex(Keys(before), 'D') == 3;
    assert [5] + [6] == [5, 6];
    assert GroupBy(ExampleRows[..6]) == Add(before, 'D', 6);
  }

  lemma ExampleGroups()
    ensures GroupBy(ExampleRows) ==
      [Group('A', [1, 2]), Group('B', [3]), Group('C', [4]), Group('D', [5, 6]), Group('E', [7])]
  {
    ExampleGroups6();
    assert ExampleRows[..7][..6] == ExampleRows[..6] && ExampleRows[..7] == ExampleRows;
    assert Keys([Group('A', [1, 2]), Group('B', [3]), Group('C', [4]), Group('D', [5, 6])]) ==
      ['A', 'B', 'C', 'D'];
  }

  /** The example's two blocks of three toids and of two. */
  lemma ExampleBlocks()
    ensures |GroupBy(ExampleRows)| == 5
    ensures MakePartition(GroupBy(ExampleRows), 0, 3) == Partition(0, [1, 2, 3, 4], ['A', 'B', 'C'], [])
    ensures MakePartition(GroupBy(ExampleRows), 3, 3) == Partition(1, [5, 6, 7], ['D', 'E'], [])
  {
    ExampleGroups();
    var e := GroupBy(ExampleRows);
    var b1 := e[0..3];
    var b2 := e[3..5];
    assert b1[1..][1..][1..] == [];
    assert Flatten(b1[1..][1..]) == [4];
    assert Flatten(b1[1..]) == [3, 4];
    assert Flatten(b1) == [1, 2, 3, 4];
    assert b2[1..][1..] == [];
    assert Flatten(b2[1..]) == [7];
    assert Flatten(b2) == [5, 6, 7];
    assert Block(e, 0, 3) == b1 && Block(e, 3, 3) == b2;
    assert Keys(b1) == ['A', 'B', 'C'] && Keys(b2) == ['D', 'E'];
  }

  /** With two partitions requested: blocks of three toids, then two. */
  lemma ExampleTwoPartitions()
    ensures CreatePartitions(ExampleRows, 2)
      == Ok(Output(2, [Partition(0, [1, 2, 3, 4], ['A', 'B', 'C'], []),
                       Partition(1, [5, 6, 7], ['D', 'E'], [])]))
  {
    ExampleGroups();
    var e := GroupBy(ExampleRows);
    assert PyCeil(5, 2) == 3;
    assert ChunkFrom(e, 6, 3) == [];
    assert ChunkFrom(e, 3, 3) == [MakePartition(e, 3, 3)];
    assert Chunk(e, 3) == [MakePartition(e, 0, 3), MakePartition(e, 3, 3)];
    ExampleBlocks();
  }

  /** With four partitions requested: blocks of two, so only three
      partitions are emitted while the file is still named after four. */
  lemma ExampleFourRequested()
    ensures CreatePartitions(ExampleRows, 4).Ok?
    ensures CreatePartitions(ExampleRows, 4).value.fileCount == 4
    ensures |CreatePartitions(ExampleRows, 4).value.partitions| == 3
  {
    ExampleGroups();
    assert PyCeil(5, 4) == 2;
    ChunkShape(GroupBy(ExampleRows), 2);
  }
}
