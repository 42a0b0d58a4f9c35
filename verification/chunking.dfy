/** The chunking loop of create_partitions (lines 23-35): the ordered items
    are cut into contiguous blocks of `partition_size` items, and each block
    becomes one partition record. */
module Chunking {
  import opened Numeric
  import opened Grouping

  /** One output record: `id`, `cat-ids` (divide ids), `nex-ids` (toids)
      and `remote-connections`, which the source never fills. */
  datatype Partition<K, V> = Partition(id: int, catIds: seq<V>, nexIds: seq<K>, remoteConnections: seq<K>)

  /** The items the inner loop (lines 31-34) takes for the block that starts
      at i: indices i .. i + size - 1, minus those past the end. */
  function Block<K, V>(gs: seq<Group<K, V>>, i: nat, size: nat): seq<Group<K, V>>
    requires i <= |gs|
  {
    gs[i..Min(i + size, |gs|)]
  }

  /** The record built for the block that starts at i (lines 26-34). */
  function MakePartition<K, V>(gs: seq<Group<K, V>>, i: nat, size: nat): (p: Partition<K, V>)
    requires i < |gs| && size >= 1
    ensures 1 <= |p.nexIds| <= size
    ensures i + size <= |gs| ==> |p.nexIds| == size
    ensures p.remoteConnections == []
  {
    var b := Block(gs, i, size);
    Partition(i / size, Flatten(b), Keys(b), [])
  }

  /** The outer loop `for i in range(start, len(gs), size)`, from i on. */
  function ChunkFrom<K, V>(gs: seq<Group<K, V>>, i: nat, size: nat): (ps: seq<Partition<K, V>>)
    requires size >= 1
    ensures |ps| == 0 <==> i >= |gs|
    decreases |gs| - i
  {
    if i >= |gs| then [] else [MakePartition(gs, i, size)] + ChunkFrom(gs, i + size, size)
  }

  /** The loop emits ceil((|gs| - i) / size) records. */
  lemma {:induction false} ChunkFromCount<K, V>(gs: seq<Group<K, V>>, i: nat, size: nat)
    requires size >= 1
    ensures |ChunkFrom(gs, i, size)| == if i >= |gs| then 0 else CeilDiv(|gs| - i, size)
    decreases |gs| - i
  {
    if i < |gs| {
      ChunkFromCount(gs, i + size, size);
      if i + size < |gs| {
        CeilDivStep(|gs| - i, size);
      } else {
        CeilDivOne(|gs| - i, size);
      }
    }
  }

  /** All partitions of gs with blocks of `size` items. Their `nex-ids`
      concatenate to the keys in order and their `cat-ids` to all values in
      item order: no key or value is dropped, duplicated or moved. */
  function Chunk<K, V>(gs: seq<Group<K, V>>, size: nat): (ps: seq<Partition<K, V>>)
    requires size >= 1
    ensures NexIds(ps) == Keys(gs)
    ensures CatIds(ps) == Flatten(gs)
  {
    ChunkFromNexIds(gs, 0, size);
    ChunkFromCatIds(gs, 0, size);
    assert gs[0..] == gs;
    ChunkFrom(gs, 0, size)
  }

  /** The `nex-ids` of all partitions, concatenated in emission order. */
  function NexIds<K, V>(ps: seq<Partition<K, V>>): seq<K> {
    if |ps| == 0 then [] else ps[0].nexIds + NexIds(ps[1..])
  }

  /** The `cat-ids` of all partitions, concatenated in emission order. */
  function CatIds<K, V>(ps: seq<Partition<K, V>>): seq<V> {
    if |ps| == 0 then [] else ps[0].catIds + CatIds(ps[1..])
  }

  /** The items whose keys are ks, looked up by key, in the order of ks. */
  function GroupsOf<K(==), V>(gs: seq<Group<K, V>>, ks: seq<K>): seq<Group<K, V>>
    requires forall x :: x in ks ==> x in Keys(gs)
  {
    seq(|ks|, j requires 0 <= j < |ks| => gs[FirstIndex(Keys(gs), ks[j])])
  }

  /** Looking up the keys of a slice of distinct-keyed items gives back
      the slice. */
  lemma GroupsOfSlice<K, V>(gs: seq<Group<K, V>>, a: nat, c: nat)
    requires a <= c <= |gs|
    requires Distinct(Keys(gs))
    ensures forall x :: x in Keys(gs[a..c]) ==> x in Keys(gs)
    ensures GroupsOf(gs, Keys(gs[a..c])) == gs[a..c]
  {
    var b := gs[a..c];
    forall j | 0 <= j < |b|
      ensures Keys(b)[j] == b[j].key && b[j].key in Keys(gs)
      ensures FirstIndex(Keys(gs), b[j].key) == a + j
    {
      assert Keys(gs)[a + j] == b[j].key;
      FirstIndexUnique(Keys(gs), b[j].key, a + j);
    }
  }

  lemma KeysAppend<K, V>(a: seq<Group<K, V>>, b: seq<Group<K, V>>)
    ensures Keys(a + b) == Keys(a) + Keys(b)
  {
  }

  /** The loop variable of `range(i, ..., size)` at its k-th step. */
  function BlockStart(i: nat, k: nat, size: nat): nat
    decreases k
  {
    if k == 0 then i else BlockStart(i + size, k - 1, size)
  }

  lemma {:induction false} BlockStartValue(i: nat, k: nat, size: nat)
    ensures BlockStart(i, k, size) == i + k * size
    decreases k
  {
    if k > 0 {
      BlockStartValue(i + size, k - 1, size);
    }
  }

  /** The k-th emitted partition is the record of the block at the k-th
      value of the loop variable. */
  lemma {:induction false} ChunkFromAt<K, V>(gs: seq<Group<K, V>>, i: nat, size: nat, k: nat)
    requires size >= 1
    requires k < |ChunkFrom(gs, i, size)|
    ensures BlockStart(i, k, size) < |gs|
    ensures ChunkFrom(gs, i, size)[k] == MakePartition(gs, BlockStart(i, k, size), size)
    decreases k
  {
    if k > 0 {
      var rest := ChunkFrom(gs, i + size, size);
      assert ChunkFrom(gs, i, size)[k] == rest[k - 1];
      ChunkFromAt(gs, i + size, size, k - 1);
    }
  }

  /** Consecutive values of the loop variable are `size` apart. */
  lemma {:induction false} BlockStartNext(i: nat, k: nat, size: nat)
    ensures BlockStart(i, k + 1, size) == BlockStart(i, k, size) + size
    decreases k
  {
    if k > 0 {
      BlockStartNext(i + size, k - 1, size);
    }
  }

  /** The k-th value of the loop variable from 0 yields id k. */
  lemma BlockStartId(k: nat, size: nat)
    requires size >= 1
    ensures BlockStart(0, k, size) / size == k
  {
    BlockStartValue(0, k, size);
    MulDivCancel(k, size);
  }

  lemma {:induction false} ChunkFromNexIds<K, V>(gs: seq<Group<K, V>>, i: nat, size: nat)
    requires size >= 1 && i <= |gs|
    ensures NexIds(ChunkFrom(gs, i, size)) == Keys(gs[i..])
    decreases |gs| - i
  {
    if i < |gs| {
      var ps := ChunkFrom(gs, i, size);
      var b := Block(gs, i, size);
      var j := Min(i + size, |gs|);
      assert ps[1..] == ChunkFrom(gs, i + size, size);
      if i + size < |gs| {
        ChunkFromNexIds(gs, i + size, size);
      }
      assert b == gs[i..j];
      assert gs[i..] == b + gs[j..];
      KeysAppend(b, gs[j..]);
    }
  }

  lemma {:induction false} ChunkFromCatIds<K, V>(gs: seq<Group<K, V>>, i: nat, size: nat)
    requires size >= 1 && i <= |gs|
    ensures CatIds(ChunkFrom(gs, i, size)) == Flatten(gs[i..])
    decreases |gs| - i
  {
    if i < |gs| {
      var ps := ChunkFrom(gs, i, size);
      var b := Block(gs, i, size);
      var j := Min(i + size, |gs|);
      assert ps[1..] == ChunkFrom(gs, i + size, size);
      if i + size < |gs| {
        ChunkFromCatIds(gs, i + size, size);
      }
      assert b == gs[i..j];
      assert gs[i..] == b + gs[j..];
      FlattenAppend(b, gs[j..]);
    }
  }

  /** The k-th partition of the whole loop has id k, no remote
      connections, and between 1 and `size` toids: exactly `size` unless it
      is the last. */
  lemma ChunkShapeAt<K, V>(gs: seq<Group<K, V>>, size: nat, k: nat)
    requires size >= 1
    requires k < |Chunk(gs, size)|
    ensures Chunk(gs, size)[k].id == k
    ensures Chunk(gs, size)[k].remoteConnections == []
    ensures 1 <= |Chunk(gs, size)[k].nexIds| <= size
    ensures k < |Chunk(gs, size)| - 1 ==> |Chunk(gs, size)[k].nexIds| == size
  {
    var ps := ChunkFrom(gs, 0, size);
    assert Chunk(gs, size) == ps;
    ChunkFromAt(gs, 0, size, k);
    BlockStartId(k, size);
    if k < |ps| - 1 {
      ChunkFromAt(gs, 0, size, k + 1);
      BlockStartNext(0, k, size);
    }
  }

  /** The shape of the output: ceil(|gs| / size) partitions numbered 0, 1,
      ... in emission order, each but the last holding exactly `size` items,
      the last between 1 and `size`, and none with remote connections. */
  lemma ChunkShape<K, V>(gs: seq<Group<K, V>>, size: nat)
    requires size >= 1
    ensures |Chunk(gs, size)| == CeilDiv(|gs|, size)
    ensures forall k :: 0 <= k < |Chunk(gs, size)| ==>
      && Chunk(gs, size)[k].id == k
      && Chunk(gs, size)[k].remoteConnections == []
      && 1 <= |Chunk(gs, size)[k].nexIds| <= size
    ensures forall k :: 0 <= k < |Chunk(gs, size)| - 1 ==> |Chunk(gs, size)[k].nexIds| == size
  {
    ChunkFromCount(gs, 0, size);
    forall k | 0 <= k < |Chunk(gs, size)|
      ensures Chunk(gs, size)[k].id == k
      ensures Chunk(gs, size)[k].remoteConnections == []
      ensures 1 <= |Chunk(gs, size)[k].nexIds| <= size
      ensures k < |Chunk(gs, size)| - 1 ==> |Chunk(gs, size)[k].nexIds| == size
    {
      ChunkShapeAt(gs, size, k);
    }
  }

  /** Where the j-th key of the k-th partition sits in gs. */
  lemma NexIdAt<K, V>(gs: seq<Group<K, V>>, size: nat, k: nat, j: nat)
    requires size >= 1
    requires k < |Chunk(gs, size)|
    requires j < |Chunk(gs, size)[k].nexIds|
    ensures j < size
    ensures BlockStart(0, k, size) + j < |gs|
    ensures Chunk(gs, size)[k].nexIds[j] == Keys(gs)[BlockStart(0, k, size) + j]
  {
    var ps := ChunkFrom(gs, 0, size);
    assert Chunk(gs, size) == ps;
    ChunkFromAt(gs, 0, size, k);
    var start := BlockStart(0, k, size);
    var b := Block(gs, start, size);
    assert ps[k].nexIds == Keys(b);
    assert Keys(b)[j] == b[j].key == gs[start + j].key;
  }

  /** With distinct keys, a key found in two partitions was found twice in
      the same one. */
  lemma NexIdOwner<K, V>(gs: seq<Group<K, V>>, size: nat, x: K, k1: nat, k2: nat)
    requires size >= 1
    requires Distinct(Keys(gs))
    requires k1 < |Chunk(gs, size)| && k2 < |Chunk(gs, size)|
    requires x in Chunk(gs, size)[k1].nexIds && x in Chunk(gs, size)[k2].nexIds
    ensures k1 == k2
  {
    var ps := Chunk(gs, size);
    var j1 :| 0 <= j1 < |ps[k1].nexIds| && ps[k1].nexIds[j1] == x;
    var j2 :| 0 <= j2 < |ps[k2].nexIds| && ps[k2].nexIds[j2] == x;
    NexIdAt(gs, size, k1, j1);
    NexIdAt(gs, size, k2, j2);
    BlockStartValue(0, k1, size);
    BlockStartValue(0, k2, size);
    assert k1 * size + j1 == k2 * size + j2;
    SameSlot(k1, j1, k2, j2, size);
  }

  /** With distinct keys, every key lands in exactly one partition. */
  lemma ChunkKeysOnce<K, V>(gs: seq<Group<K, V>>, size: nat)
    requires size >= 1
    requires Distinct(Keys(gs))
    ensures forall x :: x in Keys(gs) <==>
      exists k :: 0 <= k < |Chunk(gs, size)| && x in Chunk(gs, size)[k].nexIds
    ensures forall k1, k2 :: 0 <= k1 < k2 < |Chunk(gs, size)| ==>
      forall x :: x in Chunk(gs, size)[k1].nexIds ==> x !in Chunk(gs, size)[k2].nexIds
  {
    var ps := Chunk(gs, size);
    NexIdsMembership(ps);
    forall k1, k2 | 0 <= k1 < k2 < |ps|
      ensures forall x :: x in ps[k1].nexIds ==> x !in ps[k2].nexIds
    {
      forall x | x in ps[k1].nexIds
        ensures x !in ps[k2].nexIds
      {
        if x in ps[k2].nexIds {
          NexIdOwner(gs, size, x, k1, k2);
        }
      }
    }
  }

  lemma {:induction false} NexIdsMembership<K, V>(ps: seq<Partition<K, V>>)
    ensures forall x, k :: 0 <= k < |ps| && x in ps[k].nexIds ==> x in NexIds(ps)
    ensures forall x :: x in NexIds(ps) ==> exists k :: 0 <= k < |ps| && x in ps[k].nexIds
  {
    if |ps| > 0 {
      var tail := ps[1..];
      NexIdsMembership(tail);
      assert NexIds(ps) == ps[0].nexIds + NexIds(tail);
      forall x | x in NexIds(ps)
        ensures exists k :: 0 <= k < |ps| && x in ps[k].nexIds
      {
        if x in ps[0].nexIds {
          assert x in ps[0].nexIds;
        } else {
          assert x in NexIds(tail);
          var k :| 0 <= k < |tail| && x in tail[k].nexIds;
          assert tail[k] == ps[k + 1];
        }
      }
      forall x, k | 0 <= k < |ps| && x in ps[k].nexIds
        ensures x in NexIds(ps)
      {
        if k > 0 {
          assert tail[k - 1] == ps[k];
        }
      }
    }
  }

  /** With distinct keys, each partition's `cat-ids` are the values of the
      items named by its `nex-ids`, in that order. */
  lemma ChunkCatOfNex<K, V>(gs: seq<Group<K, V>>, size: nat)
    requires size >= 1
    requires Distinct(Keys(gs))
    ensures forall k :: 0 <= k < |Chunk(gs, size)| ==>
      (forall x :: x in Chunk(gs, size)[k].nexIds ==> x in Keys(gs)) &&
      Chunk(gs, size)[k].catIds == Flatten(GroupsOf(gs, Chunk(gs, size)[k].nexIds))
  {
    var ps := Chunk(gs, size);
    forall k | 0 <= k < |ps|
      ensures forall x :: x in ps[k].nexIds ==> x in Keys(gs)
      ensures ps[k].catIds == Flatten(GroupsOf(gs, ps[k].nexIds))
    {
      ChunkFromAt(gs, 0, size, k);
      var a := BlockStart(0, k, size);
      var b := Block(gs, a, size);
      assert ps[k].nexIds == Keys(b);
      GroupsOfSlice(gs, a, Min(a + size, |gs|));
    }
  }
}
