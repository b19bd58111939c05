/** Tables built over keys that do not collide can be iterated while they change. */
module RcuReachable {
  import opened RcuTable
  import opened RcuMap
  import opened RcuIteration
  import opened RcuOwnKey

  function AfterOps(c: Config, t: Snapshot, ops: seq<Op>): (t': Snapshot)
    requires |t.buckets| == c.Size()
    ensures |t'.buckets| == c.Size()
    decreases |ops|
  {
    if ops == [] then t else AfterOps(c, TableStep(c, t, ops[0]).0, ops[1..])
  }

  /** Every table that operations reach, whatever their keys, can be iterated: its nodes have distinct addresses. */
  lemma {:induction false} ReachableIsSound(c: Config, t: Snapshot, ops: seq<Op>)
    requires Sound(c, t)
    ensures Sound(c, AfterOps(c, t, ops))
    decreases |ops|
  {
    if ops == [] {
    } else {
      StepKeepsAddresses(c, t, ops[0]);
      ReachableIsSound(c, TableStep(c, t, ops[0]).0, ops[1..]);
    }
  }

  lemma PlacedIsIterable(c: Config, keys: iset<Key>, i: nat, b: Bucket)
    requires Separate(c, keys) && NulFree(keys) && Placed(c, keys, i, b)
    ensures IterableAt(c, i, b)
  {
    forall j | 0 <= j < |b|
      ensures c.Index(b[j].key) == i && Find(b, b[j].key) == j && 0 !in b[j].key && |b[j].key| < c.maxKey
    {
      assert PlacedAt(c, keys, i, b[j]);
      var k :| Owns(c, keys, i, k, b[j]);
      CStrMatchesItself(k);
      FindsOwn(c, keys, i, b, k);
    }
  }

  lemma {:induction false} ReachableRep(c: Config, keys: iset<Key>, t: Snapshot, m: map<Key, Value>, ops: seq<Op>)
    returns (m': map<Key, Value>)
    requires Separate(c, keys) && Rep(c, keys, t, m) && Over(ops, keys)
    ensures Rep(c, keys, AfterOps(c, t, ops), m')
    decreases |ops|
  {
    if ops == [] {
      m' := m;
    } else {
      StepKeepsRep(c, keys, t, m, ops[0]);
      m' := ReachableRep(c, keys, TableStep(c, t, ops[0]).0, MapStep(c, m, ops[0]).0, ops[1..]);
    }
  }

  /** Every table reached by any operations over keys that do not collide and hold no NUL is fit
      for iteration: one node per key, in the bucket of its key, found by its key. */
  lemma ReachableIsIterable(c: Config, keys: iset<Key>, ops: seq<Op>)
    requires Separate(c, keys) && NulFree(keys) && Over(ops, keys)
    ensures var t := AfterOps(c, EmptyTable(c), ops); Iterable(c, t)
  {
    ReachableIsSound(c, EmptyTable(c), ops);
    var m := ReachableRep(c, keys, EmptyTable(c), map[], ops);
    var t := AfterOps(c, EmptyTable(c), ops);
    forall k | 0 <= k < |t.buckets|
      ensures IterableAt(c, k, t.buckets[k])
    {
      PlacedIsIterable(c, keys, k, t.buckets[k]);
    }
  }
}
