/** When an rcu table is a finite map: exactly when no two keys in use collide. */
module RcuMap {
  import opened RcuTable

  datatype Op = Get(key: Key) | Set(key: Key, value: Value, memory: bool)
  datatype Answer = Got(value: Value) | Stored(ok: bool)

  datatype Snapshot = Snapshot(buckets: seq<Bucket>, nextId: nat)

  /** One call of `luarcu_getvalue` or `luarcu_setvalue`; the contracts of `Table` say the same. */
  function TableStep(c: Config, t: Snapshot, op: Op): (r: (Snapshot, Answer))
    requires |t.buckets| == c.Size()
    ensures |r.0.buckets| == c.Size()
  {
    var i := c.Index(op.key);
    match op
    case Get(key) => (t, Got(Lookup(t.buckets[i], key)))
    case Set(key, value, memory) =>
      if Stores(c.maxKey, key, value, memory) then
        (Snapshot(t.buckets[i := Updated(t.buckets[i], key, value, t.nextId)], t.nextId + if value != Nil then 1 else 0), Stored(true))
      else (t, Stored(false))
  }

  /** The same call on a finite map. */
  function MapStep(c: Config, m: map<Key, Value>, op: Op): (map<Key, Value>, Answer) {
    match op
    case Get(key) => (m, Got(if key in m then m[key] else Nil))
    case Set(key, value, memory) =>
      if !Stores(c.maxKey, key, value, memory) then (m, Stored(false))
      else if value == Nil then (m - {key}, Stored(true))
      else (m[key := value], Stored(true))
  }

  function TableAnswers(c: Config, t: Snapshot, ops: seq<Op>): seq<Answer>
    requires |t.buckets| == c.Size()
    decreases |ops|
  {
    if ops == [] then [] else
      var (t', a) := TableStep(c, t, ops[0]);
      [a] + TableAnswers(c, t', ops[1..])
  }

  function MapAnswers(c: Config, m: map<Key, Value>, ops: seq<Op>): seq<Answer>
    decreases |ops|
  {
    if ops == [] then [] else
      var (m', a) := MapStep(c, m, ops[0]);
      [a] + MapAnswers(c, m', ops[1..])
  }

  function EmptyTable(c: Config): Snapshot {
    Snapshot(seq(c.Size(), i => []), 0)
  }

  predicate Over(ops: seq<Op>, keys: iset<Key>) {
    forall i | 0 <= i < |ops| :: ops[i].key in keys
  }

  /** A node stored for `a` is found by a lookup of the different key `b`. For keys without NUL
      bytes: they share a bucket and `b` is a proper prefix of `a`. */
  predicate Collides(c: Config, a: Key, b: Key) {
    a != b && |a| < c.maxKey && c.Index(a) == c.Index(b) && StrNCmpEqual(CStr(a), b)
  }

  lemma CollidesMeans(c: Config, a: Key, b: Key)
    requires 0 !in a && 0 !in b
    ensures Collides(c, a, b) <==> b < a && |a| < c.maxKey && c.Index(a) == c.Index(b)
  {
    CStrMatchesItself(a);
    MatchMeans(a, b);
  }

  ghost predicate Separate(c: Config, keys: iset<Key>) {
    forall a, b | a in keys && b in keys :: !Collides(c, a, b)
  }

  ghost predicate NulFree(keys: iset<Key>) {
    forall k | k in keys :: 0 !in k
  }

  ghost predicate BehavesAsMap(c: Config, keys: iset<Key>) {
    forall ops | Over(ops, keys) :: TableAnswers(c, EmptyTable(c), ops) == MapAnswers(c, map[], ops)
  }

  // ---- the representation ----

  ghost predicate Owns(c: Config, keys: iset<Key>, i: nat, k: Key, e: Entry) {
    k in keys && |k| < c.maxKey && c.Index(k) == i && e.key == CStr(k)
  }

  ghost predicate PlacedAt(c: Config, keys: iset<Key>, i: nat, e: Entry) {
    e.value != Nil && exists k :: Owns(c, keys, i, k, e)
  }

  predicate DistinctKeys(b: Bucket) {
    forall j, l | 0 <= j < l < |b| :: b[j].key != b[l].key
  }

  /** Every node was stored for a key in use that belongs to this bucket, no two for the same. */
  ghost predicate Placed(c: Config, keys: iset<Key>, i: nat, b: Bucket) {
    DistinctKeys(b) && forall j | 0 <= j < |b| :: PlacedAt(c, keys, i, b[j])
  }

  ghost predicate Rep(c: Config, keys: iset<Key>, t: Snapshot, m: map<Key, Value>) {
    && |t.buckets| == c.Size()
    && (forall i | 0 <= i < c.Size() :: Placed(c, keys, i, t.buckets[i]))
    && (forall k | k in keys :: AgreesOn(m, k, t.buckets[c.Index(k)]))
  }

  predicate AgreesOn(m: map<Key, Value>, k: Key, b: Bucket) {
    Lookup(b, k) == if k in m then m[k] else Nil
  }

  /** In a placed bucket a lookup finds its own node and no other. */
  lemma FindsOwn(c: Config, keys: iset<Key>, i: nat, b: Bucket, k: Key)
    requires Separate(c, keys) && Placed(c, keys, i, b) && k in keys && c.Index(k) == i
    ensures forall j | 0 <= j < |b| :: StrNCmpEqual(b[j].key, k) <==> b[j].key == CStr(k)
    ensures forall j | 0 <= j < |b| && b[j].key == CStr(k) :: Find(b, k) == j
  {
    CStrMatchesItself(k);
    forall j | 0 <= j < |b|
      ensures StrNCmpEqual(b[j].key, k) <==> b[j].key == CStr(k)
    {
      assert PlacedAt(c, keys, i, b[j]);
      var o :| Owns(c, keys, i, o, b[j]);
      assert !Collides(c, o, k);
    }
  }

  /** A lookup in two placed buckets agrees if they hold the same nodes for that key. */
  lemma SameNodes(c: Config, keys: iset<Key>, i: nat, b: Bucket, b': Bucket, k: Key)
    requires Separate(c, keys) && Placed(c, keys, i, b) && Placed(c, keys, i, b') && k in keys && c.Index(k) == i
    requires forall j | 0 <= j < |b| && b[j].key == CStr(k) :: b[j] in b'
    requires forall j | 0 <= j < |b'| && b'[j].key == CStr(k) :: b'[j] in b
    ensures Lookup(b, k) == Lookup(b', k)
  {
    FindsOwn(c, keys, i, b, k);
    FindsOwn(c, keys, i, b', k);
    var j, j' := Find(b, k), Find(b', k);
    if j >= 0 {
      var l :| 0 <= l < |b'| && b'[l] == b[j];
    } else {
      assert forall l | 0 <= l < |b'| :: b'[l].key == CStr(k) ==> b'[l] in b;
    }
  }

  /** Setting a key in use keeps the bucket placed. */
  lemma UpdatePlaced(c: Config, keys: iset<Key>, b: Bucket, k: Key, value: Value, id: nat)
    requires Separate(c, keys) && Placed(c, keys, c.Index(k), b) && k in keys
    requires value != Nil ==> |k| < c.maxKey
    ensures Placed(c, keys, c.Index(k), Updated(b, k, value, id))
  {
    FindsOwn(c, keys, c.Index(k), b, k);
    var i, n, node := c.Index(k), Find(b, k), Entry(id, CStr(k), value);
    assert value != Nil ==> PlacedAt(c, keys, i, node) by { assert value != Nil ==> Owns(c, keys, i, k, node); }
    assert n < 0 ==> forall j | 0 <= j < |b| :: b[j].key != CStr(k);
    assert Updated(b, k, value, id) == if value != Nil then (if n < 0 then [node] + b else b[n := node])
                                       else if n < 0 then b else b[..n] + b[n + 1..];
    hide Find, CStr, StrNCmpEqual, Updated, Separate, Owns, PlacedAt, Placed;
    if value != Nil && n < 0 {
      PlacedAdd(c, keys, i, b, node);
    } else if value != Nil {
      PlacedReplace(c, keys, i, b, n, node);
    } else if n >= 0 {
      PlacedDelete(c, keys, i, b, n);
    }
  }

  lemma PlacedAdd(c: Config, keys: iset<Key>, i: nat, b: Bucket, node: Entry)
    requires Placed(c, keys, i, b) && PlacedAt(c, keys, i, node)
    requires forall j | 0 <= j < |b| :: b[j].key != node.key
    ensures Placed(c, keys, i, [node] + b)
  {
    hide PlacedAt;
    var b' := [node] + b;
    assert b'[0] == node && forall j | 0 < j < |b'| :: b'[j] == b[j - 1];
    forall j | 0 <= j < |b'| ensures PlacedAt(c, keys, i, b'[j]) {
      if j > 0 { assert PlacedAt(c, keys, i, b[j - 1]); }
    }
    forall j, l | 0 <= j < l < |b'| ensures b'[j].key != b'[l].key {
      if j > 0 { assert b[j - 1].key != b[l - 1].key; }
    }
  }

  lemma PlacedReplace(c: Config, keys: iset<Key>, i: nat, b: Bucket, n: nat, node: Entry)
    requires Placed(c, keys, i, b) && n < |b| && b[n].key == node.key && PlacedAt(c, keys, i, node)
    ensures Placed(c, keys, i, b[n := node])
  {
    hide PlacedAt;
    var b' := b[n := node];
    forall j | 0 <= j < |b'| ensures PlacedAt(c, keys, i, b'[j]) {
      assert PlacedAt(c, keys, i, b[j]);
    }
    assert forall j | 0 <= j < |b'| :: b'[j].key == b[j].key;
    forall j, l | 0 <= j < l < |b'| ensures b'[j].key != b'[l].key {
      assert b[j].key != b[l].key;
    }
  }

  lemma PlacedDelete(c: Config, keys: iset<Key>, i: nat, b: Bucket, n: nat)
    requires Placed(c, keys, i, b) && n < |b|
    ensures Placed(c, keys, i, b[..n] + b[n + 1..])
  {
    hide PlacedAt;
    var b' := b[..n] + b[n + 1..];
    assert forall q | 0 <= q < |b'| :: b'[q] == b[if q < n then q else q + 1];
    forall q | 0 <= q < |b'| ensures PlacedAt(c, keys, i, b'[q]) {
      assert PlacedAt(c, keys, i, b[if q < n then q else q + 1]);
    }
    forall j, l | 0 <= j < l < |b'| ensures b'[j].key != b'[l].key {
      assert b[if j < n then j else j + 1].key != b[if l < n then l else l + 1].key;
    }
  }

  lemma UpdateAnswers(c: Config, keys: iset<Key>, b: Bucket, k: Key, value: Value, id: nat, other: Key)
    requires Separate(c, keys) && Placed(c, keys, c.Index(k), b) && k in keys && other in keys
    requires value != Nil ==> |k| < c.maxKey
    requires c.Index(other) == c.Index(k)
    ensures Lookup(Updated(b, k, value, id), other) == if other == k then value else Lookup(b, other)
  {
    var i, b', n := c.Index(k), Updated(b, k, value, id), Find(b, k);
    UpdatePlaced(c, keys, b, k, value, id);
    FindsOwn(c, keys, i, b, k);
    FindsOwn(c, keys, i, b', k);
    if other == k {
      if value != Nil {
        assert b'[if n < 0 then 0 else n].key == CStr(k);
      } else {
        NoneLeft(b, b', k, n, id);
      }
    } else {
      OthersKept(c, keys, b, b', k, value, id, other);
      SameNodes(c, keys, i, b, b', other);
    }
  }

  lemma NoneLeft(b: Bucket, b': Bucket, k: Key, n: int, id: nat)
    requires forall j, l | 0 <= j < l < |b| :: b[j].key != b[l].key
    requires n == Find(b, k) && b' == Updated(b, k, Nil, id)
    requires forall j | 0 <= j < |b| :: StrNCmpEqual(b[j].key, k) <==> b[j].key == CStr(k)
    ensures Find(b', k) < 0
  {
    hide Find, CStr, StrNCmpEqual;
    if n >= 0 {
      assert forall q | 0 <= q < |b'| :: b'[q] == if q < n then b[q] else b[q + 1];
    }
  }

  lemma OthersKept(c: Config, keys: iset<Key>, b: Bucket, b': Bucket, k: Key, value: Value, id: nat, other: Key)
    requires Separate(c, keys) && Placed(c, keys, c.Index(k), b) && k in keys && other in keys && other != k
    requires value != Nil ==> |k| < c.maxKey
    requires c.Index(other) == c.Index(k) && b' == Updated(b, k, value, id)
    ensures forall j | 0 <= j < |b| && b[j].key == CStr(other) :: b[j] in b'
    ensures forall q | 0 <= q < |b'| && b'[q].key == CStr(other) :: b'[q] in b
  {
    CStrMatchesItself(other);
    var n := Find(b, k);
    assert n < 0 || b[n].key != CStr(other) by {
      if n >= 0 {
        assert PlacedAt(c, keys, c.Index(k), b[n]);
        var o :| Owns(c, keys, c.Index(k), o, b[n]);
        assert !Collides(c, o, other) && !Collides(c, o, k);
      }
    }
    assert value == Nil || CStr(k) != CStr(other) by { assert !Collides(c, k, other); }
    hide Find, CStr, StrNCmpEqual, Separate, Placed, Updated, Lookup;
    FoundMeans(b, k, value, id);
    if n < 0 {
    } else if value != Nil {
      ReplacedOthers(b, n, Entry(id, CStr(k), value), CStr(other));
    } else {
      RemovedOthers(b, n, CStr(other));
    }
  }

  lemma ReplacedOthers(b: Bucket, n: nat, node: Entry, key: Key)
    requires n < |b| && b[n].key != key && node.key != key
    ensures var b' := b[n := node];
            && (forall j | 0 <= j < |b| && b[j].key == key :: b[j] in b')
            && (forall q | 0 <= q < |b'| && b'[q].key == key :: b'[q] in b)
  {
    var b' := b[n := node];
    assert forall j | 0 <= j < |b| && j != n :: b'[j] == b[j];
  }

  lemma RemovedOthers(b: Bucket, n: nat, key: Key)
    requires n < |b| && b[n].key != key
    ensures var b' := b[..n] + b[n + 1..];
            && (forall j | 0 <= j < |b| && b[j].key == key :: b[j] in b')
            && (forall q | 0 <= q < |b'| && b'[q].key == key :: b'[q] in b)
  {
    var b' := b[..n] + b[n + 1..];
    assert forall q | 0 <= q < |b'| :: b'[q] == b[if q < n then q else q + 1];
    forall j | 0 <= j < |b| && b[j].key == key ensures b[j] in b' {
      assert b'[if j < n then j else j - 1] == b[j];
    }
  }

  lemma StepKeepsRep(c: Config, keys: iset<Key>, t: Snapshot, m: map<Key, Value>, op: Op)
    requires Separate(c, keys) && Rep(c, keys, t, m) && op.key in keys
    ensures Rep(c, keys, TableStep(c, t, op).0, MapStep(c, m, op).0)
    ensures TableStep(c, t, op).1 == MapStep(c, m, op).1
  {
    assert AgreesOn(m, op.key, t.buckets[c.Index(op.key)]);
    if op.Set? && Stores(c.maxKey, op.key, op.value, op.memory) {
      SetKeepsRep(c, keys, t, m, op);
    }
  }

  lemma SetKeepsRep(c: Config, keys: iset<Key>, t: Snapshot, m: map<Key, Value>, op: Op)
    requires Separate(c, keys) && Rep(c, keys, t, m) && op.Set? && op.key in keys
    requires Stores(c.maxKey, op.key, op.value, op.memory)
    ensures Rep(c, keys, TableStep(c, t, op).0, MapStep(c, m, op).0)
  {
    var i, t', m' := c.Index(op.key), TableStep(c, t, op).0, MapStep(c, m, op).0;
    UpdatePlaced(c, keys, t.buckets[i], op.key, op.value, t.nextId);
    forall k | k in keys
      ensures AgreesOn(m', k, t'.buckets[c.Index(k)])
    {
      assert AgreesOn(m, k, t.buckets[c.Index(k)]);
      if c.Index(k) == i {
        UpdateAnswers(c, keys, t.buckets[i], op.key, op.value, t.nextId, k);
      }
    }
  }

  lemma {:induction false} SeparateAnswers(c: Config, keys: iset<Key>, t: Snapshot, m: map<Key, Value>, ops: seq<Op>)
    requires Separate(c, keys) && Rep(c, keys, t, m) && Over(ops, keys)
    ensures TableAnswers(c, t, ops) == MapAnswers(c, m, ops)
    decreases |ops|
  {
    if ops == [] {
    } else {
      StepKeepsRep(c, keys, t, m, ops[0]);
      SeparateAnswers(c, keys, TableStep(c, t, ops[0]).0, MapStep(c, m, ops[0]).0, ops[1..]);
    }
  }

  /** A collision shows at once: store under one key, look up the other. */
  lemma CollisionShows(c: Config, a: Key, b: Key)
    requires Collides(c, a, b)
    ensures var ops := [Set(a, Integer(1), true), Get(b)];
            TableAnswers(c, EmptyTable(c), ops) == [Stored(true), Got(Integer(1))]
            && MapAnswers(c, map[], ops) == [Stored(true), Got(Nil)]
  {
    var ops := [Set(a, Integer(1), true), Get(b)];
    var t := TableStep(c, EmptyTable(c), ops[0]).0;
    assert ops[1..] == [Get(b)] && ops[1..][1..] == [];
    assert t.buckets[c.Index(a)] == [Entry(0, CStr(a), Integer(1))];
    assert TableAnswers(c, t, ops[1..]) == [Got(Integer(1))];
    var m := MapStep(c, map[], ops[0]).0;
    assert MapAnswers(c, m, ops[1..]) == [Got(Nil)];
  }

  /** Every sequence of sets, gets and deletions over a set of keys is answered as by a finite
      map if and only if no two of the keys collide. */
  lemma MapIffSeparate(c: Config, keys: iset<Key>)
    ensures BehavesAsMap(c, keys) <==> Separate(c, keys)
  {
    if Separate(c, keys) {
      forall ops | Over(ops, keys)
        ensures TableAnswers(c, EmptyTable(c), ops) == MapAnswers(c, map[], ops)
      {
        SeparateAnswers(c, keys, EmptyTable(c), map[], ops);
      }
    }
    if BehavesAsMap(c, keys) {
      forall a, b | a in keys && b in keys
        ensures !Collides(c, a, b)
      {
        if Collides(c, a, b) {
          CollisionShows(c, a, b);
          assert Over([Set(a, Integer(1), true), Get(b)], keys);
        }
      }
    }
  }
}
