/** Iteration over an rcu table while its entries change (lib/luarcu.c): `luarcu_map`, whose callback may set any
    keys of the table, and `luarcu_release`.

    The iteration holds the address of the node after the one it visits. A callback may delete or replace that
    node too; the address then dangles, and nothing is said about what the code does from there on. */
module RcuIteration {
  import opened Bytes
  import opened RcuTable
  import opened RcuMap

  // ---- addresses of nodes ----

  /** Node addresses are below the next one and distinct within a bucket. */
  predicate Addressed(b: Bucket, nextId: nat) {
    && (forall i | 0 <= i < |b| :: b[i].id < nextId)
    && (forall i, j | 0 <= i < j < |b| :: b[i].id != b[j].id)
  }

  /** No node of one bucket has the address of a node of the other. */
  predicate Elsewhere(b: Bucket, d: Bucket) {
    forall p, q | 0 <= p < |b| && 0 <= q < |d| :: b[p].id != d[q].id
  }

  /** Addresses are distinct over the whole table. */
  predicate AddressedAll(t: Snapshot) {
    && (forall k | 0 <= k < |t.buckets| :: Addressed(t.buckets[k], t.nextId))
    && (forall k, l | 0 <= k < |t.buckets| && 0 <= l < |t.buckets| && k != l :: Elsewhere(t.buckets[k], t.buckets[l]))
  }

  /** Where the node at address `id` is, or -1. */
  function Seek(b: Bucket, id: nat): (i: int)
    ensures -1 <= i < |b|
    ensures i >= 0 ==> b[i].id == id
    ensures i < 0 ==> forall j | 0 <= j < |b| :: b[j].id != id
  {
    if b == [] then -1
    else if b[|b| - 1].id == id then |b| - 1
    else Seek(b[..|b| - 1], id)
  }

  lemma OthersDiffer(b: Bucket, nextId: nat, i: nat)
    requires Addressed(b, nextId) && i < |b|
    ensures forall j | 0 <= j < |b| && j != i :: b[j].id != b[i].id
  {
  }

  lemma SeekAt(b: Bucket, nextId: nat, i: nat)
    requires Addressed(b, nextId) && i < |b|
    ensures Seek(b, b[i].id) == i
  {
    hide Seek;
    OthersDiffer(b, nextId, i);
  }

  datatype Pointer = Null | Node(id: nat)

  function PointerTo(b: Bucket, i: nat): Pointer {
    if i < |b| then Node(b[i].id) else Null
  }

  // ---- what a set does to the nodes of a bucket ----

  /** `b'` is `b` after a set of a key found at `f` (or nowhere, -1): a new node in front, one in place of another, or
      one less. */
  predicate Reshaped(b: Bucket, b': Bucket, value: Value, f: int, id: nat) {
    && -1 <= f < |b|
    && if value != Nil && f < 0 then |b'| == |b| + 1 && b'[0].id == id && forall q | 0 < q < |b'| :: b'[q] == b[q - 1]
       else if value != Nil then |b'| == |b| && b'[f].id == id && forall q | 0 <= q < |b| && q != f :: b'[q] == b[q]
       else if f < 0 then b' == b
       else |b'| == |b| - 1 && forall q | 0 <= q < |b'| :: b'[q] == b[if q < f then q else q + 1]
  }

  lemma UpdatedNodes(b: Bucket, key: Key, value: Value, id: nat)
    ensures Reshaped(b, Updated(b, key, value, id), value, Find(b, key), id)
  {
    hide Find, CStr, Updated, Lookup;
    FoundMeans(b, key, value, id);
    var b', f, node := Updated(b, key, value, id), Find(b, key), Entry(id, CStr(key), value);
    if value != Nil && f < 0 {
      assert b' == [node] + b;
      assert forall q | 0 < q < |b'| :: b'[q] == b[q - 1];
    } else if value == Nil && f >= 0 {
      assert b' == b[..f] + b[f + 1..];
      assert forall q | 0 <= q < |b'| :: b'[q] == b[if q < f then q else q + 1];
    }
  }

  /** Where a node at `p` other than the one found goes. */
  function Moved(value: Value, f: int, p: nat): nat {
    if value != Nil && f < 0 then p + 1 else if value == Nil && 0 <= f < p then p - 1 else p
  }

  lemma UpdateKeepsAddresses(b: Bucket, key: Key, value: Value, id: nat)
    requires Addressed(b, id)
    ensures Addressed(Updated(b, key, value, id), id + if value != Nil then 1 else 0)
  {
    UpdatedNodes(b, key, value, id);
    hide Find, CStr, Updated;
    var b', f := Updated(b, key, value, id), Find(b, key);
    if value != Nil && f < 0 {
      assert forall q | 0 < q < |b'| :: b'[q] == b[q - 1];
    }
  }

  lemma StepKeepsAddresses(c: Config, t: Snapshot, op: Op)
    requires |t.buckets| == c.Size() && AddressedAll(t)
    ensures AddressedAll(TableStep(c, t, op).0) && TableStep(c, t, op).0.nextId >= t.nextId
  {
    hide Updated, Lookup, Addressed, Elsewhere, BitAnd, Pow2;
    if op.Set? {
      var i := c.Index(op.key);
      UpdateKeepsAddresses(t.buckets[i], op.key, op.value, t.nextId);
      forall k | 0 <= k < |t.buckets| && k != i
        ensures Elsewhere(t.buckets[k], Updated(t.buckets[i], op.key, op.value, t.nextId))
        ensures Elsewhere(Updated(t.buckets[i], op.key, op.value, t.nextId), t.buckets[k])
      {
        UpdateStaysElsewhere(t.buckets[k], t.buckets[i], op.key, op.value, t.nextId);
      }
    }
    var t' := TableStep(c, t, op).0;
    forall k | 0 <= k < |t'.buckets| ensures Addressed(t'.buckets[k], t'.nextId) {
      assert Addressed(t.buckets[k], t.nextId);
      AddressedLater(t.buckets[k], t.nextId, t'.nextId);
    }
  }

  lemma AddressedLater(b: Bucket, nextId: nat, later: nat)
    requires Addressed(b, nextId) && nextId <= later
    ensures Addressed(b, later)
  {
  }

  lemma UpdateStaysElsewhere(d: Bucket, b: Bucket, key: Key, value: Value, id: nat)
    requires Addressed(d, id) && Elsewhere(d, b)
    ensures Elsewhere(d, Updated(b, key, value, id)) && Elsewhere(Updated(b, key, value, id), d)
  {
    hide Updated;
    var b' := Updated(b, key, value, id);
    UpdatedIds(b, key, value, id);
    forall p, q | 0 <= p < |d| && 0 <= q < |b'| ensures d[p].id != b'[q].id {
      if b'[q].id != id { var r :| 0 <= r < |b| && b[r] == b'[q]; }
    }
  }

  lemma UpdatedIds(b: Bucket, key: Key, value: Value, id: nat)
    ensures var b' := Updated(b, key, value, id); forall q | 0 <= q < |b'| :: b'[q].id == id || b'[q] in b
  {
    UpdatedNodes(b, key, value, id);
    hide Find, CStr, Updated;
    var b', f := Updated(b, key, value, id), Find(b, key);
    forall q | 0 <= q < |b'| && b'[q].id != id ensures b'[q] in b {
      assert b'[q] == b[if value != Nil && f < 0 then q - 1 else if value == Nil && 0 <= f <= q then q + 1 else q];
    }
  }

  // ---- callbacks ----

  datatype Assignment = Assignment(key: Key, value: Value, memory: bool)

  /** What a callback does: it sets keys of the table, one after the other, and then returns or raises. */
  datatype Effect = Effect(sets: seq<Assignment>, raises: bool)

  type Callback = (nat, Key, Value) -> Effect

  ghost predicate Sound(c: Config, t: Snapshot) {
    |t.buckets| == c.Size() && AddressedAll(t)
  }

  function SetOne(c: Config, t: Snapshot, a: Assignment): (t': Snapshot)
    requires |t.buckets| == c.Size()
    ensures |t'.buckets| == c.Size()
  {
    TableStep(c, t, Set(a.key, a.value, a.memory)).0
  }

  function SetAll(c: Config, t: Snapshot, sets: seq<Assignment>): (t': Snapshot)
    requires |t.buckets| == c.Size()
    ensures |t'.buckets| == c.Size()
    decreases |sets|
  {
    if sets == [] then t else SetAll(c, SetOne(c, t, sets[0]), sets[1..])
  }

  lemma {:induction false} SetAllKeepsAddresses(c: Config, t: Snapshot, sets: seq<Assignment>)
    requires Sound(c, t)
    ensures Sound(c, SetAll(c, t, sets)) && SetAll(c, t, sets).nextId >= t.nextId
    decreases |sets|
  {
    if sets == [] {
      assert SetAll(c, t, sets) == t;
    } else {
      StepKeepsAddresses(c, t, Set(sets[0].key, sets[0].value, sets[0].memory));
      SetAllKeepsAddresses(c, SetOne(c, t, sets[0]), sets[1..]);
    }
  }

  /** The assignment deletes or replaces the node at address `id` of bucket `k`. */
  predicate HitBy(c: Config, t: Snapshot, k: nat, id: nat, a: Assignment)
    requires |t.buckets| == c.Size() && k < c.Size()
  {
    && c.Index(a.key) == k && Stores(c.maxKey, a.key, a.value, a.memory)
    && Find(t.buckets[k], a.key) >= 0 && t.buckets[k][Find(t.buckets[k], a.key)].id == id
  }

  /** Some assignment does. */
  predicate Hit(c: Config, t: Snapshot, k: nat, id: nat, sets: seq<Assignment>)
    requires |t.buckets| == c.Size() && k < c.Size()
    decreases |sets|
  {
    sets != [] && (HitBy(c, t, k, id, sets[0]) || Hit(c, SetOne(c, t, sets[0]), k, id, sets[1..]))
  }

  /** From `b` to `b'`, seen from places `i` and `i'`: no more nodes are ahead, those ahead were ahead or are new,
      and those that were ahead still are or are gone. */
  ghost predicate Follows(b: Bucket, i: nat, b': Bucket, i': nat, nextId: nat) {
    && i <= |b| && i' <= |b'| && |b'| - i' <= |b| - i
    && (forall q | i' <= q < |b'| :: b'[q] in b[i..] || b'[q].id >= nextId)
    && (forall p | i <= p < |b| :: b[p] in b'[i'..] || Seek(b', b[p].id) < 0)
  }

  lemma Ahead(b: Bucket, i: nat, q: nat)
    requires i <= q < |b|
    ensures b[q] in b[i..]
  {
    assert b[i..][q - i] == b[q];
  }

  lemma FollowsItself(b: Bucket, i: nat, nextId: nat)
    requires i <= |b|
    ensures Follows(b, i, b, i, nextId)
  {
    forall q | i <= q < |b| ensures b[q] in b[i..] { Ahead(b, i, q); }
  }

  lemma FollowsOn(a: Bucket, i: nat, b: Bucket, j: nat, d: Bucket, l: nat, id: nat, id': nat)
    requires Follows(a, i, b, j, id) && Follows(b, j, d, l, id') && id <= id'
    requires forall p | 0 <= p < |a| :: a[p].id < id
    requires forall x: nat | x < id && Seek(b, x) < 0 :: Seek(d, x) < 0
    ensures Follows(a, i, d, l, id)
  {
    hide Seek;
    forall q | l <= q < |d| ensures d[q] in a[i..] || d[q].id >= id {
      if d[q] in b[j..] { var r :| j <= r < |b| && b[r] == d[q]; }
    }
    forall p | i <= p < |a| ensures a[p] in d[l..] || Seek(d, a[p].id) < 0 {
      if a[p] in b[j..] { var r :| j <= r < |b| && b[r] == a[p]; }
    }
  }

  lemma MovesTo(b: Bucket, b': Bucket, value: Value, f: int, id: nat, p: nat)
    requires Reshaped(b, b', value, f, id) && p < |b| && p != f
    ensures Moved(value, f, p) < |b'| && b'[Moved(value, f, p)] == b[p]
  {
  }

  lemma GoneNow(b: Bucket, b': Bucket, value: Value, f: nat, id: nat)
    requires Addressed(b, id) && f < |b| && Reshaped(b, b', value, f, id)
    ensures Seek(b', b[f].id) < 0
  {
    hide Seek;
    OthersDiffer(b, id, f);
    assert forall q | 0 <= q < |b'| :: b'[q].id != b[f].id;
  }

  lemma ReshapedFollows(b: Bucket, b': Bucket, value: Value, f: int, id: nat, i: nat)
    requires Addressed(b, id) && Reshaped(b, b', value, f, id) && i < |b| && i != f
    ensures Follows(b, i, b', Moved(value, f, i), id)
  {
    hide Seek;
    var i' := Moved(value, f, i);
    MovesTo(b, b', value, f, id, i);
    forall q | i' <= q < |b'| ensures b'[q] in b[i..] || b'[q].id >= id {
      var p := if value != Nil && f < 0 then q - 1 else if value == Nil && 0 <= f <= q then q + 1 else q;
      if !(value != Nil && q == f) { Ahead(b, i, p); }
    }
    forall p | i <= p < |b| ensures b[p] in b'[i'..] || Seek(b', b[p].id) < 0 {
      if p == f {
        GoneNow(b, b', value, p, id);
      } else {
        MovesTo(b, b', value, f, id, p);
        Ahead(b', i', Moved(value, f, p));
      }
    }
  }

  /** One set either hits the node or leaves it and what is ahead of it. */
  lemma UpdateFollows(b: Bucket, key: Key, value: Value, id: nat, i: nat)
    requires Addressed(b, id) && i < |b|
    ensures var b' := Updated(b, key, value, id);
            if Find(b, key) == i then Seek(b', b[i].id) < 0
            else var i' := Seek(b', b[i].id); i' >= 0 && b'[i'] == b[i] && Follows(b, i, b', i', id)
  {
    UpdatedNodes(b, key, value, id);
    UpdateKeepsAddresses(b, key, value, id);
    var b', f := Updated(b, key, value, id), Find(b, key);
    hide Find, CStr, Updated, Seek, Reshaped, Follows;
    if f == i {
      GoneNow(b, b', value, i, id);
    } else {
      MovesTo(b, b', value, f, id, i);
      SeekAt(b', id + if value != Nil then 1 else 0, Moved(value, f, i));
      ReshapedFollows(b, b', value, f, id, i);
    }
  }

  /** An old node that is gone stays gone, and an old node that is there was there. */
  lemma UpdateOld(b: Bucket, key: Key, value: Value, id: nat)
    ensures var b' := Updated(b, key, value, id);
            && (forall x: nat | x < id && Seek(b, x) < 0 :: Seek(b', x) < 0)
            && (forall q | 0 <= q < |b'| && b'[q].id < id :: b'[q] in b)
  {
    UpdatedNodes(b, key, value, id);
    var b', f := Updated(b, key, value, id), Find(b, key);
    hide Find, CStr, Updated, Seek;
    forall q | 0 <= q < |b'| && b'[q].id < id ensures b'[q] in b {
      assert b'[q] == b[if value != Nil && f < 0 then q - 1 else if value == Nil && 0 <= f <= q then q + 1 else q];
    }
    forall x: nat | x < id && Seek(b, x) < 0 ensures Seek(b', x) < 0 {
      assert forall q | 0 <= q < |b'| :: b'[q].id != x;
    }
  }

  /** Bucket `k` of a later table: nodes that were gone are gone, and old ones that are there were there. */
  ghost predicate Ages(t: Snapshot, t': Snapshot, k: nat)
    requires k < |t.buckets| && k < |t'.buckets|
  {
    && t.nextId <= t'.nextId
    && (forall x: nat | x < t.nextId && Seek(t.buckets[k], x) < 0 :: Seek(t'.buckets[k], x) < 0)
    && (forall q | 0 <= q < |t'.buckets[k]| && t'.buckets[k][q].id < t.nextId :: t'.buckets[k][q] in t.buckets[k])
  }

  lemma AgesOn(t: Snapshot, u: Snapshot, w: Snapshot, k: nat)
    requires k < |t.buckets| && k < |u.buckets| && k < |w.buckets| && Ages(t, u, k) && Ages(u, w, k)
    ensures Ages(t, w, k)
  {
    hide Seek;
    var b, d := u.buckets[k], w.buckets[k];
    forall q | 0 <= q < |d| && d[q].id < t.nextId ensures d[q] in t.buckets[k] {
      assert d[q] in b;
      var r :| 0 <= r < |b| && b[r] == d[q];
    }
  }

  lemma SetOneAges(c: Config, t: Snapshot, a: Assignment, k: nat)
    requires |t.buckets| == c.Size() && k < c.Size()
    ensures Ages(t, SetOne(c, t, a), k)
  {
    if c.Index(a.key) == k { UpdateOld(t.buckets[k], a.key, a.value, t.nextId); }
    hide Updated, Seek;
  }

  lemma {:induction false} SetAllAges(c: Config, t: Snapshot, sets: seq<Assignment>, k: nat)
    requires |t.buckets| == c.Size() && k < c.Size()
    ensures Ages(t, SetAll(c, t, sets), k)
    decreases |sets|
  {
    hide SetOne, Seek;
    if sets == [] {
      assert SetAll(c, t, sets) == t;
    } else {
      SetOneAges(c, t, sets[0], k);
      SetAllAges(c, SetOne(c, t, sets[0]), sets[1..], k);
      hide Ages;
      AgesOn(t, SetOne(c, t, sets[0]), SetAll(c, t, sets), k);
    }
  }

  lemma SetOneFollows(c: Config, t: Snapshot, a: Assignment, k: nat, i: nat)
    requires Sound(c, t) && k < c.Size() && i < |t.buckets[k]|
    ensures var b, b' := t.buckets[k], SetOne(c, t, a).buckets[k];
            if HitBy(c, t, k, b[i].id, a) then Seek(b', b[i].id) < 0
            else var i' := Seek(b', b[i].id); i' >= 0 && b'[i'] == b[i] && Follows(b, i, b', i', t.nextId)
  {
    SetOneBucket(c, t, a, k);
    hide SetOne, Updated, Seek, Follows, Find, BitAnd, Pow2;
    var b := t.buckets[k];
    assert Addressed(b, t.nextId);
    OthersDiffer(b, t.nextId, i);
    if c.Index(a.key) == k && Stores(c.maxKey, a.key, a.value, a.memory) {
      UpdateFollows(b, a.key, a.value, t.nextId, i);
    } else {
      SeekAt(b, t.nextId, i);
      FollowsItself(b, i, t.nextId);
    }
  }

  lemma SetOneBucket(c: Config, t: Snapshot, a: Assignment, k: nat)
    requires |t.buckets| == c.Size() && k < c.Size()
    ensures SetOne(c, t, a).buckets[k] ==
              if c.Index(a.key) == k && Stores(c.maxKey, a.key, a.value, a.memory)
              then Updated(t.buckets[k], a.key, a.value, t.nextId) else t.buckets[k]
  {
    hide Updated, BitAnd, Pow2;
  }

  /** All the sets of a callback hit the node, or leave it and what is ahead of it. */
  lemma {:induction false} SetAllFollows(c: Config, t: Snapshot, sets: seq<Assignment>, k: nat, i: nat)
    requires Sound(c, t) && k < c.Size() && i < |t.buckets[k]|
    ensures var b, b' := t.buckets[k], SetAll(c, t, sets).buckets[k];
            if Hit(c, t, k, b[i].id, sets) then Seek(b', b[i].id) < 0
            else var i' := Seek(b', b[i].id); i' >= 0 && b'[i'] == b[i] && Follows(b, i, b', i', t.nextId)
    decreases |sets|
  {
    hide SetOne, Seek, Follows, HitBy, Ages;
    var b := t.buckets[k];
    assert Addressed(b, t.nextId);
    if sets == [] {
      assert SetAll(c, t, sets) == t;
      SeekAt(b, t.nextId, i);
      FollowsItself(b, i, t.nextId);
    } else {
      var u, w := SetOne(c, t, sets[0]), SetAll(c, t, sets);
      var d, x := u.buckets[k], b[i].id;
      SetOneFollows(c, t, sets[0], k, i);
      SetAllKeepsAddresses(c, t, [sets[0]]);
      assert SetAll(c, t, [sets[0]]) == u by { assert [sets[0]][1..] == [] && SetAll(c, u, []) == u; }
      SetAllAges(c, u, sets[1..], k);
      if HitBy(c, t, k, x, sets[0]) {
        AgesGone(u, w, k, x);
      } else {
        var j := Seek(d, x);
        SetAllFollows(c, u, sets[1..], k, j);
        if !Hit(c, t, k, x, sets) {
          FollowsAged(t, u, w, k, i, j, Seek(w.buckets[k], x));
        }
      }
    }
  }

  lemma AgesGone(t: Snapshot, t': Snapshot, k: nat, x: nat)
    requires k < |t.buckets| && k < |t'.buckets| && Ages(t, t', k) && x < t.nextId && Seek(t.buckets[k], x) < 0
    ensures Seek(t'.buckets[k], x) < 0
  {
  }

  lemma FollowsAged(t: Snapshot, u: Snapshot, w: Snapshot, k: nat, i: nat, j: nat, l: nat)
    requires k < |t.buckets| && k < |u.buckets| && k < |w.buckets| && Ages(u, w, k) && t.nextId <= u.nextId
    requires Addressed(t.buckets[k], t.nextId)
    requires Follows(t.buckets[k], i, u.buckets[k], j, t.nextId) && Follows(u.buckets[k], j, w.buckets[k], l, u.nextId)
    ensures Follows(t.buckets[k], i, w.buckets[k], l, t.nextId)
  {
    FollowsOn(t.buckets[k], i, u.buckets[k], j, w.buckets[k], l, t.nextId, u.nextId);
  }

  // ---- the iteration ----

  /** Over, ended by a raising callback, or at an address that dangles. */
  datatype Ending = Finished | Raised | Dangling

  /** The table afterwards and the nodes visited, as they were when visited. */
  datatype Trip = Trip(t: Snapshot, visited: seq<Entry>, end: Ending)

  function AheadOf(b: Bucket, pos: Pointer): nat {
    if pos.Null? || Seek(b, pos.id) < 0 then 0 else |b| - Seek(b, pos.id)
  }

  /** From the node at `pos` of bucket `k` on, where the first visit is number `visits`. */
  function VisitBucket(c: Config, t: Snapshot, k: nat, pos: Pointer, cb: Callback, visits: nat): (trip: Trip)
    requires Sound(c, t) && k < c.Size()
    ensures Sound(c, trip.t) && trip.t.nextId >= t.nextId
    decreases AheadOf(t.buckets[k], pos)
  {
    var b := t.buckets[k];
    if pos.Null? then Trip(t, [], Finished)
    else if Seek(b, pos.id) < 0 then Trip(t, [], Dangling)
    else
      var i := Seek(b, pos.id);
      var next := PointerTo(b, i + 1);
      var f := cb(visits, b[i].key, b[i].value);
      var t' := SetAll(c, t, f.sets);
      SetAllKeepsAddresses(c, t, f.sets);
      if f.raises then Trip(t', [b[i]], Raised)
      else
        LessAhead(c, t, f.sets, k, i);
        var rest := VisitBucket(c, t', k, next, cb, visits + 1);
        Trip(rest.t, [b[i]] + rest.visited, rest.end)
  }

  lemma LessAhead(c: Config, t: Snapshot, sets: seq<Assignment>, k: nat, i: nat)
    requires Sound(c, t) && k < c.Size() && i < |t.buckets[k]|
    ensures AheadOf(SetAll(c, t, sets).buckets[k], PointerTo(t.buckets[k], i + 1)) < |t.buckets[k]| - i
  {
    hide SetAll, Hit;
    if i + 1 < |t.buckets[k]| { SetAllFollows(c, t, sets, k, i + 1); }
  }

  /** The nodes visited in each bucket. */
  datatype Journey = Journey(t: Snapshot, visited: seq<seq<Entry>>, end: Ending)

  /** From bucket `k` on. */
  function VisitTable(c: Config, t: Snapshot, k: nat, cb: Callback, visits: nat): (j: Journey)
    requires Sound(c, t) && k <= c.Size()
    ensures Sound(c, j.t)
    decreases c.Size() - k
  {
    if k == c.Size() then Journey(t, [], Finished)
    else
      var trip := VisitBucket(c, t, k, PointerTo(t.buckets[k], 0), cb, visits);
      if trip.end != Finished then Journey(trip.t, [trip.visited], trip.end)
      else
        var rest := VisitTable(c, trip.t, k + 1, cb, visits + |trip.visited|);
        Journey(rest.t, [trip.visited] + rest.visited, rest.end)
  }

  ghost function Shot(t: Table): Snapshot
    reads t
  {
    Snapshot(t.buckets, t.nextId)
  }

  lemma SetAllStep(c: Config, t: Snapshot, sets: seq<Assignment>, i: nat)
    requires |t.buckets| == c.Size() && i < |sets|
    ensures SetAll(c, t, sets[i..]) == SetAll(c, SetOne(c, t, sets[i]), sets[i + 1..])
  {
    hide SetOne;
    assert sets[i..][1..] == sets[i + 1..] && sets[i..][0] == sets[i];
  }

  lemma NoMoreSets(c: Config, t: Snapshot, sets: seq<Assignment>)
    requires |t.buckets| == c.Size()
    ensures SetAll(c, t, sets[|sets|..]) == t
  {
    assert sets[|sets|..] == [];
  }

  /** The sets of a callback. */
  method Perform(t: Table, sets: seq<Assignment>)
    requires t.Valid()
    modifies t
    ensures t.Valid() && Shot(t) == SetAll(t.config, old(Shot(t)), sets)
  {
    hide HeldByAll, Updated, Lookup, BitAnd, Pow2, SetAll, CountsUses, Exchanged, Held;
    assert sets[0..] == sets;
    for i := 0 to |sets|
      invariant t.Valid() && SetAll(t.config, Shot(t), sets[i..]) == SetAll(t.config, old(Shot(t)), sets)
    {
      SetAllStep(t.config, Shot(t), sets, i);
      var ok := t.SetValue(sets[i].key, sets[i].value, sets[i].memory);
    }
    NoMoreSets(t.config, Shot(t), sets);
  }

  /** A trip preceded by visits already made. */
  function After(visited: seq<Entry>, trip: Trip): Trip {
    Trip(trip.t, visited + trip.visited, trip.end)
  }

  /** The end of a trip, and one visit of it. */
  lemma VisitEnd(c: Config, t: Snapshot, k: nat, pos: Pointer, cb: Callback, visits: nat, before: seq<Entry>)
    requires Sound(c, t) && k < c.Size() && (pos.Null? || Seek(t.buckets[k], pos.id) < 0)
    ensures After(before, VisitBucket(c, t, k, pos, cb, visits)) == Trip(t, before, if pos.Null? then Finished else Dangling)
  {
    hide Seek, AddressedAll;
    assert before + [] == before;
  }

  lemma VisitOne(c: Config, t: Snapshot, k: nat, pos: Pointer, cb: Callback, visits: nat, before: seq<Entry>)
    requires Sound(c, t) && k < c.Size() && pos.Node? && Seek(t.buckets[k], pos.id) >= 0
    ensures var b := t.buckets[k];
            var i := Seek(b, pos.id);
            var f := cb(visits, b[i].key, b[i].value);
            var t', whole := SetAll(c, t, f.sets), After(before, VisitBucket(c, t, k, pos, cb, visits));
            && Sound(c, t') && t'.nextId >= t.nextId && AheadOf(t'.buckets[k], PointerTo(b, i + 1)) < AheadOf(b, pos)
            && whole == if f.raises then Trip(t', before + [b[i]], Raised)
                        else After(before + [b[i]], VisitBucket(c, t', k, PointerTo(b, i + 1), cb, visits + 1))
  {
    hide Seek, AddressedAll, SetAll;
    var b := t.buckets[k];
    var i := Seek(b, pos.id);
    var f := cb(visits, b[i].key, b[i].value);
    SetAllKeepsAddresses(c, t, f.sets);
    LessAhead(c, t, f.sets, k, i);
    var rest := VisitBucket(c, SetAll(c, t, f.sets), k, PointerTo(b, i + 1), cb, visits + 1).visited;
    assert before + ([b[i]] + rest) == before + [b[i]] + rest;
  }

  /** One bucket: the next address is read before the callback runs. */
  method MapBucket(t: Table, k: nat, cb: Callback, visits: nat) returns (visited: seq<Entry>, end: Ending)
    requires t.Valid() && Sound(t.config, Shot(t)) && k < t.config.Size()
    modifies t
    ensures t.Valid() && Sound(t.config, Shot(t))
    ensures Trip(Shot(t), visited, end) == VisitBucket(t.config, old(Shot(t)), k, PointerTo(old(t.buckets)[k], 0), cb, visits)
  {
    hide HeldByAll, BitAnd, Pow2, SetAll, AddressedAll, VisitBucket, AheadOf, Seek;
    visited := [];
    var pos := PointerTo(t.buckets[k], 0);
    ghost var whole := VisitBucket(t.config, Shot(t), k, pos, cb, visits);
    assert After([], whole) == whole;
    while pos.Node?
      invariant t.Valid() && Sound(t.config, Shot(t))
      invariant whole == After(visited, VisitBucket(t.config, Shot(t), k, pos, cb, visits + |visited|))
      decreases AheadOf(t.buckets[k], pos)
    {
      var i := Seek(t.buckets[k], pos.id);
      if i < 0 {
        VisitEnd(t.config, Shot(t), k, pos, cb, visits + |visited|, visited);
        return visited, Dangling;
      }
      VisitOne(t.config, Shot(t), k, pos, cb, visits + |visited|, visited);
      var e := t.buckets[k][i];
      var next := PointerTo(t.buckets[k], i + 1);
      var f := cb(visits + |visited|, e.key, e.value);
      Perform(t, f.sets);
      visited := visited + [e];
      if f.raises { return visited, Raised; }
      pos := next;
    }
    VisitEnd(t.config, Shot(t), k, pos, cb, visits + |visited|, visited);
    return visited, Finished;
  }

  /** The end of a journey, and one bucket of it, after buckets already visited. */
  lemma VisitNone(c: Config, t: Snapshot, cb: Callback, visits: nat, before: seq<seq<Entry>>)
    requires Sound(c, t)
    ensures var j := VisitTable(c, t, c.Size(), cb, visits);
            Journey(j.t, before + j.visited, j.end) == Journey(t, before, Finished)
  {
    assert before + [] == before;
  }

  lemma VisitNext(c: Config, t: Snapshot, k: nat, cb: Callback, visits: nat, before: seq<seq<Entry>>)
    requires Sound(c, t) && k < c.Size()
    ensures var j := VisitTable(c, t, k, cb, visits);
            var trip := VisitBucket(c, t, k, PointerTo(t.buckets[k], 0), cb, visits);
            Journey(j.t, before + j.visited, j.end) ==
              if trip.end != Finished then Journey(trip.t, before + [trip.visited], trip.end)
              else
                var rest := VisitTable(c, trip.t, k + 1, cb, visits + |trip.visited|);
                Journey(rest.t, (before + [trip.visited]) + rest.visited, rest.end)
  {
    hide VisitBucket, AddressedAll;
    var trip := VisitBucket(c, t, k, PointerTo(t.buckets[k], 0), cb, visits);
    if trip.end == Finished {
      var rest := VisitTable(c, trip.t, k + 1, cb, visits + |trip.visited|);
      assert before + ([trip.visited] + rest.visited) == (before + [trip.visited]) + rest.visited;
    }
  }

  /** `luarcu_map`: bucket after bucket. */
  method MapEntries(t: Table, cb: Callback) returns (visited: seq<seq<Entry>>, end: Ending)
    requires t.Valid() && Sound(t.config, Shot(t))
    modifies t
    ensures t.Valid() && Sound(t.config, Shot(t))
    ensures Journey(Shot(t), visited, end) == VisitTable(t.config, old(Shot(t)), 0, cb, 0)
  {
    hide HeldByAll, BitAnd, Pow2, VisitBucket, VisitTable, AddressedAll;
    visited := [];
    var count: nat, k: nat := 0, 0;
    ghost var whole := VisitTable(t.config, Shot(t), 0, cb, 0);
    while k < |t.buckets|
      invariant t.Valid() && Sound(t.config, Shot(t)) && k <= t.config.Size()
      invariant var rest := VisitTable(t.config, Shot(t), k, cb, count);
                whole == Journey(rest.t, visited + rest.visited, rest.end)
      decreases t.config.Size() - k
    {
      VisitNext(t.config, Shot(t), k, cb, count, visited);
      var more;
      more, end := MapBucket(t, k, cb, count);
      visited := visited + [more];
      if end != Finished { return; }
      count := count + |more|;
      k := k + 1;
    }
    VisitNone(t.config, Shot(t), cb, count, visited);
    return visited, Finished;
  }

  /** `luarcu_release`: empties every bucket and puts each reference the table held exactly once. */
  method Release(t: Table) returns (put: multiset<nat>)
    requires t.Valid()
    modifies t
    ensures t.Valid() && |t.buckets| == |old(t.buckets)|
    ensures forall k | 0 <= k < |t.buckets| :: t.buckets[k] == []
    ensures put == old(t.held) && t.held == multiset{} && CountsUses(put, old(t.buckets))
  {
    HeldCountsUses(t.buckets);
    hide CountsUses;
    put := multiset{};
    ghost var held0 := t.held;
    var k := 0;
    while k < |t.buckets|
      invariant k <= |t.buckets| == |old(t.buckets)| && t.Valid() && put + t.held == held0
      invariant forall l | 0 <= l < k :: t.buckets[l] == []
    {
      var more := ReleaseBucket(t, k);
      AddAssociates(put, more, t.held);
      put := put + more;
      k := k + 1;
    }
    EmptyHoldsNothing(t.buckets);
  }

  method ReleaseBucket(t: Table, k: nat) returns (put: multiset<nat>)
    requires t.Valid() && k < |t.buckets|
    modifies t
    ensures t.Valid() && t.buckets == old(t.buckets)[k := []]
    ensures put + t.held == old(t.held)
  {
    hide HeldByAll, BitAnd, Pow2;
    put := multiset{};
    ghost var held0 := t.held;
    while t.buckets[k] != []
      invariant t.Valid() && k < |t.buckets| && t.buckets == old(t.buckets)[k := t.buckets[k]]
      invariant put + t.held == held0
      decreases |t.buckets[k]|
    {
      var entry := t.buckets[k][0];
      HeadHolds(t.buckets, k);
      ghost var rest := t.held - Held(entry.value);
      AddAssociates(put, Held(entry.value), rest);
      assert Held(entry.value) + rest == t.held;
      t.buckets := t.buckets[k := t.buckets[k][1..]];
      t.held := t.held - Held(entry.value);
      put := put + Held(entry.value);
    }
  }

  lemma HeadHolds(bs: seq<Bucket>, k: nat)
    requires k < |bs| && bs[k] != []
    ensures Held(bs[k][0].value) <= HeldByAll(bs)
    ensures HeldByAll(bs[k := bs[k][1..]]) == HeldByAll(bs) - Held(bs[k][0].value)
  {
    HeldByAllUpdate(bs, k, bs[k][1..]);
    HeldByOne(bs, k);
    hide HeldByAll;
    Balance(HeldByAll(bs[k := bs[k][1..]]), HeldBy(bs[k]), HeldByAll(bs), HeldBy(bs[k][1..]), Held(bs[k][0].value), multiset{});
  }
}
