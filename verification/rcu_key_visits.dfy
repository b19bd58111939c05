/** Iterations over keys that do not collide: which keys are visited (lib/luarcu.c, `luarcu_map`). */
module RcuKeyVisits {
  import opened Bytes
  import opened RcuTable
  import opened RcuMap
  import opened RcuIteration
  import opened RcuVisits

  ghost predicate PlacedAll(c: Config, keys: iset<Key>, t: Snapshot) {
    |t.buckets| == c.Size() && forall i | 0 <= i < c.Size() :: Placed(c, keys, i, t.buckets[i])
  }

  ghost predicate SetsOver(sets: seq<Assignment>, keys: iset<Key>) {
    forall i | 0 <= i < |sets| :: sets[i].key in keys
  }

  /** The callbacks set no other keys. */
  ghost predicate CallsOver(cb: Callback, keys: iset<Key>) {
    forall n, key, value :: SetsOver(cb(n, key, value).sets, keys)
  }

  predicate HasKey(b: Bucket, i: nat, key: Key) {
    exists p :: i <= p < |b| && b[p].key == key
  }

  /** No key is ahead of `i'` in `b'` that was not ahead of `i` in `b`. */
  predicate KeysAhead(b: Bucket, i: nat, b': Bucket, i': nat) {
    forall q | i' <= q < |b'| :: HasKey(b, i, b'[q].key)
  }

  lemma KeysAheadOn(b: Bucket, i: nat, d: Bucket, j: nat, e: Bucket, l: nat)
    requires KeysAhead(b, i, d, j) && KeysAhead(d, j, e, l)
    ensures KeysAhead(b, i, e, l)
  {
    forall q | l <= q < |e| ensures HasKey(b, i, e[q].key) {
      assert HasKey(d, j, e[q].key);
      var p :| j <= p < |d| && d[p].key == e[q].key;
      assert HasKey(b, i, d[p].key);
    }
  }

  // ---- one set ----

  lemma ReshapedKeys(b: Bucket, b': Bucket, value: Value, f: int, id: nat, i: nat)
    requires Reshaped(b, b', value, f, id) && i < |b| && i != f && (value != Nil && f >= 0 ==> b'[f].key == b[f].key)
    ensures KeysAhead(b, i, b', Moved(value, f, i))
  {
    var i' := Moved(value, f, i);
    forall q | i' <= q < |b'| ensures HasKey(b, i, b'[q].key) {
      var p := if value != Nil && f < 0 then q - 1 else if value == Nil && 0 <= f <= q then q + 1 else q;
      assert i <= p < |b| && b[p].key == b'[q].key;
    }
  }

  lemma UpdateKeys(c: Config, keys: iset<Key>, b: Bucket, key: Key, value: Value, id: nat, i: nat)
    requires Separate(c, keys) && Placed(c, keys, c.Index(key), b) && key in keys && Addressed(b, id)
    requires i < |b| && Find(b, key) != i
    ensures var b' := Updated(b, key, value, id);
            var i' := Seek(b', b[i].id); i' >= 0 && b'[i'] == b[i] && KeysAhead(b, i, b', i')
  {
    hide CStr, StrNCmpEqual, Find, Updated, Lookup, Separate, Placed, Seek, KeysAhead, Reshaped;
    var b', f := Updated(b, key, value, id), Find(b, key);
    FoundMeans(b, key, value, id);
    UpdatedNodes(b, key, value, id);
    UpdateKeepsAddresses(b, key, value, id);
    MovesTo(b, b', value, f, id, i);
    SeekAt(b', id + if value != Nil then 1 else 0, Moved(value, f, i));
    FindsOwn(c, keys, c.Index(key), b, key);
    ReshapedKeys(b, b', value, f, id, i);
  }

  lemma SetOnePlaced(c: Config, keys: iset<Key>, t: Snapshot, a: Assignment)
    requires Separate(c, keys) && PlacedAll(c, keys, t) && a.key in keys
    ensures PlacedAll(c, keys, SetOne(c, t, a))
  {
    hide Placed, Separate, Updated, BitAnd, Pow2, Lookup;
    if Stores(c.maxKey, a.key, a.value, a.memory) {
      UpdatePlaced(c, keys, t.buckets[c.Index(a.key)], a.key, a.value, t.nextId);
    }
  }

  lemma SetOneKeys(c: Config, keys: iset<Key>, t: Snapshot, a: Assignment, k: nat, i: nat)
    requires Separate(c, keys) && PlacedAll(c, keys, t) && Sound(c, t) && a.key in keys
    requires k < c.Size() && i < |t.buckets[k]| && !HitBy(c, t, k, t.buckets[k][i].id, a)
    ensures var b, b' := t.buckets[k], SetOne(c, t, a).buckets[k];
            var i' := Seek(b', b[i].id); i' >= 0 && b'[i'] == b[i] && KeysAhead(b, i, b', i')
  {
    SetOneBucket(c, t, a, k);
    hide SetOne, Updated, Seek, Find, BitAnd, Pow2, Separate, Placed, KeysAhead;
    var b := t.buckets[k];
    assert Addressed(b, t.nextId);
    if c.Index(a.key) == k && Stores(c.maxKey, a.key, a.value, a.memory) {
      UpdateKeys(c, keys, b, a.key, a.value, t.nextId, i);
    } else {
      SeekAt(b, t.nextId, i);
      SameKeysAhead(b, i);
    }
  }

  lemma SameKeysAhead(b: Bucket, i: nat)
    ensures KeysAhead(b, i, b, i)
  {
    forall q | i <= q < |b| ensures HasKey(b, i, b[q].key) { assert i <= q; }
  }

  // ---- all the sets of a callback ----

  lemma {:induction false} SetAllPlaced(c: Config, keys: iset<Key>, t: Snapshot, sets: seq<Assignment>)
    requires Separate(c, keys) && PlacedAll(c, keys, t) && SetsOver(sets, keys)
    ensures PlacedAll(c, keys, SetAll(c, t, sets))
    decreases |sets|
  {
    hide SetOne, PlacedAll, Separate;
    PlacedSize(c, keys, t);
    if sets == [] {
      assert SetAll(c, t, sets) == t;
    } else {
      SetOnePlaced(c, keys, t, sets[0]);
      SetAllPlaced(c, keys, SetOne(c, t, sets[0]), sets[1..]);
    }
  }

  lemma PlacedSize(c: Config, keys: iset<Key>, t: Snapshot)
    requires PlacedAll(c, keys, t)
    ensures |t.buckets| == c.Size()
  {
  }

  lemma {:induction false} SetAllKeys(c: Config, keys: iset<Key>, t: Snapshot, sets: seq<Assignment>, k: nat, i: nat)
    requires Separate(c, keys) && PlacedAll(c, keys, t) && Sound(c, t) && SetsOver(sets, keys)
    requires k < c.Size() && i < |t.buckets[k]| && !Hit(c, t, k, t.buckets[k][i].id, sets)
    ensures var b, b' := t.buckets[k], SetAll(c, t, sets).buckets[k];
            var i' := Seek(b', b[i].id); i' >= 0 && b'[i'] == b[i] && KeysAhead(b, i, b', i')
    decreases |sets|
  {
    hide SetOne, PlacedAll, Separate, Seek, KeysAhead, HitBy, AddressedAll;
    var b := t.buckets[k];
    if sets == [] {
      assert Addressed(b, t.nextId) by { AddressedAt(t, k); }
      SeekAt(b, t.nextId, i);
      SameKeysAhead(b, i);
    } else {
      var t1 := SetOne(c, t, sets[0]);
      SetOneKeys(c, keys, t, sets[0], k, i);
      SetOnePlaced(c, keys, t, sets[0]);
      SetOneSound(c, t, sets[0]);
      var i1 := Seek(t1.buckets[k], b[i].id);
      SetAllKeys(c, keys, t1, sets[1..], k, i1);
      var b' := SetAll(c, t, sets).buckets[k];
      KeysAheadOn(b, i, t1.buckets[k], i1, b', Seek(b', b[i].id));
    }
  }

  lemma AddressedAt(t: Snapshot, k: nat)
    requires AddressedAll(t) && k < |t.buckets|
    ensures Addressed(t.buckets[k], t.nextId)
  {
  }

  lemma SetOneSound(c: Config, t: Snapshot, a: Assignment)
    requires Sound(c, t)
    ensures Sound(c, SetOne(c, t, a))
  {
    StepKeepsAddresses(c, t, Set(a.key, a.value, a.memory));
  }

  // ---- a bucket ----

  /** Every key visited was ahead, and none is visited twice. */
  ghost predicate TripKeys(c: Config, keys: iset<Key>, b: Bucket, k: nat, i: nat, trip: Trip) {
    && PlacedAll(c, keys, trip.t) && DistinctKeys(trip.visited)
    && (forall j | 0 <= j < |trip.visited| :: HasKey(b, i, trip.visited[j].key) && PlacedAt(c, keys, k, trip.visited[j]))
  }

  lemma {:induction false} TripVisitsKeys(c: Config, keys: iset<Key>, t: Snapshot, k: nat, pos: Pointer, cb: Callback, visits: nat)
    requires Separate(c, keys) && PlacedAll(c, keys, t) && Sound(c, t) && CallsOver(cb, keys)
    requires k < c.Size() && (pos.Null? || Seek(t.buckets[k], pos.id) >= 0)
    ensures TripKeys(c, keys, t.buckets[k], k, StartOf(t.buckets[k], pos), VisitBucket(c, t, k, pos, cb, visits))
    decreases AheadOf(t.buckets[k], pos)
  {
    hide Seek, SetAll, Hit, Follows, AddressedAll, TripKeys, PlacedAll, Separate, KeysAhead;
    var b := t.buckets[k];
    if pos.Null? {
      NoKeys(c, keys, t, k);
    } else {
      var i := Seek(b, pos.id);
      var next, f := PointerTo(b, i + 1), cb(visits, b[i].key, b[i].value);
      var t' := SetAll(c, t, f.sets);
      assert SetsOver(f.sets, keys);
      SetAllKeepsAddresses(c, t, f.sets);
      SetAllPlaced(c, keys, t, f.sets);
      LessAhead(c, t, f.sets, k, i);
      if f.raises {
        OneKey(c, keys, t, k, i, Trip(t', [b[i]], Raised));
      } else {
        var rest := VisitBucket(c, t', k, next, cb, visits + 1);
        if next.Node? { SetAllFollows(c, t, f.sets, k, i + 1); }
        if next.Null? || Seek(t'.buckets[k], next.id) >= 0 {
          TripVisitsKeys(c, keys, t', k, next, cb, visits + 1);
          var i' := StartOf(t'.buckets[k], next);
          if next.Node? { SetAllKeys(c, keys, t, f.sets, k, i + 1); } else { NoneAhead(b, i + 1, t'.buckets[k]); }
          MoreKeys(c, keys, t, t', k, i, i', rest);
        } else {
          assert rest == Trip(t', [], Dangling);
          assert [b[i]] + [] == [b[i]];
          OneKey(c, keys, t, k, i, Trip(t', [b[i]], Dangling));
        }
      }
    }
  }

  lemma NoneAhead(b: Bucket, i: nat, b': Bucket)
    ensures KeysAhead(b, i, b', |b'|)
  {
  }

  lemma NoKeys(c: Config, keys: iset<Key>, t: Snapshot, k: nat)
    requires PlacedAll(c, keys, t) && k < c.Size()
    ensures TripKeys(c, keys, t.buckets[k], k, |t.buckets[k]|, Trip(t, [], Finished))
  {
    hide PlacedAll;
  }

  lemma NodeKey(c: Config, keys: iset<Key>, t: Snapshot, k: nat, i: nat)
    requires PlacedAll(c, keys, t) && k < c.Size() && i < |t.buckets[k]|
    ensures HasKey(t.buckets[k], i, t.buckets[k][i].key) && PlacedAt(c, keys, k, t.buckets[k][i]) && DistinctKeys(t.buckets[k])
  {
    hide PlacedAt;
    assert Placed(c, keys, k, t.buckets[k]);
    assert i <= i;
  }

  lemma OneKey(c: Config, keys: iset<Key>, t: Snapshot, k: nat, i: nat, trip: Trip)
    requires PlacedAll(c, keys, t) && k < c.Size() && i < |t.buckets[k]|
    requires PlacedAll(c, keys, trip.t) && trip.visited == [t.buckets[k][i]]
    ensures TripKeys(c, keys, t.buckets[k], k, i, trip)
  {
    hide PlacedAll, PlacedAt;
    NodeKey(c, keys, t, k, i);
  }

  lemma MoreKeys(c: Config, keys: iset<Key>, t: Snapshot, t': Snapshot, k: nat, i: nat, i': nat, rest: Trip)
    requires PlacedAll(c, keys, t) && |t'.buckets| == c.Size() && k < c.Size() && i < |t.buckets[k]|
    requires KeysAhead(t.buckets[k], i + 1, t'.buckets[k], i') && TripKeys(c, keys, t'.buckets[k], k, i', rest)
    ensures TripKeys(c, keys, t.buckets[k], k, i, Trip(rest.t, [t.buckets[k][i]] + rest.visited, rest.end))
  {
    hide PlacedAll, PlacedAt;
    PlacedSize(c, keys, t);
    NodeKey(c, keys, t, k, i);
    var b, b', all := t.buckets[k], t'.buckets[k], [t.buckets[k][i]] + rest.visited;
    forall j | 0 < j < |all| ensures HasKey(b, i, all[j].key) && all[j].key != b[i].key && PlacedAt(c, keys, k, all[j]) {
      assert HasKey(b', i', rest.visited[j - 1].key) && PlacedAt(c, keys, k, rest.visited[j - 1]);
      var q :| i' <= q < |b'| && b'[q].key == all[j].key;
      assert HasKey(b, i + 1, b'[q].key);
      var p :| i + 1 <= p < |b| && b[p].key == all[j].key;
      assert i <= p;
    }
    forall x, y | 0 <= x < y < |all| ensures all[x].key != all[y].key {
      if x > 0 { assert rest.visited[x - 1].key != rest.visited[y - 1].key; }
    }
  }

  // ---- the whole table ----

  /** No key of one list is in the other. */
  predicate KeysElsewhere(a: seq<Entry>, b: seq<Entry>) {
    forall p, q | 0 <= p < |a| && 0 <= q < |b| :: a[p].key != b[q].key
  }

  /** No key is visited twice, in the same bucket or in another. */
  predicate KeysOnce(visited: seq<seq<Entry>>) {
    && (forall m | 0 <= m < |visited| :: DistinctKeys(visited[m]))
    && (forall m, n | 0 <= m < n < |visited| :: KeysElsewhere(visited[m], visited[n]))
  }

  predicate Indexed(c: Config, k: nat, es: seq<Entry>) {
    forall j | 0 <= j < |es| :: c.Index(es[j].key) == k
  }

  lemma PlacedIndexed(c: Config, keys: iset<Key>, b: Bucket, k: nat, i: nat, trip: Trip)
    requires NulFree(keys) && TripKeys(c, keys, b, k, i, trip)
    ensures Indexed(c, k, trip.visited) && DistinctKeys(trip.visited) && PlacedAll(c, keys, trip.t)
  {
    hide PlacedAll, BitAnd, Pow2, CStr, HasKey;
    forall j | 0 <= j < |trip.visited| ensures c.Index(trip.visited[j].key) == k {
      assert PlacedAt(c, keys, k, trip.visited[j]);
      var key :| Owns(c, keys, k, key, trip.visited[j]);
      CStrMatchesItself(key);
    }
  }

  lemma {:induction false} JourneyVisitsKeys(c: Config, keys: iset<Key>, t: Snapshot, k: nat, cb: Callback, visits: nat)
    requires Separate(c, keys) && NulFree(keys) && PlacedAll(c, keys, t) && Sound(c, t) && CallsOver(cb, keys) && k <= c.Size()
    ensures var v := VisitTable(c, t, k, cb, visits).visited;
            KeysOnce(v) && forall m | 0 <= m < |v| :: Indexed(c, k + m, v[m])
    decreases c.Size() - k
  {
    hide VisitBucket, PlacedAll, Separate, NulFree, Seek, AddressedAll, TripKeys, Indexed, DistinctKeys, KeysElsewhere;
    if k == c.Size() {
    } else {
      var b, pos := t.buckets[k], PointerTo(t.buckets[k], 0);
      var trip := VisitBucket(c, t, k, pos, cb, visits);
      FirstNode(c, t, k);
      TripVisitsKeys(c, keys, t, k, pos, cb, visits);
      PlacedIndexed(c, keys, b, k, StartOf(b, pos), trip);
      if trip.end == Finished {
        var rest := VisitTable(c, trip.t, k + 1, cb, visits + |trip.visited|);
        JourneyVisitsKeys(c, keys, trip.t, k + 1, cb, visits + |trip.visited|);
        KeysFromFirst(c, k, trip.visited, rest.visited);
      }
    }
  }

  lemma KeysFromFirst(c: Config, k: nat, first: seq<Entry>, rest: seq<seq<Entry>>)
    requires DistinctKeys(first) && Indexed(c, k, first) && KeysOnce(rest)
    requires forall m | 0 <= m < |rest| :: Indexed(c, k + 1 + m, rest[m])
    ensures var v := [first] + rest; KeysOnce(v) && forall m | 0 <= m < |v| :: Indexed(c, k + m, v[m])
  {
    hide BitAnd, Pow2, DistinctKeys, KeysElsewhere, Indexed;
    var v := [first] + rest;
    assert forall m | 0 < m < |v| :: v[m] == rest[m - 1];
    forall m | 0 <= m < |v| ensures Indexed(c, k + m, v[m]) && DistinctKeys(v[m]) {
      if m > 0 { assert Indexed(c, k + 1 + (m - 1), rest[m - 1]); }
    }
    forall m, n | 0 <= m < n < |v| ensures KeysElsewhere(v[m], v[n]) {
      if m > 0 { assert KeysElsewhere(rest[m - 1], rest[n - 1]); } else { OtherIndex(c, k, k + n, first, v[n]); }
    }
  }

  lemma OtherIndex(c: Config, k: nat, m: nat, a: seq<Entry>, b: seq<Entry>)
    requires k != m && Indexed(c, k, a) && Indexed(c, m, b)
    ensures KeysElsewhere(a, b)
  {
    hide BitAnd, Pow2;
    forall p, q | 0 <= p < |a| && 0 <= q < |b| ensures a[p].key != b[q].key {
      assert c.Index(a[p].key) == k && c.Index(b[q].key) == m;
    }
  }

  /** Over NUL-free keys that do not collide, no key is visited twice, whatever keys among them the callbacks set: one
      that is deleted and set again comes before the position, and one that is replaced stays where it was. */
  lemma EachKeyOnce(c: Config, keys: iset<Key>, t: Snapshot, m: map<Key, Value>, cb: Callback)
    requires Separate(c, keys) && NulFree(keys) && Rep(c, keys, t, m) && Sound(c, t) && CallsOver(cb, keys)
    ensures KeysOnce(VisitTable(c, t, 0, cb, 0).visited)
  {
    hide Separate, NulFree, Placed, AddressedAll, VisitTable, KeysOnce, AgreesOn;
    JourneyVisitsKeys(c, keys, t, 0, cb, 0);
  }
}
