/** Iterations whose callbacks set no key but the one they are given (lib/luarcu.c, `luarcu_map`). */
module RcuOwnKey {
  import opened Bytes
  import opened RcuTable
  import opened RcuMap
  import opened RcuIteration

  /** Every entry is in the bucket of its key and is what a lookup of its key finds. */
  predicate IterableAt(c: Config, k: nat, b: Bucket) {
    forall i | 0 <= i < |b| :: c.Index(b[i].key) == k && Find(b, b[i].key) == i && 0 !in b[i].key && |b[i].key| < c.maxKey
  }

  ghost predicate Iterable(c: Config, t: Snapshot) {
    Sound(c, t) && forall k | 0 <= k < |t.buckets| :: IterableAt(c, k, t.buckets[k])
  }

  /** At most one set, of the key the callback was given. */
  predicate OneOwn(f: Effect, key: Key) {
    |f.sets| <= 1 && (f.sets != [] ==> f.sets[0].key == key)
  }

  ghost predicate OwnKey(cb: Callback) {
    forall n, key, value :: OneOwn(cb(n, key, value), key)
  }

  type Pair = (Key, Value)

  function Pairs(b: seq<Entry>): (ps: seq<Pair>)
    ensures |ps| == |b| && forall i | 0 <= i < |b| :: ps[i] == (b[i].key, b[i].value)
  {
    seq(|b|, i requires 0 <= i < |b| => (b[i].key, b[i].value))
  }

  /** What is left of an entry: nothing, the new value, or what was there when the callback set nothing or no node could
      be allocated. */
  function FateOf(e: Entry, f: Effect): seq<Pair> {
    if f.sets == [] then [(e.key, e.value)]
    else if f.sets[0].value == Nil then []
    else if f.sets[0].memory then [(e.key, f.sets[0].value)]
    else [(e.key, e.value)]
  }

  /** What is left of the entries `es` after visits, the first of which is visit number `start`. */
  function Fate(es: seq<Entry>, start: nat, cb: Callback): seq<Pair> {
    if es == [] then []
    else FateOf(es[0], cb(start, es[0].key, es[0].value)) + Fate(es[1..], start + 1, cb)
  }

  predicate Quiet(es: seq<Entry>, start: nat, cb: Callback) {
    forall i | 0 <= i < |es| :: !cb(start + i, es[i].key, es[i].value).raises
  }

  /** The nodes that a visit of `e` leaves. */
  function Left(e: Entry, f: Effect, id: nat): (es: seq<Entry>)
    ensures Pairs(es) == FateOf(e, f)
  {
    if f.sets == [] then [e]
    else if f.sets[0].value == Nil then []
    else if f.sets[0].memory then [Entry(id, e.key, f.sets[0].value)]
    else [e]
  }

  lemma OwnSet(c: Config, t: Snapshot, k: nat, i: nat, f: Effect)
    requires Sound(c, t) && k < c.Size() && i < |t.buckets[k]| && IterableAt(c, k, t.buckets[k]) && OneOwn(f, t.buckets[k][i].key)
    ensures var b := t.buckets[k];
            SetAll(c, t, f.sets).buckets == t.buckets[k := b[..i] + Left(b[i], f, t.nextId) + b[i + 1..]]
  {
    hide Find, BitAnd, Pow2, Seek, SetOne, Updated, CStr;
    var b := t.buckets[k];
    Whole(b, i);
    if f.sets == [] {
    } else {
      var a := f.sets[0];
      assert f.sets == [a] && [a][1..] == [];
      assert SetAll(c, t, f.sets) == SetOne(c, t, a);
      CStrMatchesItself(b[i].key);
      OwnUpdate(b, i, a.value, t.nextId);
      SetOneBuckets(c, t, a);
    }
  }

  lemma Whole(b: Bucket, i: nat)
    requires i < |b|
    ensures b[..i] + [b[i]] + b[i + 1..] == b
  {
  }

  lemma SetOneBuckets(c: Config, t: Snapshot, a: Assignment)
    requires |t.buckets| == c.Size()
    ensures SetOne(c, t, a).buckets ==
              if Stores(c.maxKey, a.key, a.value, a.memory)
              then t.buckets[c.Index(a.key) := Updated(t.buckets[c.Index(a.key)], a.key, a.value, t.nextId)] else t.buckets
  {
    hide Updated, BitAnd, Pow2;
  }

  lemma OwnUpdate(b: Bucket, i: nat, value: Value, id: nat)
    requires i < |b| && Find(b, b[i].key) == i && CStr(b[i].key) == b[i].key
    ensures Updated(b, b[i].key, value, id) == b[..i] + (if value == Nil then [] else [Entry(id, b[i].key, value)]) + b[i + 1..]
  {
    hide Find, CStr, Updated, Lookup;
    FoundMeans(b, b[i].key, value, id);
    if value != Nil { Replaced(b, i, Entry(id, b[i].key, value)); } else { assert b[..i] + [] == b[..i]; }
  }

  lemma Replaced(b: Bucket, i: nat, node: Entry)
    requires i < |b|
    ensures b[i := node] == b[..i] + [node] + b[i + 1..]
  {
  }

  /** Taking a node out of a bucket, or putting one with the same key in its place, leaves every entry found by its key. */
  lemma StaysIterable(c: Config, k: nat, b: Bucket, i: nat, es: seq<Entry>)
    requires IterableAt(c, k, b) && i < |b| && |es| <= 1 && (es != [] ==> es[0].key == b[i].key)
    ensures IterableAt(c, k, b[..i] + es + b[i + 1..])
  {
    hide StrNCmpEqual, CStr, BitAnd, Pow2;
    var b' := b[..i] + es + b[i + 1..];
    forall q | 0 <= q < |b'|
      ensures c.Index(b'[q].key) == k && Find(b', b'[q].key) == q && 0 !in b'[q].key && |b'[q].key| < c.maxKey
    {
      var p := Origin(|b|, i, |es|, q);
      OriginKey(b, i, es, q);
      assert Find(b, b[p].key) == p;
      CStrMatchesItself(b[p].key);
      FirstMatch(b, b[p].key, p);
      forall r | 0 <= r < q ensures !StrNCmpEqual(b'[r].key, b'[q].key) {
        OriginKey(b, i, es, r);
      }
      MatchIsFound(b', b'[q].key, q);
    }
  }

  /** Where the node at `q` came from, or the node it replaced. */
  function Origin(n: nat, i: nat, left: nat, q: nat): nat
    requires left <= 1
  {
    if q < i + left then q else q + 1 - left
  }

  lemma OriginKey(b: Bucket, i: nat, es: seq<Entry>, q: nat)
    requires i < |b| && |es| <= 1 && (es != [] ==> es[0].key == b[i].key) && q < |b| - 1 + |es|
    ensures var p := Origin(|b|, i, |es|, q); p < |b| && (b[..i] + es + b[i + 1..])[q].key == b[p].key
  {
  }

  lemma FirstMatch(b: Bucket, key: Key, p: nat)
    requires Find(b, key) == p
    ensures p < |b| && StrNCmpEqual(b[p].key, key) && forall r | 0 <= r < p :: !StrNCmpEqual(b[r].key, key)
  {
    hide StrNCmpEqual;
  }

  lemma MatchIsFound(b: Bucket, key: Key, q: nat)
    requires q < |b| && StrNCmpEqual(b[q].key, key) && forall r | 0 <= r < q :: !StrNCmpEqual(b[r].key, key)
    ensures Find(b, key) == q
  {
    hide StrNCmpEqual;
    var f := Find(b, key);
  }

  // ---- a bucket ----

  /** The visits of a bucket from `i` on: a prefix of the nodes there, each with its fate, and nothing else changed. */
  ghost predicate OwnTrip(c: Config, t: Snapshot, k: nat, i: nat, cb: Callback, visits: nat, trip: Trip)
    requires k < |t.buckets| && i <= |t.buckets[k]|
  {
    var b, v := t.buckets[k], trip.visited;
    && trip.end != Dangling && Iterable(c, trip.t)
    && |trip.t.buckets| == |t.buckets| && trip.t.buckets == t.buckets[k := trip.t.buckets[k]]
    && v <= b[i..] && (trip.end == Finished ==> v == b[i..])
    && Pairs(trip.t.buckets[k]) == Pairs(b[..i]) + Fate(v, visits, cb) + Pairs(b[i + |v|..])
    && Ends(v, trip.end, visits, cb)
  }

  /** A callback that raises ends the iteration right there. */
  predicate Ends(v: seq<Entry>, end: Ending, visits: nat, cb: Callback) {
    && (end == Finished ==> Quiet(v, visits, cb))
    && (end == Raised ==>
          var l := |v| - 1;
          l >= 0 && Quiet(v[..l], visits, cb) && cb(visits + l, v[l].key, v[l].value).raises)
  }

  lemma {:induction false} OwnBucket(c: Config, t: Snapshot, k: nat, i: nat, cb: Callback, visits: nat)
    requires Iterable(c, t) && k < c.Size() && i <= |t.buckets[k]| && OwnKey(cb)
    ensures OwnTrip(c, t, k, i, cb, visits, VisitBucket(c, t, k, PointerTo(t.buckets[k], i), cb, visits))
    decreases |t.buckets[k]| - i
  {
    hide Seek, SetAll, IterableAt, AddressedAll, OwnTrip, Left, FateOf, Ends, Iterable;
    IterableIsSound(c, t, k);
    var b := t.buckets[k];
    if i == |b| {
      NothingLeft(c, t, k, cb, visits);
    } else {
      assert Addressed(b, t.nextId);
      SeekAt(b, t.nextId, i);
      var f := cb(visits, b[i].key, b[i].value);
      assert OneOwn(f, b[i].key);
      var t', left := SetAll(c, t, f.sets), Left(b[i], f, t.nextId);
      SetAllKeepsAddresses(c, t, f.sets);
      VisitKeeps(c, t, k, i, f);
      if f.raises {
        RaisedHere(c, t, k, i, cb, visits);
      } else {
        var b' := t'.buckets[k];
        SameNext(b, i, left);
        OwnBucket(c, t', k, i + |left|, cb, visits + 1);
        var rest := VisitBucket(c, t', k, PointerTo(b', i + |left|), cb, visits + 1);
        OwnLonger(c, t, k, i, cb, visits, t', rest);
      }
    }
  }

  lemma IterableIsSound(c: Config, t: Snapshot, k: nat)
    requires Iterable(c, t) && k < c.Size()
    ensures Sound(c, t) && Addressed(t.buckets[k], t.nextId) && IterableAt(c, k, t.buckets[k])
  {
  }

  lemma NothingLeft(c: Config, t: Snapshot, k: nat, cb: Callback, visits: nat)
    requires Iterable(c, t) && k < c.Size()
    ensures OwnTrip(c, t, k, |t.buckets[k]|, cb, visits, Trip(t, [], Finished))
  {
    hide Iterable;
    IterableIsSound(c, t, k);
    var b := t.buckets[k];
    assert b[..|b|] == b && b[|b|..] == [];
  }

  /** The nodes before and after the visited one stay. */
  lemma VisitKeeps(c: Config, t: Snapshot, k: nat, i: nat, f: Effect)
    requires Iterable(c, t) && k < c.Size() && i < |t.buckets[k]| && OneOwn(f, t.buckets[k][i].key)
    requires Sound(c, SetAll(c, t, f.sets))
    ensures var b, t' := t.buckets[k], SetAll(c, t, f.sets);
            t'.buckets == t.buckets[k := b[..i] + Left(b[i], f, t.nextId) + b[i + 1..]] && Iterable(c, t')
  {
    hide IterableAt, SetAll;
    OwnSet(c, t, k, i, f);
    var b := t.buckets[k];
    StaysIterable(c, k, b, i, Left(b[i], f, t.nextId));
  }

  lemma SameNext(b: Bucket, i: nat, left: seq<Entry>)
    requires i < |b|
    ensures PointerTo(b[..i] + left + b[i + 1..], i + |left|) == PointerTo(b, i + 1)
  {
  }

  lemma FateOfOne(e: Entry, start: nat, cb: Callback)
    ensures Fate([e], start, cb) == FateOf(e, cb(start, e.key, e.value))
  {
    assert Fate([e][1..], start + 1, cb) == [];
  }

  lemma FateOfMore(e: Entry, v: seq<Entry>, start: nat, cb: Callback)
    ensures Fate([e] + v, start, cb) == FateOf(e, cb(start, e.key, e.value)) + Fate(v, start + 1, cb)
  {
    assert ([e] + v)[1..] == v;
  }

  lemma PairsOfParts(a: seq<Entry>, m: seq<Entry>, z: seq<Entry>)
    ensures Pairs(a + m + z) == Pairs(a) + Pairs(m) + Pairs(z)
  {
  }

  lemma RaisedHere(c: Config, t: Snapshot, k: nat, i: nat, cb: Callback, visits: nat)
    requires Iterable(c, t) && k < c.Size() && i < |t.buckets[k]|
    requires var b := t.buckets[k];
             var f := cb(visits, b[i].key, b[i].value);
             && f.raises && Iterable(c, SetAll(c, t, f.sets))
             && SetAll(c, t, f.sets).buckets == t.buckets[k := b[..i] + Left(b[i], f, t.nextId) + b[i + 1..]]
    ensures var b := t.buckets[k];
            var f := cb(visits, b[i].key, b[i].value);
            OwnTrip(c, t, k, i, cb, visits, Trip(SetAll(c, t, f.sets), [b[i]], Raised))
  {
    hide Iterable, SetAll, Fate, FateOf, Left;
    IterableIsSound(c, t, k);
    var b := t.buckets[k];
    var f := cb(visits, b[i].key, b[i].value);
    FateOfOne(b[i], visits, cb);
    PairsOfParts(b[..i], Left(b[i], f, t.nextId), b[i + 1..]);
    assert b[i..][0] == b[i];
  }

  lemma SplitAt(b: Bucket, i: nat, left: seq<Entry>, n: nat)
    requires i < |b| && n <= |b| - i - 1
    ensures var b', i' := b[..i] + left + b[i + 1..], i + |left|;
            b'[i'..] == b[i + 1..] && b'[i' + n..] == b[i + 1 + n..] && b'[..i'] == b[..i] + left
    ensures b[i..] == [b[i]] + b[i + 1..]
  {
  }

  lemma PrefixMore(e: Entry, v: seq<Entry>, rest: seq<Entry>)
    requires v <= rest
    ensures [e] + v <= [e] + rest
  {
  }

  lemma PairsJoined(a: seq<Entry>, m: seq<Entry>)
    ensures Pairs(a + m) == Pairs(a) + Pairs(m)
  {
  }

  /** A visit of the node at `i` and then the rest of the bucket. */
  lemma OwnLonger(c: Config, t: Snapshot, k: nat, i: nat, cb: Callback, visits: nat, t': Snapshot, rest: Trip)
    requires k < |t.buckets| == c.Size() && i < |t.buckets[k]|
    requires var b := t.buckets[k];
             var f := cb(visits, b[i].key, b[i].value);
             var left := Left(b[i], f, t.nextId);
             && !f.raises && t'.buckets == t.buckets[k := b[..i] + left + b[i + 1..]]
             && OwnTrip(c, t', k, i + |left|, cb, visits + 1, rest)
    ensures OwnTrip(c, t, k, i, cb, visits, Trip(rest.t, [t.buckets[k][i]] + rest.visited, rest.end))
  {
    hide Iterable, Fate, FateOf, Left, Quiet, Ends, Pairs;
    var b, v := t.buckets[k], rest.visited;
    var f := cb(visits, b[i].key, b[i].value);
    var left := Left(b[i], f, t.nextId);
    SplitAt(b, i, left, 0);
    assert |v| <= |b| - i - 1;
    SplitAt(b, i, left, |v|);
    PrefixMore(b[i], v, b[i + 1..]);
    PairsJoined(b[..i], left);
    FateOfMore(b[i], v, visits, cb);
    JoinedFates(Pairs(b[..i]), Pairs(left), Fate(v, visits + 1, cb), Pairs(b[i + 1 + |v|..]));
    EndsLater(b[i], v, rest.end, visits, cb);
  }

  lemma JoinedFates(a: seq<Pair>, x: seq<Pair>, y: seq<Pair>, z: seq<Pair>)
    ensures a + x + y + z == a + (x + y) + z
  {
  }

  lemma EndsLater(e: Entry, v: seq<Entry>, end: Ending, visits: nat, cb: Callback)
    requires !cb(visits, e.key, e.value).raises && Ends(v, end, visits + 1, cb)
    ensures Ends([e] + v, end, visits, cb)
  {
    var w := [e] + v;
    forall i | 0 <= i < |w| && (i == 0 || !cb(visits + 1 + (i - 1), v[i - 1].key, v[i - 1].value).raises)
      ensures !cb(visits + i, w[i].key, w[i].value).raises
    {
      if i > 0 { assert w[i] == v[i - 1] && visits + 1 + (i - 1) == visits + i; }
    }
    if end == Raised {
      var l := |v| - 1;
      assert w[l + 1] == v[l] && w[..l + 1] == [e] + v[..l];
      assert forall i | 0 < i < l + 1 :: w[i] == v[..l][i - 1];
    }
  }

  // ---- the whole table ----

  function Count(vs: seq<seq<Entry>>): nat {
    if vs == [] then 0 else |vs[0]| + Count(vs[1..])
  }

  /** Bucket `m` of an iteration that began at bucket `k`. */
  ghost predicate OwnAt(t: Snapshot, j: Journey, k: nat, m: nat, cb: Callback, visits: nat)
    requires k <= m < |t.buckets| == |j.t.buckets| && m < k + |j.visited|
  {
    var b, v, start := t.buckets[m], j.visited[m - k], visits + Count(j.visited[..m - k]);
    var end := if m + 1 < k + |j.visited| then Finished else j.end;
    && v <= b && (end == Finished ==> v == b)
    && Pairs(j.t.buckets[m]) == Fate(v, start, cb) + Pairs(b[|v|..])
    && Ends(v, end, start, cb)
  }

  ghost predicate OwnJourney(c: Config, t: Snapshot, j: Journey, k: nat, cb: Callback, visits: nat)
    requires |t.buckets| == c.Size()
  {
    && j.end != Dangling && Iterable(c, j.t)
    && k + |j.visited| <= c.Size() && (j.end == Finished ==> k + |j.visited| == c.Size()) && (j.visited == [] ==> j.end == Finished)
    && (forall m | 0 <= m < c.Size() && !(k <= m < k + |j.visited|) :: j.t.buckets[m] == t.buckets[m])
    && (forall m | k <= m < k + |j.visited| :: OwnAt(t, j, k, m, cb, visits))
  }

  lemma {:induction false} OwnTable(c: Config, t: Snapshot, k: nat, cb: Callback, visits: nat)
    requires Iterable(c, t) && k <= c.Size() && OwnKey(cb)
    ensures OwnJourney(c, t, VisitTable(c, t, k, cb, visits), k, cb, visits)
    decreases c.Size() - k
  {
    hide VisitBucket, OwnAt, OwnTrip, OwnJourney;
    if k == c.Size() {
      assert OwnJourney(c, t, Journey(t, [], Finished), k, cb, visits) by { NoBuckets(c, t, cb, visits); }
    } else {
      OwnBucket(c, t, k, 0, cb, visits);
      var trip := VisitBucket(c, t, k, PointerTo(t.buckets[k], 0), cb, visits);
      OwnTripTable(c, t, k, cb, visits, trip);
      if trip.end != Finished {
        OwnStopped(c, t, k, cb, visits, trip);
      } else {
        OwnTable(c, trip.t, k + 1, cb, visits + |trip.visited|);
        var rest := VisitTable(c, trip.t, k + 1, cb, visits + |trip.visited|);
        OwnLater(c, t, k, cb, visits, trip, rest);
      }
    }
  }

  lemma NoBuckets(c: Config, t: Snapshot, cb: Callback, visits: nat)
    requires Iterable(c, t)
    ensures OwnJourney(c, t, Journey(t, [], Finished), c.Size(), cb, visits)
  {
    hide OwnAt;
  }

  lemma OwnTripTable(c: Config, t: Snapshot, k: nat, cb: Callback, visits: nat, trip: Trip)
    requires Iterable(c, t) && k < c.Size() && OwnTrip(c, t, k, 0, cb, visits, trip)
    ensures Iterable(c, trip.t)
  {
    hide Iterable;
  }

  lemma OwnStopped(c: Config, t: Snapshot, k: nat, cb: Callback, visits: nat, trip: Trip)
    requires Iterable(c, t) && k < c.Size() && OwnTrip(c, t, k, 0, cb, visits, trip) && trip.end != Finished
    ensures OwnJourney(c, t, Journey(trip.t, [trip.visited], trip.end), k, cb, visits)
  {
    hide Iterable, Fate, Ends, OwnAt, Pairs;
    IterableIsSound(c, t, k);
    OwnFirst(c, t, k, cb, visits, trip, Journey(trip.t, [trip.visited], trip.end));
  }

  lemma OwnLater(c: Config, t: Snapshot, k: nat, cb: Callback, visits: nat, trip: Trip, rest: Journey)
    requires Iterable(c, t) && k < c.Size() && OwnTrip(c, t, k, 0, cb, visits, trip) && trip.end == Finished
    requires |trip.t.buckets| == c.Size() && OwnJourney(c, trip.t, rest, k + 1, cb, visits + |trip.visited|)
    ensures OwnJourney(c, t, Journey(rest.t, [trip.visited] + rest.visited, rest.end), k, cb, visits)
  {
    hide Iterable, OwnAt, Fate, Ends;
    IterableIsSound(c, t, k);
    IterableSize(c, rest.t);
    var j := Journey(rest.t, [trip.visited] + rest.visited, rest.end);
    OwnFirst(c, t, k, cb, visits, trip, j);
    forall m | k < m < k + |j.visited| ensures OwnAt(t, j, k, m, cb, visits) {
      assert OwnAt(trip.t, rest, k + 1, m, cb, visits + |trip.visited|);
      OwnNext(t, trip.t, k, m, cb, visits, trip.visited, rest);
    }
  }

  lemma IterableSize(c: Config, t: Snapshot)
    requires Iterable(c, t)
    ensures |t.buckets| == c.Size()
  {
  }

  lemma OwnFirst(c: Config, t: Snapshot, k: nat, cb: Callback, visits: nat, trip: Trip, j: Journey)
    requires k < |t.buckets| == c.Size() && OwnTrip(c, t, k, 0, cb, visits, trip)
    requires |j.t.buckets| == c.Size() && j.t.buckets[k] == trip.t.buckets[k]
    requires j.visited != [] && j.visited[0] == trip.visited && trip.end == if |j.visited| == 1 then j.end else Finished
    ensures OwnAt(t, j, k, k, cb, visits)
  {
    hide Iterable, Fate, Ends, Pairs;
    var b := t.buckets[k];
    assert b[0..] == b && b[..0] == [];
    assert Pairs([]) == [];
    assert j.visited[..0] == [];
  }

  lemma OwnNext(t: Snapshot, t': Snapshot, k: nat, m: nat, cb: Callback, visits: nat, v: seq<Entry>, rest: Journey)
    requires k < m < |t.buckets| == |t'.buckets| == |rest.t.buckets| && m < k + 1 + |rest.visited|
    requires t'.buckets[m] == t.buckets[m] && OwnAt(t', rest, k + 1, m, cb, visits + |v|)
    ensures OwnAt(t, Journey(rest.t, [v] + rest.visited, rest.end), k, m, cb, visits)
  {
    hide Fate, Ends, Pairs;
    var vs := [v] + rest.visited;
    assert vs[..m - k] == [v] + rest.visited[..m - k - 1];
    assert vs[..m - k][1..] == rest.visited[..m - k - 1];
    assert vs[m - k] == rest.visited[m - k - 1];
  }

  /** Callbacks that set nothing but the key they are given: the iteration never meets a dangling address; it visits every
      entry in order, up to the first callback that raises; each visited entry, also the one whose callback raises, has
      its fate; every other entry stays. */
  lemma EveryEntryInOrder(c: Config, t: Snapshot, cb: Callback)
    requires Iterable(c, t) && OwnKey(cb)
    ensures OwnJourney(c, t, VisitTable(c, t, 0, cb, 0), 0, cb, 0)
  {
    hide OwnJourney, VisitTable;
    OwnTable(c, t, 0, cb, 0);
  }
}
