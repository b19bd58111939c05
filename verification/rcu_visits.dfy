/** What an iteration visits, whatever its callbacks set (lib/luarcu.c, `luarcu_map`). */
module RcuVisits {
  import opened Bytes
  import opened RcuTable
  import opened RcuMap
  import opened RcuIteration

  predicate DistinctIds(es: seq<Entry>) {
    forall i, j | 0 <= i < j < |es| :: es[i].id != es[j].id
  }

  /** No callback from here on deletes or replaces the node whose address is held while it runs. */
  predicate Spares(c: Config, t: Snapshot, k: nat, pos: Pointer, cb: Callback, visits: nat)
    requires |t.buckets| == c.Size() && AddressedAll(t) && k < c.Size()
    decreases AheadOf(t.buckets[k], pos)
  {
    var b := t.buckets[k];
    pos.Null? || (
      Seek(b, pos.id) >= 0 &&
      var i := Seek(b, pos.id);
      var next, f := PointerTo(b, i + 1), cb(visits, b[i].key, b[i].value);
      SetAllKeepsAddresses(c, t, f.sets);
      LessAhead(c, t, f.sets, k, i);
      f.raises || (
        (next.Null? || !Hit(c, t, k, next.id, f.sets)) && Spares(c, SetAll(c, t, f.sets), k, next, cb, visits + 1)))
  }

  /** An iteration comes to an address that dangles if and only if some callback deletes or replaces the node after
      the one it was given. */
  lemma {:induction false} DanglingIff(c: Config, t: Snapshot, k: nat, pos: Pointer, cb: Callback, visits: nat)
    requires Sound(c, t) && k < c.Size() && (pos.Null? || Seek(t.buckets[k], pos.id) >= 0)
    ensures VisitBucket(c, t, k, pos, cb, visits).end == Dangling <==> !Spares(c, t, k, pos, cb, visits)
    decreases AheadOf(t.buckets[k], pos)
  {
    hide Seek, SetAll, Hit, Follows, AddressedAll;
    if pos.Node? {
      var b, i := t.buckets[k], Seek(t.buckets[k], pos.id);
      var next, f := PointerTo(b, i + 1), cb(visits, b[i].key, b[i].value);
      SetAllKeepsAddresses(c, t, f.sets);
      LessAhead(c, t, f.sets, k, i);
      if !f.raises {
        if next.Node? { SetAllFollows(c, t, f.sets, k, i + 1); }
        var t' := SetAll(c, t, f.sets);
        if next.Null? || Seek(t'.buckets[k], next.id) >= 0 { DanglingIff(c, t', k, next, cb, visits + 1); }
      }
    }
  }

  /** Nodes from `i` on, or new ones. */
  ghost predicate FromHere(b: Bucket, i: nat, nextId: nat, visited: seq<Entry>)
    requires i <= |b|
  {
    forall v | v in visited :: v in b[i..] || v.id >= nextId
  }

  /** Every node from `i` on was visited or is gone in the end. */
  ghost predicate AllSeen(b: Bucket, i: nat, visited: seq<Entry>, final: Bucket)
    requires i <= |b|
  {
    forall p | i <= p < |b| :: b[p] in visited || Seek(final, b[p].id) < 0
  }

  function StartOf(b: Bucket, pos: Pointer): (i: nat)
    requires pos.Null? || Seek(b, pos.id) >= 0
    ensures i <= |b|
  {
    if pos.Null? then |b| else Seek(b, pos.id)
  }

  ghost predicate TripOk(c: Config, t: Snapshot, k: nat, i: nat, trip: Trip)
    requires |t.buckets| == c.Size() == |trip.t.buckets| && k < c.Size() && i <= |t.buckets[k]|
  {
    && (forall l | 0 <= l < c.Size() :: Ages(t, trip.t, l))
    && FromHere(t.buckets[k], i, t.nextId, trip.visited) && DistinctIds(trip.visited)
    && (trip.end == Finished ==> AllSeen(t.buckets[k], i, trip.visited, trip.t.buckets[k]))
  }

  lemma {:induction false} TripMeans(c: Config, t: Snapshot, k: nat, pos: Pointer, cb: Callback, visits: nat)
    requires Sound(c, t) && k < c.Size() && (pos.Null? || Seek(t.buckets[k], pos.id) >= 0)
    ensures TripOk(c, t, k, StartOf(t.buckets[k], pos), VisitBucket(c, t, k, pos, cb, visits))
    decreases AheadOf(t.buckets[k], pos)
  {
    hide Seek, SetAll, Hit, Follows, AddressedAll, Ages, FromHere, AllSeen;
    var trip := VisitBucket(c, t, k, pos, cb, visits);
    if pos.Null? {
      EmptyTrip(c, t, k);
    } else {
      var b, i := t.buckets[k], Seek(t.buckets[k], pos.id);
      var next, f := PointerTo(b, i + 1), cb(visits, b[i].key, b[i].value);
      var t' := SetAll(c, t, f.sets);
      SetAllKeepsAddresses(c, t, f.sets);
      LessAhead(c, t, f.sets, k, i);
      forall l | 0 <= l < c.Size() ensures Ages(t, t', l) { SetAllAges(c, t, f.sets, l); }
      if f.raises {
        SingleVisit(b, i, t.nextId);
      } else {
        var rest := VisitBucket(c, t', k, next, cb, visits + 1);
        if next.Node? { SetAllFollows(c, t, f.sets, k, i + 1); }
        if next.Null? || Seek(t'.buckets[k], next.id) >= 0 {
          TripMeans(c, t', k, next, cb, visits + 1);
          if next.Null? { NothingFollows(b, t', t, k, i); }
          LongerTrip(c, t, t', k, i, StartOf(t'.buckets[k], next), rest);
        } else {
          assert rest == Trip(t', [], Dangling);
          SingleVisit(b, i, t.nextId);
          assert [b[i]] + [] == [b[i]];
        }
      }
    }
  }

  lemma EmptyTrip(c: Config, t: Snapshot, k: nat)
    requires |t.buckets| == c.Size() && k < c.Size()
    ensures TripOk(c, t, k, |t.buckets[k]|, Trip(t, [], Finished))
  {
    hide Seek;
    forall l | 0 <= l < c.Size() ensures Ages(t, t, l) { }
  }

  lemma SingleVisit(b: Bucket, i: nat, nextId: nat)
    requires i < |b|
    ensures FromHere(b, i, nextId, [b[i]]) && DistinctIds([b[i]])
  {
    Ahead(b, i, i);
  }

  lemma NothingFollows(b: Bucket, t': Snapshot, t: Snapshot, k: nat, i: nat)
    requires k < |t'.buckets| && i + 1 == |b|
    ensures Follows(b, i + 1, t'.buckets[k], |t'.buckets[k]|, t.nextId)
  {
  }

  /** A visit of the node at `i` and then the rest of the trip. */
  lemma LongerTrip(c: Config, t: Snapshot, t': Snapshot, k: nat, i: nat, i': nat, rest: Trip)
    requires Sound(c, t) && |t'.buckets| == c.Size() == |rest.t.buckets| && k < c.Size() && i < |t.buckets[k]|
    requires i' <= |t'.buckets[k]| && t.nextId <= t'.nextId
    requires Follows(t.buckets[k], i + 1, t'.buckets[k], i', t.nextId) && TripOk(c, t', k, i', rest)
    requires forall l | 0 <= l < c.Size() :: Ages(t, t', l)
    ensures TripOk(c, t, k, i, Trip(rest.t, [t.buckets[k][i]] + rest.visited, rest.end))
  {
    hide Seek, Ages;
    var b, b', visited := t.buckets[k], t'.buckets[k], [t.buckets[k][i]] + rest.visited;
    forall l | 0 <= l < c.Size() ensures Ages(t, rest.t, l) { AgesOn(t, t', rest.t, l); }
    forall v | v in rest.visited ensures v in b[i + 1..] || v.id >= t.nextId {
      if v in b'[i'..] { var q :| i' <= q < |b'| && b'[q] == v; }
    }
    assert Addressed(b, t.nextId);
    VisitedApart(b, i, t.nextId, rest.visited);
    if rest.end == Finished {
      forall p | i <= p < |b| ensures b[p] in visited || Seek(rest.t.buckets[k], b[p].id) < 0 {
        if p > i {
          if b[p] in b'[i'..] {
            var q :| i' <= q < |b'| && b'[q] == b[p];
          } else {
            AgesGone(t', rest.t, k, b[p].id);
          }
        }
      }
    }
  }

  lemma VisitedApart(b: Bucket, i: nat, nextId: nat, visited: seq<Entry>)
    requires Addressed(b, nextId) && i < |b| && FromHere(b, i + 1, nextId, visited) && DistinctIds(visited)
    ensures FromHere(b, i, nextId, [b[i]] + visited) && DistinctIds([b[i]] + visited)
  {
    var all := [b[i]] + visited;
    Ahead(b, i, i);
    forall v | v in visited ensures (v in b[i..] || v.id >= nextId) && v.id != b[i].id {
      if v in b[i + 1..] {
        var q :| i + 1 <= q < |b| && b[q] == v;
        Ahead(b, i, q);
      }
    }
    forall x, y | 0 <= x < y < |all| ensures all[x].id != all[y].id {
      if x > 0 { assert visited[x - 1].id != visited[y - 1].id; } else { assert all[y] == visited[y - 1]; }
    }
  }

  // ---- the whole table ----

  /** Bucket `m` of a finished or unfinished journey over the buckets from `k` on. */
  ghost predicate BucketOk(t: Snapshot, j: Journey, k: nat, m: nat)
    requires k <= m < k + |j.visited| && m < |t.buckets| && m < |j.t.buckets|
  {
    && DistinctIds(j.visited[m - k])
    && (forall v | v in j.visited[m - k] :: v in t.buckets[m] || v.id >= t.nextId)
    && (j.end == Finished ==> forall p | 0 <= p < |t.buckets[m]| ::
          t.buckets[m][p] in j.visited[m - k] || Seek(j.t.buckets[m], t.buckets[m][p].id) < 0)
  }

  ghost predicate JourneyOk(c: Config, t: Snapshot, k: nat, j: Journey)
    requires |t.buckets| == c.Size() == |j.t.buckets|
  {
    && (forall l | 0 <= l < c.Size() :: Ages(t, j.t, l))
    && k + |j.visited| <= c.Size() && (j.end == Finished ==> k + |j.visited| == c.Size())
    && (forall m | k <= m < k + |j.visited| :: BucketOk(t, j, k, m))
  }

  lemma {:induction false} JourneyMeans(c: Config, t: Snapshot, k: nat, cb: Callback, visits: nat)
    requires Sound(c, t) && k <= c.Size()
    ensures JourneyOk(c, t, k, VisitTable(c, t, k, cb, visits))
    decreases c.Size() - k
  {
    hide Seek, Ages, VisitBucket, TripOk, JourneyOk, AddressedAll;
    if k == c.Size() {
      EmptyJourney(c, t);
    } else {
      var b, pos := t.buckets[k], PointerTo(t.buckets[k], 0);
      var trip := VisitBucket(c, t, k, pos, cb, visits);
      FirstNode(c, t, k);
      TripMeans(c, t, k, pos, cb, visits);
      if trip.end != Finished {
        StoppedJourney(c, t, k, pos, trip);
      } else {
        var rest := VisitTable(c, trip.t, k + 1, cb, visits + |trip.visited|);
        JourneyMeans(c, trip.t, k + 1, cb, visits + |trip.visited|);
        LongerJourney(c, t, k, pos, trip, rest);
      }
    }
  }

  lemma FirstNode(c: Config, t: Snapshot, k: nat)
    requires Sound(c, t) && k < c.Size()
    ensures var pos := PointerTo(t.buckets[k], 0); pos.Null? || Seek(t.buckets[k], pos.id) == 0
  {
    hide Seek;
    assert Addressed(t.buckets[k], t.nextId);
    if t.buckets[k] != [] { SeekAt(t.buckets[k], t.nextId, 0); }
  }

  lemma EmptyJourney(c: Config, t: Snapshot)
    requires |t.buckets| == c.Size()
    ensures JourneyOk(c, t, c.Size(), Journey(t, [], Finished))
  {
    forall l | 0 <= l < c.Size() ensures Ages(t, t, l) { AgesItself(t, l); }
  }

  lemma StoppedJourney(c: Config, t: Snapshot, k: nat, pos: Pointer, trip: Trip)
    requires Sound(c, t) && |trip.t.buckets| == c.Size() && k < c.Size() && trip.end != Finished
    requires pos == PointerTo(t.buckets[k], 0) && (pos.Null? || Seek(t.buckets[k], pos.id) == 0)
    requires TripOk(c, t, k, StartOf(t.buckets[k], pos), trip) && t.nextId <= trip.t.nextId
    ensures JourneyOk(c, t, k, Journey(trip.t, [trip.visited], trip.end))
  {
    hide Seek, Ages, BucketOk;
    OwnBucket(c, t, k, pos, trip, Journey(trip.t, [trip.visited], trip.end));
  }

  /** A finished bucket and then the rest of the journey. */
  lemma LongerJourney(c: Config, t: Snapshot, k: nat, pos: Pointer, trip: Trip, rest: Journey)
    requires Sound(c, t) && Sound(c, trip.t) && |rest.t.buckets| == c.Size() && k < c.Size() && trip.end == Finished
    requires pos == PointerTo(t.buckets[k], 0) && (pos.Null? || Seek(t.buckets[k], pos.id) == 0)
    requires TripOk(c, t, k, StartOf(t.buckets[k], pos), trip) && t.nextId <= trip.t.nextId
    requires JourneyOk(c, trip.t, k + 1, rest)
    ensures JourneyOk(c, t, k, Journey(rest.t, [trip.visited] + rest.visited, rest.end))
  {
    hide Seek, Ages, BucketOk, AddressedAll;
    var j := Journey(rest.t, [trip.visited] + rest.visited, rest.end);
    forall l | 0 <= l < c.Size() ensures Ages(t, j.t, l) { AgesOn(t, trip.t, j.t, l); }
    OwnBucket(c, t, k, pos, trip, j);
    forall m | k < m < k + |j.visited| ensures BucketOk(t, j, k, m) {
      assert BucketOk(trip.t, rest, k + 1, m);
      LaterBucket(c, t, trip.t, rest, j, k, m);
    }
  }

  lemma AgesItself(t: Snapshot, l: nat)
    requires l < |t.buckets|
    ensures Ages(t, t, l)
  {
    hide Seek;
  }

  lemma OwnBucket(c: Config, t: Snapshot, k: nat, pos: Pointer, trip: Trip, j: Journey)
    requires Sound(c, t) && |trip.t.buckets| == c.Size() == |j.t.buckets| && k < c.Size()
    requires pos == PointerTo(t.buckets[k], 0) && (pos.Null? || Seek(t.buckets[k], pos.id) == 0)
    requires TripOk(c, t, k, StartOf(t.buckets[k], pos), trip)
    requires j.visited != [] && j.visited[0] == trip.visited && (j.end == Finished ==> trip.end == Finished)
    requires j.end == Finished ==> Ages(trip.t, j.t, k)
    requires t.nextId <= trip.t.nextId
    ensures BucketOk(t, j, k, k)
  {
    hide Seek, Ages;
    var b := t.buckets[k];
    assert StartOf(b, pos) == 0 && b[0..] == b;
    assert Addressed(b, t.nextId);
    if j.end == Finished {
      forall p | 0 <= p < |b| ensures b[p] in trip.visited || Seek(j.t.buckets[k], b[p].id) < 0 {
        if b[p] !in trip.visited { AgesGone(trip.t, j.t, k, b[p].id); }
      }
    }
  }

  lemma LaterBucket(c: Config, t: Snapshot, t': Snapshot, rest: Journey, j: Journey, k: nat, m: nat)
    requires Sound(c, t) && Sound(c, t') && |rest.t.buckets| == c.Size() && k < m < c.Size()
    requires j.t == rest.t && j.end == rest.end && |j.visited| == |rest.visited| + 1 && m < k + |j.visited|
    requires j.visited[m - k] == rest.visited[m - k - 1] && BucketOk(t', rest, k + 1, m)
    requires Ages(t, t', m) && Ages(t', j.t, m)
    ensures BucketOk(t, j, k, m)
  {
    hide Seek;
    var b, b', visited := t.buckets[m], t'.buckets[m], j.visited[m - k];
    assert Addressed(b, t.nextId) && Addressed(b', t'.nextId);
    forall v | v in visited ensures v in b || v.id >= t.nextId {
      if v in b' { var q :| 0 <= q < |b'| && b'[q] == v; }
    }
    if j.end == Finished {
      forall p | 0 <= p < |b| ensures b[p] in visited || Seek(j.t.buckets[m], b[p].id) < 0 {
        var q := Seek(b', b[p].id);
        if q >= 0 {
          StillThere(b, t.nextId, p, b'[q]);
        }
      }
    }
  }

  lemma StillThere(b: Bucket, nextId: nat, p: nat, e: Entry)
    requires Addressed(b, nextId) && p < |b| && e in b && e.id == b[p].id
    ensures e == b[p]
  {
    OthersDiffer(b, nextId, p);
  }

  /** An address in use that no bucket but `k` has. */
  ghost predicate OnlyIn(t: Snapshot, k: nat, id: nat) {
    id < t.nextId && forall l | 0 <= l < |t.buckets| && l != k :: Seek(t.buckets[l], id) < 0
  }

  lemma OnlyInLater(c: Config, t: Snapshot, t': Snapshot, k: nat, id: nat)
    requires |t.buckets| == c.Size() == |t'.buckets| && OnlyIn(t, k, id) && t.nextId <= t'.nextId
    requires forall l | 0 <= l < c.Size() :: Ages(t, t', l)
    ensures OnlyIn(t', k, id)
  {
    hide Seek, Ages;
    forall l | 0 <= l < |t'.buckets| && l != k ensures Seek(t'.buckets[l], id) < 0 { AgesGone(t, t', l, id); }
  }

  lemma NodeOnlyIn(c: Config, t: Snapshot, k: nat, i: nat)
    requires Sound(c, t) && k < c.Size() && i < |t.buckets[k]|
    ensures OnlyIn(t, k, t.buckets[k][i].id)
  {
    hide Seek;
    assert Addressed(t.buckets[k], t.nextId);
    forall l | 0 <= l < |t.buckets| && l != k ensures Seek(t.buckets[l], t.buckets[k][i].id) < 0 {
      assert Elsewhere(t.buckets[l], t.buckets[k]);
    }
  }

  /** After the visits of a bucket, no other bucket has a node that was visited. */
  lemma {:induction false} TripStaysIn(c: Config, t: Snapshot, k: nat, pos: Pointer, cb: Callback, visits: nat)
    requires Sound(c, t) && k < c.Size() && (pos.Null? || Seek(t.buckets[k], pos.id) >= 0)
    ensures var trip := VisitBucket(c, t, k, pos, cb, visits);
            forall v | v in trip.visited :: OnlyIn(trip.t, k, v.id)
    decreases AheadOf(t.buckets[k], pos)
  {
    hide Seek, SetAll, Hit, Follows, AddressedAll, Ages, FromHere, AllSeen, OnlyIn;
    TripMeans(c, t, k, pos, cb, visits);
    var trip := VisitBucket(c, t, k, pos, cb, visits);
    if pos.Null? {
    } else {
      var b, i := t.buckets[k], Seek(t.buckets[k], pos.id);
      var next, f := PointerTo(b, i + 1), cb(visits, b[i].key, b[i].value);
      SetAllKeepsAddresses(c, t, f.sets);
      LessAhead(c, t, f.sets, k, i);
      NodeOnlyIn(c, t, k, i);
      OnlyInLater(c, t, trip.t, k, b[i].id);
      if !f.raises {
        var t' := SetAll(c, t, f.sets);
        if next.Null? || Seek(t'.buckets[k], next.id) >= 0 { TripStaysIn(c, t', k, next, cb, visits + 1); }
      }
    }
  }

  /** No node is in two of the lists. */
  predicate AllApart(visited: seq<seq<Entry>>) {
    forall m, n | 0 <= m < n < |visited| :: Elsewhere(visited[m], visited[n])
  }

  lemma {:induction false} JourneyApart(c: Config, t: Snapshot, k: nat, cb: Callback, visits: nat)
    requires Sound(c, t) && k <= c.Size()
    ensures AllApart(VisitTable(c, t, k, cb, visits).visited)
    decreases c.Size() - k
  {
    hide Seek, Ages, VisitBucket, AddressedAll, Elsewhere, OnlyIn, BucketOk, JourneyOk;
    if k == c.Size() {
    } else {
      var pos := PointerTo(t.buckets[k], 0);
      var trip := VisitBucket(c, t, k, pos, cb, visits);
      FirstNode(c, t, k);
      TripStaysIn(c, t, k, pos, cb, visits);
      if trip.end == Finished {
        var rest := VisitTable(c, trip.t, k + 1, cb, visits + |trip.visited|);
        JourneyApart(c, trip.t, k + 1, cb, visits + |trip.visited|);
        JourneyMeans(c, trip.t, k + 1, cb, visits + |trip.visited|);
        ApartFromFirst(c, trip.t, k, trip.visited, rest);
      }
    }
  }

  lemma ApartFromFirst(c: Config, t: Snapshot, k: nat, first: seq<Entry>, rest: Journey)
    requires |t.buckets| == c.Size() == |rest.t.buckets| && k < c.Size() && JourneyOk(c, t, k + 1, rest)
    requires AllApart(rest.visited) && forall v | v in first :: OnlyIn(t, k, v.id)
    ensures AllApart([first] + rest.visited)
  {
    hide Seek, Ages, Elsewhere;
    var all := [first] + rest.visited;
    forall m, n | 0 <= m < n < |all| ensures Elsewhere(all[m], all[n]) {
      if m > 0 {
        assert Elsewhere(rest.visited[m - 1], rest.visited[n - 1]);
      } else {
        assert BucketOk(t, rest, k + 1, k + n);
        ElsewhereVisited(t, k, k + n, first, rest.visited[n - 1]);
      }
    }
  }

  lemma ElsewhereVisited(t: Snapshot, k: nat, m: nat, first: seq<Entry>, later: seq<Entry>)
    requires k < m < |t.buckets| && forall v | v in first :: OnlyIn(t, k, v.id)
    requires forall v | v in later :: v in t.buckets[m] || v.id >= t.nextId
    ensures Elsewhere(first, later)
  {
    hide Seek;
    forall p, q | 0 <= p < |first| && 0 <= q < |later| ensures first[p].id != later[q].id {
      assert OnlyIn(t, k, first[p].id);
      if later[q] in t.buckets[m] { var r :| 0 <= r < |t.buckets[m]| && t.buckets[m][r] == later[q]; }
    }
  }

  /** Whatever the callbacks insert, replace or delete: no node is visited twice, in the same bucket or in another; a
      node visited was in its bucket from the start or is new; and if the iteration finishes, every entry that is in the
      table from the start to the end was visited. */
  lemma EachEntryOnce(c: Config, t: Snapshot, cb: Callback)
    requires Sound(c, t)
    ensures var j := VisitTable(c, t, 0, cb, 0);
            && |j.visited| <= c.Size() && (j.end == Finished ==> |j.visited| == c.Size())
            && (forall m | 0 <= m < |j.visited| :: BucketOk(t, j, 0, m)) && AllApart(j.visited)
  {
    hide BucketOk, VisitTable, Ages, AllApart;
    JourneyMeans(c, t, 0, cb, 0);
    JourneyApart(c, t, 0, cb, 0);
  }

  /** No callback of the whole iteration deletes or replaces the node whose address is held. */
  predicate SparesAll(c: Config, t: Snapshot, k: nat, cb: Callback, visits: nat)
    requires |t.buckets| == c.Size() && AddressedAll(t) && k <= c.Size()
    decreases c.Size() - k
  {
    k == c.Size() ||
    (Spares(c, t, k, PointerTo(t.buckets[k], 0), cb, visits) &&
     var trip := VisitBucket(c, t, k, PointerTo(t.buckets[k], 0), cb, visits);
     trip.end == Raised || (trip.end == Finished && SparesAll(c, trip.t, k + 1, cb, visits + |trip.visited|)))
  }

  /** The guarantee breaks, at a dangling address, if and only if some callback deletes or replaces the node after the
      one it was given. */
  lemma {:induction false} BreaksIff(c: Config, t: Snapshot, k: nat, cb: Callback, visits: nat)
    requires Sound(c, t) && k <= c.Size()
    ensures VisitTable(c, t, k, cb, visits).end == Dangling <==> !SparesAll(c, t, k, cb, visits)
    decreases c.Size() - k
  {
    hide VisitBucket, Spares, Seek;
    if k < c.Size() {
      var b, pos := t.buckets[k], PointerTo(t.buckets[k], 0);
      assert Addressed(b, t.nextId);
      if b != [] { SeekAt(b, t.nextId, 0); }
      DanglingIff(c, t, k, pos, cb, visits);
      var trip := VisitBucket(c, t, k, pos, cb, visits);
      if trip.end == Finished { BreaksIff(c, trip.t, k + 1, cb, visits + |trip.visited|); }
    }
  }

  /** One such callback: given an entry, it deletes the one after it. */
  lemma DeletesTheNext(c: Config, t: Snapshot, k: nat, i: nat, cb: Callback, visits: nat)
    requires Sound(c, t) && k < c.Size() && i + 1 < |t.buckets[k]|
    requires var b := t.buckets[k];
             && c.Index(b[i + 1].key) == k && Find(b, b[i + 1].key) == i + 1
             && cb(visits, b[i].key, b[i].value) == Effect([Assignment(b[i + 1].key, Nil, true)], false)
    ensures var trip := VisitBucket(c, t, k, PointerTo(t.buckets[k], i), cb, visits);
            trip.end == Dangling && trip.visited == [t.buckets[k][i]]
  {
    hide Seek, Find, BitAnd, Pow2, Follows;
    var b := t.buckets[k];
    var a := Assignment(b[i + 1].key, Nil, true);
    assert Addressed(b, t.nextId);
    SeekAt(b, t.nextId, i);
    SeekAt(b, t.nextId, i + 1);
    assert HitBy(c, t, k, b[i + 1].id, a);
    assert Hit(c, t, k, b[i + 1].id, [a]);
    SetAllKeepsAddresses(c, t, [a]);
    SetAllFollows(c, t, [a], k, i + 1);
    assert [b[i]] + [] == [b[i]];
  }

  // ---- callbacks that set nothing ----

  lemma {:induction false} QuietBucket(c: Config, t: Snapshot, k: nat, i: nat, cb: Callback, visits: nat)
    requires Sound(c, t) && k < c.Size() && i <= |t.buckets[k]|
    requires forall n, key, value :: cb(n, key, value) == Effect([], false)
    ensures VisitBucket(c, t, k, PointerTo(t.buckets[k], i), cb, visits) == Trip(t, t.buckets[k][i..], Finished)
    decreases |t.buckets[k]| - i
  {
    hide Seek;
    var b := t.buckets[k];
    assert Addressed(b, t.nextId);
    if i < |b| {
      SeekAt(b, t.nextId, i);
      QuietBucket(c, t, k, i + 1, cb, visits + 1);
      assert b[i..] == [b[i]] + b[i + 1..];
      assert SetAll(c, t, []) == t;
    } else {
      assert b[i..] == [];
    }
  }

  /** A callback that sets nothing sees every entry of every bucket, in order. */
  lemma {:induction false} QuietTable(c: Config, t: Snapshot, k: nat, cb: Callback, visits: nat)
    requires Sound(c, t) && k <= c.Size()
    requires forall n, key, value :: cb(n, key, value) == Effect([], false)
    ensures VisitTable(c, t, k, cb, visits) == Journey(t, t.buckets[k..], Finished)
    decreases c.Size() - k
  {
    hide VisitBucket;
    if k < c.Size() {
      QuietBucket(c, t, k, 0, cb, visits);
      assert t.buckets[k][0..] == t.buckets[k];
      QuietTable(c, t, k + 1, cb, visits + |t.buckets[k]|);
      assert t.buckets[k..] == [t.buckets[k]] + t.buckets[k + 1..];
    } else {
      assert t.buckets[k..] == [];
    }
  }
}
