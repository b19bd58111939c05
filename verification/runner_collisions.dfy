/** The per-CPU keys of a script may collide: an rcu table looks keys up by prefix, and the key of CPU 1 begins the key
    of CPU 10 (lib/lunatik/runner.lua over lib/luarcu.c). What then happens, and exactly when. */
module RunnerCollisions {
  import opened Bytes
  import opened Optional
  import opened RunnerNames
  import opened RcuTable
  import opened RcuMap
  import opened RunnerTables
  import opened RunnerTableRuns
  import R = Runner

  // ---- when keys collide ----

  ghost function KeysOfScript(s: Name, n: nat): iset<Key> {
    iset k: Key | R.IsCpuKey(s, n, k)
  }

  /** The key of CPU `a` is stored, shares a bucket with the key of CPU `b`, and begins with it. */
  predicate Shadows(c: Config, s: Name, b: nat, a: nat) {
    Heads(b, a) && |CpuKey(s, a)| < c.maxKey && c.Index(CpuKey(s, a)) == c.Index(CpuKey(s, b))
  }

  predicate Shadowed(c: Config, s: Name, n: nat, b: nat) {
    exists a: nat :: a < n && Shadows(c, s, b, a)
  }

  lemma CpuKeyNulFree(s: Name, c: nat)
    requires 0 !in s
    ensures 0 !in CpuKey(s, c) && CStr(CpuKey(s, c)) == CpuKey(s, c)
  {
    DecimalNulFree(c);
    CStrMatchesItself(CpuKey(s, c));
  }

  lemma CollidesIff(c: Config, s: Name, a: nat, b: nat)
    requires 0 !in s
    ensures Collides(c, CpuKey(s, a), CpuKey(s, b)) <==> Shadows(c, s, b, a)
  {
    CpuKeyNulFree(s, a);
    CpuKeyNulFree(s, b);
    CollidesMeans(c, CpuKey(s, a), CpuKey(s, b));
    CpuKeyPrefix(s, b, a);
  }

  /** The keys of a script do not collide if and only if no CPU is shadowed. */
  lemma SeparateIff(c: Config, s: Name, n: nat)
    requires 0 !in s
    ensures Separate(c, KeysOfScript(s, n)) <==> forall b: nat | b < n :: !Shadowed(c, s, n, b)
  {
    hide CpuKey, Collides, Shadows;
    if Separate(c, KeysOfScript(s, n)) {
      forall a: nat, b: nat | a < n && b < n ensures !Shadows(c, s, b, a) {
        assert CpuKey(s, a) in KeysOfScript(s, n) && CpuKey(s, b) in KeysOfScript(s, n);
        CollidesIff(c, s, a, b);
      }
    }
    if forall b: nat | b < n :: !Shadowed(c, s, n, b) {
      forall x, y | x in KeysOfScript(s, n) && y in KeysOfScript(s, n) ensures !Collides(c, x, y) {
        var a: nat :| a < n && x == CpuKey(s, a);
        var b: nat :| b < n && y == CpuKey(s, b);
        CollidesIff(c, s, a, b);
        assert !Shadowed(c, s, n, b);
      }
    }
  }

  /** In a table of any size, the keys of a script do not collide, whatever the hash, if and only if there are at most
      ten CPUs or the table is too narrow to store the key of CPU 10. */
  lemma SeparateForEveryHashIff(bits: nat, maxKey: nat, s: Name, n: nat)
    requires 0 !in s
    ensures (forall hash: Key -> nat :: Separate(Config(bits, hash, maxKey), KeysOfScript(s, n)))
       <==> n <= 10 || maxKey <= |CpuKey(s, 10)|
  {
    hide Separate, CpuKey, KeysOfScript;
    if n <= 10 || maxKey <= |CpuKey(s, 10)| {
      forall hash: Key -> nat ensures Separate(Config(bits, hash, maxKey), KeysOfScript(s, n)) {
        SeparateIff(Config(bits, hash, maxKey), s, n);
        forall b: nat, a: nat | a < n ensures !Shadows(Config(bits, hash, maxKey), s, b, a) { LongKeys(s, a); }
      }
    } else {
      CollidesUnderOneHash(bits, maxKey, s, n);
    }
  }

  lemma CollidesUnderOneHash(bits: nat, maxKey: nat, s: Name, n: nat)
    requires 0 !in s && n > 10 && maxKey > |CpuKey(s, 10)|
    ensures !Separate(Config(bits, k => 0, maxKey), KeysOfScript(s, n))
  {
    hide Separate, CpuKey, KeysOfScript;
    var c := Config(bits, k => 0, maxKey);
    SeparateIff(c, s, n);
    assert Heads(1, 10);
    assert Shadows(c, s, 1, 10);
    assert Shadowed(c, s, n, 1);
  }

  lemma LongKeys(s: Name, a: nat)
    ensures a >= 10 ==> |CpuKey(s, a)| >= |CpuKey(s, 10)|
  {
    assert Decimal(10) == Decimal(1) + [Digit(0)];
  }

  // ---- the buckets ----

  /** The entry of CPU `a`, which is given the `a`th runtime. */
  function Node(s: Name, a: nat): Entry {
    Entry(a, CpuKey(s, a), Object(a))
  }

  predicate InBucket(c: Config, s: Name, i: nat, a: nat) {
    c.Index(CpuKey(s, a)) == i
  }

  /** Bucket `i` with the entries left of the CPUs below `n`: the newest in front. */
  function NodesIn(c: Config, s: Name, left: set<int>, i: nat, n: nat): Bucket {
    if n == 0 then []
    else (if n - 1 in left && InBucket(c, s, i, n - 1) then [Node(s, n - 1)] else []) + NodesIn(c, s, left, i, n - 1)
  }

  /** A lookup of the key of CPU `b` matches the entry of CPU `a`. */
  predicate Matches(b: nat, a: nat) {
    a == b || Heads(b, a)
  }

  lemma NodeMatches(s: Name, b: nat, a: nat)
    requires 0 !in s
    ensures StrNCmpEqual(CpuKey(s, a), CpuKey(s, b)) <==> Matches(b, a)
  {
    CpuKeyNulFree(s, a);
    CpuKeyNulFree(s, b);
    MatchMeans(CpuKey(s, a), CpuKey(s, b));
    CpuKeyPrefix(s, b, a);
    hide CpuKey, StrNCmpEqual, Heads;
    if CpuKey(s, a) == CpuKey(s, b) { KeyInjective(s, a, s, b); }
  }

  /** The CPU whose entry a lookup of the key of CPU `b` finds, or -1: the largest that matches. */
  function Top(c: Config, s: Name, left: set<int>, b: nat, n: nat): (a: int)
    ensures -1 <= a < n
    ensures a >= 0 ==> a in left && InBucket(c, s, c.Index(CpuKey(s, b)), a) && Matches(b, a)
    ensures forall x: nat | a < x < n && x in left && InBucket(c, s, c.Index(CpuKey(s, b)), x) :: !Matches(b, x)
  {
    if n == 0 then -1
    else if n - 1 in left && InBucket(c, s, c.Index(CpuKey(s, b)), n - 1) && Matches(b, n - 1) then n - 1
    else Top(c, s, left, b, n - 1)
  }

  lemma TopIsNotLess(c: Config, s: Name, left: set<int>, b: nat, n: nat)
    ensures Top(c, s, left, b, n) >= 0 ==> Top(c, s, left, b, n) >= b
  {
    hide Top;
    var a := Top(c, s, left, b, n);
    if a >= 0 && a != b { HeadsIsLess(b, a); }
  }

  lemma {:induction false} NodesSame(c: Config, s: Name, left: set<int>, left': set<int>, i: nat, n: nat)
    requires forall a: nat | a < n :: a in left <==> a in left'
    ensures NodesIn(c, s, left, i, n) == NodesIn(c, s, left', i, n)
    decreases n
  {
    hide InBucket, Node;
    if n == 0 {
    } else {
      NodesSame(c, s, left, left', i, n - 1);
    }
  }

  /** What a lookup of the key of CPU `b` finds, and what a removal leaves. */
  lemma {:induction false} FindsTop(c: Config, s: Name, left: set<int>, i: nat, b: nat, n: nat, id: nat)
    requires 0 !in s && c.Index(CpuKey(s, b)) == i
    ensures var bucket, key, top := NodesIn(c, s, left, i, n), CpuKey(s, b), Top(c, s, left, b, n);
            && (top < 0 ==> Find(bucket, key) < 0)
            && (top >= 0 ==> Lookup(bucket, key) == Object(top)
                             && Updated(bucket, key, Nil, id) == NodesIn(c, s, left - {top}, i, n))
    decreases n
  {
    hide CpuKey, StrNCmpEqual, Matches, BitAnd, Pow2, Find, Lookup, Updated, Node, InBucket, NodesIn, Top;
    var key := CpuKey(s, b);
    if n == 0 {
      NoNodes(c, s, left, i);
      NotFound(key);
    } else {
      var rest, top := NodesIn(c, s, left, i, n - 1), Top(c, s, left, b, n);
      FindsTop(c, s, left, i, b, n - 1, id);
      NodesStep(c, s, left, i, n - 1);
      NodesStep(c, s, left - {top}, i, n - 1);
      TopStep(c, s, left, b, n - 1);
      if n - 1 in left && InBucket(c, s, i, n - 1) {
        NodeMatches(s, b, n - 1);
        NodeKey(s, n - 1);
        if Matches(b, n - 1) {
          FoundFirst(Node(s, n - 1), rest, key, id);
          NodesSame(c, s, left, left - {n - 1}, i, n - 1);
        } else {
          FoundLater(Node(s, n - 1), rest, key, id);
        }
      }
    }
  }

  lemma NodesStep(c: Config, s: Name, left: set<int>, i: nat, m: nat)
    ensures NodesIn(c, s, left, i, m + 1) ==
              if m in left && InBucket(c, s, i, m) then [Node(s, m)] + NodesIn(c, s, left, i, m) else NodesIn(c, s, left, i, m)
  {
    hide InBucket, Node;
    assert [] + NodesIn(c, s, left, i, m) == NodesIn(c, s, left, i, m);
  }

  lemma TopStep(c: Config, s: Name, left: set<int>, b: nat, m: nat)
    ensures Top(c, s, left, b, m + 1) ==
              if m in left && InBucket(c, s, c.Index(CpuKey(s, b)), m) && Matches(b, m) then m else Top(c, s, left, b, m)
  {
    hide InBucket, Matches, CpuKey;
  }

  lemma NotFound(key: Key)
    ensures Find([], key) < 0
  {
  }

  lemma NodeKey(s: Name, a: nat)
    ensures Node(s, a).key == CpuKey(s, a) && Node(s, a).value == Object(a)
  {
  }

  lemma FoundFirst(node: Entry, rest: Bucket, key: Key, id: nat)
    requires StrNCmpEqual(node.key, key)
    ensures Find([node] + rest, key) == 0 && Lookup([node] + rest, key) == node.value
    ensures Updated([node] + rest, key, Nil, id) == rest
  {
    hide StrNCmpEqual;
    var b := [node] + rest;
    assert b[1..] == rest && b[..0] == [];
  }

  lemma FoundLater(node: Entry, rest: Bucket, key: Key, id: nat)
    requires !StrNCmpEqual(node.key, key)
    ensures Find([node] + rest, key) == (if Find(rest, key) < 0 then -1 else Find(rest, key) + 1)
    ensures Lookup([node] + rest, key) == Lookup(rest, key)
    ensures Updated([node] + rest, key, Nil, id) == [node] + Updated(rest, key, Nil, id)
  {
    FindLater(node, rest, key);
    hide StrNCmpEqual, Find;
    var f := Find(rest, key);
    if f >= 0 { WithoutLater(node, rest, f); }
  }

  lemma FindLater(node: Entry, rest: Bucket, key: Key)
    requires !StrNCmpEqual(node.key, key)
    ensures Find([node] + rest, key) == (if Find(rest, key) < 0 then -1 else Find(rest, key) + 1)
  {
    hide StrNCmpEqual;
    var b := [node] + rest;
    assert b[0] == node && b[1..] == rest;
  }

  lemma WithoutLater(node: Entry, rest: Bucket, f: nat)
    requires f < |rest|
    ensures var b := [node] + rest; b[..f + 1] + b[f + 2..] == [node] + (rest[..f] + rest[f + 1..])
  {
  }

  ghost predicate HasNodes(c: Config, s: Name, t: Snapshot, left: set<int>, n: nat) {
    |t.buckets| == c.Size() && forall i | 0 <= i < c.Size() :: t.buckets[i] == NodesIn(c, s, left, i, n)
  }

  // ---- a run on empty tables ----

  function Below(n: nat): (r: set<int>)
    ensures forall a: int :: a in r <==> 0 <= a < n
  {
    if n == 0 then {} else Below(n - 1) + {n - 1}
  }

  ghost predicate Storable(c: Config, s: Name, n: nat) {
    forall a: nat | a < n :: |CpuKey(s, a)| < c.maxKey
  }

  ghost predicate FirstRuntimes(s: Name, place: map<nat, R.Place>, n: nat) {
    forall a: nat | a < n :: a in place && place[a] == R.InPercpu(CpuKey(s, a))
  }

  /** Every key goes in front: no earlier key begins with it. */
  lemma {:induction false} AddedNodes(cs: Configs, s: Name, n: nat)
    requires 0 !in s && Storable(cs.percpu, s, n)
    ensures var t := Added(cs, Empty(cs), s, n);
            && HasNodes(cs.percpu, s, t.percpu, Below(n), n) && t.percpu.nextId == n && t.next == n
            && FirstRuntimes(s, t.place, n) && t.runtimes == Empty(cs).runtimes && t.threads == Empty(cs).threads
    decreases n
  {
    hide CpuKey, HasNodes, Store, EmptyTable;
    if n == 0 {
      EmptyHasNodes(cs.percpu, s);
    } else {
      AddedNodes(cs, s, n - 1);
      AddNode(cs.percpu, s, Added(cs, Empty(cs), s, n - 1).percpu, n - 1);
    }
  }

  lemma EmptyHasNodes(c: Config, s: Name)
    ensures HasNodes(c, s, EmptyTable(c), Below(0), 0) && EmptyTable(c).nextId == 0
  {
    hide NodesIn, BitAnd, Pow2;
    forall i | 0 <= i < c.Size() ensures [] == NodesIn(c, s, Below(0), i, 0) { NoNodes(c, s, Below(0), i); }
  }

  lemma NoNodes(c: Config, s: Name, left: set<int>, i: nat)
    ensures NodesIn(c, s, left, i, 0) == []
  {
  }

  lemma AddNode(c: Config, s: Name, t: Snapshot, m: nat)
    requires 0 !in s && |CpuKey(s, m)| < c.maxKey && HasNodes(c, s, t, Below(m), m) && t.nextId == m
    ensures HasNodes(c, s, Store(c, t, CpuKey(s, m), Object(m)), Below(m + 1), m + 1)
    ensures Store(c, t, CpuKey(s, m), Object(m)).nextId == m + 1
  {
    hide CpuKey, BitAnd, Pow2, NodesIn, StrNCmpEqual, Find, CStr, Top;
    var key, i := CpuKey(s, m), c.Index(CpuKey(s, m));
    FindsTop(c, s, Below(m), i, m, m, 0);
    TopIsNotLess(c, s, Below(m), m, m);
    CpuKeyNulFree(s, m);
    assert Find(t.buckets[i], key) < 0;
    var t' := Store(c, t, key, Object(m));
    assert t'.buckets == t.buckets[i := [Node(s, m)] + t.buckets[i]];
    forall j | 0 <= j < c.Size() ensures t'.buckets[j] == NodesIn(c, s, Below(m + 1), j, m + 1) {
      NodesSame(c, s, Below(m), Below(m + 1), j, m);
      NodesStep(c, s, Below(m + 1), j, m);
    }
  }

  lemma FetchTop(c: Config, s: Name, t: Snapshot, left: set<int>, n: nat, b: nat)
    requires 0 !in s && HasNodes(c, s, t, left, n)
    ensures var top := Top(c, s, left, b, n); Fetch(c, t, CpuKey(s, b)) == if top < 0 then Nil else Object(top)
  {
    hide CpuKey, BitAnd, Pow2, NodesIn, Find, Top;
    FindsTop(c, s, left, c.Index(CpuKey(s, b)), b, n, 0);
  }

  // ---- stopping ----

  /** The CPUs whose entries are left after the stops for the CPUs below `b`. */
  function Left(c: Config, s: Name, n: nat, b: nat): set<int> {
    if b == 0 then Below(n)
    else var left := Left(c, s, n, b - 1); left - {Top(c, s, left, b - 1, n)}
  }

  /** A stop removes the entry that the lookup finds and stops that entry's runtime. */
  lemma StopOne(cs: Configs, t: Tables, s: Name, left: set<int>, n: nat, b: nat)
    requires 0 !in s && Sized(cs, t) && HasNodes(cs.percpu, s, t.percpu, left, n)
    ensures var t', top := StopPercpu(cs, t, CpuKey(s, b)), Top(cs.percpu, s, left, b, n);
            && HasNodes(cs.percpu, s, t'.percpu, left - {top}, n)
            && t'.place == if top < 0 then t.place else t.place[top := R.Stopped]
  {
    hide CpuKey, BitAnd, Pow2, NodesIn, Find, Top, Lookup, Updated;
    var c := cs.percpu;
    var key, i, top := CpuKey(s, b), c.Index(CpuKey(s, b)), Top(c, s, left, b, n);
    FindsTop(c, s, left, i, b, n, t.percpu.nextId);
    FetchTop(c, s, t.percpu, left, n, b);
    forall j | 0 <= j < c.Size() && (top < 0 || j != i)
      ensures NodesIn(c, s, left - {top}, j, n) == NodesIn(c, s, left, j, n)
    {
      OtherBucket(c, s, left, top, i, j, n);
    }
  }

  /** An entry is in one bucket only. */
  lemma {:induction false} OtherBucket(c: Config, s: Name, left: set<int>, top: int, i: nat, j: nat, n: nat)
    requires top < 0 || (InBucket(c, s, i, top) && i != j)
    ensures NodesIn(c, s, left - {top}, j, n) == NodesIn(c, s, left, j, n)
    decreases n
  {
    if n == 0 {
    } else {
      OtherBucket(c, s, left, top, i, j, n - 1);
    }
  }

  lemma {:induction false} StoppedNodes(cs: Configs, t: Tables, s: Name, n: nat, b: nat)
    requires 0 !in s && Sized(cs, t) && HasNodes(cs.percpu, s, t.percpu, Below(n), n) && FirstRuntimes(s, t.place, n)
    ensures var t' := StoppedCpus(cs, t, s, b);
            && HasNodes(cs.percpu, s, t'.percpu, Left(cs.percpu, s, n, b), n)
            && forall a: nat | a < n :: a in t'.place
                 && t'.place[a] == if a in Left(cs.percpu, s, n, b) then R.InPercpu(CpuKey(s, a)) else R.Stopped
    decreases b
  {
    hide CpuKey, HasNodes, Top, StopPercpu;
    if b == 0 {
    } else {
      StoppedNodes(cs, t, s, n, b - 1);
      StopOne(cs, StoppedCpus(cs, t, s, b - 1), s, Left(cs.percpu, s, n, b - 1), n, b - 1);
    }
  }

  /** As long as no CPU is shadowed, every stop takes its own entry. */
  lemma {:induction false} LeftWhileOwn(c: Config, s: Name, n: nat, b: nat)
    requires b <= n && Storable(c, s, n) && forall x: nat | x < b :: !Shadowed(c, s, n, x)
    ensures forall a: int :: a in Left(c, s, n, b) <==> b <= a < n
    decreases b
  {
    hide CpuKey, Shadowed, Top;
    if b == 0 {
    } else {
      LeftWhileOwn(c, s, n, b - 1);
      TopIsOwn(c, s, Left(c, s, n, b - 1), n, b - 1);
    }
  }

  lemma TopIsOwn(c: Config, s: Name, left: set<int>, n: nat, b: nat)
    requires b < n && b in left && Storable(c, s, n) && !Shadowed(c, s, n, b)
    ensures Top(c, s, left, b, n) == b
  {
    hide CpuKey, Heads, Top;
    var a := Top(c, s, left, b, n);
    assert Matches(b, b) && InBucket(c, s, c.Index(CpuKey(s, b)), b);
    assert a >= b;
    assert !Shadows(c, s, b, a);
  }

  lemma TopIsAnother(c: Config, s: Name, left: set<int>, n: nat, b: nat)
    requires b < n && Shadowed(c, s, n, b) && forall a: int | b <= a < n :: a in left
    ensures Top(c, s, left, b, n) > b
  {
    hide CpuKey, Heads, Top;
    var a: nat :| a < n && Shadows(c, s, b, a);
    HeadsIsLess(b, a);
    assert Matches(b, a) && InBucket(c, s, c.Index(CpuKey(s, b)), a);
  }

  /** An entry that its own stop did not take stays. */
  lemma {:induction false} Stays(c: Config, s: Name, n: nat, b: nat, x: nat)
    requires b < x && b in Left(c, s, n, b + 1)
    ensures b in Left(c, s, n, x)
    decreases x
  {
    hide Top;
    if x == b + 1 {
    } else {
      Stays(c, s, n, b, x - 1);
      TopIsNotLess(c, s, Left(c, s, n, x - 1), x - 1, n);
    }
  }

  /** The first CPU that is shadowed keeps its entry. */
  lemma FirstShadowedStays(c: Config, s: Name, n: nat, b: nat)
    requires b < n && Storable(c, s, n) && Shadowed(c, s, n, b) && forall x: nat | x < b :: !Shadowed(c, s, n, x)
    ensures b in Left(c, s, n, n)
  {
    hide Shadowed, Top, CpuKey;
    LeftWhileOwn(c, s, n, b);
    TopIsAnother(c, s, Left(c, s, n, b), n, b);
    assert b in Left(c, s, n, b + 1);
    Stays(c, s, n, b, n);
  }

  lemma {:induction false} FirstShadowed(c: Config, s: Name, n: nat, b: nat) returns (first: nat)
    requires Shadowed(c, s, n, b)
    ensures first <= b && Shadowed(c, s, n, first) && forall x: nat | x < first :: !Shadowed(c, s, n, x)
    decreases b
  {
    hide Shadowed;
    if x: nat :| x < b && Shadowed(c, s, n, x) {
      first := FirstShadowed(c, s, n, x);
    } else {
      first := b;
    }
  }

  lemma {:induction false} LeftShows(c: Config, s: Name, left: set<int>, n: nat, a: nat)
    requires a in left && a < n
    ensures NodesIn(c, s, left, c.Index(CpuKey(s, a)), n) != []
    decreases n
  {
    if n - 1 == a {
    } else {
      LeftShows(c, s, left, n - 1, a);
    }
  }

  lemma {:induction false} NothingLeft(c: Config, s: Name, left: set<int>, i: nat, n: nat)
    requires forall a: nat | a < n :: a !in left
    ensures NodesIn(c, s, left, i, n) == []
    decreases n
  {
    if n == 0 {
    } else {
      NothingLeft(c, s, left, i, n - 1);
    }
  }

  // ---- running a script on every CPU and stopping it ----

  /** The tables after a script is run per CPU on empty tables. */
  function Started(cs: Configs, n: nat, script: Name): Tables {
    Run(cs, Empty(cs), n, script, true, R.NoFailure).0
  }

  lemma EmptyFetches(c: Config, key: Key)
    ensures Fetch(c, EmptyTable(c), key) == Nil
  {
    hide BitAnd, Pow2;
    assert EmptyTable(c).buckets[c.Index(key)] == [];
  }

  lemma StartedMeans(cs: Configs, n: nat, script: Name)
    requires 0 !in Trim(script) && Storable(cs.percpu, Trim(script), n)
    ensures Sized(cs, Started(cs, n, script)) && Started(cs, n, script) == Added(cs, Empty(cs), Trim(script), n)
    ensures Stop(cs, Started(cs, n, script), n, script) == StoppedCpus(cs, Started(cs, n, script), Trim(script), n)
  {
    hide Trim, CpuKey, Fetch, Added, StoppedCpus, HasNodes, FirstRuntimes;
    var s := Trim(script);
    EmptyFetches(cs.runtimes, s);
    EmptyFetches(cs.percpu, CpuKey(s, 0));
    MeetsNothing(cs.percpu, n, s, 0);
    AddedNodes(cs, s, n);
    EmptyFetches(cs.threads, s);
  }

  lemma {:induction false} MeetsNothing(c: Config, n: nat, s: Name, cpu: nat)
    requires Storable(c, s, n)
    ensures Meets(c, n, s, R.NoFailure, cpu) == R.NoFailure
    decreases n - cpu
  {
    hide CpuKey;
    if cpu >= n {
    } else {
      MeetsNothing(c, n, s, cpu + 1);
    }
  }

  /** Every CPU finds its own runtime if and only if no two of the script's keys collide. */
  lemma OwnRuntimesIff(cs: Configs, n: nat, script: Name)
    requires 0 !in Trim(script) && Storable(cs.percpu, Trim(script), n)
    ensures var t := Started(cs, n, script);
            && Sized(cs, t)
            && ((forall b: nat | b < n :: Fetch(cs.percpu, t.percpu, CpuKey(Trim(script), b)) == Object(b))
                <==> Separate(cs.percpu, KeysOfScript(Trim(script), n)))
  {
    hide Trim, CpuKey, Fetch, Added, HasNodes, FirstRuntimes, Shadowed, Top, Separate, Started, Storable;
    var c, s, t := cs.percpu, Trim(script), Started(cs, n, script);
    StartedMeans(cs, n, script);
    AddedNodes(cs, s, n);
    SeparateIff(c, s, n);
    forall b: nat | b < n ensures Fetch(c, t.percpu, CpuKey(s, b)) == Object(b) <==> !Shadowed(c, s, n, b) {
      FetchTop(c, s, t.percpu, Below(n), n, b);
      if Shadowed(c, s, n, b) { TopIsAnother(c, s, Below(n), n, b); } else { TopIsOwn(c, s, Below(n), n, b); }
    }
  }

  /** Stopping the script removes every entry if and only if no two of its keys collide. */
  lemma StopEmptiesIff(cs: Configs, n: nat, script: Name)
    requires 0 !in Trim(script) && Storable(cs.percpu, Trim(script), n)
    ensures Sized(cs, Started(cs, n, script))
    ensures NoEntries(Stop(cs, Started(cs, n, script), n, script).percpu)
            <==> Separate(cs.percpu, KeysOfScript(Trim(script), n))
  {
    hide Trim, CpuKey, Added, FirstRuntimes, Shadowed, Top, Separate, Started, Storable, StoppedCpus, Stop, NodesIn, BitAnd, Pow2;
    var c, s, t := cs.percpu, Trim(script), Started(cs, n, script);
    StartedMeans(cs, n, script);
    AddedNodes(cs, s, n);
    StoppedNodes(cs, t, s, n, n);
    SeparateIff(c, s, n);
    var t' := StoppedCpus(cs, t, s, n);
    if b: nat :| b < n && Shadowed(c, s, n, b) {
      var first := FirstShadowed(c, s, n, b);
      FirstShadowedStays(c, s, n, first);
      LeftShows(c, s, Left(c, s, n, n), n, first);
      assert t'.percpu.buckets[c.Index(CpuKey(s, first))] != [];
    } else {
      LeftWhileOwn(c, s, n, n);
      forall i | 0 <= i < c.Size() ensures t'.percpu.buckets[i] == [] { NothingLeft(c, s, Left(c, s, n, n), i, n); }
    }
  }

  /** Otherwise the first CPU that is shadowed stays registered, and its runtime is not stopped. */
  lemma Survivor(cs: Configs, n: nat, script: Name, b: nat)
    requires 0 !in Trim(script) && Storable(cs.percpu, Trim(script), n) && b < n
    requires Shadowed(cs.percpu, Trim(script), n, b) && forall x: nat | x < b :: !Shadowed(cs.percpu, Trim(script), n, x)
    ensures Sized(cs, Started(cs, n, script))
    ensures var t', s := Stop(cs, Started(cs, n, script), n, script), Trim(script);
            && Fetch(cs.percpu, t'.percpu, CpuKey(s, b)).Object?
            && b in t'.place && t'.place[b] == R.InPercpu(CpuKey(s, b))
  {
    hide Trim, CpuKey, Added, FirstRuntimes, Shadowed, Top, Started, Storable, StoppedCpus, Stop, NodesIn, BitAnd, Pow2, Fetch, HasNodes;
    var c, s, t := cs.percpu, Trim(script), Started(cs, n, script);
    StartedMeans(cs, n, script);
    AddedNodes(cs, s, n);
    StoppedNodes(cs, t, s, n, n);
    FirstShadowedStays(c, s, n, b);
    FetchTop(c, s, StoppedCpus(cs, t, s, n).percpu, Left(c, s, n, n), n, b);
    TopAtLeast(c, s, Left(c, s, n, n), n, b);
  }

  lemma TopAtLeast(c: Config, s: Name, left: set<int>, n: nat, b: nat)
    requires b in left && b < n
    ensures Top(c, s, left, b, n) >= b
  {
    hide Top, CpuKey, Heads;
    assert Matches(b, b) && InBucket(c, s, c.Index(CpuKey(s, b)), b);
  }

  /** With eleven CPUs, if the keys of CPUs 1 and 10 share a bucket: packets on CPU 1 are given the runtime of CPU 10,
      and stopping the script leaves CPU 1's runtime registered and running. */
  lemma ElevenCpus(cs: Configs, script: Name)
    requires 0 !in Trim(script) && Storable(cs.percpu, Trim(script), 11)
    requires cs.percpu.Index(CpuKey(Trim(script), 1)) == cs.percpu.Index(CpuKey(Trim(script), 10))
    ensures var t, s := Started(cs, 11, script), Trim(script);
            && Sized(cs, t) && Dispatch(cs, t, s, 1) == Some(10)
            && var t' := Stop(cs, t, 11, script);
            && Fetch(cs.percpu, t'.percpu, CpuKey(s, 1)).Object?
            && 1 in t'.place && t'.place[1] == R.InPercpu(CpuKey(s, 1))
  {
    hide Trim, CpuKey, Added, FirstRuntimes, Top, Started, StoppedCpus, Stop, NodesIn, BitAnd, Pow2, Fetch, HasNodes;
    var c, s, t := cs.percpu, Trim(script), Started(cs, 11, script);
    assert Heads(1, 10);
    assert Shadows(c, s, 1, 10);
    assert !Shadowed(c, s, 11, 0) by { forall a: nat | a < 11 ensures !Heads(0, a) { if Heads(0, a) { HeadsIsLess(0, a); } } }
    Survivor(cs, 11, script, 1);
    StartedMeans(cs, 11, script);
    AddedNodes(cs, s, 11);
    TopIsAnother(c, s, Below(11), 11, 1);
    TopIsTen(c, s);
    FetchTop(c, s, t.percpu, Below(11), 11, 1);
    EmptyFetches(cs.runtimes, s);
    CStrMatchesItself(s);
    assert |CpuKey(s, 1)| < c.maxKey;
  }

  lemma TopIsTen(c: Config, s: Name)
    requires Top(c, s, Below(11), 1, 11) > 1
    ensures Top(c, s, Below(11), 1, 11) == 10
  {
    hide Top, CpuKey;
    HeadsIsLess(1, Top(c, s, Below(11), 1, 11));
  }

  // ---- different scripts ----

  /** Keys of scripts without colons in their names collide only within a script. */
  lemma ScriptsApartIff(u: Use)
    requires NulFree(u.keys) && forall s | s in u.keys :: COLON !in s
    ensures Separate(u.cs.percpu, CpuKeys(u)) <==> forall s | s in u.keys :: Separate(u.cs.percpu, KeysOfScript(s, u.n))
  {
    hide CpuKey, Collides;
    var c := u.cs.percpu;
    if Separate(c, CpuKeys(u)) {
      forall s | s in u.keys ensures Separate(c, KeysOfScript(s, u.n)) {
        forall x | x in KeysOfScript(s, u.n) ensures x in CpuKeys(u) {
          var a: nat :| a < u.n && x == CpuKey(s, a);
          CpuKeyUsed(u, s, a);
        }
      }
    }
    if forall s | s in u.keys :: Separate(c, KeysOfScript(s, u.n)) {
      forall x, y | x in CpuKeys(u) && y in CpuKeys(u) ensures !Collides(c, x, y) {
        assert ForCpu(u, x) && ForCpu(u, y);
        var s, a: nat :| s in u.keys && a < u.n && x == CpuKey(s, a);
        var s', b: nat :| s' in u.keys && b < u.n && y == CpuKey(s', b);
        if s != s' { KeysApart(c, s, a, s', b); } else { assert x in KeysOfScript(s, u.n) && y in KeysOfScript(s, u.n); }
      }
    }
  }

  lemma KeysApart(c: Config, s: Name, a: nat, s': Name, b: nat)
    requires 0 !in s && 0 !in s' && COLON !in s && COLON !in s' && s != s'
    ensures !Collides(c, CpuKey(s, a), CpuKey(s', b))
  {
    CpuKeyNulFree(s, a);
    CpuKeyNulFree(s', b);
    CollidesMeans(c, CpuKey(s, a), CpuKey(s', b));
    hide CpuKey, Collides;
    if CpuKey(s', b) < CpuKey(s, a) { OtherScriptsApart(s', b, s, a); }
  }

  /** A script whose name begins the name of a running one in the same bucket cannot be run, and the hook gives its
      packets to the other script. */
  lemma PrefixScript(cs: Configs, n: nat, a: Name, b: Name)
    requires Trim(a) == a && Trim(b) == b && Collides(cs.runtimes, a, b)
    ensures var t := Run(cs, Empty(cs), n, a, false, R.NoFailure).0;
            && Run(cs, Empty(cs), n, a, false, R.NoFailure).1 == R.Done
            && Run(cs, t, n, b, false, R.NoFailure) == (t, R.AlreadyRunning)
            && forall cpu: nat :: Dispatch(cs, t, b, cpu) == Some(0)
  {
    hide Trim, CpuKey, BitAnd, Pow2, StrNCmpEqual, CStr;
    EmptyFetches(cs.runtimes, a);
    EmptyFetches(cs.percpu, CpuKey(a, 0));
    var t := Run(cs, Empty(cs), n, a, false, R.NoFailure).0;
    assert t.runtimes.buckets[cs.runtimes.Index(a)] == [Entry(0, CStr(a), Object(0))];
    assert Fetch(cs.runtimes, t.runtimes, b) == Object(0);
  }
}
