/** Sorted string sets queried by binary search (lib/luaset.c). */
module StringSet {
  import opened Bytes

  type Key = seq<byte>

  const SEP: byte := 46
  const U32_MAX: nat := 0xffff_ffff

  // ---- the order on keys ----

  function MemCmp(a: Key, b: Key): int
    requires |a| == |b|
  {
    if a == [] then 0 else if a[0] != b[0] then a[0] - b[0] else MemCmp(a[1..], b[1..])
  }

  function KeyCmp(a: Key, b: Key): int {
    var m := if |a| < |b| then |a| else |b|;
    var c := MemCmp(a[..m], b[..m]);
    if c != 0 then c else if |a| > |b| then 1 else if |a| < |b| then -1 else 0
  }

  lemma {:induction false} KeyCmpTail(a: Key, b: Key)
    requires a != [] && b != [] && a[0] == b[0]
    ensures KeyCmp(a, b) == KeyCmp(a[1..], b[1..])
  {
    var m := if |a| < |b| then |a| else |b|;
    assert a[..m][1..] == a[1..][..m - 1] && b[..m][1..] == b[1..][..m - 1];
  }

  lemma KeyCmpHead(a: Key, b: Key)
    ensures a != [] && b != [] && a[0] != b[0] ==> KeyCmp(a, b) == a[0] as int - b[0] as int
    ensures a == [] || b == [] ==> KeyCmp(a, b) == if |a| > |b| then 1 else if |a| < |b| then -1 else 0
  {
  }

  /** The comparison is a total order whose equality is equality of keys. */
  lemma {:induction false} KeyCmpEqual(a: Key, b: Key)
    ensures KeyCmp(a, b) == 0 <==> a == b
    decreases |a|
  {
    KeyCmpHead(a, b);
    if a != [] && b != [] && a[0] == b[0] {
      hide KeyCmp;
      KeyCmpTail(a, b);
      KeyCmpEqual(a[1..], b[1..]);
      assert a == [a[0]] + a[1..] && b == [b[0]] + b[1..];
    }
  }

  lemma {:induction false} KeyCmpSwap(a: Key, b: Key)
    ensures KeyCmp(a, b) < 0 <==> KeyCmp(b, a) > 0
    decreases |a|
  {
    hide KeyCmp;
    KeyCmpHead(a, b);
    KeyCmpHead(b, a);
    if a != [] && b != [] && a[0] == b[0] {
      KeyCmpTail(a, b);
      KeyCmpTail(b, a);
      KeyCmpSwap(a[1..], b[1..]);
    }
  }

  lemma {:induction false} KeyCmpTrans(a: Key, b: Key, c: Key)
    requires KeyCmp(a, b) <= 0 && KeyCmp(b, c) <= 0
    ensures KeyCmp(a, c) <= 0
    ensures KeyCmp(a, b) < 0 || KeyCmp(b, c) < 0 ==> KeyCmp(a, c) < 0
    decreases |a|
  {
    hide KeyCmp;
    KeyCmpHead(a, b);
    KeyCmpHead(b, c);
    KeyCmpHead(a, c);
    if a != [] && b != [] && c != [] {
      if a[0] == b[0] { KeyCmpTail(a, b); }
      if b[0] == c[0] { KeyCmpTail(b, c); }
      if a[0] == c[0] { KeyCmpTail(a, c); }
      if a[0] == b[0] == c[0] { KeyCmpTrans(a[1..], b[1..], c[1..]); }
    }
  }

  /** The keys differ first at `k`, where `a` ends or has the smaller byte. */
  predicate LessAt(a: Key, b: Key, k: nat) {
    && k <= |a| && k < |b| && (forall i | 0 <= i < k :: a[i] == b[i])
    && (k == |a| || a[k] < b[k])
  }

  /** The order is that of the bytes, a key coming before those that extend it. */
  lemma {:induction false} KeyCmpMeans(a: Key, b: Key)
    ensures KeyCmp(a, b) < 0 <==> exists k: nat :: LessAt(a, b, k)
    decreases |a|
  {
    hide KeyCmp;
    KeyCmpHead(a, b);
    if a == [] || b == [] || a[0] != b[0] {
      LessAtFront(a, b);
    } else {
      KeyCmpTail(a, b);
      KeyCmpMeans(a[1..], b[1..]);
      LessAtTail(a, b);
    }
  }

  lemma LessAtFront(a: Key, b: Key)
    requires a == [] || b == [] || a[0] != b[0]
    ensures (exists k: nat :: LessAt(a, b, k)) <==> b != [] && (a == [] || a[0] < b[0])
  {
    if b != [] && (a == [] || a[0] < b[0]) { assert LessAt(a, b, 0); }
  }

  lemma LessAtTail(a: Key, b: Key)
    requires a != [] && b != [] && a[0] == b[0]
    ensures (exists k: nat :: LessAt(a, b, k)) <==> exists k: nat :: LessAt(a[1..], b[1..], k)
  {
    if k: nat :| LessAt(a, b, k) { assert LessAt(a[1..], b[1..], k - 1); }
    if k: nat :| LessAt(a[1..], b[1..], k) { assert LessAt(a, b, k + 1); }
  }

  // ---- blob and offsets ----

  function Total(keys: seq<Key>): nat {
    if keys == [] then 0 else Total(keys[..|keys| - 1]) + |keys[|keys| - 1]|
  }

  function Concat(keys: seq<Key>): (b: seq<byte>)
    ensures |b| == Total(keys)
  {
    if keys == [] then [] else Concat(keys[..|keys| - 1]) + keys[|keys| - 1]
  }

  lemma TotalStep(keys: seq<Key>, i: nat)
    requires i < |keys|
    ensures Total(keys[..i + 1]) == Total(keys[..i]) + |keys[i]|
    ensures Concat(keys[..i + 1]) == Concat(keys[..i]) + keys[i]
  {
    assert keys[..i + 1][..i] == keys[..i];
  }

  /** The bytes between two offsets are the member. */
  lemma {:induction false} MemberAt(keys: seq<Key>, i: nat)
    requires i < |keys|
    ensures Total(keys[..i]) <= Total(keys[..i + 1]) <= Total(keys)
    ensures Concat(keys)[Total(keys[..i])..Total(keys[..i + 1])] == keys[i]
    decreases |keys|
  {
    TotalStep(keys, i);
    var a, b := Total(keys[..i]), Total(keys[..i + 1]);
    if i == |keys| - 1 {
      assert keys[..i + 1] == keys;
      SliceOf(Concat(keys[..i]), keys[i], 0, 0);
    } else {
      var front := keys[..|keys| - 1];
      MemberAt(front, i);
      assert front[..i] == keys[..i] && front[..i + 1] == keys[..i + 1];
      SliceOf(Concat(front), keys[|keys| - 1], a, b);
    }
  }

  lemma SliceOf(x: seq<byte>, y: seq<byte>, a: nat, b: nat)
    requires a <= b <= |x|
    ensures (x + y)[a..b] == x[a..b] && (x + y)[|x|..|x| + |y|] == y
  {
  }

  ghost predicate Sorted(keys: seq<Key>) {
    forall i, j | 0 <= i < j < |keys| :: KeyCmp(keys[i], keys[j]) <= 0
  }

  // ---- levels of a dotted name ----

  /** Index of the first separator, or the length. */
  function Dot(s: Key): (k: nat)
    ensures k <= |s| && (k < |s| ==> s[k] == SEP) && forall i | 0 <= i < k :: s[i] != SEP
  {
    if s == [] || s[0] == SEP then 0 else 1 + Dot(s[1..])
  }

  /** The levels that a walk tries: the name, then what follows each separator. */
  function Levels(s: Key): seq<Key> {
    if Dot(s) == |s| then [s] else [s] + Levels(s[Dot(s) + 1..])
  }

  predicate After(s: Key, i: nat, t: Key) {
    i < |s| && s[i] == 46 && s[i + 1..] == t
  }

  /** Whether `t` is `s`, or what follows some separator of `s`. */
  ghost predicate IsLevel(s: Key, t: Key) {
    t == s || exists i: nat :: After(s, i, t)
  }

  /** The walk tries exactly the name and its suffixes after a separator. */
  lemma {:induction false} LevelsMean(s: Key, t: Key)
    ensures t in Levels(s) <==> IsLevel(s, t)
    decreases |s|
  {
    var k := Dot(s);
    hide Dot;
    if k == |s| {
      assert forall i: nat :: !After(s, i, t);
    } else {
      LevelsMean(s[k + 1..], t);
      hide IsLevel;
      LevelAfterDot(s, k, t);
    }
  }

  /** The levels of a name: itself and the levels of what follows its first separator. */
  lemma LevelAfterDot(s: Key, k: nat, t: Key)
    requires k < |s| && s[k] == SEP && forall i | 0 <= i < k :: s[i] != SEP
    ensures IsLevel(s, t) <==> t == s || IsLevel(s[k + 1..], t)
  {
    var rest := s[k + 1..];
    if t == rest { assert After(s, k, t); }
    if i: nat :| After(rest, i, t) {
      assert s[k + 1 + i + 1..] == rest[i + 1..];
      assert After(s, k + 1 + i, t);
    }
    if i: nat :| After(s, i, t) {
      if i > k {
        assert s[i + 1..] == rest[i - k..];
        assert After(rest, i - k - 1, t);
      }
    }
  }

  // ---- the set ----

  class Set {
    var n: nat
    var off: array<nat>
    var blob: array<byte>
    var labels: array<nat>
    ghost var keys: seq<Key>
    ghost var table: map<Key, nat>

    constructor (off: array<nat>, blob: array<byte>, labels: array<nat>, ghost keys: seq<Key>, ghost table: map<Key, nat>)
      requires off.Length >= 1
      ensures this.off == off && this.blob == blob && this.labels == labels && n == off.Length - 1
      ensures this.keys == keys && this.table == table
    {
      this.n, this.off, this.blob, this.labels := off.Length - 1, off, blob, labels;
      this.keys, this.table := keys, table;
    }

    /** The blob holds the sorted members one after the other, and the offsets, 32 bits wide, delimit them. */
    ghost predicate Valid()
      reads this, off, blob
    {
      && n == |keys| && off.Length == n + 1 && off != labels
      && Total(keys) <= U32_MAX && Sorted(keys)
      && (forall i | 0 <= i <= n :: off[i] == Total(keys[..i]))
      && blob[..] == Concat(keys)
    }

    ghost predicate Labeled()
      reads this, off, blob, labels
    {
      && Valid() && labels.Length == n
      && (forall i | 0 <= i < n :: keys[i] in table && labels[i] == table[keys[i]])
      && (forall k | k in table :: k in keys && 1 <= table[k] <= U32_MAX)
    }

    /** The bytes between two offsets. */
    method Member(i: nat) returns (member: Key)
      requires Valid() && i < n
      ensures member == keys[i]
    {
      hide Total, Concat;
      MemberAt(keys, i);
      assert keys[..n] == keys;
      member := blob[off[i]..off[i + 1]];
      assert blob[..][off[i]..off[i + 1]] == member;
    }

    /** `find`: an index of the key if it is a member and -1 otherwise, in at most floor(log2 n) + 1 comparisons. */
    method Find(s: Key) returns (index: int, ghost steps: nat)
      requires Valid() && |s| <= U32_MAX
      ensures index >= 0 ==> index < n && keys[index] == s
      ensures index < 0 ==> index == -1 && s !in keys
      ensures steps > 0 ==> Pow2(steps - 1) <= n
    {
      hide KeyCmp, Total, Concat, Brackets, Within, Sorted;
      var lo, hi := 0, n - 1;
      steps := 0;
      AllWithin(keys, s);
      while lo <= hi
        invariant 0 <= lo && hi < n && lo <= hi + 1 && Brackets(keys, s, lo, hi)
        invariant Within(steps, hi - lo + 1, n)
        invariant steps > 0 ==> Pow2(steps - 1) <= n
        decreases hi - lo
      {
        var mid := lo + (hi - lo) / 2;
        var member := Member(mid);
        var c := KeyCmp(s, member);
        ghost var size := hi - lo + 1;
        steps := steps + 1;
        if c == 0 {
          KeyCmpEqual(s, member);
          HalvesBound(steps - 1, size, 0, n);
          return mid, steps;
        }
        if c < 0 {
          BelowMiss(keys, s, lo, hi, mid);
          hi := mid - 1;
        } else {
          AboveMiss(keys, s, lo, hi, mid);
          lo := mid + 1;
        }
        HalvesBound(steps - 1, size, hi - lo + 1, n);
      }
      MissMeans(keys, s, lo);
      return -1, steps;
    }

    /** `has`. The length of the query is cut to 32 bits. */
    method Has(s: Key) returns (found: bool)
      requires Valid()
      ensures found <==> Query(s) in keys
      ensures |s| < 0x1_0000_0000 ==> (found <==> s in keys)
    {
      var index, _ := Find(Query(s));
      found := index >= 0;
    }

    /** The label of one level, zero when it is no member. */
    method LevelLabel(q: Key) returns (found: nat)
      requires Labeled() && |q| <= U32_MAX
      ensures found == Label(table, q)
    {
      hide Sorted, Total, Concat;
      var index, _ := Find(q);
      found := if index >= 0 then labels[index] else 0;
    }

    /** `walk`: the union of the labels of the levels of `s` that are members. */
    method Walk(s: Key) returns (union: nat)
      requires Labeled()
      ensures union == Match(table, s)
    {
      hide BitOr, Match, Label, Query, Dot, Labeled;
      var i := 0;
      union := 0;
      OrZero(Match(table, s));
      assert s[0..] == s;
      while i <= |s|
        invariant i <= |s| && BitOr(union, Match(table, s[i..])) == Match(table, s)
        decreases |s| - i
      {
        ghost var before, rest := union, s[i..];
        var own := LevelLabel(Query(s[i..]));
        union := BitOr(union, own);
        MatchStep(table, rest);
        var next := i + Dot(s[i..]);
        if next == |s| { return; }
        assert s[next + 1..] == rest[Dot(rest) + 1..];
        OrAssociates(before, own, Match(table, s[next + 1..]));
        i := next + 1;
      }
    }
  }

  /** What the search is given for `s`: its length is cast to 32 bits. */
  function Query(s: Key): (q: Key)
    ensures |q| <= U32_MAX && (|s| <= U32_MAX ==> q == s)
  {
    s[..|s| % (U32_MAX + 1)]
  }

  lemma QueryCuts(s: Key)
    ensures Query(s) <= s && |Query(s)| == |s| % 0x1_0000_0000
  {
  }

  /** At most `size` of `n` members are left after `steps` halvings. */
  predicate Within(steps: nat, size: nat, n: nat) {
    Pow2(steps) * size <= n
  }

  lemma AllWithin(keys: seq<Key>, s: Key)
    ensures Within(0, |keys|, |keys|) && Brackets(keys, s, 0, |keys| - 1)
  {
    hide KeyCmp;
  }

  lemma HalvesBound(k: nat, size: nat, half: nat, n: nat)
    requires Within(k, size, n) && 2 * half <= size && size >= 1
    ensures Within(k + 1, half, n) && Pow2(k) <= n
  {
    assert Pow2(k + 1) * half == Pow2(k) * (2 * half);
    MulMono(Pow2(k), 2 * half, size);
    MulMono(Pow2(k), 1, size);
  }

  lemma MulMono(p: nat, a: nat, b: nat)
    requires a <= b
    ensures p * a <= p * b
  {
  }

  /** The members before `lo` are less and those after `hi` are greater. */
  ghost predicate Brackets(keys: seq<Key>, s: Key, lo: int, hi: int) {
    && (forall i | 0 <= i < lo && i < |keys| :: KeyCmp(keys[i], s) < 0)
    && (forall i | hi < i < |keys| && 0 <= i :: KeyCmp(keys[i], s) > 0)
  }

  lemma BelowMiss(keys: seq<Key>, s: Key, lo: int, hi: int, mid: nat)
    requires Sorted(keys) && mid < |keys| && KeyCmp(s, keys[mid]) < 0 && Brackets(keys, s, lo, hi)
    ensures Brackets(keys, s, lo, mid - 1)
  {
    hide KeyCmp;
    forall i | mid <= i < |keys| ensures KeyCmp(keys[i], s) > 0 {
      if i > mid { KeyCmpTrans(s, keys[mid], keys[i]); }
      KeyCmpSwap(s, keys[i]);
    }
  }

  lemma AboveMiss(keys: seq<Key>, s: Key, lo: int, hi: int, mid: nat)
    requires Sorted(keys) && mid < |keys| && KeyCmp(s, keys[mid]) > 0 && Brackets(keys, s, lo, hi)
    ensures Brackets(keys, s, mid + 1, hi)
  {
    hide KeyCmp;
    KeyCmpSwap(keys[mid], s);
    forall i | 0 <= i <= mid ensures KeyCmp(keys[i], s) < 0 {
      if i < mid { KeyCmpTrans(keys[i], keys[mid], s); }
    }
  }

  lemma MissMeans(keys: seq<Key>, s: Key, lo: nat)
    requires Brackets(keys, s, lo, lo - 1)
    ensures s !in keys
  {
    hide KeyCmp;
    if s in keys {
      var i :| 0 <= i < |keys| && keys[i] == s;
      KeyCmpEqual(keys[i], s);
      assert false;
    }
  }

  // ---- matching ----

  function Label(table: map<Key, nat>, q: Key): nat {
    if q in table then table[q] else 0
  }

  function Match(table: map<Key, nat>, s: Key): nat {
    var own := Label(table, Query(s));
    if Dot(s) == |s| then own else BitOr(own, Match(table, s[Dot(s) + 1..]))
  }

  lemma MatchStep(table: map<Key, nat>, s: Key)
    ensures Dot(s) == |s| ==> Match(table, s) == Label(table, Query(s))
    ensures Dot(s) < |s| ==> Match(table, s) == BitOr(Label(table, Query(s)), Match(table, s[Dot(s) + 1..]))
  {
    hide BitOr, Label, Query, Dot;
  }

  lemma OrZero(a: nat)
    ensures BitOr(a, 0) == a && BitOr(0, a) == a
  {
  }

  /** A member that some level of `s` asks for. */
  ghost predicate Hit(table: map<Key, nat>, s: Key, level: Key, k: nat) {
    level in Levels(s) && Query(level) in table && Bit(table[Query(level)], k)
  }

  lemma {:induction false} MatchBits(table: map<Key, nat>, s: Key, k: nat)
    ensures Bit(Match(table, s), k) <==> exists level :: Hit(table, s, level, k)
    decreases |s|
  {
    hide Bit, BitOr, Query;
    NoBits(k);
    var own := Label(table, Query(s));
    if Bit(own, k) { assert Hit(table, s, s, k); }
    if Dot(s) < |s| {
      var rest := s[Dot(s) + 1..];
      MatchBits(table, rest, k);
      OrBit(own, Match(table, rest), k);
      if level :| Hit(table, rest, level, k) { assert Hit(table, s, level, k); }
      if level :| Hit(table, s, level, k) && level != s { assert Hit(table, rest, level, k); }
    }
  }

  /** A bit is in the result exactly when it is in the label of some member that is the name itself or
      what follows one of its separators. */
  lemma MatchIsUnion(table: map<Key, nat>, s: Key, k: nat)
    requires |s| <= U32_MAX
    ensures Bit(Match(table, s), k) <==> exists m :: m in table && IsLevel(s, m) && Bit(table[m], k)
  {
    hide Bit, Match;
    MatchBits(table, s, k);
    forall m | IsLevel(s, m) ensures m in Levels(s) && Query(m) == m {
      LevelsMean(s, m);
    }
    if level :| Hit(table, s, level, k) {
      LevelsMean(s, level);
      assert level in table && IsLevel(s, level) && Bit(table[level], k);
    }
    if m :| m in table && IsLevel(s, m) && Bit(table[m], k) {
      assert Hit(table, s, m, k);
    }
  }

  /** Labels are not zero, so the result is zero exactly when no level is a member. */
  lemma MatchZeroIff(table: map<Key, nat>, s: Key)
    requires |s| <= U32_MAX && forall m | m in table :: table[m] >= 1
    ensures Match(table, s) == 0 <==> forall m | m in table :: !IsLevel(s, m)
  {
    hide Bit, Match, IsLevel;
    if Match(table, s) > 0 {
      SomeBit(Match(table, s));
      var k: nat :| Bit(Match(table, s), k);
      MatchIsUnion(table, s, k);
    }
    forall m | m in table && IsLevel(s, m) ensures Match(table, s) != 0 {
      SomeBit(table[m]);
      var k: nat :| Bit(table[m], k);
      MatchIsUnion(table, s, k);
      NoBits(k);
    }
  }

  /** A longer name keeps everything its suffix matches. */
  lemma MatchGrows(table: map<Key, nat>, x: Key, s: Key, k: nat)
    requires |x| + 1 + |s| <= U32_MAX && Bit(Match(table, s), k)
    ensures Bit(Match(table, x + [SEP] + s), k)
  {
    hide Bit, Match, IsLevel;
    var long := x + [SEP] + s;
    MatchIsUnion(table, s, k);
    MatchIsUnion(table, long, k);
    var m :| m in table && IsLevel(s, m) && Bit(table[m], k);
    LevelOfLonger(x, s, m);
  }

  lemma LevelOfLonger(x: Key, s: Key, m: Key)
    requires IsLevel(s, m)
    ensures IsLevel(x + [SEP] + s, m)
  {
    var long := x + [SEP] + s;
    if m == s {
      assert long[|x| + 1..] == s;
      assert After(long, |x|, m);
    } else {
      var i: nat :| After(s, i, m);
      assert long[|x| + 1 + i + 1..] == s[i + 1..];
      assert After(long, |x| + 1 + i, m);
    }
  }

  /** One more label in front adds exactly the whole name's own label. */
  lemma MatchFront(table: map<Key, nat>, x: Key, s: Key)
    requires SEP !in x
    ensures Match(table, x + [SEP] + s) == BitOr(Label(table, Query(x + [SEP] + s)), Match(table, s))
  {
    var long := x + [SEP] + s;
    assert long[|x|] == SEP && forall i | 0 <= i < |x| :: long[i] == x[i];
    assert Dot(long) == |x|;
    assert long[|x| + 1..] == s;
  }
}
