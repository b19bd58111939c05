/** Building plain and labeled string sets (lib/luaset.c). The sorted order is a parameter: any
    permutation in key order, as `table.sort` and the kernel's `sort` return. */
module StringSetBuild {
  import opened Bytes
  import opened StringSet

  // ---- totals do not depend on the order ----

  lemma {:induction false} TotalAppend(a: seq<Key>, b: seq<Key>)
    ensures Total(a + b) == Total(a) + Total(b)
    decreases |b|
  {
    if b == [] {
      assert a + b == a;
    } else {
      assert (a + b)[..|a + b| - 1] == a + b[..|b| - 1];
      TotalAppend(a, b[..|b| - 1]);
    }
  }

  lemma TotalWithout(a: seq<Key>, i: nat)
    requires i < |a|
    ensures Total(a) == Total(a[..i] + a[i + 1..]) + |a[i]|
  {
    assert a == a[..i] + [a[i]] + a[i + 1..];
    TotalAppend(a[..i] + [a[i]], a[i + 1..]);
    TotalAppend(a[..i], [a[i]]);
    TotalAppend(a[..i], a[i + 1..]);
    assert Total([a[i]]) == |a[i]| by { NoTotal([a[i]]); }
  }

  lemma MultisetWithout<T>(a: seq<T>, i: nat)
    requires i < |a|
    ensures multiset(a) == multiset(a[..i] + a[i + 1..]) + multiset{a[i]}
  {
    assert a == a[..i] + [a[i]] + a[i + 1..];
  }

  lemma CancelOne<T>(m: multiset<T>, n: multiset<T>, x: T)
    requires m + multiset{x} == n + multiset{x}
    ensures m == n
  {
    assert m == (m + multiset{x}) - multiset{x} && n == (n + multiset{x}) - multiset{x};
  }

  /** Permutations stay permutations without one matching element of each. */
  lemma PermutationWithout<T>(a: seq<T>, b: seq<T>) returns (i: nat)
    requires multiset(a) == multiset(b) && a != []
    ensures i < |b| && b[i] == a[|a| - 1]
    ensures multiset(a[..|a| - 1]) == multiset(b[..i] + b[i + 1..])
  {
    var x, front := a[|a| - 1], a[..|a| - 1];
    assert x in multiset(b);
    i :| 0 <= i < |b| && b[i] == x;
    MultisetWithout(b, i);
    MultisetWithout(a, |a| - 1);
    assert front + a[|a|..] == front;
    CancelOne(multiset(front), multiset(b[..i] + b[i + 1..]), x);
  }

  lemma {:induction false} TotalOfPermutation(a: seq<Key>, b: seq<Key>)
    requires multiset(a) == multiset(b)
    ensures Total(a) == Total(b)
    decreases |a|
  {
    if a == [] {
      assert |multiset(b)| == |b|;
    } else {
      var i := PermutationWithout(a, b);
      TotalWithout(b, i);
      TotalOfPermutation(a[..|a| - 1], b[..i] + b[i + 1..]);
    }
  }

  lemma TotalPrefix(keys: seq<Key>, i: nat)
    requires i <= |keys|
    ensures Total(keys[..i]) <= Total(keys)
  {
    assert keys == keys[..i] + keys[i..];
    TotalAppend(keys[..i], keys[i..]);
  }

  // ---- plain sets ----

  method Copy(blob: array<byte>, at: nat, s: Key)
    requires at + |s| <= blob.Length
    modifies blob
    ensures blob[..] == old(blob[..at]) + s + old(blob[at + |s|..])
  {
    forall k | 0 <= k < |s| { blob[at + k] := s[k]; }
  }

  /** `measure`: the offsets, or nothing when the members exceed 4 GiB. */
  method Measure(sorted: seq<Key>) returns (off: array?<nat>)
    ensures off == null <==> Total(sorted) > U32_MAX
    ensures off != null ==> fresh(off) && off.Length == |sorted| + 1
    ensures off != null ==> forall i | 0 <= i <= |sorted| :: off[i] == Total(sorted[..i])
  {
    hide Total;
    var offsets := new nat[|sorted| + 1];
    var total := 0;
    assert Total(sorted[..0]) == 0 by { NoTotal(sorted); }
    for i := 0 to |sorted|
      invariant total == Total(sorted[..i]) <= U32_MAX
      invariant forall j | 0 <= j < i :: offsets[j] == Total(sorted[..j])
    {
      offsets[i] := total;
      total := total + |sorted[i]|;
      TotalStep(sorted, i);
      TotalPrefix(sorted, i + 1);
      if total > U32_MAX { return null; }
    }
    offsets[|sorted|] := total;
    assert sorted[..|sorted|] == sorted;
    return offsets;
  }

  lemma NoTotal(keys: seq<Key>)
    ensures Total(keys[..0]) == 0 && Concat(keys[..0]) == []
  {
  }

  /** `pack`: the members, one after the other. */
  method PackBlob(off: array<nat>, sorted: seq<Key>) returns (blob: array<byte>)
    requires off.Length == |sorted| + 1 && forall i | 0 <= i <= |sorted| :: off[i] == Total(sorted[..i])
    ensures fresh(blob) && blob[..] == Concat(sorted)
  {
    hide Total, Concat;
    assert sorted[..|sorted|] == sorted;
    blob := new byte[off[|sorted|]];
    NoTotal(sorted);
    for i := 0 to |sorted|
      invariant off[i] <= blob.Length && blob[..off[i]] == Concat(sorted[..i])
    {
      TotalStep(sorted, i);
      TotalPrefix(sorted, i + 1);
      ghost var before := blob[..off[i]];
      Copy(blob, off[i], sorted[i]);
      assert blob[..][..off[i + 1]] == before + sorted[i];
      assert blob[..off[i + 1]] == blob[..][..off[i + 1]];
    }
    assert blob[..blob.Length] == blob[..];
  }

  /** `set.new`: raises exactly when the strings exceed 4 GiB; otherwise the set has exactly them, each as often. */
  method New(strings: seq<Key>, sorted: seq<Key>) returns (r: Set?)
    requires multiset(sorted) == multiset(strings) && Sorted(sorted)
    ensures r == null <==> Total(strings) > U32_MAX
    ensures r != null ==> fresh(r) && r.Valid() && r.n == |strings| && multiset(r.keys) == multiset(strings)
  {
    hide Total, Concat, KeyCmp;
    TotalOfPermutation(sorted, strings);
    var off := Measure(sorted);
    if off == null { return null; }
    var blob := PackBlob(off, sorted);
    var labels := new nat[0];
    r := new Set(off, blob, labels, sorted, map[]);
    SameMembers(sorted, strings);
  }

  lemma SameMembers(a: seq<Key>, b: seq<Key>)
    requires multiset(a) == multiset(b)
    ensures |a| == |b| && forall s :: s in a <==> s in b
  {
    assert |multiset(a)| == |a| && |multiset(b)| == |b|;
    forall s ensures s in a <==> s in b {
      assert s in multiset(a) <==> s in multiset(b);
    }
  }

  // ---- labeled sets ----

  datatype Entry = Entry(key: Key, mark: int)

  function Keys(es: seq<Entry>): (ks: seq<Key>)
    ensures |ks| == |es| && forall i | 0 <= i < |es| :: ks[i] == es[i].key
  {
    seq(|es|, i requires 0 <= i < |es| => es[i].key)
  }

  predicate Marked(es: seq<Entry>) {
    forall i | 0 <= i < |es| :: 1 <= es[i].mark <= 0xffff_ffff
  }

  predicate Distinct(es: seq<Entry>) {
    forall i, j | 0 <= i < j < |es| :: es[i].key != es[j].key
  }

  /** `count`: raises on the first label out of range, then if the members exceed 4 GiB. */
  method Count(order: seq<Entry>) returns (total: int)
    ensures total < 0 <==> !Marked(order) || Total(Keys(order)) > U32_MAX
    ensures total >= 0 ==> total == Total(Keys(order))
  {
    hide Total;
    total := 0;
    NoTotal(Keys(order));
    for i := 0 to |order|
      invariant total == Total(Keys(order)[..i]) && Marked(order[..i])
    {
      if !(1 <= order[i].mark <= U32_MAX) { return -1; }
      TotalStep(Keys(order), i);
      total := total + |order[i].key|;
    }
    assert Keys(order)[..|order|] == Keys(order) && order[..|order|] == order;
    if total > U32_MAX { return -1; }
  }

  /** `store`: offsets, bytes and labels of the sorted members. */
  method Store(off: array<nat>, blob: array<byte>, labels: array<nat>, members: seq<Entry>)
    requires off.Length == |members| + 1 && labels.Length == |members| && off != labels && Marked(members)
    requires blob.Length == Total(Keys(members))
    modifies off, blob, labels
    ensures off[|members|] == old(off[|members|])
    ensures forall i | 0 <= i < |members| :: off[i] == Total(Keys(members)[..i]) && labels[i] == members[i].mark
    ensures blob[..] == Concat(Keys(members))
  {
    hide Total, Concat;
    var pos := 0;
    ghost var keys := Keys(members);
    NoTotal(keys);
    for i := 0 to |members|
      invariant off[|members|] == old(off[|members|])
      invariant pos == Total(keys[..i]) <= blob.Length && blob[..pos] == Concat(keys[..i])
      invariant forall j | 0 <= j < i :: off[j] == Total(keys[..j]) && labels[j] == members[j].mark
    {
      TotalStep(keys, i);
      TotalPrefix(keys, i + 1);
      off[i] := pos;
      ghost var before := blob[..pos];
      Copy(blob, pos, members[i].key);
      labels[i] := members[i].mark;
      pos := pos + |members[i].key|;
      assert blob[..][..pos] == before + members[i].key;
      assert blob[..pos] == blob[..][..pos];
    }
    assert keys[..|members|] == keys && blob[..blob.Length] == blob[..];
  }

  /** The table that a list of entries with distinct keys is. */
  ghost predicate Tables(table: map<Key, nat>, es: seq<Entry>) {
    && (forall i | 0 <= i < |es| :: es[i].key in table && table[es[i].key] == es[i].mark)
    && (forall k | k in table :: exists i | 0 <= i < |es| :: es[i].key == k)
  }

  /** `set.labeled`, for a table traversed in `order`: raises exactly on a label outside [1, 2^32) or
      members over 4 GiB; otherwise the set holds exactly the table. */
  method NewLabeled(order: seq<Entry>, sorted: seq<Entry>) returns (r: Set?)
    requires Distinct(order) && multiset(sorted) == multiset(order) && Sorted(Keys(sorted))
    ensures r == null <==> !Marked(order) || Total(Keys(order)) > U32_MAX
    ensures r != null ==> fresh(r) && r.Labeled() && r.n == |order| && Tables(r.table, order)
  {
    hide Total, Concat, KeyCmp, Tables, TableOf, Distinct, Marked, Sorted;
    var total := Count(order);
    if total < 0 { return null; }
    PermutedEntries(order, sorted);
    var n := |sorted|;
    var off, blob, labels := new nat[n + 1], new byte[total], new nat[n];
    off[n] := total;
    Store(off, blob, labels, sorted);
    ghost var keys := Keys(sorted);
    ghost var table := TableOf(sorted);
    assert keys[..n] == keys;
    r := new Set(off, blob, labels, keys, table);
    SameTable(order, sorted, table);
    LabelsOf(sorted, table);
  }

  /** The entries in turn: distinct keys do not overwrite one another. */
  ghost function TableOf(es: seq<Entry>): map<Key, nat>
    requires Marked(es)
  {
    if es == [] then map[] else TableOf(es[..|es| - 1])[es[|es| - 1].key := es[|es| - 1].mark]
  }

  lemma {:induction false} TableOfMeans(es: seq<Entry>)
    requires Marked(es) && Distinct(es)
    ensures Tables(TableOf(es), es)
  {
    if es == [] {
    } else {
      var front, last := es[..|es| - 1], es[|es| - 1];
      TableOfMeans(front);
      assert es == front + [last];
      OneMoreEntry(TableOf(front), front, last);
    }
  }

  lemma OneMoreEntry(table: map<Key, nat>, front: seq<Entry>, last: Entry)
    requires Tables(table, front) && last.mark >= 0 && forall i | 0 <= i < |front| :: front[i].key != last.key
    ensures Tables(table[last.key := last.mark], front + [last])
  {
    var es, t := front + [last], table[last.key := last.mark];
    assert es[|front|] == last && forall i | 0 <= i < |front| :: es[i] == front[i];
    forall k | k in t && k != last.key ensures exists i | 0 <= i < |es| :: es[i].key == k {
      var i :| 0 <= i < |front| && front[i].key == k;
      assert es[i].key == k;
    }
  }

  lemma LabelsOf(sorted: seq<Entry>, table: map<Key, nat>)
    requires Marked(sorted) && Tables(table, sorted)
    ensures forall k | k in table :: k in Keys(sorted) && 1 <= table[k] <= U32_MAX
    ensures forall i | 0 <= i < |sorted| :: Keys(sorted)[i] in table && table[Keys(sorted)[i]] == sorted[i].mark
  {
    forall k | k in table ensures k in Keys(sorted) && 1 <= table[k] <= U32_MAX {
      var i :| 0 <= i < |sorted| && sorted[i].key == k;
      assert Keys(sorted)[i] == k;
    }
  }

  lemma SameTable(order: seq<Entry>, sorted: seq<Entry>, table: map<Key, nat>)
    requires Marked(sorted) && Distinct(sorted) && multiset(sorted) == multiset(order) && table == TableOf(sorted)
    ensures Tables(table, order) && Tables(table, sorted)
  {
    TableOfMeans(sorted);
    hide TableOf;
    forall i | 0 <= i < |order| ensures order[i].key in table && table[order[i].key] == order[i].mark {
      assert order[i] in multiset(sorted);
    }
    forall k | k in table ensures exists i | 0 <= i < |order| :: order[i].key == k {
      var j :| 0 <= j < |sorted| && sorted[j].key == k;
      assert sorted[j] in multiset(order);
      var i :| 0 <= i < |order| && order[i] == sorted[j];
      assert order[i].key == k;
    }
  }

  lemma PermutedEntries(order: seq<Entry>, sorted: seq<Entry>)
    requires Distinct(order) && multiset(sorted) == multiset(order) && Marked(order)
    ensures |sorted| == |order| && Distinct(sorted) && Marked(sorted) && Total(Keys(sorted)) == Total(Keys(order))
  {
    hide Total;
    assert |multiset(order)| == |order| && |multiset(sorted)| == |sorted|;
    forall i | 0 <= i < |sorted| ensures 1 <= sorted[i].mark <= U32_MAX {
      assert sorted[i] in multiset(order);
    }
    forall i, j | 0 <= i < j < |sorted| ensures sorted[i].key != sorted[j].key {
      DistinctPair(order, sorted, i, j);
    }
    KeysPermuted(order, sorted);
    TotalOfPermutation(Keys(sorted), Keys(order));
  }

  lemma DistinctPair(order: seq<Entry>, sorted: seq<Entry>, i: nat, j: nat)
    requires Distinct(order) && multiset(sorted) == multiset(order) && i < j < |sorted|
    ensures sorted[i].key != sorted[j].key
  {
    var p, q := OtherPlaces(order, sorted, i, j);
    if p < q { assert order[p].key != order[q].key; } else { assert order[q].key != order[p].key; }
  }

  /** Two places of a permutation come from two places. */
  lemma OtherPlaces<T>(a: seq<T>, b: seq<T>, i: nat, j: nat) returns (p: nat, q: nat)
    requires multiset(a) == multiset(b) && i < j < |b|
    ensures p < |a| && q < |a| && p != q && a[p] == b[i] && a[q] == b[j]
  {
    var x := b[i];
    assert x in multiset(a);
    p :| 0 <= p < |a| && a[p] == x;
    var ra, rb := a[..p] + a[p + 1..], b[..i] + b[i + 1..];
    MultisetWithout(a, p);
    MultisetWithout(b, i);
    CancelOne(multiset(ra), multiset(rb), x);
    assert rb[j - 1] == b[j];
    assert b[j] in multiset(ra);
    var k :| 0 <= k < |ra| && ra[k] == b[j];
    q := if k < p then k else k + 1;
    assert a[q] == ra[k];
  }

  lemma {:induction false} KeysPermuted(a: seq<Entry>, b: seq<Entry>)
    requires multiset(a) == multiset(b)
    ensures multiset(Keys(a)) == multiset(Keys(b))
    decreases |a|
  {
    if a == [] {
      assert |multiset(b)| == |b|;
      assert Keys(a) == Keys(b);
    } else {
      var i := PermutationWithout(a, b);
      var front, rest := a[..|a| - 1], b[..i] + b[i + 1..];
      KeysPermuted(front, rest);
      var ka, kb := Keys(a), Keys(b);
      assert ka[..|a| - 1] + ka[|a|..] == Keys(front) && kb[..i] + kb[i + 1..] == Keys(rest);
      MultisetWithout(ka, |a| - 1);
      MultisetWithout(kb, i);
    }
  }
}
