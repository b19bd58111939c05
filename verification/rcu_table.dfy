/** The bucketed hash table behind rcu tables (lib/luarcu.c): the exact answer of a lookup, and
    the exact condition on the keys under which the table is a finite map. */
module RcuTable {
  import opened Bytes

  type Key = seq<byte>

  /** `lunatik_value_t`; an object is named by its address. */
  datatype Value = Nil | Boolean(b: bool) | Integer(i: int) | Object(id: nat)

  /** A list node: its address, the bytes of `key[]` before the terminating NUL, its value. */
  datatype Entry = Entry(id: nat, key: Key, value: Value)

  type Bucket = seq<Entry>

  /** Size `2^bits`, the seeded hash function, and LUARCU_MAXKEY. */
  datatype Config = Config(bits: nat, hash: Key -> nat, maxKey: nat) {
    function Size(): nat { Pow2(bits) }

    /** `luarcu_hash`: the hash masked with `size - 1`. */
    function Index(key: Key): (i: nat)
      ensures i == hash(key) % Size()
      ensures i < Size()
    {
      MaskIsModulo(hash(key), bits);
      BitAnd(hash(key), Size() - 1)
    }
  }

  // ---- C strings ----

  /** The bytes `strncpy` leaves before the first NUL. */
  function CStr(key: Key): Key {
    if key == [] || key[0] == 0 then [] else [key[0]] + CStr(key[1..])
  }

  /** `strncmp(stored, key, keylen) == 0`, where `stored` is NUL-terminated. */
  predicate StrNCmpEqual(stored: Key, key: Key) {
    if key == [] then true
    else
      var c := if stored == [] then 0 else stored[0];
      c == key[0] && (c == 0 || stored == [] || StrNCmpEqual(stored[1..], key[1..]))
  }

  /** A key without NUL bytes matches every stored key that starts with it; a key with a NUL
      matches the stored key equal to its part before the NUL. */
  lemma {:induction false} MatchMeans(stored: Key, key: Key)
    requires 0 !in stored
    ensures StrNCmpEqual(stored, key) <==> if 0 in key then stored == CStr(key) else key <= stored
  {
    if key != [] && stored != [] && stored[0] == key[0] {
      MatchMeans(stored[1..], key[1..]);
      assert stored == [stored[0]] + stored[1..];
      assert 0 in key <==> 0 in key[1..];
    }
  }

  lemma {:induction false} CStrMatchesItself(key: Key)
    ensures 0 !in CStr(key) && StrNCmpEqual(CStr(key), key) && |CStr(key)| <= |key|
    ensures 0 !in key ==> CStr(key) == key
  {
    if key != [] && key[0] != 0 {
      CStrMatchesItself(key[1..]);
      assert CStr(key)[1..] == CStr(key[1..]);
      assert key == [key[0]] + key[1..];
    }
  }

  // ---- one bucket ----

  /** Position of the first node matching `key`, or -1. */
  function Find(b: Bucket, key: Key): (i: int)
    ensures -1 <= i < |b|
    ensures i >= 0 ==> StrNCmpEqual(b[i].key, key)
    ensures forall j | 0 <= j < (if i < 0 then |b| else i) :: !StrNCmpEqual(b[j].key, key)
  {
    if b == [] then -1
    else if StrNCmpEqual(b[0].key, key) then 0
    else
      var i := Find(b[1..], key);
      assert forall j | 0 < j < |b| :: b[1..][j - 1] == b[j];
      if i < 0 then -1 else i + 1
  }

  function Lookup(b: Bucket, key: Key): Value {
    var i := Find(b, key);
    if i < 0 then Nil else b[i].value
  }

  predicate Stores(maxKey: nat, key: Key, value: Value, memory: bool) {
    value == Nil || (|key| < maxKey && memory)
  }

  /** The bucket after `luarcu_setvalue` of a value it could store. */
  function Updated(b: Bucket, key: Key, value: Value, id: nat): Bucket {
    var i := Find(b, key);
    if value != Nil then
      var node := Entry(id, CStr(key), value);
      if i < 0 then [node] + b else b[i := node]
    else if i < 0 then b else b[..i] + b[i + 1..]
  }

  // ---- references to objects ----

  function Held(v: Value): multiset<nat> {
    if v.Object? then multiset{v.id} else multiset{}
  }

  function HeldBy(b: Bucket): multiset<nat> {
    if b == [] then multiset{} else Held(b[0].value) + HeldBy(b[1..])
  }

  function HeldByAll(bs: seq<Bucket>): multiset<nat> {
    if bs == [] then multiset{} else HeldBy(bs[0]) + HeldByAll(bs[1..])
  }

  function One(b: bool): nat {
    if b then 1 else 0
  }

  /** How many nodes of the bucket have object `id` as their value. */
  function Uses(b: Bucket, id: nat): nat {
    if b == [] then 0 else One(b[0].value == Object(id)) + Uses(b[1..], id)
  }

  function UsesInAll(bs: seq<Bucket>, id: nat): nat {
    if bs == [] then 0 else Uses(bs[0], id) + UsesInAll(bs[1..], id)
  }

  lemma {:induction false} HeldIsUses(b: Bucket, id: nat)
    ensures HeldBy(b)[id] == Uses(b, id)
  {
    if b == [] {
    } else {
      HeldIsUses(b[1..], id);
    }
  }

  /** A table holds as many references to an object as it has nodes with that object. */
  lemma {:induction false} HeldIsUsesInAll(bs: seq<Bucket>, id: nat)
    ensures HeldByAll(bs)[id] == UsesInAll(bs, id)
  {
    if bs == [] {
    } else {
      HeldIsUses(bs[0], id);
      HeldIsUsesInAll(bs[1..], id);
    }
  }

  lemma {:induction false} HeldByAppend(a: Bucket, b: Bucket)
    ensures HeldBy(a + b) == HeldBy(a) + HeldBy(b)
  {
    hide *;
    if a == [] {
      HeldByNothing(a, b);
    } else {
      HeldByAppend(a[1..], b);
      HeldByHead(a);
      HeldByLonger(a, b);
      Regrouped(HeldBy(a + b), Held(a[0].value), HeldBy(a[1..] + b), HeldBy(a[1..]), HeldBy(b), HeldBy(a));
    }
  }

  lemma HeldByNothing(a: Bucket, b: Bucket)
    requires a == []
    ensures HeldBy(a + b) == HeldBy(a) + HeldBy(b)
  {
    assert a + b == b;
  }

  lemma HeldByLonger(a: Bucket, b: Bucket)
    requires a != []
    ensures HeldBy(a + b) == Held(a[0].value) + HeldBy(a[1..] + b)
  {
    assert (a + b)[1..] == a[1..] + b && (a + b)[0] == a[0];
  }

  lemma Regrouped(all: multiset<nat>, x: multiset<nat>, yz: multiset<nat>, y: multiset<nat>, z: multiset<nat>,
                  xy: multiset<nat>)
    requires all == x + yz && yz == y + z && xy == x + y
    ensures all == xy + z
  {
    AddAssociates(x, y, z);
  }

  lemma HeldByHead(b: Bucket)
    requires b != []
    ensures HeldBy(b) == Held(b[0].value) + HeldBy(b[1..])
  {
  }

  lemma AddAssociates(x: multiset<nat>, y: multiset<nat>, z: multiset<nat>)
    ensures x + (y + z) == (x + y) + z
  {
  }

  lemma HeldBySplit(b: Bucket, i: nat)
    requires i < |b|
    ensures HeldBy(b) == HeldBy(b[..i]) + Held(b[i].value) + HeldBy(b[i + 1..])
  {
    assert b == b[..i] + b[i..];
    HeldByAppend(b[..i], b[i..]);
    assert b[i..][1..] == b[i + 1..];
  }

  lemma {:induction false} HeldByAllUpdate(bs: seq<Bucket>, k: nat, b: Bucket)
    requires k < |bs|
    ensures HeldByAll(bs[k := b]) + HeldBy(bs[k]) == HeldByAll(bs) + HeldBy(b)
  {
    hide HeldByAll, HeldBy;
    HeldByFirst(bs);
    HeldByFirst(bs[k := b]);
    if k == 0 {
      assert bs[0 := b][1..] == bs[1..];
      Crossed(HeldBy(b), HeldBy(bs[0]), HeldByAll(bs[1..]));
    } else {
      HeldByAllUpdate(bs[1..], k - 1, b);
      assert bs[k := b][1..] == bs[1..][k - 1 := b] && bs[k := b][0] == bs[0];
      AddSame(HeldBy(bs[0]), HeldByAll(bs[1..][k - 1 := b]), HeldBy(bs[k]), HeldByAll(bs[1..]), HeldBy(b));
    }
  }

  lemma HeldByFirst(bs: seq<Bucket>)
    requires bs != []
    ensures HeldByAll(bs) == HeldBy(bs[0]) + HeldByAll(bs[1..])
  {
  }

  lemma Crossed(x: multiset<nat>, y: multiset<nat>, rest: multiset<nat>)
    ensures (x + rest) + y == (y + rest) + x
  {
  }

  lemma SetHolds(bs: seq<Bucket>, k: nat, key: Key, value: Value, id: nat)
    requires k < |bs|
    ensures Held(Lookup(bs[k], key)) <= HeldByAll(bs)
    ensures HeldByAll(bs[k := Updated(bs[k], key, value, id)]) == HeldByAll(bs) + Held(value) - Held(Lookup(bs[k], key))
  {
    UpdatedHolds(bs[k], key, value, id);
    HeldByAllUpdate(bs, k, Updated(bs[k], key, value, id));
    HeldByOne(bs, k);
    if Find(bs[k], key) >= 0 { HeldBySplit(bs[k], Find(bs[k], key)); }
    hide *;
    Balance(HeldByAll(bs[k := Updated(bs[k], key, value, id)]), HeldBy(bs[k]), HeldByAll(bs),
            HeldBy(Updated(bs[k], key, value, id)), Held(Lookup(bs[k], key)), Held(value));
  }

  ghost predicate CountsUses(held: multiset<nat>, bs: seq<Bucket>) {
    forall o: nat :: held[o] == UsesInAll(bs, o)
  }

  lemma HeldCountsUses(bs: seq<Bucket>)
    ensures CountsUses(HeldByAll(bs), bs)
  {
    hide HeldByAll;
    forall o: nat ensures HeldByAll(bs)[o] == UsesInAll(bs, o) { HeldIsUsesInAll(bs, o); }
  }

  /** One reference to the new object was taken and one to the old was put; no other changed. */
  ghost predicate Exchanged(held: multiset<nat>, held': multiset<nat>, value: Value, before: Value) {
    forall o: nat :: held'[o] == held[o] + One(value == Object(o)) - One(before == Object(o))
  }

  lemma HeldExchanged(held: multiset<nat>, value: Value, before: Value)
    requires Held(before) <= held
    ensures Exchanged(held, held + Held(value) - Held(before), value, before)
  {
    forall o: nat ensures (held + Held(value) - Held(before))[o] == held[o] + One(value == Object(o)) - One(before == Object(o)) {
      HeldOne(value, o);
      HeldOne(before, o);
      assert Held(before)[o] <= held[o];
    }
  }

  /** Setting a value changes how many nodes use an object by the new value and the one replaced. */
  lemma SetUses(bs: seq<Bucket>, k: nat, key: Key, value: Value, id: nat, o: nat)
    requires k < |bs|
    ensures UsesInAll(bs[k := Updated(bs[k], key, value, id)], o) + One(Lookup(bs[k], key) == Object(o)) ==
              UsesInAll(bs, o) + One(value == Object(o))
  {
    hide Updated, Lookup;
    SetHolds(bs, k, key, value, id);
    HeldIsUsesInAll(bs, o);
    HeldIsUsesInAll(bs[k := Updated(bs[k], key, value, id)], o);
    hide HeldByAll, UsesInAll;
    HeldOne(value, o);
    HeldOne(Lookup(bs[k], key), o);
    hide Held;
    assert Held(Lookup(bs[k], key))[o] <= HeldByAll(bs)[o];
  }

  lemma HeldOne(v: Value, o: nat)
    ensures Held(v)[o] == One(v == Object(o))
  {
  }

  lemma AddSame(h: multiset<nat>, a: multiset<nat>, b: multiset<nat>, c: multiset<nat>, d: multiset<nat>)
    requires a + b == c + d
    ensures (h + a) + b == (h + c) + d
  {
    assert (h + a) + b == h + (a + b);
    assert (h + c) + d == h + (c + d);
  }

  lemma Balance(a: multiset<nat>, b: multiset<nat>, c: multiset<nat>, d: multiset<nat>, x: multiset<nat>, y: multiset<nat>)
    requires a + b == c + d && d + x == b + y && x <= b <= c
    ensures a == c + y - x && x <= c
  {
    forall e
      ensures a[e] == (c + y - x)[e]
    {
      assert (a + b)[e] == (c + d)[e] && (d + x)[e] == (b + y)[e];
    }
  }

  lemma {:induction false} HeldByOne(bs: seq<Bucket>, k: nat)
    requires k < |bs|
    ensures HeldBy(bs[k]) <= HeldByAll(bs)
  {
    if k == 0 {
    } else {
      HeldByOne(bs[1..], k - 1);
    }
  }

  /** Setting a value takes one reference to the new object and gives back the one to the old. */
  lemma UpdatedHolds(b: Bucket, key: Key, value: Value, id: nat)
    ensures HeldBy(Updated(b, key, value, id)) + Held(Lookup(b, key)) == HeldBy(b) + Held(value)
  {
    hide Find, CStr, HeldBy, Updated, Lookup;
    FoundMeans(b, key, value, id);
    var i, node := Find(b, key), Entry(id, CStr(key), value);
    if i < 0 {
      if value != Nil { InsertedHolds(b, node); }
    } else if value != Nil {
      ReplacedHolds(b, i, node);
    } else {
      RemovedHolds(b, i);
    }
  }

  lemma InsertedHolds(b: Bucket, node: Entry)
    ensures HeldBy([node] + b) == HeldBy(b) + Held(node.value)
  {
    assert ([node] + b)[1..] == b;
  }

  lemma ReplacedHolds(b: Bucket, i: nat, node: Entry)
    requires i < |b|
    ensures HeldBy(b[i := node]) + Held(b[i].value) == HeldBy(b) + Held(node.value)
  {
    hide HeldBy, Held;
    HeldBySplit(b, i);
    HeldBySplit(b[i := node], i);
    assert b[i := node][..i] == b[..i] && b[i := node][i + 1..] == b[i + 1..];
    Swapped(HeldBy(b[..i]), Held(b[i].value), HeldBy(b[i + 1..]), Held(node.value));
  }

  lemma RemovedHolds(b: Bucket, i: nat)
    requires i < |b|
    ensures HeldBy(b[..i] + b[i + 1..]) + Held(b[i].value) == HeldBy(b)
  {
    hide HeldBy, Held;
    HeldBySplit(b, i);
    HeldByAppend(b[..i], b[i + 1..]);
    Swapped(HeldBy(b[..i]), Held(b[i].value), HeldBy(b[i + 1..]), multiset{});
  }

  /** What a lookup gives and what a set leaves, by where the key is found. */
  lemma FoundMeans(b: Bucket, key: Key, value: Value, id: nat)
    ensures var i, node := Find(b, key), Entry(id, CStr(key), value);
            && Lookup(b, key) == (if i < 0 then Nil else b[i].value)
            && (value != Nil ==> Updated(b, key, value, id) == if i < 0 then [node] + b else b[i := node])
            && (value == Nil ==> Updated(b, key, value, id) == if i < 0 then b else b[..i] + b[i + 1..])
  {
    hide Find, CStr;
  }

  lemma Swapped(x: multiset<nat>, old': multiset<nat>, y: multiset<nat>, new': multiset<nat>)
    ensures x + new' + y + old' == x + old' + y + new'
    ensures x + y + old' == x + old' + y
  {
  }

  // ---- the table ----

  /** The list with a new node in front or in place of the one found, or without it. */
  method Relinked(b: Bucket, i: int, key: Key, value: Value, id: nat) returns (b': Bucket)
    requires i == Find(b, key)
    ensures b' == Updated(b, key, value, id)
  {
    hide Find, CStr;
    b' := b;
    if value != Nil {
      var node := Entry(id, CStr(key), value);
      if i < 0 { b' := [node] + b; } else { b' := b[i := node]; }
    } else if i >= 0 {
      b' := b[..i] + b[i + 1..];
    }
  }

  class Table {
    const config: Config
    var buckets: seq<Bucket>
    var nextId: nat
    /** The references this table has taken and not given back. */
    var held: multiset<nat>

    ghost predicate Valid()
      reads this
    {
      |buckets| == config.Size() && held == HeldByAll(buckets)
    }

    constructor (config: Config)
      ensures Valid() && this.config == config
      ensures buckets == seq(config.Size(), i => []) && nextId == 0
    {
      this.config := config;
      buckets := seq(config.Size(), i => []);
      nextId := 0;
      held := multiset{};
      new;
      EmptyHoldsNothing(buckets);
    }

    /** `luarcu_lookup`: walks the list to the first node whose key starts with the given bytes. */
    method LookupNode(index: nat, key: Key) returns (i: int)
      requires Valid() && index < |buckets|
      ensures i == Find(buckets[index], key)
    {
      i := 0;
      while i < |buckets[index]|
        invariant 0 <= i <= |buckets[index]|
        invariant forall j | 0 <= j < i :: !StrNCmpEqual(buckets[index][j].key, key)
      {
        if StrNCmpEqual(buckets[index][i].key, key) {
          return;
        }
        i := i + 1;
      }
      i := -1;
    }

    /** `luarcu_getvalue`: the value of the first match, with a reference taken for the caller. */
    method GetValue(key: Key) returns (value: Value, taken: multiset<nat>)
      requires Valid()
      ensures value == Lookup(buckets[config.Index(key)], key)
      ensures value.Object? ==> taken == multiset{value.id}
      ensures !value.Object? ==> taken == multiset{}
    {
      var i := LookupNode(config.Index(key), key);
      value := if i < 0 then Nil else buckets[config.Index(key)][i].value;
      taken := if value.Object? then multiset{value.id} else multiset{};
    }

    /** `luarcu_setvalue`: fails without a trace when the key is too long or memory is short. */
    method SetValue(key: Key, value: Value, memory: bool) returns (ok: bool)
      requires Valid()
      modifies this
      ensures Valid() && ok == Stores(config.maxKey, key, value, memory)
      ensures !ok ==> buckets == old(buckets) && held == old(held)
      ensures ok ==> buckets == old(buckets)[config.Index(key) :=
                                  Updated(old(buckets)[config.Index(key)], key, value, old(nextId))]
      ensures ok ==> held == old(held) + Held(value) - Held(Lookup(old(buckets)[config.Index(key)], key))
      ensures Held(Lookup(old(buckets)[config.Index(key)], key)) <= old(held)
      ensures ok ==> Exchanged(old(held), held, value, Lookup(old(buckets)[config.Index(key)], key))
      ensures CountsUses(held, buckets)
      ensures nextId == old(nextId) + if ok && value != Nil then 1 else 0
    {
      hide HeldByAll, HeldBy, CStr, StrNCmpEqual, Find, BitAnd, Pow2, Held, Updated, Lookup, CountsUses, Exchanged;
      var index := config.Index(key);
      var i := LookupNode(index, key);
      if value != Nil && (|key| >= config.maxKey || !memory) {
        SetHolds(buckets, index, key, value, nextId);
        HeldCountsUses(buckets);
        return false;
      }
      var before := if i < 0 then Nil else buckets[index][i].value;
      FoundMeans(buckets[index], key, value, nextId);
      SetHolds(buckets, index, key, value, nextId);
      var b := Relinked(buckets[index], i, key, value, nextId);
      nextId := if value != Nil then nextId + 1 else nextId;
      buckets := buckets[index := b];
      HeldExchanged(held, value, before);
      held := held + Held(value) - Held(before);
      HeldCountsUses(buckets);
      ok := true;
    }
  }

  lemma {:induction false} EmptyHoldsNothing(bs: seq<Bucket>)
    requires forall i | 0 <= i < |bs| :: bs[i] == []
    ensures HeldByAll(bs) == multiset{}
  {
    if bs == [] {
    } else {
      EmptyHoldsNothing(bs[1..]);
    }
  }
}
