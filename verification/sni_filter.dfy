/** The TLS server-name filter (examples/filter/sni.lua) on packets that carry a ClientHello, as laid out
    in section 4.1.2 of RFC 8446 with the server_name extension of section 3 of RFC 6066. */
module SniFilter {
  import opened Bytes

  const CLIENT_HELLO: nat := 0x01
  const HANDSHAKE: nat := 0x16
  const SERVER_NAME: nat := 0x00
  const SESSION: nat := 43
  const MAX_EXTENSIONS: nat := 17

  type Name = seq<byte>

  /** No server name seen; a verdict on a name; or a read out of bounds, which raises. */
  datatype Outcome = NoName | Passed(name: Name) | Dropped(name: Name) | Raised

  // ---- reads of the packet ----

  predicate Within(p: seq<byte>, at: nat, n: nat) { at + n <= |p| }

  function Short(p: seq<byte>, at: nat): nat
    requires Within(p, at, 2)
  {
    256 * (p[at] as int) + p[at + 1] as int
  }

  // ---- the filter ----

  /** The verdict on the server_name extension whose data starts at `data`. An empty name is out of bounds. */
  function Judge(p: seq<byte>, data: nat, blacklist: set<Name>): Outcome {
    if !Within(p, data + 3, 2) then Raised
    else
      var length := Short(p, data + 3);
      if length == 0 || !Within(p, data + 5, length) then Raised
      else
        var name := p[data + 5..data + 5 + length];
        if name in blacklist then Dropped(name) else Passed(name)
  }

  /** The walk over at most `k` extensions from `at` on. */
  function Walk(p: seq<byte>, at: nat, k: nat, blacklist: set<Name>): Outcome
    decreases k
  {
    if k == 0 then NoName
    else if !Within(p, at, 2) then Raised
    else if Short(p, at) == SERVER_NAME then Judge(p, at + 4, blacklist)
    else if !Within(p, at + 2, 2) then Raised
    else Walk(p, at + 4 + Short(p, at + 2), k - 1, blacklist)
  }

  lemma WalkNone(p: seq<byte>, at: nat, blacklist: set<Name>)
    ensures Walk(p, at, 0, blacklist) == NoName
  {
  }

  lemma WalkStep(p: seq<byte>, at: nat, k: nat, blacklist: set<Name>)
    requires k > 0
    ensures Walk(p, at, k, blacklist) ==
              if !Within(p, at, 2) then Raised
              else if Short(p, at) == 0 then Judge(p, at + 4, blacklist)
              else if !Within(p, at + 2, 2) then Raised
              else Walk(p, at + 4 + Short(p, at + 2), k - 1, blacklist)
  {
  }

  method Filter(p: seq<byte>, argument: seq<byte>, blacklist: set<Name>) returns (r: Outcome)
    ensures !Within(argument, 0, 2) ==> r == Raised
    ensures Within(argument, 0, 2) ==> r == Filtered(p, Short(argument, 0), blacklist)
    ensures |argument| >= 2 ==>
              var base := 256 * (argument[0] as int) + argument[1] as int;
              base + 5 < |p| && (p[base] != 0x16 || p[base + 5] != 0x01) ==> r == NoName
  {
    hide Walk, Judge;
    if !Within(argument, 0, 2) { return Raised; }
    var base := Short(argument, 0);
    if !Within(p, base, 1) { return Raised; }
    if p[base] != HANDSHAKE { return NoName; }
    if !Within(p, base + 5, 1) { return Raised; }
    if p[base + 5] != CLIENT_HELLO { return NoName; }
    if !Within(p, base + SESSION, 1) { return Raised; }
    var cipher := base + SESSION + 1 + p[base + SESSION];
    if !Within(p, cipher, 2) { return Raised; }
    var compression := cipher + 2 + Short(p, cipher);
    if !Within(p, compression, 1) { return Raised; }
    var extension: nat := compression + 3 + p[compression];
    var i := 1;
    ghost var start := extension;
    while i <= MAX_EXTENSIONS
      invariant 1 <= i <= MAX_EXTENSIONS + 1
      invariant Walk(p, extension, MAX_EXTENSIONS + 1 - i, blacklist) == Walk(p, start, MAX_EXTENSIONS, blacklist)
    {
      var data := extension + 4;
      WalkStep(p, extension, MAX_EXTENSIONS + 1 - i, blacklist);
      if !Within(p, extension, 2) { return Raised; }
      if Short(p, extension) == SERVER_NAME {
        return Judge(p, data, blacklist);
      }
      if !Within(p, extension + 2, 2) { return Raised; }
      extension := data + Short(p, extension + 2);
      i := i + 1;
    }
    WalkNone(p, extension, blacklist);
    return NoName;
  }

  /** The outcome for a packet whose TLS record starts at `base`. */
  function Filtered(p: seq<byte>, base: nat, blacklist: set<Name>): Outcome {
    if !Within(p, base, 1) then Raised
    else if p[base] != HANDSHAKE then NoName
    else if !Within(p, base + 5, 1) then Raised
    else if p[base + 5] != CLIENT_HELLO then NoName
    else if !Within(p, base + SESSION, 1) then Raised
    else
      var cipher := base + SESSION + 1 + p[base + SESSION];
      if !Within(p, cipher, 2) then Raised
      else
        var compression := cipher + 2 + Short(p, cipher);
        if !Within(p, compression, 1) then Raised
        else Walk(p, compression + 3 + p[compression], MAX_EXTENSIONS, blacklist)
  }

  // ---- well-formed messages ----

  /** Two octets, the high one first. */
  function Two(v: nat): (b: seq<byte>)
    requires v < 0x1_0000
    ensures |b| == 2
  {
    [v / 256, v % 256]
  }

  datatype Extension = Extension(etype: nat, data: seq<byte>)

  predicate Fits(x: Extension) { x.etype < 0x1_0000 && |x.data| < 0x1_0000 }

  function ExtensionBytes(x: Extension): seq<byte>
    requires Fits(x)
  {
    Two(x.etype) + Two(|x.data|) + x.data
  }

  predicate AllFit(xs: seq<Extension>) { forall i | 0 <= i < |xs| :: Fits(xs[i]) }

  function ExtensionsBytes(xs: seq<Extension>): seq<byte>
    requires AllFit(xs)
  {
    if xs == [] then [] else ExtensionBytes(xs[0]) + ExtensionsBytes(xs[1..])
  }

  /** The record's version and length, the handshake's length, version and random, and what follows them; `totals` is
      the total length of the extensions. */
  datatype Hello = Hello(
    record: seq<byte>, length: seq<byte>, version: seq<byte>, random: seq<byte>, session: seq<byte>, ciphers: seq<byte>, compressions: seq<byte>,
    totals: seq<byte>, extensions: seq<Extension>)

  predicate WellFormed(h: Hello) {
    && |h.record| == 4 && |h.length| == 3 && |h.version| == 2 && |h.random| == 32
    && |h.session| < 256 && |h.ciphers| < 0x1_0000 && |h.compressions| < 256 && |h.totals| == 2
    && AllFit(h.extensions)
  }

  /** A handshake record that holds a ClientHello, up to its session id. */
  function Head(h: Hello): (b: seq<byte>)
    requires WellFormed(h)
    ensures |b| == 43 && b[0] == 0x16 && b[5] == 0x01
  {
    [0x16] + h.record + [0x01] + h.length + h.version + h.random
  }

  /** The message from the compression methods on. */
  function AfterCiphers(h: Hello): (b: seq<byte>)
    requires WellFormed(h)
    ensures |b| == 3 + |h.compressions| + |ExtensionsBytes(h.extensions)|
  {
    [|h.compressions|] + (h.compressions + (h.totals + ExtensionsBytes(h.extensions)))
  }

  function HelloBytes(h: Hello): (b: seq<byte>)
    requires WellFormed(h)
    ensures |b| == 46 + |h.session| + |h.ciphers| + |AfterCiphers(h)|
  {
    Head(h) + ([|h.session|] + (h.session + (Two(|h.ciphers|) + (h.ciphers + AfterCiphers(h)))))
  }

  /** The data of a server_name extension that names `name`: the list's length, a name type, the name's length
      and the name, and whatever else the list holds. */
  predicate Names(data: seq<byte>, name: Name) {
    && 0 < |name| < 0x1_0000
    && |data| >= 5 + |name| && data[3..5] == Two(|name|) && data[5..5 + |name|] == name
  }

  // ---- what the filter does with them ----

  predicate Holds(p: seq<byte>, at: nat, b: seq<byte>) {
    at + |b| <= |p| && p[at..at + |b|] == b
  }

  lemma HoldsBoth(p: seq<byte>, at: nat, a: seq<byte>, b: seq<byte>)
    requires Holds(p, at, a + b)
    ensures Holds(p, at, a) && Holds(p, at + |a|, b)
  {
    assert a == (a + b)[..|a|] && b == (a + b)[|a|..];
  }

  lemma HoldsFirst(p: seq<byte>, at: nat, a: seq<byte>, b: seq<byte>, ab: seq<byte>)
    requires ab == a + b && Holds(p, at, ab)
    ensures Holds(p, at, a) && Holds(p, at + |a|, b) && |ab| == |a| + |b|
  {
    HoldsBoth(p, at, a, b);
  }

  lemma HoldsTwo(p: seq<byte>, at: nat, v: nat)
    requires v < 0x1_0000 && Holds(p, at, Two(v))
    ensures Within(p, at, 2) && Short(p, at) == v
  {
    assert p[at] == p[at..at + 2][0] && p[at + 1] == p[at..at + 2][1];
  }

  lemma HoldsOne(p: seq<byte>, at: nat, v: byte)
    requires Holds(p, at, [v])
    ensures Within(p, at, 1) && p[at] == v
  {
    assert p[at] == p[at..at + 1][0];
  }

  lemma ExtensionAt(p: seq<byte>, at: nat, x: Extension)
    requires Fits(x) && Holds(p, at, ExtensionBytes(x))
    ensures Within(p, at, 4) && Short(p, at) == x.etype && Short(p, at + 2) == |x.data| && Holds(p, at + 4, x.data)
  {
    HoldsBoth(p, at, Two(x.etype) + Two(|x.data|), x.data);
    HoldsBoth(p, at, Two(x.etype), Two(|x.data|));
    HoldsTwo(p, at, x.etype);
    HoldsTwo(p, at + 2, |x.data|);
  }

  predicate NoneNamed(xs: seq<Extension>) { forall i | 0 <= i < |xs| :: xs[i].etype != 0 }

  /** Other extensions are stepped over. */
  lemma {:induction false} Skips(p: seq<byte>, at: nat, xs: seq<Extension>, k: nat, blacklist: set<Name>)
    requires AllFit(xs) && NoneNamed(xs) && |xs| <= k && Holds(p, at, ExtensionsBytes(xs))
    ensures Walk(p, at, k, blacklist) == Walk(p, at + |ExtensionsBytes(xs)|, k - |xs|, blacklist)
    decreases |xs|
  {
    hide Holds, Short;
    if xs == [] {
    } else {
      HoldsBoth(p, at, ExtensionBytes(xs[0]), ExtensionsBytes(xs[1..]));
      ExtensionAt(p, at, xs[0]);
      Skips(p, at + |ExtensionBytes(xs[0])|, xs[1..], k - 1, blacklist);
    }
  }

  lemma {:induction false} ExtensionsSplit(xs: seq<Extension>, ys: seq<Extension>)
    requires AllFit(xs) && AllFit(ys)
    ensures ExtensionsBytes(xs + ys) == ExtensionsBytes(xs) + ExtensionsBytes(ys)
  {
    hide ExtensionBytes;
    if xs == [] {
      assert xs + ys == ys;
    } else {
      assert (xs + ys)[1..] == xs[1..] + ys;
      ExtensionsSplit(xs[1..], ys);
    }
  }

  lemma JudgesName(p: seq<byte>, data: nat, bytes: seq<byte>, name: Name, blacklist: set<Name>)
    requires Holds(p, data, bytes) && Names(bytes, name)
    ensures Judge(p, data, blacklist) == if name in blacklist then Dropped(name) else Passed(name)
  {
    var n := |name|;
    assert bytes == bytes[..3] + bytes[3..5] + bytes[5..5 + n] + bytes[5 + n..];
    HoldsBoth(p, data, bytes[..3] + bytes[3..5] + bytes[5..5 + n], bytes[5 + n..]);
    HoldsBoth(p, data, bytes[..3] + bytes[3..5], bytes[5..5 + n]);
    HoldsBoth(p, data, bytes[..3], bytes[3..5]);
    HoldsTwo(p, data + 3, n);
  }

  /** A ClientHello with any session id, cipher suites and compression methods leads the walk to its extensions. */
  lemma ReachesExtensions(p: seq<byte>, base: nat, h: Hello, blacklist: set<Name>) returns (at: nat)
    requires WellFormed(h) && Holds(p, base, HelloBytes(h))
    ensures Holds(p, at, ExtensionsBytes(h.extensions)) && at + |ExtensionsBytes(h.extensions)| == base + |HelloBytes(h)|
    ensures Filtered(p, base, blacklist) == Walk(p, at, 17, blacklist)
  {
    hide Holds, Walk, Short, ExtensionsBytes, Filtered, HelloBytes, AfterCiphers;
    var s, c, m := |h.session|, |h.ciphers|, |h.compressions|;
    UpToCiphers(p, base, h);
    FromCompressions(p, base + SESSION + 3 + s + c, h);
    at := base + SESSION + 6 + s + c + m;
    FilteredAt(p, base, s, c, m, blacklist);
  }

  lemma UpToCiphers(p: seq<byte>, base: nat, h: Hello)
    requires WellFormed(h) && Holds(p, base, HelloBytes(h))
    ensures var cipher := base + SESSION + 1 + |h.session|;
            && Within(p, base, SESSION + 1) && p[base] == HANDSHAKE && p[base + 5] == CLIENT_HELLO
            && p[base + SESSION] == |h.session|
            && Within(p, cipher, 2) && Short(p, cipher) == |h.ciphers|
            && Holds(p, cipher + 2 + |h.ciphers|, AfterCiphers(h))
  {
    hide Holds, Short, AfterCiphers, Two;
    var r4 := h.ciphers + AfterCiphers(h);
    var r3 := Two(|h.ciphers|) + r4;
    var r2 := h.session + r3;
    var r1 := [|h.session|] + r2;
    var s, c := |h.session|, |h.ciphers|;
    HoldsFirst(p, base, Head(h), r1, HelloBytes(h));
    hide HelloBytes;
    HeadAt(p, base, Head(h));
    HoldsFirst(p, base + SESSION, [s], r2, r1);
    HoldsOne(p, base + SESSION, s);
    HoldsFirst(p, base + SESSION + 1, h.session, r3, r2);
    HoldsFirst(p, base + SESSION + 1 + s, Two(c), r4, r3);
    HoldsTwo(p, base + SESSION + 1 + s, c);
    HoldsFirst(p, base + SESSION + 3 + s, h.ciphers, AfterCiphers(h), r4);
  }

  lemma FromCompressions(p: seq<byte>, at: nat, h: Hello)
    requires WellFormed(h) && Holds(p, at, AfterCiphers(h))
    ensures Within(p, at, 1) && p[at] == |h.compressions|
    ensures Holds(p, at + 3 + |h.compressions|, ExtensionsBytes(h.extensions))
  {
    hide Holds, ExtensionsBytes;
    var m := |h.compressions|;
    var r7 := h.totals + ExtensionsBytes(h.extensions);
    var r6 := h.compressions + r7;
    HoldsFirst(p, at, [m], r6, AfterCiphers(h));
    HoldsOne(p, at, m);
    HoldsFirst(p, at + 1, h.compressions, r7, r6);
    HoldsFirst(p, at + 1 + m, h.totals, ExtensionsBytes(h.extensions), r7);
  }

  /** Where the walk starts, given what the three length fields hold. */
  lemma FilteredAt(p: seq<byte>, base: nat, s: nat, c: nat, m: nat, blacklist: set<Name>)
    requires Within(p, base, SESSION + 1) && p[base] == HANDSHAKE && p[base + 5] == CLIENT_HELLO && p[base + SESSION] == s
    requires Within(p, base + SESSION + 1 + s, 2) && Short(p, base + SESSION + 1 + s) == c
    requires Within(p, base + SESSION + 3 + s + c, 1) && p[base + SESSION + 3 + s + c] == m
    ensures Filtered(p, base, blacklist) == Walk(p, base + SESSION + 6 + s + c + m, 17, blacklist)
  {
    hide Walk, Short;
    assert base + SESSION + 1 + s + 2 + c == base + SESSION + 3 + s + c;
  }

  lemma HeadAt(p: seq<byte>, base: nat, head: seq<byte>)
    requires |head| == SESSION && Holds(p, base, head)
    ensures Within(p, base, SESSION) && p[base] == head[0] && p[base + 5] == head[5]
  {
    assert p[base] == p[base..base + SESSION][0] && p[base + 5] == p[base..base + SESSION][5];
  }

  /** Unnamed hellos: with 17 extensions or more the packet passes; with fewer, the walk, which does not know the
      total length of the extensions, goes on into whatever follows the message. */
  lemma UnnamedGoesOn(p: seq<byte>, base: nat, h: Hello, blacklist: set<Name>)
    requires WellFormed(h) && Holds(p, base, HelloBytes(h))
    ensures |h.extensions| < 17 && NoneNamed(h.extensions) ==>
              Filtered(p, base, blacklist) == Walk(p, base + |HelloBytes(h)|, 17 - |h.extensions|, blacklist)
    ensures |h.extensions| >= 17 && NoneNamed(h.extensions[..17]) ==>
              Filtered(p, base, blacklist) == NoName
  {
    hide Filtered, HelloBytes, Holds, Walk, Judge, ExtensionsBytes;
    var at := ReachesExtensions(p, base, h, blacklist);
    if |h.extensions| < MAX_EXTENSIONS {
      if NoneNamed(h.extensions) { Skips(p, at, h.extensions, MAX_EXTENSIONS, blacklist); }
    } else if NoneNamed(h.extensions[..MAX_EXTENSIONS]) {
      var xs, ys := h.extensions[..MAX_EXTENSIONS], h.extensions[MAX_EXTENSIONS..];
      assert h.extensions == xs + ys;
      ExtensionsSplit(xs, ys);
      HoldsBoth(p, at, ExtensionsBytes(xs), ExtensionsBytes(ys));
      Skips(p, at, xs, MAX_EXTENSIONS, blacklist);
      WalkNone(p, at + |ExtensionsBytes(xs)|, blacklist);
    }
  }

  // ---- when the message alone decides ----

  /** How many of the first `k` extensions come before a server_name one. */
  function Unnamed(xs: seq<Extension>, k: nat): (i: nat)
    ensures i <= k && i <= |xs| && NoneNamed(xs[..i])
    ensures i < k && i < |xs| ==> xs[i].etype == 0
  {
    if k == 0 || xs == [] || xs[0].etype == 0 then 0
    else
      var i := Unnamed(xs[1..], k - 1);
      assert xs[..i + 1] == [xs[0]] + xs[1..][..i];
      i + 1
  }

  /** Where the data of extension `i` starts in the message. */
  function DataAt(h: Hello, i: nat): nat
    requires WellFormed(h) && i < |h.extensions|
  {
    |HelloBytes(h)| - |ExtensionsBytes(h.extensions)| + |ExtensionsBytes(h.extensions[..i])| + 4
  }

  /** Whether the name read from `data` on, or its absence, lies within `m`. */
  predicate NameWithin(m: seq<byte>, data: nat) {
    Within(m, data + 3, 2) && (Short(m, data + 3) == 0 || Within(m, data + 5, Short(m, data + 3)))
  }

  /** The walk stays in the message: it finds a server name whose length and bytes lie within, or 17 other extensions. */
  predicate SelfContained(h: Hello)
    requires WellFormed(h)
  {
    var i := Unnamed(h.extensions, 17);
    if i < 17 && i < |h.extensions| then NameWithin(HelloBytes(h), DataAt(h, i))
    else |h.extensions| >= 17
  }

  lemma HoldsRead(p: seq<byte>, base: nat, m: seq<byte>, i: nat, j: nat)
    requires Holds(p, base, m) && i <= j <= |m|
    ensures base + j <= |p| && p[base + i..base + j] == m[i..j]
  {
    assert forall k | 0 <= k < j - i :: p[base + i..base + j][k] == p[base..base + |m|][i + k] == m[i..j][k];
  }

  lemma HoldsShort(p: seq<byte>, base: nat, m: seq<byte>, i: nat)
    requires Holds(p, base, m) && Within(m, i, 2)
    ensures Within(p, base + i, 2) && Short(p, base + i) == Short(m, i)
  {
    HoldsRead(p, base, m, i, i + 2);
    assert p[base + i..base + i + 2][0] == p[base + i] && p[base + i..base + i + 2][1] == p[base + i + 1];
    assert m[i..i + 2][0] == m[i] && m[i..i + 2][1] == m[i + 1];
  }

  lemma JudgesWithin(p: seq<byte>, base: nat, m: seq<byte>, data: nat, blacklist: set<Name>)
    requires Holds(p, base, m) && NameWithin(m, data)
    ensures Judge(p, base + data, blacklist) == Judge(m, data, blacklist)
  {
    hide Holds;
    HoldsShort(p, base, m, data + 3);
    var length := Short(m, data + 3);
    if length > 0 { HoldsRead(p, base, m, data + 5, data + 5 + length); }
  }

  lemma ExtensionsHeld(p: seq<byte>, at: nat, xs: seq<Extension>, i: nat)
    requires AllFit(xs) && i <= |xs| && Holds(p, at, ExtensionsBytes(xs))
    ensures AllFit(xs[..i]) && Holds(p, at, ExtensionsBytes(xs[..i]))
  {
    hide Holds, ExtensionsBytes;
    assert xs == xs[..i] + xs[i..];
    ExtensionsSplit(xs[..i], xs[i..]);
    HoldsBoth(p, at, ExtensionsBytes(xs[..i]), ExtensionsBytes(xs[i..]));
  }

  /** A hello with a server_name among its first 17 extensions is judged by what that extension's data leads to. */
  lemma NamedIsJudged(p: seq<byte>, base: nat, h: Hello, i: nat, blacklist: set<Name>)
    requires WellFormed(h) && Holds(p, base, HelloBytes(h))
    requires i < 17 && i < |h.extensions| && NoneNamed(h.extensions[..i]) && h.extensions[i].etype == 0
    ensures DataAt(h, i) <= |HelloBytes(h)|
    ensures Filtered(p, base, blacklist) == Judge(p, base + DataAt(h, i), blacklist)
  {
    hide Filtered, HelloBytes, Holds, Walk, Judge, ExtensionsBytes, ExtensionBytes;
    var at := ReachesExtensions(p, base, h, blacklist);
    ExtensionReached(p, at, h, i);
    var xs := h.extensions[..i];
    ExtensionsHeld(p, at, h.extensions, i);
    Skips(p, at, xs, MAX_EXTENSIONS, blacklist);
    var there := at + |ExtensionsBytes(xs)|;
    ExtensionAt(p, there, h.extensions[i]);
    WalkStep(p, there, MAX_EXTENSIONS - i, blacklist);
  }

  lemma ExtensionsParts(xs: seq<Extension>, i: nat)
    requires AllFit(xs) && i < |xs|
    ensures ExtensionsBytes(xs) == ExtensionsBytes(xs[..i]) + (ExtensionBytes(xs[i]) + ExtensionsBytes(xs[i + 1..]))
    ensures |ExtensionBytes(xs[i])| >= 4
  {
    assert xs[i..][1..] == xs[i + 1..];
    assert ExtensionsBytes(xs[i..]) == ExtensionBytes(xs[i]) + ExtensionsBytes(xs[i + 1..]);
    assert |ExtensionBytes(xs[i])| >= 4;
    hide ExtensionBytes, ExtensionsBytes;
    assert xs == xs[..i] + xs[i..];
    ExtensionsSplit(xs[..i], xs[i..]);
  }

  /** Where extension `i` is. */
  lemma ExtensionReached(p: seq<byte>, at: nat, h: Hello, i: nat)
    requires WellFormed(h) && i < |h.extensions| && Holds(p, at, ExtensionsBytes(h.extensions))
    ensures AllFit(h.extensions[..i]) && Holds(p, at + |ExtensionsBytes(h.extensions[..i])|, ExtensionBytes(h.extensions[i]))
    ensures |ExtensionsBytes(h.extensions[..i])| + 4 <= |ExtensionsBytes(h.extensions)|
  {
    hide Holds, ExtensionsBytes, ExtensionBytes;
    var xs, x, ys := h.extensions[..i], h.extensions[i], h.extensions[i + 1..];
    ExtensionsParts(h.extensions, i);
    HoldsBoth(p, at, ExtensionsBytes(xs), ExtensionBytes(x) + ExtensionsBytes(ys));
    HoldsBoth(p, at + |ExtensionsBytes(xs)|, ExtensionBytes(x), ExtensionsBytes(ys));
  }

  lemma ExtensionDataAt(p: seq<byte>, base: nat, h: Hello, i: nat)
    requires WellFormed(h) && Holds(p, base, HelloBytes(h)) && i < |h.extensions|
    ensures Holds(p, base + DataAt(h, i), h.extensions[i].data)
  {
    hide Filtered, Holds, HelloBytes, ExtensionsBytes, ExtensionBytes;
    var at := ReachesExtensions(p, base, h, {});
    ExtensionReached(p, at, h, i);
    ExtensionAt(p, at + |ExtensionsBytes(h.extensions[..i])|, h.extensions[i]);
  }

  /** Wherever the message starts, whatever its session id, cipher suites, compression methods and other
      extensions: a server name among the first 17 extensions is extracted exactly, and the packet is
      dropped if and only if that name is blacklisted. */
  lemma ExtractsServerName(p: seq<byte>, base: nat, h: Hello, i: nat, name: Name, blacklist: set<Name>)
    requires WellFormed(h) && Holds(p, base, HelloBytes(h))
    requires i < 17 && i < |h.extensions| && NoneNamed(h.extensions[..i])
    requires h.extensions[i].etype == 0 && Names(h.extensions[i].data, name)
    ensures Filtered(p, base, blacklist) == if name in blacklist then Dropped(name) else Passed(name)
  {
    hide Filtered, HelloBytes, Holds, Judge, Names;
    NamedIsJudged(p, base, h, i, blacklist);
    ExtensionDataAt(p, base, h, i);
    JudgesName(p, base + DataAt(h, i), h.extensions[i].data, name, blacklist);
  }

  lemma HoldsItself(m: seq<byte>, more: seq<byte>)
    ensures Holds(m + more, 0, m) && Holds(m, 0, m)
  {
  }

  lemma ContainedDecides(p: seq<byte>, base: nat, h: Hello, blacklist: set<Name>)
    requires WellFormed(h) && Holds(p, base, HelloBytes(h)) && SelfContained(h)
    ensures Filtered(p, base, blacklist) == Filtered(HelloBytes(h), 0, blacklist)
  {
    hide Filtered, HelloBytes, Holds, Walk, Judge, NameWithin, DataAt;
    var m, i := HelloBytes(h), Unnamed(h.extensions, MAX_EXTENSIONS);
    HoldsItself(m, []);
    if i < MAX_EXTENSIONS && i < |h.extensions| {
      NamedIsJudged(p, base, h, i, blacklist);
      NamedIsJudged(m, 0, h, i, blacklist);
      JudgesWithin(p, base, m, DataAt(h, i), blacklist);
    } else {
      UnnamedGoesOn(p, base, h, blacklist);
      UnnamedGoesOn(m, 0, h, blacklist);
    }
  }

  /** Enough bytes after a message to satisfy any walk that leaves it. */
  function Filler(): (b: seq<byte>)
    ensures |b| == 0x1_0010 && forall i | 0 <= i < |b| :: b[i] == 1
  {
    seq(0x1_0010, i => 1)
  }

  lemma {:induction false} WalksFiller(p: seq<byte>, at: nat, k: nat, blacklist: set<Name>)
    requires (forall i | at <= i < |p| :: p[i] == 1) && at + 261 * k + 4 <= |p|
    ensures Walk(p, at, k, blacklist) == NoName
    decreases k
  {
    if k == 0 {
      WalkNone(p, at, blacklist);
    } else {
      WalkStep(p, at, k, blacklist);
      hide Walk;
      assert Short(p, at) == 257 && Short(p, at + 2) == 257;
      WalksFiller(p, at + 4 + 257, k - 1, blacklist);
    }
  }

  /** Outside the message: alone it raises, and followed by the filler it does not. */
  lemma UncontainedDiffers(h: Hello, blacklist: set<Name>)
    requires WellFormed(h) && !SelfContained(h)
    ensures Filtered(HelloBytes(h), 0, blacklist) == Raised
    ensures Filtered(HelloBytes(h) + Filler(), 0, blacklist) != Raised
  {
    hide Filtered, HelloBytes, Holds, Walk, Judge, Filler;
    var m, i := HelloBytes(h), Unnamed(h.extensions, MAX_EXTENSIONS);
    var p := m + Filler();
    HoldsItself(m, Filler());
    if i < MAX_EXTENSIONS && i < |h.extensions| {
      NamedIsJudged(m, 0, h, i, blacklist);
      NamedIsJudged(p, 0, h, i, blacklist);
      JudgesOutside(m, DataAt(h, i), blacklist);
    } else {
      assert h.extensions[..|h.extensions|] == h.extensions;
      UnnamedGoesOn(m, 0, h, blacklist);
      UnnamedGoesOn(p, 0, h, blacklist);
      WalkStep(m, |m|, MAX_EXTENSIONS - |h.extensions|, blacklist);
      WalksFiller(p, |m|, MAX_EXTENSIONS - |h.extensions|, blacklist);
    }
  }

  lemma JudgesOutside(m: seq<byte>, data: nat, blacklist: set<Name>)
    requires !NameWithin(m, data) && data <= |m|
    ensures Judge(m, data, blacklist) == Raised && Judge(m + Filler(), data, blacklist) != Raised
  {
    var p := m + Filler();
    if Within(m, data + 3, 2) {
      assert Short(p, data + 3) == Short(m, data + 3);
    } else {
      assert p[data + 4] == 1;
    }
  }

  /** The outcome depends on the message alone, wherever it is and whatever surrounds it, if and only if its first 17
      extensions hold a server name that lies within the message, or there are 17 and none is a server name. */
  lemma MessageDecidesIff(h: Hello, blacklist: set<Name>)
    requires WellFormed(h)
    ensures (forall p, base: nat | Holds(p, base, HelloBytes(h)) ::
               Filtered(p, base, blacklist) == Filtered(HelloBytes(h), 0, blacklist)) <==> SelfContained(h)
  {
    hide Filtered, HelloBytes, Holds, SelfContained, Filler;
    var m := HelloBytes(h);
    if SelfContained(h) {
      forall p, base: nat | Holds(p, base, m) ensures Filtered(p, base, blacklist) == Filtered(m, 0, blacklist) {
        ContainedDecides(p, base, h, blacklist);
      }
    } else {
      UncontainedDiffers(h, blacklist);
      HoldsItself(m, Filler());
    }
  }

  lemma HoldsSecond(a: seq<byte>, b: seq<byte>)
    ensures Holds(a + b, |a|, b)
  {
    assert (a + b)[|a|..] == b;
  }

  lemma NameData(name: Name, data: seq<byte>)
    requires |name| < 0x1_0000 && data == [0, 0, 0] + Two(|name|) + name
    ensures data[3..5] == Two(|name|) && data[5..5 + |name|] == name && |data| == 5 + |name|
  {
    hide Two;
  }

  /** A packet may even be dropped for bytes that follow the message. */
  lemma DroppedForTrailer(h: Hello, name: Name, blacklist: set<Name>)
    requires WellFormed(h) && |h.extensions| < 17 && NoneNamed(h.extensions)
    requires name in blacklist && 0 < |name| < 0x1_0000 - 5
    ensures var trailer := Extension(0, [0, 0, 0] + Two(|name|) + name);
            Fits(trailer) && Filtered(HelloBytes(h) + ExtensionBytes(trailer), 0, blacklist) == Dropped(name)
  {
    hide Filtered, HelloBytes, Walk, Judge, ExtensionsBytes;
    var data := [0, 0, 0] + Two(|name|) + name;
    var x, m := Extension(SERVER_NAME, data), HelloBytes(h);
    var p := m + ExtensionBytes(x);
    HoldsItself(m, ExtensionBytes(x));
    UnnamedGoesOn(p, 0, h, blacklist);
    HoldsSecond(m, ExtensionBytes(x));
    hide Holds, ExtensionBytes, Two;
    ExtensionAt(p, |m|, x);
    NameData(name, data);
    WalkStep(p, |m|, MAX_EXTENSIONS - |h.extensions|, blacklist);
    JudgesName(p, |m| + 4, data, name, blacklist);
  }
}
