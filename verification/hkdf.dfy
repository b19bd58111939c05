/** HKDF over any keyed hash (lib/crypto/hkdf.lua), after sections 2.2 and 2.3 of RFC 5869. Numbers are
    integers, and `/` divides them rounding down. */
module Hkdf {
  import opened Bytes
  import opened Optional

  /** The hash: a digest of fixed size for every key and message. */
  type Hmac = (seq<byte>, seq<byte>) -> seq<byte>

  ghost predicate Digests(h: Hmac, size: nat) {
    size > 0 && forall key, message :: |h(key, message)| == size
  }

  // ---- the standard ----

  /** T(i) of the standard: T(0) is empty and block `i` hashes block `i - 1`, the info and the octet `i`. */
  function Block(h: Hmac, prk: seq<byte>, info: seq<byte>, i: nat): seq<byte>
    requires i <= 255
  {
    if i == 0 then [] else h(prk, Block(h, prk, info, i - 1) + info + [i])
  }

  /** T(1) | ... | T(m). */
  function Blocks(h: Hmac, prk: seq<byte>, info: seq<byte>, m: nat): seq<byte>
    requires m <= 255
  {
    if m == 0 then [] else Blocks(h, prk, info, m - 1) + Block(h, prk, info, m)
  }

  lemma {:induction false} BlocksLength(h: Hmac, prk: seq<byte>, info: seq<byte>, m: nat, size: nat)
    requires Digests(h, size) && m <= 255
    ensures |Blocks(h, prk, info, m)| == m * size
  {
    if m == 0 {
    } else {
      BlocksLength(h, prk, info, m - 1, size);
      assert m * size == (m - 1) * size + size;
    }
  }

  lemma {:induction false} BlocksPrefix(h: Hmac, prk: seq<byte>, info: seq<byte>, a: nat, b: nat)
    requires a <= b <= 255
    ensures Blocks(h, prk, info, a) <= Blocks(h, prk, info, b)
    decreases b
  {
    if a < b { BlocksPrefix(h, prk, info, a, b - 1); }
  }

  /** The output of the standard, for the lengths that it allows. */
  function Okm(h: Hmac, prk: seq<byte>, info: seq<byte>, length: nat): (okm: seq<byte>)
    requires length <= |Blocks(h, prk, info, 255)|
  {
    Blocks(h, prk, info, 255)[..length]
  }

  // ---- the code ----

  /** The number of blocks that `expand` computes. */
  function BlockCount(length: int, size: nat): int
    requires size > 0
  {
    var n := length / size;
    if n * size == length then n else n + 1
  }

  /** The least number of blocks that hold `length` bytes. */
  lemma BlockCountMeans(length: int, size: nat)
    requires size > 0
    ensures var n := BlockCount(length, size);
            length <= n * size && (n - 1) * size < length
    ensures BlockCount(length, size) <= 255 <==> length <= 255 * size
    ensures BlockCount(length, size) <= 0 <==> length <= 0
  {
    hide BlockCount;
    Least(length, size);
    AtMost(length, size, BlockCount(length, size), 255);
    AtMost(length, size, BlockCount(length, size), 0);
  }

  lemma Least(length: int, size: nat)
    requires size > 0
    ensures var n := BlockCount(length, size); (n - 1) * size < length <= n * size
  {
    var q := length / size;
    assert q * size <= length < q * size + size;
    assert (q + 1) * size == q * size + size && (q - 1) * size == q * size - size;
  }

  lemma AtMost(length: int, size: nat, n: int, k: int)
    requires (n - 1) * size < length <= n * size
    ensures n <= k <==> length <= k * size
  {
    if n <= k { MulOrder(n, k, size); } else { MulOrder(k, n - 1, size); }
  }

  lemma MulOrder(a: int, b: int, size: nat)
    requires a <= b
    ensures a * size <= b * size
  {
  }

  /** `expand`: the first `length` bytes of T(1) | T(2) | ..., and an error exactly when that takes more than
      255 blocks, where the octet of the next block does not exist. */
  method Expand(h: Hmac, size: nat, prk: seq<byte>, info: Option<seq<byte>>, length: int) returns (r: Option<seq<byte>>)
    requires Digests(h, size)
    ensures r.None? <==> length > 255 * size
    ensures r.Some? && length >= 0 ==>
              var context := if info == None then [] else info.value;
              length <= |Blocks(h, prk, context, 255)| && r.value == Okm(h, prk, context, length)
    ensures r.Some? && length < 0 ==> r.value == []
  {
    hide Block, Blocks;
    var context := [];
    if info.Some? { context := info.value; }
    var n := length / size;
    n := if n * size == length then n else n + 1;
    BlockCountMeans(length, size);
    var okm, t := [], [];
    var i := 1;
    BlocksStep(h, prk, context, 0);
    while i <= n
      invariant 1 <= i <= 256 && (i <= n + 1 || n < 0)
      invariant t == Block(h, prk, context, i - 1) && okm == Blocks(h, prk, context, i - 1)
      decreases n - i
    {
      if i > 255 { return None; }
      BlocksStep(h, prk, context, i);
      t := h(prk, t + context + [i]);
      okm := okm + t;
      i := i + 1;
    }
    if length < 0 { return Some([]); }
    BlocksLength(h, prk, context, i - 1, size);
    BlocksLength(h, prk, context, 255, size);
    BlocksPrefix(h, prk, context, i - 1, 255);
    assert length <= |okm|;
    r := Some(okm[..length]);
    assert okm[..length] == Blocks(h, prk, context, 255)[..length];
  }

  lemma BlocksStep(h: Hmac, prk: seq<byte>, info: seq<byte>, i: nat)
    requires i <= 255
    ensures i == 0 ==> Block(h, prk, info, 0) == [] && Blocks(h, prk, info, 0) == []
    ensures i > 0 ==> Block(h, prk, info, i) == h(prk, Block(h, prk, info, i - 1) + info + [i])
                      && Blocks(h, prk, info, i) == Blocks(h, prk, info, i - 1) + Block(h, prk, info, i)
  {
  }

  /** Section 2.3 of the standard: N = ceil(L / HashLen) blocks are enough, any more change nothing, and
      shorter outputs are prefixes of longer ones. */
  lemma OkmMeans(h: Hmac, size: nat, prk: seq<byte>, info: seq<byte>, length: nat, shorter: nat, m: nat)
    requires Digests(h, size) && shorter <= length <= 255 * size && BlockCount(length, size) <= m <= 255
    ensures length <= |Blocks(h, prk, info, 255)| && length <= |Blocks(h, prk, info, m)|
    ensures Okm(h, prk, info, length) == Blocks(h, prk, info, m)[..length]
    ensures Okm(h, prk, info, shorter) == Okm(h, prk, info, length)[..shorter]
  {
    BlockCountMeans(length, size);
    hide Blocks;
    var n := BlockCount(length, size);
    MulOrder(n, m, size);
    BlocksLength(h, prk, info, m, size);
    BlocksLength(h, prk, info, 255, size);
    BlocksPrefix(h, prk, info, m, 255);
  }

  /** `extract`: without a salt, a digest's length of zeros is the key. */
  function Extract(h: Hmac, size: nat, salt: Option<seq<byte>>, ikm: seq<byte>): seq<byte> {
    h(if salt.Some? then salt.value else Zeros(size), ikm)
  }

  /** `hkdf`: extract, then expand. */
  method Derive(h: Hmac, size: nat, salt: Option<seq<byte>>, ikm: seq<byte>, info: Option<seq<byte>>, length: int)
    returns (r: Option<seq<byte>>)
    requires Digests(h, size)
    ensures r.None? <==> length > 255 * size
    ensures r.Some? && length >= 0 ==>
              var prk := h(if salt == None then seq(size, i => 0) else salt.value, ikm);
              var context := if info == None then [] else info.value;
              length <= |Blocks(h, prk, context, 255)| && r.value == Okm(h, prk, context, length)
    ensures r.Some? && length < 0 ==> r.value == []
  {
    assert Zeros(size) == seq(size, i => 0);
    r := Expand(h, size, Extract(h, size, salt, ikm), info, length);
  }
}
