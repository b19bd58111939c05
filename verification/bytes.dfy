/** Byte strings, fixed-width integers and powers of two. */
module Bytes {

  type byte = x: int | 0 <= x < 256

  function Min(a: nat, b: nat): nat { if a < b then a else b }

  function Zeros(n: nat): (b: seq<byte>)
    ensures |b| == n && forall i | 0 <= i < n :: b[i] == 0
  {
    seq(n, i => 0)
  }

  function Pow256(n: nat): (p: nat)
    ensures p >= 1
  {
    if n == 0 then 1 else 256 * Pow256(n - 1)
  }

  // ---- little-endian numbers ----

  function Put(v: nat, n: nat): (b: seq<byte>)
    ensures |b| == n
  {
    if n == 0 then [] else [v % 256] + Put(v / 256, n - 1)
  }

  function Value(b: seq<byte>): (v: nat)
    ensures v < Pow256(|b|)
  {
    if b == [] then 0 else b[0] + 256 * Value(b[1..])
  }

  lemma {:induction false} ValuePut(v: nat, n: nat)
    requires v < Pow256(n)
    ensures Value(Put(v, n)) == v
  {
    if n == 0 {
    } else {
      ValuePut(v / 256, n - 1);
      assert Put(v, n)[1..] == Put(v / 256, n - 1);
    }
  }

  lemma {:induction false} PutValue(b: seq<byte>)
    ensures Put(Value(b), |b|) == b
  {
    if b == [] {
    } else {
      PutValue(b[1..]);
      assert Value(b) % 256 == b[0] && Value(b) / 256 == Value(b[1..]);
    }
  }

  /** Byte `i` is the digit of weight 256^i. */
  lemma {:induction false} PutDigit(v: nat, n: nat, i: nat)
    requires i < n
    ensures Put(v, n)[i] == v / Pow256(i) % 256
  {
    if i == 0 {
      assert v / 1 == v;
    } else {
      PutDigit(v / 256, n - 1, i - 1);
      DivideTwice(v, Pow256(i - 1));
    }
  }

  lemma DivideTwice(v: nat, p: nat)
    requires p >= 1
    ensures v / (256 * p) == v / 256 / p
  {
    var a := v / 256;
    var q, r := a / p, a % p;
    assert a == p * q + r;
    Weighted(p, q, r, v % 256);
    DivUnique(v, 256 * p, q, 256 * r + v % 256);
  }

  lemma Weighted(p: nat, q: nat, r: nat, b: nat)
    ensures 256 * (p * q + r) + b == (256 * p) * q + (256 * r + b)
  {
  }

  lemma DivUnique(h: nat, d: nat, q: nat, r: nat)
    requires h == d * q + r && r < d
    ensures h / d == q
  {
    var q', r' := h / d, h % d;
    EuclidUnique(d, q, r, q', r');
  }

  // ---- powers of two and bit masks ----

  function Pow2(n: nat): (p: nat)
    ensures p >= 1
  {
    if n == 0 then 1 else 2 * Pow2(n - 1)
  }

  function BitAnd(a: nat, b: nat): nat {
    if a == 0 || b == 0 then 0 else 2 * BitAnd(a / 2, b / 2) + (a % 2) * (b % 2)
  }

  /** Masking with `2^k - 1` is reduction modulo `2^k`. */
  lemma {:induction false} MaskIsModulo(h: nat, k: nat)
    ensures BitAnd(h, Pow2(k) - 1) == h % Pow2(k)
  {
    if k == 0 || h == 0 {
      MaskNothing(h, k);
    } else {
      assert Pow2(k) == 2 * Pow2(k - 1);
      hide BitAnd, Pow2;
      MaskIsModulo(h / 2, k - 1);
      HalfModulo(h, Pow2(k - 1));
      MaskHalves(h, Pow2(k - 1));
    }
  }

  lemma MaskNothing(h: nat, k: nat)
    requires k == 0 || h == 0
    ensures BitAnd(h, Pow2(k) - 1) == h % Pow2(k)
  {
    assert BitAnd(h, Pow2(k) - 1) == 0;
    assert k == 0 ==> Pow2(k) == 1;
    hide BitAnd, Pow2;
    if h == 0 { ModUnique(0, Pow2(k), 0, 0); } else { ModUnique(h, 1, h, 0); }
  }

  lemma MaskHalves(h: nat, p: nat)
    requires h > 0 && p >= 1
    ensures BitAnd(h, 2 * p - 1) == 2 * BitAnd(h / 2, p - 1) + h % 2
  {
    assert (2 * p - 1) / 2 == p - 1 && (2 * p - 1) % 2 == 1;
  }

  lemma HalfModulo(h: nat, p: nat)
    requires p >= 1
    ensures h % (2 * p) == 2 * ((h / 2) % p) + h % 2
  {
    var q, r := h / 2 / p, (h / 2) % p;
    assert h / 2 == p * q + r;
    assert h == (2 * p) * q + (2 * r + h % 2);
    ModUnique(h, 2 * p, q, 2 * r + h % 2);
  }

  lemma ModUnique(h: nat, d: nat, q: nat, r: nat)
    requires h == d * q + r && r < d
    ensures h % d == r
  {
    var q', r' := h / d, h % d;
    EuclidUnique(d, q, r, q', r');
  }

  lemma EuclidUnique(d: nat, q: nat, r: nat, q': nat, r': nat)
    requires d * q + r == d * q' + r' && r < d && r' < d
    ensures q == q' && r == r'
  {
    if q < q' {
      MulStep(d, q, q');
    } else if q' < q {
      MulStep(d, q', q);
    }
  }

  lemma MulStep(d: nat, a: nat, b: nat)
    requires a < b
    ensures d * a + d <= d * b
    decreases b
  {
    assert d * b == d * (b - 1) + d;
    if a < b - 1 { MulStep(d, a, b - 1); }
  }

  // ---- bitwise or ----

  function BitOr(a: nat, b: nat): nat {
    if a == 0 then b
    else if b == 0 then a
    else 2 * BitOr(a / 2, b / 2) + if a % 2 == 1 || b % 2 == 1 then 1 else 0
  }

  predicate Bit(n: nat, k: nat) {
    if k == 0 then n % 2 == 1 else Bit(n / 2, k - 1)
  }

  lemma {:induction false} OrBit(a: nat, b: nat, k: nat)
    ensures Bit(BitOr(a, b), k) <==> Bit(a, k) || Bit(b, k)
    decreases k
  {
    NoBits(k);
    if a != 0 && b != 0 && k > 0 { OrBit(a / 2, b / 2, k - 1); }
  }

  lemma {:induction false} NoBits(k: nat)
    ensures !Bit(0, k)
  {
    if k == 0 {
    } else {
      NoBits(k - 1);
    }
  }

  lemma {:induction false} SomeBit(n: nat)
    requires n > 0
    ensures exists k: nat :: Bit(n, k)
  {
    if n % 2 == 1 {
      assert Bit(n, 0);
    } else {
      SomeBit(n / 2);
      var k: nat :| Bit(n / 2, k);
      assert Bit(n, k + 1);
    }
  }

  lemma OrHalf(a: nat, b: nat)
    ensures BitOr(a, b) / 2 == BitOr(a / 2, b / 2) && (BitOr(a, b) % 2 == 1 <==> a % 2 == 1 || b % 2 == 1)
    ensures BitOr(a, b) == 0 <==> a == 0 && b == 0
  {
  }

  lemma {:induction false} OrAssociates(a: nat, b: nat, c: nat)
    ensures BitOr(BitOr(a, b), c) == BitOr(a, BitOr(b, c))
  {
    if a != 0 && b != 0 && c != 0 {
      OrAssociates(a / 2, b / 2, c / 2);
      var ab, bc := BitOr(a, b), BitOr(b, c);
      OrHalf(a, b);
      OrHalf(b, c);
      OrHalf(ab, c);
      OrHalf(a, bc);
      hide BitOr;
    }
  }
}
