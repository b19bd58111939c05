/** Packing and unpacking through a derived format (lib/struct.lua), in either byte order. */
module StructCodec {
  import opened Bytes
  import opened Optional
  import opened StructLayout

  datatype Endian = Little | Big

  // ---- one integer, as string.pack and string.unpack treat it ----

  const INT64_MIN: int := -0x8000_0000_0000_0000
  const INT64_MAX: int := 0x7fff_ffff_ffff_ffff

  predicate IsLuaInteger(v: int) {
    INT64_MIN <= v <= INT64_MAX
  }

  function Reversed(b: seq<byte>): (r: seq<byte>)
    ensures |r| == |b|
  {
    if b == [] then [] else Reversed(b[1..]) + [b[0]]
  }

  function Ordered(e: Endian, b: seq<byte>): (r: seq<byte>)
    ensures |r| == |b|
  {
    if e == Little then b else Reversed(b)
  }

  lemma {:induction false} ReversedTwice(b: seq<byte>)
    ensures Reversed(Reversed(b)) == b
  {
    if b == [] {
    } else {
      ReversedTwice(b[1..]);
      ReversedAppend(Reversed(b[1..]), b[0]);
    }
  }

  lemma {:induction false} ReversedAppend(b: seq<byte>, x: byte)
    ensures Reversed(b + [x]) == [x] + Reversed(b)
  {
    if b == [] {
    } else {
      ReversedAppend(b[1..], x);
      assert (b + [x])[1..] == b[1..] + [x];
    }
  }

  /** Fields narrower than a Lua integer are range-checked; wider ones take any Lua integer. */
  predicate Fits(size: nat, signed: bool, v: int) {
    && IsLuaInteger(v)
    && (size < 8 && !signed ==> 0 <= v < Pow256(size))
    && (size < 8 && signed ==> 0 <= 2 * v + Pow256(size) && 2 * v < Pow256(size))
  }

  /** The bits packed for `v`: two's complement, sign-extended only for a signed field. */
  function Raw(size: nat, signed: bool, v: int): (w: nat)
    requires Fits(size, signed, v) && size >= 1
    ensures w < Pow256(size)
  {
    PowBounds(size);
    if v >= 0 then v else if signed then v + Pow256(size) else v + Pow256(8)
  }

  lemma Pow8()
    ensures Pow256(8) == 0x1_0000_0000_0000_0000
  {
    assert Pow256(2) == 0x1_0000;
    assert Pow256(4) == 256 * 256 * Pow256(2);
    assert Pow256(6) == 256 * 256 * Pow256(4);
    assert Pow256(8) == 256 * 256 * Pow256(6);
  }

  lemma PowBounds(size: nat)
    requires size >= 1
    ensures Pow256(8) == 0x1_0000_0000_0000_0000
    ensures size >= 8 ==> Pow256(size) >= Pow256(8)
    ensures Pow256(size) % 2 == 0
  {
    Pow8();
    if size > 8 { PowBounds(size - 1); }
  }

  /** The value read back; none when a wide field holds no Lua integer (the call raises). */
  function FromRaw(size: nat, signed: bool, w: nat): Option<int> {
    var v := if signed then (if 2 * w >= Pow256(size) then w - Pow256(size) else w)
             else if size < 8 then w
             else if w > INT64_MAX then w - Pow256(8) else w;
    if IsLuaInteger(v) then Some(v) else None
  }

  lemma FromRawRaw(size: nat, signed: bool, v: int)
    requires Fits(size, signed, v) && size >= 1
    ensures FromRaw(size, signed, Raw(size, signed, v)) == Some(v)
  {
    PowBounds(size);
  }

  function EncodeInt(e: Endian, size: nat, signed: bool, v: int): (b: seq<byte>)
    requires Fits(size, signed, v) && size >= 1
    ensures |b| == size
  {
    Ordered(e, Put(Raw(size, signed, v), size))
  }

  function DecodeInt(e: Endian, signed: bool, b: seq<byte>): Option<int> {
    FromRaw(|b|, signed, Value(Ordered(e, b)))
  }

  /** Unpacking an integer undoes packing it, in both byte orders and for every width. */
  lemma DecodeEncode(e: Endian, size: nat, signed: bool, v: int)
    requires Fits(size, signed, v) && size >= 1
    ensures DecodeInt(e, signed, EncodeInt(e, size, signed, v)) == Some(v)
  {
    ReversedTwice(Put(Raw(size, signed, v), size));
    ValuePut(Raw(size, signed, v), size);
    FromRawRaw(size, signed, v);
  }

  lemma {:induction false} ReversedAt(b: seq<byte>, i: nat)
    requires i < |b|
    ensures Reversed(b)[i] == b[|b| - 1 - i]
  {
    if i == |b| - 1 {
    } else {
      ReversedAt(b[1..], i);
    }
  }

  /** A packed integer is in two's complement, an unsigned field taking the 64 bits of a Lua integer; the byte of least
      weight comes first in little-endian and last in big-endian order. */
  lemma EncodedByte(e: Endian, size: nat, signed: bool, v: int, i: nat)
    requires Fits(size, signed, v) && i < size
    ensures var w := if v >= 0 then v else v + Pow256(if signed then size else 8);
            w >= 0 && EncodeInt(e, size, signed, v)[i] == w / Pow256(if e == Little then i else size - 1 - i) % 256
  {
    hide Fits, Pow256;
    OrderedByte(e, Raw(size, signed, v), size, i);
  }

  lemma OrderedByte(e: Endian, w: nat, size: nat, i: nat)
    requires i < size
    ensures Ordered(e, Put(w, size))[i] == w / Pow256(if e == Little then i else size - 1 - i) % 256
  {
    hide Pow256, Put;
    if e == Little {
      PutDigit(w, size, i);
    } else {
      ReversedAt(Put(w, size), i);
      PutDigit(w, size, size - 1 - i);
    }
  }

  // ---- whole formats ----

  /** The integers of a format, in order. */
  predicate Takes(format: seq<Item>, values: seq<int>) {
    if format == [] then values == []
    else
      var item := format[0];
      if item.Pad? then Takes(format[1..], values)
      else values != [] && item.size >= 1 && Fits(item.size, item.signed, values[0]) && Takes(format[1..], values[1..])
  }

  /** `string.pack`. */
  function Pack(e: Endian, format: seq<Item>, values: seq<int>): seq<byte>
    requires Takes(format, values)
  {
    if format == [] then []
    else
      var item := format[0];
      if item.Pad? then Zeros(item.n) + Pack(e, format[1..], values)
      else EncodeInt(e, item.size, item.signed, values[0]) + Pack(e, format[1..], values[1..])
  }

  /** `string.unpack` from the start of `buf`; none when the buffer is too short or an integer is too wide. */
  function Unpack(e: Endian, format: seq<Item>, buf: seq<byte>): Option<seq<int>> {
    if format == [] then Some([])
    else
      var item := format[0];
      var n := ItemSize(item);
      if |buf| < n then None
      else
        match Unpack(e, format[1..], buf[n..])
        case None => None
        case Some(rest) =>
          if item.Pad? then Some(rest)
          else match DecodeInt(e, item.signed, buf[..n])
               case None => None
               case Some(v) => Some([v] + rest)
  }

  /** Unpacking what was packed, whatever follows it, gives the values back. */
  lemma {:induction false} UnpackPack(e: Endian, format: seq<Item>, values: seq<int>, rest: seq<byte>)
    requires Takes(format, values)
    ensures Unpack(e, format, Pack(e, format, values) + rest) == Some(values)
    decreases |format|
  {
    hide EncodeInt, DecodeInt, Unpack, Fits, Zeros;
    if format == [] {
      UnpackNothing(e, Pack(e, format, values) + rest);
    } else {
      var item := format[0];
      if item.Pad? {
        UnpackPack(e, format[1..], values, rest);
        UnpackItem(e, format, Zeros(item.n), Pack(e, format[1..], values) + rest);
        assert Pack(e, format, values) + rest == Zeros(item.n) + (Pack(e, format[1..], values) + rest);
      } else {
        UnpackPack(e, format[1..], values[1..], rest);
        var head := EncodeInt(e, item.size, item.signed, values[0]);
        DecodeEncode(e, item.size, item.signed, values[0]);
        UnpackItem(e, format, head, Pack(e, format[1..], values[1..]) + rest);
        assert Pack(e, format, values) + rest == head + (Pack(e, format[1..], values[1..]) + rest);
        assert values == [values[0]] + values[1..];
      }
    }
  }

  lemma UnpackNothing(e: Endian, buf: seq<byte>)
    ensures Unpack(e, [], buf) == Some([])
  {
  }

  /** Unpacking takes its first item from the front and goes on with what follows. */
  lemma UnpackItem(e: Endian, format: seq<Item>, head: seq<byte>, tail: seq<byte>)
    requires format != [] && |head| == ItemSize(format[0])
    ensures var rest := Unpack(e, format[1..], tail);
            Unpack(e, format, head + tail) ==
              if rest.None? then None
              else if format[0].Pad? then rest
              else match DecodeInt(e, format[0].signed, head)
                   case None => None
                   case Some(v) => Some([v] + rest.value)
  {
    assert (head + tail)[|head|..] == tail && (head + tail)[..|head|] == head;
  }

  // ---- where the fields land ----

  /** A value for every field, each in its field's range. */
  predicate InRange(fields: seq<Field>, values: seq<int>) {
    |values| == |fields| && forall i | 0 <= i < |fields| :: fields[i].size >= 1 && Fits(fields[i].size, fields[i].signed, values[i])
  }

  lemma {:induction false} TakesAppend(a: seq<Item>, x: seq<int>, b: seq<Item>, y: seq<int>)
    requires Takes(a, x) && Takes(b, y)
    ensures Takes(a + b, x + y)
    decreases |a|
  {
    if a == [] {
      assert a + b == b && x + y == y;
    } else {
      assert (a + b)[1..] == a[1..] + b;
      if a[0].Pad? {
        TakesAppend(a[1..], x, b, y);
      } else {
        TakesAppend(a[1..], x[1..], b, y);
        assert (x + y)[1..] == x[1..] + y;
      }
    }
  }

  /** The bytes of the first item, and the values left for the others. */
  function Head(e: Endian, format: seq<Item>, values: seq<int>): seq<byte>
    requires format != [] && Takes(format, values)
  {
    if format[0].Pad? then Zeros(format[0].n) else EncodeInt(e, format[0].size, format[0].signed, values[0])
  }

  function Rest(format: seq<Item>, values: seq<int>): seq<int>
    requires format != [] && Takes(format, values)
    ensures Takes(format[1..], Rest(format, values))
  {
    if format[0].Pad? then values else values[1..]
  }

  lemma PackStep(e: Endian, format: seq<Item>, values: seq<int>)
    requires format != [] && Takes(format, values)
    ensures Pack(e, format, values) == Head(e, format, values) + Pack(e, format[1..], Rest(format, values))
  {
  }

  lemma AppendStep(e: Endian, a: seq<Item>, x: seq<int>, b: seq<Item>, y: seq<int>)
    requires a != [] && Takes(a, x) && Takes(a + b, x + y)
    ensures (a + b)[1..] == a[1..] + b
    ensures Head(e, a + b, x + y) == Head(e, a, x) && Rest(a + b, x + y) == Rest(a, x) + y
  {
    hide EncodeInt, Fits, Zeros;
    assert (a + b)[0] == a[0];
    if !a[0].Pad? { assert (x + y)[1..] == x[1..] + y && (x + y)[0] == x[0]; }
  }

  lemma {:induction false} PackAppend(e: Endian, a: seq<Item>, x: seq<int>, b: seq<Item>, y: seq<int>)
    requires Takes(a, x) && Takes(b, y)
    ensures Takes(a + b, x + y) && Pack(e, a + b, x + y) == Pack(e, a, x) + Pack(e, b, y)
    decreases |a|
  {
    TakesAppend(a, x, b, y);
    if a == [] {
      assert a + b == b && x + y == y && Pack(e, a, x) == [];
    } else {
      hide Pack, Takes, Head, Rest;
      AppendStep(e, a, x, b, y);
      PackStep(e, a, x);
      PackStep(e, a + b, x + y);
      PackAppend(e, a[1..], Rest(a, x), b, y);
      Associates(Head(e, a, x), Pack(e, a[1..], Rest(a, x)), Pack(e, b, y));
    }
  }

  lemma Associates(a: seq<byte>, b: seq<byte>, c: seq<byte>)
    ensures a + (b + c) == (a + b) + c
  {
  }

  predicate Placed(e: Endian, f: Field, v: int, b: seq<byte>)
    requires f.size >= 1 && Fits(f.size, f.signed, v)
  {
    End(f) <= |b| && b[f.offset..End(f)] == EncodeInt(e, f.size, f.signed, v)
  }

  predicate Covered(fields: seq<Field>, k: nat) {
    exists i :: 0 <= i < |fields| && fields[i].offset <= k < End(fields[i])
  }

  /** Every field at its own bytes and zeros elsewhere. */
  predicate Laid(e: Endian, fields: seq<Field>, values: seq<int>, b: seq<byte>) {
    && InRange(fields, values)
    && (forall i | 0 <= i < |fields| :: Placed(e, fields[i], values[i], b))
    && (forall k | 0 <= k < |b| && !Covered(fields, k) :: b[k] == 0)
  }

  /** The packed fields of a struct without overlap reach up to the last field end. */
  lemma {:induction false} PackedFields(e: Endian, fields: seq<Field>, values: seq<int>)
    requires InRange(fields, values) && StructLayout.Ordered(fields)
    ensures Takes(FieldItems(fields), values)
    ensures |Pack(e, FieldItems(fields), values)| == Pos(fields)
    ensures Laid(e, fields, values, Pack(e, FieldItems(fields), values))
    decreases |fields|
  {
    hide Pack, Takes, EncodeInt, Laid, Fits, InRange, StructLayout.Ordered;
    if fields == [] {
      PackedNothing(e, values);
    } else {
      var n := |fields| - 1;
      var rest, f := fields[..n], fields[n];
      var pad := if f.offset > Pos(rest) then [Pad(f.offset - Pos(rest))] else [];
      WithoutLast(fields, values);
      assert FieldItems(fields) == FieldItems(rest) + pad + [Int(f.size, f.signed)];
      hide FieldItems;
      PackedFields(e, rest, values[..n]);
      PackTail(e, rest, values[..n], pad, f, values[n]);
      assert values[..n] + [values[n]] == values;
      LaidOn(e, fields, values, Pack(e, FieldItems(rest), values[..n]));
    }
  }

  lemma PackedNothing(e: Endian, values: seq<int>)
    requires InRange([], values)
    ensures Takes(FieldItems([]), values) && Pack(e, FieldItems([]), values) == [] && Laid(e, [], values, [])
  {
  }

  lemma WithoutLast(fields: seq<Field>, values: seq<int>)
    requires fields != [] && InRange(fields, values) && StructLayout.Ordered(fields)
    ensures |values| == |fields|
    ensures var n := |fields| - 1;
            && InRange(fields[..n], values[..n]) && StructLayout.Ordered(fields[..n])
            && Pos(fields[..n]) <= fields[n].offset
            && fields[n].size >= 1 && Fits(fields[n].size, fields[n].signed, values[n])
  {
  }

  lemma PackTail(e: Endian, rest: seq<Field>, values: seq<int>, pad: seq<Item>, f: Field, v: int)
    requires Takes(FieldItems(rest), values) && |Pack(e, FieldItems(rest), values)| == Pos(rest)
    requires f.size >= 1 && Fits(f.size, f.signed, v) && Pos(rest) <= f.offset
    requires pad == if f.offset > Pos(rest) then [Pad(f.offset - Pos(rest))] else []
    ensures var items := FieldItems(rest) + pad + [Int(f.size, f.signed)];
            Takes(items, values + [v])
            && Pack(e, items, values + [v])
               == Pack(e, FieldItems(rest), values) + Zeros(f.offset - Pos(rest)) + EncodeInt(e, f.size, f.signed, v)
  {
    hide Pack, Takes, FieldItems, EncodeInt, Fits;
    var head, one := FieldItems(rest), [Int(f.size, f.signed)];
    PackTailPad(e, pad, f.offset - Pos(rest));
    PackAppend(e, head, values, pad, []);
    assert values + [] == values;
    PackOne(e, f.size, f.signed, v);
    PackAppend(e, head + pad, values, one, [v]);
  }

  lemma PackOne(e: Endian, size: nat, signed: bool, v: int)
    requires size >= 1 && Fits(size, signed, v)
    ensures Takes([Int(size, signed)], [v]) && Pack(e, [Int(size, signed)], [v]) == EncodeInt(e, size, signed, v)
  {
    assert [Int(size, signed)][1..] == [] && [v][1..] == [];
  }

  lemma LaidOn(e: Endian, fields: seq<Field>, values: seq<int>, b: seq<byte>)
    requires fields != [] && InRange(fields, values)
    requires Laid(e, fields[..|fields| - 1], values[..|fields| - 1], b)
    requires |b| == Pos(fields[..|fields| - 1]) <= fields[|fields| - 1].offset
    ensures var f, v := fields[|fields| - 1], values[|fields| - 1];
            Laid(e, fields, values, b + Zeros(f.offset - |b|) + EncodeInt(e, f.size, f.signed, v))
  {
    hide EncodeInt, Fits;
    var n := |fields| - 1;
    var rest, f := fields[..n], fields[n];
    var gap, last := Zeros(f.offset - |b|), EncodeInt(e, f.size, f.signed, values[n]);
    var c := b + gap + last;
    forall i | 0 <= i < |fields|
      ensures Placed(e, fields[i], values[i], c)
    {
      if i < n {
        assert Placed(e, rest[i], values[..n][i], b);
        Kept(b, gap, last, fields[i].offset, End(fields[i]));
      } else {
        Kept(b, gap, last, 0, 0);
      }
    }
    hide Placed;
    ZerosOn(fields, b, last);
  }

  lemma Kept(b: seq<byte>, gap: seq<byte>, last: seq<byte>, i: nat, j: nat)
    requires i <= j <= |b|
    ensures (b + gap + last)[i..j] == b[i..j]
    ensures (b + gap + last)[|b| + |gap|..|b| + |gap| + |last|] == last
  {
  }

  lemma ZerosOn(fields: seq<Field>, b: seq<byte>, last: seq<byte>)
    requires fields != [] && |last| == fields[|fields| - 1].size && |b| <= fields[|fields| - 1].offset
    requires forall k | 0 <= k < |b| && !Covered(fields[..|fields| - 1], k) :: b[k] == 0
    ensures var c := b + Zeros(fields[|fields| - 1].offset - |b|) + last;
            forall k | 0 <= k < |c| && !Covered(fields, k) :: c[k] == 0
  {
    var f := fields[|fields| - 1];
    var c := b + Zeros(f.offset - |b|) + last;
    forall k: nat | k < |c| && !Covered(fields, k)
      ensures c[k] == 0
    {
      if k < |b| {
        CoveredRest(fields, k);
      }
    }
  }

  lemma CoveredRest(fields: seq<Field>, k: nat)
    requires fields != []
    ensures Covered(fields[..|fields| - 1], k) ==> Covered(fields, k)
  {
    var rest := fields[..|fields| - 1];
    if Covered(rest, k) {
      var i :| 0 <= i < |rest| && rest[i].offset <= k < End(rest[i]);
      assert fields[i] == rest[i];
    }
  }

  lemma LaidPadded(e: Endian, fields: seq<Field>, values: seq<int>, b: seq<byte>, n: nat)
    requires Laid(e, fields, values, b)
    ensures Laid(e, fields, values, b + Zeros(n))
  {
    hide EncodeInt, Fits;
    var c := b + Zeros(n);
    forall i | 0 <= i < |fields|
      ensures Placed(e, fields[i], values[i], c)
    {
      assert Placed(e, fields[i], values[i], b);
      assert c[fields[i].offset..End(fields[i])] == b[fields[i].offset..End(fields[i])];
    }
  }

  /** For an accepted layout: the packed struct has its declared size, every field is exactly at
      its declared bytes, all other bytes are zero, and unpacking gives the values back. */
  lemma StructRoundTrip(e: Endian, layout: Layout, sorted: seq<Field>, values: seq<int>, rest: seq<byte>)
    requires IsSort(layout.fields, sorted) && Constructs(sorted, layout.size) && InRange(sorted, values)
    ensures var format := Format(sorted, layout.size);
            && Takes(format, values)
            && |Pack(e, format, values)| == layout.size
            && Laid(e, sorted, values, Pack(e, format, values))
            && Unpack(e, format, Pack(e, format, values) + rest) == Some(values)
  {
    AcceptedIsOrdered(sorted, layout.size);
    FormatPacks(e, sorted, layout.size, values);
    hide *;
    UnpackPack(e, Format(sorted, layout.size), values, rest);
  }

  lemma AcceptedIsOrdered(sorted: seq<Field>, total: nat)
    requires Constructs(sorted, total) && forall i, j | 0 <= i < j < |sorted| :: sorted[i].offset <= sorted[j].offset
    ensures StructLayout.Ordered(sorted) && Pos(sorted) <= total
  {
    ExcessIsOverlap(sorted, total);
    NoOverlapIsOrdered(sorted);
  }

  lemma FormatPacks(e: Endian, sorted: seq<Field>, total: nat, values: seq<int>)
    requires StructLayout.Ordered(sorted) && Pos(sorted) <= total && InRange(sorted, values)
    ensures Takes(Format(sorted, total), values)
    ensures |Pack(e, Format(sorted, total), values)| == total
    ensures Laid(e, sorted, values, Pack(e, Format(sorted, total), values))
  {
    hide Pack, Takes, Laid, Fits, FieldItems, Unpack, InRange, StructLayout.Ordered, Pos;
    PackedFields(e, sorted, values);
    var n := total - Pos(sorted);
    var tail := if n > 0 then [Pad(n)] else [];
    PackTailPad(e, tail, n);
    assert Format(sorted, total) == FieldItems(sorted) + tail;
    hide Format;
    PackAppend(e, FieldItems(sorted), values, tail, []);
    assert values + [] == values;
    LaidPadded(e, sorted, values, Pack(e, FieldItems(sorted), values), n);
  }

  lemma PackTailPad(e: Endian, tail: seq<Item>, n: nat)
    requires tail == if n > 0 then [Pad(n)] else []
    ensures Takes(tail, []) && Pack(e, tail, []) == Zeros(n)
  {
    if tail != [] { assert tail[1..] == []; }
  }
}
