/** Building netlink messages and attributes, and reading them back (lib/netlink/message.lua). */
module NetlinkCodec {
  import opened Bytes
  import opened Optional
  import opened StructLayout
  import opened StructCodec
  import opened NetlinkMessage

  // ---- the two derived header formats ----

  const HEADER: seq<Item> := [Int(4, false), Int(2, false), Int(2, false), Int(4, false), Int(4, false)]
  const ATTRIBUTE: seq<Item> := [Int(2, false), Int(2, false)]

  /** Each field starts where the one before ends. */
  predicate Contiguous(fields: seq<Field>) {
    forall i | 0 <= i < |fields| :: fields[i].offset == Pos(fields[..i])
  }

  function AsInt(f: Field): Item { Int(f.size, f.signed) }

  /** A layout without gaps: one integer for each field. */
  lemma {:induction false} ContiguousItems(fields: seq<Field>, format: seq<Item>, n: nat)
    requires Contiguous(fields) && n <= |format| == |fields|
    requires forall i | 0 <= i < |fields| :: format[i] == AsInt(fields[i])
    ensures FieldItems(fields[..n]) == format[..n] && PackSize(format[..n]) == Pos(fields[..n])
    decreases n
  {
    if n == 0 {
      assert FieldItems([]) == [] && PackSize([]) == 0;
    } else {
      hide FieldItems, PackSize, Pos;
      ContiguousItems(fields, format, n - 1);
      NextField(fields[..n - 1], fields[n - 1]);
      PackSizeAppend(format[..n - 1], format[n - 1]);
      OneMore(fields, n - 1);
      OneMore(format, n - 1);
    }
  }

  lemma OneMore<T>(s: seq<T>, n: nat)
    requires n < |s|
    ensures s[..n + 1] == s[..n] + [s[n]]
  {
  }

  lemma NextField(rest: seq<Field>, f: Field)
    requires f.offset == Pos(rest)
    ensures FieldItems(rest + [f]) == FieldItems(rest) + [AsInt(f)]
    ensures Pos(rest + [f]) == Pos(rest) + ItemSize(AsInt(f))
  {
    assert (rest + [f])[..|rest|] == rest;
    assert FieldItems(rest) + [] == FieldItems(rest);
  }

  /** The codec constructor accepts the two layouts and derives these formats from them. */
  lemma HeaderFormats()
    ensures Constructs(NLMSGHDR.fields, NLMSGHDR.size) && Format(NLMSGHDR.fields, NLMSGHDR.size) == HEADER
    ensures Constructs(NLATTR.fields, NLATTR.size) && Format(NLATTR.fields, NLATTR.size) == ATTRIBUTE
  {
    hide Constructs, Format, FieldItems, Contiguous;
    HeadersContiguous();
    ContiguousFormat(NLMSGHDR, HEADER);
    ContiguousFormat(NLATTR, ATTRIBUTE);
  }

  lemma ContiguousFormat(layout: Layout, format: seq<Item>)
    requires Contiguous(layout.fields) && Packable(layout.fields) && Pos(layout.fields) == layout.size
    requires |format| == |layout.fields| && forall i | 0 <= i < |format| :: format[i] == AsInt(layout.fields[i])
    ensures Constructs(layout.fields, layout.size) && Format(layout.fields, layout.size) == format
  {
    hide FieldItems, PackSize, Contiguous, AsInt, Pos;
    ContiguousItems(layout.fields, format, |format|);
    assert layout.fields[..|format|] == layout.fields && format[..|format|] == format;
    assert format + [] == format;
  }

  lemma PosAt(fields: seq<Field>, i: nat)
    requires i <= |fields|
    ensures Pos(fields[..i]) == if i == 0 then 0 else End(fields[i - 1])
  {
    assert i > 0 ==> fields[..i][i - 1] == fields[i - 1];
  }

  lemma HeadersContiguous()
    ensures Contiguous(NLMSGHDR.fields) && Contiguous(NLATTR.fields)
  {
    hide Pos;
    var f, g := NLMSGHDR.fields, NLATTR.fields;
    forall i | 0 <= i < |f| ensures f[i].offset == Pos(f[..i]) {
      PosAt(f, i);
      assert i == 0 || i == 1 || i == 2 || i == 3 || i == 4;
    }
    forall i | 0 <= i < |g| ensures g[i].offset == Pos(g[..i]) { PosAt(g, i); }
  }

  /** Unpacking short unsigned integers from item `i` on never raises in bounds. */
  lemma UnpackFrom(e: Endian, format: seq<Item>, i: nat, buf: seq<byte>, values: seq<int>)
    requires i < |format| == |values|
    requires format[i].Int? && 1 <= format[i].size < 8 && !format[i].signed && format[i].size <= |buf|
    requires values[i] == U(e, buf[..format[i].size])
    requires Unpack(e, format[i + 1..], buf[format[i].size..]) == Some(values[i + 1..])
    ensures Unpack(e, format[i..], buf) == Some(values[i..])
  {
    assert format[i..][1..] == format[i + 1..] && values[i..] == [values[i]] + values[i + 1..];
    FitsMeans(format[i].size, U(e, buf[..format[i].size]));
  }

  lemma SliceFrom(buf: seq<byte>, at: nat, n: nat)
    requires at + n <= |buf|
    ensures buf[at..][..n] == buf[at..at + n] && buf[at..][n..] == buf[at + n..]
  {
  }

  /** The sequence number and the port. */
  lemma NumbersUnpacked(e: Endian, buf: seq<byte>, at: nat, v: seq<int>)
    requires at + 8 <= |buf| && |v| == 5
    requires v[3] == U(e, buf[at..at + 4]) && v[4] == U(e, buf[at + 4..at + 8])
    ensures Unpack(e, HEADER[3..], buf[at..]) == Some(v[3..])
  {
    assert HEADER[5..] == [] && v[5..] == [];
    assert Unpack(e, [], buf[at + 8..]) == Some([]);
    hide U, Unpack;
    SliceFrom(buf, at, 4);
    SliceFrom(buf, at + 4, 4);
    UnpackFrom(e, HEADER, 4, buf[at + 4..], v);
    UnpackFrom(e, HEADER, 3, buf[at..], v);
  }

  /** Reading a message header is unpacking it with the derived format. */
  lemma HeaderIsUnpacked(e: Endian, buf: seq<byte>, pos: nat, sequence: nat, pid: nat)
    requires pos + 16 <= |buf|
    requires sequence == U(e, buf[pos + 8..pos + 12]) && pid == U(e, buf[pos + 12..pos + 16])
    ensures Unpack(e, HEADER, buf[pos..]) == Some([Length(e, Messages, buf, pos), Type(e, Messages, buf, pos),
                                                   Flags(e, Messages, buf, pos), sequence, pid])
  {
    hide U, Unpack;
    var v: seq<int> := [Length(e, Messages, buf, pos), Type(e, Messages, buf, pos), Flags(e, Messages, buf, pos),
                        sequence, pid];
    assert HEADER[0..] == HEADER && v[0..] == v;
    NumbersUnpacked(e, buf, pos + 8, v);
    SliceFrom(buf, pos, 4);
    SliceFrom(buf, pos + 4, 2);
    SliceFrom(buf, pos + 6, 2);
    UnpackFrom(e, HEADER, 2, buf[pos + 6..], v);
    UnpackFrom(e, HEADER, 1, buf[pos + 4..], v);
    UnpackFrom(e, HEADER, 0, buf[pos..], v);
  }

  /** Reading an attribute header is unpacking it with the derived format. */
  lemma AttributeIsUnpacked(e: Endian, buf: seq<byte>, pos: nat)
    requires pos + 4 <= |buf|
    ensures Unpack(e, ATTRIBUTE, buf[pos..]) == Some([Length(e, Attributes, buf, pos), Type(e, Attributes, buf, pos)])
  {
    var v: seq<int> := [Length(e, Attributes, buf, pos), Type(e, Attributes, buf, pos)];
    assert ATTRIBUTE[2..] == [] && v[2..] == [] && ATTRIBUTE[0..] == ATTRIBUTE && v[0..] == v;
    assert Unpack(e, [], buf[pos + 4..]) == Some([]);
    hide U, Unpack;
    assert buf[pos..][..2] == buf[pos..pos + 2] && buf[pos..][2..] == buf[pos + 2..];
    assert buf[pos + 2..][..2] == buf[pos + 2..pos + 4] && buf[pos + 2..][2..] == buf[pos + 4..];
    UnpackFrom(e, ATTRIBUTE, 1, buf[pos + 2..], v);
    UnpackFrom(e, ATTRIBUTE, 0, buf[pos..], v);
  }

  // ---- messages ----

  /** A message on the wire; `message.encode` builds those whose `pid` is 0. */
  datatype Wire = Wire(mtype: int, flags: int, sequence: int, pid: int, body: seq<byte>)

  function HeaderValues(w: Wire): seq<int> {
    [NLMSGHDR.size + |w.body|, w.mtype, w.flags, w.sequence, w.pid]
  }

  /** None when the packing raises. */
  function Encode(e: Endian, w: Wire): Option<seq<byte>> {
    if Takes(HEADER, HeaderValues(w)) then Some(Pack(e, HEADER, HeaderValues(w)) + w.body) else None
  }

  predicate Short(v: int) { 0 <= v < 0x1_0000 }
  predicate Word(v: int) { 0 <= v < 0x1_0000_0000 }

  predicate Encodable(w: Wire) {
    Word(16 + |w.body|) && Short(w.mtype) && Short(w.flags) && Word(w.sequence) && Word(w.pid)
  }

  lemma FieldRanges()
    ensures forall v :: Fits(2, false, v) <==> Short(v)
    ensures forall v :: Fits(4, false, v) <==> Word(v)
  {
    assert Pow256(2) == 0x1_0000;
    assert Pow256(4) == 256 * 256 * Pow256(2);
  }

  lemma TakesFrom(format: seq<Item>, i: nat, values: seq<int>)
    requires i < |format| == |values| && format[i].Int? && format[i].size >= 1
    ensures Takes(format[i..], values[i..])
            <==> Fits(format[i].size, format[i].signed, values[i]) && Takes(format[i + 1..], values[i + 1..])
  {
    assert format[i..][1..] == format[i + 1..] && values[i..][1..] == values[i + 1..];
  }

  /** Building a message raises exactly when a header field is out of its range. */
  lemma EncodesIff(e: Endian, w: Wire)
    ensures Encode(e, w).Some? <==> Encodable(w)
    ensures Takes(HEADER, HeaderValues(w)) <==> Encodable(w)
  {
    var v := HeaderValues(w);
    assert HEADER[5..] == [] && v[5..] == [] && HEADER[0..] == HEADER && v[0..] == v;
    assert Takes([], []);
    FieldRanges();
    hide Takes, Fits, Short, Word;
    TakesFrom(HEADER, 4, v);
    TakesFrom(HEADER, 3, v);
    TakesFrom(HEADER, 2, v);
    TakesFrom(HEADER, 1, v);
    TakesFrom(HEADER, 0, v);
  }

  function Visible(w: Wire): Record
    requires Encodable(w)
  {
    Record(w.mtype, w.flags, w.body)
  }

  /** A built message reads back as the record it was built from, whatever follows it. */
  lemma ReadsBack(e: Endian, w: Wire, rest: seq<byte>)
    requires Encodable(w) && Encode(e, w).Some?
    ensures var buf := Encode(e, w).value + rest;
            && |Encode(e, w).value| == 16 + |w.body|
            && HasRecord(e, Messages, buf, 0) && RecordAt(e, Messages, buf, 0) == Visible(w)
  {
    hide U, Unpack, Pack, Takes;
    EncodesIff(e, w);
    var header, buf, v := Pack(e, HEADER, HeaderValues(w)), Encode(e, w).value + rest, HeaderValues(w);
    PackedHeader(e, w);
    UnpackPack(e, HEADER, v, w.body + rest);
    assert buf == header + (w.body + rest) && buf[0..] == buf;
    HeaderIsUnpacked(e, buf, 0, U(e, buf[8..12]), U(e, buf[12..16]));
    assert v[0] == Length(e, Messages, buf, 0) && v[1] == Type(e, Messages, buf, 0) && v[2] == Flags(e, Messages, buf, 0);
    assert buf[16..16 + |w.body|] == w.body;
  }

  /** The sequence number is on the wire behind length, type and flags. */
  lemma SequenceOnWire(e: Endian, w: Wire)
    requires Encode(e, w).Some?
    ensures |Encode(e, w).value| >= 16 && U(e, Encode(e, w).value[8..12]) == w.sequence
  {
    hide U, Unpack, Pack, Takes;
    EncodesIff(e, w);
    ReadsBack(e, w, []);
    var header, buf, v := Pack(e, HEADER, HeaderValues(w)), Encode(e, w).value, HeaderValues(w);
    PackedHeader(e, w);
    UnpackPack(e, HEADER, v, w.body);
    assert buf == header + w.body && buf[0..] == buf;
    HeaderIsUnpacked(e, buf, 0, U(e, buf[8..12]), U(e, buf[12..16]));
    assert v[3] == U(e, buf[8..12]);
  }

  function Width(format: seq<Item>): nat {
    if format == [] then 0 else ItemSize(format[0]) + Width(format[1..])
  }

  /** What a format packs has its width. */
  lemma {:induction false} PackedWidth(e: Endian, format: seq<Item>, values: seq<int>)
    requires Takes(format, values)
    ensures |Pack(e, format, values)| == Width(format)
    decreases |format|
  {
    hide Fits;
    if format == [] {
    } else if format[0].Pad? {
      PackedWidth(e, format[1..], values);
    } else {
      PackedWidth(e, format[1..], values[1..]);
    }
  }

  lemma WidthStep(item: Item, rest: seq<Item>, format: seq<Item>)
    requires format == [item] + rest
    ensures Width(format) == ItemSize(item) + Width(rest)
  {
    assert format[1..] == rest;
  }

  lemma HeaderWidth()
    ensures Width(HEADER) == 16 && Width(ATTRIBUTE) == 4
  {
    assert Width([]) == 0;
    hide Width;
    var short, word := Int(2, false), Int(4, false);
    WidthStep(word, [], [word]);
    WidthStep(word, [word], [word, word]);
    WidthStep(short, [word, word], [short, word, word]);
    WidthStep(short, [short, word, word], [short, short, word, word]);
    WidthStep(word, [short, short, word, word], HEADER);
    WidthStep(short, [], [short]);
    WidthStep(short, [short], ATTRIBUTE);
  }

  lemma PackedHeader(e: Endian, w: Wire)
    requires Takes(HEADER, HeaderValues(w))
    ensures |Pack(e, HEADER, HeaderValues(w))| == 16
  {
    hide Pack, Takes, Width;
    PackedWidth(e, HEADER, HeaderValues(w));
    HeaderWidth();
  }

  // ---- several messages in one buffer ----

  predicate AllEncodable(ws: seq<Wire>) {
    forall i | 0 <= i < |ws| :: Encodable(ws[i])
  }

  /** The built messages, one after the other and nothing between them. */
  function Concat(e: Endian, ws: seq<Wire>): seq<byte>
    requires AllEncodable(ws)
  {
    if ws == [] then [] else EncodesIff(e, ws[0]); Encode(e, ws[0]).value + Concat(e, ws[1..])
  }

  function Visibles(ws: seq<Wire>): (rs: seq<Record>)
    requires AllEncodable(ws)
    ensures |rs| == |ws|
  {
    if ws == [] then [] else [Visible(ws[0])] + Visibles(ws[1..])
  }

  /** Every message but the last ends on an aligned boundary. */
  predicate Aligned(ws: seq<Wire>) {
    forall i | 0 <= i < |ws| - 1 :: |ws[i].body| % 4 == 0
  }

  lemma AlignExact(len: nat)
    ensures Align(len) == len <==> len % 4 == 0
  {
    hide Align;
  }

  lemma {:induction false} AlignedParses(e: Endian, ws: seq<Wire>)
    requires AllEncodable(ws) && Aligned(ws)
    ensures RecordsFrom(e, Messages, Concat(e, ws), 0) == Visibles(ws)
  {
    hide Encode, HasRecord, RecordAt, Align, Encodable, Next;
    if ws != [] {
      EncodesIff(e, ws[0]);
      var first, rest := Encode(e, ws[0]).value, Concat(e, ws[1..]);
      ReadsBack(e, ws[0], rest);
      AlignedParses(e, ws[1..]);
      RecordsShift(e, Messages, first, rest, 0);
      if |ws| == 1 {
        assert rest == [] && first + rest == first;
        NothingAfter(e, Messages, first, Next(e, Messages, first, 0));
        assert RecordsFrom(e, Messages, first, 0) == [Visible(ws[0])] + [];
        assert Visibles(ws) == [Visible(ws[0])] + [];
      } else {
        assert |ws[0].body| % 4 == 0;
        AlignExact(|ws[0].body| + 16);
        assert Next(e, Messages, first + rest, 0) == |first|;
      }
    } else {
      NothingAfter(e, Messages, [], 0);
    }
  }

  lemma NothingAfter(e: Endian, kind: Kind, buf: seq<byte>, pos: nat)
    requires |buf| <= pos
    ensures RecordsFrom(e, kind, buf, pos) == []
  {
  }

  lemma NothingSpans(e: Endian)
    ensures Span(Messages, Visibles([])) == 0 && Concat(e, []) == [] && Aligned([])
  {
  }

  lemma SpanStep(e: Endian, ws: seq<Wire>)
    requires AllEncodable(ws) && ws != []
    ensures |Concat(e, ws)| == 16 + |ws[0].body| + |Concat(e, ws[1..])|
    ensures Span(Messages, Visibles(ws)) ==
              if |ws| == 1 then 16 + |ws[0].body| else Align(|ws[0].body| + 16) + Span(Messages, Visibles(ws[1..]))
    ensures |ws| == 1 ==> Concat(e, ws[1..]) == []
  {
    hide Encode, Align, Encodable;
    EncodesIff(e, ws[0]);
    ReadsBack(e, ws[0], []);
    assert Visibles(ws)[1..] == Visibles(ws[1..]);
  }

  lemma AlignedStep(ws: seq<Wire>)
    requires ws != []
    ensures Aligned(ws) <==> |ws| == 1 || (|ws[0].body| % 4 == 0 && Aligned(ws[1..]))
  {
    assert forall i | 0 < i < |ws| - 1 :: ws[i] == ws[1..][i - 1];
    assert forall i | 0 <= i < |ws| - 2 :: ws[1..][i] == ws[i + 1];
  }

  lemma {:induction false} SpanOfVisibles(e: Endian, ws: seq<Wire>)
    requires AllEncodable(ws)
    ensures Span(Messages, Visibles(ws)) >= |Concat(e, ws)|
    ensures Span(Messages, Visibles(ws)) <= |Concat(e, ws)| ==> Aligned(ws)
  {
    hide Encode, Align, Encodable, Span, Visibles, Concat, Aligned;
    if ws == [] {
      NothingSpans(e);
    } else {
      SpanOfVisibles(e, ws[1..]);
      AlignExact(16 + |ws[0].body|);
      SpanStep(e, ws);
      AlignedStep(ws);
    }
  }

  /** Messages built one after the other parse back to exactly themselves if and only if every one of them
      but the last has a payload of whole 4-byte words: `encode` does not pad. */
  lemma ConcatParsesIffAligned(e: Endian, ws: seq<Wire>)
    requires AllEncodable(ws)
    ensures RecordsFrom(e, Messages, Concat(e, ws), 0) == Visibles(ws) <==> Aligned(ws)
  {
    if Aligned(ws) {
      AlignedParses(e, ws);
    } else {
      RecordsFitTheBuffer(e, Messages, Concat(e, ws), 0);
      SpanOfVisibles(e, ws);
    }
  }
}
