/** Netlink attribute tables (lib/netlink/message.lua, `attrs`). */
module NetlinkAttributes {
  import opened Bytes
  import opened Optional
  import opened StructCodec
  import opened NetlinkMessage
  import opened NetlinkCodec

  /** An attribute's value: a Lua number or a Lua string. */
  datatype Datum = Number(n: int) | Text(bytes: seq<byte>)

  /** The bytes that carry a value; none when packing a number as a `u32` raises. */
  function Payload(e: Endian, value: Datum): Option<seq<byte>> {
    match value
    case Number(n) => if Fits(4, false, n) then Some(EncodeInt(e, 4, false, n)) else None
    case Text(bytes) => Some(bytes)
  }

  /** `u32` reads a number back from the four bytes that carry it; a string is carried as it is. */
  lemma PayloadReadsBack(e: Endian, value: Datum)
    requires Payload(e, value).Some?
    ensures var p := Payload(e, value).value;
            match value
            case Number(n) => |p| == 4 && DecodeInt(e, false, p) == Some(n)
            case Text(bytes) => p == bytes
  {
    hide DecodeInt, EncodeInt, Fits;
    if value.Number? { DecodeEncode(e, 4, false, value.n); }
  }

  function EncodeOne(e: Endian, atype: int, value: Datum): Option<seq<byte>> {
    match Payload(e, value)
    case None => None
    case Some(p) =>
      var len := NLATTR.size + |p|;
      if Takes(ATTRIBUTE, [len, atype]) then
        Some(Pack(e, ATTRIBUTE, [len, atype]) + p + Zeros(Align(len) - len))
      else None
  }

  /** What one attribute demands: a 16-bit type, and a value that fits its length field or a `u32`. */
  predicate Carriable(atype: int, value: Datum) {
    Short(atype) && match value case Number(n) => Word(n) case Text(b) => 4 + |b| < 0x1_0000
  }

  lemma TakesPair(len: int, atype: int)
    ensures Takes(ATTRIBUTE, [len, atype]) <==> Short(len) && Short(atype)
  {
    var v := [len, atype];
    assert ATTRIBUTE[2..] == [] && v[2..] == [] && ATTRIBUTE[0..] == ATTRIBUTE && v[0..] == v;
    assert Takes([], []);
    FieldRanges();
    hide Takes, Fits, Short, Word;
    TakesFrom(ATTRIBUTE, 1, v);
    TakesFrom(ATTRIBUTE, 0, v);
  }

  lemma PairLength(e: Endian, len: int, atype: int)
    requires Takes(ATTRIBUTE, [len, atype])
    ensures |Pack(e, ATTRIBUTE, [len, atype])| == 4
  {
    hide Pack, Takes, Width;
    PackedWidth(e, ATTRIBUTE, [len, atype]);
    HeaderWidth();
  }

  /** Building an attribute raises exactly when its type, number or length is out of range. */
  lemma EncodesOneIff(e: Endian, atype: int, value: Datum)
    ensures EncodeOne(e, atype, value).Some? <==> Carriable(atype, value)
  {
    FieldRanges();
    hide Takes, Pack, Fits, EncodeInt, Zeros;
    if Payload(e, value).Some? {
      TakesPair(4 + |Payload(e, value).value|, atype);
    }
  }

  /** A built attribute reads back as its type and the bytes of its value, and the next one starts right after. */
  lemma OneReadsBack(e: Endian, atype: int, value: Datum, rest: seq<byte>)
    requires EncodeOne(e, atype, value).Some? && Carriable(atype, value)
    ensures Payload(e, value).Some?
    ensures var b := EncodeOne(e, atype, value).value;
            && HasRecord(e, Attributes, b + rest, 0)
            && RecordAt(e, Attributes, b + rest, 0) == Record(atype, 0, Payload(e, value).value)
            && Next(e, Attributes, b + rest, 0) == |b|
  {
    hide Align, EncodeInt, Pack, Takes, Fits;
    var p := Payload(e, value).value;
    var len, b := 4 + |p|, EncodeOne(e, atype, value).value;
    var header, pad := Pack(e, ATTRIBUTE, [len, atype]), Zeros(Align(len) - len);
    assert b == header + p + pad;
    AttributeHeader(e, len, atype, p + pad + rest);
    hide *;
    RecordAfterHeader(e, header, p, pad, rest, atype);
    assert header + p + pad + rest == header + (p + pad + rest);
  }

  lemma AttributeHeader(e: Endian, len: int, atype: int, tail: seq<byte>)
    requires Takes(ATTRIBUTE, [len, atype])
    ensures var header := Pack(e, ATTRIBUTE, [len, atype]);
            |header| == 4 && Length(e, Attributes, header + tail, 0) == len && Type(e, Attributes, header + tail, 0) == atype
  {
    PairLength(e, len, atype);
    UnpackPack(e, ATTRIBUTE, [len, atype], tail);
    var buf := Pack(e, ATTRIBUTE, [len, atype]) + tail;
    assert buf[0..] == buf;
    AttributeIsUnpacked(e, buf, 0);
    hide Unpack, Pack, Takes, Length, Type;
    assert [len, atype][0] == Length(e, Attributes, buf, 0) && [len, atype][1] == Type(e, Attributes, buf, 0);
  }

  lemma RecordAfterHeader(e: Endian, header: seq<byte>, p: seq<byte>, pad: seq<byte>, rest: seq<byte>, atype: nat)
    requires |header| == 4 && |pad| == Align(4 + |p|) - (4 + |p|)
    requires Length(e, Attributes, header + (p + pad + rest), 0) == 4 + |p|
    requires Type(e, Attributes, header + (p + pad + rest), 0) == atype
    ensures var buf := header + (p + pad + rest);
            && HasRecord(e, Attributes, buf, 0) && RecordAt(e, Attributes, buf, 0) == Record(atype, 0, p)
            && Next(e, Attributes, buf, 0) == |header + p + pad|
  {
    hide Length, Type, Align;
    var buf := header + (p + pad + rest);
    assert buf[4..4 + |p|] == p;
  }

  // ---- whole tables ----

  datatype Attr = Attr(atype: int, value: Datum)

  predicate AllCarriable(order: seq<Attr>) {
    forall i | 0 <= i < |order| :: Carriable(order[i].atype, order[i].value)
  }

  /** The encoded attributes, in the order the table is traversed. */
  function Encoded(e: Endian, order: seq<Attr>): seq<byte>
    requires AllCarriable(order)
  {
    if order == [] then []
    else
      EncodesOneIff(e, order[0].atype, order[0].value);
      EncodeOne(e, order[0].atype, order[0].value).value + Encoded(e, order[1..])
  }

  lemma {:induction false} EncodedAppend(e: Endian, order: seq<Attr>, a: Attr)
    requires AllCarriable(order) && Carriable(a.atype, a.value)
    ensures AllCarriable(order + [a]) && EncodeOne(e, a.atype, a.value).Some?
    ensures Encoded(e, order + [a]) == Encoded(e, order) + EncodeOne(e, a.atype, a.value).value
  {
    hide EncodeOne, Carriable;
    EncodesOneIff(e, a.atype, a.value);
    if order == [] {
    } else {
      EncodedAppend(e, order[1..], a);
      assert (order + [a])[1..] == order[1..] + [a];
    }
  }

  predicate DistinctTypes(order: seq<Attr>) {
    forall i, j | 0 <= i < j < |order| :: order[i].atype != order[j].atype
  }

  /** The record that carries an attribute. */
  function Carrier(e: Endian, a: Attr): Record
    requires Carriable(a.atype, a.value)
  {
    EncodesOneIff(e, a.atype, a.value);
    Record(a.atype, 0, Payload(e, a.value).value)
  }

  function Carriers(e: Endian, order: seq<Attr>): (rs: seq<Record>)
    requires AllCarriable(order)
    ensures |rs| == |order| && forall i | 0 <= i < |rs| :: rs[i] == Carrier(e, order[i])
  {
    if order == [] then [] else [Carrier(e, order[0])] + Carriers(e, order[1..])
  }

  lemma {:induction false} EncodedParses(e: Endian, order: seq<Attr>)
    requires AllCarriable(order)
    ensures RecordsFrom(e, Attributes, Encoded(e, order), 0) == Carriers(e, order)
  {
    hide EncodeOne, Carriable, HasRecord, RecordAt, Next, Align;
    if order == [] {
      NothingAfter(e, Attributes, [], 0);
    } else {
      var a := order[0];
      EncodesOneIff(e, a.atype, a.value);
      var first, rest := EncodeOne(e, a.atype, a.value).value, Encoded(e, order[1..]);
      OneReadsBack(e, a.atype, a.value, rest);
      EncodedParses(e, order[1..]);
      RecordsShift(e, Attributes, first, rest, 0);
    }
  }

  /** The table that `parse_attrs` fills: later records of a type replace earlier ones. */
  function Table(rs: seq<Record>): map<nat, seq<byte>> {
    if rs == [] then map[] else Table(rs[..|rs| - 1])[rs[|rs| - 1].rtype := rs[|rs| - 1].body]
  }

  lemma NoRecords()
    ensures Table([]) == map[]
  {
  }

  lemma NextRecord(rs: seq<Record>, i: nat)
    requires i < |rs|
    ensures Table(rs[..i + 1]) == Table(rs[..i])[rs[i].rtype := rs[i].body]
  {
    assert rs[..i + 1][..i] == rs[..i];
  }

  lemma {:induction false} TableHolds(rs: seq<Record>)
    requires forall i, j | 0 <= i < j < |rs| :: rs[i].rtype != rs[j].rtype
    ensures forall i | 0 <= i < |rs| :: rs[i].rtype in Table(rs) && Table(rs)[rs[i].rtype] == rs[i].body
    ensures forall t | t in Table(rs) :: exists i | 0 <= i < |rs| :: rs[i].rtype == t
  {
    if rs == [] {
    } else {
      var front := rs[..|rs| - 1];
      TableHolds(front);
      forall t | t in Table(rs) ensures exists i | 0 <= i < |rs| :: rs[i].rtype == t {
        if t == rs[|rs| - 1].rtype {
          assert rs[|rs| - 1].rtype == t;
        } else {
          assert t in Table(front);
          var i :| 0 <= i < |front| && front[i].rtype == t;
          assert rs[i].rtype == t;
        }
      }
    }
  }

  /** `parse_attrs`, on any bytes. */
  method ParseAttrs(e: Endian, body: seq<byte>, pos: nat) returns (attrs: map<nat, seq<byte>>)
    ensures attrs == Table(RecordsFrom(e, Attributes, body, pos))
  {
    hide RecordsFrom, Table;
    var rs := Records(e, Attributes, body, pos);
    attrs := map[];
    NoRecords();
    assert rs[..0] == [];
    for i := 0 to |rs|
      invariant attrs == Table(rs[..i])
    {
      NextRecord(rs, i);
      attrs := attrs[rs[i].rtype := rs[i].body];
    }
    assert rs[..|rs|] == rs;
  }

  /** Whether `table` holds exactly `attrs`, with numbers as their `u32` bytes. */
  ghost predicate Same(e: Endian, attrs: map<int, Datum>, table: map<nat, seq<byte>>) {
    && (forall t: int :: t in attrs ==> t >= 0 && t in table && Payload(e, attrs[t]) == Some(table[t]))
    && (forall t: nat :: t in table ==> t in attrs)
  }

  predicate Lists(attrs: map<int, Datum>, order: seq<Attr>) {
    && DistinctTypes(order)
    && (forall i | 0 <= i < |order| :: order[i].atype in attrs && attrs[order[i].atype] == order[i].value)
    && (forall t | t in attrs :: exists i | 0 <= i < |order| :: order[i].atype == t)
  }

  /** Round trip: whatever order the table is traversed in and whatever family header precedes the
      attributes, parsing them gives the table back. */
  lemma AttrsRoundTrip(e: Endian, attrs: map<int, Datum>, order: seq<Attr>, family: seq<byte>)
    requires Lists(attrs, order) && AllCarriable(order)
    ensures Same(e, attrs, Table(RecordsFrom(e, Attributes, family + Encoded(e, order), |family|)))
  {
    hide *;
    RecordsShift(e, Attributes, family, Encoded(e, order), 0);
    EncodedParses(e, order);
    CarriersHold(e, order);
    CarriedTable(e, attrs, order, Carriers(e, order));
  }

  ghost predicate Carries(e: Endian, a: Attr, r: Record) {
    r.rtype == a.atype && Payload(e, a.value) == Some(r.body)
  }

  lemma CarriedTable(e: Endian, attrs: map<int, Datum>, order: seq<Attr>, rs: seq<Record>)
    requires Lists(attrs, order) && |rs| == |order| && forall i | 0 <= i < |order| :: Carries(e, order[i], rs[i])
    ensures Same(e, attrs, Table(rs))
  {
    hide Table, Payload, Carries, Lists;
    forall t: int | t in attrs ensures t >= 0 && t in Table(rs) && Payload(e, attrs[t]) == Some(Table(rs)[t]) {
      TypeCarried(e, attrs, order, rs, t);
    }
    forall t: nat | t in Table(rs) ensures t in attrs { TypeListed(e, attrs, order, rs, t); }
  }

  lemma TypeCarried(e: Endian, attrs: map<int, Datum>, order: seq<Attr>, rs: seq<Record>, t: int)
    requires Lists(attrs, order) && |rs| == |order| && forall i | 0 <= i < |order| :: Carries(e, order[i], rs[i])
    requires t in attrs
    ensures t >= 0 && t in Table(rs) && Payload(e, attrs[t]) == Some(Table(rs)[t])
  {
    hide Table, Payload;
    var i :| 0 <= i < |order| && order[i].atype == t;
    assert Carries(e, order[i], rs[i]);
    DistinctRecords(e, order, rs);
    TableHolds(rs);
  }

  lemma TypeListed(e: Endian, attrs: map<int, Datum>, order: seq<Attr>, rs: seq<Record>, t: nat)
    requires Lists(attrs, order) && |rs| == |order| && forall i | 0 <= i < |order| :: Carries(e, order[i], rs[i])
    requires t in Table(rs)
    ensures t in attrs
  {
    hide Table, Payload;
    DistinctRecords(e, order, rs);
    TableHolds(rs);
    var i :| 0 <= i < |rs| && rs[i].rtype == t;
    assert Carries(e, order[i], rs[i]);
  }

  lemma DistinctRecords(e: Endian, order: seq<Attr>, rs: seq<Record>)
    requires DistinctTypes(order) && |rs| == |order| && forall i | 0 <= i < |order| :: Carries(e, order[i], rs[i])
    ensures forall i, j | 0 <= i < j < |rs| :: rs[i].rtype != rs[j].rtype
  {
    hide Payload;
    forall i, j | 0 <= i < j < |rs| ensures rs[i].rtype != rs[j].rtype {
      assert Carries(e, order[i], rs[i]) && Carries(e, order[j], rs[j]);
    }
  }

  lemma CarriersHold(e: Endian, order: seq<Attr>)
    requires AllCarriable(order)
    ensures forall i | 0 <= i < |order| :: Carries(e, order[i], Carriers(e, order)[i])
  {
    hide Carriers;
    forall i | 0 <= i < |order| ensures Carries(e, order[i], Carriers(e, order)[i]) {
      EncodesOneIff(e, order[i].atype, order[i].value);
    }
  }

  /** `encode_attrs`: it raises exactly when some attribute is out of range, and otherwise its bytes
      parse back to the table. */
  method EncodeAttrs(e: Endian, attrs: map<int, Datum>) returns (r: Option<seq<byte>>)
    ensures r.Some? <==> forall t | t in attrs :: Carriable(t, attrs[t])
    ensures r.Some? ==> Same(e, attrs, Table(RecordsFrom(e, Attributes, r.value, 0)))
  {
    hide Carriable, EncodeOne, Encoded, Table, RecordsFrom;
    var out: seq<byte>, left: set<int> := [], attrs.Keys;
    ghost var order: seq<Attr> := [];
    assert out == Encoded(e, order) by { EmptyEncoded(e); }
    while left != {}
      invariant left <= attrs.Keys
      invariant AllCarriable(order) && out == Encoded(e, order) && DistinctTypes(order)
      invariant forall i | 0 <= i < |order| :: order[i].atype in attrs && attrs[order[i].atype] == order[i].value
      invariant forall i | 0 <= i < |order| :: order[i].atype !in left
      invariant forall t | t in attrs && t !in left :: exists i | 0 <= i < |order| :: order[i].atype == t
      decreases left
    {
      SomeLeft(left);
      var t: int :| t in left;
      EncodesOneIff(e, t, attrs[t]);
      match EncodeOne(e, t, attrs[t]) {
        case None => return None;
        case Some(bytes) =>
          EncodedAppend(e, order, Attr(t, attrs[t]));
          out := out + bytes;
          ListedOnce(attrs, left, order, t);
          order := order + [Attr(t, attrs[t])];
          left := left - {t};
      }
    }
    assert Lists(attrs, order);
    AttrsRoundTrip(e, attrs, order, []);
    assert [] + out == out;
    AllListed(attrs, order);
    r := Some(out);
  }

  lemma SomeLeft(left: set<int>)
    ensures left == {} || exists t :: t in left
  {
    if forall t :: t !in left { assert left == {}; }
  }

  lemma EmptyEncoded(e: Endian)
    ensures Encoded(e, []) == []
  {
  }

  lemma ListedOnce(attrs: map<int, Datum>, left: set<int>, order: seq<Attr>, t: int)
    requires t in left && left <= attrs.Keys
    requires forall i | 0 <= i < |order| :: order[i].atype !in left
    requires forall t' | t' in attrs && t' !in left :: exists i | 0 <= i < |order| :: order[i].atype == t'
    ensures var longer := order + [Attr(t, attrs[t])];
            && (forall i | 0 <= i < |longer| :: longer[i].atype !in left - {t})
            && (forall t' | t' in attrs && t' !in left - {t} :: exists i | 0 <= i < |longer| :: longer[i].atype == t')
  {
    var longer := order + [Attr(t, attrs[t])];
    forall t' | t' in attrs && t' !in left - {t} ensures exists i | 0 <= i < |longer| :: longer[i].atype == t' {
      if t' == t {
        assert longer[|order|].atype == t';
      } else {
        var i :| 0 <= i < |order| && order[i].atype == t';
        assert longer[i].atype == t';
      }
    }
  }

  lemma AllListed(attrs: map<int, Datum>, order: seq<Attr>)
    requires Lists(attrs, order) && AllCarriable(order)
    ensures forall t | t in attrs :: Carriable(t, attrs[t])
  {
    hide Carriable;
    forall t | t in attrs ensures Carriable(t, attrs[t]) {
      var i :| 0 <= i < |order| && order[i].atype == t;
      assert Carriable(order[i].atype, order[i].value);
    }
  }
}
