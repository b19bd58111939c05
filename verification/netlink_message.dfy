/** The netlink wire codec (lib/netlink/message.lua): messages and attributes as length-prefixed,
    4-byte aligned records, after section 2.3.2 of RFC 3549. */
module NetlinkMessage {
  import opened Bytes
  import opened StructLayout
  import opened StructCodec

  const NLMSGHDR: Layout := Layout(16, [
    Field("nlmsg_len", 0, 4, false), Field("nlmsg_type", 4, 2, false), Field("nlmsg_flags", 6, 2, false),
    Field("nlmsg_seq", 8, 4, false), Field("nlmsg_pid", 12, 4, false)])

  const NLATTR: Layout := Layout(4, [Field("nla_len", 0, 2, false), Field("nla_type", 2, 2, false)])

  const ALIGNTO: nat := 4

  /** `(len + mask) & ~mask`, where clearing the mask bits of a number subtracts them. */
  function Align(len: nat): (r: nat)
    ensures len <= r < len + 4 && r % 4 == 0
  {
    var n := len + (ALIGNTO - 1);
    MaskIsModulo(n, 2);
    assert Pow2(2) == 4;
    n - BitAnd(n, ALIGNTO - 1)
  }

  function U(e: Endian, b: seq<byte>): nat {
    Value(StructCodec.Ordered(e, b))
  }

  lemma FitsMeans(size: nat, v: nat)
    requires 1 <= size < 8
    ensures Fits(size, false, v) <==> v < Pow256(size)
  {
    Pow8();
    PowGrows(size, 7);
    assert Pow256(8) == 256 * Pow256(7);
  }

  lemma {:induction false} PowGrows(a: nat, b: nat)
    requires a <= b
    ensures Pow256(a) <= Pow256(b)
    decreases b
  {
    if a < b { PowGrows(a, b - 1); }
  }

  // ---- records ----

  datatype Kind = Messages | Attributes {
    function HeaderSize(): nat { if Messages? then 16 else 4 }
  }

  /** What `codec:unpack(buf, pos)` reads of a record header. */
  function Length(e: Endian, kind: Kind, buf: seq<byte>, pos: nat): nat
    requires pos + kind.HeaderSize() <= |buf|
  {
    U(e, if kind == Messages then buf[pos..pos + 4] else buf[pos..pos + 2])
  }

  function Type(e: Endian, kind: Kind, buf: seq<byte>, pos: nat): nat
    requires pos + kind.HeaderSize() <= |buf|
  {
    U(e, if kind == Messages then buf[pos + 4..pos + 6] else buf[pos + 2..pos + 4])
  }

  function Flags(e: Endian, kind: Kind, buf: seq<byte>, pos: nat): nat
    requires pos + kind.HeaderSize() <= |buf|
  {
    if kind == Messages then U(e, buf[pos + 6..pos + 8]) else 0
  }

  datatype Record = Record(rtype: nat, flags: nat, body: seq<byte>)

  /** Whether a whole, well-formed record starts at `pos`. */
  predicate HasRecord(e: Endian, kind: Kind, buf: seq<byte>, pos: nat) {
    && pos + kind.HeaderSize() <= |buf|
    && kind.HeaderSize() <= Length(e, kind, buf, pos)
    && pos + Length(e, kind, buf, pos) <= |buf|
  }

  function RecordAt(e: Endian, kind: Kind, buf: seq<byte>, pos: nat): Record
    requires HasRecord(e, kind, buf, pos)
  {
    Record(Type(e, kind, buf, pos), Flags(e, kind, buf, pos),
           buf[pos + kind.HeaderSize()..pos + Length(e, kind, buf, pos)])
  }

  function Next(e: Endian, kind: Kind, buf: seq<byte>, pos: nat): (next: nat)
    requires HasRecord(e, kind, buf, pos)
    ensures pos < next
    ensures Align(|RecordAt(e, kind, buf, pos).body| + kind.HeaderSize()) == next - pos
  {
    pos + Align(Length(e, kind, buf, pos))
  }

  /** The records from `pos` on, up to the first truncated or malformed one. */
  function RecordsFrom(e: Endian, kind: Kind, buf: seq<byte>, pos: nat): seq<Record>
    decreases |buf| - pos
  {
    if !HasRecord(e, kind, buf, pos) then []
    else [RecordAt(e, kind, buf, pos)] + RecordsFrom(e, kind, buf, Next(e, kind, buf, pos))
  }

  /** `records`, driven to its end: it terminates and reads within the buffer on any bytes. */
  method Records(e: Endian, kind: Kind, buf: seq<byte>, start: nat) returns (rs: seq<Record>)
    ensures rs == RecordsFrom(e, kind, buf, start)
  {
    hide Align, Length, Type, Flags, RecordsFrom;
    var pos, h := start, kind.HeaderSize();
    rs := [];
    assert [] + RecordsFrom(e, kind, buf, start) == RecordsFrom(e, kind, buf, start);
    while pos + h <= |buf|
      invariant rs + RecordsFrom(e, kind, buf, pos) == RecordsFrom(e, kind, buf, start)
      decreases |buf| - pos
    {
      RecordsStep(e, kind, buf, pos, rs);
      var len := Length(e, kind, buf, pos);
      if len < h || pos + len > |buf| { return; }
      rs := rs + [Record(Type(e, kind, buf, pos), Flags(e, kind, buf, pos), buf[pos + h..pos + len])];
      pos := pos + Align(len);
    }
    RecordsStep(e, kind, buf, pos, rs);
  }

  /** After records already read: the next one, or the end. */
  lemma RecordsStep(e: Endian, kind: Kind, buf: seq<byte>, pos: nat, before: seq<Record>)
    ensures before + RecordsFrom(e, kind, buf, pos) ==
              if !HasRecord(e, kind, buf, pos) then before
              else (before + [RecordAt(e, kind, buf, pos)]) + RecordsFrom(e, kind, buf, Next(e, kind, buf, pos))
  {
    hide RecordAt, Next, HasRecord;
    if HasRecord(e, kind, buf, pos) {
      var r, rest := RecordAt(e, kind, buf, pos), RecordsFrom(e, kind, buf, Next(e, kind, buf, pos));
      assert before + ([r] + rest) == (before + [r]) + rest;
    }
  }

  lemma SameHeader(e: Endian, kind: Kind, pre: seq<byte>, buf: seq<byte>, pos: nat)
    requires pos + kind.HeaderSize() <= |buf|
    ensures Length(e, kind, pre + buf, |pre| + pos) == Length(e, kind, buf, pos)
    ensures Type(e, kind, pre + buf, |pre| + pos) == Type(e, kind, buf, pos)
    ensures Flags(e, kind, pre + buf, |pre| + pos) == Flags(e, kind, buf, pos)
  {
    hide U;
    ShiftedSlice(pre, buf, pos, pos + 2);
    ShiftedSlice(pre, buf, pos + 2, pos + 4);
    if kind == Messages {
      ShiftedSlice(pre, buf, pos, pos + 4);
      ShiftedSlice(pre, buf, pos + 4, pos + 6);
      ShiftedSlice(pre, buf, pos + 6, pos + 8);
    }
  }

  lemma ShiftedSlice(pre: seq<byte>, buf: seq<byte>, i: nat, j: nat)
    requires i <= j <= |buf|
    ensures (pre + buf)[|pre| + i..|pre| + j] == buf[i..j]
  {
  }

  lemma SameRecord(e: Endian, kind: Kind, pre: seq<byte>, buf: seq<byte>, pos: nat)
    ensures HasRecord(e, kind, pre + buf, |pre| + pos) <==> HasRecord(e, kind, buf, pos)
    ensures HasRecord(e, kind, buf, pos) ==>
              && RecordAt(e, kind, pre + buf, |pre| + pos) == RecordAt(e, kind, buf, pos)
              && Next(e, kind, pre + buf, |pre| + pos) == |pre| + Next(e, kind, buf, pos)
  {
    hide Align, Length, Type, Flags;
    var h, all := kind.HeaderSize(), pre + buf;
    if pos + h <= |buf| {
      SameHeader(e, kind, pre, buf, pos);
      if HasRecord(e, kind, buf, pos) {
        var len := Length(e, kind, buf, pos);
        ShiftedSlice(pre, buf, pos + h, pos + len);
      }
    }
  }

  /** Reading at a position only depends on the bytes from there on. */
  lemma {:induction false} RecordsShift(e: Endian, kind: Kind, pre: seq<byte>, buf: seq<byte>, pos: nat)
    ensures RecordsFrom(e, kind, pre + buf, |pre| + pos) == RecordsFrom(e, kind, buf, pos)
    decreases |buf| - pos
  {
    hide Align, HasRecord, RecordAt, Next;
    SameRecord(e, kind, pre, buf, pos);
    if HasRecord(e, kind, buf, pos) {
      RecordInside(e, kind, buf, pos);
      RecordsShift(e, kind, pre, buf, Next(e, kind, buf, pos));
    }
  }

  lemma RecordInside(e: Endian, kind: Kind, buf: seq<byte>, pos: nat)
    requires HasRecord(e, kind, buf, pos)
    ensures pos + kind.HeaderSize() + |RecordAt(e, kind, buf, pos).body| <= |buf|
  {
  }

  lemma CutRecord(e: Endian, kind: Kind, buf: seq<byte>, n: nat, pos: nat)
    requires n <= |buf| && HasRecord(e, kind, buf[..n], pos)
    ensures HasRecord(e, kind, buf, pos)
    ensures RecordAt(e, kind, buf[..n], pos) == RecordAt(e, kind, buf, pos)
    ensures Next(e, kind, buf[..n], pos) == Next(e, kind, buf, pos)
  {
    hide Align, U;
    var h, cut := kind.HeaderSize(), buf[..n];
    assert cut[pos..pos + 2] == buf[pos..pos + 2] && cut[pos + 2..pos + 4] == buf[pos + 2..pos + 4];
    if kind == Messages {
      assert cut[pos..pos + 4] == buf[pos..pos + 4];
      assert cut[pos + 4..pos + 6] == buf[pos + 4..pos + 6] && cut[pos + 6..pos + 8] == buf[pos + 6..pos + 8];
    }
    var len := Length(e, kind, cut, pos);
    assert cut[pos + h..pos + len] == buf[pos + h..pos + len];
  }

  /** Parsing a truncated buffer gives a prefix of what the whole buffer holds. */
  lemma {:induction false} TruncationParsesPrefix(e: Endian, kind: Kind, buf: seq<byte>, n: nat, pos: nat)
    requires n <= |buf|
    ensures RecordsFrom(e, kind, buf[..n], pos) <= RecordsFrom(e, kind, buf, pos)
    decreases |buf| - pos
  {
    hide Align, HasRecord, RecordAt, Next;
    if HasRecord(e, kind, buf[..n], pos) {
      CutRecord(e, kind, buf, n, pos);
      RecordInside(e, kind, buf, pos);
      TruncationParsesPrefix(e, kind, buf, n, Next(e, kind, buf, pos));
    }
  }

  /** Bytes taken by records in a row, the last one without padding. */
  function Span(kind: Kind, rs: seq<Record>): nat {
    if rs == [] then 0
    else if |rs| == 1 then kind.HeaderSize() + |rs[0].body|
    else Align(|rs[0].body| + kind.HeaderSize()) + Span(kind, rs[1..])
  }

  /** The records found never overlap: with their padding they fit the buffer. */
  lemma {:induction false} RecordsFitTheBuffer(e: Endian, kind: Kind, buf: seq<byte>, pos: nat)
    requires pos <= |buf|
    ensures Span(kind, RecordsFrom(e, kind, buf, pos)) <= |buf| - pos
    decreases |buf| - pos
  {
    hide Align, HasRecord, RecordAt, Next;
    if HasRecord(e, kind, buf, pos) {
      RecordInside(e, kind, buf, pos);
      var rs, next := RecordsFrom(e, kind, buf, pos), Next(e, kind, buf, pos);
      var rest := RecordsFrom(e, kind, buf, next);
      assert rs[1..] == rest && rs[0] == RecordAt(e, kind, buf, pos);
      if rest != [] {
        RecordInside(e, kind, buf, next);
        RecordsFitTheBuffer(e, kind, buf, next);
      }
    }
  }
}
