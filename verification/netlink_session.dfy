/** Request/reply discipline on a netlink socket (lib/netlink/session.lua). A queue of datagrams stands
    for the socket; what the kernel queues in answer to a request is a parameter of the call. */
module NetlinkSession {
  import opened Bytes
  import opened Optional
  import opened StructLayout
  import opened StructCodec
  import opened NetlinkMessage

  const ERROR: nat := 2
  const DONE: nat := 3
  const MULTI: nat := 2
  const REQUEST: nat := 1
  const ACK: nat := 4
  const DUMP: nat := 0x300
  const BUFSIZE: nat := 65536
  const NLMSGERR: Layout := Layout(20, [Field("error", 0, 4, true)])

  // ---- one message ----

  /** What ends a reply: the acknowledgment of `talk`, the end of `dump`. */
  datatype Until = IsAck | IsDone

  predicate Ends(last: Until, m: Record) {
    match last
    case IsAck => m.rtype == ERROR
    case IsDone => m.rtype == DONE || BitAnd(m.flags, MULTI) == 0
  }

  const NLMSGERR_FORMAT: seq<Item> := [Int(4, true), Pad(16)]

  lemma ErrorFormat()
    ensures Constructs(NLMSGERR.fields, NLMSGERR.size) && Format(NLMSGERR.fields, NLMSGERR.size) == NLMSGERR_FORMAT
  {
    var f := NLMSGERR.fields;
    assert f[..0] == [] && FieldItems([]) == [] && PackSize([]) == 0;
    assert NLMSGERR_FORMAT[..1] == [Int(4, true)] && NLMSGERR_FORMAT[..1][..0] == [];
  }

  /** The code of an error message; unpacking it never raises. */
  function ErrorCode(e: Endian, body: seq<byte>): (code: int)
    requires |body| >= NLMSGERR.size
    ensures Unpack(e, NLMSGERR_FORMAT, body) == Some([code])
    ensures -0x8000_0000 <= code < 0x8000_0000
  {
    var rest := NLMSGERR_FORMAT[1..];
    assert rest[1..] == [] && Unpack(e, rest[1..], body[4..][16..]) == Some([]);
    assert Unpack(e, rest, body[4..]) == Some([]);
    assert Pow256(4) == 256 * 256 * Pow256(2);
    var code := DecodeInt(e, true, body[..4]).value;
    assert [code] + [] == [code];
    code
  }

  /** The code that an error message raises with: none for an acknowledgment, for a message too short
      to hold a code and for any other type. */
  function Raises(e: Endian, m: Record): Option<int> {
    if m.rtype == ERROR && |m.body| >= NLMSGERR.size && ErrorCode(e, m.body) != 0
    then Some(ErrorCode(e, m.body)) else None
  }

  function FirstError(e: Endian, ms: seq<Record>): Option<int> {
    if ms == [] then None
    else if Raises(e, ms[0]).Some? then Raises(e, ms[0])
    else FirstError(e, ms[1..])
  }

  /** `checked`: raises with the first error code in order, and only when there is one. */
  method Checked(e: Endian, ms: seq<Record>) returns (error: Option<int>)
    ensures error == FirstError(e, ms)
  {
    hide Raises;
    for i := 0 to |ms|
      invariant FirstError(e, ms) == FirstError(e, ms[i..])
    {
      assert ms[i..][1..] == ms[i + 1..];
      if Raises(e, ms[i]).Some? {
        return Raises(e, ms[i]);
      }
    }
    return None;
  }

  /** A message of type 2 with room for an error code, which is not zero. */
  predicate IsError(e: Endian, m: Record) {
    m.rtype == 2 && |m.body| >= 20 && ErrorCode(e, m.body) != 0
  }

  /** There is no error if and only if no message is one; otherwise it is the code of the first that is. */
  lemma {:induction false} FirstErrorMeans(e: Endian, ms: seq<Record>)
    ensures FirstError(e, ms).None? <==> forall i | 0 <= i < |ms| :: !IsError(e, ms[i])
    ensures forall i | 0 <= i < |ms| && IsError(e, ms[i]) && (forall j | 0 <= j < i :: !IsError(e, ms[j])) ::
              FirstError(e, ms) == Some(ErrorCode(e, ms[i].body))
  {
    hide ErrorCode;
    if ms == [] {
    } else {
      FirstErrorMeans(e, ms[1..]);
      assert forall i | 0 < i < |ms| :: ms[i] == ms[1..][i - 1];
      assert IsError(e, ms[0]) <==> Raises(e, ms[0]).Some?;
      forall i | 0 < i < |ms| && IsError(e, ms[i]) && (forall j | 0 <= j < i :: !IsError(e, ms[j]))
        ensures FirstError(e, ms) == Some(ErrorCode(e, ms[i].body))
      {
        assert forall j | 0 <= j < i - 1 :: ms[1..][j] == ms[j + 1];
      }
    }
  }

  // ---- one datagram ----

  /** `receive` drops what exceeds the buffer. */
  function Chunk(datagram: seq<byte>): seq<byte> {
    if |datagram| <= BUFSIZE then datagram else datagram[..BUFSIZE]
  }

  function Parsed(e: Endian, datagram: seq<byte>): seq<Record> {
    RecordsFrom(e, Messages, Chunk(datagram), 0)
  }

  /** An oversized datagram loses messages at its end and nothing else. */
  lemma OversizedLosesTail(e: Endian, datagram: seq<byte>)
    ensures Parsed(e, datagram) <= RecordsFrom(e, Messages, datagram, 0)
    ensures |datagram| <= 0x1_0000 ==> Parsed(e, datagram) == RecordsFrom(e, Messages, datagram, 0)
  {
    if |datagram| > BUFSIZE { TruncationParsesPrefix(e, Messages, datagram, BUFSIZE, 0); }
  }

  predicate AnyEnds(last: Until, ms: seq<Record>) {
    exists i | 0 <= i < |ms| :: Ends(last, ms[i])
  }

  /** The datagram that ends a reply: one with an ending message, or an empty read. */
  predicate Closes(e: Endian, last: Until, datagram: seq<byte>) {
    Chunk(datagram) == [] || AnyEnds(last, Parsed(e, datagram))
  }

  // ---- draining a reply ----

  /** Messages received, datagrams left, and whether the reply ended (otherwise the call is still waiting). */
  datatype Drained = Drained(messages: seq<Record>, left: seq<seq<byte>>, ended: bool)

  function Drain(e: Endian, last: Until, queue: seq<seq<byte>>): Drained {
    if queue == [] then Drained([], [], false)
    else if Closes(e, last, queue[0]) then Drained(Parsed(e, queue[0]), queue[1..], true)
    else
      var rest := Drain(e, last, queue[1..]);
      Drained(Parsed(e, queue[0]) + rest.messages, rest.left, rest.ended)
  }

  /** All the messages of some datagrams, in order. */
  function AllMessages(e: Endian, queue: seq<seq<byte>>): seq<Record> {
    if queue == [] then [] else Parsed(e, queue[0]) + AllMessages(e, queue[1..])
  }

  /** A complete reply: its last datagram closes it and no other does. */
  predicate Complete(e: Endian, last: Until, answer: seq<seq<byte>>) {
    && answer != []
    && Closes(e, last, answer[|answer| - 1])
    && forall i | 0 <= i < |answer| - 1 :: !Closes(e, last, answer[i])
  }

  /** `d` ends at the first closing datagram and has the messages up to there. */
  ghost predicate EndsAtFirst(e: Endian, last: Until, queue: seq<seq<byte>>, d: Drained) {
    && |d.left| <= |queue| && d.left == queue[|queue| - |d.left|..]
    && d.messages == AllMessages(e, queue[..|queue| - |d.left|])
    && (d.ended ==> Complete(e, last, queue[..|queue| - |d.left|]))
    && (!d.ended ==> d.left == [] && forall i | 0 <= i < |queue| :: !Closes(e, last, queue[i]))
  }

  /** A drain ends exactly at the first closing datagram. */
  lemma {:induction false} DrainMeans(e: Endian, last: Until, queue: seq<seq<byte>>)
    ensures EndsAtFirst(e, last, queue, Drain(e, last, queue))
  {
    hide Closes, Parsed, EndsAtFirst;
    if queue == [] {
      NothingDrained(e, last);
    } else if Closes(e, last, queue[0]) {
      ClosedAtOnce(e, last, queue);
    } else {
      DrainMeans(e, last, queue[1..]);
      ClosedLater(e, last, queue, Drain(e, last, queue[1..]));
    }
  }

  lemma NothingDrained(e: Endian, last: Until)
    ensures EndsAtFirst(e, last, [], Drained([], [], false))
  {
  }

  lemma ClosedAtOnce(e: Endian, last: Until, queue: seq<seq<byte>>)
    requires queue != [] && Closes(e, last, queue[0])
    ensures EndsAtFirst(e, last, queue, Drained(Parsed(e, queue[0]), queue[1..], true))
  {
    hide Closes, Parsed;
    assert queue[..1] == [queue[0]] && queue[..1][1..] == [];
    assert AllMessages(e, queue[..1]) == Parsed(e, queue[0]) + [];
  }

  lemma ClosedLater(e: Endian, last: Until, queue: seq<seq<byte>>, d: Drained)
    requires queue != [] && !Closes(e, last, queue[0]) && EndsAtFirst(e, last, queue[1..], d)
    ensures EndsAtFirst(e, last, queue, Drained(Parsed(e, queue[0]) + d.messages, d.left, d.ended))
  {
    hide Closes, Parsed, AllMessages;
    var k, rest := |queue| - |d.left|, queue[1..];
    assert rest[k - 1..] == queue[k..];
    assert queue[..k][1..] == rest[..k - 1] && queue[..k] == [queue[0]] + rest[..k - 1];
    MessagesStep(e, queue[..k]);
    assert forall i | 0 < i < |queue| :: queue[i] == rest[i - 1];
    if d.ended { CompleteStep(e, last, queue[0], rest[..k - 1]); }
  }

  lemma MessagesStep(e: Endian, queue: seq<seq<byte>>)
    requires queue != []
    ensures AllMessages(e, queue) == Parsed(e, queue[0]) + AllMessages(e, queue[1..])
  {
  }

  lemma CompleteStep(e: Endian, last: Until, datagram: seq<byte>, rest: seq<seq<byte>>)
    requires !Closes(e, last, datagram) && Complete(e, last, rest)
    ensures Complete(e, last, [datagram] + rest)
  {
    hide Closes;
    var answer := [datagram] + rest;
    assert answer[|answer| - 1] == rest[|rest| - 1];
    assert forall i | 0 < i < |answer| :: answer[i] == rest[i - 1];
  }

  /** A complete reply is drained to its end whatever follows, and exactly it. */
  lemma {:induction false} DrainComplete(e: Endian, last: Until, answer: seq<seq<byte>>, after: seq<seq<byte>>)
    requires Complete(e, last, answer)
    ensures Drain(e, last, answer + after) == Drained(AllMessages(e, answer), after, true)
  {
    hide Closes, Parsed;
    assert (answer + after)[1..] == answer[1..] + after && (answer + after)[0] == answer[0];
    if |answer| == 1 {
      assert answer[1..] == [] && AllMessages(e, answer) == Parsed(e, answer[0]) + [];
      assert [] + after == after;
    } else {
      assert !Closes(e, last, answer[0]);
      assert Complete(e, last, answer[1..]);
      DrainComplete(e, last, answer[1..], after);
    }
  }
}
