/** Whole runs of a netlink session: `request`, `talk` and `dump` (lib/netlink/session.lua). */
module NetlinkTalk {
  import opened Bytes
  import opened Optional
  import opened StructCodec
  import opened NetlinkMessage
  import opened NetlinkCodec
  import opened NetlinkSession

  /** One `talk` (until the acknowledgment) or `dump` (until the end), and what the kernel answers. */
  datatype Call = Call(last: Until, mtype: int, flags: nat, payload: seq<byte>, answer: seq<seq<byte>>)

  datatype Outcome = Returned(messages: seq<Record>) | Failed(code: int) | NotSent | Waiting

  datatype State = State(sequence: nat, queue: seq<seq<byte>>)

  function Asked(c: Call): nat {
    BitOr(REQUEST, if c.last == IsAck then BitOr(ACK, c.flags) else DUMP)
  }

  function Wired(c: Call, sequence: nat): Wire {
    Wire(c.mtype, Asked(c), sequence, 0, c.payload)
  }

  /** What a reply amounts to. */
  function Judged(e: Endian, ms: seq<Record>): Outcome {
    match FirstError(e, ms) case Some(code) => Failed(code) case None => Returned(ms)
  }

  /** One whole call. A request that cannot be built still uses up its sequence number. */
  function Step(e: Endian, s: State, c: Call): (State, Outcome) {
    var next := s.sequence + 1;
    if Encode(e, Wired(c, next)).None? then (State(next, s.queue), NotSent)
    else
      var d := Drain(e, c.last, s.queue + c.answer);
      (State(next, d.left), if d.ended then Judged(e, d.messages) else Waiting)
  }

  /** A dump asks for all entries; a talk asks for an acknowledgment, whatever else its caller asks for. */
  lemma AskedMeans(c: Call)
    ensures c.last == IsDone ==> Asked(c) == 0x301
    ensures c.last == IsAck ==> forall k: nat :: Bit(Asked(c), k) <==> k == 0 || k == 2 || Bit(c.flags, k)
  {
    if c.last == IsDone {
      assert BitOr(0, 0x180) == 0x180;
    } else {
      forall k: nat ensures Bit(Asked(c), k) <==> k == 0 || k == 2 || Bit(c.flags, k) {
        OrBit(REQUEST, BitOr(ACK, c.flags), k);
        OrBit(ACK, c.flags, k);
        OneBit(0, k);
        OneBit(2, k);
      }
    }
  }

  lemma {:induction false} OneBit(i: nat, k: nat)
    requires i <= 2
    ensures Bit(Pow2(i), k) <==> k == i
    ensures Pow2(0) == 1 && Pow2(2) == 4
  {
    NoBits(k);
    assert Pow2(1) == 2;
    if k > 0 {
      NoBits(k - 1);
      if i > 0 {
        OneBit(i - 1, k - 1);
      }
    }
  }

  /** What the bytes of a request say when they are read as a message. */
  predicate Carries(e: Endian, wire: seq<byte>, c: Call, sequence: nat) {
    && HasRecord(e, Messages, wire, 0) && |wire| == 16 + |c.payload| && U(e, wire[8..12]) == sequence
    && var m := RecordAt(e, Messages, wire, 0); m.rtype == c.mtype && m.flags == Asked(c) && m.body == c.payload
  }

  lemma Requested(e: Endian, c: Call, sequence: nat)
    requires Encode(e, Wired(c, sequence)).Some?
    ensures Carries(e, Encode(e, Wired(c, sequence)).value, c, sequence)
  {
    hide Encode, Asked, U, Encodable;
    var w := Wired(c, sequence);
    EncodesIff(e, w);
    ReadsBack(e, w, []);
    assert Encode(e, w).value + [] == Encode(e, w).value;
    SequenceOnWire(e, w);
  }

  class Session {
    var sequence: nat
    var queue: seq<seq<byte>>

    ghost function Abs(): State
      reads this
    {
      State(sequence, queue)
    }

    constructor ()
      ensures Abs() == State(0, [])
    {
      sequence, queue := 0, [];
    }

    method Request(e: Endian, c: Call) returns (sent: bool, wire: seq<byte>)
      modifies this
      ensures sequence == old(sequence) + 1
      ensures sent <==> Encode(e, Wired(c, old(sequence) + 1)).Some?
      ensures queue == if sent then old(queue) + c.answer else old(queue)
      ensures sent ==> Carries(e, wire, c, sequence)
    {
      hide Encode, Asked, Carries;
      sequence := sequence + 1;
      var built := Encode(e, Wired(c, sequence));
      if built.None? { return false, []; }
      queue := queue + c.answer;
      Requested(e, c, sequence);
      return true, built.value;
    }

    /** `replies` without its final check. */
    method Receive(e: Endian, last: Until) returns (messages: seq<Record>, ended: bool)
      modifies this`queue
      ensures Drained(messages, queue, ended) == Drain(e, last, old(queue))
    {
      hide Drain, Closes, RecordsFrom;
      ghost var whole := Drain(e, last, queue);
      messages, ended := [], false;
      while !ended && queue != []
        invariant ended ==> whole == Drained(messages, queue, true)
        invariant !ended ==> whole == Before(messages, Drain(e, last, queue))
        decreases !ended, |queue|
      {
        ghost var before, first, rest := messages, queue[0], queue[1..];
        DrainStep(e, last, queue, before);
        var chunk := Chunk(queue[0]);
        queue := queue[1..];
        if chunk == [] {
          return messages, true;
        }
        var ms := Records(e, Messages, chunk, 0);
        for i := 0 to |ms|
          invariant messages == before + ms[..i] && ended == AnyEnds(last, ms[..i]) && queue == rest
        {
          messages := messages + [ms[i]];
          EndsSoFar(last, ms, i);
          assert ms[..i + 1] == ms[..i] + [ms[i]];
          if Ends(last, ms[i]) { ended := true; }
        }
        assert ms[..|ms|] == ms && ms == Parsed(e, first);
      }
      DrainNothing(e, last, messages);
    }

    method Transact(e: Endian, c: Call) returns (r: Outcome)
      modifies this
      ensures (Abs(), r) == Step(e, old(Abs()), c)
    {
      var sent, wire := Request(e, c);
      if !sent { return NotSent; }
      var messages, ended := Receive(e, c.last);
      if !ended { return Waiting; }
      var error := Checked(e, messages);
      match error {
        case Some(code) => return Failed(code);
        case None => return Returned(messages);
      }
    }
  }

  /** A drain preceded by messages already received. */
  function Before(messages: seq<Record>, d: Drained): Drained {
    Drained(messages + d.messages, d.left, d.ended)
  }

  lemma DrainNothing(e: Endian, last: Until, messages: seq<Record>)
    ensures Before(messages, Drain(e, last, [])) == Drained(messages, [], false)
  {
    assert messages + [] == messages;
  }

  /** One datagram of a drain. */
  lemma DrainStep(e: Endian, last: Until, queue: seq<seq<byte>>, before: seq<Record>)
    requires queue != []
    ensures var whole, ms := Before(before, Drain(e, last, queue)), Parsed(e, queue[0]);
            if Chunk(queue[0]) == [] then whole == Drained(before, queue[1..], true)
            else if AnyEnds(last, ms) then whole == Drained(before + ms, queue[1..], true)
            else whole == Before(before + ms, Drain(e, last, queue[1..]))
  {
    hide RecordsFrom, Ends, AnyEnds;
    var ms, rest := Parsed(e, queue[0]), Drain(e, last, queue[1..]).messages;
    assert before + (ms + rest) == before + ms + rest;
    if Chunk(queue[0]) == [] {
      NothingAfter(e, Messages, [], 0);
      assert ms == [] && before + [] == before;
    }
  }

  lemma EndsSoFar(last: Until, ms: seq<Record>, i: nat)
    requires i < |ms|
    ensures AnyEnds(last, ms[..i + 1]) <==> AnyEnds(last, ms[..i]) || Ends(last, ms[i])
  {
    hide Ends;
    if AnyEnds(last, ms[..i]) {
      var j :| 0 <= j < i && Ends(last, ms[..i][j]);
      assert Ends(last, ms[..i + 1][j]);
    }
    if Ends(last, ms[i]) { assert Ends(last, ms[..i + 1][i]); }
    if AnyEnds(last, ms[..i + 1]) {
      var j :| 0 <= j < i + 1 && Ends(last, ms[..i + 1][j]);
      assert j < i ==> Ends(last, ms[..i][j]);
    }
  }

  // ---- one call ----

  /** What a call should yield: the judgement of its own answer and of nothing else. */
  function Own(e: Endian, c: Call, sequence: nat): Outcome {
    if Encodable(Wired(c, sequence)) then Judged(e, AllMessages(e, c.answer)) else NotSent
  }

  predicate Answered(e: Endian, c: Call, sequence: nat) {
    Encodable(Wired(c, sequence)) ==> Complete(e, c.last, c.answer)
  }

  predicate InSync(s: State, r: Outcome) {
    s.queue == [] && r != Waiting
  }

  /** From an empty queue, a call ends with an empty queue if and only if the kernel's answer is complete:
      its last datagram, and no other, holds the ending message or is empty. Then, and even when it
      raises, the call yields exactly its own answer. */
  lemma CallInSyncIff(e: Endian, s: State, c: Call)
    requires s.queue == []
    ensures var (s', r) := Step(e, s, c);
            && (InSync(s', r) <==> Answered(e, c, s.sequence + 1))
            && (InSync(s', r) ==> r == Own(e, c, s.sequence + 1))
            && s'.sequence == s.sequence + 1
  {
    hide Encode, Complete, Encodable, FirstError, Drain, AllMessages;
    EncodesIff(e, Wired(c, s.sequence + 1));
    assert s.queue + c.answer == c.answer;
    WholeIffComplete(e, c.last, c.answer);
  }

  /** A drain takes all the datagrams and ends if and only if they are a complete reply. */
  lemma WholeIffComplete(e: Endian, last: Until, answer: seq<seq<byte>>)
    ensures var d := Drain(e, last, answer);
            && (d.ended && d.left == [] <==> Complete(e, last, answer))
            && (d.ended && d.left == [] ==> d.messages == AllMessages(e, answer))
  {
    hide Complete, Drain, AllMessages;
    if Complete(e, last, answer) {
      DrainComplete(e, last, answer, []);
      assert answer + [] == answer;
    } else {
      DrainMeans(e, last, answer);
      assert answer[..|answer|] == answer;
    }
  }

  /** Out of sync, a call is answered by what was left over: its own answer plays no part. */
  lemma StaleReply(e: Endian, s: State, c: Call, other: seq<seq<byte>>)
    requires Drain(e, c.last, s.queue).ended
    ensures Step(e, s, c).1 == Step(e, s, c.(answer := other)).1
    ensures Encodable(Wired(c, s.sequence + 1)) ==> Step(e, s, c).1 == Judged(e, Drain(e, c.last, s.queue).messages)
  {
    hide Encode, FirstError, Encodable;
    EncodesIff(e, Wired(c, s.sequence + 1));
    assert Wired(c, s.sequence + 1) == Wired(c.(answer := other), s.sequence + 1);
    DrainMore(e, c.last, s.queue, c.answer);
    DrainMore(e, c.last, s.queue, other);
  }

  lemma {:induction false} DrainMore(e: Endian, last: Until, queue: seq<seq<byte>>, more: seq<seq<byte>>)
    requires Drain(e, last, queue).ended
    ensures Drain(e, last, queue + more).ended && Drain(e, last, queue + more).messages == Drain(e, last, queue).messages
  {
    hide Closes, Parsed;
    assert queue != [] && (queue + more)[1..] == queue[1..] + more && (queue + more)[0] == queue[0];
    if !Closes(e, last, queue[0]) { DrainMore(e, last, queue[1..], more); }
  }

  // ---- whole runs ----

  /** The states and outcomes of a run of calls. */
  function Run(e: Endian, s: State, calls: seq<Call>): (trace: seq<(State, Outcome)>)
    ensures |trace| == |calls|
    decreases |calls|
  {
    if calls == [] then []
    else var step := Step(e, s, calls[0]); [step] + Run(e, step.0, calls[1..])
  }

  ghost predicate RunInSync(trace: seq<(State, Outcome)>) {
    forall i | 0 <= i < |trace| :: InSync(trace[i].0, trace[i].1)
  }

  ghost predicate AllAnswered(e: Endian, s: State, calls: seq<Call>) {
    forall i | 0 <= i < |calls| :: Answered(e, calls[i], s.sequence + 1 + i)
  }

  ghost predicate AllOwn(e: Endian, s: State, calls: seq<Call>, trace: seq<(State, Outcome)>)
    requires |trace| == |calls|
  {
    forall i | 0 <= i < |calls| :: trace[i].1 == Own(e, calls[i], s.sequence + 1 + i)
  }

  /** A whole run of `talk` and `dump` calls stays in sync if and only if the kernel answers every request
      that is sent with a complete reply; then every call yields exactly its own reply or its own error. */
  lemma {:induction false} RunInSyncIff(e: Endian, s: State, calls: seq<Call>)
    requires s.queue == []
    ensures var trace := Run(e, s, calls);
            && (RunInSync(trace) <==> AllAnswered(e, s, calls))
            && (RunInSync(trace) ==> AllOwn(e, s, calls, trace))
    decreases |calls|
  {
    if calls == [] {
    } else {
      var trace, step := Run(e, s, calls), Step(e, s, calls[0]);
      CallInSyncIff(e, s, calls[0]);
      hide Step, Answered, Own;
      assert trace[0] == step;
      if InSync(step.0, step.1) {
        RunInSyncIff(e, step.0, calls[1..]);
        assert trace[1..] == Run(e, step.0, calls[1..]);
        TailTrace(e, s, step.0, calls, trace);
      } else {
        assert !Answered(e, calls[0], s.sequence + 1 + 0);
      }
    }
  }

  lemma TailTrace(e: Endian, s: State, s': State, calls: seq<Call>, trace: seq<(State, Outcome)>)
    requires calls != [] && |trace| == |calls| && s'.sequence == s.sequence + 1
    requires InSync(trace[0].0, trace[0].1) && Answered(e, calls[0], s.sequence + 1)
    requires trace[0].1 == Own(e, calls[0], s.sequence + 1)
    ensures RunInSync(trace) <==> RunInSync(trace[1..])
    ensures AllAnswered(e, s, calls) <==> AllAnswered(e, s', calls[1..])
    ensures AllOwn(e, s', calls[1..], trace[1..]) ==> AllOwn(e, s, calls, trace)
  {
    hide Answered, Own, InSync;
    if RunInSync(trace[1..]) {
      forall i | 0 <= i < |trace| ensures InSync(trace[i].0, trace[i].1) {
        assert i > 0 ==> trace[i] == trace[1..][i - 1];
      }
    }
    if AllAnswered(e, s', calls[1..]) {
      forall i | 0 <= i < |calls| ensures Answered(e, calls[i], s.sequence + 1 + i) {
        assert i > 0 ==> Answered(e, calls[1..][i - 1], s'.sequence + 1 + (i - 1));
      }
    }
    if AllAnswered(e, s, calls) {
      forall i | 0 <= i < |calls[1..]| ensures Answered(e, calls[1..][i], s'.sequence + 1 + i) {
        assert Answered(e, calls[i + 1], s.sequence + 1 + (i + 1));
      }
    }
    if AllOwn(e, s', calls[1..], trace[1..]) {
      forall i | 0 <= i < |calls| ensures trace[i].1 == Own(e, calls[i], s.sequence + 1 + i) {
        assert i > 0 ==> trace[1..][i - 1].1 == Own(e, calls[1..][i - 1], s'.sequence + 1 + (i - 1));
      }
    }
  }

  // ---- down to the bytes ----

  /** A datagram the kernel may send: built messages, padded to whole words, that fit the buffer. */
  predicate Sendable(e: Endian, ws: seq<Wire>) {
    ws != [] && AllEncodable(ws) && Aligned(ws) && |Concat(e, ws)| <= BUFSIZE
  }

  predicate AllSendable(e: Endian, reply: seq<seq<Wire>>) {
    forall i | 0 <= i < |reply| :: Sendable(e, reply[i])
  }

  function Datagrams(e: Endian, reply: seq<seq<Wire>>): (q: seq<seq<byte>>)
    requires AllSendable(e, reply)
    ensures |q| == |reply| && forall i | 0 <= i < |q| :: q[i] == Concat(e, reply[i])
  {
    seq(|reply|, i requires 0 <= i < |reply| => assert Sendable(e, reply[i]); Concat(e, reply[i]))
  }

  function AllVisible(e: Endian, reply: seq<seq<Wire>>): seq<Record>
    requires AllSendable(e, reply)
  {
    if reply == [] then [] else Visibles(reply[0]) + AllVisible(e, reply[1..])
  }

  /** A reply whose last datagram, and no other, holds an ending message. */
  predicate ProperReply(e: Endian, last: Until, reply: seq<seq<Wire>>) {
    && AllSendable(e, reply) && reply != []
    && AnyEnds(last, Visibles(reply[|reply| - 1]))
    && forall i | 0 <= i < |reply| - 1 :: !AnyEnds(last, Visibles(reply[i]))
  }

  lemma SendableParses(e: Endian, last: Until, ws: seq<Wire>)
    requires Sendable(e, ws)
    ensures Parsed(e, Concat(e, ws)) == Visibles(ws)
    ensures Closes(e, last, Concat(e, ws)) <==> AnyEnds(last, Visibles(ws))
  {
    hide Encode, Encodable, Ends, RecordsFrom;
    ConcatParsesIffAligned(e, ws);
    EncodesIff(e, ws[0]);
    ReadsBack(e, ws[0], []);
  }

  lemma {:induction false} ReplyParses(e: Endian, reply: seq<seq<Wire>>)
    requires AllSendable(e, reply)
    ensures AllMessages(e, Datagrams(e, reply)) == AllVisible(e, reply)
  {
    hide Sendable, Concat, Visibles, Parsed;
    if reply == [] {
    } else {
      SendableParses(e, IsAck, reply[0]);
      ReplyParses(e, reply[1..]);
      assert Datagrams(e, reply)[1..] == Datagrams(e, reply[1..]);
    }
  }

  /** End to end: a request answered by such a reply returns exactly the messages the kernel built, or
      raises with the first error code among them, and leaves nothing behind. */
  lemma ReplyDelivered(e: Endian, s: State, c: Call, reply: seq<seq<Wire>>)
    requires s.queue == [] && Encodable(Wired(c, s.sequence + 1))
    requires ProperReply(e, c.last, reply) && c.answer == Datagrams(e, reply)
    ensures Step(e, s, c) == (State(s.sequence + 1, []), Judged(e, AllVisible(e, reply)))
  {
    hide Concat, Visibles, Encodable, AllEncodable, Aligned, Closes, AnyEnds, Judged;
    forall i | 0 <= i < |reply| ensures Closes(e, c.last, c.answer[i]) <==> AnyEnds(c.last, Visibles(reply[i])) {
      SendableParses(e, c.last, reply[i]);
    }
    ReplyParses(e, reply);
    assert Complete(e, c.last, c.answer);
    CallInSyncIff(e, s, c);
  }

  /** The messages that end a dump, by their type and flags: NLMSG_DONE, and any without NLM_F_MULTI. */
  predicate EndsDump(ws: seq<Wire>) {
    exists k | 0 <= k < |ws| :: ws[k].mtype == 3 || ws[k].flags / 2 % 2 == 0
  }

  /** The message that ends a talk: NLMSG_ERROR, which may be an acknowledgment. */
  predicate EndsTalk(ws: seq<Wire>) {
    exists k | 0 <= k < |ws| :: ws[k].mtype == 2
  }

  lemma {:induction false} VisiblesAt(ws: seq<Wire>, k: nat)
    requires AllEncodable(ws) && k < |ws|
    ensures Encodable(ws[k]) && Visibles(ws)[k] == Visible(ws[k])
  {
    if k == 0 {
    } else {
      VisiblesAt(ws[1..], k - 1);
    }
  }

  lemma MultiBit(flags: nat)
    ensures BitAnd(flags, MULTI) == 0 <==> flags / 2 % 2 == 0
  {
    assert BitAnd(flags / 2, 1) == flags / 2 % 2 by { assert BitAnd(flags / 2 / 2, 0) == 0; }
    assert BitAnd(flags, 2) == 2 * BitAnd(flags / 2, 1);
  }

  lemma EndsMeans(last: Until, ws: seq<Wire>)
    requires AllEncodable(ws)
    ensures AnyEnds(last, Visibles(ws)) <==> if last == IsDone then EndsDump(ws) else EndsTalk(ws)
  {
    hide Visibles, BitAnd, Encodable;
    forall k | 0 <= k < |ws|
      ensures Ends(last, Visibles(ws)[k]) <==>
                if last == IsDone then ws[k].mtype == 3 || ws[k].flags / 2 % 2 == 0 else ws[k].mtype == 2
    {
      VisiblesAt(ws, k);
      MultiBit(Visibles(ws)[k].flags);
    }
  }

  /** A reply whose last datagram, and no other, ends it. */
  predicate EndsOnce(last: Until, reply: seq<seq<Wire>>) {
    && reply != []
    && (if last == IsDone then EndsDump(reply[|reply| - 1]) else EndsTalk(reply[|reply| - 1]))
    && forall i | 0 <= i < |reply| - 1 :: if last == IsDone then !EndsDump(reply[i]) else !EndsTalk(reply[i])
  }

  /** Down to the types and flags on the wire: answered by datagrams that the kernel built, a dump or a talk from an empty
      queue leaves nothing behind if and only if the last datagram, and no other, holds a message that ends it. It then
      returns exactly the messages built, or raises the first error among them. */
  lemma BuiltReplyIff(e: Endian, s: State, c: Call, reply: seq<seq<Wire>>)
    requires s.queue == [] && Encodable(Wired(c, s.sequence + 1))
    requires AllSendable(e, reply) && c.answer == Datagrams(e, reply)
    ensures var (s', r) := Step(e, s, c);
            && (InSync(s', r) <==> EndsOnce(c.last, reply))
            && (InSync(s', r) ==> (s', r) == (State(s.sequence + 1, []), Judged(e, AllVisible(e, reply))))
  {
    hide Concat, Visibles, Encodable, AllEncodable, Aligned, Closes, AnyEnds, Judged, EndsDump, EndsTalk, Step, Parsed;
    forall i | 0 <= i < |reply|
      ensures Closes(e, c.last, c.answer[i]) <==> if c.last == IsDone then EndsDump(reply[i]) else EndsTalk(reply[i])
    {
      assert Sendable(e, reply[i]);
      SendableParses(e, c.last, reply[i]);
      EndsMeans(c.last, reply[i]);
    }
    ReplyParses(e, reply);
    assert Complete(e, c.last, c.answer) <==> EndsOnce(c.last, reply);
    CallInSyncIff(e, s, c);
  }

  /** No message is of type 2. */
  predicate NoErrors(reply: seq<seq<Wire>>) {
    forall i, k | 0 <= i < |reply| && 0 <= k < |reply[i]| :: reply[i][k].mtype != 2
  }

  lemma {:induction false} NoErrorsSeen(e: Endian, reply: seq<seq<Wire>>)
    requires AllSendable(e, reply) && NoErrors(reply)
    ensures forall i | 0 <= i < |AllVisible(e, reply)| :: AllVisible(e, reply)[i].rtype != 2
  {
    hide Sendable, Visibles;
    if reply == [] {
    } else {
      assert Sendable(e, reply[0]);
      assert forall i, k | 0 <= i < |reply[1..]| && 0 <= k < |reply[1..][i]| :: reply[1..][i][k] == reply[i + 1][k];
      NoErrorsSeen(e, reply[1..]);
      SendableTypes(e, reply[0]);
    }
  }

  lemma SendableTypes(e: Endian, ws: seq<Wire>)
    requires Sendable(e, ws)
    ensures AllEncodable(ws) && forall k | 0 <= k < |ws| :: Visibles(ws)[k].rtype == ws[k].mtype
  {
    hide Visibles, Concat;
    forall k | 0 <= k < |ws| ensures Visibles(ws)[k].rtype == ws[k].mtype { VisiblesAt(ws, k); }
  }

  /** A multipart dump without errors, ended by NLMSG_DONE in its last datagram, returns every message built, the last
      included, and leaves nothing behind; so does one of a single datagram with a message that is not multipart. */
  lemma DumpReturnsAll(e: Endian, s: State, c: Call, reply: seq<seq<Wire>>)
    requires s.queue == [] && Encodable(Wired(c, s.sequence + 1)) && c.last == IsDone
    requires AllSendable(e, reply) && c.answer == Datagrams(e, reply) && reply != [] && NoErrors(reply)
    requires forall i, k | 0 <= i < |reply| - 1 && 0 <= k < |reply[i]| :: reply[i][k].mtype != 3 && reply[i][k].flags / 2 % 2 == 1
    requires EndsDump(reply[|reply| - 1])
    ensures Step(e, s, c) == (State(s.sequence + 1, []), Returned(AllVisible(e, reply)))
  {
    hide Step, AllSendable, FirstError, AllVisible, Encodable;
    assert EndsOnce(c.last, reply);
    BuiltReplyIff(e, s, c, reply);
    NoErrorsSeen(e, reply);
    FirstErrorMeans(e, AllVisible(e, reply));
  }

  // ---- a stale reply ----

  /** An error message with this code; 0 makes it an acknowledgment. */
  function ErrorReply(e: Endian, code: int): (w: Wire)
    requires Fits(4, true, code)
    ensures Encodable(w) && |w.body| == NLMSGERR.size
  {
    Wire(ERROR, 0, 0, 0, EncodeInt(e, 4, true, code) + Zeros(16))
  }

  function ErrorDatagram(e: Endian, code: int): seq<byte>
    requires Fits(4, true, code)
  {
    Concat(e, [ErrorReply(e, code)])
  }

  lemma ErrorReplyCode(e: Endian, code: int)
    requires Fits(4, true, code)
    ensures ErrorCode(e, ErrorReply(e, code).body) == code
  {
    var format, head, tail := NLMSGERR_FORMAT, EncodeInt(e, 4, true, code), Zeros(16);
    DecodeEncode(e, 4, true, code);
    assert format[1..][1..] == [] && tail[16..] == [] && Unpack(e, [], tail[16..]) == Some([]);
    assert Unpack(e, format[1..], tail) == Some([]);
    hide EncodeInt, DecodeInt, Fits, Unpack;
    UnpackItem(e, format, head, tail);
    assert [code] + [] == [code];
  }

  lemma ErrorDatagramMeans(e: Endian, code: int)
    requires Fits(4, true, code)
    ensures var d, m := ErrorDatagram(e, code), Visible(ErrorReply(e, code));
            && Parsed(e, d) == [m] && Closes(e, IsAck, d)
            && Judged(e, [m]) == if code == 0 then Returned([m]) else Failed(code)
  {
    ErrorReplyCode(e, code);
    OneMessage(e, ErrorReply(e, code));
    JudgedOne(e, Visible(ErrorReply(e, code)), code);
  }

  lemma OneMessage(e: Endian, w: Wire)
    requires Encodable(w) && w.mtype == ERROR && |w.body| == NLMSGERR.size
    ensures Parsed(e, Concat(e, [w])) == [Visible(w)] && Closes(e, IsAck, Concat(e, [w]))
  {
    hide Encode, RecordsFrom, Closes, Parsed, Encodable;
    EncodesIff(e, w);
    ReadsBack(e, w, []);
    assert [w][1..] == [] && Concat(e, [w]) == Encode(e, w).value + [];
    assert Visibles([w]) == [Visible(w)] + [];
    assert Ends(IsAck, Visibles([w])[0]);
    hide Concat, Visibles;
    SendableParses(e, IsAck, [w]);
  }

  lemma JudgedOne(e: Endian, m: Record, code: int)
    requires m.rtype == ERROR && |m.body| >= NLMSGERR.size && ErrorCode(e, m.body) == code
    ensures Judged(e, [m]) == if code == 0 then Returned([m]) else Failed(code)
  {
    hide ErrorCode;
    assert [m][1..] == [] && FirstError(e, []) == None;
    assert FirstError(e, [m]) == if code == 0 then None else Some(code);
  }

  /** Two calls from a new session. The first answer holds one datagram too many, an error message: the first call
      returns its acknowledgment, and the second raises that error although its own request was acknowledged. */
  lemma StaleRun(e: Endian, code: int)
    requires Fits(4, true, code) && code != 0
    ensures Fits(4, true, 0)
    ensures var ack, error := ErrorDatagram(e, 0), ErrorDatagram(e, code);
            var calls := [Call(IsAck, 16, 0, [], [ack, error]), Call(IsAck, 16, 0, [], [ack])];
            Run(e, State(0, []), calls) == [(State(1, [error]), Returned([Visible(ErrorReply(e, 0))])), (State(2, [ack]), Failed(code))]
  {
    hide ErrorDatagram, ErrorReply, Parsed, Closes, Judged, Step, Run, Visible;
    var ack, error := ErrorDatagram(e, 0), ErrorDatagram(e, code);
    ErrorDatagramMeans(e, 0);
    ErrorDatagramMeans(e, code);
    var c1, c2 := Call(IsAck, 16, 0, [], [ack, error]), Call(IsAck, 16, 0, [], [ack]);
    assert [] + c1.answer == [ack, error] && [error] + c2.answer == [error, ack];
    FirstClosing(e, c1, State(0, []), [ack, error]);
    FirstClosing(e, c2, State(1, [error]), [error, ack]);
    assert [ack, error][1..] == [error] && [error, ack][1..] == [ack];
    TwoCalls(e, State(0, []), c1, c2);
  }

  lemma TwoCalls(e: Endian, s: State, c: Call, d: Call)
    ensures Run(e, s, [c, d]) == [Step(e, s, c), Step(e, Step(e, s, c).0, d)]
  {
    hide Step;
    var first := Step(e, s, c);
    assert [c, d][1..] == [d] && [d][1..] == [];
    assert Run(e, Step(e, first.0, d).0, []) == [];
    assert Run(e, first.0, [d]) == [Step(e, first.0, d)] + [];
  }

  /** A talk whose queue starts with a closing datagram. */
  lemma FirstClosing(e: Endian, c: Call, s: State, queue: seq<seq<byte>>)
    requires c.last == IsAck && c.mtype == 16 && c.flags == 0 && c.payload == [] && s.sequence < 2
    requires queue == s.queue + c.answer && queue != [] && Closes(e, IsAck, queue[0])
    ensures Step(e, s, c) == (State(s.sequence + 1, queue[1..]), Judged(e, Parsed(e, queue[0])))
  {
    assert BitOr(ACK, 0) == 4 && BitOr(REQUEST, 4) == 5 by { assert BitOr(0, 2) == 2; }
    EncodesIff(e, Wired(c, s.sequence + 1));
    hide Encode, Closes, Parsed, FirstError;
  }
}
