/** Mailboxes: framed messages over a bounded byte queue and a completion counter
    (lib/mailbox.lua, lib/luafifo.c, lib/luacompletion.c). */
module Mailbox {
  import opened Bytes
  import opened Optional
  import opened StructCodec

  const UINT_MAX: nat := 0xffff_ffff
  const MAX_CAPACITY: nat := 0x8000_0000
  const SIZE_OF_T: nat := 8

  type Message = seq<byte>

  // ---- the queue and the counter ----

  /** `complete`: the kernel's counter saturates. */
  function Completed(counter: nat): nat {
    if counter >= UINT_MAX then counter else counter + 1
  }

  function Consumed(counter: nat): nat
    requires counter > 0
  {
    if counter >= UINT_MAX then counter else counter - 1
  }

  /** What `pop` takes and leaves: at most `size` bytes, from the front. */
  function Taken(contents: seq<byte>, size: nat): seq<byte> { contents[..Min(size, |contents|)] }
  function Left(contents: seq<byte>, size: nat): seq<byte> { contents[Min(size, |contents|)..] }

  class Fifo {
    const capacity: nat
    var contents: seq<byte>

    ghost predicate Valid()
      reads this
    {
      |contents| <= capacity <= MAX_CAPACITY
    }

    constructor (capacity: nat)
      requires capacity <= MAX_CAPACITY
      ensures Valid() && contents == [] && this.capacity == capacity
    {
      this.capacity, contents := capacity, [];
    }

    /** All or nothing: raises when there is no room for all of it. */
    method Push(data: seq<byte>) returns (ok: bool)
      requires Valid()
      modifies this
      ensures Valid() && (ok <==> |data| <= capacity - |old(contents)|)
      ensures contents == if ok then old(contents) + data else old(contents)
    {
      ok := |data| <= capacity - |contents|;
      if ok { contents := contents + data; }
    }

    method Pop(size: nat) returns (data: seq<byte>)
      requires Valid()
      modifies this
      ensures Valid() && data == Taken(old(contents), size) && data + contents == old(contents)
      ensures |data| == if size <= |old(contents)| then size else |old(contents)|
    {
      data := Taken(contents, size);
      contents := Left(contents, size);
    }
  }

  class Completion {
    var counter: nat

    constructor ()
      ensures counter == 0
    {
      counter := 0;
    }

    method Complete()
      modifies this
      ensures counter == Completed(old(counter))
    {
      if counter < UINT_MAX { counter := counter + 1; }
    }

    /** Returns when the counter is not zero, or unsuccessfully when the wait is cut short by then. */
    method Wait() returns (ok: bool)
      modifies this
      ensures ok <==> old(counter) > 0
      ensures counter == if ok then Consumed(old(counter)) else old(counter)
    {
      ok := counter > 0;
      if ok && counter < UINT_MAX { counter := counter - 1; }
    }
  }

  // ---- framing ----

  /** `string.pack("s", message)`: the length as a size_t, then the bytes. */
  function Frame(e: Endian, m: Message): (b: seq<byte>)
    requires |m| <= INT64_MAX
    ensures |b| == SIZE_OF_T + |m|
  {
    EncodeInt(e, SIZE_OF_T, false, |m|) + m
  }

  predicate Sendable(ms: seq<Message>) {
    forall i | 0 <= i < |ms| :: |ms[i]| <= INT64_MAX
  }

  function Frames(e: Endian, ms: seq<Message>): (b: seq<byte>)
    requires Sendable(ms)
    ensures |b| >= SIZE_OF_T * |ms|
  {
    if ms == [] then [] else Frame(e, ms[0]) + Frames(e, ms[1..])
  }

  lemma {:induction false} FramesAppend(e: Endian, ms: seq<Message>, m: Message)
    requires Sendable(ms) && |m| <= INT64_MAX
    ensures Frames(e, ms + [m]) == Frames(e, ms) + Frame(e, m)
  {
    hide Frame;
    if ms == [] {
    } else {
      assert (ms + [m])[1..] == ms[1..] + [m];
      FramesAppend(e, ms[1..], m);
    }
  }

  lemma FramesStep(e: Endian, ms: seq<Message>)
    requires Sendable(ms) && ms != []
    ensures Frames(e, ms) == Frame(e, ms[0]) + Frames(e, ms[1..])
  {
  }

  lemma FrameHeader(e: Endian, m: Message, rest: seq<byte>)
    requires |m| <= INT64_MAX
    ensures DecodeInt(e, false, Taken(Frame(e, m) + rest, SIZE_OF_T)) == Some(|m|)
    ensures |Taken(Frame(e, m) + rest, SIZE_OF_T)| == SIZE_OF_T && Left(Frame(e, m) + rest, SIZE_OF_T) == m + rest
  {
    hide DecodeInt, EncodeInt, Taken, Left;
    var header := EncodeInt(e, SIZE_OF_T, false, |m|);
    DecodeEncode(e, SIZE_OF_T, false, |m|);
    assert Frame(e, m) == header + m;
    TakeHeader(header, m, rest);
  }

  lemma TakeHeader(header: seq<byte>, m: Message, rest: seq<byte>)
    requires |header| == SIZE_OF_T
    ensures Taken(header + m + rest, SIZE_OF_T) == header && Left(header + m + rest, SIZE_OF_T) == m + rest
  {
    assert header + m + rest == header + (m + rest);
  }

  // ---- many producers, one consumer ----

  datatype Consumer = Ready | Woken | Reading(size: int)

  /** `midway` are the producers between their push and their complete. `sent`, `received`, `nils` and
      `malformed` record what sends pushed and what receives returned. */
  datatype State = State(
    capacity: nat, fifo: seq<byte>, counter: nat, midway: set<nat>, consumer: Consumer,
    sent: seq<Message>, received: seq<Message>, nils: nat, malformed: nat)

  datatype Step =
    | Push(producer: nat, message: Message)
    | Complete(producer: nat)
    | WaitSucceeds
    | WaitFails
    | PopHeader
    | PopBody

  predicate Enabled(s: State, step: Step) {
    match step
    case Push(p, m) => p !in s.midway && |m| <= INT64_MAX
    case Complete(p) => p in s.midway
    case WaitSucceeds => s.consumer.Ready? && s.counter > 0
    case WaitFails => s.consumer.Ready?
    case PopHeader => s.consumer.Woken?
    case PopBody => s.consumer.Reading?
  }

  function Apply(e: Endian, s: State, step: Step): State
    requires Enabled(s, step)
  {
    match step
    case Push(p, m) =>
      if |Frame(e, m)| > s.capacity - |s.fifo| then s
      else s.(fifo := s.fifo + Frame(e, m), midway := s.midway + {p}, sent := s.sent + [m])
    case Complete(p) => s.(midway := s.midway - {p}, counter := Completed(s.counter))
    case WaitSucceeds => s.(counter := Consumed(s.counter), consumer := Woken)
    case WaitFails => s
    case PopHeader =>
      var header, s' := Taken(s.fifo, SIZE_OF_T), s.(fifo := Left(s.fifo, SIZE_OF_T));
      if |header| == 0 then s'.(consumer := Ready, nils := s.nils + 1)
      else if |header| < SIZE_OF_T then s'.(consumer := Ready, malformed := s.malformed + 1)
      else (match DecodeInt(e, false, header)
            case Some(n) => s'.(consumer := Reading(n))
            case None => s'.(consumer := Ready, malformed := s.malformed + 1))
    case PopBody =>
      var n := s.consumer.size;
      if n < 0 then s.(consumer := Ready, malformed := s.malformed + 1)
      else s.(fifo := Left(s.fifo, n), received := s.received + [Taken(s.fifo, n)], consumer := Ready)
  }

  function Init(capacity: nat): State {
    State(capacity, [], 0, {}, Ready, [], [], 0, 0)
  }

  predicate Linked(e: Endian, states: seq<State>, steps: seq<Step>, i: nat)
    requires i < |steps| && |states| == |steps| + 1
  {
    Enabled(states[i], steps[i]) && states[i + 1] == Apply(e, states[i], steps[i])
  }

  ghost predicate Run(e: Endian, capacity: nat, states: seq<State>, steps: seq<Step>) {
    && |states| == |steps| + 1 && states[0] == Init(capacity)
    && forall i {:trigger steps[i]} | 0 <= i < |steps| :: Linked(e, states, steps, i)
  }

  // ---- the invariant ----

  /** Messages whose header was popped. */
  function Begun(s: State): nat {
    |s.received| + if s.consumer.Reading? then 1 else 0
  }

  predicate History(s: State) {
    && Begun(s) <= |s.sent| && s.received == s.sent[..|s.received|]
    && (s.consumer.Reading? ==> s.consumer.size == |s.sent[|s.received|]|)
    && Sendable(s.sent)
  }

  /** The queue holds what is left of the message being read, then the frames of the others. */
  predicate Stored(e: Endian, s: State)
    requires History(s)
  {
    && s.fifo == (if s.consumer.Reading? then s.sent[|s.received|] else []) + Frames(e, s.sent[Begun(s)..])
    && |s.fifo| <= s.capacity <= MAX_CAPACITY
  }

  /** Every queued message is announced, about to be announced, or already waited for. */
  predicate Counted(s: State)
    requires History(s)
  {
    s.counter + |s.midway| + (if s.consumer.Woken? then 1 else 0) == |s.sent| - Begun(s)
  }

  predicate Inv(e: Endian, s: State) {
    History(s) && Stored(e, s) && Counted(s) && s.nils == 0 && s.malformed == 0
  }

  lemma CounterBound(e: Endian, s: State)
    requires Inv(e, s)
    ensures |s.sent| - Begun(s) <= MAX_CAPACITY / SIZE_OF_T && s.counter < UINT_MAX
  {
    hide Frames;
  }

  lemma PushKeepsInv(e: Endian, s: State, p: nat, m: Message)
    requires Inv(e, s) && Enabled(s, Push(p, m))
    ensures Inv(e, Apply(e, s, Push(p, m)))
  {
    hide Frames, Frame;
    if |Frame(e, m)| <= s.capacity - |s.fifo| {
      var k := Begun(s);
      FramesAppend(e, s.sent[k..], m);
      assert (s.sent + [m])[k..] == s.sent[k..] + [m];
      assert (s.sent + [m])[..|s.received|] == s.sent[..|s.received|];
      var head := if s.consumer.Reading? then s.sent[|s.received|] else [];
      assert head + Frames(e, s.sent[k..]) + Frame(e, m) == head + (Frames(e, s.sent[k..]) + Frame(e, m));
    }
  }

  lemma PopHeaderIs(e: Endian, s: State, m: Message, rest: seq<byte>)
    requires s.consumer.Woken? && |m| <= INT64_MAX && s.fifo == Frame(e, m) + rest
    ensures Apply(e, s, PopHeader) == s.(fifo := m + rest, consumer := Reading(|m|))
  {
    hide Frame, DecodeInt, Taken, Left;
    FrameHeader(e, m, rest);
  }

  lemma PopHeaderKeepsInv(e: Endian, s: State)
    requires Inv(e, s) && s.consumer.Woken?
    ensures Inv(e, Apply(e, s, PopHeader)) && Apply(e, s, PopHeader).consumer.Reading?
  {
    ReadingInv(e, s);
    hide Apply, Frames, Frame;
    PopHeaderIs(e, s, s.sent[Begun(s)], Frames(e, s.sent[Begun(s) + 1..]));
    hide Inv;
  }

  /** A state whose next message has lost its header. */
  lemma ReadingInv(e: Endian, s: State)
    requires Inv(e, s) && s.consumer.Woken?
    ensures Begun(s) < |s.sent|
    ensures Sendable(s.sent)
    ensures var m := s.sent[Begun(s)];
            && s.fifo == Frame(e, m) + Frames(e, s.sent[Begun(s) + 1..])
            && Inv(e, s.(fifo := m + Frames(e, s.sent[Begun(s) + 1..]), consumer := Reading(|m|)))
  {
    var k := Begun(s);
    assert s.sent[k..][1..] == s.sent[k + 1..] && s.sent[k..][0] == s.sent[k];
    FramesStep(e, s.sent[k..]);
    hide Frames, Frame;
    assert s.fifo == Frames(e, s.sent[k..]);
  }

  lemma PopBodyKeepsInv(e: Endian, s: State)
    requires Inv(e, s) && s.consumer.Reading?
    ensures Inv(e, Apply(e, s, PopBody))
    ensures Apply(e, s, PopBody).received == s.received + [s.sent[|s.received|]]
  {
    hide Frames;
    var k, m := |s.received|, s.sent[|s.received|];
    assert s.fifo[..|m|] == m && s.fifo[|m|..] == Frames(e, s.sent[k + 1..]);
    assert s.sent[..k + 1] == s.sent[..k] + [m];
    assert [] + Frames(e, s.sent[k + 1..]) == Frames(e, s.sent[k + 1..]);
  }

  /** A message is sent if and only if its frame, 8 bytes longer, fits what is free of the queue. */
  lemma PushSendsIff(e: Endian, s: State, p: nat, m: Message)
    requires Enabled(s, Push(p, m))
    ensures var s' := Apply(e, s, Push(p, m));
            s'.sent == (if 8 + |m| + |s.fifo| <= s.capacity then s.sent + [m] else s.sent) && (s'.sent == s.sent ==> s' == s)
  {
    hide Frame;
    assert s.sent + [m] != s.sent;
  }

  lemma StepKeepsInv(e: Endian, s: State, step: Step)
    requires Inv(e, s) && Enabled(s, step)
    ensures Inv(e, Apply(e, s, step))
  {
    match step
    case Push(p, m) => PushKeepsInv(e, s, p, m);
    case PopHeader => PopHeaderKeepsInv(e, s);
    case PopBody => PopBodyKeepsInv(e, s);
    case Complete(p) => CounterBound(e, s);
    case WaitSucceeds => CounterBound(e, s);
    case WaitFails =>
  }

  lemma {:induction false} RunKeepsInv(e: Endian, capacity: nat, states: seq<State>, steps: seq<Step>, i: nat)
    requires Run(e, capacity, states, steps) && capacity <= MAX_CAPACITY && i < |states|
    ensures Inv(e, states[i]) && states[i].capacity == capacity
    decreases i
  {
    hide Inv, Apply, Enabled;
    if i == 0 {
      InitInv(e, capacity);
    } else {
      RunKeepsInv(e, capacity, states, steps, i - 1);
      assert Linked(e, states, steps, i - 1) by { var _ := steps[i - 1]; }
      StepKeepsInv(e, states[i - 1], steps[i - 1]);
      StepKeepsCapacity(e, states[i - 1], steps[i - 1]);
    }
  }

  lemma InitInv(e: Endian, capacity: nat)
    requires capacity <= MAX_CAPACITY
    ensures Inv(e, Init(capacity))
  {
    assert [] + Frames(e, []) == [];
  }

  lemma StepKeepsCapacity(e: Endian, s: State, step: Step)
    requires Enabled(s, step)
    ensures Apply(e, s, step).capacity == s.capacity
  {
    hide Frame, DecodeInt, Taken, Left;
  }

  // ---- what holds of every run ----

  /** Over every interleaving of any number of senders with the receiver, with failed pushes and failed waits:
      what was received is exactly the oldest messages sent; sent = received + in progress + queued, byte for
      byte; no receive whose wait succeeded finds an empty or a short header; the counter never saturates. */
  lemma EveryRun(e: Endian, capacity: nat, states: seq<State>, steps: seq<Step>, i: nat)
    requires Run(e, capacity, states, steps) && capacity <= MAX_CAPACITY && i < |states|
    ensures var s := states[i];
            && s.received <= s.sent && Sendable(s.sent)
            && |s.received| <= Begun(s) <= |s.sent|
            && s.sent == s.received + s.sent[|s.received|..Begun(s)] + s.sent[Begun(s)..]
            && s.fifo == Flat(s.sent[|s.received|..Begun(s)]) + Frames(e, s.sent[Begun(s)..])
            && s.nils == 0 && s.malformed == 0 && s.counter < UINT_MAX
  {
    RunKeepsInv(e, capacity, states, steps, i);
    hide Run, Frames;
    var s := states[i];
    CounterBound(e, s);
    var k := |s.received|;
    assert s.sent[k..k] == [];
    if s.consumer.Reading? { assert s.sent[k..k + 1] == [s.sent[k]] && Flat([s.sent[k]]) == s.sent[k]; }
  }

  function Flat(ms: seq<Message>): seq<byte> {
    if ms == [] then [] else ms[0] + Flat(ms[1..])
  }

  /** No wakeup is lost: with no sender midway and no receive under way, the counter is the number of queued messages. */
  lemma NoLostWakeup(e: Endian, capacity: nat, states: seq<State>, steps: seq<Step>, i: nat)
    requires Run(e, capacity, states, steps) && capacity <= MAX_CAPACITY && i < |states|
    requires states[i].midway == {} && states[i].consumer.Ready?
    ensures states[i].counter == |states[i].sent| - |states[i].received|
  {
    RunKeepsInv(e, capacity, states, steps, i);
  }

  /** One receive that does not have to wait: the wait, the header, and the body if there is one to read. */
  function OneReceive(e: Endian, s: State): State
    requires s.consumer.Ready? && s.counter > 0
  {
    var s' := Apply(e, Apply(e, s, WaitSucceeds), PopHeader);
    if s'.consumer.Reading? then Apply(e, s', PopBody) else s'
  }

  function ReceiveAll(e: Endian, s: State): State
    requires Inv(e, s) && s.consumer.Ready?
    decreases s.counter
  {
    if s.counter == 0 then s
    else
      ReceiveNext(e, s);
      ReceiveAll(e, OneReceive(e, s))
  }

  lemma ReceiveNext(e: Endian, s: State)
    requires Inv(e, s) && s.consumer.Ready? && s.counter > 0
    ensures var s' := OneReceive(e, s);
            && Inv(e, s') && s'.consumer.Ready? && s'.counter == s.counter - 1
            && s'.sent == s.sent && s'.midway == s.midway
            && s'.received == s.received + [s.sent[|s.received|]]
  {
    hide Inv, Apply;
    CounterBound(e, s);
    StepKeepsInv(e, s, WaitSucceeds);
    WaitMeans(e, s);
    var woken := Apply(e, s, WaitSucceeds);
    PopHeaderKeepsInv(e, woken);
    PopHeaderKeeps(e, woken);
    PopBodyKeepsInv(e, Apply(e, woken, PopHeader));
    PopBodyKeeps(e, Apply(e, woken, PopHeader));
  }

  lemma WaitMeans(e: Endian, s: State)
    requires s.consumer.Ready? && 0 < s.counter < UINT_MAX
    ensures Apply(e, s, WaitSucceeds) == s.(counter := s.counter - 1, consumer := Woken)
  {
  }

  lemma PopHeaderKeeps(e: Endian, s: State)
    requires s.consumer.Woken?
    ensures var s' := Apply(e, s, PopHeader);
            s'.counter == s.counter && s'.sent == s.sent && s'.midway == s.midway && s'.received == s.received
  {
    hide DecodeInt, Taken, Left;
  }

  lemma PopBodyKeeps(e: Endian, s: State)
    requires s.consumer.Reading?
    ensures var s' := Apply(e, s, PopBody);
            s'.counter == s.counter && s'.sent == s.sent && s'.midway == s.midway && s'.consumer.Ready?
  {
    hide Taken, Left;
  }

  /** Draining: once no sender is midway, receiving until the counter is zero delivers every message sent, in order. */
  lemma {:induction false} DrainDelivers(e: Endian, s: State)
    requires Inv(e, s) && s.consumer.Ready? && s.midway == {}
    ensures var s' := ReceiveAll(e, s);
            s'.received == s'.sent == s.sent && s'.fifo == [] && s'.counter == 0
    decreases s.counter
  {
    if s.counter == 0 {
      assert s.sent[..|s.sent|] == s.sent && s.sent[|s.sent|..] == [];
    } else {
      ReceiveNext(e, s);
      hide Inv, OneReceive;
      DrainDelivers(e, OneReceive(e, s));
    }
  }

  // ---- the mailbox object ----

  /** What a receive yields. */
  datatype Result = Received(message: Message) | Nothing | Malformed | WaitFailed

  class MailBox {
    const queue: Fifo
    const event: Completion

    constructor (queue: Fifo, event: Completion)
      ensures this.queue == queue && this.event == event
    {
      this.queue, this.event := queue, event;
    }

    /** Whether the objects are as in `s`. */
    ghost predicate Shows(s: State)
      reads queue, event
    {
      queue.Valid() && queue.capacity == s.capacity && queue.contents == s.fifo && event.counter == s.counter
    }

    /** `send` is a push and, unless that raises, a complete. */
    method Send(e: Endian, m: Message, ghost s: State, ghost p: nat) returns (ok: bool)
      requires Shows(s) && Enabled(s, Push(p, m))
      modifies queue, event
      ensures var s' := Apply(e, s, Push(p, m));
              if ok then p in s'.midway && Shows(Apply(e, s', Complete(p))) else s' == s && Shows(s)
    {
      hide Frame;
      ok := queue.Push(Frame(e, m));
      if ok { event.Complete(); }
    }

    /** `receive` is a wait and, unless that fails, the pops. */
    method Receive(e: Endian, ghost s: State) returns (r: Result)
      requires Shows(s) && s.consumer.Ready?
      modifies queue, event
      ensures r.WaitFailed? <==> s.counter == 0
      ensures r.WaitFailed? ==> Shows(s)
      ensures !r.WaitFailed? ==>
                var s' := OneReceive(e, s);
                && Shows(s')
                && s'.received == s.received + (if r.Received? then [r.message] else [])
                && s'.nils == s.nils + (if r.Nothing? then 1 else 0)
                && s'.malformed == s.malformed + (if r.Malformed? then 1 else 0)
    {
      hide DecodeInt;
      var ok := event.Wait();
      if !ok { return WaitFailed; }
      var header := queue.Pop(SIZE_OF_T);
      if |header| == 0 {
        return Nothing;
      } else if |header| < SIZE_OF_T {
        return Malformed;
      }
      var size := DecodeInt(e, false, header);
      if size.None? || size.value < 0 { return Malformed; }
      var body := queue.Pop(size.value);
      return Received(body);
    }
  }
}
