/** The buffered FILE over a VFS file (include/stdio.h), reading a file that nobody writes meanwhile. */
module StdioFile {
  import opened Bytes

  const BUFSIZE: nat := 512
  const EOF: int := -1

  /** What one `kernel_read` of up to BUFSIZE bytes returns at `pos`: a negative `grant` is an error, any
      other grants that many bytes, at least one before the end of the file. */
  function ReadResult(content: seq<byte>, pos: nat, grant: int): (n: int)
    ensures n <= BUFSIZE && (n >= 0 ==> grant >= 0) && (n > 0 ==> pos + n <= |content|)
    ensures n == 0 ==> pos >= |content|
  {
    if grant < 0 then grant
    else if pos >= |content| then 0
    else Min(Min(if grant == 0 then 1 else grant, BUFSIZE), |content| - pos)
  }

  function Negatives(grants: seq<int>): nat {
    if grants == [] then 0 else Negatives(grants[1..]) + if grants[0] < 0 then 1 else 0
  }

  class File {
    const content: seq<byte>
    const buf: array<byte>
    var grants: seq<int>  // the results of the kernel reads to come; full reads after those
    var pos: nat
    var bufpos: nat
    var buflen: nat
    var err: bool
    var eof: bool
    var unget: int

    /** How many of the kernel reads to come will fail. */
    ghost function ToFail(): nat
      reads this
    {
      Negatives(grants)
    }

    ghost predicate Buffered()
      reads this, buf
    {
      && buf.Length == BUFSIZE && bufpos <= buflen <= BUFSIZE && buflen <= pos
      && (buflen > 0 ==> pos <= |content| && buf[..buflen] == content[pos - buflen..pos])
    }

    /** Where the next byte comes from. */
    ghost function Cursor(): int
      reads this
    {
      pos - (buflen - bufpos) - (if unget >= 0 then 1 else 0)
    }

    ghost predicate Valid()
      reads this, buf
    {
      && Buffered() && bufpos <= buflen && -1 <= unget < 256
      && (unget >= 0 ==> 0 <= Cursor() < |content| && content[Cursor()] == unget)
    }

    constructor (content: seq<byte>, grants: seq<int>)
      ensures Valid() && fresh(buf) && Cursor() == 0 && this.content == content && unget < 0
      ensures this.grants == grants && !err && !eof
    {
      this.content, this.buf, this.grants := content, new byte[BUFSIZE], grants;
      pos, bufpos, buflen, err, eof, unget := 0, 0, 0, false, false, -1;
    }

    /** `kernel_read` into the buffer. */
    method KernelRead() returns (n: int)
      requires Buffered()
      modifies this`grants, this`pos, buf
      ensures n <= BUFSIZE && pos == old(pos) + (if n > 0 then n else 0)
      ensures n == 0 ==> pos >= |content|
      ensures n > 0 ==> pos <= |content| && buf[..n] == content[old(pos)..pos]
      ensures ToFail() == old(ToFail()) - (if n < 0 then 1 else 0)
    {
      var grant := if grants == [] then BUFSIZE else grants[0];
      grants := if grants == [] then [] else grants[1..];
      n := ReadResult(content, pos, grant);
      if n > 0 {
        forall i | 0 <= i < n { buf[i] := content[pos + i]; }
        pos := pos + n;
      }
    }

    /** `fill`, on an empty buffer: nothing is skipped, and it fails only at the end of the file or on an error. */
    method Fill() returns (n: nat)
      requires Valid() && bufpos == buflen
      modifies this, buf
      ensures Valid() && Cursor() == old(Cursor()) && unget == old(unget)
      ensures n == buflen && bufpos == 0
      ensures n > 0 ==> err == old(err) && eof == old(eof) && ToFail() == old(ToFail())
      ensures n == 0 ==> (eof && !err && pos >= |content| && ToFail() == old(ToFail())) || (err && !eof && ToFail() < old(ToFail()))
    {
      hide Negatives;
      var got := KernelRead();
      bufpos := 0;
      if got <= 0 {
        eof, err, buflen := got == 0, got < 0, 0;
        return 0;
      }
      buflen := got;
      return got;
    }

    /** No more bytes: the file ended, or a kernel read failed since `toFail` were to fail, and the flags say which. */
    ghost predicate Ended(toFail: nat)
      reads this
    {
      || (eof && !err && Cursor() >= |content| && ToFail() == toFail)
      || (err && !eof && ToFail() < toFail)
    }

    /** `getc`: the byte at the cursor, or EOF only at the end of the file or when its own kernel read fails. */
    method Getc() returns (c: int)
      requires Valid()
      modifies this, buf
      ensures Valid() && -1 <= c < 256 && unget < 0
      ensures c >= 0 ==> 0 <= old(Cursor()) < |content| && c == content[old(Cursor())] && Cursor() == old(Cursor()) + 1
      ensures c >= 0 ==> ToFail() == old(ToFail())
      ensures c == EOF ==> Cursor() == old(Cursor()) && Ended(old(ToFail()))
    {
      hide Negatives;
      if unget >= 0 {
        c := unget;
        unget := -1;
        return;
      }
      if bufpos >= buflen {
        var n := Fill();
        if n == 0 { return EOF; }
      }
      c := buf[bufpos];
      assert c == buf[..buflen][bufpos];
      bufpos := bufpos + 1;
    }

    /** Whether `c` is the byte just before the cursor and nothing is pushed back yet. */
    ghost predicate JustRead(c: int)
      reads this
    {
      unget < 0 && 0 < Cursor() <= |content| && c == content[Cursor() - 1]
    }

    /** `ungetc`: takes any byte, but only the byte just read, and only once, moves the cursor back by one. */
    method Ungetc(c: int)
      requires Valid() && EOF <= c < 256
      modifies this`eof, this`unget
      ensures c == EOF ==> eof == old(eof) && unget == old(unget)
      ensures c != EOF ==> !eof && unget == c
      ensures c != EOF ==> (Valid() && Cursor() == old(Cursor()) - 1 <==> old(JustRead(c)))
    {
      if c == EOF { return; }
      eof := false;
      unget := c;
    }

    /** Copies `n` buffered bytes. */
    method Take(n: nat) returns (data: seq<byte>)
      requires Valid() && unget < 0 && n <= buflen - bufpos && n > 0
      modifies this`bufpos
      ensures Valid() && Cursor() == old(Cursor()) + n && |data| == n
      ensures Slice(content, old(Cursor()), data)
    {
      Chunk(content, buf[..buflen], pos - buflen, bufpos, n);
      data := buf[bufpos..bufpos + n];
      assert forall i | 0 <= i < n :: data[i] == buf[..buflen][bufpos..bufpos + n][i];
      assert data == buf[..buflen][bufpos..bufpos + n];
      bufpos := bufpos + n;
    }

    /** The byte pushed back, if there is one. */
    method TakeUnget() returns (data: seq<byte>)
      requires Valid()
      modifies this`unget
      ensures Valid() && unget < 0 && |data| <= 1 && Cursor() == old(Cursor()) + |data|
      ensures Slice(content, old(Cursor()), data)
    {
      hide Slice;
      SliceSmall(content, Cursor());
      data := [];
      if unget >= 0 {
        data := [unget];
        unget := -1;
      }
    }

    /** The loop of `fread`, for a number of bytes. */
    method Fetch(total: nat) returns (data: seq<byte>)
      requires Valid() && total > 0
      modifies this, buf
      ensures Valid() && |data| <= total && Cursor() == old(Cursor()) + |data| && unget < 0
      ensures Slice(content, old(Cursor()), data)
      ensures if |data| < total then Ended(old(ToFail())) else ToFail() == old(ToFail())
    {
      hide Slice, Buffered, Negatives;
      ghost var start := Cursor();
      data := TakeUnget();
      while |data| < total
        invariant Valid() && unget < 0 && |data| <= total && Cursor() == start + |data| && Slice(content, start, data)
        invariant ToFail() == old(ToFail())
        decreases total - |data|
      {
        var avail := buflen - bufpos;
        if avail == 0 {
          avail := Fill();
          if avail == 0 { return; }
        }
        var more := Take(Min(avail, total - |data|));
        SliceMore(content, start, data, more);
        data := data + more;
      }
    }

    /** `fread`: the bytes from the cursor on, all that are asked for unless the file ends or a read fails;
        an item cut short counts for nothing but its bytes are consumed. */
    method Fread(size: nat, nmemb: nat) returns (data: seq<byte>, items: nat)
      requires Valid()
      modifies this, buf
      ensures Valid() && |data| <= size * nmemb && Cursor() == old(Cursor()) + |data|
      ensures Slice(content, old(Cursor()), data)
      ensures if |data| < size * nmemb then Ended(old(ToFail())) else ToFail() == old(ToFail())
      ensures items == if size == 0 then 0 else |data| / size
      ensures data != [] ==> unget < 0
    {
      hide Slice, Buffered, Negatives;
      var total := size * nmemb;
      if size == 0 || total == 0 {
        SliceSmall(content, Cursor());
        return [], 0;
      }
      data := Fetch(total);
      items := |data| / size;
    }

    /** `seek` to an absolute offset: a negative one is refused and changes only the error flag. */
    method Seek(offset: int) returns (r: int)
      requires Valid()
      modifies this
      ensures Valid() && (r == 0 <==> offset >= 0) && (r == 0 || r == -1)
      ensures r == 0 ==> Cursor() == offset && unget < 0 && err == old(err)
      ensures r == -1 ==> Cursor() == old(Cursor()) && err && unget == old(unget)
      ensures eof == old(eof) && grants == old(grants)
    {
      if offset < 0 {
        err := true;
        return -1;
      }
      pos, bufpos, buflen, unget := offset, 0, 0, -1;
      return 0;
    }

    /** `ftell` tells the cursor exactly when the buffer is drained and nothing is pushed back. */
    method Ftell() returns (at: nat)
      requires Valid()
      ensures at >= Cursor() && (at == Cursor() <==> bufpos == buflen && unget < 0)
    {
      at := pos;
    }
  }

  lemma Chunk(content: seq<byte>, buffered: seq<byte>, base: nat, at: nat, n: nat)
    requires base + |buffered| <= |content| && buffered == content[base..base + |buffered|] && at + n <= |buffered|
    ensures buffered[at..at + n] == content[base + at..base + at + n]
  {
    assert forall i | 0 <= i < |buffered| :: buffered[i] == content[base + i];
  }

  /** `data` is what the content holds from `start` on. */
  ghost predicate Slice(content: seq<byte>, start: int, data: seq<byte>) {
    data == [] || (0 <= start && start + |data| <= |content| && data == content[start..start + |data|])
  }

  lemma SliceSmall(content: seq<byte>, start: int)
    ensures Slice(content, start, [])
    ensures 0 <= start < |content| ==> Slice(content, start, [content[start]])
  {
  }

  lemma SliceMore(content: seq<byte>, start: int, data: seq<byte>, more: seq<byte>)
    requires Slice(content, start, data) && Slice(content, start + |data|, more)
    ensures Slice(content, start, data + more)
  {
    if data == [] {
      assert data + more == more;
    } else if more == [] {
      assert data + more == data;
    } else {
      var at := start + |data|;
      assert content[start..at] + content[at..at + |more|] == content[start..at + |more|];
    }
  }

  // ---- any interleaving ----

  /** `PushBack` is an `ungetc` of the last byte read, when there is one and it was not pushed back yet. */
  datatype Op = Get | PushBack | Read(size: nat, nmemb: nat) | SeekTo(offset: int)

  /** A byte or EOF, bytes, or a status. */
  datatype Result = Char(c: int) | Data(bytes: seq<byte>) | Status(r: int)

  /** What a plain cursor over the content allows: bytes come from the cursor, and fewer than asked only at
      the end of the file or when a kernel read of this very operation failed. */
  ghost predicate Plain(content: seq<byte>, at: int, op: Op, r: Result, at': int, failed: bool) {
    match op
    case Get =>
      && r.Char?
      && (if r.c >= 0 then 0 <= at < |content| && r.c == content[at] && at' == at + 1
          else r.c == EOF && at' == at && (at >= |content| || failed))
    case PushBack => r.Char? && at' == (if r.c >= 0 then at - 1 else at)
                     && (r.c >= 0 ==> 0 < at <= |content| && r.c == content[at - 1])
    case Read(size, nmemb) =>
      && r.Data? && Slice(content, at, r.bytes) && at' == at + |r.bytes| && |r.bytes| <= size * nmemb
      && (|r.bytes| < size * nmemb ==> at' >= |content| || failed)
    case SeekTo(offset) => r == Status(if offset >= 0 then 0 else -1) && at' == (if offset >= 0 then offset else at)
  }

  datatype Event = Event(op: Op, r: Result, at: int, at': int, failed: bool)

  /** The byte that may be pushed back: the last one of the last event, if that delivered any. */
  function LastByte(trace: seq<Event>): int {
    if trace == [] then EOF else LastOf(trace[|trace| - 1].op, trace[|trace| - 1].r)
  }

  /** The last byte that an operation delivered, if it reads. */
  function LastOf(op: Op, r: Result): int {
    match r
    case Char(c) => if op.Get? then c else EOF
    case Data(b) => if b == [] then EOF else b[|b| - 1] as int
    case Status(_) => EOF
  }

  /** Each event is what the plain cursor does, starts where the one before ended, and pushes back what that delivered. */
  ghost predicate PlainTrace(content: seq<byte>, trace: seq<Event>, from: int, to: int) {
    if trace == [] then from == to
    else
      var last := trace[|trace| - 1];
      && PlainTrace(content, trace[..|trace| - 1], from, last.at) && last.at' == to
      && Plain(content, last.at, last.op, last.r, last.at', last.failed)
      && (last.op.PushBack? ==> last.r == Char(LastByte(trace[..|trace| - 1])))
  }

  /** How many events had a failed kernel read. */
  ghost function Failures(trace: seq<Event>): nat {
    if trace == [] then 0 else Failures(trace[..|trace| - 1]) + if trace[|trace| - 1].failed then 1 else 0
  }

  lemma EmptyTrace(content: seq<byte>, at: int)
    ensures PlainTrace(content, [], at, at) && Failures([]) == 0 && LastByte([]) == EOF
  {
  }

  lemma MoreTrace(content: seq<byte>, trace: seq<Event>, e: Event, from: int)
    requires PlainTrace(content, trace, from, e.at) && Plain(content, e.at, e.op, e.r, e.at', e.failed)
    requires e.op.PushBack? ==> e.r == Char(LastByte(trace))
    ensures PlainTrace(content, trace + [e], from, e.at')
    ensures Failures(trace + [e]) == Failures(trace) + (if e.failed then 1 else 0)
    ensures LastByte(trace + [e]) == LastOf(e.op, e.r)
  {
    hide Plain, LastOf;
    assert (trace + [e])[..|trace|] == trace;
  }

  /** Any program of reads, pushbacks and seeks, over any pattern of short and failing kernel reads, sees
      what a plain cursor over the content shows. */
  method Exec(f: File, ops: seq<Op>) returns (results: seq<Result>, ghost trace: seq<Event>)
    requires f.Valid() && f.unget < 0
    modifies f, f.buf
    ensures f.Valid() && |results| == |trace| == |ops|
    ensures forall i | 0 <= i < |ops| :: trace[i].op == ops[i] && trace[i].r == results[i]
    ensures PlainTrace(f.content, trace, old(f.Cursor()), f.Cursor())
    ensures Failures(trace) <= old(f.ToFail()) - f.ToFail()
  {
    hide PlainTrace, Failures, LastByte, Plain, LastOf;
    results, trace := [], [];
    var last := EOF;
    EmptyTrace(f.content, f.Cursor());
    for i := 0 to |ops|
      invariant f.Valid() && |results| == |trace| == i
      invariant forall j | 0 <= j < i :: trace[j].op == ops[j] && trace[j].r == results[j]
      invariant PlainTrace(f.content, trace, old(f.Cursor()), f.Cursor())
      invariant Failures(trace) <= old(f.ToFail()) - f.ToFail()
      invariant last == LastByte(trace) && (last == EOF || f.JustRead(last))
    {
      ghost var at, toFail := f.Cursor(), f.ToFail();
      var r;
      r, last := One(f, ops[i], last);
      results := results + [r];
      ghost var event := Event(ops[i], r, at, f.Cursor(), f.ToFail() < toFail);
      MoreTrace(f.content, trace, event, old(f.Cursor()));
      trace := trace + [event];
    }
  }

  /** One operation; `last` is the byte that may be pushed back. */
  method One(f: File, op: Op, last: int) returns (r: Result, last': int)
    requires f.Valid()
    requires last == EOF || f.JustRead(last)
    modifies f, f.buf
    ensures f.Valid() && f.ToFail() <= old(f.ToFail())
    ensures Plain(f.content, old(f.Cursor()), op, r, f.Cursor(), f.ToFail() < old(f.ToFail()))
    ensures last' == EOF || f.JustRead(last')
    ensures op.PushBack? ==> r == Char(last)
    ensures last' == LastOf(op, r)
  {
    hide f.Buffered;
    last' := EOF;
    match op {
      case Get =>
        var c := f.Getc();
        r, last' := Char(c), c;
      case PushBack =>
        f.Ungetc(last);
        r := Char(last);
      case Read(size, nmemb) =>
        var data, _ := f.Fread(size, nmemb);
        r := Data(data);
        if data != [] { last' := data[|data| - 1]; }
      case SeekTo(offset) =>
        var status := f.Seek(offset);
        r := Status(status);
    }
  }

  /** The bytes an event delivered. */
  function Delivered(e: Event): seq<byte>
    requires e.r.Char? && e.r.c >= 0 ==> e.r.c < 256
  {
    match e.r
    case Char(c) => if c >= 0 then [c] else []
    case Data(b) => b
    case Status(_) => []
  }

  ghost predicate OnlyReads(trace: seq<Event>) {
    forall i | 0 <= i < |trace| :: (trace[i].op.Get? || trace[i].op.Read?) && (trace[i].r.Char? ==> trace[i].r.c < 256)
  }

  function AllDelivered(trace: seq<Event>): seq<byte>
    requires forall i | 0 <= i < |trace| :: trace[i].r.Char? ==> trace[i].r.c < 256
  {
    if trace == [] then [] else AllDelivered(trace[..|trace| - 1]) + Delivered(trace[|trace| - 1])
  }

  /** Nothing is lost or repeated: reads in a row, of any sizes, deliver one contiguous piece of the file. */
  lemma {:induction false} ReadsAreContiguous(content: seq<byte>, trace: seq<Event>, from: int, to: int)
    requires PlainTrace(content, trace, from, to) && OnlyReads(trace)
    ensures Slice(content, from, AllDelivered(trace)) && to == from + |AllDelivered(trace)|
  {
    hide Plain, Slice, Delivered;
    if trace == [] {
      SliceSmall(content, from);
    } else {
      var front, last := trace[..|trace| - 1], trace[|trace| - 1];
      ReadsAreContiguous(content, front, from, last.at);
      ReadDelivers(content, last);
      SliceMore(content, from, AllDelivered(front), Delivered(last));
    }
  }

  lemma ReadDelivers(content: seq<byte>, e: Event)
    requires Plain(content, e.at, e.op, e.r, e.at', e.failed)
    requires (e.op.Get? || e.op.Read?) && (e.r.Char? ==> e.r.c < 256)
    ensures Slice(content, e.at, Delivered(e)) && e.at' == e.at + |Delivered(e)|
  {
    SliceSmall(content, e.at);
  }
}
