/** The ring buffer as a sequence, and pipes over it (device/ioqueue.c, shell/pipe.c).

    The operations here are the ones that need not wait; when and how a thread waits at a queue is
    the subject of the lock and queue machine. */
module IoQueues {
  import opened Disks

  const BUFSIZE := 2048

  class IoQueue {
    const buf: array<byte>
    var head: nat
    var tail: nat

    ghost predicate Valid()
      reads this
    {
      buf.Length == BUFSIZE && head < BUFSIZE && tail < BUFSIZE
    }

    /** The bytes in the order they were put in. */
    ghost function Contents(): (s: seq<byte>)
      requires Valid()
      reads this, buf
      ensures |s| < BUFSIZE
    {
      if head >= tail then buf[tail..head] else buf[tail..] + buf[..head]
    }

    constructor ()
      ensures Valid() && Contents() == [] && fresh(buf)
    {
      buf := new byte[BUFSIZE](i => 0);
      head, tail := 0, 0;
    }

    function NextPos(pos: nat): nat {
      (pos + 1) % BUFSIZE
    }

    method IoqFull() returns (full: bool)
      requires Valid()
      ensures full <==> |Contents()| == 2047
    {
      full := NextPos(head) == tail;
    }

    method IoqEmpty() returns (empty: bool)
      requires Valid()
      ensures empty <==> Contents() == []
    {
      empty := head == tail;
    }

    /** The length under wrap-around. */
    method IoqLength() returns (len: nat)
      requires Valid()
      ensures len == |Contents()|
    {
      len := 0;
      if head >= tail {
        len := head - tail;
      } else {
        len := BUFSIZE - (tail - head);
      }
    }

    /** The part of ioq_getchar behind its waiting loop. */
    method IoqGetchar() returns (b: byte)
      requires Valid() && Contents() != []
      modifies this`tail
      ensures Valid() && [b] + Contents() == old(Contents())
    {
      ghost var was := Contents();
      b := buf[tail];
      tail := NextPos(tail);
      assert was[0] == b && was[1..] == Contents();
    }

    /** The part of ioq_putchar behind its waiting loop. */
    method IoqPutchar(b: byte)
      requires Valid() && |Contents()| < BUFSIZE - 1
      modifies this`head, buf
      ensures Valid() && Contents() == old(Contents()) + [b]
    {
      buf[head] := b;
      head := NextPos(head);
    }

    /** Takes as much as there is, up to `count`: it never has to wait. */
    method PipeRead(count: nat) returns (buffer: seq<byte>)
      requires Valid()
      modifies this`tail
      ensures Valid() && buffer + Contents() == old(Contents())
      ensures |buffer| == if count < |old(Contents())| then count else |old(Contents())|
      ensures buffer == ReadPart(old(Contents()), count)
    {
      hide IoQueue.Contents;
      var ioqLen := IoqLength();
      var size := if ioqLen > count then count else ioqLen;
      buffer := [];
      ghost var all := Contents();
      while |buffer| < size
        invariant Valid() && |buffer| <= size && buffer + Contents() == all
      {
        var b := IoqGetchar();
        buffer := buffer + [b];
      }
      assert buffer == (buffer + Contents())[..size];
    }

    /** Puts in as much as `ioq_left` says, which counts the one cell that must stay empty. If the
        request reaches that cell the writer has to wait there, with one byte left to put; `waits`
        says so. */
    method PipeWrite(buffer: seq<byte>) returns (bytesWrite: nat, waits: bool)
      requires Valid()
      modifies this`head, buf
      ensures Valid() && bytesWrite <= |buffer| && Contents() == old(Contents()) + buffer[..bytesWrite]
      ensures waits <==> |buffer| >= 2048 - |old(Contents())|
      ensures bytesWrite == if waits then 2047 - |old(Contents())| else |buffer|
      ensures Contents() == old(Contents()) + WrittenPart(old(Contents()), buffer)
      ensures waits ==> |Contents()| == 2047 && bytesWrite < |buffer| && LeftPart(old(Contents()), buffer) == [buffer[bytesWrite]]
      ensures !waits ==> LeftPart(old(Contents()), buffer) == []
    {
      hide IoQueue.Contents;
      var ioqLength := IoqLength();
      var ioqLeft := BUFSIZE - ioqLength;
      var size := if ioqLeft > |buffer| then |buffer| else ioqLeft;
      bytesWrite := 0;
      while bytesWrite < size
        invariant Valid() && bytesWrite <= size && |old(Contents())| + bytesWrite < BUFSIZE
        invariant Contents() == old(Contents()) + buffer[..bytesWrite]
      {
        var full := IoqFull();
        if full {
          return bytesWrite, true;
        }
        IoqPutchar(buffer[bytesWrite]);
        assert buffer[..bytesWrite] + [buffer[bytesWrite]] == buffer[..bytesWrite + 1];
        bytesWrite := bytesWrite + 1;
      }
      waits := false;
    }

    /** The writer that waited is woken: it tests again, and puts its last byte or waits on. */
    method PipeWriteOn(b: byte) returns (waits: bool)
      requires Valid()
      modifies this`head, buf
      ensures Valid() && (waits <==> |old(Contents())| == 2047)
      ensures Contents() == if waits then old(Contents()) else old(Contents()) + [b]
    {
      hide IoQueue.Contents;
      waits := IoqFull();
      if !waits {
        IoqPutchar(b);
      }
    }
  }

  function ReadPart(q: seq<byte>, count: nat): seq<byte> {
    if count < |q| then q[..count] else q
  }

  /** What of `buffer` fits behind `q`. */
  function WrittenPart(q: seq<byte>, buffer: seq<byte>): seq<byte> {
    if |q| < BUFSIZE && |buffer| <= BUFSIZE - 1 - |q| then buffer
    else if |q| < BUFSIZE then buffer[..BUFSIZE - 1 - |q|] else []
  }

  /** What is left to put when the writer has to wait: one byte, or nothing if it need not. */
  function LeftPart(q: seq<byte>, buffer: seq<byte>): (r: seq<byte>)
    ensures |r| <= 1
  {
    if |q| < BUFSIZE <= |q| + |buffer| then [buffer[BUFSIZE - 1 - |q|]] else []
  }

  // ----- runs of a pipe

  /** Resume: the writer at place `k` among those that wait goes on. */
  datatype PipeOp = Write(buffer: seq<byte>) | Read(count: nat) | Resume(k: nat)

  /** What the pipe holds, all the bytes that went in and came out so far, the bytes that writers
      still wait to put, and all the bytes that writers were granted. */
  datatype Pipe = Pipe(held: seq<byte>, sent: seq<byte>, got: seq<byte>, waiting: seq<byte>, granted: seq<byte>)

  function PipeStep(p: Pipe, op: PipeOp): Pipe {
    match op
    case Write(buffer) =>
      var part, left := WrittenPart(p.held, buffer), LeftPart(p.held, buffer);
      Pipe(p.held + part, p.sent + part, p.got, p.waiting + left, p.granted + part + left)
    case Read(count) => var part := ReadPart(p.held, count); p.(held := p.held[|part|..], got := p.got + part)
    case Resume(k) =>
      if k < |p.waiting| && |p.held| < BUFSIZE - 1 then
        p.(held := p.held + [p.waiting[k]], sent := p.sent + [p.waiting[k]], waiting := p.waiting[..k] + p.waiting[k + 1..])
      else p
  }

  function PipeRun(ops: seq<PipeOp>): Pipe {
    if ops == [] then Pipe([], [], [], [], []) else PipeStep(PipeRun(ops[..|ops| - 1]), ops[|ops| - 1])
  }

  /** First in, first out: over any run what was read is a prefix of what was written, what is
      missing is in the pipe, and the pipe never holds more than 2047 bytes. */
  lemma {:induction false} PipeFifo(ops: seq<PipeOp>)
    ensures var p := PipeRun(ops); p.got + p.held == p.sent && p.got <= p.sent && |p.held| <= 2047
  {
    if ops != [] {
      PipeFifo(ops[..|ops| - 1]);
      var p := PipeRun(ops[..|ops| - 1]);
      match ops[|ops| - 1]
      case Write(buffer) =>
        assert p.got + (p.held + WrittenPart(p.held, buffer)) == p.got + p.held + WrittenPart(p.held, buffer);
      case Read(count) =>
        var part := ReadPart(p.held, count);
        assert p.got + part + p.held[|part|..] == p.got + p.held;
      case Resume(k) =>
        if k < |p.waiting| { assert p.got + (p.held + [p.waiting[k]]) == p.got + p.held + [p.waiting[k]]; }
    }
  }

  ghost predicate AllKept(p: Pipe) {
    multiset(p.granted) == multiset(p.sent) + multiset(p.waiting)
  }

  lemma Joined(a: seq<byte>, b: seq<byte>)
    ensures multiset(a + b) == multiset(a) + multiset(b)
  {
  }

  lemma Taken(s: seq<byte>, k: nat)
    requires k < |s|
    ensures multiset(s) == multiset(s[..k] + s[k + 1..]) + multiset([s[k]])
  {
    assert s == s[..k] + [s[k]] + s[k + 1..];
  }

  lemma StepKeepsAll(p: Pipe, op: PipeOp)
    requires AllKept(p)
    ensures AllKept(PipeStep(p, op))
  {
    hide WrittenPart, LeftPart, ReadPart;
    match op
    case Write(buffer) =>
      var part, left := WrittenPart(p.held, buffer), LeftPart(p.held, buffer);
      Joined(p.granted + part, left);
      Joined(p.granted, part);
      Joined(p.sent, part);
      Joined(p.waiting, left);
    case Read(count) =>
    case Resume(k) =>
      if k < |p.waiting| {
        Taken(p.waiting, k);
        Joined(p.sent, [p.waiting[k]]);
      }
  }

  /** No byte is lost and none is put twice: what writers were granted has been put or is waited for. */
  lemma {:induction false} PipeKeepsAll(ops: seq<PipeOp>)
    ensures var p := PipeRun(ops); multiset(p.granted) == multiset(p.sent) + multiset(p.waiting)
  {
    hide PipeStep;
    if ops != [] {
      PipeKeepsAll(ops[..|ops| - 1]);
      StepKeepsAll(PipeRun(ops[..|ops| - 1]), ops[|ops| - 1]);
    }
  }

  /** A writer waits only at a full pipe, and each writer that waits has exactly one byte to put. */
  lemma WaitsAtFull(p: Pipe, buffer: seq<byte>)
    requires |p.held| <= 2047
    ensures var p' := PipeStep(p, Write(buffer));
            if |buffer| < 2048 - |p.held| then
              p' == p.(held := p.held + buffer, sent := p.sent + buffer, granted := p.granted + buffer)
            else
              && |p'.held| == 2047 && p'.held == p.held + buffer[..2047 - |p.held|] && p'.sent == p.sent + buffer[..2047 - |p.held|]
              && p'.waiting == p.waiting + [buffer[2047 - |p.held|]] && p'.granted == p.granted + buffer[..2048 - |p.held|]
              && p'.got == p.got
  {
    var part, left := WrittenPart(p.held, buffer), LeftPart(p.held, buffer);
    assert p.granted + part + left == p.granted + (part + left);
    if |buffer| >= 2048 - |p.held| {
      assert part + left == buffer[..2048 - |p.held|];
    } else {
      assert part + left == buffer && p.waiting + left == p.waiting;
    }
  }

  /** A read takes the bytes that have been in the pipe longest: as many as it asks for, or all. A
      writer that goes on puts its byte, unless the pipe is full again. */
  lemma ReadsAndResumes(ops: seq<PipeOp>, count: nat, k: nat)
    ensures var p, p' := PipeRun(ops), PipeRun(ops + [Read(count)]);
            var n := if count < |p.held| then count else |p.held|;
            p' == p.(got := p.got + p.held[..n], held := p.held[n..])
    ensures var p, p' := PipeRun(ops), PipeRun(ops + [Resume(k)]);
            if k < |p.waiting| && |p.held| < 2047 then
              p' == p.(held := p.held + [p.waiting[k]], sent := p.sent + [p.waiting[k]], waiting := p.waiting[..k] + p.waiting[k + 1..])
            else p' == p
  {
    assert (ops + [Read(count)])[..|ops|] == ops && (ops + [Resume(k)])[..|ops|] == ops;
    var p := PipeRun(ops);
    assert p.held[..|p.held|] == p.held;
  }

  /** A reader gets everything that was written before it, if it asks for enough. */
  lemma PipeDrains(ops: seq<PipeOp>, count: nat)
    requires count >= |PipeRun(ops).held|
    ensures PipeRun(ops + [Read(count)]).got == PipeRun(ops).sent && PipeRun(ops + [Read(count)]).held == []
  {
    PipeFifo(ops);
    assert (ops + [Read(count)])[..|ops|] == ops;
  }
}
