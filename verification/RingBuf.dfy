/** ringbuf.c: a ring of bytes with two pointers and a wrap flag. */
module RingBuf {
  import opened CTypes

  function Min(a: nat, b: nat): nat { if a < b then a else b }

  // ----- on values --------------------------------------------------------------------------

  /** Capacity, pointers, flag, and the bytes that were written and not yet read. */
  datatype Ring = Ring(cap: nat, read: nat, write: nat, ahead: bool, content: seq<byte>)

  predicate RingOk(r: Ring) {
    && r.read <= r.cap && r.write <= r.cap
    && (if r.ahead then 0 < r.write <= r.read else r.read <= r.write)
    && |r.content| == (if r.ahead then r.cap - r.read + r.write else r.write - r.read)
  }

  function Free(r: Ring): nat
    requires RingOk(r)
  {
    r.cap - |r.content|
  }

  /** What a read of sz bytes leaves; it returns as many bytes as there are, up to sz. */
  function AfterRead(r: Ring, sz: nat): Ring
    requires RingOk(r)
  {
    var n := Min(sz, |r.content|);
    if r.ahead && n > r.cap - r.read
    then Ring(r.cap, n - (r.cap - r.read), r.write, false, r.content[n..])
    else Ring(r.cap, r.read + n, r.write, r.ahead, r.content[n..])
  }

  /** What a write of src leaves; it accepts as many bytes as are free. In the wrapped state the
      write pointer stays where it was unless the code is `repaired`. */
  function AfterWrite(r: Ring, src: seq<byte>, repaired: bool): Ring
    requires RingOk(r)
  {
    var n := Min(|src|, Free(r));
    if r.ahead then (if repaired then r.(write := r.write + n, content := r.content + src[..n]) else r)
    else if n > r.cap - r.write
    then Ring(r.cap, r.read, n - (r.cap - r.write), true, r.content + src[..n])
    else Ring(r.cap, r.read, r.write + n, false, r.content + src[..n])
  }

  /** The write accepts bytes that nobody will read. */
  predicate Loses(r: Ring, src: seq<byte>)
    requires RingOk(r)
  {
    r.ahead && Free(r) > 0 && src != []
  }

  lemma ReadKeeps(r: Ring, sz: nat)
    requires RingOk(r)
    ensures RingOk(AfterRead(r, sz))
  {}

  lemma WriteKeeps(r: Ring, src: seq<byte>, repaired: bool)
    requires RingOk(r)
    ensures RingOk(AfterWrite(r, src, repaired))
    ensures AfterWrite(r, src, repaired).content == r.content + src[..Min(|src|, Free(r))]
      <==> repaired || !Loses(r, src)
  {
    if r.ahead && !repaired && Loses(r, src) {
      assert |r.content + src[..Min(|src|, Free(r))]| > |r.content|;
    }
  }

  // ----- the code ---------------------------------------------------------------------------

  class RingBuffer {
    const buf: array<byte>
    var writePtr: nat
    var readPtr: nat
    var readIsAhead: bool

    ghost predicate Valid()
      reads this
    {
      && readPtr <= buf.Length && writePtr <= buf.Length
      && (if readIsAhead then 0 < writePtr <= readPtr else readPtr <= writePtr)
    }

    ghost function Content(): seq<byte>
      requires Valid()
      reads this, buf
    {
      if readIsAhead then buf[readPtr..] + buf[..writePtr] else buf[readPtr..writePtr]
    }

    ghost function Value(): (r: Ring)
      requires Valid()
      reads this, buf
      ensures RingOk(r)
    {
      Ring(buf.Length, readPtr, writePtr, readIsAhead, Content())
    }

    /** ringbuf_init. */
    constructor (buf: array<byte>)
      ensures Valid() && this.buf == buf && Value() == Ring(buf.Length, 0, 0, false, [])
    {
      this.buf := buf;
      writePtr, readPtr, readIsAhead := 0, 0, false;
    }

    /** ring_memcpy out of the ring. */
    method CopyOut(dst: array<byte>, at: nat, from: nat, n: nat)
      requires dst != buf && at + n <= dst.Length && from + n <= buf.Length
      modifies dst
      ensures dst[..at] == old(dst[..at]) && dst[at..at + n] == buf[from..from + n]
    {
      for i := 0 to n
        invariant dst[..at] == old(dst[..at]) && dst[at..at + i] == buf[from..from + i]
      {
        dst[at + i] := buf[from + i];
        assert dst[at..at + i + 1] == dst[at..at + i] + [buf[from + i]];
      }
    }

    /** ring_memcpy into the ring. */
    method CopyIn(at: nat, src: seq<byte>, from: nat, n: nat)
      requires at + n <= buf.Length && from + n <= |src|
      modifies buf
      ensures buf[..] == old(buf[..at]) + src[from..from + n] + old(buf[at + n..])
    {
      for i := 0 to n
        invariant buf[..] == old(buf[..at]) + src[from..from + i] + old(buf[at + i..])
      {
        ghost var before := buf[..];
        var c := src[from + i];
        buf[at + i] := c;
        assert buf[..] == before[at + i := c];
        assert src[from..from + i + 1] == src[from..from + i] + [c];
      }
    }

    /** ringbuf_read. */
    method Read(dst: array<byte>, sz: nat) returns (progress: nat)
      requires Valid() && dst != buf && sz <= dst.Length
      modifies this, dst
      ensures Valid() && Value() == AfterRead(old(Value()), sz)
      ensures progress == Min(sz, |old(Content())|) && dst[..progress] == old(Content())[..progress]
    {
      if readIsAhead {
        progress := ReadWrapped(dst, sz);
      } else {
        var ioSz := Min(writePtr - readPtr, sz);
        CopyOut(dst, 0, readPtr, ioSz);
        progress := ioSz;
        readPtr := readPtr + ioSz;
      }
    }

    /** The wrapped branch of ringbuf_read. */
    method ReadWrapped(dst: array<byte>, sz: nat) returns (progress: nat)
      requires Valid() && readIsAhead && dst != buf && sz <= dst.Length
      modifies this, dst
      ensures Valid() && Value() == AfterRead(old(Value()), sz)
      ensures progress == Min(sz, |old(Content())|) && dst[..progress] == old(Content())[..progress]
    {
      hide Content;
      ghost var content := Content();
      assert RingOk(Value());
      progress := Min(buf.Length - readPtr, sz);
      ReadHigh(dst, progress);
      var ioSz := Min(writePtr, sz - progress);
      if ioSz > 0 {
        ReadLow(dst, progress, ioSz);
        TwoReads(content, progress, ioSz);
        progress := progress + ioSz;
      }
    }

    /** The bytes up to the end of the buffer. */
    method ReadHigh(dst: array<byte>, n: nat)
      requires Valid() && readIsAhead && dst != buf && n <= dst.Length && readPtr + n <= buf.Length
      modifies this, dst
      ensures Valid() && readIsAhead && readPtr == old(readPtr) + n && writePtr == old(writePtr)
      ensures dst[..n] == old(Content())[..n] && Content() == old(Content())[n..]
    {
      ghost var high, low := buf[readPtr..], buf[..writePtr];
      CopyOut(dst, 0, readPtr, n);
      readPtr := readPtr + n;
      assert high[n..] + low == (high + low)[n..];
    }

    /** The bytes from the start of the buffer, when the others are read. */
    method ReadLow(dst: array<byte>, at: nat, n: nat)
      requires Valid() && readIsAhead && readPtr == buf.Length && 0 < n <= writePtr
      requires dst != buf && at + n <= dst.Length
      modifies this, dst
      ensures Valid() && !readIsAhead && readPtr == n && writePtr == old(writePtr)
      ensures dst[..at + n] == old(dst[..at]) + old(Content())[..n] && Content() == old(Content())[n..]
    {
      ghost var low := buf[..writePtr];
      assert buf[readPtr..] == [] && Content() == low;
      CopyOut(dst, at, 0, n);
      assert dst[..at + n] == dst[..at] + dst[at..at + n];
      assert buf[0..n] == low[..n] && buf[n..writePtr] == low[n..];
      readIsAhead := false;
      readPtr := n;
    }

    /** ringbuf_write: in the wrapped state the bytes are stored and reported, but write_ptr does
        not move. */
    method Write(src: seq<byte>) returns (progress: nat)
      requires Valid()
      modifies this, buf
      ensures Valid() && Value() == AfterWrite(old(Value()), src, false)
      ensures progress == Min(|src|, Free(old(Value())))
    {
      if readIsAhead {
        var ioSz := Min(readPtr - writePtr, |src|);
        CopyIn(writePtr, src, 0, ioSz);
        progress := ioSz;
      } else {
        progress := WriteForward(src);
      }
    }

    /** ringbuf_write with the pointer moved in the wrapped state, as it is meant. */
    method WriteRepaired(src: seq<byte>) returns (progress: nat)
      requires Valid()
      modifies this, buf
      ensures Valid() && Value() == AfterWrite(old(Value()), src, true)
      ensures progress == Min(|src|, Free(old(Value())))
    {
      if readIsAhead {
        hide Content;
        assert RingOk(Value());
        progress := Min(readPtr - writePtr, |src|);
        WriteWrapped(src, progress);
      } else {
        progress := WriteForward(src);
      }
    }

    /** The wrapped branch with the pointer moved. */
    method WriteWrapped(src: seq<byte>, n: nat)
      requires Valid() && readIsAhead && n <= |src| && writePtr + n <= readPtr
      modifies this, buf
      ensures Valid() && readIsAhead && readPtr == old(readPtr) && writePtr == old(writePtr) + n
      ensures Content() == old(Content()) + src[..n]
    {
      ghost var high, low := buf[readPtr..], buf[..writePtr];
      CopyIn(writePtr, src, 0, n);
      assert buf[readPtr..] == buf[..][readPtr..] == high;
      assert buf[..writePtr + n] == buf[..][..writePtr + n] == low + src[..n];
      writePtr := writePtr + n;
      assert high + (low + src[..n]) == high + low + src[..n];
    }

    /** The other branch of ringbuf_write. */
    method WriteForward(src: seq<byte>) returns (progress: nat)
      requires Valid() && !readIsAhead
      modifies this, buf
      ensures Valid() && Value() == AfterWrite(old(Value()), src, false)
      ensures progress == Min(|src|, Free(old(Value())))
    {
      ghost var before, content := Value(), Content();
      var ioSz := Min(buf.Length - writePtr, |src|);
      CopyIn(writePtr, src, 0, ioSz);
      writePtr := writePtr + ioSz;
      progress := ioSz;
      assert buf[readPtr..writePtr] == content + src[..progress];
      ioSz := Min(readPtr, |src| - progress);
      if ioSz > 0 {
        WrapAround(src, progress, ioSz);
        assert content + src[..progress] + src[progress..progress + ioSz] == content + src[..progress + ioSz];
        progress := progress + ioSz;
      }
    }

    /** The rest of a write that came to the end of the buffer goes to its start. */
    method WrapAround(src: seq<byte>, progress: nat, ioSz: nat)
      requires Valid() && !readIsAhead && writePtr == buf.Length
      requires 0 < ioSz <= readPtr && progress + ioSz <= |src|
      modifies this, buf
      ensures Valid() && readIsAhead && readPtr == old(readPtr) && writePtr == ioSz
      ensures Content() == old(Content()) + src[progress..progress + ioSz]
    {
      CopyIn(0, src, progress, ioSz);
      writePtr := ioSz;
      readIsAhead := true;
      assert buf[..ioSz] == buf[..][..ioSz] && buf[readPtr..] == buf[..][readPtr..];
    }
  }

  lemma TwoReads(content: seq<byte>, n: nat, m: nat)
    requires n + m <= |content|
    ensures content[..n + m] == content[..n] + content[n..][..m]
    ensures content[n + m..] == content[n..][m..]
  {}

  // ----- runs -------------------------------------------------------------------------------

  datatype Op = Read(sz: nat) | Write(src: seq<byte>)

  /** The ring, all bytes that writes accepted and all that reads returned. */
  datatype History = History(ring: Ring, accepted: seq<byte>, returned: seq<byte>, lost: nat)

  function Step(h: History, op: Op, repaired: bool): History
    requires RingOk(h.ring)
  {
    match op
    case Read(sz) =>
      h.(ring := AfterRead(h.ring, sz), returned := h.returned + h.ring.content[..Min(sz, |h.ring.content|)])
    case Write(src) =>
      var n := Min(|src|, Free(h.ring));
      h.(ring := AfterWrite(h.ring, src, repaired), accepted := h.accepted + src[..n],
         lost := h.lost + (if Loses(h.ring, src) && !repaired then n else 0))
  }

  function Start(cap: nat): History { History(Ring(cap, 0, 0, false, []), [], [], 0) }

  function After(cap: nat, ops: seq<Op>, repaired: bool): (h: History)
    ensures RingOk(h.ring)
  {
    if ops == [] then Start(cap)
    else
      var h := After(cap, ops[..|ops| - 1], repaired);
      var op := ops[|ops| - 1];
      if op.Read? then ReadKeeps(h.ring, op.sz); Step(h, op, repaired)
      else WriteKeeps(h.ring, op.src, repaired); Step(h, op, repaired)
  }

  /** Some write of the run is made in the wrapped state with room left. */
  predicate HasLoss(cap: nat, ops: seq<Op>) {
    exists k :: 0 <= k < |ops| && LossAt(cap, ops, k)
  }

  predicate LossAt(cap: nat, ops: seq<Op>, k: nat)
    requires k < |ops|
  {
    ops[k].Write? && Loses(After(cap, ops[..k], false).ring, ops[k].src)
  }

  /** Accepted bytes were returned, are in the ring, or were lost. */
  predicate Accounted(h: History) {
    && |h.accepted| == |h.returned| + |h.ring.content| + h.lost
    && (h.lost == 0 ==> h.accepted == h.returned + h.ring.content)
  }

  lemma StepAccounted(h: History, op: Op, repaired: bool)
    requires RingOk(h.ring) && Accounted(h)
    ensures Accounted(Step(h, op, repaired))
    ensures repaired ==> Step(h, op, repaired).lost == h.lost
  {
    if op.Write? {
      var n := Min(|op.src|, Free(h.ring));
      assert h.returned + (h.ring.content + op.src[..n]) == h.returned + h.ring.content + op.src[..n];
    } else {
      var n := Min(op.sz, |h.ring.content|);
      var c := h.ring.content;
      assert c == c[..n] + c[n..];
      assert h.returned + c[..n] + c[n..] == h.returned + (c[..n] + c[n..]);
    }
  }

  lemma {:induction false} BytesAccounted(cap: nat, ops: seq<Op>, repaired: bool)
    ensures Accounted(After(cap, ops, repaired))
    ensures repaired ==> After(cap, ops, repaired).lost == 0
    decreases |ops|
  {
    if ops != [] {
      BytesAccounted(cap, ops[..|ops| - 1], repaired);
      StepAccounted(After(cap, ops[..|ops| - 1], repaired), ops[|ops| - 1], repaired);
    }
  }

  lemma {:induction false} LossCounted(cap: nat, ops: seq<Op>)
    ensures After(cap, ops, false).lost > 0 <==> HasLoss(cap, ops)
    decreases |ops|
  {
    if ops != [] {
      var front := ops[..|ops| - 1];
      LossCounted(cap, front);
      forall k | 0 <= k < |front| ensures LossAt(cap, front, k) == LossAt(cap, ops, k) {
        assert front[..k] == ops[..k];
      }
      if HasLoss(cap, front) {
        var k :| 0 <= k < |front| && LossAt(cap, front, k);
        assert LossAt(cap, ops, k);
      }
      if LossAt(cap, ops, |ops| - 1) {
        assert HasLoss(cap, ops);
      }
    }
  }

  /** As it is written, the ring is a first-in first-out queue over a run exactly when the run makes
      no write in the wrapped state with room left. */
  lemma FifoExact(cap: nat, ops: seq<Op>)
    ensures (
      var h := After(cap, ops, false);
      h.accepted == h.returned + h.ring.content <==> !HasLoss(cap, ops))
  {
    BytesAccounted(cap, ops, false);
    LossCounted(cap, ops);
  }

  /** Such a write exists for a ring of two bytes already: the fifth operation is reported to have
      accepted a byte, and it is lost. */
  lemma LossHappens()
    ensures (
      var ops := [Write([1, 2]), Read(1), Write([3]), Read(1), Write([4])];
      && HasLoss(2, ops)
      && After(2, ops, false).accepted == [1, 2, 3, 4]
      && After(2, ops, false).returned + After(2, ops, false).ring.content == [1, 2, 3])
  {
    var ops := [Write([1, 2]), Read(1), Write([3]), Read(1), Write([4])];
    assert ops[..4] == [Write([1, 2]), Read(1), Write([3]), Read(1)];
    assert ops[..4][..3] == [Write([1, 2]), Read(1), Write([3])];
    assert ops[..4][..3][..2] == [Write([1, 2]), Read(1)];
    assert ops[..4][..3][..2][..1] == [Write([1, 2])];
    assert ops[..4][..3][..2][..1][..0] == [];
    var h1 := After(2, [Write([1, 2])], false);
    assert h1 == History(Ring(2, 0, 2, false, [1, 2]), [1, 2], [], 0);
    var h2 := After(2, [Write([1, 2]), Read(1)], false);
    assert h2 == History(Ring(2, 1, 2, false, [2]), [1, 2], [1], 0);
    var h3 := After(2, [Write([1, 2]), Read(1), Write([3])], false);
    assert h3 == History(Ring(2, 1, 1, true, [2, 3]), [1, 2, 3], [1], 0);
    var h4 := After(2, ops[..4], false);
    assert h4 == History(Ring(2, 2, 1, true, [3]), [1, 2, 3], [1, 2], 0);
    assert LossAt(2, ops, 4);
  }

  /** With the pointer moved it is one over every run. */
  lemma RepairedIsFifo(cap: nat, ops: seq<Op>)
    ensures (
      var h := After(cap, ops, true);
      h.accepted == h.returned + h.ring.content && |h.ring.content| <= cap)
  {
    BytesAccounted(cap, ops, true);
    CapacityKept(cap, ops, true);
  }

  lemma {:induction false} CapacityKept(cap: nat, ops: seq<Op>, repaired: bool)
    ensures After(cap, ops, repaired).ring.cap == cap
    decreases |ops|
  {
    if ops != [] {
      CapacityKept(cap, ops[..|ops| - 1], repaired);
    }
  }
}
