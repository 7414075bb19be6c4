/** fifo.c and fifo.h: a byte queue in a power-of-two buffer, with 32-bit indices that run
    freely and wrap, masked on use, and copies in two segments. */
module Fifo {
  import opened Bits

  type Byte = bv8

  /** struct fifo; `head` is `in` and `tail` is `out`. */
  datatype Ring = Ring(buf: seq<Byte>, head: nat, tail: nat)

  /** A difference of two unsigned ints. */
  function Sub32(x: int, y: int): nat {
    (x - y) % TWO32
  }

  /** fifo_len. */
  function Len(r: Ring): nat {
    Sub32(r.head, r.tail)
  }

  /** fifo_room. */
  function Room(r: Ring): nat {
    RoomOf(|r.buf|, r.head, r.tail)
  }

  function RoomOf(size: nat, head: nat, tail: nat): nat {
    (Sub32(size, head) + tail) % TWO32
  }

  /** `x & (size - 1)`. */
  function Slot(r: Ring, x: nat): nat
    requires |r.buf| > 0
  {
    And(x, |r.buf| - 1)
  }

  ghost predicate Valid(r: Ring) {
    && IsPow2(|r.buf|) && |r.buf| < TWO32
    && r.head < TWO32 && r.tail < TWO32
    && Len(r) <= |r.buf|
  }

  /** The slot `i` places after slot `o`, for `i` up to one turn. */
  function Wrap(o: nat, i: nat, size: nat): nat {
    if o + i < size then o + i else o + i - size
  }

  lemma WrapInside(o: nat, i: nat, size: nat)
    requires o < size && i <= size
    ensures Wrap(o, i, size) < size
  {
  }

  /** `len` bytes from slot `o` on, around the end of the buffer. */
  ghost function Around(buf: seq<Byte>, o: nat, len: nat): (s: seq<Byte>)
    requires o < |buf| && len <= |buf|
    ensures |s| == len
  {
    seq(len, i requires 0 <= i < len => buf[Wrap(o, i, |buf|)])
  }

  /** The queued bytes, oldest first. */
  ghost function Contents(r: Ring): (s: seq<Byte>)
    requires Valid(r)
    ensures |s| == Len(r)
  {
    Around(r.buf, r.tail % |r.buf|, Len(r))
  }

  // ----- copies in two segments

  /** memcpy of `data` into `buf` at `at`. */
  function Copied(buf: seq<Byte>, at: nat, data: seq<Byte>): (r: seq<Byte>)
    requires at + |data| <= |buf|
    ensures |r| == |buf|
    ensures forall p :: 0 <= p < |buf| ==>
      r[p] == if at <= p < at + |data| then data[p - at] else buf[p]
  {
    buf[..at] + data + buf[at + |data|..]
  }

  /** The first segment runs from `at` to the end of the buffer, the rest goes to its start. */
  function PutSegs(buf: seq<Byte>, at: nat, data: seq<Byte>): (r: seq<Byte>)
    requires at < |buf| && |data| <= |buf|
    ensures |r| == |buf|
  {
    var l := Min(|data|, |buf| - at);
    Copied(Copied(buf, at, data[..l]), 0, data[l..])
  }

  function GetSegs(buf: seq<Byte>, at: nat, n: nat): (r: seq<Byte>)
    requires at < |buf| && n <= |buf|
    ensures |r| == n
  {
    var l := Min(n, |buf| - at);
    buf[at..at + l] + buf[..n - l]
  }

  /** Both segments of a put land behind the contents and touch none of them. */
  lemma PutSegsAppend(buf: seq<Byte>, o: nat, len: nat, data: seq<Byte>)
    requires o < |buf| && len + |data| <= |buf|
    ensures Wrap(o, len, |buf|) < |buf|
    ensures Around(PutSegs(buf, Wrap(o, len, |buf|), data), o, len + |data|) == Around(buf, o, len) + data
  {
    WrapInside(o, len, |buf|);
    var buf' := PutSegs(buf, Wrap(o, len, |buf|), data);
    forall i | 0 <= i < len + |data|
      ensures Around(buf', o, len + |data|)[i] == (Around(buf, o, len) + data)[i]
    {
      PutSegsAt(buf, o, len, data, i);
    }
  }

  lemma PutSegsAt(buf: seq<Byte>, o: nat, len: nat, data: seq<Byte>, i: nat)
    requires o < |buf| && len + |data| <= |buf| && i < len + |data|
    ensures Wrap(o, len, |buf|) < |buf| && Wrap(o, i, |buf|) < |buf|
    ensures PutSegs(buf, Wrap(o, len, |buf|), data)[Wrap(o, i, |buf|)]
         == if i < len then buf[Wrap(o, i, |buf|)] else data[i - len]
  {
    WrapOffsets(o, len, i, |data|, |buf|);
    PutSegsIndex(buf, Wrap(o, len, |buf|), data, Wrap(o, i, |buf|));
  }

  /** Where place `i` lies relative to the place where `d` more bytes go. */
  lemma WrapOffsets(o: nat, len: nat, i: nat, d: nat, size: nat)
    requires o < size && len + d <= size && i < len + d
    ensures var at, p := Wrap(o, len, size), Wrap(o, i, size);
      && at < size && p < size
      && (i < len ==> !(at <= p < at + d) && !(p + size < at + d))
      && (i >= len ==> (at <= p < at + d && p - at == i - len) || (p < at && p + size < at + d && p + size - at == i - len))
  {
  }

  /** What one slot of the buffer holds after a put. */
  lemma PutSegsIndex(buf: seq<Byte>, at: nat, data: seq<Byte>, p: nat)
    requires at < |buf| && |data| <= |buf| && p < |buf|
    ensures PutSegs(buf, at, data)[p]
         == if at <= p < at + |data| then data[p - at]
            else if p + |buf| < at + |data| then data[p + |buf| - at]
            else buf[p]
  {
    var l := Min(|data|, |buf| - at);
    assert Copied(buf, at, data[..l])[p] == if at <= p < at + l then data[p - at] else buf[p];
    assert |data[l..]| == |data| - l;
    if p < |data| - l {
      assert data[l..][p] == data[l + p];
    }
  }

  /** The segments of a get are the oldest bytes, and the rest starts behind them. */
  lemma GetSegsTake(buf: seq<Byte>, o: nat, len: nat, n: nat)
    requires o < |buf| && n <= len <= |buf|
    ensures Wrap(o, n, |buf|) < |buf|
    ensures Around(buf, o, len) == GetSegs(buf, o, n) + Around(buf, Wrap(o, n, |buf|), len - n)
  {
  }

  // ----- fifo_put and fifo_get

  function PutCount(r: Ring, len: nat): nat {
    Min(len, Room(r))
  }

  /** fifo_put. */
  function AfterPut(r: Ring, data: seq<Byte>): Ring
    requires |r.buf| > 0 && Slot(r, r.head) < |r.buf| && PutCount(r, |data|) <= |r.buf|
  {
    var n := PutCount(r, |data|);
    Ring(PutSegs(r.buf, Slot(r, r.head), data[..n]), (r.head + n) % TWO32, r.tail)
  }

  function GetCount(r: Ring, len: nat): nat {
    Min(len, Len(r))
  }

  function GetBytes(r: Ring, len: nat): seq<Byte>
    requires |r.buf| > 0 && Slot(r, r.tail) < |r.buf| && Len(r) <= |r.buf|
  {
    GetSegs(r.buf, Slot(r, r.tail), GetCount(r, len))
  }

  /** The indices after `n` bytes left; an empty queue starts over at zero. */
  function Advanced(r: Ring, n: nat): Ring {
    var tail := (r.tail + n) % TWO32;
    if r.head == tail then r.(head := 0, tail := 0) else r.(tail := tail)
  }

  /** fifo_get. */
  function AfterGet(r: Ring, len: nat): Ring {
    Advanced(r, GetCount(r, len))
  }

  // ----- index arithmetic

  lemma SlotIsMod(r: Ring, x: nat)
    requires Valid(r)
    ensures |r.buf| > 0 && Slot(r, x) == x % |r.buf| < |r.buf|
  {
    var k: nat :| |r.buf| == Pow2(k);
    AndMask(x, k);
  }

  lemma SmallMod(y: nat, size: nat)
    requires 0 < size && y < 2 * size
    ensures y % size == if y < size then y else y - size
  {
    DivModUnique(y, size, if y < size then 0 else 1, if y < size then y else y - size);
  }

  lemma WrapIsMod(x: nat, i: nat, size: nat)
    requires 0 < size && i <= size
    ensures (x + i) % size == Wrap(x % size, i, size)
  {
    var q, o := x / size, x % size;
    assert (q * size + (o + i)) % size == (o + i) % size by {
      ModShift(o + i, q, size);
    }
    assert x + i == q * size + (o + i);
    SmallMod(o + i, size);
  }

  /** Wrapping the index at 32 bits does not move the slot. */
  lemma WideMod(r: Ring, x: nat)
    requires Valid(r)
    ensures |r.buf| > 0 && (x % TWO32) % |r.buf| == x % |r.buf|
  {
    var k: nat :| |r.buf| == Pow2(k);
    if k > 32 {
      Pow2Mono(32, k);
      Pow2Values();
    }
    Pow2Divides(|r.buf|, k);
    ModMod(x, |r.buf|, Pow2(32 - k));
  }

  /** Moving an index by `i` moves its slot by `i`, through any wrap. */
  lemma Moved32(r: Ring, x: nat, i: nat)
    requires Valid(r) && i <= |r.buf|
    ensures |r.buf| > 0 && ((x + i) % TWO32) % |r.buf| == Wrap(x % |r.buf|, i, |r.buf|)
  {
    WideMod(r, x + i);
    WrapIsMod(x, i, |r.buf|);
  }

  lemma Sub32Cases(x: nat, y: nat)
    requires x < TWO32 && y < TWO32
    ensures Sub32(x, y) == if x >= y then x - y else x - y + TWO32
  {
  }

  /** fifo_room is what is left of the buffer. */
  lemma RoomLeft(r: Ring)
    requires Valid(r)
    ensures Room(r) == |r.buf| - Len(r)
  {
    Sub32Cases(r.head, r.tail);
    Sub32Cases(|r.buf|, r.head);
  }

  lemma HeadIs(r: Ring)
    requires Valid(r)
    ensures r.head == (r.tail + Len(r)) % TWO32
  {
    Sub32Cases(r.head, r.tail);
  }

  /** Data goes in where the contents end. */
  lemma HeadSlot(r: Ring)
    requires Valid(r)
    ensures |r.buf| > 0 && Slot(r, r.head) == Wrap(r.tail % |r.buf|, Len(r), |r.buf|) < |r.buf|
  {
    SlotIsMod(r, r.head);
    HeadIs(r);
    Moved32(r, r.tail, Len(r));
  }

  lemma LenGrows(r: Ring, n: nat, r': Ring)
    requires Valid(r) && Len(r) + n <= |r.buf|
    requires r'.head == (r.head + n) % TWO32 && r'.tail == r.tail
    ensures Len(r') == Len(r) + n
  {
    Sub32Cases(r.head, r.tail);
    Sub32Cases(r'.head, r'.tail);
  }

  lemma LenShrinks(r: Ring, n: nat, r': Ring)
    requires Valid(r) && n <= Len(r) && r' == Advanced(r, n)
    ensures Valid(r') && Len(r') == Len(r) - n
    ensures Len(r') > 0 ==> r'.tail == (r.tail + n) % TWO32
  {
    Sub32Cases(r.head, r.tail);
    Sub32Cases(r.head, (r.tail + n) % TWO32);
  }

  // ----- what the calls do to the queue

  /** fifo_put appends as many bytes as there is room for, and reports how many. */
  lemma PutAppends(r: Ring, data: seq<Byte>) returns (r': Ring)
    requires Valid(r)
    ensures |r.buf| > 0 && Slot(r, r.head) < |r.buf| && PutCount(r, |data|) <= |r.buf|
    ensures r' == AfterPut(r, data) && Valid(r') && |r'.buf| == |r.buf|
    ensures PutCount(r, |data|) == Min(|data|, |r.buf| - |Contents(r)|)
    ensures Contents(r') == Contents(r) + data[..PutCount(r, |data|)]
  {
    HeadSlot(r);
    RoomLeft(r);
    var n := PutCount(r, |data|);
    r' := AfterPut(r, data);
    LenGrows(r, n, r');
    PutSegsAppend(r.buf, r.tail % |r.buf|, Len(r), data[..n]);
  }

  /** fifo_get takes the oldest bytes and leaves the rest, also when the indices start over. */
  lemma GetRemoves(r: Ring, len: nat) returns (r': Ring)
    requires Valid(r)
    ensures |r.buf| > 0 && Slot(r, r.tail) < |r.buf|
    ensures r' == AfterGet(r, len) && Valid(r') && r'.buf == r.buf
    ensures GetCount(r, len) == Min(len, |Contents(r)|) == |GetBytes(r, len)|
    ensures Contents(r) == GetBytes(r, len) + Contents(r')
  {
    SlotIsMod(r, r.tail);
    var n := GetCount(r, len);
    r' := AfterGet(r, len);
    LenShrinks(r, n, r');
    Moved32(r, r.tail, n);
    GetSegsTake(r.buf, r.tail % |r.buf|, Len(r), n);
  }

  // ----- every run

  datatype Call = PutCall(data: seq<Byte>) | GetCall(len: nat)

  /** One call, with the bytes that it accepted and the bytes that it handed out. */
  datatype Moved = Moved(accepted: seq<Byte>, out: seq<Byte>, ring: Ring)

  ghost function Perform(r: Ring, c: Call): Moved
    requires Valid(r)
  {
    SlotIsMod(r, r.head);
    SlotIsMod(r, r.tail);
    RoomLeft(r);
    match c
    case PutCall(data) => Moved(data[..PutCount(r, |data|)], [], AfterPut(r, data))
    case GetCall(len) => Moved([], GetBytes(r, len), AfterGet(r, len))
  }

  /** A call neither loses, invents nor reorders a byte. */
  lemma PerformMoves(r: Ring, c: Call, m: Moved)
    requires Valid(r) && m == Perform(r, c)
    ensures Valid(m.ring) && |m.ring.buf| == |r.buf|
    ensures Contents(r) + m.accepted == m.out + Contents(m.ring)
  {
    match c
    case PutCall(data) =>
      var r' := PutAppends(r, data);
    case GetCall(len) =>
      var r' := GetRemoves(r, len);
  }

  /** A trace of calls on a queue of the given size, from fifo_alloc on. */
  ghost predicate IsRun(size: nat, calls: seq<Call>, trace: seq<Moved>) {
    && |trace| == |calls| + 1
    && |trace[0].ring.buf| == size && trace[0].ring.head == trace[0].ring.tail == 0
    && trace[0].accepted == trace[0].out == []
    && forall i :: 0 <= i < |calls| ==>
         Valid(trace[i].ring) ==> trace[i + 1] == Perform(trace[i].ring, calls[i])
  }

  function Accepted(trace: seq<Moved>): seq<Byte> {
    if trace == [] then [] else Accepted(trace[..|trace| - 1]) + trace[|trace| - 1].accepted
  }

  function Out(trace: seq<Moved>): seq<Byte> {
    if trace == [] then [] else Out(trace[..|trace| - 1]) + trace[|trace| - 1].out
  }

  /** Over any sequence of calls, through any number of index wraps: the bytes handed out,
      followed by the bytes still queued, are the bytes accepted, in order and once each. */
  lemma {:induction false} ExactlyOnce(size: nat, calls: seq<Call>, trace: seq<Moved>, k: nat)
    requires IsPow2(size) && size < TWO32 && IsRun(size, calls, trace) && k < |trace|
    ensures Valid(trace[k].ring) && |trace[k].ring.buf| == size
    ensures Accepted(trace[..k + 1]) == Out(trace[..k + 1]) + Contents(trace[k].ring)
  {
    assert trace[..k + 1][..k] == trace[..k];
    if k == 0 {
      assert Accepted(trace[..1]) == Out(trace[..1]) == [];
    } else {
      ExactlyOnce(size, calls, trace, k - 1);
      PerformMoves(trace[k - 1].ring, calls[k - 1], trace[k]);
      Chain(Accepted(trace[..k]), Out(trace[..k]), Contents(trace[k - 1].ring), trace[k].accepted,
            trace[k].out, Contents(trace[k].ring));
    }
  }

  lemma Chain(a: seq<Byte>, o: seq<Byte>, c: seq<Byte>, accepted: seq<Byte>, out: seq<Byte>, c': seq<Byte>)
    requires a == o + c && c + accepted == out + c'
    ensures a + accepted == (o + out) + c'
  {
    assert a + accepted == o + (c + accepted);
    assert o + (out + c') == (o + out) + c';
  }

  // ----- the fifo in place

  /** memcpy(dst + at, src + from, n) of two different buffers. */
  method CopyBytes(dst: array<Byte>, at: nat, src: array<Byte>, from: nat, n: nat)
    requires dst != src && at + n <= dst.Length && from + n <= src.Length
    modifies dst
    ensures dst[..] == Copied(old(dst[..]), at, src[from..from + n])
  {
    forall i | 0 <= i < n {
      dst[at + i] := src[from + i];
    }
  }

  class FifoBuffer {
    const buffer: array<Byte>
    const size: nat
    var head: nat
    var tail: nat

    ghost function View(): Ring
      reads this, buffer
    {
      Ring(buffer[..], head, tail)
    }

    ghost predicate Ok()
      reads this, buffer
    {
      buffer.Length == size && Valid(View())
    }

    ghost function Queue(): seq<Byte>
      requires Ok()
      reads this, buffer
    {
      Contents(View())
    }

    /** fifo_alloc, for the power-of-two sizes that the masks are made for. */
    constructor (size: nat)
      requires IsPow2(size) && size < TWO32
      ensures Ok() && Queue() == [] && this.size == size && fresh(buffer)
    {
      buffer := new Byte[size](i => 0);
      this.size := size;
      head, tail := 0, 0;
    }

    /** The two copies of fifo_put, for the `n` bytes that fit. */
    method PutSegments(src: array<Byte>, at: nat, n: nat)
      requires src != buffer && n <= src.Length && at < buffer.Length == size && n <= size
      modifies buffer
      ensures buffer[..] == PutSegs(old(buffer[..]), at, src[..n])
    {
      var l := Min(n, size - at);
      assert src[0..0 + l] == src[..n][..l];
      CopyBytes(buffer, at, src, 0, l);
      assert src[l..l + (n - l)] == src[..n][l..];
      CopyBytes(buffer, 0, src, l, n - l);
    }

    /** fifo_put. */
    method Put(src: array<Byte>, len: nat) returns (n: nat)
      requires Ok() && src != buffer && len <= src.Length && len < TWO32
      modifies this`head, buffer
      ensures Ok() && n == Min(len, size - |old(Queue())|)
      ensures Queue() == old(Queue()) + src[..n]
    {
      ghost var was := View();
      assert Room(was) == size - Len(was) by {
        RoomLeft(was);
      }
      n := Min(len, RoomOf(size, head, tail));
      ghost var now := PutAppends(was, src[..n]);
      PutAll(src, n);
      assert View() == now;
    }

    /** The part of fifo_put that changes the fifo. */
    method PutAll(src: array<Byte>, n: nat)
      requires buffer.Length == size > 0 && Slot(View(), head) < size
      requires n == PutCount(View(), n) <= size && src != buffer && n <= src.Length
      modifies this`head, buffer
      ensures View() == AfterPut(old(View()), old(src[..n])) && src[..n] == old(src[..n])
    {
      assert src[..n][..n] == src[..n];
      PutSegments(src, And(head, size - 1), n);
      head := (head + n) % TWO32;
    }

    /** The two copies of fifo_get. */
    method GetSegments(dst: array<Byte>, at: nat, n: nat)
      requires dst != buffer && n <= dst.Length && at < buffer.Length == size && n <= size
      modifies dst
      ensures dst[..] == GetSegs(buffer[..], at, n) + old(dst[n..])
    {
      var l := Min(n, size - at);
      CopyBytes(dst, 0, buffer, at, l);
      assert dst[..l] == buffer[at..at + l] && dst[n..] == old(dst[n..]);
      CopyBytes(dst, l, buffer, 0, n - l);
    }

    /** fifo_get; without a buffer the bytes are dropped. */
    method Get(dst: array?<Byte>, len: nat) returns (n: nat)
      requires Ok() && dst != buffer && (dst == null || len <= dst.Length) && len < TWO32
      modifies this`head, this`tail, dst
      ensures Ok() && n == Min(len, |old(Queue())|)
      ensures Queue() == old(Queue())[n..]
      ensures dst != null ==> dst[..] == old(Queue())[..n] + old(dst[n..])
    {
      ghost var was := View();
      n := Min(len, Sub32(head, tail));
      ghost var now := GetRemoves(was, n);
      assert GetBytes(was, n) == Contents(was)[..n];
      if dst != null {
        GetSegments(dst, And(tail, size - 1), n);
      }
      tail := (tail + n) % TWO32;
      if head == tail {
        head, tail := 0, 0;
      }
      assert View() == now;
    }
  }
}
