/**
 The byte FIFO of fifo.c and fifo.h: a power-of-two buffer with free-running
 32-bit indices.  `Queue` is the sequence of stored bytes; put and get are
 proved to be the operations of a bounded byte queue for every size and every
 index value, including when the indices wrap.
 */
module Fifos {
  import opened Bits

  const U32: nat := 0x1_0000_0000

  type Byte = b: nat | b < 256

  /** `fifo_len`: unsigned difference of the indices. */
  function Len(in_: nat, out: nat): nat {
    (in_ - out) % U32
  }

  /** `fifo_room` */
  function Room(size: nat, in_: nat, out: nat): nat {
    (size - in_ + out) % U32
  }

  function Min(a: nat, b: nat): nat {
    if a < b then a else b
  }

  // --------------------------------------------------------------- arithmetic

  /** Adding on a 32-bit index and reducing modulo a power of two commute. */
  lemma WrapMod(x: nat, size: nat, c: nat)
    requires size > 0 && U32 == size * c
    ensures (x % U32) % size == x % size
  {
    var q, r := x / U32, x % U32;
    var q2, r2 := r / size, r % size;
    assert x == (q * c + q2) * size + r2 by {
      assert q * U32 == (q * c) * size;
      assert (q * c + q2) * size == (q * c) * size + q2 * size;
    }
    DivModUnique(x, size, q * c + q2, r2);
  }

  lemma ModAddMod(x: nat, y: nat, size: nat)
    requires size > 0
    ensures (x % size + y) % size == (x + y) % size
  {
    var q := x / size;
    var q2, r2 := (x % size + y) / size, (x % size + y) % size;
    assert x + y == (q + q2) * size + r2 by { assert (q + q2) * size == q * size + q2 * size; }
    DivModUnique(x + y, size, q + q2, r2);
  }

  lemma {:induction false} Divides(k: nat)
    requires k <= 31
    ensures exists c: nat :: U32 == Pow2(k) * c
    ensures Pow2(k) <= 0x8000_0000
    decreases 31 - k
  {
    assert Pow2(31) == 0x8000_0000 by { PowerThirtyOne(); }
    if k == 31 {
      assert U32 == Pow2(31) * 2;
    } else {
      Divides(k + 1);
      var c: nat :| U32 == Pow2(k + 1) * c;
      assert U32 == Pow2(k) * (2 * c) by { assert Pow2(k + 1) * c == Pow2(k) * (2 * c); }
    }
  }

  lemma PowerThirtyOne()
    ensures Pow2(31) == 0x8000_0000
  {
    assert Pow2(8) == 256;
    assert Pow2(16) == 256 * Pow2(8);
    assert Pow2(24) == 256 * Pow2(16);
    assert Pow2(31) == 128 * Pow2(24);
  }

  lemma SizeBound(k: nat)
    requires k <= 31
    ensures Pow2(k) <= 0x8000_0000
  {
    Divides(k);
  }

  /** Position y of a buffer walked at most once around. */
  function Wrap(y: nat, size: nat): (r: nat)
    requires y < 2 * size
    ensures r < size
  {
    if y < size then y else y - size
  }

  lemma ModIsWrap(y: nat, size: nat)
    requires size > 0 && y < 2 * size
    ensures y % size == Wrap(y, size)
  {
    if y < size { DivModUnique(y, size, 0, y); } else { DivModUnique(y, size, 1, y - size); }
  }

  /** The buffer offset of index x + i, where x is a 32-bit index. */
  lemma Offset(x: nat, i: nat, k: nat)
    requires k <= 31 && i <= Pow2(k)
    ensures x % Pow2(k) < Pow2(k)
    ensures ((x + i) % U32) % Pow2(k) == (x + i) % Pow2(k) == Wrap(x % Pow2(k) + i, Pow2(k))
  {
    var size := Pow2(k);
    Divides(k);
    var c: nat :| U32 == size * c;
    WrapMod(x + i, size, c);
    ModAddMod(x, i, size);
    ModIsWrap(x % size + i, size);
  }

  // ------------------------------------------------------------- the byte queue

  /** A bounded byte queue, with the partial puts and gets of the source. */
  function PutBytes(size: nat, q: seq<Byte>, data: seq<Byte>): (seq<Byte>, nat)
    requires |q| <= size
  {
    var n := Min(|data|, size - |q|);
    (q + data[..n], n)
  }

  function GetBytes(q: seq<Byte>, len: nat): (seq<Byte>, seq<Byte>) {
    var n := Min(len, |q|);
    (q[n..], q[..n])
  }

  datatype Op = PutOp(data: seq<Byte>) | GetOp(len: nat)

  /** The queue, all bytes accepted and all bytes delivered after some operations. */
  datatype Stream = Stream(queue: seq<Byte>, accepted: seq<Byte>, delivered: seq<Byte>)

  function Perform(size: nat, ops: seq<Op>): (r: Stream)
    ensures |r.queue| <= size
  {
    if ops == [] then Stream([], [], []) else
      var s := Perform(size, ops[..|ops| - 1]);
      match ops[|ops| - 1]
      case PutOp(data) =>
        var (q, n) := PutBytes(size, s.queue, data);
        Stream(q, s.accepted + data[..n], s.delivered)
      case GetOp(len) =>
        var (q, out) := GetBytes(s.queue, len);
        Stream(q, s.accepted, s.delivered + out)
  }

  /** Over any sequence of puts and gets, what was accepted is what was delivered
      followed by what is still stored: nothing lost, repeated or reordered. */
  lemma {:induction false} StreamPreserved(size: nat, ops: seq<Op>)
    ensures var r := Perform(size, ops); r.accepted == r.delivered + r.queue
  {
    if ops != [] {
      StreamPreserved(size, ops[..|ops| - 1]);
      var s := Perform(size, ops[..|ops| - 1]);
      match ops[|ops| - 1]
      case PutOp(data) =>
        var (q, n) := PutBytes(size, s.queue, data);
        assert s.delivered + q == (s.delivered + s.queue) + data[..n];
      case GetOp(len) =>
        var n := Min(len, |s.queue|);
        assert s.queue == s.queue[..n] + s.queue[n..];
        assert s.delivered + (s.queue[..n] + s.queue[n..]) == (s.delivered + s.queue[..n]) + s.queue[n..];
    }
  }

  // --------------------------------------------------------------- the buffer

  /** The len bytes of a circular buffer starting at offset base. */
  function Stored(buf: seq<Byte>, base: nat, len: nat): (q: seq<Byte>)
    requires base < |buf| && len <= |buf|
    ensures |q| == len
  {
    seq(len, i requires 0 <= i < len => buf[Wrap(base + i, |buf|)])
  }

  /** memcpy of d to offset off */
  function Overwrite(buf: seq<Byte>, off: nat, d: seq<Byte>): (r: seq<Byte>)
    requires off + |d| <= |buf|
    ensures |r| == |buf|
  {
    buf[..off] + d + buf[off + |d|..]
  }

  /** The two-part copy of a put appends to the stored bytes. */
  lemma TwoPartPut(buf: seq<Byte>, base: nat, len: nat, d: seq<Byte>)
    requires base < |buf| && len + |d| <= |buf|
    ensures var off := Wrap(base + len, |buf|);
            var l := Min(|d|, |buf| - off);
            Stored(Overwrite(Overwrite(buf, off, d[..l]), 0, d[l..]), base, len + |d|) == Stored(buf, base, len) + d
  {
    var off := Wrap(base + len, |buf|);
    var l := Min(|d|, |buf| - off);
    var r := Overwrite(Overwrite(buf, off, d[..l]), 0, d[l..]);
    forall i | 0 <= i < len + |d| ensures r[Wrap(base + i, |buf|)] == (Stored(buf, base, len) + d)[i] {
      var x := Wrap(base + i, |buf|);
      if i < len {
        assert r[x] == buf[x];
      }
    }
  }

  /** The two-part copy of a get reads the oldest bytes, and the rest stay. */
  lemma TwoPartGet(buf: seq<Byte>, base: nat, len: nat, n: nat)
    requires base < |buf| && n <= len <= |buf|
    ensures var l := Min(n, |buf| - base);
            buf[base..base + l] + buf[..n - l] == Stored(buf, base, len)[..n]
    ensures Stored(buf, Wrap(base + n, |buf|), len - n) == Stored(buf, base, len)[n..]
  {
    var l := Min(n, |buf| - base);
    var head := buf[base..base + l] + buf[..n - l];
    forall i | 0 <= i < n ensures head[i] == Stored(buf, base, len)[..n][i] {
      assert Wrap(base + i, |buf|) == if i < l then base + i else i - l;
    }
    var rest := Stored(buf, Wrap(base + n, |buf|), len - n);
    forall i | 0 <= i < len - n ensures rest[i] == Stored(buf, base, len)[n..][i] {
      assert Wrap(Wrap(base + n, |buf|) + i, |buf|) == Wrap(base + (n + i), |buf|);
    }
  }

  ghost predicate Shape(k: nat, buf: seq<Byte>, in_: nat, out: nat) {
    k <= 31 && |buf| == Pow2(k) && in_ < U32 && out < U32 && Len(in_, out) <= |buf|
  }

  /** The stored bytes, oldest first, from offset out % size. */
  ghost function Contents(k: nat, buf: seq<Byte>, in_: nat, out: nat): (q: seq<Byte>)
    requires Shape(k, buf, in_, out)
    ensures |q| == Len(in_, out) <= |buf|
  {
    Stored(buf, out % |buf|, Len(in_, out))
  }

  class Fifo {
    const buffer: array<Byte>
    const size: nat
    ghost const k: nat
    var in_: nat
    var out: nat

    ghost predicate Valid()
      reads this, buffer
    {
      size == buffer.Length && Shape(k, buffer[..], in_, out)
    }

    ghost function Queue(): (q: seq<Byte>)
      requires Valid()
      reads this, buffer
      ensures |q| == Len(in_, out) <= size
    {
      Contents(k, buffer[..], in_, out)
    }

    /** `fifo_alloc`; the size must be a power of two. */
    constructor (size: nat, ghost k: nat)
      requires k <= 31 && size == Pow2(k)
      ensures Valid() && fresh(buffer) && this.size == size && Queue() == []
    {
      buffer := new Byte[size](i => 0);
      this.size := size;
      this.k := k;
      in_, out := 0, 0;
    }

    /** memcpy into the buffer */
    method CopyIn(off: nat, d: seq<Byte>)
      requires off + |d| <= buffer.Length
      modifies buffer
      ensures buffer[..] == Overwrite(old(buffer[..]), off, d)
    {
      ghost var before := buffer[..];
      for j := 0 to |d|
        invariant buffer[..] == Overwrite(before, off, d[..j])
      {
        buffer[off + j] := d[j];
        assert d[..j + 1] == d[..j] + [d[j]];
      }
      assert d[..|d|] == d;
    }

    /** The two-part copy of n bytes to the offset that follows the stored ones. */
    method Append(off: nat, d: seq<Byte>, ghost base: nat, ghost len: nat)
      requires base < buffer.Length && len + |d| <= buffer.Length && off == Wrap(base + len, buffer.Length)
      modifies buffer
      ensures Stored(buffer[..], base, len + |d|) == Stored(old(buffer[..]), base, len) + d
    {
      var l := Min(|d|, buffer.Length - off);
      CopyIn(off, d[..l]);
      CopyIn(0, d[l..]);
      TwoPartPut(old(buffer[..]), base, len, d);
    }

    method Put(data: seq<Byte>) returns (n: nat)
      requires Valid() && |data| < U32
      modifies this`in_, buffer
      ensures Valid()
      ensures (Queue(), n) == PutBytes(size, old(Queue()), data)
      ensures n <= |data| && (n == |data| || |Queue()| == size)
      ensures Queue() == old(Queue()) + data[..n]
    {
      ghost var len := Len(in_, out);
      Indices(k, in_, out);
      n := Min(|data|, Room(size, in_, out));
      Append(And(in_, size - 1), data[..n], out % size, len);
      PutIndex(k, buffer[..], in_, out, n);
      in_ := (in_ + n) % U32;
    }

    /** The two copies out of the buffer. */
    method CopyOut(n: nat) returns (data: seq<Byte>)
      requires Valid() && n <= Len(in_, out)
      ensures data == Queue()[..n]
    {
      GetDelivers(k, buffer[..], in_, out, n);
      var off := And(out, size - 1);
      var l := Min(n, size - off);
      data := buffer[off..off + l] + buffer[..n - l];
      assert data == buffer[..][off..off + l] + buffer[..][..n - l];
    }

    /** Advancing the out index, and resetting both when they meet. */
    method Drop(n: nat)
      requires Valid() && n <= Len(in_, out)
      modifies this`in_, this`out
      ensures Valid() && Queue() == old(Queue())[n..]
      ensures Queue() == [] ==> in_ == out == 0
    {
      GetLeaves(k, buffer[..], in_, out, n);
      EmptyAtZero(k, buffer[..]);
      out := (out + n) % U32;
      if in_ == out { in_, out := 0, 0; }
    }

    /** With `keep` false (a null buffer in the source) the bytes are discarded. */
    method Get(len: nat, keep: bool) returns (n: nat, data: seq<Byte>)
      requires Valid() && len < U32
      modifies this`in_, this`out
      ensures Valid()
      ensures Queue() == GetBytes(old(Queue()), len).0 && n == |GetBytes(old(Queue()), len).1|
      ensures data == if keep then GetBytes(old(Queue()), len).1 else []
      ensures n <= len && (n == len || Queue() == []) && n <= |old(Queue())|
      ensures Queue() == old(Queue())[n..] && (keep ==> data == old(Queue())[..n])
      ensures Queue() == [] ==> in_ == out == 0
    {
      n := Min(len, Len(in_, out));
      data := [];
      if keep { data := CopyOut(n); }
      Drop(n);
    }
  }

  /** Any run of puts and gets on the buffer, through all wraps of its indices: the
      bytes accepted are the bytes delivered followed by the bytes stored, and all three
      are those of the byte queue. */
  method PerformOps(f: Fifo, ops: seq<Op>) returns (accepted: seq<Byte>, delivered: seq<Byte>)
    requires f.Valid() && f.Queue() == []
    requires forall i :: 0 <= i < |ops| ==> OpFits(ops[i])
    modifies f`in_, f`out, f.buffer
    ensures f.Valid() && accepted == delivered + f.Queue()
    ensures Stream(f.Queue(), accepted, delivered) == Perform(f.size, ops)
  {
    accepted, delivered := [], [];
    assert ops[..0] == [];
    for i := 0 to |ops|
      invariant f.Valid() && Stream(f.Queue(), accepted, delivered) == Perform(f.size, ops[..i])
    {
      assert ops[..i + 1][..i] == ops[..i];
      match ops[i]
      case PutOp(data) =>
        var n := f.Put(data);
        accepted := accepted + data[..n];
      case GetOp(len) =>
        var n, data := f.Get(len, true);
        delivered := delivered + data;
    }
    assert ops[..|ops|] == ops;
    StreamPreserved(f.size, ops);
  }

  /** Lengths are unsigned ints. */
  predicate OpFits(op: Op) {
    match op
    case PutOp(data) => |data| < U32
    case GetOp(len) => len < U32
  }

  /** The advanced in index takes in n more bytes. */
  lemma PutIndex(k: nat, buf: seq<Byte>, in_: nat, out: nat, n: nat)
    requires Shape(k, buf, in_, out) && Len(in_, out) + n <= |buf|
    ensures out % |buf| < |buf|
    ensures var in' := (in_ + n) % U32;
      Shape(k, buf, in', out) && Contents(k, buf, in', out) == Stored(buf, out % |buf|, Len(in_, out) + n)
  {
    SizeBound(k);
    Advance(in_, out, n);
  }

  /** The two copies of a get deliver the oldest bytes. */
  lemma GetDelivers(k: nat, buf: seq<Byte>, in_: nat, out: nat, n: nat)
    requires Shape(k, buf, in_, out) && n <= Len(in_, out)
    ensures var off := And(out, |buf| - 1);
            && off < |buf|
            && var l := Min(n, |buf| - off);
            && n - l <= |buf|
            && buf[off..off + l] + buf[..n - l] == Contents(k, buf, in_, out)[..n]
  {
    var base := And(out, |buf| - 1);
    assert base == out % |buf| < |buf| by { AndMask(out, k); }
    TwoPartGet(buf, base, Len(in_, out), n);
  }

  /** The advanced index leaves the younger ones. */
  lemma GetLeaves(k: nat, buf: seq<Byte>, in_: nat, out: nat, n: nat)
    requires Shape(k, buf, in_, out) && n <= Len(in_, out)
    ensures var out' := (out + n) % U32;
            && Shape(k, buf, in_, out') && Contents(k, buf, in_, out') == Contents(k, buf, in_, out)[n..]
            && (in_ == out' <==> n == Len(in_, out))
  {
    SizeBound(k);
    Retreat(in_, out, n);
    Offset(out, n, k);
    TwoPartGet(buf, out % |buf|, Len(in_, out), n);
  }

  /** The statements of a get, on values, are the get of the byte queue. */
  lemma GetRefines(k: nat, buf: seq<Byte>, in_: nat, out: nat, len: nat)
    requires Shape(k, buf, in_, out)
    ensures var (rest, taken) := GetBytes(Contents(k, buf, in_, out), len);
            var n := Min(len, Len(in_, out));
            var off := And(out, |buf| - 1);
            && off < |buf|
            && var l := Min(n, |buf| - off);
            && n - l <= |buf| && n == |taken|
            && buf[off..off + l] + buf[..n - l] == taken
            && var out' := (out + n) % U32;
            && Shape(k, buf, in_, out') && Contents(k, buf, in_, out') == rest
            && (in_ == out' <==> rest == [])
  {
    var n := Min(len, Len(in_, out));
    GetDelivers(k, buf, in_, out, n);
    GetLeaves(k, buf, in_, out, n);
  }

  lemma EmptyAtZero(k: nat, buf: seq<Byte>)
    requires k <= 31 && |buf| == Pow2(k)
    ensures Shape(k, buf, 0, 0) && Contents(k, buf, 0, 0) == []
  {
  }

  lemma LenAndRoom(size: nat, in_: nat, out: nat)
    requires size <= 0x8000_0000 && in_ < U32 && out < U32 && Len(in_, out) <= size
    ensures Len(in_, out) + Room(size, in_, out) == size
    ensures in_ == (out + Len(in_, out)) % U32
  {
    var d := Len(in_, out);
    assert d == if in_ >= out then in_ - out else in_ - out + U32;
    assert Room(size, in_, out) == size - d;
  }

  /** What the index expressions of put and get denote. */
  lemma Indices(k: nat, in_: nat, out: nat)
    requires k <= 31 && in_ < U32 && out < U32 && Len(in_, out) <= Pow2(k)
    ensures Len(in_, out) + Room(Pow2(k), in_, out) == Pow2(k)
    ensures out % Pow2(k) < Pow2(k)
    ensures And(in_, Pow2(k) - 1) == Wrap(out % Pow2(k) + Len(in_, out), Pow2(k))
    ensures And(out, Pow2(k) - 1) == out % Pow2(k)
  {
    SizeBound(k);
    LenAndRoom(Pow2(k), in_, out);
    AndMask(out, k);
    MaskedIn(k, in_, out, Len(in_, out));
  }

  lemma MaskedIn(k: nat, in_: nat, out: nat, d: nat)
    requires k <= 31 && d <= Pow2(k) && in_ == (out + d) % U32
    ensures out % Pow2(k) < Pow2(k) && And(in_, Pow2(k) - 1) == Wrap(out % Pow2(k) + d, Pow2(k))
  {
    Offset(out, d, k);
    AndMask(in_, k);
  }

  lemma Advance(in_: nat, out: nat, n: nat)
    requires in_ < U32 && out < U32 && Len(in_, out) + n <= 0x8000_0000
    ensures Len((in_ + n) % U32, out) == Len(in_, out) + n
  {
    var d := Len(in_, out);
    assert d == if in_ >= out then in_ - out else in_ - out + U32;
  }

  lemma Retreat(in_: nat, out: nat, n: nat)
    requires in_ < U32 && out < U32 && n <= Len(in_, out) <= 0x8000_0000
    ensures Len(in_, (out + n) % U32) == Len(in_, out) - n
    ensures in_ == (out + n) % U32 <==> Len(in_, out) == n
  {
    var d := Len(in_, out);
    assert d == if in_ >= out then in_ - out else in_ - out + U32;
  }
}
