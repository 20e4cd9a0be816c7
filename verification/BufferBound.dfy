/**
 The frame size up to which the receive buffer is safe is exact: for every larger frame that
 still fits the buffer there is a stream, and a cut of it, that closes the connection.
 */
module BufferBound {
  import opened Bits
  import opened Frames
  import opened Receiver

  const OPCODE_PING: byte := 9

  function PingFrame(long: bool): Frame {
    Frame(true, OPCODE_PING, if long then [0] else [])
  }

  function Ping(long: bool): (e: Bytes)
    ensures |e| == if long then 3 else 2
  {
    Encode(PingFrame(long), Unmasked)
  }

  /** `n` bytes of complete pings: two-byte ones and, for an odd number, one of three bytes. */
  function Pings(n: nat): (s: Bytes)
    requires n >= 2
    ensures |s| == n
  {
    if n <= 3 then Ping(n == 3) else Ping(false) + Pings(n - 2)
  }

  function Pinged(a: Assembler, long: bool): (r: Assembler)
    ensures r.open == a.open && r.fragments == a.fragments
  {
    a.(log := a.log + [Dispatched(OPCODE_PING, PingFrame(long).payload)])
  }

  /** The receiver once those pings have been dispatched. */
  function AfterPings(a: Assembler, n: nat): (r: Assembler)
    requires n >= 2
    ensures r.open == a.open && r.fragments == a.fragments
    decreases n
  {
    if n <= 3 then Pinged(a, n == 3) else AfterPings(Pinged(a, false), n - 2)
  }

  /** One whole frame at the front is delivered and gone. */
  lemma WholeHandled(a: Assembler, f: Frame, masking: Masking, rest: Bytes, capacity: nat)
    requires |f.payload| < MAX_PAYLOAD && f.opcode < 16 && (masking.Masked? ==> |masking.key| == 4)
    ensures Handled(a, Encode(f, masking) + rest, capacity) ==
            if f.opcode == OPCODE_CLOSE then (Deliver(a, f, capacity), 0) else Handled(Deliver(a, f, capacity), rest, capacity)
  {
    var e := Encode(f, masking);
    FrameRoundTrip(f, masking, rest);
    ScannedOpcode(e + rest);
    assert (e + rest)[|e|..] == rest;
  }

  lemma PingHandled(a: Assembler, long: bool, rest: Bytes, capacity: nat)
    ensures Handled(a, Ping(long) + rest, capacity) == Handled(Pinged(a, long), rest, capacity)
  {
    WholeHandled(a, PingFrame(long), Unmasked, rest, capacity);
  }

  lemma FirstPing(n: nat, rest: Bytes)
    requires n > 3
    ensures Pings(n) + rest == Ping(false) + (Pings(n - 2) + rest)
  {
  }

  /** Pings in front of anything only add to the log. */
  lemma {:induction false} PingsHandled(a: Assembler, n: nat, rest: Bytes, capacity: nat)
    requires n >= 2
    ensures Handled(a, Pings(n) + rest, capacity) == Handled(AfterPings(a, n), rest, capacity)
    decreases n
  {
    if n <= 3 {
      PingHandled(a, n == 3, rest, capacity);
    } else {
      FirstPing(n, rest);
      PingHandled(a, false, Pings(n - 2) + rest, capacity);
      PingsHandled(Pinged(a, false), n - 2, rest, capacity);
    }
  }

  /** Bytes that are not a whole frame, nor the start of one too big for the buffer, are left alone. */
  lemma IncompleteWaits(a: Assembler, s: Bytes, capacity: nat)
    requires s != [] && !Scan(s).Whole? && (Scan(s).NeedPayload? ==> Scan(s).total <= capacity)
    ensures Handled(a, s, capacity) == (a, |s|)
  {
  }

  lemma PrefixScan(f: Frame, masking: Masking, n: nat)
    requires |f.payload| < MAX_PAYLOAD && f.opcode < 16 && (masking.Masked? ==> |masking.key| == 4)
    requires 0 < n < |Encode(f, masking)|
    ensures var scanned := Scan(Encode(f, masking)[..n]);
      !scanned.Whole? && (scanned.NeedPayload? ==> scanned.total == |Encode(f, masking)|)
  {
    var e := Encode(f, masking);
    FrameRoundTrip(f, masking, []);
    assert e + [] == e && e[..n] + e[n..] == e;
    ScanExtends(e[..n], e[n..]);
  }

  /** A proper prefix of an encoded frame is left alone while it waits for the rest. */
  lemma PrefixWaits(a: Assembler, f: Frame, masking: Masking, n: nat, capacity: nat)
    requires |f.payload| < MAX_PAYLOAD && f.opcode < 16 && (masking.Masked? ==> |masking.key| == 4)
    requires 0 < n < |Encode(f, masking)| <= capacity
    ensures Handled(a, Encode(f, masking)[..n], capacity) == (a, n)
  {
    PrefixScan(f, masking, n);
    IncompleteWaits(a, Encode(f, masking)[..n], capacity);
  }

  /** The connection is closed because its buffer is full. */
  function Overflowed(a: Assembler): Assembler {
    a.(open := false, log := a.log + [BufferFull])
  }

  /** A read that fills the buffer and leaves more than the second half of it undrained. */
  lemma ReadFills(chunk: Bytes, capacity: nat, a: Assembler, n: nat)
    requires |chunk| == capacity && 0 < capacity - n < capacity / 2 && a.open && Handled(FRESH, chunk, capacity) == (a, n)
    ensures Read(CONNECTED, chunk, capacity).asm == Overflowed(a)
  {
    assert [] + chunk == chunk;
  }

  /** What two reads make of a new connection. */
  ghost function AfterTwo(first: Bytes, second: Bytes, capacity: nat): Assembler {
    ReadAll(CONNECTED, [first, second], capacity).asm
  }

  lemma TwoChunks(first: Bytes, second: Bytes, capacity: nat)
    requires CanRead(CONNECTED, first, capacity) && !Read(CONNECTED, first, capacity).asm.open
    ensures Feasible(CONNECTED, [first, second], capacity)
    ensures AfterTwo(first, second, capacity) == Read(CONNECTED, first, capacity).asm
  {
    assert [first, second][1..] == [second] && [second][1..] == [];
    assert ReadAll(CONNECTED, [first, second], capacity) == Read(CONNECTED, first, capacity);
  }

  /** What the transport may deliver in two reads. */
  ghost predicate TwoReads(s: Bytes, first: Bytes, second: Bytes, capacity: nat) {
    s == first + second && Feasible(CONNECTED, [first, second], capacity)
  }

  /** Pings, and then bytes that drain completely. */
  lemma CutAfterPings(n: nat, e: Bytes, a: Assembler, capacity: nat)
    requires 2 <= n <= capacity && 1 <= |e| <= capacity && Handled(AfterPings(FRESH, n), e, capacity) == (a, 0)
    ensures TwoReads(Pings(n) + e, Pings(n), e, capacity) && AfterTwo(Pings(n), e, capacity) == a
  {
    PingsAlone(n, capacity);
    BothDrain(Pings(n), e, capacity, AfterPings(FRESH, n), a);
  }

  /** Pings, and then bytes of which the first read, filling the buffer, brings a part that waits. */
  lemma CutInside(n: nat, e: Bytes, k: nat, capacity: nat) returns (first: Bytes, second: Bytes)
    requires 2 <= n < capacity / 2 && k <= |e| && n + k == capacity
    requires Handled(AfterPings(FRESH, n), e[..k], capacity) == (AfterPings(FRESH, n), k)
    ensures TwoReads(Pings(n) + e, first, second, capacity)
    ensures AfterTwo(first, second, capacity) == Overflowed(AfterPings(FRESH, n))
  {
    first, second := Pings(n) + e[..k], e[k..];
    assert first + second == Pings(n) + e;
    PingsHandled(FRESH, n, e[..k], capacity);
    ReadFills(first, capacity, AfterPings(FRESH, n), k);
    TwoChunks(first, second, capacity);
  }

  lemma PingsAlone(n: nat, capacity: nat)
    requires n >= 2
    ensures Handled(FRESH, Pings(n), capacity) == (AfterPings(FRESH, n), 0)
  {
    PingsHandled(FRESH, n, [], capacity);
    NothingLeft(AfterPings(FRESH, n), capacity);
    assert Pings(n) + [] == Pings(n);
  }

  lemma FrameAlone(a: Assembler, f: Frame, masking: Masking, capacity: nat)
    requires |f.payload| < MAX_PAYLOAD && f.opcode < 16 && (masking.Masked? ==> |masking.key| == 4)
    ensures Handled(a, Encode(f, masking), capacity) == (Deliver(a, f, capacity), 0)
  {
    WholeHandled(a, f, masking, [], capacity);
    NothingLeft(Deliver(a, f, capacity), capacity);
    assert Encode(f, masking) + [] == Encode(f, masking);
  }

  lemma NothingLeft(a: Assembler, capacity: nat)
    ensures Handled(a, [], capacity) == (a, 0)
  {
  }

  /** Two reads that each drain completely. */
  lemma BothDrain(first: Bytes, second: Bytes, capacity: nat, a: Assembler, a': Assembler)
    requires 1 <= |first| <= capacity && 1 <= |second| <= capacity && a.open
    requires Handled(FRESH, first, capacity) == (a, 0) && Handled(a, second, capacity) == (a', 0)
    ensures TwoReads(first + second, first, second, capacity)
    ensures AfterTwo(first, second, capacity) == a'
  {
    ReadDrains(CONNECTED, first, capacity, a);
    ReadDrains(Connection(a, 0, []), second, capacity, a');
    assert [first, second][1..] == [second] && [second][1..] == [];
    assert Feasible(Connection(a, 0, []), [second], capacity);
    assert ReadAll(Connection(a, 0, []), [second], capacity) == Connection(a', 0, []);
  }

  /** A read that drains completely leaves an empty buffer. */
  lemma ReadDrains(c: Connection, chunk: Bytes, capacity: nat, a: Assembler)
    requires c.pending == [] && Handled(c.asm, chunk, capacity) == (a, 0)
    ensures Read(c, chunk, capacity) == Connection(a, 0, [])
  {
    assert [] + chunk == chunk;
  }

  // ------------------------------------------------------------------ two cuts of a stream

  /** Pings up to just before the middle of the buffer. */
  function Half(capacity: nat): (n: nat)
    requires capacity >= 6
    ensures 2 <= n < capacity / 2 && (capacity % 2 == 0 ==> n + capacity / 2 + 1 == capacity)
  {
    capacity / 2 - 1
  }

  /** The stream that shows it: those pings, then the frame. */
  function Stream(f: Frame, masking: Masking, capacity: nat): Bytes
    requires (masking.Masked? ==> |masking.key| == 4) && capacity >= 6
  {
    Pings(Half(capacity)) + Encode(f, masking)
  }

  /** Cut between the pings and the frame, both reads fit and the frame is delivered. */
  lemma CutAtFrame(f: Frame, masking: Masking, capacity: nat)
    requires |f.payload| < MAX_PAYLOAD && f.opcode < 16 && (masking.Masked? ==> |masking.key| == 4)
    requires capacity >= 6 && 0 < |Encode(f, masking)| <= capacity
    ensures var pings, e := Pings(Half(capacity)), Encode(f, masking);
      && TwoReads(Stream(f, masking, capacity), pings, e, capacity)
      && AfterTwo(pings, e, capacity) == Deliver(AfterPings(FRESH, Half(capacity)), f, capacity)
  {
    var a := AfterPings(FRESH, Half(capacity));
    FrameAlone(a, f, masking, capacity);
    CutAfterPings(Half(capacity), Encode(f, masking), Deliver(a, f, capacity), capacity);
  }

  /** Cut elsewhere, the first read filling the buffer, the connection ends with a full buffer
      and the frame is lost: what is delivered depends on the cut. */
  lemma LargerFrameOverflows(f: Frame, masking: Masking, capacity: nat) returns (first: Bytes, second: Bytes)
    requires |f.payload| < MAX_PAYLOAD && f.opcode < 16 && (masking.Masked? ==> |masking.key| == 4)
    requires capacity >= 6 && capacity % 2 == 0
    requires LargestFrame(capacity) < |Encode(f, masking)| <= capacity
    ensures TwoReads(Stream(f, masking, capacity), first, second, capacity)
    ensures AfterTwo(first, second, capacity) == Overflowed(AfterPings(FRESH, Half(capacity)))
    ensures !CanRead(CONNECTED, Stream(f, masking, capacity), capacity)
  {
    PrefixWaits(AfterPings(FRESH, Half(capacity)), f, masking, capacity / 2 + 1, capacity);
    first, second := CutInside(Half(capacity), Encode(f, masking), capacity / 2 + 1, capacity);
  }
}
