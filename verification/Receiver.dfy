/**
 What the receiving end of a WebSocket connection does with a byte stream: draining
 complete frames, reassembling fragmented messages, and sliding its fixed buffer.
 `capacity` is the template parameter RecvBufSize.
 */
module Receiver {
  import opened Bits
  import opened Frames

  /** What the connection reports: a message handed to the handler, a call of `close`, or
      the transport giving up on a full buffer. */
  datatype Event =
    | Dispatched(opcode: byte, payload: Bytes)
    | Closing(status: nat, reason: Bytes)
    | BufferFull

  /** Connection state other than the receive buffer: `frame[..frame_size]`, `recv_opcode`. */
  datatype Assembler = Assembler(open: bool, fragments: Bytes, recvOpcode: byte, log: seq<Event>)

  const FRESH := Assembler(true, [], 0, [])

  const NO_STATUS := 1005
  const TOO_BIG := 1009

  function Min(a: nat, b: nat): nat {
    if a < b then a else b
  }

  function CloseStatus(payload: Bytes): nat {
    if |payload| >= 2 then FromBigEndian(payload[..2]) else NO_STATUS
  }

  /** At most 127 bytes of the reason are kept. */
  function CloseReason(payload: Bytes): Bytes {
    if |payload| >= 2 then payload[2..2 + Min(127, |payload| - 2)] else []
  }

  /** A close payload is the status, high octet first, and then the reason (RFC 6455, section 5.5.1);
      at most 127 octets of the reason are reported, and 1005 when there is no status. */
  lemma ClosePayload(high: byte, low: byte, reason: Bytes)
    ensures CloseStatus([high, low] + reason) == 256 * high as nat + low as nat
    ensures |reason| <= 127 ==> CloseReason([high, low] + reason) == reason
    ensures |reason| > 127 ==> CloseReason([high, low] + reason) == reason[..127]
    ensures CloseStatus([]) == CloseStatus([high]) == 1005 && CloseReason([]) == CloseReason([high]) == []
  {
    var payload := [high, low] + reason;
    assert payload[..2] == [] + [high] + [low];
    FromBigEndianSnoc([], high);
    FromBigEndianSnoc([] + [high], low);
    var n := Min(127, |reason|);
    assert payload[2..2 + n] == reason[..n];
  }

  function Close(a: Assembler, status: nat, reason: Bytes): Assembler {
    a.(open := false, log := a.log + [Closing(status, reason)])
  }

  /** The part of `handleOneWSMsg` after unmasking. */
  function Deliver(a: Assembler, f: Frame, capacity: nat): Assembler {
    var beg := f.opcode != OPCODE_CONT;
    if beg && f.fin then
      if f.opcode == OPCODE_CLOSE then Close(a, CloseStatus(f.payload), CloseReason(f.payload))
      else a.(log := a.log + [Dispatched(f.opcode, f.payload)])
    else if |a.fragments| + |f.payload| > capacity then Close(a, TOO_BIG, [])
    else
      var opcode := if beg then f.opcode else a.recvOpcode;
      var all := a.fragments + f.payload;
      if f.fin then a.(recvOpcode := opcode, fragments := [], log := a.log + [Dispatched(opcode, all)])
      else a.(recvOpcode := opcode, fragments := all)
  }

  predicate IsClosing(s: Bytes)
    requires s != []
  {
    s[0] % 16 == OPCODE_CLOSE
  }

  /** `handleWSMsg`: drain every complete frame; the bytes left over, none after a close frame. */
  function Drain(a: Assembler, s: Bytes, capacity: nat): (r: (Assembler, Bytes))
    decreases |s|
  {
    if s == [] then (a, [])
    else
      match Scan(s)
      case NeedHeader => (a, s)
      case NeedPayload(total) => (if total > capacity then Close(a, TOO_BIG, []) else a, s)
      case Whole(f, total) =>
        ScanExtends(s, []);
        var a' := Deliver(a, f, capacity);
        if IsClosing(s) then (a', []) else Drain(a', s[total..], capacity)
  }

  /** What `handleWSMsg` makes of `s`, and how many bytes of it remain. */
  function Handled(a: Assembler, s: Bytes, capacity: nat): (r: (Assembler, nat))
    ensures r.1 <= |s|
  {
    var (a', rest) := Drain(a, s, capacity);
    DrainShrinks(a, s, capacity);
    (a', |rest|)
  }

  // ------------------------------------------------------- the sliding buffer

  /** `pending` is the buffer content between `head_` and `tail_`. */
  datatype Connection = Connection(asm: Assembler, head: nat, pending: Bytes)

  const CONNECTED := Connection(FRESH, 0, [])

  function Tail(c: Connection): nat {
    c.head + |c.pending|
  }

  /** Once frames have been drained and `rest` is left in front of `tail`: an empty buffer starts
      over, a start in the second half moves to the front, and a full buffer is the end. */
  function Settled(asm: Assembler, rest: Bytes, tail: nat, capacity: nat): Connection
    requires |rest| <= tail
  {
    var head := tail - |rest|;
    if rest == [] then Connection(asm, 0, [])
    else if head >= capacity / 2 then Connection(asm, 0, rest)
    else
      Connection(if tail == capacity && asm.open then asm.(open := false, log := asm.log + [BufferFull]) else asm,
                 head, rest)
  }

  /** One successful transport read of `chunk`. */
  function Read(c: Connection, chunk: Bytes, capacity: nat): Connection {
    var s := c.pending + chunk;
    var (asm, remaining) := Handled(c.asm, s, capacity);
    Settled(asm, s[|s| - remaining..], Tail(c) + |chunk|, capacity)
  }

  /** A read delivers at least one byte and at most what fits behind `tail_`. */
  predicate CanRead(c: Connection, chunk: Bytes, capacity: nat) {
    c.asm.open && 1 <= |chunk| && Tail(c) + |chunk| <= capacity
  }

  /** Reads until the connection closes; nothing is read afterwards. */
  function ReadAll(c: Connection, chunks: seq<Bytes>, capacity: nat): Connection
    decreases |chunks|
  {
    if chunks == [] || !c.asm.open then c else ReadAll(Read(c, chunks[0], capacity), chunks[1..], capacity)
  }

  /** Every chunk was one the transport could deliver when it was read. */
  ghost predicate Feasible(c: Connection, chunks: seq<Bytes>, capacity: nat)
    decreases |chunks|
  {
    chunks == [] || !c.asm.open ||
    (CanRead(c, chunks[0], capacity) && Feasible(Read(c, chunks[0], capacity), chunks[1..], capacity))
  }

  function Concat(chunks: seq<Bytes>): Bytes {
    if chunks == [] then [] else chunks[0] + Concat(chunks[1..])
  }

  // -------------------------------------------------------- chunking independence

  /** Unfragmented, or the reassembly buffer has room for it. */
  predicate RoomFor(a: Assembler, f: Frame, capacity: nat) {
    (f.fin && f.opcode != OPCODE_CONT) || |a.fragments| + |f.payload| <= capacity
  }

  /** The largest frame that no cut of the stream can make the buffer overflow with. */
  function LargestFrame(capacity: nat): nat {
    capacity / 2 + 1
  }

  /** No frame that starts in the stream is larger than that, fragments fit the reassembly
      buffer, and close frames are final. */
  ghost predicate Fits(a: Assembler, s: Bytes, capacity: nat)
    decreases |s|
  {
    s == [] ||
    match Scan(s)
    case NeedHeader => true
    case NeedPayload(total) => total <= LargestFrame(capacity)
    case Whole(f, total) =>
      ScanExtends(s, []);
      && total <= LargestFrame(capacity)
      && RoomFor(a, f, capacity)
      && (if IsClosing(s) then f.fin else Fits(Deliver(a, f, capacity), s[total..], capacity))
  }

  lemma ScannedOpcode(s: Bytes)
    requires Scan(s).Whole?
    ensures s != [] && (IsClosing(s) <==> Scan(s).frame.opcode == OPCODE_CLOSE)
  {
  }

  /** A frame that fits leaves the connection open unless it is the close frame. */
  lemma DeliverOpen(a: Assembler, f: Frame, capacity: nat)
    requires a.open && RoomFor(a, f, capacity)
    requires f.opcode == OPCODE_CLOSE ==> f.fin
    ensures Deliver(a, f, capacity).open <==> f.opcode != OPCODE_CLOSE
  {
  }

  /** Draining a stream in two parts: either the first part ends the connection, and the second is
      ignored, or draining continues with what was left over, which is at most half the buffer. */
  lemma {:induction false} DrainInTwo(a: Assembler, s: Bytes, more: Bytes, capacity: nat)
    requires a.open && Fits(a, s + more, capacity) && capacity >= 28
    ensures var (a1, rest) := Drain(a, s, capacity);
            if a1.open then
              && Drain(a, s + more, capacity) == Drain(a1, rest + more, capacity)
              && Fits(a1, rest + more, capacity) && |rest| <= capacity / 2
            else rest == [] && Drain(a, s + more, capacity) == (a1, [])
    decreases |s|
  {
    if s == [] {
      assert s + more == [] + more;
    } else {
      ScanExtends(s, more);
      if Scan(s).Whole? {
        ScanExtends(s, []);
        ScannedOpcode(s);
        ScannedOpcode(s + more);
        var f, total := Scan(s).frame, Scan(s).total;
        var a' := Deliver(a, f, capacity);
        DeliverOpen(a, f, capacity);
        assert (s + more)[total..] == s[total..] + more;
        if !IsClosing(s) {
          DrainInTwo(a', s[total..], more, capacity);
        }
      }
    }
  }

  /** A read drains what was pending and has come, and settles what is left over. */
  lemma ReadSettles(c: Connection, chunk: Bytes, capacity: nat)
    ensures var (asm, rest) := Drain(c.asm, c.pending + chunk, capacity);
            |rest| <= Tail(c) + |chunk| && Read(c, chunk, capacity) == Settled(asm, rest, Tail(c) + |chunk|, capacity)
  {
    DrainShrinks(c.asm, c.pending + chunk, capacity);
  }

  /** What takes at most half the buffer settles as it is, with room to spare. */
  lemma SettledSmall(asm: Assembler, rest: Bytes, tail: nat, capacity: nat)
    requires |rest| <= capacity / 2 && |rest| <= tail <= capacity && capacity >= 28 && capacity % 2 == 0
    ensures var c := Settled(asm, rest, tail, capacity);
      c.asm == asm && c.pending == rest && Tail(c) < capacity && (tail - |rest| >= capacity / 2 ==> |rest| <= tail - |rest|)
  {
  }

  /** A read of a fitting stream neither overflows the buffer nor loses or reorders bytes, and the
      block moved to the front of the buffer never overlaps its old place. */
  lemma ReadIsDrain(c: Connection, chunk: Bytes, more: Bytes, capacity: nat)
    requires capacity >= 28 && capacity % 2 == 0 && CanRead(c, chunk, capacity)
    requires Fits(c.asm, c.pending + (chunk + more), capacity)
    ensures var c' := Read(c, chunk, capacity); var (asm, rest) := Drain(c.asm, c.pending + chunk, capacity);
            && c'.asm == asm && c'.pending == rest
            && (asm.open ==> Tail(c') < capacity && Fits(c'.asm, c'.pending + more, capacity))
            && (var start := Tail(c) + |chunk| - |rest|; start >= capacity / 2 ==> |rest| <= start)
  {
    var (asm, rest) := Drain(c.asm, c.pending + chunk, capacity);
    assert c.pending + (chunk + more) == (c.pending + chunk) + more;
    DrainInTwo(c.asm, c.pending + chunk, more, capacity);
    ReadSettles(c, chunk, capacity);
    SettledSmall(asm, rest, Tail(c) + |chunk|, capacity);
  }

  /** What is left over is the end of what was there. */
  lemma {:induction false} DrainShrinks(a: Assembler, s: Bytes, capacity: nat)
    ensures var rest := Drain(a, s, capacity).1; |rest| <= |s| && rest == s[|s| - |rest|..]
    decreases |s|
  {
    if s != [] && Scan(s).Whole? && !IsClosing(s) {
      ScanExtends(s, []);
      DrainShrinks(Deliver(a, Scan(s).frame, capacity), s[Scan(s).total..], capacity);
    }
  }

  /** After a read of a fitting stream, what is pending and still to come drains to the same. */
  lemma OneRead(c: Connection, chunk: Bytes, more: Bytes, capacity: nat)
    requires capacity >= 28 && capacity % 2 == 0 && CanRead(c, chunk, capacity)
    requires Fits(c.asm, c.pending + (chunk + more), capacity)
    ensures var c', all := Read(c, chunk, capacity), c.pending + (chunk + more);
      if c'.asm.open then
        && Drain(c.asm, all, capacity) == Drain(c'.asm, c'.pending + more, capacity)
        && Drain(c'.asm, c'.pending, capacity) == (c'.asm, c'.pending)
        && Fits(c'.asm, c'.pending + more, capacity)
      else Drain(c.asm, all, capacity) == (c'.asm, c'.pending)
  {
    var s := c.pending + chunk;
    assert c.pending + (chunk + more) == s + more;
    ReadIsDrain(c, chunk, more, capacity);
    DrainInTwo(c.asm, s, more, capacity);
    if Drain(c.asm, s, capacity).0.open {
      DrainTwice(c.asm, s, capacity);
    }
  }

  /** However the transport cuts a fitting stream into reads, exactly the events of draining the
      whole stream at once are dispatched: up to the first close frame, nothing after it, and
      no buffer-full or too-big close besides those of the stream itself. */
  lemma {:induction false} ChunkingIndependence(c: Connection, chunks: seq<Bytes>, capacity: nat)
    requires capacity >= 28 && capacity % 2 == 0 && c.asm.open
    requires Feasible(c, chunks, capacity) && Fits(c.asm, c.pending + Concat(chunks), capacity)
    requires Drain(c.asm, c.pending, capacity) == (c.asm, c.pending)
    ensures var (asm, rest) := Drain(c.asm, c.pending + Concat(chunks), capacity);
            ReadAll(c, chunks, capacity).asm == asm && ReadAll(c, chunks, capacity).pending == rest
    decreases |chunks|
  {
    if chunks == [] {
      assert c.pending + Concat(chunks) == c.pending;
    } else {
      var c' := Read(c, chunks[0], capacity);
      OneRead(c, chunks[0], Concat(chunks[1..]), capacity);
      if c'.asm.open {
        ChunkingIndependence(c', chunks[1..], capacity);
      }
    }
  }

  /** What draining leaves over cannot be drained further. */
  lemma {:induction false} DrainTwice(a: Assembler, s: Bytes, capacity: nat)
    requires Drain(a, s, capacity).0.open
    ensures var (a', rest) := Drain(a, s, capacity); Drain(a', rest, capacity) == (a', rest)
    decreases |s|
  {
    if s != [] && Scan(s).Whole? && !IsClosing(s) {
      ScanExtends(s, []);
      DrainTwice(Deliver(a, Scan(s).frame, capacity), s[Scan(s).total..], capacity);
    }
  }

  /** A close frame with status and reason is reported with them, and nothing behind it is read. */
  lemma CloseReported(a: Assembler, high: byte, low: byte, reason: Bytes, masking: Masking, rest: Bytes, capacity: nat)
    requires |reason| <= 127 && (masking.Masked? ==> |masking.key| == 4)
    ensures Drain(a, Encode(Frame(true, 8, [high, low] + reason), masking) + rest, capacity) ==
            (a.(open := false, log := a.log + [Closing(256 * high as nat + low as nat, reason)]), [])
  {
    var f := Frame(true, 8, [high, low] + reason);
    FrameRoundTrip(f, masking, rest);
    ScannedOpcode(Encode(f, masking) + rest);
    ClosePayload(high, low, reason);
  }

  /** A frame larger than the buffer closes the connection with status 1009 as soon as its header is there. */
  lemma TooBigReported(a: Assembler, s: Bytes, capacity: nat)
    requires Scan(s).NeedPayload? && Scan(s).total > capacity
    ensures Drain(a, s, capacity) == (a.(open := false, log := a.log + [Closing(1009, [])]), s)
  {
    ScanExtends(s, []);
  }
}
