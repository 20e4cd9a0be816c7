/**
 The connection object of the bots' WebSocket library: frames are unmasked, reassembled and
 dispatched inside fixed buffers that are updated in place. Each method is tied to the
 functions of modules `Frames`, `Receiver` and `Sender` on the buffers' contents.
 */
module WSConnections {
  import opened Bits
  import opened Frames
  import opened Receiver
  import Sender

  /** What handling one frame at `off` makes of the buffer's contents and of the assembler, and how
      many bytes remain. */
  ghost predicate FrameOutcome(was: Bytes, now: Bytes, off: nat, size: nat, a: Assembler, a': Assembler, remaining: nat, capacity: nat)
    requires off + size <= |was| == |now|
  {
    match Scan(was[off..off + size])
    case NeedHeader => remaining == size && now == was && a' == a
    case NeedPayload(total) =>
      remaining == size && now == was && a' == if total > capacity then Receiver.Close(a, TOO_BIG, []) else a
    case Whole(f, total) =>
      remaining == size - total < size && now[off + total..] == was[off + total..] && a' == Deliver(a, f, capacity)
  }

  /** One turn of the loop of `handleWSMsg`: it stops where nothing more can be taken, after a close
      frame at the end, or goes on behind the frame. */
  ghost predicate LoopStep(was: Bytes, now: Bytes, at: nat, end: nat, a: Assembler, a': Assembler, next: nat, stop: bool, capacity: nat)
    requires at < end <= |was| == |now|
  {
    exists remaining: nat :: remaining <= end - at && FrameOutcome(was, now, at, end - at, a, a', remaining, capacity)
      && (next, stop) == Onward(was[at], at, end, remaining)
  }

  function Onward(first: byte, at: nat, end: nat, remaining: nat): (nat, bool)
    requires remaining <= end
  {
    if remaining == end - at then (at, true)
    else if first % 16 == OPCODE_CLOSE then (end, true)
    else (end - remaining, false)
  }

  class WSConnection {
    const capacity: nat      // RecvBufSize
    const sendMask: bool
    const recvbuf: array<byte>
    const frame: array<byte>
    var head: nat
    var tail: nat
    var frameSize: nat
    var recvOpcode: byte
    var sendFin: bool
    var open: bool
    var log: seq<Event>
    var written: Bytes

    ghost predicate Valid()
      reads this
    {
      && recvbuf.Length == capacity && frame.Length == capacity && recvbuf != frame
      && head <= tail <= capacity && frameSize <= capacity
    }

    ghost function Asm(): Assembler
      reads this, frame
      requires Valid()
    {
      Assembler(open, frame[..frameSize], recvOpcode, log)
    }

    ghost function State(): Connection
      reads this, recvbuf, frame
      requires Valid()
    {
      Connection(Asm(), head, recvbuf[head..tail])
    }

    constructor (capacity: nat, sendMask: bool)
      ensures Valid() && State() == CONNECTED && sendFin && written == []
      ensures this.capacity == capacity && this.sendMask == sendMask
      ensures fresh(recvbuf) && fresh(frame)
    {
      this.capacity, this.sendMask := capacity, sendMask;
      recvbuf, frame := new byte[capacity](_ => 0), new byte[capacity](_ => 0);
      head, tail, frameSize, recvOpcode := 0, 0, 0, 0;
      sendFin, open, log, written := true, true, [], [];
    }

    // ---------------------------------------------------------------- sending

    function Masking(): (m: Masking)
      ensures m.Masked? ==> |m.key| == 4
    {
      if sendMask then Masked([0, 0, 0, 0]) else Unmasked
    }

    /** The header of a frame of `n` payload bytes, built in a 14-byte buffer. */
    method BuildHeader(opcode: byte, fin: bool, n: nat) returns (header: Bytes)
      requires Valid()
      ensures header == [FirstByte(fin, opcode), SecondByte(sendMask, LengthField(n).0)] + LengthField(n).1
                        + (if sendMask then [0, 0, 0, 0] else [])
    {
      var h := new byte[14](_ => 0);
      h[0] := opcode % 16 + (if fin then 128 else 0);
      h[1] := if sendMask then 128 else 0;
      var hLen := PutLength(h, n);
      assert h[..hLen] == [h[0], h[1]] + h[2..hLen];
      header := h[..hLen] + (if sendMask then [0, 0, 0, 0] else []);
    }

    /** Puts one frame on the wire; its masking key is always zero, so the payload goes out as it is. */
    method WriteFrame(opcode: byte, fin: bool, payload: Bytes)
      requires Valid()
      modifies this`written
      ensures Valid()
      ensures written == old(written) + (if open then Encode(Frame(fin, opcode, payload), Masking()) else [])
    {
      var header := BuildHeader(opcode, fin, |payload|);
      if open {
        written := written + header + payload;
        EncodedWithZeroKey(Frame(fin, opcode, payload), Masking());
        assert written == old(written) + (header + payload);
      }
    }

    method Send(opcode: byte, payload: Bytes, fin: bool)
      requires Valid()
      modifies this`sendFin, this`written
      ensures Valid() && sendFin == Sender.SendFinAfter(Sender.Call(opcode, payload, fin), old(sendFin))
      ensures var f := Sender.FrameOf(Sender.Call(opcode, payload, fin), old(sendFin));
              written == old(written) + (if open then Encode(f, Masking()) else [])
    {
      var final, op := fin, opcode;
      if opcode / 8 != 0 {
        final := true;
      } else {
        if !sendFin {
          op := OPCODE_CONT;
        }
        sendFin := fin;
      }
      WriteFrame(op, final, payload);
    }

    // ---------------------------------------------------------------- receiving

    method Close(status: nat, reason: Bytes)
      requires Valid()
      modifies this`open, this`log
      ensures Valid() && Asm() == Receiver.Close(old(Asm()), status, reason)
    {
      log := log + [Closing(status, reason)];
      open := false;
    }

    /** Header length and announced payload length, once the header is complete. */
    method ReadHeader(off: nat, size: nat) returns (complete: bool, header: nat, plLen: nat)
      requires Valid() && off + size <= capacity
      ensures var s := recvbuf[off..off + size];
              && (complete <==> |s| >= 2 && |s| >= HeaderLength(s[1]))
              && (complete ==> header == HeaderLength(s[1]) && plLen == PayloadLength(s))
    {
      ghost var s := recvbuf[off..off + size];
      if size < 2 {
        return false, 0, 0;
      }
      assert s[1] == recvbuf[off + 1];
      var length := recvbuf[off + 1] % 128;
      header := 2 + (if length == 126 then 2 else if length == 127 then 8 else 0)
                  + (if recvbuf[off + 1] >= 128 then 4 else 0);
      if size < header {
        return false, 0, 0;
      }
      plLen := length as nat;
      if length == 126 {
        SubSlice(recvbuf[..], off, size, 2, 4);
        plLen := ReadBigEndian(recvbuf, off + 2, 2);
      } else if length == 127 {
        SubSlice(recvbuf[..], off, size, 3, 10);
        assert s[2] == recvbuf[off + 2];
        plLen := ReadLongLength(recvbuf, off + 2);
      }
      complete := true;
    }

    /** One frame at `off`, if it is complete: unmasked in place and delivered. */
    method HandleOneWSMsg(off: nat, size: nat) returns (remaining: nat)
      requires Valid() && off + size <= capacity
      modifies this`open, this`log, this`frameSize, this`recvOpcode, recvbuf, frame
      ensures Valid() && remaining <= size
      ensures FrameOutcome(old(recvbuf[..]), recvbuf[..], off, size, old(Asm()), Asm(), remaining, capacity)
    {
      assert recvbuf[off..off + size] == recvbuf[..][off..off + size];
      var complete, header, plLen := ReadHeader(off, size);
      if !complete {
        return size;
      }
      if size < header + plLen {
        if header + plLen > capacity {
          Close(TOO_BIG, []);
        }
        return size;
      }
      TakeFrame(off, size, header, plLen);
      remaining := size - (header + plLen);
    }

    method TakeFrame(off: nat, size: nat, header: nat, plLen: nat)
      requires Valid() && off + size <= capacity && header + plLen <= size
      requires var s := recvbuf[off..off + size];
        |s| >= 2 && |s| >= HeaderLength(s[1]) && header == HeaderLength(s[1]) && plLen == PayloadLength(s)
      modifies this`open, this`log, this`frameSize, this`recvOpcode, recvbuf, frame
      ensures Valid() && recvbuf[off + header + plLen..] == old(recvbuf[off + header + plLen..])
      ensures var scanned := Scan(old(recvbuf[off..off + size]));
              && scanned.Whole? && scanned.total == header + plLen
              && Asm() == Deliver(old(Asm()), scanned.frame, capacity)
    {
      ghost var s := recvbuf[off..off + size];
      assert s[0] == recvbuf[off];
      var opcode, fin := recvbuf[off] % 16, recvbuf[off] >= 128;
      UnmaskFrame(off, size, header, plLen);
      ScanWhole(s, header, plLen, fin, opcode, recvbuf[off + header..off + header + plLen]);
      DeliverFrame(opcode, fin, off + header, plLen);
    }

    /** The payload of the complete frame at `off` is replaced by its unmasked form. */
    method UnmaskFrame(off: nat, size: nat, header: nat, plLen: nat)
      requires Valid() && off + size <= capacity && header + plLen <= size
      requires var s := recvbuf[off..off + size]; |s| >= 2 && |s| >= HeaderLength(s[1]) && header == HeaderLength(s[1])
      modifies recvbuf
      ensures var s := old(recvbuf[off..off + size]);
              recvbuf[off + header..off + header + plLen] == Mask(MaskingOf(s), s[header..header + plLen])
      ensures recvbuf[off + header + plLen..] == old(recvbuf[off + header + plLen..])
    {
      ghost var was := recvbuf[..];
      PayloadUnmasked(was, off, size, header, plLen);
      if recvbuf[off + 1] >= 128 {
        UnmaskRange(off + header, plLen, recvbuf[off + header - 4..off + header]);
      }
      assert was[off..off + size] == old(recvbuf[off..off + size]);
    }

    /** The loop, told by the bytes it changes and those behind them. */
    method UnmaskRange(data: nat, n: nat, key: Bytes)
      requires Valid() && data + n <= capacity && |key| == 4
      modifies recvbuf
      ensures recvbuf[data..data + n] == Mask(Masked(key), old(recvbuf[..])[data..data + n])
      ensures recvbuf[data + n..] == old(recvbuf[data + n..])
    {
      ghost var was := recvbuf[..];
      Unmask(data, n, key);
      XorRangeSlices(was, data, n, key);
      ghost var now := recvbuf[..];
      assert recvbuf[data..data + n] == now[data..data + n] && recvbuf[data + n..] == now[data + n..];
    }

    method Unmask(data: nat, n: nat, key: Bytes)
      requires Valid() && data + n <= capacity && |key| == 4
      modifies recvbuf
      ensures recvbuf[..] == XorRange(old(recvbuf[..]), data, n, key)
    {
      ghost var was := recvbuf[..];
      for i := 0 to n
        invariant forall k :: 0 <= k < capacity ==>
          recvbuf[k] == if data <= k < data + i then Xor(was[k], key[(k - data) % 4]) else was[k]
      {
        recvbuf[data + i] := Xor(recvbuf[data + i], key[i % 4]);
      }
    }

    /** Dispatch, or append to the reassembly buffer. */
    method DeliverFrame(opcode: byte, fin: bool, data: nat, n: nat)
      requires Valid() && data + n <= capacity
      modifies this`open, this`log, this`frameSize, this`recvOpcode, frame
      ensures Valid() && Asm() == Deliver(old(Asm()), Frame(fin, opcode, recvbuf[data..data + n]), capacity)
    {
      var payload := recvbuf[data..data + n];
      var beg := opcode != OPCODE_CONT;
      if beg && fin {
        if opcode == OPCODE_CLOSE {
          var status, reason: Bytes := NO_STATUS, [];
          if n >= 2 {
            status := FromBigEndian(payload[..2]);
            reason := payload[2..2 + Min(127, n - 2)];
          }
          Close(status, reason);
        } else {
          log := log + [Dispatched(opcode, payload)];
        }
      } else if frameSize + n > capacity {
        Close(TOO_BIG, []);
      } else {
        AppendFragment(data, n);
        if beg {
          recvOpcode := opcode;
        }
        if fin {
          log := log + [Dispatched(recvOpcode, frame[..frameSize])];
          frameSize := 0;
          assert frame[..frameSize] == [];
        }
      }
    }

    method AppendFragment(data: nat, n: nat)
      requires Valid() && data + n <= capacity && frameSize + n <= capacity
      modifies this`frameSize, frame
      ensures Valid() && frameSize == old(frameSize) + n
      ensures frame[..frameSize] == old(frame[..frameSize]) + recvbuf[data..data + n]
    {
      forall i | 0 <= i < n {
        frame[frameSize + i] := recvbuf[data + i];
      }
      frameSize := frameSize + n;
    }

    /** The loop body of `handleWSMsg`: one frame at `at`, and whether the loop ends with it. */
    method HandleFrame(at: nat, end: nat) returns (next: nat, stop: bool)
      requires Valid() && at < end <= capacity
      modifies this`open, this`log, this`frameSize, this`recvOpcode, recvbuf, frame
      ensures Valid() && at <= next <= end
      ensures LoopStep(old(recvbuf[..]), recvbuf[..], at, end, old(Asm()), Asm(), next, stop, capacity)
    {
      ghost var asm, was := Asm(), recvbuf[..];
      var closing := recvbuf[at] % 16 == OPCODE_CLOSE;
      var remaining := HandleOneWSMsg(at, end - at);
      FrameStep(was, recvbuf[..], at, end, asm, Asm(), remaining, capacity);
      if remaining == end - at { // incomplete frame
        return at, true;
      }
      if closing {
        return end, true;
      }
      return end - remaining, false;
    }

    /** Drains every complete frame between `off` and `end`. */
    method HandleWSMsg(off: nat, end: nat) returns (remaining: nat)
      requires Valid() && off <= end <= capacity
      modifies this`open, this`log, this`frameSize, this`recvOpcode, recvbuf, frame
      ensures Valid() && remaining <= end - off
      ensures Handled(old(Asm()), old(recvbuf[off..end]), capacity) == (Asm(), remaining)
      ensures recvbuf[end - remaining..end] == old(recvbuf[end - remaining..end])
    {
      var at := off;
      ghost var goal, was := Handled(Asm(), recvbuf[off..end], capacity), recvbuf[..];
      while at != end
        invariant Valid() && off <= at <= end
        invariant Handled(Asm(), recvbuf[at..end], capacity) == goal
        invariant recvbuf[at..] == was[at..]
        decreases end - at
      {
        ghost var now, asm := recvbuf[..], Asm();
        var next, stop := HandleFrame(at, end);
        StepHandled(now, recvbuf[..], at, end, asm, Asm(), next, stop, capacity);
        LaterSuffix(was, now, recvbuf[..], at, next);
        if stop {
          LaterRange(was, recvbuf[..], next, end);
          return end - next;
        }
        at := next;
      }
      HandledNothing(Asm(), recvbuf[at..end], capacity);
      remaining := 0;
    }

    method StoreChunk(chunk: Bytes)
      requires Valid() && tail + |chunk| <= capacity
      modifies this`tail, recvbuf
      ensures Valid() && tail == old(tail) + |chunk|
      ensures recvbuf[head..tail] == old(recvbuf[head..tail]) + chunk
    {
      forall i | 0 <= i < |chunk| {
        recvbuf[tail + i] := chunk[i];
      }
      tail := tail + |chunk|;
    }

    /** Moves the pending bytes to the front; source and destination must not overlap. */
    method Relocate()
      requires Valid() && tail - head <= head
      modifies this`head, this`tail, recvbuf
      ensures Valid() && head == 0 && recvbuf[head..tail] == old(recvbuf[head..tail])
    {
      ghost var rest := recvbuf[head..tail];
      forall i | 0 <= i < tail - head {
        recvbuf[i] := recvbuf[head + i];
      }
      head, tail := 0, tail - head;
      assert recvbuf[head..tail] == rest;
    }

    method StoreAndDrain(chunk: Bytes) returns (remaining: nat)
      requires Valid() && tail + |chunk| <= capacity
      modifies this`open, this`log, this`frameSize, this`recvOpcode, this`tail, recvbuf, frame
      ensures Valid() && tail == old(tail) + |chunk| && remaining <= tail - head
      ensures Handled(old(Asm()), old(recvbuf[head..tail]) + chunk, capacity) == (Asm(), remaining)
      ensures recvbuf[tail - remaining..tail] == (old(recvbuf[head..tail]) + chunk)[tail - head - remaining..]
    {
      ghost var bytes := recvbuf[head..tail] + chunk;
      StoreChunk(chunk);
      ghost var was := recvbuf[..];
      remaining := HandleWSMsg(head, tail);
      SuffixOfRange(was, head, tail, remaining, bytes);
    }

    /** What the sliding buffer does once `remaining` bytes are left. */
    method Settle(remaining: nat)
      requires Valid() && capacity % 2 == 0 && remaining <= tail - head
      modifies this`open, this`log, this`head, this`tail, recvbuf
      ensures Valid() && State() == Settled(old(Asm()), old(recvbuf[tail - remaining..tail]), old(tail), capacity)
    {
      if remaining == 0 {
        head, tail := 0, 0;
        assert recvbuf[head..tail] == [];
      } else {
        head := tail - remaining;
        if head >= capacity / 2 {
          Relocate();
        } else if tail == capacity && open {
          open := false;
          log := log + [BufferFull];
        }
      }
    }

    /** A transport read of `chunk`, and what the sliding buffer does afterwards. */
    method Read(chunk: Bytes)
      requires Valid() && capacity % 2 == 0 && CanRead(State(), chunk, capacity)
      modifies this`open, this`log, this`frameSize, this`recvOpcode, this`head, this`tail, recvbuf, frame
      ensures Valid() && State() == Receiver.Read(old(State()), chunk, capacity)
    {
      ghost var c := State();
      var remaining := StoreAndDrain(chunk);
      ReadIs(c, chunk, Asm(), recvbuf[tail - remaining..tail], capacity);
      Settle(remaining);
    }
  }

  // ------------------------------------------------------------------- helpers

  /** `a` with `n` bytes from `data` on XORed with the repeated key. */
  function XorRange(a: Bytes, data: nat, n: nat, key: Bytes): Bytes
    requires data + n <= |a| && |key| == 4
  {
    seq(|a|, k requires 0 <= k < |a| => if data <= k < data + n then Xor(a[k], key[(k - data) % 4]) else a[k])
  }

  lemma XorRangeSlices(a: Bytes, data: nat, n: nat, key: Bytes)
    requires data + n <= |a| && |key| == 4
    ensures XorRange(a, data, n, key)[data..data + n] == Mask(Masked(key), a[data..data + n])
    ensures XorRange(a, data, n, key)[data + n..] == a[data + n..]
  {
    var b := XorRange(a, data, n, key);
    var x, y := b[data..data + n], Mask(Masked(key), a[data..data + n]);
    forall i | 0 <= i < n ensures x[i] == y[i] {
      assert x[i] == b[data + i] == Xor(a[data + i], key[i % 4]);
    }
    assert |x| == |y|;
    XorRangeRest(a, data, n, key);
  }

  lemma XorRangeRest(a: Bytes, data: nat, n: nat, key: Bytes)
    requires data + n <= |a| && |key| == 4
    ensures XorRange(a, data, n, key)[data + n..] == a[data + n..]
  {
  }

  lemma MaskedSlices(was: Bytes, off: nat, size: nat, header: nat, plLen: nat, s: Bytes, key: Bytes)
    requires off + size <= |was| && size >= 2 && header == HeaderLength(was[off + 1]) && header + plLen <= size
    requires was[off + 1] >= 128 && s == was[off..off + size] && key == was[off + header - 4..off + header]
    ensures && |s| >= HeaderLength(s[1]) && MaskingOf(s) == Masked(key)
            && was[off + header..off + header + plLen] == s[header..header + plLen]
  {
    SubSlice(was, off, size, header, header + plLen);
    SubSlice(was, off, size, header - 4, header);
  }

  /** What unmasking the payload of a complete frame amounts to. */
  lemma PayloadUnmasked(was: Bytes, off: nat, size: nat, header: nat, plLen: nat)
    requires off + size <= |was| && size >= 2 && size >= HeaderLength(was[off + 1]) && header == HeaderLength(was[off + 1])
    requires header + plLen <= size
    ensures var s, data := was[off..off + size], was[off + header..off + header + plLen];
      && |s| >= 2 && |s| >= HeaderLength(s[1])
      && Mask(MaskingOf(s), s[header..header + plLen])
         == if was[off + 1] >= 128 then Mask(Masked(was[off + header - 4..off + header]), data) else data
  {
    SubSlice(was, off, size, header, header + plLen);
    if was[off + 1] >= 128 {
      MaskedSlices(was, off, size, header, plLen, was[off..off + size], was[off + header - 4..off + header]);
    }
  }

  lemma ScanWhole(s: Bytes, header: nat, plLen: nat, fin: bool, opcode: byte, payload: Bytes)
    requires |s| >= 2 && |s| >= HeaderLength(s[1]) && header == HeaderLength(s[1]) && plLen == PayloadLength(s)
    requires |s| >= header + plLen && payload == Mask(MaskingOf(s), s[header..header + plLen])
    requires opcode == s[0] % 16 && fin == (s[0] >= 128)
    ensures Scan(s) == Whole(Frame(fin, opcode, payload), header + plLen)
  {
  }

  /** When `Drain` stops. */
  lemma HandledStop(a: Assembler, s: Bytes, capacity: nat)
    requires s != []
    ensures Scan(s).NeedHeader? ==> Handled(a, s, capacity) == (a, |s|)
    ensures Scan(s).NeedPayload? ==>
              Handled(a, s, capacity) == (if Scan(s).total > capacity then Receiver.Close(a, TOO_BIG, []) else a, |s|)
    ensures Scan(s).Whole? && IsClosing(s) ==> Handled(a, s, capacity) == (Deliver(a, Scan(s).frame, capacity), 0)
  {
  }

  lemma HandledNothing(a: Assembler, s: Bytes, capacity: nat)
    requires |s| == 0
    ensures Handled(a, s, capacity) == (a, 0)
  {
  }

  /** How `Drain` goes on. */
  lemma HandledOn(a: Assembler, s: Bytes, a': Assembler, rest: Bytes, capacity: nat)
    requires s != [] && Scan(s).Whole? && !IsClosing(s) && a' == Deliver(a, Scan(s).frame, capacity)
    requires |rest| == |s| - Scan(s).total && rest == s[|s| - |rest|..]
    ensures Handled(a, s, capacity) == Handled(a', rest, capacity)
  {
  }

  /** The same on the buffer's contents before and after the frame was handled. */
  lemma OneFrameOn(was: Bytes, now: Bytes, at: nat, end: nat, a: Assembler, a': Assembler, remaining: nat, capacity: nat)
    requires at < end <= |was| == |now|
    requires var s := was[at..end];
      && Scan(s).Whole? && !IsClosing(s) && a' == Deliver(a, Scan(s).frame, capacity)
      && remaining == end - at - Scan(s).total < end - at && now[at + Scan(s).total..] == was[at + Scan(s).total..]
    ensures Handled(a, was[at..end], capacity) == Handled(a', now[end - remaining..end], capacity)
  {
    SameSuffix(was, now, at, end - at, end - remaining, remaining);
    HandledOn(a, was[at..end], a', now[end - remaining..end], capacity);
  }

  /** What `HandleOneWSMsg` has done, as the loop sees it. */
  lemma FrameHandled(was: Bytes, now: Bytes, at: nat, end: nat, a: Assembler, a': Assembler, remaining: nat, capacity: nat)
    requires at < end <= |was| == |now| && remaining <= end - at
    requires FrameOutcome(was, now, at, end - at, a, a', remaining, capacity)
    ensures remaining == end - at ==> Handled(a, was[at..end], capacity) == (a', remaining) && now == was
    ensures remaining < end - at && was[at] % 16 == OPCODE_CLOSE ==> Handled(a, was[at..end], capacity) == (a', 0)
    ensures remaining < end - at && was[at] % 16 != OPCODE_CLOSE ==>
      Handled(a, was[at..end], capacity) == Handled(a', now[end - remaining..end], capacity)
    ensures now[end - remaining..] == was[end - remaining..] && now[end..] == was[end..]
  {
    assert was[at..end][0] == was[at];
    HandledStop(a, was[at..end], capacity);
    if remaining < end - at {
      LaterSuffix(was, now, now, end - remaining, end);
      if was[at] % 16 != OPCODE_CLOSE {
        OneFrameOn(was, now, at, end, a, a', remaining, capacity);
      }
    }
  }

  lemma FrameStep(was: Bytes, now: Bytes, at: nat, end: nat, a: Assembler, a': Assembler, remaining: nat, capacity: nat)
    requires at < end <= |was| == |now| && remaining <= end - at
    requires FrameOutcome(was, now, at, end - at, a, a', remaining, capacity)
    ensures var (next, stop) := Onward(was[at], at, end, remaining); LoopStep(was, now, at, end, a, a', next, stop, capacity)
  {
  }

  lemma StepHandled(was: Bytes, now: Bytes, at: nat, end: nat, a: Assembler, a': Assembler, next: nat, stop: bool, capacity: nat)
    requires at < end <= |was| == |now| && LoopStep(was, now, at, end, a, a', next, stop, capacity)
    ensures at <= next <= end && (!stop ==> at < next) && now[next..] == was[next..]
    ensures stop ==> Handled(a, was[at..end], capacity) == (a', end - next)
    ensures !stop ==> Handled(a, was[at..end], capacity) == Handled(a', now[next..end], capacity)
  {
    var remaining: nat :| remaining <= end - at && FrameOutcome(was, now, at, end - at, a, a', remaining, capacity)
      && (next, stop) == Onward(was[at], at, end, remaining);
    FrameHandled(was, now, at, end, a, a', remaining, capacity);
  }

  lemma LaterSuffix(was: Bytes, now: Bytes, after: Bytes, i: nat, j: nat)
    requires i <= j <= |was| == |now| == |after| && now[i..] == was[i..] && after[j..] == now[j..]
    ensures after[j..] == was[j..]
  {
    assert now[j..] == now[i..][j - i..] && was[j..] == was[i..][j - i..];
  }

  lemma LaterRange(was: Bytes, after: Bytes, i: nat, j: nat)
    requires i <= j <= |was| == |after| && after[i..] == was[i..]
    ensures after[i..j] == was[i..j]
  {
    assert after[i..j] == after[i..][..j - i] && was[i..j] == was[i..][..j - i];
  }

  lemma SuffixOfRange(a: Bytes, i: nat, j: nat, n: nat, s: Bytes)
    requires i <= j <= |a| && n <= j - i && a[i..j] == s
    ensures a[j - n..j] == s[|s| - n..]
  {
  }

  lemma ReadIs(c: Connection, chunk: Bytes, asm: Assembler, rest: Bytes, capacity: nat)
    requires |rest| <= |c.pending + chunk| && rest == (c.pending + chunk)[|c.pending + chunk| - |rest|..]
    requires Handled(c.asm, c.pending + chunk, capacity) == (asm, |rest|)
    ensures Receiver.Read(c, chunk, capacity) == Settled(asm, rest, Tail(c) + |chunk|, capacity)
  {
  }

  lemma SubSlice(a: Bytes, off: nat, size: nat, i: nat, j: nat)
    requires off + size <= |a| && i <= j <= size
    ensures a[off..off + size][i..j] == a[off + i..off + j]
  {
    var x, y := a[off..off + size][i..j], a[off + i..off + j];
    assert forall k :: 0 <= k < j - i ==> x[k] == a[off + i + k] == y[k];
  }

  lemma SameSuffix(a: Bytes, b: Bytes, at: nat, n: nat, from: nat, rest: nat)
    requires |a| == |b| && at + n <= |a| && from + rest == at + n && rest <= n && a[from..] == b[from..]
    ensures b[from..from + rest] == a[at..at + n][n - rest..]
  {
    SubSlice(a, at, n, n - rest, n);
    assert a[at..at + n][n - rest..] == a[from..at + n];
    assert a[from..at + n] == a[from..][..rest] && b[from..at + n] == b[from..][..rest];
  }

  /** Masking with the zero key changes nothing. */
  lemma ZeroKey(payload: Bytes)
    ensures Mask(Masked([0, 0, 0, 0]), payload) == payload
  {
    Pow2Of8();
    forall i | 0 <= i < |payload|
      ensures Mask(Masked([0, 0, 0, 0]), payload)[i] == payload[i]
    {
      XorZero(payload[i] as nat, 8);
    }
  }

  lemma EncodedWithZeroKey(f: Frame, masking: Masking)
    requires masking == Unmasked || masking == Masked([0, 0, 0, 0])
    ensures Encode(f, masking) == Header(f, masking) + f.payload
  {
    ZeroKey(f.payload);
    assert Mask(masking, f.payload) == f.payload;
  }

  /** `htobe16` / `htobe64` into the header buffer, after its first two bytes. */
  /** The length of the payload: seven bits, or a mark and two or eight more bytes. */
  method PutLength(h: array<byte>, n: nat) returns (hLen: nat)
    requires h.Length == 14 && h[1] <= 128
    modifies h
    ensures 2 <= hLen <= 14 && h[0] == old(h[0]) && h[1] == old(h[1]) + LengthField(n).0
    ensures h[2..hLen] == LengthField(n).1
  {
    hLen := 2;
    if n < 126 {
      h[1] := h[1] + n as byte;
    } else if n < 65536 {
      h[1] := h[1] + 126;
      PutBigEndian(h, n, 2);
      hLen := 4;
    } else {
      h[1] := h[1] + 127;
      PutBigEndian(h, n, 8);
      hLen := 10;
    }
  }

  method PutBigEndian(h: array<byte>, n: nat, k: nat)
    requires h.Length == 14 && k <= 8
    modifies h
    ensures h[2..2 + k] == BigEndian(n, k) && h[0] == old(h[0]) && h[1] == old(h[1])
  {
    var rest, i := n, k;
    ghost var done: Bytes := [];
    while i > 0
      invariant 0 <= i <= k
      invariant h[2 + i..2 + k] == done
      invariant BigEndian(n, k) == BigEndian(rest, i) + done
      invariant h[0] == old(h[0]) && h[1] == old(h[1])
    {
      i := i - 1;
      h[2 + i] := (rest % 256) as byte;
      done := [(rest % 256) as byte] + done;
      assert h[2 + i..2 + k] == [h[2 + i]] + h[2 + i + 1..2 + k];
      assert BigEndian(rest, i + 1) == BigEndian(rest / 256, i) + [(rest % 256) as byte];
      rest := rest / 256;
    }
  }

  method ReadBigEndian(a: array<byte>, at: nat, k: nat) returns (n: nat)
    requires at + k <= a.Length
    ensures n == FromBigEndian(a[at..at + k])
  {
    n := 0;
    for i := 0 to k
      invariant n == FromBigEndian(a[at..at + i])
    {
      FromBigEndianSnoc(a[at..at + i], a[at + i]);
      assert a[at..at + i + 1] == a[at..at + i] + [a[at + i]];
      n := 256 * n + a[at + i] as nat;
    }
  }

  /** `be64toh(...) & ~(1ULL << 63)`. */
  method ReadLongLength(a: array<byte>, at: nat) returns (n: nat)
    requires at + 8 <= a.Length
    ensures n == FromBigEndian([a[at] % 128] + a[at + 1..at + 8])
  {
    n := (a[at] % 128) as nat;
    ghost var low := [a[at] % 128];
    assert low[..0] == [];
    assert FromBigEndian(low) == n;
    for i := 1 to 8
      invariant n == FromBigEndian(low + a[at + 1..at + i])
    {
      FromBigEndianSnoc(low + a[at + 1..at + i], a[at + i]);
      assert low + a[at + 1..at + i + 1] == (low + a[at + 1..at + i]) + [a[at + i]];
      n := 256 * n + a[at + i] as nat;
    }
  }
}
