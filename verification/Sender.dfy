/**
 The sending end of a WebSocket connection, and the theorem that joins both ends:
 whatever sequence of `send` calls is made, the receiver reports each message once, in
 order, whole, however the transport cuts the bytes.
 */
module Sender {
  import opened Bits
  import opened Frames
  import opened Receiver

  /** One call of `send`. */
  datatype Call = Call(opcode: byte, payload: Bytes, fin: bool)

  predicate IsControl(opcode: byte) {
    opcode >= 8
  }

  /** The frame a call puts on the wire; `sendFin` says that no fragmented message is open. */
  function FrameOf(call: Call, sendFin: bool): Frame {
    if IsControl(call.opcode) then Frame(true, call.opcode, call.payload)
    else Frame(call.fin, if sendFin then call.opcode else OPCODE_CONT, call.payload)
  }

  function SendFinAfter(call: Call, sendFin: bool): bool {
    if IsControl(call.opcode) then sendFin else call.fin
  }

  /** The bytes written by a run of calls. */
  function Wire(calls: seq<Call>, sendFin: bool, masking: Masking): Bytes
    requires masking.Masked? ==> |masking.key| == 4
  {
    if calls == [] then []
    else Encode(FrameOf(calls[0], sendFin), masking) + Wire(calls[1..], SendFinAfter(calls[0], sendFin), masking)
  }

  // ------------------------------------------------- what the calls mean

  /** A message of which only the first fragments have been sent. */
  datatype Partial = NoMessage | Begun(opcode: byte, payload: Bytes)

  /** The messages a run of calls stands for (RFC 6455, section 5.4): a data message is reported
      when its last fragment is sent, with its first fragment's opcode and all its payload; control
      messages are reported where they occur, also between fragments; a close message is the last. */
  function Messages(calls: seq<Call>, partial: Partial): seq<Event> {
    if calls == [] then []
    else
      var call, later := calls[0], calls[1..];
      if call.opcode == OPCODE_CLOSE then [Closing(CloseStatus(call.payload), CloseReason(call.payload))]
      else if IsControl(call.opcode) then [Dispatched(call.opcode, call.payload)] + Messages(later, partial)
      else
        var opcode := if partial.Begun? then partial.opcode else call.opcode;
        var payload := if partial.Begun? then partial.payload + call.payload else call.payload;
        if call.fin then [Dispatched(opcode, payload)] + Messages(later, NoMessage)
        else Messages(later, Begun(opcode, payload))
  }

  /** Data calls name an opcode other than continuation; no frame is larger than
      `LargestFrame`; the payload of each fragmented message fits the reassembly buffer. */
  ghost predicate Sendable(calls: seq<Call>, partial: Partial, masking: Masking, capacity: nat)
    requires masking.Masked? ==> |masking.key| == 4
  {
    calls == [] ||
    var call := calls[0];
    var so := if partial.Begun? then partial.payload else [];
    && 1 <= call.opcode < 16 && |call.payload| < MAX_PAYLOAD
    && |Encode(FrameOf(call, partial.NoMessage?), masking)| <= LargestFrame(capacity)
    && (!IsControl(call.opcode) ==> |so| + |call.payload| <= capacity)
    && Sendable(calls[1..], After(call, partial), masking, capacity)
  }

  function After(call: Call, partial: Partial): Partial {
    if IsControl(call.opcode) then partial
    else if call.fin then NoMessage
    else if partial.Begun? then Begun(partial.opcode, partial.payload + call.payload)
    else Begun(call.opcode, call.payload)
  }

  /** The reassembly buffer holds what has been sent of the open message. */
  ghost predicate Matches(a: Assembler, partial: Partial) {
    match partial
    case NoMessage => a.fragments == []
    case Begun(opcode, payload) => a.fragments == payload && a.recvOpcode == opcode
  }

  // ------------------------------------------------------------------- theorems

  /** One frame: it is recognised, leaves the receiver in step, and reports what the call means. */
  lemma OneCall(a: Assembler, call: Call, partial: Partial, masking: Masking, rest: Bytes, capacity: nat)
    requires masking.Masked? ==> |masking.key| == 4
    requires Matches(a, partial) && 1 <= call.opcode < 16 && |call.payload| < MAX_PAYLOAD
    requires !IsControl(call.opcode) ==> |a.fragments| + |call.payload| <= capacity
    ensures var f := FrameOf(call, partial.NoMessage?); var e := Encode(f, masking);
            && Scan(e + rest) == Whole(f, |e|) && (e + rest)[|e|..] == rest && e + rest != []
            && (IsClosing(e + rest) <==> call.opcode == OPCODE_CLOSE)
            && RoomFor(a, f, capacity)
            && Matches(Deliver(a, f, capacity), After(call, partial))
  {
    var f := FrameOf(call, partial.NoMessage?);
    FrameRoundTrip(f, masking, rest);
    ScannedOpcode(Encode(f, masking) + rest);
  }

  lemma OneReport(a: Assembler, call: Call, later: seq<Call>, partial: Partial, capacity: nat)
    requires Matches(a, partial) && 1 <= call.opcode < 16
    requires !IsControl(call.opcode) ==> |a.fragments| + |call.payload| <= capacity
    ensures var a' := Deliver(a, FrameOf(call, partial.NoMessage?), capacity);
            a.log + Messages([call] + later, partial) ==
              a'.log + (if call.opcode == OPCODE_CLOSE then [] else Messages(later, After(call, partial)))
  {
    assert ([call] + later)[1..] == later;
  }

  /** Sender and receiver are inverse. */
  lemma {:induction false} SentIsReported(a: Assembler, calls: seq<Call>, partial: Partial, masking: Masking, capacity: nat)
    requires masking.Masked? ==> |masking.key| == 4
    requires Matches(a, partial) && Sendable(calls, partial, masking, capacity)
    ensures var s := Wire(calls, partial.NoMessage?, masking);
            && Drain(a, s, capacity).0.log == a.log + Messages(calls, partial)
            && Fits(a, s, capacity)
    decreases |calls|
  {
    if calls != [] {
      var call, later := calls[0], calls[1..];
      assert calls == [call] + later;
      var rest := Wire(later, SendFinAfter(call, partial.NoMessage?), masking);
      var a' := Deliver(a, FrameOf(call, partial.NoMessage?), capacity);
      OneCall(a, call, partial, masking, rest, capacity);
      OneReport(a, call, later, partial, capacity);
      assert SendFinAfter(call, partial.NoMessage?) == After(call, partial).NoMessage?;
      if call.opcode != OPCODE_CLOSE {
        SentIsReported(a', later, After(call, partial), masking, capacity);
      }
    }
  }

  /** End to end: any run of calls, any cut of its bytes into reads. */
  lemma EndToEnd(calls: seq<Call>, chunks: seq<Bytes>, masking: Masking, capacity: nat)
    requires masking.Masked? ==> |masking.key| == 4
    requires capacity >= 28 && capacity % 2 == 0
    requires Sendable(calls, NoMessage, masking, capacity)
    requires Concat(chunks) == Wire(calls, true, masking) && Feasible(CONNECTED, chunks, capacity)
    ensures ReadAll(CONNECTED, chunks, capacity).asm.log == Messages(calls, NoMessage)
  {
    SentIsReported(FRESH, calls, NoMessage, masking, capacity);
    assert [] + Concat(chunks) == Concat(chunks);
    ChunkingIndependence(CONNECTED, chunks, capacity);
  }
}
