/**
 The examples of RFC 6455, section 5.7, octet by octet.
 */
module FrameExamples {
  import opened Bits
  import opened Frames

  const TEXT: byte := 1
  const PING: byte := 9
  const PONG: byte := 10
  const HELLO: Bytes := [0x48, 0x65, 0x6c, 0x6c, 0x6f]
  const KEY: Bytes := [0x37, 0xfa, 0x21, 0x3d]
  const MASKED_HELLO: Bytes := [0x7f, 0x9f, 0x4d, 0x51, 0x58]

  /** Octets by their binary digits. */
  lemma XorIs(a: byte, b: byte, c: byte, x: seq<bool>, y: seq<bool>)
    requires |x| == |y| == 8 && a as nat == Octet(x) && b as nat == Octet(y) && c as nat == Octet(Differing(x, y))
    ensures Xor(a, b) == c
  {
    XorOctet(x, y);
  }

  lemma FirstOctet(a: byte, b: byte)
    requires a == 0x48 && b == 0x37
    ensures Xor(a, b) == 0x7f
  {
    XorIs(a, b, 0x7f, [false, true, false, false, true, false, false, false], [false, false, true, true, false, true, true, true]);
  }

  lemma SecondOctet(a: byte, b: byte)
    requires a == 0x65 && b == 0xfa
    ensures Xor(a, b) == 0x9f
  {
    XorIs(a, b, 0x9f, [false, true, true, false, false, true, false, true], [true, true, true, true, true, false, true, false]);
  }

  lemma ThirdOctet(a: byte, b: byte)
    requires a == 0x6c && b == 0x21
    ensures Xor(a, b) == 0x4d
  {
    XorIs(a, b, 0x4d, [false, true, true, false, true, true, false, false], [false, false, true, false, false, false, false, true]);
  }

  lemma FourthOctet(a: byte, b: byte)
    requires a == 0x6c && b == 0x3d
    ensures Xor(a, b) == 0x51
  {
    XorIs(a, b, 0x51, [false, true, true, false, true, true, false, false], [false, false, true, true, true, true, false, true]);
  }

  lemma FifthOctet(a: byte, b: byte)
    requires a == 0x6f && b == 0x37
    ensures Xor(a, b) == 0x58
  {
    XorIs(a, b, 0x58, [false, true, true, false, true, true, true, true], [false, false, true, true, false, true, true, true]);
  }

  lemma MaskedOctets(payload: Bytes, key: Bytes)
    requires payload == HELLO && key == KEY
    ensures Mask(Masked(key), payload) == MASKED_HELLO
  {
    var m := Mask(Masked(key), payload);
    FirstOctet(payload[0], key[0]);
    SecondOctet(payload[1], key[1]);
    ThirdOctet(payload[2], key[2]);
    FourthOctet(payload[3], key[3]);
    FifthOctet(payload[4], key[0]);
    assert m == [m[0], m[1], m[2], m[3], m[4]];
  }

  /** An unmasked text message in one frame and in two, and a ping with that body. */
  lemma HelloEncoded()
    ensures Encode(Frame(true, TEXT, HELLO), Unmasked) == [0x81, 0x05, 0x48, 0x65, 0x6c, 0x6c, 0x6f]
    ensures Encode(Frame(false, TEXT, HELLO[..3]), Unmasked) == [0x01, 0x03, 0x48, 0x65, 0x6c]
    ensures Encode(Frame(true, OPCODE_CONT, HELLO[3..]), Unmasked) == [0x80, 0x02, 0x6c, 0x6f]
    ensures Encode(Frame(true, PING, HELLO), Unmasked) == [0x89, 0x05, 0x48, 0x65, 0x6c, 0x6c, 0x6f]
  {
  }

  /** The message masked, and the pong. */
  lemma HelloMasked()
    ensures Encode(Frame(true, TEXT, HELLO), Masked(KEY)) ==
            [0x81, 0x85, 0x37, 0xfa, 0x21, 0x3d, 0x7f, 0x9f, 0x4d, 0x51, 0x58]
    ensures Encode(Frame(true, PONG, HELLO), Masked(KEY)) ==
            [0x8a, 0x85, 0x37, 0xfa, 0x21, 0x3d, 0x7f, 0x9f, 0x4d, 0x51, 0x58]
  {
    MaskedOctets(HELLO, KEY);
  }

  /** And read back. */
  lemma HelloScanned()
    ensures Scan([0x81, 0x85, 0x37, 0xfa, 0x21, 0x3d, 0x7f, 0x9f, 0x4d, 0x51, 0x58]) == Whole(Frame(true, TEXT, HELLO), 11)
    ensures Scan([0x81, 0x05, 0x48, 0x65, 0x6c, 0x6c, 0x6f]) == Whole(Frame(true, TEXT, HELLO), 7)
  {
    HelloEncoded();
    HelloMasked();
    ScanEncoded(Frame(true, TEXT, HELLO), Masked(KEY));
    ScanEncoded(Frame(true, TEXT, HELLO), Unmasked);
  }

  /** 256 and 65536 octets of binary data. */
  lemma LongHeaders(data: Bytes)
    ensures |data| == 256 ==> Header(Frame(true, 2, data), Unmasked) == [0x82, 0x7e, 0x01, 0x00]
    ensures |data| == 65536 ==> Header(Frame(true, 2, data), Unmasked) == [0x82, 0x7f, 0, 0, 0, 0, 0, 1, 0, 0]
  {
    if |data| == 256 {
      TwoOctets(256);
    } else if |data| == 65536 {
      EightOctets(65536);
    }
  }
}
