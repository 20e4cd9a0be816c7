/** Bytes, and bitwise operations on the low bits of integers, bit by bit. */
module Bits {
  newtype byte = x: int | 0 <= x < 256
  type Bytes = seq<byte>

  function Pow2(n: nat): (p: nat)
    ensures p >= 1
  {
    if n == 0 then 1 else 2 * Pow2(n - 1)
  }

  lemma Pow2Of8()
    ensures Pow2(8) == 256
  {
    assert Pow2(4) == 16;
  }

  lemma Pow2Of32()
    ensures Pow2(32) == 0x1_0000_0000
  {
    Pow2Of8();
    assert Pow2(12) == 4096;
    assert Pow2(16) == 65536;
    assert Pow2(20) == 1048576;
    assert Pow2(24) == 16777216;
    assert Pow2(28) == 268435456;
  }

  function XorBits(a: nat, b: nat, n: nat): (r: nat)
    ensures r < Pow2(n)
  {
    if n == 0 then 0 else 2 * XorBits(a / 2, b / 2, n - 1) + (if a % 2 == b % 2 then 0 else 1)
  }

  function AndBits(a: nat, b: nat, n: nat): (r: nat)
    ensures r < Pow2(n)
  {
    if n == 0 then 0 else 2 * AndBits(a / 2, b / 2, n - 1) + (if a % 2 == 1 && b % 2 == 1 then 1 else 0)
  }

  function OrBits(a: nat, b: nat, n: nat): (r: nat)
    ensures r < Pow2(n)
  {
    if n == 0 then 0 else 2 * OrBits(a / 2, b / 2, n - 1) + (if a % 2 == 1 || b % 2 == 1 then 1 else 0)
  }

  function NotBits(a: nat, n: nat): (r: nat)
    ensures r < Pow2(n)
  {
    if n == 0 then 0 else 2 * NotBits(a / 2, n - 1) + (if a % 2 == 1 then 0 else 1)
  }

  /** Bit `i` of a number. */
  function Bit(a: nat, i: nat): bool {
    if i == 0 then a % 2 == 1 else Bit(a / 2, i - 1)
  }

  // Every operation acts on the last bit and on the rest separately.

  lemma XorParts(a: nat, b: nat, n: nat)
    requires n > 0
    ensures XorBits(a, b, n) / 2 == XorBits(a / 2, b / 2, n - 1)
    ensures XorBits(a, b, n) % 2 == (if a % 2 == b % 2 then 0 else 1)
  {
  }

  lemma AndParts(a: nat, b: nat, n: nat)
    requires n > 0
    ensures AndBits(a, b, n) / 2 == AndBits(a / 2, b / 2, n - 1)
    ensures AndBits(a, b, n) % 2 == (if a % 2 == 1 && b % 2 == 1 then 1 else 0)
  {
  }

  lemma OrParts(a: nat, b: nat, n: nat)
    requires n > 0
    ensures OrBits(a, b, n) / 2 == OrBits(a / 2, b / 2, n - 1)
    ensures OrBits(a, b, n) % 2 == (if a % 2 == 1 || b % 2 == 1 then 1 else 0)
  {
  }

  lemma NotParts(a: nat, n: nat)
    requires n > 0
    ensures NotBits(a, n) / 2 == NotBits(a / 2, n - 1)
    ensures NotBits(a, n) % 2 == (if a % 2 == 1 then 0 else 1)
  {
  }

  /** Two numbers below 2^n with the same halves and parities are equal. */
  lemma SameParts(a: nat, b: nat)
    requires a / 2 == b / 2 && a % 2 == b % 2
    ensures a == b
  {
  }

  // Every operation, bit by bit.

  lemma {:induction false} XorAt(a: nat, b: nat, n: nat, i: nat)
    requires i < n
    ensures Bit(XorBits(a, b, n), i) <==> (Bit(a, i) != Bit(b, i))
  {
    XorParts(a, b, n);
    if i > 0 {
      XorAt(a / 2, b / 2, n - 1, i - 1);
    }
  }

  lemma {:induction false} AndAt(a: nat, b: nat, n: nat, i: nat)
    requires i < n
    ensures Bit(AndBits(a, b, n), i) <==> Bit(a, i) && Bit(b, i)
  {
    AndParts(a, b, n);
    if i > 0 {
      AndAt(a / 2, b / 2, n - 1, i - 1);
    }
  }

  lemma {:induction false} OrAt(a: nat, b: nat, n: nat, i: nat)
    requires i < n
    ensures Bit(OrBits(a, b, n), i) <==> Bit(a, i) || Bit(b, i)
  {
    OrParts(a, b, n);
    if i > 0 {
      OrAt(a / 2, b / 2, n - 1, i - 1);
    }
  }

  lemma {:induction false} NotAt(a: nat, n: nat, i: nat)
    requires i < n
    ensures Bit(NotBits(a, n), i) <==> !Bit(a, i)
  {
    NotParts(a, n);
    if i > 0 {
      NotAt(a / 2, n - 1, i - 1);
    }
  }

  lemma {:induction false} XorTwice(a: nat, k: nat, n: nat)
    requires a < Pow2(n)
    ensures XorBits(XorBits(a, k, n), k, n) == a
  {
    if n > 0 {
      XorParts(a, k, n);
      XorTwice(a / 2, k / 2, n - 1);
      XorParts(XorBits(a, k, n), k, n);
      SameParts(XorBits(XorBits(a, k, n), k, n), a);
    }
  }

  lemma {:induction false} XorZero(a: nat, n: nat)
    requires a < Pow2(n)
    ensures XorBits(a, 0, n) == a
  {
    if n > 0 {
      XorZero(a / 2, n - 1);
    }
  }

  lemma {:induction false} ZeroXor(a: nat, n: nat)
    requires a < Pow2(n)
    ensures XorBits(0, a, n) == a
  {
    if n > 0 {
      ZeroXor(a / 2, n - 1);
    }
  }

  /** The number with these binary digits, most significant first. */
  function Number(digits: seq<bool>): nat {
    if digits == [] then 0 else 2 * Number(digits[..|digits| - 1]) + (if digits[|digits| - 1] then 1 else 0)
  }

  function Differing(x: seq<bool>, y: seq<bool>): (r: seq<bool>)
    requires |x| == |y|
    ensures |r| == |x|
  {
    seq(|x|, i requires 0 <= i < |x| => x[i] != y[i])
  }

  lemma {:induction false} XorNumber(x: seq<bool>, y: seq<bool>)
    requires |x| == |y|
    ensures XorBits(Number(x), Number(y), |x|) == Number(Differing(x, y))
  {
    if x != [] {
      var k := |x| - 1;
      XorNumber(x[..k], y[..k]);
      assert Differing(x, y)[..k] == Differing(x[..k], y[..k]);
      XorParts(Number(x), Number(y), |x|);
      assert Number(x) / 2 == Number(x[..k]) && Number(y) / 2 == Number(y[..k]);
    }
  }

  /** Eight binary digits. */
  function Octet(x: seq<bool>): nat
    requires |x| == 8
  {
    (if x[0] then 128 else 0) + (if x[1] then 64 else 0) + (if x[2] then 32 else 0) + (if x[3] then 16 else 0)
    + (if x[4] then 8 else 0) + (if x[5] then 4 else 0) + (if x[6] then 2 else 0) + (if x[7] then 1 else 0)
  }

  lemma NumberPrefix(x: seq<bool>, k: nat)
    requires 0 < k <= |x|
    ensures Number(x[..k]) == 2 * Number(x[..k - 1]) + (if x[k - 1] then 1 else 0)
  {
    assert x[..k][..k - 1] == x[..k - 1];
  }

  lemma FourDigits(x: seq<bool>)
    requires |x| >= 4
    ensures Number(x[..4]) == (if x[0] then 8 else 0) + (if x[1] then 4 else 0) + (if x[2] then 2 else 0) + (if x[3] then 1 else 0)
  {
    NumberPrefix(x, 1);
    NumberPrefix(x, 2);
    NumberPrefix(x, 3);
    NumberPrefix(x, 4);
    assert x[..0] == [];
  }

  lemma OctetIs(x: seq<bool>)
    requires |x| == 8
    ensures Number(x) == Octet(x)
  {
    FourDigits(x);
    NumberPrefix(x, 5);
    NumberPrefix(x, 6);
    NumberPrefix(x, 7);
    NumberPrefix(x, 8);
    assert x[..8] == x;
  }

  lemma XorOctet(x: seq<bool>, y: seq<bool>)
    requires |x| == |y| == 8
    ensures XorBits(Octet(x), Octet(y), 8) == Octet(Differing(x, y))
  {
    OctetIs(x);
    OctetIs(y);
    OctetIs(Differing(x, y));
    XorNumber(x, y);
  }

  /** Choosing by mask: `(b & (c ^ d)) ^ d` picks c where b is set and d elsewhere. */
  lemma {:induction false} ChoiceForm(b: nat, c: nat, d: nat, n: nat)
    ensures XorBits(AndBits(b, XorBits(c, d, n), n), d, n)
         == XorBits(AndBits(b, c, n), AndBits(NotBits(b, n), d, n), n)
  {
    if n > 0 {
      XorParts(c, d, n);
      AndParts(b, XorBits(c, d, n), n);
      XorParts(AndBits(b, XorBits(c, d, n), n), d, n);
      AndParts(b, c, n);
      NotParts(b, n);
      AndParts(NotBits(b, n), d, n);
      XorParts(AndBits(b, c, n), AndBits(NotBits(b, n), d, n), n);
      ChoiceForm(b / 2, c / 2, d / 2, n - 1);
      SameParts(XorBits(AndBits(b, XorBits(c, d, n), n), d, n),
                XorBits(AndBits(b, c, n), AndBits(NotBits(b, n), d, n), n));
    }
  }

  /** The majority of three bits, in both of its usual forms. */
  lemma {:induction false} MajorityForm(b: nat, c: nat, d: nat, n: nat)
    ensures OrBits(AndBits(OrBits(b, c, n), d, n), AndBits(b, c, n), n)
         == XorBits(XorBits(AndBits(b, c, n), AndBits(b, d, n), n), AndBits(c, d, n), n)
  {
    if n > 0 {
      OrParts(b, c, n);
      AndParts(OrBits(b, c, n), d, n);
      AndParts(b, c, n);
      OrParts(AndBits(OrBits(b, c, n), d, n), AndBits(b, c, n), n);
      AndParts(b, d, n);
      AndParts(c, d, n);
      XorParts(AndBits(b, c, n), AndBits(b, d, n), n);
      XorParts(XorBits(AndBits(b, c, n), AndBits(b, d, n), n), AndBits(c, d, n), n);
      MajorityForm(b / 2, c / 2, d / 2, n - 1);
      SameParts(OrBits(AndBits(OrBits(b, c, n), d, n), AndBits(b, c, n), n),
                XorBits(XorBits(AndBits(b, c, n), AndBits(b, d, n), n), AndBits(c, d, n), n));
    }
  }
}
