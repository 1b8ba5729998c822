// XOR of a byte stream with a keystream that is indexed by position. ChaCha20 itself is abstract: a
// keystream is any function from positions to bytes.
module Keystream {
  import opened Words

  type Stream = nat -> byte

  function Pow2(n: nat): nat {
    if n == 0 then 1 else 2 * Pow2(n - 1)
  }

  function XorBits(a: nat, k: nat, bits: nat): nat {
    if bits == 0 then 0 else 2 * XorBits(a / 2, k / 2, bits - 1) + (a + k) % 2
  }

  lemma {:induction false} XorBitsRange(a: nat, k: nat, bits: nat)
    ensures XorBits(a, k, bits) < Pow2(bits)
  {
    if bits > 0 {
      XorBitsRange(a / 2, k / 2, bits - 1);
    }
  }

  lemma LastBit(high: nat, low: nat, k: nat, a: nat)
    requires low == (a + k) % 2
    ensures (2 * high + low) / 2 == high && (2 * high + low + k) % 2 == a % 2
  {
  }

  lemma {:induction false} XorBitsTwice(a: nat, k: nat, bits: nat)
    requires a < Pow2(bits)
    ensures XorBits(XorBits(a, k, bits), k, bits) == a
  {
    if bits > 0 {
      XorBitsTwice(a / 2, k / 2, bits - 1);
      var high, low := XorBits(a / 2, k / 2, bits - 1), (a + k) % 2;
      LastBit(high, low, k, a);
    }
  }

  function Xor(a: byte, k: byte): byte {
    XorBitsRange(a, k, 8);
    PowersOfTwo();
    XorBits(a, k, 8)
  }

  lemma XorTwice(a: byte, k: byte)
    ensures Xor(Xor(a, k), k) == a
  {
    PowersOfTwo();
    XorBitsTwice(a, k, 8);
  }

  // ----- what the operation is, bit by bit -----

  function Bit(x: nat, j: nat): nat {
    if j == 0 then x % 2 else Bit(x / 2, j - 1)
  }

  /** Bit `j` of the result is 1 exactly when the two bits differ. */
  lemma {:induction false} XorBitsDiffer(a: nat, k: nat, bits: nat, j: nat)
    requires j < bits
    ensures Bit(XorBits(a, k, bits), j) == (Bit(a, j) + Bit(k, j)) % 2
  {
    if j > 0 {
      XorBitsDiffer(a / 2, k / 2, bits - 1, j - 1);
    }
  }

  lemma {:induction false} BitHalves(x: nat, j: nat)
    ensures Bit(x, j) == Halved(x, j) % 2
  {
    if j > 0 {
      BitHalves(x / 2, j - 1);
    }
  }

  function Halved(x: nat, j: nat): nat {
    if j == 0 then x else Halved(x / 2, j - 1)
  }

  lemma PowersOfTwo()
    ensures Pow2(0) == 1 && Pow2(1) == 2 && Pow2(2) == 4 && Pow2(3) == 8
    ensures Pow2(4) == 16 && Pow2(5) == 32 && Pow2(6) == 64 && Pow2(7) == 128 && Pow2(8) == 256
  {
    assert Pow2(4) == 2 * Pow2(3);
    assert Pow2(8) == 2 * Pow2(7) && Pow2(7) == 2 * Pow2(6) && Pow2(6) == 2 * Pow2(5) && Pow2(5) == 2 * Pow2(4);
  }

  /** What is left of `x` above its last `j` binary digits. */
  function Shifted(x: nat, j: nat): int {
    PowersPositive(j);
    x / Pow2(j)
  }

  lemma {:induction false} PowersPositive(j: nat)
    ensures Pow2(j) > 0
  {
    if j > 0 {
      PowersPositive(j - 1);
    }
  }

  /** Halving `j` times divides by 2 to the `j`. */
  lemma {:induction false} HalvedIsShifted(x: nat, j: nat)
    requires j < 8
    ensures Halved(x, j) == Shifted(x, j)
  {
    PowersOfTwo();
    if j > 0 {
      HalvedIsShifted(x / 2, j - 1);
      hide Pow2;
      assert j in {1, 2, 3, 4, 5, 6, 7};
    }
  }

  lemma BitIsDigit(x: byte, j: nat)
    requires j < 8
    ensures Bit(x, j) == Shifted(x, j) % 2
  {
    BitHalves(x, j);
    HalvedIsShifted(x, j);
  }

  lemma {:induction false} BitIsBinary(x: nat, j: nat)
    ensures Bit(x, j) < 2 && Bit(0, j) == 0
  {
    if j > 0 {
      BitIsBinary(x / 2, j - 1);
    }
  }

  lemma ParityAdds(x: int, y: int)
    ensures (x % 2 + y % 2) % 2 == (x + y) % 2
  {
  }

  /** Numbers of `bits` bits with the same bits are the same. */
  lemma {:induction false} BitsDetermine(x: nat, y: nat, bits: nat)
    requires x < Pow2(bits) && y < Pow2(bits) && forall j | 0 <= j < bits :: Bit(x, j) == Bit(y, j)
    ensures x == y
  {
    if bits > 0 {
      forall j | 0 <= j < bits - 1 ensures Bit(x / 2, j) == Bit(y / 2, j) {
        assert Bit(x, j + 1) == Bit(y, j + 1);
      }
      BitsDetermine(x / 2, y / 2, bits - 1);
      assert Bit(x, 0) == Bit(y, 0);
    }
  }

  /** Exclusive or, digit by digit: each binary digit is the sum of the two, without carry. */
  lemma XorIsBitwise(a: byte, k: byte, j: nat)
    requires j < 8
    ensures Shifted(Xor(a, k), j) % 2 == (Shifted(a, j) + Shifted(k, j)) % 2
  {
    XorBitsDiffer(a, k, 8, j);
    BitIsDigit(Xor(a, k), j);
    BitIsDigit(a, j);
    BitIsDigit(k, j);
    hide Pow2, Bit, XorBits, Shifted;
    ParityAdds(Shifted(a, j), Shifted(k, j));
  }

  /** And that is all of it: the byte with these digits is the result. */
  lemma XorIsOnly(a: byte, k: byte, r: byte)
    requires forall j | 0 <= j < 8 :: Bit(r, j) == (Bit(a, j) + Bit(k, j)) % 2
    ensures r == Xor(a, k)
  {
    PowersOfTwo();
    forall j | 0 <= j < 8 ensures Bit(r, j) == Bit(Xor(a, k), j) {
      XorBitsDiffer(a, k, 8, j);
    }
    BitsDetermine(r, Xor(a, k), 8);
  }

  /** Masking a zero byte gives the keystream byte itself, and two keystream bytes that differ never mask a
      byte alike; in particular a byte stays as it was only under the zero byte. */
  lemma XorTellsKeys(a: byte, k: byte, k': byte)
    ensures Xor(0, k) == k && Xor(a, 0) == a
    ensures Xor(a, k) == Xor(a, k') <==> k == k'
    ensures Xor(a, k) == a <==> k == 0
  {
    forall j | 0 <= j < 8 ensures Bit(k, j) == (Bit(0, j) + Bit(k, j)) % 2 && Bit(a, j) == (Bit(a, j) + Bit(0, j)) % 2 {
      BitIsBinary(k, j);
      BitIsBinary(a, j);
    }
    XorIsOnly(0, k, k);
    XorIsOnly(a, 0, a);
    KeysFromResult(a, k, k');
    KeysFromResult(a, k, 0);
  }

  lemma KeysFromResult(a: byte, k: byte, k': byte)
    ensures Xor(a, k) == Xor(a, k') ==> k == k'
  {
    PowersOfTwo();
    hide Pow2, Bit, XorBits;
    if Xor(a, k) == Xor(a, k') {
      forall j | 0 <= j < 8 ensures Bit(k, j) == Bit(k', j) {
        XorBitsDiffer(a, k, 8, j);
        XorBitsDiffer(a, k', 8, j);
        BitIsBinary(k, j);
        BitIsBinary(k', j);
      }
      BitsDetermine(k, k', 8);
    }
  }

  /** `apply_keystream` on `data` by a cipher that stands at `pos`. */
  function Mask(ks: Stream, pos: nat, data: bytes): (r: bytes)
    ensures |r| == |data|
  {
    seq(|data|, i requires 0 <= i < |data| => Xor(data[i], ks(pos + i)))
  }

  lemma MaskTwice(ks: Stream, pos: nat, data: bytes)
    ensures Mask(ks, pos, Mask(ks, pos, data)) == data
  {
    forall i | 0 <= i < |data| ensures Mask(ks, pos, Mask(ks, pos, data))[i] == data[i] {
      XorTwice(data[i], ks(pos + i));
    }
  }

  /** The cipher may be applied piecewise. */
  lemma MaskSplits(ks: Stream, pos: nat, a: bytes, b: bytes)
    ensures Mask(ks, pos, a + b) == Mask(ks, pos, a) + Mask(ks, pos + |a|, b)
  {
  }

  lemma MaskPrefix(ks: Stream, pos: nat, a: bytes, n: nat)
    requires n <= |a|
    ensures Mask(ks, pos, a)[..n] == Mask(ks, pos, a[..n])
  {
  }

  /** What goes over the wire is the data exactly where the keystream is zero. */
  lemma MaskShowsData(ks: Stream, pos: nat, data: bytes, i: nat)
    requires i < |data|
    ensures Mask(ks, pos, data)[i] == data[i] <==> ks(pos + i) == 0
  {
    XorTellsKeys(data[i], ks(pos + i), 0);
  }

  /** A reader with a keystream of its own gets the data back exactly where the two keystreams agree. */
  lemma OtherKeystreamReads(ks: Stream, other: Stream, pos: nat, data: bytes, i: nat)
    requires i < |data|
    ensures Mask(other, pos, Mask(ks, pos, data))[i] == data[i] <==> other(pos + i) == ks(pos + i)
  {
    var masked := Xor(data[i], ks(pos + i));
    XorTwice(data[i], ks(pos + i));
    XorTellsKeys(masked, other(pos + i), ks(pos + i));
  }
}
