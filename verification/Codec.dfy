// Byte encodings: big-endian integers, length-prefixed strings, and why a reader can take them apart.
module Codec {
  import opened Wrappers
  import opened Words

  /** `(x as u32).to_be_bytes()`: higher bits are cut off. */
  function Be32(x: nat): (b: bytes)
    ensures |b| == 4
  {
    [x / 0x100_0000 % 256, x / 0x1_0000 % 256, x / 0x100 % 256, x % 256]
  }

  function FromBe32(b: bytes): u32
    requires |b| == 4
  {
    b[0] as int * 0x100_0000 + b[1] as int * 0x1_0000 + b[2] as int * 0x100 + b[3] as int
  }

  lemma Be32RoundTrip(x: u32)
    ensures FromBe32(Be32(x)) == x
  {
    assert x / 0x100_0000 < 256;
    assert x / 0x1_0000 == x / 0x100_0000 * 256 + x / 0x1_0000 % 256;
    assert x / 0x100 == x / 0x1_0000 * 256 + x / 0x100 % 256;
    assert x == x / 0x100 * 256 + x % 256;
  }

  lemma Be32Back(b: bytes)
    requires |b| == 4
    ensures Be32(FromBe32(b)) == b
  {
    var x := FromBe32(b);
    assert x / 0x100 == b[0] as int * 0x1_0000 + b[1] as int * 0x100 + b[2] as int;
    assert x / 0x1_0000 == b[0] as int * 0x100 + b[1] as int;
    assert x / 0x100_0000 == b[0];
  }

  function Be64(x: u64): (b: bytes)
    ensures |b| == 8
  {
    Be32(x / U32_LIMIT) + Be32(x % U32_LIMIT)
  }

  lemma Be64Injective(x: u64, y: u64)
    requires Be64(x) == Be64(y)
    ensures x == y
  {
    assert Be64(x)[..4] == Be32(x / U32_LIMIT) && Be64(x)[4..] == Be32(x % U32_LIMIT);
    assert Be64(y)[..4] == Be32(y / U32_LIMIT) && Be64(y)[4..] == Be32(y % U32_LIMIT);
    Be32RoundTrip(x / U32_LIMIT);
    Be32RoundTrip(y / U32_LIMIT);
    Be32RoundTrip(x % U32_LIMIT);
    Be32RoundTrip(y % U32_LIMIT);
  }

  /** A string with its u32 length in front. */
  function Lp(b: bytes): bytes {
    Be32(|b|) + b
  }

  predicate Short(b: bytes) {
    |b| < U32_LIMIT
  }

  /** Equal concatenations of equally long heads have equal heads and equal tails. */
  lemma Peel(a: bytes, x: bytes, b: bytes, y: bytes)
    requires |a| == |b| && a + x == b + y
    ensures a == b && x == y
  {
    assert a == (a + x)[..|a|] && b == (b + y)[..|b|];
    assert x == (a + x)[|a|..] && y == (b + y)[|b|..];
  }

  /** Length-prefixed heads peel without knowing their lengths. */
  lemma PeelLp(a: bytes, x: bytes, b: bytes, y: bytes)
    requires Short(a) && Short(b) && Lp(a) + x == Lp(b) + y
    ensures a == b && x == y
  {
    assert Lp(a) + x == Be32(|a|) + (a + x) && Lp(b) + y == Be32(|b|) + (b + y);
    Peel(Be32(|a|), a + x, Be32(|b|), b + y);
    Be32RoundTrip(|a|);
    Be32RoundTrip(|b|);
    Peel(a, x, b, y);
  }

  function LpAll(parts: seq<bytes>): bytes {
    if parts == [] then [] else Lp(parts[0]) + LpAll(parts[1..])
  }

  predicate AllShort(parts: seq<bytes>) {
    |parts| < U32_LIMIT && forall p | p in parts :: Short(p)
  }

  lemma {:induction false} PeelLpAll(a: seq<bytes>, x: bytes, b: seq<bytes>, y: bytes)
    requires |a| == |b| && AllShort(a) && AllShort(b) && LpAll(a) + x == LpAll(b) + y
    ensures a == b && x == y
  {
    if a == [] {
      assert LpAll(a) + x == x && LpAll(b) + y == y;
    } else {
      assert LpAll(a) + x == Lp(a[0]) + (LpAll(a[1..]) + x);
      assert LpAll(b) + y == Lp(b[0]) + (LpAll(b[1..]) + y);
      PeelLp(a[0], LpAll(a[1..]) + x, b[0], LpAll(b[1..]) + y);
      PeelLpAll(a[1..], x, b[1..], y);
      assert a == [a[0]] + a[1..] && b == [b[0]] + b[1..];
    }
  }

  /** A counted list: its length, then each item with its own length. */
  function Counted(parts: seq<bytes>): bytes {
    Be32(|parts|) + LpAll(parts)
  }

  lemma PeelCounted(a: seq<bytes>, x: bytes, b: seq<bytes>, y: bytes)
    requires AllShort(a) && AllShort(b) && Counted(a) + x == Counted(b) + y
    ensures a == b && x == y
  {
    assert Counted(a) + x == Be32(|a|) + (LpAll(a) + x) && Counted(b) + y == Be32(|b|) + (LpAll(b) + y);
    Peel(Be32(|a|), LpAll(a) + x, Be32(|b|), LpAll(b) + y);
    Be32RoundTrip(|a|);
    Be32RoundTrip(|b|);
    PeelLpAll(a, x, b, y);
  }

  datatype PopError = PrefixCut | PayloadCut

  /** `pop_bytes`: the payload, and what is left of the cursor. */
  function PopBytes(cur: bytes): Result<(bytes, bytes), PopError> {
    if |cur| < 4 then Failure(PrefixCut)
    else
      var len := FromBe32(cur[..4]);
      var rest := cur[4..];
      if |rest| < len then Failure(PayloadCut)
      else Success((rest[..len], rest[len..]))
  }

  /** Popping is the inverse of pushing, in both directions. */
  lemma PopInvertsPush(cur: bytes, payload: bytes, rest: bytes)
    ensures PopBytes(cur) == Success((payload, rest)) <==> Short(payload) && cur == Lp(payload) + rest
  {
    if Short(payload) && cur == Lp(payload) + rest {
      Be32RoundTrip(|payload|);
      assert cur[..4] == Be32(|payload|) && cur[4..] == payload + rest;
    }
    if PopBytes(cur) == Success((payload, rest)) {
      Be32Back(cur[..4]);
      assert cur == cur[..4] + (payload + rest);
    }
  }
}
