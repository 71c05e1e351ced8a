/** The Internet checksum (checksum/ft_checksum.c; RFC 1071). */
module Checksum {
  import opened CTypes

  /** The 16-bit word that a host of the given byte order reads from two bytes. */
  function Word(little: bool, a: byte, b: byte): uint16 {
    if little then a + 0x100 * b else 0x100 * a + b
  }

  /** The two bytes such a host writes for a word. */
  function HostBytes(little: bool, w: uint16): (r: (byte, byte))
    ensures Word(little, r.0, r.1) == w
  {
    if little then (w % 0x100, w / 0x100) else (w / 0x100, w % 0x100)
  }

  /** What the loop adds from position i on; an odd last byte is added as it stands. */
  function Sum(little: bool, buf: seq<byte>, i: nat): nat
    decreases |buf| - i
  {
    if i >= |buf| then 0
    else if i + 1 == |buf| then buf[i]
    else Word(little, buf[i], buf[i + 1]) + Sum(little, buf, i + 2)
  }

  // ----- one's-complement addition, the definition in section 1 of RFC 1071 -----

  /** 16-bit addition with the carry added back in. */
  function OnesAdd(a: uint16, b: uint16): uint16 {
    if a + b > 0xFFFF then a + b - 0xFFFF else a + b
  }

  /** The one's-complement sum of the words from position i on, an odd last byte padded with 0. */
  function OnesSum(little: bool, buf: seq<byte>, i: nat): uint16
    decreases |buf| - i
  {
    if i >= |buf| then 0
    else OnesAdd(Word(little, buf[i], if i + 1 < |buf| then buf[i + 1] else 0), OnesSum(little, buf, i + 2))
  }

  /** The 16-bit number congruent to s modulo 0xFFFF that is 0 only for 0. */
  function Canon(s: nat): uint16 {
    if s == 0 then 0 else 1 + (s - 1) % 0xFFFF
  }

  lemma CanonIs(s: nat, c: nat, k: nat)
    requires s == c + 0xFFFF * k && c <= 0xFFFF && (c == 0 ==> s == 0)
    ensures Canon(s) == c
  {
  }

  lemma CanonSplits(s: nat) returns (k: nat)
    ensures s == Canon(s) + 0xFFFF * k
  {
    k := if s == 0 then 0 else (s - 1) / 0xFFFF;
  }

  lemma CanonAdd(a: uint16, s: nat)
    ensures OnesAdd(a, Canon(s)) == Canon(a + s)
  {
    var k := CanonSplits(s);
    var c := OnesAdd(a, Canon(s));
    CanonIs(a + s, c, if a + Canon(s) > 0xFFFF then k + 1 else k);
  }

  lemma {:induction false} SumIsOnesSum(little: bool, buf: seq<byte>, i: nat)
    requires little || |buf| % 2 == i % 2
    ensures OnesSum(little, buf, i) == Canon(Sum(little, buf, i))
    decreases |buf| - i
  {
    if i + 1 == |buf| {
      assert OnesSum(little, buf, i + 2) == 0;
      assert Word(little, buf[i], 0) == buf[i];
      CanonIs(buf[i], buf[i], 0);
    } else if i < |buf| {
      SumIsOnesSum(little, buf, i + 2);
      CanonAdd(Word(little, buf[i], buf[i + 1]), Sum(little, buf, i + 2));
    }
  }

  /** The difference between an odd last byte as the high byte of its word and as the low one. */
  function Gap(b: byte): nat {
    var n: nat := b;
    0xFF * n
  }

  /** What an odd buffer lacks on a big-endian host: there the last byte is the high one of its word. */
  lemma {:induction false} OddTail(buf: seq<byte>, i: nat)
    requires i < |buf| && |buf| % 2 != i % 2
    ensures OnesSum(false, buf, i) == Canon(Sum(false, buf, i) + Gap(buf[|buf| - 1]))
    decreases |buf| - i
  {
    if i + 1 == |buf| {
      assert OnesSum(false, buf, i + 2) == 0;
      var high: uint16 := Word(false, buf[i], 0);
      CanonIs(high, high, 0);
    } else {
      OddTail(buf, i + 2);
      CanonAdd(Word(false, buf[i], buf[i + 1]), Sum(false, buf, i + 2) + Gap(buf[|buf| - 1]));
    }
  }

  lemma CanonShift(s: nat, b: byte)
    ensures Canon(s) == Canon(s + Gap(b)) <==> b == 0
  {
    var k := CanonSplits(s);
    var m := CanonSplits(s + Gap(b));
    if Canon(s) == Canon(s + Gap(b)) {
      assert b == 257 * (m - k);
    }
  }

  /** The words added as the loop adds them give the one's-complement sum exactly on a
      little-endian host, for whole words, or when the odd last byte is 0. */
  lemma SumIsOnesSumExactlyIf(little: bool, buf: seq<byte>)
    ensures Canon(Sum(little, buf, 0)) == OnesSum(little, buf, 0)
       <==> little || |buf| % 2 == 0 || buf[|buf| - 1] == 0
  {
    if little || |buf| % 2 == 0 {
      SumIsOnesSum(little, buf, 0);
    } else {
      OddTail(buf, 0);
      CanonShift(Sum(little, buf, 0), buf[|buf| - 1]);
    }
  }

  /** A buffer for which a big-endian host computes another sum: the single byte 1. */
  lemma OddByteDiffers()
    ensures Sum(false, [1], 0) == 1 && OnesSum(false, [1], 0) == 0x100
  {
    assert OnesSum(false, [1], 2) == 0;
  }

  // ----- the C function -----

  /** The two folds of the accumulator, cut to 16 bits. */
  function Folded(sum: uint32): uint16 {
    var once := sum / 0x1_0000 + sum % 0x1_0000;
    (once + once / 0x1_0000) % 0x1_0000
  }

  /** Two folds are enough for any 32-bit sum. */
  lemma {:induction false} TwoFoldsSuffice(sum: uint32)
    ensures Folded(sum) == Canon(sum)
  {
    var hi, lo := sum / 0x1_0000, sum % 0x1_0000;
    var once := hi + lo;
    assert sum == once + 0xFFFF * hi;
    if once < 0x1_0000 {
      CanonIs(sum, once, hi);
    } else {
      assert once / 0x1_0000 == 1;
      CanonIs(sum, once - 0xFFFF, hi + 1);
    }
  }

  lemma {:induction false} SumBound(little: bool, buf: seq<byte>, i: nat)
    requires i <= |buf| + 1
    ensures Sum(little, buf, i) <= 0xFFFF * ((|buf| + 1 - i) / 2)
    decreases |buf| - i
  {
    if i + 1 < |buf| {
      SumBound(little, buf, i + 2);
    }
  }

  lemma {:induction false} AllOnesSum(little: bool, buf: seq<byte>, i: nat)
    requires i <= |buf| && forall k :: 0 <= k < |buf| ==> buf[k] == 0xFF
    ensures Sum(little, buf, i) == 0xFFFF * ((|buf| - i) / 2) + 0xFF * ((|buf| - i) % 2)
    decreases |buf| - i
  {
    if i + 1 < |buf| {
      AllOnesSum(little, buf, i + 2);
    }
  }

  /** The bound of 131074 bytes is the best possible: one byte more can overflow. */
  lemma LongerMayOverflow(little: bool, buf: seq<byte>)
    requires |buf| > 131074 && forall k :: 0 <= k < |buf| ==> buf[k] == 0xFF
    ensures Sum(little, buf, 0) >= 0x1_0000_0000
  {
    AllOnesSum(little, buf, 0);
  }

  /** The accumulation loop: for at most 65537 words it cannot overflow. */
  method Accumulate(little: bool, ele: seq<byte>) returns (sum: uint32)
    requires |ele| <= 131074
    ensures sum == Sum(little, ele, 0)
  {
    SumBound(little, ele, 0);
    sum := 0;
    var len: int := |ele|;
    var buf := 0;
    while len > 1
      invariant 0 <= len && buf + len == |ele|
      invariant sum + Sum(little, ele, buf) == Sum(little, ele, 0)
    {
      sum := sum + Word(little, ele[buf], ele[buf + 1]);
      buf := buf + 2;
      len := len - 2;
    }
    if len == 1 {
      sum := sum + ele[buf];
    }
  }

  /** The end of ft_checksum: two folds and the complement, cut to 16 bits. */
  method FoldAndComplement(total: uint32) returns (res: uint16)
    ensures res == 0xFFFF - Canon(total)
  {
    var sum: uint32 := total / 0x1_0000 + total % 0x1_0000;
    sum := sum + sum / 0x1_0000;
    TwoFoldsSuffice(total);
    res := 0xFFFF - sum % 0x1_0000;
  }

  /** For at most 65537 words the result is the complement of the one's-complement sum, except
      for an odd last byte on a big-endian host, which the loop adds as a low byte. */
  method FtChecksum(little: bool, ele: seq<byte>) returns (res: uint16)
    requires |ele| <= 131074
    ensures res == 0xFFFF - OnesSum(little, ele, 0) <==> little || |ele| % 2 == 0 || ele[|ele| - 1] == 0
    ensures res == 0xFFFF - Canon(Sum(little, ele, 0))
  {
    var sum := Accumulate(little, ele);
    SumIsOnesSumExactlyIf(little, ele);
    res := FoldAndComplement(sum);
  }

  /** What FtChecksum returns. */
  function ChecksumOf(little: bool, buf: seq<byte>): uint16 {
    0xFFFF - OnesSum(little, buf, 0)
  }

  /** The example of section 3 of RFC 1071, in both byte orders. */
  lemma Rfc1071Example(buf: seq<byte>)
    requires buf == [0x00, 0x01, 0xF2, 0x03, 0xF4, 0xF5, 0xF6, 0xF7]
    ensures OnesSum(false, buf, 0) == 0xDDF2 && OnesSum(true, buf, 0) == 0xF2DD
    ensures ChecksumOf(false, buf) == 0x220D && ChecksumOf(true, buf) == 0x0D22
  {
    assert OnesSum(false, buf, 8) == 0 && OnesSum(true, buf, 8) == 0;
    assert OnesSum(false, buf, 6) == 0xF6F7 && OnesSum(true, buf, 6) == 0xF7F6;
    assert OnesSum(false, buf, 4) == 0xEBED && OnesSum(true, buf, 4) == 0xEDEB;
    assert OnesSum(false, buf, 2) == 0xDDF1 && OnesSum(true, buf, 2) == 0xF1DD;
  }

  // ----- verifying a stored checksum -----

  /** buf with a word stored at offset o by a host of the given byte order. */
  function WithWord(little: bool, buf: seq<byte>, o: nat, w: uint16): (r: seq<byte>)
    requires o + 1 < |buf|
    ensures |r| == |buf|
  {
    buf[o := HostBytes(little, w).0][o + 1 := HostBytes(little, w).1]
  }

  lemma {:induction false} SumWithWord(little: bool, buf: seq<byte>, o: nat, w: uint16, i: nat)
    requires i <= o && o % 2 == i % 2 && o + 1 < |buf| && buf[o] == buf[o + 1] == 0
    ensures Sum(little, WithWord(little, buf, o, w), i) == Sum(little, buf, i) + w
    decreases o - i
  {
    if i == o {
      SumSame(little, buf, WithWord(little, buf, o, w), o + 2);
    } else {
      SumWithWord(little, buf, o, w, i + 2);
    }
  }

  lemma {:induction false} SumSame(little: bool, a: seq<byte>, b: seq<byte>, i: nat)
    requires |a| == |b| && forall k :: i <= k < |a| ==> a[k] == b[k]
    ensures Sum(little, a, i) == Sum(little, b, i)
    decreases |a| - i
  {
    if i + 1 < |a| {
      SumSame(little, a, b, i + 2);
    }
  }

  /** A checksum stored in a zeroed, aligned field makes the recomputed checksum 0. */
  lemma StoredChecksumVerifies(little: bool, buf: seq<byte>, o: nat)
    requires little || |buf| % 2 == 0
    requires o % 2 == 0 && o + 1 < |buf| && buf[o] == buf[o + 1] == 0
    ensures ChecksumOf(little, WithWord(little, buf, o, ChecksumOf(little, buf))) == 0
  {
    var w := ChecksumOf(little, buf);
    var stored := WithWord(little, buf, o, w);
    SumIsOnesSum(little, buf, 0);
    SumIsOnesSum(little, stored, 0);
    SumWithWord(little, buf, o, w, 0);
    CanonAdd(w, Sum(little, buf, 0));
  }

  // ----- byte-order independence, section 2 (B) of RFC 1071 -----

  function Swap(w: uint16): uint16 {
    w / 0x100 + 0x100 * (w % 0x100)
  }

  lemma {:induction false} SwappedSum(buf: seq<byte>, i: nat) returns (k: nat)
    requires |buf| % 2 == i % 2
    ensures 0x100 * Sum(true, buf, i) == Sum(false, buf, i) + 0xFFFF * k
    ensures Sum(true, buf, i) == 0 <==> Sum(false, buf, i) == 0
    decreases |buf| - i
  {
    if i >= |buf| {
      k := 0;
    } else {
      var rest := SwappedSum(buf, i + 2);
      k := rest + buf[i + 1];
    }
  }

  lemma SwapIsTimes256(w: uint16) returns (k: nat)
    ensures 0x100 * w == Swap(w) + 0xFFFF * k
  {
    k := w / 0x100;
  }

  lemma CanonCongruent(s: nat, t: nat, k: nat)
    requires s == t + 0xFFFF * k && (t == 0 ==> s == 0)
    ensures Canon(s) == Canon(t)
  {
    var m := CanonSplits(t);
    CanonIs(s, Canon(t), m + k);
  }

  /** Summing in the other byte order gives the byte-swapped sum. */
  lemma ByteOrderIndependence(buf: seq<byte>)
    requires |buf| % 2 == 0
    ensures OnesSum(false, buf, 0) == Swap(OnesSum(true, buf, 0))
  {
    var little, big := Sum(true, buf, 0), Sum(false, buf, 0);
    SumIsOnesSum(true, buf, 0);
    SumIsOnesSum(false, buf, 0);
    var k := SwappedSum(buf, 0);
    CanonCongruent(0x100 * little, big, k);
    var c := Canon(little);
    var m := CanonSplits(little);
    var j := SwapIsTimes256(c);
    CanonIs(0x100 * little, Swap(c), 0x100 * m + j);
  }

  /** What verifies in one byte order verifies in the other. */
  lemma VerifiesInAnyOrder(buf: seq<byte>, little: bool)
    requires |buf| % 2 == 0 && ChecksumOf(little, buf) == 0
    ensures ChecksumOf(!little, buf) == 0
  {
    ByteOrderIndependence(buf);
  }
}
