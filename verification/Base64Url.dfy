/**
 `_b64` of `api/auth.py` against section 5 of RFC 4648, bit by bit and
 character by character: the input's bits from the left, six at a time, the
 last group filled up with zero bits, each group written as one character of
 the URL-safe alphabet, without padding.
 */
module Base64Url {
  import opened Jwt

  const UPPER: string := "ABCDEFGHIJKLMNOPQRSTUVWXYZ"
  const LOWER: string := "abcdefghijklmnopqrstuvwxyz"
  const DIGITS: string := "0123456789"

  /** Table 2 of RFC 4648. */
  const ALPHABET: string := UPPER + LOWER + DIGITS + "-_"

  function Weight(p: nat): int
    requires p < 8
  {
    match p
    case 0 => 1
    case 1 => 2
    case 2 => 4
    case 3 => 8
    case 4 => 16
    case 5 => 32
    case 6 => 64
    case 7 => 128
  }

  /** Bit p of a byte, bit 7 being the leftmost. */
  function BitOf(x: byte, p: nat): int
    requires p < 8
  {
    x as int / Weight(p) % 2
  }

  /** Bit i of a byte string, from the left; zero behind its end. */
  function Bit(data: seq<byte>, i: nat): int {
    if i / 8 < |data| then BitOf(data[i / 8], 7 - i % 8) else 0
  }

  /** The six bits from position 6k on, as a number. */
  function SixBits(data: seq<byte>, k: nat): int {
    32 * Bit(data, 6 * k) + 16 * Bit(data, 6 * k + 1) + 8 * Bit(data, 6 * k + 2)
    + 4 * Bit(data, 6 * k + 3) + 2 * Bit(data, 6 * k + 4) + Bit(data, 6 * k + 5)
  }

  /** What is left of a byte above its lowest p bits. */
  function Rest(x: byte, p: nat): int
    requires p < 8
  {
    x as int / Weight(p)
  }

  /** Taking one more bit off. */
  lemma OneBitLess(x: int, w: int)
    requires x >= 0 && w > 0
    ensures x / w == 2 * (x / (2 * w)) + x / w % 2
  {
    var (q, r) := (x / (2 * w), x % (2 * w));
    assert x == 2 * w * q + r;
    if r < w {
      QuotientIs(x, w, 2 * q, r);
    } else {
      QuotientIs(x, w, 2 * q + 1, r - w);
    }
  }

  lemma QuotientIs(x: int, w: int, q: int, r: int)
    requires w > 0 && 0 <= r < w && x == w * q + r
    ensures x / w == q
  {
    var d := x / w - q;
    assert w * d == r - x % w;
    NoMultipleBetween(w, d);
  }

  lemma NoMultipleBetween(w: int, d: int)
    requires -w < w * d < w
    ensures d == 0
  {
  }

  lemma RestsHalve(x: byte)
    ensures forall p: nat :: p < 7 ==> Rest(x, p) == 2 * Rest(x, p + 1) + BitOf(x, p)
    ensures Rest(x, 7) == BitOf(x, 7) && Rest(x, 0) == x as int
  {
    forall p: nat | p < 7 ensures Rest(x, p) == 2 * Rest(x, p + 1) + BitOf(x, p) {
      assert Weight(p + 1) == 2 * Weight(p);
      OneBitLess(x as int, Weight(p));
    }
    assert x as int / 128 == 0 || x as int / 128 == 1;
  }

  lemma ByteIsBits(x: byte)
    ensures x as int / 4 == 32 * BitOf(x, 7) + 16 * BitOf(x, 6) + 8 * BitOf(x, 5) + 4 * BitOf(x, 4) + 2 * BitOf(x, 3) + BitOf(x, 2)
    ensures x as int / 16 == 8 * BitOf(x, 7) + 4 * BitOf(x, 6) + 2 * BitOf(x, 5) + BitOf(x, 4)
    ensures x as int / 64 == 2 * BitOf(x, 7) + BitOf(x, 6)
    ensures x as int % 4 == 2 * BitOf(x, 1) + BitOf(x, 0)
    ensures x as int % 16 == 8 * BitOf(x, 3) + 4 * BitOf(x, 2) + 2 * BitOf(x, 1) + BitOf(x, 0)
    ensures x as int % 64 == 32 * BitOf(x, 5) + 16 * BitOf(x, 4) + 8 * BitOf(x, 3) + 4 * BitOf(x, 2) + 2 * BitOf(x, 1) + BitOf(x, 0)
  {
    RestsHalve(x);
    assert Rest(x, 2) == x as int / 4 && Rest(x, 4) == x as int / 16 && Rest(x, 6) == x as int / 64;
    hide BitOf, Rest;
    assert Rest(x, 6) == 2 * Rest(x, 6 + 1) + BitOf(x, 6);
    assert Rest(x, 5) == 2 * Rest(x, 5 + 1) + BitOf(x, 5);
    assert Rest(x, 4) == 2 * Rest(x, 4 + 1) + BitOf(x, 4);
    assert Rest(x, 3) == 2 * Rest(x, 3 + 1) + BitOf(x, 3);
    assert Rest(x, 2) == 2 * Rest(x, 2 + 1) + BitOf(x, 2);
    assert Rest(x, 1) == 2 * Rest(x, 1 + 1) + BitOf(x, 1);
    assert Rest(x, 0) == 2 * Rest(x, 0 + 1) + BitOf(x, 0);
  }

  lemma ZeroBits(p: nat)
    requires p < 8
    ensures BitOf(0, p) == 0
  {
  }

  /** The four groups of three bytes are their twenty-four bits. */
  lemma GroupIsBits(a: byte, b: byte, c: byte)
    ensures forall k: nat :: k < 4 ==> Group(a, b, c)[k] == SixBits([a, b, c], k)
  {
    ByteIsBits(a);
    ByteIsBits(b);
    ByteIsBits(c);
    hide BitOf;
    forall k: nat | k < 4 ensures Group(a, b, c)[k] == SixBits([a, b, c], k) {
      match k
      case 0 =>
      case 1 =>
      case 2 =>
      case 3 =>
    }
  }

  lemma BitsBehind(data: seq<byte>, i: nat)
    requires |data| >= 3 && i >= 24
    ensures Bit(data, i) == Bit(data[3..], i - 24)
  {
    assert (i - 24) / 8 == i / 8 - 3 && (i - 24) % 8 == i % 8;
  }

  lemma SixBitsBehind(data: seq<byte>, k: nat)
    requires |data| >= 3 && k >= 4
    ensures SixBits(data, k) == SixBits(data[3..], k - 4)
  {
    hide Bit;
    assert 6 * (k - 4) == 6 * k - 24;
    BitsBehind(data, 6 * k);
    BitsBehind(data, 6 * k + 1);
    BitsBehind(data, 6 * k + 2);
    BitsBehind(data, 6 * k + 3);
    BitsBehind(data, 6 * k + 4);
    BitsBehind(data, 6 * k + 5);
  }

  /** Only the first three bytes matter to the first four groups, and missing ones count as zero. */
  lemma FirstSixBits(data: seq<byte>, k: nat)
    requires data != [] && k < 4
    ensures var (b, c) := (if |data| > 1 then data[1] else 0, if |data| > 2 then data[2] else 0);
      SixBits(data, k) == SixBits([data[0], b, c], k)
  {
    var (b, c) := (if |data| > 1 then data[1] else 0, if |data| > 2 then data[2] else 0);
    forall i: nat | i < 24 ensures Bit(data, i) == Bit([data[0], b, c], i) {
      ZeroBits(7 - i % 8);
      assert i / 8 == 0 || i / 8 == 1 || i / 8 == 2;
    }
  }

  /** How many groups, and what each of them is. */
  lemma {:induction false} SextetsAreBits(data: seq<byte>, k: nat)
    ensures |Sextets(data)| == (8 * |data| + 5) / 6
    ensures k < |Sextets(data)| ==> Sextets(data)[k] == SixBits(data, k)
    decreases |data|
  {
    hide SixBits, Group;
    if data != [] {
      var (b, c) := (if |data| > 1 then data[1] else 0, if |data| > 2 then data[2] else 0);
      if k < 4 {
        FirstSixBits(data, k);
        GroupIsBits(data[0], b, c);
      }
      if |data| >= 3 {
        SextetsAreBits(data[3..], if k < 4 then 0 else k - 4);
        if k >= 4 {
          SixBitsBehind(data, k);
        }
      }
    }
  }

  lemma UpperRun(i: nat)
    requires i < 26
    ensures UPPER[i] as int == 'A' as int + i
  {
  }

  lemma LowerRun(i: nat)
    requires i < 26
    ensures LOWER[i] as int == 'a' as int + i
  {
  }

  lemma DigitRun(i: nat)
    requires i < 10
    ensures DIGITS[i] as int == '0' as int + i
  {
  }

  lemma CharIsInTable(v: sextet)
    ensures CharOf(v) == ALPHABET[v]
  {
    assert |UPPER| == 26 && |LOWER| == 26 && |DIGITS| == 10;
    if v < 26 {
      UpperRun(v);
    } else if v < 52 {
      LowerRun(v - 26);
    } else if v < 62 {
      DigitRun(v - 52);
    }
  }

  /** The encoding is the one of the standard, without its padding. */
  lemma EncodesByStandard(data: seq<byte>)
    ensures |B64(data)| == (8 * |data| + 5) / 6
    ensures forall k :: 0 <= k < |B64(data)| ==>
      0 <= SixBits(data, k) < 64 && B64(data)[k] == ALPHABET[SixBits(data, k)]
  {
    SextetsAreBits(data, 0);
    forall k: nat | k < |B64(data)| ensures 0 <= SixBits(data, k) < 64 && B64(data)[k] == ALPHABET[SixBits(data, k)] {
      SextetsAreBits(data, k);
      CharIsInTable(Sextets(data)[k]);
    }
  }
}
