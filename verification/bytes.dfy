/** Machine integers of the virtual machine: bytes of the image, 32-bit
    unsigned words, the big-endian conversion between them, and the
    wrap-around of fixed-width unsigned arithmetic. */
module Bytes {

  const BYTE: int := 0x100
  const WORD: int := 0x1_0000_0000

  type u8 = x: int | 0 <= x < 0x100
  type u32 = x: int | 0 <= x < 0x1_0000_0000

  /** `u32::from_be_bytes`: the word whose most significant byte comes first. */
  function FromBigEndian(b: seq<u8>): u32
    requires |b| == 4
  {
    ((b[0] * BYTE + b[1]) * BYTE + b[2]) * BYTE + b[3]
  }

  /** `u32::to_be_bytes`: the four bytes of a word, most significant first. */
  function ToBigEndian(w: u32): (b: seq<u8>)
    ensures |b| == 4
  {
    var w1 := w / BYTE;
    var w2 := w1 / BYTE;
    [w2 / BYTE, w2 % BYTE, w1 % BYTE, w % BYTE]
  }

  lemma DivModByte(q: int, r: int)
    requires 0 <= r < BYTE
    ensures (q * BYTE + r) / BYTE == q
    ensures (q * BYTE + r) % BYTE == r
  {
  }

  /** Decoding the big-endian bytes of a word gives the word back. */
  lemma FromToBigEndian(w: u32)
    ensures FromBigEndian(ToBigEndian(w)) == w
  {
    var w1 := w / BYTE;
    var w2 := w1 / BYTE;
    assert w == w1 * BYTE + w % BYTE;
    assert w1 == w2 * BYTE + w1 % BYTE;
    assert w2 == (w2 / BYTE) * BYTE + w2 % BYTE;
  }

  /** Encoding the word read from four bytes gives the same four bytes. */
  lemma ToFromBigEndian(b: seq<u8>)
    requires |b| == 4
    ensures ToBigEndian(FromBigEndian(b)) == b
  {
    var hi := b[0] * BYTE + b[1];
    var mid := hi * BYTE + b[2];
    var w := mid * BYTE + b[3];
    DivModByte(mid, b[3]);
    DivModByte(hi, b[2]);
    DivModByte(b[0], b[1]);
    assert w / BYTE == mid && w % BYTE == b[3];
    assert mid / BYTE == hi && mid % BYTE == b[2];
    assert hi / BYTE == b[0] && hi % BYTE == b[1];
  }

  /** Two words with the same big-endian bytes are equal. */
  lemma ToBigEndianInjective(v: u32, w: u32)
    ensures ToBigEndian(v) == ToBigEndian(w) ==> v == w
  {
    FromToBigEndian(v);
    FromToBigEndian(w);
  }

  /** Fixed-width unsigned arithmetic: the value modulo 2^32. */
  function Wrap(x: int): u32
  {
    x % WORD
  }

  /** Equal modulo 2^32. */
  predicate Congruent(x: int, y: int)
  {
    (x - y) % WORD == 0
  }

  /** Wrapping only removes whole multiples of 2^32 and is the identity on
      values that already fit. */
  lemma WrapProperties(x: int)
    ensures Congruent(Wrap(x), x)
    ensures 0 <= x < WORD ==> Wrap(x) == x
  {
    var q := x / WORD;
    assert x == q * WORD + Wrap(x);
    assert Wrap(x) - x == -q * WORD;
  }

  /** A sum of two words wraps at most once. */
  lemma WrapSum(x: int)
    requires 0 <= x < 2 * WORD
    ensures Wrap(x) == if x < WORD then x else x - WORD
  {
    if x >= WORD {
      assert x - WORD == (x - WORD) % WORD;
      assert x == 1 * WORD + (x - WORD);
    }
  }

  /** A difference of two words wraps at most once. */
  lemma WrapDifference(x: int)
    requires -WORD < x < WORD
    ensures Wrap(x) == if x >= 0 then x else x + WORD
  {
    if x < 0 {
      assert x == -1 * WORD + (x + WORD);
    }
  }

  /** Truncating division brackets the dividend. */
  lemma DivBounds(a: nat, b: nat)
    requires b > 0
    ensures (a / b) * b <= a < (a / b) * b + b
  {
    assert a == (a / b) * b + a % b;
  }
}
