/** The Secure Hash Algorithm as FIPS 180-1 defines it: padding (section 4), functions and constants
    (sections 5 and 6) and the computation with a schedule of 80 words (section 7). */
module Fips180 {
  type byte = bv8
  type word = bv32

  /** The five words of a chaining value or of the working registers. */
  datatype Hash = Hash(a: word, b: word, c: word, d: word, e: word)

  // ----- words and bytes -----

  function BigEndian(b0: byte, b1: byte, b2: byte, b3: byte): word {
    ((b0 as word) << 24) | ((b1 as word) << 16) | ((b2 as word) << 8) | (b3 as word)
  }

  /** The sixteen words of a block. */
  function WordsOf(block: seq<byte>): (ws: seq<word>)
    requires |block| == 64
    ensures |ws| == 16
  {
    seq(16, i requires 0 <= i < 16 => BigEndian(block[4 * i], block[4 * i + 1], block[4 * i + 2], block[4 * i + 3]))
  }

  function BytesOf(w: word): seq<byte> {
    [((w >> 24) & 0xff) as byte, ((w >> 16) & 0xff) as byte, ((w >> 8) & 0xff) as byte, (w & 0xff) as byte]
  }

  function DigestOf(h: Hash): seq<byte> {
    BytesOf(h.a) + BytesOf(h.b) + BytesOf(h.c) + BytesOf(h.d) + BytesOf(h.e)
  }

  // ----- padding -----

  const TWO32: nat := 0x1_0000_0000
  const TWO64: nat := 0x1_0000_0000_0000_0000

  function Byte(i: nat): byte
    requires i < 256
  {
    i as byte
  }

  /** A 32-bit number in big-endian order. */
  function NumberBytes(n: nat): (s: seq<byte>)
    requires n < TWO32
    ensures |s| == 4
  {
    [Byte(n / 0x100_0000), Byte(n / 0x1_0000 % 0x100), Byte(n / 0x100 % 0x100), Byte(n % 0x100)]
  }

  /** Number of bits of a message of `n` bytes, as two words. Below 2^61 bytes that is the exact number. */
  function LengthBytes(n: nat): (s: seq<byte>)
    ensures |s| == 8
  {
    var bits := 8 * n % TWO64;
    NumberBytes(bits / TWO32) + NumberBytes(bits % TWO32)
  }

  function Zeros(n: nat): (s: seq<byte>)
    ensures |s| == n
  {
    seq(n, i => 0)
  }

  /** How many zero bytes follow the byte 80 (hexadecimal): the fewest that leave room for eight bytes. */
  function ZerosFor(n: nat): nat {
    (119 - n % 64) % 64
  }

  lemma ZerosForIsLeast(n: nat, k: nat)
    ensures (n + 1 + ZerosFor(n)) % 64 == 56
    ensures (n + 1 + k) % 64 == 56 ==> ZerosFor(n) <= k
  {
  }

  function Pad(message: seq<byte>): seq<byte> {
    message + [0x80] + Zeros(ZerosFor(|message|)) + LengthBytes(|message|)
  }

  lemma RoomForLength(n: nat)
    requires n % 64 == 56
    ensures (n + 8) % 64 == 0
  {
  }

  lemma PaddedIsWhole(message: seq<byte>)
    ensures |Pad(message)| % 64 == 0
  {
    ZerosForIsLeast(|message|, 0);
    RoomForLength(|message| + 1 + ZerosFor(|message|));
    hide ZerosFor, LengthBytes, Zeros;
    assert |Pad(message)| == |message| + 1 + ZerosFor(|message|) + 8;
  }

  // ----- the rounds -----

  function Rol1(x: word): word {
    x.RotateLeft(1)
  }

  function Rol5(x: word): word {
    x.RotateLeft(5)
  }

  function Rol30(x: word): word {
    x.RotateLeft(30)
  }

  function F(t: nat, b: word, c: word, d: word): word {
    if t < 20 then (b & c) | (!b & d)
    else if t < 40 then b ^ c ^ d
    else if t < 60 then (b & c) | (b & d) | (c & d)
    else b ^ c ^ d
  }

  function K(t: nat): word {
    if t < 20 then 0x5a827999
    else if t < 40 then 0x6ed9eba1
    else if t < 60 then 0x8f1bbcdc
    else 0xca62c1d6
  }

  function Xor4(p: word, q: word, r: word, s: word): word {
    p ^ q ^ r ^ s
  }

  /** Word `t` of the schedule of a block. */
  function W(m: seq<word>, t: nat): word
    requires |m| == 16
    decreases |m| + t
  {
    if t < 16 then m[t]
    else Rol1(Xor4(W(m, t - 3), W(m, t - 8), W(m, t - 14), W(m, t - 16)))
  }

  function Sum5(r: word, f: word, e: word, w: word, k: word): word {
    r + f + e + w + k
  }

  /** One round. */
  function Step(h: Hash, t: nat, w: word): Hash {
    Hash(Sum5(Rol5(h.a), F(t, h.b, h.c, h.d), h.e, w, K(t)), h.a, Rol30(h.b), h.c, h.d)
  }

  function Rounds(h: Hash, m: seq<word>, t: nat): Hash
    requires |m| == 16
    decreases |m| + t
  {
    if t == 0 then h else Step(Rounds(h, m, t - 1), t - 1, W(m, t - 1))
  }

  function Add(x: word, y: word): word {
    x + y
  }

  function Plus(h: Hash, g: Hash): Hash {
    Hash(Add(h.a, g.a), Add(h.b, g.b), Add(h.c, g.c), Add(h.d, g.d), Add(h.e, g.e))
  }

  /** The chaining value after one block. */
  function Compress(h: Hash, block: seq<byte>): Hash
    requires |block| == 64
  {
    Plus(h, Rounds(h, WordsOf(block), 80))
  }

  /** The chaining value after any number of whole blocks. */
  function Blocks(h: Hash, data: seq<byte>): Hash
    requires |data| % 64 == 0
    decreases |data|
  {
    if data == [] then h else Blocks(Compress(h, data[..64]), data[64..])
  }

  function InitialHash(): Hash {
    Hash(0x67452301, 0xefcdab89, 0x98badcfe, 0x10325476, 0xc3d2e1f0)
  }

  /** The message digest. */
  function Sha1(message: seq<byte>): seq<byte> {
    PaddedIsWhole(message);
    DigestOf(Blocks(InitialHash(), Pad(message)))
  }

  // ----- blocks in sequence -----

  lemma {:induction false} BlocksSplit(h: Hash, a: seq<byte>, b: seq<byte>)
    requires |a| % 64 == 0 && |b| % 64 == 0
    ensures |a + b| % 64 == 0
    ensures Blocks(h, a + b) == Blocks(Blocks(h, a), b)
    decreases |a|
  {
    hide Compress;
    if a == [] {
      assert a + b == b;
    } else {
      assert (a + b)[..64] == a[..64] && (a + b)[64..] == a[64..] + b;
      BlocksSplit(Compress(h, a[..64]), a[64..], b);
    }
  }

  lemma OneBlock(h: Hash, block: seq<byte>)
    requires |block| == 64
    ensures Blocks(h, block) == Compress(h, block)
  {
    hide Compress;
    assert block[..64] == block && block[64..] == [];
  }
}
