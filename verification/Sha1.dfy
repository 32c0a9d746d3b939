/** The server's SHA-1: a context fed with chunks of any size, and an unrolled block function with
    rotating registers over a circular schedule of sixteen words. */
module Sha1Context {
  import opened Fips180

  // ----- the block function -----

  /** The first 20 rounds use three operations where the standard uses four. */
  function F1(b: word, c: word, d: word): word {
    d ^ (b & (c ^ d))
  }

  function F2(b: word, c: word, d: word): word {
    b ^ c ^ d
  }

  function F3(b: word, c: word, d: word): word {
    (b & c) | (d & (b | c))
  }

  lemma ChooseIsF1(b: word, c: word, d: word)
    ensures F1(b, c, d) == (b & c) | (!b & d)
  {
  }

  lemma MajorityIsF3(b: word, c: word, d: word)
    ensures F3(b, c, d) == (b & c) | (b & d) | (c & d)
  {
  }

  /** The function of each group of twenty rounds. */
  function RoundFunction(t: nat, b: word, c: word, d: word): (r: word)
    ensures r == F(t, b, c, d)
  {
    ChooseIsF1(b, c, d);
    MajorityIsF3(b, c, d);
    if t < 20 then F1(b, c, d) else if t < 40 then F2(b, c, d) else if t < 60 then F3(b, c, d) else F2(b, c, d)
  }

  const K1: word := 0x5a827999
  const K2: word := 0x6ed9eba1
  const K3: word := 0x8f1bbcdc
  const K4: word := 0xca62c1d6

  /** The constant of each group of twenty rounds. */
  function RoundConstant(t: nat): (k: word)
    ensures k == K(t)
  {
    if t < 20 then K1 else if t < 40 then K2 else if t < 60 then K3 else K4
  }

  /** A rotation as the code writes it: two shifts. */
  function Rotate1(x: word): (r: word)
    ensures r == Rol1(x)
  {
    (x << 1) | (x >> 31)
  }

  function Rotate5(x: word): (r: word)
    ensures r == Rol5(x)
  {
    (x << 5) | (x >> 27)
  }

  function Rotate30(x: word): (r: word)
    ensures r == Rol30(x)
  {
    (x << 30) | (x >> 2)
  }

  /** What is added to a register, in the order of the code. */
  function AddTo(e: word, r: word, f: word, k: word, m: word): word {
    e + (r + f + k + m)
  }

  lemma SumOrder(e: word, r: word, f: word, k: word, m: word)
    ensures AddTo(e, r, f, k, m) == Sum5(r, f, e, m, k)
  {
  }

  /** One line of the unrolled code: the register `e` takes the new value, `b` is rotated. */
  method R(a: word, b: word, c: word, d: word, e: word, t: nat, m: word) returns (b': word, e': word)
    ensures Hash(e', a, b', c, d) == Step(Hash(a, b, c, d, e), t, m)
  {
    hide F, Rol5, Rol30, K, Sum5, AddTo, RoundFunction, Rotate5, Rotate30, RoundConstant;
    SumOrder(e, Rotate5(a), RoundFunction(t, b, c, d), RoundConstant(t), m);
    e' := AddTo(e, Rotate5(a), RoundFunction(t, b, c, d), RoundConstant(t), m);
    b' := Rotate30(b);
  }

  /** The circular schedule before round `t`: of the last sixteen words each stands at its number modulo 16. */
  ghost predicate Schedule(x: seq<word>, block: seq<word>, t: nat) {
    && |x| == 16 && |block| == 16
    && (t == 0 ==> x == block)
    && forall k: nat {:trigger W(block, k)} ::
      t <= k + 16 && k < (if t < 16 then 16 else t) ==> x[k % 16] == W(block, k)
  }

  lemma XorOrder(p: word, q: word, r: word, s: word)
    ensures Xor4(p, q, r, s) == Xor4(s, r, q, p)
  {
  }

  lemma OtherCell(k: nat, t: nat)
    requires k < t < k + 16
    ensures k % 16 != t % 16
  {
  }

  lemma HeldWord(x: seq<word>, block: seq<word>, t: nat, k: nat)
    requires t >= 16 && |block| == 16 && Schedule(x, block, t) && t <= k + 16 && k < t
    ensures |x| == 16 && x[k % 16] == W(block, k)
  {
  }

  lemma NextHeld(x: seq<word>, block: seq<word>, t: nat)
    requires t >= 16 && |block| == 16 && Schedule(x, block, t)
    ensures Schedule(x[t % 16 := W(block, t)], block, t + 1)
  {
    hide W;
    var x' := x[t % 16 := W(block, t)];
    forall k: nat {:trigger W(block, k)} | t + 1 <= k + 16 && k < t + 1
      ensures x'[k % 16] == W(block, k)
    {
      if k < t {
        OtherCell(k, t);
      }
    }
  }

  lemma LaterWord(block: seq<word>, t: nat)
    requires t >= 16 && |block| == 16
    ensures W(block, t) == Rol1(Xor4(W(block, t - 3), W(block, t - 8), W(block, t - 14), W(block, t - 16)))
  {
    hide Rol1, Xor4;
  }

  lemma NextWord(x: seq<word>, block: seq<word>, t: nat)
    requires t >= 16 && |block| == 16 && Schedule(x, block, t)
    ensures |x| == 16
    ensures Rol1(Xor4(x[t % 16], x[(t - 14) % 16], x[(t - 8) % 16], x[(t - 3) % 16])) == W(block, t)
  {
    hide Rol1, Xor4, Schedule, W;
    SixteenBack(t);
    LaterWord(block, t);
    HeldWord(x, block, t, t - 16);
    HeldWord(x, block, t, t - 14);
    HeldWord(x, block, t, t - 8);
    HeldWord(x, block, t, t - 3);
    XorOrder(W(block, t - 16), W(block, t - 14), W(block, t - 8), W(block, t - 3));
  }

  lemma SixteenBack(t: nat)
    requires t >= 16
    ensures (t - 16) % 16 == t % 16
  {
  }

  /** The next word: in the first sixteen rounds it is there already, later it replaces the oldest one. */
  method M(x: array<word>, t: nat, ghost block: seq<word>) returns (m: word)
    requires x.Length == 16 && |block| == 16 && Schedule(x[..], block, t)
    modifies x
    ensures Schedule(x[..], block, t + 1) && m == W(block, t)
  {
    if t < 16 {
      m := x[t];
      EarlyWord(x[..], block, t);
    } else {
      NextWord(x[..], block, t);
      NextHeld(x[..], block, t);
      hide *;
      ghost var before := x[..];
      m := Rotate1(Xor4(x[t % 16], x[(t - 14) % 16], x[(t - 8) % 16], x[(t - 3) % 16]));
      x[t % 16] := m;
      assert x[..] == before[t % 16 := m];
    }
  }

  lemma EarlyWord(x: seq<word>, block: seq<word>, t: nat)
    requires t < 16 && |block| == 16 && Schedule(x, block, t)
    ensures x[t] == W(block, t) && Schedule(x, block, t + 1)
  {
  }

  lemma RoundsNext(h: Hash, block: seq<word>, t: nat)
    requires |block| == 16
    ensures Rounds(h, block, t + 1) == Step(Rounds(h, block, t), t, W(block, t))
  {
  }

  /** One line with its schedule word: the registers, read from the new `e` on, are those of the next round. */
  method Round(x: array<word>, a: word, b: word, c: word, d: word, e: word, t: nat, ghost h: Hash,
      ghost block: seq<word>)
    returns (b': word, e': word)
    requires x.Length == 16 && |block| == 16 && Schedule(x[..], block, t) && Hash(a, b, c, d, e) == Rounds(h, block, t)
    modifies x
    ensures Schedule(x[..], block, t + 1) && Hash(e', a, b', c, d) == Rounds(h, block, t + 1)
  {
    RoundsNext(h, block, t);
    hide *;
    var m := M(x, t, block);
    b', e' := R(a, b, c, d, e, t, m);
  }

  /** The eighty rounds, five at a time: after five the registers are back in their places. */
  method EightyRounds(x: array<word>, a0: word, b0: word, c0: word, d0: word, e0: word, ghost block: seq<word>)
    returns (a: word, b: word, c: word, d: word, e: word)
    requires x.Length == 16 && |block| == 16 && x[..] == block
    modifies x
    ensures Hash(a, b, c, d, e) == Rounds(Hash(a0, b0, c0, d0, e0), block, 80)
  {
    hide *;
    a, b, c, d, e := a0, b0, c0, d0, e0;
    ghost var h := Hash(a0, b0, c0, d0, e0);
    FreshSchedule(x[..], block, h);
    var t := 0;
    while t < 80
      invariant t <= 80 && t % 5 == 0
      invariant Schedule(x[..], block, t) && Hash(a, b, c, d, e) == Rounds(h, block, t)
    {
      b, e := Round(x, a, b, c, d, e, t, h, block);
      a, d := Round(x, e, a, b, c, d, t + 1, h, block);
      e, c := Round(x, d, e, a, b, c, t + 2, h, block);
      d, b := Round(x, c, d, e, a, b, t + 3, h, block);
      c, a := Round(x, b, c, d, e, a, t + 4, h, block);
      t := t + 5;
    }
  }

  lemma FreshSchedule(x: seq<word>, block: seq<word>, h: Hash)
    requires |x| == 16 && x == block
    ensures Schedule(x, block, 0) && Rounds(h, block, 0) == h
  {
  }

  // ----- words in memory -----

  /** A word as the machine reads it from four bytes, lowest byte first. */
  function LittleEndian(b0: byte, b1: byte, b2: byte, b3: byte): word {
    (b0 as word) | ((b1 as word) << 8) | ((b2 as word) << 16) | ((b3 as word) << 24)
  }

  function Swap(n: word): word {
    (n << 24) | ((n & 0xff00) << 8) | ((n >> 8) & 0xff00) | (n >> 24)
  }

  lemma SwapReadsBigEndian(b0: byte, b1: byte, b2: byte, b3: byte)
    ensures Swap(LittleEndian(b0, b1, b2, b3)) == BigEndian(b0, b1, b2, b3)
  {
  }

  /** The bytes of a word as the machine writes them, lowest byte first. */
  function StoredBytes(w: word): seq<byte> {
    [(w & 0xff) as byte, ((w >> 8) & 0xff) as byte, ((w >> 16) & 0xff) as byte, ((w >> 24) & 0xff) as byte]
  }

  lemma SwapStoresBigEndian(w: word)
    ensures StoredBytes(Swap(w)) == BytesOf(w)
  {
  }

  method LoadBlock(x: array<word>, data: seq<byte>, pos: nat)
    requires x.Length == 16 && pos + 64 <= |data|
    modifies x
    ensures x[..] == WordsOf(data[pos..pos + 64])
  {
    ghost var block := data[pos..pos + 64];
    hide BigEndian, Swap, LittleEndian;
    for t := 0 to 16
      invariant forall i :: 0 <= i < t ==> x[i] == WordsOf(block)[i]
    {
      SwapReadsBigEndian(block[4 * t], block[4 * t + 1], block[4 * t + 2], block[4 * t + 3]);
      x[t] := Swap(LittleEndian(data[pos + 4 * t], data[pos + 4 * t + 1], data[pos + 4 * t + 2],
          data[pos + 4 * t + 3]));
    }
  }

  // ----- the byte counter -----

  /** Two words count the bytes of whole blocks, modulo 2^64. */
  predicate Counted(total0: nat, total1: nat, n: nat) {
    total0 < TWO32 && total1 < TWO32 && total1 * TWO32 + total0 == n % TWO64
  }

  function Count0(total0: nat, len: nat): nat {
    (total0 + len) % TWO32
  }

  /** The second word counts the times the first one wraps around. */
  function Count1(total0: nat, total1: nat, len: nat): nat {
    if Count0(total0, len) < len then (total1 + 1) % TWO32 else total1
  }

  lemma CountedMore(total0: nat, total1: nat, n: nat, len: nat)
    requires Counted(total0, total1, n) && len < TWO32
    ensures Counted(Count0(total0, len), Count1(total0, total1, len), n + len)
  {
    var v := n % TWO64;
    assert n + len == TWO64 * (n / TWO64) + (v + len);
    assert (n + len) % TWO64 == if v + len < TWO64 then v + len else v + len - TWO64;
    assert total0 + len < TWO32 ==> Count0(total0, len) == total0 + len;
    assert total0 + len >= TWO32 ==> Count0(total0, len) == total0 + len - TWO32;
  }

  // ----- what a context stands for -----

  /** The chaining value and the counter cover whole blocks of the message; the tail is what is left of it. */
  ghost predicate Holds(chain: Hash, total0: nat, total1: nat, tail: seq<byte>, message: seq<byte>) {
    && |tail| <= |message| && (|message| - |tail|) % 64 == 0
    && message[|message| - |tail|..] == tail
    && chain == Blocks(InitialHash(), message[..|message| - |tail|])
    && Counted(total0, total1, |message| - |tail|)
  }

  lemma HoldsNothing()
    ensures Holds(InitialHash(), 0, 0, [], [])
  {
  }

  /** More bytes of the message that are not processed yet. */
  lemma HoldsMore(chain: Hash, total0: nat, total1: nat, tail: seq<byte>, message: seq<byte>, more: seq<byte>)
    requires Holds(chain, total0, total1, tail, message)
    ensures Holds(chain, total0, total1, tail + more, message + more)
  {
    hide Blocks, Counted;
    var n := |message| - |tail|;
    assert (message + more)[..n] == message[..n];
    assert (message + more)[n..] == tail + more;
  }

  /** Processing whole blocks at the start of the tail. */
  lemma HoldsAfter(chain: Hash, total0: nat, total1: nat, blocks: seq<byte>, tail: seq<byte>, message: seq<byte>)
    requires Holds(chain, total0, total1, blocks + tail, message)
    requires |blocks| % 64 == 0 && |blocks| < TWO32
    ensures Holds(Blocks(chain, blocks), Count0(total0, |blocks|), Count1(total0, total1, |blocks|), tail, message)
  {
    hide Blocks, Counted;
    var n := |message| - |blocks| - |tail|;
    assert (blocks + tail)[..|blocks|] == blocks && (blocks + tail)[|blocks|..] == tail;
    assert message[..n] + blocks == message[..n + |blocks|];
    assert message[n + |blocks|..] == message[n..][|blocks|..];
    BlocksSplit(InitialHash(), message[..n], blocks);
    CountedMore(total0, total1, n, |blocks|);
  }

  class Context {
    var a: word
    var b: word
    var c: word
    var d: word
    var e: word
    var total0: nat
    var total1: nat
    var buflen: nat
    const buffer: array<byte>
    /** Everything fed in so far. */
    ghost var message: seq<byte>

    function Chain(): Hash
      reads this
    {
      Hash(a, b, c, d, e)
    }

    ghost predicate Valid()
      reads this, buffer
    {
      buffer.Length == 128 && buflen <= 64 && Holds(Chain(), total0, total1, buffer[..buflen], message)
    }

    constructor ()
      ensures Valid() && message == [] && fresh(buffer)
    {
      a, b, c, d, e := 0x67452301, 0xefcdab89, 0x98badcfe, 0x10325476, 0xc3d2e1f0;
      total0, total1, buflen := 0, 0, 0;
      buffer := new byte[128];
      message := [];
      new;
      HoldsNothing();
      assert buffer[..0] == [];
    }

    method CountBytes(len: nat)
      modifies this`total0, this`total1
      ensures total0 == Count0(old(total0), len) && total1 == Count1(old(total0), old(total1), len)
    {
      total0 := (total0 + len) % TWO32;
      if total0 < len {
        total1 := (total1 + 1) % TWO32;
      }
    }

    method AddToChain(a1: word, b1: word, c1: word, d1: word, e1: word)
      modifies this`a, this`b, this`c, this`d, this`e
      ensures Chain() == Plus(old(Chain()), Hash(a1, b1, c1, d1, e1))
    {
      hide Add;
      a, b, c, d, e := Add(a, a1), Add(b, b1), Add(c, c1), Add(d, d1), Add(e, e1);
    }

    /** Processes whole blocks. */
    method ProcessBlock(data: seq<byte>)
      requires |data| % 64 == 0
      modifies this`a, this`b, this`c, this`d, this`e, this`total0, this`total1
      ensures Chain() == Blocks(old(Chain()), data)
      ensures total0 == Count0(old(total0), |data|) && total1 == Count1(old(total0), old(total1), |data|)
    {
      hide Count0, Count1, WordsOf, Rounds, Plus, Blocks;
      ghost var h := Chain();
      CountBytes(|data|);
      NoBlock(h, data);
      var x := new word[16];
      var a', b', c', d', e' := a, b, c, d, e;
      var pos := 0;
      while pos < |data|
        invariant pos <= |data| && pos % 64 == 0
        invariant Chain() == Hash(a', b', c', d', e') == Blocks(h, data[..pos])
        modifies x, this`a, this`b, this`c, this`d, this`e
      {
        NextBlock(h, data, pos);
        LoadBlock(x, data, pos);
        a', b', c', d', e' := EightyRounds(x, a', b', c', d', e', WordsOf(data[pos..pos + 64]));
        AddToChain(a', b', c', d', e');
        a', b', c', d', e' := a, b, c, d, e;
        pos := pos + 64;
      }
      assert data[..pos] == data;
    }

    /** Copies bytes into the buffer. */
    method CopyIn(at: nat, bytes: seq<byte>)
      requires at + |bytes| <= buffer.Length
      modifies buffer
      ensures buffer[..] == old(buffer[..at]) + bytes + old(buffer[at + |bytes|..])
    {
      ghost var before := buffer[..];
      for i := 0 to |bytes|
        invariant forall j :: 0 <= j < buffer.Length ==> buffer[j] == if at <= j < at + i then bytes[j - at]
          else before[j]
      {
        buffer[at + i] := bytes[i];
      }
    }

    /** What the fields say about a message whose last bytes are the given tail. */
    ghost predicate Has(tail: seq<byte>)
      reads this
    {
      Holds(Chain(), total0, total1, tail, message)
    }

    /** Processes whole blocks at the start of what is left of the message. */
    method TakeBlocks(blocks: seq<byte>, ghost tail: seq<byte>)
      requires Has(blocks + tail) && |blocks| % 64 == 0 && |blocks| < TWO32
      modifies this`a, this`b, this`c, this`d, this`e, this`total0, this`total1
      ensures Has(tail)
    {
      HoldsAfter(Chain(), total0, total1, blocks, tail, message);
      ProcessBlock(blocks);
    }

    /** Processes the whole blocks in the buffer and moves what is over to its start. */
    method TakeFull(ghost rest: seq<byte>)
      requires buffer.Length == 128 && 64 < buflen <= 128 && Has(buffer[..buflen] + rest)
      modifies this`a, this`b, this`c, this`d, this`e, this`total0, this`total1, this`buflen, buffer
      ensures buflen == old(buflen) % 64 && Has(buffer[..buflen] + rest)
    {
      hide Holds;
      var whole := buflen - buflen % 64;
      ghost var kept := buffer[whole..buflen];
      assert buffer[..buflen] + rest == buffer[..whole] + (kept + rest);
      TakeBlocks(buffer[..whole], kept + rest);
      buflen := buflen % 64;
      CopyIn(0, buffer[whole..][..buflen]);
      assert buffer[..buflen] == kept;
    }

    /** Fills up the buffer with the start of the input and processes it once it is over a block long. */
    method FillUp(data: seq<byte>) returns (add: nat)
      requires buffer.Length == 128 && 0 < buflen <= 64 && Has(buffer[..buflen] + data)
      modifies this`a, this`b, this`c, this`d, this`e, this`total0, this`total1, this`buflen, buffer
      ensures add <= |data| && buflen <= 64 && Has(buffer[..buflen] + data[add..])
      ensures add < |data| ==> buflen == 0
    {
      hide Holds;
      var left_over := buflen;
      add := if 128 - left_over > |data| then |data| else 128 - left_over;
      ghost var rest, held := data[add..], buffer[..buflen];
      assert held + data == held + data[..add] + rest;
      CopyIn(left_over, data[..add]);
      buflen := buflen + add;
      assert buffer[..buflen] == held + data[..add];
      if buflen > 64 {
        TakeFull(rest);
      }
    }

    /** Processes the whole blocks of the input; from an address that is not aligned they go through
        the buffer one by one, and the last one is left for later. */
    method WholeBlocks(data: seq<byte>, unaligned: bool) returns (rest: seq<byte>)
      requires buffer.Length == 128 && buflen == 0 && 64 <= |data| < TWO32 && Has(data)
      modifies this`a, this`b, this`c, this`d, this`e, this`total0, this`total1, buffer
      ensures |rest| <= 64 && Has(rest)
    {
      hide Holds;
      rest := data;
      if unaligned {
        while |rest| > 64
          invariant |rest| <= |data| && Has(rest)
        {
          CopyIn(0, rest[..64]);
          assert buffer[..64] + rest[64..] == rest;
          TakeBlocks(buffer[..64], rest[64..]);
          rest := rest[64..];
        }
      } else {
        var whole := |rest| - |rest| % 64;
        assert rest[..whole] + rest[whole..] == rest;
        TakeBlocks(rest[..whole], rest[whole..]);
        rest := rest[whole..];
      }
    }

    /** Keeps the last bytes of the input in the empty buffer; a whole block is processed at once. */
    method Keep(rest: seq<byte>)
      requires buffer.Length == 128 && buflen == 0 && |rest| <= 64 && Has(rest)
      modifies this`a, this`b, this`c, this`d, this`e, this`total0, this`total1, this`buflen, buffer
      ensures buflen <= 64 && Has(buffer[..buflen])
    {
      hide Holds;
      var left_over := buflen;
      CopyIn(left_over, rest);
      left_over := left_over + |rest|;
      assert buffer[..left_over] == rest;
      if left_over >= 64 {
        assert buffer[..64] + [] == rest;
        TakeBlocks(buffer[..64], []);
        left_over := left_over - 64;
        CopyIn(0, buffer[64..][..left_over]);
        assert buffer[..left_over] == [];
      }
      buflen := left_over;
    }

    /** Takes in any number of bytes. */
    method ProcessBytes(data: seq<byte>, unaligned: bool)
      requires Valid() && |data| < TWO32
      modifies this, buffer
      ensures Valid() && message == old(message) + data
    {
      HoldsMore(Chain(), total0, total1, buffer[..buflen], message, data);
      hide Holds;
      message := message + data;
      var rest := data;
      if buflen != 0 {
        var add := FillUp(rest);
        rest := rest[add..];
      } else {
        assert buffer[..0] + data == data;
      }
      assert |rest| > 0 ==> buflen == 0 && buffer[..buflen] + rest == rest;
      assert |rest| == 0 ==> buffer[..buflen] + rest == buffer[..buflen];
      if |rest| >= 64 {
        rest := WholeBlocks(rest, unaligned);
        assert buffer[..buflen] == [];
      }
      if |rest| > 0 {
        Keep(rest);
      }
    }

    /** Pads what is in the buffer, processes it, and reads off the digest. */
    method Finish() returns (digest: seq<byte>)
      requires Valid()
      modifies this, buffer
      ensures digest == Sha1(message) && message == old(message)
    {
      hide Holds, Blocks, Counted, Count0, Count1, LastBlocks, DigestOf, Sha1;
      var bytes := buflen;
      ghost var tail := buffer[..bytes];
      FinishCount(Chain(), total0, total1, tail, message);
      CountBytes(bytes);
      var size := if bytes < 56 then 64 / 4 else 64 * 2 / 4;
      PutPadding(bytes, size);
      FinishBlocks(Chain(), old(total0), old(total1), tail, message, total0, total1);
      ProcessBlock(buffer[..size * 4]);
      digest := ReadDigest();
    }

    /** The length at the end of the last block, and the fill bytes before it. */
    method PutPadding(bytes: nat, size: nat)
      requires buffer.Length == 128 && bytes <= 64 && total0 < TWO32 && size == if bytes < 56 then 16 else 32
      modifies buffer
      ensures buffer[..size * 4] == LastBlocks(old(buffer[..bytes]), total0, total1)
    {
      hide NumberBytes, FillBytes, HighWord;
      ghost var tail := buffer[..bytes];
      CopyIn((size - 2) * 4, NumberBytes(HighWord(total0, total1)));
      CopyIn((size - 1) * 4, NumberBytes(total0 * 8 % TWO32));
      assert buffer[(size - 2) * 4..size * 4] ==
        NumberBytes(HighWord(total0, total1)) + NumberBytes(total0 * 8 % TWO32);
      assert buffer[..bytes] == tail;
      CopyIn(bytes, FillBytes()[..(size - 2) * 4 - bytes]);
    }

    /** The five words in big-endian order. */
    method ReadDigest() returns (digest: seq<byte>)
      ensures digest == DigestOf(Chain())
    {
      hide StoredBytes, Swap, BytesOf;
      SwapStoresBigEndian(a);
      SwapStoresBigEndian(b);
      SwapStoresBigEndian(c);
      SwapStoresBigEndian(d);
      SwapStoresBigEndian(e);
      digest := StoredBytes(Swap(a)) + StoredBytes(Swap(b)) + StoredBytes(Swap(c)) + StoredBytes(Swap(d))
        + StoredBytes(Swap(e));
    }
  }

  /** The bytes the padding is taken from. */
  function FillBytes(): (s: seq<byte>)
    ensures |s| == 64
  {
    [0x80] + Zeros(63)
  }

  /** The upper half of eight times the byte count: three bits come over from the lower word. */
  function HighWord(total0: nat, total1: nat): nat
    requires total0 < TWO32
    ensures HighWord(total0, total1) < TWO32
  {
    total1 * 8 % TWO32 + total0 / 0x2000_0000
  }

  lemma EightTimes(n: nat)
    ensures 8 * n % TWO64 == 8 * (n % TWO64) % TWO64
  {
    assert 8 * n == 8 * (n % TWO64) + TWO64 * (8 * (n / TWO64));
    WrapsAround(8 * (n % TWO64), 8 * (n / TWO64));
  }

  lemma {:induction false} WrapsAround(x: nat, k: nat)
    ensures (x + TWO64 * k) % TWO64 == x % TWO64
    decreases k
  {
  }

  lemma EightTotals(total0: nat, total1: nat)
    requires total0 < TWO32
    ensures 8 * (total1 * TWO32 + total0) == (total1 * 8 + total0 / 0x2000_0000) * TWO32 + total0 * 8 % TWO32
    ensures total0 / 0x2000_0000 < 8
  {
  }

  lemma TwoWords(high: nat, low: nat)
    requires low < TWO32
    ensures (high * TWO32 + low) / TWO32 == high && (high * TWO32 + low) % TWO32 == low
  {
  }

  lemma LengthWords(total0: nat, total1: nat, n: nat)
    requires Counted(total0, total1, n)
    ensures LengthBytes(n) == NumberBytes(HighWord(total0, total1)) + NumberBytes(total0 * 8 % TWO32)
  {
    hide *;
    EightTimesTotals(total0, total1, n);
    TwoWords(HighWord(total0, total1), total0 * 8 % TWO32);
    WordsOfLength(n, HighWord(total0, total1), total0 * 8 % TWO32);
  }

  lemma EightTimesTotals(total0: nat, total1: nat, n: nat)
    requires Counted(total0, total1, n)
    ensures 8 * n % TWO64 == HighWord(total0, total1) * TWO32 + total0 * 8 % TWO32
    ensures total0 < TWO32 && total0 * 8 % TWO32 < TWO32
  {
    EightTimes(n);
    EightTotals(total0, total1);
    BitsSplit(total1 * 8, total0 / 0x2000_0000, total0 * 8 % TWO32);
  }

  lemma WordsOfLength(n: nat, high: nat, low: nat)
    requires high < TWO32 && low < TWO32 && (8 * n % TWO64) / TWO32 == high && 8 * n % TWO64 % TWO32 == low
    ensures LengthBytes(n) == NumberBytes(high) + NumberBytes(low)
  {
    hide NumberBytes;
  }

  lemma BitsSplit(high: nat, carry: nat, low: nat)
    requires carry < 8 && high % 8 == 0 && low < TWO32
    ensures ((high + carry) * TWO32 + low) % TWO64 == (high % TWO32 + carry) * TWO32 + low
    ensures high % TWO32 + carry < TWO32
  {
    var q, h := high / TWO32, high % TWO32;
    CarryFits(high, carry);
    var word := (h + carry) * TWO32 + low;
    assert (high + carry) * TWO32 + low == word + TWO64 * q;
    WrapsAround(word, q);
  }

  lemma CarryFits(high: nat, carry: nat)
    requires carry < 8 && high % 8 == 0
    ensures high == high / TWO32 * TWO32 + high % TWO32 && high % TWO32 + carry < TWO32
  {
  }

  /** The one or two blocks the padding ends in. */
  function LastBlocks(tail: seq<byte>, total0: nat, total1: nat): seq<byte>
    requires |tail| <= 64 && total0 < TWO32
  {
    tail + FillBytes()[..(if |tail| < 56 then 56 else 120) - |tail|]
    + (NumberBytes(HighWord(total0, total1)) + NumberBytes(total0 * 8 % TWO32))
  }

  lemma FinishCount(chain: Hash, total0: nat, total1: nat, tail: seq<byte>, message: seq<byte>)
    requires Holds(chain, total0, total1, tail, message) && |tail| <= 64
    ensures Counted(Count0(total0, |tail|), Count1(total0, total1, |tail|), |message|)
    ensures Count0(total0, |tail|) < TWO32
  {
    CountedMore(total0, total1, |message| - |tail|, |tail|);
  }

  lemma FillIsPadding(n: nat, bytes: nat)
    requires bytes <= 64 && n % 64 == bytes % 64
    ensures (if bytes < 56 then 56 else 120) - bytes == 1 + ZerosFor(n)
    ensures FillBytes()[..1 + ZerosFor(n)] == [0x80] + Zeros(ZerosFor(n))
  {
  }

  lemma LastBlocksAre(tail: seq<byte>, n: nat, t0: nat, t1: nat)
    requires |tail| <= 64 && n % 64 == |tail| % 64 && Counted(t0, t1, n)
    ensures t0 < TWO32
    ensures LastBlocks(tail, t0, t1) == tail + ([0x80] + Zeros(ZerosFor(n))) + LengthBytes(n)
  {
    LengthWords(t0, t1, n);
    FillIsPadding(n, |tail|);
    hide LengthBytes, NumberBytes, FillBytes, Zeros, ZerosFor, HighWord;
  }

  lemma PadEnds(p: seq<byte>, tail: seq<byte>)
    ensures Pad(p + tail) == p + (tail + ([0x80] + Zeros(ZerosFor(|p + tail|))) + LengthBytes(|p + tail|))
  {
  }

  lemma SameSize(n: nat, k: nat)
    requires k <= n && (n - k) % 64 == 0
    ensures n % 64 == k % 64
  {
  }

  /** What is processed last completes the padded message. */
  lemma LastBlocksPad(tail: seq<byte>, message: seq<byte>, t0: nat, t1: nat)
    requires |tail| <= 64 && |tail| <= |message| && (|message| - |tail|) % 64 == 0
    requires message[|message| - |tail|..] == tail && Counted(t0, t1, |message|)
    ensures t0 < TWO32 && Pad(message) == message[..|message| - |tail|] + LastBlocks(tail, t0, t1)
    ensures |LastBlocks(tail, t0, t1)| % 64 == 0
  {
    var p := message[..|message| - |tail|];
    assert message == p + tail;
    SameSize(|message|, |tail|);
    PaddedIsWhole(message);
    hide *;
    LastBlocksAre(tail, |message|, t0, t1);
    PadEnds(p, tail);
    SameSize(|Pad(message)|, |LastBlocks(tail, t0, t1)|);
  }

  lemma FinishBlocks(chain: Hash, total0: nat, total1: nat, tail: seq<byte>, message: seq<byte>, t0: nat, t1: nat)
    requires Holds(chain, total0, total1, tail, message) && |tail| <= 64
    requires Counted(t0, t1, |message|)
    ensures t0 < TWO32 && |LastBlocks(tail, t0, t1)| % 64 == 0
    ensures DigestOf(Blocks(chain, LastBlocks(tail, t0, t1))) == Sha1(message)
  {
    var n := |message| - |tail|;
    LastBlocksPad(tail, message, t0, t1);
    hide Blocks, Counted, DigestOf, LastBlocks, Pad;
    PaddedIsWhole(message);
    BlocksSplit(InitialHash(), message[..n], LastBlocks(tail, t0, t1));
  }

  lemma NoBlock(h: Hash, data: seq<byte>)
    ensures Blocks(h, data[..0]) == h
  {
  }

  lemma NextBlock(h: Hash, data: seq<byte>, pos: nat)
    requires |data| % 64 == 0 && pos % 64 == 0 && pos < |data|
    ensures pos + 64 <= |data| && |data[..pos + 64]| % 64 == 0
    ensures Blocks(h, data[..pos + 64])
      == Plus(Blocks(h, data[..pos]), Rounds(Blocks(h, data[..pos]), WordsOf(data[pos..pos + 64]), 80))
  {
    hide Blocks, WordsOf, Rounds, Plus;
    var block := data[pos..pos + 64];
    assert data[..pos + 64] == data[..pos] + block;
    BlocksSplit(h, data[..pos], block);
    OneBlock(Blocks(h, data[..pos]), block);
  }

  // ----- whole messages -----

  function Join(chunks: seq<seq<byte>>): seq<byte> {
    if chunks == [] then [] else Join(chunks[..|chunks| - 1]) + chunks[|chunks| - 1]
  }

  /** However a message is cut into chunks, and however these are aligned, the digest is that of the message. */
  method DigestOfChunks(chunks: seq<seq<byte>>, unaligned: seq<bool>) returns (digest: seq<byte>)
    requires |unaligned| == |chunks| && forall i :: 0 <= i < |chunks| ==> |chunks[i]| < TWO32
    ensures digest == Sha1(Join(chunks))
  {
    hide Holds, Sha1;
    var ctx := new Context();
    for i := 0 to |chunks|
      invariant ctx.Valid() && ctx.message == Join(chunks[..i]) && fresh(ctx) && fresh(ctx.buffer)
    {
      assert chunks[..i + 1][..i] == chunks[..i];
      ctx.ProcessBytes(chunks[i], unaligned[i]);
    }
    assert chunks[..|chunks|] == chunks;
    digest := ctx.Finish();
  }

  method BufferDigest(data: seq<byte>, unaligned: bool) returns (digest: seq<byte>)
    requires |data| < TWO32
    ensures digest == Sha1(data)
  {
    hide Holds, Sha1;
    var ctx := new Context();
    ctx.ProcessBytes(data, unaligned);
    assert [] + data == data;
    digest := ctx.Finish();
  }

  // ----- the digest as text -----

  function HexChar(v: byte): char {
    if v < 10 then '0' + (v as char) else 'a' + ((v - 10) as char)
  }

  /** Two lower case digits a byte, the upper half first. */
  function HexOf(s: seq<byte>): string {
    if s == [] then "" else HexOf(s[..|s| - 1]) + [HexChar(s[|s| - 1] >> 4), HexChar(s[|s| - 1] & 0xf)]
  }

  const HEX_DIGITS: string := "0123456789abcdef"

  lemma HexDigit(v: byte)
    ensures HexChar(v >> 4) == HEX_DIGITS[v as int / 16] && HexChar(v & 0xf) == HEX_DIGITS[v as int % 16]
  {
    assert (v >> 4) as int == v as int / 16 && (v & 0xf) as int == v as int % 16;
  }

  /** A byte is written as its sixteens and its ones, in lower case digits. */
  lemma {:induction false} HexAt(s: seq<byte>, i: nat)
    requires i < |s|
    ensures |HexOf(s)| == 2 * |s|
    ensures HexOf(s)[2 * i] == HEX_DIGITS[s[i] as int / 16] && HexOf(s)[2 * i + 1] == HEX_DIGITS[s[i] as int % 16]
    decreases |s|
  {
    hide HexChar;
    HexDigit(s[|s| - 1]);
    HexLength(s[..|s| - 1]);
    if i < |s| - 1 {
      HexAt(s[..|s| - 1], i);
    }
  }

  lemma HexCharTells(v: byte, w: byte)
    requires v < 16 && w < 16 && HexChar(v) == HexChar(w)
    ensures v == w
  {
  }

  lemma HalvesTell(v: byte, w: byte)
    requires v >> 4 == w >> 4 && v & 0xf == w & 0xf
    ensures v == w
  {
  }

  lemma HalvesAreSmall(v: byte)
    ensures v >> 4 < 16 && v & 0xf < 16
  {
  }

  lemma {:induction false} HexLength(s: seq<byte>)
    ensures |HexOf(s)| == 2 * |s|
    decreases |s|
  {
    hide HexChar;
    if s != [] {
      HexLength(s[..|s| - 1]);
    }
  }

  /** Different digests have different texts. */
  lemma {:induction false} HexTells(s: seq<byte>, t: seq<byte>)
    requires HexOf(s) == HexOf(t)
    ensures s == t
    decreases |s|
  {
    hide HexChar, HexOf;
    HexLength(s);
    HexLength(t);
    if s != [] {
      var n := |s| - 1;
      LastDigits(s, t);
      HexTells(s[..n], t[..n]);
      LastByte(s[n], t[n]);
      assert s == s[..n] + [s[n]] && t == t[..n] + [t[n]];
    }
  }

  /** The last two digits belong to the last byte. */
  lemma LastDigits(s: seq<byte>, t: seq<byte>)
    requires |s| == |t| > 0 && HexOf(s) == HexOf(t)
    ensures var n := |s| - 1;
      && HexOf(s[..n]) == HexOf(t[..n])
      && HexChar(s[n] >> 4) == HexChar(t[n] >> 4) && HexChar(s[n] & 0xf) == HexChar(t[n] & 0xf)
  {
    hide HexChar;
    var n := |s| - 1;
    HexLength(s[..n]);
    HexLength(t[..n]);
    var x, y := HexOf(s), HexOf(t);
    assert x[..2 * n] == HexOf(s[..n]) && y[..2 * n] == HexOf(t[..n]);
    assert x[2 * n] == y[2 * n] && x[2 * n + 1] == y[2 * n + 1];
  }

  lemma LastByte(x: byte, y: byte)
    requires HexChar(x >> 4) == HexChar(y >> 4) && HexChar(x & 0xf) == HexChar(y & 0xf)
    ensures x == y
  {
    hide HexChar;
    HalvesAreSmall(x);
    HalvesAreSmall(y);
    HexCharTells(x >> 4, y >> 4);
    HexCharTells(x & 0xf, y & 0xf);
    HalvesTell(x, y);
  }

  method TextDigest(data: seq<byte>, unaligned: bool) returns (digest: string)
    requires |data| < TWO32
    ensures digest == HexOf(Sha1(data))
  {
    hide HexChar, Sha1;
    var resblock := BufferDigest(data, unaligned);
    digest := "";
    for i := 0 to |resblock|
      invariant digest == HexOf(resblock[..i])
    {
      assert resblock[..i + 1][..i] == resblock[..i];
      digest := digest + [HexChar(resblock[i] >> 4)] + [HexChar(resblock[i] & 0xf)];
    }
    assert resblock[..|resblock|] == resblock;
  }
}
