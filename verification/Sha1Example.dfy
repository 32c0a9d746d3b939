/** The example of Appendix A of FIPS 180-1: the message "abc" and its digest, worked out word by word and round by
    round. It fixes the constants, the functions, the rotations and the schedule of the specification. */
module Sha1Example {
  import opened Fips180

  // ----- the constants and rotations, said without naming them -----

  /** Each constant is the whole part of 2^30 times a square root: of 2, 3, 5 and 10. */
  lemma ConstantsAreRoots(t: nat)
    requires t < 80
    ensures var k := K(t) as int;
      var n := if t < 20 then 2 else if t < 40 then 3 else if t < 60 then 5 else 10;
      k * k <= n * 0x1000_0000_0000_0000 < (k + 1) * (k + 1)
  {
  }

  /** Bit `i` of a word. */
  function Bit(x: word, i: word): word
    requires i < 32
  {
    (x >> i) & 1
  }

  /** A rotation by `n` moves every bit `n` places up, around the end. */
  lemma RotationsMoveBits(x: word, i: word)
    requires i < 32
    ensures Bit(Rol1(x), (i + 1) % 32) == Bit(x, i)
    ensures Bit(Rol5(x), (i + 5) % 32) == Bit(x, i)
    ensures Bit(Rol30(x), (i + 30) % 32) == Bit(x, i)
  {
  }

  // ----- the example -----

  function Abc(): seq<byte> {
    [0x61, 0x62, 0x63]
  }

  function AbcWords(): seq<word> {
    [0x61626380, 0x00000000, 0x00000000, 0x00000000, 0x00000000, 0x00000000, 0x00000000, 0x00000000,
     0x00000000, 0x00000000, 0x00000000, 0x00000000, 0x00000000, 0x00000000, 0x00000000, 0x00000018]
  }

  /** Word `t` of the schedule. */
  ghost predicate Word(t: nat, w: word) {
    W(AbcWords(), t) == w
  }

  /** The registers after `t` rounds. */
  ghost predicate After(t: nat, h: Hash) {
    Rounds(InitialHash(), AbcWords(), t) == h
  }

  lemma FirstWords(t: nat)
    requires t < 16
    ensures Word(t, AbcWords()[t])
  {
    hide AbcWords;
  }

  /** A later word of the schedule from the four it depends on. */
  lemma NextWord(t: nat, p: word, q: word, r: word, s: word)
    requires t >= 16 && Word(t - 3, p) && Word(t - 8, q) && Word(t - 14, r) && Word(t - 16, s)
    ensures Word(t, Rol1(Xor4(p, q, r, s)))
  {
    hide AbcWords, Rol1, Xor4;
  }

  lemma NextRound(t: nat, r: Hash, w: word)
    requires After(t, r) && Word(t, w)
    ensures After(t + 1, Step(r, t, w))
  {
    hide AbcWords, InitialHash, Step, W;
  }

  lemma Words0()
    ensures Word(0, 0x61626380) && Word(1, 0x00000000)
    ensures Word(2, 0x00000000) && Word(3, 0x00000000)
    ensures Word(4, 0x00000000) && Word(5, 0x00000000)
    ensures Word(6, 0x00000000) && Word(7, 0x00000000)
    ensures Word(8, 0x00000000) && Word(9, 0x00000000)
    ensures Word(10, 0x00000000) && Word(11, 0x00000000)
    ensures Word(12, 0x00000000) && Word(13, 0x00000000)
    ensures Word(14, 0x00000000) && Word(15, 0x00000018)
  {
    hide Word;
    FirstWords(0);
    FirstWords(1);
    FirstWords(2);
    FirstWords(3);
    FirstWords(4);
    FirstWords(5);
    FirstWords(6);
    FirstWords(7);
    FirstWords(8);
    FirstWords(9);
    FirstWords(10);
    FirstWords(11);
    FirstWords(12);
    FirstWords(13);
    FirstWords(14);
    FirstWords(15);
  }

  lemma Words16()
    ensures Word(16, 0xc2c4c700) && Word(17, 0x00000000)
    ensures Word(18, 0x00000030) && Word(19, 0x85898e01)
    ensures Word(20, 0x00000000) && Word(21, 0x00000060)
    ensures Word(22, 0x0b131c03) && Word(23, 0x00000030)
  {
    hide Word;
    Words0();
    NextWord(16, 0x00000000, 0x00000000, 0x00000000, 0x61626380);
    NextWord(17, 0x00000000, 0x00000000, 0x00000000, 0x00000000);
    NextWord(18, 0x00000018, 0x00000000, 0x00000000, 0x00000000);
    NextWord(19, 0xc2c4c700, 0x00000000, 0x00000000, 0x00000000);
    NextWord(20, 0x00000000, 0x00000000, 0x00000000, 0x00000000);
    NextWord(21, 0x00000030, 0x00000000, 0x00000000, 0x00000000);
    NextWord(22, 0x85898e01, 0x00000000, 0x00000000, 0x00000000);
    NextWord(23, 0x00000000, 0x00000018, 0x00000000, 0x00000000);
  }

  lemma Words24()
    ensures Word(24, 0x85898ec1) && Word(25, 0x16263806)
    ensures Word(26, 0x00000000) && Word(27, 0x00000180)
    ensures Word(28, 0x2c4c700c) && Word(29, 0x000000f0)
    ensures Word(30, 0x93afb507) && Word(31, 0x5898e048)
  {
    hide Word;
    Words0();
    Words16();
    NextWord(24, 0x00000060, 0xc2c4c700, 0x00000000, 0x00000000);
    NextWord(25, 0x0b131c03, 0x00000000, 0x00000000, 0x00000000);
    NextWord(26, 0x00000030, 0x00000030, 0x00000000, 0x00000000);
    NextWord(27, 0x85898ec1, 0x85898e01, 0x00000000, 0x00000000);
    NextWord(28, 0x16263806, 0x00000000, 0x00000000, 0x00000000);
    NextWord(29, 0x00000000, 0x00000060, 0x00000018, 0x00000000);
    NextWord(30, 0x00000180, 0x0b131c03, 0xc2c4c700, 0x00000000);
    NextWord(31, 0x2c4c700c, 0x00000030, 0x00000000, 0x00000018);
  }

  lemma Words32()
    ensures Word(32, 0x8e9a9202) && Word(33, 0x00000600)
    ensures Word(34, 0xb131c0f0) && Word(35, 0x16263bc6)
    ensures Word(36, 0x4ebed41e) && Word(37, 0x626380a1)
    ensures Word(38, 0x16263806) && Word(39, 0x000018c0)
  {
    hide Word;
    Words16();
    Words24();
    NextWord(32, 0x000000f0, 0x85898ec1, 0x00000030, 0xc2c4c700);
    NextWord(33, 0x93afb507, 0x16263806, 0x85898e01, 0x00000000);
    NextWord(34, 0x5898e048, 0x00000000, 0x00000000, 0x00000030);
    NextWord(35, 0x8e9a9202, 0x00000180, 0x00000060, 0x85898e01);
    NextWord(36, 0x00000600, 0x2c4c700c, 0x0b131c03, 0x00000000);
    NextWord(37, 0xb131c0f0, 0x000000f0, 0x00000030, 0x00000060);
    NextWord(38, 0x16263bc6, 0x93afb507, 0x85898ec1, 0x0b131c03);
    NextWord(39, 0x4ebed41e, 0x5898e048, 0x16263806, 0x00000030);
  }

  lemma Words40()
    ensures Word(40, 0xd2e138c4) && Word(41, 0x00000f00)
    ensures Word(42, 0x3afb5079) && Word(43, 0x898e04e5)
    ensures Word(44, 0xe2ba3c2b) && Word(45, 0x000060c0)
    ensures Word(46, 0x053a37cd) && Word(47, 0x74458547)
  {
    hide Word;
    Words24();
    Words32();
    NextWord(40, 0x626380a1, 0x8e9a9202, 0x00000000, 0x85898ec1);
    NextWord(41, 0x16263806, 0x00000600, 0x00000180, 0x16263806);
    NextWord(42, 0x000018c0, 0xb131c0f0, 0x2c4c700c, 0x00000000);
    NextWord(43, 0xd2e138c4, 0x16263bc6, 0x000000f0, 0x00000180);
    NextWord(44, 0x00000f00, 0x4ebed41e, 0x93afb507, 0x2c4c700c);
    NextWord(45, 0x3afb5079, 0x626380a1, 0x5898e048, 0x000000f0);
    NextWord(46, 0x898e04e5, 0x16263806, 0x8e9a9202, 0x93afb507);
    NextWord(47, 0xe2ba3c2b, 0x000018c0, 0x00000600, 0x5898e048);
  }

  lemma Words48()
    ensures Word(48, 0xda9415ed) && Word(49, 0x26380a16)
    ensures Word(50, 0x626383a1) && Word(51, 0x4ebf54de)
    ensures Word(52, 0x3835b44b) && Word(53, 0x0000f600)
    ensures Word(54, 0x1e84c7a3) && Word(55, 0x98e04d98)
  {
    hide Word;
    Words32();
    Words40();
    NextWord(48, 0x000060c0, 0xd2e138c4, 0xb131c0f0, 0x8e9a9202);
    NextWord(49, 0x053a37cd, 0x00000f00, 0x16263bc6, 0x00000600);
    NextWord(50, 0x74458547, 0x3afb5079, 0x4ebed41e, 0xb131c0f0);
    NextWord(51, 0xda9415ed, 0x898e04e5, 0x626380a1, 0x16263bc6);
    NextWord(52, 0x26380a16, 0xe2ba3c2b, 0x16263806, 0x4ebed41e);
    NextWord(53, 0x626383a1, 0x000060c0, 0x000018c0, 0x626380a1);
    NextWord(54, 0x4ebf54de, 0x053a37cd, 0xd2e138c4, 0x16263806);
    NextWord(55, 0x3835b44b, 0x74458547, 0x00000f00, 0x000018c0);
  }

  lemma Words56()
    ensures Word(56, 0x651d16a0) && Word(57, 0x62658ca1)
    ensures Word(58, 0x458544d6) && Word(59, 0x44584cb7)
    ensures Word(60, 0x7ba06619) && Word(61, 0x6380aea2)
    ensures Word(62, 0x0ae55269) && Word(63, 0x627b49a1)
  {
    hide Word;
    Words40();
    Words48();
    NextWord(56, 0x0000f600, 0xda9415ed, 0x3afb5079, 0xd2e138c4);
    NextWord(57, 0x1e84c7a3, 0x26380a16, 0x898e04e5, 0x00000f00);
    NextWord(58, 0x98e04d98, 0x626383a1, 0xe2ba3c2b, 0x3afb5079);
    NextWord(59, 0x651d16a0, 0x4ebf54de, 0x000060c0, 0x898e04e5);
    NextWord(60, 0x62658ca1, 0x3835b44b, 0x053a37cd, 0xe2ba3c2b);
    NextWord(61, 0x458544d6, 0x0000f600, 0x74458547, 0x000060c0);
    NextWord(62, 0x44584cb7, 0x1e84c7a3, 0xda9415ed, 0x053a37cd);
    NextWord(63, 0x7ba06619, 0x98e04d98, 0x26380a16, 0x74458547);
  }

  lemma Words64()
    ensures Word(64, 0x7cd45c9d) && Word(65, 0x000f0000)
    ensures Word(66, 0xfb50753a) && Word(67, 0xec6765e8)
    ensures Word(68, 0xba3c2be2) && Word(69, 0x0060c000)
    ensures Word(70, 0x3a37cd05) && Word(71, 0x458546f4)
  {
    hide Word;
    Words48();
    Words56();
    NextWord(64, 0x6380aea2, 0x651d16a0, 0x626383a1, 0xda9415ed);
    NextWord(65, 0x0ae55269, 0x62658ca1, 0x4ebf54de, 0x26380a16);
    NextWord(66, 0x627b49a1, 0x458544d6, 0x3835b44b, 0x626383a1);
    NextWord(67, 0x7cd45c9d, 0x44584cb7, 0x0000f600, 0x4ebf54de);
    NextWord(68, 0x000f0000, 0x7ba06619, 0x1e84c7a3, 0x3835b44b);
    NextWord(69, 0xfb50753a, 0x6380aea2, 0x98e04d98, 0x0000f600);
    NextWord(70, 0xec6765e8, 0x0ae55269, 0x651d16a0, 0x1e84c7a3);
    NextWord(71, 0xba3c2be2, 0x627b49a1, 0x62658ca1, 0x98e04d98);
  }

  lemma Words72()
    ensures Word(72, 0xb8599dd6) && Word(73, 0x380a1a26)
    ensures Word(74, 0x01e02203) && Word(75, 0xe7cc3456)
    ensures Word(76, 0xe6e60b69) && Word(77, 0x00f60a00)
    ensures Word(78, 0x5795ef4f) && Word(79, 0x822e0879)
  {
    hide Word;
    Words56();
    Words64();
    NextWord(72, 0x0060c000, 0x7cd45c9d, 0x458544d6, 0x651d16a0);
    NextWord(73, 0x3a37cd05, 0x000f0000, 0x44584cb7, 0x62658ca1);
    NextWord(74, 0x458546f4, 0xfb50753a, 0x7ba06619, 0x458544d6);
    NextWord(75, 0xb8599dd6, 0xec6765e8, 0x6380aea2, 0x44584cb7);
    NextWord(76, 0x380a1a26, 0xba3c2be2, 0x0ae55269, 0x7ba06619);
    NextWord(77, 0x01e02203, 0x0060c000, 0x627b49a1, 0x6380aea2);
    NextWord(78, 0xe7cc3456, 0x3a37cd05, 0x7cd45c9d, 0x0ae55269);
    NextWord(79, 0xe6e60b69, 0x458546f4, 0x000f0000, 0x627b49a1);
  }

  lemma Rounds5()
    ensures After(5, Hash(0xcfd499de, 0xcdd8e11b, 0x284e43c2, 0x626414db, 0xc045bf0c))
  {
    hide Word, After;
    NoRounds();
    Words0();
    NextRound(0, Hash(0x67452301, 0xefcdab89, 0x98badcfe, 0x10325476, 0xc3d2e1f0), 0x61626380);
    NextRound(1, Hash(0x0116fc33, 0x67452301, 0x7bf36ae2, 0x98badcfe, 0x10325476), 0x00000000);
    NextRound(2, Hash(0x8990536d, 0x0116fc33, 0x59d148c0, 0x7bf36ae2, 0x98badcfe), 0x00000000);
    NextRound(3, Hash(0xa1390f08, 0x8990536d, 0xc045bf0c, 0x59d148c0, 0x7bf36ae2), 0x00000000);
    NextRound(4, Hash(0xcdd8e11b, 0xa1390f08, 0x626414db, 0xc045bf0c, 0x59d148c0), 0x00000000);
  }

  lemma Rounds10()
    ensures After(10, Hash(0x8351f929, 0x4b6ae328, 0x27a301f5, 0x664f8c30, 0x0ff1f290))
  {
    hide Word, After;
    Rounds5();
    Words0();
    NextRound(5, Hash(0xcfd499de, 0xcdd8e11b, 0x284e43c2, 0x626414db, 0xc045bf0c), 0x00000000);
    NextRound(6, Hash(0x3fc7ca40, 0xcfd499de, 0xf3763846, 0x284e43c2, 0x626414db), 0x00000000);
    NextRound(7, Hash(0x993e30c1, 0x3fc7ca40, 0xb3f52677, 0xf3763846, 0x284e43c2), 0x00000000);
    NextRound(8, Hash(0x9e8c07d4, 0x993e30c1, 0x0ff1f290, 0xb3f52677, 0xf3763846), 0x00000000);
    NextRound(9, Hash(0x4b6ae328, 0x9e8c07d4, 0x664f8c30, 0x0ff1f290, 0xb3f52677), 0x00000000);
  }

  lemma Rounds15()
    ensures After(15, Hash(0x196bee77, 0x9128f695, 0x1181ed99, 0x18c623f9, 0x7ef6a7a2))
  {
    hide Word, After;
    Rounds10();
    Words0();
    NextRound(10, Hash(0x8351f929, 0x4b6ae328, 0x27a301f5, 0x664f8c30, 0x0ff1f290), 0x00000000);
    NextRound(11, Hash(0xfbda9e89, 0x8351f929, 0x12dab8ca, 0x27a301f5, 0x664f8c30), 0x00000000);
    NextRound(12, Hash(0x63188fe4, 0xfbda9e89, 0x60d47e4a, 0x12dab8ca, 0x27a301f5), 0x00000000);
    NextRound(13, Hash(0x4607b664, 0x63188fe4, 0x7ef6a7a2, 0x60d47e4a, 0x12dab8ca), 0x00000000);
    NextRound(14, Hash(0x9128f695, 0x4607b664, 0x18c623f9, 0x7ef6a7a2, 0x60d47e4a), 0x00000000);
  }

  lemma Rounds20()
    ensures After(20, Hash(0xfd9e1d7d, 0xdc64901d, 0x20aa99ca, 0xd3a49608, 0xc82f758b))
  {
    hide Word, After;
    Rounds15();
    Words0();
    Words16();
    NextRound(15, Hash(0x196bee77, 0x9128f695, 0x1181ed99, 0x18c623f9, 0x7ef6a7a2), 0x00000018);
    NextRound(16, Hash(0x20bdd62f, 0x196bee77, 0x644a3da5, 0x1181ed99, 0x18c623f9), 0xc2c4c700);
    NextRound(17, Hash(0x4e925823, 0x20bdd62f, 0xc65afb9d, 0x644a3da5, 0x1181ed99), 0x00000000);
    NextRound(18, Hash(0x82aa6728, 0x4e925823, 0xc82f758b, 0xc65afb9d, 0x644a3da5), 0x00000030);
    NextRound(19, Hash(0xdc64901d, 0x82aa6728, 0xd3a49608, 0xc82f758b, 0xc65afb9d), 0x85898e01);
  }

  lemma Rounds25()
    ensures After(25, Hash(0xc7567dc6, 0xd541f12d, 0x884a0d21, 0x0ce88eff, 0x868dec32))
  {
    hide Word, After;
    Rounds20();
    Words16();
    Words24();
    NextRound(20, Hash(0xfd9e1d7d, 0xdc64901d, 0x20aa99ca, 0xd3a49608, 0xc82f758b), 0x00000000);
    NextRound(21, Hash(0x1a37b0ca, 0xfd9e1d7d, 0x77192407, 0x20aa99ca, 0xd3a49608), 0x00000060);
    NextRound(22, Hash(0x33a23bfc, 0x1a37b0ca, 0x7f67875f, 0x77192407, 0x20aa99ca), 0x0b131c03);
    NextRound(23, Hash(0x21283486, 0x33a23bfc, 0x868dec32, 0x7f67875f, 0x77192407), 0x00000030);
    NextRound(24, Hash(0xd541f12d, 0x21283486, 0x0ce88eff, 0x868dec32, 0x7f67875f), 0x85898ec1);
  }

  lemma Rounds30()
    ensures After(30, Hash(0xc5fbaf5d, 0x8370b52e, 0xd2aa1365, 0x6f8d7ef5, 0x12104ee9))
  {
    hide Word, After;
    Rounds25();
    Words24();
    NextRound(25, Hash(0xc7567dc6, 0xd541f12d, 0x884a0d21, 0x0ce88eff, 0x868dec32), 0x16263806);
    NextRound(26, Hash(0x48413ba4, 0xc7567dc6, 0x75507c4b, 0x884a0d21, 0x0ce88eff), 0x00000000);
    NextRound(27, Hash(0xbe35fbd5, 0x48413ba4, 0xb1d59f71, 0x75507c4b, 0x884a0d21), 0x00000180);
    NextRound(28, Hash(0x4aa84d97, 0xbe35fbd5, 0x12104ee9, 0xb1d59f71, 0x75507c4b), 0x2c4c700c);
    NextRound(29, Hash(0x8370b52e, 0x4aa84d97, 0x6f8d7ef5, 0x12104ee9, 0xb1d59f71), 0x000000f0);
  }

  lemma Rounds35()
    ensures After(35, Hash(0x21796ad4, 0x2c0ebc11, 0x811bea82, 0xcee1174c, 0xc499ed01))
  {
    hide Word, After;
    Rounds30();
    Words24();
    Words32();
    NextRound(30, Hash(0xc5fbaf5d, 0x8370b52e, 0xd2aa1365, 0x6f8d7ef5, 0x12104ee9), 0x93afb507);
    NextRound(31, Hash(0x1267b407, 0xc5fbaf5d, 0xa0dc2d4b, 0xd2aa1365, 0x6f8d7ef5), 0x5898e048);
    NextRound(32, Hash(0x3b845d33, 0x1267b407, 0x717eebd7, 0xa0dc2d4b, 0xd2aa1365), 0x8e9a9202);
    NextRound(33, Hash(0x046faa0a, 0x3b845d33, 0xc499ed01, 0x717eebd7, 0xa0dc2d4b), 0x00000600);
    NextRound(34, Hash(0x2c0ebc11, 0x046faa0a, 0xcee1174c, 0xc499ed01, 0x717eebd7), 0xb131c0f0);
  }

  lemma Rounds40()
    ensures After(40, Hash(0x32de1cba, 0x4c986405, 0xf718e5cf, 0x03d447f6, 0xf72eec32))
  {
    hide Word, After;
    Rounds35();
    Words32();
    NextRound(35, Hash(0x21796ad4, 0x2c0ebc11, 0x811bea82, 0xcee1174c, 0xc499ed01), 0x16263bc6);
    NextRound(36, Hash(0xdcbbb0cb, 0x21796ad4, 0x4b03af04, 0x811bea82, 0xcee1174c), 0x4ebed41e);
    NextRound(37, Hash(0x0f511fd8, 0xdcbbb0cb, 0x085e5ab5, 0x4b03af04, 0x811bea82), 0x626380a1);
    NextRound(38, Hash(0xdc63973f, 0x0f511fd8, 0xf72eec32, 0x085e5ab5, 0x4b03af04), 0x16263806);
    NextRound(39, Hash(0x4c986405, 0xdc63973f, 0x03d447f6, 0xf72eec32, 0x085e5ab5), 0x000018c0);
  }

  lemma Rounds45()
    ensures After(45, Hash(0x40f28e09, 0xee1b1aaf, 0x5fc64f71, 0x25c28357, 0xff21f7b7))
  {
    hide Word, After;
    Rounds40();
    Words40();
    NextRound(40, Hash(0x32de1cba, 0x4c986405, 0xf718e5cf, 0x03d447f6, 0xf72eec32), 0xd2e138c4);
    NextRound(41, Hash(0xfc87dedf, 0x32de1cba, 0x53261901, 0xf718e5cf, 0x03d447f6), 0x00000f00);
    NextRound(42, Hash(0x970a0d5c, 0xfc87dedf, 0x8cb7872e, 0x53261901, 0xf718e5cf), 0x3afb5079);
    NextRound(43, Hash(0x7f193dc5, 0x970a0d5c, 0xff21f7b7, 0x8cb7872e, 0x53261901), 0x898e04e5);
    NextRound(44, Hash(0xee1b1aaf, 0x7f193dc5, 0x25c28357, 0xff21f7b7, 0x8cb7872e), 0xe2ba3c2b);
  }

  lemma Rounds50()
    ensures After(50, Hash(0x120731c5, 0xbaf39337, 0xafab40b2, 0x2806e11b, 0x8714787c))
  {
    hide Word, After;
    Rounds45();
    Words40();
    Words48();
    NextRound(45, Hash(0x40f28e09, 0xee1b1aaf, 0x5fc64f71, 0x25c28357, 0xff21f7b7), 0x000060c0);
    NextRound(46, Hash(0x1c51e1f2, 0x40f28e09, 0xfb86c6ab, 0x5fc64f71, 0x25c28357), 0x053a37cd);
    NextRound(47, Hash(0xa01b846c, 0x1c51e1f2, 0x503ca382, 0xfb86c6ab, 0x5fc64f71), 0x74458547);
    NextRound(48, Hash(0xbead02ca, 0xa01b846c, 0x8714787c, 0x503ca382, 0xfb86c6ab), 0xda9415ed);
    NextRound(49, Hash(0xbaf39337, 0xbead02ca, 0x2806e11b, 0x8714787c, 0x503ca382), 0x26380a16);
  }

  lemma Rounds55()
    ensures After(55, Hash(0x7b71f76d, 0x27e9f1d8, 0x792410db, 0x8e11eb59, 0x99076cb3))
  {
    hide Word, After;
    Rounds50();
    Words48();
    NextRound(50, Hash(0x120731c5, 0xbaf39337, 0xafab40b2, 0x2806e11b, 0x8714787c), 0x626383a1);
    NextRound(51, Hash(0x641db2ce, 0x120731c5, 0xeebce4cd, 0xafab40b2, 0x2806e11b), 0x4ebf54de);
    NextRound(52, Hash(0x3847ad66, 0x641db2ce, 0x4481cc71, 0xeebce4cd, 0xafab40b2), 0x3835b44b);
    NextRound(53, Hash(0xe490436d, 0x3847ad66, 0x99076cb3, 0x4481cc71, 0xeebce4cd), 0x0000f600);
    NextRound(54, Hash(0x27e9f1d8, 0xe490436d, 0x8e11eb59, 0x99076cb3, 0x4481cc71), 0x1e84c7a3);
  }

  lemma Rounds60()
    ensures After(60, Hash(0x3f52de5a, 0x09d785fd, 0x3498bfd4, 0xf211824f, 0xd79915ab))
  {
    hide Word, After;
    Rounds55();
    Words48();
    Words56();
    NextRound(55, Hash(0x7b71f76d, 0x27e9f1d8, 0x792410db, 0x8e11eb59, 0x99076cb3), 0x98e04d98);
    NextRound(56, Hash(0x5e6456af, 0x7b71f76d, 0x09fa7c76, 0x792410db, 0x8e11eb59), 0x651d16a0);
    NextRound(57, Hash(0xc846093f, 0x5e6456af, 0x5edc7ddb, 0x09fa7c76, 0x792410db), 0x62658ca1);
    NextRound(58, Hash(0xd262ff50, 0xc846093f, 0xd79915ab, 0x5edc7ddb, 0x09fa7c76), 0x458544d6);
    NextRound(59, Hash(0x09d785fd, 0xd262ff50, 0xf211824f, 0xd79915ab, 0x5edc7ddb), 0x44584cb7);
  }

  lemma Rounds65()
    ensures After(65, Hash(0x19dfa7ac, 0x6b61c9e1, 0xed9b0082, 0x9523272c, 0xf5d5b051))
  {
    hide Word, After;
    Rounds60();
    Words56();
    Words64();
    NextRound(60, Hash(0x3f52de5a, 0x09d785fd, 0x3498bfd4, 0xf211824f, 0xd79915ab), 0x7ba06619);
    NextRound(61, Hash(0xd756c147, 0x3f52de5a, 0x4275e17f, 0x3498bfd4, 0xf211824f), 0x6380aea2);
    NextRound(62, Hash(0x548c9cb2, 0xd756c147, 0x8fd4b796, 0x4275e17f, 0x3498bfd4), 0x0ae55269);
    NextRound(63, Hash(0xb66c020b, 0x548c9cb2, 0xf5d5b051, 0x8fd4b796, 0x4275e17f), 0x627b49a1);
    NextRound(64, Hash(0x6b61c9e1, 0xb66c020b, 0x9523272c, 0xf5d5b051, 0x8fd4b796), 0x7cd45c9d);
  }

  lemma Rounds70()
    ensures After(70, Hash(0x3f2588c2, 0x497093c0, 0xde37534a, 0x030f7cad, 0x4405957e))
  {
    hide Word, After;
    Rounds65();
    Words64();
    NextRound(65, Hash(0x19dfa7ac, 0x6b61c9e1, 0xed9b0082, 0x9523272c, 0xf5d5b051), 0x000f0000);
    NextRound(66, Hash(0x101655f9, 0x19dfa7ac, 0x5ad87278, 0xed9b0082, 0x9523272c), 0xfb50753a);
    NextRound(67, Hash(0x0c3df2b4, 0x101655f9, 0x0677e9eb, 0x5ad87278, 0xed9b0082), 0xec6765e8);
    NextRound(68, Hash(0x78dd4d2b, 0x0c3df2b4, 0x4405957e, 0x0677e9eb, 0x5ad87278), 0xba3c2be2);
    NextRound(69, Hash(0x497093c0, 0x78dd4d2b, 0x030f7cad, 0x4405957e, 0x0677e9eb), 0x0060c000);
  }

  lemma Rounds75()
    ensures After(75, Hash(0x5ee76897, 0x11793f6f, 0x3b6d0b79, 0xce616779, 0xf0667e31))
  {
    hide Word, After;
    Rounds70();
    Words64();
    Words72();
    NextRound(70, Hash(0x3f2588c2, 0x497093c0, 0xde37534a, 0x030f7cad, 0x4405957e), 0x3a37cd05);
    NextRound(71, Hash(0xc199f8c7, 0x3f2588c2, 0x125c24f0, 0xde37534a, 0x030f7cad), 0x458546f4);
    NextRound(72, Hash(0x39859de7, 0xc199f8c7, 0x8fc96230, 0x125c24f0, 0xde37534a), 0xb8599dd6);
    NextRound(73, Hash(0xedb42de4, 0x39859de7, 0xf0667e31, 0x8fc96230, 0x125c24f0), 0x380a1a26);
    NextRound(74, Hash(0x11793f6f, 0xedb42de4, 0xce616779, 0xf0667e31, 0x8fc96230), 0x01e02203);
  }

  lemma Rounds80()
    ensures After(80, Hash(0x42541b35, 0x5738d5e1, 0x21834873, 0x681e6df6, 0xd8fdf6ad))
  {
    hide Word, After;
    Rounds75();
    Words72();
    NextRound(75, Hash(0x5ee76897, 0x11793f6f, 0x3b6d0b79, 0xce616779, 0xf0667e31), 0xe7cc3456);
    NextRound(76, Hash(0x63f7dab7, 0x5ee76897, 0xc45e4fdb, 0x3b6d0b79, 0xce616779), 0xe6e60b69);
    NextRound(77, Hash(0xa079b7d9, 0x63f7dab7, 0xd7b9da25, 0xc45e4fdb, 0x3b6d0b79), 0x00f60a00);
    NextRound(78, Hash(0x860d21cc, 0xa079b7d9, 0xd8fdf6ad, 0xd7b9da25, 0xc45e4fdb), 0x5795ef4f);
    NextRound(79, Hash(0x5738d5e1, 0x860d21cc, 0x681e6df6, 0xd8fdf6ad, 0xd7b9da25), 0x822e0879);
  }

  lemma NoRounds()
    ensures After(0, Hash(0x67452301, 0xefcdab89, 0x98badcfe, 0x10325476, 0xc3d2e1f0))
  {
    hide AbcWords;
  }

  /** The padded message is one block. */
  lemma AbcPadded() returns (p: seq<byte>)
    ensures p == Pad(Abc()) && |p| == 64
    ensures p[0] == 0x61 && p[1] == 0x62 && p[2] == 0x63 && p[3] == 0x80 && p[63] == 24
    ensures forall i :: 4 <= i < 63 ==> p[i] == 0
  {
    hide ZerosFor, LengthBytes;
    p := Pad(Abc());
    AbcZeros();
    AbcLength();
  }

  lemma AbcZeros()
    ensures ZerosFor(|Abc()|) == 52
  {
  }

  lemma AbcLength()
    ensures LengthBytes(3) == [0, 0, 0, 0, 0, 0, 0, 24]
  {
    SmallNumbers();
    hide NumberBytes;
    assert 8 * 3 % TWO64 == 24 && 24 / TWO32 == 0 && 24 % TWO32 == 24;
  }

  /** A message of 2^29 + 1 bytes is the first whose number of bits needs the upper word. */
  lemma LongLength()
    ensures LengthBytes(0x2000_0001) == [0, 0, 0, 1, 0, 0, 0, 8]
    ensures LengthBytes(0x2000_0000_0000_0000) == [0, 0, 0, 0, 0, 0, 0, 0]
  {
    SmallNumbers();
    hide NumberBytes;
    assert 8 * 0x2000_0001 % TWO64 == 0x1_0000_0008;
    assert 0x1_0000_0008 / TWO32 == 1 && 0x1_0000_0008 % TWO32 == 8;
    assert 8 * 0x2000_0000_0000_0000 % TWO64 == 0 && 0 / TWO32 == 0 && 0 % TWO32 == 0;
  }

  lemma SmallNumbers()
    ensures NumberBytes(0) == [0, 0, 0, 0] && NumberBytes(1) == [0, 0, 0, 1]
    ensures NumberBytes(8) == [0, 0, 0, 8] && NumberBytes(24) == [0, 0, 0, 24]
  {
  }

  lemma AbcBlock()
    ensures |Pad(Abc())| == 64 && WordsOf(Pad(Abc())) == AbcWords()
  {
    hide Pad, Abc;
    var p := AbcPadded();
    forall i | 0 <= i < 16
      ensures WordsOf(p)[i] == AbcWords()[i]
    {
      assert 1 <= i < 15 ==> BigEndian(p[4 * i], p[4 * i + 1], p[4 * i + 2], p[4 * i + 3]) == BigEndian(0, 0, 0, 0);
    }
  }

  lemma AbcHash()
    ensures |Pad(Abc())| % 64 == 0
    ensures Blocks(InitialHash(), Pad(Abc()))
      == Hash(0xa9993e36, 0x4706816a, 0xba3e2571, 0x7850c26c, 0x9cd0d89d)
  {
    hide Pad, Abc, AbcWords, WordsOf, Blocks, Rounds;
    AbcBlock();
    Rounds80();
    OneBlock(InitialHash(), Pad(Abc()));
  }

  /** The digest of "abc" is the one the standard gives. */
  lemma DigestOfAbc()
    ensures Sha1(Abc()) == [0xa9, 0x99, 0x3e, 0x36, 0x47, 0x06, 0x81, 0x6a, 0xba, 0x3e,
      0x25, 0x71, 0x78, 0x50, 0xc2, 0x6c, 0x9c, 0xd0, 0xd8, 0x9d]
  {
    hide Pad, Abc, Blocks;
    AbcHash();
  }
}
