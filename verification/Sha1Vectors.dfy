/** The two example messages of the Secure Hash Standard, word by word and round
    by round: the digests that the definition gives are those the standard
    prints (FIPS 180-1, appendices A and B). */
module Sha1Vectors {
  import opened XorNat
  import opened Words32
  import opened Sha1Spec

  // ----- the block of "abc"

  /** The first register, from four rounds before the first. */
  function AbcFirst(t: nat): Word {
    match t
    case 0 => 0x0f4b87c3 case 1 => 0x40c951d8 case 2 => 0x62eb73fa case 3 => 0xefcdab89 case 4 => 0x67452301
    case 5 => 0x0116fc33 case 6 => 0x8990536d case 7 => 0xa1390f08 case 8 => 0xcdd8e11b case 9 => 0xcfd499de
    case 10 => 0x3fc7ca40 case 11 => 0x993e30c1 case 12 => 0x9e8c07d4 case 13 => 0x4b6ae328 case 14 => 0x8351f929
    case 15 => 0xfbda9e89 case 16 => 0x63188fe4 case 17 => 0x4607b664 case 18 => 0x9128f695 case 19 => 0x196bee77
    case 20 => 0x20bdd62f case 21 => 0x4e925823 case 22 => 0x82aa6728 case 23 => 0xdc64901d case 24 => 0xfd9e1d7d
    case 25 => 0x1a37b0ca case 26 => 0x33a23bfc case 27 => 0x21283486 case 28 => 0xd541f12d case 29 => 0xc7567dc6
    case 30 => 0x48413ba4 case 31 => 0xbe35fbd5 case 32 => 0x4aa84d97 case 33 => 0x8370b52e case 34 => 0xc5fbaf5d
    case 35 => 0x1267b407 case 36 => 0x3b845d33 case 37 => 0x046faa0a case 38 => 0x2c0ebc11 case 39 => 0x21796ad4
    case 40 => 0xdcbbb0cb case 41 => 0x0f511fd8 case 42 => 0xdc63973f case 43 => 0x4c986405 case 44 => 0x32de1cba
    case 45 => 0xfc87dedf case 46 => 0x970a0d5c case 47 => 0x7f193dc5 case 48 => 0xee1b1aaf case 49 => 0x40f28e09
    case 50 => 0x1c51e1f2 case 51 => 0xa01b846c case 52 => 0xbead02ca case 53 => 0xbaf39337 case 54 => 0x120731c5
    case 55 => 0x641db2ce case 56 => 0x3847ad66 case 57 => 0xe490436d case 58 => 0x27e9f1d8 case 59 => 0x7b71f76d
    case 60 => 0x5e6456af case 61 => 0xc846093f case 62 => 0xd262ff50 case 63 => 0x09d785fd case 64 => 0x3f52de5a
    case 65 => 0xd756c147 case 66 => 0x548c9cb2 case 67 => 0xb66c020b case 68 => 0x6b61c9e1 case 69 => 0x19dfa7ac
    case 70 => 0x101655f9 case 71 => 0x0c3df2b4 case 72 => 0x78dd4d2b case 73 => 0x497093c0 case 74 => 0x3f2588c2
    case 75 => 0xc199f8c7 case 76 => 0x39859de7 case 77 => 0xedb42de4 case 78 => 0x11793f6f case 79 => 0x5ee76897
    case 80 => 0x63f7dab7 case 81 => 0xa079b7d9 case 82 => 0x860d21cc case 83 => 0x5738d5e1 case _ => 0x42541b35
  }

  /** The schedule. */
  function AbcWord(t: nat): Word {
    match t
    case 0 => 0x61626380 case 1 => 0x00000000 case 2 => 0x00000000 case 3 => 0x00000000 case 4 => 0x00000000
    case 5 => 0x00000000 case 6 => 0x00000000 case 7 => 0x00000000 case 8 => 0x00000000 case 9 => 0x00000000
    case 10 => 0x00000000 case 11 => 0x00000000 case 12 => 0x00000000 case 13 => 0x00000000 case 14 => 0x00000000
    case 15 => 0x00000018 case 16 => 0xc2c4c700 case 17 => 0x00000000 case 18 => 0x00000030 case 19 => 0x85898e01
    case 20 => 0x00000000 case 21 => 0x00000060 case 22 => 0x0b131c03 case 23 => 0x00000030 case 24 => 0x85898ec1
    case 25 => 0x16263806 case 26 => 0x00000000 case 27 => 0x00000180 case 28 => 0x2c4c700c case 29 => 0x000000f0
    case 30 => 0x93afb507 case 31 => 0x5898e048 case 32 => 0x8e9a9202 case 33 => 0x00000600 case 34 => 0xb131c0f0
    case 35 => 0x16263bc6 case 36 => 0x4ebed41e case 37 => 0x626380a1 case 38 => 0x16263806 case 39 => 0x000018c0
    case 40 => 0xd2e138c4 case 41 => 0x00000f00 case 42 => 0x3afb5079 case 43 => 0x898e04e5 case 44 => 0xe2ba3c2b
    case 45 => 0x000060c0 case 46 => 0x053a37cd case 47 => 0x74458547 case 48 => 0xda9415ed case 49 => 0x26380a16
    case 50 => 0x626383a1 case 51 => 0x4ebf54de case 52 => 0x3835b44b case 53 => 0x0000f600 case 54 => 0x1e84c7a3
    case 55 => 0x98e04d98 case 56 => 0x651d16a0 case 57 => 0x62658ca1 case 58 => 0x458544d6 case 59 => 0x44584cb7
    case 60 => 0x7ba06619 case 61 => 0x6380aea2 case 62 => 0x0ae55269 case 63 => 0x627b49a1 case 64 => 0x7cd45c9d
    case 65 => 0x000f0000 case 66 => 0xfb50753a case 67 => 0xec6765e8 case 68 => 0xba3c2be2 case 69 => 0x0060c000
    case 70 => 0x3a37cd05 case 71 => 0x458546f4 case 72 => 0xb8599dd6 case 73 => 0x380a1a26 case 74 => 0x01e02203
    case 75 => 0xe7cc3456 case 76 => 0xe6e60b69 case 77 => 0x00f60a00 case 78 => 0x5795ef4f case _ => 0x822e0879
  }

  /** The registers before round `t`. */
  function AbcTrace(t: nat): Hash {
    Hash(AbcFirst(t + 4), AbcFirst(t + 3), Rotl30(AbcFirst(t + 2)), Rotl30(AbcFirst(t + 1)),
         Rotl30(AbcFirst(t)))
  }

  lemma AbcRounds0(t: nat)
    requires 0 <= t < 10
    ensures Round(t, AbcTrace(t), AbcWord(t)) == AbcTrace(t + 1)
  {
    match t
    case 0 => case 1 => case 2 => case 3 => case 4 => case 5 => case 6 => case 7 => case 8 => case _ =>
  }

  lemma AbcRounds10(t: nat)
    requires 10 <= t < 20
    ensures Round(t, AbcTrace(t), AbcWord(t)) == AbcTrace(t + 1)
  {
    match t
    case 10 => case 11 => case 12 => case 13 => case 14 => case 15 => case 16 => case 17 => case 18 => case _ =>
  }

  lemma AbcRounds20(t: nat)
    requires 20 <= t < 30
    ensures Round(t, AbcTrace(t), AbcWord(t)) == AbcTrace(t + 1)
  {
    match t
    case 20 => case 21 => case 22 => case 23 => case 24 => case 25 => case 26 => case 27 => case 28 => case _ =>
  }

  lemma AbcRounds30(t: nat)
    requires 30 <= t < 40
    ensures Round(t, AbcTrace(t), AbcWord(t)) == AbcTrace(t + 1)
  {
    match t
    case 30 => case 31 => case 32 => case 33 => case 34 => case 35 => case 36 => case 37 => case 38 => case _ =>
  }

  lemma AbcRounds40(t: nat)
    requires 40 <= t < 50
    ensures Round(t, AbcTrace(t), AbcWord(t)) == AbcTrace(t + 1)
  {
    match t
    case 40 => case 41 => case 42 => case 43 => case 44 => case 45 => case 46 => case 47 => case 48 => case _ =>
  }

  lemma AbcRounds50(t: nat)
    requires 50 <= t < 60
    ensures Round(t, AbcTrace(t), AbcWord(t)) == AbcTrace(t + 1)
  {
    match t
    case 50 => case 51 => case 52 => case 53 => case 54 => case 55 => case 56 => case 57 => case 58 => case _ =>
  }

  lemma AbcRounds60(t: nat)
    requires 60 <= t < 70
    ensures Round(t, AbcTrace(t), AbcWord(t)) == AbcTrace(t + 1)
  {
    match t
    case 60 => case 61 => case 62 => case 63 => case 64 => case 65 => case 66 => case 67 => case 68 => case _ =>
  }

  lemma AbcRounds70(t: nat)
    requires 70 <= t < 80
    ensures Round(t, AbcTrace(t), AbcWord(t)) == AbcTrace(t + 1)
  {
    match t
    case 70 => case 71 => case 72 => case 73 => case 74 => case 75 => case 76 => case 77 => case 78 => case _ =>
  }

  lemma AbcRound(t: nat)
    requires t < 80
    ensures Round(t, AbcTrace(t), AbcWord(t)) == AbcTrace(t + 1)
  {
    hide Round, AbcTrace, AbcWord;
    match t / 10
    case 0 => AbcRounds0(t);
    case 1 => AbcRounds10(t);
    case 2 => AbcRounds20(t);
    case 3 => AbcRounds30(t);
    case 4 => AbcRounds40(t);
    case 5 => AbcRounds50(t);
    case 6 => AbcRounds60(t);
    case _ => AbcRounds70(t);
  }

  lemma AbcSchedule16(t: nat)
    requires 16 <= t < 32
    ensures AbcWord(t) == Rotl1(Xor4(AbcWord(t - 3), AbcWord(t - 8), AbcWord(t - 14), AbcWord(t - 16)))
  {
    match t
    case 16 => case 17 => case 18 => case 19 => case 20 => case 21 => case 22 => case 23 => case 24 => case 25 =>
    case 26 => case 27 => case 28 => case 29 => case 30 => case _ =>
  }

  lemma AbcSchedule32(t: nat)
    requires 32 <= t < 48
    ensures AbcWord(t) == Rotl1(Xor4(AbcWord(t - 3), AbcWord(t - 8), AbcWord(t - 14), AbcWord(t - 16)))
  {
    match t
    case 32 => case 33 => case 34 => case 35 => case 36 => case 37 => case 38 => case 39 => case 40 => case 41 =>
    case 42 => case 43 => case 44 => case 45 => case 46 => case _ =>
  }

  lemma AbcSchedule48(t: nat)
    requires 48 <= t < 64
    ensures AbcWord(t) == Rotl1(Xor4(AbcWord(t - 3), AbcWord(t - 8), AbcWord(t - 14), AbcWord(t - 16)))
  {
    match t
    case 48 => case 49 => case 50 => case 51 => case 52 => case 53 => case 54 => case 55 => case 56 => case 57 =>
    case 58 => case 59 => case 60 => case 61 => case 62 => case _ =>
  }

  lemma AbcSchedule64(t: nat)
    requires 64 <= t < 80
    ensures AbcWord(t) == Rotl1(Xor4(AbcWord(t - 3), AbcWord(t - 8), AbcWord(t - 14), AbcWord(t - 16)))
  {
    match t
    case 64 => case 65 => case 66 => case 67 => case 68 => case 69 => case 70 => case 71 => case 72 => case 73 =>
    case 74 => case 75 => case 76 => case 77 => case 78 => case _ =>
  }

  lemma AbcSchedule(t: nat)
    requires 16 <= t < 80
    ensures AbcWord(t) == Rotl1(Xor4(AbcWord(t - 3), AbcWord(t - 8), AbcWord(t - 14), AbcWord(t - 16)))
  {
    hide Rotl1, Xor4, AbcWord;
    if t < 32 {
      AbcSchedule16(t);
    } else if t < 48 {
      AbcSchedule32(t);
    } else if t < 64 {
      AbcSchedule48(t);
    } else {
      AbcSchedule64(t);
    }
  }

  lemma AbcStarts()
    ensures AbcTrace(0) == INITIAL
  {
  }

  lemma AbcTail(t: nat)
    requires t == 80
    ensures AbcFirst(t) == 0x63f7dab7
    ensures AbcFirst(t + 1) == 0xa079b7d9
    ensures AbcFirst(t + 2) == 0x860d21cc
    ensures AbcFirst(t + 3) == 0x5738d5e1
    ensures AbcFirst(t + 4) == 0x42541b35
  {
  }

  lemma AbcEnds()
    ensures AbcTrace(80) == Hash(0x42541b35, 0x5738d5e1, 0x21834873, 0x681e6df6, 0xd8fdf6ad)
  {
    hide AbcFirst;
    AbcTail(80);
  }

  lemma AbcSum()
    ensures Plus(INITIAL,
                 Hash(0x42541b35, 0x5738d5e1, 0x21834873, 0x681e6df6, 0xd8fdf6ad))
         == Hash(0xa9993e36, 0x4706816a, 0xba3e2571, 0x7850c26c, 0x9cd0d89d)
  {
  }

  // ----- the first block of the 56-byte message

  /** The first register, from four rounds before the first. */
  function FrontFirst(t: nat): Word {
    match t
    case 0 => 0x0f4b87c3 case 1 => 0x40c951d8 case 2 => 0x62eb73fa case 3 => 0xefcdab89 case 4 => 0x67452301
    case 5 => 0x0116fc17 case 6 => 0xebf3b452 case 7 => 0x5109913a case 8 => 0x2c4f6eac case 9 => 0x33f4ae5b
    case 10 => 0x96b85189 case 11 => 0xdb04cb58 case 12 => 0x45833f0f case 13 => 0xc565c35e case 14 => 0x6350afda
    case 15 => 0x8993ea77 case 16 => 0xe19ecaa2 case 17 => 0x8603481e case 18 => 0x32f94a85 case 19 => 0xb2e7a8be
    case 20 => 0x42637e39 case 21 => 0x6b068048 case 22 => 0x426b9c35 case 23 => 0x944b1bd1 case 24 => 0x6c445652
    case 25 => 0x95836da5 case 26 => 0x09511177 case 27 => 0xe2b92dc4 case 28 => 0xfd224575 case 29 => 0xeeb82d9a
    case 30 => 0x5a142c1a case 31 => 0x2972f7c7 case 32 => 0xd526a644 case 33 => 0xe1122421 case 34 => 0x05b457b2
    case 35 => 0xa9c84bec case 36 => 0x52e31f60 case 37 => 0x5af3242c case 38 => 0x31c756a9 case 39 => 0xe9ac987c
    case 40 => 0xab7c32ee case 41 => 0x5933fc99 case 42 => 0x43f87ae9 case 43 => 0x24957f22 case 44 => 0xadeb7478
    case 45 => 0xd70e5010 case 46 => 0x79bcfb08 case 47 => 0xf9bcb8de case 48 => 0x633e9561 case 49 => 0x98c1ea64
    case 50 => 0xc6ea241e case 51 => 0xa2ad4f02 case 52 => 0xc8a69090 case 53 => 0x88341600 case 54 => 0x7e846f58
    case 55 => 0x86e358ba case 56 => 0x8d2e76c8 case 57 => 0xce892e10 case 58 => 0xedea95b1 case 59 => 0x36d1230a
    case 60 => 0x776c3910 case 61 => 0xa681b723 case 62 => 0xac0a794f case 63 => 0xf03d3782 case 64 => 0x9ef775c3
    case 65 => 0x36254b13 case 66 => 0x4080d4dc case 67 => 0x2bfaf7a8 case 68 => 0x513f9ca0 case 69 => 0xe5895c81
    case 70 => 0x1037d2d5 case 71 => 0x14a82da9 case 72 => 0x6d17c9fd case 73 => 0x2c7b07bd case 74 => 0xfdf6efff
    case 75 => 0x112b96e3 case 76 => 0x84065712 case 77 => 0xab89fb71 case 78 => 0xc5210e35 case 79 => 0x352d9f4b
    case 80 => 0x1a0e0e0a case 81 => 0xd0d47349 case 82 => 0xad38620d case 83 => 0xd3ad7c25 case _ => 0x8ce34517
  }

  /** The schedule. */
  function FrontWord(t: nat): Word {
    match t
    case 0 => 0x61626364 case 1 => 0x62636465 case 2 => 0x63646566 case 3 => 0x64656667 case 4 => 0x65666768
    case 5 => 0x66676869 case 6 => 0x6768696a case 7 => 0x68696a6b case 8 => 0x696a6b6c case 9 => 0x6a6b6c6d
    case 10 => 0x6b6c6d6e case 11 => 0x6c6d6e6f case 12 => 0x6d6e6f70 case 13 => 0x6e6f7071 case 14 => 0x80000000
    case 15 => 0x00000000 case 16 => 0x0a063a3e case 17 => 0xd8dadcdf case 18 => 0xdadcdec0 case 19 => 0xc8d2b4be
    case 20 => 0x6f757b5b case 21 => 0x757b5967 case 22 => 0x8da16d70 case 23 => 0xdaeefaba case 24 => 0xfaf6cab6
    case 25 => 0xa6fb675a case 26 => 0x0c604cc8 case 27 => 0x604cc02c case 28 => 0x49c0e6e2 case 29 => 0x2ee8cbbc
    case 30 => 0xcfd72ec4 case 31 => 0x97e9810e case 32 => 0x0989cbe8 case 33 => 0xf24843fe case 34 => 0x5c40d0ba
    case 35 => 0xa8d9cc3b case 36 => 0xb2b9666e case 37 => 0xba7b71b7 case 38 => 0x20b28a72 case 39 => 0xb28af500
    case 40 => 0x8ac87842 case 41 => 0x289addf4 case 42 => 0x56d51f21 case 43 => 0xd96b7fd2 case 44 => 0x3868e778
    case 45 => 0xab5e4848 case 46 => 0x7f0e2118 case 47 => 0xde87a111 case 48 => 0xe8be56b0 case 49 => 0x1a0ae652
    case 50 => 0xcd5611c8 case 51 => 0x46ef29dc case 52 => 0x60d3da6d case 53 => 0xddf3ba6e case 54 => 0x2737f5e9
    case 55 => 0x4888a710 case 56 => 0xd2a1177b case 57 => 0x9999633b case 58 => 0xd6c69d03 case 59 => 0xccf6127b
    case 60 => 0x7c58fe6d case 61 => 0xfdd99c68 case 62 => 0xf8e32074 case 63 => 0xe0ba3c7d case 64 => 0x152198d6
    case 65 => 0x7b3f1982 case 66 => 0x37f2d5b7 case 67 => 0x8596323e case 68 => 0x810790d6 case 69 => 0xbea0a942
    case 70 => 0x11c7e1b1 case 71 => 0x6158d101 case 72 => 0x5fcd77d9 case 73 => 0x7f2f12e6 case 74 => 0xf868cfb1
    case 75 => 0xd6e997e9 case 76 => 0xf526b852 case 77 => 0xb7578dcc case 78 => 0x55d99df4 case _ => 0x1ff69958
  }

  /** The registers before round `t`. */
  function FrontTrace(t: nat): Hash {
    Hash(FrontFirst(t + 4), FrontFirst(t + 3), Rotl30(FrontFirst(t + 2)), Rotl30(FrontFirst(t + 1)),
         Rotl30(FrontFirst(t)))
  }

  lemma FrontRounds0(t: nat)
    requires 0 <= t < 10
    ensures Round(t, FrontTrace(t), FrontWord(t)) == FrontTrace(t + 1)
  {
    match t
    case 0 => case 1 => case 2 => case 3 => case 4 => case 5 => case 6 => case 7 => case 8 => case _ =>
  }

  lemma FrontRounds10(t: nat)
    requires 10 <= t < 20
    ensures Round(t, FrontTrace(t), FrontWord(t)) == FrontTrace(t + 1)
  {
    match t
    case 10 => case 11 => case 12 => case 13 => case 14 => case 15 => case 16 => case 17 => case 18 => case _ =>
  }

  lemma FrontRounds20(t: nat)
    requires 20 <= t < 30
    ensures Round(t, FrontTrace(t), FrontWord(t)) == FrontTrace(t + 1)
  {
    match t
    case 20 => case 21 => case 22 => case 23 => case 24 => case 25 => case 26 => case 27 => case 28 => case _ =>
  }

  lemma FrontRounds30(t: nat)
    requires 30 <= t < 40
    ensures Round(t, FrontTrace(t), FrontWord(t)) == FrontTrace(t + 1)
  {
    match t
    case 30 => case 31 => case 32 => case 33 => case 34 => case 35 => case 36 => case 37 => case 38 => case _ =>
  }

  lemma FrontRounds40(t: nat)
    requires 40 <= t < 50
    ensures Round(t, FrontTrace(t), FrontWord(t)) == FrontTrace(t + 1)
  {
    match t
    case 40 => case 41 => case 42 => case 43 => case 44 => case 45 => case 46 => case 47 => case 48 => case _ =>
  }

  lemma FrontRounds50(t: nat)
    requires 50 <= t < 60
    ensures Round(t, FrontTrace(t), FrontWord(t)) == FrontTrace(t + 1)
  {
    match t
    case 50 => case 51 => case 52 => case 53 => case 54 => case 55 => case 56 => case 57 => case 58 => case _ =>
  }

  lemma FrontRounds60(t: nat)
    requires 60 <= t < 70
    ensures Round(t, FrontTrace(t), FrontWord(t)) == FrontTrace(t + 1)
  {
    match t
    case 60 => case 61 => case 62 => case 63 => case 64 => case 65 => case 66 => case 67 => case 68 => case _ =>
  }

  lemma FrontRounds70(t: nat)
    requires 70 <= t < 80
    ensures Round(t, FrontTrace(t), FrontWord(t)) == FrontTrace(t + 1)
  {
    match t
    case 70 => case 71 => case 72 => case 73 => case 74 => case 75 => case 76 => case 77 => case 78 => case _ =>
  }

  lemma FrontRound(t: nat)
    requires t < 80
    ensures Round(t, FrontTrace(t), FrontWord(t)) == FrontTrace(t + 1)
  {
    hide Round, FrontTrace, FrontWord;
    match t / 10
    case 0 => FrontRounds0(t);
    case 1 => FrontRounds10(t);
    case 2 => FrontRounds20(t);
    case 3 => FrontRounds30(t);
    case 4 => FrontRounds40(t);
    case 5 => FrontRounds50(t);
    case 6 => FrontRounds60(t);
    case _ => FrontRounds70(t);
  }

  lemma FrontSchedule16(t: nat)
    requires 16 <= t < 32
    ensures FrontWord(t) == Rotl1(Xor4(FrontWord(t - 3), FrontWord(t - 8), FrontWord(t - 14), FrontWord(t - 16)))
  {
    match t
    case 16 => case 17 => case 18 => case 19 => case 20 => case 21 => case 22 => case 23 => case 24 => case 25 =>
    case 26 => case 27 => case 28 => case 29 => case 30 => case _ =>
  }

  lemma FrontSchedule32(t: nat)
    requires 32 <= t < 48
    ensures FrontWord(t) == Rotl1(Xor4(FrontWord(t - 3), FrontWord(t - 8), FrontWord(t - 14), FrontWord(t - 16)))
  {
    match t
    case 32 => case 33 => case 34 => case 35 => case 36 => case 37 => case 38 => case 39 => case 40 => case 41 =>
    case 42 => case 43 => case 44 => case 45 => case 46 => case _ =>
  }

  lemma FrontSchedule48(t: nat)
    requires 48 <= t < 64
    ensures FrontWord(t) == Rotl1(Xor4(FrontWord(t - 3), FrontWord(t - 8), FrontWord(t - 14), FrontWord(t - 16)))
  {
    match t
    case 48 => case 49 => case 50 => case 51 => case 52 => case 53 => case 54 => case 55 => case 56 => case 57 =>
    case 58 => case 59 => case 60 => case 61 => case 62 => case _ =>
  }

  lemma FrontSchedule64(t: nat)
    requires 64 <= t < 80
    ensures FrontWord(t) == Rotl1(Xor4(FrontWord(t - 3), FrontWord(t - 8), FrontWord(t - 14), FrontWord(t - 16)))
  {
    match t
    case 64 => case 65 => case 66 => case 67 => case 68 => case 69 => case 70 => case 71 => case 72 => case 73 =>
    case 74 => case 75 => case 76 => case 77 => case 78 => case _ =>
  }

  lemma FrontSchedule(t: nat)
    requires 16 <= t < 80
    ensures FrontWord(t) == Rotl1(Xor4(FrontWord(t - 3), FrontWord(t - 8), FrontWord(t - 14), FrontWord(t - 16)))
  {
    hide Rotl1, Xor4, FrontWord;
    if t < 32 {
      FrontSchedule16(t);
    } else if t < 48 {
      FrontSchedule32(t);
    } else if t < 64 {
      FrontSchedule48(t);
    } else {
      FrontSchedule64(t);
    }
  }

  lemma FrontStarts()
    ensures FrontTrace(0) == INITIAL
  {
  }

  lemma FrontTail(t: nat)
    requires t == 80
    ensures FrontFirst(t) == 0x1a0e0e0a
    ensures FrontFirst(t + 1) == 0xd0d47349
    ensures FrontFirst(t + 2) == 0xad38620d
    ensures FrontFirst(t + 3) == 0xd3ad7c25
    ensures FrontFirst(t + 4) == 0x8ce34517
  {
  }

  lemma FrontEnds()
    ensures FrontTrace(80) == Hash(0x8ce34517, 0xd3ad7c25, 0x6b4e1883, 0x74351cd2, 0x86838382)
  {
    hide FrontFirst;
    FrontTail(80);
  }

  lemma FrontSum()
    ensures Plus(INITIAL,
                 Hash(0x8ce34517, 0xd3ad7c25, 0x6b4e1883, 0x74351cd2, 0x86838382))
         == Hash(0xf4286818, 0xc37b27ae, 0x0408f581, 0x84677148, 0x4a566572)
  {
  }

  // ----- its second block

  /** The first register, from four rounds before the first. */
  function BackFirst(t: nat): Word {
    match t
    case 0 => 0x295995c9 case 1 => 0x119dc522 case 2 => 0x1023d604 case 3 => 0xc37b27ae case 4 => 0xf4286818
    case 5 => 0x2df257e9 case 6 => 0x4d3dc58f case 7 => 0xc352bb05 case 8 => 0xeef743c6 case 9 => 0x41e34277
    case 10 => 0x5443915c case 11 => 0xe7fa0377 case 12 => 0xc6946813 case 13 => 0xfdde1de1 case 14 => 0xb8538aca
    case 15 => 0x6ba94f63 case 16 => 0x43a2792f case 17 => 0xfecd7bbf case 18 => 0xa2604ca8 case 19 => 0x258b0baa
    case 20 => 0xd9772360 case 21 => 0x5507db6e case 22 => 0xa51b58bc case 23 => 0xc2eb709f case 24 => 0xd8992153
    case 25 => 0x37482f5f case 26 => 0xee8700bd case 27 => 0x9ad594b9 case 28 => 0x8fbaa5b9 case 29 => 0x88fb5867
    case 30 => 0xeec50521 case 31 => 0x50bce434 case 32 => 0x5c416daf case 33 => 0x2429be5f case 34 => 0x0a2fb108
    case 35 => 0x17986223 case 36 => 0x8a4af384 case 37 => 0x6b629993 case 38 => 0xf15f04f3 case 39 => 0x295cc25b
    case 40 => 0x696da404 case 41 => 0xcef5ae12 case 42 => 0x87d5b80c case 43 => 0x84e2a5f2 case 44 => 0x03bb6310
    case 45 => 0xc2d8f75f case 46 => 0xbfb25768 case 47 => 0x28589152 case 48 => 0xec1d3d61 case 49 => 0x3caed7af
    case 50 => 0xc3d033ea case 51 => 0x7316056a case 52 => 0x46f93b68 case 53 => 0xdc8e7f26 case 54 => 0x850d411c
    case 55 => 0x7e4672c0 case 56 => 0x89fbd41d case 57 => 0x1797e228 case 58 => 0x431d65bc case 59 => 0x2bdbb8cb
    case 60 => 0x6da72e7f case 61 => 0xa8495a9b case 62 => 0xe785655a case 63 => 0x5b086c42 case 64 => 0xa65818f7
    case 65 => 0x7aab101b case 66 => 0x93614c9c case 67 => 0xf66d9bf4 case 68 => 0xd504902b case 69 => 0x60a9da62
    case 70 => 0x8b687819 case 71 => 0x083e90c3 case 72 => 0xf6226bbf case 73 => 0x76c0563b case 74 => 0x989dd165
    case 75 => 0x8b2c7573 case 76 => 0xae1b8e7b case 77 => 0xca1840de case 78 => 0x16f3babb case 79 => 0xd28d83ad
    case 80 => 0x6bc02dfe case 81 => 0xd3a6e275 case 82 => 0xda955482 case 83 => 0x58c0aac0 case _ => 0x906fd62c
  }

  /** The schedule. */
  function BackWord(t: nat): Word {
    match t
    case 0 => 0x00000000 case 1 => 0x00000000 case 2 => 0x00000000 case 3 => 0x00000000 case 4 => 0x00000000
    case 5 => 0x00000000 case 6 => 0x00000000 case 7 => 0x00000000 case 8 => 0x00000000 case 9 => 0x00000000
    case 10 => 0x00000000 case 11 => 0x00000000 case 12 => 0x00000000 case 13 => 0x00000000 case 14 => 0x00000000
    case 15 => 0x000001c0 case 16 => 0x00000000 case 17 => 0x00000000 case 18 => 0x00000380 case 19 => 0x00000000
    case 20 => 0x00000000 case 21 => 0x00000700 case 22 => 0x00000000 case 23 => 0x00000380 case 24 => 0x00000e00
    case 25 => 0x00000000 case 26 => 0x00000000 case 27 => 0x00001c00 case 28 => 0x00000000 case 29 => 0x00000d80
    case 30 => 0x00003800 case 31 => 0x00000480 case 32 => 0x00000000 case 33 => 0x00007000 case 34 => 0x00000e00
    case 35 => 0x00003600 case 36 => 0x0000e000 case 37 => 0x00000e00 case 38 => 0x00000000 case 39 => 0x0001ce00
    case 40 => 0x00000000 case 41 => 0x0000d800 case 42 => 0x00038000 case 43 => 0x00004f00 case 44 => 0x00000000
    case 45 => 0x00070e00 case 46 => 0x0000ee00 case 47 => 0x00037500 case 48 => 0x000e0000 case 49 => 0x0000e000
    case 50 => 0x00003600 case 51 => 0x001cee00 case 52 => 0x00000000 case 53 => 0x000df000 case 54 => 0x00380000
    case 55 => 0x0004c600 case 56 => 0x0000e000 case 57 => 0x0070ee00 case 58 => 0x000ee000 case 59 => 0x00369e00
    case 60 => 0x00e00000 case 61 => 0x000ed600 case 62 => 0x0000e000 case 63 => 0x01cea600 case 64 => 0x00000000
    case 65 => 0x00d80000 case 66 => 0x0380e000 case 67 => 0x004f0000 case 68 => 0x00000000 case 69 => 0x070e0000
    case 70 => 0x00ee0000 case 71 => 0x03751c00 case 72 => 0x0e000000 case 73 => 0x00e0e000 case 74 => 0x00363800
    case 75 => 0x1cee9000 case 76 => 0x00000000 case 77 => 0x0df09000 case 78 => 0x3800e000 case _ => 0x04c77400
  }

  /** The registers before round `t`. */
  function BackTrace(t: nat): Hash {
    Hash(BackFirst(t + 4), BackFirst(t + 3), Rotl30(BackFirst(t + 2)), Rotl30(BackFirst(t + 1)),
         Rotl30(BackFirst(t)))
  }

  lemma BackRounds0(t: nat)
    requires 0 <= t < 10
    ensures Round(t, BackTrace(t), BackWord(t)) == BackTrace(t + 1)
  {
    match t
    case 0 => case 1 => case 2 => case 3 => case 4 => case 5 => case 6 => case 7 => case 8 => case _ =>
  }

  lemma BackRounds10(t: nat)
    requires 10 <= t < 20
    ensures Round(t, BackTrace(t), BackWord(t)) == BackTrace(t + 1)
  {
    match t
    case 10 => case 11 => case 12 => case 13 => case 14 => case 15 => case 16 => case 17 => case 18 => case _ =>
  }

  lemma BackRounds20(t: nat)
    requires 20 <= t < 30
    ensures Round(t, BackTrace(t), BackWord(t)) == BackTrace(t + 1)
  {
    match t
    case 20 => case 21 => case 22 => case 23 => case 24 => case 25 => case 26 => case 27 => case 28 => case _ =>
  }

  lemma BackRounds30(t: nat)
    requires 30 <= t < 40
    ensures Round(t, BackTrace(t), BackWord(t)) == BackTrace(t + 1)
  {
    match t
    case 30 => case 31 => case 32 => case 33 => case 34 => case 35 => case 36 => case 37 => case 38 => case _ =>
  }

  lemma BackRounds40(t: nat)
    requires 40 <= t < 50
    ensures Round(t, BackTrace(t), BackWord(t)) == BackTrace(t + 1)
  {
    match t
    case 40 => case 41 => case 42 => case 43 => case 44 => case 45 => case 46 => case 47 => case 48 => case _ =>
  }

  lemma BackRounds50(t: nat)
    requires 50 <= t < 60
    ensures Round(t, BackTrace(t), BackWord(t)) == BackTrace(t + 1)
  {
    match t
    case 50 => case 51 => case 52 => case 53 => case 54 => case 55 => case 56 => case 57 => case 58 => case _ =>
  }

  lemma BackRounds60(t: nat)
    requires 60 <= t < 70
    ensures Round(t, BackTrace(t), BackWord(t)) == BackTrace(t + 1)
  {
    match t
    case 60 => case 61 => case 62 => case 63 => case 64 => case 65 => case 66 => case 67 => case 68 => case _ =>
  }

  lemma BackRounds70(t: nat)
    requires 70 <= t < 80
    ensures Round(t, BackTrace(t), BackWord(t)) == BackTrace(t + 1)
  {
    match t
    case 70 => case 71 => case 72 => case 73 => case 74 => case 75 => case 76 => case 77 => case 78 => case _ =>
  }

  lemma BackRound(t: nat)
    requires t < 80
    ensures Round(t, BackTrace(t), BackWord(t)) == BackTrace(t + 1)
  {
    hide Round, BackTrace, BackWord;
    match t / 10
    case 0 => BackRounds0(t);
    case 1 => BackRounds10(t);
    case 2 => BackRounds20(t);
    case 3 => BackRounds30(t);
    case 4 => BackRounds40(t);
    case 5 => BackRounds50(t);
    case 6 => BackRounds60(t);
    case _ => BackRounds70(t);
  }

  lemma BackSchedule16(t: nat)
    requires 16 <= t < 32
    ensures BackWord(t) == Rotl1(Xor4(BackWord(t - 3), BackWord(t - 8), BackWord(t - 14), BackWord(t - 16)))
  {
    match t
    case 16 => case 17 => case 18 => case 19 => case 20 => case 21 => case 22 => case 23 => case 24 => case 25 =>
    case 26 => case 27 => case 28 => case 29 => case 30 => case _ =>
  }

  lemma BackSchedule32(t: nat)
    requires 32 <= t < 48
    ensures BackWord(t) == Rotl1(Xor4(BackWord(t - 3), BackWord(t - 8), BackWord(t - 14), BackWord(t - 16)))
  {
    match t
    case 32 => case 33 => case 34 => case 35 => case 36 => case 37 => case 38 => case 39 => case 40 => case 41 =>
    case 42 => case 43 => case 44 => case 45 => case 46 => case _ =>
  }

  lemma BackSchedule48(t: nat)
    requires 48 <= t < 64
    ensures BackWord(t) == Rotl1(Xor4(BackWord(t - 3), BackWord(t - 8), BackWord(t - 14), BackWord(t - 16)))
  {
    match t
    case 48 => case 49 => case 50 => case 51 => case 52 => case 53 => case 54 => case 55 => case 56 => case 57 =>
    case 58 => case 59 => case 60 => case 61 => case 62 => case _ =>
  }

  lemma BackSchedule64(t: nat)
    requires 64 <= t < 80
    ensures BackWord(t) == Rotl1(Xor4(BackWord(t - 3), BackWord(t - 8), BackWord(t - 14), BackWord(t - 16)))
  {
    match t
    case 64 => case 65 => case 66 => case 67 => case 68 => case 69 => case 70 => case 71 => case 72 => case 73 =>
    case 74 => case 75 => case 76 => case 77 => case 78 => case _ =>
  }

  lemma BackSchedule(t: nat)
    requires 16 <= t < 80
    ensures BackWord(t) == Rotl1(Xor4(BackWord(t - 3), BackWord(t - 8), BackWord(t - 14), BackWord(t - 16)))
  {
    hide Rotl1, Xor4, BackWord;
    if t < 32 {
      BackSchedule16(t);
    } else if t < 48 {
      BackSchedule32(t);
    } else if t < 64 {
      BackSchedule48(t);
    } else {
      BackSchedule64(t);
    }
  }

  lemma BackStarts()
    ensures BackTrace(0) == Hash(0xf4286818, 0xc37b27ae, 0x0408f581, 0x84677148, 0x4a566572)
  {
  }

  lemma BackTail(t: nat)
    requires t == 80
    ensures BackFirst(t) == 0x6bc02dfe
    ensures BackFirst(t + 1) == 0xd3a6e275
    ensures BackFirst(t + 2) == 0xda955482
    ensures BackFirst(t + 3) == 0x58c0aac0
    ensures BackFirst(t + 4) == 0x906fd62c
  {
  }

  lemma BackEnds()
    ensures BackTrace(80) == Hash(0x906fd62c, 0x58c0aac0, 0xb6a55520, 0x74e9b89d, 0x9af00b7f)
  {
    hide BackFirst;
    BackTail(80);
  }

  lemma BackSum()
    ensures Plus(Hash(0xf4286818, 0xc37b27ae, 0x0408f581, 0x84677148, 0x4a566572),
                 Hash(0x906fd62c, 0x58c0aac0, 0xb6a55520, 0x74e9b89d, 0x9af00b7f))
         == Hash(0x84983e44, 0x1c3bd26e, 0xbaae4aa1, 0xf95129e5, 0xe54670f1)
  {
  }

  // ----- from the tables to the blocks

  datatype Block = Abc | Front | Back

  function TableWord(b: Block, t: nat): Word {
    match b case Abc => AbcWord(t) case Front => FrontWord(t) case Back => BackWord(t)
  }

  function TableTrace(b: Block, t: nat): Hash {
    match b case Abc => AbcTrace(t) case Front => FrontTrace(t) case Back => BackTrace(t)
  }

  /** The first sixteen words of the schedule are those of the block. */
  ghost predicate Loads(b: Block, data: seq<Byte>)
    requires |data| == 64
  {
    forall t: nat :: t < 16 ==> TableWord(b, t) == GetBe(data, 4 * t)
  }

  lemma ScheduleStep(b: Block, t: nat)
    requires 16 <= t < 80
    ensures TableWord(b, t)
         == Rotl1(Xor4(TableWord(b, t - 3), TableWord(b, t - 8), TableWord(b, t - 14), TableWord(b, t - 16)))
  {
    hide Rotl1, Xor4, AbcWord, FrontWord, BackWord;
    match b
    case Abc => AbcSchedule(t);
    case Front => FrontSchedule(t);
    case Back => BackSchedule(t);
  }

  lemma EarlyWord(data: seq<Byte>, t: nat)
    requires |data| == 64 && t < 16
    ensures W(data, t) == GetBe(data, 4 * t)
  {
    hide GetBe;
  }

  lemma {:induction false} ScheduleIs(b: Block, data: seq<Byte>, t: nat)
    requires |data| == 64 && Loads(b, data) && t < 80
    ensures W(data, t) == TableWord(b, t)
    decreases t
  {
    hide GetBe, Rotl1, Xor4, W, TableWord;
    if t < 16 {
      assert W(data, t) == GetBe(data, 4 * t) by { EarlyWord(data, t); }
    } else {
      WStep(data, t);
      ScheduleStep(b, t);
      ScheduleIs(b, data, t - 3);
      ScheduleIs(b, data, t - 8);
      ScheduleIs(b, data, t - 14);
      ScheduleIs(b, data, t - 16);
    }
  }

  lemma RoundStep(b: Block, t: nat)
    requires t < 80
    ensures Round(t, TableTrace(b, t), TableWord(b, t)) == TableTrace(b, t + 1)
  {
    hide Round, AbcWord, FrontWord, BackWord, AbcTrace, FrontTrace, BackTrace;
    match b
    case Abc => AbcRound(t);
    case Front => FrontRound(t);
    case Back => BackRound(t);
  }

  lemma {:induction false} RoundsAre(b: Block, data: seq<Byte>, t: nat)
    requires |data| == 64 && Loads(b, data) && t <= 80
    ensures Rounds(TableTrace(b, 0), data, t) == TableTrace(b, t)
    decreases t
  {
    hide Loads, Round, W, TableTrace, TableWord;
    if t > 0 {
      RoundsAre(b, data, t - 1);
      ScheduleIs(b, data, t - 1);
      RoundStep(b, t - 1);
    }
  }

  lemma AbcCompress(data: seq<Byte>)
    requires |data| == 64 && Loads(Abc, data)
    ensures Compress(INITIAL, data) == Hash(0xa9993e36, 0x4706816a, 0xba3e2571, 0x7850c26c, 0x9cd0d89d)
  {
    hide Rounds, Plus, AbcTrace, Loads;
    RoundsAre(Abc, data, 80);
    AbcStarts();
    AbcEnds();
    AbcSum();
  }

  lemma FrontCompress(data: seq<Byte>)
    requires |data| == 64 && Loads(Front, data)
    ensures Compress(INITIAL, data) == Hash(0xf4286818, 0xc37b27ae, 0x0408f581, 0x84677148, 0x4a566572)
  {
    hide Rounds, Plus, FrontTrace, Loads;
    RoundsAre(Front, data, 80);
    FrontStarts();
    FrontEnds();
    FrontSum();
  }

  lemma BackCompress(data: seq<Byte>)
    requires |data| == 64 && Loads(Back, data)
    ensures Compress(Hash(0xf4286818, 0xc37b27ae, 0x0408f581, 0x84677148, 0x4a566572), data)
         == Hash(0x84983e44, 0x1c3bd26e, 0xbaae4aa1, 0xf95129e5, 0xe54670f1)
  {
    hide Rounds, Plus, BackTrace, Loads;
    RoundsAre(Back, data, 80);
    BackStarts();
    BackEnds();
    BackSum();
  }

  // ----- the digests

  /** A text as its bytes. */
  function Ascii(s: string): (bs: seq<Byte>)
    ensures |bs| == |s|
  {
    seq(|s|, i requires 0 <= i < |s| => s[i] as nat % 0x100)
  }

  lemma ZeroWord(data: seq<Byte>, i: nat)
    requires i + 4 <= |data| && data[i..i + 4] == [0, 0, 0, 0]
    ensures GetBe(data, i) == 0
  {
    assert data[i..i + 4][0] == data[i] && data[i..i + 4][1] == data[i + 1];
    assert data[i..i + 4][2] == data[i + 2] && data[i..i + 4][3] == data[i + 3];
  }

  lemma AbcLength()
    ensures BigEndian(24, 8) == [0, 0, 0, 0, 0, 0, 0, 24]
  {
  }

  lemma LongLength()
    ensures BigEndian(448, 8) == [0, 0, 0, 0, 0, 0, 1, 192]
  {
  }

  lemma AbcPadded()
    ensures Padded(Ascii("abc")) == [0x61, 0x62, 0x63, 0x80] + seq(59, _ => 0) + [24]
  {
    AbcLength();
  }

  lemma FirstWord(data: seq<Byte>)
    requires |data| >= 4 && data[0] == 0x61 && data[1] == 0x62 && data[2] == 0x63 && data[3] == 0x80
    ensures GetBe(data, 0) == 0x61626380
  {
  }

  lemma LastWord(data: seq<Byte>)
    requires |data| == 64 && data[60] == 0 && data[61] == 0 && data[62] == 0 && data[63] == 24
    ensures GetBe(data, 60) == 24
  {
  }

  lemma AbcLoads(data: seq<Byte>, t: nat)
    requires data == [0x61, 0x62, 0x63, 0x80] + seq(59, _ => 0) + [24] && t < 16
    ensures AbcWord(t) == GetBe(data, 4 * t)
  {
    if t == 0 {
      FirstWord(data);
    } else if t < 15 {
      hide GetBe;
      assert data[4 * t..4 * t + 4] == [0, 0, 0, 0];
      ZeroWord(data, 4 * t);
    } else {
      LastWord(data);
    }
  }

  lemma HashBytes(h: Hash)
    ensures Digest(h) == PutBe(h.a) + PutBe(h.b) + PutBe(h.c) + PutBe(h.d) + PutBe(h.e)
  {
    hide PutBe;
  }

  lemma OneBlock(h: Hash, s: seq<Byte>)
    requires |s| == 64
    ensures Blocks(h, s) == Compress(h, s)
  {
    hide Compress;
    assert s[..64] == s && s[64..] == [];
    assert Blocks(Compress(h, s), []) == Compress(h, s);
  }

  lemma AbcBytes()
    ensures Digest(Hash(0xa9993e36, 0x4706816a, 0xba3e2571, 0x7850c26c, 0x9cd0d89d))
         == [0xa9, 0x99, 0x3e, 0x36, 0x47, 0x06, 0x81, 0x6a, 0xba, 0x3e, 0x25, 0x71, 0x78, 0x50, 0xc2, 0x6c, 0x9c, 0xd0,
             0xd8, 0x9d]
  {
    assert PutBe(0xa9993e36) == [0xa9, 0x99, 0x3e, 0x36];
  }

  /** SHA-1 of "abc". */
  lemma AbcDigest()
    ensures Sha1(Ascii("abc"))
         == [0xa9, 0x99, 0x3e, 0x36, 0x47, 0x06, 0x81, 0x6a, 0xba, 0x3e, 0x25, 0x71, 0x78, 0x50, 0xc2, 0x6c, 0x9c, 0xd0,
             0xd8, 0x9d]
  {
    hide Blocks, Compress, GetBe, AbcWord, Padded, Digest, Ascii;
    AbcPadded();
    var p := Padded(Ascii("abc"));
    forall t: nat | t < 16
      ensures AbcWord(t) == GetBe(p, 4 * t)
    {
      AbcLoads(p, t);
    }
    AbcCompress(p);
    OneBlock(INITIAL, p);
    AbcBytes();
  }

  /** Two groups of four letters. */
  function Part(i: nat): (s: string)
    ensures |s| == 8
  {
    match i
    case 0 => "abcdbcde" case 1 => "cdefdefg" case 2 => "efghfghi" case 3 => "ghijhijk"
    case 4 => "ijkljklm" case 5 => "klmnlmno" case _ => "mnopnopq"
  }

  /** The first `n` parts of the longer message, which has seven. */
  function Parts(n: nat): (s: string)
    ensures |s| == 8 * n
  {
    if n == 0 then "" else Parts(n - 1) + Part(n - 1)
  }

  const LONG := Parts(7)

  /** Four letters at a time, starting one letter later every time. */
  ghost predicate Letters(s: string, from: nat) {
    forall k :: 0 <= k < |s| ==> s[k] as nat == from + k / 4 + k % 4
  }

  lemma EarlyLetters(i: nat)
    requires i < 2
    ensures Letters(Part(i), 0x61 + 2 * i)
  {
    match i
    case 0 =>
    case _ =>
  }

  lemma MiddleLetters(i: nat)
    requires 2 <= i < 5
    ensures Letters(Part(i), 0x61 + 2 * i)
  {
    match i
    case 2 =>
    case 3 =>
    case _ =>
  }

  lemma LateLetters(i: nat)
    requires 5 <= i < 7
    ensures Letters(Part(i), 0x61 + 2 * i)
  {
    match i
    case 5 =>
    case _ =>
  }

  lemma PartLetters(i: nat)
    requires i < 7
    ensures Letters(Part(i), 0x61 + 2 * i)
  {
    hide Letters, Part;
    if i < 2 {
      EarlyLetters(i);
    } else if i < 5 {
      MiddleLetters(i);
    } else {
      LateLetters(i);
    }
  }

  lemma LettersAppend(s: string, t: string, from: nat)
    requires |s| % 4 == 0 && Letters(s, from) && Letters(t, from + |s| / 4)
    ensures Letters(s + t, from)
  {
  }

  lemma NoLetters()
    ensures Letters("", 0x61)
  {
  }

  lemma {:induction false} PartsLetters(n: nat)
    requires n <= 7
    ensures Letters(Parts(n), 0x61)
  {
    hide Part, Letters;
    if n > 0 {
      PartsLetters(n - 1);
      PartLetters(n - 1);
      LettersAppend(Parts(n - 1), Part(n - 1), 0x61);
    } else {
      NoLetters();
    }
  }

  lemma LongLetters()
    ensures |LONG| == 56 && Letters(LONG, 0x61)
  {
    hide Parts, Letters;
    PartsLetters(7);
  }

  lemma LongPadded()
    ensures var p := Padded(Ascii(LONG));
            && |p| == 128 && (forall k :: 0 <= k < 56 ==> p[k] == 0x61 + k / 4 + k % 4)
            && p[56] == 0x80 && (forall k :: 57 <= k < 126 ==> p[k] == 0) && p[126] == 1 && p[127] == 0xc0
  {
    hide LONG, BigEndian;
    LongLetters();
    LongLength();
  }

  /** Four bytes, high end first. */
  function Join4(a: Word, b: Word, c: Word, d: Word): Word {
    (a << 24) | (b << 16) | (c << 8) | d
  }

  lemma BytesMake(data: seq<Byte>, i: nat)
    requires i + 4 <= |data|
    ensures GetBe(data, i)
         == Join4(WordOf(data[i]), WordOf(data[i + 1]), WordOf(data[i + 2]), WordOf(data[i + 3]))
  {
  }

  /** The letters, from a on. */
  function Letter(k: nat): Word {
    match k
    case 0 => 0x61 case 1 => 0x62 case 2 => 0x63 case 3 => 0x64 case 4 => 0x65 case 5 => 0x66
    case 6 => 0x67 case 7 => 0x68 case 8 => 0x69 case 9 => 0x6a case 10 => 0x6b case 11 => 0x6c
    case 12 => 0x6d case 13 => 0x6e case 14 => 0x6f case 15 => 0x70 case _ => 0x71
  }

  lemma LetterIs(k: nat)
    requires k < 9
    ensures WordOf(0x61 + k) == Letter(k)
  {
    match k
    case 0 => case 1 => case 2 => case 3 => case 4 => case 5 => case 6 => case 7 => case _ =>
  }

  lemma LaterLetterIs(k: nat)
    requires 9 <= k < 13
    ensures WordOf(0x61 + k) == Letter(k)
  {
    match k
    case 9 => case 10 => case 11 => case _ =>
  }

  lemma LastLetterIs(k: nat)
    requires 13 <= k < 17
    ensures WordOf(0x61 + k) == Letter(k)
  {
    match k
    case 13 => case 14 => case 15 => case _ =>
  }

  lemma LetterOf(k: nat, b: Byte)
    requires k < 17 && b == 0x61 + k
    ensures WordOf(b) == Letter(k)
  {
    hide WordOf, Letter;
    if k < 9 {
      LetterIs(k);
    } else if k < 13 {
      LaterLetterIs(k);
    } else {
      LastLetterIs(k);
    }
  }

  lemma FrontLetters(t: nat)
    requires t < 14
    ensures FrontWord(t) == Join4(Letter(t), Letter(t + 1), Letter(t + 2), Letter(t + 3))
  {
    match t
    case 0 => case 1 => case 2 => case 3 => case 4 => case 5 => case 6 => case 7 => case 8 => case 9 =>
    case 10 => case 11 => case 12 => case _ =>
  }

  lemma FrontEnd(data: seq<Byte>)
    requires |data| == 64 && data[56] == 0x80 && forall k :: 57 <= k < 64 ==> data[k] == 0
    ensures FrontWord(14) == GetBe(data, 56) && FrontWord(15) == GetBe(data, 60)
  {
  }

  lemma FrontLoads(data: seq<Byte>, t: nat)
    requires |data| == 64 && data[56] == 0x80 && (forall k :: 57 <= k < 64 ==> data[k] == 0) && t < 16
    requires forall k :: 0 <= k < 56 ==> data[k] == 0x61 + k / 4 + k % 4
    ensures FrontWord(t) == GetBe(data, 4 * t)
  {
    hide GetBe, Join4, FrontWord, WordOf, Letter;
    if t < 14 {
      BytesMake(data, 4 * t);
      FrontLetters(t);
      LetterOf(t, data[4 * t]);
      LetterOf(t + 1, data[4 * t + 1]);
      LetterOf(t + 2, data[4 * t + 2]);
      LetterOf(t + 3, data[4 * t + 3]);
    } else {
      FrontEnd(data);
    }
  }

  lemma BackLoads(data: seq<Byte>, t: nat)
    requires |data| == 64 && (forall k :: 0 <= k < 62 ==> data[k] == 0) && data[62] == 1 && data[63] == 0xc0 && t < 16
    ensures BackWord(t) == GetBe(data, 4 * t)
  {
    if t < 15 {
      hide GetBe;
      assert data[4 * t..4 * t + 4] == [0, 0, 0, 0];
      ZeroWord(data, 4 * t);
    }
  }

  lemma TwoBlocks(h: Hash, s: seq<Byte>)
    requires |s| == 128
    ensures Blocks(h, s) == Compress(Compress(h, s[..64]), s[64..])
  {
    hide Compress;
    OneBlock(Compress(h, s[..64]), s[64..]);
  }

  lemma LongBytes()
    ensures Digest(Hash(0x84983e44, 0x1c3bd26e, 0xbaae4aa1, 0xf95129e5, 0xe54670f1))
         == [0x84, 0x98, 0x3e, 0x44, 0x1c, 0x3b, 0xd2, 0x6e, 0xba, 0xae, 0x4a, 0xa1, 0xf9, 0x51, 0x29, 0xe5, 0xe5, 0x46,
             0x70, 0xf1]
  {
  }

  /** SHA-1 of "abcdbcdecdefdefgefghfghighijhijkijkljklmklmnlmnomnopnopq". */
  lemma LongDigest()
    ensures Sha1(Ascii(LONG))
         == [0x84, 0x98, 0x3e, 0x44, 0x1c, 0x3b, 0xd2, 0x6e, 0xba, 0xae, 0x4a, 0xa1, 0xf9, 0x51, 0x29, 0xe5, 0xe5, 0x46,
             0x70, 0xf1]
  {
    hide Blocks, Compress, GetBe, FrontWord, BackWord, Padded, Digest, Ascii, LONG;
    LongPadded();
    var p := Padded(Ascii(LONG));
    forall t: nat | t < 16
      ensures FrontWord(t) == GetBe(p[..64], 4 * t) && BackWord(t) == GetBe(p[64..], 4 * t)
    {
      FrontLoads(p[..64], t);
      BackLoads(p[64..], t);
    }
    FrontCompress(p[..64]);
    BackCompress(p[64..]);
    TwoBlocks(INITIAL, p);
    LongBytes();
  }
}
