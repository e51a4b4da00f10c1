/** The error detection code of a CD sector (section 14.3 of ECMA-130): table
    lookups that stand for polynomial division bit by bit. */
module CdEdc {
  import opened XorNat
  import opened Words32

  /** One step of the division: the register shifts right, and a one shifted
      out subtracts the polynomial 0x8001801b, bits reversed. */
  function Step(c: bv32): bv32 {
    (c >> 1) ^ (if c & 1 == 1 then 0xd801_8001 else 0)
  }

  function Step8(c: bv32): bv32 {
    Step(Step(Step(Step(Step(Step(Step(Step(c))))))))
  }

  // ----- EDC_crctable

  function Row0(i: bv32): bv32 {
    match i
    case 0x00 => 0x00000000
    case 0x01 => 0x90910101
    case 0x02 => 0x91210201
    case 0x03 => 0x01b00300
    case 0x04 => 0x92410401
    case 0x05 => 0x02d00500
    case 0x06 => 0x03600600
    case 0x07 => 0x93f10701
    case 0x08 => 0x94810801
    case 0x09 => 0x04100900
    case 0x0a => 0x05a00a00
    case 0x0b => 0x95310b01
    case 0x0c => 0x06c00c00
    case 0x0d => 0x96510d01
    case 0x0e => 0x97e10e01
    case _ => 0x07700f00
  }

  function Row1(i: bv32): bv32 {
    match i
    case 0x10 => 0x99011001
    case 0x11 => 0x09901100
    case 0x12 => 0x08201200
    case 0x13 => 0x98b11301
    case 0x14 => 0x0b401400
    case 0x15 => 0x9bd11501
    case 0x16 => 0x9a611601
    case 0x17 => 0x0af01700
    case 0x18 => 0x0d801800
    case 0x19 => 0x9d111901
    case 0x1a => 0x9ca11a01
    case 0x1b => 0x0c301b00
    case 0x1c => 0x9fc11c01
    case 0x1d => 0x0f501d00
    case 0x1e => 0x0ee01e00
    case _ => 0x9e711f01
  }

  function Row2(i: bv32): bv32 {
    match i
    case 0x20 => 0x82012001
    case 0x21 => 0x12902100
    case 0x22 => 0x13202200
    case 0x23 => 0x83b12301
    case 0x24 => 0x10402400
    case 0x25 => 0x80d12501
    case 0x26 => 0x81612601
    case 0x27 => 0x11f02700
    case 0x28 => 0x16802800
    case 0x29 => 0x86112901
    case 0x2a => 0x87a12a01
    case 0x2b => 0x17302b00
    case 0x2c => 0x84c12c01
    case 0x2d => 0x14502d00
    case 0x2e => 0x15e02e00
    case _ => 0x85712f01
  }

  function Row3(i: bv32): bv32 {
    match i
    case 0x30 => 0x1b003000
    case 0x31 => 0x8b913101
    case 0x32 => 0x8a213201
    case 0x33 => 0x1ab03300
    case 0x34 => 0x89413401
    case 0x35 => 0x19d03500
    case 0x36 => 0x18603600
    case 0x37 => 0x88f13701
    case 0x38 => 0x8f813801
    case 0x39 => 0x1f103900
    case 0x3a => 0x1ea03a00
    case 0x3b => 0x8e313b01
    case 0x3c => 0x1dc03c00
    case 0x3d => 0x8d513d01
    case 0x3e => 0x8ce13e01
    case _ => 0x1c703f00
  }

  function Row4(i: bv32): bv32 {
    match i
    case 0x40 => 0xb4014001
    case 0x41 => 0x24904100
    case 0x42 => 0x25204200
    case 0x43 => 0xb5b14301
    case 0x44 => 0x26404400
    case 0x45 => 0xb6d14501
    case 0x46 => 0xb7614601
    case 0x47 => 0x27f04700
    case 0x48 => 0x20804800
    case 0x49 => 0xb0114901
    case 0x4a => 0xb1a14a01
    case 0x4b => 0x21304b00
    case 0x4c => 0xb2c14c01
    case 0x4d => 0x22504d00
    case 0x4e => 0x23e04e00
    case _ => 0xb3714f01
  }

  function Row5(i: bv32): bv32 {
    match i
    case 0x50 => 0x2d005000
    case 0x51 => 0xbd915101
    case 0x52 => 0xbc215201
    case 0x53 => 0x2cb05300
    case 0x54 => 0xbf415401
    case 0x55 => 0x2fd05500
    case 0x56 => 0x2e605600
    case 0x57 => 0xbef15701
    case 0x58 => 0xb9815801
    case 0x59 => 0x29105900
    case 0x5a => 0x28a05a00
    case 0x5b => 0xb8315b01
    case 0x5c => 0x2bc05c00
    case 0x5d => 0xbb515d01
    case 0x5e => 0xbae15e01
    case _ => 0x2a705f00
  }

  function Row6(i: bv32): bv32 {
    match i
    case 0x60 => 0x36006000
    case 0x61 => 0xa6916101
    case 0x62 => 0xa7216201
    case 0x63 => 0x37b06300
    case 0x64 => 0xa4416401
    case 0x65 => 0x34d06500
    case 0x66 => 0x35606600
    case 0x67 => 0xa5f16701
    case 0x68 => 0xa2816801
    case 0x69 => 0x32106900
    case 0x6a => 0x33a06a00
    case 0x6b => 0xa3316b01
    case 0x6c => 0x30c06c00
    case 0x6d => 0xa0516d01
    case 0x6e => 0xa1e16e01
    case _ => 0x31706f00
  }

  function Row7(i: bv32): bv32 {
    match i
    case 0x70 => 0xaf017001
    case 0x71 => 0x3f907100
    case 0x72 => 0x3e207200
    case 0x73 => 0xaeb17301
    case 0x74 => 0x3d407400
    case 0x75 => 0xadd17501
    case 0x76 => 0xac617601
    case 0x77 => 0x3cf07700
    case 0x78 => 0x3b807800
    case 0x79 => 0xab117901
    case 0x7a => 0xaaa17a01
    case 0x7b => 0x3a307b00
    case 0x7c => 0xa9c17c01
    case 0x7d => 0x39507d00
    case 0x7e => 0x38e07e00
    case _ => 0xa8717f01
  }

  function Row8(i: bv32): bv32 {
    match i
    case 0x80 => 0xd8018001
    case 0x81 => 0x48908100
    case 0x82 => 0x49208200
    case 0x83 => 0xd9b18301
    case 0x84 => 0x4a408400
    case 0x85 => 0xdad18501
    case 0x86 => 0xdb618601
    case 0x87 => 0x4bf08700
    case 0x88 => 0x4c808800
    case 0x89 => 0xdc118901
    case 0x8a => 0xdda18a01
    case 0x8b => 0x4d308b00
    case 0x8c => 0xdec18c01
    case 0x8d => 0x4e508d00
    case 0x8e => 0x4fe08e00
    case _ => 0xdf718f01
  }

  function Row9(i: bv32): bv32 {
    match i
    case 0x90 => 0x41009000
    case 0x91 => 0xd1919101
    case 0x92 => 0xd0219201
    case 0x93 => 0x40b09300
    case 0x94 => 0xd3419401
    case 0x95 => 0x43d09500
    case 0x96 => 0x42609600
    case 0x97 => 0xd2f19701
    case 0x98 => 0xd5819801
    case 0x99 => 0x45109900
    case 0x9a => 0x44a09a00
    case 0x9b => 0xd4319b01
    case 0x9c => 0x47c09c00
    case 0x9d => 0xd7519d01
    case 0x9e => 0xd6e19e01
    case _ => 0x46709f00
  }

  function RowA(i: bv32): bv32 {
    match i
    case 0xa0 => 0x5a00a000
    case 0xa1 => 0xca91a101
    case 0xa2 => 0xcb21a201
    case 0xa3 => 0x5bb0a300
    case 0xa4 => 0xc841a401
    case 0xa5 => 0x58d0a500
    case 0xa6 => 0x5960a600
    case 0xa7 => 0xc9f1a701
    case 0xa8 => 0xce81a801
    case 0xa9 => 0x5e10a900
    case 0xaa => 0x5fa0aa00
    case 0xab => 0xcf31ab01
    case 0xac => 0x5cc0ac00
    case 0xad => 0xcc51ad01
    case 0xae => 0xcde1ae01
    case _ => 0x5d70af00
  }

  function RowB(i: bv32): bv32 {
    match i
    case 0xb0 => 0xc301b001
    case 0xb1 => 0x5390b100
    case 0xb2 => 0x5220b200
    case 0xb3 => 0xc2b1b301
    case 0xb4 => 0x5140b400
    case 0xb5 => 0xc1d1b501
    case 0xb6 => 0xc061b601
    case 0xb7 => 0x50f0b700
    case 0xb8 => 0x5780b800
    case 0xb9 => 0xc711b901
    case 0xba => 0xc6a1ba01
    case 0xbb => 0x5630bb00
    case 0xbc => 0xc5c1bc01
    case 0xbd => 0x5550bd00
    case 0xbe => 0x54e0be00
    case _ => 0xc471bf01
  }

  function RowC(i: bv32): bv32 {
    match i
    case 0xc0 => 0x6c00c000
    case 0xc1 => 0xfc91c101
    case 0xc2 => 0xfd21c201
    case 0xc3 => 0x6db0c300
    case 0xc4 => 0xfe41c401
    case 0xc5 => 0x6ed0c500
    case 0xc6 => 0x6f60c600
    case 0xc7 => 0xfff1c701
    case 0xc8 => 0xf881c801
    case 0xc9 => 0x6810c900
    case 0xca => 0x69a0ca00
    case 0xcb => 0xf931cb01
    case 0xcc => 0x6ac0cc00
    case 0xcd => 0xfa51cd01
    case 0xce => 0xfbe1ce01
    case _ => 0x6b70cf00
  }

  function RowD(i: bv32): bv32 {
    match i
    case 0xd0 => 0xf501d001
    case 0xd1 => 0x6590d100
    case 0xd2 => 0x6420d200
    case 0xd3 => 0xf4b1d301
    case 0xd4 => 0x6740d400
    case 0xd5 => 0xf7d1d501
    case 0xd6 => 0xf661d601
    case 0xd7 => 0x66f0d700
    case 0xd8 => 0x6180d800
    case 0xd9 => 0xf111d901
    case 0xda => 0xf0a1da01
    case 0xdb => 0x6030db00
    case 0xdc => 0xf3c1dc01
    case 0xdd => 0x6350dd00
    case 0xde => 0x62e0de00
    case _ => 0xf271df01
  }

  function RowE(i: bv32): bv32 {
    match i
    case 0xe0 => 0xee01e001
    case 0xe1 => 0x7e90e100
    case 0xe2 => 0x7f20e200
    case 0xe3 => 0xefb1e301
    case 0xe4 => 0x7c40e400
    case 0xe5 => 0xecd1e501
    case 0xe6 => 0xed61e601
    case 0xe7 => 0x7df0e700
    case 0xe8 => 0x7a80e800
    case 0xe9 => 0xea11e901
    case 0xea => 0xeba1ea01
    case 0xeb => 0x7b30eb00
    case 0xec => 0xe8c1ec01
    case 0xed => 0x7850ed00
    case 0xee => 0x79e0ee00
    case _ => 0xe971ef01
  }

  function RowF(i: bv32): bv32 {
    match i
    case 0xf0 => 0x7700f000
    case 0xf1 => 0xe791f101
    case 0xf2 => 0xe621f201
    case 0xf3 => 0x76b0f300
    case 0xf4 => 0xe541f401
    case 0xf5 => 0x75d0f500
    case 0xf6 => 0x7460f600
    case 0xf7 => 0xe4f1f701
    case 0xf8 => 0xe381f801
    case 0xf9 => 0x7310f900
    case 0xfa => 0x72a0fa00
    case 0xfb => 0xe231fb01
    case 0xfc => 0x71c0fc00
    case 0xfd => 0xe151fd01
    case 0xfe => 0xe0e1fe01
    case _ => 0x7070ff00
  }

  function Table(i: bv32): bv32 {
    match i >> 4
    case 0 => Row0(i)
    case 1 => Row1(i)
    case 2 => Row2(i)
    case 3 => Row3(i)
    case 4 => Row4(i)
    case 5 => Row5(i)
    case 6 => Row6(i)
    case 7 => Row7(i)
    case 8 => Row8(i)
    case 9 => Row9(i)
    case 10 => RowA(i)
    case 11 => RowB(i)
    case 12 => RowC(i)
    case 13 => RowD(i)
    case 14 => RowE(i)
    case _ => RowF(i)
  }

  lemma Row0Starts(i: bv32)
    requires i <= 0x07
    ensures Row0(i) == Step8(i)
  {
  }

  lemma Row0Ends(i: bv32)
    requires 0x08 <= i <= 0x0f
    ensures Row0(i) == Step8(i)
  {
  }

  lemma Row0IsDivision(i: bv32)
    requires i <= 0x0f
    ensures Row0(i) == Step8(i)
  {
    hide Row0, Step8;
    if i <= 0x07 {
      Row0Starts(i);
    } else {
      Row0Ends(i);
    }
  }

  // Every other row is row 0 plus its own first entry.

  function Plus(a: bv32, b: bv32): bv32 { a ^ b }

  lemma Row1IsShifted(i: bv32)
    requires 0x10 <= i <= 0x1f
    ensures Plus(i, 0x10) <= 0x0f && Row1(i) == Plus(Row0(Plus(i, 0x10)), 0x99011001)
  {
  }

  lemma Row2IsShifted(i: bv32)
    requires 0x20 <= i <= 0x2f
    ensures Plus(i, 0x20) <= 0x0f && Row2(i) == Plus(Row0(Plus(i, 0x20)), 0x82012001)
  {
  }

  lemma Row3IsShifted(i: bv32)
    requires 0x30 <= i <= 0x3f
    ensures Plus(i, 0x30) <= 0x0f && Row3(i) == Plus(Row0(Plus(i, 0x30)), 0x1b003000)
  {
  }

  lemma Row4IsShifted(i: bv32)
    requires 0x40 <= i <= 0x4f
    ensures Plus(i, 0x40) <= 0x0f && Row4(i) == Plus(Row0(Plus(i, 0x40)), 0xb4014001)
  {
  }

  lemma Row5IsShifted(i: bv32)
    requires 0x50 <= i <= 0x5f
    ensures Plus(i, 0x50) <= 0x0f && Row5(i) == Plus(Row0(Plus(i, 0x50)), 0x2d005000)
  {
  }

  lemma Row6IsShifted(i: bv32)
    requires 0x60 <= i <= 0x6f
    ensures Plus(i, 0x60) <= 0x0f && Row6(i) == Plus(Row0(Plus(i, 0x60)), 0x36006000)
  {
  }

  lemma Row7IsShifted(i: bv32)
    requires 0x70 <= i <= 0x7f
    ensures Plus(i, 0x70) <= 0x0f && Row7(i) == Plus(Row0(Plus(i, 0x70)), 0xaf017001)
  {
  }

  lemma Row8IsShifted(i: bv32)
    requires 0x80 <= i <= 0x8f
    ensures Plus(i, 0x80) <= 0x0f && Row8(i) == Plus(Row0(Plus(i, 0x80)), 0xd8018001)
  {
  }

  lemma Row9IsShifted(i: bv32)
    requires 0x90 <= i <= 0x9f
    ensures Plus(i, 0x90) <= 0x0f && Row9(i) == Plus(Row0(Plus(i, 0x90)), 0x41009000)
  {
  }

  lemma RowAIsShifted(i: bv32)
    requires 0xa0 <= i <= 0xaf
    ensures Plus(i, 0xa0) <= 0x0f && RowA(i) == Plus(Row0(Plus(i, 0xa0)), 0x5a00a000)
  {
  }

  lemma RowBIsShifted(i: bv32)
    requires 0xb0 <= i <= 0xbf
    ensures Plus(i, 0xb0) <= 0x0f && RowB(i) == Plus(Row0(Plus(i, 0xb0)), 0xc301b001)
  {
  }

  lemma RowCIsShifted(i: bv32)
    requires 0xc0 <= i <= 0xcf
    ensures Plus(i, 0xc0) <= 0x0f && RowC(i) == Plus(Row0(Plus(i, 0xc0)), 0x6c00c000)
  {
  }

  lemma RowDIsShifted(i: bv32)
    requires 0xd0 <= i <= 0xdf
    ensures Plus(i, 0xd0) <= 0x0f && RowD(i) == Plus(Row0(Plus(i, 0xd0)), 0xf501d001)
  {
  }

  lemma RowEIsShifted(i: bv32)
    requires 0xe0 <= i <= 0xef
    ensures Plus(i, 0xe0) <= 0x0f && RowE(i) == Plus(Row0(Plus(i, 0xe0)), 0xee01e001)
  {
  }

  lemma RowFIsShifted(i: bv32)
    requires 0xf0 <= i <= 0xff
    ensures Plus(i, 0xf0) <= 0x0f && RowF(i) == Plus(Row0(Plus(i, 0xf0)), 0x7700f000)
  {
  }

  lemma FirstEntries()
    ensures Step8(0x10) == 0x99011001
    ensures Step8(0x20) == 0x82012001
    ensures Step8(0x30) == 0x1b003000
    ensures Step8(0x40) == 0xb4014001
    ensures Step8(0x50) == 0x2d005000
    ensures Step8(0x60) == 0x36006000
    ensures Step8(0x70) == 0xaf017001
    ensures Step8(0x80) == 0xd8018001
    ensures Step8(0x90) == 0x41009000
    ensures Step8(0xa0) == 0x5a00a000
    ensures Step8(0xb0) == 0xc301b001
    ensures Step8(0xc0) == 0x6c00c000
    ensures Step8(0xd0) == 0xf501d001
    ensures Step8(0xe0) == 0xee01e001
    ensures Step8(0xf0) == 0x7700f000
  {
  }

  // ----- the division is linear

  /** The lowest bit of a word, and the word without it. */
  function Front(w: bv32): bv32 { w & 1 }

  function Half(w: bv32): bv32 { w >> 1 }

  lemma PlusIs(a: bv32, b: bv32)
    ensures Plus(a, b) == a ^ b
  {
  }

  lemma PlusFront(c: bv32, w: bv32)
    ensures Plus(c, Front(w)) == c ^ (w & 1)
  {
  }

  lemma PlusHalf(c: bv32, w: bv32)
    ensures Plus(c, Half(w)) == c ^ (w >> 1)
  {
  }

  lemma StepFeeds(c: bv32, w: bv32)
    ensures Step(c ^ w) == Step(c ^ (w & 1)) ^ (w >> 1)
  {
  }

  /** Only the lowest bit of a word takes part in a step. */
  lemma Peel(c: bv32, w: bv32)
    ensures Step(Plus(c, w)) == Plus(Step(Plus(c, Front(w))), Half(w))
  {
    hide Step, Plus, Front, Half;
    PlusIs(c, w);
    StepFeeds(c, w);
    PlusFront(c, w);
    PlusHalf(Step(c ^ (w & 1)), w);
  }

  lemma OneBit(w: bv32)
    ensures Front(w) == 0 || Front(w) == 1
  {
  }

  lemma PlusNone(c: bv32)
    ensures Plus(c, 0) == c
  {
  }

  lemma FlipOdd(c: bv32)
    requires c & 1 == 1
    ensures (c ^ 1) & 1 == 0 && (c ^ 1) >> 1 == c >> 1
  {
  }

  lemma FlipEven(c: bv32)
    requires c & 1 == 0
    ensures (c ^ 1) & 1 == 1 && (c ^ 1) >> 1 == c >> 1
  {
  }

  lemma Twice(v: bv32, w: bv32)
    ensures (v ^ w) ^ w == v
  {
  }

  lemma StepFlips(c: bv32)
    ensures Step(Plus(c, 1)) == Plus(Step(c), 0xd801_8001)
  {
    hide Plus;
    PlusIs(c, 1);
    PlusIs(Step(c), 0xd801_8001);
    OneBit(c);
    if Front(c) == 1 {
      FlipOdd(c);
      Twice(c >> 1, 0xd801_8001);
    } else {
      FlipEven(c);
    }
  }

  /** An even word passes through a step unchanged but for the shift. */
  lemma StepShifts(c: bv32, w: bv32)
    requires Front(w) == 0
    ensures Step(Plus(c, w)) == Plus(Step(c), Half(w))
  {
    hide Step, Plus, Front, Half;
    Peel(c, w);
    PlusNone(c);
  }

  lemma Reorder(a: bv32, b: bv32, d: bv32)
    ensures Plus(Plus(a, b), d) == Plus(a, Plus(b, d))
  {
  }

  lemma FromZero(v: bv32)
    ensures Step(0) == 0 && Plus(0, v) == v
  {
  }

  lemma StepIsLinear(c: bv32, w: bv32)
    ensures Step(Plus(c, w)) == Plus(Step(c), Step(w))
  {
    hide Step, Plus, Half, Front;
    Peel(c, w);
    Peel(0, w);
    OneBit(w);
    PlusNone(c);
    PlusNone(0);
    FromZero(w);
    FromZero(Half(w));
    StepFlips(c);
    StepFlips(0);
    Reorder(Step(c), 0xd801_8001, Half(w));
    FromZero(0xd801_8001);
  }

  lemma Step8IsLinear(c: bv32, w: bv32)
    ensures Step8(Plus(c, w)) == Plus(Step8(c), Step8(w))
  {
    hide Step, Plus;
    var c1, w1 := Step(c), Step(w);
    var c2, w2 := Step(c1), Step(w1);
    var c3, w3 := Step(c2), Step(w2);
    var c4, w4 := Step(c3), Step(w3);
    var c5, w5 := Step(c4), Step(w4);
    var c6, w6 := Step(c5), Step(w5);
    var c7, w7 := Step(c6), Step(w6);
    StepIsLinear(c, w);
    StepIsLinear(c1, w1);
    StepIsLinear(c2, w2);
    StepIsLinear(c3, w3);
    StepIsLinear(c4, w4);
    StepIsLinear(c5, w5);
    StepIsLinear(c6, w6);
    StepIsLinear(c7, w7);
  }

  lemma Restored(i: bv32, first: bv32)
    ensures Plus(Plus(i, first), first) == i
  {
  }

  lemma FromRow0(i: bv32, first: bv32, v: bv32)
    requires Plus(i, first) <= 0x0f && Step8(first) == v
    ensures Plus(Row0(Plus(i, first)), v) == Step8(i)
  {
    hide Step8, Row0, Plus;
    Row0IsDivision(Plus(i, first));
    Step8IsLinear(Plus(i, first), first);
    Restored(i, first);
  }

  /** The table holds the remainder of every byte. */
  lemma TableIsDivision(i: bv32)
    requires i <= 0xff
    ensures Table(i) == Step8(i)
  {
    hide Plus, Step8, Row0, Row1, Row2, Row3, Row4, Row5, Row6, Row7, Row8, Row9, RowA, RowB, RowC, RowD, RowE, RowF;
    FirstEntries();
    match i >> 4
    case 0 => Row0IsDivision(i);
    case 1 => Row1IsShifted(i); FromRow0(i, 0x10, 0x99011001);
    case 2 => Row2IsShifted(i); FromRow0(i, 0x20, 0x82012001);
    case 3 => Row3IsShifted(i); FromRow0(i, 0x30, 0x1b003000);
    case 4 => Row4IsShifted(i); FromRow0(i, 0x40, 0xb4014001);
    case 5 => Row5IsShifted(i); FromRow0(i, 0x50, 0x2d005000);
    case 6 => Row6IsShifted(i); FromRow0(i, 0x60, 0x36006000);
    case 7 => Row7IsShifted(i); FromRow0(i, 0x70, 0xaf017001);
    case 8 => Row8IsShifted(i); FromRow0(i, 0x80, 0xd8018001);
    case 9 => Row9IsShifted(i); FromRow0(i, 0x90, 0x41009000);
    case 10 => RowAIsShifted(i); FromRow0(i, 0xa0, 0x5a00a000);
    case 11 => RowBIsShifted(i); FromRow0(i, 0xb0, 0xc301b001);
    case 12 => RowCIsShifted(i); FromRow0(i, 0xc0, 0x6c00c000);
    case 13 => RowDIsShifted(i); FromRow0(i, 0xd0, 0xf501d001);
    case 14 => RowEIsShifted(i); FromRow0(i, 0xe0, 0xee01e001);
    case _ => RowFIsShifted(i); FromRow0(i, 0xf0, 0x7700f000);
  }

  // ----- a whole byte at a time

  function Common(w: bv32, m: bv32): bv32 { w & m }

  lemma Halved(w: bv32, m: bv32)
    requires Common(w, m) == 0 && m & 1 == 1
    ensures Front(w) == 0 && Common(Half(w), Half(m)) == 0
  {
  }

  lemma EightHalves(w: bv32)
    ensures Half(Half(Half(Half(Half(Half(Half(Half(w)))))))) == Drop(w)
  {
  }

  lemma Masks()
    ensures Half(0xff) == 0x7f && Half(0x7f) == 0x3f && Half(0x3f) == 0x1f && Half(0x1f) == 0x0f
    ensures Half(0x0f) == 0x07 && Half(0x07) == 0x03 && Half(0x03) == 0x01
  {
  }

  /** A word without a low byte passes through eight steps. */
  lemma Step8Shifts(c: bv32, w: bv32)
    requires Common(w, 0xff) == 0
    ensures Step8(Plus(c, w)) == Plus(Step8(c), Drop(w))
  {
    hide Step, Plus, Half, Front, Drop, Common;
    Masks();
    EightHalves(w);
    var c1, w1 := Step(c), Half(w);
    var c2, w2 := Step(c1), Half(w1);
    var c3, w3 := Step(c2), Half(w2);
    var c4, w4 := Step(c3), Half(w3);
    var c5, w5 := Step(c4), Half(w4);
    var c6, w6 := Step(c5), Half(w5);
    var c7, w7 := Step(c6), Half(w6);
    Halved(w, 0xff);
    StepShifts(c, w);
    Halved(w1, 0x7f);
    StepShifts(c1, w1);
    Halved(w2, 0x3f);
    StepShifts(c2, w2);
    Halved(w3, 0x1f);
    StepShifts(c3, w3);
    Halved(w4, 0x0f);
    StepShifts(c4, w4);
    Halved(w5, 0x07);
    StepShifts(c5, w5);
    Halved(w6, 0x03);
    StepShifts(c6, w6);
    Halved(w7, 0x01);
    StepShifts(c7, w7);
  }

  function High(c: bv32): bv32 { c & 0xffff_ff00 }

  lemma HighPart(c: bv32)
    ensures Common(High(c), 0xff) == 0
  {
  }

  lemma HighDrop(c: bv32)
    ensures Drop(High(c)) == Drop(c)
  {
  }

  lemma BothParts(c: bv32)
    ensures Plus(Lo(c), High(c)) == c
  {
  }

  /** Eight steps shift the low byte out and leave its remainder. */
  lemma Step8Splits(c: bv32)
    ensures Step8(c) == Plus(Step8(Lo(c)), Drop(c))
  {
    hide Step8, Plus, High, Lo, Drop, Common;
    HighPart(c);
    HighDrop(c);
    BothParts(c);
    Step8Shifts(Lo(c), High(c));
  }

  // ----- division of bytes

  function Lookup(c: bv32, x: bv32): bv32 { Plus(Table(Lo(x)), Drop(c)) }

  /** One trip of the loop of build_edc. */
  function EdcStep(c: bv32, b: Byte): bv32 {
    Lookup(c, Mix(c, b))
  }

  /** The division of one byte, bit by bit. */
  function Divide(c: bv32, b: Byte): bv32 {
    Step8(Mix(c, b))
  }

  /** The division of a byte sequence. */
  function Division(c: bv32, bs: seq<Byte>): bv32 {
    if bs == [] then c else Divide(Division(c, bs[..|bs| - 1]), bs[|bs| - 1])
  }

  lemma LookupDivides(c: bv32, x: bv32)
    requires Drop(x) == Drop(c)
    ensures Lookup(c, x) == Step8(x)
  {
    hide Step8, Table, Plus, Lo, Drop;
    Step8Splits(x);
    TableIsDivision(Lo(x));
  }

  /** A table lookup divides one byte. */
  lemma EdcStepDivides(c: bv32, b: Byte)
    ensures EdcStep(c, b) == Divide(c, b)
  {
    hide Step8, Lookup, Mix, Drop;
    MixKeepsHigh(c, b);
    LookupDivides(c, Mix(c, b));
  }

  /** build_edc on the bytes `from` to `upto` is their division. */
  method BuildEdc(inout: array<Byte>, from: nat, upto: nat) returns (result: bv32)
    requires from <= upto + 1 <= inout.Length
    ensures result == Division(0, inout[from..upto + 1])
  {
    hide Divide, EdcStep;
    result := 0;
    var k := from;
    while k <= upto
      invariant from <= k <= upto + 1
      invariant result == Division(0, inout[from..k])
    {
      EdcStepDivides(result, inout[k]);
      assert inout[from..k + 1][..|inout[from..k + 1]| - 1] == inout[from..k];
      result := EdcStep(result, inout[k]);
      k := k + 1;
    }
  }

  // ----- the residue

  lemma LowGone(c: bv32)
    ensures c ^ Lo(c) == Plus(0, High(c))
  {
  }

  lemma Step8Zero()
    ensures Step8(0) == 0
  {
  }

  lemma CancelLow(c: bv32)
    ensures Step8(c ^ Lo(c)) == Drop(c)
  {
    hide Step8, Plus, High, Lo, Drop, Common;
    HighPart(c);
    HighDrop(c);
    LowGone(c);
    Step8Shifts(0, High(c));
    Step8Zero();
    FromZero(Drop(c));
  }

  /** Dividing a register by its own low byte shifts it out. */
  lemma ShiftOut(c: bv32)
    ensures Divide(c, NatOf(Lo(c))) == Drop(c)
  {
    hide Step8;
    RoundTrip(Lo(c));
    CancelLow(c);
  }

  lemma {:induction false} DivisionAppend(c: bv32, bs: seq<Byte>, ds: seq<Byte>)
    ensures Division(c, bs + ds) == Division(Division(c, bs), ds)
    decreases |ds|
  {
    hide Divide;
    if ds == [] {
      assert bs + ds == bs;
    } else {
      var n := |ds| - 1;
      assert (bs + ds)[..|bs + ds| - 1] == bs + ds[..n];
      DivisionAppend(c, bs, ds[..n]);
    }
  }

  lemma DivisionFour(c: bv32, a: Byte, b: Byte, d: Byte, e: Byte)
    ensures Division(c, [a, b, d, e]) == Divide(Divide(Divide(Divide(c, a), b), d), e)
  {
    hide Divide;
    assert [a, b, d, e][..3] == [a, b, d] && [a, b, d][..2] == [a, b] && [a, b][..1] == [a] && [a][..0] == [];
    assert Division(c, [a]) == Divide(c, a);
    assert Division(c, [a, b]) == Divide(Divide(c, a), b);
    assert Division(c, [a, b, d]) == Divide(Divide(Divide(c, a), b), d);
  }

  lemma OwnBytes(v: bv32)
    ensures Division(v, BytesOf(v)) == 0
  {
    hide Divide, NatOf, Drop, Lo, Division;
    var d, e := Drop(v), Drop(Drop(v));
    var f := Drop(e);
    assert BytesOf(v) == [NatOf(Lo(v)), NatOf(Lo(d)), NatOf(Lo(e)), NatOf(Lo(f))] by { BytesDropped(v); }
    DivisionFour(v, NatOf(Lo(v)), NatOf(Lo(d)), NatOf(Lo(e)), NatOf(Lo(f)));
    ShiftOut(v);
    ShiftOut(d);
    ShiftOut(e);
    ShiftOut(f);
    assert Drop(f) == 0 by { ShiftChain(v); }
  }

  /** Data followed by its own code, low byte first, divides without
      remainder. */
  lemma ResidueIsZero(bs: seq<Byte>)
    ensures Division(0, bs + BytesOf(Division(0, bs))) == 0
  {
    hide Divide, BytesOf;
    DivisionAppend(0, bs, BytesOf(Division(0, bs)));
    OwnBytes(Division(0, bs));
  }
}
