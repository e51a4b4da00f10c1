/** The logic function unit (blit.h): one boolean formula per minterm byte,
    applied at every bit position. */
module BlitFunc {
  import opened Bits

  predicate Row0(a: bool, b: bool, c: bool, mt: nat) {
    match mt
    case 0x00 => false
    case 0x01 => !(a || b || c)
    case 0x02 => c && !(a || b)
    case 0x03 => !(a || b)
    case 0x04 => b && !(a || c)
    case 0x05 => !(a || c)
    case 0x06 => !a && (b != c)
    case 0x07 => !(a || (b && c))
    case 0x08 => !a && b && c
    case 0x09 => !(a || (b != c))
    case 0x0a => !a && c
    case 0x0b => !(a || (b && !c))
    case 0x0c => !a && b
    case 0x0d => !(a || (!b && c))
    case 0x0e => !a && (b || c)
    case _ => !a
  }

  predicate Row1(a: bool, b: bool, c: bool, mt: nat) {
    match mt
    case 0x10 => a && !(b || c)
    case 0x11 => !(b || c)
    case 0x12 => !b && (a != c)
    case 0x13 => !(b || (a && c))
    case 0x14 => !c && (a != b)
    case 0x15 => !(c || (a && b))
    case 0x16 => a != ((a && b) || (b != c))
    case 0x17 => !(a != ((a != b) && (a != c)))
    case 0x18 => (a != b) && (a != c)
    case 0x19 => b != (!c || (a && b))
    case 0x1a => a != (c || (a && b))
    case 0x1b => a != (c || !(a != b))
    case 0x1c => a != (b || (a && c))
    case 0x1d => a != (b || !(a != c))
    case 0x1e => a != (b || c)
    case _ => !(a && (b || c))
  }

  predicate Row2(a: bool, b: bool, c: bool, mt: nat) {
    match mt
    case 0x20 => a && !b && c
    case 0x21 => !(b || (a != c))
    case 0x22 => !b && c
    case 0x23 => !(b || (a && !c))
    case 0x24 => (a != b) && (b != c)
    case 0x25 => a != (!c || (a && b))
    case 0x26 => b != (c || (a && b))
    case 0x27 => !(a != (c && (a != b)))
    case 0x28 => c && (a != b)
    case 0x29 => !((a != b) != (c || (a && b)))
    case 0x2a => c && !(a && b)
    case 0x2b => !(a != ((a != b) && (b != c)))
    case 0x2c => b != (a && (b || c))
    case 0x2d => a != (b || !c)
    case 0x2e => a != (b || (a != c))
    case _ => !(a && (b || !c))
  }

  predicate Row3(a: bool, b: bool, c: bool, mt: nat) {
    match mt
    case 0x30 => a && !b
    case 0x31 => !(b || (!a && c))
    case 0x32 => !b && (a || c)
    case 0x33 => !b
    case 0x34 => b != (a || (b && c))
    case 0x35 => b != (a || !(b != c))
    case 0x36 => b != (a || c)
    case 0x37 => !(b && (a || c))
    case 0x38 => a != (b && (a || c))
    case 0x39 => b != (a || !c)
    case 0x3a => b != (a || (b != c))
    case 0x3b => !(b && (a || !c))
    case 0x3c => a != b
    case 0x3d => a != (b || !(a || c))
    case 0x3e => a != (b || (a != (a || c)))
    case _ => !(a && b)
  }

  predicate Row4(a: bool, b: bool, c: bool, mt: nat) {
    match mt
    case 0x40 => a && b && !c
    case 0x41 => !(c || (a != b))
    case 0x42 => (a != c) && (b != c)
    case 0x43 => a != (!b || (a && c))
    case 0x44 => b && !c
    case 0x45 => !(c || (a && !b))
    case 0x46 => c != (b || (a && c))
    case 0x47 => !(a != (b && (a != c)))
    case 0x48 => b && (a != c)
    case 0x49 => !((a != c) != (b || (a && c)))
    case 0x4a => c != (a && (b || c))
    case 0x4b => a != (!b || c)
    case 0x4c => b && !(a && c)
    case 0x4d => a != ((a != b) || !(a != c))
    case 0x4e => a != (c || (a != b))
    case _ => !(a && (!b || c))
  }

  predicate Row5(a: bool, b: bool, c: bool, mt: nat) {
    match mt
    case 0x50 => a && !c
    case 0x51 => !(c || (!a && b))
    case 0x52 => c != (a || (b && c))
    case 0x53 => !(b != (a && (b != c)))
    case 0x54 => !c && (a || b)
    case 0x55 => !c
    case 0x56 => c != (a || b)
    case 0x57 => !(c && (a || b))
    case 0x58 => a != (c && (a || b))
    case 0x59 => c != (a || !b)
    case 0x5a => a != c
    case 0x5b => a != (c || !(a || b))
    case 0x5c => c != (a || (b != c))
    case 0x5d => !(c && (a || !b))
    case 0x5e => a != (c || (a != (a || b)))
    case _ => !(a && c)
  }

  predicate Row6(a: bool, b: bool, c: bool, mt: nat) {
    match mt
    case 0x60 => a && (b != c)
    case 0x61 => !((b != c) != (a || (b && c)))
    case 0x62 => c != (b && (a || c))
    case 0x63 => b != (!a || c)
    case 0x64 => b != (c && (a || b))
    case 0x65 => c != (!a || b)
    case 0x66 => b != c
    case 0x67 => b != (c || !(a || b))
    case 0x68 => (a && b) != (c && (a || b))
    case 0x69 => !((a != b) != c)
    case 0x6a => c != (a && b)
    case 0x6b => !((a != b) != (c && (a || b)))
    case 0x6c => b != (a && c)
    case 0x6d => !((a != c) != (b && (a || c)))
    case 0x6e => (!a && b) || (b != c)
    case _ => !a || (b != c)
  }

  predicate Row7(a: bool, b: bool, c: bool, mt: nat) {
    match mt
    case 0x70 => a && !(b && c)
    case 0x71 => !(a != ((a != b) || (a != c)))
    case 0x72 => b != (c || (a != b))
    case 0x73 => !(b && (!a || c))
    case 0x74 => c != (b || (a != c))
    case 0x75 => !(c && (!a || b))
    case 0x76 => b != (c || (a != (a && b)))
    case 0x77 => !(b && c)
    case 0x78 => a != (b && c)
    case 0x79 => !((b != c) != (a && (b || c)))
    case 0x7a => (a && !b) || (a != c)
    case 0x7b => !b || (a != c)
    case 0x7c => (a != b) || (a && !c)
    case 0x7d => !c || (a != b)
    case 0x7e => (a != b) || (a != c)
    case _ => !(a && b && c)
  }

  predicate Row8(a: bool, b: bool, c: bool, mt: nat) {
    match mt
    case 0x80 => a && b && c
    case 0x81 => !((a != b) || (a != c))
    case 0x82 => c && !(a != b)
    case 0x83 => a != (!b || (a && !c))
    case 0x84 => b && !(a != c)
    case 0x85 => a != (!c || (a && !b))
    case 0x86 => (b != c) != (a && (b || c))
    case 0x87 => !(a != (b && c))
    case 0x88 => b && c
    case 0x89 => b != (!c && (!a || b))
    case 0x8a => c && (!a || b)
    case 0x8b => a != (!b || (a != c))
    case 0x8c => b && (!a || c)
    case 0x8d => a != (!c || (a != b))
    case 0x8e => a != ((a != b) || (a != c))
    case _ => !a || (b && c)
  }

  predicate Row9(a: bool, b: bool, c: bool, mt: nat) {
    match mt
    case 0x90 => a && !(b != c)
    case 0x91 => b != (!c || (!a && b))
    case 0x92 => (a != c) != (b && (a || c))
    case 0x93 => !(b != (a && c))
    case 0x94 => (a != b) != (c && (a || b))
    case 0x95 => !(c != (a && b))
    case 0x96 => (a != b) != c
    case 0x97 => (a != b) != (c || !(a || b))
    case 0x98 => b != (!c && (a || b))
    case 0x99 => !(b != c)
    case 0x9a => c != (a && !b)
    case 0x9b => !(b != (c && (a || b)))
    case 0x9c => b != (a && !c)
    case 0x9d => !(c != (b && (a || c)))
    case 0x9e => (b != c) != (a || (b && c))
    case _ => !(a && (b != c))
  }

  predicate RowA(a: bool, b: bool, c: bool, mt: nat) {
    match mt
    case 0xa0 => a && c
    case 0xa1 => a != (!c && (a || !b))
    case 0xa2 => c && (a || !b)
    case 0xa3 => b != (!a || (b != c))
    case 0xa4 => a != (!c && (a || b))
    case 0xa5 => !(a != c)
    case 0xa6 => c != (!a && b)
    case 0xa7 => !(a != (c && (a || b)))
    case 0xa8 => c && (a || b)
    case 0xa9 => !(c != (a || b))
    case 0xaa => c
    case 0xab => c || !(a || b)
    case 0xac => b != (a && (b != c))
    case 0xad => !(c != (a || (b && c)))
    case 0xae => c || (!a && b)
    case _ => !a || c
  }

  predicate RowB(a: bool, b: bool, c: bool, mt: nat) {
    match mt
    case 0xb0 => a && (!b || c)
    case 0xb1 => !(a != (c || (a != b)))
    case 0xb2 => a != ((a != c) && (b != c))
    case 0xb3 => !b || (a && c)
    case 0xb4 => a != (b && !c)
    case 0xb5 => !(c != (a && (b || c)))
    case 0xb6 => (a != c) != (b || (a && c))
    case 0xb7 => !(b && (a != c))
    case 0xb8 => a != (b && (a != c))
    case 0xb9 => !(c != (b || (a && c)))
    case 0xba => c || (a && !b)
    case 0xbb => !b || c
    case 0xbc => (a != b) || (a && c)
    case 0xbd => (a != b) || !(a != c)
    case 0xbe => c || (a != b)
    case _ => c || !(a && b)
  }

  predicate RowC(a: bool, b: bool, c: bool, mt: nat) {
    match mt
    case 0xc0 => a && b
    case 0xc1 => a != (!b && (a || !c))
    case 0xc2 => a != (!b && (a || c))
    case 0xc3 => !(a != b)
    case 0xc4 => b && (a || !c)
    case 0xc5 => !(b != (a || (b != c)))
    case 0xc6 => b != (!a && c)
    case 0xc7 => !(a != (b && (a || c)))
    case 0xc8 => b && (a || c)
    case 0xc9 => !(b != (a || c))
    case 0xca => c != (a && (b != c))
    case 0xcb => !(b != (a || (b && c)))
    case 0xcc => b
    case 0xcd => b || !(a || c)
    case 0xce => b || (!a && c)
    case _ => !a || b
  }

  predicate RowD(a: bool, b: bool, c: bool, mt: nat) {
    match mt
    case 0xd0 => a && (b || !c)
    case 0xd1 => !(a != (b || (a != c)))
    case 0xd2 => a != (!b && c)
    case 0xd3 => !(b != (a && (b || c)))
    case 0xd4 => a != ((a != b) && (b != c))
    case 0xd5 => !c || (a && b)
    case 0xd6 => (a != b) != (c || (a && b))
    case 0xd7 => !(c && (a != b))
    case 0xd8 => a != (c && (a != b))
    case 0xd9 => !(b != (c || (a && b)))
    case 0xda => (a && b) || (a != c)
    case 0xdb => !((a != b) && (b != c))
    case 0xdc => b || (a && !c)
    case 0xdd => b || !c
    case 0xde => b || (a != c)
    case _ => b || !(a && c)
  }

  predicate RowE(a: bool, b: bool, c: bool, mt: nat) {
    match mt
    case 0xe0 => a && (b || c)
    case 0xe1 => !(a != (b || c))
    case 0xe2 => c != (b && (a != c))
    case 0xe3 => !(a != (b || (a && c)))
    case 0xe4 => b != (c && (a != b))
    case 0xe5 => !(a != (c || (a && b)))
    case 0xe6 => (a && b) || (b != c)
    case 0xe7 => !((a != b) && (a != c))
    case 0xe8 => a != ((a != b) && (a != c))
    case 0xe9 => (a != b) != (!c || (a && b))
    case 0xea => c || (a && b)
    case 0xeb => c || !(a != b)
    case 0xec => b || (a && c)
    case 0xed => b || !(a != c)
    case 0xee => b || c
    case _ => !a || b || c
  }

  predicate RowF(a: bool, b: bool, c: bool, mt: nat) {
    match mt
    case 0xf0 => a
    case 0xf1 => a || !(b || c)
    case 0xf2 => a || (!b && c)
    case 0xf3 => a || !b
    case 0xf4 => a || (b && !c)
    case 0xf5 => a || !c
    case 0xf6 => a || (b != c)
    case 0xf7 => a || !(b && c)
    case 0xf8 => a || (b && c)
    case 0xf9 => a || !(b != c)
    case 0xfa => a || c
    case 0xfb => a || !b || c
    case 0xfc => a || b
    case 0xfd => a || b || !c
    case 0xfe => a || b || c
    case _ => true
  }

  /** blit_func at one bit position. */
  predicate FuncBit(a: bool, b: bool, c: bool, mt: nat) {
    match mt / 16
    case 0 => Row0(a, b, c, mt)
    case 1 => Row1(a, b, c, mt)
    case 2 => Row2(a, b, c, mt)
    case 3 => Row3(a, b, c, mt)
    case 4 => Row4(a, b, c, mt)
    case 5 => Row5(a, b, c, mt)
    case 6 => Row6(a, b, c, mt)
    case 7 => Row7(a, b, c, mt)
    case 8 => Row8(a, b, c, mt)
    case 9 => Row9(a, b, c, mt)
    case 10 => RowA(a, b, c, mt)
    case 11 => RowB(a, b, c, mt)
    case 12 => RowC(a, b, c, mt)
    case 13 => RowD(a, b, c, mt)
    case 14 => RowE(a, b, c, mt)
    case _ => RowF(a, b, c, mt)
  }

  /** Bit 4a+2b+c of the minterm byte. */
  predicate Selected(mt: nat, a: bool, b: bool, c: bool) {
    var lo := if b then (if c then mt / 8 else mt / 4) else (if c then mt / 2 else mt);
    (if a then lo / 16 else lo) % 2 == 1
  }

  lemma Table00(a: bool, b: bool, c: bool, mt: nat)
    requires 0x00 <= mt < 0x08
    ensures Row0(a, b, c, mt) == Selected(mt, a, b, c)
  {
  }

  lemma Table08(a: bool, b: bool, c: bool, mt: nat)
    requires 0x08 <= mt < 0x10
    ensures Row0(a, b, c, mt) == Selected(mt, a, b, c)
  {
  }

  lemma Table10(a: bool, b: bool, c: bool, mt: nat)
    requires 0x10 <= mt < 0x18
    ensures Row1(a, b, c, mt) == Selected(mt, a, b, c)
  {
  }

  lemma Table18(a: bool, b: bool, c: bool, mt: nat)
    requires 0x18 <= mt < 0x20
    ensures Row1(a, b, c, mt) == Selected(mt, a, b, c)
  {
  }

  lemma Table20(a: bool, b: bool, c: bool, mt: nat)
    requires 0x20 <= mt < 0x28
    ensures Row2(a, b, c, mt) == Selected(mt, a, b, c)
  {
  }

  lemma Table28(a: bool, b: bool, c: bool, mt: nat)
    requires 0x28 <= mt < 0x30
    ensures Row2(a, b, c, mt) == Selected(mt, a, b, c)
  {
  }

  lemma Table30(a: bool, b: bool, c: bool, mt: nat)
    requires 0x30 <= mt < 0x38
    ensures Row3(a, b, c, mt) == Selected(mt, a, b, c)
  {
  }

  lemma Table38(a: bool, b: bool, c: bool, mt: nat)
    requires 0x38 <= mt < 0x40
    ensures Row3(a, b, c, mt) == Selected(mt, a, b, c)
  {
  }

  lemma Table40(a: bool, b: bool, c: bool, mt: nat)
    requires 0x40 <= mt < 0x48
    ensures Row4(a, b, c, mt) == Selected(mt, a, b, c)
  {
  }

  lemma Table48(a: bool, b: bool, c: bool, mt: nat)
    requires 0x48 <= mt < 0x50
    ensures Row4(a, b, c, mt) == Selected(mt, a, b, c)
  {
  }

  lemma Table50(a: bool, b: bool, c: bool, mt: nat)
    requires 0x50 <= mt < 0x58
    ensures Row5(a, b, c, mt) == Selected(mt, a, b, c)
  {
  }

  lemma Table58(a: bool, b: bool, c: bool, mt: nat)
    requires 0x58 <= mt < 0x60
    ensures Row5(a, b, c, mt) == Selected(mt, a, b, c)
  {
  }

  lemma Table60(a: bool, b: bool, c: bool, mt: nat)
    requires 0x60 <= mt < 0x68
    ensures Row6(a, b, c, mt) == Selected(mt, a, b, c)
  {
  }

  lemma Table68(a: bool, b: bool, c: bool, mt: nat)
    requires 0x68 <= mt < 0x70
    ensures Row6(a, b, c, mt) == Selected(mt, a, b, c)
  {
  }

  lemma Table70(a: bool, b: bool, c: bool, mt: nat)
    requires 0x70 <= mt < 0x78
    ensures Row7(a, b, c, mt) == Selected(mt, a, b, c)
  {
  }

  lemma Table78(a: bool, b: bool, c: bool, mt: nat)
    requires 0x78 <= mt < 0x80
    ensures Row7(a, b, c, mt) == Selected(mt, a, b, c)
  {
  }

  lemma Table80(a: bool, b: bool, c: bool, mt: nat)
    requires 0x80 <= mt < 0x88
    ensures Row8(a, b, c, mt) == Selected(mt, a, b, c)
  {
  }

  lemma Table88(a: bool, b: bool, c: bool, mt: nat)
    requires 0x88 <= mt < 0x90
    ensures Row8(a, b, c, mt) == Selected(mt, a, b, c)
  {
  }

  lemma Table90(a: bool, b: bool, c: bool, mt: nat)
    requires 0x90 <= mt < 0x98
    ensures Row9(a, b, c, mt) == Selected(mt, a, b, c)
  {
  }

  lemma Table98(a: bool, b: bool, c: bool, mt: nat)
    requires 0x98 <= mt < 0xa0
    ensures Row9(a, b, c, mt) == Selected(mt, a, b, c)
  {
  }

  lemma TableA0(a: bool, b: bool, c: bool, mt: nat)
    requires 0xa0 <= mt < 0xa8
    ensures RowA(a, b, c, mt) == Selected(mt, a, b, c)
  {
  }

  lemma TableA8(a: bool, b: bool, c: bool, mt: nat)
    requires 0xa8 <= mt < 0xb0
    ensures RowA(a, b, c, mt) == Selected(mt, a, b, c)
  {
  }

  lemma TableB0(a: bool, b: bool, c: bool, mt: nat)
    requires 0xb0 <= mt < 0xb8
    ensures RowB(a, b, c, mt) == Selected(mt, a, b, c)
  {
  }

  lemma TableB8(a: bool, b: bool, c: bool, mt: nat)
    requires 0xb8 <= mt < 0xc0
    ensures RowB(a, b, c, mt) == Selected(mt, a, b, c)
  {
  }

  lemma TableC0(a: bool, b: bool, c: bool, mt: nat)
    requires 0xc0 <= mt < 0xc8
    ensures RowC(a, b, c, mt) == Selected(mt, a, b, c)
  {
  }

  lemma TableC8(a: bool, b: bool, c: bool, mt: nat)
    requires 0xc8 <= mt < 0xd0
    ensures RowC(a, b, c, mt) == Selected(mt, a, b, c)
  {
  }

  lemma TableD0(a: bool, b: bool, c: bool, mt: nat)
    requires 0xd0 <= mt < 0xd8
    ensures RowD(a, b, c, mt) == Selected(mt, a, b, c)
  {
  }

  lemma TableD8(a: bool, b: bool, c: bool, mt: nat)
    requires 0xd8 <= mt < 0xe0
    ensures RowD(a, b, c, mt) == Selected(mt, a, b, c)
  {
  }

  lemma TableE0(a: bool, b: bool, c: bool, mt: nat)
    requires 0xe0 <= mt < 0xe8
    ensures RowE(a, b, c, mt) == Selected(mt, a, b, c)
  {
  }

  lemma TableE8(a: bool, b: bool, c: bool, mt: nat)
    requires 0xe8 <= mt < 0xf0
    ensures RowE(a, b, c, mt) == Selected(mt, a, b, c)
  {
  }

  lemma TableF0(a: bool, b: bool, c: bool, mt: nat)
    requires 0xf0 <= mt < 0xf8
    ensures RowF(a, b, c, mt) == Selected(mt, a, b, c)
  {
  }

  lemma TableF8(a: bool, b: bool, c: bool, mt: nat)
    requires 0xf8 <= mt < 0x100
    ensures RowF(a, b, c, mt) == Selected(mt, a, b, c)
  {
  }

  /** Every one of the 256 formulas is the one its minterm byte describes. */
  lemma FuncBitSelects(a: bool, b: bool, c: bool, mt: nat)
    requires mt < 0x100
    ensures FuncBit(a, b, c, mt) == Selected(mt, a, b, c)
  {
    hide Selected, Row0, Row1, Row2, Row3, Row4, Row5, Row6, Row7, Row8, Row9, RowA, RowB, RowC, RowD, RowE, RowF;
    match mt / 8
    case 0 => Table00(a, b, c, mt);
    case 1 => Table08(a, b, c, mt);
    case 2 => Table10(a, b, c, mt);
    case 3 => Table18(a, b, c, mt);
    case 4 => Table20(a, b, c, mt);
    case 5 => Table28(a, b, c, mt);
    case 6 => Table30(a, b, c, mt);
    case 7 => Table38(a, b, c, mt);
    case 8 => Table40(a, b, c, mt);
    case 9 => Table48(a, b, c, mt);
    case 10 => Table50(a, b, c, mt);
    case 11 => Table58(a, b, c, mt);
    case 12 => Table60(a, b, c, mt);
    case 13 => Table68(a, b, c, mt);
    case 14 => Table70(a, b, c, mt);
    case 15 => Table78(a, b, c, mt);
    case 16 => Table80(a, b, c, mt);
    case 17 => Table88(a, b, c, mt);
    case 18 => Table90(a, b, c, mt);
    case 19 => Table98(a, b, c, mt);
    case 20 => TableA0(a, b, c, mt);
    case 21 => TableA8(a, b, c, mt);
    case 22 => TableB0(a, b, c, mt);
    case 23 => TableB8(a, b, c, mt);
    case 24 => TableC0(a, b, c, mt);
    case 25 => TableC8(a, b, c, mt);
    case 26 => TableD0(a, b, c, mt);
    case 27 => TableD8(a, b, c, mt);
    case 28 => TableE0(a, b, c, mt);
    case 29 => TableE8(a, b, c, mt);
    case 30 => TableF0(a, b, c, mt);
    case _ => TableF8(a, b, c, mt);
  }

  function Func(a: Long, b: Long, c: Long, mt: nat): Long {
    seq(32, i requires 0 <= i < 32 => FuncBit(a[i], b[i], c[i], mt))
  }
}
