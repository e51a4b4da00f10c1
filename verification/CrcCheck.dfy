/** The check values of the two checksums: what they make of the nine bytes
    "123456789". */
module CrcCheck {
  import opened XorNat
  import opened Words32
  import opened Crc

  /** The first `n` digits. */
  function Digits(n: nat): (bs: seq<Byte>)
    requires n <= 9
    ensures |bs| == n
  {
    seq(n, k requires 0 <= k < n => 0x31 + k)
  }

  /** The registers after `n` bytes. */
  function Register(n: nat): bv32 {
    match n
    case 0 => 0xffffffff case 1 => 0x7c231048 case 2 => 0xb0acbb32 case 3 => 0x77b79c2d case 4 => 0x641c1f5c
    case 5 => 0x340ac5e3 case 6 => 0xf68d2c9e case 7 => 0xaffc9660 case 8 => 0x651f2550 case _ => 0x340bc6d9
  }

  function Register16(n: nat): bv16 {
    match n
    case 0 => 0xffff case 1 => 0xc782 case 2 => 0x3dba case 3 => 0x5bce case 4 => 0x5349
    case 5 => 0x4560 case 6 => 0x2ef4 case 7 => 0x7718 case 8 => 0xa12b case _ => 0x29b1
  }

  /** The digits, as the registers take them. */
  function Digit(n: nat): bv32 {
    match n
    case 0 => 0x31 case 1 => 0x32 case 2 => 0x33 case 3 => 0x34 case 4 => 0x35
    case 5 => 0x36 case 6 => 0x37 case 7 => 0x38 case _ => 0x39
  }

  function Digit16(n: nat): bv16 {
    match n
    case 0 => 0x3100 case 1 => 0x3200 case 2 => 0x3300 case 3 => 0x3400 case 4 => 0x3500
    case 5 => 0x3600 case 6 => 0x3700 case 7 => 0x3800 case _ => 0x3900
  }

  lemma DigitIs(n: nat)
    requires n < 9
    ensures WordOf(0x31 + n) == Digit(n)
  {
    match n
    case 0 => case 1 => case 2 => case 3 => case 4 => case 5 => case 6 => case 7 => case _ =>
  }

  lemma DigitIs16(n: nat)
    requires n < 9
    ensures High(0x31 + n) == Digit16(n)
  {
    match n
    case 0 => case 1 => case 2 => case 3 => case 4 => case 5 => case 6 => case 7 => case _ =>
  }

  lemma Feeds(n: nat)
    requires n < 9
    ensures Feed(Register(n), Digit(n), 8) == Register(n + 1)
  {
    match n
    case 0 => case 1 => case 2 => case 3 => case 4 => case 5 => case 6 => case 7 => case _ =>
  }

  lemma Feeds16(n: nat)
    requires n < 9
    ensures Feed16(Register16(n), Digit16(n), 8) == Register16(n + 1)
  {
    match n
    case 0 => case 1 => case 2 => case 3 => case 4 => case 5 => case 6 => case 7 => case _ =>
  }

  lemma Starts()
    ensures Register(0) == 0xffff_ffff && Register16(0) == 0xffff
  {
  }

  lemma {:induction false} SerialIs(n: nat)
    requires n <= 9
    ensures Serial(0xffff_ffff, Digits(n)) == Register(n) && Serial16(0xffff, Digits(n)) == Register16(n)
    decreases n
  {
    hide Feed, Feed16, High, WordOf, Register, Register16, Digit, Digit16;
    Starts();
    if n > 0 {
      DigitIs(n - 1);
      DigitIs16(n - 1);
      SerialIs(n - 1);
      assert Digits(n)[..n - 1] == Digits(n - 1);
      Feeds(n - 1);
      Feeds16(n - 1);
    }
  }

  /** CRC-32 of "123456789" is 0xcbf43926, its CRC-16 is 0x29b1. */
  lemma CheckValues()
    ensures Crc32([0x31, 0x32, 0x33, 0x34, 0x35, 0x36, 0x37, 0x38, 0x39]) == 0xcbf4_3926
    ensures Crc16([0x31, 0x32, 0x33, 0x34, 0x35, 0x36, 0x37, 0x38, 0x39]) == 0x29b1
  {
    hide Serial, Serial16;
    SerialIs(9);
    assert Digits(9) == [0x31, 0x32, 0x33, 0x34, 0x35, 0x36, 0x37, 0x38, 0x39];
  }
}
