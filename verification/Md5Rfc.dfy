// RFC 1321, "The MD5 Message-Digest Algorithm", as a definition to compare with.
//
// Everything here follows the RFC and nothing here follows the C code: the auxiliary functions
// are those of section 3.4, the 64 operations are driven by the tables of that section, and
// padding is that of sections 3.1 and 3.2. Words and bytes are integers within their range.
module Md5Rfc {
  import opened Basics
  import opened Bits

  const TWO_32: nat := 0x1_0000_0000
  const TWO_64: nat := 0x1_0000_0000_0000_0000

  type word = x: nat | x < TWO_32

  datatype Regs = Regs(a: word, b: word, c: word, d: word)

  // Section 3.3: the initial value of the four-word buffer.
  const INITIAL := Regs(0x67452301, 0xefcdab89, 0x98badcfe, 0x10325476)

  function Complement(x: word): word { TWO_32 - 1 - x }

  // Section 3.4: the auxiliary functions.
  function F(x: word, y: word, z: word): nat { Or(And(x, y), And(Complement(x), z)) }

  function G(x: word, y: word, z: word): nat { Or(And(x, z), And(y, Complement(z))) }

  function H(x: word, y: word, z: word): nat { Xor(Xor(x, y), z) }

  function I(x: word, y: word, z: word): nat { Xor(y, Or(x, Complement(z))) }

  function Aux(n: nat, x: word, y: word, z: word): nat
    requires n < 64
  {
    if n < 16 then F(x, y, z)
    else if n < 32 then G(x, y, z)
    else if n < 48 then H(x, y, z)
    else I(x, y, z)
  }

  // The index k of the message word used by operation n.
  function WordIndex(n: nat): (k: nat)
    requires n < 64
    ensures k < 16
  {
    if n < 16 then n
    else if n < 32 then (1 + 5 * n) % 16
    else if n < 48 then (5 + 3 * n) % 16
    else (7 * n) % 16
  }

  // The rotation s of operation n.
  function Shift(n: nat): (s: nat)
    requires n < 64
    ensures 0 < s < 32
  {
    var column := n % 4;
    if n < 16 then
      if column == 0 then 7 else if column == 1 then 12 else if column == 2 then 17 else 22
    else if n < 32 then
      if column == 0 then 5 else if column == 1 then 9 else if column == 2 then 14 else 20
    else if n < 48 then
      if column == 0 then 4 else if column == 1 then 11 else if column == 2 then 16 else 23
    else
      if column == 0 then 6 else if column == 1 then 10 else if column == 2 then 15 else 21
  }

  // The table T of the RFC, counted from 0: entry n is the integer part of 2^32 * abs(sin(n + 1)).
  // It is kept as one function for each of the four rounds.
  function Sine(n: nat): word
    requires n < 64
  {
    if n < 16 then Sine1(n) else if n < 32 then Sine2(n - 16) else if n < 48 then Sine3(n - 32) else Sine4(n - 48)
  }

  function Sine1(n: nat): word
    requires n < 16
  {
    match n
    case 0 => 0xd76aa478
    case 1 => 0xe8c7b756
    case 2 => 0x242070db
    case 3 => 0xc1bdceee
    case 4 => 0xf57c0faf
    case 5 => 0x4787c62a
    case 6 => 0xa8304613
    case 7 => 0xfd469501
    case 8 => 0x698098d8
    case 9 => 0x8b44f7af
    case 10 => 0xffff5bb1
    case 11 => 0x895cd7be
    case 12 => 0x6b901122
    case 13 => 0xfd987193
    case 14 => 0xa679438e
    case _ => 0x49b40821
  }

  function Sine2(n: nat): word
    requires n < 16
  {
    match n
    case 0 => 0xf61e2562
    case 1 => 0xc040b340
    case 2 => 0x265e5a51
    case 3 => 0xe9b6c7aa
    case 4 => 0xd62f105d
    case 5 => 0x02441453
    case 6 => 0xd8a1e681
    case 7 => 0xe7d3fbc8
    case 8 => 0x21e1cde6
    case 9 => 0xc33707d6
    case 10 => 0xf4d50d87
    case 11 => 0x455a14ed
    case 12 => 0xa9e3e905
    case 13 => 0xfcefa3f8
    case 14 => 0x676f02d9
    case _ => 0x8d2a4c8a
  }

  function Sine3(n: nat): word
    requires n < 16
  {
    match n
    case 0 => 0xfffa3942
    case 1 => 0x8771f681
    case 2 => 0x6d9d6122
    case 3 => 0xfde5380c
    case 4 => 0xa4beea44
    case 5 => 0x4bdecfa9
    case 6 => 0xf6bb4b60
    case 7 => 0xbebfbc70
    case 8 => 0x289b7ec6
    case 9 => 0xeaa127fa
    case 10 => 0xd4ef3085
    case 11 => 0x04881d05
    case 12 => 0xd9d4d039
    case 13 => 0xe6db99e5
    case 14 => 0x1fa27cf8
    case _ => 0xc4ac5665
  }

  function Sine4(n: nat): word
    requires n < 16
  {
    match n
    case 0 => 0xf4292244
    case 1 => 0x432aff97
    case 2 => 0xab9423a7
    case 3 => 0xfc93a039
    case 4 => 0x655b59c3
    case 5 => 0x8f0ccc92
    case 6 => 0xffeff47d
    case 7 => 0x85845dd1
    case 8 => 0x6fa87e4f
    case 9 => 0xfe2ce6e0
    case 10 => 0xa3014314
    case 11 => 0x4e0811a1
    case 12 => 0xf7537e82
    case 13 => 0xbd3af235
    case 14 => 0x2ad7d2bb
    case _ => 0xeb86d391
  }

  // X <<< s of section 2: the s high bits of the word become its low bits.
  function CircularShift(w: word, s: nat): int
    requires s < 32
  {
    (w % Pow2(32 - s)) * Pow2(s) + w / Pow2(32 - s)
  }

  // One operation [abcd k s i], after which the registers are renamed so that the next one has
  // the same shape.
  function Operation(r: Regs, x: seq<word>, n: nat): Regs
    requires |x| == 16 && n < 64
  {
    var sum := (r.a + Aux(n, r.b, r.c, r.d) + x[WordIndex(n)] + Sine(n)) % TWO_32;
    Regs(r.d, (r.b + CircularShift(sum, Shift(n))) % TWO_32, r.b, r.c)
  }

  // The first n of the 64 operations.
  function Operations(r: Regs, x: seq<word>, n: nat): Regs
    requires |x| == 16 && n <= 64
  {
    if n == 0 then r else Operation(Operations(r, x, n - 1), x, n - 1)
  }

  function Sum(r: Regs, s: Regs): Regs {
    Regs((r.a + s.a) % TWO_32, (r.b + s.b) % TWO_32, (r.c + s.c) % TWO_32, (r.d + s.d) % TWO_32)
  }

  // One 16-word block.
  function Compress(r: Regs, x: seq<word>): Regs
    requires |x| == 16
  {
    Sum(Operations(r, x, 64), r)
  }

  // Section 2: a word is four bytes, low-order byte first.
  function Word(b0: byte, b1: byte, b2: byte, b3: byte): word {
    b0 + 0x100 * b1 + 0x1_0000 * b2 + 0x100_0000 * b3
  }

  function Words(block: seq<byte>): (x: seq<word>)
    requires |block| == 64
    ensures |x| == 16
  {
    seq(16, i requires 0 <= i < 16 => Word(block[4 * i], block[4 * i + 1], block[4 * i + 2], block[4 * i + 3]))
  }

  // All the complete blocks of a string of bytes, from the front.
  function Blocks(r: Regs, data: seq<byte>): Regs
    decreases |data|
  {
    if |data| < 64 then r
    else Blocks(Compress(r, Words(data[..64])), data[64..])
  }

  // The count low-order bytes of n, lowest first.
  function LittleBytes(n: nat, count: nat): (s: seq<byte>)
    ensures |s| == count
  {
    if count == 0 then [] else [n % 256] + LittleBytes(n / 256, count - 1)
  }

  function Zeros(n: nat): (z: seq<byte>)
    ensures |z| == n
  {
    seq(n, _ => 0)
  }

  // The 64-bit count of the bits in a message of so many bytes.
  function BitLength(length: nat): (s: seq<byte>)
    ensures |s| == 8
  {
    LittleBytes(8 * length % TWO_64, 8)
  }

  // Sections 3.1 and 3.2: a one bit, zero bits up to 448 modulo 512, then the 64-bit bit count.
  function Padding(length: nat): (s: seq<byte>) {
    [0x80] + Zeros((55 - length) % 64) + BitLength(length)
  }

  // Section 3.5.
  function Output(r: Regs): seq<byte> {
    LittleBytes(r.a, 4) + LittleBytes(r.b, 4) + LittleBytes(r.c, 4) + LittleBytes(r.d, 4)
  }

  function Digest(message: seq<byte>): seq<byte> {
    Output(Blocks(INITIAL, message + Padding(|message|)))
  }
}
