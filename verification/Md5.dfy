// The streaming MD5 of contrib/md5.c: a context whose registers, byte counter and 64-byte buffer
// are updated in place, with the round functions and the unrolled body of that file.
//
// Valid() ties the context to the message absorbed so far, and every method says what it does to
// that message; Final then delivers the digest that RFC 1321 gives to the whole of it.
module Md5 {
  import opened Basics
  import opened Bits
  import opened Md5Rfc

  // ---- The round functions and the macro STEP ----

  function FastF(x: word, y: word, z: word): nat { Xor(z, And(x, Xor(y, z))) }

  function FastG(x: word, y: word, z: word): nat { Xor(y, And(z, Xor(x, y))) }

  function FastH(x: word, y: word, z: word): nat { Xor(Xor(x, y), z) }

  function FastH2(x: word, y: word, z: word): nat { Xor(x, Xor(y, z)) }

  function FastI(x: word, y: word, z: word): nat { Xor(y, Or(x, Complement(z))) }

  function Wrap(x: nat): word { x % TWO_32 }

  // The rotation inside the macro STEP: two shifts and an or.
  function ShiftOr(w: word, s: nat): nat
    requires 0 < s < 32
  {
    Or(Wrap(ShiftLeft(w, s)), ShiftRight(w, 32 - s))
  }

  // The macro STEP, after its round function has been applied to (b, c, d).
  function Step(f: nat, a: word, b: word, x: word, t: word, s: nat): word
    requires 0 < s < 32
  {
    Wrap(ShiftOr(Wrap(a + Wrap(Wrap(f + x) + t)), s) + b)
  }

  // F and G were rewritten to do without an and-not, and H to be shared between two steps.
  lemma RoundFunctions(x: word, y: word, z: word)
    ensures FastF(x, y, z) == F(x, y, z)
    ensures FastG(x, y, z) == G(x, y, z)
    ensures FastH(x, y, z) == H(x, y, z) == FastH2(x, y, z)
    ensures FastI(x, y, z) == I(x, y, z)
  {
    Pow2Values();
    Select(32, x, y, z);
    Select(32, z, x, y);
    AndCommutes(x, z);
    AndCommutes(y, Complement(z));
    XorAssociates(x, y, z);
    hide And, Or, Xor, Pow2;
  }

  lemma StepValue(f: nat, a: word, b: word, x: word, t: word, s: nat)
    requires 0 < s < 32
    ensures Step(f, a, b, x, t, s) == (b + CircularShift((a + f + x + t) % TWO_32, s)) % TWO_32
  {
    SumWraps(a, f, x, t);
    Rotation((a + f + x + t) % TWO_32, s);
    hide ShiftOr, CircularShift;
  }

  lemma SumWraps(a: nat, f: nat, x: nat, t: nat)
    ensures Wrap(a + Wrap(Wrap(f + x) + t)) == (a + f + x + t) % TWO_32
  {
    var u := Wrap(f + x);
    assert Wrap(u + t) == (f + x + t) % TWO_32;
    var v := Wrap(u + t);
    assert (f + x + t) - v == TWO_32 * ((f + x + t) / TWO_32);
  }

  lemma Rotation(w: word, s: nat)
    requires 0 < s < 32
    ensures ShiftOr(w, s) == CircularShift(w, s)
  {
    var p, q := Pow2(s), Pow2(32 - s);
    Pow2Sum(s, 32 - s);
    Pow2Values();
    ShiftLeftIsProduct(w, s);
    ShiftRightIsQuotient(w, 32 - s);
    ShiftOut(w, p, q);
    hide Pow2, Or, ShiftLeft, ShiftRight;
    var high: nat, low: nat := w % q, w / q;
    OrIsSum(s, high, low, p);
  }

  lemma ShiftOut(w: nat, p: nat, q: nat)
    requires p > 0 && q > 0 && p * q == TWO_32 && w < TWO_32
    ensures (w * p) % TWO_32 == (w % q) * p && w / q < p
  {
    var h, l := w / q, w % q;
    assert w == q * h + l;
    assert w * p == h * TWO_32 + l * p by {
      assert w * p == (q * h) * p + l * p;
      assert (q * h) * p == h * (p * q);
    }
    assert l * p < TWO_32 by {
      assert l + 1 <= q;
      assert (l + 1) * p <= q * p;
    }
    UniqueRemainder(w * p, TWO_32, h, l * p);
    assert h >= p ==> q * h >= q * p;
  }

  // A STEP on registers (a, b, c, d) is operation n of the RFC.
  lemma StepIsOperation(s0: Regs, x: seq<word>, n: nat, a: word, b: word, c: word, d: word)
    requires |x| == 16 && n < 64
    requires Operations(s0, x, n) == Regs(a, b, c, d)
    ensures Operations(s0, x, n + 1)
            == Regs(d, Step(Aux(n, b, c, d), a, b, x[WordIndex(n)], Sine(n), Shift(n)), b, c)
  {
    hide Sine, WordIndex, Aux, Shift, CircularShift, Step;
    StepValue(Aux(n, b, c, d), a, b, x[WordIndex(n)], Sine(n), Shift(n));
  }

  // ---- The block function ----

  // The macro SET: four bytes, little-endian.
  function Get(data: array<byte>, ptr: nat, n: nat): nat
    requires n < 16 && ptr + 64 <= data.Length
    reads data
  {
    var p := ptr + 4 * n;
    Or(Or(Or(data[p], ShiftLeft(data[p + 1], 8)), ShiftLeft(data[p + 2], 16)), ShiftLeft(data[p + 3], 24))
  }

  lemma GetIsWord(data: array<byte>, ptr: nat, n: nat)
    requires n < 16 && ptr + 64 <= data.Length
    ensures Get(data, ptr, n) == Words(data[ptr..ptr + 64])[n]
  {
    var p := ptr + 4 * n;
    var block := data[ptr..ptr + 64];
    assert block[4 * n] == data[p] && block[4 * n + 1] == data[p + 1];
    assert block[4 * n + 2] == data[p + 2] && block[4 * n + 3] == data[p + 3];
    OrIsWord(data[p], data[p + 1], data[p + 2], data[p + 3]);
  }

  lemma OrIsWord(b0: byte, b1: byte, b2: byte, b3: byte)
    ensures Or(Or(Or(b0, ShiftLeft(b1, 8)), ShiftLeft(b2, 16)), ShiftLeft(b3, 24)) == Word(b0, b1, b2, b3)
  {
    Pow2Values();
    hide Or, ShiftLeft, Pow2;
    OrByte(8, 0x100, b0, b1);
    OrByte(16, 0x1_0000, b0 + 0x100 * b1, b2);
    OrByte(24, 0x100_0000, b0 + 0x100 * b1 + 0x1_0000 * b2, b3);
  }

  lemma OrByte(n: nat, p: nat, low: nat, b: nat)
    requires p == Pow2(n) && low < p
    ensures Or(low, ShiftLeft(b, n)) == low + p * b
  {
    ShiftLeftIsProduct(b, n);
    OrIsSum(n, b, low, p);
    OrCommutes(low, ShiftLeft(b, n));
  }

  lemma StepF(r: Regs, x: seq<word>, n: nat, a: word, b: word, c: word, d: word)
    requires |x| == 16 && 0 <= n < 16 && Operations(r, x, n) == Regs(a, b, c, d)
    ensures Operations(r, x, n + 1)
            == Regs(d, Step(FastF(b, c, d), a, b, x[WordIndex(n)], Sine(n), Shift(n)), b, c)
  {
    RoundFunctions(b, c, d);
    StepIsOperation(r, x, n, a, b, c, d);
    hide Step, Operations, FastF, FastG, FastH, FastH2, FastI, F, G, H, I;
  }

  lemma StepG(r: Regs, x: seq<word>, n: nat, a: word, b: word, c: word, d: word)
    requires |x| == 16 && 16 <= n < 32 && Operations(r, x, n) == Regs(a, b, c, d)
    ensures Operations(r, x, n + 1)
            == Regs(d, Step(FastG(b, c, d), a, b, x[WordIndex(n)], Sine(n), Shift(n)), b, c)
  {
    RoundFunctions(b, c, d);
    StepIsOperation(r, x, n, a, b, c, d);
    hide Step, Operations, FastF, FastG, FastH, FastH2, FastI, F, G, H, I;
  }

  lemma StepH(r: Regs, x: seq<word>, n: nat, a: word, b: word, c: word, d: word)
    requires |x| == 16 && 32 <= n < 48 && Operations(r, x, n) == Regs(a, b, c, d)
    ensures Operations(r, x, n + 1)
            == Regs(d, Step(FastH(b, c, d), a, b, x[WordIndex(n)], Sine(n), Shift(n)), b, c)
    ensures FastH(b, c, d) == FastH2(b, c, d)
  {
    RoundFunctions(b, c, d);
    StepIsOperation(r, x, n, a, b, c, d);
    hide Step, Operations, FastF, FastG, FastH, FastH2, FastI, F, G, H, I;
  }

  lemma StepI(r: Regs, x: seq<word>, n: nat, a: word, b: word, c: word, d: word)
    requires |x| == 16 && 48 <= n < 64 && Operations(r, x, n) == Regs(a, b, c, d)
    ensures Operations(r, x, n + 1)
            == Regs(d, Step(FastI(b, c, d), a, b, x[WordIndex(n)], Sine(n), Shift(n)), b, c)
  {
    RoundFunctions(b, c, d);
    StepIsOperation(r, x, n, a, b, c, d);
    hide Step, Operations, FastF, FastG, FastH, FastH2, FastI, F, G, H, I;
  }

  // Round 1 of body: sixteen unrolled steps, the register names rotating from line to line. Each
  // line first appeals to the lemma that its step is the next operation of the RFC.
  method Round1(ghost r: Regs, x: seq<word>, before: Regs) returns (after: Regs)
    requires |x| == 16 && before == Operations(r, x, 0)
    ensures after == Operations(r, x, 16)
  {
    var a, b, c, d := before.a, before.b, before.c, before.d;
    hide Step, Operations, FastF, FastG, FastH, FastH2, FastI;
    StepF(r, x, 0, a, b, c, d);
    a := Step(FastF(b, c, d), a, b, x[0], 0xd76aa478, 7);
    StepF(r, x, 1, d, a, b, c);
    d := Step(FastF(a, b, c), d, a, x[1], 0xe8c7b756, 12);
    StepF(r, x, 2, c, d, a, b);
    c := Step(FastF(d, a, b), c, d, x[2], 0x242070db, 17);
    StepF(r, x, 3, b, c, d, a);
    b := Step(FastF(c, d, a), b, c, x[3], 0xc1bdceee, 22);
    StepF(r, x, 4, a, b, c, d);
    a := Step(FastF(b, c, d), a, b, x[4], 0xf57c0faf, 7);
    StepF(r, x, 5, d, a, b, c);
    d := Step(FastF(a, b, c), d, a, x[5], 0x4787c62a, 12);
    StepF(r, x, 6, c, d, a, b);
    c := Step(FastF(d, a, b), c, d, x[6], 0xa8304613, 17);
    StepF(r, x, 7, b, c, d, a);
    b := Step(FastF(c, d, a), b, c, x[7], 0xfd469501, 22);
    StepF(r, x, 8, a, b, c, d);
    a := Step(FastF(b, c, d), a, b, x[8], 0x698098d8, 7);
    StepF(r, x, 9, d, a, b, c);
    d := Step(FastF(a, b, c), d, a, x[9], 0x8b44f7af, 12);
    StepF(r, x, 10, c, d, a, b);
    c := Step(FastF(d, a, b), c, d, x[10], 0xffff5bb1, 17);
    StepF(r, x, 11, b, c, d, a);
    b := Step(FastF(c, d, a), b, c, x[11], 0x895cd7be, 22);
    StepF(r, x, 12, a, b, c, d);
    a := Step(FastF(b, c, d), a, b, x[12], 0x6b901122, 7);
    StepF(r, x, 13, d, a, b, c);
    d := Step(FastF(a, b, c), d, a, x[13], 0xfd987193, 12);
    StepF(r, x, 14, c, d, a, b);
    c := Step(FastF(d, a, b), c, d, x[14], 0xa679438e, 17);
    StepF(r, x, 15, b, c, d, a);
    b := Step(FastF(c, d, a), b, c, x[15], 0x49b40821, 22);
    after := Regs(a, b, c, d);
  }

  // Round 2 of body: sixteen unrolled steps, the register names rotating from line to line. Each
  // line first appeals to the lemma that its step is the next operation of the RFC.
  method Round2(ghost r: Regs, x: seq<word>, before: Regs) returns (after: Regs)
    requires |x| == 16 && before == Operations(r, x, 16)
    ensures after == Operations(r, x, 32)
  {
    var a, b, c, d := before.a, before.b, before.c, before.d;
    hide Step, Operations, FastF, FastG, FastH, FastH2, FastI;
    StepG(r, x, 16, a, b, c, d);
    a := Step(FastG(b, c, d), a, b, x[1], 0xf61e2562, 5);
    StepG(r, x, 17, d, a, b, c);
    d := Step(FastG(a, b, c), d, a, x[6], 0xc040b340, 9);
    StepG(r, x, 18, c, d, a, b);
    c := Step(FastG(d, a, b), c, d, x[11], 0x265e5a51, 14);
    StepG(r, x, 19, b, c, d, a);
    b := Step(FastG(c, d, a), b, c, x[0], 0xe9b6c7aa, 20);
    StepG(r, x, 20, a, b, c, d);
    a := Step(FastG(b, c, d), a, b, x[5], 0xd62f105d, 5);
    StepG(r, x, 21, d, a, b, c);
    d := Step(FastG(a, b, c), d, a, x[10], 0x02441453, 9);
    StepG(r, x, 22, c, d, a, b);
    c := Step(FastG(d, a, b), c, d, x[15], 0xd8a1e681, 14);
    StepG(r, x, 23, b, c, d, a);
    b := Step(FastG(c, d, a), b, c, x[4], 0xe7d3fbc8, 20);
    StepG(r, x, 24, a, b, c, d);
    a := Step(FastG(b, c, d), a, b, x[9], 0x21e1cde6, 5);
    StepG(r, x, 25, d, a, b, c);
    d := Step(FastG(a, b, c), d, a, x[14], 0xc33707d6, 9);
    StepG(r, x, 26, c, d, a, b);
    c := Step(FastG(d, a, b), c, d, x[3], 0xf4d50d87, 14);
    StepG(r, x, 27, b, c, d, a);
    b := Step(FastG(c, d, a), b, c, x[8], 0x455a14ed, 20);
    StepG(r, x, 28, a, b, c, d);
    a := Step(FastG(b, c, d), a, b, x[13], 0xa9e3e905, 5);
    StepG(r, x, 29, d, a, b, c);
    d := Step(FastG(a, b, c), d, a, x[2], 0xfcefa3f8, 9);
    StepG(r, x, 30, c, d, a, b);
    c := Step(FastG(d, a, b), c, d, x[7], 0x676f02d9, 14);
    StepG(r, x, 31, b, c, d, a);
    b := Step(FastG(c, d, a), b, c, x[12], 0x8d2a4c8a, 20);
    after := Regs(a, b, c, d);
  }

  // Round 3 of body: sixteen unrolled steps, the register names rotating from line to line. Each
  // line first appeals to the lemma that its step is the next operation of the RFC.
  method Round3(ghost r: Regs, x: seq<word>, before: Regs) returns (after: Regs)
    requires |x| == 16 && before == Operations(r, x, 32)
    ensures after == Operations(r, x, 48)
  {
    var a, b, c, d := before.a, before.b, before.c, before.d;
    hide Step, Operations, FastF, FastG, FastH, FastH2, FastI;
    StepH(r, x, 32, a, b, c, d);
    a := Step(FastH(b, c, d), a, b, x[5], 0xfffa3942, 4);
    StepH(r, x, 33, d, a, b, c);
    d := Step(FastH2(a, b, c), d, a, x[8], 0x8771f681, 11);
    StepH(r, x, 34, c, d, a, b);
    c := Step(FastH(d, a, b), c, d, x[11], 0x6d9d6122, 16);
    StepH(r, x, 35, b, c, d, a);
    b := Step(FastH2(c, d, a), b, c, x[14], 0xfde5380c, 23);
    StepH(r, x, 36, a, b, c, d);
    a := Step(FastH(b, c, d), a, b, x[1], 0xa4beea44, 4);
    StepH(r, x, 37, d, a, b, c);
    d := Step(FastH2(a, b, c), d, a, x[4], 0x4bdecfa9, 11);
    StepH(r, x, 38, c, d, a, b);
    c := Step(FastH(d, a, b), c, d, x[7], 0xf6bb4b60, 16);
    StepH(r, x, 39, b, c, d, a);
    b := Step(FastH2(c, d, a), b, c, x[10], 0xbebfbc70, 23);
    StepH(r, x, 40, a, b, c, d);
    a := Step(FastH(b, c, d), a, b, x[13], 0x289b7ec6, 4);
    StepH(r, x, 41, d, a, b, c);
    d := Step(FastH2(a, b, c), d, a, x[0], 0xeaa127fa, 11);
    StepH(r, x, 42, c, d, a, b);
    c := Step(FastH(d, a, b), c, d, x[3], 0xd4ef3085, 16);
    StepH(r, x, 43, b, c, d, a);
    b := Step(FastH2(c, d, a), b, c, x[6], 0x04881d05, 23);
    StepH(r, x, 44, a, b, c, d);
    a := Step(FastH(b, c, d), a, b, x[9], 0xd9d4d039, 4);
    StepH(r, x, 45, d, a, b, c);
    d := Step(FastH2(a, b, c), d, a, x[12], 0xe6db99e5, 11);
    StepH(r, x, 46, c, d, a, b);
    c := Step(FastH(d, a, b), c, d, x[15], 0x1fa27cf8, 16);
    StepH(r, x, 47, b, c, d, a);
    b := Step(FastH2(c, d, a), b, c, x[2], 0xc4ac5665, 23);
    after := Regs(a, b, c, d);
  }

  // Round 4 of body: sixteen unrolled steps, the register names rotating from line to line. Each
  // line first appeals to the lemma that its step is the next operation of the RFC.
  method Round4(ghost r: Regs, x: seq<word>, before: Regs) returns (after: Regs)
    requires |x| == 16 && before == Operations(r, x, 48)
    ensures after == Operations(r, x, 64)
  {
    var a, b, c, d := before.a, before.b, before.c, before.d;
    hide Step, Operations, FastF, FastG, FastH, FastH2, FastI;
    StepI(r, x, 48, a, b, c, d);
    a := Step(FastI(b, c, d), a, b, x[0], 0xf4292244, 6);
    StepI(r, x, 49, d, a, b, c);
    d := Step(FastI(a, b, c), d, a, x[7], 0x432aff97, 10);
    StepI(r, x, 50, c, d, a, b);
    c := Step(FastI(d, a, b), c, d, x[14], 0xab9423a7, 15);
    StepI(r, x, 51, b, c, d, a);
    b := Step(FastI(c, d, a), b, c, x[5], 0xfc93a039, 21);
    StepI(r, x, 52, a, b, c, d);
    a := Step(FastI(b, c, d), a, b, x[12], 0x655b59c3, 6);
    StepI(r, x, 53, d, a, b, c);
    d := Step(FastI(a, b, c), d, a, x[3], 0x8f0ccc92, 10);
    StepI(r, x, 54, c, d, a, b);
    c := Step(FastI(d, a, b), c, d, x[10], 0xffeff47d, 15);
    StepI(r, x, 55, b, c, d, a);
    b := Step(FastI(c, d, a), b, c, x[1], 0x85845dd1, 21);
    StepI(r, x, 56, a, b, c, d);
    a := Step(FastI(b, c, d), a, b, x[8], 0x6fa87e4f, 6);
    StepI(r, x, 57, d, a, b, c);
    d := Step(FastI(a, b, c), d, a, x[15], 0xfe2ce6e0, 10);
    StepI(r, x, 58, c, d, a, b);
    c := Step(FastI(d, a, b), c, d, x[6], 0xa3014314, 15);
    StepI(r, x, 59, b, c, d, a);
    b := Step(FastI(c, d, a), b, c, x[13], 0x4e0811a1, 21);
    StepI(r, x, 60, a, b, c, d);
    a := Step(FastI(b, c, d), a, b, x[4], 0xf7537e82, 6);
    StepI(r, x, 61, d, a, b, c);
    d := Step(FastI(a, b, c), d, a, x[11], 0xbd3af235, 10);
    StepI(r, x, 62, c, d, a, b);
    c := Step(FastI(d, a, b), c, d, x[2], 0x2ad7d2bb, 15);
    StepI(r, x, 63, b, c, d, a);
    b := Step(FastI(c, d, a), b, c, x[9], 0xeb86d391, 21);
    after := Regs(a, b, c, d);
  }

  // ---- Splitting a message into blocks ----

  lemma {:induction false} BlocksSplit(r: Regs, x: seq<byte>, y: seq<byte>)
    requires |x| % 64 == 0
    ensures Blocks(r, x + y) == Blocks(Blocks(r, x), y)
    decreases |x|
  {
    hide Compress, Words;
    if x == [] {
      assert x + y == y;
    } else {
      assert (x + y)[..64] == x[..64] && (x + y)[64..] == x[64..] + y;
      BlocksSplit(Compress(r, Words(x[..64])), x[64..], y);
    }
  }

  lemma OneBlock(r: Regs, x: seq<byte>)
    requires |x| == 64
    ensures Blocks(r, x) == Compress(r, Words(x))
  {
    assert x[..64] == x;
  }

  // The part of a message that is still waiting in the buffer.
  function Tail(message: seq<byte>): (tail: seq<byte>)
    ensures |tail| < 64
  {
    message[|message| - |message| % 64..]
  }

  // Adding data to a message: the blocks done so far stand, the tail is completed first.
  lemma TailGrows(r: Regs, message: seq<byte>, data: seq<byte>)
    ensures Blocks(r, message + data) == Blocks(Blocks(r, message), Tail(message) + data)
    ensures Tail(message + data) == Tail(Tail(message) + data)
  {
    var m := |message| - |message| % 64;
    var done, tail := message[..m], Tail(message);
    assert message == done + tail;
    assert message + data == done + (tail + data);
    SplitTail(done, tail + data);
    hide Tail;
    BlocksSplit(r, done, tail);
    BlocksSplit(r, done, tail + data);
    ShortIsNoBlock(Blocks(r, done), tail);
  }

  lemma SplitTail(done: seq<byte>, rest: seq<byte>)
    requires |done| % 64 == 0
    ensures Tail(done + rest) == Tail(rest)
  {
    var u := |rest| % 64;
    assert (|done| + |rest|) % 64 == u;
    assert (done + rest)[|done| + |rest| - u..] == rest[|rest| - u..];
  }

  lemma TailLength(message: seq<byte>)
    ensures |Tail(message)| == |message| % 64
  {
  }

  lemma WholeBlock(n: nat)
    requires n == 0 || n == 64
    ensures n % 64 == 0
  {
  }

  lemma SameRemainder(whole: nat, rest: nat)
    requires whole == 0 || whole == 64
    ensures (whole + rest) % 64 == rest % 64
  {
  }

  lemma ShortIsTail(x: seq<byte>)
    requires |x| < 64
    ensures Tail(x) == x
  {
  }

  lemma ShortIsNoBlock(r: Regs, x: seq<byte>)
    requires |x| < 64
    ensures Blocks(r, x) == r
  {
  }

  // The padding fits behind the tail, or takes one more block.
  lemma PaddedBlocks(m: seq<byte>)
    ensures var r, tail, length := Blocks(INITIAL, m), Tail(m), BitLength(|m|);
      Blocks(INITIAL, m + Padding(|m|))
      == if |tail| <= 55 then Blocks(r, tail + [0x80] + Zeros(55 - |tail|) + length)
         else Blocks(Blocks(r, tail + [0x80] + Zeros(63 - |tail|)), Zeros(56) + length)
  {
    hide *;
    TailLength(m);
    PaddingParts(|m|, |Tail(m)|);
    TailGrows(INITIAL, m, Padding(|m|));
    PaddedTail(Blocks(INITIAL, m), Tail(m), Padding(|m|), BitLength(|m|));
  }

  lemma PaddedTail(r: Regs, tail: seq<byte>, pad: seq<byte>, length: seq<byte>)
    requires |length| == 8 && |tail| < 64
    requires pad == [0x80] + Zeros(if |tail| <= 55 then 55 - |tail| else 119 - |tail|) + length
    ensures Blocks(r, tail + pad)
      == if |tail| <= 55 then Blocks(r, tail + [0x80] + Zeros(55 - |tail|) + length)
         else Blocks(Blocks(r, tail + [0x80] + Zeros(63 - |tail|)), Zeros(56) + length)
  {
    hide Blocks;
    var u := |tail|;
    if u <= 55 {
      assert tail + pad == tail + [0x80] + Zeros(55 - u) + length;
    } else {
      var first, second := tail + [0x80] + Zeros(63 - u), Zeros(56) + length;
      assert tail + pad == first + second;
      BlocksSplit(r, first, second);
    }
  }

  lemma PaddingParts(n: nat, u: nat)
    requires u == n % 64
    ensures Padding(n) == [0x80] + Zeros(if u <= 55 then 55 - u else 119 - u) + BitLength(n)
  {
    hide BitLength, Zeros;
    ZeroCount(n, u);
  }

  lemma ZeroCount(n: nat, u: nat)
    requires u == n % 64
    ensures (55 - n) % 64 == if u <= 55 then 55 - u else 119 - u
  {
  }

  // The bits at offset 56 of the last block: lo holds the byte count modulo 2^29, hi the rest
  // modulo 2^32, which makes their concatenation the bit count modulo 2^64.
  lemma LengthField(n: nat, lo: nat, hi: nat)
    requires lo == n % TWO_29 && hi == (n / TWO_29) % TWO_32
    ensures LittleBytes(Wrap(ShiftLeft(lo, 3)), 4) + LittleBytes(hi, 4) == BitLength(n)
  {
    hide LittleBytes, ShiftLeft, Wrap;
    TimesEight(lo);
    BitCount(n, lo, hi);
    EightBytes(8 * lo, hi);
  }

  lemma TimesEight(lo: nat)
    requires lo < TWO_29
    ensures Wrap(ShiftLeft(lo, 3)) == 8 * lo
  {
    assert ShiftLeft(lo, 3) == ShiftLeft(2 * lo, 2) == ShiftLeft(4 * lo, 1) == ShiftLeft(8 * lo, 0);
  }

  lemma BitCount(n: nat, lo: nat, hi: nat)
    requires lo == n % TWO_29 && hi == (n / TWO_29) % TWO_32
    ensures 8 * n % TWO_64 == TWO_32 * hi + 8 * lo
  {
    var q := n / TWO_29;
    assert 8 * n == TWO_32 * q + 8 * lo;
    assert q == TWO_32 * (q / TWO_32) + hi;
  }

  lemma EightBytes(low: nat, high: nat)
    requires low < TWO_32
    ensures LittleBytes(low, 4) + LittleBytes(high, 4) == LittleBytes(TWO_32 * high + low, 8)
  {
    hide LittleBytes;
    var p1, p2, p3 := low / 256, low / 256 / 256, low / 256 / 256 / 256;
    LittleBytesStep(low, 3);
    LittleBytesStep(p1, 2);
    LittleBytesStep(p2, 1);
    LittleBytesStep(p3, 0);
    LittleBytesEnd(p3 / 256);
    LittleBytesStep(TWO_32 * high + low, 7);
    LittleBytesStep(0x100_0000 * high + p1, 6);
    LittleBytesStep(0x1_0000 * high + p2, 5);
    LittleBytesStep(0x100 * high + p3, 4);
    NextByte(low, 0x100_0000 * high);
    NextByte(p1, 0x1_0000 * high);
    NextByte(p2, 0x100 * high);
    NextByte(p3, high);
    var b0, b1, b2, b3 := low % 256, p1 % 256, p2 % 256, p3 % 256;
    assert LittleBytes(low, 4) == [b0, b1, b2, b3];
    assert LittleBytes(TWO_32 * high + low, 8) == [b0] + ([b1] + ([b2] + ([b3] + LittleBytes(high, 4))));
  }

  lemma NextByte(low: nat, rest: nat)
    ensures (256 * rest + low) % 256 == low % 256 && (256 * rest + low) / 256 == rest + low / 256
  {
  }

  lemma LittleBytesEnd(n: nat)
    ensures LittleBytes(n, 0) == []
  {
  }

  lemma LittleBytesStep(n: nat, count: nat)
    ensures LittleBytes(n, count + 1) == [n % 256] + LittleBytes(n / 256, count)
  {
  }

  // One turn of the loop of body.
  method Transform(r: Regs, data: array<byte>, ptr: nat) returns (after: Regs)
    requires ptr + 64 <= data.Length
    ensures after == Compress(r, Words(data[ptr..ptr + 64]))
  {
    ghost var words := Words(data[ptr..ptr + 64]);
    var x: seq<word> := [];
    hide Words, Get, Operations;
    for n := 0 to 16
      invariant |x| == n && x == words[..n]
    {
      GetIsWord(data, ptr, n);
      x := x + [Get(data, ptr, n)];
    }
    assert x == words;
    assert Operations(r, x, 0) == r by {
      NoOperation(r, x);
    }
    var r1 := Round1(r, x, r);
    var r2 := Round2(r, x, r1);
    var r3 := Round3(r, x, r2);
    var r4 := Round4(r, x, r3);
    after := Sum(r4, r);
  }

  lemma NoOperation(r: Regs, x: seq<word>)
    requires |x| == 16
    ensures Operations(r, x, 0) == r
  {
  }

  // ---- The context ----

  const TWO_29: nat := 0x2000_0000

  method Copy(src: array<byte>, from: nat, dst: array<byte>, to: nat, count: nat)
    requires from + count <= src.Length && to + count <= dst.Length && src != dst
    modifies dst
    ensures dst[..] == old(dst[..to]) + src[from..from + count] + old(dst[to + count..])
  {
    forall i | 0 <= i < count {
      dst[to + i] := src[from + i];
    }
  }

  method Fill(dst: array<byte>, to: nat, count: nat)
    requires to + count <= dst.Length
    modifies dst
    ensures dst[..] == old(dst[..to]) + Zeros(count) + old(dst[to + count..])
  {
    forall i | 0 <= i < count {
      dst[to + i] := 0;
    }
  }

  method Out(dst: array<byte>, to: nat, n: word)
    requires to + 4 <= dst.Length
    modifies dst
    ensures dst[..] == old(dst[..to]) + LittleBytes(n, 4) + old(dst[to + 4..])
  {
    dst[to] := n % 0x100;
    dst[to + 1] := n / 0x100 % 0x100;
    dst[to + 2] := n / 0x1_0000 % 0x100;
    dst[to + 3] := n / 0x100_0000;
    LittleBytesOfWord(n);
  }

  lemma LittleBytesOfWord(n: word)
    ensures LittleBytes(n, 4) == [n % 0x100, n / 0x100 % 0x100, n / 0x1_0000 % 0x100, n / 0x100_0000]
  {
    hide LittleBytes;
    var m := n / 0x100 / 0x100;
    assert m == n / 0x1_0000 && m / 0x100 == n / 0x100_0000;
    LittleBytesStep(n, 3);
    LittleBytesStep(n / 0x100, 2);
    LittleBytesStep(m, 1);
    LittleBytesStep(m / 0x100, 0);
    LittleBytesEnd(m / 0x100 / 0x100);
  }

  class Context {
    var lo: word
    var hi: word
    var a: word
    var b: word
    var c: word
    var d: word
    const buffer: array<byte>

    ghost var message: seq<byte>

    ghost function Registers(): Regs
      reads this
    {
      Regs(a, b, c, d)
    }

    ghost predicate Valid()
      reads this, buffer
    {
      && buffer.Length == 64
      && lo == |message| % TWO_29
      && hi == (|message| / TWO_29) % TWO_32
      && Registers() == Blocks(INITIAL, message)
      && buffer[..|message| % 64] == Tail(message)
    }

    // MD5_Init, on a buffer whose contents do not matter.
    constructor ()
      ensures Valid() && fresh(buffer)
      ensures message == []
    {
      a, b, c, d := 0x67452301, 0xefcdab89, 0x98badcfe, 0x10325476;
      lo, hi := 0, 0;
      buffer := new byte[64];
      message := [];
    }

    // body: one or more 64-byte blocks, without touching the counters.
    method Body(data: array<byte>, start: nat, size: nat) returns (next: nat)
      requires size > 0 && size % 64 == 0 && start + size <= data.Length
      modifies this`a, this`b, this`c, this`d
      ensures Registers() == Blocks(old(Registers()), data[start..start + size])
      ensures next == start + size
    {
      hide Compress, Words;
      var ptr, left := start, size;
      var r := Regs(a, b, c, d);
      while left != 0
        invariant start <= ptr && left == start + size - ptr && left % 64 == 0
        invariant (ptr - start) % 64 == 0
        invariant r == Blocks(old(Registers()), data[start..ptr])
      {
        BlocksSplit(old(Registers()), data[start..ptr], data[ptr..ptr + 64]);
        OneBlock(r, data[ptr..ptr + 64]);
        assert data[start..ptr] + data[ptr..ptr + 64] == data[start..ptr + 64];
        r := Transform(r, data, ptr);
        ptr, left := ptr + 64, left - 64;
      }
      a, b, c, d := r.a, r.b, r.c, r.d;
      next := ptr;
    }

    method Update(data: array<byte>, size: nat)
      requires Valid() && size <= data.Length && size < TWO_64 && data != buffer
      modifies this, buffer
      ensures Valid()
      ensures message == old(message) + data[..size]
    {
      hide Blocks, Tail;
      TailLength(message);
      var used := Count(|message|, size);
      TailGrows(INITIAL, message, data[..size]);
      Absorb(data, size, used, Tail(message));
      message := message + data[..size];
    }

    // The counting in MD5_Update. The 64-bit sum of lo and size is cut to 29 bits, and a carry out
    // of them shows as a result smaller than lo was.
    method Count(ghost n: nat, size: nat) returns (used: nat)
      requires lo == n % TWO_29 && hi == (n / TWO_29) % TWO_32 && size < TWO_64
      modifies this`lo, this`hi
      ensures lo == (n + size) % TWO_29 && hi == ((n + size) / TWO_29) % TWO_32
      ensures used == n % 64 && (n + size) % 64 == (used + size) % 64
    {
      hide Wrap;
      var savedLo := lo;
      lo := (savedLo + size) % TWO_64 % TWO_29;
      if lo < savedLo {
        hi := Wrap(hi + 1);
      }
      hi := Wrap(hi + size / TWO_29);
      used := savedLo % 64;
      CountGrows(n, size, savedLo, old(hi), lo, hi);
      UsedBytes(n, size);
    }

    // The part of MD5_Update that moves bytes: the tail waiting in the buffer is completed and
    // digested, whole blocks are digested where they lie, the rest is kept.
    method Absorb(data: array<byte>, size: nat, used: nat, ghost tail: seq<byte>)
      requires buffer.Length == 64 && size <= data.Length && data != buffer
      requires used < 64 && buffer[..used] == tail
      modifies this`a, this`b, this`c, this`d, buffer
      ensures Registers() == Blocks(old(Registers()), tail + data[..size])
      ensures buffer[..(used + size) % 64] == Tail(tail + data[..size])
    {
      hide Blocks, Tail;
      var from, left := 0, size;
      if used != 0 {
        var available := 64 - used;
        if size < available {
          Copy(data, 0, buffer, used, size);
          assert tail + data[..size] == buffer[..used + size];
          ShortIsNoBlock(Registers(), buffer[..used + size]);
          ShortIsTail(buffer[..used + size]);
          return;
        }
        Copy(data, 0, buffer, used, available);
        from, left := available, size - available;
        assert buffer[..64] == tail + data[..available];
        var _ := Body(buffer, 0, 64);
      } else {
        ShortIsNoBlock(Registers(), tail);
        assert tail + data[..from] == tail;
      }
      ghost var first, part := tail + data[..from], data[from..from + left];
      assert first + part == tail + data[..size];
      WholeBlock(used + from);
      BlocksSplit(old(Registers()), first, part);
      SplitTail(first, part);
      Remainder(data, from, left);
      SameRemainder(used + from, left);
    }

    // The end of MD5_Update, when what came before is a number of whole blocks.
    method Remainder(data: array<byte>, start: nat, size: nat)
      requires buffer.Length == 64 && start + size <= data.Length && data != buffer
      modifies this`a, this`b, this`c, this`d, buffer
      ensures Registers() == Blocks(old(Registers()), data[start..start + size])
      ensures buffer[..size % 64] == Tail(data[start..start + size])
    {
      hide Blocks, Tail;
      ghost var part := data[start..start + size];
      var from, rest := start, size % 64;
      WholeBlocks(Registers(), part, rest);
      if size >= 64 {
        from := Body(data, from, size - rest);
        assert data[start..from] == part[..size - rest];
      }
      assert data[from..from + rest] == part[size - rest..];
      Copy(data, from, buffer, 0, rest);
    }

    // MD5_Final. The context is wiped.
    method Final(result: array<byte>)
      requires Valid() && result.Length == 16 && result != buffer
      modifies this, buffer, result
      ensures result[..] == Digest(old(message))
      ensures lo == hi == a == b == c == d == 0 && buffer[..] == Zeros(64)
    {
      hide Blocks, Tail, LittleBytes, BitLength, Padding, Output, Wrap, ShiftLeft;
      var used := lo % 64;
      UsedBytes(|message|, 0);
      ghost var tail, length := Tail(message), BitLength(|message|);
      LengthField(|message|, lo, hi);
      PaddedBlocks(message);
      assert |tail| == used by {
        TailLength(message);
      }
      buffer[used] := 0x80;
      used := used + 1;
      assert buffer[..used] == tail + [0x80];
      var available := 64 - used;
      if available < 8 {
        Fill(buffer, used, available);
        assert buffer[..] == buffer[0..64] == tail + [0x80] + Zeros(available);
        var _ := Body(buffer, 0, 64);
        used, available := 0, 64;
      }
      ghost var front := buffer[..used];
      assert front == if |tail| <= 55 then tail + [0x80] else [];
      assert [] + Zeros(56) + length == Zeros(56) + length;
      LastBlock(used, available, front, length);
      WriteResult(result);
      Fill(buffer, 0, 64);
      lo, hi, a, b, c, d := 0, 0, 0, 0, 0, 0;
    }

    method LastBlock(used: nat, available: nat, ghost front: seq<byte>, ghost length: seq<byte>)
      requires buffer.Length == 64 && used + available == 64 && available >= 8
      requires buffer[..used] == front
      requires LittleBytes(Wrap(ShiftLeft(lo, 3)), 4) + LittleBytes(hi, 4) == length
      modifies this, buffer
      ensures Registers() == Blocks(old(Registers()), front + Zeros(available - 8) + length)
    {
      hide Blocks, LittleBytes, Wrap, ShiftLeft;
      Fill(buffer, used, available - 8);
      lo := Wrap(ShiftLeft(lo, 3));
      Out(buffer, 56, lo);
      Out(buffer, 60, hi);
      assert buffer[..] == buffer[0..64] == front + Zeros(available - 8) + length;
      var _ := Body(buffer, 0, 64);
    }

    method WriteResult(result: array<byte>)
      requires result.Length == 16
      modifies result
      ensures result[..] == Output(Registers())
    {
      hide LittleBytes;
      Out(result, 0, a);
      Out(result, 4, b);
      assert result[..8] == LittleBytes(a, 4) + LittleBytes(b, 4);
      Out(result, 8, c);
      assert result[..12] == LittleBytes(a, 4) + LittleBytes(b, 4) + LittleBytes(c, 4);
      Out(result, 12, d);
    }
  }

  lemma WholeBlocks(r: Regs, part: seq<byte>, rest: nat)
    requires rest == |part| % 64
    ensures Blocks(r, part) == Blocks(r, part[..|part| - rest])
    ensures Tail(part) == part[|part| - rest..]
    ensures |part| < 64 ==> rest == |part| && Blocks(r, part) == r
  {
    var w := |part| - rest;
    assert part == part[..w] + part[w..];
    BlocksSplit(r, part[..w], part[w..]);
    ShortIsNoBlock(Blocks(r, part[..w]), part[w..]);
  }

  lemma UsedBytes(n: nat, size: nat)
    ensures n % TWO_29 % 64 == n % 64 && (n + size) % 64 == (n % 64 + size) % 64
  {
  }

  // hi * 2^29 + lo goes on counting the bytes modulo 2^61.
  lemma CountGrows(n: nat, size: nat, savedLo: nat, savedHi: nat, lo: nat, hi: nat)
    requires savedLo == n % TWO_29 && savedHi == (n / TWO_29) % TWO_32
    requires lo == (savedLo + size) % TWO_64 % TWO_29
    requires hi == Wrap((if lo < savedLo then Wrap(savedHi + 1) else savedHi) + size / TWO_29)
    ensures lo == (n + size) % TWO_29 && hi == ((n + size) / TWO_29) % TWO_32
  {
    CutTo29Bits(savedLo + size);
    var q, k := n / TWO_29, size / TWO_29;
    var carry := if lo < savedLo then 1 else 0;
    CarryOut(n, size, lo, carry);
    WrapTwice(q, carry, k);
  }

  lemma CutTo29Bits(x: nat)
    ensures x % TWO_64 % TWO_29 == x % TWO_29
  {
  }

  lemma CarryOut(n: nat, size: nat, lo: nat, carry: nat)
    requires lo == (n % TWO_29 + size) % TWO_29
    requires carry == if lo < n % TWO_29 then 1 else 0
    ensures lo == (n + size) % TWO_29 && (n + size) / TWO_29 == n / TWO_29 + size / TWO_29 + carry
  {
    var sum := n % TWO_29 + size % TWO_29;
    assert lo == if sum < TWO_29 then sum else sum - TWO_29;
  }

  lemma WrapTwice(q: nat, carry: nat, k: nat)
    requires carry <= 1
    ensures Wrap((if carry == 1 then Wrap(q % TWO_32 + 1) else q % TWO_32) + k) == (q + k + carry) % TWO_32
  {
  }

  function Concat(pieces: seq<seq<byte>>): seq<byte> {
    if pieces == [] then [] else Concat(pieces[..|pieces| - 1]) + pieces[|pieces| - 1]
  }

  lemma ConcatNone(pieces: seq<seq<byte>>)
    ensures Concat(pieces[..0]) == []
  {
  }

  lemma ConcatNext(pieces: seq<seq<byte>>, i: nat)
    requires i < |pieces|
    ensures Concat(pieces[..i + 1]) == Concat(pieces[..i]) + pieces[i]
  {
    assert pieces[..i + 1][..i] == pieces[..i];
  }

  function Contents(pieces: seq<array<byte>>): (texts: seq<seq<byte>>)
    reads set p | p in pieces
    ensures |texts| == |pieces| && forall i | 0 <= i < |pieces| :: texts[i] == pieces[i][..]
  {
    if pieces == [] then [] else [pieces[0][..]] + Contents(pieces[1..])
  }

  // However a message is cut into calls of MD5_Update, MD5_Final delivers the digest of the whole.
  method HashInPieces(pieces: seq<array<byte>>) returns (digest: seq<byte>)
    requires forall i | 0 <= i < |pieces| :: pieces[i].Length < TWO_64
    ensures digest == Digest(Concat(Contents(pieces)))
  {
    hide *;
    var context := new Context();
    ghost var texts := Contents(pieces);
    ConcatNone(texts);
    for i := 0 to |pieces|
      invariant context.Valid() && fresh(context) && fresh(context.buffer)
      invariant forall k | 0 <= k < |pieces| :: pieces[k][..] == texts[k]
      invariant context.message == Concat(texts[..i])
    {
      context.Update(pieces[i], pieces[i].Length);
      ConcatNext(texts, i);
      assert pieces[i][..pieces[i].Length] == texts[i];
    }
    assert texts[..|pieces|] == texts;
    var result := new byte[16];
    context.Final(result);
    digest := result[..];
  }
}
