// The 65C02 of src/mii_65c02.c: decimal arithmetic and subroutine calls.
//
// Decimal shows that ADC and SBC in decimal mode, byte after byte, are addition and subtraction in
// base 100; StackRuns that every RTS of a balanced run comes back to right after its JSR; Cpu is
// the code of the instructions, on registers and memory updated in place.
module Decimal {
  import opened Basics

  datatype Alu = Alu(a: byte, n: bool, v: bool, z: bool, c: bool)

  function Carry(c: bool): nat {
    if c then 1 else 0
  }

  // One digit: past 9, 6 is added, and the carry shows in bit 4.
  function AddDigit(x: nat, y: nat, c: bool): (nat, bool) {
    var sum := x + y + Carry(c);
    var adjusted := if sum > 9 then sum + 6 else sum;
    (adjusted % 16, adjusted > 0xf)
  }

  // The V flag: A and D agree in bit 7, and hi << 4 does not agree with A.
  predicate Overflow(a: byte, d: byte, high: nat) {
    a / 128 == d / 128 && a / 128 != high / 8 % 2
  }

  // ADC with the D flag set.
  function AdcDecimal(a: byte, d: byte, c: bool): Alu {
    var lo := AddDigit(a % 16, d % 16, c);
    var v := Overflow(a, d, a / 16 + d / 16 + Carry(lo.1));
    var hi := AddDigit(a / 16, d / 16, lo.1);
    var r := hi.0 * 16 + lo.0;
    Alu(r, r >= 0x80, v, r == 0, hi.1)
  }

  // SBC with the D flag set: the nines' complement is added, but Z is that of the binary sum.
  function SbcDecimal(a: byte, d: byte, c: bool): Alu {
    var complement := (0x99 - d) % 256;
    AdcDecimal(a, complement, c).(z := (a + complement + Carry(c)) % 256 == 0)
  }

  predicate IsBcd(b: byte) {
    b % 16 <= 9 && b / 16 <= 9
  }

  function Value(b: byte): nat {
    b / 16 * 10 + b % 16
  }

  lemma AdcDigits(a: byte, d: byte, c: bool)
    requires IsBcd(a) && IsBcd(d)
    ensures var r := AdcDecimal(a, d, c);
      && IsBcd(r.a) && Value(r.a) + 100 * Carry(r.c) == Value(a) + Value(d) + Carry(c)
      && (r.z <==> Value(r.a) == 0)
  {
    var lo := AddDigit(a % 16, d % 16, c);
    var hi := AddDigit(a / 16, d / 16, lo.1);
    DigitAdds(a % 16, d % 16, c);
    DigitAdds(a / 16, d / 16, lo.1);
    NibblesBack(hi.0, lo.0);
    hide AddDigit, Overflow;
  }

  // The other flags after a decimal ADC: N is bit 7, that is a number from 80 up; V says that bit 7 of
  // the operands agrees and that of their sum, the tens digit being not yet adjusted, does not.
  lemma AdcDecimalFlags(a: byte, d: byte, c: bool)
    requires IsBcd(a) && IsBcd(d)
    ensures var r := AdcDecimal(a, d, c);
      && (r.n <==> Value(r.a) >= 80)
      && (r.v <==> if Value(a) < 80 && Value(d) < 80 then Value(a) + Value(d) + Carry(c) >= 80
                   else Value(a) >= 80 && Value(d) >= 80)
  {
    hide *;
    var lo := AddDigit(a % 16, d % 16, c);
    AdcDigits(a, d, c);
    NumberHigh(a);
    NumberHigh(d);
    NumberHigh(AdcDecimal(a, d, c).a);
    DigitAdds(a % 16, d % 16, c);
    FlagsOfParts(a, d, c);
    TensOfSum(a / 16, a % 16, d / 16, d % 16, c, lo.0, lo.1);
    SignsOfSum(a, d, a / 16 + d / 16 + Carry(lo.1));
  }

  lemma FlagsOfParts(a: byte, d: byte, c: bool)
    ensures var r, lo := AdcDecimal(a, d, c), AddDigit(a % 16, d % 16, c);
      (r.n <==> r.a >= 0x80) && (r.v <==> Overflow(a, d, a / 16 + d / 16 + Carry(lo.1)))
  {
    hide AddDigit, Overflow, Carry;
  }

  lemma TensOfSum(p: nat, q: nat, s: nat, t: nat, c: bool, ones: nat, carry: bool)
    requires ones <= 9 && ones + 10 * Carry(carry) == q + t + Carry(c)
    ensures p + s + Carry(carry) >= 8 <==> p * 10 + q + (s * 10 + t) + Carry(c) >= 80
    ensures p + s <= p + s + Carry(carry) <= p + s + 1
  {
  }

  lemma NumberHigh(b: byte)
    requires IsBcd(b)
    ensures b >= 0x80 <==> Value(b) >= 80
    ensures b / 16 <= 9 && b % 16 <= 9 && (b / 16 >= 8 <==> Value(b) >= 80) && Value(b) == b / 16 * 10 + b % 16
  {
  }

  lemma SignsOfSum(a: byte, d: byte, high: nat)
    requires a / 16 <= 9 && d / 16 <= 9 && a / 16 + d / 16 <= high <= a / 16 + d / 16 + 1
    ensures Overflow(a, d, high) <==>
      if a / 16 < 8 && d / 16 < 8 then high >= 8 else a / 16 >= 8 && d / 16 >= 8
  {
    EighthOf(a);
    EighthOf(d);
    EighthOf(high);
  }

  lemma EighthOf(x: nat)
    ensures x < 256 ==> (x / 128 == if x / 16 < 8 then 0 else 1)
    ensures x < 20 ==> (x / 8 % 2 == if 8 <= x < 16 then 1 else 0)
  {
  }

  lemma DigitAdds(x: nat, y: nat, c: bool)
    requires x <= 9 && y <= 9
    ensures var r := AddDigit(x, y, c); r.0 <= 9 && r.0 + 10 * Carry(r.1) == x + y + Carry(c)
  {
  }

  lemma NibblesBack(h: nat, l: nat)
    requires h < 16 && l < 16
    ensures (h * 16 + l) / 16 == h && (h * 16 + l) % 16 == l
  {
  }

  lemma ComplementDigits(d: byte)
    requires IsBcd(d)
    ensures var k := (0x99 - d) % 256; k == 0x99 - d && IsBcd(k) && Value(k) == 99 - Value(d)
  {
    NibblesBack(9 - d / 16, 9 - d % 16);
    assert 0x99 - d == (9 - d / 16) * 16 + (9 - d % 16);
  }

  lemma SbcDigits(a: byte, d: byte, c: bool)
    requires IsBcd(a) && IsBcd(d)
    ensures var r := SbcDecimal(a, d, c);
      IsBcd(r.a) && Value(r.a) + 100 * Carry(r.c) == Value(a) + 99 - Value(d) + Carry(c)
  {
    ComplementDigits(d);
    AdcDigits(a, (0x99 - d) % 256, c);
  }

  // N and V after a decimal SBC are those of adding the nines' complement.
  lemma SbcDecimalFlags(a: byte, d: byte, c: bool)
    requires IsBcd(a) && IsBcd(d)
    ensures var r := SbcDecimal(a, d, c);
      && (r.n <==> Value(r.a) >= 80)
      && (r.v <==> if Value(a) < 80 && Value(d) > 19 then Value(a) + 99 - Value(d) + Carry(c) >= 80
                   else Value(a) >= 80 && Value(d) <= 19)
  {
    ComplementDigits(d);
    AdcDecimalFlags(a, (0x99 - d) % 256, c);
    hide AdcDecimal, Value;
  }

  // Z after a decimal SBC is right but for two differences of the operands: the numbers are equal
  // without a borrow, or one apart with one, or the bytes are $67 apart.
  lemma SbcZeroFlag(a: byte, d: byte, c: bool)
    requires IsBcd(a) && IsBcd(d)
    ensures var r := SbcDecimal(a, d, c);
      (r.z <==> Value(r.a) == 0) <==> Value(a) - Value(d) + Carry(c) != 1 && a - d + Carry(c) != 0x67
  {
    SbcDigits(a, d, c);
    ZeroFlagByResult(a, d, c);
    FarApart(a, d, c);
    hide SbcDecimal, Value;
  }

  // Equal numbers leave Z clear on a zero result.
  lemma EqualIsNotZero(a: byte, c: bool)
    requires IsBcd(a) && c
    ensures var r := SbcDecimal(a, a, c); Value(r.a) == 0 && r.a == 0 && r.c && !r.z
  {
    SbcDigits(a, a, c);
    SbcZeroFlag(a, a, c);
    NumberZero(SbcDecimal(a, a, c).a);
    hide SbcDecimal, Value;
  }

  lemma NumberZero(b: byte)
    requires IsBcd(b) && Value(b) == 0
    ensures b == 0
  {
  }

  lemma FarApart(a: byte, d: byte, c: bool)
    requires IsBcd(a) && IsBcd(d)
    ensures Value(a) - Value(d) + Carry(c) == -99 <==> a == 0 && d == 0x99 && !c
    ensures a - d + Carry(c) == 0x67 ==> Value(a) - Value(d) + Carry(c) != 1
    ensures 0 <= Value(a) <= 99 && 0 <= Value(d) <= 99
  {
  }

  lemma ZeroFlagByResult(a: byte, d: byte, c: bool)
    requires IsBcd(a) && IsBcd(d)
    ensures var r := SbcDecimal(a, d, c);
      (r.z <==> Value(r.a) == 0)
      <==> if Value(r.a) == 0 then a == 0 && d == 0x99 && !c else a - d + Carry(c) != 0x67
  {
    SbcDigits(a, d, c);
    ComplementDigits(d);
    var sum := a + (0x99 - d) + Carry(c);
    SumWraps(sum);
    var zero := Value(SbcDecimal(a, d, c).a) == 0;
    assert SbcDecimal(a, d, c).z <==> sum % 256 == 0;
    hide AdcDecimal, SbcDecimal, Value;
    if zero {
      ZeroDifference(a, d, c);
    }
  }

  lemma SumWraps(sum: nat)
    requires sum <= 0x133
    ensures sum % 256 == 0 <==> sum == 0 || sum == 256
  {
  }

  // A zero result: the numbers are equal, or 99 - 0 or 0 - 99 apart.
  lemma ZeroDifference(a: byte, d: byte, c: bool)
    requires IsBcd(a) && IsBcd(d) && Value(SbcDecimal(a, d, c).a) == 0
    ensures a - d + Carry(c) != 0x67
  {
    SbcDigits(a, d, c);
    hide SbcDecimal, AdcDecimal;
    var p, q, s, t := a / 16, a % 16, d / 16, d % 16;
    assert a == 16 * p + q && d == 16 * s + t;
  }

  // ---- Numbers of any length, lowest byte first ----

  function AdcAll(a: seq<byte>, d: seq<byte>, c: bool): (r: (seq<byte>, bool))
    requires |a| == |d|
    ensures |r.0| == |a|
  {
    if a == [] then ([], c)
    else
      var first := AdcDecimal(a[0], d[0], c);
      var rest := AdcAll(a[1..], d[1..], first.c);
      ([first.a] + rest.0, rest.1)
  }

  function SbcAll(a: seq<byte>, d: seq<byte>, c: bool): (r: (seq<byte>, bool))
    requires |a| == |d|
    ensures |r.0| == |a|
  {
    if a == [] then ([], c)
    else
      var first := SbcDecimal(a[0], d[0], c);
      var rest := SbcAll(a[1..], d[1..], first.c);
      ([first.a] + rest.0, rest.1)
  }

  predicate AllBcd(a: seq<byte>) {
    forall i | 0 <= i < |a| :: IsBcd(a[i])
  }

  function Number(a: seq<byte>): nat {
    if a == [] then 0 else Value(a[0]) + 100 * Number(a[1..])
  }

  function Power100(n: nat): nat {
    if n == 0 then 1 else 100 * Power100(n - 1)
  }

  lemma {:induction false} NumberBound(a: seq<byte>)
    requires AllBcd(a)
    ensures Number(a) < Power100(|a|)
  {
    if a != [] {
      NumberBound(a[1..]);
      assert Value(a[0]) <= 99;
    }
  }

  lemma {:induction false} NumberUnique(a: seq<byte>, b: seq<byte>)
    requires AllBcd(a) && AllBcd(b) && |a| == |b| && Number(a) == Number(b)
    ensures a == b
  {
    if a != [] {
      assert Value(a[0]) <= 99 && Value(b[0]) <= 99;
      assert Number(a[1..]) == Number(b[1..]);
      NumberUnique(a[1..], b[1..]);
      assert a[0] == b[0];
      assert a == [a[0]] + a[1..] && b == [b[0]] + b[1..];
    }
  }

  // n bytes of ADC are addition of 2n-digit numbers with carry in and carry out.
  lemma {:induction false} AdcAllAdds(a: seq<byte>, d: seq<byte>, c: bool)
    requires |a| == |d| && AllBcd(a) && AllBcd(d)
    ensures var r := AdcAll(a, d, c);
      AllBcd(r.0) && Number(r.0) + Power100(|a|) * Carry(r.1) == Number(a) + Number(d) + Carry(c)
  {
    if a != [] {
      AdcDigits(a[0], d[0], c);
      var first := AdcDecimal(a[0], d[0], c);
      AdcAllAdds(a[1..], d[1..], first.c);
      var rest := AdcAll(a[1..], d[1..], first.c);
      hide AdcDecimal, Value, Carry;
      assert ([first.a] + rest.0)[1..] == rest.0;
      Fold(Power100(|a| - 1), Carry(rest.1));
    }
  }

  lemma Fold(p: nat, k: nat)
    ensures (100 * p) * k == 100 * (p * k)
  {
  }

  // n bytes of SBC are subtraction with borrow: the carry is the complement of the borrow.
  lemma {:induction false} SbcAllSubtracts(a: seq<byte>, d: seq<byte>, c: bool)
    requires |a| == |d| && AllBcd(a) && AllBcd(d)
    ensures var r := SbcAll(a, d, c);
      AllBcd(r.0) && Number(r.0) - Power100(|a|) * Carry(!r.1) == Number(a) - Number(d) - Carry(!c)
  {
    if a != [] {
      SbcDigits(a[0], d[0], c);
      var first := SbcDecimal(a[0], d[0], c);
      SbcAllSubtracts(a[1..], d[1..], first.c);
      var rest := SbcAll(a[1..], d[1..], first.c);
      assert Carry(!first.c) == 1 - Carry(first.c) && Carry(!c) == 1 - Carry(c);
      hide SbcDecimal, Value, Carry;
      assert ([first.a] + rest.0)[1..] == rest.0;
      Fold(Power100(|a| - 1), Carry(!rest.1));
    }
  }

  // Subtracting again what was added, and the carry as a borrow, gives back the number; the last
  // borrow is the carry that came out of the addition.
  lemma SbcUndoesAdc(a: seq<byte>, d: seq<byte>, c: bool)
    requires |a| == |d| && AllBcd(a) && AllBcd(d)
    ensures SbcAll(AdcAll(a, d, c).0, d, !c) == (a, !AdcAll(a, d, c).1)
  {
    var sum := AdcAll(a, d, c);
    AdcAllAdds(a, d, c);
    SbcAllSubtracts(sum.0, d, !c);
    var diff := SbcAll(sum.0, d, !c);
    NumberBound(a);
    NumberBound(diff.0);
    hide AdcAll, SbcAll, Number, Power100;
    SameResidue(Number(diff.0), Number(a), Power100(|a|), sum.1, !diff.1);
    NumberUnique(diff.0, a);
  }

  lemma SameResidue(x: nat, y: nat, p: nat, carry: bool, borrow: bool)
    requires x < p && y < p && x - p * Carry(borrow) == y - p * Carry(carry)
    ensures x == y && carry == borrow
  {
  }

  // ---- Binary mode ----

  // ADC with the D flag clear; V as the source has it, from bit 7 of A, D and the sum.
  function AdcBinary(a: byte, d: byte, c: bool): Alu {
    var sum := a + d + Carry(c);
    Alu(sum % 256, sum % 256 >= 0x80, a / 128 == d / 128 && a / 128 != sum / 128 % 2, sum % 256 == 0, sum >= 256)
  }

  function SbcBinary(a: byte, d: byte, c: bool): Alu {
    AdcBinary(a, 255 - d, c)
  }

  function Signed(b: byte): int {
    if b >= 0x80 then b - 256 else b
  }

  // C is the carry of the unsigned sum; V says that the signed sum does not fit.
  lemma AdcBinaryFlags(a: byte, d: byte, c: bool)
    ensures var r, sum := AdcBinary(a, d, c), Signed(a) + Signed(d) + Carry(c);
      && (r.n <==> Signed(r.a) < 0) && (r.z <==> r.a == 0)
      && r.a + 256 * Carry(r.c) == a + d + Carry(c)
      && (r.v <==> !(-128 <= sum <= 127)) && (!r.v ==> Signed(r.a) == sum)
  {
  }

  lemma SbcBinaryFlags(a: byte, d: byte, c: bool)
    ensures var r, difference := SbcBinary(a, d, c), Signed(a) - Signed(d) - Carry(!c);
      && (r.n <==> Signed(r.a) < 0) && (r.z <==> r.a == 0)
      && r.a - 256 * Carry(!r.c) == a - d - Carry(!c)
      && (r.v <==> !(-128 <= difference <= 127)) && (!r.v ==> Signed(r.a) == difference)
  {
    AdcBinaryFlags(a, 255 - d, c);
    hide AdcBinary;
  }
}

// The stack under subroutine calls.
module StackRuns {
  import opened Basics

  // The registers the stack discipline is about, and memory.
  datatype Cpu = Cpu(pc: nat, s: nat, mem: seq<byte>)

  // One instruction: JSR, RTS, a push or pull of any register, a store, or a move of PC.
  datatype Instr = Jsr | Rts | Push(b: byte) | Pull | Store(addr: nat, b: byte) | Go(pc: nat)

  ghost predicate Ok(c: Cpu) {
    c.pc < 0x1_0000 && c.s < 0x100 && |c.mem| == 0x1_0000
  }

  function Down(s: nat, n: nat): (r: nat)
    requires s < 0x100 && n <= 0x100
    ensures r < 0x100
  {
    if n <= s then s - n else s + 0x100 - n
  }

  function Word(low: byte, high: byte): nat {
    low as int + 0x100 * high as int
  }

  function PushByte(c: Cpu, b: byte): Cpu
    requires Ok(c)
  {
    c.(s := Down(c.s, 1), mem := c.mem[0x100 + c.s := b])
  }

  // The operand's high byte is fetched after the return address has been pushed; what is pushed is
  // the address of that byte.
  function DoJsr(c: Cpu): (r: Cpu)
    requires Ok(c)
    ensures Ok(r)
  {
    var low := c.mem[(c.pc + 1) % 0x1_0000];
    var ret := (c.pc + 2) % 0x1_0000;
    var pushed := PushByte(PushByte(c, ret / 0x100), ret % 0x100);
    pushed.(pc := Word(low, pushed.mem[ret]))
  }

  function DoRts(c: Cpu): (r: Cpu)
    requires Ok(c)
    ensures Ok(r)
  {
    var s1 := (c.s + 1) % 0x100;
    var s2 := (s1 + 1) % 0x100;
    c.(s := s2, pc := (Word(c.mem[0x100 + s1], c.mem[0x100 + s2]) + 1) % 0x1_0000)
  }

  function Step(c: Cpu, i: Instr): (r: Cpu)
    requires Ok(c) && (i.Store? ==> i.addr < 0x1_0000) && (i.Go? ==> i.pc < 0x1_0000)
    ensures Ok(r)
  {
    match i
    case Jsr => DoJsr(c)
    case Rts => DoRts(c)
    case Push(b) => PushByte(c, b)
    case Pull => c.(s := (c.s + 1) % 0x100)
    case Store(addr, b) => c.(mem := c.mem[addr := b])
    case Go(pc) => c.(pc := pc)
  }

  // The operand of JSR is what was in memory before, unless its high byte lies where the return
  // address goes: on the stack itself.
  lemma JsrTarget(c: Cpu)
    requires Ok(c)
    ensures var ret := (c.pc + 2) % 0x1_0000;
      && DoJsr(c).pc % 0x100 == c.mem[(c.pc + 1) % 0x1_0000]
      && DoJsr(c).pc / 0x100 == if ret == 0x100 + Down(c.s, 1) then ret % 0x100
                                else if ret == 0x100 + c.s then ret / 0x100 else c.mem[ret]
  {
  }

  // ---- The live part of the stack ----

  // A call not yet returned from: how much was on the stack before it, and where it should return to.
  datatype Frame = Frame(depth: nat, resume: nat)

  // base is S at the start; live is what has been pushed since, oldest first; frames are the open calls.
  datatype Run = Run(c: Cpu, base: nat, live: seq<byte>, frames: seq<Frame>)

  ghost predicate LiveInMemory(r: Run)
    requires Ok(r.c) && r.base < 0x100 && |r.live| <= 0x100
  {
    forall k | 0 <= k < |r.live| :: r.c.mem[0x100 + Down(r.base, k)] == r.live[k]
  }

  // The return address that a frame has on the stack.
  predicate FrameOnStack(live: seq<byte>, f: Frame) {
    && f.resume < 0x1_0000 && f.depth + 2 <= |live|
    && (Word(live[f.depth + 1], live[f.depth]) + 1) % 0x1_0000 == f.resume
  }

  ghost predicate Inv(r: Run) {
    && Ok(r.c) && r.base < 0x100 && |r.live| <= 0x100 && r.c.s == Down(r.base, |r.live|)
    && LiveInMemory(r)
    && (forall i | 0 <= i < |r.frames| :: FrameOnStack(r.live, r.frames[i]))
    && (forall i, j | 0 <= i < j < |r.frames| :: r.frames[i].depth + 2 <= r.frames[j].depth)
  }

  // How far the open call reaches up the stack: a pull below it would not leave the live stack alone.
  function Floor(r: Run): nat {
    if r.frames == [] then 0 else r.frames[|r.frames| - 1].depth + 2
  }

  // The instructions a well-behaved body consists of: pushes that fit, pulls of what it has pushed,
  // stores away from the live stack, and RTS with nothing of its own left on the stack.
  ghost predicate Allowed(r: Run, i: Instr)
    requires Inv(r)
  {
    match i
    case Jsr => |r.live| + 2 <= 0x100
    case Rts => r.frames != [] && |r.live| == Floor(r)
    case Push(_) => |r.live| < 0x100
    case Pull => Floor(r) < |r.live|
    case Store(addr, _) => addr < 0x1_0000 && forall k | 0 <= k < |r.live| :: addr != 0x100 + Down(r.base, k)
    case Go(pc) => pc < 0x1_0000
  }

  ghost function Next(r: Run, i: Instr): Run
    requires Inv(r) && Allowed(r, i)
  {
    var c := Step(r.c, i);
    match i
    case Jsr =>
      var ret := (r.c.pc + 2) % 0x1_0000;
      Run(c, r.base, r.live + [ret / 0x100, ret % 0x100], r.frames + [Frame(|r.live|, (r.c.pc + 3) % 0x1_0000)])
    case Rts => Run(c, r.base, r.live[..|r.live| - 2], r.frames[..|r.frames| - 1])
    case Push(b) => Run(c, r.base, r.live + [b], r.frames)
    case Pull => Run(c, r.base, r.live[..|r.live| - 1], r.frames)
    case _ => r.(c := c)
  }

  lemma NextKeepsInv(r: Run, i: Instr)
    requires Inv(r) && Allowed(r, i)
    ensures Inv(Next(r, i))
    ensures i.Rts? ==> Next(r, i).c.pc == r.frames[|r.frames| - 1].resume
  {
    hide Inv, Allowed, Next;
    match i {
      case Jsr => JsrKeeps(r);
      case Rts => RtsKeeps(r);
      case Push(b) => PushKeeps(r, b);
      case Pull => PullKeeps(r);
      case _ => OthersKeep(r, i);
    }
  }

  lemma PullKeeps(r: Run)
    requires Inv(r) && Allowed(r, Pull)
    ensures Inv(Next(r, Pull))
  {
    var n := |r.live| - 1;
    UpOne(r.base, |r.live|);
    ShorterLive(r, n);
    forall i | 0 <= i < |r.frames|
      ensures FrameOnStack(r.live[..n], r.frames[i])
    {
      assert FrameOnStack(r.live, r.frames[i]);
      assert i < |r.frames| - 1 ==> r.frames[i].depth + 2 <= r.frames[|r.frames| - 1].depth;
    }
    hide LiveInMemory, FrameOnStack, Down;
  }

  lemma OthersKeep(r: Run, i: Instr)
    requires Inv(r) && Allowed(r, i) && (i.Store? || i.Go?)
    ensures Inv(Next(r, i))
  {
    hide FrameOnStack, Down;
  }

  lemma UpOne(base: nat, n: nat)
    requires base < 0x100 && 0 < n <= 0x100
    ensures (Down(base, n) + 1) % 0x100 == Down(base, n - 1)
  {
  }

  lemma DownTwice(base: nat, n: nat)
    requires base < 0x100 && n < 0x100
    ensures Down(Down(base, n), 1) == Down(base, n + 1)
  {
  }

  // A byte pushed leaves the live ones alone, as long as there is room.
  lemma PushedApart(r: Run, b: byte)
    requires Ok(r.c) && r.base < 0x100 && |r.live| < 0x100 && r.c.s == Down(r.base, |r.live|) && LiveInMemory(r)
    ensures LiveInMemory(r.(c := PushByte(r.c, b), live := r.live + [b]))
    ensures PushByte(r.c, b).s == Down(r.base, |r.live| + 1)
  {
    forall k | 0 <= k < |r.live|
      ensures Down(r.base, k) != r.c.s
    {
    }
    DownTwice(r.base, |r.live|);
  }

  lemma PushKeeps(r: Run, b: byte)
    requires Inv(r) && Allowed(r, Push(b))
    ensures Inv(Next(r, Push(b)))
  {
    PushedApart(r, b);
    hide LiveInMemory, Down;
  }

  lemma JsrKeeps(r: Run)
    requires Inv(r) && Allowed(r, Jsr)
    ensures Inv(Next(r, Jsr))
  {
    var ret := (r.c.pc + 2) % 0x1_0000;
    PushedApart(r, ret / 0x100);
    var r1 := r.(c := PushByte(r.c, ret / 0x100), live := r.live + [ret / 0x100]);
    PushedApart(r1, ret % 0x100);
    var r2 := r1.(c := PushByte(r1.c, ret % 0x100), live := r1.live + [ret % 0x100]);
    var r3 := Next(r, Jsr);
    assert r3.live == r2.live && r3.c == r2.c.(pc := r3.c.pc);
    assert LiveInMemory(r3);
    JsrFrames(r);
    hide Down, LiveInMemory, FrameOnStack;
  }

  lemma JsrFrames(r: Run)
    requires Inv(r) && Allowed(r, Jsr)
    ensures var r' := Next(r, Jsr);
      && (forall i | 0 <= i < |r'.frames| :: FrameOnStack(r'.live, r'.frames[i]))
      && (forall i, j | 0 <= i < j < |r'.frames| :: r'.frames[i].depth + 2 <= r'.frames[j].depth)
  {
    ResumeIsNext(r.c.pc);
    hide Down, LiveInMemory, Step, Word;
    var r' := Next(r, Jsr);
    forall i | 0 <= i < |r'.frames|
      ensures FrameOnStack(r'.live, r'.frames[i])
    {
      assert i < |r.frames| ==> FrameOnStack(r.live, r.frames[i]);
    }
  }

  lemma ResumeIsNext(pc: nat)
    ensures var ret := (pc + 2) % 0x1_0000; (Word(ret % 0x100, ret / 0x100) + 1) % 0x1_0000 == (pc + 3) % 0x1_0000
  {
    var ret := (pc + 2) % 0x1_0000;
    WordOf(ret);
    hide Word;
    ResumeAfter(pc, ret);
  }

  lemma WordOf(n: nat)
    requires n < 0x1_0000
    ensures Word(n % 0x100, n / 0x100) == n
  {
  }

  lemma ResumeAfter(pc: nat, ret: nat)
    requires ret == (pc + 2) % 0x1_0000
    ensures (ret + 1) % 0x1_0000 == (pc + 3) % 0x1_0000
  {
    var turns := (pc + 2) / 0x1_0000;
    assert pc + 2 == 0x1_0000 * turns + ret;
    if ret == 0xffff {
      assert pc + 3 == 0x1_0000 * (turns + 1);
    } else {
      assert pc + 3 == 0x1_0000 * turns + (ret + 1);
    }
  }

  lemma RtsKeeps(r: Run)
    requires Inv(r) && Allowed(r, Rts)
    ensures Inv(Next(r, Rts)) && Next(r, Rts).c.pc == r.frames[|r.frames| - 1].resume
  {
    var n := |r.live|;
    RtsResumes(r);
    var r' := Next(r, Rts);
    assert r'.c.mem == r.c.mem && r'.live == r.live[..n - 2];
    ShorterLive(r, n - 2);
    FramesBelow(r);
    hide Down, LiveInMemory, FrameOnStack;
  }

  lemma RtsResumes(r: Run)
    requires Inv(r) && Allowed(r, Rts)
    ensures DoRts(r.c).pc == r.frames[|r.frames| - 1].resume && DoRts(r.c).s == Down(r.base, |r.live| - 2)
  {
    var n := |r.live|;
    UpOne(r.base, n);
    UpOne(r.base, n - 1);
    var f := r.frames[|r.frames| - 1];
    assert FrameOnStack(r.live, f);
    assert r.c.mem[0x100 + Down(r.base, n - 1)] == r.live[n - 1];
    assert r.c.mem[0x100 + Down(r.base, n - 2)] == r.live[n - 2];
    hide Down, LiveInMemory;
  }

  lemma ShorterLive(r: Run, n: nat)
    requires Ok(r.c) && r.base < 0x100 && n <= |r.live| <= 0x100 && LiveInMemory(r)
    ensures LiveInMemory(r.(live := r.live[..n]))
  {
  }

  lemma FramesBelow(r: Run)
    requires Inv(r) && Allowed(r, Rts)
    ensures forall i | 0 <= i < |r.frames| - 1 :: FrameOnStack(r.live[..|r.live| - 2], r.frames[i])
  {
    forall i | 0 <= i < |r.frames| - 1
      ensures FrameOnStack(r.live[..|r.live| - 2], r.frames[i])
    {
      assert FrameOnStack(r.live, r.frames[i]);
      assert r.frames[i].depth + 2 <= r.frames[|r.frames| - 1].depth;
    }
  }

  // ---- Whole runs ----

  ghost predicate AllAllowed(r: Run, instrs: seq<Instr>)
    requires Inv(r)
    decreases |instrs|, 0
  {
    instrs == [] ||
      (var last := |instrs| - 1;
       AllAllowed(r, instrs[..last]) && Allowed(After(r, instrs[..last]), instrs[last]))
  }

  ghost function After(r: Run, instrs: seq<Instr>): (r': Run)
    requires Inv(r) && AllAllowed(r, instrs)
    ensures Inv(r')
    decreases |instrs|, 1
  {
    if instrs == [] then r else
      var last := |instrs| - 1;
      NextKeepsInv(After(r, instrs[..last]), instrs[last]);
      Next(After(r, instrs[..last]), instrs[last])
  }

  // How many calls are open after k instructions.
  function Level(instrs: seq<Instr>, k: nat): int
    requires k <= |instrs|
  {
    if k == 0 then 0
    else Level(instrs, k - 1) + match instrs[k - 1] { case Jsr => 1 case Rts => -1 case _ => 0 }
  }

  // The RTS at j is the one for the JSR at i: the call stays open all the way in between.
  ghost predicate Matches(instrs: seq<Instr>, i: nat, j: nat) {
    && i < j < |instrs| && instrs[i].Jsr? && instrs[j].Rts?
    && (forall k | i < k <= j :: Level(instrs, k) > Level(instrs, i))
    && Level(instrs, j + 1) == Level(instrs, i)
  }

  lemma {:induction false} PrefixAllowed(r: Run, instrs: seq<Instr>, k: nat)
    requires Inv(r) && AllAllowed(r, instrs) && k <= |instrs|
    ensures AllAllowed(r, instrs[..k])
  {
    if k < |instrs| {
      var last := |instrs| - 1;
      PrefixAllowed(r, instrs[..last], k);
      assert instrs[..last][..k] == instrs[..k];
    } else {
      assert instrs[..k] == instrs;
    }
  }

  lemma StepFrom(r: Run, instrs: seq<Instr>, k: nat)
    requires Inv(r) && AllAllowed(r, instrs) && k < |instrs|
    ensures AllAllowed(r, instrs[..k]) && AllAllowed(r, instrs[..k + 1])
    ensures Allowed(After(r, instrs[..k]), instrs[k])
    ensures After(r, instrs[..k + 1]) == Next(After(r, instrs[..k]), instrs[k])
  {
    PrefixAllowed(r, instrs, k);
    PrefixAllowed(r, instrs, k + 1);
    assert instrs[..k + 1][..k] == instrs[..k];
  }

  lemma {:induction false} LevelCountsFrames(r: Run, instrs: seq<Instr>, k: nat)
    requires Inv(r) && AllAllowed(r, instrs) && k <= |instrs|
    ensures AllAllowed(r, instrs[..k]) && |After(r, instrs[..k]).frames| == |r.frames| + Level(instrs, k)
  {
    if k > 0 {
      LevelCountsFrames(r, instrs, k - 1);
      StepFrom(r, instrs, k - 1);
      hide After, AllAllowed, Inv, Step, Allowed;
    }
  }

  // A step that leaves a call open leaves its frame, and the stack below it, alone.
  lemma NextKeepsBelow(r: Run, i: Instr, m: nat)
    requires Inv(r) && Allowed(r, i) && m < |r.frames| && m < |Next(r, i).frames|
    ensures var r', d := Next(r, i), r.frames[m].depth;
      r'.base == r.base && r'.frames[m] == r.frames[m] && d <= |r.live| && d <= |r'.live| && r'.live[..d] == r.live[..d]
  {
    var last := |r.frames| - 1;
    assert FrameOnStack(r.live, r.frames[m]) && FrameOnStack(r.live, r.frames[last]);
    hide LiveInMemory, Step, FrameOnStack;
    assert m < last ==> r.frames[m].depth + 2 <= r.frames[last].depth;
  }

  lemma OpenedFrame(r: Run)
    requires Inv(r) && Allowed(r, Jsr)
    ensures var r' := Next(r, Jsr);
      && |r'.frames| == |r.frames| + 1 && r'.frames[|r.frames|] == Frame(|r.live|, (r.c.pc + 3) % 0x1_0000)
      && r'.base == r.base && |r.live| <= |r'.live| && r'.live[..|r.live|] == r.live
  {
    hide LiveInMemory, Step;
  }

  // While a call is open its frame stays what it was.
  lemma {:induction false} FrameStays(r: Run, instrs: seq<Instr>, i: nat, k: nat)
    requires Inv(r) && AllAllowed(r, instrs) && i < k <= |instrs| && instrs[i].Jsr?
    requires forall l | i < l <= k :: Level(instrs, l) > Level(instrs, i)
    ensures AllAllowed(r, instrs[..i]) && AllAllowed(r, instrs[..k])
    ensures StillOpen(After(r, instrs[..i]), After(r, instrs[..k]))
    decreases k
  {
    hide *;
    PrefixAllowed(r, instrs, i);
    StepFrom(r, instrs, k - 1);
    LevelCountsFrames(r, instrs, i);
    LevelCountsFrames(r, instrs, k);
    if k - 1 > i {
      FrameStays(r, instrs, i, k - 1);
      StaysOpen(After(r, instrs[..i]), After(r, instrs[..k - 1]), instrs[k - 1]);
    } else {
      Opens(After(r, instrs[..i]));
    }
  }

  lemma StaysOpen(at: Run, now: Run, i: Instr)
    requires Inv(now) && Allowed(now, i) && StillOpen(at, now) && |Next(now, i).frames| > |at.frames|
    ensures StillOpen(at, Next(now, i))
  {
    NextKeepsBelow(now, i, |at.frames|);
    hide Inv, Allowed, Next;
  }

  lemma Opens(at: Run)
    requires Inv(at) && Allowed(at, Jsr)
    ensures StillOpen(at, Next(at, Jsr))
  {
    OpenedFrame(at);
    hide Inv, Allowed, Next;
  }

  ghost predicate StillOpen(at: Run, now: Run) {
    && |now.frames| > |at.frames| && now.base == at.base && |at.live| <= |now.live|
    && now.frames[|at.frames|] == Frame(|at.live|, (at.c.pc + 3) % 0x1_0000)
    && now.live[..|at.live|] == at.live
  }

  // Every RTS of a balanced run comes back to right after its JSR, with S as it was before the JSR,
  // wherever in its page the stack pointer started.
  lemma ReturnsAfterItsCall(r: Run, instrs: seq<Instr>, i: nat, j: nat)
    requires Inv(r) && AllAllowed(r, instrs) && Matches(instrs, i, j)
    ensures AllAllowed(r, instrs[..i]) && AllAllowed(r, instrs[..j + 1])
    ensures var before, after := After(r, instrs[..i]), After(r, instrs[..j + 1]);
      && after.c.pc == (before.c.pc + 3) % 0x1_0000
      && after.c.s == before.c.s && after.live == before.live
  {
    hide *;
    MatchMeans(instrs, i, j);
    FrameStays(r, instrs, i, j);
    StepFrom(r, instrs, j);
    LevelCountsFrames(r, instrs, i);
    LevelCountsFrames(r, instrs, j);
    Closes(After(r, instrs[..i]), After(r, instrs[..j]));
  }

  lemma MatchMeans(instrs: seq<Instr>, i: nat, j: nat)
    requires Matches(instrs, i, j)
    ensures i < j < |instrs| && instrs[i] == Jsr && instrs[j] == Rts
    ensures forall k | i < k <= j :: Level(instrs, k) > Level(instrs, i)
    ensures Level(instrs, j) == Level(instrs, i) + 1
  {
    assert Level(instrs, j + 1) == Level(instrs, j) - 1;
  }

  lemma Closes(at: Run, now: Run)
    requires Inv(at) && Inv(now) && StillOpen(at, now) && |now.frames| == |at.frames| + 1 && Allowed(now, Rts)
    ensures var r' := Next(now, Rts);
      r'.c.pc == (at.c.pc + 3) % 0x1_0000 && r'.c.s == at.c.s && r'.live == at.live
  {
    NextKeepsInv(now, Rts);
    OnStack(now);
    hide LiveInMemory, FrameOnStack, Step, Down;
  }

  lemma OnStack(r: Run)
    requires Inv(r) && r.frames != []
    ensures FrameOnStack(r.live, r.frames[|r.frames| - 1])
  {
  }
}

// The instructions, on the registers and memory of one processor.
module Cpu65C02 {
  import opened Basics
  import Dec = Decimal
  import Stk = StackRuns

  class Cpu {
    var A: byte
    var S: nat
    var PC: nat
    var N: bool
    var V: bool
    var Z: bool
    var C: bool
    var D: bool
    const memory: array<byte>

    ghost predicate Valid()
      reads this
    {
      PC < 0x1_0000 && S < 0x100 && memory.Length == 0x1_0000
    }

    ghost function Stack(): Stk.Cpu
      reads this, memory
    {
      Stk.Cpu(PC, S, memory[..])
    }

    ghost function Alu(): Dec.Alu
      reads this
    {
      Dec.Alu(A, N, V, Z, C)
    }

    // The addition that ADC and SBC share in decimal mode.
    method AddDigits(d: byte)
      modifies this`A, this`N, this`V, this`C
      ensures Alu() == Dec.AdcDecimal(old(A), d, old(C)).(z := old(Z))
    {
      hide Dec.Overflow;
      var lo := A % 16 + d % 16 + Dec.Carry(C);
      if lo > 9 {
        lo := lo + 6;
      }
      var hi := A / 16 + d / 16 + if lo > 0x0f then 1 else 0;
      V := Dec.Overflow(A, d, hi);
      assert (lo % 16, lo > 15) == Dec.AddDigit(A % 16, d % 16, C);
      if hi > 9 {
        hi := hi + 6;
      }
      assert (hi % 16, hi > 15) == Dec.AddDigit(A / 16, d / 16, lo > 15);
      hide Dec.AddDigit;
      C := hi > 15;
      A := hi % 16 * 16 + lo % 16;
      N := A >= 0x80;
    }

    // ADC, the operand already fetched.
    method Adc(d: byte)
      modifies this`A, this`N, this`V, this`Z, this`C
      ensures Alu() == if D then Dec.AdcDecimal(old(A), d, old(C)) else Dec.AdcBinary(old(A), d, old(C))
    {
      if D {
        AddDigits(d);
        Z := A == 0;
      } else {
        var sum := A + d + Dec.Carry(C);
        V := A / 128 == d / 128 && A / 128 != sum / 128 % 2;
        N, Z, C := sum % 256 >= 0x80, sum % 256 == 0, sum >= 256;
        A := sum % 256;
      }
    }

    // SBC, the operand already fetched.
    method Sbc(d: byte)
      modifies this`A, this`N, this`V, this`Z, this`C
      ensures Alu() == if D then Dec.SbcDecimal(old(A), d, old(C)) else Dec.SbcBinary(old(A), d, old(C))
    {
      if D {
        var complement := (0x99 - d) % 256;
        var zero := (A + complement + Dec.Carry(C)) % 256 == 0;
        AddDigits(complement);
        Z := zero;
      } else {
        Adc(255 - d);
      }
    }

    // _STORE(0x0100 | cpu->S--, b)
    method Push(b: byte)
      requires Valid()
      modifies this`S, memory
      ensures Valid() && Stack() == Stk.PushByte(old(Stack()), b)
    {
      memory[0x100 + S] := b;
      S := if S == 0 then 0xff else S - 1;
    }

    method Pha()
      requires Valid()
      modifies this`S, memory
      ensures Valid() && Stack() == Stk.Step(old(Stack()), Stk.Push(A))
    {
      Push(A);
    }

    method Pla()
      requires Valid()
      modifies this`S, this`A, this`N, this`Z
      ensures Valid() && Stack() == Stk.Step(old(Stack()), Stk.Pull)
      ensures A == memory[0x100 + S] && N == (A >= 0x80) && Z == (A == 0)
    {
      S := (S + 1) % 0x100;
      A := memory[0x100 + S];
      N, Z := A >= 0x80, A == 0;
    }

    method Jsr()
      requires Valid()
      modifies this`S, this`PC, memory
      ensures Valid() && Stack() == Stk.Step(old(Stack()), Stk.Jsr)
    {
      hide Stk.PushByte;
      ghost var c := Stack();
      // past the opcode
      PC := (PC + 1) % 0x1_0000;
      var low := memory[PC];
      PC := (PC + 1) % 0x1_0000;
      assert PC == (c.pc + 2) % 0x1_0000;
      PcApart(c, PC, PC / 0x100);
      Push(PC / 0x100);
      PcApart(Stk.PushByte(c, PC / 0x100), PC, PC % 0x100);
      Push(PC % 0x100);
      PC := Stk.Word(low, memory[PC]);
    }

    // Pushing does not look at PC.
    lemma PcApart(c: Stk.Cpu, pc: nat, b: byte)
      requires Stk.Ok(c) && pc < 0x1_0000
      ensures Stk.Ok(Stk.PushByte(c, b)) && Stk.PushByte(c.(pc := pc), b) == Stk.PushByte(c, b).(pc := pc)
    {
    }

    method Rts()
      requires Valid()
      modifies this`S, this`PC
      ensures Valid() && Stack() == Stk.Step(old(Stack()), Stk.Rts)
    {
      S := (S + 1) % 0x100;
      var low := memory[0x100 + S];
      S := (S + 1) % 0x100;
      PC := (Stk.Word(low, memory[0x100 + S]) + 1) % 0x1_0000;
    }
  }
}
