// The opcode table of src/mii_65c02_ops.h, which the processor, the assembler and the disassembler
// share, and what the two programs that read it rely on: a name and a mode belong to one opcode.
module Ops {
  datatype Mode =
    | Implied | Imm | ZpRel | ZpX | ZpY | Abs | AbsX | AbsY | IndX | IndAx | IndY | Ind | IndZ | Branch

  // pc is the length of the instruction; an opcode without an entry has no name.
  datatype Op = Undefined | Op(name: string, mode: Mode, pc: nat, branch: bool)

  function Row0(low: nat): Op {
    match low
    case 0x0 => Op("BRK", Implied, 1, false)
    case 0x1 => Op("ORA", IndX, 2, false)
    case 0x4 => Op("TSB", ZpRel, 2, false)
    case 0x5 => Op("ORA", ZpRel, 2, false)
    case 0x6 => Op("ASL", ZpRel, 2, false)
    case 0x7 => Op("RMB0", ZpRel, 2, false)
    case 0x8 => Op("PHP", Implied, 1, false)
    case 0x9 => Op("ORA", Imm, 2, false)
    case 0xA => Op("ASL", Implied, 1, false)
    case 0xC => Op("TSB", Abs, 3, false)
    case 0xD => Op("ORA", Abs, 3, false)
    case 0xE => Op("ASL", Abs, 3, false)
    case 0xF => Op("BBR0", ZpRel, 3, true)
    case _ => Undefined
  }

  function Row1(low: nat): Op {
    match low
    case 0x0 => Op("BPL", Branch, 2, true)
    case 0x1 => Op("ORA", IndY, 2, false)
    case 0x2 => Op("ORA", IndZ, 2, false)
    case 0x4 => Op("TRB", ZpRel, 2, false)
    case 0x5 => Op("ORA", ZpX, 2, false)
    case 0x6 => Op("ASL", ZpX, 2, false)
    case 0x7 => Op("RMB1", ZpRel, 2, false)
    case 0x8 => Op("CLC", Implied, 1, false)
    case 0x9 => Op("ORA", AbsY, 3, false)
    case 0xA => Op("INC", Implied, 1, false)
    case 0xC => Op("TRB", Abs, 3, false)
    case 0xD => Op("ORA", AbsX, 3, false)
    case 0xE => Op("ASL", AbsX, 3, false)
    case 0xF => Op("BBR1", ZpRel, 3, true)
    case _ => Undefined
  }

  function Row2(low: nat): Op {
    match low
    case 0x0 => Op("JSR", Implied, 3, false)
    case 0x1 => Op("AND", IndX, 2, false)
    case 0x4 => Op("BIT", ZpRel, 2, false)
    case 0x5 => Op("AND", ZpRel, 2, false)
    case 0x6 => Op("ROL", ZpRel, 2, false)
    case 0x7 => Op("RMB2", ZpRel, 2, false)
    case 0x8 => Op("PLP", Implied, 1, false)
    case 0x9 => Op("AND", Imm, 2, false)
    case 0xA => Op("ROL", Implied, 1, false)
    case 0xC => Op("BIT", Abs, 3, false)
    case 0xD => Op("AND", Abs, 3, false)
    case 0xE => Op("ROL", Abs, 3, false)
    case 0xF => Op("BBR2", ZpRel, 3, true)
    case _ => Undefined
  }

  function Row3(low: nat): Op {
    match low
    case 0x0 => Op("BMI", Branch, 2, true)
    case 0x1 => Op("AND", IndY, 2, false)
    case 0x2 => Op("AND", IndZ, 2, false)
    case 0x4 => Op("BIT", ZpX, 2, false)
    case 0x5 => Op("AND", ZpX, 2, false)
    case 0x6 => Op("ROL", ZpX, 2, false)
    case 0x7 => Op("RMB3", ZpRel, 2, false)
    case 0x8 => Op("SEC", Implied, 1, false)
    case 0x9 => Op("AND", AbsY, 3, false)
    case 0xA => Op("DEC", Implied, 1, false)
    case 0xC => Op("BIT", AbsX, 3, false)
    case 0xD => Op("AND", AbsX, 3, false)
    case 0xE => Op("ROL", AbsX, 3, false)
    case 0xF => Op("BBR3", ZpRel, 3, true)
    case _ => Undefined
  }

  function Row4(low: nat): Op {
    match low
    case 0x0 => Op("RTI", Implied, 1, false)
    case 0x1 => Op("EOR", IndX, 2, false)
    case 0x5 => Op("EOR", ZpRel, 2, false)
    case 0x6 => Op("LSR", ZpRel, 2, false)
    case 0x7 => Op("RMB4", ZpRel, 2, false)
    case 0x8 => Op("PHA", Implied, 1, false)
    case 0x9 => Op("EOR", Imm, 2, false)
    case 0xA => Op("LSR", Implied, 1, false)
    case 0xC => Op("JMP", Abs, 3, false)
    case 0xD => Op("EOR", Abs, 3, false)
    case 0xE => Op("LSR", Abs, 3, false)
    case 0xF => Op("BBR4", ZpRel, 3, true)
    case _ => Undefined
  }

  function Row5(low: nat): Op {
    match low
    case 0x0 => Op("BVC", Branch, 2, true)
    case 0x1 => Op("EOR", IndY, 2, false)
    case 0x2 => Op("EOR", IndZ, 2, false)
    case 0x5 => Op("EOR", ZpX, 2, false)
    case 0x6 => Op("LSR", ZpX, 2, false)
    case 0x7 => Op("RMB5", ZpRel, 2, false)
    case 0x8 => Op("CLI", Implied, 1, false)
    case 0x9 => Op("EOR", AbsY, 3, false)
    case 0xA => Op("PHY", Implied, 1, false)
    case 0xD => Op("EOR", AbsX, 3, false)
    case 0xE => Op("LSR", AbsX, 3, false)
    case 0xF => Op("BBR5", ZpRel, 3, true)
    case _ => Undefined
  }

  function Row6(low: nat): Op {
    match low
    case 0x0 => Op("RTS", Implied, 1, false)
    case 0x1 => Op("ADC", IndX, 2, false)
    case 0x4 => Op("STZ", ZpRel, 2, false)
    case 0x5 => Op("ADC", ZpRel, 2, false)
    case 0x6 => Op("ROR", ZpRel, 2, false)
    case 0x7 => Op("RMB6", ZpRel, 2, false)
    case 0x8 => Op("PLA", Implied, 1, false)
    case 0x9 => Op("ADC", Imm, 2, false)
    case 0xA => Op("ROR", Implied, 1, false)
    case 0xC => Op("JMP", Ind, 3, false)
    case 0xD => Op("ADC", Abs, 3, false)
    case 0xE => Op("ROR", Abs, 3, false)
    case 0xF => Op("BBR6", ZpRel, 3, true)
    case _ => Undefined
  }

  function Row7(low: nat): Op {
    match low
    case 0x0 => Op("BVS", Branch, 2, true)
    case 0x1 => Op("ADC", IndY, 2, false)
    case 0x2 => Op("ADC", IndZ, 2, false)
    case 0x4 => Op("STZ", ZpX, 2, false)
    case 0x5 => Op("ADC", ZpX, 2, false)
    case 0x6 => Op("ROR", ZpX, 2, false)
    case 0x7 => Op("RMB7", ZpRel, 2, false)
    case 0x8 => Op("SEI", Implied, 1, false)
    case 0x9 => Op("ADC", AbsY, 3, false)
    case 0xA => Op("PLY", Implied, 1, false)
    case 0xC => Op("JMP", IndAx, 3, false)
    case 0xD => Op("ADC", AbsX, 3, false)
    case 0xE => Op("ROR", AbsX, 3, false)
    case 0xF => Op("BBR7", ZpRel, 3, true)
    case _ => Undefined
  }

  function Row8(low: nat): Op {
    match low
    case 0x0 => Op("BRA", Branch, 2, true)
    case 0x1 => Op("STA", IndX, 2, false)
    case 0x4 => Op("STY", ZpRel, 2, false)
    case 0x5 => Op("STA", ZpRel, 2, false)
    case 0x6 => Op("STX", ZpRel, 2, false)
    case 0x7 => Op("SMB0", ZpRel, 2, false)
    case 0x8 => Op("DEY", Implied, 1, false)
    case 0x9 => Op("BIT", Imm, 2, false)
    case 0xA => Op("TXA", Implied, 1, false)
    case 0xC => Op("STY", Abs, 3, false)
    case 0xD => Op("STA", Abs, 3, false)
    case 0xE => Op("STX", Abs, 3, false)
    case 0xF => Op("BBS0", ZpRel, 3, true)
    case _ => Undefined
  }

  function Row9(low: nat): Op {
    match low
    case 0x0 => Op("BCC", Branch, 2, true)
    case 0x1 => Op("STA", IndY, 2, false)
    case 0x2 => Op("STA", IndZ, 2, false)
    case 0x4 => Op("STY", ZpX, 2, false)
    case 0x5 => Op("STA", ZpX, 2, false)
    case 0x6 => Op("STX", ZpY, 2, false)
    case 0x7 => Op("SMB1", ZpRel, 2, false)
    case 0x8 => Op("TYA", Implied, 1, false)
    case 0x9 => Op("STA", AbsY, 3, false)
    case 0xA => Op("TXS", Implied, 1, false)
    case 0xC => Op("STZ", Abs, 3, false)
    case 0xD => Op("STA", AbsX, 3, false)
    case 0xE => Op("STZ", AbsX, 3, false)
    case 0xF => Op("BBS1", ZpRel, 3, true)
    case _ => Undefined
  }

  function RowA(low: nat): Op {
    match low
    case 0x0 => Op("LDY", Imm, 2, false)
    case 0x1 => Op("LDA", IndX, 2, false)
    case 0x2 => Op("LDX", Imm, 2, false)
    case 0x4 => Op("LDY", ZpRel, 2, false)
    case 0x5 => Op("LDA", ZpRel, 2, false)
    case 0x6 => Op("LDX", ZpRel, 2, false)
    case 0x7 => Op("SMB2", ZpRel, 2, false)
    case 0x8 => Op("TAY", Implied, 1, false)
    case 0x9 => Op("LDA", Imm, 2, false)
    case 0xA => Op("TAX", Implied, 1, false)
    case 0xC => Op("LDY", Abs, 3, false)
    case 0xD => Op("LDA", Abs, 3, false)
    case 0xE => Op("LDX", Abs, 3, false)
    case 0xF => Op("BBS2", ZpRel, 3, true)
    case _ => Undefined
  }

  function RowB(low: nat): Op {
    match low
    case 0x0 => Op("BCS", Branch, 2, true)
    case 0x1 => Op("LDA", IndY, 2, false)
    case 0x2 => Op("LDA", IndZ, 2, false)
    case 0x4 => Op("LDY", ZpX, 2, false)
    case 0x5 => Op("LDA", ZpX, 2, false)
    case 0x6 => Op("LDX", ZpY, 2, false)
    case 0x7 => Op("SMB3", ZpRel, 2, false)
    case 0x8 => Op("CLV", Implied, 1, false)
    case 0x9 => Op("LDA", AbsY, 3, false)
    case 0xA => Op("TSX", Implied, 1, false)
    case 0xC => Op("LDY", AbsX, 3, false)
    case 0xD => Op("LDA", AbsX, 3, false)
    case 0xE => Op("LDX", AbsY, 3, false)
    case 0xF => Op("BBS3", ZpRel, 3, true)
    case _ => Undefined
  }

  function RowC(low: nat): Op {
    match low
    case 0x0 => Op("CPY", Imm, 2, false)
    case 0x1 => Op("CMP", IndX, 2, false)
    case 0x4 => Op("CPY", ZpRel, 2, false)
    case 0x5 => Op("CMP", ZpRel, 2, false)
    case 0x6 => Op("DEC", ZpRel, 2, false)
    case 0x7 => Op("SMB4", ZpRel, 2, false)
    case 0x8 => Op("INY", Implied, 1, false)
    case 0x9 => Op("CMP", Imm, 2, false)
    case 0xA => Op("DEX", Implied, 1, false)
    case 0xC => Op("CPY", Abs, 3, false)
    case 0xD => Op("CMP", Abs, 3, false)
    case 0xE => Op("DEC", Abs, 3, false)
    case 0xF => Op("BBS4", ZpRel, 3, true)
    case _ => Undefined
  }

  function RowD(low: nat): Op {
    match low
    case 0x0 => Op("BNE", Branch, 2, true)
    case 0x1 => Op("CMP", IndY, 2, false)
    case 0x2 => Op("CMP", IndZ, 2, false)
    case 0x5 => Op("CMP", ZpX, 2, false)
    case 0x6 => Op("DEC", ZpX, 2, false)
    case 0x7 => Op("SMB5", ZpRel, 2, false)
    case 0x8 => Op("CLD", Implied, 1, false)
    case 0x9 => Op("CMP", AbsY, 3, false)
    case 0xA => Op("PHX", Implied, 1, false)
    case 0xD => Op("CMP", AbsX, 3, false)
    case 0xE => Op("DEC", AbsX, 3, false)
    case 0xF => Op("BBS5", ZpRel, 3, true)
    case _ => Undefined
  }

  function RowE(low: nat): Op {
    match low
    case 0x0 => Op("CPX", Imm, 2, false)
    case 0x1 => Op("SBC", IndX, 2, false)
    case 0x4 => Op("CPX", ZpRel, 2, false)
    case 0x5 => Op("SBC", ZpRel, 2, false)
    case 0x6 => Op("INC", ZpRel, 2, false)
    case 0x7 => Op("SMB6", ZpRel, 2, false)
    case 0x8 => Op("INX", Implied, 1, false)
    case 0x9 => Op("SBC", Imm, 2, false)
    case 0xA => Op("NOP", Implied, 1, false)
    case 0xC => Op("CPX", Abs, 3, false)
    case 0xD => Op("SBC", Abs, 3, false)
    case 0xE => Op("INC", Abs, 3, false)
    case 0xF => Op("BBS6", ZpRel, 3, true)
    case _ => Undefined
  }

  function RowF(low: nat): Op {
    match low
    case 0x0 => Op("BEQ", Branch, 2, true)
    case 0x1 => Op("SBC", IndY, 2, false)
    case 0x2 => Op("SBC", IndZ, 2, false)
    case 0x5 => Op("SBC", ZpX, 2, false)
    case 0x6 => Op("INC", ZpX, 2, false)
    case 0x7 => Op("SMB7", ZpRel, 2, false)
    case 0x8 => Op("SED", Implied, 1, false)
    case 0x9 => Op("SBC", AbsY, 3, false)
    case 0xA => Op("PLX", Implied, 1, false)
    case 0xD => Op("SBC", AbsX, 3, false)
    case 0xE => Op("INC", AbsX, 3, false)
    case 0xF => Op("BBS7", ZpRel, 3, true)
    case _ => Undefined
  }

  // mii_cpu_op
  function OpOf(op: nat): Op {
    match op / 16
    case 0x0 => Row0(op % 16)
    case 0x1 => Row1(op % 16)
    case 0x2 => Row2(op % 16)
    case 0x3 => Row3(op % 16)
    case 0x4 => Row4(op % 16)
    case 0x5 => Row5(op % 16)
    case 0x6 => Row6(op % 16)
    case 0x7 => Row7(op % 16)
    case 0x8 => Row8(op % 16)
    case 0x9 => Row9(op % 16)
    case 0xA => RowA(op % 16)
    case 0xB => RowB(op % 16)
    case 0xC => RowC(op % 16)
    case 0xD => RowD(op % 16)
    case 0xE => RowE(op % 16)
    case 0xF => RowF(op % 16)
    case _ => Undefined
  }

  // ---- A name and a mode belong to one opcode ----

  // Instructions of the same kind have their opcodes at the same distances.
  function Arithmetic(base: nat, mode: Mode): nat {
    base + match mode
           case ZpRel => 0x04 case Imm => 0x08 case Abs => 0x0C case IndY => 0x10 case IndZ => 0x11
           case ZpX => 0x14 case AbsY => 0x18 case AbsX => 0x1C case _ => 0
  }

  function Memory(base: nat, mode: Mode): nat {
    base + match mode
           case Implied => 0x04 case Abs => 0x08 case ZpX => 0x10 case ZpY => 0x10 case AbsX => 0x18
           case AbsY => 0x18 case _ => 0
  }

  // A character of a text, or the zero after its end.
  function At(s: string, i: nat): char {
    if i < |s| then s[i] else '\0'
  }

  function Digit(s: string): nat {
    if At(s, 3) < '0' then 0 else At(s, 3) as int - '0' as int
  }

  // The opcode of a name in a mode, letter by letter; only right for names and modes that are in the table.
  function FindA(s: string, mode: Mode): nat {
    if At(s, 1) == 'D' then Arithmetic(0x61, mode)
    else if At(s, 1) == 'N' then Arithmetic(0x21, mode)
    else Memory(0x06, mode)
  }

  function FindB(s: string, mode: Mode): nat {
    if At(s, 1) == 'B' then (if At(s, 2) == 'R' then 0x0F + 0x10 * Digit(s) else 0x8F + 0x10 * Digit(s))
    else if At(s, 1) == 'C' then (if At(s, 2) == 'C' then 0x90 else 0xB0)
    else if At(s, 1) == 'E' then 0xF0
    else if At(s, 1) == 'I' then (if mode.Imm? then 0x89 else Arithmetic(0x20, mode))
    else if At(s, 1) == 'M' then 0x30
    else if At(s, 1) == 'N' then 0xD0
    else if At(s, 1) == 'P' then 0x10
    else if At(s, 1) == 'R' then (if At(s, 2) == 'A' then 0x80 else 0x00)
    else (if At(s, 2) == 'C' then 0x50 else 0x70)
  }

  function FindC(s: string, mode: Mode): nat {
    if At(s, 1) == 'L' then (if At(s, 2) == 'C' then 0x18 else if At(s, 2) == 'D' then 0xD8
        else if At(s, 2) == 'I' then 0x58 else 0xB8)
    else if At(s, 1) == 'M' then Arithmetic(0xC1, mode)
    else (if At(s, 2) == 'X' then (if mode.Imm? then 0xE0 else Arithmetic(0xE0, mode))
        else (if mode.Imm? then 0xC0 else Arithmetic(0xC0, mode)))
  }

  function FindD(s: string, mode: Mode): nat {
    (if At(s, 2) == 'C' then (if mode.Implied? then 0x3A else Arithmetic(0xC2, mode))
        else if At(s, 2) == 'X' then 0xCA else 0x88)
  }

  function FindE(s: string, mode: Mode): nat {
    Arithmetic(0x41, mode)
  }

  function FindI(s: string, mode: Mode): nat {
    (if At(s, 2) == 'C' then (if mode.Implied? then 0x1A else Arithmetic(0xE2, mode))
        else if At(s, 2) == 'X' then 0xE8 else 0xC8)
  }

  function FindJ(s: string, mode: Mode): nat {
    if At(s, 1) == 'M' then (if mode.Abs? then 0x4C else if mode.Ind? then 0x6C else 0x7C)
    else 0x20
  }

  function FindL(s: string, mode: Mode): nat {
    if At(s, 1) == 'D' then (if At(s, 2) == 'A' then Arithmetic(0xA1, mode)
        else if At(s, 2) == 'X' then (if mode.Imm? then 0xA2 else Memory(0xA6, mode))
        else (if mode.Imm? then 0xA0 else Arithmetic(0xA0, mode)))
    else Memory(0x46, mode)
  }

  function FindN(s: string, mode: Mode): nat {
    0xEA
  }

  function FindO(s: string, mode: Mode): nat {
    Arithmetic(0x01, mode)
  }

  function FindP(s: string, mode: Mode): nat {
    if At(s, 1) == 'H' then (if At(s, 2) == 'A' then 0x48 else if At(s, 2) == 'P' then 0x08
        else if At(s, 2) == 'X' then 0xDA else 0x5A)
    else (if At(s, 2) == 'A' then 0x68 else if At(s, 2) == 'P' then 0x28 else if At(s, 2) == 'X' then 0xFA
        else 0x7A)
  }

  function FindR(s: string, mode: Mode): nat {
    if At(s, 1) == 'M' then 0x07 + 0x10 * Digit(s)
    else if At(s, 1) == 'O' then (if At(s, 2) == 'L' then Memory(0x26, mode) else Memory(0x66, mode))
    else (if At(s, 2) == 'I' then 0x40 else 0x60)
  }

  function FindS(s: string, mode: Mode): nat {
    if At(s, 1) == 'B' then Arithmetic(0xE1, mode)
    else if At(s, 1) == 'E' then (if At(s, 2) == 'C' then 0x38 else if At(s, 2) == 'D' then 0xF8 else 0x78)
    else if At(s, 1) == 'M' then 0x87 + 0x10 * Digit(s)
    else (if At(s, 2) == 'A' then Arithmetic(0x81, mode) else if At(s, 2) == 'X' then Memory(0x86, mode)
        else if At(s, 2) == 'Y' then Arithmetic(0x80, mode) else (if mode.Abs? then 0x9C
        else if mode.AbsX? then 0x9E else Arithmetic(0x60, mode)))
  }

  function FindT(s: string, mode: Mode): nat {
    if At(s, 1) == 'A' then (if At(s, 2) == 'X' then 0xAA else 0xA8)
    else if At(s, 1) == 'R' then Arithmetic(0x10, mode)
    else if At(s, 1) == 'S' then (if At(s, 2) == 'B' then Arithmetic(0x00, mode) else 0xBA)
    else if At(s, 1) == 'X' then (if At(s, 2) == 'A' then 0x8A else 0x9A)
    else 0x98
  }

  function ByName(s: string, mode: Mode): nat {
    if At(s, 0) == 'A' then FindA(s, mode)
    else if At(s, 0) == 'B' then FindB(s, mode)
    else if At(s, 0) == 'C' then FindC(s, mode)
    else if At(s, 0) == 'D' then FindD(s, mode)
    else if At(s, 0) == 'E' then FindE(s, mode)
    else if At(s, 0) == 'I' then FindI(s, mode)
    else if At(s, 0) == 'J' then FindJ(s, mode)
    else if At(s, 0) == 'L' then FindL(s, mode)
    else if At(s, 0) == 'N' then FindN(s, mode)
    else if At(s, 0) == 'O' then FindO(s, mode)
    else if At(s, 0) == 'P' then FindP(s, mode)
    else if At(s, 0) == 'R' then FindR(s, mode)
    else if At(s, 0) == 'S' then FindS(s, mode)
    else FindT(s, mode)
  }

  // The length goes with the mode; JSR is marked as implied, but has a two-byte operand.
  function LengthOf(mode: Mode): nat {
    match mode
    case Implied => 1
    case Imm => 2
    case ZpRel => 2
    case ZpX => 2
    case ZpY => 2
    case IndX => 2
    case IndY => 2
    case IndZ => 2
    case Branch => 2
    case _ => 3
  }

  ghost predicate Regular(o: Op, op: nat) {
    o.Op? ==>
      && 3 <= |o.name| <= 4 && o.name != "EQU" && ByName(o.name, o.mode) == op
      && (!o.branch ==> o.pc == if op == 0x20 then 3 else LengthOf(o.mode))
      && (o.mode.IndAx? <==> op == 0x7C) && (op == 0x7C ==> o.name == "JMP") && (o.mode.IndX? ==> o.name != "JMP")
      && (op == 0x20 <==> o.name == "JSR") && (op == 0x20 ==> o.mode.Implied? && !o.branch)
      && (o.mode.Branch? ==> o.branch)
      && (o.branch <==> o.name[0] == 'B' && o.name != "BIT" && o.name != "BRK")
      && forall i | 0 <= i < |o.name| :: 'A' <= o.name[i] <= 'Z' || '0' <= o.name[i] <= '7'
  }

  lemma Row0Regular(low: nat)
    requires low < 16
    ensures Regular(Row0(low), 0x00 + low)
  {
  }

  lemma Row1Regular(low: nat)
    requires low < 16
    ensures Regular(Row1(low), 0x10 + low)
  {
  }

  lemma Row2Regular(low: nat)
    requires low < 16
    ensures Regular(Row2(low), 0x20 + low)
  {
  }

  lemma Row3Regular(low: nat)
    requires low < 16
    ensures Regular(Row3(low), 0x30 + low)
  {
  }

  lemma Row4Regular(low: nat)
    requires low < 16
    ensures Regular(Row4(low), 0x40 + low)
  {
  }

  lemma Row5Regular(low: nat)
    requires low < 16
    ensures Regular(Row5(low), 0x50 + low)
  {
  }

  lemma Row6Regular(low: nat)
    requires low < 16
    ensures Regular(Row6(low), 0x60 + low)
  {
  }

  lemma Row7Regular(low: nat)
    requires low < 16
    ensures Regular(Row7(low), 0x70 + low)
  {
  }

  lemma Row8Regular(low: nat)
    requires low < 16
    ensures Regular(Row8(low), 0x80 + low)
  {
  }

  lemma Row9Regular(low: nat)
    requires low < 16
    ensures Regular(Row9(low), 0x90 + low)
  {
  }

  lemma RowARegular(low: nat)
    requires low < 16
    ensures Regular(RowA(low), 0xA0 + low)
  {
  }

  lemma RowBRegular(low: nat)
    requires low < 16
    ensures Regular(RowB(low), 0xB0 + low)
  {
  }

  lemma RowCRegular(low: nat)
    requires low < 16
    ensures Regular(RowC(low), 0xC0 + low)
  {
  }

  lemma RowDRegular(low: nat)
    requires low < 16
    ensures Regular(RowD(low), 0xD0 + low)
  {
  }

  lemma RowERegular(low: nat)
    requires low < 16
    ensures Regular(RowE(low), 0xE0 + low)
  {
  }

  lemma RowFRegular(low: nat)
    requires low < 16
    ensures Regular(RowF(low), 0xF0 + low)
  {
  }

  lemma TableIsRegular(op: nat)
    requires op < 0x100
    ensures Regular(OpOf(op), op)
  {
    var low := op % 16;
    hide Regular;
    match op / 16 {
      case 0x0 => Row0Regular(low);
      case 0x1 => Row1Regular(low);
      case 0x2 => Row2Regular(low);
      case 0x3 => Row3Regular(low);
      case 0x4 => Row4Regular(low);
      case 0x5 => Row5Regular(low);
      case 0x6 => Row6Regular(low);
      case 0x7 => Row7Regular(low);
      case 0x8 => Row8Regular(low);
      case 0x9 => Row9Regular(low);
      case 0xA => RowARegular(low);
      case 0xB => RowBRegular(low);
      case 0xC => RowCRegular(low);
      case 0xD => RowDRegular(low);
      case 0xE => RowERegular(low);
      case 0xF => RowFRegular(low);
      case _ =>
    }
  }

  // Two opcodes with the same name and mode are the same.
  lemma NameAndModeDecide(a: nat, b: nat)
    requires a < 0x100 && b < 0x100 && OpOf(a).Op? && OpOf(b).Op?
    requires OpOf(a).name == OpOf(b).name && OpOf(a).mode == OpOf(b).mode
    ensures a == b
  {
    TableIsRegular(a);
    TableIsRegular(b);
    hide OpOf, ByName;
  }
}
