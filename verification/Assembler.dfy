// The disassembler of src/mii_65c02_disasm.c and the assembler of src/mii_65c02_asm.c.
//
// AsmText has the string functions both of them rest on; Disassembler prints an instruction;
// Assembler reads a line, chooses an opcode and lays out the bytes; RoundTrip shows when assembling
// what has been printed gives back the bytes; AsmProgram has the passes over the lines as loops.
module AsmText {
  import opened Basics
  import opened Ops

  // ---- Characters ----

  function Lower(c: char): char {
    if 'A' <= c <= 'Z' then (c as int + 32) as char else c
  }

  predicate IsBlank(c: char) {
    c == ' ' || c == '\t'
  }

  predicate IsHexDigit(c: char) {
    '0' <= c <= '9' || 'a' <= c <= 'f' || 'A' <= c <= 'F'
  }

  function HexValue(c: char): nat
    requires IsHexDigit(c)
  {
    var l := Lower(c);
    if l <= '9' then l as int - '0' as int else l as int - 'a' as int + 10
  }

  // ---- C strings ----

  function SkipBlanks(s: string): string {
    if s != [] && IsBlank(s[0]) then SkipBlanks(s[1..]) else s
  }

  datatype Split = Split(token: string, rest: Option<string>)

  // strsep with " \t": the text up to the first blank, and what comes after it, if there is one.
  function Strsep(s: string): Split {
    if s == [] then Split([], None)
    else if IsBlank(s[0]) then Split([], Some(s[1..]))
    else var r := Strsep(s[1..]); Split([s[0]] + r.token, r.rest)
  }

  // strncasecmp(a, b, 4) == 0
  predicate SameName(a: string, b: string) {
    && Lower(At(a, 0)) == Lower(At(b, 0)) && Lower(At(a, 1)) == Lower(At(b, 1))
    && Lower(At(a, 2)) == Lower(At(b, 2)) && Lower(At(a, 3)) == Lower(At(b, 3))
  }

  ghost predicate NoBlanks(s: string) {
    forall i | 0 <= i < |s| :: !IsBlank(s[i])
  }

  // ---- Hexadecimal ----

  function HexDigit(d: nat): char
    requires d < 16
  {
    if d < 10 then ('0' as int + d) as char else ('A' as int + d - 10) as char
  }

  // %02X
  function Hex2(b: nat): (s: string)
    requires b < 0x100
    ensures |s| == 2
  {
    [HexDigit(b / 16), HexDigit(b % 16)]
  }

  // while (isxdigit(*end)) value = (value << 4) + digit
  function ReadHex(s: string, value: nat): (nat, string) {
    if s != [] && IsHexDigit(s[0]) then ReadHex(s[1..], value * 16 + HexValue(s[0])) else (value, s)
  }

  // A text that stops a number.
  predicate Stops(s: string) {
    s == [] || !IsHexDigit(s[0])
  }

  lemma DigitReads(d: nat)
    requires d < 16
    ensures IsHexDigit(HexDigit(d)) && HexValue(HexDigit(d)) == d && !IsBlank(HexDigit(d))
  {
  }

  lemma ReadOne(d: nat, s: string, value: nat)
    requires d < 16
    ensures ReadHex([HexDigit(d)] + s, value) == ReadHex(s, value * 16 + d)
  {
    DigitReads(d);
    assert ([HexDigit(d)] + s)[1..] == s;
  }

  // What %02X prints is read back, and reading stops where it ends.
  lemma Hex2Reads(b: nat, s: string, value: nat)
    requires b < 0x100
    ensures ReadHex(Hex2(b) + s, value) == ReadHex(s, value * 0x100 + b)
  {
    var hi, lo := b / 16, b % 16;
    assert Hex2(b) + s == [HexDigit(hi)] + ([HexDigit(lo)] + s);
    ReadOne(hi, [HexDigit(lo)] + s, value);
    ReadOne(lo, s, value * 16 + hi);
    assert (value * 16 + hi) * 16 + lo == value * 0x100 + b;
  }

  // ---- Tokens ----

  lemma {:induction false} StrsepAtBlank(token: string, rest: string)
    requires NoBlanks(token)
    ensures Strsep(token + " " + rest) == Split(token, Some(rest))
  {
    if token == [] {
      assert ([] + " " + rest)[1..] == rest;
    } else {
      assert (token + " " + rest)[1..] == token[1..] + " " + rest;
      StrsepAtBlank(token[1..], rest);
    }
  }

  lemma {:induction false} StrsepToEnd(token: string)
    requires NoBlanks(token)
    ensures Strsep(token) == Split(token, None)
  {
    if token != [] {
      StrsepToEnd(token[1..]);
    }
  }

  // ---- Names ----

  predicate IsNameChar(c: char) {
    'A' <= c <= 'Z' || '0' <= c <= '7'
  }

  ghost predicate IsName(s: string) {
    3 <= |s| <= 4 && forall i | 0 <= i < |s| :: IsNameChar(s[i])
  }

  // Names of the table are told apart by the comparison without case.
  lemma SameNameSame(a: string, b: string)
    requires IsName(a) && IsName(b) && SameName(a, b)
    ensures a == b
  {
    forall i | 0 <= i < 4
      ensures At(a, i) == At(b, i)
    {
      LowerApart(At(a, i), At(b, i));
    }
    assert |a| == |b| by {
      assert At(a, 3) == '\0' <==> |a| == 3;
      assert At(b, 3) == '\0' <==> |b| == 3;
    }
    forall i | 0 <= i < |a|
      ensures a[i] == b[i]
    {
      assert At(a, i) == At(b, i);
    }
  }

  lemma LowerApart(a: char, b: char)
    requires (IsNameChar(a) || a == '\0') && (IsNameChar(b) || b == '\0') && Lower(a) == Lower(b)
    ensures a == b
  {
  }
}

// mii_cpu_disasm_one with no flags.
module Disassembler {
  import opened Basics
  import opened Ops
  import opened AsmText

  // An instruction with its operand as a number; its length is that of the opcode.
  datatype Instr = Instr(op: nat, operand: nat)

  // An entry of the table that is not a branch, and an operand that fits.
  ghost predicate Plain(i: Instr) {
    && i.op < 0x100 && OpOf(i.op).Op? && !OpOf(i.op).branch
    && i.operand < (if OpOf(i.op).pc == 1 then 1 else if OpOf(i.op).pc == 2 then 0x100 else 0x1_0000)
  }

  // JSR is marked as implied in the table, but printed and measured as absolute.
  function ModeOf(op: nat): Mode
    requires OpOf(op).Op?
  {
    if op == 0x20 then Abs else OpOf(op).mode
  }

  function Bytes(i: Instr): seq<nat>
    requires OpOf(i.op).Op?
  {
    if OpOf(i.op).pc <= 1 then [i.op]
    else if OpOf(i.op).pc == 2 then [i.op, i.operand % 0x100]
    else [i.op, i.operand % 0x100, i.operand / 0x100 % 0x100]
  }

  function Hex4(v: nat): string
    requires v < 0x1_0000
  {
    Hex2(v / 0x100) + Hex2(v % 0x100)
  }

  function OperandText(mode: Mode, v: nat): string
    requires v < 0x1_0000 && (LengthOf(mode) == 2 ==> v < 0x100)
  {
    match mode
    case Implied => ""
    case Imm => "#$" + Hex2(v)
    case ZpRel => "$" + Hex2(v)
    case Branch => "$" + Hex2(v)
    case ZpX => "$" + Hex2(v) + ",X"
    case ZpY => "$" + Hex2(v) + ",Y"
    case Abs => "$" + Hex4(v)
    case AbsX => "$" + Hex4(v) + ",X"
    case AbsY => "$" + Hex4(v) + ",Y"
    case IndX => "($" + Hex2(v) + ",X)"
    case IndAx => "($" + Hex4(v) + ",X)"
    case IndY => "($" + Hex2(v) + "),Y"
    case IndZ => "($" + Hex2(v) + ")"
    case Ind => "($" + Hex4(v) + ")"
  }

  lemma PlainShape(i: Instr)
    requires Plain(i)
    ensures var o, mode := OpOf(i.op), ModeOf(i.op);
      && IsName(o.name) && o.pc == LengthOf(mode) && !mode.Branch?
      && i.operand < 0x1_0000 && (o.pc == 2 ==> i.operand < 0x100) && (o.pc == 1 ==> i.operand == 0)
      && (mode.IndAx? ==> o.name == "JMP") && (mode.IndX? ==> o.name != "JMP")
  {
    TableIsRegular(i.op);
    hide OpOf, ByName;
  }

  function Text(i: Instr): string
    requires Plain(i)
  {
    PlainShape(i);
    OpOf(i.op).name + " " + OperandText(ModeOf(i.op), i.operand)
  }
}

module Assembler {
  import opened Basics
  import opened Ops
  import opened AsmText
  import opened Disassembler

  // ---- Operands ----

  // op_value, op_low, op_high and op_name, and where reading stopped.
  datatype Extracted = Extracted(value: nat, low: bool, high: bool, name: string, rest: string)

  const APPLE2_CHARSET: string :=
    "@ABCDEFGHIJKLMNO" + "PQRSTUVWXYZ[\\]^_" + " !\"#$%&'()*+,-./" + "0123456789:;<=>?" + "................"
    + "................" + "`abcdefghijklmno" + "pqrstuvwxyz{|}~"

  // strchr
  function IndexOf(s: string, c: char): int {
    if s == [] then -1 else if s[0] == c then 0 else
      var i := IndexOf(s[1..], c);
      if i < 0 then -1 else i + 1
  }

  function ReadChars(s: string, value: nat): (nat, string) {
    if s == [] || s[0] == '\'' || s[0] == '"' then (value, s)
    else
      var i := IndexOf(APPLE2_CHARSET, s[0]);
      ReadChars(s[1..], if i >= 0 then value * 0x100 + i else value)
  }

  // Decimal digits are read as hexadecimal ones.
  function ReadDigits(s: string, value: nat): (nat, string) {
    if s != [] && '0' <= s[0] <= '9' then ReadDigits(s[1..], value * 16 + HexValue(s[0])) else (value, s)
  }

  predicate IsWordChar(c: char) {
    IsHexDigit(c) || 'A' <= c <= 'Z' || 'a' <= c <= 'z' || c == '_'
  }

  function ReadName(s: string): (string, string) {
    if s != [] && IsWordChar(s[0]) then var r := ReadName(s[1..]); ([s[0]] + r.0, r.1) else ([], s)
  }

  // _mii_extract_value_or_name
  function ExtractValueOrName(src: string): Extracted {
    var low, high := At(src, 0) == '<', At(src, 0) == '>';
    var s := if low || high then src[1..] else src;
    if At(s, 0) == '$' then var r := ReadHex(s[1..], 0); Extracted(r.0, low, high, "", r.1)
    else if '0' <= At(s, 0) <= '9' then var r := ReadDigits(s, 0); Extracted(r.0, low, high, "", r.1)
    else if At(s, 0) == '\'' || At(s, 0) == '"' then
      var r := ReadChars(s[1..], 0); Extracted(r.0, low, high, "", r.1)
    else var r := ReadName(s); Extracted(0, low, high, r.0, r.1)
  }

  // mii_cpu_op[i].name and .mode, an entry that is not filled in being all zeros.
  function EntryName(i: nat): string {
    if OpOf(i).Op? then OpOf(i).name else ""
  }

  function EntryMode(i: nat): Mode {
    if OpOf(i).Op? then OpOf(i).mode else Implied
  }

  // mii_cpu_opcode_has_mode
  function OpcodeHasMode(mnemonic: string, mode: Mode, i: nat): int
    decreases if i < 256 then 256 - i else 0
  {
    if i >= 256 then -1
    else if SameName(mnemonic, EntryName(i)) && mode == EntryMode(i) then i
    else OpcodeHasMode(mnemonic, mode, i + 1)
  }

  // The zero-page mode that is tried when the operand is below $100.
  function ShortMode(mode: Mode): Option<Mode> {
    match mode
    case Abs => Some(ZpRel)
    case AbsX => Some(ZpX)
    case AbsY => Some(ZpY)
    case Ind => Some(IndZ)
    case _ => None
  }

  predicate HasShort(mnemonic: string, mode: Mode) {
    ShortMode(mode).Some? && OpcodeHasMode(mnemonic, ShortMode(mode).value, 0) != -1
  }

  datatype Parsed = Parsed(mode: Mode, value: nat, name: string)

  // The mode that the characters after the value ask for.
  function ModeAfter(mnemonic: string, mode: Mode, inParentheses: bool, rest: string): Mode {
    var src := SkipBlanks(rest);
    if At(src, 0) == ',' && src != [] then
      var c := Lower(At(SkipBlanks(src[1..]), 0));
      if c == 'x' then
        if inParentheses then (if |mnemonic| == 3 && SameName(mnemonic, "JMP") then IndAx else IndX) else AbsX
      else if c == 'y' then AbsY
      else Abs
    else if At(src, 0) == ')' && src != [] then
      if At(src[1..], 0) == ',' && src[1..] != [] then
        if Lower(At(SkipBlanks(src[2..]), 0)) == 'x' then IndX else IndY
      else Ind
    else mode
  }

  // _mii_cpu_asm_parse_operand
  function ParseOperand(mnemonic: string, operand: string): Parsed {
    if operand == [] then Parsed(Implied, 0, "")
    else
      var c := operand[0];
      var x := ExtractValueOrName(if c == '#' || c == '(' then operand[1..] else operand);
      var mode := ModeAfter(mnemonic, if c == '#' then Imm else if c == '(' then Ind else Abs, c == '(', x.rest);
      Parsed(if x.value < 0x100 && HasShort(mnemonic, mode) then ShortMode(mode).value else mode, x.value, x.name)
  }

  // ---- Lines ----

  // The search of mii_cpu_asm_assemble: the first entry with the name and the mode, or a branch of that
  // name; JSR is taken for an absolute operand if nothing better comes.
  function FindOpcode(mnemonic: string, mode: Mode, i: nat, found: int): int
    decreases if i < 256 then 256 - i else 0
  {
    if i >= 256 then found
    else if SameName(mnemonic, EntryName(i)) then
      if OpOf(i).Op? && OpOf(i).branch then i
      else if mode == EntryMode(i) then i
      else FindOpcode(mnemonic, mode, i + 1, if OpOf(i).Op? && i == 0x20 && mode == Abs then i else found)
    else FindOpcode(mnemonic, mode, i + 1, found)
  }

  // strrchr(dup, ';'), and what is before it.
  function CutComment(s: string): string {
    if s == [] then [] else if s[|s| - 1] == ';' then s[..|s| - 1] else
      var cut := CutComment(s[..|s| - 1]);
      if cut == s[..|s| - 1] then s else cut
  }

  // _mii_extract_token, into 64 characters.
  function ExtractToken(position: Option<string>): Split {
    if position.None? then Split([], None)
    else
      var r := Strsep(SkipBlanks(position.value));
      Split(if |r.token| > 63 then r.token[..63] else r.token, r.rest)
  }

  // A line without code, one that the model leaves out (labels, directives, symbols), an error, or the
  // bytes of an instruction.
  datatype Line = Blank | Other | Error | Code(bytes: seq<nat>)

  predicate IsDirective(mnemonic: string, operand: string) {
    || At(mnemonic, 0) == '.' || At(mnemonic, 0) == '=' || mnemonic == "byte" || mnemonic == "text"
    || (|mnemonic| == 3 && SameName(mnemonic, "equ")) || At(operand, 0) == '.' || At(operand, 0) == '='
  }

  function AssembleLine(line: string): Line {
    var text := CutComment(line);
    if text == [] then Blank
    else if !IsBlank(text[0]) then Other
    else
      var m := ExtractToken(Some(text));
      var o := ExtractToken(m.rest);
      if m.token == [] then Blank
      else if IsDirective(m.token, o.token) then Other
      else
        var p := ParseOperand(m.token, o.token);
        if p.name != [] then Other
        else
          var found := FindOpcode(m.token, p.mode, 0, -1);
          if found < 0 || !OpOf(found).Op? then Error else Code(Bytes(Instr(found, p.value)))
  }

  // ---- Programs ----

  // The loop over strchr(current, '\n').
  function Lines(text: string): seq<string> {
    if text == [] then [[]]
    else if text[0] == '\n' then [[]] + Lines(text[1..])
    else var rest := Lines(text[1..]); [[text[0]] + rest[0]] + rest[1..]
  }

  // All bytes in order, unless a line is an error or is left out.
  function AssembleLines(lines: seq<string>): Option<seq<nat>> {
    if lines == [] then Some([])
    else
      var first, rest := AssembleLine(lines[0]), AssembleLines(lines[1..]);
      if rest.None? || first.Error? || first.Other? then None
      else if first.Code? then Some(first.bytes + rest.value) else rest
  }
}

// Assembling what has been disassembled.
module RoundTrip {
  import opened Basics
  import opened Ops
  import opened AsmText
  import opened Disassembler
  import opened Assembler

  // The indented line of one instruction.
  function LineOf(i: Instr): string
    requires Plain(i)
  {
    " " + Text(i)
  }

  // ---- The search finds the opcode ----

  lemma EntryIsName(i: nat)
    requires i < 0x100 && OpOf(i).Op?
    ensures IsName(EntryName(i)) && EntryName(i) == OpOf(i).name && EntryMode(i) == OpOf(i).mode
  {
    TableIsRegular(i);
    hide OpOf, ByName;
  }

  // An entry with the name of an instruction that is not a branch is of the same name, and no branch.
  lemma SameEntry(op: nat, i: nat)
    requires op < 0x100 && i < 0x100 && OpOf(op).Op? && !OpOf(op).branch
    requires SameName(OpOf(op).name, EntryName(i))
    ensures OpOf(i).Op? && OpOf(i).name == OpOf(op).name && !OpOf(i).branch
  {
    TableIsRegular(op);
    TableIsRegular(i);
    EntryIsName(op);
    hide OpOf, ByName;
    assert At(EntryName(op), 0) != '\0';
    if OpOf(i).Op? {
      EntryIsName(i);
      SameNameSame(OpOf(op).name, EntryName(i));
    }
  }

  lemma {:induction false} FindsIt(op: nat, i: nat, found: int)
    requires op < 0x100 && op != 0x20 && OpOf(op).Op? && !OpOf(op).branch && i <= op
    ensures FindOpcode(OpOf(op).name, OpOf(op).mode, i, found) == op
    decreases op - i
  {
    hide OpOf;
    EntryIsName(op);
    if i < op {
      if SameName(OpOf(op).name, EntryName(i)) {
        SameEntry(op, i);
        EntryIsName(i);
        if OpOf(i).mode == OpOf(op).mode {
          NameAndModeDecide(op, i);
        }
        FindsIt(op, i + 1, if OpOf(i).Op? && i == 0x20 && OpOf(op).mode == Abs then i else found);
      } else {
        FindsIt(op, i + 1, found);
      }
    }
  }

  // JSR has no absolute entry: it is found by the special case, and nothing after it undoes that.
  lemma {:induction false} FindsJsr(i: nat, found: int)
    requires i <= 0x100 && (i > 0x20 ==> found == 0x20)
    ensures FindOpcode("JSR", Abs, i, found) == 0x20
    decreases 0x100 - i
  {
    TableIsRegular(0x20);
    hide OpOf, ByName, SameName;
    if i < 0x100 {
      OnlyJsr(i);
      FindsJsr(i + 1, if i == 0x20 then 0x20 else found);
    }
  }

  lemma OnlyJsr(i: nat)
    requires i < 0x100
    ensures SameName("JSR", EntryName(i)) <==> i == 0x20
    ensures OpOf(0x20).Op? && !OpOf(0x20).branch && EntryMode(0x20) == Implied
  {
    TableIsRegular(0x20);
    TableIsRegular(i);
    EntryIsName(0x20);
    assert OpOf(0x20).Op?;
    hide OpOf, ByName;
    if SameName("JSR", EntryName(i)) {
      SameEntry(0x20, i);
    }
  }

  // Whatever is found has the mode that was looked for.
  lemma {:induction false} FoundFits(op: nat, mode: Mode, i: nat, found: int)
    requires op < 0x100 && OpOf(op).Op? && !OpOf(op).branch && mode != Abs
    ensures var r := FindOpcode(OpOf(op).name, mode, i, found);
      r == found || (0 <= r < 0x100 && EntryMode(r) == mode && SameName(OpOf(op).name, EntryName(r)))
    decreases if i < 0x100 then 0x100 - i else 0
  {
    hide OpOf;
    if i < 0x100 {
      if SameName(OpOf(op).name, EntryName(i)) {
        SameEntry(op, i);
      }
      FoundFits(op, mode, i + 1, found);
    }
  }

  // ---- The operand is read back ----

  // ---- Decimal and character operands ----

  predicate IsDigits(s: string) {
    forall i | 0 <= i < |s| :: '0' <= s[i] <= '9'
  }

  // The number that decimal digits stand for.
  function DecimalValue(s: string): nat
    requires IsDigits(s)
  {
    if s == [] then 0 else DecimalValue(s[..|s| - 1]) * 10 + (s[|s| - 1] as int - '0' as int)
  }

  function HexadecimalValue(s: string): nat
    requires IsDigits(s)
  {
    if s == [] then 0 else HexadecimalValue(s[..|s| - 1]) * 16 + (s[|s| - 1] as int - '0' as int)
  }

  lemma {:induction false} DigitsRead(read: string, s: string, rest: string)
    requires IsDigits(read + s) && (rest == [] || !('0' <= rest[0] <= '9'))
    ensures IsDigits(read)
    ensures ReadDigits(s + rest, HexadecimalValue(read)) == (HexadecimalValue(read + s), rest)
    decreases |s|
  {
    assert forall i | 0 <= i < |read| :: read[i] == (read + s)[i];
    if s == [] {
      assert s + rest == rest && read + s == read;
    } else {
      assert (s + rest)[1..] == s[1..] + rest && (read + s)[|read|] == s[0];
      assert (read + [s[0]]) + s[1..] == read + s && (read + [s[0]])[..|read|] == read;
      DigitsRead(read + [s[0]], s[1..], rest);
    }
  }

  lemma {:induction false} HexIsMore(s: string)
    requires IsDigits(s)
    ensures DecimalValue(s) <= HexadecimalValue(s)
    ensures DecimalValue(s) == HexadecimalValue(s) <==> DecimalValue(s) < 10
  {
    if s != [] {
      HexIsMore(s[..|s| - 1]);
    }
  }

  // A decimal number is read with the value of its digits only if that is below 10.
  lemma DecimalOperand(s: string, rest: string)
    requires s != [] && IsDigits(s) && (rest == [] || !('0' <= rest[0] <= '9'))
    ensures ExtractValueOrName(s + rest).value == DecimalValue(s) <==> DecimalValue(s) < 10
    ensures ExtractValueOrName(s + rest).rest == rest && ExtractValueOrName(s + rest).name == ""
  {
    DigitsRead([], s, rest);
    HexIsMore(s);
    assert [] + s == s && HexadecimalValue([]) == 0;
    hide ReadDigits, HexadecimalValue, DecimalValue;
    assert (s + rest)[0] == s[0];
  }

  lemma {:induction false} IndexIsFirst(s: string, c: char)
    ensures var i := IndexOf(s, c);
      if c in s then 0 <= i < |s| && s[i] == c && c !in s[..i] else i == -1
  {
    if s != [] && s[0] != c {
      IndexIsFirst(s[1..], c);
      assert s == [s[0]] + s[1..];
      var i := IndexOf(s, c);
      if i > 0 {
        assert s[..i] == [s[0]] + s[1..][..i - 1];
      }
    }
  }

  // A character in quotes is read as its place in the character set of the Apple II; the reading stops
  // before the closing quote.
  lemma CharacterOperand(c: char, rest: string)
    requires c in APPLE2_CHARSET && c != '\'' && c != '"'
    ensures var x := ExtractValueOrName("'" + [c] + "'" + rest);
      && x.value < |APPLE2_CHARSET| && APPLE2_CHARSET[x.value] == c && c !in APPLE2_CHARSET[..x.value]
      && x.rest == "'" + rest
  {
    IndexIsFirst(APPLE2_CHARSET, c);
    var text, closing := "'" + [c] + "'" + rest, "'" + rest;
    assert text[0] == '\'' && text[1..] == [c] + closing && ([c] + closing)[1..] == closing;
    assert ReadChars([c] + closing, 0) == ReadChars(closing, IndexOf(APPLE2_CHARSET, c));
    hide IndexOf;
    hide APPLE2_CHARSET;
  }

  lemma ExtractsHex2(v: nat, rest: string)
    requires v < 0x100 && Stops(rest)
    ensures ExtractValueOrName("$" + Hex2(v) + rest) == Extracted(v, false, false, "", rest)
  {
    var s := "$" + Hex2(v) + rest;
    assert s[1..] == Hex2(v) + rest;
    Hex2Reads(v, rest, 0);
    hide Hex2;
    assert s[0] == '$';
  }

  lemma ExtractsHex4(v: nat, rest: string)
    requires v < 0x1_0000 && Stops(rest)
    ensures ExtractValueOrName("$" + Hex4(v) + rest) == Extracted(v, false, false, "", rest)
  {
    var s := "$" + Hex4(v) + rest;
    assert s[1..] == Hex2(v / 0x100) + (Hex2(v % 0x100) + rest);
    Hex2Reads(v / 0x100, Hex2(v % 0x100) + rest, 0);
    Hex2Reads(v % 0x100, rest, v / 0x100);
    hide Hex2, Hex4;
    assert s[0] == '$';
  }

  // The mode as it reads before the operand's size is looked at.
  function LongMode(mode: Mode): Mode {
    match mode
    case ZpRel => Abs
    case ZpX => AbsX
    case ZpY => AbsY
    case IndZ => Ind
    case _ => mode
  }

  // The operand text in parts: what leads, the value, and what ends it.
  function Lead(mode: Mode): string {
    match mode
    case Imm => "#"
    case IndX => "("
    case IndAx => "("
    case IndY => "("
    case IndZ => "("
    case Ind => "("
    case _ => ""
  }

  function Tail(mode: Mode): string {
    match mode
    case ZpX => ",X"
    case ZpY => ",Y"
    case AbsX => ",X"
    case AbsY => ",Y"
    case IndX => ",X)"
    case IndAx => ",X)"
    case IndY => "),Y"
    case IndZ => ")"
    case Ind => ")"
    case _ => ""
  }

  function Digits(mode: Mode, v: nat): string
    requires v < 0x1_0000 && (LengthOf(mode) == 2 ==> v < 0x100)
  {
    if LengthOf(mode) == 2 then Hex2(v) else Hex4(v)
  }

  lemma TextInParts(mode: Mode, v: nat)
    requires v < 0x1_0000 && (LengthOf(mode) == 2 ==> v < 0x100) && mode != Implied && mode != Branch
    ensures OperandText(mode, v) == Lead(mode) + ("$" + Digits(mode, v) + Tail(mode))
    ensures Stops(Tail(mode))
  {
    hide Hex2, Hex4;
  }

  lemma TailDecides(mnemonic: string, mode: Mode)
    requires mode != Implied && mode != Branch
    requires mode.IndAx? ==> mnemonic == "JMP"
    requires mode.IndX? ==> !(|mnemonic| == 3 && SameName(mnemonic, "JMP"))
    ensures var first := if Lead(mode) == "#" then Imm else if Lead(mode) == "(" then Ind else Abs;
      ModeAfter(mnemonic, first, Lead(mode) == "(", Tail(mode)) == LongMode(mode)
  {
  }

  lemma OperandReadsBack(mnemonic: string, mode: Mode, v: nat)
    requires v < 0x1_0000 && (LengthOf(mode) == 2 ==> v < 0x100) && mode != Implied && mode != Branch
    requires mode.IndAx? ==> mnemonic == "JMP"
    requires mode.IndX? ==> !(|mnemonic| == 3 && SameName(mnemonic, "JMP"))
    ensures var long := LongMode(mode);
      ParseOperand(mnemonic, OperandText(mode, v))
      == Parsed(if v < 0x100 && HasShort(mnemonic, long) then ShortMode(long).value else long, v, "")
  {
    var value := "$" + Digits(mode, v) + Tail(mode);
    var text := OperandText(mode, v);
    TextInParts(mode, v);
    if LengthOf(mode) == 2 {
      ExtractsHex2(v, Tail(mode));
    } else {
      ExtractsHex4(v, Tail(mode));
    }
    TailDecides(mnemonic, mode);
    hide OperandText, Digits, Tail, ExtractValueOrName, ModeAfter, HasShort, LongMode;
    if Lead(mode) == "" {
      assert text == value && text[0] == '$';
    } else {
      assert text[0] == Lead(mode)[0] && text[1..] == value;
    }
  }

  // ---- The line is taken apart ----

  // A character that neither separates tokens nor lines nor starts a comment.
  predicate IsInk(c: char) {
    !IsBlank(c) && c != ';' && c != '\n'
  }

  ghost predicate AllInk(s: string) {
    forall i | 0 <= i < |s| :: IsInk(s[i])
  }

  lemma NameIsInk(s: string)
    requires IsName(s)
    ensures AllInk(s)
  {
  }

  lemma Hex2IsInk(b: nat)
    requires b < 0x100
    ensures AllInk(Hex2(b))
  {
    DigitReads(b / 16);
    DigitReads(b % 16);
  }

  lemma OperandIsInk(mode: Mode, v: nat)
    requires v < 0x1_0000 && (LengthOf(mode) == 2 ==> v < 0x100) && mode != Branch
    ensures AllInk(OperandText(mode, v)) && |OperandText(mode, v)| <= 12
    ensures At(OperandText(mode, v), 0) != '.' && At(OperandText(mode, v), 0) != '='
    ensures OperandText(mode, v) == [] <==> mode == Implied
  {
    if mode != Implied {
      TextInParts(mode, v);
      PartsAreInk(mode);
      DigitsAreInk(mode, v);
      hide OperandText, Digits, Lead, Tail;
      InkJoins("$", Digits(mode, v));
      InkJoins("$" + Digits(mode, v), Tail(mode));
      InkJoins(Lead(mode), "$" + Digits(mode, v) + Tail(mode));
    }
  }

  lemma InkJoins(a: string, b: string)
    requires AllInk(a) && AllInk(b)
    ensures AllInk(a + b)
  {
  }

  lemma DigitsAreInk(mode: Mode, v: nat)
    requires v < 0x1_0000 && (LengthOf(mode) == 2 ==> v < 0x100)
    ensures AllInk(Digits(mode, v)) && |Digits(mode, v)| <= 4
  {
    Hex2IsInk(v / 0x100);
    Hex2IsInk(v % 0x100);
    if LengthOf(mode) == 2 {
      Hex2IsInk(v);
    }
    hide Hex2;
  }

  lemma PartsAreInk(mode: Mode)
    ensures AllInk(Lead(mode)) && AllInk(Tail(mode)) && |Lead(mode)| <= 1 && |Tail(mode)| <= 3
    ensures At(Lead(mode), 0) != '.' && At(Lead(mode), 0) != '='
  {
  }

  lemma {:induction false} NoComment(s: string)
    requires forall i | 0 <= i < |s| :: s[i] != ';'
    ensures CutComment(s) == s
  {
    if s != [] {
      NoComment(s[..|s| - 1]);
    }
  }

  lemma TokensOf(name: string, operand: string)
    requires IsName(name) && AllInk(operand) && |operand| <= 12
    ensures var text := " " + (name + " " + operand);
      && CutComment(text) == text && text != [] && IsBlank(text[0])
      && ExtractToken(Some(text)) == Split(name, Some(operand))
      && ExtractToken(Some(operand)).token == operand
  {
    var text := " " + (name + " " + operand);
    NameIsInk(name);
    NoComment(text);
    assert text[1..] == name + " " + operand && !IsBlank(text[1..][0]);
    assert SkipBlanks(text) == text[1..] by {
      assert SkipBlanks(text) == SkipBlanks(text[1..]);
    }
    StrsepAtBlank(name, operand);
    StrsepToEnd(operand);
    hide CutComment, Strsep, AllInk;
    assert SkipBlanks(operand) == operand by {
      assert operand != [] ==> IsInk(operand[0]);
    }
  }

  // ---- One line ----

  lemma {:induction false} HasItself(op: nat, i: nat)
    requires op < 0x100 && OpOf(op).Op? && i <= op
    ensures OpcodeHasMode(OpOf(op).name, OpOf(op).mode, i) != -1
    decreases op - i
  {
    hide OpOf, SameName, EntryName, EntryMode;
    EntryIsName(op);
    NameIsItself(OpOf(op).name);
    if i < op {
      HasItself(op, i + 1);
    }
  }

  lemma NameIsItself(s: string)
    ensures SameName(s, s)
  {
  }

  // The operand is below $100 and the instruction has a zero-page form.
  predicate Shortened(i: Instr)
    requires Plain(i)
  {
    i.operand < 0x100 && HasShort(OpOf(i.op).name, ModeOf(i.op))
  }

  // What the assembler makes of the operand that the disassembler prints.
  lemma ParsesBack(i: Instr)
    requires Plain(i)
    ensures var o, mode := OpOf(i.op), ModeOf(i.op);
      ParseOperand(o.name, OperandText(mode, i.operand))
      == Parsed(if Shortened(i) then ShortMode(mode).value else mode, i.operand, "")
  {
    hide OpOf, OperandText, ParseOperand, OpcodeHasMode;
    PlainShape(i);
    ZeroPageMode(i.op);
    var name, mode := OpOf(i.op).name, ModeOf(i.op);
    if mode == Implied {
      ImpliedParses(name);
    } else {
      NotJmp(name);
      OperandReadsBack(name, mode, i.operand);
      if LongMode(mode) != mode {
        HasItself(i.op, 0);
      }
    }
  }

  lemma ImpliedParses(name: string)
    ensures ParseOperand(name, OperandText(Implied, 0)) == Parsed(Implied, 0, "")
  {
  }

  // A zero-page mode is the mode of the entry, as only JSR is printed in another.
  lemma ZeroPageMode(op: nat)
    requires op < 0x100 && OpOf(op).Op?
    ensures LongMode(ModeOf(op)) != ModeOf(op) ==> ModeOf(op) == OpOf(op).mode
    ensures LongMode(ModeOf(op)) != ModeOf(op) ==> ShortMode(LongMode(ModeOf(op))) == Some(ModeOf(op))
    ensures ModeOf(op) == Implied ==> ShortMode(ModeOf(op)) == None
  {
    hide OpOf;
  }

  lemma NotJmp(name: string)
    requires IsName(name)
    ensures |name| == 3 && SameName(name, "JMP") ==> name == "JMP"
  {
    if |name| == 3 && SameName(name, "JMP") {
      SameNameSame(name, "JMP");
    }
  }

  lemma NoDirective(op: nat, operand: string)
    requires op < 0x100 && OpOf(op).Op? && At(operand, 0) != '.' && At(operand, 0) != '='
    ensures !IsDirective(OpOf(op).name, operand)
  {
    TableIsRegular(op);
    var name := OpOf(op).name;
    hide OpOf, ByName;
    assert IsNameChar(name[0]);
    if |name| == 3 && SameName(name, "equ") {
      assert SameName("EQU", "equ");
      SameNameSame(name, "EQU");
    }
  }

  lemma LineIs(i: Instr)
    requires Plain(i)
    ensures var o := OpOf(i.op);
      var p := ParseOperand(o.name, OperandText(ModeOf(i.op), i.operand));
      var found := FindOpcode(o.name, p.mode, 0, -1);
      p.name == [] ==>
        AssembleLine(LineOf(i)) == if found < 0 || !OpOf(found).Op? then Error else Code(Bytes(Instr(found, p.value)))
  {
    PlainShape(i);
    var name, mode := OpOf(i.op).name, ModeOf(i.op);
    var operand := OperandText(mode, i.operand);
    OperandIsInk(mode, i.operand);
    TokensOf(name, operand);
    NoDirective(i.op, operand);
    assert LineOf(i) == " " + (name + " " + operand);
    hide OpOf, OperandText, ParseOperand, FindOpcode, Bytes, IsDirective, ExtractToken, CutComment;
  }

  // The search with the mode as printed ends at the opcode; with the zero-page mode it does not.
  lemma FoundRight(op: nat, mode: Mode)
    requires op < 0x100 && OpOf(op).Op? && !OpOf(op).branch
    requires mode == ModeOf(op) || ShortMode(ModeOf(op)) == Some(mode)
    ensures FindOpcode(OpOf(op).name, mode, 0, -1) == op <==> mode == ModeOf(op)
  {
    TableIsRegular(op);
    if mode != ModeOf(op) {
      FoundFits(op, mode, 0, -1);
      EntryIsName(op);
      hide OpOf, ByName, FindOpcode;
    } else if op == 0x20 {
      assert OpOf(0x20).name == "JSR";
      FindsJsr(0, -1);
      hide OpOf, ByName, FindOpcode;
    } else {
      FindsIt(op, 0, -1);
      hide OpOf, ByName, FindOpcode;
    }
  }

  lemma FirstByte(op: nat, v: nat)
    requires OpOf(op).Op?
    ensures Bytes(Instr(op, v))[0] == op
  {
    hide OpOf;
  }

  // The line of an instruction assembles to its bytes just when the operand is not one that the
  // assembler would rather put in a zero-page instruction.
  lemma LineRoundTrip(i: Instr)
    requires Plain(i)
    ensures AssembleLine(LineOf(i)) == Code(Bytes(i)) <==> !Shortened(i)
  {
    hide OpOf, OperandText, ParseOperand, AssembleLine, FindOpcode, Bytes, LineOf, OpcodeHasMode, ModeOf;
    PlainShape(i);
    LineIs(i);
    ParsesBack(i);
    var mode := ModeOf(i.op);
    var p := ParseOperand(OpOf(i.op).name, OperandText(mode, i.operand));
    FoundRight(i.op, p.mode);
    var found := FindOpcode(OpOf(i.op).name, p.mode, 0, -1);
    if found >= 0 && OpOf(found).Op? {
      FirstByte(found, i.operand);
    }
    FirstByte(i.op, i.operand);
    assert i == Instr(i.op, i.operand);
    ShortDiffers(mode);
  }

  // What a shortened line assembles to, if to anything, is shorter.
  lemma ShortenedShrinks(i: Instr)
    requires Plain(i) && Shortened(i)
    ensures var line := AssembleLine(LineOf(i)); line.Error? || (line.Code? && |line.bytes| < |Bytes(i)|)
  {
    hide OpOf, OperandText, ParseOperand, AssembleLine, FindOpcode, Bytes, LineOf, OpcodeHasMode, ModeOf;
    PlainShape(i);
    LineIs(i);
    ParsesBack(i);
    var mode, name := ModeOf(i.op), OpOf(i.op).name;
    var short := ShortMode(mode).value;
    var found := FindOpcode(name, short, 0, -1);
    FoundFits(i.op, short, 0, -1);
    if found >= 0 && OpOf(found).Op? {
      FoundIsShort(i.op, found, short);
      BytesLength(Instr(found, i.operand));
    }
    BytesLength(i);
  }

  lemma BytesLength(i: Instr)
    requires OpOf(i.op).Op?
    ensures |Bytes(i)| == if OpOf(i.op).pc <= 1 then 1 else if OpOf(i.op).pc == 2 then 2 else 3
  {
    hide OpOf;
  }

  lemma FoundIsShort(op: nat, found: nat, short: Mode)
    requires op < 0x100 && OpOf(op).Op? && !OpOf(op).branch && found < 0x100 && OpOf(found).Op?
    requires EntryMode(found) == short && SameName(OpOf(op).name, EntryName(found))
    requires short == ZpRel || short == ZpX || short == ZpY || short == IndZ
    ensures OpOf(found).pc == 2
  {
    SameEntry(op, found);
    TableIsRegular(found);
    hide OpOf, ByName, SameName;
  }

  lemma ShortDiffers(mode: Mode)
    ensures ShortMode(mode).Some? ==> ShortMode(mode).value != mode
  {
  }

  // ---- Programs ----

  ghost predicate AllPlain(instrs: seq<Instr>) {
    forall k | 0 <= k < |instrs| :: Plain(instrs[k])
  }

  function ProgramText(instrs: seq<Instr>): string
    requires AllPlain(instrs)
  {
    if instrs == [] then [] else LineOf(instrs[0]) + "\n" + ProgramText(instrs[1..])
  }

  function ProgramBytes(instrs: seq<Instr>): seq<nat>
    requires AllPlain(instrs)
  {
    if instrs == [] then [] else assert Plain(instrs[0]); Bytes(instrs[0]) + ProgramBytes(instrs[1..])
  }

  lemma {:induction false} LinesSplit(line: string, rest: string)
    requires forall k | 0 <= k < |line| :: line[k] != '\n'
    ensures Lines(line + "\n" + rest) == [line] + Lines(rest)
  {
    var text := line + "\n" + rest;
    if line == [] {
      assert text[1..] == rest;
    } else {
      assert text[1..] == line[1..] + "\n" + rest && text[0] == line[0];
      LinesSplit(line[1..], rest);
      assert [text[0]] + line[1..] == line;
    }
  }

  lemma LineHasNoNewline(i: Instr)
    requires Plain(i)
    ensures forall k | 0 <= k < |LineOf(i)| :: LineOf(i)[k] != '\n'
  {
    PlainShape(i);
    NameIsInk(OpOf(i.op).name);
    OperandIsInk(ModeOf(i.op), i.operand);
    hide OpOf, OperandText;
  }

  ghost predicate NoneShortened(instrs: seq<Instr>)
    requires AllPlain(instrs)
  {
    forall k | 0 <= k < |instrs| :: !Shortened(instrs[k])
  }

  // Any sequence of instructions that are not branches, printed a line each, assembles back to the
  // bytes it was printed from just when none of them has a shorter form for its operand.
  lemma ProgramRoundTrip(instrs: seq<Instr>)
    requires AllPlain(instrs)
    ensures AssembleLines(Lines(ProgramText(instrs))) == Some(ProgramBytes(instrs)) <==> NoneShortened(instrs)
  {
    ProgramComesBack(instrs);
    hide AssembleLines, ProgramText, ProgramBytes;
  }

  // Each line comes back as it was or shorter, so that bytes lost are not made up for later.
  lemma {:induction false} ProgramComesBack(instrs: seq<Instr>)
    requires AllPlain(instrs)
    ensures var code := AssembleLines(Lines(ProgramText(instrs)));
      if NoneShortened(instrs) then code == Some(ProgramBytes(instrs))
      else code.None? || |code.value| < |ProgramBytes(instrs)|
  {
    if instrs == [] {
      EmptyProgram();
    } else {
      var line, rest := LineOf(instrs[0]), ProgramText(instrs[1..]);
      LineHasNoNewline(instrs[0]);
      LinesSplit(line, rest);
      if Shortened(instrs[0]) {
        ShortenedShrinks(instrs[0]);
      } else {
        LineRoundTrip(instrs[0]);
      }
      ProgramComesBack(instrs[1..]);
      ShortenedFirst(instrs);
      assert ([line] + Lines(rest))[1..] == Lines(rest);
      hide LineOf, Plain, Shortened, NoneShortened, AssembleLine, Lines, Bytes;
    }
  }

  lemma ShortenedFirst(instrs: seq<Instr>)
    requires AllPlain(instrs) && instrs != []
    ensures NoneShortened(instrs) <==> !Shortened(instrs[0]) && NoneShortened(instrs[1..])
  {
    hide Plain, Shortened;
    assert instrs == [instrs[0]] + instrs[1..];
  }

  lemma EmptyProgram()
    ensures AssembleLines(Lines(ProgramText([]))) == Some([]) && ProgramBytes([]) == []
  {
    var empty: string := [];
    assert Lines(empty) == [empty];
    assert AssembleLine(empty) == Blank;
    assert AssembleLines([empty]) == AssembleLines([empty][1..]) && [empty][1..] == [];
  }

  // Without that condition it does not: LDA $0012, three bytes, comes back as LDA $12, two.
  lemma ShortOperandIsLost()
    ensures Plain(Instr(0xAD, 0x12)) && Shortened(Instr(0xAD, 0x12))
    ensures AssembleLine(LineOf(Instr(0xAD, 0x12))) != Code(Bytes(Instr(0xAD, 0x12)))
  {
    var i := Instr(0xAD, 0x12);
    assert OpOf(0xAD) == Op("LDA", Abs, 3, false) && OpOf(0xA5) == Op("LDA", ZpRel, 2, false);
    HasItself(0xA5, 0);
    hide OpOf, OpcodeHasMode;
    LineRoundTrip(i);
  }
}

// The passes of mii_cpu_asm over the lines, and the disassembler, as loops.
module AsmProgram {
  import opened Basics
  import opened Ops
  import opened AsmText
  import opened Disassembler
  import opened Assembler

  // mii_cpu_asm_line_t, as far as it is used once the line has been parsed.
  datatype Record = Record(opcodes: seq<nat>, addr: nat)

  // The bytes of a line, if it has a place in the program.
  function CodeOf(line: Line): seq<nat> {
    if line.Code? then line.bytes else []
  }

  function Joined(codes: seq<seq<nat>>): seq<nat> {
    if codes == [] then [] else codes[0] + Joined(codes[1..])
  }

  ghost predicate AllFine(lines: seq<string>) {
    forall k | 0 <= k < |lines| :: !AssembleLine(lines[k]).Error? && !AssembleLine(lines[k]).Other?
  }

  ghost function Codes(lines: seq<string>): seq<seq<nat>> {
    seq(|lines|, k requires 0 <= k < |lines| => CodeOf(AssembleLine(lines[k])))
  }

  lemma {:induction false} JoinedIsAssembled(lines: seq<string>)
    ensures AllFine(lines) <==> AssembleLines(lines).Some?
    ensures AllFine(lines) ==> AssembleLines(lines) == Some(Joined(Codes(lines)))
  {
    if lines != [] {
      JoinedIsAssembled(lines[1..]);
      FineFirst(lines);
      hide AssembleLine, AllFine, Codes;
      var rest := Joined(Codes(lines[1..]));
      assert Codes(lines)[1..] == Codes(lines[1..]);
      assert [] + rest == rest;
    }
  }

  lemma FineFirst(lines: seq<string>)
    requires lines != []
    ensures AllFine(lines) <==>
      AllFine(lines[1..]) && !AssembleLine(lines[0]).Error? && !AssembleLine(lines[0]).Other?
    ensures Codes(lines) == [CodeOf(AssembleLine(lines[0]))] + Codes(lines[1..])
  {
    hide AssembleLine;
    assert lines == [lines[0]] + lines[1..];
  }

  lemma {:induction false} JoinedAppend(codes: seq<seq<nat>>, code: seq<nat>)
    ensures Joined(codes + [code]) == Joined(codes) + code
  {
    if codes == [] {
      assert [code][1..] == [] && [] + [code] == [code];
    } else {
      assert (codes + [code])[1..] == codes[1..] + [code];
      JoinedAppend(codes[1..], code);
    }
  }

  // The search through the table.
  method SearchOpcode(mnemonic: string, mode: Mode) returns (found: int)
    ensures found == FindOpcode(mnemonic, mode, 0, -1)
  {
    hide *;
    found := -1;
    var i := 0;
    while i < 256
      invariant 0 <= i <= 256
      invariant FindOpcode(mnemonic, mode, i, found) == FindOpcode(mnemonic, mode, 0, -1)
    {
      FindNext(mnemonic, mode, i, found);
      if SameName(mnemonic, EntryName(i)) {
        if OpOf(i).Op? && OpOf(i).branch {
          return i;
        } else if mode == EntryMode(i) {
          return i;
        } else if OpOf(i).Op? && i == 0x20 && mode == Abs {
          found := i;
        }
      }
      i := i + 1;
    }
    FindNone(mnemonic, mode, found);
  }

  lemma FindNone(mnemonic: string, mode: Mode, found: int)
    ensures FindOpcode(mnemonic, mode, 256, found) == found
  {
  }

  lemma FindNext(mnemonic: string, mode: Mode, i: nat, found: int)
    requires i < 256
    ensures FindOpcode(mnemonic, mode, i, found) ==
      if !SameName(mnemonic, EntryName(i)) then FindOpcode(mnemonic, mode, i + 1, found)
      else if (OpOf(i).Op? && OpOf(i).branch) || mode == EntryMode(i) then i
      else FindOpcode(mnemonic, mode, i + 1, if OpOf(i).Op? && i == 0x20 && mode == Abs then i else found)
  {
    hide OpOf, SameName, EntryName, EntryMode;
  }

  // mii_cpu_asm_load: the text line by line.
  method SplitLines(text: string) returns (lines: seq<string>)
    ensures lines == Lines(text)
  {
    hide Lines;
    lines := [];
    var current := 0;
    var more := true;
    assert text[0..] == text;
    ghost var rest := Lines(text);
    while more
      invariant 0 <= current <= |text| && Lines(text) == lines + rest
      invariant rest == if more then Lines(text[current..]) else []
      decreases more, |text| - current
    {
      var line;
      line, current, more := NextLine(text, current);
      rest := if more then Lines(text[current..]) else [];
      Associates(lines, [line], rest);
      lines := lines + [line];
    }
  }

  method NextLine(text: string, current: nat) returns (line: string, next: nat, more: bool)
    requires current <= |text|
    ensures current <= next <= |text| && (more ==> current < next)
    ensures Lines(text[current..]) == [line] + if more then Lines(text[next..]) else []
  {
    hide Lines;
    var lend := FindNewline(text, current);
    FirstLine(text[current..], lend - current);
    assert text[current..][..lend - current] == text[current..lend];
    line := text[current..lend];
    more := lend < |text|;
    next := if more then lend + 1 else lend;
    assert more ==> text[current..][lend - current + 1..] == text[next..];
  }

  // strchr(current, '\n')
  method FindNewline(text: string, current: nat) returns (lend: nat)
    requires current <= |text|
    ensures current <= lend <= |text| && (forall k | current <= k < lend :: text[k] != '\n')
    ensures lend < |text| ==> text[lend] == '\n'
  {
    lend := current;
    while lend < |text| && text[lend] != '\n'
      invariant current <= lend <= |text|
      invariant forall k | current <= k < lend :: text[k] != '\n'
    {
      lend := lend + 1;
    }
  }

  lemma {:induction false} FirstLine(text: string, n: nat)
    requires n <= |text| && (forall k | 0 <= k < n :: text[k] != '\n') && (n < |text| ==> text[n] == '\n')
    ensures Lines(text) == [text[..n]] + if n < |text| then Lines(text[n + 1..]) else []
    decreases n
  {
    if n > 0 {
      var head, tail := text[0], text[1..];
      FirstLine(tail, n - 1);
      assert Lines(text) == [[head] + Lines(tail)[0]] + Lines(tail)[1..];
      hide Lines;
      assert n < |text| ==> tail[n..] == text[n + 1..];
      assert [head] + tail[..n - 1] == text[..n];
    } else if text == [] {
      assert text[..0] == [];
    }
  }

  // The first pass: every line gets its opcode bytes, unless one is an error.
  method ParseLines(lines: seq<string>) returns (ok: bool, records: array<Record>)
    ensures fresh(records) && records.Length == |lines|
    ensures ok <==> AllFine(lines)
    ensures ok ==> forall k | 0 <= k < |lines| :: records[k].opcodes == Codes(lines)[k]
  {
    hide AssembleLine;
    records := new Record[|lines|](_ => Record([], 0));
    for i := 0 to |lines|
      invariant forall k | 0 <= k < i ::
        !AssembleLine(lines[k]).Error? && !AssembleLine(lines[k]).Other?
        && records[k].opcodes == CodeOf(AssembleLine(lines[k]))
    {
      var line := AssembleLine(lines[i]);
      if line.Error? || line.Other? {
        return false, records;
      }
      records[i] := Record(CodeOf(line), 0);
    }
    ok := true;
  }

  // The second pass: pc runs through the lines, from the origin 0.
  method SetAddresses(records: array<Record>, ghost codes: seq<seq<nat>>) returns (total: nat)
    requires records.Length == |codes| && forall k | 0 <= k < |codes| :: records[k].opcodes == codes[k]
    requires |Joined(codes)| <= 0xffff
    modifies records
    ensures total == |Joined(codes)|
    ensures forall k | 0 <= k < |codes| :: records[k].opcodes == codes[k] && records[k].addr == |Joined(codes[..k])|
  {
    total := 0;
    for i := 0 to records.Length
      invariant total == |Joined(codes[..i])| <= 0xffff
      invariant forall k | 0 <= k < |codes| :: records[k].opcodes == codes[k]
      invariant forall k | 0 <= k < i :: records[k].addr == |Joined(codes[..k])|
    {
      assert codes[..i + 1] == codes[..i] + [codes[i]];
      JoinedAppend(codes[..i], codes[i]);
      JoinedPrefix(codes, i + 1);
      hide Joined;
      records[i] := records[i].(addr := total);
      total := (total + |records[i].opcodes|) % 0x1_0000;
    }
    assert codes[..|codes|] == codes;
  }

  lemma {:induction false} JoinedPrefix(codes: seq<seq<nat>>, n: nat)
    requires n <= |codes|
    ensures |Joined(codes[..n])| <= |Joined(codes)|
    decreases |codes| - n
  {
    if n < |codes| {
      assert codes[..n + 1] == codes[..n] + [codes[n]];
      JoinedAppend(codes[..n], codes[n]);
      JoinedPrefix(codes, n + 1);
    } else {
      assert codes[..n] == codes;
    }
  }

  // The last pass: the bytes of every line go to its address.
  method Emit(records: array<Record>, total: nat, ghost codes: seq<seq<nat>>) returns (output: array<nat>)
    requires records.Length == |codes| && total == |Joined(codes)|
    requires forall k | 0 <= k < |codes| :: records[k].opcodes == codes[k] && records[k].addr == |Joined(codes[..k])|
    ensures fresh(output) && output[..] == Joined(codes)
  {
    output := new nat[total](_ => 0);
    for i := 0 to records.Length
      invariant |Joined(codes[..i])| <= total && output[..|Joined(codes[..i])|] == Joined(codes[..i])
    {
      assert codes[..i + 1] == codes[..i] + [codes[i]];
      JoinedAppend(codes[..i], codes[i]);
      JoinedPrefix(codes, i + 1);
      hide Joined;
      EmitOne(output, records[i]);
    }
    assert codes[..|codes|] == codes;
  }

  method EmitOne(output: array<nat>, r: Record)
    requires r.addr + |r.opcodes| <= output.Length
    modifies output
    ensures output[..r.addr + |r.opcodes|] == old(output[..r.addr]) + r.opcodes
  {
    for j := 0 to |r.opcodes|
      invariant output[..r.addr] == old(output[..r.addr])
      invariant output[r.addr..r.addr + j] == r.opcodes[..j]
    {
      output[r.addr + j] := r.opcodes[j];
    }
  }

  // mii_cpu_asm, for a program of at most 65535 bytes: output_len is 16 bits wide.
  method Assemble(text: string) returns (error: bool, output: array<nat>)
    requires var program := AssembleLines(Lines(text)); program.Some? ==> |program.value| <= 0xffff
    ensures fresh(output)
    ensures if error then AssembleLines(Lines(text)).None? else AssembleLines(Lines(text)) == Some(output[..])
  {
    var lines := SplitLines(text);
    JoinedIsAssembled(lines);
    ghost var codes := Codes(lines);
    hide AssembleLine, AssembleLines, Lines, Joined;
    var ok, records := ParseLines(lines);
    if !ok {
      output := new nat[0];
      return true, output;
    }
    var total := SetAddresses(records, codes);
    output := Emit(records, total, codes);
    error := false;
  }

  // mii_cpu_disasm_one with no flags, on an entry of the table that is not a branch: the text of the
  // instruction whose bytes are there, and how many they are.
  method DisasmOne(prog: array<nat>, at: nat) returns (out: string, len: nat)
    requires at < prog.Length && prog[at] < 0x100 && OpOf(prog[at]).Op? && !OpOf(prog[at]).branch
    requires at + OpOf(prog[at]).pc <= prog.Length && forall k | at <= k < prog.Length :: prog[k] < 0x100
    ensures len == OpOf(prog[at]).pc
    ensures exists i :: Plain(i) && Bytes(i) == prog[at..at + len] && out == Text(i)
  {
    var op := prog[at];
    var o := OpOf(op);
    var operand := if o.pc == 1 then 0 else if o.pc == 2 then prog[at + 1] else prog[at + 1] + 0x100 * prog[at + 2];
    ghost var i := Instr(op, operand);
    PcOf(op);
    PlainShape(i);
    hide OpOf;
    len := o.pc;
    out := o.name + " ";
    out := out + OperandText(ModeOf(op), operand);
    BytesThere(prog[at..], i);
    assert prog[at..][..len] == prog[at..at + len];
    assert out == Text(i);
  }

  lemma PcOf(op: nat)
    requires op < 0x100 && OpOf(op).Op? && !OpOf(op).branch
    ensures 1 <= OpOf(op).pc <= 3
  {
    TableIsRegular(op);
    hide OpOf, ByName;
  }

  lemma BytesThere(s: seq<nat>, i: Instr)
    requires Plain(i) && 1 <= OpOf(i.op).pc <= 3 && OpOf(i.op).pc <= |s| && s[0] == i.op
    requires forall k | 0 <= k < |s| :: s[k] < 0x100
    requires i.operand ==
      if OpOf(i.op).pc == 1 then 0 else if OpOf(i.op).pc == 2 then s[1] else s[1] + 0x100 * s[2]
    ensures Bytes(i) == s[..OpOf(i.op).pc]
  {
    hide OpOf;
  }
}
