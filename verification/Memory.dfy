// Banked memory: src/mii.c and src/mii_bank.c.
//
// Ten banks look into a few blocks of memory, several of them into the same one; the RamWorks
// register chooses which of up to 128 blocks the auxiliary banks look into. Cells gives every byte
// of RAM a name of its own and says which one an address means; Memory is the code, and keeps the
// bytes of every cell but the one written to.
module Cells {
  import opened Basics
  import opened SwitchBits
  import opened PageTable

  // A byte of RAM: of the 64K of main memory, or of one of the RamWorks blocks.
  datatype Cell = MainCell(at: nat) | AuxCell(block: nat, at: nat)

  predicate IsRam(bank: nat) {
    bank == MAIN || bank == BSR || bank == BSR_P2 || bank == AUX || bank == AUX_BSR || bank == AUX_BSR_P2
  }

  // base and mem_offset of _mii_banks_init
  function Base(bank: nat): nat {
    if bank == BSR || bank == BSR_P2 || bank == AUX_BSR || bank == AUX_BSR_P2 then 0xd000
    else if bank == ROM || bank == SW then 0xc000 else if bank == CARD_ROM then 0xc100 else 0
  }

  function Offset(bank: nat): nat {
    if bank == BSR || bank == AUX_BSR then 0xd000 else if bank == BSR_P2 || bank == AUX_BSR_P2 then 0xc000 else 0
  }

  // Where an address lies in the block that the bank looks into.
  function Physical(bank: nat, addr: nat): int {
    Offset(bank) + addr - Base(bank)
  }

  function CellOf(bank: nat, selected: nat, addr: nat): Option<Cell> {
    if !IsRam(bank) || addr < Base(bank) then None
    else if bank <= BSR_P2 then Some(MainCell(Physical(bank, addr)))
    else Some(AuxCell(selected, Physical(bank, addr)))
  }

  function ReadCell(m: Map, selected: nat, addr: nat): Option<Cell> {
    CellOf(Direct(m, addr / 256).read, selected, addr)
  }

  function WriteCell(m: Map, selected: nat, addr: nat): Option<Cell> {
    CellOf(Direct(m, addr / 256).write, selected, addr)
  }

  // Every entry stays within its block.
  lemma EntriesFit(m: Map, addr: nat, bank: nat)
    requires addr < 0x1_0000 && (bank == Direct(m, addr / 256).read || bank == Direct(m, addr / 256).write)
    ensures bank <= SW && bank != AUX_BASE && 0 <= Physical(bank, addr)
    ensures IsRam(bank) ==> Physical(bank, addr) < 0x1_0000 && Base(bank) <= addr
    ensures bank == ROM ==> Physical(bank, addr) < 0x4000
    ensures bank == CARD_ROM ==> Physical(bank, addr) < 0xf00
    ensures bank == SW ==> Physical(bank, addr) < 0x100 && addr / 256 == 0xc0
    ensures !IsRam(bank) ==> addr >= 0xc000
  {
  }

  // No cell is seen at two addresses, whichever way round it is read and written.
  lemma CellsApart(m: Map, selected: nat, a: nat, b: nat)
    requires a < 0x1_0000 && b < 0x1_0000 && a != b
    ensures ReadCell(m, selected, a) == ReadCell(m, selected, b) ==> ReadCell(m, selected, a).None?
    ensures WriteCell(m, selected, a) == WriteCell(m, selected, b) ==> WriteCell(m, selected, a).None?
    ensures ReadCell(m, selected, a) == WriteCell(m, selected, b) ==> ReadCell(m, selected, a).None?
  {
    OneAddress(m, selected, a, Direct(m, a / 256).read, ReadCell(m, selected, a));
    OneAddress(m, selected, b, Direct(m, b / 256).read, ReadCell(m, selected, b));
    OneAddress(m, selected, a, Direct(m, a / 256).write, WriteCell(m, selected, a));
    OneAddress(m, selected, b, Direct(m, b / 256).write, WriteCell(m, selected, b));
    hide ReadCell, WriteCell, Direct;
  }

  // The address a cell is seen at.
  function AddressOf(c: Cell): int {
    if 0xc000 <= c.at < 0xd000 then c.at + 0x1000 else c.at
  }

  lemma OneAddress(m: Map, selected: nat, addr: nat, bank: nat, cell: Option<Cell>)
    requires addr < 0x1_0000 && (bank == Direct(m, addr / 256).read || bank == Direct(m, addr / 256).write)
    requires cell == CellOf(bank, selected, addr)
    ensures cell.Some? ==> AddressOf(cell.value) == addr
  {
  }
}

// Runs of accesses: which cell each of them means, and which one was the last to write a cell.
// Memory.Mii.RunBus shows that the bytes read are those.
module RamRuns {
  import opened Basics
  import opened Bits
  import opened PageTable
  import opened Cells

  const BLOCKS := 128

  // A block that is not there is block 0.
  function Chosen(avail: nat, bank: nat): (r: nat)
    ensures r < BLOCKS
  {
    if bank > 127 || And(avail, Pow2(bank)) == 0 then 0 else bank
  }

  type Address = x: nat | x < 0x1_0000

  // An access on the bus: where, which way, and for a write the byte.
  datatype Bus = Bus(addr: Address, write: bool, d: byte)

  datatype Machine = Machine(mmu: Mmu, selected: nat)

  // RamWorks registers
  predicate IsRamworks(addr: nat) {
    addr == 0xc071 || addr == 0xc073 || addr == 0xc075 || addr == 0xc077
  }

  // The cell that an access writes, and the one that it reads.

  function Target(s: Machine, e: Bus): Option<Cell> {
    if e.write then WriteCell(MapOf(s.mmu.sw), s.selected, e.addr) else None
  }

  function Source(s: Machine, e: Bus): Option<Cell> {
    if e.write then None else ReadCell(MapOf(s.mmu.sw), s.selected, e.addr)
  }

  function Step(avail: nat, s: Machine, e: Bus): Machine
    requires |s.mmu.mem| == 256
  {
    Machine(Access(s.mmu, e.addr, e.write),
            if e.write && IsRamworks(e.addr) then Chosen(avail, e.d) else s.selected)
  }

  // Bit b of avail is 1: RamWorks block b is there.
  predicate Available(avail: nat, b: nat) {
    b < BLOCKS && Bit(avail, b)
  }

  // A write to one of the four registers selects the block it names if that is there, and otherwise
  // block 0. From then on the byte that an address with both auxiliary switches on means is one of
  // that block.
  lemma RamworksSelects(avail: nat, s: Machine, e: Bus, addr: nat)
    requires |s.mmu.mem| == 256 && e.write && IsRamworks(e.addr) && 0x800 <= addr < 0x2000
    ensures var s', b := Step(avail, s, e), if Available(avail, e.d) then e.d else 0;
      && s'.selected == b
      && var m := MapOf(s'.mmu.sw);
         && (m.ramrd ==> ReadCell(m, s'.selected, addr) == Some(AuxCell(b, addr)))
         && (m.ramwrt ==> WriteCell(m, s'.selected, addr) == Some(AuxCell(b, addr)))
  {
    BitTest(avail, e.d);
    hide And, Pow2, Bit, MapOf, Access;
  }

  function Run(avail: nat, s: Machine, events: seq<Bus>): (r: Machine)
    requires |s.mmu.mem| == 256
    ensures |r.mmu.mem| == 256
  {
    if events == [] then s else
      var last := |events| - 1;
      Step(avail, Run(avail, s, events[..last]), events[last])
  }

  // The i-th access writes the cell, under the switches and the block selected at that time.
  predicate Hits(avail: nat, s: Machine, events: seq<Bus>, i: nat, c: Cell)
    requires |s.mmu.mem| == 256 && i < |events|
  {
    Target(Run(avail, s, events[..i]), events[i]) == Some(c)
  }

  // The last access that writes the cell, or -1.
  function LastHit(avail: nat, s: Machine, events: seq<Bus>, c: Cell): (i: int)
    requires |s.mmu.mem| == 256
    ensures -1 <= i < |events|
  {
    if events == [] then -1 else
      var last := |events| - 1;
      if Hits(avail, s, events, last, c) then last else LastHit(avail, s, events[..last], c)
  }

  // Access i writes the cell, and none after it does; with -1, none at all.
  ghost predicate IsLastHit(avail: nat, s: Machine, events: seq<Bus>, i: int, c: Cell)
    requires |s.mmu.mem| == 256
  {
    && -1 <= i < |events|
    && (i >= 0 ==> Hits(avail, s, events, i, c))
    && (forall j | i < j < |events| :: !Hits(avail, s, events, j, c))
  }

  lemma {:induction false} LastHitIsLast(avail: nat, s: Machine, events: seq<Bus>, c: Cell)
    requires |s.mmu.mem| == 256
    ensures IsLastHit(avail, s, events, LastHit(avail, s, events, c), c)
  {
    hide Run, Hits, IsLastHit;
    if events == [] {
      NoHit(avail, s, c);
    } else {
      var last := |events| - 1;
      if Hits(avail, s, events, last, c) {
        FinalHit(avail, s, events, c);
      } else {
        LastHitIsLast(avail, s, events[..last], c);
        EarlierHit(avail, s, events, LastHit(avail, s, events[..last], c), c);
      }
    }
  }

  lemma NoHit(avail: nat, s: Machine, c: Cell)
    requires |s.mmu.mem| == 256
    ensures IsLastHit(avail, s, [], -1, c)
  {
  }

  lemma FinalHit(avail: nat, s: Machine, events: seq<Bus>, c: Cell)
    requires |s.mmu.mem| == 256 && events != [] && Hits(avail, s, events, |events| - 1, c)
    ensures IsLastHit(avail, s, events, |events| - 1, c)
  {
    hide Hits;
  }

  lemma EarlierHit(avail: nat, s: Machine, events: seq<Bus>, i: int, c: Cell)
    requires |s.mmu.mem| == 256 && events != [] && !Hits(avail, s, events, |events| - 1, c)
    requires IsLastHit(avail, s, events[..|events| - 1], i, c)
    ensures IsLastHit(avail, s, events, i, c)
  {
    hide Hits;
    var last := |events| - 1;
    if i >= 0 {
      HitsEarlier(avail, s, events, last, i, c);
    }
    forall j | i < j < last
      ensures !Hits(avail, s, events, j, c)
    {
      HitsEarlier(avail, s, events, last, j, c);
    }
  }

  lemma HitsEarlier(avail: nat, s: Machine, events: seq<Bus>, k: nat, j: nat, c: Cell)
    requires |s.mmu.mem| == 256 && j < k <= |events|
    ensures Hits(avail, s, events, j, c) <==> Hits(avail, s, events[..k], j, c)
  {
    hide Run, Target;
    assert events[..j] == events[..k][..j];
  }

  lemma OneMore(avail: nat, s: Machine, events: seq<Bus>, e: Bus, c: Cell)
    requires |s.mmu.mem| == 256
    ensures Run(avail, s, events + [e]) == Step(avail, Run(avail, s, events), e)
    ensures LastHit(avail, s, events + [e], c)
      == if Target(Run(avail, s, events), e) == Some(c) then |events| else LastHit(avail, s, events, c)
  {
    hide Target, Step;
    assert (events + [e])[..|events|] == events;
  }

  // ---- The bytes ----

  // The bytes of the cells there is memory for.
  type Ram = imap<Cell, byte>

  // One access has left every cell as it was, but for its target.
  ghost predicate Kept(ram: Ram, target: Option<Cell>, d: byte, ram': Ram) {
    forall c | c in ram :: c in ram' && ram'[c] == if target == Some(c) then d else ram[c]
  }

  lemma KeptThen(ram: Ram, ram': Ram, target: Option<Cell>, d: byte, ram'': Ram)
    requires Kept(ram, None, d, ram') && Kept(ram', target, d, ram'')
    ensures Kept(ram, target, d, ram'')
  {
  }

  lemma NoneKept(ram: Ram, d: byte, d': byte, ram': Ram)
    requires Kept(ram, None, d, ram')
    ensures Kept(ram, None, d', ram')
  {
  }

  // What a cell holds after a run: the last byte written to it, or else what it held at first. A
  // cell that came with a new RamWorks block may hold anything until it is written.
  ghost predicate Holds(avail: nat, s: Machine, ram: Ram, events: seq<Bus>, c: Cell, d: byte)
    requires |s.mmu.mem| == 256
  {
    var i := LastHit(avail, s, events, c);
    if i >= 0 then d == events[i].d else c in ram ==> d == ram[c]
  }

  ghost predicate LastBytes(avail: nat, s: Machine, ram: Ram, events: seq<Bus>, ram': Ram)
    requires |s.mmu.mem| == 256
  {
    && (forall c | c in ram || LastHit(avail, s, events, c) >= 0 :: c in ram')
    && (forall c | c in ram' :: Holds(avail, s, ram, events, c, ram'[c]))
  }

  // The j-th access, if it reads a cell, has brought the last byte written there before.
  ghost predicate Answers(avail: nat, s: Machine, ram: Ram, events: seq<Bus>, j: nat, d: byte)
    requires |s.mmu.mem| == 256 && j < |events|
  {
    var cell := Source(Run(avail, s, events[..j]), events[j]);
    cell.Some? ==> Holds(avail, s, ram, events[..j], cell.value, d)
  }

  lemma LastBytesStep(avail: nat, s: Machine, ram: Ram, events: seq<Bus>, now: Ram, e: Bus, next: Ram)
    requires |s.mmu.mem| == 256
    requires LastBytes(avail, s, ram, events, now)
    requires var target := Target(Run(avail, s, events), e);
      Kept(now, target, e.d, next) && (target.Some? ==> target.value in now)
    ensures LastBytes(avail, s, ram, events + [e], next)
  {
    hide *;
    forall c
      ensures c in ram || LastHit(avail, s, events + [e], c) >= 0 ==> c in next
      ensures c in next ==> Holds(avail, s, ram, events + [e], c, next[c])
    {
      CellStep(avail, s, ram, events, now, e, next, c);
    }
    EveryCell(avail, s, ram, events + [e], next);
  }

  lemma EveryCell(avail: nat, s: Machine, ram: Ram, events: seq<Bus>, ram': Ram)
    requires |s.mmu.mem| == 256
    requires forall c :: c in ram || LastHit(avail, s, events, c) >= 0 ==> c in ram'
    requires forall c :: c in ram' ==> Holds(avail, s, ram, events, c, ram'[c])
    ensures LastBytes(avail, s, ram, events, ram')
  {
    hide Holds, LastHit;
  }

  lemma CellStep(avail: nat, s: Machine, ram: Ram, events: seq<Bus>, now: Ram, e: Bus, next: Ram, c: Cell)
    requires |s.mmu.mem| == 256 && LastBytes(avail, s, ram, events, now)
    requires var target := Target(Run(avail, s, events), e);
      Kept(now, target, e.d, next) && (target.Some? ==> target.value in now)
    ensures c in ram || LastHit(avail, s, events + [e], c) >= 0 ==> c in next
    ensures c in next ==> Holds(avail, s, ram, events + [e], c, next[c])
  {
    OneMore(avail, s, events, e, c);
    hide Run, Target, Step, LastHit;
  }

  // An access gives its byte to the cell it writes, and brings that of the cell it reads.
  ghost predicate Moved(s: Machine, now: Ram, e: Bus, next: Ram, d: byte)
    requires |s.mmu.mem| == 256
  {
    var target, source := Target(s, e), Source(s, e);
    && Kept(now, target, e.d, next) && (target.Some? ==> target.value in now)
    && (source.Some? ==> source.value in now && d == now[source.value])
  }

  lemma MovedParts(s: Machine, now: Ram, e: Bus, next: Ram, d: byte)
    requires |s.mmu.mem| == 256 && Moved(s, now, e, next, d)
    ensures var target := Target(s, e); Kept(now, target, e.d, next) && (target.Some? ==> target.value in now)
    ensures var source := Source(s, e); source.Some? ==> source.value in now && d == now[source.value]
  {
    hide Kept, Target, Source;
  }

  lemma OneAccess(avail: nat, s: Machine, ram: Ram, events: seq<Bus>, n: nat, now: Ram, next: Ram, d: byte)
    requires |s.mmu.mem| == 256 && n < |events|
    requires LastBytes(avail, s, ram, events[..n], now)
    requires Moved(Run(avail, s, events[..n]), now, events[n], next, d)
    ensures Run(avail, s, events[..n + 1]) == Step(avail, Run(avail, s, events[..n]), events[n])
    ensures LastBytes(avail, s, ram, events[..n + 1], next)
    ensures Answers(avail, s, ram, events, n, d)
  {
    hide *;
    assert events[..n + 1] == events[..n] + [events[n]];
    OneMore(avail, s, events[..n], events[n], MainCell(0));
    MovedParts(Run(avail, s, events[..n]), now, events[n], next, d);
    LastBytesStep(avail, s, ram, events[..n], now, events[n], next);
    ReadAnswers(avail, s, ram, events, n, now, d);
  }

  lemma ReadAnswers(avail: nat, s: Machine, ram: Ram, events: seq<Bus>, n: nat, now: Ram, d: byte)
    requires |s.mmu.mem| == 256 && n < |events|
    requires LastBytes(avail, s, ram, events[..n], now)
    requires var source := Source(Run(avail, s, events[..n]), events[n]);
      source.Some? ==> source.value in now && d == now[source.value]
    ensures Answers(avail, s, ram, events, n, d)
  {
    hide Run, Target, Step, LastHit, Holds, Source;
  }

  // After the first |bytes| accesses of a run, which brought these bytes.
  ghost predicate RanTo(avail: nat, s: Machine, ram: Ram, events: seq<Bus>, bytes: seq<byte>, now: Machine, ram': Ram) {
    && |s.mmu.mem| == 256 && |bytes| <= |events|
    && now == Run(avail, s, events[..|bytes|]) && LastBytes(avail, s, ram, events[..|bytes|], ram')
    && forall j | 0 <= j < |bytes| :: Answers(avail, s, ram, events, j, bytes[j])
  }

  lemma NoAccessYet(avail: nat, s: Machine, ram: Ram, events: seq<Bus>)
    requires |s.mmu.mem| == 256
    ensures RanTo(avail, s, ram, events, [], s, ram)
  {
    assert events[..0] == [];
  }

  lemma RanThrough(avail: nat, s: Machine, ram: Ram, events: seq<Bus>, bytes: seq<byte>, now: Machine, ram': Ram)
    requires RanTo(avail, s, ram, events, bytes, now, ram') && |bytes| == |events|
    ensures |s.mmu.mem| == 256
    ensures now == Run(avail, s, events) && LastBytes(avail, s, ram, events, ram')
    ensures forall j | 0 <= j < |events| :: Answers(avail, s, ram, events, j, bytes[j])
  {
    hide Run, LastBytes, Answers;
    assert events[..|events|] == events;
  }

  lemma RanOn(avail: nat, s: Machine, ram: Ram, events: seq<Bus>, bytes: seq<byte>, before: Machine, now: Ram,
              after: Machine, next: Ram, d: byte)
    requires |s.mmu.mem| == 256 && |bytes| < |events| && RanTo(avail, s, ram, events, bytes, before, now)
    requires |before.mmu.mem| == 256 && after == Step(avail, before, events[|bytes|])
    requires Moved(before, now, events[|bytes|], next, d)
    ensures RanTo(avail, s, ram, events, bytes + [d], after, next)
  {
    hide *;
    RanParts(avail, s, ram, events, bytes, before, now);
    OneAccess(avail, s, ram, events, |bytes|, now, next, d);
    OneAnswerMore(avail, s, ram, events, bytes, d);
    assert |bytes + [d]| == |bytes| + 1;
    PartsRan(avail, s, ram, events, bytes + [d], after, next);
  }

  lemma RanParts(avail: nat, s: Machine, ram: Ram, events: seq<Bus>, bytes: seq<byte>, now: Machine, ram': Ram)
    requires RanTo(avail, s, ram, events, bytes, now, ram')
    ensures |s.mmu.mem| == 256 && |bytes| <= |events| && now == Run(avail, s, events[..|bytes|])
    ensures LastBytes(avail, s, ram, events[..|bytes|], ram')
    ensures forall j | 0 <= j < |bytes| :: Answers(avail, s, ram, events, j, bytes[j])
  {
    hide Run, LastBytes, Answers;
  }

  lemma PartsRan(avail: nat, s: Machine, ram: Ram, events: seq<Bus>, bytes: seq<byte>, now: Machine, ram': Ram)
    requires |s.mmu.mem| == 256 && |bytes| <= |events| && now == Run(avail, s, events[..|bytes|])
    requires LastBytes(avail, s, ram, events[..|bytes|], ram')
    requires forall j | 0 <= j < |bytes| :: Answers(avail, s, ram, events, j, bytes[j])
    ensures RanTo(avail, s, ram, events, bytes, now, ram')
  {
    hide Run, LastBytes, Answers;
  }

  lemma OneAnswerMore(avail: nat, s: Machine, ram: Ram, events: seq<Bus>, bytes: seq<byte>, d: byte)
    requires |s.mmu.mem| == 256 && |bytes| < |events|
    requires forall j | 0 <= j < |bytes| :: Answers(avail, s, ram, events, j, bytes[j])
    requires Answers(avail, s, ram, events, |bytes|, d)
    ensures forall j | 0 <= j < |bytes + [d]| :: Answers(avail, s, ram, events, j, (bytes + [d])[j])
  {
    hide Answers;
    forall j | 0 <= j < |bytes + [d]|
      ensures Answers(avail, s, ram, events, j, (bytes + [d])[j])
    {
      assert (bytes + [d])[j] == if j < |bytes| then bytes[j] else d;
    }
  }

  // Writing one address leaves what every other address means, and writes the cell of none.
  lemma OtherAddressesKeep(avail: nat, s: Machine, e: Bus, b: nat)
    requires |s.mmu.mem| == 256 && e.write && b < 0x1_0000 && b != e.addr
    requires e.addr < 0xc000 || 0xd000 <= e.addr
    ensures var s', read := Step(avail, s, e), Bus(b, false, 0);
      Source(s', read) == Source(s, read) && (Source(s, read).Some? ==> Source(s, read) != Target(s, e))
  {
    CellsApart(MapOf(s.mmu.sw), s.selected, b, e.addr);
    PlainAccess(s.mmu, e.addr);
    hide ReadCell, WriteCell, MapOf, Access;
  }

  // An access outside $C000 to $CFFF moves no switch.
  lemma PlainAccess(m: Mmu, addr: nat)
    requires |m.mem| == 256 && (addr < 0xc000 || 0xd000 <= addr < 0x1_0000)
    ensures Access(m, addr, true) == m
  {
  }
}

module Memory {
  import opened Basics
  import opened Bits
  import opened SwitchBits
  import opened PageTable
  import opened Cells
  import opened RamRuns

  // mii_bank_write, past the callbacks. With a length of 0 the loop would go round 65536 times.
  method BankWrite(block: array<byte>, phy: nat, data: seq<byte>, len: nat)
    requires 0 < len <= |data| && phy + len <= block.Length
    modifies block
    ensures forall j | 0 <= j < block.Length ::
      block[j] == if phy <= j < phy + len then data[j - phy] else old(block[j])
  {
    var i := 0;
    while true
      invariant 0 <= i < len
      invariant forall j | 0 <= j < block.Length ::
        block[j] == if phy <= j < phy + i then data[j - phy] else old(block[j])
      decreases len - i
    {
      block[phy + i] := data[i];
      i := i + 1;
      if i == len {
        break;
      }
    }
  }

  // mii_bank_read
  method BankRead(block: array<byte>, phy: nat, dest: array<byte>, len: nat)
    requires 0 < len <= dest.Length && phy + len <= block.Length && dest != block
    modifies dest
    ensures dest[..len] == block[phy..phy + len] && dest[len..] == old(dest[len..])
  {
    var i := 0;
    while true
      invariant 0 <= i < len
      invariant forall j | 0 <= j < dest.Length :: dest[j] == if j < i then block[phy + j] else old(dest[j])
      decreases len - i
    {
      dest[i] := block[phy + i];
      i := i + 1;
      if i == len {
        break;
      }
    }
  }

  // mii_t, as far as memory goes.
  class Mii {
    var sw: nat
    var memDirty: bool
    const mem: array<Entry>
    // bank[].mem; the banks of RAM share their blocks
    const main: array<byte>
    const rom: array<byte>
    const cardRom: array<byte>
    const swPage: array<byte>
    var auxBase: array<byte>
    var aux: array<byte>
    var auxBsr: array<byte>
    var auxBsrP2: array<byte>
    // ramworks.bank[] and ramworks.avail
    var ramworks: seq<array?<byte>>
    const avail: nat
    ghost var selected: nat

    ghost predicate BlocksApart()
      reads this`ramworks
    {
      && (forall k | 0 <= k < |ramworks| && ramworks[k] != null ::
            ramworks[k].Length == 0x1_0000 && ramworks[k] != main && ramworks[k] != rom
            && ramworks[k] != cardRom && ramworks[k] != swPage && ramworks[k] as object != mem as object)
      && (forall j, k | 0 <= j < k < |ramworks| && ramworks[j] != null :: ramworks[j] != ramworks[k])
    }

    ghost predicate Valid()
      reads this
    {
      && mem.Length == 256 && main.Length == 0x1_0000 && rom.Length == 0x4000 && cardRom.Length == 0xf00
      && swPage.Length == 0x100 && main != rom && main != cardRom && main != swPage
      && swPage != rom && swPage != cardRom
      && mem as object != main as object && mem as object != swPage as object
      && |ramworks| == BLOCKS && BlocksApart()
      && ramworks[0] != null && auxBase == ramworks[0]
      && selected < BLOCKS && ramworks[selected] != null
      && aux == auxBsr == auxBsrP2 == ramworks[selected]
    }

    ghost function Value(): Mmu
      reads this, mem
    {
      Mmu(sw, memDirty, mem[..])
    }

    ghost function Blocks(): set<object>
      reads this
    {
      {main, swPage} + set k | 0 <= k < |ramworks| && ramworks[k] != null :: ramworks[k] as object
    }

    // The cells there is memory for: the blocks allocated so far.
    ghost predicate Present(c: Cell)
      reads this
    {
      match c
      case MainCell(at) => at < 0x1_0000
      case AuxCell(block, at) => block < |ramworks| && ramworks[block] != null && at < 0x1_0000
    }

    ghost function At(c: Cell): byte
      requires Valid() && Present(c)
      reads this, Blocks()
    {
      match c
      case MainCell(at) => main[at]
      case AuxCell(block, at) => ramworks[block][at]
    }

    ghost function Contents(): Ram
      requires Valid()
      reads this, Blocks()
    {
      imap c | Present(c) :: At(c)
    }

    ghost function State(): Machine
      reads this, mem
    {
      Machine(Value(), selected)
    }

    // The memory part of mii_init, up to the reset; the blocks of ROM are given.
    constructor (rom: array<byte>, cardRom: array<byte>, avail: nat)
      requires rom.Length == 0x4000 && cardRom.Length == 0xf00
      ensures Valid() && this.rom == rom && this.cardRom == cardRom && selected == 0 && this.avail == avail
      ensures fresh(Blocks()) && fresh(mem)
    {
      this.rom, this.cardRom, this.avail := rom, cardRom, avail;
      sw, memDirty := 0, false;
      mem := new Entry[256](_ => Entry(MAIN, MAIN));
      main := new byte[0x1_0000];
      swPage := new byte[0x100];
      var block := new byte[0x1_0000];
      var blocks: seq<array?<byte>> := seq(BLOCKS, i => if i == 0 then block else null);
      ramworks := blocks;
      auxBase, aux, auxBsr, auxBsrP2 := block, block, block, block;
      selected := 0;
    }

    // mii_reset; a cold one also clears the reset vector.
    method Reset(cold: bool)
      requires Valid()
      modifies this`sw, this`memDirty, mem, main
      ensures Valid() && Value() == PageTable.Reset(old(Value())) && Coherent(Value())
      ensures forall i | 0 <= i < 0x1_0000 ::
        main[i] == if cold && 0x3f2 <= i < 0x3f4 then 0x55 else old(main[i])
    {
      hide PageTable.Reset, Coherent, BlocksApart;
      if cold {
        ColdBytes();
      }
      ResetSwitches();
    }

    method ResetSwitches()
      requires mem.Length == 256
      modifies this`sw, this`memDirty, mem
      ensures Value() == PageTable.Reset(old(Value())) && Coherent(Value())
    {
      ResetIsCoherent(Value());
      hide SetState, Update, Coherent;
      sw := SetState(SetState(0, B_BSRWRITE, true), B_BSRPAGE2, true);
      memDirty := true;
      PageTableUpdate();
    }

    method ColdBytes()
      requires Valid()
      modifies main
      ensures mem[..] == old(mem[..])
      ensures forall i | 0 <= i < 0x1_0000 :: main[i] == if 0x3f2 <= i < 0x3f4 then 0x55 else old(main[i])
    {
      BankWrite(main, 0x3f2, [0x55, 0x55], 2);
    }

    // ---- The page table ----

    // mii_page_set
    method SetPages(read: nat, write: nat, first: nat, end: nat)
      requires mem.Length == 256 && first <= end < 256
      modifies mem
      ensures mem[..] == PageSet(old(mem[..]), read, write, first, end)
    {
      var i := first;
      while i <= end
        invariant first <= i <= end + 1
        invariant forall j | 0 <= j < 256 ::
          mem[j] == if first <= j < i then SetEntry(old(mem[j]), read, write) else old(mem[j])
      {
        if read != SAME {
          mem[i] := mem[i].(read := read);
        }
        if write != SAME {
          mem[i] := mem[i].(write := write);
        }
        i := i + 1;
      }
    }

    // mii_page_table_update
    method PageTableUpdate()
      requires mem.Length == 256
      modifies this`memDirty, mem
      ensures Value() == Update(old(Value()))
    {
      hide GetState, PageSet;
      if !memDirty {
        return;
      }
      memDirty := false;
      var m := MapOf(sw);
      SetPages(MAIN, MAIN, 0x00, 0xbf);
      SetPages(SW, SW, 0xc0, 0xc0);
      SetPages(ROM, ROM, 0xc1, 0xff);
      ghost var clean := mem[..];
      if m.altzp {
        SetPages(AUX, AUX, 0x00, 0x01);
      }
      SetPages(if m.ramrd then AUX else MAIN, if m.ramwrt then AUX else MAIN, 0x02, 0xbf);
      if m.store80 {
        var bank := if m.page2 then AUX else MAIN;
        SetPages(bank, bank, 0x04, 0x07);
        if m.hires {
          SetPages(bank, bank, 0x20, 0x3f);
        }
      }
      assert mem[..] == SetLowRam(m, clean);
      SetRest(m);
    }

    method SetRest(m: Map)
      requires mem.Length == 256
      modifies mem
      ensures mem[..] == SetHighRam(m, SetSlots(m, old(mem[..])))
    {
      hide PageSet;
      if !m.intcxrom {
        SetPages(CARD_ROM, CARD_ROM, 0xc1, 0xcf);
        if !m.slotc3rom {
          SetPages(ROM, SAME, 0xc3, 0xc3);
        }
        if m.intc8rom {
          SetPages(ROM, SAME, 0xc8, 0xcf);
        }
      }
      assert mem[..] == SetSlots(m, old(mem[..]));
      var bsr := if m.altzp then AUX_BSR else BSR;
      var p2 := bsr + if m.bsrpage2 then 1 else 0;
      SetPages(if m.bsrread then bsr else ROM, if m.bsrwrite then bsr else ROM, 0xd0, 0xff);
      SetPages(if m.bsrread then p2 else ROM, if m.bsrwrite then p2 else ROM, 0xd0, 0xdf);
    }

    // ---- RamWorks ----

    // mii_bank_update_ramworks: the bytes of the other blocks stay what they are.
    method UpdateRamworks(bank: nat)
      requires Valid()
      modifies this`ramworks, this`auxBase, this`aux, this`auxBsr, this`auxBsrP2, this`selected
      ensures Valid() && selected == Chosen(avail, bank)
      ensures |old(ramworks)| == |ramworks|
      ensures forall k | 0 <= k < BLOCKS ::
        ramworks[k] == old(ramworks[k]) || (k == selected && old(ramworks[k]) == null)
      ensures forall k | 0 <= k < BLOCKS && ramworks[k] != old(ramworks[k]) :: fresh(ramworks[k])
    {
      var chosen := Chosen(avail, bank);
      if ramworks[chosen] == null {
        var block := new byte[0x1_0000];
        ramworks := ramworks[chosen := block];
      }
      auxBase := ramworks[0];
      aux := ramworks[chosen];
      auxBsr := ramworks[chosen];
      auxBsrP2 := ramworks[chosen];
      selected := chosen;
    }

    // ---- The switches ----

    // _mii_deselect_cXrom
    method DeselectCxrom(addr: nat)
      requires mem.Length == 256
      modifies this`sw, this`memDirty, mem
      ensures Value() == PageTable.DeselectCxrom(old(Value()), addr)
    {
      hide GetState, SetState, Update;
      if addr != 0xcfff {
        return;
      }
      if !GetState(sw, B_INTC8ROM) {
        return;
      }
      sw := SetState(sw, B_INTC8ROM, false);
      memDirty := true;
      PageTableUpdate();
    }

    // _mii_select_c3introm
    method SelectC3()
      requires mem.Length == 256
      modifies this`sw, this`memDirty, mem
      ensures Value() == PageTable.SelectC3(old(Value()))
    {
      hide GetState, SetState, Update;
      if !GetState(sw, B_SLOTC3ROM) && !GetState(sw, B_INTC8ROM) {
        sw := SetState(sw, B_INTC8ROM, true);
        memDirty := true;
        PageTableUpdate();
      }
    }

    // mii_access_soft_switches
    method AccessSoftSwitches(addr: nat, byte: byte, write: bool) returns (res: bool)
      requires Valid() && 0xc000 <= addr <= 0xc0ff
      modifies this`sw, this`memDirty, mem
      modifies this`ramworks, this`auxBase, this`aux, this`auxBsr, this`auxBsrP2, this`selected
      ensures Valid() && Value() == SoftSwitches(old(Value()), addr, write) && res == SoftDone(addr, write)
      ensures selected == if write && IsRamworks(addr) then Chosen(avail, byte) else old(selected)
      ensures forall k | 0 <= k < BLOCKS ::
        ramworks[k] == old(ramworks[k]) || (k == selected && old(ramworks[k]) == null)
      ensures forall k | 0 <= k < BLOCKS && ramworks[k] != old(ramworks[k]) :: fresh(ramworks[k])
    {
      hide GetState, SetState, Update, LanguageCard, WriteSwitch;
      var swSave := sw % 0x1_0000;
      res := FirstDone(addr);
      if res {
        if 0xc080 <= addr <= 0xc08f {
          sw := LanguageCard(sw, addr, write);
          memDirty := swSave != sw;
        } else if 0xc054 <= addr <= 0xc057 {
          memDirty := true;
        }
        PageTableUpdate();
        return;
      }
      if write {
        res := addr <= 0xc00b;
        WriteSwitchElsewhere(addr);
        if IsRamworks(addr) {
          UpdateRamworks(byte);
        } else {
          sw := WriteSwitch(sw, addr);
        }
        memDirty := memDirty || swSave != sw;
      } else {
        res := true;
      }
      PageTableUpdate();
    }

    lemma WriteSwitchElsewhere(addr: nat)
      ensures IsRamworks(addr) ==> WriteSwitch(sw, addr) == sw
    {
    }

    // ---- The access to a bank ----

    ghost predicate Fits(bank: nat, addr: nat) {
      && bank <= SW && bank != AUX_BASE && addr < 0x1_0000 && 0 <= Physical(bank, addr)
      && Physical(bank, addr) < (if bank == ROM then 0x4000 else if bank == CARD_ROM then 0xf00
                                 else if bank == SW then 0x100 else 0x1_0000)
      && (IsRam(bank) ==> Base(bank) <= addr)
    }

    // bank[].mem
    function BlockOf(bank: nat): (block: array<byte>)
      requires bank <= SW
      reads this
    {
      if bank <= BSR_P2 then main
      else if bank == AUX_BASE then auxBase
      else if bank == AUX then aux
      else if bank == AUX_BSR then auxBsr
      else if bank == AUX_BSR_P2 then auxBsrP2
      else if bank == ROM then rom
      else if bank == CARD_ROM then cardRom
      else swPage
    }

    predicate ReadOnly(bank: nat) {
      bank == ROM || bank == CARD_ROM
    }

    // What is in RAM after d has gone to one cell, if to any.
    twostate predicate OnlyChanged(cell: Option<Cell>, d: byte)
      requires Valid() && old(Valid())
      reads this, Blocks()
    {
      forall c | old(Present(c)) :: Present(c) && At(c) == if cell == Some(c) then d else old(At(c))
    }

    // New blocks do not disturb the cells of the old ones.
    twostate lemma CellsKept()
      requires old(Valid()) && Valid() && main[..] == old(main[..])
      requires forall k | 0 <= k < BLOCKS && old(ramworks[k]) != null ::
        ramworks[k] == old(ramworks[k]) && ramworks[k][..] == old(ramworks[k][..])
      ensures OnlyChanged(None, 0)
    {
      forall c | old(Present(c))
        ensures Present(c) && At(c) == old(At(c))
      {
        if c.MainCell? {
          assert main[..][c.at] == old(main[..])[c.at];
        } else {
          assert ramworks[c.block][..][c.at] == old(ramworks[c.block][..])[c.at];
        }
      }
    }

    twostate lemma ChangedIsKept(new cell: Option<Cell>, d: byte)
      requires Valid() && old(Valid()) && OnlyChanged(cell, d)
      ensures Kept(old(Contents()), cell, d, Contents())
    {
      hide Valid, At;
    }

    // The write at the end of mii_mem_access; a read-only bank only has its callback called.
    method WriteBank(bank: nat, addr: nat, d: byte)
      requires Valid() && Fits(bank, addr) && !ReadOnly(bank)
      modifies BlockOf(bank)
      ensures Valid() && mem[..] == old(mem[..]) && BlockOf(bank) in Blocks()
      ensures OnlyChanged(CellOf(bank, selected, addr), d)
    {
      var block := BlockOf(bank);
      var phy := Physical(bank, addr);
      BankWrite(block, phy, [d], 1);
      forall c | old(Present(c))
        ensures At(c) == if CellOf(bank, selected, addr) == Some(c) then d else old(At(c))
      {
        InOneBlock(c, bank);
      }
    }

    lemma InOneBlock(c: Cell, bank: nat)
      requires Valid() && Present(c) && bank <= SW && bank != AUX_BASE
      ensures c.MainCell? ==> (BlockOf(bank) == main <==> bank <= BSR_P2)
      ensures c.AuxCell? ==> (BlockOf(bank) == ramworks[c.block] <==> c.block == selected && AUX <= bank <= AUX_BSR_P2)
    {
    }

    // The switches' part of mii_mem_access: is there a bank access to follow?
    method AccessSwitches(addr: nat, d: byte, write: bool) returns (done: bool)
      requires Valid() && Coherent(Value()) && addr < 0x1_0000
      modifies this`sw, this`memDirty, mem
      modifies this`ramworks, this`auxBase, this`aux, this`auxBsr, this`auxBsrP2, this`selected
      ensures Valid() && Coherent(Value())
      ensures selected == if write && IsRamworks(addr) then Chosen(avail, d) else old(selected)
      ensures forall k | 0 <= k < BLOCKS ::
        ramworks[k] == old(ramworks[k]) || (k == selected && old(ramworks[k]) == null)
      ensures forall k | 0 <= k < BLOCKS && ramworks[k] != old(ramworks[k]) :: fresh(ramworks[k])
      ensures Access(old(Value()), addr, write) == if done then Value() else BankAccess(Value(), addr, write)
      ensures addr < 0xc000 || addr >= 0xd000 ==> !done && sw == old(sw)
    {
      ghost var m := Value();
      AccessUnfolds(m, addr, write);
      StagesKeep(m, addr, write);
      hide Coherent, PageTable.DeselectCxrom, VideoSwitch, SoftSwitches, BankAccess, Access, BlocksApart;
      hide VideoDone, KeyboardDone, SoftDone, GetState, SetState;
      done := AccessDevices(addr, write);
      if !done && 0xc000 <= addr <= 0xc0ff {
        done := AccessSoftSwitches(addr, d, write);
      }
    }

    // _mii_deselect_cXrom, mii_access_keyboard and mii_access_video.
    method AccessDevices(addr: nat, write: bool) returns (done: bool)
      requires Valid() && addr < 0x1_0000
      modifies this`sw, this`memDirty, mem
      ensures Valid() && done == (KeyboardDone(addr, write) || VideoDone(addr, write))
      ensures var m1 := PageTable.DeselectCxrom(old(Value()), addr);
        Value() == if KeyboardDone(addr, write) then m1 else Displayed(m1, addr, write)
    {
      hide PageTable.DeselectCxrom, VideoSwitch, BlocksApart, VideoDone, KeyboardDone, GetState, SetState;
      DeselectCxrom(addr);
      done := KeyboardDone(addr, write);
      if !done {
        sw := VideoSwitch(sw, addr, write);
        done := VideoDone(addr, write);
      }
    }

    lemma AccessUnfolds(m: Mmu, addr: nat, write: bool)
      requires Coherent(m) && addr < 0x1_0000
      ensures |m.mem| == 256
      ensures var m1 := PageTable.DeselectCxrom(m, addr);
        var m2 := Displayed(m1, addr, write);
        && Access(m, addr, write) ==
            (if KeyboardDone(addr, write) then m1 else if VideoDone(addr, write) then m2
             else if 0xc000 <= addr <= 0xc0ff then
               var m3 := SoftSwitches(m2, addr, write);
               if SoftDone(addr, write) then m3 else BankAccess(m3, addr, write)
             else BankAccess(m2, addr, write))
        && (addr < 0xc000 || addr >= 0xd000 ==> m1 == m && m2 == m)
      ensures 0xc054 <= addr <= 0xc057 ==> !KeyboardDone(addr, write) && !VideoDone(addr, write)
      ensures addr < 0xc000 || addr >= 0xd000 ==> !KeyboardDone(addr, write) && !VideoDone(addr, write)
      ensures IsRamworks(addr) && write ==> !KeyboardDone(addr, write) && !VideoDone(addr, write)
    {
    }

    // The callback of the pages of a bank: only ROM has one, on page $C3.
    method Callback(bank: nat, addr: nat)
      requires Valid() && addr < 0x1_0000
      modifies this`sw, this`memDirty, mem
      ensures Valid()
      ensures Value() == if addr / 256 == 0xc3 && bank == ROM then PageTable.SelectC3(old(Value())) else old(Value())
      ensures OnlyChanged(None, 0)
    {
      hide PageTable.SelectC3;
      if addr / 256 == 0xc3 && bank == ROM {
        SelectC3();
      }
    }

    // The end of mii_mem_access, reading.
    method ReadThrough(addr: nat) returns (r: byte)
      requires Valid() && Coherent(Value()) && addr < 0x1_0000
      modifies this`sw, this`memDirty, mem
      ensures Valid() && Value() == BankAccess(old(Value()), addr, false)
      ensures OnlyChanged(None, 0)
      ensures var cell := ReadCell(MapOf(old(sw)), selected, addr);
        cell.Some? ==> old(Present(cell.value)) && r == old(At(cell.value))
    {
      var bank := mem[addr / 256].read;
      EntryFits(addr);
      CellThere(bank, addr);
      hide Coherent, PageTable.SelectC3, BlocksApart, MapOf, ReadCell, WriteCell, Fits, CellOf, At, Present;
      Callback(bank, addr);
      r := PeekBank(bank, addr);
    }

    lemma CellThere(bank: nat, addr: nat)
      requires Valid() && Fits(bank, addr)
      ensures var cell := CellOf(bank, selected, addr); cell.Some? ==> Present(cell.value)
    {
      hide BlocksApart;
    }

    // The end of mii_mem_access, writing.
    method WriteThrough(addr: nat, d: byte)
      requires Valid() && Coherent(Value()) && addr < 0x1_0000
      modifies this`sw, this`memDirty, mem, Blocks()
      ensures Valid() && Value() == BankAccess(old(Value()), addr, true)
      ensures OnlyChanged(WriteCell(MapOf(old(sw)), selected, addr), d)
    {
      var bank := mem[addr / 256].write;
      EntryFits(addr);
      hide Coherent, PageTable.SelectC3, BlocksApart, MapOf, ReadCell, WriteCell, Fits, CellOf;
      if !ReadOnly(bank) {
        WriteBank(bank, addr, d);
      } else {
        Callback(bank, addr);
      }
    }

    lemma EntryFits(addr: nat)
      requires Valid() && Coherent(Value()) && addr < 0x1_0000
      ensures var e := mem[addr / 256];
        && Fits(e.read, addr) && Fits(e.write, addr)
        && ReadCell(MapOf(sw), selected, addr) == CellOf(e.read, selected, addr)
        && WriteCell(MapOf(sw), selected, addr) == CellOf(e.write, selected, addr)
        && (ReadOnly(e.write) ==> CellOf(e.write, selected, addr) == None)
    {
      assert mem[..][addr / 256] == Direct(MapOf(sw), addr / 256);
      EntriesFit(MapOf(sw), addr, mem[addr / 256].read);
      EntriesFit(MapOf(sw), addr, mem[addr / 256].write);
    }

    // mii_bank_peek
    method PeekBank(bank: nat, addr: nat) returns (r: byte)
      requires Valid() && Fits(bank, addr)
      ensures r == BlockOf(bank)[Physical(bank, addr)]
      ensures var cell := CellOf(bank, selected, addr); cell.Some? ==> Present(cell.value) && r == At(cell.value)
    {
      r := BlockOf(bank)[Physical(bank, addr)];
    }

    // mii_mem_access. The byte comes back from RAM as it was last written to the cell the address means
    // under the switches of the moment; a write changes that cell and no other; ROM stays as it is.
    // The bytes read from $C000 to $CFFF are not part of this.
    method MemAccess(addr: nat, d: byte, write: bool) returns (r: byte)
      requires Valid() && Coherent(Value()) && addr < 0x1_0000
      modifies this`sw, this`memDirty, mem, Blocks()
      modifies this`ramworks, this`auxBase, this`aux, this`auxBsr, this`auxBsrP2, this`selected
      ensures Valid() && Coherent(Value()) && Value() == Access(old(Value()), addr, write)
      ensures selected == if write && IsRamworks(addr) then Chosen(avail, d) else old(selected)
      ensures Kept(old(Contents()), if write then WriteCell(MapOf(old(sw)), old(selected), addr) else None, d,
                   Contents())
      ensures var cell := ReadCell(MapOf(old(sw)), old(selected), addr);
        !write && cell.Some? ==> old(Present(cell.value)) && r == old(At(cell.value))
      ensures forall k | 0 <= k < BLOCKS && ramworks[k] != old(ramworks[k]) :: fresh(ramworks[k])
      ensures rom[..] == old(rom[..]) && cardRom[..] == old(cardRom[..])
    {
      assert rom !in Blocks() && cardRom !in Blocks();
      hide Access, Coherent, WriteCell, ReadCell, BlocksApart;
      if write {
        Write(addr, d);
        r := d;
      } else {
        r := Read(addr, d);
      }
    }

    // The switches' part again: it changes no byte of RAM.
    method SwitchesKeep(addr: nat, d: byte, write: bool) returns (done: bool)
      requires Valid() && Coherent(Value()) && addr < 0x1_0000
      modifies this`sw, this`memDirty, mem
      modifies this`ramworks, this`auxBase, this`aux, this`auxBsr, this`auxBsrP2, this`selected
      ensures Valid() && Coherent(Value())
      ensures selected == if write && IsRamworks(addr) then Chosen(avail, d) else old(selected)
      ensures Access(old(Value()), addr, write) == if done then Value() else BankAccess(Value(), addr, write)
      ensures addr < 0xc000 || addr >= 0xd000 ==> !done && sw == old(sw) && selected == old(selected)
      ensures Kept(old(Contents()), None, d, Contents())
      ensures forall k | 0 <= k < BLOCKS && ramworks[k] != old(ramworks[k]) :: fresh(ramworks[k])
      ensures forall o | o in Blocks() :: o in old(Blocks()) || fresh(o)
    {
      hide Access, Coherent, BankAccess, BlocksApart, MapOf, Kept, At, Present;
      done := AccessSwitches(addr, d, write);
      CellsKept();
      ChangedIsKept(None, 0);
      NoneKept(old(Contents()), 0, d, Contents());
    }

    method Write(addr: nat, d: byte)
      requires Valid() && Coherent(Value()) && addr < 0x1_0000
      modifies this`sw, this`memDirty, mem, Blocks()
      modifies this`ramworks, this`auxBase, this`aux, this`auxBsr, this`auxBsrP2, this`selected
      ensures Valid() && Coherent(Value()) && Value() == Access(old(Value()), addr, true)
      ensures selected == if IsRamworks(addr) then Chosen(avail, d) else old(selected)
      ensures Kept(old(Contents()), WriteCell(MapOf(old(sw)), old(selected), addr), d, Contents())
      ensures forall k | 0 <= k < BLOCKS && ramworks[k] != old(ramworks[k]) :: fresh(ramworks[k])
    {
      AccessKeepsCoherent(Value(), addr, true);
      NoCellsBetween(MapOf(sw), selected, addr);
      hide Access, Coherent, BankAccess, WriteCell, MapOf, Kept, Contents, Blocks, BlocksApart, Chosen;
      ghost var ram := Contents();
      var done := SwitchesKeep(addr, d, true);
      if !done {
        ghost var between, target := Contents(), WriteCell(MapOf(sw), selected, addr);
        NoCellsBetween(MapOf(sw), selected, addr);
        WriteKept(addr, d);
        KeptThen(ram, between, target, d, Contents());
      }
    }

    method WriteKept(addr: nat, d: byte)
      requires Valid() && Coherent(Value()) && addr < 0x1_0000
      modifies this`sw, this`memDirty, mem, Blocks()
      ensures Valid() && Value() == BankAccess(old(Value()), addr, true)
      ensures Kept(old(Contents()), WriteCell(MapOf(old(sw)), selected, addr), d, Contents())
      ensures ramworks == old(ramworks) && selected == old(selected)
    {
      hide Coherent, BankAccess, WriteCell, BlocksApart, MapOf, Kept, At, Present;
      WriteThrough(addr, d);
      ChangedIsKept(WriteCell(MapOf(old(sw)), selected, addr), d);
    }

    method Read(addr: nat, d: byte) returns (r: byte)
      requires Valid() && Coherent(Value()) && addr < 0x1_0000
      modifies this`sw, this`memDirty, mem
      modifies this`ramworks, this`auxBase, this`aux, this`auxBsr, this`auxBsrP2, this`selected
      ensures Valid() && Coherent(Value()) && Value() == Access(old(Value()), addr, false)
      ensures selected == old(selected) && Kept(old(Contents()), None, d, Contents())
      ensures forall k | 0 <= k < BLOCKS && ramworks[k] != old(ramworks[k]) :: fresh(ramworks[k])
      ensures var cell := ReadCell(MapOf(old(sw)), old(selected), addr);
        cell.Some? ==> old(Present(cell.value)) && r == old(At(cell.value))
    {
      AccessKeepsCoherent(Value(), addr, false);
      NoCellsBetween(MapOf(sw), selected, addr);
      hide Access, Coherent, BankAccess, WriteCell, ReadCell, BlocksApart, MapOf, Kept, At, Present;
      ghost var ram := Contents();
      r := d;
      var done := SwitchesKeep(addr, d, false);
      NoCellsBetween(MapOf(sw), selected, addr);
      if !done {
        ghost var between := Contents();
        r := ReadThrough(addr);
        KeptThen(ram, between, None, d, Contents());
      }
    }

    // The same in terms of the cells: the target gets the byte, the source gives it.
    method BusAccess(e: Bus) returns (r: byte)
      requires Valid() && Coherent(Value())
      modifies this`sw, this`memDirty, mem, Blocks()
      modifies this`ramworks, this`auxBase, this`aux, this`auxBsr, this`auxBsrP2, this`selected
      ensures Valid() && Coherent(Value()) && State() == Step(avail, old(State()), e)
      ensures var target := Target(old(State()), e);
        && Kept(old(Contents()), target, e.d, Contents())
        && (target.Some? ==> target.value in old(Contents()))
      ensures var source := Source(old(State()), e);
        source.Some? ==> source.value in old(Contents()) && r == old(Contents())[source.value]
      ensures rom[..] == old(rom[..]) && cardRom[..] == old(cardRom[..])
      ensures forall o | o in Blocks() :: o in old(Blocks()) || fresh(o)
    {
      TargetPresent(e.addr);
      hide Access, Coherent, WriteCell, ReadCell, BlocksApart, MapOf, Blocks;
      r := MemAccess(e.addr, e.d, e.write);
    }

    lemma TargetPresent(addr: nat)
      requires Valid() && addr < 0x1_0000
      ensures var cell := WriteCell(MapOf(sw), selected, addr); cell.Some? ==> Present(cell.value)
    {
      EntriesFit(MapOf(sw), addr, Direct(MapOf(sw), addr / 256).write);
      hide Direct, MapOf, BlocksApart;
    }

    // Any run of accesses, and the bytes it reads: each is the last byte written before to the cell
    // that the address means under the switches and the block selected at that time, or what was
    // there at first. ROM stays as it is.
    method RunBus(events: seq<Bus>) returns (bytes: seq<byte>)
      requires Valid() && Coherent(Value())
      modifies this`sw, this`memDirty, mem, Blocks()
      modifies this`ramworks, this`auxBase, this`aux, this`auxBsr, this`auxBsrP2, this`selected
      ensures Valid() && Coherent(Value()) && State() == RamRuns.Run(avail, old(State()), events)
      ensures LastBytes(avail, old(State()), old(Contents()), events, Contents())
      ensures |bytes| == |events|
      ensures forall j | 0 <= j < |events| ::
        Answers(avail, old(State()), old(Contents()), events, j, bytes[j])
      ensures rom[..] == old(rom[..]) && cardRom[..] == old(cardRom[..])
    {
      ghost var s, ram := State(), Contents();
      NoAccessYet(avail, s, ram, events);
      hide Valid, State, Value, Coherent, Blocks, BlocksApart, Contents, RanTo, Kept, Target, Source, Step;
      bytes := [];
      var n := 0;
      while n < |events|
        invariant n <= |events| && |bytes| == n && Valid() && Coherent(Value())
        invariant RanTo(avail, s, ram, events, bytes, State(), Contents())
        invariant rom[..] == old(rom[..]) && cardRom[..] == old(cardRom[..])
        invariant forall o | o in Blocks() :: o in old(Blocks()) || fresh(o)
      {
        ghost var before, now := State(), Contents();
        var d := BusAccess(events[n]);
        RanOn(avail, s, ram, events, bytes, before, now, State(), Contents(), d);
        bytes := bytes + [d];
        n := n + 1;
      }
      RanThrough(avail, s, ram, events, bytes, State(), Contents());
    }

    lemma NoCellsBetween(m: Map, selected: nat, addr: nat)
      ensures 0xc000 <= addr < 0xd000 ==> ReadCell(m, selected, addr) == WriteCell(m, selected, addr) == None
    {
    }
  }
}
