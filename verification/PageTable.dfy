// The page table of src/mii.c and the soft switches it follows.
//
// SwitchBits has the bit field of src/mii_sw.h; PageTable says bank by bank what every page should
// be, computes the table the way mii_page_table_update does, and shows that after every memory
// access of a //e the table agrees with the switches; Mmu is the code.
module SwitchBits {
  import opened Bits

  const B_80STORE := 0
  const B_ALTCHARSET := 1
  const B_80COL := 2
  const B_TEXT := 3
  const B_MIXED := 4
  const B_PAGE2 := 5
  const B_HIRES := 6
  const B_RAMRD := 7
  const B_RAMWRT := 8
  const B_INTCXROM := 9
  const B_ALTZP := 10
  const B_SLOTC3ROM := 11
  const B_BSRWRITE := 12
  const B_BSRREAD := 13
  const B_BSRPAGE2 := 14
  const B_BSRPREWRITE := 15
  const B_DHIRES := 16
  const B_INTC8ROM := 17

  // SWW_SETSTATE
  function SetState(bits: nat, b: nat, on: bool): nat
    requires b < 32
  {
    Pow2Monotone(b, 32);
    Or(And(bits, Not(32, Pow2(b))), if on then Pow2(b) else 0)
  }

  // SWW_GETSTATE
  predicate GetState(bits: nat, b: nat) {
    And(bits, Pow2(b)) != 0
  }

  lemma SetThenGet(bits: nat, b: nat, on: bool, c: nat)
    requires b < 32 && c < 32
    ensures GetState(SetState(bits, b, on), c) <==> if b == c then on else GetState(bits, c)
  {
    Pow2Monotone(b, 32);
    var mask, added := Not(32, Pow2(b)), if on then Pow2(b) else 0;
    BitTest(bits, c);
    BitTest(SetState(bits, b, on), c);
    BitOfOr(And(bits, mask), added, c);
    BitOfAnd(bits, mask, c);
    BitOfNot(32, Pow2(b), c);
    BitOfPow2(b, c);
    BitOfZero(c);
    hide Or, And, Not, Pow2, Bit;
  }

  // const uint16_t sw_save: the low 16 bits.
  lemma Truncated(bits: nat, c: nat)
    ensures GetState(bits % 0x1_0000, c) <==> c < 16 && GetState(bits, c)
  {
    var low := Pow2(16) - 1;
    Pow2Values();
    MaskIsModulo(bits, 16, Pow2(16));
    BitTest(bits, c);
    BitTest(And(bits, low), c);
    BitOfAnd(bits, low, c);
    if c < 16 {
      BitOfOnes(16, c);
    } else {
      BitAbove(low, 16, c);
    }
    hide And, Pow2, Bit;
  }
}

module PageTable {
  import opened SwitchBits

  // The order matters: the second bank of bank-switched RAM is the first plus one.
  const MAIN := 0
  const BSR := 1
  const BSR_P2 := 2
  const AUX_BASE := 3
  const AUX := 4
  const AUX_BSR := 5
  const AUX_BSR_P2 := 6
  const ROM := 7
  const CARD_ROM := 8
  const SW := 9
  // leave this half of the entry as it is
  const SAME := 0xf

  datatype Entry = Entry(read: nat, write: nat)

  // The switches that the memory map depends on.
  datatype Map = Map(altzp: bool, page2: bool, store80: bool, hires: bool, ramrd: bool, ramwrt: bool,
                     intcxrom: bool, slotc3rom: bool, intc8rom: bool, bsrread: bool, bsrwrite: bool, bsrpage2: bool)

  function MapOf(sw: nat): Map {
    Map(GetState(sw, B_ALTZP), GetState(sw, B_PAGE2), GetState(sw, B_80STORE), GetState(sw, B_HIRES),
        GetState(sw, B_RAMRD), GetState(sw, B_RAMWRT), GetState(sw, B_INTCXROM), GetState(sw, B_SLOTC3ROM),
        GetState(sw, B_INTC8ROM), GetState(sw, B_BSRREAD), GetState(sw, B_BSRWRITE), GetState(sw, B_BSRPAGE2))
  }

  // ---- What a page should be ----

  // 80STORE gives text page 1, and with HIRES graphics page 1, to PAGE2; elsewhere below $C000 the
  // RAMRD and RAMWRT switches decide, and in the first two pages ALTZP.
  function LowRam(m: Map, page: nat, ram: bool): nat {
    if page < 2 then (if m.altzp then AUX else MAIN)
    else if m.store80 && (4 <= page <= 7 || (m.hires && 0x20 <= page <= 0x3f)) then (if m.page2 then AUX else MAIN)
    else if ram then AUX else MAIN
  }

  // $C100 to $CFFF is for the cards unless INTCXROM is on; the internal ROM of $C3 shows, for reading
  // only, unless SLOTC3ROM is on, and that of $C800 once it has been called for.
  function InternalRom(m: Map, page: nat): bool {
    (page == 0xc3 && !m.slotc3rom) || (page >= 0xc8 && m.intc8rom)
  }

  // $D000 to $FFFF: one of two banks of RAM in the first sixteen pages, ROM if not enabled.
  function HighRam(m: Map, page: nat, enabled: bool): nat {
    if !enabled then ROM
    else if m.altzp then (if page <= 0xdf && m.bsrpage2 then AUX_BSR_P2 else AUX_BSR)
    else if page <= 0xdf && m.bsrpage2 then BSR_P2 else BSR
  }

  function Direct(m: Map, page: nat): Entry {
    if page < 0xc0 then Entry(LowRam(m, page, m.ramrd), LowRam(m, page, m.ramwrt))
    else if page == 0xc0 then Entry(SW, SW)
    else if page <= 0xcf then
      if m.intcxrom then Entry(ROM, ROM) else Entry(if InternalRom(m, page) then ROM else CARD_ROM, CARD_ROM)
    else Entry(HighRam(m, page, m.bsrread), HighRam(m, page, m.bsrwrite))
  }

  // ---- How it is computed: stretches of pages, later ones over earlier ones ----

  function SetEntry(e: Entry, read: nat, write: nat): Entry {
    Entry(if read != SAME then read else e.read, if write != SAME then write else e.write)
  }

  // mii_page_set
  function PageSet(mem: seq<Entry>, read: nat, write: nat, first: nat, end: nat): (r: seq<Entry>)
    requires first <= end < |mem|
    ensures |r| == |mem|
    ensures forall i | 0 <= i < |mem| :: r[i] == if first <= i <= end then SetEntry(mem[i], read, write) else mem[i]
  {
    seq(|mem|, i requires 0 <= i < |mem| => if first <= i <= end then SetEntry(mem[i], read, write) else mem[i])
  }

  function CleanSlate(mem: seq<Entry>): (r: seq<Entry>)
    requires |mem| == 256
    ensures |r| == 256
    ensures forall i | 0 <= i < 256 ::
      r[i] == if i < 0xc0 then Entry(MAIN, MAIN) else if i == 0xc0 then Entry(SW, SW) else Entry(ROM, ROM)
  {
    PageSet(PageSet(PageSet(mem, MAIN, MAIN, 0x00, 0xbf), SW, SW, 0xc0, 0xc0), ROM, ROM, 0xc1, 0xff)
  }

  function SetLowRam(m: Map, mem: seq<Entry>): (r: seq<Entry>)
    requires |mem| == 256
    ensures |r| == 256
  {
    var mem1 := if m.altzp then PageSet(mem, AUX, AUX, 0x00, 0x01) else mem;
    var mem2 := PageSet(mem1, if m.ramrd then AUX else MAIN, if m.ramwrt then AUX else MAIN, 0x02, 0xbf);
    var bank := if m.page2 then AUX else MAIN;
    if m.store80 then
      var mem3 := PageSet(mem2, bank, bank, 0x04, 0x07);
      if m.hires then PageSet(mem3, bank, bank, 0x20, 0x3f) else mem3
    else mem2
  }

  function SetSlots(m: Map, mem: seq<Entry>): (r: seq<Entry>)
    requires |mem| == 256
    ensures |r| == 256
  {
    if !m.intcxrom then
      var mem1 := PageSet(mem, CARD_ROM, CARD_ROM, 0xc1, 0xcf);
      var mem2 := if !m.slotc3rom then PageSet(mem1, ROM, SAME, 0xc3, 0xc3) else mem1;
      if m.intc8rom then PageSet(mem2, ROM, SAME, 0xc8, 0xcf) else mem2
    else mem
  }

  function SetHighRam(m: Map, mem: seq<Entry>): (r: seq<Entry>)
    requires |mem| == 256
    ensures |r| == 256
  {
    var bsr := if m.altzp then AUX_BSR else BSR;
    var p2 := bsr + if m.bsrpage2 then 1 else 0;
    var mem1 := PageSet(mem, if m.bsrread then bsr else ROM, if m.bsrwrite then bsr else ROM, 0xd0, 0xff);
    PageSet(mem1, if m.bsrread then p2 else ROM, if m.bsrwrite then p2 else ROM, 0xd0, 0xdf)
  }

  function Computed(m: Map, mem: seq<Entry>): (r: seq<Entry>)
    requires |mem| == 256
    ensures |r| == 256
  {
    SetHighRam(m, SetSlots(m, SetLowRam(m, CleanSlate(mem))))
  }

  // The stretches come out as the priorities say.
  lemma ComputedIsDirect(m: Map, mem: seq<Entry>, page: nat)
    requires |mem| == 256 && page < 256
    ensures Computed(m, mem)[page] == Direct(m, page)
  {
    var mem1 := CleanSlate(mem);
    var mem2 := SetLowRam(m, mem1);
    var mem3 := SetSlots(m, mem2);
    LowRamSet(m, mem1, page);
    SlotsSet(m, mem2, page);
    HighRamSet(m, mem3, page);
    hide CleanSlate, SetLowRam, SetSlots, SetHighRam, PageSet;
  }

  lemma LowRamSet(m: Map, mem: seq<Entry>, page: nat)
    requires |mem| == 256 && page < 256 && (page < 0xc0 ==> mem[page] == Entry(MAIN, MAIN))
    ensures SetLowRam(m, mem)[page] == if page < 0xc0 then Direct(m, page) else mem[page]
  {
    hide PageSet;
  }

  lemma SlotsSet(m: Map, mem: seq<Entry>, page: nat)
    requires |mem| == 256 && page < 256 && (0xc1 <= page <= 0xcf ==> mem[page] == Entry(ROM, ROM))
    ensures SetSlots(m, mem)[page] == if 0xc1 <= page <= 0xcf then Direct(m, page) else mem[page]
  {
    hide PageSet;
  }

  lemma HighRamSet(m: Map, mem: seq<Entry>, page: nat)
    requires |mem| == 256 && page < 256
    ensures SetHighRam(m, mem)[page] == if page >= 0xd0 then Direct(m, page) else mem[page]
  {
    hide PageSet;
  }

  // ---- Memory accesses of a //e, with slots that leave the switches alone ----

  datatype Mmu = Mmu(sw: nat, dirty: bool, mem: seq<Entry>)

  // mii_page_table_update
  function Update(m: Mmu): (r: Mmu)
    requires |m.mem| == 256
    ensures |r.mem| == 256
  {
    if !m.dirty then m else m.(dirty := false, mem := Computed(MapOf(m.sw), m.mem))
  }

  // mii_reset
  function Reset(m: Mmu): Mmu
    requires |m.mem| == 256
  {
    Update(m.(sw := SetState(SetState(0, B_BSRWRITE, true), B_BSRPAGE2, true), dirty := true))
  }

  // _mii_deselect_cXrom
  function DeselectCxrom(m: Mmu, addr: nat): (r: Mmu)
    requires |m.mem| == 256
    ensures |r.mem| == 256
  {
    if addr != 0xcfff || !GetState(m.sw, B_INTC8ROM) then m
    else Update(m.(sw := SetState(m.sw, B_INTC8ROM, false), dirty := true))
  }

  // The accesses that mii_access_keyboard ends.
  predicate KeyboardDone(addr: nat, write: bool) {
    (addr == 0xc000 && !write) || addr == 0xc010 || 0xc061 <= addr <= 0xc063
  }

  // mii_access_video: the bit it sets, if any.
  function VideoSwitch(sw: nat, addr: nat, write: bool): nat {
    var on := addr % 2 == 1;
    if addr / 2 == 0xc00e / 2 then (if write then SetState(sw, B_ALTCHARSET, on) else sw)
    else if addr / 2 == 0xc056 / 2 then SetState(sw, B_HIRES, on)
    else if addr / 2 == 0xc054 / 2 then SetState(sw, B_PAGE2, on)
    else if addr / 2 == 0xc00c / 2 then (if write then SetState(sw, B_80COL, on) else sw)
    else if addr / 2 == 0xc05e / 2 then SetState(sw, B_DHIRES, !on)
    else if addr / 2 == 0xc050 / 2 then SetState(sw, B_TEXT, on)
    else if addr / 2 == 0xc052 / 2 then SetState(sw, B_MIXED, on)
    else sw
  }

  // The accesses that mii_access_video ends; $C054 to $C057 go on to the generic code.
  predicate VideoDone(addr: nat, write: bool) {
    || (0xc00c <= addr <= 0xc00f && write) || 0xc019 <= addr <= 0xc01f || 0xc050 <= addr <= 0xc053
    || addr == 0xc05e || addr == 0xc05f || addr == 0xc07f
  }

  // $C080 to $C08F
  function LanguageCard(sw: nat, addr: nat, write: bool): nat {
    var offSwitch := addr / 2 % 2 == 1;
    var switched :=
      if addr % 2 == 1 then
        var sw1 := if !write && GetState(sw, B_BSRPREWRITE) then SetState(sw, B_BSRWRITE, true) else sw;
        SetState(SetState(sw1, B_BSRPREWRITE, !write), B_BSRREAD, offSwitch)
      else
        SetState(SetState(SetState(sw, B_BSRWRITE, false), B_BSRPREWRITE, false), B_BSRREAD, !offSwitch);
    SetState(switched, B_BSRPAGE2, addr / 8 % 2 == 0)
  }

  // The switches that are set by writing.
  function WriteSwitch(sw: nat, addr: nat): nat {
    var on := addr % 2 == 1;
    if addr / 2 == 0xc000 / 2 then SetState(sw, B_80STORE, on)
    else if addr / 2 == 0xc002 / 2 then SetState(sw, B_RAMRD, on)
    else if addr / 2 == 0xc004 / 2 then SetState(sw, B_RAMWRT, on)
    else if addr / 2 == 0xc008 / 2 then SetState(sw, B_ALTZP, on)
    else if addr / 2 == 0xc006 / 2 then SetState(sw, B_INTCXROM, on)
    else if addr / 2 == 0xc00a / 2 then SetState(sw, B_SLOTC3ROM, on)
    else sw
  }

  // The accesses that the first switch statement of mii_access_soft_switches ends.
  predicate FirstDone(addr: nat) {
    || 0xc080 <= addr <= 0xc0ff || 0xc054 <= addr <= 0xc057 || addr == 0xc030 || 0xc064 <= addr <= 0xc068
    || addr == 0xc070
  }

  // mii_access_soft_switches. sw_save is 16 bits wide, the switches are 18.
  function SoftSwitches(m: Mmu, addr: nat, write: bool): (r: Mmu)
    requires |m.mem| == 256 && 0xc000 <= addr <= 0xc0ff
    ensures |r.mem| == 256
  {
    var save := m.sw % 0x1_0000;
    if FirstDone(addr) then
      if 0xc080 <= addr <= 0xc08f then
        var sw := LanguageCard(m.sw, addr, write);
        Update(m.(sw := sw, dirty := save != sw))
      else if 0xc054 <= addr <= 0xc057 then Update(m.(dirty := true))
      else Update(m)
    else if write then
      var sw := WriteSwitch(m.sw, addr);
      Update(m.(sw := sw, dirty := m.dirty || save != sw))
    else Update(m)
  }

  predicate SoftDone(addr: nat, write: bool) {
    FirstDone(addr) || !write || addr <= 0xc00b
  }

  // _mii_select_c3introm
  function SelectC3(m: Mmu): (r: Mmu)
    requires |m.mem| == 256
    ensures |r.mem| == 256
  {
    if GetState(m.sw, B_SLOTC3ROM) || GetState(m.sw, B_INTC8ROM) then m
    else Update(m.(sw := SetState(m.sw, B_INTC8ROM, true), dirty := true))
  }

  // The bank access at the end of mii_mem_access, as far as the switches go.
  function BankAccess(m: Mmu, addr: nat, write: bool): (r: Mmu)
    requires |m.mem| == 256 && addr < 0x1_0000
    ensures |r.mem| == 256
  {
    var e := m.mem[addr / 256];
    if addr / 256 == 0xc3 && (if write then e.write else e.read) == ROM then SelectC3(m) else m
  }

  function Displayed(m: Mmu, addr: nat, write: bool): Mmu {
    m.(sw := VideoSwitch(m.sw, addr, write))
  }

  // mii_mem_access
  function Access(m: Mmu, addr: nat, write: bool): (r: Mmu)
    requires |m.mem| == 256 && addr < 0x1_0000
    ensures |r.mem| == 256
  {
    var m1 := DeselectCxrom(m, addr);
    if KeyboardDone(addr, write) then m1
    else
      var m2 := Displayed(m1, addr, write);
      if VideoDone(addr, write) then m2
      else if 0xc000 <= addr <= 0xc0ff then
        var m3 := SoftSwitches(m2, addr, write);
        if SoftDone(addr, write) then m3 else BankAccess(m3, addr, write)
      else BankAccess(m2, addr, write)
  }

  // ---- The table is never out of date ----

  ghost predicate Coherent(m: Mmu) {
    && |m.mem| == 256 && !m.dirty
    && forall page | 0 <= page < 256 :: m.mem[page] == Direct(MapOf(m.sw), page)
  }

  lemma UpdateIsCoherent(m: Mmu)
    requires |m.mem| == 256 && (!m.dirty ==> Coherent(m))
    ensures Coherent(Update(m)) && Update(m).sw == m.sw
  {
    if m.dirty {
      forall page | 0 <= page < 256
        ensures Computed(MapOf(m.sw), m.mem)[page] == Direct(MapOf(m.sw), page)
      {
        ComputedIsDirect(MapOf(m.sw), m.mem, page);
      }
    }
    hide Computed, Direct;
  }

  lemma SameMapCoherent(m: Mmu, sw: nat)
    requires Coherent(m) && MapOf(sw) == MapOf(m.sw)
    ensures Coherent(m.(sw := sw))
  {
  }

  // A display switch is not part of the map.
  lemma DisplaySwitchKeepsMap(sw: nat, b: nat, on: bool)
    requires b == B_ALTCHARSET || b == B_80COL || b == B_TEXT || b == B_MIXED || b == B_DHIRES
    ensures MapOf(SetState(sw, b, on)) == MapOf(sw)
  {
    MapBits(sw, SetState(sw, b, on), b, on);
    hide GetState, SetState;
  }

  lemma MapBits(sw: nat, sw': nat, b: nat, on: bool)
    requires b < 32 && sw' == SetState(sw, b, on)
    ensures forall c | 0 <= c < 18 :: GetState(sw', c) <==> if b == c then on else GetState(sw, c)
  {
    forall c | 0 <= c < 18
      ensures GetState(sw', c) <==> if b == c then on else GetState(sw, c)
    {
      SetThenGet(sw, b, on, c);
    }
  }

  // If a switch function of the first sixteen bits leaves the truncated copy looking unchanged, then
  // nothing of the map has changed: with either of the two high bits set it never looks unchanged.
  lemma TruncationMissesNothing(sw: nat, sw': nat)
    requires sw % 0x1_0000 == sw' && (GetState(sw', B_INTC8ROM) <==> GetState(sw, B_INTC8ROM))
    ensures MapOf(sw') == MapOf(sw)
  {
    forall c | 0 <= c < 18
      ensures c < 16 ==> (GetState(sw', c) <==> GetState(sw, c))
    {
      Truncated(sw, c);
    }
    hide GetState;
  }

  lemma DeselectKeeps(m: Mmu, addr: nat)
    requires Coherent(m)
    ensures Coherent(DeselectCxrom(m, addr))
  {
    if addr == 0xcfff && GetState(m.sw, B_INTC8ROM) {
      UpdateIsCoherent(m.(sw := SetState(m.sw, B_INTC8ROM, false), dirty := true));
    }
    hide Coherent, Update;
  }

  lemma SelectKeeps(m: Mmu)
    requires Coherent(m)
    ensures Coherent(SelectC3(m))
  {
    UpdateIsCoherent(m.(sw := SetState(m.sw, B_INTC8ROM, true), dirty := true));
    hide Coherent, Update, GetState;
  }

  lemma VideoKeeps(m: Mmu, addr: nat, write: bool)
    requires Coherent(m) && !(0xc054 <= addr <= 0xc057)
    ensures Coherent(m.(sw := VideoSwitch(m.sw, addr, write)))
  {
    hide Coherent, VideoSwitch, MapOf;
    VideoKeepsMap(m.sw, addr, write);
    SameMapCoherent(m, VideoSwitch(m.sw, addr, write));
  }

  lemma VideoKeepsMap(sw: nat, addr: nat, write: bool)
    requires !(0xc054 <= addr <= 0xc057)
    ensures MapOf(VideoSwitch(sw, addr, write)) == MapOf(sw)
  {
    hide SetState, MapOf;
    var on := addr % 2 == 1;
    DisplaySwitchKeepsMap(sw, B_ALTCHARSET, on);
    DisplaySwitchKeepsMap(sw, B_80COL, on);
    DisplaySwitchKeepsMap(sw, B_DHIRES, !on);
    DisplaySwitchKeepsMap(sw, B_TEXT, on);
    DisplaySwitchKeepsMap(sw, B_MIXED, on);
  }

  // The other switch functions leave the two high bits alone.
  lemma LanguageCardBits(sw: nat, addr: nat, write: bool)
    ensures var sw', odd, two := LanguageCard(sw, addr, write), addr % 2 == 1, addr / 2 % 2 == 1;
      && (GetState(sw', B_BSRWRITE) <==> odd && (GetState(sw, B_BSRWRITE) || (!write && GetState(sw, B_BSRPREWRITE))))
      && (GetState(sw', B_BSRPREWRITE) <==> odd && !write)
      && (GetState(sw', B_BSRREAD) <==> (odd <==> two))
      && (GetState(sw', B_BSRPAGE2) <==> addr / 8 % 2 == 0)
      && (forall c | 0 <= c < 18 && !(12 <= c <= 15) :: GetState(sw', c) <==> GetState(sw, c))
  {
    hide SetState, GetState;
    var odd, two := addr % 2 == 1, addr / 2 % 2 == 1;
    var sw1 := if odd then if !write && GetState(sw, B_BSRPREWRITE) then SetState(sw, B_BSRWRITE, true) else sw
               else SetState(sw, B_BSRWRITE, false);
    var sw2 := SetState(sw1, B_BSRPREWRITE, odd && !write);
    var sw3 := SetState(sw2, B_BSRREAD, odd <==> two);
    var sw4 := SetState(sw3, B_BSRPAGE2, addr / 8 % 2 == 0);
    assert sw4 == LanguageCard(sw, addr, write);
    forall c | 0 <= c < 18
      ensures GetState(sw4, c) <==>
        if c == B_BSRPAGE2 then addr / 8 % 2 == 0 else if c == B_BSRREAD then (odd <==> two)
        else if c == B_BSRPREWRITE then odd && !write
        else if c == B_BSRWRITE then odd && (GetState(sw, c) || (!write && GetState(sw, B_BSRPREWRITE)))
        else GetState(sw, c)
    {
      SetThenGet(sw, B_BSRWRITE, odd, c);
      SetThenGet(sw1, B_BSRPREWRITE, odd && !write, c);
      SetThenGet(sw2, B_BSRREAD, odd <==> two, c);
      SetThenGet(sw3, B_BSRPAGE2, addr / 8 % 2 == 0, c);
    }
  }

  // ---- Which access sets which switch ----

  predicate IsDisplay(c: nat) {
    1 <= c <= 6 || c == B_DHIRES
  }

  predicate IsMapping(c: nat) {
    c == B_80STORE || 7 <= c <= 11
  }

  // The address that turns a switch on; its neighbour turns it off.
  function OnAt(c: nat): nat
    requires IsDisplay(c) || IsMapping(c)
  {
    if c == B_80STORE then 0xc001
    else if c == B_RAMRD then 0xc003
    else if c == B_RAMWRT then 0xc005
    else if c == B_INTCXROM then 0xc007
    else if c == B_ALTZP then 0xc009
    else if c == B_SLOTC3ROM then 0xc00b
    else if c == B_80COL then 0xc00d
    else if c == B_ALTCHARSET then 0xc00f
    else if c == B_TEXT then 0xc051
    else if c == B_MIXED then 0xc053
    else if c == B_PAGE2 then 0xc055
    else if c == B_HIRES then 0xc057
    else 0xc05e
  }

  function OffAt(c: nat): nat
    requires IsDisplay(c) || IsMapping(c)
  {
    if c == B_DHIRES then 0xc05f else OnAt(c) - 1
  }

  // Those at $C00x are set by writes only, those at $C05x by any access.
  predicate Sets(addr: nat, write: bool, c: nat)
    requires IsDisplay(c) || IsMapping(c)
  {
    (addr == OnAt(c) || addr == OffAt(c)) && (write || addr >= 0xc050)
  }

  lemma WriteSwitchBits(sw: nat, addr: nat, c: nat)
    requires c < 18
    ensures GetState(WriteSwitch(sw, addr), c) <==>
      if IsMapping(c) && Sets(addr, true, c) then addr == OnAt(c) else GetState(sw, c)
  {
    hide SetState, GetState;
    var on := addr % 2 == 1;
    if addr / 2 == 0xc000 / 2 {
      SetThenGet(sw, B_80STORE, on, c);
    } else if addr / 2 == 0xc002 / 2 {
      SetThenGet(sw, B_RAMRD, on, c);
    } else if addr / 2 == 0xc004 / 2 {
      SetThenGet(sw, B_RAMWRT, on, c);
    } else if addr / 2 == 0xc008 / 2 {
      SetThenGet(sw, B_ALTZP, on, c);
    } else if addr / 2 == 0xc006 / 2 {
      SetThenGet(sw, B_INTCXROM, on, c);
    } else if addr / 2 == 0xc00a / 2 {
      SetThenGet(sw, B_SLOTC3ROM, on, c);
    }
  }

  lemma VideoSwitchBits(sw: nat, addr: nat, write: bool, c: nat)
    requires c < 18
    ensures GetState(VideoSwitch(sw, addr, write), c) <==>
      if IsDisplay(c) && Sets(addr, write, c) then addr == OnAt(c) else GetState(sw, c)
  {
    hide SetState, GetState;
    var on := addr % 2 == 1;
    if addr / 2 == 0xc00e / 2 {
      SetThenGet(sw, B_ALTCHARSET, on, c);
    } else if addr / 2 == 0xc056 / 2 {
      SetThenGet(sw, B_HIRES, on, c);
    } else if addr / 2 == 0xc054 / 2 {
      SetThenGet(sw, B_PAGE2, on, c);
    } else if addr / 2 == 0xc00c / 2 {
      SetThenGet(sw, B_80COL, on, c);
    } else if addr / 2 == 0xc05e / 2 {
      SetThenGet(sw, B_DHIRES, !on, c);
    } else if addr / 2 == 0xc050 / 2 {
      SetThenGet(sw, B_TEXT, on, c);
    } else if addr / 2 == 0xc052 / 2 {
      SetThenGet(sw, B_MIXED, on, c);
    }
  }

  // The update after a truncated comparison.
  lemma ComparedKeeps(m: Mmu, sw: nat)
    requires Coherent(m) && (GetState(sw, B_INTC8ROM) <==> GetState(m.sw, B_INTC8ROM))
    ensures Coherent(Update(m.(sw := sw, dirty := m.sw % 0x1_0000 != sw)))
  {
    hide GetState, Coherent, MapOf, Update;
    if m.sw % 0x1_0000 == sw {
      TruncationMissesNothing(m.sw, sw);
      SameMapCoherent(m, sw);
      CoherentIsClean(m.(sw := sw));
    } else {
      CoherentIsClean(m);
    }
    UpdateIsCoherent(m.(sw := sw, dirty := m.sw % 0x1_0000 != sw));
  }

  lemma CoherentIsClean(m: Mmu)
    ensures Coherent(m) ==> !m.dirty && |m.mem| == 256
  {
  }

  lemma SoftSwitchesKeep(m: Mmu, addr: nat, write: bool)
    requires Coherent(m) && 0xc000 <= addr <= 0xc0ff && !(0xc054 <= addr <= 0xc057)
    ensures Coherent(SoftSwitches(m, addr, write))
  {
    CoherentIsClean(m);
    LanguageCardBits(m.sw, addr, write);
    WriteSwitchBits(m.sw, addr, B_INTC8ROM);
    hide GetState, Coherent, Update, LanguageCard, WriteSwitch, MapOf;
    assert m.(dirty := false) == m;
    if 0xc080 <= addr <= 0xc08f {
      ComparedKeeps(m, LanguageCard(m.sw, addr, write));
    } else if !FirstDone(addr) && write {
      ComparedKeeps(m, WriteSwitch(m.sw, addr));
    } else {
      UpdateIsCoherent(m);
    }
  }

  // After any access the table is what the priorities make of the switches, and no update is due.
  lemma AccessKeepsCoherent(m: Mmu, addr: nat, write: bool)
    requires Coherent(m) && addr < 0x1_0000
    ensures Coherent(Access(m, addr, write))
  {
    CoherentIsClean(m);
    StagesKeep(m, addr, write);
    var m2 := Displayed(DeselectCxrom(m, addr), addr, write);
    hide Coherent, DeselectCxrom, VideoSwitch, SoftSwitches, BankAccess;
    if !(0xc000 <= addr <= 0xc0ff) {
      BankKeeps(m2, addr, write);
    } else if !(0xc054 <= addr <= 0xc057) {
      BankKeeps(SoftSwitches(m2, addr, write), addr, write);
    }
  }

  // Every part of an access leaves the table up to date, but for the video code at PAGE2 and HIRES.
  lemma StagesKeep(m: Mmu, addr: nat, write: bool)
    requires Coherent(m) && addr < 0x1_0000
    ensures Coherent(DeselectCxrom(m, addr))
    ensures var m2 := Displayed(DeselectCxrom(m, addr), addr, write);
      && (!(0xc054 <= addr <= 0xc057) ==> Coherent(m2))
      && (0xc000 <= addr <= 0xc0ff ==> Coherent(SoftSwitches(m2, addr, write)))
      && (0xc054 <= addr <= 0xc057 ==> SoftDone(addr, write))
  {
    CoherentIsClean(m);
    DeselectKeeps(m, addr);
    var m1 := DeselectCxrom(m, addr);
    CoherentIsClean(m1);
    hide Coherent, DeselectCxrom, VideoSwitch, SoftSwitches, SoftDone;
    var m2 := Displayed(m1, addr, write);
    if 0xc054 <= addr <= 0xc057 {
      PageSwitchKeeps(m1, m2, addr, write);
    } else {
      VideoKeeps(m1, addr, write);
      if 0xc000 <= addr <= 0xc0ff {
        SoftSwitchesKeep(m2, addr, write);
      }
    }
  }

  // PAGE2 and HIRES are set by the video code, and the update is forced by the generic code.
  lemma PageSwitchKeeps(m: Mmu, m': Mmu, addr: nat, write: bool)
    requires Coherent(m) && m'.(sw := m.sw) == m && 0xc054 <= addr <= 0xc057
    ensures |m'.mem| == 256 && Coherent(SoftSwitches(m', addr, write)) && SoftDone(addr, write)
  {
    CoherentIsClean(m);
    hide Coherent, Update;
    UpdateIsCoherent(m'.(dirty := true));
  }

  lemma BankKeeps(m: Mmu, addr: nat, write: bool)
    requires Coherent(m) && addr < 0x1_0000
    ensures |m.mem| == 256 && Coherent(BankAccess(m, addr, write))
  {
    CoherentIsClean(m);
    SelectKeeps(m);
    hide Coherent, SelectC3;
  }

  lemma ResetIsCoherent(m: Mmu)
    requires |m.mem| == 256
    ensures Coherent(Reset(m))
  {
    hide Update, Coherent, SetState;
    UpdateIsCoherent(m.(sw := SetState(SetState(0, B_BSRWRITE, true), B_BSRPAGE2, true), dirty := true));
  }

  // ---- Every switch after an access ----

  lemma UpdateKeepsSwitches(m: Mmu)
    requires |m.mem| == 256
    ensures Update(m).sw == m.sw
  {
    hide Computed, MapOf;
  }

  lemma DeselectBits(m: Mmu, addr: nat, c: nat)
    requires |m.mem| == 256 && c < 18
    ensures GetState(DeselectCxrom(m, addr).sw, c) <==> GetState(m.sw, c) && !(c == B_INTC8ROM && addr == 0xcfff)
  {
    SetThenGet(m.sw, B_INTC8ROM, false, c);
    UpdateKeepsSwitches(m.(sw := SetState(m.sw, B_INTC8ROM, false), dirty := true));
    hide GetState, SetState, Update;
  }

  lemma SoftBits(m: Mmu, addr: nat, write: bool, c: nat)
    requires |m.mem| == 256 && c < 18 && 0xc000 <= addr <= 0xc0ff
    ensures var sw := SoftSwitches(m, addr, write).sw;
      if 0xc080 <= addr <= 0xc08f then sw == LanguageCard(m.sw, addr, write)
      else GetState(sw, c) <==> if IsMapping(c) && Sets(addr, write, c) then addr == OnAt(c) else GetState(m.sw, c)
  {
    var save, card, sw := m.sw % 0x1_0000, LanguageCard(m.sw, addr, write), WriteSwitch(m.sw, addr);
    WriteSwitchBits(m.sw, addr, c);
    UpdateKeepsSwitches(m);
    UpdateKeepsSwitches(m.(dirty := true));
    UpdateKeepsSwitches(m.(sw := card, dirty := save != card));
    UpdateKeepsSwitches(m.(sw := sw, dirty := m.dirty || save != sw));
    SetsInside(addr, write, c);
    FirstDoneSets(addr, write, c);
    hide GetState, Update, LanguageCard, WriteSwitch, FirstDone, Sets, OnAt, IsDisplay, IsMapping;
  }

  lemma FirstDoneSets(addr: nat, write: bool, c: nat)
    requires c < 18
    ensures IsMapping(c) && Sets(addr, write, c) ==> !FirstDone(addr) && write
    ensures 0xc080 <= addr <= 0xc08f || 0xc054 <= addr <= 0xc057 ==> FirstDone(addr)
  {
  }

  // The internal ROM at $C800 is called for by the first page of its slot, where that ROM shows.
  predicate CallsRom(sw: nat, addr: nat, write: bool) {
    addr / 256 == 0xc3 && !GetState(sw, B_SLOTC3ROM) && (!write || GetState(sw, B_INTCXROM))
  }

  lemma BankBits(m: Mmu, addr: nat, write: bool, c: nat)
    requires Coherent(m) && c < 18 && addr < 0x1_0000
    ensures GetState(BankAccess(m, addr, write).sw, c) <==>
      GetState(m.sw, c) || (c == B_INTC8ROM && CallsRom(m.sw, addr, write))
  {
    SetThenGet(m.sw, B_INTC8ROM, true, c);
    UpdateKeepsSwitches(m.(sw := SetState(m.sw, B_INTC8ROM, true), dirty := true));
    assert m.mem[addr / 256] == Direct(MapOf(m.sw), addr / 256);
    hide GetState, SetState, Update;
  }

  // After any access: the display and mapping switches have been set by the addresses that set them,
  // those of the language card by its sixteen addresses, that of the internal ROM at $C800 by $C3xx
  // and $CFFF; nothing else has changed.
  lemma AccessBits(m: Mmu, addr: nat, write: bool, c: nat)
    requires Coherent(m) && addr < 0x1_0000 && c < 18
    ensures var sw := Access(m, addr, write).sw;
      GetState(sw, c) <==>
        if IsDisplay(c) || IsMapping(c) then (if Sets(addr, write, c) then addr == OnAt(c) else GetState(m.sw, c))
        else if c == B_INTC8ROM then addr != 0xcfff && (GetState(m.sw, c) || CallsRom(m.sw, addr, write))
        else if 0xc080 <= addr <= 0xc08f then GetState(LanguageCard(m.sw, addr, write), c)
        else GetState(m.sw, c)
  {
    hide *;
    CoherentIsClean(m);
    SetsInside(addr, write, c);
    if 0xc000 <= addr <= 0xc0ff {
      CardBits(m.sw, addr, write, c);
      SwitchPage(m, addr, write, c);
    } else {
      OtherPage(m, addr, write, c);
    }
  }

  lemma CardBits(sw: nat, addr: nat, write: bool, c: nat)
    requires 0xc000 <= addr <= 0xc0ff && c < 18
    ensures IsDisplay(c) || IsMapping(c) || c == B_INTC8ROM ==>
      (GetState(LanguageCard(sw, addr, write), c) <==> GetState(sw, c))
    ensures !CallsRom(sw, addr, write)
  {
    LanguageCardBits(sw, addr, write);
    hide GetState, LanguageCard;
  }

  lemma SetsInside(addr: nat, write: bool, c: nat)
    requires c < 18
    ensures (IsDisplay(c) || IsMapping(c)) && Sets(addr, write, c) ==> 0xc000 <= addr <= 0xc05f
    ensures !IsDisplay(c) && !IsMapping(c) <==> c == B_INTC8ROM || 12 <= c <= 15
  {
  }

  lemma OtherPage(m: Mmu, addr: nat, write: bool, c: nat)
    requires Coherent(m) && !(0xc000 <= addr <= 0xc0ff) && addr < 0x1_0000 && c < 18
    ensures |m.mem| == 256
    ensures GetState(Access(m, addr, write).sw, c) <==>
      && (GetState(m.sw, c) || (c == B_INTC8ROM && CallsRom(m.sw, addr, write)))
      && !(c == B_INTC8ROM && addr == 0xcfff)
  {
    CoherentIsClean(m);
    OutsidePage(m, addr, write);
    DeselectKeeps(m, addr);
    DeselectBits(m, addr, c);
    BankBits(DeselectCxrom(m, addr), addr, write, c);
    hide GetState, Coherent, DeselectCxrom, BankAccess, Access, Displayed;
  }

  lemma OutsidePage(m: Mmu, addr: nat, write: bool)
    requires |m.mem| == 256 && !(0xc000 <= addr <= 0xc0ff) && addr < 0x1_0000
    ensures Displayed(DeselectCxrom(m, addr), addr, write) == DeselectCxrom(m, addr)
    ensures addr != 0xcfff ==> DeselectCxrom(m, addr) == m
    ensures Access(m, addr, write) == BankAccess(DeselectCxrom(m, addr), addr, write)
  {
    hide GetState, SetState, Update;
  }

  lemma SwitchPage(m: Mmu, addr: nat, write: bool, c: nat)
    requires Coherent(m) && 0xc000 <= addr <= 0xc0ff && c < 18
    ensures var sw := Access(m, addr, write).sw;
      if 0xc080 <= addr <= 0xc08f then sw == LanguageCard(m.sw, addr, write)
      else GetState(sw, c) <==>
        if (IsDisplay(c) || IsMapping(c)) && Sets(addr, write, c) then addr == OnAt(c) else GetState(m.sw, c)
  {
    hide *;
    var m2 := Displayed(m, addr, write);
    CoherentIsClean(m);
    DisplayedFields(m, addr, write);
    VideoSwitchBits(m.sw, addr, write, c);
    SoftBits(m2, addr, write, c);
    InsidePage(m, addr, write);
    EndedEarly(addr, write, c);
  }

  lemma DisplayedFields(m: Mmu, addr: nat, write: bool)
    ensures Displayed(m, addr, write) == m.(sw := VideoSwitch(m.sw, addr, write))
  {
    hide VideoSwitch;
  }

  // What the keyboard and video code end sets no switch of theirs.
  lemma EndedEarly(addr: nat, write: bool, c: nat)
    requires c < 18
    ensures KeyboardDone(addr, write) && (IsDisplay(c) || IsMapping(c)) ==> !Sets(addr, write, c)
    ensures VideoDone(addr, write) && IsMapping(c) ==> !Sets(addr, write, c)
    ensures KeyboardDone(addr, write) || VideoDone(addr, write) ==> !(0xc080 <= addr <= 0xc08f)
    ensures !(IsDisplay(c) && IsMapping(c))
  {
  }

  lemma InsidePage(m: Mmu, addr: nat, write: bool)
    requires |m.mem| == 256 && 0xc000 <= addr <= 0xc0ff
    ensures var m2 := Displayed(m, addr, write);
      && DeselectCxrom(m, addr) == m
      && (0xc080 <= addr <= 0xc08f ==> m2 == m)
      && Access(m, addr, write).sw ==
         if KeyboardDone(addr, write) then m.sw else if VideoDone(addr, write) then m2.sw
         else SoftSwitches(m2, addr, write).sw
  {
    hide GetState, SetState, Update, SoftSwitches;
  }

  // ---- Runs ----

  datatype Event = Event(addr: nat, write: bool)

  ghost predicate Addresses(events: seq<Event>) {
    forall i | 0 <= i < |events| :: events[i].addr < 0x1_0000
  }

  function Run(m: Mmu, events: seq<Event>): (r: Mmu)
    requires |m.mem| == 256 && Addresses(events)
    ensures |r.mem| == 256
  {
    if events == [] then m else
      var last := |events| - 1;
      Access(Run(m, events[..last]), events[last].addr, events[last].write)
  }

  lemma {:induction false} TableFollowsSwitches(m: Mmu, events: seq<Event>)
    requires |m.mem| == 256 && Addresses(events)
    ensures Coherent(Run(Reset(m), events))
  {
    ResetIsCoherent(m);
    if events != [] {
      var last := |events| - 1;
      TableFollowsSwitches(m, events[..last]);
      AccessKeepsCoherent(Run(Reset(m), events[..last]), events[last].addr, events[last].write);
    }
  }

  // ---- The language card over a whole run ----

  predicate IsCardAccess(e: Event) {
    0xc080 <= e.addr <= 0xc08f
  }

  predicate OddRead(e: Event) {
    e.addr % 2 == 1 && !e.write
  }

  // The accesses to $C080 to $C08F in a run.
  function CardAccesses(events: seq<Event>): seq<Event> {
    if events == [] then [] else
      var last := |events| - 1;
      CardAccesses(events[..last]) + if IsCardAccess(events[last]) then [events[last]] else []
  }

  // How many of the last accesses have come since the last even one.
  function SinceEven(cards: seq<Event>): (n: nat)
    ensures n <= |cards|
  {
    if cards == [] then 0
    else if cards[|cards| - 1].addr % 2 == 0 then 0 else 1 + SinceEven(cards[..|cards| - 1])
  }

  // Two accesses on end, both odd reads, both since the last even access.
  ghost predicate TwoOddReads(cards: seq<Event>) {
    exists i :: |cards| - SinceEven(cards) < i < |cards| && OddReadPair(cards, i)
  }

  predicate OddReadPair(cards: seq<Event>, i: int)
    requires 0 < i < |cards|
  {
    OddRead(cards[i - 1]) && OddRead(cards[i])
  }

  ghost predicate NoEven(cards: seq<Event>) {
    forall i | 0 <= i < |cards| :: cards[i].addr % 2 == 1
  }

  lemma {:induction false} SinceEvenMeaning(cards: seq<Event>)
    ensures forall i | |cards| - SinceEven(cards) <= i < |cards| :: cards[i].addr % 2 == 1
    ensures SinceEven(cards) < |cards| ==> cards[|cards| - SinceEven(cards) - 1].addr % 2 == 0
    ensures NoEven(cards) <==> SinceEven(cards) == |cards|
  {
    if cards != [] {
      SinceEvenMeaning(cards[..|cards| - 1]);
    }
  }

  // The last access but for even ones: the pre-write switch.
  predicate LastOddRead(cards: seq<Event>) {
    cards != [] && OddRead(cards[|cards| - 1])
  }

  // What the last access to the card has chosen; before any, ROM and the second bank.

  predicate ReadsRam(cards: seq<Event>) {
    cards != [] && (cards[|cards| - 1].addr % 2 == 1 <==> cards[|cards| - 1].addr / 2 % 2 == 1)
  }

  predicate Bank2(cards: seq<Event>) {
    cards == [] || cards[|cards| - 1].addr / 8 % 2 == 0
  }

  ghost predicate CardState(sw: nat, cards: seq<Event>) {
    && (GetState(sw, B_BSRWRITE) <==> NoEven(cards) || TwoOddReads(cards))
    && (GetState(sw, B_BSRPREWRITE) <==> LastOddRead(cards))
    && (GetState(sw, B_BSRREAD) <==> ReadsRam(cards))
    && (GetState(sw, B_BSRPAGE2) <==> Bank2(cards))
  }

  lemma TwoOddReadsStep(cards: seq<Event>, e: Event)
    ensures SinceEven(cards + [e]) == if e.addr % 2 == 0 then 0 else SinceEven(cards) + 1
    ensures NoEven(cards + [e]) <==> NoEven(cards) && e.addr % 2 == 1
    ensures TwoOddReads(cards + [e]) <==>
      e.addr % 2 == 1 && (TwoOddReads(cards) || (OddRead(e) && LastOddRead(cards)))
  {
    var all := cards + [e];
    assert all[..|all| - 1] == cards && all[|all| - 1] == e;
    SinceEvenMeaning(cards);
    if e.addr % 2 == 1 {
      assert SinceEven(all) == SinceEven(cards) + 1;
      if TwoOddReads(cards) {
        var i :| |cards| - SinceEven(cards) < i < |cards| && OddReadPair(cards, i);
        assert OddReadPair(all, i);
      }
      if OddRead(e) && LastOddRead(cards) {
        assert SinceEven(cards) >= 1;
        assert OddReadPair(all, |cards|);
      }
      if TwoOddReads(all) {
        var i :| |all| - SinceEven(all) < i < |all| && OddReadPair(all, i);
        if i < |cards| {
          assert OddReadPair(cards, i);
        }
      }
    }
  }

  lemma CardStep(sw: nat, cards: seq<Event>, e: Event)
    requires CardState(sw, cards) && IsCardAccess(e)
    ensures CardState(LanguageCard(sw, e.addr, e.write), cards + [e])
  {
    LanguageCardBits(sw, e.addr, e.write);
    TwoOddReadsStep(cards, e);
    hide LanguageCard, GetState, TwoOddReads, NoEven, SinceEven;
    assert (cards + [e])[|cards + [e]| - 1] == e;
  }

  ghost predicate SameCard(sw: nat, sw': nat) {
    forall c | 12 <= c < 16 :: GetState(sw', c) <==> GetState(sw, c)
  }

  // No other access moves the switches of the card.
  lemma OtherAccess(m: Mmu, e: Event)
    requires Coherent(m) && e.addr < 0x1_0000 && !IsCardAccess(e)
    ensures SameCard(m.sw, Access(m, e.addr, e.write).sw)
  {
    forall c | 12 <= c < 16
      ensures GetState(Access(m, e.addr, e.write).sw, c) <==> GetState(m.sw, c)
    {
      AccessBits(m, e.addr, e.write, c);
    }
    hide GetState, Access, Coherent;
  }

  lemma CardAccessed(m: Mmu, e: Event)
    requires |m.mem| == 256 && IsCardAccess(e)
    ensures Access(m, e.addr, e.write).sw == LanguageCard(m.sw, e.addr, e.write)
  {
    hide GetState, SetState, LanguageCard, MapOf, Computed;
  }

  // Since reset, whatever else has been accessed in between: writing to high RAM is enabled just when
  // there has been no even access to the card, or two odd reads of it on end since the last even one;
  // reading and the choice of bank depend on the last access only.
  lemma {:induction false} LanguageCardTrace(m: Mmu, events: seq<Event>)
    requires |m.mem| == 256 && Addresses(events)
    ensures CardState(Run(Reset(m), events).sw, CardAccesses(events))
  {
    if events == [] {
      ResetCard(m);
    } else {
      var last := |events| - 1;
      var before, e := Run(Reset(m), events[..last]), events[last];
      LanguageCardTrace(m, events[..last]);
      TableFollowsSwitches(m, events[..last]);
      hide CardState, Access, Reset, SameCard, Coherent;
      if IsCardAccess(e) {
        CardAccessed(before, e);
        CardStep(before.sw, CardAccesses(events[..last]), e);
      } else {
        OtherAccess(before, e);
        CardStateSame(before.sw, Access(before, e.addr, e.write).sw, CardAccesses(events[..last]));
        assert CardAccesses(events[..last]) + [] == CardAccesses(events[..last]);
      }
    }
  }

  lemma CardStateSame(sw: nat, sw': nat, cards: seq<Event>)
    requires CardState(sw, cards) && SameCard(sw, sw')
    ensures CardState(sw', cards)
  {
    hide GetState, TwoOddReads, NoEven;
    assert forall c | 12 <= c < 16 :: GetState(sw', c) <==> GetState(sw, c);
  }

  lemma ResetCard(m: Mmu)
    requires |m.mem| == 256
    ensures CardState(Reset(m).sw, [])
  {
    ResetBits();
    hide GetState, SetState, MapOf, Computed;
    assert Reset(m).sw == SetState(SetState(0, B_BSRWRITE, true), B_BSRPAGE2, true);
    var none: seq<Event> := [];
    assert SinceEven(none) == 0;
  }

  lemma ResetBits()
    ensures var sw := SetState(SetState(0, B_BSRWRITE, true), B_BSRPAGE2, true);
      forall c | 0 <= c < 18 :: GetState(sw, c) <==> c == B_BSRWRITE || c == B_BSRPAGE2
  {
    var sw1 := SetState(0, B_BSRWRITE, true);
    forall c | 0 <= c < 18
      ensures GetState(SetState(sw1, B_BSRPAGE2, true), c) <==> c == B_BSRWRITE || c == B_BSRPAGE2
    {
      SetThenGet(0, B_BSRWRITE, true, c);
      SetThenGet(sw1, B_BSRPAGE2, true, c);
      assert !GetState(0, c);
      hide GetState, SetState;
    }
  }

  // ---- The other switches over a whole run ----

  // The last of the accesses that set a switch has turned it on.
  ghost predicate TurnedOn(events: seq<Event>, c: nat)
    requires IsDisplay(c) || IsMapping(c)
  {
    exists i | 0 <= i < |events| :: IsLastSetting(events, i, c) && events[i].addr == OnAt(c)
  }

  ghost predicate IsLastSetting(events: seq<Event>, i: nat, c: nat)
    requires i < |events| && (IsDisplay(c) || IsMapping(c))
  {
    && Sets(events[i].addr, events[i].write, c)
    && forall j | i < j < |events| :: !Sets(events[j].addr, events[j].write, c)
  }

  lemma TurnedOnStep(events: seq<Event>, e: Event, c: nat)
    requires IsDisplay(c) || IsMapping(c)
    ensures TurnedOn(events + [e], c) <==> if Sets(e.addr, e.write, c) then e.addr == OnAt(c) else TurnedOn(events, c)
  {
    var all := events + [e];
    assert all[|events|] == e;
    hide Sets, OnAt;
    if Sets(e.addr, e.write, c) {
      assert IsLastSetting(all, |events|, c);
    } else {
      if i: nat :| i < |events| && IsLastSetting(events, i, c) && events[i].addr == OnAt(c) {
        assert IsLastSetting(all, i, c) && all[i] == events[i];
      }
      if i: nat :| i < |all| && IsLastSetting(all, i, c) && all[i].addr == OnAt(c) {
        assert i < |events| && all[i] == events[i];
        assert forall j | 0 <= j < |events| :: all[j] == events[j];
        assert IsLastSetting(events, i, c);
      }
    }
  }

  lemma ResetHasPages(m: Mmu)
    requires |m.mem| == 256
    ensures |Reset(m).mem| == 256
  {
  }

  lemma AllAddresses(events: seq<Event>, i: nat)
    requires Addresses(events) && i < |events|
    ensures events[i].addr < 0x1_0000 && Addresses(events[..i])
  {
  }

  lemma RunLast(m: Mmu, events: seq<Event>)
    requires |m.mem| == 256 && Addresses(events) && events != []
    ensures var last := |events| - 1;
      Run(m, events) == Access(Run(m, events[..last]), events[last].addr, events[last].write)
  {
    hide Access;
  }

  // Since reset, each display or mapping switch is on just when the last access that set it was the
  // one that turns it on.
  lemma {:induction false} SwitchTrace(m: Mmu, events: seq<Event>, c: nat)
    requires |m.mem| == 256 && Addresses(events) && c < 18 && (IsDisplay(c) || IsMapping(c))
    ensures GetState(Run(Reset(m), events).sw, c) <==> TurnedOn(events, c)
  {
    hide *;
    ResetHasPages(m);
    if events == [] {
      ResetSwitches(m, c);
      NothingRun(Reset(m), c);
    } else {
      var last, e := |events| - 1, events[|events| - 1];
      AllAddresses(events, last);
      SwitchTrace(m, events[..last], c);
      TableFollowsSwitches(m, events[..last]);
      AccessBits(Run(Reset(m), events[..last]), e.addr, e.write, c);
      RunLast(Reset(m), events);
      TurnedOnStep(events[..last], e, c);
      assert events[..last] + [e] == events;
    }
  }

  lemma NothingRun(m: Mmu, c: nat)
    requires |m.mem| == 256 && c < 18
    ensures Run(m, []) == m
    ensures IsDisplay(c) || IsMapping(c) ==> !TurnedOn([], c) && c != B_BSRWRITE && c != B_BSRPAGE2
  {
  }

  lemma ResetSwitches(m: Mmu, c: nat)
    requires |m.mem| == 256 && c < 18
    ensures GetState(Reset(m).sw, c) <==> c == B_BSRWRITE || c == B_BSRPAGE2
  {
    ResetBits();
    var sw := SetState(SetState(0, B_BSRWRITE, true), B_BSRPAGE2, true);
    UpdateKeepsSwitches(m.(sw := sw, dirty := true));
    hide GetState, SetState, Update;
  }

  // Some access has called for the internal ROM at $C800, and none since has been to $CFFF.
  ghost predicate RomCalled(events: seq<Event>) {
    exists i | 0 <= i < |events| :: CalledAt(events, i) && forall j | i < j < |events| :: events[j].addr != 0xcfff
  }

  ghost predicate CalledAt(events: seq<Event>, i: nat)
    requires i < |events|
  {
    var e := events[i];
    e.addr / 256 == 0xc3 && !TurnedOn(events[..i], B_SLOTC3ROM) && (!e.write || TurnedOn(events[..i], B_INTCXROM))
  }

  lemma RomCalledStep(events: seq<Event>, e: Event)
    ensures RomCalled(events + [e]) <==> e.addr != 0xcfff && (RomCalled(events) || CalledAt(events + [e], |events|))
  {
    var all := events + [e];
    forall i | 0 <= i < |events|
      ensures CalledAt(all, i) <==> CalledAt(events, i)
    {
      assert all[..i] == events[..i] && all[i] == events[i];
    }
    hide CalledAt;
    if RomCalled(events) && e.addr != 0xcfff {
      var i :| 0 <= i < |events| && CalledAt(events, i) && forall j | i < j < |events| :: events[j].addr != 0xcfff;
      assert CalledAt(all, i);
    }
    if RomCalled(all) {
      var i :| 0 <= i < |all| && CalledAt(all, i) && forall j | i < j < |all| :: all[j].addr != 0xcfff;
      if i < |events| {
        assert all[|events|] == e;
        assert CalledAt(events, i);
        assert forall j | i < j < |events| :: events[j] == all[j];
      } else {
        assert i == |events|;
      }
    }
  }

  lemma {:induction false} RomTrace(m: Mmu, events: seq<Event>)
    requires |m.mem| == 256 && Addresses(events)
    ensures GetState(Run(Reset(m), events).sw, B_INTC8ROM) <==> RomCalled(events)
  {
    hide *;
    ResetHasPages(m);
    if events == [] {
      NothingCalled(m);
    } else {
      var last, e := |events| - 1, events[|events| - 1];
      AllAddresses(events, last);
      RomTrace(m, events[..last]);
      TableFollowsSwitches(m, events[..last]);
      InternalBits(Run(Reset(m), events[..last]), e.addr, e.write);
      CallsFollow(m, events);
      RunLast(Reset(m), events);
      RomCalledStep(events[..last], e);
      assert events[..last] + [e] == events;
    }
  }

  lemma NothingCalled(m: Mmu)
    requires |m.mem| == 256
    ensures !GetState(Run(Reset(m), []).sw, B_INTC8ROM) && !RomCalled([])
  {
    ResetSwitches(m, B_INTC8ROM);
    hide GetState, Reset;
  }

  lemma InternalBits(m: Mmu, addr: nat, write: bool)
    requires Coherent(m) && addr < 0x1_0000
    ensures |m.mem| == 256
    ensures GetState(Access(m, addr, write).sw, B_INTC8ROM) <==>
      addr != 0xcfff && (GetState(m.sw, B_INTC8ROM) || CallsRom(m.sw, addr, write))
  {
    AccessBits(m, addr, write, B_INTC8ROM);
    hide GetState, Access, CallsRom, Coherent;
    CoherentIsClean(m);
  }

  lemma CallsFollow(m: Mmu, events: seq<Event>)
    requires |m.mem| == 256 && Addresses(events) && events != []
    ensures var last := |events| - 1;
      CallsRom(Run(Reset(m), events[..last]).sw, events[last].addr, events[last].write) <==> CalledAt(events, last)
  {
    var before := events[..|events| - 1];
    AllAddresses(events, |events| - 1);
    SwitchTrace(m, before, B_SLOTC3ROM);
    SwitchTrace(m, before, B_INTCXROM);
    hide GetState, TurnedOn, Run, Reset;
  }

  // Where reads and writes below $C000 go, by the addresses accessed since reset.
  lemma LowRamTrace(m: Mmu, events: seq<Event>, addr: nat)
    requires |m.mem| == 256 && Addresses(events) && addr < 0xc000
    ensures var e, aux := Run(Reset(m), events).mem[addr / 256], (c: nat) requires IsDisplay(c) || IsMapping(c) =>
        if TurnedOn(events, c) then AUX else MAIN;
      if addr < 0x200 then e == Entry(aux(B_ALTZP), aux(B_ALTZP))
      else if TurnedOn(events, B_80STORE)
        && (0x400 <= addr < 0x800 || (0x2000 <= addr < 0x4000 && TurnedOn(events, B_HIRES))) then
        e == Entry(aux(B_PAGE2), aux(B_PAGE2))
      else e == Entry(aux(B_RAMRD), aux(B_RAMWRT))
  {
    TableFollowsSwitches(m, events);
    SwitchTrace(m, events, B_ALTZP);
    SwitchTrace(m, events, B_80STORE);
    SwitchTrace(m, events, B_HIRES);
    SwitchTrace(m, events, B_PAGE2);
    SwitchTrace(m, events, B_RAMRD);
    SwitchTrace(m, events, B_RAMWRT);
    hide GetState, TurnedOn, Run, Reset;
    LowRamIs(Run(Reset(m), events), addr);
  }

  lemma LowRamIs(m: Mmu, addr: nat)
    requires Coherent(m) && addr < 0xc000
    ensures var e, aux := m.mem[addr / 256], (c: nat) => if GetState(m.sw, c) then AUX else MAIN;
      if addr < 0x200 then e == Entry(aux(B_ALTZP), aux(B_ALTZP))
      else if GetState(m.sw, B_80STORE)
        && (0x400 <= addr < 0x800 || (0x2000 <= addr < 0x4000 && GetState(m.sw, B_HIRES))) then
        e == Entry(aux(B_PAGE2), aux(B_PAGE2))
      else e == Entry(aux(B_RAMRD), aux(B_RAMWRT))
  {
    assert m.mem[addr / 256] == Direct(MapOf(m.sw), addr / 256);
    hide GetState;
  }

  // Whether reads from $C100 to $CFFF come from the internal ROM.
  lemma SlotTrace(m: Mmu, events: seq<Event>, addr: nat)
    requires |m.mem| == 256 && Addresses(events) && 0xc100 <= addr < 0xd000
    ensures Run(Reset(m), events).mem[addr / 256].read ==
      if || TurnedOn(events, B_INTCXROM) || (addr / 256 == 0xc3 && !TurnedOn(events, B_SLOTC3ROM))
         || (addr >= 0xc800 && RomCalled(events))
      then ROM else CARD_ROM
  {
    TableFollowsSwitches(m, events);
    SwitchTrace(m, events, B_INTCXROM);
    SwitchTrace(m, events, B_SLOTC3ROM);
    RomTrace(m, events);
    hide GetState, TurnedOn, RomCalled, Run, Reset;
  }

  // Where reads and writes from $D000 up go: the card decides between ROM and RAM and between its banks,
  // ALTZP between main and auxiliary memory.
  lemma HighRamTrace(m: Mmu, events: seq<Event>, addr: nat)
    requires |m.mem| == 256 && Addresses(events) && 0xd000 <= addr < 0x1_0000
    ensures var cards := CardAccesses(events);
      var bank2 := addr < 0xe000 && Bank2(cards);
      var ram := if TurnedOn(events, B_ALTZP) then (if bank2 then AUX_BSR_P2 else AUX_BSR)
                 else if bank2 then BSR_P2 else BSR;
      Run(Reset(m), events).mem[addr / 256] ==
        Entry(if ReadsRam(cards) then ram else ROM, if NoEven(cards) || TwoOddReads(cards) then ram else ROM)
  {
    AltzpTrace(m, events);
    hide *;
    ResetHasPages(m);
    TableFollowsSwitches(m, events);
    LanguageCardTrace(m, events);
    CardSays(Run(Reset(m), events).sw, CardAccesses(events));
    HighRamIs(Run(Reset(m), events), addr);
  }

  lemma CardSays(sw: nat, cards: seq<Event>)
    requires CardState(sw, cards)
    ensures GetState(sw, B_BSRREAD) <==> ReadsRam(cards)
    ensures GetState(sw, B_BSRPAGE2) <==> Bank2(cards)
    ensures GetState(sw, B_BSRWRITE) <==> NoEven(cards) || TwoOddReads(cards)
  {
    hide GetState, NoEven, TwoOddReads, ReadsRam, Bank2;
  }

  lemma AltzpTrace(m: Mmu, events: seq<Event>)
    requires |m.mem| == 256 && Addresses(events)
    ensures GetState(Run(Reset(m), events).sw, B_ALTZP) <==> TurnedOn(events, B_ALTZP)
  {
    SwitchTrace(m, events, B_ALTZP);
    hide GetState, Run, Reset, TurnedOn;
  }

  lemma HighRamIs(m: Mmu, addr: nat)
    requires Coherent(m) && 0xd000 <= addr < 0x1_0000
    ensures |m.mem| == 256
    ensures var bank2 := addr < 0xe000 && GetState(m.sw, B_BSRPAGE2);
      var ram := if GetState(m.sw, B_ALTZP) then (if bank2 then AUX_BSR_P2 else AUX_BSR)
                 else if bank2 then BSR_P2 else BSR;
      m.mem[addr / 256]
        == Entry(if GetState(m.sw, B_BSRREAD) then ram else ROM, if GetState(m.sw, B_BSRWRITE) then ram else ROM)
  {
    assert m.mem[addr / 256] == Direct(MapOf(m.sw), addr / 256);
    hide GetState;
  }
}
