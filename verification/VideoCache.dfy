// The dirty-line cache of src/mii_video.c.
//
// A bitmap says which of the 192 scan lines must be drawn again. Writes find the line of an address
// and set its bit; a timer draws the lines one by one and skips the clean ones. VideoLines has the
// two address maps; VideoCache shows that a clean line always shows what drawing it now would
// show, whatever the writes, ticks and frames; Video is the code, on memory updated in place.
module VideoLines {
  import opened Bits

  const LINES := 192
  // the last four rows of text
  const MIXED_LINE := 160

  // _mii_line_to_video_addr. The fields go to bit positions of their own, so that | is addition.
  function LineToVideoAddr(addr: nat, line: nat): nat
    requires line < LINES
  {
    addr + (line % 8) * 0x400 + (line / 8 % 8) * 0x80 + line / 64 * 40
  }

  // The same for a row of text, as in _mii_line_render_text and _mii_line_render_lores.
  function RowToVideoAddr(addr: nat, line: nat): nat
    requires line < LINES
  {
    addr + (line / 8 % 8) * 0x80 + line / 8 / 8 * 40
  }

  // _mii_addr_to_line_text_lores: the first of eight lines, or -1 for the holes between the rows.
  function AddrToLineTextLores(a: nat): (line: int)
    requires a < 0x400
    ensures line == -1 || (0 <= line <= LINES - 8 && line % 8 == 0)
  {
    if a % 0x80 > 0x77 then -1 else (a / 0x80 % 8 + a % 0x80 / 40 * 8) * 8
  }

  // The arithmetic of _mii_line_check_hires_dires.
  function AddrToLineHires(a: nat): (line: int)
    requires a < 0x2000
    ensures -1 <= line < LINES
  {
    if a % 0x80 > 0x77 then -1 else a % 0x80 / 40 * 64 + a / 0x80 % 8 * 8 + a / 0x400 % 8
  }

  // The two maps are inverse to each other, holes included: an address belongs to a line just when
  // the 40 bytes of the line contain it.
  lemma TextMapsInverse(a: nat, line: nat)
    requires a < 0x400 && line < LINES
    ensures (AddrToLineTextLores(a) >= 0 && AddrToLineTextLores(a) == line / 8 * 8)
       <==> RowToVideoAddr(0, line) <= a < RowToVideoAddr(0, line) + 40
  {
    var h, g, o, c := AddressFields(a);
    var r, p, q := LineFields(line);
    hide *;
    FieldsMatch(0, g, o, 0, p, q);
    SameLine(0, g, c, 0, p, q);
  }

  lemma HiresMapsInverse(a: nat, line: nat)
    requires a < 0x2000 && line < LINES
    ensures AddrToLineHires(a) == line <==> LineToVideoAddr(0, line) <= a < LineToVideoAddr(0, line) + 40
  {
    var h, g, o, c := AddressFields(a);
    var r, p, q := LineFields(line);
    hide *;
    FieldsMatch(h, g, o, r, p, q);
    SameLine(h, g, c, r, p, q);
  }

  lemma SameLine(h: nat, g: nat, c: nat, r: nat, p: nat, q: nat)
    requires h < 8 && g < 8 && r < 8 && p < 8
    ensures c * 64 + g * 8 + h == 64 * q + 8 * p + r <==> c == q && g == p && h == r
  {
  }

  lemma AddressFields(a: nat) returns (h: nat, g: nat, o: nat, c: nat)
    requires a < 0x2000
    ensures a == 0x400 * h + 0x80 * g + o && h < 8 && g < 8 && o < 0x80
    ensures 40 * c <= o < 40 * c + 40 && c < 4
    ensures AddrToLineHires(a) == if o > 0x77 then -1 else c * 64 + g * 8 + h
    ensures a < 0x400 ==> h == 0 && AddrToLineTextLores(a) == if o > 0x77 then -1 else (g + c * 8) * 8
  {
    h, g, o := a / 0x400, a / 0x80 % 8, a % 0x80;
    c := o / 40;
  }

  lemma LineFields(line: nat) returns (r: nat, p: nat, q: nat)
    requires line < LINES
    ensures line == 64 * q + 8 * p + r && r < 8 && p < 8 && q < 3 && line / 8 * 8 == 64 * q + 8 * p
    ensures LineToVideoAddr(0, line) == 0x400 * r + 0x80 * p + 40 * q
    ensures RowToVideoAddr(0, line) == 0x80 * p + 40 * q
  {
    r, p, q := LineDigits(line);
    UniqueRemainder(line, 64, q, 8 * p + r);
    UniqueRemainder(line, 8, 8 * q + p, r);
    UniqueRemainder(8 * q + p, 8, q, p);
  }

  lemma LineDigits(line: nat) returns (r: nat, p: nat, q: nat)
    requires line < LINES
    ensures line == 64 * q + 8 * p + r && r < 8 && p < 8 && q < 3
  {
    var row := line / 8;
    r, p, q := line - 8 * row, row - row / 8 * 8, row / 8;
  }

  lemma FieldsMatch(h: nat, g: nat, o: nat, r: nat, p: nat, q: nat)
    requires h < 8 && g < 8 && o < 0x80 && r < 8 && p < 8 && q < 3
    ensures 0x400 * r + 0x80 * p + 40 * q <= 0x400 * h + 0x80 * g + o < 0x400 * r + 0x80 * p + 40 * q + 40
       <==> h == r && g == p && 40 * q <= o < 40 * q + 40
  {
    if h < r || (h == r && g < p) {
      assert 0x400 * h + 0x80 * g + o < 0x400 * r + 0x80 * p;
    } else if h > r || g > p {
      assert 0x400 * h + 0x80 * g >= 0x400 * r + 0x80 * p + 0x80;
    }
  }

  // ---- lines_dirty: 64 lines to a word ----

  predicate IsDirty(dirty: seq<nat>, line: nat)
    requires |dirty| == LINES / 64 && line < LINES
  {
    And(dirty[line / 64], Pow2(line % 64)) != 0
  }

  function MarkLine(dirty: seq<nat>, line: nat): (r: seq<nat>)
    requires |dirty| == LINES / 64 && line < LINES
    ensures |r| == |dirty|
  {
    dirty[line / 64 := Or(dirty[line / 64], Pow2(line % 64))]
  }

  function ClearLine(dirty: seq<nat>, line: nat): (r: seq<nat>)
    requires |dirty| == LINES / 64 && line < LINES
    ensures |r| == |dirty|
  {
    Pow2Monotone(line % 64, 64);
    dirty[line / 64 := And(dirty[line / 64], Not(64, Pow2(line % 64)))]
  }

  const ALL_DIRTY: seq<nat> := [Pow2(64) - 1, Pow2(64) - 1, Pow2(64) - 1]

  lemma MarkMarks(dirty: seq<nat>, line: nat, other: nat)
    requires |dirty| == LINES / 64 && line < LINES && other < LINES
    ensures IsDirty(MarkLine(dirty, line), other) <==> other == line || IsDirty(dirty, other)
  {
    var w, w', i, k := dirty[other / 64], MarkLine(dirty, line)[other / 64], line % 64, other % 64;
    BitTest(w, k);
    BitTest(w', k);
    BitOfOr(w, Pow2(i), k);
    BitOfPow2(i, k);
    hide And, Or, Pow2, Bit;
  }

  lemma ClearClears(dirty: seq<nat>, line: nat, other: nat)
    requires |dirty| == LINES / 64 && line < LINES && other < LINES
    ensures IsDirty(ClearLine(dirty, line), other) <==> other != line && IsDirty(dirty, other)
  {
    var w, w', i, k := dirty[other / 64], ClearLine(dirty, line)[other / 64], line % 64, other % 64;
    Pow2Monotone(i, 64);
    BitTest(w, k);
    BitTest(w', k);
    BitOfAnd(w, Not(64, Pow2(i)), k);
    BitOfNot(64, Pow2(i), k);
    BitOfPow2(i, k);
    hide And, Pow2, Bit, Not;
  }

  lemma AllAreDirty(line: nat)
    requires line < LINES
    ensures IsDirty(ALL_DIRTY, line)
  {
    hide And, Pow2, Bit;
    var k, w := line % 64, ALL_DIRTY[line / 64];
    assert w == Pow2(64) - 1;
    BitTest(w, k);
    BitOfOnes(64, k);
  }

  // The loop that marks the eight lines of a row of text.
  function MarkLines(dirty: seq<nat>, line: nat, count: nat): (r: seq<nat>)
    requires |dirty| == LINES / 64 && line + count <= LINES
    ensures |r| == |dirty|
    decreases count
  {
    if count == 0 then dirty else MarkLines(MarkLine(dirty, line), line + 1, count - 1)
  }

  lemma {:induction false} MarkLinesMarks(dirty: seq<nat>, line: nat, count: nat, other: nat)
    requires |dirty| == LINES / 64 && line + count <= LINES && other < LINES
    ensures IsDirty(MarkLines(dirty, line, count), other) <==> line <= other < line + count || IsDirty(dirty, other)
    decreases count
  {
    if count > 0 {
      MarkLinesMarks(MarkLine(dirty, line), line + 1, count - 1, other);
      MarkMarks(dirty, line, other);
      hide IsDirty, MarkLine;
    }
  }
}

module VideoCache {
  import opened Basics
  import opened VideoLines

  // The soft switches that the display depends on.
  datatype Switches = Switches(text: bool, mixed: bool, page2: bool, hires: bool, store80: bool, col80: bool,
                               altset: bool, dhires: bool)

  datatype Renderer = RenderText | RenderLores | RenderHires | RenderDhiresMono | RenderDhiresColor

  datatype Checker = CheckTextLores | CheckHiresDhires

  datatype Callbacks = Callbacks(render: Renderer, check: Checker)

  // What a drawn line was drawn from: the pixels are a function of this and of things that do not
  // change here (the character ROM, the colours).
  datatype Row =
    | Blank
    | TextRow(wide: bool, altset: bool, flash: bool, main: seq<byte>, aux: seq<byte>)
    | LoresRow(wide: bool, main: seq<byte>, aux: seq<byte>)
    | HiresRow(main: seq<byte>)
    | DhiresRow(color: bool, main: seq<byte>, aux: seq<byte>)

  // Where the protothread waits: between two lines, or at the first or second yield after the last.
  datatype Phase = Scan | FrameDone | Retrace

  // color: an3_mode is not 0 and the screen is not monochrome. shown is history: the pixels when
  // frame_seed last moved.
  datatype Video = Video(sw: Switches, color: bool, cb: Callbacks, dirty: seq<nat>, line: nat, phase: Phase,
                         frameCount: nat, frameDirty: bool, frameSeed: nat,
                         main: seq<byte>, aux: seq<byte>, pixels: seq<Row>, shown: seq<Row>)

  datatype Bank = Main | Aux | Other

  // ---- Choosing the callbacks ----

  // _mii_video_get_line_render_cb
  function GetLineRenderCb(sw: Switches, color: bool): Callbacks {
    if sw.hires && !sw.text && sw.col80 && sw.dhires then
      Callbacks(if color then RenderDhiresColor else RenderDhiresMono, CheckHiresDhires)
    else if sw.hires && !sw.text then Callbacks(RenderHires, CheckHiresDhires)
    else if sw.text then Callbacks(RenderText, CheckTextLores)
    else Callbacks(RenderLores, CheckTextLores)
  }

  // The choice the timer makes for one line: past line 160 in mixed mode, text.
  function LineRenderer(cb: Callbacks, sw: Switches, color: bool, line: nat): Renderer {
    if line >= MIXED_LINE && sw.mixed && sw.(text := true) != sw then
      GetLineRenderCb(sw.(text := true), color).render
    else cb.render
  }

  function Page2(sw: Switches): bool {
    if sw.store80 then false else sw.page2
  }

  function TextBase(sw: Switches): nat {
    if Page2(sw) then 0x800 else 0x400
  }

  function HiresBase(sw: Switches): nat {
    if Page2(sw) then 0x4000 else 0x2000
  }

  // ---- The checks ----

  // _mii_line_check_text_lores
  function CheckText(sw: Switches, dirty: seq<nat>, addr: nat): (r: seq<nat>)
    requires |dirty| == LINES / 64
    ensures |r| == |dirty|
  {
    var a := TextBase(sw);
    if a <= addr < a + 0x400 then
      var line := AddrToLineTextLores(addr - a);
      if line < 0 then dirty else MarkLines(dirty, line, 8)
    else dirty
  }

  // _mii_line_check_hires_dires: first the graphics page, then the rows of text below it.
  function CheckHires(sw: Switches, dirty: seq<nat>, addr: nat): (r: seq<nat>)
    requires |dirty| == LINES / 64
    ensures |r| == |dirty|
  {
    var a := HiresBase(sw);
    var hole := a <= addr < a + 0x2000 && AddrToLineHires(addr - a) < 0;
    if hole then dirty else CheckMixed(sw, CheckPage(sw, dirty, addr), addr)
  }

  function CheckPage(sw: Switches, dirty: seq<nat>, addr: nat): (r: seq<nat>)
    requires |dirty| == LINES / 64
    ensures |r| == |dirty|
  {
    var a := HiresBase(sw);
    if a <= addr < a + 0x2000 then
      var line := AddrToLineHires(addr - a);
      if line >= 0 && (!sw.mixed || line < MIXED_LINE) then MarkLine(dirty, line) else dirty
    else dirty
  }

  function CheckMixed(sw: Switches, dirty: seq<nat>, addr: nat): (r: seq<nat>)
    requires |dirty| == LINES / 64
    ensures |r| == |dirty|
  {
    var a := TextBase(sw);
    if sw.mixed && a <= addr < a + 0x400 then
      var line := AddrToLineTextLores(addr - a);
      if line < MIXED_LINE then dirty else MarkLines(dirty, line, 8)
    else dirty
  }

  function Check(check: Checker, sw: Switches, dirty: seq<nat>, addr: nat): (r: seq<nat>)
    requires |dirty| == LINES / 64
    ensures |r| == |dirty|
  {
    match check
    case CheckTextLores => CheckText(sw, dirty, addr)
    case CheckHiresDhires => CheckHires(sw, dirty, addr)
  }

  // ---- The renderers ----

  function IsTextual(render: Renderer): bool {
    render.RenderText? || render.RenderLores?
  }

  // Where the 40 bytes of a line start, in main and in aux memory.
  function LineStart(render: Renderer, sw: Switches, line: nat): (a: nat)
    requires line < LINES
    ensures a + 40 <= 0x6000
  {
    if IsTextual(render) then RowToVideoAddr(TextBase(sw), line) else LineToVideoAddr(HiresBase(sw), line)
  }

  function Flash(frameCount: nat): bool {
    frameCount / 16 % 2 == 1
  }

  function Render(render: Renderer, sw: Switches, frameCount: nat, main: seq<byte>, aux: seq<byte>): Row {
    match render
    case RenderText =>
      TextRow(sw.col80, sw.altset, !sw.altset && Flash(frameCount), main, if sw.col80 then aux else [])
    case RenderLores => LoresRow(sw.col80, main, if sw.col80 then aux else [])
    case RenderHires => HiresRow(main)
    case RenderDhiresMono => DhiresRow(false, main, aux)
    case RenderDhiresColor => DhiresRow(true, main, aux)
  }

  ghost predicate Shape(v: Video) {
    && |v.main| == |v.aux| == 0x1_0000 && |v.pixels| == |v.shown| == LINES && |v.dirty| == LINES / 64
    && v.line < LINES
  }

  // Where the 40 bytes lie that a line shows.
  function LineAt(v: Video, line: nat): (start: nat)
    requires line < LINES
    ensures start + 40 <= 0x6000
  {
    LineStart(LineRenderer(v.cb, v.sw, v.color, line), v.sw, line)
  }

  function BytesAt(memory: seq<byte>, a: nat): (bytes: seq<byte>)
    requires a + 40 <= |memory|
  {
    memory[a..a + 40]
  }

  // What drawing a line would show now.
  function RowOf(v: Video, line: nat): Row
    requires Shape(v) && line < LINES
  {
    var render := LineRenderer(v.cb, v.sw, v.color, line);
    var a := LineStart(render, v.sw, line);
    Render(render, v.sw, v.frameCount, BytesAt(v.main, a), BytesAt(v.aux, a))
  }

  // The bytes that a line shows lie within its 40.
  predicate ShowsAddress(v: Video, line: nat, addr: nat)
    requires line < LINES
  {
    var a := LineStart(LineRenderer(v.cb, v.sw, v.color, line), v.sw, line);
    a <= addr < a + 40
  }

  // ---- What a line shows, by the switches ----

  // The lines that show text: all of them with TEXT on, the last four rows with MIXED on.
  predicate IsText(sw: Switches, line: nat) {
    sw.text || (sw.mixed && line >= 160)
  }

  // PAGE2 chooses the page unless 80STORE is on; graphics lines lie interleaved in 8K, rows of text
  // and lores in 1K.
  lemma LinePlace(v: Video, line: nat)
    requires v.cb == GetLineRenderCb(v.sw, v.color) && line < LINES
    ensures var page2, row := v.sw.page2 && !v.sw.store80, line / 8 % 8 * 0x80 + line / 64 * 40;
      LineAt(v, line) ==
        if v.sw.hires && !IsText(v.sw, line) then (if page2 then 0x4000 else 0x2000) + line % 8 * 0x400 + row
        else (if page2 then 0x800 else 0x400) + row
  {
    assert line / 8 / 8 == line / 64;
  }

  // Double hires needs 80COL too; it is in colour unless the screen or the AN3 mode says otherwise.
  lemma LineStyle(v: Video, line: nat)
    requires v.cb == GetLineRenderCb(v.sw, v.color) && line < LINES && Shape(v)
    ensures
      match RowOf(v, line)
      case Blank => false
      case TextRow(wide, altset, flash, _, _) =>
        && IsText(v.sw, line) && wide == v.sw.col80 && altset == v.sw.altset
        && flash == (!altset && v.frameCount % 32 >= 16)
      case LoresRow(wide, _, _) => !IsText(v.sw, line) && !v.sw.hires && wide == v.sw.col80
      case HiresRow(_) => !IsText(v.sw, line) && v.sw.hires && !(v.sw.col80 && v.sw.dhires)
      case DhiresRow(color, _, _) =>
        !IsText(v.sw, line) && v.sw.hires && v.sw.col80 && v.sw.dhires && color == v.color
  {
    FlashTime(v.frameCount);
    hide BytesAt, LineStart, Flash;
  }

  lemma FlashTime(frameCount: nat)
    ensures Flash(frameCount) <==> frameCount % 32 >= 16
  {
  }

  // A processor write to the bytes of a line marks it, and drawing it then shows the byte there.
  lemma WriteIsSeen(v: Video, addr: nat, b: byte, line: nat)
    requires Inv(v) && line < LINES && LineAt(v, line) <= addr < LineAt(v, line) + 40
    ensures var v' := CpuWrite(v, Main, addr, b);
      && IsDirty(v'.dirty, line) && Shape(v')
      && !RowOf(v', line).Blank? && |RowOf(v', line).main| == 40
      && RowOf(v', line).main[addr - LineAt(v, line)] == b
  {
    CheckIsExact(v, v.dirty, addr, line);
    hide Check, IsDirty, GetLineRenderCb, LineRenderer, Fresh, LineStart;
  }

  // A check marks the lines that show the address, and no others.
  lemma CheckIsExact(v: Video, dirty: seq<nat>, addr: nat, line: nat)
    requires |dirty| == LINES / 64 && v.cb == GetLineRenderCb(v.sw, v.color) && line < LINES
    ensures IsDirty(Check(v.cb.check, v.sw, dirty, addr), line) <==> IsDirty(dirty, line) || ShowsAddress(v, line, addr)
  {
    TextCheckIsExact(v.sw, dirty, addr, line);
    if v.cb.check.CheckHiresDhires? {
      HiresCheckIsExact(v.sw, dirty, addr, line);
    }
    hide CheckText, CheckHires, RowToVideoAddr, LineToVideoAddr, IsDirty;
  }

  lemma TextCheckIsExact(sw: Switches, dirty: seq<nat>, addr: nat, line: nat)
    requires |dirty| == LINES / 64 && line < LINES
    ensures var a := RowToVideoAddr(TextBase(sw), line);
      IsDirty(CheckText(sw, dirty, addr), line) <==> IsDirty(dirty, line) || a <= addr < a + 40
  {
    var a := TextBase(sw);
    RowWithin(a, line);
    if a <= addr < a + 0x400 {
      RowHit(a, addr, line);
      TextPageCheck(sw, dirty, addr);
      hide IsDirty, MarkLines, AddrToLineTextLores, RowToVideoAddr, TextBase, CheckText;
      var first := AddrToLineTextLores(addr - a);
      if first >= 0 {
        MarkLinesMarks(dirty, first, 8, line);
      }
    } else {
      hide IsDirty, MarkLines, AddrToLineTextLores, RowToVideoAddr, TextBase;
    }
  }

  lemma TextPageCheck(sw: Switches, dirty: seq<nat>, addr: nat)
    requires |dirty| == LINES / 64 && TextBase(sw) <= addr < TextBase(sw) + 0x400
    ensures var first := AddrToLineTextLores(addr - TextBase(sw));
      CheckText(sw, dirty, addr) == if first < 0 then dirty else MarkLines(dirty, first, 8)
  {
    hide MarkLines, AddrToLineTextLores, TextBase;
  }

  lemma RowHit(a: nat, addr: nat, line: nat)
    requires a <= addr < a + 0x400 && line < LINES
    ensures var first, start := AddrToLineTextLores(addr - a), RowToVideoAddr(a, line);
      0 <= first <= line < first + 8 <==> start <= addr < start + 40
  {
    var first := AddrToLineTextLores(addr - a);
    TextMapsInverse(addr - a, line);
    RowWithin(a, line);
    if first >= 0 {
      EightLines(first, line);
    }
    hide AddrToLineTextLores, RowToVideoAddr;
  }

  lemma RowWithin(a: nat, line: nat)
    requires line < LINES
    ensures a <= RowToVideoAddr(a, line) == a + RowToVideoAddr(0, line) <= a + 0x400 - 40
  {
    var r, p, q := LineFields(line);
  }

  lemma EightLines(first: nat, line: nat)
    requires first % 8 == 0
    ensures first <= line < first + 8 <==> first == line / 8 * 8
  {
    var row, r := first / 8, line % 8;
    assert first == 8 * row && line == 8 * (line / 8) + r;
  }

  lemma HiresCheckIsExact(sw: Switches, dirty: seq<nat>, addr: nat, line: nat)
    requires |dirty| == LINES / 64 && line < LINES
    ensures var a, b := RowToVideoAddr(TextBase(sw), line), LineToVideoAddr(HiresBase(sw), line);
      IsDirty(CheckHires(sw, dirty, addr), line) <==>
        IsDirty(dirty, line) || (if sw.mixed && line >= MIXED_LINE then a <= addr < a + 40 else b <= addr < b + 40)
  {
    PageIsExact(sw, dirty, addr, line);
    MixedIsExact(sw, CheckPage(sw, dirty, addr), addr, line);
    hide IsDirty, CheckPage, CheckMixed;
    var a := HiresBase(sw);
    if a <= addr < a + 0x2000 {
      HiresMapsInverse(addr - a, line);
    }
  }

  lemma PageIsExact(sw: Switches, dirty: seq<nat>, addr: nat, line: nat)
    requires |dirty| == LINES / 64 && line < LINES
    ensures var b := LineToVideoAddr(HiresBase(sw), line);
      IsDirty(CheckPage(sw, dirty, addr), line) <==>
        IsDirty(dirty, line) || (b <= addr < b + 40 && !(sw.mixed && line >= MIXED_LINE))
  {
    hide IsDirty, MarkLine;
    var a := HiresBase(sw);
    if a <= addr < a + 0x2000 {
      HiresMapsInverse(addr - a, line);
      var found := AddrToLineHires(addr - a);
      if found >= 0 {
        MarkMarks(dirty, found, line);
      }
    }
  }

  lemma MixedIsExact(sw: Switches, dirty: seq<nat>, addr: nat, line: nat)
    requires |dirty| == LINES / 64 && line < LINES
    ensures var a := RowToVideoAddr(TextBase(sw), line);
      IsDirty(CheckMixed(sw, dirty, addr), line) <==>
        IsDirty(dirty, line) || (a <= addr < a + 40 && sw.mixed && line >= MIXED_LINE)
  {
    hide IsDirty, MarkLines;
    var a := TextBase(sw);
    if a <= addr < a + 0x400 {
      var first := AddrToLineTextLores(addr - a);
      TextMapsInverse(addr - a, line);
      if first >= MIXED_LINE {
        MarkLinesMarks(dirty, first, 8, line);
      }
    }
  }

  // ---- The invariant ----

  // A clean line shows what drawing it now would show.
  ghost predicate Fresh(v: Video)
    requires Shape(v)
  {
    forall line | 0 <= line < LINES :: !IsDirty(v.dirty, line) ==> v.pixels[line] == RowOf(v, line)
  }

  // If frame_dirty is clear, the pixels are those of the last frame_seed.
  ghost predicate Inv(v: Video) {
    && Shape(v) && v.cb == GetLineRenderCb(v.sw, v.color) && (!v.phase.Scan? ==> v.line == 0)
    && Fresh(v) && (!v.frameDirty ==> v.pixels == v.shown)
  }

  // ---- The steps ----

  function Store(v: Video, bank: Bank, addr: nat, b: byte): Video
    requires |v.main| == |v.aux| == 0x1_0000 && addr < 0x1_0000
  {
    match bank
    case Main => v.(main := v.main[addr := b])
    case Aux => v.(aux := v.aux[addr := b])
    case Other => v
  }

  // mii_access_video on a write, and the write itself.
  function CpuWrite(v: Video, bank: Bank, addr: nat, b: byte): Video
    requires Shape(v) && addr < 0x1_0000
  {
    Store(v.(dirty := Check(v.cb.check, v.sw, v.dirty, addr)), bank, addr, b)
  }

  // _mii_video_mark_dirty
  function MarkDirty(v: Video): Video {
    v.(dirty := ALL_DIRTY, frameDirty := true)
  }

  // _mii_video_mode_changed
  function ModeChanged(v: Video): Video {
    var cb := GetLineRenderCb(v.sw, v.color);
    if cb.render != v.cb.render then MarkDirty(v.(cb := cb)) else v
  }

  function DrawLine(v: Video): (r: Video)
    requires Shape(v)
    ensures Shape(r)
  {
    var drawn :=
      if IsDirty(v.dirty, v.line) then
        v.(pixels := v.pixels[v.line := RowOf(v, v.line)], dirty := ClearLine(v.dirty, v.line), frameDirty := true)
      else v;
    if v.line + 1 == LINES then drawn.(line := 0, phase := FrameDone) else drawn.(line := v.line + 1, phase := Scan)
  }

  function EndFrame(v: Video): Video {
    var newFrame := (v.frameCount + 1) % 0x1_0000_0000;
    var marked := if Flash(newFrame) != Flash(v.frameCount) && !v.sw.altset then MarkDirty(v) else v;
    marked.(frameCount := newFrame, phase := Retrace)
  }

  function StartFrame(v: Video): Video {
    if v.frameDirty then v.(frameSeed := (v.frameSeed + 1) % 0x1_0000_0000, frameDirty := false, shown := v.pixels)
    else v
  }

  // mii_video_timer_cb, from one yield to the next.
  function Tick(v: Video): (r: Video)
    requires Shape(v)
    ensures Shape(r)
  {
    match v.phase
    case Scan => DrawLine(v)
    case FrameDone => EndFrame(v)
    case Retrace => DrawLine(StartFrame(v))
  }

  // Accesses to the display switches.
  datatype Access =
    | SetText(on: bool)
    | SetHires(on: bool)
    | SetPage2(on: bool)
    | SetAltCharset(on: bool)
    | SetDhires(on: bool, color: bool)
    | SetCol80(on: bool)
    | SetMixed(on: bool)
    | Set80Store(on: bool)

  function Applied(sw: Switches, access: Access): Switches {
    match access
    case SetText(on) => sw.(text := on)
    case SetHires(on) => sw.(hires := on)
    case SetPage2(on) => sw.(page2 := on)
    case SetAltCharset(on) => sw.(altset := on)
    case SetDhires(on, _) => sw.(dhires := on)
    case SetCol80(on) => sw.(col80 := on)
    case SetMixed(on) => sw.(mixed := on)
    case Set80Store(on) => sw.(store80 := on)
  }

  // Which of the accesses look for a new renderer, and which mark all lines.
  function Switch(v: Video, access: Access): Video {
    var v' := v.(sw := Applied(v.sw, access), color := if access.SetDhires? then access.color else v.color);
    match access
    case SetPage2(_) => if !v.sw.store80 then MarkDirty(ModeChanged(v')) else v'
    case SetAltCharset(_) => MarkDirty(v')
    case SetDhires(_, _) => ModeChanged(MarkDirty(v'))
    case Set80Store(_) => v'
    case _ => ModeChanged(v')
  }

  // The accesses that leave no stale line: all but those to 80COL, MIXED and 80STORE that change
  // what a line shows without changing the renderer.
  predicate Harmless(v: Video, access: Access) {
    match access
    case SetCol80(on) =>
      || on == v.sw.col80 || GetLineRenderCb(Applied(v.sw, access), v.color).render != v.cb.render
      || (v.cb.render.RenderHires? && !v.sw.mixed)
    case SetMixed(on) => on == v.sw.mixed || v.sw.text
    case Set80Store(on) => on == v.sw.store80 || !v.sw.page2
    case _ => true
  }

  // ---- Every step keeps the invariant ----

  lemma WriteKeepsInv(v: Video, bank: Bank, addr: nat, b: byte)
    requires Inv(v) && addr < 0x1_0000
    ensures Inv(CpuWrite(v, bank, addr, b))
  {
    var v' := CpuWrite(v, bank, addr, b);
    forall line | 0 <= line < LINES
      ensures !IsDirty(v'.dirty, line) ==> v'.pixels[line] == RowOf(v', line)
    {
      CheckIsExact(v, v.dirty, addr, line);
      hide Check, IsDirty, GetLineRenderCb, LineRenderer;
      if !ShowsAddress(v, line, addr) {
        UnshownStore(v, v', bank, addr, b, line);
      }
    }
  }

  lemma UnshownStore(v: Video, v': Video, bank: Bank, addr: nat, b: byte, line: nat)
    requires Shape(v) && addr < 0x1_0000 && line < LINES && !ShowsAddress(v, line, addr)
    requires Shape(v') && v'.(dirty := v.dirty) == Store(v, bank, addr, b)
    ensures RowOf(v', line) == RowOf(v, line)
  {
    var a := LineStart(LineRenderer(v.cb, v.sw, v.color, line), v.sw, line);
    assert |v.main| == |v.aux| == 0x1_0000;
    StoredWhere(v, bank, addr, b);
    hide LineRenderer, LineStart, Shape;
    OutsideByte(v.main, a, addr, b);
    OutsideByte(v.aux, a, addr, b);
    hide Render, Store;
  }

  lemma StoredWhere(v: Video, bank: Bank, addr: nat, b: byte)
    requires |v.main| == |v.aux| == 0x1_0000 && addr < 0x1_0000
    ensures var v' := Store(v, bank, addr, b);
      && (v'.main == v.main || v'.main == v.main[addr := b]) && (v'.aux == v.aux || v'.aux == v.aux[addr := b])
      && v'.sw == v.sw && v'.cb == v.cb && v'.color == v.color && v'.frameCount == v.frameCount
  {
  }

  lemma OutsideByte(memory: seq<byte>, a: nat, addr: nat, b: byte)
    requires a + 40 <= |memory| && addr < |memory| && !(a <= addr < a + 40)
    ensures memory[addr := b][a..a + 40] == memory[a..a + 40]
  {
  }

  lemma DrawKeepsInv(v: Video)
    requires Inv(v)
    ensures Inv(DrawLine(v)) && !IsDirty(DrawLine(v).dirty, v.line)
    ensures forall line | 0 <= line < LINES :: !IsDirty(v.dirty, line) ==> !IsDirty(DrawLine(v).dirty, line)
  {
    var v' := DrawLine(v);
    forall line | 0 <= line < LINES
      ensures RowOf(v', line) == RowOf(v, line)
      ensures !IsDirty(v'.dirty, line) ==> v'.pixels[line] == RowOf(v', line)
      ensures !IsDirty(v.dirty, line) || line == v.line ==> !IsDirty(v'.dirty, line)
    {
      if IsDirty(v.dirty, v.line) {
        ClearClears(v.dirty, v.line, line);
      }
      hide IsDirty, ClearLine, LineRenderer, LineStart;
    }
  }

  lemma MarkedIsFresh(v: Video)
    requires Shape(v) && v.dirty == ALL_DIRTY
    ensures Fresh(v)
  {
    forall line | 0 <= line < LINES
      ensures IsDirty(v.dirty, line)
    {
      AllAreDirty(line);
    }
  }

  lemma EndFrameKeepsInv(v: Video)
    requires Inv(v) && v.phase.FrameDone?
    ensures Inv(EndFrame(v))
  {
    var v' := EndFrame(v);
    if v'.dirty == ALL_DIRTY {
      MarkedIsFresh(v');
    } else {
      forall line | 0 <= line < LINES
        ensures RowOf(v', line) == RowOf(v, line)
      {
        hide LineRenderer, LineStart;
      }
    }
    hide RowOf, IsDirty;
  }

  lemma TickKeepsInv(v: Video)
    requires Inv(v)
    ensures Inv(Tick(v))
  {
    match v.phase {
      case Scan => DrawKeepsInv(v);
      case FrameDone => EndFrameKeepsInv(v);
      case Retrace =>
        StartFrameKeepsInv(v);
        DrawKeepsInv(StartFrame(v));
    }
    hide Inv, DrawLine, EndFrame, StartFrame;
  }

  lemma StartFrameKeepsInv(v: Video)
    requires Inv(v)
    ensures Inv(StartFrame(v))
  {
    var v' := StartFrame(v);
    forall line | 0 <= line < LINES
      ensures RowOf(v', line) == RowOf(v, line)
    {
    }
    hide RowOf, IsDirty;
  }

  lemma SwitchKeepsInv(v: Video, access: Access)
    requires Inv(v) && Harmless(v, access)
    ensures Inv(Switch(v, access))
  {
    var v' := Switch(v, access);
    SwitchKeepsChoice(v, access);
    hide Switch, Harmless, GetLineRenderCb, RowOf, IsDirty;
    if v'.dirty == ALL_DIRTY {
      MarkedIsFresh(v');
    } else {
      forall line | 0 <= line < LINES
        ensures RowOf(v', line) == RowOf(v, line)
      {
        HarmlessSwitch(v, access, line);
      }
    }
  }

  lemma SwitchKeepsChoice(v: Video, access: Access)
    requires Shape(v) && v.cb == GetLineRenderCb(v.sw, v.color)
    ensures OnlyDisplayChanged(v, Switch(v, access))
  {
    hide Applied, ModeChanged, MarkDirty, OnlyDisplayChanged, GetLineRenderCb, Shape;
    var v' := v.(sw := Applied(v.sw, access), color := if access.SetDhires? then access.color else v.color);
    match access {
      case SetPage2(_) =>
        PlainKeepsChoice(v, access);
        ModeKeepsChoice(v, v');
        MarkKeepsChoice(v, ModeChanged(v'));
      case SetAltCharset(_) =>
        PlainKeepsChoice(v, access);
        MarkKeepsChoice(v, v');
      case SetDhires(_, _) => MarkedModeKeepsChoice(v, v');
      case Set80Store(_) => PlainKeepsChoice(v, access);
      case _ => ModeKeepsChoice(v, v');
    }
  }

  lemma MarkKeepsChoice(v: Video, v': Video)
    requires OnlyDisplayChanged(v, v')
    ensures OnlyDisplayChanged(v, MarkDirty(v'))
  {
  }

  lemma PlainKeepsChoice(v: Video, access: Access)
    requires Shape(v) && v.cb == GetLineRenderCb(v.sw, v.color)
    requires access.SetPage2? || access.SetAltCharset? || access.Set80Store?
    ensures OnlyDisplayChanged(v, v.(sw := Applied(v.sw, access), color := v.color))
  {
  }

  lemma MarkedModeKeepsChoice(v: Video, v': Video)
    requires Shape(v) && v.cb == GetLineRenderCb(v.sw, v.color) && v'.(sw := v.sw, color := v.color) == v
    ensures OnlyDisplayChanged(v, ModeChanged(MarkDirty(v')))
  {
  }

  ghost predicate OnlyDisplayChanged(v: Video, v': Video) {
    && Shape(v') && v'.cb == GetLineRenderCb(v'.sw, v'.color) && v'.phase == v.phase && v'.line == v.line
    && v'.pixels == v.pixels && v'.shown == v.shown && (!v'.frameDirty ==> !v.frameDirty)
    && v'.main == v.main && v'.aux == v.aux && v'.frameCount == v.frameCount
    && (v'.dirty == ALL_DIRTY || v'.dirty == v.dirty)
  }

  lemma ModeKeepsChoice(v: Video, v': Video)
    requires Shape(v) && v.cb == GetLineRenderCb(v.sw, v.color) && v'.(sw := v.sw, color := v.color) == v
    ensures OnlyDisplayChanged(v, ModeChanged(v'))
  {
  }

  // What of the switches one line depends on.
  ghost predicate SameDisplay(sw: Switches, cb: Callbacks, color: bool, sw': Switches, cb': Callbacks, color': bool,
                              line: nat) {
    var render := LineRenderer(cb, sw, color, line);
    && LineRenderer(cb', sw', color', line) == render && Page2(sw') == Page2(sw)
    && (IsTextual(render) ==> sw'.col80 == sw.col80 && sw'.altset == sw.altset)
  }

  lemma SameDisplaySameRow(v: Video, v': Video, line: nat)
    requires Shape(v) && Shape(v') && line < LINES && SameDisplay(v.sw, v.cb, v.color, v'.sw, v'.cb, v'.color, line)
    requires v'.main == v.main && v'.aux == v.aux && v'.frameCount == v.frameCount
    ensures RowOf(v', line) == RowOf(v, line)
  {
    hide LineRenderer, Page2, LineToVideoAddr, RowToVideoAddr;
  }

  lemma HarmlessSwitch(v: Video, access: Access, line: nat)
    requires Inv(v) && Harmless(v, access) && line < LINES && Switch(v, access).dirty != ALL_DIRTY
    ensures Shape(Switch(v, access)) && RowOf(Switch(v, access), line) == RowOf(v, line)
  {
    var v' := Switch(v, access);
    assert Shape(v') && v'.main == v.main && v'.aux == v.aux && v'.frameCount == v.frameCount;
    HarmlessSameDisplay(v, access, line);
    hide *;
    SameDisplaySameRow(v, v', line);
  }

  lemma HarmlessSameDisplay(v: Video, access: Access, line: nat)
    requires v.cb == GetLineRenderCb(v.sw, v.color) && Harmless(v, access) && Switch(v, access).dirty != ALL_DIRTY
    ensures var v' := Switch(v, access); SameDisplay(v.sw, v.cb, v.color, v'.sw, v'.cb, v'.color, line)
  {
    hide Applied, Harmless, SameDisplay, LineRenderer, GetLineRenderCb;
    var sw' := Applied(v.sw, access);
    match access {
      case SetPage2(_) => PageSameDisplay(v, access, line);
      case Set80Store(_) => PageSameDisplay(v, access, line);
      case SetAltCharset(_) =>
      case SetDhires(_, _) =>
      case _ => ModeSameDisplay(v, access, line);
    }
  }

  lemma PageSameDisplay(v: Video, access: Access, line: nat)
    requires Harmless(v, access) && (access.Set80Store? || (access.SetPage2? && v.sw.store80))
    ensures var sw' := Applied(v.sw, access); SameDisplay(v.sw, v.cb, v.color, sw', v.cb, v.color, line)
  {
    hide GetLineRenderCb;
    LineRendererOf(v.cb, v.sw, Applied(v.sw, access), v.color, line);
    hide LineRenderer;
  }

  lemma LineRendererOf(cb: Callbacks, sw: Switches, sw': Switches, color: bool, line: nat)
    requires sw'.(page2 := sw.page2, store80 := sw.store80) == sw
    ensures LineRenderer(cb, sw', color, line) == LineRenderer(cb, sw, color, line)
  {
  }

  lemma ModeSameDisplay(v: Video, access: Access, line: nat)
    requires v.cb == GetLineRenderCb(v.sw, v.color) && Harmless(v, access)
    requires access.SetText? || access.SetHires? || access.SetCol80? || access.SetMixed?
    requires ModeChanged(v.(sw := Applied(v.sw, access))).dirty != ALL_DIRTY
    ensures var sw' := Applied(v.sw, access);
      && ModeChanged(v.(sw := sw')) == v.(sw := sw') && SameDisplay(v.sw, v.cb, v.color, sw', v.cb, v.color, line)
  {
    var sw' := Applied(v.sw, access);
    UnchangedMode(v, v.(sw := sw'));
    hide ModeChanged, SameDisplay;
    SameDisplayFrom(v.sw, v.cb, v.color, sw', line);
  }

  // If the mode change marks nothing, the renderer is still the one for the switches.
  lemma UnchangedMode(v: Video, v': Video)
    requires v'.cb == v.cb && v.cb == GetLineRenderCb(v.sw, v.color) && ModeChanged(v').dirty != ALL_DIRTY
    ensures ModeChanged(v') == v' && v'.cb == GetLineRenderCb(v'.sw, v'.color)
  {
  }

  lemma SameDisplayFrom(sw: Switches, cb: Callbacks, color: bool, sw': Switches, line: nat)
    requires cb == GetLineRenderCb(sw, color) == GetLineRenderCb(sw', color) && Page2(sw') == Page2(sw)
    requires sw'.altset == sw.altset
    requires sw'.col80 == sw.col80 || (cb.render.RenderHires? && !sw.mixed && sw'.mixed == sw.mixed)
    requires sw'.mixed == sw.mixed || (sw.text && sw'.text)
    ensures SameDisplay(sw, cb, color, sw', cb, color, line)
  {
  }

  // The lines that an access to 80COL or MIXED changes, if it is not harmless.
  predicate Affected(v: Video, access: Access, line: nat) {
    line >= MIXED_LINE || (access.SetCol80? && !v.cb.render.RenderHires?)
  }

  ghost predicate AffectedAreDirty(v: Video, access: Access)
    requires Shape(v)
  {
    forall line | 0 <= line < LINES :: Affected(v, access, line) ==> IsDirty(v.dirty, line)
  }

  // The accesses to 80COL and MIXED that are not harmless keep clean lines right just when all the
  // lines they change are dirty. Right is meant of what the renderer read, of which the switches are
  // part: pixels drawn from other switches may happen to be the same.
  lemma UnmarkedAccessIsExact(v: Video, access: Access)
    requires Inv(v) && (access.SetCol80? || access.SetMixed?)
    ensures Inv(Switch(v, access)) <==> Harmless(v, access) || AffectedAreDirty(v, access)
  {
    if Harmless(v, access) {
      SwitchKeepsInv(v, access);
    } else {
      var v' := Switch(v, access);
      UnmarkedAccess(v, access);
      UnmarkedIsExact(v, v'.sw);
      forall line | 0 <= line < LINES
        ensures RowOf(v', line) == RowOf(v, line) <==> !Affected(v, access, line)
      {
        if Affected(v, access, line) {
          AffectedRow(v, access, line);
        } else {
          UnaffectedRow(v, access, line);
        }
      }
      hide Inv, Switch, Harmless, Affected, RowOf, IsDirty, GetLineRenderCb;
    }
  }

  // With the whole screen drawn that is never so: then harmless accesses alone keep it right.
  lemma HarmlessIsExact(v: Video, access: Access)
    requires Inv(v) && (access.SetCol80? || access.SetMixed?)
    requires forall line | 0 <= line < LINES :: !IsDirty(v.dirty, line)
    ensures Inv(Switch(v, access)) <==> Harmless(v, access)
  {
    UnmarkedAccessIsExact(v, access);
    var line: nat := LINES - 1;
    assert Affected(v, access, line) && !IsDirty(v.dirty, line);
    hide Inv, Switch, Harmless, IsDirty, Affected;
  }

  lemma UnmarkedAccess(v: Video, access: Access)
    requires Inv(v) && (access.SetCol80? || access.SetMixed?) && !Harmless(v, access)
    ensures var v' := Switch(v, access);
      && v' == v.(sw := v'.sw) && v'.sw == Applied(v.sw, access) && Shape(v) && Shape(v')
      && v.cb == GetLineRenderCb(v.sw, v.color) == GetLineRenderCb(v'.sw, v.color)
  {
    hide Fresh;
  }

  lemma AffectedRow(v: Video, access: Access, line: nat)
    requires Inv(v) && (access.SetCol80? || access.SetMixed?) && !Harmless(v, access)
    requires line < LINES && Affected(v, access, line)
    ensures Shape(v) && Shape(Switch(v, access)) && RowOf(Switch(v, access), line) != RowOf(v, line)
  {
    assert line < LINES;
    var v' := Switch(v, access);
    SwitchKeepsShape(v, access);
    OtherRenderer(v, access, line);
    RowIs(v, line);
    RowIs(v', line);
    hide Shape, RowOf, LineAt, BytesAt, LineRenderer, GetLineRenderCb, Switch, Harmless, Affected, Render, Inv;
    RenderShows(LineRenderer(v.cb, v.sw, v.color, line), v.sw, v.frameCount,
                BytesAt(v.main, LineAt(v, line)), BytesAt(v.aux, LineAt(v, line)));
    RenderShows(LineRenderer(v'.cb, v'.sw, v'.color, line), v'.sw, v'.frameCount,
                BytesAt(v'.main, LineAt(v', line)), BytesAt(v'.aux, LineAt(v', line)));
  }

  lemma UnaffectedRow(v: Video, access: Access, line: nat)
    requires Inv(v) && (access.SetCol80? || access.SetMixed?) && !Harmless(v, access)
    requires line < LINES && !Affected(v, access, line)
    ensures Shape(v) && Shape(Switch(v, access)) && RowOf(Switch(v, access), line) == RowOf(v, line)
  {
    var v' := Switch(v, access);
    UnmarkedAccess(v, access);
    SameRendererAbove(v, access, line);
    hide Inv, Switch, Harmless, Affected, SameDisplay, GetLineRenderCb, Applied, RowOf, Shape;
    SameDisplaySameRow(v, v', line);
  }

  lemma SameRendererAbove(v: Video, access: Access, line: nat)
    requires v.cb == GetLineRenderCb(v.sw, v.color) && (access.SetCol80? || access.SetMixed?)
    requires !Harmless(v, access) && !Affected(v, access, line)
    ensures var sw' := Applied(v.sw, access); SameDisplay(v.sw, v.cb, v.color, sw', v.cb, v.color, line)
  {
  }

  lemma SwitchKeepsShape(v: Video, access: Access)
    requires Inv(v)
    ensures Shape(v) && v.cb == GetLineRenderCb(v.sw, v.color)
    ensures Shape(Switch(v, access))
  {
    hide Fresh, GetLineRenderCb;
  }

  // The renderer can be told from the row, and for text and lores so can the width.
  function RendererOf(row: Row): Renderer {
    match row
    case Blank => RenderText
    case TextRow(_, _, _, _, _) => RenderText
    case LoresRow(_, _, _) => RenderLores
    case HiresRow(_) => RenderHires
    case DhiresRow(color, _, _) => if color then RenderDhiresColor else RenderDhiresMono
  }

  lemma RenderShows(render: Renderer, sw: Switches, frameCount: nat, main: seq<byte>, aux: seq<byte>)
    ensures var row := Render(render, sw, frameCount, main, aux);
      && RendererOf(row) == render && !row.Blank?
      && (IsTextual(render) ==> row.TextRow? || row.LoresRow?)
      && (row.TextRow? || row.LoresRow? ==> row.wide == sw.col80)
  {
  }

  // Another renderer, or the same one with another width of text.
  lemma OtherRenderer(v: Video, access: Access, line: nat)
    requires v.cb == GetLineRenderCb(v.sw, v.color) && (access.SetCol80? || access.SetMixed?)
    requires !Harmless(v, access) && Affected(v, access, line)
    ensures var v' := Switch(v, access);
      var render := LineRenderer(v.cb, v.sw, v.color, line);
      var render' := LineRenderer(v'.cb, v'.sw, v'.color, line);
      render' != render || (IsTextual(render) && v'.sw.col80 != v.sw.col80)
  {
  }

  // The invariant, unfolded for switches that change without a mark.
  lemma UnmarkedIsExact(v: Video, sw: Switches)
    requires Inv(v)
    ensures var v' := v.(sw := sw);
      Inv(v') <==>
        && v.cb == GetLineRenderCb(sw, v.color)
        && forall line | 0 <= line < LINES :: !IsDirty(v.dirty, line) ==> RowOf(v', line) == RowOf(v, line)
  {
    hide GetLineRenderCb, RowOf, IsDirty;
  }

  // Does the renderer show bytes of aux memory too?
  predicate ShowsAux(render: Renderer, sw: Switches) {
    render.RenderDhiresMono? || render.RenderDhiresColor? || (IsTextual(render) && sw.col80)
  }

  // Drawing the line from b would show what drawing it from a shows.
  predicate SameBytes(v: Video, line: nat, a: nat, b: nat)
    requires Shape(v) && a + 40 <= 0x1_0000 && b + 40 <= 0x1_0000
  {
    && BytesAt(v.main, b) == BytesAt(v.main, a)
    && (ShowsAux(LineRenderer(v.cb, v.sw, v.color, line), v.sw) ==> BytesAt(v.aux, b) == BytesAt(v.aux, a))
  }

  // An access to 80STORE never looks for a renderer. It moves no line just when it is harmless; and it
  // keeps clean lines right just when each of them has the same bytes where it was and where it is
  // now.
  lemma Store80IsExact(v: Video, on: bool)
    requires Inv(v)
    ensures var v' := Switch(v, Set80Store(on));
      && (Harmless(v, Set80Store(on)) <==> forall line | 0 <= line < LINES :: LineAt(v', line) == LineAt(v, line))
      && (Inv(v') <==> forall line | 0 <= line < LINES ::
                        !IsDirty(v.dirty, line) ==> SameBytes(v, line, LineAt(v, line), LineAt(v', line)))
  {
    var v' := Switch(v, Set80Store(on));
    UnmarkedIsExact(v, v'.sw);
    Store80Switch(v, on);
    forall line | 0 <= line < LINES
      ensures LineAt(v', line) == LineAt(v, line) <==> Harmless(v, Set80Store(on))
      ensures RowOf(v', line) == RowOf(v, line) <==> SameBytes(v, line, LineAt(v, line), LineAt(v', line))
    {
      Store80Line(v, on, line);
      Store80Row(v, on, line);
    }
    hide Inv, Switch, Harmless, LineAt, RowOf, SameBytes, IsDirty, GetLineRenderCb;
    assert LineAt(v', 0) == LineAt(v, 0) <==> Harmless(v, Set80Store(on));
  }

  lemma Store80Switch(v: Video, on: bool)
    requires Inv(v)
    ensures var v' := Switch(v, Set80Store(on));
      && v' == v.(sw := v'.sw) && v'.sw == v.sw.(store80 := on) && Shape(v) && Shape(v')
      && v.cb == GetLineRenderCb(v'.sw, v.color)
  {
    hide Fresh;
  }

  lemma Store80Line(v: Video, on: bool, line: nat)
    requires line < LINES
    ensures LineAt(Switch(v, Set80Store(on)), line) == LineAt(v, line) <==> Harmless(v, Set80Store(on))
  {
    LineRendererOf(v.cb, v.sw, Switch(v, Set80Store(on)).sw, v.color, line);
    hide LineRenderer, GetLineRenderCb;
  }

  lemma Store80Row(v: Video, on: bool, line: nat)
    requires Shape(v) && Shape(Switch(v, Set80Store(on))) && line < LINES
    ensures var v' := Switch(v, Set80Store(on));
      RowOf(v', line) == RowOf(v, line) <==> SameBytes(v, line, LineAt(v, line), LineAt(v', line))
  {
    hide *;
    var v', render := Switch(v, Set80Store(on)), LineRenderer(v.cb, v.sw, v.color, line);
    Store80Fields(v, on, line);
    RowIs(v, line);
    RowIs(v', line);
    SameBytesAre(v, line, LineAt(v, line), LineAt(v', line));
    RenderReads(render, v.sw, v'.sw, v.frameCount, BytesAt(v.main, LineAt(v, line)), BytesAt(v.aux, LineAt(v, line)),
                BytesAt(v.main, LineAt(v', line)), BytesAt(v.aux, LineAt(v', line)));
  }

  lemma SameBytesAre(v: Video, line: nat, a: nat, b: nat)
    requires Shape(v) && a + 40 <= 0x6000 && b + 40 <= 0x6000
    ensures |v.main| == |v.aux| == 0x1_0000
    ensures SameBytes(v, line, a, b) <==>
      && BytesAt(v.main, b) == BytesAt(v.main, a)
      && (ShowsAux(LineRenderer(v.cb, v.sw, v.color, line), v.sw) ==> BytesAt(v.aux, b) == BytesAt(v.aux, a))
  {
    hide LineRenderer, ShowsAux, BytesAt;
  }

  lemma Store80Fields(v: Video, on: bool, line: nat)
    ensures var v' := Switch(v, Set80Store(on));
      && v'.main == v.main && v'.aux == v.aux && v'.frameCount == v.frameCount
      && v'.sw.col80 == v.sw.col80 && v'.sw.altset == v.sw.altset
      && LineRenderer(v'.cb, v'.sw, v'.color, line) == LineRenderer(v.cb, v.sw, v.color, line)
  {
    LineRendererOf(v.cb, v.sw, Switch(v, Set80Store(on)).sw, v.color, line);
    hide LineRenderer;
  }

  lemma RowIs(v: Video, line: nat)
    requires Shape(v) && line < LINES
    ensures |v.main| == |v.aux| == 0x1_0000
    ensures var a := LineAt(v, line);
      RowOf(v, line) == Render(LineRenderer(v.cb, v.sw, v.color, line), v.sw, v.frameCount,
                               BytesAt(v.main, a), BytesAt(v.aux, a))
  {
    hide LineRenderer, LineStart, Render;
  }

  lemma RenderReads(render: Renderer, sw: Switches, sw': Switches, frameCount: nat,
                    main: seq<byte>, aux: seq<byte>, main': seq<byte>, aux': seq<byte>)
    requires sw'.col80 == sw.col80 && sw'.altset == sw.altset
    ensures Render(render, sw', frameCount, main', aux') == Render(render, sw, frameCount, main, aux) <==>
      && main' == main
      && (ShowsAux(render, sw) ==> aux' == aux)
  {
  }

  // So with PAGE2 on a screen of text goes stale as soon as its pages differ in one shown byte.
  lemma Stale80Store(v: Video)
    requires Inv(v) && !IsDirty(v.dirty, 0) && v.sw.text && v.sw.page2 && v.sw.store80
    requires v.main[0x800] != v.main[0x400]
    ensures !Inv(Switch(v, Set80Store(false)))
  {
    var v' := Switch(v, Set80Store(false));
    Store80IsExact(v, false);
    assert v.main[0x400..0x400 + 40][0] != v.main[0x800..0x800 + 40][0];
    assert LineAt(v, 0) == 0x400 && LineAt(v', 0) == 0x800;
  }

  const SWITCHES_OFF := Switches(false, false, false, false, false, false, false, false)

  // mii_reset turns the display switches off in the same way.
  function Reset(v: Video): Video {
    v.(sw := SWITCHES_OFF)
  }

  // What a line of lores shows stays as it is when it had nothing to do with the switches turned off:
  // 40 columns, no text below, and the same bytes on the first page.
  ghost predicate SurvivesReset(v: Video, line: nat)
    requires Shape(v) && line < LINES
  {
    && !v.sw.col80 && !(v.sw.mixed && line >= MIXED_LINE)
    && BytesAt(v.main, RowToVideoAddr(0x400, line)) == BytesAt(v.main, RowToVideoAddr(TextBase(v.sw), line))
  }

  // A reset keeps clean lines right just when the renderer is that of lores, the one for switches
  // that are off, and all clean lines survive.
  lemma ResetIsExact(v: Video)
    requires Inv(v)
    ensures Inv(Reset(v)) <==>
      && v.cb.render.RenderLores?
      && forall line | 0 <= line < LINES :: !IsDirty(v.dirty, line) ==> SurvivesReset(v, line)
  {
    UnmarkedIsExact(v, SWITCHES_OFF);
    LoresIsOff(v.sw, v.color);
    if v.cb.render.RenderLores? {
      forall line | 0 <= line < LINES
        ensures RowOf(Reset(v), line) == RowOf(v, line) <==> SurvivesReset(v, line)
      {
        ResetRow(v, line);
      }
    }
    hide Fresh, GetLineRenderCb, RowOf, IsDirty, SurvivesReset;
  }

  // A reset from text leaves the renderer of text in use, and no line marked.
  lemma ResetFromTextIsStale(v: Video)
    requires Inv(v) && v.sw.text
    ensures !Inv(Reset(v)) && Reset(v).cb.render == RenderText && Reset(v).dirty == v.dirty
    ensures GetLineRenderCb(Reset(v).sw, v.color).render == RenderLores
  {
    ResetIsExact(v);
    hide Fresh;
  }

  lemma ResetRow(v: Video, line: nat)
    requires Inv(v) && v.cb.render.RenderLores? && line < LINES
    ensures Shape(v) && Shape(Reset(v))
    ensures RowOf(Reset(v), line) == RowOf(v, line) <==> SurvivesReset(v, line)
  {
    var v' := Reset(v);
    LoresLine(v, line);
    assert Shape(v) && Shape(v');
    RowIs(v, line);
    RowIs(v', line);
    hide Inv, Shape, RowOf, LineAt, LineRenderer, GetLineRenderCb, RowToVideoAddr, BytesAt;
  }

  lemma LoresLine(v: Video, line: nat)
    requires v.cb == GetLineRenderCb(v.sw, v.color) && v.cb.render.RenderLores? && line < LINES
    ensures LineAt(v, line) == RowToVideoAddr(TextBase(v.sw), line)
    ensures LineRenderer(v.cb, v.sw, v.color, line)
      == if v.sw.mixed && line >= MIXED_LINE then RenderText else RenderLores
    ensures var v' := Reset(v);
      && LineAt(v', line) == RowToVideoAddr(0x400, line) && LineRenderer(v'.cb, v'.sw, v'.color, line) == RenderLores
  {
  }

  lemma LoresIsOff(sw: Switches, color: bool)
    ensures GetLineRenderCb(sw, color) == GetLineRenderCb(SWITCHES_OFF, color)
      <==> GetLineRenderCb(sw, color).render.RenderLores?
  {
  }

  // ---- Writes from outside the processor ----

  // mii_video_OOB_write_check: one address in forty is checked.
  function OobCheck(v: Video, dirty: seq<nat>, addr: nat, i: nat, size: nat): (r: seq<nat>)
    requires |dirty| == LINES / 64
    ensures |r| == |dirty|
    decreases if i < size then size - i else 0
  {
    if i >= size then dirty
    else OobCheck(v, Check(v.cb.check, v.sw, dirty, (addr + i) % 0x1_0000), addr, i + 40, size)
  }

  // The 40 bytes from start contain one of the addresses checked.
  predicate Sampled(start: nat, addr: nat, size: nat) {
    size > 0 && addr < start + 40 && start <= addr + (size - 1) / 40 * 40
  }

  lemma {:induction false} OobIsExact(v: Video, dirty: seq<nat>, addr: nat, i: nat, size: nat, line: nat)
    requires |dirty| == LINES / 64 && v.cb == GetLineRenderCb(v.sw, v.color) && line < LINES
    requires addr + size <= 0x1_0000 && i <= size + 39
    ensures IsDirty(OobCheck(v, dirty, addr, i, size), line) <==>
      IsDirty(dirty, line) || (i < size && Sampled(LineAt(v, line), addr + i, size - i))
    decreases if i < size then size - i else 0
  {
    hide IsDirty, Check, GetLineRenderCb, LineAt, ShowsAddress, Sampled;
    if i < size {
      assert (addr + i) % 0x1_0000 == addr + i;
      CheckIsExact(v, dirty, addr + i, line);
      OobIsExact(v, Check(v.cb.check, v.sw, dirty, addr + i), addr, i + 40, size, line);
      ShownAt(v, line, addr + i);
      SampledNext(LineAt(v, line), addr + i, size - i);
    }
  }

  lemma ShownAt(v: Video, line: nat, addr: nat)
    requires line < LINES
    ensures ShowsAddress(v, line, addr) <==> LineAt(v, line) <= addr < LineAt(v, line) + 40
  {
  }

  lemma SampledNext(start: nat, at: nat, left: nat)
    requires left > 0
    ensures Sampled(start, at, left) <==> start <= at < start + 40 || (left > 40 && Sampled(start, at + 40, left - 40))
  {
    if left > 40 {
      assert (left - 1) / 40 == (left - 41) / 40 + 1;
    }
  }

  // A line is touched when one of its bytes is in the range.
  predicate Touched(start: nat, addr: nat, size: nat) {
    start < addr + size && addr < start + 40 && size > 0
  }

  // Marked are the lines that lie wholly in the range or contain its first byte; a touched line is
  // missed just when it starts after the last address checked.
  lemma OobMarks(v: Video, addr: nat, size: nat, line: nat)
    requires Inv(v) && addr + size <= 0x1_0000 && line < LINES && !IsDirty(v.dirty, line)
    ensures var start, marked := LineAt(v, line), IsDirty(OobCheck(v, v.dirty, addr, 0, size), line);
      && (size > 0 && start <= addr < start + 40 ==> marked)
      && (addr <= start && start + 40 <= addr + size ==> marked)
      && (marked ==> Touched(start, addr, size))
      && (Touched(start, addr, size) ==> (marked <==> start <= addr + (size - 1) / 40 * 40))
  {
    OobIsExact(v, v.dirty, addr, 0, size, line);
    hide IsDirty, LineAt, OobCheck, Inv;
  }

  function Overwritten(memory: seq<byte>, addr: nat, bytes: seq<byte>): (r: seq<byte>)
    requires addr + |bytes| <= |memory|
    ensures |r| == |memory|
  {
    memory[..addr] + bytes + memory[addr + |bytes|..]
  }

  // A block read from a disk straight into memory, and the check after it.
  function Dma(v: Video, bank: Bank, addr: nat, bytes: seq<byte>): Video
    requires Shape(v) && addr + |bytes| <= 0x1_0000
  {
    var stored := match bank
      case Main => v.(main := Overwritten(v.main, addr, bytes))
      case Aux => v.(aux := Overwritten(v.aux, addr, bytes))
      case Other => v;
    stored.(dirty := OobCheck(v, v.dirty, addr, 0, |bytes|))
  }

  // A touched line that is not marked: it starts after the last address checked.
  predicate Missed(start: nat, addr: nat, size: nat) {
    Touched(start, addr, size) && start > addr + (size - 1) / 40 * 40
  }

  // The block has put nothing new where a line shows it.
  ghost predicate NothingNew(v: Video, bank: Bank, addr: nat, bytes: seq<byte>, line: nat)
    requires Shape(v) && addr + |bytes| <= 0x1_0000 && line < LINES
  {
    var a := LineAt(v, line);
    match bank
    case Main => BytesAt(Overwritten(v.main, addr, bytes), a) == BytesAt(v.main, a)
    case Aux =>
      ShowsAux(LineRenderer(v.cb, v.sw, v.color, line), v.sw) ==>
        BytesAt(Overwritten(v.aux, addr, bytes), a) == BytesAt(v.aux, a)
    case Other => true
  }

  // A block transfer keeps clean lines right just when it has put nothing new in those it missed.
  lemma DmaIsExact(v: Video, bank: Bank, addr: nat, bytes: seq<byte>)
    requires Inv(v) && addr + |bytes| <= 0x1_0000
    ensures Inv(Dma(v, bank, addr, bytes)) <==>
      forall line | 0 <= line < LINES ::
        !IsDirty(v.dirty, line) && Missed(LineAt(v, line), addr, |bytes|) ==> NothingNew(v, bank, addr, bytes, line)
  {
    var v' := Dma(v, bank, addr, bytes);
    DmaFields(v, bank, addr, bytes);
    forall line | 0 <= line < LINES
      ensures !IsDirty(v.dirty, line) && !Missed(LineAt(v, line), addr, |bytes|) ==>
        IsDirty(v'.dirty, line) || RowOf(v', line) == RowOf(v, line)
      ensures IsDirty(v.dirty, line) ==> IsDirty(v'.dirty, line)
      ensures !IsDirty(v.dirty, line) && Missed(LineAt(v, line), addr, |bytes|) ==> !IsDirty(v'.dirty, line)
      ensures RowOf(v', line) == RowOf(v, line) <==> NothingNew(v, bank, addr, bytes, line)
    {
      OobIsExact(v, v.dirty, addr, 0, |bytes|, line);
      MissedIsTouched(LineAt(v, line), addr, |bytes|);
      NewOrNot(v, bank, addr, bytes, line);
      hide OobCheck, IsDirty, GetLineRenderCb, LineAt, RowOf, Sampled, Touched, Missed, Dma, NothingNew, Inv;
      if !Touched(LineAt(v, line), addr, |bytes|) {
        UntouchedRow(v, bank, addr, bytes, line);
      }
    }
    FreshIsExact(v, v');
    hide Inv, Dma, IsDirty, LineAt, RowOf, Missed, NothingNew, Shape;
  }

  lemma MissedIsTouched(start: nat, addr: nat, size: nat)
    ensures Missed(start, addr, size) <==> Touched(start, addr, size) && !Sampled(start, addr, size)
  {
  }

  lemma DmaFields(v: Video, bank: Bank, addr: nat, bytes: seq<byte>)
    requires Inv(v) && addr + |bytes| <= 0x1_0000
    ensures var v' := Dma(v, bank, addr, bytes);
      && Shape(v) && Shape(v') && v'.(main := v.main, aux := v.aux, dirty := v.dirty) == v
      && v.cb == GetLineRenderCb(v.sw, v.color)
  {
    hide Fresh, GetLineRenderCb, OobCheck, Overwritten;
  }

  // The invariant, unfolded for a step that changes memory and marks only.
  lemma FreshIsExact(v: Video, v': Video)
    requires Inv(v) && Shape(v') && v'.(main := v.main, aux := v.aux, dirty := v.dirty) == v
    ensures Shape(v)
    ensures Inv(v') <==>
      forall line | 0 <= line < LINES :: !IsDirty(v'.dirty, line) ==> v'.pixels[line] == RowOf(v', line)
    ensures forall line | 0 <= line < LINES :: !IsDirty(v.dirty, line) ==> v'.pixels[line] == RowOf(v, line)
  {
    hide GetLineRenderCb, RowOf, IsDirty;
  }

  lemma NewOrNot(v: Video, bank: Bank, addr: nat, bytes: seq<byte>, line: nat)
    requires Shape(v) && addr + |bytes| <= 0x1_0000 && line < LINES && Shape(Dma(v, bank, addr, bytes))
    ensures RowOf(Dma(v, bank, addr, bytes), line) == RowOf(v, line) <==> NothingNew(v, bank, addr, bytes, line)
  {
    var v' := Dma(v, bank, addr, bytes);
    RowIs(v, line);
    RowIs(v', line);
    assert LineAt(v', line) == LineAt(v, line);
    var a := LineAt(v, line);
    RenderReads(LineRenderer(v.cb, v.sw, v.color, line), v.sw, v'.sw, v.frameCount, BytesAt(v.main, a),
                BytesAt(v.aux, a), BytesAt(v'.main, a), BytesAt(v'.aux, a));
    hide RowOf, LineAt, BytesAt, LineRenderer, Render, ShowsAux, OobCheck, Overwritten, Shape;
  }

  // No line on display starts in the last partial stride.
  ghost predicate Covered(v: Video, addr: nat, size: nat) {
    forall line | 0 <= line < LINES :: Touched(LineAt(v, line), addr, size) ==> Sampled(LineAt(v, line), addr, size)
  }

  lemma DmaKeepsInv(v: Video, bank: Bank, addr: nat, bytes: seq<byte>)
    requires Inv(v) && addr + |bytes| <= 0x1_0000 && Covered(v, addr, |bytes|)
    ensures Inv(Dma(v, bank, addr, bytes))
  {
    DmaIsExact(v, bank, addr, bytes);
    forall line | 0 <= line < LINES
      ensures !Missed(LineAt(v, line), addr, |bytes|)
    {
      MissedIsTouched(LineAt(v, line), addr, |bytes|);
    }
    hide Inv, Dma, LineAt, Missed, NothingNew;
  }

  lemma UntouchedRow(v: Video, bank: Bank, addr: nat, bytes: seq<byte>, line: nat)
    requires Shape(v) && addr + |bytes| <= 0x1_0000 && line < LINES && !Touched(LineAt(v, line), addr, |bytes|)
    ensures Shape(Dma(v, bank, addr, bytes)) && RowOf(Dma(v, bank, addr, bytes), line) == RowOf(v, line)
  {
    Untouched(v.main, LineAt(v, line), addr, bytes);
    Untouched(v.aux, LineAt(v, line), addr, bytes);
    hide OobCheck, Overwritten, LineStart, LineRenderer, Render, Touched;
  }

  lemma Untouched(memory: seq<byte>, start: nat, addr: nat, bytes: seq<byte>)
    requires addr + |bytes| <= |memory| && start + 40 <= |memory| && !Touched(start, addr, |bytes|)
    ensures Overwritten(memory, addr, bytes)[start..start + 40] == memory[start..start + 40]
  {
    var r := Overwritten(memory, addr, bytes);
    forall k | start <= k < start + 40
      ensures r[k] == memory[k]
    {
    }
  }

  // Blocks of a multiple of 128 bytes at a multiple of 128, as disk blocks are, miss nothing.
  lemma AlignedIsCovered(v: Video, addr: nat, size: nat)
    requires addr % 128 == 0 && size % 128 == 0
    ensures Covered(v, addr, size)
  {
    forall line | 0 <= line < LINES && Touched(LineAt(v, line), addr, size)
      ensures Sampled(LineAt(v, line), addr, size)
    {
      var blocks, column := LineColumns(v, line);
      hide LineAt;
      LastSample(addr / 128, size / 128, blocks, column);
    }
  }

  lemma LineColumns(v: Video, line: nat) returns (blocks: nat, column: nat)
    requires line < LINES
    ensures LineAt(v, line) == 128 * blocks + column && column <= 80
  {
    column := line / 64 * 40;
    var row := line / 8 % 8;
    if IsTextual(LineRenderer(v.cb, v.sw, v.color, line)) {
      blocks := TextBase(v.sw) / 128 + row;
      assert line / 8 / 8 == line / 64;
    } else {
      blocks := HiresBase(v.sw) / 128 + line % 8 * 8 + row;
    }
    hide LineRenderer;
  }

  lemma LastSample(a: nat, n: nat, blocks: nat, column: nat)
    requires column <= 80 && Touched(128 * blocks + column, 128 * a, 128 * n)
    ensures Sampled(128 * blocks + column, 128 * a, 128 * n)
  {
    assert blocks < a + n;
    assert (128 * n - 1) / 40 * 40 >= 128 * n - 40;
  }

  // Without the alignment a line can be missed: here by a disk block that ends with the first byte of
  // line 0.
  lemma UnalignedDmaIsStale(v: Video, bytes: seq<byte>)
    requires Inv(v) && !IsDirty(v.dirty, 0) && v.sw.text && !v.sw.page2
    requires |bytes| == 512 && bytes[511] != v.main[0x400]
    ensures !Inv(Dma(v, Main, 0x201, bytes))
  {
    DmaIsExact(v, Main, 0x201, bytes);
    hide Fresh, OobCheck, IsDirty, Dma;
    assert LineAt(v, 0) == 0x400 && Missed(0x400, 0x201, 512);
    assert BytesAt(Overwritten(v.main, 0x201, bytes), 0x400)[0] == bytes[511] != BytesAt(v.main, 0x400)[0];
  }

  // ---- Whole runs ----

  datatype Event =
    | Write(bank: Bank, addr: nat, b: byte)
    | TimerTick
    | SwitchAccess(access: Access)
    // a block read from a disk
    | BlockRead(bank: Bank, addr: nat, bytes: seq<byte>)
    | ResetAll

  ghost predicate InMemory(e: Event) {
    match e
    case Write(_, addr, _) => addr < 0x1_0000
    case BlockRead(_, addr, bytes) => addr + |bytes| <= 0x1_0000
    case _ => true
  }

  // The accesses that keep clean lines right.
  ghost predicate AccessKeeps(v: Video, access: Access)
    requires Inv(v)
  {
    match access
    case Set80Store(_) =>
      Store80Switch(v, access.on);
      forall line | 0 <= line < LINES ::
        !IsDirty(v.dirty, line) ==> SameBytes(v, line, LineAt(v, line), LineAt(Switch(v, access), line))
    case SetCol80(_) => Harmless(v, access) || AffectedAreDirty(v, access)
    case SetMixed(_) => Harmless(v, access) || AffectedAreDirty(v, access)
    case _ => true
  }

  // All the events that do: every write and tick, and some of the others.
  ghost predicate Allowed(v: Video, e: Event)
    requires Inv(v)
  {
    && InMemory(e)
    && match e
       case Write(_, _, _) => true
       case TimerTick => true
       case SwitchAccess(access) => AccessKeeps(v, access)
       case BlockRead(bank, addr, bytes) =>
         forall line | 0 <= line < LINES ::
           !IsDirty(v.dirty, line) && Missed(LineAt(v, line), addr, |bytes|) ==> NothingNew(v, bank, addr, bytes, line)
       case ResetAll =>
         && v.cb.render.RenderLores?
         && forall line | 0 <= line < LINES :: !IsDirty(v.dirty, line) ==> SurvivesReset(v, line)
  }

  function Step(v: Video, e: Event): Video
    requires Inv(v) && InMemory(e)
  {
    match e
    case Write(bank, addr, b) => CpuWrite(v, bank, addr, b)
    case TimerTick => Tick(v)
    case SwitchAccess(access) => Switch(v, access)
    case BlockRead(bank, addr, bytes) => Dma(v, bank, addr, bytes)
    case ResetAll => Reset(v)
  }

  // No other event does.
  lemma StepIsExact(v: Video, e: Event)
    requires Inv(v) && InMemory(e)
    ensures Inv(Step(v, e)) <==> Allowed(v, e)
  {
    match e {
      case Write(bank, addr, b) => WriteKeepsInv(v, bank, addr, b);
      case TimerTick => TickKeepsInv(v);
      case SwitchAccess(access) => AccessIsExact(v, access);
      case BlockRead(bank, addr, bytes) => DmaIsExact(v, bank, addr, bytes);
      case ResetAll => ResetIsExact(v);
    }
    hide Inv, CpuWrite, Tick, Switch, Dma, Reset, AccessKeeps, Missed, NothingNew, SurvivesReset, IsDirty, LineAt;
  }

  lemma AccessIsExact(v: Video, access: Access)
    requires Inv(v)
    ensures Inv(Switch(v, access)) <==> AccessKeeps(v, access)
  {
    match access {
      case Set80Store(on) => Store80IsExact(v, on);
      case SetCol80(_) => UnmarkedAccessIsExact(v, access);
      case SetMixed(_) => UnmarkedAccessIsExact(v, access);
      case _ => SwitchKeepsInv(v, access);
    }
    hide Inv, Switch, SameBytes, AffectedAreDirty, IsDirty, LineAt;
  }

  ghost predicate AllAllowed(v: Video, events: seq<Event>)
    requires Inv(v)
    decreases |events|
  {
    events == [] || (Allowed(v, events[0]) && (StepIsExact(v, events[0]); AllAllowed(Step(v, events[0]), events[1..])))
  }

  ghost function Run(v: Video, events: seq<Event>): Video
    requires Inv(v) && AllAllowed(v, events)
    decreases |events|
  {
    if events == [] then v else
      StepIsExact(v, events[0]);
      Run(Step(v, events[0]), events[1..])
  }

  // After any run of events that keep clean lines right, as every write and tick does and StepIsExact
  // says of the others, every clean line shows exactly what drawing it from the present memory would
  // show; and whatever changed on the screen since frame_seed last moved has frame_dirty set.
  lemma {:induction false} CleanLinesAreCurrent(v: Video, events: seq<Event>)
    requires Inv(v) && AllAllowed(v, events)
    ensures var r := Run(v, events);
      && Shape(r)
      && (forall line | 0 <= line < LINES && !IsDirty(r.dirty, line) :: r.pixels[line] == RowOf(r, line))
      && (r.pixels != r.shown ==> r.frameDirty)
    decreases |events|
  {
    if events == [] {
    } else {
      StepIsExact(v, events[0]);
      hide Inv, Shape, Step, Allowed, RowOf, IsDirty;
      CleanLinesAreCurrent(Step(v, events[0]), events[1..]);
    }
  }

  // What the user interface last took over is replaced when the next frame begins, by the picture as
  // it is then. frame_seed moves at no other time, and whenever that picture is a different one.
  lemma SeedMoves(v: Video, e: Event)
    requires Inv(v) && InMemory(e)
    ensures var r, begins := Step(v, e), e.TimerTick? && v.phase.Retrace?;
      && r.shown == (if begins then v.pixels else v.shown)
      && (r.shown != v.shown ==> r.frameSeed != v.frameSeed)
      && (r.frameSeed != v.frameSeed ==> begins && v.frameDirty)
  {
    hide *;
    InvIsFramed(v);
    if e.TimerTick? {
      TickSeed(v);
      StepIsTick(v);
    } else {
      OthersKeepSeed(v, e);
    }
  }

  lemma StepIsTick(v: Video)
    requires Inv(v) && Shape(v)
    ensures Step(v, TimerTick) == Tick(v)
  {
    hide Inv, Tick;
  }

  lemma TickSeed(v: Video)
    requires Shape(v)
    ensures var r, taken := Tick(v), v.phase.Retrace? && v.frameDirty;
      && r.shown == (if taken then v.pixels else v.shown)
      && r.frameSeed == if taken then (v.frameSeed + 1) % 0x1_0000_0000 else v.frameSeed
  {
    hide RowOf, ClearLine, IsDirty, Flash;
  }

  lemma OthersKeepSeed(v: Video, e: Event)
    requires Inv(v) && InMemory(e) && !e.TimerTick?
    ensures Step(v, e).shown == v.shown && Step(v, e).frameSeed == v.frameSeed
  {
    if e.SwitchAccess? {
      SwitchKeepsSeed(v, e.access);
    }
    hide Inv, Switch, Check, OobCheck, Overwritten;
  }

  lemma SwitchKeepsSeed(v: Video, access: Access)
    ensures Switch(v, access).shown == v.shown && Switch(v, access).frameSeed == v.frameSeed
  {
    hide GetLineRenderCb, Applied;
  }

  lemma InvIsFramed(v: Video)
    requires Inv(v)
    ensures Shape(v) && (!v.frameDirty ==> v.pixels == v.shown)
  {
    hide Shape, Fresh, GetLineRenderCb;
  }

  function Ticks(v: Video, n: nat): (r: Video)
    requires Shape(v)
    ensures Shape(r)
    decreases n
  {
    if n == 0 then v else Ticks(Tick(v), n - 1)
  }

  lemma DrawMoves(v: Video)
    requires Shape(v)
    ensures var v' := DrawLine(v);
      && v'.main == v.main && v'.aux == v.aux && v'.sw == v.sw
      && v'.frameCount == v.frameCount
      && if v.line + 1 == LINES then v'.phase.FrameDone? else v'.phase.Scan? && v'.line == v.line + 1
  {
    hide RowOf, ClearLine, IsDirty;
  }

  // A frame without writes: line by line from the top, then all of the screen is right.
  lemma {:induction false} LinesDrawn(v: Video, n: nat)
    requires Inv(v) && v.phase.Scan? && v.line + n <= LINES
    requires forall line | 0 <= line < v.line :: !IsDirty(v.dirty, line)
    ensures var r := Ticks(v, n);
      && Inv(r) && r.main == v.main && r.aux == v.aux && r.sw == v.sw && r.frameCount == v.frameCount
      && (v.line + n < LINES ==> r.phase.Scan? && r.line == v.line + n)
      && (v.line + n == LINES && n > 0 ==> r.phase.FrameDone?)
      && (forall line | 0 <= line < v.line + n :: !IsDirty(r.dirty, line))
    decreases n
  {
    if n > 0 {
      DrawKeepsInv(v);
      DrawMoves(v);
      assert Tick(v) == DrawLine(v);
      hide Inv, Shape, IsDirty, DrawLine, Tick;
      if n > 1 {
        LinesDrawn(DrawLine(v), n - 1);
      }
    }
  }

  lemma FullFrameIsRight(v: Video)
    requires Inv(v) && v.phase.Scan? && v.line == 0
    ensures var r := Ticks(v, LINES);
      && r.main == v.main && r.aux == v.aux && r.sw == v.sw
      && r.phase.FrameDone? && r.frameCount == v.frameCount
      && forall line | 0 <= line < LINES :: !IsDirty(r.dirty, line) && r.pixels[line] == RowOf(r, line)
  {
    LinesDrawn(v, LINES);
    hide RowOf, IsDirty, Ticks;
  }

  lemma {:induction false} OneTickMore(v: Video, n: nat)
    requires Shape(v)
    ensures Ticks(v, n + 1) == Tick(Ticks(v, n))
    decreases n
  {
    hide Shape, Tick;
    if n > 0 {
      OneTickMore(Tick(v), n - 1);
    }
  }

  // A frame takes 193 ticks: the lines, and one in which it is counted. Every sixteenth frame marks
  // all lines, for the flashing characters, if there are any.
  lemma FrameIsCounted(v: Video)
    requires Inv(v) && v.phase.Scan? && v.line == 0 && v.frameCount < 0x1_0000_0000
    ensures var r := Ticks(v, 193);
      && r.phase.Retrace? && r.frameCount == (v.frameCount + 1) % 0x1_0000_0000
      && r.dirty == if r.frameCount % 16 == 0 && !v.sw.altset then ALL_DIRTY else Ticks(v, 192).dirty
  {
    hide *;
    FullFrameIsRight(v);
    InvIsFramed(v);
    LinesAre();
    OneTickMore(v, 192);
    FrameCounted(Ticks(v, 192), v.sw);
  }

  lemma LinesAre()
    ensures LINES == 192
  {
  }

  lemma FrameCounted(v: Video, sw: Switches)
    requires Shape(v) && v.phase.FrameDone? && v.frameCount < 0x1_0000_0000 && v.sw == sw
    ensures var r := Tick(v);
      && r.phase.Retrace? && r.frameCount == (v.frameCount + 1) % 0x1_0000_0000
      && r.dirty == if r.frameCount % 16 == 0 && !sw.altset then ALL_DIRTY else v.dirty
  {
    FlashTurns(v.frameCount);
    hide Shape, Flash;
  }

  lemma FlashTurns(frameCount: nat)
    requires frameCount < 0x1_0000_0000
    ensures var next := (frameCount + 1) % 0x1_0000_0000;
      Flash(next) != Flash(frameCount) <==> next % 16 == 0
  {
    var q, k := frameCount / 16, frameCount % 16;
    FlashIs(q, k);
    if frameCount == 0xffff_ffff {
      FlashIs(0, 0);
    } else if k == 15 {
      FlashIs(q + 1, 0);
    } else {
      FlashIs(q, k + 1);
    }
  }

  lemma FlashIs(q: nat, k: nat)
    requires k < 16
    ensures (Flash(16 * q + k) <==> q % 2 == 1) && (16 * q + k) % 16 == k
  {
    assert (16 * q + k) / 16 == q;
  }
}

module Video {
  import opened Basics
  import opened Bits
  import opened VideoLines
  import V = VideoCache

  // mii_video_t, the soft switches it is shown, and the two banks it draws from.
  class Screen {
    var sw: V.Switches
    var color: bool
    var cb: V.Callbacks
    var line: nat
    var phase: V.Phase
    var frameCount: nat
    var frameDirty: bool
    var frameSeed: nat
    ghost var shown: seq<V.Row>
    const linesDirty: array<nat>
    const main: array<byte>
    const aux: array<byte>
    const pixels: array<V.Row>

    ghost predicate Valid()
      reads this
    {
      && linesDirty.Length == LINES / 64 && main.Length == aux.Length == 0x1_0000 && pixels.Length == LINES
      && |shown| == LINES && line < LINES && main != aux
      && linesDirty as object != main as object && linesDirty as object != aux as object
      && linesDirty as object != pixels as object
      && pixels as object != main as object && pixels as object != aux as object
    }

    ghost function Value(): V.Video
      reads this, linesDirty, main, aux, pixels
    {
      V.Video(sw, color, cb, linesDirty[..], line, phase, frameCount, frameDirty, frameSeed, main[..], aux[..],
              pixels[..], shown)
    }

    // All lines are dirty before the first frame.
    constructor (color: bool)
      ensures Valid() && V.Inv(Value())
      ensures fresh(linesDirty) && fresh(main) && fresh(aux) && fresh(pixels)
    {
      sw := V.SWITCHES_OFF;
      this.color := color;
      cb := V.GetLineRenderCb(V.SWITCHES_OFF, color);
      line, phase, frameCount, frameDirty, frameSeed := 0, V.Scan, 0, true, 0;
      linesDirty := new nat[LINES / 64](_ => Pow2(64) - 1);
      main := new byte[0x1_0000](_ => 0);
      aux := new byte[0x1_0000](_ => 0);
      pixels := new V.Row[LINES](_ => V.Blank);
      shown := seq(LINES, _ => V.Blank);
      new;
      assert Value().dirty == ALL_DIRTY;
      V.MarkedIsFresh(Value());
      hide V.Fresh, V.GetLineRenderCb;
    }

    method MarkOne(i: nat)
      requires Valid() && i < LINES
      modifies linesDirty
      ensures Value() == old(Value()).(dirty := MarkLine(old(linesDirty[..]), i))
    {
      linesDirty[i / 64] := Or(linesDirty[i / 64], Pow2(i % 64));
    }

    method MarkEight(first: nat)
      requires Valid() && first + 8 <= LINES
      modifies linesDirty
      ensures Value() == old(Value()).(dirty := MarkLines(old(linesDirty[..]), first, 8))
    {
      hide MarkLine, MarkLines;
      ghost var was := Value();
      for i := first to first + 8
        invariant Value() == was.(dirty := linesDirty[..])
        invariant MarkLines(linesDirty[..], i, first + 8 - i) == MarkLines(was.dirty, first, 8)
      {
        MarkLinesNext(linesDirty[..], i, first + 8 - i);
        MarkOne(i);
      }
      MarkLinesEnd(linesDirty[..], first + 8);
    }

    lemma MarkLinesNext(dirty: seq<nat>, i: nat, count: nat)
      requires |dirty| == LINES / 64 && i + count <= LINES && count > 0
      ensures MarkLines(dirty, i, count) == MarkLines(MarkLine(dirty, i), i + 1, count - 1)
    {
      hide MarkLine;
    }

    lemma MarkLinesEnd(dirty: seq<nat>, i: nat)
      requires |dirty| == LINES / 64 && i <= LINES
      ensures MarkLines(dirty, i, 0) == dirty
    {
    }

    method ClearOne(i: nat)
      requires Valid() && i < LINES
      modifies linesDirty
      ensures Value() == old(Value()).(dirty := ClearLine(old(linesDirty[..]), i))
    {
      Pow2Monotone(i % 64, 64);
      linesDirty[i / 64] := And(linesDirty[i / 64], Not(64, Pow2(i % 64)));
    }

    method CheckTextLores(addr: nat)
      requires Valid()
      modifies linesDirty
      ensures Value() == old(Value()).(dirty := V.CheckText(sw, old(linesDirty[..]), addr))
    {
      hide MarkLines;
      var page2 := if sw.store80 then false else sw.page2;
      var a := 0x400 + if page2 then 0x400 else 0;
      if a <= addr < a + 0x400 {
        var line := AddrToLineTextLores(addr - a);
        if line < 0 {
          return;
        }
        MarkEight(line);
      }
    }

    method CheckHiresDhires(addr: nat)
      requires Valid()
      modifies linesDirty
      ensures Value() == old(Value()).(dirty := V.CheckHires(sw, old(linesDirty[..]), addr))
    {
      hide MarkLines, MarkLine;
      var page2 := if sw.store80 then false else sw.page2;
      var a := 0x2000 + if page2 then 0x2000 else 0;
      if a <= addr < a + 0x2000 {
        var line := AddrToLineHires(addr - a);
        if line < 0 {
          return;
        }
        if !sw.mixed || line < MIXED_LINE {
          MarkOne(line);
        }
      }
      if sw.mixed {
        a := 0x400 + if page2 then 0x400 else 0;
        if a <= addr < a + 0x400 {
          var line := AddrToLineTextLores(addr - a);
          if line < MIXED_LINE {
            return;
          }
          MarkEight(line);
        }
      }
    }

    method Check(addr: nat)
      requires Valid()
      modifies linesDirty
      ensures Value() == old(Value()).(dirty := V.Check(cb.check, sw, old(linesDirty[..]), addr))
    {
      hide V.CheckText, V.CheckHires;
      match cb.check {
        case CheckTextLores => CheckTextLores(addr);
        case CheckHiresDhires => CheckHiresDhires(addr);
      }
    }

    // A write by the processor.
    method Write(bank: V.Bank, addr: nat, b: byte)
      requires Valid() && addr < 0x1_0000
      modifies linesDirty, main, aux
      ensures Valid() && Value() == V.CpuWrite(old(Value()), bank, addr, b)
    {
      hide V.Check;
      Check(addr);
      match bank {
        case Main => main[addr] := b;
        case Aux => aux[addr] := b;
        case Other =>
      }
    }

    // mii_video_OOB_write_check
    method OobWriteCheck(addr: nat, size: nat)
      requires Valid()
      modifies linesDirty
      ensures Value() == old(Value()).(dirty := V.OobCheck(old(Value()), old(linesDirty[..]), addr, 0, size))
    {
      hide V.Check;
      ghost var was := Value();
      var i := 0;
      while i < size
        invariant Value() == was.(dirty := linesDirty[..])
        invariant V.OobCheck(was, linesDirty[..], addr, i, size) == V.OobCheck(was, was.dirty, addr, 0, size)
        decreases size - i
      {
        Check((addr + i) % 0x1_0000);
        i := i + 40;
      }
    }

    method MarkDirty()
      requires Valid()
      modifies this`frameDirty, linesDirty
      ensures Value() == V.MarkDirty(old(Value()))
    {
      frameDirty := true;
      linesDirty[0], linesDirty[1], linesDirty[2] := Pow2(64) - 1, Pow2(64) - 1, Pow2(64) - 1;
      assert linesDirty[..] == ALL_DIRTY;
    }

    method ModeChanged()
      requires Valid()
      modifies this`frameDirty, this`cb, linesDirty
      ensures Value() == V.ModeChanged(old(Value()))
    {
      hide V.GetLineRenderCb;
      var res := V.GetLineRenderCb(sw, color);
      if res.render != cb.render {
        cb := res;
        MarkDirty();
      }
    }

    // The display switches of mii_access_video, and 80STORE of mii_access_soft_switches.
    method AccessSwitch(access: V.Access)
      requires Valid()
      modifies this`frameDirty, this`cb, this`sw, this`color, linesDirty
      ensures Valid() && Value() == V.Switch(old(Value()), access)
    {
      hide V.ModeChanged, V.MarkDirty, V.Applied;
      sw := V.Applied(sw, access);
      color := if access.SetDhires? then access.color else color;
      match access {
        case SetPage2(_) =>
          Store80Stays(old(sw), access);
          if !sw.store80 {
            ModeChanged();
            MarkDirty();
          }
        case SetAltCharset(_) => MarkDirty();
        case SetDhires(_, _) =>
          MarkDirty();
          ModeChanged();
        case Set80Store(_) =>
        case _ => ModeChanged();
      }
    }

    lemma Store80Stays(sw: V.Switches, access: V.Access)
      requires access.SetPage2?
      ensures V.Applied(sw, access).store80 == sw.store80
    {
    }

    // The body of the loop of mii_video_timer_cb up to the next line.
    method DrawLine()
      requires Valid()
      modifies this`line, this`phase, this`frameDirty, linesDirty, pixels
      ensures Valid() && Value() == V.DrawLine(old(Value()))
    {
      hide V.LineRenderer, V.GetLineRenderCb, V.RowOf, ClearLine;
      var lineDrawing := LineDrawing();
      if And(linesDirty[line / 64], Pow2(line % 64)) != 0 {
        RenderLine(lineDrawing);
        ClearOne(line);
        frameDirty := true;
      }
      NextLine();
    }

    // The renderer, or past line 160 in mixed mode that of text.
    method LineDrawing() returns (lineDrawing: V.Renderer)
      requires Valid()
      ensures lineDrawing == V.LineRenderer(cb, sw, color, line)
    {
      hide V.GetLineRenderCb;
      lineDrawing := cb.render;
      if line >= MIXED_LINE {
        if sw.mixed {
          var sw' := sw.(text := true);
          if sw' != sw {
            lineDrawing := V.GetLineRenderCb(sw', color).render;
          }
        }
      }
    }

    method NextLine()
      requires Valid()
      modifies this`line, this`phase
      ensures Valid()
      ensures Value() == old(Value()).(line := if old(line) + 1 == LINES then 0 else old(line) + 1,
                                       phase := if old(line) + 1 == LINES then V.FrameDone else V.Scan)
    {
      line := line + 1;
      if line == LINES {
        line := 0;
        phase := V.FrameDone;
      } else {
        phase := V.Scan;
      }
    }

    method RenderLine(render: V.Renderer)
      requires Valid() && render == V.LineRenderer(cb, sw, color, line)
      modifies pixels
      ensures Value() == old(Value()).(pixels := old(pixels[..])[line := V.RowOf(old(Value()), line)])
    {
      var a := V.LineStart(render, sw, line);
      hide V.LineRenderer, V.LineStart, V.Render;
      pixels[line] := V.Render(render, sw, frameCount, main[a..a + 40], aux[a..a + 40]);
    }

    // The part after the last line, up to the second yield.
    method EndFrame()
      requires Valid()
      modifies this`frameCount, this`frameDirty, this`phase, linesDirty
      ensures Valid() && Value() == V.EndFrame(old(Value()))
    {
      hide V.Flash, V.MarkDirty;
      var newFrame := (frameCount + 1) % 0x1_0000_0000;
      if V.Flash(newFrame) != V.Flash(frameCount) {
        if !sw.altset {
          MarkDirty();
          MarkedFields(old(Value()));
        }
      }
      frameCount := newFrame;
      phase := V.Retrace;
    }

    lemma MarkedFields(v: V.Video)
      ensures V.MarkDirty(v) == v.(dirty := V.MarkDirty(v).dirty, frameDirty := true)
    {
    }

    // The part after the second yield.
    method StartFrame()
      requires Valid()
      modifies this`frameSeed, this`frameDirty, this`shown
      ensures Valid() && Value() == V.StartFrame(old(Value()))
    {
      if frameDirty {
        frameSeed := (frameSeed + 1) % 0x1_0000_0000;
        shown := pixels[..];
      }
      frameDirty := false;
    }

    // mii_video_timer_cb, called once.
    method TimerCb()
      requires Valid()
      modifies this`line, this`phase, this`frameDirty, this`frameCount, this`frameSeed, this`shown, linesDirty, pixels
      ensures Valid() && Value() == V.Tick(old(Value()))
    {
      hide V.EndFrame, V.DrawLine, V.StartFrame;
      match phase {
        case Scan => DrawLine();
        case FrameDone => EndFrame();
        case Retrace =>
          StartFrame();
          DrawLine();
      }
    }
  }
}
