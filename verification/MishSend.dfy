// Scatter-gather output: libmish/src/mish_send.c, with _mish_line_reserve of libmish/src/mish_line.c.
//
// What a client is to be sent is a list of vectors. Some point into lines of the backlog; others
// are holes, of known length only, to be filled from a sequence buffer that may still move when it
// grows. The first flush fills in the holes and locks the buffer until all of the list is gone,
// which may take any number of partial writes.
module MishPieces {
  import opened Basics

  // What is left to send of one vector.
  datatype Piece = Hole(len: nat) | Text(bytes: string)

  function Holes(pieces: seq<Piece>): nat {
    if pieces == [] then 0 else (if pieces[0].Hole? then pieces[0].len else 0) + Holes(pieces[1..])
  }

  // The bytes in order, the holes filled from the buffer one after the other.
  function Bytes(pieces: seq<Piece>, buffer: string): string
    requires Holes(pieces) <= |buffer|
  {
    if pieces == [] then []
    else
      match pieces[0]
      case Hole(len) => buffer[..len] + Bytes(pieces[1..], buffer[len..])
      case Text(bytes) => bytes + Bytes(pieces[1..], buffer)
  }

  ghost predicate NoHoles(pieces: seq<Piece>) {
    forall i | 0 <= i < |pieces| :: pieces[i].Text?
  }

  lemma {:induction false} NoHolesNone(pieces: seq<Piece>)
    requires NoHoles(pieces)
    ensures Holes(pieces) == 0
  {
    if pieces != [] {
      NoHolesNone(pieces[1..]);
    }
  }

  lemma {:induction false} HolesApart(a: seq<Piece>, b: seq<Piece>)
    ensures Holes(a + b) == Holes(a) + Holes(b)
  {
    if a == [] {
      assert a + b == b;
    } else {
      HolesApart(a[1..], b);
      assert (a + b)[1..] == a[1..] + b;
    }
  }

  // Pieces side by side use the buffer side by side.
  lemma {:induction false} BytesApart(a: seq<Piece>, b: seq<Piece>, x: string, y: string)
    requires Holes(a) == |x| && Holes(b) <= |y|
    ensures Holes(a + b) == Holes(a) + Holes(b)
    ensures Bytes(a + b, x + y) == Bytes(a, x) + Bytes(b, y)
  {
    HolesApart(a, b);
    if a == [] {
      assert a + b == b && x + y == y && Bytes(a, x) + Bytes(b, y) == Bytes(b, y);
    } else {
      assert (a + b)[1..] == a[1..] + b && (a + b)[0] == a[0];
      match a[0]
      case Hole(len) =>
        BytesApart(a[1..], b, x[len..], y);
        var rest := Bytes(a[1..], x[len..]);
        assert Bytes(a, x) == x[..len] + rest;
        HoleFirst(a + b, x + y, len, x[..len], x[len..] + y);
        hide Bytes, Holes;
        Associates(x[..len], rest, Bytes(b, y));
      case Text(bytes) =>
        BytesApart(a[1..], b, x, y);
        var rest := Bytes(a[1..], x);
        assert Bytes(a, x) == bytes + rest;
        TextFirst(a + b, bytes, x + y);
        hide Bytes, Holes;
        Associates(bytes, rest, Bytes(b, y));
    }
  }

  lemma HoleFirst(pieces: seq<Piece>, buffer: string, len: nat, x: string, y: string)
    requires pieces != [] && pieces[0] == Hole(len) && len == |x| && buffer == x + y && Holes(pieces) <= |buffer|
    ensures Holes(pieces[1..]) <= |y| && Bytes(pieces, buffer) == x + Bytes(pieces[1..], y)
  {
    assert buffer[..len] == x && buffer[len..] == y;
  }

  lemma TextFirst(pieces: seq<Piece>, bytes: string, buffer: string)
    requires pieces != [] && pieces[0] == Text(bytes) && Holes(pieces) <= |buffer|
    ensures Holes(pieces[1..]) <= |buffer| && Bytes(pieces, buffer) == bytes + Bytes(pieces[1..], buffer)
  {
  }

  lemma OneHole(len: nat, buffer: string)
    requires |buffer| == len
    ensures Holes([Hole(len)]) == len && Bytes([Hole(len)], buffer) == buffer
  {
    assert [Hole(len)][1..] == [];
    assert buffer[..len] == buffer;
  }

  lemma OneText(bytes: string, buffer: string)
    ensures Holes([Text(bytes)]) == 0 && Bytes([Text(bytes)], buffer) == bytes
  {
    assert [Text(bytes)][1..] == [];
  }

  // A new hole, and the bytes that go into it.
  lemma AppendHole(pieces: seq<Piece>, buffer: string, bytes: string)
    requires Holes(pieces) == |buffer|
    ensures Holes(pieces + [Hole(|bytes|)]) == |buffer + bytes|
    ensures Bytes(pieces + [Hole(|bytes|)], buffer + bytes) == Bytes(pieces, buffer) + bytes
  {
    OneHole(|bytes|, bytes);
    BytesApart(pieces, [Hole(|bytes|)], buffer, bytes);
  }

  // The last hole made longer instead.
  lemma WidenHole(pieces: seq<Piece>, len: nat, buffer: string, bytes: string)
    requires Holes(pieces + [Hole(len)]) == |buffer|
    ensures Holes(pieces + [Hole(len + |bytes|)]) == |buffer + bytes|
    ensures Bytes(pieces + [Hole(len + |bytes|)], buffer + bytes) == Bytes(pieces + [Hole(len)], buffer) + bytes
  {
    HolesApart(pieces, [Hole(len)]);
    OneHole(len, buffer[Holes(pieces)..]) by {
      assert Holes([Hole(len)]) == len by {
        assert [Hole(len)][1..] == [];
      }
    }
    var x, y := buffer[..Holes(pieces)], buffer[Holes(pieces)..];
    OneHole(len + |bytes|, y + bytes);
    hide Holes, Bytes;
    BytesApart(pieces, [Hole(len)], x, y);
    BytesApart(pieces, [Hole(len + |bytes|)], x, y + bytes);
    assert x + y == buffer;
    Associates(x, y, bytes);
    Associates(Bytes(pieces, x), y, bytes);
  }

  lemma AppendText(pieces: seq<Piece>, buffer: string, bytes: string)
    requires Holes(pieces) == |buffer|
    ensures Holes(pieces + [Text(bytes)]) == |buffer|
    ensures Bytes(pieces + [Text(bytes)], buffer) == Bytes(pieces, buffer) + bytes
  {
    OneText(bytes, []);
    BytesApart(pieces, [Text(bytes)], buffer, []);
    assert buffer + [] == buffer;
  }

  // ---- Sending from the front ----

  ghost predicate Sent(pieces: seq<Piece>) {
    forall i | 0 <= i < |pieces| :: pieces[i] == Text([])
  }

  lemma {:induction false} SentIsNothing(pieces: seq<Piece>, buffer: string)
    requires Sent(pieces)
    ensures Holes(pieces) == 0 && Bytes(pieces, buffer) == []
  {
    if pieces != [] {
      SentIsNothing(pieces[1..], buffer);
    }
  }

  lemma SentSkipped(pieces: seq<Piece>, k: nat)
    requires k <= |pieces| && Sent(pieces[..k]) && NoHoles(pieces)
    ensures Holes(pieces) == Holes(pieces[k..]) == 0 && Bytes(pieces, []) == Bytes(pieces[k..], [])
  {
    SentIsNothing(pieces[..k], []);
    NoHolesNone(pieces[k..]);
    BytesApart(pieces[..k], pieces[k..], [], []);
    assert pieces[..k] + pieces[k..] == pieces;
    var none: string := [];
    assert none + none == none;
  }

  // Part of the first piece not sent yet goes out.
  lemma SendFrom(pieces: seq<Piece>, k: nat, n: nat)
    requires k < |pieces| && Sent(pieces[..k]) && NoHoles(pieces) && pieces[k].Text? && n <= |pieces[k].bytes|
    ensures Holes(pieces) == 0 && |pieces[k].bytes| <= |Bytes(pieces, [])|
    ensures var pieces' := pieces[k := Text(pieces[k].bytes[n..])];
      NoHoles(pieces') && Holes(pieces') == 0 && Bytes(pieces', []) == Bytes(pieces, [])[n..]
  {
    var text, rest := pieces[k].bytes, pieces[k..][1..];
    var pieces' := pieces[k := Text(text[n..])];
    assert pieces'[..k] == pieces[..k] && pieces'[k..][1..] == rest && NoHoles(pieces');
    SentSkipped(pieces, k);
    SentSkipped(pieces', k);
    TextFirst(pieces[k..], text, []);
    TextFirst(pieces'[k..], text[n..], []);
    hide *;
    DropFront(text, Bytes(rest, []), n);
  }

  lemma DropFront(text: string, rest: string, n: nat)
    requires n <= |text|
    ensures (text + rest)[n..] == text[n..] + rest && |text| <= |text + rest|
  {
  }

  lemma {:induction false} NothingLeft(pieces: seq<Piece>)
    requires NoHoles(pieces) && Holes(pieces) == 0 && Bytes(pieces, []) == []
    ensures Sent(pieces)
  {
    if pieces != [] {
      NothingLeft(pieces[1..]);
    }
  }
}

module MishLine {
  const MISH_MAX_LINE_SIZE := 0xffff

  // mish_line_t, as far as sending goes. The bytes follow the header in the same allocation, so a
  // realloc makes a new object; size is a 16-bit field.
  class Line {
    var size: nat
    var len: nat
    var done: nat
    const line: array<char>

    ghost predicate Valid()
      reads this
    {
      len <= size <= line.Length
    }

    constructor (capacity: nat, size: nat, len: nat, done: nat)
      requires len <= size <= capacity
      ensures Valid() && fresh(line) && line.Length == capacity
      ensures this.size == size && this.len == len && this.done == done
    {
      this.size, this.len, this.done := size, len, done;
      line := new char[capacity];
    }
  }

  function AtLeast40(count: nat): nat {
    if count < 40 then 40 else count
  }

  // _mish_line_reserve. It refuses once the size gets near the maximum, even if there is room.
  method Reserve(line: Line?, count: nat) returns (r: Line, err: int)
    requires line != null ==> line.Valid()
    ensures r.Valid() && r.len == (if line == null then 0 else line.len)
    ensures r.done == (if line == null then 0 else line.done)
    ensures line != null ==> r.line[..r.len] == line.line[..line.len]
    ensures err == 0 ==> r.size - r.len >= AtLeast40(count)
    ensures err == 0 <==>
      (if line == null then AtLeast40(count) % 0x1_0000 else line.size) + AtLeast40(count) < MISH_MAX_LINE_SIZE
    ensures err != 0 && line != null ==> r == line
    ensures r == line || (fresh(r) && fresh(r.line))
  {
    var count := AtLeast40(count);
    var l: Line;
    if line == null {
      l := new Line(count, count % 0x1_0000, 0, 0);
    } else {
      l := line;
    }
    if l.size + count >= MISH_MAX_LINE_SIZE {
      return l, 1;
    }
    if l.size - l.len < count {
      r := new Line(l.size + count, l.size + count, l.len, l.done);
      forall i | 0 <= i < l.len {
        r.line[i] := l.line[i];
      }
    } else {
      r := l;
    }
    err := 0;
  }
}

module MishSend {
  import opened Basics
  import opened MishLine
  import opened MishPieces

  // iov_base: not known yet, or a pointer into a sequence buffer or into a line of the backlog.
  datatype Base = Null | InSequence(buffer: array<char>, at: nat) | InLine(text: string, from: nat)

  datatype IoVec = IoVec(base: Base, len: nat)

  // What writev, or errno after it, says.
  datatype Writev = Wrote(n: nat) | WouldBlock | Failed

  // The output of a client as a value: the vectors in use, and the sequence buffer.
  datatype View = View(ios: seq<IoVec>, current: array?<char>, contents: string, len: nat, locked: bool)

  ghost predicate IoOk(v: View, io: IoVec) {
    match io.base
    case Null => !v.locked && v.current != null
    // no pointer outlives the allocation it points into
    case InSequence(buffer, at) => v.locked && buffer == v.current && at + io.len <= |v.contents|
    case InLine(text, from) => from + io.len <= |text|
  }

  ghost function PieceOf(v: View, io: IoVec): Piece
    requires IoOk(v, io)
  {
    match io.base
    case Null => Hole(io.len)
    case InSequence(_, at) => Text(v.contents[at..at + io.len])
    case InLine(text, from) => Text(text[from..from + io.len])
  }

  ghost predicate AllOk(v: View) {
    forall i | 0 <= i < |v.ios| :: IoOk(v, v.ios[i])
  }

  ghost function Pieces(v: View): seq<Piece>
    requires AllOk(v)
  {
    seq(|v.ios|, i requires 0 <= i < |v.ios| => PieceOf(v, v.ios[i]))
  }

  ghost function Buffered(v: View): string
    requires v.len <= |v.contents|
  {
    if v.locked then [] else v.contents[..v.len]
  }

  ghost predicate Good(v: View) {
    v.len <= |v.contents| && AllOk(v) && Holes(Pieces(v)) == |Buffered(v)|
  }

  // Every vector has its place.
  ghost predicate Solid(v: View)
    ensures Solid(v) ==> Good(v)
  {
    Good(v) && NoHoles(Pieces(v))
  }

  // What has been queued and not sent yet.
  ghost function PendingIn(v: View): string
    requires Good(v)
  {
    Bytes(Pieces(v), Buffered(v))
  }

  // ---- The steps on that value ----

  // More of the sequence buffer: the last vector if it is a hole, a new one if not.
  function Extended(ios: seq<IoVec>, n: nat): seq<IoVec> {
    var last := |ios| - 1;
    if ios != [] && ios[last].base.Null? then ios[last := IoVec(Null, ios[last].len + n)]
    else ios + [IoVec(Null, n)]
  }

  // Every hole gets its place in the buffer.
  function Located(ios: seq<IoVec>, buffer: array<char>, at: nat): (r: seq<IoVec>)
    ensures |r| == |ios|
  {
    if ios == [] then []
    else if ios[0].base.Null? then
      [IoVec(InSequence(buffer, at), ios[0].len)] + Located(ios[1..], buffer, at + ios[0].len)
    else [ios[0]] + Located(ios[1..], buffer, at)
  }

  function Advance(io: IoVec, n: nat): IoVec
    requires n <= io.len
  {
    match io.base
    case Null => io
    case InSequence(buffer, at) => IoVec(InSequence(buffer, at + n), io.len - n)
    case InLine(text, from) => IoVec(InLine(text, from + n), io.len - n)
  }

  lemma QueueSequence(v: View, v': View, bytes: string)
    requires Good(v) && !v.locked && !v'.locked && v'.current != null
    requires v'.ios == Extended(v.ios, |bytes|) && v'.len == v.len + |bytes| <= |v'.contents|
    requires v'.contents[..v.len] == v.contents[..v.len] && v'.contents[v.len..v'.len] == bytes
    ensures Good(v') && PendingIn(v') == PendingIn(v) + bytes
  {
    var buffer := v.contents[..v.len];
    assert v'.contents[..v'.len] == buffer + bytes;
    SameKinds(v, v');
    var ps, k := Pieces(v), |v.ios| - 1;
    if v.ios != [] && v.ios[k].base.Null? {
      assert ps == ps[..k] + [Hole(v.ios[k].len)];
      assert Pieces(v') == ps[..k] + [Hole(v.ios[k].len + |bytes|)];
      hide PieceOf, IoOk, Holes, Bytes;
      WidenHole(ps[..k], v.ios[k].len, buffer, bytes);
    } else {
      assert Pieces(v') == ps + [Hole(|bytes|)];
      hide PieceOf, IoOk, Holes, Bytes;
      AppendHole(ps, buffer, bytes);
    }
  }

  // What a sequence of length l finds when it comes to be copied.
  ghost predicate Prepared(v: View, v': View, l: nat)
    requires v.len <= |v.contents|
  {
    && v'.ios == Extended(v.ios, l) && !v'.locked && v'.current != null
    && v'.len == v.len + l < |v'.contents| && v'.contents[..v.len] == v.contents[..v.len]
  }

  lemma CopiedIn(v: View, prepared: View, contents: string, bytes: string)
    requires Good(v) && !v.locked && Prepared(v, prepared, |bytes|) && |contents| == |prepared.contents|
    requires contents[..v.len] == prepared.contents[..v.len] && contents[v.len..prepared.len] == bytes
    ensures var v' := prepared.(contents := contents); Good(v') && PendingIn(v') == PendingIn(v) + bytes
  {
    hide Good, PendingIn, Extended;
    QueueSequence(v, prepared.(contents := contents), bytes);
  }

  // Without pointers into the sequence buffer, nothing depends on where it is.
  lemma SameKinds(v: View, v': View)
    requires AllOk(v) && !v.locked && !v'.locked && v'.current != null
    requires |v.ios| <= |v'.ios|
    ensures forall i | 0 <= i < |v.ios| :: IoOk(v', v.ios[i]) && PieceOf(v', v.ios[i]) == PieceOf(v, v.ios[i])
  {
  }

  lemma QueueLine(v: View, text: string)
    requires Good(v)
    ensures var v' := v.(ios := v.ios + [IoVec(InLine(text, 0), |text|)]);
      Good(v') && PendingIn(v') == PendingIn(v) + text
  {
    var v' := v.(ios := v.ios + [IoVec(InLine(text, 0), |text|)]);
    assert text[0..|text|] == text;
    assert Pieces(v') == Pieces(v) + [Text(text)];
    AppendText(Pieces(v), Buffered(v), text);
  }

  ghost function PiecesOf(v: View, ios: seq<IoVec>): seq<Piece>
    requires AllOk(v.(ios := ios))
  {
    Pieces(v.(ios := ios))
  }

  lemma FirstPiece(v: View, ios: seq<IoVec>)
    requires AllOk(v.(ios := ios)) && ios != []
    ensures IoOk(v, ios[0]) && AllOk(v.(ios := ios[1..]))
    ensures PiecesOf(v, ios) == [PieceOf(v, ios[0])] + PiecesOf(v, ios[1..])
  {
    var w, w' := v.(ios := ios), v.(ios := ios[1..]);
    assert IoOk(w, ios[0]);
    forall i | 0 <= i < |ios[1..]|
      ensures IoOk(w', ios[1..][i])
    {
      assert IoOk(w, ios[i + 1]);
    }
  }

  lemma {:induction false} LockFrom(v: View, ios: seq<IoVec>, at: nat)
    requires !v.locked && v.current != null && v.len <= |v.contents| && at <= v.len && AllOk(v.(ios := ios))
    requires Holes(PiecesOf(v, ios)) == v.len - at
    ensures var w, ios' := v.(locked := true), Located(ios, v.current, at);
      && AllOk(w.(ios := ios')) && NoHoles(PiecesOf(w, ios')) && Holes(PiecesOf(w, ios')) == 0
      && Bytes(PiecesOf(w, ios'), []) == Bytes(PiecesOf(v, ios), v.contents[at..v.len])
  {
    var w, ios' := v.(locked := true), Located(ios, v.current, at);
    if ios != [] {
      FirstPiece(v, ios);
      var next := if ios[0].base.Null? then at + ios[0].len else at;
      LockFrom(v, ios[1..], next);
      assert ios'[1..] == Located(ios[1..], v.current, next);
      JoinFirst(w, ios');
      FirstPiece(w, ios');
      LockFirst(v, ios[0], ios'[0], at, next, PiecesOf(v, ios[1..]), PiecesOf(w, ios'[1..]));
    }
  }

  lemma LockFirst(v: View, io: IoVec, io': IoVec, at: nat, next: nat, rest: seq<Piece>, rest': seq<Piece>)
    requires v.len <= |v.contents| && at <= next <= v.len && IoOk(v, io) && !v.locked
    requires if io.base.Null? then next == at + io.len && io' == IoVec(InSequence(v.current, at), io.len)
             else next == at && io' == io
    requires Holes(rest) == v.len - next && NoHoles(rest') && Holes(rest') == 0
    requires Bytes(rest', []) == Bytes(rest, v.contents[next..v.len])
    ensures IoOk(v.(locked := true), io')
    ensures var ps, ps' := [PieceOf(v, io)] + rest, [PieceOf(v.(locked := true), io')] + rest';
      && Holes(ps) == v.len - at && NoHoles(ps') && Holes(ps') == 0
      && Bytes(ps', []) == Bytes(ps, v.contents[at..v.len])
  {
    var p, p' := PieceOf(v, io), PieceOf(v.(locked := true), io');
    var ps, ps' := [p] + rest, [p'] + rest';
    assert ps[1..] == rest && ps'[1..] == rest';
    var x, y := v.contents[at..next], v.contents[next..v.len];
    assert x + y == v.contents[at..v.len];
    TextFirst(ps', p'.bytes, []);
    if io.base.Null? {
      assert p' == Text(x) && p == Hole(|x|);
      hide PieceOf, IoOk, Bytes;
      HoleFirst(ps, x + y, |x|, x, y);
    } else {
      assert p' == p && x == [];
      hide PieceOf, IoOk, Bytes;
      TextFirst(ps, p.bytes, y);
    }
  }

  lemma JoinFirst(v: View, ios: seq<IoVec>)
    requires ios != [] && IoOk(v, ios[0]) && AllOk(v.(ios := ios[1..]))
    ensures AllOk(v.(ios := ios))
  {
    var w, w' := v.(ios := ios), v.(ios := ios[1..]);
    forall i | 0 <= i < |ios|
      ensures IoOk(w, ios[i])
    {
      if i > 0 {
        assert IoOk(w', ios[1..][i - 1]);
      }
    }
  }

  lemma LockKeeps(v: View)
    requires Good(v) && !v.locked && v.current != null
    ensures var v' := v.(ios := Located(v.ios, v.current, 0), locked := true);
      Solid(v') && PendingIn(v') == PendingIn(v)
  {
    assert v.(ios := v.ios) == v;
    LockFrom(v, v.ios, 0);
  }

  lemma SendSome(v: View, k: nat, n: nat)
    requires Solid(v) && k < |v.ios| && n <= v.ios[k].len
    requires forall i | 0 <= i < k :: v.ios[i].len == 0
    ensures v.ios[k].len <= |PendingIn(v)|
    ensures var v' := v.(ios := v.ios[k := Advance(v.ios[k], n)]);
      Solid(v') && PendingIn(v') == PendingIn(v)[n..]
  {
    var v' := v.(ios := v.ios[k := Advance(v.ios[k], n)]);
    var ps := Pieces(v);
    NoHolesNone(ps);
    assert PieceOf(v, v.ios[k]) == ps[k] && ps[k].Text?;
    AdvanceDrops(v, v.ios[k], n);
    EmptyAreSent(v, k);
    OthersStay(v, k, Advance(v.ios[k], n));
    hide Holes, Bytes, PieceOf, IoOk, AllOk, Advance;
    SendFrom(ps, k, n);
    assert Pieces(v') == ps[k := Text(ps[k].bytes[n..])];
    NoHolesNone(Pieces(v'));
  }

  lemma EmptyAreSent(v: View, k: nat)
    requires AllOk(v) && NoHoles(Pieces(v)) && k <= |v.ios| && forall i | 0 <= i < k :: v.ios[i].len == 0
    ensures Sent(Pieces(v)[..k])
  {
    forall i | 0 <= i < k
      ensures Pieces(v)[i] == Text([])
    {
      assert Pieces(v)[i].Text?;
    }
  }

  lemma OthersStay(v: View, k: nat, io: IoVec)
    requires AllOk(v) && k < |v.ios| && IoOk(v, io)
    ensures var v' := v.(ios := v.ios[k := io]);
      AllOk(v') && Pieces(v') == Pieces(v)[k := PieceOf(v, io)]
  {
    var v' := v.(ios := v.ios[k := io]);
    forall i | 0 <= i < |v'.ios|
      ensures IoOk(v', v'.ios[i])
    {
      assert IoOk(v, v.ios[i]);
    }
  }

  lemma AdvanceDrops(v: View, io: IoVec, n: nat)
    requires IoOk(v, io) && PieceOf(v, io).Text? && n <= io.len
    ensures |PieceOf(v, io).bytes| == io.len
    ensures IoOk(v, Advance(io, n)) && PieceOf(v, Advance(io, n)) == Text(PieceOf(v, io).bytes[n..])
  {
  }

  lemma AllZeroIsNothing(v: View)
    requires Solid(v)
    ensures (forall i | 0 <= i < |v.ios| :: v.ios[i].len == 0) <==> PendingIn(v) == []
  {
    var ps := Pieces(v);
    NoHolesNone(ps);
    forall i | 0 <= i < |ps|
      ensures v.ios[i].len == 0 <==> ps[i] == Text([])
    {
      assert ps[i].Text?;
      AdvanceDrops(v, v.ios[i], 0);
    }
    if PendingIn(v) == [] {
      NothingLeft(ps);
    } else if Sent(ps) {
      SentIsNothing(ps, []);
    }
  }

  // mish_client_t.output, with what else of the client and of the select loop a flush looks at.
  class Output {
    var v: array<IoVec>
    var count: nat
    var sqb: Line?
    var total: nat
    // FD_ISSET(fd, &select.write)
    var writable: bool
    // c->sending
    var sending: bool
    // history: all bytes queued and not given up, and all bytes handed to writev
    ghost var queued: string
    ghost var sent: string

    ghost function Lines(): set<object>
      reads this
    {
      if sqb == null then {} else {sqb, sqb.line}
    }

    ghost predicate Apart()
      reads this
    {
      sqb == null || sqb.line as object != v as object
    }

    ghost predicate Locked()
      reads this, Lines()
    {
      sqb != null && sqb.done != 0
    }

    ghost function Value(): View
      requires count <= v.Length
      reads this, v, Lines()
    {
      if sqb == null then View(v[..count], null, [], 0, false)
      else View(v[..count], sqb.line, sqb.line[..], sqb.len, sqb.done != 0)
    }

    ghost predicate Valid()
      reads this, v, Lines()
    {
      && count <= v.Length && (sqb != null ==> sqb.Valid()) && Apart()
      && Good(Value()) && sent + PendingIn(Value()) == queued
    }

    ghost function Pending(): string
      requires Valid()
      reads this, v, Lines()
    {
      PendingIn(Value())
    }

    constructor ()
      ensures Valid() && Pending() == [] && sent == [] && !Locked()
    {
      v := new IoVec[0];
      count, sqb, total := 0, null, 0;
      writable, sending := false, false;
      queued, sent := [], [];
    }

    // Room for one more vector.
    method GrowVector()
      requires count <= v.Length
      modifies this`v
      ensures count < v.Length && v[..count] == old(v[..count]) && (v == old(v) || fresh(v))
    {
      if count == v.Length {
        var larger := new IoVec[v.Length + 8](_ => IoVec(Null, 0));
        forall i | 0 <= i < count {
          larger[i] := v[i];
        }
        v := larger;
      }
    }

    // The reserve succeeds, or there is room already.
    ghost predicate Reservable(l: nat)
      reads this, Lines()
    {
      var needed := AtLeast40(l + 1);
      if sqb == null then 2 * needed < MISH_MAX_LINE_SIZE
      else sqb.size + needed < MISH_MAX_LINE_SIZE || sqb.size - sqb.len >= l + 1
    }

    ghost predicate Ready()
      reads this, Lines()
      ensures Ready() ==> count <= v.Length
    {
      count <= v.Length && (sqb != null ==> sqb.Valid()) && Apart()
    }

    // What is in the sequence buffer.
    ghost function Sequence(): string
      requires Ready()
      reads this, Lines()
    {
      if sqb == null then [] else sqb.line[..sqb.len]
    }

    // The sequence buffer, grown to take n more bytes; it may have moved.
    method ReserveSequence(n: nat)
      requires Ready() && !Locked() && n > 0 && Reservable(n - 1)
      modifies this`sqb
      ensures Ready() && !Locked() && sqb != null && sqb.len + n <= sqb.size
      ensures Sequence() == old(Sequence())
      ensures sqb == old(sqb) || (fresh(sqb) && fresh(sqb.line))
    {
      var err;
      sqb, err := Reserve(sqb, n);
    }

    // The last vector if it is a hole, a new one if not.
    method AddHole(l: nat)
      requires count <= v.Length
      modifies this`v, this`count, v
      ensures count <= v.Length && v[..count] == Extended(old(v[..count]), l)
      ensures v == old(v) || fresh(v)
    {
      ghost var ios := v[..count];
      GrowVector();
      if count != 0 && v[count - 1].base.Null? {
        v[count - 1] := IoVec(Null, v[count - 1].len + l);
        assert v[..count] == ios[count - 1 := v[count - 1]];
      } else {
        v[count] := IoVec(Null, l);
        count := count + 1;
        assert v[..count] == ios + [IoVec(Null, l)];
      }
    }

    // _mish_send_prep: a place for l bytes, and one more for the zero that strcpy puts after them.
    method Prep(l: nat) returns (at: nat)
      requires Ready() && !Locked() && Reservable(l)
      modifies this`v, this`count, this`sqb, this`total, v, Lines()
      ensures Ready() && sqb != null && !Locked()
      ensures at == old(Value().len) && Prepared(old(Value()), Value(), l)
      ensures total == old(total) + l
      ensures (v == old(v) || fresh(v)) && (sqb == old(sqb) || (fresh(sqb) && fresh(sqb.line)))
    {
      hide Extended;
      total := total + l;
      ReserveSequence(l + 1);
      at := sqb.len;
      sqb.len := sqb.len + l;
      ghost var contents := sqb.line[..];
      AddHole(l);
      assert sqb.line[..] == contents;
      assert contents[..at] == sqb.line[..at];
    }

    // strcpy
    method CopyIn(at: nat, b: string)
      requires Ready() && sqb != null && at + |b| < sqb.line.Length
      modifies sqb.line
      ensures sqb.line[..at] == old(sqb.line[..at]) && sqb.line[at..at + |b|] == b
      ensures Ready() && Value() == old(Value()).(contents := sqb.line[..])
    {
      ghost var ios := v[..count];
      forall i | 0 <= i < |b| {
        sqb.line[at + i] := b[i];
      }
      sqb.line[at + |b|] := '\0';
      assert v[..count] == ios;
    }

    // _mish_send_queue
    method Queue(b: string)
      requires Valid() && !Locked() && Reservable(|b|)
      modifies this, v, Lines()
      ensures Valid() && !Locked()
      ensures Pending() == old(Pending()) + b && queued == old(queued) + b && sent == old(sent)
      ensures total == old(total) + |b|
    {
      ghost var was := Value();
      hide Good, PendingIn, Extended, Prepared, Value, Reservable;
      var at := Prep(|b|);
      Fill(at, b, was);
      MoreQueued(sent, PendingIn(was), b);
      queued := queued + b;
    }

    method Fill(at: nat, b: string, ghost was: View)
      requires Ready() && sqb != null && !Locked() && Good(was) && !was.locked && was.len <= |was.contents|
      requires at == was.len && Prepared(was, Value(), |b|)
      modifies sqb.line
      ensures Ready() && !Locked() && Good(Value()) && PendingIn(Value()) == PendingIn(was) + b
    {
      hide Good, PendingIn, Extended;
      ghost var prepared := Value();
      CopyIn(at, b);
      CopiedIn(was, prepared, sqb.line[..], b);
    }

    lemma MoreQueued(sent: string, pending: string, b: string)
      ensures sent + (pending + b) == sent + pending + b
    {
    }

    // _mish_send_queue_line: locked or not.
    method QueueBacklog(text: string)
      requires Valid()
      modifies this, v
      ensures Valid() && Locked() == old(Locked())
      ensures Pending() == old(Pending()) + text && queued == old(queued) + text && sent == old(sent)
      ensures total == old(total) + |text|
    {
      ghost var was := Value();
      QueueLine(was, text);
      hide Good, PendingIn;
      MoreQueued(sent, PendingIn(was), text);
      GrowVector();
      v[count] := IoVec(InLine(text, 0), |text|);
      count := count + 1;
      total := total + |text|;
      queued := queued + text;
      assert v[..count] == was.ios + [IoVec(InLine(text, 0), |text|)];
    }

    // The first part of _mish_send_flush.
    method Lock()
      requires Valid()
      modifies v, Lines()
      ensures Valid() && Pending() == old(Pending()) && Solid(Value())
      ensures sqb != null ==> Locked() && sqb.len == old(sqb.len)
      ensures EndsEmpty() == old(EndsEmpty())
    {
      ghost var was := Value();
      if sqb != null && sqb.done == 0 {
        LockKeeps(was);
        LocatedEnd(was.ios, sqb.line, 0);
        hide Good, PendingIn, Located;
        Locate();
        sqb.done := 1;
        assert Value() == was.(ios := Located(was.ios, was.current, 0), locked := true);
      } else {
        UnlockedHasHoles(was);
      }
    }

    // The last vector has nothing to send.
    ghost predicate EndsEmpty()
      requires count <= v.Length
      reads this, v
    {
      LastEmpty(v[..count])
    }

    ghost predicate LastEmpty(ios: seq<IoVec>) {
      ios != [] && ios[|ios| - 1].len == 0
    }

    lemma AdvancedEnd(ios: seq<IoVec>, first: nat, b: nat)
      requires first < |ios| && b <= ios[first].len && !ios[first].base.Null?
      ensures var ios' := ios[first := Advance(ios[first], b)];
        if first + 1 < |ios| then LastEmpty(ios') == LastEmpty(ios) else LastEmpty(ios') <==> ios[first].len == b
    {
    }

    // With something to send, an empty vector at the end is not the first that is left.
    lemma EndIsLater(w: View, first: nat)
      requires Good(w) && Solid(w) && PendingIn(w) != [] && first < |w.ios|
      requires forall i | 0 <= i < first :: w.ios[i].len == 0
      ensures LastEmpty(w.ios) ==> first + 1 < |w.ios|
      ensures !w.ios[first].base.Null?
    {
      AllZeroIsNothing(w);
      assert Pieces(w)[first].Text?;
      hide Good, Solid, PendingIn;
      var i :| 0 <= i < |w.ios| && w.ios[i].len != 0;
      assert first <= i;
    }

    lemma {:induction false} LocatedEnd(ios: seq<IoVec>, buffer: array<char>, at: nat)
      ensures |Located(ios, buffer, at)| == |ios|
      ensures ios != [] ==> Located(ios, buffer, at)[|ios| - 1].len == ios[|ios| - 1].len
    {
      if ios != [] {
        LocatedEnd(ios[1..], buffer, if ios[0].base.Null? then at + ios[0].len else at);
      }
    }

    lemma UnlockedHasHoles(w: View)
      requires Good(w) && (w.locked || w.current == null)
      ensures Solid(w)
    {
      forall i | 0 <= i < |w.ios|
        ensures Pieces(w)[i].Text?
      {
        assert IoOk(w, w.ios[i]);
      }
    }

    method Locate()
      requires Ready() && sqb != null
      modifies v
      ensures v[..count] == Located(old(v[..count]), sqb.line, 0)
      ensures sqb.line[..] == old(sqb.line[..])
    {
      ghost var ios, line := v[..count], sqb.line;
      assert count <= v.Length && line as object != v as object;
      hide Located, Ready, Apart, SoFar;
      var base: nat := 0;
      var i := 0;
      LocatedSoFar(ios, line, 0);
      while i < count
        invariant i <= count
        invariant SoFar(v[..count], i, line, base) == Located(ios, line, 0)
      {
        ghost var now, at := v[..count], base;
        if v[i].base.Null? {
          v[i] := IoVec(InSequence(sqb.line, base), v[i].len);
          base := base + v[i].len;
        }
        assert v[..count] == now[i := Placed(now[i], line, at)];
        LocatedStep(now, i, line, at);
        i := i + 1;
      }
      LocatedAll(v[..count], line, base);
    }

    // The first i vectors are placed, the others still to be.
    ghost function SoFar(ios: seq<IoVec>, i: nat, buffer: array<char>, at: nat): seq<IoVec>
      requires i <= |ios|
    {
      ios[..i] + Located(ios[i..], buffer, at)
    }

    function Placed(io: IoVec, buffer: array<char>, at: nat): IoVec {
      if io.base.Null? then IoVec(InSequence(buffer, at), io.len) else io
    }

    lemma LocatedSoFar(ios: seq<IoVec>, buffer: array<char>, at: nat)
      ensures SoFar(ios, 0, buffer, at) == Located(ios, buffer, at)
    {
      assert ios[0..] == ios && [] + Located(ios, buffer, at) == Located(ios, buffer, at);
    }

    lemma LocatedAll(ios: seq<IoVec>, buffer: array<char>, at: nat)
      ensures SoFar(ios, |ios|, buffer, at) == ios
    {
      assert ios[|ios|..] == [] && ios[..|ios|] == ios;
    }

    lemma LocatedStep(ios: seq<IoVec>, i: nat, buffer: array<char>, at: nat)
      requires i < |ios|
      ensures SoFar(ios[i := Placed(ios[i], buffer, at)], i + 1, buffer,
                    if ios[i].base.Null? then at + ios[i].len else at)
        == SoFar(ios, i, buffer, at)
    {
      var placed, next := Placed(ios[i], buffer, at), if ios[i].base.Null? then at + ios[i].len else at;
      var ios', rest := ios[i := placed], ios[i + 1..];
      assert ios[i..][1..] == rest && ios'[i + 1..] == rest && ios'[..i + 1] == ios[..i] + [placed];
      assert Located(ios[i..], buffer, at) == [placed] + Located(rest, buffer, next);
      Associates(ios[..i], [placed], Located(rest, buffer, next));
    }

    // The vectors that are done, and then n more bytes off the front; first is where it stops.
    method TakeOff(n: nat) returns (first: nat)
      requires Valid() && Solid(Value()) && n <= |Pending()|
      modifies v, this`sent
      ensures Valid()
      ensures sent == old(sent) + old(Pending())[..n] && Pending() == old(Pending())[n..]
      ensures first <= count && (first == count ==> Pending() == [])
      ensures old(Pending()) == [] ==> first == count
      ensures 0 < n == |old(Pending())| ==> (first == count <==> !old(EndsEmpty()))
    {
      ghost var pending := Pending();
      hide Good, PendingIn, Solid;
      first := Consume(n);
      Carry(sent, pending, n);
      sent := sent + pending[..n];
    }

    method Consume(n: nat) returns (first: nat)
      requires Ready() && Solid(Value()) && n <= |PendingIn(Value())|
      modifies v
      ensures Ready() && Solid(Value()) && PendingIn(Value()) == old(PendingIn(Value()))[n..]
      ensures first <= count && (first == count ==> PendingIn(Value()) == [])
      ensures old(PendingIn(Value())) == [] ==> first == count
      ensures 0 < n == |old(PendingIn(Value()))| ==> (first == count <==> !old(EndsEmpty()))
    {
      ghost var pending := PendingIn(Value());
      AllZeroIsNothing(Value());
      first := SkipDone();
      assert Ready() && Solid(Value()) && PendingIn(Value()) == pending && Done(first);
      assert pending == [] ==> first == count;
      hide Good, PendingIn, Solid, Value, Ready, Done, EndsEmpty;
      first := TakeAll(first, n);
      DoneIsNothing();
      NothingIsDone();
    }

    // The last vector, if it was empty, is not reached; otherwise it is empty only when it is done.
    ghost predicate EndKept(ended: bool, first: nat, start: bool)
      requires count <= v.Length
      reads this, v
    {
      && (ended ==> EndsEmpty() && (start || first < count))
      && (!ended && first < count ==> !EndsEmpty())
    }

    method TakeAll(start: nat, n: nat) returns (first: nat)
      requires Ready() && Solid(Value()) && n <= |PendingIn(Value())| && Done(start)
      requires PendingIn(Value()) == [] ==> start == count
      modifies v
      ensures Ready() && Solid(Value()) && PendingIn(Value()) == old(PendingIn(Value()))[n..]
      ensures first <= count && Done(first) && (old(PendingIn(Value())) == [] ==> first == count)
      ensures EndKept(old(EndsEmpty()), first, n == 0)
    {
      ghost var pending, ended := PendingIn(Value()), EndsEmpty();
      assert StillPending(pending, start) && EndKept(ended, start, true);
      hide Good, PendingIn, Solid, Value, Ready, Done, EndsEmpty, StillPending, EndKept;
      first := start;
      var got: nat := n;
      while got > 0
        invariant first <= count && got <= n <= |pending|
        invariant StillPending(pending[n - got..], first) && EndKept(ended, first, got == n)
        invariant pending == [] ==> first == count
        decreases count - first + got
      {
        var b: nat;
        b, first := TakeOne(first, got, pending[n - got..], ended, got == n);
        Dropped(pending, n - got, b);
        got := got - b;
      }
      WhatIsPending(pending[n..], first);
    }

    // This is left to send, and the vectors before first are done.
    ghost predicate StillPending(rest: string, first: nat)
      reads this, v, Lines()
    {
      Ready() && Solid(Value()) && PendingIn(Value()) == rest && Done(first)
    }

    lemma WhatIsPending(rest: string, first: nat)
      requires StillPending(rest, first)
      ensures Ready() && Solid(Value()) && PendingIn(Value()) == rest && Done(first)
    {
    }

    lemma Dropped(pending: string, k: nat, b: nat)
      requires k + b <= |pending|
      ensures pending[k..][b..] == pending[k + b..]
    {
    }

    lemma Carry(sent: string, pending: string, n: nat)
      requires n <= |pending|
      ensures sent + pending[..n] + pending[n..] == sent + pending
    {
    }

    ghost predicate Done(first: nat)
      requires count <= v.Length
      reads this, v
      ensures Done(first) ==> first <= count
    {
      first <= count && forall i | 0 <= i < first :: v[i].len == 0
    }

    lemma DoneIsNothing()
      requires Ready() && Solid(Value())
      ensures Done(count) ==> PendingIn(Value()) == []
    {
      AllZeroIsNothing(Value());
    }

    lemma NothingIsDone()
      requires Ready() && Solid(Value())
      ensures PendingIn(Value()) == [] && count > 0 ==> EndsEmpty()
    {
      AllZeroIsNothing(Value());
    }

    // As much as there is in one vector, of what is still to be taken off.
    method TakeFromOne(first: nat, got: nat) returns (b: nat, next: nat)
      requires Ready() && Solid(Value()) && 0 < got <= |PendingIn(Value())| && Done(first)
      modifies v
      ensures Ready() && Solid(Value()) && Done(next) && first <= next <= count
      ensures b <= got && PendingIn(Value()) == old(PendingIn(Value()))[b..] && (b == 0 ==> next == first + 1)
      ensures if old(EndsEmpty()) then EndsEmpty() && next < count else next < count ==> !EndsEmpty()
    {
      ghost var now := Value();
      AllZeroIsNothing(now);
      EndIsLater(now, first);
      hide Good, PendingIn, Solid, LastEmpty;
      b := if got > v[first].len then v[first].len else got;
      SendSome(now, first, b);
      AdvancedEnd(now.ios, first, b);
      v[first] := Advance(v[first], b);
      assert v[..count] == now.ios[first := Advance(now.ios[first], b)];
      next := if v[first].len == 0 then first + 1 else first;
    }

    method TakeOne(first: nat, got: nat, ghost rest: string, ghost ended: bool, ghost start: bool)
      returns (b: nat, next: nat)
      requires StillPending(rest, first) && 0 < got <= |rest| && first <= count && count <= v.Length
      requires EndKept(ended, first, start)
      modifies v
      ensures first <= next <= count && b <= got && StillPending(rest[b..], next) && (b == 0 ==> next == first + 1)
      ensures forall again: bool :: EndKept(ended, next, again)
    {
      WhatIsPending(rest, first);
      hide Good, PendingIn, Solid, Value, Ready, Done, EndsEmpty;
      b, next := TakeFromOne(first, got);
    }

    method SkipDone() returns (first: nat)
      requires count <= v.Length
      ensures first <= count && Done(first)
      ensures first < count ==> v[first].len != 0
    {
      first := 0;
      while first < count && v[first].len == 0
        invariant Done(first)
      {
        first := first + 1;
      }
    }

    // Is there a vector with bytes to send?
    method AnythingLeft() returns (left: bool)
      requires Ready() && Solid(Value())
      ensures left <==> PendingIn(Value()) != []
    {
      AllZeroIsNothing(Value());
      hide Solid, PendingIn;
      var first := SkipDone();
      left := first < count;
    }

    // Everything is gone, or given up.
    method Finish()
      requires Ready()
      modifies this`count, this`queued, this`writable, Lines()
      ensures Valid() && count == 0 && Pending() == [] && queued == sent && !Locked()
      ensures sqb != null ==> sqb.len == 0
      ensures writable == (old(writable) && sending)
    {
      count := 0;
      queued := sent;
      if sqb != null {
        sqb.done := 0;
        sqb.len := 0;
      }
      if !sending {
        writable := false;
      }
    }

    // _mish_send_flush; result is what writev does if it comes to that.
    method Flush(result: Writev) returns (res: int)
      requires Valid() && (result.Wrote? ==> result.n <= |Pending()|)
      modifies this`count, this`queued, this`sent, this`writable, v, Lines()
      ensures Valid() && (res == 0 || res == 1)
      // what has been sent is always the front of what has been queued, and nothing goes out twice
      ensures if old(count) == 0 || !old(writable) || result.WouldBlock? then
          sent == old(sent) && Pending() == old(Pending()) && queued == old(queued)
        else if result.Wrote? then
          && sent == old(sent) + old(Pending())[..result.n] && Pending() == old(Pending())[result.n..]
          && queued == old(queued)
        else
          sent == old(sent) == queued && Pending() == []
      // zero: all gone, and ready for the next sequence
      ensures res == 0 ==> count == 0 && Pending() == [] && sent == queued
      ensures res == 0 && old(count) != 0 ==> !Locked() && (sqb != null ==> sqb.len == 0)
      // one: not before the rest has been taken
      // with nothing queued it still locks, and the next sequence would abort: callers test count
      ensures old(count) == 0 ==> res == 0 && (sqb != null ==> Locked())
      ensures res == 1 ==> count == old(count) && writable && (sqb != null ==> Locked())
      ensures old(count) != 0 && old(writable) && (old(Pending()) == [] || result.Failed?) ==> res == 0
      // a write of all there is ends it, unless empty vectors come last: they take another call
      ensures old(count) != 0 && old(writable) && result.Wrote? && 0 < result.n == |old(Pending())| ==>
        (res == 0 <==> !old(EndsEmpty()))
      // permission to write is kept for whoever is sending, but not after an error
      ensures res == 0 && old(count) != 0 ==> (writable <==> sending && !(result.Failed? && old(Pending()) != []))
      ensures old(count) == 0 ==> writable == old(writable)
    {
      hide Good, PendingIn, Solid;
      Lock();
      if count == 0 {
        NothingPending();
        return 0;
      }
      if !writable {
        writable := true;
        return 1;
      }
      var n := if result.Wrote? then result.n else 0;
      if result.Failed? {
        var left := AnythingLeft();
        if left {
          writable := false;
        }
        Finish();
        return 0;
      }
      var first := TakeOff(n);
      if first == count {
        Finish();
        return 0;
      }
      res := 1;
    }

    lemma NothingPending()
      requires Valid() && count == 0
      ensures Pending() == [] && sent == queued
    {
    }
  }
}
