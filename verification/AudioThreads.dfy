// The packet fifo of contrib/sokol_audio.h under two threads.
//
// A writer thread runs _saudio_fifo_write, a reader thread _saudio_fifo_read, and a step is one
// locked ring operation, one lock or unlock, or one byte of a memcpy. The writer copies without
// the lock, and publishes a packet before it forgets that the packet was its own; the reader hands
// a packet back before it copies it out. The two rings are taken as queues here: AudioFifo shows
// that the ring functions make them so, as long as no enqueue meets a full ring and no dequeue an
// empty one, and that is part of what is shown below.
module AudioThreads {
  import opened Basics
  import opened AudioPackets

  datatype Thread = WriterThread | ReaderThread

  datatype Lock = Free | HeldBy(thread: Thread)

  // cur_packet: -1 or a packet index.
  datatype Current = NoPacket | Packet(index: nat)

  // A write: what it was given, and num_bytes - all_to_copy, which it returns in the end.
  datatype WriteCall<T> = WriteCall(bytes: seq<T>, at: nat)

  // A read that has returned: how many packets it was asked for, and what it brought.
  datatype ReadCall<T> = ReadCall(needed: nat, out: seq<T>)

  // Where the writer stands in _saudio_fifo_write.
  datatype Writer<T> =
    | WriterIdle
    // at the test of the while loop
    | Looping(call: WriteCall<T>)
    // about to lock, to take a packet from the write queue
    | WantPacket(call: WriteCall<T>)
    | Taking(call: WriteCall<T>)
    | Taken(call: WriteCall<T>)
    // past the unlock: is there a packet now?
    | Ready(call: WriteCall<T>)
    // in the memcpy of count bytes, the first done of which are across
    | Copying(call: WriteCall<T>, count: nat, done: nat)
    // about to lock, to put the full packet on the read queue
    | WantPublish(call: WriteCall<T>)
    | Publishing(call: WriteCall<T>)
    | Published(call: WriteCall<T>)
    // past the unlock: cur_packet and cur_offset still have to be reset
    | Forgetting(call: WriteCall<T>)

  // Where the reader stands in _saudio_fifo_read; pulled is the counter of its for loop.
  datatype Reader<T> =
    | ReaderIdle
    // about to lock
    | WantRead(needed: nat)
    // locked: is the fifo valid, and does it hold enough?
    | Checking(needed: nat)
    // at the test of the for loop
    | Pulling(needed: nat, pulled: nat, out: seq<T>)
    // a packet is off the read queue
    | Requeueing(needed: nat, pulled: nat, out: seq<T>, packet: nat)
    // it is on the write queue, and its first bytes are copied out
    | CopyingOut(needed: nat, pulled: nat, out: seq<T>, packet: nat, copied: seq<T>)
    // about to unlock
    | Returning(needed: nat, out: seq<T>)

  // writeCalls and readCalls are history: the calls that have returned, in order.
  datatype State<T> = State(packetSize: nat, packets: nat, valid: bool, lock: Lock,
                            memory: seq<seq<T>>, readQueue: seq<nat>, writeQueue: seq<nat>,
                            current: Current, offset: nat, writer: Writer<T>, reader: Reader<T>,
                            writeCalls: seq<WriteCall<T>>, readCalls: seq<ReadCall<T>>)

  datatype Event<T> =
    | Initialise
    | CallWrite(bytes: seq<T>)
    | WriterMoves
    | CallRead(needed: nat)
    | ReaderMoves

  // ---- Ownership and contents ----

  // The writer has its current packet to itself from the dequeue to the enqueue.
  predicate WriterOwns<T>(s: State<T>) {
    s.current.Packet? && !s.writer.Published? && !s.writer.Forgetting?
  }

  function WriterHolds<T>(s: State<T>): multiset<nat> {
    if WriterOwns(s) then multiset{s.current.index} else multiset{}
  }

  // The packet between the reader's dequeue and its enqueue.
  function ReaderHolds<T>(s: State<T>): multiset<nat> {
    if s.reader.Requeueing? then multiset{s.reader.packet} else multiset{}
  }

  function Owned<T>(s: State<T>): multiset<nat> {
    multiset(s.writeQueue) + multiset(s.readQueue) + WriterHolds(s) + ReaderHolds(s)
  }

  ghost predicate InRange(queue: seq<nat>, n: nat) {
    forall i | 0 <= i < |queue| :: queue[i] < n
  }

  function Join<T>(memory: seq<seq<T>>, queue: seq<nat>): seq<T>
    requires InRange(queue, |memory|)
  {
    if queue == [] then [] else memory[queue[0]] + Join(memory, queue[1..])
  }

  // How much of the current packet is filled.
  function Filled<T>(s: State<T>): nat {
    s.offset + if s.writer.Copying? then s.writer.done else 0
  }

  function WriterPart<T>(s: State<T>): seq<T>
    requires Shape(s)
  {
    if WriterOwns(s) then s.memory[s.current.index][..Filled(s)] else []
  }

  // What the reader has taken off the read queue and not yet returned.
  function ReaderPart<T>(s: State<T>): seq<T>
    requires Shape(s)
  {
    match s.reader
    case Pulling(_, _, out) => out
    case Requeueing(_, _, out, packet) => out + s.memory[packet]
    case CopyingOut(_, _, out, packet, _) => out + s.memory[packet]
    case Returning(_, out) => out
    case _ => []
  }

  // ---- What the calls were given and what they returned ----

  ghost predicate Recorded<T>(writes: seq<WriteCall<T>>) {
    forall i | 0 <= i < |writes| :: writes[i].at <= |writes[i].bytes|
  }

  // As much of the arguments of the writes as they said they took.
  function Kept<T>(writes: seq<WriteCall<T>>): seq<T>
    requires Recorded(writes)
  {
    if writes == [] then []
    else
      var last := writes[|writes| - 1];
      Kept(writes[..|writes| - 1]) + last.bytes[..last.at]
  }

  // How many bytes of its argument the write under way has copied.
  function Across<T>(w: Writer<T>): nat
    requires !w.WriterIdle?
  {
    w.call.at + if w.Copying? then w.done else 0
  }

  // All that writes have accepted: the bytes they returned for, and those of the write under way.
  function Accepted<T>(s: State<T>): seq<T>
    requires Shape(s)
  {
    Kept(s.writeCalls) + if s.writer.WriterIdle? then [] else s.writer.call.bytes[..Across(s.writer)]
  }

  // All that reads have returned.
  function Delivered<T>(calls: seq<ReadCall<T>>): seq<T> {
    if calls == [] then [] else Delivered(calls[..|calls| - 1]) + calls[|calls| - 1].out
  }

  // ---- The invariant ----

  ghost predicate Shape<T>(s: State<T>) {
    && |s.memory| == s.packets
    && (forall p | 0 <= p < s.packets :: |s.memory[p]| == s.packetSize)
    && InRange(s.writeQueue, s.packets) && InRange(s.readQueue, s.packets)
    && (s.current.Packet? ==> s.current.index < s.packets)
    && Filled(s) <= s.packetSize
    && Recorded(s.writeCalls)
    && (!s.writer.WriterIdle? ==> Across(s.writer) <= |s.writer.call.bytes|)
    && (s.reader.Requeueing? ==> s.reader.packet < s.packets)
    && (s.reader.CopyingOut? ==>
          && s.reader.packet < s.packets
          && s.reader.packet in s.writeQueue
          && s.reader.copied <= s.memory[s.reader.packet])
  }

  ghost predicate LockInv<T>(s: State<T>) {
    && (s.lock == HeldBy(WriterThread) <==>
          s.writer.Taking? || s.writer.Taken? || s.writer.Publishing? || s.writer.Published?)
    && (s.lock == HeldBy(ReaderThread) <==> !s.reader.ReaderIdle? && !s.reader.WantRead?)
  }

  ghost predicate WriterInv<T>(s: State<T>) {
    match s.writer
    case WriterIdle => s.offset < s.packetSize
    case Looping(call) => s.offset < s.packetSize
    case WantPacket(call) => s.current.NoPacket? && s.offset == 0 && call.at < |call.bytes|
    case Taking(call) => s.current.NoPacket? && s.offset == 0 && call.at < |call.bytes|
    case Taken(call) => s.offset == 0 && call.at < |call.bytes|
    case Ready(call) => s.offset < s.packetSize && call.at < |call.bytes|
    case Copying(call, count, done) =>
      && s.current.Packet? && 0 < count <= |call.bytes| - call.at && done <= count
      && s.offset + count <= s.packetSize
    case WantPublish(call) => s.current.Packet? && s.offset == s.packetSize
    case Publishing(call) => s.current.Packet? && s.offset == s.packetSize
    case Published(call) => s.current.Packet?
    case Forgetting(call) => s.current.Packet?
  }

  ghost predicate ReaderInv<T>(s: State<T>) {
    match s.reader
    case Pulling(needed, pulled, out) => pulled <= needed <= |s.readQueue| + pulled && |out| == pulled * s.packetSize
    case Requeueing(needed, pulled, out, _) =>
      pulled < needed <= |s.readQueue| + pulled + 1 && |out| == pulled * s.packetSize
    case CopyingOut(needed, pulled, out, _, _) =>
      pulled < needed <= |s.readQueue| + pulled + 1 && |out| == pulled * s.packetSize
    case Returning(needed, out) => AllOrNothing(ReadCall(needed, out), s.packetSize)
    case _ => true
  }

  // A read brings a full buffer or nothing.
  predicate AllOrNothing<T>(r: ReadCall<T>, packetSize: nat) {
    |r.out| == r.needed * packetSize || r.out == []
  }

  ghost predicate ReadsInv<T>(s: State<T>) {
    forall i | 0 <= i < |s.readCalls| :: AllOrNothing(s.readCalls[i], s.packetSize)
  }

  ghost predicate Control<T>(s: State<T>) {
    && s.packetSize > 0 && s.packets > 0
    && Shape(s) && LockInv(s) && WriterInv(s) && ReaderInv(s) && ReadsInv(s)
    && (s.current.NoPacket? ==> s.offset == 0)
    && (!s.valid ==> s.writer.WriterIdle? && s.current.NoPacket? && s.readQueue == [])
  }

  ghost predicate Ownership<T>(s: State<T>) {
    Owned(s) == if s.valid then multiset(AllPackets(s.packets)) else multiset{}
  }

  ghost predicate Data<T>(s: State<T>)
    requires Shape(s)
  {
    Accepted(s) == Delivered(s.readCalls) + ReaderPart(s) + Join(s.memory, s.readQueue) + WriterPart(s)
  }

  ghost predicate Inv<T>(s: State<T>) {
    Control(s) && Ownership(s) && Data(s)
  }

  // ---- The steps ----

  ghost predicate Enabled<T>(s: State<T>, e: Event<T>) {
    match e
    case Initialise => !s.valid && s.lock.Free?
    case CallWrite(_) => s.valid && s.writer.WriterIdle?
    case WriterMoves =>
      && !s.writer.WriterIdle?
      && (s.writer.WantPacket? || s.writer.WantPublish? ==> s.lock.Free?)
    case CallRead(_) => s.reader.ReaderIdle?
    case ReaderMoves => !s.reader.ReaderIdle? && (s.reader.WantRead? ==> s.lock.Free?)
  }

  function Next<T>(s: State<T>, e: Event<T>): State<T>
    requires Inv(s) && Enabled(s, e)
  {
    match e
    // _saudio_fifo_init does all of this under the lock
    case Initialise => s.(valid := true, writeQueue := AllPackets(s.packets))
    case CallWrite(bytes) => s.(writer := Looping(WriteCall(bytes, 0)))
    case WriterMoves => WriterStep(s)
    case CallRead(needed) => s.(reader := WantRead(needed))
    case ReaderMoves => ReaderStep(s)
  }

  // One byte of the memcpy.
  function CopyByte<T>(s: State<T>): State<T>
    requires s.writer.Copying? && s.current.Packet? && s.current.index < |s.memory|
    requires Filled(s) < |s.memory[s.current.index]| && Across(s.writer) < |s.writer.call.bytes|
  {
    var p := s.current.index;
    s.(memory := s.memory[p := s.memory[p][Filled(s) := s.writer.call.bytes[Across(s.writer)]]],
       writer := s.writer.(done := s.writer.done + 1))
  }

  function WriterStep<T>(s: State<T>): State<T>
    requires Inv(s) && Enabled(s, WriterMoves)
  {
    match s.writer
    case WriterIdle => s
    case Looping(call) =>
      if call.at == |call.bytes| then s.(writer := WriterIdle, writeCalls := s.writeCalls + [call])
      else if s.current.NoPacket? then s.(writer := WantPacket(call))
      else s.(writer := Ready(call))
    case WantPacket(call) => s.(lock := HeldBy(WriterThread), writer := Taking(call))
    case Taking(call) =>
      if s.writeQueue != [] then
        s.(current := Packet(s.writeQueue[0]), writeQueue := s.writeQueue[1..], writer := Taken(call))
      else s.(writer := Taken(call))
    case Taken(call) => s.(lock := Free, writer := Ready(call))
    case Ready(call) =>
      if s.current.Packet? then
        var room, left := s.packetSize - s.offset, |call.bytes| - call.at;
        s.(writer := Copying(call, if left > room then room else left, 0))
      else s.(writer := WriterIdle, writeCalls := s.writeCalls + [call])
    case Copying(call, count, done) =>
      if done < count then CopyByte(s)
      else
        var call' := WriteCall(call.bytes, call.at + count);
        s.(offset := s.offset + count,
           writer := if s.offset + count == s.packetSize then WantPublish(call') else Looping(call'))
    case WantPublish(call) => s.(lock := HeldBy(WriterThread), writer := Publishing(call))
    case Publishing(call) => s.(readQueue := s.readQueue + [s.current.index], writer := Published(call))
    case Published(call) => s.(lock := Free, writer := Forgetting(call))
    case Forgetting(call) => s.(current := NoPacket, offset := 0, writer := Looping(call))
  }

  function ReaderStep<T>(s: State<T>): State<T>
    requires Inv(s) && Enabled(s, ReaderMoves)
  {
    match s.reader
    case ReaderIdle => s
    case WantRead(needed) => s.(lock := HeldBy(ReaderThread), reader := Checking(needed))
    case Checking(needed) =>
      if s.valid && |s.readQueue| >= needed then s.(reader := Pulling(needed, 0, []))
      else s.(reader := Returning(needed, []))
    case Pulling(needed, pulled, out) =>
      if pulled == needed then s.(reader := Returning(needed, out))
      else s.(readQueue := s.readQueue[1..], reader := Requeueing(needed, pulled, out, s.readQueue[0]))
    case Requeueing(needed, pulled, out, packet) =>
      s.(writeQueue := s.writeQueue + [packet], reader := CopyingOut(needed, pulled, out, packet, []))
    case CopyingOut(needed, pulled, out, packet, copied) =>
      if |copied| < s.packetSize then
        s.(reader := CopyingOut(needed, pulled, out, packet, copied + [s.memory[packet][|copied|]]))
      else s.(reader := Pulling(needed, pulled + 1, out + copied))
    case Returning(needed, out) =>
      s.(lock := Free, readCalls := s.readCalls + [ReadCall(needed, out)], reader := ReaderIdle)
  }

  // ---- What the ownership in the invariant means ----

  // Every packet is in exactly one place: on the write queue, on the read queue, with the writer
  // or with the reader, and there once only.
  lemma OneOwner<T>(s: State<T>, p: nat)
    requires Inv(s) && s.valid && p < s.packets
    ensures multiset(s.writeQueue)[p] + multiset(s.readQueue)[p] + WriterHolds(s)[p] + ReaderHolds(s)[p] == 1
  {
    AllPacketsOnce(s.packets, p);
    hide Control, Data, WriterHolds, ReaderHolds, AllPackets;
    assert Owned(s)[p] == 1;
  }

  // The asserts of the ring functions hold: a ring with one slot more than there are packets is
  // never full when a packet is to be added, nor empty when one is to be taken.
  lemma RingCallsAreSafe<T>(s: State<T>)
    requires Inv(s)
    ensures s.writer.Publishing? ==> |s.readQueue| < s.packets
    ensures s.reader.Requeueing? ==> |s.writeQueue| < s.packets
    ensures s.reader.Pulling? && s.reader.pulled < s.reader.needed ==> s.readQueue != []
  {
    hide Data, AllPackets, Shape, LockInv;
    SizesAddUp(s);
  }

  lemma SizesAddUp<T>(s: State<T>)
    requires Ownership(s)
    ensures |s.writeQueue| + |s.readQueue| + |WriterHolds(s)| + |ReaderHolds(s)| == if s.valid then s.packets else 0
  {
    hide AllPackets, WriterHolds, ReaderHolds;
    assert |multiset(AllPackets(s.packets))| == s.packets;
    assert |Owned(s)| == |s.writeQueue| + |s.readQueue| + |WriterHolds(s)| + |ReaderHolds(s)|;
  }

  // While the writer copies without the lock, its packet is on neither ring and not the one the
  // reader is reading.
  lemma UnlockedCopyIsPrivate<T>(s: State<T>)
    requires Inv(s) && s.writer.Copying?
    ensures s.current.index !in s.readQueue && s.current.index !in s.writeQueue
    ensures s.reader.Requeueing? || s.reader.CopyingOut? ==> s.reader.packet != s.current.index
  {
    var p := s.current.index;
    OneOwner(s, p);
    assert WriterHolds(s)[p] == 1;
    assert p in s.readQueue ==> multiset(s.readQueue)[p] > 0;
    assert p in s.writeQueue ==> multiset(s.writeQueue)[p] > 0;
    assert s.reader.Requeueing? && s.reader.packet == p ==> ReaderHolds(s)[p] == 1;
  }

  // ---- Every step keeps the invariant ----

  lemma {:induction false} JoinAppend<T>(memory: seq<seq<T>>, queue: seq<nat>, p: nat)
    requires InRange(queue, |memory|) && p < |memory|
    ensures InRange(queue + [p], |memory|)
    ensures Join(memory, queue + [p]) == Join(memory, queue) + memory[p]
  {
    if queue != [] {
      JoinAppend(memory, queue[1..], p);
      assert (queue + [p])[1..] == queue[1..] + [p];
    } else {
      assert ([p])[1..] == [];
      assert Join(memory, [p]) == memory[p] + Join(memory, []);
    }
  }

  lemma {:induction false} JoinUntouched<T>(memory: seq<seq<T>>, queue: seq<nat>, p: nat, page: seq<T>)
    requires InRange(queue, |memory|) && p < |memory| && p !in queue
    ensures Join(memory[p := page], queue) == Join(memory, queue)
  {
    if queue != [] {
      JoinUntouched(memory, queue[1..], p, page);
    }
  }

  lemma WriterKeepsControl<T>(s: State<T>)
    requires Inv(s) && Enabled(s, WriterMoves) && !s.writer.Copying?
    ensures Control(WriterStep(s))
  {
    hide *;
    Parts(s);
    WriterLeavesReader(s);
    WriterKeepsShape(s);
    WriterKeepsPlace(s);
    ControlFollows(s, WriterStep(s));
  }

  lemma ControlFollows<T>(s: State<T>, s': State<T>)
    requires Shape(s') && LockInv(s') && WriterInv(s') && ReaderInv(s')
    requires ReadsInv(s) && s'.readCalls == s.readCalls && s'.packetSize == s.packetSize
    requires s'.packetSize > 0 && s'.packets > 0 && (s'.current.NoPacket? ==> s'.offset == 0)
    requires !s'.valid ==> s'.writer.WriterIdle? && s'.current.NoPacket? && s'.readQueue == []
    ensures Control(s')
  {
    hide Shape, LockInv, WriterInv, ReaderInv, AllOrNothing;
  }

  lemma WriterKeepsShape<T>(s: State<T>)
    requires Inv(s) && Enabled(s, WriterMoves) && !s.writer.Copying?
    ensures Shape(WriterStep(s))
  {
    hide *;
    Parts(s);
    WriterLeavesReader(s);
    WriterLeavesMemory(s);
    WriterKeepsRanges(s);
    if s.reader.CopyingOut? {
      WriterWaits(s);
    }
    WriterKeepsFilled(s);
    WriterKeepsRecords(s);
    ShapeFollows(s, WriterStep(s));
  }

  lemma ShapeFollows<T>(s: State<T>, s': State<T>)
    requires Shape(s) && s'.memory == s.memory && s'.packets == s.packets && s'.packetSize == s.packetSize
    requires s'.reader == s.reader && (s.reader.CopyingOut? ==> s'.writeQueue == s.writeQueue)
    requires InRange(s'.writeQueue, s.packets) && InRange(s'.readQueue, s.packets)
    requires s'.current.Packet? ==> s'.current.index < s.packets
    requires Filled(s') <= s.packetSize && Recorded(s'.writeCalls)
    requires !s'.writer.WriterIdle? ==> Across(s'.writer) <= |s'.writer.call.bytes|
    ensures Shape(s')
  {
    hide InRange, Filled, Recorded, Across;
  }

  lemma WriterKeepsRanges<T>(s: State<T>)
    requires Inv(s) && Shape(s) && WriterInv(s) && Enabled(s, WriterMoves)
    ensures var s' := WriterStep(s);
      && InRange(s'.writeQueue, s.packets) && InRange(s'.readQueue, s.packets)
      && (s'.current.Packet? ==> s'.current.index < s.packets)
  {
    hide *;
    QueuesInRange(s);
    if s.writer.Taking? && s.writeQueue != [] {
      TakingQueues(s);
      RestInRange(s.writeQueue, s.packets);
    } else if s.writer.Publishing? {
      PublishingQueues(s);
      OneMoreInRange(s.readQueue, s.current.index, s.packets);
    } else {
      WriterLeavesPackets(s);
      WriterLeavesCurrent(s);
    }
  }

  lemma TakingQueues<T>(s: State<T>)
    requires Inv(s) && Enabled(s, WriterMoves) && s.writer.Taking? && s.writeQueue != []
    ensures var s' := WriterStep(s);
      && s'.writeQueue == s.writeQueue[1..] && s'.readQueue == s.readQueue
      && s'.current == Packet(s.writeQueue[0])
  {
    hide Inv;
  }

  lemma PublishingQueues<T>(s: State<T>)
    requires Inv(s) && WriterInv(s) && Enabled(s, WriterMoves) && s.writer.Publishing?
    ensures s.current.Packet?
    ensures var s' := WriterStep(s);
      && s'.writeQueue == s.writeQueue && s'.readQueue == s.readQueue + [s.current.index]
      && s'.current == s.current
  {
    hide Inv;
  }

  lemma WriterLeavesCurrent<T>(s: State<T>)
    requires Inv(s) && Enabled(s, WriterMoves) && (s.writer.Taking? ==> s.writeQueue == [])
    ensures WriterStep(s).current == s.current || WriterStep(s).current.NoPacket?
  {
    hide Inv;
  }

  // The writer takes nothing off the write queue while the reader copies.
  lemma WriterWaits<T>(s: State<T>)
    requires Inv(s) && LockInv(s) && Enabled(s, WriterMoves) && s.reader.CopyingOut?
    ensures WriterStep(s).writeQueue == s.writeQueue
  {
    hide *;
    LockMeans(s);
    WriterLeavesWriteQueue(s);
  }

  lemma WriterLeavesWriteQueue<T>(s: State<T>)
    requires Inv(s) && Enabled(s, WriterMoves) && !s.writer.Taking?
    ensures WriterStep(s).writeQueue == s.writeQueue
  {
    hide Inv;
  }

  lemma QueuesInRange<T>(s: State<T>)
    requires Shape(s)
    ensures InRange(s.writeQueue, s.packets) && InRange(s.readQueue, s.packets)
    ensures s.current.Packet? ==> s.current.index < s.packets
  {
    hide InRange;
  }

  lemma RestInRange(queue: seq<nat>, n: nat)
    requires InRange(queue, n) && queue != []
    ensures InRange(queue[1..], n) && queue[0] < n
  {
  }

  lemma OneMoreInRange(queue: seq<nat>, p: nat, n: nat)
    requires InRange(queue, n) && p < n
    ensures InRange(queue + [p], n)
  {
  }

  lemma WriterKeepsFilled<T>(s: State<T>)
    requires Inv(s) && Shape(s) && WriterInv(s) && Enabled(s, WriterMoves) && !s.writer.Copying?
    ensures Filled(WriterStep(s)) <= s.packetSize
  {
    hide Inv, Enabled, InRange, Recorded;
  }

  lemma WriterKeepsRecords<T>(s: State<T>)
    requires Inv(s) && Shape(s) && WriterInv(s) && Enabled(s, WriterMoves) && !s.writer.Copying?
    ensures var s' := WriterStep(s);
      Recorded(s'.writeCalls) && (!s'.writer.WriterIdle? ==> Across(s'.writer) <= |s'.writer.call.bytes|)
  {
    WriterBusy(s);
    InsideCall(s);
    WriterReturns(s);
    hide Inv, InRange, Filled, WriterInv, Enabled, WriterStep;
  }

  lemma LockMeans<T>(s: State<T>)
    requires LockInv(s)
    ensures s.writer.Taking? ==> s.lock == HeldBy(WriterThread)
    ensures s.reader.CopyingOut? || s.reader.Requeueing? || s.reader.Pulling? ==> s.lock == HeldBy(ReaderThread)
  {
  }

  lemma WriterKeepsPlace<T>(s: State<T>)
    requires Inv(s) && Enabled(s, WriterMoves) && !s.writer.Copying?
    ensures var s' := WriterStep(s);
      && LockInv(s') && WriterInv(s') && ReaderInv(s')
      && s'.packetSize > 0 && s'.packets > 0 && (s'.current.NoPacket? ==> s'.offset == 0)
      && (!s'.valid ==> s'.writer.WriterIdle? && s'.current.NoPacket? && s'.readQueue == [])
  {
    hide *;
    Parts(s);
    WriterBusy(s);
    InsideCall(s);
    WriterKeepsLock(s);
    WriterKeepsOwnPlace(s);
    WriterKeepsReaderPlace(s);
    WriterKeepsRest(s);
    WriterLeavesReader(s);
  }

  lemma WriterBusy<T>(s: State<T>)
    requires Enabled(s, WriterMoves)
    ensures !s.writer.WriterIdle?
  {
  }

  lemma Parts<T>(s: State<T>)
    requires Inv(s)
    ensures Shape(s) && LockInv(s) && WriterInv(s) && ReaderInv(s) && ReadsInv(s) && Ownership(s) && Data(s)
    ensures s.packetSize > 0 && s.packets > 0 && (s.current.NoPacket? ==> s.offset == 0)
    ensures !s.valid ==> s.writer.WriterIdle? && s.current.NoPacket? && s.readQueue == []
  {
    hide Shape, LockInv, WriterInv, ReaderInv, ReadsInv, Ownership, Data;
  }

  lemma WriterKeepsLock<T>(s: State<T>)
    requires Inv(s) && LockInv(s) && Enabled(s, WriterMoves)
    ensures LockInv(WriterStep(s))
  {
    hide Inv;
  }

  lemma WriterKeepsOwnPlace<T>(s: State<T>)
    requires Inv(s) && WriterInv(s) && Enabled(s, WriterMoves) && !s.writer.Copying?
    requires s.packetSize > 0 && (s.current.NoPacket? ==> s.offset == 0) && s.writer.call.at <= |s.writer.call.bytes|
    ensures WriterInv(WriterStep(s))
  {
    hide Inv, Enabled;
  }

  lemma WriterKeepsReaderPlace<T>(s: State<T>)
    requires Inv(s) && ReaderInv(s) && Enabled(s, WriterMoves)
    ensures ReaderInv(WriterStep(s))
  {
    hide Inv, Enabled, WriterStep, AllOrNothing;
    WriterLeavesReader(s);
    WriterTakesNothing(s);
  }

  lemma WriterTakesNothing<T>(s: State<T>)
    requires Inv(s) && Enabled(s, WriterMoves)
    ensures |s.readQueue| <= |WriterStep(s).readQueue|
  {
    hide Inv, Enabled;
  }

  lemma WriterKeepsRest<T>(s: State<T>)
    requires Inv(s) && WriterInv(s) && Enabled(s, WriterMoves) && (s.current.NoPacket? ==> s.offset == 0)
    requires !s.valid ==> s.writer.WriterIdle?
    ensures var s' := WriterStep(s);
      && (s'.current.NoPacket? ==> s'.offset == 0)
      && (!s'.valid ==> s'.writer.WriterIdle? && s'.current.NoPacket? && s'.readQueue == [])
  {
    hide Inv;
  }

  lemma InsideCall<T>(s: State<T>)
    requires Inv(s) && !s.writer.WriterIdle?
    ensures s.writer.call.at <= Across(s.writer) <= |s.writer.call.bytes|
  {
    Parts(s);
    hide Inv, Ownership, Data, LockInv, WriterInv, ReaderInv, ReadsInv;
  }

  lemma CopyingKeepsControl<T>(s: State<T>)
    requires Inv(s) && Enabled(s, WriterMoves) && s.writer.Copying?
    ensures Control(WriterStep(s))
  {
    hide *;
    Parts(s);
    WriterLeavesReader(s);
    CopyingKeepsShape(s);
    CopyingKeepsPlace(s);
    ControlFollows(s, WriterStep(s));
  }

  lemma CopyingStores<T>(s: State<T>)
    requires Inv(s) && Shape(s) && s.writer.Copying? && s.writer.done < s.writer.count
    requires s.current.Packet? && Filled(s) < s.packetSize && Across(s.writer) < |s.writer.call.bytes|
    ensures var s' := WriterStep(s);
      var p := s.current.index;
      && p < |s.memory| && Filled(s) < |s.memory[p]|
      && s' == s.(memory := s.memory[p := s.memory[p][Filled(s) := s.writer.call.bytes[Across(s.writer)]]],
                  writer := s.writer.(done := s.writer.done + 1))
      && s'.writeCalls == s.writeCalls && s'.writer == s.writer.(done := s.writer.done + 1)
      && s'.readQueue == s.readQueue && s'.writeQueue == s.writeQueue && s'.current == s.current
      && s'.packets == s.packets && s'.packetSize == s.packetSize
      && WriterOwns(s') && Filled(s') == Filled(s) + 1
  {
    hide Inv, InRange, Recorded;
  }

  lemma CopyingInside<T>(s: State<T>)
    requires Inv(s) && s.writer.Copying?
    ensures Shape(s) && s.current.Packet? && s.writer.call.at + s.writer.count <= |s.writer.call.bytes|
    ensures s.writer.done < s.writer.count ==> Filled(s) < s.packetSize && Across(s.writer) < |s.writer.call.bytes|
    ensures s.writer.done >= s.writer.count ==> s.writer.done == s.writer.count
  {
    hide Shape, LockInv, ReaderInv, Ownership, Data;
  }

  lemma StoreKeepsSizes<T>(memory: seq<seq<T>>, size: nat, p: nat, k: nat, x: T)
    requires (forall q | 0 <= q < |memory| :: |memory[q]| == size) && p < |memory| && k < size
    ensures var memory' := memory[p := memory[p][k := x]];
      && |memory'| == |memory| && (forall q | 0 <= q < |memory'| :: |memory'[q]| == size)
      && (forall q | 0 <= q < |memory'| && q != p :: memory'[q] == memory[q])
  {
  }

  lemma CopyingKeepsShape<T>(s: State<T>)
    requires Inv(s) && s.writer.Copying?
    ensures Shape(WriterStep(s))
  {
    assert Enabled(s, WriterMoves);
    hide *;
    CopyingInside(s);
    UnlockedCopyIsPrivate(s);
    if s.writer.done < s.writer.count {
      CopyingStores(s);
      ByteKeepsShape(s, WriterStep(s), s.writer.call.bytes[Across(s.writer)]);
    } else {
      CopiedKeepsShape(s);
    }
  }

  lemma ByteKeepsShape<T>(s: State<T>, s': State<T>, x: T)
    requires Shape(s) && s.writer.Copying? && s.current.Packet? && Filled(s) < s.packetSize
    requires Across(s.writer) < |s.writer.call.bytes| && s.writer.done < s.writer.count
    requires s.reader.CopyingOut? ==> s.reader.packet != s.current.index
    requires var p := s.current.index;
      && p < |s.memory| && Filled(s) < |s.memory[p]|
      && s' == s.(memory := s.memory[p := s.memory[p][Filled(s) := x]], writer := s.writer.(done := s.writer.done + 1))
    ensures Shape(s')
  {
    StoreKeepsSizes(s.memory, s.packetSize, s.current.index, Filled(s), x);
    hide InRange, Recorded;
  }

  lemma CopiedKeepsShape<T>(s: State<T>)
    requires Inv(s) && Shape(s) && s.writer.Copying? && s.writer.done == s.writer.count
    ensures Shape(WriterStep(s))
  {
    hide Inv, InRange, Recorded;
  }

  lemma CopyingKeepsPlace<T>(s: State<T>)
    requires Inv(s) && Enabled(s, WriterMoves) && s.writer.Copying?
    ensures var s' := WriterStep(s);
      && LockInv(s') && WriterInv(s') && ReaderInv(s')
      && s'.packetSize > 0 && s'.packets > 0 && (s'.current.NoPacket? ==> s'.offset == 0)
      && (!s'.valid ==> s'.writer.WriterIdle? && s'.current.NoPacket? && s'.readQueue == [])
  {
    hide *;
    Parts(s);
    WriterKeepsLock(s);
    CopyingKeepsOwnPlace(s);
    WriterKeepsReaderPlace(s);
    WriterKeepsRest(s);
    WriterLeavesReader(s);
  }

  lemma CopyingKeepsOwnPlace<T>(s: State<T>)
    requires Inv(s) && WriterInv(s) && Enabled(s, WriterMoves) && s.writer.Copying?
    ensures WriterInv(WriterStep(s))
  {
    hide Inv, Enabled;
  }

  // The packets only move.

  lemma WriterKeepsOwnership<T>(s: State<T>)
    requires Inv(s) && Ownership(s) && WriterInv(s) && Enabled(s, WriterMoves)
    ensures Ownership(WriterStep(s))
  {
    hide *;
    var s' := WriterStep(s);
    WriterLeavesReader(s);
    ReaderHoldsKept(s, s');
    if s.writer.Taking? && s.writeQueue != [] {
      TakingMovesPacket(s);
    } else if s.writer.Publishing? {
      PublishingMovesPacket(s);
    } else {
      WriterLeavesPackets(s);
      WriterHoldsSame(s, s');
    }
    OwnershipFollows(s, s', multiset(s.writeQueue), multiset(s.readQueue), WriterHolds(s), ReaderHolds(s),
                     multiset(s'.writeQueue), multiset(s'.readQueue), WriterHolds(s'), ReaderHolds(s'));
  }

  lemma OwnershipFollows<T>(s: State<T>, s': State<T>,
                            w: multiset<nat>, r: multiset<nat>, a: multiset<nat>, b: multiset<nat>,
                            w': multiset<nat>, r': multiset<nat>, a': multiset<nat>, b': multiset<nat>)
    requires Ownership(s) && s'.valid == s.valid && s'.packets == s.packets
    requires w == multiset(s.writeQueue) && r == multiset(s.readQueue) && a == WriterHolds(s) && b == ReaderHolds(s)
    requires w' == multiset(s'.writeQueue) && r' == multiset(s'.readQueue)
    requires a' == WriterHolds(s') && b' == ReaderHolds(s')
    requires (w + a == w' + a' && r == r' && b == b') || (r + a == r' + a' && w == w' && b == b')
          || (r + b == r' + b' && w == w' && a == a') || (w + b == w' + b' && r == r' && a == a')
    ensures Ownership(s')
  {
    hide AllPackets, WriterHolds, ReaderHolds;
    SameTotal(w, r, a, b, w', r', a', b');
  }

  lemma SameTotal(w: multiset<nat>, r: multiset<nat>, a: multiset<nat>, b: multiset<nat>,
                  w': multiset<nat>, r': multiset<nat>, a': multiset<nat>, b': multiset<nat>)
    requires (w + a == w' + a' && r == r' && b == b') || (r + a == r' + a' && w == w' && b == b')
          || (r + b == r' + b' && w == w' && a == a') || (w + b == w' + b' && r == r' && a == a')
    ensures w + r + a + b == w' + r' + a' + b'
  {
    assert w + r + a + b == (w + a) + (r + b) == (r + a) + (w + b) == (r + b) + (w + a);
    assert w' + r' + a' + b' == (w' + a') + (r' + b') == (r' + a') + (w' + b');
  }

  lemma WriterLeavesReader<T>(s: State<T>)
    requires Inv(s) && Enabled(s, WriterMoves)
    ensures var s' := WriterStep(s);
      && s'.reader == s.reader && s'.readCalls == s.readCalls
      && s'.valid == s.valid && s'.packets == s.packets && s'.packetSize == s.packetSize
  {
    hide Inv, Enabled;
  }

  lemma ReaderLeavesWriter<T>(s: State<T>)
    requires Inv(s) && Enabled(s, ReaderMoves)
    ensures var s' := ReaderStep(s);
      && s'.writer == s.writer && s'.current == s.current && s'.offset == s.offset && s'.memory == s.memory
      && s'.writeCalls == s.writeCalls && s'.valid == s.valid && s'.packets == s.packets
  {
    hide Inv, Enabled;
  }

  lemma WriterHoldsSame<T>(s: State<T>, s': State<T>)
    requires WriterOwns(s') == WriterOwns(s) && (WriterOwns(s) ==> s'.current == s.current)
    ensures WriterHolds(s') == WriterHolds(s)
  {
    hide WriterOwns;
  }

  lemma TakingMovesPacket<T>(s: State<T>)
    requires Inv(s) && Enabled(s, WriterMoves) && WriterInv(s) && s.writer.Taking? && s.writeQueue != []
    ensures var s' := WriterStep(s);
      && s'.readQueue == s.readQueue
      && multiset(s.writeQueue) + WriterHolds(s) == multiset(s'.writeQueue) + WriterHolds(s')
  {
    hide Inv;
    TakeFirst(s.writeQueue);
  }

  lemma PublishingMovesPacket<T>(s: State<T>)
    requires Inv(s) && Enabled(s, WriterMoves) && WriterInv(s) && s.writer.Publishing?
    ensures var s' := WriterStep(s);
      && s'.writeQueue == s.writeQueue
      && multiset(s.readQueue) + WriterHolds(s) == multiset(s'.readQueue) + WriterHolds(s')
  {
    hide Inv;
    PutLast(s.readQueue, s.current.index);
  }

  lemma WriterLeavesPackets<T>(s: State<T>)
    requires Inv(s) && WriterInv(s) && Enabled(s, WriterMoves)
    requires !s.writer.Publishing? && (s.writer.Taking? ==> s.writeQueue == [])
    ensures var s' := WriterStep(s);
      && s'.writeQueue == s.writeQueue && s'.readQueue == s.readQueue
      && WriterOwns(s') == WriterOwns(s) && (WriterOwns(s) ==> s'.current == s.current)
  {
    hide Inv, Enabled;
  }

  lemma ReaderKeepsOwnership<T>(s: State<T>)
    requires Inv(s) && Ownership(s) && ReaderInv(s) && Enabled(s, ReaderMoves)
    ensures Ownership(ReaderStep(s))
  {
    hide *;
    var s' := ReaderStep(s);
    ReaderLeavesWriter(s);
    WriterHoldsKept(s, s');
    if s.reader.Pulling? && s.reader.pulled < s.reader.needed {
      PullingMovesPacket(s);
    } else if s.reader.Requeueing? {
      RequeueingMovesPacket(s);
    } else {
      ReaderLeavesPackets(s);
    }
    OwnershipFollows(s, s', multiset(s.writeQueue), multiset(s.readQueue), WriterHolds(s), ReaderHolds(s),
                     multiset(s'.writeQueue), multiset(s'.readQueue), WriterHolds(s'), ReaderHolds(s'));
  }

  lemma PullingMovesPacket<T>(s: State<T>)
    requires Inv(s) && Enabled(s, ReaderMoves) && ReaderInv(s) && s.reader.Pulling? && s.reader.pulled < s.reader.needed
    ensures var s' := ReaderStep(s);
      && s'.writeQueue == s.writeQueue
      && multiset(s.readQueue) + ReaderHolds(s) == multiset(s'.readQueue) + ReaderHolds(s')
  {
    hide Inv;
    TakeFirst(s.readQueue);
  }

  lemma RequeueingMovesPacket<T>(s: State<T>)
    requires Inv(s) && Enabled(s, ReaderMoves) && s.reader.Requeueing?
    ensures var s' := ReaderStep(s);
      && s'.readQueue == s.readQueue
      && multiset(s.writeQueue) + ReaderHolds(s) == multiset(s'.writeQueue) + ReaderHolds(s')
  {
    hide Inv;
    PutLast(s.writeQueue, s.reader.packet);
  }

  lemma ReaderLeavesPackets<T>(s: State<T>)
    requires Inv(s) && ReaderInv(s) && Enabled(s, ReaderMoves)
    requires !s.reader.Requeueing? && !(s.reader.Pulling? && s.reader.pulled < s.reader.needed)
    ensures var s' := ReaderStep(s);
      s'.writeQueue == s.writeQueue && s'.readQueue == s.readQueue && ReaderHolds(s') == ReaderHolds(s)
  {
    hide Inv, Enabled;
  }

  lemma WriterHoldsKept<T>(s: State<T>, s': State<T>)
    requires s'.current == s.current && s'.writer == s.writer
    ensures WriterHolds(s') == WriterHolds(s)
  {
  }

  lemma ReaderHoldsKept<T>(s: State<T>, s': State<T>)
    requires s'.reader == s.reader
    ensures ReaderHolds(s') == ReaderHolds(s)
  {
  }

  // The bytes stay in order, whichever of their four places they are in.

  lemma WriterKeepsData<T>(s: State<T>)
    requires Inv(s) && Shape(s) && Data(s) && WriterInv(s) && Enabled(s, WriterMoves) && Shape(WriterStep(s))
    ensures Data(WriterStep(s))
  {
    hide Inv, InRange, WriterInv, Enabled, WriterStep, Join, WriterPart, ReaderPart;
    WriterLeavesReaderPart(s);
    if s.writer.Publishing? {
      PublishingMovesData(s);
      var d, j, w := Delivered(s.readCalls) + ReaderPart(s), Join(s.memory, s.readQueue), WriterPart(s);
      Associates(d, j, w);
      assert d + (j + w) + [] == d + (j + w);
    } else if s.writer.Copying? && s.writer.done < s.writer.count {
      CopyingInside(s);
      CopyingMovesData(s);
    } else {
      WriterLeavesData(s);
    }
  }

  lemma CopyingMovesData<T>(s: State<T>)
    requires Inv(s) && Shape(s) && Enabled(s, WriterMoves) && Shape(WriterStep(s))
    requires s.writer.Copying? && s.writer.done < s.writer.count && Across(s.writer) < |s.writer.call.bytes|
    ensures var s' := WriterStep(s);
      && Accepted(s') == Accepted(s) + [s.writer.call.bytes[Across(s.writer)]]
      && Join(s'.memory, s'.readQueue) == Join(s.memory, s.readQueue)
      && WriterPart(s') == WriterPart(s) + [s.writer.call.bytes[Across(s.writer)]]
  {
    hide Inv, InRange, WriterStep, WriterOwns, Filled, Join;
    CopyingInside(s);
    UnlockedCopyIsPrivate(s);
    CopyingStores(s);
    CopyingOwns(s);
    var p, k, x := s.current.index, Filled(s), s.writer.call.bytes[Across(s.writer)];
    JoinUntouched(s.memory, s.readQueue, p, s.memory[p][k := x]);
    StoredPrefix(s.memory[p], k, x);
  }

  lemma CopyingOwns<T>(s: State<T>)
    requires s.writer.Copying? && s.current.Packet?
    ensures WriterOwns(s)
  {
  }

  lemma StoredPrefix<T>(page: seq<T>, k: nat, x: T)
    requires k < |page|
    ensures page[k := x][..k + 1] == page[..k] + [x]
  {
  }

  lemma PublishingMovesData<T>(s: State<T>)
    requires Inv(s) && Shape(s) && WriterInv(s) && s.writer.Publishing? && Shape(WriterStep(s))
    ensures var s' := WriterStep(s);
      && Accepted(s') == Accepted(s) && WriterPart(s') == []
      && Join(s'.memory, s'.readQueue) == Join(s.memory, s.readQueue) + WriterPart(s)
  {
    hide Inv;
    JoinAppend(s.memory, s.readQueue, s.current.index);
    hide Join;
    assert WriterPart(s) == s.memory[s.current.index];
  }

  lemma WriterLeavesData<T>(s: State<T>)
    requires Inv(s) && Shape(s) && WriterInv(s) && Enabled(s, WriterMoves) && Shape(WriterStep(s))
    requires !s.writer.Publishing? && (s.writer.Copying? ==> s.writer.done >= s.writer.count)
    ensures var s' := WriterStep(s);
      && WriterPart(s') == WriterPart(s)
      && s'.memory == s.memory && s'.readQueue == s.readQueue && Accepted(s') == Accepted(s)
  {
    hide Inv, Enabled, WriterStep, WriterPart, Accepted;
    WriterLeavesAccepted(s);
    WriterLeavesMemory(s);
    WriterLeavesQueue(s);
    WriterLeavesOwnPart(s);
  }

  lemma WriterLeavesQueue<T>(s: State<T>)
    requires Inv(s) && Enabled(s, WriterMoves) && !s.writer.Publishing?
    ensures WriterStep(s).readQueue == s.readQueue
  {
    hide Inv, Enabled;
  }

  lemma WriterLeavesOwnPart<T>(s: State<T>)
    requires Inv(s) && Shape(s) && WriterInv(s) && Enabled(s, WriterMoves) && Shape(WriterStep(s))
    requires !s.writer.Publishing? && (s.writer.Copying? ==> s.writer.done >= s.writer.count)
    requires WriterStep(s).memory == s.memory
    ensures WriterPart(WriterStep(s)) == WriterPart(s)
  {
    hide Inv, Enabled, Shape;
  }

  // Returning from a write only moves its bytes from the call to the record.
  lemma WriterLeavesAccepted<T>(s: State<T>)
    requires Inv(s) && Shape(s) && WriterInv(s) && Enabled(s, WriterMoves) && Shape(WriterStep(s))
    requires s.writer.Copying? ==> s.writer.done >= s.writer.count
    ensures Accepted(WriterStep(s)) == Accepted(s)
  {
    hide Inv, Enabled, WriterStep, InRange, Recorded, Kept, Filled, WriterInv;
    WriterBusy(s);
    InsideCall(s);
    WriterReturns(s);
    if WriterStep(s).writer.WriterIdle? {
      KeptReturn(s.writeCalls, s.writer.call);
    }
  }

  // A write returns with all its bytes copied, or when it looked for a packet and found none.
  lemma WriterReturns<T>(s: State<T>)
    requires Inv(s) && WriterInv(s) && Enabled(s, WriterMoves)
    requires s.writer.Copying? ==> s.writer.done >= s.writer.count
    ensures var s' := WriterStep(s);
      if s'.writer.WriterIdle? then
        && s'.writeCalls == s.writeCalls + [s.writer.call] && !s.writer.Copying?
        && (s.writer.call.at == |s.writer.call.bytes| || (s.writer.Ready? && s.current.NoPacket?))
      else
        && s'.writeCalls == s.writeCalls && s'.writer.call.bytes == s.writer.call.bytes
        && Across(s'.writer) == Across(s.writer)
  {
    hide Inv;
  }

  lemma KeptReturn<T>(calls: seq<WriteCall<T>>, call: WriteCall<T>)
    requires Recorded(calls) && Recorded(calls + [call]) && call.at <= |call.bytes|
    ensures Kept(calls + [call]) == Kept(calls) + call.bytes[..call.at]
  {
    assert (calls + [call])[..|calls|] == calls;
  }

  lemma WriterLeavesReaderPart<T>(s: State<T>)
    requires Inv(s) && Shape(s) && WriterInv(s) && Enabled(s, WriterMoves) && Shape(WriterStep(s))
    ensures ReaderPart(WriterStep(s)) == ReaderPart(s) && WriterStep(s).readCalls == s.readCalls
  {
    hide Inv, InRange, Enabled, WriterInv, WriterStep, Filled, ReaderPart;
    WriterLeavesReader(s);
    if s.writer.Copying? {
      CopyingInside(s);
      UnlockedCopyIsPrivate(s);
      if s.writer.done < s.writer.count {
        CopyingStores(s);
      } else {
        WriterLeavesMemory(s);
      }
    } else {
      WriterLeavesMemory(s);
    }
    SameReaderPart(s, WriterStep(s));
  }

  lemma SameReaderPart<T>(s: State<T>, s': State<T>)
    requires Shape(s) && Shape(s') && s'.reader == s.reader && |s'.memory| == |s.memory|
    requires s.reader.Requeueing? || s.reader.CopyingOut? ==> s'.memory[s.reader.packet] == s.memory[s.reader.packet]
    ensures ReaderPart(s') == ReaderPart(s)
  {
  }

  lemma ReaderPartStays<T>(s: State<T>, s': State<T>)
    requires Shape(s) && Shape(s') && s'.reader == s.reader && s'.memory == s.memory
    ensures ReaderPart(s') == ReaderPart(s)
  {
  }

  lemma WriterLeavesMemory<T>(s: State<T>)
    requires Inv(s) && Enabled(s, WriterMoves) && (s.writer.Copying? ==> s.writer.done >= s.writer.count)
    ensures WriterStep(s).memory == s.memory
  {
    hide Inv, Enabled;
  }

  lemma ReaderKeepsControl<T>(s: State<T>)
    requires Inv(s) && Enabled(s, ReaderMoves)
    ensures Control(ReaderStep(s))
  {
    hide Inv, Shape, LockInv, WriterInv, ReaderInv, ReadsInv, Enabled, ReaderStep;
    ReaderKeepsShape(s);
    ReaderKeepsPlace(s);
    ReaderKeepsCount(s);
  }

  lemma ReaderKeepsShape<T>(s: State<T>)
    requires Inv(s) && Enabled(s, ReaderMoves)
    ensures Shape(ReaderStep(s))
  {
    hide Ownership, Data, WriterInv, LockInv, ReadsInv, Across, Filled;
    ReaderLeavesWriter(s);
    SameFilled(s, ReaderStep(s));
    if s.reader.Requeueing? {
      assert (s.writeQueue + [s.reader.packet])[|s.writeQueue|] == s.reader.packet;
    }
  }

  lemma SameFilled<T>(s: State<T>, s': State<T>)
    requires s'.writer == s.writer && s'.offset == s.offset
    ensures Filled(s') == Filled(s)
  {
  }

  lemma ReaderKeepsPlace<T>(s: State<T>)
    requires Inv(s) && Enabled(s, ReaderMoves)
    ensures var s' := ReaderStep(s);
      && LockInv(s') && WriterInv(s')
      && s'.packetSize > 0 && s'.packets > 0 && (s'.current.NoPacket? ==> s'.offset == 0)
      && (!s'.valid ==> s'.writer.WriterIdle? && s'.current.NoPacket? && s'.readQueue == [])
  {
    hide Ownership, Data, Shape, ReadsInv;
  }

  // A read counts its packets down to a full buffer.
  lemma ReaderKeepsCount<T>(s: State<T>)
    requires Inv(s) && Enabled(s, ReaderMoves)
    ensures ReaderInv(ReaderStep(s)) && ReadsInv(ReaderStep(s))
  {
    hide Ownership, Data, WriterInv, LockInv;
    if s.reader.CopyingOut? {
      OneMore(s.reader.pulled, s.packetSize);
    }
  }

  lemma ReaderKeepsData<T>(s: State<T>)
    requires Inv(s) && Shape(s) && Data(s) && ReaderInv(s) && Enabled(s, ReaderMoves) && Shape(ReaderStep(s))
    ensures Data(ReaderStep(s))
  {
    hide Inv, Shape, ReaderInv, Enabled, ReaderStep, Join, WriterPart, ReaderPart;
    ReaderLeavesWriterPart(s);
    if s.reader.Pulling? && s.reader.pulled < s.reader.needed {
      PullingMovesData(s);
    } else {
      ReaderLeavesData(s);
    }
  }

  lemma ReaderLeavesWriterPart<T>(s: State<T>)
    requires Inv(s) && Shape(s) && Enabled(s, ReaderMoves) && Shape(ReaderStep(s))
    ensures WriterPart(ReaderStep(s)) == WriterPart(s) && Accepted(ReaderStep(s)) == Accepted(s)
    ensures ReaderStep(s).memory == s.memory
  {
    hide Inv, Shape, Enabled, Join, ReaderPart;
  }

  lemma PullingMovesData<T>(s: State<T>)
    requires Inv(s) && Shape(s) && ReaderInv(s) && s.reader.Pulling? && s.reader.pulled < s.reader.needed
    requires Shape(ReaderStep(s))
    ensures var s' := ReaderStep(s);
      && s'.readCalls == s.readCalls
      && Delivered(s'.readCalls) + ReaderPart(s') + Join(s'.memory, s'.readQueue)
         == Delivered(s.readCalls) + ReaderPart(s) + Join(s.memory, s.readQueue)
  {
    hide Inv;
    var s' := ReaderStep(s);
    var out, page, rest := s.reader.out, s.memory[s.readQueue[0]], Join(s.memory, s'.readQueue);
    assert Join(s.memory, s.readQueue) == page + rest;
    hide Join;
    var d := Delivered(s.readCalls);
    assert d + (out + page) + rest == d + out + (page + rest);
  }

  lemma ReaderLeavesData<T>(s: State<T>)
    requires Inv(s) && Shape(s) && ReaderInv(s) && Enabled(s, ReaderMoves) && Shape(ReaderStep(s))
    requires !(s.reader.Pulling? && s.reader.pulled < s.reader.needed)
    ensures var s' := ReaderStep(s);
      && s'.readQueue == s.readQueue
      && Delivered(s'.readCalls) + ReaderPart(s') == Delivered(s.readCalls) + ReaderPart(s)
  {
    hide Inv, Shape, Enabled, ReaderInv, ReaderStep, Delivered, Join, WriterPart, ReaderPart;
    ReaderLeavesQueue(s);
    if s.reader.Returning? {
      ReturningMovesData(s);
    } else {
      ReaderLeavesOwnPart(s);
    }
  }

  lemma ReaderLeavesQueue<T>(s: State<T>)
    requires Inv(s) && ReaderInv(s) && Enabled(s, ReaderMoves)
    requires !(s.reader.Pulling? && s.reader.pulled < s.reader.needed)
    ensures ReaderStep(s).readQueue == s.readQueue
  {
    hide Inv, Enabled;
  }

  lemma ReturningMovesData<T>(s: State<T>)
    requires Inv(s) && Shape(s) && s.reader.Returning? && Shape(ReaderStep(s))
    ensures var s' := ReaderStep(s);
      Delivered(s'.readCalls) + ReaderPart(s') == Delivered(s.readCalls) + ReaderPart(s)
  {
    hide Inv, Shape;
    var call := ReadCall(s.reader.needed, s.reader.out);
    assert (s.readCalls + [call])[..|s.readCalls|] == s.readCalls;
    assert Delivered(s.readCalls + [call]) == Delivered(s.readCalls) + call.out;
  }

  lemma ReaderLeavesOwnPart<T>(s: State<T>)
    requires Inv(s) && Shape(s) && ReaderInv(s) && Enabled(s, ReaderMoves) && Shape(ReaderStep(s))
    requires !s.reader.Returning? && !(s.reader.Pulling? && s.reader.pulled < s.reader.needed)
    ensures ReaderStep(s).readCalls == s.readCalls && ReaderPart(ReaderStep(s)) == ReaderPart(s)
  {
    hide Inv, Enabled, LockInv, InRange;
    assert s.reader.CopyingOut? && |s.reader.copied| >= s.packetSize ==> s.reader.copied == s.memory[s.reader.packet];
  }

  lemma StepKeepsInv<T>(s: State<T>, e: Event<T>)
    requires Inv(s) && Enabled(s, e)
    ensures Inv(Next(s, e))
  {
    hide Shape, LockInv, WriterInv, ReaderInv, Ownership, Data, WriterStep, ReaderStep;
    match e {
      case WriterMoves =>
        if s.writer.Copying? {
          CopyingKeepsControl(s);
        } else {
          WriterKeepsControl(s);
        }
        WriterKeepsOwnership(s);
        WriterKeepsData(s);
      case ReaderMoves =>
        ReaderKeepsControl(s);
        ReaderKeepsOwnership(s);
        ReaderKeepsData(s);
      case Initialise => InitialiseKeepsInv(s);
      case _ => CallsKeepInv(s, e);
    }
  }

  lemma CallsKeepInv<T>(s: State<T>, e: Event<T>)
    requires Inv(s) && Enabled(s, e) && (e.CallWrite? || e.CallRead?)
    ensures Inv(Next(s, e))
  {
    CallsKeepControl(s, e);
    CallLeavesParts(s, e);
    hide Control, Enabled, Next, Join, AllPackets, WriterPart, ReaderPart, WriterHolds, ReaderHolds;
  }

  lemma CallsKeepControl<T>(s: State<T>, e: Event<T>)
    requires Inv(s) && Enabled(s, e) && (e.CallWrite? || e.CallRead?)
    ensures Control(Next(s, e))
  {
    hide Ownership, Data;
  }

  // A call only moves the thread off its idle place.
  lemma CallLeavesParts<T>(s: State<T>, e: Event<T>)
    requires Inv(s) && Enabled(s, e) && (e.CallWrite? || e.CallRead?) && Shape(s) && Shape(Next(s, e))
    ensures var s' := Next(s, e);
      && WriterHolds(s') == WriterHolds(s) && ReaderHolds(s') == ReaderHolds(s)
      && WriterPart(s') == WriterPart(s) && ReaderPart(s') == ReaderPart(s)
      && s'.(writer := s.writer, reader := s.reader) == s
  {
    hide Inv, Shape, Join;
    if e.CallWrite? {
      ReaderHoldsKept(s, Next(s, e));
      SameReaderPart(s, Next(s, e));
      hide ReaderPart, ReaderHolds;
    } else {
      WriterHoldsKept(s, Next(s, e));
      hide WriterHolds;
    }
  }

  lemma InitialiseKeepsInv<T>(s: State<T>)
    requires Inv(s) && Enabled(s, Initialise)
    ensures Inv(Next(s, Initialise))
  {
    EmptyBefore(s);
    hide Join, AllPackets;
    var s' := Next(s, Initialise);
    assert WriterHolds(s') == ReaderHolds(s') == multiset{} == multiset(s.readQueue);
    assert Control(s');
  }

  lemma EmptyBefore<T>(s: State<T>)
    requires Inv(s) && !s.valid
    ensures s.writeQueue == [] && InRange(AllPackets(s.packets), s.packets) && !s.reader.Requeueing?
  {
    hide Control, Data;
    assert |Owned(s)| == |s.writeQueue| + |s.readQueue| + |WriterHolds(s)| + |ReaderHolds(s)|;
  }

  // ---- Whole runs ----

  // Before _saudio_fifo_init; the sizes it will be given are fixed, the memory holds anything.
  ghost function Start<T>(packetSize: nat, memory: seq<seq<T>>): (s: State<T>)
    requires packetSize > 0 && |memory| > 0 && forall p | 0 <= p < |memory| :: |memory[p]| == packetSize
    ensures Inv(s)
  {
    State(packetSize, |memory|, false, Free, memory, [], [], NoPacket, 0, WriterIdle, ReaderIdle, [], [])
  }

  ghost predicate Schedule<T>(s: State<T>, events: seq<Event<T>>)
    requires Inv(s)
    decreases |events|
  {
    events == [] || (Enabled(s, events[0]) && (StepKeepsInv(s, events[0]); Schedule(Next(s, events[0]), events[1..])))
  }

  ghost function Run<T>(s: State<T>, events: seq<Event<T>>): State<T>
    requires Inv(s) && Schedule(s, events)
    decreases |events|
  {
    if events == [] then s else
      StepKeepsInv(s, events[0]);
      Run(Next(s, events[0]), events[1..])
  }

  lemma RunFirst<T>(s: State<T>, events: seq<Event<T>>)
    requires Inv(s) && Schedule(s, events) && events != []
    ensures Enabled(s, events[0]) && Inv(Next(s, events[0])) && Schedule(Next(s, events[0]), events[1..])
    ensures Run(s, events) == Run(Next(s, events[0]), events[1..])
  {
    StepKeepsInv(s, events[0]);
    hide Inv, Next, Enabled;
  }

  lemma {:induction false} RunKeepsInv<T>(s: State<T>, events: seq<Event<T>>)
    requires Inv(s) && Schedule(s, events)
    ensures Inv(Run(s, events))
    decreases |events|
  {
    if events != [] {
      RunFirst(s, events);
      hide Inv, Next, Enabled, Run, Schedule;
      RunKeepsInv(Next(s, events[0]), events[1..]);
    }
  }

  // The arguments of all writes up to s, the one under way included; and what all reads asked for.

  function Given<T>(s: State<T>): seq<seq<T>> {
    seq(|s.writeCalls|, i requires 0 <= i < |s.writeCalls| => s.writeCalls[i].bytes)
    + if s.writer.WriterIdle? then [] else [s.writer.call.bytes]
  }

  function Asked<T>(s: State<T>): seq<nat> {
    seq(|s.readCalls|, i requires 0 <= i < |s.readCalls| => s.readCalls[i].needed)
    + if s.reader.ReaderIdle? then [] else [s.reader.needed]
  }

  // The calls that a schedule makes.

  function WritesMade<T>(events: seq<Event<T>>): seq<seq<T>> {
    if events == [] then []
    else (if events[0].CallWrite? then [events[0].bytes] else []) + WritesMade(events[1..])
  }

  function ReadsMade<T>(events: seq<Event<T>>): seq<nat> {
    if events == [] then []
    else (if events[0].CallRead? then [events[0].needed] else []) + ReadsMade(events[1..])
  }

  lemma StepRecordsWrites<T>(s: State<T>, e: Event<T>)
    requires Inv(s) && Enabled(s, e)
    ensures Given(Next(s, e)) == Given(s) + if e.CallWrite? then [e.bytes] else []
  {
    hide Inv;
    if e.ReaderMoves? {
      ReaderLeavesWriter(s);
    }
  }

  lemma StepRecordsReads<T>(s: State<T>, e: Event<T>)
    requires Inv(s) && Enabled(s, e)
    ensures Asked(Next(s, e)) == Asked(s) + if e.CallRead? then [e.needed] else []
  {
    hide Inv;
    if e.WriterMoves? {
      WriterLeavesReader(s);
    }
  }

  lemma StepKeepsSize<T>(s: State<T>, e: Event<T>)
    requires Inv(s) && Enabled(s, e)
    ensures Next(s, e).packetSize == s.packetSize && Next(s, e).packets == s.packets
  {
    hide Inv;
  }

  lemma CallsFirst<T>(events: seq<Event<T>>)
    requires events != []
    ensures WritesMade(events) == (if events[0].CallWrite? then [events[0].bytes] else []) + WritesMade(events[1..])
    ensures ReadsMade(events) == (if events[0].CallRead? then [events[0].needed] else []) + ReadsMade(events[1..])
  {
  }

  // The calls on record are the calls of the schedule: every write with the bytes it was given,
  // every read with the number of packets it asked for.
  lemma {:induction false} RunRecordsCalls<T>(s: State<T>, events: seq<Event<T>>)
    requires Inv(s) && Schedule(s, events)
    ensures var t := Run(s, events);
      && Given(t) == Given(s) + WritesMade(events)
      && Asked(t) == Asked(s) + ReadsMade(events)
      && t.packetSize == s.packetSize
    decreases |events|
  {
    if events == [] {
      hide Inv, Next, Enabled, Given, Asked;
    } else {
      hide *;
      var e, rest := events[0], events[1..];
      RunFirst(s, events);
      CallsFirst(events);
      StepRecordsWrites(s, e);
      StepRecordsReads(s, e);
      StepKeepsSize(s, e);
      RunRecordsCalls(Next(s, e), rest);
      Associates(Given(s), if e.CallWrite? then [e.bytes] else [], WritesMade(rest));
      Associates(Asked(s), if e.CallRead? then [e.needed] else [], ReadsMade(rest));
    }
  }

  // A write finds no free packet just when every packet is queued for reading.
  lemma StarvedMeansFull<T>(s: State<T>)
    requires Inv(s) && s.writer.Taking?
    ensures WriterStep(s).current.NoPacket? <==> |s.readQueue| == s.packets
  {
    hide Inv, Shape, Data, AllPackets, Ownership, ReaderInv, ReadsInv;
    Parts(s);
    SizesAddUp(s);
    assert WriterHolds(s) == ReaderHolds(s) == multiset{};
  }

  // ---- What a read brings ----

  // The bytes of the first k packets on the read queue.
  function Front<T>(s: State<T>, k: nat): seq<T>
    requires Shape(s) && k <= |s.readQueue|
  {
    Join(s.memory, s.readQueue[..k])
  }

  // How many packets a read still has to take off the read queue.
  function LeftToPull<T>(r: Reader<T>): int {
    match r
    case Pulling(needed, pulled, _) => needed - pulled
    case Requeueing(needed, pulled, _, _) => needed - pulled - 1
    case CopyingOut(needed, pulled, _, _, _) => needed - pulled - 1
    case _ => 0
  }

  // A read that has the lock will return these bytes, however far it is.
  ghost predicate Brings<T>(s: State<T>, needed: nat, items: seq<T>)
    requires Shape(s)
  {
    && !s.reader.ReaderIdle? && !s.reader.WantRead? && s.reader.needed == needed
    && if s.reader.Checking? then
         items == if s.valid && |s.readQueue| >= needed then Front(s, needed) else []
       else
         0 <= LeftToPull(s.reader) <= |s.readQueue| && items == ReaderPart(s) + Front(s, LeftToPull(s.reader))
  }

  lemma FrontNone<T>(s: State<T>)
    requires Shape(s)
    ensures Front(s, 0) == []
  {
  }

  lemma FrontFirst<T>(s: State<T>, s': State<T>, k: nat)
    requires Shape(s) && Shape(s') && 0 < k <= |s.readQueue|
    requires s'.memory == s.memory && s'.readQueue == s.readQueue[1..]
    ensures Front(s, k) == s.memory[s.readQueue[0]] + Front(s', k - 1)
  {
    assert s.readQueue[..k][1..] == s'.readQueue[..k - 1];
  }

  lemma ReaderBrings<T>(s: State<T>, needed: nat, items: seq<T>)
    requires Inv(s) && Enabled(s, ReaderMoves) && Shape(s) && Shape(ReaderStep(s)) && Brings(s, needed, items)
    ensures var s' := ReaderStep(s);
      if s.reader.Returning? then s'.reader.ReaderIdle? && s'.readCalls == s.readCalls + [ReadCall(needed, items)]
      else Brings(s', needed, items) && s'.readCalls == s.readCalls
  {
    hide *;
    Parts(s);
    BringsBusy(s, needed, items);
    if s.reader.Checking? {
      CheckingBrings(s, needed, items);
    } else if s.reader.Returning? {
      ReturningBrings(s, needed, items);
    } else if s.reader.Pulling? && s.reader.pulled < s.reader.needed {
      PullingBrings(s, needed, items);
    } else {
      ReaderLeavesOwnPart(s);
      ReaderLeavesQueue(s);
      ReaderLeavesLeft(s);
      ReaderLeavesWriter(s);
      SameFront(s, ReaderStep(s));
      StillBrings(s, ReaderStep(s), needed, items);
    }
  }

  lemma BringsBusy<T>(s: State<T>, needed: nat, items: seq<T>)
    requires Shape(s) && Brings(s, needed, items)
    ensures !s.reader.ReaderIdle? && !s.reader.WantRead?
  {
    hide Shape, Front;
  }

  lemma CheckingBrings<T>(s: State<T>, needed: nat, items: seq<T>)
    requires Inv(s) && Enabled(s, ReaderMoves) && Shape(s) && Shape(ReaderStep(s)) && Brings(s, needed, items)
    requires s.reader.Checking?
    ensures Brings(ReaderStep(s), needed, items) && ReaderStep(s).readCalls == s.readCalls
  {
    var s' := ReaderStep(s);
    CheckingDecides(s);
    SameFront(s, s');
    FrontNone(s);
    hide Inv, Shape, Front, Enabled, ReaderStep;
    assert [] + Front(s, 0) == [];
    if s.valid && |s.readQueue| >= needed {
      assert [] + Front(s, needed) == Front(s, needed);
    }
  }

  lemma CheckingDecides<T>(s: State<T>)
    requires Inv(s) && Enabled(s, ReaderMoves) && s.reader.Checking?
    ensures var needed := s.reader.needed;
      ReaderStep(s) == s.(reader := if s.valid && |s.readQueue| >= needed then Pulling(needed, 0, [])
                                    else Returning(needed, []))
  {
    hide Inv;
  }

  lemma SameFront<T>(s: State<T>, s': State<T>)
    requires Shape(s) && Shape(s') && s'.memory == s.memory && s'.readQueue == s.readQueue
    ensures forall k | 0 <= k <= |s.readQueue| :: Front(s', k) == Front(s, k)
  {
  }

  lemma ReturningBrings<T>(s: State<T>, needed: nat, items: seq<T>)
    requires Inv(s) && Enabled(s, ReaderMoves) && Shape(s) && Brings(s, needed, items) && s.reader.Returning?
    ensures var s' := ReaderStep(s);
      s'.reader.ReaderIdle? && s'.readCalls == s.readCalls + [ReadCall(needed, items)]
  {
    FrontNone(s);
    hide Inv, Shape, Front;
    assert ReaderPart(s) + [] == ReaderPart(s);
  }

  lemma PullingBrings<T>(s: State<T>, needed: nat, items: seq<T>)
    requires Inv(s) && Enabled(s, ReaderMoves) && Shape(s) && Shape(ReaderStep(s)) && Brings(s, needed, items)
    requires ReaderInv(s) && s.reader.Pulling? && s.reader.pulled < s.reader.needed
    ensures Brings(ReaderStep(s), needed, items) && ReaderStep(s).readCalls == s.readCalls
  {
    PullingTakes(s);
    var s', k, out := ReaderStep(s), s.reader.needed - s.reader.pulled, s.reader.out;
    FrontFirst(s, s', k);
    hide Inv, Shape, Front, Enabled, ReaderStep, ReaderInv;
    Associates(out, s.memory[s.readQueue[0]], Front(s', k - 1));
  }

  lemma PullingTakes<T>(s: State<T>)
    requires Inv(s) && Shape(s) && ReaderInv(s) && Enabled(s, ReaderMoves)
    requires s.reader.Pulling? && s.reader.pulled < s.reader.needed
    ensures s.readQueue != [] && s.readQueue[0] < |s.memory| && s.reader.needed - s.reader.pulled <= |s.readQueue|
    ensures var r, s' := s.reader, ReaderStep(s);
      && s'.reader == Requeueing(r.needed, r.pulled, r.out, s.readQueue[0]) && s'.readQueue == s.readQueue[1..]
      && s'.memory == s.memory && s'.readCalls == s.readCalls
  {
    hide Inv, Recorded, Filled, Across;
  }

  lemma ReaderLeavesLeft<T>(s: State<T>)
    requires Inv(s) && ReaderInv(s) && Enabled(s, ReaderMoves)
    requires !s.reader.Returning? && !s.reader.Checking? && !s.reader.WantRead?
    requires !(s.reader.Pulling? && s.reader.pulled < s.reader.needed)
    ensures var r, r' := s.reader, ReaderStep(s).reader;
      && !r'.ReaderIdle? && !r'.WantRead? && !r'.Checking? && r'.needed == r.needed
      && LeftToPull(r') == LeftToPull(r)
  {
    hide Inv;
  }

  lemma StillBrings<T>(s: State<T>, s': State<T>, needed: nat, items: seq<T>)
    requires Shape(s) && Shape(s') && Brings(s, needed, items) && !s.reader.Checking?
    requires !s'.reader.ReaderIdle? && !s'.reader.WantRead? && !s'.reader.Checking?
    requires s'.reader.needed == s.reader.needed && LeftToPull(s'.reader) == LeftToPull(s.reader)
    requires s'.readQueue == s.readQueue && ReaderPart(s') == ReaderPart(s)
    requires forall k | 0 <= k <= |s.readQueue| :: Front(s', k) == Front(s, k)
    ensures Brings(s', needed, items)
  {
    hide Shape, Front, ReaderPart, LeftToPull;
  }

  // The writer leaves what the reader is about to return: it is on the read queue, or in the hands of
  // the reader, and the lock keeps the writer from the queues.
  lemma WriterLeavesBrings<T>(s: State<T>, needed: nat, items: seq<T>)
    requires Inv(s) && Enabled(s, WriterMoves) && Shape(s) && Brings(s, needed, items) && Shape(WriterStep(s))
    ensures Brings(WriterStep(s), needed, items) && WriterStep(s).readCalls == s.readCalls
  {
    hide *;
    var s' := WriterStep(s);
    Parts(s);
    BringsBusy(s, needed, items);
    ReaderHasLock(s);
    WriterLeavesReader(s);
    NoPublishing(s);
    WriterLeavesReaderPart(s);
    WriterLeavesPages(s);
    SameBrings(s, s', needed, items);
  }

  lemma ReaderHasLock<T>(s: State<T>)
    requires LockInv(s) && !s.reader.ReaderIdle? && !s.reader.WantRead?
    ensures s.lock == HeldBy(ReaderThread) && !s.writer.Publishing? && !s.writer.Taking?
  {
  }

  lemma NoPublishing<T>(s: State<T>)
    requires Inv(s) && Enabled(s, WriterMoves) && !s.writer.Publishing?
    ensures WriterStep(s).readQueue == s.readQueue
  {
    hide Inv, Enabled;
  }

  // No page on the read queue is the one the writer fills.
  lemma WriterLeavesPages<T>(s: State<T>)
    requires Inv(s) && Shape(s) && Enabled(s, WriterMoves) && Shape(WriterStep(s)) && !s.writer.Publishing?
    ensures forall k | 0 <= k <= |s.readQueue| ::
      k <= |WriterStep(s).readQueue| && Front(WriterStep(s), k) == Front(s, k)
  {
    hide *;
    var s' := WriterStep(s);
    NoPublishing(s);
    if s.writer.Copying? && s.writer.done < s.writer.count {
      CopyingInside(s);
      UnlockedCopyIsPrivate(s);
      CopyingStores(s);
      forall k | 0 <= k <= |s.readQueue|
        ensures Front(s', k) == Front(s, k)
      {
        StoredElsewhere(s, s', s.memory[s.current.index][Filled(s) := s.writer.call.bytes[Across(s.writer)]], k);
      }
    } else {
      WriterStillCopies(s);
      WriterLeavesMemory(s);
      SameFront(s, s');
    }
  }

  lemma WriterStillCopies<T>(s: State<T>)
    requires !(s.writer.Copying? && s.writer.done < s.writer.count)
    ensures s.writer.Copying? ==> s.writer.done >= s.writer.count
  {
  }

  lemma StoredElsewhere<T>(s: State<T>, s': State<T>, page: seq<T>, k: nat)
    requires Shape(s) && Shape(s') && k <= |s.readQueue| && s'.readQueue == s.readQueue
    requires s.current.Packet? && s.current.index !in s.readQueue && s.current.index < |s.memory|
    requires s'.memory == s.memory[s.current.index := page]
    ensures Front(s', k) == Front(s, k)
  {
    JoinUntouched(s.memory, s.readQueue[..k], s.current.index, page);
  }

  lemma SameBrings<T>(s: State<T>, s': State<T>, needed: nat, items: seq<T>)
    requires Shape(s) && Shape(s') && Brings(s, needed, items)
    requires s'.reader == s.reader && s'.valid == s.valid && |s'.readQueue| == |s.readQueue|
    requires ReaderPart(s') == ReaderPart(s)
    requires forall k | 0 <= k <= |s.readQueue| :: Front(s', k) == Front(s, k)
    ensures Brings(s', needed, items)
  {
    hide Shape, Front, ReaderPart, LeftToPull;
  }

  lemma StepBrings<T>(s: State<T>, e: Event<T>, needed: nat, items: seq<T>)
    requires Inv(s) && Enabled(s, e) && Shape(s) && Brings(s, needed, items) && Shape(Next(s, e))
    ensures var s' := Next(s, e);
      if e.ReaderMoves? && s.reader.Returning? then
        s'.reader.ReaderIdle? && s'.readCalls == s.readCalls + [ReadCall(needed, items)]
      else
        Brings(s', needed, items) && s'.readCalls == s.readCalls && !s'.reader.ReaderIdle?
  {
    NextIs(s, e);
    Parts(s);
    BringsBusy(s, needed, items);
    ReaderHasLock(s);
    hide Inv, Shape, Next, Enabled, Brings, Front, ReaderStep, WriterStep, LockInv, WriterInv, ReaderInv, Data;
    match e {
      case ReaderMoves =>
        ReaderBrings(s, needed, items);
        if !s.reader.Returning? {
          BringsBusy(ReaderStep(s), needed, items);
        }
      case WriterMoves =>
        WriterLeavesBrings(s, needed, items);
        WriterLeavesReader(s);
      case CallWrite(bytes) =>
        CallWriteBrings(s, bytes, needed, items);
      case _ =>
    }
  }

  // The reader has the lock, so that no initialisation comes in between; and it is in its call.
  lemma NextIs<T>(s: State<T>, e: Event<T>)
    requires Inv(s) && Enabled(s, e)
    ensures match e
      case WriterMoves => Next(s, e) == WriterStep(s)
      case ReaderMoves => Next(s, e) == ReaderStep(s)
      case CallWrite(bytes) => s.writer.WriterIdle? && Next(s, e) == s.(writer := Looping(WriteCall(bytes, 0)))
      case CallRead(_) => s.reader.ReaderIdle?
      case Initialise => s.lock.Free?
  {
    hide Inv, ReaderStep, WriterStep;
  }

  lemma CallWriteBrings<T>(s: State<T>, bytes: seq<T>, needed: nat, items: seq<T>)
    requires Shape(s) && Brings(s, needed, items)
    requires Shape(s.(writer := Looping(WriteCall(bytes, 0))))
    ensures Brings(s.(writer := Looping(WriteCall(bytes, 0))), needed, items)
  {
    var s' := s.(writer := Looping(WriteCall(bytes, 0)));
    SameFront(s, s');
    ReaderPartStays(s, s');
    SameBrings(s, s', needed, items);
    hide Shape, Brings, Front;
  }

  lemma {:induction false} IdleReaderRun<T>(s: State<T>, events: seq<Event<T>>)
    requires Inv(s) && Schedule(s, events) && s.reader.ReaderIdle?
    requires forall e | e in events :: !e.CallRead?
    ensures Run(s, events).reader.ReaderIdle? && Run(s, events).readCalls == s.readCalls
    decreases |events|
  {
    if events == [] {
      hide Inv;
    } else {
      RunFirst(s, events);
      IdleReaderStep(s, events[0]);
      hide Inv, Next, Enabled, Run, Schedule;
      IdleReaderRun(Next(s, events[0]), events[1..]);
    }
  }

  lemma IdleReaderStep<T>(s: State<T>, e: Event<T>)
    requires Inv(s) && Enabled(s, e) && s.reader.ReaderIdle? && !e.CallRead?
    ensures Next(s, e).reader.ReaderIdle? && Next(s, e).readCalls == s.readCalls
  {
    hide Inv, ReaderStep, WriterStep;
    if e.WriterMoves? {
      WriterLeavesReader(s);
    }
  }

  lemma {:induction false} BringsRun<T>(s: State<T>, events: seq<Event<T>>, needed: nat, items: seq<T>)
    requires Inv(s) && Schedule(s, events) && Shape(s) && Brings(s, needed, items) && !s.reader.ReaderIdle?
    requires forall e | e in events :: !e.CallRead?
    ensures var t := Run(s, events);
      t.readCalls == s.readCalls + if t.reader.ReaderIdle? then [ReadCall(needed, items)] else []
    decreases |events|
  {
    if events == [] {
      hide Inv, Shape, Brings;
      assert s.readCalls + [] == s.readCalls;
    } else {
      RunFirst(s, events);
      var s' := Next(s, events[0]);
      Parts(s');
      StepBrings(s, events[0], needed, items);
      hide Inv, Shape, Next, Enabled, Brings, Run, Schedule, LockInv, WriterInv, ReaderInv, ReadsInv, Ownership, Data;
      if s'.reader.ReaderIdle? {
        IdleReaderRun(s', events[1..]);
      } else {
        BringsRun(s', events[1..], needed, items);
      }
    }
  }

  // A read that finds as many packets as it needs when it looks returns the first of them, all in one
  // piece, whatever the writer does meanwhile; one that does not, or looks before the fifo is valid,
  // returns nothing.
  lemma ReadReturns<T>(s: State<T>, events: seq<Event<T>>)
    requires Inv(s) && Schedule(s, events) && s.reader.Checking?
    requires forall e | e in events :: !e.CallRead?
    ensures var t, needed := Run(s, events), s.reader.needed;
      var items := if s.valid && |s.readQueue| >= needed then Front(s, needed) else [];
      t.readCalls == s.readCalls + if t.reader.ReaderIdle? then [ReadCall(needed, items)] else []
  {
    Parts(s);
    var needed := s.reader.needed;
    var items := if s.valid && |s.readQueue| >= needed then Front(s, needed) else [];
    assert Brings(s, needed, items);
    hide Inv, Shape, Brings, Run, Schedule, Front;
    BringsRun(s, events, needed, items);
  }

  // ---- What a write has room for ----

  // What _saudio_fifo_writable_bytes returns between two writes, and how much of it is left on the way.
  function RoomLeft<T>(s: State<T>): nat
    requires Shape(s)
  {
    |s.writeQueue| * s.packetSize + if WriterOwns(s) then s.packetSize - Filled(s) else 0
  }

  // The write under way will return a number from low to high, or less than low if it has no more left
  // to copy: what it has copied and what there is room for add up to that. Once it has found no packet
  // it has copied as much as low.
  ghost predicate Accounts<T>(s: State<T>, low: nat, high: int)
    requires Shape(s)
  {
    && !s.writer.WriterIdle?
    && low <= Across(s.writer) + RoomLeft(s) <= high
    && ((s.writer.Taken? || s.writer.Ready?) && s.current.NoPacket? ==> low <= Across(s.writer))
  }

  // The step of the reader that makes room.
  predicate PutsBack<T>(s: State<T>, e: Event<T>) {
    e.ReaderMoves? && s.reader.Requeueing?
  }

  // A write has returned, with a number of bytes between these or with all that it was given.
  ghost predicate Took<T>(s: State<T>, s': State<T>, bytes: seq<T>, low: nat, high: int) {
    exists n: nat | n <= |bytes| :: TookExactly(s, s', bytes, n) && (low <= n || n == |bytes|) && n <= high
  }

  ghost predicate TookExactly<T>(s: State<T>, s': State<T>, bytes: seq<T>, n: nat) {
    s'.writeCalls == s.writeCalls + [WriteCall(bytes, n)]
  }

  // The reader makes room for one packet when it puts it back, and none otherwise.
  lemma ReaderMakesRoom<T>(s: State<T>)
    requires Inv(s) && Enabled(s, ReaderMoves) && Shape(s) && Shape(ReaderStep(s))
    ensures RoomLeft(ReaderStep(s)) == RoomLeft(s) + if s.reader.Requeueing? then s.packetSize else 0
  {
    hide *;
    ReaderLeavesWriter(s);
    ReaderKeepsSize(s);
    RoomGrows(s, ReaderStep(s));
  }

  lemma ReaderKeepsSize<T>(s: State<T>)
    requires Inv(s) && Enabled(s, ReaderMoves)
    ensures ReaderStep(s).packetSize == s.packetSize
    ensures |ReaderStep(s).writeQueue| == |s.writeQueue| + if s.reader.Requeueing? then 1 else 0
  {
    hide Inv;
  }

  lemma RoomGrows<T>(s: State<T>, s': State<T>)
    requires Shape(s) && Shape(s') && s'.writer == s.writer && s'.current == s.current && s'.offset == s.offset
    requires s'.packetSize == s.packetSize && |s.writeQueue| <= |s'.writeQueue| <= |s.writeQueue| + 1
    ensures RoomLeft(s') == RoomLeft(s) + if |s'.writeQueue| > |s.writeQueue| then s.packetSize else 0
  {
    OneMore(|s.writeQueue|, s.packetSize);
    hide Shape;
  }

  // The writer only turns room into bytes copied.
  lemma WriterAccounts<T>(s: State<T>, low: nat, high: int)
    requires Inv(s) && Enabled(s, WriterMoves) && Shape(s) && Shape(WriterStep(s)) && Accounts(s, low, high)
    ensures var s', bytes := WriterStep(s), s.writer.call.bytes;
      if s'.writer.WriterIdle? then Took(s, s', bytes, low, high)
      else Accounts(s', low, high) && s'.writeCalls == s.writeCalls && s'.writer.call.bytes == bytes
  {
    hide *;
    Parts(s);
    if s.writer.Taking? {
      TakingAccounts(s, low, high);
    } else if s.writer.Copying? && s.writer.done < s.writer.count {
      CopyingAccounts(s, low, high);
    } else if s.writer.Publishing? {
      PublishingAccounts(s, low, high);
    } else if WriterStep(s).writer.WriterIdle? {
      ReturnAccounts(s, low, high);
    } else {
      OtherAccounts(s, low, high);
    }
  }

  lemma TakingAccounts<T>(s: State<T>, low: nat, high: int)
    requires Inv(s) && WriterInv(s) && Enabled(s, WriterMoves) && Shape(s) && Shape(WriterStep(s))
    requires Accounts(s, low, high) && s.writer.Taking?
    ensures var s' := WriterStep(s);
      && !s'.writer.WriterIdle? && Accounts(s', low, high) && s'.writeCalls == s.writeCalls
      && s'.writer.call.bytes == s.writer.call.bytes
  {
    if s.writeQueue != [] {
      OneMore(|s.writeQueue| - 1, s.packetSize);
    }
    hide Inv, Shape, Enabled;
  }

  lemma CopyingAccounts<T>(s: State<T>, low: nat, high: int)
    requires Inv(s) && Enabled(s, WriterMoves) && Shape(s) && Shape(WriterStep(s))
    requires Accounts(s, low, high) && s.writer.Copying? && s.writer.done < s.writer.count
    ensures var s' := WriterStep(s);
      && !s'.writer.WriterIdle? && Accounts(s', low, high) && s'.writeCalls == s.writeCalls
      && s'.writer.call.bytes == s.writer.call.bytes
  {
    CopyingInside(s);
    CopyingStores(s);
    CopyingOwns(s);
    hide Inv, Shape, Enabled, WriterStep, WriterOwns;
  }

  lemma PublishingAccounts<T>(s: State<T>, low: nat, high: int)
    requires Inv(s) && WriterInv(s) && Enabled(s, WriterMoves) && Shape(s) && Shape(WriterStep(s))
    requires Accounts(s, low, high) && s.writer.Publishing?
    ensures var s' := WriterStep(s);
      && !s'.writer.WriterIdle? && Accounts(s', low, high) && s'.writeCalls == s.writeCalls
      && s'.writer.call.bytes == s.writer.call.bytes
  {
    hide Inv, Shape, Enabled;
  }

  lemma ReturnAccounts<T>(s: State<T>, low: nat, high: int)
    requires Inv(s) && WriterInv(s) && Enabled(s, WriterMoves) && Shape(s) && Shape(WriterStep(s))
    requires Accounts(s, low, high) && WriterStep(s).writer.WriterIdle?
    requires !(s.writer.Copying? && s.writer.done < s.writer.count)
    ensures Took(s, WriterStep(s), s.writer.call.bytes, low, high)
  {
    WriterStillCopies(s);
    WriterReturns(s);
    assert s.writer.call == WriteCall(s.writer.call.bytes, s.writer.call.at);
    assert s.writer.call.at == Across(s.writer) <= |s.writer.call.bytes|;
    hide Inv, Shape, Enabled, WriterStep, Filled, WriterOwns, WriterInv;
    assert TookExactly(s, WriterStep(s), s.writer.call.bytes, s.writer.call.at);
  }

  lemma OtherAccounts<T>(s: State<T>, low: nat, high: int)
    requires Inv(s) && WriterInv(s) && Enabled(s, WriterMoves) && Shape(s) && Shape(WriterStep(s))
    requires Accounts(s, low, high) && !WriterStep(s).writer.WriterIdle?
    requires !s.writer.Taking? && !s.writer.Publishing? && !(s.writer.Copying? && s.writer.done < s.writer.count)
    ensures var s' := WriterStep(s);
      Accounts(s', low, high) && s'.writeCalls == s.writeCalls && s'.writer.call.bytes == s.writer.call.bytes
  {
    WriterStillCopies(s);
    WriterReturns(s);
    WriterLeavesWriteQueue(s);
    WriterLeavesReader(s);
    WriterLeavesShare(s);
    hide Inv, Shape, Enabled, WriterStep, Across, Filled, WriterOwns, WriterInv;
  }

  // What of its packet the writer can still fill does not change where nothing is copied.
  lemma WriterLeavesShare<T>(s: State<T>)
    requires Inv(s) && WriterInv(s) && Enabled(s, WriterMoves) && !WriterStep(s).writer.WriterIdle?
    requires !s.writer.Taking? && !s.writer.Publishing? && !(s.writer.Copying? && s.writer.done < s.writer.count)
    ensures var s' := WriterStep(s);
      && WriterOwns(s') == WriterOwns(s) && Filled(s') == (if s.writer.Forgetting? then 0 else Filled(s))
      && ((s'.writer.Taken? || s'.writer.Ready?) && s'.current.NoPacket? ==> s.writer.Taken? && s.current.NoPacket?)
      && (s.writer.Forgetting? ==> !WriterOwns(s'))
  {
    hide Inv, Across, RoomLeft;
  }

  lemma StepAccounts<T>(s: State<T>, e: Event<T>, low: nat, high: int)
    requires Inv(s) && Enabled(s, e) && Shape(s) && Shape(Next(s, e)) && Accounts(s, low, high) && s.valid
    ensures var s', bytes := Next(s, e), s.writer.call.bytes;
      && s'.valid && s'.packetSize == s.packetSize
      && if s'.writer.WriterIdle? then Took(s, s', bytes, low, high)
         else
           && (if PutsBack(s, e) then Accounts(s', low, high + s.packetSize) else Accounts(s', low, high))
           && s'.writeCalls == s.writeCalls && s'.writer.call.bytes == bytes
  {
    NextIs(s, e);
    StaysValid(s, e);
    match e {
      case WriterMoves =>
        WriterAccounts(s, low, high);
        WriterLeavesReader(s);
      case ReaderMoves =>
        ReaderMakesRoom(s);
        ReaderLeavesWriter(s);
        ReaderKeepsSize(s);
        ReaderAccounts(s, ReaderStep(s), low, high, if s.reader.Requeueing? then s.packetSize else 0);
      case CallRead(needed) => ReaderAccounts(s, Next(s, e), low, high, 0);
      case _ =>
    }
    hide Inv, Shape, Next, Enabled, ReaderStep, WriterStep, RoomLeft, Across, Accounts, Took;
  }

  lemma StaysValid<T>(s: State<T>, e: Event<T>)
    requires Inv(s) && Enabled(s, e) && s.valid
    ensures Next(s, e).valid && !e.Initialise?
    ensures e.CallWrite? ==> s.writer.WriterIdle?
    ensures e.CallRead? ==> Next(s, e) == s.(reader := WantRead(e.needed))
  {
    hide Inv;
  }

  lemma ReaderAccounts<T>(s: State<T>, s': State<T>, low: nat, high: int, more: nat)
    requires Shape(s) && Shape(s') && Accounts(s, low, high) && s'.writer == s.writer && s'.current == s.current
    requires RoomLeft(s') == RoomLeft(s) + more
    ensures Accounts(s', low, high + more)
  {
    hide Shape, RoomLeft;
  }

  // How many packets the reader puts back in a run.
  ghost function PutBack<T>(s: State<T>, events: seq<Event<T>>): nat
    requires Inv(s) && Schedule(s, events)
    decreases |events|
  {
    if events == [] then 0 else
      StepKeepsInv(s, events[0]);
      (if PutsBack(s, events[0]) then 1 else 0) + PutBack(Next(s, events[0]), events[1..])
  }

  lemma {:induction false} IdleWriterRun<T>(s: State<T>, events: seq<Event<T>>)
    requires Inv(s) && Shape(s) && Schedule(s, events) && s.writer.WriterIdle?
    requires forall e | e in events :: !e.CallWrite?
    ensures var t := Run(s, events);
      && Inv(t) && Shape(t) && t.writer.WriterIdle? && t.writeCalls == s.writeCalls
      && (s.valid ==> t.valid && RoomLeft(t) >= RoomLeft(s))
    decreases |events|
  {
    if events == [] {
      hide Inv, Shape, RoomLeft;
    } else {
      RunFirst(s, events);
      var s' := Next(s, events[0]);
      Parts(s');
      IdleWriterStep(s, events[0]);
      hide *;
      IdleWriterRun(s', events[1..]);
    }
  }

  lemma IdleWriterStep<T>(s: State<T>, e: Event<T>)
    requires Inv(s) && Enabled(s, e) && Shape(s) && Shape(Next(s, e)) && s.writer.WriterIdle? && !e.CallWrite?
    ensures var s' := Next(s, e);
      && s'.writer.WriterIdle? && s'.writeCalls == s.writeCalls
      && (s.valid ==> s'.valid && RoomLeft(s') >= RoomLeft(s))
  {
    NextIs(s, e);
    if s.valid {
      StaysValid(s, e);
    }
    if e.ReaderMoves? {
      ReaderMakesRoom(s);
      ReaderLeavesWriter(s);
      hide Inv, Shape, Enabled, Next, ReaderStep, RoomLeft;
    } else {
      hide Inv, Shape;
    }
  }

  // How far the write under way has yet to go, counted in steps: at most eleven for each byte left.
  function Ahead<T>(w: Writer<T>): int {
    if w.WriterIdle? then 0
    else
      var left := 11 * (|w.call.bytes| - w.call.at);
      match w
      case Looping(_) => left + 1
      case WantPacket(_) => left
      case Taking(_) => left - 1
      case Taken(_) => left - 2
      case Ready(_) => left - 3
      case Copying(_, _, done) => left - 4 - done
      case WantPublish(_) => left + 5
      case Publishing(_) => left + 4
      case Published(_) => left + 3
      case Forgetting(_) => left + 2
  }

  // Every step of the writer brings it nearer to its return.
  lemma WriterAdvances<T>(s: State<T>)
    requires Inv(s) && Enabled(s, WriterMoves)
    ensures Ahead(WriterStep(s).writer) < Ahead(s.writer)
  {
    hide *;
    Parts(s);
    if s.writer.Copying? && s.writer.done < s.writer.count {
      CopyingInside(s);
      CopyingStores(s);
      CopyingAdvances(s.writer);
    } else if s.writer.Copying? {
      CopiedAdvances(s);
    } else {
      InCall(s);
      OthersAdvance(s);
    }
  }

  lemma InCall<T>(s: State<T>)
    requires Shape(s) && Enabled(s, WriterMoves)
    ensures !s.writer.WriterIdle? && s.writer.call.at <= |s.writer.call.bytes|
  {
    hide Recorded, InRange, Filled;
  }

  lemma CopyingAdvances<T>(w: Writer<T>)
    requires w.Copying?
    ensures Ahead(w.(done := w.done + 1)) < Ahead(w)
  {
  }

  lemma OthersAdvance<T>(s: State<T>)
    requires Inv(s) && Enabled(s, WriterMoves) && WriterInv(s)
    requires s.writer.call.at <= |s.writer.call.bytes| && !s.writer.Copying?
    ensures Ahead(WriterStep(s).writer) < Ahead(s.writer)
  {
    hide Inv;
  }

  lemma CopiedAdvances<T>(s: State<T>)
    requires Inv(s) && Enabled(s, WriterMoves) && WriterInv(s) && s.writer.Copying? && s.writer.done >= s.writer.count
    ensures Ahead(WriterStep(s).writer) < Ahead(s.writer)
  {
    hide Inv;
  }

  lemma AheadIsNat<T>(s: State<T>)
    requires Inv(s)
    ensures Ahead(s.writer) >= 0 && (Ahead(s.writer) == 0 <==> s.writer.WriterIdle?)
  {
    Parts(s);
    hide Inv, LockInv, ReaderInv, ReadsInv, Ownership, Data, Recorded;
  }

  function WriterSteps<T>(events: seq<Event<T>>): nat {
    if events == [] then 0 else (if events[0].WriterMoves? then 1 else 0) + WriterSteps(events[1..])
  }

  lemma OthersLeaveWriter<T>(s: State<T>, e: Event<T>)
    requires Inv(s) && Enabled(s, e) && !e.WriterMoves? && !e.CallWrite?
    ensures Next(s, e).writer == s.writer
  {
    if e.ReaderMoves? {
      ReaderLeavesWriter(s);
    }
    hide Inv, ReaderStep, WriterStep;
  }

  // However the threads are interleaved, a write ends within a number of its own steps that depends
  // on nothing but what it has left to copy: eleven for each byte and one.
  lemma {:induction false} WriteEnds<T>(s: State<T>, events: seq<Event<T>>)
    requires Inv(s) && Schedule(s, events) && forall e | e in events :: !e.CallWrite?
    ensures var t := Run(s, events);
      && WriterSteps(events) + Ahead(t.writer) <= Ahead(s.writer)
      && (Ahead(t.writer) == 0 <==> t.writer.WriterIdle?) && Ahead(t.writer) >= 0
    decreases |events|
  {
    if events == [] {
      AheadIsNat(s);
      hide Inv, Ahead;
    } else {
      RunFirst(s, events);
      NextIs(s, events[0]);
      if events[0].WriterMoves? {
        WriterAdvances(s);
      } else {
        OthersLeaveWriter(s, events[0]);
      }
      hide Inv, Next, Enabled, Run, Schedule, Ahead;
      WriteEnds(Next(s, events[0]), events[1..]);
    }
  }

  // A thread in its call can move, or the other one can.
  lemma NoDeadlock<T>(s: State<T>)
    requires Inv(s)
    ensures !s.writer.WriterIdle? ==> Enabled(s, WriterMoves) || Enabled(s, ReaderMoves)
    ensures !s.reader.ReaderIdle? ==> Enabled(s, ReaderMoves) || Enabled(s, WriterMoves)
  {
    Parts(s);
    hide *;
    LockIsInUse(s);
  }

  lemma LockIsInUse<T>(s: State<T>)
    requires LockInv(s)
    ensures !s.writer.WriterIdle? ==> Enabled(s, WriterMoves) || Enabled(s, ReaderMoves)
    ensures !s.reader.ReaderIdle? ==> Enabled(s, ReaderMoves) || Enabled(s, WriterMoves)
  {
    match s.lock
    case Free =>
    case HeldBy(WriterThread) =>
    case HeldBy(ReaderThread) =>
  }

  // The same for a read: so many steps for each packet, and four.
  function ReadAhead<T>(r: Reader<T>, packetSize: nat): int {
    match r
    case ReaderIdle => 0
    case WantRead(needed) => InPackets(needed, packetSize + 3) + 4
    case Checking(needed) => InPackets(needed, packetSize + 3) + 3
    case Pulling(needed, pulled, _) => InPackets(needed - pulled, packetSize + 3) + 2
    case Requeueing(needed, pulled, _, _) => InPackets(needed - pulled, packetSize + 3) + 1
    case CopyingOut(needed, pulled, _, _, copied) => InPackets(needed - pulled, packetSize + 3) - |copied|
    case Returning(_, _) => 1
  }

  function InPackets(n: int, size: nat): int {
    n * size
  }

  lemma PacketsAdd(n: int, size: nat)
    ensures InPackets(n, size) == InPackets(n - 1, size) + size
    ensures InPackets(0, size) == 0 && (n >= 0 ==> InPackets(n, size) >= 0)
  {
  }

  // Where a step takes the reader.
  ghost predicate Turns<T>(r: Reader<T>, r': Reader<T>, packetSize: nat) {
    match r
    case WantRead(needed) => r' == Checking(needed)
    case Checking(needed) => r' == Pulling(needed, 0, []) || r' == Returning(needed, [])
    case Pulling(needed, pulled, _) =>
      if pulled == needed then r'.Returning? else r'.Requeueing? && r'.needed == needed && r'.pulled == pulled
    case Requeueing(needed, pulled, _, _) =>
      r'.CopyingOut? && r'.needed == needed && r'.pulled == pulled && r'.copied == []
    case CopyingOut(needed, pulled, _, _, copied) =>
      if |copied| < packetSize then
        r'.CopyingOut? && r'.needed == needed && r'.pulled == pulled && |r'.copied| == |copied| + 1
      else r'.Pulling? && r'.needed == needed && r'.pulled == pulled + 1
    case Returning(_, _) => r'.ReaderIdle?
    case ReaderIdle => false
  }

  // What the counters of the reader are good for.
  ghost predicate Counts<T>(r: Reader<T>, packetSize: nat) {
    match r
    case Pulling(needed, pulled, _) => pulled <= needed
    case Requeueing(needed, pulled, _, _) => pulled < needed
    case CopyingOut(needed, pulled, _, _, copied) => pulled < needed && |copied| <= packetSize
    case _ => true
  }

  lemma ReaderTurns<T>(s: State<T>)
    requires Inv(s) && ReaderInv(s) && Enabled(s, ReaderMoves)
    ensures Turns(s.reader, ReaderStep(s).reader, s.packetSize)
  {
    hide Inv;
  }

  lemma ReaderCounts<T>(s: State<T>)
    requires Inv(s)
    ensures Counts(s.reader, s.packetSize)
  {
    Parts(s);
    if s.reader.CopyingOut? {
      PageCopied(s);
    }
    hide Inv, Shape, LockInv, WriterInv, ReadsInv, Ownership, Data;
  }

  lemma PageCopied<T>(s: State<T>)
    requires Shape(s) && s.reader.CopyingOut?
    ensures |s.reader.copied| <= s.packetSize
  {
  }

  lemma CountsAhead<T>(r: Reader<T>, packetSize: nat)
    requires Counts(r, packetSize)
    ensures ReadAhead(r, packetSize) >= 0 && (ReadAhead(r, packetSize) == 0 <==> r.ReaderIdle?)
  {
    hide InPackets;
    match r {
      case Pulling(needed, pulled, _) => PacketsAdd(needed - pulled, packetSize + 3);
      case Requeueing(needed, pulled, _, _) => PacketsAdd(needed - pulled, packetSize + 3);
      case CopyingOut(needed, pulled, _, _, _) =>
        PacketsAdd(needed - pulled, packetSize + 3);
        PacketsAdd(needed - pulled - 1, packetSize + 3);
      case WantRead(needed) => PacketsAdd(needed, packetSize + 3);
      case Checking(needed) => PacketsAdd(needed, packetSize + 3);
      case _ =>
    }
  }

  lemma TurnsAhead<T>(r: Reader<T>, r': Reader<T>, packetSize: nat)
    requires Counts(r, packetSize) && Turns(r, r', packetSize)
    ensures ReadAhead(r', packetSize) < ReadAhead(r, packetSize)
  {
    hide InPackets;
    match r {
      case Pulling(needed, pulled, _) => PacketsAdd(needed - pulled, packetSize + 3);
      case CopyingOut(needed, pulled, _, _, _) =>
        PacketsAdd(needed - pulled, packetSize + 3);
        assert needed - (pulled + 1) == needed - pulled - 1;
      case Checking(needed) => PacketsAdd(needed, packetSize + 3);
      case _ =>
    }
  }

  // Every step of the reader brings it nearer to its return.
  lemma ReaderAdvances<T>(s: State<T>)
    requires Inv(s) && Enabled(s, ReaderMoves)
    ensures ReadAhead(ReaderStep(s).reader, s.packetSize) < ReadAhead(s.reader, s.packetSize)
  {
    hide *;
    Parts(s);
    ReaderCounts(s);
    ReaderTurns(s);
    TurnsAhead(s.reader, ReaderStep(s).reader, s.packetSize);
  }

  function ReaderSteps<T>(events: seq<Event<T>>): nat {
    if events == [] then 0 else (if events[0].ReaderMoves? then 1 else 0) + ReaderSteps(events[1..])
  }

  lemma OthersLeaveReader<T>(s: State<T>, e: Event<T>)
    requires Inv(s) && Enabled(s, e) && !e.ReaderMoves? && !e.CallRead?
    ensures Next(s, e).reader == s.reader && Next(s, e).packetSize == s.packetSize
  {
    if e.WriterMoves? {
      WriterLeavesReader(s);
    }
    hide Inv, ReaderStep, WriterStep;
  }

  lemma {:induction false} ReadEnds<T>(s: State<T>, events: seq<Event<T>>)
    requires Inv(s) && Schedule(s, events) && forall e | e in events :: !e.CallRead?
    ensures var t := Run(s, events);
      && t.packetSize == s.packetSize
      && ReaderSteps(events) + ReadAhead(t.reader, s.packetSize) <= ReadAhead(s.reader, s.packetSize)
      && (ReadAhead(t.reader, s.packetSize) == 0 <==> t.reader.ReaderIdle?) && ReadAhead(t.reader, s.packetSize) >= 0
    decreases |events|
  {
    if events == [] {
      ReaderCounts(s);
      CountsAhead(s.reader, s.packetSize);
      hide Inv, ReadAhead;
    } else {
      RunFirst(s, events);
      NextIs(s, events[0]);
      if events[0].ReaderMoves? {
        ReaderAdvances(s);
        ReaderKeepsSize(s);
      } else {
        OthersLeaveReader(s, events[0]);
      }
      hide Inv, Next, Enabled, Run, Schedule, ReadAhead;
      ReadEnds(Next(s, events[0]), events[1..]);
    }
  }

  // A write that has looked and found no packet returns with the second step after, with what it has
  // copied so far, even if the reader frees a packet meanwhile.
  ghost predicate FoundNone<T>(s: State<T>, call: WriteCall<T>, left: nat) {
    && s.current.NoPacket?
    && match s.writer
       case Taken(c) => c == call && left == 2
       case Ready(c) => c == call && left == 1
       case _ => false
  }

  lemma FoundNoneStep<T>(s: State<T>, e: Event<T>, call: WriteCall<T>, left: nat)
    requires Inv(s) && Enabled(s, e) && FoundNone(s, call, left) && !e.CallWrite?
    ensures var s' := Next(s, e);
      if e.WriterMoves? && left == 1 then s'.writer.WriterIdle? && s'.writeCalls == s.writeCalls + [call]
      else
        && FoundNone(s', call, if e.WriterMoves? then left - 1 else left) && s'.writeCalls == s.writeCalls
        && !s'.writer.WriterIdle?
  {
    if e.ReaderMoves? {
      ReaderLeavesWriter(s);
    }
    hide Inv, ReaderStep;
  }

  lemma {:induction false} FoundNoneRun<T>(s: State<T>, events: seq<Event<T>>, call: WriteCall<T>, left: nat)
    requires Inv(s) && Shape(s) && Schedule(s, events) && FoundNone(s, call, left)
    requires forall e | e in events :: !e.CallWrite?
    ensures var t := Run(s, events);
      && (t.writer.WriterIdle? <==> WriterSteps(events) >= left)
      && t.writeCalls == s.writeCalls + if t.writer.WriterIdle? then [call] else []
    decreases |events|
  {
    hide *;
    FoundNoneBusy(s, call, left);
    assert s.writeCalls + [] == s.writeCalls;
    if events == [] {
      NothingRun(s);
      NoSteps<T>();
    } else {
      RunFirst(s, events);
      var s' := Next(s, events[0]);
      FoundNoneStep(s, events[0], call, left);
      Parts(s');
      WriterStepsFirst(events);
      if s'.writer.WriterIdle? {
        IdleWriterRun(s', events[1..]);
      } else {
        FoundNoneRun(s', events[1..], call, if events[0].WriterMoves? then left - 1 else left);
      }
    }
  }

  lemma FoundNoneBusy<T>(s: State<T>, call: WriteCall<T>, left: nat)
    requires FoundNone(s, call, left)
    ensures !s.writer.WriterIdle? && left > 0
  {
  }

  lemma NoSteps<T>()
    ensures WriterSteps<T>([]) == 0
  {
  }

  lemma WriterStepsFirst<T>(events: seq<Event<T>>)
    requires events != []
    ensures WriterSteps(events) == (if events[0].WriterMoves? then 1 else 0) + WriterSteps(events[1..])
  {
  }

  // The look itself: it finds none just when all packets are queued for reading, and then the call
  // returns short, with the second step of the writer after this one.
  lemma LookFails<T>(s: State<T>, events: seq<Event<T>>)
    requires Inv(s) && s.writer.Taking? && |s.readQueue| == s.packets
    requires Schedule(s, [WriterMoves] + events) && forall e | e in events :: !e.CallWrite?
    ensures var t := Run(s, [WriterMoves] + events);
      && (t.writer.WriterIdle? <==> WriterSteps(events) >= 2)
      && t.writeCalls == s.writeCalls + (if t.writer.WriterIdle? then [s.writer.call] else [])
      && s.writer.call.at < |s.writer.call.bytes|
  {
    var run := [WriterMoves] + events;
    RunFirst(s, run);
    assert run[1..] == events;
    StarvedMeansFull(s);
    Parts(s);
    Parts(Next(s, WriterMoves));
    LookedInVain(s);
    hide *;
    FoundNoneRun(Next(s, WriterMoves), events, s.writer.call, 2);
  }

  lemma LookedInVain<T>(s: State<T>)
    requires Inv(s) && WriterInv(s) && Enabled(s, WriterMoves) && s.writer.Taking? && WriterStep(s).current.NoPacket?
    ensures FoundNone(Next(s, WriterMoves), s.writer.call, 2) && Next(s, WriterMoves).writeCalls == s.writeCalls
    ensures s.writer.call.at < |s.writer.call.bytes|
  {
    hide Inv;
  }

  lemma {:induction false} AccountsRun<T>(s: State<T>, events: seq<Event<T>>, low: nat, high: int)
    requires Inv(s) && Shape(s) && Schedule(s, events) && Accounts(s, low, high) && s.valid
    requires forall e | e in events :: !e.CallWrite?
    ensures var t, bytes := Run(s, events), s.writer.call.bytes;
      if t.writer.WriterIdle? then Took(s, t, bytes, low, high + InPackets(PutBack(s, events), s.packetSize))
      else t.writeCalls == s.writeCalls
    decreases |events|
  {
    hide *;
    AccountsBusy(s, low, high);
    if events == [] {
      NothingRun(s);
    } else {
      var e, rest := events[0], events[1..];
      RunFirst(s, events);
      var s', bytes := Next(s, e), s.writer.call.bytes;
      Parts(s');
      StepAccounts(s, e, low, high);
      PutBackFirst(s, events);
      var more, t := InPackets(PutBack(s', rest), s.packetSize), Run(s, events);
      PacketsAdd(PutBack(s', rest), s.packetSize);
      PacketsAdd(PutBack(s', rest) + 1, s.packetSize);
      if s'.writer.WriterIdle? {
        IdleWriterRun(s', rest);
        TookMore(s, s', t, bytes, low, high, high + InPackets(PutBack(s, events), s.packetSize));
      } else if PutsBack(s, e) {
        AccountsRun(s', rest, low, high + s.packetSize);
        TookFrom(s', s, t, bytes, low, high + s.packetSize + more);
      } else {
        AccountsRun(s', rest, low, high);
        TookFrom(s', s, t, bytes, low, high + more);
      }
    }
  }

  lemma NothingRun<T>(s: State<T>)
    requires Inv(s)
    ensures Schedule(s, []) && Run(s, []) == s
  {
    hide Inv;
  }

  lemma PutBackFirst<T>(s: State<T>, events: seq<Event<T>>)
    requires Inv(s) && Schedule(s, events) && events != []
    ensures Enabled(s, events[0]) && Inv(Next(s, events[0])) && Schedule(Next(s, events[0]), events[1..])
    ensures PutBack(s, events) == (if PutsBack(s, events[0]) then 1 else 0) + PutBack(Next(s, events[0]), events[1..])
  {
    StepKeepsInv(s, events[0]);
    hide Inv, Next, Enabled;
  }

  lemma AccountsBusy<T>(s: State<T>, low: nat, high: int)
    requires Shape(s) && Accounts(s, low, high)
    ensures !s.writer.WriterIdle?
  {
  }

  lemma TookMore<T>(s: State<T>, s': State<T>, t: State<T>, bytes: seq<T>, low: nat, high: int, higher: int)
    requires Took(s, s', bytes, low, high) && t.writeCalls == s'.writeCalls && high <= higher
    ensures Took(s, t, bytes, low, higher)
  {
    var n: nat :| n <= |bytes| && TookExactly(s, s', bytes, n) && (low <= n || n == |bytes|) && n <= high;
    assert TookExactly(s, t, bytes, n);
  }

  lemma TookFrom<T>(s: State<T>, s': State<T>, t: State<T>, bytes: seq<T>, low: nat, high: int)
    requires s'.writeCalls == s.writeCalls
    ensures Took(s, t, bytes, low, high) ==> Took(s', t, bytes, low, high)
  {
    if Took(s, t, bytes, low, high) {
      var n: nat :| n <= |bytes| && TookExactly(s, t, bytes, n) && (low <= n || n == |bytes|) && n <= high;
      assert TookExactly(s', t, bytes, n);
    }
  }

  // Under every interleaving a write takes all that it is given, or at least as many bytes as there
  // was room for when it was called; and at most that and what the reader makes room for meanwhile.
  lemma WriteTakes<T>(s: State<T>, bytes: seq<T>, events: seq<Event<T>>)
    requires Inv(s) && Shape(s) && s.valid && s.writer.WriterIdle? && Schedule(s, [CallWrite(bytes)] + events)
    requires forall e | e in events :: !e.CallWrite?
    ensures var run := [CallWrite(bytes)] + events;
      var t := Run(s, run);
      if t.writer.WriterIdle? then
        Took(s, t, bytes, RoomLeft(s), RoomLeft(s) + InPackets(PutBack(s, run), s.packetSize))
      else t.writeCalls == s.writeCalls
  {
    hide *;
    var run := [CallWrite(bytes)] + events;
    RunFirst(s, run);
    PutBackFirst(s, run);
    assert run[0] == CallWrite(bytes) && run[1..] == events;
    CallAccounts(s, bytes);
    var s', room := Next(s, CallWrite(bytes)), RoomLeft(s);
    AccountsRun(s', events, room, room);
    TookFrom(s', s, Run(s, run), bytes, room, room + InPackets(PutBack(s, run), s.packetSize));
  }

  lemma CallAccounts<T>(u: State<T>, bytes: seq<T>)
    requires Inv(u) && Enabled(u, CallWrite(bytes)) && Shape(u) && Inv(Next(u, CallWrite(bytes)))
    requires u.writer.WriterIdle?
    ensures var s' := Next(u, CallWrite(bytes));
      && Shape(s') && Accounts(s', RoomLeft(u), RoomLeft(u)) && s'.valid && s'.writeCalls == u.writeCalls
      && s'.writer.call.bytes == bytes && s'.packetSize == u.packetSize && !PutsBack(u, CallWrite(bytes))
      && s'.reader == u.reader && Ahead(s'.writer) == 11 * |bytes| + 1 && !s'.writer.WriterIdle?
  {
    var s' := Next(u, CallWrite(bytes));
    NextIs(u, CallWrite(bytes));
    Parts(s');
    ValidForCall(u, bytes);
    LoopingRoom(u, s', bytes);
    hide Inv, Shape, Enabled, Next, RoomLeft, LockInv, WriterInv, ReaderInv, ReadsInv, Ownership, Data;
  }

  lemma ValidForCall<T>(u: State<T>, bytes: seq<T>)
    requires Enabled(u, CallWrite(bytes))
    ensures u.valid
  {
  }

  lemma LoopingRoom<T>(u: State<T>, s': State<T>, bytes: seq<T>)
    requires Shape(u) && Shape(s') && u.writer.WriterIdle? && s' == u.(writer := Looping(WriteCall(bytes, 0)))
    ensures RoomLeft(s') == RoomLeft(u)
  {
    hide Shape;
  }

  // So a write of no more bytes than there was room for, when the writer last asked, takes them all,
  // whatever the reader does in between and meanwhile.
  lemma WriteFits<T>(s: State<T>, before: seq<Event<T>>, bytes: seq<T>, after: seq<Event<T>>)
    requires Inv(s) && s.valid && s.writer.WriterIdle? && |bytes| <= RoomLeft(s)
    requires Schedule(s, before) && forall e | e in before + after :: !e.CallWrite?
    requires (RunKeepsInv(s, before); Schedule(Run(s, before), [CallWrite(bytes)] + after))
    ensures
      (RunKeepsInv(s, before);
       var t := Run(Run(s, before), [CallWrite(bytes)] + after);
       t.writeCalls == s.writeCalls + if t.writer.WriterIdle? then [WriteCall(bytes, |bytes|)] else [])
  {
    hide *;
    Parts(s);
    RunKeepsInv(s, before);
    assert forall e | e in before :: e in before + after;
    assert forall e | e in after :: e in before + after;
    IdleWriterRun(s, before);
    var u, run := Run(s, before), [CallWrite(bytes)] + after;
    WriteTakes(u, bytes, after);
    var t := Run(u, run);
    assert s.writeCalls + [] == s.writeCalls;
    if t.writer.WriterIdle? {
      TookAll(u, t, bytes, RoomLeft(u), RoomLeft(u) + InPackets(PutBack(u, run), u.packetSize));
    }
  }

  lemma TookAll<T>(s: State<T>, t: State<T>, bytes: seq<T>, low: nat, high: int)
    requires Took(s, t, bytes, low, high)
    ensures |bytes| <= low ==> t.writeCalls == s.writeCalls + [WriteCall(bytes, |bytes|)]
    ensures low == high ==>
      t.writeCalls == s.writeCalls + [WriteCall(bytes, if |bytes| < low then |bytes| else low)]
  {
    var n: nat :| n <= |bytes| && TookExactly(s, t, bytes, n) && (low <= n || n == |bytes|) && n <= high;
  }

  function Alone<T>(n: nat): (events: seq<Event<T>>)
    ensures |events| == n && forall e | e in events :: e.WriterMoves?
  {
    seq(n, i => WriterMoves)
  }

  // With no read under way the writer can always move.
  lemma {:induction false} AloneEnds<T>(s: State<T>)
    requires Inv(s) && !s.writer.WriterIdle? && s.reader.ReaderIdle?
    ensures exists n: nat :: n <= Ahead(s.writer) && Schedule(s, Alone(n)) && Run(s, Alone(n)).writer.WriterIdle?
    decreases Ahead(s.writer)
  {
    hide *;
    AloneMoves(s);
    WriterAdvances(s);
    StepKeepsInv(s, WriterMoves);
    var s' := Next(s, WriterMoves);
    AheadIsNat(s');
    if s'.writer.WriterIdle? {
      AloneStep(s, 0);
    } else {
      AloneEnds(s');
      var n: nat :| n <= Ahead(s'.writer) && Schedule(s', Alone(n)) && Run(s', Alone(n)).writer.WriterIdle?;
      AloneStep(s, n);
    }
  }

  lemma AloneMoves<T>(s: State<T>)
    requires Inv(s) && !s.writer.WriterIdle? && s.reader.ReaderIdle?
    ensures Enabled(s, WriterMoves) && Next(s, WriterMoves) == WriterStep(s)
    ensures Next(s, WriterMoves).reader.ReaderIdle?
  {
    NoDeadlock(s);
    WriterLeavesReader(s);
    hide Inv, WriterStep;
  }

  lemma AloneStep<T>(s: State<T>, n: nat)
    requires Inv(s) && Enabled(s, WriterMoves) && Inv(Next(s, WriterMoves))
    ensures Schedule(Next(s, WriterMoves), Alone(n)) ==>
      Schedule(s, Alone(n + 1)) && Run(s, Alone(n + 1)) == Run(Next(s, WriterMoves), Alone(n))
    ensures n == 0 ==>
      Schedule(Next(s, WriterMoves), Alone(n)) && Run(Next(s, WriterMoves), Alone(n)) == Next(s, WriterMoves)
  {
    hide Inv, Next, Enabled;
    assert Alone<T>(n + 1)[1..] == Alone(n) && Alone<T>(n + 1)[0] == WriterMoves;
    StepKeepsInv(s, WriterMoves);
  }

  lemma {:induction false} AloneFreesNothing<T>(s: State<T>, events: seq<Event<T>>)
    requires Inv(s) && Schedule(s, events) && forall e | e in events :: !e.ReaderMoves?
    ensures PutBack(s, events) == 0
    decreases |events|
  {
    if events != [] {
      PutBackFirst(s, events);
      assert !PutsBack(s, events[0]);
      hide *;
      AloneFreesNothing(Next(s, events[0]), events[1..]);
    }
  }

  // With no read under way a write ends, within so many steps, with all that it was given or with
  // exactly as many bytes as there was room for.
  lemma WriteAlone<T>(s: State<T>, bytes: seq<T>)
    requires Inv(s) && Shape(s) && s.valid && s.writer.WriterIdle? && s.reader.ReaderIdle?
    ensures exists n: nat ::
      && n <= 11 * |bytes| + 1 && Schedule(s, [CallWrite(bytes)] + Alone(n))
      && var t, room := Run(s, [CallWrite(bytes)] + Alone(n)), RoomLeft(s);
         && t.writer.WriterIdle?
         && t.writeCalls == s.writeCalls + [WriteCall(bytes, if |bytes| < room then |bytes| else room)]
  {
    hide *;
    var call: Event<T> := CallWrite(bytes);
    CanCall(s, bytes);
    StepKeepsInv(s, call);
    CallAccounts(s, bytes);
    var s' := Next(s, call);
    AloneEnds(s');
    var n: nat :| n <= Ahead(s'.writer) && Schedule(s', Alone(n)) && Run(s', Alone(n)).writer.WriterIdle?;
    var run := [call] + Alone(n);
    ScheduleCall(s, call, Alone(n));
    assert forall e | e in run :: e == call || e.WriterMoves?;
    WriteTakes(s, bytes, Alone(n));
    AloneFreesNothing(s, run);
    PacketsAdd(0, s.packetSize);
    TookAll(s, Run(s, run), bytes, RoomLeft(s), RoomLeft(s) + InPackets(PutBack(s, run), s.packetSize));
  }

  lemma CanCall<T>(s: State<T>, bytes: seq<T>)
    requires s.valid && s.writer.WriterIdle?
    ensures Enabled(s, CallWrite(bytes))
  {
  }

  lemma ScheduleCall<T>(s: State<T>, e: Event<T>, events: seq<Event<T>>)
    requires Inv(s) && Enabled(s, e) && Inv(Next(s, e)) && Schedule(Next(s, e), events)
    ensures Schedule(s, [e] + events) && Run(s, [e] + events) == Run(Next(s, e), events)
  {
    assert ([e] + events)[1..] == events;
    hide Inv, Next, Enabled;
  }

  // ---- The main results ----

  // Under every interleaving, and whenever the fifo comes to be initialised, what the reads have
  // returned is a prefix of what the writes have accepted: of each call of the schedule the front
  // that it returned for, one after the other, and of a call under way what it has copied so far.
  // Each read has returned a full buffer or nothing.
  lemma DeliveredInOrder<T>(packetSize: nat, memory: seq<seq<T>>, events: seq<Event<T>>)
    requires packetSize > 0 && |memory| > 0 && forall p | 0 <= p < |memory| :: |memory[p]| == packetSize
    requires Schedule(Start(packetSize, memory), events)
    ensures var s := Run(Start(packetSize, memory), events);
      && Inv(s)
      && Given(s) == WritesMade(events) && Asked(s) == ReadsMade(events)
      && Delivered(s.readCalls) <= Accepted(s)
      && forall i | 0 <= i < |s.readCalls| :: AllOrNothing(s.readCalls[i], packetSize)
  {
    hide *;
    var start := Start(packetSize, memory);
    StartCallsNothing(packetSize, memory);
    RunKeepsInv(start, events);
    RunRecordsCalls(start, events);
    Parts(Run(start, events));
    InOrder(Run(start, events));
    assert [] + WritesMade(events) == WritesMade(events) && [] + ReadsMade(events) == ReadsMade(events);
  }

  lemma StartCallsNothing<T>(packetSize: nat, memory: seq<seq<T>>)
    requires packetSize > 0 && |memory| > 0 && forall p | 0 <= p < |memory| :: |memory[p]| == packetSize
    ensures var s := Start(packetSize, memory); Given(s) == [] && Asked(s) == [] && s.packetSize == packetSize
  {
    hide Inv;
  }

  lemma InOrder<T>(s: State<T>)
    requires Shape(s) && Data(s) && ReadsInv(s)
    ensures Delivered(s.readCalls) <= Accepted(s)
    ensures forall i | 0 <= i < |s.readCalls| :: AllOrNothing(s.readCalls[i], s.packetSize)
  {
    hide Shape, AllOrNothing, Accepted, Delivered, Join, WriterPart, ReaderPart;
  }

  lemma IdleParts<T>(s: State<T>)
    requires Shape(s) && s.writer.WriterIdle? && s.reader.ReaderIdle?
    ensures Accepted(s) == Kept(s.writeCalls) && ReaderPart(s) == []
    ensures WriterPart(s) == if s.current.Packet? then s.memory[s.current.index][..s.offset] else []
  {
    hide Kept;
    assert Kept(s.writeCalls) + [] == Kept(s.writeCalls);
  }

  // With both threads outside their calls, what the writes returned for and the reads did not bring is still
  // in the packets.
  lemma NothingLost<T>(s: State<T>)
    requires Inv(s) && s.writer.WriterIdle? && s.reader.ReaderIdle?
    ensures Kept(s.writeCalls) == Delivered(s.readCalls) + Join(s.memory, s.readQueue)
                          + if s.current.Packet? then s.memory[s.current.index][..s.offset] else []
  {
    hide Inv, Ownership, LockInv, WriterInv, ReaderInv, ReadsInv, InRange, Recorded, Filled, Across;
    hide Accepted, Kept, Delivered, Join, WriterPart, ReaderPart;
    Parts(s);
    IdleParts(s);
    assert Delivered(s.readCalls) + [] == Delivered(s.readCalls);
  }
}
