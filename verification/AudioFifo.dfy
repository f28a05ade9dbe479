// The packet rings and the packet fifo of contrib/sokol_audio.h, run by one thread at a time.
//
// The rings are fixed arrays of packet indices; the fifo is one block of packets, of which the
// write queue, the read queue and cur_packet share out the indices. AudioThreads takes the same
// fifo apart into steps and lets two threads at it; here the methods run from start to finish.
module AudioRing {
  import opened FifoCursor

  const SAUDIO_RING_MAX_SLOTS := 1024

  // _saudio_ring_t. A ring of num slots holds at most num - 1 values.
  class Ring {
    var head: nat
    var tail: nat
    var num: nat
    const queue: array<nat>

    ghost predicate Valid()
      reads this
    {
      queue.Length == SAUDIO_RING_MAX_SLOTS && head < num && tail < num <= queue.Length
    }

    ghost function Contents(): (q: seq<nat>)
      requires Valid()
      reads this, queue
      ensures |q| < num
    {
      Queued(queue[..num], tail, head)
    }

    constructor ()
      ensures fresh(queue) && queue.Length == SAUDIO_RING_MAX_SLOTS
    {
      queue := new nat[SAUDIO_RING_MAX_SLOTS];
      head, tail, num := 0, 0, 0;
    }

    method Init(slots: nat)
      requires queue.Length == SAUDIO_RING_MAX_SLOTS && slots + 1 <= SAUDIO_RING_MAX_SLOTS
      modifies this
      ensures Valid() && num == slots + 1 && Contents() == []
    {
      head, tail := 0, 0;
      num := slots + 1;
    }

    function Idx(i: nat): (r: nat)
      requires Valid() && i < 2 * num
      reads this
      ensures r == Wrap(i, num)
    {
      SmallModulo(i, num);
      i % num
    }

    method Full() returns (full: bool)
      requires Valid()
      ensures full <==> |Contents()| == num - 1
    {
      full := Idx(head + 1) == tail;
    }

    method Empty() returns (empty: bool)
      requires Valid()
      ensures empty <==> Contents() == []
    {
      empty := head == tail;
    }

    method Count() returns (count: nat)
      requires Valid()
      ensures count == |Contents()|
    {
      if head >= tail {
        count := head - tail;
      } else {
        count := (head + num) - tail;
      }
    }

    method Enqueue(val: nat)
      requires Valid() && |Contents()| < num - 1
      modifies this`head, queue
      ensures Valid() && Contents() == old(Contents()) + [val]
    {
      queue[head] := val;
      FreeSlot(old(queue[..num]), tail, head, 0, val);
      assert queue[..num] == old(queue[..num])[head := val];
      Publish(queue[..num], tail, head, [val]);
      head := Idx(head + 1);
    }

    method Dequeue() returns (val: nat)
      requires Valid() && Contents() != []
      modifies this`tail
      ensures Valid() && [val] + Contents() == old(Contents())
    {
      val := queue[tail];
      Release(queue[..num], tail, head, 1);
      assert Wrap(tail + 0, num) == tail;
      assert val == Contents()[0];
      tail := Idx(tail + 1);
    }
  }
}

// Packets in one block of memory.
module AudioPackets {
  import opened Basics

  function AllPackets(n: nat): (ps: seq<nat>)
    ensures |ps| == n
  {
    seq(n, i requires 0 <= i < n => i)
  }

  lemma {:induction false} AllPacketsOnce(n: nat, i: nat)
    ensures multiset(AllPackets(n))[i] == if i < n then 1 else 0
  {
    if n > 0 {
      AllPacketsOnce(n - 1, i);
      assert AllPackets(n) == AllPackets(n - 1) + [n - 1];
    }
  }

  lemma TakeFirst(q: seq<nat>)
    requires q != []
    ensures multiset(q) == multiset{q[0]} + multiset(q[1..])
  {
    assert q == [q[0]] + q[1..];
  }

  lemma PutLast(q: seq<nat>, p: nat)
    ensures multiset(q + [p]) == multiset(q) + multiset{p}
  {
  }

  // Where a packet begins in the block of memory.
  function PageStart(p: nat, size: nat): nat {
    p * size
  }

  // base_ptr + p * packet_size, packet_size bytes.
  ghost predicate Fits(length: nat, size: nat, p: nat) {
    PageStart(p, size) + size <= length
  }

  ghost predicate AllFit(length: nat, size: nat, queue: seq<nat>) {
    forall i | 0 <= i < |queue| :: Fits(length, size, queue[i])
  }

  function Page<T>(memory: seq<T>, size: nat, p: nat): (page: seq<T>)
    requires Fits(|memory|, size, p)
    ensures |page| == size
  {
    memory[PageStart(p, size)..PageStart(p, size) + size]
  }

  ghost function Joined<T>(memory: seq<T>, size: nat, queue: seq<nat>): seq<T>
    requires AllFit(|memory|, size, queue)
  {
    if queue == [] then [] else
      assert Fits(|memory|, size, queue[0]);
      Page(memory, size, queue[0]) + Joined(memory, size, queue[1..])
  }

  lemma BelowFits(p: nat, n: nat, size: nat)
    requires p < n
    ensures Fits(n * size, size, p) && PageStart(n, size) == n * size
  {
    OneMore(p, size);
    MoreIsMore(p + 1, n, size);
  }

  lemma PagesApart(p: nat, q: nat, size: nat)
    requires p != q
    ensures PageStart(p, size) + size <= PageStart(q, size) || PageStart(q, size) + size <= PageStart(p, size)
  {
    if p < q {
      BelowFits(p, q, size);
    } else {
      BelowFits(q, p, size);
    }
  }

  // Stores inside one packet leave the others alone.
  lemma PageUntouched<T>(before: seq<T>, after: seq<T>, size: nat, p: nat, q: nat)
    requires |before| == |after| && Fits(|before|, size, p) && Fits(|before|, size, q) && p != q
    requires forall k | 0 <= k < |before| && !(PageStart(p, size) <= k < PageStart(p, size) + size) ::
      after[k] == before[k]
    ensures Page(after, size, q) == Page(before, size, q)
  {
    PagesApart(p, q, size);
    hide PageStart;
  }

  lemma {:induction false} JoinedUntouched<T>(before: seq<T>, after: seq<T>, size: nat, p: nat, queue: seq<nat>)
    requires |before| == |after| && Fits(|before|, size, p) && AllFit(|before|, size, queue) && p !in queue
    requires forall k | 0 <= k < |before| && !(PageStart(p, size) <= k < PageStart(p, size) + size) ::
      after[k] == before[k]
    ensures Joined(after, size, queue) == Joined(before, size, queue)
  {
    hide PageStart;
    if queue != [] {
      PageUntouched(before, after, size, p, queue[0]);
      JoinedUntouched(before, after, size, p, queue[1..]);
    }
  }

  lemma {:induction false} JoinedAppend<T>(memory: seq<T>, size: nat, queue: seq<nat>, p: nat)
    requires AllFit(|memory|, size, queue) && Fits(|memory|, size, p)
    ensures AllFit(|memory|, size, queue + [p])
    ensures Joined(memory, size, queue + [p]) == Joined(memory, size, queue) + Page(memory, size, p)
  {
    hide PageStart;
    if queue != [] {
      JoinedAppend(memory, size, queue[1..], p);
      assert (queue + [p])[1..] == queue[1..] + [p];
    } else {
      assert [p][1..] == [];
      assert Joined(memory, size, [p]) == Page(memory, size, p) + Joined(memory, size, []);
    }
  }

  lemma {:induction false} JoinedLength<T>(memory: seq<T>, size: nat, queue: seq<nat>)
    requires AllFit(|memory|, size, queue)
    ensures |Joined(memory, size, queue)| == |queue| * size
  {
    hide PageStart;
    if queue != [] {
      JoinedLength(memory, size, queue[1..]);
      OneMore(|queue| - 1, size);
    }
  }
}

module AudioFifo {
  import opened Basics
  import opened AudioPackets
  import opened AudioRing
  import opened FifoCursor

  // cur_packet as a set of indices.
  function Current(curPacket: int): multiset<nat> {
    if curPacket >= 0 then multiset{curPacket} else multiset{}
  }

  // Every packet is on one of the rings, or is the current one, and there once only.
  ghost predicate Shared(readQueue: seq<nat>, writeQueue: seq<nat>, curPacket: int, n: nat) {
    multiset(readQueue) + multiset(writeQueue) + Current(curPacket) == multiset(AllPackets(n))
  }

  lemma SharedOnce(readQueue: seq<nat>, writeQueue: seq<nat>, curPacket: int, n: nat, size: nat)
    requires Shared(readQueue, writeQueue, curPacket, n)
    ensures AllFit(n * size, size, readQueue)
    ensures curPacket >= 0 ==> curPacket < n && Fits(n * size, size, curPacket) && curPacket !in readQueue
    ensures |readQueue| + |writeQueue| + (if curPacket >= 0 then 1 else 0) == n
  {
    forall i | 0 <= i < |readQueue|
      ensures Fits(n * size, size, readQueue[i])
    {
      Below(readQueue, writeQueue, curPacket, n, readQueue[i]);
      BelowFits(readQueue[i], n, size);
    }
    if curPacket >= 0 {
      Below(readQueue, writeQueue, curPacket, n, curPacket);
      BelowFits(curPacket, n, size);
    }
    hide AllPackets;
    assert |multiset(readQueue) + multiset(writeQueue) + Current(curPacket)| == |multiset(AllPackets(n))|;
  }

  lemma Below(readQueue: seq<nat>, writeQueue: seq<nat>, curPacket: int, n: nat, p: nat)
    requires Shared(readQueue, writeQueue, curPacket, n) && (p in readQueue || curPacket == p)
    ensures p < n && (curPacket == p ==> p !in readQueue)
  {
    AllPacketsOnce(n, p);
    hide AllPackets;
    assert p in readQueue ==> multiset(readQueue)[p] > 0;
    assert (multiset(readQueue) + multiset(writeQueue) + Current(curPacket))[p] > 0;
  }

  // The fifo as a value: the rings by their contents, the block of memory by its bytes.
  datatype View<T> = View(size: nat, packets: nat, memory: seq<T>, readQueue: seq<nat>, writeQueue: seq<nat>,
                          curPacket: int, curOffset: nat)

  ghost predicate Good<T>(v: View<T>) {
    && v.size > 0 && v.packets > 0 && |v.memory| == v.packets * v.size
    && Shared(v.readQueue, v.writeQueue, v.curPacket, v.packets)
    && -1 <= v.curPacket && v.curOffset <= v.size && (v.curPacket == -1 ==> v.curOffset == 0)
  }

  lemma GoodFits<T>(v: View<T>)
    requires Good(v)
    ensures AllFit(|v.memory|, v.size, v.readQueue) && v.curOffset <= v.size
    ensures v.curPacket >= 0 ==> Fits(|v.memory|, v.size, v.curPacket) && v.curPacket !in v.readQueue
    ensures |v.readQueue| + |v.writeQueue| + (if v.curPacket >= 0 then 1 else 0) == v.packets
    ensures v.size > 0 && v.curPacket >= -1 && (v.curPacket == -1 ==> v.curOffset == 0)
  {
    hide Shared, AllFit, Fits;
    SharedOnce(v.readQueue, v.writeQueue, v.curPacket, v.packets, v.size);
  }

  // What has been written and not been read yet.
  ghost function PendingIn<T>(v: View<T>): seq<T>
    requires Good(v)
  {
    GoodFits(v);
    Joined(v.memory, v.size, v.readQueue)
    + if v.curPacket >= 0 then Page(v.memory, v.size, v.curPacket)[..v.curOffset] else []
  }

  ghost function Room<T>(v: View<T>): nat
    requires Good(v)
  {
    |v.writeQueue| * v.size + if v.curPacket >= 0 then v.size - v.curOffset else 0
  }

  // Nothing is lost sight of: what is pending and what could still be written fill the block.
  lemma PendingAndRoom<T>(v: View<T>)
    requires Good(v)
    ensures |PendingIn(v)| + Room(v) == v.packets * v.size
  {
    GoodFits(v);
    JoinedLength(v.memory, v.size, v.readQueue);
    ThreeShares(|v.readQueue|, |v.writeQueue|, if v.curPacket >= 0 then 1 else 0, v.size);
    hide Shared, Joined, AllFit;
  }

  lemma ThreeShares(r: nat, w: nat, c: nat, size: nat)
    requires c <= 1
    ensures (r + w + c) * size == r * size + w * size + if c == 1 then size else 0
  {
    assert (r + w + c) * size == (r + w) * size + c * size;
    assert (r + w) * size == r * size + w * size;
  }

  // The steps of _saudio_fifo_write and _saudio_fifo_read on that value.

  function Take<T>(v: View<T>): View<T>
    requires v.writeQueue != []
  {
    v.(curPacket := v.writeQueue[0], writeQueue := v.writeQueue[1..])
  }

  function Push<T>(v: View<T>): View<T>
    requires v.curPacket >= 0
  {
    v.(readQueue := v.readQueue + [v.curPacket], curPacket := -1, curOffset := 0)
  }

  function Requeue<T>(v: View<T>): View<T>
    requires v.readQueue != []
  {
    v.(readQueue := v.readQueue[1..], writeQueue := v.writeQueue + [v.readQueue[0]])
  }

  lemma TakeKeeps<T>(v: View<T>)
    requires Good(v) && v.curPacket == -1 && v.writeQueue != []
    ensures Good(Take(v)) && PendingIn(Take(v)) == PendingIn(v) && Room(Take(v)) == Room(v)
  {
    TakeFirst(v.writeQueue);
    OneMore(|v.writeQueue| - 1, v.size);
    GoodFits(v);
    hide AllPackets, Joined, Page, AllFit, Fits;
  }

  lemma PushKeeps<T>(v: View<T>)
    requires Good(v) && v.curPacket >= 0 && v.curOffset == v.size
    ensures Good(Push(v)) && PendingIn(Push(v)) == PendingIn(v) && Room(Push(v)) == Room(v)
  {
    GoodFits(v);
    PutLast(v.readQueue, v.curPacket);
    JoinedAppend(v.memory, v.size, v.readQueue, v.curPacket);
    hide AllPackets, Joined;
  }

  lemma RequeueGives<T>(v: View<T>)
    requires Good(v) && v.readQueue != []
    ensures Good(Requeue(v)) && Fits(|v.memory|, v.size, v.readQueue[0])
    ensures Page(v.memory, v.size, v.readQueue[0]) + PendingIn(Requeue(v)) == PendingIn(v)
    ensures Room(Requeue(v)) == Room(v) + v.size
  {
    GoodFits(v);
    GoodRequeue(v);
    OneMore(|v.writeQueue|, v.size);
    hide Good, Page, PageStart;
    assert Fits(|v.memory|, v.size, v.readQueue[0]);
  }

  lemma GoodRequeue<T>(v: View<T>)
    requires Good(v) && v.readQueue != []
    ensures Good(Requeue(v))
  {
    TakeFirst(v.readQueue);
    PutLast(v.writeQueue, v.readQueue[0]);
    hide AllPackets, Current;
  }

  lemma AppendGrows<T>(v: View<T>, memory: seq<T>, data: seq<T>)
    requires Good(v) && v.curPacket >= 0 && v.curOffset + |data| <= v.size && |memory| == |v.memory|
    requires var dst := PageStart(v.curPacket, v.size) + v.curOffset;
      forall k | 0 <= k < |memory| ::
        memory[k] == if dst <= k < dst + |data| then data[k - dst] else v.memory[k]
    ensures var v' := v.(memory := memory, curOffset := v.curOffset + |data|);
      Good(v') && PendingIn(v') == PendingIn(v) + data && Room(v') == Room(v) - |data|
  {
    var v', start := v.(memory := memory, curOffset := v.curOffset + |data|), PageStart(v.curPacket, v.size);
    GoodFits(v);
    GoodStore(v, memory, v.curOffset + |data|);
    PendingIs(v);
    PendingIs(v');
    hide Good, AllFit, Fits, Joined, Page, PageStart, PendingIn;
    PageGrows(v.memory, memory, v.size, v.curPacket, start, v.curOffset, data);
    OutsideKept(v.memory, memory, start, v.size, v.curOffset, data);
    JoinedUntouched(v.memory, memory, v.size, v.curPacket, v.readQueue);
    Associates(Joined(v.memory, v.size, v.readQueue), Page(v.memory, v.size, v.curPacket)[..v.curOffset], data);
  }

  lemma PendingIs<T>(v: View<T>)
    requires Good(v) && v.curPacket >= 0
    ensures AllFit(|v.memory|, v.size, v.readQueue) && Fits(|v.memory|, v.size, v.curPacket)
    ensures PendingIn(v)
      == Joined(v.memory, v.size, v.readQueue) + Page(v.memory, v.size, v.curPacket)[..v.curOffset]
  {
    GoodFits(v);
    hide Good, Joined, Page, AllFit, Fits;
  }

  lemma GoodStore<T>(v: View<T>, memory: seq<T>, offset: nat)
    requires Good(v) && v.curPacket >= 0 && offset <= v.size && |memory| == |v.memory|
    ensures Good(v.(memory := memory, curOffset := offset))
  {
    hide Shared;
  }

  lemma PageGrows<T>(before: seq<T>, after: seq<T>, size: nat, p: nat, start: nat, offset: nat, data: seq<T>)
    requires Fits(|before|, size, p) && start == PageStart(p, size) && |after| == |before| && offset + |data| <= size
    requires forall k | 0 <= k < |after| ::
      after[k] == if start + offset <= k < start + offset + |data| then data[k - (start + offset)] else before[k]
    ensures Page(after, size, p)[..offset + |data|] == Page(before, size, p)[..offset] + data
  {
    hide PageStart;
    SliceGrows(before, after, start, size, offset, data);
  }

  lemma SliceGrows<T>(before: seq<T>, after: seq<T>, start: nat, size: nat, offset: nat, data: seq<T>)
    requires start + size <= |before| == |after| && offset + |data| <= size
    requires forall k | 0 <= k < |after| ::
      after[k] == if start + offset <= k < start + offset + |data| then data[k - (start + offset)] else before[k]
    ensures after[start..start + size][..offset + |data|] == before[start..start + size][..offset] + data
  {
    assert after[start + offset..start + offset + |data|] == data;
    assert after[start..start + offset] == before[start..start + offset];
  }

  lemma OutsideKept<T>(before: seq<T>, after: seq<T>, start: nat, size: nat, offset: nat, data: seq<T>)
    requires |before| == |after| && offset + |data| <= size
    requires forall k | 0 <= k < |after| ::
      after[k] == if start + offset <= k < start + offset + |data| then data[k - (start + offset)] else before[k]
    ensures forall k | 0 <= k < |before| && !(start <= k < start + size) :: after[k] == before[k]
  {
  }

  lemma InitGood<T>(v: View<T>)
    requires v.size > 0 && v.packets > 0 && |v.memory| == v.packets * v.size
    requires v.readQueue == [] && v.writeQueue == AllPackets(v.packets) && v.curPacket == -1 && v.curOffset == 0
    ensures Good(v) && PendingIn(v) == [] && Room(v) == v.packets * v.size
  {
    hide AllPackets;
  }

  // _saudio_fifo_t, without the mutex.
  class Fifo {
    var valid: bool
    var packetSize: nat
    var numPackets: nat
    var base: array<bv8>
    var curPacket: int
    var curOffset: nat
    const readQueue: Ring
    const writeQueue: Ring

    ghost predicate Wired()
      reads this
    {
      && readQueue != writeQueue && readQueue.queue != writeQueue.queue
      && readQueue.queue.Length == SAUDIO_RING_MAX_SLOTS && writeQueue.queue.Length == SAUDIO_RING_MAX_SLOTS
    }

    ghost predicate NotARing(a: array<bv8>) {
      a as object != readQueue.queue as object && a as object != writeQueue.queue as object
    }

    ghost predicate RingsValid()
      reads this, readQueue, writeQueue
    {
      && Wired() && NotARing(base)
      && readQueue.Valid() && writeQueue.Valid() && readQueue.num == writeQueue.num == numPackets + 1
    }

    ghost function Value(): View<bv8>
      requires RingsValid()
      reads this, base, readQueue, writeQueue, readQueue.queue, writeQueue.queue
    {
      View(packetSize, numPackets, base[..], readQueue.Contents(), writeQueue.Contents(), curPacket, curOffset)
    }

    // Between any two lines of _saudio_fifo_write.
    ghost predicate Valid()
      reads this, base, readQueue, writeQueue, readQueue.queue, writeQueue.queue
    {
      valid && RingsValid() && Good(Value())
    }

    ghost function Pending(): seq<bv8>
      requires Valid()
      reads this, base, readQueue, writeQueue, readQueue.queue, writeQueue.queue
    {
      PendingIn(Value())
    }

    ghost function Writable(): nat
      requires Valid()
      reads this, base, readQueue, writeQueue, readQueue.queue, writeQueue.queue
    {
      Room(Value())
    }

    // Before _saudio_fifo_init.
    constructor ()
      ensures Wired() && !valid && fresh(readQueue) && fresh(writeQueue)
      ensures fresh(readQueue.queue) && fresh(writeQueue.queue)
    {
      valid := false;
      readQueue := new Ring();
      writeQueue := new Ring();
    }

    method Init(packetSize: nat, numPackets: nat)
      requires Wired() && packetSize > 0 && 0 < numPackets < SAUDIO_RING_MAX_SLOTS
      modifies this, readQueue, writeQueue, writeQueue.queue
      ensures Valid() && curOffset < this.packetSize
      ensures Pending() == [] && Writable() == numPackets * packetSize == base.Length
    {
      hide Queued, AllPackets, Good, PendingIn, Room;
      this.packetSize := packetSize;
      this.numPackets := numPackets;
      base := new bv8[numPackets * packetSize];
      curPacket := -1;
      curOffset := 0;
      readQueue.Init(numPackets);
      FillWriteQueue();
      valid := true;
      InitGood(Value());
    }

    method FillWriteQueue()
      requires Wired() && 0 < numPackets < SAUDIO_RING_MAX_SLOTS
      modifies writeQueue, writeQueue.queue
      ensures writeQueue.Valid() && writeQueue.num == numPackets + 1
      ensures writeQueue.Contents() == AllPackets(numPackets)
    {
      writeQueue.Init(numPackets);
      for i := 0 to numPackets
        invariant writeQueue.Valid() && writeQueue.num == numPackets + 1
        invariant writeQueue.Contents() == AllPackets(i)
      {
        writeQueue.Enqueue(i);
      }
    }

    method WritableBytes() returns (bytes: nat)
      requires Valid()
      ensures bytes == Writable() && bytes + |Pending()| == numPackets * packetSize
    {
      GoodFits(Value());
      PendingAndRoom(Value());
      hide Queued, Good, PendingIn, AllFit, Fits, Ring.Contents, Ring.Valid;
      var count := writeQueue.Count();
      bytes := count * packetSize;
      if curPacket != -1 {
        bytes := bytes + (packetSize - curOffset);
      }
    }

    // Need to grab a new packet?
    method TakePacket()
      requires Valid()
      modifies this`curPacket, writeQueue`tail
      ensures Valid() && Pending() == old(Pending()) && Writable() == old(Writable())
      ensures curPacket == -1 ==> Writable() == 0
      ensures old(curPacket) != -1 ==> curPacket == old(curPacket)
    {
      hide Queued, Shared, PendingIn, Ring.Contents, Ring.Valid;
      ghost var v := Value();
      if curPacket == -1 {
        var empty := writeQueue.Empty();
        if !empty {
          TakeKeeps(v);
          curPacket := writeQueue.Dequeue();
          assert Value() == Take(v);
        }
      }
    }

    // The memcpy into the current packet.
    method Append(source: array<bv8>, from: nat, count: nat)
      requires Valid() && curPacket != -1 && curOffset + count <= packetSize
      requires from + count <= source.Length && source != base
      modifies base, this`curOffset
      ensures Valid()
      ensures Pending() == old(Pending()) + source[from..from + count]
      ensures Writable() == old(Writable()) - count
    {
      ghost var v := Value();
      GoodFits(v);
      var dst := curPacket * packetSize + curOffset;
      assert dst == PageStart(curPacket, packetSize) + curOffset;
      hide Queued, Good, PendingIn, Room, Ring.Contents, Ring.Valid, AllFit, PageStart;
      Copy(source, from, base, dst, count);
      AppendGrows(v, base[..], source[from..from + count]);
      curOffset := curOffset + count;
      assert Value() == v.(memory := base[..], curOffset := v.curOffset + count);
    }

    // If the write packet is full, push it to the read queue.
    method PushIfFull()
      requires Valid()
      modifies this`curPacket, this`curOffset, readQueue`head, readQueue.queue
      ensures Valid() && curOffset < packetSize
      ensures Pending() == old(Pending()) && Writable() == old(Writable())
    {
      ghost var v := Value();
      GoodFits(v);
      hide Queued, Good, PendingIn, Room, Ring.Contents, AllFit, Fits;
      if curOffset == packetSize {
        PushKeeps(v);
        readQueue.Enqueue(curPacket);
        curPacket := -1;
        curOffset := 0;
        assert Value() == Push(v);
      }
    }

    // _saudio_fifo_write: as many bytes go in as there was room for, in order.
    method Write(source: array<bv8>, numBytes: nat) returns (copied: nat)
      requires Valid() && curOffset < packetSize && numBytes <= source.Length && source != base && NotARing(source)
      modifies this`curPacket, this`curOffset, base, readQueue`head, writeQueue`tail, readQueue.queue
      ensures Valid() && curOffset < packetSize
      ensures var room := old(Writable()); copied == if numBytes < room then numBytes else room
      ensures Pending() == old(Pending()) + source[..copied]
      ensures Writable() == old(Writable()) - copied
    {
      hide Queued, Good, PendingIn, Room, Ring.Contents, Ring.Valid, Valid, Pending, Writable;
      var allToCopy: nat := numBytes;
      while allToCopy > 0
        invariant allToCopy <= numBytes && Valid() && curOffset < packetSize
        invariant Pending() == old(Pending()) + source[..numBytes - allToCopy]
        invariant Writable() == old(Writable()) - (numBytes - allToCopy)
      {
        TakePacket();
        if curPacket == -1 {
          return numBytes - allToCopy;
        }
        var toCopy := allToCopy;
        var maxCopy := packetSize - curOffset;
        if toCopy > maxCopy {
          toCopy := maxCopy;
        }
        Append(source, numBytes - allToCopy, toCopy);
        allToCopy := allToCopy - toCopy;
        PushIfFull();
      }
      copied := numBytes;
    }

    // The two ring operations of _saudio_fifo_read on one packet.
    method RequeuePacket() returns (packet: nat)
      requires Valid() && readQueue.Contents() != []
      modifies readQueue`tail, writeQueue`head, writeQueue.queue
      ensures RingsValid() && Value() == Requeue(old(Value())) && packet == old(readQueue.Contents())[0]
    {
      GoodFits(Value());
      hide Queued, Good, Ring.Contents, AllFit, Fits;
      packet := readQueue.Dequeue();
      writeQueue.Enqueue(packet);
    }

    // One turn of the loop of _saudio_fifo_read: requeued first, then copied out.
    method PullPacket(dest: array<bv8>, dst: nat)
      requires Valid() && readQueue.Contents() != []
      requires dst + packetSize <= dest.Length && dest != base && NotARing(dest)
      modifies dest, readQueue`tail, writeQueue`head, writeQueue.queue
      ensures Valid() && |readQueue.Contents()| == |old(readQueue.Contents())| - 1
      ensures dest[dst..dst + packetSize] + Pending() == old(Pending())
      ensures Writable() == old(Writable()) + packetSize
      ensures dest[..dst] == old(dest[..dst]) && dest[dst + packetSize..] == old(dest[dst + packetSize..])
    {
      ghost var v := Value();
      RequeueGives(v);
      hide Queued, Good, PendingIn, Room, Ring.Contents, Ring.Valid;
      var packet := RequeuePacket();
      label requeued:
      assert packet * packetSize == PageStart(packet, packetSize);
      Copy(base, packet * packetSize, dest, dst, packetSize);
      assert Value() == old@requeued(Value());
      assert dest[dst..dst + packetSize] == Page(v.memory, v.size, packet);
    }

    // _saudio_fifo_read: all that was asked for, or nothing; and nothing before the fifo is valid.
    method Read(dest: array<bv8>, numBytes: nat) returns (copied: nat)
      requires Wired() && numBytes <= dest.Length && NotARing(dest)
      requires valid ==> Valid() && dest != base && numBytes % packetSize == 0 && numBytes <= numPackets * packetSize
      modifies dest, readQueue`tail, writeQueue`head, writeQueue.queue
      ensures valid ==> Valid()
      ensures copied == if valid && old(|readQueue.Contents()| * packetSize) >= numBytes then numBytes else 0
      ensures valid ==> dest[..copied] + Pending() == old(Pending())
      ensures valid ==> Writable() == old(Writable()) + copied
      ensures dest[copied..] == old(dest[copied..])
    {
      copied := 0;
      if valid {
        var needed := numBytes / packetSize;
        EnoughPackets(|readQueue.Contents()|, needed, packetSize, numBytes);
        var count := readQueue.Count();
        hide Queued, Ring.Contents, Ring.Valid, Good, PendingIn, Room;
        if count >= needed {
          copied := PullPackets(dest, needed);
        }
      }
    }

    method PullPackets(dest: array<bv8>, needed: nat) returns (copied: nat)
      requires Valid() && needed <= |readQueue.Contents()|
      requires needed * packetSize <= dest.Length && dest != base && NotARing(dest)
      modifies dest, readQueue`tail, writeQueue`head, writeQueue.queue
      ensures Valid() && copied == needed * packetSize
      ensures dest[..copied] + Pending() == old(Pending())
      ensures Writable() == old(Writable()) + copied
      ensures dest[copied..] == old(dest[copied..])
    {
      hide Queued, Good, PendingIn, Room, Ring.Contents, Ring.Valid, Pending, Writable;
      copied := 0;
      for i := 0 to needed
        invariant Valid() && copied == i * packetSize <= dest.Length
        invariant needed - i <= |readQueue.Contents()|
        invariant dest[..copied] + Pending() == old(Pending())
        invariant Writable() == old(Writable()) + copied
        invariant dest[copied..] == old(dest[copied..])
      {
        NextPacket(i, needed, packetSize);
        label before:
        PullPacket(dest, copied);
        Pulled(old@before(dest[..]), dest[..], copied, copied + packetSize, old@before(Pending()), Pending());
        copied := copied + packetSize;
      }
    }
  }

  lemma Pulled<T>(before: seq<T>, after: seq<T>, lo: nat, hi: nat, pending: seq<T>, rest: seq<T>)
    requires lo <= hi <= |before| == |after| && after[..lo] == before[..lo] && after[lo..hi] + rest == pending
    ensures after[..hi] + rest == before[..lo] + pending
  {
    assert after[..hi] == after[..lo] + after[lo..hi];
  }

  lemma EnoughPackets(count: nat, needed: nat, size: nat, bytes: nat)
    requires size > 0 && bytes % size == 0 && needed == bytes / size
    ensures needed * size == bytes && (count >= needed <==> count * size >= bytes)
  {
    assert bytes == size * (bytes / size) + bytes % size;
    if count >= needed {
      MoreIsMore(needed, count, size);
    } else {
      OneMore(count, size);
      MoreIsMore(count + 1, needed, size);
    }
  }

  lemma NextPacket(i: nat, needed: nat, size: nat)
    requires i < needed
    ensures (i + 1) * size == i * size + size <= needed * size
  {
    OneMore(i, size);
    MoreIsMore(i + 1, needed, size);
  }

  // memcpy
  method Copy(src: array<bv8>, from: nat, dst: array<bv8>, to: nat, count: nat)
    requires from + count <= src.Length && to + count <= dst.Length && src != dst
    modifies dst
    ensures forall k | 0 <= k < dst.Length ::
      dst[k] == if to <= k < to + count then src[from + k - to] else old(dst[k])
  {
    forall k | 0 <= k < count {
      dst[to + k] := src[from + k];
    }
  }
}
