// The single-producer single-consumer ring of contrib/fifo_declare.h.
//
// FifoSteps interleaves one producer and one consumer at the granularity of their loads and stores,
// taken to be sequentially consistent (what FIFO_SYNC is there for), and shows that every run
// refines a bounded queue. RingFifo is the same code as methods on a buffer updated in place, as
// one thread alone sees it.
module FifoCursor {
  import opened Bits

  // A number of slots that the masks of the macros work for.
  ghost predicate PowerOfTwo(n: nat) {
    exists k: nat :: n == Pow2(k)
  }

  // x & (size - 1).
  function Masked(x: nat, size: nat): nat
    requires size > 0
  {
    And(x, size - 1)
  }

  // One step round the ring at most.
  function Wrap(x: nat, size: nat): (i: nat)
    requires x < 2 * size
    ensures i < size
  {
    if x < size then x else x - size
  }

  lemma MaskWraps(x: nat, size: nat)
    requires PowerOfTwo(size) && x < 2 * size
    ensures Masked(x, size) == Wrap(x, size)
  {
    var k: nat :| size == Pow2(k);
    MaskIsModulo(x, k, size);
    SmallModulo(x, size);
    hide And;
  }

  lemma SmallModulo(x: nat, m: nat)
    requires m > 0 && x < 2 * m
    ensures x % m == if x < m then x else x - m
  {
    UniqueRemainder(x, m, if x < m then 0 else 1, if x < m then x else x - m);
  }

  // ((write + size) - read) & (size - 1)
  function ReadSize(read: nat, write: nat, size: nat): nat
    requires read < size && write < size
  {
    Masked(write + size - read, size)
  }

  function Distance(read: nat, write: nat, size: nat): (d: nat)
    requires read < size && write < size
    ensures d < size
  {
    if read <= write then write - read else write + size - read
  }

  lemma ReadSizeIsDistance(read: nat, write: nat, size: nat)
    requires PowerOfTwo(size) && read < size && write < size
    ensures ReadSize(read, write, size) == Distance(read, write, size)
  {
    MaskWraps(write + size - read, size);
  }

  // What lies between the cursors, oldest first.
  function Queued<T>(buffer: seq<T>, read: nat, write: nat): (q: seq<T>)
    requires read < |buffer| && write < |buffer|
    ensures |q| == Distance(read, write, |buffer|)
  {
    seq(Distance(read, write, |buffer|), i requires 0 <= i < Distance(read, write, |buffer|) =>
      buffer[Wrap(read + i, |buffer|)])
  }

  // Filling a free slot leaves the queue alone.
  lemma FreeSlot<T>(buffer: seq<T>, read: nat, write: nat, i: nat, item: T)
    requires read < |buffer| && write < |buffer|
    requires i < |buffer| - Distance(read, write, |buffer|)
    ensures Queued(buffer[Wrap(write + i, |buffer|) := item], read, write) == Queued(buffer, read, write)
  {
    var n := |buffer|;
    var q, q' := Queued(buffer, read, write), Queued(buffer[Wrap(write + i, n) := item], read, write);
    forall j | 0 <= j < |q|
      ensures q[j] == q'[j]
    {
      assert Wrap(read + j, n) != Wrap(write + i, n);
    }
  }

  // Publishing items that have been stored behind the write cursor.
  lemma Publish<T>(buffer: seq<T>, read: nat, write: nat, items: seq<T>)
    requires read < |buffer| && write < |buffer|
    requires |items| < |buffer| - Distance(read, write, |buffer|)
    requires forall i | 0 <= i < |items| :: buffer[Wrap(write + i, |buffer|)] == items[i]
    ensures Queued(buffer, read, Wrap(write + |items|, |buffer|)) == Queued(buffer, read, write) + items
  {
    var n := |buffer|;
    var q, q' := Queued(buffer, read, write), Queued(buffer, read, Wrap(write + |items|, n));
    assert |q'| == |q| + |items|;
    forall i | 0 <= i < |q'|
      ensures q'[i] == (q + items)[i]
    {
      if |q| <= i {
        assert Wrap(read + i, n) == Wrap(write + (i - |q|), n);
      }
    }
  }

  // Moving the read cursor past the oldest items.
  lemma Release<T>(buffer: seq<T>, read: nat, write: nat, count: nat)
    requires read < |buffer| && write < |buffer| && count <= Distance(read, write, |buffer|)
    ensures Queued(buffer, Wrap(read + count, |buffer|), write) == Queued(buffer, read, write)[count..]
  {
    var n := |buffer|;
    var q, q' := Queued(buffer, read, write), Queued(buffer, Wrap(read + count, n), write);
    assert |q'| == |q| - count;
    forall i | 0 <= i < |q'|
      ensures q'[i] == q[count..][i]
    {
      assert Wrap(Wrap(read + count, n) + i, n) == Wrap(read + (count + i), n);
    }
  }
}

// One producer and one consumer, interleaved load by load and store by store.
module FifoSteps {
  import opened Basics
  import opened Bits
  import opened FifoCursor

  // Where the producer stands, with the values of its local variables.
  datatype Producer<T> =
    | ProducerIdle
    // _write(b): c->write has been loaded into now
    | WriteLoaded(b: T, now: nat)
    // c->read has been loaded and differs from next
    | WriteRoom(b: T, now: nat)
    // c->buffer[now] has been stored
    | WriteStored(b: T, now: nat)
    // _write_count: the cursors have been sampled, count is cut down to the room there was, and the
    // first done elements are copied
    | BulkWriting(source: seq<T>, count: nat, done: nat)

  datatype Consumer<T> =
    | ConsumerIdle
    // _read and _read_if_not_empty: c->read has been loaded
    | ReadLoaded(now: nat)
    // c->write has been loaded and differs from read
    | ReadReady(now: nat)
    // c->buffer[read] has been loaded
    | ReadTaken(now: nat, value: T)
    // _read_count: the cursors have been sampled, count is wanted cut down to what there was, and
    // out copied
    | BulkReading(wanted: nat, count: nat, out: seq<T>)

  // A write that has returned: what it was given, and how much of it it says it took.
  datatype Put<T> = Put(given: seq<T>, count: nat)

  // A read that has returned: how many items it was asked for, and what it brought.
  datatype Take<T> = Take(wanted: nat, out: seq<T>)

  // puts and takes are history: the calls that have returned, in order.
  datatype State<T> = State(read: nat, write: nat, buffer: seq<T>,
                            producer: Producer<T>, consumer: Consumer<T>,
                            puts: seq<Put<T>>, takes: seq<Take<T>>)

  datatype Event<T> =
    | CallWrite(b: T)
    | CallWriteCount(source: seq<T>)
    | ProducerMoves
    | CallRead
    | CallReadCount(count: nat)
    | ConsumerMoves

  ghost predicate WellFormed<T>(s: State<T>) {
    PowerOfTwo(|s.buffer|) && s.read < |s.buffer| && s.write < |s.buffer|
  }

  ghost predicate Enabled<T>(s: State<T>, e: Event<T>) {
    match e
    case CallWrite(_) => s.producer.ProducerIdle?
    case CallWriteCount(_) => s.producer.ProducerIdle?
    case ProducerMoves => !s.producer.ProducerIdle?
    case CallRead => s.consumer.ConsumerIdle?
    case CallReadCount(_) => s.consumer.ConsumerIdle?
    case ConsumerMoves => !s.consumer.ConsumerIdle?
  }

  // ---- What the calls were given and what they returned ----

  ghost predicate Recorded<T>(puts: seq<Put<T>>, takes: seq<Take<T>>) {
    && (forall i | 0 <= i < |puts| :: puts[i].count <= |puts[i].given|)
    && (forall i | 0 <= i < |takes| :: |takes[i].out| <= takes[i].wanted)
  }

  // As much of what the writes were given as they say they took.
  function Written<T>(puts: seq<Put<T>>): seq<T>
    requires forall i | 0 <= i < |puts| :: puts[i].count <= |puts[i].given|
  {
    if puts == [] then []
    else
      var last := puts[|puts| - 1];
      Written(puts[..|puts| - 1]) + last.given[..last.count]
  }

  // All that reads have brought.
  function Got<T>(takes: seq<Take<T>>): seq<T> {
    if takes == [] then [] else Got(takes[..|takes| - 1]) + takes[|takes| - 1].out
  }

  lemma WrittenReturn<T>(puts: seq<Put<T>>, takes: seq<Take<T>>, put: Put<T>)
    requires Recorded(puts, takes) && put.count <= |put.given|
    ensures Recorded(puts + [put], takes)
    ensures Written(puts + [put]) == Written(puts) + put.given[..put.count]
  {
    assert (puts + [put])[..|puts|] == puts;
  }

  lemma GotReturn<T>(puts: seq<Put<T>>, takes: seq<Take<T>>, take: Take<T>)
    requires Recorded(puts, takes) && |take.out| <= take.wanted
    ensures Recorded(puts, takes + [take])
    ensures Got(takes + [take]) == Got(takes) + take.out
  {
    assert (takes + [take])[..|takes|] == takes;
  }

  // ---- The invariant ----

  function Len<T>(s: State<T>): nat
    requires WellFormed(s)
  {
    Distance(s.read, s.write, |s.buffer|)
  }

  function Queue<T>(s: State<T>): seq<T>
    requires WellFormed(s)
  {
    Queued(s.buffer, s.read, s.write)
  }

  ghost predicate ProducerInv<T>(s: State<T>)
    requires WellFormed(s)
  {
    var size := |s.buffer|;
    match s.producer
    case ProducerIdle => true
    case WriteLoaded(b, now) => now == s.write
    case WriteRoom(b, now) => now == s.write && Len(s) + 1 < size
    case WriteStored(b, now) => now == s.write && Len(s) + 1 < size && s.buffer[now] == b
    case BulkWriting(source, count, done) =>
      && 0 < count <= |source| && Len(s) + count < size && done <= count
      && forall i | 0 <= i < done :: s.buffer[Wrap(s.write + i, size)] == source[i]
  }

  ghost predicate ConsumerInv<T>(s: State<T>)
    requires WellFormed(s)
  {
    match s.consumer
    case ConsumerIdle => true
    case ReadLoaded(now) => now == s.read
    case ReadReady(now) => now == s.read && Len(s) > 0
    case ReadTaken(now, value) => now == s.read && Len(s) > 0 && value == Queue(s)[0]
    case BulkReading(wanted, count, out) =>
      |out| <= count <= Len(s) && 0 < count <= wanted && out == Queue(s)[..|out|]
  }

  ghost predicate Inv<T>(s: State<T>) {
    && WellFormed(s) && ProducerInv(s) && ConsumerInv(s) && Recorded(s.puts, s.takes)
    && Got(s.takes) + Queue(s) == Written(s.puts)
  }

  function Min(a: nat, b: nat): (m: nat)
    ensures m <= a && m <= b
  {
    if a < b then a else b
  }

  // The destination of element k of a bulk copy of count elements: the macros split the copy in two
  // when it runs over the end of the buffer.
  function CopySlot(cursor: nat, k: nat, count: nat, size: nat): (slot: nat)
    requires cursor < size && k < count < size
    ensures slot == Wrap(cursor + k, size)
  {
    if cursor + count > size then
      var first := size - cursor;
      if k < first then cursor + k else k - first
    else cursor + k
  }

  // One atomic step of the macros.
  function Next<T>(s: State<T>, e: Event<T>): State<T>
    requires Inv(s) && Enabled(s, e)
  {
    var size := |s.buffer|;
    match e
    case CallWrite(b) => s.(producer := WriteLoaded(b, s.write))
    case CallWriteCount(source) =>
      ReadSizeIsDistance(s.read, s.write, size);
      var free := size - 1 - ReadSize(s.read, s.write, size);
      var count := if |source| > free then free else |source|;
      if count == 0 then s.(puts := s.puts + [Put(source, 0)])
      else s.(producer := BulkWriting(source, count, 0))
    case ProducerMoves => ProducerStep(s)
    case CallRead => s.(consumer := ReadLoaded(s.read))
    case CallReadCount(wanted) =>
      var now := ReadSize(s.read, s.write, size);
      var count := if wanted > now then now else wanted;
      if count == 0 then s.(takes := s.takes + [Take(wanted, [])])
      else s.(consumer := BulkReading(wanted, count, []))
    case ConsumerMoves => ConsumerStep(s)
  }

  function ProducerStep<T>(s: State<T>): State<T>
    requires Inv(s)
  {
    var size := |s.buffer|;
    match s.producer
    case ProducerIdle => s
    case WriteLoaded(b, now) =>
      if s.read != Masked(now + 1, size) then s.(producer := WriteRoom(b, now))
      else s.(producer := ProducerIdle, puts := s.puts + [Put([b], 0)])
    case WriteRoom(b, now) =>
      s.(buffer := s.buffer[now := b], producer := WriteStored(b, now))
    case WriteStored(b, now) =>
      s.(write := Masked(now + 1, size), producer := ProducerIdle, puts := s.puts + [Put([b], 1)])
    case BulkWriting(source, count, done) =>
      if done < count then
        var slot := CopySlot(s.write, done, count, size);
        s.(buffer := s.buffer[slot := source[done]], producer := BulkWriting(source, count, done + 1))
      else
        s.(write := Masked(s.write + count, size), producer := ProducerIdle, puts := s.puts + [Put(source, count)])
  }

  function ConsumerStep<T>(s: State<T>): State<T>
    requires Inv(s)
  {
    var size := |s.buffer|;
    match s.consumer
    case ConsumerIdle => s
    case ReadLoaded(now) =>
      if now == s.write then s.(consumer := ConsumerIdle, takes := s.takes + [Take(1, [])])
      else s.(consumer := ReadReady(now))
    case ReadReady(now) =>
      s.(consumer := ReadTaken(now, s.buffer[now]))
    case ReadTaken(now, value) =>
      s.(read := Masked(now + 1, size), consumer := ConsumerIdle, takes := s.takes + [Take(1, [value])])
    case BulkReading(wanted, count, out) =>
      if |out| < count then
        var slot := CopySlot(s.read, |out|, count, size);
        s.(consumer := BulkReading(wanted, count, out + [s.buffer[slot]]))
      else
        s.(read := Masked(s.read + count, size), consumer := ConsumerIdle, takes := s.takes + [Take(wanted, out)])
  }

  // ---- The bounded queue ----

  datatype Action<T> =
    | Nothing
    // the producer's items join the queue, all at once and in order
    | Enqueue(items: seq<T>)
    // the consumer leaves with the oldest items
    | Dequeue(items: seq<T>)
    // a write is turned down: the queue is full at this step
    | Refuse
    // a read finds nothing: the queue is empty at this step
    | Starve

  ghost predicate Acts<T>(capacity: nat, q: seq<T>, a: Action<T>, q': seq<T>) {
    match a
    case Nothing => q' == q
    case Enqueue(items) => |q| + |items| <= capacity && q' == q + items
    case Dequeue(items) => |items| <= |q| && items == q[..|items|] && q' == q[|items|..]
    case Refuse => |q| == capacity && q' == q
    case Starve => q == [] && q' == q
  }

  // The action a step stands for, read off the local state that takes it.
  function ActionOf<T>(s: State<T>, e: Event<T>): Action<T>
    requires Inv(s) && Enabled(s, e)
  {
    match e
    case CallWriteCount(source) =>
      if source != [] && Next(s, e).producer.ProducerIdle? then Refuse else Nothing
    case CallReadCount(n) =>
      if n > 0 && Next(s, e).consumer.ConsumerIdle? then Starve else Nothing
    case ProducerMoves => ProducerAction(s)
    case ConsumerMoves => ConsumerAction(s)
    case _ => Nothing
  }

  function ProducerAction<T>(s: State<T>): Action<T>
    requires Inv(s)
  {
    match s.producer
    case WriteLoaded(b, now) => if s.read != Masked(now + 1, |s.buffer|) then Nothing else Refuse
    case WriteStored(b, now) => Enqueue([b])
    case BulkWriting(source, count, done) => if done < count then Nothing else Enqueue(source[..count])
    case _ => Nothing
  }

  function ConsumerAction<T>(s: State<T>): Action<T>
    requires WellFormed(s)
  {
    match s.consumer
    case ReadLoaded(now) => if now == s.write then Starve else Nothing
    case ReadTaken(now, value) => Dequeue([value])
    case BulkReading(_, count, out) => if |out| < count then Nothing else Dequeue(out)
    case _ => Nothing
  }

  // FIFO_NULL: both cursors are zero, and the slots hold anything.
  ghost function Start<T>(buffer: seq<T>): (s: State<T>)
    requires PowerOfTwo(|buffer|)
    ensures Inv(s) && Queue(s) == []
  {
    State(0, 0, buffer, ProducerIdle, ConsumerIdle, [], [])
  }

  // ---- Refinement, step by step ----

  ghost predicate Refines<T>(s: State<T>, a: Action<T>, s': State<T>)
    requires Inv(s)
  {
    && Inv(s')
    && |s'.buffer| == |s.buffer|
    && Acts(|s.buffer| - 1, Queue(s), a, Queue(s'))
    && Written(s'.puts) == Written(s.puts) + Enqueues(a)
    && Got(s'.takes) == Got(s.takes) + Dequeues(a)
  }

  function Enqueues<T>(a: Action<T>): seq<T> {
    if a.Enqueue? then a.items else []
  }

  function Dequeues<T>(a: Action<T>): seq<T> {
    if a.Dequeue? then a.items else []
  }

  lemma InvParts<T>(s: State<T>)
    requires Inv(s)
    ensures WellFormed(s) && ProducerInv(s) && ConsumerInv(s) && Recorded(s.puts, s.takes)
    ensures Got(s.takes) + Queue(s) == Written(s.puts)
    ensures s.read < |s.buffer| && s.write < |s.buffer|
  {
    hide ProducerInv, ConsumerInv, Recorded, Got, Queue, Written;
  }

  lemma Assembles<T>(s: State<T>, a: Action<T>, s': State<T>)
    requires Inv(s)
    requires WellFormed(s') && ProducerInv(s') && ConsumerInv(s') && Recorded(s'.puts, s'.takes)
    requires |s'.buffer| == |s.buffer| && Acts(|s.buffer| - 1, Queue(s), a, Queue(s'))
    requires Written(s'.puts) == Written(s.puts) + Enqueues(a) && Got(s'.takes) == Got(s.takes) + Dequeues(a)
    ensures Refines(s, a, s')
  {
    InvParts(s);
    StaysBalanced(|s.buffer| - 1, Queue(s), a, Queue(s'), Got(s.takes));
    hide WellFormed, ProducerInv, ConsumerInv, Recorded, Got, Queue, Written, Acts, Enqueues, Dequeues;
  }

  // Items only go from the writes to the queue and from the queue to the reads.
  lemma StaysBalanced<T>(capacity: nat, q: seq<T>, a: Action<T>, q': seq<T>, got: seq<T>)
    requires Acts(capacity, q, a, q')
    ensures (got + Dequeues(a)) + q' == (got + q) + Enqueues(a)
  {
    if a.Dequeue? {
      FrontAndRest(q, |a.items|);
      Associates(got, a.items, q');
      assert (got + q) + [] == got + q;
    } else if a.Enqueue? {
      assert got + [] == got;
      Associates(got, q, a.items);
    } else {
      assert got + [] == got && (got + q) + [] == got + q;
    }
  }

  lemma FrontAndRest<U>(q: seq<U>, n: nat)
    requires n <= |q|
    ensures q[..n] + q[n..] == q
  {
  }

  // The cursors and the buffer are all that the queue depends on.
  lemma SameQueue<T>(s: State<T>, s': State<T>)
    requires WellFormed(s) && s'.read == s.read && s'.write == s.write && s'.buffer == s.buffer
    ensures WellFormed(s') && Queue(s') == Queue(s) && Len(s') == Len(s) == |Queue(s)|
  {
    hide PowerOfTwo, Distance;
  }

  lemma ProducerStepRefines<T>(s: State<T>)
    requires Inv(s) && !s.producer.ProducerIdle?
    ensures Refines(s, ProducerAction(s), ProducerStep(s))
  {
    hide Queued, Masked, Refines, And, Written, Got, Recorded;
    var size := |s.buffer|;
    match s.producer {
      case WriteLoaded(b, now) =>
        MaskWraps(now + 1, size);
        if s.read != Wrap(now + 1, size) {
          ProducerTurns(s, WriteRoom(b, now));
        } else {
          RefuseRefines(s, [b]);
        }
      case WriteRoom(b, now) =>
        StoreRefines(s, 0, b, WriteStored(b, now));
      case WriteStored(b, now) =>
        assert [b][..1] == [b];
        PublishRefines(s, [b], 1);
      case BulkWriting(source, count, done) =>
        if done < count {
          BulkStoreRefines(s);
        } else {
          PublishRefines(s, source, count);
        }
    }
  }

  lemma BulkStoreRefines<T>(s: State<T>)
    requires Inv(s) && s.producer.BulkWriting? && s.producer.done < s.producer.count
    ensures Refines(s, Nothing, ProducerStep(s))
  {
    hide Queued, Refines, And, Written, Got, Recorded;
    var source, count, done := s.producer.source, s.producer.count, s.producer.done;
    StoreRefines(s, done, source[done], BulkWriting(source, count, done + 1));
  }

  // A step that only moves on in the code.
  lemma ProducerTurns<T>(s: State<T>, next: Producer<T>)
    requires Inv(s) && ProducerInv(s.(producer := next))
    ensures Refines(s, Nothing, s.(producer := next))
  {
    var s' := s.(producer := next);
    InvParts(s);
    SameQueue(s, s');
    SameConsumer(s, s');
    NothingMoves(s, s');
  }

  lemma QueueLength<T>(s: State<T>)
    requires WellFormed(s)
    ensures |Queue(s)| == Len(s) < |s.buffer|
  {
    hide PowerOfTwo, Distance;
  }

  lemma NothingMoves<T>(s: State<T>, s': State<T>)
    requires Inv(s) && WellFormed(s') && ProducerInv(s') && ConsumerInv(s')
    requires s'.puts == s.puts && s'.takes == s.takes && |s'.buffer| == |s.buffer| && Queue(s') == Queue(s)
    ensures Refines(s, Nothing, s')
  {
    InvParts(s);
    hide Inv, Refines, Queue, WellFormed, Written, Got, Recorded, ProducerInv, ConsumerInv;
    assert Written(s.puts) + [] == Written(s.puts) && Got(s.takes) + [] == Got(s.takes);
    Assembles(s, Nothing, s');
  }

  lemma IdleProducer<T>(s: State<T>)
    requires WellFormed(s) && s.producer.ProducerIdle?
    ensures ProducerInv(s)
  {
  }

  lemma IdleConsumer<T>(s: State<T>)
    requires WellFormed(s) && s.consumer.ConsumerIdle?
    ensures ConsumerInv(s)
  {
  }

  lemma ActsStill<T>(capacity: nat, q: seq<T>, a: Action<T>)
    requires a.Nothing? || (a.Refuse? && |q| == capacity) || (a.Starve? && |q| == 0)
    ensures Acts(capacity, q, a, q) && Enqueues(a) == [] && Dequeues(a) == []
  {
  }

  lemma ActsEnqueue<T>(capacity: nat, q: seq<T>, items: seq<T>)
    requires |q| + |items| <= capacity
    ensures Acts(capacity, q, Enqueue(items), q + items)
    ensures Enqueues(Enqueue(items)) == items && Dequeues(Enqueue(items)) == []
  {
  }

  lemma ActsDequeue<T>(capacity: nat, q: seq<T>, items: seq<T>)
    requires |items| <= |q| && items == q[..|items|]
    ensures Acts(capacity, q, Dequeue(items), q[|items|..])
    ensures Dequeues(Dequeue(items)) == items && Enqueues(Dequeue(items)) == []
  {
  }

  lemma Published<T>(s: State<T>, s': State<T>, items: seq<T>)
    requires WellFormed(s) && Len(s) + |items| < |s.buffer|
    requires forall i | 0 <= i < |items| :: s.buffer[Wrap(s.write + i, |s.buffer|)] == items[i]
    requires s'.read == s.read && s'.buffer == s.buffer && s'.write == Masked(s.write + |items|, |s.buffer|)
    ensures WellFormed(s') && Queue(s') == Queue(s) + items
  {
    MaskWraps(s.write + |items|, |s.buffer|);
    Publish(s.buffer, s.read, s.write, items);
    hide Masked, Queued, PowerOfTwo;
  }

  lemma Released<T>(s: State<T>, s': State<T>, count: nat)
    requires WellFormed(s) && count <= Len(s)
    requires s'.write == s.write && s'.buffer == s.buffer && s'.read == Masked(s.read + count, |s.buffer|)
    ensures WellFormed(s') && Queue(s') == Queue(s)[count..] && Len(s') <= Len(s)
  {
    MaskWraps(s.read + count, |s.buffer|);
    Release(s.buffer, s.read, s.write, count);
    hide Masked, Queued, PowerOfTwo;
  }

  // A write that takes nothing.
  lemma RefuseRefines<T>(s: State<T>, given: seq<T>)
    requires Inv(s) && (given == [] || Len(s) == |s.buffer| - 1)
    ensures Refines(s, if given == [] then Nothing else Refuse,
                    s.(producer := ProducerIdle, puts := s.puts + [Put(given, 0)]))
  {
    hide *;
    InvParts(s);
    var s' := s.(producer := ProducerIdle, puts := s.puts + [Put(given, 0)]);
    var a := if given == [] then Nothing else Refuse;
    SameQueue(s, s');
    WrittenReturn(s.puts, s.takes, Put(given, 0));
    SameConsumer(s, s');
    IdleProducer(s');
    ActsStill(|s.buffer| - 1, Queue(s), a);
    assert given[..0] == [];
    assert Got(s.takes) + [] == Got(s.takes);
    Assembles(s, a, s');
  }

  lemma ConsumerTurns<T>(s: State<T>, next: Consumer<T>)
    requires Inv(s) && ConsumerInv(s.(consumer := next))
    ensures Refines(s, Nothing, s.(consumer := next))
  {
    var s' := s.(consumer := next);
    InvParts(s);
    SameQueue(s, s');
    QueueShrinks(s, s');
    NothingMoves(s, s');
  }

  // A read that brings nothing.
  lemma StarveRefines<T>(s: State<T>, wanted: nat)
    requires Inv(s) && (wanted == 0 || Len(s) == 0)
    ensures Refines(s, if wanted == 0 then Nothing else Starve,
                    s.(consumer := ConsumerIdle, takes := s.takes + [Take(wanted, [])]))
  {
    hide *;
    InvParts(s);
    var s' := s.(consumer := ConsumerIdle, takes := s.takes + [Take(wanted, [])]);
    var a := if wanted == 0 then Nothing else Starve;
    SameQueue(s, s');
    GotReturn(s.puts, s.takes, Take(wanted, []));
    QueueShrinks(s, s');
    IdleConsumer(s');
    ActsStill(|s.buffer| - 1, Queue(s), a);
    assert Written(s.puts) + [] == Written(s.puts);
    Assembles(s, a, s');
  }

  // A store behind the write cursor is out of the consumer's sight.
  lemma StoreRefines<T>(s: State<T>, i: nat, item: T, next: Producer<T>)
    requires Inv(s) && Len(s) + i < |s.buffer| - 1
    requires ProducerInv(s.(buffer := s.buffer[Wrap(s.write + i, |s.buffer|) := item], producer := next))
    ensures Refines(s, Nothing, s.(buffer := s.buffer[Wrap(s.write + i, |s.buffer|) := item], producer := next))
  {
    var s' := s.(buffer := s.buffer[Wrap(s.write + i, |s.buffer|) := item], producer := next);
    InvParts(s);
    FreeSlot(s.buffer, s.read, s.write, i, item);
    assert Queue(s') == Queue(s) + [];
    QueueGrows(s, s', []);
    NothingMoves(s, s');
  }

  lemma PublishRefines<T>(s: State<T>, given: seq<T>, count: nat)
    requires Inv(s) && count <= |given| && Len(s) + count < |s.buffer|
    requires forall i | 0 <= i < count :: s.buffer[Wrap(s.write + i, |s.buffer|)] == given[i]
    ensures Refines(s, Enqueue(given[..count]),
      s.(write := Masked(s.write + count, |s.buffer|), producer := ProducerIdle, puts := s.puts + [Put(given, count)]))
  {
    hide *;
    InvParts(s);
    var size, items, put := |s.buffer|, given[..count], Put(given, count);
    var s' := s.(write := Masked(s.write + count, size), producer := ProducerIdle, puts := s.puts + [put]);
    Published(s, s', items);
    WrittenReturn(s.puts, s.takes, put);
    QueueGrows(s, s', items);
    IdleProducer(s');
    QueueLength(s);
    ActsEnqueue(size - 1, Queue(s), items);
    assert Got(s.takes) + [] == Got(s.takes);
    Assembles(s, Enqueue(items), s');
  }

  // The consumer does not mind a longer queue.
  lemma QueueGrows<T>(s: State<T>, s': State<T>, items: seq<T>)
    requires WellFormed(s) && WellFormed(s') && ConsumerInv(s)
    requires s'.consumer == s.consumer && s'.read == s.read && Queue(s') == Queue(s) + items
    ensures ConsumerInv(s')
  {
    hide Queued, Distance, PowerOfTwo;
    assert |Queue(s')| == |Queue(s)| + |items|;
  }

  lemma SameConsumer<T>(s: State<T>, s': State<T>)
    requires WellFormed(s) && WellFormed(s') && ConsumerInv(s)
    requires s'.consumer == s.consumer && s'.read == s.read && s'.write == s.write && s'.buffer == s.buffer
    ensures ConsumerInv(s')
  {
    hide Queued, Distance, PowerOfTwo;
  }

  // The producer does not mind a shorter one.
  lemma QueueShrinks<T>(s: State<T>, s': State<T>)
    requires WellFormed(s) && WellFormed(s') && ProducerInv(s)
    requires s'.producer == s.producer && s'.write == s.write && s'.buffer == s.buffer && Len(s') <= Len(s)
    ensures ProducerInv(s')
  {
    hide Distance, PowerOfTwo, Wrap;
  }

  lemma ConsumerStepRefines<T>(s: State<T>)
    requires Inv(s) && !s.consumer.ConsumerIdle?
    ensures Refines(s, ConsumerAction(s), ConsumerStep(s))
  {
    hide Queued, Masked, Refines, And, Written, Got, Recorded;
    match s.consumer {
      case ReadLoaded(now) =>
        if now == s.write {
          StarveRefines(s, 1);
        } else {
          ConsumerTurns(s, ReadReady(now));
        }
      case ReadReady(now) =>
        OldestNext(s, 0);
        ConsumerTurns(s, ReadTaken(now, s.buffer[now]));
      case ReadTaken(now, value) =>
        ReleaseRefines(s, 1, [value]);
      case BulkReading(wanted, count, out) =>
        if |out| < count {
          OldestNext(s, |out|);
          ConsumerTurns(s, BulkReading(wanted, count, out + [s.buffer[Wrap(s.read + |out|, |s.buffer|)]]));
        } else {
          ReleaseRefines(s, wanted, out);
        }
    }
  }

  lemma OldestNext<T>(s: State<T>, i: nat)
    requires WellFormed(s) && i < Len(s)
    ensures Queue(s)[..i + 1] == Queue(s)[..i] + [s.buffer[Wrap(s.read + i, |s.buffer|)]]
  {
  }

  lemma ReleaseRefines<T>(s: State<T>, wanted: nat, items: seq<T>)
    requires Inv(s) && |items| <= wanted && |items| <= Len(s) && items == Queue(s)[..|items|]
    ensures Refines(s, Dequeue(items),
      s.(read := Masked(s.read + |items|, |s.buffer|), consumer := ConsumerIdle,
         takes := s.takes + [Take(wanted, items)]))
  {
    hide *;
    InvParts(s);
    var size, take := |s.buffer|, Take(wanted, items);
    var s' := s.(read := Masked(s.read + |items|, size), consumer := ConsumerIdle, takes := s.takes + [take]);
    Released(s, s', |items|);
    GotReturn(s.puts, s.takes, take);
    QueueShrinks(s, s');
    IdleConsumer(s');
    QueueLength(s);
    ActsDequeue(size - 1, Queue(s), items);
    assert Written(s.puts) + [] == Written(s.puts);
    Assembles(s, Dequeue(items), s');
  }

  lemma BulkWriteRefines<T>(s: State<T>, source: seq<T>)
    requires Inv(s) && Enabled(s, CallWriteCount(source))
    ensures var e := CallWriteCount(source); Refines(s, ActionOf(s, e), Next(s, e))
  {
    ReadSizeIsDistance(s.read, s.write, |s.buffer|);
    hide Queued, Refines, ReadSize, Written, Got, Recorded, PowerOfTwo, Distance;
    var e := CallWriteCount(source);
    if Next(s, e).producer.ProducerIdle? {
      RefuseRefines(s, source);
    } else {
      ProducerTurns(s, Next(s, e).producer);
    }
  }

  lemma BulkReadRefines<T>(s: State<T>, wanted: nat)
    requires Inv(s) && Enabled(s, CallReadCount(wanted))
    ensures var e := CallReadCount(wanted); Refines(s, ActionOf(s, e), Next(s, e))
  {
    ReadSizeIsDistance(s.read, s.write, |s.buffer|);
    hide Queued, Refines, ReadSize, Written, Got, Recorded, PowerOfTwo, Distance;
    var e := CallReadCount(wanted);
    if Next(s, e).consumer.ConsumerIdle? {
      StarveRefines(s, wanted);
    } else {
      ConsumerTurns(s, Next(s, e).consumer);
    }
  }

  lemma SingleCallRefines<T>(s: State<T>, e: Event<T>)
    requires Inv(s) && Enabled(s, e) && (e.CallWrite? || e.CallRead?)
    ensures Refines(s, ActionOf(s, e), Next(s, e))
  {
    hide Queued, Refines, Written, Got, Recorded, PowerOfTwo, Distance;
    if e.CallWrite? {
      ProducerTurns(s, WriteLoaded(e.b, s.write));
    } else {
      ConsumerTurns(s, ReadLoaded(s.read));
    }
  }

  lemma StepRefines<T>(s: State<T>, e: Event<T>)
    requires Inv(s) && Enabled(s, e)
    ensures Refines(s, ActionOf(s, e), Next(s, e))
  {
    hide Inv, Refines, ProducerStep, ConsumerStep, ProducerAction, ConsumerAction;
    match e {
      case ProducerMoves => ProducerStepRefines(s);
      case ConsumerMoves => ConsumerStepRefines(s);
      case CallWriteCount(source) => BulkWriteRefines(s, source);
      case CallReadCount(wanted) => BulkReadRefines(s, wanted);
      case _ => SingleCallRefines(s, e);
    }
  }

  // ---- Whole runs ----

  ghost predicate Schedule<T>(s: State<T>, events: seq<Event<T>>)
    requires Inv(s)
    decreases |events|
  {
    events == [] || (Enabled(s, events[0]) && (StepRefines(s, events[0]); Schedule(Next(s, events[0]), events[1..])))
  }

  ghost function Run<T>(s: State<T>, events: seq<Event<T>>): State<T>
    requires Inv(s) && Schedule(s, events)
    decreases |events|
  {
    if events == [] then s else
      StepRefines(s, events[0]);
      Run(Next(s, events[0]), events[1..])
  }

  ghost function Actions<T>(s: State<T>, events: seq<Event<T>>): seq<Action<T>>
    requires Inv(s) && Schedule(s, events)
    decreases |events|
  {
    if events == [] then [] else
      StepRefines(s, events[0]);
      [ActionOf(s, events[0])] + Actions(Next(s, events[0]), events[1..])
  }

  lemma RunFirst<T>(s: State<T>, events: seq<Event<T>>)
    requires Inv(s) && Schedule(s, events) && events != []
    ensures Enabled(s, events[0]) && Inv(Next(s, events[0])) && Schedule(Next(s, events[0]), events[1..])
    ensures Refines(s, ActionOf(s, events[0]), Next(s, events[0]))
    ensures Run(s, events) == Run(Next(s, events[0]), events[1..])
    ensures Actions(s, events) == [ActionOf(s, events[0])] + Actions(Next(s, events[0]), events[1..])
  {
    StepRefines(s, events[0]);
    hide Inv, Next, Enabled, ActionOf;
  }

  // q' is reached from q by these actions of a bounded queue.
  ghost predicate QueueRun<T(!new)>(capacity: nat, q: seq<T>, actions: seq<Action<T>>, q': seq<T>)
    decreases |actions|
  {
    if actions == [] then q' == q
    else exists next :: Acts(capacity, q, actions[0], next) && QueueRun(capacity, next, actions[1..], q')
  }

  // Under every interleaving, the ring is a queue of capacity one less than its size.
  lemma {:induction false} RunRefines<T(!new)>(s: State<T>, events: seq<Event<T>>)
    requires Inv(s) && Schedule(s, events)
    ensures Inv(Run(s, events)) && |Run(s, events).buffer| == |s.buffer|
    ensures QueueRun(|s.buffer| - 1, Queue(s), Actions(s, events), Queue(Run(s, events)))
    decreases |events|
  {
    hide *;
    if events == [] {
      RunNothing(s);
      RefinesActs(s, Nothing, s);
      QueueStays(|s.buffer| - 1, Queue(s));
    } else {
      RunFirst(s, events);
      var a, s', rest := ActionOf(s, events[0]), Next(s, events[0]), Actions(Next(s, events[0]), events[1..]);
      RefinesActs(s, a, s');
      RunRefines(s', events[1..]);
      RefinesActs(Run(s, events), Nothing, Run(s, events));
      QueueRunFirst(|s.buffer| - 1, Queue(s), a, Queue(s'), rest, Queue(Run(s, events)));
    }
  }

  lemma RefinesActs<T>(s: State<T>, a: Action<T>, s': State<T>)
    requires Inv(s)
    ensures WellFormed(s) && |s.buffer| > 0
    ensures Refines(s, a, s') ==>
      WellFormed(s') && |s'.buffer| == |s.buffer| && Acts(|s.buffer| - 1, Queue(s), a, Queue(s'))
  {
    hide ProducerInv, ConsumerInv, Acts, Queue;
  }

  lemma RunNothing<T>(s: State<T>)
    requires Inv(s)
    ensures Schedule(s, []) && Run(s, []) == s && Actions(s, []) == []
  {
    hide Inv;
  }

  lemma QueueStays<T(!new)>(capacity: nat, q: seq<T>)
    ensures QueueRun(capacity, q, [], q)
  {
  }

  lemma QueueRunFirst<T(!new)>(capacity: nat, q: seq<T>, a: Action<T>, next: seq<T>, rest: seq<Action<T>>, q': seq<T>)
    requires Acts(capacity, q, a, next) && QueueRun(capacity, next, rest, q')
    ensures QueueRun(capacity, q, [a] + rest, q')
  {
    hide Acts;
    assert ([a] + rest)[1..] == rest;
  }

  // What all writes up to s were given, and what all reads asked for, those under way included.

  function Given<T>(s: State<T>): seq<seq<T>> {
    seq(|s.puts|, i requires 0 <= i < |s.puts| => s.puts[i].given)
    + match s.producer
      case ProducerIdle => []
      case BulkWriting(source, _, _) => [source]
      case _ => [[s.producer.b]]
  }

  function Asked<T>(s: State<T>): seq<nat> {
    seq(|s.takes|, i requires 0 <= i < |s.takes| => s.takes[i].wanted)
    + match s.consumer
      case ConsumerIdle => []
      case BulkReading(wanted, _, _) => [wanted]
      case _ => [1]
  }

  // The calls of one event, and of a schedule.

  function Writes<T>(e: Event<T>): seq<seq<T>> {
    match e
    case CallWrite(b) => [[b]]
    case CallWriteCount(source) => [source]
    case _ => []
  }

  function Reads<T>(e: Event<T>): seq<nat> {
    match e
    case CallRead => [1]
    case CallReadCount(wanted) => [wanted]
    case _ => []
  }

  function WritesMade<T>(events: seq<Event<T>>): seq<seq<T>> {
    if events == [] then [] else Writes(events[0]) + WritesMade(events[1..])
  }

  function ReadsMade<T>(events: seq<Event<T>>): seq<nat> {
    if events == [] then [] else Reads(events[0]) + ReadsMade(events[1..])
  }

  lemma StepRecords<T>(s: State<T>, e: Event<T>)
    requires Inv(s) && Enabled(s, e)
    ensures Given(Next(s, e)) == Given(s) + Writes(e)
    ensures Asked(Next(s, e)) == Asked(s) + Reads(e)
  {
    hide Inv, Masked, ReadSize;
  }

  // The calls on record are the calls of the schedule.
  lemma {:induction false} RunRecordsCalls<T>(s: State<T>, events: seq<Event<T>>)
    requires Inv(s) && Schedule(s, events)
    ensures Given(Run(s, events)) == Given(s) + WritesMade(events)
    ensures Asked(Run(s, events)) == Asked(s) + ReadsMade(events)
    decreases |events|
  {
    hide Inv, Next, Enabled, Given, Asked, Reads, Writes;
    if events != [] {
      RunFirst(s, events);
      StepRecords(s, events[0]);
      RunRecordsCalls(Next(s, events[0]), events[1..]);
      Associates(Given(s), Writes(events[0]), WritesMade(events[1..]));
      Associates(Asked(s), Reads(events[0]), ReadsMade(events[1..]));
    }
  }

  // From the empty ring: what the reads have brought, followed by what is still queued, is what the
  // writes have taken, of each call of the schedule the front that it returned for: in order, with
  // nothing lost and nothing twice. The queue is never overfull.
  lemma NoLossNoDuplication<T(!new)>(buffer: seq<T>, events: seq<Event<T>>)
    requires PowerOfTwo(|buffer|) && Schedule(Start(buffer), events)
    ensures var s := Run(Start(buffer), events);
      && Inv(s)
      && Given(s) == WritesMade(events) && Asked(s) == ReadsMade(events)
      && Got(s.takes) + Queue(s) == Written(s.puts) && |Queue(s)| < |buffer|
  {
    var start := Start(buffer);
    assert Given(start) == [] && Asked(start) == [];
    RunRefines(start, events);
    RunRecordsCalls(start, events);
    hide Given, Asked, Run, WellFormed, ProducerInv, ConsumerInv;
    assert Inv(Run(start, events));
  }

  // ---- What one call moves, and in how many steps ----

  function Enqueued<T>(actions: seq<Action<T>>): seq<seq<T>> {
    if actions == [] then []
    else (if actions[0].Enqueue? then [actions[0].items] else []) + Enqueued(actions[1..])
  }

  function Dequeued<T>(actions: seq<Action<T>>): seq<seq<T>> {
    if actions == [] then []
    else (if actions[0].Dequeue? then [actions[0].items] else []) + Dequeued(actions[1..])
  }

  lemma MovedFirst<T>(a: Action<T>, rest: seq<Action<T>>)
    ensures Enqueued([a] + rest) == (if a.Enqueue? then [a.items] else []) + Enqueued(rest)
    ensures Dequeued([a] + rest) == (if a.Dequeue? then [a.items] else []) + Dequeued(rest)
  {
    assert ([a] + rest)[1..] == rest;
  }

  predicate CallsProducer<T>(e: Event<T>) {
    e.CallWrite? || e.CallWriteCount?
  }

  predicate CallsConsumer<T>(e: Event<T>) {
    e.CallRead? || e.CallReadCount?
  }

  function ProducerSteps<T>(events: seq<Event<T>>): nat {
    if events == [] then 0 else (if events[0].ProducerMoves? then 1 else 0) + ProducerSteps(events[1..])
  }

  function ConsumerSteps<T>(events: seq<Event<T>>): nat {
    if events == [] then 0 else (if events[0].ConsumerMoves? then 1 else 0) + ConsumerSteps(events[1..])
  }

  // The write under way has found room: after so many more steps it will have put the first count of
  // what it was given on the queue.
  ghost predicate WillPut<T>(s: State<T>, given: seq<T>, count: nat, left: nat) {
    && count <= |given|
    && match s.producer
       case BulkWriting(source, c, done) => source == given && c == count && left == c - done + 1
       case WriteRoom(b, _) => given == [b] && count == 1 && left == 2
       case WriteStored(b, _) => given == [b] && count == 1 && left == 1
       case _ => false
  }

  // The read under way has found items, and will take them off.
  ghost predicate WillTake<T>(s: State<T>, wanted: nat, items: seq<T>, left: nat)
    requires WellFormed(s)
  {
    && items <= Queue(s)
    && match s.consumer
       case BulkReading(w, count, out) => w == wanted && count == |items| && left == count - |out| + 1
       case ReadReady(_) => wanted == 1 && |items| == 1 && left == 2
       case ReadTaken(_, _) => wanted == 1 && |items| == 1 && left == 1
       case _ => false
  }

  lemma PutStep<T>(s: State<T>, e: Event<T>, given: seq<T>, count: nat, left: nat)
    requires Inv(s) && Enabled(s, e) && WillPut(s, given, count, left)
    ensures var s', a := Next(s, e), ActionOf(s, e);
      && left > 0
      && if e.ProducerMoves? && left == 1 then
           s'.producer.ProducerIdle? && a == Enqueue(given[..count]) && s'.puts == s.puts + [Put(given, count)]
         else
           && WillPut(s', given, count, if e.ProducerMoves? then left - 1 else left)
           && !s'.producer.ProducerIdle? && !a.Enqueue? && s'.puts == s.puts
  {
    hide Masked, ReadSize, Recorded, Written, Got;
  }

  lemma IdleProducerStep<T>(s: State<T>, e: Event<T>)
    requires Inv(s) && Enabled(s, e) && s.producer.ProducerIdle? && !CallsProducer(e)
    ensures Next(s, e).producer.ProducerIdle? && !ActionOf(s, e).Enqueue? && Next(s, e).puts == s.puts
  {
    hide Inv, Masked, ReadSize;
  }

  lemma {:induction false} IdleProducerRun<T>(s: State<T>, events: seq<Event<T>>)
    requires Inv(s) && Schedule(s, events) && s.producer.ProducerIdle?
    requires forall e | e in events :: !CallsProducer(e)
    ensures Run(s, events).producer.ProducerIdle? && Run(s, events).puts == s.puts
    ensures Enqueued(Actions(s, events)) == []
    decreases |events|
  {
    hide Inv, Next, Enabled, ActionOf;
    if events != [] {
      RunFirst(s, events);
      IdleProducerStep(s, events[0]);
      IdleProducerRun(Next(s, events[0]), events[1..]);
    }
  }

  lemma {:induction false} PutRun<T>(s: State<T>, events: seq<Event<T>>, given: seq<T>, count: nat, left: nat)
    requires Inv(s) && Schedule(s, events) && WillPut(s, given, count, left)
    requires forall e | e in events :: !CallsProducer(e)
    ensures var t, enqueued := Run(s, events), Enqueued(Actions(s, events));
      && (t.producer.ProducerIdle? <==> ProducerSteps(events) >= left)
      && if t.producer.ProducerIdle? then enqueued == [given[..count]] && t.puts == s.puts + [Put(given, count)]
         else enqueued == [] && t.puts == s.puts
    decreases |events|
  {
    if events == [] {
      WillPutBusy(s, given, count, left);
    } else {
      RunFirst(s, events);
      PutStep(s, events[0], given, count, left);
      var s' := Next(s, events[0]);
      hide *;
      MovedFirst(ActionOf(s, events[0]), Actions(s', events[1..]));
      StepsFirst(events);
      if s'.producer.ProducerIdle? {
        IdleProducerRun(s', events[1..]);
        assert [given[..count]] + [] == [given[..count]];
      } else {
        PutRun(s', events[1..], given, count, if events[0].ProducerMoves? then left - 1 else left);
      }
    }
  }

  lemma WillPutBusy<T>(s: State<T>, given: seq<T>, count: nat, left: nat)
    requires WillPut(s, given, count, left)
    ensures !s.producer.ProducerIdle?
    ensures Inv(s) ==> left > 0
  {
    hide Queue, Recorded, Written, Got;
  }

  lemma StepsFirst<T>(events: seq<Event<T>>)
    requires events != []
    ensures ProducerSteps(events) == (if events[0].ProducerMoves? then 1 else 0) + ProducerSteps(events[1..])
    ensures ConsumerSteps(events) == (if events[0].ConsumerMoves? then 1 else 0) + ConsumerSteps(events[1..])
  {
  }

  // A bulk write puts on the queue, at once, as many of its items as there was room for when it
  // sampled the cursors, up to all of them; whatever the consumer does meanwhile, and however far
  // the run goes, this is all that it puts there, and the number it returns. It takes one step for
  // each item, and one more.
  lemma BulkWriteMoves<T>(s: State<T>, source: seq<T>, events: seq<Event<T>>)
    requires Inv(s) && s.producer.ProducerIdle? && Schedule(s, [CallWriteCount(source)] + events)
    requires forall e | e in events :: !CallsProducer(e)
    ensures var run := [CallWriteCount(source)] + events;
      var t, enqueued, count := Run(s, run), Enqueued(Actions(s, run)), Min(|source|, |s.buffer| - 1 - |Queue(s)|);
      && (t.producer.ProducerIdle? <==> count == 0 || ProducerSteps(events) >= count + 1)
      && t.puts == s.puts + (if t.producer.ProducerIdle? then [Put(source, count)] else [])
      && enqueued == (if t.producer.ProducerIdle? && count > 0 then [source[..count]] else [])
  {
    hide *;
    InvParts(s);
    QueueLength(s);
    var run, count := [CallWriteCount(source)] + events, Min(|source|, |s.buffer| - 1 - |Queue(s)|);
    RunFirst(s, run);
    assert run[1..] == events;
    BulkWriteSamples(s, source);
    var s' := Next(s, CallWriteCount(source));
    MovedFirst(ActionOf(s, run[0]), Actions(s', events));
    assert [] + Enqueued(Actions(s', events)) == Enqueued(Actions(s', events)) && s.puts + [] == s.puts;
    if s'.producer.ProducerIdle? {
      IdleProducerRun(s', events);
    } else {
      PutRun(s', events, source, count, count + 1);
    }
  }

  lemma BulkWriteSamples<T>(s: State<T>, source: seq<T>)
    requires Inv(s) && s.producer.ProducerIdle?
    ensures var e, count := CallWriteCount(source), Min(|source|, |s.buffer| - 1 - |Queue(s)|);
      && !ActionOf(s, e).Enqueue?
      && (Next(s, e).producer.ProducerIdle? <==> count == 0)
      && if count == 0 then Next(s, e).puts == s.puts + [Put(source, 0)]
         else WillPut(Next(s, e), source, count, count + 1) && Next(s, e).puts == s.puts
  {
    ReadSizeIsDistance(s.read, s.write, |s.buffer|);
    hide ReadSize, Recorded, Written, Got;
  }

  // Until its first step a single write has not looked at the queue.
  lemma {:induction false} WriteWaits<T>(s: State<T>, b: T, events: seq<Event<T>>)
    requires Inv(s) && Schedule(s, events) && s.producer.WriteLoaded? && s.producer.b == b
    requires ProducerSteps(events) == 0 && forall e | e in events :: !CallsProducer(e)
    ensures var t := Run(s, events);
      && Inv(t) && t.producer.WriteLoaded? && t.producer.b == b && t.puts == s.puts && |t.buffer| == |s.buffer|
      && Enqueued(Actions(s, events)) == []
    decreases |events|
  {
    if events != [] {
      RunFirst(s, events);
      StepsFirst(events);
      WriteWaitsStep(s, events[0]);
      var s' := Next(s, events[0]);
      hide *;
      MovedFirst(ActionOf(s, events[0]), Actions(s', events[1..]));
      WriteWaits(s', b, events[1..]);
    }
  }

  lemma WriteWaitsStep<T>(s: State<T>, e: Event<T>)
    requires Inv(s) && Enabled(s, e) && s.producer.WriteLoaded? && !e.ProducerMoves? && !CallsProducer(e)
    ensures var s' := Next(s, e);
      && s'.producer == s.producer && s'.puts == s.puts && |s'.buffer| == |s.buffer| && !ActionOf(s, e).Enqueue?
  {
    hide Masked, ReadSize, Recorded, Written, Got, Queue;
  }

  lemma WriteLooks<T>(s: State<T>)
    requires Inv(s) && s.producer.WriteLoaded?
    ensures var s', b, full := Next(s, ProducerMoves), s.producer.b, |Queue(s)| == |s.buffer| - 1;
      && !ActionOf(s, ProducerMoves).Enqueue?
      && (s'.producer.ProducerIdle? <==> full)
      && if full then s'.puts == s.puts + [Put([b], 0)]
         else WillPut(s', [b], 1, 2) && s'.puts == s.puts
  {
    MaskWraps(s.producer.now + 1, |s.buffer|);
    hide Masked, Recorded, Written, Got, PowerOfTwo;
  }

  // A single write looks once, at its first step, whenever that comes. If the queue is full then, it
  // returns 0 with that step and puts nothing; otherwise it returns 1 with the second step after,
  // and puts its item there once, whatever the consumer does.
  lemma SingleWriteMoves<T>(s: State<T>, b: T, before: seq<Event<T>>, after: seq<Event<T>>)
    requires Inv(s) && s.producer.ProducerIdle? && ProducerSteps(before) == 0
    requires forall e | e in before + after :: !CallsProducer(e)
    requires Schedule(s, [CallWrite(b)] + before)
    requires (RunKeepsInv(s, [CallWrite(b)] + before);
              Schedule(Run(s, [CallWrite(b)] + before), [ProducerMoves] + after))
    ensures
      (RunKeepsInv(s, [CallWrite(b)] + before);
       var u := Run(s, [CallWrite(b)] + before);
       var t, full := Run(u, [ProducerMoves] + after), |Queue(u)| == |s.buffer| - 1;
       && (t.producer.ProducerIdle? <==> full || ProducerSteps(after) >= 2)
       && t.puts == s.puts + (if t.producer.ProducerIdle? then [Put([b], if full then 0 else 1)] else [])
       && Enqueued(Actions(s, [CallWrite(b)] + before)) == []
       && Enqueued(Actions(u, [ProducerMoves] + after)) == if t.producer.ProducerIdle? && !full then [[b]] else [])
  {
    assert forall e | e in before :: e in before + after;
    assert forall e | e in after :: e in before + after;
    RunKeepsInv(s, [CallWrite(b)] + before);
    SingleWriteCalled(s, b, before);
    SingleWriteDone(Run(s, [CallWrite(b)] + before), after);
  }

  lemma SingleWriteCalled<T>(s: State<T>, b: T, before: seq<Event<T>>)
    requires Inv(s) && s.producer.ProducerIdle? && ProducerSteps(before) == 0
    requires Schedule(s, [CallWrite(b)] + before) && forall e | e in before :: !CallsProducer(e)
    ensures var run := [CallWrite(b)] + before;
      var u := Run(s, run);
      && Inv(u) && u.producer.WriteLoaded? && u.producer.b == b && u.puts == s.puts && |u.buffer| == |s.buffer|
      && Enqueued(Actions(s, run)) == []
  {
    var run := [CallWrite(b)] + before;
    RunFirst(s, run);
    assert run[1..] == before;
    var s' := Next(s, CallWrite(b));
    assert s'.producer.WriteLoaded? && s'.producer.b == b && s'.puts == s.puts && |s'.buffer| == |s.buffer|
      && !ActionOf(s, CallWrite(b)).Enqueue?;
    hide *;
    MovedFirst(ActionOf(s, CallWrite(b)), Actions(s', before));
    WriteWaits(s', b, before);
  }

  lemma SingleWriteDone<T>(u: State<T>, after: seq<Event<T>>)
    requires Inv(u) && u.producer.WriteLoaded?
    requires Schedule(u, [ProducerMoves] + after) && forall e | e in after :: !CallsProducer(e)
    ensures var t, b, full := Run(u, [ProducerMoves] + after), u.producer.b, |Queue(u)| == |u.buffer| - 1;
      && (t.producer.ProducerIdle? <==> full || ProducerSteps(after) >= 2)
      && t.puts == u.puts + (if t.producer.ProducerIdle? then [Put([b], if full then 0 else 1)] else [])
      && Enqueued(Actions(u, [ProducerMoves] + after)) == if t.producer.ProducerIdle? && !full then [[b]] else []
  {
    hide *;
    InvParts(u);
    var run, b := [ProducerMoves] + after, u.producer.b;
    RunFirst(u, run);
    assert run[0] == ProducerMoves && run[1..] == after;
    var s' := Next(u, ProducerMoves);
    WriteLooks(u);
    MovedFirst(ActionOf(u, ProducerMoves), Actions(s', after));
    assert u.puts + [] == u.puts && [b][..1] == [b];
    if s'.producer.ProducerIdle? {
      IdleProducerRun(s', after);
    } else {
      PutRun(s', after, [b], 1, 2);
    }
  }

  lemma {:induction false} RunKeepsInv<T>(s: State<T>, events: seq<Event<T>>)
    requires Inv(s) && Schedule(s, events)
    ensures Inv(Run(s, events))
    decreases |events|
  {
    hide Inv, Next, Enabled;
    if events != [] {
      RunFirst(s, events);
      RunKeepsInv(Next(s, events[0]), events[1..]);
    }
  }

  lemma TakeTurns<T>(s: State<T>, e: Event<T>, wanted: nat, items: seq<T>, left: nat)
    requires Inv(s) && Enabled(s, e) && WillTake(s, wanted, items, left) && WellFormed(Next(s, e))
    requires e.ConsumerMoves? || items <= Queue(Next(s, e))
    requires e.ConsumerMoves? && left > 1 ==> Queue(Next(s, e)) == Queue(s)
    ensures var s', a := Next(s, e), ActionOf(s, e);
      && left > 0
      && if e.ConsumerMoves? && left == 1 then
           s'.consumer.ConsumerIdle? && a == Dequeue(items) && s'.takes == s.takes + [Take(wanted, items)]
         else
           && WillTake(s', wanted, items, if e.ConsumerMoves? then left - 1 else left)
           && !s'.consumer.ConsumerIdle? && !a.Dequeue? && s'.takes == s.takes
  {
    hide Masked, ReadSize, Recorded, Written, Got, Queued, PowerOfTwo;
  }

  // No step but the last of the read takes anything off the front.
  lemma FrontStays<T>(s: State<T>, e: Event<T>, items: seq<T>)
    requires Inv(s) && Enabled(s, e) && items <= Queue(s)
    ensures WellFormed(Next(s, e))
    ensures !ActionOf(s, e).Dequeue? ==> items <= Queue(Next(s, e))
  {
    StepRefines(s, e);
    hide Recorded, Written, Got, Queued, Next, ActionOf;
  }

  lemma TakeStep<T>(s: State<T>, e: Event<T>, wanted: nat, items: seq<T>, left: nat)
    requires Inv(s) && Enabled(s, e) && WillTake(s, wanted, items, left)
    ensures WellFormed(Next(s, e))
    ensures var s', a := Next(s, e), ActionOf(s, e);
      && left > 0
      && if e.ConsumerMoves? && left == 1 then
           s'.consumer.ConsumerIdle? && a == Dequeue(items) && s'.takes == s.takes + [Take(wanted, items)]
         else
           && WillTake(s', wanted, items, if e.ConsumerMoves? then left - 1 else left)
           && !s'.consumer.ConsumerIdle? && !a.Dequeue? && s'.takes == s.takes
  {
    FrontStays(s, e, items);
    TakeActs(s, e, wanted, items, left);
    TakeTurns(s, e, wanted, items, left);
    hide *;
  }

  lemma TakeActs<T>(s: State<T>, e: Event<T>, wanted: nat, items: seq<T>, left: nat)
    requires Inv(s) && Enabled(s, e) && WillTake(s, wanted, items, left) && WellFormed(Next(s, e))
    ensures !e.ConsumerMoves? ==> !ActionOf(s, e).Dequeue?
    ensures e.ConsumerMoves? && left > 1 ==> Queue(Next(s, e)) == Queue(s)
  {
    hide Masked, ReadSize, Recorded, Written, Got, Queued, PowerOfTwo;
  }

  lemma IdleConsumerStep<T>(s: State<T>, e: Event<T>)
    requires Inv(s) && Enabled(s, e) && s.consumer.ConsumerIdle? && !CallsConsumer(e)
    ensures Next(s, e).consumer.ConsumerIdle? && !ActionOf(s, e).Dequeue? && Next(s, e).takes == s.takes
  {
    hide Inv, Masked, ReadSize;
  }

  lemma {:induction false} IdleConsumerRun<T>(s: State<T>, events: seq<Event<T>>)
    requires Inv(s) && Schedule(s, events) && s.consumer.ConsumerIdle?
    requires forall e | e in events :: !CallsConsumer(e)
    ensures Run(s, events).consumer.ConsumerIdle? && Run(s, events).takes == s.takes
    ensures Dequeued(Actions(s, events)) == []
    decreases |events|
  {
    hide Inv, Next, Enabled, ActionOf;
    if events != [] {
      RunFirst(s, events);
      IdleConsumerStep(s, events[0]);
      IdleConsumerRun(Next(s, events[0]), events[1..]);
    }
  }

  lemma {:induction false} TakeRun<T>(s: State<T>, events: seq<Event<T>>, wanted: nat, items: seq<T>, left: nat)
    requires Inv(s) && Schedule(s, events) && WillTake(s, wanted, items, left)
    requires forall e | e in events :: !CallsConsumer(e)
    ensures var t, dequeued := Run(s, events), Dequeued(Actions(s, events));
      && (t.consumer.ConsumerIdle? <==> ConsumerSteps(events) >= left)
      && if t.consumer.ConsumerIdle? then dequeued == [items] && t.takes == s.takes + [Take(wanted, items)]
         else dequeued == [] && t.takes == s.takes
    decreases |events|
  {
    if events == [] {
      WillTakeBusy(s, wanted, items, left);
    } else {
      RunFirst(s, events);
      TakeStep(s, events[0], wanted, items, left);
      var s' := Next(s, events[0]);
      hide *;
      MovedFirst(ActionOf(s, events[0]), Actions(s', events[1..]));
      StepsFirst(events);
      if s'.consumer.ConsumerIdle? {
        IdleConsumerRun(s', events[1..]);
        assert [items] + [] == [items];
      } else {
        TakeRun(s', events[1..], wanted, items, if events[0].ConsumerMoves? then left - 1 else left);
      }
    }
  }

  lemma WillTakeBusy<T>(s: State<T>, wanted: nat, items: seq<T>, left: nat)
    requires Inv(s) && WillTake(s, wanted, items, left)
    ensures !s.consumer.ConsumerIdle? && left > 0
  {
    hide Queue, Recorded, Written, Got;
  }

  // A bulk read takes off the queue, at once, what was at its front when it sampled the cursors: as
  // many items as there were, up to the number asked for. It too takes a step for each, and one more.
  lemma BulkReadMoves<T>(s: State<T>, wanted: nat, events: seq<Event<T>>)
    requires Inv(s) && s.consumer.ConsumerIdle? && Schedule(s, [CallReadCount(wanted)] + events)
    requires forall e | e in events :: !CallsConsumer(e)
    ensures var run := [CallReadCount(wanted)] + events;
      var t, dequeued, items := Run(s, run), Dequeued(Actions(s, run)), Queue(s)[..Min(wanted, |Queue(s)|)];
      && (t.consumer.ConsumerIdle? <==> items == [] || ConsumerSteps(events) >= |items| + 1)
      && t.takes == s.takes + (if t.consumer.ConsumerIdle? then [Take(wanted, items)] else [])
      && dequeued == (if t.consumer.ConsumerIdle? && items != [] then [items] else [])
  {
    hide *;
    InvParts(s);
    QueueLength(s);
    var run := [CallReadCount(wanted)] + events;
    RunFirst(s, run);
    assert run[1..] == events;
    BulkReadSamples(s, wanted);
    var s', items := Next(s, CallReadCount(wanted)), Queue(s)[..Min(wanted, |Queue(s)|)];
    MovedFirst(ActionOf(s, run[0]), Actions(s', events));
    assert [] + Dequeued(Actions(s', events)) == Dequeued(Actions(s', events)) && s.takes + [] == s.takes;
    if s'.consumer.ConsumerIdle? {
      IdleConsumerRun(s', events);
    } else {
      TakeRun(s', events, wanted, items, |items| + 1);
    }
  }

  lemma BulkReadSamples<T>(s: State<T>, wanted: nat)
    requires Inv(s) && s.consumer.ConsumerIdle?
    ensures var e, items := CallReadCount(wanted), Queue(s)[..Min(wanted, |Queue(s)|)];
      && WellFormed(Next(s, e))
      && !ActionOf(s, e).Dequeue?
      && (Next(s, e).consumer.ConsumerIdle? <==> items == [])
      && if items == [] then Next(s, e).takes == s.takes + [Take(wanted, [])]
         else WillTake(Next(s, e), wanted, items, |items| + 1) && Next(s, e).takes == s.takes
  {
    ReadSizeIsDistance(s.read, s.write, |s.buffer|);
    hide ReadSize, Recorded, Written, Got;
  }

  lemma {:induction false} ReadWaits<T>(s: State<T>, events: seq<Event<T>>)
    requires Inv(s) && Schedule(s, events) && s.consumer.ReadLoaded?
    requires ConsumerSteps(events) == 0 && forall e | e in events :: !CallsConsumer(e)
    ensures var t := Run(s, events);
      Inv(t) && t.consumer.ReadLoaded? && t.takes == s.takes && Dequeued(Actions(s, events)) == []
    decreases |events|
  {
    if events != [] {
      RunFirst(s, events);
      StepsFirst(events);
      ReadWaitsStep(s, events[0]);
      var s' := Next(s, events[0]);
      hide *;
      MovedFirst(ActionOf(s, events[0]), Actions(s', events[1..]));
      ReadWaits(s', events[1..]);
    }
  }

  lemma ReadWaitsStep<T>(s: State<T>, e: Event<T>)
    requires Inv(s) && Enabled(s, e) && s.consumer.ReadLoaded? && !e.ConsumerMoves? && !CallsConsumer(e)
    ensures var s' := Next(s, e); s'.consumer == s.consumer && s'.takes == s.takes && !ActionOf(s, e).Dequeue?
  {
    hide Masked, ReadSize, Recorded, Written, Got, Queue;
  }

  lemma ReadLooks<T>(s: State<T>)
    requires Inv(s) && s.consumer.ReadLoaded?
    ensures WellFormed(Next(s, ConsumerMoves))
    ensures var s', empty := Next(s, ConsumerMoves), Queue(s) == [];
      && !ActionOf(s, ConsumerMoves).Dequeue?
      && (s'.consumer.ConsumerIdle? <==> empty)
      && if empty then s'.takes == s.takes + [Take(1, [])]
         else WillTake(s', 1, Queue(s)[..1], 2) && s'.takes == s.takes
  {
    QueueLength(s);
    hide Masked, Recorded, Written, Got, PowerOfTwo, Queued;
  }

  // A single read looks once, at its first step. If the queue is empty then, it returns with nothing;
  // otherwise with what was at the front, which it takes off once.
  lemma SingleReadMoves<T>(s: State<T>, before: seq<Event<T>>, after: seq<Event<T>>)
    requires Inv(s) && s.consumer.ConsumerIdle? && ConsumerSteps(before) == 0
    requires forall e | e in before + after :: !CallsConsumer(e)
    requires Schedule(s, [CallRead] + before)
    requires (RunKeepsInv(s, [CallRead] + before);
              Schedule(Run(s, [CallRead] + before), [ConsumerMoves] + after))
    ensures
      (RunKeepsInv(s, [CallRead] + before);
       var u := Run(s, [CallRead] + before);
       var t, items := Run(u, [ConsumerMoves] + after), Queue(u)[..Min(1, |Queue(u)|)];
       && (t.consumer.ConsumerIdle? <==> items == [] || ConsumerSteps(after) >= 2)
       && t.takes == s.takes + (if t.consumer.ConsumerIdle? then [Take(1, items)] else [])
       && Dequeued(Actions(s, [CallRead] + before)) == []
       && Dequeued(Actions(u, [ConsumerMoves] + after))
          == if t.consumer.ConsumerIdle? && items != [] then [items] else [])
  {
    assert forall e | e in before :: e in before + after;
    assert forall e | e in after :: e in before + after;
    RunKeepsInv(s, [CallRead] + before);
    SingleReadCalled(s, before);
    SingleReadDone(Run(s, [CallRead] + before), after);
  }

  lemma SingleReadCalled<T>(s: State<T>, before: seq<Event<T>>)
    requires Inv(s) && s.consumer.ConsumerIdle? && ConsumerSteps(before) == 0
    requires Schedule(s, [CallRead] + before) && forall e | e in before :: !CallsConsumer(e)
    ensures var run := [CallRead] + before;
      var u := Run(s, run);
      Inv(u) && u.consumer.ReadLoaded? && u.takes == s.takes && Dequeued(Actions(s, run)) == []
  {
    var run := [CallRead] + before;
    RunFirst(s, run);
    assert run[1..] == before;
    var s' := Next(s, CallRead);
    assert s'.consumer.ReadLoaded? && s'.takes == s.takes && !ActionOf(s, CallRead).Dequeue?;
    hide *;
    MovedFirst(ActionOf(s, CallRead), Actions(s', before));
    ReadWaits(s', before);
  }

  lemma SingleReadDone<T>(u: State<T>, after: seq<Event<T>>)
    requires Inv(u) && u.consumer.ReadLoaded?
    requires Schedule(u, [ConsumerMoves] + after) && forall e | e in after :: !CallsConsumer(e)
    ensures var t, items := Run(u, [ConsumerMoves] + after), Queue(u)[..Min(1, |Queue(u)|)];
      && (t.consumer.ConsumerIdle? <==> items == [] || ConsumerSteps(after) >= 2)
      && t.takes == u.takes + (if t.consumer.ConsumerIdle? then [Take(1, items)] else [])
      && Dequeued(Actions(u, [ConsumerMoves] + after))
         == if t.consumer.ConsumerIdle? && items != [] then [items] else []
  {
    hide *;
    InvParts(u);
    var run, items := [ConsumerMoves] + after, Queue(u)[..Min(1, |Queue(u)|)];
    RunFirst(u, run);
    assert run[0] == ConsumerMoves && run[1..] == after;
    var s' := Next(u, ConsumerMoves);
    ReadLooks(u);
    OneOrNone(Queue(u));
    MovedFirst(ActionOf(u, ConsumerMoves), Actions(s', after));
    assert u.takes + [] == u.takes;
    if s'.consumer.ConsumerIdle? {
      IdleConsumerRun(s', after);
    } else {
      TakeRun(s', after, 1, items, 2);
    }
  }

  lemma OneOrNone<U>(q: seq<U>)
    ensures q[..Min(1, |q|)] == if q == [] then [] else q[..1]
  {
  }
}

// The macros as methods on one ring, run from start to finish by one thread.
module RingFifo {
  import opened Bits
  import opened FifoCursor

  class Fifo<T(0)> {
    var read: nat
    var write: nat
    const buffer: array<T>

    ghost predicate Valid()
      reads this, buffer
    {
      PowerOfTwo(buffer.Length) && read < buffer.Length && write < buffer.Length
    }

    ghost function Contents(): (q: seq<T>)
      requires Valid()
      reads this, buffer
      ensures |q| < buffer.Length
    {
      Queued(buffer[..], read, write)
    }

    // DECLARE_FIFO and FIFO_NULL
    constructor (size: nat)
      requires PowerOfTwo(size)
      ensures Valid() && fresh(buffer) && buffer.Length == size && Contents() == []
    {
      buffer := new T[size];
      read, write := 0, 0;
    }

    method IsFull() returns (full: bool)
      requires Valid()
      ensures full <==> |Contents()| == buffer.Length - 1
    {
      var next := Masked(write + 1, buffer.Length);
      FullTest(read, write, buffer.Length);
      full := read == next;
    }

    method IsEmpty() returns (empty: bool)
      requires Valid()
      ensures empty <==> Contents() == []
    {
      empty := read == write;
    }

    method Write(b: T) returns (ok: bool)
      requires Valid()
      modifies this`write, buffer
      ensures Valid()
      ensures ok <==> |old(Contents())| < buffer.Length - 1
      ensures Contents() == if ok then old(Contents()) + [b] else old(Contents())
    {
      var now := write;
      var next := Masked(now + 1, buffer.Length);
      FullTest(read, now, buffer.Length);
      hide Masked, Queued, Distance, PowerOfTwo;
      if read == next {
        return false;
      }
      buffer[now] := b;
      assert buffer[..] == old(buffer[..])[now := b];
      PublishOne(old(buffer[..]), read, now, b);
      write := next;
      ok := true;
    }

    method ReadIfNotEmpty(zero: T) returns (ok: bool, b: T)
      requires Valid()
      modifies this`read
      ensures Valid()
      ensures ok <==> old(Contents()) != []
      ensures if ok then [b] + Contents() == old(Contents()) else b == zero && Contents() == old(Contents())
    {
      var now := read;
      if now == write {
        return false, zero;
      }
      b := buffer[now];
      ReleaseOldest(buffer[..], now, write, 1);
      assert Wrap(now + 0, buffer.Length) == now;
      assert b == Contents()[0];
      hide Masked, Queued, Distance, PowerOfTwo;
      read := Masked(now + 1, buffer.Length);
      ok := true;
    }

    // What was accepted is the front of what was offered, as long as the room there was.
    method WriteCount(source: array<T>, offered: nat) returns (count: nat)
      requires Valid() && offered <= source.Length && source != buffer
      modifies this`write, buffer
      ensures Valid()
      ensures var free := buffer.Length - 1 - |old(Contents())|; count == if offered > free then free else offered
      ensures Contents() == old(Contents()) + source[..count]
    {
      var size := buffer.Length;
      var free := size - 1 - ReadSize(read, write, size);
      ReadSizeIsDistance(read, write, size);
      hide Masked, Queued, Distance, PowerOfTwo, ReadSize;
      count := if offered > free then free else offered;
      if count == 0 {
        return;
      }
      CopyIn(source, buffer, write, count);
      PublishCopied(old(buffer[..]), buffer[..], read, write, source[..count]);
      write := Masked(write + count, size);
    }

    method CopyFront(dest: array<T>, count: nat)
      requires Valid() && count <= |Contents()| && count <= dest.Length && dest != buffer
      modifies dest
      ensures dest[..count] == Contents()[..count] && dest[count..] == old(dest[count..])
    {
      hide Queued, PowerOfTwo;
      CopyOut(buffer, read, dest, count);
      FrontIs(buffer[..], read, write, dest[..count]);
    }

    // What was read is the front of the queue, as much of it as was asked for.
    method ReadCount(wanted: nat, dest: array<T>) returns (count: nat)
      requires Valid() && wanted <= dest.Length && dest != buffer
      modifies this`read, dest
      ensures Valid()
      ensures count == if wanted > |old(Contents())| then |old(Contents())| else wanted
      ensures dest[..count] + Contents() == old(Contents()) && dest[count..] == old(dest[count..])
    {
      var size := buffer.Length;
      var now := ReadSize(read, write, size);
      ReadSizeIsDistance(read, write, size);
      hide Masked, Queued, Distance, PowerOfTwo, ReadSize;
      count := if wanted > now then now else wanted;
      if count == 0 {
        return;
      }
      CopyFront(dest, count);
      ReleaseOldest(buffer[..], read, write, count);
      read := Masked(read + count, size);
    }
  }

  // The copy of _write_count, in one piece or two.
  method CopyIn<T>(source: array<T>, buffer: array<T>, cursor: nat, count: nat)
    requires cursor < buffer.Length && count <= buffer.Length && count <= source.Length && source != buffer
    modifies buffer
    ensures forall i | 0 <= i < count :: buffer[Wrap(cursor + i, buffer.Length)] == source[i]
    ensures forall j | 0 <= j < buffer.Length && Distance(cursor, j, buffer.Length) >= count ::
      buffer[j] == old(buffer[j])
  {
    if cursor + count > buffer.Length {
      var first := buffer.Length - cursor;
      Copy(source, 0, buffer, cursor, first);
      Copy(source, first, buffer, 0, count - first);
    } else {
      Copy(source, 0, buffer, cursor, count);
    }
  }

  // The copy of _read_count, in one piece or two.
  method CopyOut<T>(buffer: array<T>, cursor: nat, dest: array<T>, count: nat)
    requires cursor < buffer.Length && count <= buffer.Length && count <= dest.Length && dest != buffer
    modifies dest
    ensures forall i | 0 <= i < count :: dest[i] == buffer[Wrap(cursor + i, buffer.Length)]
    ensures dest[count..] == old(dest[count..])
  {
    if cursor + count > buffer.Length {
      var first := buffer.Length - cursor;
      Copy(buffer, cursor, dest, 0, first);
      Copy(buffer, 0, dest, first, count - first);
    } else {
      Copy(buffer, cursor, dest, 0, count);
    }
  }

  method Copy<T>(src: array<T>, from: nat, dst: array<T>, to: nat, count: nat)
    requires from + count <= src.Length && to + count <= dst.Length && src != dst
    modifies dst
    ensures forall i | 0 <= i < dst.Length ::
      dst[i] == if to <= i < to + count then src[from + i - to] else old(dst[i])
  {
    forall i | 0 <= i < count {
      dst[to + i] := src[from + i];
    }
  }

  // The test for a full ring.
  lemma FullTest(read: nat, write: nat, size: nat)
    requires PowerOfTwo(size) && read < size && write < size
    ensures read == Masked(write + 1, size) <==> Distance(read, write, size) == size - 1
  {
    MaskWraps(write + 1, size);
    hide Masked, PowerOfTwo;
  }

  lemma PublishOne<T>(buffer: seq<T>, read: nat, write: nat, b: T)
    requires PowerOfTwo(|buffer|) && read < |buffer| && write < |buffer|
    requires Distance(read, write, |buffer|) < |buffer| - 1
    ensures Masked(write + 1, |buffer|) < |buffer|
    ensures Queued(buffer[write := b], read, Masked(write + 1, |buffer|)) == Queued(buffer, read, write) + [b]
  {
    MaskWraps(write + 1, |buffer|);
    FreeSlot(buffer, read, write, 0, b);
    Publish(buffer[write := b], read, write, [b]);
    hide Masked, Queued, Distance, PowerOfTwo;
  }

  lemma PublishCopied<T>(before: seq<T>, after: seq<T>, read: nat, write: nat, items: seq<T>)
    requires PowerOfTwo(|before|) && |before| == |after| && read < |before| && write < |before|
    requires |items| < |before| - Distance(read, write, |before|)
    requires forall i | 0 <= i < |items| :: after[Wrap(write + i, |before|)] == items[i]
    requires forall j | 0 <= j < |before| && Distance(write, j, |before|) >= |items| :: after[j] == before[j]
    ensures Masked(write + |items|, |before|) < |before|
    ensures Queued(after, read, Masked(write + |items|, |before|)) == Queued(before, read, write) + items
  {
    MaskWraps(write + |items|, |before|);
    FreeSlots(before, after, read, write, |items|);
    Publish(after, read, write, items);
    hide Masked, Queued, Distance, PowerOfTwo;
  }

  lemma ReleaseOldest<T>(buffer: seq<T>, read: nat, write: nat, count: nat)
    requires PowerOfTwo(|buffer|) && read < |buffer| && write < |buffer| && count <= Distance(read, write, |buffer|)
    ensures Masked(read + count, |buffer|) < |buffer|
    ensures Queued(buffer, Masked(read + count, |buffer|), write) == Queued(buffer, read, write)[count..]
  {
    MaskWraps(read + count, |buffer|);
    Release(buffer, read, write, count);
    hide Masked, Queued, Distance, PowerOfTwo;
  }

  // What a copy from the read cursor on finds.
  lemma FrontIs<T>(buffer: seq<T>, read: nat, write: nat, items: seq<T>)
    requires read < |buffer| && write < |buffer| && |items| <= Distance(read, write, |buffer|)
    requires forall i | 0 <= i < |items| :: items[i] == buffer[Wrap(read + i, |buffer|)]
    ensures items == Queued(buffer, read, write)[..|items|]
  {
    hide Distance;
  }

  // Any change confined to free slots leaves the queue alone.
  lemma FreeSlots<T>(before: seq<T>, after: seq<T>, read: nat, write: nat, count: nat)
    requires |before| == |after| && read < |before| && write < |before|
    requires count < |before| - Distance(read, write, |before|)
    requires forall j | 0 <= j < |before| && Distance(write, j, |before|) >= count :: after[j] == before[j]
    ensures Queued(after, read, write) == Queued(before, read, write)
  {
    var n := |before|;
    var q, q' := Queued(before, read, write), Queued(after, read, write);
    forall j | 0 <= j < |q|
      ensures q[j] == q'[j]
    {
      assert Distance(write, Wrap(read + j, n), n) >= count;
    }
  }
}
