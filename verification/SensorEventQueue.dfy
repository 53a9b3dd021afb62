// The fixed-size circular queue between one sub-HAL writer thread and the
// multi-HAL poller (sensors/SensorEventQueue.cpp).

module SensorTypes {
  // The fields of sensors_event_t that the multi-HAL reads or rewrites; the
  // readings themselves travel untouched in `payload`.
  datatype Event = Event(kind: int, sensor: int, metaSensor: int, payload: int)

  // SENSOR_TYPE_META_DATA
  const META_DATA: int := 0

  // SENSOR_EVENT_QUEUE_CAPACITY
  const QUEUE_CAPACITY: nat := 36
}

module EventRing {
  import opened SensorTypes

  // The value of a queue: the slots, the first readable slot and the number of readable slots.
  datatype Ring = Ring(data: seq<Event>, start: nat, size: nat)

  predicate Ok(r: Ring) {
    r.start < |r.data| && r.size <= |r.data|
  }

  // The slot of the i-th readable record, or of the i-th record counted from
  // `start` when i runs on into the free slots.
  function Slot(r: Ring, i: nat): (k: nat)
    requires Ok(r) && i <= |r.data|
    ensures k < |r.data|
  {
    if r.start + i < |r.data| then r.start + i else r.start + i - |r.data|
  }

  lemma SlotIsModulo(r: Ring, i: nat)
    requires Ok(r) && i <= |r.data|
    ensures Slot(r, i) == (r.start + i) % |r.data|
  {
    var c, x := |r.data|, r.start + i;
    if x >= c {
      assert x == c * 1 + (x - c);
    }
  }

  // The readable records, oldest first.
  function Contents(r: Ring): (s: seq<Event>)
    requires Ok(r)
    ensures |s| == r.size
    ensures forall i | 0 <= i < r.size :: s[i] == r.data[Slot(r, i)]
  {
    seq(r.size, i requires 0 <= i < r.size => r.data[Slot(r, i)])
  }

  // A region handed to the writer: it starts right after the last readable
  // record, does not run past the array end and covers only free slots.
  predicate IsFreeRegion(r: Ring, first: nat, len: nat) {
    && Ok(r)
    && first == Slot(r, r.size)
    && r.size + len <= |r.data|
    && first + len <= |r.data|
  }

  function Marked(r: Ring, count: nat): Ring
    requires Ok(r) && r.size + count <= |r.data|
  {
    r.(size := r.size + count)
  }

  function Dequeued(r: Ring): Ring
    requires Ok(r)
  {
    if r.size == 0 then r else r.(size := r.size - 1, start := (r.start + 1) % |r.data|)
  }

  // A region handed out never shares a slot with the readable records.
  lemma RegionDisjointFromReadable(r: Ring, first: nat, len: nat, i: nat)
    requires IsFreeRegion(r, first, len) && i < r.size
    ensures !(first <= Slot(r, i) < first + len)
  {
  }

  // Marking publishes exactly the first `count` slots of the region, in order.
  lemma MarkedAppendsRegion(r: Ring, first: nat, len: nat, count: nat)
    requires IsFreeRegion(r, first, len) && count <= len
    ensures Ok(Marked(r, count))
    ensures Contents(Marked(r, count)) == Contents(r) + r.data[first..first + count]
  {
    var m := Marked(r, count);
    assert forall i | 0 <= i < m.size :: Slot(m, i) == Slot(r, i);
    assert forall i | r.size <= i < m.size :: Slot(r, i) == first + (i - r.size);
  }

  lemma DequeuedPopsOldest(r: Ring)
    requires Ok(r) && r.size > 0
    ensures Ok(Dequeued(r))
    ensures Contents(Dequeued(r)) == Contents(r)[1..]
    ensures Slot(Dequeued(r), Dequeued(r).size) == Slot(r, r.size)
  {
    SlotIsModulo(r, 1);
    var d := Dequeued(r);
    assert forall i | 0 <= i <= d.size :: Slot(d, i) == Slot(r, i + 1);
  }

  // A region handed out stays a free region however many records the poller removes meanwhile.
  lemma DequeuedKeepsRegion(r: Ring, first: nat, len: nat)
    requires IsFreeRegion(r, first, len)
    ensures IsFreeRegion(Dequeued(r), first, len)
  {
    if r.size > 0 {
      DequeuedPopsOldest(r);
    }
  }

  // The sub-HAL storing into its region changes no readable record and keeps the region.
  lemma RegionWriteInvisible(r: Ring, first: nat, len: nat, k: nat, e: Event)
    requires IsFreeRegion(r, first, len) && first <= k < first + len
    ensures var w := r.(data := r.data[k := e]);
            IsFreeRegion(w, first, len) && Contents(w) == Contents(r)
  {
    var w := r.(data := r.data[k := e]);
    forall i | 0 <= i < r.size
      ensures Contents(w)[i] == Contents(r)[i]
    {
      RegionDisjointFromReadable(r, first, len, i);
    }
  }

  function Min(a: int, b: int): int {
    if a <= b then a else b
  }
}

module SensorEventQueueClass {
  import opened SensorTypes
  import opened EventRing

  class SensorEventQueue {
    const capacity: nat
    var start: nat
    var size: nat
    const data: array<Event>

    ghost predicate Valid()
      reads this, data
    {
      data.Length == capacity && Ok(Model())
    }

    ghost function Model(): Ring
      reads this, data
    {
      Ring(data[..], start, size)
    }

    constructor (capacity: nat)
      requires capacity > 0
      ensures Valid() && fresh(data) && this.capacity == capacity
      ensures Contents(Model()) == []
    {
      this.capacity := capacity;
      start := 0;
      size := 0;
      data := new Event[capacity];
    }

    // The region is as long as the request, the free slots and the array end allow;
    // it is empty exactly when the queue is full or nothing was asked for.
    method GetWritableRegion(requestedLength: int) returns (first: nat, len: nat)
      requires Valid()
      ensures IsFreeRegion(Model(), first, len)
      ensures len == 0 <==> size == capacity || requestedLength <= 0
      ensures requestedLength > 0 ==> len == Min(requestedLength, Min(capacity - size, capacity - first))
    {
      SlotIsModulo(Model(), size);
      if size == capacity || requestedLength <= 0 {
        // the source hands out no pointer here; the slot only names the empty region
        return (start + size) % capacity, 0;
      }
      var firstWritable := (start + size) % capacity;
      var lastWritable := firstWritable + requestedLength - 1;
      if lastWritable > capacity - 1 {
        lastWritable := capacity - 1;
      }
      if firstWritable < start && lastWritable >= start {
        lastWritable := start - 1;
      }
      return firstWritable, lastWritable - firstWritable + 1;
    }

    // The writer reports how many records of its region poll() filled.
    method MarkAsWritten(count: nat, ghost first: nat, ghost len: nat)
      requires Valid() && IsFreeRegion(Model(), first, len) && count <= len
      modifies this`size
      ensures Valid() && Model() == Marked(old(Model()), count)
      ensures Contents(Model()) == old(Contents(Model())) + data[first..first + count]
    {
      MarkedAppendsRegion(Model(), first, len, count);
      size := size + count;
    }

    method Peek() returns (event: Event, found: bool)
      requires Valid()
      ensures found <==> Contents(Model()) != []
      ensures found ==> event == Contents(Model())[0]
    {
      event := Event(0, 0, 0, 0);
      found := size != 0;
      if found {
        assert Slot(Model(), 0) == start;
        event := data[start];
      }
    }

    // `signal` is the broadcast of mSpaceAvailableCondition.
    method Dequeue() returns (signal: bool)
      requires Valid()
      modifies this`start, this`size
      ensures Valid() && Model() == Dequeued(old(Model()))
      ensures old(size) == 0 ==> Contents(Model()) == [] && !signal
      ensures old(size) > 0 ==> Contents(Model()) == old(Contents(Model()))[1..]
      ensures signal <==> old(size) == capacity
    {
      signal := false;
      if size == 0 {
        return;
      }
      DequeuedPopsOldest(Model());
      if size == capacity {
        signal := true;
      }
      size := size - 1;
      start := (start + 1) % capacity;
    }
  }
}
