// The multi-HAL proxy: global sensor handles, the writer threads, and poll()
// draining every queue round-robin under queue_mutex (sensors/multihal.cpp).

module SensorHandles {
  datatype FullHandle = FullHandle(moduleIndex: int, localHandle: int)

  // full_to_global, global_to_full and next_global_handle.
  datatype Table = Table(fullToGlobal: map<FullHandle, int>, globalToFull: map<int, FullHandle>, next: int)

  const EMPTY := Table(map[], map[], 1)

  function Assign(t: Table, f: FullHandle): Table {
    Table(t.fullToGlobal[f := t.next], t.globalToFull[t.next := f], t.next + 1)
  }

  // lazy_init_sensors_list registers the sensors of every module in order.
  function Register(sensors: seq<FullHandle>): Table {
    if sensors == [] then EMPTY
    else Assign(Register(sensors[..|sensors| - 1]), sensors[|sensors| - 1])
  }

  function GetGlobal(t: Table, f: FullHandle): int {
    if f in t.fullToGlobal then t.fullToGlobal[f] else -1
  }

  function GetModuleIndex(t: Table, g: int): int {
    if g in t.globalToFull then t.globalToFull[g].moduleIndex else -1
  }

  function GetLocal(t: Table, g: int): int {
    if g in t.globalToFull then t.globalToFull[g].localHandle else -1
  }

  // Global handles are 1..n in registration order, and a full handle is known iff it was registered.
  lemma {:induction false} RegisterShape(sensors: seq<FullHandle>)
    ensures var t := Register(sensors);
            && t.next == |sensors| + 1
            && (forall g :: g in t.globalToFull <==> 1 <= g <= |sensors|)
            && (forall g | 1 <= g <= |sensors| :: t.globalToFull[g] == sensors[g - 1])
            && (forall f :: f in t.fullToGlobal <==> f in sensors)
            && (forall f | f in t.fullToGlobal ::
                  t.fullToGlobal[f] in t.globalToFull && t.globalToFull[t.fullToGlobal[f]] == f)
  {
    if sensors != [] {
      var n := |sensors|;
      RegisterShape(sensors[..n - 1]);
      assert sensors == sensors[..n - 1] + [sensors[n - 1]];
    }
  }

  predicate NoDuplicates(sensors: seq<FullHandle>) {
    forall i, j | 0 <= i < j < |sensors| :: sensors[i] != sensors[j]
  }

  // A global handle leads to the sensor registered under it; any other number leads nowhere.
  lemma HandleLeadsToSensor(sensors: seq<FullHandle>, g: int)
    ensures var t := Register(sensors);
            if 1 <= g <= |sensors| then FullHandle(GetModuleIndex(t, g), GetLocal(t, g)) == sensors[g - 1]
            else GetModuleIndex(t, g) == -1 && GetLocal(t, g) == -1
  {
    RegisterShape(sensors);
  }

  // Translating an event out and a call back in is lossless for every registered sensor;
  // -1 is returned exactly for unregistered ones.
  lemma LocalToGlobalRoundTrip(sensors: seq<FullHandle>, f: FullHandle)
    ensures var t := Register(sensors);
            && (GetGlobal(t, f) == -1 <==> f !in sensors)
            && (f in sensors ==>
                  GetModuleIndex(t, GetGlobal(t, f)) == f.moduleIndex && GetLocal(t, GetGlobal(t, f)) == f.localHandle)
  {
    RegisterShape(sensors);
  }

  lemma {:induction false} LastRegistrationWins(sensors: seq<FullHandle>, i: nat)
    requires i < |sensors| && forall j | i < j < |sensors| :: sensors[j] != sensors[i]
    ensures GetGlobal(Register(sensors), sensors[i]) == i + 1
  {
    var n := |sensors|;
    RegisterShape(sensors[..n - 1]);
    if i < n - 1 {
      LastRegistrationWins(sensors[..n - 1], i);
    }
  }

  // The other direction, global to local and back, holds for every handle exactly when
  // no (module, local handle) pair was registered twice.
  lemma GlobalToLocalRoundTripIff(sensors: seq<FullHandle>)
    ensures (forall g | g in Register(sensors).globalToFull ::
               GetGlobal(Register(sensors), Register(sensors).globalToFull[g]) == g)
            <==> NoDuplicates(sensors)
  {
    RegisterShape(sensors);
    var t := Register(sensors);
    if NoDuplicates(sensors) {
      forall g | g in t.globalToFull
        ensures GetGlobal(t, t.globalToFull[g]) == g
      {
        LastRegistrationWins(sensors, g - 1);
      }
    } else {
      var i, j :| 0 <= i < j < |sensors| && sensors[i] == sensors[j];
      assert t.globalToFull[i + 1] == t.globalToFull[j + 1];
      assert GetGlobal(t, t.globalToFull[i + 1]) == i + 1 ==> GetGlobal(t, t.globalToFull[j + 1]) != j + 1;
    }
  }

  // The source keeps the three in globals; they are the fields of this object.
  class HandleTable {
    var fullToGlobal: map<FullHandle, int>
    var globalToFull: map<int, FullHandle>
    var nextGlobalHandle: int

    ghost function Model(): Table
      reads this
    {
      Table(fullToGlobal, globalToFull, nextGlobalHandle)
    }

    constructor ()
      ensures Model() == Register([])
    {
      fullToGlobal, globalToFull, nextGlobalHandle := map[], map[], 1;
    }

    method AssignGlobalHandle(moduleIndex: int, localHandle: int, ghost before: seq<FullHandle>) returns (global: int)
      requires Model() == Register(before)
      modifies this
      ensures Model() == Register(before + [FullHandle(moduleIndex, localHandle)])
      ensures global == |before| + 1
    {
      RegisterShape(before);
      var full := FullHandle(moduleIndex, localHandle);
      assert (before + [full])[..|before|] == before;
      global := nextGlobalHandle;
      nextGlobalHandle := nextGlobalHandle + 1;
      fullToGlobal := fullToGlobal[full := global];
      globalToFull := globalToFull[global := full];
    }
  }
}

module MultiHalPoll {
  import opened SensorTypes
  import opened SensorHandles
  import opened EventRing

  // copy_event_remap_handle: a meta-data event carries its handle in the nested field.
  function Remap(t: Table, queue: int, e: Event): Event {
    if e.kind == META_DATA then e.(metaSensor := GetGlobal(t, FullHandle(queue, e.metaSensor)))
    else e.(sensor := GetGlobal(t, FullHandle(queue, e.sensor)))
  }

  predicate Dropped(e: Event) {
    e.sensor == -1
  }

  // What the framework should see of the events taken from one queue.
  function Passed(t: Table, queue: int, taken: seq<Event>): seq<Event> {
    if taken == [] then []
    else
      var e := Remap(t, queue, taken[|taken| - 1]);
      Passed(t, queue, taken[..|taken| - 1]) + (if Dropped(e) then [] else [e])
  }

  lemma PassedSnoc(t: Table, queue: int, taken: seq<Event>, e: Event)
    ensures Passed(t, queue, taken + [e]) ==
            Passed(t, queue, taken) + (if Dropped(Remap(t, queue, e)) then [] else [Remap(t, queue, e)])
  {
    assert (taken + [e])[..|taken|] == taken;
  }

  // The variables of poll()'s inner loop.
  datatype Cursor = Cursor(queues: seq<Ring>, next: nat, empties: nat, out: seq<Event>)

  predicate CursorOk(c: Cursor) {
    && (forall i | 0 <= i < |c.queues| :: Ok(c.queues[i]))
    && (if c.queues == [] then c.next == 0 else c.next < |c.queues|)
    && c.empties <= |c.queues|
  }

  predicate InnerLoopRuns(c: Cursor, maxReads: int) {
    c.empties < |c.queues| && |c.out| < maxReads
  }

  // One iteration of the inner loop.
  function Visit(t: Table, c: Cursor): Cursor
    requires CursorOk(c) && c.queues != []
  {
    var q := c.queues[c.next];
    var next := (c.next + 1) % |c.queues|;
    if q.size == 0 then c.(empties := c.empties + 1, next := next)
    else
      var e := Remap(t, c.next, Contents(q)[0]);
      Cursor(c.queues[c.next := Dequeued(q)], next, 0, if Dropped(e) then c.out else c.out + [e])
  }

  // The queue visited j iterations ago.
  function Back(n: nat, next: nat, j: nat): int {
    if j < next then next - 1 - j else n + next - 1 - j
  }

  // The last `empties` queues visited are empty.
  predicate EmptyTrail(c: Cursor) {
    forall j | 0 <= j < c.empties && 0 <= Back(|c.queues|, c.next, j) < |c.queues| ::
      c.queues[Back(|c.queues|, c.next, j)].size == 0
  }

  lemma NextIsSuccessor(n: nat, next: nat)
    requires next < n
    ensures (next + 1) % n == if next + 1 < n then next + 1 else 0
  {
  }

  lemma VisitKeepsTrail(t: Table, c: Cursor)
    requires CursorOk(c) && c.queues != [] && c.empties < |c.queues| && EmptyTrail(c)
    ensures CursorOk(Visit(t, c)) && EmptyTrail(Visit(t, c))
  {
    var n, v := |c.queues|, Visit(t, c);
    NextIsSuccessor(n, c.next);
    if c.queues[c.next].size > 0 {
      DequeuedPopsOldest(c.queues[c.next]);
    } else {
      forall j | 0 <= j < v.empties && 0 <= Back(n, v.next, j) < n
        ensures v.queues[Back(n, v.next, j)].size == 0
      {
        if j == 0 {
          assert Back(n, v.next, 0) == c.next;
        } else {
          assert Back(n, v.next, j) == Back(n, c.next, j - 1);
        }
      }
    }
  }

  // A full round of empty visits means that every queue is empty.
  lemma FullTrailMeansAllEmpty(c: Cursor, i: nat)
    requires CursorOk(c) && EmptyTrail(c) && c.empties == |c.queues| && i < |c.queues|
    ensures c.queues[i].size == 0
  {
    var j := if i < c.next then c.next - 1 - i else |c.queues| + c.next - 1 - i;
    assert Back(|c.queues|, c.next, j) == i;
  }

  function TotalSize(queues: seq<Ring>): nat {
    if queues == [] then 0 else queues[0].size + TotalSize(queues[1..])
  }

  lemma {:induction false} TotalSizeUpdate(queues: seq<Ring>, i: nat, q: Ring)
    requires i < |queues|
    ensures TotalSize(queues[i := q]) == TotalSize(queues) - queues[i].size + q.size
  {
    if i == 0 {
      assert queues[i := q][1..] == queues[1..];
    } else {
      assert queues[i := q][1..] == queues[1..][i - 1 := q];
      TotalSizeUpdate(queues[1..], i - 1, q);
    }
  }

  // The whole inner loop.
  function Drain(t: Table, c: Cursor, maxReads: int): (d: Cursor)
    requires CursorOk(c) && EmptyTrail(c)
    ensures CursorOk(d) && EmptyTrail(d) && !InnerLoopRuns(d, maxReads)
    ensures |d.queues| == |c.queues|
    decreases TotalSize(c.queues), |c.queues| - c.empties
  {
    if !InnerLoopRuns(c, maxReads) then c
    else
      VisitKeepsTrail(t, c);
      TotalSizeUpdate(c.queues, c.next, Dequeued(c.queues[c.next]));
      Drain(t, Visit(t, c), maxReads)
  }
}

// poll()'s inner loop on the queue objects, in place.
module MultiHalPollLoop {
  import opened SensorTypes
  import opened SensorHandles
  import opened EventRing
  import opened MultiHalPoll
  import opened SensorEventQueueClass

  class PollContext {
    const queues: seq<SensorEventQueue>
    var nextReadIndex: nat

    ghost predicate Valid()
      reads this, queues, set q | q in queues :: q.data
    {
      && (forall i | 0 <= i < |queues| :: queues[i].Valid())
      && (forall i, j | 0 <= i < j < |queues| :: queues[i] != queues[j] && queues[i].data != queues[j].data)
      && (if queues == [] then nextReadIndex == 0 else nextReadIndex < |queues|)
    }

    ghost function Models(): (s: seq<Ring>)
      reads this, queues, set q | q in queues :: q.data
      ensures |s| == |queues|
    {
      seq(|queues|, i requires 0 <= i < |queues| reads queues, set q | q in queues :: q.data => queues[i].Model())
    }

    constructor (queues: seq<SensorEventQueue>)
      requires forall i | 0 <= i < |queues| :: queues[i].Valid()
      requires forall i, j | 0 <= i < j < |queues| :: queues[i] != queues[j] && queues[i].data != queues[j].data
      ensures Valid() && this.queues == queues
    {
      this.queues := queues;
      nextReadIndex := 0;
    }

    method PeekAt(i: nat) returns (event: Event, found: bool)
      requires Valid() && i < |queues|
      ensures Ok(Models()[i]) && (found <==> Models()[i].size != 0)
      ensures found ==> event == Contents(Models()[i])[0]
    {
      event, found := queues[i].Peek();
    }

    // Dequeues from queue i and leaves the others alone.
    method DequeueAt(i: nat)
      requires Valid() && i < |queues| && Models()[i].size != 0
      modifies queues
      ensures Valid() && Models() == old(Models())[i := Dequeued(old(Models()[i]))]
    {
      var queue := queues[i];
      var signal := queue.Dequeue();
      assert forall j | 0 <= j < |queues| && j != i :: queues[j].Model() == old(queues[j].Model());
    }

    // Takes the event at the head of the queue whose turn it is.
    method ReadHead(t: Table, event: Event, out: seq<Event>) returns (out': seq<Event>)
      requires Valid() && queues != [] && Models()[nextReadIndex].size != 0 && Ok(Models()[nextReadIndex])
      requires event == Contents(Models()[nextReadIndex])[0]
      modifies queues
      ensures Valid() && Models() == old(Models())[nextReadIndex := Dequeued(old(Models()[nextReadIndex]))]
      ensures var e := Remap(t, nextReadIndex, event); out' == if Dropped(e) then out else out + [e]
    {
      out' := out;
      var e := Remap(t, nextReadIndex, event);
      if e.sensor != -1 {
        out' := out + [e];
      }
      DequeueAt(nextReadIndex);
    }

    // One iteration of the inner loop.
    method VisitNext(t: Table, empties: nat, out: seq<Event>) returns (empties': nat, out': seq<Event>)
      requires Valid() && queues != [] && empties < |queues|
      modifies this, queues
      ensures Valid()
      ensures Cursor(Models(), nextReadIndex, empties', out')
              == Visit(t, old(Cursor(Models(), nextReadIndex, empties, out)))
    {
      var event, found := PeekAt(nextReadIndex);
      if found {
        empties' := 0;
        out' := ReadHead(t, event, out);
      } else {
        empties', out' := empties + 1, out;
      }
      nextReadIndex := (nextReadIndex + 1) % |queues|;
    }

    // One pass of the outer loop up to the point where poll() returns or waits.
    method DrainQueues(t: Table, maxReads: int) returns (out: seq<Event>, empties: nat)
      requires Valid()
      modifies this, queues
      ensures Valid()
      ensures Cursor(Models(), nextReadIndex, empties, out)
              == Drain(t, old(Cursor(Models(), nextReadIndex, 0, [])), maxReads)
    {
      out, empties := [], 0;
      ghost var goal := Drain(t, Cursor(Models(), nextReadIndex, 0, []), maxReads);
      while empties < |queues| && |out| < maxReads
        invariant Valid() && empties <= |queues|
        invariant EmptyTrail(Cursor(Models(), nextReadIndex, empties, out))
        invariant goal == Drain(t, Cursor(Models(), nextReadIndex, empties, out), maxReads)
        decreases TotalSize(Models()), |queues| - empties
      {
        ghost var c := Cursor(Models(), nextReadIndex, empties, out);
        VisitKeepsTrail(t, c);
        TotalSizeUpdate(c.queues, c.next, Dequeued(c.queues[c.next]));
        empties, out := VisitNext(t, empties, out);
      }
    }
  }
}
