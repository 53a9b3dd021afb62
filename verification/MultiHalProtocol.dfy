// All interleavings of the writer threads and poll() (sensors/multihal.cpp, writerTask and poll).
//
// A critical section of queue_mutex that does not sleep is one step. The poller holds the
// mutex from PollCall or PollResume to PollReturn or PollWait, one step per inner-loop
// iteration. A sub-HAL stores into its region outside the mutex, one slot per step, at any time.

module MultiHalProtocol {
  import opened SensorTypes
  import opened SensorHandles
  import opened EventRing
  import opened MultiHalPoll
  import RingArithmetic

  datatype Writer =
    | Ready                                                // about to lock at the top of the loop
    | Asleep                                               // waiting for space, not signalled
    | Signalled                                            // woken, has yet to get the mutex back
    | Polling(first: nat, len: nat)                        // inside device->poll(), region handed out
    | Polled(first: nat, len: nat, batch: seq<Event>)      // poll() reported |batch| events

  datatype Poller =
    | Idle
    | Scanning(maxReads: int, empties: nat, out: seq<Event>)  // holds queue_mutex
    | Sleeping(maxReads: int)                                 // waiting for data, not signalled
    | Woken(maxReads: int)                                    // has yet to get the mutex back

  // `marked`, `taken`, `passed` and `returned` are histories: what each writer marked, what
  // poll() removed from each queue, what it kept (with the queue it came from), and the
  // concatenation of everything poll() has returned.
  datatype State = State(
    table: Table,
    queues: seq<Ring>,
    writers: seq<Writer>,
    poller: Poller,
    next: nat,
    waitingForData: bool,
    marked: seq<seq<Event>>,
    taken: seq<seq<Event>>,
    passed: seq<(nat, Event)>,
    returned: seq<Event>)

  datatype Step =
    | WriterEnter(i: nat)
    | WriterFill(i: nat, slot: nat, event: Event)
    | WriterPollFails(i: nat)
    | WriterPollReturns(i: nat, count: nat)
    | WriterMark(i: nat)
    | WriterSpuriousWake(i: nat)
    | PollCall(maxReads: int)
    | PollVisit
    | PollReturn
    | PollWait
    | PollSpuriousWake
    | PollResume

  function Out(s: State): seq<Event> {
    if s.poller.Scanning? then s.poller.out else []
  }

  function CursorOf(s: State): Cursor
    requires s.poller.Scanning?
  {
    Cursor(s.queues, s.next, s.poller.empties, s.poller.out)
  }

  predicate MutexFree(s: State) {
    !s.poller.Scanning?
  }

  predicate Shape(s: State) {
    && |s.writers| == |s.queues| && |s.marked| == |s.queues| && |s.taken| == |s.queues|
    && (forall i | 0 <= i < |s.queues| :: Ok(s.queues[i]))
    && (if s.queues == [] then s.next == 0 else s.next < |s.queues|)
    && (s.poller.Scanning? ==> s.poller.empties <= |s.queues|)
  }

  predicate Enabled(s: State, step: Step)
    requires Shape(s)
  {
    match step
    case WriterEnter(i) => MutexFree(s) && i < |s.writers| && s.writers[i] in {Ready, Signalled}
    case WriterFill(i, slot, _) =>
      i < |s.writers| && s.writers[i].Polling? && slot < |s.queues[i].data| &&
      s.writers[i].first <= slot < s.writers[i].first + s.writers[i].len
    case WriterPollFails(i) => i < |s.writers| && s.writers[i].Polling?
    case WriterPollReturns(i, count) =>
      i < |s.writers| && s.writers[i].Polling? && 1 <= count <= s.writers[i].len &&
      s.writers[i].first + count <= |s.queues[i].data|
    case WriterMark(i) =>
      MutexFree(s) && i < |s.writers| && s.writers[i].Polled? &&
      s.queues[i].size + |s.writers[i].batch| <= |s.queues[i].data|
    case WriterSpuriousWake(i) => i < |s.writers| && s.writers[i].Asleep?
    case PollCall(_) => s.poller.Idle?
    case PollVisit => s.poller.Scanning? && InnerLoopRuns(CursorOf(s), s.poller.maxReads)
    case PollReturn =>
      s.poller.Scanning? && !InnerLoopRuns(CursorOf(s), s.poller.maxReads) && s.poller.out != []
    case PollWait =>
      s.poller.Scanning? && !InnerLoopRuns(CursorOf(s), s.poller.maxReads) && s.poller.out == []
    case PollSpuriousWake => s.poller.Sleeping?
    case PollResume => s.poller.Woken?
  }

  // getWritableRegion(SENSOR_EVENT_QUEUE_CAPACITY, ...)
  function RegionLength(r: Ring): nat
    requires Ok(r)
  {
    Min(QUEUE_CAPACITY, Min(|r.data| - r.size, |r.data| - Slot(r, r.size)))
  }

  function Apply(s: State, step: Step): State
    requires Shape(s) && Enabled(s, step)
  {
    match step
    case WriterEnter(i) =>
      var q := s.queues[i];
      s.(writers := s.writers[i := if q.size == |q.data| then Asleep else Polling(Slot(q, q.size), RegionLength(q))])
    case WriterFill(i, slot, e) =>
      s.(queues := s.queues[i := s.queues[i].(data := s.queues[i].data[slot := e])])
    case WriterPollFails(i) => s.(writers := s.writers[i := Ready])
    case WriterPollReturns(i, count) =>
      var w := s.writers[i];
      s.(writers := s.writers[i := Polled(w.first, w.len, s.queues[i].data[w.first..w.first + count])])
    case WriterMark(i) =>
      var batch := s.writers[i].batch;
      s.(queues := s.queues[i := Marked(s.queues[i], |batch|)],
         writers := s.writers[i := Ready],
         marked := s.marked[i := s.marked[i] + batch],
         poller := if s.waitingForData && s.poller.Sleeping? then Woken(s.poller.maxReads) else s.poller)
    case WriterSpuriousWake(i) => s.(writers := s.writers[i := Signalled])
    case PollCall(maxReads) => s.(poller := Scanning(maxReads, 0, []))
    case PollVisit => ApplyVisit(s)
    case PollReturn => s.(poller := Idle, returned := s.returned + s.poller.out)
    case PollWait => s.(poller := Sleeping(s.poller.maxReads), waitingForData := true)
    case PollSpuriousWake => s.(poller := Woken(s.poller.maxReads))
    case PollResume => s.(poller := Scanning(s.poller.maxReads, 0, []), waitingForData := false)
  }

  function ApplyVisit(s: State): State
    requires Shape(s) && Enabled(s, PollVisit)
  {
    var c := Visit(s.table, CursorOf(s));
    var i, q := s.next, s.queues[s.next];
    var s' := s.(queues := c.queues, next := c.next, poller := Scanning(s.poller.maxReads, c.empties, c.out));
    if q.size == 0 then s'
    else
      var raw := Contents(q)[0];
      var e := Remap(s.table, i, raw);
      s'.(taken := s.taken[i := s.taken[i] + [raw]],
          passed := if Dropped(e) then s.passed else s.passed + [(i, e)],
          // dequeue() broadcasts mSpaceAvailableCondition when the queue was full
          writers := if q.size == |q.data| && s.writers[i].Asleep? then s.writers[i := Signalled] else s.writers)
  }

  // --- what holds between any two steps ---

  function Events(passed: seq<(nat, Event)>): seq<Event> {
    if passed == [] then [] else Events(passed[..|passed| - 1]) + [passed[|passed| - 1].1]
  }

  function FromQueue(passed: seq<(nat, Event)>, i: nat): seq<Event> {
    if passed == [] then []
    else FromQueue(passed[..|passed| - 1], i) + (if passed[|passed| - 1].0 == i then [passed[|passed| - 1].1] else [])
  }

  // The region of writer i is free, and what poll() left in it is still there.
  predicate WriterOk(w: Writer, r: Ring) {
    match w
    case Polling(first, len) => len >= 1 && IsFreeRegion(r, first, len)
    case Polled(first, len, batch) =>
      IsFreeRegion(r, first, len) && 1 <= |batch| <= len && r.data[first..first + |batch|] == batch
    case Asleep => Ok(r) && r.size == |r.data|
    case _ => true
  }

  // Queue i loses, duplicates and reorders nothing between its writer and poll().
  predicate QueueHistory(s: State, i: nat)
    requires Shape(s) && i < |s.queues|
  {
    && s.taken[i] + Contents(s.queues[i]) == s.marked[i]
    && FromQueue(s.passed, i) == Passed(s.table, i, s.taken[i])
  }

  predicate PollerOk(s: State)
    requires Shape(s)
  {
    && (s.waitingForData <==> s.poller.Sleeping? || s.poller.Woken?)
    && (s.poller.Scanning? ==> EmptyTrail(CursorOf(s)))
    && (s.poller.Sleeping? && s.poller.maxReads >= 1 ==> forall i | 0 <= i < |s.queues| :: s.queues[i].size == 0)
  }

  predicate Inv(s: State) {
    && Shape(s)
    && (forall i | 0 <= i < |s.queues| :: WriterOk(s.writers[i], s.queues[i]))
    && (forall i | 0 <= i < |s.queues| :: QueueHistory(s, i))
    && PollerOk(s)
    && s.returned + Out(s) == Events(s.passed)
  }

  predicate Init(s: State) {
    && (forall i | 0 <= i < |s.queues| ::
          |s.queues[i].data| == QUEUE_CAPACITY && s.queues[i].start == 0 && s.queues[i].size == 0)
    && |s.writers| == |s.queues| && (forall w | w in s.writers :: w == Ready)
    && |s.marked| == |s.queues| && (forall h | h in s.marked :: h == [])
    && s.taken == s.marked
    && s.poller == Idle && s.next == 0 && !s.waitingForData && s.passed == [] && s.returned == []
  }

  lemma InitEstablishesInv(s: State)
    requires Init(s)
    ensures Inv(s)
  {
    forall i | 0 <= i < |s.queues|
      ensures QueueHistory(s, i) && WriterOk(s.writers[i], s.queues[i])
    {
      assert s.writers[i] in s.writers && s.marked[i] in s.marked;
    }
  }

  lemma FromQueueSnoc(passed: seq<(nat, Event)>, p: (nat, Event), i: nat)
    ensures FromQueue(passed + [p], i) == FromQueue(passed, i) + (if p.0 == i then [p.1] else [])
    ensures Events(passed + [p]) == Events(passed) + [p.1]
  {
    assert (passed + [p])[..|passed|] == passed;
  }

  lemma FillKeepsInv(s: State, i: nat, slot: nat, e: Event)
    requires Inv(s) && Enabled(s, WriterFill(i, slot, e))
    ensures Inv(Apply(s, WriterFill(i, slot, e)))
  {
    var s', w := Apply(s, WriterFill(i, slot, e)), s.writers[i];
    assert WriterOk(w, s.queues[i]);
    RegionWriteInvisible(s.queues[i], w.first, w.len, slot, e);
    assert forall j | 0 <= j < |s.queues| :: QueueHistory(s, j) ==> QueueHistory(s', j);
  }

  lemma WriterStepKeepsInv(s: State, step: Step)
    requires Inv(s) && Enabled(s, step)
    requires step.WriterEnter? || step.WriterPollFails? || step.WriterPollReturns? || step.WriterSpuriousWake?
    ensures Inv(Apply(s, step))
  {
    var s' := Apply(s, step);
    assert s'.queues == s.queues && s'.poller == s.poller;
    assert WriterOk(s.writers[step.i], s.queues[step.i]);
    assert forall i | 0 <= i < |s.queues| :: QueueHistory(s, i) ==> QueueHistory(s', i);
  }

  lemma MarkAppends(q: Ring, first: nat, len: nat, batch: seq<Event>, taken: seq<Event>, marked: seq<Event>)
    requires Ok(q) && taken + Contents(q) == marked && |batch| >= 1
    requires WriterOk(Polled(first, len, batch), q)
    ensures Ok(Marked(q, |batch|)) && taken + Contents(Marked(q, |batch|)) == marked + batch
  {
    MarkedAppendsRegion(q, first, len, |batch|);
    assert taken + (Contents(q) + batch) == (taken + Contents(q)) + batch;
  }

  lemma MarkKeepsHistory(s: State, i: nat, j: nat)
    requires Inv(s) && Enabled(s, WriterMark(i)) && j < |s.queues| && Shape(Apply(s, WriterMark(i)))
    ensures QueueHistory(Apply(s, WriterMark(i)), j)
  {
    var w := s.writers[i];
    assert WriterOk(w, s.queues[i]) && QueueHistory(s, j);
    if j == i {
      MarkAppends(s.queues[i], w.first, w.len, w.batch, s.taken[i], s.marked[i]);
    }
  }

  lemma MarkKeepsInv(s: State, i: nat)
    requires Inv(s) && Enabled(s, WriterMark(i))
    ensures Inv(Apply(s, WriterMark(i)))
  {
    var s' := Apply(s, WriterMark(i));
    forall j | 0 <= j < |s.queues|
      ensures QueueHistory(s', j)
    {
      MarkKeepsHistory(s, i, j);
    }
  }

  // The visited queue gives up its oldest record to its history.
  lemma VisitMovesOldest(s: State)
    requires Inv(s) && Enabled(s, PollVisit) && Shape(ApplyVisit(s)) && s.queues[s.next].size > 0
    ensures var s' := ApplyVisit(s);
            s'.taken[s.next] + Contents(s'.queues[s.next]) == s'.marked[s.next]
  {
    var i, q := s.next, s.queues[s.next];
    assert QueueHistory(s, i);
    DequeuedPopsOldest(q);
    assert Contents(q) == [Contents(q)[0]] + Contents(q)[1..];
  }

  lemma VisitPassesOldest(s: State, j: nat)
    requires Inv(s) && Enabled(s, PollVisit) && s.queues[s.next].size > 0 && j < |s.queues|
    ensures FromQueue(ApplyVisit(s).passed, j) == Passed(s.table, j, ApplyVisit(s).taken[j])
  {
    var i, raw := s.next, Contents(s.queues[s.next])[0];
    assert QueueHistory(s, j);
    PassedSnoc(s.table, i, s.taken[i], raw);
    FromQueueSnoc(s.passed, (i, Remap(s.table, i, raw)), j);
  }

  lemma VisitKeepsQueueHistory(s: State, j: nat)
    requires Inv(s) && Enabled(s, PollVisit) && Shape(ApplyVisit(s)) && j < |s.queues|
    ensures QueueHistory(ApplyVisit(s), j)
  {
    assert QueueHistory(s, j);
    if s.queues[s.next].size > 0 {
      VisitPassesOldest(s, j);
      if j == s.next {
        VisitMovesOldest(s);
      }
    }
  }

  lemma VisitKeepsWriter(s: State, j: nat)
    requires Inv(s) && Enabled(s, PollVisit) && Shape(ApplyVisit(s)) && j < |s.queues|
    ensures WriterOk(ApplyVisit(s).writers[j], ApplyVisit(s).queues[j])
  {
    var w, q := s.writers[j], s.queues[j];
    assert WriterOk(w, q);
    if j == s.next && (w.Polling? || w.Polled?) {
      DequeuedKeepsRegion(q, w.first, w.len);
    }
  }

  lemma VisitKeepsReturned(s: State)
    requires Inv(s) && Enabled(s, PollVisit)
    ensures ApplyVisit(s).returned + Out(ApplyVisit(s)) == Events(ApplyVisit(s).passed)
  {
    var q := s.queues[s.next];
    if q.size > 0 {
      FromQueueSnoc(s.passed, (s.next, Remap(s.table, s.next, Contents(q)[0])), 0);
    }
  }

  lemma VisitKeepsInv(s: State)
    requires Inv(s) && Enabled(s, PollVisit)
    ensures Inv(ApplyVisit(s))
  {
    var s' := ApplyVisit(s);
    VisitKeepsTrail(s.table, CursorOf(s));
    VisitKeepsReturned(s);
    assert Shape(s') && PollerOk(s');
    forall j | 0 <= j < |s.queues|
      ensures QueueHistory(s', j) && WriterOk(s'.writers[j], s'.queues[j])
    {
      VisitKeepsQueueHistory(s, j);
      VisitKeepsWriter(s, j);
    }
  }

  lemma PollerStepKeepsInv(s: State, step: Step)
    requires Inv(s) && Enabled(s, step)
    requires step.PollCall? || step.PollReturn? || step.PollWait? || step.PollSpuriousWake? || step.PollResume?
    ensures Inv(Apply(s, step))
  {
    var s' := Apply(s, step);
    assert forall i | 0 <= i < |s.queues| :: QueueHistory(s, i) ==> QueueHistory(s', i);
    if step.PollWait? && s.poller.maxReads >= 1 {
      forall i | 0 <= i < |s.queues|
        ensures s.queues[i].size == 0
      {
        FullTrailMeansAllEmpty(CursorOf(s), i);
      }
    }
  }

  lemma StepKeepsInv(s: State, step: Step)
    requires Inv(s) && Enabled(s, step)
    ensures Inv(Apply(s, step))
  {
    match step
    case WriterMark(i) => MarkKeepsInv(s, i);
    case WriterFill(i, slot, e) => FillKeepsInv(s, i, slot, e);
    case PollVisit => VisitKeepsInv(s);
    case PollCall(_) => PollerStepKeepsInv(s, step);
    case PollReturn => PollerStepKeepsInv(s, step);
    case PollWait => PollerStepKeepsInv(s, step);
    case PollSpuriousWake => PollerStepKeepsInv(s, step);
    case PollResume => PollerStepKeepsInv(s, step);
    case _ => WriterStepKeepsInv(s, step);
  }

  // s' is reached from s by taking the steps one after another.
  ghost predicate Runs(s: State, steps: seq<Step>, s': State)
    decreases |steps|
  {
    if steps == [] then s == s'
    else Shape(s) && Enabled(s, steps[0]) && Runs(Apply(s, steps[0]), steps[1..], s')
  }

  lemma {:induction false} RunKeepsInv(s: State, steps: seq<Step>, s': State)
    requires Inv(s) && Runs(s, steps, s')
    ensures Inv(s') && s'.table == s.table
    decreases |steps|
  {
    if steps != [] {
      StepKeepsInv(s, steps[0]);
      RunKeepsInv(Apply(s, steps[0]), steps[1..], s');
    }
  }

  // poll()'s inner loop, taken as one method, is a run of PollVisit steps: it stops where the loop does.
  lemma {:induction false} DrainIsRunOfVisits(s: State) returns (steps: seq<Step>, s': State)
    requires Inv(s) && s.poller.Scanning?
    ensures Runs(s, steps, s') && s'.poller.Scanning? && s'.poller.maxReads == s.poller.maxReads
    ensures CursorOf(s') == Drain(s.table, CursorOf(s), s.poller.maxReads)
    decreases TotalSize(s.queues), |s.queues| - s.poller.empties
  {
    if !Enabled(s, PollVisit) {
      steps, s' := [], s;
    } else {
      TotalSizeUpdate(s.queues, s.next, Dequeued(s.queues[s.next]));
      VisitKeepsInv(s);
      var rest;
      rest, s' := DrainIsRunOfVisits(ApplyVisit(s));
      steps := [PollVisit] + rest;
      assert steps[1..] == rest;
    }
  }

  // --- what the sub-HALs reported, told from the steps alone ---

  // A run ends with its last step.
  lemma {:induction false} RunsSnoc(s: State, steps: seq<Step>, s': State) returns (before: State)
    requires Runs(s, steps, s') && steps != []
    ensures Runs(s, steps[..|steps| - 1], before) && Shape(before)
    ensures Enabled(before, steps[|steps| - 1]) && s' == Apply(before, steps[|steps| - 1])
    decreases |steps|
  {
    if |steps| == 1 {
      before := s;
    } else {
      before := RunsSnoc(Apply(s, steps[0]), steps[1..], s');
      assert steps[1..][..|steps| - 2] == steps[..|steps| - 1][1..];
    }
  }

  // What the stores of sub-HAL i have made of its buffer, which was `data` at first.
  function Stored(data: seq<Event>, steps: seq<Step>, i: nat): (r: seq<Event>)
    ensures |r| == |data|
  {
    if steps == [] then data
    else
      var before := Stored(data, steps[..|steps| - 1], i);
      match steps[|steps| - 1]
      case WriterFill(j, slot, e) => if j == i && slot < |data| then before[slot := e] else before
      case _ => before
  }

  // What its calls of poll() have reported: `count` records from where the last report ended, round the buffer.
  function Reported(data: seq<Event>, steps: seq<Step>, i: nat): seq<Event> {
    if steps == [] then []
    else
      var n := |steps| - 1;
      var before := Reported(data, steps[..n], i);
      match steps[n]
      case WriterPollReturns(j, count) =>
        if j == i then before + Records(Stored(data, steps[..n], i), |before|, count) else before
      case _ => before
  }

  // `count` records of a buffer from position `at` on, round its end.
  function Records(buffer: seq<Event>, at: nat, count: nat): (r: seq<Event>)
    ensures buffer != [] ==> |r| == count
  {
    if buffer == [] then [] else seq(count, k requires 0 <= k < count => buffer[(at + k) % |buffer|])
  }

  // A batch that is reported and not yet marked.
  function Held(w: Writer): seq<Event> {
    if w.Polled? then w.batch else []
  }

  // Queue i holds what was stored, starts where taking left it, and has been given what was reported.
  predicate Told(s: State, data: seq<Event>, steps: seq<Step>, i: nat)
    requires Shape(s) && i < |s.queues|
  {
    && s.queues[i].data == Stored(data, steps, i) && |data| > 0
    && s.queues[i].start == |s.taken[i]| % |data|
    && s.marked[i] + Held(s.writers[i]) == Reported(data, steps, i)
  }

  lemma FreeSlotIsNext(s: State, i: nat, n: nat)
    requires Inv(s) && i < |s.queues| && n == |s.queues[i].data| && s.queues[i].start == |s.taken[i]| % n
    ensures Slot(s.queues[i], s.queues[i].size) == |s.marked[i]| % n
  {
    var q := s.queues[i];
    assert QueueHistory(s, i);
    SlotIsModulo(q, q.size);
    RingArithmetic.ModOfSum(|s.taken[i]|, q.size, n);
  }

  lemma ContiguousRecords(buffer: seq<Event>, at: nat, first: nat, count: nat)
    requires 0 < |buffer| && first == at % |buffer| && first + count <= |buffer|
    ensures Records(buffer, at, count) == buffer[first..first + count]
  {
    forall k | 0 <= k < count ensures Records(buffer, at, count)[k] == buffer[first..first + count][k] {
      RingArithmetic.SlotsContiguous(at, k, |buffer|);
    }
  }

  lemma ReportIsTold(s: State, data: seq<Event>, before: seq<Step>, i: nat, count: nat)
    requires Inv(s) && Enabled(s, WriterPollReturns(i, count)) && i < |s.queues| && Told(s, data, before, i)
    ensures Apply(s, WriterPollReturns(i, count)).writers[i].batch ==
            Records(Stored(data, before, i), |Reported(data, before, i)|, count)
  {
    assert WriterOk(s.writers[i], s.queues[i]);
    FreeSlotIsNext(s, i, |data|);
    ContiguousRecords(s.queues[i].data, |s.marked[i]|, s.writers[i].first, count);
  }

  lemma VisitIsTold(s: State, i: nat, n: nat)
    requires Inv(s) && Enabled(s, PollVisit) && i < |s.queues| && n == |s.queues[i].data| > 0
    requires s.queues[i].start == |s.taken[i]| % n
    ensures var s' := ApplyVisit(s);
            && |s'.queues| == |s'.taken| == |s'.writers| == |s.queues|
            && s'.queues[i].data == s.queues[i].data && s'.queues[i].start == |s'.taken[i]| % n
            && s'.marked == s.marked && Held(s'.writers[i]) == Held(s.writers[i])
  {
    RingArithmetic.ModOfSum(|s.taken[i]|, 1, n);
  }

  // The step is the last of `steps`, and what went before is told.
  ghost predicate Continues(s: State, data: seq<Event>, steps: seq<Step>, n: nat, i: nat) {
    && |steps| == n + 1 && Inv(s) && Enabled(s, steps[n]) && i < |s.queues| && Told(s, data, steps[..n], i)
    && Shape(Apply(s, steps[n])) && |Apply(s, steps[n]).queues| == |s.queues|
  }

  lemma FillIsTold(s: State, data: seq<Event>, steps: seq<Step>, n: nat, i: nat)
    requires Continues(s, data, steps, n, i) && steps[n].WriterFill? && steps[n].i == i
    ensures Told(Apply(s, steps[n]), data, steps, i)
  {
  }

  lemma MarkIsTold(s: State, data: seq<Event>, steps: seq<Step>, n: nat, i: nat)
    requires Continues(s, data, steps, n, i) && steps[n] == WriterMark(i)
    ensures Told(Apply(s, steps[n]), data, steps, i)
  {
    var s' := Apply(s, WriterMark(i));
    assert s'.marked[i] + Held(s'.writers[i]) == s.marked[i] + Held(s.writers[i]);
  }

  lemma ReturnIsTold(s: State, data: seq<Event>, steps: seq<Step>, n: nat, i: nat, count: nat)
    requires Continues(s, data, steps, n, i) && steps[n] == WriterPollReturns(i, count)
    ensures Told(Apply(s, steps[n]), data, steps, i)
  {
    ReportIsTold(s, data, steps[..n], i, count);
  }

  lemma VisitStepIsTold(s: State, data: seq<Event>, steps: seq<Step>, n: nat, i: nat)
    requires Continues(s, data, steps, n, i) && steps[n] == PollVisit
    ensures Told(Apply(s, steps[n]), data, steps, i)
  {
    VisitIsTold(s, i, |data|);
  }

  // Every other step leaves queue i and its histories alone.
  predicate Quiet(step: Step, i: nat) {
    !step.PollVisit? && (step.WriterFill? || step.WriterPollReturns? || step.WriterMark? ==> step.i != i)
  }

  lemma QuietStep(s: State, step: Step, i: nat)
    requires Inv(s) && Enabled(s, step) && i < |s.queues| && Quiet(step, i)
    ensures var s' := Apply(s, step);
            && |s'.queues| == |s'.writers| == |s'.taken| == |s'.marked| == |s.queues| && s'.queues[i] == s.queues[i]
            && s'.taken[i] == s.taken[i] && s'.marked[i] == s.marked[i] && Held(s'.writers[i]) == Held(s.writers[i])
  {
  }

  lemma QuietIsTold(s: State, data: seq<Event>, steps: seq<Step>, n: nat, i: nat)
    requires Continues(s, data, steps, n, i) && Quiet(steps[n], i)
    ensures Told(Apply(s, steps[n]), data, steps, i)
  {
    QuietStep(s, steps[n], i);
  }

  lemma StepIsTold(s: State, data: seq<Event>, steps: seq<Step>, n: nat, i: nat)
    requires Continues(s, data, steps, n, i)
    ensures Told(Apply(s, steps[n]), data, steps, i)
  {
    if Quiet(steps[n], i) {
      QuietIsTold(s, data, steps, n, i);
    } else {
      match steps[n]
      case WriterPollReturns(_, count) => ReturnIsTold(s, data, steps, n, i, count);
      case WriterMark(_) => MarkIsTold(s, data, steps, n, i);
      case PollVisit => VisitStepIsTold(s, data, steps, n, i);
      case WriterFill(_, _, _) => FillIsTold(s, data, steps, n, i);
      case _ =>
    }
  }

  lemma StepKeepsQueues(s: State, step: Step)
    requires Inv(s) && Enabled(s, step)
    ensures |Apply(s, step).queues| == |s.queues|
  {
  }

  lemma {:induction false} RunIsTold(s0: State, steps: seq<Step>, s: State, i: nat)
    requires Init(s0) && Runs(s0, steps, s) && i < |s0.queues|
    ensures Inv(s) && |s.queues| == |s0.queues| && Told(s, s0.queues[i].data, steps, i)
    decreases |steps|
  {
    InitEstablishesInv(s0);
    if steps == [] {
      assert s0.marked[i] in s0.marked && s0.writers[i] in s0.writers;
    } else {
      var n := |steps| - 1;
      var before := RunsSnoc(s0, steps, s);
      RunIsTold(s0, steps[..n], before, i);
      StepKeepsInv(before, steps[n]);
      StepKeepsQueues(before, steps[n]);
      StepIsTold(before, s0.queues[i].data, steps, n, i);
    }
  }

  // --- the promises, over every run from the start ---

  // A region handed to a writer shares no slot with the readable records until it is marked,
  // and what poll() reported is what gets marked.
  lemma RegionsStayPrivate(s0: State, steps: seq<Step>, s: State, i: nat, k: nat)
    requires Init(s0) && Runs(s0, steps, s)
    ensures Shape(s)
    ensures i < |s.queues| && (s.writers[i].Polling? || s.writers[i].Polled?) && k < s.queues[i].size ==>
              !(s.writers[i].first <= Slot(s.queues[i], k) < s.writers[i].first + s.writers[i].len)
    ensures i < |s.queues| && s.writers[i].Polled? ==>
              && s.writers[i].first + |s.writers[i].batch| <= |s.queues[i].data|
              && s.queues[i].data[s.writers[i].first..s.writers[i].first + |s.writers[i].batch|] == s.writers[i].batch
  {
    InitEstablishesInv(s0);
    RunKeepsInv(s0, steps, s);
    if i < |s.queues| {
      assert WriterOk(s.writers[i], s.queues[i]);
    }
  }

  // Everything poll() has returned or is about to return is, queue by queue, in order and exactly
  // once, the remapped image of a prefix of what that queue's writer marked, minus dropped events;
  // the rest of what was marked is still in the queue.
  lemma DeliveryIsExactPrefix(s0: State, steps: seq<Step>, s: State, i: nat)
    requires Init(s0) && Runs(s0, steps, s) && i < |s.queues|
    ensures |s.taken| == |s.marked| == |s.queues| && s.taken[i] <= s.marked[i]
    ensures FromQueue(s.passed, i) == Passed(s.table, i, s.taken[i])
    ensures s.returned + Out(s) == Events(s.passed)
    ensures Ok(s.queues[i]) && Contents(s.queues[i]) == s.marked[i][|s.taken[i]|..]
  {
    InitEstablishesInv(s0);
    RunKeepsInv(s0, steps, s);
    assert QueueHistory(s, i);
  }

  lemma PrefixOfPrefix(a: seq<Event>, b: seq<Event>, c: seq<Event>)
    requires a <= b
    ensures |a| <= |b + c| && (b + c)[..|a|] == a
  {
  }

  // What queue i was given is exactly what its sub-HAL reported, except for a batch still to be marked. So what poll()
  // has passed on from it is, in order and exactly once, the remapped and filtered image of a prefix of that.
  lemma DeliveryIsPrefixOfReports(s0: State, steps: seq<Step>, s: State, i: nat)
    requires Init(s0) && Runs(s0, steps, s) && i < |s0.queues|
    ensures |s.queues| == |s.marked| == |s.taken| == |s.writers| == |s0.queues|
    ensures s.marked[i] + Held(s.writers[i]) == Reported(s0.queues[i].data, steps, i)
    ensures |s.taken[i]| <= |Reported(s0.queues[i].data, steps, i)|
    ensures FromQueue(s.passed, i) == Passed(s.table, i, Reported(s0.queues[i].data, steps, i)[..|s.taken[i]|])
    ensures s.returned + Out(s) == Events(s.passed)
  {
    RunIsTold(s0, steps, s, i);
    DeliveryIsExactPrefix(s0, steps, s, i);
    PrefixOfPrefix(s.taken[i], s.marked[i], Held(s.writers[i]));
  }

  // No lost wake-up: an unsignalled sleeping poller (asked for at least one event) faces only empty
  // queues, an unsignalled sleeping writer faces a full queue, so no two sleep on the same queue.
  lemma NoLostWakeup(s0: State, steps: seq<Step>, s: State, i: nat)
    requires Init(s0) && Runs(s0, steps, s) && i < |s.queues|
    ensures |s.writers| == |s.queues|
    ensures s.poller.Sleeping? && s.poller.maxReads >= 1 ==> s.queues[i].size == 0
    ensures s.writers[i].Asleep? ==> s.queues[i].size == |s.queues[i].data|
    ensures !(s.poller.Sleeping? && s.poller.maxReads >= 1 && s.writers[i].Asleep?)
  {
    InitEstablishesInv(s0);
    RunKeepsInv(s0, steps, s);
    assert WriterOk(s.writers[i], s.queues[i]);
  }

  // The code marks and stores without asking whether there is room. It never has to: in every
  // reachable state a region a writer holds, and the batch poll() left in it, fit in the queue.
  lemma RegionsAlwaysFit(s0: State, steps: seq<Step>, s: State, i: nat)
    requires Init(s0) && Runs(s0, steps, s)
    ensures Shape(s)
    ensures i < |s.queues| && s.writers[i].Polling? ==>
              s.writers[i].len >= 1 && s.writers[i].first + s.writers[i].len <= |s.queues[i].data|
    ensures i < |s.queues| && s.writers[i].Polled? ==>
              s.queues[i].size + |s.writers[i].batch| <= |s.queues[i].data|
  {
    InitEstablishesInv(s0);
    RunKeepsInv(s0, steps, s);
    if i < |s.queues| {
      assert WriterOk(s.writers[i], s.queues[i]);
    }
  }

  // A writer that gets the mutex sleeps exactly when its queue is full; otherwise it is given, from the first free slot
  // on, all the room up to the end of the queue or of its array.
  lemma WriterGetsAllRoom(s0: State, steps: seq<Step>, s: State, i: nat)
    requires Init(s0) && Runs(s0, steps, s) && i < |s0.queues| && Shape(s) && Enabled(s, WriterEnter(i))
    ensures var q, w := s.queues[i], Apply(s, WriterEnter(i)).writers[i];
            if q.size == |q.data| then w == Asleep
            else
              && w.Polling? && IsFreeRegion(q, w.first, w.len)
              && (q.size + w.len == |q.data| || w.first + w.len == |q.data|)
  {
    RunIsTold(s0, steps, s, i);
    assert |s.queues[i].data| == QUEUE_CAPACITY;
  }

  // A sub-HAL stores only into a region it was given for the poll() under way: after a failed poll(), a marked batch or
  // a wake-up there is none, and the writer asks for a new one.
  lemma WriterStartsOver(s: State, step: Step, slot: nat, e: Event)
    requires Inv(s) && Enabled(s, step)
    requires step.WriterPollFails? || step.WriterMark? || step.WriterSpuriousWake?
    ensures Inv(Apply(s, step)) && !Enabled(Apply(s, step), WriterFill(step.i, slot, e))
    ensures MutexFree(s) ==> Enabled(Apply(s, step), WriterEnter(step.i))
  {
    StepKeepsInv(s, step);
  }

  // A poll() for no events is under way, and holds none.
  predicate PollsForNothing(s: State) {
    !s.poller.Idle? && s.poller.maxReads <= 0 && Out(s) == []
  }

  lemma {:induction false} NothingComesOfIt(s: State, steps: seq<Step>, s': State)
    requires PollsForNothing(s) && Runs(s, steps, s')
    ensures PollsForNothing(s')
    ensures s'.returned == s.returned && s'.taken == s.taken && s'.passed == s.passed
    decreases |steps|
  {
    if steps != [] {
      NothingComesOfIt(Apply(s, steps[0]), steps[1..], s');
    }
  }

  // The bound on maxReads is exact: a poll() for no events never returns. Whatever the queues hold
  // when it is called and whatever the writers do afterwards, it takes nothing from any queue.
  lemma PollForNothingNeverReturns(s: State, maxReads: int, steps: seq<Step>, s': State)
    requires Inv(s) && s.poller.Idle? && maxReads <= 0
    requires Runs(s, [PollCall(maxReads)] + steps, s')
    ensures Shape(s') && !s'.poller.Idle? && !Enabled(s', PollVisit) && !Enabled(s', PollReturn)
    ensures s'.poller.Scanning? ==> Enabled(s', PollWait)
    ensures s'.returned == s.returned && s'.taken == s.taken && s'.passed == s.passed
  {
    var run := [PollCall(maxReads)] + steps;
    assert run[0] == PollCall(maxReads) && run[1..] == steps;
    NothingComesOfIt(Apply(s, run[0]), steps, s');
    RunKeepsInv(s, run, s');
  }

  // copy_event_remap_handle() rewrites one of two handles: the event's own, or the one a meta-data
  // event is about.
  function Subject(e: Event): int {
    if e.kind == META_DATA then e.metaSensor else e.sensor
  }

  function Readdressed(e: Event, handle: int): Event {
    if e.kind == META_DATA then e.(metaSensor := handle) else e.(sensor := handle)
  }

  // An event that poll() passes on came from one the queue held, and its rewritten handle leads
  // back to that queue and to the local handle. Only a meta-data event about a sensor nobody
  // registered is passed on without one: its inner handle reads -1.
  lemma {:induction false} PassedHandlesLeadBack(sensors: seq<FullHandle>, queue: nat, taken: seq<Event>, k: nat)
    returns (raw: Event)
    requires k < |Passed(Register(sensors), queue, taken)|
    ensures var t := Register(sensors);
            var e := Passed(t, queue, taken)[k];
            && raw in taken && raw == Readdressed(e, Subject(raw))
            && if FullHandle(queue, Subject(raw)) in sensors then
                 GetModuleIndex(t, Subject(e)) == queue && GetLocal(t, Subject(e)) == Subject(raw)
               else
                 e.kind == META_DATA && Subject(e) == -1
  {
    var t, n := Register(sensors), |taken|;
    if k < |Passed(t, queue, taken[..n - 1])| {
      raw := PassedHandlesLeadBack(sensors, queue, taken[..n - 1], k);
    } else {
      raw := taken[n - 1];
      LocalToGlobalRoundTrip(sensors, FullHandle(queue, Subject(raw)));
    }
  }

  // No event is removed from a queue without reaching the framework unless its sensor field
  // reads -1 after remapping: an ordinary event with an unregistered handle, or a meta-data
  // event that already said -1.
  lemma DroppedExactly(sensors: seq<FullHandle>, queue: nat, raw: Event)
    ensures Dropped(Remap(Register(sensors), queue, raw)) <==>
              if raw.kind == META_DATA then raw.sensor == -1 else FullHandle(queue, raw.sensor) !in sensors
  {
    LocalToGlobalRoundTrip(sensors, FullHandle(queue, raw.sensor));
  }
}
