// The camera HAL's request protocol: capture requests, flush, stream configuration and close under one
// pipeline lock, with the in-flight tracker (camera/MochaCameraHAL.cpp, camera/InFlightTracker.h).

module InFlight {
  // mContexts: frame number to markedError
  type Contexts = map<nat, bool>

  function Marked(c: Contexts): (m: Contexts)
    ensures m.Keys == c.Keys
  {
    map f | f in c :: true
  }

  predicate IsError(c: Contexts, frame: nat) {
    frame in c && c[frame]
  }

  // Frame numbers are 32 bits wide.
  const FRAME_LIMIT: nat := 0x1_0000_0000

  function Ascending(c: Contexts, bound: nat): seq<nat> {
    if bound == 0 then [] else Ascending(c, bound - 1) + (if bound - 1 in c then [bound - 1] else [])
  }

  // The frames that drainAll() gives: the tracked ones, ascending.
  function Drained(c: Contexts): seq<nat> {
    Ascending(c, FRAME_LIMIT)
  }

  predicate Increasing(frames: seq<nat>) {
    forall i, j | 0 <= i < j < |frames| :: frames[i] < frames[j]
  }

  lemma {:induction false} AscendingOfEmpty(bound: nat)
    ensures Ascending(map[], bound) == []
  {
    if bound > 0 {
      AscendingOfEmpty(bound - 1);
    }
  }

  // The frames listed are exactly the tracked ones below the bound.
  ghost predicate Lists(c: Contexts, bound: nat, frames: seq<nat>) {
    forall f: nat :: Listed(c, bound, frames, f)
  }

  predicate Listed(c: Contexts, bound: nat, frames: seq<nat>, f: nat) {
    f in frames <==> f in c && f < bound
  }

  lemma FirstIsMember(frames: seq<nat>)
    ensures frames == [] || frames[0] in frames
  {
  }

  lemma GreatestIsLast(frames: seq<nat>, x: nat)
    requires Increasing(frames) && x in frames && forall f | f in frames :: f <= x
    ensures frames != [] && frames[|frames| - 1] == x && Increasing(frames[..|frames| - 1])
  {
    var i :| 0 <= i < |frames| && frames[i] == x;
    assert frames[|frames| - 1] in frames;
  }

  lemma ListsTop(c: Contexts, bound: nat, frames: seq<nat>)
    requires Increasing(frames) && Lists(c, bound + 1, frames) && bound in c
    ensures frames != [] && frames[|frames| - 1] == bound && Increasing(frames[..|frames| - 1])
  {
    assert Listed(c, bound + 1, frames, bound);
    forall f | f in frames ensures f <= bound {
      assert Listed(c, bound + 1, frames, f);
    }
    GreatestIsLast(frames, bound);
  }

  lemma ListsButLast(c: Contexts, bound: nat, frames: seq<nat>)
    requires frames != [] && Increasing(frames) && Lists(c, bound + 1, frames) && frames[|frames| - 1] == bound
    ensures Lists(c, bound, frames[..|frames| - 1])
  {
    var n := |frames| - 1;
    forall f: nat ensures Listed(c, bound, frames[..n], f) {
      assert Listed(c, bound + 1, frames, f);
      if f in frames && f < bound {
        var k :| 0 <= k < |frames| && frames[k] == f;
        assert frames[..n][k] == f;
      }
    }
  }

  lemma ListsLess(c: Contexts, bound: nat, frames: seq<nat>)
    requires Lists(c, bound + 1, frames) && bound !in c
    ensures Lists(c, bound, frames)
  {
    forall f: nat ensures Listed(c, bound, frames, f) {
      assert Listed(c, bound + 1, frames, f);
    }
  }

  lemma ListsNone(c: Contexts, frames: seq<nat>)
    requires Lists(c, 0, frames)
    ensures frames == []
  {
    FirstIsMember(frames);
    assert frames == [] || Listed(c, 0, frames, frames[0]);
  }

  lemma AscendingSnoc(c: Contexts, bound: nat, frames: seq<nat>)
    requires bound in c && frames != [] && frames[|frames| - 1] == bound
    requires Ascending(c, bound) == frames[..|frames| - 1]
    ensures Ascending(c, bound + 1) == frames
  {
    assert frames == frames[..|frames| - 1] + [bound];
  }

  // An ascending list is determined by its members.
  lemma {:induction false} AscendingIs(c: Contexts, bound: nat, frames: seq<nat>)
    requires Increasing(frames) && Lists(c, bound, frames)
    ensures Ascending(c, bound) == frames
    decreases bound
  {
    if bound == 0 {
      ListsNone(c, frames);
    } else if bound - 1 in c {
      ListsTop(c, bound - 1, frames);
      ListsButLast(c, bound - 1, frames);
      AscendingIs(c, bound - 1, frames[..|frames| - 1]);
      AscendingSnoc(c, bound - 1, frames);
    } else {
      ListsLess(c, bound - 1, frames);
      AscendingIs(c, bound - 1, frames);
    }
  }

  class InFlightTracker {
    var contexts: Contexts

    constructor ()
      ensures contexts == map[]
    {
      contexts := map[];
    }

    method Add(frame: nat)
      modifies this
      ensures contexts == old(contexts)[frame := false]
    {
      contexts := contexts[frame := false];
    }

    method Remove(frame: nat) returns (erased: bool)
      modifies this
      ensures contexts == old(contexts) - {frame} && (erased <==> frame in old(contexts))
    {
      erased := frame in contexts;
      contexts := contexts - {frame};
    }

    method MarkAllAsError()
      modifies this
      ensures contexts == Marked(old(contexts))
    {
      var todo, done := contexts.Keys, contexts;
      while todo != {}
        invariant todo <= contexts.Keys && done.Keys == contexts.Keys && contexts == old(contexts)
        invariant forall f | f in contexts :: done[f] == (f !in todo || contexts[f])
        decreases todo
      {
        var frame :| frame in todo;
        done := done[frame := true];
        todo := todo - {frame};
      }
      contexts := done;
    }

    // Every tracked frame is reported once, in ascending order, and the tracker is empty.
    method DrainAll() returns (frames: seq<nat>)
      modifies this
      ensures contexts == map[]
      ensures Increasing(frames) && forall f :: f in frames <==> f in old(contexts)
      ensures (forall f | f in old(contexts) :: f < FRAME_LIMIT) ==> frames == Drained(old(contexts))
    {
      frames := [];
      var todo := contexts.Keys;
      while todo != {}
        invariant todo <= contexts.Keys && contexts == old(contexts)
        invariant forall f :: f in frames <==> f in contexts.Keys - todo
        invariant forall i, f | 0 <= i < |frames| && f in todo :: frames[i] < f
        invariant Increasing(frames)
        decreases todo
      {
        var least := Least(todo);
        frames := frames + [least];
        todo := todo - {least};
      }
      if forall f | f in contexts :: f < FRAME_LIMIT {
        assert forall f: nat :: Listed(contexts, FRAME_LIMIT, frames, f);
        AscendingIs(contexts, FRAME_LIMIT, frames);
      }
      contexts := map[];
    }

    static method Least(s: set<nat>) returns (m: nat)
      requires s != {}
      ensures m in s && forall f | f in s :: m <= f
    {
      m :| m in s;
      var todo := s - {m};
      while todo != {}
        invariant m in s && todo <= s && forall f | f in s && f !in todo :: m <= f
        decreases todo
      {
        var f :| f in todo;
        if f < m {
          m := f;
        }
        todo := todo - {f};
      }
    }
  }
}

module CameraRequest {
  import opened InFlight

  const ENOSYS: int := 38
  const EINVAL: int := 22
  const EAGAIN: int := 11
  const ENODEV: int := 19
  const MAX_OUTPUT_BUFFERS: nat := 16    // kMaxOutputBuffers

  datatype Request = Request(frame: nat, buffers: nat, hasArray: bool)

  // What the framework receives.
  datatype Callback =
    | Shutter(frame: nat)
    | Error(frame: nat)
    | Result(frame: nat, buffers: nat, ok: bool)

  // What one output buffer of a request comes to: captured, not captured, or -EAGAIN from the pipeline.
  datatype Capture = Captured | Missed | Again

  datatype Pipeline = NoPipeline | Opened | Streaming

  // How configure_streams ends: bad dimensions, same resolution while streaming, no pipeline, new pipeline.
  datatype Setup = Rejected | Unchanged | Failed | Restarted

  // Who holds pipelineLock, and how far that call has come.
  datatype Lock =
    | Free
    | Tracked(req: Request)                               // in the tracker; autofocus handling done
    | Capturing(req: Request, done: nat, captured: bool)  // `done` outputs processed
    | Finishing(req: Request, captured: bool)
    | Flushing                                            // flush() has marked the tracked frames
    | Draining                                            // configure_streams() reports and forgets them
    | Closing                                             // close() has marked them

  datatype Completion = Completion(req: Request, status: int, captured: bool)

  datatype State = State(
    notifies: bool,        // the framework's callback table has a notify entry
    lock: Lock,
    tracker: Contexts,
    closing: bool,
    closed: bool,
    initialized: bool,
    pipeline: Pipeline,
    configured: bool,
    trace: seq<Callback>,
    completed: seq<Completion>)

  datatype Step =
    | Initialize
    | Begin(req: Request)
    | Recheck(restarts: bool)          // second look at `closing`, then a restart of a stopped pipeline
    | CaptureOne(c: Capture)
    | CaptureDone(proactive: bool)     // the still-capture workaround may capture one more frame
    | Finish
    | FlushMark
    | FlushDrain
    | Configure(setup: Setup)
    | ConfigureDrain(setup: Setup)
    | CloseFlag                        // close() sets `closing` before it waits for the lock
    | CloseMark
    | CloseDelete

  predicate Enabled(s: State, step: Step) {
    match step
    case Initialize => true
    case Begin(_) => s.lock.Free? && !s.closed
    case Recheck(_) => s.lock.Tracked?
    case CaptureOne(c) =>
      && s.lock.Capturing? && s.lock.done < s.lock.req.buffers
      && s.configured && !s.pipeline.NoPipeline? && (c.Captured? ==> s.pipeline.Streaming?)
    // every output has been visited, or none because there is no usable pipeline or buffer allocator
    case CaptureDone(proactive) =>
      && s.lock.Capturing? && (s.lock.done == 0 || s.lock.done == s.lock.req.buffers)
      && (proactive ==> s.pipeline.Streaming?)
    case Finish => s.lock.Finishing?
    case FlushMark => s.lock.Free? && !s.closed
    case FlushDrain => s.lock.Flushing?
    case Configure(setup) => s.lock.Free? && !s.closed && (setup.Unchanged? ==> s.configured && s.pipeline.Streaming?)
    case ConfigureDrain(setup) => s.lock.Draining? && (setup.Failed? || setup.Restarted?)
    case CloseFlag => true
    case CloseMark => s.lock.Free? && s.closing && !s.closed
    case CloseDelete => s.lock.Closing?
  }

  // The call returns and the lock is released.
  function Return(s: State, req: Request, status: int, captured: bool): State {
    s.(lock := Free, tracker := s.tracker - {req.frame}, completed := s.completed + [Completion(req, status, captured)])
  }

  function Min(a: nat, b: nat): nat {
    if a <= b then a else b
  }

  // The empty results configure_streams sends for frames still in the tracker.
  function Orphans(frames: seq<nat>): seq<Callback> {
    seq(|frames|, i requires 0 <= i < |frames| => Result(frames[i], 0, false))
  }

  function Started(s: State, req: Request): State {
    if s.closing || !s.initialized then Return(s, req, -ENOSYS, false).(tracker := s.tracker)
    else if req.buffers < 1 || !req.hasArray then Return(s, req, -EINVAL, false).(tracker := s.tracker)
    else if IsError(s.tracker, req.frame) then Return(s, req, -EAGAIN, false)
    else s.(lock := Tracked(req), tracker := s.tracker[req.frame := false])
  }

  function Rechecked(s: State, restarts: bool): State
    requires s.lock.Tracked?
  {
    var req := s.lock.req;
    if s.closing then Return(s, req, -ENOSYS, false)
    else if s.configured && s.pipeline.Opened? then
      if restarts then s.(pipeline := Streaming, lock := Capturing(req, 0, false)) else Return(s, req, -ENODEV, false)
    else s.(lock := Capturing(req, 0, false))
  }

  // The callbacks at the end of a request, in the order they are made.
  function Announced(req: Request, captured: bool, flushed: bool, notifies: bool): seq<Callback> {
    (if captured && notifies then [Shutter(req.frame)] else [])
    + (if !flushed && !captured && notifies then [Error(req.frame)] else [])
    + [Result(req.frame, Min(req.buffers, MAX_OUTPUT_BUFFERS), captured && !flushed)]
  }

  function Finished(s: State): State
    requires s.lock.Finishing?
  {
    var flushed := IsError(s.tracker, s.lock.req.frame);
    Return(s, s.lock.req, 0, s.lock.captured)
      .(trace := s.trace + Announced(s.lock.req, s.lock.captured, flushed, s.notifies))
  }

  // configure_streams() sends an empty result for every drained frame, then replaces the pipeline.
  function Configured(s: State, setup: Setup): State {
    s.(lock := Free, trace := s.trace + Orphans(Drained(s.tracker)), tracker := map[],
       pipeline := if setup.Restarted? then Streaming else NoPipeline,
       configured := s.configured || setup.Restarted?)
  }

  function Apply(s: State, step: Step): State
    requires Enabled(s, step)
  {
    match step
    case Initialize => s.(initialized := true)
    case Begin(req) => Started(s, req)
    case Recheck(restarts) => Rechecked(s, restarts)
    case CaptureOne(c) =>
      if c.Again? then Return(s, s.lock.req, -EAGAIN, s.lock.captured)
      else s.(lock := Capturing(s.lock.req, s.lock.done + 1, s.lock.captured || c.Captured?))
    case CaptureDone(proactive) => s.(lock := Finishing(s.lock.req, s.lock.captured || proactive))
    case Finish => Finished(s)
    case FlushMark =>
      s.(lock := Flushing, tracker := Marked(s.tracker),
         pipeline := if s.configured && s.pipeline.Streaming? then Opened else s.pipeline)
    case FlushDrain => s.(lock := Free, tracker := map[])
    case Configure(setup) => if setup.Rejected? || setup.Unchanged? then s else s.(lock := Draining)
    case ConfigureDrain(setup) => Configured(s, setup)
    case CloseFlag => s.(closing := true)
    case CloseMark => s.(lock := Closing, tracker := Marked(s.tracker))
    case CloseDelete => s.(lock := Free, tracker := map[], closed := true, pipeline := NoPipeline)
  }

  // ---- What the framework is owed ----

  function Delivery(c: Completion, notifies: bool): seq<Callback> {
    if c.status != 0 then []
    else
      (if !notifies then [] else if c.captured then [Shutter(c.req.frame)] else [Error(c.req.frame)])
      + [Result(c.req.frame, if c.req.buffers < 16 then c.req.buffers else 16, c.captured)]
  }

  function Deliveries(cs: seq<Completion>, notifies: bool): seq<Callback> {
    if cs == [] then [] else Deliveries(cs[..|cs| - 1], notifies) + Delivery(cs[|cs| - 1], notifies)
  }

  lemma DeliveriesSnoc(cs: seq<Completion>, c: Completion, notifies: bool)
    ensures Deliveries(cs + [c], notifies) == Deliveries(cs, notifies) + Delivery(c, notifies)
  {
    assert (cs + [c])[..|cs|] == cs;
  }

  // ---- The invariant ----

  // A request holds the lock.
  predicate ByRequest(lock: Lock) {
    lock.Tracked? || lock.Capturing? || lock.Finishing?
  }

  predicate OnlyOwnFrame(s: State) {
    s.tracker == if ByRequest(s.lock) then map[s.lock.req.frame := false] else map[]
  }

  predicate HeldIsValid(s: State) {
    && (!s.lock.Free? ==> !s.closed)
    && (ByRequest(s.lock) ==> s.initialized && s.lock.req.hasArray && 1 <= s.lock.req.buffers)
    && (s.lock.Capturing? ==> s.lock.done <= s.lock.req.buffers)
    && (s.lock.Capturing? && s.configured ==> !s.pipeline.Opened?)
  }

  predicate PaidInFull(trace: seq<Callback>, cs: seq<Completion>, notifies: bool) {
    && trace == Deliveries(cs, notifies)
    && forall i | 0 <= i < |cs| :: cs[i].status == 0 ==> 1 <= cs[i].req.buffers
  }

  predicate Inv(s: State) {
    OnlyOwnFrame(s) && HeldIsValid(s) && PaidInFull(s.trace, s.completed, s.notifies)
  }

  predicate Init(s: State) {
    && s.lock.Free? && s.tracker == map[] && !s.closing && !s.closed && !s.initialized && s.pipeline.NoPipeline?
    && !s.configured && s.trace == [] && s.completed == []
  }

  lemma FailureOwesNothing(trace: seq<Callback>, cs: seq<Completion>, c: Completion, notifies: bool)
    requires PaidInFull(trace, cs, notifies) && c.status != 0
    ensures PaidInFull(trace, cs + [c], notifies)
  {
    DeliveriesSnoc(cs, c, notifies);
  }

  lemma SuccessIsPaid(trace: seq<Callback>, cs: seq<Completion>, c: Completion, notifies: bool)
    requires PaidInFull(trace, cs, notifies) && 1 <= c.req.buffers
    requires c.status == 0
    ensures PaidInFull(trace + Announced(c.req, c.captured, false, notifies), cs + [c], notifies)
  {
    DeliveriesSnoc(cs, c, notifies);
    assert Announced(c.req, c.captured, false, notifies) == Delivery(c, notifies);
  }

  lemma ReturnKeepsInv(s: State, status: int, captured: bool)
    requires Inv(s) && ByRequest(s.lock) && status != 0
    ensures Inv(Return(s, s.lock.req, status, captured))
  {
    FailureOwesNothing(s.trace, s.completed, Completion(s.lock.req, status, captured), s.notifies);
  }

  lemma BeginKeepsInv(s: State, req: Request)
    requires Inv(s) && Enabled(s, Begin(req))
    ensures Inv(Started(s, req))
  {
    if s.closing || !s.initialized {
      FailureOwesNothing(s.trace, s.completed, Completion(req, -ENOSYS, false), s.notifies);
    } else if req.buffers < 1 || !req.hasArray {
      FailureOwesNothing(s.trace, s.completed, Completion(req, -EINVAL, false), s.notifies);
    }
  }

  lemma NotFlushed(s: State)
    requires OnlyOwnFrame(s)
    ensures forall f :: !IsError(s.tracker, f)
    ensures ByRequest(s.lock) ==> s.tracker - {s.lock.req.frame} == map[]
  {
  }

  // What the end of a request leaves, part by part.
  lemma FinishedFrees(s: State)
    requires Inv(s) && Enabled(s, Finish)
    ensures Finished(s).lock == Free && OnlyOwnFrame(Finished(s)) && HeldIsValid(Finished(s))
  {
    NotFlushed(s);
  }

  lemma FinishedPays(s: State)
    requires Inv(s) && Enabled(s, Finish)
    ensures PaidInFull(Finished(s).trace, Finished(s).completed, s.notifies)
  {
    assert !IsError(s.tracker, s.lock.req.frame) by {
      NotFlushed(s);
    }
    SuccessIsPaid(s.trace, s.completed, Completion(s.lock.req, 0, s.lock.captured), s.notifies);
  }

  lemma FinishKeepsInv(s: State)
    requires Inv(s) && Enabled(s, Finish)
    ensures Inv(Finished(s))
  {
    FinishedFrees(s);
    FinishedPays(s);
  }

  lemma ConfigureKeepsInv(s: State, setup: Setup)
    requires Inv(s) && Enabled(s, ConfigureDrain(setup))
    ensures Inv(Configured(s, setup)) && Configured(s, setup).trace == s.trace
  {
    AscendingOfEmpty(FRAME_LIMIT);
    assert s.trace + Orphans([]) == s.trace;
  }

  // flush() and close() find nothing to mark.
  lemma MarksNothing(s: State)
    requires Inv(s) && (Enabled(s, FlushMark) || Enabled(s, CloseMark))
    ensures s.tracker == map[] && Marked(s.tracker) == map[]
  {
  }

  lemma RecheckKeepsInv(s: State, restarts: bool)
    requires Inv(s) && Enabled(s, Recheck(restarts))
    ensures Inv(Rechecked(s, restarts))
  {
    ReturnKeepsInv(s, -ENOSYS, false);
    ReturnKeepsInv(s, -ENODEV, false);
  }

  lemma CaptureKeepsInv(s: State, step: Step)
    requires Inv(s) && Enabled(s, step) && (step.CaptureOne? || step.CaptureDone?)
    ensures Inv(Apply(s, step))
  {
    ReturnKeepsInv(s, -EAGAIN, s.lock.captured);
  }

  // The steps of flush(), configure_streams() and close() up to what they do to the tracker.
  lemma ControlKeepsInv(s: State, step: Step)
    requires Inv(s) && Enabled(s, step)
    requires step.Initialize? || step.FlushMark? || step.FlushDrain? || step.Configure? || step.CloseFlag?
             || step.CloseMark? || step.CloseDelete?
    ensures Inv(Apply(s, step))
  {
    if step.FlushMark? || step.CloseMark? {
      MarksNothing(s);
    }
  }

  lemma StepKeepsInv(s: State, step: Step)
    requires Inv(s) && Enabled(s, step)
    ensures Inv(Apply(s, step))
  {
    match step
    case Begin(req) => BeginKeepsInv(s, req);
    case Recheck(restarts) => RecheckKeepsInv(s, restarts);
    case CaptureOne(_) => CaptureKeepsInv(s, step);
    case CaptureDone(_) => CaptureKeepsInv(s, step);
    case Finish => FinishKeepsInv(s);
    case ConfigureDrain(setup) => ConfigureKeepsInv(s, setup);
    case _ => ControlKeepsInv(s, step);
  }

  ghost predicate Runs(s: State, steps: seq<Step>, s': State)
    decreases |steps|
  {
    if steps == [] then s == s'
    else Enabled(s, steps[0]) && Runs(Apply(s, steps[0]), steps[1..], s')
  }

  lemma {:induction false} RunKeepsInv(s: State, steps: seq<Step>, s': State)
    requires Inv(s) && Runs(s, steps, s')
    ensures Inv(s')
    decreases |steps|
  {
    if steps != [] {
      StepKeepsInv(s, steps[0]);
      RunKeepsInv(Apply(s, steps[0]), steps[1..], s');
    }
  }

  // ---- What a run comes to, told from its steps alone ----

  // A run ends with its last step.
  lemma {:induction false} RunsSnoc(s: State, steps: seq<Step>, s': State) returns (before: State)
    requires Runs(s, steps, s') && steps != []
    ensures Runs(s, steps[..|steps| - 1], before)
    ensures Enabled(before, steps[|steps| - 1]) && s' == Apply(before, steps[|steps| - 1])
    decreases |steps|
  {
    if |steps| == 1 {
      before := s;
    } else {
      before := RunsSnoc(Apply(s, steps[0]), steps[1..], s');
      assert steps[1..][..|steps| - 2] == steps[..|steps| - 1][1..];
    }
  }

  // The request that came last.
  function LastBegun(steps: seq<Step>): Request {
    if steps == [] then Request(0, 0, false)
    else if steps[|steps| - 1].Begin? then steps[|steps| - 1].req
    else LastBegun(steps[..|steps| - 1])
  }

  // A frame has been captured for it, by one of its outputs or by the still-capture workaround.
  predicate CapturedSince(steps: seq<Step>) {
    && steps != [] && !steps[|steps| - 1].Begin?
    && (steps[|steps| - 1] in {CaptureOne(Captured), CaptureDone(true)} || CapturedSince(steps[..|steps| - 1]))
  }

  // How many of its outputs have been visited.
  function VisitedSince(steps: seq<Step>): nat {
    if steps == [] || steps[|steps| - 1].Begin? then 0
    else VisitedSince(steps[..|steps| - 1]) + if steps[|steps| - 1].CaptureOne? then 1 else 0
  }

  // There is a pipeline: configure_streams() made one, and neither it nor close() has taken it down.
  predicate HasPipeline(steps: seq<Step>) {
    && steps != []
    && match steps[|steps| - 1]
       case ConfigureDrain(setup) => setup.Restarted?
       case CloseDelete => false
       case _ => HasPipeline(steps[..|steps| - 1])
  }

  // flush() has stopped it, and no request has restarted it.
  predicate Stopped(steps: seq<Step>) {
    && steps != []
    && var before := steps[..|steps| - 1];
       match steps[|steps| - 1]
       case FlushMark => HasPipeline(before)
       case Recheck(restarts) => Stopped(before) && !(restarts && CloseFlag !in before)
       case ConfigureDrain(_) => false
       case CloseDelete => false
       case _ => Stopped(before)
  }

  // The call that a step brings to its end, if any, and how it ends.
  function Ending(before: seq<Step>, step: Step): seq<Completion> {
    match step
    case Begin(req) =>
      if CloseFlag in before || Initialize !in before then [Completion(req, -ENOSYS, false)]
      else if req.buffers == 0 || !req.hasArray then [Completion(req, -EINVAL, false)]
      else []
    case Recheck(restarts) =>
      if CloseFlag in before then [Completion(LastBegun(before), -ENOSYS, false)]
      else if Stopped(before) && !restarts then [Completion(LastBegun(before), -ENODEV, false)]
      else []
    case CaptureOne(c) =>
      if c.Again? then [Completion(LastBegun(before), -EAGAIN, CapturedSince(before))] else []
    case Finish => [Completion(LastBegun(before), 0, CapturedSince(before))]
    case _ => []
  }

  function Endings(steps: seq<Step>): seq<Completion> {
    if steps == [] then [] else Endings(steps[..|steps| - 1]) + Ending(steps[..|steps| - 1], steps[|steps| - 1])
  }

  // Who has the lock, and how far the call has come: a call gives it back with the step that ends it.
  function Holder(steps: seq<Step>): Lock {
    if steps == [] then Free
    else
      var before, step := steps[..|steps| - 1], steps[|steps| - 1];
      match step
      case Begin(req) => if Ending(before, step) == [] then Tracked(req) else Free
      case Recheck(_) => if Ending(before, step) == [] then Capturing(LastBegun(before), 0, false) else Free
      case CaptureOne(_) =>
        if Ending(before, step) != [] then Free
        else Capturing(LastBegun(before), VisitedSince(steps), CapturedSince(steps))
      case CaptureDone(_) => Finishing(LastBegun(before), CapturedSince(steps))
      case Configure(setup) => if setup.Failed? || setup.Restarted? then Draining else Free
      case FlushMark => Flushing
      case CloseMark => Closing
      case Initialize => Holder(before)
      case CloseFlag => Holder(before)
      case _ => Free
  }

  predicate LockIs(lock: Lock, req: Request, captured: bool, visited: nat) {
    && (ByRequest(lock) ==> lock.req == req)
    && (lock.Tracked? ==> !captured && visited == 0)
    && (lock.Capturing? ==> lock.captured == captured && lock.done == visited)
    && (lock.Finishing? ==> lock.captured == captured)
  }

  predicate PipelineTold(s: State, steps: seq<Step>) {
    && s.pipeline == (if !HasPipeline(steps) then NoPipeline else if Stopped(steps) then Opened else Streaming)
    && (HasPipeline(steps) ==> s.configured) && (Stopped(steps) ==> HasPipeline(steps))
  }

  predicate Told(s: State, steps: seq<Step>) {
    && (s.closing <==> CloseFlag in steps) && (s.initialized <==> Initialize in steps)
    && (s.closed <==> CloseDelete in steps)
    && LockIs(s.lock, LastBegun(steps), CapturedSince(steps), VisitedSince(steps)) && PipelineTold(s, steps)
  }

  lemma LockStep(s: State, step: Step, req: Request, captured: bool, visited: nat)
    requires Inv(s) && Enabled(s, step) && LockIs(s.lock, req, captured, visited)
    ensures step.Begin? ==> LockIs(Apply(s, step).lock, step.req, false, 0)
    ensures !step.Begin? ==>
      LockIs(Apply(s, step).lock, req, step in {CaptureOne(Captured), CaptureDone(true)} || captured,
             visited + if step.CaptureOne? then 1 else 0)
  {
  }

  lemma PipelineStepIsTold(s: State, steps: seq<Step>, n: nat)
    requires |steps| == n + 1 && Inv(s) && Enabled(s, steps[n])
    requires PipelineTold(s, steps[..n]) && (s.closing <==> CloseFlag in steps[..n])
    ensures PipelineTold(Apply(s, steps[n]), steps)
  {
  }

  lemma InSnoc(steps: seq<Step>, n: nat, step: Step)
    requires |steps| == n + 1
    ensures step in steps <==> step in steps[..n] || step == steps[n]
  {
    assert steps == steps[..n] + [steps[n]];
  }

  lemma FlagStep(s: State, step: Step)
    requires Enabled(s, step)
    ensures Apply(s, step).closing == (s.closing || step == CloseFlag)
    ensures Apply(s, step).initialized == (s.initialized || step == Initialize)
    ensures Apply(s, step).closed == (s.closed || step == CloseDelete)
    ensures Apply(s, step).notifies == s.notifies
  {
    match step
    case Begin(req) => assert SameFlags(s, Started(s, req));
    case Recheck(restarts) => assert SameFlags(s, Rechecked(s, restarts));
    case Finish => assert SameFlags(s, Finished(s));
    case ConfigureDrain(setup) => assert SameFlags(s, Configured(s, setup));
    case _ =>
  }

  predicate SameFlags(s: State, s': State) {
    && s'.closing == s.closing && s'.initialized == s.initialized && s'.closed == s.closed
    && s'.notifies == s.notifies
  }

  lemma BeginEndsAsTold(s: State, before: seq<Step>, req: Request)
    requires Inv(s) && Enabled(s, Begin(req)) && Told(s, before)
    ensures Started(s, req).completed == s.completed + Ending(before, Begin(req))
  {
    NotFlushed(s);
  }

  lemma RecheckEndsAsTold(s: State, before: seq<Step>, restarts: bool)
    requires Inv(s) && Enabled(s, Recheck(restarts)) && Told(s, before)
    ensures Rechecked(s, restarts).completed == s.completed + Ending(before, Recheck(restarts))
  {
  }

  // Steps that bring no call to an end.
  lemma OthersEndNothing(s: State, before: seq<Step>, step: Step)
    requires Enabled(s, step) && !step.Begin? && !step.Recheck? && !step.CaptureOne? && !step.Finish?
    ensures Ending(before, step) == [] && Apply(s, step).completed == s.completed
  {
    if step.ConfigureDrain? {
      assert Configured(s, step.setup).completed == s.completed;
    }
  }

  lemma EndingIsTold(s: State, before: seq<Step>, step: Step)
    requires Inv(s) && Enabled(s, step) && Told(s, before)
    ensures Apply(s, step).completed == s.completed + Ending(before, step)
  {
    match step
    case Begin(req) => BeginEndsAsTold(s, before, req);
    case Recheck(restarts) => RecheckEndsAsTold(s, before, restarts);
    case CaptureOne(_) =>
    case Finish =>
    case _ => OthersEndNothing(s, before, step);
  }

  lemma BeginHolds(s: State, before: seq<Step>, req: Request)
    requires Inv(s) && Enabled(s, Begin(req)) && Told(s, before)
    ensures Started(s, req).lock == if Ending(before, Begin(req)) == [] then Tracked(req) else Free
  {
    NotFlushed(s);
  }

  lemma RecheckHolds(s: State, before: seq<Step>, restarts: bool)
    requires Inv(s) && Enabled(s, Recheck(restarts)) && Told(s, before)
    ensures Rechecked(s, restarts).lock ==
            if Ending(before, Recheck(restarts)) == [] then Capturing(LastBegun(before), 0, false) else Free
  {
  }

  lemma CaptureHolds(s: State, steps: seq<Step>, n: nat)
    requires |steps| == n + 1 && Enabled(s, steps[n]) && (steps[n].CaptureOne? || steps[n].CaptureDone?)
    requires LockIs(s.lock, LastBegun(steps[..n]), CapturedSince(steps[..n]), VisitedSince(steps[..n]))
    ensures Apply(s, steps[n]).lock == Holder(steps)
  {
  }

  lemma OthersHold(s: State, steps: seq<Step>, n: nat)
    requires |steps| == n + 1 && Enabled(s, steps[n]) && s.lock == Holder(steps[..n])
    requires !steps[n].Begin? && !steps[n].Recheck? && !steps[n].CaptureOne? && !steps[n].CaptureDone?
    ensures Apply(s, steps[n]).lock == Holder(steps)
  {
    match steps[n]
    case ConfigureDrain(setup) => assert Configured(s, setup).lock == Free;
    case Finish => assert Finished(s).lock == Free;
    case _ =>
  }

  lemma HolderIsTold(s: State, steps: seq<Step>, n: nat)
    requires |steps| == n + 1 && Inv(s) && Enabled(s, steps[n]) && Told(s, steps[..n]) && s.lock == Holder(steps[..n])
    ensures Apply(s, steps[n]).lock == Holder(steps)
  {
    match steps[n]
    case Begin(req) => BeginHolds(s, steps[..n], req);
    case Recheck(restarts) => RecheckHolds(s, steps[..n], restarts);
    case CaptureOne(_) => CaptureHolds(s, steps, n);
    case CaptureDone(_) => CaptureHolds(s, steps, n);
    case _ => OthersHold(s, steps, n);
  }

  lemma {:induction false} RunIsTold(s0: State, steps: seq<Step>, s: State)
    requires Init(s0) && Runs(s0, steps, s)
    ensures Inv(s) && Told(s, steps) && s.completed == Endings(steps) && s.notifies == s0.notifies
    ensures s.lock == Holder(steps)
    decreases |steps|
  {
    if steps != [] {
      var n := |steps| - 1;
      var before := RunsSnoc(s0, steps, s);
      RunIsTold(s0, steps[..n], before);
      StepKeepsInv(before, steps[n]);
      LockStep(before, steps[n], LastBegun(steps[..n]), CapturedSince(steps[..n]), VisitedSince(steps[..n]));
      PipelineStepIsTold(before, steps, n);
      FlagStep(before, steps[n]);
      InSnoc(steps, n, CloseFlag);
      InSnoc(steps, n, Initialize);
      InSnoc(steps, n, CloseDelete);
      EndingIsTold(before, steps[..n], steps[n]);
      HolderIsTold(before, steps, n);
    }
  }

  // ---- Theorems over every interleaving ----

  // Whenever no request holds pipelineLock the tracker is empty, so flush and close, which mark what is tracked, and
  // configure, which reports it, find nothing; while a request holds the lock, its own frame is the only one tracked.
  // No frame is ever marked, so no request ever finds its frame flushed.
  lemma TrackerEmptyWhenLockFree(s0: State, steps: seq<Step>, s: State)
    requires Init(s0) && Runs(s0, steps, s)
    ensures !ByRequest(s.lock) ==> s.tracker == map[]
    ensures ByRequest(s.lock) ==> s.tracker.Keys == {s.lock.req.frame}
    ensures forall f :: !IsError(s.tracker, f)
    ensures Enabled(s, FlushMark) || Enabled(s, CloseMark) ==> Marked(s.tracker) == map[]
    ensures forall setup | Enabled(s, ConfigureDrain(setup)) :: Apply(s, ConfigureDrain(setup)).trace == s.trace
  {
    RunKeepsInv(s0, steps, s);
    if Enabled(s, FlushMark) || Enabled(s, CloseMark) {
      MarksNothing(s);
    }
    forall setup | Enabled(s, ConfigureDrain(setup))
      ensures Apply(s, ConfigureDrain(setup)).trace == s.trace
    {
      ConfigureKeepsInv(s, setup);
    }
  }

  // Every call ends as the steps of the run call for: with the error of the first check that fails, with -EAGAIN from
  // the pipeline, or with 0, and counts as captured exactly when a frame was captured since it began. It has the lock
  // until then, and nobody has it after.
  lemma CallsEndAsTold(s0: State, steps: seq<Step>, s: State)
    requires Init(s0) && Runs(s0, steps, s)
    ensures s.completed == Endings(steps) && s.lock == Holder(steps)
    ensures s.lock.Capturing? ==> s.lock.captured == CapturedSince(steps) && VisitedSince(steps) <= s.lock.req.buffers
    ensures s.lock.Finishing? ==> s.lock.captured == CapturedSince(steps)
  {
    RunIsTold(s0, steps, s);
  }

  // The framework sees, in lock order, exactly what those calls owe it: nothing for one that returned an error; for
  // one that returned 0 a notification, SHUTTER if a frame was captured since it began and ERROR if not, and one result
  // with the buffer status that goes with it.
  lemma TraceIsDeliveries(s0: State, steps: seq<Step>, s: State)
    requires Init(s0) && Runs(s0, steps, s)
    ensures s.trace == Deliveries(Endings(steps), s0.notifies)
  {
    RunIsTold(s0, steps, s);
  }

  // Once close() has deleted the device no call gets anywhere.
  lemma DeletedIsDead(s0: State, steps: seq<Step>, s: State, step: Step)
    requires Init(s0) && Runs(s0, steps, s) && CloseDelete in steps && Enabled(s, step)
    ensures step == Initialize || step == CloseFlag
  {
    RunIsTold(s0, steps, s);
  }

  function Results(trace: seq<Callback>, frame: nat): nat {
    if trace == [] then 0
    else
      var c := trace[|trace| - 1];
      Results(trace[..|trace| - 1], frame) + if c.Result? && c.frame == frame then 1 else 0
  }

  function Successes(cs: seq<Completion>, frame: nat): nat {
    if cs == [] then 0
    else
      var c := cs[|cs| - 1];
      Successes(cs[..|cs| - 1], frame) + if c.status == 0 && c.req.frame == frame then 1 else 0
  }

  lemma ResultsSnoc(trace: seq<Callback>, c: Callback, frame: nat)
    ensures Results(trace + [c], frame) == Results(trace, frame) + if c.Result? && c.frame == frame then 1 else 0
  {
    assert (trace + [c])[..|trace|] == trace;
  }

  lemma ResultsOfDelivery(trace: seq<Callback>, c: Completion, notifies: bool, frame: nat)
    ensures Results(trace + Delivery(c, notifies), frame)
         == Results(trace, frame) + if c.status == 0 && c.req.frame == frame then 1 else 0
  {
    var d := Delivery(c, notifies);
    if |d| == 0 {
      assert trace + d == trace;
    } else if |d| == 1 {
      ResultsSnoc(trace, d[0], frame);
      assert d == [d[0]];
    } else {
      ResultsSnoc(trace, d[0], frame);
      ResultsSnoc(trace + [d[0]], d[1], frame);
      assert trace + d == trace + [d[0]] + [d[1]];
    }
  }

  lemma {:induction false} ResultsAreSuccesses(cs: seq<Completion>, notifies: bool, frame: nat)
    ensures Results(Deliveries(cs, notifies), frame) == Successes(cs, frame)
  {
    if cs != [] {
      ResultsAreSuccesses(cs[..|cs| - 1], notifies, frame);
      ResultsOfDelivery(Deliveries(cs[..|cs| - 1], notifies), cs[|cs| - 1], notifies, frame);
    }
  }

  // Each frame gets as many results as its requests returned 0: never a lost one, never a double one.
  lemma OneResultPerSuccess(s0: State, steps: seq<Step>, s: State, frame: nat)
    requires Init(s0) && Runs(s0, steps, s)
    ensures Results(s.trace, frame) == Successes(Endings(steps), frame)
  {
    RunIsTold(s0, steps, s);
    ResultsAreSuccesses(s.completed, s.notifies, frame);
  }

  // close() has raised its flag, and no request has passed its second look at it.
  predicate ClosingDown(s: State) {
    s.closing && !s.lock.Capturing? && !s.lock.Finishing?
  }

  lemma SilentStep(s: State, step: Step)
    requires Inv(s) && ClosingDown(s) && Enabled(s, step)
    ensures ClosingDown(Apply(s, step)) && Apply(s, step).trace == s.trace
  {
    if step.ConfigureDrain? {
      ConfigureKeepsInv(s, step.setup);
    }
  }

  lemma {:induction false} ClosingSilences(s: State, steps: seq<Step>, s': State)
    requires Inv(s) && ClosingDown(s) && Runs(s, steps, s')
    ensures s'.trace == s.trace
    decreases |steps|
  {
    if steps != [] {
      StepKeepsInv(s, steps[0]);
      SilentStep(s, steps[0]);
      ClosingSilences(Apply(s, steps[0]), steps[1..], s');
    }
  }

  // Once close() has raised `closing` and the request of the moment, if any, has not passed its second look
  // at the flag, the framework never hears again.
  lemma ClosingCameraIsSilent(s0: State, before: seq<Step>, s: State, after: seq<Step>, s': State)
    requires Init(s0) && Runs(s0, before, s) && Runs(s, after, s')
    requires ClosingDown(s)
    ensures s'.trace == s.trace
  {
    RunKeepsInv(s0, before, s);
    ClosingSilences(s, after, s');
  }
}
