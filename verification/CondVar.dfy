// The futex condition variable (libmocha/bionic/pthread_cond.cpp): a 32-bit word of two flag bits and a
// counter, a snapshot taken before the mutex is released, and a pulse made of a separate add and wake.

module CondVar {
  const TWO32: nat := 0x1_0000_0000
  const STEP: nat := 4              // COND_COUNTER_STEP
  const PERIOD: nat := 0x4000_0000  // pulses after which the counter repeats

  // The word after `pulses` fetch-adds on a condition variable initialised with `flags`.
  function Word(flags: nat, pulses: nat): (w: nat)
    ensures w < TWO32
  {
    (flags + STEP * pulses) % TWO32
  }

  lemma WordKeepsFlags(flags: nat, pulses: nat)
    requires flags < STEP
    ensures Word(flags, pulses) % STEP == flags
  {
    var q := (flags + STEP * pulses) / TWO32;
    assert Word(flags, pulses) == flags + STEP * pulses - TWO32 * q;
    assert Word(flags, pulses) == flags + STEP * (pulses - PERIOD * q);
  }

  // Two words taken `later - earlier` pulses apart are equal exactly when that is a multiple of 2^30.
  lemma WordRepeats(flags: nat, earlier: nat, later: nat)
    requires earlier <= later
    ensures Word(flags, earlier) == Word(flags, later) <==> (later - earlier) % PERIOD == 0
  {
    var x, y, n := flags + STEP * earlier, flags + STEP * later, later - earlier;
    var qx, qy, qn := x / TWO32, y / TWO32, n / PERIOD;
    assert y - x == STEP * n;
    if Word(flags, earlier) == Word(flags, later) {
      assert STEP * n == TWO32 * (qy - qx);
      assert n == PERIOD * (qy - qx);
    }
    if n % PERIOD == 0 {
      assert STEP * n == TWO32 * qn;
      assert y == x + TWO32 * qn;
    }
  }

  lemma WordSucc(flags: nat, pulses: nat)
    ensures (Word(flags, pulses) + STEP) % TWO32 == Word(flags, pulses + 1)
  {
  }

  // `at` and `checked` count the pulses made when the snapshot was taken and when futex_wait compared it.
  datatype Thread =
    | Outside
    | Snapped(snapshot: nat, at: nat)               // loaded the word, then released the mutex
    | Asleep(snapshot: nat, at: nat, checked: nat)  // futex_wait found the word unchanged
    | Leaving                                       // woken, or futex_wait refused to sleep

  // An add whose wake is still to come; `stamp` is the number of pulses including it.
  datatype Pending = Pending(stamp: nat, broadcast: bool)

  datatype State = State(
    flags: nat,
    word: nat,
    pulses: nat,
    threads: seq<Thread>,
    pending: seq<Pending>)

  datatype Step =
    | Load(t: nat)                    // __pthread_cond_timedwait_relative, the snapshot
    | FutexWait(t: nat)               // the kernel's compare and sleep
    | Return(t: nat)
    | Timeout(t: nat)                 // timeout or spurious wake-up
    | Add(broadcast: bool)            // __pthread_cond_pulse, the fetch-add
    | Wake(p: nat, chosen: nat)       // __pthread_cond_pulse, the wake

  predicate SomeAsleep(s: State) {
    exists t | 0 <= t < |s.threads| :: s.threads[t].Asleep?
  }

  predicate Enabled(s: State, step: Step) {
    match step
    case Load(t) => t < |s.threads| && s.threads[t].Outside?
    case FutexWait(t) => t < |s.threads| && s.threads[t].Snapped?
    case Return(t) => t < |s.threads| && s.threads[t].Leaving?
    case Timeout(t) => t < |s.threads| && s.threads[t].Asleep?
    case Add(_) => true
    case Wake(p, chosen) =>
      // a signal wakes one sleeper, of the kernel's choice, whenever there is one
      && p < |s.pending|
      && (!s.pending[p].broadcast && SomeAsleep(s) ==> chosen < |s.threads| && s.threads[chosen].Asleep?)
  }

  function WakeAll(threads: seq<Thread>): (r: seq<Thread>)
    ensures |r| == |threads|
    ensures forall t | 0 <= t < |threads| :: r[t] == if threads[t].Asleep? then Leaving else threads[t]
  {
    seq(|threads|, t requires 0 <= t < |threads| => if threads[t].Asleep? then Leaving else threads[t])
  }

  function Apply(s: State, step: Step): State
    requires Enabled(s, step)
  {
    match step
    case Load(t) => s.(threads := s.threads[t := Snapped(s.word, s.pulses)])
    case FutexWait(t) =>
      var w := s.threads[t];
      s.(threads := s.threads[t := if s.word == w.snapshot then Asleep(w.snapshot, w.at, s.pulses) else Leaving])
    case Return(t) => s.(threads := s.threads[t := Outside])
    case Timeout(t) => s.(threads := s.threads[t := Leaving])
    case Add(broadcast) =>
      s.(word := (s.word + STEP) % TWO32,
         pulses := s.pulses + 1,
         pending := s.pending + [Pending(s.pulses + 1, broadcast)])
    case Wake(p, chosen) =>
      var pulse := s.pending[p];
      var rest := s.pending[..p] + s.pending[p + 1..];
      if pulse.broadcast then
        s.(threads := WakeAll(s.threads), pending := rest)
      else
        s.(threads := if SomeAsleep(s) then s.threads[chosen := Leaving] else s.threads, pending := rest)
  }

  predicate ThreadOk(s: State, t: nat)
    requires t < |s.threads|
  {
    match s.threads[t]
    case Snapped(snapshot, at) => at <= s.pulses && snapshot == Word(s.flags, at)
    case Asleep(snapshot, at, checked) =>
      at <= checked <= s.pulses && (checked - at) % PERIOD == 0
    case _ => true
  }

  predicate Inv(s: State) {
    && s.flags < STEP
    && s.word == Word(s.flags, s.pulses)
    && (forall p | 0 <= p < |s.pending| :: s.pending[p].stamp <= s.pulses)
    && (forall t | 0 <= t < |s.threads| :: ThreadOk(s, t))
  }

  // pthread_cond_init
  predicate Init(s: State) {
    && s.flags < STEP && s.word == s.flags && s.pulses == 0 && s.pending == []
    && forall t | 0 <= t < |s.threads| :: s.threads[t].Outside?
  }

  lemma StepKeepsInv(s: State, step: Step)
    requires Inv(s) && Enabled(s, step)
    ensures Inv(Apply(s, step)) && Apply(s, step).flags == s.flags
  {
    var s' := Apply(s, step);
    match step
    case Add(_) =>
      WordSucc(s.flags, s.pulses);
      assert forall t | 0 <= t < |s.threads| :: ThreadOk(s, t) ==> ThreadOk(s', t);
    case FutexWait(t) =>
      assert ThreadOk(s, t);
      WordRepeats(s.flags, s.threads[t].at, s.pulses);
      assert forall u | 0 <= u < |s.threads| && u != t :: ThreadOk(s, u) ==> ThreadOk(s', u);
    case _ =>
      assert forall u | 0 <= u < |s.threads| :: ThreadOk(s, u) ==> ThreadOk(s', u);
  }

  ghost predicate Runs(s: State, steps: seq<Step>, s': State)
    decreases |steps|
  {
    if steps == [] then s == s' else Enabled(s, steps[0]) && Runs(Apply(s, steps[0]), steps[1..], s')
  }

  lemma {:induction false} RunKeepsInv(s: State, steps: seq<Step>, s': State)
    requires Inv(s) && Runs(s, steps, s')
    ensures Inv(s') && s'.flags == s.flags && |s'.threads| == |s.threads|
    decreases |steps|
  {
    if steps != [] {
      StepKeepsInv(s, steps[0]);
      RunKeepsInv(Apply(s, steps[0]), steps[1..], s');
    }
  }

  lemma InitIsInv(s: State)
    requires Init(s)
    ensures Inv(s)
  {
  }

  // --- what a run comes to, told from its steps alone ---

  // A run ends with its last step.
  lemma {:induction false} RunsSnoc(s: State, steps: seq<Step>, s': State) returns (before: State)
    requires Runs(s, steps, s') && steps != []
    ensures Runs(s, steps[..|steps| - 1], before)
    ensures Enabled(before, steps[|steps| - 1]) && s' == Apply(before, steps[|steps| - 1])
    decreases |steps|
  {
    if |steps| == 1 {
      before := s;
    } else {
      before := RunsSnoc(Apply(s, steps[0]), steps[1..], s');
      assert steps[1..][..|steps| - 2] == steps[..|steps| - 1][1..];
    }
  }

  // How many pulses have been made.
  function Pulses(steps: seq<Step>): nat {
    if steps == [] then 0
    else Pulses(steps[..|steps| - 1]) + if steps[|steps| - 1].Add? then 1 else 0
  }

  // How many of them since thread t last took a snapshot.
  function PulsesSince(steps: seq<Step>, t: nat): nat {
    if steps == [] || steps[|steps| - 1] == Load(t) then 0
    else PulsesSince(steps[..|steps| - 1], t) + if steps[|steps| - 1].Add? then 1 else 0
  }

  // The adds whose wake is still to come, oldest first: true for a broadcast.
  function WakesDue(steps: seq<Step>): seq<bool> {
    if steps == [] then []
    else
      var due := WakesDue(steps[..|steps| - 1]);
      match steps[|steps| - 1]
      case Add(broadcast) => due + [broadcast]
      case Wake(p, _) => if p < |due| then due[..p] + due[p + 1..] else due
      case _ => due
  }

  // The last step is the wake of a broadcast.
  predicate EndsInBroadcast(steps: seq<Step>) {
    && steps != [] && steps[|steps| - 1].Wake?
    && var p, due := steps[|steps| - 1].p, WakesDue(steps[..|steps| - 1]); p < |due| && due[p]
  }

  datatype Phase = Away | Undecided | Sleeping | Released

  // What should have become of thread t: it sleeps if the pulses since its snapshot are a multiple of 2^30, until its
  // time-out, any broadcast, or a signal that falls on it.
  function PhaseOf(steps: seq<Step>, t: nat): Phase {
    if steps == [] then Away
    else
      var before := steps[..|steps| - 1];
      match steps[|steps| - 1]
      case Load(u) => if u == t then Undecided else PhaseOf(before, t)
      case FutexWait(u) =>
        if u != t then PhaseOf(before, t) else if PulsesSince(before, t) % PERIOD == 0 then Sleeping else Released
      case Return(u) => if u == t then Away else PhaseOf(before, t)
      case Timeout(u) => if u == t then Released else PhaseOf(before, t)
      case Add(_) => PhaseOf(before, t)
      case Wake(_, chosen) =>
        if PhaseOf(before, t) == Sleeping && (EndsInBroadcast(steps) || chosen == t) then Released
        else PhaseOf(before, t)
  }

  function PhaseIn(thread: Thread): Phase {
    match thread
    case Outside => Away
    case Snapped(_, _) => Undecided
    case Asleep(_, _, _) => Sleeping
    case Leaving => Released
  }

  predicate Told(s: State, steps: seq<Step>) {
    && s.pulses == Pulses(steps)
    && |s.pending| == |WakesDue(steps)|
    && forall p | 0 <= p < |s.pending| :: s.pending[p].broadcast == WakesDue(steps)[p]
  }

  predicate ThreadTold(s: State, steps: seq<Step>, t: nat)
    requires t < |s.threads|
  {
    && PhaseIn(s.threads[t]) == PhaseOf(steps, t)
    && (s.threads[t].Snapped? ==> s.threads[t].at + PulsesSince(steps, t) == s.pulses)
  }

  lemma StepIsTold(s: State, steps: seq<Step>, step: Step)
    requires Enabled(s, step) && Told(s, steps)
    ensures Told(Apply(s, step), steps + [step])
  {
    assert (steps + [step])[..|steps|] == steps;
  }

  // The word tells a waiter apart from the pulses it has missed, and everything else is as it should be.
  lemma ThreadStepIsTold(s: State, steps: seq<Step>, step: Step, t: nat)
    requires Inv(s) && Enabled(s, step) && Told(s, steps) && t < |s.threads| && ThreadTold(s, steps, t)
    ensures t < |Apply(s, step).threads| && ThreadTold(Apply(s, step), steps + [step], t)
  {
    assert (steps + [step])[..|steps|] == steps;
    assert ThreadOk(s, t);
    if s.threads[t].Snapped? {
      WordRepeats(s.flags, s.threads[t].at, s.pulses);
    }
  }

  lemma {:induction false} RunIsTold(s0: State, steps: seq<Step>, s: State, t: nat)
    requires Init(s0) && Runs(s0, steps, s) && t < |s0.threads|
    ensures Inv(s) && Told(s, steps) && |s.threads| == |s0.threads| && ThreadTold(s, steps, t)
    decreases |steps|
  {
    if steps == [] {
      InitIsInv(s0);
    } else {
      var n := |steps| - 1;
      var before := RunsSnoc(s0, steps, s);
      RunIsTold(s0, steps[..n], before, t);
      StepKeepsInv(before, steps[n]);
      assert steps == steps[..n] + [steps[n]];
      StepIsTold(before, steps[..n], steps[n]);
      ThreadStepIsTold(before, steps[..n], steps[n], t);
    }
  }

  // --- the promises, over every run ---

  // In every interleaving every thread is where the ideal condition variable, which counts pulses and does not lose
  // the upper bits, would have it; and every add has left exactly one wake to come.
  lemma RefinesCounting(s0: State, steps: seq<Step>, s: State, t: nat)
    requires Init(s0) && Runs(s0, steps, s) && t < |s0.threads|
    ensures |s.threads| == |s0.threads| && PhaseIn(s.threads[t]) == PhaseOf(steps, t)
    ensures s.pulses == Pulses(steps) && |s.pending| == |WakesDue(steps)|
    ensures forall p | 0 <= p < |s.pending| :: s.pending[p].broadcast == WakesDue(steps)[p]
  {
    RunIsTold(s0, steps, s, t);
  }

  // The wake of a broadcast leaves no thread asleep and touches no other.
  lemma BroadcastWakesAll(s: State, p: nat, chosen: nat, t: nat)
    requires Enabled(s, Wake(p, chosen)) && s.pending[p].broadcast && t < |s.threads|
    ensures var s' := Apply(s, Wake(p, chosen));
            && |s'.threads| == |s.threads| && !s'.threads[t].Asleep?
            && (!s.threads[t].Asleep? ==> s'.threads[t] == s.threads[t])
            && s'.word == s.word && s'.pending == s.pending[..p] + s.pending[p + 1..]
  {
  }

  // The flag bits never change, whatever the counter does.
  lemma FlagsNeverChange(s0: State, steps: seq<Step>, s: State)
    requires Init(s0) && Runs(s0, steps, s)
    ensures s.word % STEP == s0.flags && s.word < TWO32
  {
    InitIsInv(s0);
    RunKeepsInv(s0, steps, s);
    WordKeepsFlags(s.flags, s.pulses);
  }

  // A waiter falls asleep in spite of pulses made since its snapshot exactly when they are a multiple of 2^30.
  lemma SleepsExactlyWhen(s0: State, steps: seq<Step>, s: State, t: nat)
    requires Init(s0) && Runs(s0, steps, s) && Enabled(s, FutexWait(t))
    ensures s.threads[t].at <= s.pulses
    ensures Apply(s, FutexWait(t)).threads[t].Asleep? <==> (s.pulses - s.threads[t].at) % PERIOD == 0
  {
    InitIsInv(s0);
    RunKeepsInv(s0, steps, s);
    assert ThreadOk(s, t);
    WordRepeats(s.flags, s.threads[t].at, s.pulses);
  }

  // The pulses between the last snapshot of thread t and its futex check.
  function Missed(steps: seq<Step>, t: nat): nat {
    if steps == [] then 0
    else if steps[|steps| - 1] == FutexWait(t) then PulsesSince(steps[..|steps| - 1], t)
    else Missed(steps[..|steps| - 1], t)
  }

  // Since the last snapshot of thread t there was a pulse, and after it the wake of a broadcast.
  predicate BroadcastSince(steps: seq<Step>, t: nat) {
    && steps != [] && steps[|steps| - 1] != Load(t)
    && (BroadcastSince(steps[..|steps| - 1], t)
        || (EndsInBroadcast(steps) && PulsesSince(steps[..|steps| - 1], t) > 0))
  }

  lemma {:induction false} SleeperMissedAll(steps: seq<Step>, t: nat)
    requires PhaseOf(steps, t) == Sleeping
    ensures Missed(steps, t) % PERIOD == 0 && Missed(steps, t) <= PulsesSince(steps, t)
    ensures BroadcastSince(steps, t) ==> Missed(steps, t) > 0
  {
    var before, step := steps[..|steps| - 1], steps[|steps| - 1];
    if step == FutexWait(t) {
      if BroadcastSince(before, t) {
        PulseBeforeBroadcast(before, t);
      }
    } else {
      SleeperMissedAll(before, t);
    }
  }

  lemma {:induction false} PulseBeforeBroadcast(steps: seq<Step>, t: nat)
    requires BroadcastSince(steps, t)
    ensures PulsesSince(steps, t) > 0
  {
    var before := steps[..|steps| - 1];
    if BroadcastSince(before, t) {
      PulseBeforeBroadcast(before, t);
    }
  }

  // A thread that sleeps although a broadcast was made and delivered since its snapshot has missed a positive multiple
  // of 2^30 pulses before its futex check. All of this is told from the steps of the run.
  lemma BroadcastLeavesNobody(s0: State, steps: seq<Step>, s: State, t: nat)
    requires Init(s0) && Runs(s0, steps, s) && t < |s.threads|
    requires s.threads[t].Asleep? && BroadcastSince(steps, t)
    ensures Missed(steps, t) > 0 && Missed(steps, t) % PERIOD == 0
  {
    InitIsInv(s0);
    RunKeepsInv(s0, steps, s);
    RunIsTold(s0, steps, s, t);
    SleeperMissedAll(steps, t);
  }

  // The wake of a signal lets a sleeper go if there is one; if there is none, no waiter that took its
  // snapshot before the add is asleep, and its own futex check will send it on (SleepsExactlyWhen).
  lemma SignalReleasesOne(s0: State, steps: seq<Step>, s: State, p: nat, chosen: nat, t: nat)
    requires Init(s0) && Runs(s0, steps, s) && Enabled(s, Wake(p, chosen)) && !s.pending[p].broadcast
    requires t < |s.threads| && (s.threads[t].Snapped? || s.threads[t].Asleep?) && s.threads[t].at < s.pending[p].stamp
    ensures var s' := Apply(s, Wake(p, chosen));
            || (chosen < |s.threads| && s.threads[chosen].Asleep? && s'.threads == s.threads[chosen := Leaving])
            || (&& s'.threads == s.threads && s.threads[t].Snapped? && s.pulses > s.threads[t].at
                && (Apply(s', FutexWait(t)).threads[t].Leaving? <==> (s.pulses - s.threads[t].at) % PERIOD != 0))
  {
    InitIsInv(s0);
    RunKeepsInv(s0, steps, s);
    assert ThreadOk(s, t);
    if !SomeAsleep(s) {
      WordRepeats(s.flags, s.threads[t].at, s.pulses);
    }
  }

  // --- the lost wake-up, exactly ---

  function Adds(n: nat): (steps: seq<Step>)
    ensures |steps| == n
  {
    seq(n, _ => Add(true))
  }

  lemma {:induction false} AddsRun(s: State, n: nat) returns (s': State)
    requires Inv(s)
    ensures Runs(s, Adds(n), s') && Inv(s')
    ensures s'.pulses == s.pulses + n && s'.threads == s.threads && s'.flags == s.flags
    decreases n
  {
    if n == 0 {
      s' := s;
    } else {
      StepKeepsInv(s, Add(true));
      s' := AddsRun(Apply(s, Add(true)), n - 1);
      assert Adds(n)[1..] == Adds(n - 1);
    }
  }

  // For every n: n pulses that fit between a snapshot and its futex check are missed exactly when n is a
  // multiple of 2^30 (the source's comment puts the number at UINT_MAX / 2).
  lemma LostWakeupExactly(s: State, t: nat, n: nat) returns (s': State)
    requires Inv(s) && Enabled(s, Load(t))
    ensures Runs(Apply(s, Load(t)), Adds(n), s') && Enabled(s', FutexWait(t))
    ensures s'.pulses == s.pulses + n
    ensures Apply(s', FutexWait(t)).threads[t].Asleep? <==> n % PERIOD == 0
  {
    var snapped := Apply(s, Load(t));
    StepKeepsInv(s, Load(t));
    s' := AddsRun(snapped, n);
    WordRepeats(s.flags, s.pulses, s.pulses + n);
  }
}
