// The contrast-detection autofocus scan of the camera pipeline (camera/CameraPipeline.cpp).

module FocusScan {
  import opened OrderStatistics

  const SWEEP_MIN: int := 140
  const SWEEP_MAX: int := 640
  const COARSE_STEP: int := 50
  const FINE_STEP: int := 10
  const MAX_FAILS: nat := 4
  const MAX_ENERGIES: nat := 40
  const DEFAULT_POS: int := 400

  datatype Sample = Sample(pos: int, energy: int)

  // The scan so far: lens commands given, samples that could be trusted, the running best and the failures
  // in a row.
  datatype Scan = Scan(commands: seq<int>, samples: seq<Sample>, best: int, bestPos: int, fails: nat)

  const START := Scan([], [], 0, DEFAULT_POS, 0)

  // Move to `pos`, measure, and note the energy if it is positive.
  function Visit(s: Scan, pos: int, energy: int): Scan {
    var moved := s.(commands := s.commands + [pos]);
    if energy <= 0 then moved.(fails := s.fails + 1)
    else
      var noted := moved.(
        fails := 0,
        samples := if |s.samples| < MAX_ENERGIES then s.samples + [Sample(pos, energy)] else s.samples);
      if energy > s.best then noted.(best := energy, bestPos := pos) else noted
  }

  predicate IsFirstMax(samples: seq<Sample>, i: nat) {
    && i < |samples|
    && (forall j | 0 <= j < i :: samples[j].energy < samples[i].energy)
    && (forall j | i < j < |samples| :: samples[j].energy <= samples[i].energy)
  }

  predicate Within(commands: seq<int>) {
    forall i | 0 <= i < |commands| :: SWEEP_MIN <= commands[i] <= SWEEP_MAX
  }

  ghost predicate BestIsFirstMax(s: Scan) {
    && (s.samples == [] ==> s.best == 0 && s.bestPos == DEFAULT_POS)
    && (s.samples != [] ==> exists i: nat :: IsFirstMax(s.samples, i) && s.samples[i] == Sample(s.bestPos, s.best))
  }

  predicate SamplesTrusted(s: Scan) {
    forall i | 0 <= i < |s.samples| :: s.samples[i].energy > 0 && s.samples[i].pos in s.commands
  }

  ghost predicate ScanOk(s: Scan) {
    && Within(s.commands) && BestIsFirstMax(s) && SamplesTrusted(s)
    && |s.samples| <= |s.commands| && SWEEP_MIN <= s.bestPos <= SWEEP_MAX && s.best >= 0
    && (s.best == 0 <==> s.samples == [])
  }

  lemma FirstMaxAppend(samples: seq<Sample>, i: nat, x: Sample)
    requires IsFirstMax(samples, i)
    ensures IsFirstMax(samples + [x], if x.energy > samples[i].energy then |samples| else i)
  {
  }

  lemma VisitKeepsScanOk(s: Scan, pos: int, energy: int)
    requires ScanOk(s) && SWEEP_MIN <= pos <= SWEEP_MAX && |s.commands| < MAX_ENERGIES
    ensures ScanOk(Visit(s, pos, energy))
  {
    if energy > 0 {
      var s' := Visit(s, pos, energy);
      if s.samples == [] {
        assert IsFirstMax(s'.samples, 0);
      } else {
        var i: nat :| IsFirstMax(s.samples, i) && s.samples[i] == Sample(s.bestPos, s.best);
        FirstMaxAppend(s.samples, i, Sample(pos, energy));
        var k := if energy > s.best then |s.samples| else i;
        assert IsFirstMax(s'.samples, k) && s'.samples[k] == Sample(s'.bestPos, s'.best);
      }
    }
  }

  // Of the first n measurements those that can be trusted, in order: told from the commands and the meter alone.
  ghost function Trusted(commands: seq<int>, meter: nat -> int, n: nat): seq<Sample>
    requires n <= |commands|
  {
    if n == 0 then []
    else
      Trusted(commands, meter, n - 1) + (if meter(n - 1) > 0 then [Sample(commands[n - 1], meter(n - 1))] else [])
  }

  // How many of the n measurements failed at the end, without one that did not.
  ghost function FailsInRow(meter: nat -> int, n: nat): nat {
    if n == 0 || meter(n - 1) > 0 then 0 else FailsInRow(meter, n - 1) + 1
  }

  lemma {:induction false} TrustedPrefix(commands: seq<int>, more: seq<int>, meter: nat -> int, n: nat)
    requires n <= |commands|
    ensures Trusted(commands + more, meter, n) == Trusted(commands, meter, n)
  {
    if n > 0 {
      TrustedPrefix(commands, more, meter, n - 1);
    }
  }

  // s keeps exactly the trusted measurements of its commands and counts the failures since the last of them.
  ghost predicate Told(s: Scan, meter: nat -> int) {
    s.samples == Trusted(s.commands, meter, |s.commands|) && s.fails == FailsInRow(meter, |s.commands|)
  }

  lemma VisitIsTold(s: Scan, pos: int, meter: nat -> int)
    requires Told(s, meter) && |s.samples| < MAX_ENERGIES
    ensures Told(Visit(s, pos, meter(|s.commands|)), meter)
  {
    TrustedPrefix(s.commands, [pos], meter, |s.commands|);
    assert (s.commands + [pos])[|s.commands|] == pos;
  }

  predicate NoStallAt(n: nat, fails: nat, k: nat) {
    n < k ==> fails < MAX_FAILS
  }

  // No four failures in a row before measurement k.
  ghost predicate NoStall(meter: nat -> int, k: nat) {
    forall n: nat :: NoStallAt(n, FailsInRow(meter, n), k)
  }

  function CoarsePositions(k: nat): (s: seq<int>)
    ensures |s| == k && forall i | 0 <= i < k :: s[i] == 140 + 50 * i
  {
    seq(k, i => SWEEP_MIN + COARSE_STEP * i)
  }

  lemma CoarseSnoc(k: nat, meter: nat -> int)
    requires NoStall(meter, k) && FailsInRow(meter, k) < MAX_FAILS
    ensures CoarsePositions(k + 1) == CoarsePositions(k) + [SWEEP_MIN + COARSE_STEP * k]
    ensures NoStall(meter, k + 1)
  {
    forall n: nat ensures NoStallAt(n, FailsInRow(meter, n), k + 1) {
      assert NoStallAt(n, FailsInRow(meter, n), k);
    }
  }

  // s is sound and records what the commands it lists led to.
  ghost predicate Faithful(s: Scan, meter: nat -> int) {
    ScanOk(s) && Told(s, meter)
  }

  lemma VisitFaithful(s: Scan, pos: int, meter: nat -> int)
    requires Faithful(s, meter) && SWEEP_MIN <= pos <= SWEEP_MAX && |s.commands| < MAX_ENERGIES
    ensures Faithful(Visit(s, pos, meter(|s.commands|)), meter)
    ensures Visit(s, pos, meter(|s.commands|)).commands == s.commands + [pos]
  {
    VisitKeepsScanOk(s, pos, meter(|s.commands|));
    VisitIsTold(s, pos, meter);
  }

  lemma StartIsFaithful(meter: nat -> int)
    ensures Faithful(START, meter)
  {
  }

  function FinePos(start: int, k: nat): int {
    start + FINE_STEP * k
  }

  function FineStart(bestPos: int): int {
    if bestPos - COARSE_STEP < SWEEP_MIN then SWEEP_MIN else bestPos - COARSE_STEP
  }

  function FineEnd(bestPos: int): int {
    if bestPos + COARSE_STEP > SWEEP_MAX then SWEEP_MAX else bestPos + COARSE_STEP
  }

  // How many fine positions the clamped neighbourhood of `bestPos` has.
  function FineCount(bestPos: int): nat
    requires SWEEP_MIN <= bestPos <= SWEEP_MAX
  {
    (FineEnd(bestPos) - FineStart(bestPos)) / FINE_STEP + 1
  }

  // The coarse sweep leaves the best on a multiple of the fine step.
  predicate OnFineGrid(pos: int) {
    pos % FINE_STEP == 0
  }

  // All multiples of 10 within 50 of the coarse best and within the sweep have been measured, but for the default best
  // that no sample ever set.
  predicate NeighbourhoodDone(commands: seq<int>, best: int) {
    forall p: int | p % 10 == 0 && best - 50 <= p <= best + 50 && 140 <= p <= 640 :: p in commands || p == 400
  }

  lemma FineIndex(p: int, start: int) returns (k: int)
    requires OnFineGrid(p) && OnFineGrid(start)
    ensures p == start + FINE_STEP * k
  {
    k := p / FINE_STEP - start / FINE_STEP;
  }

  lemma CoveredIsDone(commands: seq<int>, best: int)
    requires SWEEP_MIN <= best <= SWEEP_MAX && OnFineGrid(best)
    requires Covered(commands, FineStart(best), FineCount(best))
    ensures NeighbourhoodDone(commands, best)
  {
    forall p: int | p % 10 == 0 && best - 50 <= p <= best + 50 && 140 <= p <= 640 ensures p in commands || p == 400 {
      var k := FineIndex(p, FineStart(best));
      assert FinePos(FineStart(best), k) == p;
    }
  }

  // Some of the measurements from number n to number m beat the energy.
  ghost predicate Beaten(meter: nat -> int, n: nat, m: nat, energy: int) {
    exists i: nat | n <= i < m :: meter(i) > energy
  }

  // The commands from number n on ascend within 50 of `best`; those before number `turn` are below it, the others not.
  predicate Ascent(commands: seq<int>, n: nat, turn: nat, best: int) {
    && n <= turn <= |commands|
    && (forall i | n <= i < turn :: best - 50 <= commands[i] < best)
    && (forall i | turn <= i < |commands| :: best <= commands[i] <= best + 50)
    && (forall i, j | n <= i < j < |commands| :: commands[i] < commands[j])
  }

  // `best` is among them.
  predicate Again(commands: seq<int>, turn: nat, best: int) {
    turn < |commands| && commands[turn] == best
  }

  // The fine sweep ascends, and measures the coarse best again if and only if a position in front of it has beaten it.
  ghost predicate FineOrder(s: Scan, coarse: Scan, meter: nat -> int, turn: nat) {
    var n := |coarse.commands|;
    && coarse.commands <= s.commands && Ascent(s.commands, n, turn, coarse.bestPos)
    && (s.fails < MAX_FAILS ==>
          (Again(s.commands, turn, coarse.bestPos) <==> Beaten(meter, n, turn, coarse.best)))
  }

  // The same in the course of the sweep, before position `pos`.
  predicate AscentTo(commands: seq<int>, n: nat, turn: nat, best: int, pos: int) {
    && Ascent(commands, n, turn, best)
    && (n < |commands| ==> commands[|commands| - 1] < pos)
    && (pos <= best ==> turn == |commands|)
  }

  ghost predicate LeadSoFar(s: Scan, coarse: Scan, beaten: bool, pos: int, turn: nat) {
    && (s.bestPos == coarse.bestPos || s.bestPos < pos)
    && (pos <= coarse.bestPos ==> if beaten then s.bestPos != coarse.bestPos && s.best > coarse.best
                                  else s.bestPos == coarse.bestPos && s.best == coarse.best)
    && (pos > coarse.bestPos ==> (Again(s.commands, turn, coarse.bestPos) <==> beaten))
  }

  ghost predicate FineSoFar(s: Scan, coarse: Scan, meter: nat -> int, pos: int, turn: nat) {
    var n := |coarse.commands|;
    && coarse.commands <= s.commands && AscentTo(s.commands, n, turn, coarse.bestPos, pos)
    && LeadSoFar(s, coarse, Beaten(meter, n, turn, coarse.best), pos, turn)
  }

  lemma BeatenSnoc(meter: nat -> int, n: nat, m: nat, energy: int)
    requires n <= m
    ensures Beaten(meter, n, m + 1, energy) <==> Beaten(meter, n, m, energy) || meter(m) > energy
  {
    if meter(m) > energy {
      assert n <= m < m + 1;
    }
  }

  lemma FineSkipped(s: Scan, coarse: Scan, meter: nat -> int, pos: int, turn: nat)
    requires FineSoFar(s, coarse, meter, pos, turn) && pos == s.bestPos
    ensures FineSoFar(s, coarse, meter, pos + FINE_STEP, turn)
  {
  }

  lemma BeforeOnGrid(pos: int, best: int)
    requires OnFineGrid(pos) && OnFineGrid(best) && pos < best
    ensures pos + FINE_STEP <= best
  {
  }

  lemma AscentSnoc(commands: seq<int>, n: nat, turn: nat, best: int, pos: int)
    requires AscentTo(commands, n, turn, best, pos) && best - 50 <= pos <= best + 50
    requires pos < best ==> pos + FINE_STEP <= best
    ensures AscentTo(commands + [pos], n, if pos < best then turn + 1 else turn, best, pos + FINE_STEP)
    ensures pos >= best ==>
      (Again(commands + [pos], turn, best) <==> Again(commands, turn, best) || (pos == best && turn == |commands|))
  {
    var after := commands + [pos];
    forall i, j | n <= i < j < |after| ensures after[i] < after[j] {
    }
  }

  lemma LeadSnoc(s: Scan, coarse: Scan, beaten: bool, pos: int, turn: nat, energy: int)
    requires LeadSoFar(s, coarse, beaten, pos, turn) && coarse.best >= 0 && pos != s.bestPos && turn <= |s.commands|
    requires pos < coarse.bestPos ==> pos + FINE_STEP <= coarse.bestPos
    requires pos <= coarse.bestPos ==> turn == |s.commands|
    requires pos > coarse.bestPos ==> (Again(s.commands + [pos], turn, coarse.bestPos) <==> beaten)
    ensures var t := Visit(s, pos, energy);
            if pos < coarse.bestPos then LeadSoFar(t, coarse, beaten || energy > coarse.best, pos + FINE_STEP, turn + 1)
            else LeadSoFar(t, coarse, beaten, pos + FINE_STEP, turn)
  {
    assert Visit(s, pos, energy).commands == s.commands + [pos];
  }

  lemma FineMeasured(s: Scan, coarse: Scan, meter: nat -> int, pos: int, turn: nat) returns (turn': nat)
    requires FineSoFar(s, coarse, meter, pos, turn) && coarse.best >= 0 && pos != s.bestPos
    requires coarse.bestPos - 50 <= pos <= coarse.bestPos + 50
    requires pos < coarse.bestPos ==> pos + FINE_STEP <= coarse.bestPos
    ensures FineSoFar(Visit(s, pos, meter(|s.commands|)), coarse, meter, pos + FINE_STEP, turn')
  {
    var n := |coarse.commands|;
    turn' := if pos < coarse.bestPos then turn + 1 else turn;
    BeatenSnoc(meter, n, turn, coarse.best);
    AscentSnoc(s.commands, n, turn, coarse.bestPos, pos);
    LeadSnoc(s, coarse, Beaten(meter, n, turn, coarse.best), pos, turn, meter(|s.commands|));
    assert Visit(s, pos, meter(|s.commands|)).commands == s.commands + [pos];
  }

  // The fine sweep from position `pos` on.
  ghost function FineRun(s: Scan, meter: nat -> int, pos: int, end: int): Scan
    decreases end - pos
  {
    if pos > end then s
    else if pos == s.bestPos then FineRun(s, meter, pos + FINE_STEP, end)
    else
      var t := Visit(s, pos, meter(|s.commands|));
      if t.fails >= MAX_FAILS then t else FineRun(t, meter, pos + FINE_STEP, end)
  }

  lemma {:induction false} FineRunOrder(s: Scan, coarse: Scan, meter: nat -> int, pos: int, end: int, turn: nat)
    returns (turn': nat)
    requires FineSoFar(s, coarse, meter, pos, turn) && coarse.best >= 0 && OnFineGrid(pos) && OnFineGrid(coarse.bestPos)
    requires coarse.bestPos - 50 <= pos && coarse.bestPos <= end <= coarse.bestPos + 50
    ensures FineOrder(FineRun(s, meter, pos, end), coarse, meter, turn')
    decreases end - pos
  {
    if pos > end {
      turn' := turn;
    } else if pos == s.bestPos {
      FineSkipped(s, coarse, meter, pos, turn);
      turn' := FineRunOrder(s, coarse, meter, pos + FINE_STEP, end, turn);
    } else {
      if pos < coarse.bestPos {
        BeforeOnGrid(pos, coarse.bestPos);
      }
      turn' := FineMeasured(s, coarse, meter, pos, turn);
      var t := Visit(s, pos, meter(|s.commands|));
      if t.fails < MAX_FAILS {
        turn' := FineRunOrder(t, coarse, meter, pos + FINE_STEP, end, turn');
      }
    }
  }

  // The fine sweep ascends through the neighbourhood of the coarse best. It is said to skip the coarse best as already
  // measured; it measures it again exactly when a position in front of it has beaten it.
  lemma FineSweepOrder(coarse: Scan, meter: nat -> int) returns (turn: nat)
    requires SWEEP_MIN <= coarse.bestPos <= SWEEP_MAX && OnFineGrid(coarse.bestPos) && coarse.best >= 0
    ensures FineOrder(FineRun(coarse, meter, FineStart(coarse.bestPos), FineEnd(coarse.bestPos)), coarse, meter, turn)
  {
    turn := FineRunOrder(coarse, coarse, meter, FineStart(coarse.bestPos), FineEnd(coarse.bestPos), |coarse.commands|);
  }

  // The first n fine positions have all been measured, but for the default best that no sample ever set.
  predicate Covered(commands: seq<int>, start: int, n: nat) {
    forall k: nat | k < n :: FinePos(start, k) in commands || FinePos(start, k) == DEFAULT_POS
  }

  lemma CoveredNext(before: seq<int>, after: seq<int>, start: int, n: nat)
    requires Covered(before, start, n) && before <= after
    requires FinePos(start, n) in after || FinePos(start, n) == DEFAULT_POS
    ensures Covered(after, start, n + 1)
  {
    forall k: nat | k < n + 1 ensures FinePos(start, k) in after || FinePos(start, k) == DEFAULT_POS {
      if k < n && FinePos(start, k) in before {
        var i :| 0 <= i < |before| && before[i] == FinePos(start, k);
        assert after[i] == FinePos(start, k);
      }
    }
  }

  ghost function FineStep(s: Scan, meter: nat -> int, pos: int): Scan {
    if pos == s.bestPos then s else Visit(s, pos, meter(|s.commands|))
  }

  predicate BestKnown(s: Scan) {
    s.bestPos in s.commands || s.bestPos == DEFAULT_POS
  }

  lemma FineStepOk(s: Scan, meter: nat -> int, pos: int)
    requires BestKnown(s)
    ensures var t := FineStep(s, meter, pos);
      && BestKnown(t) && s.commands <= t.commands && |t.commands| <= |s.commands| + 1
      && (pos in t.commands || pos == DEFAULT_POS)
  {
    if pos != s.bestPos {
      assert Visit(s, pos, meter(|s.commands|)).commands == s.commands + [pos];
    }
  }

  predicate CoveredUpTo(commands: seq<int>, start: int, n: nat, end: int) {
    Covered(commands, start, n) && end < FinePos(start, n) <= end + FINE_STEP
  }

  // The fine sweep from its n-th position on, the first n being done, gets all of them done.
  lemma {:induction false} FineRunCovers(s: Scan, meter: nat -> int, start: int, n: nat, end: int) returns (k: nat)
    requires BestKnown(s) && Covered(s.commands, start, n) && FinePos(start, n) <= end + FINE_STEP
    ensures var r := FineRun(s, meter, FinePos(start, n), end);
      s.commands <= r.commands && (r.fails >= MAX_FAILS || CoveredUpTo(r.commands, start, k, end))
    decreases end - FinePos(start, n)
  {
    var pos := FinePos(start, n);
    if pos > end {
      k := n;
    } else {
      var t := FineStep(s, meter, pos);
      FineStepOk(s, meter, pos);
      CoveredNext(s.commands, t.commands, start, n);
      if pos == s.bestPos || t.fails < MAX_FAILS {
        k := FineRunCovers(t, meter, start, n + 1, end);
      } else {
        k := n;
      }
    }
  }

  lemma FineSweepCovers(coarse: Scan, meter: nat -> int)
    requires BestKnown(coarse) && SWEEP_MIN <= coarse.bestPos <= SWEEP_MAX && OnFineGrid(coarse.bestPos)
    ensures var r := FineRun(coarse, meter, FineStart(coarse.bestPos), FineEnd(coarse.bestPos));
      coarse.commands <= r.commands && (r.fails >= MAX_FAILS || NeighbourhoodDone(r.commands, coarse.bestPos))
  {
    var start, end := FineStart(coarse.bestPos), FineEnd(coarse.bestPos);
    var r := FineRun(coarse, meter, start, end);
    var n := FineRunCovers(coarse, meter, start, 0, end);
    if r.fails < MAX_FAILS {
      FinePositionsDone(coarse.bestPos, n);
      CoveredIsDone(r.commands, coarse.bestPos);
    }
  }

  // A sweep of at most `left` positions gives at most that many commands.
  lemma {:induction false} FineRunLength(s: Scan, meter: nat -> int, pos: int, end: int, left: nat)
    requires end < pos + FINE_STEP * left
    ensures |FineRun(s, meter, pos, end).commands| <= |s.commands| + left
    decreases end - pos
  {
    if pos <= end {
      if pos == s.bestPos {
        FineRunLength(s, meter, pos + FINE_STEP, end, left - 1);
      } else {
        FineRunLength(Visit(s, pos, meter(|s.commands|)), meter, pos + FINE_STEP, end, left - 1);
      }
    }
  }

  lemma {:induction false} FineRunFaithful(s: Scan, meter: nat -> int, pos: int, end: int, left: nat, r: Scan)
    requires Faithful(s, meter) && SWEEP_MIN <= pos && end <= SWEEP_MAX && r == FineRun(s, meter, pos, end)
    requires end < pos + FINE_STEP * left && |s.commands| + left <= MAX_ENERGIES
    ensures Faithful(r, meter)
    decreases end - pos
  {
    if pos > end {
    } else if pos == s.bestPos {
      FineRunFaithful(s, meter, pos + FINE_STEP, end, left - 1, r);
    } else {
      var t := Visit(s, pos, meter(|s.commands|));
      VisitFaithful(s, pos, meter);
      if t.fails < MAX_FAILS {
        FineRunFaithful(t, meter, pos + FINE_STEP, end, left - 1, r);
      }
    }
  }

  lemma FineSweepOk(coarse: Scan, meter: nat -> int)
    requires Faithful(coarse, meter) && |coarse.commands| <= 11
    requires SWEEP_MIN <= coarse.bestPos <= SWEEP_MAX && OnFineGrid(coarse.bestPos)
    ensures var r := FineRun(coarse, meter, FineStart(coarse.bestPos), FineEnd(coarse.bestPos));
      && Faithful(r, meter) && |r.commands| <= |coarse.commands| + 11 && coarse.commands <= r.commands
      && (r.fails >= MAX_FAILS || NeighbourhoodDone(r.commands, coarse.bestPos))
  {
    BestWasVisited(coarse);
    FineSweepCovers(coarse, meter);
    FineRunFaithful(coarse, meter, FineStart(coarse.bestPos), FineEnd(coarse.bestPos), 11,
                    FineRun(coarse, meter, FineStart(coarse.bestPos), FineEnd(coarse.bestPos)));
    FineRunLength(coarse, meter, FineStart(coarse.bestPos), FineEnd(coarse.bestPos), 11);
  }

  lemma FinePositionsDone(bestPos: int, n: nat)
    requires SWEEP_MIN <= bestPos <= SWEEP_MAX
    requires FineEnd(bestPos) < FinePos(FineStart(bestPos), n) <= FineEnd(bestPos) + FINE_STEP
    ensures n == FineCount(bestPos)
  {
  }

  lemma BestWasVisited(s: Scan)
    requires ScanOk(s)
    ensures BestKnown(s)
  {
    if s.samples != [] {
      var i: nat :| IsFirstMax(s.samples, i) && s.samples[i] == Sample(s.bestPos, s.best);
    }
  }

  // After k coarse positions: the scan is that of 140, 190, ..., and no four failures in a row came before the last.
  ghost predicate CoarseSoFar(s: Scan, meter: nat -> int, k: nat) {
    Faithful(s, meter) && s.commands == CoarsePositions(k) && NoStall(meter, k)
  }

  // Both sweeps: the coarse one through its eleven positions or until it stalls, then the fine one around its best.
  ghost predicate Swept(coarse: Scan, s: Scan, meter: nat -> int, k: nat) {
    && CoarseSoFar(coarse, meter, k) && 1 <= k <= 11 && (k < 11 ==> coarse.fails == MAX_FAILS)
    && s == FineRun(coarse, meter, FineStart(coarse.bestPos), FineEnd(coarse.bestPos))
    && (s.fails >= MAX_FAILS || NeighbourhoodDone(s.commands, coarse.bestPos))
  }

  // The coarse sweep leaves a best that the fine sweep can start from.
  lemma CoarseBest(s: Scan)
    requires ScanOk(s) && s.commands == CoarsePositions(|s.commands|)
    ensures SWEEP_MIN <= s.bestPos <= SWEEP_MAX && OnFineGrid(s.bestPos) && s.best >= 0
  {
    BestWasVisited(s);
    if s.bestPos in s.commands {
      var i :| 0 <= i < |s.commands| && s.commands[i] == s.bestPos;
      CoarseOnGrid(i);
    }
  }

  lemma CoarseOnGrid(i: int)
    ensures OnFineGrid(SWEEP_MIN + COARSE_STEP * i)
  {
    assert SWEEP_MIN + COARSE_STEP * i == FINE_STEP * (14 + 5 * i);
  }

  function Energies(samples: seq<Sample>): seq<int> {
    seq(|samples|, i requires 0 <= i < |samples| => samples[i].energy)
  }

  // The insertion by shifting that the lock decision runs on the energies.
  method InsertByShift(s: seq<int>) returns (t: seq<int>)
    requires s != [] && Sorted(s[..|s| - 1])
    ensures Sorted(t) && SameElements(t, s)
  {
    t := s;
    var v, j := s[|s| - 1], |s| - 2;
    assert forall b | 0 <= b < |s| - 1 :: s[b] == s[..|s| - 1][b];
    assert t[j + 1 := v] == s;
    while j >= 0 && t[j] > v
      invariant -1 <= j < |t| - 1 && |t| == |s|
      invariant SortedExcept(t[j + 1 := v], j + 1) && SameElements(t[j + 1 := v], s)
    {
      ghost var hole := t[j + 1 := v];
      SwapKeepsElements(hole, j + 1);
      assert t[j + 1 := t[j]][j := v] == Swapped(hole, j + 1);
      t := t[j + 1 := t[j]];
      j := j - 1;
    }
    ghost var k := j;
    t := t[j + 1 := v];
    assert k >= 0 ==> t[k] <= t[k + 1];
  }

  method MedianEnergy(xs: seq<int>) returns (m: int)
    requires xs != []
    ensures IsRank(xs, |xs| / 2, m)
  {
    var sorted: seq<int> := [];
    for i := 0 to |xs|
      invariant Sorted(sorted) && SameElements(sorted, xs[..i])
    {
      SameElementsAppend(sorted, xs[..i], xs[i]);
      assert xs[..i + 1] == xs[..i] + [xs[i]];
      assert (sorted + [xs[i]])[..i] == sorted;
      sorted := InsertByShift(sorted + [xs[i]]);
    }
    assert xs[..|xs|] == xs;
    m := sorted[|xs| / 2];
    SortedRank(sorted, |xs| / 2);
  }

  // The peak stands out: it is at least four thirds of the median energy.
  ghost predicate Dominates(s: Scan) {
    exists m :: IsRank(Energies(s.samples), |s.samples| / 2, m) && s.best >= m + m / 3
  }

  // Where the scan leaves the lens: on the first of the best samples, or on the last position swept.
  ghost predicate Settled(s: Scan, locked: bool, position: int) {
    && SWEEP_MIN <= position <= SWEEP_MAX
    && (locked ==> exists i: nat :: IsFirstMax(s.samples, i) && s.samples[i].pos == position)
    && (!locked ==> s.commands != [] && position == s.commands[|s.commands| - 1])
  }

  // When the scan may lock.
  ghost predicate Conclusive(s: Scan) {
    s.samples != [] && (|s.samples| < 5 || Dominates(s))
  }
}

module AutoFocus {
  import opened OrderStatistics
  import opened FocusScan

  datatype AfState = Inactive | Moving | Locked | Failed

  class Focuser {
    var afState: AfState
    var position: int      // the last position sent to the lens driver

    constructor (position: int)
      ensures afState == Inactive && this.position == position
    {
      this.position, afState := position, Inactive;
    }

    // Move, measure, and take note of it.
    static method MeasureAt(s: Scan, pos: int, meter: nat -> int) returns (t: Scan)
      ensures t == Visit(s, pos, meter(|s.commands|)) && t.commands == s.commands + [pos]
    {
      var energy := meter(|s.commands|);
      t := s.(commands := s.commands + [pos]);
      if energy <= 0 {
        t := t.(fails := t.fails + 1);
        return;
      }
      t := t.(fails := 0);
      if |t.samples| < MAX_ENERGIES {
        t := t.(samples := t.samples + [Sample(pos, energy)]);
      }
      if energy > t.best {
        t := t.(best := energy, bestPos := pos);
      }
    }

    static method CoarseStep(s: Scan, pos: int, meter: nat -> int, ghost k: nat) returns (t: Scan)
      requires CoarseSoFar(s, meter, k) && s.fails < MAX_FAILS && k < 11 && pos == SWEEP_MIN + COARSE_STEP * k
      ensures CoarseSoFar(t, meter, k + 1) && t.fails <= MAX_FAILS
    {
      VisitFaithful(s, pos, meter);
      CoarseSnoc(k, meter);
      t := MeasureAt(s, pos, meter);
    }

    // 140, 190, ..., 640 until four measurements in a row fail.
    static method CoarseSweep(meter: nat -> int) returns (s: Scan, ghost k: nat)
      ensures CoarseSoFar(s, meter, k) && 1 <= k <= 11
      ensures k < 11 ==> s.fails == MAX_FAILS
    {
      s, k := START, 0;
      StartIsFaithful(meter);
      var pos := SWEEP_MIN;
      while pos <= SWEEP_MAX
        invariant k <= 11 && pos == SWEEP_MIN + COARSE_STEP * k
        invariant CoarseSoFar(s, meter, k) && s.fails < MAX_FAILS
      {
        s := CoarseStep(s, pos, meter, k);
        pos, k := pos + COARSE_STEP, k + 1;
        if s.fails >= MAX_FAILS {
          return;
        }
      }
    }

    // The neighbourhood of the coarse best in steps of 10, passing over the best of the moment. Unless four
    // failures in a row stop it, every one of those positions gets measured.
    static method FineSweep(meter: nat -> int, coarse: Scan) returns (s: Scan)
      requires Faithful(coarse, meter) && |coarse.commands| <= 11
      requires SWEEP_MIN <= coarse.bestPos <= SWEEP_MAX && OnFineGrid(coarse.bestPos)
      ensures Faithful(s, meter) && |s.commands| <= |coarse.commands| + 11 && coarse.commands <= s.commands
      ensures s.fails >= MAX_FAILS || NeighbourhoodDone(s.commands, coarse.bestPos)
      ensures s == FineRun(coarse, meter, FineStart(coarse.bestPos), FineEnd(coarse.bestPos))
    {
      FineSweepOk(coarse, meter);
      s := FineLoop(meter, coarse, FineStart(coarse.bestPos), FineEnd(coarse.bestPos));
    }

    static method FineLoop(meter: nat -> int, coarse: Scan, start: int, end: int) returns (s: Scan)
      ensures s == FineRun(coarse, meter, start, end)
    {
      var pos := start;
      s := coarse;
      while pos <= end
        invariant FineRun(s, meter, pos, end) == FineRun(coarse, meter, start, end)
        decreases end - pos
      {
        if pos != s.bestPos {
          s := MeasureAt(s, pos, meter);
          if s.fails >= MAX_FAILS {
            return;
          }
        }
        pos := pos + FINE_STEP;
      }
    }

    static method Sweep(meter: nat -> int) returns (s: Scan, ghost coarse: Scan, ghost k: nat)
      ensures Faithful(s, meter) && 1 <= |s.commands| <= 22 && Swept(coarse, s, meter, k)
    {
      s, k := CoarseSweep(meter);
      coarse := s;
      CoarseBest(s);
      s := FineSweep(meter, s);
    }

    // The whole scan. It locks exactly when it is conclusive, on the position of the first sample with the
    // greatest energy; otherwise the lens stays at the last position swept.
    method StartAfScan(streaming: bool, meter: nat -> int) returns (s: Scan, ghost coarse: Scan, ghost k: nat)
      modifies this
      ensures !streaming ==> afState == Inactive && position == old(position) && s == START
      ensures streaming ==> ScanOk(s) && 1 <= |s.commands| <= 22 && Swept(coarse, s, meter, k)
      ensures streaming ==> s.samples == Trusted(s.commands, meter, |s.commands|)
      ensures streaming ==> afState == if Conclusive(s) then Locked else Failed
      ensures streaming ==> Settled(s, afState == Locked, position)
    {
      if !streaming {
        afState, s := Inactive, START;
        coarse, k := START, 0;
        return;
      }
      afState := Moving;
      s, coarse, k := Sweep(meter);
      Settle(s);
    }

    // The lock decision.
    method Settle(s: Scan)
      requires ScanOk(s) && s.commands != []
      modifies this
      ensures afState == if Conclusive(s) then Locked else Failed
      ensures Settled(s, afState == Locked, position)
    {
      position := s.commands[|s.commands| - 1];
      var locks := Decide(s);
      if locks {
        position, afState := s.bestPos, Locked;
      } else {
        afState := Failed;
      }
    }

    static method Decide(s: Scan) returns (locks: bool)
      requires ScanOk(s)
      ensures locks <==> Conclusive(s)
    {
      if s.best > 0 && |s.samples| >= 5 {
        var energies := Energies(s.samples);
        var median := MedianEnergy(energies);
        locks := s.best >= median + median / 3;
        forall m | IsRank(energies, |s.samples| / 2, m) ensures m == median {
          RankIsUnique(energies, |s.samples| / 2, m, median);
        }
      } else {
        locks := s.best > 0;
      }
    }
  }
}
