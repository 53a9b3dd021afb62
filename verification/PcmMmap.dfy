// The mmap ring of tinyalsa (tinyalsa/src/pcm.c): pointers that run modulo a boundary,
// the available-space formulas, begin/commit and the playback transfer loops.

module PcmMmap {
  import opened RingArithmetic

  const INT_MAX: int := 0x7FFF_FFFF
  const TWO32: int := 0x1_0000_0000

  // unsigned int arithmetic, and its conversion to int
  function Wrap(x: int): (u: nat)
    ensures u < TWO32
  {
    x % TWO32
  }

  function ToInt(u: nat): int {
    if u <= INT_MAX then u else u - TWO32
  }

  lemma WrapSmall(x: int)
    requires -INT_MAX - 1 <= x <= INT_MAX
    ensures ToInt(Wrap(x)) == x
  {
    if x < 0 {
      assert (x + TWO32) % TWO32 == x % TWO32;
    }
  }

  function Pow2(k: nat): nat {
    if k == 0 then 1 else 2 * Pow2(k - 1)
  }

  lemma Doubled(size: nat, k: nat)
    ensures size * Pow2(k + 1) == 2 * (size * Pow2(k))
  {
  }

  lemma NoWrap(x: nat)
    requires x < TWO32
    ensures Wrap(x) == x
  {
  }

  // The loop of pcm_set_config that doubles the boundary. Buffers of at most INT_MAX / 3 frames,
  // and only those, end with a boundary of at least two buffers.
  method ComputeBoundary(bufferSize: nat) returns (boundary: nat, k: nat)
    requires 1 <= bufferSize <= INT_MAX
    ensures boundary == bufferSize * Pow2(k)
    ensures 2 * boundary + bufferSize > INT_MAX >= boundary
    ensures k >= 1 <==> bufferSize <= INT_MAX / 3
    ensures k >= 1 ==> boundary + bufferSize <= INT_MAX
  {
    boundary, k := bufferSize, 0;
    NoWrap(bufferSize * 2);
    while Wrap(boundary * 2) <= INT_MAX - bufferSize
      invariant boundary == bufferSize * Pow2(k) && bufferSize <= boundary <= INT_MAX
      invariant k >= 1 ==> bufferSize <= INT_MAX / 3 && boundary + bufferSize <= INT_MAX
      invariant k == 0 ==> boundary == bufferSize
      decreases INT_MAX - boundary
    {
      Doubled(bufferSize, k);
      NoWrap(boundary * 2);
      boundary := Wrap(boundary * 2);
      k := k + 1;
    }
  }

  // What the pointer arithmetic needs of the boundary, and what ComputeBoundary delivers.
  predicate GoodBoundary(bufferSize: nat, boundary: nat) {
    bufferSize >= 1 && 2 * bufferSize <= boundary && boundary + bufferSize <= INT_MAX && boundary % bufferSize == 0
  }

  lemma BoundaryIsGood(bufferSize: nat, boundary: nat, k: nat)
    requires bufferSize >= 1 && k >= 1 && boundary == bufferSize * Pow2(k) && boundary + bufferSize <= INT_MAX
    ensures GoodBoundary(bufferSize, boundary)
  {
    assert bufferSize * Pow2(k) == 2 * (bufferSize * Pow2(k - 1));
    Pow2Positive(k - 1);
    ModAddMultiple(0, bufferSize, Pow2(k));
  }

  lemma {:induction false} Pow2Positive(k: nat)
    ensures Pow2(k) >= 1
  {
    if k > 0 {
      Pow2Positive(k - 1);
    }
  }

  // pcm_mmap_playback_avail and pcm_mmap_capture_avail
  function PlaybackAvail(hwPtr: nat, bufferSize: nat, applPtr: nat, boundary: nat): int {
    var avail := ToInt(Wrap(hwPtr + bufferSize - applPtr));
    if avail < 0 then ToInt(Wrap(avail + boundary))
    else if avail >= boundary then ToInt(Wrap(avail - boundary))
    else avail
  }

  function CaptureAvail(hwPtr: nat, applPtr: nat, boundary: nat): int {
    var avail := ToInt(Wrap(hwPtr - applPtr));
    if avail < 0 then ToInt(Wrap(avail + boundary)) else avail
  }

  // pcm_mmap_appl_forward: the comparison lets the pointer rest on the boundary itself.
  function ApplForward(applPtr: nat, frames: nat, boundary: nat): nat {
    var p := Wrap(applPtr + frames);
    if p > boundary then Wrap(p - boundary) else p
  }

  // `ptr` stands for the unwrapped position `pos`; both 0 and `boundary` stand for a whole number of laps.
  predicate Represents(ptr: nat, pos: nat, boundary: nat)
    requires boundary > 0
  {
    ptr <= boundary && (ptr == pos % boundary || (ptr == boundary && pos % boundary == 0))
  }

  // Pointers differ as their positions do, up to one boundary.
  lemma RepresentedDifference(ptr: nat, pos: nat, other: nat, boundary: nat)
    requires boundary > 0 && Represents(ptr, pos, boundary) && pos - other < boundary && other - pos < boundary
    ensures var diff := ptr - other % boundary;
            diff == pos - other || diff == pos - other - boundary || diff == pos - other + boundary
  {
    ModDifference(pos, other, boundary);
  }

  // Whatever the pointers, the playback formula gives an amount below the boundary.
  lemma PlaybackAvailRange(hwPtr: nat, applPtr: nat, bufferSize: nat, boundary: nat)
    requires bufferSize >= 1 && 2 * bufferSize <= boundary && boundary + bufferSize <= INT_MAX
    requires hwPtr < boundary && applPtr <= boundary
    ensures 0 <= PlaybackAvail(hwPtr, bufferSize, applPtr, boundary) < boundary
  {
    var avail := hwPtr + bufferSize - applPtr;
    WrapSmall(avail);
    if avail < 0 {
      WrapSmall(avail + boundary);
    } else if avail >= boundary {
      WrapSmall(avail - boundary);
    }
  }

  // The free room is the ring minus what is written and not yet played, and more than the ring after an underrun.
  // The formula gives it if and only if there is no less than none and less than a boundary of it.
  lemma PlaybackAvailExact(hwPtr: nat, applPtr: nat, hw: nat, appl: nat, bufferSize: nat, boundary: nat)
    requires GoodBoundary(bufferSize, boundary)
    requires hwPtr == hw % boundary && Represents(applPtr, appl, boundary)
    ensures PlaybackAvail(hwPtr, bufferSize, applPtr, boundary) == bufferSize - (appl - hw)
       <==> bufferSize - boundary < appl - hw <= bufferSize
  {
    if bufferSize - boundary < appl - hw <= bufferSize {
      RepresentedDifference(applPtr, appl, hw, boundary);
      PlaybackAvailLinear(hwPtr, applPtr, appl - hw, bufferSize, boundary);
    } else {
      PlaybackAvailRange(hwPtr, applPtr, bufferSize, boundary);
    }
  }

  lemma PlaybackAvailLinear(hwPtr: nat, applPtr: nat, fill: int, bufferSize: nat, boundary: nat)
    requires bufferSize >= 1 && 2 * bufferSize <= boundary && boundary + bufferSize <= INT_MAX
    requires hwPtr < boundary && applPtr <= boundary && bufferSize - boundary < fill <= bufferSize
    requires applPtr - hwPtr == fill || applPtr - hwPtr == fill - boundary || applPtr - hwPtr == fill + boundary
    ensures PlaybackAvail(hwPtr, bufferSize, applPtr, boundary) == bufferSize - fill
  {
    var avail := hwPtr + bufferSize - applPtr;
    WrapSmall(avail);
    if avail < 0 {
      WrapSmall(avail + boundary);
    } else if avail >= boundary {
      WrapSmall(avail - boundary);
    }
  }

  lemma CaptureAvailExact(hwPtr: nat, applPtr: nat, hw: nat, appl: nat, bufferSize: nat, boundary: nat)
    requires GoodBoundary(bufferSize, boundary)
    requires hwPtr == hw % boundary && Represents(applPtr, appl, boundary)
    ensures CaptureAvail(hwPtr, applPtr, boundary) == hw - appl <==> 0 <= hw - appl < boundary
  {
    if 0 <= hw - appl < boundary {
      RepresentedDifference(applPtr, appl, hw, boundary);
    }
    WrapSmall(hwPtr - applPtr);
    if hwPtr < applPtr {
      WrapSmall(hwPtr - applPtr + boundary);
    }
  }

  // With a boundary of a single buffer (what large buffers get) the formula already fails on the
  // empty ring; it is right there exactly when the boundary leaves a second buffer of room.
  lemma EmptyRingNeedsSecondBuffer(bufferSize: nat, boundary: nat)
    requires 1 <= bufferSize <= boundary <= INT_MAX
    ensures PlaybackAvail(0, bufferSize, 0, boundary) == bufferSize <==> boundary > bufferSize
  {
  }

  lemma ApplForwardRepresents(applPtr: nat, appl: nat, frames: nat, boundary: nat, bufferSize: nat)
    requires GoodBoundary(bufferSize, boundary) && Represents(applPtr, appl, boundary) && frames <= bufferSize
    ensures Represents(ApplForward(applPtr, frames, boundary), appl + frames, boundary)
  {
    ModDifference(appl + frames, appl, boundary);
    ApplForwardLinear(applPtr, frames, boundary);
  }

  lemma ApplForwardLinear(applPtr: nat, frames: nat, boundary: nat)
    requires applPtr <= boundary && boundary + frames <= INT_MAX
    ensures ApplForward(applPtr, frames, boundary)
            == if applPtr + frames > boundary then applPtr + frames - boundary else applPtr + frames
  {
  }

  // The ring offset of the application pointer is that of its position, on the boundary too.
  lemma OffsetOfRepresented(applPtr: nat, appl: nat, bufferSize: nat, boundary: nat)
    requires GoodBoundary(bufferSize, boundary) && Represents(applPtr, appl, boundary)
    ensures applPtr % bufferSize == appl % bufferSize
  {
    ModOfDivisor(appl, bufferSize, boundary);
  }

  // The frames the hardware reads when it moves on by n from position `pos`.
  function Window<T>(ring: seq<T>, pos: nat, n: nat): (w: seq<T>)
    requires |ring| > 0
    ensures |w| == n
    ensures forall i | 0 <= i < n :: w[i] == ring[(pos + i) % |ring|]
  {
    seq(n, i requires 0 <= i < n => ring[(pos + i) % |ring|])
  }

  // Every frame written and not yet played sits in its slot of the ring.
  predicate Holds<T(==)>(ring: seq<T>, stream: seq<T>, hw: nat)
    requires |ring| > 0
  {
    forall j | hw <= j < |stream| :: ring[j % |ring|] == stream[j]
  }

  // Storing `chunk` at the application position appends it to the stream and overwrites no unplayed frame.
  lemma StoreAppends<T>(ring: seq<T>, stream: seq<T>, hw: nat, chunk: seq<T>)
    requires |ring| > 0 && Holds(ring, stream, hw)
    requires |stream| + |chunk| <= hw + |ring|
    requires |stream| % |ring| + |chunk| <= |ring|
    ensures var o := |stream| % |ring|;
            Holds(ring[..o] + chunk + ring[o + |chunk|..], stream + chunk, hw)
  {
    var n, o := |ring|, |stream| % |ring|;
    var ring', stream' := ring[..o] + chunk + ring[o + |chunk|..], stream + chunk;
    forall j | hw <= j < |stream'|
      ensures ring'[j % n] == stream'[j]
    {
      if j >= |stream| {
        SlotsContiguous(|stream|, j - |stream|, n);
      } else if o <= j % n < o + |chunk| {
        SlotsContiguous(|stream|, j % n - o, n);
        SlotsDistinct(|stream| + (j % n - o), j, n);
      }
    }
  }

  // Playing n frames that were written plays the stream itself.
  lemma PlayedIsStream<T>(ring: seq<T>, stream: seq<T>, hw: nat, n: nat)
    requires |ring| > 0 && Holds(ring, stream, hw) && hw + n <= |stream|
    ensures stream[..hw] + Window(ring, hw, n) == stream[..hw + n]
  {
  }
}

module PcmPlayback {
  import opened PcmMmap

  datatype Outcome =
    | Done            // returned 0
    | StartFailed     // pcm_start failed
    | WaitFailed      // pcm_wait failed; the pointers have been reset
    | Waiting         // still in the loop when the environment's script ran out

  // How one turn of the loop of pcm_mmap_transfer ends.
  datatype Turn = Wrote(frames: nat) | Slept | Stopped(r: Outcome)

  function Min(a: nat, b: nat): nat {
    if a <= b then a else b
  }

  // A playback PCM with sync_ptr in use. `hw`, `stream` and `played` are the unwrapped view:
  // how far the hardware has read, every frame ever committed, and every frame it read.
  class Pcm<Frame(0,==)> {
    const bufferSize: nat
    const boundary: nat
    const ring: array<Frame>
    var applPtr: nat
    var hwPtr: nat
    var running: bool
    var hw: nat
    ghost var stream: seq<Frame>
    ghost var played: seq<Frame>
    ghost var underrun: bool

    ghost predicate Valid()
      reads this, ring
    {
      && GoodBoundary(bufferSize, boundary)
      && ring.Length == bufferSize
      && hwPtr == hw % boundary
      && Represents(applPtr, |stream|, boundary)
      && bufferSize - boundary < |stream| - hw <= bufferSize
      && Holds(ring[..], stream, hw)
      && (!underrun ==> hw <= |stream| && played == stream[..hw])
    }

    // Room for new frames.
    ghost function Free(): int
      reads this
    {
      bufferSize - (|stream| - hw)
    }

    constructor (bufferSize: nat, boundary: nat)
      requires GoodBoundary(bufferSize, boundary)
      ensures Valid() && fresh(ring) && !underrun && !running
      ensures stream == [] && played == [] && Free() == bufferSize
    {
      this.bufferSize, this.boundary := bufferSize, boundary;
      ring := new Frame[bufferSize];
      applPtr, hwPtr, running, hw := 0, 0, false, 0;
      stream, played, underrun := [], [], false;
    }

    // pcm_sync_ptr, as the environment sees it: a running hardware pointer may have moved on by any
    // amount short of a lap of the boundary.
    method SyncPtr()
      requires Valid()
      modifies this`hwPtr, this`hw, this`played, this`underrun
      ensures Valid()
      ensures hw >= old(hw) && (!running ==> hw == old(hw))
      ensures Free() >= old(Free())
      ensures underrun <==> old(underrun) || hw > |stream|
    {
      if running {
        PlaybackAvailExact(hwPtr, applPtr, hw, |stream|, bufferSize, boundary);
        var avail := PlaybackAvail(hwPtr, bufferSize, applPtr, boundary);
        assert avail + 0 < boundary;
        var advance: nat :| avail + advance < boundary;
        if hw + advance <= |stream| {
          PlayedIsStream(ring[..], stream, hw, advance);
        }
        played := played + Window(ring[..], hw, advance);
        underrun := underrun || hw + advance > |stream|;
        hw := hw + advance;
        hwPtr := hw % boundary;
      }
    }

    // pcm_mmap_avail
    method Avail() returns (avail: int)
      requires Valid()
      modifies this`hwPtr, this`hw, this`played, this`underrun
      ensures Valid() && avail == Free() >= 0
      ensures hw >= old(hw) && (!running ==> hw == old(hw))
      ensures Free() >= old(Free())
      ensures !underrun ==> !old(underrun)
    {
      SyncPtr();
      PlaybackAvailExact(hwPtr, applPtr, hw, |stream|, bufferSize, boundary);
      avail := PlaybackAvail(hwPtr, bufferSize, applPtr, boundary);
    }

    // pcm_mmap_begin: no frames are offered exactly when none were asked for or the ring is full.
    method Begin(frames: nat) returns (offset: nat, copyFrames: nat)
      requires Valid()
      modifies this`hwPtr, this`hw, this`played, this`underrun
      ensures Valid()
      ensures offset == |stream| % bufferSize
      ensures copyFrames <= frames && copyFrames <= Free() && offset + copyFrames <= bufferSize
      ensures copyFrames == 0 <==> frames == 0 || Free() == 0
      ensures hw >= old(hw) && (!running ==> hw == old(hw))
      ensures Free() >= old(Free())
      ensures !underrun ==> !old(underrun)
    {
      offset := applPtr % bufferSize;
      OffsetOfRepresented(applPtr, |stream|, bufferSize, boundary);
      var avail := Avail();
      if avail > bufferSize {
        avail := bufferSize;
      }
      var continuous := bufferSize - offset;
      copyFrames := frames;
      if copyFrames > avail {
        copyFrames := avail;
      }
      if copyFrames > continuous {
        copyFrames := continuous;
      }
    }

    // pcm_areas_copy towards the ring: a memcpy of `frames` frames.
    method AreasCopy(offset: nat, src: seq<Frame>, srcOffset: nat, frames: nat)
      requires offset + frames <= ring.Length && srcOffset + frames <= |src|
      modifies ring
      ensures ring[..] == old(ring[..offset]) + src[srcOffset..srcOffset + frames] + old(ring[offset + frames..])
    {
      forall i | 0 <= i < frames {
        ring[offset + i] := src[srcOffset + i];
      }
    }

    // pcm_mmap_commit of frames that have just been copied to the ring.
    method Commit(frames: nat, ghost chunk: seq<Frame>)
      requires GoodBoundary(bufferSize, boundary) && ring.Length == bufferSize
      requires hwPtr == hw % boundary && Represents(applPtr, |stream|, boundary)
      requires |chunk| == frames <= bufferSize && bufferSize - boundary < |stream| - hw && frames <= Free()
      requires Holds(ring[..], stream + chunk, hw)
      requires !underrun ==> hw <= |stream| && played == stream[..hw]
      modifies this`applPtr, this`stream, this`hwPtr, this`hw, this`played, this`underrun
      ensures Valid() && stream == old(stream) + chunk
      ensures hw >= old(hw) && (!running ==> hw == old(hw))
      ensures Free() >= old(Free()) - frames
      ensures !underrun ==> !old(underrun)
    {
      ApplForwardRepresents(applPtr, |stream|, frames, boundary, bufferSize);
      applPtr := ApplForward(applPtr, frames, boundary);
      stream := stream + chunk;
      SyncPtr();
    }

    // One turn of the loop of pcm_mmap_transfer_areas.
    method TransferChunk(src: seq<Frame>, offset: nat, size: nat) returns (frames: nat)
      requires Valid() && offset + size <= |src| && 0 < size <= Free()
      modifies this`applPtr, this`stream, this`hwPtr, this`hw, this`played, this`underrun, ring
      ensures Valid() && 0 < frames <= size
      ensures stream == old(stream) + src[offset..offset + frames]
      ensures hw >= old(hw) && (!running ==> hw == old(hw))
      ensures size - frames <= Free()
      ensures !underrun ==> !old(underrun)
    {
      var pcmOffset;
      pcmOffset, frames := Begin(size);
      ghost var chunk := src[offset..offset + frames];
      StoreAppends(ring[..], stream, hw, chunk);
      AreasCopy(pcmOffset, src, offset, frames);
      Commit(frames, chunk);
    }

    // pcm_mmap_transfer_areas: asked for no more than the free room, it ends, appends exactly the asked
    // frames in order however often the ring wraps, and every unplayed frame stays intact (Valid).
    method TransferAreas(src: seq<Frame>, offset: nat, size: nat) returns (count: nat)
      requires Valid() && offset + size <= |src| && size <= Free()
      modifies this`applPtr, this`stream, this`hwPtr, this`hw, this`played, this`underrun, ring
      ensures Valid() && count == size
      ensures stream == old(stream) + src[offset..offset + size]
      ensures hw >= old(hw) && (!running ==> hw == old(hw))
      ensures !underrun ==> !old(underrun)
    {
      count := 0;
      while count < size
        invariant Valid() && count <= size
        invariant stream == old(stream) + src[offset..offset + count]
        invariant size - count <= Free()
        invariant hw >= old(hw) && (!running ==> hw == old(hw))
        invariant !underrun ==> !old(underrun)
      {
        var frames := TransferChunk(src, offset + count, size - count);
        count := count + frames;
        assert src[offset..offset + count] ==
               src[offset..offset + count - frames] + src[offset + count - frames..offset + count];
      }
    }

    // pcm_start on a prepared stream; the ioctl may fail.
    method Start() returns (ok: bool)
      requires Valid()
      modifies this`running, this`hwPtr, this`hw, this`played, this`underrun
      ensures Valid() && (running <==> old(running) || ok)
      ensures hw >= old(hw) && Free() >= old(Free())
      ensures !underrun ==> !old(underrun)
    {
      SyncPtr();
      ok :| ok || !ok;
      if ok {
        running := true;
      }
    }

    // Starts the stream once the ring holds the start threshold; the subtraction is unsigned.
    method StartIfDue(avail: nat, startThreshold: nat) returns (failed: bool)
      requires Valid() && avail <= Free()
      modifies this`running, this`hwPtr, this`hw, this`played, this`underrun
      ensures Valid()
      ensures hw >= old(hw) && Free() >= old(Free())
      ensures avail <= bufferSize < startThreshold ==>
                !failed && running == old(running) && (!running ==> hw == old(hw))
      ensures !failed && !running ==> hw == old(hw) && (avail <= bufferSize ==> bufferSize - avail < startThreshold)
      ensures avail <= bufferSize && bufferSize - avail < startThreshold ==>
                !failed && running == old(running) && hw == old(hw)
      ensures failed ==> !old(running) && Wrap(bufferSize - avail) >= startThreshold
      ensures running ==> !failed && (old(running) || Wrap(bufferSize - avail) >= startThreshold)
      ensures !underrun ==> !old(underrun)
    {
      failed := false;
      if avail <= bufferSize {
        assert Wrap(bufferSize - avail) == bufferSize - avail;
      }
      if !running && Wrap(bufferSize - avail) >= startThreshold {
        var started := Start();
        failed := !started;
      }
    }

    // pcm_wait, which may fail; then the pointers are reset.
    method WaitForRoom(mayWait: bool) returns (t: Turn)
      requires Valid() && running
      modifies this`running, this`applPtr
      ensures t in {Slept, Stopped(Waiting), Stopped(WaitFailed)} && (t.Slept? || t == Stopped(WaitFailed) ==> mayWait)
      ensures if t == Stopped(WaitFailed) then !running && applPtr == 0 else Valid() && running
    {
      if !mayWait {
        return Stopped(Waiting);
      }
      var woken: bool :| woken || !woken;
      if !woken {
        running := false;
        applPtr := 0;
        return Stopped(WaitFailed);
      }
      t := Slept;
    }

    // One turn of the loop of pcm_mmap_transfer, `written` frames into the caller's buffer.
    method TransferTurn(src: seq<Frame>, written: nat, startThreshold: nat, mayWait: bool) returns (t: Turn)
      requires Valid() && written < |src|
      modifies this, ring
      ensures if t == Stopped(WaitFailed) then !running && applPtr == 0 else Valid()
      ensures t.Wrote? ==> 0 < t.frames <= |src| - written && stream == old(stream) + src[written..written + t.frames]
      ensures !t.Wrote? ==> stream == old(stream)
      ensures t.Slept? ==> mayWait
      ensures old(Free()) >= 1 ==> t.Wrote? || t == Stopped(StartFailed)
      ensures t.Wrote? ==> t.frames >= Min(|src| - written, old(Free()))
      ensures t.Slept? || t == Stopped(Waiting) ==> running && old(Free()) == 0
      ensures t == Stopped(StartFailed) ==> !old(running)
      ensures t == Stopped(Done) ==> !running && Free() == 0 && startThreshold > bufferSize
      ensures old(!running && Free() <= bufferSize) && startThreshold > bufferSize ==>
                && !running && hw == old(hw)
                && t == if old(Free()) == 0 then Stopped(Done) else Wrote(Min(|src| - written, old(Free())))
      ensures !underrun ==> !old(underrun)
    {
      var avail := Avail();
      var failed := StartIfDue(avail, startThreshold);
      if failed {
        return Stopped(StartFailed);
      }
      if running && avail < 1 {       // avail_min is 1
        t := WaitForRoom(mayWait);
        return;
      }
      var frames := Min(|src| - written, avail);
      if frames == 0 {
        return Stopped(Done);
      }
      frames := TransferAreas(src, written, frames);
      return Wrote(frames);
    }

    // pcm_mmap_transfer. The environment decides whether starting and each wait succeed; `waits` is how
    // many waits it lets happen before the call is observed. Whatever it does, a prefix of the caller's
    // frames has been appended; a return of 0 means all of them, unless the stream was never started
    // because the start threshold exceeds the buffer, and then exactly the free room was filled.
    method Transfer(src: seq<Frame>, startThreshold: nat, waits: nat) returns (r: Outcome, written: nat)
      requires Valid()
      modifies this, ring
      ensures written <= |src| && stream == old(stream) + src[..written]
      ensures if r == WaitFailed then !running && applPtr == 0 else Valid()
      ensures r == Done && written < |src| ==> !running && Free() == 0 && startThreshold > bufferSize
      ensures old(!running && Free() <= bufferSize) && startThreshold > bufferSize ==>
                r == Done && written == Min(|src|, old(Free()))
      ensures !underrun ==> !old(underrun)
    {
      written := 0;
      var left := waits;
      while written < |src|
        invariant Valid() && written <= |src| && stream == old(stream) + src[..written]
        invariant old(!running && Free() <= bufferSize) && startThreshold > bufferSize ==>
                    !running && hw == old(hw) && written <= old(Free())
        invariant !underrun ==> !old(underrun)
        decreases left, |src| - written
      {
        var t := TransferTurn(src, written, startThreshold, left > 0);
        match t {
          case Stopped(why) => return why, written;
          case Slept => left := left - 1;
          case Wrote(frames) =>
            assert src[..written + frames] == src[..written] + src[written..written + frames];
            written := written + frames;
        }
      }
      r := Done;
    }
  }
}
