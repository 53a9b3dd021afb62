// The pixel kernels of the image pipeline: RGB to NV12, RGB to RGBA, the fused white balance, gamma and flip
// pass, and the in-place vertical flip (camera/isp/ColorConvNEON.cpp, camera/CameraPipeline.cpp).

// Byte buffers seen as rows.
module PixelRows {
  type Byte = x: int | 0 <= x < 256

  // b with the values stored from position `at` on.
  function Splice(b: seq<Byte>, at: nat, vals: seq<Byte>): (r: seq<Byte>)
    requires at + |vals| <= |b|
    ensures |r| == |b|
  {
    b[..at] + vals + b[at + |vals|..]
  }

  lemma SpliceTwice(b: seq<Byte>, at: nat, u: seq<Byte>, v: seq<Byte>)
    requires at + |u| + |v| <= |b|
    ensures Splice(Splice(b, at, u), at + |u|, v) == Splice(b, at, u + v)
  {
  }

  lemma SpliceNothing(b: seq<Byte>, at: nat)
    requires at <= |b|
    ensures Splice(b, at, []) == b
  {
  }

  // Row y of a buffer whose rows are n bytes long.
  function RowAt(b: seq<Byte>, n: nat, y: nat): seq<Byte> {
    if y * n + n <= |b| then b[y * n..y * n + n] else []
  }

  lemma RowFits(y: nat, h: nat, n: nat)
    requires y < h
    ensures y * n + n <= h * n
  {
    assert (h - y - 1) * n >= 0;
    assert (h - y - 1) * n == h * n - y * n - n;
  }

  // Storing at the start of row y leaves every other row alone.
  lemma OtherRow(b: seq<Byte>, n: nat, y: nat, vals: seq<Byte>, j: nat)
    requires |vals| <= n && y * n + n <= |b| && j != y
    ensures RowAt(Splice(b, y * n, vals), n, j) == RowAt(b, n, j)
  {
    if j < y {
      RowFits(j, y, n);
    } else {
      RowFits(y, j, n);
    }
  }

  lemma OwnRow(b: seq<Byte>, n: nat, y: nat, vals: seq<Byte>)
    requires |vals| <= n && y * n + n <= |b|
    ensures RowAt(Splice(b, y * n, vals), n, y) == vals + RowAt(b, n, y)[|vals|..]
  {
  }

  lemma PrefixRow(b: seq<Byte>, n: nat, y: nat, k: nat)
    requires y * n + n <= k <= |b|
    ensures RowAt(b[..k], n, y) == RowAt(b, n, y)
  {
  }

  lemma SplitEqual(a: seq<Byte>, b: seq<Byte>, k: nat)
    requires k <= |a| == |b| && a[..k] == b[..k] && a[k..] == b[k..]
    ensures a == b
  {
    assert a == a[..k] + a[k..] && b == b[..k] + b[k..];
  }

  // Two buffers of h full rows with equal rows are equal.
  lemma {:induction false} RowsDetermine(a: seq<Byte>, b: seq<Byte>, n: nat, h: nat)
    requires |a| == |b| == h * n && forall y: nat | y < h :: RowAt(a, n, y) == RowAt(b, n, y)
    ensures a == b
  {
    if h > 0 {
      var k := (h - 1) * n;
      RowFits(h - 1, h, n);
      LastRow(h, n);
      forall y: nat | y < h - 1 ensures RowAt(a[..k], n, y) == RowAt(b[..k], n, y) {
        RowFits(y, h - 1, n);
        PrefixRow(a, n, y, k);
        PrefixRow(b, n, y, k);
      }
      RowsDetermine(a[..k], b[..k], n, h - 1);
      assert RowAt(a, n, h - 1) == a[k..] && RowAt(b, n, h - 1) == b[k..];
      SplitEqual(a, b, k);
    }
  }

  lemma LastRow(h: nat, n: nat)
    requires h > 0
    ensures (h - 1) * n + n == h * n
  {
  }

  lemma SpliceNext(b: seq<Byte>, at: nat, vals: seq<Byte>, k: nat)
    requires at + |vals| <= |b| && k < |vals|
    ensures Splice(b, at, vals[..k])[at + k := vals[k]] == Splice(b, at, vals[..k + 1])
  {
    assert vals[..k + 1] == vals[..k] + [vals[k]];
  }

  method Store(out: array<Byte>, at: nat, vals: seq<Byte>)
    requires at + |vals| <= out.Length
    modifies out
    ensures out[..] == Splice(old(out[..]), at, vals)
  {
    for k := 0 to |vals|
      invariant out[..] == Splice(old(out[..]), at, vals[..k])
    {
      SpliceNext(old(out[..]), at, vals, k);
      ghost var was := out[..];
      out[at + k] := vals[k];
      assert out[..] == was[at + k := vals[k]];
    }
    assert vals[..|vals|] == vals;
  }

  function Reversed(y: nat, h: nat): nat
    requires y < h
  {
    h - 1 - y
  }

  // The last h rows in opposite order.
  predicate IsFlip(a: seq<Byte>, b: seq<Byte>, n: nat, h: nat) {
    |a| == |b| && forall y: nat | y < h :: RowAt(a, n, y) == RowAt(b, n, Reversed(y, h))
  }

  lemma FlipIsOwnInverse(a: seq<Byte>, b: seq<Byte>, c: seq<Byte>, n: nat, h: nat)
    requires |a| == h * n && IsFlip(b, a, n, h) && IsFlip(c, b, n, h)
    ensures c == a
  {
    forall y: nat | y < h ensures RowAt(c, n, y) == RowAt(a, n, y) {
      assert RowAt(c, n, y) == RowAt(b, n, Reversed(y, h));
      assert RowAt(b, n, Reversed(y, h)) == RowAt(a, n, Reversed(Reversed(y, h), h));
    }
    RowsDetermine(c, a, n, h);
  }

  // Rows y and h-1-y exchanged for every y below k; the rest as it was.
  ghost predicate FlippedTo(now: seq<Byte>, before: seq<Byte>, n: nat, h: nat, k: nat) {
    && |now| == |before|
    && forall y: nat | y < h ::
      RowAt(now, n, y) == RowAt(before, n, if y < k || Reversed(y, h) < k then Reversed(y, h) else y)
  }

  lemma FlippedStep(now: seq<Byte>, before: seq<Byte>, n: nat, h: nat, k: nat)
    requires FlippedTo(now, before, n, h, k) && k < h / 2
    requires k * n + n <= |now| && Reversed(k, h) * n + n <= |now|
    ensures
      var top, bot := RowAt(now, n, k), RowAt(now, n, Reversed(k, h));
      && |top| == n && |bot| == n
      && FlippedTo(Splice(Splice(now, k * n, bot), Reversed(k, h) * n, top), before, n, h, k + 1)
  {
    var top, bot := RowAt(now, n, k), RowAt(now, n, Reversed(k, h));
    var mid := Splice(now, k * n, bot);
    var end := Splice(mid, Reversed(k, h) * n, top);
    OwnRow(now, n, k, bot);
    OwnRow(mid, n, Reversed(k, h), top);
    OtherRow(mid, n, Reversed(k, h), top, k);
    assert bot + RowAt(now, n, k)[n..] == bot && top + RowAt(mid, n, Reversed(k, h))[n..] == top;
    forall y: nat | y < h
      ensures RowAt(end, n, y) == RowAt(before, n, if y < k + 1 || Reversed(y, h) < k + 1 then Reversed(y, h) else y)
    {
      if y != k && y != Reversed(k, h) {
        OtherRow(now, n, k, bot, y);
        OtherRow(mid, n, Reversed(k, h), top, y);
      }
    }
  }

  lemma FlippedAll(now: seq<Byte>, before: seq<Byte>, n: nat, h: nat)
    requires FlippedTo(now, before, n, h, h / 2)
    ensures IsFlip(now, before, n, h)
  {
    forall y: nat | y < h ensures RowAt(now, n, y) == RowAt(before, n, Reversed(y, h)) {
      assert y < h / 2 || Reversed(y, h) < h / 2 || y == Reversed(y, h);
    }
  }

  lemma TailOfSplice(b: seq<Byte>, at: nat, vals: seq<Byte>, total: nat)
    requires at + |vals| <= total <= |b|
    ensures Splice(b, at, vals)[total..] == b[total..]
  {
  }

  method SwapRows(buf: array<Byte>, n: nat, h: nat, k: nat, ghost before: seq<Byte>, ghost total: nat)
    requires k < h / 2 && FlippedTo(buf[..], before, n, h, k)
    requires k * n + n <= total && Reversed(k, h) * n + n <= total <= buf.Length
    modifies buf
    ensures FlippedTo(buf[..], before, n, h, k + 1) && buf[total..] == old(buf[total..])
  {
    FlippedStep(buf[..], before, n, h, k);
    var top, bot := RowAt(buf[..], n, k), RowAt(buf[..], n, Reversed(k, h));
    TailOfSplice(buf[..], k * n, bot, total);
    Store(buf, k * n, bot);
    TailOfSplice(buf[..], Reversed(k, h) * n, top, total);
    Store(buf, Reversed(k, h) * n, top);
  }

  // flipVertical: rows swapped from the outside in through a spare row.
  method FlipVertical(buf: array<Byte>, n: nat, h: nat)
    requires h * n <= buf.Length
    modifies buf
    ensures IsFlip(buf[..], old(buf[..]), n, h) && buf[h * n..] == old(buf[h * n..])
  {
    ghost var before, total := buf[..], h * n;
    for k := 0 to h / 2
      invariant FlippedTo(buf[..], before, n, h, k) && buf[total..] == before[total..]
    {
      RowFits(k, h, n);
      RowFits(Reversed(k, h), h, n);
      SwapRows(buf, n, h, k, before, total);
    }
    FlippedAll(buf[..], before, n, h);
  }
}

// One pixel: what the vector lanes compute and what the scalar tails compute.
module PixelArithmetic {
  import opened PixelRows

  // Signed 16-bit wrap-around.
  function Wrap16(n: int): int {
    (n + 0x8000) % 0x1_0000 - 0x8000
  }

  // vqmovun_s16 and vqmovn_u16: saturation to a byte.
  function Saturate(n: int): Byte {
    if n < 0 then 0 else if n > 255 then 255 else n
  }

  // The three weighted sums in 32-bit lanes, with the rounding term.
  function SumY(r: Byte, g: Byte, b: Byte): int { 66 * r + 129 * g + 25 * b + 128 }
  function SumU(r: Byte, g: Byte, b: Byte): int { 112 * b - 38 * r - 74 * g + 128 }
  function SumV(r: Byte, g: Byte, b: Byte): int { 112 * r - 94 * g - 18 * b + 128 }

  // Vector lane: shift right and narrow, add the bias in 16 bits, saturate.
  function Lane(sum: int, bias: int): Byte {
    Saturate(Wrap16(Wrap16(sum / 256) + bias))
  }

  // Scalar tail: shift right, add the bias, store the low byte.
  function Scalar(sum: int, bias: int): Byte {
    (sum / 256 + bias) % 256
  }

  function Luma(r: Byte, g: Byte, b: Byte): Byte { Scalar(SumY(r, g, b), 16) }
  function ChromaU(r: Byte, g: Byte, b: Byte): Byte { Scalar(SumU(r, g, b), 128) }
  function ChromaV(r: Byte, g: Byte, b: Byte): Byte { Scalar(SumV(r, g, b), 128) }

  // Neither narrowing nor saturation changes a value: the lane is the scalar formula.
  lemma LaneIsScalar(r: Byte, g: Byte, b: Byte)
    ensures Lane(SumY(r, g, b), 16) == Luma(r, g, b)
    ensures Lane(SumU(r, g, b), 128) == ChromaU(r, g, b)
    ensures Lane(SumV(r, g, b), 128) == ChromaV(r, g, b)
  {
    LaneInRange(SumY(r, g, b), 16);
    LaneInRange(SumU(r, g, b), 128);
    LaneInRange(SumV(r, g, b), 128);
  }

  lemma LaneInRange(sum: int, bias: int)
    requires 0 <= sum / 256 + bias < 256 && 0 <= bias < 256
    ensures Lane(sum, bias) == Scalar(sum, bias) == sum / 256 + bias
  {
  }

  // The studio range of ITU-R BT.601: luma in [16, 235], chroma in [16, 240]; a grey pixel has neutral chroma.
  lemma StudioRange(r: Byte, g: Byte, b: Byte)
    ensures 16 <= Luma(r, g, b) <= 235
    ensures 16 <= ChromaU(r, g, b) <= 240 && 16 <= ChromaV(r, g, b) <= 240
    ensures r == g == b ==> ChromaU(r, g, b) == ChromaV(r, g, b) == 128
  {
    LaneIsScalar(r, g, b);
    LaneInRange(SumY(r, g, b), 16);
    LaneInRange(SumU(r, g, b), 128);
    LaneInRange(SumV(r, g, b), 128);
  }

  // ---- The colour space meant: ITU-R BT.601, in exact arithmetic ----

  function Brightness(r: Byte, g: Byte, b: Byte): real {
    0.299 * r as real + 0.587 * g as real + 0.114 * b as real
  }

  function IdealLuma(r: Byte, g: Byte, b: Byte): real {
    16.0 + 219.0 * Brightness(r, g, b) / 255.0
  }

  // The difference of a colour from the brightness, from -112 to 112 around 128.
  function IdealChroma(colour: Byte, weight: real, brightness: real): real
    requires weight < 1.0
  {
    128.0 + 112.0 * (colour as real - brightness) / (1.0 - weight) / 255.0
  }

  predicate Near(v: Byte, ideal: real) {
    -1.0 < v as real - ideal < 1.0
  }

  lemma SumBounds(sum: int, bias: int)
    requires 0 <= sum / 256 + bias < 256 && 0 <= bias < 256
    ensures sum - 255 <= 256 * (Scalar(sum, bias) - bias) <= sum
  {
    LaneInRange(sum, bias);
  }

  predicate LumaPixel(v: Byte, r: Byte, g: Byte, b: Byte) {
    v == Luma(r, g, b) && Near(v, IdealLuma(r, g, b))
  }

  lemma LumaIsNear(r: Byte, g: Byte, b: Byte)
    ensures LumaPixel(Luma(r, g, b), r, g, b)
  {
    SumBounds(SumY(r, g, b), 16);
  }

  // U follows blue and V follows red.
  predicate ChromaPair(u: Byte, v: Byte, r: Byte, g: Byte, b: Byte) {
    && u == ChromaU(r, g, b) && Near(u, IdealChroma(b, 0.114, Brightness(r, g, b)))
    && v == ChromaV(r, g, b) && Near(v, IdealChroma(r, 0.299, Brightness(r, g, b)))
  }

  lemma ChromaIsNear(r: Byte, g: Byte, b: Byte)
    ensures ChromaPair(ChromaU(r, g, b), ChromaV(r, g, b), r, g, b)
  {
    SumBounds(SumU(r, g, b), 128);
    SumBounds(SumV(r, g, b), 128);
  }

  // White balance by a Q8 gain. The lane holds the gain in 16 bits.
  function GainLane(p: Byte, gain: nat): Byte {
    Saturate((p * (gain % 0x1_0000) + 128) / 256 % 0x1_0000)
  }

  function GainScalar(p: Byte, gain: nat): Byte {
    var v := (p * gain + 128) / 256;
    if v > 255 then 255 else v
  }

  predicate GainExact(gain: nat) {
    gain < 0x1_0000 || gain % 0x1_0000 >= 65152
  }

  // For gains that fit 16 bits the lane never wraps, so it is the scalar tail.
  lemma GainLaneIsScalar(p: Byte, gain: nat)
    requires gain < 0x1_0000
    ensures GainLane(p, gain) == GainScalar(p, gain)
  {
    ProductBound(p, gain);
  }

  lemma ProductBound(p: Byte, gain: nat)
    requires gain < 0x1_0000
    ensures 0 <= p * gain <= 255 * 0xffff
  {
  }

  lemma ProductAtLeast(p: Byte, gain: nat, low: nat)
    requires low <= gain && p >= 1
    ensures low <= p * gain
  {
  }

  // Exactly when do the two paths agree on every pixel value?
  lemma GainPathsAgreeExactly(gain: nat)
    ensures (forall p: Byte :: GainLane(p, gain) == GainScalar(p, gain)) <==> GainExact(gain)
  {
    var low := gain % 0x1_0000;
    if gain < 0x1_0000 {
      forall p: Byte ensures GainLane(p, gain) == GainScalar(p, gain) {
        GainLaneIsScalar(p, gain);
      }
    } else if low >= 65152 {
      forall p: Byte ensures GainLane(p, gain) == GainScalar(p, gain) {
        LargeGain(p, gain);
      }
    } else {
      assert GainScalar(1, gain) == 255 && GainLane(1, gain) < 255;
    }
  }

  lemma LargeGain(p: Byte, gain: nat)
    requires gain >= 0x1_0000 && gain % 0x1_0000 >= 65152
    ensures GainLane(p, gain) == GainScalar(p, gain)
  {
    if p >= 1 {
      ProductAtLeast(p, gain, 0x1_0000);
      ProductAtLeast(p, gain % 0x1_0000, 65152);
      ProductBound(p, gain % 0x1_0000);
    }
  }

  lemma UnitGain(p: Byte)
    ensures GainScalar(p, 256) == p == GainLane(p, 256)
  {
  }
}

// A row written in two ways: whole vectors while they fit, then one pixel at a time.
module VectorRows {
  import opened RingArithmetic
  import opened PixelRows

  function Row(f: nat -> Byte, n: nat): (r: seq<Byte>)
    ensures |r| == n
  {
    seq<Byte>(n, (j: int) requires 0 <= j < n => f(j))
  }

  // k consecutive values from position x on.
  function Chunk(f: nat -> Byte, x: nat, k: nat): (r: seq<Byte>)
    ensures |r| == k
  {
    seq<Byte>(k, (i: int) requires 0 <= i < k => f(x + i))
  }

  // Lane values before `split`, scalar values from there on.
  function Mixed(lane: nat -> Byte, scalar: nat -> Byte, n: nat, split: nat): (r: seq<Byte>)
    ensures |r| == n
  {
    seq<Byte>(n, (j: int) requires 0 <= j < n => if j < split then lane(j) else scalar(j))
  }

  lemma RowChunk(f: nat -> Byte, n: nat, x: nat, k: nat)
    requires x + k <= n
    ensures Row(f, n)[x..x + k] == Chunk(f, x, k)
  {
  }

  lemma MixedChunk(lane: nat -> Byte, scalar: nat -> Byte, n: nat, split: nat, x: nat, k: nat)
    requires split <= x && x + k <= n
    ensures Mixed(lane, scalar, n, split)[x..x + k] == Chunk(scalar, x, k)
  {
  }

  // Where lane and scalar agree everywhere, the split does not show.
  lemma MixedIsRow(lane: nat -> Byte, scalar: nat -> Byte, n: nat, split: nat)
    requires forall j: nat | j < n :: lane(j) == scalar(j)
    ensures Mixed(lane, scalar, n, split) == Row(scalar, n)
  {
  }

  lemma AppendChunk(b: seq<Byte>, base: nat, row: seq<Byte>, x: nat, k: nat)
    requires x + k <= |row| && base + |row| <= |b|
    ensures Splice(Splice(b, base, row[..x]), base + x, row[x..x + k]) == Splice(b, base, row[..x + k])
  {
    SpliceTwice(b, base, row[..x], row[x..x + k]);
    assert row[..x] + row[x..x + k] == row[..x + k];
  }

  // The first x bytes of `row` have been stored from `base` on, and nothing else.
  predicate Upto(now: seq<Byte>, before: seq<Byte>, base: nat, row: seq<Byte>, x: nat) {
    x <= |row| && base + |row| <= |before| && now == Splice(before, base, row[..x])
  }

  lemma UptoNothing(before: seq<Byte>, base: nat, row: seq<Byte>)
    requires base + |row| <= |before|
    ensures Upto(before, before, base, row, 0)
  {
    SpliceNothing(before, base);
  }

  lemma UptoAll(now: seq<Byte>, before: seq<Byte>, base: nat, row: seq<Byte>)
    requires Upto(now, before, base, row, |row|)
    ensures now == Splice(before, base, row)
  {
    assert row[..|row|] == row;
  }

  lemma UptoSwitch(now: seq<Byte>, before: seq<Byte>, base: nat, lane: nat -> Byte, scalar: nat -> Byte, n: nat, x: nat)
    requires Upto(now, before, base, Row(lane, n), x)
    ensures Upto(now, before, base, Mixed(lane, scalar, n, x), x)
  {
    assert Mixed(lane, scalar, n, x)[..x] == Row(lane, n)[..x];
  }

  // One vector store, or the stores of one pixel of a tail.
  method StoreChunk(out: array<Byte>, base: nat, x: nat, vals: seq<Byte>, ghost row: seq<Byte>, ghost before: seq<Byte>)
    requires Upto(out[..], before, base, row, x) && x + |vals| <= |row| && vals == row[x..x + |vals|]
    modifies out
    ensures Upto(out[..], before, base, row, x + |vals|)
  {
    AppendChunk(before, base, row, x, |vals|);
    Store(out, base + x, vals);
  }

  lemma NextMultiple(n: nat, m: nat)
    ensures n * (m + 1) == n * m + n
  {
  }

  // `vector` gives at byte position x the register contents that the lane formula describes.
  ghost predicate Delivers(vector: nat -> seq<Byte>, lane: nat -> Byte, n: nat, width: nat)
    requires width > 0
  {
    forall x: nat | x % width == 0 && x + width <= n :: vector(x) == Chunk(lane, x, width)
  }

  // Vectors of `width` bytes while one fits.
  method StoreVectors(out: array<Byte>, base: nat, vector: nat -> seq<Byte>, ghost lane: nat -> Byte,
                      n: nat, width: nat)
    returns (x: nat)
    requires base + n <= out.Length && width > 0 && Delivers(vector, lane, n, width)
    modifies out
    ensures x == n / width * width && Upto(out[..], old(out[..]), base, Row(lane, n), x)
  {
    ghost var row, before, m := Row(lane, n), out[..], 0;
    x := 0;
    UptoNothing(before, base, row);
    while x + width <= n
      invariant Upto(out[..], before, base, row, x) && x == width * m
    {
      ModAddMultiple(0, width, m);
      RowChunk(lane, n, x, width);
      StoreChunk(out, base, x, vector(x), row, before);
      NextMultiple(width, m);
      x, m := x + width, m + 1;
    }
    DivModUnique(n, width, m, n - x);
  }

  // Pixels of `unit` bytes to the end of the row.
  method StoreTail(out: array<Byte>, base: nat, scalar: nat -> Byte, n: nat, unit: nat, start: nat,
                   ghost row: seq<Byte>, ghost before: seq<Byte>)
    requires unit > 0 && start <= n == |row| && (n - start) % unit == 0
    requires Upto(out[..], before, base, row, start)
    requires forall x: nat, k: nat | start <= x && x + k <= n :: row[x..x + k] == Chunk(scalar, x, k)
    modifies out
    ensures Upto(out[..], before, base, row, n)
  {
    var x := start;
    while x < n
      invariant start <= x <= n && (n - x) % unit == 0 && Upto(out[..], before, base, row, x)
    {
      AtLeastOneUnit(n - x, unit);
      assert row[x..x + unit] == Chunk(scalar, x, unit);
      StoreChunk(out, base, x, Chunk(scalar, x, unit), row, before);
      x := x + unit;
    }
  }

  lemma AtLeastOneUnit(d: nat, unit: nat)
    requires unit > 0 && d > 0 && d % unit == 0
    ensures d >= unit && (d - unit) % unit == 0
  {
    if d < unit {
      DivModUnique(d, unit, 0, d);
    } else {
      ModAddOne(d - unit, unit);
    }
  }

  // The whole row.
  method StoreRow(out: array<Byte>, base: nat, vector: nat -> seq<Byte>, ghost lane: nat -> Byte, scalar: nat -> Byte,
                  n: nat, width: nat, unit: nat)
    requires base + n <= out.Length && width > 0 && unit > 0 && (n - n / width * width) % unit == 0
    requires Delivers(vector, lane, n, width)
    modifies out
    ensures out[..] == Splice(old(out[..]), base, Mixed(lane, scalar, n, n / width * width))
  {
    ghost var before := out[..];
    var x := StoreVectors(out, base, vector, lane, n, width);
    UptoSwitch(out[..], before, base, lane, scalar, n, x);
    ghost var row := Mixed(lane, scalar, n, x);
    forall y: nat, k: nat | x <= y && y + k <= n ensures row[y..y + k] == Chunk(scalar, y, k) {
      MixedChunk(lane, scalar, n, x, y, k);
    }
    StoreTail(out, base, scalar, n, unit, x, row, before);
    UptoAll(out[..], before, base, row);
  }

  // ---- Rows of a plane ----

  // Rows below k hold f's values in front of what they held; everything from row k on is as before.
  ghost predicate RowsDone(now: seq<Byte>, before: seq<Byte>, n: nat, k: nat, f: nat -> seq<Byte>) {
    && k * n <= |now| == |before| && now[k * n..] == before[k * n..]
    && forall j: nat | j < k :: RowAt(now, n, j) == RowDone(before, n, f, j)
  }

  ghost function RowDone(before: seq<Byte>, n: nat, f: nat -> seq<Byte>, j: nat): seq<Byte> {
    var was := RowAt(before, n, j);
    if |f(j)| <= |was| then f(j) + was[|f(j)|..] else was
  }

  lemma RowFromRest(now: seq<Byte>, before: seq<Byte>, n: nat, k: nat, at: nat)
    requires at == k * n && at + n <= |now| == |before| && now[at..] == before[at..]
    ensures RowAt(now, n, k) == RowAt(before, n, k)
  {
    assert now[at..][..n] == now[at..at + n] && before[at..][..n] == before[at..at + n];
  }

  lemma RestOfRest(now: seq<Byte>, before: seq<Byte>, at: nat, n: nat)
    requires at + n <= |now| == |before| && now[at..] == before[at..]
    ensures now[at + n..] == before[at + n..]
  {
    assert now[at..][n..] == now[at + n..] && before[at..][n..] == before[at + n..];
  }

  lemma RowsDoneStep(now: seq<Byte>, before: seq<Byte>, n: nat, k: nat, f: nat -> seq<Byte>)
    requires RowsDone(now, before, n, k, f) && |f(k)| <= n && k * n + n <= |now|
    ensures RowsDone(Splice(now, k * n, f(k)), before, n, k + 1, f)
  {
    var next := Splice(now, k * n, f(k));
    LastRow(k + 1, n);
    OwnRow(now, n, k, f(k));
    RowFromRest(now, before, n, k, k * n);
    RestOfRest(now, before, k * n, n);
    TailOfSplice(now, k * n, f(k), (k + 1) * n);
    forall j: nat | j < k + 1 ensures RowAt(next, n, j) == RowDone(before, n, f, j) {
      if j != k {
        OtherRow(now, n, k, f(k), j);
      }
    }
  }

  lemma RowsDoneByte(now: seq<Byte>, before: seq<Byte>, n: nat, k: nat, f: nat -> seq<Byte>, j: nat, x: nat)
    requires RowsDone(now, before, n, k, f) && j < k && |f(j)| <= n && j * n + n <= |now| && x < n
    ensures now[j * n + x] == if x < |f(j)| then f(j)[x] else before[j * n + x]
  {
    RowByte(now, n, j, x);
    RowByte(before, n, j, x);
    var row, was := RowAt(now, n, j), RowAt(before, n, j);
    assert row == f(j) + was[|f(j)|..];
  }

  // A row that f fills.
  lemma FullRow(now: seq<Byte>, before: seq<Byte>, n: nat, k: nat, f: nat -> seq<Byte>, j: nat)
    requires RowsDone(now, before, n, k, f) && j < k && |f(j)| == n && j * n + n <= |now|
    ensures RowAt(now, n, j) == f(j)
  {
    var was := RowAt(before, n, j);
    assert |was| == n && was[n..] == [];
  }

  lemma RowByte(b: seq<Byte>, n: nat, j: nat, x: nat)
    requires j * n + n <= |b| && x < n
    ensures |RowAt(b, n, j)| == n && RowAt(b, n, j)[x] == b[j * n + x]
  {
  }
}

// What the kernels write, byte by byte, as the scalar formulas say.
module KernelRows {
  import opened PixelRows
  import opened PixelArithmetic
  import opened VectorRows

  // The byte of channel c of pixel x.
  function Px(src: seq<Byte>, x: nat, c: nat): Byte {
    if 3 * x + c < |src| then src[3 * x + c] else 0
  }

  function LumaAt(src: seq<Byte>): nat -> Byte {
    (x: nat) => Luma(Px(src, x, 0), Px(src, x, 1), Px(src, x, 2))
  }

  function LumaLaneAt(src: seq<Byte>): nat -> Byte {
    (x: nat) => Lane(SumY(Px(src, x, 0), Px(src, x, 1), Px(src, x, 2)), 16)
  }

  // Byte j of a chroma row: U and V of the pixel in the even column j or j-1.
  function ChromaAt(src: seq<Byte>): nat -> Byte {
    (j: nat) =>
      var x := j / 2 * 2;
      if j % 2 == 0 then ChromaU(Px(src, x, 0), Px(src, x, 1), Px(src, x, 2))
      else ChromaV(Px(src, x, 0), Px(src, x, 1), Px(src, x, 2))
  }

  // Lanes keep the even pixels of sixteen and store U and V interleaved.
  function ChromaLaneAt(src: seq<Byte>): nat -> Byte {
    (j: nat) =>
      var x := j - j % 2;
      if j % 2 == 0 then Lane(SumU(Px(src, x, 0), Px(src, x, 1), Px(src, x, 2)), 128)
      else Lane(SumV(Px(src, x, 0), Px(src, x, 1), Px(src, x, 2)), 128)
  }

  function RgbaAt(src: seq<Byte>): nat -> Byte {
    (j: nat) => if j % 4 == 3 then 255 else Px(src, j / 4, j % 4)
  }

  // ---- Vector registers ----

  // vld3: channel c of n pixels from pixel x on, out of the interleaved bytes.
  function Channel(src: seq<Byte>, x: nat, n: nat, c: nat): (r: seq<Byte>)
    ensures |r| == n
  {
    seq<Byte>(n, (k: int) requires 0 <= k < n => Px(src, x + k, c))
  }

  // vuzp, first result: the even lanes of two registers.
  function Evens(low: seq<Byte>, high: seq<Byte>): (r: seq<Byte>)
    requires |low| == |high| && |low| % 2 == 0
    ensures |r| == |low|
  {
    var both := low + high;
    seq<Byte>(|low|, (k: int) requires 0 <= k < |low| => both[2 * k])
  }

  // vst2: two registers stored alternately.
  function Interleave2(u: seq<Byte>, v: seq<Byte>): (r: seq<Byte>)
    requires |u| == |v|
    ensures |r| == 2 * |u|
  {
    seq<Byte>(2 * |u|, (j: int) requires 0 <= j < 2 * |u| => if j % 2 == 0 then u[j / 2] else v[j / 2])
  }

  // vst4: four registers stored in turn.
  function Interleave4(a: seq<Byte>, b: seq<Byte>, c: seq<Byte>, d: seq<Byte>): (r: seq<Byte>)
    requires |a| == |b| == |c| == |d|
    ensures |r| == 4 * |a|
  {
    seq<Byte>(4 * |a|, (j: int) requires 0 <= j < 4 * |a| =>
      if j % 4 == 0 then a[j / 4] else if j % 4 == 1 then b[j / 4] else if j % 4 == 2 then c[j / 4] else d[j / 4])
  }

  // One formula in all lanes of three registers.
  function Lanes(r: seq<Byte>, g: seq<Byte>, b: seq<Byte>, f: (Byte, Byte, Byte) -> Byte): (s: seq<Byte>)
    requires |r| == |g| == |b|
    ensures |s| == |r|
  {
    seq<Byte>(|r|, (k: int) requires 0 <= k < |r| => f(r[k], g[k], b[k]))
  }

  function Constant(n: nat, value: Byte): (r: seq<Byte>)
    ensures |r| == n
  {
    seq<Byte>(n, (k: int) requires 0 <= k < n => value)
  }

  function LaneY(): (Byte, Byte, Byte) -> Byte { (r: Byte, g: Byte, b: Byte) => Lane(SumY(r, g, b), 16) }
  function LaneU(): (Byte, Byte, Byte) -> Byte { (r: Byte, g: Byte, b: Byte) => Lane(SumU(r, g, b), 128) }
  function LaneV(): (Byte, Byte, Byte) -> Byte { (r: Byte, g: Byte, b: Byte) => Lane(SumV(r, g, b), 128) }

  // Eight pixels of luma.
  function LumaVector(src: seq<Byte>): nat -> seq<Byte> {
    (x: nat) => Lanes(Channel(src, x, 8, 0), Channel(src, x, 8, 1), Channel(src, x, 8, 2), LaneY())
  }

  // Channel c of the even pixels of sixteen.
  function EvenChannel(src: seq<Byte>, x: nat, c: nat): (r: seq<Byte>)
    ensures |r| == 8
  {
    var all := Channel(src, x, 16, c);
    Evens(all[..8], all[8..])
  }

  function ChromaVector(src: seq<Byte>): nat -> seq<Byte> {
    (x: nat) =>
      var r, g, b := EvenChannel(src, x, 0), EvenChannel(src, x, 1), EvenChannel(src, x, 2);
      Interleave2(Lanes(r, g, b, LaneU()), Lanes(r, g, b, LaneV()))
  }

  // Eight pixels of RGBA, at byte position x of the output.
  function RgbaVector(src: seq<Byte>): nat -> seq<Byte> {
    (x: nat) =>
      var p := x / 4;
      Interleave4(Channel(src, p, 8, 0), Channel(src, p, 8, 1), Channel(src, p, 8, 2), Constant(8, 255))
  }

  lemma LumaVectorDelivers(src: seq<Byte>, x: nat)
    ensures LumaVector(src)(x) == Chunk(LumaLaneAt(src), x, 8)
  {
  }

  lemma EvenChannelAt(src: seq<Byte>, x: nat, c: nat, k: nat)
    requires k < 8
    ensures EvenChannel(src, x, c)[k] == Px(src, x + 2 * k, c)
  {
    var all := Channel(src, x, 16, c);
    assert all[..8] + all[8..] == all;
  }

  lemma EvenColumn(x: nat, j: nat)
    requires x % 2 == 0
    ensures x + j - (x + j) % 2 == x + 2 * (j / 2) && (x + j) % 2 == j % 2
  {
  }

  lemma ChromaVectorAt(src: seq<Byte>, x: nat, j: nat)
    requires x % 2 == 0 && j < 16
    ensures ChromaVector(src)(x)[j] == ChromaLaneAt(src)(x + j)
  {
    EvenChannelAt(src, x, 0, j / 2);
    EvenChannelAt(src, x, 1, j / 2);
    EvenChannelAt(src, x, 2, j / 2);
    EvenColumn(x, j);
  }

  lemma ChromaVectorDelivers(src: seq<Byte>, x: nat)
    requires x % 2 == 0
    ensures ChromaVector(src)(x) == Chunk(ChromaLaneAt(src), x, 16)
  {
    forall j: nat | j < 16 ensures ChromaVector(src)(x)[j] == ChromaLaneAt(src)(x + j) {
      ChromaVectorAt(src, x, j);
    }
  }

  lemma RgbaVectorAt(src: seq<Byte>, x: nat, j: nat)
    requires x % 4 == 0 && j < 32
    ensures RgbaVector(src)(x)[j] == RgbaAt(src)(x + j)
  {
    assert (x + j) / 4 == x / 4 + j / 4 && (x + j) % 4 == j % 4;
  }

  lemma RgbaVectorDelivers(src: seq<Byte>, x: nat)
    requires x % 4 == 0
    ensures RgbaVector(src)(x) == Chunk(RgbaAt(src), x, 32)
  {
    forall j: nat | j < 32 ensures RgbaVector(src)(x)[j] == RgbaAt(src)(x + j) {
      RgbaVectorAt(src, x, j);
    }
  }

  lemma LumaLaneIsScalar(src: seq<Byte>, x: nat)
    ensures LumaLaneAt(src)(x) == LumaAt(src)(x)
  {
    LaneIsScalar(Px(src, x, 0), Px(src, x, 1), Px(src, x, 2));
  }

  lemma ChromaLaneIsScalar(src: seq<Byte>, j: nat)
    ensures ChromaLaneAt(src)(j) == ChromaAt(src)(j)
  {
    var x := j - j % 2;
    assert x == j / 2 * 2;
    LaneIsScalar(Px(src, x, 0), Px(src, x, 1), Px(src, x, 2));
  }

  datatype Gains = Gains(r: nat, g: nat, b: nat)    // Q8

  const UNIT := Gains(256, 256, 256)

  function GainOf(gains: Gains, c: nat): nat {
    if c == 0 then gains.r else if c == 1 then gains.g else gains.b
  }

  type Lut = s: seq<Byte> | |s| == 256 witness seq(256, i => 0)

  function BalancedAt(src: seq<Byte>, gains: Gains, lut: Lut): nat -> Byte {
    (j: nat) => if j % 4 == 3 then 255 else lut[GainScalar(Px(src, j / 4, j % 4), GainOf(gains, j % 4))]
  }

  function BalancedLaneAt(src: seq<Byte>, gains: Gains, lut: Lut): nat -> Byte {
    (j: nat) => if j % 4 == 3 then 255 else lut[GainLane(Px(src, j / 4, j % 4), GainOf(gains, j % 4))]
  }

  // One channel of eight pixels: widened, balanced, saturated and looked up.
  function BalancedChannel(src: seq<Byte>, p: nat, c: nat, gain: nat, lut: Lut): (r: seq<Byte>)
    ensures |r| == 8
  {
    var px := Channel(src, p, 8, c);
    seq<Byte>(8, (k: int) requires 0 <= k < 8 => lut[GainLane(px[k], gain)])
  }

  function BalancedVector(src: seq<Byte>, gains: Gains, lut: Lut): nat -> seq<Byte> {
    (x: nat) =>
      var p := x / 4;
      Interleave4(BalancedChannel(src, p, 0, gains.r, lut), BalancedChannel(src, p, 1, gains.g, lut),
                  BalancedChannel(src, p, 2, gains.b, lut), Constant(8, 255))
  }

  lemma BalancedVectorAt(src: seq<Byte>, gains: Gains, lut: Lut, x: nat, j: nat)
    requires x % 4 == 0 && j < 32
    ensures BalancedVector(src, gains, lut)(x)[j] == BalancedLaneAt(src, gains, lut)(x + j)
  {
    assert (x + j) / 4 == x / 4 + j / 4 && (x + j) % 4 == j % 4;
  }

  lemma BalancedVectorDelivers(src: seq<Byte>, gains: Gains, lut: Lut, x: nat)
    requires x % 4 == 0
    ensures BalancedVector(src, gains, lut)(x) == Chunk(BalancedLaneAt(src, gains, lut), x, 32)
  {
    forall j: nat | j < 32 ensures BalancedVector(src, gains, lut)(x)[j] == BalancedLaneAt(src, gains, lut)(x + j) {
      BalancedVectorAt(src, gains, lut, x, j);
    }
  }

  predicate GainsExact(gains: Gains) {
    GainExact(gains.r) && GainExact(gains.g) && GainExact(gains.b)
  }

  lemma BalancedLaneIsScalar(src: seq<Byte>, gains: Gains, lut: Lut, j: nat)
    requires GainsExact(gains)
    ensures BalancedLaneAt(src, gains, lut)(j) == BalancedAt(src, gains, lut)(j)
  {
    GainPathsAgreeExactly(GainOf(gains, j % 4));
  }

  // A row of the fused pass: whole groups of eight pixels in lanes, the rest by the scalar tail.
  function BalancedRow(src: seq<Byte>, w: nat, gains: Gains, lut: Lut): seq<Byte> {
    Mixed(BalancedLaneAt(src, gains, lut), BalancedAt(src, gains, lut), 4 * w, 4 * w / 32 * 32)
  }

  // With gains that the lanes can hold, no byte shows which path made it.
  lemma BalancedRowIsScalar(src: seq<Byte>, w: nat, gains: Gains, lut: Lut)
    requires GainsExact(gains)
    ensures BalancedRow(src, w, gains, lut) == Row(BalancedAt(src, gains, lut), 4 * w)
  {
    forall j: nat ensures BalancedLaneAt(src, gains, lut)(j) == BalancedAt(src, gains, lut)(j) {
      BalancedLaneIsScalar(src, gains, lut, j);
    }
    MixedIsRow(BalancedLaneAt(src, gains, lut), BalancedAt(src, gains, lut), 4 * w, 4 * w / 32 * 32);
  }

  function Mapped(src: seq<Byte>, lut: Lut): seq<Byte> {
    seq<Byte>(|src|, i requires 0 <= i < |src| => lut[src[i]])
  }

  lemma UnitByte(src: seq<Byte>, lut: Lut, j: nat)
    requires 3 * (j / 4 + 1) <= |src|
    ensures BalancedAt(src, UNIT, lut)(j) == RgbaAt(Mapped(src, lut))(j)
  {
    UnitGain(Px(src, j / 4, j % 4));
  }

  // With unit gains the fused row is the gamma table followed by the plain conversion.
  lemma UnitRow(src: seq<Byte>, w: nat, lut: Lut)
    requires |src| == 3 * w
    ensures BalancedRow(src, w, UNIT, lut) == Row(RgbaAt(Mapped(src, lut)), 4 * w)
  {
    BalancedRowIsScalar(src, w, UNIT, lut);
    forall j: nat | j < 4 * w ensures BalancedAt(src, UNIT, lut)(j) == RgbaAt(Mapped(src, lut))(j) {
      UnitByte(src, lut, j);
    }
    RowsAgree(BalancedAt(src, UNIT, lut), RgbaAt(Mapped(src, lut)), 4 * w);
  }

  lemma RowsAgree(f: nat -> Byte, g: nat -> Byte, n: nat)
    requires forall j: nat | j < n :: f(j) == g(j)
    ensures Row(f, n) == Row(g, n)
  {
  }
}

module ColorKernels {
  import opened PixelRows
  import opened PixelArithmetic
  import opened VectorRows
  import opened KernelRows

  function LumaRow(src: seq<Byte>, w: nat): seq<Byte> {
    Row(LumaAt(src), w)
  }

  // An odd last column has no chroma.
  function ChromaRow(src: seq<Byte>, w: nat): seq<Byte> {
    Row(ChromaAt(src), w / 2 * 2)
  }

  lemma AlignedBy(x: nat)
    ensures x % 16 == 0 ==> x % 2 == 0
    ensures x % 32 == 0 ==> x % 4 == 0
  {
  }

  // The registers hold, at every vector of a row, what the lane formulas say.
  lemma LumaDelivers(src: seq<Byte>, n: nat)
    ensures Delivers(LumaVector(src), LumaLaneAt(src), n, 8)
  {
    forall x: nat | x % 8 == 0 && x + 8 <= n ensures LumaVector(src)(x) == Chunk(LumaLaneAt(src), x, 8) {
      LumaVectorDelivers(src, x);
    }
  }

  lemma ChromaDelivers(src: seq<Byte>, n: nat)
    ensures Delivers(ChromaVector(src), ChromaLaneAt(src), n, 16)
  {
    forall x: nat | x % 16 == 0 && x + 16 <= n ensures ChromaVector(src)(x) == Chunk(ChromaLaneAt(src), x, 16) {
      AlignedBy(x);
      ChromaVectorDelivers(src, x);
    }
  }

  lemma RgbaDelivers(src: seq<Byte>, n: nat)
    ensures Delivers(RgbaVector(src), RgbaAt(src), n, 32)
  {
    forall x: nat | x % 32 == 0 && x + 32 <= n ensures RgbaVector(src)(x) == Chunk(RgbaAt(src), x, 32) {
      AlignedBy(x);
      RgbaVectorDelivers(src, x);
    }
  }

  lemma BalancedDelivers(src: seq<Byte>, gains: Gains, lut: Lut, n: nat)
    ensures Delivers(BalancedVector(src, gains, lut), BalancedLaneAt(src, gains, lut), n, 32)
  {
    forall x: nat | x % 32 == 0 && x + 32 <= n
      ensures BalancedVector(src, gains, lut)(x) == Chunk(BalancedLaneAt(src, gains, lut), x, 32)
    {
      AlignedBy(x);
      BalancedVectorDelivers(src, gains, lut, x);
    }
  }

  method LumaRowInto(src: seq<Byte>, w: nat, out: array<Byte>, base: nat)
    requires base + w <= out.Length
    modifies out
    ensures out[..] == Splice(old(out[..]), base, LumaRow(src, w))
  {
    forall x: nat ensures LumaLaneAt(src)(x) == LumaAt(src)(x) {
      LumaLaneIsScalar(src, x);
    }
    LumaDelivers(src, w);
    MixedIsRow(LumaLaneAt(src), LumaAt(src), w, w / 8 * 8);
    StoreRow(out, base, LumaVector(src), LumaLaneAt(src), LumaAt(src), w, 8, 1);
  }

  method ChromaRowInto(src: seq<Byte>, w: nat, out: array<Byte>, base: nat)
    requires base + w <= out.Length
    modifies out
    ensures out[..] == Splice(old(out[..]), base, ChromaRow(src, w))
  {
    var n := w / 2 * 2;
    forall j: nat ensures ChromaLaneAt(src)(j) == ChromaAt(src)(j) {
      ChromaLaneIsScalar(src, j);
    }
    ChromaDelivers(src, n);
    WholePairs(w);
    MixedIsRow(ChromaLaneAt(src), ChromaAt(src), n, n / 16 * 16);
    StoreRow(out, base, ChromaVector(src), ChromaLaneAt(src), ChromaAt(src), n, 16, 2);
  }

  lemma WholePairs(w: nat)
    ensures (w / 2 * 2 - w / 2 * 2 / 16 * 16) % 2 == 0
  {
  }

  function LumaOf(rgb: seq<Byte>, w: nat): nat -> seq<Byte> {
    (y: nat) => LumaRow(RowAt(rgb, 3 * w, y), w)
  }

  function ChromaOf(rgb: seq<Byte>, w: nat): nat -> seq<Byte> {
    (r: nat) => ChromaRow(RowAt(rgb, 3 * w, 2 * r), w)
  }

  method LumaPlane(rgb: seq<Byte>, w: nat, h: nat, out: array<Byte>)
    requires h * w <= out.Length
    modifies out
    ensures RowsDone(out[..], old(out[..]), w, h, LumaOf(rgb, w))
  {
    ghost var before := out[..];
    for y := 0 to h
      invariant RowsDone(out[..], before, w, y, LumaOf(rgb, w))
    {
      RowFits(y, h, w);
      RowsDoneStep(out[..], before, w, y, LumaOf(rgb, w));
      LumaRowInto(RowAt(rgb, 3 * w, y), w, out, y * w);
    }
  }

  // One chroma row for every second row of pixels.
  method ChromaPlane(rgb: seq<Byte>, w: nat, rows: nat, out: array<Byte>)
    requires rows * w <= out.Length
    modifies out
    ensures RowsDone(out[..], old(out[..]), w, rows, ChromaOf(rgb, w))
  {
    ghost var before := out[..];
    for r := 0 to rows
      invariant RowsDone(out[..], before, w, r, ChromaOf(rgb, w))
    {
      RowFits(r, rows, w);
      RowsDoneStep(out[..], before, w, r, ChromaOf(rgb, w));
      ChromaRowInto(RowAt(rgb, 3 * w, 2 * r), w, out, r * w);
    }
  }

  // The NV12 conversion: every luma byte and every chroma byte is the scalar formula's, wherever the vectors
  // end; only the last chroma byte of a row of odd width is left as it was.
  method RgbToNv12(rgb: seq<Byte>, w: nat, h: nat, yPlane: array<Byte>, uvPlane: array<Byte>)
    requires h * (3 * w) <= |rgb| && h * w <= yPlane.Length && (h + 1) / 2 * w <= uvPlane.Length && yPlane != uvPlane
    modifies yPlane, uvPlane
    ensures RowsDone(yPlane[..], old(yPlane[..]), w, h, LumaOf(rgb, w))
    ensures RowsDone(uvPlane[..], old(uvPlane[..]), w, (h + 1) / 2, ChromaOf(rgb, w))
  {
    LumaPlane(rgb, w, h, yPlane);
    ChromaPlane(rgb, w, (h + 1) / 2, uvPlane);
  }

  lemma LumaInRange(src: seq<Byte>, x: nat)
    ensures 16 <= LumaAt(src)(x) <= 235
  {
    StudioRange(Px(src, x, 0), Px(src, x, 1), Px(src, x, 2));
  }

  lemma ChromaInRange(src: seq<Byte>, j: nat)
    ensures 16 <= ChromaAt(src)(j) <= 240
  {
    var x := j / 2 * 2;
    StudioRange(Px(src, x, 0), Px(src, x, 1), Px(src, x, 2));
  }

  // What the conversion says of single bytes: the luma of pixel (x, y), and the chroma byte j of row r.
  lemma LumaByte(now: seq<Byte>, before: seq<Byte>, rgb: seq<Byte>, w: nat, h: nat, x: nat, y: nat)
    requires RowsDone(now, before, w, h, LumaOf(rgb, w)) && x < w && y < h && h * w <= |now|
    ensures y * w + x < |now| && now[y * w + x] == LumaAt(RowAt(rgb, 3 * w, y))(x)
    ensures 16 <= now[y * w + x] <= 235
  {
    RowFits(y, h, w);
    RowsDoneByte(now, before, w, h, LumaOf(rgb, w), y, x);
    LumaInRange(RowAt(rgb, 3 * w, y), x);
  }

  lemma ChromaByte(now: seq<Byte>, before: seq<Byte>, rgb: seq<Byte>, w: nat, rows: nat, j: nat, r: nat)
    requires RowsDone(now, before, w, rows, ChromaOf(rgb, w)) && j < w && r < rows && rows * w <= |now|
    ensures r * w + j < |now|
    ensures j < w / 2 * 2 ==> now[r * w + j] == ChromaAt(RowAt(rgb, 3 * w, 2 * r))(j) && 16 <= now[r * w + j] <= 240
    ensures j >= w / 2 * 2 ==> now[r * w + j] == before[r * w + j]
  {
    RowFits(r, rows, w);
    RowsDoneByte(now, before, w, rows, ChromaOf(rgb, w), r, j);
    ChromaInRange(RowAt(rgb, 3 * w, 2 * r), j);
  }

  // Channel c of the pixel at index p of the whole image.
  function PixelByte(rgb: seq<Byte>, p: nat, c: nat): Byte
    requires 3 * p + c < |rgb|
  {
    rgb[3 * p + c]
  }

  lemma PixelPlace(w: nat, h: nat, x: nat, y: nat, size: nat)
    requires h * (3 * w) <= size && x < w && y < h
    ensures 3 * (y * w) + 3 * w <= size && 3 * (y * w + x) + 2 < size && y * (3 * w) == 3 * (y * w)
  {
    RowPlaces(y, h, w, y * w, h * w);
  }

  lemma RowPixel(rgb: seq<Byte>, w: nat, y: nat, x: nat, at: nat, c: nat)
    requires y * (3 * w) == 3 * at && 3 * at + 3 * w <= |rgb| && x < w && c < 3
    ensures Px(RowAt(rgb, 3 * w, y), x, c) == PixelByte(rgb, at + x, c)
  {
    RowIs(rgb, 3 * w, y, 3 * at);
  }

  lemma LumaOfRow(src: seq<Byte>, x: nat, r: Byte, g: Byte, b: Byte)
    requires Px(src, x, 0) == r && Px(src, x, 1) == g && Px(src, x, 2) == b
    ensures LumaAt(src)(x) == Luma(r, g, b)
  {
  }

  lemma ChromaOfRow(src: seq<Byte>, x: nat, r: Byte, g: Byte, b: Byte)
    requires x % 2 == 0 && Px(src, x, 0) == r && Px(src, x, 1) == g && Px(src, x, 2) == b
    ensures ChromaAt(src)(x) == ChromaU(r, g, b) && ChromaAt(src)(x + 1) == ChromaV(r, g, b)
  {
    assert x / 2 * 2 == x && (x + 1) / 2 * 2 == x && (x + 1) % 2 == 1;
  }

  lemma LumaFromRow(rgb: seq<Byte>, w: nat, y: nat, x: nat, at: nat)
    requires y * (3 * w) == 3 * at && 3 * at + 3 * w <= |rgb| && x < w
    ensures LumaPixel(LumaAt(RowAt(rgb, 3 * w, y))(x),
                      PixelByte(rgb, at + x, 0), PixelByte(rgb, at + x, 1), PixelByte(rgb, at + x, 2))
  {
    RowPixel(rgb, w, y, x, at, 0);
    RowPixel(rgb, w, y, x, at, 1);
    RowPixel(rgb, w, y, x, at, 2);
    var r, g, b := PixelByte(rgb, at + x, 0), PixelByte(rgb, at + x, 1), PixelByte(rgb, at + x, 2);
    LumaOfRow(RowAt(rgb, 3 * w, y), x, r, g, b);
    LumaIsNear(r, g, b);
  }

  // Every luma byte is that of its pixel, red, green and blue in this order, within 1 of its BT.601 value.
  // `at` is where the row of the pixel starts.
  lemma LumaOfPixel(now: seq<Byte>, before: seq<Byte>, rgb: seq<Byte>, w: nat, h: nat, x: nat, y: nat, at: nat)
    requires RowsDone(now, before, w, h, LumaOf(rgb, w)) && x < w && y < h && h * w <= |now| && h * (3 * w) <= |rgb|
    requires at == y * w
    ensures at + x < |now| && 3 * (at + x) + 2 < |rgb|
    ensures LumaPixel(now[at + x], PixelByte(rgb, at + x, 0), PixelByte(rgb, at + x, 1), PixelByte(rgb, at + x, 2))
  {
    PixelPlace(w, h, x, y, |rgb|);
    LumaByte(now, before, rgb, w, h, x, y);
    LumaFromRow(rgb, w, y, x, at);
  }

  // The chroma bytes of a pair of columns, read off the row of the plane.
  lemma ChromaBytes(now: seq<Byte>, before: seq<Byte>, rgb: seq<Byte>, w: nat, rows: nat, x: nat, row: nat)
    requires RowsDone(now, before, w, rows, ChromaOf(rgb, w)) && row < rows && rows * w <= |now|
    requires x % 2 == 0 && x + 1 < w
    ensures row * w + x + 1 < |now|
    ensures now[row * w + x] == ChromaAt(RowAt(rgb, 3 * w, 2 * row))(x)
    ensures now[row * w + x + 1] == ChromaAt(RowAt(rgb, 3 * w, 2 * row))(x + 1)
  {
    ChromaByte(now, before, rgb, w, rows, x, row);
    ChromaByte(now, before, rgb, w, rows, x + 1, row);
    assert row * w + (x + 1) == row * w + x + 1;
  }

  // Every pair of chroma bytes, first U then V, is that of the pixel in its even column and row, within 1 of its BT.601
  // values. `out` and `at` are where the chroma row and the row of the pixel start.
  lemma ChromaOfPixel(now: seq<Byte>, before: seq<Byte>, rgb: seq<Byte>, w: nat, h: nat, x: nat, row: nat,
                      out: nat, at: nat)
    requires RowsDone(now, before, w, (h + 1) / 2, ChromaOf(rgb, w)) && (h + 1) / 2 * w <= |now|
    requires h * (3 * w) <= |rgb| && x % 2 == 0 && x + 1 < w && 2 * row < h
    requires out == row * w && at == (2 * row) * w
    ensures out + x + 1 < |now| && 3 * (at + x) + 2 < |rgb|
    ensures ChromaPair(now[out + x], now[out + x + 1],
                       PixelByte(rgb, at + x, 0), PixelByte(rgb, at + x, 1), PixelByte(rgb, at + x, 2))
  {
    PixelPlace(w, h, x, 2 * row, |rgb|);
    ChromaBytes(now, before, rgb, w, (h + 1) / 2, x, row);
    ChromaFromRow(rgb, w, 2 * row, x, at);
  }

  lemma ChromaFromRow(rgb: seq<Byte>, w: nat, y: nat, x: nat, at: nat)
    requires y * (3 * w) == 3 * at && 3 * at + 3 * w <= |rgb| && x + 1 < w && x % 2 == 0
    ensures ChromaPair(ChromaAt(RowAt(rgb, 3 * w, y))(x), ChromaAt(RowAt(rgb, 3 * w, y))(x + 1),
                       PixelByte(rgb, at + x, 0), PixelByte(rgb, at + x, 1), PixelByte(rgb, at + x, 2))
  {
    RowPixel(rgb, w, y, x, at, 0);
    RowPixel(rgb, w, y, x, at, 1);
    RowPixel(rgb, w, y, x, at, 2);
    var r, g, b := PixelByte(rgb, at + x, 0), PixelByte(rgb, at + x, 1), PixelByte(rgb, at + x, 2);
    ChromaOfRow(RowAt(rgb, 3 * w, y), x, r, g, b);
    ChromaIsNear(r, g, b);
  }

  lemma WholePixels(w: nat)
    ensures (4 * w - 4 * w / 32 * 32) % 4 == 0
  {
  }

  method RgbToRgba(rgb: seq<Byte>, total: nat, out: array<Byte>)
    requires 3 * total <= |rgb| && 4 * total <= out.Length
    modifies out
    ensures out[..] == Splice(old(out[..]), 0, Row(RgbaAt(rgb), 4 * total))
  {
    WholePixels(total);
    RgbaDelivers(rgb, 4 * total);
    MixedIsRow(RgbaAt(rgb), RgbaAt(rgb), 4 * total, 4 * total / 32 * 32);
    StoreRow(out, 0, RgbaVector(rgb), RgbaAt(rgb), RgbaAt(rgb), 4 * total, 32, 4);
  }

  function SourceRow(y: nat, h: nat, flip: bool): nat
    requires y < h
  {
    if flip then Reversed(y, h) else y
  }

  function BalancedOf(rgb: seq<Byte>, w: nat, h: nat, gains: Gains, lut: Lut, flip: bool): nat -> seq<Byte> {
    (y: nat) => if y < h then BalancedRow(RowAt(rgb, 3 * w, SourceRow(y, h, flip)), w, gains, lut) else []
  }

  // The fused pass over all rows, the source rows taken from the bottom when flipping.
  method RgbToRgbaWbGamma(rgb: seq<Byte>, w: nat, h: nat, gains: Gains, lut: Lut, flip: bool, out: array<Byte>)
    requires h * (3 * w) <= |rgb| && h * (4 * w) <= out.Length
    modifies out
    ensures RowsDone(out[..], old(out[..]), 4 * w, h, BalancedOf(rgb, w, h, gains, lut, flip))
  {
    ghost var before := out[..];
    for y := 0 to h
      invariant RowsDone(out[..], before, 4 * w, y, BalancedOf(rgb, w, h, gains, lut, flip))
    {
      BalancedRowOf(rgb, w, h, gains, lut, flip, y, out, before, y * (4 * w));
    }
  }

  // Output row y, which starts at byte `base`.
  method BalancedRowOf(rgb: seq<Byte>, w: nat, h: nat, gains: Gains, lut: Lut, flip: bool, y: nat, out: array<Byte>,
                       ghost before: seq<Byte>, base: nat)
    requires y < h && h * (4 * w) <= out.Length && base == y * (4 * w)
    requires RowsDone(out[..], before, 4 * w, y, BalancedOf(rgb, w, h, gains, lut, flip))
    modifies out
    ensures RowsDone(out[..], before, 4 * w, y + 1, BalancedOf(rgb, w, h, gains, lut, flip))
  {
    RowFits(y, h, 4 * w);
    RowsDoneStep(out[..], before, 4 * w, y, BalancedOf(rgb, w, h, gains, lut, flip));
    BalancedRowInto(RowAt(rgb, 3 * w, SourceRow(y, h, flip)), w, gains, lut, out, base);
  }

  method BalancedRowInto(src: seq<Byte>, w: nat, gains: Gains, lut: Lut, out: array<Byte>, base: nat)
    requires base + 4 * w <= out.Length
    modifies out
    ensures out[..] == Splice(old(out[..]), base, BalancedRow(src, w, gains, lut))
  {
    WholePixels(w);
    BalancedDelivers(src, gains, lut, 4 * w);
    StoreRow(out, base, BalancedVector(src, gains, lut), BalancedLaneAt(src, gains, lut), BalancedAt(src, gains, lut),
             4 * w, 32, 4);
  }

  // The separate passes: gamma table, conversion of the whole image, and a flip if asked for.
  function Plain(rgb: seq<Byte>, total: nat, lut: Lut): seq<Byte> {
    Row(RgbaAt(Mapped(rgb, lut)), 4 * total)
  }

  lemma ScaleRow(y: nat, c: nat, w: nat)
    ensures y * (c * w) == c * (y * w)
  {
  }

  lemma PlainByte(rgb: seq<Byte>, w: nat, lut: Lut, p: nat, j: nat)
    requires 3 * p + 3 * w <= |rgb| && j < 4 * w
    ensures RgbaAt(Mapped(rgb, lut))(4 * p + j) == RgbaAt(Mapped(rgb[3 * p..3 * p + 3 * w], lut))(j)
  {
    assert (4 * p + j) / 4 == p + j / 4 && (4 * p + j) % 4 == j % 4;
  }

  lemma PlainSlice(rgb: seq<Byte>, w: nat, lut: Lut, p: nat, total: nat)
    requires 3 * p + 3 * w <= |rgb| && 4 * p + 4 * w <= 4 * total
    ensures Plain(rgb, total, lut)[4 * p..4 * p + 4 * w] == Row(RgbaAt(Mapped(rgb[3 * p..3 * p + 3 * w], lut)), 4 * w)
  {
    var f, g := RgbaAt(Mapped(rgb, lut)), RgbaAt(Mapped(rgb[3 * p..3 * p + 3 * w], lut));
    forall j: nat | j < 4 * w ensures f(4 * p + j) == g(j) {
      PlainByte(rgb, w, lut, p, j);
    }
    RowShift(f, g, 4 * total, 4 * p, 4 * w);
  }

  lemma PlainRow(rgb: seq<Byte>, w: nat, h: nat, lut: Lut, y: nat)
    requires |rgb| == h * (3 * w) && y < h
    ensures RowAt(Plain(rgb, h * w, lut), 4 * w, y) == Row(RgbaAt(Mapped(RowAt(rgb, 3 * w, y), lut)), 4 * w)
  {
    var p, total := y * w, h * w;
    RowPlaces(y, h, w, p, total);
    PlainSlice(rgb, w, lut, p, total);
    RowIs(rgb, 3 * w, y, 3 * p);
    RowIs(Plain(rgb, total, lut), 4 * w, y, 4 * p);
  }

  lemma RowPlaces(y: nat, h: nat, w: nat, p: nat, total: nat)
    requires y < h && p == y * w && total == h * w
    ensures y * (3 * w) == 3 * p && y * (4 * w) == 4 * p && h * (3 * w) == 3 * total && p + w <= total
  {
    RowFits(y, h, w);
    ScaleRow(y, 3, w);
    ScaleRow(y, 4, w);
    ScaleRow(h, 3, w);
  }

  lemma RowIs(b: seq<Byte>, n: nat, y: nat, at: nat)
    requires y * n == at && at + n <= |b|
    ensures RowAt(b, n, y) == b[at..at + n]
  {
  }

  lemma RowShift(f: nat -> Byte, g: nat -> Byte, n: nat, x: nat, k: nat)
    requires x + k <= n && forall j: nat | j < k :: f(x + j) == g(j)
    ensures Row(f, n)[x..x + k] == Row(g, k)
  {
  }

  lemma FusedRow(now: seq<Byte>, before: seq<Byte>, rgb: seq<Byte>, w: nat, h: nat, lut: Lut, flip: bool, y: nat)
    requires |rgb| == h * (3 * w) && |now| == h * (4 * w) && y < h
    requires RowsDone(now, before, 4 * w, h, BalancedOf(rgb, w, h, UNIT, lut, flip))
    ensures RowAt(now, 4 * w, y) == RowAt(Plain(rgb, h * w, lut), 4 * w, SourceRow(y, h, flip))
  {
    var s := SourceRow(y, h, flip);
    RowFits(y, h, 4 * w);
    FullRow(now, before, 4 * w, h, BalancedOf(rgb, w, h, UNIT, lut, flip), y);
    SourceRowLength(rgb, w, h, s);
    UnitRow(RowAt(rgb, 3 * w, s), w, lut);
    PlainRow(rgb, w, h, lut, s);
  }

  lemma SourceRowLength(rgb: seq<Byte>, w: nat, h: nat, s: nat)
    requires |rgb| == h * (3 * w) && s < h
    ensures |RowAt(rgb, 3 * w, s)| == 3 * w
  {
    RowFits(s, h, 3 * w);
  }

  // With unit gains the fused pass leaves what the three separate passes leave.
  lemma FusedIsSeparate(now: seq<Byte>, before: seq<Byte>, rgb: seq<Byte>, w: nat, h: nat, lut: Lut, flip: bool)
    requires |rgb| == h * (3 * w) && |now| == h * (4 * w)
    requires RowsDone(now, before, 4 * w, h, BalancedOf(rgb, w, h, UNIT, lut, flip))
    ensures if flip then IsFlip(now, Plain(rgb, h * w, lut), 4 * w, h) else now == Plain(rgb, h * w, lut)
  {
    var plain := Plain(rgb, h * w, lut);
    assert h * (4 * w) == 4 * (h * w);
    forall y: nat | y < h ensures RowAt(now, 4 * w, y) == RowAt(plain, 4 * w, SourceRow(y, h, flip)) {
      FusedRow(now, before, rgb, w, h, lut, flip, y);
    }
    if flip {
      forall y: nat | y < h ensures RowAt(now, 4 * w, y) == RowAt(plain, 4 * w, Reversed(y, h)) {
        assert SourceRow(y, h, flip) == Reversed(y, h);
      }
    } else {
      RowsDetermine(now, plain, 4 * w, h);
    }
  }
}
