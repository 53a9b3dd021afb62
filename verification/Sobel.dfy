// The horizontal gradient energy of the autofocus metric, plain and unrolled by eight
// (camera/CameraPipeline.cpp).
module Sobel {
  import opened PixelRows

  // The green byte of pixel x.
  function Green(row: seq<Byte>, x: nat): Byte {
    if 3 * x + 1 < |row| then row[3 * x + 1] else 0
  }

  function Gradient(row: seq<Byte>, x: nat): nat
    requires x > 0
  {
    var d := Green(row, x + 1) - Green(row, x - 1);
    if d < 0 then -d else d
  }

  // Gradients of the pixels from x up to, not including, end.
  function RowEnergy(row: seq<Byte>, x: nat, end: int): nat
    requires x > 0
    decreases end - x
  {
    if x >= end then 0 else Gradient(row, x) + RowEnergy(row, x + 1, end)
  }

  // Rows 1 to h-2 of an image; border rows and columns have no gradient.
  function Energy(rgb: seq<Byte>, w: nat, y: nat): nat {
    if y < 2 then 0 else Energy(rgb, w, y - 1) + RowEnergy(RowAt(rgb, 3 * w, y - 1), 1, w - 1)
  }

  lemma {:induction false} SameGreen(a: seq<Byte>, b: seq<Byte>, x: nat, end: int)
    requires x > 0 && forall k: nat :: Green(a, k) == Green(b, k)
    ensures RowEnergy(a, x, end) == RowEnergy(b, x, end)
    decreases end - x
  {
    if x < end {
      SameGreen(a, b, x + 1, end);
    }
  }

  predicate GreenAlike(a: seq<Byte>, b: seq<Byte>) {
    |a| == |b| && forall i | 0 <= i < |a| && i % 3 == 1 :: a[i] == b[i]
  }

  lemma GreenOfRows(a: seq<Byte>, b: seq<Byte>, w: nat, y: nat, k: nat, at: nat)
    requires GreenAlike(a, b) && at == y * w && y * (3 * w) == 3 * at
    ensures Green(RowAt(a, 3 * w, y), k) == Green(RowAt(b, 3 * w, y), k)
  {
    if 3 * at + 3 * w <= |a| && k < w {
      assert (3 * at + (3 * k + 1)) % 3 == 1;
    }
  }

  // Only the green channel counts.
  lemma {:induction false} EnergyIsOfGreen(a: seq<Byte>, b: seq<Byte>, w: nat, y: nat)
    requires GreenAlike(a, b)
    ensures Energy(a, w, y) == Energy(b, w, y)
  {
    if y >= 2 {
      EnergyIsOfGreen(a, b, w, y - 1);
      var rowA, rowB := RowAt(a, 3 * w, y - 1), RowAt(b, 3 * w, y - 1);
      forall k: nat ensures Green(rowA, k) == Green(rowB, k) {
        assert (y - 1) * (3 * w) == 3 * ((y - 1) * w);
        GreenOfRows(a, b, w, y - 1, k, (y - 1) * w);
      }
      SameGreen(rowA, rowB, 1, w - 1);
    }
  }

  function Jump(dark: Byte, light: Byte): nat {
    if dark < light then light - dark else dark - light
  }

  // A vertical edge in front of column k is seen by the two pixels beside it, and by no other.
  lemma {:induction false} EdgeCountsTwice(row: seq<Byte>, x: nat, end: int, k: nat, dark: Byte, light: Byte)
    requires x > 0 && k >= 2 && forall j: nat :: j <= end ==> Green(row, j) == if j < k then dark else light
    ensures RowEnergy(row, x, end) ==
              (if x <= k - 1 < end then Jump(dark, light) else 0) + (if x <= k < end then Jump(dark, light) else 0)
    decreases end - x
  {
    if x < end {
      EdgeCountsTwice(row, x + 1, end, k, dark, light);
      assert Green(row, x + 1) == if x + 1 < k then dark else light;
      assert Green(row, x - 1) == if x - 1 < k then dark else light;
    }
  }

  method SobelRow(row: seq<Byte>, w: nat) returns (sum: nat)
    requires w >= 1
    ensures sum == RowEnergy(row, 1, w - 1)
  {
    sum := 0;
    var x := 1;
    while x < w - 1
      invariant x >= 1 && sum + RowEnergy(row, x, w - 1) == RowEnergy(row, 1, w - 1)
    {
      sum, x := sum + Gradient(row, x), x + 1;
    }
  }

  method SobelEnergy(rgb: seq<Byte>, w: nat, h: nat) returns (total: nat)
    ensures total == if w < 3 || h < 3 then 0 else Energy(rgb, w, h - 1)
  {
    total := 0;
    if w < 3 || h < 3 {
      return;
    }
    for y := 1 to h - 1
      invariant total == Energy(rgb, w, y)
    {
      var sum := SobelRow(RowAt(rgb, 3 * w, y), w);
      total := total + sum;
    }
  }

  function Eight(row: seq<Byte>, x: nat): nat
    requires x > 0
  {
    Gradient(row, x) + Gradient(row, x + 1) + Gradient(row, x + 2) + Gradient(row, x + 3)
    + Gradient(row, x + 4) + Gradient(row, x + 5) + Gradient(row, x + 6) + Gradient(row, x + 7)
  }

  lemma FourSteps(row: seq<Byte>, x: nat, end: int)
    requires x > 0 && x + 4 <= end
    ensures RowEnergy(row, x, end)
         == Gradient(row, x) + Gradient(row, x + 1) + Gradient(row, x + 2) + Gradient(row, x + 3)
            + RowEnergy(row, x + 4, end)
  {
    assert RowEnergy(row, x, end) == Gradient(row, x) + RowEnergy(row, x + 1, end);
    assert RowEnergy(row, x + 1, end) == Gradient(row, x + 1) + RowEnergy(row, x + 2, end);
    assert RowEnergy(row, x + 2, end) == Gradient(row, x + 2) + RowEnergy(row, x + 3, end);
  }

  lemma EightSteps(row: seq<Byte>, x: nat, end: int)
    requires x > 0 && x + 8 <= end
    ensures RowEnergy(row, x, end) == Eight(row, x) + RowEnergy(row, x + 8, end)
  {
    FourSteps(row, x, end);
    FourSteps(row, x + 4, end);
  }

  // The unrolled row: eight gradients a turn while more than eight are left, then one by one. It equals the
  // plain row for every width.
  method SobelRowUnrolled(row: seq<Byte>, w: nat) returns (sum: nat)
    requires w >= 1
    ensures sum == RowEnergy(row, 1, w - 1)
  {
    sum := 0;
    var x := 1;
    while x + 8 < w - 1
      invariant x >= 1 && sum + RowEnergy(row, x, w - 1) == RowEnergy(row, 1, w - 1)
    {
      EightSteps(row, x, w - 1);
      sum, x := sum + Eight(row, x), x + 8;
    }
    while x < w - 1
      invariant x >= 1 && sum + RowEnergy(row, x, w - 1) == RowEnergy(row, 1, w - 1)
    {
      sum, x := sum + Gradient(row, x), x + 1;
    }
  }

  method SobelEnergyNw(rgb: seq<Byte>, w: nat, h: nat) returns (total: nat)
    ensures total == if w < 3 || h < 3 then 0 else Energy(rgb, w, h - 1)
  {
    total := 0;
    if w < 3 || h < 3 {
      return;
    }
    for y := 1 to h - 1
      invariant total == Energy(rgb, w, y)
    {
      var sum := SobelRowUnrolled(RowAt(rgb, 3 * w, y), w);
      total := total + sum;
    }
  }
}
