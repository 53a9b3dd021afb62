// Remainders and multiples, one small step at a time.
module RingArithmetic {
  // x and x + n * t leave the same remainder.
  lemma {:induction false} ModAddMultiple(x: nat, n: nat, t: nat)
    requires n > 0
    ensures (x + n * t) % n == x % n
  {
    if t > 0 {
      ModAddMultiple(x, n, t - 1);
      assert x + n * t == x + n * (t - 1) + n;
      ModAddOne(x + n * (t - 1), n);
    }
  }

  lemma ModAddOne(x: nat, n: nat)
    requires n > 0
    ensures (x + n) % n == x % n
  {
    var q, r := x / n, x % n;
    assert x + n == n * (q + 1) + r;
    DivModUnique(x + n, n, q + 1, r);
  }

  lemma {:induction false} MulStep(n: nat, a: int, b: int)
    requires a < b
    ensures n * a + n <= n * b
    decreases b - a
  {
    assert n * b == n * (b - 1) + n;
    if a < b - 1 {
      MulStep(n, a, b - 1);
    }
  }

  lemma DivModUnique(x: nat, n: nat, q: nat, r: nat)
    requires n > 0 && x == n * q + r && r < n
    ensures x / n == q && x % n == r
  {
    var q', r' := x / n, x % n;
    assert x == n * q' + r';
    if q < q' {
      MulStep(n, q, q');
    } else if q > q' {
      MulStep(n, q', q);
    }
  }

  // Reducing modulo a multiple of n first changes nothing.
  lemma ModOfMultiple(x: nat, n: nat, m: nat)
    requires n > 0 && m > 0
    ensures n * m > 0 && (x % (n * m)) % n == x % n
  {
    var b := n * m;
    assert b > 0;
    var q, r := x / b, x % b;
    assert x == r + n * (m * q) by {
      assert x == b * q + r;
      assert b * q == n * (m * q);
    }
    ModAddMultiple(r, n, m * q);
  }

  lemma ModOfDivisor(x: nat, n: nat, b: nat)
    requires n > 0 && b > 0 && b % n == 0
    ensures (x % b) % n == x % n
  {
    var m := b / n;
    assert b == n * m;
    ModOfMultiple(x, n, m);
  }

  // Remainders of two numbers less than a modulus apart differ by their distance, up to one wrap.
  lemma ModDifference(x: nat, y: nat, b: nat)
    requires b > 0 && x - y < b && y - x < b
    ensures x % b - y % b == x - y || x % b - y % b == x - y - b || x % b - y % b == x - y + b
  {
    var p, q := x / b, y / b;
    assert x == b * p + x % b && y == b * q + y % b;
    if p > q + 1 {
      MulStep(b, q, q + 1);
      MulStep(b, q + 1, p);
    } else if q > p + 1 {
      MulStep(b, p, p + 1);
      MulStep(b, p + 1, q);
    } else if p == q + 1 {
      assert b * p == b * q + b;
    } else if q == p + 1 {
      assert b * q == b * p + b;
    }
  }

  // Two positions less than a ring apart use different slots.
  lemma SlotsDistinct(x: nat, y: nat, n: nat)
    requires n > 0 && y < x < y + n
    ensures x % n != y % n
  {
    ModDifference(x, y, n);
  }

  // Inside one lap, slots follow positions.
  lemma SlotsContiguous(x: nat, i: nat, n: nat)
    requires n > 0 && x % n + i < n
    ensures (x + i) % n == x % n + i
  {
    DivModUnique(x + i, n, x / n, x % n + i);
  }

  // A summand may be reduced first.
  lemma ModOfSum(x: nat, y: nat, n: nat)
    requires n > 0
    ensures (x % n + y) % n == (x + y) % n
  {
    var q := x / n;
    assert x + y == (x % n + y) + n * q;
    ModAddMultiple(x % n + y, n, q);
  }
}
