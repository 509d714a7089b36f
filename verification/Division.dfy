/** Facts about whole-number division that counting arguments need. */
module Division {

  lemma LargeMultiple(k: int, d: int)
    requires d > 0
    ensures k >= 1 ==> k * d >= d
    ensures k <= -1 ==> k * d <= -d
  {
    if k >= 1 {
      assert (k - 1) * d >= 0;
    } else if k <= -1 {
      assert (k + 1) * d <= 0;
    }
  }

  /** Quotient and remainder are unique. */
  lemma Quotient(n: nat, d: nat, q: nat, r: nat)
    requires d > 0 && n == q * d + r && r < d
    ensures n / d == q && n % d == r
  {
    var k := n / d - q;
    assert n == (n / d) * d + n % d;
    assert k * d == r - n % d by {
      assert k * d == (n / d) * d - q * d;
    }
    LargeMultiple(k, d);
  }

  lemma CrossOne(n: nat, d: nat)
    requires d > 0
    ensures (n + 1) / d == n / d + if (n + 1) % d == 0 then 1 else 0
  {
    var q, r := n / d, n % d;
    assert n == q * d + r;
    if r + 1 < d {
      Quotient(n + 1, d, q, r + 1);
    } else {
      assert n + 1 == q * d + d == (q + 1) * d;
      Quotient(n + 1, d, q + 1, 0);
    }
  }

  lemma Monotone(a: nat, b: nat, d: nat)
    requires d > 0 && a <= b
    ensures a / d <= b / d
    decreases b - a
  {
    if a < b {
      CrossOne(b - 1, d);
      Monotone(a, b - 1, d);
    }
  }

  lemma FullTurn(n: nat, d: nat)
    requires d > 0
    ensures (n + d) / d == n / d + 1 && (n + d) % d == n % d
  {
    assert n + d == (n / d + 1) * d + n % d;
    Quotient(n + d, d, n / d + 1, n % d);
  }

  /** How many multiples of `d` an interval of length `w` holds. */
  lemma IntervalCount(n: nat, w: nat, d: nat)
    requires d > 0
    ensures w / d <= (n + w) / d - n / d <= w / d + 1
    decreases w
  {
    if w < d {
      Quotient(w, d, 0, w);
      Monotone(n, n + w, d);
      Monotone(n + w, n + d, d);
      FullTurn(n, d);
    } else {
      IntervalCount(n, w - d, d);
      FullTurn(n + w - d, d);
      FullTurn(w - d, d);
    }
  }

  lemma SuccMod(n: nat, d: nat)
    requires d > 0
    ensures (n + 1) % d == (n % d + 1) % d
    decreases n
  {
    if n < d {
      Quotient(n, d, 0, n);
    } else {
      SuccMod(n - d, d);
      FullTurn(n - d, d);
      FullTurn(n + 1 - d, d);
    }
  }
}
