/**
 Products and remainders, one small fact at a time.
 */
module Arithmetic {
  lemma DivMod(a: int, b: int)
    requires b > 0
    ensures a == (a / b) * b + a % b
  {}

  lemma Distribute(a: int, b: int, c: int)
    ensures (a + b) * c == a * c + b * c
  {}

  lemma Regroup(a: int, b: int, c: int)
    ensures (a * b) * c == a * (b * c) == (a * c) * b
  {}

  lemma Signs(a: int, b: nat)
    ensures a >= 0 ==> a * b >= 0
    ensures a <= 0 ==> a * b <= 0
  {}

  /** A multiple of g is not strictly between -g and 0. */
  lemma Multiples(t: int, g: nat)
    ensures t >= 0 ==> t * g >= 0
    ensures t < 0 ==> t * g <= -(g as int)
  {
    Signs(t, g);
    Signs(t + 1, g);
    Distribute(t, 1, g);
  }

  lemma ModOnce(x: int, n: int)
    requires n > 0
    ensures (x + n) % n == x % n
  {
    DivMod(x, n);
    DivMod(x + n, n);
    var t := (x + n) / n - x / n - 1;
    Distribute(x / n, 1, n);
    Distribute(x / n + 1, t, n);
    Multiples(t, n);
    Multiples(-t, n);
    Distribute(t, -t, n);
  }

  lemma {:induction false} ModShift(x: int, q: int, n: int)
    requires n > 0
    ensures (x + q * n) % n == x % n
    decreases if q < 0 then -q else q
  {
    if q > 0 {
      ModShift(x, q - 1, n);
      Distribute(q - 1, 1, n);
      ModOnce(x + (q - 1) * n, n);
    } else if q < 0 {
      ModShift(x, q + 1, n);
      Distribute(q, 1, n);
      ModOnce(x + q * n, n);
    }
  }

  lemma ModAdd(a: int, b: int, n: int)
    requires n > 0
    ensures (a % n + b) % n == (a + b) % n
  {
    DivMod(a, n);
    ModShift(a % n + b, a / n, n);
  }

  lemma ModSmall(x: nat, n: nat)
    requires x < n
    ensures x % n == x
  {}

  lemma SameRemainder(a: int, b: int, z: int, n: int)
    requires n > 0 && a == b + z * n
    ensures a % n == b % n
  {
    ModShift(b, z, n);
  }

  lemma ModEqual(a: int, b: int, n: int) returns (z: int)
    requires n > 0 && a % n == b % n
    ensures a == b + z * n
  {
    DivMod(a, n);
    DivMod(b, n);
    z := a / n - b / n;
    Distribute(z, b / n, n);
  }
}
