/**
 When the rotating sample of selectModelsForUpstreamValidation is fair on a budget that does
 not cover it: the cursor moves by the whole sample while only the budget's part is selected.
 */
module Rotation {
  import opened Arithmetic
  import opened NameLists
  import opened Selection

  // ---------------------------------------------------------------- greatest common divisor

  function Gcd(a: nat, b: nat): nat
    decreases b
  {
    if b == 0 then a else Gcd(b, a % b)
  }

  lemma {:induction false} GcdDivides(a: nat, b: nat) returns (p: nat, q: nat)
    requires a > 0 || b > 0
    ensures Gcd(a, b) > 0 && a == p * Gcd(a, b) && b == q * Gcd(a, b)
    decreases b
  {
    if b == 0 {
      p, q := 1, 0;
    } else {
      var p', q' := GcdDivides(b, a % b);
      var g, d := Gcd(a, b), a / b;
      DivMod(a, b);
      Signs(d, p');
      p, q := d * p' + q', p';
      Distribute(d * p', q', g);
      Regroup(d, p', g);
    }
  }

  lemma {:induction false} Bezout(a: nat, b: nat) returns (u: int, v: int)
    ensures u * a + v * b == Gcd(a, b)
    decreases b
  {
    if b == 0 {
      u, v := 1, 0;
    } else {
      var u', v' := Bezout(b, a % b);
      u, v := v', u' - v' * (a / b);
      BezoutStep(a, b, a / b, a % b, u', v');
      DivMod(a, b);
    }
  }

  lemma BezoutStep(a: int, b: int, d: int, r: int, u: int, v: int)
    requires a == d * b + r
    ensures v * a + (u - v * d) * b == u * b + v * r
  {
    Distribute(d * b, r, v);
    Regroup(v, d, b);
    Distribute(u, -(v * d), b);
    Distribute(v * d, -(v * d), b);
  }

  /** Some number of strides of length s ends the divisor past a multiple of n. */
  lemma StrideToGcd(s: nat, n: nat) returns (u: nat, z: int)
    requires n > 0
    ensures u * s == Gcd(s, n) + z * n
  {
    var u0, v0 := Bezout(s, n);
    var t: nat := if u0 < 0 then -u0 else u0;
    Signs(t, n - 1);
    Distribute(n - 1, 1, t);
    u, z := u0 + t * n, t * s - v0;
    Distribute(u0, t * n, s);
    Regroup(t, n, s);
    Distribute(t * s, -v0, n);
    Distribute(v0, -v0, n);
  }

  // ---------------------------------------------------------------- which positions are reached

  lemma AdvanceTurn(start: nat, k: nat, s: nat, i: nat, n: nat)
    requires n > 0
    ensures Advance(Turn(start, k, s, n), i, n) == (start + k * s + i) % n
  {
    ModAdd(start + k * s, i, n);
  }

  /** Windows at least as long as the divisor reach every position. */
  lemma StridesReach(start: nat, s: nat, n: nat, x: nat, w: nat) returns (k: nat, i: nat)
    requires start < n && x < n && w >= Gcd(s, n) > 0
    ensures i < w && Advance(Turn(start, k, s, n), i, n) == x
  {
    var g, d := Gcd(s, n), Distance(start, x, n);
    var u, z := StrideToGcd(s, n);
    DivMod(d, g);
    var q: nat := d / g;
    Signs(q, u);
    k, i := q * u, d % g;
    StrideSum(q, u, s, g, z, n);
    StrideLands(start, k, s, i, d, q * z, n);
    DistanceReaches(start, x, n);
  }

  lemma StrideLands(start: nat, k: nat, s: nat, i: nat, d: nat, z: int, n: nat)
    requires n > 0 && k * s + i == d + z * n
    ensures Advance(Turn(start, k, s, n), i, n) == (start + d) % n
  {
    AdvanceTurn(start, k, s, i, n);
    SameRemainder(start + k * s + i, start + d, z, n);
  }

  lemma StrideSum(q: int, u: int, s: int, g: int, z: int, n: int)
    requires u * s == g + z * n
    ensures (q * u) * s == q * g + (q * z) * n
  {
    Regroup(q, u, s);
    Distribute(g, z * n, q);
    Regroup(q, z, n);
  }

  /** Shorter windows all miss the same position. */
  lemma StridesMiss(start: nat, s: nat, n: nat, k: nat, i: nat)
    requires n > 0 && i + 1 < Gcd(s, n)
    ensures Advance(Turn(start, k, s, n), i, n) != Advance(start, Gcd(s, n) - 1, n)
  {
    var g := Gcd(s, n);
    AdvanceTurn(start, k, s, i, n);
    if (start + k * s + i) % n == (start + g - 1) % n {
      var z := ModEqual(start + k * s + i, start + g - 1, n);
      var t := OffsetIsMultiple(s, n, k, z);
      Multiples(t, g);
    }
  }

  lemma OffsetIsMultiple(s: nat, n: nat, k: nat, z: int) returns (t: int)
    requires n > 0
    ensures z * n - k * s == t * Gcd(s, n)
  {
    var g := Gcd(s, n);
    var p, q := GcdDivides(s, n);
    t := z * q - k * p;
    Regroup(z, q, g);
    Regroup(k, p, g);
    Distribute(t, k * p, g);
  }

  /** The window of w positions from the k-th start holds x. */
  ghost predicate Hits(start: nat, k: nat, s: nat, n: nat, w: nat, x: nat)
    requires n > 0
  {
    exists i :: 0 <= i < w && Advance(Turn(start, k, s, n), i, n) == x
  }

  lemma AllMiss(start: nat, s: nat, n: nat, k: nat, w: nat)
    requires n > 0 && w < Gcd(s, n)
    ensures !Hits(start, k, s, n, w, Advance(start, Gcd(s, n) - 1, n))
  {
    forall i | 0 <= i < w
      ensures Advance(Turn(start, k, s, n), i, n) != Advance(start, Gcd(s, n) - 1, n)
    {
      StridesMiss(start, s, n, k, i);
    }
  }

  // ---------------------------------------------------------------- steady runs

  /** Nothing is urgent, and the budget is always the same. */
  predicate Steady(models: seq<string>, delay: int, budget: int, run: Inputs) {
    Urgent(models, delay, run) == [] && run.budget == budget
  }

  function Prefix(runs: nat -> Inputs, k: nat): (r: seq<Inputs>)
    ensures |r| == k && forall i :: 0 <= i < k ==> r[i] == runs(i)
  {
    seq(k, i requires 0 <= i < k => runs(i))
  }

  /** What run number k selects, when the first one starts from a cursor. */
  function SelectedIn(models: seq<string>, delay: int, sample: int, cursor: int, runs: nat -> Inputs, k: nat)
    : seq<string>
  {
    Selected(models, delay, sample, CursorAfter(models, delay, sample, cursor, Prefix(runs, k)), runs(k))
  }

  function Shorter(a: int, b: nat): nat {
    if a < 0 then 0 else if a < b then a else b
  }

  lemma AdvanceInjective(start: nat, i: nat, j: nat, n: nat)
    requires i < j < n
    ensures Advance(start, i, n) != Advance(start, j, n)
  {
    if (start + i) % n == (start + j) % n {
      var z := ModEqual(start + i, start + j, n);
      Multiples(z, n);
    }
  }

  lemma WindowDistinct(models: seq<string>, start: nat, s: nat)
    requires Distinct(models) && models != [] && s <= |models|
    ensures Distinct(Window(models, start, s))
  {
    forall i, j | 0 <= i < j < s
      ensures Window(models, start, s)[i] != Window(models, start, s)[j]
    {
      AdvanceInjective(start, i, j, |models|);
    }
  }

  /** A steady run selects the budget's part of its window. */
  lemma SteadySelected(models: seq<string>, delay: int, sample: int, cursor: int, budget: int, run: Inputs)
    requires Distinct(models) && models != [] && sample > 0 && budget > 0 && Steady(models, delay, budget, run)
    ensures var s := SampleSize(sample, |models|);
            Selected(models, delay, sample, cursor, run) ==
            Window(models, StartOf(cursor, |models|), s)[..Shorter(budget, s)]
  {
    var rotation := Rotation(models, sample, cursor);
    WindowDistinct(models, StartOf(cursor, |models|), SampleSize(sample, |models|));
    UniqDistinct(rotation);
    assert Urgent(models, delay, run) + rotation == rotation;
    TakeFront(rotation, budget);
  }

  lemma TakeFront(s: seq<string>, budget: int)
    requires budget > 0
    ensures Take(s, budget) == s[..Shorter(budget, |s|)]
  {
    assert s[..|s|] == s;
  }

  predicate Reaches(models: seq<string>, delay: int, sample: int, cursor: int, runs: nat -> Inputs, x: nat, k: nat)
    requires x < |models|
  {
    models[x] in SelectedIn(models, delay, sample, cursor, runs, k)
  }

  lemma SteadySelects(models: seq<string>, delay: int, sample: int, cursor: int, budget: int, runs: nat -> Inputs,
                      k: nat, x: nat)
    requires Distinct(models) && x < |models| && sample > 0 && budget > 0
    requires forall k :: Steady(models, delay, budget, runs(k))
    ensures var n, s := |models|, SampleSize(sample, |models|);
            Reaches(models, delay, sample, cursor, runs, x, k) <==>
            Hits(StartOf(cursor, n), k, s, n, Shorter(budget, s), x)
  {
    var n, s, done := |models|, SampleSize(sample, |models|), Prefix(runs, k);
    var here := CursorAfter(models, delay, sample, cursor, done);
    forall i | 0 <= i < k
      ensures !CutShort(models, delay, done[i])
    {
      assert Steady(models, delay, budget, runs(i));
    }
    CursorPosition(models, delay, sample, cursor, done);
    SteadySelected(models, delay, sample, here, budget, runs(k));
    WindowMembers(models, StartOf(here, n), s, Shorter(budget, s), x);
  }

  lemma WindowMembers(models: seq<string>, start: nat, s: nat, w: nat, x: nat)
    requires Distinct(models) && x < |models| && w <= s
    ensures models[x] in Window(models, start, s)[..w] <==> exists i :: 0 <= i < w && Advance(start, i, |models|) == x
  {
    var front := Window(models, start, s)[..w];
    if models[x] in front {
      var i :| 0 <= i < |front| && front[i] == models[x];
      assert Advance(start, i, |models|) == x;
    }
    if i :| 0 <= i < w && Advance(start, i, |models|) == x {
      assert front[i] == models[x];
    }
  }

  ghost predicate Sometime(models: seq<string>, delay: int, sample: int, cursor: int, runs: nat -> Inputs, x: nat)
    requires x < |models|
  {
    exists k :: Reaches(models, delay, sample, cursor, runs, x, k)
  }

  /** With a shorter budget than the divisor some model is not selected in any run, however many there are. */
  lemma RotationStarves(models: seq<string>, delay: int, sample: int, cursor: int, budget: int, runs: nat -> Inputs)
    returns (x: nat)
    requires Distinct(models) && models != [] && sample > 0 && budget > 0
    requires forall k :: Steady(models, delay, budget, runs(k))
    requires var s := SampleSize(sample, |models|); Shorter(budget, s) < Gcd(s, |models|)
    ensures x < |models| && !Sometime(models, delay, sample, cursor, runs, x)
  {
    var n, s := |models|, SampleSize(sample, |models|);
    x := Advance(StartOf(cursor, n), Gcd(s, n) - 1, n);
    forall k
      ensures !Reaches(models, delay, sample, cursor, runs, x, k)
    {
      NeverReached(models, delay, sample, cursor, budget, runs, x, k);
    }
  }

  lemma NeverReached(models: seq<string>, delay: int, sample: int, cursor: int, budget: int, runs: nat -> Inputs,
                     x: nat, k: nat)
    requires Distinct(models) && models != [] && sample > 0 && budget > 0
    requires forall k :: Steady(models, delay, budget, runs(k))
    requires var n, s := |models|, SampleSize(sample, |models|);
             Shorter(budget, s) < Gcd(s, n) && x == Advance(StartOf(cursor, n), Gcd(s, n) - 1, n)
    ensures !Reaches(models, delay, sample, cursor, runs, x, k)
  {
    var n, s := |models|, SampleSize(sample, |models|);
    AllMiss(StartOf(cursor, n), s, n, k, Shorter(budget, s));
    SteadySelects(models, delay, sample, cursor, budget, runs, k, x);
  }

  /**
   On steady runs the rotation selects every model sooner or later if and only if the shorter
   of budget and sample is at least the greatest common divisor of sample and list length,
   whatever the starting cursor.
   */
  lemma RotationFairExactly(models: seq<string>, delay: int, sample: int, cursor: int, budget: int, runs: nat -> Inputs)
    requires Distinct(models) && models != [] && sample > 0 && budget > 0
    requires forall k :: Steady(models, delay, budget, runs(k))
    ensures var s := SampleSize(sample, |models|);
            (forall x :: 0 <= x < |models| ==> Sometime(models, delay, sample, cursor, runs, x))
            <==> Shorter(budget, s) >= Gcd(s, |models|)
  {
    var n, s := |models|, SampleSize(sample, |models|);
    if Shorter(budget, s) >= Gcd(s, n) {
      var p, q := GcdDivides(s, n);
      forall x | 0 <= x < n
        ensures Sometime(models, delay, sample, cursor, runs, x)
      {
        var k, i := StridesReach(StartOf(cursor, n), s, n, x, Shorter(budget, s));
        SteadySelects(models, delay, sample, cursor, budget, runs, k, x);
        assert Reaches(models, delay, sample, cursor, runs, x, k);
      }
    } else {
      var x := RotationStarves(models, delay, sample, cursor, budget, runs);
    }
  }
}
