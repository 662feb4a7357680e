/**
  The diffusion profile of 1_SWV_simulation.py and the two parts of one time sub-step
  (lines 56-62 and 70-76): the Nernstian surface re-partition at index 0 and the explicit
  three-point diffusion stencil on the interior points. The specification is stated on
  values (Profile, Surface, Diffused, SubStepped, HalfPulsed); the class DiffusionProfile
  holds the two numpy buffers as arrays updated in place and is proved against it.
*/
module Diffusion {

  /** The two concentration profiles as values; index 0 is the electrode surface. */
  datatype Profile = Profile(oxidized: seq<real>, reduced: seq<real>)

  /** Equal lengths and a surface point distinct from the far end. */
  predicate WellFormed(c: Profile)
  {
    |c.oxidized| == |c.reduced| >= 2
  }

  /** The start of a sweep: C_O = C_bulk everywhere, C_R = 0 everywhere. */
  function Initial(size: nat, cBulk: real): (c: Profile)
    ensures |c.oxidized| == |c.reduced| == size
    ensures forall i :: 0 <= i < size ==> c.oxidized[i] == cBulk && c.reduced[i] == 0.0
  {
    Profile(seq(size, _ => cBulk), seq(size, _ => 0.0))
  }

  /** Splitting total as (total - total/(1+ratio), total/(1+ratio)) gives the ratio asked for. */
  lemma SplitByRatio(total: real, ratio: real)
    requires ratio > 0.0
    ensures total - total / (1.0 + ratio) == ratio * (total / (1.0 + ratio))
    ensures total >= 0.0 ==> 0.0 <= total / (1.0 + ratio) <= total
    ensures total >= 0.0 ==> 0.0 <= total - total / (1.0 + ratio) <= total
  {
    var q := total / (1.0 + ratio);
    assert q * (1.0 + ratio) == total;
    assert total - q == ratio * q;
    if total >= 0.0 {
      assert q >= 0.0;
      assert ratio * q >= 0.0;
    }
  }

  /**
    The surface step: the total at index 0 is re-split so that C_O[0] == ratio*C_R[0],
    with C_R[0] = total/(1+ratio) and C_O[0] = total - C_R[0]; every other point is kept.
  */
  function Surface(c: Profile, ratio: real): (c': Profile)
    requires WellFormed(c)
    requires ratio > 0.0
    ensures WellFormed(c') && |c'.oxidized| == |c.oxidized|
    ensures c'.oxidized[0] + c'.reduced[0] == c.oxidized[0] + c.reduced[0]
    ensures c'.oxidized[0] == ratio * c'.reduced[0]
    ensures c.oxidized[0] + c.reduced[0] >= 0.0 ==> c'.oxidized[0] >= 0.0 && c'.reduced[0] >= 0.0
    ensures forall i :: 1 <= i < |c.oxidized| ==>
      c'.oxidized[i] == c.oxidized[i] && c'.reduced[i] == c.reduced[i]
  {
    var total := c.oxidized[0] + c.reduced[0];
    var reduced0 := total / (1.0 + ratio);
    SplitByRatio(total, ratio);
    Profile(c.oxidized[0 := total - reduced0], c.reduced[0 := reduced0])
  }

  /**
    New value of cell i after one explicit diffusion step of one species, as numpy evaluates
    `C[1:-1] += alpha * (C[2:] - 2*C[1:-1] + C[:-2])`: the right-hand side is built from the
    old values, so an interior cell reads only its old three-cell neighbourhood; index 0
    and the last index are not written.
  */
  function StencilAt(s: seq<real>, alpha: real, i: int): real
    requires 0 <= i < |s|
  {
    if i == 0 || i == |s| - 1 then s[i]
    else s[i] + alpha * (s[i + 1] - 2.0 * s[i] + s[i - 1])
  }

  /**
    The first n cells of the diffused profile. Every cell is computed from the old profile
    s, so the cells are independent of one another; the prefix recursion only keeps the
    definition from being unfolded wherever Diffused appears.
  */
  function DiffusedUpTo(s: seq<real>, alpha: real, n: nat): (r: seq<real>)
    requires n <= |s|
    ensures |r| == n
  {
    if n == 0 then [] else DiffusedUpTo(s, alpha, n - 1) + [StencilAt(s, alpha, n - 1)]
  }

  /** One explicit diffusion step of one species: every cell replaced by StencilAt of the old profile. */
  function Diffused(s: seq<real>, alpha: real): (r: seq<real>)
    ensures |r| == |s|
  {
    DiffusedUpTo(s, alpha, |s|)
  }

  lemma {:induction false} DiffusedUpToAt(s: seq<real>, alpha: real, n: nat, i: int)
    requires n <= |s|
    requires 0 <= i < n
    ensures DiffusedUpTo(s, alpha, n)[i] == StencilAt(s, alpha, i)
  {
    if i < n - 1 {
      DiffusedUpToAt(s, alpha, n - 1, i);
    }
  }

  /** Each cell of the diffused profile is the stencil of the old profile at that cell. */
  lemma DiffusedAt(s: seq<real>, alpha: real, i: int)
    requires 0 <= i < |s|
    ensures Diffused(s, alpha)[i] == StencilAt(s, alpha, i)
  {
    DiffusedUpToAt(s, alpha, |s|, i);
  }

  /** The diffusion step changes only the interior: index 0 and the last index keep their old values. */
  lemma DiffusedKeepsBoundary(s: seq<real>, alpha: real)
    requires |s| > 0
    ensures Diffused(s, alpha)[0] == s[0]
    ensures Diffused(s, alpha)[|s| - 1] == s[|s| - 1]
  {
    DiffusedAt(s, alpha, 0);
    DiffusedAt(s, alpha, |s| - 1);
  }

  lemma MulNonNegative(a: real, b: real)
    requires a >= 0.0 && b >= 0.0
    ensures a * b >= 0.0
  {
  }

  /** With 0 <= alpha <= 1/2 each new interior value is a convex combination of its old neighbourhood. */
  lemma DiffusedWithinNeighbourhood(s: seq<real>, alpha: real, i: int, lo: real, hi: real)
    requires 0.0 <= alpha <= 0.5
    requires 1 <= i < |s| - 1
    requires lo <= s[i - 1] && lo <= s[i] && lo <= s[i + 1]
    requires s[i - 1] <= hi && s[i] <= hi && s[i + 1] <= hi
    ensures lo <= Diffused(s, alpha)[i] <= hi
  {
    DiffusedAt(s, alpha, i);
    var r := Diffused(s, alpha)[i];
    assert r == (1.0 - 2.0 * alpha) * s[i] + alpha * s[i - 1] + alpha * s[i + 1];
    MulNonNegative(1.0 - 2.0 * alpha, s[i] - lo);
    MulNonNegative(alpha, s[i - 1] - lo);
    MulNonNegative(alpha, s[i + 1] - lo);
    assert r - lo == (1.0 - 2.0 * alpha) * (s[i] - lo) + alpha * (s[i - 1] - lo) + alpha * (s[i + 1] - lo);
    MulNonNegative(1.0 - 2.0 * alpha, hi - s[i]);
    MulNonNegative(alpha, hi - s[i - 1]);
    MulNonNegative(alpha, hi - s[i + 1]);
    assert hi - r == (1.0 - 2.0 * alpha) * (hi - s[i]) + alpha * (hi - s[i - 1]) + alpha * (hi - s[i + 1]);
  }

  /** A diffusion step keeps every value of a profile inside any bounds the old profile respects. */
  lemma DiffusedStaysInRange(s: seq<real>, alpha: real, lo: real, hi: real)
    requires 0.0 <= alpha <= 0.5
    requires forall i :: 0 <= i < |s| ==> lo <= s[i] <= hi
    ensures forall i :: 0 <= i < |s| ==> lo <= Diffused(s, alpha)[i] <= hi
  {
    forall i | 0 <= i < |s|
      ensures lo <= Diffused(s, alpha)[i] <= hi
    {
      if 1 <= i < |s| - 1 {
        DiffusedWithinNeighbourhood(s, alpha, i, lo, hi);
      } else {
        DiffusedAt(s, alpha, i);
      }
    }
  }

  /** With 0 <= alpha <= 1/2 a diffusion step maps non-negative profiles to non-negative profiles. */
  lemma DiffusedKeepsNonNegative(s: seq<real>, alpha: real)
    requires 0.0 <= alpha <= 0.5
    requires forall i :: 0 <= i < |s| ==> s[i] >= 0.0
    ensures forall i :: 0 <= i < |s| ==> Diffused(s, alpha)[i] >= 0.0
  {
    forall i | 0 <= i < |s|
      ensures Diffused(s, alpha)[i] >= 0.0
    {
      DiffusedAt(s, alpha, i);
      if 1 <= i < |s| - 1 {
        var hi := if s[i - 1] >= s[i] && s[i - 1] >= s[i + 1] then s[i - 1]
                else if s[i] >= s[i + 1] then s[i] else s[i + 1];
        DiffusedWithinNeighbourhood(s, alpha, i, 0.0, hi);
      }
    }
  }

  /**
    When C_O[i] + C_R[i] is the same constant at every point, diffusing both species
    separately keeps it so: the stencil is linear and annihilates a constant.
  */
  lemma DiffusedKeepsUniformSum(o: seq<real>, r: seq<real>, alpha: real, total: real)
    requires |o| == |r|
    requires forall i :: 0 <= i < |o| ==> o[i] + r[i] == total
    ensures forall i :: 0 <= i < |o| ==> Diffused(o, alpha)[i] + Diffused(r, alpha)[i] == total
  {
    forall i | 0 <= i < |o|
      ensures Diffused(o, alpha)[i] + Diffused(r, alpha)[i] == total
    {
      DiffusedAt(o, alpha, i);
      DiffusedAt(r, alpha, i);
      if 1 <= i < |o| - 1 {
        var lapO := o[i + 1] - 2.0 * o[i] + o[i - 1];
        var lapR := r[i + 1] - 2.0 * r[i] + r[i - 1];
        assert lapO + lapR == 0.0;
        assert alpha * lapO + alpha * lapR == alpha * (lapO + lapR);
      }
    }
  }

  /** The diffusion part of a sub-step: both species, neither reading the other. */
  function DiffusionStepped(c: Profile, alpha: real): (c': Profile)
    ensures |c'.oxidized| == |c.oxidized| && |c'.reduced| == |c.reduced|
  {
    Profile(Diffused(c.oxidized, alpha), Diffused(c.reduced, alpha))
  }

  /** One time sub-step: surface re-partition, then diffusion. */
  function SubStepped(c: Profile, ratio: real, alpha: real): (c': Profile)
    requires WellFormed(c)
    requires ratio > 0.0
    ensures WellFormed(c') && |c'.oxidized| == |c.oxidized|
  {
    DiffusionStepped(Surface(c, ratio), alpha)
  }

  /** The profile after `steps` sub-steps at one fixed surface ratio (one half pulse). */
  function HalfPulsed(c: Profile, ratio: real, alpha: real, steps: nat): (c': Profile)
    requires WellFormed(c)
    requires ratio > 0.0
    ensures WellFormed(c') && |c'.oxidized| == |c.oxidized|
    decreases steps, 1
  {
    if steps == 0 then c
    else SubStepNumber(c, ratio, alpha, steps)
  }

  /** The profile sub-step number n (n >= 1) of a half pulse leaves. */
  function SubStepNumber(c: Profile, ratio: real, alpha: real, n: nat): (c': Profile)
    requires WellFormed(c)
    requires ratio > 0.0
    requires n >= 1
    ensures WellFormed(c') && |c'.oxidized| == |c.oxidized|
    decreases n, 0
  {
    SubStepped(HalfPulsed(c, ratio, alpha, n - 1), ratio, alpha)
  }

  /**
    The invariant a sweep from the initial profile keeps: C_O[i] + C_R[i] == C_bulk at every
    point, every value in [0, C_bulk], and the far end held at C_O = C_bulk, C_R = 0.
  */
  predicate InBulkBalance(c: Profile, cBulk: real)
  {
    && WellFormed(c)
    && (forall i :: 0 <= i < |c.oxidized| ==> c.oxidized[i] + c.reduced[i] == cBulk)
    && (forall i :: 0 <= i < |c.oxidized| ==> 0.0 <= c.oxidized[i] <= cBulk)
    && (forall i :: 0 <= i < |c.reduced| ==> 0.0 <= c.reduced[i] <= cBulk)
    && c.oxidized[|c.oxidized| - 1] == cBulk
    && c.reduced[|c.reduced| - 1] == 0.0
  }

  lemma InitialIsInBulkBalance(size: nat, cBulk: real)
    requires size >= 2 && cBulk >= 0.0
    ensures InBulkBalance(Initial(size, cBulk), cBulk)
  {
  }

  /** One sub-step with ratio > 0 and 0 <= alpha <= 1/2 preserves the bulk balance. */
  lemma SubStepKeepsBulkBalance(c: Profile, cBulk: real, ratio: real, alpha: real)
    requires InBulkBalance(c, cBulk)
    requires ratio > 0.0
    requires 0.0 <= alpha <= 0.5
    ensures InBulkBalance(SubStepped(c, ratio, alpha), cBulk)
  {
    var s := Surface(c, ratio);
    assert s.oxidized[0] + s.reduced[0] == cBulk;
    assert forall i :: 0 <= i < |s.oxidized| ==> s.oxidized[i] + s.reduced[i] == cBulk;
    assert forall i :: 0 <= i < |s.oxidized| ==> 0.0 <= s.oxidized[i] <= cBulk;
    assert forall i :: 0 <= i < |s.reduced| ==> 0.0 <= s.reduced[i] <= cBulk;
    DiffusedKeepsUniformSum(s.oxidized, s.reduced, alpha, cBulk);
    DiffusedStaysInRange(s.oxidized, alpha, 0.0, cBulk);
    DiffusedStaysInRange(s.reduced, alpha, 0.0, cBulk);
  }

  /** A whole half pulse preserves the bulk balance. */
  lemma {:induction false} HalfPulseKeepsBulkBalance(c: Profile, cBulk: real, ratio: real, alpha: real, steps: nat)
    requires InBulkBalance(c, cBulk)
    requires ratio > 0.0
    requires 0.0 <= alpha <= 0.5
    ensures InBulkBalance(HalfPulsed(c, ratio, alpha, steps), cBulk)
  {
    if steps > 0 {
      HalfPulseKeepsBulkBalance(c, cBulk, ratio, alpha, steps - 1);
      SubStepKeepsBulkBalance(HalfPulsed(c, ratio, alpha, steps - 1), cBulk, ratio, alpha);
    }
  }

  /** A half pulse never writes the far end, whatever the profile. */
  lemma {:induction false} HalfPulseKeepsFarEnd(c: Profile, ratio: real, alpha: real, steps: nat)
    requires WellFormed(c)
    requires ratio > 0.0
    ensures var c' := HalfPulsed(c, ratio, alpha, steps);
      && c'.oxidized[|c.oxidized| - 1] == c.oxidized[|c.oxidized| - 1]
      && c'.reduced[|c.reduced| - 1] == c.reduced[|c.reduced| - 1]
  {
    if steps > 0 {
      HalfPulseKeepsFarEnd(c, ratio, alpha, steps - 1);
    }
  }

  /**
    One species' diffusion step in place. `prev` carries the old value of a[i-1], which the
    loop has already overwritten, so every new value is computed from old values only.
  */
  method Diffuse(a: array<real>, alpha: real)
    modifies a
    ensures a[..] == Diffused(old(a[..]), alpha)
  {
    ghost var s := a[..];
    if a.Length == 0 {
      return;
    }
    var prev := a[0];
    var i := 1;
    while i < a.Length - 1
      invariant 1 <= i <= a.Length
      invariant prev == s[i - 1]
      invariant a[..i] == DiffusedUpTo(s, alpha, i)
      invariant a[i..] == s[i..]
    {
      ghost var done := a[..i];
      assert a[i] == s[i] && a[i + 1] == s[i + 1] by {
        assert a[i..][0] == a[i] && a[i..][1] == a[i + 1];
      }
      var cur := a[i];
      a[i] := cur + alpha * (a[i + 1] - 2.0 * cur + prev);
      assert a[i] == StencilAt(s, alpha, i);
      assert a[..i] == done;
      assert a[..i + 1] == a[..i] + [a[i]];
      assert a[i + 1..] == s[i + 1..];
      prev := cur;
      i := i + 1;
    }
    if i < a.Length {
      assert a[..] == a[..i] + [a[i]];
    }
  }

  /** The two numpy buffers C_O and C_R, mutated in place by every sub-step of the sweep. */
  class DiffusionProfile {
    const oxidized: array<real>
    const reduced: array<real>

    ghost predicate Valid()
    {
      oxidized != reduced && oxidized.Length == reduced.Length >= 2
    }

    /** The profile the buffers hold. */
    ghost function Value(): Profile
      reads oxidized, reduced
    {
      Profile(oxidized[..], reduced[..])
    }

    /** `C_O = np.ones(L) * C_bulk`, `C_R = np.zeros(L)`. */
    constructor (size: nat, cBulk: real)
      requires size >= 2
      ensures Valid() && fresh(oxidized) && fresh(reduced)
      ensures Value() == Initial(size, cBulk)
    {
      oxidized := new real[size](_ => cBulk);
      reduced := new real[size](_ => 0.0);
    }

    method SurfaceStep(ratio: real)
      requires Valid()
      requires ratio > 0.0
      modifies oxidized, reduced
      ensures Value() == Surface(old(Value()), ratio)
    {
      var total := oxidized[0] + reduced[0];
      reduced[0] := total / (1.0 + ratio);
      oxidized[0] := total - reduced[0];
    }

    method DiffusionStep(alpha: real)
      requires Valid()
      modifies oxidized, reduced
      ensures Value() == DiffusionStepped(old(Value()), alpha)
    {
      Diffuse(oxidized, alpha);
      Diffuse(reduced, alpha);
    }

    method SubStep(ratio: real, alpha: real)
      requires Valid()
      requires ratio > 0.0
      modifies oxidized, reduced
      ensures Value() == SubStepped(old(Value()), ratio, alpha)
    {
      SurfaceStep(ratio);
      DiffusionStep(alpha);
    }

    /** `for _ in range(steps_per_half)` at one applied potential. */
    method HalfPulse(ratio: real, alpha: real, steps: nat)
      requires Valid()
      requires ratio > 0.0
      modifies oxidized, reduced
      ensures Value() == HalfPulsed(old(Value()), ratio, alpha, steps)
    {
      for i := 0 to steps
        invariant Value() == HalfPulsed(old(Value()), ratio, alpha, i)
      {
        SubStep(ratio, alpha);
      }
    }
  }
}
