/**
  The square-wave sweep driver of 1_SWV_simulation.py (lines 43-85): one profile created
  for the whole sweep, and for every staircase potential a forward half pulse, a reverse
  half pulse, the two surface currents and one net-current sample.
*/
module SquareWave {
  import opened SwvParameters
  import opened Diffusion

  type PositiveReal = x: real | x > 0.0 witness 1.0

  /** What the sweep's arithmetic needs: valid parameters and a positive grid spacing. */
  predicate Setting(p: Params, dx: real)
  {
    Valid(p) && dx > 0.0
  }

  /**
    The Nernst ratio exp(n*sigma*(E - E_formal)) at applied potential e. numpy.exp is not
    modelled: `exp` is any function to the positive reals.
  */
  function Ratio(p: Params, exp: real -> PositiveReal, e: real): PositiveReal
    requires Valid(p)
  {
    exp((p.n as real) * Sigma(p) * (e - p.eFormal))
  }

  /** Faradaic current -n*F*D*(C_O[1] - C_O[0])/dx from the surface gradient. */
  function Faradaic(p: Params, dx: real, surface: real, next: real): real
    requires dx > 0.0
  {
    -(p.n as real) * p.faraday * p.d * (next - surface) * (1.0 / dx)
  }

  /** Charging current of the forward pulse, C_dl * (E_sw / (tau/2)). */
  function ForwardCharging(p: Params): real
    requires Valid(p)
  {
    p.cDl * (p.eSw / (Tau(p) / 2.0))
  }

  /** Charging current of the reverse pulse, C_dl * (-E_sw / (tau/2)): the forward one negated. */
  function ReverseCharging(p: Params): (i: real)
    requires Valid(p)
    ensures i == -ForwardCharging(p)
  {
    p.cDl * (-p.eSw / (Tau(p) / 2.0))
  }

  /**
    total_fwd - total_rev, each total being faradaic + charging + background offset. The
    background offset cancels and the two charging terms add up to twice the forward one,
    2*C_dl*E_sw/(tau/2).
  */
  function NetCurrent(p: Params, fwdFaradaic: real, revFaradaic: real): (net: real)
    requires Valid(p)
    ensures net == (fwdFaradaic - revFaradaic) + 2.0 * ForwardCharging(p)
  {
    var totalFwd := fwdFaradaic + ForwardCharging(p) + p.backgroundOffset;
    var totalRev := revFaradaic + ReverseCharging(p) + p.backgroundOffset;
    totalFwd - totalRev
  }

  /** The forward half pulse of staircase potential eBase: the applied potential is eBase + E_sw. */
  function ForwardHalf(p: Params, exp: real -> PositiveReal, dx: real, c: Profile, eBase: real): (c': Profile)
    requires Setting(p, dx)
    requires WellFormed(c)
    ensures WellFormed(c') && |c'.oxidized| == |c.oxidized|
  {
    HalfPulsed(c, Ratio(p, exp, eBase + p.eSw), Alpha(p, dx), p.stepsPerHalf)
  }

  /** The reverse half pulse of staircase potential eBase: the applied potential is eBase - E_sw. */
  function ReverseHalf(p: Params, exp: real -> PositiveReal, dx: real, c: Profile, eBase: real): (c': Profile)
    requires Setting(p, dx)
    requires WellFormed(c)
    ensures WellFormed(c') && |c'.oxidized| == |c.oxidized|
  {
    HalfPulsed(c, Ratio(p, exp, eBase - p.eSw), Alpha(p, dx), p.stepsPerHalf)
  }

  /** What one staircase potential produces: the profile it leaves and its currents. */
  datatype PotentialStep = PotentialStep(
    profile: Profile, fwdFaradaic: real, revFaradaic: real, net: real)

  /**
    One staircase potential: the forward half pulse, the forward current read from the
    profile it leaves, the reverse half pulse continuing from that profile, the reverse
    current, and the net current.
  */
  function Pulse(p: Params, exp: real -> PositiveReal, dx: real, c: Profile, eBase: real): (step: PotentialStep)
    requires Setting(p, dx)
    requires WellFormed(c)
    ensures WellFormed(step.profile) && |step.profile.oxidized| == |c.oxidized|
    ensures step.net == (step.fwdFaradaic - step.revFaradaic) + 2.0 * ForwardCharging(p)
  {
    var fwd := ForwardHalf(p, exp, dx, c, eBase);
    var fwdFaradaic := Faradaic(p, dx, fwd.oxidized[0], fwd.oxidized[1]);
    var rev := ReverseHalf(p, exp, dx, fwd, eBase);
    var revFaradaic := Faradaic(p, dx, rev.oxidized[0], rev.oxidized[1]);
    PotentialStep(rev, fwdFaradaic, revFaradaic, NetCurrent(p, fwdFaradaic, revFaradaic))
  }

  /** The profile after the first k staircase potentials: created once, never reset. */
  function StateAfter(p: Params, exp: real -> PositiveReal, dx: real, axis: seq<real>, k: nat): (c: Profile)
    requires Setting(p, dx)
    requires k <= |axis|
    ensures WellFormed(c) && |c.oxidized| == p.gridSize
  {
    if k == 0 then Initial(p.gridSize, p.cBulk)
    else Pulse(p, exp, dx, StateAfter(p, exp, dx, axis, k - 1), axis[k - 1]).profile
  }

  /** The list built by appending item(0), item(1), ..., item(k - 1), in that order. */
  function Appended(item: nat --> real, k: nat): (xs: seq<real>)
    requires forall j: nat :: j < k ==> item.requires(j)
    ensures |xs| == k
  {
    if k == 0 then [] else Appended(item, k - 1) + [item(k - 1)]
  }

  /** Element j of the appended list is item(j): later appends never rewrite it. */
  lemma {:induction false} AppendedAt(item: nat --> real, k: nat, j: nat)
    requires forall j: nat :: j < k ==> item.requires(j)
    requires j < k
    ensures Appended(item, k)[j] == item(j)
  {
    if j + 1 < k {
      AppendedAt(item, k - 1, j);
    }
  }

  /** The net current of staircase potential j, run on the profile the first j potentials left. */
  function SampleOf(p: Params, exp: real -> PositiveReal, dx: real, axis: seq<real>): nat --> real
  {
    (j: nat) requires Setting(p, dx) && j < |axis| => Pulse(p, exp, dx, StateAfter(p, exp, dx, axis, j), axis[j]).net
  }

  /** The list i_net after the first k staircase potentials. */
  function NetSamples(p: Params, exp: real -> PositiveReal, dx: real, axis: seq<real>, k: nat): (samples: seq<real>)
    requires Setting(p, dx)
    requires k <= |axis|
    ensures |samples| == k
  {
    Appended(SampleOf(p, exp, dx, axis), k)
  }

  /**
    Sample j of i_net is the net current of staircase potential j, run on the profile the
    first j potentials left: one sample per potential, in staircase order.
  */
  lemma NetSampleAt(p: Params, exp: real -> PositiveReal, dx: real, axis: seq<real>, k: nat, j: nat)
    requires Setting(p, dx)
    requires j < k <= |axis|
    ensures NetSamples(p, exp, dx, axis, k)[j] == Pulse(p, exp, dx, StateAfter(p, exp, dx, axis, j), axis[j]).net
  {
    AppendedAt(SampleOf(p, exp, dx, axis), k, j);
  }

  /** Each sub-step m of a forward half pulse that starts in bulk balance stays in it. */
  lemma ForwardHalfKeepsBulkBalance(p: Params, exp: real -> PositiveReal, dx: real, c: Profile, eBase: real, m: nat)
    requires Setting(p, dx) && IsGridSpacing(p, dx)
    requires InBulkBalance(c, p.cBulk)
    ensures InBulkBalance(HalfPulsed(c, Ratio(p, exp, eBase + p.eSw), Alpha(p, dx), m), p.cBulk)
  {
    AlphaIsStabilityTarget(p, dx);
    HalfPulseKeepsBulkBalance(c, p.cBulk, Ratio(p, exp, eBase + p.eSw), Alpha(p, dx), m);
  }

  /** Each sub-step m of a reverse half pulse that starts in bulk balance stays in it. */
  lemma ReverseHalfKeepsBulkBalance(p: Params, exp: real -> PositiveReal, dx: real, c: Profile, eBase: real, m: nat)
    requires Setting(p, dx) && IsGridSpacing(p, dx)
    requires InBulkBalance(c, p.cBulk)
    ensures InBulkBalance(HalfPulsed(c, Ratio(p, exp, eBase - p.eSw), Alpha(p, dx), m), p.cBulk)
  {
    AlphaIsStabilityTarget(p, dx);
    HalfPulseKeepsBulkBalance(c, p.cBulk, Ratio(p, exp, eBase - p.eSw), Alpha(p, dx), m);
  }

  /** A whole staircase potential that starts in bulk balance ends in it. */
  lemma PulseKeepsBulkBalance(p: Params, exp: real -> PositiveReal, dx: real, c: Profile, eBase: real)
    requires Setting(p, dx) && IsGridSpacing(p, dx)
    requires InBulkBalance(c, p.cBulk)
    ensures InBulkBalance(Pulse(p, exp, dx, c, eBase).profile, p.cBulk)
  {
    ForwardHalfKeepsBulkBalance(p, exp, dx, c, eBase, p.stepsPerHalf);
    var fwd := ForwardHalf(p, exp, dx, c, eBase);
    ReverseHalfKeepsBulkBalance(p, exp, dx, fwd, eBase, p.stepsPerHalf);
  }

  /**
    From the initial profile, the bulk balance (C_O + C_R == C_bulk everywhere, values in
    [0, C_bulk], far end fixed) holds after every staircase potential; with the two lemmas
    above, after every sub-step in between.
  */
  lemma {:induction false} SweepKeepsBulkBalance(p: Params, exp: real -> PositiveReal, dx: real, axis: seq<real>, k: nat)
    requires Setting(p, dx) && IsGridSpacing(p, dx)
    requires p.cBulk >= 0.0
    requires k <= |axis|
    ensures InBulkBalance(StateAfter(p, exp, dx, axis, k), p.cBulk)
  {
    if k == 0 {
      InitialIsInBulkBalance(p.gridSize, p.cBulk);
    } else {
      SweepKeepsBulkBalance(p, exp, dx, axis, k - 1);
      PulseKeepsBulkBalance(p, exp, dx, StateAfter(p, exp, dx, axis, k - 1), axis[k - 1]);
    }
  }

  /**
    One half pulse at applied potential e on the live buffers, then the Faradaic current
    read from the surface gradient it leaves.
  */
  method RunHalf(profile: DiffusionProfile, p: Params, exp: real -> PositiveReal, dx: real, e: real)
    returns (faradaic: real)
    requires Setting(p, dx)
    requires profile.Valid()
    modifies profile.oxidized, profile.reduced
    ensures profile.Value() == HalfPulsed(old(profile.Value()), Ratio(p, exp, e), Alpha(p, dx), p.stepsPerHalf)
    ensures faradaic == Faradaic(p, dx, profile.Value().oxidized[0], profile.Value().oxidized[1])
  {
    profile.HalfPulse(Ratio(p, exp, e), Alpha(p, dx), p.stepsPerHalf);
    faradaic := Faradaic(p, dx, profile.oxidized[0], profile.oxidized[1]);
  }

  /** The body of the simulation loop for one staircase potential, on the live buffers. */
  method RunPotential(profile: DiffusionProfile, p: Params, exp: real -> PositiveReal, dx: real, eBase: real)
    returns (net: real)
    requires Setting(p, dx)
    requires profile.Valid()
    modifies profile.oxidized, profile.reduced
    ensures profile.Value() == Pulse(p, exp, dx, old(profile.Value()), eBase).profile
    ensures net == Pulse(p, exp, dx, old(profile.Value()), eBase).net
  {
    var fwdFaradaic := RunHalf(profile, p, exp, dx, eBase + p.eSw);
    var fwdCharging := ForwardCharging(p);
    var revFaradaic := RunHalf(profile, p, exp, dx, eBase - p.eSw);
    var revCharging := ReverseCharging(p);
    var totalFwd := fwdFaradaic + fwdCharging + p.backgroundOffset;
    var totalRev := revFaradaic + revCharging + p.backgroundOffset;
    net := totalFwd - totalRev;
  }

  /**
    The simulation loop: the staircase numpy.arange(E_initial, E_final, E_step), one profile
    allocated once, and one net current appended per staircase potential, in order.
  */
  method Simulate(p: Params, exp: real -> PositiveReal, dx: real) returns (eAxis: seq<real>, iNet: seq<real>)
    requires Setting(p, dx) && IsGridSpacing(p, dx)
    ensures eAxis == Staircase(p.eInitial, p.eFinal, p.eStep)
    ensures |iNet| == |eAxis|
    ensures iNet == NetSamples(p, exp, dx, eAxis, |eAxis|)
  {
    var profile := new DiffusionProfile(p.gridSize, p.cBulk);
    eAxis := Staircase(p.eInitial, p.eFinal, p.eStep);
    iNet := [];
    for k := 0 to |eAxis|
      invariant profile.Valid() && profile.oxidized.Length == p.gridSize
      invariant fresh(profile.oxidized) && fresh(profile.reduced)
      invariant profile.Value() == StateAfter(p, exp, dx, eAxis, k)
      invariant iNet == NetSamples(p, exp, dx, eAxis, k)
    {
      var net := RunPotential(profile, p, exp, dx, eAxis[k]);
      iNet := iNet + [net];
    }
  }
}
