/**
  The parameter set of the square-wave simulator (1_SWV_simulation.py, lines 10-46):
  the physical constants, the square-wave settings, the numerical set-up derived from
  them, and the potential staircase. Floating point is replaced by exact reals.
*/
module SwvParameters {

  /** The constants at the top of the simulator script, gathered in one value. */
  datatype Params = Params(
    eFormal: real,           // formal potential (V)
    eInitial: real,          // first staircase potential (V)
    eFinal: real,            // staircase end, excluded (V)
    cBulk: real,             // bulk concentration (mol/cm^3)
    d: real,                 // diffusion coefficient (cm^2/s)
    n: nat,                  // electrons transferred
    faraday: real,           // Faraday constant
    gasConstant: real,       // gas constant
    temperature: real,       // temperature (K)
    eStep: real,             // staircase increment (V)
    eSw: real,               // square-wave amplitude (V)
    frequency: real,         // square-wave frequency (Hz)
    cDl: real,               // double-layer capacitance
    backgroundOffset: real,  // constant background current
    stepsPerHalf: nat,       // time sub-steps per half pulse
    gridSize: nat            // spatial grid points
  )

  /** The values the script hard-codes. */
  function Defaults(): Params
  {
    Params(
      eFormal := -0.33, eInitial := -0.6, eFinal := -0.15,
      cBulk := 0.0000001, d := 0.00001, n := 1,
      faraday := 96485.0, gasConstant := 8.314, temperature := 298.15,
      eStep := 0.005, eSw := 0.025, frequency := 25.0,
      cDl := 0.00001, backgroundOffset := 0.0000005,
      stepsPerHalf := 40, gridSize := 150)
  }

  /**
    The parameter sets the model covers: a positive frequency, step count, diffusion
    coefficient, staircase increment, gas constant and temperature (so that tau, dt, sigma
    and a real grid spacing exist and the staircase ascends), and at least two grid points
    so that C_O[1] exists.
  */
  predicate Valid(p: Params)
  {
    && p.frequency > 0.0
    && p.stepsPerHalf >= 1
    && p.gridSize >= 2
    && p.d > 0.0
    && p.eStep > 0.0
    && p.gasConstant > 0.0
    && p.temperature > 0.0
  }

  /** The stability factor the grid spacing is chosen to hit. */
  const StabilityTarget: real := 0.45

  /** Time for one square-wave cycle, tau = 1/f. */
  function Tau(p: Params): (tau: real)
    requires Valid(p)
    ensures tau > 0.0
  {
    1.0 / p.frequency
  }

  /** Duration of one time sub-step, dt = (tau/2)/steps_per_half. */
  function Dt(p: Params): (dt: real)
    requires Valid(p)
    ensures dt > 0.0
  {
    (Tau(p) / 2.0) / (p.stepsPerHalf as real)
  }

  /** F/(R*T), the factor of the Nernst exponent. */
  function Sigma(p: Params): real
    requires Valid(p)
  {
    p.faraday / (p.gasConstant * p.temperature)
  }

  /**
    dx = sqrt(D*dt/0.45): the square root is not computed here; a grid spacing is any
    positive dx whose square is D*dt/0.45.
  */
  predicate IsGridSpacing(p: Params, dx: real)
    requires Valid(p)
  {
    dx > 0.0 && dx * dx == p.d * Dt(p) / StabilityTarget
  }

  /** alpha = D*dt/dx^2, the stability factor of the explicit stencil. */
  function Alpha(p: Params, dx: real): real
    requires Valid(p)
    requires dx > 0.0
  {
    p.d * Dt(p) / (dx * dx)
  }

  /** Deriving dx from dt makes alpha exactly the target 0.45, hence at most 1/2. */
  lemma AlphaIsStabilityTarget(p: Params, dx: real)
    requires Valid(p)
    requires IsGridSpacing(p, dx)
    ensures Alpha(p, dx) == StabilityTarget
    ensures 0.0 <= Alpha(p, dx) <= 0.5
  {
    var x := p.d * Dt(p);
    assert x > 0.0;
    assert dx * dx == x / StabilityTarget;
    assert (x / StabilityTarget) * StabilityTarget == x;
    assert Alpha(p, dx) == x / (x / StabilityTarget);
  }

  lemma DefaultsAreValid()
    ensures Valid(Defaults())
  {
  }

  /** Number of elements of numpy.arange(start, stop, step) for step > 0, over exact reals. */
  function StaircaseLength(start: real, stop: real, step: real): (count: nat)
    requires step > 0.0
    ensures start + (count as real) * step >= stop
    ensures count > 0 ==> start + ((count - 1) as real) * step < stop
  {
    if stop <= start then 0
    else
      var q := (stop - start) / step;
      var c := if q.Floor as real == q then q.Floor else q.Floor + 1;
      QuotientTimesDivisor(stop - start, step);
      CeilingBounds(q, c);
      CeilingSteps(start, stop, step, q, c);
      c
  }

  /** The ceiling c of q = (stop - start)/step is the least count reaching stop. */
  lemma CeilingSteps(start: real, stop: real, step: real, q: real, c: int)
    requires step > 0.0 && q > 0.0
    requires q * step == stop - start
    requires (c - 1) as real < q <= c as real
    ensures c >= 1
    ensures start + (c as real) * step >= stop
    ensures start + ((c - 1) as real) * step < stop
  {
    var below := (c - 1) as real;
    MulMonotone(below, q, step);
    assert below * step < q * step;
    assert below * step < stop - start;
    MulMonotoneWeak(q, c as real, step);
  }

  lemma QuotientTimesDivisor(x: real, y: real)
    requires y > 0.0
    ensures (x / y) * y == x
    ensures x > 0.0 ==> x / y > 0.0
  {
  }

  /** c is the ceiling of q: c - 1 < q <= c. */
  lemma CeilingBounds(q: real, c: int)
    requires c == if q.Floor as real == q then q.Floor else q.Floor + 1
    ensures (c - 1) as real < q <= c as real
  {
  }

  lemma MulMonotone(a: real, b: real, k: real)
    requires a < b && k > 0.0
    ensures a * k < b * k
  {
  }

  lemma MulMonotoneWeak(a: real, b: real, k: real)
    requires a <= b && k >= 0.0
    ensures a * k <= b * k
  {
  }

  /**
    The potential axis numpy.arange(E_initial, E_final, E_step), defined by index:
    element k is E_initial + k*E_step.
  */
  function Staircase(start: real, stop: real, step: real): (axis: seq<real>)
    requires step > 0.0
    ensures |axis| == StaircaseLength(start, stop, step)
    ensures forall k :: 0 <= k < |axis| ==> axis[k] == start + (k as real) * step
  {
    seq(StaircaseLength(start, stop, step), k => start + (k as real) * step)
  }

  /** Every index below the staircase length lands strictly below the end. */
  lemma StepBelowStop(start: real, stop: real, step: real, k: nat)
    requires step > 0.0
    requires k < StaircaseLength(start, stop, step)
    ensures start + (k as real) * step < stop
  {
    var count := StaircaseLength(start, stop, step);
    MulMonotoneWeak(k as real, (count - 1) as real, step);
  }

  /** Staircase potentials grow with their index. */
  lemma ScaledOrder(start: real, step: real, i: nat, j: nat)
    requires step > 0.0
    requires i < j
    ensures start + (i as real) * step < start + (j as real) * step
  {
    var lower := i as real;
    MulMonotone(lower, j as real, step);
  }

  /**
    The staircase is half-open: strictly increasing, every potential below the end, and
    its length is the least N with start + N*step >= stop.
  */
  lemma StaircaseIsHalfOpen(start: real, stop: real, step: real)
    requires step > 0.0
    ensures var axis := Staircase(start, stop, step);
      && (forall i, j :: 0 <= i < j < |axis| ==> axis[i] < axis[j])
      && (forall k :: 0 <= k < |axis| ==> axis[k] < stop)
      && start + (|axis| as real) * step >= stop
  {
    var axis := Staircase(start, stop, step);
    forall i, j | 0 <= i < j < |axis|
      ensures axis[i] < axis[j]
    {
      assert axis[i] == start + (i as real) * step;
      assert axis[j] == start + (j as real) * step;
      ScaledOrder(start, step, i, j);
    }
    forall k | 0 <= k < |axis|
      ensures axis[k] < stop
    {
      StepBelowStop(start, stop, step, k);
    }
  }

  /** With the script's constants the staircase has 90 potentials, -0.6 up to -0.155. */
  lemma DefaultStaircaseLength()
    ensures |Staircase(Defaults().eInitial, Defaults().eFinal, Defaults().eStep)| == 90
  {
    var p := Defaults();
    var q := (p.eFinal - p.eInitial) / p.eStep;
    assert q == 90.0;
  }
}
