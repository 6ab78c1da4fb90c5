/** The non-dimensional Kirschner–Panetta model of effector cells (x), tumour
    cells (y) and IL-2 (z): the three derivative formulas, the vector field that
    bundles them, the tumour growth-rate selector and the rescaling of the
    dimensional rate constants. Quantities are exact reals; a denominator such
    as g_1 + z must be nonzero, which the formulas take as a precondition. */
module KPModel {
  import opened Outcomes

  /** The thirteen dimensional rate constants `nondim` accepts, in the order of
      its keyword parameters. */
  datatype DimParams = DimParams(
    c_in: real, p_1_in: real, g_1_in: real, mu_2_in: real, g_2_in: real,
    b_in: real, r_2_in: real, alpha_in: real, mu_3_in: real, p_2_in: real,
    g_3_in: real, s_1_in: real, s_2_in: real)

  const MissingScaleMessage: string :=
    "E0, T0, IL0, and t_s must be provided for non-dimensionalization."

  predicate ScalesProvided(E0: Option<real>, T0: Option<real>, IL0: Option<real>, t_s: Option<real>) {
    E0.Some? && T0.Some? && IL0.Some? && t_s.Some?
  }

  predicate ScalesNonzero(E0: Option<real>, T0: Option<real>, IL0: Option<real>, t_s: Option<real>)
    requires ScalesProvided(E0, T0, IL0, t_s)
  {
    E0.value != 0.0 && T0.value != 0.0 && IL0.value != 0.0 && t_s.value != 0.0
  }

  /** The thirteen rescaled constants, named; `AsList` gives them in the
      order nondim returns them. */
  datatype Rescaled = Rescaled(
    c: real, p_1: real, g_1: real, mu_2: real, g_2: real, b: real, r_2: real,
    alpha: real, mu_3: real, p_2: real, g_3: real, s_1: real, s_2: real)
  {
    function AsList(): (l: seq<real>)
      ensures |l| == 13
    {
      [c, p_1, g_1, mu_2, g_2, b, r_2, alpha, mu_3, p_2, g_3, s_1, s_2]
    }
  }

  /** Each constant divided or multiplied by the scales its units call for. */
  function Rescale(e0: real, t0: real, il0: real, ts: real, d: DimParams): (n: Rescaled)
    requires e0 != 0.0 && t0 != 0.0 && il0 != 0.0 && ts != 0.0
    ensures e0 == 1.0 && t0 == 1.0 && il0 == 1.0 && ts == 1.0 ==>
              n == Rescaled(d.c_in, d.p_1_in, d.g_1_in, d.mu_2_in, d.g_2_in, d.b_in, d.r_2_in,
                            d.alpha_in, d.mu_3_in, d.p_2_in, d.g_3_in, d.s_1_in, d.s_2_in)
  {
    Rescaled((d.c_in * t0) / (ts * e0), d.p_1_in / ts, d.g_1_in / il0, d.mu_2_in / ts,
             d.g_2_in / t0, d.b_in * t0, d.r_2_in / ts, (d.alpha_in * e0) / (ts * t0),
             d.mu_3_in / ts, (d.p_2_in * e0) / (ts * il0), d.g_3_in / t0,
             d.s_1_in / (ts * e0), d.s_2_in / (ts * il0))
  }

  /** Rescales the dimensional constants by the reference sizes E0, T0, IL0 and
      the rate t_s. A missing scale raises ValueError before anything is
      computed; a zero scale makes one of the divisions raise
      ZeroDivisionError. The coefficients come back as a list in the order
      [c, p_1, g_1, mu_2, g_2, b, r_2, alpha, mu_3, p_2, g_3, s_1, s_2]. */
  function Nondim(E0: Option<real>, T0: Option<real>, IL0: Option<real>, t_s: Option<real>,
                  d: DimParams): (r: Result<seq<real>>)
    ensures r.Err? && r.error.ValueError? <==> !ScalesProvided(E0, T0, IL0, t_s)
    ensures r.Err? && r.error.ValueError? ==> r.error.message == MissingScaleMessage
    ensures r == Err(ZeroDivisionError) <==>
              ScalesProvided(E0, T0, IL0, t_s) && !ScalesNonzero(E0, T0, IL0, t_s)
    ensures r.Ok? <==> ScalesProvided(E0, T0, IL0, t_s) && ScalesNonzero(E0, T0, IL0, t_s)
    ensures r.Ok? ==> |r.value| == 13
  {
    if !ScalesProvided(E0, T0, IL0, t_s) then
      Err(ValueError(MissingScaleMessage))
    else if !ScalesNonzero(E0, T0, IL0, t_s) then
      Err(ZeroDivisionError)
    else
      Ok(Rescale(E0.value, T0.value, IL0.value, t_s.value, d).AsList())
  }

  /** With every scale provided and nonzero, entry i of nondim's list is the
      i-th rescaled constant. */
  lemma NondimValue(e0: real, t0: real, il0: real, ts: real, d: DimParams)
    requires e0 != 0.0 && t0 != 0.0 && il0 != 0.0 && ts != 0.0
    ensures Nondim(Some(e0), Some(t0), Some(il0), Some(ts), d).Ok?
    ensures var v := Nondim(Some(e0), Some(t0), Some(il0), Some(ts), d).value;
            var n := Rescale(e0, t0, il0, ts, d);
            v[0] == n.c && v[1] == n.p_1 && v[2] == n.g_1 && v[3] == n.mu_2 && v[4] == n.g_2 &&
            v[5] == n.b && v[6] == n.r_2 && v[7] == n.alpha && v[8] == n.mu_3 && v[9] == n.p_2 &&
            v[10] == n.g_3 && v[11] == n.s_1 && v[12] == n.s_2
  {
  }

  /** With every scale equal to one, rescaling changes nothing: the list is the
      dimensional constants themselves, in nondim's output order. */
  lemma NondimUnitScales(d: DimParams)
    ensures Nondim(Some(1.0), Some(1.0), Some(1.0), Some(1.0), d) ==
            Ok([d.c_in, d.p_1_in, d.g_1_in, d.mu_2_in, d.g_2_in, d.b_in, d.r_2_in,
                d.alpha_in, d.mu_3_in, d.p_2_in, d.g_3_in, d.s_1_in, d.s_2_in])
  {
  }

  /** The pure rates p_1, mu_2, r_2 and mu_3 are rescaled by t_s alone, and the
      product b·g_2 is independent of the tumour scale T0. */
  lemma NondimRates(e0: real, t0: real, il0: real, ts: real, d: DimParams)
    requires e0 != 0.0 && t0 != 0.0 && il0 != 0.0 && ts != 0.0
    ensures var v := Nondim(Some(e0), Some(t0), Some(il0), Some(ts), d).value;
            v[1] * ts == d.p_1_in && v[3] * ts == d.mu_2_in &&
            v[6] * ts == d.r_2_in && v[8] * ts == d.mu_3_in &&
            v[5] * v[4] == d.b_in * d.g_2_in
  {
    NondimValue(e0, t0, il0, ts, d);
    var v := Nondim(Some(e0), Some(t0), Some(il0), Some(ts), d).value;
    RateTimesScale(d.p_1_in, ts, v[1]);
    RateTimesScale(d.mu_2_in, ts, v[3]);
    RateTimesScale(d.r_2_in, ts, v[6]);
    RateTimesScale(d.mu_3_in, ts, v[8]);
    ScalesCancel(d.b_in, d.g_2_in, t0, v[5], v[4]);
  }

  lemma RateTimesScale(M: real, ts: real, m: real)
    requires ts != 0.0 && m == M / ts
    ensures m * ts == M
  {
  }

  lemma ScalesCancel(b: real, g: real, t0: real, B: real, G: real)
    requires t0 != 0.0 && B == b * t0 && G == g / t0
    ensures B * G == b * g
  {
    assert B * G == b * (t0 * (g / t0));
  }

  /** Scaled effector equation. */
  function DxDt(t: real, x: real, y: real, z: real,
                c: real, mu_2: real, p_1: real, g_1: real, s_1: real): (r: real)
    requires g_1 + z != 0.0
  {
    c * y - mu_2 * x + (p_1 * x * z) / (g_1 + z) + s_1
  }

  /** Without IL-2 the saturation term of dx_dt vanishes; with neither
      effector nor tumour cells only the external input s_1 remains. */
  lemma DxDtReductions(t: real, x: real, y: real, z: real,
                       c: real, mu_2: real, p_1: real, g_1: real, s_1: real)
    requires g_1 + z != 0.0
    ensures z == 0.0 ==> DxDt(t, x, y, z, c, mu_2, p_1, g_1, s_1) == c * y - mu_2 * x + s_1
    ensures x == 0.0 && y == 0.0 ==> DxDt(t, x, y, z, c, mu_2, p_1, g_1, s_1) == s_1
  {
  }

  /** Scaled tumour equation; note that y comes before x. */
  function DyDt(t: real, y: real, x: real, z: real,
                r_2: real, b: real, alpha: real, g_2: real): (r: real)
    requires g_2 + y != 0.0
  {
    r_2 * y * (1.0 - b * y) - (alpha * x * y) / (g_2 + y)
  }

  /** Without tumour cells dy_dt is zero; without effector cells it is pure
      logistic growth, which stops at the carrying capacity y = 1/b. */
  lemma DyDtReductions(t: real, y: real, x: real, z: real,
                       r_2: real, b: real, alpha: real, g_2: real)
    requires g_2 + y != 0.0
    ensures y == 0.0 ==> DyDt(t, y, x, z, r_2, b, alpha, g_2) == 0.0
    ensures x == 0.0 ==> DyDt(t, y, x, z, r_2, b, alpha, g_2) == r_2 * y * (1.0 - b * y)
    ensures x == 0.0 && b * y == 1.0 ==> DyDt(t, y, x, z, r_2, b, alpha, g_2) == 0.0
  {
  }

  /** Scaled IL-2 equation; s_2 is the external IL-2 input. */
  function DzDt(t: real, z: real, x: real, y: real,
                p_2: real, g_3: real, mu_3: real, s_2: real): (r: real)
    requires g_3 + y != 0.0
  {
    (p_2 * x * y) / (g_3 + y) - mu_3 * z + s_2
  }

  /** Without effector or without tumour cells no IL-2 is produced: only
      decay and the external input remain. */
  lemma DzDtReductions(t: real, z: real, x: real, y: real,
                       p_2: real, g_3: real, mu_3: real, s_2: real)
    requires g_3 + y != 0.0
    ensures x == 0.0 || y == 0.0 ==> DzDt(t, z, x, y, p_2, g_3, mu_3, s_2) == -mu_3 * z + s_2
  {
  }

  const InvalidGrowthMessage: string := "Invalid tumor growth function."

  /** Tumour growth rate: 1 selects the constant rate 0.18, 2 selects
      0.18·(1 − b·y); any other selector raises ValueError. */
  function R2(growth_function: real, x: real, y: real, z: real, b: real): (r: Result<real>)
    ensures r.Ok? <==> growth_function == 1.0 || growth_function == 2.0
    ensures growth_function == 1.0 ==> r.Ok? && r.value == 0.18
    ensures growth_function == 2.0 && y == 0.0 ==> r.Ok? && r.value == 0.18
    ensures growth_function == 2.0 && b * y == 1.0 ==> r.Ok? && r.value == 0.0
    ensures r.Err? ==> r.error == ValueError(InvalidGrowthMessage)
  {
    if growth_function == 1.0 then
      Ok(0.18)
    else if growth_function == 2.0 then
      Ok(0.18 * (1.0 - b * y))
    else
      Err(ValueError(InvalidGrowthMessage))
  }

  /** Without effector cells, dy_dt with r_2 = 0.18 is the per-cell rate of
      growth function 2 times the tumour size. */
  lemma TumourGrowthMatchesSelector(t: real, y: real, z: real, b: real, alpha: real, g_2: real)
    requires g_2 + y != 0.0
    ensures R2(2.0, 0.0, y, z, b).Ok?
    ensures DyDt(t, y, 0.0, z, 0.18, b, alpha, g_2) == R2(2.0, 0.0, y, z, b).value * y
  {
  }

  /** The thirteen coefficients of the vector field, in the order of
      kp_coupled's positional parameters (which is not nondim's order). */
  datatype CoupledParams = CoupledParams(
    c: real, mu_2: real, p_1: real, g_1: real, s_1: real, r_2: real, b: real,
    alpha: real, g_2: real, p_2: real, g_3: real, mu_3: real, s_2: real)

  /** The denominators of the three formulas at state (x, y, z) are nonzero. */
  predicate Defined(p: CoupledParams, y: real, z: real) {
    p.g_1 + z != 0.0 && p.g_2 + y != 0.0 && p.g_3 + y != 0.0
  }

  /** How a 13-element list binds to kp_coupled's parameters when it is spread
      positionally after (t, state), as an `args` tuple is. */
  function PositionalArgs(args: seq<real>): (p: CoupledParams)
    requires |args| == 13
  {
    CoupledParams(args[0], args[1], args[2], args[3], args[4], args[5], args[6],
                  args[7], args[8], args[9], args[10], args[11], args[12])
  }

  /** The digit of a count below ten, as Python prints it. */
  function Digit(n: nat): (c: char)
    requires n < 10
    ensures '0' <= c <= '9'
  {
    ['0', '1', '2', '3', '4', '5', '6', '7', '8', '9'][n]
  }

  /** The vector field: unpacks the state into x, y, z (a state of another
      length raises ValueError) and returns the three derivatives. The
      tumour-free plane y = 0 is invariant, on the axis x = y = 0 effector
      cells change only by their input and IL-2 relaxes towards s_2/mu_3,
      and with non-negative coefficients and inputs no component of a
      non-negative state is driven below zero from its boundary. */
  function KpCoupled(t: real, state: seq<real>, p: CoupledParams): (r: Result<seq<real>>)
    requires |state| == 3 ==> Defined(p, state[1], state[2])
    ensures r.Ok? <==> |state| == 3
    ensures r.Err? ==> r.error.ValueError?
    ensures r.Ok? ==> |r.value| == 3
    ensures r.Ok? && state[1] == 0.0 ==> r.value[1] == 0.0
    ensures r.Ok? && state[0] == 0.0 && state[1] == 0.0 ==>
              r.value[0] == p.s_1 && r.value[2] == -p.mu_3 * state[2] + p.s_2
    ensures r.Ok? && state[0] == 0.0 && state[1] >= 0.0 && p.c >= 0.0 && p.s_1 >= 0.0 ==>
              r.value[0] >= 0.0
    ensures r.Ok? && state[2] == 0.0 && state[0] >= 0.0 && state[1] >= 0.0 &&
            p.p_2 >= 0.0 && p.g_3 + state[1] > 0.0 && p.s_2 >= 0.0 ==>
              r.value[2] >= 0.0
  {
    if |state| > 3 then
      Err(ValueError("too many values to unpack (expected 3)"))
    else if |state| < 3 then
      Err(ValueError("not enough values to unpack (expected 3, got " + [Digit(|state|)] + ")"))
    else
      var x, y, z := state[0], state[1], state[2];
      assert x >= 0.0 && y >= 0.0 && p.p_2 >= 0.0 ==> p.p_2 * x * y >= 0.0;
      assert y >= 0.0 && p.c >= 0.0 ==> p.c * y >= 0.0;
      Ok([ DxDt(t, x, y, z, p.c, p.mu_2, p.p_1, p.g_1, p.s_1),
           DyDt(t, y, x, z, p.r_2, p.b, p.alpha, p.g_2),
           DzDt(t, z, x, y, p.p_2, p.g_3, p.mu_3, p.s_2) ])
  }

  /** The vector field is autonomous: it does not depend on t. */
  lemma KpCoupledAutonomous(t1: real, t2: real, state: seq<real>, p: CoupledParams)
    requires |state| == 3 ==> Defined(p, state[1], state[2])
    ensures KpCoupled(t1, state, p) == KpCoupled(t2, state, p)
  {
    if |state| == 3 {
      var x, y, z := state[0], state[1], state[2];
      assert DxDt(t1, x, y, z, p.c, p.mu_2, p.p_1, p.g_1, p.s_1) == DxDt(t2, x, y, z, p.c, p.mu_2, p.p_1, p.g_1, p.s_1);
      assert DyDt(t1, y, x, z, p.r_2, p.b, p.alpha, p.g_2) == DyDt(t2, y, x, z, p.r_2, p.b, p.alpha, p.g_2);
      assert DzDt(t1, z, x, y, p.p_2, p.g_3, p.mu_3, p.s_2) == DzDt(t2, z, x, y, p.p_2, p.g_3, p.mu_3, p.s_2);
    }
  }

  /** The tumour-free steady state: with y = 0, IL-2 settles at z = s_2 / mu_3
      and effector cells at x = s_1 / (mu_2 − p_1·z / (g_1 + z)); there every
      derivative is zero. */
  lemma TumourFreeSteadyState(t: real, p: CoupledParams, x: real, z: real)
    requires p.mu_3 != 0.0 && z == p.s_2 / p.mu_3
    requires p.g_1 + z != 0.0 && p.g_2 != 0.0 && p.g_3 != 0.0
    requires p.mu_2 - p.p_1 * z / (p.g_1 + z) != 0.0
    requires x == p.s_1 / (p.mu_2 - p.p_1 * z / (p.g_1 + z))
    ensures KpCoupled(t, [x, 0.0, z], p) == Ok([0.0, 0.0, 0.0])
  {
    var q := p.p_1 * z / (p.g_1 + z);
    var k := p.mu_2 - q;
    assert x * k == p.s_1;
    assert (p.p_1 * x * z) / (p.g_1 + z) == x * q;
    assert DxDt(t, x, 0.0, z, p.c, p.mu_2, p.p_1, p.g_1, p.s_1) == -(x * k) + p.s_1;
    assert DyDt(t, 0.0, x, z, p.r_2, p.b, p.alpha, p.g_2) == 0.0;
    assert p.mu_3 * z == p.s_2;
    assert DzDt(t, z, x, 0.0, p.p_2, p.g_3, p.mu_3, p.s_2) == 0.0;
  }

  /** If nondim's list is handed to kp_coupled positionally, only c, alpha,
      p_2, g_3 and s_2 reach the parameter of the same name; the others are
      shifted (kp_coupled's mu_2 receives nondim's p_1, its s_1 receives g_2,
      and so on). With unit scales and distinct constants the resulting
      vector field differs from the intended one. */
  lemma NondimOrderIsNotCoupledOrder(d: DimParams)
    requires d == DimParams(1.0, 2.0, 3.0, 4.0, 5.0, 6.0, 7.0, 8.0, 9.0, 10.0, 11.0, 12.0, 13.0)
    ensures var v := Nondim(Some(1.0), Some(1.0), Some(1.0), Some(1.0), d).value;
            var p := PositionalArgs(v);
            p.c == d.c_in && p.alpha == d.alpha_in && p.p_2 == d.p_2_in &&
            p.g_3 == d.g_3_in && p.s_2 == d.s_2_in &&
            p.mu_2 == d.p_1_in != d.mu_2_in && p.s_1 == d.g_2_in != d.s_1_in &&
            KpCoupled(0.0, [1.0, 0.0, 0.0], p) != KpCoupled(0.0, [1.0, 0.0, 0.0],
              CoupledParams(d.c_in, d.mu_2_in, d.p_1_in, d.g_1_in, d.s_1_in, d.r_2_in, d.b_in,
                            d.alpha_in, d.g_2_in, d.p_2_in, d.g_3_in, d.mu_3_in, d.s_2_in))
  {
    NondimUnitScales(d);
  }
}
