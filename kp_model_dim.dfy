/** The dimensional Kirschner–Panetta equations for effector cells E, tumour
    cells T and IL-2 I_L, and how they relate to the scaled equations of
    KPModel. The tumour equation calls the growth-rate selector r_2 with
    keywords it does not accept, so that call is modelled by a small model of
    Python's keyword binding. */
module KPModelDim {
  import opened Outcomes
  import KPModel

  /** The parameter names of r_2, in declaration order. */
  const R2Params: seq<string> := ["growth_function", "x", "y", "z", "b"]

  function UnexpectedKeywordMessage(name: string): (m: string) {
    "r_2() got an unexpected keyword argument '" + name + "'"
  }

  function MissingArgumentMessage(name: string): (m: string) {
    "r_2() missing required argument: '" + name + "'"
  }

  function Names(kwargs: seq<(string, real)>): (names: seq<string>)
    ensures |names| == |kwargs|
    ensures forall i :: 0 <= i < |kwargs| ==> names[i] == kwargs[i].0
  {
    if kwargs == [] then [] else [kwargs[0].0] + Names(kwargs[1..])
  }

  /** The first keyword, in call order, that names no parameter. */
  function FirstUnexpected(kwargs: seq<(string, real)>, params: seq<string>): (r: Option<string>)
    ensures r.Some? ==> r.value in Names(kwargs) && r.value !in params
    ensures r.None? ==> forall i :: 0 <= i < |kwargs| ==> kwargs[i].0 in params
  {
    if kwargs == [] then None
    else if kwargs[0].0 !in params then Some(kwargs[0].0)
    else FirstUnexpected(kwargs[1..], params)
  }

  /** The value bound to `name`, if the call passes it. */
  function Lookup(kwargs: seq<(string, real)>, name: string): (r: Option<real>)
    ensures r.Some? <==> name in Names(kwargs)
  {
    if kwargs == [] then None
    else if kwargs[0].0 == name then Some(kwargs[0].1)
    else Lookup(kwargs[1..], name)
  }

  /** The first parameter, in declaration order, that the call leaves unbound. */
  function FirstMissing(params: seq<string>, kwargs: seq<(string, real)>): (r: Option<string>)
    ensures r.Some? ==> r.value in params && r.value !in Names(kwargs)
    ensures r.None? ==> forall i :: 0 <= i < |params| ==> Lookup(kwargs, params[i]).Some?
  {
    if params == [] then None
    else if Lookup(kwargs, params[0]).None? then Some(params[0])
    else FirstMissing(params[1..], kwargs)
  }

  /** Calling r_2 with keyword arguments only: an unknown keyword raises
      TypeError, then so does an unbound parameter; otherwise r_2 runs. */
  function CallR2(kwargs: seq<(string, real)>): (r: Result<real>)
    ensures (exists i :: 0 <= i < |kwargs| && kwargs[i].0 !in R2Params) ==> r.Err? && r.error.TypeError?
    ensures FirstUnexpected(kwargs, R2Params).Some? ==>
              r == Err(TypeError(UnexpectedKeywordMessage(FirstUnexpected(kwargs, R2Params).value)))
  {
    match FirstUnexpected(kwargs, R2Params)
    case Some(name) => Err(TypeError(UnexpectedKeywordMessage(name)))
    case None =>
      match FirstMissing(R2Params, kwargs)
      case Some(name) => Err(TypeError(MissingArgumentMessage(name)))
      case None =>
        assert Lookup(kwargs, R2Params[0]).Some? && Lookup(kwargs, R2Params[1]).Some?;
        assert Lookup(kwargs, R2Params[2]).Some? && Lookup(kwargs, R2Params[3]).Some?;
        assert Lookup(kwargs, R2Params[4]).Some?;
        KPModel.R2(Lookup(kwargs, "growth_function").value, Lookup(kwargs, "x").value,
                   Lookup(kwargs, "y").value, Lookup(kwargs, "z").value, Lookup(kwargs, "b").value)
  }

  /** Effector-cell equation: the scaled x equation read with E, T, I_L. */
  function KpDEDt(t: real, E: real, T: real, I_L: real,
                  s_1: real, c: real, mu_2: real, p_1: real, g_1: real): (r: real)
    requires g_1 + I_L != 0.0
    ensures r == KPModel.DxDt(t, E, T, I_L, c, mu_2, p_1, g_1, s_1)
    ensures E == 0.0 && T == 0.0 ==> r == s_1
  {
    c * T - mu_2 * E + (p_1 * E * I_L) / (g_1 + I_L) + s_1
  }

  /** Tumour equation. Its call to r_2 passes the keywords growth_function,
      eta, W, x and y; r_2 has no parameter eta, so the call raises TypeError
      naming eta, whatever the arguments, before the division by g_2 + T is
      reached. (In Python the last five parameters default to 1, 1, 1, 0,
      0.) */
  function KpDTDt(t: real, T: real, E: real, alpha: real, g_2: real,
                  growth_function: real, eta: real, W: real, x: real, y: real): (r: Result<real>)
    ensures r == Err(TypeError(UnexpectedKeywordMessage("eta")))
  {
    var carry_cap := W;
    var kwargs := [("growth_function", growth_function), ("eta", eta),
                   ("W", carry_cap), ("x", T), ("y", y)];
    assert FirstUnexpected(kwargs[1..], R2Params) == Some("eta");
    assert FirstUnexpected(kwargs, R2Params) == Some("eta");
    match CallR2(kwargs)
    case Err(e) => Err(e)
    case Ok(growth) => TumourRate(growth, T, E, alpha, g_2)
  }

  /** The value kp_dT_dt would return once r_2 had given the rate `growth`:
      growth minus killing by effector cells, both per tumour cell; a zero
      g_2 + T raises ZeroDivisionError. */
  function TumourRate(growth: real, T: real, E: real, alpha: real, g_2: real): (r: Result<real>)
    ensures r.Ok? <==> g_2 + T != 0.0
    ensures r.Err? ==> r.error == ZeroDivisionError
    ensures r.Ok? ==> r.value == T * (growth - (alpha * E) / (g_2 + T))
  {
    if g_2 + T == 0.0 then Err(ZeroDivisionError)
    else Ok(growth * T - (alpha * E * T) / (g_2 + T))
  }

  /** IL-2 equation at the tumour site: the scaled z equation read with
      IL, E, T, plus the extra input IL_input. */
  function KpDILDt(t: real, IL: real, E: real, T: real, IL_input: real,
                   s_2: real, p_2: real, mu_3: real, g_3: real): (r: real)
    requires g_3 + T != 0.0
    ensures r == KPModel.DzDt(t, IL, E, T, p_2, g_3, mu_3, s_2) + IL_input
    ensures E == 0.0 ==> r == -mu_3 * IL + s_2 + IL_input
  {
    (p_2 * E * T) / (g_3 + T) - mu_3 * IL + s_2 + IL_input
  }

  /** Neither dimensional equation depends on t. */
  lemma DimensionalAutonomous(t1: real, t2: real, E: real, T: real, IL: real,
                              s_1: real, c: real, mu_2: real, p_1: real, g_1: real,
                              IL_input: real, s_2: real, p_2: real, mu_3: real, g_3: real)
    requires g_1 + IL != 0.0 && g_3 + T != 0.0
    ensures KpDEDt(t1, E, T, IL, s_1, c, mu_2, p_1, g_1) == KpDEDt(t2, E, T, IL, s_1, c, mu_2, p_1, g_1)
    ensures KpDILDt(t1, IL, E, T, IL_input, s_2, p_2, mu_3, g_3) ==
            KpDILDt(t2, IL, E, T, IL_input, s_2, p_2, mu_3, g_3)
  {
  }

  lemma MulDiv(a: real, b: real, c: real)
    requires c != 0.0
    ensures a * (b / c) == (a * b) / c
  {
    var q := b / c;
    assert q * c == b;
    assert (a * q) * c == a * b;
  }

  lemma CancelCommonDivisor(a: real, b: real, c: real)
    requires b != 0.0 && c != 0.0
    ensures (a / c) / (b / c) == a / b
  {
  }

  /** A coefficient rescaled by scale/(ts·e0) times a variable rescaled by
      1/scale, times ts·e0, is the dimensional product. */
  lemma ScaledProduct(C: real, scale: real, ts: real, e0: real, V: real)
    requires scale != 0.0 && ts != 0.0 && e0 != 0.0
    ensures ((C * scale) / (ts * e0)) * (V / scale) * (ts * e0) == C * V
  {
    var c, v := (C * scale) / (ts * e0), V / scale;
    assert c * (ts * e0) == C * scale;
    assert v * scale == V;
    assert c * v * (ts * e0) == (c * (ts * e0)) * v;
  }

  /** A rate divided by ts times a variable divided by e0, times ts·e0, is the
      dimensional product. */
  lemma RateProduct(M: real, ts: real, e0: real, V: real)
    requires ts != 0.0 && e0 != 0.0
    ensures (M / ts) * (V / e0) * (ts * e0) == M * V
  {
    var mu, v := M / ts, V / e0;
    assert mu * ts == M;
    assert v * e0 == V;
    assert mu * v * (ts * e0) == (mu * ts) * (v * e0);
  }

  /** A Michaelis–Menten term keeps its form when the saturating variable and
      its half-saturation constant are divided by the same scale. */
  lemma SaturationScaling(q: real, w: real, k: real, G: real, X: real, sc: real)
    requires sc != 0.0 && G + X != 0.0 && q * k == w
    ensures G / sc + X / sc != 0.0
    ensures (q * (X / sc)) / (G / sc + X / sc) * k == (w * X) / (G + X)
  {
    var u := X / sc;
    var num, den := q * u, G / sc + u;
    assert den == (G + X) / sc && den != 0.0 by {
      AddDiv(G, X, sc);
    }
    assert num * k == w * u by {
      MulSwap(q, u, k);
    }
    DivTimes(num, den, k);
    MulDiv(w, X, sc);
    CancelCommonDivisor(w * X, G + X, sc);
  }

  lemma AddDiv(a: real, b: real, c: real)
    requires c != 0.0 && a + b != 0.0
    ensures a / c + b / c == (a + b) / c
    ensures (a + b) / c != 0.0
  {
  }

  lemma MulSwap(a: real, b: real, c: real)
    ensures a * b * c == a * c * b
  {
  }

  lemma DivTimes(a: real, b: real, c: real)
    requires b != 0.0
    ensures a / b * c == (a * c) / b
  {
  }

  lemma DivCancel(a: real, b: real)
    requires b != 0.0
    ensures a / b * b == a
  {
  }

  lemma Distribute(a: real, b: real, c: real, d: real, k: real)
    ensures (a - b + c + d) * k == a * k - b * k + c * k + d * k
  {
  }

  /** The coupling term c·y of dx_dt, with c = C·t0/(ts·e0) and y = T/t0,
      times ts·e0 is the dimensional C·T. */
  lemma CouplingTermScales(C: real, t0: real, ts: real, e0: real, T: real, c: real, y: real)
    requires t0 != 0.0 && ts != 0.0 && e0 != 0.0
    requires c == (C * t0) / (ts * e0) && y == T / t0
    ensures c * y * (ts * e0) == C * T
  {
    ScaledProduct(C, t0, ts, e0, T);
  }

  /** A decay or rate term mu·x, with mu = M/ts and x = V/e0, times ts·e0 is
      the dimensional M·V. */
  lemma RateTermScales(M: real, ts: real, e0: real, V: real, mu: real, x: real)
    requires ts != 0.0 && e0 != 0.0
    requires mu == M / ts && x == V / e0
    ensures mu * x * (ts * e0) == M * V
  {
    RateProduct(M, ts, e0, V);
  }

  /** A saturating term p·x·z/(g + z), with p·x scaled like P·E and g, z
      both divided by sc, times k is the dimensional P·E·Z/(G + Z). */
  lemma SaturationTermScales(p: real, x: real, k: real, P: real, E: real, G: real, Z: real,
                             sc: real, g: real, z: real)
    requires sc != 0.0 && G + Z != 0.0 && p * x * k == P * E
    requires g == G / sc && z == Z / sc
    ensures g + z != 0.0
    ensures (p * x * z) / (g + z) * k == (P * E * Z) / (G + Z)
  {
    SaturationScaling(p * x, P * E, k, G, Z, sc);
  }

  /** An input s = S/k times k is S. */
  lemma InputTermScales(S: real, k: real, s: real)
    requires k != 0.0 && s == S / k
    ensures s * k == S
  {
    DivCancel(S, k);
  }

  /** dx_dt times k, term by term: if each term times k is the matching
      dimensional term, dx_dt times k is dE/dt. */
  lemma EffectorScaling(E: real, T: real, IL: real, C: real, M: real, P: real, G: real, S: real,
                        x: real, y: real, z: real, c: real, mu: real, p: real, g: real, s: real,
                        k: real)
    requires g + z != 0.0 && G + IL != 0.0
    requires c * y * k == C * T && mu * x * k == M * E && s * k == S
    requires (p * x * z) / (g + z) * k == (P * E * IL) / (G + IL)
    ensures KPModel.DxDt(0.0, x, y, z, c, mu, p, g, s) * k == KpDEDt(0.0, E, T, IL, S, C, M, P, G)
  {
    Distribute(c * y, mu * x, (p * x * z) / (g + z), s, k);
  }

  /** The rescaling is consistent with the effector equation: at x = E/E0,
      y = T/T0, z = IL/IL0 and the coefficients nondim returns (read by name
      from its list), dx_dt is dE/dt divided by t_s·E0. */
  lemma NondimEffectorConsistent(e0: real, t0: real, il0: real, ts: real,
                                 d: KPModel.DimParams, E: real, T: real, IL: real)
    requires e0 != 0.0 && t0 != 0.0 && il0 != 0.0 && ts != 0.0
    requires d.g_1_in + IL != 0.0
    ensures var v := KPModel.Nondim(Some(e0), Some(t0), Some(il0), Some(ts), d).value;
            v[2] + IL / il0 != 0.0 &&
            KPModel.DxDt(0.0, E / e0, T / t0, IL / il0, v[0], v[3], v[1], v[2], v[11]) * (ts * e0) ==
            KpDEDt(0.0, E, T, IL, d.s_1_in, d.c_in, d.mu_2_in, d.p_1_in, d.g_1_in)
  {
    KPModel.NondimValue(e0, t0, il0, ts, d);
    var v := KPModel.Nondim(Some(e0), Some(t0), Some(il0), Some(ts), d).value;
    EffectorConsistentAt(e0, t0, il0, ts, d.c_in, d.mu_2_in, d.p_1_in, d.g_1_in, d.s_1_in,
                         E, T, IL, v[0], v[3], v[1], v[2], v[11]);
  }

  /** NondimEffectorConsistent with the rescaled coefficients as parameters. */
  lemma EffectorConsistentAt(e0: real, t0: real, il0: real, ts: real,
                             C: real, M: real, P: real, G: real, S: real, E: real, T: real, IL: real,
                             c: real, mu: real, p: real, g: real, s: real)
    requires e0 != 0.0 && t0 != 0.0 && il0 != 0.0 && ts != 0.0 && G + IL != 0.0
    requires c == (C * t0) / (ts * e0) && mu == M / ts && p == P / ts && g == G / il0 && s == S / (ts * e0)
    ensures g + IL / il0 != 0.0
    ensures KPModel.DxDt(0.0, E / e0, T / t0, IL / il0, c, mu, p, g, s) * (ts * e0) ==
            KpDEDt(0.0, E, T, IL, S, C, M, P, G)
  {
    var x, y, z, k := E / e0, T / t0, IL / il0, ts * e0;
    CouplingTermScales(C, t0, ts, e0, T, c, y);
    RateTermScales(M, ts, e0, E, mu, x);
    RateTermScales(P, ts, e0, E, p, x);
    SaturationTermScales(p, x, k, P, E, G, IL, il0, g, z);
    InputTermScales(S, k, s);
    EffectorScaling(E, T, IL, C, M, P, G, S, x, y, z, c, mu, p, g, s, k);
  }

  /** dz_dt (without IL_input) times k, term by term. */
  lemma IL2Scaling(E: real, T: real, IL: real, P: real, G: real, M: real, S: real,
                   x: real, y: real, z: real, p: real, g: real, mu: real, s: real, k: real)
    requires g + y != 0.0 && G + T != 0.0
    requires (p * x * y) / (g + y) * k == (P * E * T) / (G + T)
    requires mu * z * k == M * IL && s * k == S
    ensures KPModel.DzDt(0.0, z, x, y, p, g, mu, s) * k == KpDILDt(0.0, IL, E, T, 0.0, S, P, M, G)
  {
    Distribute((p * x * y) / (g + y), mu * z, s, 0.0, k);
  }

  /** The rescaling is consistent with the IL-2 equation (without IL_input):
      dz_dt at the scaled state is dIL/dt divided by t_s·IL0. */
  lemma NondimIL2Consistent(e0: real, t0: real, il0: real, ts: real,
                            d: KPModel.DimParams, E: real, T: real, IL: real)
    requires e0 != 0.0 && t0 != 0.0 && il0 != 0.0 && ts != 0.0
    requires d.g_3_in + T != 0.0
    ensures var v := KPModel.Nondim(Some(e0), Some(t0), Some(il0), Some(ts), d).value;
            v[10] + T / t0 != 0.0 &&
            KPModel.DzDt(0.0, IL / il0, E / e0, T / t0, v[9], v[10], v[8], v[12]) * (ts * il0) ==
            KpDILDt(0.0, IL, E, T, 0.0, d.s_2_in, d.p_2_in, d.mu_3_in, d.g_3_in)
  {
    KPModel.NondimValue(e0, t0, il0, ts, d);
    var v := KPModel.Nondim(Some(e0), Some(t0), Some(il0), Some(ts), d).value;
    IL2ConsistentAt(e0, t0, il0, ts, d.p_2_in, d.g_3_in, d.mu_3_in, d.s_2_in,
                    E, T, IL, v[9], v[10], v[8], v[12]);
  }

  /** NondimIL2Consistent with the rescaled coefficients as parameters. */
  lemma IL2ConsistentAt(e0: real, t0: real, il0: real, ts: real,
                        P: real, G: real, M: real, S: real, E: real, T: real, IL: real,
                        p: real, g: real, mu: real, s: real)
    requires e0 != 0.0 && t0 != 0.0 && il0 != 0.0 && ts != 0.0 && G + T != 0.0
    requires p == (P * e0) / (ts * il0) && g == G / t0 && mu == M / ts && s == S / (ts * il0)
    ensures g + T / t0 != 0.0
    ensures KPModel.DzDt(0.0, IL / il0, E / e0, T / t0, p, g, mu, s) * (ts * il0) ==
            KpDILDt(0.0, IL, E, T, 0.0, S, P, M, G)
  {
    var x, y, z, k := E / e0, T / t0, IL / il0, ts * il0;
    CouplingTermScales(P, e0, ts, il0, E, p, x);
    SaturationTermScales(p, x, k, P, E, G, T, t0, g, y);
    RateTermScales(M, ts, il0, IL, mu, z);
    InputTermScales(S, k, s);
    IL2Scaling(E, T, IL, P, G, M, S, x, y, z, p, g, mu, s, k);
  }
}
