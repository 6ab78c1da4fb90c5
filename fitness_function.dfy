/** The genetic algorithm's fitness function. A candidate dosing policy is
    eight genes: genes 0..3 map the state (x, y, z, 1) linearly to the
    effector dose s_1, genes 4..7 to the IL-2 dose s_2. Negative doses are
    clamped to zero, the state is advanced by one explicit Euler step of the
    scaled Kirschner–Panetta equations with a fixed parameter set, and the
    prediction is scored as immunotherapy benefit minus three times toxicity.
    The function reads its environment and changes nothing. */
module GAFitness {
  import KPModel

  /** The simulation state the fitness function reads: time and (x, y, z). */
  datatype Environment = Environment(t: real, x: real, y: real, z: real)

  /** Everything one evaluation computes, ending in the fitness. */
  datatype Evaluation = Evaluation(
    s_1: real, s_2: real,
    x_pred: real, y_pred: real, z_pred: real,
    immunotherapy: real, toxicity: real, fitness: real)

  /** The denominators g_1 + z, g_2 + y and g_3 + y of the prediction's fixed
      parameter set are nonzero at this state. */
  predicate InDomain(env: Environment) {
    20000.0 + env.z != 0.0 && 100000.0 + env.y != 0.0 && 10000.0 + env.y != 0.0
  }

  /** The dose a group of four genes asks for before clamping:
      w·[x, y, z, 1]. */
  function RawDose(w: seq<real>, env: Environment): (d: real)
    requires |w| == 4
    ensures env.x == 0.0 && env.y == 0.0 && env.z == 0.0 ==> d == w[3]
    ensures w[0] == 0.0 && w[1] == 0.0 && w[2] == 0.0 ==> d == w[3]
  {
    w[0] * env.x + w[1] * env.y + w[2] * env.z + w[3]
  }

  /** max(0, v): the smallest non-negative number not below v. */
  function Clamp(v: real): (r: real)
    ensures r >= 0.0 && r >= v
    ensures r == 0.0 || r == v
  {
    if 0.0 >= v then 0.0 else v
  }

  /** The one-step (t_step = 1) explicit Euler prediction of (x, y, z) with
      the fixed parameter set c = 0.02, mu_2 = 0.03, p_1 = 0.1245,
      g_1 = 2·10^4, r_2 = 0.18, b = 10^-5, alpha = 0.002, g_2 = 10^5,
      p_2 = 5·10^-7, g_3 = 10^4, mu_3 = 10 and the doses s_1, s_2. A
      tumour-free state is predicted to stay tumour-free; from a state with
      neither effector nor tumour cells the effector prediction is the dose
      s_1 and IL-2 falls to −9 times its level plus s_2 (decay at rate 10
      over one step). */
  function Predict(env: Environment, s_1: real, s_2: real): (p: (real, real, real))
    requires InDomain(env)
    ensures env.y == 0.0 ==> p.1 == 0.0
    ensures env.x == 0.0 && env.y == 0.0 ==> p.0 == s_1 && p.2 == -9.0 * env.z + s_2
  {
    var t_step := 1.0;
    (env.x + KPModel.DxDt(env.t, env.x, env.y, env.z, 0.02, 0.03, 0.1245, 20000.0, s_1) * t_step,
     env.y + KPModel.DyDt(env.t, env.y, env.x, env.z, 0.18, 0.00001, 0.002, 100000.0) * t_step,
     env.z + KPModel.DzDt(env.t, env.z, env.x, env.y, 0.0000005, 10000.0, 10.0, s_2) * t_step)
  }

  /** Toxicity: raw doses, the dose-weighted effector load and the square of
      the predicted IL-2, each weighted 0.1. With non-negative doses and a
      non-negative effector prediction it is never negative. */
  function Toxicity(s_1: real, s_2: real, x_pred: real, z_pred: real): (r: real)
    ensures s_1 >= 0.0 && s_2 >= 0.0 && x_pred >= 0.0 ==> r >= 0.0
    ensures s_1 == 0.0 && s_2 == 0.0 ==> r == 0.1 * (z_pred * z_pred)
  {
    var b1, b2, b3, b4 := 0.1, 0.1, 0.1, 0.1;
    assert x_pred >= 0.0 && s_2 >= 0.0 ==> x_pred * s_2 >= 0.0;
    b1 * s_2 + b2 * s_1 + b3 * (x_pred * s_2) + b4 * (z_pred * z_pred)
  }

  /** One evaluation of a policy against the environment. */
  function Evaluate(genes: seq<real>, env: Environment): (e: Evaluation)
    requires |genes| >= 8 && InDomain(env)
    ensures e.s_1 >= 0.0 && e.s_2 >= 0.0
    ensures RawDose(genes[0..4], env) < 0.0 ==> e.s_1 == 0.0
    ensures RawDose(genes[0..4], env) >= 0.0 ==> e.s_1 == RawDose(genes[0..4], env)
    ensures RawDose(genes[4..8], env) < 0.0 ==> e.s_2 == 0.0
    ensures RawDose(genes[4..8], env) >= 0.0 ==> e.s_2 == RawDose(genes[4..8], env)
    ensures (e.x_pred, e.y_pred, e.z_pred) == Predict(env, e.s_1, e.s_2)
    ensures e.immunotherapy == 0.1 * e.x_pred - 0.1 * e.y_pred
    ensures e.toxicity == Toxicity(e.s_1, e.s_2, e.x_pred, e.z_pred)
    ensures e.fitness == e.immunotherapy - 3.0 * e.toxicity
    ensures e.x_pred >= 0.0 ==> e.toxicity >= 0.0 && e.fitness <= e.immunotherapy
  {
    var genes1, genes2 := genes[0..4], genes[4..8];
    var s_1 := Clamp(RawDose(genes1, env));
    var s_2 := Clamp(RawDose(genes2, env));
    var (x_pred, y_pred, z_pred) := Predict(env, s_1, s_2);
    var a1, a2 := 0.1, 0.1;
    var immunotherapy := a1 * x_pred - a2 * y_pred;
    var toxicity := Toxicity(s_1, s_2, x_pred, z_pred);
    var c1, c2 := 1.0, 3.0;
    Evaluation(s_1, s_2, x_pred, y_pred, z_pred, immunotherapy, toxicity,
               c1 * immunotherapy - c2 * toxicity)
  }

  /** fitness_func: the score the genetic algorithm maximises. It never
      exceeds the immunotherapy term when the effector prediction is
      non-negative, and a policy that asks for no dose of either kind is
      scored by the untreated prediction alone: its benefit minus 0.3 times
      the squared IL-2 prediction. */
  function FitnessFunc(genes: seq<real>, env: Environment): (f: real)
    requires |genes| >= 8 && InDomain(env)
    ensures var e := Evaluate(genes, env);
            e.x_pred >= 0.0 ==> f <= 0.1 * e.x_pred - 0.1 * e.y_pred
    ensures RawDose(genes[0..4], env) <= 0.0 && RawDose(genes[4..8], env) <= 0.0 ==>
              var e := Evaluate(genes, env);
              f == 0.1 * e.x_pred - 0.1 * e.y_pred - 0.3 * (e.z_pred * e.z_pred)
  {
    var e := Evaluate(genes, env);
    if RawDose(genes[0..4], env) <= 0.0 && RawDose(genes[4..8], env) <= 0.0 then
      UntreatedScore(e);
      e.fitness
    else
      e.fitness
  }

  /** An evaluation with no dose scores its benefit minus 0.3 times its
      squared IL-2 prediction. */
  lemma UntreatedScore(e: Evaluation)
    requires e.s_1 == 0.0 && e.s_2 == 0.0
    requires e.immunotherapy == 0.1 * e.x_pred - 0.1 * e.y_pred
    requires e.toxicity == Toxicity(e.s_1, e.s_2, e.x_pred, e.z_pred)
    requires e.fitness == e.immunotherapy - 3.0 * e.toxicity
    ensures e.fitness == 0.1 * e.x_pred - 0.1 * e.y_pred - 0.3 * (e.z_pred * e.z_pred)
  {
  }

  /** The effector dose depends only on genes 0..3 and the IL-2 dose only on
      genes 4..7. */
  lemma DosesUseOwnGenes(g: seq<real>, h: seq<real>, env: Environment)
    requires |g| >= 8 && |h| >= 8 && InDomain(env)
    ensures g[0..4] == h[0..4] ==> Evaluate(g, env).s_1 == Evaluate(h, env).s_1
    ensures g[4..8] == h[4..8] ==> Evaluate(g, env).s_2 == Evaluate(h, env).s_2
  {
  }

  /** The tumour prediction involves no dose, so no gene changes it. */
  lemma TumourPredictionIgnoresGenes(g: seq<real>, h: seq<real>, env: Environment)
    requires |g| >= 8 && |h| >= 8 && InDomain(env)
    ensures Evaluate(g, env).y_pred == Evaluate(h, env).y_pred
  {
  }

  /** Clamping makes every policy whose effector group asks for a negative
      dose score the same as one that asks for none. */
  lemma NegativeEffectorDoseIsNoDose(g: seq<real>, h: seq<real>, env: Environment)
    requires |g| >= 8 && |h| >= 8 && InDomain(env)
    requires RawDose(g[0..4], env) <= 0.0 && RawDose(h[0..4], env) <= 0.0
    requires g[4..8] == h[4..8]
    ensures FitnessFunc(g, env) == FitnessFunc(h, env)
  {
  }

  /** The fitness does not depend on the environment's time. */
  lemma FitnessIgnoresTime(genes: seq<real>, env: Environment, t: real)
    requires |genes| >= 8 && InDomain(env)
    ensures FitnessFunc(genes, env) == FitnessFunc(genes, env.(t := t))
  {
    var later := env.(t := t);
    RawDoseIgnoresTime(genes[0..4], env, t);
    RawDoseIgnoresTime(genes[4..8], env, t);
    var e := Evaluate(genes, env);
    PredictIgnoresTime(env, t, e.s_1, e.s_2);
  }

  lemma RawDoseIgnoresTime(w: seq<real>, env: Environment, t: real)
    requires |w| == 4
    ensures RawDose(w, env) == RawDose(w, env.(t := t))
  {
  }

  lemma PredictIgnoresTime(env: Environment, t: real, s_1: real, s_2: real)
    requires InDomain(env)
    ensures Predict(env, s_1, s_2) == Predict(env.(t := t), s_1, s_2)
  {
  }

  /** No treatment at the empty state scores exactly zero. */
  lemma ZeroPolicyAtOrigin(t: real)
    ensures FitnessFunc([0.0, 0.0, 0.0, 0.0, 0.0, 0.0, 0.0, 0.0], Environment(t, 0.0, 0.0, 0.0)) == 0.0
  {
    var e := Evaluate([0.0, 0.0, 0.0, 0.0, 0.0, 0.0, 0.0, 0.0], Environment(t, 0.0, 0.0, 0.0));
    assert e.s_1 == 0.0 && e.s_2 == 0.0;
  }

  /** Genes [0,0,0,5, 0,0,0,−3] at the empty state: the effector dose is 5,
      the IL-2 dose −3 is clamped to 0, the effector prediction is 5 and the
      fitness is 0.5 − 3·0.5 = −1. */
  lemma BiasOnlyPolicyAtOrigin(t: real)
    ensures var e := Evaluate([0.0, 0.0, 0.0, 5.0, 0.0, 0.0, 0.0, -3.0], Environment(t, 0.0, 0.0, 0.0));
            e.s_1 == 5.0 && e.s_2 == 0.0 && e.x_pred == 5.0 && e.y_pred == 0.0 && e.z_pred == 0.0 &&
            e.immunotherapy == 0.5 && e.toxicity == 0.5 && e.fitness == -1.0
  {
    var genes := [0.0, 0.0, 0.0, 5.0, 0.0, 0.0, 0.0, -3.0];
    var env := Environment(t, 0.0, 0.0, 0.0);
    assert RawDose(genes[0..4], env) == 5.0;
    assert RawDose(genes[4..8], env) == -3.0;
  }
}
