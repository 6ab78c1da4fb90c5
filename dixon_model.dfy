/** The Dixon model of IL-2 (I), CD4+ cells (C1), CD8+ and NK cells (C2) and
    tumour cells (T): four derivative formulas. The repository keeps it as an
    alternative to the Kirschner–Panetta model; nothing calls it. */
module Dixon {

  /** IL-2 is produced by CD4+ cells, decays, and receives the treatment s. */
  function DixonDIDt(beta: real, C1: real, I: real, mu_0: real, s: real): (r: real)
    ensures C1 == 0.0 && I == 0.0 ==> r == s
    ensures I == 0.0 ==> r == beta * C1 + s
  {
    beta * C1 - mu_0 * I + s
  }

  /** The IL-2 rate is linear in the treatment: raising s by d raises it by d. */
  lemma DixonDIDtLinearInTreatment(beta: real, C1: real, I: real, mu_0: real, s: real, d: real)
    ensures DixonDIDt(beta, C1, I, mu_0, s + d) == DixonDIDt(beta, C1, I, mu_0, s) + d
  {
  }

  /** CD4+ cells grow in proportion to the tumour and die at rate mu_1, so the
      population grows exactly when stimulation exceeds death. */
  function DixonDC1Dt(k1: real, C1: real, T: real, mu_1: real): (r: real)
    ensures r == C1 * (k1 * T - mu_1)
    ensures C1 == 0.0 ==> r == 0.0
    ensures C1 > 0.0 ==> (r > 0.0 <==> k1 * T > mu_1)
  {
    k1 * C1 * T - mu_1 * C1
  }

  /** CD8+ and NK cells: stimulation by the tumour, saturating proliferation
      driven by IL-2, and death; a per-capita rate times C2. */
  function DixonDC2Dt(k2: real, C2: real, T: real, mu_2: real, sigma: real, I: real, g: real): (r: real)
    requires g + I != 0.0
    ensures r == C2 * (k2 * T + (sigma * I) / (g + I) - mu_2)
    ensures C2 == 0.0 ==> r == 0.0
  {
    k2 * C2 * T + (sigma * C2 * I) / (g + I) - mu_2 * C2
  }

  /** Logistic tumour growth with carrying capacity K, minus killing by CD8+
      and NK cells; a per-capita rate times T. */
  function DixonDTDt(T: real, alpha: real, C2: real, sigma: real, K: real): (r: real)
    requires K != 0.0
    ensures r == T * (sigma * (1.0 - T / K) - alpha * C2)
    ensures T == 0.0 ==> r == 0.0
    ensures C2 == 0.0 && T == K ==> r == 0.0
  {
    sigma * T * (1.0 - T / K) - alpha * C2 * T
  }
}
