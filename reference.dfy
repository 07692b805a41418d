/** The closed-form quoting formulas of the Avellaneda-Stoikov model, stated once,
    as the design describes them. Every strategy file is proved against these. */
module Reference {
  import opened Common

  /** γσ²τ: inventory risk in the arithmetic-price model. */
  function InventoryRisk(gamma: real, sigma: real, tau: real): real
  {
    gamma * sigma * sigma * tau
  }

  /** 1 − e^(−σ²τ): the share of the variance horizon already used up, in the
      geometric-price model. */
  function Decay(np: NumPy, sigma: real, tau: real): real
  {
    1.0 - np.exp(-(sigma * sigma) * tau)
  }

  /** γS²(1 − e^(−σ²τ)): inventory risk in the geometric-price model. */
  function GbmInventoryRisk(np: NumPy, gamma: real, sigma: real, price: real, tau: real): real
  {
    gamma * price * price * Decay(np, sigma, tau)
  }

  /** (2/γ)·ln(1 + γ/κ): the execution-probability part of the full spread. */
  function LiquidityTerm(np: NumPy, gamma: real, k: real): real
    requires gamma != 0.0 && k != 0.0
  {
    (2.0 / gamma) * np.log(1.0 + gamma / k)
  }

  /** The full spread: inventory risk plus the liquidity term. */
  function FullSpread(np: NumPy, gamma: real, sigma: real, k: real, tau: real): real
    requires gamma != 0.0 && k != 0.0
  {
    InventoryRisk(gamma, sigma, tau) + LiquidityTerm(np, gamma, k)
  }

  /** The full spread of the geometric-price model. */
  function GbmFullSpread(np: NumPy, gamma: real, sigma: real, k: real, price: real, tau: real): real
    requires gamma != 0.0 && k != 0.0
  {
    GbmInventoryRisk(np, gamma, sigma, price, tau) + LiquidityTerm(np, gamma, k)
  }

  /** The reservation price: the mid-price shifted against the position by q times
      the inventory risk. */
  function Reservation(price: real, q: int, risk: real): real
  {
    price - q as real * risk
  }

  /** A flat book, or no risk left, quotes around the mid-price itself. */
  lemma ReservationIsMidWithoutSkew(price: real, q: int, risk: real)
    requires q == 0 || risk == 0.0
    ensures Reservation(price, q, risk) == price
  {
  }

  /** With positive risk the reservation price falls strictly as inventory grows. */
  lemma ReservationStrictlyDecreasing(price: real, q1: int, q2: int, risk: real)
    requires risk > 0.0 && q1 < q2
    ensures Reservation(price, q1, risk) > Reservation(price, q2, risk)
  {
    assert (q2 - q1) as real * risk > 0.0;
  }

  /** No time remaining (or elapsed) means no arithmetic inventory risk. */
  lemma InventoryRiskVanishesAtZero(gamma: real, sigma: real)
    ensures InventoryRisk(gamma, sigma, 0.0) == 0.0
  {
  }

  /** With γ > 0 the arithmetic inventory risk never decreases with τ. */
  lemma InventoryRiskMonotone(gamma: real, sigma: real, tau1: real, tau2: real)
    requires gamma > 0.0 && tau1 <= tau2
    ensures InventoryRisk(gamma, sigma, tau1) <= InventoryRisk(gamma, sigma, tau2)
  {
    var c := gamma * sigma * sigma;
    assert c >= 0.0 by {
      assert sigma * sigma >= 0.0;
    }
    assert InventoryRisk(gamma, sigma, tau2) - InventoryRisk(gamma, sigma, tau1) == c * (tau2 - tau1);
  }

  /** The geometric inventory risk vanishes at τ = 0, given e^0 = 1. */
  lemma GbmInventoryRiskVanishesAtZero(np: NumPy, gamma: real, sigma: real, price: real)
    requires np.exp(0.0) == 1.0
    ensures GbmInventoryRisk(np, gamma, sigma, price, 0.0) == 0.0
  {
    assert -(sigma * sigma) * 0.0 == 0.0;
  }
}
