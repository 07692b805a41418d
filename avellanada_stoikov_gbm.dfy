/** The geometric-price Avellaneda-Stoikov policy (strategies/avellanada_stoikov_gbm.py,
    file name as spelled in the repository): the σ² scaling of the arithmetic model is
    replaced by S²·(1 − e^(−σ²τ)). */
module AvellanadaStoikovGbm {
  import opened Common
  import Reference

  datatype AvellanedaStoikovStrategyGBM = AvellanedaStoikovStrategyGBM(gamma: real, sigma: real, k: real)

  function CalculateReservationPrice(s: AvellanedaStoikovStrategyGBM, np: NumPy, currentPrice: real, inventory: int, timeRemaining: real): (r: real)
    ensures r == Reference.Reservation(currentPrice, inventory, Reference.GbmInventoryRisk(np, s.gamma, s.sigma, currentPrice, timeRemaining))
    ensures inventory == 0 ==> r == currentPrice
  {
    var decay := Reference.Decay(np, s.sigma, timeRemaining);
    currentPrice - inventory as real * s.gamma * currentPrice * currentPrice * decay
  }

  function CalculateSpread(s: AvellanedaStoikovStrategyGBM, np: NumPy, currentPrice: real, inventory: int, timeRemaining: real): (r: Result<(real, real)>)
    ensures r.Success? <==> s.gamma != 0.0 && s.k != 0.0
    ensures r.Failure? ==> r.error == ZeroDivisionError
    ensures r.Success? ==> r.value.0 == r.value.1
    ensures r.Success? ==> r.value.0 + r.value.1 == Reference.GbmFullSpread(np, s.gamma, s.sigma, s.k, currentPrice, timeRemaining)
  {
    var decay := Reference.Decay(np, s.sigma, timeRemaining);
    if s.gamma == 0.0 || s.k == 0.0 then Failure(ZeroDivisionError)
    else
      var spread := s.gamma * currentPrice * currentPrice * decay + (2.0 / s.gamma) * np.log(1.0 + s.gamma / s.k);
      Success((spread / 2.0, spread / 2.0))
  }

  /** With no time remaining the reservation price is the mid-price. */
  lemma ReservationAtHorizonEnd(s: AvellanedaStoikovStrategyGBM, np: NumPy, currentPrice: real, inventory: int)
    requires np.exp(0.0) == 1.0
    ensures CalculateReservationPrice(s, np, currentPrice, inventory, 0.0) == currentPrice
  {
    Reference.GbmInventoryRiskVanishesAtZero(np, s.gamma, s.sigma, currentPrice);
  }

  /** With no time remaining only the liquidity term is left: each half-spread is
      (1/γ)·ln(1 + γ/κ). */
  lemma SpreadAtHorizonEnd(s: AvellanedaStoikovStrategyGBM, np: NumPy, currentPrice: real, inventory: int)
    requires np.exp(0.0) == 1.0 && s.gamma != 0.0 && s.k != 0.0
    ensures var r := CalculateSpread(s, np, currentPrice, inventory, 0.0).value;
            r.0 == r.1 == (1.0 / s.gamma) * np.log(1.0 + s.gamma / s.k)
  {
    Reference.GbmInventoryRiskVanishesAtZero(np, s.gamma, s.sigma, currentPrice);
  }

  /** The spread does not depend on the inventory. */
  lemma SpreadIgnoresInventory(s: AvellanedaStoikovStrategyGBM, np: NumPy, currentPrice: real, q1: int, q2: int, timeRemaining: real)
    ensures CalculateSpread(s, np, currentPrice, q1, timeRemaining) == CalculateSpread(s, np, currentPrice, q2, timeRemaining)
  {
  }
}
