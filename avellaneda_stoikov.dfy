/** The inventory-aware Avellaneda-Stoikov policy, arithmetic-price variant
    (strategies/avellaneda_stoikov.py): per-step closed forms of the mid-price,
    the signed inventory and the time remaining. */
module AvellanedaStoikov {
  import opened Common
  import Reference

  datatype AvellanedaStoikovStrategy = AvellanedaStoikovStrategy(gamma: real, sigma: real, k: real)

  /** S − q·γ·σ²·τ: the mid-price skewed against the inventory. */
  function CalculateReservationPrice(s: AvellanedaStoikovStrategy, currentPrice: real, inventory: int, timeRemaining: real): (r: real)
    ensures r == Reference.Reservation(currentPrice, inventory, Reference.InventoryRisk(s.gamma, s.sigma, timeRemaining))
    ensures inventory == 0 || timeRemaining == 0.0 ==> r == currentPrice
  {
    currentPrice - inventory as real * s.gamma * s.sigma * s.sigma * timeRemaining
  }

  /** Two equal half-spreads summing to the full spread; `2 / gamma` and
      `gamma / k` raise `ZeroDivisionError` when either parameter is zero. */
  function CalculateSpread(s: AvellanedaStoikovStrategy, np: NumPy, currentPrice: real, inventory: int, timeRemaining: real): (r: Result<(real, real)>)
    ensures r.Success? <==> s.gamma != 0.0 && s.k != 0.0
    ensures r.Failure? ==> r.error == ZeroDivisionError
    ensures r.Success? ==> r.value.0 == r.value.1
    ensures r.Success? ==> r.value.0 + r.value.1 == Reference.FullSpread(np, s.gamma, s.sigma, s.k, timeRemaining)
  {
    if s.gamma == 0.0 || s.k == 0.0 then Failure(ZeroDivisionError)
    else
      var spread := s.gamma * s.sigma * s.sigma * timeRemaining + (2.0 / s.gamma) * np.log(1.0 + s.gamma / s.k);
      Success((spread / 2.0, spread / 2.0))
  }

  /** With γσ²τ > 0 a longer inventory quotes strictly lower. */
  lemma ReservationFallsWithInventory(s: AvellanedaStoikovStrategy, currentPrice: real, q1: int, q2: int, timeRemaining: real)
    requires Reference.InventoryRisk(s.gamma, s.sigma, timeRemaining) > 0.0 && q1 < q2
    ensures CalculateReservationPrice(s, currentPrice, q1, timeRemaining) > CalculateReservationPrice(s, currentPrice, q2, timeRemaining)
  {
    Reference.ReservationStrictlyDecreasing(currentPrice, q1, q2, Reference.InventoryRisk(s.gamma, s.sigma, timeRemaining));
  }

  /** The spread depends on neither the mid-price nor the inventory. */
  lemma SpreadIgnoresPriceAndInventory(s: AvellanedaStoikovStrategy, np: NumPy, p1: real, q1: int, p2: real, q2: int, timeRemaining: real)
    ensures CalculateSpread(s, np, p1, q1, timeRemaining) == CalculateSpread(s, np, p2, q2, timeRemaining)
  {
  }
}
