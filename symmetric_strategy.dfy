/** The naive symmetric baseline (strategies/symmetric_strategy.py): quotes around the
    mid-price whatever the inventory, with the Avellaneda-Stoikov spread. */
module SymmetricQuoting {
  import opened Common
  import Reference
  import AvellanedaStoikov

  datatype SymmetricStrategy = SymmetricStrategy(gamma: real, sigma: real, k: real)

  function CalculateReservationPrice(s: SymmetricStrategy, currentPrice: real, inventory: int, timeRemaining: real): (r: real)
    ensures r == currentPrice
  {
    currentPrice
  }

  function CalculateSpread(s: SymmetricStrategy, np: NumPy, currentPrice: real, inventory: int, timeRemaining: real): (r: Result<(real, real)>)
    ensures r.Success? <==> s.gamma != 0.0 && s.k != 0.0
    ensures r.Failure? ==> r.error == ZeroDivisionError
    ensures r.Success? ==> r.value.0 == r.value.1
    ensures r.Success? ==> r.value.0 + r.value.1 == Reference.FullSpread(np, s.gamma, s.sigma, s.k, timeRemaining)
  {
    if s.gamma == 0.0 || s.k == 0.0 then Failure(ZeroDivisionError)
    else
      var spread := s.gamma * s.sigma * s.sigma * timeRemaining + (2.0 / s.gamma) * np.log(1.0 + s.gamma / s.k);
      Success((spread / 2.0, spread / 2.0))
  }

  /** Neither output depends on the inventory. */
  lemma IgnoresInventory(s: SymmetricStrategy, np: NumPy, currentPrice: real, q1: int, q2: int, timeRemaining: real)
    ensures CalculateReservationPrice(s, currentPrice, q1, timeRemaining) == CalculateReservationPrice(s, currentPrice, q2, timeRemaining)
    ensures CalculateSpread(s, np, currentPrice, q1, timeRemaining) == CalculateSpread(s, np, currentPrice, q2, timeRemaining)
  {
  }

  /** The baseline's spread is the inventory-aware policy's spread for the same
      parameters; only the reservation price differs, and only when q·γσ²τ ≠ 0. */
  lemma SpreadMatchesAvellanedaStoikov(s: SymmetricStrategy, np: NumPy, currentPrice: real, inventory: int, timeRemaining: real)
    ensures var t := AvellanedaStoikov.AvellanedaStoikovStrategy(s.gamma, s.sigma, s.k);
            CalculateSpread(s, np, currentPrice, inventory, timeRemaining)
              == AvellanedaStoikov.CalculateSpread(t, np, currentPrice, inventory, timeRemaining)
  {
  }
}
