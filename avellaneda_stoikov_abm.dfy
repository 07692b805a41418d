/** The arithmetic-price Avellaneda-Stoikov policy of strategies/avellaneda_stoikov_abm.py,
    the class the unit tests exercise. */
module AvellanedaStoikovAbm {
  import opened Common
  import Reference
  import AvellanedaStoikov

  datatype AvellanedaStoikovStrategyAbm = AvellanedaStoikovStrategyAbm(gamma: real, sigma: real, k: real)

  function CalculateReservationPrice(s: AvellanedaStoikovStrategyAbm, currentPrice: real, inventory: int, timeRemaining: real): (r: real)
    ensures r == Reference.Reservation(currentPrice, inventory, Reference.InventoryRisk(s.gamma, s.sigma, timeRemaining))
    ensures inventory == 0 ==> r == currentPrice
  {
    currentPrice - inventory as real * s.gamma * s.sigma * s.sigma * timeRemaining
  }

  /** The spread is accumulated in two statements, then halved. */
  function CalculateSpread(s: AvellanedaStoikovStrategyAbm, np: NumPy, currentPrice: real, inventory: int, timeRemaining: real): (r: Result<(real, real)>)
    ensures r.Success? <==> s.gamma != 0.0 && s.k != 0.0
    ensures r.Failure? ==> r.error == ZeroDivisionError
    ensures r.Success? ==> r.value.0 == r.value.1
    ensures r.Success? ==> r.value.0 + r.value.1 == Reference.FullSpread(np, s.gamma, s.sigma, s.k, timeRemaining)
  {
    var risk := s.gamma * s.sigma * s.sigma * timeRemaining;
    if s.gamma == 0.0 || s.k == 0.0 then Failure(ZeroDivisionError)
    else
      var spread := risk + (2.0 / s.gamma) * np.log(1.0 + s.gamma / s.k);
      Success((spread / 2.0, spread / 2.0))
  }

  /** The spread depends on neither the mid-price nor the inventory. */
  lemma SpreadIgnoresPriceAndInventory(s: AvellanedaStoikovStrategyAbm, np: NumPy, p1: real, q1: int, p2: real, q2: int, timeRemaining: real)
    ensures CalculateSpread(s, np, p1, q1, timeRemaining) == CalculateSpread(s, np, p2, q2, timeRemaining)
  {
  }

  /** This class quotes exactly as the one in strategies/avellaneda_stoikov.py. */
  lemma AgreesWithAvellanedaStoikov(s: AvellanedaStoikovStrategyAbm, np: NumPy, currentPrice: real, inventory: int, timeRemaining: real)
    ensures var t := AvellanedaStoikov.AvellanedaStoikovStrategy(s.gamma, s.sigma, s.k);
            && CalculateReservationPrice(s, currentPrice, inventory, timeRemaining)
               == AvellanedaStoikov.CalculateReservationPrice(t, currentPrice, inventory, timeRemaining)
            && CalculateSpread(s, np, currentPrice, inventory, timeRemaining)
               == AvellanedaStoikov.CalculateSpread(t, np, currentPrice, inventory, timeRemaining)
  {
  }
}
