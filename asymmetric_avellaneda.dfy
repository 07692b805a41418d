/** The asymmetric Avellaneda-Stoikov policy (strategies/asymmetric_avellaneda.py): the
    reservation price of the arithmetic model, but bid and ask half-spreads skewed by
    the sign of the inventory. The spread method is spelled `calculate_spreads`, so it
    does not implement `calculate_spread` of the pricing-strategy interface. */
module AsymmetricAvellaneda {
  import opened Common
  import Reference

  datatype AsymmetricAvellanedaStoikovStrategy = AsymmetricAvellanedaStoikovStrategy(gamma: real, sigma: real, kappa: real)

  function CalculateReservationPrice(s: AsymmetricAvellanedaStoikovStrategy, currentPrice: real, inventory: int, timeRemaining: real): (r: real)
    ensures r == Reference.Reservation(currentPrice, inventory, Reference.InventoryRisk(s.gamma, s.sigma, timeRemaining))
    ensures inventory == 0 ==> r == currentPrice
  {
    currentPrice - inventory as real * s.gamma * s.sigma * s.sigma * timeRemaining
  }

  /** (delta_bid, delta_ask): the inventory-risk part split (1 + 2q) : (1 − 2q),
      each side carrying half the liquidity term. */
  function CalculateSpreads(s: AsymmetricAvellanedaStoikovStrategy, np: NumPy, currentPrice: real, inventory: int, timeRemaining: real): (r: Result<(real, real)>)
    ensures r.Success? <==> s.gamma != 0.0 && s.kappa != 0.0
    ensures r.Failure? ==> r.error == ZeroDivisionError
    ensures r.Success? ==> r.value.0 + r.value.1 == Reference.FullSpread(np, s.gamma, s.sigma, s.kappa, timeRemaining)
    ensures r.Success? ==> r.value.0 - r.value.1 == 2.0 * inventory as real * Reference.InventoryRisk(s.gamma, s.sigma, timeRemaining)
  {
    var inventoryRisk := s.gamma * s.sigma * s.sigma * timeRemaining;
    if s.gamma == 0.0 || s.kappa == 0.0 then Failure(ZeroDivisionError)
    else
      var executionTerm := (1.0 / s.gamma) * np.log(1.0 + s.gamma / s.kappa);
      var deltaBid := ((1.0 + 2.0 * inventory as real) * inventoryRisk) / 2.0 + executionTerm;
      var deltaAsk := ((1.0 - 2.0 * inventory as real) * inventoryRisk) / 2.0 + executionTerm;
      assert 2.0 * executionTerm == Reference.LiquidityTerm(np, s.gamma, s.kappa);
      Success((deltaBid, deltaAsk))
  }

  /** A flat book quotes both sides at γσ²τ/2 + (1/γ)·ln(1 + γ/κ). */
  lemma FlatBookIsSymmetric(s: AsymmetricAvellanedaStoikovStrategy, np: NumPy, currentPrice: real, timeRemaining: real)
    requires s.gamma != 0.0 && s.kappa != 0.0
    ensures var r := CalculateSpreads(s, np, currentPrice, 0, timeRemaining).value;
            var half := Reference.InventoryRisk(s.gamma, s.sigma, timeRemaining) / 2.0
                        + (1.0 / s.gamma) * np.log(1.0 + s.gamma / s.kappa);
            r.0 == half && r.1 == half
  {
  }

  /** A long book (q > 0) quotes a wider bid than ask, a short book the reverse,
      whenever γσ²τ > 0. */
  lemma SkewFollowsInventorySign(s: AsymmetricAvellanedaStoikovStrategy, np: NumPy, currentPrice: real, inventory: int, timeRemaining: real)
    requires s.gamma != 0.0 && s.kappa != 0.0
    requires Reference.InventoryRisk(s.gamma, s.sigma, timeRemaining) > 0.0
    ensures var r := CalculateSpreads(s, np, currentPrice, inventory, timeRemaining).value;
            (inventory > 0 ==> r.0 > r.1) && (inventory < 0 ==> r.0 < r.1)
  {
    var risk := Reference.InventoryRisk(s.gamma, s.sigma, timeRemaining);
    if inventory > 0 {
      assert 2.0 * inventory as real * risk > 0.0;
    } else if inventory < 0 {
      assert 2.0 * (-inventory) as real * risk > 0.0;
    }
  }
}
