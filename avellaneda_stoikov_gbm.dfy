/** The second copy of the whole-horizon geometric policy
    (strategies/avellaneda_stoikov_gbm.py, built on the seeded simulator of
    simulations/geometric_browian.py). Its arrays are those of
    strategies/avellaneda_stoikov_for_gbm.py; its `calculate_bid_ask` recomputes both
    arrays for each side. */
module AvellanedaStoikovGbm {
  import opened Common
  import Reference

  class AvellanedaStoikovGBM {
    const gamma: real
    const q: int
    const sigma: real
    const T: int
    const S: seq<real>
    const dt: real
    const k: real

    predicate Valid()
    {
      T >= 1 && dt == 1.0 / T as real && |S| >= T
    }

    /** Built from the simulator's σ, step count and simulated path. */
    constructor(gamma: real, inventory: int, k: real, sigma: real, noOfStep: int, path: seq<real>)
      requires noOfStep >= 1 && |path| >= noOfStep
      ensures Valid()
      ensures this.gamma == gamma && q == inventory && this.k == k && this.sigma == sigma
      ensures T == noOfStep && dt == 1.0 / noOfStep as real && S == path
    {
      this.gamma := gamma;
      q := inventory;
      this.sigma := sigma;
      T := noOfStep;
      S := path;
      dt := 1.0 / noOfStep as real;
      this.k := k;
    }

    /** R[i] = S[i] − q·γS[i]²(1 − e^(−σ²t_i)). It starts at the mid-price when
        e^0 = 1 and follows the mid-price exactly when the book is flat. */
    method CalculateReservationPrice(np: NumPy) returns (r: array<real>)
      ensures fresh(r)
      requires Valid()
      ensures r.Length == T
      ensures forall i :: 0 <= i < T ==>
                r[i] == Reference.Reservation(S[i], q, Reference.GbmInventoryRisk(np, gamma, sigma, S[i], Elapsed(dt, i)))
      ensures np.exp(0.0) == 1.0 ==> r[0] == S[0]
      ensures q == 0 ==> r[..] == S[..T]
    {
      var t := 0.0;
      r := new real[T](_ => 0.0);
      for i := 0 to T
        invariant t == Elapsed(dt, i)
        invariant forall j :: 0 <= j < i ==>
                    r[j] == Reference.Reservation(S[j], q, Reference.GbmInventoryRisk(np, gamma, sigma, S[j], Elapsed(dt, j)))
      {
        r[i] := S[i] - q as real * gamma * (S[i] * S[i]) * Reference.Decay(np, sigma, t);
        ElapsedStep(dt, i);
        t := t + dt;
      }
      if np.exp(0.0) == 1.0 {
        Reference.GbmInventoryRiskVanishesAtZero(np, gamma, sigma, S[0]);
      }
    }

    /** h[i] = (γS[i]²(1 − e^(−σ²t_i)) + (2/γ)·ln(1 + γ/κ)) / 2; γ = 0 or κ = 0 raises
        `ZeroDivisionError` on the first iteration. */
    method CalculateSpread(np: NumPy) returns (r: Result<array<real>>)
      ensures r.Success? ==> fresh(r.value)
      requires Valid()
      ensures r.Success? <==> gamma != 0.0 && k != 0.0
      ensures r.Failure? ==> r.error == ZeroDivisionError
      ensures r.Success? ==> r.value.Length == T
      ensures r.Success? ==> forall i :: 0 <= i < T ==>
                r.value[i] == Reference.GbmFullSpread(np, gamma, sigma, k, S[i], Elapsed(dt, i)) / 2.0
    {
      if gamma == 0.0 || k == 0.0 {
        return Failure(ZeroDivisionError);
      }
      var t := 0.0;
      var spread := new real[T](_ => 0.0);
      for i := 0 to T
        invariant t == Elapsed(dt, i)
        invariant forall j :: 0 <= j < i ==> spread[j] == Reference.GbmFullSpread(np, gamma, sigma, k, S[j], Elapsed(dt, j))
      {
        spread[i] := gamma * (S[i] * S[i]) * Reference.Decay(np, sigma, t) + (2.0 / gamma) * np.log(1.0 + gamma / k);
        ElapsedStep(dt, i);
        t := t + dt;
      }
      var half := new real[T](i reads spread => if 0 <= i < T then spread[i] / 2.0 else 0.0);
      return Success(half);
    }

    /** `R() − h()` for the bid and a fresh `R() + h()` for the ask. Neither
        computation changes a field, so the recomputed arrays are the same and the
        quotes are still R ∓ h. */
    method CalculateBidAsk(np: NumPy) returns (r: Result<(array<real>, array<real>)>)
      ensures r.Success? ==> fresh(r.value.0) && fresh(r.value.1) && r.value.0 != r.value.1
      requires Valid()
      ensures r.Success? <==> gamma != 0.0 && k != 0.0
      ensures r.Failure? ==> r.error == ZeroDivisionError
      ensures r.Success? ==> r.value.0.Length == T && r.value.1.Length == T
      ensures r.Success? ==> forall i :: 0 <= i < T ==>
                var res := Reference.Reservation(S[i], q, Reference.GbmInventoryRisk(np, gamma, sigma, S[i], Elapsed(dt, i)));
                var h := Reference.GbmFullSpread(np, gamma, sigma, k, S[i], Elapsed(dt, i)) / 2.0;
                r.value.0[i] == res - h && r.value.1[i] == res + h
      ensures r.Success? ==> forall i :: 0 <= i < T ==>
                r.value.1[i] - r.value.0[i] == Reference.GbmFullSpread(np, gamma, sigma, k, S[i], Elapsed(dt, i))
      ensures r.Success? ==> forall i :: 0 <= i < T ==>
                (r.value.0[i] + r.value.1[i]) / 2.0
                == Reference.Reservation(S[i], q, Reference.GbmInventoryRisk(np, gamma, sigma, S[i], Elapsed(dt, i)))
    {
      var reservation := CalculateReservationPrice(np);
      var spread := CalculateSpread(np);
      if spread.Failure? {
        return Failure(spread.error);
      }
      var h := spread.value;
      var bid := new real[T](i reads reservation, h => if 0 <= i < T then reservation[i] - h[i] else 0.0);
      var reservationAgain := CalculateReservationPrice(np);
      var spreadAgain := CalculateSpread(np);
      var hAgain := spreadAgain.value;
      var ask := new real[T](i reads reservationAgain, hAgain => if 0 <= i < T then reservationAgain[i] + hAgain[i] else 0.0);
      return Success((bid, ask));
    }
  }
}
