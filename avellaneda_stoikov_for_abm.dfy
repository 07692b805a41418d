/** The whole-horizon Avellaneda-Stoikov policy over an arithmetic price path
    (strategies/avellaneda_stoikov_for_abm.py). Unlike the per-step classes it fills
    length-T arrays, one entry per step, and its time variable `t` is the time
    ELAPSED since the start (0, dt, 2dt, ...), not the time remaining.

    The strategy is built from the simulator's σ, its step count T and the price path
    it simulated; the path has T + 1 entries, of which the loops read the first T. */
module AvellanedaStoikovForAbm {
  import opened Common
  import Reference

  class AvellanedaStoikovStrategyAbm {
    const gamma: real
    const k: real
    const q: int
    const sigma: real
    const T: int
    const dt: real
    const S: seq<real>

    /** What construction establishes: at least one step, dt = 1/T, and the path
        covers every step. */
    predicate Valid()
    {
      T >= 1 && dt == 1.0 / T as real && |S| >= T
    }

    /** `dt = 1 / T` raises for T = 0 and the simulator that produced `path` has
        already raised for T < 1, so construction starts from a simulated path. */
    constructor(gamma: real, k: real, inventory: int, sigma: real, noOfStep: int, path: seq<real>)
      requires noOfStep >= 1 && |path| >= noOfStep
      ensures Valid()
      ensures this.gamma == gamma && this.k == k && q == inventory && this.sigma == sigma
      ensures T == noOfStep && dt == 1.0 / noOfStep as real && S == path
    {
      this.gamma := gamma;
      this.k := k;
      q := inventory;
      this.sigma := sigma;
      T := noOfStep;
      dt := 1.0 / noOfStep as real;
      S := path;
    }

    /** R[i] = S[i] − q·γσ²·t_i with t_i = i·dt; R starts at the mid-price and
        follows it exactly when the book is flat. */
    method CalculateReservationPrice() returns (r: array<real>)
      ensures fresh(r)
      requires Valid()
      ensures r.Length == T
      ensures forall i :: 0 <= i < T ==>
                r[i] == Reference.Reservation(S[i], q, Reference.InventoryRisk(gamma, sigma, Elapsed(dt, i)))
      ensures r[0] == S[0]
      ensures q == 0 ==> r[..] == S[..T]
    {
      var t := 0.0;
      r := new real[T](_ => 0.0);
      for i := 0 to T
        invariant t == Elapsed(dt, i)
        invariant forall j :: 0 <= j < i ==>
                    r[j] == Reference.Reservation(S[j], q, Reference.InventoryRisk(gamma, sigma, Elapsed(dt, j)))
      {
        r[i] := S[i] - q as real * gamma * (sigma * sigma) * t;
        assert r[i] == Reference.Reservation(S[i], q, Reference.InventoryRisk(gamma, sigma, t));
        ElapsedStep(dt, i);
        t := t + dt;
      }
      Reference.InventoryRiskVanishesAtZero(gamma, sigma);
    }

    /** The half-spread array h[i] = (γσ²t_i + (2/γ)·ln(1 + γ/κ)) / 2. With γ > 0 it
        never decreases along the horizon. γ = 0 or κ = 0 raises `ZeroDivisionError`
        on the first iteration. */
    method CalculateSpread(np: NumPy) returns (r: Result<array<real>>)
      ensures r.Success? ==> fresh(r.value)
      requires Valid()
      ensures r.Success? <==> gamma != 0.0 && k != 0.0
      ensures r.Failure? ==> r.error == ZeroDivisionError
      ensures r.Success? ==> r.value.Length == T
      ensures r.Success? ==> forall i :: 0 <= i < T ==>
                r.value[i] == Reference.FullSpread(np, gamma, sigma, k, Elapsed(dt, i)) / 2.0
      ensures r.Success? && gamma > 0.0 ==> forall i, j :: 0 <= i <= j < T ==> r.value[i] <= r.value[j]
    {
      if gamma == 0.0 || k == 0.0 {
        return Failure(ZeroDivisionError);
      }
      var t := 0.0;
      var spread := new real[T](_ => 0.0);
      for i := 0 to T
        invariant t == Elapsed(dt, i)
        invariant forall j :: 0 <= j < i ==> spread[j] == Reference.FullSpread(np, gamma, sigma, k, Elapsed(dt, j))
      {
        spread[i] := gamma * (sigma * sigma) * t + (2.0 / gamma) * np.log(1.0 + gamma / k);
        ElapsedStep(dt, i);
        t := t + dt;
      }
      var half := new real[T](i reads spread => if 0 <= i < T then spread[i] / 2.0 else 0.0);
      if gamma > 0.0 {
        forall i, j | 0 <= i <= j < T
          ensures half[i] <= half[j]
        {
          ElapsedMonotone(dt, i, j);
          Reference.InventoryRiskMonotone(gamma, sigma, Elapsed(dt, i), Elapsed(dt, j));
        }
      }
      return Success(half);
    }

    /** bid = R − h and ask = R + h, element by element: the quotes are 2h apart and
        centred on the reservation price. */
    method CalculateBidAsk(np: NumPy) returns (r: Result<(array<real>, array<real>)>)
      ensures r.Success? ==> fresh(r.value.0) && fresh(r.value.1) && r.value.0 != r.value.1
      requires Valid()
      ensures r.Success? <==> gamma != 0.0 && k != 0.0
      ensures r.Failure? ==> r.error == ZeroDivisionError
      ensures r.Success? ==> r.value.0.Length == T && r.value.1.Length == T
      ensures r.Success? ==> forall i :: 0 <= i < T ==>
                var res := Reference.Reservation(S[i], q, Reference.InventoryRisk(gamma, sigma, Elapsed(dt, i)));
                var h := Reference.FullSpread(np, gamma, sigma, k, Elapsed(dt, i)) / 2.0;
                r.value.0[i] == res - h && r.value.1[i] == res + h
      ensures r.Success? ==> forall i :: 0 <= i < T ==>
                r.value.1[i] - r.value.0[i] == Reference.FullSpread(np, gamma, sigma, k, Elapsed(dt, i))
      ensures r.Success? ==> forall i :: 0 <= i < T ==>
                (r.value.0[i] + r.value.1[i]) / 2.0
                == Reference.Reservation(S[i], q, Reference.InventoryRisk(gamma, sigma, Elapsed(dt, i)))
    {
      var reservation := CalculateReservationPrice();
      var spread := CalculateSpread(np);
      if spread.Failure? {
        return Failure(spread.error);
      }
      var h := spread.value;
      var bid := new real[T](i reads reservation, h => if 0 <= i < T then reservation[i] - h[i] else 0.0);
      var ask := new real[T](i reads reservation, h => if 0 <= i < T then reservation[i] + h[i] else 0.0);
      return Success((bid, ask));
    }
  }
}
