/** The seeded geometric Brownian simulator (simulations/geometric_browian.py).
    Every `simulate` call first reseeds numpy's global generator with the stored
    seed and then draws N increments dW ~ Normal(0, √dt); the path compounds
    e^(+σ²dt/2 + σ·dW[i − 1]) at step i, with a plus sign on the σ²dt/2 term.

    The generator is a parameter: `gauss(seed, k)` is the k-th standard normal
    value drawn after seeding with `seed`, and `np.random.normal(0, s, N)` yields
    s·gauss(seed, k) for k < N. */
module GeometricBrowian {
  import opened Common
  import GeometricBrownian

  /** e^(σ²dt/2 + σ·dW): one step's growth factor. */
  function Growth(np: NumPy, sigma: real, dt: real, dW: real): real
  {
    np.exp((0.5 * (sigma * sigma)) * dt + sigma * dW)
  }

  /** The N increments drawn after seeding with `seed`, each scaled by √dt. */
  function Increments(np: NumPy, gauss: (int, nat) -> real, seed: int, dt: real, n: nat): (dW: seq<real>)
    ensures |dW| == n
    ensures forall k :: 0 <= k < n ==> dW[k] == np.sqrt(dt) * gauss(seed, k)
  {
    seq(n, k requires 0 <= k < n => np.sqrt(dt) * gauss(seed, k))
  }

  /** The growth factors of the N steps. */
  function Growths(np: NumPy, sigma: real, dt: real, dW: seq<real>): (g: seq<real>)
    ensures |g| == |dW|
    ensures forall i :: 0 <= i < |dW| ==> g[i] == Growth(np, sigma, dt, dW[i])
  {
    seq(|dW|, i requires 0 <= i < |dW| => Growth(np, sigma, dt, dW[i]))
  }

  /** The path a call returns for N ≥ 1 steps. It reads the generator only through
      `gauss(seed, ·)`. */
  function SeededPath(np: NumPy, gauss: (int, nat) -> real, S0: real, sigma: real, seed: int, n: nat): (p: seq<real>)
    requires n >= 1
    ensures |p| == n + 1 && p[0] == S0
  {
    var dt := 1.0 / n as real;
    GeometricBrownian.Compounded(S0, Growths(np, sigma, dt, Increments(np, gauss, seed, dt, n)), n)
  }

  /** Reseeding makes the path independent of everything drawn before the call:
      two generators that agree on the stream after `seed` give the same path. */
  lemma SeedFixesPath(np: NumPy, g1: (int, nat) -> real, g2: (int, nat) -> real, S0: real, sigma: real, seed: int, n: nat)
    requires n >= 1
    requires forall k :: 0 <= k < n ==> g1(seed, k) == g2(seed, k)
    ensures SeededPath(np, g1, S0, sigma, seed, n) == SeededPath(np, g2, S0, sigma, seed, n)
  {
    var dt := 1.0 / n as real;
    var d1, d2 := Increments(np, g1, seed, dt, n), Increments(np, g2, seed, dt, n);
    forall k | 0 <= k < n ensures d1[k] == d2[k] {
      assert g1(seed, k) == g2(seed, k);
    }
    assert d1 == d2;
  }

  /** With e^x > 0 a positive start gives a path that stays positive. */
  lemma SeededPathPositive(np: NumPy, gauss: (int, nat) -> real, S0: real, sigma: real, seed: int, n: nat, i: nat)
    requires ExpLaws(np) && S0 > 0.0 && n >= 1 && i <= n
    ensures SeededPath(np, gauss, S0, sigma, seed, n)[i] > 0.0
  {
    var dt := 1.0 / n as real;
    var g := Growths(np, sigma, dt, Increments(np, gauss, seed, dt, n));
    GeometricBrownian.CompoundedPrefix(S0, g, i, n, i);
    GeometricBrownian.CompoundedPositive(S0, g, i);
  }

  class GeometricBrowianMotion {
    const NoOfStep: int
    const S0: real
    const seed: int
    const sigma: real

    constructor(NoOfStep: int, S0: real, sigma: real, seed: int)
      ensures this.NoOfStep == NoOfStep && this.S0 == S0 && this.sigma == sigma && this.seed == seed
    {
      this.NoOfStep := NoOfStep;
      this.S0 := S0;
      this.seed := seed;
      this.sigma := sigma;
    }

    /** Reseeds, then returns `SeededPath`, which depends only on the stored fields
        and the stream after the seed, so every call returns the same prices.
        `np.random.seed` refuses a seed outside [0, 2³²) with `ValueError`; after it,
        N < 1 raises as the other simulators do. */
    method Simulate(np: NumPy, gauss: (int, nat) -> real) returns (r: Result<array<real>>)
      ensures r.Success? ==> fresh(r.value)
      ensures r.Failure? <==> seed < 0 || seed >= 0x1_0000_0000 || NoOfStep < 1
      ensures r.Failure? ==> r.error == if seed < 0 || seed >= 0x1_0000_0000 then ValueError else PathSizeError(NoOfStep)
      ensures r.Success? ==> r.value[..] == SeededPath(np, gauss, S0, sigma, seed, NoOfStep)
    {
      if seed < 0 || seed >= 0x1_0000_0000 {
        return Failure(ValueError);
      }
      if NoOfStep < 1 {
        return Failure(PathSizeError(NoOfStep));
      }
      var n: nat, start, vol := NoOfStep, S0, sigma;
      var S := new real[n + 1](_ => 0.0);
      S[0] := start;
      var dt := 1.0 / n as real;
      var dW := Increments(np, gauss, seed, dt, n);
      GeometricBrownian.Compound(S, Growths(np, vol, dt, dW));
      return Success(S);
    }
  }
}
