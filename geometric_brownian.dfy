/** The geometric Brownian price simulator (simulations/geometric_brownian.py):
    S[0] = S0 and S[i] = S[i − 1]·e^(−σ²dt/2 + σ·Z[i − 1]·√dt) with dt = 1/steps,
    for `steps` normal draws Z, which are an input here. The module also holds the
    compounded path that the seeded simulator shares. */
module GeometricBrownian {
  import opened Common

  /** The first n + 1 prices of a path that starts at s0 and is multiplied by g[i − 1]
      at step i. */
  function Compounded(s0: real, g: seq<real>, n: nat): (p: seq<real>)
    requires n <= |g|
    ensures |p| == n + 1 && p[0] == s0
  {
    if n == 0 then [s0]
    else
      var prev := Compounded(s0, g, n - 1);
      prev + [prev[n - 1] * g[n - 1]]
  }

  /** A longer path extends a shorter one. */
  lemma {:induction false} CompoundedPrefix(s0: real, g: seq<real>, m: nat, n: nat, i: nat)
    requires m <= n <= |g| && i <= m
    ensures Compounded(s0, g, n)[i] == Compounded(s0, g, m)[i]
    decreases n
  {
    if m < n {
      CompoundedPrefix(s0, g, m, n - 1, i);
    }
  }

  /** Each price is the previous one times that step's factor. */
  lemma CompoundedRecurrence(s0: real, g: seq<real>, n: nat, i: nat)
    requires n <= |g| && 1 <= i <= n
    ensures Compounded(s0, g, n)[i] == Compounded(s0, g, n)[i - 1] * g[i - 1]
  {
    CompoundedPrefix(s0, g, i, n, i);
    CompoundedPrefix(s0, g, i, n, i - 1);
  }

  /** The price at step i is the one before it times the step's factor. */
  lemma CompoundedStep(s0: real, g: seq<real>, n: nat, i: nat, prev: real, factor: real)
    requires n <= |g| && 1 <= i <= n
    requires prev == Compounded(s0, g, n)[i - 1] && factor == g[i - 1]
    ensures prev * factor == Compounded(s0, g, n)[i]
  {
    CompoundedRecurrence(s0, g, n, i);
  }

  /** Positive factors keep a positive start positive at every step. */
  lemma {:induction false} CompoundedPositive(s0: real, g: seq<real>, n: nat)
    requires s0 > 0.0 && n <= |g|
    requires forall i :: 0 <= i < |g| ==> g[i] > 0.0
    ensures Compounded(s0, g, n)[n] > 0.0
  {
    if n > 0 {
      CompoundedPositive(s0, g, n - 1);
      var prev := Compounded(s0, g, n - 1)[n - 1];
      assert prev * g[n - 1] > 0.0 by {
        assert prev > 0.0 && g[n - 1] > 0.0;
      }
    }
  }

  /** Unit factors leave the start where it is. */
  lemma {:induction false} CompoundedConstant(s0: real, g: seq<real>, n: nat)
    requires n <= |g|
    requires forall i :: 0 <= i < |g| ==> g[i] == 1.0
    ensures Compounded(s0, g, n)[n] == s0
  {
    if n > 0 {
      CompoundedConstant(s0, g, n - 1);
    }
  }

  /** e^(−σ²dt/2 + σ·z·√dt): one step's growth factor. */
  function Growth(np: NumPy, sigma: real, dt: real, z: real): real
  {
    np.exp((-0.5 * (sigma * sigma)) * dt + sigma * z * np.sqrt(dt))
  }

  /** The growth factor of every step, one per draw. */
  function Growths(np: NumPy, sigma: real, dt: real, z: seq<real>): (g: seq<real>)
    ensures |g| == |z|
    ensures forall i :: 0 <= i < |z| ==> g[i] == Growth(np, sigma, dt, z[i])
  {
    seq(|z|, i requires 0 <= i < |z| => Growth(np, sigma, dt, z[i]))
  }

  /** With e^x > 0 a positive start gives a path that stays positive. */
  lemma PathPositive(np: NumPy, s0: real, sigma: real, dt: real, z: seq<real>, n: nat, i: nat)
    requires ExpLaws(np) && s0 > 0.0 && n <= |z| && i <= n
    ensures Compounded(s0, Growths(np, sigma, dt, z), n)[i] > 0.0
  {
    var g := Growths(np, sigma, dt, z);
    CompoundedPrefix(s0, g, i, n, i);
    CompoundedPositive(s0, g, i);
  }

  /** With no volatility and e^0 = 1 the price never moves. */
  lemma PathConstantWithoutVolatility(np: NumPy, s0: real, dt: real, z: seq<real>, n: nat, i: nat)
    requires ExpLaws(np) && n <= |z| && i <= n
    ensures Compounded(s0, Growths(np, 0.0, dt, z), n)[i] == s0
  {
    var g := Growths(np, 0.0, dt, z);
    forall j | 0 <= j < |g| ensures g[j] == 1.0 {
      assert (-0.5 * (0.0 * 0.0)) * dt + 0.0 * z[j] * np.sqrt(dt) == 0.0;
    }
    CompoundedPrefix(s0, g, i, n, i);
    CompoundedConstant(s0, g, i);
  }

  /** The update loop `S[i] = S[i - 1] * factor` for i = 1 … n, with the factors
      already evaluated: the array ends as the compounded path from its first
      entry. */
  method Compound(S: array<real>, g: seq<real>)
    requires S.Length == |g| + 1
    modifies S
    ensures S[..] == Compounded(old(S[0]), g, |g|)
  {
    var n := |g|;
    ghost var path := Compounded(S[0], g, n);
    for i := 1 to n + 1
      invariant forall j :: 0 <= j < i ==> S[j] == path[j]
    {
      var prev, factor := S[i - 1], g[i - 1];
      CompoundedStep(path[0], g, n, i, prev, factor);
      S[i] := prev * factor;
    }
    assert S[..] == path;
  }

  class GeometricBrownianMotion {
    const NoOfStep: Option<int>
    const S0: real
    const sigma: real

    /** The step count is optional and defaults to none; `simulate(steps)` does not
        read it. */
    constructor(S0: real, sigma: real, NoOfSteps: Option<int>)
      ensures NoOfStep == NoOfSteps && this.S0 == S0 && this.sigma == sigma
    {
      NoOfStep := NoOfSteps;
      this.S0 := S0;
      this.sigma := sigma;
    }

    /** The steps + 1 prices of `Compounded` with the factors `Growths` for
        dt = 1/steps. The factors depend on nothing the loop changes, so they are
        evaluated before `Compound` runs it. steps < 1 raises: a negative `np.zeros` size below −1,
        `S[0]` on an empty array for −1, and `1 / 0` for 0. */
    method Simulate(np: NumPy, steps: int, z: seq<real>) returns (r: Result<array<real>>)
      ensures r.Success? ==> fresh(r.value)
      requires steps >= 1 ==> |z| == steps
      ensures r.Failure? <==> steps < 1
      ensures r.Failure? ==> r.error == PathSizeError(steps)
      ensures r.Success? ==> r.value.Length == steps + 1 && r.value[0] == S0
      ensures r.Success? ==> r.value[..] == Compounded(S0, Growths(np, sigma, 1.0 / steps as real, z), steps)
    {
      if steps < 1 {
        return Failure(PathSizeError(steps));
      }
      var n: nat, start, vol := steps, S0, sigma;
      var S := new real[n + 1](_ => 0.0);
      S[0] := start;
      var dt := 1.0 / n as real;
      Compound(S, Growths(np, vol, dt, z));
      return Success(S);
    }
  }
}
