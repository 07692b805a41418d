/** The arithmetic Brownian price simulator (simulations/arithmetic_brownian.py):
    S[0] = S0 and S[i] = S[i − 1] + σ·√dt·Z[i − 1] with dt = 1/N, for N normal
    draws Z, which are an input here. */
module ArithmeticBrownian {
  import opened Common

  /** The first n + 1 prices of the path that starts at s0 and adds scale·z[i − 1]
      at step i. */
  function Path(s0: real, scale: real, z: seq<real>, n: nat): (p: seq<real>)
    requires n <= |z|
    ensures |p| == n + 1 && p[0] == s0
  {
    if n == 0 then [s0]
    else
      var prev := Path(s0, scale, z, n - 1);
      prev + [prev[n - 1] + scale * z[n - 1]]
  }

  /** A longer path extends a shorter one. */
  lemma {:induction false} PathPrefix(s0: real, scale: real, z: seq<real>, m: nat, n: nat, i: nat)
    requires m <= n <= |z| && i <= m
    ensures Path(s0, scale, z, n)[i] == Path(s0, scale, z, m)[i]
    decreases n
  {
    if m < n {
      PathPrefix(s0, scale, z, m, n - 1, i);
    }
  }

  /** Each price is the previous one plus the scaled draw of that step. */
  lemma PathRecurrence(s0: real, scale: real, z: seq<real>, n: nat, i: nat)
    requires n <= |z| && 1 <= i <= n
    ensures Path(s0, scale, z, n)[i] == Path(s0, scale, z, n)[i - 1] + scale * z[i - 1]
  {
    PathPrefix(s0, scale, z, i, n, i);
    PathPrefix(s0, scale, z, i, n, i - 1);
  }

  /** The path telescopes: S[n] = S0 + scale·(z[0] + … + z[n − 1]). */
  lemma {:induction false} PathClosedForm(s0: real, scale: real, z: seq<real>, n: nat)
    requires n <= |z|
    ensures Path(s0, scale, z, n)[n] == s0 + scale * Sum(z, n)
  {
    if n > 0 {
      PathClosedForm(s0, scale, z, n - 1);
      assert scale * Sum(z, n) == scale * Sum(z, n - 1) + scale * z[n - 1];
    }
  }

  /** With no volatility the price never moves. */
  lemma PathConstantWithoutVolatility(s0: real, z: seq<real>, n: nat, i: nat)
    requires n <= |z| && i <= n
    ensures Path(s0, 0.0, z, n)[i] == s0
  {
    PathPrefix(s0, 0.0, z, i, n, i);
    PathClosedForm(s0, 0.0, z, i);
  }

  class ArithmeticBrownianMotion {
    const S0: real
    const sigma: real
    const NoOfSteps: int

    constructor(S0: real, sigma: real, NoOfSteps: int)
      ensures this.S0 == S0 && this.sigma == sigma && this.NoOfSteps == NoOfSteps
    {
      this.S0 := S0;
      this.sigma := sigma;
      this.NoOfSteps := NoOfSteps;
    }

    /** The N + 1 prices of `Path` with scale σ·√(1/N). N < 1 raises: `1 / 0` for
        N = 0, `S[0]` on an empty array for N = −1, and a negative `np.zeros` size
        below that. */
    method Simulate(np: NumPy, z: seq<real>) returns (r: Result<array<real>>)
      ensures r.Success? ==> fresh(r.value)
      requires NoOfSteps >= 1 ==> |z| == NoOfSteps
      ensures r.Failure? <==> NoOfSteps < 1
      ensures r.Failure? ==> r.error == PathSizeError(NoOfSteps)
      ensures r.Success? ==> r.value.Length == NoOfSteps + 1 && r.value[0] == S0
      ensures r.Success? ==> r.value[..] == Path(S0, sigma * np.sqrt(1.0 / NoOfSteps as real), z, NoOfSteps)
    {
      if NoOfSteps < 1 {
        return Failure(PathSizeError(NoOfSteps));
      }
      var n: nat, start, scale := NoOfSteps, S0, sigma * np.sqrt(1.0 / NoOfSteps as real);
      var S := new real[n + 1](_ => 0.0);
      ghost var path := Path(start, scale, z, n);
      S[0] := start;
      for i := 1 to n + 1
        invariant forall j :: 0 <= j < i ==> S[j] == path[j]
      {
        S[i] := S[i - 1] + scale * z[i - 1];
        PathRecurrence(start, scale, z, n, i);
      }
      return Success(S);
    }
  }
}
