/** Types shared by every component of the market-making model: the failures the
    Python code raises, a position (inventory and cash), the elementary functions
    that numpy supplies, and a few arithmetic helpers. */
module Common {

  /** The exceptions the modelled code can raise. */
  datatype Error =
    | ZeroDivisionError
    | IndexError
    | ValueError
    | KeyError(key: string)
    | UnboundLocalError(name: string)

  datatype Result<T> = Success(value: T) | Failure(error: Error)

  datatype Outcome = Pass | Fail(error: Error)

  datatype Option<T> = None | Some(value: T)

  /** The pair (inventory, cash) that the ledger holds and that every
      `execute_orders` returns. Inventory is a signed share count. */
  datatype Position = Position(inventory: int, cash: real)

  /** numpy's `exp`, `log` and `sqrt`, left uninterpreted. */
  datatype NumPy = NumPy(exp: real -> real, log: real -> real, sqrt: real -> real)

  /** The only facts about `exp` the model relies on. */
  ghost predicate ExpLaws(np: NumPy) {
    && (forall x :: np.exp(x) > 0.0)
    && np.exp(0.0) == 1.0
  }

  /** Python's `int(x)` on a float: truncation toward zero. */
  function Trunc(x: real): (n: int)
    ensures 0.0 <= x ==> 0 <= n && n as real <= x < n as real + 1.0
    ensures x < 0.0 ==> n <= 0 && n as real - 1.0 < x <= n as real
  {
    if x >= 0.0 then x.Floor else -((-x).Floor)
  }

  /** Time after `i` increments of `dt`, as the array-filling loops accumulate it
      in `t` (starting from 0). */
  function Elapsed(dt: real, i: nat): (t: real)
    ensures i == 0 ==> t == 0.0
    ensures dt >= 0.0 ==> t >= 0.0
  {
    i as real * dt
  }

  /** One more increment adds dt. */
  lemma ElapsedStep(dt: real, i: nat)
    ensures Elapsed(dt, i + 1) == Elapsed(dt, i) + dt
  {
  }

  lemma ElapsedMonotone(dt: real, i: nat, j: nat)
    requires dt >= 0.0 && i <= j
    ensures Elapsed(dt, i) <= Elapsed(dt, j)
  {
    assert Elapsed(dt, j) - Elapsed(dt, i) == (j - i) as real * dt;
  }

  /** The sum of the first n reals of s. */
  function Sum(s: seq<real>, n: nat): real
    requires n <= |s|
  {
    if n == 0 then 0.0 else Sum(s, n - 1) + s[n - 1]
  }

  /** The error a price simulator raises for a step count below one:
      `1 / 0` for zero, `S[0] = ...` on an empty array for -1, and
      `np.zeros` of a negative size below that. */
  function PathSizeError(n: int): (e: Error)
    requires n < 1
    ensures n == 0 <==> e == ZeroDivisionError
    ensures n == -1 <==> e == IndexError
    ensures n < -1 <==> e == ValueError
  {
    if n == 0 then ZeroDivisionError else if n == -1 then IndexError else ValueError
  }
}
