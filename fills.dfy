/** The fill rule every execution model shares, stated once: a quote is hit when a
    uniform draw falls below λ·dt, where the arrival intensity λ = A·e^(−k·d) decays
    with the quote's distance d. A hit bid buys one share at the bid, a lifted ask
    sells one at the ask. */
module Fills {
  import opened Common

  /** λ = A·e^(−k·d). */
  function Intensity(np: NumPy, a: real, k: real, distance: real): real
  {
    a * np.exp(-k * distance)
  }

  /** The position after one step in which the bid was hit (or not) and the ask was
      lifted (or not), the bid handled first. */
  function Fill(p: Position, bidPrice: real, askPrice: real, bidHit: bool, askHit: bool): (r: Position)
    ensures !bidHit && !askHit ==> r == p
    ensures bidHit && !askHit ==> r.inventory == p.inventory + 1 && r.cash == p.cash - bidPrice
    ensures !bidHit && askHit ==> r.inventory == p.inventory - 1 && r.cash == p.cash + askPrice
  {
    Position(p.inventory + (if bidHit then 1 else 0) - (if askHit then 1 else 0),
             p.cash - (if bidHit then bidPrice else 0.0) + (if askHit then askPrice else 0.0))
  }

  /** One step moves the inventory by at most one share either way and the cash by
      one of 0, −bid, +ask or ask − bid. */
  lemma FillBounds(p: Position, bidPrice: real, askPrice: real, bidHit: bool, askHit: bool)
    ensures var r := Fill(p, bidPrice, askPrice, bidHit, askHit);
            && -1 <= r.inventory - p.inventory <= 1
            && r.cash - p.cash in {0.0, -bidPrice, askPrice, askPrice - bidPrice}
  {
  }

  /** Both sides filling is a round trip: the inventory is back where it was and
      the cash has gained the quoted spread. */
  lemma RoundTrip(p: Position, bidPrice: real, askPrice: real)
    ensures Fill(p, bidPrice, askPrice, true, true) == Position(p.inventory, p.cash + (askPrice - bidPrice))
  {
  }

  /** `A * np.exp(-k * d)` applied element-wise to an array of distances. */
  function Intensities(np: NumPy, a: real, k: real, distances: seq<real>): (intensities: seq<real>)
    ensures |intensities| == |distances|
    ensures forall i :: 0 <= i < |distances| ==> intensities[i] == Intensity(np, a, k, distances[i])
  {
    seq(|distances|, i requires 0 <= i < |distances| => Intensity(np, a, k, distances[i]))
  }

  /** Whether a quote with intensity λ is hit within dt, given the uniform draw. */
  function Hit(draw: real, intensity: real, dt: real): (hit: bool)
    ensures 0.0 <= draw < 1.0 && intensity * dt >= 1.0 ==> hit
    ensures 0.0 <= draw && intensity * dt <= 0.0 ==> !hit
  {
    draw < intensity * dt
  }

  /** Bid flags of a loop that draws a (bid, ask) pair of uniforms at every step,
      the bid's first. */
  function BidHits(intensities: seq<real>, dt: real, draws: seq<(real, real)>, n: nat): (hits: seq<bool>)
    requires n <= |intensities| && n <= |draws|
    ensures |hits| == n
    ensures forall i :: 0 <= i < n ==> hits[i] == Hit(draws[i].0, intensities[i], dt)
  {
    seq(n, i requires 0 <= i < n => Hit(draws[i].0, intensities[i], dt))
  }

  /** Ask flags of the same loop, from the second draw of each pair. */
  function AskHits(intensities: seq<real>, dt: real, draws: seq<(real, real)>, n: nat): (hits: seq<bool>)
    requires n <= |intensities| && n <= |draws|
    ensures |hits| == n
    ensures forall i :: 0 <= i < n ==> hits[i] == Hit(draws[i].1, intensities[i], dt)
  {
    seq(n, i requires 0 <= i < n => Hit(draws[i].1, intensities[i], dt))
  }

  /** Hit flags of a loop that draws one uniform per step: step i uses draws[i]. */
  function Consecutive(intensities: seq<real>, dt: real, draws: seq<real>, n: nat): (hits: seq<bool>)
    requires n <= |intensities| && n <= |draws|
    ensures |hits| == n
    ensures forall i :: 0 <= i < n ==> hits[i] == Hit(draws[i], intensities[i], dt)
  {
    seq(n, i requires 0 <= i < n => Hit(draws[i], intensities[i], dt))
  }

  /** The flags of a side that is never checked inside the loop. */
  function NoHits(n: nat): (hits: seq<bool>)
    ensures |hits| == n && forall i :: 0 <= i < n ==> !hits[i]
  {
    seq(n, _ => false)
  }

  /** The position after the first n steps of a whole-horizon loop. */
  function Horizon(p: Position, bidPrice: seq<real>, askPrice: seq<real>, bidHits: seq<bool>, askHits: seq<bool>, n: nat): (r: Position)
    requires n <= |bidPrice| && n <= |askPrice| && n <= |bidHits| && n <= |askHits|
    ensures -(n as int) <= r.inventory - p.inventory <= n
    ensures (forall i :: 0 <= i < n ==> !askHits[i]) ==> r.inventory >= p.inventory
    ensures (forall i :: 0 <= i < n ==> !bidHits[i]) ==> r.inventory <= p.inventory
  {
    if n == 0 then p
    else Fill(Horizon(p, bidPrice, askPrice, bidHits, askHits, n - 1),
              bidPrice[n - 1], askPrice[n - 1], bidHits[n - 1], askHits[n - 1])
  }

  /** How many of the first n flags are set. */
  function Count(hits: seq<bool>, n: nat): (c: nat)
    requires n <= |hits|
    ensures c <= n
  {
    if n == 0 then 0 else Count(hits, n - 1) + (if hits[n - 1] then 1 else 0)
  }

  /** The sum of the prices at which the first n flags are set. */
  function Total(prices: seq<real>, hits: seq<bool>, n: nat): real
    requires n <= |prices| && n <= |hits|
  {
    if n == 0 then 0.0 else Total(prices, hits, n - 1) + (if hits[n - 1] then prices[n - 1] else 0.0)
  }

  /** The ledger of a whole-horizon loop: the inventory moves by the bid fills minus
      the ask fills, the cash falls by the bid prices paid and rises by the ask
      prices received, so the inventory never strays more than n shares. */
  lemma {:induction false} HorizonLedger(p: Position, bidPrice: seq<real>, askPrice: seq<real>, bidHits: seq<bool>, askHits: seq<bool>, n: nat)
    requires n <= |bidPrice| && n <= |askPrice| && n <= |bidHits| && n <= |askHits|
    ensures Horizon(p, bidPrice, askPrice, bidHits, askHits, n).inventory
            == p.inventory + Count(bidHits, n) - Count(askHits, n)
    ensures Horizon(p, bidPrice, askPrice, bidHits, askHits, n).cash
            == p.cash - Total(bidPrice, bidHits, n) + Total(askPrice, askHits, n)
    ensures -(n as int) <= Horizon(p, bidPrice, askPrice, bidHits, askHits, n).inventory - p.inventory <= n
  {
    if n > 0 {
      HorizonLedger(p, bidPrice, askPrice, bidHits, askHits, n - 1);
    }
  }

  /** What a whole-horizon loop adds to a position does not depend on the position
      it starts from: the result is the start plus the result from a flat, cashless
      start. */
  lemma {:induction false} HorizonFromStart(p: Position, bidPrice: seq<real>, askPrice: seq<real>, bidHits: seq<bool>, askHits: seq<bool>, n: nat)
    requires n <= |bidPrice| && n <= |askPrice| && n <= |bidHits| && n <= |askHits|
    ensures Horizon(p, bidPrice, askPrice, bidHits, askHits, n)
            == Position(p.inventory + Horizon(Position(0, 0.0), bidPrice, askPrice, bidHits, askHits, n).inventory,
                        p.cash + Horizon(Position(0, 0.0), bidPrice, askPrice, bidHits, askHits, n).cash)
  {
    if n > 0 {
      HorizonFromStart(p, bidPrice, askPrice, bidHits, askHits, n - 1);
    }
  }

  /** A side that is never hit contributes nothing. */
  lemma {:induction false} NoHitsContributeNothing(prices: seq<real>, n: nat)
    requires n <= |prices|
    ensures Count(NoHits(n), n) == 0
    ensures Total(prices, NoHits(n), n) == 0.0
  {
    if n > 0 {
      NoHitsContributeNothing(prices, n - 1);
      assert Count(NoHits(n), n - 1) == Count(NoHits(n - 1), n - 1) by { CountPrefix(NoHits(n), NoHits(n - 1), n - 1); }
      assert Total(prices, NoHits(n), n - 1) == Total(prices, NoHits(n - 1), n - 1) by { TotalPrefix(prices, NoHits(n), NoHits(n - 1), n - 1); }
    }
  }

  /** Count and Total read only the first n flags. */
  lemma {:induction false} CountPrefix(a: seq<bool>, b: seq<bool>, n: nat)
    requires n <= |a| && n <= |b| && a[..n] == b[..n]
    ensures Count(a, n) == Count(b, n)
  {
    if n > 0 {
      assert a[n - 1] == a[..n][n - 1];
      assert b[n - 1] == b[..n][n - 1];
      assert a[..n - 1] == a[..n][..n - 1];
      assert b[..n - 1] == b[..n][..n - 1];
      CountPrefix(a, b, n - 1);
    }
  }

  lemma {:induction false} TotalPrefix(prices: seq<real>, a: seq<bool>, b: seq<bool>, n: nat)
    requires n <= |prices| && n <= |a| && n <= |b| && a[..n] == b[..n]
    ensures Total(prices, a, n) == Total(prices, b, n)
  {
    if n > 0 {
      assert a[n - 1] == a[..n][n - 1];
      assert b[n - 1] == b[..n][n - 1];
      assert a[..n - 1] == a[..n][..n - 1];
      assert b[..n - 1] == b[..n][..n - 1];
      TotalPrefix(prices, a, b, n - 1);
    }
  }

  /** The position a bid-only loop of n ≥ 1 steps leaves, followed by one ask check
      at the last step. */
  function TrailingAsk(p: Position, bidPrice: seq<real>, askPrice: seq<real>, bidHits: seq<bool>, askHit: bool, n: nat): (r: Position)
    requires 1 <= n && n <= |bidPrice| && n <= |askPrice| && n <= |bidHits|
    ensures p.inventory - 1 <= r.inventory <= p.inventory + n
    ensures !askHit ==> r.inventory >= p.inventory
  {
    Fill(Horizon(p, bidPrice, askPrice, bidHits, NoHits(n), n), bidPrice[n - 1], askPrice[n - 1], false, askHit)
  }

  /** With the ask checked once after the loop, at most one share is ever sold: the
      inventory ends between q₀ − 1 and q₀ + n, the cash falls by the bids paid and
      rises by at most the last ask. */
  lemma TrailingAskLedger(p: Position, bidPrice: seq<real>, askPrice: seq<real>, bidHits: seq<bool>, askHit: bool, n: nat)
    requires 1 <= n && n <= |bidPrice| && n <= |askPrice| && n <= |bidHits|
    ensures var r := TrailingAsk(p, bidPrice, askPrice, bidHits, askHit, n);
            && r.inventory == p.inventory + Count(bidHits, n) - (if askHit then 1 else 0)
            && r.cash == p.cash - Total(bidPrice, bidHits, n) + (if askHit then askPrice[n - 1] else 0.0)
            && p.inventory - 1 <= r.inventory <= p.inventory + n
  {
    HorizonLedger(p, bidPrice, askPrice, bidHits, NoHits(n), n);
    NoHitsContributeNothing(askPrice, n);
  }

  /** The trailing ask check differs from checking the ask at every step: two steps
      whose quotes are all hit leave the in-loop version flat and the trailing one
      long one share. */
  lemma TrailingAskDiffersFromInLoop()
    ensures Horizon(Position(0, 0.0), [99.0, 99.0], [101.0, 101.0], [true, true], [true, true], 2)
            == Position(0, 4.0)
    ensures TrailingAsk(Position(0, 0.0), [99.0, 99.0], [101.0, 101.0], [true, true], true, 2)
            == Position(1, -97.0)
  {
    assert NoHits(2) == [false, false];
  }
}
