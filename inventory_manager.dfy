/** The position ledger (core/inventory_manager.py): cash and inventory, changed only
    by additive signed updates. There is no bound on either: a negative inventory is a
    short position, a negative cash balance is borrowing. */
module Ledger {
  import opened Common

  /** The position after one `update(di, dc)`. */
  function Updated(p: Position, deltaInventory: int, deltaCash: real): (r: Position)
    ensures r.inventory - p.inventory == deltaInventory && r.cash - p.cash == deltaCash
    ensures Position(r.inventory - deltaInventory, r.cash - deltaCash) == p
  {
    Position(p.inventory + deltaInventory, p.cash + deltaCash)
  }

  /** The position after a sequence of updates, applied left to right. */
  function UpdatedAll(p: Position, deltas: seq<(int, real)>): (r: Position)
    ensures (forall i :: 0 <= i < |deltas| ==> deltas[i].0 >= 0) ==> r.inventory >= p.inventory
    ensures (forall i :: 0 <= i < |deltas| ==> deltas[i].1 >= 0.0) ==> r.cash >= p.cash
  {
    if deltas == [] then p
    else Updated(UpdatedAll(p, deltas[..|deltas| - 1]), deltas[|deltas| - 1].0, deltas[|deltas| - 1].1)
  }

  function InventoryTotal(deltas: seq<(int, real)>): int
  {
    if deltas == [] then 0 else InventoryTotal(deltas[..|deltas| - 1]) + deltas[|deltas| - 1].0
  }

  function CashTotal(deltas: seq<(int, real)>): real
  {
    if deltas == [] then 0.0 else CashTotal(deltas[..|deltas| - 1]) + deltas[|deltas| - 1].1
  }

  class InventoryManager {
    var cash: real
    var inventory: int

    function State(): Position
      reads this
    {
      Position(inventory, cash)
    }

    constructor(initialCash: real, initialInventory: int)
      ensures cash == initialCash && inventory == initialInventory
    {
      cash := initialCash;
      inventory := initialInventory;
    }

    method Update(deltaInventory: int, deltaCash: real)
      modifies this
      ensures inventory == old(inventory) + deltaInventory
      ensures cash == old(cash) + deltaCash
      ensures State() == Updated(old(State()), deltaInventory, deltaCash)
    {
      inventory := inventory + deltaInventory;
      cash := cash + deltaCash;
    }
  }

  /** Two successive updates equal one update by the summed deltas, in either order. */
  lemma UpdatesCommuteAndCombine(p: Position, d1: (int, real), d2: (int, real))
    ensures Updated(Updated(p, d1.0, d1.1), d2.0, d2.1) == Updated(p, d1.0 + d2.0, d1.1 + d2.1)
    ensures Updated(Updated(p, d1.0, d1.1), d2.0, d2.1) == Updated(Updated(p, d2.0, d2.1), d1.0, d1.1)
  {
  }

  /** `update(0, 0)` changes nothing. */
  lemma ZeroUpdateIsIdentity(p: Position)
    ensures Updated(p, 0, 0.0) == p
  {
  }

  /** Any run of updates lands where a single update by the totals lands: only the
      sums of the deltas matter, not their order or grouping. */
  lemma {:induction false} UpdatedAllIsTotal(p: Position, deltas: seq<(int, real)>)
    ensures UpdatedAll(p, deltas) == Updated(p, InventoryTotal(deltas), CashTotal(deltas))
  {
    if deltas != [] {
      UpdatedAllIsTotal(p, deltas[..|deltas| - 1]);
    }
  }

  /** A run of updates split anywhere composes from its two halves. */
  lemma {:induction false} UpdatedAllConcat(p: Position, d1: seq<(int, real)>, d2: seq<(int, real)>)
    ensures UpdatedAll(p, d1 + d2) == UpdatedAll(UpdatedAll(p, d1), d2)
  {
    if d2 == [] {
      assert d1 + d2 == d1;
    } else {
      assert (d1 + d2)[..|d1 + d2| - 1] == d1 + d2[..|d2| - 1];
      UpdatedAllConcat(p, d1, d2[..|d2| - 1]);
    }
  }

  /** Applying the same updates in the opposite order gives the same position. */
  lemma {:induction false} UpdatedAllOrderFree(p: Position, d1: seq<(int, real)>, d2: seq<(int, real)>)
    ensures UpdatedAll(p, d1 + d2) == UpdatedAll(p, d2 + d1)
  {
    UpdatedAllIsTotal(p, d1 + d2);
    UpdatedAllIsTotal(p, d2 + d1);
    TotalsConcat(d1, d2);
    TotalsConcat(d2, d1);
  }

  lemma {:induction false} TotalsConcat(d1: seq<(int, real)>, d2: seq<(int, real)>)
    ensures InventoryTotal(d1 + d2) == InventoryTotal(d1) + InventoryTotal(d2)
    ensures CashTotal(d1 + d2) == CashTotal(d1) + CashTotal(d2)
  {
    if d2 == [] {
      assert d1 + d2 == d1;
    } else {
      assert (d1 + d2)[..|d1 + d2| - 1] == d1 + d2[..|d2| - 1];
      TotalsConcat(d1, d2[..|d2| - 1]);
    }
  }
}
