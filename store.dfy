/** The position store of one user as mutable state. Each method performs one
    store operation in place and is proved to produce exactly the state the
    matching function of Ledger describes. */
module PortfolioStore {
  import opened Models
  import opened PositionEngine
  import opened DateOrder
  import opened Ledger

  class Portfolio {
    const userId: int
    var positions: map<int, Position>
    var ledger: seq<Transaction>
    var nextId: int

    /** The store's current state as a value. */
    ghost function Snapshot(): Book
      reads this
    {
      Book(userId, positions, ledger, nextId)
    }

    ghost predicate Valid()
      reads this
    {
      ValidBook(Snapshot())
    }

    /** A store for a user with no positions and no transactions. */
    constructor (userId: int)
      ensures Snapshot() == EmptyBook(userId)
      ensures Valid()
    {
      this.userId := userId;
      positions := map[];
      ledger := [];
      nextId := 1;
    }

    /** Update or create the position of the asset of transaction `i`, writing
        the realized PnL of a SELL onto the transaction. */
    method UpdatePositionAfterTransaction(i: nat)
      requires Valid() && i < |ledger|
      modifies this
      ensures Snapshot() == ApplyAt(old(Snapshot()), i)
      ensures Valid()
    {
      var t := ledger[i];
      var a := t.assetId;
      ghost var step := Apply(Lookup(positions, a), t);
      assert ledger[i := t] == ledger;
      match t.transactionType {
        case Buy =>
          if a in positions {
            var position := positions[a];
            var newQuantity := position.quantity + t.quantity;
            var newInvested := position.totalInvested + t.totalAmount;
            position := position.(quantity := newQuantity, totalInvested := newInvested);
            position := position.(averageBuyPrice := newInvested / newQuantity);
            positions := positions[a := position];
          } else {
            positions := positions[a := FreshPosition(t)];
          }
        case Sell =>
          if a in positions {
            var position := positions[a];
            var realized := (t.price - position.averageBuyPrice) * t.quantity;
            assert Lookup(positions, a) == Some(position);
            assert step.transaction == t.(realizedPnl := realized);
            ledger := ledger[i := t.(realizedPnl := realized)];
            position := position.(quantity := position.quantity - t.quantity);
            position := position.(totalInvested := position.totalInvested - position.averageBuyPrice * t.quantity);
            if position.quantity <= 0.0 {
              positions := positions - {a};
            } else {
              assert step.position.value == position;
              positions := positions[a := position];
            }
          }
      }
      assert positions == Reposition(old(positions), a, step.position);
      assert ledger == old(ledger)[i := step.transaction];
    }

    /** Record a validated transaction and apply it to its position; returns
        the stored transaction, realized PnL included. */
    method CreateTransaction(input: TransactionInput) returns (t: Transaction)
      requires Valid() && ValidInput(input)
      modifies this
      ensures Created(Snapshot(), t) == Create(old(Snapshot()), input)
      ensures Valid()
    {
      var totalAmount := (input.quantity * input.price) + input.fee;
      var inserted := Transaction(nextId, userId, input.assetId, input.transactionType,
                                  input.quantity, input.price, input.fee, totalAmount,
                                  0.0, input.transactionDate);
      assert inserted == NewTransaction(nextId, userId, input);
      ledger := ledger + [inserted];
      nextId := nextId + 1;
      ghost var grown := Snapshot();
      assert grown == old(Snapshot()).(ledger := old(ledger) + [inserted], nextId := old(nextId) + 1);
      UpdatePositionAfterTransaction(|ledger| - 1);
      t := ledger[|ledger| - 1];
      assert Snapshot() == ApplyAt(grown, |old(ledger)|);
    }

    /** Drop the position of asset `a` and rebuild it by applying the asset's
        transactions in date order. */
    method RecalculatePosition(a: int)
      requires Valid()
      modifies this
      ensures Snapshot() == Recompute(old(Snapshot()), a)
      ensures Valid()
    {
      ghost var b := old(Snapshot());
      var ids := Order(ledger, a);
      ghost var order := Order(b.ledger, a);
      assert ids == order;
      if a in positions {
        positions := positions - {a};
      }
      assert positions == Reposition(b.positions, a, None);
      PartialStart(b, a);
      var k := 0;
      while k < |ids|
        invariant ids == order
        invariant 0 <= k <= |order|
        invariant Snapshot() == Partial(b, a, k)
      {
        ghost var before := Snapshot();
        PartialStep(b, a, k);
        assert Valid();
        assert ids[k] < |ledger|;
        UpdatePositionAfterTransaction(ids[k]);
        assert Snapshot() == ApplyAt(before, order[k]);
        k := k + 1;
      }
      assert k == |order|;
      RecomputeIsFullPartial(b, a);
    }

    /** Delete the user's transaction `id` and recompute the position of its
        asset; returns false, changing nothing, when there is no such
        transaction for that user. */
    method DeleteTransaction(id: int, user: int) returns (deleted: bool)
      requires Valid()
      modifies this
      ensures Deleted(Snapshot(), deleted) == Delete(old(Snapshot()), id, user)
      ensures Valid()
    {
      var found := FindTransaction(ledger, id, user);
      if found.None? {
        return false;
      }
      var k := found.value;
      var assetId := ledger[k].assetId;
      ghost var b := Snapshot();
      RemoveKeepsValid(b, k);
      ledger := ledger[..k] + ledger[k + 1..];
      assert ledger == Remove(b.ledger, k);
      ghost var rest := b.(ledger := Remove(b.ledger, k));
      assert Snapshot() == rest;
      RecalculatePosition(assetId);
      assert Delete(b, id, user) == Deleted(Recompute(rest, assetId), true);
      deleted := true;
    }
  }
}
