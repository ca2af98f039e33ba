/** The position engine: applying one transaction to the position for its
    asset, and replaying a history of transactions from a starting position. */
module PositionEngine {
  import opened Models

  /** A stored position always holds a strictly positive quantity. */
  predicate Holding(p: Option<Position>) {
    p.Some? ==> p.value.quantity > 0.0
  }

  /** The outcome of one step: the position afterwards (None when there is
      none) and the transaction with its realizedPnl as the step leaves it. */
  datatype Applied = Applied(position: Option<Position>, transaction: Transaction)

  /** A position created by a BUY when none exists. Its average is the BUY's
      unit price, not totalAmount / quantity; the other fields take their
      defaults. */
  function FreshPosition(t: Transaction): Position {
    Position(t.quantity, t.price, t.totalAmount, 0.0, 0.0, 0.0, 0.0)
  }

  /** One step of the engine: a BUY opens or grows the position with a
      weighted-average cost; a SELL on a held position records the realized
      PnL against the current average, reduces the position proportionally and
      removes it once its quantity is no longer positive; a SELL on an unheld
      asset does nothing. */
  function Apply(p: Option<Position>, t: Transaction): (r: Applied)
    requires t.quantity > 0.0 && Holding(p)
    ensures Holding(r.position)
    ensures SameFact(r.transaction, t)
    // The position's quantity moves by exactly the transaction's quantity.
    ensures r.position.Some? ==>
      r.position.value.quantity
        == (if p.Some? then p.value.quantity else 0.0)
           + (if t.transactionType == Buy then t.quantity else -t.quantity)
    // Only a held position can be sold from; a SELL that leaves it empty removes it.
    ensures t.transactionType == Sell ==>
      (r.position.Some? <==> p.Some? && p.value.quantity > t.quantity)
    ensures t.transactionType == Buy ==> r.position.Some? && r.transaction == t
    // A BUY with no position opens one at the BUY's unit price; the
    // externally supplied fields start at their defaults.
    ensures t.transactionType == Buy && p.None? ==>
      r.position == Some(Position(t.quantity, t.price, t.totalAmount, 0.0, 0.0, 0.0, 0.0))
    // A BUY adds its whole amount, fee included, to the invested capital.
    ensures t.transactionType == Buy ==>
      r.position.value.totalInvested
        == (if p.Some? then p.value.totalInvested else 0.0) + t.totalAmount
    // Growing a held position keeps invested == quantity * average.
    ensures t.transactionType == Buy && p.Some? ==> Balanced(r.position.value)
    // A SELL on a held position: realized PnL is proceeds minus the cost
    // basis released, and the average cost of what remains is unchanged.
    ensures t.transactionType == Sell && p.Some? ==>
      r.transaction.realizedPnl == t.price * t.quantity - p.value.averageBuyPrice * t.quantity
    ensures t.transactionType == Sell && r.position.Some? ==>
      && r.position.value.averageBuyPrice == p.value.averageBuyPrice
      && r.position.value.totalInvested == p.value.totalInvested - p.value.averageBuyPrice * t.quantity
    // A SELL on an unheld asset leaves the transaction as it was.
    ensures t.transactionType == Sell && p.None? ==> r == Applied(None, t)
    // The externally supplied price fields survive any update of a held position.
    ensures p.Some? && r.position.Some? ==>
      && r.position.value.currentPrice == p.value.currentPrice
      && r.position.value.currentValue == p.value.currentValue
      && r.position.value.unrealizedPnl == p.value.unrealizedPnl
      && r.position.value.unrealizedPnlPercentage == p.value.unrealizedPnlPercentage
  {
    match t.transactionType
    case Buy =>
      if p.Some? then
        var newQuantity := p.value.quantity + t.quantity;
        var newInvested := p.value.totalInvested + t.totalAmount;
        Applied(Some(p.value.(quantity := newQuantity,
                              totalInvested := newInvested,
                              averageBuyPrice := newInvested / newQuantity)), t)
      else
        Applied(Some(FreshPosition(t)), t)
    case Sell =>
      if p.Some? then
        var pos := p.value;
        var realized := (t.price - pos.averageBuyPrice) * t.quantity;
        var rest := pos.(quantity := pos.quantity - t.quantity,
                         totalInvested := pos.totalInvested - pos.averageBuyPrice * t.quantity);
        Applied(if rest.quantity <= 0.0 then None else Some(rest), t.(realizedPnl := realized))
      else
        Applied(None, t)
  }

  /** A fresh position from a BUY satisfies the cost-basis identity exactly
      when the BUY paid no fee. */
  lemma FreshBuyBalancedIffNoFee(t: Transaction)
    requires WellFormed(t) && t.transactionType == Buy
    ensures Balanced(Apply(None, t).position.value) <==> t.fee == 0.0
  {
  }

  /** Every SELL on a held position keeps the cost-basis identity. */
  lemma SellKeepsBalanced(p: Position, t: Transaction)
    requires p.quantity > 0.0 && t.quantity > 0.0 && t.transactionType == Sell
    requires Balanced(p)
    ensures var r := Apply(Some(p), t).position; r.Some? ==> Balanced(r.value)
  {
    var r := Apply(Some(p), t).position;
    if r.Some? {
      calc {
        r.value.totalInvested;
        p.quantity * p.averageBuyPrice - p.averageBuyPrice * t.quantity;
        (p.quantity - t.quantity) * p.averageBuyPrice;
      }
    }
  }

  /** Apply looks only at the recorded fact, never at the realizedPnl a
      transaction already carries, to decide the new position. */
  lemma ApplyIgnoresStamp(p: Option<Position>, t: Transaction, u: Transaction)
    requires t.quantity > 0.0 && Holding(p) && SameFact(t, u)
    ensures Apply(p, t).position == Apply(p, u).position
    ensures t.transactionType == Sell && p.Some? ==> Apply(p, t).transaction == Apply(p, u).transaction
  {
    assert u == t.(realizedPnl := u.realizedPnl);
    var x, y := Apply(p, t).position, Apply(p, u).position;
    assert x.Some? == y.Some?;
    if x.Some? {
      assert x.value == y.value;
    }
    if t.transactionType == Sell && p.Some? {
      var realized := (t.price - p.value.averageBuyPrice) * t.quantity;
      assert u.(realizedPnl := realized) == t.(realizedPnl := realized);
    }
  }

  /** Applying a step to the transaction it has already stamped changes
      nothing more: the stamp is a fixpoint. */
  lemma ApplyStampIsFixpoint(p: Option<Position>, t: Transaction)
    requires t.quantity > 0.0 && Holding(p)
    ensures Apply(p, Apply(p, t).transaction) == Apply(p, t)
  {
    var u := Apply(p, t).transaction;
    ApplyIgnoresStamp(p, t, u);
    if t.transactionType == Sell && p.Some? {
      assert u.(realizedPnl := Apply(p, u).transaction.realizedPnl) == u;
    }
  }

  /** Every transaction of `s` can be applied. */
  predicate Applicable(s: seq<Transaction>) {
    forall k :: 0 <= k < |s| ==> s[k].quantity > 0.0
  }

  /** The result of replaying a history: the final position and the history
      with each transaction as its step left it. */
  datatype Replayed = Replayed(position: Option<Position>, transactions: seq<Transaction>)

  /** The left fold of Apply over `s`, starting from `p`. */
  function Replay(p: Option<Position>, s: seq<Transaction>): (r: Replayed)
    requires Holding(p) && Applicable(s)
    ensures Holding(r.position)
    ensures |r.transactions| == |s|
    ensures forall k :: 0 <= k < |s| ==> SameFact(r.transactions[k], s[k])
    ensures s == [] ==> r.position == p
    decreases |s|
  {
    if s == [] then Replayed(p, [])
    else
      var before := Replay(p, s[..|s| - 1]);
      var step := Apply(before.position, s[|s| - 1]);
      Replayed(step.position, before.transactions + [step.transaction])
  }

  /** Replaying a history extended by one transaction is one more Apply. */
  lemma ReplaySnoc(p: Option<Position>, s: seq<Transaction>, t: Transaction)
    requires Holding(p) && Applicable(s) && t.quantity > 0.0
    ensures Applicable(s + [t])
    ensures var before := Replay(p, s);
            var step := Apply(before.position, t);
            Replay(p, s + [t]) == Replayed(step.position, before.transactions + [step.transaction])
  {
    assert (s + [t])[..|s|] == s;
  }

  /** True when every BUY of `s` that opens a position, because the replay
      from `p` holds none when it comes, paid no fee. */
  predicate FeeFreeOpenings(p: Option<Position>, s: seq<Transaction>)
    requires Holding(p) && Applicable(s)
  {
    forall k :: 0 <= k < |s| && s[k].transactionType == Buy && Replay(p, s[..k]).position.None? ==>
      s[k].fee == 0.0
  }

  /** Only a fresh position opened by a BUY with a fee breaks the cost-basis
      identity: replaying well-formed transactions from a balanced position
      (or from none), where no BUY that opens a position paid a fee, ends
      balanced (or with none). A fee on a BUY into a held position is
      absorbed by the recomputed average. */
  lemma {:induction false} ReplayKeepsBalanced(p: Option<Position>, s: seq<Transaction>)
    requires Holding(p) && (p.Some? ==> Balanced(p.value))
    requires forall k :: 0 <= k < |s| ==> WellFormed(s[k])
    requires Applicable(s) && FeeFreeOpenings(p, s)
    ensures var r := Replay(p, s).position; r.Some? ==> Balanced(r.value)
    decreases |s|
  {
    if s != [] {
      var n := |s| - 1;
      var init := s[..n];
      var t := s[n];
      assert forall k :: 0 <= k < n ==> init[k] == s[k] && init[..k] == s[..k];
      ReplayKeepsBalanced(p, init);
      var before := Replay(p, init).position;
      match t.transactionType {
        case Buy =>
          if before.None? { FreshBuyBalancedIffNoFee(t); }
        case Sell =>
          if before.Some? { SellKeepsBalanced(before.value, t); }
      }
    }
  }

  /** Sequences with the same facts, entry by entry, are applicable together. */
  lemma SameFactsApplicable(s: seq<Transaction>, u: seq<Transaction>)
    requires Applicable(s) && |s| == |u|
    requires forall k :: 0 <= k < |s| ==> SameFact(s[k], u[k])
    ensures Applicable(u)
  {
    forall k | 0 <= k < |u| ensures u[k].quantity > 0.0 {
      assert SameFact(s[k], u[k]);
    }
  }

  /** Replay looks only at the recorded facts of its history. */
  lemma {:induction false} ReplayIgnoresStamps(p: Option<Position>, s: seq<Transaction>, u: seq<Transaction>)
    requires Holding(p) && Applicable(s) && |s| == |u|
    requires forall k :: 0 <= k < |s| ==> SameFact(s[k], u[k])
    ensures Applicable(u)
    ensures Replay(p, s).position == Replay(p, u).position
    decreases |s|
  {
    SameFactsApplicable(s, u);
    if s != [] {
      var n := |s| - 1;
      var s', u' := s[..n], u[..n];
      forall k | 0 <= k < n ensures SameFact(s'[k], u'[k]) {
        assert s'[k] == s[k] && u'[k] == u[k];
      }
      assert Applicable(s');
      ReplayIgnoresStamps(p, s', u');
      var before := Replay(p, s').position;
      assert Replay(p, u').position == before;
      assert SameFact(s[n], u[n]);
      ApplyIgnoresStamp(before, s[n], u[n]);
      assert Replay(p, s).position == Apply(before, s[n]).position;
      assert Replay(p, u).position == Apply(before, u[n]).position;
    }
  }
}
