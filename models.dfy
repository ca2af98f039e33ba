/** Records of the portfolio tracker: the kinds of transaction, a transaction
    as submitted and as stored, and a per-asset position. Amounts are exact
    reals; dates are integer timestamps in seconds. */
module Models {

  datatype Option<T> = None | Some(value: T)

  /** BUY or SELL. */
  datatype TransactionType = Buy | Sell

  /** A transaction as a client submits it. `fee` defaults to 0.0 at the
      boundary; here it is always given. */
  datatype TransactionInput = TransactionInput(
    assetId: int,
    transactionType: TransactionType,
    quantity: real,
    price: real,
    fee: real,
    transactionDate: int)

  /** Boundary validation: quantity and price strictly positive, fee non-negative. */
  predicate ValidInput(input: TransactionInput) {
    input.quantity > 0.0 && input.price > 0.0 && input.fee >= 0.0
  }

  /** A stored transaction. `realizedPnl` is written by the position engine for
      a SELL against a held position and otherwise keeps its value. */
  datatype Transaction = Transaction(
    id: int,
    userId: int,
    assetId: int,
    transactionType: TransactionType,
    quantity: real,
    price: real,
    fee: real,
    totalAmount: real,
    realizedPnl: real,
    transactionDate: int)

  /** What every transaction in the ledger satisfies: it passed validation and
      its total amount was fixed at creation as quantity * price + fee. */
  predicate WellFormed(t: Transaction) {
    && t.quantity > 0.0 && t.price > 0.0 && t.fee >= 0.0
    && t.totalAmount == t.quantity * t.price + t.fee
  }

  /** Two transactions record the same fact: they differ at most in realizedPnl. */
  predicate SameFact(t: Transaction, u: Transaction) {
    t.(realizedPnl := u.realizedPnl) == u
  }

  /** Holdings of one asset for one user. The last four fields are supplied
      from outside; the engine copies them and never computes them. */
  datatype Position = Position(
    quantity: real,
    averageBuyPrice: real,
    totalInvested: real,
    currentPrice: real,
    currentValue: real,
    unrealizedPnl: real,
    unrealizedPnlPercentage: real)

  /** The cost-basis identity: invested capital is quantity times average price. */
  predicate Balanced(p: Position) {
    p.totalInvested == p.quantity * p.averageBuyPrice
  }

  /** The total amount charged for a submitted transaction. */
  function TotalAmount(input: TransactionInput): real {
    input.quantity * input.price + input.fee
  }

  /** The transaction row the store inserts for `input`, before the position
      engine runs: realizedPnl takes its default 0.0. */
  function NewTransaction(id: int, userId: int, input: TransactionInput): (t: Transaction)
    requires ValidInput(input)
    ensures WellFormed(t)
    ensures t.totalAmount >= t.quantity * t.price > 0.0
    ensures t.realizedPnl == 0.0
    ensures t.id == id && t.userId == userId && t.assetId == input.assetId
    ensures t.transactionType == input.transactionType && t.transactionDate == input.transactionDate
    ensures t.quantity == input.quantity && t.price == input.price && t.fee == input.fee
  {
    Transaction(id, userId, input.assetId, input.transactionType, input.quantity,
                input.price, input.fee, TotalAmount(input), 0.0, input.transactionDate)
  }
}
