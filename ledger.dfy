/** The store of one user as a value: its positions keyed by asset and its
    ledger of transactions, with the store transitions the engine performs
    (apply one stored transaction, create, recompute one asset, delete). The
    class in PortfolioStore is proved against these functions. */
module Ledger {
  import opened Models
  import opened PositionEngine
  import opened DateOrder

  /** The positions and transactions of user `userId`; `nextId` is the id
      the next inserted transaction receives. */
  datatype Book = Book(userId: int, positions: map<int, Position>, ledger: seq<Transaction>, nextId: int)

  /** Transaction ids are a key of the ledger. */
  predicate UniqueIds(l: seq<Transaction>) {
    forall j, k :: 0 <= j < k < |l| ==> l[j].id != l[k].id
  }

  /** Every stored position holds a positive quantity. */
  predicate AllHolding(m: map<int, Position>) {
    forall a :: a in m ==> m[a].quantity > 0.0
  }

  /** The store's invariant: every position holds a positive quantity, every
      transaction is well formed, belongs to the user and has an id below
      nextId, and ids are unique. */
  predicate ValidBook(b: Book) {
    && AllHolding(b.positions)
    && (forall k :: 0 <= k < |b.ledger| ==>
          WellFormed(b.ledger[k]) && b.ledger[k].userId == b.userId && b.ledger[k].id < b.nextId)
    && UniqueIds(b.ledger)
  }

  /** A new user's store: no positions, no transactions, ids start at 1. */
  function EmptyBook(userId: int): (b: Book)
    ensures ValidBook(b) && b.positions == map[] && b.ledger == []
  {
    Book(userId, map[], [], 1)
  }

  /** The position stored for asset `a`, if any. */
  function Lookup(m: map<int, Position>, a: int): (r: Option<Position>)
    ensures r.Some? <==> a in m
    ensures r.Some? ==> r.value == m[a]
  {
    if a in m then Some(m[a]) else None
  }

  /** Store `p` as the position of asset `a`; None deletes it. */
  function Reposition(m: map<int, Position>, a: int, p: Option<Position>): (r: map<int, Position>)
    ensures Lookup(r, a) == p
    ensures forall c :: c != a ==> Lookup(r, c) == Lookup(m, c)
    ensures r.Keys <= m.Keys + {a}
    ensures AllHolding(m) && Holding(p) ==> AllHolding(r)
  {
    if p.Some? then m[a := p.value] else m - {a}
  }

  /** Storing a held position, or none, keeps the store's invariant. */
  lemma RepositionKeepsValid(b: Book, a: int, p: Option<Position>)
    requires ValidBook(b) && Holding(p)
    ensures ValidBook(b.(positions := Reposition(b.positions, a, p)))
  {
  }

  /** A later store of the same asset replaces an earlier one. */
  lemma RepositionTwice(m: map<int, Position>, a: int, p: Option<Position>, q: Option<Position>)
    ensures Reposition(Reposition(m, a, p), a, q) == Reposition(m, a, q)
  {
  }

  /** Re-storing what is already stored changes nothing. */
  lemma RepositionSame(m: map<int, Position>, a: int)
    ensures Reposition(m, a, Lookup(m, a)) == m
  {
  }

  /** The ledger entries at the indices `s`, in that order. */
  function Pick(l: seq<Transaction>, s: seq<nat>): (r: seq<Transaction>)
    requires InRange(l, s)
    ensures |r| == |s|
    ensures forall k :: 0 <= k < |s| ==> r[k] == l[s[k]]
    ensures Applicable(l) ==> Applicable(r)
    decreases |s|
  {
    if s == [] then []
    else Pick(l, s[..|s| - 1]) + [l[s[|s| - 1]]]
  }

  /** The ledger with vals[k] written at index s[k], for each k in turn. */
  function Overwrite(l: seq<Transaction>, s: seq<nat>, vals: seq<Transaction>): (r: seq<Transaction>)
    requires InRange(l, s) && |vals| == |s|
    ensures |r| == |l|
    ensures forall i :: 0 <= i < |l| && i !in s ==> r[i] == l[i]
    ensures Distinct(s) ==> forall k :: 0 <= k < |s| ==> r[s[k]] == vals[k]
    decreases |s|
  {
    if s == [] then l
    else
      var n := |s| - 1;
      assert forall x :: x in s[..n] ==> x in s;
      var r := Overwrite(l, s[..n], vals[..n]);
      assert Distinct(s) ==> Distinct(s[..n]) && forall k :: 0 <= k < n ==> s[k] != s[n];
      r[s[n] := vals[n]]
  }

  /** Picking one index more appends that entry. */
  lemma PickSnoc(l: seq<Transaction>, s: seq<nat>, k: nat)
    requires InRange(l, s) && k < |s|
    ensures InRange(l, s[..k]) && InRange(l, s[..k + 1])
    ensures Pick(l, s[..k + 1]) == Pick(l, s[..k]) + [l[s[k]]]
  {
    assert s[..k + 1][..k] == s[..k];
  }

  /** Overwriting one index more is one more sequence update. */
  lemma OverwriteSnoc(l: seq<Transaction>, s: seq<nat>, k: nat, vals: seq<Transaction>, v: Transaction)
    requires InRange(l, s) && k < |s| && |vals| == k
    ensures InRange(l, s[..k]) && InRange(l, s[..k + 1])
    ensures Overwrite(l, s[..k + 1], vals + [v]) == Overwrite(l, s[..k], vals)[s[k] := v]
  {
    assert s[..k + 1][..k] == s[..k];
    assert (vals + [v])[..k] == vals;
  }

  /** Overwriting with values that record the same facts keeps every fact. */
  lemma {:induction false} OverwriteKeepsFacts(l: seq<Transaction>, s: seq<nat>, vals: seq<Transaction>)
    requires InRange(l, s) && |vals| == |s|
    requires forall k :: 0 <= k < |s| ==> SameFact(vals[k], l[s[k]])
    ensures forall i :: 0 <= i < |l| ==> SameFact(Overwrite(l, s, vals)[i], l[i])
    decreases |s|
  {
    if s != [] {
      var n := |s| - 1;
      assert InRange(l, s[..n]);
      OverwriteKeepsFacts(l, s[..n], vals[..n]);
    }
  }

  /** Overwriting the entries `s` of a ledger with its own entries is the identity. */
  lemma OverwriteWithOwnEntries(l: seq<Transaction>, s: seq<nat>)
    requires InRange(l, s) && Distinct(s)
    ensures Overwrite(l, s, Pick(l, s)) == l
  {
    var r := Overwrite(l, s, Pick(l, s));
    forall i | 0 <= i < |l| ensures r[i] == l[i] {
      if i in s {
        var k :| 0 <= k < |s| && s[k] == i;
      }
    }
  }

  /** A ledger whose entries record the same facts as a valid one is valid. */
  lemma SameFactsKeepValid(b: Book, l: seq<Transaction>)
    requires ValidBook(b) && |l| == |b.ledger|
    requires forall i :: 0 <= i < |l| ==> SameFact(l[i], b.ledger[i])
    ensures ValidBook(b.(ledger := l))
  {
    forall j, k | 0 <= j < k < |l| ensures l[j].id != l[k].id {
      assert l[j].id == b.ledger[j].id && l[k].id == b.ledger[k].id;
    }
  }

  /** The engine's single step on the stored transaction at index `i`: the
      position of its asset is updated and its realizedPnl is written. */
  function ApplyAt(b: Book, i: nat): (r: Book)
    requires ValidBook(b) && i < |b.ledger|
    ensures ValidBook(r)
    ensures r.userId == b.userId && r.nextId == b.nextId
    // Only the position of the transaction's asset can change.
    ensures forall c :: c != b.ledger[i].assetId ==> Lookup(r.positions, c) == Lookup(b.positions, c)
    // Only the realizedPnl of entry i can change.
    ensures |r.ledger| == |b.ledger|
    ensures forall k :: 0 <= k < |b.ledger| && k != i ==> r.ledger[k] == b.ledger[k]
    ensures SameFact(r.ledger[i], b.ledger[i])
    ensures var step := Apply(Lookup(b.positions, b.ledger[i].assetId), b.ledger[i]);
            Lookup(r.positions, b.ledger[i].assetId) == step.position && r.ledger[i] == step.transaction
  {
    var t := b.ledger[i];
    var step := Apply(Lookup(b.positions, t.assetId), t);
    var r := b.(positions := Reposition(b.positions, t.assetId, step.position),
                ledger := b.ledger[i := step.transaction]);
    SameFactsKeepValid(b, r.ledger);
    r
  }

  /** A created transaction together with the store after it. */
  datatype Created = Created(book: Book, transaction: Transaction)

  /** Record a validated transaction: its total amount is fixed as
      quantity * price + fee, it is appended under the next id with
      realizedPnl 0.0, and the engine applies it. */
  function Create(b: Book, input: TransactionInput): (r: Created)
    requires ValidBook(b) && ValidInput(input)
    ensures ValidBook(r.book)
    ensures r.book.userId == b.userId && r.book.nextId == b.nextId + 1
    ensures |r.book.ledger| == |b.ledger| + 1 && r.book.ledger[..|b.ledger|] == b.ledger
    ensures r.book.ledger[|b.ledger|] == r.transaction
    ensures r.transaction.id == b.nextId && r.transaction.userId == b.userId
    ensures r.transaction.totalAmount == r.transaction.quantity * r.transaction.price + r.transaction.fee
    ensures SameFact(r.transaction, NewTransaction(b.nextId, b.userId, input))
    ensures forall c :: c != input.assetId ==> Lookup(r.book.positions, c) == Lookup(b.positions, c)
    ensures var step := Apply(Lookup(b.positions, input.assetId), NewTransaction(b.nextId, b.userId, input));
            Lookup(r.book.positions, input.assetId) == step.position && r.transaction == step.transaction
  {
    var t := NewTransaction(b.nextId, b.userId, input);
    var grown := b.(ledger := b.ledger + [t], nextId := b.nextId + 1);
    var after := ApplyAt(grown, |b.ledger|);
    assert after.ledger[..|b.ledger|] == b.ledger;
    Created(after, after.ledger[|b.ledger|])
  }

  /** A SELL of an asset the user does not hold changes no position, and the
      stored transaction keeps realizedPnl 0.0. */
  lemma SellOfUnheldAsset(b: Book, input: TransactionInput)
    requires ValidBook(b) && ValidInput(input)
    requires input.transactionType == Sell && input.assetId !in b.positions
    ensures Create(b, input).book.positions == b.positions
    ensures Create(b, input).transaction.realizedPnl == 0.0
  {
    var r := Create(b, input).book.positions;
    assert forall c :: Lookup(r, c) == Lookup(b.positions, c);
    assert forall c :: c in r <==> c in b.positions;
    assert forall c :: c in r ==> r[c] == b.positions[c] by {
      forall c | c in r ensures r[c] == b.positions[c] {
        assert Lookup(r, c) == Lookup(b.positions, c);
      }
    }
  }

  /** Recomputation of asset `a` after its first `k` transactions in date
      order: the asset's position is what replaying them from no position
      gives, and each of them carries the realizedPnl its step wrote. */
  function Partial(b: Book, a: int, k: nat): (r: Book)
    requires ValidBook(b) && k <= |Order(b.ledger, a)|
    ensures ValidBook(r)
    ensures r.userId == b.userId && r.nextId == b.nextId
    ensures forall c :: c != a ==> Lookup(r.positions, c) == Lookup(b.positions, c)
    ensures |r.ledger| == |b.ledger|
    ensures forall i :: 0 <= i < |b.ledger| ==> SameFact(r.ledger[i], b.ledger[i])
    ensures forall i :: 0 <= i < |b.ledger| && i !in Order(b.ledger, a)[..k] ==> r.ledger[i] == b.ledger[i]
    // The asset's position and the stamps of its first k entries in date
    // order are those of replaying those entries from no position.
    ensures var order := Order(b.ledger, a)[..k];
            var replayed := Replay(None, Pick(b.ledger, order));
            && Lookup(r.positions, a) == replayed.position
            && forall j :: 0 <= j < k ==> r.ledger[order[j]] == replayed.transactions[j]
  {
    var order := Order(b.ledger, a)[..k];
    assert InRange(b.ledger, order);
    assert Distinct(order);
    ValidLedgerApplicable(b);
    var history := Pick(b.ledger, order);
    var replayed := Replay(None, history);
    OverwriteKeepsFacts(b.ledger, order, replayed.transactions);
    var ledger := Overwrite(b.ledger, order, replayed.transactions);
    SameFactsKeepValid(b, ledger);
    var mid := b.(ledger := ledger);
    RepositionKeepsValid(mid, a, replayed.position);
    mid.(positions := Reposition(b.positions, a, replayed.position))
  }

  /** Every transaction of a valid store can be applied. */
  lemma ValidLedgerApplicable(b: Book)
    requires ValidBook(b)
    ensures Applicable(b.ledger)
  {
    forall k | 0 <= k < |b.ledger| ensures b.ledger[k].quantity > 0.0 {
      assert WellFormed(b.ledger[k]);
    }
  }

  /** Before any transaction is replayed, recomputation has only dropped the
      asset's position. */
  lemma PartialStart(b: Book, a: int)
    requires ValidBook(b)
    ensures Partial(b, a, 0) == b.(positions := Reposition(b.positions, a, None))
  {
    assert Order(b.ledger, a)[..0] == [];
    assert Partial(b, a, 0).ledger == b.ledger;
  }

  /** Recomputation advances by exactly one engine step on the next
      transaction in date order. */
  lemma PartialStep(b: Book, a: int, k: nat)
    requires ValidBook(b) && k < |Order(b.ledger, a)|
    ensures Partial(b, a, k + 1) == ApplyAt(Partial(b, a, k), Order(b.ledger, a)[k])
  {
    var order := Order(b.ledger, a);
    var i := order[k];
    var before := Partial(b, a, k);
    assert InRange(b.ledger, order);
    assert i !in order[..k];
    assert before.ledger[i] == b.ledger[i];
    PickSnoc(b.ledger, order, k);
    ValidLedgerApplicable(b);
    var history := Pick(b.ledger, order[..k]);
    var replayed := Replay(None, history);
    ReplaySnoc(None, history, b.ledger[i]);
    var step := Apply(replayed.position, b.ledger[i]);
    assert Lookup(before.positions, a) == replayed.position;
    OverwriteSnoc(b.ledger, order, k, replayed.transactions, step.transaction);
    RepositionTwice(b.positions, a, replayed.position, step.position);
  }

  /** Full recomputation of asset `a`: its position is dropped and rebuilt by
      replaying the ledger's transactions for `a` in ascending date order from
      no position, each SELL's realizedPnl being written again. */
  function Recompute(b: Book, a: int): (r: Book)
    requires ValidBook(b)
    ensures ValidBook(r)
    ensures r.userId == b.userId && r.nextId == b.nextId
    ensures forall c :: c != a ==> Lookup(r.positions, c) == Lookup(b.positions, c)
    ensures |r.ledger| == |b.ledger|
    ensures forall i :: 0 <= i < |b.ledger| ==> SameFact(r.ledger[i], b.ledger[i])
    ensures forall i :: 0 <= i < |b.ledger| && b.ledger[i].assetId != a ==> r.ledger[i] == b.ledger[i]
  {
    var order := Order(b.ledger, a);
    assert order[..|order|] == order;
    Partial(b, a, |order|)
  }

  /** Recomputation is the loop run to the end. */
  lemma RecomputeIsFullPartial(b: Book, a: int)
    requires ValidBook(b)
    ensures Recompute(b, a) == Partial(b, a, |Order(b.ledger, a)|)
  {
  }

  /** What recomputation produces for the asset itself: the position is the
      replay of the asset's transactions in date order, and the k-th of them
      carries what the k-th replay step wrote. */
  lemma RecomputeReplaysDateOrder(b: Book, a: int)
    requires ValidBook(b)
    ensures var order := Order(b.ledger, a);
            var replayed := Replay(None, Pick(b.ledger, order));
            && Recompute(b, a).positions == Reposition(b.positions, a, replayed.position)
            && Recompute(b, a).ledger == Overwrite(b.ledger, order, replayed.transactions)
            && Lookup(Recompute(b, a).positions, a) == replayed.position
            && forall k :: 0 <= k < |order| ==> Recompute(b, a).ledger[order[k]] == replayed.transactions[k]
  {
    var order := Order(b.ledger, a);
    assert order[..|order|] == order;
  }

  /** The recomputed position satisfies invested == quantity * average when
      no BUY that opens a position during the replay in date order paid a fee. */
  lemma RecomputeBalancedWithoutFees(b: Book, a: int)
    requires ValidBook(b)
    requires FeeFreeOpenings(None, Pick(b.ledger, Order(b.ledger, a)))
    ensures var p := Lookup(Recompute(b, a).positions, a); p.Some? ==> Balanced(p.value)
  {
    var order := Order(b.ledger, a);
    var history := Pick(b.ledger, order);
    forall k | 0 <= k < |history| ensures WellFormed(history[k]) {
      assert history[k] == b.ledger[order[k]];
    }
    ReplayKeepsBalanced(None, history);
    RecomputeReplaysDateOrder(b, a);
  }

  /** The first entry of `l` with this id and owner, if any. */
  function FindTransaction(l: seq<Transaction>, id: int, userId: int): (r: Option<nat>)
    ensures r.Some? ==> r.value < |l| && l[r.value].id == id && l[r.value].userId == userId
    ensures r.Some? ==> forall k :: 0 <= k < r.value ==> !(l[k].id == id && l[k].userId == userId)
    ensures r.None? ==> forall k :: 0 <= k < |l| ==> !(l[k].id == id && l[k].userId == userId)
    decreases |l|
  {
    if l == [] then None
    else if l[0].id == id && l[0].userId == userId then Some(0)
    else
      match FindTransaction(l[1..], id, userId)
      case None => None
      case Some(k) => Some(k + 1)
  }

  /** The ledger without entry `k`. */
  function Remove(l: seq<Transaction>, k: nat): (r: seq<Transaction>)
    requires k < |l|
    ensures |r| == |l| - 1
    ensures forall j :: 0 <= j < k ==> r[j] == l[j]
    ensures forall j :: k <= j < |r| ==> r[j] == l[j + 1]
  {
    l[..k] + l[k + 1..]
  }

  /** Removing a ledger entry keeps the store valid. */
  lemma RemoveKeepsValid(b: Book, k: nat)
    requires ValidBook(b) && k < |b.ledger|
    ensures ValidBook(b.(ledger := Remove(b.ledger, k)))
    ensures forall i :: 0 <= i < |b.ledger| - 1 ==> Remove(b.ledger, k)[i].id != b.ledger[k].id
  {
    var l := Remove(b.ledger, k);
    forall i | 0 <= i < |l| ensures l[i].id != b.ledger[k].id {
      var i' := if i < k then i else i + 1;
      assert l[i] == b.ledger[i'];
    }
    forall i, j | 0 <= i < j < |l| ensures l[i].id != l[j].id {
      var i' := if i < k then i else i + 1;
      var j' := if j < k then j else j + 1;
      assert l[i] == b.ledger[i'] && l[j] == b.ledger[j'];
    }
  }

  /** The outcome of a deletion: the store afterwards and whether a
      transaction was deleted. */
  datatype Deleted = Deleted(book: Book, deleted: bool)

  /** Delete the user's transaction `id`: when none matches, report false and
      change nothing; otherwise remove it and recompute its asset. */
  function Delete(b: Book, id: int, userId: int): (r: Deleted)
    requires ValidBook(b)
    ensures ValidBook(r.book)
    ensures r.deleted <==> exists k :: 0 <= k < |b.ledger| && b.ledger[k].id == id && b.ledger[k].userId == userId
    ensures !r.deleted ==> r.book == b
    ensures r.deleted ==> |r.book.ledger| == |b.ledger| - 1
    ensures r.deleted ==>
      exists k :: 0 <= k < |b.ledger| && b.ledger[k].id == id &&
                  r.book == Recompute(b.(ledger := Remove(b.ledger, k)), b.ledger[k].assetId)
  {
    match FindTransaction(b.ledger, id, userId)
    case None => Deleted(b, false)
    case Some(k) =>
      var rest := b.(ledger := Remove(b.ledger, k));
      RemoveKeepsValid(b, k);
      Deleted(Recompute(rest, b.ledger[k].assetId), true)
  }

  /** After a deletion no transaction with that id is left, and the positions
      of assets other than the deleted transaction's are as they were. */
  lemma DeleteRemovesOnlyThatTransaction(b: Book, id: int, userId: int)
    requires ValidBook(b)
    requires Delete(b, id, userId).deleted
    ensures forall i :: 0 <= i < |Delete(b, id, userId).book.ledger| ==> Delete(b, id, userId).book.ledger[i].id != id
    ensures exists k :: 0 <= k < |b.ledger| && b.ledger[k].id == id &&
                        forall c :: c != b.ledger[k].assetId ==>
                          Lookup(Delete(b, id, userId).book.positions, c) == Lookup(b.positions, c)
  {
    var k := FindTransaction(b.ledger, id, userId).value;
    var rest := b.(ledger := Remove(b.ledger, k));
    RemoveKeepsValid(b, k);
    var re := Recompute(rest, b.ledger[k].assetId);
    assert Delete(b, id, userId).book == re;
    forall i | 0 <= i < |re.ledger| ensures re.ledger[i].id != id {
      assert SameFact(re.ledger[i], rest.ledger[i]);
    }
    assert b.ledger[k].id == id;
  }

  /** Every input passed validation. */
  predicate ValidInputs(inputs: seq<TransactionInput>) {
    forall k :: 0 <= k < |inputs| ==> ValidInput(inputs[k])
  }

  /** Live operation: creating the inputs one after another. */
  function Live(b: Book, inputs: seq<TransactionInput>): (r: Book)
    requires ValidBook(b) && ValidInputs(inputs)
    ensures ValidBook(r)
    ensures r.userId == b.userId && r.nextId == b.nextId + |inputs|
    ensures |r.ledger| == |b.ledger| + |inputs|
    ensures r.ledger[..|b.ledger|] == b.ledger
    // Each input is recorded in order, under the next id, as it was submitted.
    ensures forall k :: |b.ledger| <= k < |r.ledger| ==>
      && r.ledger[k].id == b.nextId + (k - |b.ledger|)
      && SameFact(r.ledger[k], NewTransaction(b.nextId + (k - |b.ledger|), b.userId, inputs[k - |b.ledger|]))
    decreases |inputs|
  {
    if inputs == [] then b
    else
      var n := |inputs| - 1;
      var before := Live(b, inputs[..n]);
      var r := Create(before, inputs[n]).book;
      assert r.ledger[..|b.ledger|] == before.ledger[..|b.ledger|];
      r
  }

  /** Asset `a` is settled when replaying its ledger entries in ledger order
      from no position yields the stored position and writes back exactly the
      realizedPnl values already stored. */
  predicate SettledAt(b: Book, a: int)
    requires ValidBook(b)
  {
    var history := Pick(b.ledger, Matching(b.ledger, a));
    Replay(None, history) == Replayed(Lookup(b.positions, a), history)
  }

  /** Extending the ledger adds the new index to its asset's entries. */
  lemma MatchingSnoc(l: seq<Transaction>, t: Transaction, a: int)
    ensures Matching(l + [t], a) == Matching(l, a) + (if t.assetId == a then [|l|] else [])
  {
    assert (l + [t])[..|l|] == l;
  }

  /** Picking old indices from an extended ledger picks the same entries. */
  lemma PickFromExtended(l: seq<Transaction>, t: Transaction, s: seq<nat>)
    requires InRange(l, s)
    ensures InRange(l + [t], s) && Pick(l + [t], s) == Pick(l, s)
  {
  }

  /** Creating a transaction keeps its own asset settled. */
  lemma CreateSettlesOwnAsset(b: Book, input: TransactionInput)
    requires ValidBook(b) && ValidInput(input)
    requires SettledAt(b, input.assetId)
    ensures SettledAt(Create(b, input).book, input.assetId)
  {
    var a := input.assetId;
    var n := |b.ledger|;
    var t := NewTransaction(b.nextId, b.userId, input);
    var r := Create(b, input);
    var l := r.book.ledger;
    assert l == b.ledger + [r.transaction];
    var m := Matching(b.ledger, a);
    MatchingSnoc(b.ledger, r.transaction, a);
    assert Matching(l, a) == m + [n];
    PickFromExtended(b.ledger, r.transaction, m);
    ValidLedgerApplicable(b);
    var history := Pick(b.ledger, m);
    var p0 := Lookup(b.positions, a);
    var step := Apply(p0, t);
    var u := step.transaction;
    assert u == r.transaction;
    assert (m + [n])[..|m|] == m;
    assert Pick(l, m + [n]) == history + [u];
    var before := Replay(None, history);
    assert before == Replayed(p0, history);
    ReplaySnoc(None, history, u);
    ApplyIgnoresStamp(p0, t, u);
    ApplyStampIsFixpoint(p0, t);
    assert Apply(p0, u) == step;
    assert Replay(None, history + [u]) == Replayed(step.position, history + [u]);
    assert Lookup(r.book.positions, a) == step.position;
  }

  /** Creating a transaction keeps every other asset settled. */
  lemma CreateKeepsOtherSettled(b: Book, input: TransactionInput, a: int)
    requires ValidBook(b) && ValidInput(input) && a != input.assetId
    requires SettledAt(b, a)
    ensures SettledAt(Create(b, input).book, a)
  {
    var r := Create(b, input);
    var l := r.book.ledger;
    assert l == b.ledger + [r.transaction];
    var m := Matching(b.ledger, a);
    MatchingSnoc(b.ledger, r.transaction, a);
    assert Matching(l, a) == m;
    PickFromExtended(b.ledger, r.transaction, m);
    assert Pick(l, m) == Pick(b.ledger, m);
    assert Lookup(r.book.positions, a) == Lookup(b.positions, a);
  }

  /** Creating a transaction keeps every asset settled. */
  lemma CreateKeepsSettled(b: Book, input: TransactionInput, a: int)
    requires ValidBook(b) && ValidInput(input)
    requires forall c :: SettledAt(b, c)
    ensures SettledAt(Create(b, input).book, a)
  {
    assert SettledAt(b, a);
    if input.assetId == a {
      CreateSettlesOwnAsset(b, input);
    } else {
      CreateKeepsOtherSettled(b, input, a);
    }
  }

  /** On a settled book in date order, recomputing any asset changes nothing. */
  lemma SettledRecomputeIsIdentity(b: Book, a: int)
    requires ValidBook(b) && SettledAt(b, a) && DatesSorted(b.ledger)
    ensures Recompute(b, a) == b
  {
    OrderOfSortedLedger(b.ledger, a);
    RecomputeReplaysDateOrder(b, a);
    var m := Matching(b.ledger, a);
    assert Distinct(m);
    OverwriteWithOwnEntries(b.ledger, m);
    RepositionSame(b.positions, a);
  }

  /** Creating the inputs one by one from an empty store leaves every asset settled. */
  lemma {:induction false} LiveIsSettled(userId: int, inputs: seq<TransactionInput>)
    requires ValidInputs(inputs)
    ensures forall a :: SettledAt(Live(EmptyBook(userId), inputs), a)
    decreases |inputs|
  {
    var empty := EmptyBook(userId);
    if inputs == [] {
      forall a ensures SettledAt(empty, a) {
        assert Matching(empty.ledger, a) == [];
      }
    } else {
      var n := |inputs| - 1;
      assert ValidInputs(inputs[..n]);
      LiveIsSettled(userId, inputs[..n]);
      var before := Live(empty, inputs[..n]);
      forall a ensures SettledAt(Live(empty, inputs), a) {
        CreateKeepsSettled(before, inputs[n], a);
      }
    }
  }

  /** A ledger built live from inputs in date order is in date order. */
  lemma LiveDatesSorted(userId: int, inputs: seq<TransactionInput>)
    requires ValidInputs(inputs)
    requires forall j, k :: 0 <= j < k < |inputs| ==> inputs[j].transactionDate <= inputs[k].transactionDate
    ensures DatesSorted(Live(EmptyBook(userId), inputs).ledger)
  {
    var empty := EmptyBook(userId);
    assert |empty.ledger| == 0;
  }

  /** Replay equivalence: when transactions are created in date order, a full
      recomputation of any asset reproduces exactly the state that live
      incremental application built: the same positions and the same
      realizedPnl on every transaction. */
  lemma {:induction false} RecomputeAgreesWithLive(userId: int, inputs: seq<TransactionInput>, a: int)
    requires ValidInputs(inputs)
    requires forall j, k :: 0 <= j < k < |inputs| ==> inputs[j].transactionDate <= inputs[k].transactionDate
    ensures Recompute(Live(EmptyBook(userId), inputs), a) == Live(EmptyBook(userId), inputs)
  {
    LiveIsSettled(userId, inputs);
    LiveDatesSorted(userId, inputs);
    SettledRecomputeIsIdentity(Live(EmptyBook(userId), inputs), a);
  }
}
