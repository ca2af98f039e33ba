/** The order in which a position is replayed: the ledger's transactions for
    one asset sorted by transaction date, ascending. The store's query leaves
    the order of equal dates open; this model fixes a stable sort, so equal
    dates keep their order of insertion into the ledger. Orders are sequences
    of ledger indices. */
module DateOrder {
  import opened Models

  /** Every index of `s` points into the ledger. */
  predicate InRange(l: seq<Transaction>, s: seq<nat>) {
    forall k :: 0 <= k < |s| ==> s[k] < |l|
  }

  /** Ledger entry `x` comes before `y` in replay order: earlier date, or the
      same date and inserted earlier. */
  predicate Before(l: seq<Transaction>, x: nat, y: nat)
    requires x < |l| && y < |l|
  {
    || l[x].transactionDate < l[y].transactionDate
    || (l[x].transactionDate == l[y].transactionDate && x < y)
  }

  /** `s` lists ledger entries in strictly increasing replay order. */
  predicate StablySorted(l: seq<Transaction>, s: seq<nat>) {
    InRange(l, s) && forall j, k :: 0 <= j < k < |s| ==> Before(l, s[j], s[k])
  }

  /** No index is listed twice. */
  predicate Distinct(s: seq<nat>) {
    forall j, k :: 0 <= j < k < |s| ==> s[j] != s[k]
  }

  /** Strictly increasing indices. */
  predicate Increasing(s: seq<nat>) {
    forall j, k :: 0 <= j < k < |s| ==> s[j] < s[k]
  }

  /** The ledger's own dates never decrease. */
  predicate DatesSorted(l: seq<Transaction>) {
    forall i, j :: 0 <= i < j < |l| ==> l[i].transactionDate <= l[j].transactionDate
  }

  /** The indices of the ledger entries for asset `a`, in ledger order: what
      the store's filter by (user, asset) selects. */
  function Matching(l: seq<Transaction>, a: int): (m: seq<nat>)
    ensures forall k :: 0 <= k < |m| ==> m[k] < |l| && l[m[k]].assetId == a
    ensures forall i :: 0 <= i < |l| && l[i].assetId == a ==> i in m
    ensures Increasing(m)
    decreases |l|
  {
    if l == [] then []
    else Matching(l[..|l| - 1], a) + (if l[|l| - 1].assetId == a then [|l| - 1] else [])
  }

  /** Insertion of one index into an order, placed after every entry whose
      date is not later than its own. */
  function InsertByDate(l: seq<Transaction>, i: nat, s: seq<nat>): (r: seq<nat>)
    requires i < |l| && InRange(l, s)
    ensures multiset(r) == multiset(s) + multiset{i}
    ensures forall x :: x in r <==> x in s || x == i
    ensures InRange(l, r)
    decreases |s|
  {
    if s == [] then [i]
    else
      var n := |s| - 1;
      assert s == s[..n] + [s[n]];
      if l[s[n]].transactionDate <= l[i].transactionDate then s + [i]
      else InsertByDate(l, i, s[..n]) + [s[n]]
  }

  /** Insertion sort of the indices `s` by date. */
  function SortByDate(l: seq<Transaction>, s: seq<nat>): (r: seq<nat>)
    requires InRange(l, s)
    ensures multiset(r) == multiset(s)
    ensures forall x :: x in r <==> x in s
    ensures InRange(l, r)
    decreases |s|
  {
    if s == [] then []
    else
      var n := |s| - 1;
      assert s == s[..n] + [s[n]];
      InsertByDate(l, s[n], SortByDate(l, s[..n]))
  }

  lemma StablySortedSnoc(l: seq<Transaction>, s: seq<nat>, y: nat)
    requires StablySorted(l, s) && y < |l|
    requires forall x :: x in s ==> Before(l, x, y)
    ensures StablySorted(l, s + [y])
  {
    var r := s + [y];
    forall j, k | 0 <= j < k < |r| ensures Before(l, r[j], r[k]) {
      if k == |s| { assert r[j] in s; }
    }
  }

  /** Inserting an index later in the ledger than every index already placed
      keeps the order strictly increasing in (date, ledger position). */
  lemma {:induction false} InsertKeepsStablySorted(l: seq<Transaction>, i: nat, s: seq<nat>)
    requires i < |l| && StablySorted(l, s)
    requires forall x :: x in s ==> x < i
    ensures StablySorted(l, InsertByDate(l, i, s))
    decreases |s|
  {
    if s != [] {
      var n := |s| - 1;
      var init := s[..n];
      assert s == init + [s[n]];
      if l[s[n]].transactionDate <= l[i].transactionDate {
        forall x | x in s ensures Before(l, x, i) {
          var j :| 0 <= j < |s| && s[j] == x;
          if j < n { assert Before(l, s[j], s[n]); }
        }
        StablySortedSnoc(l, s, i);
      } else {
        assert StablySorted(l, init) by {
          forall j, k | 0 <= j < k < |init| ensures Before(l, init[j], init[k]) {
            assert init[j] == s[j] && init[k] == s[k];
          }
        }
        forall x | x in init ensures x < i {
          var j :| 0 <= j < |init| && init[j] == x;
          assert s[j] in s;
        }
        InsertKeepsStablySorted(l, i, init);
        var r := InsertByDate(l, i, init);
        forall x | x in r ensures Before(l, x, s[n]) {
          if x != i {
            var j :| 0 <= j < |init| && init[j] == x;
            assert Before(l, s[j], s[n]);
          }
        }
        StablySortedSnoc(l, r, s[n]);
      }
    }
  }

  /** Sorting increasing indices yields the strict (date, ledger position) order. */
  lemma {:induction false} SortIsStablySorted(l: seq<Transaction>, s: seq<nat>)
    requires InRange(l, s) && Increasing(s)
    ensures StablySorted(l, SortByDate(l, s))
    decreases |s|
  {
    if s != [] {
      var n := |s| - 1;
      assert s == s[..n] + [s[n]];
      assert InRange(l, s[..n]) && Increasing(s[..n]);
      SortIsStablySorted(l, s[..n]);
      forall x | x in SortByDate(l, s[..n]) ensures x < s[n] {
        var j :| 0 <= j < n && s[..n][j] == x;
      }
      InsertKeepsStablySorted(l, s[n], SortByDate(l, s[..n]));
    }
  }

  /** On a ledger whose dates never decrease, sorting increasing indices by
      date changes nothing: the sort is stable. */
  lemma {:induction false} SortOfSortedIsIdentity(l: seq<Transaction>, s: seq<nat>)
    requires InRange(l, s) && Increasing(s) && DatesSorted(l)
    ensures SortByDate(l, s) == s
    decreases |s|
  {
    if s != [] {
      var n := |s| - 1;
      assert s == s[..n] + [s[n]];
      assert InRange(l, s[..n]) && Increasing(s[..n]);
      SortOfSortedIsIdentity(l, s[..n]);
      if n > 0 {
        assert s[n - 1] < s[n];
        assert l[s[n - 1]].transactionDate <= l[s[n]].transactionDate;
      }
    }
  }

  /** A strictly ordered sequence lists no index twice. */
  lemma StablySortedIsDistinct(l: seq<Transaction>, s: seq<nat>)
    requires StablySorted(l, s)
    ensures Distinct(s)
  {
    forall j, k | 0 <= j < k < |s| ensures s[j] != s[k] {
      assert Before(l, s[j], s[k]);
    }
  }

  /** The replay order of asset `a`: every ledger entry of that asset exactly
      once, by ascending date, ties in ledger order. */
  function Order(l: seq<Transaction>, a: int): (r: seq<nat>)
    ensures forall k :: 0 <= k < |r| ==> r[k] < |l| && l[r[k]].assetId == a
    ensures forall k :: 0 <= k <= |r| ==> InRange(l, r[..k])
    ensures forall i :: 0 <= i < |l| && l[i].assetId == a ==> i in r
    ensures StablySorted(l, r)
    ensures Distinct(r)
  {
    var m := Matching(l, a);
    assert InRange(l, m);
    SortIsStablySorted(l, m);
    var r := SortByDate(l, m);
    StablySortedIsDistinct(l, r);
    assert forall k :: 0 <= k < |r| ==> r[k] in m;
    r
  }

  /** On a ledger already in date order, the replay order of an asset is its
      ledger order. */
  lemma OrderOfSortedLedger(l: seq<Transaction>, a: int)
    requires DatesSorted(l)
    ensures Order(l, a) == Matching(l, a)
  {
    SortOfSortedIsIdentity(l, Matching(l, a));
  }
}
