/** The portfolio summary: totals over the user's positions and transactions,
    and PnL analytics over trailing windows of 7, 30 and 365 days and over
    all time. The summary is computed from the two query results, a list of
    positions and a list of transactions, at a given moment `now`. */
module Analytics {
  import opened Models

  /** PnL over one period. */
  datatype PnLAnalytics = PnLAnalytics(
    period: string,
    totalPnl: real,
    totalPnlPercentage: real,
    realizedPnl: real,
    unrealizedPnl: real)

  /** The portfolio summary as returned to the client. */
  datatype PortfolioSummary = PortfolioSummary(
    totalInvested: real,
    currentValue: real,
    totalPnl: real,
    totalPnlPercentage: real,
    totalPositions: nat,
    totalTransactions: nat,
    pnl7d: PnLAnalytics,
    pnl30d: PnLAnalytics,
    pnl1y: PnLAnalytics,
    pnlAll: PnLAnalytics)

  // ---------------------------------------------------------------------
  // Sums
  // ---------------------------------------------------------------------

  /** The sum of `f` over the elements of `s`. */
  function Sum<T>(s: seq<T>, f: T -> real): real
    decreases |s|
  {
    if s == [] then 0.0 else f(s[0]) + Sum(s[1..], f)
  }

  /** A sum over a concatenation is the sum of the sums. */
  lemma {:induction false} SumAppend<T>(a: seq<T>, b: seq<T>, f: T -> real)
    ensures Sum(a + b, f) == Sum(a, f) + Sum(b, f)
    decreases |a|
  {
    if a != [] {
      assert (a + b)[0] == a[0];
      assert (a + b)[1..] == a[1..] + b;
      SumAppend(a[1..], b, f);
    } else {
      assert a + b == b;
    }
  }

  /** Taking one term out of a sum. */
  lemma SumRemove<T>(s: seq<T>, j: nat, f: T -> real)
    requires j < |s|
    ensures Sum(s, f) == f(s[j]) + Sum(s[..j] + s[j + 1..], f)
  {
    var pre, post := s[..j], s[j + 1..];
    var tail := [s[j]] + post;
    assert pre + tail == s;
    assert tail[0] == s[j] && tail[1..] == post;
    assert Sum(tail, f) == f(s[j]) + Sum(post, f);
    SumAppend(pre, tail, f);
    SumAppend(pre, post, f);
  }

  /** Taking one element out of a sequence takes it out of its multiset. */
  lemma MultisetRemove<T>(s: seq<T>, j: nat)
    requires j < |s|
    ensures multiset(s[..j] + s[j + 1..]) == multiset(s) - multiset{s[j]}
  {
    assert s == s[..j] + [s[j]] + s[j + 1..];
  }

  /** A sum does not depend on the order of its terms. */
  lemma {:induction false} SumOfPermutation<T>(a: seq<T>, b: seq<T>, f: T -> real)
    requires multiset(a) == multiset(b)
    ensures Sum(a, f) == Sum(b, f)
    decreases |a|
  {
    if a == [] {
      assert |b| == |multiset(b)| == 0;
    } else {
      var x := a[0];
      assert x in multiset(b);
      assert x in b;
      var j :| 0 <= j < |b| && b[j] == x;
      var a', b' := a[1..], b[..j] + b[j + 1..];
      MultisetRemove(a, 0);
      assert a[..0] + a[1..] == a';
      MultisetRemove(b, j);
      assert multiset(a') == multiset(b');
      SumOfPermutation(a', b', f);
      SumRemove(b, j, f);
      assert Sum(a, f) == f(x) + Sum(a', f);
    }
  }

  function InvestedOf(p: Position): real { p.totalInvested }
  function CurrentValueOf(p: Position): real { p.currentValue }
  function UnrealizedOf(p: Position): real { p.unrealizedPnl }

  /** What a transaction contributes to realized PnL: its realizedPnl when it
      is a SELL, nothing when it is a BUY. */
  function RealizedOf(t: Transaction): real {
    if t.transactionType == Sell then t.realizedPnl else 0.0
  }

  /** What a transaction contributes to capital put in: its total amount when
      it is a BUY, nothing when it is a SELL. */
  function BoughtOf(t: Transaction): real {
    if t.transactionType == Buy then t.totalAmount else 0.0
  }

  /** A percentage of `base`, taken as 0 unless the base is positive. */
  function Percentage(pnl: real, base: real): (r: real)
    ensures base > 0.0 ==> r * base == pnl * 100.0
    ensures base <= 0.0 ==> r == 0.0
    ensures base > 0.0 && pnl >= 0.0 ==> r >= 0.0
    ensures base > 0.0 && pnl < 0.0 ==> r < 0.0
  {
    if base > 0.0 then pnl / base * 100.0 else 0.0
  }

  // ---------------------------------------------------------------------
  // Windows
  // ---------------------------------------------------------------------

  const SecondsPerDay: int := 86400

  /** The first moment of the trailing window of `days` days ending at `now`. */
  function WindowStart(now: int, days: nat): (r: int)
    ensures r <= now
    ensures days > 0 ==> r < now
  {
    now - days * SecondsPerDay
  }

  /** The transactions dated at or after `start`, in their given order. */
  function Window(ts: seq<Transaction>, start: int): (r: seq<Transaction>)
    ensures forall t :: t in r <==> t in ts && t.transactionDate >= start
    ensures |r| <= |ts|
    decreases |ts|
  {
    if ts == [] then []
    else (if ts[0].transactionDate >= start then [ts[0]] else []) + Window(ts[1..], start)
  }

  /** Each transaction occurs in the window as often as in the list when it
      is dated at or after the start, and not at all otherwise. */
  lemma {:induction false} WindowCounts(ts: seq<Transaction>, start: int, t: Transaction)
    ensures multiset(Window(ts, start))[t] == if t.transactionDate >= start then multiset(ts)[t] else 0
    decreases |ts|
  {
    if ts != [] {
      WindowCounts(ts[1..], start, t);
      assert ts == [ts[0]] + ts[1..];
    }
  }

  /** The window of a reordered list is the reordered window. */
  lemma WindowOfPermutation(a: seq<Transaction>, b: seq<Transaction>, start: int)
    requires multiset(a) == multiset(b)
    ensures multiset(Window(a, start)) == multiset(Window(b, start))
  {
    forall t ensures multiset(Window(a, start))[t] == multiset(Window(b, start))[t] {
      WindowCounts(a, start, t);
      WindowCounts(b, start, t);
    }
  }

  /** Narrowing a window to a later start is the window from that start. */
  lemma {:induction false} WindowsNest(ts: seq<Transaction>, early: int, late: int)
    requires early <= late
    ensures Window(Window(ts, early), late) == Window(ts, late)
    decreases |ts|
  {
    if ts != [] {
      WindowsNest(ts[1..], early, late);
      var head := if ts[0].transactionDate >= early then [ts[0]] else [];
      SplitWindow(head, Window(ts[1..], early), late);
    }
  }

  /** The window of a concatenation is the concatenation of the windows. */
  lemma {:induction false} SplitWindow(a: seq<Transaction>, b: seq<Transaction>, start: int)
    ensures Window(a + b, start) == Window(a, start) + Window(b, start)
    decreases |a|
  {
    if a != [] {
      assert (a + b)[0] == a[0];
      assert (a + b)[1..] == a[1..] + b;
      SplitWindow(a[1..], b, start);
    } else {
      assert a + b == b;
    }
  }

  /** A window that starts no later than every transaction keeps them all. */
  lemma {:induction false} FullWindow(ts: seq<Transaction>, start: int)
    requires forall k :: 0 <= k < |ts| ==> ts[k].transactionDate >= start
    ensures Window(ts, start) == ts
    decreases |ts|
  {
    if ts != [] {
      assert forall k :: 0 <= k < |ts| - 1 ==> ts[1..][k] == ts[k + 1];
      FullWindow(ts[1..], start);
    }
  }

  /** With well-formed transactions, a window starting earlier has put in at
      least as much capital. */
  lemma {:induction false} BoughtGrowsWithWindow(ts: seq<Transaction>, early: int, late: int)
    requires early <= late
    requires forall k :: 0 <= k < |ts| ==> ts[k].totalAmount >= 0.0
    ensures Sum(Window(ts, late), BoughtOf) <= Sum(Window(ts, early), BoughtOf)
    decreases |ts|
  {
    if ts != [] {
      var t, rest := ts[0], ts[1..];
      assert forall k :: 0 <= k < |rest| ==> rest[k] == ts[k + 1];
      BoughtGrowsWithWindow(rest, early, late);
      SumOfWindowCons(t, rest, late);
      SumOfWindowCons(t, rest, early);
      assert ts == [t] + rest;
    }
  }

  /** The BUY capital of the window of a list with a first element. */
  lemma SumOfWindowCons(t: Transaction, rest: seq<Transaction>, start: int)
    ensures Sum(Window([t] + rest, start), BoughtOf)
         == (if t.transactionDate >= start then BoughtOf(t) else 0.0) + Sum(Window(rest, start), BoughtOf)
  {
    var ts := [t] + rest;
    assert ts[0] == t && ts[1..] == rest;
    var head := if t.transactionDate >= start then [t] else [];
    SumAppend(head, Window(rest, start), BoughtOf);
    assert Sum([t], BoughtOf) == BoughtOf(t) + Sum([t][1..], BoughtOf);
  }

  // ---------------------------------------------------------------------
  // Period labels
  // ---------------------------------------------------------------------

  /** The decimal digit character for `d`. */
  function DigitChar(d: nat): (c: char)
    requires d < 10
    ensures '0' <= c <= '9' && (c as int) - ('0' as int) == d
  {
    "0123456789"[d]
  }

  /** The decimal representation of `n`, as Python's f-string writes it. */
  function NatToString(n: nat): (s: string)
    ensures |s| >= 1
    ensures forall k :: 0 <= k < |s| ==> '0' <= s[k] <= '9'
    ensures s[0] == '0' ==> n == 0
    decreases n
  {
    if n < 10 then [DigitChar(n)] else NatToString(n / 10) + [DigitChar(n % 10)]
  }

  /** The number a string of decimal digits denotes. */
  function DigitsValue(s: string): (n: nat)
    requires forall k :: 0 <= k < |s| ==> '0' <= s[k] <= '9'
    decreases |s|
  {
    if s == [] then 0
    else DigitsValue(s[..|s| - 1]) * 10 + ((s[|s| - 1] as int) - ('0' as int))
  }

  /** Reading back the decimal representation gives the number. */
  lemma {:induction false} NatToStringRoundTrip(n: nat)
    ensures DigitsValue(NatToString(n)) == n
    decreases n
  {
    if n >= 10 {
      NatToStringRoundTrip(n / 10);
      var s := NatToString(n);
      assert s[..|s| - 1] == NatToString(n / 10);
    }
  }

  /** The label of a trailing window of `days` days: the number followed by "d". */
  function PeriodLabel(days: nat): (r: string)
    ensures |r| >= 2 && r[|r| - 1] == 'd'
    ensures forall k :: 0 <= k < |r| - 1 ==> '0' <= r[k] <= '9'
    ensures DigitsValue(r[..|r| - 1]) == days
  {
    NatToStringRoundTrip(days);
    var r := NatToString(days) + "d";
    assert r[..|r| - 1] == NatToString(days);
    r
  }

  // ---------------------------------------------------------------------
  // The summary
  // ---------------------------------------------------------------------

  /** PnL over the trailing window of `days` days: the window's SELL realized
      PnL plus the whole portfolio's unrealized PnL, as a percentage of what
      the window's BUYs put in. */
  function PeriodPnl(ts: seq<Transaction>, unrealized: real, now: int, days: nat): (r: PnLAnalytics)
    ensures r.period == PeriodLabel(days)
    ensures r.totalPnl == r.realizedPnl + r.unrealizedPnl
    ensures r.unrealizedPnl == unrealized
    ensures r.realizedPnl == Sum(Window(ts, WindowStart(now, days)), RealizedOf)
    ensures r.totalPnlPercentage == Percentage(r.totalPnl, Sum(Window(ts, WindowStart(now, days)), BoughtOf))
  {
    var window := Window(ts, WindowStart(now, days));
    var realized := Sum(window, RealizedOf);
    var total := realized + unrealized;
    PnLAnalytics(PeriodLabel(days), total, Percentage(total, Sum(window, BoughtOf)), realized, unrealized)
  }

  /** The summary of the positions `ps` and transactions `ts` at `now`. */
  function Summary(ps: seq<Position>, ts: seq<Transaction>, now: int): (r: PortfolioSummary)
    // Totals over the positions, realized PnL over the SELLs.
    ensures r.totalInvested == Sum(ps, InvestedOf)
    ensures r.currentValue == Sum(ps, CurrentValueOf)
    ensures r.pnlAll.unrealizedPnl == Sum(ps, UnrealizedOf)
    ensures r.pnlAll.realizedPnl == Sum(ts, RealizedOf)
    ensures r.totalPnl == r.pnlAll.realizedPnl + r.pnlAll.unrealizedPnl
    ensures r.totalPnlPercentage == Percentage(r.totalPnl, r.totalInvested)
    ensures r.totalPositions == |ps| && r.totalTransactions == |ts|
    // The all-time figures are the overall totals.
    ensures r.pnlAll.period == "all"
    ensures r.pnlAll.totalPnl == r.totalPnl && r.pnlAll.totalPnlPercentage == r.totalPnlPercentage
    // The trailing windows, each reusing the whole portfolio's unrealized PnL.
    ensures r.pnl7d == PeriodPnl(ts, r.pnlAll.unrealizedPnl, now, 7)
    ensures r.pnl30d == PeriodPnl(ts, r.pnlAll.unrealizedPnl, now, 30)
    ensures r.pnl1y == PeriodPnl(ts, r.pnlAll.unrealizedPnl, now, 365)
  {
    var totalInvested := Sum(ps, InvestedOf);
    var unrealized := Sum(ps, UnrealizedOf);
    var realized := Sum(ts, RealizedOf);
    var totalPnl := realized + unrealized;
    var percentage := Percentage(totalPnl, totalInvested);
    PortfolioSummary(
      totalInvested, Sum(ps, CurrentValueOf), totalPnl, percentage, |ps|, |ts|,
      PeriodPnl(ts, unrealized, now, 7),
      PeriodPnl(ts, unrealized, now, 30),
      PeriodPnl(ts, unrealized, now, 365),
      PnLAnalytics("all", totalPnl, percentage, realized, unrealized))
  }

  /** Nothing to summarise gives zeros everywhere. */
  lemma EmptySummary(now: int)
    ensures var r := Summary([], [], now);
            && r.totalInvested == 0.0 && r.currentValue == 0.0
            && r.totalPnl == 0.0 && r.totalPnlPercentage == 0.0
            && r.totalPositions == 0 && r.totalTransactions == 0
            && r.pnl7d.totalPnl == 0.0 && r.pnl30d.totalPnl == 0.0 && r.pnl1y.totalPnl == 0.0
            && r.pnl7d.totalPnlPercentage == 0.0 && r.pnl30d.totalPnlPercentage == 0.0
            && r.pnl1y.totalPnlPercentage == 0.0
            && r.pnl7d.realizedPnl == 0.0 && r.pnl30d.realizedPnl == 0.0 && r.pnl1y.realizedPnl == 0.0
            && r.pnl7d.unrealizedPnl == 0.0 && r.pnl30d.unrealizedPnl == 0.0 && r.pnl1y.unrealizedPnl == 0.0
            && r.pnlAll.period == "all"
            && r.pnlAll.totalPnl == 0.0 && r.pnlAll.totalPnlPercentage == 0.0
            && r.pnlAll.realizedPnl == 0.0 && r.pnlAll.unrealizedPnl == 0.0
  {
  }

  /** The windows' labels are "7d", "30d" and "365d". */
  lemma SummaryLabels(ps: seq<Position>, ts: seq<Transaction>, now: int)
    ensures Summary(ps, ts, now).pnl7d.period == "7d"
    ensures Summary(ps, ts, now).pnl30d.period == "30d"
    ensures Summary(ps, ts, now).pnl1y.period == "365d"
  {
    assert NatToString(30) == NatToString(3) + [DigitChar(0)];
    assert NatToString(365) == NatToString(36) + [DigitChar(5)];
    assert NatToString(36) == NatToString(3) + [DigitChar(6)];
  }

  /** The summary does not depend on the order in which the queries return
      positions and transactions. */
  lemma SummaryIgnoresOrder(ps: seq<Position>, qs: seq<Position>,
                            ts: seq<Transaction>, us: seq<Transaction>, now: int)
    requires multiset(ps) == multiset(qs) && multiset(ts) == multiset(us)
    ensures Summary(ps, ts, now) == Summary(qs, us, now)
  {
    assert |ps| == |multiset(ps)| == |qs|;
    assert |ts| == |multiset(ts)| == |us|;
    SumOfPermutation(ps, qs, InvestedOf);
    SumOfPermutation(ps, qs, CurrentValueOf);
    SumOfPermutation(ps, qs, UnrealizedOf);
    SumOfPermutation(ts, us, RealizedOf);
    PeriodIgnoresOrder(ts, us, Sum(ps, UnrealizedOf), now, 7);
    PeriodIgnoresOrder(ts, us, Sum(ps, UnrealizedOf), now, 30);
    PeriodIgnoresOrder(ts, us, Sum(ps, UnrealizedOf), now, 365);
  }

  /** A period's PnL does not depend on the order of the transactions. */
  lemma PeriodIgnoresOrder(ts: seq<Transaction>, us: seq<Transaction>, unrealized: real, now: int, days: nat)
    requires multiset(ts) == multiset(us)
    ensures PeriodPnl(ts, unrealized, now, days) == PeriodPnl(us, unrealized, now, days)
  {
    var start := WindowStart(now, days);
    WindowOfPermutation(ts, us, start);
    SumOfPermutation(Window(ts, start), Window(us, start), RealizedOf);
    SumOfPermutation(Window(ts, start), Window(us, start), BoughtOf);
  }

  /** The windows nest: the 7-day window is the 30-day window narrowed to 7
      days, which is the 365-day window narrowed to 30 days; each window's
      transactions are among the next wider one's. */
  lemma PeriodsNest(ts: seq<Transaction>, now: int)
    ensures Window(Window(ts, WindowStart(now, 30)), WindowStart(now, 7)) == Window(ts, WindowStart(now, 7))
    ensures Window(Window(ts, WindowStart(now, 365)), WindowStart(now, 30)) == Window(ts, WindowStart(now, 30))
    ensures forall t :: t in Window(ts, WindowStart(now, 7)) ==> t in Window(ts, WindowStart(now, 30))
    ensures forall t :: t in Window(ts, WindowStart(now, 30)) ==> t in Window(ts, WindowStart(now, 365))
  {
    WindowsNest(ts, WindowStart(now, 30), WindowStart(now, 7));
    WindowsNest(ts, WindowStart(now, 365), WindowStart(now, 30));
  }

  /** A well-formed transaction's amount is positive. */
  lemma AmountNonNegative(t: Transaction)
    requires WellFormed(t)
    ensures t.totalAmount >= 0.0
  {
    assert t.quantity * t.price > 0.0;
  }

  /** A moment no later than `bound` and no later than any transaction. */
  function EarliestFrom(ts: seq<Transaction>, bound: int): (r: int)
    ensures r <= bound
    ensures forall k :: 0 <= k < |ts| ==> ts[k].transactionDate >= r
    decreases |ts|
  {
    if ts == [] then bound
    else
      var rest := EarliestFrom(ts[1..], bound);
      assert forall k :: 1 <= k < |ts| ==> ts[k] == ts[1..][k - 1];
      if ts[0].transactionDate < rest then ts[0].transactionDate else rest
  }

  /** With well-formed transactions, the capital put in grows with the
      window: 7 days, then 30, then 365, then all time. */
  lemma PeriodBoughtGrows(ts: seq<Transaction>, now: int)
    requires forall k :: 0 <= k < |ts| ==> WellFormed(ts[k])
    ensures Sum(Window(ts, WindowStart(now, 7)), BoughtOf) <= Sum(Window(ts, WindowStart(now, 30)), BoughtOf)
    ensures Sum(Window(ts, WindowStart(now, 30)), BoughtOf) <= Sum(Window(ts, WindowStart(now, 365)), BoughtOf)
    ensures Sum(Window(ts, WindowStart(now, 365)), BoughtOf) <= Sum(ts, BoughtOf)
  {
    forall k | 0 <= k < |ts| ensures ts[k].totalAmount >= 0.0 {
      AmountNonNegative(ts[k]);
    }
    BoughtGrowsWithWindow(ts, WindowStart(now, 30), WindowStart(now, 7));
    BoughtGrowsWithWindow(ts, WindowStart(now, 365), WindowStart(now, 30));
    var earliest := WindowStart(now, 365);
    var everything := EarliestFrom(ts, earliest);
    FullWindow(ts, everything);
    BoughtGrowsWithWindow(ts, everything, earliest);
  }

  /** When every transaction falls within the last `days` days, the window's
      PnL is the all-time PnL, up to the percentage, whose base is what the
      BUYs put in rather than what the positions hold. */
  lemma RecentHistoryWindowIsAll(ps: seq<Position>, ts: seq<Transaction>, now: int, days: nat)
    requires forall k :: 0 <= k < |ts| ==> ts[k].transactionDate >= WindowStart(now, days)
    ensures PeriodPnl(ts, Sum(ps, UnrealizedOf), now, days).realizedPnl == Sum(ts, RealizedOf)
    ensures PeriodPnl(ts, Sum(ps, UnrealizedOf), now, days).totalPnl == Sum(ts, RealizedOf) + Sum(ps, UnrealizedOf)
  {
    FullWindow(ts, WindowStart(now, days));
  }
}
