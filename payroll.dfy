/** The payroll test of the scorer (backend/services/scoring.py:168-207):
    an account with at least 10 transactions over at least 3 calendar
    months whose monthly counts vary little is taken for a payroll. */
module Payroll {
  import opened Common
  import opened Transactions

  const MinPayrollTransactions: nat := 10
  const MinPayrollMonths: nat := 3

  /** `account_txs`: the transactions `a` sends or receives, each once. */
  function Involved(txs: seq<Transaction>, a: string): seq<Transaction> {
    if txs == [] then []
    else
      var t := txs[|txs| - 1];
      Involved(txs[..|txs| - 1], a) + (if t.sender == a || t.receiver == a then [t] else [])
  }

  /** `tx.timestamp.strftime('%Y-%m')`, as the pair it renders. */
  function MonthOf(t: Transaction): (int, int) {
    (t.time.year, t.time.month)
  }

  /** The keys of `monthly_counts`, in first-appearance order. */
  function Months(s: seq<Transaction>): (r: seq<(int, int)>)
    ensures Distinct(r) && Elems(r) == set t | t in s :: MonthOf(t)
  {
    if s == [] then []
    else
      var pre := s[..|s| - 1];
      var k := MonthOf(s[|s| - 1]);
      assert s == pre + [s[|s| - 1]];
      assert (set t | t in s :: MonthOf(t)) == (set t | t in pre :: MonthOf(t)) + {k};
      Months(pre) + (if k in Months(pre) then [] else [k])
  }

  /** `monthly_counts[k]`. */
  function CountIn(s: seq<Transaction>, k: (int, int)): nat {
    if s == [] then 0 else CountIn(s[..|s| - 1], k) + (if MonthOf(s[|s| - 1]) == k then 1 else 0)
  }

  /** `list(monthly_counts.values())`. */
  function Counts(s: seq<Transaction>): (cs: seq<nat>)
    ensures |cs| == |Months(s)|
  {
    var ks := Months(s);
    seq(|ks|, i requires 0 <= i < |ks| => CountIn(s, ks[i]))
  }

  function Sum(cs: seq<nat>): nat {
    if cs == [] then 0 else Sum(cs[..|cs| - 1]) + cs[|cs| - 1]
  }

  function SumSq(cs: seq<nat>): nat {
    if cs == [] then 0 else SumSq(cs[..|cs| - 1]) + cs[|cs| - 1] * cs[|cs| - 1]
  }

  /** The coefficient of variation of `cs` is below 0.3, cross-multiplied
      into integers (see `PayrollFacts.CoefficientOfVariation`). */
  predicate Regular(cs: seq<nat>) {
    var n := |cs|;
    var s := Sum(cs);
    100 * (n * SumSq(cs) - s * s) < 9 * s * s
  }

  /** `_is_payroll_pattern(a, transactions)`. */
  predicate IsPayroll(txs: seq<Transaction>, a: string) {
    var inv := Involved(txs, a);
    var cs := Counts(inv);
    |inv| >= MinPayrollTransactions && |cs| >= MinPayrollMonths && Sum(cs) > 0 && Regular(cs)
  }

  /** The month table over the transactions seen so far. */
  ghost predicate MonthIndex(keys: seq<(int, int)>, counts: map<(int, int), nat>, s: seq<Transaction>) {
    keys == Months(s) && counts.Keys == Elems(keys) && forall k :: k in counts ==> counts[k] == CountIn(s, k)
  }

  lemma {:induction false} CountAbsent(s: seq<Transaction>, k: (int, int))
    requires k !in Months(s)
    ensures CountIn(s, k) == 0
  {
    if s != [] {
      var pre := s[..|s| - 1];
      CountAbsent(pre, k);
    }
  }

  /** A transaction in a month already counted bumps that month's count. */
  lemma MonthSeen(keys: seq<(int, int)>, counts: map<(int, int), nat>, s: seq<Transaction>, t: Transaction)
    requires MonthIndex(keys, counts, s) && MonthOf(t) in counts
    ensures MonthIndex(keys, counts[MonthOf(t) := counts[MonthOf(t)] + 1], s + [t])
  {
    var s' := s + [t];
    assert s'[..|s|] == s;
    var k := MonthOf(t);
    assert k in Elems(Months(s));
    assert Months(s') == keys;
    var counts' := counts[k := counts[k] + 1];
    forall j | j in counts' ensures counts'[j] == CountIn(s', j) {
      assert CountIn(s', j) == CountIn(s, j) + (if k == j then 1 else 0);
    }
  }

  /** A transaction in a new month appends that month with count 1. */
  lemma MonthNew(keys: seq<(int, int)>, counts: map<(int, int), nat>, s: seq<Transaction>, t: Transaction)
    requires MonthIndex(keys, counts, s) && MonthOf(t) !in counts
    ensures MonthIndex(keys + [MonthOf(t)], counts[MonthOf(t) := 1], s + [t])
  {
    var s' := s + [t];
    assert s'[..|s|] == s;
    var k := MonthOf(t);
    assert k !in Elems(Months(s));
    assert Months(s') == keys + [k];
    CountAbsent(s, k);
    var counts' := counts[k := 1];
    forall j | j in counts' ensures counts'[j] == CountIn(s', j) {
      assert CountIn(s', j) == CountIn(s, j) + (if k == j then 1 else 0);
    }
    assert counts'.Keys == Elems(keys + [k]);
  }

  /** One iteration of the counting loop. */
  method AddMonth(keys0: seq<(int, int)>, counts0: map<(int, int), nat>, ghost s: seq<Transaction>, t: Transaction)
    returns (keys: seq<(int, int)>, counts: map<(int, int), nat>)
    requires MonthIndex(keys0, counts0, s)
    ensures MonthIndex(keys, counts, s + [t])
  {
    var k := MonthOf(t);
    if k in counts0 {
      MonthSeen(keys0, counts0, s, t);
      keys, counts := keys0, counts0[k := counts0[k] + 1];
    } else {
      MonthNew(keys0, counts0, s, t);
      keys, counts := keys0 + [k], counts0[k := 1];
    }
  }

  /** The counting loop (scoring.py:186-189). */
  method CountMonths(s: seq<Transaction>) returns (keys: seq<(int, int)>, counts: map<(int, int), nat>)
    ensures MonthIndex(keys, counts, s)
  {
    keys := [];
    counts := map[];
    for i := 0 to |s|
      invariant MonthIndex(keys, counts, s[..i])
    {
      assert s[..i] + [s[i]] == s[..i + 1];
      keys, counts := AddMonth(keys, counts, s[..i], s[i]);
    }
    assert s[..|s|] == s;
  }

  /** The sums over `monthly_counts.values()` (scoring.py:195-202). */
  method SumCounts(s: seq<Transaction>, keys: seq<(int, int)>, counts: map<(int, int), nat>) returns (total: nat, squares: nat)
    requires MonthIndex(keys, counts, s)
    ensures total == Sum(Counts(s)) && squares == SumSq(Counts(s))
  {
    ghost var cs := Counts(s);
    total, squares := 0, 0;
    for j := 0 to |keys|
      invariant total == Sum(cs[..j]) && squares == SumSq(cs[..j])
    {
      assert cs[..j + 1][..j] == cs[..j];
      assert keys[j] in counts;
      var c := counts[keys[j]];
      total := total + c;
      squares := squares + c * c;
    }
    assert cs[..|keys|] == cs;
  }

  /** `_is_payroll_pattern`. */
  method IsPayrollPattern(a: string, txs: seq<Transaction>) returns (payroll: bool)
    ensures payroll == IsPayroll(txs, a)
  {
    var accountTxs: seq<Transaction> := [];
    for i := 0 to |txs|
      invariant accountTxs == Involved(txs[..i], a)
    {
      assert txs[..i + 1][..i] == txs[..i];
      if txs[i].sender == a || txs[i].receiver == a {
        accountTxs := accountTxs + [txs[i]];
      }
    }
    assert txs[..|txs|] == txs;
    if |accountTxs| < MinPayrollTransactions {
      return false;
    }
    var keys, counts := CountMonths(accountTxs);
    if |keys| < MinPayrollMonths {
      return false;
    }
    var total, squares := SumCounts(accountTxs, keys, counts);
    if total == 0 {
      return false;
    }
    var n := |keys|;
    payroll := 100 * (n * squares - total * total) < 9 * total * total;
  }
}

/** The integer test is the source's coefficient of variation. */
module PayrollFacts {
  import opened Common
  import opened Transactions
  import opened Payroll

  /** `sum((c - avg) ** 2 for c in counts)` on exact reals. */
  function SquaredDeviation(cs: seq<nat>, avg: real): real {
    if cs == [] then 0.0
    else
      var d := cs[|cs| - 1] as real - avg;
      SquaredDeviation(cs[..|cs| - 1], avg) + d * d
  }

  lemma {:induction false} SquaredDeviationExpands(cs: seq<nat>, k: real)
    ensures SquaredDeviation(cs, k) == SumSq(cs) as real - 2.0 * k * Sum(cs) as real + (|cs| as real) * k * k
  {
    if cs != [] {
      var pre := cs[..|cs| - 1];
      var c := cs[|cs| - 1] as real;
      SquaredDeviationExpands(pre, k);
      assert (c - k) * (c - k) == c * c - 2.0 * k * c + k * k;
      assert (cs[|cs| - 1] * cs[|cs| - 1]) as real == c * c;
    }
  }

  lemma MultiplyNonNegative(a: real, b: real)
    requires a >= 0.0 && b >= 0.0
    ensures a * b >= 0.0
  {
  }

  lemma MultiplyPositive(a: real, b: real)
    requires a > 0.0 && b > 0.0
    ensures a * b > 0.0
  {
  }

  lemma MultiplyKeepsOrder(a: real, b: real, c: real)
    requires c > 0.0
    ensures a < b <==> a * c < b * c
  {
    if a < b {
      assert (b - a) * c > 0.0;
    } else {
      assert (a - b) * c >= 0.0;
    }
  }

  /** Squaring keeps the order of non-negative reals. */
  lemma SquareKeepsOrder(a: real, b: real)
    requires a >= 0.0 && b >= 0.0
    ensures a < b <==> a * a < b * b
  {
    if a < b {
      MultiplyNonNegative(a, b - a);
      MultiplyPositive(b, b - a);
      assert b * b - a * b == b * (b - a);
      assert a * b - a * a == a * (b - a);
    } else {
      MultiplyNonNegative(b, a - b);
      MultiplyNonNegative(a, a - b);
      assert a * a - a * b == a * (a - b);
      assert a * b - b * b == b * (a - b);
    }
  }

  /** `std_dev / avg_count < 0.3`, with `avg_count = s / n`, the squared
      deviations expanded to `q - 2ks + nk^2` and the root squared away,
      is the integer test. */
  lemma CoefficientAlgebra(n: real, s: real, q: real, avg: real, dev: real, v: real, sd: real)
    requires n > 0.0 && s > 0.0 && avg == s / n
    requires dev == q - 2.0 * avg * s + n * avg * avg && v == dev / n
    requires sd >= 0.0 && sd * sd == v
    ensures sd / avg < 0.3 <==> 100.0 * (n * q - s * s) < 9.0 * s * s
  {
    assert avg * n == s;
    assert n * avg * avg == avg * s;
    assert v * n == q - avg * s;
    assert v * n * n == n * q - s * s;
    assert avg > 0.0;
    var x := 0.3 * avg;
    MultiplyKeepsOrder(sd / avg, 0.3, avg);
    assert sd / avg * avg == sd;
    SquareKeepsOrder(sd, x);
    MultiplyPositive(n, n);
    MultiplyKeepsOrder(sd * sd, x * x, n * n);
    assert sd * sd * (n * n) == n * q - s * s;
    assert x * x * (n * n) == 0.09 * (avg * n) * (avg * n);
  }

  /** The integer test read on reals. */
  lemma RegularOnReals(cs: seq<nat>)
    ensures Regular(cs) <==> 100.0 * ((|cs| as real) * (SumSq(cs) as real) - (Sum(cs) as real) * (Sum(cs) as real)) < 9.0 * (Sum(cs) as real) * (Sum(cs) as real)
  {
    CastProducts(|cs|, SumSq(cs), Sum(cs));
  }

  lemma CastProducts(n: int, q: int, s: int)
    ensures (100 * (n * q - s * s)) as real == 100.0 * ((n as real) * (q as real) - (s as real) * (s as real))
    ensures (9 * s * s) as real == 9.0 * (s as real) * (s as real)
  {
  }

  /** For the mean `avg` of the counts, their population variance
      `variance` and its non-negative root `sd`, the source's test
      `sd / avg < 0.3` is the integer test `Regular`. */
  lemma CoefficientOfVariation(cs: seq<nat>, avg: real, variance: real, sd: real)
    requires |cs| > 0 && Sum(cs) > 0
    requires avg == Sum(cs) as real / |cs| as real
    requires variance == SquaredDeviation(cs, avg) / |cs| as real
    requires sd >= 0.0 && sd * sd == variance
    ensures sd / avg < 0.3 <==> Regular(cs)
  {
    CoefficientOnReals(cs, avg, variance, sd);
    RegularOnReals(cs);
  }

  lemma CoefficientOnReals(cs: seq<nat>, avg: real, variance: real, sd: real)
    requires |cs| > 0 && Sum(cs) > 0
    requires avg == Sum(cs) as real / |cs| as real
    requires variance == SquaredDeviation(cs, avg) / |cs| as real
    requires sd >= 0.0 && sd * sd == variance
    ensures sd / avg < 0.3 ==> 100.0 * ((|cs| as real) * (SumSq(cs) as real) - (Sum(cs) as real) * (Sum(cs) as real)) < 9.0 * (Sum(cs) as real) * (Sum(cs) as real)
    ensures 100.0 * ((|cs| as real) * (SumSq(cs) as real) - (Sum(cs) as real) * (Sum(cs) as real)) < 9.0 * (Sum(cs) as real) * (Sum(cs) as real) ==> sd / avg < 0.3
  {
    SquaredDeviationExpands(cs, avg);
    CoefficientAlgebra(|cs| as real, Sum(cs) as real, SumSq(cs) as real, avg, SquaredDeviation(cs, avg), variance, sd);
  }

  /** The month counts split the involved transactions. */
  lemma {:induction false} CountsPartition(s: seq<Transaction>)
    ensures Sum(Counts(s)) == |s|
  {
    if s != [] {
      var pre := s[..|s| - 1];
      var t := s[|s| - 1];
      CountsPartition(pre);
      var k := MonthOf(t);
      var cs := Counts(s);
      var ps := Counts(pre);
      var ks := Months(pre);
      assert forall i :: 0 <= i < |ks| ==> Months(s)[i] == ks[i];
      if k in ks {
        var j :| 0 <= j < |ks| && ks[j] == k;
        assert |cs| == |ps|;
        SumBump(ps, cs, j);
      } else {
        CountAbsent(pre, k);
        assert cs[..|ps|] == ps;
        assert cs[|ps|] == 1;
      }
    }
  }

  /** Raising one entry by one raises the sum by one. */
  lemma {:induction false} SumBump(ps: seq<nat>, cs: seq<nat>, j: nat)
    requires |ps| == |cs| && j < |cs|
    requires cs[j] == ps[j] + 1 && forall i :: 0 <= i < |cs| && i != j ==> cs[i] == ps[i]
    ensures Sum(cs) == Sum(ps) + 1
  {
    var n := |cs| - 1;
    if j == n {
      assert cs[..n] == ps[..n];
    } else {
      SumBump(ps[..n], cs[..n], j);
    }
  }
}
