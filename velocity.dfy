/** The high-velocity test of the scorer
    (backend/services/scoring.py:132-165). */
module Velocity {
  import opened Common
  import opened Transactions
  import opened Graph
  import opened Smurfing
  import opened Weights

  const HighVelocityThreshold: nat := 50
  const SecondsPerDay: nat := 86400

  /** `account_tx_map[a]`: each transaction is appended once for its
      sender and once for its receiver, so a self-loop is pooled twice. */
  function Pooled(txs: seq<Transaction>, a: string): seq<Transaction> {
    if txs == [] then []
    else
      var t := txs[|txs| - 1];
      Pooled(txs[..|txs| - 1], a) + (if t.sender == a then [t] else []) + (if t.receiver == a then [t] else [])
  }

  function MinTime(s: seq<Transaction>): (r: int)
    requires s != []
    ensures (exists i :: 0 <= i < |s| && s[i].time.seconds == r) && forall i :: 0 <= i < |s| ==> r <= s[i].time.seconds
  {
    if |s| == 1 then s[0].time.seconds
    else
      var m := MinTime(s[..|s| - 1]);
      assert forall i :: 0 <= i < |s| - 1 ==> s[..|s| - 1][i] == s[i];
      if s[|s| - 1].time.seconds < m then s[|s| - 1].time.seconds else m
  }

  function MaxTime(s: seq<Transaction>): (r: int)
    requires s != []
    ensures (exists i :: 0 <= i < |s| && s[i].time.seconds == r) && forall i :: 0 <= i < |s| ==> s[i].time.seconds <= r
  {
    if |s| == 1 then s[0].time.seconds
    else
      var m := MaxTime(s[..|s| - 1]);
      assert forall i :: 0 <= i < |s| - 1 ==> s[..|s| - 1][i] == s[i];
      if s[|s| - 1].time.seconds > m then s[|s| - 1].time.seconds else m
  }

  /** At least 50 transactions per day over a span of `span` seconds,
      cross-multiplied; an empty span counts as one day. */
  predicate HighRate(count: nat, span: int) {
    span == 0 || count * SecondsPerDay >= HighVelocityThreshold * span
  }

  /** An account is flagged when it pools at least 50 transactions at a
      rate of at least 50 a day between its earliest and latest. */
  predicate HighVelocity(txs: seq<Transaction>, a: string) {
    var p := Pooled(txs, a);
    |p| >= HighVelocityThreshold && HighRate(|p|, MaxTime(p) - MinTime(p))
  }

  /** The dict `_calculate_velocity_scores` returns, over the accounts in
      `done`. */
  function VelocitySpec(txs: seq<Transaction>, done: set<string>): map<string, nat> {
    map a | a in done && HighVelocity(txs, a) :: ScoreHighVelocity
  }

  /** `time_span` in days, one day when it is zero. */
  function Days(span: int): real {
    if span == 0 then 1.0 else span as real / SecondsPerDay as real
  }

  /** `len(tx_list) / time_span >= 50` on exact reals is the
      cross-multiplied test. */
  lemma RateIsDivision(count: nat, span: int)
    requires count >= HighVelocityThreshold && span >= 0
    ensures (count as real) / Days(span) >= HighVelocityThreshold as real <==> HighRate(count, span)
  {
    if span > 0 {
      var d := span as real / 86400.0;
      assert d > 0.0;
      assert (count as real) / d >= 50.0 <==> count as real >= 50.0 * d;
      assert 50.0 * d == (50 * span) as real / 86400.0;
      assert count as real >= (50 * span) as real / 86400.0 <==> (count * 86400) as real >= (50 * span) as real;
    }
  }

  /** A sorted permutation starts at the earliest time. */
  lemma SortedFirst(s: seq<Transaction>, r: seq<Transaction>)
    requires s != [] && multiset(r) == multiset(s) && SortedBy(r, TimeLe)
    ensures r != [] && r[0].time.seconds == MinTime(s)
  {
    var lo :| 0 <= lo < |s| && s[lo].time.seconds == MinTime(s);
    assert s[lo] in multiset(r);
    var k :| 0 <= k < |r| && r[k] == s[lo];
    assert r[0].time.seconds <= r[k].time.seconds by {
      if k > 0 {
        assert TimeLe(r[0], r[k]);
      }
    }
    assert r[0] in multiset(s);
    var j :| 0 <= j < |s| && s[j] == r[0];
  }

  /** A sorted permutation ends at the latest time. */
  lemma SortedLast(s: seq<Transaction>, r: seq<Transaction>)
    requires s != [] && multiset(r) == multiset(s) && SortedBy(r, TimeLe)
    ensures r != [] && r[|r| - 1].time.seconds == MaxTime(s)
  {
    var hi :| 0 <= hi < |s| && s[hi].time.seconds == MaxTime(s);
    assert s[hi] in multiset(r);
    var k :| 0 <= k < |r| && r[k] == s[hi];
    var n := |r| - 1;
    assert r[k].time.seconds <= r[n].time.seconds by {
      if k < n {
        assert TimeLe(r[k], r[n]);
      }
    }
    assert r[n] in multiset(s);
    var j :| 0 <= j < |s| && s[j] == r[n];
  }

  lemma {:induction false} PooledEmpty(txs: seq<Transaction>, a: string)
    requires a !in Accounts(txs)
    ensures Pooled(txs, a) == []
  {
    if txs != [] {
      var pre := txs[..|txs| - 1];
      assert forall t :: t in pre ==> t in txs;
      PooledEmpty(pre, a);
    }
  }

  /** `account_tx_map` over the transactions seen so far. */
  ghost predicate PoolIndex(m: map<string, seq<Transaction>>, txs: seq<Transaction>) {
    m.Keys == Accounts(txs) && forall a :: a in m ==> m[a] == Pooled(txs, a)
  }

  function Push(m: map<string, seq<Transaction>>, a: string, t: Transaction): map<string, seq<Transaction>> {
    m[a := (if a in m then m[a] else []) + [t]]
  }

  lemma PushStep(m: map<string, seq<Transaction>>, txs: seq<Transaction>, t: Transaction)
    requires PoolIndex(m, txs)
    ensures PoolIndex(Push(Push(m, t.sender, t), t.receiver, t), txs + [t])
  {
    var txs' := txs + [t];
    assert txs'[..|txs|] == txs;
    assert Accounts(txs') == Accounts(txs) + {t.sender, t.receiver};
    var m' := Push(Push(m, t.sender, t), t.receiver, t);
    forall a | a in m' ensures m'[a] == Pooled(txs', a) {
      if a !in m {
        PooledEmpty(txs, a);
      }
    }
  }

  lemma VelocityStep(txs: seq<Transaction>, done: set<string>, a: string)
    requires a !in done
    ensures VelocitySpec(txs, done + {a}) ==
      if HighVelocity(txs, a) then VelocitySpec(txs, done)[a := ScoreHighVelocity] else VelocitySpec(txs, done)
  {
    var lhs := VelocitySpec(txs, done + {a});
    var rhs := if HighVelocity(txs, a) then VelocitySpec(txs, done)[a := ScoreHighVelocity] else VelocitySpec(txs, done);
    forall b ensures (b in lhs <==> b in rhs) && (b in lhs ==> lhs[b] == rhs[b]) {
    }
    MapsEqual(lhs, rhs);
  }

  /** The grouping loop (scoring.py:143-145). */
  method PoolByAccount(txs: seq<Transaction>) returns (m: map<string, seq<Transaction>>)
    ensures PoolIndex(m, txs)
  {
    m := map[];
    for i := 0 to |txs|
      invariant PoolIndex(m, txs[..i])
    {
      var t := txs[i];
      PushStep(m, txs[..i], t);
      assert txs[..i] + [t] == txs[..i + 1];
      m := Push(m, t.sender, t);
      m := Push(m, t.receiver, t);
    }
    assert txs[..|txs|] == txs;
  }

  /** The body of the rate loop for one account (scoring.py:150-163). */
  method IsHighVelocity(txs: seq<Transaction>, a: string, txList: seq<Transaction>) returns (flagged: bool)
    requires txList == Pooled(txs, a)
    ensures flagged == HighVelocity(txs, a)
  {
    if |txList| < HighVelocityThreshold {
      return false;
    }
    var sorted := SortByTime(txList);
    SortedFirst(txList, sorted);
    SortedLast(txList, sorted);
    var span := sorted[|sorted| - 1].time.seconds - sorted[0].time.seconds;
    var days: real := span as real / SecondsPerDay as real;
    if days == 0.0 {
      days := 1.0;
    }
    assert days == Days(span);
    RateIsDivision(|txList|, span);
    flagged := (|txList| as real) / days >= HighVelocityThreshold as real;
  }

  /** `_calculate_velocity_scores`: 15 for every flagged account. */
  method VelocityScores(txs: seq<Transaction>) returns (scores: map<string, nat>)
    ensures scores == VelocitySpec(txs, Accounts(txs))
  {
    var pool := PoolByAccount(txs);
    scores := map[];
    var rest := pool.Keys;
    ghost var done: set<string> := {};
    assert VelocitySpec(txs, {}) == map[];
    while rest != {}
      invariant rest !! done && rest + done == pool.Keys
      invariant scores == VelocitySpec(txs, done)
      decreases rest
    {
      var a :| a in rest;
      VelocityStep(txs, done, a);
      var flagged := IsHighVelocity(txs, a, pool[a]);
      if flagged {
        scores := scores[a := ScoreHighVelocity];
      }
      done := done + {a};
      rest := rest - {a};
    }
  }

  /** Only accounts of the transactions are flagged. */
  lemma HighVelocityIsAccount(txs: seq<Transaction>, a: string)
    requires HighVelocity(txs, a)
    ensures a in Accounts(txs)
  {
    if a !in Accounts(txs) {
      PooledEmpty(txs, a);
    }
  }
}
