/** `calculate_suspicion_scores` (backend/services/scoring.py:30-129):
    the weights of each account's distinct labels, a velocity bonus for
    accounts that are fast but not payroll-like, capped at 100. */
module Scoring {
  import opened Common
  import opened Transactions
  import opened Graph
  import opened Rings
  import opened Smurfing
  import opened Weights
  import opened Patterns
  import opened Velocity
  import opened Payroll

  const ScoreCap: nat := 100

  function Min(a: nat, b: nat): nat { if a <= b then a else b }

  /** The scores after the label loop (scoring.py:89-117): a key is
      created by the first `+=`, so only accounts with a weighted label
      get one. */
  ghost function LabelScores(patterns: LabelMap, done: set<string>): map<string, nat> {
    map a | a in done && a in patterns && WeightSum(patterns[a]) > 0 :: WeightSum(patterns[a])
  }

  /** The scores after the velocity loop (scoring.py:120-123), where
      `bonus` holds the velocity entries of the accounts that are not
      payroll-like and `done` the accounts visited so far. */
  ghost function WithBonus(base: map<string, nat>, bonus: map<string, nat>, done: set<string>): map<string, nat> {
    map a | a in base.Keys + (done * bonus.Keys) ::
      (if a in base then base[a] else 0) + (if a in done && a in bonus then bonus[a] else 0)
  }

  /** The velocity entries whose account fails the payroll test. */
  ghost function NonPayroll(txs: seq<Transaction>, velocity: map<string, nat>): map<string, nat> {
    map a | a in velocity && !IsPayroll(txs, a) :: velocity[a]
  }

  /** The cap loop (scoring.py:126-127) over the accounts in `done`. */
  function Capped(m: map<string, nat>, done: set<string>): map<string, nat> {
    map a | a in m :: if a in done then Min(m[a], ScoreCap) else m[a]
  }

  /** What `calculate_suspicion_scores` returns. */
  ghost function ScoreTable(txs: seq<Transaction>, cycleRings: seq<Ring>, smurf: map<string, Flag>, shellRings: seq<Ring>): map<string, nat> {
    Table(AccountPatterns(cycleRings, smurf, shellRings), Bonus(txs), VelocitySpec(txs, Accounts(txs)).Keys)
  }

  /** The velocity entries of the accounts that are not payroll-like. */
  ghost function Bonus(txs: seq<Transaction>): map<string, nat> {
    NonPayroll(txs, VelocitySpec(txs, Accounts(txs)))
  }

  /** The three loops over a label map, with the bonus entries of the
      accounts in `done`. */
  ghost function Table(patterns: LabelMap, bonus: map<string, nat>, done: set<string>): map<string, nat> {
    var m := WithBonus(LabelScores(patterns, patterns.Keys), bonus, done);
    Capped(m, m.Keys)
  }

  /** The inner loop over one account's labels: the total it adds, and
      whether any branch that adds ran. */
  method SumWeights(labels: set<string>) returns (total: nat, added: bool)
    ensures total == WeightSum(labels)
    ensures added <==> WeightSum(labels) > 0
  {
    total, added := 0, false;
    var rest := labels;
    while rest != {}
      invariant rest <= labels
      invariant total + WeightSum(rest) == WeightSum(labels)
      invariant added <==> exists l :: l in labels && l !in rest && Weight(l) > 0
      decreases rest
    {
      var l :| l in rest;
      WeightSumRemove(rest, l);
      if StartsWith(l, "cycle_length_") || StartsWith(l, "layered_shell_") || l == "smurfing" {
        total := total + Weight(l);
        added := true;
      }
      rest := rest - {l};
    }
    WeightSumPositive(labels);
  }

  lemma LabelScoresStep(patterns: LabelMap, done: set<string>, a: string)
    requires a in patterns && a !in done
    ensures LabelScores(patterns, done + {a}) ==
      if WeightSum(patterns[a]) > 0 then LabelScores(patterns, done)[a := WeightSum(patterns[a])] else LabelScores(patterns, done)
  {
    var lhs := LabelScores(patterns, done + {a});
    var rhs := if WeightSum(patterns[a]) > 0 then LabelScores(patterns, done)[a := WeightSum(patterns[a])] else LabelScores(patterns, done);
    forall b ensures (b in lhs <==> b in rhs) && (b in lhs ==> lhs[b] == rhs[b]) {
    }
    MapsEqual(lhs, rhs);
  }

  /** The label loop (scoring.py:89-117). */
  method ScoreLabels(patterns: LabelMap) returns (scores: map<string, nat>)
    ensures scores == LabelScores(patterns, patterns.Keys)
  {
    scores := map[];
    var rest := patterns.Keys;
    ghost var done: set<string> := {};
    assert LabelScores(patterns, {}) == map[];
    while rest != {}
      invariant rest !! done && rest + done == patterns.Keys
      invariant scores == LabelScores(patterns, done)
      decreases rest
    {
      var a :| a in rest;
      LabelScoresStep(patterns, done, a);
      var total, added := SumWeights(patterns[a]);
      if added {
        scores := scores[a := total];
      }
      done := done + {a};
      rest := rest - {a};
    }
  }

  lemma WithBonusNone(base: map<string, nat>, bonus: map<string, nat>)
    ensures WithBonus(base, bonus, {}) == base
  {
    var m := WithBonus(base, bonus, {});
    forall b ensures (b in m <==> b in base) && (b in m ==> m[b] == base[b]) {
    }
    MapsEqual(m, base);
  }

  lemma WithBonusStep(base: map<string, nat>, bonus: map<string, nat>, done: set<string>, a: string)
    requires a !in done
    ensures var m := WithBonus(base, bonus, done);
      WithBonus(base, bonus, done + {a}) ==
        if a in bonus then m[a := (if a in m then m[a] else 0) + bonus[a]] else m
  {
    var m := WithBonus(base, bonus, done);
    var lhs := WithBonus(base, bonus, done + {a});
    var rhs := if a in bonus then m[a := (if a in m then m[a] else 0) + bonus[a]] else m;
    forall b ensures (b in lhs <==> b in rhs) && (b in lhs ==> lhs[b] == rhs[b]) {
      if b != a {
        assert (b in done + {a}) == (b in done);
      }
    }
    MapsEqual(lhs, rhs);
  }

  /** The velocity loop (scoring.py:120-123). */
  method AddVelocity(base: map<string, nat>, txs: seq<Transaction>, velocity: map<string, nat>) returns (scores: map<string, nat>)
    ensures scores == WithBonus(base, NonPayroll(txs, velocity), velocity.Keys)
  {
    scores := base;
    var rest := velocity.Keys;
    ghost var done: set<string> := {};
    ghost var bonus := NonPayroll(txs, velocity);
    WithBonusNone(base, bonus);
    while rest != {}
      invariant rest !! done && rest + done == velocity.Keys
      invariant scores == WithBonus(base, bonus, done)
      decreases rest
    {
      var a :| a in rest;
      scores := AddBonus(scores, txs, velocity, base, bonus, done, a);
      done := done + {a};
      rest := rest - {a};
    }
  }

  /** One velocity entry: added to the score unless the account is
      payroll-like. */
  method AddBonus(scores0: map<string, nat>, txs: seq<Transaction>, velocity: map<string, nat>,
                  ghost base: map<string, nat>, ghost bonus: map<string, nat>, ghost done: set<string>, a: string)
    returns (scores: map<string, nat>)
    requires bonus == NonPayroll(txs, velocity) && a in velocity && a !in done
    requires scores0 == WithBonus(base, bonus, done)
    ensures scores == WithBonus(base, bonus, done + {a})
  {
    WithBonusStep(base, bonus, done, a);
    scores := scores0;
    var payroll := IsPayrollPattern(a, txs);
    if !payroll {
      scores := scores[a := (if a in scores then scores[a] else 0) + velocity[a]];
    }
  }


  lemma CappedStep(m: map<string, nat>, done: set<string>, a: string)
    requires a in m && a !in done
    ensures Capped(m, done + {a}) == Capped(m, done)[a := Min(m[a], ScoreCap)]
  {
    var lhs := Capped(m, done + {a});
    var rhs := Capped(m, done)[a := Min(m[a], ScoreCap)];
    forall b ensures (b in lhs <==> b in rhs) && (b in lhs ==> lhs[b] == rhs[b]) {
    }
    MapsEqual(lhs, rhs);
  }

  lemma CappedNone(m: map<string, nat>)
    ensures Capped(m, {}) == m
  {
    MapsEqual(Capped(m, {}), m);
  }

  /** The cap loop (scoring.py:126-127). */
  method CapScores(m: map<string, nat>) returns (scores: map<string, nat>)
    ensures scores == Capped(m, m.Keys)
  {
    scores := m;
    var rest := m.Keys;
    ghost var done: set<string> := {};
    CappedNone(m);
    while rest != {}
      invariant rest !! done && rest + done == m.Keys
      invariant scores == Capped(m, done)
      decreases rest
    {
      var a :| a in rest;
      CappedStep(m, done, a);
      scores := scores[a := Min(scores[a], ScoreCap)];
      done := done + {a};
      rest := rest - {a};
    }
  }

  /** `calculate_suspicion_scores`. The graph argument is unused by the
      source and left out. */
  method CalculateSuspicionScores(txs: seq<Transaction>, cycleRings: seq<Ring>, smurf: map<string, Flag>, shellRings: seq<Ring>)
    returns (scores: map<string, nat>)
    ensures scores == ScoreTable(txs, cycleRings, smurf, shellRings)
  {
    var patterns := CollectPatterns(cycleRings, smurf, shellRings);
    var base := ScoreLabels(patterns);
    var velocity := VelocityScores(txs);
    var bonus := AddVelocity(base, txs, velocity);
    scores := CapScores(bonus);
  }
}

/** What the score table means for one account. */
module ScoringFacts {
  import opened Common
  import opened Transactions
  import opened Graph
  import opened Rings
  import opened Smurfing
  import opened Weights
  import opened Patterns
  import opened Velocity
  import opened Payroll
  import opened Scoring
  import PatternFacts
  import Cycles
  import Shells
  import ShellFacts

  /** The velocity bonus applies: fast and not payroll-like. */
  ghost predicate Boosted(txs: seq<Transaction>, a: string) {
    a in Accounts(txs) && HighVelocity(txs, a) && !IsPayroll(txs, a)
  }

  /** The weight of the account's distinct labels. */
  ghost function LabelWeight(cycleRings: seq<Ring>, smurf: map<string, Flag>, shellRings: seq<Ring>, a: string): nat {
    WeightSum(LabelsOf(AccountPatterns(cycleRings, smurf, shellRings), a))
  }

  /** The score table at one account, for any bonus entries. */
  lemma TableAt(patterns: LabelMap, bonus: map<string, nat>, done: set<string>, a: string)
    requires bonus.Keys <= done
    requires a in bonus ==> bonus[a] > 0
    ensures var s := Table(patterns, bonus, done);
      var w := WeightSum(LabelsOf(patterns, a));
      && (a in s <==> w > 0 || a in bonus)
      && (a in s ==> s[a] == Min(w + (if a in bonus then bonus[a] else 0), ScoreCap))
      && (a in s ==> 0 < s[a] <= ScoreCap)
  {
    var w := WeightSum(LabelsOf(patterns, a));
    if a !in patterns {
      assert LabelsOf(patterns, a) == {};
    }
    var base := LabelScores(patterns, patterns.Keys);
    assert a in base <==> w > 0;
    assert a in base ==> base[a] == w;
    var m := WithBonus(base, bonus, done);
    assert a in m <==> a in base || a in bonus;
    assert a in m ==> m[a] == (if a in base then w else 0) + (if a in bonus then bonus[a] else 0);
    var s := Capped(m, m.Keys);
    assert s == Table(patterns, bonus, done);
    assert a in s <==> a in m;
    assert a in s ==> s[a] == Min(m[a], ScoreCap);
  }

  /** The bonus entries are the boosted accounts, each worth 15. */
  lemma BonusAt(txs: seq<Transaction>, a: string)
    ensures Bonus(txs).Keys <= VelocitySpec(txs, Accounts(txs)).Keys
    ensures a in Bonus(txs) <==> Boosted(txs, a)
    ensures a in Bonus(txs) ==> Bonus(txs)[a] == ScoreHighVelocity
  {
  }

  /** An account is scored exactly when it has a weighted label or the
      velocity bonus; its score is their sum capped at 100, and never 0. */
  lemma ScoreTableFacts(txs: seq<Transaction>, cycleRings: seq<Ring>, smurf: map<string, Flag>, shellRings: seq<Ring>, a: string)
    ensures var s := ScoreTable(txs, cycleRings, smurf, shellRings);
      var w := LabelWeight(cycleRings, smurf, shellRings, a);
      && (a in s <==> w > 0 || Boosted(txs, a))
      && (a in s ==> s[a] == Min(w + (if Boosted(txs, a) then ScoreHighVelocity else 0), ScoreCap))
      && (a in s ==> 0 < s[a] <= ScoreCap)
  {
    var patterns, bonus := AccountPatterns(cycleRings, smurf, shellRings), Bonus(txs);
    var done := VelocitySpec(txs, Accounts(txs)).Keys;
    BonusAt(txs, a);
    TableAt(patterns, bonus, done, a);
    assert ScoreTable(txs, cycleRings, smurf, shellRings) == Table(patterns, bonus, done);
    assert LabelWeight(cycleRings, smurf, shellRings, a) == WeightSum(LabelsOf(patterns, a));
  }

  /** The distinct path lengths among the rings' paths through `a`. */
  ghost function Lengths(rings: seq<Ring>, a: string): set<nat> {
    set r, c | r in rings && c in r.paths && a in c :: |c|
  }

  lemma LabelsAreLengths(rings: seq<Ring>, labelOf: nat -> string, a: string)
    ensures PatternFacts.RingLabels(rings, labelOf, a) == Image(Lengths(rings, a), labelOf)
  {
  }

  /** Labels of the three detectors fall into the weight table's three
      classes: cycle labels, shell labels, and labels that weigh nothing. */
  lemma Classify(labels: set<string>, cyc: set<string>, other: set<string>, sh: set<string>)
    requires labels == cyc + other + sh
    requires forall l :: l in cyc ==> StartsWith(l, "cycle_length_")
    requires forall l :: l in sh ==> StartsWith(l, "layered_shell_")
    requires forall l :: l in other ==> Weight(l) == 0
    ensures CycleLabelsIn(labels) == cyc && ShellLabelsIn(labels) == sh && "smurfing" !in labels
  {
    forall l | l in sh ensures !StartsWith(l, "cycle_length_") && l != "smurfing" {
      PrefixesExclusive(l);
      assert l[0] == l[..14][0] == 'l';
    }
    forall l | l in cyc ensures !StartsWith(l, "layered_shell_") && l != "smurfing" {
      PrefixesExclusive(l);
      assert l[0] == l[..13][0] == 'c';
    }
  }

  lemma CycleLabelCount(rings: seq<Ring>, a: string)
    ensures |PatternFacts.RingLabels(rings, Cycles.CycleLabel, a)| == |Lengths(rings, a)|
  {
    LabelsAreLengths(rings, Cycles.CycleLabel, a);
    forall x, y | Cycles.CycleLabel(x) == Cycles.CycleLabel(y) ensures x == y {
      Cycles.CycleLabelInjective(x, y);
    }
    InjectiveImageSize(Lengths(rings, a), Cycles.CycleLabel);
  }

  lemma ShellLabelCount(rings: seq<Ring>, a: string)
    ensures |PatternFacts.RingLabels(rings, Shells.ShellLabel, a)| == |Lengths(rings, a)|
  {
    LabelsAreLengths(rings, Shells.ShellLabel, a);
    forall x, y | Shells.ShellLabel(x) == Shells.ShellLabel(y) ensures x == y {
      ShellFacts.ShellLabelInjective(x, y);
    }
    InjectiveImageSize(Lengths(rings, a), Shells.ShellLabel);
  }

  /** With detector-made labels (which weigh nothing for smurfing), an
      account scores 40 per distinct cycle length and 25 per distinct
      shell length it takes part in. */
  lemma LabelWeightFormula(cycleRings: seq<Ring>, smurf: map<string, Flag>, shellRings: seq<Ring>, a: string)
    requires forall b :: b in smurf ==> Weight(smurf[b].patternLabel) == 0
    ensures LabelWeight(cycleRings, smurf, shellRings, a)
      == ScoreCycleLength3 * |Lengths(cycleRings, a)| + ScoreShell3Hop * |Lengths(shellRings, a)|
  {
    var labels := LabelsOf(AccountPatterns(cycleRings, smurf, shellRings), a);
    PatternFacts.AccountPatternsFacts(cycleRings, smurf, shellRings, a);
    var cyc := PatternFacts.RingLabels(cycleRings, Cycles.CycleLabel, a);
    var sh := PatternFacts.RingLabels(shellRings, Shells.ShellLabel, a);
    Classify(labels, cyc, if a in smurf then {smurf[a].patternLabel} else {}, sh);
    WeightSumFormula(labels);
    CycleLabelCount(cycleRings, a);
    ShellLabelCount(shellRings, a);
  }
}
