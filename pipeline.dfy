/** The detection pipeline (backend/services/detection_engine.py): build
    the graph, run the three detectors with fixed parameters, consolidate
    the rings, score the accounts and format the result. The clock is an
    input: `processingTime` is the elapsed time the caller measured. */
module Pipeline {
  import opened Common
  import opened Transactions
  import opened Graph
  import opened Rings
  import opened Cycles
  import opened Smurfing
  import opened SmurfingDetector
  import opened Shells
  import opened Consolidation
  import opened Weights
  import opened Patterns
  import opened Scoring
  import opened Formatter

  const MinCycleLength: nat := 3
  const MaxCycleLength: nat := 5
  const SmurfThreshold: nat := 10
  const SmurfWindowHours: nat := 72
  const MinChainLength: nat := 3
  const MaxIntermediateDegree: nat := 3

  /** The cycle rings of the transactions' graph. */
  ghost function CycleRings(allCycles: seq<seq<string>>): seq<Ring> {
    Group(Candidates(allCycles, MinCycleLength, MaxCycleLength)).rings
  }

  /** The shell rings before consolidation. */
  ghost function RawShellRings(txs: seq<Transaction>): seq<Ring> {
    Group(ShellChains(Aggregate(txs), MinChainLength, MaxIntermediateDegree)).rings
  }

  /** What `run_detection` returns, stage by stage. */
  ghost function Detection(txs: seq<Transaction>, allCycles: seq<seq<string>>, processingTime: real,
                           round1: real -> real, round2: real -> real): DetectionResult {
    var cycleRings := CycleRings(allCycles);
    var smurf := SmurfingSpec(txs, SmurfThreshold, SmurfWindowHours);
    var shells := FinalShells(cycleRings, RawShellRings(txs));
    var ringOf := AccountRings(cycleRings, RawShellRings(txs));
    var scores := ScoreTable(txs, cycleRings, smurf, shells);
    Result(Aggregate(txs).nodes, cycleRings, shells, AccountPatterns(cycleRings, smurf, shells),
           scores, ringOf, processingTime, round1, round2)
  }

  /** `run_detection`. `allCycles` stands for the simple cycles networkx
      enumerates on the graph; `round1` and `round2` for `round(x, 1)` and
      `round(x, 2)`. */
  method RunDetection(txs: seq<Transaction>, allCycles: seq<seq<string>>, processingTime: real,
                      round1: real -> real, round2: real -> real)
    returns (result: DetectionResult)
    requires forall c :: c in allCycles ==> IsSimpleCycle(Aggregate(txs), c)
    ensures result == Detection(txs, allCycles, processingTime, round1, round2)
  {
    var g := BuildTransactionGraph(txs);
    var cycleRings := DetectCycles(g, allCycles, MinCycleLength, MaxCycleLength);
    var smurf := DetectSmurfing(txs, SmurfThreshold, SmurfWindowHours);
    var shellRings := DetectLayeredShells(g, MinChainLength, MaxIntermediateDegree);
    var shells, ringOf := Consolidate(cycleRings, shellRings);
    var scores := CalculateSuspicionScores(txs, cycleRings, smurf, shells);
    result := FormatDetectionResult(g.nodes, cycleRings, smurf, shells, scores, ringOf, processingTime, round1, round2);
  }
}

/** What the pipeline's result says. */
module PipelineFacts {
  import opened Common
  import opened Transactions
  import opened Graph
  import opened Rings
  import opened Smurfing
  import opened SmurfingFacts
  import opened Cycles
  import opened Consolidation
  import ConsolidationFacts
  import opened Weights
  import opened Patterns
  import opened Scoring
  import opened ScoringFacts
  import opened Formatter
  import opened FormatterFacts
  import opened Pipeline

  /** The smurfing labels the pipeline produces weigh nothing in scoring. */
  lemma SmurfLabelsWeightless(txs: seq<Transaction>)
    ensures forall b :: b in SmurfingSpec(txs, SmurfThreshold, SmurfWindowHours) ==>
      Weight(SmurfingSpec(txs, SmurfThreshold, SmurfWindowHours)[b].patternLabel) == 0
  {
    forall b | b in SmurfingSpec(txs, SmurfThreshold, SmurfWindowHours)
      ensures Weight(SmurfingSpec(txs, SmurfThreshold, SmurfWindowHours)[b].patternLabel) == 0
    {
      SmurfingRecords(txs, SmurfThreshold, SmurfWindowHours, b);
      DetectorLabelWeights(0, FanIn, SmurfThreshold, SmurfWindowHours);
      DetectorLabelWeights(0, FanOut, SmurfThreshold, SmurfWindowHours);
    }
  }

  /** Rings numbered `start`, `start + 1`, ... have as many distinct ids as
      there are rings, all in `start .. start + |rings| - 1`. */
  lemma {:induction false} ConsecutiveIds(rings: seq<Ring>, start: nat)
    requires forall j :: 0 <= j < |rings| ==> rings[j].id == start + j
    ensures |RingIds(rings)| == |rings|
    ensures forall id :: id in RingIds(rings) ==> start <= id < start + |rings|
  {
    if rings != [] {
      ConsecutiveIds(rings[..|rings| - 1], start);
      RingIdsLast(rings);
    }
  }

  lemma RingIdsLast(rings: seq<Ring>)
    requires rings != []
    ensures RingIds(rings) == RingIds(rings[..|rings| - 1]) + {rings[|rings| - 1].id}
  {
    var n := |rings| - 1;
    assert rings == rings[..n] + [rings[n]];
    RingIdsAppend(rings[..n], [rings[n]]);
    assert RingIds([rings[n]]) == {rings[n].id};
  }

  /** One ring record per cycle ring and per surviving shell ring. */
  lemma RingCount(txs: seq<Transaction>, allCycles: seq<seq<string>>)
    ensures var cycleRings := CycleRings(allCycles);
      var shells := FinalShells(cycleRings, RawShellRings(txs));
      |RingIds(cycleRings) + RingIds(shells)| == |cycleRings| + |shells|
  {
    var cycleRings := CycleRings(allCycles);
    var shells := FinalShells(cycleRings, RawShellRings(txs));
    GroupValid(Candidates(allCycles, MinCycleLength, MaxCycleLength));
    ConsolidationFacts.FinalShellsFacts(cycleRings, RawShellRings(txs));
    ConsecutiveIds(cycleRings, 1);
    ConsecutiveIds(shells, |cycleRings| + 1);
    assert RingIds(cycleRings) * RingIds(shells) == {};
  }

  /** The summary of a run: every account of the transactions is analysed
      once, one record is listed per account with a positive score, and one
      ring record per cycle ring and per surviving shell ring. */
  lemma DetectionSummary(txs: seq<Transaction>, allCycles: seq<seq<string>>, processingTime: real,
                         round1: real -> real, round2: real -> real)
    ensures var res := Detection(txs, allCycles, processingTime, round1, round2);
      var cycleRings := CycleRings(allCycles);
      var scores := ScoreTable(txs, cycleRings, SmurfingSpec(txs, SmurfThreshold, SmurfWindowHours),
                               FinalShells(cycleRings, RawShellRings(txs)));
      && res.summary.totalAccountsAnalyzed == |Accounts(txs)|
      && res.summary.suspiciousAccountsFlagged == |res.suspiciousAccounts| == |Flagged(Accounts(txs), scores)|
      && res.summary.fraudRingsDetected == |res.fraudRings| == |cycleRings| + |FinalShells(cycleRings, RawShellRings(txs))|
      && res.summary.processingTimeSeconds == round2(processingTime)
  {
    var cycleRings := CycleRings(allCycles);
    var smurf := SmurfingSpec(txs, SmurfThreshold, SmurfWindowHours);
    var shells := FinalShells(cycleRings, RawShellRings(txs));
    NodesAreAccounts(txs);
    ResultFacts(Aggregate(txs).nodes, cycleRings, shells, AccountPatterns(cycleRings, smurf, shells),
                ScoreTable(txs, cycleRings, smurf, shells), AccountRings(cycleRings, RawShellRings(txs)),
                processingTime, round1, round2);
    RingCount(txs, allCycles);
  }

  /** Every listed account scores between 1 and 100: 40 per distinct cycle
      length and 25 per distinct shell chain length it takes part in, 15
      more when it is a non-payroll high-velocity account, capped at 100. */
  lemma SuspiciousScores(txs: seq<Transaction>, allCycles: seq<seq<string>>, processingTime: real,
                         round1: real -> real, round2: real -> real, i: nat)
    requires i < |Detection(txs, allCycles, processingTime, round1, round2).suspiciousAccounts|
    ensures var x := Detection(txs, allCycles, processingTime, round1, round2).suspiciousAccounts[i];
      var cycleRings := CycleRings(allCycles);
      var shells := FinalShells(cycleRings, RawShellRings(txs));
      && x.accountId in Accounts(txs)
      && 0 < x.suspicionScore <= ScoreCap
      && x.suspicionScore == Min(ScoreCycleLength3 * |Lengths(cycleRings, x.accountId)|
                                 + ScoreShell3Hop * |Lengths(shells, x.accountId)|
                                 + (if Boosted(txs, x.accountId) then ScoreHighVelocity else 0), ScoreCap)
  {
    var cycleRings := CycleRings(allCycles);
    var smurf := SmurfingSpec(txs, SmurfThreshold, SmurfWindowHours);
    var shells := FinalShells(cycleRings, RawShellRings(txs));
    var scores := ScoreTable(txs, cycleRings, smurf, shells);
    var patterns := AccountPatterns(cycleRings, smurf, shells);
    var ringOf := AccountRings(cycleRings, RawShellRings(txs));
    var nodes := Elems(Aggregate(txs).nodes);
    NodesAreAccounts(txs);
    SuspiciousListFacts(nodes, scores, patterns, ringOf);
    var x := SuspiciousList(nodes, scores, patterns, ringOf)[i];
    var a := x.accountId;
    ScoreTableFacts(txs, cycleRings, smurf, shells, a);
    SmurfLabelsWeightless(txs);
    LabelWeightFormula(cycleRings, smurf, shells, a);
  }

  /** Every ring's risk, before rounding, is the mean score of its members
      and lies between 0 and 100. */
  lemma RingRisks(txs: seq<Transaction>, allCycles: seq<seq<string>>, processingTime: real,
                  round1: real -> real, round2: real -> real, i: nat)
    requires i < |Detection(txs, allCycles, processingTime, round1, round2).fraudRings|
    ensures var x := Detection(txs, allCycles, processingTime, round1, round2).fraudRings[i];
      var cycleRings := CycleRings(allCycles);
      var shells := FinalShells(cycleRings, RawShellRings(txs));
      var scores := ScoreTable(txs, cycleRings, SmurfingSpec(txs, SmurfThreshold, SmurfWindowHours), shells);
      && x.riskScore == round1(Mean(x.memberAccounts, scores))
      && 0.0 <= Mean(x.memberAccounts, scores) <= ScoreCap as real
  {
    var cycleRings := CycleRings(allCycles);
    var smurf := SmurfingSpec(txs, SmurfThreshold, SmurfWindowHours);
    var shells := FinalShells(cycleRings, RawShellRings(txs));
    var scores := ScoreTable(txs, cycleRings, smurf, shells);
    FraudRingListFacts(cycleRings, shells, scores, round1);
    var x := FraudRingList(cycleRings, shells, scores, round1)[i];
    var id :| id in RingIds(cycleRings) + RingIds(shells) && x == RingEntry(id, cycleRings, shells, scores, round1, SortedListing);
    RingEntryShape(id, cycleRings, shells, scores, round1, SortedListing);
    forall a | a in scores ensures scores[a] <= ScoreCap {
      ScoreTableFacts(txs, cycleRings, smurf, shells, a);
    }
    MeanFacts(x.memberAccounts, scores, ScoreCap);
  }

  /** With a rounding function that keeps 0..100 in range, as `round(x, 1)`
      does, every ring's `risk_score` meets the record's 0..100 bound. */
  lemma RingRiskBounded(txs: seq<Transaction>, allCycles: seq<seq<string>>, processingTime: real,
                        round1: real -> real, round2: real -> real, i: nat)
    requires forall x :: 0.0 <= x <= 100.0 ==> 0.0 <= round1(x) <= 100.0
    requires i < |Detection(txs, allCycles, processingTime, round1, round2).fraudRings|
    ensures 0.0 <= Detection(txs, allCycles, processingTime, round1, round2).fraudRings[i].riskScore <= 100.0
  {
    RingRisks(txs, allCycles, processingTime, round1, round2, i);
  }
}
