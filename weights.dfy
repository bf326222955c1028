/** The per-label weights of the suspicion score
    (backend/services/scoring.py:16-23, 88-117). */
module Weights {
  import opened Common
  import opened Smurfing
  import Cycles
  import Shells

  const ScoreCycleLength3: nat := 40
  const ScoreCycleLength4: nat := 40
  const ScoreCycleLength5: nat := 40
  const ScoreSmurfing: nat := 30
  const ScoreShell3Hop: nat := 25
  const ScoreShell4Hop: nat := 25
  const ScoreShell5Hop: nat := 25
  const ScoreHighVelocity: nat := 15

  /** `s.split(c)[-1]`: the longest suffix of `s` without `c`, so either
      all of `s` or the text after its last `c`. */
  function AfterLast(s: string, c: char): (r: string)
    ensures |r| <= |s| && r == s[|s| - |r|..] && c !in r
    ensures |r| < |s| ==> s[|s| - |r| - 1] == c
  {
    if s == [] then []
    else if s[|s| - 1] == c then []
    else
      var pre := s[..|s| - 1];
      var r' := AfterLast(pre, c);
      assert s[|s| - |r'| - 1..] == pre[|pre| - |r'|..] + [s[|s| - 1]];
      r' + [s[|s| - 1]]
  }

  /** `s.replace(pat, "")`: occurrences removed left to right. A string in
      which the first character of `pat` never occurs is left as it is. */
  function RemoveAll(s: string, pat: string): (r: string)
    requires pat != []
    ensures |r| <= |s|
    ensures (forall i :: 0 <= i < |s| ==> s[i] != pat[0]) ==> r == s
    decreases |s|
  {
    if |pat| <= |s| && s[..|pat|] == pat then RemoveAll(s[|pat|..], pat)
    else if s == [] then []
    else [s[0]] + RemoveAll(s[1..], pat)
  }

  /** `int(s)` on a plain string of decimal digits; `None` where it raises
      `ValueError`. */
  function ParseInt(s: string): (r: Option<nat>)
    ensures r.Some? <==> s != [] && forall i :: 0 <= i < |s| ==> IsDigit(s[i])
  {
    if s != [] && forall i :: 0 <= i < |s| ==> IsDigit(s[i]) then Some(ParseDigits(s)) else None
  }

  /** The weight one distinct label adds. The cycle and shell branches
      parse a length but give every length the same weight, so only the
      prefix matters; any other label but the literal "smurfing" adds
      nothing. */
  function Weight(name: string): (w: nat)
    ensures w == if StartsWith(name, "cycle_length_") then 40
      else if StartsWith(name, "layered_shell_") then 25
      else if name == "smurfing" then 30
      else 0
  {
    if StartsWith(name, "cycle_length_") then
      var length := match ParseInt(AfterLast(name, '_')) case Some(n) => n case None => 3;
      if length == 3 then ScoreCycleLength3 else if length == 4 then ScoreCycleLength4 else ScoreCycleLength5
    else if StartsWith(name, "layered_shell_") then
      var hop := match ParseInt(RemoveAll(RemoveAll(name, "layered_shell_"), "hop")) case Some(n) => n case None => 3;
      if hop == 3 then ScoreShell3Hop else if hop == 4 then ScoreShell4Hop else ScoreShell5Hop
    else if name == "smurfing" then ScoreSmurfing
    else 0
  }

  /** What follows a run of non-`c` characters after a `c` is that run. */
  lemma {:induction false} AfterLastTail(p: string, d: string, c: char)
    requires p != [] && p[|p| - 1] == c && c !in d
    ensures AfterLast(p + d, c) == d
  {
    if d == [] {
      assert p + d == p;
    } else {
      var n := |d| - 1;
      AfterLastTail(p, d[..n], c);
      assert (p + d)[..|p + d| - 1] == p + d[..n];
      assert d == d[..n] + [d[n]];
    }
  }

  /** Digits followed by `hop` lose exactly the `hop`. */
  lemma {:induction false} RemoveHop(d: string)
    requires forall i :: 0 <= i < |d| ==> IsDigit(d[i])
    ensures RemoveAll(d + "hop", "hop") == d
    decreases |d|
  {
    var s := d + "hop";
    if d == [] {
      assert s[..3] == "hop" && s[3..] == [];
    } else {
      assert s[0] == d[0] && IsDigit(d[0]);
      assert s[..3][0] != 'h';
      RemoveHop(d[1..]);
      assert s[1..] == d[1..] + "hop";
    }
  }

  /** The cycle branch reads back the length of a cycle label:
      `int(label.split("_")[-1])`. */
  lemma CycleLabelParses(length: nat)
    ensures ParseInt(AfterLast(Cycles.CycleLabel(length), '_')) == Some(length)
  {
    var d := NatToString(length);
    ParseNatToString(length);
    assert '_' !in d by {
      forall i | 0 <= i < |d| ensures d[i] != '_' { assert IsDigit(d[i]); }
    }
    AfterLastTail("cycle_length_", d, '_');
  }

  /** The shell branch reads back the length of a shell label:
      `int(label.replace("layered_shell_", "").replace("hop", ""))`. */
  lemma ShellLabelParses(length: nat)
    ensures ParseInt(RemoveAll(RemoveAll(Shells.ShellLabel(length), "layered_shell_"), "hop")) == Some(length)
  {
    var d := NatToString(length);
    ParseNatToString(length);
    var rest := d + "hop";
    var sh := Shells.ShellLabel(length);
    assert sh == "layered_shell_" + rest;
    assert sh[..14] == "layered_shell_" && sh[14..] == rest;
    NoLetterL(d);
    RemoveHop(d);
  }

  lemma NoLetterL(d: string)
    requires forall i :: 0 <= i < |d| ==> IsDigit(d[i])
    ensures forall i :: 0 <= i < |d + "hop"| ==> (d + "hop")[i] != 'l'
    ensures RemoveAll(d + "hop", "layered_shell_") == d + "hop"
  {
    var rest := d + "hop";
    forall i | 0 <= i < |rest| ensures rest[i] != 'l' {
      if i < |d| { assert IsDigit(d[i]); }
    }
  }

  /** The labels the detectors emit: every cycle label weighs 40, every
      shell label 25, and the smurfing labels, `fan_in_...` and
      `fan_out_...`, weigh nothing. */
  lemma DetectorLabelWeights(length: nat, role: Role, threshold: nat, hours: nat)
    ensures Weight(Cycles.CycleLabel(length)) == 40
    ensures Weight(Shells.ShellLabel(length)) == 25
    ensures Weight(SmurfLabel(role, threshold, hours)) == 0
  {
    ShellLabelWeight(length);
    SmurfLabelWeight(role, threshold, hours);
  }

  lemma ShellLabelWeight(length: nat)
    ensures Weight(Shells.ShellLabel(length)) == 25
  {
    var sh := Shells.ShellLabel(length);
    assert sh[0] == 'l';
  }

  lemma SmurfLabelWeight(role: Role, threshold: nat, hours: nat)
    ensures Weight(SmurfLabel(role, threshold, hours)) == 0
  {
    var sm := SmurfLabel(role, threshold, hours);
    assert StartsWith(sm, TypeName(role) + "_");
    assert sm[0] == 'f';
  }

  /** Whether a string can start with both prefixes: it cannot. */
  lemma PrefixesExclusive(name: string)
    ensures !(StartsWith(name, "cycle_length_") && StartsWith(name, "layered_shell_"))
  {
    if StartsWith(name, "cycle_length_") {
      assert name[0] == name[..13][0] == 'c';
    }
  }

  /** The sum of the weights of a set of distinct labels. */
  ghost function WeightSum(labels: set<string>): nat
    decreases labels
  {
    if labels == {} then 0
    else
      var l :| l in labels;
      Weight(l) + WeightSum(labels - {l})
  }

  /** The sum does not depend on the order the labels are visited in. */
  lemma {:induction false} WeightSumRemove(labels: set<string>, l: string)
    requires l in labels
    ensures WeightSum(labels) == Weight(l) + WeightSum(labels - {l})
    decreases labels
  {
    var x :| x in labels && WeightSum(labels) == Weight(x) + WeightSum(labels - {x});
    if x != l {
      WeightSumRemove(labels - {x}, l);
      WeightSumRemove(labels - {l}, x);
      assert labels - {x} - {l} == labels - {l} - {x};
    }
  }

  ghost function CycleLabelsIn(labels: set<string>): set<string> {
    set l | l in labels && StartsWith(l, "cycle_length_")
  }

  ghost function ShellLabelsIn(labels: set<string>): set<string> {
    set l | l in labels && StartsWith(l, "layered_shell_")
  }

  /** Each distinct cycle label adds 40 once, each distinct shell label 25
      once, and "smurfing" 30. */
  lemma {:induction false} WeightSumFormula(labels: set<string>)
    ensures WeightSum(labels) == 40 * |CycleLabelsIn(labels)| + 25 * |ShellLabelsIn(labels)| + (if "smurfing" in labels then 30 else 0)
    decreases labels
  {
    if labels != {} {
      var l :| l in labels;
      var rest := labels - {l};
      WeightSumRemove(labels, l);
      WeightSumFormula(rest);
      PrefixesExclusive(l);
      ClassCounts(labels, l);
    }
  }

  /** Taking one label out of a set changes the count of its own class
      only. */
  lemma ClassCounts(labels: set<string>, l: string)
    requires l in labels
    ensures |CycleLabelsIn(labels)| == |CycleLabelsIn(labels - {l})| + (if StartsWith(l, "cycle_length_") then 1 else 0)
    ensures |ShellLabelsIn(labels)| == |ShellLabelsIn(labels - {l})| + (if StartsWith(l, "layered_shell_") then 1 else 0)
    ensures ("smurfing" in labels) == ("smurfing" in labels - {l} || l == "smurfing")
  {
    var rest := labels - {l};
    if StartsWith(l, "cycle_length_") {
      assert CycleLabelsIn(labels) == CycleLabelsIn(rest) + {l};
    } else {
      assert CycleLabelsIn(labels) == CycleLabelsIn(rest);
    }
    if StartsWith(l, "layered_shell_") {
      assert ShellLabelsIn(labels) == ShellLabelsIn(rest) + {l};
    } else {
      assert ShellLabelsIn(labels) == ShellLabelsIn(rest);
    }
  }

  /** The sum is positive exactly when some label carries weight. */
  lemma {:induction false} WeightSumPositive(labels: set<string>)
    ensures WeightSum(labels) > 0 <==> exists l :: l in labels && Weight(l) > 0
    decreases labels
  {
    if labels != {} {
      var l :| l in labels;
      WeightSumRemove(labels, l);
      WeightSumPositive(labels - {l});
    }
  }
}
