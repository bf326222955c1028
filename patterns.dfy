/** `account_patterns` of the scorer (backend/services/scoring.py:66-86):
    the set of distinct pattern labels of every account. */
module Patterns {
  import opened Common
  import opened Rings
  import opened RingFacts
  import opened Smurfing
  import opened Consolidation
  import Cycles
  import Shells

  type LabelMap = map<string, set<string>>

  /** The labels already recorded for `a` (`defaultdict(set)`). */
  function LabelsOf(m: LabelMap, a: string): set<string> {
    if a in m then m[a] else {}
  }

  /** `account_patterns[a].add(label)`. */
  function AddLabel(m: LabelMap, a: string, l: string): LabelMap {
    m[a := LabelsOf(m, a) + {l}]
  }

  /** The innermost loop: every account of one cycle or chain gets its
      label. */
  function AddPath(m: LabelMap, path: seq<string>, l: string): LabelMap {
    if path == [] then m else AddLabel(AddPath(m, path[..|path| - 1], l), path[|path| - 1], l)
  }

  /** The loop over the cycles or chains of one ring; `labelOf` names a
      path by its length. */
  function AddPaths(m: LabelMap, paths: seq<seq<string>>, labelOf: nat -> string): LabelMap {
    if paths == [] then m
    else
      var c := paths[|paths| - 1];
      AddPath(AddPaths(m, paths[..|paths| - 1], labelOf), c, labelOf(|c|))
  }

  /** The loop over a ring dict. */
  function AddRings(m: LabelMap, rings: seq<Ring>, labelOf: nat -> string): LabelMap {
    if rings == [] then m
    else AddPaths(AddRings(m, rings[..|rings| - 1], labelOf), rings[|rings| - 1].paths, labelOf)
  }

  /** The smurfing loop: each flagged account gets its flag's label. */
  function AddSmurf(m: LabelMap, smurf: map<string, Flag>): LabelMap {
    map a | a in m.Keys + smurf.Keys :: LabelsOf(m, a) + (if a in smurf then {smurf[a].patternLabel} else {})
  }

  /** The cycle loop, the smurfing loop and the shell loop in turn. */
  function AccountPatterns(cycleRings: seq<Ring>, smurf: map<string, Flag>, shellRings: seq<Ring>): LabelMap {
    AddRings(AddSmurf(AddRings(map[], cycleRings, Cycles.CycleLabel), smurf), shellRings, Shells.ShellLabel)
  }

  method AddPathLabels(m0: LabelMap, path: seq<string>, l: string) returns (m: LabelMap)
    ensures m == AddPath(m0, path, l)
  {
    m := m0;
    for k := 0 to |path|
      invariant m == AddPath(m0, path[..k], l)
    {
      assert path[..k + 1][..k] == path[..k];
      m := m[path[k] := (if path[k] in m then m[path[k]] else {}) + {l}];
    }
    assert path[..|path|] == path;
  }

  method AddRingLabels(m0: LabelMap, paths: seq<seq<string>>, labelOf: nat -> string) returns (m: LabelMap)
    ensures m == AddPaths(m0, paths, labelOf)
  {
    m := m0;
    for j := 0 to |paths|
      invariant m == AddPaths(m0, paths[..j], labelOf)
    {
      assert paths[..j + 1][..j] == paths[..j];
      var l := labelOf(|paths[j]|);
      m := AddPathLabels(m, paths[j], l);
    }
    assert paths[..|paths|] == paths;
  }

  method AddRingsLabels(m0: LabelMap, rings: seq<Ring>, labelOf: nat -> string) returns (m: LabelMap)
    ensures m == AddRings(m0, rings, labelOf)
  {
    m := m0;
    for i := 0 to |rings|
      invariant m == AddRings(m0, rings[..i], labelOf)
    {
      assert rings[..i + 1][..i] == rings[..i];
      m := AddRingLabels(m, rings[i].paths, labelOf);
    }
    assert rings[..|rings|] == rings;
  }

  /** `smurf` restricted to the accounts in `done`. */
  function Restrict(smurf: map<string, Flag>, done: set<string>): map<string, Flag> {
    map a | a in smurf && a in done :: smurf[a]
  }

  lemma AddSmurfStep(m0: LabelMap, smurf: map<string, Flag>, done: set<string>, a: string)
    requires a in smurf && a !in done
    ensures AddSmurf(m0, Restrict(smurf, done + {a})) == AddLabel(AddSmurf(m0, Restrict(smurf, done)), a, smurf[a].patternLabel)
  {
    var lhs := AddSmurf(m0, Restrict(smurf, done + {a}));
    var rhs := AddLabel(AddSmurf(m0, Restrict(smurf, done)), a, smurf[a].patternLabel);
    forall b ensures (b in lhs <==> b in rhs) && (b in lhs ==> lhs[b] == rhs[b]) {
    }
    MapsEqual(lhs, rhs);
  }

  lemma AddSmurfNone(m0: LabelMap)
    ensures AddSmurf(m0, map[]) == m0
  {
    var m := AddSmurf(m0, map[]);
    forall b ensures (b in m <==> b in m0) && (b in m ==> m[b] == m0[b]) {
      if b in m {
        assert m[b] == LabelsOf(m0, b) + {};
      }
    }
    MapsEqual(m, m0);
  }

  lemma RestrictAll(smurf: map<string, Flag>)
    ensures Restrict(smurf, {}) == map[] && Restrict(smurf, smurf.Keys) == smurf
  {
    MapsEqual(Restrict(smurf, smurf.Keys), smurf);
  }

  method AddSmurfLabels(m0: LabelMap, smurf: map<string, Flag>) returns (m: LabelMap)
    ensures m == AddSmurf(m0, smurf)
  {
    m := m0;
    var rest := smurf.Keys;
    ghost var done: set<string> := {};
    AddSmurfNone(m0);
    RestrictAll(smurf);
    while rest != {}
      invariant rest !! done && rest + done == smurf.Keys
      invariant m == AddSmurf(m0, Restrict(smurf, done))
      decreases rest
    {
      var a :| a in rest;
      AddSmurfStep(m0, smurf, done, a);
      m := AddLabel(m, a, smurf[a].patternLabel);
      done := done + {a};
      rest := rest - {a};
    }
  }

  /** Lines 66-86 of `calculate_suspicion_scores`. */
  method CollectPatterns(cycleRings: seq<Ring>, smurf: map<string, Flag>, shellRings: seq<Ring>) returns (m: LabelMap)
    ensures m == AccountPatterns(cycleRings, smurf, shellRings)
  {
    m := AddRingsLabels(map[], cycleRings, Cycles.CycleLabel);
    m := AddSmurfLabels(m, smurf);
    m := AddRingsLabels(m, shellRings, Shells.ShellLabel);
  }
}

/** What `account_patterns` holds. */
module PatternFacts {
  import opened Common
  import opened Rings
  import opened RingFacts
  import opened Smurfing
  import opened Consolidation
  import opened ConsolidationFacts
  import opened Patterns
  import Cycles
  import Shells

  /** The labels of the paths of `paths` through `a`. */
  ghost function PathLabels(paths: seq<seq<string>>, labelOf: nat -> string, a: string): set<string> {
    set c | c in paths && a in c :: labelOf(|c|)
  }

  /** The labels of the paths of all rings of `rings` through `a`. */
  ghost function RingLabels(rings: seq<Ring>, labelOf: nat -> string, a: string): set<string> {
    set r, c | r in rings && c in r.paths && a in c :: labelOf(|c|)
  }

  lemma {:induction false} AddPathFacts(m: LabelMap, path: seq<string>, l: string, a: string)
    ensures a in AddPath(m, path, l) <==> a in m || a in path
    ensures LabelsOf(AddPath(m, path, l), a) == LabelsOf(m, a) + (if a in path then {l} else {})
  {
    if path != [] {
      var pre := path[..|path| - 1];
      AddPathFacts(m, pre, l, a);
      assert path == pre + [path[|path| - 1]];
    }
  }

  lemma PathLabelsStep(paths: seq<seq<string>>, labelOf: nat -> string, a: string)
    requires paths != []
    ensures var c := paths[|paths| - 1];
      PathLabels(paths, labelOf, a) == PathLabels(paths[..|paths| - 1], labelOf, a) + (if a in c then {labelOf(|c|)} else {})
  {
    assert paths == paths[..|paths| - 1] + [paths[|paths| - 1]];
  }

  lemma RingLabelsStep(rings: seq<Ring>, labelOf: nat -> string, a: string)
    requires rings != []
    ensures RingLabels(rings, labelOf, a) == RingLabels(rings[..|rings| - 1], labelOf, a) + PathLabels(rings[|rings| - 1].paths, labelOf, a)
  {
    assert rings == rings[..|rings| - 1] + [rings[|rings| - 1]];
  }

  lemma {:induction false} AddPathsFacts(m: LabelMap, paths: seq<seq<string>>, labelOf: nat -> string, a: string)
    ensures a in AddPaths(m, paths, labelOf) <==> a in m || a in Touched(paths)
    ensures LabelsOf(AddPaths(m, paths, labelOf), a) == LabelsOf(m, a) + PathLabels(paths, labelOf, a)
  {
    if paths != [] {
      var pre := paths[..|paths| - 1];
      var c := paths[|paths| - 1];
      AddPathsFacts(m, pre, labelOf, a);
      AddPathFacts(AddPaths(m, pre, labelOf), c, labelOf(|c|), a);
      PathLabelsStep(paths, labelOf, a);
    }
  }

  lemma {:induction false} AddRingsFacts(m: LabelMap, rings: seq<Ring>, labelOf: nat -> string, a: string)
    ensures a in AddRings(m, rings, labelOf) <==> a in m || a in AllMembers(rings)
    ensures LabelsOf(AddRings(m, rings, labelOf), a) == LabelsOf(m, a) + RingLabels(rings, labelOf, a)
  {
    if rings != [] {
      var pre := rings[..|rings| - 1];
      var r := rings[|rings| - 1];
      AddRingsFacts(m, pre, labelOf, a);
      AddPathsFacts(AddRings(m, pre, labelOf), r.paths, labelOf, a);
      assert AllMembers(rings) == AllMembers(pre) + Touched(r.paths);
      RingLabelsStep(rings, labelOf, a);
    }
  }

  /** An account has patterns exactly when it is in a cycle ring, is
      flagged for smurfing, or is in a shell ring; its patterns are the
      length labels of its cycles and chains and its smurfing label. */
  lemma AccountPatternsFacts(cycleRings: seq<Ring>, smurf: map<string, Flag>, shellRings: seq<Ring>, a: string)
    ensures var m := AccountPatterns(cycleRings, smurf, shellRings);
      && (a in m <==> a in AllMembers(cycleRings) || a in smurf || a in AllMembers(shellRings))
      && LabelsOf(m, a) == RingLabels(cycleRings, Cycles.CycleLabel, a)
           + (if a in smurf then {smurf[a].patternLabel} else {})
           + RingLabels(shellRings, Shells.ShellLabel, a)
  {
    var m1 := AddRings(map[], cycleRings, Cycles.CycleLabel);
    AddRingsFacts(map[], cycleRings, Cycles.CycleLabel, a);
    var m2 := AddSmurf(m1, smurf);
    AddRingsFacts(m2, shellRings, Shells.ShellLabel, a);
  }
}
