/** Cycle ring detection (backend/services/cycle_detection.py). The simple
    cycles of the graph (networkx `simple_cycles`) are an input: each entry
    is a simple directed cycle of the graph, first node not repeated. */
module Cycles {
  import opened Common
  import opened Graph
  import opened Rings
  import opened RingFacts
  import opened RingOrder

  /** `c` visits distinct nodes of `g`, each followed by an edge to the
      next, and the last back to the first. */
  ghost predicate IsSimpleCycle(g: Graph, c: seq<string>) {
    && |c| > 0
    && Distinct(c)
    && (forall i :: 0 <= i < |c| ==> c[i] in g.succ)
    && (forall i :: 0 <= i < |c| - 1 ==> HasEdge(g, c[i], c[i + 1]))
    && HasEdge(g, c[|c| - 1], c[0])
  }

  /** The comprehension `[c for c in cycles if lo <= len(c) <= hi]`. */
  function LengthFilter(cycles: seq<seq<string>>, lo: int, hi: int): (r: seq<seq<string>>)
    ensures forall c :: c in r <==> c in cycles && lo <= |c| <= hi
  {
    if cycles == [] then []
    else
      var c := cycles[|cycles| - 1];
      assert cycles == cycles[..|cycles| - 1] + [c];
      LengthFilter(cycles[..|cycles| - 1], lo, hi) + (if lo <= |c| <= hi then [c] else [])
  }

  lemma {:induction false} LengthFilterSorted(cycles: seq<seq<string>>, lo: int, hi: int)
    requires SortedBy(cycles, PathLe)
    ensures SortedBy(LengthFilter(cycles, lo, hi), PathLe)
  {
    if cycles != [] {
      var n := |cycles| - 1;
      var pre := cycles[..n];
      assert SortedBy(pre, PathLe);
      LengthFilterSorted(pre, lo, hi);
      var s := LengthFilter(pre, lo, hi);
      forall k | 0 <= k < |s| ensures PathLe(s[k], cycles[n]) {
        assert s[k] in pre;
        var m :| 0 <= m < n && pre[m] == s[k];
      }
    }
  }

  /** The cycles grouping processes: sorted by their node tuples, then
      restricted to lengths lo..hi. */
  function Candidates(allCycles: seq<seq<string>>, lo: int, hi: int): seq<seq<string>> {
    LengthFilter(SortBy(allCycles, PathLe), lo, hi)
  }

  /** `detect_cycles`. */
  method DetectCycles(g: Graph, allCycles: seq<seq<string>>, minLength: int, maxLength: int) returns (rings: seq<Ring>)
    requires forall c :: c in allCycles ==> IsSimpleCycle(g, c)
    ensures rings == Group(Candidates(allCycles, minLength, maxLength)).rings
    ensures Candidates(allCycles, minLength, maxLength) == [] ==> rings == []
    ensures forall r, c :: r in rings && c in r.paths ==> minLength <= |c| <= maxLength
    ensures forall r, c :: r in rings && c in r.paths ==> IsSimpleCycle(g, c)
    ensures forall r :: r in rings ==> r.paths != [] && SortedBy(r.paths, PathLe)
    ensures forall j :: 0 <= j < |rings| ==> rings[j].id == j + 1
    ensures TotalPaths(rings) == |Candidates(allCycles, minLength, maxLength)|
  {
    var sorted := SortBy(allCycles, PathLe);
    var filtered := LengthFilter(sorted, minLength, maxLength);
    if filtered == [] {
      rings := [];
    } else {
      rings := GroupIntoRings(filtered);
    }
    CycleRingsFacts(g, allCycles, minLength, maxLength, rings);
  }

  /** The rings grouped from the candidates: every path a simple cycle of
      the wanted length, every ring non-empty and sorted, ids 1, 2, ...,
      and every candidate in exactly one ring. */
  lemma CycleRingsFacts(g: Graph, allCycles: seq<seq<string>>, minLength: int, maxLength: int, rings: seq<Ring>)
    requires forall c :: c in allCycles ==> IsSimpleCycle(g, c)
    requires rings == Group(Candidates(allCycles, minLength, maxLength)).rings
    ensures forall r, c :: r in rings && c in r.paths ==> minLength <= |c| <= maxLength
    ensures forall r, c :: r in rings && c in r.paths ==> IsSimpleCycle(g, c)
    ensures forall r :: r in rings ==> r.paths != [] && SortedBy(r.paths, PathLe)
    ensures forall j :: 0 <= j < |rings| ==> rings[j].id == j + 1
    ensures TotalPaths(rings) == |Candidates(allCycles, minLength, maxLength)|
  {
    var filtered := Candidates(allCycles, minLength, maxLength);
    CandidatesFacts(allCycles, minLength, maxLength);
    GroupPathsFromInput(filtered, PathLe);
    GroupValid(filtered);
    GroupTotal(filtered);
  }

  /** The candidates are input cycles of the wanted length, in order. */
  lemma CandidatesFacts(allCycles: seq<seq<string>>, minLength: int, maxLength: int)
    ensures forall c :: c in Candidates(allCycles, minLength, maxLength) ==> c in allCycles && minLength <= |c| <= maxLength
    ensures SortedBy(Candidates(allCycles, minLength, maxLength), PathLe)
  {
    var sorted := SortBy(allCycles, PathLe);
    PathLeIsTotalPreorder();
    LengthFilterSorted(sorted, minLength, maxLength);
    forall c | c in sorted ensures c in allCycles {
      assert c in multiset(sorted);
    }
  }

  /** `get_cycle_pattern_label`. */
  function CycleLabel(length: nat): (s: string)
    ensures StartsWith(s, "cycle_length_")
  {
    "cycle_length_" + NatToString(length)
  }

  /** Different lengths give different labels. */
  lemma CycleLabelInjective(a: nat, b: nat)
    requires CycleLabel(a) == CycleLabel(b)
    ensures a == b
  {
    assert NatToString(a) == CycleLabel(a)[13..] == CycleLabel(b)[13..] == NatToString(b);
    NatToStringInjective(a, b);
  }

  /** The first two cycles of the example below open rings 1 and 2. */
  lemma OverlapPrefix()
    ensures var g2 := Group([["A", "B", "C"], ["D", "E", "F"]]);
      && g2.rings == [Ring(1, [["A", "B", "C"]]), Ring(2, [["D", "E", "F"]])]
      && "E" in g2.tag && g2.tag["E"] == 2
  {
    var p := [["A", "B", "C"], ["D", "E", "F"]];
    assert p[..1] == [["A", "B", "C"]];
    var g1 := Group(p[..1]);
    assert g1.rings == [Ring(1, [["A", "B", "C"]])];
    RetagFacts(map[], ["A", "B", "C"], 1);
    assert g1.tag.Keys == {"A", "B", "C"};
    assert FirstTagged(g1.tag, ["D", "E", "F"][2..]) == None;
    assert FirstTagged(g1.tag, ["D", "E", "F"][1..]) == None;
    assert FirstTagged(g1.tag, ["D", "E", "F"]) == None;
    RetagFacts(g1.tag, ["D", "E", "F"], 2);
  }

  /** Tags are overwritten, so one account can be a member of two cycle
      rings: the third cycle below touches ring 1 at A but joins ring 2,
      the ring of its first tagged node E. */
  lemma OverlappingRings()
    ensures var g := Group([["A", "B", "C"], ["D", "E", "F"], ["E", "G", "A"]]).rings;
      |g| == 2 && "A" in Members(g[0]) && "A" in Members(g[1])
  {
    var p := [["A", "B", "C"], ["D", "E", "F"], ["E", "G", "A"]];
    assert p[..2] == [["A", "B", "C"], ["D", "E", "F"]];
    OverlapPrefix();
    var g2 := Group(p[..2]);
    assert FirstTagged(g2.tag, ["E", "G", "A"]) == Some(2);
    var g3 := Group(p);
    assert g3 == Step(g2, ["E", "G", "A"]);
    assert [["D", "E", "F"]] + [["E", "G", "A"]] == [["D", "E", "F"], ["E", "G", "A"]];
    assert g3.rings == [Ring(1, [["A", "B", "C"]]), Ring(2, [["D", "E", "F"], ["E", "G", "A"]])];
    var r1 := g3.rings[0].paths;
    assert r1[..0] == [];
    assert Touched(r1) == Touched([]) + Elems(["A", "B", "C"]);
    var r2 := g3.rings[1].paths;
    assert r2[..1] == [["D", "E", "F"]];
    assert Touched(r2) == Touched(r2[..1]) + Elems(["E", "G", "A"]);
  }
}
