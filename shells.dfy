/** Layered shell detection (backend/services/shell_detection.py): simple
    directed paths of exactly L nodes, L = m, m + 1, m + 2, whose interior
    nodes have low total degree, kept once per node set and grouped into
    rings by the greedy rule of Rings. */
module Shells {
  import opened Common
  import opened Graph
  import opened Rings

  /** The search state the DFS mutates: the `chains` list and the
      `visited_chains` set of node sets. */
  datatype Search = Search(chains: seq<seq<string>>, visited: set<set<string>>)

  /** `is_valid_intermediate` for every interior position
      (shell_detection.py:40-45,53-56): in-degree plus out-degree at most
      `maxDegree`. */
  predicate ValidInterior(g: Graph, chain: seq<string>, maxDegree: int) {
    forall i :: 1 <= i < |chain| - 1 ==> InDegree(g, chain[i]) + OutDegree(g, chain[i]) <= maxDegree
  }

  /** A chain of the target length: recorded unless its node set was
      already recorded; the node set is marked only on success. The key
      `tuple(sorted(chain))` of a repetition-free chain is its node set. */
  function Record(g: Graph, maxDegree: int, chain: seq<string>, st: Search): Search {
    if Elems(chain) !in st.visited && ValidInterior(g, chain, maxDegree) then
      Search(st.chains + [chain], st.visited + {Elems(chain)})
    else st
  }

  /** `dfs_chain(chain[-1], chain, target)`. */
  function Explore(g: Graph, maxDegree: int, chain: seq<string>, target: nat, st: Search): Search
    requires chain != []
    decreases if |chain| < target then target - |chain| else 0, 1, 0
  {
    if |chain| >= target then
      if |chain| == target then Record(g, maxDegree, chain, st) else st
    else
      ExploreAll(g, maxDegree, chain, target, Successors(g, chain[|chain| - 1]), st)
  }

  /** The successor loop of `dfs_chain` over the first |out| successors. */
  function ExploreAll(g: Graph, maxDegree: int, chain: seq<string>, target: nat, out: seq<string>, st: Search): Search
    requires chain != [] && |chain| < target
    decreases target - |chain|, 0, |out|
  {
    if out == [] then st
    else
      var st' := ExploreAll(g, maxDegree, chain, target, out[..|out| - 1], st);
      var n := out[|out| - 1];
      if n in chain then st' else Explore(g, maxDegree, chain + [n], target, st')
  }

  /** `[n for n in ns if G.out_degree(n) > 0]`. */
  function WithOutEdges(g: Graph, ns: seq<string>): (r: seq<string>)
    ensures forall n :: n in r <==> n in ns && OutDegree(g, n) > 0
  {
    if ns == [] then []
    else
      var n := ns[|ns| - 1];
      assert ns == ns[..|ns| - 1] + [n];
      WithOutEdges(g, ns[..|ns| - 1]) + (if OutDegree(g, n) > 0 then [n] else [])
  }

  /** `potential_starts`: the nodes with an out-edge, in sorted order. */
  function Starts(g: Graph): seq<string> {
    WithOutEdges(g, SortStrings(g.nodes))
  }

  /** `for start in potential_starts: dfs_chain(start, [start], target)`. */
  function RunStarts(g: Graph, maxDegree: int, starts: seq<string>, target: nat, st: Search): Search {
    if starts == [] then st
    else
      var s := starts[|starts| - 1];
      Explore(g, maxDegree, [s], target, RunStarts(g, maxDegree, starts[..|starts| - 1], target, st))
  }

  /** The passes for the first `n` target lengths `lo`, `lo + 1`, .... */
  function RunLengths(g: Graph, maxDegree: int, starts: seq<string>, lo: nat, n: nat): Search {
    if n == 0 then Search([], {})
    else RunStarts(g, maxDegree, starts, lo + n - 1, RunLengths(g, maxDegree, starts, lo, n - 1))
  }

  /** The chains `detect_layered_shells` groups, in discovery order. */
  function ShellChains(g: Graph, minLength: nat, maxDegree: int): seq<seq<string>> {
    RunLengths(g, maxDegree, Starts(g), minLength, 3).chains
  }

  /** The DFS with its mutable `chains` list and `visited_chains` set. */
  class ChainSearch {
    const g: Graph
    const maxDegree: int
    var chains: seq<seq<string>>
    var visited: set<set<string>>

    function State(): Search
      reads this
    {
      Search(chains, visited)
    }

    constructor (g: Graph, maxDegree: int)
      ensures this.g == g && this.maxDegree == maxDegree
      ensures State() == Search([], {})
    {
      this.g := g;
      this.maxDegree := maxDegree;
      chains := [];
      visited := {};
    }

    /** `dfs_chain(current, chain, target)`. The `append`/`pop` pair
        around the recursive call is passing `chain + [neighbor]`. */
    method DfsChain(current: string, chain: seq<string>, target: nat)
      requires chain != [] && current == chain[|chain| - 1]
      modifies this
      ensures State() == Explore(g, maxDegree, chain, target, old(State()))
      decreases if |chain| < target then target - |chain| else 0
    {
      if |chain| >= target {
        if |chain| == target {
          var key := Elems(chain);
          if key !in visited && ValidInterior(g, chain, maxDegree) {
            chains := chains + [chain];
            visited := visited + {key};
          }
        }
        return;
      }
      var out := Successors(g, current);
      for k := 0 to |out|
        invariant State() == ExploreAll(g, maxDegree, chain, target, out[..k], old(State()))
      {
        var neighbor := out[k];
        assert out[..k + 1][..k] == out[..k];
        if neighbor !in chain {
          DfsChain(neighbor, chain + [neighbor], target);
        }
      }
      assert out[..|out|] == out;
    }
  }

  /** `for start in potential_starts: dfs_chain(start, [start], length)`. */
  method SearchFromStarts(search: ChainSearch, starts: seq<string>, length: nat)
    modifies search
    ensures search.State() == RunStarts(search.g, search.maxDegree, starts, length, old(search.State()))
  {
    for k := 0 to |starts|
      invariant search.State() == RunStarts(search.g, search.maxDegree, starts[..k], length, old(search.State()))
    {
      assert starts[..k + 1][..k] == starts[..k];
      search.DfsChain(starts[k], [starts[k]], length);
    }
    assert starts[..|starts|] == starts;
  }

  /** `for length in range(m, m + 3): for start in potential_starts: ...`. */
  method SearchChains(g: Graph, maxDegree: int, starts: seq<string>, minLength: nat) returns (chains: seq<seq<string>>)
    ensures chains == RunLengths(g, maxDegree, starts, minLength, 3).chains
  {
    var search := new ChainSearch(g, maxDegree);
    for n := 0 to 3
      invariant search.g == g && search.maxDegree == maxDegree
      invariant search.State() == RunLengths(g, maxDegree, starts, minLength, n)
    {
      SearchFromStarts(search, starts, minLength + n);
    }
    chains := search.chains;
  }

  /** `detect_layered_shells`. */
  method DetectLayeredShells(g: Graph, minLength: nat, maxDegree: int) returns (rings: seq<Ring>)
    ensures ShellChains(g, minLength, maxDegree) == [] ==> rings == []
    ensures rings == Group(ShellChains(g, minLength, maxDegree)).rings
  {
    var starts := Starts(g);
    var chains := SearchChains(g, maxDegree, starts, minLength);
    if chains == [] {
      return [];
    }
    rings := GroupIntoRings(chains);
  }

  /** `get_shell_pattern_label`. */
  function ShellLabel(length: nat): (s: string)
    ensures StartsWith(s, "layered_shell_")
  {
    "layered_shell_" + NatToString(length) + "hop"
  }
}

/** What the shell chains are: simple paths of the three target lengths
    with low-degree interiors, one per node set, in order of length and
    then of start node. */
module ShellFacts {
  import opened Common
  import opened Graph
  import opened Rings
  import opened RingFacts
  import opened RingOrder
  import opened Shells

  /** `c` visits distinct nodes of `g`, each followed by an edge to the
      next. */
  ghost predicate IsSimplePath(g: Graph, c: seq<string>) {
    && |c| > 0
    && Distinct(c)
    && (forall i :: 0 <= i < |c| ==> c[i] in g.succ)
    && (forall i :: 0 <= i < |c| - 1 ==> HasEdge(g, c[i], c[i + 1]))
  }

  /** The chain property the search keeps, plus `visited_chains` being
      exactly the node sets of the recorded chains. */
  ghost predicate Sound(g: Graph, maxDegree: int, lo: nat, hi: nat, st: Search) {
    && (forall c :: c in st.chains ==> lo <= |c| <= hi && IsSimplePath(g, c) && ValidInterior(g, c, maxDegree))
    && st.visited == (set c | c in st.chains :: Elems(c))
    && (forall i, j :: 0 <= i < j < |st.chains| ==> Elems(st.chains[i]) != Elems(st.chains[j]))
  }

  /** A chain is recorded exactly when no recorded chain has its node set
      and its interior is valid; a node set met only on an invalid chain
      stays free. */
  lemma RecordRule(g: Graph, maxDegree: int, lo: nat, hi: nat, chain: seq<string>, st: Search)
    requires Sound(g, maxDegree, lo, hi, st)
    ensures var st' := Record(g, maxDegree, chain, st);
      if (forall c :: c in st.chains ==> Elems(c) != Elems(chain)) && ValidInterior(g, chain, maxDegree) then
        st'.chains == st.chains + [chain] && st'.visited == st.visited + {Elems(chain)}
      else st' == st
  {
  }

  lemma RecordSound(g: Graph, maxDegree: int, lo: nat, hi: nat, chain: seq<string>, st: Search)
    requires Sound(g, maxDegree, lo, hi, st)
    requires lo <= |chain| <= hi && IsSimplePath(g, chain)
    ensures Sound(g, maxDegree, lo, hi, Record(g, maxDegree, chain, st))
  {
    var st' := Record(g, maxDegree, chain, st);
    if st' != st {
      assert st'.chains == st.chains + [chain];
      forall i, j | 0 <= i < j < |st'.chains| ensures Elems(st'.chains[i]) != Elems(st'.chains[j]) {
        if j == |st.chains| {
          assert st.chains[i] in st.chains;
        }
      }
    }
  }

  lemma {:induction false} ExploreSound(g: Graph, maxDegree: int, lo: nat, hi: nat, chain: seq<string>, target: nat, st: Search)
    requires WellFormed(g) && IsSimplePath(g, chain) && lo <= target <= hi
    requires Sound(g, maxDegree, lo, hi, st)
    ensures Sound(g, maxDegree, lo, hi, Explore(g, maxDegree, chain, target, st))
    decreases if |chain| < target then target - |chain| else 0, 1, 0
  {
    if |chain| == target {
      RecordSound(g, maxDegree, lo, hi, chain, st);
    } else if |chain| < target {
      var last := chain[|chain| - 1];
      ExploreAllSound(g, maxDegree, lo, hi, chain, target, Successors(g, last), st);
    }
  }

  lemma {:induction false} ExploreAllSound(g: Graph, maxDegree: int, lo: nat, hi: nat, chain: seq<string>, target: nat, out: seq<string>, st: Search)
    requires WellFormed(g) && IsSimplePath(g, chain) && lo <= target <= hi && |chain| < target
    requires forall n :: n in out ==> n in Successors(g, chain[|chain| - 1])
    requires Sound(g, maxDegree, lo, hi, st)
    ensures Sound(g, maxDegree, lo, hi, ExploreAll(g, maxDegree, chain, target, out, st))
    decreases target - |chain|, 0, |out|
  {
    if out != [] {
      var pre := out[..|out| - 1];
      var n := out[|out| - 1];
      assert forall m :: m in pre ==> m in out;
      assert n in out;
      ExploreAllSound(g, maxDegree, lo, hi, chain, target, pre, st);
      if n !in chain {
        GrowPath(g, chain, n);
        ExploreSound(g, maxDegree, lo, hi, chain + [n], target, ExploreAll(g, maxDegree, chain, target, pre, st));
      }
    }
  }

  /** Stepping to a successor outside the chain keeps a simple path. */
  lemma GrowPath(g: Graph, chain: seq<string>, n: string)
    requires WellFormed(g) && IsSimplePath(g, chain)
    requires n in Successors(g, chain[|chain| - 1]) && n !in chain
    ensures IsSimplePath(g, chain + [n])
  {
    var c := chain + [n];
    var last := chain[|chain| - 1];
    assert n in Elems(g.succ[last]);
    assert HasEdge(g, c[|chain| - 1], c[|chain|]);
  }

  /** Chain `a` is discovered no later than `b`: shorter, or as long and
      from a start that sorts no later. */
  predicate Before(a: seq<string>, b: seq<string>) {
    |a| < |b| || (|a| == |b| && a != [] && b != [] && StrLe(a[0], b[0]))
  }

  ghost predicate Ordered(st: Search) {
    forall i, j :: 0 <= i < j < |st.chains| ==> Before(st.chains[i], st.chains[j])
  }

  /** Every recorded chain is shorter than `target`, or as long and from a
      start no later than `s`. */
  ghost predicate Bounded(st: Search, target: nat, s: string) {
    forall c :: c in st.chains ==> c != [] && (|c| < target || (|c| == target && StrLe(c[0], s)))
  }

  lemma {:induction false} ExploreOrdered(g: Graph, maxDegree: int, chain: seq<string>, target: nat, st: Search)
    requires chain != [] && Ordered(st) && Bounded(st, target, chain[0])
    ensures Ordered(Explore(g, maxDegree, chain, target, st)) && Bounded(Explore(g, maxDegree, chain, target, st), target, chain[0])
    decreases if |chain| < target then target - |chain| else 0, 1, 0
  {
    if |chain| == target {
      StrLeReflexive(chain[0]);
      var st' := Record(g, maxDegree, chain, st);
      if st' != st {
        forall i, j | 0 <= i < j < |st'.chains| ensures Before(st'.chains[i], st'.chains[j]) {
          if j == |st.chains| {
            assert st.chains[i] in st.chains;
          }
        }
      }
    } else if |chain| < target {
      ExploreAllOrdered(g, maxDegree, chain, target, Successors(g, chain[|chain| - 1]), st);
    }
  }

  lemma {:induction false} ExploreAllOrdered(g: Graph, maxDegree: int, chain: seq<string>, target: nat, out: seq<string>, st: Search)
    requires chain != [] && |chain| < target && Ordered(st) && Bounded(st, target, chain[0])
    ensures Ordered(ExploreAll(g, maxDegree, chain, target, out, st)) && Bounded(ExploreAll(g, maxDegree, chain, target, out, st), target, chain[0])
    decreases target - |chain|, 0, |out|
  {
    if out != [] {
      var pre := out[..|out| - 1];
      var n := out[|out| - 1];
      ExploreAllOrdered(g, maxDegree, chain, target, pre, st);
      if n !in chain {
        assert (chain + [n])[0] == chain[0];
        ExploreOrdered(g, maxDegree, chain + [n], target, ExploreAll(g, maxDegree, chain, target, pre, st));
      }
    }
  }

  lemma BoundedWeaken(st: Search, target: nat, s: string, s': string)
    requires Bounded(st, target, s) && StrLe(s, s')
    ensures Bounded(st, target, s')
  {
    forall c | c in st.chains && |c| == target ensures StrLe(c[0], s') {
      StrLeTransitive(c[0], s, s');
    }
  }

  lemma {:induction false} RunStartsFacts(g: Graph, maxDegree: int, lo: nat, hi: nat, starts: seq<string>, target: nat, st: Search, bound: string)
    requires WellFormed(g) && lo <= target <= hi
    requires forall k :: 0 <= k < |starts| ==> starts[k] in g.succ && StrLe(starts[k], bound)
    requires forall i, j :: 0 <= i < j < |starts| ==> StrLe(starts[i], starts[j])
    requires Sound(g, maxDegree, lo, hi, st) && Ordered(st)
    requires forall c :: c in st.chains ==> c != [] && |c| < target
    ensures Sound(g, maxDegree, lo, hi, RunStarts(g, maxDegree, starts, target, st))
    ensures Ordered(RunStarts(g, maxDegree, starts, target, st)) && Bounded(RunStarts(g, maxDegree, starts, target, st), target, bound)
  {
    if starts != [] {
      var pre := starts[..|starts| - 1];
      var s := starts[|starts| - 1];
      RunStartsFacts(g, maxDegree, lo, hi, pre, target, st, s);
      var mid := RunStarts(g, maxDegree, pre, target, st);
      ExploreSound(g, maxDegree, lo, hi, [s], target, mid);
      ExploreOrdered(g, maxDegree, [s], target, mid);
      BoundedWeaken(Explore(g, maxDegree, [s], target, mid), target, s, bound);
    }
  }

  /** In an ascending sequence every element is at most the last. */
  lemma BelowLast(starts: seq<string>)
    requires starts != []
    requires forall i, j :: 0 <= i < j < |starts| ==> StrLe(starts[i], starts[j])
    ensures forall k :: 0 <= k < |starts| ==> StrLe(starts[k], starts[|starts| - 1])
  {
    StrLeReflexive(starts[|starts| - 1]);
  }

  lemma {:induction false} RunLengthsFacts(g: Graph, maxDegree: int, starts: seq<string>, lo: nat, n: nat)
    requires WellFormed(g) && n <= 3
    requires forall k :: 0 <= k < |starts| ==> starts[k] in g.succ
    requires forall i, j :: 0 <= i < j < |starts| ==> StrLe(starts[i], starts[j])
    ensures Sound(g, maxDegree, lo, lo + 2, RunLengths(g, maxDegree, starts, lo, n))
    ensures Ordered(RunLengths(g, maxDegree, starts, lo, n))
    ensures forall c :: c in RunLengths(g, maxDegree, starts, lo, n).chains ==> c != [] && |c| < lo + n
  {
    if n > 0 {
      RunLengthsFacts(g, maxDegree, starts, lo, n - 1);
      var st := RunLengths(g, maxDegree, starts, lo, n - 1);
      var bound := if starts == [] then "" else starts[|starts| - 1];
      if starts != [] { BelowLast(starts); }
      RunStartsFacts(g, maxDegree, lo, lo + 2, starts, lo + n - 1, st, bound);
      assert RunLengths(g, maxDegree, starts, lo, n) == RunStarts(g, maxDegree, starts, lo + n - 1, st);
    }
  }

  lemma StartsFacts(g: Graph)
    requires WellFormed(g)
    ensures forall k :: 0 <= k < |Starts(g)| ==> Starts(g)[k] in g.succ && OutDegree(g, Starts(g)[k]) > 0
    ensures forall i, j :: 0 <= i < j < |Starts(g)| ==> StrLe(Starts(g)[i], Starts(g)[j])
  {
    var sorted := SortStrings(g.nodes);
    forall n | n in sorted ensures n in g.succ {
      assert n in multiset(sorted);
    }
    FilterKeepsOrder(g, sorted);
  }

  lemma {:induction false} FilterKeepsOrder(g: Graph, ns: seq<string>)
    requires forall i, j :: 0 <= i < j < |ns| ==> StrLe(ns[i], ns[j])
    ensures forall i, j :: 0 <= i < j < |WithOutEdges(g, ns)| ==> StrLe(WithOutEdges(g, ns)[i], WithOutEdges(g, ns)[j])
  {
    if ns != [] {
      var pre := ns[..|ns| - 1];
      FilterKeepsOrder(g, pre);
      var r := WithOutEdges(g, pre);
      forall k | 0 <= k < |r| ensures StrLe(r[k], ns[|ns| - 1]) {
        assert r[k] in pre;
        var m :| 0 <= m < |pre| && pre[m] == r[k];
      }
    }
  }

  /** The chains of `detect_layered_shells`: node count in
      `[minLength, minLength + 2]`, simple directed paths, valid
      interiors, distinct node sets, discovered by length and then by start
      node. */
  lemma ShellChainsFacts(g: Graph, minLength: nat, maxDegree: int)
    requires WellFormed(g)
    ensures var cs := ShellChains(g, minLength, maxDegree);
      && (forall c :: c in cs ==> minLength <= |c| <= minLength + 2 && IsSimplePath(g, c) && ValidInterior(g, c, maxDegree))
      && (forall i, j :: 0 <= i < j < |cs| ==> Elems(cs[i]) != Elems(cs[j]))
      && (forall i, j :: 0 <= i < j < |cs| ==> Before(cs[i], cs[j]))
  {
    StartsFacts(g);
    RunLengthsFacts(g, maxDegree, Starts(g), minLength, 3);
  }

  /** The shell rings: every chain in them is a recorded chain, each ring
      keeps discovery order, ids run 1, 2, ..., and the rings hold every
      chain once. */
  lemma ShellRingsFacts(g: Graph, minLength: nat, maxDegree: int)
    requires WellFormed(g)
    ensures var rings := Group(ShellChains(g, minLength, maxDegree)).rings;
      && (forall r, c :: r in rings && c in r.paths ==> c in ShellChains(g, minLength, maxDegree))
      && (forall r :: r in rings ==> r.paths != [] && SortedBy(r.paths, Before))
      && (forall j :: 0 <= j < |rings| ==> rings[j].id == j + 1)
      && TotalPaths(rings) == |ShellChains(g, minLength, maxDegree)|
  {
    var cs := ShellChains(g, minLength, maxDegree);
    ShellChainsFacts(g, minLength, maxDegree);
    GroupPathsFromInput(cs, Before);
    GroupValid(cs);
    GroupTotal(cs);
  }

  // ---------------------------------------------------------------------
  // Completeness: every qualifying path has its node set recorded.
  // ---------------------------------------------------------------------

  /** `visited_chains` only grows during the search. */
  lemma {:induction false} ExploreGrows(g: Graph, maxDegree: int, chain: seq<string>, target: nat, st: Search)
    requires chain != []
    ensures st.visited <= Explore(g, maxDegree, chain, target, st).visited
    decreases if |chain| < target then target - |chain| else 0, 1, 0
  {
    if |chain| < target {
      ExploreAllGrows(g, maxDegree, chain, target, Successors(g, chain[|chain| - 1]), st);
    }
  }

  lemma {:induction false} ExploreAllGrows(g: Graph, maxDegree: int, chain: seq<string>, target: nat, out: seq<string>, st: Search)
    requires chain != [] && |chain| < target
    ensures st.visited <= ExploreAll(g, maxDegree, chain, target, out, st).visited
    decreases target - |chain|, 0, |out|
  {
    if out != [] {
      var pre := out[..|out| - 1];
      var n := out[|out| - 1];
      ExploreAllGrows(g, maxDegree, chain, target, pre, st);
      if n !in chain {
        ExploreGrows(g, maxDegree, chain + [n], target, ExploreAll(g, maxDegree, chain, target, pre, st));
      }
    }
  }

  lemma {:induction false} RunStartsGrows(g: Graph, maxDegree: int, starts: seq<string>, target: nat, st: Search)
    ensures st.visited <= RunStarts(g, maxDegree, starts, target, st).visited
  {
    if starts != [] {
      var pre := starts[..|starts| - 1];
      RunStartsGrows(g, maxDegree, pre, target, st);
      ExploreGrows(g, maxDegree, [starts[|starts| - 1]], target, RunStarts(g, maxDegree, pre, target, st));
    }
  }

  /** A simple path of the target length with a valid interior, once its
      first k nodes are on the DFS stack, has its node set visited when that
      call returns: either recorded or already recorded. */
  lemma {:induction false} ExploreFinds(g: Graph, maxDegree: int, c: seq<string>, k: nat, target: nat, st: Search)
    requires WellFormed(g) && IsSimplePath(g, c) && ValidInterior(g, c, maxDegree) && |c| == target
    requires 1 <= k <= |c|
    ensures Elems(c) in Explore(g, maxDegree, c[..k], target, st).visited
    decreases target - k, 1, 0
  {
    if k == target {
      assert c[..k] == c;
    } else {
      var last := c[k - 1];
      assert c[..k][k - 1] == last;
      assert HasEdge(g, c[k - 1], c[k]);
      assert c[k] in Successors(g, last);
      ExploreAllFinds(g, maxDegree, c, k, target, Successors(g, last), st);
    }
  }

  lemma {:induction false} ExploreAllFinds(g: Graph, maxDegree: int, c: seq<string>, k: nat, target: nat, out: seq<string>, st: Search)
    requires WellFormed(g) && IsSimplePath(g, c) && ValidInterior(g, c, maxDegree) && |c| == target
    requires 1 <= k < |c| && c[k] in out
    ensures Elems(c) in ExploreAll(g, maxDegree, c[..k], target, out, st).visited
    decreases target - k, 0, |out|
  {
    var pre := out[..|out| - 1];
    var n := out[|out| - 1];
    var chain := c[..k];
    var st' := ExploreAll(g, maxDegree, chain, target, pre, st);
    if n == c[k] {
      assert n !in chain by {
        forall m | 0 <= m < k ensures chain[m] != n {
          assert c[m] != c[k];
        }
      }
      assert chain + [n] == c[..k + 1];
      ExploreFinds(g, maxDegree, c, k + 1, target, st');
    } else {
      assert out == pre + [n];
      assert c[k] in pre;
      ExploreAllFinds(g, maxDegree, c, k, target, pre, st);
      if n !in chain {
        ExploreGrows(g, maxDegree, chain + [n], target, st');
      }
    }
  }

  lemma {:induction false} RunStartsFinds(g: Graph, maxDegree: int, starts: seq<string>, target: nat, st: Search, c: seq<string>)
    requires WellFormed(g) && IsSimplePath(g, c) && ValidInterior(g, c, maxDegree) && |c| == target
    requires c[0] in starts
    ensures Elems(c) in RunStarts(g, maxDegree, starts, target, st).visited
  {
    var pre := starts[..|starts| - 1];
    var s := starts[|starts| - 1];
    var mid := RunStarts(g, maxDegree, pre, target, st);
    if s == c[0] {
      assert [s] == c[..1];
      ExploreFinds(g, maxDegree, c, 1, target, mid);
    } else {
      assert starts == pre + [s];
      assert c[0] in pre;
      RunStartsFinds(g, maxDegree, pre, target, st, c);
      ExploreGrows(g, maxDegree, [s], target, mid);
    }
  }

  lemma {:induction false} RunLengthsFinds(g: Graph, maxDegree: int, starts: seq<string>, lo: nat, n: nat, c: seq<string>)
    requires WellFormed(g) && IsSimplePath(g, c) && ValidInterior(g, c, maxDegree)
    requires lo <= |c| < lo + n && c[0] in starts
    ensures Elems(c) in RunLengths(g, maxDegree, starts, lo, n).visited
  {
    var st := RunLengths(g, maxDegree, starts, lo, n - 1);
    if |c| == lo + n - 1 {
      RunStartsFinds(g, maxDegree, starts, lo + n - 1, st, c);
    } else {
      RunLengthsFinds(g, maxDegree, starts, lo, n - 1, c);
      RunStartsGrows(g, maxDegree, starts, lo + n - 1, st);
    }
  }

  /** The first node of a path with an edge is a potential start. */
  lemma StartOfPath(g: Graph, c: seq<string>)
    requires WellFormed(g) && IsSimplePath(g, c) && |c| >= 2
    ensures c[0] in Starts(g)
  {
    assert c[0] in Elems(g.nodes);
    var sorted := SortStrings(g.nodes);
    assert c[0] in multiset(sorted);
    assert HasEdge(g, c[0], c[1]);
    assert c[1] in g.succ[c[0]];
  }

  /** The search misses nothing: every simple path of `minLength` to
      `minLength + 2` nodes (at least two, so that its start has an
      out-edge) whose interior nodes have low degree has its node set
      among the chains. */
  lemma ShellChainsComplete(g: Graph, minLength: nat, maxDegree: int, c: seq<string>)
    requires WellFormed(g)
    requires IsSimplePath(g, c) && |c| >= 2 && minLength <= |c| <= minLength + 2 && ValidInterior(g, c, maxDegree)
    ensures exists c' :: c' in ShellChains(g, minLength, maxDegree) && Elems(c') == Elems(c)
  {
    StartOfPath(g, c);
    RunLengthsFinds(g, maxDegree, Starts(g), minLength, 3, c);
    StartsFacts(g);
    RunLengthsFacts(g, maxDegree, Starts(g), minLength, 3);
    var st := RunLengths(g, maxDegree, Starts(g), minLength, 3);
    assert Elems(c) in (set x | x in st.chains :: Elems(x));
    var c' :| c' in st.chains && Elems(c') == Elems(c);
  }

  /** The same for the shell rings: such a path's node set is the node set
      of a chain in some ring. */
  lemma ShellRingsComplete(g: Graph, minLength: nat, maxDegree: int, c: seq<string>)
    requires WellFormed(g)
    requires IsSimplePath(g, c) && |c| >= 2 && minLength <= |c| <= minLength + 2 && ValidInterior(g, c, maxDegree)
    ensures var rings := Group(ShellChains(g, minLength, maxDegree)).rings;
      exists j, c' :: 0 <= j < |rings| && c' in rings[j].paths && Elems(c') == Elems(c)
  {
    var cs := ShellChains(g, minLength, maxDegree);
    ShellChainsComplete(g, minLength, maxDegree, c);
    var c' :| c' in cs && Elems(c') == Elems(c);
    var i :| 0 <= i < |cs| && cs[i] == c';
    GroupCovers(cs, i);
    var j :| 0 <= j < |Group(cs).rings| && cs[i] in Group(cs).rings[j].paths;
  }

  /** Different lengths give different labels. */
  lemma ShellLabelInjective(a: nat, b: nat)
    requires ShellLabel(a) == ShellLabel(b)
    ensures a == b
  {
    var sa, sb := NatToString(a), NatToString(b);
    assert ShellLabel(a) == "layered_shell_" + sa + "hop";
    assert sa == ShellLabel(a)[14..|ShellLabel(a)| - 3];
    assert sb == ShellLabel(b)[14..|ShellLabel(b)| - 3];
    NatToStringInjective(a, b);
  }
}
