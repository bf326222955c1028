/** Consolidation of cycle and shell rings
    (backend/services/detection_engine.py:49-85): cycles take priority, so
    shell chains touching a cycle account are dropped, rings left empty are
    removed, surviving shell rings are renumbered after the cycle rings,
    and every account is mapped to one ring. */
module Consolidation {
  import opened Common
  import opened Rings
  import opened RingFacts

  /** Every account of every path of every ring; for the cycle rings this
      is `cycle_accounts_set`. */
  function AllMembers(rings: seq<Ring>): set<string> {
    if rings == [] then {} else AllMembers(rings[..|rings| - 1]) + Members(rings[|rings| - 1])
  }

  // ---------------------------------------------------------------------
  // Shell filter (detection_engine.py:50-62)
  // ---------------------------------------------------------------------

  /** `[chain for chain in chains if all(acct not in avoid for acct in chain)]`. */
  function Remaining(chains: seq<seq<string>>, avoid: set<string>): (r: seq<seq<string>>)
    ensures forall c :: c in r <==> c in chains && (forall a :: a in c ==> a !in avoid)
  {
    if chains == [] then []
    else
      var c := chains[|chains| - 1];
      assert chains == chains[..|chains| - 1] + [c];
      Remaining(chains[..|chains| - 1], avoid) + (if forall a :: a in c ==> a !in avoid then [c] else [])
  }

  /** `filtered_shell`: each ring with its remaining chains, rings left
      with none removed, dict order kept. */
  function Surviving(rings: seq<Ring>, avoid: set<string>): seq<Ring> {
    if rings == [] then []
    else
      var r := rings[|rings| - 1];
      var rest := Remaining(r.paths, avoid);
      Surviving(rings[..|rings| - 1], avoid) + (if rest != [] then [Ring(r.id, rest)] else [])
  }

  /** The filter loop over the shell ring dict. */
  method FilterShellRings(shellRings: seq<Ring>, avoid: set<string>) returns (filtered: seq<Ring>)
    ensures filtered == Surviving(shellRings, avoid)
  {
    filtered := [];
    for i := 0 to |shellRings|
      invariant filtered == Surviving(shellRings[..i], avoid)
    {
      assert shellRings[..i + 1][..i] == shellRings[..i];
      var remaining := Remaining(shellRings[i].paths, avoid);
      if remaining != [] {
        filtered := filtered + [Ring(shellRings[i].id, remaining)];
      }
    }
    assert shellRings[..|shellRings|] == shellRings;
  }

  /** `enumerate(shell_accounts.items(), start=start)`: ring i becomes
      ring `start + i`, its chains unchanged. */
  function Renumber(rings: seq<Ring>, start: nat): (r: seq<Ring>)
    ensures |r| == |rings|
  {
    if rings == [] then []
    else
      var pre := rings[..|rings| - 1];
      Renumber(pre, start) + [Ring(start + |pre|, rings[|rings| - 1].paths)]
  }

  // ---------------------------------------------------------------------
  // The account-to-ring map (detection_engine.py:65-85), as writes in
  // loop order: one (account, ring) pair per account of every path.
  // ---------------------------------------------------------------------

  function Pairs(path: seq<string>, id: nat): seq<(string, nat)> {
    if path == [] then [] else Pairs(path[..|path| - 1], id) + [(path[|path| - 1], id)]
  }

  function PathPairs(paths: seq<seq<string>>, id: nat): seq<(string, nat)> {
    if paths == [] then [] else PathPairs(paths[..|paths| - 1], id) + Pairs(paths[|paths| - 1], id)
  }

  function RingPairs(rings: seq<Ring>): seq<(string, nat)> {
    if rings == [] then [] else RingPairs(rings[..|rings| - 1]) + PathPairs(rings[|rings| - 1].paths, rings[|rings| - 1].id)
  }

  /** `map[account] = ring` for every pair in turn. */
  function Overwrite(m: map<string, nat>, ps: seq<(string, nat)>): map<string, nat> {
    if ps == [] then m
    else
      var p := ps[|ps| - 1];
      Overwrite(m, ps[..|ps| - 1])[p.0 := p.1]
  }

  /** `if account not in map: map[account] = ring` for every pair in turn. */
  function FillAbsent(m: map<string, nat>, ps: seq<(string, nat)>): map<string, nat> {
    if ps == [] then m
    else
      var p := ps[|ps| - 1];
      var m' := FillAbsent(m, ps[..|ps| - 1]);
      if p.0 in m' then m' else m'[p.0 := p.1]
  }

  lemma OverwriteSnoc(m: map<string, nat>, ps: seq<(string, nat)>, p: (string, nat))
    ensures Overwrite(m, ps + [p]) == Overwrite(m, ps)[p.0 := p.1]
  {
    assert (ps + [p])[..|ps|] == ps;
  }

  lemma FillAbsentSnoc(m: map<string, nat>, ps: seq<(string, nat)>, p: (string, nat))
    ensures FillAbsent(m, ps + [p]) == var m' := FillAbsent(m, ps); if p.0 in m' then m' else m'[p.0 := p.1]
  {
    assert (ps + [p])[..|ps|] == ps;
  }

  lemma {:induction false} OverwriteAppend(m: map<string, nat>, a: seq<(string, nat)>, b: seq<(string, nat)>)
    ensures Overwrite(m, a + b) == Overwrite(Overwrite(m, a), b)
    decreases |b|
  {
    if b != [] {
      var p := b[|b| - 1];
      var b' := b[..|b| - 1];
      assert b == b' + [p];
      assert a + b == (a + b') + [p];
      OverwriteSnoc(m, a + b', p);
      OverwriteAppend(m, a, b');
    } else {
      assert a + b == a;
    }
  }

  lemma {:induction false} FillAbsentAppend(m: map<string, nat>, a: seq<(string, nat)>, b: seq<(string, nat)>)
    ensures FillAbsent(m, a + b) == FillAbsent(FillAbsent(m, a), b)
    decreases |b|
  {
    if b != [] {
      var p := b[|b| - 1];
      var b' := b[..|b| - 1];
      assert b == b' + [p];
      assert a + b == (a + b') + [p];
      FillAbsentSnoc(m, a + b', p);
      FillAbsentAppend(m, a, b');
    } else {
      assert a + b == a;
    }
  }

  /** The innermost loop of lines 68-71: every account of one cycle is
      mapped to the cycle's ring. */
  method WritePath(m0: map<string, nat>, path: seq<string>, id: nat) returns (m: map<string, nat>)
    ensures m == Overwrite(m0, Pairs(path, id))
  {
    m := m0;
    for k := 0 to |path|
      invariant m == Overwrite(m0, Pairs(path[..k], id))
    {
      assert path[..k + 1][..k] == path[..k];
      OverwriteSnoc(m0, Pairs(path[..k], id), (path[k], id));
      m := m[path[k] := id];
    }
    assert path[..|path|] == path;
  }

  /** The middle loop of lines 68-71, over the cycles of one ring. */
  method WriteRing(m0: map<string, nat>, paths: seq<seq<string>>, id: nat) returns (m: map<string, nat>)
    ensures m == Overwrite(m0, PathPairs(paths, id))
  {
    m := m0;
    for j := 0 to |paths|
      invariant m == Overwrite(m0, PathPairs(paths[..j], id))
    {
      assert paths[..j + 1][..j] == paths[..j];
      OverwriteAppend(m0, PathPairs(paths[..j], id), Pairs(paths[j], id));
      m := WritePath(m, paths[j], id);
    }
    assert paths[..|paths|] == paths;
  }

  /** The loops over the cycle rings (detection_engine.py:68-71). */
  method MapCycleAccounts(cycleRings: seq<Ring>) returns (m: map<string, nat>)
    ensures m == Overwrite(map[], RingPairs(cycleRings))
  {
    m := map[];
    for i := 0 to |cycleRings|
      invariant m == Overwrite(map[], RingPairs(cycleRings[..i]))
    {
      assert cycleRings[..i + 1][..i] == cycleRings[..i];
      OverwriteAppend(map[], RingPairs(cycleRings[..i]), PathPairs(cycleRings[i].paths, cycleRings[i].id));
      m := WriteRing(m, cycleRings[i].paths, cycleRings[i].id);
    }
    assert cycleRings[..|cycleRings|] == cycleRings;
  }

  /** The innermost loop of lines 80-85: accounts of one chain not yet
      mapped are mapped to the chain's new ring. */
  method FillPath(m0: map<string, nat>, path: seq<string>, id: nat) returns (m: map<string, nat>)
    ensures m == FillAbsent(m0, Pairs(path, id))
  {
    m := m0;
    for k := 0 to |path|
      invariant m == FillAbsent(m0, Pairs(path[..k], id))
    {
      assert path[..k + 1][..k] == path[..k];
      FillAbsentSnoc(m0, Pairs(path[..k], id), (path[k], id));
      if path[k] !in m {
        m := m[path[k] := id];
      }
    }
    assert path[..|path|] == path;
  }

  /** The middle loop of lines 80-85, over the chains of one ring. */
  method FillRing(m0: map<string, nat>, paths: seq<seq<string>>, id: nat) returns (m: map<string, nat>)
    ensures m == FillAbsent(m0, PathPairs(paths, id))
  {
    m := m0;
    for j := 0 to |paths|
      invariant m == FillAbsent(m0, PathPairs(paths[..j], id))
    {
      assert paths[..j + 1][..j] == paths[..j];
      FillAbsentAppend(m0, PathPairs(paths[..j], id), Pairs(paths[j], id));
      m := FillPath(m, paths[j], id);
    }
    assert paths[..|paths|] == paths;
  }

  /** The renaming loop (detection_engine.py:74-85): ring i of the
      surviving shells becomes ring `start + i`, and each of its accounts
      not yet mapped is mapped to it. */
  method RenameShellRings(shells: seq<Ring>, start: nat, m0: map<string, nat>) returns (renamed: seq<Ring>, m: map<string, nat>)
    ensures renamed == Renumber(shells, start)
    ensures m == FillAbsent(m0, RingPairs(renamed))
  {
    renamed := [];
    m := m0;
    for i := 0 to |shells|
      invariant renamed == Renumber(shells[..i], start)
      invariant m == FillAbsent(m0, RingPairs(renamed))
    {
      assert shells[..i + 1][..i] == shells[..i];
      var newId := start + i;
      FillAbsentAppend(m0, RingPairs(renamed), PathPairs(shells[i].paths, newId));
      m := FillRing(m, shells[i].paths, newId);
      renamed := renamed + [Ring(newId, shells[i].paths)];
      assert renamed[..|renamed| - 1] == Renumber(shells[..i], start);
    }
    assert shells[..|shells|] == shells;
  }

  /** The shell rings after consolidation: filtered against the cycle
      accounts and numbered from `len(cycle_accounts) + 1`. */
  function FinalShells(cycleRings: seq<Ring>, shellRings: seq<Ring>): seq<Ring> {
    Renumber(Surviving(shellRings, AllMembers(cycleRings)), |cycleRings| + 1)
  }

  /** `account_ring_map`: cycle writes overwrite, shell writes fill in. */
  function AccountRings(cycleRings: seq<Ring>, shellRings: seq<Ring>): map<string, nat> {
    FillAbsent(Overwrite(map[], RingPairs(cycleRings)), RingPairs(FinalShells(cycleRings, shellRings)))
  }

  /** Lines 49-85 of `run_detection`: the surviving, renumbered shell rings
      and `account_ring_map`. */
  method Consolidate(cycleRings: seq<Ring>, shellRings: seq<Ring>) returns (shells: seq<Ring>, ringOf: map<string, nat>)
    ensures shells == FinalShells(cycleRings, shellRings)
    ensures ringOf == AccountRings(cycleRings, shellRings)
  {
    shells := shellRings;
    if shellRings != [] {
      var cycleAccounts := AllMembers(cycleRings);
      shells := FilterShellRings(shellRings, cycleAccounts);
    }
    ringOf := MapCycleAccounts(cycleRings);
    if shells != [] {
      shells, ringOf := RenameShellRings(shells, |cycleRings| + 1, ringOf);
    }
  }
}

/** What consolidation guarantees about the rings and the account map. */
module ConsolidationFacts {
  import opened Common
  import opened Rings
  import opened RingFacts
  import opened Consolidation

  lemma {:induction false} TouchedIff(paths: seq<seq<string>>, a: string)
    ensures a in Touched(paths) <==> exists p :: p in paths && a in p
  {
    if paths != [] {
      var pre := paths[..|paths| - 1];
      TouchedIff(pre, a);
      assert paths == pre + [paths[|paths| - 1]];
    }
  }

  lemma {:induction false} AllMembersIff(rings: seq<Ring>, a: string)
    ensures a in AllMembers(rings) <==> exists i :: 0 <= i < |rings| && a in Members(rings[i])
  {
    if rings != [] {
      var pre := rings[..|rings| - 1];
      AllMembersIff(pre, a);
      assert forall i :: 0 <= i < |pre| ==> pre[i] == rings[i];
    }
  }

  /** The last ring holding `a`: the one whose write to the map survives
      the overwriting loop. */
  function LastRingWith(rings: seq<Ring>, a: string): (i: nat)
    requires a in AllMembers(rings)
    ensures i < |rings| && a in Members(rings[i])
    ensures forall j :: i < j < |rings| ==> a !in Members(rings[j])
  {
    var n := |rings| - 1;
    if a in Members(rings[n]) then n
    else
      var pre := rings[..n];
      assert forall j :: 0 <= j < n ==> pre[j] == rings[j];
      LastRingWith(pre, a)
  }

  /** The first ring holding `a`: the one whose write survives the
      fill-if-absent loop. */
  function FirstRingWith(rings: seq<Ring>, a: string): (i: nat)
    requires a in AllMembers(rings)
    ensures i < |rings| && a in Members(rings[i])
    ensures forall j :: 0 <= j < i ==> a !in Members(rings[j])
  {
    var n := |rings| - 1;
    var pre := rings[..n];
    assert forall j :: 0 <= j < n ==> pre[j] == rings[j];
    if a in AllMembers(pre) then FirstRingWith(pre, a)
    else
      AllMembersIff(pre, a);
      n
  }

  // ---------------------------------------------------------------------
  // The shell filter
  // ---------------------------------------------------------------------

  /** Filtering keeps the chains' relative order, so a ring sorted by any
      order stays sorted. */
  lemma {:induction false} RemainingKeepsOrder(chains: seq<seq<string>>, avoid: set<string>, le: (seq<string>, seq<string>) -> bool)
    requires SortedBy(chains, le)
    ensures SortedBy(Remaining(chains, avoid), le)
  {
    if chains != [] {
      var n := |chains| - 1;
      var pre := chains[..n];
      assert SortedBy(pre, le);
      RemainingKeepsOrder(pre, avoid, le);
      var s := Remaining(pre, avoid);
      forall k | 0 <= k < |s| ensures le(s[k], chains[n]) {
        assert s[k] in pre;
        var m :| 0 <= m < n && pre[m] == s[k];
      }
    }
  }

  /** Each surviving ring keeps its id and exactly the chains of its
      original ring that touch no avoided account, and is non-empty; and
      every ring with such a chain survives. */
  lemma {:induction false} SurvivingFacts(rings: seq<Ring>, avoid: set<string>)
    ensures forall r :: r in Surviving(rings, avoid) ==>
      r.paths != [] && exists r0 :: r0 in rings && r0.id == r.id && r.paths == Remaining(r0.paths, avoid)
    ensures forall r0 :: r0 in rings && Remaining(r0.paths, avoid) != [] ==>
      Ring(r0.id, Remaining(r0.paths, avoid)) in Surviving(rings, avoid)
  {
    if rings != [] {
      var pre := rings[..|rings| - 1];
      SurvivingFacts(pre, avoid);
      assert rings == pre + [rings[|rings| - 1]];
    }
  }

  lemma {:induction false} RenumberFacts(rings: seq<Ring>, start: nat)
    ensures forall i :: 0 <= i < |rings| ==> Renumber(rings, start)[i] == Ring(start + i, rings[i].paths)
  {
    if rings != [] {
      var pre := rings[..|rings| - 1];
      RenumberFacts(pre, start);
      assert forall i :: 0 <= i < |pre| ==> pre[i] == rings[i];
    }
  }

  // ---------------------------------------------------------------------
  // The pair sequences behind the account map
  // ---------------------------------------------------------------------

  function Accounts(ps: seq<(string, nat)>): set<string> {
    set p | p in ps :: p.0
  }

  /** Every pair of a uniform write sequence carries the same ring. */
  ghost predicate AllTo(ps: seq<(string, nat)>, id: nat) {
    forall p :: p in ps ==> p.1 == id
  }

  lemma {:induction false} PairsFacts(path: seq<string>, id: nat)
    ensures Accounts(Pairs(path, id)) == Elems(path) && AllTo(Pairs(path, id), id)
  {
    if path != [] {
      var pre := path[..|path| - 1];
      PairsFacts(pre, id);
      assert path == pre + [path[|path| - 1]];
      assert Elems(path) == Elems(pre) + {path[|path| - 1]};
      assert Pairs(path, id) == Pairs(pre, id) + [(path[|path| - 1], id)];
    }
  }

  lemma {:induction false} PathPairsFacts(paths: seq<seq<string>>, id: nat)
    ensures Accounts(PathPairs(paths, id)) == Touched(paths) && AllTo(PathPairs(paths, id), id)
  {
    if paths != [] {
      PathPairsFacts(paths[..|paths| - 1], id);
      PairsFacts(paths[|paths| - 1], id);
    }
  }

  /** Overwriting with one ring's writes maps its accounts to it and leaves
      the rest alone. */
  lemma {:induction false} OverwriteUniform(m: map<string, nat>, ps: seq<(string, nat)>, id: nat, a: string)
    requires AllTo(ps, id)
    ensures a in Overwrite(m, ps) <==> a in m || a in Accounts(ps)
    ensures a in Accounts(ps) ==> Overwrite(m, ps)[a] == id
    ensures a !in Accounts(ps) && a in m ==> Overwrite(m, ps)[a] == m[a]
  {
    if ps != [] {
      var pre := ps[..|ps| - 1];
      assert ps == pre + [ps[|ps| - 1]];
      OverwriteUniform(m, pre, id, a);
    }
  }

  /** Filling with one ring's writes maps its accounts not yet mapped to it
      and changes nothing already there. */
  lemma {:induction false} FillAbsentUniform(m: map<string, nat>, ps: seq<(string, nat)>, id: nat, a: string)
    requires AllTo(ps, id)
    ensures a in FillAbsent(m, ps) <==> a in m || a in Accounts(ps)
    ensures a in m ==> FillAbsent(m, ps)[a] == m[a]
    ensures a !in m && a in Accounts(ps) ==> FillAbsent(m, ps)[a] == id
  {
    if ps != [] {
      var pre := ps[..|ps| - 1];
      assert ps == pre + [ps[|ps| - 1]];
      FillAbsentUniform(m, pre, id, a);
    }
  }

  /** The cycle loop leaves each cycle account on the last ring holding
      it. */
  lemma {:induction false} OverwriteRings(rings: seq<Ring>, a: string)
    ensures a in Overwrite(map[], RingPairs(rings)) <==> a in AllMembers(rings)
    ensures a in AllMembers(rings) ==> Overwrite(map[], RingPairs(rings))[a] == rings[LastRingWith(rings, a)].id
  {
    if rings != [] {
      var n := |rings| - 1;
      var pre := rings[..n];
      OverwriteRings(pre, a);
      OverwriteAppend(map[], RingPairs(pre), PathPairs(rings[n].paths, rings[n].id));
      PathPairsFacts(rings[n].paths, rings[n].id);
      OverwriteUniform(Overwrite(map[], RingPairs(pre)), PathPairs(rings[n].paths, rings[n].id), rings[n].id, a);
      if a in AllMembers(rings) && a !in Members(rings[n]) {
        assert forall j :: 0 <= j < n ==> pre[j] == rings[j];
        assert LastRingWith(rings, a) == LastRingWith(pre, a);
      }
    }
  }

  /** The shell loop leaves already-mapped accounts alone and puts each
      new one on the first ring holding it. */
  lemma {:induction false} FillRings(m: map<string, nat>, rings: seq<Ring>, a: string)
    ensures a in FillAbsent(m, RingPairs(rings)) <==> a in m || a in AllMembers(rings)
    ensures a in m ==> FillAbsent(m, RingPairs(rings))[a] == m[a]
    ensures a !in m && a in AllMembers(rings) ==> FillAbsent(m, RingPairs(rings))[a] == rings[FirstRingWith(rings, a)].id
  {
    if rings != [] {
      var n := |rings| - 1;
      var pre := rings[..n];
      FillRings(m, pre, a);
      FillAbsentAppend(m, RingPairs(pre), PathPairs(rings[n].paths, rings[n].id));
      PathPairsFacts(rings[n].paths, rings[n].id);
      FillAbsentUniform(FillAbsent(m, RingPairs(pre)), PathPairs(rings[n].paths, rings[n].id), rings[n].id, a);
      if a !in m && a in AllMembers(rings) && a in AllMembers(pre) {
        assert forall j :: 0 <= j < n ==> pre[j] == rings[j];
        assert FirstRingWith(rings, a) == FirstRingWith(pre, a);
      }
    }
  }

  // ---------------------------------------------------------------------
  // The outcome
  // ---------------------------------------------------------------------

  /** Surviving shell rings are numbered consecutively after the cycle
      rings and are non-empty. */
  lemma FinalShellsNumbered(cycleRings: seq<Ring>, shellRings: seq<Ring>)
    ensures var shells := FinalShells(cycleRings, shellRings);
      forall i :: 0 <= i < |shells| ==> shells[i].id == |cycleRings| + 1 + i && shells[i].paths != []
  {
    var sv := Surviving(shellRings, AllMembers(cycleRings));
    SurvivingFacts(shellRings, AllMembers(cycleRings));
    RenumberFacts(sv, |cycleRings| + 1);
    forall i | 0 <= i < |sv| ensures sv[i].paths != [] {
      assert sv[i] in sv;
    }
  }

  /** Every surviving chain is a shell chain with no cycle account. */
  lemma FinalShellsFromInput(cycleRings: seq<Ring>, shellRings: seq<Ring>)
    ensures var shells := FinalShells(cycleRings, shellRings);
      forall s, c :: s in shells && c in s.paths ==>
        (exists r0 :: r0 in shellRings && c in r0.paths) && forall a :: a in c ==> a !in AllMembers(cycleRings)
  {
    var avoid := AllMembers(cycleRings);
    var sv := Surviving(shellRings, avoid);
    var shells := FinalShells(cycleRings, shellRings);
    SurvivingFacts(shellRings, avoid);
    RenumberFacts(sv, |cycleRings| + 1);
    forall s, c | s in shells && c in s.paths
      ensures (exists r0 :: r0 in shellRings && c in r0.paths) && forall a :: a in c ==> a !in avoid
    {
      var i :| 0 <= i < |shells| && shells[i] == s;
      assert sv[i] in sv;
    }
  }

  /** Every shell chain with no cycle account survives. */
  lemma FinalShellsKeep(cycleRings: seq<Ring>, shellRings: seq<Ring>)
    ensures var shells := FinalShells(cycleRings, shellRings);
      forall r0, c :: r0 in shellRings && c in r0.paths && (forall a :: a in c ==> a !in AllMembers(cycleRings)) ==>
        exists s :: s in shells && c in s.paths
  {
    var avoid := AllMembers(cycleRings);
    var sv := Surviving(shellRings, avoid);
    var shells := FinalShells(cycleRings, shellRings);
    SurvivingFacts(shellRings, avoid);
    RenumberFacts(sv, |cycleRings| + 1);
    forall r0, c | r0 in shellRings && c in r0.paths && (forall a :: a in c ==> a !in avoid)
      ensures exists s :: s in shells && c in s.paths
    {
      var r := Ring(r0.id, Remaining(r0.paths, avoid));
      assert c in r.paths;
      var i :| 0 <= i < |sv| && sv[i] == r;
      assert c in shells[i].paths;
    }
  }

  /** Surviving shell rings are numbered consecutively after the cycle
      rings, are non-empty, keep only chains with no cycle account, and
      keep every such chain. */
  lemma FinalShellsFacts(cycleRings: seq<Ring>, shellRings: seq<Ring>)
    ensures var shells := FinalShells(cycleRings, shellRings);
      && (forall i :: 0 <= i < |shells| ==> shells[i].id == |cycleRings| + 1 + i && shells[i].paths != [])
      && (forall s, c :: s in shells && c in s.paths ==>
            (exists r0 :: r0 in shellRings && c in r0.paths) && forall a :: a in c ==> a !in AllMembers(cycleRings))
      && (forall r0, c :: r0 in shellRings && c in r0.paths && (forall a :: a in c ==> a !in AllMembers(cycleRings)) ==>
            exists s :: s in shells && c in s.paths)
  {
    FinalShellsNumbered(cycleRings, shellRings);
    FinalShellsFromInput(cycleRings, shellRings);
    FinalShellsKeep(cycleRings, shellRings);
  }

  /** A ring sorted by any order stays sorted through consolidation. */
  lemma FinalShellsSorted(cycleRings: seq<Ring>, shellRings: seq<Ring>, le: (seq<string>, seq<string>) -> bool)
    requires forall r0 :: r0 in shellRings ==> SortedBy(r0.paths, le)
    ensures forall s :: s in FinalShells(cycleRings, shellRings) ==> SortedBy(s.paths, le)
  {
    var avoid := AllMembers(cycleRings);
    var sv := Surviving(shellRings, avoid);
    var shells := FinalShells(cycleRings, shellRings);
    SurvivingFacts(shellRings, avoid);
    RenumberFacts(sv, |cycleRings| + 1);
    forall s | s in shells ensures SortedBy(s.paths, le) {
      var i :| 0 <= i < |shells| && shells[i] == s;
      assert sv[i] in sv;
      var r0 :| r0 in shellRings && r0.id == sv[i].id && sv[i].paths == Remaining(r0.paths, avoid);
      RemainingKeepsOrder(r0.paths, avoid, le);
    }
  }

  /** With cycle rings numbered 1, 2, ... as cycle detection numbers
      them, no two final rings share a name. */
  lemma RingNamesDistinct(cycleRings: seq<Ring>, shellRings: seq<Ring>)
    requires forall j :: 0 <= j < |cycleRings| ==> cycleRings[j].id == j + 1
    ensures var shells := FinalShells(cycleRings, shellRings);
      && (forall r, s :: r in cycleRings && s in shells ==> RingName(r.id) != RingName(s.id))
      && (forall i, j :: 0 <= i < j < |shells| ==> RingName(shells[i].id) != RingName(shells[j].id))
  {
    var shells := FinalShells(cycleRings, shellRings);
    FinalShellsFacts(cycleRings, shellRings);
    forall a: nat, b: nat | RingName(a) == RingName(b) ensures a == b {
      RingNameInjective(a, b);
    }
  }

  /** A shell account is never a cycle account. */
  lemma ShellMemberNotCycle(cycleRings: seq<Ring>, shellRings: seq<Ring>, a: string)
    requires a in AllMembers(FinalShells(cycleRings, shellRings))
    ensures a !in AllMembers(cycleRings)
  {
    var shells := FinalShells(cycleRings, shellRings);
    FinalShellsFacts(cycleRings, shellRings);
    AllMembersIff(shells, a);
    var i :| 0 <= i < |shells| && a in Members(shells[i]);
    TouchedIff(shells[i].paths, a);
    var c :| c in shells[i].paths && a in c;
    assert shells[i] in shells;
  }

  /** Every member of a final ring is mapped; a cycle account to the last
      cycle ring holding it, a shell account to the first shell ring
      holding it; nothing else is mapped. */
  lemma AccountRingsFacts(cycleRings: seq<Ring>, shellRings: seq<Ring>)
    ensures var shells := FinalShells(cycleRings, shellRings);
      var ringOf := AccountRings(cycleRings, shellRings);
      && ringOf.Keys == AllMembers(cycleRings) + AllMembers(shells)
      && (forall a :: a in AllMembers(cycleRings) ==> ringOf[a] == cycleRings[LastRingWith(cycleRings, a)].id)
      && (forall a :: a in AllMembers(shells) ==> ringOf[a] == shells[FirstRingWith(shells, a)].id)
  {
    var shells := FinalShells(cycleRings, shellRings);
    var m := Overwrite(map[], RingPairs(cycleRings));
    var ringOf := AccountRings(cycleRings, shellRings);
    forall a ensures (a in ringOf <==> a in AllMembers(cycleRings) + AllMembers(shells))
      && (a in AllMembers(cycleRings) ==> ringOf[a] == cycleRings[LastRingWith(cycleRings, a)].id)
      && (a in AllMembers(shells) ==> ringOf[a] == shells[FirstRingWith(shells, a)].id)
    {
      OverwriteRings(cycleRings, a);
      FillRings(m, shells, a);
      if a in AllMembers(shells) {
        ShellMemberNotCycle(cycleRings, shellRings, a);
      }
    }
  }
}
