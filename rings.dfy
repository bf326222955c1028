/** The greedy ring grouping shared by cycle detection
    (backend/services/cycle_detection.py:49-72) and shell detection
    (backend/services/shell_detection.py:79-103): paths are processed in
    order; a path joins the ring of its first node (in the path's own order)
    that is already tagged, or a new ring id is minted; then every node of
    the path is tagged with that ring, overwriting earlier tags. Ring id k
    stands for the string `RING_{k:03d}` (Common.RingName). */
module Rings {
  import opened Common

  /** One entry of the `ring_map` dict: a ring id and its paths, in the
      order they joined. A ring map is a sequence of them in dict order. */
  datatype Ring = Ring(id: nat, paths: seq<seq<string>>)

  /** The loop state: `ring_map`, `node_to_ring`, and for each path
      processed so far the ring it joined. `ring_counter` is always
      |rings| + 1. */
  datatype Grouping = Grouping(rings: seq<Ring>, tag: map<string, nat>, assign: seq<nat>)

  /** The ring of the first node of `path` that is already tagged. */
  function FirstTagged(tag: map<string, nat>, path: seq<string>): Option<nat> {
    if path == [] then None
    else if path[0] in tag then Some(tag[path[0]])
    else FirstTagged(tag, path[1..])
  }

  /** `tag` after `node_to_ring[node] = id` for every node of `path`. */
  function Retag(tag: map<string, nat>, path: seq<string>, id: nat): map<string, nat> {
    if path == [] then tag else Retag(tag, path[..|path| - 1], id)[path[|path| - 1] := id]
  }

  /** One iteration of the grouping loop. */
  function Step(st: Grouping, path: seq<string>): Grouping {
    var id := match FirstTagged(st.tag, path) case Some(k) => k case None => |st.rings| + 1;
    var rings :=
      if 1 <= id <= |st.rings| then st.rings[id - 1 := st.rings[id - 1].(paths := st.rings[id - 1].paths + [path])]
      else st.rings + [Ring(id, [path])];
    Grouping(rings, Retag(st.tag, path, id), st.assign + [id])
  }

  function Group(paths: seq<seq<string>>): Grouping {
    if paths == [] then Grouping([], map[], [])
    else Step(Group(paths[..|paths| - 1]), paths[|paths| - 1])
  }

  /** Ring k sits at index k - 1, no ring is empty, and every tag and
      every assignment names an existing ring. */
  ghost predicate Valid(st: Grouping) {
    && (forall j :: 0 <= j < |st.rings| ==> st.rings[j].id == j + 1 && st.rings[j].paths != [])
    && (forall n :: n in st.tag ==> 1 <= st.tag[n] <= |st.rings|)
    && (forall i :: 0 <= i < |st.assign| ==> 1 <= st.assign[i] <= |st.rings|)
  }

  lemma {:induction false} FirstTaggedFacts(tag: map<string, nat>, path: seq<string>)
    ensures FirstTagged(tag, path).Some? <==> exists n :: n in path && n in tag
    ensures FirstTagged(tag, path).Some? ==> exists n :: n in path && n in tag && tag[n] == FirstTagged(tag, path).value
  {
    if path != [] {
      FirstTaggedFacts(tag, path[1..]);
      assert path == [path[0]] + path[1..];
    }
  }

  lemma {:induction false} RetagFacts(tag: map<string, nat>, path: seq<string>, id: nat)
    ensures Retag(tag, path, id).Keys == tag.Keys + Elems(path)
    ensures forall n :: n in path ==> Retag(tag, path, id)[n] == id
    ensures forall n :: n in tag && n !in path ==> Retag(tag, path, id)[n] == tag[n]
  {
    if path != [] {
      var pre := path[..|path| - 1];
      RetagFacts(tag, pre, id);
      assert path == pre + [path[|path| - 1]];
      assert Elems(path) == Elems(pre) + {path[|path| - 1]};
    }
  }

  /** A path that touches a tagged node reuses its ring; otherwise ring
      |rings| + 1 is minted. */
  lemma StepValid(st: Grouping, path: seq<string>)
    requires Valid(st)
    ensures Valid(Step(st, path))
    ensures |Step(st, path).rings| == |st.rings| + (if FirstTagged(st.tag, path).Some? then 0 else 1)
  {
    var id := StepId(st, path);
    RetagFacts(st.tag, path, id);
    var st' := Step(st, path);
    assert forall i :: 0 <= i < |st.assign| ==> st'.assign[i] == st.assign[i];
  }

  /** The ring a path joins: an existing one when it touches a tagged
      node, else the next id. */
  lemma StepId(st: Grouping, path: seq<string>) returns (id: nat)
    requires Valid(st)
    ensures id == match FirstTagged(st.tag, path) case Some(k) => k case None => |st.rings| + 1
    ensures FirstTagged(st.tag, path).Some? ==> 1 <= id <= |st.rings|
  {
    FirstTaggedFacts(st.tag, path);
    id := match FirstTagged(st.tag, path) case Some(k) => k case None => |st.rings| + 1;
  }

  lemma {:induction false} GroupValid(paths: seq<seq<string>>)
    ensures Valid(Group(paths))
    ensures |Group(paths).assign| == |paths|
  {
    if paths != [] {
      GroupValid(paths[..|paths| - 1]);
      StepValid(Group(paths[..|paths| - 1]), paths[|paths| - 1]);
    }
  }

  /** The scan for a node of `path` that already belongs to a ring. */
  method FindTagged(tag: map<string, nat>, path: seq<string>) returns (existing: Option<nat>)
    ensures existing == FirstTagged(tag, path)
  {
    existing := None;
    var k := 0;
    while k < |path|
      invariant 0 <= k <= |path|
      invariant FirstTagged(tag, path) == FirstTagged(tag, path[k..])
    {
      if path[k] in tag {
        existing := Some(tag[path[k]]);
        return;
      }
      assert path[k..][1..] == path[k + 1..];
      k := k + 1;
    }
  }

  /** Tag every node of the path, overwriting earlier tags. */
  method TagPath(tag0: map<string, nat>, path: seq<string>, id: nat) returns (tag: map<string, nat>)
    ensures tag == Retag(tag0, path, id)
  {
    tag := tag0;
    for j := 0 to |path|
      invariant tag == Retag(tag0, path[..j], id)
    {
      assert path[..j + 1][..j] == path[..j];
      tag := tag[path[j] := id];
    }
    assert path[..|path|] == path;
  }

  /** One iteration of the grouping loop; `counter` grows exactly when a
      ring is minted. */
  method PlacePath(rings0: seq<Ring>, tag0: map<string, nat>, counter0: nat, path: seq<string>, ghost assign: seq<nat>)
    returns (rings: seq<Ring>, tag: map<string, nat>, counter: nat)
    requires counter0 == |rings0| + 1
    ensures var st := Step(Grouping(rings0, tag0, assign), path);
      && rings == st.rings && tag == st.tag
      && counter == counter0 + (if FirstTagged(tag0, path).Some? then 0 else 1)
  {
    var existing := FindTagged(tag0, path);
    var id: nat;
    counter := counter0;
    if existing.Some? {
      id := existing.value;
    } else {
      id := counter;
      counter := counter + 1;
    }
    if 1 <= id <= |rings0| {
      rings := rings0[id - 1 := rings0[id - 1].(paths := rings0[id - 1].paths + [path])];
    } else {
      rings := rings0 + [Ring(id, [path])];
    }
    tag := TagPath(tag0, path, id);
  }

  /** The grouping loop: `ring_map` as it stands after every path has been
      placed. */
  method GroupIntoRings(paths: seq<seq<string>>) returns (rings: seq<Ring>)
    ensures rings == Group(paths).rings
  {
    rings := [];
    var tag: map<string, nat> := map[];
    var counter := 1;
    for i := 0 to |paths|
      invariant rings == Group(paths[..i]).rings && tag == Group(paths[..i]).tag
      invariant counter == |rings| + 1
    {
      assert paths[..i + 1][..i] == paths[..i];
      GroupValid(paths[..i]);
      StepValid(Group(paths[..i]), paths[i]);
      rings, tag, counter := PlacePath(rings, tag, counter, paths[i], Group(paths[..i]).assign);
    }
    assert paths[..|paths|] == paths;
  }
}

module RingFacts {
  import opened Common
  import opened Rings

  /** The paths whose assignment is `id`, in processing order. */
  function Select(paths: seq<seq<string>>, assign: seq<nat>, id: nat): seq<seq<string>>
    requires |assign| == |paths|
  {
    if paths == [] then []
    else
      var n := |paths| - 1;
      Select(paths[..n], assign[..n], id) + (if assign[n] == id then [paths[n]] else [])
  }

  /** Every node of every path. */
  function Touched(paths: seq<seq<string>>): set<string> {
    if paths == [] then {} else Touched(paths[..|paths| - 1]) + Elems(paths[|paths| - 1])
  }

  /** The index of the last path that contains `n`. */
  function LastContaining(paths: seq<seq<string>>, n: string): (i: nat)
    requires n in Touched(paths)
    ensures i < |paths| && n in paths[i]
    ensures forall j :: i < j < |paths| ==> n !in paths[j]
  {
    var k := |paths| - 1;
    if n in paths[k] then k
    else
      var i := LastContaining(paths[..k], n);
      assert forall j :: i < j < k ==> paths[..k][j] == paths[j];
      i
  }

  function MaxOf(s: seq<nat>): nat {
    if s == [] then 0 else var m := MaxOf(s[..|s| - 1]); if s[|s| - 1] > m then s[|s| - 1] else m
  }

  function TotalPaths(rings: seq<Ring>): nat {
    if rings == [] then 0 else TotalPaths(rings[..|rings| - 1]) + |rings[|rings| - 1].paths|
  }

  lemma {:induction false} SelectAbsent(paths: seq<seq<string>>, assign: seq<nat>, id: nat)
    requires |assign| == |paths|
    requires forall i :: 0 <= i < |assign| ==> assign[i] < id
    ensures Select(paths, assign, id) == []
  {
    if paths != [] {
      var n := |paths| - 1;
      SelectAbsent(paths[..n], assign[..n], id);
    }
  }

  lemma SelectStep(paths: seq<seq<string>>, assign: seq<nat>, path: seq<string>, a: nat, id: nat)
    requires |assign| == |paths|
    ensures Select(paths + [path], assign + [a], id) == Select(paths, assign, id) + (if a == id then [path] else [])
  {
    assert (paths + [path])[..|paths|] == paths;
    assert (assign + [a])[..|assign|] == assign;
  }

  /** Ring k holds exactly the paths assigned to k, in processing order:
      every path lands in exactly one ring and each ring keeps the order. */
  lemma {:induction false} GroupPartition(paths: seq<seq<string>>)
    ensures |Group(paths).assign| == |paths|
    ensures forall j :: 0 <= j < |Group(paths).rings| ==>
      Group(paths).rings[j].paths == Select(paths, Group(paths).assign, j + 1)
  {
    GroupValid(paths);
    if paths != [] {
      var pre := paths[..|paths| - 1];
      var path := paths[|paths| - 1];
      GroupPartition(pre);
      GroupValid(pre);
      assert paths == pre + [path];
      forall j | 0 <= j < |Group(paths).rings| ensures Group(paths).rings[j].paths == Select(paths, Group(paths).assign, j + 1) {
        SelectAfterStep(Group(pre), pre, path, j);
      }
    }
  }

  /** One step keeps every ring equal to the paths assigned to it. */
  lemma SelectAfterStep(st: Grouping, pre: seq<seq<string>>, path: seq<string>, j: nat)
    requires Valid(st) && |st.assign| == |pre|
    requires forall k :: 0 <= k < |st.rings| ==> st.rings[k].paths == Select(pre, st.assign, k + 1)
    requires j < |Step(st, path).rings|
    ensures Step(st, path).rings[j].paths == Select(pre + [path], Step(st, path).assign, j + 1)
  {
    var id := StepId(st, path);
    SelectStep(pre, st.assign, path, id, j + 1);
    if j == |st.rings| {
      SelectAbsent(pre, st.assign, j + 1);
    }
  }


  lemma {:induction false} TotalPathsUpdate(rings: seq<Ring>, k: nat, path: seq<string>)
    requires k < |rings|
    ensures TotalPaths(rings[k := rings[k].(paths := rings[k].paths + [path])]) == TotalPaths(rings) + 1
  {
    var r := rings[k := rings[k].(paths := rings[k].paths + [path])];
    if k < |rings| - 1 {
      assert r[..|r| - 1] == rings[..|rings| - 1][k := rings[k].(paths := rings[k].paths + [path])];
      TotalPathsUpdate(rings[..|rings| - 1], k, path);
    } else {
      assert r[..|r| - 1] == rings[..|rings| - 1];
    }
  }

  /** The rings together hold every path once. */
  lemma {:induction false} GroupTotal(paths: seq<seq<string>>)
    ensures TotalPaths(Group(paths).rings) == |paths|
  {
    if paths != [] {
      var pre := paths[..|paths| - 1];
      var path := paths[|paths| - 1];
      var st := Group(pre);
      GroupTotal(pre);
      GroupValid(pre);
      var id := match FirstTagged(st.tag, path) case Some(k) => k case None => |st.rings| + 1;
      if 1 <= id <= |st.rings| {
        TotalPathsUpdate(st.rings, id - 1, path);
      } else {
        var r := st.rings + [Ring(id, [path])];
        assert r[..|r| - 1] == st.rings;
      }
    }
  }

  /** The tag table covers exactly the nodes seen, and each node keeps the
      ring of the LAST path that contains it: tags are overwritten. */
  lemma {:induction false} GroupTags(paths: seq<seq<string>>)
    ensures |Group(paths).assign| == |paths|
    ensures Group(paths).tag.Keys == Touched(paths)
    ensures forall n :: n in Touched(paths) ==> Group(paths).tag[n] == Group(paths).assign[LastContaining(paths, n)]
  {
    GroupValid(paths);
    if paths != [] {
      var pre := paths[..|paths| - 1];
      var path := paths[|paths| - 1];
      var st := Group(pre);
      GroupTags(pre);
      var id := match FirstTagged(st.tag, path) case Some(k) => k case None => |st.rings| + 1;
      RetagFacts(st.tag, path, id);
      assert Group(paths).assign == st.assign + [id];
    }
  }

  /** Assignments made for a prefix never change afterwards. */
  lemma {:induction false} GroupPrefix(paths: seq<seq<string>>, i: nat)
    requires i <= |paths|
    ensures |Group(paths).assign| == |paths|
    ensures Group(paths[..i]).assign == Group(paths).assign[..i]
    decreases |paths| - i
  {
    GroupValid(paths);
    if i < |paths| {
      var pre := paths[..|paths| - 1];
      GroupPrefix(pre, i);
      GroupValid(pre);
      assert pre[..i] == paths[..i];
    } else {
      assert paths[..i] == paths;
    }
  }

  /** Ring ids are minted consecutively: the number of rings is the
      largest id handed out so far. */
  lemma {:induction false} GroupRingCount(paths: seq<seq<string>>)
    ensures |Group(paths).rings| == MaxOf(Group(paths).assign)
  {
    if paths != [] {
      var pre := paths[..|paths| - 1];
      var path := paths[|paths| - 1];
      var st := Group(pre);
      GroupRingCount(pre);
      GroupValid(pre);
      StepValid(st, path);
      var a := Group(paths).assign;
      assert a[..|a| - 1] == st.assign;
      FirstTaggedFacts(st.tag, path);
    }
  }

  /** The first node of `path` that occurs in an earlier path. */
  function FirstTouched(earlier: seq<seq<string>>, path: seq<string>): (n: string)
    requires exists n :: n in path && n in Touched(earlier)
    ensures n in path && n in Touched(earlier)
  {
    if path[0] in Touched(earlier) then path[0]
    else
      assert path == [path[0]] + path[1..];
      FirstTouched(earlier, path[1..])
  }

  lemma {:induction false} FirstTaggedIsFirstTouched(tag: map<string, nat>, earlier: seq<seq<string>>, path: seq<string>)
    requires tag.Keys == Touched(earlier)
    requires exists n :: n in path && n in Touched(earlier)
    ensures FirstTagged(tag, path) == Some(tag[FirstTouched(earlier, path)])
  {
    if path[0] !in tag {
      assert path == [path[0]] + path[1..];
      FirstTaggedIsFirstTouched(tag, earlier, path[1..]);
    }
  }

  /** Path i receives the id `Step` picks in the state left by the paths
      before it. */
  lemma GroupAssignAt(paths: seq<seq<string>>, i: nat)
    requires i < |paths|
    ensures var st := Group(paths[..i]);
      && |Group(paths).assign| == |paths|
      && Group(paths).assign[..i] == st.assign
      && Group(paths).assign[i] == match FirstTagged(st.tag, paths[i]) case Some(k) => k case None => |st.rings| + 1
  {
    GroupPrefix(paths, i);
    GroupPrefix(paths, i + 1);
    assert paths[..i + 1][..i] == paths[..i];
    assert Group(paths[..i + 1]) == Step(Group(paths[..i]), paths[i]);
    assert Group(paths).assign[..i + 1][i] == Group(paths).assign[i];
  }

  /** The join rule, stated on the paths alone. Path i joins the ring of
      the last earlier path holding its first already-seen node; a path
      that shares no node with earlier paths gets the next fresh id. */
  lemma GroupJoinRule(paths: seq<seq<string>>, i: nat)
    requires i < |paths|
    ensures |Group(paths).assign| == |paths|
    ensures var earlier := paths[..i];
      var a := Group(paths).assign;
      if exists n :: n in paths[i] && n in Touched(earlier) then
        a[i] == a[LastContaining(earlier, FirstTouched(earlier, paths[i]))]
      else
        a[i] == MaxOf(a[..i]) + 1
  {
    var earlier := paths[..i];
    var st := Group(earlier);
    GroupAssignAt(paths, i);
    var a := Group(paths).assign;
    GroupTags(earlier);
    FirstTaggedFacts(st.tag, paths[i]);
    if exists n :: n in paths[i] && n in Touched(earlier) {
      FirstTaggedIsFirstTouched(st.tag, earlier, paths[i]);
      var l := LastContaining(earlier, FirstTouched(earlier, paths[i]));
      assert a[l] == a[..i][l];
    } else {
      GroupRingCount(earlier);
    }
  }

  /** No paths, no rings. */
  lemma GroupEmpty()
    ensures Group([]).rings == []
  {
  }

  /** The accounts of a ring: every node of its paths. */
  function Members(r: Ring): set<string> {
    Touched(r.paths)
  }

  /** Path i is among the paths assigned to its own ring. */
  lemma {:induction false} SelectHas(paths: seq<seq<string>>, assign: seq<nat>, i: nat)
    requires |assign| == |paths| && i < |paths|
    ensures paths[i] in Select(paths, assign, assign[i])
  {
    var n := |paths| - 1;
    if i < n {
      SelectHas(paths[..n], assign[..n], i);
    }
  }

  /** No input path is lost: every one of them is a path of some ring. */
  lemma GroupCovers(paths: seq<seq<string>>, i: nat)
    requires i < |paths|
    ensures exists j :: 0 <= j < |Group(paths).rings| && paths[i] in Group(paths).rings[j].paths
  {
    var st := Group(paths);
    assert |st.assign| == |paths| && 1 <= st.assign[i] <= |st.rings| by {
      GroupValid(paths);
    }
    var j := st.assign[i] - 1;
    assert st.rings[j].paths == Select(paths, st.assign, j + 1) by {
      GroupPartition(paths);
    }
    SelectHas(paths, st.assign, i);
  }

}

module RingOrder {
  import opened Common
  import opened Rings
  import opened RingFacts

  lemma {:induction false} SelectSubset(paths: seq<seq<string>>, assign: seq<nat>, id: nat)
    requires |assign| == |paths|
    ensures forall p :: p in Select(paths, assign, id) ==> p in paths
  {
    if paths != [] {
      var n := |paths| - 1;
      SelectSubset(paths[..n], assign[..n], id);
      assert paths == paths[..n] + [paths[n]];
    }
  }

  /** A ring's paths keep the relative order they had in the input. */
  lemma {:induction false} SelectSorted(paths: seq<seq<string>>, assign: seq<nat>, id: nat, le: (seq<string>, seq<string>) -> bool)
    requires |assign| == |paths|
    requires SortedBy(paths, le)
    ensures SortedBy(Select(paths, assign, id), le)
  {
    if paths != [] {
      var n := |paths| - 1;
      var pre := paths[..n];
      assert SortedBy(pre, le);
      SelectSorted(pre, assign[..n], id, le);
      SelectSubset(pre, assign[..n], id);
      var s := Select(pre, assign[..n], id);
      if assign[n] == id {
        forall k | 0 <= k < |s| ensures le(s[k], paths[n]) {
          assert s[k] in pre;
          var m :| 0 <= m < n && pre[m] == s[k];
        }
      }
    }
  }

  /** Every path of every ring is one of the input paths, and within a
      ring they keep the input order. */
  lemma GroupPathsFromInput(paths: seq<seq<string>>, le: (seq<string>, seq<string>) -> bool)
    ensures forall r, p :: r in Group(paths).rings && p in r.paths ==> p in paths
    ensures SortedBy(paths, le) ==> forall r :: r in Group(paths).rings ==> SortedBy(r.paths, le)
  {
    GroupPartition(paths);
    GroupValid(paths);
    var st := Group(paths);
    forall r, p | r in st.rings && p in r.paths ensures p in paths {
      var j :| 0 <= j < |st.rings| && st.rings[j] == r;
      SelectSubset(paths, st.assign, j + 1);
    }
    if SortedBy(paths, le) {
      forall r | r in st.rings ensures SortedBy(r.paths, le) {
        var j :| 0 <= j < |st.rings| && st.rings[j] == r;
        SelectSorted(paths, st.assign, j + 1, le);
      }
    }
  }
}
