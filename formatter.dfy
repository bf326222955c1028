/** `format_detection_result` (backend/services/json_formatter.py): the
    suspicious-account list, the ring list and the summary. */
module Formatter {
  import opened Common
  import opened Rings
  import opened RingFacts
  import opened RingOrder
  import opened Patterns

  datatype SuspiciousAccount = SuspiciousAccount(accountId: string, suspicionScore: nat, detectedPatterns: seq<string>, ringId: Option<string>)

  datatype FraudRing = FraudRing(ringId: string, memberAccounts: seq<string>, patternType: string, riskScore: real)

  datatype Summary = Summary(totalAccountsAnalyzed: nat, suspiciousAccountsFlagged: nat, fraudRingsDetected: nat, processingTimeSeconds: real)

  datatype DetectionResult = DetectionResult(suspiciousAccounts: seq<SuspiciousAccount>, fraudRings: seq<FraudRing>, summary: Summary)

  /** `suspicion_scores.get(a, 0.0)`. */
  function ScoreOf(scores: map<string, nat>, a: string): nat {
    if a in scores then scores[a] else 0
  }

  // ---------------------------------------------------------------------
  // Sorted listings
  // ---------------------------------------------------------------------

  /** Some arrangement of a set's elements. */
  ghost function Enumerate<T>(s: set<T>): (r: seq<T>)
    ensures multiset(r) == multiset(s)
    decreases s
  {
    if s == {} then []
    else
      var x :| x in s;
      assert s == (s - {x}) + {x};
      [x] + Enumerate(s - {x})
  }

  /** Two sorted arrangements of the same elements are equal when the
      order ties no two different elements. */
  lemma {:induction false} SortedUnique<T>(a: seq<T>, b: seq<T>, le: (T, T) -> bool)
    requires multiset(a) == multiset(b)
    requires SortedBy(a, le) && SortedBy(b, le)
    requires forall x, y :: x in a && y in a && le(x, y) && le(y, x) ==> x == y
    ensures a == b
    decreases |a|
  {
    if a != [] {
      assert a[0] in multiset(b);
      assert b != [];
      assert b[0] in multiset(a);
      HeadsEqual(a, b, le);
      assert a == [a[0]] + a[1..] && b == [b[0]] + b[1..];
      assert multiset(a) == multiset{a[0]} + multiset(a[1..]);
      assert multiset(b) == multiset{b[0]} + multiset(b[1..]);
      assert multiset(a[1..]) == multiset(a) - multiset{a[0]};
      assert multiset(b[1..]) == multiset(b) - multiset{b[0]};
      assert SortedBy(a[1..], le) && SortedBy(b[1..], le);
      SortedUnique(a[1..], b[1..], le);
    }
  }

  lemma HeadsEqual<T>(a: seq<T>, b: seq<T>, le: (T, T) -> bool)
    requires a != [] && b != [] && b[0] in a && a[0] in b
    requires SortedBy(a, le) && SortedBy(b, le)
    requires forall x, y :: x in a && y in a && le(x, y) && le(y, x) ==> x == y
    ensures a[0] == b[0]
  {
    var j :| 0 <= j < |b| && b[j] == a[0];
    var i :| 0 <= i < |a| && a[i] == b[0];
    if i != 0 && j != 0 {
      assert le(b[0], b[j]) && le(a[0], a[i]);
    }
  }

  /** Appending a new element to an arrangement of a set. */
  lemma ArrangementSnoc<T>(list: seq<T>, s: set<T>, x: T)
    requires multiset(list) == multiset(s) && x !in s
    ensures multiset(list + [x]) == multiset(s + {x})
  {
    assert multiset(s + {x}) == multiset(s) + multiset{x};
  }

  /** Sorting any arrangement of a set gives the same sequence. */
  lemma SortedArrangement<T(!new)>(list: seq<T>, s: set<T>, le: (T, T) -> bool)
    requires multiset(list) == multiset(s)
    requires TotalPreorder(le)
    requires forall x, y :: x in s && y in s && le(x, y) && le(y, x) ==> x == y
    ensures SortBy(list, le) == SortBy(Enumerate(s), le)
  {
    var a := SortBy(list, le);
    forall x | x in a ensures x in s {
      assert x in multiset(a);
    }
    SortedUnique(a, SortBy(Enumerate(s), le), le);
  }

  /** `sorted(...)` of a set of strings. */
  ghost function SortedListing(s: set<string>): seq<string> {
    SortStrings(Enumerate(s))
  }

  method ListSorted(s: set<string>) returns (r: seq<string>)
    ensures r == SortedListing(s)
  {
    var list: seq<string> := [];
    var rest := s;
    while rest != {}
      invariant rest <= s
      invariant multiset(list) + multiset(rest) == multiset(s)
      decreases rest
    {
      var x :| x in rest;
      assert rest == (rest - {x}) + {x};
      list := list + [x];
      rest := rest - {x};
    }
    r := SortStrings(list);
    StrLeIsTotalPreorder();
    forall x, y | StrLe(x, y) && StrLe(y, x) ensures x == y {
      StrLeAntisymmetric(x, y);
    }
    SortedArrangement(list, s, StrLe);
  }

  // ---------------------------------------------------------------------
  // Suspicious accounts (json_formatter.py:95-115)
  // ---------------------------------------------------------------------

  /** The record built for account `a` (json_formatter.py:98-112); the
      score is an integer, so `round(score, 1)` leaves it unchanged. */
  ghost function Entry(a: string, scores: map<string, nat>, patterns: LabelMap, ringOf: map<string, nat>, listing: set<string> -> seq<string>): SuspiciousAccount {
    SuspiciousAccount(a, ScoreOf(scores, a), listing(LabelsOf(patterns, a)),
                      if a in ringOf then Some(RingName(ringOf[a])) else None)
  }

  /** The sort key `(-suspicion_score, account_id)`. */
  predicate AccountLe(x: SuspiciousAccount, y: SuspiciousAccount) {
    x.suspicionScore > y.suspicionScore || (x.suspicionScore == y.suspicionScore && StrLe(x.accountId, y.accountId))
  }

  /** The entries of the accounts in `done` with a positive score. */
  ghost function Entries(done: set<string>, scores: map<string, nat>, patterns: LabelMap, ringOf: map<string, nat>, listing: set<string> -> seq<string>): set<SuspiciousAccount> {
    set a | a in done && ScoreOf(scores, a) > 0 :: Entry(a, scores, patterns, ringOf, listing)
  }

  ghost function SuspiciousList(nodes: set<string>, scores: map<string, nat>, patterns: LabelMap, ringOf: map<string, nat>): seq<SuspiciousAccount> {
    SortBy(Enumerate(Entries(nodes, scores, patterns, ringOf, SortedListing)), AccountLe)
  }

  lemma AccountLeIsTotalPreorder()
    ensures TotalPreorder(AccountLe)
  {
    forall x, y ensures AccountLe(x, y) || AccountLe(y, x) {
      StrLeTotal(x.accountId, y.accountId);
    }
    forall x, y, z | AccountLe(x, y) && AccountLe(y, z) ensures AccountLe(x, z) {
      if x.suspicionScore == y.suspicionScore == z.suspicionScore {
        StrLeTransitive(x.accountId, y.accountId, z.accountId);
      }
    }
  }

  /** One iteration of the loop over `all_accounts`. */
  lemma EntriesStep(list: seq<SuspiciousAccount>, done: set<string>, scores: map<string, nat>, patterns: LabelMap, ringOf: map<string, nat>, listing: set<string> -> seq<string>, a: string)
    requires a !in done
    requires multiset(list) == multiset(Entries(done, scores, patterns, ringOf, listing))
    ensures ScoreOf(scores, a) > 0 ==> multiset(list + [Entry(a, scores, patterns, ringOf, listing)]) == multiset(Entries(done + {a}, scores, patterns, ringOf, listing))
    ensures ScoreOf(scores, a) == 0 ==> multiset(list) == multiset(Entries(done + {a}, scores, patterns, ringOf, listing))
  {
    EntriesAdd(done, scores, patterns, ringOf, listing, a);
    EntryIsNew(done, scores, patterns, ringOf, listing, a);
    if ScoreOf(scores, a) > 0 {
      ArrangementSnoc(list, Entries(done, scores, patterns, ringOf, listing), Entry(a, scores, patterns, ringOf, listing));
    }
  }

  /** Visiting one more account adds its record exactly when it scores. */
  lemma EntriesAdd(done: set<string>, scores: map<string, nat>, patterns: LabelMap, ringOf: map<string, nat>, listing: set<string> -> seq<string>, a: string)
    ensures Entries(done + {a}, scores, patterns, ringOf, listing) ==
      Entries(done, scores, patterns, ringOf, listing) + (if ScoreOf(scores, a) > 0 then {Entry(a, scores, patterns, ringOf, listing)} else {})
  {
    var e := Entries(done, scores, patterns, ringOf, listing);
    var e' := Entries(done + {a}, scores, patterns, ringOf, listing);
    var added := if ScoreOf(scores, a) > 0 then {Entry(a, scores, patterns, ringOf, listing)} else {};
    forall y | y in e' ensures y in e + added {
      var b :| b in done + {a} && ScoreOf(scores, b) > 0 && y == Entry(b, scores, patterns, ringOf, listing);
      if b != a {
        assert b in done;
      }
    }
    forall y | y in e + added ensures y in e' {
      if y in e {
        var b :| b in done && ScoreOf(scores, b) > 0 && y == Entry(b, scores, patterns, ringOf, listing);
        assert b in done + {a};
      } else {
        assert a in done + {a};
      }
    }
  }

  /** The record of an account not yet visited is not yet listed. */
  lemma EntryIsNew(done: set<string>, scores: map<string, nat>, patterns: LabelMap, ringOf: map<string, nat>, listing: set<string> -> seq<string>, a: string)
    requires a !in done
    ensures Entry(a, scores, patterns, ringOf, listing) !in Entries(done, scores, patterns, ringOf, listing)
  {
    forall y | y in Entries(done, scores, patterns, ringOf, listing) ensures y.accountId in done {
      var b :| b in done && ScoreOf(scores, b) > 0 && y == Entry(b, scores, patterns, ringOf, listing);
    }
  }

  /** No two entries tie under the sort key. */
  lemma EntriesUntied(nodes: set<string>, scores: map<string, nat>, patterns: LabelMap, ringOf: map<string, nat>, listing: set<string> -> seq<string>, x: SuspiciousAccount, y: SuspiciousAccount)
    requires x in Entries(nodes, scores, patterns, ringOf, listing) && y in Entries(nodes, scores, patterns, ringOf, listing)
    requires AccountLe(x, y) && AccountLe(y, x)
    ensures x == y
  {
    StrLeAntisymmetric(x.accountId, y.accountId);
  }

  /** One iteration of the loop over `all_accounts`. */
  method AddEntry(list: seq<SuspiciousAccount>, ghost done: set<string>, a: string, scores: map<string, nat>, patterns: LabelMap, ringOf: map<string, nat>)
    returns (list': seq<SuspiciousAccount>)
    requires a !in done
    requires multiset(list) == multiset(Entries(done, scores, patterns, ringOf, SortedListing))
    ensures multiset(list') == multiset(Entries(done + {a}, scores, patterns, ringOf, SortedListing))
  {
    EntriesStep(list, done, scores, patterns, ringOf, SortedListing, a);
    list' := list;
    var score := ScoreOf(scores, a);
    if score > 0 {
      var listed := ListSorted(LabelsOf(patterns, a));
      var ringId := if a in ringOf then Some(RingName(ringOf[a])) else None;
      list' := list + [SuspiciousAccount(a, score, listed, ringId)];
    }
  }

  /** The loop over `all_accounts` (json_formatter.py:96-112). */
  method CollectEntries(nodes: set<string>, scores: map<string, nat>, patterns: LabelMap, ringOf: map<string, nat>)
    returns (list: seq<SuspiciousAccount>)
    ensures multiset(list) == multiset(Entries(nodes, scores, patterns, ringOf, SortedListing))
  {
    list := [];
    var rest := nodes;
    ghost var done: set<string> := {};
    while rest != {}
      invariant rest !! done && rest + done == nodes
      invariant multiset(list) == multiset(Entries(done, scores, patterns, ringOf, SortedListing))
      decreases rest
    {
      var a :| a in rest;
      list := AddEntry(list, done, a, scores, patterns, ringOf);
      done := done + {a};
      rest := rest - {a};
    }
  }

  /** The loop and the sort (json_formatter.py:95-115). */
  method BuildSuspicious(nodes: set<string>, scores: map<string, nat>, patterns: LabelMap, ringOf: map<string, nat>)
    returns (accounts: seq<SuspiciousAccount>)
    ensures accounts == SuspiciousList(nodes, scores, patterns, ringOf)
  {
    var list := CollectEntries(nodes, scores, patterns, ringOf);
    accounts := SortBy(list, AccountLe);
    AccountLeIsTotalPreorder();
    forall x, y | x in Entries(nodes, scores, patterns, ringOf, SortedListing) && y in Entries(nodes, scores, patterns, ringOf, SortedListing) && AccountLe(x, y) && AccountLe(y, x)
      ensures x == y
    {
      EntriesUntied(nodes, scores, patterns, ringOf, SortedListing, x, y);
    }
    SortedArrangement(list, Entries(nodes, scores, patterns, ringOf, SortedListing), AccountLe);
  }

  // ---------------------------------------------------------------------
  // Ring members (json_formatter.py:125-138). The dicts are keyed by the
  // ring's name RingName(id); since RingName is injective they are keyed
  // here by the id itself.
  // ---------------------------------------------------------------------

  /** `ring_members[ring_id]` of a defaultdict of sets. */
  function MembersAt(m: map<nat, set<string>>, id: nat): set<string> {
    if id in m then m[id] else {}
  }

  /** `ring_members` after adding every account of ring `r`. */
  function AddMembers(m: map<nat, set<string>>, r: Ring): map<nat, set<string>> {
    m[r.id := MembersAt(m, r.id) + Members(r)]
  }

  function MemberMap(m: map<nat, set<string>>, rings: seq<Ring>): map<nat, set<string>> {
    if rings == [] then m else AddMembers(MemberMap(m, rings[..|rings| - 1]), rings[|rings| - 1])
  }

  /** The two inner loops for one ring. */
  method CollectMembers(r: Ring) returns (s: set<string>)
    ensures s == Members(r)
  {
    s := {};
    var i := 0;
    while i < |r.paths|
      invariant i <= |r.paths|
      invariant s == Touched(r.paths[..i])
    {
      var path := r.paths[i];
      assert r.paths[..i + 1][..i] == r.paths[..i];
      var before := s;
      var j := 0;
      while j < |path|
        invariant j <= |path|
        invariant s == before + Elems(path[..j])
      {
        assert Elems(path[..j + 1]) == Elems(path[..j]) + {path[j]} by {
          assert path[..j + 1] == path[..j] + [path[j]];
        }
        s := s + {path[j]};
        j := j + 1;
      }
      assert path[..j] == path;
      i := i + 1;
    }
    assert r.paths[..i] == r.paths;
  }

  method AddRingsMembers(m0: map<nat, set<string>>, rings: seq<Ring>) returns (m: map<nat, set<string>>)
    ensures m == MemberMap(m0, rings)
  {
    m := m0;
    var i := 0;
    while i < |rings|
      invariant i <= |rings|
      invariant m == MemberMap(m0, rings[..i])
    {
      assert rings[..i + 1][..i] == rings[..i];
      var s := CollectMembers(rings[i]);
      m := m[rings[i].id := MembersAt(m, rings[i].id) + s];
      i := i + 1;
    }
    assert rings[..i] == rings;
  }

  /** The accounts of the rings in `rings` with id `id`. */
  function RingMembersOf(rings: seq<Ring>, id: nat): set<string> {
    if rings == [] then {}
    else
      var r := rings[|rings| - 1];
      RingMembersOf(rings[..|rings| - 1], id) + (if r.id == id then Members(r) else {})
  }

  /** The dict keys `cycle_accounts.keys()` / `shell_accounts.keys()`. */
  function RingIds(rings: seq<Ring>): set<nat> {
    set r | r in rings :: r.id
  }

  // ---------------------------------------------------------------------
  // Fraud rings (json_formatter.py:117-166)
  // ---------------------------------------------------------------------

  /** `sum(member_scores)`. */
  function ScoreTotal(members: seq<string>, scores: map<string, nat>): nat {
    if members == [] then 0 else ScoreTotal(members[..|members| - 1], scores) + ScoreOf(scores, members[|members| - 1])
  }

  /** The ring's mean score, missing scores counting 0, before rounding. */
  function Mean(members: seq<string>, scores: map<string, nat>): real {
    if members == [] then 0.0 else (ScoreTotal(members, scores) as real) / (|members| as real)
  }

  /** `pattern_type` (json_formatter.py:145-150). */
  function PatternType(cycleRings: seq<Ring>, shellRings: seq<Ring>, id: nat): string {
    if id in RingIds(cycleRings) then "cycle"
    else if id in RingIds(shellRings) then "shell"
    else "unknown"
  }

  /** The record built for ring `id`; `round1` is `round(x, 1)` and
      `listing` is `sorted`. */
  ghost function RingEntry(id: nat, cycleRings: seq<Ring>, shellRings: seq<Ring>, scores: map<string, nat>, round1: real -> real, listing: set<string> -> seq<string>): FraudRing {
    var members := listing(RingMembersOf(cycleRings, id) + RingMembersOf(shellRings, id));
    FraudRing(RingName(id), members, PatternType(cycleRings, shellRings, id), round1(Mean(members, scores)))
  }

  /** The sort key `(-risk_score, ring_id)`. */
  predicate RingLe(x: FraudRing, y: FraudRing) {
    x.riskScore > y.riskScore || (x.riskScore == y.riskScore && StrLe(x.ringId, y.ringId))
  }

  ghost function RingEntries(ids: set<nat>, cycleRings: seq<Ring>, shellRings: seq<Ring>, scores: map<string, nat>, round1: real -> real, listing: set<string> -> seq<string>): set<FraudRing> {
    set id | id in ids :: RingEntry(id, cycleRings, shellRings, scores, round1, listing)
  }

  ghost function FraudRingList(cycleRings: seq<Ring>, shellRings: seq<Ring>, scores: map<string, nat>, round1: real -> real): seq<FraudRing> {
    SortBy(Enumerate(RingEntries(RingIds(cycleRings + shellRings), cycleRings, shellRings, scores, round1, SortedListing)), RingLe)
  }

  lemma RingLeIsTotalPreorder()
    ensures TotalPreorder(RingLe)
  {
    forall x, y ensures RingLe(x, y) || RingLe(y, x) {
      StrLeTotal(x.ringId, y.ringId);
    }
    forall x, y, z | RingLe(x, y) && RingLe(y, z) ensures RingLe(x, z) {
      if x.riskScore == y.riskScore == z.riskScore {
        StrLeTransitive(x.ringId, y.ringId, z.ringId);
      }
    }
  }

  lemma RingIdsAppend(a: seq<Ring>, b: seq<Ring>)
    ensures RingIds(a + b) == RingIds(a) + RingIds(b)
  {
    assert forall r :: r in a + b <==> r in a || r in b;
  }

  lemma {:induction false} RingMembersOfIff(rings: seq<Ring>, id: nat, a: string)
    ensures a in RingMembersOf(rings, id) <==> exists i :: 0 <= i < |rings| && rings[i].id == id && a in Members(rings[i])
  {
    if rings != [] {
      var pre := rings[..|rings| - 1];
      RingMembersOfIff(pre, id, a);
      assert forall i :: 0 <= i < |pre| ==> pre[i] == rings[i];
    }
  }

  lemma {:induction false} MemberMapFacts(m: map<nat, set<string>>, rings: seq<Ring>, id: nat)
    ensures id in MemberMap(m, rings) <==> id in m || id in RingIds(rings)
    ensures MembersAt(MemberMap(m, rings), id) == MembersAt(m, id) + RingMembersOf(rings, id)
  {
    if rings != [] {
      var pre := rings[..|rings| - 1];
      var r := rings[|rings| - 1];
      MemberMapFacts(m, pre, id);
      assert rings == pre + [r];
      RingIdsAppend(pre, [r]);
    }
  }

  /** One iteration of the loop over `all_ring_ids`. */
  lemma RingEntriesStep(list: seq<FraudRing>, done: set<nat>, cycleRings: seq<Ring>, shellRings: seq<Ring>, scores: map<string, nat>, round1: real -> real, listing: set<string> -> seq<string>, id: nat)
    requires id !in done
    requires multiset(list) == multiset(RingEntries(done, cycleRings, shellRings, scores, round1, listing))
    ensures multiset(list + [RingEntry(id, cycleRings, shellRings, scores, round1, listing)]) == multiset(RingEntries(done + {id}, cycleRings, shellRings, scores, round1, listing))
  {
    var e := RingEntries(done, cycleRings, shellRings, scores, round1, listing);
    var e' := RingEntries(done + {id}, cycleRings, shellRings, scores, round1, listing);
    var x := RingEntry(id, cycleRings, shellRings, scores, round1, listing);
    forall y | y in e' ensures y in e + {x} {
      var b :| b in done + {id} && y == RingEntry(b, cycleRings, shellRings, scores, round1, listing);
      if b != id {
        assert b in done;
      }
    }
    forall y | y in e + {x} ensures y in e' {
      if y in e {
        var b :| b in done && y == RingEntry(b, cycleRings, shellRings, scores, round1, listing);
        assert b in done + {id};
      } else {
        assert id in done + {id};
      }
    }
    assert e' == e + {x};
    assert x !in e by {
      forall y | y in e ensures y.ringId != RingName(id) {
        var b :| b in done && y == RingEntry(b, cycleRings, shellRings, scores, round1, listing);
        if RingName(b) == RingName(id) {
          RingNameInjective(b, id);
        }
      }
    }
    ArrangementSnoc(list, e, x);
  }

  lemma RingEntriesUntied(ids: set<nat>, cycleRings: seq<Ring>, shellRings: seq<Ring>, scores: map<string, nat>, round1: real -> real, listing: set<string> -> seq<string>, x: FraudRing, y: FraudRing)
    requires x in RingEntries(ids, cycleRings, shellRings, scores, round1, listing) && y in RingEntries(ids, cycleRings, shellRings, scores, round1, listing)
    requires RingLe(x, y) && RingLe(y, x)
    ensures x == y
  {
    StrLeAntisymmetric(x.ringId, y.ringId);
    var a :| a in ids && x == RingEntry(a, cycleRings, shellRings, scores, round1, listing);
    var b :| b in ids && y == RingEntry(b, cycleRings, shellRings, scores, round1, listing);
    RingNameInjective(a, b);
  }

  /** One record of the loop over `all_ring_ids`. */
  method MakeRing(id: nat, members: set<string>, cycleRings: seq<Ring>, shellRings: seq<Ring>, scores: map<string, nat>, round1: real -> real)
    returns (ring: FraudRing)
    requires members == RingMembersOf(cycleRings, id) + RingMembersOf(shellRings, id)
    ensures ring == RingEntry(id, cycleRings, shellRings, scores, round1, SortedListing)
  {
    var listed := ListSorted(members);
    var patternType := if id in RingIds(cycleRings) then "cycle" else if id in RingIds(shellRings) then "shell" else "unknown";
    ring := FraudRing(RingName(id), listed, patternType, round1(Mean(listed, scores)));
  }

  /** One iteration of the loop over `all_ring_ids`. */
  method AddRing(list: seq<FraudRing>, ghost done: set<nat>, id: nat, members: map<nat, set<string>>, cycleRings: seq<Ring>, shellRings: seq<Ring>,
                 scores: map<string, nat>, round1: real -> real)
    returns (list': seq<FraudRing>)
    requires id !in done
    requires multiset(list) == multiset(RingEntries(done, cycleRings, shellRings, scores, round1, SortedListing))
    requires members == MemberMap(MemberMap(map[], cycleRings), shellRings)
    ensures multiset(list') == multiset(RingEntries(done + {id}, cycleRings, shellRings, scores, round1, SortedListing))
  {
    RingEntriesStep(list, done, cycleRings, shellRings, scores, round1, SortedListing, id);
    MemberMapFacts(map[], cycleRings, id);
    MemberMapFacts(MemberMap(map[], cycleRings), shellRings, id);
    var ring := MakeRing(id, MembersAt(members, id), cycleRings, shellRings, scores, round1);
    list' := list + [ring];
  }

  /** The loop over `all_ring_ids` (json_formatter.py:141-163), given the
      member sets. */
  method CollectRings(ids: set<nat>, members: map<nat, set<string>>, cycleRings: seq<Ring>, shellRings: seq<Ring>,
                      scores: map<string, nat>, round1: real -> real)
    returns (list: seq<FraudRing>)
    requires members == MemberMap(MemberMap(map[], cycleRings), shellRings)
    ensures multiset(list) == multiset(RingEntries(ids, cycleRings, shellRings, scores, round1, SortedListing))
  {
    list := [];
    var rest := ids;
    ghost var done: set<nat> := {};
    while rest != {}
      invariant rest !! done && rest + done == ids
      invariant multiset(list) == multiset(RingEntries(done, cycleRings, shellRings, scores, round1, SortedListing))
      decreases rest
    {
      var id :| id in rest;
      list := AddRing(list, done, id, members, cycleRings, shellRings, scores, round1);
      done := done + {id};
      rest := rest - {id};
    }
  }

  /** The member sets, the ring records and the sort
      (json_formatter.py:117-166). */
  method BuildFraudRings(cycleRings: seq<Ring>, shellRings: seq<Ring>, scores: map<string, nat>, round1: real -> real)
    returns (rings: seq<FraudRing>)
    ensures rings == FraudRingList(cycleRings, shellRings, scores, round1)
  {
    var ids := RingIds(cycleRings) + RingIds(shellRings);
    RingIdsAppend(cycleRings, shellRings);
    var m := AddRingsMembers(map[], cycleRings);
    m := AddRingsMembers(m, shellRings);
    var list := CollectRings(ids, m, cycleRings, shellRings, scores, round1);
    rings := SortBy(list, RingLe);
    RingLeIsTotalPreorder();
    ghost var entries := RingEntries(ids, cycleRings, shellRings, scores, round1, SortedListing);
    forall x, y | x in entries && y in entries && RingLe(x, y) && RingLe(y, x) ensures x == y {
      RingEntriesUntied(ids, cycleRings, shellRings, scores, round1, SortedListing, x, y);
    }
    SortedArrangement(list, entries, RingLe);
  }

  // ---------------------------------------------------------------------
  // The result record
  // ---------------------------------------------------------------------

  /** The result for graph nodes `nodes`, label map `patterns`, score
      table `scores` and account→ring map `ringOf`; `round1` and `round2`
      are `round(x, 1)` and `round(x, 2)`. */
  ghost function Result(nodes: seq<string>, cycleRings: seq<Ring>, shellRings: seq<Ring>, patterns: LabelMap,
                        scores: map<string, nat>, ringOf: map<string, nat>, processingTime: real,
                        round1: real -> real, round2: real -> real): DetectionResult {
    var accounts := SuspiciousList(Elems(nodes), scores, patterns, ringOf);
    var rings := FraudRingList(cycleRings, shellRings, scores, round1);
    DetectionResult(accounts, rings, Summary(|Elems(nodes)|, |accounts|, |rings|, round2(processingTime)))
  }

  /** `format_detection_result`. The transaction list it takes is unused
      and left out; the label map is rebuilt from the same rings and flags
      as `calculate_suspicion_scores` does. */
  method FormatDetectionResult(nodes: seq<string>, cycleRings: seq<Ring>, smurf: map<string, Smurfing.Flag>, shellRings: seq<Ring>,
                               scores: map<string, nat>, ringOf: map<string, nat>, processingTime: real,
                               round1: real -> real, round2: real -> real)
    returns (result: DetectionResult)
    ensures result == Result(nodes, cycleRings, shellRings, AccountPatterns(cycleRings, smurf, shellRings), scores, ringOf, processingTime, round1, round2)
  {
    var allAccounts := Elems(nodes);
    var patterns := CollectPatterns(cycleRings, smurf, shellRings);
    var accounts := BuildSuspicious(allAccounts, scores, patterns, ringOf);
    var rings := BuildFraudRings(cycleRings, shellRings, scores, round1);
    result := DetectionResult(accounts, rings, Summary(|allAccounts|, |accounts|, |rings|, round2(processingTime)));
  }
}

/** What the result record says about the accounts and rings. */
module FormatterFacts {
  import opened Common
  import opened Rings
  import opened RingFacts
  import opened RingOrder
  import opened Patterns
  import opened Formatter

  /** `sorted(...)` of a set of elements lists each of them once, in order. */
  lemma SortedSetFacts<T(!new)>(e: set<T>, le: (T, T) -> bool)
    requires TotalPreorder(le)
    ensures var s := SortBy(Enumerate(e), le);
      Elems(s) == e && Distinct(s) && |s| == |e| && SortedBy(s, le)
  {
    SetArrangement(SortBy(Enumerate(e), le), e);
  }

  /** `sorted(...)` of a set of strings lists each string once, ascending. */
  lemma SortedListingFacts(s: set<string>)
    ensures var r := SortedListing(s);
      && Elems(r) == s && Distinct(r) && |r| == |s|
      && forall i, j :: 0 <= i < j < |r| ==> StrLe(r[i], r[j])
  {
    SetArrangement(SortedListing(s), s);
  }

  /** The nodes with a positive score. */
  ghost function Flagged(nodes: set<string>, scores: map<string, nat>): set<string> {
    set a | a in nodes && ScoreOf(scores, a) > 0
  }

  /** The suspicious records are the records of the flagged nodes, one each. */
  lemma EntriesFacts(done: set<string>, scores: map<string, nat>, patterns: LabelMap, ringOf: map<string, nat>, listing: set<string> -> seq<string>)
    ensures forall x :: x in Entries(done, scores, patterns, ringOf, listing) <==>
      x.accountId in Flagged(done, scores) && x == Entry(x.accountId, scores, patterns, ringOf, listing)
    ensures |Entries(done, scores, patterns, ringOf, listing)| == |Flagged(done, scores)|
  {
    var e := Entries(done, scores, patterns, ringOf, listing);
    var f := Flagged(done, scores);
    var entry := a => Entry(a, scores, patterns, ringOf, listing);
    forall x | x in e ensures x in Image(f, entry) {
      var a :| a in done && ScoreOf(scores, a) > 0 && x == Entry(a, scores, patterns, ringOf, listing);
      assert entry(a) == x;
    }
    forall x | x in Image(f, entry) ensures x in e {
      var a :| a in f && entry(a) == x;
    }
    assert e == Image(f, entry);
    InjectiveImageSize(f, entry);
  }

  /** The suspicious list holds one record per node with a positive score,
      built as `Entry` builds it, ordered by score descending and then by
      account id. */
  lemma SuspiciousListFacts(nodes: set<string>, scores: map<string, nat>, patterns: LabelMap, ringOf: map<string, nat>)
    ensures var s := SuspiciousList(nodes, scores, patterns, ringOf);
      && (forall i :: 0 <= i < |s| ==>
            s[i].accountId in Flagged(nodes, scores) && s[i] == Entry(s[i].accountId, scores, patterns, ringOf, SortedListing))
      && (forall a :: a in Flagged(nodes, scores) ==> exists i :: 0 <= i < |s| && s[i].accountId == a)
      && (forall i, j :: 0 <= i < j < |s| ==> s[i].accountId != s[j].accountId)
      && SortedBy(s, AccountLe)
      && |s| == |Flagged(nodes, scores)|
  {
    var s := SuspiciousList(nodes, scores, patterns, ringOf);
    var e := Entries(nodes, scores, patterns, ringOf, SortedListing);
    AccountLeIsTotalPreorder();
    SortedSetFacts(e, AccountLe);
    EntriesFacts(nodes, scores, patterns, ringOf, SortedListing);
    forall a | a in Flagged(nodes, scores) ensures exists i :: 0 <= i < |s| && s[i].accountId == a {
      var x := Entry(a, scores, patterns, ringOf, SortedListing);
      assert x in e;
      assert x in s;
    }
  }

  /** The fields of one suspicious record. */
  lemma EntryFacts(a: string, scores: map<string, nat>, patterns: LabelMap, ringOf: map<string, nat>)
    ensures var x := Entry(a, scores, patterns, ringOf, SortedListing);
      && x.accountId == a && x.suspicionScore == ScoreOf(scores, a)
      && Elems(x.detectedPatterns) == LabelsOf(patterns, a) && Distinct(x.detectedPatterns)
      && (forall i, j :: 0 <= i < j < |x.detectedPatterns| ==> StrLe(x.detectedPatterns[i], x.detectedPatterns[j]))
      && (x.ringId.Some? <==> a in ringOf)
      && (a in ringOf ==> x.ringId == Some(RingName(ringOf[a])))
  {
    SortedListingFacts(LabelsOf(patterns, a));
  }

  /** The ring records are the records of the ids, one each. */
  lemma RingEntriesFacts(ids: set<nat>, cycleRings: seq<Ring>, shellRings: seq<Ring>, scores: map<string, nat>, round1: real -> real, listing: set<string> -> seq<string>)
    ensures forall id :: id in ids ==> RingEntry(id, cycleRings, shellRings, scores, round1, listing) in RingEntries(ids, cycleRings, shellRings, scores, round1, listing)
    ensures forall x :: x in RingEntries(ids, cycleRings, shellRings, scores, round1, listing) ==>
      exists id :: id in ids && x == RingEntry(id, cycleRings, shellRings, scores, round1, listing)
    ensures |RingEntries(ids, cycleRings, shellRings, scores, round1, listing)| == |ids|
  {
    var entry := id => RingEntry(id, cycleRings, shellRings, scores, round1, listing);
    assert RingEntries(ids, cycleRings, shellRings, scores, round1, listing) == Image(ids, entry);
    forall x: nat, y: nat | x in ids && y in ids && entry(x) == entry(y) ensures x == y {
      assert RingName(x) == entry(x).ringId;
      RingNameInjective(x, y);
    }
    InjectiveImageSize(ids, entry);
  }

  /** The ring list holds one record per distinct cycle or shell ring id,
      ordered by risk descending and then by ring name. */
  lemma FraudRingListFacts(cycleRings: seq<Ring>, shellRings: seq<Ring>, scores: map<string, nat>, round1: real -> real)
    ensures var r := FraudRingList(cycleRings, shellRings, scores, round1);
      var ids := RingIds(cycleRings) + RingIds(shellRings);
      && (forall i :: 0 <= i < |r| ==> exists id :: id in ids && r[i] == RingEntry(id, cycleRings, shellRings, scores, round1, SortedListing))
      && (forall id :: id in ids ==> exists i :: 0 <= i < |r| && r[i] == RingEntry(id, cycleRings, shellRings, scores, round1, SortedListing))
      && Distinct(r)
      && SortedBy(r, RingLe)
      && |r| == |ids|
  {
    var r := FraudRingList(cycleRings, shellRings, scores, round1);
    var ids := RingIds(cycleRings) + RingIds(shellRings);
    RingIdsAppend(cycleRings, shellRings);
    var e := RingEntries(ids, cycleRings, shellRings, scores, round1, SortedListing);
    RingLeIsTotalPreorder();
    SortedSetFacts(e, RingLe);
    RingEntriesFacts(ids, cycleRings, shellRings, scores, round1, SortedListing);
    forall i | 0 <= i < |r| ensures exists id :: id in ids && r[i] == RingEntry(id, cycleRings, shellRings, scores, round1, SortedListing) {
      assert r[i] in e;
    }
    forall id | id in ids ensures exists i :: 0 <= i < |r| && r[i] == RingEntry(id, cycleRings, shellRings, scores, round1, SortedListing) {
      assert RingEntry(id, cycleRings, shellRings, scores, round1, SortedListing) in r;
    }
  }

  /** Different ring records carry different ring names. */
  lemma RingEntryNames(x: nat, y: nat, cycleRings: seq<Ring>, shellRings: seq<Ring>, scores: map<string, nat>, round1: real -> real, listing: set<string> -> seq<string>)
    requires x != y
    ensures RingEntry(x, cycleRings, shellRings, scores, round1, listing).ringId != RingEntry(y, cycleRings, shellRings, scores, round1, listing).ringId
  {
    if RingName(x) == RingName(y) {
      RingNameInjective(x, y);
    }
  }

  /** The fields of one ring record for any listing of its members. */
  lemma RingEntryShape(id: nat, cycleRings: seq<Ring>, shellRings: seq<Ring>, scores: map<string, nat>, round1: real -> real, listing: set<string> -> seq<string>)
    ensures var x := RingEntry(id, cycleRings, shellRings, scores, round1, listing);
      && x.ringId == RingName(id)
      && x.memberAccounts == listing(RingMembersOf(cycleRings, id) + RingMembersOf(shellRings, id))
      && (x.patternType == "cycle" <==> id in RingIds(cycleRings))
      && (x.patternType == "shell" <==> id !in RingIds(cycleRings) && id in RingIds(shellRings))
      && x.riskScore == round1(Mean(x.memberAccounts, scores))
  {
  }

  /** The fields of one ring record: its sorted members are the accounts
      of the rings with its id, its type says which detector made it, its
      risk is the rounded mean score. */
  lemma RingEntryFacts(id: nat, cycleRings: seq<Ring>, shellRings: seq<Ring>, scores: map<string, nat>, round1: real -> real, a: string)
    ensures var x := RingEntry(id, cycleRings, shellRings, scores, round1, SortedListing);
      && x.ringId == RingName(id)
      && (a in x.memberAccounts <==>
            (exists i :: 0 <= i < |cycleRings| && cycleRings[i].id == id && a in Members(cycleRings[i]))
            || (exists i :: 0 <= i < |shellRings| && shellRings[i].id == id && a in Members(shellRings[i])))
      && Distinct(x.memberAccounts)
      && (forall i, j :: 0 <= i < j < |x.memberAccounts| ==> StrLe(x.memberAccounts[i], x.memberAccounts[j]))
      && (x.patternType == "cycle" <==> id in RingIds(cycleRings))
      && (x.patternType == "shell" <==> id !in RingIds(cycleRings) && id in RingIds(shellRings))
      && x.riskScore == round1(Mean(x.memberAccounts, scores))
  {
    var members := RingMembersOf(cycleRings, id) + RingMembersOf(shellRings, id);
    RingEntryShape(id, cycleRings, shellRings, scores, round1, SortedListing);
    SortedListingFacts(members);
    RingMembersOfIff(cycleRings, id, a);
    RingMembersOfIff(shellRings, id, a);
    assert a in SortedListing(members) <==> a in members by {
      assert a in SortedListing(members) <==> a in Elems(SortedListing(members));
    }
  }

  lemma {:induction false} ScoreTotalBound(members: seq<string>, scores: map<string, nat>, cap: nat)
    requires forall a :: a in scores ==> scores[a] <= cap
    ensures ScoreTotal(members, scores) <= cap * |members|
  {
    if members != [] {
      var pre := members[..|members| - 1];
      ScoreTotalBound(pre, scores, cap);
      MulStep(cap, |pre|);
    }
  }

  lemma MulStep(cap: nat, n: nat)
    ensures cap * (n + 1) == cap * n + cap
  {
  }

  lemma RealProduct(cap: nat, n: nat)
    ensures (cap * n) as real == (cap as real) * (n as real)
  {
  }

  lemma DivideBound(t: nat, n: nat, cap: nat)
    requires n > 0 && t <= cap * n
    ensures 0.0 <= (t as real) / (n as real) <= cap as real
  {
    RealProduct(cap, n);
    assert (t as real) <= (cap as real) * (n as real);
  }

  /** The risk before rounding lies between 0 and the largest possible
      score. */
  lemma MeanFacts(members: seq<string>, scores: map<string, nat>, cap: nat)
    requires forall a :: a in scores ==> scores[a] <= cap
    ensures 0.0 <= Mean(members, scores) <= cap as real
  {
    if members != [] {
      ScoreTotalBound(members, scores, cap);
      DivideBound(ScoreTotal(members, scores), |members|, cap);
    }
  }

  /** The summary counts the distinct nodes, the suspicious records and the
      distinct ring ids. */
  lemma ResultFacts(nodes: seq<string>, cycleRings: seq<Ring>, shellRings: seq<Ring>, patterns: LabelMap,
                    scores: map<string, nat>, ringOf: map<string, nat>, processingTime: real,
                    round1: real -> real, round2: real -> real)
    requires Distinct(nodes)
    ensures var res := Result(nodes, cycleRings, shellRings, patterns, scores, ringOf, processingTime, round1, round2);
      && res.summary.totalAccountsAnalyzed == |nodes|
      && res.summary.suspiciousAccountsFlagged == |res.suspiciousAccounts| == |Flagged(Elems(nodes), scores)|
      && res.summary.fraudRingsDetected == |res.fraudRings| == |RingIds(cycleRings) + RingIds(shellRings)|
      && res.summary.processingTimeSeconds == round2(processingTime)
  {
    DistinctElems(nodes);
    SuspiciousListFacts(Elems(nodes), scores, patterns, ringOf);
    FraudRingListFacts(cycleRings, shellRings, scores, round1);
  }
}
