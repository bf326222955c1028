/** Smurfing detection (backend/services/smurfing_detection.py): fan-in
    (many distinct senders into one receiver) and fan-out (one sender to
    many distinct receivers) inside a time window anchored at one of the
    account's transactions. */
module Smurfing {
  import opened Common
  import opened Transactions
  import opened Graph

  /** FanIn groups transactions by receiver and counts senders; FanOut the
      other way round. */
  datatype Role = FanIn | FanOut

  /** The account a transaction is filed under. */
  function KeyOf(t: Transaction, role: Role): string {
    if role == FanIn then t.receiver else t.sender
  }

  /** The counterparty a window counts. */
  function PartyOf(t: Transaction, role: Role): string {
    if role == FanIn then t.sender else t.receiver
  }

  function TypeName(role: Role): string {
    if role == FanIn then "fan_in" else "fan_out"
  }

  /** `fan_in_{threshold}_{hours}h` / `fan_out_{threshold}_{hours}h`. */
  function SmurfLabel(role: Role, threshold: nat, hours: nat): (s: string)
    ensures StartsWith(s, TypeName(role) + "_")
  {
    TypeName(role) + "_" + NatToString(threshold) + "_" + NatToString(hours) + "h"
  }

  /** One entry of the result dict. The window end is kept in seconds. */
  datatype Flag = Flag(accountId: string, patternType: string, patternLabel: string, count: nat, windowStart: Timestamp, windowEnd: int)

  predicate TimeLe(a: Transaction, b: Transaction) {
    a.time.seconds <= b.time.seconds
  }

  lemma TimeLeIsTotalPreorder()
    ensures TotalPreorder(TimeLe)
  {
  }

  /** The transactions filed under `a`, in input order. */
  function TxsOf(txs: seq<Transaction>, a: string, role: Role): seq<Transaction> {
    if txs == [] then []
    else
      var t := txs[|txs| - 1];
      TxsOf(txs[..|txs| - 1], a, role) + (if KeyOf(t, role) == a then [t] else [])
  }

  /** The keys, in order of first appearance: dict order of the grouping. */
  function KeysOf(txs: seq<Transaction>, role: Role): seq<string> {
    if txs == [] then [] else KeysOf(txs[..|txs| - 1], role) + [KeyOf(txs[|txs| - 1], role)]
  }

  /** The distinct counterparties in the window anchored at `s[i]`: every
      later transaction of the sorted list up to `anchor + window`. */
  function Window(s: seq<Transaction>, i: nat, role: Role, window: nat): set<string>
    requires i < |s|
  {
    set k | i <= k < |s| && s[k].time.seconds <= s[i].time.seconds + window :: PartyOf(s[k], role)
  }

  /** The first anchor at or after `from` whose window reaches the
      threshold. */
  function FirstAnchor(s: seq<Transaction>, role: Role, threshold: nat, window: nat, from: nat): Option<nat>
    decreases |s| - from
  {
    if from >= |s| then None
    else if |Window(s, from, role, window)| >= threshold then Some(from)
    else FirstAnchor(s, role, threshold, window, from + 1)
  }

  /** `sorted(tx_list, key=lambda t: t.timestamp)`: a stable sort. */
  function SortByTime(s: seq<Transaction>): (r: seq<Transaction>)
    ensures multiset(r) == multiset(s) && |r| == |s|
    ensures SortedBy(r, TimeLe)
  {
    TimeLeIsTotalPreorder();
    SortBy(s, TimeLe)
  }

  /** The record written for the window anchored at `s[i]`. */
  function FlagAt(s: seq<Transaction>, i: nat, a: string, role: Role, threshold: nat, hours: nat): Flag
    requires i < |s|
  {
    var w := HoursToSeconds(hours);
    Flag(a, TypeName(role), SmurfLabel(role, threshold, hours), |Window(s, i, role, w)|, s[i].time, s[i].time.seconds + w)
  }

  /** The record the detector writes for `a` in role `role`, if any. */
  function Detect(txs: seq<Transaction>, a: string, role: Role, threshold: nat, hours: nat): Option<Flag> {
    var s := SortByTime(TxsOf(txs, a, role));
    match FirstAnchor(s, role, threshold, HoursToSeconds(hours), 0)
    case None => None
    case Some(i) => if i < |s| then Some(FlagAt(s, i, a, role, threshold, hours)) else None
  }

  /** The record for `a` in the result dict, if any: fan-in first,
      fan-out only when fan-in flagged nothing. */
  function Classify(txs: seq<Transaction>, a: string, threshold: nat, hours: nat): Option<Flag> {
    var fanIn := Detect(txs, a, FanIn, threshold, hours);
    if fanIn.Some? then fanIn else Detect(txs, a, FanOut, threshold, hours)
  }

  /** The result dict of `detect_smurfing`. */
  function SmurfingSpec(txs: seq<Transaction>, threshold: nat, hours: nat): map<string, Flag> {
    map a | a in Accounts(txs) && Classify(txs, a, threshold, hours).Some? :: Classify(txs, a, threshold, hours).value
  }
}

module SmurfingDetector {
  import opened Common
  import opened Transactions
  import opened Graph
  import opened Smurfing

  /** The inner loop (smurfing_detection.py:64-69): walk the sorted list
      from the anchor, stopping at the first transaction past the window
      end, and collect the counterparties. */
  method CollectWindow(s: seq<Transaction>, i: nat, role: Role, window: nat) returns (parties: set<string>)
    requires SortedBy(s, TimeLe)
    requires i < |s|
    ensures parties == Window(s, i, role, window)
  {
    var windowEnd := s[i].time.seconds + window;
    parties := {};
    var j := i;
    while j < |s|
      invariant i <= j <= |s|
      invariant parties == set k | i <= k < j :: PartyOf(s[k], role)
      invariant forall k :: i <= k < j ==> s[k].time.seconds <= windowEnd
    {
      if s[j].time.seconds > windowEnd {
        break;
      }
      parties := parties + {PartyOf(s[j], role)};
      j := j + 1;
    }
    WindowStopsAt(s, i, j, role, window);
  }

  /** Once the scan meets a transaction beyond the window end, no later
      one can fall inside it. */
  lemma WindowStopsAt(s: seq<Transaction>, i: nat, j: nat, role: Role, window: nat)
    requires SortedBy(s, TimeLe)
    requires i < |s| && i <= j <= |s|
    requires forall k :: i <= k < j ==> s[k].time.seconds <= s[i].time.seconds + window
    requires j < |s| ==> s[j].time.seconds > s[i].time.seconds + window
    ensures Window(s, i, role, window) == set k | i <= k < j :: PartyOf(s[k], role)
  {
    forall k | j <= k < |s| ensures s[k].time.seconds > s[i].time.seconds + window {
      if j < k { assert TimeLe(s[j], s[k]); }
    }
  }

  /** The anchor loop (smurfing_detection.py:60-80): try each anchor in
      turn and stop at the first whose window reaches the threshold. */
  method FirstQualifyingWindow(s: seq<Transaction>, role: Role, threshold: nat, window: nat) returns (anchor: Option<nat>, count: nat)
    requires SortedBy(s, TimeLe)
    ensures anchor == FirstAnchor(s, role, threshold, window, 0)
    ensures anchor.Some? ==> anchor.value < |s| && count == |Window(s, anchor.value, role, window)|
  {
    var i := 0;
    while i < |s|
      invariant 0 <= i <= |s|
      invariant FirstAnchor(s, role, threshold, window, 0) == FirstAnchor(s, role, threshold, window, i)
    {
      var parties := CollectWindow(s, i, role, window);
      if |parties| >= threshold {
        return Some(i), |parties|;
      }
      i := i + 1;
    }
    return None, 0;
  }

  /** One account's pass body: sort its transactions by timestamp and
      build the record for the first qualifying window. */
  method ScanAccount(txs: seq<Transaction>, a: string, group: seq<Transaction>, role: Role, threshold: nat, hours: nat) returns (flag: Option<Flag>)
    requires group == TxsOf(txs, a, role)
    ensures flag == Detect(txs, a, role, threshold, hours)
  {
    var window := HoursToSeconds(hours);
    var sorted := SortByTime(group);
    var anchor, count := FirstQualifyingWindow(sorted, role, threshold, window);
    if anchor.Some? {
      var start := sorted[anchor.value].time;
      flag := Some(Flag(a, TypeName(role), SmurfLabel(role, threshold, hours), count, start, start.seconds + window));
      assert flag.value == FlagAt(sorted, anchor.value, a, role, threshold, hours);
    } else {
      flag := None;
    }
  }

  lemma TxsOfStep(txs: seq<Transaction>, i: nat, a: string, role: Role)
    requires i < |txs|
    ensures TxsOf(txs[..i + 1], a, role) == TxsOf(txs[..i], a, role) + (if KeyOf(txs[i], role) == a then [txs[i]] else [])
  {
    assert txs[..i + 1][..i] == txs[..i];
  }

  lemma {:induction false} TxsOfEmpty(txs: seq<Transaction>, a: string, role: Role)
    requires a !in KeySet(txs, role)
    ensures TxsOf(txs, a, role) == []
  {
    if txs != [] {
      assert txs[..|txs| - 1] <= txs;
      TxsOfEmpty(txs[..|txs| - 1], a, role);
    }
  }

  /** A role with no transactions for `a` flags nothing. */
  lemma DetectNeedsTransactions(txs: seq<Transaction>, a: string, role: Role, threshold: nat, hours: nat)
    requires a !in KeySet(txs, role)
    ensures Detect(txs, a, role, threshold, hours).None?
  {
    TxsOfEmpty(txs, a, role);
  }

  /** The accounts that appear under `role`. */
  function KeySet(txs: seq<Transaction>, role: Role): set<string> {
    set t | t in txs :: KeyOf(t, role)
  }

  lemma KeySetsAreAccounts(txs: seq<Transaction>)
    ensures KeySet(txs, FanIn) + KeySet(txs, FanOut) == Accounts(txs)
  {
  }

  /** `m` is the `defaultdict(list)` that groups `txs` by `role`, and
      `keys` its insertion order. */
  ghost predicate Indexed(keys: seq<string>, m: map<string, seq<Transaction>>, txs: seq<Transaction>, role: Role) {
    && m.Keys == Elems(keys) == KeySet(txs, role)
    && Distinct(keys)
    && forall a :: a in m ==> m[a] == TxsOf(txs, a, role)
  }

  lemma KeySetStep(txs: seq<Transaction>, i: nat, role: Role)
    requires i < |txs|
    ensures KeySet(txs[..i + 1], role) == KeySet(txs[..i], role) + {KeyOf(txs[i], role)}
  {
    assert txs[..i + 1] == txs[..i] + [txs[i]];
  }

  /** `map[key].append(tx)` keeps the grouping, for every key. */
  lemma GroupsStep(m: map<string, seq<Transaction>>, m': map<string, seq<Transaction>>, txs: seq<Transaction>, i: nat, role: Role)
    requires i < |txs|
    requires forall a :: a in m ==> m[a] == TxsOf(txs[..i], a, role)
    requires var key := KeyOf(txs[i], role);
      m' == m[key := if key in m then m[key] + [txs[i]] else [txs[i]]]
    requires KeyOf(txs[i], role) !in m ==> TxsOf(txs[..i], KeyOf(txs[i], role), role) == []
    ensures forall a :: a in m' ==> m'[a] == TxsOf(txs[..i + 1], a, role)
  {
    forall a | a in m' ensures m'[a] == TxsOf(txs[..i + 1], a, role) {
      TxsOfStep(txs, i, a, role);
    }
  }

  lemma IndexedKeysStep(keys: seq<string>, m: map<string, seq<Transaction>>, keys': seq<string>, m': map<string, seq<Transaction>>,
                    txs: seq<Transaction>, i: nat, role: Role)
    requires i < |txs| && Indexed(keys, m, txs[..i], role)
    requires var key := KeyOf(txs[i], role);
      if key in m then keys' == keys && m' == m[key := m[key] + [txs[i]]]
      else keys' == keys + [key] && m' == m[key := [txs[i]]]
    ensures m'.Keys == Elems(keys') == KeySet(txs[..i + 1], role)
  {
    var key := KeyOf(txs[i], role);
    KeySetStep(txs, i, role);
    if key !in m {
      assert Elems(keys + [key]) == Elems(keys) + {key};
    }
  }
  lemma IndexedDistinctStep(keys: seq<string>, m: map<string, seq<Transaction>>, keys': seq<string>, m': map<string, seq<Transaction>>,
                    txs: seq<Transaction>, i: nat, role: Role)
    requires i < |txs| && Indexed(keys, m, txs[..i], role)
    requires var key := KeyOf(txs[i], role);
      if key in m then keys' == keys && m' == m[key := m[key] + [txs[i]]]
      else keys' == keys + [key] && m' == m[key := [txs[i]]]
    ensures Distinct(keys')
  {
  }
  lemma IndexedGroupsStep(keys: seq<string>, m: map<string, seq<Transaction>>, keys': seq<string>, m': map<string, seq<Transaction>>,
                    txs: seq<Transaction>, i: nat, role: Role)
    requires i < |txs| && Indexed(keys, m, txs[..i], role)
    requires var key := KeyOf(txs[i], role);
      if key in m then keys' == keys && m' == m[key := m[key] + [txs[i]]]
      else keys' == keys + [key] && m' == m[key := [txs[i]]]
    ensures forall a :: a in m' ==> m'[a] == TxsOf(txs[..i + 1], a, role)
  {
    var key := KeyOf(txs[i], role);
    if key !in m {
      TxsOfEmpty(txs[..i], key, role);
    }
    GroupsStep(m, m', txs, i, role);
  }
  /** One iteration of the grouping loop keeps `Indexed`. */
  lemma IndexedStep(keys: seq<string>, m: map<string, seq<Transaction>>, keys': seq<string>, m': map<string, seq<Transaction>>,
                    txs: seq<Transaction>, i: nat, role: Role)
    requires i < |txs| && Indexed(keys, m, txs[..i], role)
    requires var key := KeyOf(txs[i], role);
      if key in m then keys' == keys && m' == m[key := m[key] + [txs[i]]]
      else keys' == keys + [key] && m' == m[key := [txs[i]]]
    ensures Indexed(keys', m', txs[..i + 1], role)
  {
    IndexedKeysStep(keys, m, keys', m', txs, i, role);
    IndexedDistinctStep(keys, m, keys', m', txs, i, role);
    IndexedGroupsStep(keys, m, keys', m', txs, i, role);
  }

  /** `tx_map[key].append(tx)` on a `defaultdict(list)` whose insertion
      order is `keys`. */
  method AppendToGroup(keys: seq<string>, m: map<string, seq<Transaction>>, key: string, tx: Transaction)
      returns (keys': seq<string>, m': map<string, seq<Transaction>>)
    ensures if key in m then keys' == keys && m' == m[key := m[key] + [tx]]
            else keys' == keys + [key] && m' == m[key := [tx]]
  {
    if key in m {
      keys', m' := keys, m[key := m[key] + [tx]];
    } else {
      keys', m' := keys + [key], m[key := [tx]];
    }
  }

  /** The grouping loop (smurfing_detection.py:47-52), one dict per role;
      the key sequences record dict insertion order. */
  method GroupByAccount(txs: seq<Transaction>) returns (receiverKeys: seq<string>, receiverTxs: map<string, seq<Transaction>>,
                                                         senderKeys: seq<string>, senderTxs: map<string, seq<Transaction>>)
    ensures Indexed(receiverKeys, receiverTxs, txs, FanIn)
    ensures Indexed(senderKeys, senderTxs, txs, FanOut)
  {
    receiverKeys, receiverTxs, senderKeys, senderTxs := [], map[], [], map[];
    for i := 0 to |txs|
      invariant Indexed(receiverKeys, receiverTxs, txs[..i], FanIn)
      invariant Indexed(senderKeys, senderTxs, txs[..i], FanOut)
    {
      var keys, m := AppendToGroup(receiverKeys, receiverTxs, txs[i].receiver, txs[i]);
      IndexedStep(receiverKeys, receiverTxs, keys, m, txs, i, FanIn);
      receiverKeys, receiverTxs := keys, m;
      keys, m := AppendToGroup(senderKeys, senderTxs, txs[i].sender, txs[i]);
      IndexedStep(senderKeys, senderTxs, keys, m, txs, i, FanOut);
      senderKeys, senderTxs := keys, m;
    }
    assert txs[..|txs|] == txs;
  }

  /** `detect_smurfing`: the fan-in pass over receivers, then the fan-out
      pass over senders the fan-in pass did not flag. */
  method DetectSmurfing(txs: seq<Transaction>, threshold: nat, hours: nat) returns (results: map<string, Flag>)
    ensures results == SmurfingSpec(txs, threshold, hours)
  {
    var receiverKeys, receiverTxs, senderKeys, senderTxs := GroupByAccount(txs);

    results := map[];
    for i := 0 to |receiverKeys|
      invariant forall a :: a in results <==> a in receiverKeys[..i] && Detect(txs, a, FanIn, threshold, hours).Some?
      invariant forall a :: a in results ==> results[a] == Detect(txs, a, FanIn, threshold, hours).value
    {
      var a := receiverKeys[i];
      assert receiverKeys[..i + 1] == receiverKeys[..i] + [a];
      var flag := ScanAccount(txs, a, receiverTxs[a], FanIn, threshold, hours);
      if flag.Some? {
        results := results[a := flag.value];
      }
    }
    ghost var fanIn := results;
    assert receiverKeys[..|receiverKeys|] == receiverKeys;

    for i := 0 to |senderKeys|
      invariant forall a :: a in results <==> a in fanIn || (a in senderKeys[..i] && Detect(txs, a, FanOut, threshold, hours).Some?)
      invariant forall a :: a in results ==> results[a] == if a in fanIn then fanIn[a] else Detect(txs, a, FanOut, threshold, hours).value
    {
      var a := senderKeys[i];
      assert senderKeys[..i + 1] == senderKeys[..i] + [a];
      if a in results {
        continue;
      }
      var flag := ScanAccount(txs, a, senderTxs[a], FanOut, threshold, hours);
      if flag.Some? {
        results := results[a := flag.value];
      }
    }
    assert senderKeys[..|senderKeys|] == senderKeys;
    SpecMatchesPasses(txs, threshold, hours, receiverTxs, senderTxs, fanIn, results);
  }

  /** One account of the two passes against `Classify`. */
  lemma PassesAt(txs: seq<Transaction>, threshold: nat, hours: nat,
                 receiverTxs: map<string, seq<Transaction>>, senderTxs: map<string, seq<Transaction>>,
                 fanIn: map<string, Flag>, results: map<string, Flag>, a: string)
    requires receiverTxs.Keys == KeySet(txs, FanIn) && senderTxs.Keys == KeySet(txs, FanOut)
    requires a in fanIn <==> a in receiverTxs && Detect(txs, a, FanIn, threshold, hours).Some?
    requires a in fanIn ==> fanIn[a] == Detect(txs, a, FanIn, threshold, hours).value
    requires a in results <==> a in fanIn || (a in senderTxs && Detect(txs, a, FanOut, threshold, hours).Some?)
    requires a in results ==> results[a] == if a in fanIn then fanIn[a] else Detect(txs, a, FanOut, threshold, hours).value
    ensures a in results <==> a in Accounts(txs) && Classify(txs, a, threshold, hours).Some?
    ensures a in results ==> results[a] == Classify(txs, a, threshold, hours).value
  {
    KeySetsAreAccounts(txs);
    if a !in receiverTxs {
      DetectNeedsTransactions(txs, a, FanIn, threshold, hours);
    }
    if a !in senderTxs {
      DetectNeedsTransactions(txs, a, FanOut, threshold, hours);
    }
  }

  lemma SpecAt(txs: seq<Transaction>, threshold: nat, hours: nat, a: string)
    ensures a in SmurfingSpec(txs, threshold, hours) <==> a in Accounts(txs) && Classify(txs, a, threshold, hours).Some?
    ensures a in SmurfingSpec(txs, threshold, hours) ==> SmurfingSpec(txs, threshold, hours)[a] == Classify(txs, a, threshold, hours).value
  {
  }

  /** Ties the two passes to the declarative result. */
  lemma SpecMatchesPasses(txs: seq<Transaction>, threshold: nat, hours: nat,
                          receiverTxs: map<string, seq<Transaction>>, senderTxs: map<string, seq<Transaction>>,
                          fanIn: map<string, Flag>, results: map<string, Flag>)
    requires receiverTxs.Keys == KeySet(txs, FanIn) && senderTxs.Keys == KeySet(txs, FanOut)
    requires forall a :: a in fanIn <==> a in receiverTxs && Detect(txs, a, FanIn, threshold, hours).Some?
    requires forall a :: a in fanIn ==> fanIn[a] == Detect(txs, a, FanIn, threshold, hours).value
    requires forall a :: a in results <==> a in fanIn || (a in senderTxs && Detect(txs, a, FanOut, threshold, hours).Some?)
    requires forall a :: a in results ==> results[a] == if a in fanIn then fanIn[a] else Detect(txs, a, FanOut, threshold, hours).value
    ensures results == SmurfingSpec(txs, threshold, hours)
  {
    var spec := SmurfingSpec(txs, threshold, hours);
    forall a ensures (a in results <==> a in spec) && (a in results ==> results[a] == spec[a]) {
      PassesAt(txs, threshold, hours, receiverTxs, senderTxs, fanIn, results, a);
      SpecAt(txs, threshold, hours, a);
    }
    MapsEqual(results, spec);
  }
}

/** What a smurfing record means, stated without the sorted list: the
    counterparties an account sees in `[start, start + window]`, inclusive,
    and the earliest transaction time at which that reaches the threshold. */
module SmurfingFacts {
  import opened Common
  import opened Transactions
  import opened Graph
  import opened Smurfing

  /** The distinct counterparties of `a`'s transactions (in role `role`)
      whose timestamp is in `[start, start + window]`. */
  function Reach(txs: seq<Transaction>, a: string, role: Role, start: int, window: nat): set<string> {
    set t | t in TxsOf(txs, a, role) && start <= t.time.seconds <= start + window :: PartyOf(t, role)
  }

  /** The same over any list of transactions. */
  function ReachIn(s: seq<Transaction>, role: Role, start: int, window: nat): set<string> {
    set t | t in s && start <= t.time.seconds <= start + window :: PartyOf(t, role)
  }

  lemma {:induction false} FirstAnchorFacts(s: seq<Transaction>, role: Role, threshold: nat, window: nat, from: nat)
    ensures match FirstAnchor(s, role, threshold, window, from)
      case Some(i) =>
        && from <= i < |s| && |Window(s, i, role, window)| >= threshold
        && forall k :: from <= k < i ==> |Window(s, k, role, window)| < threshold
      case None => forall k :: from <= k < |s| ==> |Window(s, k, role, window)| < threshold
    decreases |s| - from
  {
    if from < |s| && |Window(s, from, role, window)| < threshold {
      FirstAnchorFacts(s, role, threshold, window, from + 1);
    }
  }

  /** The first index at or after `from` with the given timestamp. */
  function FirstWithTime(s: seq<Transaction>, seconds: int, from: nat, j: nat): (r: nat)
    requires from <= j < |s| && s[j].time.seconds == seconds
    ensures from <= r <= j && s[r].time.seconds == seconds
    ensures forall k :: from <= k < r ==> s[k].time.seconds != seconds
    decreases j - from
  {
    if s[from].time.seconds == seconds then from else FirstWithTime(s, seconds, from + 1, j)
  }

  /** An anchor with no earlier transaction at its own time sees exactly
      the time range from its timestamp. */
  lemma WindowIsTimeRange(s: seq<Transaction>, i: nat, role: Role, window: nat)
    requires SortedBy(s, TimeLe) && i < |s|
    requires forall k :: 0 <= k < i ==> s[k].time.seconds != s[i].time.seconds
    ensures Window(s, i, role, window) == ReachIn(s, role, s[i].time.seconds, window)
  {
    var start := s[i].time.seconds;
    forall p | p in ReachIn(s, role, start, window) ensures p in Window(s, i, role, window) {
      var t :| t in s && start <= t.time.seconds <= start + window && PartyOf(t, role) == p;
    }
    forall k | i <= k < |s| ensures s[k] in s && start <= s[k].time.seconds {
      if i < k { assert TimeLe(s[i], s[k]); }
    }
  }

  /** An earlier anchor at the same time sees at least as much. */
  lemma TiedWindowCovers(s: seq<Transaction>, k: nat, i: nat, role: Role, window: nat)
    requires k <= i < |s| && s[k].time.seconds == s[i].time.seconds
    ensures |Window(s, i, role, window)| <= |Window(s, k, role, window)|
  {
    assert Window(s, i, role, window) <= Window(s, k, role, window);
    SubsetCard(Window(s, i, role, window), Window(s, k, role, window));
  }

  lemma SubsetCard<T>(a: set<T>, b: set<T>)
    requires a <= b
    ensures |a| <= |b|
  {
    assert b == a + (b - a);
  }

  /** Every transaction time of a sorted list reaches fewer than
      `threshold` counterparties when no anchor up to `bound` qualifies. */
  lemma NoEarlierQualifies(s: seq<Transaction>, role: Role, threshold: nat, window: nat, bound: nat, j: nat)
    requires SortedBy(s, TimeLe) && j < |s| && bound <= |s|
    requires forall k :: 0 <= k < bound ==> |Window(s, k, role, window)| < threshold
    requires bound < |s| ==> s[j].time.seconds < s[bound].time.seconds
    ensures |ReachIn(s, role, s[j].time.seconds, window)| < threshold
  {
    var k0 := FirstWithTime(s, s[j].time.seconds, 0, j);
    WindowIsTimeRange(s, k0, role, window);
  }

  lemma SortedReach(txs: seq<Transaction>, a: string, role: Role, start: int, window: nat)
    ensures ReachIn(SortByTime(TxsOf(txs, a, role)), role, start, window) == Reach(txs, a, role, start, window)
  {
    var g := TxsOf(txs, a, role);
    var s := SortByTime(g);
    forall t ensures t in s <==> t in g {
      assert t in s <==> t in multiset(s);
      assert t in g <==> t in multiset(g);
    }
  }

  lemma SortedMembers(txs: seq<Transaction>, a: string, role: Role)
    ensures forall t :: t in SortByTime(TxsOf(txs, a, role)) <==> t in TxsOf(txs, a, role)
  {
    var g := TxsOf(txs, a, role);
    var s := SortByTime(g);
    forall t ensures t in s <==> t in g {
      assert t in s <==> t in multiset(s);
      assert t in g <==> t in multiset(g);
    }
  }

  /** The record of the first qualifying anchor `i` counts the time range
      from its timestamp, and no earlier time qualifies. */
  lemma AnchorCharacterized(txs: seq<Transaction>, a: string, role: Role, threshold: nat, w: nat, i: nat)
    requires FirstAnchor(SortByTime(TxsOf(txs, a, role)), role, threshold, w, 0) == Some(i)
    ensures var s := SortByTime(TxsOf(txs, a, role));
      && i < |s| && s[i] in TxsOf(txs, a, role)
      && |Window(s, i, role, w)| == |Reach(txs, a, role, s[i].time.seconds, w)| >= threshold
      && forall t :: t in TxsOf(txs, a, role) && t.time.seconds < s[i].time.seconds ==> |Reach(txs, a, role, t.time.seconds, w)| < threshold
  {
    var g := TxsOf(txs, a, role);
    var s := SortByTime(g);
    FirstAnchorFacts(s, role, threshold, w, 0);
    SortedMembers(txs, a, role);
    forall k | 0 <= k < i ensures s[k].time.seconds != s[i].time.seconds {
      if s[k].time.seconds == s[i].time.seconds {
        TiedWindowCovers(s, k, i, role, w);
      }
    }
    WindowIsTimeRange(s, i, role, w);
    SortedReach(txs, a, role, s[i].time.seconds, w);
    assert s[i] in s;
    forall t | t in g && t.time.seconds < s[i].time.seconds
      ensures |Reach(txs, a, role, t.time.seconds, w)| < threshold
    {
      var j :| 0 <= j < |s| && s[j] == t;
      NoEarlierQualifies(s, role, threshold, w, i, j);
      SortedReach(txs, a, role, t.time.seconds, w);
    }
  }

  /** With no qualifying anchor, no transaction time qualifies. */
  lemma NoAnchorCharacterized(txs: seq<Transaction>, a: string, role: Role, threshold: nat, w: nat)
    requires FirstAnchor(SortByTime(TxsOf(txs, a, role)), role, threshold, w, 0).None?
    ensures forall t :: t in TxsOf(txs, a, role) ==> |Reach(txs, a, role, t.time.seconds, w)| < threshold
  {
    var g := TxsOf(txs, a, role);
    var s := SortByTime(g);
    FirstAnchorFacts(s, role, threshold, w, 0);
    SortedMembers(txs, a, role);
    forall t | t in g ensures |Reach(txs, a, role, t.time.seconds, w)| < threshold {
      var j :| 0 <= j < |s| && s[j] == t;
      NoEarlierQualifies(s, role, threshold, w, |s|, j);
      SortedReach(txs, a, role, t.time.seconds, w);
    }
  }

  /** `Detect` picks the earliest transaction time whose time range
      reaches the threshold, and counts exactly that range; it flags
      nothing when no time does. */
  lemma DetectCharacterized(txs: seq<Transaction>, a: string, role: Role, threshold: nat, hours: nat)
    ensures var w := HoursToSeconds(hours);
      match Detect(txs, a, role, threshold, hours)
      case Some(f) =>
        && f.accountId == a && f.patternType == TypeName(role) && f.patternLabel == SmurfLabel(role, threshold, hours)
        && (exists t :: t in TxsOf(txs, a, role) && t.time == f.windowStart)
        && f.windowEnd == f.windowStart.seconds + w
        && f.count == |Reach(txs, a, role, f.windowStart.seconds, w)|
        && f.count >= threshold
        && forall t :: t in TxsOf(txs, a, role) && t.time.seconds < f.windowStart.seconds ==> |Reach(txs, a, role, t.time.seconds, w)| < threshold
      case None =>
        forall t :: t in TxsOf(txs, a, role) ==> |Reach(txs, a, role, t.time.seconds, w)| < threshold
  {
    var w := HoursToSeconds(hours);
    var s := SortByTime(TxsOf(txs, a, role));
    match FirstAnchor(s, role, threshold, w, 0)
    case Some(i) =>
      AnchorCharacterized(txs, a, role, threshold, w, i);
    case None =>
      NoAnchorCharacterized(txs, a, role, threshold, w);
  }

  lemma {:induction false} TxsOfMembers(txs: seq<Transaction>, a: string, role: Role)
    ensures forall t :: t in TxsOf(txs, a, role) <==> t in txs && KeyOf(t, role) == a
  {
    if txs != [] {
      var p := txs[..|txs| - 1];
      TxsOfMembers(p, a, role);
      assert txs == p + [txs[|txs| - 1]];
    }
  }

  /** Every record is filed under its own account, reaches the threshold,
      and carries the label of the pass that found it. */
  lemma SmurfingRecords(txs: seq<Transaction>, threshold: nat, hours: nat, a: string)
    requires a in SmurfingSpec(txs, threshold, hours)
    ensures var f := SmurfingSpec(txs, threshold, hours)[a];
      && f.accountId == a && f.count >= threshold
      && f.windowEnd == f.windowStart.seconds + HoursToSeconds(hours)
      && ((f.patternType == "fan_in" && f.patternLabel == SmurfLabel(FanIn, threshold, hours))
          || (f.patternType == "fan_out" && f.patternLabel == SmurfLabel(FanOut, threshold, hours)))
  {
    DetectCharacterized(txs, a, FanIn, threshold, hours);
    DetectCharacterized(txs, a, FanOut, threshold, hours);
  }

  /** An account some pass flags is an account of the transactions. */
  lemma DetectedIsAccount(txs: seq<Transaction>, a: string, role: Role, threshold: nat, hours: nat)
    requires Detect(txs, a, role, threshold, hours).Some?
    ensures a in Accounts(txs)
  {
    DetectCharacterized(txs, a, role, threshold, hours);
    var t :| t in TxsOf(txs, a, role) && t.time == Detect(txs, a, role, threshold, hours).value.windowStart;
    TxsOfMembers(txs, a, role);
    assert KeyOf(t, role) == a && t in txs;
  }

  /** The fan-out pass never overwrites a fan-in record. */
  lemma FanInPriority(txs: seq<Transaction>, threshold: nat, hours: nat, a: string)
    requires Detect(txs, a, FanIn, threshold, hours).Some?
    ensures a in SmurfingSpec(txs, threshold, hours)
    ensures SmurfingSpec(txs, threshold, hours)[a] == Detect(txs, a, FanIn, threshold, hours).value
    ensures SmurfingSpec(txs, threshold, hours)[a].patternType == "fan_in"
  {
    DetectCharacterized(txs, a, FanIn, threshold, hours);
    DetectedIsAccount(txs, a, FanIn, threshold, hours);
  }

  /** Some transaction time of `a` in role `role` reaches the threshold. */
  ghost predicate Qualifies(txs: seq<Transaction>, a: string, role: Role, threshold: nat, hours: nat) {
    exists t :: t in TxsOf(txs, a, role) && |Reach(txs, a, role, t.time.seconds, HoursToSeconds(hours))| >= threshold
  }

  /** A pass flags `a` exactly when some window of `a` reaches the
      threshold. */
  lemma QualifiesDetects(txs: seq<Transaction>, a: string, role: Role, threshold: nat, hours: nat)
    ensures Qualifies(txs, a, role, threshold, hours) <==> Detect(txs, a, role, threshold, hours).Some?
  {
    DetectCharacterized(txs, a, role, threshold, hours);
    if Detect(txs, a, role, threshold, hours).Some? {
      var f := Detect(txs, a, role, threshold, hours).value;
      var t :| t in TxsOf(txs, a, role) && t.time == f.windowStart;
      assert |Reach(txs, a, role, t.time.seconds, HoursToSeconds(hours))| >= threshold;
    }
  }

  /** An account is in the result exactly when some window of it, in
      either role, reaches the threshold; the record is the fan-in one
      whenever fan-in qualifies. */
  lemma SmurfingMembership(txs: seq<Transaction>, threshold: nat, hours: nat, a: string)
    ensures a in SmurfingSpec(txs, threshold, hours) <==>
      Qualifies(txs, a, FanIn, threshold, hours) || Qualifies(txs, a, FanOut, threshold, hours)
    ensures Qualifies(txs, a, FanIn, threshold, hours) ==> SmurfingSpec(txs, threshold, hours)[a].patternType == "fan_in"
    ensures !Qualifies(txs, a, FanIn, threshold, hours) && Qualifies(txs, a, FanOut, threshold, hours) ==>
      SmurfingSpec(txs, threshold, hours)[a].patternType == "fan_out"
  {
    QualifiesDetects(txs, a, FanIn, threshold, hours);
    QualifiesDetects(txs, a, FanOut, threshold, hours);
    if Qualifies(txs, a, FanIn, threshold, hours) {
      FanInPriority(txs, threshold, hours, a);
    } else if Qualifies(txs, a, FanOut, threshold, hours) {
      DetectedIsAccount(txs, a, FanOut, threshold, hours);
      DetectCharacterized(txs, a, FanOut, threshold, hours);
    }
  }
}
