/** The account graph (backend/services/graph_builder.py): one node per
    account, one edge per ordered (sender, receiver) pair, each edge
    aggregating the transactions of its pair. The networkx `DiGraph` is
    replaced by explicit maps: `nodes` in insertion order, `succ` giving
    each node's successors in the order their edges were first added,
    `edges` keyed by the pair. */
module Graph {
  import opened Common
  import opened Transactions

  datatype TxRecord = TxRecord(transactionId: string, amount: real, timestamp: Timestamp)

  /** Edge attributes: the summed amount, the id and timestamp written when
      the edge was created, and the ordered contribution list. */
  datatype Edge = Edge(amount: real, timestamp: Timestamp, transactionId: string, transactions: seq<TxRecord>)

  datatype Graph = Graph(nodes: seq<string>, succ: map<string, seq<string>>, edges: map<(string, string), Edge>)

  function RecordOf(tx: Transaction): TxRecord {
    TxRecord(tx.id, tx.amount, tx.time)
  }

  /** The structural invariant networkx keeps for a `DiGraph`. */
  ghost predicate WellFormed(g: Graph) {
    && Distinct(g.nodes)
    && g.succ.Keys == Elems(g.nodes)
    && (forall n :: n in g.succ ==> Distinct(g.succ[n]) && Elems(g.succ[n]) <= Elems(g.nodes))
    && (forall a, b :: (a, b) in g.edges <==> a in g.succ && b in g.succ[a])
  }

  // ---------------------------------------------------------------------
  // Reference definition: the graph as a left fold over the transactions.
  // ---------------------------------------------------------------------

  function AddNode(g: Graph, n: string): Graph {
    if n in g.succ then g else Graph(g.nodes + [n], g.succ[n := []], g.edges)
  }

  /** One iteration of the builder loop (graph_builder.py:26-56). */
  function AddTransaction(g: Graph, tx: Transaction): Graph {
    var key := (tx.sender, tx.receiver);
    if key in g.edges then
      var e := g.edges[key];
      g.(edges := g.edges[key := e.(transactions := e.transactions + [RecordOf(tx)], amount := e.amount + tx.amount)])
    else
      var g1 := AddNode(AddNode(g, tx.sender), tx.receiver);
      var out := if tx.sender in g1.succ then g1.succ[tx.sender] else [];
      Graph(g1.nodes, g1.succ[tx.sender := out + [tx.receiver]],
            g1.edges[key := Edge(tx.amount, tx.time, tx.id, [RecordOf(tx)])])
  }

  function Aggregate(txs: seq<Transaction>): Graph {
    if txs == [] then Graph([], map[], map[])
    else AddTransaction(Aggregate(txs[..|txs| - 1]), txs[|txs| - 1])
  }

  /** `build_transaction_graph`: a single pass that locates or creates the
      edge of each transaction, appends the transaction to it and adds its
      amount. */
  method BuildTransactionGraph(txs: seq<Transaction>) returns (g: Graph)
    ensures g == Aggregate(txs)
    ensures WellFormed(g)
  {
    var nodes: seq<string> := [];
    var succ: map<string, seq<string>> := map[];
    var edges: map<(string, string), Edge> := map[];
    var i := 0;
    while i < |txs|
      invariant 0 <= i <= |txs|
      invariant Graph(nodes, succ, edges) == Aggregate(txs[..i])
    {
      var tx := txs[i];
      assert txs[..i + 1][..i] == txs[..i];
      var key := (tx.sender, tx.receiver);
      if key in edges {
        var e := edges[key];
        edges := edges[key := e.(transactions := e.transactions + [RecordOf(tx)], amount := e.amount + tx.amount)];
      } else {
        if tx.sender !in succ {
          nodes := nodes + [tx.sender];
          succ := succ[tx.sender := []];
        }
        if tx.receiver !in succ {
          nodes := nodes + [tx.receiver];
          succ := succ[tx.receiver := []];
        }
        succ := succ[tx.sender := succ[tx.sender] + [tx.receiver]];
        edges := edges[key := Edge(tx.amount, tx.time, tx.id, [RecordOf(tx)])];
      }
      i := i + 1;
    }
    assert txs[..|txs|] == txs;
    g := Graph(nodes, succ, edges);
    AggregateWellFormed(txs);
  }

  // ---------------------------------------------------------------------
  // What the graph records, in terms of the input.
  // ---------------------------------------------------------------------

  /** The transactions of the pair (s, r), in input order. */
  function PairTxs(txs: seq<Transaction>, s: string, r: string): seq<Transaction> {
    if txs == [] then []
    else
      var t := txs[|txs| - 1];
      PairTxs(txs[..|txs| - 1], s, r) + (if t.sender == s && t.receiver == r then [t] else [])
  }

  function Records(txs: seq<Transaction>): seq<TxRecord> {
    if txs == [] then [] else Records(txs[..|txs| - 1]) + [RecordOf(txs[|txs| - 1])]
  }

  function SumAmounts(txs: seq<Transaction>): real {
    if txs == [] then 0.0 else SumAmounts(txs[..|txs| - 1]) + txs[|txs| - 1].amount
  }

  /** `s` with every element after its first occurrence removed. */
  function FirstSeen(s: seq<string>): seq<string> {
    if s == [] then []
    else
      var prefix := FirstSeen(s[..|s| - 1]);
      if s[|s| - 1] in prefix then prefix else prefix + [s[|s| - 1]]
  }

  /** Sender then receiver of every transaction, in input order. */
  function Participants(txs: seq<Transaction>): seq<string> {
    if txs == [] then [] else Participants(txs[..|txs| - 1]) + [txs[|txs| - 1].sender, txs[|txs| - 1].receiver]
  }

  /** The receivers of `s`'s transactions, in input order. */
  function ReceiversOf(txs: seq<Transaction>, s: string): seq<string> {
    if txs == [] then []
    else
      var t := txs[|txs| - 1];
      ReceiversOf(txs[..|txs| - 1], s) + (if t.sender == s then [t.receiver] else [])
  }

  function Accounts(txs: seq<Transaction>): set<string> {
    (set t | t in txs :: t.sender) + (set t | t in txs :: t.receiver)
  }

  lemma {:induction false} FirstSeenFacts(s: seq<string>)
    ensures Distinct(FirstSeen(s))
    ensures Elems(FirstSeen(s)) == Elems(s)
  {
    if s != [] {
      FirstSeenFacts(s[..|s| - 1]);
      assert s == s[..|s| - 1] + [s[|s| - 1]];
      assert Elems(s) == Elems(s[..|s| - 1]) + {s[|s| - 1]};
    }
  }

  lemma {:induction false} ParticipantsAreAccounts(txs: seq<Transaction>)
    ensures Elems(Participants(txs)) == Accounts(txs)
  {
    if txs != [] {
      var p := txs[..|txs| - 1];
      ParticipantsAreAccounts(p);
      assert txs == p + [txs[|txs| - 1]];
      assert Accounts(txs) == Accounts(p) + {txs[|txs| - 1].sender, txs[|txs| - 1].receiver};
    }
  }

  lemma FirstSeenAppend(s: seq<string>, x: string)
    ensures FirstSeen(s + [x]) == if x in Elems(s) then FirstSeen(s) else FirstSeen(s) + [x]
  {
    assert (s + [x])[..|s|] == s;
    FirstSeenFacts(s);
  }

  /** The edge keys are exactly the pairs that occur in the input. */
  lemma {:induction false} AggregateEdgeKeys(txs: seq<Transaction>)
    ensures forall a, b :: (a, b) in Aggregate(txs).edges <==> PairTxs(txs, a, b) != []
  {
    if txs != [] {
      var p := txs[..|txs| - 1];
      var t := txs[|txs| - 1];
      AggregateEdgeKeys(p);
      assert Aggregate(txs).edges.Keys == Aggregate(p).edges.Keys + {(t.sender, t.receiver)};
      forall a, b ensures (PairTxs(txs, a, b) != []) <==> (PairTxs(p, a, b) != [] || (a == t.sender && b == t.receiver)) {
      }
    }
  }

  /** `add_node` keeps the node list the first-seen order of the accounts. */
  lemma AddNodeFirstSeen(g: Graph, ps: seq<string>, n: string)
    requires g.nodes == FirstSeen(ps) && g.succ.Keys == Elems(g.nodes)
    ensures AddNode(g, n).nodes == FirstSeen(ps + [n])
    ensures AddNode(g, n).succ.Keys == Elems(AddNode(g, n).nodes)
  {
    FirstSeenFacts(ps);
    FirstSeenAppend(ps, n);
  }

  /** One transaction appends its sender and receiver to the node list
      unless they are already there. */
  lemma AddTransactionNodes(g: Graph, ps: seq<string>, t: Transaction)
    requires g.nodes == FirstSeen(ps) && g.succ.Keys == Elems(g.nodes)
    requires (t.sender, t.receiver) in g.edges ==> t.sender in ps && t.receiver in ps
    ensures AddTransaction(g, t).nodes == FirstSeen(ps + [t.sender, t.receiver])
    ensures AddTransaction(g, t).succ.Keys == Elems(AddTransaction(g, t).nodes)
  {
    assert ps + [t.sender, t.receiver] == (ps + [t.sender]) + [t.receiver];
    if (t.sender, t.receiver) in g.edges {
      FirstSeenAppend(ps, t.sender);
      assert t.receiver in ps + [t.sender];
      FirstSeenAppend(ps + [t.sender], t.receiver);
    } else {
      AddNodeFirstSeen(g, ps, t.sender);
      AddNodeFirstSeen(AddNode(g, t.sender), ps + [t.sender], t.receiver);
    }
  }

  /** Nodes are the accounts in order of first appearance, each with a
      successor entry. */
  lemma {:induction false} AggregateNodes(txs: seq<Transaction>)
    ensures Aggregate(txs).nodes == FirstSeen(Participants(txs))
    ensures Aggregate(txs).succ.Keys == Elems(Aggregate(txs).nodes)
  {
    if txs != [] {
      var p := txs[..|txs| - 1];
      var t := txs[|txs| - 1];
      AggregateNodes(p);
      var ps := Participants(p);
      if (t.sender, t.receiver) in Aggregate(p).edges {
        AggregateEdgeKeys(p);
        PairTxsAccounts(p, t.sender, t.receiver);
        ParticipantsAreAccounts(p);
        assert t.sender in Elems(ps) && t.receiver in Elems(ps);
      }
      AddTransactionNodes(Aggregate(p), ps, t);
    }
  }

  lemma {:induction false} ReceiversOfStep(txs: seq<Transaction>, a: string)
    requires txs != []
    ensures ReceiversOf(txs, a) == ReceiversOf(txs[..|txs| - 1], a) + (if txs[|txs| - 1].sender == a then [txs[|txs| - 1].receiver] else [])
  {
  }

  /** A node that is not yet an account of the prefix has no receivers. */
  lemma FreshNodeReceivers(p: seq<Transaction>, a: string)
    requires a !in Aggregate(p).succ
    ensures ReceiversOf(p, a) == []
  {
    AggregateNodes(p);
    FirstSeenFacts(Participants(p));
    ParticipantsAreAccounts(p);
    ReceiversOfAccounts(p, a);
  }

  /** Node `a`'s successor list holds its receivers in order of first
      appearance: networkx's successor order. */
  lemma {:induction false} AggregateSuccAt(txs: seq<Transaction>, a: string)
    requires a in Aggregate(txs).succ
    ensures Aggregate(txs).succ[a] == FirstSeen(ReceiversOf(txs, a))
  {
    var p := txs[..|txs| - 1];
    var t := txs[|txs| - 1];
    var g := Aggregate(p);
    ReceiversOfStep(txs, a);
    var rp := ReceiversOf(p, a);
    if (t.sender, t.receiver) in g.edges {
      AggregateSuccAt(p, a);
      assert Aggregate(txs).succ == g.succ;
      assert rp + [] == rp;
      if a == t.sender {
        AggregateEdgeKeys(p);
        PairTxsReceivers(p, a, t.receiver);
        FirstSeenAppend(rp, t.receiver);
      }
    } else {
      var g1 := AddNode(AddNode(g, t.sender), t.receiver);
      assert Aggregate(txs).succ == g1.succ[t.sender := g1.succ[t.sender] + [t.receiver]];
      if a in g.succ {
        AggregateSuccAt(p, a);
        assert g1.succ[a] == g.succ[a];
      } else {
        FreshNodeReceivers(p, a);
        assert g1.succ[a] == [];
        assert FirstSeen([]) == [];
      }
      if a == t.sender {
        AggregateEdgeKeys(p);
        PairTxsReceivers(p, a, t.receiver);
        FirstSeenAppend(rp, t.receiver);
      }
    }
  }

  lemma AggregateSucc(txs: seq<Transaction>)
    ensures forall a :: a in Aggregate(txs).succ ==> Aggregate(txs).succ[a] == FirstSeen(ReceiversOf(txs, a))
  {
    forall a | a in Aggregate(txs).succ ensures Aggregate(txs).succ[a] == FirstSeen(ReceiversOf(txs, a)) {
      AggregateSuccAt(txs, a);
    }
  }

  lemma {:induction false} ReceiversOfAccounts(txs: seq<Transaction>, a: string)
    requires a !in Accounts(txs)
    ensures ReceiversOf(txs, a) == []
  {
    if txs != [] {
      var p := txs[..|txs| - 1];
      assert txs == p + [txs[|txs| - 1]];
      assert Accounts(p) <= Accounts(txs);
      ReceiversOfAccounts(p, a);
    }
  }

  lemma AggregateWellFormed(txs: seq<Transaction>)
    ensures WellFormed(Aggregate(txs))
  {
    var g := Aggregate(txs);
    AggregateNodes(txs);
    AggregateSucc(txs);
    AggregateEdgeKeys(txs);
    FirstSeenFacts(Participants(txs));
    ParticipantsAreAccounts(txs);
    forall n | n in g.succ ensures Distinct(g.succ[n]) && Elems(g.succ[n]) <= Elems(g.nodes) {
      FirstSeenFacts(ReceiversOf(txs, n));
      ReceiversAreAccounts(txs, n);
    }
    forall a, b ensures (a, b) in g.edges <==> a in g.succ && b in g.succ[a] {
      FirstSeenFacts(ReceiversOf(txs, a));
      PairTxsReceivers(txs, a, b);
      if (a, b) in g.edges { PairTxsAccounts(txs, a, b); }
    }
  }

  lemma {:induction false} ReceiversAreAccounts(txs: seq<Transaction>, a: string)
    ensures Elems(ReceiversOf(txs, a)) <= Accounts(txs)
  {
    if txs != [] {
      var p := txs[..|txs| - 1];
      assert txs == p + [txs[|txs| - 1]];
      assert Accounts(p) <= Accounts(txs);
      ReceiversAreAccounts(p, a);
    }
  }

  lemma {:induction false} PairTxsReceivers(txs: seq<Transaction>, a: string, b: string)
    ensures (PairTxs(txs, a, b) != []) <==> b in Elems(ReceiversOf(txs, a))
  {
    if txs != [] {
      PairTxsReceivers(txs[..|txs| - 1], a, b);
    }
  }

  lemma {:induction false} PairTxsAccounts(txs: seq<Transaction>, a: string, b: string)
    requires PairTxs(txs, a, b) != []
    ensures a in Accounts(txs) && b in Accounts(txs)
  {
    var p := txs[..|txs| - 1];
    assert txs == p + [txs[|txs| - 1]];
    assert Accounts(p) <= Accounts(txs);
    if PairTxs(p, a, b) != [] { PairTxsAccounts(p, a, b); }
  }

  /** Every node is the sender or receiver of some transaction, and every
      such account is a node. */
  lemma NodesAreAccounts(txs: seq<Transaction>)
    ensures Elems(Aggregate(txs).nodes) == Accounts(txs)
    ensures Distinct(Aggregate(txs).nodes)
  {
    AggregateNodes(txs);
    FirstSeenFacts(Participants(txs));
    ParticipantsAreAccounts(txs);
  }

  /** An edge (s, r) exists iff some transaction goes from s to r; repeated
      pairs collapse into that one edge and a self-loop is kept. */
  lemma EdgeIffTransaction(txs: seq<Transaction>, s: string, r: string)
    ensures (s, r) in Aggregate(txs).edges <==> exists t :: t in txs && t.sender == s && t.receiver == r
  {
    AggregateEdgeKeys(txs);
    PairTxsMembers(txs, s, r);
  }

  lemma {:induction false} PairTxsMembers(txs: seq<Transaction>, s: string, r: string)
    ensures forall t :: t in PairTxs(txs, s, r) <==> t in txs && t.sender == s && t.receiver == r
  {
    if txs != [] {
      var p := txs[..|txs| - 1];
      PairTxsMembers(p, s, r);
      assert txs == p + [txs[|txs| - 1]];
    }
  }

  lemma PairTxsStep(txs: seq<Transaction>, s: string, r: string)
    requires txs != []
    ensures PairTxs(txs, s, r) == PairTxs(txs[..|txs| - 1], s, r) +
      (if txs[|txs| - 1].sender == s && txs[|txs| - 1].receiver == r then [txs[|txs| - 1]] else [])
  {
  }

  lemma RecordsAppend(q: seq<Transaction>, t: Transaction)
    ensures Records(q + [t]) == Records(q) + [RecordOf(t)]
    ensures SumAmounts(q + [t]) == SumAmounts(q) + t.amount
  {
    assert (q + [t])[..|q|] == q;
  }

  /** Edge `e` aggregates the transactions `q`: its contribution list is
      `q` in order, its amount their sum, and its `transaction_id` and
      `timestamp` those of the first of them. */
  predicate Summarizes(e: Edge, q: seq<Transaction>) {
    && q != []
    && e.transactions == Records(q)
    && e.amount == SumAmounts(q)
    && e.transactionId == q[0].id
    && e.timestamp == q[0].time
  }

  lemma SummarizesAppend(e: Edge, q: seq<Transaction>, t: Transaction)
    requires Summarizes(e, q)
    ensures Summarizes(e.(transactions := e.transactions + [RecordOf(t)], amount := e.amount + t.amount), q + [t])
  {
    RecordsAppend(q, t);
  }

  lemma SummarizesFirst(t: Transaction)
    ensures Summarizes(Edge(t.amount, t.time, t.id, [RecordOf(t)]), [t])
  {
    RecordsAppend([], t);
    assert [] + [t] == [t];
  }

  /** An edge's contribution list is exactly its pair's transactions in
      input order, its amount their sum, and its `transaction_id` and
      `timestamp` stay those of the first of them: later transactions of
      the pair never overwrite them. */
  lemma {:induction false} EdgeAggregates(txs: seq<Transaction>, s: string, r: string)
    requires (s, r) in Aggregate(txs).edges
    ensures Summarizes(Aggregate(txs).edges[(s, r)], PairTxs(txs, s, r))
  {
    var p := txs[..|txs| - 1];
    var t := txs[|txs| - 1];
    var g := Aggregate(p);
    PairTxsStep(txs, s, r);
    var pp := PairTxs(p, s, r);
    if (s, r) in g.edges {
      EdgeAggregates(p, s, r);
      if t.sender == s && t.receiver == r {
        SummarizesAppend(g.edges[(s, r)], pp, t);
      } else {
        assert pp + [] == pp;
      }
    } else {
      AggregateEdgeKeys(p);
      assert pp == [] && [] + [t] == [t];
      SummarizesFirst(t);
    }
  }

  // ---------------------------------------------------------------------
  // Every transaction is in exactly one contribution list.
  // ---------------------------------------------------------------------

  function EdgeCount(g: Graph, n: string, out: seq<string>): nat {
    if out == [] then 0
    else
      var m := out[|out| - 1];
      EdgeCount(g, n, out[..|out| - 1]) + (if (n, m) in g.edges then |g.edges[(n, m)].transactions| else 0)
  }

  function NodeCount(g: Graph, ns: seq<string>): nat {
    if ns == [] then 0
    else
      var n := ns[|ns| - 1];
      NodeCount(g, ns[..|ns| - 1]) + (if n in g.succ then EdgeCount(g, n, g.succ[n]) else 0)
  }

  /** The total length of all contribution lists, node by node and, within
      a node, edge by edge in successor order. */
  function RecordCount(g: Graph): nat {
    NodeCount(g, g.nodes)
  }

  lemma {:induction false} EdgeCountBump(g: Graph, g': Graph, n: string, out: seq<string>, key: (string, string))
    requires forall m :: m in out && (n, m) != key ==> ((n, m) in g.edges <==> (n, m) in g'.edges)
    requires forall m :: m in out && (n, m) != key && (n, m) in g.edges ==> |g'.edges[(n, m)].transactions| == |g.edges[(n, m)].transactions|
    requires key in g.edges && key in g'.edges && |g'.edges[key].transactions| == |g.edges[key].transactions| + 1
    requires Distinct(out)
    ensures EdgeCount(g', n, out) == EdgeCount(g, n, out) + (if key.0 == n && key.1 in out then 1 else 0)
  {
    if out != [] {
      var pre := out[..|out| - 1];
      assert Elems(pre) <= Elems(out);
      EdgeCountBump(g, g', n, pre, key);
      assert out == pre + [out[|out| - 1]];
    }
  }

  lemma {:induction false} EdgeCountSame(g: Graph, g': Graph, n: string, out: seq<string>)
    requires forall m :: m in out ==> ((n, m) in g.edges <==> (n, m) in g'.edges)
    requires forall m :: m in out && (n, m) in g.edges ==> |g'.edges[(n, m)].transactions| == |g.edges[(n, m)].transactions|
    ensures EdgeCount(g', n, out) == EdgeCount(g, n, out)
  {
    if out != [] {
      EdgeCountSame(g, g', n, out[..|out| - 1]);
    }
  }

  lemma {:induction false} NodeCountBump(g: Graph, g': Graph, ns: seq<string>, s: string, d: nat)
    requires Distinct(ns)
    requires forall n :: n in ns && n != s ==> (n in g.succ <==> n in g'.succ)
    requires forall n :: n in ns && n != s && n in g.succ ==> EdgeCount(g', n, g'.succ[n]) == EdgeCount(g, n, g.succ[n])
    requires s in ns ==> s in g.succ && s in g'.succ && EdgeCount(g', s, g'.succ[s]) == EdgeCount(g, s, g.succ[s]) + d
    ensures NodeCount(g', ns) == NodeCount(g, ns) + (if s in ns then d else 0)
  {
    if ns != [] {
      var pre := ns[..|ns| - 1];
      assert Elems(pre) <= Elems(ns);
      assert ns == pre + [ns[|ns| - 1]];
      assert s == ns[|ns| - 1] ==> s !in pre;
      NodeCountBump(g, g', pre, s, d);
    }
  }

  lemma {:induction false} NodeCountFreshTail(g: Graph, ns: seq<string>, extra: seq<string>)
    requires forall n :: n in extra ==> n in g.succ && g.succ[n] == []
    ensures NodeCount(g, ns + extra) == NodeCount(g, ns)
    decreases |extra|
  {
    if extra == [] {
      assert ns + extra == ns;
    } else {
      var pre := extra[..|extra| - 1];
      var all := ns + extra;
      var n := extra[|extra| - 1];
      assert all[..|all| - 1] == ns + pre;
      assert all[|all| - 1] == n;
      assert n in extra;
      assert n in g.succ && g.succ[n] == [];
      assert EdgeCount(g, n, []) == 0;
      assert NodeCount(g, all) == NodeCount(g, ns + pre) + 0;
      assert forall x :: x in pre ==> x in extra;
      NodeCountFreshTail(g, ns, pre);
    }
  }

  lemma AddToExistingEdgeCount(g: Graph, tx: Transaction)
    requires WellFormed(g) && (tx.sender, tx.receiver) in g.edges
    ensures RecordCount(AddTransaction(g, tx)) == RecordCount(g) + 1
  {
    var key := (tx.sender, tx.receiver);
    var g' := AddTransaction(g, tx);
    assert g'.succ == g.succ && g'.nodes == g.nodes;
    forall n | n in g.nodes && n in g.succ
      ensures EdgeCount(g', n, g'.succ[n]) == EdgeCount(g, n, g.succ[n]) + (if n == tx.sender then 1 else 0)
    {
      EdgeCountBump(g, g', n, g.succ[n], key);
    }
    NodeCountBump(g, g', g.nodes, tx.sender, 1);
  }

  /** Adding one node, with no edges, leaves the count unchanged. */
  lemma AddNodeCount(g: Graph, n: string)
    requires g.succ.Keys == Elems(g.nodes) && Distinct(g.nodes)
    ensures var g1 := AddNode(g, n);
      && RecordCount(g1) == RecordCount(g) && g1.edges == g.edges
      && g1.succ.Keys == Elems(g1.nodes) && Distinct(g1.nodes) && n in g1.succ
      && (n !in g.succ ==> g1.succ[n] == [])
      && forall m :: m in g.succ ==> m in g1.succ && g1.succ[m] == g.succ[m]
  {
    if n !in g.succ {
      var g1 := AddNode(g, n);
      forall m | m in g.nodes && m in g.succ ensures EdgeCount(g1, m, g1.succ[m]) == EdgeCount(g, m, g.succ[m]) {
        EdgeCountSame(g, g1, m, g.succ[m]);
      }
      NodeCountBump(g, g1, g.nodes, n, 0);
      NodeCountFreshTail(g1, g.nodes, [n]);
      assert Elems(g1.nodes) == Elems(g.nodes) + {n};
    }
  }

  /** Appending a new edge (s, r) to s's successor list adds its records. */
  lemma AppendEdgeCount(g1: Graph, s: string, r: string, e: Edge)
    requires s in g1.succ && r !in g1.succ[s] && (s, r) !in g1.edges
    requires Distinct(g1.nodes) && s in g1.nodes
    ensures NodeCount(Graph(g1.nodes, g1.succ[s := g1.succ[s] + [r]], g1.edges[(s, r) := e]), g1.nodes)
         == NodeCount(g1, g1.nodes) + |e.transactions|
  {
    var out := g1.succ[s];
    var g' := Graph(g1.nodes, g1.succ[s := out + [r]], g1.edges[(s, r) := e]);
    forall n | n in g1.nodes && n != s && n in g1.succ ensures EdgeCount(g', n, g'.succ[n]) == EdgeCount(g1, n, g1.succ[n]) {
      EdgeCountSame(g1, g', n, g1.succ[n]);
    }
    EdgeCountSame(g1, g', s, out);
    var out' := out + [r];
    assert out'[..|out|] == out && out'[|out|] == r;
    assert EdgeCount(g', s, out') == EdgeCount(g', s, out) + |e.transactions|;
    NodeCountBump(g1, g', g1.nodes, s, |e.transactions|);
  }

  lemma AddNewEdgeCount(g: Graph, tx: Transaction)
    requires WellFormed(g) && (tx.sender, tx.receiver) !in g.edges
    ensures RecordCount(AddTransaction(g, tx)) == RecordCount(g) + 1
  {
    var g1 := AddNode(AddNode(g, tx.sender), tx.receiver);
    NewEdgeEndpoints(g, tx.sender, tx.receiver);
    var e := Edge(tx.amount, tx.time, tx.id, [RecordOf(tx)]);
    assert AddTransaction(g, tx) == Graph(g1.nodes, g1.succ[tx.sender := g1.succ[tx.sender] + [tx.receiver]], g1.edges[(tx.sender, tx.receiver) := e]);
    AppendEdgeCount(g1, tx.sender, tx.receiver, e);
  }

  /** Adding both endpoints of a missing edge keeps the record count and
      leaves the sender without the receiver as a successor. */
  lemma NewEdgeEndpoints(g: Graph, s: string, r: string)
    requires WellFormed(g) && (s, r) !in g.edges
    ensures var g1 := AddNode(AddNode(g, s), r);
      && RecordCount(g1) == RecordCount(g) && (s, r) !in g1.edges
      && s in g1.succ && r !in g1.succ[s] && Distinct(g1.nodes) && s in g1.nodes
  {
    var g0 := AddNode(g, s);
    AddNodeCount(g, s);
    AddNodeCount(g0, r);
  }

  /** The contribution lists together hold exactly as many records as there
      are input transactions. */
  lemma {:induction false} RecordCountIsTransactionCount(txs: seq<Transaction>)
    ensures RecordCount(Aggregate(txs)) == |txs|
  {
    if txs != [] {
      var p := txs[..|txs| - 1];
      RecordCountIsTransactionCount(p);
      AggregateWellFormed(p);
      var t := txs[|txs| - 1];
      if (t.sender, t.receiver) in Aggregate(p).edges {
        AddToExistingEdgeCount(Aggregate(p), t);
      } else {
        AddNewEdgeCount(Aggregate(p), t);
      }
    }
  }

  // ---------------------------------------------------------------------
  // Degrees, as networkx counts them on a simple digraph: distinct
  // neighbours, a self-loop counted once on each side.
  // ---------------------------------------------------------------------

  function OutDegree(g: Graph, n: string): nat {
    if n in g.succ then |g.succ[n]| else 0
  }

  function InDegree(g: Graph, n: string): nat {
    |set m | m in g.nodes && (m, n) in g.edges|
  }

  predicate HasEdge(g: Graph, a: string, b: string) {
    (a, b) in g.edges
  }

  /** `G.successors(n)`: first-insertion order of n's out-edges. */
  function Successors(g: Graph, n: string): seq<string> {
    if n in g.succ then g.succ[n] else []
  }
}
