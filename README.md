# Money-muling detection pipeline, modelled in Dafny

This project models the detection core of a money-muling analysis backend. The input is a batch of validated transactions (id, sender, receiver, amount, timestamp); the output is a result record that lists suspicious accounts, fraud rings and a summary. The pipeline runs in stages, and each stage has its own module:

- **Graph** (`graph.dfy`, `backend/services/graph_builder.py`). Transactions are folded into a directed graph with one node per account and one edge per (sender, receiver) pair. Each edge keeps its transactions in input order, their summed amount, and the id and timestamp of the first of them. The networkx graph becomes explicit maps: the node list in insertion order, each node's successors in the order their edges were added, and the edges keyed by pair.
- **Rings** (`rings.dfy`). This is the greedy grouping loop that the cycle detector and the shell detector share (`backend/services/cycle_detection.py:45-72` and `backend/services/shell_detection.py:78-103` are the same code). A path joins the ring of its first already-tagged node; otherwise a new ring id is minted. Then every node of the path is re-tagged with that ring. Ring id `k` stands for the name `RING_{k:03d}`.
- **Cycles** (`cycles.dfy`, `backend/services/cycle_detection.py`). The simple cycles of the graph are sorted by their node tuples, filtered to lengths 3 to 5, and grouped into rings.
- **Smurfing** (`smurfing.dfy`, `backend/services/smurfing_detection.py`). The detector has a fan-in pass and then a fan-out pass. Each pass tries every transaction of an account, in timestamp order, as the anchor of a window of `hours` hours. It counts the distinct counterparties in the window. The first anchor that reaches the threshold is recorded, and an account flagged by fan-in is never re-examined by fan-out.
- **Shells** (`shells.dfy`, `backend/services/shell_detection.py`). A backtracking search, a class holding the mutable `chains` list and `visited_chains` set, enumerates simple paths of exactly L nodes for L = 3, 4, 5. Interior nodes must have low total degree, and each node set is kept once. The paths are then grouped into rings by the same greedy rule.
- **Consolidation** (`engine.dfy`, `backend/services/detection_engine.py:49-85`). Cycles take priority. Shell chains that touch a cycle account are dropped, and shell rings left empty are removed. The surviving shell rings are renumbered after the cycle rings. The account→ring map is then built: cycle writes overwrite earlier ones, shell writes only fill accounts not yet mapped.
- **Scoring** (`weights.dfy`, `patterns.dfy`, `velocity.dfy`, `payroll.dfy`, `scoring.dfy`, `backend/services/scoring.py`). Scores are built by four loops in order:
  - each account collects the set of its distinct labels;
  - every label of an account adds a flat weight;
  - a +15 velocity bonus goes to accounts that are fast but not payroll-like;
  - every score is capped at 100.
- **Formatter** (`formatter.dfy`, `backend/services/json_formatter.py`). It builds the list of accounts with a positive score and the list of rings, sorts both, and adds the summary counts.
- **Pipeline** (`pipeline.dfy`, `backend/services/detection_engine.py:17-101`). This stage runs the stages in order with the source's fixed parameters. The lemmas in `PipelineFacts` state what the final result says.

The modules have two layers:
- **Specification functions.** Each stage has one, written as a fold over a prefix or as a set comprehension (`Aggregate`, `Group`, `SmurfingSpec`, `ShellChains`, `FinalShells`, `ScoreTable`, `Result`, ...).
- **Methods.** These follow the source's loops and are proved equal to the specification functions. The lemmas in the `...Facts` modules then state what the specification functions mean, in terms of the inputs alone.

## Model

| member | source | states |
|---|---|---|
| Graph.AddTransaction | backend/services/graph_builder.py:26-56 | definition: one iteration of the loop. An existing (sender, receiver) edge gets the record appended and the amount added; otherwise sender and receiver become nodes if new, the receiver is appended to the sender's successors, and a new edge carries the transaction's amount, timestamp, id and record |
| Graph.Aggregate | backend/services/graph_builder.py:9-58 | definition: the graph `build_transaction_graph` returns, that iteration folded over the transactions in order from an empty graph |
| Graph.BuildTransactionGraph | backend/services/graph_builder.py:9-58 | the single pass over the transactions builds the aggregate graph, and that graph is well formed (node list without repeats, a successor entry per node, every edge listed once among its sender's successors) |
| Graph.AggregateWellFormed | backend/services/graph_builder.py:24-58 | the aggregate of any transaction list is a well-formed directed graph |
| Graph.NodesAreAccounts | backend/services/graph_builder.py:26-56 | the nodes are exactly the senders and receivers of the input, each listed once |
| Graph.AggregateNodes | backend/services/graph_builder.py:45-47 | nodes appear in order of the first appearance of each account, sender before receiver |
| Graph.AggregateSucc | backend/services/graph_builder.py:45-47 | a node's successor list holds its receivers in order of first appearance, so it is the order networkx reports successors in |
| Graph.AggregateEdgeKeys | backend/services/graph_builder.py:28-45 | a pair is an edge exactly when at least one input transaction goes from its sender to its receiver |
| Graph.EdgeIffTransaction | backend/services/graph_builder.py:28-46 | edge (s, r) exists iff some transaction has sender s and receiver r; repeated pairs give one edge, and a self-loop is an edge |
| Graph.EdgeAggregates | backend/services/graph_builder.py:37-55 | an edge's transaction list is exactly its pair's transactions in input order, its amount is their sum, and its id and timestamp are those of the first of them |
| Graph.RecordCountIsTransactionCount | backend/services/graph_builder.py:26-56 | all edge transaction lists together hold exactly as many records as there are input transactions |
| Cycles.IsSimpleCycle | backend/services/cycle_detection.py:31 | definition: what each entry of `nx.simple_cycles(G)` is, distinct graph nodes with an edge from each to the next and from the last back to the first |
| Cycles.Candidates | backend/services/cycle_detection.py:31-39 | definition: the cycles sorted by their node tuples, then restricted to lengths `min_length..max_length` |
| Cycles.LengthFilter | backend/services/cycle_detection.py:36-39 | a cycle is kept exactly when it is an input cycle whose length is in range |
| Cycles.LengthFilterSorted | backend/services/cycle_detection.py:33-39 | filtering a sorted list keeps it sorted |
| Cycles.CandidatesFacts | backend/services/cycle_detection.py:31-39 | every candidate is an input cycle of wanted length, and the candidates are in lexicographic order of their node tuples |
| Cycles.DetectCycles | backend/services/cycle_detection.py:9-72 | the result is the greedy grouping of the sorted, filtered cycles; it is empty when no cycle survives; every path is a simple cycle of the graph with length in range; every ring is non-empty and keeps lexicographic order; ids run 1, 2, ...; the rings hold every candidate once |
| Cycles.CycleRingsFacts | backend/services/cycle_detection.py:45-72 | the same five facts stated about the grouping of the candidates |
| Cycles.CycleLabel | backend/services/cycle_detection.py:75-77 | the label begins with `cycle_length_` (followed by the decimal length) |
| Cycles.CycleLabelInjective | backend/services/cycle_detection.py:75-77 | distinct lengths give distinct labels |
| Cycles.OverlapPrefix | backend/services/cycle_detection.py:57-61 | two disjoint cycles open rings 1 and 2, and the second one's nodes are tagged 2 |
| Cycles.OverlappingRings | backend/services/cycle_detection.py:49-70 | a concrete input where account A ends up a member of two cycle rings, because tags are overwritten and the join rule looks at the first tagged node only |
| Rings.FirstTagged | backend/services/cycle_detection.py:51-55 | definition: the ring of the first node of the path that `node_to_ring` holds, or none |
| Rings.Retag | backend/services/cycle_detection.py:69-70 | definition: `node_to_ring[node] = ring_id` for every node of the path in turn |
| Rings.Step | backend/services/cycle_detection.py:51-70 | definition: one path of the loop. It joins the ring found (appended to that ring's list) or opens ring `len(rings) + 1`, then every node of the path is retagged, and the ring it went to is recorded |
| Rings.Group | backend/services/cycle_detection.py:45-72 | definition: the ring map, tag map and assignments after the loop, that step folded over the paths in order |
| Rings.FirstTaggedFacts | backend/services/cycle_detection.py:51-55 | the scan finds a ring exactly when some node of the path is tagged, and the ring it finds is the tag of one of them |
| Rings.RetagFacts | backend/services/cycle_detection.py:69-70 | after tagging, every node of the path carries the new ring, every other tagged node keeps its tag, and nothing else is tagged |
| Rings.StepValid | backend/services/cycle_detection.py:57-66 | one placement keeps ring k at index k - 1 with no empty ring, and adds a ring exactly when no node of the path was tagged |
| Rings.StepId | backend/services/cycle_detection.py:57-61 | the ring a path joins is the tag found, which names an existing ring, or else the next id |
| Rings.GroupValid | backend/services/cycle_detection.py:45-72 | the grouping of any path list is well formed and assigns every path |
| Rings.FindTagged | backend/services/cycle_detection.py:51-55 | the inner scan returns the ring of the first tagged node of the path, or none |
| Rings.TagPath | backend/services/cycle_detection.py:69-70 | the tagging loop leaves the retagged map |
| Rings.PlacePath | backend/services/cycle_detection.py:49-70 | one iteration updates `ring_map` and `node_to_ring` as the specification step does, and `ring_counter` grows exactly when a ring is minted |
| Rings.GroupIntoRings | backend/services/cycle_detection.py:45-72 | the grouping loop returns the ring map of the specification grouping |
| RingFacts.GroupPartition | backend/services/cycle_detection.py:49-66 | ring k holds exactly the paths assigned to k, in processing order: every path lands in exactly one ring |
| RingFacts.GroupTotal | backend/services/cycle_detection.py:49-66 | the rings together hold as many paths as there are inputs |
| RingFacts.GroupTags | backend/services/cycle_detection.py:69-70 | the tag table covers exactly the nodes seen, and each node carries the ring of the last path containing it |
| RingFacts.GroupPrefix | backend/services/cycle_detection.py:49-72 | an assignment made for a path never changes later |
| RingFacts.GroupRingCount | backend/services/cycle_detection.py:59-61 | ids are minted consecutively: the number of rings equals the largest id handed out |
| RingFacts.GroupAssignAt | backend/services/cycle_detection.py:51-61 | path i gets the ring found in the state left by the paths before it, or the next id |
| RingFacts.GroupJoinRule | backend/services/cycle_detection.py:51-61 | stated on the paths alone: path i joins the ring of the last earlier path holding its first already-seen node, and a path sharing no node with earlier paths gets the largest id so far plus one |
| RingFacts.FirstTaggedIsFirstTouched | backend/services/cycle_detection.py:51-55 | with the tag table covering the earlier paths, the first tagged node is the first node that occurs in an earlier path |
| RingFacts.GroupEmpty | backend/services/cycle_detection.py:41-45 | no paths give no rings |
| RingFacts.GroupCovers | backend/services/cycle_detection.py:49-66 | no path is lost: every input path is a path of some ring |
| RingOrder.SelectSorted | backend/services/cycle_detection.py:64-66 | a ring's paths keep the relative order they had in the input |
| RingOrder.GroupPathsFromInput | backend/services/cycle_detection.py:49-66 | every path of every ring is an input path, and sorted input gives sorted rings |
| Smurfing.SmurfLabel | backend/services/smurfing_detection.py:75 | the label begins with `fan_in_` or `fan_out_` per role, followed by threshold and hours |
| Smurfing.SortByTime | backend/services/smurfing_detection.py:57 | the account's transactions are permuted into timestamp order |
| Smurfing.TxsOf | backend/services/smurfing_detection.py:47-52 | definition: `receiver_txs[a]` (fan-in) or `sender_txs[a]` (fan-out), the account's transactions in input order |
| Smurfing.Window | backend/services/smurfing_detection.py:61-69 | definition: the counterparties of the anchor and of every later transaction in sorted order timed no later than the anchor's time plus the window |
| Smurfing.FirstAnchor | backend/services/smurfing_detection.py:60-80 | definition: the first anchor from a position on whose window has at least the threshold of counterparties |
| Smurfing.FlagAt | backend/services/smurfing_detection.py:71-79 | definition: the record for an anchor: account, type, label, counterparty count, window start and end |
| Smurfing.Detect | backend/services/smurfing_detection.py:55-80 | definition: one account's pass in one role, the record at the first qualifying anchor of its time-sorted transactions, if any |
| Smurfing.Classify | backend/services/smurfing_detection.py:83-111 | definition: the fan-in record if there is one, else the fan-out record |
| Smurfing.SmurfingSpec | backend/services/smurfing_detection.py:11-113 | definition: the dict `detect_smurfing` returns, one record per account of the input that some role flags |
| SmurfingDetector.CollectWindow | backend/services/smurfing_detection.py:64-69 | the window loop, which stops at the first transaction past the window end, collects exactly the counterparties of the anchor's window |
| SmurfingDetector.WindowStopsAt | backend/services/smurfing_detection.py:66-68 | in a sorted list, stopping at the first transaction past the window end misses none that falls inside it |
| SmurfingDetector.FirstQualifyingWindow | backend/services/smurfing_detection.py:60-80 | the anchor loop returns the first anchor whose window reaches the threshold, with that window's count |
| SmurfingDetector.ScanAccount | backend/services/smurfing_detection.py:55-80 | one account's pass body returns the record the specification assigns it in that role |
| SmurfingDetector.AppendToGroup | backend/services/smurfing_detection.py:51-52 | `defaultdict(list).append` creates a key on first use and otherwise extends its list |
| SmurfingDetector.GroupByAccount | backend/services/smurfing_detection.py:47-52 | the two dicts group the transactions by receiver and by sender in input order, with keys in first-appearance order |
| SmurfingDetector.KeySetsAreAccounts | backend/services/smurfing_detection.py:50-52 | receivers and senders together are the accounts of the input |
| SmurfingDetector.DetectNeedsTransactions | backend/services/smurfing_detection.py:55-83 | an account with no transactions in a role is never flagged in that role |
| SmurfingDetector.DetectSmurfing | backend/services/smurfing_detection.py:11-113 | the two passes produce the declarative result map |
| SmurfingDetector.PassesAt | backend/services/smurfing_detection.py:83-111 | for one account, the fan-in record, or failing it the fan-out record, is what the result holds |
| SmurfingDetector.SpecAt | backend/services/smurfing_detection.py:72-110 | an account is in the result iff it is an account of the input that one of the roles flags, and its record is the classified one |
| SmurfingDetector.SpecMatchesPasses | backend/services/smurfing_detection.py:55-111 | any maps that follow the two passes account by account are the declarative result |
| SmurfingFacts.FirstAnchorFacts | backend/services/smurfing_detection.py:60-80 | the anchor found qualifies and no earlier anchor does; if none is found no anchor qualifies |
| SmurfingFacts.WindowIsTimeRange | backend/services/smurfing_detection.py:60-69 | the window of the first anchor at its timestamp is the set of counterparties timed in `[start, start + window]`, bounds included |
| SmurfingFacts.TiedWindowCovers | backend/services/smurfing_detection.py:60-69 | an earlier anchor with the same timestamp sees at least as many counterparties |
| SmurfingFacts.NoEarlierQualifies | backend/services/smurfing_detection.py:60-80 | when no anchor before a bound qualifies, no earlier transaction time reaches the threshold |
| SmurfingFacts.SortedReach | backend/services/smurfing_detection.py:57-69 | sorting does not change which counterparties fall in a time range |
| SmurfingFacts.AnchorCharacterized | backend/services/smurfing_detection.py:57-80 | the first qualifying anchor counts exactly the time range from its timestamp, which reaches the threshold, and no earlier transaction time of the account reaches it |
| SmurfingFacts.NoAnchorCharacterized | backend/services/smurfing_detection.py:57-80 | with no qualifying anchor, no transaction time of the account reaches the threshold |
| SmurfingFacts.DetectCharacterized | backend/services/smurfing_detection.py:55-80 | without mention of the sorted list: a record names its account, type and label, starts at a transaction time of the account, ends `hours * 3600` s later, counts the distinct counterparties in that inclusive range, reaches the threshold, and is the earliest time that does; no record means no time qualifies |
| SmurfingFacts.SmurfingRecords | backend/services/smurfing_detection.py:71-79 | every record is filed under its own account id, has a count at least the threshold, the window end start + hours, and the fan-in or the fan-out type with the matching label |
| SmurfingFacts.DetectedIsAccount | backend/services/smurfing_detection.py:47-52 | only accounts of the input are flagged |
| SmurfingFacts.FanInPriority | backend/services/smurfing_detection.py:83-86 | an account flagged by fan-in keeps its fan-in record; the fan-out pass never overwrites it |
| SmurfingFacts.QualifiesDetects | backend/services/smurfing_detection.py:60-80 | a pass flags an account exactly when some transaction time of it reaches the threshold |
| SmurfingFacts.SmurfingMembership | backend/services/smurfing_detection.py:55-111 | an account is in the result iff some window of it in either role reaches the threshold; the record is fan-in whenever fan-in qualifies and fan-out otherwise; an account qualifying in neither role is absent |
| Shells.ValidInterior | backend/services/shell_detection.py:40-56 | definition: `is_valid_intermediate` of every node strictly inside the chain, in-degree plus out-degree at most the bound |
| Shells.Record | backend/services/shell_detection.py:49-60 | definition: the body of `dfs_chain` at the target length. The chain is appended and its node set marked visited when that set is unvisited and the interior is valid; otherwise nothing changes |
| Shells.Explore | backend/services/shell_detection.py:47-67 | definition: `dfs_chain` on a chain: record at the target length, otherwise try every successor of the last node, in order, that is not on the chain |
| Shells.ExploreAll | backend/services/shell_detection.py:63-67 | definition: the successor loop of `dfs_chain`, each successor not on the chain explored with the state the previous one left |
| Shells.Starts | backend/services/shell_detection.py:34 | definition: `potential_starts`, the nodes with an out-edge in ascending order |
| Shells.RunStarts | backend/services/shell_detection.py:71-72 | definition: `dfs_chain(start, [start], length)` for each start in turn |
| Shells.RunLengths | backend/services/shell_detection.py:70-72 | definition: the start loop for lengths `m`, `m + 1`, `m + 2` in turn, from no chains and no visited sets |
| Shells.ShellChains | backend/services/shell_detection.py:29-72 | definition: the `chains` list after the three length passes |
| Shells.WithOutEdges | backend/services/shell_detection.py:34 | a node is a potential start iff it is a listed node with out-degree above 0 |
| Shells.ChainSearch.constructor | backend/services/shell_detection.py:29-38 | the search starts with no chains and no visited node sets |
| Shells.ChainSearch.DfsChain | backend/services/shell_detection.py:47-67 | the backtracking call leaves the chain list and visited set as the recursive specification does, from the state it found |
| Shells.SearchFromStarts | backend/services/shell_detection.py:71-72 | the loop over potential starts runs the search from each in turn |
| Shells.SearchChains | backend/services/shell_detection.py:70-72 | the three length passes give the specification's chain list |
| Shells.DetectLayeredShells | backend/services/shell_detection.py:8-105 | no chains give no rings; otherwise the rings are the greedy grouping of the chains. What the chains and rings are is stated by `ShellFacts.ShellChainsFacts` and `ShellFacts.ShellRingsFacts` (soundness), and by `ShellFacts.ShellChainsComplete` and `ShellFacts.ShellRingsComplete` (completeness) |
| Shells.ShellLabel | backend/services/shell_detection.py:108-110 | the label begins with `layered_shell_` (followed by the length and `hop`) |
| ShellFacts.RecordRule | backend/services/shell_detection.py:49-60 | a chain is recorded exactly when its interior is valid and no recorded chain has its node set; a node set met only on an invalid chain stays free |
| ShellFacts.RecordSound | backend/services/shell_detection.py:49-60 | recording keeps every chain a simple path of allowed length with a valid interior, node sets distinct, and the visited set equal to the recorded node sets |
| ShellFacts.ExploreSound | backend/services/shell_detection.py:47-67 | the backtracking search from a simple path keeps that invariant |
| ShellFacts.ExploreAllSound | backend/services/shell_detection.py:63-67 | the successor loop keeps that invariant |
| ShellFacts.GrowPath | backend/services/shell_detection.py:63-66 | stepping to a successor not yet on the chain keeps a simple path |
| ShellFacts.ExploreOrdered | backend/services/shell_detection.py:47-67 | chains found from one start come after all earlier chains in discovery order |
| ShellFacts.ExploreAllOrdered | backend/services/shell_detection.py:63-67 | the same for the successor loop |
| ShellFacts.RunStartsFacts | backend/services/shell_detection.py:71-72 | one length pass over sorted starts keeps soundness and discovery order |
| ShellFacts.RunLengthsFacts | backend/services/shell_detection.py:70-72 | the three length passes keep soundness and record chains by increasing length |
| ShellFacts.StartsFacts | backend/services/shell_detection.py:34 | potential starts are graph nodes with out-edges, in ascending string order |
| ShellFacts.FilterKeepsOrder | backend/services/shell_detection.py:34 | the comprehension keeps the sorted order |
| ShellFacts.ShellChainsFacts | backend/services/shell_detection.py:29-72 | every chain has between m and m + 2 nodes, is a simple directed path with every interior node of total degree at most the bound, no two chains share a node set, and chains come by length and then by start node |
| ShellFacts.ShellRingsFacts | backend/services/shell_detection.py:74-103 | every chain in the shell rings is a recorded chain, each ring is non-empty and keeps discovery order, ids run 1, 2, ..., and the rings hold every chain once |
| ShellFacts.ExploreGrows | backend/services/shell_detection.py:47-67 | `visited_chains` only grows during a `dfs_chain` call |
| ShellFacts.ExploreAllGrows | backend/services/shell_detection.py:63-67 | the same for the successor loop |
| ShellFacts.RunStartsGrows | backend/services/shell_detection.py:71-72 | the same for the start loop |
| ShellFacts.ExploreFinds | backend/services/shell_detection.py:47-67 | once the first k nodes of a simple path of the target length with a valid interior are on the stack, the call returns with that path's node set visited |
| ShellFacts.ExploreAllFinds | backend/services/shell_detection.py:63-67 | the same for the successor loop, whenever the path's next node is among the successors tried |
| ShellFacts.RunStartsFinds | backend/services/shell_detection.py:71-72 | the start loop over starts that include the path's first node leaves its node set visited |
| ShellFacts.RunLengthsFinds | backend/services/shell_detection.py:70-72 | the length passes leave visited the node set of every such path whose length is among them |
| ShellFacts.StartOfPath | backend/services/shell_detection.py:34 | the first node of a path with an edge is a potential start |
| ShellFacts.ShellChainsComplete | backend/services/shell_detection.py:29-72 | completeness: every simple path of `m` to `m + 2` nodes (at least two) whose interior nodes have total degree at most the bound has its node set among the chains |
| ShellFacts.ShellRingsComplete | backend/services/shell_detection.py:29-105 | the same for the rings: such a path's node set is the node set of a chain in some ring |
| ShellFacts.ShellLabelInjective | backend/services/shell_detection.py:108-110 | distinct lengths give distinct labels |
| Consolidation.AllMembers | backend/services/detection_engine.py:51-56 | definition: `cycle_accounts_set`, every account of every path of the rings |
| Consolidation.Surviving | backend/services/detection_engine.py:57-62 | definition: each shell ring with its remaining chains, in dict order, rings left with none removed |
| Consolidation.Overwrite | backend/services/detection_engine.py:68-71 | definition: `account_ring_map[account] = ring` for every (account, ring) write in turn |
| Consolidation.FillAbsent | backend/services/detection_engine.py:81-84 | definition: the same write only for accounts not yet mapped |
| Consolidation.FinalShells | backend/services/detection_engine.py:50-79 | definition: the surviving shell rings renumbered from `len(cycle_accounts) + 1` |
| Consolidation.AccountRings | backend/services/detection_engine.py:65-85 | definition: the cycle writes in ring, cycle and node order, then the fills of the renamed shell rings |
| Consolidation.Remaining | backend/services/detection_engine.py:59 | a chain remains exactly when it is a chain of the ring with no avoided account |
| Consolidation.FilterShellRings | backend/services/detection_engine.py:57-62 | the filter loop keeps each ring's remaining chains and removes rings left with none |
| Consolidation.Renumber | backend/services/detection_engine.py:76-79 | renumbering keeps the number of rings |
| Consolidation.WritePath | backend/services/detection_engine.py:70-71 | every account of one cycle is written to the cycle's ring |
| Consolidation.WriteRing | backend/services/detection_engine.py:69-71 | the writes of every cycle of one ring, in order |
| Consolidation.MapCycleAccounts | backend/services/detection_engine.py:65-71 | the cycle loops perform every (account, ring) write in ring, cycle and node order |
| Consolidation.FillPath | backend/services/detection_engine.py:82-84 | accounts of one chain not yet mapped are mapped to the chain's new ring |
| Consolidation.FillRing | backend/services/detection_engine.py:81-84 | the fills of every chain of one ring, in order |
| Consolidation.RenameShellRings | backend/services/detection_engine.py:74-85 | surviving shell ring i becomes ring start + i, and each of its accounts not yet mapped is mapped to it |
| Consolidation.Consolidate | backend/services/detection_engine.py:49-85 | lines 49-85 give the final shell rings and the account→ring map of the specification |
| ConsolidationFacts.LastRingWith | backend/services/detection_engine.py:68-71 | the index of the last ring holding an account, the one whose write survives overwriting |
| ConsolidationFacts.FirstRingWith | backend/services/detection_engine.py:81-84 | the index of the first ring holding an account, the one whose write survives filling |
| ConsolidationFacts.RemainingKeepsOrder | backend/services/detection_engine.py:59 | chains are dropped whole and the survivors keep their relative order |
| ConsolidationFacts.SurvivingFacts | backend/services/detection_engine.py:57-62 | each surviving ring keeps its id and exactly the chains of its ring with no avoided account, and is non-empty; every ring with such a chain survives |
| ConsolidationFacts.RenumberFacts | backend/services/detection_engine.py:76-79 | ring i becomes ring start + i with its chains unchanged |
| ConsolidationFacts.OverwriteUniform | backend/services/detection_engine.py:70-71 | writing one ring maps its accounts to it and leaves the rest as they were |
| ConsolidationFacts.FillAbsentUniform | backend/services/detection_engine.py:83-84 | filling with one ring maps its unmapped accounts to it and changes nothing already mapped |
| ConsolidationFacts.OverwriteRings | backend/services/detection_engine.py:68-71 | the cycle loop maps exactly the cycle accounts, each to the last cycle ring holding it |
| ConsolidationFacts.FillRings | backend/services/detection_engine.py:77-84 | the shell loop leaves mapped accounts alone and maps every new one to the first shell ring holding it |
| ConsolidationFacts.FinalShellsNumbered | backend/services/detection_engine.py:76-79 | surviving shell rings are numbered `len(cycle_accounts) + 1`, `+ 2`, ... in order and are non-empty |
| ConsolidationFacts.FinalShellsFromInput | backend/services/detection_engine.py:50-62 | every surviving chain is a detected shell chain with no cycle account |
| ConsolidationFacts.FinalShellsKeep | backend/services/detection_engine.py:50-62 | every detected shell chain with no cycle account survives |
| ConsolidationFacts.FinalShellsFacts | backend/services/detection_engine.py:50-85 | the three facts above together |
| ConsolidationFacts.FinalShellsSorted | backend/services/detection_engine.py:57-79 | a ring sorted by any order stays sorted through filtering and renumbering |
| ConsolidationFacts.RingNamesDistinct | backend/services/detection_engine.py:76-78 | with cycle rings numbered 1, 2, ..., no shell ring name equals a cycle ring name and no two shell ring names coincide |
| ConsolidationFacts.ShellMemberNotCycle | backend/services/detection_engine.py:50-62 | no account of a surviving shell ring is a cycle account |
| ConsolidationFacts.AccountRingsFacts | backend/services/detection_engine.py:65-85 | the map's domain is exactly the cycle accounts plus the surviving shell accounts; a cycle account maps to the last cycle ring holding it, a shell account to the first surviving shell ring holding it |
| Weights.AfterLast | backend/services/scoring.py:93 | `split("_")[-1]` is the longest suffix without `_`: all of the string, or the text after its last `_` |
| Weights.RemoveAll | backend/services/scoring.py:104 | `replace(pat, "")` never lengthens the string, and leaves it unchanged when the first character of `pat` never occurs in it |
| Weights.AfterLastTail | backend/services/scoring.py:93 | the text after a `_` that is followed by no other `_` is what `split("_")[-1]` returns |
| Weights.RemoveHop | backend/services/scoring.py:104 | digits followed by `hop` lose exactly the `hop` |
| Weights.NoLetterL | backend/services/scoring.py:104 | a digit string followed by `hop` contains no `layered_shell_` to remove |
| Weights.CycleLabelParses | backend/services/scoring.py:92-95 | round trip: `int(label.split("_")[-1])` gives back the length of every cycle label the detector emits |
| Weights.ShellLabelParses | backend/services/scoring.py:103-106 | round trip: `int(label.replace("layered_shell_", "").replace("hop", ""))` gives back the length of every shell label the detector emits |
| Weights.ParseInt | backend/services/scoring.py:92-95 | `int(s)` succeeds exactly on non-empty digit strings; otherwise the `ValueError` branch is taken |
| Weights.Weight | backend/services/scoring.py:89-117 | although the branches parse a length, every cycle label weighs 40 and every shell label 25 whatever the length; only the literal `smurfing` weighs 30 and every other label 0 |
| Weights.DetectorLabelWeights | backend/services/scoring.py:89-117 | every label the detectors emit for cycles weighs 40, for shells 25, and for smurfing (`fan_in_...`, `fan_out_...`) 0 |
| Weights.ShellLabelWeight | backend/services/scoring.py:102-114 | every shell label weighs 25 |
| Weights.SmurfLabelWeight | backend/services/scoring.py:115-116 | the smurfing labels the detector emits weigh 0 |
| Weights.PrefixesExclusive | backend/services/scoring.py:91-102 | no label takes both the cycle and the shell branch |
| Weights.WeightSumRemove | backend/services/scoring.py:89-90 | the sum over a label set does not depend on the order the set is iterated in |
| Weights.WeightSumFormula | backend/services/scoring.py:89-117 | a label set adds 40 per distinct cycle label, 25 per distinct shell label and 30 for `smurfing` |
| Weights.WeightSumPositive | backend/services/scoring.py:89-117 | a label set adds something exactly when one of its labels carries weight |
| Patterns.AccountPatterns | backend/services/scoring.py:66-86 | definition: `account_patterns`, the cycle labels by path length, then the smurfing labels, then the shell labels by chain length |
| Patterns.AddPathLabels | backend/services/scoring.py:73-74 | every account of one path gets the label |
| Patterns.AddRingLabels | backend/services/scoring.py:71-74 | the loop over one ring's paths, labelled by length |
| Patterns.AddRingsLabels | backend/services/scoring.py:70-74 | the loop over a ring dict |
| Patterns.AddSmurfLabels | backend/services/scoring.py:77-79 | every flagged account gets its record's label |
| Patterns.CollectPatterns | backend/services/scoring.py:66-86 | the three loops build the label map of the specification |
| PatternFacts.AddPathFacts | backend/services/scoring.py:73-74 | an account gains the label exactly when it is on the path |
| PatternFacts.AddPathsFacts | backend/services/scoring.py:71-74 | an account gains exactly the length labels of the paths through it |
| PatternFacts.AddRingsFacts | backend/services/scoring.py:70-74 | the same over all rings of a ring dict |
| PatternFacts.AccountPatternsFacts | backend/services/scoring.py:66-86 | an account has patterns iff it is in a cycle ring, flagged for smurfing or in a shell ring; its patterns are the length labels of its cycles and chains plus its smurfing label |
| Velocity.Pooled | backend/services/scoring.py:141-145 | definition: `account_tx_map[a]`, a transaction once for its sender and once for its receiver |
| Velocity.HighRate | backend/services/scoring.py:157-163 | definition: the rate test cross-multiplied, a zero span always passing |
| Velocity.HighVelocity | backend/services/scoring.py:150-163 | definition: at least 50 pooled transactions and a high rate over the span from the earliest to the latest |
| Velocity.VelocitySpec | backend/services/scoring.py:132-165 | definition: the dict `_calculate_velocity_scores` returns, 15 for every flagged account |
| Velocity.MinTime | backend/services/scoring.py:155 | the earliest timestamp of a non-empty list |
| Velocity.MaxTime | backend/services/scoring.py:155 | the latest timestamp of a non-empty list |
| Velocity.SortedFirst | backend/services/scoring.py:154-155 | the first of the sorted list is at the earliest time |
| Velocity.SortedLast | backend/services/scoring.py:154-155 | the last of the sorted list is at the latest time |
| Velocity.RateIsDivision | backend/services/scoring.py:155-162 | `count / time_span >= 50`, with a zero span read as one day, is the integer test `span = 0 or count * 86400 >= 50 * span` |
| Velocity.PoolByAccount | backend/services/scoring.py:141-145 | each transaction is pooled under its sender and under its receiver, so a self-loop is pooled twice |
| Velocity.IsHighVelocity | backend/services/scoring.py:150-163 | the loop body flags an account with at least 50 pooled transactions at a rate of at least 50 a day between its earliest and latest |
| Velocity.VelocityScores | backend/services/scoring.py:132-165 | the result gives 15 to exactly the flagged accounts of the input |
| Velocity.HighVelocityIsAccount | backend/services/scoring.py:143-145 | only accounts of the input are flagged |
| Payroll.Involved | backend/services/scoring.py:177-180 | definition: `account_txs`, the transactions the account sends or receives, each once |
| Payroll.CountIn | backend/services/scoring.py:186-189 | definition: `monthly_counts[k]`, the number of those transactions in month k |
| Payroll.Regular | backend/services/scoring.py:195-207 | definition: the coefficient-of-variation test `cv < 0.3`, cross-multiplied into integers (`PayrollFacts.CoefficientOfVariation` proves the two equal) |
| Payroll.IsPayroll | backend/services/scoring.py:168-207 | definition: at least 10 involved transactions, at least 3 months, a non-zero mean and a regular count spread |
| Payroll.Months | backend/services/scoring.py:186-189 | the month keys are each distinct calendar months of the involved transactions, in first-appearance order |
| Payroll.Counts | backend/services/scoring.py:195 | one count per month key |
| Payroll.AddMonth | backend/services/scoring.py:187-189 | one iteration keeps the month table exact |
| Payroll.CountMonths | backend/services/scoring.py:186-189 | the counting loop gives each month's number of involved transactions |
| Payroll.SumCounts | backend/services/scoring.py:195-202 | the sums of the counts and of their squares |
| Payroll.IsPayrollPattern | backend/services/scoring.py:168-207 | the test holds iff the account is involved in at least 10 transactions (a self-loop once), over at least 3 months, with a coefficient of variation of the monthly counts below 0.3, in the integer form |
| PayrollFacts.SquaredDeviationExpands | backend/services/scoring.py:202 | the sum of squared deviations from k is `Σc² - 2kΣc + nk²` |
| PayrollFacts.CoefficientAlgebra | backend/services/scoring.py:196-207 | with the mean, the population variance and a non-negative root of it, `sd / avg < 0.3` is `100(nΣc² - (Σc)²) < 9(Σc)²` |
| PayrollFacts.CoefficientOfVariation | backend/services/scoring.py:196-207 | for the counts, their mean, their population variance and its non-negative square root, the source's `cv < 0.3` holds exactly when the integer test does |
| PayrollFacts.CountsPartition | backend/services/scoring.py:186-196 | the monthly counts add up to the number of involved transactions |
| Scoring.LabelScores | backend/services/scoring.py:89-117 | definition: the score dict after the label loop, a key for every account whose labels weigh something |
| Scoring.WithBonus | backend/services/scoring.py:120-123 | definition: the score dict after the velocity loop has added its entries for the visited accounts |
| Scoring.NonPayroll | backend/services/scoring.py:121-122 | definition: the velocity entries of accounts that are not payroll-like |
| Scoring.Capped | backend/services/scoring.py:126-127 | definition: every visited score replaced by its minimum with 100 |
| Scoring.Table | backend/services/scoring.py:64-129 | definition: the label loop, the velocity loop and the cap loop in order |
| Scoring.ScoreTable | backend/services/scoring.py:30-129 | definition: what `calculate_suspicion_scores` returns on the pipeline's rings, flags and velocity dict |
| Scoring.SumWeights | backend/services/scoring.py:90-117 | the labels of one account add their weight sum, and some branch adds exactly when that sum is positive |
| Scoring.ScoreLabels | backend/services/scoring.py:89-117 | the score map after the label loop has a key exactly for accounts whose labels carry weight |
| Scoring.AddVelocity | backend/services/scoring.py:120-123 | the velocity loop adds each velocity entry whose account is not payroll-like |
| Scoring.AddBonus | backend/services/scoring.py:122-123 | one entry is added unless the account is payroll-like |
| Scoring.CapScores | backend/services/scoring.py:126-127 | every score becomes its minimum with 100 |
| Scoring.CalculateSuspicionScores | backend/services/scoring.py:30-129 | the four loops give the score table of the specification |
| ScoringFacts.TableAt | backend/services/scoring.py:89-129 | at one account, the table has a key iff the label weight is positive or a bonus applies, and the value is their capped sum, at least 1 and at most 100 |
| ScoringFacts.BonusAt | backend/services/scoring.py:120-123 | the bonus goes to exactly the high-velocity accounts that are not payroll-like, worth 15 each |
| ScoringFacts.ScoreTableFacts | backend/services/scoring.py:64-129 | an account is scored exactly when its distinct labels weigh something or it earns the velocity bonus; its score is their sum capped at 100, always between 1 and 100 |
| ScoringFacts.LabelsAreLengths | backend/services/scoring.py:72-84 | an account's ring labels are the labels of its distinct path lengths |
| ScoringFacts.Classify | backend/services/scoring.py:91-116 | detector labels split into the cycle class, the shell class and weightless ones, and `smurfing` is not among them |
| ScoringFacts.CycleLabelCount | backend/services/scoring.py:70-74 | an account has as many distinct cycle labels as distinct cycle lengths |
| ScoringFacts.ShellLabelCount | backend/services/scoring.py:82-86 | an account has as many distinct shell labels as distinct chain lengths |
| ScoringFacts.LabelWeightFormula | backend/services/scoring.py:66-117 | with detector-made smurfing labels, an account's label weight is 40 per distinct cycle length and 25 per distinct chain length it takes part in |
| Common.SortBy | backend/services/cycle_detection.py:33 | the sort returns a permutation, sorted whenever the order is a total preorder |
| Common.SortStrings | backend/services/shell_detection.py:34 | `sorted` of strings returns a permutation in ascending order |
| Common.NatToString | backend/services/cycle_detection.py:77 | the decimal rendering is a non-empty digit string without a leading zero |
| Common.ParseNatToString | backend/services/scoring.py:93 | `int` reads back the rendered number |
| Common.NatToStringInjective | backend/services/cycle_detection.py:77 | different numbers render differently |
| Common.Pad3 | backend/services/cycle_detection.py:60 | `{n:03d}` has at least three characters |
| Common.Pad3Parses | backend/services/cycle_detection.py:60 | the padded digits read back as n |
| Common.RingName | backend/services/cycle_detection.py:60 | ring names begin with `RING_` and have at least three digits |
| Common.RingNameInjective | backend/services/cycle_detection.py:60 | different ids give different ring names |
| Formatter.Entry | backend/services/json_formatter.py:98-112 | definition: one suspicious-account record: id, score, sorted patterns, and the ring name when the account is mapped |
| Formatter.Entries | backend/services/json_formatter.py:96-112 | definition: the records of the nodes whose score is positive |
| Formatter.SuspiciousList | backend/services/json_formatter.py:95-115 | definition: those records sorted by `(-suspicion_score, account_id)` |
| Formatter.RingMembersOf | backend/services/json_formatter.py:126-138 | definition: the accounts of every path of the rings with a given id |
| Formatter.Mean | backend/services/json_formatter.py:153-154 | definition: the members' mean score, missing scores counting 0, and 0 for no members |
| Formatter.PatternType | backend/services/json_formatter.py:145-150 | definition: `cycle` for a cycle ring id, else `shell` for a shell ring id, else `unknown` |
| Formatter.RingEntry | backend/services/json_formatter.py:141-163 | definition: one ring record: name, sorted members, type and rounded mean |
| Formatter.FraudRingList | backend/services/json_formatter.py:117-166 | definition: the records of all ring ids sorted by `(-risk_score, ring_id)` |
| Formatter.Result | backend/services/json_formatter.py:10-180 | definition: the two lists and the summary counts |
| Formatter.ListSorted | backend/services/json_formatter.py:104 | sorting a set of strings gives the same sequence however the set is listed |
| Formatter.SortedArrangement | backend/services/json_formatter.py:97-115 | when the sort key ties no two elements, sorting any arrangement of a set gives the same list, so set iteration order does not show in the result |
| Formatter.AccountLeIsTotalPreorder | backend/services/json_formatter.py:115 | the key `(-suspicion_score, account_id)` is a total preorder |
| Formatter.EntriesUntied | backend/services/json_formatter.py:115 | no two suspicious records tie under that key |
| Formatter.AddEntry | backend/services/json_formatter.py:97-112 | one node adds its record exactly when its score is positive |
| Formatter.CollectEntries | backend/services/json_formatter.py:96-112 | the loop lists each record of a node with a positive score once |
| Formatter.BuildSuspicious | backend/services/json_formatter.py:95-115 | the loop and the sort give the specification's sorted suspicious list |
| Formatter.CollectMembers | backend/services/json_formatter.py:129-132 | the two inner loops collect exactly the accounts of one ring |
| Formatter.AddRingsMembers | backend/services/json_formatter.py:128-138 | the member loops over a ring dict |
| Formatter.MemberMapFacts | backend/services/json_formatter.py:126-138 | a ring id has a member set iff it was present or is a ring of the dict, and its members are the accounts of the rings with that id |
| Formatter.RingLeIsTotalPreorder | backend/services/json_formatter.py:166 | the key `(-risk_score, ring_id)` is a total preorder |
| Formatter.RingEntriesUntied | backend/services/json_formatter.py:166 | no two ring records tie under that key |
| Formatter.RingIdsAppend | backend/services/json_formatter.py:121-123 | the ring ids of both dicts are their union |
| Formatter.MakeRing | backend/services/json_formatter.py:141-163 | one ring record: sorted members, type, rounded mean |
| Formatter.AddRing | backend/services/json_formatter.py:141-163 | one iteration adds the record of the ring id |
| Formatter.CollectRings | backend/services/json_formatter.py:141-163 | the loop lists the record of every ring id once |
| Formatter.BuildFraudRings | backend/services/json_formatter.py:117-166 | member sets, records and sort give the specification's ring list |
| Formatter.FormatDetectionResult | backend/services/json_formatter.py:10-180 | the formatter returns the specification's result record |
| FormatterFacts.SortedListingFacts | backend/services/json_formatter.py:104 | `sorted` of a set lists each element once, ascending |
| FormatterFacts.EntriesFacts | backend/services/json_formatter.py:96-112 | the records are exactly those of the nodes with a positive score, one per node |
| FormatterFacts.SuspiciousListFacts | backend/services/json_formatter.py:95-115 | the list holds one record per graph node with a positive score and no other, with distinct account ids, ordered by score descending and then by account id ascending |
| FormatterFacts.EntryFacts | backend/services/json_formatter.py:98-112 | a record carries the account's score, its patterns once each in ascending order, and its ring name exactly when it is mapped |
| FormatterFacts.RingEntriesFacts | backend/services/json_formatter.py:141-163 | one record per ring id and no other |
| FormatterFacts.FraudRingListFacts | backend/services/json_formatter.py:117-166 | the ring list has one record per distinct cycle or shell ring id, no repeats, ordered by risk descending and then by ring name |
| FormatterFacts.RingEntryNames | backend/services/json_formatter.py:156-161 | different ring ids give records with different names |
| FormatterFacts.RingEntryShape | backend/services/json_formatter.py:141-163 | a ring record's name, members, type and risk for any member listing |
| FormatterFacts.RingEntryFacts | backend/services/json_formatter.py:141-163 | a ring record's members are, once each and ascending, the accounts of the rings with its id; its type is `cycle` iff the id is a cycle ring and `shell` iff it is only a shell ring; its risk is the rounded mean member score |
| FormatterFacts.MeanFacts | backend/services/json_formatter.py:153-154 | the mean member score, missing scores counted as 0, lies between 0 and the score bound |
| FormatterFacts.ResultFacts | backend/services/json_formatter.py:169-174 | the summary counts the distinct nodes, the suspicious records and the distinct ring ids, and carries the rounded time |
| Pipeline.Detection | backend/services/detection_engine.py:17-101 | definition: the stages composed in order with the fixed parameters |
| Pipeline.RunDetection | backend/services/detection_engine.py:17-101 | the stages, run in order with thresholds 3-5, 10 in 72 h, 3 and 3, give the specification's result |
| PipelineFacts.SmurfLabelsWeightless | backend/services/scoring.py:77-117 | every smurfing record the pipeline makes carries a label that adds 0 to the score |
| PipelineFacts.RingCount | backend/services/json_formatter.py:121-123 | cycle and shell ring ids never collide, so there are as many distinct ids as rings |
| PipelineFacts.DetectionSummary | backend/services/json_formatter.py:169-174 | the summary counts every input account, one record per account with a positive score, and one ring per cycle ring and per surviving shell ring |
| PipelineFacts.SuspiciousScores | backend/services/scoring.py:64-129 | every listed account is an input account scoring between 1 and 100: 40 per distinct cycle length, 25 per distinct surviving chain length, 15 more when it is fast and not payroll-like, capped at 100 |
| PipelineFacts.RingRisks | backend/services/json_formatter.py:153-161 | every ring's risk is the rounded mean score of its sorted members, and that mean lies between 0 and 100 |
| PipelineFacts.RingRiskBounded | backend/services/json_formatter.py:153-161 | when `round(x, 1)` maps 0..100 into 0..100, every ring's `risk_score` lies between 0 and 100, the bound the `FraudRing` record declares (`backend/models/transaction.py:37`) |

## Code notes

In a few places the code's behaviour deserves a note, and in one the code differs from its own comments. The model follows the code in each case:

- **Smurfing score.** The weight comment at `backend/services/scoring.py:10-14` promises +30 for smurfing detection. The code adds 30 only for the literal label `smurfing`, but the detector always emits `fan_in_{t}_{h}h` or `fan_out_{t}_{h}h`. So smurfing adds nothing (`PipelineFacts.SmurfLabelsWeightless`), even though the label is listed in `detected_patterns`.
- **Score-table keys.** The score table gets a key only on the first `+=`. A smurfing-only account therefore has no score entry and is not listed as suspicious (`ScoringFacts.ScoreTableFacts`).
- **Ring membership.** `account_ring_map` maps each account to at most one ring (`ConsolidationFacts.AccountRingsFacts`), and no shell ring shares an account with a cycle ring (`ConsolidationFacts.ShellMemberNotCycle`). Two cycle rings can still list the same account among their members, because the grouping overwrites tags: `Cycles.OverlappingRings` gives a concrete input. `Shells.DetectLayeredShells` groups its chains with the same `Rings.Group`, so `RingFacts.GroupJoinRule` holds for shell rings too, and a chain whose accounts lie in two earlier rings joins only the ring of its first already-tagged account.
- **Renumbering.** Shell rings are renumbered from `len(cycle_accounts) + 1`. Cycle ids run 1 to `len(cycle_accounts)`, so shell names never collide with cycle names (`ConsolidationFacts.RingNamesDistinct`).

## Left out

- The enumeration of simple cycles (`nx.simple_cycles`, `backend/services/cycle_detection.py:31`) is a library call. It is an input (`allCycles`) that is required to hold simple cycles of the graph. The model does not fix which rotation of a cycle networkx reports, or require that every cycle is listed.
- networkx's `DiGraph` is replaced by explicit maps. Its in-degree and out-degree count distinct neighbours, and a self-loop counts in both.
- Floating point is left out; amounts, means, rates and the coefficient of variation are exact reals.
  - The velocity rate and the payroll coefficient of variation are the cross-multiplied integer tests. `Velocity.RateIsDivision` and `PayrollFacts.CoefficientOfVariation` prove them equal to the source's divisions and square root on exact reals.
  - `round(x, 1)` and `round(x, 2)` are function parameters.
  - Suspicion scores are integers, so `round(score, 1)` leaves them unchanged.
- `time.time()` (`backend/services/detection_engine.py:35,94`) is a clock. The elapsed time is the `processingTime` parameter.
- `datetime`, `timedelta` and `strftime`: a timestamp is integer seconds plus its (year, month) key, and a window of `hours` is `hours * 3600` seconds.
- Dict and set iteration order:
  - Ring dicts and the grouping dicts are sequences in insertion order.
  - A pattern set is a Dafny set, and it reaches the output only through `sorted`.
  - The formatter's account and ring-id sets reach the output only through a sort whose key ties nothing. `Formatter.SortedArrangement` proves that the order is then irrelevant.
- The formatter builds its own de-duplicated pattern list per account (`backend/services/json_formatter.py:71-93`) and then sorts it. The model sorts the label set of `Patterns.AccountPatterns` instead, which holds the same labels from the same rings and flags.
- Unused parameters are dropped: the graph and `account_ring_map` of `calculate_suspicion_scores`, and the transaction list of `format_detection_result`. The graph of the formatter contributes only its node list. `potential_ends` (`backend/services/shell_detection.py:35`) is never read and is dropped too.
- The `if shell_accounts:` guards (`backend/services/detection_engine.py:50,74`): `Consolidation.Consolidate` mirrors both as branches, but the specification functions `Consolidation.FinalShells` and `Consolidation.AccountRings` have no branch, because filtering and renaming an empty shell dict give the same empty result.
- Shells.ChainSearch.DfsChain: stops extending a chain once it has more nodes than the target. The source keeps extending such a chain but can never record it, so the result is the same. This only arises for a target of 0.
- FormatterFacts.MeanFacts: bounds the mean member score before rounding. `round(x, 1)` is the function parameter `round1`, so the bound on the rounded `risk_score` needs a property of that function; `PipelineFacts.RingRiskBounded` proves the bound for any `round1` that maps 0..100 into 0..100.
- Weights.ParseInt: reads plain digit strings only, not the signs, spaces and underscores Python's `int` also accepts. Every cycle or shell label weighs the same whatever number it parses to, so this cannot change a weight.
- ShellFacts.ShellChainsComplete: covers paths of at least two nodes. A one-node chain arises only when the minimum length is 1 or less (the pipeline uses 3), and the source then records it only if its node has an out-edge; the lemma says nothing about that case.
- ShellFacts.ShellChainsFacts: orders chains by length and then by start node. It does not restate the successor-order tie-break within one start; `Shells.ChainSearch.DfsChain` fixes that order exactly through its specification.
- The CSV parser, the HTTP API, the pydantic validators, the frontend and the smoke script are not part of this model.
