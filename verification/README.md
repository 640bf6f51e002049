# Verified models of the zipkin-web client code

The Zipkin web interface ships a good deal of algorithmic JavaScript: the dependency page lays its graph out with a layered graph drawing
library, charts rest on a red-black tree and a delimiter-separated parser, pages are assembled by an asynchronous module loader, the date
field has its own calendar arithmetic, and the trace view decides by reference counting which spans it shows. This project models that code
in Dafny, keeps its loops, tables and pointer structures, and proves what the code is for. Line numbers refer to the files of the repository.

How to read it:

- Tables and objects that the code updates in place are updated step by step here too: the queue, the graph, the red-black tree, the date
  and the trace view are classes; searches and sweeps are methods with loops whose invariants are named predicates. Algorithms that only
  read a graph take it as a value.
- A loop over the keys of a JavaScript object is a loop over an arbitrary listing of them (`Base.Listing`), so nothing proved here depends
  on an iteration order. Weights, distances and coordinates are exact real numbers.
- Where the code fails for some inputs, the theorem says for exactly which ones: `topsort` and `isAcyclic`, the delimiters for which the
  printer and the parser undo each other, the trace view's ancestor lists, the spreading of weights in the ordering phase, and the marking of
  conflicts in the positioning phase.

The parts:

- Graph library: `PriorityQueue` (a binary heap over an array with an index of its keys), `Digraph` (a multigraph with in- and out-indexes),
  `Dijkstra`, `FloydWarshall`, `Prim`, `Tarjan`, `TopSort`. Specifications are in terms of walks (`Walks`).
- Layered layout: `Acyclic` (reversing back edges and undoing it), `TopSort.InitRank` (longest chains), `TightTree` (the tight spanning
  tree), `LayoutGraph`, `LayoutRank`, `LayoutNormalize`, `CrossCount` and `Order` (crossing reduction), `Conflicts`, `Alignment`, `Blocks`,
  `Placement`, `ClassHeads`, `Compaction` and `Positions` (Brandes and Koepf's candidates), `Coordinates` (from the candidates to the final
  coordinates, in which no two nodes overlap), `LayoutDraw` (ordering and positioning of the normalized graph), `Layout` (the stages of `run`
  in sequence, each meeting the conditions of the next, and the theorems that the result has exactly the structure of the input and that the
  picture keeps all minimum lengths and distances), `LowLim` (the labels that answer subtree questions).
- `RedBlackShapes` and `RedBlackTree`: the threaded red-black tree. A position in the tree is a context (`Ctx`, the path to the root) and a
  subtree (`Shape`); `Linked` says that the nodes' fields in memory are those of the tree put together from both.
- `Dsv`: the parser and the printer for delimiter-separated values.
- `Loader`, `LoaderCycles`, `LoaderRuns`: the module loader as a state machine, in which scripts arrive in any order.
- `Calendar`, `DateText`: month arithmetic, the date printer and the date parser.
- `Trace`: filters, counters and visibility of spans. `Sums`: sums over finite sets.

Points where the code and its comments or documentation differ; the model follows the code:

- `topsort` starts its search from the sinks only, so it finds a cycle exactly if the cycle leads to a sink, and `isAcyclic` inherits that
  (`TopSorts.TestAcyclic`, `TopSorts.CycleMissed`).
- `adjustWeights` says that it spreads the weights over the places of the layer. If all weights of a layer are equal it does not: the spread
  weight is then half a place beyond the last one (`Orders.SpreadFits`).
- With `maxSweeps` 0 the order phase stores no crossing count (`Orders.Order`). It gives up on a start after three sweeps in a row without gain,
  because the sweep that gained is counted as the first of the four that `lastBest` allows.
- `findConflicts` looks only at the inner segments next to an edge, and only from the third row on. So an edge that crosses an inner segment may stay
  unmarked: where inner segments cross each other (`Conflicts.CrossingMissed`), and between the first two rows, where a self loop at a source has
  an inner segment (`Conflicts.FirstRowMissed`). `Conflicts.AllMarkedWhen` says that these are the only cases.
- `horizontalCompaction` assumes, in its own words, that shifts have been resolved for classes that begin at an earlier layer. This is so
  (`ClassHeads.EarlierHead`), and therefore neighbours keep their distance across classes too (`Compactions.HorizontalCompaction`).
- The delimiter is pasted into a regular expression unescaped, so besides the quote and the line ends also `]`, backslash and the hyphen
  do not work as delimiters (`Dsvs.OrdinaryNeeded`).

## Model

| member | source | states |
|---|---|---|
| `PriorityQueues.RootIsLeast` | zipkin-web/src/main/resources/app/libs/dagre-d3/js/dagre-d3.js:1006-1035 | In an array in heap order (the parent of i at i>>1, the children at 2i and 2i+1) no entry is less than the first. |
| `PriorityQueues.PriorityQueue.Min` | zipkin-web/src/main/resources/app/libs/dagre-d3/js/dagre-d3.js:950-955 | A key of least priority; an error exactly if the queue is empty. |
| `PriorityQueues.PriorityQueue.Has` | zipkin-web/src/main/resources/app/libs/dagre-d3/js/dagre-d3.js:929-931 | Whether a key is queued. |
| `PriorityQueues.PriorityQueue.Priority` | zipkin-web/src/main/resources/app/libs/dagre-d3/js/dagre-d3.js:939-944 | The priority of a key according to the index of keys is the one the contents give it. |
| `PriorityQueues.PriorityQueue.Add` | zipkin-web/src/main/resources/app/libs/dagre-d3/js/dagre-d3.js:965-976 | Adds the key exactly if it is not queued yet; heap order and the key index (the inverse of the array) are kept. |
| `PriorityQueues.PriorityQueue.RemoveMin` | zipkin-web/src/main/resources/app/libs/dagre-d3/js/dagre-d3.js:981-987 | Takes out one key of least priority and nothing else. |
| `PriorityQueues.PriorityQueue.Decrease` | zipkin-web/src/main/resources/app/libs/dagre-d3/js/dagre-d3.js:996-1004 | Lowers a priority; an error, and no change, exactly if the key is not queued or the priority would rise. |
| `PriorityQueues.PriorityQueue.Heapify` | zipkin-web/src/main/resources/app/libs/dagre-d3/js/dagre-d3.js:1006-1021 | Sifting down restores a heap that is in order but for one entry, with the same contents. |
| `PriorityQueues.PriorityQueue.DecreaseFrom` | zipkin-web/src/main/resources/app/libs/dagre-d3/js/dagre-d3.js:1023-1035 | Sifting up restores a heap that is in order but for one entry and its ancestors, with the same contents. |
| `PriorityQueues.PriorityQueue.Swap` | zipkin-web/src/main/resources/app/libs/dagre-d3/js/dagre-d3.js:1037-1046 | Exchanges two entries and keeps the key index the inverse of the array. |
| `Digraphs.Digraph.AddEdge` | zipkin-web/src/main/resources/app/libs/dagre-d3/js/dagre-d3.js:4032-4035 | Adds exactly one edge, under a given id or a fresh generated one; errors exactly for unknown ends or an id in use; both indexes stay those of the edge map, without empty entries. |
| `Digraphs.Digraph.DelEdge` | zipkin-web/src/main/resources/app/libs/dagre-d3/js/dagre-d3.js:4043-4045 | Removes exactly one edge and its index entries; an error exactly if there is none. |
| `Digraphs.Digraph.AddNode` | zipkin-web/src/main/resources/app/libs/dagre-d3/js/dagre-d3.js:3997-4002 | Adds exactly one node, under a given id or a fresh generated one. |
| `Digraphs.Digraph.DelNode` | zipkin-web/src/main/resources/app/libs/dagre-d3/js/dagre-d3.js:4011-4015 | Removes the node and exactly the edges incident on it. |
| `Digraphs.Digraph.InEdges` | zipkin-web/src/main/resources/app/libs/dagre-d3/js/dagre-d3.js:3928-3936 | The indexed lookup equals the comprehension over the edge map. |
| `Digraphs.Digraph.InEdgesFrom` | zipkin-web/src/main/resources/app/libs/dagre-d3/js/dagre-d3.js:3928-3936 | With a source: exactly the edges from it to the target; an error exactly if an end is unknown. |
| `Digraphs.Digraph.OutEdges` | zipkin-web/src/main/resources/app/libs/dagre-d3/js/dagre-d3.js:3951-3959 | The indexed lookup equals the comprehension over the edge map. |
| `Digraphs.Digraph.OutEdgesTo` | zipkin-web/src/main/resources/app/libs/dagre-d3/js/dagre-d3.js:3951-3959 | With a target: exactly the edges from the source to it; an error exactly if an end is unknown. |
| `Digraphs.Digraph.Successors` | zipkin-web/src/main/resources/app/libs/dagre-d3/js/dagre-d3.js:3842-3846 | The keys of the out-index are exactly the targets of the out-edges. |
| `Digraphs.Digraph.Predecessors` | zipkin-web/src/main/resources/app/libs/dagre-d3/js/dagre-d3.js:3856-3860 | The keys of the in-index are exactly the sources of the in-edges. |
| `Digraphs.Digraph.IncidentEdges` | zipkin-web/src/main/resources/app/libs/dagre-d3/js/dagre-d3.js:3974-3980 | Exactly the edges with the node at either end. |
| `Digraphs.IndexesGain` | zipkin-web/src/main/resources/app/libs/dagre-d3/js/dagre-d3.js:3636-3654 | Entering an edge in both indexes keeps them the indexes of the edge map. |
| `Digraphs.IndexesLose` | zipkin-web/src/main/resources/app/libs/dagre-d3/js/dagre-d3.js:3657-3662 | Taking an edge out of both, and empty entries with it, keeps them the indexes of the edge map. |
| `Dijkstras.Dijkstra` | zipkin-web/src/main/resources/app/libs/dagre-d3/js/dagre-d3.js:4271-4316 | On the heap above: every distance is the least length of a walk from the source, or infinite if there is none, and predecessors are last steps of shortest walks; an error exactly if an edge of negative weight is within reach. |
| `Dijkstras.WalkBound` | zipkin-web/src/main/resources/app/libs/dagre-d3/js/dagre-d3.js:4275-4316 | When only infinite entries are left in the queue, no walk from a settled node is shorter than the table says. |
| `Walks.WalkPasses` | zipkin-web/src/main/resources/app/libs/dagre-d3/js/dagre-d3.js:4301-4310 | What a walk is: a list of edges that passes some nodes in turn, each from one to the next or, in an undirected graph, back. |
| `FloydWarshalls.FloydWarshall` | zipkin-web/src/main/resources/app/libs/dagre-d3/js/dagre-d3.js:4409-4454 | Without negative cycles all entries are shortest distances, also for negative weights; and there is a negative cycle exactly if some node ends with a negative distance to itself. |
| `FloydWarshalls.Shorten` | zipkin-web/src/main/resources/app/libs/dagre-d3/js/dagre-d3.js:4436-4451 | Every walk can be shortened to a simple one that is no longer, or hides a simple negative cycle: why it is enough to go through each node once. |
| `FloydWarshalls.DetourShort` | zipkin-web/src/main/resources/app/libs/dagre-d3/js/dagre-d3.js:4436-4451 | A round of the outer loop takes in every simple walk that passes the new node. |
| `FloydWarshalls.DijkstraAll` | zipkin-web/src/main/resources/app/libs/dagre-d3/js/dagre-d3.js:4347-4353 | Dijkstra from every node: all entries exact; an error exactly if there is a negative weight. |
| `FloydWarshalls.BothAgree` | zipkin-web/src/main/resources/app/libs/dagre-d3/js/dagre-d3.js:4324-4332 | Where both apply, the two algorithms give the same distances. |
| `Prims.Prim` | zipkin-web/src/main/resources/app/libs/dagre-d3/js/dagre-d3.js:4559-4605 | An error exactly if the graph is not connected; otherwise the result is a spanning tree of least total weight, made of copies of edges of the graph. |
| `Prims.Exchange` | zipkin-web/src/main/resources/app/libs/dagre-d3/js/dagre-d3.js:4565-4576 | A lightest edge that leaves the nodes taken in can replace an edge of any spanning tree without making it heavier. |
| `Prims.ExtendableStep` | zipkin-web/src/main/resources/app/libs/dagre-d3/js/dagre-d3.js:4591-4602 | A set of edges that some least spanning tree contains still is one after the round's edge has been added. |
| `Prims.CutOff` | zipkin-web/src/main/resources/app/libs/dagre-d3/js/dagre-d3.js:4593-4599 | A least queued node without a parent is only met if the graph is not connected. |
| `Tarjans.Tarjan` | zipkin-web/src/main/resources/app/libs/dagre-d3/js/dagre-d3.js:4627-4673 | An error exactly for undirected graphs; the result partitions the nodes, and its parts are exactly the classes of mutually reachable nodes. |
| `Tarjans.Dfs` | zipkin-web/src/main/resources/app/libs/dagre-d3/js/dagre-d3.js:4637-4664 | A visit keeps the invariants of numbers, stack and low links, and leaves everything reachable visited. |
| `Tarjans.LeftComponent` | zipkin-web/src/main/resources/app/libs/dagre-d3/js/dagre-d3.js:4654-4663 | What is popped when a node's low link is its own number is a whole strongly connected component. |
| `TopSorts.TopSort` | zipkin-web/src/main/resources/app/libs/dagre-d3/js/dagre-d3.js:4690-4725 | An error exactly if there are nodes but no sinks, or a cycle leads to a sink; otherwise the nodes that lead to sinks, once each, every one after its predecessors. |
| `TopSorts.SortComplete` | zipkin-web/src/main/resources/app/libs/dagre-d3/js/dagre-d3.js:4690-4725 | On an acyclic graph none of the errors occurs and every node leads to a sink, so all are listed. |
| `TopSorts.SortAcyclic` | zipkin-web/src/main/resources/app/libs/dagre-d3/js/dagre-d3.js:3015-3018 | On an acyclic graph: all nodes, once each, in the order of the edges. |
| `TopSorts.TestAcyclic` | zipkin-web/src/main/resources/app/libs/dagre-d3/js/dagre-d3.js:4472-4480 | The exact condition under which the answer by way of topsort is right. |
| `TopSorts.CycleMissed` | zipkin-web/src/main/resources/app/libs/dagre-d3/js/dagre-d3.js:4690-4725 | A graph with a cycle that topsort does not notice. |
| `TopSorts.InitRank` | zipkin-web/src/main/resources/app/libs/dagre-d3/js/dagre-d3.js:3015-3030 | Every node's rank is the length of the longest chain of minimum lengths that leads to it from a source; so all minimum lengths are kept and every node but the sources has a tight in-edge. |
| `TopSorts.RankIsLongest` | zipkin-web/src/main/resources/app/libs/dagre-d3/js/dagre-d3.js:3006-3014 | Ranks that keep all minimum lengths and hang on tight edges are longest chains, and the other way round none is longer. |
| `TopSorts.NoLongerChain` | zipkin-web/src/main/resources/app/libs/dagre-d3/js/dagre-d3.js:3015-3030 | No chain is longer than the difference of the ranks of its ends. |
| `TopSorts.SomeChainAsLong` | zipkin-web/src/main/resources/app/libs/dagre-d3/js/dagre-d3.js:3015-3030 | For every node some chain from a source is as long as its rank. |
| `Acyclics.Acyclic` | zipkin-web/src/main/resources/app/libs/dagre-d3/js/dagre-d3.js:2650-2683 | Reverses edges in place until the graph is acyclic; changes nothing else, and reverses only edges that lie on cycles. |
| `Acyclics.Dfs` | zipkin-web/src/main/resources/app/libs/dagre-d3/js/dagre-d3.js:2655-2676 | After the search from a node everything opened is finished, and finished nodes have edges only to nodes finished earlier. |
| `Acyclics.Undo` | zipkin-web/src/main/resources/app/libs/dagre-d3/js/dagre-d3.js:2690-2698 | Turns every flagged edge back and clears the flag. |
| `Acyclics.MakeAcyclicAndBack` | zipkin-web/src/main/resources/app/libs/dagre-d3/js/dagre-d3.js:2650-2698 | Undoing restores exactly the graph that was made acyclic. |
| `TightTrees.Components` | zipkin-web/src/main/resources/app/libs/dagre-d3/js/dagre-d3.js:4213-4236 | Partitions the nodes into the connected components. |
| `TightTrees.FeasibleTree` | zipkin-web/src/main/resources/app/libs/dagre-d3/js/dagre-d3.js:2906-2989 | On a connected graph with a feasible ranking and a tight edge: terminates with a spanning tree of tight edges, and the ranking is still feasible. |
| `TightTrees.AddTightEdges` | zipkin-web/src/main/resources/app/libs/dagre-d3/js/dagre-d3.js:2917-2951 | Hangs on the tree what tight edges reach, or tells that there was nothing. |
| `TightTrees.CreateTightEdge` | zipkin-web/src/main/resources/app/libs/dagre-d3/js/dagre-d3.js:2953-2976 | Moving the whole tree by the least slack keeps the ranking feasible and makes an edge out of the tree tight. |
| `Layouts.Run` | zipkin-web/src/main/resources/app/libs/dagre-d3/js/dagre-d3.js:1439-1487 | For every input multigraph, with cycles, self loops and parallel edges: all stages run in sequence, the result has exactly the input's nodes and edge ids with their original ends, and the picture shows a graph whose nodes are the input's and dummies and in which every edge of the input, some turned round, is there directly, as a chain of dummies that stand for it, or, if it is a self loop, as its dummies and helper edges; minimum lengths are doubled and ranks put half as far apart; layers, arrangement and coordinates are those of ranking, ordering and positioning. |
| `Layouts.LayoutRanked` | zipkin-web/src/main/resources/app/libs/dagre-d3/js/dagre-d3.js:1450-1459 | The layers of the picture: no edge is shorter than twice its minimum length (which is one if none is given), and every component, of all edges but self loops and of the helper edges in place of those, begins with rank zero and is connected by edges of exactly their length alone, which is one for helper edges. |
| `Layouts.EdgeSpans` | zipkin-web/src/main/resources/app/libs/dagre-d3/js/dagre-d3.js:1450-1459 | The ends of every input edge that is no self loop are at least twice its minimum length apart in the layers, in its direction or, if it has been turned, against it. |
| `Layouts.EdgeDrawn` | zipkin-web/src/main/resources/app/libs/dagre-d3/js/dagre-d3.js:1450-1469 | So in the picture they are as far apart in the rank direction as the minimum length times the rank separation asks for. |
| `Layouts.LayoutClear` | zipkin-web/src/main/resources/app/libs/dagre-d3/js/dagre-d3.js:1439-1487 | In the layout no two nodes of the input overlap, if the sizes and the distances asked for are not negative. |
| `Layouts.LayoutGap` | zipkin-web/src/main/resources/app/libs/dagre-d3/js/dagre-d3.js:2402-2427 | Neighbours in a layer of the picture keep the distance that their sizes and the separations ask for, that for edges at every node which is not in the input. |
| `Layouts.InitLayoutGraph` | zipkin-web/src/main/resources/app/libs/dagre-d3/js/dagre-d3.js:1395-1427 | The working copy holds the input's edges under fresh ids that remember the original ones, with their minimum length, or one if none is given. |
| `Layouts.DoubleMinLen` | zipkin-web/src/main/resources/app/libs/dagre-d3/js/dagre-d3.js:1449-1452 | Every minimum length is doubled. |
| `Layouts.RankRun` | zipkin-web/src/main/resources/app/libs/dagre-d3/js/dagre-d3.js:2519-2554 | After breaking cycles and ranking, every edge points to a later rank, the helper edges of self loops span exactly one rank, and every edge but the self loops is still there, some turned round; ranks keep all minimum lengths, and each component begins with zero and has a spanning tree of edges of exactly their length. |
| `Layouts.ReorientEdges` | zipkin-web/src/main/resources/app/libs/dagre-d3/js/dagre-d3.js:2610-2618 | Turns exactly the edges that point to an earlier rank and flags them. |
| `Layouts.CreateFinalGraph` | zipkin-web/src/main/resources/app/libs/dagre-d3/js/dagre-d3.js:1560-1567 | The working copy is translated back to the original ids. |
| `LayoutGraphs.ExpandSelfLoops` | zipkin-web/src/main/resources/app/libs/dagre-d3/js/dagre-d3.js:2573-2608 | Each self loop becomes three dummies and four helper edges, one dummy remembering it; nothing else changes. |
| `LayoutGraphs.LoopOffCycles` | zipkin-web/src/main/resources/app/libs/dagre-d3/js/dagre-d3.js:2573-2608 | The helper edges lie on no cycle, so they are never reversed. |
| `LayoutGraphs.FlipsKeep` | zipkin-web/src/main/resources/app/libs/dagre-d3/js/dagre-d3.js:2650-2683 | Reversing edges on cycles turns some original edges and keeps what the graph represents. |
| `LayoutRanks.RankGraph` | zipkin-web/src/main/resources/app/libs/dagre-d3/js/dagre-d3.js:2620-2633 | Each connected component gets a feasible ranking from zero on that has a spanning tree of tight edges. |
| `LayoutRanks.TightLoop` | zipkin-web/src/main/resources/app/libs/dagre-d3/js/dagre-d3.js:2573-2586 | A spanning tree uses three of a self loop's four helper edges, so all four are tight. |
| `LayoutRanks.LoopsShort` | zipkin-web/src/main/resources/app/libs/dagre-d3/js/dagre-d3.js:2573-2586 | So none of them is ever split. |
| `LayoutNormalizes.Normalize` | zipkin-web/src/main/resources/app/libs/dagre-d3/js/dagre-d3.js:1498-1529 | Splits long edges at dummies until every edge spans one rank; each edge of the graph before is still there or has become a chain of new dummies that remember it, the first and the last as its control points; and what the graph represents is kept. |
| `LayoutNormalizes.UndoNormalize` | zipkin-web/src/main/resources/app/libs/dagre-d3/js/dagre-d3.js:1536-1550 | Removes every dummy and restores exactly the represented edges, under their ids and with their ends. |
| `LayoutNormalizes.NoneLeftOut` | zipkin-web/src/main/resources/app/libs/dagre-d3/js/dagre-d3.js:1498-1529 | After normalization there is a node of every rank from zero up to the highest: the levels that long edges pass over are filled by dummies. |
| `Layouts.RankReached` | zipkin-web/src/main/resources/app/libs/dagre-d3/js/dagre-d3.js:2519-2554 | Before it, every rank below that of a node is that of a node or passed over by an edge, because components are connected and begin with zero. |
| `LayoutDraws.LayersValid` | zipkin-web/src/main/resources/app/libs/dagre-d3/js/dagre-d3.js:1459-1466 | What normalization leaves is what ordering asks for: every edge leads to the next layer and no layer is empty. |
| `LayoutDraws.RowsValid` | zipkin-web/src/main/resources/app/libs/dagre-d3/js/dagre-d3.js:2086-2091 | The ordered layers are rows as alignment asks for them. |
| `LayoutDraws.Draw` | zipkin-web/src/main/resources/app/libs/dagre-d3/js/dagre-d3.js:1465-1469 | Ordering and positioning in sequence: the arrangement is a best one that a sweep of some start has led to, with its count of crossings; the conflicts are those of its rows; and the coordinates come from four candidates, each straight in its blocks and wide enough for all neighbours. |
| `LayoutDraws.PictureClear` | zipkin-web/src/main/resources/app/libs/dagre-d3/js/dagre-d3.js:1465-1469 | In the picture no two nodes overlap, dummies included. |
| `LayoutNormalizes.SplitEdge` | zipkin-web/src/main/resources/app/libs/dagre-d3/js/dagre-d3.js:1500-1528 | Splits one edge into a chain from its source to its target whose first dummy remembers it, and leaves all other edges and chains as they are. |
| `CrossCounts.Accumulate` | zipkin-web/src/main/resources/app/libs/dagre-d3/js/dagre-d3.js:1754-1775 | Counting an index into the accumulator tree yields the number of greater indices counted before. |
| `CrossCounts.SiblingOrder` | zipkin-web/src/main/resources/app/libs/dagre-d3/js/dagre-d3.js:1764-1774 | Leaves below a left child of the array tree come before those below its right sibling. |
| `CrossCounts.TwoLayerCrossCount` | zipkin-web/src/main/resources/app/libs/dagre-d3/js/dagre-d3.js:1745-1777 | Equals the number of pairs of edges between the layers that cross. |
| `CrossCounts.CrossCount` | zipkin-web/src/main/resources/app/libs/dagre-d3/js/dagre-d3.js:1730-1737 | Equals the number of crossing pairs of the whole drawing. |
| `CrossCounts.Ordering` | zipkin-web/src/main/resources/app/libs/dagre-d3/js/dagre-d3.js:3433-3440 | The layers as lists in which each node stands in the place of its order. |
| `Orders.Order` | zipkin-web/src/main/resources/app/libs/dagre-d3/js/dagre-d3.js:1623-1676 | There is a trace of all starts and sweeps: each arrangement of a start is the next sweep of the one before, each start is swept until the limit, until no crossings are left or until three sweeps in a row have brought nothing, and there is another start until the restarts are used up or no crossings are left. The result has no more crossings than any arrangement that a sweep has led to and is one of them; its count is stored exactly if there is at least one sweep. |
| `Orders.SweepAll` | zipkin-web/src/main/resources/app/libs/dagre-d3/js/dagre-d3.js:1645-1662 | One start: its sweeps, when they end, and the best arrangement met so far. |
| `Orders.GoesOn` | zipkin-web/src/main/resources/app/libs/dagre-d3/js/dagre-d3.js:1651-1658 | The test with `lastBest` is right: it goes on exactly if sweeps are left, some crossing is, and the last three sweeps were not all in vain. |
| `Orders.Sweep` | zipkin-web/src/main/resources/app/libs/dagre-d3/js/dagre-d3.js:1698-1717 | A sweep is a chain of layer sorts, downwards by predecessors if its number is even and upwards by successors if it is odd, over all layers but the first on its way; each layer's orders stay a permutation of its places. |
| `Orders.SortLayer` | zipkin-web/src/main/resources/app/libs/dagre-d3/js/dagre-d3.js:1882-1924 | Sorts one layer by the barycenters of the given weights, spread over the places of the layer between their exact bounds, ties by the order before, and leaves all others alone. |
| `Orders.BarycenterIs` | zipkin-web/src/main/resources/app/libs/dagre-d3/js/dagre-d3.js:1905-1905 | The barycenter is the one number from which the weights deviate as far upwards as downwards. |
| `Orders.SumOfParts` | zipkin-web/src/main/resources/app/libs/dagre-d3/js/dagre-d3.js:1905-1905 | The sum of two lists of weights in a row is that of both sums. |
| `Orders.BarycenterOfEdges` | zipkin-web/src/main/resources/app/libs/dagre-d3/js/dagre-d3.js:1681-1717 | The barycenter of a node times the number of its neighbours is the sum of their spread orders, however they are listed: of the ends its in-edges come from going down, of those its out-edges lead to going up; without neighbours it is the node's place. |
| `Orders.AdjustedIs` | zipkin-web/src/main/resources/app/libs/dagre-d3/js/dagre-d3.js:2015-2046 | The weights a layer is sorted by: in proportion between the first and the last place, half a place behind the last one if all are equal, and the place of a node that has none. |
| `Orders.SortedByMeans` | zipkin-web/src/main/resources/app/libs/dagre-d3/js/dagre-d3.js:1914-1917 | In a sorted layer the node with the lesser mean comes first, and of two with the same mean the one that was first before. |
| `Orders.ClearlyBefore` | zipkin-web/src/main/resources/app/libs/dagre-d3/js/dagre-d3.js:1882-1917 | If all weights that a node is sorted by are less than all those of another, it comes first; a node without neighbours has its place as its weight. |
| `Orders.InitOrder` | zipkin-web/src/main/resources/app/libs/dagre-d3/js/dagre-d3.js:1846-1870 | The initial numbering is a permutation of each layer's places. |
| `Orders.AdjustWeights` | zipkin-web/src/main/resources/app/libs/dagre-d3/js/dagre-d3.js:2018-2051 | The weights are spread between their least and greatest; nodes without weights get their place. |
| `Orders.SpreadFits` | zipkin-web/src/main/resources/app/libs/dagre-d3/js/dagre-d3.js:2015-2046 | Spread weights lie in the range of places exactly if the weights of the layer are not all equal. |
| `Alignments.VerticalAlignment` | zipkin-web/src/main/resources/app/libs/dagre-d3/js/dagre-d3.js:2215-2252 | Every link is to a median neighbour without conflict, and to the left one of two if that is free; links never cross, each node is linked whenever it can be; root and align present the chains as rings. |
| `Alignments.AlignNode` | zipkin-web/src/main/resources/app/libs/dagre-d3/js/dagre-d3.js:2231-2248 | One step of the scan keeps all of this. |
| `Alignments.SortedOnce` | zipkin-web/src/main/resources/app/libs/dagre-d3/js/dagre-d3.js:2235-2238 | Neighbours in a layer have one sorted order, so the medians are well defined. |
| `Blocks.AlignPermutes` | zipkin-web/src/main/resources/app/libs/dagre-d3/js/dagre-d3.js:2216-2246 | align is a permutation of the nodes: one to one and onto. |
| `Blocks.RingStep` | zipkin-web/src/main/resources/app/libs/dagre-d3/js/dagre-d3.js:2216-2246 | Its cycles are the blocks: it leads one layer down in the block, and from the lowest node to the root. |
| `Blocks.OnePerLayer` | zipkin-web/src/main/resources/app/libs/dagre-d3/js/dagre-d3.js:2216-2246 | A block has at most one node in each layer. |
| `Blocks.Columns` | zipkin-web/src/main/resources/app/libs/dagre-d3/js/dagre-d3.js:2282-2303 | Blocks never cross: there are columns for them that increase along every layer, which makes the recursion well founded. |
| `Placements.PlaceBlock` | zipkin-web/src/main/resources/app/libs/dagre-d3/js/dagre-d3.js:2282-2303 | Places the block and everything it waits for: each as far left as its neighbours of the same class allow, with the class of its topmost left neighbour; notes for each pair of classes the least room left over between their blocks; and leaves blocks that are placed where they are. |
| `Placements.PassNode` | zipkin-web/src/main/resources/app/libs/dagre-d3/js/dagre-d3.js:2286-2300 | The step for one node of the block keeps all of this: the left neighbour's block first, then class, note or move. |
| `Placements.NoteBound` | zipkin-web/src/main/resources/app/libs/dagre-d3/js/dagre-d3.js:2274-2299 | What is noted for neighbours of different classes is at most the room that is between them in the end. |
| `ClassHeads.HeadIs` | zipkin-web/src/main/resources/app/libs/dagre-d3/js/dagre-d3.js:2288-2292 | The class of a node is headed by the root of a block all of whose nodes are first in their layers. |
| `ClassHeads.Descends` | zipkin-web/src/main/resources/app/libs/dagre-d3/js/dagre-d3.js:2310-2313 | Going to the right along a layer, the heads of the classes are in earlier and earlier layers. |
| `ClassHeads.EarlierHead` | zipkin-web/src/main/resources/app/libs/dagre-d3/js/dagre-d3.js:2310-2313 | The assumption that the code states: where neighbours are of different classes, the head of the right one's class is in an earlier layer, so its shift is known when the left one's is computed. |
| `Compactions.HorizontalCompaction` | zipkin-web/src/main/resources/app/libs/dagre-d3/js/dagre-d3.js:2258-2338 | The nodes of a block share one x, and all neighbours in a layer, of the same class or not, are at least the sum of their separations apart. Relative to the heads the blocks are as far left as their classes allow, and each class is shifted by the least of the amounts noted for it. |
| `Compactions.KeepsDistance` | zipkin-web/src/main/resources/app/libs/dagre-d3/js/dagre-d3.js:2305-2335 | Neighbours keep their distance: within a class by their places, between classes by the shifts. |
| `Compactions.ShiftBound` | zipkin-web/src/main/resources/app/libs/dagre-d3/js/dagre-d3.js:2317-2327 | A class is shifted no further towards another one than has been noted, given that one's own shift. |
| `Compactions.ShiftIs` | zipkin-web/src/main/resources/app/libs/dagre-d3/js/dagre-d3.js:2314-2327 | Each class is shifted by the least of the amounts noted for it, each added to the shift of the class it is about, which is known by then; by nothing if there are none. |
| `Placements.UpdateShift` | zipkin-web/src/main/resources/app/libs/dagre-d3/js/dagre-d3.js:2274-2280 | Keeps the least shift noted for a pair of classes. |
| `Compactions.MinShift` | zipkin-web/src/main/resources/app/libs/dagre-d3/js/dagre-d3.js:2317-2327 | The least of the shifts noted for a class, in terms of those of its neighbours. |
| `Positions.Candidate` | zipkin-web/src/main/resources/app/libs/dagre-d3/js/dagre-d3.js:2094-2113 | In each of the four directions: turned back, the layout keeps blocks straight, and all neighbours in the rows keep their order and distance. |
| `Positions.ViewValid` | zipkin-web/src/main/resources/app/libs/dagre-d3/js/dagre-d3.js:2094-2112 | The layers seen from below or from the right are again a layering. |
| `Coordinates.Balance` | zipkin-web/src/main/resources/app/libs/dagre-d3/js/dagre-d3.js:2354-2390 | The candidates are moved so that the left ends, or the right ends, are where those of the first of the narrowest ones are. |
| `Coordinates.EndsOfAll` | zipkin-web/src/main/resources/app/libs/dagre-d3/js/dagre-d3.js:2340-2352 | The least coordinate of the first nodes and the greatest of the last ones are those of all nodes. |
| `Coordinates.LinedUpSpread` | zipkin-web/src/main/resources/app/libs/dagre-d3/js/dagre-d3.js:2376-2389 | Lining up keeps the distances of neighbours. |
| `Coordinates.SortedAbove` | zipkin-web/src/main/resources/app/libs/dagre-d3/js/dagre-d3.js:2124-2125 | Sorting keeps what lies above what, entry by entry. |
| `Coordinates.MiddlesSpread` | zipkin-web/src/main/resources/app/libs/dagre-d3/js/dagre-d3.js:2117-2126 | The average of the two middle ones of the four coordinates keeps the order and distances of neighbours, since all four candidates do. |
| `Coordinates.Stack` | zipkin-web/src/main/resources/app/libs/dagre-d3/js/dagre-d3.js:2128-2137 | The rows are stacked, each as high as its highest node, with the rank separation in between; backwards for two of the rank directions. |
| `Coordinates.ToZero` | zipkin-web/src/main/resources/app/libs/dagre-d3/js/dagre-d3.js:2139-2147 | The whole is moved so that the first edge of a node is at zero. |
| `Coordinates.Finish` | zipkin-web/src/main/resources/app/libs/dagre-d3/js/dagre-d3.js:2115-2147 | After the candidates have been lined up, every node stands, but for a distance that is the same for all, at the average of the second and third of its four coordinates in ascending order; rows keep their distances and are stacked, and the whole begins at the origin. |
| `Coordinates.MiddleIs` | zipkin-web/src/main/resources/app/libs/dagre-d3/js/dagre-d3.js:2124-2125 | Whatever the four coordinates: put in ascending order, in the only way there is, the second and the third are averaged. |
| `Coordinates.RowsApart` | zipkin-web/src/main/resources/app/libs/dagre-d3/js/dagre-d3.js:2128-2137 | The nodes of a row are on one line; the next row is below, above, to the right or to the left for the four rank directions, at the rank separation from the tallest node of one to that of the other. |
| `Coordinates.NeighboursApart` | zipkin-web/src/main/resources/app/libs/dagre-d3/js/dagre-d3.js:2402-2427 | Neighbours are apart by half their widths (sideways: heights) and half of the separations for nodes or, at dummies, for edges; with a universal separation by twice that. |
| `Coordinates.LaterAhead` | zipkin-web/src/main/resources/app/libs/dagre-d3/js/dagre-d3.js:2128-2137 | Nodes of later rows are ahead in the rank direction by at least the rank separation for each row. |
| `Coordinates.AtOrigin` | zipkin-web/src/main/resources/app/libs/dagre-d3/js/dagre-d3.js:2139-2147 | No box reaches to the left of the origin or above it, and some box touches it on either side. |
| `Coordinates.NoOverlap` | zipkin-web/src/main/resources/app/libs/dagre-d3/js/dagre-d3.js:2086-2147 | In the final layout no two nodes overlap, whatever their sizes and the rank direction; with a universal separation, if it is large enough for every node. |
| `Conflicts.FindConflicts` | zipkin-web/src/main/resources/app/libs/dagre-d3/js/dagre-d3.js:2159-2213 | One scan per row marks exactly the edges that lie outside the inner segments next to them; those between the first two rows are never marked. |
| `Conflicts.FlaggedBetween` | zipkin-web/src/main/resources/app/libs/dagre-d3/js/dagre-d3.js:2171-2176 | Between two stops of the scan, lying outside the bounds is lying outside the inner segments on either side. |
| `Conflicts.MarkedCrosses` | zipkin-web/src/main/resources/app/libs/dagre-d3/js/dagre-d3.js:2159-2213 | A marked edge crosses an inner segment, or ends where one ends and starts to the right of it. |
| `Conflicts.AllMarkedWhen` | zipkin-web/src/main/resources/app/libs/dagre-d3/js/dagre-d3.js:2159-2213 | Every edge that crosses an inner segment is marked if and only if no edge into the second row crosses one and, from the third row on, inner segments do not cross each other. |
| `Conflicts.CrossingMarked` | zipkin-web/src/main/resources/app/libs/dagre-d3/js/dagre-d3.js:2180-2210 | From the third row on: if inner segments do not cross each other, every edge that crosses one is marked. |
| `Conflicts.TangleUnmarked` | zipkin-web/src/main/resources/app/libs/dagre-d3/js/dagre-d3.js:2171-2176 | Where two inner segments cross, one of those that cross is not marked itself. |
| `Conflicts.CrossingMissed` | zipkin-web/src/main/resources/app/libs/dagre-d3/js/dagre-d3.js:2159-2213 | Two edges over five rows that change sides between dummies: one of the segments that cross is not marked. |
| `Conflicts.FirstRowMissed` | zipkin-web/src/main/resources/app/libs/dagre-d3/js/dagre-d3.js:2178-2181 | A self loop at a source beside a long edge: an edge into the second row crosses its inner segment and is not marked. |
| `Conflicts.InnerFirst` | zipkin-web/src/main/resources/app/libs/dagre-d3/js/dagre-d3.js:2240-2241 | So, under the same condition, no link of any of the four alignments crosses an inner segment, in any row. |
| `LowLims.ComputeLowLim` | zipkin-web/src/main/resources/app/libs/dagre-d3/js/dagre-d3.js:3108-3124 | The interval test answers exactly whether a node is in a subtree; the limits are distinct numbers below the number of nodes. |
| `LowLims.Label` | zipkin-web/src/main/resources/app/libs/dagre-d3/js/dagre-d3.js:3111-3121 | A subtree gets a contiguous run of limits that starts at the count. |
| `LowLims.LabelledMeans` | zipkin-web/src/main/resources/app/libs/dagre-d3/js/dagre-d3.js:3207-3210 | What a labelling means: low and lim in range, limits distinct, and the interval test is descent. |
| `LowLims.LimitsCount` | zipkin-web/src/main/resources/app/libs/dagre-d3/js/dagre-d3.js:3108-3124 | A subtree uses as many numbers as it has nodes, so the limits of the whole tree are 0 to n-1. |
| `RedBlackTrees.Tree.Insert` | zipkin-web/src/main/resources/app/libs/d3/d3.js:4697-4765 | The tree stays a balanced red-black tree with a black root and right parent pointers, threaded in order; the sequence of nodes changes by putting the node in right after the given one, or in front. |
| `RedBlackTrees.Tree.Remove` | zipkin-web/src/main/resources/app/libs/d3/d3.js:4766-4854 | The same invariants; the sequence changes by leaving out exactly the node, whose thread is cleared. |
| `RedBlackTrees.Tree.FixInsertion` | zipkin-web/src/main/resources/app/libs/d3/d3.js:4726-4764 | Recolouring and rotating upwards ends in a balanced tree with the same order of nodes. |
| `RedBlackTrees.Tree.FixRemoval` | zipkin-web/src/main/resources/app/libs/d3/d3.js:4798-4853 | The repair after a black node has gone ends in a balanced tree with the same order of nodes. |
| `RedBlackTrees.Tree.RotateLeft` | zipkin-web/src/main/resources/app/libs/d3/d3.js:4856-4868 | The pointer updates perform the left rotation wherever in the tree the node hangs. |
| `RedBlackTrees.Tree.RotateRight` | zipkin-web/src/main/resources/app/libs/d3/d3.js:4869-4881 | The pointer updates perform the right rotation. |
| `RedBlackTrees.Tree.First` | zipkin-web/src/main/resources/app/libs/d3/d3.js:4882-4885 | The first node of a subtree, and its place. |
| `RedBlackTrees.TurnNodes` | zipkin-web/src/main/resources/app/libs/d3/d3.js:4856-4881 | Rotations keep the nodes and their order. |
| `RedBlackShapes.LeftTurn` | zipkin-web/src/main/resources/app/libs/d3/d3.js:4856-4868 | After the writes of a left rotation memory holds the rotated tree in the same context. |
| `RedBlackShapes.RightTurn` | zipkin-web/src/main/resources/app/libs/d3/d3.js:4869-4881 | After the writes of a right rotation memory holds the rotated tree in the same context. |
| `RedBlackShapes.PlugBalanced` | zipkin-web/src/main/resources/app/libs/d3/d3.js:4690-4765 | A tree is balanced exactly if a subtree and the context around it are. |
| `RedBlackShapes.PlugInOrder` | zipkin-web/src/main/resources/app/libs/d3/d3.js:4697-4722 | The order of the nodes is that before the place, that of the subtree, and that after it. |
| `Dsvs.NextToken` | zipkin-web/src/main/resources/app/libs/d3/d3.js:1971-2002 | The cursor moves forward, and the token is the first piece of the rest of the text. |
| `Dsvs.ParseRows` | zipkin-web/src/main/resources/app/libs/d3/d3.js:1969-2013 | The loop over tokens ends and yields the rows of the grammar. |
| `Dsvs.FieldAsIs` | zipkin-web/src/main/resources/app/libs/d3/d3.js:2036-2038 | A field is printed as it is exactly if it has no quote, no delimiter and no line feed; with `]` as the delimiter, if quote, line feed and bracket nowhere follow each other; with a backslash, if it has no quote and no line feed. Otherwise it is printed in quotes with its own quotes doubled. |
| `Dsvs.RowsAsAre` | zipkin-web/src/main/resources/app/libs/d3/d3.js:2017-2038 | Rows of fields without quote, delimiter and line feed are printed as the fields with delimiters, and the lines with line feeds, in between. |
| `Dsvs.JoinTwo` | zipkin-web/src/main/resources/app/libs/d3/d3.js:2030-2035 | What is printed in between stands between any two parts of a list. |
| `Dsvs.RoundTrip` | zipkin-web/src/main/resources/app/libs/d3/d3.js:1969-2038 | With an ordinary delimiter, rows are read back as printed exactly if no row is empty, no unquoted field has a carriage return, and the very last field is not empty. |
| `Dsvs.LastLost` | zipkin-web/src/main/resources/app/libs/d3/d3.js:1971-2013 | What becomes of the rows otherwise: an empty last field is lost, with its row if that has no other. |
| `Dsvs.OrdinaryNeeded` | zipkin-web/src/main/resources/app/libs/d3/d3.js:1940-1940 | All rows without carriage returns and without empty last field are read back exactly if the delimiter is none of quote, CR, LF, closing bracket, backslash and hyphen. |
| `Dsvs.Unread` | zipkin-web/src/main/resources/app/libs/d3/d3.js:1940-1940 | Rows that are not read back, for each of these delimiters. |
| `Dsvs.UnescapeEscape` | zipkin-web/src/main/resources/app/libs/d3/d3.js:1991-2037 | Doubling quotes and halving them again. |
| `Dsvs.FirstField` | zipkin-web/src/main/resources/app/libs/d3/d3.js:1971-2002 | Reading a printed field gives the field and stops right behind it. |
| `Loaders.RunSafe` | zipkin-web/src/main/resources/app/libs/requirejs/require.js:730-922 | In every run, whatever the order of arrivals: a factory runs at most once, depCount is the number of counted and unmatched dependencies, and factories run after those of all dependencies but forced ones. |
| `Loaders.StepKeeps` | zipkin-web/src/main/resources/app/libs/requirejs/require.js:498-515 | Every step (a turn of enable, its end, a check, a callback, an arrival, a require call, a forced dependency) keeps the invariants. |
| `Loaders.EnableNextKeeps` | zipkin-web/src/main/resources/app/libs/requirejs/require.js:1079-1131 | Counting a dependency and leaving a callback with it, or matching it at once, keeps them, also if a module depends on itself. |
| `Loaders.NotifyKeeps` | zipkin-web/src/main/resources/app/libs/requirejs/require.js:1107-1110 | Calling a callback keeps them: the dependency it belongs to is matched. |
| `Loaders.ArriveKeeps` | zipkin-web/src/main/resources/app/libs/requirejs/require.js:1167-1172 | An arrival keeps them, whether it comes before the module is enabled, after it, or a second time. |
| `Loaders.DefineLogs` | zipkin-web/src/main/resources/app/libs/requirejs/require.js:828-905 | A factory runs only when all dependencies that were not forced have run. |
| `Loaders.UnmatchedSize` | zipkin-web/src/main/resources/app/libs/requirejs/require.js:780-788 | depCount is the number of counted dependencies without a match. |
| `LoaderCycles.OwnLess` | zipkin-web/src/main/resources/app/libs/requirejs/require.js:780-922 | Every step of the loader itself decreases a potential. |
| `LoaderCycles.Settle` | zipkin-web/src/main/resources/app/libs/requirejs/require.js:780-922 | So the loader comes to rest, with the invariants kept. |
| `LoaderCycles.BreakCycle` | zipkin-web/src/main/resources/app/libs/requirejs/require.js:598-624 | Terminates; every module it has processed is defined; it forces only dependencies that lie on a cycle and visits what it has forced. |
| `LoaderCycles.CheckLoaded` | zipkin-web/src/main/resources/app/libs/requirejs/require.js:626-692 | Unless a script is still loading, afterwards everything that a require call needs is defined, cycles or not; only dependencies on cycles have been forced, and they are defined; if a script is loading, nothing changes. |
| `LoaderCycles.ChainDefined` | zipkin-web/src/main/resources/app/libs/requirejs/require.js:598-624 | When forced dependencies are defined in the end, so is everything a defined module needs. |
| `LoaderCycles.StuckOnCycle` | zipkin-web/src/main/resources/app/libs/requirejs/require.js:828-922 | At rest, modules that are not defined lead into a cycle. |
| `LoaderCycles.AcyclicDefined` | zipkin-web/src/main/resources/app/libs/requirejs/require.js:828-922 | At rest and without cycles, every enabled module is defined as soon as all have arrived. |
| `LoaderRuns.RunWanted` | zipkin-web/src/main/resources/app/libs/requirejs/require.js:1079-1144 | In every run only modules are enabled that some require call needs. |
| `LoaderRuns.AcyclicLoads` | zipkin-web/src/main/resources/app/libs/requirejs/require.js:730-922 | Without cycles: when everything that require calls need has arrived, in any order, and the loader is at rest, all of it is defined, each factory has run once, and after those of its dependencies. |
| `LoaderRuns.RunSound` | zipkin-web/src/main/resources/app/libs/requirejs/require.js:626-922 | In every run of arrivals, require calls, own steps and checks for cycles, what has been forced lay on a cycle and is defined by now, so the check may be made whenever the loader is at rest; and only needed modules are enabled. |
| `LoaderRuns.CyclicLoads` | zipkin-web/src/main/resources/app/libs/requirejs/require.js:626-922 | With cycles: when everything that require calls need has arrived and the loader is at rest, the check for cycles leads to a state in which all of it is defined; each factory has run once, and after those of all dependencies that do not lie on a cycle. |
| `Calendars.YearsAgree` | zipkin-web/src/main/resources/app/libs/bootstrap-datepicker/js/bootstrap-datepicker.js:1448-1453 | Month lengths and leap years add up to the day numbers of section 15.9.1.3 of ECMA-262 edition 5.1, for all years. |
| `Calendars.MonthsAgree` | zipkin-web/src/main/resources/app/libs/bootstrap-datepicker/js/bootstrap-datepicker.js:1448-1453 | Within a year the months begin on the days that section 15.9.1.4 of ECMA-262 edition 5.1 gives. |
| `Calendars.RealOnce` | zipkin-web/src/main/resources/app/libs/bootstrap-datepicker/js/bootstrap-datepicker.js:1451-1453 | A day number belongs to one date only, so overflow as in section 15.9.1.12 is determined. |
| `Calendars.MoveMonth` | zipkin-web/src/main/resources/app/libs/bootstrap-datepicker/js/bootstrap-datepicker.js:1055-1103 | For every date and every integer n: the month n later, and the same day or the last one of a shorter month; the original date is not written. |
| `Calendars.Repair` | zipkin-web/src/main/resources/app/libs/bootstrap-datepicker/js/bootstrap-datepicker.js:1096-1101 | The correction loop ends with the last day of the intended month, or the day itself if the month has it. |
| `Calendars.MoveYear` | zipkin-web/src/main/resources/app/libs/bootstrap-datepicker/js/bootstrap-datepicker.js:1105-1107 | The same by 12 months for each year. |
| `Calendars.MovedYears` | zipkin-web/src/main/resources/app/libs/bootstrap-datepicker/js/bootstrap-datepicker.js:1105-1107 | Moving by years keeps month and day, but for February 29 in a common year. |
| `DateTexts.FormatDate` | zipkin-web/src/main/resources/app/libs/bootstrap-datepicker/js/bootstrap-datepicker.js:1573-1598 | Prints the separators and the texts of the parts in turn. |
| `DateTexts.PartPrinted` | zipkin-web/src/main/resources/app/libs/bootstrap-datepicker/js/bootstrap-datepicker.js:1581-1589 | The text of a part is the one text of digits with its value that takes up two characters for mm and dd, and for yyyy, m and d does not begin with a zero, unless it is the zero alone. |
| `DateTexts.PartSet` | zipkin-web/src/main/resources/app/libs/bootstrap-datepicker/js/bootstrap-datepicker.js:1505-1522 | Setting a part: a day that the month does not have leads on into the next month, day 0 back to the end of the month before; February 29 becomes March 1 in a common year; a month that is too short takes its last day. |
| `DateTexts.MatchRuns` | zipkin-web/src/main/resources/app/libs/bootstrap-datepicker/js/bootstrap-datepicker.js:1498-1498 | The runs of characters that are not punctuation. |
| `DateTexts.RunCharacters` | zipkin-web/src/main/resources/app/libs/bootstrap-datepicker/js/bootstrap-datepicker.js:1455-1455 | Which characters are not punctuation: letters, digits, and the few others that the pattern for punctuation does not name. |
| `DateTexts.ParseDate` | zipkin-web/src/main/resources/app/libs/bootstrap-datepicker/js/bootstrap-datepicker.js:1498-1571 | Sets year, month and day, in this order, on today's date. |
| `DateTexts.SetMonth` | zipkin-web/src/main/resources/app/libs/bootstrap-datepicker/js/bootstrap-datepicker.js:1509-1519 | The loop that goes back from an overflow ends in the month that was set. |
| `DateTexts.DateBack` | zipkin-web/src/main/resources/app/libs/bootstrap-datepicker/js/bootstrap-datepicker.js:1456-1598 | Reading a printed date gives the date back, for every date from year 0 on, every punctuated format of one year, one month and one day part, and whatever today's date is. |
| `DateTexts.NumberBack` | zipkin-web/src/main/resources/app/libs/bootstrap-datepicker/js/bootstrap-datepicker.js:1544-1545 | Reading a printed number gives the number back. |
| `DateTexts.NumberRead` | zipkin-web/src/main/resources/app/libs/bootstrap-datepicker/js/bootstrap-datepicker.js:1544-1545 | Reading a number stops at the first character that is no digit, and fails exactly if there is none at the start. |
| `Traces.TraceView.FilterAdded` | zipkin-web/src/main/resources/app/js/component_ui/trace.js:72-96 | The filter counts once more, and the counters of all spans are again the sums over the active filters; a span hidden at the start is shown exactly if one of its counters is positive. |
| `Traces.TraceView.FilterRemoved` | zipkin-web/src/main/resources/app/js/component_ui/trace.js:98-132 | The same for a filter that counts once less. |
| `Traces.TraceView.AllRemoved` | zipkin-web/src/main/resources/app/js/component_ui/trace.js:72-132 | When all filters have been removed, in any order, all counters are back at zero and what was hidden is hidden. |
| `Traces.ExpandSpans` | zipkin-web/src/main/resources/app/js/component_ui/trace.js:81-96 | Selecting spans moves inFilters by one and openParents and openChildren by the number of times each span is listed under spans newly selected. |
| `Traces.CollapseSpans` | zipkin-web/src/main/resources/app/js/component_ui/trace.js:107-132 | The reverse, for spans selected before. |
| `Traces.SetupSpans` | zipkin-web/src/main/resources/app/js/component_ui/trace.js:41-44 | The ancestor lists that the loop over the spans builds up. |
| `Traces.ListsRight` | zipkin-web/src/main/resources/app/js/component_ui/trace.js:41-44 | The lists are the ancestors of all spans exactly if every parent that has a parent itself is set up before its children. |
| `Traces.NewTrace` | zipkin-web/src/main/resources/app/js/component_ui/trace.js:22-50 | A trace set up span by span: its view is in order, with no filter active and the lists of that setup. |
| `Traces.TraceView.OpenBelow` | zipkin-web/src/main/resources/app/js/component_ui/trace.js:41-96 | If parents come first, openChildren of a span is the sum of inFilters over the spans that have it among their ancestors. |
| `Traces.TraceView.ShownExactly` | zipkin-web/src/main/resources/app/js/component_ui/trace.js:81-137 | If parents come first, a span hidden at the start is shown exactly if an active filter selects it, a span that lists it among its children, or a span that has it among its ancestors. |

## Left out

General:

- JavaScript objects: prototype keys, coercion of keys to strings and iteration while an object is changed. Ids are abstract and iteration
  order is arbitrary. Nested index objects are maps with pairs as keys.
- Floating-point rounding: coordinates, weights and distances are real numbers.
- The DOM, drawing, transitions, the Scala services and the storage drivers.

Graph library and layout:

- The undirected `Graph` class and `filterNodes`, compound graphs, clusters and rank constraints: graphs are flat and without preferred ranks,
  so the constraint graph of the ordering phase is empty and `resolveViolatedConstraints` has nothing to do.
- The network simplex (off by default); of it only the subtree labels are modelled. Edge points and the size of the whole drawing.
- PriorityQueues.PriorityQueue.RemoveMin: on an empty queue the code throws from inside the swap; callers check the size first.
- TightTrees.FeasibleTree: needs a tight edge, which `initRank` supplies; without one the code has no edge to start from.
- Layouts.Run: inputs whose node ids clash with the names of the dummies, for which the code throws. Coordinates are kept in the picture and
  not on the nodes, and sizes are parameters.
- The `incidentFunc` parameter of the shortest path functions.

Red-black tree, delimiter-separated values:

- The Voronoi data that tree nodes carry.
- Headers, row objects and the row callback of `dsv.parse` and `dsv.format`; delimiters of more than one character. A `char` stands for a
  UTF-16 code unit.

Module loader:

- Plugins, shims, path fallbacks, errors and timeouts, `undef`, and the special dependencies `require`, `exports` and `module`. Script tags:
  that a script arrives is a step of the environment, and names that a script cannot have (those of require calls) do not arrive.
- LoaderCycles.CheckLoaded: is stated for a loader at rest, as it is whenever control returns from it.
- The values that factories return: only when they run is modelled.

Dates:

- Time of day and the limits of time values; two-digit years, month names, relative dates and parsing of format strings. Leading spaces and
  signs in `parseInt`, which printed dates do not contain.
- DateTexts.DateBack: dates before year 0, whose printed form has a hyphen that the parser takes for a separator.

Trace view:

- `toggleExpander`, `expandAllSpans`, `collapseAllSpans`, zooming and the `expanded` flag, which bypass the counters.
