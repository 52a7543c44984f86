# Shortest odd paths and network diversion, modelled in Dafny

A Dafny model of the core of ShortestOddPath. This is a Rust library of
graph algorithms on undirected and planar graphs: shortest odd walks,
breadth-first and Dijkstra distances, edge subdivision, the set-up and
relaxation steps of Derigs' shortest-odd-path algorithm, and network
diversion on planar graphs with their duals. The repository also holds
the Python scripts that normalise and overlay the graph files those
algorithms read.

Every core source file has one module.

- Values are datatypes, with functions and lemmas over them:
  - the cost type `Costs`;
  - the edge types `Edges`, `PlanarEdges`, `PrePlanarEdges`,
    `AbstractPlanarEdges`, `LegacyPlanarEdges`, `PlanarLines` and
    `PrePlanarLines`;
  - the blossom ordering `Todos`;
  - the integration-test parsers and checks, `Problems` and
    `OddPathTests`.
- Structures the source updates in place are classes, with methods
  proved against specification functions:
  - the union-find `Bases`;
  - the graphs `SimpleGraphs`, `Graphs`, `RootedTrees`,
    `PrePlanarGraphs`, `PlanarGraphs`, `LegacyPlanarGraphs` and
    `MergingPlanarGraphs`;
  - the state of Derigs' algorithm, `OddPaths.DerigsAlgorithm`.
- Loops become methods whose postconditions tie their result to a
  specification:
  - the searches `OddWalks`, `ShortestPaths` and `NetworkDiversions`;
  - `split_edges` (`SplitEdges`);
  - face tracing (`Faces`);
  - the answer reader (`Testing`);
  - the Python scripts `FixGraph`, `ReformatGraphs`, `Visualizer` and
    `VisualizeDiversion`.
- Shared helpers:
  - `Wrappers` for Option and Result;
  - `Text` for splitting, trimming and number parsing as Rust and Python
    do it, with ASCII whitespace;
  - `AdjLists` and `Rows` for adjacency lists and row parsing;
  - `Walks` for walks and reachability;
  - `Nx`, the part of a networkx `Graph` the scripts use.

Modelling conventions:

- Weights are natural numbers. Rust's `usize`/`u64` parse bound is
  modelled: `Text.ParseU64` rejects numbers above 2^64 - 1.
- A Rust panic inside a parser or a search becomes an `Err` or `None`
  result. An index panic inside a graph mutator, and an out-of-range start
  or end vertex of a search, becomes a precondition.
- Python file contents are the sequences of lines `readlines()` gives.
  Written files are the sequences of strings written.
- Floating-point coordinates are opaque reals. A parser that needs to read
  one takes the reading function as a parameter. The one exception is
  `VisualizeDiversion`, which reads Python numbers as exact decimals.

## Model

| member | source | states |
|---|---|---|
| Costs.IsInfinite | src/structure/cost.rs:14-19 | true exactly for Infinite |
| Costs.IsFinite | src/structure/cost.rs:21-23 | true exactly for a finite cost, the negation of `is_infinite` |
| Costs.Expect | src/structure/cost.rs:29-34 | callable only on a finite cost (Infinite panics) and returns the number inside it |
| Costs.Unwrap | src/structure/cost.rs:25-27 | callable only on a finite cost and returns the number inside it |
| Costs.Cmp | src/structure/cost.rs:36-50 | Equal exactly for equal costs; Infinite is above every finite cost; finite costs compare by value |
| Costs.CmpAntisymmetric | src/structure/cost.rs:37-44 | swapping the operands reverses the ordering |
| Costs.CmpTransitive | src/structure/cost.rs:37-44 | the ordering is transitive, so with antisymmetry it is a total order |
| Costs.CmpBounds | src/structure/cost.rs:37-44 | Finite(0) is the least cost and Infinite the greatest |
| Costs.Add | src/structure/cost.rs:52-61 | the sum is finite exactly when both operands are, and is then the sum of the numbers |
| Costs.AddMonoid | src/structure/cost.rs:55-60 | addition is commutative and associative with Finite(0) as identity |
| Costs.AddMonotone | src/structure/cost.rs:55-60 | adding a cost never makes a cost smaller |
| Costs.Sub | src/structure/cost.rs:62-71 | the difference is finite exactly when both operands are, and then adding back the subtrahend gives the minuend; a negative u64 difference is excluded |
| Costs.SubAdd | src/structure/cost.rs:55-71 | subtracting a finite cost undoes adding it |
| Costs.FromOption | src/structure/cost.rs:73-80 | None becomes Infinite and Some(x) becomes Finite(x) |
| Costs.OptionRoundTrip | src/structure/cost.rs:73-80 | converting to an Option and back, or back and forth, is the identity |
| Costs.FromResult | src/structure/cost.rs:82-89 | Err becomes Infinite and Ok(x) becomes Finite(x) |
| Costs.ResultAgreesWithOption | src/structure/cost.rs:73-89 | the Result conversion agrees with the Option conversion once the error is forgotten |
| Costs.FromStr | src/structure/cost.rs:91-97 | never fails: a string that parses as u64 is that finite cost, anything else is Infinite |
| Costs.Debug | src/structure/cost.rs:99-108 | a finite cost prints as its decimal digits, Infinite as "∞" |
| Costs.FromStrDebug | src/structure/cost.rs:91-108 | parsing what `Debug` printed gives the cost back, for every cost that fits in u64 |
| PlanarLines.Reverse | src/structure/planar/line.rs:13-21 | from/to swap, left/right swap, the weight stays |
| PlanarLines.ReverseInvolution | src/structure/planar/line.rs:13-21 | reversing twice gives the line back |
| PrePlanarLines.Reverse | src/structure/planar/pre_planar_line.rs:15-23 | endpoints and faces swap, the weight stays |
| PrePlanarLines.ReverseInvolution | src/structure/planar/pre_planar_line.rs:15-23 | reversing twice gives the line back |
| PrePlanarLines.Planarize | src/structure/planar/pre_planar_line.rs:24-32 | both faces unwrapped, everything else copied; requires both faces set (`unwrap` panics otherwise) |
| PrePlanarLines.PlanarizeReverse | src/structure/planar/pre_planar_line.rs:15-32 | planarizing commutes with reversal |
| PrePlanarLines.FromStr | src/structure/planar/pre_planar_line.rs:35-47 | `from to [weight]` on single spaces with both faces None; a missing and an unparsable id are separate errors per endpoint; a missing weight is 1, an unparsable one an error |
| PrePlanarLines.FromStrFormat | src/structure/planar/pre_planar_line.rs:35-47 | parsing a formatted line gives it back with its faces forgotten |
| Bases.Link | src/structure/base.rs:44-48 | hanging the base of one class below a vertex of another keeps the forest valid |
| Bases.Compress | src/structure/base.rs:16-26 | pointing a vertex straight at its base keeps the forest valid |
| Bases.Base.constructor | src/structure/base.rs:10-14 | every vertex is its own base |
| Bases.Base.GetBase | src/structure/base.rs:16-26 | returns u's base; path compression points u at it and changes no class |
| Bases.Base.SameBase | src/structure/base.rs:32-34 | true exactly when u and v lie in the same class; classes unchanged |
| Bases.Base.SetBase | src/structure/base.rs:28-30 | the parent of u's base becomes x, so u's class joins x's class and every other class is unchanged |
| Bases.TestBase | src/structure/base.rs:62-84 | after the test's assignments base[5] is 8, base[1] is 0, 7 and 9 share a base and 1 and 4 do not |
| Todos.PartialCmp | src/structure/todo.rs:12-21 | two vertices or two blossoms compare weights; a vertex against a blossom compares 2·w1 with w2, and a blossom against a vertex w1 with 2·w2 |
| Todos.Cmp | src/structure/todo.rs:35-39 | `partial_cmp`, or Equal where it is undefined; Less exactly when the key is smaller |
| Todos.CmpSameKind | src/structure/todo.rs:15-18 | entries of the same kind compare by weight alone |
| Todos.CmpTotalPreorder | src/structure/todo.rs:12-39 | the ordering is antisymmetric and transitive, a total preorder for the priority queue |
| Todos.Eq | src/structure/todo.rs:25-33 | vertices are equal when weight and vertex agree, blossoms when weights agree and endpoints agree as an unordered pair; a vertex never equals a blossom |
| Todos.EqEquivalence | src/structure/todo.rs:25-33 | equality is reflexive, symmetric and transitive |
| Todos.CmpEqualNotEq | src/structure/todo.rs:25-39 | entries that compare Equal need not be equal: `cmp` and `eq` disagree |
| AdjLists.Push | src/structure/undirected_graph.rs:35 | the pushed list gains x at its end and no other list changes |
| AdjLists.AddUndirected | src/structure/undirected_graph.rs:34-37 | v is appended to u's list, then u to v's, nothing else changes |
| AdjLists.AddAllMembership | src/structure/undirected_graph.rs:54-58 | after adding a list of edges, b is a neighbour of a exactly when it was before or a–b is an edge in either orientation |
| AdjLists.TotalLenPush | src/structure/undirected_graph.rs:35 | a push adds exactly one entry in total |
| AdjLists.EmptyLists | src/structure/undirected_graph.rs:13 | n lists, all empty |
| AdjLists.AnyToEdgesTo | src/structure/graph/undirected_graph.rs:50-56 | some entry has head v exactly when the filter for v is non-empty |
| Rows.DropPercent | src/structure/undirected_graph.rs:51 | keeps exactly the lines whose left-trimmed text does not start with `%` |
| Rows.DropPercentAppend | src/structure/undirected_graph.rs:51 | the filter works line by line: filtering a concatenation concatenates the results, so the kept lines keep their order and multiplicity |
| Rows.DropPercentOne | src/structure/undirected_graph.rs:51 | a single line is kept unchanged exactly when its left-trimmed text does not start with `%`, and dropped otherwise |
| Rows.TrimDropEmptyPercent | src/structure/graph/undirected_graph.rs:75 | the kept lines are trimmed, non-empty and do not start with `%` |
| Rows.TrimDropEmptyPercentKeeps | src/structure/graph/undirected_graph.rs:75 | every line whose trimmed text is non-empty and does not start with `%` is kept, trimmed |
| Rows.TrimDropEmptyPercentAppend | src/structure/graph/undirected_graph.rs:75 | the filter works line by line: filtering a concatenation concatenates the results, so the kept lines stay in order |
| Rows.TrimDropEmptyPercentOne | src/structure/graph/undirected_graph.rs:75 | a single line is kept, trimmed, exactly when its trimmed text is non-empty and does not start with `%`, and dropped otherwise |
| Rows.ParseRows | src/structure/graph/undirected_graph.rs:75-80 | succeeds exactly when every row parses, with the rows' values in order |
| Rows.ParseRowsFirstError | src/structure/graph/undirected_graph.rs:75-80 | when a row fails, the error is that of the first failing row |
| SimpleGraphs.EdgeTokens | src/structure/undirected_graph.rs:39-42 | the first two pieces on single spaces parsed as usize; None when either is missing or does not parse |
| SimpleGraphs.EdgeRow | src/structure/undirected_graph.rs:54-57 | an edge line succeeds exactly when both endpoints parse and lie inside the graph, with the parse error or the index panic as error otherwise |
| SimpleGraphs.ParseGraph | src/structure/undirected_graph.rs:48-61 | no kept line is the "No n" error; otherwise n from the first word of the first kept line and one edge per later kept line, every panic an error |
| SimpleGraphs.UndirectedGraph.constructor | src/structure/undirected_graph.rs:11-16 | n vertices, no edges |
| SimpleGraphs.UndirectedGraph.Vertices | src/structure/undirected_graph.rs:24-26 | every vertex id below n, ascending, each once |
| SimpleGraphs.UndirectedGraph.Neighbourhood | src/structure/undirected_graph.rs:27-29 | u's list exactly as stored, so `set_neighbourhood(u, l)` makes it read back as l |
| SimpleGraphs.UndirectedGraph.SetNeighbourhood | src/structure/undirected_graph.rs:30-32 | list u replaced, the others untouched |
| SimpleGraphs.UndirectedGraph.AddEdge | src/structure/undirected_graph.rs:34-37 | v appended to u's list, then u to v's list |
| SimpleGraphs.UndirectedGraph.AddEdgeFromStr | src/structure/undirected_graph.rs:39-45 | the line's edge added when both endpoints parse, otherwise None and no change |
| SimpleGraphs.FromString | src/structure/undirected_graph.rs:48-61 | the graph `ParseGraph` describes, or its error |
| SimpleGraphs.AddEdgeRows | src/structure/undirected_graph.rs:54-58 | the loop adds each row's edge in order and stops at the first failing row; on success the lists are exactly those edges added |
| SimpleGraphs.ParsedNeighbours | src/structure/undirected_graph.rs:48-61 | in a parsed graph v is a neighbour of u exactly when an edge line joins them in either order |
| AdjLists.EdgesTo | src/structure/graph/undirected_graph.rs:54-56 | the entries whose head is v, in their original order: an entry is kept exactly when its head is v |
| AdjLists.EdgesToAppend | src/structure/graph/undirected_graph.rs:54-56 | filtering a concatenation filters each part and keeps them in order |
| AdjLists.AnyTo | src/structure/graph/undirected_graph.rs:50-52 | true exactly when some entry has head v |
| Format.FormatCost | src/utility/format.rs:10-15 | a finite cost prints as its number and Infinite as "∞", one non-empty line piece |
| Format.FormatCosts | src/utility/format.rs:3-8 | one line per vertex in index order, each `dist(u) = cost`; read back with `lines()` the output is exactly those lines, and it is empty exactly when there are no vertices |
| Format.LinesOfTerminated | src/utility/format.rs:3-8 | `lines()` recovers every line of a concatenation of line-feed-terminated lines |
| Edges.Reverse | src/structure/graph/edge.rs:32-38 | the same edge walked the other way, with the same weight |
| Edges.ReverseInvolution | src/structure/graph/edge.rs:32-38 | reversing twice gives the edge back |
| Edges.Subdivide | src/structure/graph/edge.rs:40-53 | two halves from→middle and middle→to, both of weight 0 |
| Edges.ParseField | src/structure/graph/edge.rs:63-71 | a missing piece is the "found nothing" error, a piece that is not a u64 the "could not parse" error, and otherwise the parsed number |
| Edges.WeightOrOne | src/structure/graph/edge.rs:72 | the weight when the piece is present and parses, otherwise 1 |
| Edges.StrictWeight | src/structure/graph/planar/pre_planar_edge.rs:108 | a missing weight is 1; a present weight must parse and is then that number, otherwise an error |
| Edges.FromStr | src/structure/graph/edge.rs:60-79 | the line split on single spaces: the first two pieces must be unsigned integers; an unparsable piece gives "Could not parse", a missing second piece "found nothing"; the third is the weight, 1 when absent or unparsable |
| Edges.FromStrFormat | src/structure/graph/edge.rs:60-79 | parsing a formatted edge gives the edge back (round trip) |
| Edges.FromStrDefaultWeight | src/structure/graph/edge.rs:72 | a `u v` line without weight gives weight 1 |
| Edges.AsI64 | src/structure/graph/planar_edge.rs:105-106 | `x as i64` is the value congruent to x modulo 2^64 in the i64 range |
| Edges.AsUsize | src/structure/graph/planar_edge.rs:105-106 | `i as usize` is i modulo 2^64 |
| Edges.ShiftIndex | src/structure/graph/planar_edge.rs:103-110 | the shifted index is the sum modulo 2^64, and exactly the sum when that is a valid index |
| PlanarEdges.RotateRight | src/structure/graph/planar/planar_edge.rs:20-28 | the dual edge crossing e: from e's left face to its right face, with e's head on its left and tail on its right, same weight |
| PlanarEdges.Reverse | src/structure/graph/planar/planar_edge.rs:56-65 | endpoints swap and so do the faces; the weight stays |
| PlanarEdges.ReverseInvolution | src/structure/graph/planar/planar_edge.rs:56-65 | reversing twice gives the edge back |
| PlanarEdges.RotateTwiceIsReverse | src/structure/graph/planar/planar_edge.rs:20-28 | two rotations reverse an edge and four give it back |
| PlanarEdges.RotateReverse | src/structure/graph/planar/planar_edge.rs:20-65 | rotation commutes with reversal |
| PlanarEdges.Subdivide | src/structure/graph/planar/planar_edge.rs:66-83 | both halves keep the faces and meet at the middle; the first keeps the weight, the second has weight 0 |
| PlanarEdges.SubdivideIsPath | src/structure/graph/planar/planar_edge.rs:66-83 | the halves form a path from e.from to e.to whose weights sum to e's weight |
| PlanarEdges.ShiftBy | src/structure/graph/planar/planar_edge.rs:84-92 | both endpoints move by the offset (modulo 2^64); weight and faces are unchanged |
| PlanarEdges.Cmp | src/structure/graph/planar/planar_edge.rs:41-51 | Equal exactly for equal edges; otherwise the first of from, to, left, right, weight on which they differ decides Less or Greater |
| PlanarEdges.CmpTotalOrder | src/structure/graph/planar/planar_edge.rs:41-51 | the comparison is antisymmetric and transitive |
| PlanarEdges.FromStr | src/structure/graph/planar/planar_edge.rs:97-127 | four unsigned fields from, to, left, right on single spaces; the first missing field gives "…but found nothing!" and the first unparsable one "Could not parse as an unsigned integer!"; the fifth is the weight, 1 when absent or unparsable |
| PlanarEdges.FromStrFormat | src/structure/graph/planar/planar_edge.rs:97-127 | parsing a formatted edge gives the edge back (round trip) |
| PrePlanarEdges.Planarize | src/structure/graph/planar/pre_planar_edge.rs:19-27 | the same edge with both faces unwrapped; requires both faces set (an unset face panics) |
| PrePlanarEdges.Reverse | src/structure/graph/planar/pre_planar_edge.rs:45-54 | endpoints and faces swap, the weight stays |
| PrePlanarEdges.ReverseInvolution | src/structure/graph/planar/pre_planar_edge.rs:45-54 | reversing twice gives the edge back |
| PrePlanarEdges.PlanarizeReverse | src/structure/graph/planar/pre_planar_edge.rs:19-54 | planarizing commutes with reversal |
| PrePlanarEdges.Subdivide | src/structure/graph/planar/pre_planar_edge.rs:55-72 | faces kept in both halves; the first keeps the weight, the second has weight 0 |
| PrePlanarEdges.SubdividePlanarize | src/structure/graph/planar/pre_planar_edge.rs:19-72 | subdividing then planarizing equals planarizing then subdividing |
| PrePlanarEdges.ShiftBy | src/structure/graph/planar/pre_planar_edge.rs:73-81 | only the endpoints move, modulo 2^64 |
| PrePlanarEdges.FaceKey | src/structure/graph/planar/pre_planar_edge.rs:36-40 | None sorts before every Some, and Somes by their value |
| PrePlanarEdges.Cmp | src/structure/graph/planar/pre_planar_edge.rs:30-40 | Equal exactly for equal edges; otherwise the first of from, to, left, right, weight on which they differ decides, a None face below every Some |
| PrePlanarEdges.CmpTotalOrder | src/structure/graph/planar/pre_planar_edge.rs:30-40 | the comparison is antisymmetric and transitive |
| PrePlanarEdges.FromStr | src/structure/graph/planar/pre_planar_edge.rs:101-113 | `from to [weight]` on single spaces with both faces None; an unparsable first id, a missing second id, an unparsable second id and an unparsable weight each give their own message; a missing weight is 1 |
| PrePlanarEdges.FromStrFormat | src/structure/graph/planar/pre_planar_edge.rs:101-113 | parsing a formatted edge gives it back with its faces forgotten |
| AbstractPlanarEdges.RotateRight | src/structure/graph/planar_edge.rs:27-35 | from the left face to the right face, crossing the edge, same weight |
| AbstractPlanarEdges.Planarize | src/structure/graph/planar_edge.rs:39-47 | both faces unwrapped; requires both faces set |
| AbstractPlanarEdges.Reverse | src/structure/graph/planar_edge.rs:75-84 | endpoints and faces swap, the weight stays |
| AbstractPlanarEdges.ReverseInvolution | src/structure/graph/planar_edge.rs:75-84 | reversing twice gives the edge back |
| AbstractPlanarEdges.RotateTwiceIsReverse | src/structure/graph/planar_edge.rs:27-84 | two rotations reverse an edge and four give it back |
| AbstractPlanarEdges.PlanarizeReverse | src/structure/graph/planar_edge.rs:39-84 | planarizing commutes with reversal |
| AbstractPlanarEdges.Subdivide | src/structure/graph/planar_edge.rs:85-102 | faces kept; the first half keeps the weight, the second gets 0 |
| AbstractPlanarEdges.SubdivideIsPath | src/structure/graph/planar_edge.rs:85-102 | the halves join at the middle and keep the total weight |
| AbstractPlanarEdges.ShiftBy | src/structure/graph/planar_edge.rs:103-111 | only the endpoints move, modulo 2^64 |
| AbstractPlanarEdges.OptionFaceKey | src/structure/graph/planar_edge.rs:66-70 | the order of `Option<usize>` faces: None first, then by value |
| AbstractPlanarEdges.FaceKeysInjective | src/structure/graph/planar_edge.rs:66-70 | both face orders are injective, so comparing keys compares faces |
| AbstractPlanarEdges.Cmp | src/structure/graph/planar_edge.rs:60-70 | Equal exactly for equal edges; otherwise the first of from, to, left, right, weight on which they differ decides, faces in S's order |
| AbstractPlanarEdges.CmpTotalOrder | src/structure/graph/planar_edge.rs:60-70 | a total order for both face types |
| AbstractPlanarEdges.FromStr | src/structure/graph/planar_edge.rs:116-134 | `from to [weight]` on single spaces; faces are S's default; an unparsable base gives "Could not parse the base…", a missing tip "…found nothing!", an unparsable tip "Could not parse the tip…"; the weight is 1 when absent or unparsable |
| AbstractPlanarEdges.FromStrFormat | src/structure/graph/planar_edge.rs:54-134 | parsing a formatted edge gives it back with default faces |
| LegacyPlanarEdges.Reverse | src/structure/planar/planar_edge.rs:26-34 | endpoints and faces swap, the weight stays |
| LegacyPlanarEdges.ReverseInvolution | src/structure/planar/planar_edge.rs:26-34 | reversing twice gives the edge back |
| LegacyPlanarEdges.AccessorsOfReverse | src/structure/planar/planar_edge.rs:19-40 | `left`, `right` and `weight` of the reverse are the right, left and weight of the edge |
| LegacyPlanarEdges.FromStr | src/structure/planar/planar_edge.rs:42-72 | from, to, left, right must be the first four unsigned pieces on single spaces; the first missing piece gives "…but found nothing!" and the first unparsable one "Could not parse as an unsigned integer!"; the fifth is the weight, 1 when absent or unparsable |
| LegacyPlanarEdges.FromStrFormat | src/structure/planar/planar_edge.rs:42-72 | parsing a formatted edge gives the edge back |
| LegacyPlanarEdges.FromStrDefaultWeight | src/structure/planar/planar_edge.rs:42-72 | a line with four fields gets weight 1 |
| Graphs.AddEdgeAdj | src/structure/graph/undirected_graph.rs:44-49 | e is pushed at its tail and its reversal at the reversal's tail; the number of lists is unchanged |
| Graphs.AddAllEdgesCount | src/structure/graph/undirected_graph.rs:79-82 | adding edges stores two entries per edge, and with a lawful edge type every entry sits in the list of its own tail |
| Graphs.AddAllEdgesMembership | src/structure/graph/undirected_graph.rs:79-82 | after adding edges, x is in u's list exactly when it was before, or it is an added edge starting at u, or the reversal of one ending at u |
| Graphs.UndirectedGraph.constructor | src/structure/graph/undirected_graph.rs:20-27 | n empty lists and m = 0 |
| Graphs.UndirectedGraph.AddDirectedEdge | src/structure/graph/undirected_graph.rs:28-31 | e pushed onto its tail's list only; m grows by one |
| Graphs.UndirectedGraph.AddEdge | src/structure/graph/undirected_graph.rs:44-49 | e pushed onto its tail's list and its reversal onto the reversal's tail's list; m grows by exactly one |
| Graphs.UndirectedGraph.Neighbourhood | src/structure/graph/undirected_graph.rs:40-42 | u's stored list (`N(u)` and `self[u]` agree), and every edge in it leaves u |
| Graphs.UndirectedGraph.IsAdjacent | src/structure/graph/undirected_graph.rs:50-52 | true exactly when some edge leaving u arrives at v |
| Graphs.UndirectedGraph.FindEdges | src/structure/graph/undirected_graph.rs:54-56 | exactly the edges from u to v, in the order of u's list |
| Graphs.IsAdjacentFindEdges | src/structure/graph/undirected_graph.rs:50-56 | `is_adjacent(u, v)` holds exactly when `find_edges(u, v)` is non-empty |
| Graphs.RowEdge | src/structure/graph/undirected_graph.rs:79-81 | an unparsable row gives "Could not parse the row: " and the row; an edge outside the graph is the index panic; otherwise the parsed edge |
| Graphs.ParseGraph | src/structure/graph/undirected_graph.rs:72-84 | n from the first word of the first kept row, then one edge per later row via the edge type's parser |
| Graphs.ParseGraphHeader | src/structure/graph/undirected_graph.rs:76-77 | no kept row gives the "found nothing" error; an unparsable first word gives "Could not parse '…' as n" |
| Graphs.FromStr | src/structure/graph/undirected_graph.rs:72-84 | the graph `ParseGraph` describes, with m equal to the number of edge rows, or exactly its error |
| Graphs.AddRows | src/structure/graph/undirected_graph.rs:79-82 | every row's edge added in order, stopping at the first bad row; on success the lists are those edges added |
| RootedTrees.AddAllDirectedMembership | src/structure/rooted_tree.rs:58-62 | after adding directed edges, v is a child of u exactly when it was before or u→v was added |
| RootedTrees.AddAllDirectedCount | src/structure/rooted_tree.rs:39-41 | adding directed edges stores one entry per edge |
| RootedTrees.RootedTree.constructor | src/structure/rooted_tree.rs:12-19 | n empty lists; the vertex set is {root}, the root not checked against n |
| RootedTrees.RootedTree.Vertices | src/structure/rooted_tree.rs:27-29 | the vertex set in ascending order, which is just the root |
| RootedTrees.RootedTree.Neighbourhood | src/structure/rooted_tree.rs:31-33 | u's list of children exactly as stored, so `set_neighbourhood(u, l)` makes it read back as l |
| RootedTrees.RootedTree.SetNeighbourhood | src/structure/rooted_tree.rs:35-37 | list u replaced, everything else kept |
| RootedTrees.RootedTree.AddEdge | src/structure/rooted_tree.rs:39-41 | e appended to u's list only; the vertex set stays |
| RootedTrees.RootedTree.AddEdgeFromStr | src/structure/rooted_tree.rs:43-47 | the first two pieces as u and e when both parse, otherwise None and no change |
| RootedTrees.TreeRow | src/structure/rooted_tree.rs:58-61 | an edge line succeeds exactly when both pieces parse and u is a vertex (v is not checked) |
| RootedTrees.ParseTree | src/structure/rooted_tree.rs:50-65 | every line counts: the first is the header `n root`, every later line an edge `u v`; an empty text is an error |
| RootedTrees.FromString | src/structure/rooted_tree.rs:50-65 | the tree `ParseTree` describes, or exactly its error |
| RootedTrees.AddTreeRows | src/structure/rooted_tree.rs:58-62 | one directed edge per line in order, stopping at the first bad line |
| RootedTrees.ParseTreeRows | src/structure/rooted_tree.rs:50-65 | once the header `n root` is read, the outcome is that of parsing the later lines as rows, error or edges |
| RootedTrees.ParsedTreeEdges | src/structure/rooted_tree.rs:58-61 | the i-th edge of a parsed tree is the `u v` pair of line i + 1 |
| RootedTrees.ParsedChildren | src/structure/rooted_tree.rs:50-65 | in a parsed tree v is a child of u exactly when (u, v) is a parsed edge, which holds exactly when some line after the header reads `u v` |
| Faces.FirstTo | src/structure/graph/planar/pre_planar_graph.rs:74-76 | the first index of an edge towards v, or None exactly when there is none |
| Faces.TraceFaces | src/structure/graph/planar/pre_planar_graph.rs:62-92 | the lists keep their shape; on success every left face is set and, starting from unlabelled lists, every face number is below the count; the only errors are a missing reverse edge or a walk that does not close |
| Faces.Walk | src/structure/graph/planar/pre_planar_graph.rs:71-88 | one face walk keeps the shape, labels the start edge's left face and never changes a left face already set |
| Faces.SetLeftFacts | src/structure/graph/planar/pre_planar_graph.rs:72 | labelling one left side keeps the shape and every set left face, and sets this one |
| Faces.SetRightFacts | src/structure/graph/planar/pre_planar_graph.rs:79 | labelling one right side keeps the shape and every set left face |
| Points.FromStr | src/structure/graph/planar/point.rs:16-26 | `id x y` on single spaces; each field in order reports whether it is missing or does not parse; later pieces are ignored |
| Points.Coordinate | src/structure/graph/planar/point.rs:22-23 | a missing coordinate and an unparsable one are different errors; otherwise the parsed value |
| AdjLists.AnyToPush | src/structure/graph/planar/pre_planar_graph.rs:137-142 | after one push, w's list reaches v exactly when it did before or the pushed edge does |
| PrePlanarGraphs.AddEdgeKeeps | src/structure/graph/planar/pre_planar_graph.rs:137-142 | `add_edge` keeps every entry at its own tail, keeps the lists symmetric and adds two entries |
| PrePlanarGraphs.SameShapeKeeps | src/structure/graph/planar/pre_planar_graph.rs:62-92 | changing only faces keeps entries in place, the lists symmetric and the entry count |
| PrePlanarGraphs.PlanarizeAll | src/structure/graph/planar/pre_planar_graph.rs:42-45 | same shape, each entry the planarized edge of the entry before |
| PrePlanarGraphs.RotateAll | src/structure/graph/planar/pre_planar_graph.rs:112-114 | the dual edges of one list: the rotation of each edge, in order |
| PrePlanarGraphs.RotationsMembership | src/structure/graph/planar/pre_planar_graph.rs:109-117 | one dual edge per directed edge, and each is the rotation of one of them |
| PrePlanarGraphs.RotationsFit | src/structure/graph/planar/pre_planar_graph.rs:109-117 | every rotation fits in a dual with f vertices when every face is below f |
| PrePlanarGraphs.DualContainsRotations | src/structure/graph/planar/pre_planar_graph.rs:109-117 | in the dual, every edge's rotation sits in the list of the edge's left face and the rotation's reversal in that of its right face |
| PrePlanarGraphs.ConstructDual | src/structure/graph/planar/pre_planar_graph.rs:109-117 | a fresh undirected graph on f vertices with the rotation of every directed edge added, list by list |
| PrePlanarGraphs.AddRotation | src/structure/graph/planar/pre_planar_graph.rs:113 | one `dual.add_edge` extends the added sequence by that edge |
| PrePlanarGraphs.AddRotations | src/structure/graph/planar/pre_planar_graph.rs:112-114 | the inner loop adds the rotation of every edge of one list in order |
| PrePlanarGraphs.FaceCountAsWritten | src/structure/graph/planar/pre_planar_graph.rs:41 | `m − n + 2` in usize: fails exactly when m < n, and is otherwise the Euler face count |
| PrePlanarGraphs.FaceCount | src/structure/graph/planar/pre_planar_graph.rs:41 | the Euler face count with the addition first: f + n = m + 2 |
| PrePlanarGraphs.FaceCountAfterEuler | src/structure/graph/planar/pre_planar_graph.rs:41-103 | once Euler's check has passed, the corrected count is the number of faces traced, while the count as written fails for every graph with m < n |
| PrePlanarGraphs.SingleEdgeUnderflow | src/structure/graph/planar/pre_planar_graph.rs:41 | the single edge 0–1 has one face and satisfies Euler's formula, yet `m − n + 2` underflows |
| PrePlanarGraphs.DefinedPoints | src/structure/graph/planar/pre_planar_graph.rs:34-37 | Some exactly when every point is defined, and then the points unwrapped in order |
| PrePlanarGraphs.PrePlanarGraph.Empty | src/structure/graph/planar/pre_planar_graph.rs:20-26 | n undefined points, n empty lists, no edges |
| PrePlanarGraphs.PrePlanarGraph.AddVertex | src/structure/graph/planar/pre_planar_graph.rs:27-31 | the point stored in the slot of its id, one more empty list appended, the number of points unchanged |
| PrePlanarGraphs.PrePlanarGraph.AddEdge | src/structure/graph/planar/pre_planar_graph.rs:137-142 | e at its tail, its reversal at its head, m grows by one |
| PrePlanarGraphs.PrePlanarGraph.IsAdjacent | src/structure/graph/planar/pre_planar_graph.rs:143-151 | scanning the shorter list gives the same answer as scanning either: some edge of u reaches v, and some edge of v reaches u |
| PrePlanarGraphs.PrePlanarGraph.FindEdges | src/structure/graph/planar/pre_planar_graph.rs:153-159 | exactly the edges of u's list that end at v, each from u to v |
| PrePlanarGraphs.IsAdjacentFindEdges | src/structure/graph/planar/pre_planar_graph.rs:143-159 | `is_adjacent(u, v)` holds exactly when `find_edges(u, v)` is non-empty |
| PrePlanarGraphs.SymmetricAnyTo | src/structure/graph/planar/pre_planar_graph.rs:143-151 | in symmetric lists u's list reaches v exactly when v's list reaches u |
| PrePlanarGraphs.PrePlanarGraph.DetermineFaces | src/structure/graph/planar/pre_planar_graph.rs:62-107 | traces faces keeping the lists' shape; on success every edge of a point has both faces and n + faces − m = 2 |
| PrePlanarGraphs.PrePlanarGraph.Planarize | src/structure/graph/planar/pre_planar_graph.rs:33-54 | an undefined point is the first error; otherwise faces traced and checked, f from the corrected count m + 2 − n (see Findings), faces unwrapped, and the dual built on f faces |
| PrePlanarGraphs.Assemble | src/structure/graph/planar/pre_planar_graph.rs:41-53 | after Euler's check, every edge's faces unwrapped and the dual built on the face count; an index error cannot occur when tracing started from unlabelled lists |
| PrePlanarGraphs.PlanarizeAllKeeps | src/structure/graph/planar/pre_planar_graph.rs:42-45 | unwrapping the traced faces keeps the original edges and, from unlabelled lists, every face is below the count |
| PrePlanarGraphs.Nones | src/utility/misc.rs:5-9 | n undefined points |
| PrePlanarGraphs.PlacePointsDefined | src/structure/graph/planar/pre_planar_graph.rs:189-194 | after placing points, slot i is defined exactly when it was before or some placed point has id i, and a defined slot holds a point with its own id |
| PrePlanarGraphs.Header | src/structure/graph/planar/pre_planar_graph.rs:178-187 | the header `n m`: each reported missing or unparsable in turn, otherwise both numbers |
| PrePlanarGraphs.VertexRow | src/structure/graph/planar/pre_planar_graph.rs:190-193 | a point line gives its parse error, or the index panic when its id is not below n, or the point |
| PrePlanarGraphs.EdgeRow | src/structure/graph/planar/pre_planar_graph.rs:196-199 | an edge line gives its parse error, or the index panic when an endpoint is 2n or more (there are 2n lists then), or the edge |
| PrePlanarGraphs.Take | src/structure/graph/planar/pre_planar_graph.rs:189-200 | the first k rows, or all of them when there are fewer |
| PrePlanarGraphs.ParseRowsPre | src/structure/graph/planar/pre_planar_graph.rs:174-202 | no kept line is "Could not find the first row"; otherwise the header, the n point rows and the m edge rows |
| PrePlanarGraphs.ParseBlock | src/structure/graph/planar/pre_planar_graph.rs:189-200 | the next k rows parsed in order; a bad row among those present comes first, then running out of rows |
| PrePlanarGraphs.ParsePrePlanarLines | src/structure/graph/planar/pre_planar_graph.rs:174-202 | a successful parse read n and m from the header, then exactly n point lines and m edge lines; later lines are never looked at |
| PrePlanarGraphs.ParseBlockRows | src/structure/graph/planar/pre_planar_graph.rs:189-200 | a block that parsed holds one value per row, each the parse of its row |
| PrePlanarGraphs.FromStr | src/structure/graph/planar/pre_planar_graph.rs:172-203 | the graph `ParsePrePlanar` describes: the points in their slots, 2n lists with the edges added in order, m edges; or exactly its error |
| PrePlanarGraphs.FromRows | src/structure/graph/planar/pre_planar_graph.rs:178-201 | the same, once the text is cut into rows |
| PrePlanarGraphs.EdgeBlock | src/structure/graph/planar/pre_planar_graph.rs:195-201 | the edge rows once the point rows are in: the result is what `ParseRowsPre` describes |
| PrePlanarGraphs.AddPointRows | src/structure/graph/planar/pre_planar_graph.rs:189-194 | one `add_vertex` per row, stopping at the first bad row |
| PrePlanarGraphs.AddEdgeRows | src/structure/graph/planar/pre_planar_graph.rs:195-200 | one `add_edge` per row, stopping at the first bad row; the points are unchanged |
| PrePlanarGraphs.ParsedPointsDefined | src/structure/graph/planar/pre_planar_graph.rs:33-37 | a parsed graph has every point defined exactly when every id below n appears on some point line |
| PrePlanarGraphs.ParsePlanar | src/structure/graph/planar/planar_graph.rs:89-94 | parse as a pre-planar graph and planarize; a parse error comes first; on success every point line is in the slot of its id, the m edges are kept and n + f = m + 2 |
| Misc.Repeat | src/utility/misc.rs:5-9 | n copies of e |
| Misc.AssertIsPath | src/utility/misc.rs:18-27 | passes exactly when no edge's head revisits the first tail or an earlier head; otherwise names the head of the first edge that does |
| PlanarGraphs.PlanarGraph.constructor | src/structure/graph/planar/planar_graph.rs:22-29 | the four parts stored as given |
| PlanarGraphs.PlanarGraph.N | src/structure/graph/planar/planar_graph.rs:63 | the number of points |
| PlanarGraphs.PlanarGraph.M | src/structure/graph/planar/planar_graph.rs:64 | half the lines, rounded down; in a graph built by `add_edge` exactly the number of undirected edges, each stored as two lines and two list entries |
| PlanarGraphs.PlanarGraph.F | src/structure/graph/planar/planar_graph.rs:30-32 | the number of faces, one dual vertex with its own list each |
| PlanarGraphs.PlanarGraph.Neighbourhood | src/structure/graph/planar/planar_graph.rs:68-70 | the lines listed for u, in list order; in a valid graph each starts at u |
| PlanarGraphs.PlanarGraph.AddEdge | src/structure/graph/planar/planar_graph.rs:72-78 | e and then its reversal appended to the lines, their positions to the lists of e's tail and head; points unchanged |
| PlanarGraphs.ShapedAddEdge | src/structure/graph/planar/planar_graph.rs:72-78 | `add_edge` keeps every listed position pointing at a line from that vertex, with lines in reversed pairs |
| PlanarGraphs.PlanarGraph.IsAdjacent | src/structure/graph/planar/planar_graph.rs:80-82 | true exactly when some line listed for u arrives at v |
| PlanarGraphs.PlanarGraph.FindEdges | src/structure/graph/planar/planar_graph.rs:84-86 | exactly the lines from u's neighbourhood that arrive at v, in order |
| PlanarGraphs.IsAdjacentFindEdges | src/structure/graph/planar/planar_graph.rs:80-86 | `is_adjacent(u, v)` holds exactly when `find_edges(u, v)` is non-empty |
| PlanarGraphs.PlanarGraph.DeleteEdges | src/structure/graph/planar/planar_graph.rs:46-58 | a fresh n-vertex graph holding, through `add_edge`, every line such that neither it nor its reversal is in r |
| PlanarGraphs.AddKept | src/structure/graph/planar/planar_graph.rs:52-56 | the loop adds every kept line in order |
| PlanarGraphs.KeepLine | src/structure/graph/planar/planar_graph.rs:53-55 | one turn: e added exactly when it is kept |
| PlanarGraphs.KeptMembers | src/structure/graph/planar/planar_graph.rs:52-56 | a line is kept exactly when it is stored and neither it nor its reversal is in r |
| PlanarGraphs.KeepsReverse | src/structure/graph/planar/planar_graph.rs:53 | e is kept exactly when its reversal is |
| PlanarGraphs.KeptPairStep | src/structure/graph/planar/planar_graph.rs:52-56 | the pair of lines at j and j + 1 adds two kept lines or none |
| PlanarGraphs.KeptInPairs | src/structure/graph/planar/planar_graph.rs:46-58 | both orientations of every edge are stored and both are added, so each surviving edge appears twice: the kept lines come in reversed pairs |
| PlanarGraphs.KeptReverse | src/structure/graph/planar/planar_graph.rs:46-58 | the reversal of a kept line is kept too |
| LegacyPlanarGraphs.PlanarGraph.constructor | src/structure/planar/planar_graph.rs:20-28 | the parts stored as given |
| LegacyPlanarGraphs.PlanarGraph.N | src/structure/planar/planar_graph.rs:49 | the number of points |
| LegacyPlanarGraphs.PlanarGraph.F | src/structure/planar/planar_graph.rs:29-31 | the number of faces, one dual vertex with its own list each |
| LegacyPlanarGraphs.PlanarGraph.Neighbourhood | src/structure/planar/planar_graph.rs:39-44 | the lines listed for u, in list order; in a valid graph each starts at u |
| LegacyPlanarGraphs.PlanarGraph.AddEdge | src/structure/planar/planar_graph.rs:54-61 | e and its reversal appended to the lines, their positions to the lists of e's tail and head, and the counter bumped |
| LegacyPlanarGraphs.PlanarGraph.IsAdjacent | src/structure/planar/planar_graph.rs:63-65 | true exactly when some line listed for u arrives at v |
| LegacyPlanarGraphs.AddEdgeKeeps | src/structure/planar/planar_graph.rs:54-61 | `add_edge` keeps the shape, with the counter one higher |
| MergingPlanarGraphs.SimpleListSnoc | src/structure/graph/planar_graph.rs:71-81 | appending an entry towards u itself or towards a vertex not yet in the list keeps the list free of parallel edges |
| MergingPlanarGraphs.MergeAdj | src/structure/graph/planar_graph.rs:65-82 | a new edge u→v is appended to u's list and its reversal to v's; when u already lists v no list grows; the `expect` panic (None) happens only when u lists v but v does not list u |
| MergingPlanarGraphs.PlanarGraph.N | src/structure/graph/planar_graph.rs:19 | the real graph's vertex count, one list per vertex |
| MergingPlanarGraphs.PlanarGraph.M | src/structure/graph/planar_graph.rs:20 | the real graph's edge count; with only undirected edges, half its list entries |
| MergingPlanarGraphs.PlanarGraph.F | src/structure/graph/planar_graph.rs:21 | the dual's vertex count: one face per dual list |
| MergingPlanarGraphs.Orient | src/structure/graph/planar_graph.rs:66-70 | the edge or its reversal, leaving the endpoint whose list is not longer; kept as given exactly when its tail's list is strictly shorter |
| MergingPlanarGraphs.SameEndsKeeps | src/structure/graph/planar_graph.rs:73-77 | lists with the same endpoints are placed and symmetric together and hold as many entries |
| MergingPlanarGraphs.AddNewKeeps | src/structure/graph/planar_graph.rs:79-81 | adding a new edge keeps the lists placed and symmetric and adds two entries |
| MergingPlanarGraphs.SimpleAfterAdd | src/structure/graph/planar_graph.rs:79-81 | adding an edge u→v when u's list had none keeps the lists free of parallel edges |
| MergingPlanarGraphs.MergeKeeps | src/structure/graph/planar_graph.rs:65-82 | on placed, symmetric lists `add_edge` never reaches its `expect` panic, keeps them placed, symmetric and simple, and adds two entries exactly when no edge u→v was there |
| MergingPlanarGraphs.MergeCombineKeeps | src/structure/graph/planar_graph.rs:71-78 | the merging branch rewrites two entries and keeps their endpoints |
| MergingPlanarGraphs.MergeLists | src/structure/graph/planar_graph.rs:65-82 | `add_edge` keeps the number of lists and every entry at its tail, and never panics on placed symmetric lists |
| MergingPlanarGraphs.MergeKeepsNoFaces | src/structure/graph/planar_graph.rs:65-82 | merging an edge without faces into lists without faces leaves them without faces |
| MergingPlanarGraphs.PrePlanarGraph.Empty | src/structure/graph/planar_graph.rs:54-59 | an n-vertex graph with no edges and n undefined points |
| MergingPlanarGraphs.PrePlanarGraph.AddVertex | src/structure/graph/planar_graph.rs:60-63 | slot u.id now holds u; the lists do not change |
| MergingPlanarGraphs.PrePlanarGraph.AddEdge | src/structure/graph/planar_graph.rs:65-82 | x oriented from the endpoint with the shorter list, then merged with `combine` into the edge already there, or added |
| MergingPlanarGraphs.PrePlanarGraph.Combine | src/structure/graph/planar_graph.rs:71-78 | the first entry u→v becomes combine(e, it), then the first entry v→u becomes combine(reverse(e), it); the edge count is unchanged |
| MergingPlanarGraphs.PrePlanarGraph.DetermineFaces | src/structure/graph/planar_graph.rs:117-158 | traces faces keeping the lists' shape; on success every edge has both faces; Euler's formula is only reported, not enforced |
| MergingPlanarGraphs.PrePlanarGraph.Planarize | src/structure/graph/planar_graph.rs:84-109 | an undefined point is the first error; otherwise faces traced, then every entry from a lower to a higher vertex is unwrapped into the real graph and its rotation into the dual |
| MergingPlanarGraphs.ShapeKeeps | src/structure/graph/planar_graph.rs:117-143 | changing only faces keeps the lists placed, symmetric and simple |
| MergingPlanarGraphs.PlanarizeLists | src/structure/graph/planar_graph.rs:98 | same shape, each entry the planarized entry before |
| MergingPlanarGraphs.PlanarizeWithin | src/structure/graph/planar_graph.rs:92-103 | from lists without faces, every traced face is below the count, so the unwrapped edges fit both graphs |
| MergingPlanarGraphs.Forward | src/structure/graph/planar_graph.rs:96 | the entries of one list that lead to a higher vertex, in order |
| MergingPlanarGraphs.RotateEach | src/structure/graph/planar_graph.rs:99 | the rotation of each edge, in order |
| MergingPlanarGraphs.ForwardMembership | src/structure/graph/planar_graph.rs:96 | a list keeps exactly its entries that lead to a higher vertex |
| MergingPlanarGraphs.ForwardsMembership | src/structure/graph/planar_graph.rs:94-103 | the real graph gets exactly the entries of the lists that lead to a higher vertex |
| MergingPlanarGraphs.ForwardsFit | src/structure/graph/planar_graph.rs:94-103 | every edge the real graph gets, and its rotation, fit when all the lists fit |
| MergingPlanarGraphs.GraphMembership | src/structure/graph/planar_graph.rs:100-101 | after adding edges to empty lists, w's list holds exactly the added edges leaving w and the reversals of those arriving at w |
| MergingPlanarGraphs.PlanarizedMembership | src/structure/graph/planar_graph.rs:92-108 | the real graph's lists hold exactly the forward entries and their reversals, and each forward entry gives the dual its rotation at the left face and the reversal at the right |
| MergingPlanarGraphs.Unwrap | src/structure/graph/planar_graph.rs:92-108 | every entry unwrapped, then the real graph and the dual built; a face at or above f is the index panic, which cannot happen from lists without faces |
| MergingPlanarGraphs.Split | src/structure/graph/planar_graph.rs:92-103 | fresh real graph on n vertices and dual on f, with every forward entry added to both in order |
| MergingPlanarGraphs.AddForward | src/structure/graph/planar_graph.rs:98-101 | one entry added to the real graph and its rotation to the dual |
| MergingPlanarGraphs.AddForwards | src/structure/graph/planar_graph.rs:95-102 | the forward entries of one list added in order |
| MergingPlanarGraphs.AddEntry | src/structure/graph/planar_graph.rs:96-102 | one entry added to both graphs exactly when it leads to a higher vertex |
| MergingPlanarGraphs.BuildKeeps | src/structure/graph/planar_graph.rs:41-43 | adding edges between existing vertices never reaches the `expect` panic and keeps the lists placed, symmetric and free of parallel edges |
| MergingPlanarGraphs.BuildNoFaces | src/structure/graph/planar_graph.rs:41-43 | edges without faces build lists without faces |
| MergingPlanarGraphs.EdgeRow | src/structure/graph/planar_graph.rs:42 | an edge line parses with no faces; an endpoint outside the n lists is the index panic |
| MergingPlanarGraphs.ParseInput | src/structure/graph/planar_graph.rs:22-43 | the header, n point lines and m edge lines among the kept lines; the first failure is the error |
| MergingPlanarGraphs.ParsedPointsBelow | src/structure/graph/planar_graph.rs:38-40 | every point a point block yields has an id below n |
| MergingPlanarGraphs.ParsedEdgesUnplaced | src/structure/graph/planar_graph.rs:41-43 | every edge an edge block yields lies inside the n lists and has no faces |
| MergingPlanarGraphs.ParseRowsIn | src/structure/graph/planar_graph.rs:26-43 | no kept line is "Could not find the first row"; a successful read has its points below n and its edges inside the lists |
| MergingPlanarGraphs.PointsFailed | src/structure/graph/planar_graph.rs:38-40 | a bad point row ends the parse with its error |
| MergingPlanarGraphs.PointsShort | src/structure/graph/planar_graph.rs:39 | too few point rows end the parse with the missing-vertex error |
| MergingPlanarGraphs.EdgesEnd | src/structure/graph/planar_graph.rs:41-43 | once the point block is read, the parse is decided by the edge rows |
| MergingPlanarGraphs.AddPointRows | src/structure/graph/planar_graph.rs:38-40 | one `add_vertex` per row, stopping at the first bad row |
| MergingPlanarGraphs.AddEdgeRows | src/structure/graph/planar_graph.rs:41-43 | one `add_edge::<S>` per row, stopping at the first bad row; on success the lists are those the rows build, without faces |
| MergingPlanarGraphs.Parse | src/structure/graph/planar_graph.rs:22-45 | the error of the first bad line, or the outcome of planarizing the graph the lines build |
| MergingPlanarGraphs.FromRows | src/structure/graph/planar_graph.rs:26-45 | the same once the text is cut into rows |
| MergingPlanarGraphs.FromBody | src/structure/graph/planar_graph.rs:36-45 | the same after the header row |
| MergingPlanarGraphs.Finish | src/structure/graph/planar_graph.rs:41-45 | the same once the points are in |
| MergingPlanarGraphs.PlanarizeRead | src/structure/graph/planar_graph.rs:44 | `planarize` on the lists the edge lines built gives the described outcome |
| Walks.Targets | src/algorithm/shortest_path.rs:40-41 | the heads of the edges in every list, one per edge in list order |
| Walks.WalkStep | src/algorithm/shortest_path.rs:40-44 | a walk of k steps to u followed by one entry of u's list is a walk of k + 1 steps to its head |
| Walks.WeightedTargets | src/algorithm/shortest_path.rs:19-21 | the head and the weight of the edges in every list |
| Walks.WeightedStep | src/algorithm/shortest_path.rs:19-21 | a walk to u weighing c followed by one step of weight w out of u is a walk weighing c + w |
| OddWalks.SetPar | src/algorithm/odd_walk.rs:49-55 | the distance array of parity p takes c at v; every other entry of both arrays is unchanged |
| Costs.UnfoundUpdate | src/algorithm/odd_walk.rs:50-54 | making one Infinite entry finite leaves one fewer to find |
| OddWalks.Found | src/algorithm/odd_walk.rs:43-59 | between pops, a walk of k steps to v (k at most the level, or any k once the queue is empty) means v is found at k's parity no further than k |
| OddWalks.ShortestAtParity | src/algorithm/odd_walk.rs:43-59 | a distance found at parity p is the length of a shortest walk of that parity |
| OddWalks.Unreached | src/algorithm/odd_walk.rs:43-59 | once the queue is empty, a state never found has no walk at all |
| OddWalks.QueuedSnoc | src/algorithm/odd_walk.rs:51-55 | queueing (v, d) adds its state (v, d mod 2) to the queued ones |
| OddWalks.Start | src/algorithm/odd_walk.rs:30-41 | the search starts with s found at even distance 0 and queued, which satisfies the loop invariant |
| OddWalks.PopSettles | src/algorithm/odd_walk.rs:44-45 | popping the head (u, d) starts the scan of u's list at level d |
| OddWalks.Discover | src/algorithm/odd_walk.rs:48-55 | recording d + 1 at that parity for the first walk of its parity to v, and queueing it, keeps the scan invariant |
| OddWalks.DiscoverSound | src/algorithm/odd_walk.rs:48-55 | the recorded distance is the length of a walk and the queue stays ordered by level |
| OddWalks.Known | src/algorithm/odd_walk.rs:49-53 | a head already found at d + 1's parity is no further than d + 1, and skipping it keeps the invariant |
| OddWalks.BasicOddWalk.Init | src/algorithm/odd_walk.rs:30-41 | only start is found, at even distance 0; all odd distances Infinite; the queue holds (start, 0) |
| OddWalks.BasicOddWalk.Solve | src/algorithm/odd_walk.rs:43-68 | Impossible exactly when no odd-length walk leads from the start to the end; otherwise an odd length that is a walk, with an empty path |
| OddWalks.BasicOddWalk.ScanList | src/algorithm/odd_walk.rs:47-57 | the neighbour loop keeps the search invariant and never shrinks the queue, with the termination measure unchanged |
| OddWalks.BasicOddWalk.Relax | src/algorithm/odd_walk.rs:48-56 | one neighbour: the array of distu + 1's parity takes distu + 1 when that improves it, keeping the scan invariant |
| OddWalks.BasicOddWalk.Record | src/algorithm/odd_walk.rs:50-55 | the head gets distu + 1 at that parity and is queued |
| OddWalks.ShortestOddWalk | src/algorithm/odd_walk.rs:24-26 | Impossible exactly when no odd walk leads from s to t, otherwise the length of a shortest odd walk |
| ShortestPaths.UndoneUpdate | src/algorithm/shortest_path.rs:17-18 | marking one vertex done leaves one fewer |
| ShortestPaths.RemoveAt | src/algorithm/shortest_path.rs:16 | removing one heap entry keeps every other entry and adds none |
| ShortestPaths.Found | src/algorithm/shortest_path.rs:39-47 | between pops, a walk of k steps to v (k at most the level, or any k once the queue is empty) means v was found no further than k |
| ShortestPaths.Finished | src/algorithm/shortest_path.rs:39-49 | once the queue is empty, the found vertices are exactly the reachable ones, each at its shortest distance |
| ShortestPaths.Bfs | src/algorithm/shortest_path.rs:33-50 | every vertex's distance from s in steps; finite exactly for the reachable vertices, and then the length of a shortest walk |
| ShortestPaths.ScanList | src/algorithm/shortest_path.rs:40-46 | every head still Infinite is found at d + 1 and queued; the search invariant is kept |
| ShortestPaths.ScanEntry | src/algorithm/shortest_path.rs:41-45 | one entry: its head, if still Infinite, is found at d + 1 and queued |
| ShortestPaths.Start | src/algorithm/shortest_path.rs:34-37 | the search starts with s found at 0 and queued, which satisfies the invariant |
| ShortestPaths.PopSettles | src/algorithm/shortest_path.rs:39 | popping the head (u, d) starts the scan of u's list at level d |
| ShortestPaths.Discover | src/algorithm/shortest_path.rs:42-45 | finding the head at d + 1 and queueing it keeps the scan invariant |
| ShortestPaths.DiscoverSound | src/algorithm/shortest_path.rs:42-45 | the new distance is a walk length and the new queue entry fits the level order |
| ShortestPaths.QueuedSnoc | src/algorithm/shortest_path.rs:44 | queueing x adds its vertex to the queued ones |
| ShortestPaths.PopMin | src/algorithm/shortest_path.rs:15-16 | `BinaryHeap::pop` on (Reverse(d), u) entries picks an entry with the least d, and among those the greatest u |
| ShortestPaths.Reached | src/algorithm/shortest_path.rs:16-29 | between pops, a walk to v weighing c below every heap entry (any c once the heap is empty) means v was found no heavier than c |
| ShortestPaths.Weighed | src/algorithm/shortest_path.rs:16-30 | once the heap is empty, every found distance is the weight of a lightest walk and only unreachable vertices stay Infinite |
| ShortestPaths.AllShortestPaths | src/algorithm/shortest_path.rs:11-31 | Dijkstra: the weight of a lightest walk from s to every vertex, Infinite exactly for those no walk reaches |
| ShortestPaths.StartWeighing | src/algorithm/shortest_path.rs:12-15 | the search starts with s at 0 in the heap and nothing done |
| ShortestPaths.PopStale | src/algorithm/shortest_path.rs:16-17 | popping an entry of a vertex already done leaves a heap of the search |
| ShortestPaths.PopFresh | src/algorithm/shortest_path.rs:16-18 | popping the least entry (d, u) of a vertex not done: d is u's distance, and marking u done starts relaxing its list |
| ShortestPaths.RelaxList | src/algorithm/shortest_path.rs:19-26 | every head reachable cheaper through u gets the new distance and a heap entry |
| ShortestPaths.RelaxEntry | src/algorithm/shortest_path.rs:20-25 | one entry: its head takes d plus the weight and a heap entry when that is lighter |
| ShortestPaths.Improve | src/algorithm/shortest_path.rs:22-25 | a step that beats its head's distance gives the head the new distance and a heap entry, keeping the invariant |
| ShortestPaths.Keep | src/algorithm/shortest_path.rs:22 | a step that does not beat its head's distance changes nothing |
| SplitEdges.Normal | src/algorithm/utility.rs:9 | a ban with its smaller end first, naming the same unordered pair |
| SplitEdges.Bans | src/algorithm/utility.rs:9 | the ban set holds u <= v exactly when (u, v) or (v, u) was banned |
| SplitEdges.Above | src/algorithm/utility.rs:15 | the entries of u's list kept by the `u < v` filter, each a neighbour of u |
| SplitEdges.Visits | src/algorithm/utility.rs:14-15 | every visited edge u–v has u < v and v in u's list |
| SplitEdges.AboveHas | src/algorithm/utility.rs:15 | every neighbour v > u in u's list is visited from u |
| SplitEdges.VisitsHas | src/algorithm/utility.rs:14-15 | every edge u–v with u < v is visited |
| SplitEdges.Unbanned | src/algorithm/utility.rs:16-22 | the edges that are subdivided are at most all of them |
| SplitEdges.Banned | src/algorithm/utility.rs:16-18 | banned and subdivided visits together are all the visits |
| SplitEdges.Pieces | src/algorithm/utility.rs:16-22 | one piece per banned edge and two per other edge |
| SplitEdges.Split | src/algorithm/utility.rs:10-26 | the result has `n + m - bans.len()` lists when every ban is an edge |
| SplitEdges.PiecesHas | src/algorithm/utility.rs:16-22 | a pair is a piece exactly when it comes from some visited edge, whose fresh vertex is numbered by its position among the unbanned ones |
| SplitEdges.FreshIncreasing | src/algorithm/utility.rs:20-22 | later subdivided edges get larger fresh vertices, so no two share one |
| SplitEdges.PiecesIn | src/algorithm/utility.rs:17-21 | every piece's ends are vertices of the result |
| SplitEdges.UnbannedPrefix | src/algorithm/utility.rs:22 | the counter m never decreases along the visits |
| SplitEdges.VisitedPrefix | src/algorithm/utility.rs:14-15 | the edges visited before an entry are a prefix of all the visited edges |
| SplitEdges.BansCounted | src/algorithm/utility.rs:10 | the bans that are edges are no more than the banned visits |
| SplitEdges.EveryBanAnEdge | src/algorithm/utility.rs:10 | when every ban names an edge, every fresh vertex is below `n + m - bans.len()` |
| SplitEdges.AddAllSnoc | src/algorithm/utility.rs:17 | adding one more edge to a run of additions |
| SplitEdges.Snoc | src/algorithm/utility.rs:16-22 | cutting one more edge adds one piece if it is banned and two otherwise |
| SplitEdges.NextVisit | src/algorithm/utility.rs:15-20 | the next visited edge's ends are vertices and its fresh vertex fits |
| SplitEdges.SplitBanned | src/algorithm/utility.rs:16-18 | a banned edge is added as it is and the counter stays |
| SplitEdges.SplitFresh | src/algorithm/utility.rs:19-23 | any other edge is added as its two halves through m, and m moves on |
| SplitEdges.SplitOne | src/algorithm/utility.rs:16-23 | one visited edge handled as the loop body does, keeping the loop invariant |
| SplitEdges.SplitRow | src/algorithm/utility.rs:15-24 | the inner loop over u's list keeps the invariant over the visits up to u |
| SplitEdges.SplitEntry | src/algorithm/utility.rs:15-23 | one entry of u's list handled as the filtered inner loop does |
| SplitEdges.EntryStep | src/algorithm/utility.rs:15 | the visits grow by the entry when u < v and stay a prefix |
| SplitEdges.SplitEdgesOf | src/algorithm/utility.rs:5-27 | the result has `n + m - bans.len()` vertices and equals the specification: every banned edge kept, every other edge subdivided |
| SplitEdgesProps.SplitPieces | src/algorithm/utility.rs:12-25 | the result is the empty graph with every piece added |
| SplitEdgesProps.SplitKeepsBanned | src/algorithm/utility.rs:16-18 | two original vertices are adjacent in the result exactly when they form a banned edge of the graph |
| SplitEdgesProps.VisitsExactly | src/algorithm/utility.rs:14-15 | the visited edges are exactly the graph's edges u–v with u < v |
| SplitEdgesProps.PiecesOriginal | src/algorithm/utility.rs:16-21 | between original vertices the pieces are exactly the banned edges |
| SplitEdgesProps.SplitSubdivides | src/algorithm/utility.rs:19-22 | each unbanned edge u–v has its own fresh vertex w, adjacent to exactly u and v |
| SplitEdgesProps.FreshBelow | src/algorithm/utility.rs:11-22 | fresh vertices start at n and stay below n plus the number of subdivided edges |
| SplitEdgesProps.PiecesSubdivide | src/algorithm/utility.rs:19-22 | the same for the pieces of any edge sequence |
| SplitEdgesProps.FreshNeighbour | src/algorithm/utility.rs:20-21 | a neighbour of an edge's fresh vertex is one of that edge's ends |
| SplitEdgesProps.OnlyPieces | src/algorithm/utility.rs:20-22 | only its own edge's pieces touch a fresh vertex |
| NetworkDiversions.AllowedOf | src/algorithm/network_diversion.rs:53-55 | the entries of u's list other than the diversion edge, in either direction |
| NetworkDiversions.Diverted | src/algorithm/network_diversion.rs:53-55 | the graph the search explores: v is a step from u exactly when it is in u's list and not the diversion edge |
| NetworkDiversions.StepIn | src/algorithm/network_diversion.rs:53-55 | an allowed stored edge is a step of the diverted graph |
| NetworkDiversions.BackPathWalk | src/algorithm/network_diversion.rs:66-73 | the predecessor edges from index i on form a walk from s |
| NetworkDiversions.BackPathReaches | src/algorithm/network_diversion.rs:66-73 | a returned path means t is reachable without the diversion edge |
| NetworkDiversions.Bfs | src/algorithm/network_diversion.rs:45-76 | the unwrap panic exactly when s = t (t is seen but has no predecessor); otherwise None exactly when t cannot be reached from s without the diversion edge, and else predecessor edges that lead from t back to s, each allowed |
| NetworkDiversions.PopScans | src/algorithm/network_diversion.rs:52 | popping the head of the queue starts the scan of its list |
| NetworkDiversions.ScanList | src/algorithm/network_diversion.rs:53-63 | the scan keeps the search invariant, stopping once t is seen |
| NetworkDiversions.ScanEntry | src/algorithm/network_diversion.rs:54-61 | one entry: an allowed unseen head is seen, queued and given this edge; stopping means t was seen |
| NetworkDiversions.Discover | src/algorithm/network_diversion.rs:55-58 | seeing an allowed unseen head keeps the scan invariant |
| NetworkDiversions.DiscoverTree | src/algorithm/network_diversion.rs:56-58 | the head's predecessor is this edge, ranked after every seen vertex |
| NetworkDiversions.Scanned | src/algorithm/network_diversion.rs:53-63 | a finished or stopped scan leaves a search state |
| NetworkDiversions.WalkSeen | src/algorithm/network_diversion.rs:52-64 | when no step leaves the seen vertices, every vertex reachable from s is seen |
| NetworkDiversions.ShutDiverted | src/algorithm/network_diversion.rs:52-64 | with the queue empty, no step of the diverted graph leaves the seen vertices |
| NetworkDiversions.Unreached | src/algorithm/network_diversion.rs:52-66 | once the queue is empty, an unseen t is unreachable without the diversion edge |
| NetworkDiversions.Backtrack | src/algorithm/network_diversion.rs:67-72 | the loop ends, and the edges taken lead from t back to s |
| NetworkDiversions.BackStep | src/algorithm/network_diversion.rs:69-71 | one more predecessor edge keeps the loop state and lowers the rank of the tail |
| NetworkDiversions.BackDone | src/algorithm/network_diversion.rs:69 | when the last edge leaves s the edges form a path from t back to s |
| NetworkDiversions.RotateAll | src/algorithm/network_diversion.rs:14-16 | every path edge turned into its dual edge, in order |
| NetworkDiversions.NetworkDiversion | src/algorithm/network_diversion.rs:12-16 | the panic of `bfs` exactly when s = t; otherwise (0, []) exactly when no s-t path avoids the diversion edge, and else the dual of a path that does |
| OddPaths.Mirror | src/algorithm/odd_path.rs:246-252 | maps a vertex of one copy to the other copy: u < n goes to u + n, anything else to u - n |
| OddPaths.MirrorInvolution | src/algorithm/odd_path.rs:246-252 | mirroring twice gives the vertex back, and no vertex is its own mirror |
| OddPaths.Fold | src/algorithm/odd_path.rs:98 | every vertex of the doubled graph is mapped to an original vertex |
| OddPaths.FoldMirror | src/algorithm/odd_path.rs:98 | both copies of a vertex are mapped to the same original vertex, and originals to themselves |
| OddPaths.Shifted | src/algorithm/odd_path.rs:274-278 | the mirror's list holds x exactly when x - n is a neighbour other than s and t |
| OddPaths.MirrorAdj | src/algorithm/odd_path.rs:267-282 | the mirror graph has 2n lists |
| OddPaths.MirrorOriginals | src/algorithm/odd_path.rs:271-272 | original vertices keep their lists |
| OddPaths.MirrorShifts | src/algorithm/odd_path.rs:273-279 | for u other than s and t, u + n reaches exactly the mirrors of u's neighbours other than s and t |
| OddPaths.MirrorEnds | src/algorithm/odd_path.rs:273 | the mirrors of s and t have no neighbours |
| OddPaths.MirrorClosed | src/algorithm/odd_path.rs:267-282 | every entry of the mirror graph is one of its vertices |
| OddPaths.MirrorCopiesEdges | src/algorithm/odd_path.rs:273-279 | between vertices other than s and t, u–v is an edge exactly when mirror(u)–mirror(v) is |
| OddPaths.MirrorEdge | src/algorithm/odd_path.rs:267-282 | an edge of the mirror graph joins two vertices of the same copy, and folded back it is an edge of the input graph |
| OddPaths.PathWalk | src/algorithm/odd_path.rs:96-98 | vertices each listed by the one before form a walk from the first to the last, of one step per edge |
| OddPaths.CreateMirrorGraph | src/algorithm/odd_path.rs:267-282 | a new graph of 2n vertices equal to the mirror graph of the input |
| OddPaths.Seed | src/algorithm/odd_path.rs:38-46 | d_minus is 1 and pred is s exactly at the neighbours of s; Infinite and None elsewhere |
| OddPaths.RelaxationBounds | src/algorithm/odd_path.rs:156-167 | a scan never raises d_minus, leaves every unbanned neighbour at most d, and a changed predecessor means d_minus is exactly d through u |
| OddPaths.Reversed | src/algorithm/odd_path.rs:97 | the path read backwards |
| OddPaths.Folded | src/algorithm/odd_path.rs:98 | every vertex of the path mapped to the original graph, in order |
| OddPaths.DerigsAlgorithm.Init | src/algorithm/odd_path.rs:31-65 | the mirror graph of the input graph, which is remembered; d_plus 0 at s and Infinite elsewhere; d_minus 1 with predecessor s at the neighbours of s; s and its mirror completed |
| OddPaths.DerigsAlgorithm.Scan | src/algorithm/odd_path.rs:152-168 | u is appended to the scanned list; d_minus and pred relax through u at d_plus[u] + 1, skipping banned heads and non-improvements; nothing else changes, and every predecessor still lists the vertex it precedes |
| OddPaths.DerigsAlgorithm.ScanEntry | src/algorithm/odd_path.rs:157-166 | one neighbour: skipped if banned or not strictly improved, otherwise d_minus and pred updated |
| OddPaths.DerigsAlgorithm.Grow | src/algorithm/odd_path.rs:170-187 | the tree edge mirror(l)–l is added, both are completed, d_plus of mirror(l) becomes delta and it is scanned with no bans |
| OddPaths.DerigsAlgorithm.AlternatingSnoc | src/algorithm/odd_path.rs:234-242 | one more mirror or predecessor step keeps the walk alternating |
| OddPaths.DerigsAlgorithm.FindPath | src/algorithm/odd_path.rs:232-244 | from u, alternately to the mirror and the predecessor, ending at s; a vertex without a predecessor is reported as the unwrap panic |
| OddPaths.DerigsAlgorithm.ChainCopy | src/algorithm/odd_path.rs:88-95 | the chain of predecessors followed back from t changes copy at every step after the first, because the mirror graph keeps every edge inside one copy |
| OddPaths.DerigsAlgorithm.BackChainWalk | src/algorithm/odd_path.rs:88-98 | a chain from t back to s takes an odd number of steps, and every step folded back is an edge of the input graph |
| OddPaths.DerigsAlgorithm.AnswerWalk | src/algorithm/odd_path.rs:96-98 | the reversed, folded chain is a walk of odd length from s to t in the input graph, each vertex listed by the one before |
| OddPaths.DerigsAlgorithm.Conclude | src/algorithm/odd_path.rs:79-105 | Impossible exactly when d_minus[t] is Infinite; otherwise a chain of predecessors from t, reversed and folded, running from s to t through original vertices, costing one per step; the answer is a walk of odd length in the input graph: each vertex is listed by the one before |
| Testing.ParseAnswers | src/utility/testing.rs:30-41 | one answer per line, in order, or None exactly when some line panics |
| Testing.AnswerLine | src/utility/testing.rs:33-36 | a written answer line holds no line break |
| Testing.AnswerLineRoundTrip | src/utility/testing.rs:34-37 | a written answer line reads back as its sink and cost |
| Testing.MissingCostPanics | src/utility/testing.rs:36 | a line with only a sink makes the parser panic |
| Testing.UnparsableCostIsInfinite | src/utility/testing.rs:36 | a second word that is not a number is read as an infinite cost |
| Testing.AnswersRoundTrip | src/utility/testing.rs:30-41 | every line of a written answer file reads back as the answer written there |
| Problems.Numbers | tests/utility/problem.rs:118-122 | Some exactly when the first k words are present and parse, and then their values |
| Problems.NumbersPrefix | tests/utility/problem.rs:118-122 | words after the first k do not change what they parse to |
| Problems.ParseSinkCost | tests/utility/problem.rs:43-48 | walk and path queries: the sink as usize, then a cost word that must be present, read as Infinite when not a number |
| Problems.SinkCostRoundTrip | tests/utility/problem.rs:79-84 | a written sink-and-cost line reads back as that query |
| Problems.ParseBottleneck | tests/utility/problem.rs:117-125 | four numbers then a fifth word that must be present, read as a cost |
| Problems.ParseDisjoint | tests/utility/problem.rs:158-165 | the same five words, grouped as two pairs and a cost |
| Problems.ParseDiversion | tests/utility/problem.rs:203-211 | Some exactly when the first five words are numbers |
| Problems.QueryLineNumbers | tests/utility/problem.rs:118-122 | the numbers of a written query line parse back |
| Problems.CostWord | tests/utility/problem.rs:123 | a formatted cost is one word that reads back as that cost |
| Problems.BottleneckRoundTrip | tests/utility/problem.rs:117-128 | a written bottleneck query reads back as itself |
| Problems.DisjointRoundTrip | tests/utility/problem.rs:158-168 | a written disjoint-paths query reads back as itself |
| Problems.DiversionRoundTrip | tests/utility/problem.rs:203-215 | a written diversion query reads back as itself, trailing words ignored |
| Problems.DiversionNeedsNumericCost | tests/utility/problem.rs:209 | a diversion query whose cost is not a number is rejected |
| Problems.BottleneckUnparsableCost | tests/utility/problem.rs:123 | a bottleneck query whose cost is not a number expects no path |
| Problems.ExtraWordsIgnored | tests/utility/problem.rs:117-211 | words after the fifth are never read, by any of the three parsers |
| Problems.EdgesFrom | tests/utility/problem.rs:242-244 | Pass exactly when every remaining edge is in the graph; otherwise it names a missing one |
| Problems.CheckPath | tests/utility/problem.rs:240-244 | Pass exactly when the path is non-empty, starts at source, ends at sink and uses only graph edges; an empty path fails |
| Problems.VerifyPath | tests/utility/problem.rs:232-245 | Pass exactly when the costs agree and the path leads from source to sink through the graph |
| Problems.VerifyWalk | tests/utility/problem.rs:52-64 | Pass exactly when the result agrees with the expectation and a finitely expected walk has odd length and passes the path check from 0 |
| Problems.SimpleFrom | tests/utility/problem.rs:97-99 | Pass exactly when no later edge returns to an earlier edge's tail; otherwise it names that tail |
| Problems.VerifyOddPath | tests/utility/problem.rs:88-103 | as the walk check, and the path must never return to an earlier tail |
| Problems.VerifyBottleneck | tests/utility/problem.rs:130-142 | Pass exactly when the result agrees, passes the path check from s to t, and uses the edge u→v |
| Problems.Vertices | tests/utility/problem.rs:176 | exactly the vertices the edges touch |
| Problems.EdgeDisjoint | tests/utility/problem.rs:176 | true exactly when no entry of the first path equals an entry of the second, the test as written |
| Problems.SharedVertexPassesEdgeTest | tests/utility/problem.rs:176 | two paths sharing a vertex through different edges pass the test as written |
| Problems.VertexDisjointIsEdgeDisjoint | tests/utility/problem.rs:176 | the vertex test is stronger than the edge test |
| Problems.VerifyDisjoint | tests/utility/problem.rs:169-183 | Pass exactly when the presence agrees and found paths share no vertex, have the expected combined length and both pass the path check |
| OddPathTests.ParseQuery | tests/test_shortest_odd_path.rs:25-36 | Some exactly when source and sink parse; a cost is expected exactly when a third word is present |
| OddPathTests.ParseQueryWithCost | tests/test_shortest_odd_path.rs:25-36 | a written query with its cost reads back as itself |
| OddPathTests.ParseQueryWithoutCost | tests/test_shortest_odd_path.rs:29-34 | a query of two words expects no cost |
| OddPathTests.UnparsableCostExpectsNoPath | tests/test_shortest_odd_path.rs:30 | a third word that is not a number expects no path |
| OddPathTests.VerifyAnswer | tests/test_shortest_odd_path.rs:37-57 | Pass exactly when the result meets the expectation and any found path has odd length, leads from source to sink through the graph and reuses no vertex |
| FixGraph.LookDense | data/fix_graph.py:12-17 | a known label keeps its id and leaves the dict unchanged; a new label gets the id len(id) and grows the dict by one; the ids stay 0..n-1, one label each |
| FixGraph.LookAllDense | data/fix_graph.py:28 | mapping lookup over a line keeps the ids dense, keeps every old id, and adds exactly the line's new labels |
| FixGraph.LookAllIds | data/fix_graph.py:28 | every token is mapped to the id its label ends up with, so equal labels get equal ids |
| FixGraph.FirstSeen | data/fix_graph.py:12-17 | a label seen for the first time gets the number of labels known just before it, which exceeds the id of every earlier token (first-seen order) |
| FixGraph.LinkHas | data/fix_graph.py:31-35 | the two setdefault/add calls store the pair in both directions and nothing else, an identical pair once |
| FixGraph.LinkInv | data/fix_graph.py:31-35 | adding an edge keeps the adjacency symmetric and every stored vertex and weight an id |
| FixGraph.StepInv | data/fix_graph.py:21-37 | one line keeps the ids dense and the adjacency symmetric and within the ids, and never changes an id |
| FixGraph.ProcessInv | data/fix_graph.py:20-37 | the whole read loop keeps that invariant and never changes an id |
| FixGraph.StepOk | data/fix_graph.py:23-37 | a line raises exactly when it is not a comment and has more than three tokens |
| FixGraph.StepStart | data/fix_graph.py:22-24 | a stripped line starting with % or # is appended to start, and no other line is |
| FixGraph.ProcessOk | data/fix_graph.py:26-37 | the read loop raises exactly when some non-comment line has more than three tokens |
| FixGraph.ProcessFirstBad | data/fix_graph.py:36-37 | when the read loop raises, it is on the first such line |
| FixGraph.ProcessStart | data/fix_graph.py:22-24 | start ends up as exactly the stripped comment lines, in input order |
| FixGraph.StepEdges | data/fix_graph.py:26-35 | one line stores exactly the pairs its two or three tokens name, under the ids they get |
| FixGraph.ProcessEdges | data/fix_graph.py:20-37 | vertex a stores (b, w) exactly when some edge line names a and b with weight w, in either order, under the final ids; a line with one token or fewer adds nothing |
| FixGraph.ProcessErrKept | data/fix_graph.py:36-37 | once a line raises the script stops with that exception |
| FixGraph.MinOf | data/fix_graph.py:43 | a non-empty set of vertices has a least one, so the keys can be taken in sorted order |
| FixGraph.Fixer.Lookup | data/fix_graph.py:12-17 | lookup as a mutation of the dict id, equal to the Look function, touching nothing else |
| FixGraph.Fixer.ReadLine | data/fix_graph.py:21-37 | one iteration of the read loop updates id, graph and start exactly as Step says, or raises with the line's ids |
| FixGraph.Fixer.RecordTokens | data/fix_graph.py:26-37 | the token loop calls lookup once per token in order, then adds the edge or raises |
| FixGraph.Fixer.Read | data/fix_graph.py:20-37 | the read loop leaves the globals as Process says, or raises with the first bad line's ids |
| FixGraph.Fixer.Rows | data/fix_graph.py:43-47 | the rows written are exactly the stored pairs (v, w) of each u with u < v, each once, in ascending order of u |
| FixGraph.Fixer.RowsFrom | data/fix_graph.py:44-47 | the inner loop writes exactly the pairs of u with v > u and skips the rest |
| FixGraph.Fixer.Write | data/fix_graph.py:39-47 | the output is the kept lines, then len(id), then one u v [w] line per listed row |
| FixGraph.Fix | data/fix_graph.py:20-47 | the script fails exactly when some line has more than three tokens; otherwise it writes the comment lines, the number of ids and the listed rows |
| FixGraph.FixedEdges | data/fix_graph.py:29-47 | a row (a, b, w) is written exactly when a < b and some line names a and b with weight w: each edge is written once, self-loops never |
| FixGraph.FixedIds | data/fix_graph.py:9-17 | the ids are 0..n-1 for the n in the header, every token of an edge line has one, and every vertex and weight written is below n |
| Visualizer.ReadGraph | data/visualizer.py:18-31 | `read_graph`: a header that is not an integer (or an empty file) raises ValueError; otherwise it succeeds exactly when every non-comment line is 2 or 3 integers, and the graph is all those edges added in order |
| Visualizer.Classify | data/visualizer.py:22 | only a line starting with `%` is skipped as a comment |
| Visualizer.ClassifyCases | data/visualizer.py:22-30 | a comment is skipped; otherwise a non-integer word raises ValueError, two integers add an unweighted edge, three a weighted one, any other count raises IOError |
| Visualizer.ReadStep | data/visualizer.py:22-30 | one more line read keeps the run clean exactly as the line does, and appends its edge when it has one |
| Visualizer.EdgesOfAdds | data/visualizer.py:22-28 | the added edges join x and y exactly when some edge line names that pair in either order |
| Visualizer.EdgesOfTouches | data/visualizer.py:22-28 | the added edges touch x exactly when some edge line mentions x |
| Visualizer.ReadGraphContents | data/visualizer.py:18-31 | the graph read is simple, joins x and y exactly when some line names the pair, and has x as a node exactly when some edge line mentions x |
| Visualizer.ClassifyPair | data/visualizer.py:22-25 | a non-comment line of two integers adds that edge unweighted |
| Visualizer.ClassifyTriple | data/visualizer.py:26-28 | a non-comment line of three integers adds that edge with the third as weight |
| Visualizer.EdgeLineRead | data/visualizer.py:22-28 | an edge line written as `u v` or `u v w` is read back as that edge and weight (round trip) |
| Nx.AddNodeMembers | data/visualizer.py:25 | after `add_edge` registers an end, a node is present exactly when it was present or is that end |
| Nx.Find | data/visualizer.py:25 | the lookup of an existing edge finds one joining the pair, and fails exactly when no edge joins it |
| Nx.AddEdge | data/visualizer.py:25-28 | `add_edge` keeps old nodes and edges in place, adds at most one edge, and has both ends as nodes |
| Nx.AddEdgeJoins | data/visualizer.py:25-28 | after `add_edge` the joined pairs are the old ones plus the new pair, no other |
| Nx.AddEdgeNodes | data/visualizer.py:25-28 | after `add_edge` the nodes are the old ones plus the two ends, no other |
| Nx.AddEdgeSimple | data/visualizer.py:25-28 | `add_edge` keeps the graph simple: distinct nodes, known ends, no pair stored twice |
| Nx.AddEdgesSnoc | data/visualize_diversion.py:41-46 | adding a sequence of edges and then one more is adding the extended sequence |
| Nx.AddEdgesSimple | data/visualize_diversion.py:41-46 | adding a sequence of edges keeps the graph simple |
| Nx.AddEdgesJoins | data/visualize_diversion.py:41-46 | after adding a sequence of edges a pair is joined exactly when it was before or some added edge joins it |
| Nx.AddEdgesNodes | data/visualize_diversion.py:41-46 | after adding a sequence of edges the nodes are the old ones and the ends of the added edges |
| ReformatGraphs.Reformat | data/reformat_graphs.py:1-11 | the header `len(vs) len(es)`, every vertex line verbatim, then every edge line without its first field; it succeeds exactly when every edge line has four fields, and the first line without four fields stops it after everything before it is written |
| ReformatGraphs.EdgeLineRewritten | data/reformat_graphs.py:10-11 | an edge line `id u v w` is written as `u v w` with a line feed |
| ReformatGraphs.ConcatTerminated | data/reformat_graphs.py:7-11 | writing lines that each end in a line feed is writing the terminated lines |
| ReformatGraphs.OutputLines | data/reformat_graphs.py:7-11 | the written file has exactly one line per write, in the order of the inputs |
| VisualizeDiversion.Read | data/visualize_diversion.py:4-6 | a word that float() accepts is read as a number in normal form: an int when the float is integral, otherwise the float |
| VisualizeDiversion.NumEquality | data/visualize_diversion.py:4-6 | on values `read` produces, equality is Python's numeric equality (3 == 3.0), so set and list membership behave as in the script |
| VisualizeDiversion.ParseFloatInteger | data/visualize_diversion.py:5 | in the model's exact-decimal reading, a signed numeral without a decimal point is read by float() as its integer value (Python agrees up to 2^53) |
| VisualizeDiversion.ReadIntToString | data/visualize_diversion.py:4-6 | in the model's exact-decimal reading, an integer written in decimal is read back as that int (round trip; Python agrees up to 2^53) |
| VisualizeDiversion.SliceWithin | data/visualize_diversion.py:25-27 | Python slicing with in-range bounds is the plain subsequence; an upper bound past the end stops at the end |
| VisualizeDiversion.InLayout | data/visualize_diversion.py:24-27 | when n fits the file, `lines[1:n+1]` has n lines and the first line, the position lines and `lines[n+1:]` together are the whole file |
| VisualizeDiversion.PositionsKeys | data/visualize_diversion.py:25-26 | a vertex has a position exactly when some position line names it |
| VisualizeDiversion.PositionsLast | data/visualize_diversion.py:25-26 | a later position line for the same vertex overrides an earlier one |
| VisualizeDiversion.ReadIn | data/visualize_diversion.py:21-27 | reading `.in` succeeds exactly when every word is a number, n is an int and each position line unpacks into three values; a bad word raises ValueError; the result is the position dict and the edge lines |
| VisualizeDiversion.PairSetListed | data/visualize_diversion.py:30-33 | the diversion set holds exactly the listed pairs in both orientations, so it is symmetric |
| VisualizeDiversion.DiversionSet | data/visualize_diversion.py:29-33 | reading `.diverted` succeeds exactly when every line unpacks into two values (else ValueError) and yields the set of listed pairs in both orientations |
| VisualizeDiversion.ParseDiversion | data/visualize_diversion.py:36 | reading `.diversion` succeeds exactly when every word is an integer and there are at least four; s, t, d1, d2 are then the first four; any failure is a ValueError |
| VisualizeDiversion.ParseDiversionOf | data/visualize_diversion.py:36 | text whose words are at least four integers yields the first four as s, t, d1, d2 |
| VisualizeDiversion.DiversionFileRead | data/visualize_diversion.py:35-37 | a `.diversion` file written as s, t, d1, d2 and any further integers reads back as s, t, d1, d2 (round trip) |
| VisualizeDiversion.FullStep | data/visualize_diversion.py:41-44 | each edge line adds its first two values as an edge of the full graph |
| VisualizeDiversion.KeptStep | data/visualize_diversion.py:45-46 | a line whose pair is not in the diversion set adds its edge to the diverted graph |
| VisualizeDiversion.DroppedStep | data/visualize_diversion.py:45-46 | a line whose pair is in the diversion set leaves the diverted graph unchanged |
| VisualizeDiversion.BuildGraphs | data/visualize_diversion.py:39-46 | the loop succeeds exactly when every edge line has two values (else IndexError) and builds the full graph of all lines and the diverted graph of the kept lines |
| VisualizeDiversion.EndsAdds | data/visualize_diversion.py:41-44 | the full graph's edge list joins x and y exactly when some edge line does |
| VisualizeDiversion.KeptAdds | data/visualize_diversion.py:45-46 | the diverted graph's edge list joins x and y exactly when some edge line does and (x, y) is not in the diversion set |
| VisualizeDiversion.DivertedEdges | data/visualize_diversion.py:39-46 | the diverted graph has exactly the edges of the full graph whose pair is not in the diversion set |
| VisualizeDiversion.Draw | data/visualize_diversion.py:47-59 | node size is 100 exactly for s and t, else 0; an edge of the cut is red and width 4, others black and width 1; in the partial drawing non-cut edges of the diversion set are orange and width 4 |
| VisualizeDiversion.PartialWideIffColoured | data/visualize_diversion.py:53-54 | in the partial drawing an edge is wide exactly when it is not black |
| VisualizeDiversion.StyleOrientation | data/visualize_diversion.py:48-59 | an edge is styled the same whichever orientation networkx reports it in, because the cut and the diversion set hold both orientations |
| VisualizeDiversion.DivertedHasNoCut | data/visualize_diversion.py:58-59 | when the diversion edge is in the diversion set, no edge of the diverted drawing is red |
| VisualizeDiversion.VisualizeDiversion | data/visualize_diversion.py:20-59 | the three files are read in order and the first error ends the run; on success the two graphs and the drawings are those the readers and the graph loop define |

## Left out

- PrePlanarGraphs.PrePlanarGraph.Planarize: computes the face count with the corrected `m + 2 − n`. As written, `m − n + 2` on usize panics in a debug build for every graph with fewer edges than vertices, such as a tree (see Findings). The as-written count is `FaceCountAsWritten`.
- SplitEdges: `split_edges` calls `g.m()`, which the simple `UndirectedGraph` of src/structure/undirected_graph.rs does not define; `SplitEdges.EdgeCount` stands in for it as the number of edges u–v with u < v that the loop visits.
- MergingPlanarGraphs: src/structure/graph/planar_graph.rs imports the `Point` of src/structure/graph/point.rs, which has no `id` field and no `FromStr`, so its `add_vertex` and its vertex-line `parse()` do not compile as given. The model reads vertex lines with the parser of src/structure/graph/planar/point.rs instead (`Points.FromStr`, through `PrePlanarGraphs.VertexParser`), and `AddVertex` stores the point at its `id`.
- OddPathTests.VerifyAnswer: tests/test_shortest_odd_path.rs:53 calls `verify_path` with six arguments, while the `verify_path` of tests/utility/problem.rs:232 takes seven and compares an expected with an actual cost. The call is read as the path-only check `Problems.CheckPath`, as though the path's own cost were passed in both places.
- Angle-based clockwise sorting of the edges around a vertex (`sort_edges`, `compare_edges_clockwise`, `angle_from_center`) is not modelled, because it uses floating-point `atan2`. Face tracing takes each adjacency list in the order it is given.
- `control`, `blossom` and `find_cycle_base` of Derigs' algorithm are not modelled, because they compare `f64` values and panic after a hard-coded 20 iterations. `solve` is modelled from the point where `control` has stopped (`OddPaths.DerigsAlgorithm.Conclude`). The optimality of the returned path is therefore not proved.
- OddPaths.DerigsAlgorithm.FindPath: bounded by a step count. A predecessor cycle, on which the source would loop forever, is reported as running out of steps.
- OddPaths.DerigsAlgorithm.Conclude: bounded by a step count in the same way. A missing predecessor, where the source panics in `expect`, is reported as its own outcome.
- Faces.TraceFaces: a face walk longer than the number of directed edges repeats an edge and never ends in the source. The model reports it as an error.
- NetworkDiversions.NetworkDiversion: stops once the path from `bfs` is rotated into the dual. The diversion-edge lookup, `split_edges` of the dual, the call to `shortest_odd_path` and the mapping back are not modelled. That version of `split_edges` returns an edge map, which the `split_edges` in src/algorithm/utility.rs does not.
- Costs.Add: does not model u64 overflow. Sums are unbounded naturals, and so are the distance sums in `ShortestPaths` and `OddWalks`.
- Generic `Weight` is instantiated as natural numbers. The trait and type-only files (weight, graph traits, `Algorithm`, `PathResult`) are used as declarations only.
- The `unsafe` pointer write in `Base::get_base` is modelled as an ordinary array update.
- Console output (`println`, `debug`, `print_state`) is not modelled, because it does not affect results. `Debug` formatting is not modelled either, except for `Cost`, whose `Debug` output `Costs.Debug` models because `Cost::from_str` reads it back.
- File and directory I/O is not modelled: `read_to_string`, `open`, and the directory walk in the visualiser scripts. Parsers take the text or its lines.
- Plotting is not modelled: networkx/matplotlib drawing and the benchmark plotting scripts. `VisualizeDiversion.Draw` returns the node sizes, colours and widths that would be drawn.
- VisualizeDiversion.Read: reads a decimal numeral exactly, without the rounding to binary64 that Python's `float()` does. So "2.0000000000000001" stays a non-integral float in the model, and integers beyond 2^53 are not rounded. ParseFloatInteger and ReadIntToString state this exact reading.
- Text.ParseInt: Python's `int()` also accepts digit underscores ("1_000"); the model rejects them.
- Python's `float()` is modelled only on decimal numerals with an optional sign and decimal point. Exponents, `inf`, `nan` and digit underscores are not modelled.
- Text: whitespace is the ASCII set (space, tab, line feed, vertical tab, form feed, carriage return) wherever Rust's `trim`/`split_whitespace` or Python's `strip()`/`split()` is modelled; both languages also treat other Unicode whitespace as whitespace.
- FixGraph.Fixer.Write: the order of the pairs within one vertex's set is Python's set iteration order, which the model leaves open. Only the set of rows written is fixed.
- Nx: the model keeps one list of edges in the order they were first added. networkx iterates edges node by node in adjacency order, which can differ. Only the order of the drawn colour and width lists depends on it.
- The merge strategy of `MergingPlanarGraphs` is a `combine` parameter that must keep endpoints and faces. The summing strategy's weight arithmetic is not modelled separately.
- The diversion `verify_answer` (tests/utility/problem.rs:217-225) is not modelled, because it recomputes distances through the solver.
- The test drivers (`meta_test`, `test_s_t_trip`), `main.rs`, the benchmark harnesses, the Delaunay point generator and the bottleneck and disjoint-path solvers are not part of this model.

## Findings

| source | as written | input that shows it | evidently intended | confidence | as-written member | corrected member |
|---|---|---|---|---|---|---|
| src/structure/graph/planar/pre_planar_graph.rs:41 | `self.m() - self.n() + 2` subtracts first on `usize`, which underflows whenever there are fewer edges than vertices | the single edge 0–1: n = 2, m = 1, one face, and Euler's formula holds | `m + 2 - n`, the face count Euler's formula gives | high, not executed | PrePlanarGraphs.SingleEdgeUnderflow | PrePlanarGraphs.FaceCountAfterEuler |
| tests/utility/problem.rs:176 | the disjointness check compares the paths' edges, while its message says the paths must use different vertices | paths 0→1 and 2→1, which share vertex 1 through different edges, pass | the two paths share no vertex | medium, not executed | Problems.SharedVertexPassesEdgeTest | Problems.VerifyDisjoint |
