# Runes: a verified model of an online symbol learner

The repository reads a stream of wide characters and keeps a graph of
"runes". Each vertex is a symbol: a name, a use count and an id. Each edge
counts how often one symbol followed another, and can point at the compound
symbol its two names join into.

- `Runes` owns the graph, the name-to-vertex map and the rank sets of
  vertex and edge counts. It offers `get_vertex`, `tally_vertex`,
  `tally_edge`, `starts_with` and `guess_one`.
- A `Reader` holds the current `froms` (the vertices consistent with what
  was read) and a set of `Watch`es. A watch is a cursor through the name of
  an edge's target.
- `Reader::read(c, predicate)` tallies the edges and vertices passed on each
  character, lets a learning predicate (`FalsePredicate`, `EdgeLearner`)
  promote counted edges into compound symbols, and spawns new watches.
- `guess` proposes the likeliest continuation.
- Two utilities ship beside it: a counting `Trie` of words and prefixes,
  and a `SuffixArray` built by sorting the suffix indices of the input with
  a sentinel appended.

The model has six modules:

| file | module | what it holds |
|---|---|---|
| `strings.dfy` | `Strings` | wide characters, prefixes and the lexicographic order |
| `runes.dfy` | `RuneGraph` | the graph as append-only arenas, inside class `Runes`, with its store operations and its invariant |
| `watch.dfy` | `Watches` | the watch cursor and its order |
| `reader.dfy` | `Readers` | class `Reader`; `read` is split into its phases |
| `trie.dfy` | `Tries` | class `Trie` over an arena of nodes |
| `suffix.dfy` | `Suffixes` | class `SuffixArray`, the comparator and an in-place sort |

How the graph is represented:
- Vertex descriptors are indices into `vertices`, and a vertex's `id` is its
  index plus one.
- `outEdges` keeps each vertex's out-edges in insertion order.
- A `std::set` of vertex descriptors is iterated in increasing index order,
  as the program does, by repeatedly taking its least element. Sets of edge
  descriptors and of watches are visited in edge index order instead (see
  "Left out").

What `read` does is stated once, as the relation `ReadStep` between the
state before and after a read. The imperative phases are proved to compose
into it.

## Model

| member | source | states |
|---|---|---|
| RuneGraph.CharName | main.cpp:204-207 | the character 0 names the empty string, every other character the one-character name |
| RuneGraph.Runes.constructor | main.cpp:127-130 | the graph holds only the root: id 1, empty name, count 0, rank `(0, root)`, no edges |
| RuneGraph.Runes.GetVertex | main.cpp:210-224 | a known name returns its vertex and changes nothing. An unknown name appends exactly one vertex with id = old counter + 1, count 0 and that name; it also registers the vertex in the name map and inserts `(0, v)` into the vertex ranks |
| RuneGraph.Runes.GetVertexChar | main.cpp:204-208 | `get_vertex(c)` is `get_vertex` on the name `CharName(c)`, with the same two cases |
| RuneGraph.Runes.TallyVertex | main.cpp:178-183 | the vertex count rises by exactly one; its rank entry moves from the old count to the new one; nothing else changes |
| RuneGraph.Runes.TallyEdge | main.cpp:185-202 | returns the one edge `from -> to`. An existing edge's count and rank go up by one. A missing edge is appended with count 1 and rank `(1, e)` and added at the end of `from`'s out-edges. Vertices, names and vertex ranks are unchanged, and the invariant (one edge per pair, one rank per edge) is kept |
| RuneGraph.Runes.AddEdge | main.cpp:190-193 | the new edge branch of `tally_edge`: the edge is appended with count 1, ranked and listed in the source's out-edges |
| RuneGraph.Runes.CountEdge | main.cpp:194-199 | the existing edge branch of `tally_edge`: only that edge's count and rank change, by one |
| RuneGraph.Runes.FindEdge | main.cpp:186-188 | finds the unique edge `from -> to` if there is one, and reports none exactly when no such edge exists |
| RuneGraph.Runes.StartsWith | main.cpp:132-155 | the empty prefix gives the empty range `(end, end)`. Otherwise a name lies in the returned range exactly when the prefix is a prefix of it. When every character of the prefix is the largest character, the upper bound is `end()` |
| RuneGraph.SuccessorBounds | main.cpp:139-154 | the names having a prefix are exactly those at or after it and before its successor, which is the prefix with its last non-maximal character raised by one |
| RuneGraph.FirstMaxUnique | main.cpp:163-173 | the first-maximum index of a count sequence is unique: no count is larger, and every earlier count is strictly smaller |
| RuneGraph.ScanOut | main.cpp:161-173 | the out-edge scan returns the out-edge at the first maximum of the counts (a strict `<`, so the earliest wins a tie) |
| RuneGraph.Runes.GuessOfFirstMax | main.cpp:157-176 | `guess_one` answers the root when the vertex has no out-edges, and otherwise the target of its first out-edge of largest count |
| RuneGraph.Runes.GuessOne | main.cpp:157-176 | the scan returns exactly `GuessOf(from)` |
| Watches.Expects | main.cpp:255-257 | defined only off the end; it is the character `advance` steps over |
| Watches.Advance | main.cpp:263-267 | `advance` moves exactly when not at the end, and then by one; the position stays within between 0 and the name's length and the edge, target and name are unchanged |
| Watches.AdvanceStopsAtEnd | main.cpp:259-267 | after n advances the position is the start plus n, capped at the name's length; once at the end, `advance` returns false and does not move |
| Watches.WatchLessTotal | main.cpp:239-246 | on watches where one edge means one name, the (edge, position) order is a strict total order |
| Watches.LeastWatch | main.cpp:239-246 | picks the watch least in (edge index, position) order, which stands in for the set's own order |
| Readers.Least | main.cpp:350-357 | picks the least element, which is the one a `std::set` of vertex descriptors visits first |
| Readers.Reader.constructor | main.cpp:275-287 | froms is the vertex named `start`, and there is one watch at the start of the name of each of its out-edges' targets. The graph changes exactly as `get_vertex(start)` changes it: nothing changes for a known name, and for a new one a single vertex with the next id, count 0 and that name is appended and mapped |
| Readers.Reader.Read | main.cpp:294-361 | establishes `ReadStep` from the old graph, froms and watches to the new ones, and keeps the reader invariant |
| Readers.Reader.ReadPlain | main.cpp:289-291 | `read(c)` is `read(c, FalsePredicate)` |
| Readers.ReadComposed | main.cpp:294-361 | the tally, watch, learn and spawn phases compose to `ReadStep`. The result keeps the invariant: no edge ends at the root, every watch tracks its edge short of the end, and the froms are vertices |
| Readers.ReadTalliesFroms | main.cpp:299-305 | after a read, the new froms contain the vertex named `[c]` and are non-empty, and every old from has an edge to it whose count went up by exactly one |
| Readers.RepresentativeStable | main.cpp:329-347 | once an edge's `rep_symbol_id` is nonzero, no read changes it |
| Readers.ReadWithoutLearning | main.cpp:329-347 | with `FalsePredicate`, a read adds at most one vertex, the one named `[c]`. It changes no representative, and the new froms are that vertex plus the targets of the completed watches |
| Readers.ReadWithEdgeLearner | main.cpp:418-425 | with `EdgeLearner`, a read gives an edge a new representative only if its count is at least ten. Every edge from an old from to c's vertex whose count reaches ten has a representative, and that vertex is among the new froms |
| Readers.Reader.TallyFroms | main.cpp:302-305 | each old from's edge to the character's vertex is tallied, and the traversed set is exactly those edges |
| Readers.Reader.ProcessWatches | main.cpp:307-328 | Watches are visited in (edge, position) order. A watch on a traversed edge is dropped, and so is one that mismatches `c`. A watch that completes tallies its edge, adds its target to `completed` and, if its edge has no representative, adds the edge to `traversed`. The other matching watches move one character on |
| Readers.Reader.Learn | main.cpp:329-348 | every traversed edge the predicate accepts points at the vertex named by joining its endpoints' names, created if absent. That vertex joins `completed`; the other edges keep their representative |
| Readers.Reader.Spawn | main.cpp:350-357 | each completed vertex is tallied once, and one watch is started on each of its out-edges |
| Readers.Reader.Guesses | main.cpp:365-367 | the guesses are vertices, and there are none exactly when there are no froms |
| Readers.Reader.Guess | main.cpp:363-384 | with no froms, returns the empty string. Otherwise returns the name of the guess with the largest vertex count, the first in vertex order among equals |
| Readers.FirstBest | main.cpp:373-382 | the second loop of `guess` returns a guess of largest count, and every guess before it has a smaller count |
| Tries.AppendCounts | trie.hpp:39-53 | adding a word adds one to its own count, one to the proper-prefix count of each proper prefix of it, and nothing elsewhere |
| Tries.Trie.constructor | trie.hpp:32 | an empty root node and no words added |
| Tries.Trie.AddWord | trie.hpp:34-53 | appends the word to the added words. Only the word's own node gains a `words` count, and only nodes on proper prefixes of it gain a `prefixes` count, by one each. Old nodes keep their paths, and new nodes are created only along the word's path |
| Tries.Trie.CountWords | trie.hpp:55-70 | returns how many times the word was added, 0 when the path leaves the trie, and modifies nothing |
| Tries.Trie.CountPrefixes | trie.hpp:72-87 | returns how many added words have the prefix as a proper prefix (so `""` counts the non-empty words), 0 when the path leaves the trie, and modifies nothing |
| Tries.Trie.NotFoundBelow | trie.hpp:60-87 | when a query's path leaves the trie, no added word equals it or extends it |
| Tries.PrefixedSplits | trie.hpp:39-53 | the words having p as a prefix are those equal to p plus those having p as a proper prefix |
| Tries.DriverCounts | main.cpp:451-458 | after adding "word", "worry" and "try", the proper-prefix counts of "worr", "wor" and "t" are 1, 2 and 1 |
| Tries.DriverExample | main.cpp:451-458 | the same driver run through `Trie`: `count_prefixes` returns 1, 2 and 1 |
| Suffixes.CompareIsSuffixOrder | suffix.hpp:26-32 | the comparator, with the equal-suffix case corrected, is exactly the strict lexicographic order of the suffixes |
| Suffixes.SourceCompareAgrees | suffix.hpp:26-32 | on distinct indices of a zero-free input with its sentinel, the comparator as written agrees with the corrected one |
| Suffixes.ComparatorStopsAtFirstDifference | suffix.hpp:26-32 | on distinct indices of a zero-free input, the comparator stops inside both suffixes at their first differing character, and that character decides |
| Suffixes.CompareAsymmetric | suffix.hpp:26-32 | the corrected comparator is irreflexive and asymmetric |
| Suffixes.SortIndices | suffix.hpp:26 | sorts the index array in place: a permutation of what it held, with no adjacent pair out of order |
| Suffixes.SuffixArray.constructor | suffix.hpp:21-33 | `word` is the input followed by one 0 sentinel; `suffix_indicies` is a permutation of the indices of `word` whose adjacent suffixes are strictly increasing |
| Suffixes.SortedPairwise | suffix.hpp:26-32 | in a sorted suffix array every earlier suffix is smaller than every later one, not just adjacent ones |
| Suffixes.PermutationDistinct | suffix.hpp:23-25 | a permutation of the indices holds no index twice |
| Suffixes.SentinelFirst | suffix.hpp:21-32 | on a zero-free input the sentinel's suffix comes first |
| Suffixes.SuffixArrayUnique | suffix.hpp:26-32 | two sorted permutations of the same indices are the same sequence, so the constructor's result is determined by the input |
| Suffixes.BananaSuffixArray | main.cpp:462-477 | the suffix array of "banana" is `[6, 5, 3, 1, 0, 4, 2]` |
| Suffixes.BananaDriver | main.cpp:462-477 | building `SuffixArray` on "banana" yields `[6, 5, 3, 1, 0, 4, 2]` |

## Left out

- Printing and I/O are not modelled: the printers, `operator<<`, `print_graph` and `main`'s output are formatting only.
- Boost serialization is not modelled: the `serialize` members are archive plumbing over a library this model does not include.
- Boost `adjacency_list` is not modelled as such. The graph is append-only sequences of vertices and edges, plus out-edge lists in insertion order.
- `Watch::operator<` first compares the addresses of the `Runes` objects, which every watch of one reader shares. It then compares edge descriptors, which Boost orders by the address of each edge's property object, and then positions. Addresses are not modelled, so watches are visited in (edge index, position) order. The result of the watch loop, `WatchesRead`, is stated over sets: the only order it depends on is that among watches of one edge, which is by position in both.
- A watch's string iterators become an index into a copy of the target's name. The iterators would dangle when the vertex vector reallocates.
- `Runes::get_reader` is not modelled: it only forwards to the `Reader` constructor, which is modelled.
- `Trie::destruct` and the destructor are not modelled: they only free memory, and the model keeps its nodes in an arena.
- `std::sort` is not modelled: an insertion sort stands in for it, and only the sortedness and permutation that `std::sort` promises are relied on.
- Characters are `wchar_t` values in `[0, 0x7FFFFFFF]`; negative `wchar_t` values are not modelled.
- Counts are unbounded; the wrap-around of the `uint64_t` counts and of the `id` counter is not modelled.
- Readers.Reader.Read: requires `c != 0`. The character 0 names the root, whose empty name would start watches already at their end, so `expects()` would read past the name. The program never reads 0.
- The learning loop hands every traversed edge to the predicate, including ones that already have a representative; `RepresentativeStable` shows that a representative, once set, never changes.
- `guess` compares the counts of the guessed vertices.
- The order of `std::set<edge_descriptor> traversed` is by property address, so it is not modelled: the learning loop visits the traversed edges in increasing edge index. When one read learns several compound symbols, the program may number them in a different order than the model. `ReadStep` leaves that numbering open, and nothing else observable depends on it: compound vertices are never edge targets, so `guess` is unaffected. The spawning loop visits `completed` in increasing vertex index, as the program does.

## Findings

| source | as written | input that shows it | evidently intended | confidence | as-written member | corrected member |
|---|---|---|---|---|---|---|
| suffix.hpp:27-29 | the comparator returns true as soon as the left suffix is exhausted, so `comp(i, i)` is true; `std::sort` requires a strict weak ordering, so the call is undefined behaviour | any word and any index `i`, e.g. `comp(0, 0)` on "banana" plus its sentinel | return true only when the right suffix is not exhausted too, making the comparator irreflexive | not executed | Suffixes.SourceCompareReflexive | Suffixes.CompareAsymmetric |
