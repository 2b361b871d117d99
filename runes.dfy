/** The adaptive symbol graph of main.cpp (class Runes). Vertices are the
    symbols, each a name with a use count; an edge from a to b counts how often
    b was read right after a, and may point at the compound symbol a.name +
    b.name that it was promoted into. The boost adjacency list becomes an
    arena: a vertex descriptor is an index into `vertices`, an edge descriptor
    an index into `edges`, and `outEdges[v]` lists v's out-edges in the order
    they were added. */
module RuneGraph {
  import opened Strings

  datatype Option<T> = None | Some(value: T)

  /** Symbol: id, name and use count of a vertex. */
  datatype Symbol = Symbol(id: nat, name: String, count: nat)

  /** An edge: its endpoints (the edge descriptor's source and target) and
      the bundled Edge property, count and rep_symbol_id. */
  datatype Edge = Edge(source: nat, target: nat, count: nat, repSymbolId: nat)

  /** The name get_vertex(wchar_t c) looks up: the character 0 stands for
      the empty name of the root. */
  function CharName(c: WChar): (r: String)
    ensures |r| <= 1 && (r == [] <==> c == 0)
  {
    if c == 0 then [] else [c]
  }

  /** The predicates read may be given. FalsePredicate never promotes. */
  predicate FalsePredicate(e: Edge) {
    false
  }

  /** EdgeLearner promotes an edge once it has been counted ten times. */
  predicate EdgeLearner(e: Edge) {
    e.count >= 10
  }

  /** An iterator of the name map: the result of lower_bound on a key, or end(). */
  datatype Position = LowerBound(key: String) | End

  /** The iterator pair starts_with returns. */
  datatype Range = Range(first: Position, last: Position)

  /** The keys of a std::map lying in [first, last): from lower_bound(a) on
      come the keys at or after a; lower_bound(b) stops before b. */
  predicate InRange(k: String, r: Range) {
    match r.first
    case End => false
    case LowerBound(a) => LexLeq(a, k) && (r.last.End? || LexLess(k, r.last.key))
  }

  /** k is the first position of a maximum of s: no element is larger and all
      earlier ones are smaller. */
  predicate IsFirstMax(s: seq<nat>, k: nat) {
    && k < |s|
    && (forall j :: 0 <= j < |s| ==> s[j] <= s[k])
    && (forall j :: 0 <= j < k ==> s[j] < s[k])
  }

  /** The index the argmax loop of guess_one settles on: a later element
      replaces the current best only when it is strictly larger. */
  function FirstMax(s: seq<nat>): (k: nat)
    requires |s| > 0
    ensures IsFirstMax(s, k)
    decreases |s|
  {
    if |s| == 1 then 0
    else
      var b := FirstMax(s[..|s| - 1]);
      if s[b] < s[|s| - 1] then |s| - 1 else b
  }

  /** IsFirstMax picks a single index, so FirstMax is the only answer. */
  lemma FirstMaxUnique(s: seq<nat>, k: nat)
    requires IsFirstMax(s, k)
    ensures k == FirstMax(s)
  {
  }

  /** The string starts_with computes as the upper end: the prefix up to
      position m, whose character is raised by one. Exactly the strings that
      prefix prefixes lie between prefix and it. */
  lemma SuccessorBounds(prefix: String, m: nat, q: String, k: String)
    requires m < |prefix| && prefix[m] < MaxChar
    requires forall j :: m < j < |prefix| ==> prefix[j] == MaxChar
    requires q == prefix[..m] + [prefix[m] + 1]
    ensures IsPrefix(prefix, k) <==> LexLeq(prefix, k) && LexLess(k, q)
  {
    var a := prefix[..m];
    var x := prefix[m];
    var tail := prefix[m + 1..];
    assert prefix == a + ([x] + tail);
    assert AllMax(tail);
    if IsPrefix(prefix, k) {
      PrefixIsLeq(prefix, k);
      assert k[..m] == a;
      assert k == a + k[m..];
      LexCommonPrefix(a, k[m..], [x + 1]);
      assert k[m..][0] == x;
    }
    if LexLeq(prefix, k) && LexLess(k, q) {
      assert IsPrefix(a, q) && IsPrefix(a, prefix);
      BetweenSharesPrefix(a, prefix, q, k);
      var rest := k[m..];
      assert k == a + rest;
      LexCommonPrefix(a, rest, [x + 1]);
      LexCommonPrefix(a, [x] + tail, rest);
      assert LexLeq([x] + tail, rest);
      assert LexLess(rest, [x + 1]);
      HeadThenTail(x, tail, rest);
      assert k[..|prefix|] == a + rest[..1 + |tail|];
    }
  }

  /** A string at or after [x] + tail and before [x + 1], with tail all
      MaxChar, starts with [x] + tail. */
  lemma HeadThenTail(x: WChar, tail: String, s: String)
    requires x < MaxChar && AllMax(tail)
    requires LexLeq([x] + tail, s) && LexLess(s, [x + 1])
    ensures IsPrefix([x] + tail, s)
  {
    assert |s| > 0;
    assert ([x] + tail)[1..] == tail;
    assert s[0] == x;
    AtLeastAllMax(tail, s[1..]);
    assert LexLeq(tail, s[1..]);
    assert s[..1 + |tail|] == [x] + s[1..][..|tail|];
  }

  /** The names in the map form a bijection with the vertices, which are
      numbered from 1 in the order they were created. */
  ghost predicate NamesIndexed(vertices: seq<Symbol>, vertexMap: map<String, nat>) {
    && (forall name :: name in vertexMap ==> vertexMap[name] < |vertices| && vertices[vertexMap[name]].name == name)
    && (forall v :: 0 <= v < |vertices| ==> vertices[v].name in vertexMap && vertexMap[vertices[v].name] == v)
    && (forall v :: 0 <= v < |vertices| ==> vertices[v].id == v + 1)
  }

  /** vertex_counts holds exactly one (count, v) per vertex, with its count. */
  ghost predicate RanksVertices(ranks: set<(nat, nat)>, vertices: seq<Symbol>) {
    && (forall p :: p in ranks ==> p.1 < |vertices| && p.0 == vertices[p.1].count)
    && (forall v :: 0 <= v < |vertices| ==> (vertices[v].count, v) in ranks)
  }

  /** edge_counts holds exactly one (count, e) per edge, with its count. */
  ghost predicate RanksEdges(ranks: set<(nat, nat)>, edges: seq<Edge>) {
    && (forall p :: p in ranks ==> p.1 < |edges| && p.0 == edges[p.1].count)
    && (forall e :: 0 <= e < |edges| ==> (edges[e].count, e) in ranks)
  }

  /** Edges join existing vertices, have been counted at least once, are
      unique per ordered pair, and a promoted edge names the vertex whose
      name joins its endpoints' names. */
  ghost predicate EdgesWellFormed(vertices: seq<Symbol>, edges: seq<Edge>) {
    && (forall e :: 0 <= e < |edges| ==>
          edges[e].source < |vertices| && edges[e].target < |vertices| && edges[e].count >= 1)
    && (forall e, f :: 0 <= e < f < |edges| ==>
          edges[e].source != edges[f].source || edges[e].target != edges[f].target)
    && (forall e :: 0 <= e < |edges| && edges[e].repSymbolId != 0 ==>
          && edges[e].repSymbolId - 1 < |vertices|
          && vertices[edges[e].repSymbolId - 1].name ==
               vertices[edges[e].source].name + vertices[edges[e].target].name)
  }

  /** outEdges[v] lists, in increasing order, exactly the edges leaving v. */
  ghost predicate Adjacent(outEdges: seq<seq<nat>>, edges: seq<Edge>, n: nat) {
    && |outEdges| == n
    && (forall v, k :: 0 <= v < n && 0 <= k < |outEdges[v]| ==>
          outEdges[v][k] < |edges| && edges[outEdges[v][k]].source == v)
    && (forall v, k, l :: 0 <= v < n && 0 <= k < l < |outEdges[v]| ==> outEdges[v][k] < outEdges[v][l])
    && (forall e :: 0 <= e < |edges| && edges[e].source < n ==> e in outEdges[edges[e].source])
  }

  /** Nothing about the vertices that were there is lost but their counts. */
  ghost predicate VerticesKept(before: seq<Symbol>, after: seq<Symbol>) {
    && |before| <= |after|
    && (forall v :: 0 <= v < |before| ==> after[v].name == before[v].name && after[v].id == before[v].id)
  }

  /** Nothing about the edges that were there is lost but their counts and
      representatives. */
  ghost predicate EdgesKept(before: seq<Edge>, after: seq<Edge>) {
    && |before| <= |after|
    && (forall e :: 0 <= e < |before| ==> after[e].source == before[e].source && after[e].target == before[e].target)
  }

  /** The facts each store operation needs to keep the invariant, one
      component at a time. */
  lemma NamesGrow(vertices: seq<Symbol>, vertexMap: map<String, nat>, name: String)
    requires NamesIndexed(vertices, vertexMap) && name !in vertexMap
    ensures NamesIndexed(vertices + [Symbol(|vertices| + 1, name, 0)], vertexMap[name := |vertices|])
  {
  }

  lemma RanksVerticesGrow(ranks: set<(nat, nat)>, vertices: seq<Symbol>, s: Symbol)
    requires RanksVertices(ranks, vertices) && s.count == 0
    ensures RanksVertices(ranks + {(0, |vertices|)}, vertices + [s])
  {
  }

  lemma WellFormedGrowsVertices(vertices: seq<Symbol>, edges: seq<Edge>, s: Symbol)
    requires EdgesWellFormed(vertices, edges)
    ensures EdgesWellFormed(vertices + [s], edges)
  {
  }

  lemma AdjacentGrowsVertices(outEdges: seq<seq<nat>>, edges: seq<Edge>, n: nat)
    requires Adjacent(outEdges, edges, n)
    requires forall e :: 0 <= e < |edges| ==> edges[e].source < n
    ensures Adjacent(outEdges + [[]], edges, n + 1)
  {
  }

  lemma VertexTallied(vertexMap: map<String, nat>, ranks: set<(nat, nat)>, vertices: seq<Symbol>, edges: seq<Edge>, v: nat)
    requires NamesIndexed(vertices, vertexMap) && RanksVertices(ranks, vertices) && EdgesWellFormed(vertices, edges)
    requires v < |vertices|
    ensures var c := vertices[v].count;
            var after := vertices[v := vertices[v].(count := c + 1)];
            && NamesIndexed(after, vertexMap)
            && RanksVertices(ranks - {(c, v)} + {(c + 1, v)}, after)
            && EdgesWellFormed(after, edges)
  {
  }

  lemma EdgeAdded(vertices: seq<Symbol>, outEdges: seq<seq<nat>>, ranks: set<(nat, nat)>, edges: seq<Edge>, from: nat, to: nat)
    requires EdgesWellFormed(vertices, edges) && RanksEdges(ranks, edges) && Adjacent(outEdges, edges, |vertices|)
    requires from < |vertices| && to < |vertices|
    requires forall e :: 0 <= e < |edges| ==> !(edges[e].source == from && edges[e].target == to)
    ensures var after := edges + [Edge(from, to, 1, 0)];
            && EdgesWellFormed(vertices, after)
            && RanksEdges(ranks + {(1, |edges|)}, after)
            && Adjacent(outEdges[from := outEdges[from] + [|edges|]], after, |vertices|)
  {
    AdjacentGrowsEdges(outEdges, edges, |vertices|, from, to);
  }

  lemma AdjacentGrowsEdges(outEdges: seq<seq<nat>>, edges: seq<Edge>, n: nat, from: nat, to: nat)
    requires Adjacent(outEdges, edges, n) && from < n
    ensures Adjacent(outEdges[from := outEdges[from] + [|edges|]], edges + [Edge(from, to, 1, 0)], n)
  {
    var after := edges + [Edge(from, to, 1, 0)];
    var out := outEdges[from := outEdges[from] + [|edges|]];
    forall e | 0 <= e < |after| && after[e].source < n
      ensures e in out[after[e].source]
    {
      if e < |edges| {
        assert e in outEdges[edges[e].source];
      } else {
        assert out[from][|outEdges[from]|] == e;
      }
    }
  }

  lemma EdgeCounted(vertices: seq<Symbol>, outEdges: seq<seq<nat>>, ranks: set<(nat, nat)>, edges: seq<Edge>, e: nat)
    requires EdgesWellFormed(vertices, edges) && RanksEdges(ranks, edges) && Adjacent(outEdges, edges, |vertices|)
    requires e < |edges|
    ensures var c := edges[e].count;
            var after := edges[e := edges[e].(count := c + 1)];
            && EdgesWellFormed(vertices, after)
            && RanksEdges(ranks - {(c, e)} + {(c + 1, e)}, after)
            && Adjacent(outEdges, after, |vertices|)
  {
  }

  class Runes {
    var vertices: seq<Symbol>
    var edges: seq<Edge>
    var outEdges: seq<seq<nat>>
    var vertexMap: map<String, nat>
    var vertexCounts: set<(nat, nat)>
    var edgeCounts: set<(nat, nat)>
    /** The id given to the last vertex created. */
    var id: nat

    ghost predicate Consistent()
      reads this
    {
      && NamesIndexed(vertices, vertexMap)
      && id == |vertices|
      && RanksVertices(vertexCounts, vertices)
      && RanksEdges(edgeCounts, edges)
      && EdgesWellFormed(vertices, edges)
      && Adjacent(outEdges, edges, |vertices|)
    }

    /** Consistent, and the root created by the constructor is vertex 0 with
        the empty name. */
    ghost predicate Valid()
      reads this
    {
      Consistent() && |vertices| > 0 && vertices[0].name == []
    }

    /** The constructor: an empty graph, then get_vertex(0) creates the root. */
    constructor ()
      ensures Valid()
      ensures vertices == [Symbol(1, [], 0)] && edges == [] && outEdges == [[]]
      ensures vertexMap == map[[] := 0] && vertexCounts == {(0, 0)} && edgeCounts == {}
    {
      vertices := [];
      edges := [];
      outEdges := [];
      vertexMap := map[];
      vertexCounts := {};
      edgeCounts := {};
      id := 0;
      new;
      var root := GetVertexChar(0);
    }

    /** get_vertex(wstring): the vertex of that name, created with the next
        id and count 0 when the name is new. */
    method GetVertex(name: String) returns (v: nat)
      requires Consistent()
      modifies this
      ensures Consistent()
      ensures v < |vertices| && vertices[v].name == name && name in vertexMap && vertexMap[name] == v
      ensures name in old(vertexMap) ==> v == old(vertexMap[name]) && unchanged(this)
      ensures name !in old(vertexMap) ==>
                && v == old(|vertices|)
                && vertices == old(vertices) + [Symbol(old(id) + 1, name, 0)]
                && vertexMap == old(vertexMap)[name := v]
                && vertexCounts == old(vertexCounts) + {(0, v)}
                && outEdges == old(outEdges) + [[]]
                && id == old(id) + 1
                && edges == old(edges) && edgeCounts == old(edgeCounts)
    {
      if name in vertexMap {
        return vertexMap[name];
      }
      v := |vertices|;
      NamesGrow(vertices, vertexMap, name);
      RanksVerticesGrow(vertexCounts, vertices, Symbol(id + 1, name, 0));
      WellFormedGrowsVertices(vertices, edges, Symbol(id + 1, name, 0));
      AdjacentGrowsVertices(outEdges, edges, |vertices|);
      vertices := vertices + [Symbol(id + 1, name, 0)];
      outEdges := outEdges + [[]];
      vertexMap := vertexMap[name := v];
      id := id + 1;
      vertexCounts := vertexCounts + {(0, v)};
    }

    /** get_vertex(wchar_t): the vertex named by the one character, the root
        for character 0. */
    method GetVertexChar(c: WChar) returns (v: nat)
      requires Consistent()
      modifies this
      ensures Consistent()
      ensures v < |vertices| && vertices[v].name == CharName(c) && CharName(c) in vertexMap && vertexMap[CharName(c)] == v
      ensures CharName(c) in old(vertexMap) ==> v == old(vertexMap[CharName(c)]) && unchanged(this)
      ensures CharName(c) !in old(vertexMap) ==>
                && v == old(|vertices|)
                && vertices == old(vertices) + [Symbol(old(id) + 1, CharName(c), 0)]
                && vertexMap == old(vertexMap)[CharName(c) := v]
                && vertexCounts == old(vertexCounts) + {(0, v)}
                && outEdges == old(outEdges) + [[]]
                && id == old(id) + 1
                && edges == old(edges) && edgeCounts == old(edgeCounts)
    {
      if c == 0 {
        v := GetVertex([]);
      } else {
        v := GetVertex([c]);
      }
    }

    /** boost::edge(from, to): the first out-edge of from that ends at to. */
    function FindEdge(from: nat, to: nat): (r: Option<nat>)
      reads this
      requires Consistent() && from < |vertices|
      ensures r.Some? ==> r.value < |edges| && edges[r.value].source == from && edges[r.value].target == to
      ensures r.None? <==> forall e :: 0 <= e < |edges| ==> !(edges[e].source == from && edges[e].target == to)
    {
      FindIn(outEdges[from], from, to)
    }

    function FindIn(list: seq<nat>, from: nat, to: nat): (r: Option<nat>)
      reads this
      requires Consistent() && from < |vertices| && forall k :: 0 <= k < |list| ==> list[k] in outEdges[from]
      ensures r.Some? ==> r.value in list && r.value < |edges| && edges[r.value].source == from && edges[r.value].target == to
      ensures r.None? ==> forall k :: 0 <= k < |list| ==> edges[list[k]].target != to
      decreases |list|
    {
      if |list| == 0 then None
      else if edges[list[0]].target == to then Some(list[0])
      else FindIn(list[1..], from, to)
    }

    /** tally_vertex: the vertex's count goes up by one, and its entry in
        vertex_counts moves with it. */
    method TallyVertex(v: nat)
      requires Consistent() && v < |vertices|
      modifies this
      ensures Consistent()
      ensures vertices == old(vertices)[v := old(vertices[v]).(count := old(vertices[v].count) + 1)]
      ensures vertexCounts == old(vertexCounts) - {(old(vertices[v].count), v)} + {(old(vertices[v].count) + 1, v)}
      ensures edges == old(edges) && outEdges == old(outEdges) && vertexMap == old(vertexMap)
      ensures edgeCounts == old(edgeCounts) && id == old(id)
    {
      var count := vertices[v].count;
      VertexTallied(vertexMap, vertexCounts, vertices, edges, v);
      vertexCounts, vertices := vertexCounts - {(count, v)} + {(count + 1, v)}, vertices[v := vertices[v].(count := count + 1)];
    }

    /** tally_edge: counts the edge from from to to, adding it with count 1
        when there is none; returns it. */
    method TallyEdge(from: nat, to: nat) returns (e: nat)
      requires Consistent() && from < |vertices| && to < |vertices|
      modifies this
      ensures Consistent()
      ensures e < |edges| && edges[e].source == from && edges[e].target == to
      ensures FindEdge(from, to) == Some(e)
      ensures vertices == old(vertices) && vertexMap == old(vertexMap)
      ensures vertexCounts == old(vertexCounts) && id == old(id)
      ensures old(FindEdge(from, to)).Some? ==>
                && e == old(FindEdge(from, to)).value
                && edges == old(edges)[e := old(edges[e]).(count := old(edges[e].count) + 1)]
                && edgeCounts == old(edgeCounts) - {(old(edges[e].count), e)} + {(old(edges[e].count) + 1, e)}
                && outEdges == old(outEdges)
      ensures old(FindEdge(from, to)).None? ==>
                && e == old(|edges|)
                && edges == old(edges) + [Edge(from, to, 1, 0)]
                && edgeCounts == old(edgeCounts) + {(1, e)}
                && outEdges == old(outEdges)[from := old(outEdges[from]) + [e]]
    {
      var found := FindEdge(from, to);
      if found.None? {
        e := AddEdge(from, to);
      } else {
        e := found.value;
        CountEdge(e);
      }
      OnlyEdge(from, to, e);
    }

    /** The first branch of tally_edge: add_edge, with count 1. */
    method AddEdge(from: nat, to: nat) returns (e: nat)
      requires Consistent() && from < |vertices| && to < |vertices|
      requires forall f :: 0 <= f < |edges| ==> !(edges[f].source == from && edges[f].target == to)
      modifies this
      ensures Consistent()
      ensures e == old(|edges|)
      ensures edges == old(edges) + [Edge(from, to, 1, 0)]
      ensures edgeCounts == old(edgeCounts) + {(1, e)}
      ensures outEdges == old(outEdges)[from := old(outEdges[from]) + [e]]
      ensures vertices == old(vertices) && vertexMap == old(vertexMap)
      ensures vertexCounts == old(vertexCounts) && id == old(id)
    {
      e := |edges|;
      EdgeAdded(vertices, outEdges, edgeCounts, edges, from, to);
      edges := edges + [Edge(from, to, 1, 0)];
      outEdges := outEdges[from := outEdges[from] + [e]];
      edgeCounts := edgeCounts + {(1, e)};
    }

    /** The second branch of tally_edge: the count goes up by one and its
        entry in edge_counts moves with it. */
    method CountEdge(e: nat)
      requires Consistent() && e < |edges|
      modifies this
      ensures Consistent()
      ensures edges == old(edges)[e := old(edges[e]).(count := old(edges[e].count) + 1)]
      ensures edgeCounts == old(edgeCounts) - {(old(edges[e].count), e)} + {(old(edges[e].count) + 1, e)}
      ensures outEdges == old(outEdges)
      ensures vertices == old(vertices) && vertexMap == old(vertexMap)
      ensures vertexCounts == old(vertexCounts) && id == old(id)
    {
      var count := edges[e].count;
      EdgeCounted(vertices, outEdges, edgeCounts, edges, e);
      edgeCounts, edges := edgeCounts - {(count, e)} + {(count + 1, e)}, edges[e := edges[e].(count := count + 1)];
    }

    /** An edge with the given endpoints is the one FindEdge answers. */
    lemma OnlyEdge(from: nat, to: nat, e: nat)
      requires Consistent() && from < |vertices| && e < |edges|
      requires edges[e].source == from && edges[e].target == to
      ensures FindEdge(from, to) == Some(e)
    {
    }

    /** starts_with: the range of names that prefix prefixes, found as
        [lower_bound(prefix), lower_bound(q)) where q is prefix with its
        last character below MaxChar raised by one and the MaxChars after it
        dropped; when prefix is all MaxChar the range runs to end(). */
    method StartsWith(prefix: String) returns (r: Range)
      ensures prefix == [] ==> r == Range(End, End)
      ensures prefix != [] ==> r.first == LowerBound(prefix)
      ensures forall k :: InRange(k, r) <==> prefix != [] && IsPrefix(prefix, k)
      ensures AllMax(prefix) ==> r.last == End
    {
      if |prefix| == 0 {
        return Range(End, End);
      }
      var b := LowerBound(prefix);
      var e := End;
      var p: String := prefix;
      ghost var m: int := -1;
      while |p| > 0
        invariant IsPrefix(p, prefix) && m == -1
        invariant forall j :: |p| <= j < |prefix| ==> prefix[j] == MaxChar
      {
        if p[|p| - 1] < MaxChar {
          m := |p| - 1;
          p := p[..|p| - 1] + [p[|p| - 1] + 1];
          break;
        } else {
          p := p[..|p| - 1];
        }
      }
      if |p| > 0 {
        e := LowerBound(p);
      }
      r := Range(b, e);
      if m == -1 {
        assert p == [] && AllMax(prefix);
        forall k
          ensures InRange(k, r) <==> IsPrefix(prefix, k)
        {
          AtLeastAllMax(prefix, k);
        }
      } else {
        assert p == prefix[..m] + [prefix[m] + 1];
        forall k
          ensures InRange(k, r) <==> IsPrefix(prefix, k)
        {
          SuccessorBounds(prefix, m, p, k);
        }
      }
    }

    /** The counts of v's out-edges, in out-edge order. */
    ghost function OutCounts(v: nat): (r: seq<nat>)
      reads this
      requires Consistent() && v < |vertices|
      ensures |r| == |outEdges[v]|
    {
      EdgeCounts(edges, outEdges[v])
    }

    /** What guess_one answers for v: the target of its first out-edge of
        largest count, or the root when v has no out-edges. */
    ghost function GuessOf(v: nat): (r: nat)
      reads this
      requires Valid() && v < |vertices|
      ensures r < |vertices|
    {
      if |outEdges[v]| == 0 then 0
      else edges[outEdges[v][FirstMax(OutCounts(v))]].target
    }

    /** The guess for v is the root when v has no out-edges, and otherwise
        the target of an out-edge whose count is the first maximum. */
    lemma GuessOfFirstMax(v: nat)
      requires Valid() && v < |vertices|
      ensures |outEdges[v]| == 0 ==> GuessOf(v) == 0
      ensures |outEdges[v]| > 0 ==>
                exists k: nat :: IsFirstMax(OutCounts(v), k) && GuessOf(v) == edges[outEdges[v][k]].target
    {
      if |outEdges[v]| > 0 {
        var k := FirstMax(OutCounts(v));
        assert IsFirstMax(OutCounts(v), k);
      }
    }

    /** guess_one: scans from's out-edges, keeping the first of largest count. */
    method GuessOne(from: nat) returns (v: nat)
      requires Valid() && from < |vertices|
      ensures v == GuessOf(from)
    {
      var out := outEdges[from];
      if |out| == 0 {
        return vertexMap[[]];
      }
      var max := ScanOut(edges, out);
      v := edges[max].target;
    }
  }

  /** The counts of the edges out lists, in that order. */
  ghost function EdgeCounts(es: seq<Edge>, out: seq<nat>): (r: seq<nat>)
    requires forall k :: 0 <= k < |out| ==> out[k] < |es|
    ensures |r| == |out| && forall k :: 0 <= k < |out| ==> r[k] == es[out[k]].count
  {
    seq(|out|, k requires 0 <= k < |out| => es[out[k]].count)
  }

  /** The argmax loop of guess_one over the edges out: a later edge replaces
      the one kept only when its count is strictly larger. */
  method ScanOut(es: seq<Edge>, out: seq<nat>) returns (max: nat)
    requires |out| > 0 && forall k :: 0 <= k < |out| ==> out[k] < |es|
    ensures max == out[FirstMax(EdgeCounts(es, out))]
  {
    ghost var counts := EdgeCounts(es, out);
    max := out[0];
    var best: nat := 0;
    var count := es[max].count;
    var k := 1;
    while k < |out|
      invariant 1 <= k <= |out|
      invariant best == FirstMax(counts[..k]) && max == out[best] && count == counts[best]
    {
      assert counts[..k + 1][..k] == counts[..k];
      if count < es[out[k]].count {
        max := out[k];
        best := k;
        count := es[max].count;
      }
      k := k + 1;
    }
    assert counts[..k] == counts;
  }
}
