/** Runes::Reader of main.cpp: the online update engine. It keeps the set of
    vertices consistent with the characters read so far (froms) and the set of
    watches part-way through the name of an edge's target, and on each
    character tallies the edges and vertices it passes, lets a learning
    predicate promote counted edges into compound symbols, and spawns the
    watches for the next character. */
module Readers {
  import opened Strings
  import opened RuneGraph
  import opened Watches

  /** Watch(runes, e): a watch at the start of the name of e's target. */
  function StartWatch(vertices: seq<Symbol>, edges: seq<Edge>, e: nat): (w: Watch)
    requires e < |edges| && edges[e].target < |vertices|
    ensures w.edge == e && w.target == edges[e].target && w.position == 0
    ensures w.name == vertices[edges[e].target].name
  {
    Watch(e, edges[e].target, vertices[edges[e].target].name, 0)
  }

  /** w follows its edge's target name and has not reached its end. */
  ghost predicate Tracks(vertices: seq<Symbol>, edges: seq<Edge>, w: Watch) {
    && w.edge < |edges|
    && w.target == edges[w.edge].target
    && w.target < |vertices|
    && w.name == vertices[w.target].name
    && w.position < |w.name|
  }

  /** Every watch of ws tracks its edge. */
  ghost predicate AllTrack(vertices: seq<Symbol>, edges: seq<Edge>, ws: set<Watch>) {
    forall w :: w in ws ==> Tracks(vertices, edges, w)
  }

  /** No edge ends at the root: the root has the empty name, and a watch on
      such an edge would start at its end. */
  ghost predicate RootUntargeted(edges: seq<Edge>) {
    forall e :: 0 <= e < |edges| ==> edges[e].target != 0
  }

  /** The watches started on every out-edge of the vertices ks. */
  ghost function Spawned(vertices: seq<Symbol>, edges: seq<Edge>, ks: set<nat>): set<Watch> {
    set e | 0 <= e < |edges| && edges[e].source in ks && edges[e].target < |vertices| :: StartWatch(vertices, edges, e)
  }

  /** The edges from any of fs to v. */
  ghost function FromEdges(edges: seq<Edge>, fs: set<nat>, v: nat): set<nat> {
    set e | 0 <= e < |edges| && edges[e].source in fs && edges[e].target == v
  }

  /** The watch's edge was not traversed from a from and it expects c. */
  ghost predicate Hits(w: Watch, t0: set<nat>, c: WChar) {
    w.edge !in t0 && w.position < |w.name| && w.name[w.position] == c
  }

  /** Reading c takes the watch to the end of its name. */
  ghost predicate Completes(w: Watch, t0: set<nat>, c: WChar) {
    Hits(w, t0, c) && w.position + 1 == |w.name|
  }

  /** The watches that c advances and that still have a way to go. */
  ghost function Moved(ws: set<Watch>, t0: set<nat>, c: WChar): set<Watch> {
    set w | w in ws && Hits(w, t0, c) && w.position + 1 < |w.name| :: w.(position := w.position + 1)
  }

  /** The targets of the watches that c completes. */
  ghost function CompletedTargets(ws: set<Watch>, t0: set<nat>, c: WChar): set<nat> {
    set w | w in ws && Completes(w, t0, c) :: w.target
  }

  /** The edges of the watches that c completes. */
  ghost function CompletedEdges(ws: set<Watch>, t0: set<nat>, c: WChar): set<nat> {
    set w | w in ws && Completes(w, t0, c) :: w.edge
  }

  /** The completed edges that have no representative yet. */
  ghost function Unpromoted(ws: set<Watch>, t0: set<nat>, c: WChar, edges: seq<Edge>): set<nat> {
    set w | w in ws && Completes(w, t0, c) && w.edge < |edges| && edges[w.edge].repSymbolId == 0 :: w.edge
  }

  /** The name of the symbol an edge is promoted into. */
  function JoinedName(vertices: seq<Symbol>, edges: seq<Edge>, e: nat): (r: String)
    requires e < |edges| && edges[e].source < |vertices| && edges[e].target < |vertices|
    ensures |r| == |vertices[edges[e].source].name| + |vertices[edges[e].target].name|
  {
    vertices[edges[e].source].name + vertices[edges[e].target].name
  }

  /** The element a std::set of vertex descriptors visits first; sets of
      edge descriptors are visited in the same index order here. */
  method Least(s: set<nat>) returns (m: nat)
    requires s != {}
    ensures m in s && forall x :: x in s ==> m <= x
  {
    m :| m in s;
    var rest := s - {m};
    while rest != {}
      invariant rest <= s && m in s
      invariant forall x :: x in s - rest ==> m <= x
      decreases |rest|
    {
      var x :| x in rest;
      ghost var done := s - rest;
      if x < m {
        m := x;
      }
      rest := rest - {x};
      assert s - rest == done + {x};
    }
    assert s - rest == s;
  }

  class Reader {
    var froms: set<nat>
    var watches: set<Watch>
    const runes: Runes

    ghost predicate Valid()
      reads this, runes
    {
      && runes.Valid()
      && RootUntargeted(runes.edges)
      && (forall f :: f in froms ==> f < |runes.vertices|)
      && AllTrack(runes.vertices, runes.edges, watches)
    }

    /** Reader(runes, start): starts from the vertex named start, created if
        new, with a watch on each of its out-edges. */
    constructor (runes: Runes, start: String)
      requires runes.Valid() && RootUntargeted(runes.edges)
      modifies runes
      ensures Valid() && this.runes == runes
      ensures start in runes.vertexMap && froms == {runes.vertexMap[start]}
      ensures watches == Spawned(runes.vertices, runes.edges, froms)
      ensures VerticesKept(old(runes.vertices), runes.vertices) && runes.edges == old(runes.edges)
      ensures start in old(runes.vertexMap) ==>
                runes.vertices == old(runes.vertices) && runes.vertexMap == old(runes.vertexMap) && runes.id == old(runes.id)
      ensures start !in old(runes.vertexMap) ==>
                && runes.vertices == old(runes.vertices) + [Symbol(old(runes.id) + 1, start, 0)]
                && runes.vertexMap == old(runes.vertexMap)[start := old(|runes.vertices|)]
                && runes.id == old(runes.id) + 1
    {
      var v := runes.GetVertex(start);
      this.runes := runes;
      froms := {v};
      var spawned := WatchOutEdges(runes.vertices, runes.edges, runes.outEdges, v, {});
      watches := spawned;
      new;
      SpawnedTracks(runes.vertices, runes.vertexMap, runes.edges, froms);
    }

    /** read(c, predicate): the per-character update. The character's vertex
        is looked up (created when new) and completed; the edge from every
        from to it is tallied; the watches are advanced, dropped or
        completed; the traversed edges the predicate accepts are promoted;
        every completed vertex is tallied and spawns watches on its out-edges;
        and the completed vertices and carried watches replace froms and
        watches. The character 0, which maps to the root, is never read. */
    method Read(c: WChar, accept: Edge -> bool)
      requires Valid() && c != 0
      modifies this, runes
      ensures Valid()
      ensures ReadStep(old(runes.vertices), old(runes.edges), old(froms), old(watches), c, accept,
                       runes.vertices, runes.edges, runes.vertexMap, froms, watches)
    {
      var completed, spawned;
      ghost var vc, traversed, moved, V1, M1, E1, T0, E2, C1, V3, E3, M3, V4;
      completed, spawned, vc, traversed, moved, V1, M1, E1, T0, E2, C1, V3, E3, M3, V4 :=
        Traverse(c, accept, old(runes.vertices), old(runes.edges), old(runes.vertexMap), old(froms), old(watches));
      ReadComposed(old(runes.vertices), old(runes.edges), old(runes.vertexMap), old(froms), old(watches),
                   c, accept, vc, V1, M1, E1, T0, E2, traversed, C1, moved,
                   V3, E3, M3, completed, V4, spawned);
      Install(completed, spawned);
    }

    /** The end of read: the completed vertices become the froms and the
        carried watches the watches. */
    method Install(completed: set<nat>, spawned: set<Watch>)
      requires runes.Valid() && RootUntargeted(runes.edges)
      requires (forall f :: f in completed ==> f < |runes.vertices|) && AllTrack(runes.vertices, runes.edges, spawned)
      modifies `froms, `watches
      ensures Valid() && froms == completed && watches == spawned
      ensures runes.vertices == old(runes.vertices) && runes.edges == old(runes.edges)
      ensures runes.vertexMap == old(runes.vertexMap)
    {
      froms, watches := completed, spawned;
    }

    /** The four loops of read, from the reader (V0, E0, M0, F0, W0): the
        froms, the watches, the learning loop and the completed vertices,
        with the states in between. */
    method Traverse(c: WChar, accept: Edge -> bool, ghost V0: seq<Symbol>, ghost E0: seq<Edge>,
                    ghost M0: map<String, nat>, ghost F0: set<nat>, ghost W0: set<Watch>)
      returns (completed: set<nat>, spawned: set<Watch>, vc: nat, traversed: set<nat>, moved: set<Watch>,
               ghost V1: seq<Symbol>, ghost M1: map<String, nat>, ghost E1: seq<Edge>, T0: set<nat>,
               ghost E2: seq<Edge>, C1: set<nat>, ghost V3: seq<Symbol>, ghost E3: seq<Edge>,
               ghost M3: map<String, nat>, ghost V4: seq<Symbol>)
      requires Valid() && c != 0
      requires V0 == runes.vertices && E0 == runes.edges && M0 == runes.vertexMap && F0 == froms && W0 == watches
      modifies `watches, runes
      ensures runes.Consistent() && runes.vertices == V4 && runes.edges == E3 && runes.vertexMap == M3
      ensures vc < |V1| && V1[vc].name == [c]
      ensures V1 == V0 || (V1 == V0 + [Symbol(|V0| + 1, [c], 0)] && vc == |V0|)
      ensures NamesIndexed(V1, M1) && EdgesWellFormed(V1, E1)
      ensures FromTallied(E0, E1, F0, vc, T0)
      ensures WatchesRead(E1, E2, W0, T0, c, {vc}, traversed, C1, moved) && EdgesWellFormed(V1, E2)
      ensures Promoted(V1, E2, V3, E3, M3, traversed, accept, C1, completed)
      ensures VerticesTallied(V3, V4, completed) && spawned == moved + Spawned(V4, E3, completed)
      ensures NamesIndexed(V4, M3) && EdgesWellFormed(V4, E3)
    {
      vc, T0, V1, M1, E1 := EnterPhase(c, V0, E0, F0, W0);
      traversed, C1, moved, E2 := WatchPhase(c, T0, vc, V1, E1, W0);
      completed, V3, E3, M3 := LearnPhase(accept, traversed, C1, V1, E2);
      CompletedBounded(V1, E1, W0, T0, c, vc, C1, E2, V3, E3, M3, traversed, accept, completed);
      spawned, V4 := SpawnPhase(completed, moved, V3, E3, M3);
    }

    /** The start of read and its first loop: the vertex of c is looked up,
        then the edge from each from to it is tallied. */
    method EnterPhase(c: WChar, ghost V0: seq<Symbol>, ghost E0: seq<Edge>, ghost F0: set<nat>, ghost W0: set<Watch>)
      returns (vc: nat, T0: set<nat>, ghost V1: seq<Symbol>, ghost M1: map<String, nat>, ghost E1: seq<Edge>)
      requires Valid() && c != 0
      requires V0 == runes.vertices && E0 == runes.edges && F0 == froms && W0 == watches
      modifies runes
      ensures runes.Consistent() && runes.vertices == V1 && runes.vertexMap == M1 && runes.edges == E1
      ensures vc < |V1| && V1[vc].name == [c]
      ensures V1 == V0 || (V1 == V0 + [Symbol(|V0| + 1, [c], 0)] && vc == |V0|)
      ensures NamesIndexed(V1, M1) && EdgesWellFormed(V1, E1) && AllTrack(V1, E1, W0)
      ensures FromTallied(E0, E1, F0, vc, T0) && forall e :: e in T0 ==> e < |E1|
    {
      vc, V1, M1 := EnterVertex(c, V0, E0, W0);
      T0, E1 := EnterFroms(vc, V1, M1, E0, F0, W0);
    }

    /** get_vertex(c) at the start of read. */
    method EnterVertex(c: WChar, ghost V0: seq<Symbol>, ghost E0: seq<Edge>, ghost W0: set<Watch>)
      returns (vc: nat, ghost V1: seq<Symbol>, ghost M1: map<String, nat>)
      requires Valid() && c != 0
      requires V0 == runes.vertices && E0 == runes.edges && W0 == watches
      modifies runes
      ensures runes.Consistent() && runes.vertices == V1 && runes.vertexMap == M1 && runes.edges == E0
      ensures vc < |V1| && V1[vc].name == [c]
      ensures V1 == V0 || (V1 == V0 + [Symbol(|V0| + 1, [c], 0)] && vc == |V0|)
      ensures NamesIndexed(V1, M1) && AllTrack(V1, E0, W0) && forall f :: f in froms ==> f < |V1|
    {
      vc := runes.GetVertexChar(c);
      V1, M1 := runes.vertices, runes.vertexMap;
      TracksGrow(V0, E0, V1, E0, W0);
    }

    /** The loop over the froms at the start of read, after get_vertex(c). */
    method EnterFroms(vc: nat, ghost V1: seq<Symbol>, ghost M1: map<String, nat>, ghost E0: seq<Edge>,
                      ghost F0: set<nat>, ghost W0: set<Watch>)
      returns (T0: set<nat>, ghost E1: seq<Edge>)
      requires runes.Consistent() && runes.vertices == V1 && runes.vertexMap == M1 && runes.edges == E0 && froms == F0
      requires vc < |V1| && (forall f :: f in F0 ==> f < |V1|) && AllTrack(V1, E0, W0)
      modifies runes
      ensures runes.Consistent() && runes.vertices == V1 && runes.vertexMap == M1 && runes.edges == E1
      ensures EdgesWellFormed(V1, E1) && AllTrack(V1, E1, W0)
      ensures FromTallied(E0, E1, F0, vc, T0) && forall e :: e in T0 ==> e < |E1|
    {
      T0 := TallyFroms(vc);
      E1 := runes.edges;
      TracksGrow(V1, E0, V1, E1, W0);
    }

    /** The second loop of read: every watch is advanced, dropped or
        completed on c. */
    method WatchPhase(c: WChar, T0: set<nat>, vc: nat, ghost V1: seq<Symbol>, ghost E1: seq<Edge>, ghost W0: set<Watch>)
      returns (traversed: set<nat>, completed: set<nat>, moved: set<Watch>, ghost E2: seq<Edge>)
      requires runes.Consistent() && runes.vertices == V1 && runes.edges == E1 && watches == W0
      requires AllTrack(V1, E1, W0) && forall e :: e in T0 ==> e < |E1|
      modifies `watches, runes
      ensures runes.Consistent() && runes.vertices == V1 && runes.vertexMap == old(runes.vertexMap) && runes.edges == E2
      ensures WatchesRead(E1, E2, W0, T0, c, {vc}, traversed, completed, moved) && EdgesWellFormed(V1, E2)
      ensures forall e :: e in traversed ==> e < |E2|
    {
      traversed, completed, moved := ProcessWatches(c, T0, {vc});
      E2 := runes.edges;
      TraversedBounded(E1, E2, W0, T0, c, {vc}, traversed, completed, moved);
    }

    /** The learning loop, from the vertices V1 and edges E2 to V3, E3, M3. */
    method LearnPhase(accept: Edge -> bool, traversed: set<nat>, completed0: set<nat>, ghost V1: seq<Symbol>, ghost E2: seq<Edge>)
      returns (completed: set<nat>, ghost V3: seq<Symbol>, ghost E3: seq<Edge>, ghost M3: map<String, nat>)
      requires runes.Consistent() && runes.vertices == V1 && runes.edges == E2
      requires forall e :: e in traversed ==> e < |E2|
      modifies runes
      ensures runes.Consistent() && runes.vertices == V3 && runes.edges == E3 && runes.vertexMap == M3
      ensures Promoted(V1, E2, V3, E3, M3, traversed, accept, completed0, completed) && NamesIndexed(V3, M3)
    {
      completed := Learn(accept, traversed, completed0);
      V3, E3, M3 := runes.vertices, runes.edges, runes.vertexMap;
    }

    /** The loop over the completed vertices, from V3 to V4. */
    method SpawnPhase(completed: set<nat>, moved: set<Watch>, ghost V3: seq<Symbol>, ghost E3: seq<Edge>, ghost M3: map<String, nat>)
      returns (spawned: set<Watch>, ghost V4: seq<Symbol>)
      requires runes.Consistent() && runes.vertices == V3 && runes.edges == E3 && runes.vertexMap == M3
      requires forall k :: k in completed ==> k < |V3|
      modifies runes
      ensures runes.Consistent() && runes.vertices == V4 && runes.edges == E3 && runes.vertexMap == M3
      ensures VerticesTallied(V3, V4, completed) && spawned == moved + Spawned(V4, E3, completed)
      ensures NamesIndexed(V4, M3) && EdgesWellFormed(V4, E3)
    {
      spawned := Spawn(completed, moved);
      V4 := runes.vertices;
    }

    /** read(c): read with FalsePredicate, which never promotes an edge. */
    method ReadPlain(c: WChar)
      requires Valid() && c != 0
      modifies this, runes
      ensures Valid()
      ensures ReadStep(old(runes.vertices), old(runes.edges), old(froms), old(watches), c, FalsePredicate,
                       runes.vertices, runes.edges, runes.vertexMap, froms, watches)
    {
      Read(c, FalsePredicate);
    }

    /** What guess_one answers for each from. */
    ghost function Guesses(): (gs: set<nat>)
      reads this, runes
      requires Valid()
      ensures forall g :: g in gs ==> g < |runes.vertices|
      ensures gs == {} <==> froms == {}
    {
      var gs := set m | m in froms :: runes.GuessOf(m);
      assert froms != {} ==> exists m :: m in froms && runes.GuessOf(m) in gs;
      gs
    }

    /** guess: the name of the guess of largest count, the first in vertex
        order among equals, or the empty string when there is no from. */
    method Guess() returns (name: String)
      requires Valid()
      ensures froms == {} ==> name == []
      ensures froms != {} ==> exists v: nat :: IsFirstBest(runes.vertices, Guesses(), v) && name == runes.vertices[v].name
    {
      var guesses := CollectGuesses();
      if guesses == {} {
        return [];
      }
      var v := FirstBest(runes.vertices, guesses);
      name := runes.vertices[v].name;
      assert IsFirstBest(runes.vertices, Guesses(), v);
    }

    /** The first loop of guess: guess_one for each from, in increasing order. */
    method CollectGuesses() returns (guesses: set<nat>)
      requires Valid()
      ensures guesses == Guesses()
    {
      guesses := {};
      var rest := froms;
      while rest != {}
        invariant rest <= froms
        invariant guesses == set m | m in froms - rest :: runes.GuessOf(m)
        decreases |rest|
      {
        var m := Least(rest);
        guesses := CollectNext(m, rest, guesses);
        rest := rest - {m};
      }
      assert froms - rest == froms;
    }

    /** One turn of the first loop of guess, on the from m. */
    method CollectNext(m: nat, ghost rest: set<nat>, guesses0: set<nat>) returns (guesses: set<nat>)
      requires Valid() && rest <= froms && m in rest
      requires guesses0 == set x | x in froms - rest :: runes.GuessOf(x)
      ensures guesses == set x | x in froms - (rest - {m}) :: runes.GuessOf(x)
    {
      var g := runes.GuessOne(m);
      guesses := guesses0 + {g};
      assert froms - (rest - {m}) == (froms - rest) + {m};
    }

    /** The first loop of read: for each from, in increasing order, the edge
        from it to vc is tallied and marked traversed. */
    method TallyFroms(vc: nat) returns (traversed: set<nat>)
      requires runes.Consistent() && vc < |runes.vertices|
      requires forall f :: f in froms ==> f < |runes.vertices|
      modifies runes
      ensures runes.Consistent()
      ensures runes.vertices == old(runes.vertices) && runes.vertexMap == old(runes.vertexMap)
      ensures FromTallied(old(runes.edges), runes.edges, froms, vc, traversed)
    {
      ghost var E0 := runes.edges;
      traversed := {};
      var rest := froms;
      FromTalliedStart(E0, froms, vc);
      while rest != {}
        invariant rest <= froms
        invariant runes.Consistent()
        invariant runes.vertices == old(runes.vertices) && runes.vertexMap == old(runes.vertexMap)
        invariant FromTallied(E0, runes.edges, froms - rest, vc, traversed)
        decreases |rest|
      {
        var m := Least(rest);
        traversed := TallyNextFrom(vc, m, E0, rest, traversed);
        rest := rest - {m};
      }
      assert froms - rest == froms;
    }

    /** One turn of the first loop of read, on the from m. */
    method TallyNextFrom(vc: nat, m: nat, ghost E0: seq<Edge>, ghost rest: set<nat>, traversed0: set<nat>)
      returns (traversed: set<nat>)
      requires runes.Consistent() && vc < |runes.vertices|
      requires rest <= froms && m in rest && forall f :: f in froms ==> f < |runes.vertices|
      requires FromTallied(E0, runes.edges, froms - rest, vc, traversed0)
      modifies runes
      ensures runes.Consistent()
      ensures runes.vertices == old(runes.vertices) && runes.vertexMap == old(runes.vertexMap)
      ensures FromTallied(E0, runes.edges, froms - (rest - {m}), vc, traversed)
    {
      ghost var before := runes.edges;
      var e := TallyFrom(m, vc);
      FromTalliedStep(E0, before, runes.edges, froms, rest, m, vc, e, traversed0);
      traversed := traversed0 + {e};
    }

    /** tally_edge(m, vc), its two cases told as one: e is the only edge from
        m to vc, it has been counted once more, or it is new with count 1. */
    method TallyFrom(m: nat, vc: nat) returns (e: nat)
      requires runes.Consistent() && m < |runes.vertices| && vc < |runes.vertices|
      modifies runes
      ensures runes.Consistent()
      ensures runes.vertices == old(runes.vertices) && runes.vertexMap == old(runes.vertexMap)
      ensures Tallied(old(runes.edges), runes.edges, m, vc, e)
      ensures |runes.edges| == old(|runes.edges|) ==> runes.outEdges == old(runes.outEdges)
    {
      e := runes.TallyEdge(m, vc);
    }

    /** The watch loop of read: each watch, least first, is taken out of the
        set; one whose edge was not traversed and that expects c advances,
        and either completes, tallying its edge and adding its target to the
        completed vertices (and its edge to the traversed ones when it has no
        representative), or moves on to the next round. */
    method ProcessWatches(c: WChar, t0: set<nat>, completed0: set<nat>)
      returns (traversed: set<nat>, completed: set<nat>, moved: set<Watch>)
      requires runes.Consistent()
      requires AllTrack(runes.vertices, runes.edges, watches)
      modifies `watches, runes
      ensures runes.Consistent() && watches == {}
      ensures runes.vertices == old(runes.vertices) && runes.vertexMap == old(runes.vertexMap)
      ensures runes.outEdges == old(runes.outEdges)
      ensures WatchesRead(old(runes.edges), runes.edges, old(watches), t0, c, completed0, traversed, completed, moved)
    {
      ghost var W0 := watches;
      ghost var E0 := runes.edges;
      traversed, completed, moved := t0, completed0, {};
      WatchesReadStart(E0, W0, t0, c, completed0);
      while watches != {}
        invariant watches <= W0
        invariant runes.Consistent()
        invariant runes.vertices == old(runes.vertices) && runes.vertexMap == old(runes.vertexMap)
        invariant runes.outEdges == old(runes.outEdges)
        invariant AllTrack(runes.vertices, runes.edges, watches)
        invariant WatchesRead(E0, runes.edges, W0 - watches, t0, c, completed0, traversed, completed, moved)
        invariant SharesNoEdge(watches, W0 - watches, t0, c)
        decreases |watches|
      {
        traversed, completed, moved := WatchTurn(c, t0, completed0, E0, W0, traversed, completed, moved);
      }
      assert W0 - watches == W0;
    }

    /** The body of the watch loop: the least watch is taken out of the set
        and processed. */
    method WatchTurn(c: WChar, t0: set<nat>, completed0: set<nat>, ghost E0: seq<Edge>, ghost W0: set<Watch>,
                     traversed0: set<nat>, completed1: set<nat>, moved0: set<Watch>)
      returns (traversed: set<nat>, completed: set<nat>, moved: set<Watch>)
      requires watches != {} && watches <= W0 && runes.Consistent()
      requires AllTrack(runes.vertices, runes.edges, watches)
      requires WatchesRead(E0, runes.edges, W0 - watches, t0, c, completed0, traversed0, completed1, moved0)
      requires SharesNoEdge(watches, W0 - watches, t0, c)
      modifies `watches, runes
      ensures watches <= W0 && |watches| < old(|watches|)
      ensures runes.Consistent()
      ensures runes.vertices == old(runes.vertices) && runes.vertexMap == old(runes.vertexMap)
      ensures runes.outEdges == old(runes.outEdges)
      ensures AllTrack(runes.vertices, runes.edges, watches)
      ensures WatchesRead(E0, runes.edges, W0 - watches, t0, c, completed0, traversed, completed, moved)
      ensures SharesNoEdge(watches, W0 - watches, t0, c)
    {
      TracksSameName(runes.vertices, runes.edges, watches);
      var least := LeastWatch(watches);
      var rest := watches - {least};
      ghost var before := runes.edges;
      TurnPrepared(W0, watches, least, t0, c, E0);
      traversed, completed, moved := ProcessWatch(least, c, t0, traversed0, completed1, moved0);
      WatchesReadStep(E0, before, runes.edges, W0, watches, least, t0, c, completed0, traversed0, completed1, moved0, traversed, completed, moved);
      TracksKept(runes.vertices, before, runes.edges, if Completes(least, t0, c) then {least.edge} else {}, watches, rest);
      watches := rest;
    }

    /** One turn of the watch loop. */
    method ProcessWatch(w: Watch, c: WChar, t0: set<nat>, traversed0: set<nat>, completed0: set<nat>, moved0: set<Watch>)
      returns (traversed: set<nat>, completed: set<nat>, moved: set<Watch>)
      requires runes.Consistent() && Tracks(runes.vertices, runes.edges, w)
      requires t0 <= traversed0 && (w.edge in traversed0 ==> w.edge in t0)
      modifies runes
      ensures runes.Consistent()
      ensures runes.vertices == old(runes.vertices) && runes.vertexMap == old(runes.vertexMap)
      ensures runes.outEdges == old(runes.outEdges)
      ensures WatchRead(old(runes.edges), runes.edges, w, t0, c, traversed0, completed0, moved0, traversed, completed, moved)
    {
      traversed, completed, moved := traversed0, completed0, moved0;
      if w.edge in traversed {
      } else if Expects(w) == c {
        var advanced := Advance(w).1;
        if AtEnd(advanced) {
          var e2 := TallyFrom(runes.edges[w.edge].source, w.target);
          completed := completed + {w.target};
          if runes.edges[e2].repSymbolId == 0 {
            traversed := traversed + {e2};
          }
        } else {
          moved := moved + {advanced};
        }
      }
    }

    /** The learning loop of read: each traversed edge, in increasing order,
        that the predicate accepts is promoted into the symbol whose name joins
        its endpoints' names (created when new), and that symbol is completed. */
    method Learn(accept: Edge -> bool, traversed: set<nat>, completed0: set<nat>) returns (completed: set<nat>)
      requires runes.Consistent() && forall e :: e in traversed ==> e < |runes.edges|
      modifies runes
      ensures runes.Consistent()
      ensures Promoted(old(runes.vertices), old(runes.edges), runes.vertices, runes.edges, runes.vertexMap,
                       traversed, accept, completed0, completed)
    {
      ghost var V0, E0 := runes.vertices, runes.edges;
      assert EdgesWellFormed(V0, E0);
      completed := completed0;
      var rest := traversed;
      PromotedStart(V0, E0, runes.vertexMap, traversed, accept, completed0);
      while rest != {}
        invariant rest <= traversed
        invariant runes.Consistent()
        invariant Promoted(V0, E0, runes.vertices, runes.edges, runes.vertexMap, traversed - rest, accept, completed0, completed)
        decreases rest
      {
        completed, rest := LearnNext(accept, traversed, rest, completed, V0, E0, completed0);
      }
      assert traversed - rest == traversed;
    }

    /** One turn of the learning loop: the least edge of rest is learned. */
    method LearnNext(accept: Edge -> bool, traversed: set<nat>, rest0: set<nat>, completed1: set<nat>,
                     ghost V0: seq<Symbol>, ghost E0: seq<Edge>, ghost completed0: set<nat>)
      returns (completed: set<nat>, rest: set<nat>)
      requires rest0 != {} && rest0 <= traversed && forall e :: e in traversed ==> e < |E0|
      requires runes.Consistent() && EdgesWellFormed(V0, E0)
      requires Promoted(V0, E0, runes.vertices, runes.edges, runes.vertexMap, traversed - rest0, accept, completed0, completed1)
      modifies runes
      ensures rest < rest0
      ensures runes.Consistent()
      ensures Promoted(V0, E0, runes.vertices, runes.edges, runes.vertexMap, traversed - rest, accept, completed0, completed)
    {
      var l := Least(rest0);
      ghost var V1, E1, M1 := runes.vertices, runes.edges, runes.vertexMap;
      PromotedEdge(V0, E0, V1, E1, M1, traversed - rest0, accept, completed0, completed1, l);
      completed := LearnEdge(accept, l, completed1);
      PromotedStep(V0, E0, V1, E1, M1, traversed, rest0, accept, completed0, completed1,
                   runes.vertices, runes.edges, runes.vertexMap, l, completed);
      rest := rest0 - {l};
    }

    /** One turn of the learning loop, on the edge l. */
    method LearnEdge(accept: Edge -> bool, l: nat, completed0: set<nat>) returns (completed: set<nat>)
      requires runes.Consistent() && l < |runes.edges|
      modifies runes
      ensures runes.Consistent()
      ensures LearnedEdge(old(runes.vertices), old(runes.edges), old(runes.vertexMap),
                          runes.vertices, runes.edges, runes.vertexMap, l,
                          JoinedName(old(runes.vertices), old(runes.edges), l), accept(old(runes.edges[l])),
                          completed0, completed)
    {
      completed := completed0;
      if accept(runes.edges[l]) {
        completed := LearnAccepted(l, completed0, runes.vertices, runes.edges, runes.vertexMap);
      }
    }

    /** The body of the learning loop for an accepted edge l: look the joined
        name up, create its vertex when there is none, point l at it and
        complete it. V1, E1 and M1 are the graph's arrays on entry. */
    method LearnAccepted(l: nat, completed0: set<nat>, ghost V1: seq<Symbol>, ghost E1: seq<Edge>, ghost M1: map<String, nat>)
      returns (completed: set<nat>)
      requires runes.Consistent() && l < |E1|
      requires runes.vertices == V1 && runes.edges == E1 && runes.vertexMap == M1
      modifies runes
      ensures runes.Consistent()
      ensures LearnedEdge(V1, E1, M1, runes.vertices, runes.edges, runes.vertexMap, l, JoinedName(V1, E1, l), true,
                          completed0, completed)
    {
      var s := runes.edges[l].source;
      var t := runes.edges[l].target;
      var name := runes.vertices[s].name + runes.vertices[t].name;
      var n;
      ghost var V2, M2;
      n, V2, M2 := Intern(name, V1, M1);
      assert V2[s] == V1[s] && V2[t] == V1[t];
      Promote(runes, l, n, V2, E1, M2);
      completed := completed0 + {n};
      LearnedAccepted(V1, E1, M1, runes.vertices, runes.edges, runes.vertexMap, l, name, n, completed0, completed);
    }

    /** The lookup of a joined name in the learning loop: the vertex of that
        name, created by get_vertex when there is none. V1 and M1 are the
        vertices and their index on entry, V2 and M2 on exit. */
    method Intern(name: String, ghost V1: seq<Symbol>, ghost M1: map<String, nat>)
      returns (n: nat, ghost V2: seq<Symbol>, ghost M2: map<String, nat>)
      requires runes.Consistent() && runes.vertices == V1 && runes.vertexMap == M1
      modifies runes
      ensures runes.Consistent() && runes.vertices == V2 && runes.vertexMap == M2
      ensures Interned(V1, M1, V2, M2, name)
      ensures n == M2[name] && n < |V2| && V2[n].name == name
      ensures runes.edges == old(runes.edges)
    {
      if name !in runes.vertexMap {
        n := runes.GetVertex(name);
      } else {
        n := runes.vertexMap[name];
      }
      V2, M2 := runes.vertices, runes.vertexMap;
    }

    /** The last loop of read: each completed vertex, in increasing order, is
        tallied, and a watch is started on each of its out-edges. */
    method Spawn(completed: set<nat>, moved0: set<Watch>) returns (moved: set<Watch>)
      requires runes.Consistent() && forall k :: k in completed ==> k < |runes.vertices|
      modifies runes
      ensures runes.Consistent()
      ensures VerticesTallied(old(runes.vertices), runes.vertices, completed)
      ensures runes.edges == old(runes.edges) && runes.outEdges == old(runes.outEdges)
      ensures runes.vertexMap == old(runes.vertexMap)
      ensures moved == moved0 + Spawned(runes.vertices, runes.edges, completed)
    {
      ghost var V0 := runes.vertices;
      moved := moved0;
      var rest := completed;
      SpawnStart(V0, runes.edges, completed, moved0);
      while rest != {}
        invariant rest <= completed
        invariant runes.Consistent()
        invariant VerticesTallied(V0, runes.vertices, completed - rest)
        invariant runes.edges == old(runes.edges) && runes.outEdges == old(runes.outEdges)
        invariant runes.vertexMap == old(runes.vertexMap)
        invariant moved == moved0 + Spawned(runes.vertices, runes.edges, completed - rest)
        decreases |rest|
      {
        var k := Least(rest);
        moved := SpawnFrom(k, V0, completed, rest, moved0, moved, runes.vertices, runes.edges);
        rest := rest - {k};
      }
      assert completed - rest == completed;
    }

    /** One turn of the last loop of read, on the vertex k. V1 and E1 are the
        graph's vertices and edges on entry. */
    method SpawnFrom(k: nat, ghost V0: seq<Symbol>, ghost completed: set<nat>, ghost rest: set<nat>,
                     ghost moved0: set<Watch>, moved1: set<Watch>, ghost V1: seq<Symbol>, ghost E1: seq<Edge>)
      returns (moved: set<Watch>)
      requires runes.Consistent() && runes.vertices == V1 && runes.edges == E1
      requires rest <= completed && k in rest && k < |V1|
      requires VerticesTallied(V0, V1, completed - rest)
      requires moved1 == moved0 + Spawned(V1, E1, completed - rest)
      modifies runes
      ensures runes.Consistent()
      ensures VerticesTallied(V0, runes.vertices, completed - (rest - {k}))
      ensures runes.edges == old(runes.edges) && runes.outEdges == old(runes.outEdges)
      ensures runes.vertexMap == old(runes.vertexMap)
      ensures moved == moved0 + Spawned(runes.vertices, runes.edges, completed - (rest - {k}))
    {
      runes.TallyVertex(k);
      moved := WatchOutEdges(runes.vertices, runes.edges, runes.outEdges, k, moved1);
      assert runes.vertices == V1[k := V1[k].(count := V1[k].count + 1)];
      assert moved == moved1 + Spawned(runes.vertices, E1, {k});
      SpawnStep(V0, V1, runes.vertices, E1, completed, rest, k, moved0, moved1, moved);
    }
  }

  /** The edges the predicate accepts among ts, as they stood when learning
      began. */
  ghost function Accepted(V0: seq<Symbol>, E0: seq<Edge>, ts: set<nat>, accept: Edge -> bool): (A: set<nat>)
    ensures Learnable(V0, E0, A)
  {
    set e | e in ts && e < |E0| && E0[e].source < |V0| && E0[e].target < |V0| && accept(E0[e])
  }

  /** What the learning loop has done once the edges ts are processed: the
      old vertices are untouched, each new one is named after an accepted
      edge and has count 0, each accepted edge points at the symbol named
      after it, and the completed vertices gain those symbols. */
  ghost predicate Promoted(V0: seq<Symbol>, E0: seq<Edge>, vertices: seq<Symbol>, edges: seq<Edge>, vertexMap: map<String, nat>,
                           ts: set<nat>, accept: Edge -> bool, completed0: set<nat>, completed: set<nat>) {
    var A := Accepted(V0, E0, ts, accept);
    && PromotedVertices(V0, E0, vertices, vertexMap, A)
    && PromotedEdges(V0, E0, edges, vertexMap, A)
    && completed == completed0 + PromotedIds(V0, E0, vertexMap, A)
  }

  /** Edges whose endpoints' names can be joined. */
  ghost predicate Learnable(V0: seq<Symbol>, E0: seq<Edge>, A: set<nat>) {
    forall e :: e in A ==> e < |E0| && E0[e].source < |V0| && E0[e].target < |V0|
  }

  /** The vertices once the accepted edges A are learned. */
  ghost predicate PromotedVertices(V0: seq<Symbol>, E0: seq<Edge>, vertices: seq<Symbol>, vertexMap: map<String, nat>, A: set<nat>) {
    && Learnable(V0, E0, A)
    && |V0| <= |vertices|
    && (forall v :: 0 <= v < |V0| ==> vertices[v] == V0[v])
    && (forall e :: e in A ==> JoinedName(V0, E0, e) in vertexMap)
    && (forall v :: |V0| <= v < |vertices| ==>
          vertices[v].count == 0 && exists e :: e in A && vertices[v].name == JoinedName(V0, E0, e))
  }

  /** The edges once the accepted edges A are learned. */
  ghost predicate PromotedEdges(V0: seq<Symbol>, E0: seq<Edge>, edges: seq<Edge>, vertexMap: map<String, nat>, A: set<nat>) {
    && Learnable(V0, E0, A)
    && (forall e :: e in A ==> JoinedName(V0, E0, e) in vertexMap)
    && |edges| == |E0|
    && (forall e :: 0 <= e < |E0| ==>
          edges[e] == E0[e].(repSymbolId := if e in A then vertexMap[JoinedName(V0, E0, e)] + 1 else E0[e].repSymbolId))
  }

  /** The symbols the accepted edges A are promoted into. */
  ghost function PromotedIds(V0: seq<Symbol>, E0: seq<Edge>, vertexMap: map<String, nat>, A: set<nat>): set<nat>
    requires Learnable(V0, E0, A) && forall e :: e in A ==> JoinedName(V0, E0, e) in vertexMap
  {
    set e | e in A :: vertexMap[JoinedName(V0, E0, e)]
  }

  /** The vertices and the name index after looking name up: unchanged when
      it was known, otherwise extended with a vertex of that name and count 0. */
  ghost predicate Interned(V1: seq<Symbol>, M1: map<String, nat>, V2: seq<Symbol>, M2: map<String, nat>, name: String) {
    && name in M2
    && (name in M1 ==> V2 == V1 && M2 == M1)
    && (name !in M1 ==> V2 == V1 + [Symbol(|V1| + 1, name, 0)] && M2 == M1[name := |V1|])
  }

  /** What one turn of the learning loop does with the edge l, named name,
      that the predicate accepted or not. */
  ghost predicate LearnedEdge(V1: seq<Symbol>, E1: seq<Edge>, M1: map<String, nat>,
                              V2: seq<Symbol>, E2: seq<Edge>, M2: map<String, nat>, l: nat, name: String, accepted: bool,
                              completed1: set<nat>, completed2: set<nat>) {
    && (!accepted ==> V2 == V1 && E2 == E1 && M2 == M1 && completed2 == completed1)
    && (accepted ==>
          && l < |E1| && Interned(V1, M1, V2, M2, name)
          && E2 == E1[l := E1[l].(repSymbolId := M2[name] + 1)]
          && completed2 == completed1 + {M2[name]})
  }

  lemma PromotedStart(V0: seq<Symbol>, E0: seq<Edge>, M0: map<String, nat>, ts: set<nat>, accept: Edge -> bool, completed0: set<nat>)
    ensures Promoted(V0, E0, V0, E0, M0, ts - ts, accept, completed0, completed0)
  {
    assert Accepted(V0, E0, ts - ts, accept) == {};
  }

  /** The edge about to be learned is as it was when learning began. */
  lemma PromotedEdge(V0: seq<Symbol>, E0: seq<Edge>, V1: seq<Symbol>, E1: seq<Edge>, M1: map<String, nat>,
                     done: set<nat>, accept: Edge -> bool, completed0: set<nat>, completed1: set<nat>, l: nat)
    requires Promoted(V0, E0, V1, E1, M1, done, accept, completed0, completed1)
    requires EdgesWellFormed(V0, E0) && l < |E0| && l !in done
    ensures E1[l] == E0[l] && l < |E1| && E1[l].source < |V1| && E1[l].target < |V1|
    ensures JoinedName(V1, E1, l) == JoinedName(V0, E0, l)
  {
  }

  lemma PromotedStep(V0: seq<Symbol>, E0: seq<Edge>, V1: seq<Symbol>, E1: seq<Edge>, M1: map<String, nat>,
                     ts: set<nat>, rest: set<nat>, accept: Edge -> bool, completed0: set<nat>, completed1: set<nat>,
                     V2: seq<Symbol>, E2: seq<Edge>, M2: map<String, nat>, l: nat, completed2: set<nat>)
    requires Promoted(V0, E0, V1, E1, M1, ts - rest, accept, completed0, completed1)
    requires rest <= ts && l in rest && l < |E0| && EdgesWellFormed(V0, E0) && NamesIndexed(V1, M1)
    requires E1[l] == E0[l] && JoinedName(V1, E1, l) == JoinedName(V0, E0, l)
    requires LearnedEdge(V1, E1, M1, V2, E2, M2, l, JoinedName(V0, E0, l), accept(E0[l]), completed1, completed2)
    ensures Promoted(V0, E0, V2, E2, M2, ts - (rest - {l}), accept, completed0, completed2)
  {
    var done := ts - rest;
    assert ts - (rest - {l}) == done + {l};
    if accept(E0[l]) {
      var before := Accepted(V0, E0, done, accept);
      assert Accepted(V0, E0, done + {l}, accept) == before + {l};
      PromotedAccept(V0, E0, V1, E1, M1, before, completed0, completed1, V2, E2, M2, l, completed2);
    } else {
      assert Accepted(V0, E0, done + {l}, accept) == Accepted(V0, E0, done, accept);
    }
  }

  /** One accepted edge l joins the learned edges A. */
  lemma PromotedAccept(V0: seq<Symbol>, E0: seq<Edge>, V1: seq<Symbol>, E1: seq<Edge>, M1: map<String, nat>,
                       A: set<nat>, completed0: set<nat>, completed1: set<nat>,
                       V2: seq<Symbol>, E2: seq<Edge>, M2: map<String, nat>, l: nat, completed2: set<nat>)
    requires Learnable(V0, E0, A + {l}) && l !in A
    requires PromotedVertices(V0, E0, V1, M1, A) && PromotedEdges(V0, E0, E1, M1, A)
    requires completed1 == completed0 + PromotedIds(V0, E0, M1, A)
    requires LearnedEdge(V1, E1, M1, V2, E2, M2, l, JoinedName(V0, E0, l), true, completed1, completed2)
    ensures PromotedVertices(V0, E0, V2, M2, A + {l}) && PromotedEdges(V0, E0, E2, M2, A + {l})
    ensures completed2 == completed0 + PromotedIds(V0, E0, M2, A + {l})
  {
    var name := JoinedName(V0, E0, l);
    PromotedVerticesStep(V0, E0, V1, M1, V2, M2, A, l, name);
    PromotedEdgesStep(V0, E0, E1, M1, E2, M2, A, l, name);
    PromotedIdsStep(V0, E0, M1, M2, A, l, name);
  }

  lemma PromotedVerticesStep(V0: seq<Symbol>, E0: seq<Edge>, V1: seq<Symbol>, M1: map<String, nat>,
                             V2: seq<Symbol>, M2: map<String, nat>, A: set<nat>, l: nat, name: String)
    requires Learnable(V0, E0, A + {l}) && PromotedVertices(V0, E0, V1, M1, A) && name == JoinedName(V0, E0, l)
    requires name in M1 ==> V2 == V1 && M2 == M1
    requires name !in M1 ==> V2 == V1 + [Symbol(|V1| + 1, name, 0)] && M2 == M1[name := |V1|]
    ensures PromotedVertices(V0, E0, V2, M2, A + {l})
    ensures name in M2 && forall e :: e in A ==> JoinedName(V0, E0, e) in M2 && M2[JoinedName(V0, E0, e)] == M1[JoinedName(V0, E0, e)]
  {
    if name !in M1 {
      forall v | |V0| <= v < |V2|
        ensures V2[v].count == 0 && exists e :: e in A + {l} && V2[v].name == JoinedName(V0, E0, e)
      {
        if v == |V1| {
          assert V2[v].name == JoinedName(V0, E0, l);
        } else {
          assert |V0| <= v < |V1| && V2[v] == V1[v];
          assert exists e :: e in A && V1[v].name == JoinedName(V0, E0, e);
          var e :| e in A && V1[v].name == JoinedName(V0, E0, e);
          assert V2[v].name == JoinedName(V0, E0, e);
        }
      }
    }
  }

  lemma PromotedEdgesStep(V0: seq<Symbol>, E0: seq<Edge>, E1: seq<Edge>, M1: map<String, nat>,
                          E2: seq<Edge>, M2: map<String, nat>, A: set<nat>, l: nat, name: String)
    requires Learnable(V0, E0, A + {l}) && PromotedEdges(V0, E0, E1, M1, A) && name == JoinedName(V0, E0, l) && l !in A
    requires name in M2 && forall e :: e in A ==> JoinedName(V0, E0, e) in M2 && M2[JoinedName(V0, E0, e)] == M1[JoinedName(V0, E0, e)]
    requires E2 == E1[l := E1[l].(repSymbolId := M2[name] + 1)]
    ensures PromotedEdges(V0, E0, E2, M2, A + {l})
  {
  }

  lemma PromotedIdsStep(V0: seq<Symbol>, E0: seq<Edge>, M1: map<String, nat>, M2: map<String, nat>,
                        A: set<nat>, l: nat, name: String)
    requires Learnable(V0, E0, A + {l}) && forall e :: e in A ==> JoinedName(V0, E0, e) in M1
    requires name == JoinedName(V0, E0, l)
    requires name in M2 && forall e :: e in A ==> JoinedName(V0, E0, e) in M2 && M2[JoinedName(V0, E0, e)] == M1[JoinedName(V0, E0, e)]
    ensures forall e :: e in A + {l} ==> JoinedName(V0, E0, e) in M2
    ensures PromotedIds(V0, E0, M2, A + {l}) == PromotedIds(V0, E0, M1, A) + {M2[name]}
  {
  }

  /** The assignment of an edge's rep_symbol_id by the learning loop: the
      vertex n is the one whose name joins the edge's endpoints' names. */
  method Promote(runes: Runes, l: nat, n: nat, ghost V: seq<Symbol>, ghost E: seq<Edge>, ghost M: map<String, nat>)
    requires runes.Consistent() && l < |E| && n < |V|
    requires runes.vertices == V && runes.edges == E && runes.vertexMap == M
    requires V[n].name == V[E[l].source].name + V[E[l].target].name
    modifies runes
    ensures runes.Consistent()
    ensures runes.vertices == V && runes.vertexMap == M && runes.edges == E[l := E[l].(repSymbolId := n + 1)]
    ensures runes.outEdges == old(runes.outEdges) && runes.vertexCounts == old(runes.vertexCounts)
    ensures runes.edgeCounts == old(runes.edgeCounts) && runes.id == old(runes.id)
  {
    RepChosen(runes.vertices, runes.outEdges, runes.edgeCounts, runes.edges, l, n);
    runes.edges := runes.edges[l := runes.edges[l].(repSymbolId := runes.vertices[n].id)];
  }

  /** An accepted edge, once its joined name is interned and the edge points
      at that name's vertex, is learned. */
  lemma LearnedAccepted(V1: seq<Symbol>, E1: seq<Edge>, M1: map<String, nat>,
                        V2: seq<Symbol>, E2: seq<Edge>, M2: map<String, nat>, l: nat, name: String, n: nat,
                        completed1: set<nat>, completed2: set<nat>)
    requires EdgesWellFormed(V1, E1) && l < |E1| && name == JoinedName(V1, E1, l)
    requires Interned(V1, M1, V2, M2, name) && n == M2[name]
    requires E2 == E1[l := E1[l].(repSymbolId := n + 1)] && completed2 == completed1 + {n}
    ensures LearnedEdge(V1, E1, M1, V2, E2, M2, l, JoinedName(V1, E1, l), true, completed1, completed2)
  {
  }

  lemma RepChosen(vertices: seq<Symbol>, outEdges: seq<seq<nat>>, ranks: set<(nat, nat)>, edges: seq<Edge>, l: nat, n: nat)
    requires EdgesWellFormed(vertices, edges) && RanksEdges(ranks, edges) && Adjacent(outEdges, edges, |vertices|)
    requires l < |edges| && n < |vertices|
    requires vertices[n].name == vertices[edges[l].source].name + vertices[edges[l].target].name
    ensures var after := edges[l := edges[l].(repSymbolId := n + 1)];
            && EdgesWellFormed(vertices, after) && RanksEdges(ranks, after) && Adjacent(outEdges, after, |vertices|)
  {
  }

  /** The counts of the vertices in ks went up by one; nothing else changed. */
  ghost predicate VerticesTallied(V0: seq<Symbol>, vertices: seq<Symbol>, ks: set<nat>) {
    && |vertices| == |V0|
    && forall v :: 0 <= v < |V0| ==> vertices[v] == V0[v].(count := V0[v].count + if v in ks then 1 else 0)
  }

  lemma SpawnStart(V0: seq<Symbol>, edges: seq<Edge>, completed: set<nat>, moved0: set<Watch>)
    ensures VerticesTallied(V0, V0, completed - completed)
    ensures moved0 == moved0 + Spawned(V0, edges, completed - completed)
  {
    assert completed - completed == {};
    assert Spawned(V0, edges, {}) == {};
  }

  lemma SpawnStep(V0: seq<Symbol>, V1: seq<Symbol>, V2: seq<Symbol>, edges: seq<Edge>, completed: set<nat>, rest: set<nat>, k: nat,
                  moved0: set<Watch>, moved1: set<Watch>, moved2: set<Watch>)
    requires rest <= completed && k in rest && k < |V1|
    requires VerticesTallied(V0, V1, completed - rest)
    requires V2 == V1[k := V1[k].(count := V1[k].count + 1)]
    requires moved1 == moved0 + Spawned(V1, edges, completed - rest)
    requires moved2 == moved1 + Spawned(V2, edges, {k})
    ensures VerticesTallied(V0, V2, completed - (rest - {k}))
    ensures moved2 == moved0 + Spawned(V2, edges, completed - (rest - {k}))
  {
    var done := completed - rest;
    assert completed - (rest - {k}) == done + {k};
    SpawnedNames(V1, V2, edges, done);
    SpawnedUnion(V2, edges, done, {k});
  }

  /** Spawned reads nothing of the vertices but their names. */
  lemma SpawnedNames(V1: seq<Symbol>, V2: seq<Symbol>, edges: seq<Edge>, ks: set<nat>)
    requires |V1| == |V2| && forall v :: 0 <= v < |V1| ==> V2[v].name == V1[v].name
    ensures Spawned(V1, edges, ks) == Spawned(V2, edges, ks)
  {
    assert forall e :: 0 <= e < |edges| && edges[e].target < |V1| ==> StartWatch(V1, edges, e) == StartWatch(V2, edges, e);
  }

  lemma SpawnedUnion(vertices: seq<Symbol>, edges: seq<Edge>, a: set<nat>, b: set<nat>)
    ensures Spawned(vertices, edges, a + b) == Spawned(vertices, edges, a) + Spawned(vertices, edges, b)
  {
  }

  /** The counts of the edges bumped went up by one; nothing else changed. */
  ghost predicate Bumped(before: seq<Edge>, after: seq<Edge>, bumped: set<nat>) {
    && |after| == |before|
    && forall e :: 0 <= e < |before| ==>
         after[e] == before[e].(count := before[e].count + if e in bumped then 1 else 0)
  }

  lemma BumpedTwice(E0: seq<Edge>, E1: seq<Edge>, E2: seq<Edge>, a: set<nat>, b: set<nat>)
    requires Bumped(E0, E1, a) && Bumped(E1, E2, b) && forall x :: x in a ==> x !in b
    ensures Bumped(E0, E2, a + b)
  {
    forall e | 0 <= e < |E0|
      ensures E2[e] == E0[e].(count := E0[e].count + if e in a + b then 1 else 0)
    {
      assert E1[e] == E0[e].(count := E0[e].count + if e in a then 1 else 0);
      assert E2[e] == E1[e].(count := E1[e].count + if e in b then 1 else 0);
    }
  }

  /** What one turn of the watch loop does with w. */
  ghost predicate WatchRead(before: seq<Edge>, after: seq<Edge>, w: Watch, t0: set<nat>, c: WChar,
                            traversed0: set<nat>, completed0: set<nat>, moved0: set<Watch>,
                            traversed: set<nat>, completed: set<nat>, moved: set<Watch>) {
    && w.edge < |before|
    && Bumped(before, after, if Completes(w, t0, c) then {w.edge} else {})
    && traversed == traversed0 + (if Completes(w, t0, c) && before[w.edge].repSymbolId == 0 then {w.edge} else {})
    && completed == completed0 + (if Completes(w, t0, c) then {w.target} else {})
    && moved == moved0 + if Hits(w, t0, c) && w.position + 1 < |w.name| then {w.(position := w.position + 1)} else {}
  }

  /** What the watch loop has done once the watches ws are processed:
      the completed edges are counted once more, the traversed edges gain the
      unpromoted ones among them, the completed vertices their targets, and
      moved the watches that advanced without completing. */
  ghost predicate WatchesRead(E0: seq<Edge>, edges: seq<Edge>, ws: set<Watch>, t0: set<nat>, c: WChar,
                              completed0: set<nat>, traversed: set<nat>, completed: set<nat>, moved: set<Watch>) {
    && Bumped(E0, edges, CompletedEdges(ws, t0, c))
    && traversed == t0 + Unpromoted(ws, t0, c, E0)
    && completed == completed0 + CompletedTargets(ws, t0, c)
    && moved == Moved(ws, t0, c)
  }

  lemma WatchesReadStart(E0: seq<Edge>, W0: set<Watch>, t0: set<nat>, c: WChar, completed0: set<nat>)
    ensures WatchesRead(E0, E0, W0 - W0, t0, c, completed0, t0, completed0, {})
  {
    assert W0 - W0 == {};
    assert CompletedEdges({}, t0, c) == {};
    assert Unpromoted({}, t0, c, E0) == {};
    assert CompletedTargets({}, t0, c) == {};
    assert Moved({}, t0, c) == {};
  }

  lemma WatchesReadStep(E0: seq<Edge>, before: seq<Edge>, after: seq<Edge>, W0: set<Watch>, ws: set<Watch>, w: Watch, t0: set<nat>, c: WChar,
                        completed0: set<nat>, traversed0: set<nat>, completed1: set<nat>, moved0: set<Watch>,
                        traversed: set<nat>, completed: set<nat>, moved: set<Watch>)
    requires w in ws && ws <= W0
    requires WatchesRead(E0, before, W0 - ws, t0, c, completed0, traversed0, completed1, moved0)
    requires WatchRead(before, after, w, t0, c, traversed0, completed1, moved0, traversed, completed, moved)
    requires Completes(w, t0, c) ==> forall d :: d in W0 - ws && Completes(d, t0, c) ==> d.edge != w.edge
    ensures WatchesRead(E0, after, W0 - (ws - {w}), t0, c, completed0, traversed, completed, moved)
  {
    var done := W0 - ws;
    assert W0 - (ws - {w}) == done + {w};
    WatchDone(done, w, t0, c, E0);
    BumpedTwice(E0, before, after, CompletedEdges(done, t0, c), if Completes(w, t0, c) then {w.edge} else {});
  }

  /** No watch of ws shares its edge with a watch of done that completed. */
  ghost predicate SharesNoEdge(ws: set<Watch>, done: set<Watch>, t0: set<nat>, c: WChar) {
    forall u, d :: u in ws && d in done && Completes(d, t0, c) ==> u.edge != d.edge
  }

  /** What the watch loop needs before processing the least watch w of ws:
      its edge is not among the edges completed so far, and once it is done
      no remaining watch shares an edge with a completed one. */
  lemma TurnPrepared(W0: set<Watch>, ws: set<Watch>, w: Watch, t0: set<nat>, c: WChar, E0: seq<Edge>)
    requires ws <= W0 && w in ws && SharesNoEdge(ws, W0 - ws, t0, c)
    requires SameEdgeSameName(ws) && forall u :: u in ws && u != w ==> WatchLess(w, u)
    requires forall u :: u in ws ==> u.position < |u.name|
    ensures w.edge !in Unpromoted(W0 - ws, t0, c, E0)
    ensures Completes(w, t0, c) ==> forall d :: d in W0 - ws && Completes(d, t0, c) ==> d.edge != w.edge
    ensures SharesNoEdge(ws - {w}, W0 - (ws - {w}), t0, c)
    ensures ws - {w} <= W0 && |ws - {w}| < |ws|
  {
    var rest := ws - {w};
    LeastCompletes(rest, w, t0, c);
    assert W0 - rest == (W0 - ws) + {w};
  }

  /** The least watch, when it completes, is the only one left on its edge:
      the others on that edge sit at earlier positions of the same name. */
  lemma LeastCompletes(rest: set<Watch>, w: Watch, t0: set<nat>, c: WChar)
    requires SameEdgeSameName(rest + {w}) && w !in rest
    requires forall u :: u in rest ==> WatchLess(w, u) && u.position < |u.name|
    ensures Completes(w, t0, c) ==> forall u :: u in rest ==> u.edge != w.edge
  {
  }

  /** Tracking depends only on the edges' targets and the names. */
  lemma TracksKept(vertices: seq<Symbol>, before: seq<Edge>, after: seq<Edge>, bumped: set<nat>, ws: set<Watch>, sub: set<Watch>)
    requires Bumped(before, after, bumped)
    requires AllTrack(vertices, before, ws) && sub <= ws
    ensures AllTrack(vertices, after, sub)
  {
  }

  /** The inner loop of the constructor and of read: a watch for each
      out-edge of v, in out-edge order, added to ws0. */
  method WatchOutEdges(vertices: seq<Symbol>, edges: seq<Edge>, outEdges: seq<seq<nat>>, v: nat, ws0: set<Watch>)
    returns (ws: set<Watch>)
    requires EdgesWellFormed(vertices, edges) && Adjacent(outEdges, edges, |vertices|) && v < |vertices|
    ensures ws == ws0 + Spawned(vertices, edges, {v})
  {
    var out := outEdges[v];
    ws := ws0;
    var i := 0;
    while i < |out|
      invariant 0 <= i <= |out|
      invariant ws == ws0 + set k | 0 <= k < i :: StartWatch(vertices, edges, out[k])
    {
      ws := ws + {StartWatch(vertices, edges, out[i])};
      i := i + 1;
    }
    OutEdgesSpawned(vertices, edges, outEdges, v);
  }

  /** The watches started on the out-edges of v, in out-edge order, are
      those started on the edges leaving v. */
  lemma OutEdgesSpawned(vertices: seq<Symbol>, edges: seq<Edge>, outEdges: seq<seq<nat>>, v: nat)
    requires EdgesWellFormed(vertices, edges) && Adjacent(outEdges, edges, |vertices|) && v < |vertices|
    ensures (set k | 0 <= k < |outEdges[v]| :: StartWatch(vertices, edges, outEdges[v][k])) == Spawned(vertices, edges, {v})
  {
    var out := outEdges[v];
    forall w | w in Spawned(vertices, edges, {v})
      ensures w in set k | 0 <= k < |out| :: StartWatch(vertices, edges, out[k])
    {
      var e :| 0 <= e < |edges| && edges[e].source == v && edges[e].target < |vertices| && w == StartWatch(vertices, edges, e);
      var k :| 0 <= k < |out| && out[k] == e;
    }
  }

  /** A watch started on an edge follows a nonempty name, since no edge ends
      at the root, the only vertex with the empty name. */
  lemma SpawnedTracks(vertices: seq<Symbol>, vertexMap: map<String, nat>, edges: seq<Edge>, ks: set<nat>)
    requires NamesIndexed(vertices, vertexMap) && |vertices| > 0 && vertices[0].name == []
    requires EdgesWellFormed(vertices, edges) && RootUntargeted(edges)
    ensures AllTrack(vertices, edges, Spawned(vertices, edges, ks))
  {
    forall w | w in Spawned(vertices, edges, ks)
      ensures Tracks(vertices, edges, w)
    {
      var e :| 0 <= e < |edges| && edges[e].source in ks && edges[e].target < |vertices| && w == StartWatch(vertices, edges, e);
      assert vertexMap[vertices[edges[e].target].name] == edges[e].target;
    }
  }

  /** Watches that all follow their edge's target agree on the name. */
  lemma TracksSameName(vertices: seq<Symbol>, edges: seq<Edge>, ws: set<Watch>)
    requires AllTrack(vertices, edges, ws)
    ensures SameEdgeSameName(ws)
  {
  }

  /** How the sets the watch loop accumulates grow by one watch. */
  lemma WatchDone(done: set<Watch>, w: Watch, t0: set<nat>, c: WChar, edges: seq<Edge>)
    ensures CompletedEdges(done + {w}, t0, c) == CompletedEdges(done, t0, c) + if Completes(w, t0, c) then {w.edge} else {}
    ensures CompletedTargets(done + {w}, t0, c) == CompletedTargets(done, t0, c) + if Completes(w, t0, c) then {w.target} else {}
    ensures Unpromoted(done + {w}, t0, c, edges) == Unpromoted(done, t0, c, edges) +
              if Completes(w, t0, c) && w.edge < |edges| && edges[w.edge].repSymbolId == 0 then {w.edge} else {}
    ensures Moved(done + {w}, t0, c) == Moved(done, t0, c) +
              if Hits(w, t0, c) && w.position + 1 < |w.name| then {w.(position := w.position + 1)} else {}
  {
  }

  /** The edge e from m to vc was tallied between before and after: it is
      the only edge with those endpoints, and the others are as they were. */
  ghost predicate Tallied(before: seq<Edge>, after: seq<Edge>, m: nat, vc: nat, e: nat) {
    && |before| <= |after| <= |before| + 1
    && e < |after| && after[e].source == m && after[e].target == vc
    && (forall f :: 0 <= f < |after| && after[f].source == m && after[f].target == vc ==> f == e)
    && (forall f :: 0 <= f < |before| ==> after[f] == before[f].(count := before[f].count + if f == e then 1 else 0))
    && (|before| < |after| ==> e == |before| && after[e] == Edge(m, vc, 1, 0))
  }

  /** After the first loop of read over the vertices done: traversed holds
      the edges from them to vc, each counted once more or new with count 1. */
  ghost predicate FromTallied(E0: seq<Edge>, edges: seq<Edge>, done: set<nat>, vc: nat, traversed: set<nat>) {
    && |edges| >= |E0|
    && traversed == FromEdges(edges, done, vc)
    && (forall f :: f in done ==> exists e :: e in traversed && edges[e].source == f)
    && (forall e :: 0 <= e < |E0| ==>
          edges[e] == E0[e].(count := E0[e].count + if e in traversed then 1 else 0))
    && (forall e :: |E0| <= e < |edges| ==>
          e in traversed && edges[e].count == 1 && edges[e].repSymbolId == 0)
  }

  lemma FromTalliedStart(E0: seq<Edge>, fs: set<nat>, vc: nat)
    ensures FromTallied(E0, E0, fs - fs, vc, {})
  {
    assert fs - fs == {};
    assert FromEdges(E0, {}, vc) == {};
  }

  lemma FromTalliedStep(E0: seq<Edge>, before: seq<Edge>, after: seq<Edge>, fs: set<nat>, rest: set<nat>,
                        m: nat, vc: nat, e: nat, traversed: set<nat>)
    requires rest <= fs && m in rest
    requires FromTallied(E0, before, fs - rest, vc, traversed) && Tallied(before, after, m, vc, e)
    ensures FromTallied(E0, after, fs - (rest - {m}), vc, traversed + {e})
  {
    var done := fs - rest;
    assert fs - (rest - {m}) == done + {m};
    FromEdgesStep(before, after, done, m, vc, e);
  }

  /** Tallying the edge e from m to vc adds just e to the edges from the
      vertices done so far. */
  lemma FromEdgesStep(before: seq<Edge>, after: seq<Edge>, done: set<nat>, m: nat, vc: nat, e: nat)
    requires |before| <= |after| && m !in done
    requires forall f :: 0 <= f < |before| ==> after[f].source == before[f].source && after[f].target == before[f].target
    requires forall f :: |before| <= f < |after| ==> after[f].source == m
    requires e < |after| && after[e].source == m && after[e].target == vc
    requires forall f :: 0 <= f < |after| && after[f].source == m && after[f].target == vc ==> f == e
    ensures FromEdges(after, done + {m}, vc) == FromEdges(before, done, vc) + {e}
  {
  }

  /** The count an edge had before the character was read; 0 for an edge
      the read created. */
  function CountBefore(E0: seq<Edge>, e: nat): nat {
    if e < |E0| then E0[e].count else 0
  }

  /** The representative an edge had before the character was read; 0 for
      an edge the read created. */
  function RepBefore(E0: seq<Edge>, e: nat): nat {
    if e < |E0| then E0[e].repSymbolId else 0
  }

  /** The count a vertex had before the character was read; 0 for a vertex
      the read created. */
  function VertexCountBefore(V0: seq<Symbol>, v: nat): nat {
    if v < |V0| then V0[v].count else 0
  }

  /** The edge e as the learning loop hands it to the predicate: already
      counted for this character, with the representative it had before. */
  function AsLearned(E0: seq<Edge>, E: seq<Edge>, e: nat): Edge
    requires e < |E|
  {
    E[e].(repSymbolId := RepBefore(E0, e))
  }

  /** The traversed edges the predicate accepts. */
  ghost function Learned(E0: seq<Edge>, E: seq<Edge>, traversed: set<nat>, accept: Edge -> bool): set<nat> {
    set e | e in traversed && e < |E| && accept(AsLearned(E0, E, e))
  }

  /** The vertices the edges learned are promoted into: those named by
      joining each edge's endpoints' names. */
  ghost function Representatives(V: seq<Symbol>, E: seq<Edge>, M: map<String, nat>, learned: set<nat>): set<nat> {
    set e | e in learned && e < |E| && E[e].source < |V| && E[e].target < |V| && JoinedName(V, E, e) in M
      :: M[JoinedName(V, E, e)]
  }

  /** Two edge sequences of one length whose edges have the same endpoints. */
  ghost predicate SameEnds(E: seq<Edge>, E': seq<Edge>) {
    && |E| == |E'|
    && forall e :: 0 <= e < |E| ==> E'[e].source == E[e].source && E'[e].target == E[e].target
  }

  /** What read(c, accept) does, as a relation between the graph, froms and
      watches before (V0, E0, F0, W0) and after (V, E, M, F, W). With vc the
      vertex named [c], t0 the edges from the old froms to vc, and the
      traversed edges t0 plus the edges of the completed watches that had no
      representative:
      - the old vertices and edges keep their names and endpoints, and every
        new edge runs from an old from to vc;
      - every old from has an edge to vc;
      - an edge is counted once more exactly when it is in t0 or some watch
        completed on it;
      - the traversed edges the predicate accepts point at the vertex named
        by joining their endpoints' names, and the others keep their
        representative;
      - the new froms are vc, the targets of the completed watches and the
        representatives of the accepted edges;
      - the new watches are the old ones that were not on a t0 edge, matched
        c and did not complete, one character further on, plus one at the
        start of each out-edge of every new from;
      - each vertex is counted once more exactly when it is a new from, and
        the new vertices are vc and the representatives. */
  ghost predicate ReadStep(V0: seq<Symbol>, E0: seq<Edge>, F0: set<nat>, W0: set<Watch>, c: WChar, accept: Edge -> bool,
                           V: seq<Symbol>, E: seq<Edge>, M: map<String, nat>, F: set<nat>, W: set<Watch>)
  {
    && NamesIndexed(V, M) && EdgesWellFormed(V, E)
    && VerticesKept(V0, V) && EdgesKept(E0, E)
    && [c] in M
    && var vc := M[[c]];
       var t0 := FromEdges(E, F0, vc);
       var learned := Learned(E0, E, t0 + Unpromoted(W0, t0, c, E0), accept);
       && (forall e :: |E0| <= e < |E| ==> E[e].source in F0 && E[e].target == vc)
       && (forall f :: f in F0 ==> exists e :: e in t0 && E[e].source == f)
       && (forall e :: 0 <= e < |E| ==>
             E[e].count == CountBefore(E0, e) + if e in t0 || e in CompletedEdges(W0, t0, c) then 1 else 0)
       && (forall e :: 0 <= e < |E| ==>
             if e in learned then JoinedName(V, E, e) in M && E[e].repSymbolId == M[JoinedName(V, E, e)] + 1
             else E[e].repSymbolId == RepBefore(E0, e))
       && F == {vc} + CompletedTargets(W0, t0, c) + Representatives(V, E, M, learned)
       && W == Moved(W0, t0, c) + Spawned(V, E, F)
       && (forall v :: 0 <= v < |V| ==> V[v].count == VertexCountBefore(V0, v) + if v in F then 1 else 0)
       && (forall v :: |V0| <= v < |V| ==>
             V[v].name == [c] || exists e :: e in learned && 0 <= e < |E| && V[v].name == JoinedName(V, E, e))
  }

  /** v is the guess guess() settles on among gs: no guess has a larger
      count, and every guess numbered before it has a smaller one. */
  ghost predicate IsFirstBest(V: seq<Symbol>, gs: set<nat>, v: nat) {
    && v in gs && v < |V|
    && forall u :: u in gs && u < |V| ==> V[u].count <= V[v].count && (u < v ==> V[u].count < V[v].count)
  }

  /** The second loop of guess: the guesses in increasing order, keeping
      the first one of largest count. */
  method FirstBest(V: seq<Symbol>, guesses: set<nat>) returns (v: nat)
    requires guesses != {} && forall g :: g in guesses ==> g < |V|
    ensures IsFirstBest(V, guesses, v)
  {
    v := Least(guesses);
    var max := V[v].count;
    var rest := guesses - {v};
    while rest != {}
      invariant rest <= guesses && v in guesses && v !in rest && v < |V|
      invariant max == V[v].count
      invariant forall u, x :: u in guesses - rest && x in rest ==> u < x
      invariant forall u :: u in guesses - rest ==> V[u].count <= max && (u < v ==> V[u].count < max)
      decreases |rest|
    {
      var m := Least(rest);
      ghost var done := guesses - rest;
      if V[m].count > max {
        v := m;
        max := V[m].count;
      }
      rest := rest - {m};
      assert guesses - rest == done + {m};
    }
    assert guesses - rest == guesses;
  }

  /** Watches keep tracking when vertices are appended and edges are
      counted, added or promoted. */
  lemma TracksGrow(V0: seq<Symbol>, E0: seq<Edge>, V1: seq<Symbol>, E1: seq<Edge>, ws: set<Watch>)
    requires AllTrack(V0, E0, ws) && VerticesKept(V0, V1) && EdgesKept(E0, E1)
    ensures AllTrack(V1, E1, ws)
  {
  }

  /** The traversed edges after the watch loop are edges. */
  lemma TraversedBounded(E1: seq<Edge>, E2: seq<Edge>, W0: set<Watch>, t0: set<nat>, c: WChar, completed0: set<nat>,
                         traversed: set<nat>, completed: set<nat>, moved: set<Watch>)
    requires WatchesRead(E1, E2, W0, t0, c, completed0, traversed, completed, moved)
    requires forall e :: e in t0 ==> e < |E1|
    ensures forall e :: e in traversed ==> e < |E2|
  {
  }

  /** The completed vertices after the learning loop are vertices. */
  lemma CompletedBounded(V1: seq<Symbol>, E1: seq<Edge>, W0: set<Watch>, t0: set<nat>, c: WChar, vc: nat, C1: set<nat>,
                         E2: seq<Edge>, V3: seq<Symbol>, E3: seq<Edge>, M3: map<String, nat>,
                         traversed: set<nat>, accept: Edge -> bool, C2: set<nat>)
    requires AllTrack(V1, E1, W0) && vc < |V1| && C1 == {vc} + CompletedTargets(W0, t0, c)
    requires Promoted(V1, E2, V3, E3, M3, traversed, accept, C1, C2) && NamesIndexed(V3, M3)
    ensures forall k :: k in C2 ==> k < |V3|
  {
  }

  /** The four loops of read, put together, do what ReadStep says, and keep
      the reader valid. */
  /** What the phases of read establish, one after the other: the snapshots
      of the reader before, after get_vertex(c), after the loop over the
      froms, after the loop over the watches, after the learning loop and
      after the loop over the completed vertices. */
  ghost predicate PhasesRead(V0: seq<Symbol>, E0: seq<Edge>, M0: map<String, nat>, F0: set<nat>, W0: set<Watch>,
                       c: WChar, accept: Edge -> bool,
                       vc: nat, V1: seq<Symbol>, M1: map<String, nat>, E1: seq<Edge>, T0: set<nat>,
                       E2: seq<Edge>, Tr: set<nat>, C1: set<nat>, Mv: set<Watch>,
                       V3: seq<Symbol>, E3: seq<Edge>, M3: map<String, nat>, C2: set<nat>,
                       V4: seq<Symbol>, W4: set<Watch>)
  {
    // the reader before
    && NamesIndexed(V0, M0) && EdgesWellFormed(V0, E0) && RootUntargeted(E0)
    && |V0| > 0 && V0[0].name == []
    && (forall f :: f in F0 ==> f < |V0|) && AllTrack(V0, E0, W0)
    // get_vertex(c)
    && c != 0 && vc < |V1| && V1[vc].name == [c]
    && (V1 == V0 || (V1 == V0 + [Symbol(|V0| + 1, [c], 0)] && vc == |V0|))
    // the loop over the froms
    && NamesIndexed(V1, M1) && EdgesWellFormed(V1, E1)
    && FromTallied(E0, E1, F0, vc, T0)
    // the loop over the watches
    && WatchesRead(E1, E2, W0, T0, c, {vc}, Tr, C1, Mv) && EdgesWellFormed(V1, E2)
    // the learning loop
    && Promoted(V1, E2, V3, E3, M3, Tr, accept, C1, C2)
    // the loop over the completed vertices
    && VerticesTallied(V3, V4, C2) && W4 == Mv + Spawned(V4, E3, C2)
    && NamesIndexed(V4, M3) && EdgesWellFormed(V4, E3)
  }

  /** The phases of read compose to one read step, and the reader they
      leave is well formed. */
  lemma ReadComposed(V0: seq<Symbol>, E0: seq<Edge>, M0: map<String, nat>, F0: set<nat>, W0: set<Watch>,
                     c: WChar, accept: Edge -> bool,
                     vc: nat, V1: seq<Symbol>, M1: map<String, nat>, E1: seq<Edge>, T0: set<nat>,
                     E2: seq<Edge>, Tr: set<nat>, C1: set<nat>, Mv: set<Watch>,
                     V3: seq<Symbol>, E3: seq<Edge>, M3: map<String, nat>, C2: set<nat>,
                     V4: seq<Symbol>, W4: set<Watch>)
    // the reader before
    requires NamesIndexed(V0, M0) && EdgesWellFormed(V0, E0) && RootUntargeted(E0)
    requires |V0| > 0 && V0[0].name == []
    requires (forall f :: f in F0 ==> f < |V0|) && AllTrack(V0, E0, W0)
    // get_vertex(c)
    requires c != 0 && vc < |V1| && V1[vc].name == [c]
    requires V1 == V0 || (V1 == V0 + [Symbol(|V0| + 1, [c], 0)] && vc == |V0|)
    // the loop over the froms
    requires NamesIndexed(V1, M1) && EdgesWellFormed(V1, E1)
    requires FromTallied(E0, E1, F0, vc, T0)
    // the loop over the watches
    requires WatchesRead(E1, E2, W0, T0, c, {vc}, Tr, C1, Mv) && EdgesWellFormed(V1, E2)
    // the learning loop
    requires Promoted(V1, E2, V3, E3, M3, Tr, accept, C1, C2)
    // the loop over the completed vertices
    requires VerticesTallied(V3, V4, C2) && W4 == Mv + Spawned(V4, E3, C2)
    requires NamesIndexed(V4, M3) && EdgesWellFormed(V4, E3)
    ensures ReadStep(V0, E0, F0, W0, c, accept, V4, E3, M3, C2, W4)
    ensures RootUntargeted(E3) && AllTrack(V4, E3, W4) && (forall f :: f in C2 ==> f < |V4|)
    ensures |V4| > 0 && V4[0].name == []
  {
    ReadComposedStep(V0, E0, M0, F0, W0, c, accept, vc, V1, M1, E1, T0, E2, Tr, C1, Mv, V3, E3, M3, C2, V4, W4);
    ReadComposedKeeps(V0, E0, M0, F0, W0, c, accept, vc, V1, M1, E1, T0, E2, Tr, C1, Mv, V3, E3, M3, C2, V4, W4);
  }

  lemma ReadComposedStep(V0: seq<Symbol>, E0: seq<Edge>, M0: map<String, nat>, F0: set<nat>, W0: set<Watch>,
                         c: WChar, accept: Edge -> bool,
                         vc: nat, V1: seq<Symbol>, M1: map<String, nat>, E1: seq<Edge>, T0: set<nat>,
                         E2: seq<Edge>, Tr: set<nat>, C1: set<nat>, Mv: set<Watch>,
                         V3: seq<Symbol>, E3: seq<Edge>, M3: map<String, nat>, C2: set<nat>,
                         V4: seq<Symbol>, W4: set<Watch>)
    requires PhasesRead(V0, E0, M0, F0, W0, c, accept, vc, V1, M1, E1, T0, E2, Tr, C1, Mv, V3, E3, M3, C2, V4, W4)
    ensures ReadStep(V0, E0, F0, W0, c, accept, V4, E3, M3, C2, W4)
  {
    var A := Accepted(V1, E2, Tr, accept);
    GetVertexShape(V0, V1, c, vc);
    VerticesCarried(V0, V1, V3, V4, E2, M3, A, C2);
    ReadEdgeFacts(V0, E0, V1, E1, E2, V4, E3, M3, F0, W0, c, vc, T0, Tr, C1, Mv, accept, A);
    ReadCounts(E0, E1, E2, E3, F0, vc, T0, W0, c, V1, V4, M3, A);
    assert V4[vc].name == [c];
    assert M3[[c]] == vc;
    RepresentativesPromoted(V1, E2, V4, E3, M3, A);
    ReadNewVertices(V0, V1, V3, V4, E2, E3, M3, A, C2, c);
    ReadAssembled(V0, E0, F0, W0, c, accept, V4, E3, M3, C2, W4, vc, T0, A);
  }

  lemma ReadComposedKeeps(V0: seq<Symbol>, E0: seq<Edge>, M0: map<String, nat>, F0: set<nat>, W0: set<Watch>,
                          c: WChar, accept: Edge -> bool,
                          vc: nat, V1: seq<Symbol>, M1: map<String, nat>, E1: seq<Edge>, T0: set<nat>,
                          E2: seq<Edge>, Tr: set<nat>, C1: set<nat>, Mv: set<Watch>,
                          V3: seq<Symbol>, E3: seq<Edge>, M3: map<String, nat>, C2: set<nat>,
                          V4: seq<Symbol>, W4: set<Watch>)
    requires PhasesRead(V0, E0, M0, F0, W0, c, accept, vc, V1, M1, E1, T0, E2, Tr, C1, Mv, V3, E3, M3, C2, V4, W4)
    ensures RootUntargeted(E3) && AllTrack(V4, E3, W4) && (forall f :: f in C2 ==> f < |V4|)
    ensures |V4| > 0 && V4[0].name == []
  {
    var A := Accepted(V1, E2, Tr, accept);
    GetVertexShape(V0, V1, c, vc);
    VerticesCarried(V0, V1, V3, V4, E2, M3, A, C2);
    ReadEdgeFacts(V0, E0, V1, E1, E2, V4, E3, M3, F0, W0, c, vc, T0, Tr, C1, Mv, accept, A);
    ReadCounts(E0, E1, E2, E3, F0, vc, T0, W0, c, V1, V4, M3, A);
    ReadTracks(V0, E0, V4, E3, M3, W0, T0, c, Mv, C2, W4, vc);
    FromsBounded(V0, E0, V1, E2, V4, M3, W0, T0, c, vc, C1, A, C2);
  }

  /** get_vertex(c) either found the vertex or appended it. */
  lemma GetVertexShape(V0: seq<Symbol>, V1: seq<Symbol>, c: WChar, vc: nat)
    requires V1 == V0 || (V1 == V0 + [Symbol(|V0| + 1, [c], 0)] && vc == |V0|)
    ensures VerticesKept(V0, V1) && |V1| <= |V0| + 1
    ensures forall v :: 0 <= v < |V0| ==> V1[v] == V0[v]
    ensures forall v :: |V0| <= v < |V1| ==> V1[v].count == 0 && V1[v].name == [c]
  {
  }

  /** The edges through the loops of read. */
  lemma ReadEdgeFacts(V0: seq<Symbol>, E0: seq<Edge>, V1: seq<Symbol>, E1: seq<Edge>, E2: seq<Edge>,
                      V4: seq<Symbol>, E3: seq<Edge>, M3: map<String, nat>, F0: set<nat>, W0: set<Watch>,
                      c: WChar, vc: nat, T0: set<nat>, Tr: set<nat>, C1: set<nat>, Mv: set<Watch>,
                      accept: Edge -> bool, A: set<nat>)
    requires AllTrack(V0, E0, W0)
    requires FromTallied(E0, E1, F0, vc, T0)
    requires WatchesRead(E1, E2, W0, T0, c, {vc}, Tr, C1, Mv) && EdgesWellFormed(V1, E2)
    requires A == Accepted(V1, E2, Tr, accept) && PromotedEdges(V1, E2, E3, M3, A)
    requires VerticesKept(V1, V4)
    ensures EdgesKept(E0, E3) && JoinsKept(V1, E2, V4, E3)
    ensures FromEdges(E3, F0, vc) == T0
    ensures Tr == T0 + Unpromoted(W0, T0, c, E0)
    ensures Learned(E0, E3, Tr, accept) == A
  {
    assert EdgesKept(E0, E1) && SameEnds(E1, E2) && SameEnds(E2, E3);
    assert SameEnds(E1, E3);
    FromEdgesSameEnds(E1, E3, F0, vc);
    UnpromotedKept(W0, T0, c, E0, E1);
    LearnedIsAccepted(E0, E1, E2, E3, V1, M3, Tr, accept);
    JoinedNamesKept(V1, E2, V4, E3);
  }

  /** ReadStep, from the facts the loops of read establish one by one. */
  lemma ReadAssembled(V0: seq<Symbol>, E0: seq<Edge>, F0: set<nat>, W0: set<Watch>, c: WChar, accept: Edge -> bool,
                      V: seq<Symbol>, E: seq<Edge>, M: map<String, nat>, F: set<nat>, W: set<Watch>,
                      vc: nat, t0: set<nat>, learned: set<nat>)
    requires NamesIndexed(V, M) && EdgesWellFormed(V, E) && VerticesKept(V0, V) && EdgesKept(E0, E)
    requires [c] in M && M[[c]] == vc
    requires FromEdges(E, F0, vc) == t0
    requires Learned(E0, E, t0 + Unpromoted(W0, t0, c, E0), accept) == learned
    requires forall e :: |E0| <= e < |E| ==> E[e].source in F0 && E[e].target == vc
    requires forall f :: f in F0 ==> exists e :: e in t0 && E[e].source == f
    requires forall e :: 0 <= e < |E| ==>
               E[e].count == CountBefore(E0, e) + if e in t0 || e in CompletedEdges(W0, t0, c) then 1 else 0
    requires forall e :: 0 <= e < |E| ==>
               if e in learned then JoinedName(V, E, e) in M && E[e].repSymbolId == M[JoinedName(V, E, e)] + 1
               else E[e].repSymbolId == RepBefore(E0, e)
    requires F == {vc} + CompletedTargets(W0, t0, c) + Representatives(V, E, M, learned)
    requires W == Moved(W0, t0, c) + Spawned(V, E, F)
    requires forall v :: 0 <= v < |V| ==> V[v].count == VertexCountBefore(V0, v) + if v in F then 1 else 0
    requires forall v :: |V0| <= v < |V| ==>
               V[v].name == [c] || exists e :: e in learned && 0 <= e < |E| && V[v].name == JoinedName(V, E, e)
    ensures ReadStep(V0, E0, F0, W0, c, accept, V, E, M, F, W)
  {
  }

  lemma FromsBounded(V0: seq<Symbol>, E0: seq<Edge>, V1: seq<Symbol>, E2: seq<Edge>, V4: seq<Symbol>, M3: map<String, nat>,
                     W0: set<Watch>, T0: set<nat>, c: WChar, vc: nat, C1: set<nat>, A: set<nat>, C2: set<nat>)
    requires AllTrack(V0, E0, W0) && |V0| <= |V4| && vc < |V4| && C1 == {vc} + CompletedTargets(W0, T0, c)
    requires Learnable(V1, E2, A) && (forall e :: e in A ==> JoinedName(V1, E2, e) in M3)
    requires C2 == C1 + PromotedIds(V1, E2, M3, A) && NamesIndexed(V4, M3)
    ensures forall f :: f in C2 ==> f < |V4|
  {
  }

  /** The old vertices keep their names and ids through read; only counts change. */
  lemma VerticesCarried(V0: seq<Symbol>, V1: seq<Symbol>, V3: seq<Symbol>, V4: seq<Symbol>, E2: seq<Edge>,
                        M3: map<String, nat>, A: set<nat>, C2: set<nat>)
    requires VerticesKept(V0, V1) && (forall v :: 0 <= v < |V0| ==> V1[v] == V0[v])
    requires forall v :: |V0| <= v < |V1| ==> V1[v].count == 0
    requires PromotedVertices(V1, E2, V3, M3, A) && VerticesTallied(V3, V4, C2)
    ensures VerticesKept(V0, V4) && VerticesKept(V1, V4) && |V4| == |V3|
    ensures forall v :: 0 <= v < |V4| ==> V4[v].count == VertexCountBefore(V0, v) + if v in C2 then 1 else 0
  {
  }

  lemma FromEdgesSameEnds(E1: seq<Edge>, E3: seq<Edge>, fs: set<nat>, vc: nat)
    requires SameEnds(E1, E3)
    ensures FromEdges(E3, fs, vc) == FromEdges(E1, fs, vc)
  {
  }

  /** The watch loop reads the representatives the edges had before read. */
  lemma UnpromotedKept(W0: set<Watch>, t0: set<nat>, c: WChar, E0: seq<Edge>, E1: seq<Edge>)
    requires forall w :: w in W0 ==> w.edge < |E0|
    requires |E0| <= |E1| && forall e :: 0 <= e < |E0| ==> E1[e].repSymbolId == E0[e].repSymbolId
    ensures Unpromoted(W0, t0, c, E0) == Unpromoted(W0, t0, c, E1)
  {
  }

  /** The predicate sees each traversed edge as AsLearned describes it. */
  lemma LearnedIsAccepted(E0: seq<Edge>, E1: seq<Edge>, E2: seq<Edge>, E3: seq<Edge>, V1: seq<Symbol>,
                          M3: map<String, nat>, traversed: set<nat>, accept: Edge -> bool)
    requires |E0| <= |E1| && forall e :: 0 <= e < |E1| ==> E1[e].repSymbolId == RepBefore(E0, e)
    requires |E2| == |E1| && forall e :: 0 <= e < |E1| ==> E2[e].repSymbolId == E1[e].repSymbolId
    requires EdgesWellFormed(V1, E2)
    requires PromotedEdges(V1, E2, E3, M3, Accepted(V1, E2, traversed, accept))
    ensures Learned(E0, E3, traversed, accept) == Accepted(V1, E2, traversed, accept)
  {
    forall e | e in traversed && e < |E3|
      ensures AsLearned(E0, E3, e) == E2[e]
    {
    }
  }

  /** Every edge of E2 has the same joined name in (V4, E3) as in (V1, E2). */
  ghost predicate JoinsKept(V1: seq<Symbol>, E2: seq<Edge>, V4: seq<Symbol>, E3: seq<Edge>) {
    && |E3| == |E2|
    && forall e :: 0 <= e < |E2| ==>
         && E2[e].source < |V1| && E2[e].target < |V1| && E3[e].source < |V4| && E3[e].target < |V4|
         && JoinedName(V4, E3, e) == JoinedName(V1, E2, e)
  }

  /** Joined names read the same in the graph after read. */
  lemma JoinedNamesKept(V1: seq<Symbol>, E2: seq<Edge>, V4: seq<Symbol>, E3: seq<Edge>)
    requires EdgesWellFormed(V1, E2) && SameEnds(E2, E3) && VerticesKept(V1, V4)
    ensures JoinsKept(V1, E2, V4, E3)
  {
  }

  lemma RepresentativesPromoted(V1: seq<Symbol>, E2: seq<Edge>, V4: seq<Symbol>, E3: seq<Edge>, M3: map<String, nat>, A: set<nat>)
    requires Learnable(V1, E2, A) && forall e :: e in A ==> JoinedName(V1, E2, e) in M3
    requires JoinsKept(V1, E2, V4, E3)
    ensures Representatives(V4, E3, M3, A) == PromotedIds(V1, E2, M3, A)
  {
  }

  /** The edges after read: counts, representatives and new edges. */
  lemma ReadCounts(E0: seq<Edge>, E1: seq<Edge>, E2: seq<Edge>, E3: seq<Edge>, F0: set<nat>, vc: nat, T0: set<nat>,
                   W0: set<Watch>, c: WChar, V1: seq<Symbol>, V4: seq<Symbol>, M3: map<String, nat>, A: set<nat>)
    requires FromTallied(E0, E1, F0, vc, T0)
    requires Bumped(E1, E2, CompletedEdges(W0, T0, c))
    requires PromotedEdges(V1, E2, E3, M3, A)
    requires JoinsKept(V1, E2, V4, E3)
    ensures forall e :: |E0| <= e < |E3| ==> E3[e].source in F0 && E3[e].target == vc
    ensures forall f :: f in F0 ==> exists e :: e in T0 && E3[e].source == f
    ensures forall e :: 0 <= e < |E3| ==>
              E3[e].count == CountBefore(E0, e) + if e in T0 || e in CompletedEdges(W0, T0, c) then 1 else 0
    ensures forall e :: 0 <= e < |E3| ==>
              if e in A then JoinedName(V4, E3, e) in M3 && E3[e].repSymbolId == M3[JoinedName(V4, E3, e)] + 1
              else E3[e].repSymbolId == RepBefore(E0, e)
  {
  }

  /** The vertices read creates are the one for c and the representatives. */
  lemma ReadNewVertices(V0: seq<Symbol>, V1: seq<Symbol>, V3: seq<Symbol>, V4: seq<Symbol>, E2: seq<Edge>, E3: seq<Edge>,
                        M3: map<String, nat>, A: set<nat>, C2: set<nat>, c: WChar)
    requires |V0| <= |V1| && forall v :: |V0| <= v < |V1| ==> V1[v].name == [c]
    requires PromotedVertices(V1, E2, V3, M3, A) && VerticesTallied(V3, V4, C2)
    requires JoinsKept(V1, E2, V4, E3)
    ensures forall v :: |V0| <= v < |V4| ==>
              V4[v].name == [c] || exists e :: e in A && 0 <= e < |E3| && V4[v].name == JoinedName(V4, E3, e)
  {
  }

  /** After read no edge ends at the root and every watch tracks its edge. */
  lemma ReadTracks(V0: seq<Symbol>, E0: seq<Edge>, V4: seq<Symbol>, E3: seq<Edge>, M3: map<String, nat>,
                   W0: set<Watch>, T0: set<nat>, c: WChar, Mv: set<Watch>, C2: set<nat>, W4: set<Watch>, vc: nat)
    requires RootUntargeted(E0) && EdgesKept(E0, E3) && forall e :: |E0| <= e < |E3| ==> E3[e].target == vc
    requires |V0| > 0 && V0[0].name == [] && VerticesKept(V0, V4) && vc < |V4| && V4[vc].name == [c]
    requires AllTrack(V0, E0, W0) && Mv == Moved(W0, T0, c) && W4 == Mv + Spawned(V4, E3, C2)
    requires NamesIndexed(V4, M3) && EdgesWellFormed(V4, E3)
    ensures RootUntargeted(E3) && AllTrack(V4, E3, W4) && V4[0].name == []
  {
    SpawnedTracks(V4, M3, E3, C2);
  }

  /** A representative, once set, is never changed by a read: the
      well-formed graph already points the edge at the vertex named by
      joining its endpoints, and a later promotion finds that same vertex. */
  lemma RepresentativeStable(V0: seq<Symbol>, E0: seq<Edge>, F0: set<nat>, W0: set<Watch>, c: WChar, accept: Edge -> bool,
                             V: seq<Symbol>, E: seq<Edge>, M: map<String, nat>, F: set<nat>, W: set<Watch>)
    requires EdgesWellFormed(V0, E0)
    requires ReadStep(V0, E0, F0, W0, c, accept, V, E, M, F, W)
    ensures forall e :: 0 <= e < |E0| && E0[e].repSymbolId != 0 ==> E[e].repSymbolId == E0[e].repSymbolId
  {
    forall e | 0 <= e < |E0| && E0[e].repSymbolId != 0
      ensures E[e].repSymbolId == E0[e].repSymbolId
    {
      var r := E0[e].repSymbolId;
      var s, t := E0[e].source, E0[e].target;
      assert E[e].source == s && E[e].target == t;
      assert V[s].name == V0[s].name && V[t].name == V0[t].name && V[r - 1].name == V0[r - 1].name;
      assert JoinedName(V, E, e) == V[r - 1].name;
      assert M[V[r - 1].name] == r - 1;
    }
  }

  /** read(c) with FalsePredicate learns nothing: the only vertex it may add
      is the one named [c], every representative stays as it was, and the
      new froms are that vertex and the targets of the completed watches. */
  lemma ReadWithoutLearning(V0: seq<Symbol>, E0: seq<Edge>, F0: set<nat>, W0: set<Watch>, c: WChar,
                            V: seq<Symbol>, E: seq<Edge>, M: map<String, nat>, F: set<nat>, W: set<Watch>)
    requires ReadStep(V0, E0, F0, W0, c, FalsePredicate, V, E, M, F, W)
    ensures |V| <= |V0| + 1
    ensures forall v :: |V0| <= v < |V| ==> V[v].name == [c] && v == M[[c]]
    ensures forall e :: 0 <= e < |E| ==> E[e].repSymbolId == RepBefore(E0, e)
    ensures F == {M[[c]]} + CompletedTargets(W0, FromEdges(E, F0, M[[c]]), c)
  {
    var vc := M[[c]];
    var t0 := FromEdges(E, F0, vc);
    var learned := Learned(E0, E, t0 + Unpromoted(W0, t0, c, E0), FalsePredicate);
    assert learned == {};
    assert Representatives(V, E, M, learned) == {};
    forall v | |V0| <= v < |V|
      ensures V[v].name == [c] && v == M[[c]]
    {
      assert M[V[v].name] == v;
    }
    if |V| > |V0| {
      assert V[|V0|].name == [c] && V[|V| - 1].name == [c];
    }
  }

  /** After read(c), the vertex named [c] is among the new froms, and every
      old from has an edge to it whose count went up by exactly one. */
  lemma ReadTalliesFroms(V0: seq<Symbol>, E0: seq<Edge>, F0: set<nat>, W0: set<Watch>, c: WChar, accept: Edge -> bool,
                         V: seq<Symbol>, E: seq<Edge>, M: map<String, nat>, F: set<nat>, W: set<Watch>)
    requires ReadStep(V0, E0, F0, W0, c, accept, V, E, M, F, W)
    ensures [c] in M && M[[c]] in F && F != {}
    ensures forall f :: f in F0 ==>
      exists e :: 0 <= e < |E| && E[e].source == f && E[e].target == M[[c]] && E[e].count == CountBefore(E0, e) + 1
  {
    var vc := M[[c]];
    var t0 := FromEdges(E, F0, vc);
    forall f | f in F0
      ensures exists e :: 0 <= e < |E| && E[e].source == f && E[e].target == vc && E[e].count == CountBefore(E0, e) + 1
    {
      var e :| e in t0 && E[e].source == f;
      assert E[e].count == CountBefore(E0, e) + 1;
    }
  }

  /** read(c) with EdgeLearner: an edge gets a new representative only once
      it has been counted at least ten times, and an edge from an old from
      to c's vertex that reaches ten has a representative, which joins the
      new froms. */
  lemma ReadWithEdgeLearner(V0: seq<Symbol>, E0: seq<Edge>, F0: set<nat>, W0: set<Watch>, c: WChar,
                            V: seq<Symbol>, E: seq<Edge>, M: map<String, nat>, F: set<nat>, W: set<Watch>)
    requires ReadStep(V0, E0, F0, W0, c, EdgeLearner, V, E, M, F, W)
    ensures forall e :: 0 <= e < |E| && E[e].repSymbolId != RepBefore(E0, e) ==> E[e].count >= 10
    ensures forall e :: e in FromEdges(E, F0, M[[c]]) && E[e].count >= 10 ==>
              E[e].repSymbolId != 0 && E[e].repSymbolId - 1 in F
  {
    var vc := M[[c]];
    var t0 := FromEdges(E, F0, vc);
    var learned := Learned(E0, E, t0 + Unpromoted(W0, t0, c, E0), EdgeLearner);
    forall e | e in t0 && E[e].count >= 10
      ensures E[e].repSymbolId != 0 && E[e].repSymbolId - 1 in F
    {
      assert AsLearned(E0, E, e).count == E[e].count;
      assert e in learned;
      assert M[JoinedName(V, E, e)] in Representatives(V, E, M, learned);
    }
  }
}
