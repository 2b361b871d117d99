/** The prefix-counting trie of trie.hpp. Every node counts the added words
    that end at it (words) and the added words that pass through it on the way
    to a longer word (prefixes). The nodes, which the source allocates one by
    one on the heap and links by address, are kept in an arena: a node is an index into
    `nodes` and its children are a map from character to index. */
module Tries {
  import opened Strings

  datatype Node = Node(words: nat, prefixes: nat, edges: map<WChar, nat>)

  /** How many entries of ws equal w. */
  function Occurrences(ws: seq<String>, w: String): nat {
    if |ws| == 0 then 0
    else Occurrences(ws[..|ws| - 1], w) + (if ws[|ws| - 1] == w then 1 else 0)
  }

  /** How many entries of ws have p as a proper prefix. */
  function ProperlyPrefixed(ws: seq<String>, p: String): nat {
    if |ws| == 0 then 0
    else ProperlyPrefixed(ws[..|ws| - 1], p) + (if IsProperPrefix(p, ws[|ws| - 1]) then 1 else 0)
  }

  /** How many entries of ws have p as a prefix, themselves included. */
  function Prefixed(ws: seq<String>, p: String): nat {
    if |ws| == 0 then 0
    else Prefixed(ws[..|ws| - 1], p) + (if IsPrefix(p, ws[|ws| - 1]) then 1 else 0)
  }

  /** Every word that p prefixes is p itself or a longer word. */
  lemma {:induction false} PrefixedSplits(ws: seq<String>, p: String)
    ensures Prefixed(ws, p) == Occurrences(ws, p) + ProperlyPrefixed(ws, p)
  {
    if |ws| > 0 {
      PrefixedSplits(ws[..|ws| - 1], p);
    }
  }

  /** No word extends p + [c] when none extends p. */
  lemma {:induction false} PrefixedShrinks(ws: seq<String>, p: String, c: WChar)
    ensures Prefixed(ws, p + [c]) <= Prefixed(ws, p)
  {
    if |ws| > 0 {
      PrefixedShrinks(ws[..|ws| - 1], p, c);
      var w := ws[|ws| - 1];
      if IsPrefix(p + [c], w) {
        assert w[..|p|] == (p + [c])[..|p|] == p;
      }
    }
  }

  lemma AppendCounts(ws: seq<String>, w: String, p: String)
    ensures Occurrences(ws + [w], p) == Occurrences(ws, p) + (if w == p then 1 else 0)
    ensures ProperlyPrefixed(ws + [w], p) == ProperlyPrefixed(ws, p) + (if IsProperPrefix(p, w) then 1 else 0)
    ensures Prefixed(ws + [w], p) == Prefixed(ws, p) + (if IsPrefix(p, w) then 1 else 0)
  {
    assert (ws + [w])[..|ws|] == ws;
  }

  /** The arena is a tree: the root spells the empty string, each child
      spells its parent's string plus the character of its edge, and no two
      nodes spell the same string. */
  ghost predicate IsTree(nodes: seq<Node>, paths: seq<String>) {
    && |nodes| == |paths| > 0
    && paths[0] == []
    && (forall i, c :: 0 <= i < |nodes| && c in nodes[i].edges ==>
          0 < nodes[i].edges[c] < |nodes| && paths[nodes[i].edges[c]] == paths[i] + [c])
    && (forall i, j :: 0 <= i < j < |nodes| ==> paths[i] != paths[j])
  }

  /** The state of AddWord(word) after its first i steps: the nodes of the
      first i prefixes of word have had their prefixes counter raised, and
      the nodes created so far lie on word's path. With i == 0 and any word
      this is the trie invariant for the words in added. */
  ghost predicate Walk(nodes: seq<Node>, paths: seq<String>, added: seq<String>, word: String, i: nat) {
    && IsTree(nodes, paths)
    && Counted(nodes, paths, added, word, i)
    && Closed(nodes, paths, added, word, i)
    && Reached(nodes, paths, added, word, i)
  }

  ghost predicate Counted(nodes: seq<Node>, paths: seq<String>, added: seq<String>, word: String, i: nat)
    requires |nodes| == |paths|
  {
    forall j :: 0 <= j < |nodes| ==>
      nodes[j].words == Occurrences(added, paths[j]) &&
      nodes[j].prefixes == ProperlyPrefixed(added, paths[j]) +
        (if IsPrefix(paths[j], word) && |paths[j]| < i then 1 else 0)
  }

  ghost predicate Closed(nodes: seq<Node>, paths: seq<String>, added: seq<String>, word: String, i: nat)
    requires |nodes| == |paths|
  {
    forall j, c :: 0 <= j < |nodes| && c !in nodes[j].edges ==>
      Prefixed(added, paths[j] + [c]) == 0 &&
      (IsPrefix(paths[j] + [c], word) ==> |paths[j]| >= i)
  }

  ghost predicate Reached(nodes: seq<Node>, paths: seq<String>, added: seq<String>, word: String, i: nat)
    requires |nodes| == |paths|
  {
    forall j :: 0 < j < |nodes| ==>
      Prefixed(added, paths[j]) > 0 || (IsPrefix(paths[j], word) && |paths[j]| <= i)
  }

  /** The arena after AddWord passes node and goes on to the new child c. */
  function Grow(nodes: seq<Node>, node: nat, c: WChar): (r: seq<Node>)
    requires node < |nodes|
    ensures |r| == |nodes| + 1 && r[|nodes|] == Node(0, 0, map[])
    ensures forall j :: 0 <= j < |nodes| && j != node ==> r[j] == nodes[j]
    ensures r[node] == nodes[node].(prefixes := nodes[node].prefixes + 1, edges := nodes[node].edges[c := |nodes|])
  {
    var bumped := nodes[node := nodes[node].(prefixes := nodes[node].prefixes + 1)];
    bumped[node := bumped[node].(edges := bumped[node].edges[c := |nodes|])] + [Node(0, 0, map[])]
  }

  /** The trie invariant: the node for string s counts, in words, the added
      words equal to s and, in prefixes, the added words that s properly
      prefixes; a missing child means no added word goes that way, and every
      node but the root lies on some added word. */
  ghost predicate Represents(nodes: seq<Node>, paths: seq<String>, added: seq<String>) {
    && IsTree(nodes, paths)
    && (forall j :: 0 <= j < |nodes| ==>
          nodes[j].words == Occurrences(added, paths[j]) &&
          nodes[j].prefixes == ProperlyPrefixed(added, paths[j]))
    && (forall j, c :: 0 <= j < |nodes| && c !in nodes[j].edges ==> Prefixed(added, paths[j] + [c]) == 0)
    && (forall j :: 0 < j < |nodes| ==> Prefixed(added, paths[j]) > 0)
  }

  lemma WalkStarts(nodes: seq<Node>, paths: seq<String>, added: seq<String>, word: String)
    requires Represents(nodes, paths, added)
    ensures Walk(nodes, paths, added, word, 0)
  {
  }

  /** One step of AddWord along an edge that exists. */
  lemma WalkFollows(nodes: seq<Node>, paths: seq<String>, added: seq<String>, word: String, i: nat, node: nat)
    requires Walk(nodes, paths, added, word, i)
    requires i < |word| && node < |nodes| && paths[node] == word[..i]
    requires word[i] in nodes[node].edges
    ensures var bumped := nodes[node := nodes[node].(prefixes := nodes[node].prefixes + 1)];
            && Walk(bumped, paths, added, word, i + 1)
            && paths[nodes[node].edges[word[i]]] == word[..i + 1]
  {
    assert word[..i + 1] == word[..i] + [word[i]];
    FollowsCounted(nodes, paths, added, word, i, node);
    FollowsClosed(nodes, paths, added, word, i, node);
  }

  lemma FollowsCounted(nodes: seq<Node>, paths: seq<String>, added: seq<String>, word: String, i: nat, node: nat)
    requires IsTree(nodes, paths) && Counted(nodes, paths, added, word, i)
    requires i < |word| && node < |nodes| && paths[node] == word[..i]
    ensures Counted(nodes[node := nodes[node].(prefixes := nodes[node].prefixes + 1)], paths, added, word, i + 1)
  {
    forall j | 0 <= j < |nodes| && IsPrefix(paths[j], word) && |paths[j]| == i
      ensures j == node
    {
      assert paths[j] == word[..i];
    }
  }

  lemma FollowsClosed(nodes: seq<Node>, paths: seq<String>, added: seq<String>, word: String, i: nat, node: nat)
    requires IsTree(nodes, paths) && Closed(nodes, paths, added, word, i)
    requires i < |word| && node < |nodes| && paths[node] == word[..i]
    requires word[i] in nodes[node].edges
    ensures Closed(nodes[node := nodes[node].(prefixes := nodes[node].prefixes + 1)], paths, added, word, i + 1)
  {
    forall j | 0 <= j < |nodes| && IsPrefix(paths[j], word) && |paths[j]| == i
      ensures j == node
    {
      assert paths[j] == word[..i];
    }
    forall j, c | 0 <= j < |nodes| && c !in nodes[j].edges && IsPrefix(paths[j] + [c], word)
      ensures |paths[j]| >= i + 1
    {
      var q := paths[j] + [c];
      assert q[..|paths[j]|] == paths[j] && q[|paths[j]|] == c;
      assert IsPrefix(paths[j], word);
    }
  }

  /** One step of AddWord that creates the missing child. */
  lemma WalkGrows(nodes: seq<Node>, paths: seq<String>, added: seq<String>, word: String, i: nat, node: nat)
    requires Walk(nodes, paths, added, word, i)
    requires i < |word| && node < |nodes| && paths[node] == word[..i]
    requires word[i] !in nodes[node].edges
    ensures Walk(Grow(nodes, node, word[i]), paths + [word[..i + 1]], added, word, i + 1)
  {
    var spelled := word[..i + 1];
    assert spelled == paths[node] + [word[i]];
    assert Prefixed(added, spelled) == 0;
    forall j | 0 <= j < |nodes|
      ensures paths[j] != spelled
    {
    }
    GrowsTree(nodes, paths, node, word[i]);
    GrowsCounted(nodes, paths, added, word, i, node);
    GrowsClosed(nodes, paths, added, word, i, node);
    GrowsReached(nodes, paths, added, word, i, node);
  }

  lemma GrowsTree(nodes: seq<Node>, paths: seq<String>, node: nat, c: WChar)
    requires IsTree(nodes, paths) && node < |nodes| && c !in nodes[node].edges
    requires forall j :: 0 <= j < |nodes| ==> paths[j] != paths[node] + [c]
    ensures IsTree(Grow(nodes, node, c), paths + [paths[node] + [c]])
  {
  }

  lemma GrowsCounted(nodes: seq<Node>, paths: seq<String>, added: seq<String>, word: String, i: nat, node: nat)
    requires IsTree(nodes, paths) && Counted(nodes, paths, added, word, i)
    requires i < |word| && node < |nodes| && paths[node] == word[..i]
    requires Prefixed(added, word[..i + 1]) == 0
    ensures Counted(Grow(nodes, node, word[i]), paths + [word[..i + 1]], added, word, i + 1)
  {
    PrefixedSplits(added, word[..i + 1]);
    forall j | 0 <= j < |nodes| && IsPrefix(paths[j], word) && |paths[j]| == i
      ensures j == node
    {
      assert paths[j] == word[..i];
    }
  }

  lemma GrowsClosed(nodes: seq<Node>, paths: seq<String>, added: seq<String>, word: String, i: nat, node: nat)
    requires IsTree(nodes, paths) && Closed(nodes, paths, added, word, i)
    requires i < |word| && node < |nodes| && paths[node] == word[..i]
    requires word[i] !in nodes[node].edges
    requires Prefixed(added, word[..i + 1]) == 0
    ensures Closed(Grow(nodes, node, word[i]), paths + [word[..i + 1]], added, word, i + 1)
  {
    var nodes' := Grow(nodes, node, word[i]);
    var paths' := paths + [word[..i + 1]];
    forall d
      ensures Prefixed(added, word[..i + 1] + [d]) == 0
    {
      PrefixedShrinks(added, word[..i + 1], d);
    }
    forall j | 0 <= j < |nodes| && IsPrefix(paths[j], word) && |paths[j]| == i
      ensures j == node
    {
      assert paths[j] == word[..i];
    }
    forall j, d | 0 <= j < |nodes'| && d !in nodes'[j].edges && IsPrefix(paths'[j] + [d], word)
      ensures |paths'[j]| >= i + 1
    {
      if j < |nodes| {
        var q := paths[j] + [d];
        assert q[..|paths[j]|] == paths[j] && q[|paths[j]|] == d;
        assert IsPrefix(paths[j], word);
      }
    }
  }

  lemma GrowsReached(nodes: seq<Node>, paths: seq<String>, added: seq<String>, word: String, i: nat, node: nat)
    requires IsTree(nodes, paths) && Reached(nodes, paths, added, word, i)
    requires i < |word| && node < |nodes|
    ensures Reached(Grow(nodes, node, word[i]), paths + [word[..i + 1]], added, word, i + 1)
  {
  }

  /** The last step of AddWord: counting the word at the node it ends on
      re-establishes the invariant for the longer history. */
  lemma WalkEnds(nodes: seq<Node>, paths: seq<String>, added: seq<String>, word: String, node: nat)
    requires Walk(nodes, paths, added, word, |word|)
    requires node < |nodes| && paths[node] == word
    ensures Represents(nodes[node := nodes[node].(words := nodes[node].words + 1)], paths, added + [word])
  {
    var added' := added + [word];
    var nodes' := nodes[node := nodes[node].(words := nodes[node].words + 1)];
    forall j | 0 <= j < |nodes'|
      ensures nodes'[j].words == Occurrences(added', paths[j])
      ensures nodes'[j].prefixes == ProperlyPrefixed(added', paths[j])
    {
      AppendCounts(added, word, paths[j]);
      if j != node {
        assert paths[j] != word;
      }
    }
    forall j, c | 0 <= j < |nodes'| && c !in nodes'[j].edges
      ensures Prefixed(added', paths[j] + [c]) == 0
    {
      AppendCounts(added, word, paths[j] + [c]);
    }
    forall j | 0 < j < |nodes'|
      ensures Prefixed(added', paths[j]) > 0
    {
      AppendCounts(added, word, paths[j]);
    }
    assert IsTree(nodes', paths);
  }

  /** What one more word changes at the nodes that were there before it. */
  lemma CountsGrow(nodes0: seq<Node>, paths0: seq<String>, added0: seq<String>,
                   nodes1: seq<Node>, paths1: seq<String>, word: String)
    requires Represents(nodes0, paths0, added0) && Represents(nodes1, paths1, added0 + [word])
    requires |nodes1| >= |nodes0| && paths1[..|nodes0|] == paths0
    ensures forall i :: 0 <= i < |nodes0| ==>
              && nodes1[i].words == nodes0[i].words + (if paths1[i] == word then 1 else 0)
              && nodes1[i].prefixes == nodes0[i].prefixes + (if IsProperPrefix(paths1[i], word) then 1 else 0)
  {
    forall i | 0 <= i < |nodes0|
      ensures nodes1[i].words == nodes0[i].words + (if paths1[i] == word then 1 else 0)
      ensures nodes1[i].prefixes == nodes0[i].prefixes + (if IsProperPrefix(paths1[i], word) then 1 else 0)
    {
      assert paths1[i] == paths0[i];
      AppendCounts(added0, word, paths0[i]);
    }
  }

  class Trie {
    /** The node arena; nodes[0] is the root. */
    var nodes: seq<Node>
    /** Every word passed to AddWord so far, in order. */
    ghost var added: seq<String>
    /** The string spelled by the path from the root to each node. */
    ghost var paths: seq<String>

    ghost predicate Valid()
      reads this
    {
      Represents(nodes, paths, added)
    }

    constructor ()
      ensures Valid() && added == [] && nodes == [Node(0, 0, map[])]
    {
      nodes := [Node(0, 0, map[])];
      added := [];
      paths := [[]];
    }

    /** add_word and add_word_helper: walks word from the root, counting it
        as a proper-prefix extension at every node it passes and as a word at
        the node it ends on, creating the missing nodes along the way. */
    method AddWord(word: String)
      requires Valid()
      modifies this
      ensures Valid()
      ensures added == old(added) + [word]
      ensures |nodes| >= old(|nodes|) && paths[..old(|nodes|)] == old(paths)
      ensures forall i :: 0 <= i < old(|nodes|) ==>
                && nodes[i].words == old(nodes[i].words) + (if paths[i] == word then 1 else 0)
                && nodes[i].prefixes == old(nodes[i].prefixes) + (if IsProperPrefix(paths[i], word) then 1 else 0)
      ensures forall i :: old(|nodes|) <= i < |nodes| ==> IsPrefix(paths[i], word)
    {
      WalkStarts(nodes, paths, added, word);
      ghost var paths0 := paths;
      var node := 0;
      var i := 0;
      while i < |word|
        invariant 0 <= i <= |word|
        invariant Walk(nodes, paths, added, word, i)
        invariant 0 <= node < |nodes| && paths[node] == word[..i]
        invariant |paths| >= |paths0| && paths[..|paths0|] == paths0
        invariant forall j :: |paths0| <= j < |paths| ==> IsPrefix(paths[j], word)
        invariant added == old(added)
      {
        node := Descend(word, i, node);
        i := i + 1;
      }
      assert word[..i] == word;
      CountWord(word, node);
      CountsGrow(old(nodes), old(paths), old(added), nodes, paths, word);
    }

    /** The last statement of add_word_helper: counts word at the node it
        ends on, which is then an added word. */
    method CountWord(word: String, node: nat)
      requires Walk(nodes, paths, added, word, |word|)
      requires node < |nodes| && paths[node] == word
      modifies this
      ensures Valid() && added == old(added) + [word] && paths == old(paths)
    {
      WalkEnds(nodes, paths, added, word, node);
      nodes := nodes[node := nodes[node].(words := nodes[node].words + 1)];
      added := added + [word];
    }

    /** One iteration of the loop of add_word_helper: counts word at node as
        a prefix of a longer word and moves to the child for word[i], creating
        it when it is missing. */
    method Descend(word: String, i: nat, node: nat) returns (next: nat)
      requires Walk(nodes, paths, added, word, i)
      requires i < |word| && node < |nodes| && paths[node] == word[..i]
      modifies this
      ensures Walk(nodes, paths, added, word, i + 1)
      ensures next < |nodes| && paths[next] == word[..i + 1]
      ensures added == old(added) && |paths| >= old(|paths|) && paths[..old(|paths|)] == old(paths)
      ensures forall j :: old(|paths|) <= j < |paths| ==> paths[j] == word[..i + 1]
    {
      var c := word[i];
      if c !in nodes[node].edges {
        WalkGrows(nodes, paths, added, word, i, node);
        var temp := |nodes|;
        nodes := Grow(nodes, node, c);
        paths := paths + [word[..i + 1]];
        next := temp;
      } else {
        WalkFollows(nodes, paths, added, word, i, node);
        nodes := nodes[node := nodes[node].(prefixes := nodes[node].prefixes + 1)];
        next := nodes[node].edges[c];
      }
    }

    /** count_words and count_words_helper: follows word from the root and
        answers the words counter of the node it reaches, or 0 when the path
        leaves the trie. */
    method CountWords(word: String) returns (n: nat)
      requires Valid()
      ensures n == Occurrences(added, word)
    {
      var node := 0;
      var i := 0;
      while i < |word|
        invariant 0 <= i <= |word| && 0 <= node < |nodes| && paths[node] == word[..i]
      {
        var c := word[i];
        assert word[..i + 1] == word[..i] + [c];
        i := i + 1;
        if c !in nodes[node].edges {
          NotFoundBelow(node, c, word);
          return 0;
        }
        node := nodes[node].edges[c];
      }
      assert word[..i] == word;
      return nodes[node].words;
    }

    /** count_prefixes and count_prefixes_helper: as CountWords, but answers
        the prefixes counter. */
    method CountPrefixes(prefix: String) returns (n: nat)
      requires Valid()
      ensures n == ProperlyPrefixed(added, prefix)
    {
      var node := 0;
      var i := 0;
      while i < |prefix|
        invariant 0 <= i <= |prefix| && 0 <= node < |nodes| && paths[node] == prefix[..i]
      {
        var c := prefix[i];
        assert prefix[..i + 1] == prefix[..i] + [c];
        i := i + 1;
        if c !in nodes[node].edges {
          NotFoundBelow(node, c, prefix);
          return 0;
        }
        node := nodes[node].edges[c];
      }
      assert prefix[..i] == prefix;
      return nodes[node].prefixes;
    }

    /** A query whose path leaves the trie concerns no added word. */
    lemma NotFoundBelow(node: nat, c: WChar, w: String)
      requires Valid() && node < |nodes| && c !in nodes[node].edges
      requires IsPrefix(paths[node] + [c], w)
      ensures Occurrences(added, w) == 0 && ProperlyPrefixed(added, w) == 0
    {
      PrefixedShrinksTo(added, paths[node] + [c], w);
      PrefixedSplits(added, w);
    }
  }

  /** Every word that w prefixes is also prefixed by a prefix of w. */
  lemma {:induction false} PrefixedShrinksTo(ws: seq<String>, p: String, w: String)
    requires IsPrefix(p, w)
    ensures Prefixed(ws, w) <= Prefixed(ws, p)
  {
    if |ws| > 0 {
      PrefixedShrinksTo(ws[..|ws| - 1], p, w);
      var x := ws[|ws| - 1];
      if IsPrefix(w, x) {
        assert x[..|p|] == w[..|p|];
      }
    }
  }

  /** The example in the driver: after "word", "worry" and "try", "worr"
      properly prefixes one added word, "wor" two and "t" one. */
  method DriverExample() returns (worr: nat, wor: nat, t: nat)
    ensures worr == 1 && wor == 2 && t == 1
  {
    var trie := new Trie();
    var word: String := [119, 111, 114, 100];
    var worry: String := [119, 111, 114, 114, 121];
    var try_: String := [116, 114, 121];
    trie.AddWord(word);
    trie.AddWord(worry);
    trie.AddWord(try_);
    DriverCounts(word, worry, try_);
    worr := trie.CountPrefixes([119, 111, 114, 114]);
    wor := trie.CountPrefixes([119, 111, 114]);
    t := trie.CountPrefixes([116]);
  }

  lemma DriverCounts(word: String, worry: String, try_: String)
    requires word == [119, 111, 114, 100] && worry == [119, 111, 114, 114, 121] && try_ == [116, 114, 121]
    ensures var added := [] + [word] + [worry] + [try_];
            && ProperlyPrefixed(added, [119, 111, 114, 114]) == 1
            && ProperlyPrefixed(added, [119, 111, 114]) == 2
            && ProperlyPrefixed(added, [116]) == 1
  {
    var worr: String := [119, 111, 114, 114];
    var wor: String := [119, 111, 114];
    var t: String := [116];
    forall p
      ensures ProperlyPrefixed([] + [word] + [worry] + [try_], p) ==
        (if IsProperPrefix(p, word) then 1 else 0) +
        (if IsProperPrefix(p, worry) then 1 else 0) +
        (if IsProperPrefix(p, try_) then 1 else 0)
    {
      AppendCounts([], word, p);
      AppendCounts([] + [word], worry, p);
      AppendCounts([] + [word] + [worry], try_, p);
    }
    assert word[..4][3] != worr[3] && worry[..4] == worr && !IsProperPrefix(worr, try_);
    assert word[..3] == wor && worry[..3] == wor && try_[..3][0] != wor[0];
    assert word[..1][0] != t[0] && worry[..1][0] != t[0] && try_[..1] == t;
  }
}
