/** Runes::Watch of main.cpp: a cursor through the name of an edge's target,
    tracking how much of that name the characters read so far have matched.
    The source keeps a pair of string iterators (position and end) into the
    target's name; here the name is carried by value and the position is an
    index into it, so the end iterator is |name|. */
module Watches {
  import opened Strings

  datatype Watch = Watch(edge: nat, target: nat, name: String, position: nat)

  /** The position lies in [begin, end] of the name. */
  predicate InBounds(w: Watch) {
    w.position <= |w.name|
  }

  /** at_end: the position has reached the end iterator. */
  predicate AtEnd(w: Watch) {
    w.position == |w.name|
  }

  /** expects: the character under the position; dereferencing the end
      iterator is not allowed. */
  function Expects(w: Watch): (r: WChar)
    requires InBounds(w) && !AtEnd(w)
    ensures Advance(w).0 && r == w.name[Advance(w).1.position - 1]
  {
    w.name[w.position]
  }

  /** advance: steps the position forward unless it is at the end, and says
      whether it moved. */
  function Advance(w: Watch): (r: (bool, Watch))
    requires InBounds(w)
    ensures InBounds(r.1)
    ensures r.0 <==> !AtEnd(w)
    ensures r.1.edge == w.edge && r.1.target == w.target && r.1.name == w.name
    ensures r.1.position == if r.0 then w.position + 1 else w.position
  {
    if AtEnd(w) then (false, w) else (true, w.(position := w.position + 1))
  }

  /** The watch after n calls of advance. */
  function AdvanceTimes(w: Watch, n: nat): (r: Watch)
    requires InBounds(w)
    ensures InBounds(r)
    decreases n
  {
    if n == 0 then w else AdvanceTimes(Advance(w).1, n - 1)
  }

  /** Advancing walks the position to the end of the name and no further:
      n calls move it by n but never past the end, and once there advance
      answers false and leaves the watch as it is. */
  lemma {:induction false} AdvanceStopsAtEnd(w: Watch, n: nat)
    requires InBounds(w)
    ensures AdvanceTimes(w, n).position == if w.position + n <= |w.name| then w.position + n else |w.name|
    ensures AdvanceTimes(w, n).name == w.name && AdvanceTimes(w, n).edge == w.edge
    ensures w.position + n >= |w.name| ==> AtEnd(AdvanceTimes(w, n)) && Advance(AdvanceTimes(w, n)) == (false, AdvanceTimes(w, n))
    decreases n
  {
    if n > 0 {
      AdvanceStopsAtEnd(Advance(w).1, n - 1);
    }
  }

  /** Watch::operator<, on (edge, position). The source first compares the
      address of the Runes object, which is the same for every watch of a
      reader, and orders edges by the address of their property object; the
      edge index stands in for that address. */
  predicate WatchLess(a: Watch, b: Watch) {
    a.edge < b.edge || (a.edge == b.edge && a.position < b.position)
  }

  /** Watches on the same edge follow the same name. */
  ghost predicate SameEdgeSameName(ws: set<Watch>) {
    forall u, v :: u in ws && v in ws && u.edge == v.edge ==> u.target == v.target && u.name == v.name
  }

  /** On such a set WatchLess is a strict total order. */
  lemma WatchLessTotal(ws: set<Watch>, u: Watch, v: Watch)
    requires SameEdgeSameName(ws) && u in ws && v in ws && u != v
    ensures WatchLess(u, v) != WatchLess(v, u)
  {
  }

  /** The watch least in (edge index, position) order. */
  method LeastWatch(ws: set<Watch>) returns (w: Watch)
    requires ws != {} && SameEdgeSameName(ws)
    ensures w in ws && forall u :: u in ws && u != w ==> WatchLess(w, u)
  {
    w :| w in ws;
    var rest := ws - {w};
    while rest != {}
      invariant rest <= ws && w in ws && w !in rest
      invariant forall u :: u in ws - rest && u != w ==> WatchLess(w, u)
      decreases |rest|
    {
      var u :| u in rest;
      ghost var done := ws - rest;
      if WatchLess(u, w) {
        assert forall x :: x in done && x != w ==> WatchLess(u, x);
        w := u;
      } else {
        WatchLessTotal(ws, u, w);
      }
      rest := rest - {u};
      assert ws - rest == done + {u};
    }
  }
}
