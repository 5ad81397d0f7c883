/** What the filters of a walk let through. */
module WalkFilters {
  import opened Prelude
  import opened WalkSpec

  /** The links that have a node of which p holds. */
  function Selected(w: Walk, p: Id -> bool, ls: seq<Link>): seq<Link> {
    if ls == [] then []
    else
      var target := TargetOf(w, ls[0]);
      (if target.Some? && p(target.value) then [ls[0]] else []) + Selected(w, p, ls[1..])
  }

  lemma {:induction false} SelectedAppend(w: Walk, p: Id -> bool, a: seq<Link>, b: seq<Link>)
    ensures Selected(w, p, a + b) == Selected(w, p, a) + Selected(w, p, b)
  {
    if a == [] {
      assert a + b == b;
    } else {
      assert (a + b)[1..] == a[1..] + b;
      SelectedAppend(w, p, a[1..], b);
    }
  }

  lemma {:induction false} SelectedIn(w: Walk, p: Id -> bool, ls: seq<Link>, l: Link)
    ensures l in Selected(w, p, ls) <==> l in ls && TargetOf(w, l).Some? && p(TargetOf(w, l).value)
  {
    if ls != [] {
      SelectedIn(w, p, ls[1..], l);
      assert ls == [ls[0]] + ls[1..];
    }
  }

  /** The filter on what is presented takes away the links it rejects, and the nulls, and nothing else. */
  lemma {:induction false} OutFilterSelects(w: Walk, rank: Id -> nat, p: Id -> bool, l: Link)
    requires Acyclic(w.g, rank) && w.out == Matching(p) && !w.rec.Unseen?
    ensures Preorder(w, rank, l) == Selected(w, p, Preorder(w.(out := Everything), rank, l))
    decreases if TargetOf(w, l).Some? then rank(TargetOf(w, l).value) + 1 else 0, 1, 0
  {
    hide Acyclic;
    var all := w.(out := Everything);
    var below := if Entered(w, l, {}) then PreorderFrom(all, rank, TargetOf(w, l).value, 0) else [];
    assert Entered(all, l, {}) == Entered(w, l, {});
    if Entered(w, l, {}) {
      OutFilterBelow(w, rank, p, TargetOf(w, l).value, 0);
    }
    SelectedAppend(w, p, [l], below);
    assert [l][1..] == [];
  }

  lemma {:induction false} OutFilterBelow(w: Walk, rank: Id -> nat, p: Id -> bool, n: Id, i: nat)
    requires Acyclic(w.g, rank) && w.out == Matching(p) && !w.rec.Unseen? && i <= |Kids(w.g, n)|
    ensures PreorderFrom(w, rank, n, i) == Selected(w, p, PreorderFrom(w.(out := Everything), rank, n, i))
    decreases rank(n) + 1, 0, |Kids(w.g, n)| - i
  {
    if i < |Kids(w.g, n)| {
      var all := w.(out := Everything);
      RankFalls(w, rank, n, i);
      hide Acyclic;
      OutFilterSelects(w, rank, p, Child(n, i));
      OutFilterBelow(w, rank, p, n, i + 1);
      SelectedAppend(w, p, Preorder(all, rank, Child(n, i)), PreorderFrom(all, rank, n, i + 1));
    }
  }

  lemma RankFalls(w: Walk, rank: Id -> nat, n: Id, i: nat)
    requires Acyclic(w.g, rank) && i < |Kids(w.g, n)|
    ensures var t := TargetOf(w, Child(n, i)); t.Some? ==> rank(t.value) < rank(n)
  {
  }

  /** A path of k links leads from a to b, and q holds of a, of b and of every node between. */
  ghost predicate LeadsTo(g: Graph, q: Id -> bool, a: Id, b: Id, k: nat)
    decreases k
  {
    q(a) && if k == 0 then a == b else exists i :: 0 <= i < |Kids(g, a)| && Kids(g, a)[i].Some? && LeadsTo(g, q, Kids(g, a)[i].value, b, k - 1)
  }

  /** The link is the first one, or a child of a node that can be entered from it. */
  ghost predicate Under(w: Walk, q: Id -> bool, first: Link, l: Link) {
    || l == first
    || (&& l.Child? && l.i < |Kids(w.g, l.parent)| && TargetOf(w, first).Some?
        && exists k: nat :: LeadsTo(w.g, q, TargetOf(w, first).value, l.parent, k))
  }

  /** The filter on what is entered accepts just the nodes of which q holds. */
  ghost predicate EntersWhere(w: Walk, q: Id -> bool) {
    w.rec == Matching(q) || (w.rec == Everything && forall n :: q(n))
  }

  lemma {:induction false} PreorderIsUnder(w: Walk, rank: Id -> nat, q: Id -> bool, first: Link, l: Link)
    requires Acyclic(w.g, rank) && w.out == Everything && EntersWhere(w, q)
    ensures l in Preorder(w, rank, first) <==> Under(w, q, first, l)
    decreases if TargetOf(w, first).Some? then rank(TargetOf(w, first).value) + 1 else 0, 1, 0
  {
    hide Acyclic;
    hide LeadsTo;
    var target := TargetOf(w, first);
    if target.Some? {
      assert Entered(w, first, {}) == q(target.value);
      if q(target.value) {
        BelowIsUnder(w, rank, q, target.value, 0, l);
        Unfolded(w, q, first, l);
      } else {
        Closed(w, q, first, l);
      }
    }
  }

  /** A node that q rejects leads nowhere. */
  lemma Closed(w: Walk, q: Id -> bool, first: Link, l: Link)
    requires TargetOf(w, first).Some? && !q(TargetOf(w, first).value)
    ensures Under(w, q, first, l) <==> l == first
  {
  }

  /** Behind a link are the links of its node and what is behind those. */
  lemma Unfolded(w: Walk, q: Id -> bool, first: Link, l: Link)
    requires TargetOf(w, first).Some? && q(TargetOf(w, first).value)
    ensures var n := TargetOf(w, first).value;
            Under(w, q, first, l) <==> l == first || exists j: nat :: j < |Kids(w.g, n)| && Under(w, q, Child(n, j), l)
  {
    var n := TargetOf(w, first).value;
    if Under(w, q, first, l) && l != first {
      var k: nat :| LeadsTo(w.g, q, n, l.parent, k);
      if k == 0 {
        assert Under(w, q, Child(n, l.i), l);
      } else {
        var j: nat :| j < |Kids(w.g, n)| && Kids(w.g, n)[j].Some? && LeadsTo(w.g, q, Kids(w.g, n)[j].value, l.parent, k - 1);
        assert Under(w, q, Child(n, j), l);
      }
    }
    if exists j: nat :: j < |Kids(w.g, n)| && Under(w, q, Child(n, j), l) {
      var j: nat :| j < |Kids(w.g, n)| && Under(w, q, Child(n, j), l);
      if l == Child(n, j) {
        assert LeadsTo(w.g, q, n, n, 0);
      } else {
        var k: nat :| LeadsTo(w.g, q, Kids(w.g, n)[j].value, l.parent, k);
        assert LeadsTo(w.g, q, n, l.parent, k + 1);
      }
    }
  }

  lemma {:induction false} BelowIsUnder(w: Walk, rank: Id -> nat, q: Id -> bool, n: Id, i: nat, l: Link)
    requires Acyclic(w.g, rank) && w.out == Everything && EntersWhere(w, q) && i <= |Kids(w.g, n)|
    ensures l in PreorderFrom(w, rank, n, i) <==> exists j: nat :: i <= j < |Kids(w.g, n)| && Under(w, q, Child(n, j), l)
    decreases rank(n) + 1, 0, |Kids(w.g, n)| - i
  {
    hide Under;
    hide EntersWhere;
    if i < |Kids(w.g, n)| {
      RankFalls(w, rank, n, i);
      hide Acyclic;
      PreorderIsUnder(w, rank, q, Child(n, i), l);
      BelowIsUnder(w, rank, q, n, i + 1, l);
    }
  }

  /** With a filter p on what is presented, the walk of an acyclic graph presents exactly the links whose
      node satisfies p and that hang, through nodes that all satisfy q, from the root; without one, those
      of null pointers and of any node. */
  lemma WalkPresents(w: Walk, rank: Id -> nat, p: Id -> bool, q: Id -> bool, l: Link)
    requires Acyclic(w.g, rank) && EntersWhere(w, q) && (w.out == Matching(p) || w.out == Everything)
    ensures l in Yields(w, rank, [Root], {}) <==>
              && (w.out == Everything || (TargetOf(w, l).Some? && p(TargetOf(w, l).value)))
              && Under(w, q, Root, l)
  {
    hide Acyclic;
    hide Preorder;
    hide Yields;
    var all := w.(out := Everything);
    WalkOfRoot(w, rank);
    PreorderIsUnder(all, rank, q, Root, l);
    assert Under(all, q, Root, l) <==> Under(w, q, Root, l);
    if w.out == Everything {
      assert all == w;
    } else {
      OutFilterSelects(w, rank, p, Root);
      SelectedIn(w, p, Preorder(all, rank, Root), l);
      assert TargetOf(all, l) == TargetOf(w, l);
    }
  }

  lemma WalkOfRoot(w: Walk, rank: Id -> nat)
    requires Acyclic(w.g, rank) && !w.out.Unseen? && !w.rec.Unseen?
    ensures Yields(w, rank, [Root], {}) == Preorder(w, rank, Root)
  {
    WalkIsPreorder(w, rank, [Root]);
    hide Acyclic;
    assert PreorderAll(w, rank, [Root]) == Preorder(w, rank, Root) + PreorderAll(w, rank, [Root][1..]);
    assert [Root][1..] == [];
  }

  /** The order is that of the walk without a filter. */
  lemma FilterKeepsOrder(w: Walk, rank: Id -> nat, p: Id -> bool)
    requires Acyclic(w.g, rank) && w.out == Matching(p) && !w.rec.Unseen?
    ensures Yields(w, rank, [Root], {}) == Selected(w, p, Yields(w.(out := Everything), rank, [Root], {}))
  {
    hide Acyclic;
    hide Preorder;
    hide Yields;
    WalkOfRoot(w, rank);
    WalkOfRoot(w.(out := Everything), rank);
    OutFilterSelects(w, rank, p, Root);
  }
}
