/** What the walks that see each node or each link once present. */
module WalkTheorems {
  import opened Prelude
  import opened WalkSpec

  // ---------- reachability ----------

  /** A path of k links leads from a to b. */
  ghost predicate ReachIn(g: Graph, a: Id, b: Id, k: nat)
    decreases k
  {
    if k == 0 then a == b else exists i :: 0 <= i < |Kids(g, a)| && Kids(g, a)[i].Some? && ReachIn(g, Kids(g, a)[i].value, b, k - 1)
  }

  ghost predicate Reach(g: Graph, a: Id, b: Id) {
    exists k: nat :: ReachIn(g, a, b, k)
  }

  lemma {:induction false} ReachStep(g: Graph, a: Id, b: Id, k: nat, i: nat)
    requires ReachIn(g, a, b, k) && i < |Kids(g, b)| && Kids(g, b)[i].Some?
    ensures ReachIn(g, a, Kids(g, b)[i].value, k + 1)
    decreases k
  {
    var c := Kids(g, b)[i].value;
    if k == 0 {
      assert ReachIn(g, c, c, 0);
    } else {
      var j :| 0 <= j < |Kids(g, a)| && Kids(g, a)[j].Some? && ReachIn(g, Kids(g, a)[j].value, b, k - 1);
      ReachStep(g, Kids(g, a)[j].value, b, k - 1, i);
    }
  }

  ghost predicate Closed(g: Graph, s: set<Id>) {
    forall n, i :: n in s && 0 <= i < |Kids(g, n)| && Kids(g, n)[i].Some? ==> Kids(g, n)[i].value in s
  }

  lemma {:induction false} ClosedReaches(g: Graph, s: set<Id>, a: Id, b: Id, k: nat)
    requires Closed(g, s) && a in s && ReachIn(g, a, b, k)
    ensures b in s
    decreases k
  {
    if k > 0 {
      var j :| 0 <= j < |Kids(g, a)| && Kids(g, a)[j].Some? && ReachIn(g, Kids(g, a)[j].value, b, k - 1);
      ClosedReaches(g, s, Kids(g, a)[j].value, b, k - 1);
    }
  }

  // ---------- ParentWalk ----------

  predicate IsParentWalk(w: Walk) {
    w.out.Everything? && w.rec.Unseen?
  }

  /** The nodes entered by the end of the walk. */
  ghost function Final(w: Walk, rank: Id -> nat, pending: seq<Link>, seen: set<Id>): set<Id>
    requires Ends(w, rank)
    decreases Fresh(w, seen), Load(w, rank, pending)
  {
    if pending == [] then seen
    else
      AdvanceLowers(w, rank, pending, seen);
      var seen1 := AfterShown(w, pending[0], seen);
      Final(w, rank, Advanced(w, pending, seen1), AfterEntered(w, pending[0], seen1))
  }

  ghost predicate Distinct(s: seq<Link>) {
    forall i, j :: 0 <= i < j < |s| ==> s[i] != s[j]
  }

  /** A link of a node entered after `seen`. */
  predicate NewLink(g: Graph, l: Link, seen: set<Id>, end: set<Id>) {
    l.Child? && l.parent in end && l.parent !in seen && l.i < |Kids(g, l.parent)|
  }

  predicate FromSeen(pending: seq<Link>, seen: set<Id>) {
    forall k :: 0 <= k < |pending| ==> pending[k].Root? || pending[k].parent in seen
  }

  lemma KidsAreDistinct(g: Graph, n: Id, rest: seq<Link>, seen: set<Id>)
    requires Distinct(rest) && FromSeen(rest, seen) && n !in seen
    ensures Distinct(LinksFrom(g, n, 0) + rest) && FromSeen(LinksFrom(g, n, 0) + rest, seen + {n})
    ensures forall l :: l in LinksFrom(g, n, 0) <==> l.Child? && l.parent == n && l.i < |Kids(g, n)|
  {
    var ls := LinksFrom(g, n, 0);
    forall l ensures l in ls <==> l.Child? && l.parent == n && l.i < |Kids(g, n)| {
      if l.Child? && l.parent == n && l.i < |Kids(g, n)| {
        assert ls[l.i] == l;
      }
    }
    forall k | 0 <= k < |rest| ensures rest[k] !in ls {
    }
  }

  /** The links still to come: those pending, and those of the nodes yet to be entered, each once. */
  lemma {:induction false} ParentLinks(w: Walk, rank: Id -> nat, pending: seq<Link>, seen: set<Id>)
    requires IsParentWalk(w) && Distinct(pending) && FromSeen(pending, seen)
    ensures var ys, end := Yields(w, rank, pending, seen), Final(w, rank, pending, seen);
            && seen <= end && Distinct(ys)
            && (forall l :: l in ys <==> l in pending || NewLink(w.g, l, seen, end))
            && (forall l :: l in ys && TargetOf(w, l).Some? ==> TargetOf(w, l).value in end)
    decreases Fresh(w, seen), Load(w, rank, pending)
  {
    if pending != [] {
      hide Distinct;
      hide FromSeen;
      hide Advanced;
      hide NewLink;
      hide Fresh;
      hide Load;
      AdvanceLowers(w, rank, pending, seen);
      var l, rest := pending[0], pending[1..];
      var pending', seen' := Advanced(w, pending, seen), AfterEntered(w, l, seen);
      assert AfterShown(w, l, seen) == seen;
      assert pending == [l] + rest;
      NextPending(w, l, rest, seen);
      ParentLinks(w, rank, pending', seen');
      var ys', end := Yields(w, rank, pending', seen'), Final(w, rank, pending', seen');
      assert Yields(w, rank, pending, seen) == [l] + ys';
      ParentStep(w, l, rest, pending', seen, seen', ys', end);
    }
  }

  /** What is pending after a link has been stepped into or over. */
  lemma NextPending(w: Walk, l: Link, rest: seq<Link>, seen: set<Id>)
    requires IsParentWalk(w) && Distinct([l] + rest) && FromSeen([l] + rest, seen)
    ensures var pending', seen' := Advanced(w, [l] + rest, seen), AfterEntered(w, l, seen);
            && Distinct(pending') && FromSeen(pending', seen') && (TargetOf(w, l).Some? ==> TargetOf(w, l).value in seen')
            && forall x :: x in pending' <==> x in rest || NewLink(w.g, x, seen, seen')
  {
    DistinctHead(l, rest);
    assert ([l] + rest)[1..] == rest;
    assert FromSeen(rest, seen) by {
      assert forall k :: 0 <= k < |rest| ==> ([l] + rest)[k + 1] == rest[k];
    }
    if Entered(w, l, seen) {
      hide LinksFrom;
      KidsAreDistinct(w.g, TargetOf(w, l).value, rest, seen);
    } else {
      assert Advanced(w, [l] + rest, seen) == rest;
      assert AfterEntered(w, l, seen) == seen;
    }
  }

  /** One step of the walk. */
  lemma ParentStep(w: Walk, l: Link, rest: seq<Link>, pending': seq<Link>, seen: set<Id>, seen': set<Id>, ys': seq<Link>, end: set<Id>)
    requires Distinct([l] + rest) && FromSeen([l] + rest, seen) && seen <= seen' <= end && Distinct(ys')
    requires TargetOf(w, l).Some? ==> TargetOf(w, l).value in seen'
    requires forall x :: x in ys' <==> x in pending' || NewLink(w.g, x, seen', end)
    requires forall x :: x in pending' <==> x in rest || NewLink(w.g, x, seen, seen')
    requires forall x :: x in ys' && TargetOf(w, x).Some? ==> TargetOf(w, x).value in end
    ensures Distinct([l] + ys')
    ensures forall x :: x in [l] + ys' <==> x in [l] + rest || NewLink(w.g, x, seen, end)
    ensures forall x :: x in [l] + ys' && TargetOf(w, x).Some? ==> TargetOf(w, x).value in end
  {
    hide TargetOf;
    assert ([l] + rest)[0] == l;
    DistinctHead(l, rest);
    assert l !in ys';
  }

  lemma DistinctHead(l: Link, rest: seq<Link>)
    requires Distinct([l] + rest)
    ensures l !in rest && Distinct(rest)
  {
    assert ([l] + rest)[0] == l;
    assert forall k :: 0 <= k < |rest| ==> ([l] + rest)[k + 1] == rest[k];
  }

  /** Every node entered can be reached. */
  lemma {:induction false} FinalIsReachable(w: Walk, rank: Id -> nat, pending: seq<Link>, seen: set<Id>, a: Id)
    requires IsParentWalk(w)
    requires forall n :: n in seen ==> Reach(w.g, a, n)
    requires forall l :: l in pending && TargetOf(w, l).Some? ==> Reach(w.g, a, TargetOf(w, l).value)
    ensures forall n :: n in Final(w, rank, pending, seen) ==> Reach(w.g, a, n)
    decreases Fresh(w, seen), Load(w, rank, pending)
  {
    hide Reach;
    if pending != [] {
      AdvanceLowers(w, rank, pending, seen);
      var l := pending[0];
      assert AfterShown(w, l, seen) == seen;
      var pending', seen' := Advanced(w, pending, seen), AfterEntered(w, l, seen);
      forall x | x in pending' && TargetOf(w, x).Some? ensures Reach(w.g, a, TargetOf(w, x).value) {
        if x !in pending[1..] {
          ReachOneMore(w, a, TargetOf(w, l).value, x);
        }
      }
      FinalIsReachable(w, rank, pending', seen', a);
    }
  }

  lemma ReachOneMore(w: Walk, a: Id, n: Id, x: Link)
    requires Reach(w.g, a, n) && x in LinksFrom(w.g, n, 0) && TargetOf(w, x).Some?
    ensures Reach(w.g, a, TargetOf(w, x).value)
  {
    var k: nat :| ReachIn(w.g, a, n, k);
    ReachStep(w.g, a, n, k, x.i);
  }

  /** On any graph, cyclic ones included, ParentWalk ends and presents the root and each link of each
      reachable node, once. */
  lemma ParentWalkSeesEachLinkOnce(w: Walk, rank: Id -> nat)
    requires IsParentWalk(w)
    ensures var ys := Yields(w, rank, [Root], {});
            && Distinct(ys)
            && forall l :: l in ys <==>
                 l.Root? || (w.root.Some? && Reach(w.g, w.root.value, l.parent) && l.i < |Kids(w.g, l.parent)|)
  {
    hide Reach;
    hide Yields;
    hide Final;
    var ys, end := Yields(w, rank, [Root], {}), Final(w, rank, [Root], {});
    ParentLinks(w, rank, [Root], {});
    assert Root in ys;
    forall n, i | n in end && 0 <= i < |Kids(w.g, n)| && Kids(w.g, n)[i].Some? ensures Kids(w.g, n)[i].value in end {
      assert NewLink(w.g, Child(n, i), {}, end);
      assert TargetOf(w, Child(n, i)).value in end;
    }
    if w.root.Some? {
      var a := w.root.value;
      assert TargetOf(w, Root).value in end;
      Here(w.g, a);
      FinalIsReachable(w, rank, [Root], {}, a);
      forall n | Reach(w.g, a, n) ensures n in end {
        Covered(w.g, end, a, n);
      }
    } else {
      NothingEntered(w, rank);
    }
    forall l ensures l in ys <==> l.Root? || (w.root.Some? && Reach(w.g, w.root.value, l.parent) && l.i < |Kids(w.g, l.parent)|) {
      assert l in [Root] <==> l.Root?;
    }
  }

  lemma Here(g: Graph, a: Id)
    ensures Reach(g, a, a)
  {
    assert ReachIn(g, a, a, 0);
  }

  lemma Covered(g: Graph, s: set<Id>, a: Id, b: Id)
    requires Closed(g, s) && a in s && Reach(g, a, b)
    ensures b in s
  {
    var k: nat :| ReachIn(g, a, b, k);
    ClosedReaches(g, s, a, b, k);
  }

  lemma NothingEntered(w: Walk, rank: Id -> nat)
    requires IsParentWalk(w) && w.root.None?
    ensures Final(w, rank, [Root], {}) == {}
  {
    AdvanceLowers(w, rank, [Root], {});
    assert Advanced(w, [Root], {}) == [];
  }

  // ---------- UniqueWalk ----------

  predicate IsUniqueWalk(w: Walk) {
    w.out.Unseen? && w.rec.Everything?
  }

  /** The same walk without filters. */
  function Unfiltered(w: Walk): Walk {
    w.(out := Everything, rec := Everything)
  }

  /** The links whose node comes up for the first time. */
  function FirstVisits(w: Walk, ls: seq<Link>, seen: set<Id>): seq<Link> {
    if ls == [] then []
    else if TargetOf(w, ls[0]).Some? && TargetOf(w, ls[0]).value !in seen
    then [ls[0]] + FirstVisits(w, ls[1..], seen + {TargetOf(w, ls[0]).value})
    else FirstVisits(w, ls[1..], seen)
  }

  /** UniqueWalk presents the full pre-order with repeated nodes and nulls left out. */
  lemma {:induction false} UniqueWalkFilters(w: Walk, rank: Id -> nat, pending: seq<Link>, seen: set<Id>)
    requires IsUniqueWalk(w) && Acyclic(w.g, rank)
    ensures Yields(w, rank, pending, seen) == FirstVisits(w, PreorderAll(Unfiltered(w), rank, pending), seen)
    decreases WeightAll(w, rank, pending)
  {
    hide Acyclic;
    hide WeightAll;
    if pending != [] {
      var v, l := Unfiltered(w), pending[0];
      AdvanceLowers(w, rank, pending, seen);
      var seen1 := AfterShown(w, l, seen);
      var pending' := Advanced(w, pending, seen1);
      UniqueWalkFilters(w, rank, pending', AfterEntered(w, l, seen1));
      WalkIsPreorder(v, rank, pending);
      WalkIsPreorder(v, rank, pending');
      AdvanceLowers(v, rank, pending, {});
      assert Advanced(v, pending, {}) == pending';
      assert PreorderAll(v, rank, pending) == [l] + PreorderAll(v, rank, pending');
      FirstVisitOf(w, l, PreorderAll(v, rank, pending'), seen);
    }
  }

  lemma FirstVisitOf(w: Walk, l: Link, rest: seq<Link>, seen: set<Id>)
    requires IsUniqueWalk(w)
    ensures FirstVisits(w, [l] + rest, seen) ==
            (if Shown(w, l, seen) then [l] else []) + FirstVisits(w, rest, AfterShown(w, l, seen))
  {
    assert ([l] + rest)[1..] == rest;
    if TargetOf(w, l).Some? && TargetOf(w, l).value in seen {
      assert AfterShown(w, l, seen) == seen;
    }
  }

  lemma {:induction false} FirstVisitsAreDistinct(w: Walk, ls: seq<Link>, seen: set<Id>)
    ensures var ys := FirstVisits(w, ls, seen);
            && (forall i :: 0 <= i < |ys| ==> TargetOf(w, ys[i]).Some? && TargetOf(w, ys[i]).value !in seen)
            && (forall i, j :: 0 <= i < j < |ys| ==> TargetOf(w, ys[i]) != TargetOf(w, ys[j]))
            && (forall l :: l in ls && TargetOf(w, l).Some? && TargetOf(w, l).value !in seen ==> Visited(w, ys, TargetOf(w, l).value))
            && (forall l :: l in ys ==> l in ls)
    decreases |ls|
  {
    hide TargetOf;
    if ls != [] {
      var t := TargetOf(w, ls[0]);
      var first := t.Some? && t.value !in seen;
      var seen' := if first then seen + {t.value} else seen;
      FirstVisitsAreDistinct(w, ls[1..], seen');
      var ys, ys' := FirstVisits(w, ls, seen), FirstVisits(w, ls[1..], seen');
      if first {
        assert ys == [ls[0]] + ys' && ys[0] == ls[0];
        assert Visited(w, ys, t.value);
        forall n: Id | Visited(w, ys', n) ensures Visited(w, ys, n) {
          var i :| 0 <= i < |ys'| && TargetOf(w, ys'[i]) == Some(n);
          assert ys[i + 1] == ys'[i];
        }
      }
    }
  }

  ghost predicate Visited(w: Walk, ys: seq<Link>, n: Id) {
    exists i :: 0 <= i < |ys| && TargetOf(w, ys[i]) == Some(n)
  }

  /** The full pre-order comes to every reachable node, and to no other. */
  lemma {:induction false} PreorderReaches(w: Walk, rank: Id -> nat, l: Link, b: Id, k: nat)
    requires Acyclic(w.g, rank) && TargetOf(w, l).Some? && ReachIn(w.g, TargetOf(w, l).value, b, k)
    ensures exists x :: x in Preorder(Unfiltered(w), rank, l) && TargetOf(w, x) == Some(b)
    decreases k
  {
    hide Acyclic;
    var v, a := Unfiltered(w), TargetOf(w, l).value;
    if k == 0 {
      assert l in Preorder(v, rank, l);
    } else {
      var i :| 0 <= i < |Kids(w.g, a)| && Kids(w.g, a)[i].Some? && ReachIn(w.g, Kids(w.g, a)[i].value, b, k - 1);
      PreorderReaches(w, rank, Child(a, i), b, k - 1);
      PreorderFromContains(v, rank, a, 0, i);
    }
  }

  lemma {:induction false} PreorderFromContains(w: Walk, rank: Id -> nat, n: Id, j: nat, i: nat)
    requires Acyclic(w.g, rank) && j <= i < |Kids(w.g, n)|
    ensures forall x :: x in Preorder(w, rank, Child(n, i)) ==> x in PreorderFrom(w, rank, n, j)
    decreases i - j
  {
    hide Acyclic;
    hide Preorder;
    if j < i {
      PreorderFromContains(w, rank, n, j + 1, i);
    }
  }

  lemma {:induction false} PreorderIsReachable(w: Walk, rank: Id -> nat, l: Link, x: Link)
    requires Acyclic(w.g, rank) && x in Preorder(Unfiltered(w), rank, l) && TargetOf(w, x).Some?
    ensures TargetOf(w, l).Some? && Reach(w.g, TargetOf(w, l).value, TargetOf(w, x).value)
    decreases if TargetOf(w, l).Some? then rank(TargetOf(w, l).value) + 1 else 0, 1, 0
  {
    hide Reach;
    var v := Unfiltered(w);
    if x == l {
      Here(w.g, TargetOf(w, l).value);
    } else {
      PreorderFromIsReachable(w, rank, TargetOf(w, l).value, 0, x);
    }
  }

  lemma {:induction false} PreorderFromIsReachable(w: Walk, rank: Id -> nat, n: Id, i: nat, x: Link)
    requires Acyclic(w.g, rank) && i <= |Kids(w.g, n)| && x in PreorderFrom(Unfiltered(w), rank, n, i) && TargetOf(w, x).Some?
    ensures Reach(w.g, n, TargetOf(w, x).value)
    decreases rank(n) + 1, 0, |Kids(w.g, n)| - i
  {
    hide Reach;
    var v := Unfiltered(w);
    if x in Preorder(v, rank, Child(n, i)) {
      PreorderIsReachable(w, rank, Child(n, i), x);
      ReachBehind(w.g, n, i, TargetOf(w, x).value);
    } else {
      PreorderFromIsReachable(w, rank, n, i + 1, x);
    }
  }

  lemma ReachBehind(g: Graph, n: Id, i: nat, b: Id)
    requires i < |Kids(g, n)| && Kids(g, n)[i].Some? && Reach(g, Kids(g, n)[i].value, b)
    ensures Reach(g, n, b)
  {
    var k: nat :| ReachIn(g, Kids(g, n)[i].value, b, k);
    assert ReachIn(g, n, b, k + 1);
  }

  /** On an acyclic graph UniqueWalk presents each reachable node exactly once, and no null. */
  lemma UniqueWalkSeesEachNodeOnce(w: Walk, rank: Id -> nat)
    requires IsUniqueWalk(w) && Acyclic(w.g, rank) && w.root.Some?
    ensures var ys := Yields(w, rank, [Root], {});
            && (forall i :: 0 <= i < |ys| ==> TargetOf(w, ys[i]).Some? && Reach(w.g, w.root.value, TargetOf(w, ys[i]).value))
            && (forall i, j :: 0 <= i < j < |ys| ==> TargetOf(w, ys[i]) != TargetOf(w, ys[j]))
            && (forall n: Id :: Reach(w.g, w.root.value, n) ==> Visited(w, ys, n))
  {
    hide Acyclic;
    hide Yields;
    hide FirstVisits;
    var all := PreorderAll(Unfiltered(w), rank, [Root]);
    var ys := Yields(w, rank, [Root], {});
    UniqueWalkFilters(w, rank, [Root], {});
    FirstVisitsAreDistinct(w, all, {});
    assert [Root][1..] == [];
    assert all == Preorder(Unfiltered(w), rank, Root) + [];
    forall i | 0 <= i < |ys| ensures Reach(w.g, w.root.value, TargetOf(w, ys[i]).value) {
      assert ys[i] in all;
      PreorderIsReachable(w, rank, Root, ys[i]);
    }
    forall n: Id | Reach(w.g, w.root.value, n) ensures Visited(w, ys, n) {
      var k: nat :| ReachIn(w.g, w.root.value, n, k);
      PreorderReaches(w, rank, Root, n, k);
      var x :| x in Preorder(Unfiltered(w), rank, Root) && TargetOf(w, x) == Some(n);
      assert x in all;
    }
  }
}
