/** Walks over a graph of nodes, as recursive definitions.

    A walk visits links: the root, or a place among the flattened children of a node.  A link may hold
    a null pointer. */
module WalkSpec {
  import opened Prelude

  type Id = nat

  type Graph = map<Id, seq<Option<Id>>> // the flattened children of each node

  datatype Link = Root | Child(parent: Id, i: nat)

  /** No filter, a filter that looks at the node, or the filter that matches each node one time. */
  datatype Filter = Everything | Matching(p: Id -> bool) | Unseen

  datatype Walk = Walk(g: Graph, root: Option<Id>, out: Filter, rec: Filter)

  function Kids(g: Graph, n: Id): seq<Option<Id>> {
    if n in g then g[n] else []
  }

  function TargetOf(w: Walk, l: Link): Option<Id> {
    match l
    case Root => w.root
    case Child(n, i) => if i < |Kids(w.g, n)| then Kids(w.g, n)[i] else None
  }

  /** The links from the i-th on. */
  function LinksFrom(g: Graph, n: Id, i: nat): seq<Link> {
    if i >= |Kids(g, n)| then [] else seq(|Kids(g, n)| - i, j requires 0 <= j => Child(n, i + j))
  }

  lemma LinksHead(g: Graph, n: Id, i: nat)
    requires i < |Kids(g, n)|
    ensures LinksFrom(g, n, i) == [Child(n, i)] + LinksFrom(g, n, i + 1)
  {
  }

  predicate Passes(f: Filter, n: Id, seen: set<Id>) {
    match f
    case Everything => true
    case Matching(p) => p(n)
    case Unseen => n !in seen
  }

  function Noted(f: Filter, n: Id, seen: set<Id>): set<Id> {
    if f.Unseen? then seen + {n} else seen
  }

  /** Whether a link is presented; nulls are, when there is no filter. */
  predicate Shown(w: Walk, l: Link, seen: set<Id>) {
    w.out.Everything? || (TargetOf(w, l).Some? && Passes(w.out, TargetOf(w, l).value, seen))
  }

  function AfterShown(w: Walk, l: Link, seen: set<Id>): set<Id> {
    if TargetOf(w, l).Some? then Noted(w.out, TargetOf(w, l).value, seen) else seen
  }

  predicate Entered(w: Walk, l: Link, seen: set<Id>) {
    TargetOf(w, l).Some? && Passes(w.rec, TargetOf(w, l).value, seen)
  }

  function AfterEntered(w: Walk, l: Link, seen: set<Id>): set<Id> {
    if TargetOf(w, l).Some? then Noted(w.rec, TargetOf(w, l).value, seen) else seen
  }

  /** What is still to visit once a link has been stepped into or over. */
  function Advanced(w: Walk, pending: seq<Link>, seen: set<Id>): seq<Link>
    requires pending != []
  {
    (if Entered(w, pending[0], seen) then LinksFrom(w.g, TargetOf(w, pending[0]).value, 0) else []) + pending[1..]
  }

  // ---------- termination ----------

  /** A rank falls along every link. */
  ghost predicate Acyclic(g: Graph, rank: Id -> nat) {
    forall n, i :: n in g && 0 <= i < |g[n]| && g[n][i].Some? ==> rank(g[n][i].value) < rank(n)
  }

  /** The number of links below a link, itself included. */
  ghost function Weight(w: Walk, rank: Id -> nat, l: Link): nat
    requires Acyclic(w.g, rank)
    decreases if TargetOf(w, l).Some? then rank(TargetOf(w, l).value) + 1 else 0, 1, 0
  {
    if TargetOf(w, l).None? then 1 else 1 + WeightOfKids(w, rank, TargetOf(w, l).value, 0)
  }

  ghost function WeightOfKids(w: Walk, rank: Id -> nat, n: Id, i: nat): nat
    requires Acyclic(w.g, rank) && i <= |Kids(w.g, n)|
    decreases rank(n) + 1, 0, |Kids(w.g, n)| - i
  {
    if i == |Kids(w.g, n)| then 0 else Weight(w, rank, Child(n, i)) + WeightOfKids(w, rank, n, i + 1)
  }

  ghost function WeightAll(w: Walk, rank: Id -> nat, ls: seq<Link>): nat
    requires Acyclic(w.g, rank)
    decreases |ls|
  {
    if ls == [] then 0 else Weight(w, rank, ls[0]) + WeightAll(w, rank, ls[1..])
  }

  lemma {:induction false} WeightAppend(w: Walk, rank: Id -> nat, a: seq<Link>, b: seq<Link>)
    requires Acyclic(w.g, rank)
    ensures WeightAll(w, rank, a + b) == WeightAll(w, rank, a) + WeightAll(w, rank, b)
    decreases |a|
  {
    hide Weight;
    hide Acyclic;
    if a == [] {
      assert a + b == b;
    } else {
      assert (a + b)[1..] == a[1..] + b;
      WeightAppend(w, rank, a[1..], b);
    }
  }

  lemma {:induction false} WeightOfLinks(w: Walk, rank: Id -> nat, n: Id, i: nat)
    requires Acyclic(w.g, rank) && i <= |Kids(w.g, n)|
    ensures WeightAll(w, rank, LinksFrom(w.g, n, i)) == WeightOfKids(w, rank, n, i)
    decreases |Kids(w.g, n)| - i
  {
    hide Weight;
    hide Acyclic;
    if i < |Kids(w.g, n)| {
      LinksHead(w.g, n, i);
      WeightOfLinks(w, rank, n, i + 1);
    }
  }

  /** The walks that end: on acyclic graphs, and those that enter each node once. */
  ghost predicate Ends(w: Walk, rank: Id -> nat) {
    w.rec.Unseen? || Acyclic(w.g, rank)
  }

  ghost function Fresh(w: Walk, seen: set<Id>): nat {
    if w.rec.Unseen? then |w.g.Keys - seen| else 0
  }

  ghost function Load(w: Walk, rank: Id -> nat, pending: seq<Link>): nat
    requires Ends(w, rank)
  {
    if w.rec.Unseen? then |pending| else WeightAll(w, rank, pending)
  }

  /** Each step lowers the number of nodes not seen, or leaves it and lowers the load. */
  lemma AdvanceLowers(w: Walk, rank: Id -> nat, pending: seq<Link>, seen: set<Id>)
    requires Ends(w, rank) && pending != []
    ensures var seen1 := AfterShown(w, pending[0], seen);
            var seen2, pending' := AfterEntered(w, pending[0], seen1), Advanced(w, pending, seen1);
            Fresh(w, seen2) < Fresh(w, seen) || (Fresh(w, seen2) == Fresh(w, seen) && Load(w, rank, pending') < Load(w, rank, pending))
  {
    hide Acyclic;
    hide WeightAll;
    hide LinksFrom;
    var seen1 := AfterShown(w, pending[0], seen);
    if w.rec.Unseen? {
      FewerUnseen(w, pending, seen, seen1);
    } else {
      LowerWeight(w, rank, pending, seen1);
    }
  }

  lemma FewerUnseen(w: Walk, pending: seq<Link>, seen: set<Id>, seen1: set<Id>)
    requires w.rec.Unseen? && pending != [] && seen <= seen1
    ensures var seen2, pending' := AfterEntered(w, pending[0], seen1), Advanced(w, pending, seen1);
            Fresh(w, seen2) < Fresh(w, seen) || (Fresh(w, seen2) == Fresh(w, seen) && |pending'| < |pending|)
  {
    var l := pending[0];
    var seen2 := AfterEntered(w, l, seen1);
    Shrinks(w.g.Keys, seen, seen1);
    Shrinks(w.g.Keys, seen1, seen2);
    if Entered(w, l, seen1) && TargetOf(w, l).value in w.g {
      Loses(w.g.Keys, seen1, seen2, TargetOf(w, l).value);
    }
  }

  lemma LowerWeight(w: Walk, rank: Id -> nat, pending: seq<Link>, seen: set<Id>)
    requires Acyclic(w.g, rank) && pending != []
    ensures WeightAll(w, rank, Advanced(w, pending, seen)) < WeightAll(w, rank, pending)
  {
    hide Acyclic;
    var l := pending[0];
    if Entered(w, l, seen) {
      var n := TargetOf(w, l).value;
      WeightAppend(w, rank, LinksFrom(w.g, n, 0), pending[1..]);
      WeightOfLinks(w, rank, n, 0);
    } else {
      assert Advanced(w, pending, seen) == pending[1..];
    }
  }

  lemma Shrinks(all: set<Id>, a: set<Id>, b: set<Id>)
    requires a <= b
    ensures |all - b| <= |all - a|
  {
    Smaller(all - b, all - a);
  }

  lemma Loses(all: set<Id>, a: set<Id>, b: set<Id>, n: Id)
    requires a <= b && n in all && n in b && n !in a
    ensures |all - b| < |all - a|
  {
    Smaller(all - b, (all - a) - {n});
  }

  lemma {:induction false} Smaller(a: set<Id>, b: set<Id>)
    requires a <= b
    ensures |a| <= |b|
  {
    assert b == a + (b - a);
  }

  // ---------- what a walk presents ----------

  /** The links presented from a list of links still to visit. */
  ghost function Yields(w: Walk, rank: Id -> nat, pending: seq<Link>, seen: set<Id>): seq<Link>
    requires Ends(w, rank)
    decreases Fresh(w, seen), Load(w, rank, pending)
  {
    if pending == [] then []
    else
      AdvanceLowers(w, rank, pending, seen);
      var seen1 := AfterShown(w, pending[0], seen);
      (if Shown(w, pending[0], seen) then [pending[0]] else []) +
      Yields(w, rank, Advanced(w, pending, seen1), AfterEntered(w, pending[0], seen1))
  }

  // ---------- Walk: the filtered pre-order ----------

  /** A link and then everything below it. */
  ghost function Preorder(w: Walk, rank: Id -> nat, l: Link): seq<Link>
    requires Acyclic(w.g, rank)
    decreases if TargetOf(w, l).Some? then rank(TargetOf(w, l).value) + 1 else 0, 1, 0
  {
    (if Shown(w, l, {}) then [l] else []) +
    (if Entered(w, l, {}) then PreorderFrom(w, rank, TargetOf(w, l).value, 0) else [])
  }

  ghost function PreorderFrom(w: Walk, rank: Id -> nat, n: Id, i: nat): seq<Link>
    requires Acyclic(w.g, rank) && i <= |Kids(w.g, n)|
    decreases rank(n) + 1, 0, |Kids(w.g, n)| - i
  {
    if i == |Kids(w.g, n)| then [] else Preorder(w, rank, Child(n, i)) + PreorderFrom(w, rank, n, i + 1)
  }

  ghost function PreorderAll(w: Walk, rank: Id -> nat, ls: seq<Link>): seq<Link>
    requires Acyclic(w.g, rank)
    decreases |ls|
  {
    if ls == [] then [] else Preorder(w, rank, ls[0]) + PreorderAll(w, rank, ls[1..])
  }

  lemma {:induction false} PreorderAppend(w: Walk, rank: Id -> nat, a: seq<Link>, b: seq<Link>)
    requires Acyclic(w.g, rank)
    ensures PreorderAll(w, rank, a + b) == PreorderAll(w, rank, a) + PreorderAll(w, rank, b)
    decreases |a|
  {
    hide Preorder;
    hide Acyclic;
    if a == [] {
      assert a + b == b;
    } else {
      assert (a + b)[1..] == a[1..] + b;
      PreorderAppend(w, rank, a[1..], b);
      assert (Preorder(w, rank, a[0]) + PreorderAll(w, rank, a[1..])) + PreorderAll(w, rank, b) ==
             Preorder(w, rank, a[0]) + (PreorderAll(w, rank, a[1..]) + PreorderAll(w, rank, b));
    }
  }

  lemma {:induction false} PreorderOfLinks(w: Walk, rank: Id -> nat, n: Id, i: nat)
    requires Acyclic(w.g, rank) && i <= |Kids(w.g, n)|
    ensures PreorderAll(w, rank, LinksFrom(w.g, n, i)) == PreorderFrom(w, rank, n, i)
    decreases |Kids(w.g, n)| - i
  {
    hide Preorder;
    hide Acyclic;
    if i < |Kids(w.g, n)| {
      LinksHead(w.g, n, i);
      PreorderOfLinks(w, rank, n, i + 1);
    }
  }

  /** With filters that have no memory a walk presents the filtered recursive pre-order. */
  lemma {:induction false} WalkIsPreorder(w: Walk, rank: Id -> nat, pending: seq<Link>)
    requires Acyclic(w.g, rank) && !w.out.Unseen? && !w.rec.Unseen?
    ensures Yields(w, rank, pending, {}) == PreorderAll(w, rank, pending)
    decreases WeightAll(w, rank, pending)
  {
    hide Acyclic;
    hide WeightAll;
    if pending != [] {
      var l, rest := pending[0], pending[1..];
      AdvanceLowers(w, rank, pending, {});
      assert AfterShown(w, l, {}) == {} == AfterEntered(w, l, {});
      WalkIsPreorder(w, rank, Advanced(w, pending, {}));
      var below := if Entered(w, l, {}) then LinksFrom(w.g, TargetOf(w, l).value, 0) else [];
      PreorderAppend(w, rank, below, rest);
      if Entered(w, l, {}) {
        PreorderOfLinks(w, rank, TargetOf(w, l).value, 0);
      }
      PreorderSplit(w, rank, l, below, rest);
    }
  }

  lemma PreorderSplit(w: Walk, rank: Id -> nat, l: Link, below: seq<Link>, rest: seq<Link>)
    requires Acyclic(w.g, rank) && below == if Entered(w, l, {}) then LinksFrom(w.g, TargetOf(w, l).value, 0) else []
    ensures PreorderAll(w, rank, [l] + rest) ==
            (if Shown(w, l, {}) then [l] else []) + (PreorderAll(w, rank, below) + PreorderAll(w, rank, rest))
  {
    hide Acyclic;
    assert ([l] + rest)[1..] == rest;
    if Entered(w, l, {}) {
      PreorderOfLinks(w, rank, TargetOf(w, l).value, 0);
    }
  }
}
