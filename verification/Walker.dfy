/** The stated-out depth-first iterator. */
module Walker {
  import opened Prelude
  import opened WalkSpec

  /** A node that has been stepped into, and the position among its children. */
  datatype Entry = Entry(node: Id, i: nat)

  /** What is left after the current position of the top entry, and then of the entries below it. */
  function After(g: Graph, state: seq<Entry>): seq<Link>
    decreases |state|, 1
  {
    if state == [] then [] else From(g, Bumped(state))
  }

  /** What is left from the current position of the top entry. */
  function From(g: Graph, state: seq<Entry>): seq<Link>
    requires state != []
    decreases |state|, 0
  {
    LinksFrom(g, Top(state).node, Top(state).i) + After(g, Below(state))
  }

  function Top(state: seq<Entry>): Entry
    requires state != []
  {
    state[|state| - 1]
  }

  function Below(state: seq<Entry>): seq<Entry>
    requires state != []
  {
    state[..|state| - 1]
  }

  /** Move the top iterator on. */
  function Bumped(state: seq<Entry>): (r: seq<Entry>)
    requires state != []
    ensures r != [] && |r| == |state| && Below(r) == Below(state) && Top(r) == Top(state).(i := Top(state).i + 1)
  {
    Below(state) + [Top(state).(i := Top(state).i + 1)]
  }

  predicate InRange(g: Graph, state: seq<Entry>) {
    forall k :: 0 <= k < |state| ==> state[k].i < |Kids(g, state[k].node)|
  }

  lemma FromIsCurrent(g: Graph, state: seq<Entry>)
    requires state != [] && Top(state).i < |Kids(g, Top(state).node)|
    ensures From(g, state) == [Child(Top(state).node, Top(state).i)] + After(g, state)
  {
    hide LinksFrom;
    LinksHead(g, Top(state).node, Top(state).i);
  }

  lemma FromAtEnd(g: Graph, state: seq<Entry>)
    requires state != [] && Top(state).i >= |Kids(g, Top(state).node)|
    ensures From(g, state) == After(g, Below(state))
  {
  }

  class WalkIterator {
    const w: Walk
    ghost const rank: Id -> nat // falls along links when the graph is acyclic
    var state: seq<Entry>
    var done: bool
    var seen: set<Id> // kept by the filter that matches each node one time

    /** The current link and everything after it. */
    function Pending(): seq<Link>
      reads this
    {
      if done then [] else if state == [] then [Root] else From(w.g, state)
    }

    ghost predicate Valid()
      reads this
    {
      Ends(w, rank) && (done ==> state == []) && InRange(w.g, state)
    }

    /** Everything the walk still presents, the current link first. */
    ghost function Remaining(): seq<Link>
      requires Valid()
      reads this
    {
      CurrentIsFirst();
      if done then []
      else [Pending()[0]] + Yields(w, rank, Advanced(w, Pending(), seen), AfterEntered(w, Pending()[0], seen))
    }

    lemma CurrentIsFirst()
      requires Valid()
      ensures done <==> Pending() == []
      ensures !done ==> Pending()[0] == Current()
    {
      if state != [] {
        FromIsCurrent(w.g, state);
      }
    }

    constructor (w: Walk, ghost rank: Id -> nat)
      requires Ends(w, rank)
      ensures Valid() && this.w == w && this.rank == rank
      ensures Remaining() == Yields(w, rank, [Root], {})
    {
      this.w, this.rank, state, done, seen := w, rank, [], false, {};
      new;
      DoNodeFilter();
    }

    /** The link the iterator is at. */
    function Current(): Link
      requires !done
      reads this
    {
      if state == [] then Root else Child(Top(state).node, Top(state).i)
    }

    predicate IsAtEndOfChildren()
      requires !done
      reads this
    {
      state != [] && Top(state).i >= |Kids(w.g, Top(state).node)|
    }

    /** Leave nodes whose children are finished, moving on in their parents. */
    method BypassEndOfChildren()
      requires Ends(w, rank) && !done && state != [] && InRange(w.g, Below(state))
      requires Top(state).i <= |Kids(w.g, Top(state).node)|
      modifies this`state, this`done
      ensures Valid() && Pending() == old(From(w.g, state))
    {
      hide LinksFrom;
      hide From;
      ghost var rest := From(w.g, state);
      while IsAtEndOfChildren()
        invariant !done && state != [] && InRange(w.g, Below(state))
        invariant Top(state).i <= |Kids(w.g, Top(state).node)|
        invariant From(w.g, state) == rest
        decreases |state|
      {
        FromAtEnd(w.g, state);
        state := Below(state);
        done := state == [];
        if done {
          break;
        }
        state := Bumped(state);
      }
    }

    method AdvanceOver()
      requires Valid() && !done
      modifies this`state, this`done
      ensures Valid() && old(Pending()) != [] && Pending() == old(Pending())[1..]
    {
      hide LinksFrom;
      hide From;
      CurrentIsFirst();
      if state == [] {
        done := true;
      } else {
        FromIsCurrent(w.g, state);
        state := Bumped(state);
        BypassEndOfChildren();
      }
    }

    method Push(n: Id)
      requires Valid() && !done
      modifies this`state
      ensures state == old(state) + [Entry(n, 0)]
    {
      state := state + [Entry(n, 0)];
    }

    /** Step into the current node if it is not null and the filter allows, else over it. */
    method AdvanceInto()
      requires Valid() && !done
      modifies this
      ensures Valid() && old(Pending()) != []
      ensures Pending() == Advanced(w, old(Pending()), old(seen))
      ensures seen == AfterEntered(w, old(Pending())[0], old(seen))
    {
      CurrentIsFirst();
      ghost var pending := Pending();
      var element := TargetOf(w, Current());
      var recurse := false;
      if element.Some? {
        recurse := Passes(w.rec, element.value, seen);
        seen := Noted(w.rec, element.value, seen);
      }
      if recurse {
        ghost var was := state;
        assert pending[1..] == After(w.g, was) by {
          if was != [] {
            FromIsCurrent(w.g, was);
          }
        }
        Push(element.value);
        assert Below(state) == was;
        BypassEndOfChildren();
      } else {
        AdvanceOver();
      }
    }

    /** Move on, if need be, to a link that the filter presents. */
    method DoNodeFilter()
      requires Valid()
      modifies this
      ensures Valid() && Remaining() == Yields(w, rank, old(Pending()), old(seen))
    {
      ghost var all := Yields(w, rank, Pending(), seen);
      while !done
        invariant Valid() && Yields(w, rank, Pending(), seen) == all
        decreases Fresh(w, seen), Load(w, rank, Pending())
      {
        CurrentIsFirst();
        AdvanceLowers(w, rank, Pending(), seen);
        ghost var pending, was := Pending(), seen;
        var element := TargetOf(w, Current());
        var ok := true;
        if !w.out.Everything? {
          if element.None? {
            ok := false;
          } else {
            ok := Passes(w.out, element.value, seen);
            seen := Noted(w.out, element.value, seen);
          }
        }
        assert Pending() == pending && seen == AfterShown(w, pending[0], was) && ok == Shown(w, pending[0], was);
        if ok {
          return;
        }
        AdvanceInto();
      }
      CurrentIsFirst();
    }

    /** operator++: present the next link. */
    method Next()
      requires Valid() && !done
      modifies this
      ensures Valid() && old(Remaining()) == [old(Current())] + Remaining()
    {
      CurrentIsFirst();
      AdvanceInto();
      DoNodeFilter();
    }
  }

  lemma Regroup(a: seq<Link>, x: Link, b: seq<Link>)
    ensures a + ([x] + b) == (a + [x]) + b
  {
  }

  /** A loop over a walk sees exactly what the recursive definition presents, and ends. */
  method Collect(w: Walk, ghost rank: Id -> nat) returns (links: seq<Link>)
    requires Ends(w, rank)
    ensures links == Yields(w, rank, [Root], {})
  {
    hide Yields;
    hide LinksFrom;
    hide From;
    hide InRange;
    var it := new WalkIterator(w, rank);
    links := [];
    while !it.done
      invariant fresh(it) && it.Valid() && it.w == w && it.rank == rank && links + it.Remaining() == Yields(w, rank, [Root], {})
      decreases |it.Remaining()|
    {
      var link := it.Current();
      it.Next();
      Regroup(links, link, it.Remaining());
      links := links + [link];
    }
  }
}
