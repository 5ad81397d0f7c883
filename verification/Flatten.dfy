/** Iterating over the children of a node, through its single pointers and its containers. */
module Flatten {

  datatype Member<T> = Singular(p: T) | Container(ps: seq<T>)

  /** All the pointers of a node in order. */
  function Flattened<T>(ms: seq<Member<T>>): seq<T> {
    if ms == [] then []
    else (match ms[0] case Singular(p) => [p] case Container(ps) => ps) + Flattened(ms[1..])
  }

  /** A member gives its pointer, or those of its container in their order. */
  lemma FlattenedOne<T>(p: T, ps: seq<T>)
    ensures Flattened([Singular(p)]) == [p] && Flattened([Container(ps)]) == ps
  {
    var s, c: Member<T> := Singular(p), Container(ps);
    assert [s][1..] == [] && [c][1..] == [];
  }

  /** Members one after the other give their pointers one after the other. */
  lemma {:induction false} FlattenedAppend<T>(a: seq<Member<T>>, b: seq<Member<T>>)
    ensures Flattened(a + b) == Flattened(a) + Flattened(b)
  {
    if a == [] {
      assert a + b == b;
    } else {
      assert (a + b)[1..] == a[1..] + b;
      FlattenedAppend(a[1..], b);
    }
  }

  class FlattenIterator<T> {
    const members: seq<Member<T>>
    var mit: nat // current member
    var cit: nat // position in it, when it is a container

    /** The current pointer and everything after it. */
    ghost function Pending(): seq<T>
      reads this
    {
      if mit >= |members| then []
      else
        match members[mit]
        case Singular(_) => Flattened(members[mit..])
        case Container(ps) => (if cit <= |ps| then ps[cit..] else []) + Flattened(members[mit + 1..])
    }

    /** The iterator is at the end or at a pointer, never at the end of a container. */
    predicate Valid()
      reads this
    {
      mit <= |members| && (mit < |members| && members[mit].Container? ==> cit < |members[mit].ps|)
    }

    predicate IsAtEnd()
      reads this
    {
      mit >= |members|
    }

    constructor (members: seq<Member<T>>)
      ensures this.members == members && Valid() && Pending() == Flattened(members)
    {
      this.members, mit, cit := members, 0, 0;
      new;
      NormaliseNewMember();
    }

    method NormaliseNewMember()
      requires mit <= |members|
      modifies this`mit, this`cit
      ensures Valid() && Pending() == Flattened(members[old(mit)..])
      decreases |members| - mit, 1
    {
      if mit < |members| {
        assert members[mit..][1..] == members[mit + 1..];
        if members[mit].Container? {
          cit := 0;
          BypassEndOfContainer();
        }
      }
    }

    method BypassEndOfContainer()
      requires mit < |members| && members[mit].Container? && cit <= |members[mit].ps|
      modifies this`mit, this`cit
      ensures Valid() && Pending() == old(Pending())
      decreases |members| - mit, 0
    {
      if cit == |members[mit].ps| {
        mit := mit + 1;
        NormaliseNewMember();
      }
    }

    function Current(): T
      requires Valid() && !IsAtEnd()
      reads this
    {
      match members[mit]
      case Singular(p) => p
      case Container(ps) => ps[cit]
    }

    /** operator++ */
    method Next()
      requires Valid() && !IsAtEnd()
      modifies this`mit, this`cit
      ensures Valid() && old(Pending()) == [old(Current())] + Pending()
    {
      if members[mit].Container? {
        ghost var ps := members[mit].ps;
        assert ps[cit..] == [ps[cit]] + ps[cit + 1..];
        Spliced(ps[cit], ps[cit + 1..], Flattened(members[mit + 1..]));
        cit := cit + 1;
        BypassEndOfContainer();
      } else {
        assert members[mit..][1..] == members[mit + 1..];
        mit := mit + 1;
        NormaliseNewMember();
      }
    }
  }

  lemma Spliced<T>(x: T, a: seq<T>, b: seq<T>)
    ensures ([x] + a) + b == [x] + (a + b)
  {
  }

  lemma Regroup<T>(a: seq<T>, x: T, b: seq<T>)
    ensures a + ([x] + b) == (a + [x]) + b
  {
  }

  /** A loop over a node's children sees exactly the flattened members. */
  method Collect<T>(members: seq<Member<T>>) returns (all: seq<T>)
    ensures all == Flattened(members)
  {
    hide Flattened;
    var it := new FlattenIterator(members);
    all := [];
    while !it.IsAtEnd()
      invariant fresh(it) && it.Valid() && it.members == members && all + it.Pending() == Flattened(members)
      decreases |it.Pending()|
    {
      var p := it.Current();
      it.Next();
      Regroup(all, p, it.Pending());
      all := all + [p];
    }
  }
}
