/** The identifier tracker: scopes are pushed and popped, declarations added, and names looked up by a
    flat scan for the least distance. */
module IdentifierTracker {
  import opened Prelude
  import opened Scopes

  class IdentifierTracker {
    var arena: seq<TNode>
    var tnodes: seq<Ref>
    var scopeStack: seq<Ref>
    var nextRecord: seq<Option<TreeNode>>
    const global: TreeNode

    function State(): Tracker
      reads this
    {
      Tracker(arena, tnodes, scopeStack, nextRecord)
    }

    ghost predicate Valid()
      reads this
    {
      Wf(State()) && scopeStack != []
    }

    constructor (g: TreeNode)
      ensures Valid() && global == g
      ensures State() == Tracker([TNode(None, Some(g), None, None)], [0], [0], [])
    {
      arena := [TNode(None, Some(g), None, None)];
      tnodes := [0];
      scopeStack := [0];
      nextRecord := [];
      global := g;
    }

    /** The first TNode listed for a node. */
    method Find(node: TreeNode) returns (found: Option<Ref>)
      requires Valid()
      ensures var i := FindNode(State(), node, 0);
              found == if i.None? then None else Some(tnodes[i.value])
    {
      var i := 0;
      while i < |tnodes|
        invariant 0 <= i <= |tnodes| && FindNode(State(), node, 0) == FindNode(State(), node, i)
      {
        if arena[tnodes[i]].node == Some(node) {
          return Some(tnodes[i]);
        }
        i := i + 1;
      }
      return None;
    }

    /** Enter the scope of a node that has been added, or an anonymous scope outside all others. */
    method PushScope(s: ClangScope, n: Option<TreeNode>)
      requires Valid() && (n.Some? ==> FindNode(State(), n.value, 0).Some?)
      modifies this`arena, this`scopeStack
      ensures Valid()
      ensures n.Some? ==> State() == PushKnown(old(State()), s, tnodes[FindNode(old(State()), n.value, 0).value])
      ensures n.None? ==> State() == PushAnonymous(old(State()).(stack := []), s).(stack := old(scopeStack) + [|old(arena)|])
    {
      if n.Some? {
        var ts := Find(n.value);
        arena := arena[ts.value := arena[ts.value].(cs := Some(s))];
        scopeStack := scopeStack + [ts.value];
      } else {
        arena := arena + [TNode(None, None, Some(s), None)];
        scopeStack := scopeStack + [|arena| - 1];
      }
    }

    /** Leave the current scope, which must be the clang scope's. */
    method PopScope(s: ClangScope)
      requires Valid() && IsCurrent(State(), s)
      modifies this`scopeStack
      ensures Wf(State()) && State() == Popped(old(State()))
    {
      scopeStack := scopeStack[..|scopeStack| - 1];
    }

    /** Announce the record whose scope comes next, or withdraw the last announcement. */
    method SetNextRecord(n: Option<TreeNode>)
      requires Valid() && (n.None? ==> nextRecord != [])
      modifies this`nextRecord
      ensures Valid() && State() == NextRecordSet(old(State()), n)
    {
      nextRecord := if n.Some? then nextRecord + [n] else nextRecord[..|nextRecord| - 1];
    }

    method NewScope(s: ClangScope)
      requires Valid() && CanOpen(State(), s)
      modifies this
      ensures Valid() && State() == Opened(old(State()), s)
    {
      if nextRecord != [] && s.ofClass {
        PushScope(s, nextRecord[|nextRecord| - 1]);
        nextRecord := nextRecord[..|nextRecord| - 1] + [None];
      } else {
        arena := arena + [TNode(Some(scopeStack[|scopeStack| - 1]), None, Some(s), None)];
        scopeStack := scopeStack + [|arena| - 1];
      }
    }

    /** Notice that clang is in a scope, which is how new scopes become known. */
    method SeenScope(s: ClangScope)
      requires Valid() && CanNotice(State(), s)
      requires s.topmost && |scopeStack| == 1 ==> arena[scopeStack[0]].node == Some(global)
      modifies this
      ensures Valid() && State() == Noticed(old(State()), s)
    {
      if s.topmost && |scopeStack| == 1 {
        var top := scopeStack[0];
        arena := arena[top := arena[top].(cs := Some(s))];
      }
      if arena[scopeStack[|scopeStack| - 1]].cs != Some(s) {
        NewScope(s);
      }
    }

    /** Declare an identifier in the scope clang is in. */
    method Add(name: Name, node: TreeNode, s: ClangScope)
      requires Valid() && CanNotice(State(), s)
      requires s.topmost && |scopeStack| == 1 ==> arena[scopeStack[0]].node == Some(global)
      modifies this
      ensures Valid() && Noticed(old(State()), s).stack != [] && State() == Declared(Noticed(old(State()), s), name, node)
    {
      SeenScope(s);
      arena := arena + [TNode(Some(scopeStack[|scopeStack| - 1]), Some(node), None, Some(name))];
      tnodes := tnodes + [|arena| - 1];
    }

    /** The number of scopes to step out of before the candidate's scope is reached. */
    method IsIdentifierMatch(name: Name, start: Ref, i: nat, recurse: bool) returns (d: nat)
      requires Valid() && start < |arena| && i < |tnodes|
      ensures Distance(State(), name, Some(start), recurse, i, NOMATCH) == if d < NOMATCH then d else NOMATCH
    {
      hide Wf;
      hide Distance;
      ghost var t := State();
      var candidate := CandidateAt(i);
      if candidate.name != Some(name) {
        NameMismatch(t, name, Some(start), recurse, i, NOMATCH);
        return NOMATCH;
      }
      var current: Option<Ref> := Some(start);
      d := 0;
      while current != candidate.parent
        invariant current.Some? ==> current.value < |arena|
        invariant Distance(t, name, Some(start), recurse, i, NOMATCH) == StepsFrom(t, name, current, recurse, i, d)
        decreases if current.Some? then current.value + 1 else 0
      {
        OneScopeOut(t, name, current, recurse, i, d);
        if current.None? || !recurse {
          return NOMATCH;
        }
        current := ParentScope(current.value);
        d := d + 1;
      }
      if d < NOMATCH {
        NoDistance(t, name, current, recurse, i, NOMATCH - d);
      }
    }

    method CandidateAt(i: nat) returns (c: TNode)
      requires Valid() && i < |tnodes|
      ensures tnodes[i] < |arena| && c == arena[tnodes[i]]
    {
      c := arena[tnodes[i]];
    }

    method ParentScope(s: Ref) returns (p: Option<Ref>)
      requires Valid() && s < |arena|
      ensures p == ParentOf(State(), s) && (p.Some? ==> p.value < s)
    {
      p := arena[s].parent;
    }

    /** Look a name up, in a C++ scope exactly or from the current scope outwards: the flat scan finds what
        the walk of the scope chain does. */
    method TryGet(name: Name, cppScope: Option<TreeNode>, recurse: bool) returns (r: Option<TreeNode>)
      requires Valid() && (cppScope.Some? ==> FindNode(State(), cppScope.value, 0).Some?)
      ensures cppScope.Some? ==>
                var scope := tnodes[FindNode(State(), cppScope.value, 0).value];
                r == NodeAt(State(), LookUp(State(), name, Some(scope), false, NOMATCH))
      ensures cppScope.None? ==> r == NodeAt(State(), LookUp(State(), name, Some(Top(State())), recurse, NOMATCH))
      ensures cppScope.None? && recurse ==> r == Meaning(State(), name)
    {
      hide Distance;
      hide LookUp;
      var start, outwards := scopeStack[|scopeStack| - 1], recurse;
      if cppScope.Some? {
        var found := Find(cppScope.value);
        start, outwards := found.value, false;
      }
      ghost var t, scope := State(), Some(start);
      var bestDistance, best: Option<nat> := NOMATCH, None;
      var i := 0;
      while i < |tnodes|
        invariant 0 <= i <= |tnodes| && Nearest(t, name, scope, outwards, NOMATCH, i, best)
        invariant bestDistance == if best.None? then NOMATCH else Distance(t, name, scope, outwards, best.value, NOMATCH)
      {
        var distance := IsIdentifierMatch(name, start, i, outwards);
        if distance < bestDistance {
          bestDistance, best := distance, Some(i);
        }
        i := i + 1;
      }
      NearestIsUnique(t, name, scope, outwards, NOMATCH, best);
      r := if best.Some? then arena[tnodes[best.value]].node else None;
    }
  }

  /** The distance still to go, after d steps out. */
  ghost function StepsFrom(t: Tracker, name: Name, scope: Option<Ref>, recurse: bool, i: nat, d: nat): nat {
    if d >= NOMATCH then NOMATCH else d + Distance(t, name, scope, recurse, i, NOMATCH - d)
  }

  lemma OneStepOut(t: Tracker, name: Name, scope: Option<Ref>, recurse: bool, i: nat, limit: nat)
    requires !Declares(t, i, name, scope) && limit > 0
    ensures Distance(t, name, scope, recurse, i, limit) ==
            if scope.None? || !recurse then limit else 1 + Distance(t, name, ParentOf(t, scope.value), recurse, i, limit - 1)
  {
  }

  lemma NoDistance(t: Tracker, name: Name, scope: Option<Ref>, recurse: bool, i: nat, limit: nat)
    requires Declares(t, i, name, scope)
    ensures Distance(t, name, scope, recurse, i, limit) == 0
  {
  }

  lemma NoStepsLeft(t: Tracker, name: Name, scope: Option<Ref>, recurse: bool, i: nat)
    ensures Distance(t, name, scope, recurse, i, 0) == 0
  {
  }

  lemma OneScopeOut(t: Tracker, name: Name, scope: Option<Ref>, recurse: bool, i: nat, d: nat)
    requires !Declares(t, i, name, scope)
    ensures StepsFrom(t, name, scope, recurse, i, d) ==
            if scope.None? || !recurse then NOMATCH else StepsFrom(t, name, ParentOf(t, scope.value), recurse, i, d + 1)
  {
    hide Distance;
    hide Declares;
    if d < NOMATCH {
      OneStepOut(t, name, scope, recurse, i, NOMATCH - d);
      if scope.Some? {
        NoStepsLeft(t, name, ParentOf(t, scope.value), recurse, i);
      }
    }
  }

  lemma {:induction false} NameMismatch(t: Tracker, name: Name, scope: Option<Ref>, recurse: bool, i: nat, limit: nat)
    requires i < |t.listed| && t.listed[i] < |t.arena| && t.arena[t.listed[i]].name != Some(name)
    ensures Distance(t, name, scope, recurse, i, limit) == limit
    decreases limit
  {
    if limit > 0 && scope.Some? {
      NameMismatch(t, name, ParentOf(t, scope.value), recurse, i, limit - 1);
    }
  }
}
