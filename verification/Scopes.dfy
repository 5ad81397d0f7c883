/** Identifier look-up: the scope chain, as values. */
module Scopes {
  import opened Prelude

  type Ref = nat    // a TNode, by its place in the order of creation
  type Name = nat   // a clang identifier
  type TreeNode = nat

  datatype TNode = TNode(parent: Option<Ref>, node: Option<TreeNode>, cs: Option<ClangScope>, name: Option<Name>)

  datatype ClangScope = ClangScope(id: nat, topmost: bool, ofClass: bool)

  /** Every TNode ever made; those that look-up considers; the stack of scopes; the announced records. */
  datatype Tracker = Tracker(arena: seq<TNode>, listed: seq<Ref>, stack: seq<Ref>, records: seq<Option<TreeNode>>)

  const NOMATCH: nat := 1000000

  /** References are in bounds, and every scope was made before what is in it. */
  ghost predicate Wf(t: Tracker) {
    && (forall k :: 0 <= k < |t.arena| && t.arena[k].parent.Some? ==> t.arena[k].parent.value < k)
    && (forall i :: 0 <= i < |t.listed| ==> t.listed[i] < |t.arena|)
    && (forall i :: 0 <= i < |t.stack| ==> t.stack[i] < |t.arena|)
  }

  function Top(t: Tracker): Ref
    requires t.stack != []
  {
    t.stack[|t.stack| - 1]
  }

  function ParentOf(t: Tracker, s: Ref): Option<Ref> {
    if s < |t.arena| then t.arena[s].parent else None
  }

  /** The i-th listed TNode declares the name directly in the scope. */
  predicate Declares(t: Tracker, i: nat, name: Name, scope: Option<Ref>) {
    i < |t.listed| && t.listed[i] < |t.arena| && t.arena[t.listed[i]].name == Some(name) && t.arena[t.listed[i]].parent == scope
  }

  /** The earliest declaration of a name directly in a scope, from position i of the list. */
  function FirstIn(t: Tracker, name: Name, scope: Option<Ref>, i: nat): (r: Option<nat>)
    ensures r.Some? ==> Declares(t, r.value, name, scope) && i <= r.value
    ensures r.Some? ==> forall j :: i <= j < r.value ==> !Declares(t, j, name, scope)
    ensures r.None? ==> forall j :: i <= j < |t.listed| ==> !Declares(t, j, name, scope)
    decreases |t.listed| - i
  {
    if i >= |t.listed| then None
    else if Declares(t, i, name, scope) then Some(i)
    else FirstIn(t, name, scope, i + 1)
  }

  /** Innermost-first look-up: the scope itself, then, if allowed, the scopes around it, through at most
      `limit` scopes. */
  function LookUp(t: Tracker, name: Name, scope: Option<Ref>, recurse: bool, limit: nat): Option<nat>
    decreases limit
  {
    if limit == 0 then None
    else if FirstIn(t, name, scope, 0).Some? then FirstIn(t, name, scope, 0)
    else if scope.None? || !recurse then None
    else LookUp(t, name, ParentOf(t, scope.value), recurse, limit - 1)
  }

  /** How many scopes out from `scope` a listed TNode is, or NOMATCH. */
  function Distance(t: Tracker, name: Name, scope: Option<Ref>, recurse: bool, i: nat, limit: nat): nat
    decreases limit
  {
    if Declares(t, i, name, scope) || limit == 0 then 0
    else if scope.None? || !recurse then limit
    else 1 + Distance(t, name, ParentOf(t, scope.value), recurse, i, limit - 1)
  }

  /** i is the first of the nearest matches; None, that nothing is nearer than the limit. */
  ghost predicate Nearest(t: Tracker, name: Name, scope: Option<Ref>, recurse: bool, limit: nat, upto: nat, i: Option<nat>) {
    match i
    case None => forall j :: 0 <= j < upto ==> Distance(t, name, scope, recurse, j, limit) >= limit
    case Some(k) =>
      && k < upto && Distance(t, name, scope, recurse, k, limit) < limit
      && (forall j :: 0 <= j < k ==> Distance(t, name, scope, recurse, j, limit) > Distance(t, name, scope, recurse, k, limit))
      && (forall j :: k <= j < upto ==> Distance(t, name, scope, recurse, j, limit) >= Distance(t, name, scope, recurse, k, limit))
  }

  /** The innermost-first look-up finds the first of the nearest. */
  lemma {:induction false} LookUpIsNearest(t: Tracker, name: Name, scope: Option<Ref>, recurse: bool, limit: nat)
    ensures Nearest(t, name, scope, recurse, limit, |t.listed|, LookUp(t, name, scope, recurse, limit))
    decreases limit
  {
    hide Declares;
    hide FirstIn;
    var first := FirstIn(t, name, scope, 0);
    if limit > 0 && first.None? && scope.Some? && recurse {
      var outer := ParentOf(t, scope.value);
      LookUpIsNearest(t, name, outer, recurse, limit - 1);
      forall j | 0 <= j < |t.listed|
        ensures Distance(t, name, scope, recurse, j, limit) == 1 + Distance(t, name, outer, recurse, j, limit - 1)
      {
        assert !Declares(t, j, name, scope);
      }
    } else if limit > 0 {
      forall j | 0 <= j < |t.listed| && !Declares(t, j, name, scope)
        ensures Distance(t, name, scope, recurse, j, limit) > 0 && (first.None? ==> Distance(t, name, scope, recurse, j, limit) == limit)
      {
      }
      DeclaredIsListed(t, name, scope);
    }
  }

  lemma DeclaredIsListed(t: Tracker, name: Name, scope: Option<Ref>)
    ensures FirstIn(t, name, scope, 0).Some? ==> FirstIn(t, name, scope, 0).value < |t.listed|
  {
  }

  /** A flat scan for the least distance can only come to what the walk of the scope chain finds. */
  lemma NearestIsUnique(t: Tracker, name: Name, scope: Option<Ref>, recurse: bool, limit: nat, i: Option<nat>)
    requires Nearest(t, name, scope, recurse, limit, |t.listed|, i)
    ensures i == LookUp(t, name, scope, recurse, limit)
  {
    hide Distance;
    LookUpIsNearest(t, name, scope, recurse, limit);
    var k := LookUp(t, name, scope, recurse, limit);
    if i.Some? && k.Some? {
      var d, e := Distance(t, name, scope, recurse, i.value, limit), Distance(t, name, scope, recurse, k.value, limit);
      assert d == e;
    }
  }

  // ---------- operations ----------

  predicate IsListedFor(t: Tracker, n: TreeNode, i: nat) {
    i < |t.listed| && t.listed[i] < |t.arena| && t.arena[t.listed[i]].node == Some(n)
  }

  /** The first TNode listed for a node, from position i of the list. */
  function FindNode(t: Tracker, n: TreeNode, i: nat): (r: Option<nat>)
    ensures r.Some? ==> i <= r.value && IsListedFor(t, n, r.value) && forall j :: i <= j < r.value ==> !IsListedFor(t, n, j)
    ensures r.None? ==> forall j :: i <= j < |t.listed| ==> !IsListedFor(t, n, j)
    decreases |t.listed| - i
  {
    if i >= |t.listed| then None
    else if t.listed[i] < |t.arena| && t.arena[t.listed[i]].node == Some(n) then Some(i)
    else FindNode(t, n, i + 1)
  }

  /** A scope nobody announced: a new TNode inside the current one, not listed. */
  function PushAnonymous(t: Tracker, s: ClangScope): Tracker {
    t.(arena := t.arena + [TNode(if t.stack == [] then None else Some(Top(t)), None, Some(s), None)], stack := t.stack + [|t.arena|])
  }

  /** Re-enter a TNode that is known already. */
  function PushKnown(t: Tracker, s: ClangScope, r: Ref): Tracker {
    Tie(t, r, s).(stack := t.stack + [r])
  }

  /** Note the clang scope that a TNode owns. */
  function Tie(t: Tracker, r: Ref, s: ClangScope): Tracker {
    if r < |t.arena| then t.(arena := t.arena[r := t.arena[r].(cs := Some(s))]) else t
  }

  /** A record has been announced for the next class scope. */
  predicate Announced(t: Tracker, s: ClangScope) {
    t.records != [] && s.ofClass
  }

  /** The announced record has not been used already, and it is known. */
  predicate CanOpen(t: Tracker, s: ClangScope) {
    Announced(t, s) ==> t.records[|t.records| - 1].Some? && FindNode(t, t.records[|t.records| - 1].value, 0).Some?
  }

  /** The TNode of the record announced last. */
  function NextRecord(t: Tracker): (r: Ref)
    requires t.records != [] && t.records[|t.records| - 1].Some? && FindNode(t, t.records[|t.records| - 1].value, 0).Some?
    ensures r < |t.arena|
  {
    t.listed[FindNode(t, t.records[|t.records| - 1].value, 0).value]
  }

  /** A class scope enters the record announced for it; any other is anonymous. */
  function Opened(t: Tracker, s: ClangScope): Tracker
    requires CanOpen(t, s)
  {
    if Announced(t, s) then
      PushKnown(t, s, NextRecord(t)).(records := t.records[..|t.records| - 1] + [None])
    else PushAnonymous(t, s)
  }

  /** The outermost clang scope belongs to the global TNode. */
  function Bound(t: Tracker, s: ClangScope): Tracker
    requires t.stack != []
  {
    if s.topmost && |t.stack| == 1 then Tie(t, Top(t), s) else t
  }

  predicate IsCurrent(t: Tracker, s: ClangScope) {
    t.stack != [] && Top(t) < |t.arena| && t.arena[Top(t)].cs == Some(s)
  }

  /** The clang scope is the current one, or may be opened. */
  predicate CanNotice(t: Tracker, s: ClangScope) {
    t.stack != [] && (IsCurrent(Bound(t, s), s) || CanOpen(Bound(t, s), s))
  }

  /** A clang scope that is not the current one is a new one. */
  function Noticed(t: Tracker, s: ClangScope): Tracker
    requires CanNotice(t, s)
  {
    if IsCurrent(Bound(t, s), s) then Bound(t, s) else Opened(Bound(t, s), s)
  }

  /** Announce a record, or take the last announcement back. */
  function NextRecordSet(t: Tracker, n: Option<TreeNode>): Tracker
    requires n.None? ==> t.records != []
  {
    t.(records := if n.Some? then t.records + [n] else t.records[..|t.records| - 1])
  }

  function Popped(t: Tracker): Tracker
    requires t.stack != []
  {
    t.(stack := t.stack[..|t.stack| - 1])
  }

  /** A declaration in the current scope. */
  function Declared(t: Tracker, name: Name, n: TreeNode): Tracker
    requires t.stack != []
  {
    t.(arena := t.arena + [TNode(Some(Top(t)), Some(n), None, Some(name))], listed := t.listed + [|t.arena|])
  }

  function NodeAt(t: Tracker, i: Option<nat>): Option<TreeNode> {
    if i.Some? && i.value < |t.listed| && t.listed[i.value] < |t.arena| then t.arena[t.listed[i.value]].node else None
  }

  /** What an unqualified name means now. */
  function Meaning(t: Tracker, name: Name): Option<TreeNode>
    requires t.stack != []
  {
    NodeAt(t, LookUp(t, name, Some(Top(t)), true, NOMATCH))
  }

  // ---------- scoping laws ----------

  /** r is the scope or one of those around it. */
  predicate Encloses(t: Tracker, r: Ref, scope: Ref)
    decreases scope
  {
    || r == scope
    || (scope < |t.arena| && t.arena[scope].parent.Some? && t.arena[scope].parent.value < scope && Encloses(t, r, t.arena[scope].parent.value))
  }

  lemma {:induction false} EnclosingIsOlder(t: Tracker, r: Ref, scope: Ref)
    requires Encloses(t, r, scope)
    ensures r <= scope
    decreases scope
  {
    if r != scope {
      EnclosingIsOlder(t, r, t.arena[scope].parent.value);
    }
  }

  /** A scope that does not enclose the current scope of t. */
  predicate Apart(t: Tracker, scope: Option<Ref>)
    requires t.stack != []
  {
    scope.Some? && !Encloses(t, scope.value, Top(t))
  }

  /** The TNodes are as they were, except for the clang scopes they own. */
  ghost predicate SameNodes(t: Tracker, t': Tracker) {
    |t.arena| <= |t'.arena| && forall k :: 0 <= k < |t.arena| ==> t'.arena[k] == t.arena[k].(cs := t'.arena[k].cs)
  }

  /** t' extends t by declarations in scopes apart from the current one. */
  ghost predicate Hidden(t: Tracker, t': Tracker)
    requires t.stack != []
  {
    && SameNodes(t, t') && t.listed <= t'.listed
    && (forall i :: |t.listed| <= i < |t'.listed| ==> t'.listed[i] < |t'.arena| && Apart(t, t'.arena[t'.listed[i]].parent))
  }

  /** Names in scopes apart do not show. */
  lemma {:induction false} HiddenLookUp(t: Tracker, t': Tracker, name: Name, scope: Option<Ref>, recurse: bool, limit: nat)
    requires Wf(t) && t.stack != [] && Hidden(t, t') && (scope.Some? ==> scope.value < |t.arena|)
    requires scope.Some? ==> forall r :: Encloses(t, r, scope.value) ==> Encloses(t, r, Top(t))
    ensures LookUp(t', name, scope, recurse, limit) == LookUp(t, name, scope, recurse, limit)
    decreases limit
  {
    hide FirstIn;
    if limit > 0 {
      HiddenFirst(t, t', name, scope);
      if scope.Some? {
        var outer := ParentOf(t, scope.value);
        assert t'.arena[scope.value].parent == outer;
        if outer.Some? {
          forall r | Encloses(t, r, outer.value) ensures Encloses(t, r, Top(t)) {
            assert Encloses(t, r, scope.value);
          }
        }
        HiddenLookUp(t, t', name, outer, recurse, limit - 1);
      }
    }
  }

  lemma HiddenFirst(t: Tracker, t': Tracker, name: Name, scope: Option<Ref>)
    requires Wf(t) && t.stack != [] && Hidden(t, t') && !Apart(t, scope)
    ensures FirstIn(t', name, scope, 0) == FirstIn(t, name, scope, 0)
  {
    hide FirstIn;
    hide Encloses;
    forall j: nat ensures Declares(t', j, name, scope) <==> Declares(t, j, name, scope) {
      if j < |t.listed| {
        assert t'.listed[j] == t.listed[j];
      }
    }
    FirstAgrees(t, t', name, scope);
  }

  lemma FirstAgrees(t: Tracker, t': Tracker, name: Name, scope: Option<Ref>)
    requires forall j: nat :: Declares(t', j, name, scope) <==> Declares(t, j, name, scope)
    ensures FirstIn(t', name, scope, 0) == FirstIn(t, name, scope, 0)
  {
    var r, r' := FirstIn(t, name, scope, 0), FirstIn(t', name, scope, 0);
    if r.Some? {
      assert Declares(t', r.value, name, scope);
    }
    if r'.Some? {
      assert Declares(t, r'.value, name, scope);
    }
  }

  /** Only clang scopes have been tied to TNodes. */
  lemma {:induction false} SameLookUp(t: Tracker, u: Tracker, name: Name, scope: Option<Ref>, recurse: bool, limit: nat)
    requires Wf(t) && SameNodes(t, u) && u.listed == t.listed && (scope.Some? ==> scope.value < |t.arena|)
    ensures LookUp(u, name, scope, recurse, limit) == LookUp(t, name, scope, recurse, limit)
    decreases limit
  {
    hide FirstIn;
    if limit > 0 {
      SameFirst(t, u, name, scope);
      if scope.Some? {
        assert ParentOf(u, scope.value) == ParentOf(t, scope.value);
        SameLookUp(t, u, name, ParentOf(t, scope.value), recurse, limit - 1);
      }
    }
  }

  lemma SameFirst(t: Tracker, u: Tracker, name: Name, scope: Option<Ref>)
    requires Wf(t) && SameNodes(t, u) && u.listed == t.listed
    ensures FirstIn(u, name, scope, 0) == FirstIn(t, name, scope, 0)
  {
    hide FirstIn;
    forall j: nat ensures Declares(u, j, name, scope) <==> Declares(t, j, name, scope) {
      if j < |t.listed| {
        assert u.listed[j] == t.listed[j];
      }
    }
    FirstAgrees(t, u, name, scope);
  }

  lemma SameMeanings(t: Tracker, u: Tracker, i: Option<nat>)
    requires Wf(t) && SameNodes(t, u) && u.listed == t.listed
    ensures NodeAt(u, i) == NodeAt(t, i)
  {
  }

  /** The number of scopes from this one outwards. */
  function Depth(t: Tracker, scope: Ref): nat
    decreases scope
  {
    if scope < |t.arena| && t.arena[scope].parent.Some? && t.arena[scope].parent.value < scope
    then 1 + Depth(t, t.arena[scope].parent.value) else 1
  }

  /** Going further than the outermost scope finds nothing more. */
  lemma {:induction false} DeepEnough(t: Tracker, name: Name, scope: Ref, m: nat, n: nat)
    requires Wf(t) && scope < |t.arena| && Depth(t, scope) < m <= n
    ensures LookUp(t, name, Some(scope), true, m) == LookUp(t, name, Some(scope), true, n)
    decreases scope
  {
    hide FirstIn;
    if t.arena[scope].parent.Some? {
      DeepEnough(t, name, t.arena[scope].parent.value, m - 1, n - 1);
    }
  }

  /** The state in which a clang scope has been noticed, if it is not one of an announced record. */
  lemma NoticedAnonymous(t: Tracker, s: ClangScope)
    requires Wf(t) && t.stack != [] && !Announced(t, s)
    ensures CanNotice(t, s)
    ensures var u := Noticed(t, s);
            && SameNodes(t, u) && u.listed == t.listed
            && (u.stack == t.stack || (u.stack == t.stack + [|t.arena|] && |u.arena| == |t.arena| + 1 && u.arena[|t.arena|].parent == Some(Top(t))))
  {
  }

  lemma InnerFirst(t: Tracker, u: Tracker, name: Name)
    requires Wf(t) && SameNodes(t, u) && u.listed == t.listed
    ensures FirstIn(u, name, Some(|t.arena|), 0) == None
  {
    forall j: nat ensures !Declares(u, j, name, Some(|t.arena|)) {
      if j < |t.listed| {
        assert u.listed[j] == t.listed[j];
      }
    }
  }

  /** In a scope that clang is seen to have entered, and that is not one of an announced record, every
      name means what it meant outside, as long as fewer than a million scopes are nested. */
  lemma ScopeSeesOut(t: Tracker, s: ClangScope, name: Name)
    requires Wf(t) && t.stack != [] && (t.records == [] || !s.ofClass)
    ensures CanNotice(t, s)
    ensures var u := Noticed(t, s);
            && u.stack != []
            && (Depth(t, Top(t)) <= 999_998 ==> Meaning(u, name) == Meaning(t, name))
            && (u.stack != t.stack ==> Meaning(u, name) == NodeAt(t, LookUp(t, name, Some(Top(t)), true, 999_999)))
  {
    hide LookUp;
    hide Noticed;
    NoticedAnonymous(t, s);
    var u, top := Noticed(t, s), Top(t);
    var i := LookUp(t, name, Some(top), true, NOMATCH - 1);
    if u.stack == t.stack {
      SameLookUp(t, u, name, Some(top), true, NOMATCH);
      SameMeanings(t, u, LookUp(t, name, Some(top), true, NOMATCH));
    } else {
      InnerFirst(t, u, name);
      OneOut(u, name, |t.arena|, NOMATCH);
      SameLookUp(t, u, name, Some(top), true, NOMATCH - 1);
      SameMeanings(t, u, i);
      if Depth(t, top) <= 999_998 {
        DeepEnough(t, name, top, NOMATCH - 1, NOMATCH);
      }
    }
  }

  /** A scope without the name defers to the one around it. */
  lemma OneOut(t: Tracker, name: Name, scope: Ref, limit: nat)
    requires limit > 0 && FirstIn(t, name, Some(scope), 0).None?
    ensures LookUp(t, name, Some(scope), true, limit) == LookUp(t, name, ParentOf(t, scope), true, limit - 1)
  {
  }

  /** In the scope of an announced record every name means what a look-up from the record outwards finds;
      the announcement is used up. */
  lemma RecordScopeSeesOut(t: Tracker, s: ClangScope, name: Name)
    requires Wf(t) && t.records != [] && s.ofClass && CanOpen(t, s)
    ensures var u, r := Opened(t, s), NextRecord(t);
            && t.arena[r].node == t.records[|t.records| - 1]
            && u.stack == t.stack + [r]
            && Meaning(u, name) == NodeAt(t, LookUp(t, name, Some(r), true, NOMATCH))
    ensures forall s': ClangScope :: s'.ofClass ==> !CanOpen(Opened(t, s), s')
  {
    hide LookUp;
    var u, r := Opened(t, s), NextRecord(t);
    SameLookUp(t, u, name, Some(r), true, NOMATCH);
    SameMeanings(t, u, LookUp(t, name, Some(r), true, NOMATCH));
  }

  /** Withdrawing an announcement undoes it. */
  lemma AnnouncementsNest(t: Tracker, record: TreeNode)
    ensures NextRecordSet(NextRecordSet(t, Some(record)), None) == t
  {
    assert (t.records + [Some(record)])[..|t.records|] == t.records;
  }

  /** The outermost clang scope is no new scope, and seeing a scope again changes nothing. */
  lemma SeenAlready(t: Tracker, s: ClangScope)
    requires Wf(t) && CanNotice(t, s)
    ensures s.topmost && |t.stack| == 1 ==> Noticed(t, s).stack == t.stack
    ensures var u := Noticed(t, s);
            IsCurrent(u, s) && CanNotice(u, s) && Noticed(u, s) == u
  {
  }

  /** What the parser tells the tracker: the scope it is in, the end of a scope, a declaration, and the
      record whose members come next. */
  datatype Op = See(s: ClangScope) | Close | Add(name: Name, n: TreeNode, s: ClangScope) | SetNext(record: Option<TreeNode>)

  function Seen(t: Tracker, s: ClangScope): (u: Tracker)
    ensures t.stack != [] ==> u.stack != []
  {
    if CanNotice(t, s) then Noticed(t, s) else t
  }

  function Apply(t: Tracker, op: Op): Tracker {
    match op
    case See(s) => Seen(t, s)
    case Close => if t.stack == [] then t else Popped(t)
    case Add(name, n, s) => if t.stack == [] then t else Declared(Seen(t, s), name, n)
    case SetNext(r) => if r.None? && t.records == [] then t else NextRecordSet(t, r)
  }

  function ApplyAll(t: Tracker, ops: seq<Op>): Tracker
    decreases |ops|
  {
    if ops == [] then t else ApplyAll(Apply(t, ops[0]), ops[1..])
  }

  /** The operations never leave the scopes above those of t, and do not enter again a class that the
      current scope of t is in. */
  ghost predicate StaysAside(t: Tracker, u: Tracker, ops: seq<Op>)
    requires t.stack != []
    decreases |ops|
  {
    |u.stack| > |t.stack| && (ops == [] || (EntersAside(t, u, ops[0]) && StaysAside(t, Apply(u, ops[0]), ops[1..])))
  }

  predicate EntersAside(t: Tracker, u: Tracker, op: Op)
    requires t.stack != []
  {
    (op.See? || op.Add?) && u.stack != [] && CanOpen(Bound(u, op.s), op.s) && !IsCurrent(Bound(u, op.s), op.s) && Announced(u, op.s) ==>
      Apart(t, Some(NextRecord(Bound(u, op.s))))
  }

  /** A state inside scopes that were opened in state t. */
  ghost predicate Inside(t: Tracker, u: Tracker)
    requires t.stack != []
  {
    && Hidden(t, u) && t.stack <= u.stack
    && (forall i :: |t.stack| <= i < |u.stack| ==> u.stack[i] < |u.arena| && Apart(t, Some(u.stack[i])))
  }

  /** What is made after t is apart from its scopes. */
  lemma NewIsApart(t: Tracker, r: Ref)
    requires Wf(t) && t.stack != [] && r >= |t.arena|
    ensures Apart(t, Some(r))
  {
    if Encloses(t, r, Top(t)) {
      EnclosingIsOlder(t, r, Top(t));
    }
  }

  lemma TieInside(t: Tracker, u: Tracker, r: Ref, s: ClangScope)
    requires t.stack != [] && Inside(t, u)
    ensures Inside(t, Tie(u, r, s))
  {
    hide Encloses;
    var v := Tie(u, r, s);
    forall i | |t.listed| <= i < |v.listed| ensures v.listed[i] < |v.arena| && Apart(t, v.arena[v.listed[i]].parent) {
      assert v.arena[v.listed[i]].parent == u.arena[u.listed[i]].parent;
    }
  }

  lemma PushInside(t: Tracker, u: Tracker, r: Ref)
    requires t.stack != [] && Inside(t, u) && r < |u.arena| && Apart(t, Some(r))
    ensures Inside(t, u.(stack := u.stack + [r]))
  {
    hide Encloses;
  }

  /** A TNode that is not listed changes nothing. */
  lemma GrowInside(t: Tracker, u: Tracker, x: TNode)
    requires t.stack != [] && Inside(t, u)
    ensures Inside(t, u.(arena := u.arena + [x]))
  {
    hide Encloses;
  }

  lemma OpenInside(t: Tracker, u: Tracker, s: ClangScope)
    requires Wf(t) && t.stack != [] && Inside(t, u) && CanOpen(u, s)
    requires Announced(u, s) ==> Apart(t, Some(NextRecord(u)))
    ensures Inside(t, Opened(u, s))
  {
    hide FindNode;
    hide Encloses;
    if Announced(u, s) {
      var r := NextRecord(u);
      TieInside(t, u, r, s);
      PushInside(t, Tie(u, r, s), r);
      assert PushKnown(u, s, r) == Tie(u, r, s).(stack := u.stack + [r]);
    } else {
      var x := TNode(if u.stack == [] then None else Some(Top(u)), None, Some(s), None);
      GrowInside(t, u, x);
      NewIsApart(t, |u.arena|);
      PushInside(t, u.(arena := u.arena + [x]), |u.arena|);
    }
  }

  lemma SeenInside(t: Tracker, u: Tracker, s: ClangScope)
    requires Wf(t) && t.stack != [] && Inside(t, u) && EntersAside(t, u, See(s))
    ensures Inside(t, Seen(u, s)) && |u.stack| <= |Seen(u, s).stack|
  {
    hide FindNode;
    hide Encloses;
    hide Inside;
    if u.stack != [] {
      TieInside(t, u, Top(u), s);
      var v := Bound(u, s);
      if CanOpen(v, s) && !IsCurrent(v, s) {
        OpenInside(t, v, s);
      }
    }
  }

  lemma DeclareInside(t: Tracker, u: Tracker, name: Name, n: TreeNode)
    requires t.stack != [] && Inside(t, u) && |u.stack| > |t.stack|
    ensures Inside(t, Declared(u, name, n))
  {
    hide Encloses;
    var v := Declared(u, name, n);
    forall i | |t.listed| <= i < |v.listed| ensures v.listed[i] < |v.arena| && Apart(t, v.arena[v.listed[i]].parent) {
      if i < |u.listed| {
        assert v.listed[i] == u.listed[i] && v.arena[v.listed[i]] == u.arena[u.listed[i]];
      }
    }
  }

  lemma InsideStep(t: Tracker, u: Tracker, op: Op)
    requires Wf(t) && t.stack != [] && Inside(t, u) && |u.stack| > |t.stack| && EntersAside(t, u, op)
    ensures Inside(t, Apply(u, op))
  {
    hide Encloses;
    hide FindNode;
    match op
    case See(s) => SeenInside(t, u, s);
    case Add(name, n, s) =>
      SeenInside(t, u, s);
      DeclareInside(t, Seen(u, s), name, n);
    case Close =>
      var v := Popped(u);
      assert t.stack <= v.stack;
    case SetNext(_) =>
  }

  lemma {:induction false} InsideRun(t: Tracker, u: Tracker, ops: seq<Op>)
    requires Wf(t) && t.stack != [] && Inside(t, u) && StaysAside(t, u, ops)
    ensures Inside(t, ApplyAll(u, ops)) && |ApplyAll(u, ops).stack| > |t.stack|
    decreases |ops|
  {
    hide Inside;
    hide Wf;
    hide EntersAside;
    if ops != [] {
      InsideStep(t, u, ops[0]);
      InsideRun(t, Apply(u, ops[0]), ops[1..]);
    }
  }

  /** Opening a scope, anonymous or of a class, filling it and scopes within it, and closing it again
      leaves the meaning of every unqualified name as it was. */
  lemma ClosedScopeIsInvisible(t: Tracker, s: ClangScope, ops: seq<Op>, name: Name)
    requires Wf(t) && t.stack != [] && EntersAside(t, t, See(s))
    requires StaysAside(t, Seen(t, s), ops)
    requires |ApplyAll(Seen(t, s), ops).stack| == |t.stack| + 1
    ensures var u := Popped(ApplyAll(Seen(t, s), ops));
            u.stack == t.stack && Meaning(u, name) == Meaning(t, name)
  {
    hide LookUp;
    hide ApplyAll;
    hide StaysAside;
    hide FirstIn;
    hide EntersAside;
    hide Seen;
    hide Encloses;
    SeenInside(t, t, s);
    InsideRun(t, Seen(t, s), ops);
    var w := ApplyAll(Seen(t, s), ops);
    var u := Popped(w);
    assert u.stack == w.stack[..|t.stack|];
    var i := LookUp(t, name, Some(Top(t)), true, NOMATCH);
    HiddenLookUp(t, u, name, Some(Top(t)), true, NOMATCH);
    LookUpInRange(t, name, Some(Top(t)), true, NOMATCH);
    if i.Some? {
      assert u.listed[i.value] == t.listed[i.value];
    }
  }

  /** A class scope opened for a record that was announced is that record's: what is declared in it is
      found there by a qualified look-up, unless the record has an earlier member of that name. */
  lemma MembersAreFound(t: Tracker, record: TreeNode, s: ClangScope, name: Name, n: TreeNode)
    requires Wf(t) && t.stack != [] && FindNode(t, record, 0).Some? && s.ofClass
    ensures CanOpen(NextRecordSet(t, Some(record)), s)
    ensures var u := Declared(Opened(NextRecordSet(t, Some(record)), s), name, n);
            var r := t.listed[FindNode(t, record, 0).value];
            var first := FirstIn(t, name, Some(r), 0);
            && FindNode(u, record, 0) == FindNode(t, record, 0) && u.listed[FindNode(t, record, 0).value] == r
            && NodeAt(u, LookUp(u, name, Some(r), false, NOMATCH)) ==
               if first.None? then Some(n) else t.arena[t.listed[first.value]].node
  {
    hide LookUp;
    hide FirstIn;
    hide FindNode;
    var t1 := NextRecordSet(t, Some(record));
    FindNodeAgrees(t, t1, record, 0);
    var r := t.listed[FindNode(t, record, 0).value];
    assert NextRecord(t1) == r;
    var v := Opened(t1, s);
    var u := Declared(v, name, n);
    assert Top(v) == r;
    FindNodeAgrees(t, u, record, 0);
    MemberLookUp(t, u, r, name, n);
  }

  /** A state in which the same is listed but for new declarations at the end. */
  lemma {:induction false} FindNodeAgrees(t: Tracker, u: Tracker, n: TreeNode, i: nat)
    requires Wf(t) && SameNodes(t, u) && t.listed <= u.listed
    ensures FindNode(t, n, i).Some? ==> FindNode(u, n, i) == FindNode(t, n, i)
    decreases |t.listed| - i
  {
    if i < |t.listed| {
      assert u.listed[i] == t.listed[i];
      FindNodeAgrees(t, u, n, i + 1);
    }
  }

  lemma MemberLookUp(t: Tracker, u: Tracker, r: Ref, name: Name, n: TreeNode)
    requires Wf(t) && SameNodes(t, u) && |u.arena| == |t.arena| + 1 && u.listed == t.listed + [|t.arena|]
    requires u.arena[|t.arena|] == TNode(Some(r), Some(n), None, Some(name))
    ensures var first := FirstIn(t, name, Some(r), 0);
            NodeAt(u, LookUp(u, name, Some(r), false, NOMATCH)) == if first.None? then Some(n) else t.arena[t.listed[first.value]].node
  {
    hide FirstIn;
    var first, first' := FirstIn(t, name, Some(r), 0), FirstIn(u, name, Some(r), 0);
    assert Declares(u, |t.listed|, name, Some(r));
    forall j | 0 <= j < |t.listed| ensures Declares(u, j, name, Some(r)) <==> Declares(t, j, name, Some(r)) {
      assert u.listed[j] == t.listed[j];
    }
    assert first'.Some?;
    assert first'.value == if first.None? then |t.listed| else first.value;
  }

  lemma {:induction false} LookUpInRange(t: Tracker, name: Name, scope: Option<Ref>, recurse: bool, limit: nat)
    ensures var i := LookUp(t, name, scope, recurse, limit);
            i.Some? ==> i.value < |t.listed| && t.listed[i.value] < |t.arena| && t.arena[t.listed[i.value]].name == Some(name)
    decreases limit
  {
    if limit > 0 && scope.Some? {
      LookUpInRange(t, name, ParentOf(t, scope.value), recurse, limit - 1);
    }
  }

  /** A qualified look-up finds the earliest declaration made directly in the scope, or nothing. */
  lemma QualifiedIsExact(t: Tracker, name: Name, scope: Ref)
    ensures var i := LookUp(t, name, Some(scope), false, NOMATCH);
            && (i.Some? ==> Declares(t, i.value, name, Some(scope)) && forall j :: 0 <= j < i.value ==> !Declares(t, j, name, Some(scope)))
            && (i.None? ==> forall j :: 0 <= j < |t.listed| ==> !Declares(t, j, name, Some(scope)))
  {
  }

  lemma LookUpHead(t: Tracker, name: Name, scope: Option<Ref>, limit: nat)
    requires limit > 0 && FirstIn(t, name, scope, 0).Some?
    ensures LookUp(t, name, scope, true, limit) == FirstIn(t, name, scope, 0)
  {
  }

  /** A new declaration hides those of enclosing scopes at once, but not an earlier one of its own scope. */
  lemma DeclarationShadows(t: Tracker, name: Name, n: TreeNode)
    requires Wf(t) && t.stack != []
    ensures var first := FirstIn(t, name, Some(Top(t)), 0);
            Meaning(Declared(t, name, n), name) == if first.None? then Some(n) else t.arena[t.listed[first.value]].node
  {
    hide LookUp;
    hide FirstIn;
    var u, scope := Declared(t, name, n), Some(Top(t));
    var r, r' := FirstIn(t, name, scope, 0), FirstIn(u, name, scope, 0);
    assert Declares(u, |t.listed|, name, scope);
    forall j | 0 <= j < |t.listed| ensures Declares(u, j, name, scope) <==> Declares(t, j, name, scope) {
      assert u.listed[j] == t.listed[j] && u.arena[t.listed[j]] == t.arena[t.listed[j]];
    }
    assert r'.Some?;
    LookUpHead(u, name, scope, NOMATCH);
    assert r'.value == if r.None? then |t.listed| else r.value;
    if r.Some? {
      assert u.listed[r.value] == t.listed[r.value] && u.arena[t.listed[r.value]] == t.arena[t.listed[r.value]];
    }
  }

  /** Every other name keeps its meaning. */
  lemma DeclarationLeavesOthers(t: Tracker, name: Name, n: TreeNode, other: Name)
    requires Wf(t) && t.stack != [] && other != name
    ensures Meaning(Declared(t, name, n), other) == Meaning(t, other)
  {
    hide LookUp;
    var i := LookUp(t, other, Some(Top(t)), true, NOMATCH);
    OthersLookUp(t, name, n, other, Some(Top(t)), NOMATCH);
    LookUpInRange(t, other, Some(Top(t)), true, NOMATCH);
  }

  lemma {:induction false} OthersLookUp(t: Tracker, name: Name, n: TreeNode, other: Name, scope: Option<Ref>, limit: nat)
    requires Wf(t) && t.stack != [] && other != name && (scope.Some? ==> scope.value < |t.arena|)
    ensures LookUp(Declared(t, name, n), other, scope, true, limit) == LookUp(t, other, scope, true, limit)
    decreases limit
  {
    if limit > 0 {
      var u := Declared(t, name, n);
      forall j: nat ensures Declares(u, j, other, scope) <==> Declares(t, j, other, scope) {
        if j < |t.listed| {
          assert u.listed[j] == t.listed[j] && u.arena[t.listed[j]] == t.arena[t.listed[j]];
        }
      }
      FirstAgrees(t, u, other, scope);
      if scope.Some? {
        assert u.arena[scope.value] == t.arena[scope.value];
        OthersLookUp(t, name, n, other, ParentOf(t, scope.value), limit - 1);
      }
    }
  }
}
