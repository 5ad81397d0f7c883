/** From the closed fall-through machine to a superloop, and from a thread to a method.

    The reset code moves under a test of the delta count, the remaining label and goto become a loop,
    guards may be rotated, a yield is added at the bottom of the loop, and finally wait becomes
    next_trigger and continue becomes return. */
module SuperLoop {
  import opened Prelude
  import opened StateMachine
  import opened FallOut
  import opened PolicyRounds
  import opened LabelPolicy

  /** The statements of the loop body; a body that `leaves` ends in continue. */
  datatype Item =
    | OnReset(body: seq<Stmt>)                       // if( delta_count==0 ){ body; continue }
    | OnState(k: nat, body: seq<Stmt>, leaves: bool) // if( state==k ){ body } or { body; continue }

  datatype Loop = Loop(items: seq<Item>, tail: seq<Stmt>)

  // ---------- forming the loop ----------

  /** Some goto, at the top level or in a guard. */
  predicate HasGoto(p: seq<Stmt>) {
    exists i :: 0 <= i < |p| && (p[i].Goto? || (p[i].Guard? && Goto in p[i].body))
  }

  /** body1; wait; body2; L: post  ->  L: if( delta_count==0 ){ body1; wait; body2; goto } post */
  function TopPolicy(p: seq<Stmt>): Option<seq<Stmt>> {
    var w := CombEnd(p, 0);
    if w >= |p| || !p[w].Wait? then None
    else
      var l := CombEnd(p, w + 1);
      if l < |p| && p[l].Label? && HasGoto(p) then Some([p[l], Once(p[..l])] + p[l + 1..]) else None
  }

  predicate Conditional(s: Stmt) {
    s.Guard? || s.Once?
  }

  function ItemOf(s: Stmt): Item
    requires Conditional(s)
  {
    if s.Once? then OnReset(s.body)
    else
      var n := |s.body|;
      if n > 0 && s.body[n - 1].Goto? then OnState(s.k, s.body[..n - 1], true) else OnState(s.k, s.body, false)
  }

  /** L: body goto  ->  do { body } while( true ), with every other goto turned into continue, when the
      body declares no label. */
  function ToSuperLoop(p: seq<Stmt>): Option<Loop> {
    var n := |p|;
    if n >= 2 && p[0].Label? && p[n - 1].Goto? && forall i :: 0 < i < n - 1 ==> Conditional(p[i])
    then Some(Loop(seq(n - 2, i requires 0 <= i < n - 2 => ItemOf(p[i + 1])), []))
    else None
  }

  function StateItem(b: Blocks, k: nat): Item {
    OnState(k, Body(b, k), !Combable(Body(b, k)))
  }

  function Items(b: Blocks, gs: seq<nat>): seq<Item> {
    seq(|gs|, i requires 0 <= i < |gs| => StateItem(b, gs[i]))
  }

  function LoopOf(b: Blocks, reset: seq<Stmt>, gs: seq<nat>, tail: seq<Stmt>): Loop {
    Loop([OnReset(reset)] + Items(b, gs), tail)
  }

  lemma ItemOfGuard(b: Blocks, k: nat)
    requires WfBlocks(b)
    ensures Conditional(GuardOf(b, k)) && ItemOf(GuardOf(b, k)) == StateItem(b, k)
  {
    var body := Body(b, k);
    assert (body + [Goto])[..|body|] == body;
  }

  /** Reset code with one wait, a label and anything behind it. */
  lemma TopPolicyOn(reset: seq<Stmt>, lab: Stmt, post: seq<Stmt>)
    requires Yields(reset) && lab.Label? && HasGoto(reset + [lab] + post)
    ensures TopPolicy(reset + [lab] + post) == Some([lab, Once(reset)] + post)
  {
    var p := reset + [lab] + post;
    var w :| 0 <= w < |reset| && reset[w].Wait? && forall i :: 0 <= i < |reset| && i != w ==> reset[i].Act?;
    assert forall i :: 0 <= i < |reset| ==> p[i] == reset[i];
    assert p[|reset|] == lab;
    CombEndIs(p, 0, w);
    CombEndIs(p, w + 1, |reset|);
    assert p[..|reset|] == reset;
    assert p[|reset| + 1..] == post;
  }

  lemma SuperLoopOn(b: Blocks, reset: seq<Stmt>, lab: Stmt, gs: seq<nat>)
    requires WfBlocks(b) && lab.Label?
    ensures ToSuperLoop([lab, Once(reset)] + (Guards(b, gs) + [Goto])) == Some(LoopOf(b, reset, gs, []))
  {
    hide WfBlocks;
    hide ItemOf;
    hide GuardOf;
    hide StateItem;
    var p, want := [lab, Once(reset)] + (Guards(b, gs) + [Goto]), LoopOf(b, reset, gs, []);
    GuardsAreGuards(b, gs);
    OnceIsReset(reset);
    assert p[1] == Once(reset);
    assert forall i :: 1 < i < |p| - 1 ==> p[i] == Guards(b, gs)[i - 2];
    assert forall i :: 0 < i < |p| - 1 ==> Conditional(p[i]);
    var loop := ToSuperLoop(p).value;
    forall i | 0 <= i < |loop.items| ensures loop.items[i] == want.items[i] {
      if i > 0 {
        assert p[i + 1] == Guards(b, gs)[i - 1] == GuardOf(b, gs[i - 1]);
        ItemOfGuard(b, gs[i - 1]);
      }
    }
    assert loop.items == want.items;
  }

  lemma OnceIsReset(reset: seq<Stmt>)
    ensures ItemOf(Once(reset)) == OnReset(reset)
  {
  }

  lemma GuardsAreGuards(b: Blocks, gs: seq<nat>)
    ensures AllGuards(Guards(b, gs))
  {
  }

  /** What the closed machine becomes. */
  lemma LoopIsDetected(b: Blocks, reset: seq<Stmt>, lab: Stmt, gs: seq<nat>)
    requires WfBlocks(b) && Yields(reset) && lab.Label?
    ensures var top := TopPolicy(Topped(reset, [lab], Guards(b, gs)));
            top.Some? && ToSuperLoop(top.value) == Some(LoopOf(b, reset, gs, []))
  {
    hide TopPolicy;
    hide ToSuperLoop;
    hide Yields;
    hide WfBlocks;
    var post := Guards(b, gs) + [Goto];
    assert Topped(reset, [lab], Guards(b, gs)) == reset + [lab] + post;
    var p := reset + [lab] + post;
    assert p[|p| - 1] == Goto;
    TopPolicyOn(reset, lab, post);
    SuperLoopOn(b, reset, lab, gs);
  }

  // ---------- running the loop ----------

  /** Part of an iteration: data, what was executed, and whether continue was reached. */
  datatype Turn = Turn(d: Data, log: seq<Stmt>, left: bool)

  function RunItem(sem: Sem, it: Item, d: Data): Turn {
    match it
    case OnReset(body) => if d.deltas == 0 then Turn(RunBody(sem, body, d), body, true) else Turn(d, [], false)
    case OnState(k, body, leaves) =>
      if d.state == k then Turn(RunBody(sem, body, d), body, leaves) else Turn(d, [], false)
  }

  function RunItems(sem: Sem, items: seq<Item>, d: Data): Turn
    decreases items
  {
    if items == [] then Turn(d, [], false)
    else
      var t := RunItem(sem, items[0], d);
      if t.left then t
      else
        var rest := RunItems(sem, items[1..], t.d);
        Turn(rest.d, t.log + rest.log, rest.left)
  }

  function Iterate(sem: Sem, loop: Loop, d: Data): Turn {
    var t := RunItems(sem, loop.items, d);
    if t.left then t else Turn(RunBody(sem, loop.tail, t.d), t.log + loop.tail, false)
  }

  function LoopRun(sem: Sem, loop: Loop, d: Data, n: nat): (Data, seq<Stmt>) {
    if n == 0 then (d, [])
    else
      var r := LoopRun(sem, loop, d, n - 1);
      var t := Iterate(sem, loop, r.0);
      (t.d, r.1 + t.log)
  }

  lemma {:induction false} DispatchShift(sem: Sem, b: Blocks, d: Data, m: nat, n: nat)
    ensures Dispatch(sem, b, d, m + n) == Dispatch(sem, b, Dispatch(sem, b, d, m), n)
    ensures DispatchLog(sem, b, d, m + n) == DispatchLog(sem, b, d, m) + DispatchLog(sem, b, Dispatch(sem, b, d, m), n)
    decreases n
  {
    if n > 0 {
      DispatchShift(sem, b, d, m, n - 1);
    }
  }

  /** A point of the dispatch machine's run, m states on. */
  ghost predicate At(sem: Sem, b: Blocks, d: Data, m: nat, d': Data, log: seq<Stmt>) {
    d' == Dispatch(sem, b, d, m) && log == DispatchLog(sem, b, d, m)
  }

  lemma AtTrans(sem: Sem, b: Blocks, d: Data, m: nat, d1: Data, log1: seq<Stmt>, n: nat, d2: Data, log2: seq<Stmt>)
    requires At(sem, b, d, m, d1, log1) && At(sem, b, d1, n, d2, log2)
    ensures At(sem, b, d, m + n, d2, log1 + log2)
  {
    DispatchShift(sem, b, d, m, n);
  }

  lemma AtOne(sem: Sem, b: Blocks, d: Data)
    requires d.state in b
    ensures At(sem, b, d, 1, RunBody(sem, b[d.state], d), b[d.state])
  {
    assert Dispatch(sem, b, d, 0) == d;
  }

  /** One pass over the guards executes some number of states, and at least one if the current state has
      a guard among them. */
  lemma {:induction false} PassIsDispatch(sem: Sem, b: Blocks, gs: seq<nat>, d: Data) returns (m: nat)
    requires Closed(sem, b) && d.state in b && forall i :: 0 <= i < |gs| ==> gs[i] in b
    ensures var t := RunItems(sem, Items(b, gs), d); At(sem, b, d, m, t.d, t.log)
    ensures d.state in gs ==> m > 0
    decreases |gs|
  {
    hide Closed;
    if gs == [] {
      m := 0;
    } else {
      var items := Items(b, gs);
      assert items[1..] == Items(b, gs[1..]);
      var t := RunItem(sem, items[0], d);
      if d.state == gs[0] {
        AtOne(sem, b, d);
        ClosedAt(sem, b, d);
        if t.left {
          m := 1;
        } else {
          var m' := PassIsDispatch(sem, b, gs[1..], t.d);
          var rest := RunItems(sem, Items(b, gs[1..]), t.d);
          AtTrans(sem, b, d, 1, t.d, t.log, m', rest.d, rest.log);
          m := 1 + m';
        }
      } else {
        m := PassIsDispatch(sem, b, gs[1..], d);
        var rest := RunItems(sem, Items(b, gs[1..]), d);
        assert [] + rest.log == rest.log;
      }
    }
  }

  lemma {:induction false} DeltasGrow(sem: Sem, body: seq<Stmt>, d: Data)
    ensures RunBody(sem, body, d).deltas >= d.deltas
    ensures (exists i :: 0 <= i < |body| && body[i].Wait?) ==> RunBody(sem, body, d).deltas > d.deltas
  {
    if body != [] {
      var n := |body| - 1;
      DeltasGrow(sem, body[..n], d);
      if exists i :: 0 <= i < |body| && body[i].Wait? {
        var i :| 0 <= i < |body| && body[i].Wait?;
        assert i < n ==> body[..n][i] == body[i];
      }
    }
  }

  lemma {:induction false} DispatchDeltas(sem: Sem, b: Blocks, d: Data, m: nat)
    ensures Dispatch(sem, b, d, m).deltas >= d.deltas
  {
    if m > 0 {
      DispatchDeltas(sem, b, d, m - 1);
      var d1 := Dispatch(sem, b, d, m - 1);
      if d1.state in b {
        DeltasGrow(sem, b[d1.state], d1);
      }
    }
  }

  /** The loop runs the reset code once and then the states of the dispatch machine, at least one in
      every iteration. */
  lemma {:induction false} LoopImplements(sem: Sem, b: Blocks, reset: seq<Stmt>, gs: seq<nat>, d: Data, n: nat)
    returns (m: nat)
    requires Closed(sem, b) && Yields(reset) && d.deltas == 0 && RunBody(sem, reset, d).state in b
    requires (forall i :: 0 <= i < |gs| ==> gs[i] in b) && (forall k :: k in b ==> k in gs)
    ensures m >= n
    ensures var r := LoopRun(sem, LoopOf(b, reset, gs, []), d, n + 1);
            && r.0 == Dispatch(sem, b, RunBody(sem, reset, d), m)
            && r.1 == reset + DispatchLog(sem, b, RunBody(sem, reset, d), m)
    decreases n
  {
    hide Closed;
    hide RunBody;
    hide Iterate;
    hide RunItems;
    hide Dispatch;
    hide DispatchLog;
    hide LoopOf;
    var loop, d0 := LoopOf(b, reset, gs, []), RunBody(sem, reset, d);
    if n == 0 {
      m := 0;
      FirstIteration(sem, b, reset, gs, d);
    } else {
      var m1 := LoopImplements(sem, b, reset, gs, d, n - 1);
      var r := LoopRun(sem, loop, d, n);
      DispatchStays(sem, b, d0, m1);
      DispatchDeltas(sem, b, d0, m1);
      DeltasGrow(sem, reset, d);
      var m2 := PassIsDispatch(sem, b, gs, r.0);
      var t := RunItems(sem, Items(b, gs), r.0);
      AtTrans(sem, b, d0, m1, r.0, DispatchLog(sem, b, d0, m1), m2, t.d, t.log);
      IterateGuards(sem, b, reset, gs, r.0);
      m := m1 + m2;
      assert r.1 + t.log == reset + (DispatchLog(sem, b, d0, m1) + t.log);
    }
  }

  lemma FirstIteration(sem: Sem, b: Blocks, reset: seq<Stmt>, gs: seq<nat>, d: Data)
    requires d.deltas == 0
    ensures var r := LoopRun(sem, LoopOf(b, reset, gs, []), d, 1);
            var d0 := RunBody(sem, reset, d);
            r.0 == Dispatch(sem, b, d0, 0) && r.1 == reset + DispatchLog(sem, b, d0, 0)
  {
    hide RunBody;
    var loop := LoopOf(b, reset, gs, []);
    assert loop.items[0] == OnReset(reset);
    assert LoopRun(sem, loop, d, 0) == (d, []);
    assert [] + reset == reset + [];
  }

  lemma IterateGuards(sem: Sem, b: Blocks, reset: seq<Stmt>, gs: seq<nat>, d: Data)
    requires d.deltas > 0
    ensures var t, it := RunItems(sem, Items(b, gs), d), Iterate(sem, LoopOf(b, reset, gs, []), d);
            it.d == t.d && it.log == t.log
  {
    var loop := LoopOf(b, reset, gs, []);
    assert loop.items[0] == OnReset(reset) && loop.items[1..] == Items(b, gs);
    var t := RunItems(sem, Items(b, gs), d);
    assert [] + t.log == t.log;
    assert t.log + [] == t.log;
    assert RunBody(sem, [], t.d) == t.d;
  }

  // ---------- loop rotation ----------

  /** pre, top, body, bottom, post  ->  pre, bottom, top, body, post */
  function Rotate<T>(s: seq<T>, top: nat, bottom: nat): seq<T>
    requires top <= bottom < |s|
  {
    s[..top] + [s[bottom]] + s[top..bottom] + s[bottom + 1..]
  }

  /** The bottom element is now where the top one was, those from there on have moved down by one, and the
      others have stayed. */
  lemma RotateAt<T>(s: seq<T>, top: nat, bottom: nat)
    requires top <= bottom < |s|
    ensures var r := Rotate(s, top, bottom);
            && |r| == |s| && r[top] == s[bottom]
            && (forall i :: top <= i < bottom ==> r[i + 1] == s[i])
            && (forall i :: 0 <= i < top ==> r[i] == s[i])
            && (forall i :: bottom < i < |s| ==> r[i] == s[i])
  {
  }

  lemma RotateMembers(gs: seq<nat>, top: nat, bottom: nat)
    requires top <= bottom < |gs|
    ensures forall k :: k in gs <==> k in Rotate(gs, top, bottom)
    ensures |Rotate(gs, top, bottom)| == |gs|
  {
    var r := Rotate(gs, top, bottom);
    forall k | k in gs ensures k in r {
      var i :| 0 <= i < |gs| && gs[i] == k;
      if i < top {
        assert r[i] == k;
      } else if i < bottom {
        assert r[i + 1] == k;
      } else if i == bottom {
        assert r[top] == k;
      } else {
        assert r[i] == k;
      }
    }
  }

  /** Guards of other states are passed by. */
  lemma {:induction false} PassedBy(sem: Sem, b: Blocks, gs: seq<nat>, i: nat, d: Data)
    requires i <= |gs| && d.state !in gs[..i]
    ensures RunItems(sem, Items(b, gs), d) == RunItems(sem, Items(b, gs[i..]), d)
    decreases i
  {
    hide RunBody;
    if i == 0 {
      assert gs[0..] == gs;
    } else {
      assert gs[..i][0] == gs[0] && gs[1..][..i - 1] == gs[..i][1..] && gs[1..][i - 1..] == gs[i..];
      assert Items(b, gs)[1..] == Items(b, gs[1..]);
      PassedBy(sem, b, gs[1..], i - 1, d);
      var rest := RunItems(sem, Items(b, gs[1..]), d);
      assert [] + rest.log == rest.log;
    }
  }

  /** The guard of the current state runs its body, and is left behind if the body does not wait. */
  lemma FirstGuard(sem: Sem, b: Blocks, gs: seq<nat>, d: Data)
    requires gs != [] && d.state == gs[0]
    ensures var body, t := Body(b, gs[0]), RunItems(sem, Items(b, gs), d);
            var d1 := RunBody(sem, body, d);
            var rest := RunItems(sem, Items(b, gs[1..]), d1);
            t == if Combable(body) then Turn(rest.d, body + rest.log, rest.left) else Turn(d1, body, true)
  {
    hide RunBody;
    assert Items(b, gs)[0] == StateItem(b, gs[0]);
    assert Items(b, gs)[1..] == Items(b, gs[1..]);
  }

  /** What rotation is for: when the bottom block of a loop goes back to the top state, the original needs
      an iteration for it and runs the top block in the next, and the rotated loop runs both in one. */
  lemma RotationSavesATurn(sem: Sem, b: Blocks, reset: seq<Stmt>, gs: seq<nat>, top: nat, bottom: nat, d: Data)
    requires top < bottom < |gs| && forall i, j :: 0 <= i < j < |gs| ==> gs[i] != gs[j]
    requires d.deltas > 0 && d.state == gs[bottom] && Combable(Body(b, gs[bottom]))
    requires RunBody(sem, Body(b, gs[bottom]), d).state == gs[top]
    ensures var d1 := RunBody(sem, Body(b, gs[bottom]), d);
            var it := Iterate(sem, LoopOf(b, reset, gs, []), d);
            it.d == d1 && it.log == Body(b, gs[bottom])
    ensures var d1 := RunBody(sem, Body(b, gs[bottom]), d);
            var it := Iterate(sem, LoopOf(b, reset, Rotate(gs, top, bottom), []), d);
            && Body(b, gs[bottom]) + Body(b, gs[top]) <= it.log
            && (!Combable(Body(b, gs[top])) ==>
                  it.log == Body(b, gs[bottom]) + Body(b, gs[top]) && it.d == RunBody(sem, Body(b, gs[top]), d1))
  {
    hide RunBody;
    hide Iterate;
    hide Combable;
    hide RunItems;
    hide LoopOf;
    hide Items;
    hide Rotate;
    var d1, gs' := RunBody(sem, Body(b, gs[bottom]), d), Rotate(gs, top, bottom);
    IterateGuards(sem, b, reset, gs, d);
    PassedBy(sem, b, gs, bottom, d);
    FirstGuard(sem, b, gs[bottom..], d);
    assert gs[bottom..][1..] == gs[bottom + 1..];
    PassedBy(sem, b, gs[bottom + 1..], |gs| - bottom - 1, d1);
    NoGuards(sem, b, gs[bottom + 1..][|gs| - bottom - 1..], d1);
    assert Body(b, gs[bottom]) + [] == Body(b, gs[bottom]);
    RotateAt(gs, top, bottom);
    IterateGuards(sem, b, reset, gs', d);
    PassedBy(sem, b, gs', top, d);
    FirstGuard(sem, b, gs'[top..], d);
    assert gs'[top..][1..] == gs'[top + 1..] && gs'[top + 1..][0] == gs[top];
    FirstGuard(sem, b, gs'[top + 1..], d1);
    var rest := RunItems(sem, Items(b, gs'[top + 1..][1..]), RunBody(sem, Body(b, gs[top]), d1));
    assert Body(b, gs[bottom]) + (Body(b, gs[top]) + rest.log) == Body(b, gs[bottom]) + Body(b, gs[top]) + rest.log;
  }

  lemma NoGuards(sem: Sem, b: Blocks, gs: seq<nat>, d: Data)
    requires gs == []
    ensures RunItems(sem, Items(b, gs), d) == Turn(d, [], false)
  {
  }

  lemma RotateItems(b: Blocks, reset: seq<Stmt>, gs: seq<nat>, top: nat, bottom: nat)
    requires top <= bottom < |gs|
    ensures Rotate(LoopOf(b, reset, gs, []).items, top + 1, bottom + 1) == LoopOf(b, reset, Rotate(gs, top, bottom), []).items
  {
    hide Rotate;
    RotateEach(b, gs, top, bottom);
    RotateBehind(OnReset(reset), Items(b, gs), top, bottom);
  }

  lemma RotateEach(b: Blocks, gs: seq<nat>, top: nat, bottom: nat)
    requires top <= bottom < |gs|
    ensures Items(b, Rotate(gs, top, bottom)) == Rotate(Items(b, gs), top, bottom)
  {
  }

  lemma RotateBehind<T>(x: T, s: seq<T>, top: nat, bottom: nat)
    requires top <= bottom < |s|
    ensures Rotate([x] + s, top + 1, bottom + 1) == [x] + Rotate(s, top, bottom)
  {
    var t := [x] + s;
    assert t[..top + 1] == [x] + s[..top] && t[bottom + 1] == s[bottom];
    assert t[top + 1..bottom + 1] == s[top..bottom] && t[bottom + 2..] == s[bottom + 1..];
  }

  /** Rotating guards changes how many states an iteration runs, but not which states run: after n
      iterations the original and the rotated loop are both at points of the same run, at least n states
      in. */
  lemma RotationKeepsStates(sem: Sem, b: Blocks, reset: seq<Stmt>, gs: seq<nat>, top: nat, bottom: nat, d: Data, n: nat)
    returns (m: nat, m': nat)
    requires Closed(sem, b) && Yields(reset) && d.deltas == 0 && RunBody(sem, reset, d).state in b
    requires (forall i :: 0 <= i < |gs| ==> gs[i] in b) && (forall k :: k in b ==> k in gs)
    requires top <= bottom < |gs|
    ensures m >= n && m' >= n
    ensures var loop := LoopOf(b, reset, gs, []);
            var rotated := loop.(items := Rotate(loop.items, top + 1, bottom + 1));
            && LoopRun(sem, loop, d, n + 1).1 == reset + DispatchLog(sem, b, RunBody(sem, reset, d), m)
            && LoopRun(sem, rotated, d, n + 1).1 == reset + DispatchLog(sem, b, RunBody(sem, reset, d), m')
            && LoopRun(sem, loop, d, n + 1).0 == Dispatch(sem, b, RunBody(sem, reset, d), m)
            && LoopRun(sem, rotated, d, n + 1).0 == Dispatch(sem, b, RunBody(sem, reset, d), m')
  {
    hide LoopRun;
    hide Closed;
    hide LoopOf;
    hide RunBody;
    var gs' := Rotate(gs, top, bottom);
    RotateMembers(gs, top, bottom);
    RotateItems(b, reset, gs, top, bottom);
    m := LoopImplements(sem, b, reset, gs, d, n);
    forall i | 0 <= i < |gs'| ensures gs'[i] in b {
      assert gs'[i] in gs';
    }
    m' := LoopImplements(sem, b, reset, gs', d, n);
    assert LoopOf(b, reset, gs, []).(items := LoopOf(b, reset, gs', []).items) == LoopOf(b, reset, gs', []) by {
      LoopTails(b, reset, gs);
      LoopTails(b, reset, gs');
    }
  }

  lemma LoopTails(b: Blocks, reset: seq<Stmt>, gs: seq<nat>)
    ensures LoopOf(b, reset, gs, []).tail == []
  {
  }

  // ---------- from thread to method ----------

  const DELTA: Name := 0 // the wait for a delta cycle

  /** InsertInferredYield: the loop body ends in a wait for a delta cycle. */
  function InsertInferredYield(loop: Loop): Loop {
    loop.(tail := loop.tail + [Wait(DELTA)])
  }

  /** An assignment of an enumerator to the state variable. */
  predicate SetsState(s: Stmt) {
    s.Act? && s.a.SetState? && s.a.t.Const?
  }

  predicate WaitsAt(body: seq<Stmt>, w: nat) {
    w < |body| && body[w].Wait? && Combable(body[..w]) && forall i :: w < i < |body| ==> SetsState(body[i])
  }

  /** A body whose wait is followed by assignments to the state variable only, which is what inserting a
      goto after every wait leads to. */
  ghost predicate WaitsLast(body: seq<Stmt>) {
    exists w: nat :: WaitsAt(body, w)
  }

  /** Every way through an iteration waits once, at the end. */
  ghost predicate YieldsOnce(it: Item) {
    match it
    case OnReset(body) => WaitsLast(body)
    case OnState(_, body, leaves) => if leaves then WaitsLast(body) else Combable(body)
  }

  ghost predicate MethodReady(loop: Loop) {
    (forall i :: 0 <= i < |loop.items| ==> YieldsOnce(loop.items[i])) && |loop.tail| == 1 && loop.tail[0].Wait?
  }

  /** A body in which each wait has become next_trigger: it returns at once, leaving the trigger set. */
  function RunTriggering(sem: Sem, body: seq<Stmt>, d: Data): Data {
    if body == [] then d
    else
      var d1 := RunTriggering(sem, body[..|body| - 1], d);
      if body[|body| - 1].Wait? then d1 else Exec(sem, body[|body| - 1], d1)
  }

  /** The last trigger that a body sets, if any. */
  function TriggerOf(body: seq<Stmt>): Option<Stmt> {
    if body == [] then None
    else if body[|body| - 1].Wait? then Some(body[|body| - 1])
    else TriggerOf(body[..|body| - 1])
  }

  /** What one call of the method has done. */
  datatype Call = Call(d: Data, log: seq<Stmt>, trigger: Option<Stmt>, returned: bool)

  function CallItem(sem: Sem, it: Item, d: Data): Call {
    match it
    case OnReset(body) =>
      if d.deltas == 0 then Call(RunTriggering(sem, body, d), body, TriggerOf(body), true) else Call(d, [], None, false)
    case OnState(k, body, leaves) =>
      if d.state == k then Call(RunTriggering(sem, body, d), body, TriggerOf(body), leaves) else Call(d, [], None, false)
  }

  function CallItems(sem: Sem, items: seq<Item>, d: Data): Call
    decreases items
  {
    if items == [] then Call(d, [], None, false)
    else
      var c := CallItem(sem, items[0], d);
      if c.returned then c
      else
        var rest := CallItems(sem, items[1..], c.d);
        Call(rest.d, c.log + rest.log, if rest.trigger.Some? then rest.trigger else c.trigger, rest.returned)
  }

  /** One call of the method made from a loop body. */
  function CallMethod(sem: Sem, loop: Loop, d: Data): Call {
    var c := CallItems(sem, loop.items, d);
    if c.returned then c
    else
      var t := TriggerOf(loop.tail);
      Call(RunTriggering(sem, loop.tail, c.d), c.log + loop.tail, if t.Some? then t else c.trigger, true)
  }

  /** The scheduler calls the method again when its trigger fires, after the environment has run. */
  function MethodRun(sem: Sem, loop: Loop, d: Data, n: nat): Option<(Data, seq<Stmt>)> {
    if n == 0 then Some((d, []))
    else
      var r := MethodRun(sem, loop, d, n - 1);
      if r.None? then None
      else
        var c := CallMethod(sem, loop, r.value.0);
        if c.trigger.None? then None else Some((Exec(sem, c.trigger.value, c.d), r.value.1 + c.log))
  }

  lemma {:induction false} CombableTriggering(sem: Sem, body: seq<Stmt>, d: Data)
    requires Combable(body)
    ensures RunTriggering(sem, body, d) == RunBody(sem, body, d) && TriggerOf(body) == None
  {
    if body != [] {
      CombableTriggering(sem, body[..|body| - 1], d);
    }
  }

  /** Waiting and then setting the state is setting the state and then waiting. */
  lemma {:induction false} WaitCommutes(sem: Sem, body: seq<Stmt>, w: nat, d: Data)
    requires WaitsAt(body, w)
    ensures TriggerOf(body) == Some(body[w])
    ensures RunBody(sem, body, d) == Exec(sem, body[w], RunTriggering(sem, body, d))
    decreases |body|
  {
    hide Combable;
    hide Exec;
    var n := |body| - 1;
    if n == w {
      CombableTriggering(sem, body[..n], d);
    } else {
      assert body[..n][..w] == body[..w];
      WaitCommutes(sem, body[..n], w, d);
      SetThenWait(sem, body[w], body[n], RunTriggering(sem, body[..n], d));
    }
  }

  lemma SetThenWait(sem: Sem, wait: Stmt, s: Stmt, x: Data)
    requires wait.Wait? && SetsState(s)
    ensures Exec(sem, s, Exec(sem, wait, x)) == Exec(sem, wait, Exec(sem, s, x))
  {
  }

  lemma {:induction false} ItemsMatch(sem: Sem, items: seq<Item>, d: Data)
    requires forall i :: 0 <= i < |items| ==> YieldsOnce(items[i])
    ensures var t, c := RunItems(sem, items, d), CallItems(sem, items, d);
            && c.returned == t.left && c.log == t.log && (c.trigger.Some? <==> t.left)
            && (if t.left then c.trigger.value.Wait? && t.d == Exec(sem, c.trigger.value, c.d) else t.d == c.d)
    decreases |items|
  {
    hide Exec;
    if items != [] {
      ItemMatches(sem, items[0], d);
      ItemsMatch(sem, items[1..], RunItem(sem, items[0], d).d);
    }
  }

  lemma ItemMatches(sem: Sem, it: Item, d: Data)
    requires YieldsOnce(it)
    ensures var t, c := RunItem(sem, it, d), CallItem(sem, it, d);
            && c.returned == t.left && c.log == t.log && (c.trigger.Some? <==> t.left)
            && (if t.left then c.trigger.value.Wait? && t.d == Exec(sem, c.trigger.value, c.d) else t.d == c.d)
  {
    hide Exec;
    if it.OnReset? || it.leaves {
      var w: nat :| WaitsAt(it.body, w);
      WaitCommutes(sem, it.body, w, d);
    } else {
      CombableTriggering(sem, it.body, d);
    }
  }

  /** One iteration of the thread is one call of the method and one activation of its trigger. */
  lemma CallIsIteration(sem: Sem, loop: Loop, d: Data)
    requires MethodReady(loop)
    ensures var t, c := Iterate(sem, loop, d), CallMethod(sem, loop, d);
            c.trigger.Some? && c.trigger.value.Wait? && t.d == Exec(sem, c.trigger.value, c.d) && t.log == c.log
  {
    hide Exec;
    hide RunItems;
    hide CallItems;
    ItemsMatch(sem, loop.items, d);
    var c := CallItems(sem, loop.items, d);
    if !c.returned {
      var wait := loop.tail[0];
      assert loop.tail == [wait];
      assert loop.tail[..0] == [];
      assert RunBody(sem, loop.tail[..0], c.d) == c.d;
      assert RunTriggering(sem, loop.tail[..0], c.d) == c.d;
    }
  }

  /** For a loop that waits once, at the end, the method and the thread agree on everything after any
      number of activations. */
  lemma {:induction false} ReadyLoopIsMethod(sem: Sem, loop: Loop, d: Data, n: nat)
    requires MethodReady(loop)
    ensures MethodRun(sem, loop, d, n) == Some(LoopRun(sem, loop, d, n))
  {
    hide MethodReady;
    hide Iterate;
    hide CallMethod;
    hide Exec;
    if n > 0 {
      ReadyLoopIsMethod(sem, loop, d, n - 1);
      CallIsIteration(sem, loop, LoopRun(sem, loop, d, n - 1).0);
    }
  }
}
