/** The superloop that the passes build, as a method. */
module ThreadToMethod {
  import opened Prelude
  import opened StateMachine
  import opened FallOut
  import opened PolicyRounds
  import opened LabelPolicy
  import opened SuperLoop
  import opened FallThrough

  /** After a wait nothing is left but to set the state variable. */
  ghost predicate Settled(b: Blocks, reset: seq<Stmt>, ks: seq<nat>) {
    WaitsLast(reset) && forall i :: 0 <= i < |ks| ==> Combable(Body(b, ks[i])) || WaitsLast(Body(b, ks[i]))
  }

  // ---------- rotations ----------

  /** Any number of rotations of the state blocks of a loop. */
  function Rotated(loop: Loop, turns: seq<(nat, nat)>): Loop
    decreases |turns|
  {
    if turns == [] then loop
    else
      var (top, bottom) := turns[0];
      Rotated(if 0 < top <= bottom < |loop.items| then loop.(items := Rotate(loop.items, top, bottom)) else loop, turns[1..])
  }

  ghost predicate SameMembers(gs: seq<nat>, hs: seq<nat>) {
    forall k :: k in gs <==> k in hs
  }

  lemma {:induction false} RotatedIs(b: Blocks, reset: seq<Stmt>, gs: seq<nat>, turns: seq<(nat, nat)>) returns (hs: seq<nat>)
    ensures Rotated(LoopOf(b, reset, gs, []), turns) == LoopOf(b, reset, hs, []) && SameMembers(gs, hs)
    decreases |turns|
  {
    hs := gs;
    if turns != [] {
      var (top, bottom) := turns[0];
      LoopShape(b, reset, gs);
      if 0 < top <= bottom < |LoopOf(b, reset, gs, []).items| {
        RotateItems(b, reset, gs, top - 1, bottom - 1);
        RotateMembers(gs, top - 1, bottom - 1);
        hide LoopOf;
        LoopShape(b, reset, Rotate(gs, top - 1, bottom - 1));
        hs := RotatedIs(b, reset, Rotate(gs, top - 1, bottom - 1), turns[1..]);
      } else {
        hs := RotatedIs(b, reset, gs, turns[1..]);
      }
    }
  }

  lemma LoopShape(b: Blocks, reset: seq<Stmt>, gs: seq<nat>)
    ensures var loop := LoopOf(b, reset, gs, []);
            |loop.items| == |gs| + 1 && loop.tail == [] && loop == Loop(loop.items, [])
  {
  }

  // ---------- the loop that is built is fit to become a method ----------

  lemma BuiltIsReady(b: Blocks, reset: seq<Stmt>, gs: seq<nat>)
    requires Settled(b, reset, gs)
    ensures MethodReady(InsertInferredYield(LoopOf(b, reset, gs, [])))
  {
    hide WaitsLast;
    hide Combable;
    var loop := InsertInferredYield(LoopOf(b, reset, gs, []));
    forall i | 0 <= i < |loop.items| ensures YieldsOnce(loop.items[i]) {
      if i > 0 {
        assert loop.items[i] == StateItem(b, gs[i - 1]);
      }
    }
  }

  lemma SettledMembers(b: Blocks, reset: seq<Stmt>, gs: seq<nat>, hs: seq<nat>)
    requires Settled(b, reset, gs) && SameMembers(gs, hs)
    ensures Settled(b, reset, hs)
  {
    hide WaitsLast;
    hide Combable;
    forall i | 0 <= i < |hs| ensures Combable(Body(b, hs[i])) || WaitsLast(Body(b, hs[i])) {
      assert hs[i] in hs;
      var j :| 0 <= j < |gs| && gs[j] == hs[i];
    }
  }

  /** The loop after all the passes: the fall-through passes, rotations, and the inferred yield. */
  function FinalLoop(b: Blocks, lm: LabelMap, reset: seq<Stmt>, ks: seq<nat>, turns: seq<(nat, nat)>): Loop
    requires FallThroughLoop(b, lm, reset, ks).Some?
  {
    InsertInferredYield(Rotated(FallThroughLoop(b, lm, reset, ks).value, turns))
  }

  /** A thread that the passes turn into a loop that is fit to become a method. */
  ghost predicate Convertible(b: Blocks, lm: LabelMap, reset: seq<Stmt>, ks: seq<nat>) {
    Initial(b, lm, reset, ks) && Splits(b, ks, ROUNDS) && Settled(b, reset, ks)
  }

  lemma FinalIsReady(b: Blocks, lm: LabelMap, reset: seq<Stmt>, ks: seq<nat>, turns: seq<(nat, nat)>) returns (hs: seq<nat>)
    requires Convertible(b, lm, reset, ks)
    ensures FallThroughLoop(b, lm, reset, ks).Some? && SameMembers(ks, hs)
    ensures FinalLoop(b, lm, reset, ks, turns) == InsertInferredYield(LoopOf(b, reset, hs, []))
    ensures MethodReady(FinalLoop(b, lm, reset, ks, turns))
  {
    hide FallThroughLoop;
    hide LoopOf;
    hide Settled;
    hide Initial;
    hide Splits;
    hide MethodReady;
    hide InsertInferredYield;
    LoopIsReached(b, lm, reset, ks);
    hs := RotatedIs(b, reset, ks, turns);
    SettledMembers(b, reset, ks, hs);
    BuiltIsReady(b, reset, hs);
  }

  /** The method does what the thread does, after any number of activations and in every environment. */
  lemma MethodIsThread(sem: Sem, b: Blocks, lm: LabelMap, reset: seq<Stmt>, ks: seq<nat>, turns: seq<(nat, nat)>, d: Data, n: nat)
    requires Convertible(b, lm, reset, ks)
    ensures FallThroughLoop(b, lm, reset, ks).Some?
    ensures var loop := FinalLoop(b, lm, reset, ks, turns);
            MethodRun(sem, loop, d, n) == Some(LoopRun(sem, loop, d, n))
  {
    hide Convertible;
    hide FallThroughLoop;
    hide FinalLoop;
    hide MethodReady;
    var hs := FinalIsReady(b, lm, reset, ks, turns);
    ReadyLoopIsMethod(sem, FinalLoop(b, lm, reset, ks, turns), d, n);
  }

  // ---------- one wait in each iteration ----------

  function WaitCount(log: seq<Stmt>): nat {
    if log == [] then 0 else (if log[0].Wait? then 1 else 0) + WaitCount(log[1..])
  }

  lemma {:induction false} WaitCountAppend(s: seq<Stmt>, t: seq<Stmt>)
    ensures WaitCount(s + t) == WaitCount(s) + WaitCount(t)
  {
    if s == [] {
      assert s + t == t;
    } else {
      assert (s + t)[1..] == s[1..] + t;
      WaitCountAppend(s[1..], t);
    }
  }

  lemma {:induction false} NoWaits(s: seq<Stmt>)
    requires Combable(s)
    ensures WaitCount(s) == 0
  {
    if s != [] {
      NoWaits(s[1..]);
    }
  }

  lemma OneWaitIn(body: seq<Stmt>)
    requires WaitsLast(body)
    ensures WaitCount(body) == 1
  {
    var w: nat :| WaitsAt(body, w);
    assert body == body[..w] + ([body[w]] + body[w + 1..]);
    WaitCountAppend(body[..w], [body[w]] + body[w + 1..]);
    WaitCountAppend([body[w]], body[w + 1..]);
    NoWaits(body[..w]);
    NoWaits(body[w + 1..]);
    assert [body[w]][1..] == [];
  }

  lemma WaitsLastAppend(s: seq<Stmt>, t: seq<Stmt>)
    requires Combable(s) && WaitsLast(t)
    ensures WaitsLast(s + t)
  {
    var w: nat :| WaitsAt(t, w);
    assert (s + t)[..|s| + w] == s + t[..w];
    assert WaitsAt(s + t, |s| + w);
  }

  /** What an iteration executes before it leaves waits last; what it executes without leaving does not
      wait. */
  lemma {:induction false} ItemsWait(sem: Sem, items: seq<Item>, d: Data)
    requires forall i :: 0 <= i < |items| ==> YieldsOnce(items[i])
    ensures var t := RunItems(sem, items, d); if t.left then WaitsLast(t.log) else Combable(t.log)
    decreases |items|
  {
    hide WaitsLast;
    hide RunBody;
    if items != [] {
      var t := RunItem(sem, items[0], d);
      if !t.left {
        ItemsWait(sem, items[1..], t.d);
        var rest := RunItems(sem, items[1..], t.d);
        if rest.left {
          WaitsLastAppend(t.log, rest.log);
        }
      }
    }
  }

  lemma TailWaitsLast(tail: seq<Stmt>)
    requires |tail| == 1 && tail[0].Wait?
    ensures WaitsLast(tail)
  {
    assert WaitsAt(tail, 0);
  }

  lemma ReadyLoopWaitsOnce(sem: Sem, loop: Loop, d: Data)
    requires MethodReady(loop)
    ensures WaitsLast(Iterate(sem, loop, d).log)
  {
    hide WaitsLast;
    hide RunItems;
    ItemsWait(sem, loop.items, d);
    TailWaitsLast(loop.tail);
    var t := RunItems(sem, loop.items, d);
    if !t.left {
      WaitsLastAppend(t.log, loop.tail);
    }
  }

  /** Every iteration of the superloop that the passes build performs exactly one wait, with nothing but
      writes to the state variable after it. */
  lemma IterationWaitsOnce(sem: Sem, b: Blocks, lm: LabelMap, reset: seq<Stmt>, ks: seq<nat>, turns: seq<(nat, nat)>, d: Data)
    requires Convertible(b, lm, reset, ks)
    ensures FallThroughLoop(b, lm, reset, ks).Some?
    ensures var log := Iterate(sem, FinalLoop(b, lm, reset, ks, turns), d).log; WaitCount(log) == 1 && WaitsLast(log)
  {
    hide Convertible;
    hide FallThroughLoop;
    hide FinalLoop;
    hide MethodReady;
    hide Iterate;
    hide WaitsLast;
    var hs := FinalIsReady(b, lm, reset, ks, turns);
    var loop := FinalLoop(b, lm, reset, ks, turns);
    ReadyLoopWaitsOnce(sem, loop, d);
    OneWaitIn(Iterate(sem, loop, d).log);
  }

  // ---------- the method and the original thread ----------

  /** A delta cycle in which nothing happens. */
  ghost predicate QuietDelta(sem: Sem) {
    forall r: Rest :: sem.wait(DELTA, r) == r
  }

  /** The same but for the delta count. */
  predicate Alike(d: Data, e: Data) {
    d.state == e.state && d.rest == e.rest
  }

  /** Everything executed except waits for a delta cycle. */
  function Undelta(log: seq<Stmt>): seq<Stmt> {
    if log == [] then [] else (if log[0] == Wait(DELTA) then [] else [log[0]]) + Undelta(log[1..])
  }

  lemma {:induction false} UndeltaAppend(s: seq<Stmt>, t: seq<Stmt>)
    ensures Undelta(s + t) == Undelta(s) + Undelta(t)
    decreases |s|
  {
    if s == [] {
      assert s + t == t;
    } else {
      assert (s + t)[1..] == s[1..] + t;
      UndeltaAppend(s[1..], t);
    }
  }

  lemma {:induction false} AlikeBodies(sem: Sem, body: seq<Stmt>, d: Data, e: Data)
    requires Alike(d, e)
    ensures Alike(RunBody(sem, body, d), RunBody(sem, body, e))
  {
    if body != [] {
      AlikeBodies(sem, body[..|body| - 1], d, e);
    }
  }

  lemma {:induction false} AlikeDispatch(sem: Sem, b: Blocks, d: Data, e: Data, m: nat)
    requires Alike(d, e)
    ensures Alike(Dispatch(sem, b, d, m), Dispatch(sem, b, e, m)) && DispatchLog(sem, b, d, m) == DispatchLog(sem, b, e, m)
  {
    hide RunBody;
    if m > 0 {
      AlikeDispatch(sem, b, d, e, m - 1);
      var d1, e1 := Dispatch(sem, b, d, m - 1), Dispatch(sem, b, e, m - 1);
      if d1.state in b {
        AlikeBodies(sem, b[d1.state], d1, e1);
      }
    }
  }

  /** The loop with its inferred yield, in terms of the dispatch machine. */
  lemma {:induction false} YieldingLoopImplements(sem: Sem, b: Blocks, reset: seq<Stmt>, gs: seq<nat>, d: Data, n: nat)
    returns (m: nat)
    requires Closed(sem, b) && Yields(reset) && d.deltas == 0 && RunBody(sem, reset, d).state in b && QuietDelta(sem)
    requires (forall i :: 0 <= i < |gs| ==> gs[i] in b) && (forall k :: k in b ==> k in gs)
    ensures m >= n
    ensures var r := LoopRun(sem, InsertInferredYield(LoopOf(b, reset, gs, [])), d, n + 1);
            var d0 := RunBody(sem, reset, d);
            && r.0.deltas > 0 && Alike(r.0, Dispatch(sem, b, d0, m))
            && Undelta(r.1) == Undelta(reset + DispatchLog(sem, b, d0, m))
    decreases n
  {
    hide Closed;
    hide RunBody;
    hide Iterate;
    hide RunItems;
    hide Dispatch;
    hide DispatchLog;
    hide LoopOf;
    hide QuietDelta;
    hide Undelta;
    var loop, d0 := InsertInferredYield(LoopOf(b, reset, gs, [])), RunBody(sem, reset, d);
    if n == 0 {
      m := 0;
      FirstYielding(sem, b, reset, gs, d);
      DeltasGrow(sem, reset, d);
    } else {
      var m1 := YieldingLoopImplements(sem, b, reset, gs, d, n - 1);
      var r := LoopRun(sem, loop, d, n);
      var d1 := Dispatch(sem, b, d0, m1);
      DispatchStays(sem, b, d0, m1);
      var m2 := PassIsDispatch(sem, b, gs, r.0);
      AlikeDispatch(sem, b, r.0, d1, m2);
      DispatchShift(sem, b, d0, m1, m2);
      DispatchDeltas(sem, b, r.0, m2);
      var t, u := RunItems(sem, Items(b, gs), r.0), Iterate(sem, loop, r.0);
      IterateYielding(sem, b, reset, gs, r.0);
      m := m1 + m2;
      Relog(r.1, u.log, t.log, reset, DispatchLog(sem, b, d0, m1));
    }
  }

  lemma Relog(log: seq<Stmt>, more: seq<Stmt>, turn: seq<Stmt>, reset: seq<Stmt>, done: seq<Stmt>)
    requires Undelta(log) == Undelta(reset + done) && Undelta(more) == Undelta(turn)
    ensures Undelta(log + more) == Undelta(reset + (done + turn))
  {
    hide Undelta;
    UndeltaAppend(log, more);
    UndeltaAppend(reset + done, turn);
    assert reset + done + turn == reset + (done + turn);
  }

  lemma FirstYielding(sem: Sem, b: Blocks, reset: seq<Stmt>, gs: seq<nat>, d: Data)
    requires d.deltas == 0 && Yields(reset)
    ensures var r := LoopRun(sem, InsertInferredYield(LoopOf(b, reset, gs, [])), d, 1);
            var d0 := RunBody(sem, reset, d);
            r.0 == d0 == Dispatch(sem, b, d0, 0) && d0.deltas > 0 && r.1 == reset + DispatchLog(sem, b, d0, 0)
  {
    DeltasGrow(sem, reset, d);
    hide RunBody;
    var loop := InsertInferredYield(LoopOf(b, reset, gs, []));
    assert loop.items[0] == OnReset(reset);
    assert LoopRun(sem, loop, d, 0) == (d, []);
    assert [] + reset == reset + [];
  }

  lemma IterateYielding(sem: Sem, b: Blocks, reset: seq<Stmt>, gs: seq<nat>, d: Data)
    requires d.deltas > 0 && QuietDelta(sem)
    ensures var t, u := RunItems(sem, Items(b, gs), d), Iterate(sem, InsertInferredYield(LoopOf(b, reset, gs, [])), d);
            Alike(u.d, t.d) && u.d.deltas >= t.d.deltas && Undelta(u.log) == Undelta(t.log)
  {
    var loop := InsertInferredYield(LoopOf(b, reset, gs, []));
    var t := RunItems(sem, Items(b, gs), d);
    assert loop.items[0] == OnReset(reset) && loop.items[1..] == Items(b, gs);
    assert [] + t.log == t.log;
    assert RunItems(sem, loop.items, d) == t;
    assert loop.tail == [Wait(DELTA)] && loop.tail[..0] == [] && loop.tail[1..] == [];
    assert RunBody(sem, loop.tail[..0], t.d) == t.d;
    assert RunBody(sem, loop.tail, t.d) == Exec(sem, Wait(DELTA), t.d);
    UndeltaAppend(t.log, loop.tail);
  }

  /** From the original thread to the method: when nothing happens in the inserted delta cycles, the
      method has executed, after any number of activations, what the original thread has executed at some
      point at least as far on, waits for a delta cycle apart. */
  lemma MethodPreservesThread(sem: Sem, b: Blocks, lm: LabelMap, reset: seq<Stmt>, ks: seq<nat>, turns: seq<(nat, nat)>, d: Data, n: nat)
    returns (k: nat, c: Config)
    requires Convertible(b, lm, reset, ks) && Closed(sem, b) && QuietDelta(sem)
    requires d.deltas == 0 && RunBody(sem, reset, d).state in b
    ensures FallThroughLoop(b, lm, reset, ks).Some?
    ensures k >= n && Run(sem, lm, InitialThread(b, lm, reset, ks), Config(0, d, []), k) == Some(c)
    ensures var r := MethodRun(sem, FinalLoop(b, lm, reset, ks, turns), d, n + 1);
            r.Some? && Alike(r.value.0, c.d) && Undelta(r.value.1) == Undelta(c.log)
  {
    hide Closed;
    hide QuietDelta;
    hide Run;
    hide LoopRun;
    hide MethodRun;
    hide FallThroughLoop;
    hide FinalLoop;
    hide LoopOf;
    hide RunBody;
    hide Undelta;
    hide Settled;
    hide Splits;
    hide MethodReady;
    var hs := FinalIsReady(b, lm, reset, ks, turns);
    MethodIsThread(sem, b, lm, reset, ks, turns, d, n + 1);
    StatesIn(b, lm, ks);
    forall i | 0 <= i < |hs| ensures hs[i] in b {
      assert hs[i] in hs;
    }
    var m := YieldingLoopImplements(sem, b, reset, hs, d, n);
    assert ks[..0] == [] && ks[0..] == ks;
    k, c := FormImplements(sem, b, lm, reset, ks, 0, d, m);
  }

  // ---------- the condition is exact ----------

  /** The method does what the thread does, whatever the program's parts do. */
  ghost predicate MethodAgrees(loop: Loop) {
    forall sem: Sem, d: Data, n: nat :: MethodRun(sem, loop, d, n) == Some(LoopRun(sem, loop, d, n))
  }

  /** Parts that only record that they were executed. */
  function Recording(): Sem {
    Sem((n: Name, r: Rest) => r.(trace := r.trace + [Wrote(n, 0)]),
        (c: Name, r: Rest) => (true, r.(trace := r.trace + [Wrote(c, 1)])),
        (w: Name, r: Rest) => r.(trace := r.trace + [Waited(w)]))
  }

  predicate EndsInWrite(r: Rest) {
    r.trace != [] && r.trace[|r.trace| - 1].Wrote?
  }

  lemma {:induction false} ChoiceRecords(t: Target, r: Rest)
    ensures t.Choose? || EndsInWrite(r) ==> EndsInWrite(Chosen(Recording(), t, r).1)
    ensures t.Const? ==> Chosen(Recording(), t, r).1 == r
  {
    if t.Choose? {
      ChoiceRecords(t.a, r.(trace := r.trace + [Wrote(t.c, 1)]));
    }
  }

  /** A body that waits and then does more than set the state ends with a record of that. */
  lemma {:induction false} UnsettledRecords(body: seq<Stmt>, w: nat, d: Data)
    requires w < |body| && body[w].Wait? && (forall i :: 0 <= i < |body| && i != w ==> body[i].Act?)
    requires exists i :: w < i < |body| && !SetsState(body[i])
    ensures EndsInWrite(RunBody(Recording(), body, d).rest)
    decreases |body|
  {
    hide Recording;
    var n := |body| - 1;
    var x, e := body[n], RunBody(Recording(), body[..n], d);
    if SetsState(x) {
      var i :| w < i < |body| && !SetsState(body[i]);
      assert body[..n][i] == body[i];
      UnsettledRecords(body[..n], w, d);
      ChoiceRecords(x.a.t, e.rest);
    } else {
      LastRecords(x, e);
    }
  }

  lemma LastRecords(x: Stmt, e: Data)
    requires x.Act? && !SetsState(x)
    ensures EndsInWrite(Exec(Recording(), x, e).rest)
  {
    if x.a.SetState? {
      ChoiceRecords(x.a.t, e.rest);
    }
  }

  lemma WaitRecords(w: Name, d: Data)
    ensures !EndsInWrite(Exec(Recording(), Wait(w), d).rest)
  {
  }

  lemma {:induction false} TriggerIsWait(body: seq<Stmt>)
    ensures TriggerOf(body).Some? ==> TriggerOf(body).value.Wait?
  {
    if body != [] && !body[|body| - 1].Wait? {
      TriggerIsWait(body[..|body| - 1]);
    }
  }

  /** The first item whose test holds, when it leaves the iteration. */
  lemma {:induction false} FirstActive(sem: Sem, items: seq<Item>, i: nat, d: Data)
    requires i < |items| && RunItem(sem, items[i], d).left && CallItem(sem, items[i], d).returned
    requires forall j :: 0 <= j < i ==> RunItem(sem, items[j], d) == Turn(d, [], false) && CallItem(sem, items[j], d) == Call(d, [], None, false)
    ensures RunItems(sem, items, d) == RunItem(sem, items[i], d) && CallItems(sem, items, d) == CallItem(sem, items[i], d)
    decreases i
  {
    hide RunItem;
    hide CallItem;
    if i > 0 {
      FirstActive(sem, items[1..], i - 1, d);
      assert [] + RunItem(sem, items[i], d).log == RunItem(sem, items[i], d).log;
      assert [] + CallItem(sem, items[i], d).log == CallItem(sem, items[i], d).log;
      LeavesWith(sem, items[i], d);
    }
  }

  lemma LeavesWith(sem: Sem, it: Item, d: Data)
    ensures var t, c := RunItem(sem, it, d), CallItem(sem, it, d);
            t == Turn(t.d, t.log, t.left) && c == Call(c.d, c.log, c.trigger, c.returned)
  {
  }

  /** A body that leaves the iteration but does not wait last makes a method that differs. */
  lemma UnsettledDiffers(b: Blocks, reset: seq<Stmt>, gs: seq<nat>, i: nat, body: seq<Stmt>, d: Data)
    requires var loop := InsertInferredYield(LoopOf(b, reset, gs, []));
             && i < |loop.items| && loop.items[i].body == body
             && RunItem(Recording(), loop.items[i], d) == Turn(RunBody(Recording(), body, d), body, true)
             && CallItem(Recording(), loop.items[i], d) == Call(RunTriggering(Recording(), body, d), body, TriggerOf(body), true)
             && forall j :: 0 <= j < i ==>
                  && RunItem(Recording(), loop.items[j], d) == Turn(d, [], false)
                  && CallItem(Recording(), loop.items[j], d) == Call(d, [], None, false)
    requires Yields(body) && !WaitsLast(body)
    ensures !MethodAgrees(InsertInferredYield(LoopOf(b, reset, gs, [])))
  {
    hide LoopOf;
    hide InsertInferredYield;
    hide RunItem;
    hide CallItem;
    hide RunBody;
    hide RunTriggering;
    hide Recording;
    var loop, sem := InsertInferredYield(LoopOf(b, reset, gs, [])), Recording();
    FirstActive(sem, loop.items, i, d);
    NotLast(body);
    var w :| 0 <= w < |body| && body[w].Wait? && (forall j :: 0 <= j < |body| && j != w ==> body[j].Act?) &&
             exists j :: w < j < |body| && !SetsState(body[j]);
    UnsettledRecords(body, w, d);
    TriggerIsWait(body);
    OneRun(sem, loop, d);
    if TriggerOf(body).Some? {
      WaitRecords(TriggerOf(body).value.w, RunTriggering(sem, body, d));
    }
    assert MethodRun(sem, loop, d, 1) != Some(LoopRun(sem, loop, d, 1));
  }

  lemma NotLast(body: seq<Stmt>)
    requires Yields(body) && !WaitsLast(body)
    ensures exists w :: 0 <= w < |body| && body[w].Wait? && (forall j :: 0 <= j < |body| && j != w ==> body[j].Act?) &&
              exists j :: w < j < |body| && !SetsState(body[j])
  {
    var w :| 0 <= w < |body| && body[w].Wait? && forall i :: 0 <= i < |body| && i != w ==> body[i].Act?;
    if forall j :: w < j < |body| ==> SetsState(body[j]) {
      assert WaitsAt(body, w);
    }
  }

  lemma OneRun(sem: Sem, loop: Loop, d: Data)
    ensures LoopRun(sem, loop, d, 1).0 == Iterate(sem, loop, d).d
    ensures var c := CallMethod(sem, loop, d);
            MethodRun(sem, loop, d, 1).Some? ==> c.trigger.Some? && MethodRun(sem, loop, d, 1).value.0 == Exec(sem, c.trigger.value, c.d)
  {
    assert LoopRun(sem, loop, d, 0) == (d, []);
    assert MethodRun(sem, loop, d, 0) == Some((d, []));
  }

  /** For every loop the passes can build, the method does what the thread does, whatever its parts do, if
      and only if after each wait there is nothing left but to set the state variable. */
  lemma MethodExactlyWhenSettled(b: Blocks, lm: LabelMap, reset: seq<Stmt>, gs: seq<nat>)
    requires Yields(reset) && StatesOk(b, lm, gs)
    ensures MethodAgrees(InsertInferredYield(LoopOf(b, reset, gs, []))) <==> Settled(b, reset, gs)
  {
    hide WaitsLast;
    hide Combable;
    hide Yields;
    var loop := InsertInferredYield(LoopOf(b, reset, gs, []));
    if Settled(b, reset, gs) {
      BuiltIsReady(b, reset, gs);
      forall sem: Sem, d: Data, n: nat ensures MethodRun(sem, loop, d, n) == Some(LoopRun(sem, loop, d, n)) {
        ReadyLoopIsMethod(sem, loop, d, n);
      }
    } else if !WaitsLast(reset) {
      assert loop.items[0] == OnReset(reset);
      UnsettledDiffers(b, reset, gs, 0, reset, Data(0, Rest(map[], []), 0));
    } else {
      var i :| 0 <= i < |gs| && !(Combable(Body(b, gs[i])) || WaitsLast(Body(b, gs[i])));
      UnsettledStateDiffers(b, lm, reset, gs, i);
    }
  }

  lemma {:induction false} UnsettledStateDiffers(b: Blocks, lm: LabelMap, reset: seq<Stmt>, gs: seq<nat>, i: nat)
    requires StatesOk(b, lm, gs) && i < |gs| && !Combable(Body(b, gs[i])) && !WaitsLast(Body(b, gs[i]))
    ensures !MethodAgrees(InsertInferredYield(LoopOf(b, reset, gs, [])))
    decreases i
  {
    hide WaitsLast;
    hide Combable;
    hide Yields;
    hide MethodAgrees;
    hide RunBody;
    hide RunTriggering;
    hide Recording;
    var k, loop := gs[i], InsertInferredYield(LoopOf(b, reset, gs, []));
    if exists j :: 0 <= j < i && gs[j] == k {
      var j :| 0 <= j < i && gs[j] == k;
      UnsettledStateDiffers(b, lm, reset, gs, j);
    } else {
      assert loop.items[0] == OnReset(reset);
      assert forall j :: 0 < j <= i ==> loop.items[j] == StateItem(b, gs[j - 1]);
      assert StateOk(b, lm, k);
      UnsettledDiffers(b, reset, gs, i + 1, Body(b, k), Data(k, Rest(map[], []), 1));
    }
  }
}
