/** The bottom policy: a thread whose last state ends the thread by completing. */
module BottomPolicy {
  import opened Prelude
  import opened StateMachine
  import opened FallOut
  import opened PolicyRounds

  /** goto; L: body  ->  L: if( state==S ){ body } goto, when the thread ends with body. */
  function BottomHit(p: seq<Stmt>): Option<seq<Stmt>> {
    var i := FirstGoto(p);
    if i + 1 >= |p| || !p[i + 1].Label? || CombEnd(p, i + 2) < |p| then None
    else Some(p[..i] + [p[i + 1], Guard(p[i + 1].of, p[i + 2..])] + [Goto])
  }

  /** States js as guards, and state k in raw form without a goto behind it. */
  function EndingThread(b: Blocks, lm: LabelMap, reset: seq<Stmt>, js: seq<nat>, k: nat): seq<Stmt> {
    reset + Pairs(b, lm, js) + [Goto, LabelOf(lm, k)] + Body(b, k)
  }

  /** A thread with one more state than it has guards. */
  ghost predicate Ending(b: Blocks, lm: LabelMap, reset: seq<Stmt>, js: seq<nat>, k: nat) {
    && WfBlocks(b) && Injective(b, lm) && Straight(reset) && StatesOk(b, lm, js)
    && k in b && Combable(b[k]) && k !in js && (forall j :: j in b ==> j in lm && (j == k || j in js))
  }

  lemma BottomHitOn(b: Blocks, lm: LabelMap, reset: seq<Stmt>, js: seq<nat>, k: nat)
    requires Straight(reset) && Combable(Body(b, k))
    ensures BottomHit(EndingThread(b, lm, reset, js, k)) == Some(Form(b, lm, reset, Pairs(b, lm, js + [k]), []))
  {
    hide Pairs;
    var p, head, lab, body := EndingThread(b, lm, reset, js, k), reset + Pairs(b, lm, js), LabelOf(lm, k), Body(b, k);
    PairsFronted(b, lm, js);
    assert forall i :: 0 <= i < |head| ==> p[i] == head[i] && !p[i].Goto?;
    BottomPieces(p, head, lab, body);
    BottomAt(p, |head|);
    PairsAppend(b, lm, js, [k]);
    PairsOne(b, lm, k);
    assert head + [lab, GuardOf(b, k)] + [Goto] == reset + (Pairs(b, lm, js) + Pair(b, lm, k)) + [Goto] + [];
  }

  lemma PairsOne(b: Blocks, lm: LabelMap, k: nat)
    ensures Pairs(b, lm, [k]) == Pair(b, lm, k)
  {
    assert [k][1..] == [];
    assert Pairs(b, lm, []) == [];
  }

  lemma BottomPieces(p: seq<Stmt>, head: seq<Stmt>, lab: Stmt, body: seq<Stmt>)
    requires p == head + [Goto, lab] + body && Combable(body)
    ensures p[..|head|] == head && p[|head|] == Goto && p[|head| + 1] == lab && p[|head| + 2..] == body
    ensures forall i :: |head| + 2 <= i < |p| ==> !Uncombable(p[i])
  {
    assert forall i :: |head| + 2 <= i < |p| ==> p[i] == body[i - |head| - 2];
  }

  lemma BottomAt(p: seq<Stmt>, i: nat)
    requires i + 1 < |p| && p[i].Goto? && p[i + 1].Label? && (forall j :: 0 <= j < i ==> !p[j].Goto?)
    requires forall j :: i + 2 <= j < |p| ==> !Uncombable(p[j])
    ensures BottomHit(p) == Some(p[..i] + [p[i + 1], Guard(p[i + 1].of, p[i + 2..])] + [Goto])
  {
    assert FirstGoto(p) == i;
    assert CombEnd(p, i + 2) == |p|;
  }

  // ---------- where things are ----------

  lemma {:induction false} PairsAt(b: Blocks, lm: LabelMap, js: seq<nat>)
    ensures |Pairs(b, lm, js)| == 2 * |js|
    ensures forall i :: 0 <= i < |js| ==> Pairs(b, lm, js)[2 * i] == LabelOf(lm, js[i]) && Pairs(b, lm, js)[2 * i + 1] == GuardOf(b, js[i])
    decreases |js|
  {
    hide LabelOf;
    hide GuardOf;
    if js != [] {
      PairsAt(b, lm, js[1..]);
      var rest := Pairs(b, lm, js[1..]);
      assert Pairs(b, lm, js) == Pair(b, lm, js[0]) + rest;
      forall i | 0 <= i < |js|
        ensures Pairs(b, lm, js)[2 * i] == LabelOf(lm, js[i]) && Pairs(b, lm, js)[2 * i + 1] == GuardOf(b, js[i])
      {
        if i > 0 {
          var h := i - 1;
          assert js[i] == js[1..][h];
          assert rest[2 * h] == LabelOf(lm, js[1..][h]) && rest[2 * h + 1] == GuardOf(b, js[1..][h]);
          BehindPair(LabelOf(lm, js[0]), GuardOf(b, js[0]), rest, h);
        }
      }
    }
  }

  lemma BehindPair(x: Stmt, y: Stmt, rest: seq<Stmt>, h: nat)
    requires 2 * h + 1 < |rest|
    ensures ([x, y] + rest)[2 * (h + 1)] == rest[2 * h] && ([x, y] + rest)[2 * (h + 1) + 1] == rest[2 * h + 1]
  {
  }

  /** Where the labels and guards of an ending thread are. */
  ghost predicate Laid(b: Blocks, lm: LabelMap, p: seq<Stmt>, lo: nat, hi: nat, js: seq<nat>, k: nat) {
    && hi == lo + 2 * |js| && hi + 2 <= |p| && p[hi] == Goto && p[hi + 1] == LabelOf(lm, k) && p[hi + 2..] == Body(b, k)
    && (forall i :: 0 <= i < lo ==> p[i].Act? || p[i].Wait?)
    && (forall i :: 0 <= i < |js| ==> p[lo + 2 * i] == LabelOf(lm, js[i]) && p[lo + 2 * i + 1] == GuardOf(b, js[i]))
  }

  lemma EndingIsLaid(b: Blocks, lm: LabelMap, reset: seq<Stmt>, js: seq<nat>, k: nat)
    requires Straight(reset)
    ensures Laid(b, lm, EndingThread(b, lm, reset, js, k), |reset|, |reset| + 2 * |js|, js, k)
    ensures |reset| <= |EndingThread(b, lm, reset, js, k)| && EndingThread(b, lm, reset, js, k)[..|reset|] == reset
  {
    hide Pairs;
    PairsAt(b, lm, js);
    var p, ps := EndingThread(b, lm, reset, js, k), Pairs(b, lm, js);
    assert forall i :: 0 <= i < |reset| ==> p[i] == reset[i];
    assert forall i :: 0 <= i < |ps| ==> p[|reset| + i] == ps[i];
    assert p[|reset| + 2 * |js| + 2..] == Body(b, k);
  }

  /** What stands between the reset code and the goto. */
  lemma InFront(b: Blocks, lm: LabelMap, p: seq<Stmt>, lo: nat, hi: nat, js: seq<nat>, k: nat, x: nat)
    requires Laid(b, lm, p, lo, hi, js, k) && lo <= x < hi
    ensures var i := (x - lo) / 2;
            0 <= i < |js| && p[x] == if x == lo + 2 * i then LabelOf(lm, js[i]) else GuardOf(b, js[i])
    ensures p[x].Label? || p[x].Guard?
  {
    var i := (x - lo) / 2;
    assert x == lo + 2 * i || x == lo + 2 * i + 1;
  }

  lemma FindLabelIs(p: seq<Stmt>, id: nat, q: nat)
    requires q < |p| && IsLabel(p[q], id) && forall i :: 0 <= i < q ==> !IsLabel(p[i], id)
    ensures FindLabel(p, id) == q
  {
  }

  /** A jump to a state with a guard lands on a label above it; a jump to the last state, on its label. */
  lemma LabelPlace(b: Blocks, lm: LabelMap, reset: seq<Stmt>, p: seq<Stmt>, lo: nat, hi: nat, js: seq<nat>, k: nat, s: nat)
    requires Ending(b, lm, reset, js, k) && Laid(b, lm, p, lo, hi, js, k) && s in b && s in lm
    ensures var q := FindLabel(p, lm[s]);
            if s == k then q == hi + 1 else lo <= q < hi && q + 1 < hi && p[q + 1] == GuardOf(b, s)
  {
    hide Ending;
    hide Laid;
    hide IsLabel;
    LaidBound(b, lm, p, lo, hi, js, k);
    forall x | 0 <= x < |p| && x <= hi && IsLabel(p[x], lm[s])
      ensures s != k && lo <= x && x + 1 < hi && p[x + 1] == GuardOf(b, s)
    {
      LabelInFront(b, lm, reset, p, lo, hi, js, k, s, x);
    }
    if s == k {
      LastLabel(b, lm, reset, p, lo, hi, js, k);
      FindLabelIs(p, lm[s], hi + 1);
    } else {
      var i := SomeLabel(b, lm, reset, p, lo, hi, js, k, s);
    }
  }

  lemma LabelInFront(b: Blocks, lm: LabelMap, reset: seq<Stmt>, p: seq<Stmt>, lo: nat, hi: nat, js: seq<nat>, k: nat, s: nat, x: nat)
    requires Ending(b, lm, reset, js, k) && Laid(b, lm, p, lo, hi, js, k) && s in b && s in lm
    requires x <= hi && IsLabel(p[x], lm[s])
    ensures s != k && lo <= x && x + 1 < hi && p[x + 1] == GuardOf(b, s)
  {
    hide WfBlocks;
    hide Straight;
    hide StatesOk;
    hide Combable;
    hide GuardOf;
    hide Body;
    if lo <= x < hi {
      InFront(b, lm, p, lo, hi, js, k, x);
      GuardNamed(b, js[(x - lo) / 2]);
      var i := (x - lo) / 2;
      StateIn(b, lm, js, i);
      assert js[i] in js && js[i] == s;
      assert p[lo + 2 * i + 1] == GuardOf(b, js[i]);
    }
  }

  lemma LastLabel(b: Blocks, lm: LabelMap, reset: seq<Stmt>, p: seq<Stmt>, lo: nat, hi: nat, js: seq<nat>, k: nat)
    requires Ending(b, lm, reset, js, k) && Laid(b, lm, p, lo, hi, js, k)
    ensures hi + 1 < |p| && k in lm && IsLabel(p[hi + 1], lm[k])
  {
  }

  lemma SomeLabel(b: Blocks, lm: LabelMap, reset: seq<Stmt>, p: seq<Stmt>, lo: nat, hi: nat, js: seq<nat>, k: nat, s: nat)
    returns (x: nat)
    requires Ending(b, lm, reset, js, k) && Laid(b, lm, p, lo, hi, js, k) && s in b && s != k && s in lm
    ensures x < hi < |p| && IsLabel(p[x], lm[s])
  {
    assert s in js;
    var i :| 0 <= i < |js| && js[i] == s;
    x := lo + 2 * i;
    assert p[lo + 2 * i] == LabelOf(lm, js[i]);
  }

  lemma StateIn(b: Blocks, lm: LabelMap, js: seq<nat>, i: nat)
    requires StatesOk(b, lm, js) && i < |js|
    ensures js[i] in b && js[i] in lm
  {
    assert StateOk(b, lm, js[i]);
  }

  // ---------- how an ending thread runs ----------

  /** Walk over labels and the guards of other states. */
  lemma {:induction false} WalkFront(sem: Sem, lm: LabelMap, p: seq<Stmt>, hi: nat, c: Config) returns (i: nat)
    requires c.pc <= hi <= |p| && forall x :: c.pc <= x < hi ==> p[x].Label? || p[x].Guard?
    ensures c.pc <= i <= hi && Run(sem, lm, p, c, i - c.pc) == Some(c.(pc := i))
    ensures i < hi ==> p[i].Guard? && p[i].k == c.d.state
    ensures forall x :: c.pc <= x < i ==> !(p[x].Guard? && p[x].k == c.d.state)
    decreases hi - c.pc
  {
    if c.pc == hi || (p[c.pc].Guard? && p[c.pc].k == c.d.state) {
      i := c.pc;
    } else {
      var c1 := c.(pc := c.pc + 1);
      i := WalkFront(sem, lm, p, hi, c1);
      RunOnce(sem, lm, p, c, c1, i - c1.pc);
    }
  }

  /** At a block boundary of an ending thread. */
  predicate Point(lo: nat, hi: nat, k: nat, c: Config) {
    lo <= c.pc <= hi || (c.pc == hi + 1 && c.d.state == k)
  }

  /** The guard of the current state runs its body. */
  lemma GuardStep(sem: Sem, b: Blocks, lm: LabelMap, reset: seq<Stmt>, p: seq<Stmt>, lo: nat, hi: nat, js: seq<nat>, k: nat, c: Config)
    returns (c': Config)
    requires Ending(b, lm, reset, js, k) && Closed(sem, b) && Laid(b, lm, p, lo, hi, js, k)
    requires lo <= c.pc < hi && c.d.state in b && p[c.pc] == GuardOf(b, c.d.state)
    ensures Run(sem, lm, p, c, 1) == Some(c') && Point(lo, hi, k, c')
    ensures c'.d == RunBody(sem, b[c.d.state], c.d) && c'.log == c.log + b[c.d.state]
  {
    hide Closed;
    hide Laid;
    hide Ending;
    hide RunBody;
    hide Step;
    var body := b[c.d.state];
    ClosedAt(sem, b, c.d);
    var after := Config(c.pc, RunBody(sem, body, c.d), c.log + body);
    LabelIsMapped(b, lm, reset, js, k, after.d.state);
    LabelPlace(b, lm, reset, p, lo, hi, js, k, after.d.state);
    LaidBound(b, lm, p, lo, hi, js, k);
    EndingBlocks(b, lm, reset, js, k);
    GuardRuns(sem, b, lm, p, c);
    c' := if Combable(body) then after.(pc := c.pc + 1) else after.(pc := FindLabel(p, lm[after.d.state]));
    RunOnce(sem, lm, p, c, c', 0);
    RunNone(sem, lm, p, c');
  }

  /** One step of the guard of the current state. */
  lemma GuardRuns(sem: Sem, b: Blocks, lm: LabelMap, p: seq<Stmt>, c: Config)
    requires WfBlocks(b) && c.pc < |p| && c.d.state in b && p[c.pc] == GuardOf(b, c.d.state)
    ensures var body := b[c.d.state];
            var after := Config(c.pc, RunBody(sem, body, c.d), c.log + body);
            Step(sem, lm, p, c) == if Combable(body) then Some(after.(pc := c.pc + 1)) else Jump(lm, p, after)
  {
    hide RunBody;
    hide FindLabel;
    var body := b[c.d.state];
    assert (body + [Goto])[..|body|] == body;
    assert body != [] ==> !body[|body| - 1].Goto?;
  }

  lemma LaidBound(b: Blocks, lm: LabelMap, p: seq<Stmt>, lo: nat, hi: nat, js: seq<nat>, k: nat)
    requires Laid(b, lm, p, lo, hi, js, k)
    ensures lo <= hi && hi + 2 <= |p| && p[hi] == Goto
  {
  }

  lemma GuardIsOwn(b: Blocks, lm: LabelMap, p: seq<Stmt>, lo: nat, hi: nat, js: seq<nat>, k: nat, x: nat)
    requires Laid(b, lm, p, lo, hi, js, k) && lo <= x < hi && p[x].Guard?
    ensures p[x].k in js && p[x] == GuardOf(b, p[x].k)
  {
    InFront(b, lm, p, lo, hi, js, k, x);
  }

  /** From a boundary, the body of a state that has a guard is run. */
  lemma GuardedState(sem: Sem, b: Blocks, lm: LabelMap, reset: seq<Stmt>, p: seq<Stmt>, lo: nat, hi: nat, js: seq<nat>, k: nat, c: Config)
    returns (n: nat, c': Config)
    requires Ending(b, lm, reset, js, k) && Closed(sem, b) && Laid(b, lm, p, lo, hi, js, k)
    requires Point(lo, hi, k, c) && c.d.state in b && c.d.state != k
    ensures n > 0 && Run(sem, lm, p, c, n) == Some(c') && Point(lo, hi, k, c')
    ensures c'.d == RunBody(sem, b[c.d.state], c.d) && c'.log == c.log + b[c.d.state]
  {
    hide Closed;
    hide Laid;
    hide Ending;
    hide RunBody;
    hide Run;
    LaidBound(b, lm, p, lo, hi, js, k);
    forall x | c.pc <= x < hi ensures p[x].Label? || p[x].Guard? {
      InFront(b, lm, p, lo, hi, js, k, x);
    }
    var i := WalkFront(sem, lm, p, hi, c);
    n := i - c.pc;
    var c1 := c.(pc := i);
    if i == hi {
      LabelIsMapped(b, lm, reset, js, k, c.d.state);
      LabelPlace(b, lm, reset, p, lo, hi, js, k, c.d.state);
      var q := FindLabel(p, lm[c.d.state]);
      RunOnce(sem, lm, p, c1, c.(pc := q), 0);
      RunNone(sem, lm, p, c.(pc := q));
      RunSplit(sem, lm, p, c, n, 1);
      forall x | q <= x < hi ensures p[x].Label? || p[x].Guard? {
        InFront(b, lm, p, lo, hi, js, k, x);
      }
      var i2 := WalkFront(sem, lm, p, hi, c.(pc := q));
      GuardNamed(b, c.d.state);
      RunSplit(sem, lm, p, c, n + 1, i2 - q);
      n, c1 := n + 1 + (i2 - q), c.(pc := i2);
    }
    GuardIsOwn(b, lm, p, lo, hi, js, k, c1.pc);
    c' := GuardStep(sem, b, lm, reset, p, lo, hi, js, k, c1);
    RunSplit(sem, lm, p, c, n, 1);
    n := n + 1;
  }

  lemma GuardNamed(b: Blocks, s: nat)
    ensures GuardOf(b, s).Guard? && GuardOf(b, s).k == s
  {
  }

  lemma LabelIsMapped(b: Blocks, lm: LabelMap, reset: seq<Stmt>, js: seq<nat>, k: nat, s: nat)
    requires Ending(b, lm, reset, js, k) && s in b
    ensures s in lm
  {
  }

  /** From a boundary, the body of the last state is run and the thread has come to its end. */
  lemma LastState(sem: Sem, b: Blocks, lm: LabelMap, reset: seq<Stmt>, p: seq<Stmt>, lo: nat, hi: nat, js: seq<nat>, k: nat, c: Config)
    returns (n: nat, c': Config)
    requires Ending(b, lm, reset, js, k) && Laid(b, lm, p, lo, hi, js, k) && Point(lo, hi, k, c) && c.d.state == k
    ensures Run(sem, lm, p, c, n) == Some(c') && c'.pc == |p|
    ensures c'.d == RunBody(sem, b[k], c.d) && c'.log == c.log + b[k]
  {
    hide Run;
    hide RunBody;
    hide Ending;
    hide Laid;
    hide Step;
    var n1 := ToLastLabel(sem, b, lm, reset, p, lo, hi, js, k, c);
    LastBody(b, lm, reset, p, lo, hi, js, k);
    var c1, body := c.(pc := hi + 1), b[k];
    LabelStep(sem, lm, p, c1);
    var c2 := c.(pc := hi + 2);
    RunOnce(sem, lm, p, c1, c2, 0);
    RunNone(sem, lm, p, c2);
    RunSplit(sem, lm, p, c, n1, 1);
    RunStraight(sem, lm, p, body, c2);
    RunSplit(sem, lm, p, c, n1 + 1, |body|);
    n, c' := n1 + 1 + |body|, Config(|p|, RunBody(sem, body, c.d), c.log + body);
  }

  lemma LabelStep(sem: Sem, lm: LabelMap, p: seq<Stmt>, c: Config)
    requires c.pc < |p| && p[c.pc].Label?
    ensures Step(sem, lm, p, c) == Some(c.(pc := c.pc + 1))
  {
  }

  lemma LastBody(b: Blocks, lm: LabelMap, reset: seq<Stmt>, p: seq<Stmt>, lo: nat, hi: nat, js: seq<nat>, k: nat)
    requires Ending(b, lm, reset, js, k) && Laid(b, lm, p, lo, hi, js, k)
    ensures k in b && Straight(b[k]) && hi + 2 + |b[k]| == |p| && p[hi + 1].Label? && p[hi + 2..hi + 2 + |b[k]|] == b[k]
  {
    assert p[hi + 2..] == p[hi + 2..hi + 2 + |b[k]|];
  }

  /** From a boundary to the label of the last state. */
  lemma ToLastLabel(sem: Sem, b: Blocks, lm: LabelMap, reset: seq<Stmt>, p: seq<Stmt>, lo: nat, hi: nat, js: seq<nat>, k: nat, c: Config)
    returns (n: nat)
    requires Ending(b, lm, reset, js, k) && Laid(b, lm, p, lo, hi, js, k) && Point(lo, hi, k, c) && c.d.state == k
    ensures Run(sem, lm, p, c, n) == Some(c.(pc := hi + 1))
  {
    hide Run;
    hide Ending;
    hide Laid;
    n := 0;
    RunNone(sem, lm, p, c);
    if c.pc <= hi {
      LaidBound(b, lm, p, lo, hi, js, k);
      forall x | c.pc <= x < hi ensures p[x].Label? || p[x].Guard? {
        InFront(b, lm, p, lo, hi, js, k, x);
      }
      var i := WalkFront(sem, lm, p, hi, c);
      if i < hi {
        GuardIsOwn(b, lm, p, lo, hi, js, k, i);
      }
      LastHasNoGuard(b, lm, reset, js, k);
      LabelPlace(b, lm, reset, p, lo, hi, js, k, k);
      RunOnce(sem, lm, p, c.(pc := hi), c.(pc := hi + 1), 0);
      RunNone(sem, lm, p, c.(pc := hi + 1));
      RunSplit(sem, lm, p, c, hi - c.pc, 1);
      n := hi - c.pc + 1;
    }
  }

  lemma LastHasNoGuard(b: Blocks, lm: LabelMap, reset: seq<Stmt>, js: seq<nat>, k: nat)
    requires Ending(b, lm, reset, js, k)
    ensures k !in js && k in b && k in lm
  {
  }

  /** The last state has not been the current one before point m. */
  ghost predicate Avoids(sem: Sem, b: Blocks, d: Data, k: nat, m: nat) {
    forall j: nat :: j < m ==> Dispatch(sem, b, d, j).state != k
  }

  /** Until the last state becomes current, an ending thread passes through every point of the dispatch
      machine's run. */
  lemma {:induction false} EndingReaches(sem: Sem, b: Blocks, lm: LabelMap, reset: seq<Stmt>, js: seq<nat>, k: nat, d: Data, m: nat)
    returns (n: nat, c: Config)
    requires Ending(b, lm, reset, js, k) && Closed(sem, b) && RunBody(sem, reset, d).state in b
    requires Avoids(sem, b, RunBody(sem, reset, d), k, m)
    ensures n >= m && Run(sem, lm, EndingThread(b, lm, reset, js, k), Config(0, d, []), n) == Some(c)
    ensures Point(|reset|, |reset| + 2 * |js|, k, c)
    ensures c.d == Dispatch(sem, b, RunBody(sem, reset, d), m)
    ensures c.log == reset + DispatchLog(sem, b, RunBody(sem, reset, d), m)
    decreases m
  {
    hide Closed;
    hide Run;
    hide RunBody;
    hide EndingThread;
    hide Laid;
    var p, lo, hi, d0 := EndingThread(b, lm, reset, js, k), |reset|, |reset| + 2 * |js|, RunBody(sem, reset, d);
    EndingIsLaid(b, lm, reset, js, k);
    LaidBound(b, lm, p, lo, hi, js, k);
    if m == 0 {
      assert p[0..0 + lo] == p[..lo] == reset;
      RunStraight(sem, lm, p, reset, Config(0, d, []));
      n, c := lo, Config(lo, d0, [] + reset);
      assert [] + reset == reset + [];
    } else {
      hide Ending;
      var n1, c1 := EndingReaches(sem, b, lm, reset, js, k, d, m - 1);
      DispatchStays(sem, b, d0, m - 1);
      assert c1.d.state != k;
      var n2, c2 := GuardedState(sem, b, lm, reset, p, lo, hi, js, k, c1);
      RunSplit(sem, lm, p, Config(0, d, []), n1, n2);
      n, c := n1 + n2, c2;
      var body := b[c1.d.state];
      assert reset + DispatchLog(sem, b, d0, m - 1) + body == reset + (DispatchLog(sem, b, d0, m - 1) + body);
    }
  }

  /** The form that the bottom policy makes of the thread. */
  function Closing(b: Blocks, lm: LabelMap, reset: seq<Stmt>, js: seq<nat>, k: nat): seq<Stmt> {
    Form(b, lm, reset, Pairs(b, lm, js + [k]), [])
  }

  lemma ClosingIsThread(b: Blocks, lm: LabelMap, reset: seq<Stmt>, js: seq<nat>, k: nat)
    requires Ending(b, lm, reset, js, k)
    ensures Thread(b, lm, Closing(b, lm, reset, js, k), |reset|) && Closing(b, lm, reset, js, k)[..|reset|] == reset
    ensures BottomHit(EndingThread(b, lm, reset, js, k)) == Some(Closing(b, lm, reset, js, k))
  {
    hide Thread;
    hide FrontOk;
    hide Pairs;
    var front := Pairs(b, lm, js + [k]);
    BottomHitOn(b, lm, reset, js, k);
    PairsFronted(b, lm, js + [k]);
    forall i | 0 <= i < |js + [k]| ensures (js + [k])[i] in b && (js + [k])[i] in lm {
      if i < |js| {
        StateIn(b, lm, js, i);
      }
    }
    FrontOfPairs(b, lm, js + [k]);
    forall j | j in b ensures exists i :: 0 <= i < |front| && IsLabel(front[i], lm[j]) {
      PairsAt(b, lm, js + [k]);
      assert j in js + [k];
      var i :| 0 <= i < |js + [k]| && (js + [k])[i] == j;
      assert IsLabel(front[2 * i], lm[j]);
    }
    GoodIsThread(b, lm, reset, front, []);
  }

  lemma {:induction false} FrontOfPairs(b: Blocks, lm: LabelMap, js: seq<nat>)
    requires Injective(b, lm) && forall i :: 0 <= i < |js| ==> js[i] in b && js[i] in lm
    ensures FrontOk(b, lm, Pairs(b, lm, js))
    decreases |js|
  {
    if js != [] {
      var n := |js| - 1;
      FrontOfPairs(b, lm, js[..n]);
      FrontPush(b, lm, Pairs(b, lm, js[..n]), js[n]);
      assert js == js[..n] + [js[n]];
      PairsAppend(b, lm, js[..n], [js[n]]);
      PairsOne(b, lm, js[n]);
    }
  }

  /** As long as the last state is not reached, the thread before and after the policy pass through the
      same points, with the same data and the same statements executed. */
  lemma BottomPolicyAgrees(sem: Sem, b: Blocks, lm: LabelMap, reset: seq<Stmt>, js: seq<nat>, k: nat, d: Data, m: nat)
    returns (n: nat, c: Config, n': nat, c': Config)
    requires Ending(b, lm, reset, js, k) && Closed(sem, b) && RunBody(sem, reset, d).state in b
    requires Avoids(sem, b, RunBody(sem, reset, d), k, m)
    ensures n >= m && Run(sem, lm, EndingThread(b, lm, reset, js, k), Config(0, d, []), n) == Some(c)
    ensures BottomHit(EndingThread(b, lm, reset, js, k)).Some?
    ensures n' >= m && Run(sem, lm, BottomHit(EndingThread(b, lm, reset, js, k)).value, Config(0, d, []), n') == Some(c')
    ensures c'.d == c.d && c'.log == c.log
  {
    hide Run;
    hide Closed;
    hide RunBody;
    hide BottomHit;
    hide EndingThread;
    hide Closing;
    hide Thread;
    hide Avoids;
    hide Point;
    ClosingIsThread(b, lm, reset, js, k);
    n, c := EndingReaches(sem, b, lm, reset, js, k, d, m);
    n', c' := Implements(sem, b, lm, Closing(b, lm, reset, js, k), |reset|, d, m);
  }

  /** When the last state becomes current for the first time, at point m, the thread stops after its body;
      after the policy it goes on, from that point through all the following ones. */
  lemma BottomPolicyDiffers(sem: Sem, b: Blocks, lm: LabelMap, reset: seq<Stmt>, js: seq<nat>, k: nat, d: Data, m: nat, j: nat)
    returns (n: nat, c: Config, n': nat, c': Config)
    requires Ending(b, lm, reset, js, k) && Closed(sem, b) && RunBody(sem, reset, d).state in b
    requires Avoids(sem, b, RunBody(sem, reset, d), k, m) && Dispatch(sem, b, RunBody(sem, reset, d), m).state == k
    ensures var p, d0 := EndingThread(b, lm, reset, js, k), RunBody(sem, reset, d);
            && Run(sem, lm, p, Config(0, d, []), n) == Some(c) && Step(sem, lm, p, c) == None
            && c.d == Dispatch(sem, b, d0, m + 1) && c.log == reset + DispatchLog(sem, b, d0, m + 1)
    ensures var hit, d0 := BottomHit(EndingThread(b, lm, reset, js, k)), RunBody(sem, reset, d);
            && hit.Some? && n' >= m + 1 + j && Run(sem, lm, hit.value, Config(0, d, []), n') == Some(c')
            && c'.d == Dispatch(sem, b, d0, m + 1 + j) && c'.log == reset + DispatchLog(sem, b, d0, m + 1 + j)
  {
    hide Run;
    hide Closed;
    hide RunBody;
    hide BottomHit;
    hide EndingThread;
    hide Closing;
    hide Thread;
    hide Avoids;
    hide Laid;
    var p, d0 := EndingThread(b, lm, reset, js, k), RunBody(sem, reset, d);
    EndingIsLaid(b, lm, reset, js, k);
    var n1, c1 := EndingReaches(sem, b, lm, reset, js, k, d, m);
    var n2, c2 := LastState(sem, b, lm, reset, p, |reset|, |reset| + 2 * |js|, js, k, c1);
    RunSplit(sem, lm, p, Config(0, d, []), n1, n2);
    n, c := n1 + n2, c2;
    assert reset + DispatchLog(sem, b, d0, m) + b[k] == reset + (DispatchLog(sem, b, d0, m) + b[k]);
    ClosingIsThread(b, lm, reset, js, k);
    n', c' := Implements(sem, b, lm, Closing(b, lm, reset, js, k), |reset|, d, m + 1 + j);
  }

  ghost predicate RunsForEver(sem: Sem, lm: LabelMap, p: seq<Stmt>, d: Data) {
    forall n: nat :: Run(sem, lm, p, Config(0, d, []), n).Some?
  }

  /** The first point at which the last state is current. */
  lemma {:induction false} FirstPoint(sem: Sem, b: Blocks, d: Data, k: nat, m: nat) returns (i: nat)
    requires Dispatch(sem, b, d, m).state == k
    ensures i <= m && Avoids(sem, b, d, k, i) && Dispatch(sem, b, d, i).state == k
    decreases m
  {
    if exists j: nat :: j < m && Dispatch(sem, b, d, j).state == k {
      var j: nat :| j < m && Dispatch(sem, b, d, j).state == k;
      i := FirstPoint(sem, b, d, k, j);
    } else {
      i := m;
    }
  }

  /** The thread runs for ever, which after the policy it always does, if and only if it never gets to its
      last state. */
  lemma BottomPolicyExactly(sem: Sem, b: Blocks, lm: LabelMap, reset: seq<Stmt>, js: seq<nat>, k: nat, d: Data)
    requires Ending(b, lm, reset, js, k) && Closed(sem, b) && RunBody(sem, reset, d).state in b
    ensures BottomHit(EndingThread(b, lm, reset, js, k)).Some?
    ensures RunsForEver(sem, lm, BottomHit(EndingThread(b, lm, reset, js, k)).value, d)
    ensures RunsForEver(sem, lm, EndingThread(b, lm, reset, js, k), d) <==>
            forall m: nat :: Dispatch(sem, b, RunBody(sem, reset, d), m).state != k
  {
    hide Run;
    hide Closed;
    hide RunBody;
    hide BottomHit;
    hide EndingThread;
    hide Closing;
    hide Thread;
    hide Dispatch;
    hide Step;
    hide Ending;
    var p, c0, d0 := EndingThread(b, lm, reset, js, k), Config(0, d, []), RunBody(sem, reset, d);
    ClosingIsThread(b, lm, reset, js, k);
    var q := Closing(b, lm, reset, js, k);
    EndingBlocks(b, lm, reset, js, k);
    forall n: nat ensures Run(sem, lm, q, c0, n).Some? {
      ImplementsOnly(sem, b, lm, q, |reset|, d, n);
    }
    if m: nat :| Dispatch(sem, b, d0, m).state == k {
      var i := FirstPoint(sem, b, d0, k, m);
      var n, c, n', c' := BottomPolicyDiffers(sem, b, lm, reset, js, k, d, i, 0);
      RunSplit(sem, lm, p, c0, n, 1);
      StopsNext(sem, lm, p, c);
      assert Run(sem, lm, p, c0, n + 1).None?;
    } else {
      forall n: nat ensures Run(sem, lm, p, c0, n).Some? {
        var n1, c1 := EndingReaches(sem, b, lm, reset, js, k, d, n);
        RunSplit(sem, lm, p, c0, n, n1 - n);
      }
    }
  }

  lemma StopsNext(sem: Sem, lm: LabelMap, p: seq<Stmt>, c: Config)
    requires Step(sem, lm, p, c) == None
    ensures Run(sem, lm, p, c, 1) == None
  {
    hide Step;
  }

  lemma EndingBlocks(b: Blocks, lm: LabelMap, reset: seq<Stmt>, js: seq<nat>, k: nat)
    requires Ending(b, lm, reset, js, k)
    ensures WfBlocks(b)
  {
  }

  /** wait; state = 0; 0: state = 1; 1: */
  lemma ThreadThatEnds(sem: Sem, d: Data)
    ensures var b: Blocks := map[0 := [Act(SetState(Const(1)))], 1 := []];
            var lm: LabelMap := map[0 := 0, 1 := 1];
            var reset := [Wait(0), Act(SetState(Const(0)))];
            && Ending(b, lm, reset, [0], 1) && Closed(sem, b)
            && RunBody(sem, reset, d).state == 0 && Dispatch(sem, b, RunBody(sem, reset, d), 1).state == 1
  {
    var b: Blocks := map[0 := [Act(SetState(Const(1)))], 1 := []];
    var reset := [Wait(0), Act(SetState(Const(0)))];
    assert StateOk(b, map[0 := 0, 1 := 1], 0);
    forall e: Data ensures RunBody(sem, b[0], e).state == 1 && RunBody(sem, b[1], e).state == e.state {
      assert b[0][..0] == [];
    }
    assert reset[..1] == [Wait(0)];
    var d0 := RunBody(sem, reset, d);
    assert Dispatch(sem, b, d0, 0) == d0;
  }
}
