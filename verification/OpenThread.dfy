/** Threads with more runs of states than the rounds of the goto policies can deal with: the passes leave
    them with gotos between states, and the top policy still moves their reset code under a test of the
    delta count. */
module OpenThread {
  import opened Prelude
  import opened StateMachine
  import opened FallOut
  import opened PolicyRounds
  import opened LabelPolicy
  import opened SuperLoop
  import opened BottomPolicy
  import opened FallThrough

  // ---------- the closing steps on such a thread ----------

  /** The last state in raw form, behind a goto. */
  lemma {:induction false} LastRaw(b: Blocks, lm: LabelMap, ks: seq<nat>) returns (head: seq<Stmt>)
    requires ks != []
    ensures var k := ks[|ks| - 1];
            [Goto] + Flat(b, lm, ks) == head + [Goto, LabelOf(lm, k)] + Body(b, k) + [Goto]
    decreases |ks|
  {
    hide LabelOf;
    hide Body;
    var k, first := ks[|ks| - 1], [Goto, LabelOf(lm, ks[0])] + Body(b, ks[0]);
    FlatFirst(b, lm, ks);
    if |ks| == 1 {
      head := [];
      assert ks[1..] == [];
      assert Flat(b, lm, []) == [];
      assert first + ([Goto] + []) == [] + [Goto, LabelOf(lm, k)] + Body(b, k) + [Goto];
    } else {
      hide Flat;
      var head1 := LastRaw(b, lm, ks[1..]);
      head := first + head1;
      Regroup4(first, head1, [Goto, LabelOf(lm, k)], Body(b, k), [Goto]);
    }
  }

  lemma FlatFirst(b: Blocks, lm: LabelMap, ks: seq<nat>)
    requires ks != []
    ensures [Goto] + Flat(b, lm, ks) == [Goto, LabelOf(lm, ks[0])] + Body(b, ks[0]) + ([Goto] + Flat(b, lm, ks[1..]))
  {
    hide LabelOf;
    hide Body;
    GotoFirst(LabelOf(lm, ks[0]), Body(b, ks[0]), Flat(b, lm, ks[1..]));
  }

  lemma GotoFirst(lab: Stmt, body: seq<Stmt>, rest: seq<Stmt>)
    ensures [Goto] + ([lab] + body + [Goto] + rest) == [Goto, lab] + body + ([Goto] + rest)
  {
  }

  lemma Regroup4(a: seq<Stmt>, b: seq<Stmt>, c: seq<Stmt>, d: seq<Stmt>, e: seq<Stmt>)
    ensures a + (b + c + d + e) == a + b + c + d + e
  {
  }

  /** The label policy moves labels above guards only. */
  lemma NoLabelHitBehindGoto(p: seq<Stmt>, head: seq<Stmt>, lab: Stmt, body: seq<Stmt>)
    requires p == head + [Goto, lab] + body + [Goto] && lab.Label? && Straight(body)
    ensures LabelHit(p) == None
  {
    var e := |head| + 1;
    assert p[e] == lab && p[e - 1] == Goto;
    assert forall i :: 0 <= i < |body| ==> p[e + 1 + i] == body[i];
    assert p[|p| - 1] == Goto;
    assert forall i :: e < i < |p| ==> !p[i].Label?;
    assert LabelEnd(p) == e + 1;
    assert LabelStart(p, e + 1) == e;
  }

  predicate NoDouble(p: seq<Stmt>) {
    forall i :: 0 <= i && i + 1 < |p| ==> !(p[i].Label? && p[i + 1].Label?)
  }

  lemma NoDoubleAppend(p: seq<Stmt>, q: seq<Stmt>)
    requires NoDouble(p) && NoDouble(q) && (p == [] || q == [] || !p[|p| - 1].Label? || !q[0].Label?)
    ensures NoDouble(p + q)
  {
    forall i | 0 <= i && i + 1 < |p + q| ensures !((p + q)[i].Label? && (p + q)[i + 1].Label?) {
      if i >= |p| {
        assert !(q[i - |p|].Label? && q[i - |p| + 1].Label?);
      }
    }
  }

  lemma {:induction false} PairsNoDouble(b: Blocks, lm: LabelMap, js: seq<nat>)
    ensures NoDouble(Pairs(b, lm, js)) && (js != [] ==> Pairs(b, lm, js) != [] && Pairs(b, lm, js)[|Pairs(b, lm, js)| - 1].Guard?)
    decreases |js|
  {
    hide GuardOf;
    if js != [] {
      PairsNoDouble(b, lm, js[1..]);
      var pair := Pair(b, lm, js[0]);
      GuardNamed(b, js[0]);
      assert Pairs(b, lm, js) == pair + Pairs(b, lm, js[1..]);
      NoDoubleAppend(pair, Pairs(b, lm, js[1..]));
    }
  }

  lemma {:induction false} FlatNoDouble(b: Blocks, lm: LabelMap, ks: seq<nat>)
    requires WfBlocks(b)
    ensures NoDouble([Goto] + Flat(b, lm, ks))
    decreases |ks|
  {
    if ks != [] {
      FlatNoDouble(b, lm, ks[1..]);
      FlatFirst(b, lm, ks);
      hide Flat;
      var first := [Goto, LabelOf(lm, ks[0])] + Body(b, ks[0]);
      assert Straight(Body(b, ks[0]));
      OneLabel(LabelOf(lm, ks[0]), Body(b, ks[0]));
      NoDoubleAppend(first, [Goto] + Flat(b, lm, ks[1..]));
    }
  }

  lemma OneLabel(lab: Stmt, body: seq<Stmt>)
    requires Straight(body)
    ensures NoDouble([Goto, lab] + body)
  {
    var first := [Goto, lab] + body;
    assert forall i :: 2 <= i < |first| ==> first[i] == body[i - 2] && !first[i].Label?;
  }

  lemma FormNoDouble(b: Blocks, lm: LabelMap, reset: seq<Stmt>, js: seq<nat>, ks: seq<nat>)
    requires WfBlocks(b) && Straight(reset)
    ensures NoDouble(Form(b, lm, reset, Pairs(b, lm, js), ks))
  {
    hide Pairs;
    hide Flat;
    hide WfBlocks;
    PairsNoDouble(b, lm, js);
    FlatNoDouble(b, lm, ks);
    NoDoubleAppend(reset, Pairs(b, lm, js));
    NoDoubleAppend(reset + Pairs(b, lm, js), [Goto] + Flat(b, lm, ks));
    assert Form(b, lm, reset, Pairs(b, lm, js), ks) == reset + Pairs(b, lm, js) + ([Goto] + Flat(b, lm, ks));
  }

  lemma NoMergeHit(p: seq<Stmt>, lm: LabelMap)
    requires NoDouble(p)
    ensures MergeHit(p, lm) == None
  {
    var i := FirstDouble(p);
  }

  /** The bottom, label and duplicate-label steps find nothing to do while a state is in raw form. */
  lemma OpenStepsIdle(b: Blocks, lm: LabelMap, reset: seq<Stmt>, js: seq<nat>, ks: seq<nat>)
    requires WfBlocks(b) && WfForm(b, lm, reset, Pairs(b, lm, js), ks) && ks != []
    ensures var p := Form(b, lm, reset, Pairs(b, lm, js), ks);
            BottomHit(p) == None && LabelHit(p) == None && MergeHit(p, lm) == None
  {
    hide Pairs;
    hide Flat;
    hide LabelHit;
    hide MergeHit;
    hide NoDouble;
    hide StateOk;
    var p := Form(b, lm, reset, Pairs(b, lm, js), ks);
    var k := ks[|ks| - 1];
    var head := LastRaw(b, lm, ks);
    assert p == reset + Pairs(b, lm, js) + ([Goto] + Flat(b, lm, ks));
    Regroup4(reset + Pairs(b, lm, js), head, [Goto, LabelOf(lm, k)], Body(b, k), [Goto]);
    NoLabelHitBehindGoto(p, reset + Pairs(b, lm, js) + head, LabelOf(lm, k), Body(b, k));
    FormNoDouble(b, lm, reset, js, ks);
    NoMergeHit(p, lm);
    NoBottomOnOpen(b, lm, reset, Pairs(b, lm, js), ks);
  }

  lemma NoBottomOnOpen(b: Blocks, lm: LabelMap, reset: seq<Stmt>, front: seq<Stmt>, ks: seq<nat>)
    requires WfForm(b, lm, reset, front, ks) && ks != []
    ensures BottomHit(Form(b, lm, reset, front, ks)) == None
  {
    hide Flat;
    hide StateOk;
    FormSplit(b, lm, reset, front, ks);
    var p, i := Form(b, lm, reset, front, ks), |reset + front|;
    var j := i + 2 + |Body(b, ks[0])|;
    Pieces(p, reset + front, LabelOf(lm, ks[0]), Body(b, ks[0]), Flat(b, lm, ks[1..]));
    assert p[j] == Goto;
    assert CombEnd(p, i + 2) <= j;
  }

  // ---------- the top policy ----------

  /** L: if( delta_count==0 ){ reset; goto } post */
  function UnderTest(reset: seq<Stmt>, lab: Stmt, post: seq<Stmt>): seq<Stmt> {
    [lab, Once(reset)] + post
  }

  /** Where a statement behind the reset code has gone. */
  function Place(lo: nat, pc: nat): nat {
    if pc <= lo then 0 else pc - lo + 1
  }

  lemma FindUnderTest(reset: seq<Stmt>, lab: Stmt, post: seq<Stmt>, id: nat)
    requires Straight(reset) && lab.Label?
    ensures var p, q := reset + [lab] + post, FindLabel(reset + [lab] + post, id);
            q < |p| ==> |reset| <= q && FindLabel(UnderTest(reset, lab, post), id) == Place(|reset|, q)
  {
    var p, p' := reset + [lab] + post, UnderTest(reset, lab, post);
    var q := FindLabel(p, id);
    if q < |p| {
      assert forall i :: 0 <= i < |reset| ==> p[i] == reset[i];
      assert p[|reset|] == lab;
      assert forall i :: |reset| < i < |p| ==> p[i] == p'[i - |reset| + 1];
      forall i | 0 <= i < Place(|reset|, q) ensures !IsLabel(p'[i], id) {
        if i == 0 {
          assert p'[0] == p[|reset|];
        } else if i == 1 {
          assert p'[1] == Once(reset);
        } else {
          assert p'[i] == p[i + |reset| - 1];
        }
      }
      FindLabelIs(p', id, Place(|reset|, q));
    }
  }

  /** A state of the thread after its reset code, in the thread under test. */
  function Moved(lo: nat, c: Config): Config {
    c.(pc := Place(lo, c.pc))
  }

  lemma JumpUnderTest(lm: LabelMap, reset: seq<Stmt>, lab: Stmt, post: seq<Stmt>, c: Config, i: nat)
    requires Straight(reset) && lab.Label? && Jump(lm, reset + [lab] + post, c).Some?
    ensures var c1 := Jump(lm, reset + [lab] + post, c).value;
            |reset| <= c1.pc && Jump(lm, UnderTest(reset, lab, post), c.(pc := i)) == Some(Moved(|reset|, c1))
  {
    hide UnderTest;
    FindUnderTest(reset, lab, post, lm[c.d.state]);
    UnderTestSize(reset, lab, post);
  }

  lemma UnderTestSize(reset: seq<Stmt>, lab: Stmt, post: seq<Stmt>)
    ensures |UnderTest(reset, lab, post)| == |post| + 2
  {
  }

  /** One step behind the reset code is one step, or two past the test, in the thread under test. */
  lemma StepUnderTest(sem: Sem, lm: LabelMap, reset: seq<Stmt>, lab: Stmt, post: seq<Stmt>, c: Config) returns (j: nat)
    requires Straight(reset) && lab.Label? && NoOnce(post) && |reset| <= c.pc && c.d.deltas > 0
    requires Step(sem, lm, reset + [lab] + post, c).Some?
    ensures var c1 := Step(sem, lm, reset + [lab] + post, c).value;
            && |reset| <= c1.pc && c1.d.deltas > 0 && j > 0
            && Run(sem, lm, UnderTest(reset, lab, post), Moved(|reset|, c), j) == Some(Moved(|reset|, c1))
  {
    var p, p', lo := reset + [lab] + post, UnderTest(reset, lab, post), |reset|;
    var c', c1 := Moved(lo, c), Step(sem, lm, p, c).value;
    if c.pc == lo {
      assert p[c.pc] == lab && p'[0] == lab && p'[1] == Once(reset);
      var mid := c.(pc := 1);
      RunOnce(sem, lm, p', c', mid, 1);
      RunOnce(sem, lm, p', mid, c.(pc := 2), 0);
      RunNone(sem, lm, p', c.(pc := 2));
      j := 2;
    } else {
      assert p[c.pc] == post[c.pc - lo - 1] && p'[c'.pc] == post[c.pc - lo - 1];
      SameStep(sem, lm, reset, lab, post, c);
      RunOnce(sem, lm, p', c', Moved(lo, c1), 0);
      RunNone(sem, lm, p', Moved(lo, c1));
      j := 1;
    }
  }

  predicate NoOnce(s: seq<Stmt>) {
    forall i :: 0 <= i < |s| ==> !s[i].Once?
  }

  lemma SameStep(sem: Sem, lm: LabelMap, reset: seq<Stmt>, lab: Stmt, post: seq<Stmt>, c: Config)
    requires Straight(reset) && lab.Label? && NoOnce(post) && |reset| < c.pc < |reset + [lab] + post| && c.d.deltas > 0
    requires Step(sem, lm, reset + [lab] + post, c).Some?
    ensures var c1 := Step(sem, lm, reset + [lab] + post, c).value;
            |reset| <= c1.pc && c1.d.deltas > 0 && Step(sem, lm, UnderTest(reset, lab, post), Moved(|reset|, c)) == Some(Moved(|reset|, c1))
  {
    hide RunBody;
    hide FindLabel;
    var p, p', lo := reset + [lab] + post, UnderTest(reset, lab, post), |reset|;
    var s, c' := p[c.pc], Moved(lo, c);
    assert p'[c'.pc] == s == post[c.pc - lo - 1];
    match s
    case Goto => JumpUnderTest(lm, reset, lab, post, c, c'.pc);
    case Guard(k, body) =>
      if c.d.state == k {
        DeltasGrow(sem, body, c.d);
        if body != [] && body[|body| - 1].Goto? {
          var run := body[..|body| - 1];
          DeltasGrow(sem, run, c.d);
          JumpUnderTest(lm, reset, lab, post, Config(c.pc, RunBody(sem, run, c.d), c.log + run), c'.pc);
        }
      }
    case _ =>
  }

  lemma {:induction false} RunUnderTest(sem: Sem, lm: LabelMap, reset: seq<Stmt>, lab: Stmt, post: seq<Stmt>, c: Config, n: nat)
    returns (j: nat)
    requires Straight(reset) && lab.Label? && NoOnce(post) && |reset| <= c.pc && c.d.deltas > 0
    requires Run(sem, lm, reset + [lab] + post, c, n).Some?
    ensures j >= n && Run(sem, lm, UnderTest(reset, lab, post), Moved(|reset|, c), j) ==
                      Some(Moved(|reset|, Run(sem, lm, reset + [lab] + post, c, n).value))
    decreases n
  {
    hide Step;
    hide UnderTest;
    hide Moved;
    j := 0;
    if n > 0 {
      var p := reset + [lab] + post;
      var c1 := Step(sem, lm, p, c).value;
      var j1 := StepUnderTest(sem, lm, reset, lab, post, c);
      var j2 := RunUnderTest(sem, lm, reset, lab, post, c1, n - 1);
      RunSplit(sem, lm, UnderTest(reset, lab, post), Moved(|reset|, c), j1, j2);
      j := j1 + j2;
    }
  }

  /** From the start: the label, the test, the reset code and the jump. */
  lemma StartUnderTest(sem: Sem, b: Blocks, lm: LabelMap, reset: seq<Stmt>, lab: Stmt, post: seq<Stmt>, d: Data) returns (c: Config)
    requires WfBlocks(b) && lab.Label? && d.deltas == 0
    requires Thread(b, lm, reset + [lab] + post, |reset|) && RunBody(sem, reset, d).state in b
    ensures c.d == RunBody(sem, reset, d) && c.log == reset && |reset| <= c.pc && Ready(b, lm, reset + [lab] + post, c)
    ensures Run(sem, lm, UnderTest(reset, lab, post), Config(0, d, []), 2) == Some(Moved(|reset|, c))
  {
    hide Ok;
    hide Scan;
    hide FindLabel;
    hide RunBody;
    hide Ready;
    var p, p', d0 := reset + [lab] + post, UnderTest(reset, lab, post), RunBody(sem, reset, d);
    assert p[..|reset|] == reset;
    var c0 := Config(|reset|, d0, reset);
    JumpReady(b, lm, p, |reset|, c0);
    c := Jump(lm, p, c0).value;
    JumpUnderTest(lm, reset, lab, post, c0, 1);
    assert p'[0] == lab && p'[1] == Once(reset);
    assert [] + reset == reset;
    var mid := Config(1, d, []);
    RunOnce(sem, lm, p', Config(0, d, []), mid, 1);
    RunOnce(sem, lm, p', mid, Moved(|reset|, c), 0);
    RunNone(sem, lm, p', Moved(|reset|, c));
  }

  /** A thread whose reset code has moved under the test implements the same dispatch machine. */
  lemma UnderTestImplements(sem: Sem, b: Blocks, lm: LabelMap, reset: seq<Stmt>, lab: Stmt, post: seq<Stmt>, d: Data, m: nat)
    returns (n: nat, c: Config)
    requires WfBlocks(b) && Closed(sem, b) && lab.Label? && NoOnce(post) && Yields(reset) && d.deltas == 0
    requires Thread(b, lm, reset + [lab] + post, |reset|) && RunBody(sem, reset, d).state in b
    ensures n >= m && Run(sem, lm, UnderTest(reset, lab, post), Config(0, d, []), n) == Some(c)
    ensures c.d == Dispatch(sem, b, RunBody(sem, reset, d), m) && c.log == reset + DispatchLog(sem, b, RunBody(sem, reset, d), m)
  {
    hide Thread;
    hide Ready;
    hide Run;
    hide RunBody;
    hide Closed;
    hide UnderTest;
    var p := reset + [lab] + post;
    var c0 := StartUnderTest(sem, b, lm, reset, lab, post, d);
    var n1, c1 := ImplementsFrom(sem, b, lm, p, |reset|, c0, m);
    DeltasGrow(sem, reset, d);
    var j := RunUnderTest(sem, lm, reset, lab, post, c0, n1);
    RunSplit(sem, lm, UnderTest(reset, lab, post), Config(0, d, []), 2, j);
    n, c := 2 + j, Moved(|reset|, c1);
  }

  // ---------- the whole sequence, for every thread ----------

  /** Every round deals with at least one state. */
  lemma RoundsProgress(b: Blocks, ks: seq<nat>)
    requires ks != []
    ensures RoundLength(b, ks) > 0
  {
    assert ks[0..] == ks;
  }

  lemma {:induction false} RemainingShrinks(b: Blocks, ks: seq<nat>, n: nat)
    requires ks != [] && n > 0
    ensures |Remaining(b, ks, n)| < |ks|
  {
    hide RoundLength;
    hide Remaining;
    RoundsProgress(b, ks);
    RoundsStep(b, ks, n, []);
    var ks1 := ks[RoundLength(b, ks)..];
    var r := Remaining(b, ks1, n - 1);
    assert |r| <= |ks1|;
  }

  /** The thread that the passes leave when the rounds do not suffice. */
  lemma OpenResult(b: Blocks, lm: LabelMap, reset: seq<Stmt>, ks: seq<nat>) returns (lab: Stmt, post: seq<Stmt>)
    requires Initial(b, lm, reset, ks) && !Splits(b, ks, ROUNDS)
    ensures lab.Label? && NoOnce(post) && Thread(b, lm, reset + [lab] + post, |reset|)
    ensures FallThroughResult(b, lm, reset, ks) == Gotos(UnderTest(reset, lab, post), lm)
  {
    hide Splits;
    hide Thread;
    hide RunSteps;
    hide RunSequence;
    hide RoundSteps;
    hide CloseSteps;
    hide Form;
    hide Rounds;
    hide Remaining;
    hide Pairs;
    hide Flat;
    hide Good;
    hide LabelHit;
    hide MergeHit;
    hide BottomHit;
    hide TopPolicy;
    hide ToSuperLoop;
    hide Injective;
    hide StateOk;
    hide NoOnce;
    var r := Remaining(b, ks, ROUNDS);
    var h := |ks| - |r|;
    var js := ks[..h];
    GreedyIsBest(b, ks, ROUNDS);
    RemainingShrinks(b, ks, ROUNDS);
    var p0, p := InitialThread(b, lm, reset, ks), Form(b, lm, reset, Pairs(b, lm, js), r);
    SequenceSplit(RoundSteps(ROUNDS), CloseSteps(), Gotos(p0, lm));
    SequenceOfRounds(ROUNDS, p0, lm);
    RunRounds(ROUNDS, p0);
    RoundsForm(b, lm, reset, [], ks, ROUNDS);
    assert [] + Pairs(b, lm, js) == Pairs(b, lm, js);
    HitsKeepGood(b, lm, reset, ks, h);
    GoodIsThread(b, lm, reset, Pairs(b, lm, js), r);
    GoodForm(b, lm, reset, Pairs(b, lm, js), r);
    lab, post := OpenShape(b, lm, reset, js, r);
    OpenStepsIdle(b, lm, reset, js, r);
    TopPolicyOn(reset, lab, post);
    NotALoop(b, reset, lab, post);
    ClosingSteps(Gotos(p, lm));
    IdlePasses(p, lm);
  }

  lemma GoodForm(b: Blocks, lm: LabelMap, reset: seq<Stmt>, front: seq<Stmt>, ks: seq<nat>)
    requires Good(b, lm, reset, front, ks)
    ensures WfBlocks(b) && WfForm(b, lm, reset, front, ks)
  {
  }

  lemma IdlePasses(p: seq<Stmt>, lm: LabelMap)
    requires LabelHit(p) == None && MergeHit(p, lm) == None
    ensures LabelPass(p, |p|) == p && MergePass(p, lm, |p|) == (p, lm)
  {
    hide LabelHit;
    hide MergeHit;
  }

  /** Such a thread has a label behind its reset code, and another behind a goto. */
  lemma OpenShape(b: Blocks, lm: LabelMap, reset: seq<Stmt>, js: seq<nat>, ks: seq<nat>) returns (lab: Stmt, post: seq<Stmt>)
    requires WfBlocks(b) && js != [] && ks != []
    ensures Form(b, lm, reset, Pairs(b, lm, js), ks) == reset + [lab] + post && lab.Label? && NoOnce(post)
    ensures HasGoto(reset + [lab] + post) && exists i :: 0 <= i < |post| - 1 && post[i].Goto?
  {
    hide WfBlocks;
    hide Flat;
    hide GuardOf;
    hide HasGoto;
    hide NoOnce;
    hide LabelOf;
    var front, tail := Pairs(b, lm, js[1..]), [Goto] + Flat(b, lm, ks);
    lab := LabelOf(lm, js[0]);
    post := [GuardOf(b, js[0])] + front + tail;
    LabelOfIsLabel(lm, js[0]);
    FlatSize(b, lm, ks);
    FrontNoOnce(b, lm, js, ks);
    assert Pairs(b, lm, js) == [lab, GuardOf(b, js[0])] + front;
    OpenPieces(reset, lab, GuardOf(b, js[0]), front, Flat(b, lm, ks));
  }

  lemma LabelOfIsLabel(lm: LabelMap, k: nat)
    ensures LabelOf(lm, k).Label?
  {
  }

  lemma OpenPieces(reset: seq<Stmt>, lab: Stmt, g: Stmt, front: seq<Stmt>, rest: seq<Stmt>)
    requires rest != []
    ensures var post := [g] + front + ([Goto] + rest);
            && reset + ([lab, g] + front) + [Goto] + rest == reset + [lab] + post
            && [g] + (front + ([Goto] + rest)) == post
            && HasGoto(reset + [lab] + post) && exists i :: 0 <= i < |post| - 1 && post[i].Goto?
  {
    var post := [g] + front + ([Goto] + rest);
    var i := 1 + |front|;
    assert post[i] == Goto;
    assert (reset + [lab] + post)[|reset| + 1 + i] == post[i];
  }

  lemma FlatSize(b: Blocks, lm: LabelMap, ks: seq<nat>)
    requires ks != []
    ensures |Flat(b, lm, ks)| > 1
  {
  }

  lemma FrontNoOnce(b: Blocks, lm: LabelMap, js: seq<nat>, ks: seq<nat>)
    requires WfBlocks(b) && js != []
    ensures NoOnce([GuardOf(b, js[0])] + (Pairs(b, lm, js[1..]) + ([Goto] + Flat(b, lm, ks))))
  {
    hide WfBlocks;
    hide Flat;
    hide Pairs;
    PairsFronted(b, lm, js[1..]);
    FlatNoOnce(b, lm, ks);
  }

  lemma {:induction false} FlatNoOnce(b: Blocks, lm: LabelMap, ks: seq<nat>)
    requires WfBlocks(b)
    ensures NoOnce(Flat(b, lm, ks))
    decreases |ks|
  {
    if ks != [] {
      FlatNoOnce(b, lm, ks[1..]);
    }
  }

  /** A goto in the middle keeps a thread from being a loop. */
  lemma NotALoop(b: Blocks, reset: seq<Stmt>, lab: Stmt, post: seq<Stmt>)
    requires exists i :: 0 <= i < |post| - 1 && post[i].Goto?
    ensures ToSuperLoop(UnderTest(reset, lab, post)) == None
  {
    var i :| 0 <= i < |post| - 1 && post[i].Goto?;
    var p := UnderTest(reset, lab, post);
    assert p[i + 2] == post[i];
  }

  /** Whatever the thread, what the passes leave executes what the thread executes: after any number of
      iterations, if they leave a superloop, and through every point of its run, if they leave gotos. */
  lemma PassesPreserveThread(sem: Sem, b: Blocks, lm: LabelMap, reset: seq<Stmt>, ks: seq<nat>, d: Data, n: nat)
    returns (k: nat, c: Config, j: nat, c': Config)
    requires Initial(b, lm, reset, ks) && Closed(sem, b) && d.deltas == 0 && RunBody(sem, reset, d).state in b
    ensures k >= n && Run(sem, lm, InitialThread(b, lm, reset, ks), Config(0, d, []), k) == Some(c)
    ensures match FallThroughResult(b, lm, reset, ks)
            case Looping(loop) => LoopRun(sem, loop, d, n + 1) == (c.d, c.log)
            case Gotos(p, lm') => j >= n && Run(sem, lm', p, Config(0, d, []), j) == Some(c') && c'.d == c.d && c'.log == c.log
  {
    hide Closed;
    hide Run;
    hide LoopRun;
    hide FallThroughResult;
    hide Splits;
    hide RunBody;
    hide Thread;
    hide UnderTest;
    j, c' := 0, Config(0, d, []);
    if Splits(b, ks, ROUNDS) {
      k, c := LoopPreservesThread(sem, b, lm, reset, ks, d, n);
    } else {
      var lab, post := OpenResult(b, lm, reset, ks);
      j, c' := UnderTestImplements(sem, b, lm, reset, lab, post, d, n);
      assert ks[..0] == [] && ks[0..] == ks;
      k, c := FormImplements(sem, b, lm, reset, ks, 0, d, n);
    }
  }

  /** The passes end in a superloop if and only if five rounds suffice. */
  lemma LoopExactlyWhenSplit(b: Blocks, lm: LabelMap, reset: seq<Stmt>, ks: seq<nat>)
    requires Initial(b, lm, reset, ks)
    ensures FallThroughLoop(b, lm, reset, ks).Some? <==> Splits(b, ks, ROUNDS)
  {
    hide Splits;
    hide FallThroughResult;
    hide Thread;
    if Splits(b, ks, ROUNDS) {
      LoopIsReached(b, lm, reset, ks);
    } else {
      var lab, post := OpenResult(b, lm, reset, ks);
    }
  }
}
