/** The fall-through passes as a whole. */
module FallThrough {
  import opened Prelude
  import opened StateMachine
  import opened FallOut
  import opened PolicyRounds
  import opened LabelPolicy
  import opened SuperLoop
  import opened BottomPolicy

  /** A thread as the passes receive it: reset code with one wait, a goto, and every state once, in raw
      form, with a label of its own. */
  ghost predicate Initial(b: Blocks, lm: LabelMap, reset: seq<Stmt>, ks: seq<nat>) {
    && WfBlocks(b) && Injective(b, lm) && Yields(reset) && StatesOk(b, lm, ks)
    && ks != [] && (forall k :: k in b ==> k in lm && k in ks)
  }

  function InitialThread(b: Blocks, lm: LabelMap, reset: seq<Stmt>, ks: seq<nat>): seq<Stmt> {
    Form(b, lm, reset, [], ks)
  }

  /** After any number of hits of the goto policies. */
  lemma {:induction false} HitsKeepGood(b: Blocks, lm: LabelMap, reset: seq<Stmt>, ks: seq<nat>, h: nat)
    requires Initial(b, lm, reset, ks) && h <= |ks|
    ensures Good(b, lm, reset, Pairs(b, lm, ks[..h]), ks[h..])
    decreases h
  {
    hide Good;
    hide Initial;
    hide Pairs;
    Slices(ks, h);
    if h == 0 {
      StartIsGood(b, lm, reset, ks);
      PairsEmpty(b, lm);
    } else {
      HitsKeepGood(b, lm, reset, ks, h - 1);
      HitKeepsGood(b, lm, reset, Pairs(b, lm, ks[..h - 1]), ks[h - 1..]);
      PairsSnoc(b, lm, ks[..h - 1], ks[h - 1]);
    }
  }

  lemma Slices(ks: seq<nat>, h: nat)
    requires h <= |ks|
    ensures ks[..0] == [] && ks[0..] == ks
    ensures h > 0 ==> ks[..h] == ks[..h - 1] + [ks[h - 1]] && ks[h - 1..] != [] && ks[h - 1..][0] == ks[h - 1] && ks[h - 1..][1..] == ks[h..]
  {
  }

  lemma StartIsGood(b: Blocks, lm: LabelMap, reset: seq<Stmt>, ks: seq<nat>)
    requires Initial(b, lm, reset, ks)
    ensures Good(b, lm, reset, [], ks)
  {
    hide WfBlocks;
    hide Injective;
    hide StateOk;
    hide FrontOk;
    EmptyFrontOk(b, lm);
  }

  lemma EmptyFrontOk(b: Blocks, lm: LabelMap)
    ensures FrontOk(b, lm, [])
  {
  }

  /** The goto policies may stop after any number of hits: the thread they leave executes what the
      original executes. */
  lemma GotoPoliciesPreserve(sem: Sem, b: Blocks, lm: LabelMap, reset: seq<Stmt>, ks: seq<nat>, h: nat, d: Data, m: nat)
    returns (n: nat, c: Config, n': nat, c': Config)
    requires Initial(b, lm, reset, ks) && h <= |ks| && Closed(sem, b) && RunBody(sem, reset, d).state in b
    ensures Run(sem, lm, InitialThread(b, lm, reset, ks), Config(0, d, []), n) == Some(c) && n >= m
    ensures Run(sem, lm, Form(b, lm, reset, Pairs(b, lm, ks[..h]), ks[h..]), Config(0, d, []), n') == Some(c') && n' >= m
    ensures c'.d == c.d && c'.log == c.log
  {
    hide Closed;
    hide Run;
    hide Good;
    hide Thread;
    hide Initial;
    n, c := FormImplements(sem, b, lm, reset, ks, 0, d, m);
    assert ks[..0] == [] && ks[0..] == ks;
    n', c' := FormImplements(sem, b, lm, reset, ks, h, d, m);
  }

  lemma FormImplements(sem: Sem, b: Blocks, lm: LabelMap, reset: seq<Stmt>, ks: seq<nat>, h: nat, d: Data, m: nat)
    returns (n: nat, c: Config)
    requires Initial(b, lm, reset, ks) && h <= |ks| && Closed(sem, b) && RunBody(sem, reset, d).state in b
    ensures n >= m && Run(sem, lm, Form(b, lm, reset, Pairs(b, lm, ks[..h]), ks[h..]), Config(0, d, []), n) == Some(c)
    ensures c.d == Dispatch(sem, b, RunBody(sem, reset, d), m)
    ensures c.log == reset + DispatchLog(sem, b, RunBody(sem, reset, d), m)
  {
    hide Closed;
    hide Run;
    hide Thread;
    hide Flat;
    var p := Form(b, lm, reset, Pairs(b, lm, ks[..h]), ks[h..]);
    HitsKeepGood(b, lm, reset, ks, h);
    GoodIsThread(b, lm, reset, Pairs(b, lm, ks[..h]), ks[h..]);
    assert p[..|reset|] == reset;
    n, c := Implements(sem, b, lm, p, |reset|, d, m);
  }

  // ---------- the steps of the default sequence ----------

  /** A thread with gotos and its lmap, or a superloop. */
  datatype Stage = Gotos(p: seq<Stmt>, lm: LabelMap) | Looping(loop: Loop)

  /** One step, applied until it no longer matches.  A conditional goto at the bottom does not arise. */
  function RunStep(step: StepName, s: Stage): Stage {
    if s.Looping? then s
    else
      match step
      case ApplyCombGotoPolicy => s.(p := CombPass(s.p))
      case ApplyYieldGotoPolicy => s.(p := YieldPass(s.p))
      case ApplyBottomPolicy => if BottomHit(s.p).Some? then s.(p := BottomHit(s.p).value) else s
      case ApplyLabelPolicy => s.(p := LabelPass(s.p, |s.p|))
      case CleanupDuplicateLabels => Gotos(MergePass(s.p, s.lm, |s.p|).0, MergePass(s.p, s.lm, |s.p|).1)
      case ApplyTopPolicy => if TopPolicy(s.p).Some? then s.(p := TopPolicy(s.p).value) else s
      case DetectSuperLoop(conditional) =>
        if !conditional && ToSuperLoop(s.p).Some? then Looping(ToSuperLoop(s.p).value) else s
  }

  function RunSequence(steps: seq<StepName>, s: Stage): Stage
    decreases |steps|
  {
    if steps == [] then s else RunSequence(steps[1..], RunStep(steps[0], s))
  }

  /** What the part of the default sequence that creates the fall-through machine makes of a thread. */
  function FallThroughResult(b: Blocks, lm: LabelMap, reset: seq<Stmt>, ks: seq<nat>): Stage {
    RunSequence(RoundSteps(ROUNDS) + CloseSteps(), Gotos(InitialThread(b, lm, reset, ks), lm))
  }

  function FallThroughLoop(b: Blocks, lm: LabelMap, reset: seq<Stmt>, ks: seq<nat>): Option<Loop> {
    var r := FallThroughResult(b, lm, reset, ks);
    if r.Looping? then Some(r.loop) else None
  }

  lemma {:induction false} SequenceSplit(a: seq<StepName>, c: seq<StepName>, s: Stage)
    ensures RunSequence(a + c, s) == RunSequence(c, RunSequence(a, s))
    decreases |a|
  {
    hide RunStep;
    if a == [] {
      assert a + c == c;
    } else {
      assert (a + c)[1..] == a[1..] + c;
      SequenceSplit(a[1..], c, RunStep(a[0], s));
    }
  }

  lemma {:induction false} SequenceOfRounds(n: nat, p: seq<Stmt>, lm: LabelMap)
    ensures RunSequence(RoundSteps(n), Gotos(p, lm)) == Gotos(RunSteps(RoundSteps(n), p), lm)
    decreases n
  {
    hide CombPass;
    hide YieldPass;
    if n > 0 {
      var steps, rest := RoundSteps(n), RoundSteps(n - 1);
      assert steps[1..] == [ApplyYieldGotoPolicy] + rest && steps[1..][1..] == rest;
      SequenceOfRounds(n - 1, YieldPass(CombPass(p)), lm);
      assert RunSequence(steps, Gotos(p, lm)) == RunSequence(steps[1..], Gotos(CombPass(p), lm));
      assert RunSequence(steps[1..], Gotos(CombPass(p), lm)) == RunSequence(rest, Gotos(YieldPass(CombPass(p)), lm));
    }
  }

  /** The closing steps, one after the other. */
  lemma ClosingSteps(s: Stage)
    ensures RunSequence(CloseSteps(), s) ==
            RunStep(DetectSuperLoop(true), RunStep(DetectSuperLoop(false), RunStep(ApplyTopPolicy,
              RunStep(CleanupDuplicateLabels, RunStep(ApplyLabelPolicy, RunStep(ApplyBottomPolicy, s))))))
  {
    hide RunStep;
    var c := CloseSteps();
    SixSteps(c[0], c[1], c[2], c[3], c[4], c[5], s);
  }

  lemma SixSteps(a: StepName, b: StepName, c: StepName, d: StepName, e: StepName, f: StepName, s: Stage)
    ensures RunSequence([a, b, c, d, e, f], s) == RunStep(f, RunStep(e, RunStep(d, RunStep(c, RunStep(b, RunStep(a, s))))))
  {
    hide RunStep;
    OneMore([b, c, d, e, f], a, s);
    OneMore([c, d, e, f], b, RunStep(a, s));
    OneMore([d, e, f], c, RunStep(b, RunStep(a, s)));
    OneMore([e, f], d, RunStep(c, RunStep(b, RunStep(a, s))));
    OneMore([f], e, RunStep(d, RunStep(c, RunStep(b, RunStep(a, s)))));
    OneMore([], f, RunStep(e, RunStep(d, RunStep(c, RunStep(b, RunStep(a, s))))));
    assert [a] + [b, c, d, e, f] == [a, b, c, d, e, f] && [b] + [c, d, e, f] == [b, c, d, e, f];
    assert [c] + [d, e, f] == [c, d, e, f] && [d] + [e, f] == [d, e, f] && [e] + [f] == [e, f] && [f] + [] == [f];
  }

  lemma OneMore(steps: seq<StepName>, a: StepName, s: Stage)
    ensures RunSequence([a] + steps, s) == RunSequence(steps, RunStep(a, s))
    ensures RunSequence([], s) == s
  {
    hide RunStep;
    assert ([a] + steps)[1..] == steps;
  }

  lemma ReverseCovers(b: Blocks, lm: LabelMap, ks: seq<nat>)
    requires forall k :: k in b ==> k in lm && k in ks
    ensures Covers(b, lm, Labels(lm, Reverse(ks))) && AllLabels(Labels(lm, Reverse(ks)))
  {
    var labs := Labels(lm, Reverse(ks));
    forall k | k in b ensures exists i :: 0 <= i < |labs| && IsLabel(labs[i], lm[k]) {
      var i :| 0 <= i < |ks| && ks[i] == k;
      assert IsLabel(labs[|ks| - 1 - i], lm[k]);
    }
  }

  /** Applying a step more often than it can be applied changes nothing. */
  lemma {:induction false} LabelPassMore(p: seq<Stmt>, n: nat, m: nat)
    requires n <= m && LabelHit(LabelPass(p, n)).None?
    ensures LabelPass(p, m) == LabelPass(p, n)
    decreases n
  {
    hide LabelHit;
    if n > 0 && LabelHit(p).Some? {
      LabelPassMore(LabelHit(p).value, n - 1, m - 1);
    }
  }

  lemma {:induction false} MergePassMore(p: seq<Stmt>, lm: LabelMap, n: nat, m: nat)
    requires n <= m && (var r := MergePass(p, lm, n); MergeHit(r.0, r.1).None?)
    ensures MergePass(p, lm, m) == MergePass(p, lm, n)
    decreases n
  {
    hide MergeHit;
    if n > 0 && MergeHit(p, lm).Some? {
      MergePassMore(MergeHit(p, lm).value.0, MergeHit(p, lm).value.1, n - 1, m - 1);
    }
  }

  // ---------- threads that the rounds suffice for ----------

  /** A thread without a goto between states has no bottom to be closed. */
  lemma NoBottomOnClosed(b: Blocks, lm: LabelMap, reset: seq<Stmt>, ks: seq<nat>)
    requires Straight(reset)
    ensures BottomHit(Form(b, lm, reset, Pairs(b, lm, ks), [])) == None
  {
    hide Pairs;
    PairsFronted(b, lm, ks);
    var p := Form(b, lm, reset, Pairs(b, lm, ks), []);
    assert p == (reset + Pairs(b, lm, ks)) + [Goto];
    assert forall i :: 0 <= i < |p| - 1 ==> p[i] == (reset + Pairs(b, lm, ks))[i] && !p[i].Goto?;
  }

  lemma LabelsReached(b: Blocks, lm: LabelMap, reset: seq<Stmt>, ks: seq<nat>)
    requires Straight(reset) && ks != []
    ensures var p := Form(b, lm, reset, Pairs(b, lm, ks), []);
            LabelPass(p, |p|) == Topped(reset, Labels(lm, Reverse(ks)), Guards(b, ks))
  {
    hide LabelPass;
    hide Labels;
    hide Guards;
    LabelPolicyCloses(b, lm, reset, ks);
    var p := Form(b, lm, reset, Pairs(b, lm, ks), []);
    PairsAt(b, lm, ks);
    assert |p| >= |ks|;
    hide Form;
    hide Pairs;
    LabelPassMore(p, |ks| - 1, |p|);
  }

  lemma MergeReached(b: Blocks, lm: LabelMap, reset: seq<Stmt>, ks: seq<nat>) returns (lab: Stmt)
    requires Initial(b, lm, reset, ks)
    ensures lab.Label?
    ensures var p := Topped(reset, Labels(lm, Reverse(ks)), Guards(b, ks));
            MergePass(p, lm, |p|).0 == Topped(reset, [lab], Guards(b, ks))
  {
    hide MergePass;
    hide StateOk;
    hide Injective;
    hide WfBlocks;
    hide Thread;
    hide Labels;
    hide Guards;
    hide Topped;
    var labs := Labels(lm, Reverse(ks));
    var p := Topped(reset, labs, Guards(b, ks));
    ToppedSize(b, lm, reset, ks);
    StatesIn(b, lm, ks);
    LabelsAndGuards(b, lm, 0, Reverse(ks), ks);
    ReverseCovers(b, lm, ks);
    var lm' := MergeToOne(b, lm, reset, labs, ks);
    lab := labs[0];
    MergedIsDone(b, lm', reset, lab, ks);
    MergePassMore(p, lm, |ks| - 1, |p|);
  }

  lemma ToppedSize(b: Blocks, lm: LabelMap, reset: seq<Stmt>, ks: seq<nat>)
    ensures |Topped(reset, Labels(lm, Reverse(ks)), Guards(b, ks))| >= |ks|
  {
  }

  /** When the states split into at most five pairs of runs, the passes end in a superloop with one
      guard per state, in textual order. */
  lemma LoopIsReached(b: Blocks, lm: LabelMap, reset: seq<Stmt>, ks: seq<nat>)
    requires Initial(b, lm, reset, ks) && Splits(b, ks, ROUNDS)
    ensures FallThroughLoop(b, lm, reset, ks) == Some(LoopOf(b, reset, ks, []))
  {
    hide Splits;
    hide LabelPass;
    hide MergePass;
    hide RunSteps;
    hide RunSequence;
    hide TopPolicy;
    hide ToSuperLoop;
    hide Form;
    hide RoundSteps;
    hide CloseSteps;
    hide StateOk;
    hide Topped;
    hide Pairs;
    hide LoopOf;
    hide BottomHit;
    hide CombPass;
    hide YieldPass;
    SequenceSplit(RoundSteps(ROUNDS), CloseSteps(), Gotos(InitialThread(b, lm, reset, ks), lm));
    SequenceOfRounds(ROUNDS, InitialThread(b, lm, reset, ks), lm);
    RoundsSuffice(b, lm, reset, ks, ROUNDS);
    ClosedBecomesLoop(b, lm, reset, ks);
  }

  /** The closing steps, from the form in which every state is a guard. */
  lemma ClosedBecomesLoop(b: Blocks, lm: LabelMap, reset: seq<Stmt>, ks: seq<nat>)
    requires Initial(b, lm, reset, ks)
    ensures RunSequence(CloseSteps(), Gotos(Form(b, lm, reset, Pairs(b, lm, ks), []), lm)) == Looping(LoopOf(b, reset, ks, []))
  {
    hide LabelPass;
    hide MergePass;
    hide RunSequence;
    hide TopPolicy;
    hide ToSuperLoop;
    hide Form;
    hide CloseSteps;
    hide StateOk;
    hide Topped;
    hide Pairs;
    hide LoopOf;
    hide BottomHit;
    hide CombPass;
    hide YieldPass;
    var p := Form(b, lm, reset, Pairs(b, lm, ks), []);
    ClosingSteps(Gotos(p, lm));
    NoBottomOnClosed(b, lm, reset, ks);
    LabelsReached(b, lm, reset, ks);
    var lab := MergeReached(b, lm, reset, ks);
    LoopIsDetected(b, reset, lab, ks);
  }

  lemma NoHitOnEnding(p: seq<Stmt>, head: seq<Stmt>, lab: Stmt, body: seq<Stmt>)
    requires p == head + [Goto, lab] + body && lab.Label? && Combable(body) && forall i :: 0 <= i < |head| ==> !head[i].Goto?
    ensures CombHit(p) == None && YieldHit(p) == None
  {
    var i := |head|;
    BottomPieces(p, head, lab, body);
    assert forall j :: 0 <= j < i ==> p[j] == head[j];
    assert FirstGoto(p) == i;
    assert CombEnd(p, i + 2) == |p|;
  }

  lemma {:induction false} IdleRounds(n: nat, p: seq<Stmt>, lm: LabelMap)
    requires CombHit(p) == None && YieldHit(p) == None
    ensures RunSequence(RoundSteps(n), Gotos(p, lm)) == Gotos(p, lm)
    decreases n
  {
    hide CombHit;
    hide YieldHit;
    if n > 0 {
      var steps, rest := RoundSteps(n), RoundSteps(n - 1);
      assert steps[1..] == [ApplyYieldGotoPolicy] + rest && steps[1..][1..] == rest;
      assert CombPass(p) == p && YieldPass(p) == p;
      IdleRounds(n - 1, p, lm);
      assert RunSequence(steps, Gotos(p, lm)) == RunSequence(steps[1..], Gotos(p, lm));
    }
  }

  /** A thread whose last state ends it, with all its other states in guards: the whole sequence, of which
      the bottom policy is the step that matters, makes a superloop of all the states. */
  lemma EndingBecomesLoop(b: Blocks, lm: LabelMap, reset: seq<Stmt>, js: seq<nat>, k: nat)
    requires Ending(b, lm, reset, js, k) && Initial(b, lm, reset, js + [k])
    ensures RunSequence(RoundSteps(ROUNDS) + CloseSteps(), Gotos(EndingThread(b, lm, reset, js, k), lm)) ==
            Looping(LoopOf(b, reset, js + [k], []))
  {
    hide RunSequence;
    hide RoundSteps;
    hide CloseSteps;
    hide Form;
    hide Pairs;
    hide BottomHit;
    hide LoopOf;
    hide Initial;
    hide LabelPass;
    hide MergePass;
    hide TopPolicy;
    hide ToSuperLoop;
    hide CombPass;
    hide YieldPass;
    hide CombHit;
    hide YieldHit;
    var p, q := EndingThread(b, lm, reset, js, k), Form(b, lm, reset, Pairs(b, lm, js + [k]), []);
    PairsFronted(b, lm, js);
    BottomHitOn(b, lm, reset, js, k);
    NoHitOnEnding(p, reset + Pairs(b, lm, js), LabelOf(lm, k), Body(b, k));
    SequenceSplit(RoundSteps(ROUNDS), CloseSteps(), Gotos(p, lm));
    IdleRounds(ROUNDS, p, lm);
    ClosingSteps(Gotos(p, lm));
    ClosingSteps(Gotos(q, lm));
    NoBottomOnClosed(b, lm, reset, js + [k]);
    ClosedBecomesLoop(b, lm, reset, js + [k]);
  }

  lemma StatesIn(b: Blocks, lm: LabelMap, ks: seq<nat>)
    requires StatesOk(b, lm, ks)
    ensures forall i :: 0 <= i < |ks| ==> ks[i] in b
  {
  }

  lemma MergedIsDone(b: Blocks, lm: LabelMap, reset: seq<Stmt>, lab: Stmt, gs: seq<nat>)
    requires Straight(reset) && lab.Label?
    ensures MergeHit(Topped(reset, [lab], Guards(b, gs)), lm).None?
  {
    GuardsAreGuards(b, gs);
    MergeHitTopped(reset, [lab], Guards(b, gs), lm);
  }

  /** The superloop has executed, after any number of iterations, exactly what the original thread has
      executed at some point of its run. */
  lemma LoopPreservesThread(sem: Sem, b: Blocks, lm: LabelMap, reset: seq<Stmt>, ks: seq<nat>, d: Data, n: nat)
    returns (k: nat, c: Config)
    requires Initial(b, lm, reset, ks) && Splits(b, ks, ROUNDS)
    requires Closed(sem, b) && d.deltas == 0 && RunBody(sem, reset, d).state in b
    ensures k >= n && Run(sem, lm, InitialThread(b, lm, reset, ks), Config(0, d, []), k) == Some(c)
    ensures FallThroughLoop(b, lm, reset, ks).Some?
    ensures LoopRun(sem, FallThroughLoop(b, lm, reset, ks).value, d, n + 1) == (c.d, c.log)
  {
    hide Closed;
    hide Run;
    hide LoopRun;
    hide FallThroughLoop;
    hide LoopOf;
    hide Splits;
    hide RunBody;
    LoopIsReached(b, lm, reset, ks);
    StatesIn(b, lm, ks);
    var m := LoopImplements(sem, b, reset, ks, d, n);
    assert ks[..0] == [] && ks[0..] == ks;
    k, c := FormImplements(sem, b, lm, reset, ks, 0, d, m);
  }
}
