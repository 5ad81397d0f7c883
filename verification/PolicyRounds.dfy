/** How far a given number of comb and yield rounds gets. */
module PolicyRounds {
  import opened Prelude
  import opened StateMachine
  import opened FallOut

  /** The steps that make the fall-through machine. */
  datatype StepName =
    | ApplyCombGotoPolicy | ApplyYieldGotoPolicy | ApplyBottomPolicy | ApplyLabelPolicy
    | CleanupDuplicateLabels | ApplyTopPolicy | DetectSuperLoop(conditional: bool)

  const ROUNDS := 5

  function RoundSteps(n: nat): seq<StepName> {
    if n == 0 then [] else [ApplyCombGotoPolicy, ApplyYieldGotoPolicy] + RoundSteps(n - 1)
  }

  function CloseSteps(): seq<StepName> {
    [ApplyBottomPolicy, ApplyLabelPolicy, CleanupDuplicateLabels, ApplyTopPolicy,
     DetectSuperLoop(false), DetectSuperLoop(true)]
  }

  lemma {:induction false} RoundStepsSnoc(n: nat)
    ensures RoundSteps(n + 1) == RoundSteps(n) + [ApplyCombGotoPolicy, ApplyYieldGotoPolicy]
  {
    if n > 0 {
      RoundStepsSnoc(n - 1);
    }
  }

  /** A comb step and a yield step, five times over, and then six steps once. */
  ghost predicate SixteenSteps(s: seq<StepName>) {
    && |s| == 16
    && (forall i :: 0 <= i < 5 ==> s[2 * i] == ApplyCombGotoPolicy && s[2 * i + 1] == ApplyYieldGotoPolicy)
    && s[10] == ApplyBottomPolicy && s[11] == ApplyLabelPolicy && s[12] == CleanupDuplicateLabels
    && s[13] == ApplyTopPolicy && s[14] == DetectSuperLoop(false) && s[15] == DetectSuperLoop(true)
  }

  lemma {:induction false} RoundStepsAt(n: nat, i: nat)
    requires i < n
    ensures |RoundSteps(n)| == 2 * n && RoundSteps(n)[2 * i] == ApplyCombGotoPolicy && RoundSteps(n)[2 * i + 1] == ApplyYieldGotoPolicy
  {
    if n == 1 {
      assert RoundSteps(0) == [];
    } else {
      RoundStepsAt(n - 1, if i > 0 then i - 1 else 0);
    }
  }

  lemma SequenceIsSixteenSteps()
    ensures SixteenSteps(RoundSteps(ROUNDS) + CloseSteps())
  {
    forall i | 0 <= i < 5
      ensures |RoundSteps(5)| == 10 && RoundSteps(5)[2 * i] == ApplyCombGotoPolicy && RoundSteps(5)[2 * i + 1] == ApplyYieldGotoPolicy
    {
      RoundStepsAt(5, i);
    }
    RoundStepsAt(5, 0);
  }

  /** The part of the default sequence that creates the fall-through machine. */
  method BuildFallThrough(sequence: seq<StepName>) returns (r: seq<StepName>)
    ensures r == sequence + RoundSteps(ROUNDS) + CloseSteps()
    ensures sequence <= r && SixteenSteps(r[|sequence|..])
  {
    hide SixteenSteps;
    SequenceIsSixteenSteps();
    r := sequence;
    var i := 0;
    while i < ROUNDS
      invariant 0 <= i <= ROUNDS
      invariant r == sequence + RoundSteps(i)
    {
      RoundStepsSnoc(i);
      r := r + [ApplyCombGotoPolicy];
      r := r + [ApplyYieldGotoPolicy];
      i := i + 1;
    }
    r := r + [ApplyBottomPolicy];
    r := r + [ApplyLabelPolicy];
    r := r + [CleanupDuplicateLabels];
    r := r + [ApplyTopPolicy];
    r := r + [DetectSuperLoop(false)];
    r := r + [DetectSuperLoop(true)];
    assert r[|sequence|..] == RoundSteps(ROUNDS) + CloseSteps();
  }

  /** Running the goto-policy steps of a sequence, each to exhaustion. */
  function RunSteps(steps: seq<StepName>, p: seq<Stmt>): seq<Stmt>
    decreases steps
  {
    if steps == [] then p
    else
      RunSteps(steps[1..],
               if steps[0].ApplyCombGotoPolicy? then CombPass(p)
               else if steps[0].ApplyYieldGotoPolicy? then YieldPass(p)
               else p)
  }

  lemma {:induction false} RunRounds(n: nat, p: seq<Stmt>)
    ensures RunSteps(RoundSteps(n), p) == Rounds(p, n)
    decreases n
  {
    if n > 0 {
      var steps := RoundSteps(n);
      assert steps[1..][1..] == RoundSteps(n - 1);
      RunRounds(n - 1, YieldPass(CombPass(p)));
    }
  }

  // ---------- one pass ----------

  function Pairs(b: Blocks, lm: LabelMap, ks: seq<nat>): seq<Stmt> {
    if ks == [] then [] else Pair(b, lm, ks[0]) + Pairs(b, lm, ks[1..])
  }

  predicate IsComb(b: Blocks, k: nat) {
    k in b && Combable(b[k])
  }

  /** Length of the longest prefix of combable states, and of states that yield. */
  function RunLength(b: Blocks, ks: seq<nat>, comb: bool): (n: nat)
    ensures n <= |ks| && (forall i :: 0 <= i < n ==> IsComb(b, ks[i]) == comb) && (n < |ks| ==> IsComb(b, ks[n]) != comb)
  {
    if ks == [] || IsComb(b, ks[0]) != comb then 0
    else
      var n := RunLength(b, ks[1..], comb);
      assert forall i :: 0 < i < n + 1 ==> ks[i] == ks[1..][i - 1];
      n + 1
  }

  function Pass(comb: bool, p: seq<Stmt>): seq<Stmt> {
    if comb then CombPass(p) else YieldPass(p)
  }

  function Hit(comb: bool, p: seq<Stmt>): Option<seq<Stmt>> {
    if comb then CombHit(p) else YieldHit(p)
  }

  lemma PassUnfold(comb: bool, p: seq<Stmt>)
    ensures Pass(comb, p) == if Hit(comb, p).Some? then Pass(comb, Hit(comb, p).value) else p
  {
    hide CombHit;
    hide YieldHit;
  }

  lemma PairsFirst(b: Blocks, lm: LabelMap, front: seq<Stmt>, ks: seq<nat>, m: nat)
    requires 0 < m <= |ks|
    ensures front + Pair(b, lm, ks[0]) + Pairs(b, lm, ks[1..][..m - 1]) == front + Pairs(b, lm, ks[..m])
    ensures ks[1..][m - 1..] == ks[m..]
  {
    hide Pair;
    assert ks[..m][1..] == ks[1..][..m - 1];
  }

  lemma HitOnForm(b: Blocks, lm: LabelMap, reset: seq<Stmt>, front: seq<Stmt>, ks: seq<nat>, comb: bool)
    requires WfForm(b, lm, reset, front, ks)
    ensures Hit(comb, Form(b, lm, reset, front, ks)) ==
              if ks != [] && IsComb(b, ks[0]) == comb
              then Some(Form(b, lm, reset, front + Pair(b, lm, ks[0]), ks[1..])) else None
  {
    hide Form;
    hide CombHit;
    hide YieldHit;
    if ks == [] {
      NoHitOnForm(b, lm, reset, front);
    } else {
      HitsOnForm(b, lm, reset, front, ks);
    }
  }

  lemma PairsEmpty(b: Blocks, lm: LabelMap)
    ensures Pairs(b, lm, []) == []
  {
  }


  lemma RunLengthMore(b: Blocks, ks: seq<nat>, comb: bool)
    requires RunLength(b, ks, comb) > 0
    ensures RunLength(b, ks, comb) == 1 + RunLength(b, ks[1..], comb) && ks != [] && IsComb(b, ks[0]) == comb
  {
  }

  lemma PairFronted(b: Blocks, lm: LabelMap, k: nat)
    ensures Fronted(Pair(b, lm, k))
  {
  }

  /** A pass turns the leading run of states of its kind into guards. */
  lemma {:induction false} PassForm(b: Blocks, lm: LabelMap, reset: seq<Stmt>, front: seq<Stmt>, ks: seq<nat>, comb: bool)
    requires WfForm(b, lm, reset, front, ks)
    ensures var m := RunLength(b, ks, comb);
            Pass(comb, Form(b, lm, reset, front, ks)) == Form(b, lm, reset, front + Pairs(b, lm, ks[..m]), ks[m..])
    decreases |ks|
  {
    hide Form;
    hide Pass;
    hide Hit;
    hide StateOk;
    hide Pairs;
    hide IsComb;
    hide Pair;
    hide RunLength;
    var m := RunLength(b, ks, comb);
    PassUnfold(comb, Form(b, lm, reset, front, ks));
    HitOnForm(b, lm, reset, front, ks, comb);
    if m == 0 {
      PairsEmpty(b, lm);
      assert ks[..0] == [] && front + [] == front && ks[0..] == ks;
    } else {
      RunLengthMore(b, ks, comb);
      PairFronted(b, lm, ks[0]);
      PairsFirst(b, lm, front, ks, m);
      PassForm(b, lm, reset, front + Pair(b, lm, ks[0]), ks[1..], comb);
    }
  }

  // ---------- rounds ----------

  /** States that one round deals with. */
  function RoundLength(b: Blocks, ks: seq<nat>): (n: nat)
    ensures n <= |ks|
  {
    var i := RunLength(b, ks, true);
    i + RunLength(b, ks[i..], false)
  }

  function Remaining(b: Blocks, ks: seq<nat>, n: nat): (r: seq<nat>)
    ensures |r| <= |ks| && r == ks[|ks| - |r|..]
    decreases n
  {
    if n == 0 then ks else Remaining(b, ks[RoundLength(b, ks)..], n - 1)
  }

  lemma {:induction false} PairsAppend(b: Blocks, lm: LabelMap, ks: seq<nat>, js: seq<nat>)
    ensures Pairs(b, lm, ks + js) == Pairs(b, lm, ks) + Pairs(b, lm, js)
    decreases |ks|
  {
    if ks == [] {
      assert ks + js == js;
    } else {
      assert (ks + js)[1..] == ks[1..] + js;
      PairsAppend(b, lm, ks[1..], js);
    }
  }

  lemma PairsFronted(b: Blocks, lm: LabelMap, ks: seq<nat>)
    ensures Fronted(Pairs(b, lm, ks))
  {
  }

  lemma PairsSplit(b: Blocks, lm: LabelMap, front: seq<Stmt>, ks: seq<nat>, i: nat, j: nat)
    requires i + j <= |ks|
    ensures ks[i..][j..] == ks[i + j..]
    ensures front + Pairs(b, lm, ks[..i]) + Pairs(b, lm, ks[i..][..j]) == front + Pairs(b, lm, ks[..i + j])
  {
    hide Pairs;
    assert ks[..i + j] == ks[..i] + ks[i..][..j];
    PairsAppend(b, lm, ks[..i], ks[i..][..j]);
  }

  lemma WfFormNext(b: Blocks, lm: LabelMap, reset: seq<Stmt>, front: seq<Stmt>, ks: seq<nat>, m: nat)
    requires WfForm(b, lm, reset, front, ks) && m <= |ks|
    ensures WfForm(b, lm, reset, front + Pairs(b, lm, ks[..m]), ks[m..])
  {
    PairsFronted(b, lm, ks[..m]);
  }

  lemma OneRound(b: Blocks, lm: LabelMap, reset: seq<Stmt>, front: seq<Stmt>, ks: seq<nat>)
    requires WfForm(b, lm, reset, front, ks)
    ensures var n := RoundLength(b, ks);
            YieldPass(CombPass(Form(b, lm, reset, front, ks))) == Form(b, lm, reset, front + Pairs(b, lm, ks[..n]), ks[n..])
  {
    hide Form;
    hide CombPass;
    hide YieldPass;
    hide Pairs;
    hide RunLength;
    hide WfForm;
    var i := RunLength(b, ks, true);
    var j := RunLength(b, ks[i..], false);
    var front1 := front + Pairs(b, lm, ks[..i]);
    PassForm(b, lm, reset, front, ks, true);
    WfFormNext(b, lm, reset, front, ks, i);
    PassForm(b, lm, reset, front1, ks[i..], false);
    PairsSplit(b, lm, front, ks, i, j);
  }

  lemma RoundsStep(b: Blocks, ks: seq<nat>, n: nat, p: seq<Stmt>)
    ensures n == 0 ==> Remaining(b, ks, n) == ks && Rounds(p, n) == p
    ensures n > 0 ==> Remaining(b, ks, n) == Remaining(b, ks[RoundLength(b, ks)..], n - 1) && Rounds(p, n) == Rounds(YieldPass(CombPass(p)), n - 1)
  {
    hide RoundLength;
    hide CombPass;
    hide YieldPass;
  }

  lemma NoPairs(b: Blocks, lm: LabelMap, front: seq<Stmt>, ks: seq<nat>)
    ensures front + Pairs(b, lm, ks[..0]) == front
  {
  }

  /** After n rounds the thread has the form of a partly converted one, with these states left. */
  lemma {:induction false} RoundsForm(b: Blocks, lm: LabelMap, reset: seq<Stmt>, front: seq<Stmt>, ks: seq<nat>, n: nat)
    requires WfForm(b, lm, reset, front, ks)
    ensures var r := Remaining(b, ks, n);
            Rounds(Form(b, lm, reset, front, ks), n) ==
            Form(b, lm, reset, front + Pairs(b, lm, ks[..|ks| - |r|]), r)
    decreases n
  {
    hide Form;
    hide CombPass;
    hide YieldPass;
    hide RoundLength;
    hide WfForm;
    hide Pairs;
    hide Remaining;
    hide Rounds;
    RoundsStep(b, ks, n, Form(b, lm, reset, front, ks));
    if n == 0 {
      NoPairs(b, lm, front, ks);
    } else {
      var m, r := RoundLength(b, ks), Remaining(b, ks, n);
      var front1, ks1 := front + Pairs(b, lm, ks[..m]), ks[m..];
      OneRound(b, lm, reset, front, ks);
      WfFormNext(b, lm, reset, front, ks, m);
      RoundsForm(b, lm, reset, front1, ks1, n - 1);
      PairsSplit(b, lm, front, ks, m, |ks1| - |r|);
    }
  }

  /** The states, in textual order, are at most n runs of combable states each followed by a run of
      states that yield (either may be empty). */
  ghost predicate Splits(b: Blocks, ks: seq<nat>, n: nat)
    decreases n
  {
    if n == 0 then ks == []
    else exists i: nat, j: nat :: j <= |ks| && CutAt(b, ks, i, j) && Splits(b, ks[j..], n - 1)
  }

  predicate CutAt(b: Blocks, ks: seq<nat>, i: nat, j: nat) {
    i <= j <= |ks| && (forall l :: 0 <= l < i ==> IsComb(b, ks[l])) && (forall l :: i <= l < j ==> !IsComb(b, ks[l]))
  }

  lemma {:induction false} SplitsSuffix(b: Blocks, ks: seq<nat>, n: nat, t: nat)
    requires Splits(b, ks, n) && t <= |ks|
    ensures Splits(b, ks[t..], n)
    decreases n
  {
    if n > 0 {
      var i: nat, j: nat :| j <= |ks| && CutAt(b, ks, i, j) && Splits(b, ks[j..], n - 1);
      if t <= j {
        assert CutAt(b, ks[t..], if i < t then 0 else i - t, j - t);
        assert ks[t..][j - t..] == ks[j..];
      } else {
        SplitsSuffix(b, ks[j..], n - 1, t - j);
        assert ks[j..][t - j..] == ks[t..];
        assert CutAt(b, ks[t..], 0, 0);
        assert ks[t..][0..] == ks[t..];
      }
    }
  }

  lemma CutIsShorter(b: Blocks, ks: seq<nat>, i: nat, j: nat)
    requires CutAt(b, ks, i, j)
    ensures j <= RoundLength(b, ks)
  {
    var c := RunLength(b, ks, true);
    var y := RunLength(b, ks[c..], false);
    assert i <= c;
    var probe := i < |ks| && IsComb(b, ks[i]);
    assert c + y < |ks| ==> ks[c..][y] == ks[c + y];
  }

  lemma RoundIsCut(b: Blocks, ks: seq<nat>)
    ensures CutAt(b, ks, RunLength(b, ks, true), RoundLength(b, ks))
  {
    hide RunLength;
    hide IsComb;
    var i, g := RunLength(b, ks, true), RoundLength(b, ks);
    assert forall l :: i <= l < g ==> ks[l] == ks[i..][l - i];
  }

  /** Taking the longest runs first is as good as any other split. */
  lemma {:induction false} GreedyIsBest(b: Blocks, ks: seq<nat>, n: nat)
    ensures Remaining(b, ks, n) == [] <==> Splits(b, ks, n)
    decreases n
  {
    hide RoundLength;
    hide RunLength;
    hide CutAt;
    if n > 0 {
      var g := RoundLength(b, ks);
      GreedyIsBest(b, ks[g..], n - 1);
      RoundIsCut(b, ks);
      if Splits(b, ks, n) {
        var i: nat, j: nat :| j <= |ks| && CutAt(b, ks, i, j) && Splits(b, ks[j..], n - 1);
        CutIsShorter(b, ks, i, j);
        SplitsSuffix(b, ks[j..], n - 1, g - j);
        assert ks[j..][g - j..] == ks[g..];
      }
    }
  }

  lemma {:induction false} NoGotos(s: seq<Stmt>)
    requires forall i :: 0 <= i < |s| ==> !s[i].Goto?
    ensures GotoCount(s) == 0
  {
    if s != [] {
      NoGotos(s[1..]);
    }
  }

  lemma {:induction false} FlatGotos(b: Blocks, lm: LabelMap, ks: seq<nat>)
    requires WfBlocks(b)
    ensures GotoCount(Flat(b, lm, ks)) == |ks|
  {
    if ks != [] {
      var lab, body, rest := [LabelOf(lm, ks[0])], Body(b, ks[0]), Flat(b, lm, ks[1..]);
      FlatGotos(b, lm, ks[1..]);
      NoGotos(lab + body);
      assert [Goto][1..] == [];
      GotoCountAppend(lab + body, [Goto]);
      GotoCountAppend(lab + body + [Goto], rest);
    }
  }

  lemma FormGotos(b: Blocks, lm: LabelMap, reset: seq<Stmt>, front: seq<Stmt>, ks: seq<nat>)
    requires WfBlocks(b) && WfForm(b, lm, reset, front, ks)
    ensures GotoCount(Form(b, lm, reset, front, ks)) == 1 + |ks|
  {
    hide Flat;
    NoGotos(reset + front);
    FlatGotos(b, lm, ks);
    assert [Goto][1..] == [];
    GotoCountAppend(reset + front, [Goto]);
    GotoCountAppend(reset + front + [Goto], Flat(b, lm, ks));
  }

  /** n rounds leave a single goto at the top level if and only if the states split into n pairs of
      runs; the default sequence has five rounds. */
  lemma RoundsSuffice(b: Blocks, lm: LabelMap, reset: seq<Stmt>, ks: seq<nat>, n: nat)
    requires WfBlocks(b) && WfForm(b, lm, reset, [], ks)
    ensures GotoCount(RunSteps(RoundSteps(n), Form(b, lm, reset, [], ks))) == 1 <==> Splits(b, ks, n)
    ensures Splits(b, ks, n) ==>
              RunSteps(RoundSteps(n), Form(b, lm, reset, [], ks)) == Form(b, lm, reset, Pairs(b, lm, ks), [])
  {
    hide Form;
    hide Splits;
    hide Rounds;
    hide RunSteps;
    hide Pairs;
    hide StateOk;
    hide Remaining;
    hide GotoCount;
    hide WfBlocks;
    var r := Remaining(b, ks, n);
    var done := ks[..|ks| - |r|];
    RunRounds(n, Form(b, lm, reset, [], ks));
    RoundsForm(b, lm, reset, [], ks, n);
    PairsFronted(b, lm, done);
    assert [] + Pairs(b, lm, done) == Pairs(b, lm, done);
    FormGotos(b, lm, reset, Pairs(b, lm, done), r);
    GreedyIsBest(b, ks, n);
    if r == [] {
      assert done == ks;
    }
  }
}
