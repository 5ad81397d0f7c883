/** Function merging preserves what a thread does.

    The theorems are about every run of every well-formed program in every environment. */
module MergeTheorems {
  import opened Prelude
  import opened CallMachine
  import opened MergePasses
  import opened MergeLayout
  import opened MergeInvariant
  import opened MergeSimulation

  function SrcInit(shared: SharedVars): SrcState {
    SrcState(shared, [Frame(0, 0, map[])], [])
  }

  function FlatInit(shared: SharedVars): FlatState {
    FlatState(0, shared, map[], [])
  }

  lemma InitMatches(p: Program, shared: SharedVars)
    requires WfProgram(p)
    ensures Match(p, SrcInit(shared), FlatInit(shared))
  {
    hide Pipeline;
    hide HasStack;
    var s, t := SrcInit(shared), FlatInit(shared);
    assert s.stack[..0] == [];
    assert p.funcs[0].body[..0] == [];
    assert Pipeline(p, 0, []) == [] by { PipelineEmpty(p, 0); }
    assert forall f :: 0 <= f < |p.funcs| && HasStack(p, f) ==> f != 0 by { StackedNotThread(p); }
    assert forall f :: f != 0 ==> Count(s.stack, f) == 0;
  }

  lemma PipelineEmpty(p: Program, f: Fn)
    requires f < |p.funcs|
    ensures Pipeline(p, f, []) == []
  {
  }

  lemma StackedNotThread(p: Program)
    ensures forall f :: 0 <= f < |p.funcs| && HasStack(p, f) ==> f != 0
  {
  }

  /** Every state of a run stays within the stack bound. */
  ghost predicate WithinBound(p: Program, env: Env, s: SrcState, n: nat) {
    forall i :: 0 <= i <= n && SrcRun(p, env, s, i).Next? ==> Bounded(p, SrcRun(p, env, s, i).state.stack)
  }

  /** After any number of steps of the thread, the merged machine has a matching state, reached in at
      least as many steps. */
  lemma {:induction false} MergedReaches(p: Program, env: Env, shared: SharedVars, n: nat) returns (k: nat, t: FlatState)
    requires WfProgram(p) && SrcRun(p, env, SrcInit(shared), n).Next? && WithinBound(p, env, SrcInit(shared), n)
    ensures k >= n && FlatRun(Merged(p), env, FlatInit(shared), k) == Next(t)
    ensures Match(p, SrcRun(p, env, SrcInit(shared), n).state, t)
  {
    hide WfProgram;
    hide Merged;
    hide Match;
    hide SrcStep;
    hide FlatStep;
    if n == 0 {
      InitMatches(p, shared);
      k, t := 0, FlatInit(shared);
    } else {
      var s := SrcRun(p, env, SrcInit(shared), n - 1).state;
      var k1, t1 := MergedReaches(p, env, shared, n - 1);
      var k2, t2 := MergeStep(p, env, s, t1, SrcRun(p, env, SrcInit(shared), n).state);
      FlatRunSplit(Merged(p), env, FlatInit(shared), k1, k2);
      k, t := k1 + k2, t2;
    }
  }

  /** Forward: whatever the thread has done after n steps, the merged thread does. */
  lemma MergingPreservesRuns(p: Program, env: Env, shared: SharedVars, n: nat)
    requires WfProgram(p) && SrcRun(p, env, SrcInit(shared), n).Next? && WithinBound(p, env, SrcInit(shared), n)
    ensures exists k :: k >= n && FlatRun(Merged(p), env, FlatInit(shared), k).Next? &&
              var s, t := SrcRun(p, env, SrcInit(shared), n).state, FlatRun(Merged(p), env, FlatInit(shared), k).state;
              t.trace == s.trace && t.shared == s.shared
  {
    hide WfProgram;
    hide Merged;
    hide Mirror;
    var k, t := MergedReaches(p, env, shared, n);
  }

  lemma StepTraceGrows(code: seq<Instr>, env: Env, t: FlatState)
    ensures FlatStep(code, env, t).Next? ==> t.trace <= FlatStep(code, env, t).state.trace
  {
  }

  lemma TraceGrows(code: seq<Instr>, env: Env, t: FlatState, k: nat)
    requires FlatRun(code, env, t, k).Next?
    ensures t.trace <= FlatRun(code, env, t, k).state.trace
    decreases k
  {
    if k > 0 {
      var r := FlatStep(code, env, t);
      StepTraceGrows(code, env, t);
      hide FlatStep;
      TraceGrows(code, env, r.state, k - 1);
    }
  }

  lemma MatchedTraces(p: Program, s: SrcState, t: FlatState)
    requires Match(p, s, t)
    ensures t.trace == s.trace && t.shared == s.shared
  {
    hide Mirror;
    hide Pos;
  }

  /** Backward: while the thread runs on for k steps, the merged thread is still running after k steps,
      and has done nothing that the thread does not do. */
  lemma MergingAddsNothing(p: Program, env: Env, shared: SharedVars, k: nat)
    requires WfProgram(p) && SrcRun(p, env, SrcInit(shared), k).Next? && WithinBound(p, env, SrcInit(shared), k)
    ensures FlatRun(Merged(p), env, FlatInit(shared), k).Next?
    ensures FlatRun(Merged(p), env, FlatInit(shared), k).state.trace <= SrcRun(p, env, SrcInit(shared), k).state.trace
  {
    hide WfProgram;
    hide Merged;
    hide Mirror;
    hide FlatRun;
    hide FlatInit;
    hide FrameOk;
    hide Bounded;
    hide IndexOk;
    hide Pos;
    hide SrcRun;
    hide Match;
    hide WithinBound;
    var k', t := MergedReaches(p, env, shared, k);
    MatchedTraces(p, SrcRun(p, env, SrcInit(shared), k).state, t);
    FlatRunSplit(Merged(p), env, FlatInit(shared), k, k' - k);
    TraceGrows(Merged(p), env, FlatRun(Merged(p), env, FlatInit(shared), k).state, k' - k);
  }

  // ---------- the stacks ----------

  lemma {:induction false} MirrorAt(p: Program, stack: seq<Frame>, callee: Option<Fn>, store: Store, j: nat)
    requires Mirror(p, stack, callee, store) && j < |stack|
    ensures FrameOk(p, stack[..j], stack[j], if j == |stack| - 1 then callee else Some(stack[j + 1].f), store)
    decreases |stack|
  {
    hide FrameOk;
    var n := |stack| - 1;
    if j < n {
      MirrorAt(p, stack[..n], Some(stack[n].f), store, j);
      assert stack[..n][..j] == stack[..j];
    }
  }

  /** In every state that matches a call stack, the j-th frame is the d-th live activation of its
      function, slot d of the arrays of that function holds its automatics and its link address, d is
      at least 1 and at most the stack index, and the index of the running function selects the frame
      on top. */
  lemma SlotsHoldActivations(p: Program, s: SrcState, t: FlatState, j: nat)
    requires WfProgram(p) && Match(p, s, t) && j < |s.stack|
    ensures var fr := s.stack[j];
            var d := Count(s.stack[..j], fr.f) + 1;
            && fr.f < |p.funcs|
            && 1 <= d <= Count(s.stack, fr.f)
            && (HasStack(p, fr.f) ==> Fetch(t.store, CellAt(IndexOf(fr.f))) == Int(Count(s.stack, fr.f)))
            && (HasStack(p, fr.f) ==> Count(s.stack, fr.f) <= 9)
            && (forall x :: x in fr.locals && Stacked(p, fr.f, x) ==> Fetch(t.store, Slot(fr.f, x, d)) == Int(fr.locals[x]))
            && (j > 0 && HasStack(p, fr.f) ==> Fetch(t.store, Slot(fr.f, Link, d)) == Lab(LinkAt(SiteOf(p, s.stack[j - 1]))))
            && (j == |s.stack| - 1 ==> d == Count(s.stack, fr.f))
  {
    hide WfProgram;
    hide Pos;
    hide Mirror;
    MirrorAt(p, s.stack, None, t.store, j);
    var fr := s.stack[j];
    CountMonotone(s.stack, j + 1, fr.f);
    assert s.stack[..j + 1] == s.stack[..j] + [fr];
    CountPush(s.stack[..j], fr);
    LinkStacked(p, fr.f);
    if j == |s.stack| - 1 {
      assert s.stack[..j + 1] == s.stack;
    }
  }

  /** The step that makes a function exceed its arrays. */
  lemma OverflowStep(p: Program, env: Env, s: SrcState, t: FlatState, s': SrcState) returns (k: nat)
    requires WfProgram(p) && Match(p, s, t) && SrcStep(p, env, s) == Next(s') && !Bounded(p, s'.stack)
    ensures FlatRun(Merged(p), env, t, k) == Stuck
  {
    hide WfProgram;
    hide Merged;
    hide Pos;
    hide FlatRun;
    hide SrcStep;
    hide HasStack;
    hide Mirror;
    hide Bounded;
    hide IndexOk;
    hide ParamCode;
    hide Passed;
    hide Base;
    MatchIsBounded(p, s, t);
    var call, vals := OverflowIsCall(p, env, s, s');
    var k1, t1 := LeaveCaller(p, env, s, t, call, vals);
    var k2, t2 := PushIndex(p, env, s, t1, call.f);
    FirstParamFaults(p, env, call.f, t2);
    FlatRunSplit(Merged(p), env, t, k1, k2);
    FlatRunSplit(Merged(p), env, t, k1 + k2, 1);
    k := k1 + k2 + 1;
  }

  lemma OverflowIsCall(p: Program, env: Env, s: SrcState, s': SrcState) returns (call: Instr, vals: seq<int>)
    requires WfProgram(p) && s.stack != [] && SrcStep(p, env, s) == Next(s') && Bounded(p, s.stack) && !Bounded(p, s'.stack)
    ensures AtCall(p, s, call) && SrcArgs(call.args, s.shared, Top(s).locals) == Some(vals)
    ensures HasStack(p, call.f) && Count(s.stack, call.f) + 1 == STACK_SIZE
  {
    hide WfProgram;
    hide HasStack;
    var g :| 0 <= g < |p.funcs| && HasStack(p, g) && Count(s'.stack, g) >= STACK_SIZE;
    WfStatement(p, Top(s).f, Top(s).pc);
    call := Statement(p, Top(s).f, Top(s).pc);
    if !call.Call? {
      NoGrowth(p, env, s, s', g);
    }
    vals := SrcArgs(call.args, s.shared, Top(s).locals).value;
    CountPush(s.stack, Top(s'));
  }

  lemma NoGrowth(p: Program, env: Env, s: SrcState, s': SrcState, g: Fn)
    requires SrcStep(p, env, s) == Next(s') && !Statement(p, Top(s).f, Top(s).pc).Call?
    ensures Count(s'.stack, g) <= Count(s.stack, g)
  {
    var n := |s.stack| - 1;
    StepShape(p, env, s, s');
    hide SrcStep;
    if Statement(p, Top(s).f, Top(s).pc).Return? {
      ReplaceCount(s.stack[..n], Top(s'), g);
      CountMonotone(s.stack, n, g);
    } else {
      ReplaceCount(s.stack, Top(s'), g);
    }
  }

  /** Only a call adds a frame. */
  lemma StepShape(p: Program, env: Env, s: SrcState, s': SrcState)
    requires SrcStep(p, env, s) == Next(s') && !Statement(p, Top(s).f, Top(s).pc).Call?
    ensures s'.stack != []
    ensures var n := |s.stack| - 1;
            var kept := if Statement(p, Top(s).f, Top(s).pc).Return? then s.stack[..n] else s.stack;
            kept != [] && s'.stack == Replace(kept, Top(s')) && Top(s').f == kept[|kept| - 1].f
  {
    hide SrcEval;
    hide Find;
    hide InScope;
  }

  lemma ReplaceCount(stack: seq<Frame>, fr: Frame, f: Fn)
    requires stack != [] && fr.f == stack[|stack| - 1].f
    ensures Count(Replace(stack, fr), f) == Count(stack, f)
  {
    assert Replace(stack, fr)[..|stack| - 1] == stack[..|stack| - 1];
  }

  lemma FirstParamFaults(p: Program, env: Env, g: Fn, t: FlatState)
    requires WfProgram(p) && g < |p.funcs| && HasStack(p, g)
    requires Fetch(t.store, CellAt(IndexOf(g))) == Int(STACK_SIZE)
    requires var params := p.funcs[g].params + [Link];
             && t.pc + |params| <= |Merged(p)|
             && Merged(p)[t.pc..t.pc + |params|] == ParamCode(p, g, params)
    ensures FlatRun(Merged(p), env, t, 1) == Stuck
  {
    hide WfProgram;
    hide Merged;
    hide HasStack;
    var params := p.funcs[g].params + [Link];
    LinkStacked(p, g);
    assert params[0] == Link || params[0] in p.funcs[g].params;
    assert Merged(p)[t.pc..t.pc + |params|][0] == Merged(p)[t.pc];
    assert Merged(p)[t.pc] == Assign(StackTop(g, params[0]), Read(Module(ParamOf(g, params[0]))));
    assert FlatStep(Merged(p), env, t) == Stuck;
  }

  lemma {:induction false} OverflowIsReached(p: Program, env: Env, shared: SharedVars, n: nat) returns (k: nat)
    requires WfProgram(p) && SrcRun(p, env, SrcInit(shared), n).Next? && !WithinBound(p, env, SrcInit(shared), n)
    ensures FlatRun(Merged(p), env, FlatInit(shared), k) == Stuck
  {
    hide WfProgram;
    hide Merged;
    hide FlatRun;
    hide SrcStep;
    hide Match;
    var s := SrcInit(shared);
    if n == 0 {
      InitMatches(p, shared);
      MatchIsBounded(p, s, FlatInit(shared));
      assert false;
    } else if !WithinBound(p, env, s, n - 1) {
      k := OverflowIsReached(p, env, shared, n - 1);
    } else {
      var k1, t1 := MergedReaches(p, env, shared, n - 1);
      var k2 := OverflowStep(p, env, SrcRun(p, env, s, n - 1).state, t1, SrcRun(p, env, s, n).state);
      FlatRunSplit(Merged(p), env, FlatInit(shared), k1, k2);
      k := k1 + k2;
    }
  }

  lemma MatchIsBounded(p: Program, s: SrcState, t: FlatState)
    requires Match(p, s, t)
    ensures Bounded(p, s.stack)
  {
  }

  /** Functions other than the thread that contain a call have at most nine live activations. */
  ghost predicate NineAtMost(p: Program, stack: seq<Frame>) {
    forall f :: 0 < f < |p.funcs| && (exists i :: 0 <= i < |p.funcs[f].body| && p.funcs[f].body[i].Call?) ==> Count(stack, f) <= 9
  }

  ghost predicate AlwaysNineAtMost(p: Program, env: Env, shared: SharedVars) {
    forall n: nat :: SrcRun(p, env, SrcInit(shared), n).Next? ==> NineAtMost(p, SrcRun(p, env, SrcInit(shared), n).state.stack)
  }

  lemma BoundIsNine(p: Program, stack: seq<Frame>)
    ensures Bounded(p, stack) <==> NineAtMost(p, stack)
  {
  }

  ghost predicate NeverStuck(p: Program, env: Env, shared: SharedVars) {
    forall k: nat :: FlatRun(Merged(p), env, FlatInit(shared), k) != Stuck
  }

  /** For a thread that runs for ever, every array access of the merged machine is in range exactly
      when no function that contains a call ever has more than nine live activations. */
  lemma InRangeExactlyWhenBounded(p: Program, env: Env, shared: SharedVars)
    requires WfProgram(p) && forall n: nat :: SrcRun(p, env, SrcInit(shared), n).Next?
    ensures AlwaysNineAtMost(p, env, shared) <==> NeverStuck(p, env, shared)
  {
    hide WfProgram;
    hide Merged;
    hide FlatRun;
    hide SrcRun;
    hide WithinBound;
    hide NineAtMost;
    if AlwaysNineAtMost(p, env, shared) {
      forall k: nat ensures FlatRun(Merged(p), env, FlatInit(shared), k) != Stuck {
        RunsAreBounded(p, env, shared, k);
        MergingAddsNothing(p, env, shared, k);
      }
    } else {
      var n: nat :| !NineAtMost(p, SrcRun(p, env, SrcInit(shared), n).state.stack);
      BoundIsNine(p, SrcRun(p, env, SrcInit(shared), n).state.stack);
      BoundIsBroken(p, env, shared, n);
      var k := OverflowIsReached(p, env, shared, n);
    }
  }

  lemma RunsAreBounded(p: Program, env: Env, shared: SharedVars, n: nat)
    requires AlwaysNineAtMost(p, env, shared)
    ensures WithinBound(p, env, SrcInit(shared), n)
  {
    hide SrcRun;
    hide Bounded;
    hide NineAtMost;
    forall i: nat | i <= n && SrcRun(p, env, SrcInit(shared), i).Next? ensures Bounded(p, SrcRun(p, env, SrcInit(shared), i).state.stack) {
      BoundIsNine(p, SrcRun(p, env, SrcInit(shared), i).state.stack);
    }
  }

  lemma BoundIsBroken(p: Program, env: Env, shared: SharedVars, n: nat)
    requires SrcRun(p, env, SrcInit(shared), n).Next? && !Bounded(p, SrcRun(p, env, SrcInit(shared), n).state.stack)
    ensures !WithinBound(p, env, SrcInit(shared), n)
  {
    hide SrcRun;
    hide Bounded;
  }

  /** When the thread itself ends, the merged machine ends too if and only if nothing was merged after
      it; otherwise it falls into the first merged function. */
  lemma ThreadEndFallsThrough(p: Program, env: Env, shared: SharedVars, n: nat) returns (k: nat, t: FlatState)
    requires WfProgram(p) && SrcRun(p, env, SrcInit(shared), n).Next? && WithinBound(p, env, SrcInit(shared), n)
    requires SrcStep(p, env, SrcRun(p, env, SrcInit(shared), n).state) == Halted
    ensures FlatRun(Merged(p), env, FlatInit(shared), k) == Next(t)
    ensures t.trace == SrcRun(p, env, SrcInit(shared), n).state.trace
    ensures FlatStep(Merged(p), env, t) == Halted <==> |p.funcs| == 1
    ensures |p.funcs| > 1 ==> t.pc == Find(Merged(p), Enter(1)) < |Merged(p)|
  {
    hide WfProgram;
    hide FlatRun;
    hide Mirror;
    hide Pos;
    hide Merged;
    hide Base;
    k, t := MergedReaches(p, env, shared, n);
    var s, body := SrcRun(p, env, SrcInit(shared), n).state, p.funcs[0].body;
    TopFacts(p, s, t);
    EndOfThread(p);
    if |p.funcs| > 1 {
      FindEnter(p, 1);
    }
  }

  lemma EndOfThread(p: Program)
    requires WfProgram(p)
    ensures Pos(p, 0, |p.funcs[0].body|) == Base(p, 1)
    ensures |p.funcs| == 1 ==> Base(p, 1) == |Merged(p)|
  {
    hide Pipeline;
    assert p.funcs[0].body[..|p.funcs[0].body|] == p.funcs[0].body;
    assert Blocks(p, 1) == Blocks(p, 0) + Block(p, 0);
  }
}
