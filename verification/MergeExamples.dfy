/** Two recursive threads: how deep they may go, and what their activations share. */
module MergeExamples {
  import opened Prelude
  import opened CallMachine
  import opened MergePasses
  import opened MergeLayout
  import opened MergeInvariant
  import opened MergeSimulation
  import opened MergeTheorems

  // ---------- nine activations and ten ----------

  /** f(); where f(){ f(); return; } */
  function Recursing(): Program {
    Program([Func([], map[], [Call(0, 1, [], None)]),
             Func([], map[], [Call(1, 1, [], None), Return(None)])])
  }

  lemma RecursingIsWf()
    ensures WfProgram(Recursing()) && HasStack(Recursing(), 1)
  {
    hide WfFunc;
    RecursingFuncs();
    assert Recursing().funcs[1].body[0].Call?;
  }

  lemma RecursingFuncs()
    ensures WfFunc(Recursing(), 0) && WfFunc(Recursing(), 1)
  {
    var p := Recursing();
    assert WfInstr(p, 0, p.funcs[0].body[0]) && WfInstr(p, 1, p.funcs[1].body[0]) && WfInstr(p, 1, p.funcs[1].body[1]);
    hide WfInstr;
  }

  /** The thread and n activations of f, each at its first statement. */
  function Deep(n: nat): seq<Frame> {
    seq(n + 1, i => Frame(if i == 0 then 0 else 1, 0, map[]))
  }

  lemma {:induction false} CountDeep(n: nat)
    ensures Count(Deep(n), 1) == n
  {
    if n == 0 {
      assert Deep(0)[..0] == [];
    } else {
      assert Deep(n)[..n] == Deep(n - 1);
      CountDeep(n - 1);
    }
  }

  lemma DeepStep(env: Env, shared: SharedVars, n: nat)
    ensures SrcStep(Recursing(), env, SrcState(shared, Deep(n), [])) == Next(SrcState(shared, Deep(n + 1), []))
  {
    var p := Recursing();
    var fr := Deep(n)[n];
    assert p.funcs[fr.f].body[0].Call? && p.funcs[fr.f].body[0].f == 1 && p.funcs[fr.f].body[0].args == [];
    assert Deep(n) + [Frame(1, 0, map[])] == Deep(n + 1);
  }

  lemma {:induction false} DeepRun(env: Env, shared: SharedVars, n: nat)
    ensures SrcRun(Recursing(), env, SrcInit(shared), n) == Next(SrcState(shared, Deep(n), []))
  {
    hide SrcStep;
    if n == 0 {
      assert Deep(0) == [Frame(0, 0, map[])];
    } else {
      DeepRun(env, shared, n - 1);
      DeepStep(env, shared, n - 1);
    }
  }

  lemma DeepIsBounded(n: nat)
    ensures Bounded(Recursing(), Deep(n)) <==> n <= 9
  {
    hide Count;
    RecursingIsWf();
    CountDeep(n);
    StackedNotThread(Recursing());
    assert |Recursing().funcs| == 2;
  }

  /** With nine live activations of f the merged thread runs, with index 9; at the tenth call it stops
      outside its array. */
  lemma NineFitAndTenDoNot(env: Env, shared: SharedVars) returns (k: nat, t: FlatState, k': nat)
    ensures var s := SrcRun(Recursing(), env, SrcInit(shared), 9);
            s.Next? && Count(s.state.stack, 1) == 9
    ensures k >= 9 && FlatRun(Merged(Recursing()), env, FlatInit(shared), k) == Next(t) && Fetch(t.store, CellAt(IndexOf(1))) == Int(9)
    ensures var s := SrcRun(Recursing(), env, SrcInit(shared), 10);
            s.Next? && Count(s.state.stack, 1) == 10
    ensures FlatRun(Merged(Recursing()), env, FlatInit(shared), k') == Stuck
  {
    hide WfProgram;
    hide Merged;
    hide FlatRun;
    hide SrcRun;
    hide Recursing;
    hide Deep;
    hide Count;
    hide Mirror;
    hide Pos;
    hide HasStack;
    hide Bounded;
    var p := Recursing();
    RecursingIsWf();
    CountDeep(9);
    CountDeep(10);
    DeepRun(env, shared, 9);
    DeepRun(env, shared, 10);
    forall i: nat | i <= 9 && SrcRun(p, env, SrcInit(shared), i).Next?
      ensures Bounded(p, SrcRun(p, env, SrcInit(shared), i).state.stack)
    {
      DeepRun(env, shared, i);
      DeepIsBounded(i);
    }
    k, t := MergedReaches(p, env, shared, 9);
    DeepIsBounded(10);
    BoundIsBroken(p, env, shared, 10);
    k' := OverflowIsReached(p, env, shared, 10);
    RecursingSize();
  }

  lemma RecursingSize()
    ensures |Recursing().funcs| == 2
  {
  }

  // ---------- a cell that two activations share ----------

  function T(): Local {
    User("t")
  }

  /** f(){ { int t; t = n + 1; n = t; } f(); return; } with n shared */
  function Sharing(): Program {
    Program([Func([], map[], [Call(0, 1, [], None)]),
             Func([], map[T() := Scope(0, 2)],
                  [Assign(Auto(T()), Bin(Add, Read(Shared("n")), Num(1))), Assign(Shared("n"), Read(Auto(T()))),
                   Call(1, 1, [], None), Return(None)])])
  }

  lemma SharingIsWf()
    ensures WfProgram(Sharing()) && HasStack(Sharing(), 1) && |Sharing().funcs| == 2
  {
    hide WfFunc;
    var p := Sharing();
    SharingFuncs();
    assert p.funcs[1].body[2].Call?;
  }

  lemma SharingFuncs()
    ensures WfFunc(Sharing(), 0) && WfFunc(Sharing(), 1)
  {
    var p := Sharing();
    var body := p.funcs[1].body;
    assert WfInstr(p, 0, p.funcs[0].body[0]);
    assert WfInstr(p, 1, body[0]) && WfInstr(p, 1, body[1]) && WfInstr(p, 1, body[2]) && WfInstr(p, 1, body[3]);
    hide WfInstr;
  }

  /** The first five steps from n == 0. */
  function SharingState(i: nat): SrcState {
    var zero, t1, t2: map<Local, int> := map[], map[T() := 1], map[T() := 2];
    var thread := Frame(0, 0, zero);
    if i == 0 then SrcState(map[], [thread], [])
    else if i == 1 then SrcState(map[], [thread, Frame(1, 0, zero)], [])
    else if i == 2 then SrcState(map[], [thread, Frame(1, 1, t1)], [])
    else if i == 3 then SrcState(map["n" := 1], [thread, Frame(1, 2, zero)], [Wrote("n", 1)])
    else if i == 4 then SrcState(map["n" := 1], [thread, Frame(1, 2, zero), Frame(1, 0, zero)], [Wrote("n", 1)])
    else SrcState(map["n" := 1], [thread, Frame(1, 2, zero), Frame(1, 1, t2)], [Wrote("n", 1)])
  }

  lemma SharingStep(env: Env, i: nat)
    requires i < 5
    ensures SrcStep(Sharing(), env, SharingState(i)) == Next(SharingState(i + 1))
  {
    hide SrcStep;
    hide SharingState;
    if i == 0 || i == 3 {
      SharingCall(env, i);
    } else if i == 2 {
      SharingWrite(env);
    } else {
      SharingAssign(env, i);
    }
  }

  lemma SharingCall(env: Env, i: nat)
    requires i == 0 || i == 3
    ensures SrcStep(Sharing(), env, SharingState(i)) == Next(SharingState(i + 1))
  {
    var p, s := Sharing(), SharingState(i);
    var fr := s.stack[|s.stack| - 1];
    assert p.funcs[fr.f].body[fr.pc] == Call(i / 3, 1, [], None);
    assert Bind([], []) == map[];
    assert s.stack + [Frame(1, 0, map[])] == SharingState(i + 1).stack;
  }

  lemma SharingAssign(env: Env, i: nat)
    requires i == 1 || i == 4
    ensures SrcStep(Sharing(), env, SharingState(i)) == Next(SharingState(i + 1))
  {
    var fn, s, v := Sharing().funcs[1], SharingState(i), if i == 1 then 1 else 2;
    var fr := s.stack[|s.stack| - 1];
    assert ScopeOf(fn, T()) == Scope(0, 2);
    assert fn.body[0] == Assign(Auto(T()), Bin(Add, Read(Shared("n")), Num(1)));
    assert SrcEval(fn.body[0].e, s.shared, fr.locals) == Some(v);
    assert MoveTo(fn, fr.(locals := fr.locals[T() := v]), 1) == Frame(1, 1, map[T() := v]);
    assert Replace(s.stack, Frame(1, 1, map[T() := v])) == SharingState(i + 1).stack;
  }

  lemma SharingWrite(env: Env)
    ensures SrcStep(Sharing(), env, SharingState(2)) == Next(SharingState(3))
  {
    var fn, s := Sharing().funcs[1], SharingState(2);
    assert ScopeOf(fn, T()) == Scope(0, 2);
    assert fn.body[1] == Assign(Shared("n"), Read(Auto(T())));
    assert SrcEval(fn.body[1].e, s.shared, s.stack[1].locals) == Some(1);
    assert MoveTo(fn, s.stack[1], 2) == Frame(1, 2, map[]);
    assert s.shared["n" := 1] == SharingState(3).shared && s.trace + [Wrote("n", 1)] == SharingState(3).trace;
    assert Replace(s.stack, Frame(1, 2, map[])) == SharingState(3).stack;
  }

  lemma {:induction false} SharingRun(env: Env, i: nat)
    requires i <= 5
    ensures SrcRun(Sharing(), env, SrcInit(map[]), i) == Next(SharingState(i))
  {
    hide SrcStep;
    if i > 0 {
      SharingRun(env, i - 1);
      SharingStep(env, i - 1);
    }
  }

  /** When one activation of f is live its t is in the cell of t, and when two are the same cell has the
      second one's; the thread is none the worse for it. */
  lemma TwoActivationsShareACell(env: Env) returns (k: nat, t: FlatState, k': nat, t': FlatState)
    ensures Count(SharingState(2).stack, 1) == 1 && Count(SharingState(5).stack, 1) == 2
    ensures SrcRun(Sharing(), env, SrcInit(map[]), 2) == Next(SharingState(2))
    ensures SrcRun(Sharing(), env, SrcInit(map[]), 5) == Next(SharingState(5))
    ensures FlatRun(Merged(Sharing()), env, FlatInit(map[]), k) == Next(t) && Fetch(t.store, CellAt(Moved(1, T()))) == Int(1)
    ensures FlatRun(Merged(Sharing()), env, FlatInit(map[]), k') == Next(t') && Fetch(t'.store, CellAt(Moved(1, T()))) == Int(2)
    ensures t'.trace == [Wrote("n", 1)]
  {
    hide WfProgram;
    hide Merged;
    hide FlatRun;
    hide SrcRun;
    hide Sharing;
    hide SharingState;
    hide Pos;
    hide Match;
    hide Bounded;
    var p := Sharing();
    SharingIsWf();
    SharingRun(env, 2);
    SharingRun(env, 5);
    forall i: nat | i <= 5 && SrcRun(p, env, SrcInit(map[]), i).Next?
      ensures Bounded(p, SrcRun(p, env, SrcInit(map[]), i).state.stack)
    {
      SharingRun(env, i);
      SharingCounts(i);
    }
    k, t := MergedReaches(p, env, map[], 2);
    k', t' := MergedReaches(p, env, map[], 5);
    SharingCounts(2);
    SharingCounts(5);
    SharingTops();
    CellHolds(SharingState(2), t);
    CellHolds(SharingState(5), t');
  }

  lemma SharingTops()
    ensures SharingState(2).stack == [Frame(0, 0, map[]), Frame(1, 1, map[T() := 1])]
    ensures SharingState(5).stack == [Frame(0, 0, map[]), Frame(1, 2, map[]), Frame(1, 1, map[T() := 2])]
    ensures SharingState(5).trace == [Wrote("n", 1)]
  {
  }

  lemma SharingCounts(i: nat)
    requires i <= 5
    ensures Count(SharingState(i).stack, 1) == (if i == 0 then 0 else if i <= 3 then 1 else 2)
    ensures Bounded(Sharing(), SharingState(i).stack)
  {
    SharingIsWf();
    var stack := SharingState(i).stack;
    CountFew(stack);
    StackedNotThread(Sharing());
  }

  /** Stacks of up to three frames. */
  lemma CountFew(stack: seq<Frame>)
    requires 0 < |stack| <= 3
    ensures Count(stack, 1) ==
            (if stack[0].f == 1 then 1 else 0) + (if |stack| > 1 && stack[1].f == 1 then 1 else 0) + (if |stack| > 2 && stack[2].f == 1 then 1 else 0)
  {
    assert stack[..1][..0] == [] && stack[..1][0] == stack[0];
    if |stack| > 1 {
      assert stack[..2][..1] == stack[..1];
    }
    if |stack| == 1 {
      assert stack[..0] == [];
    } else if |stack| == 2 {
      assert stack[..1][0] == stack[0];
    } else {
      assert stack[..2][1] == stack[1];
    }
  }

  lemma CellHolds(s: SrcState, t: FlatState)
    requires Match(Sharing(), s, t) && |s.stack| > 1 && s.stack[|s.stack| - 1].f == 1 && T() in s.stack[|s.stack| - 1].locals
    ensures Fetch(t.store, CellAt(Moved(1, T()))) == Int(s.stack[|s.stack| - 1].locals[T()]) && t.trace == s.trace
  {
    hide Pos;
    var fn := Sharing().funcs[1];
    assert fn.body[0..2] == [fn.body[0], fn.body[1]];
    assert !HasCall(fn.body[0..2]);
    assert !Stacked(Sharing(), 1, T());
  }
}
