/** One step of the call-stack machine is one or more steps of the merged machine. */
module MergeSimulation {
  import opened Prelude
  import opened CallMachine
  import opened MergePasses
  import opened MergeLayout
  import opened MergeInvariant

  function Top(s: SrcState): Frame
    requires s.stack != []
  {
    s.stack[|s.stack| - 1]
  }

  lemma CodeIs(p: Program, f: Fn, i: nat, k: nat)
    requires IsStatement(p, f, i) && k < |Expansion(p, f, Statement(p, f, i))|
    ensures Pos(p, f, i) + k < |Merged(p)| && Merged(p)[Pos(p, f, i) + k] == Expansion(p, f, Statement(p, f, i))[k]
    ensures Pos(p, f, i + 1) == Pos(p, f, i) + |Expansion(p, f, Statement(p, f, i))|
  {
    hide Pos;
    hide Merged;
    hide Expansion;
    CodeAt(p, f, i);
    assert Merged(p)[Pos(p, f, i)..Pos(p, f, i + 1)][k] == Merged(p)[Pos(p, f, i) + k];
  }

  // ---------- statements that expand to one instruction ----------

  lemma StoreStep(p: Program, env: Env, s: SrcState, t: FlatState, dst: Place, e: Exp, v: int, pc: nat, s': SrcState)
    requires WfProgram(p) && Synced(p, s, t) && Top(s).f < |p.funcs| && pc <= |p.funcs[Top(s).f].body|
    requires WfPlace(dst) && SrcStore(p, s, dst, v, pc) == Next(s')
    requires t.pc < |Merged(p)| && Merged(p)[t.pc] == Assign(PlaceOf(p, Top(s).f, dst), e)
    requires Eval(e, t.shared, t.store) == Some(Int(v))
    requires Pos(p, Top(s).f, pc) == t.pc + 1
    ensures FlatStep(Merged(p), env, t).Next? && Match(p, s', FlatStep(Merged(p), env, t).state)
  {
    hide WfProgram;
    hide Pos;
    hide Merged;
    hide Mirror;
    hide FrameOk;
    hide Count;
    hide HasStack;
    hide LocalAddr;
    hide Find;
    TopFacts(p, s, t);
    var n := |s.stack| - 1;
    var fr, below := s.stack[n], s.stack[..n];
    var t' := FlatStep(Merged(p), env, t);
    match dst
    case Shared(x) =>
      MoveOk(p, below, fr, t.store, pc);
      TopReplaced(p, s, MoveTo(p.funcs[fr.f], fr, pc), t.store, s', t'.state);
    case Auto(x) =>
      AutoAddr(p, fr.f, x, Count(s.stack, fr.f), t.store);
      StoreOk(p, below, fr, t.store, x, v, pc);
      TopReplaced(p, s, MoveTo(p.funcs[fr.f], fr.(locals := fr.locals[x := v]), pc), t'.state.store, s', t'.state);
  }

  lemma FindNamed(p: Program, f: Fn, l: Label)
    requires WfProgram(p) && f < |p.funcs| && Find(p.funcs[f].body, l) < |p.funcs[f].body|
    ensures Find(Merged(p), l) == Pos(p, f, Find(p.funcs[f].body, l)) < |Merged(p)|
  {
    hide WfProgram;
    hide Pos;
    hide Merged;
    var k := Find(p.funcs[f].body, l);
    assert Statement(p, f, k) == Declare(l);
    ExpandPlain(p, f, Declare(l));
    FindInBody(p, f, k, 0, l);
  }

  lemma JumpStep(p: Program, s: SrcState, t: FlatState, l: Label, s': SrcState)
    requires WfProgram(p) && Synced(p, s, t) && Top(s).f < |p.funcs|
    requires SrcJump(p, s, l) == Next(s')
    ensures FlatJump(Merged(p), t, l).Next? && Match(p, s', FlatJump(Merged(p), t, l).state)
  {
    hide WfProgram;
    hide Pos;
    hide Merged;
    hide Mirror;
    TopFacts(p, s, t);
    var n := |s.stack| - 1;
    var fr, below := s.stack[n], s.stack[..n];
    var k := Find(p.funcs[fr.f].body, l);
    FindNamed(p, fr.f, l);
    MoveOk(p, below, fr, t.store, k);
    TopReplaced(p, s, MoveTo(p.funcs[fr.f], fr, k), t.store, s', t.(pc := Pos(p, fr.f, k)));
  }

  lemma SkipStep(p: Program, s: SrcState, t: FlatState, s': SrcState, t': FlatState)
    requires WfProgram(p) && Synced(p, s, t) && Top(s).f < |p.funcs| && Top(s).pc < |p.funcs[Top(s).f].body|
    requires s'.stack == Replace(s.stack, MoveTo(p.funcs[Top(s).f], Top(s), Top(s).pc + 1))
    requires t'.store == t.store && t'.shared == s'.shared && t'.trace == s'.trace
    requires t'.pc == Pos(p, Top(s).f, Top(s).pc + 1)
    ensures Match(p, s', t')
  {
    hide WfProgram;
    hide Pos;
    hide Mirror;
    TopFacts(p, s, t);
    var n := |s.stack| - 1;
    MoveOk(p, s.stack[..n], Top(s), t.store, Top(s).pc + 1);
    TopReplaced(p, s, MoveTo(p.funcs[Top(s).f], Top(s), Top(s).pc + 1), t.store, s', t');
  }

  predicate IsPlain(i: Instr) {
    !i.Call? && !i.Return?
  }

  lemma WfStatement(p: Program, f: Fn, i: nat)
    requires WfProgram(p) && IsStatement(p, f, i)
    ensures WfInstr(p, f, Statement(p, f, i))
  {
    assert WfFunc(p, f);
  }

  lemma PlainStep(p: Program, env: Env, s: SrcState, t: FlatState, s': SrcState)
    requires WfProgram(p) && Match(p, s, t) && SrcStep(p, env, s) == Next(s')
    requires IsStatement(p, Top(s).f, Top(s).pc) && IsPlain(Statement(p, Top(s).f, Top(s).pc))
    ensures FlatStep(Merged(p), env, t).Next? && Match(p, s', FlatStep(Merged(p), env, t).state)
  {
    hide WfProgram;
    hide Pos;
    hide Merged;
    hide Expansion;
    hide Mirror;
    hide FrameOk;
    hide IndexOk;
    hide Bounded;
    hide Count;
    hide HasStack;
    var fr := Top(s);
    var i := Statement(p, fr.f, fr.pc);
    WfStatement(p, fr.f, fr.pc);
    ExpandPlain(p, fr.f, i);
    CodeIs(p, fr.f, fr.pc, 0);
    TopFacts(p, s, t);
    var d := Count(s.stack, fr.f);
    match i
    case Assign(dst, e) =>
      EvalMatches(p, e, s.shared, fr, d, t.store);
      StoreStep(p, env, s, t, dst, ExpOf(p, fr.f, e), SrcEval(e, s.shared, fr.locals).value, fr.pc + 1, s');
    case Declare(_) => SkipStep(p, s, t, s', t.(pc := t.pc + 1));
    case Goto(e) => JumpStep(p, s, t, e.l, s');
    case Branch(c, l) =>
      EvalMatches(p, c, s.shared, fr, d, t.store);
      if SrcEval(c, s.shared, fr.locals).value != 0 {
        JumpStep(p, s, t, l, s');
      } else {
        SkipStep(p, s, t, s', t.(pc := t.pc + 1));
      }
    case Wait => SkipStep(p, s, t, s', FlatStep(Merged(p), env, t).state);
  }

  // ---------- calls ----------

  /** The value that an argument passes: a label for the link address, a number otherwise. */
  function ArgVal(a: Arg, shared: SharedVars, locals: map<Local, int>): Val {
    if a.value.LabelOf? then Lab(a.value.l)
    else
      var v := SrcEval(a.value, shared, locals);
      if v.Some? then Int(v.value) else Int(0)
  }

  predicate ArgOk(a: Arg, shared: SharedVars, locals: map<Local, int>) {
    a.value.LabelOf? || (WfExp(a.value) && SrcEval(a.value, shared, locals).Some?)
  }

  lemma NotParam(p: Program, fr: Frame, d: nat, store: Store, store': Store, c: Cell)
    requires fr.f < |p.funcs| && Holds(p, fr, d, store) && !c.Moved?
    requires forall a :: a != CellAt(c) ==> Fetch(store', a) == Fetch(store, a)
    ensures Holds(p, fr, d, store')
  {
    forall x ensures LocalAddr(p, fr.f, x, d) != CellAt(c) {}
  }

  lemma ArgStep(p: Program, env: Env, fr: Frame, d: nat, g: Fn, a: Arg, t: FlatState)
    requires WfProgram(p) && fr.f < |p.funcs| && TopIndex(p, fr.f, d, t.store) && Holds(p, fr, d, t.store)
    requires t.pc < |Merged(p)| && Merged(p)[t.pc] == Assign(Module(ParamOf(g, a.key)), ExpOf(p, fr.f, a.value))
    requires ArgOk(a, t.shared, fr.locals)
    ensures FlatStep(Merged(p), env, t) ==
              Next(t.(pc := t.pc + 1,
                      store := t.store[CellAt(ParamOf(g, a.key)) := ArgVal(a, t.shared, fr.locals)]))
  {
    hide WfProgram;
    hide Merged;
    if !a.value.LabelOf? {
      EvalMatches(p, a.value, t.shared, fr, d, t.store);
    }
  }

  lemma {:induction false} RunArgs(p: Program, env: Env, fr: Frame, d: nat, g: Fn, args: seq<Arg>, t: FlatState)
    returns (t': FlatState)
    requires WfProgram(p) && fr.f < |p.funcs| && TopIndex(p, fr.f, d, t.store) && Holds(p, fr, d, t.store)
    requires t.pc + |args| <= |Merged(p)| && Merged(p)[t.pc..t.pc + |args|] == ArgCode(p, fr.f, g, args)
    requires forall i :: 0 <= i < |args| ==> ArgOk(args[i], t.shared, fr.locals)
    requires forall i, j :: 0 <= i < j < |args| ==> args[i].key != args[j].key
    ensures FlatRun(Merged(p), env, t, |args|) == Next(t')
    ensures t' == t.(pc := t.pc + |args|, store := t'.store)
    ensures forall i :: 0 <= i < |args| ==>
              Fetch(t'.store, CellAt(ParamOf(g, args[i].key))) == ArgVal(args[i], t.shared, fr.locals)
    ensures forall a | (forall i :: 0 <= i < |args| ==> a != CellAt(ParamOf(g, args[i].key))) ::
              Fetch(t'.store, a) == Fetch(t.store, a)
    decreases |args|
  {
    hide WfProgram;
    hide Merged;
    hide FlatStep;
    hide ArgVal;
    hide ArgOk;
    hide HasStack;
    hide LocalAddr;
    hide ExpOf;
    if args == [] {
      t' := t;
    } else {
      assert Merged(p)[t.pc..t.pc + |args|][0] == Merged(p)[t.pc];
      ArgStep(p, env, fr, d, g, args[0], t);
      var t1 := FlatStep(Merged(p), env, t).state;
      assert Merged(p)[t1.pc..t1.pc + |args[1..]|] == Merged(p)[t.pc..t.pc + |args|][1..];
      assert Holds(p, fr, d, t1.store) by {
        NotParam(p, fr, d, t.store, t1.store, ParamOf(g, args[0].key));
      }
      t' := RunArgs(p, env, fr, d, g, args[1..], t1);
      forall i | 0 <= i < |args|
        ensures Fetch(t'.store, CellAt(ParamOf(g, args[i].key))) == ArgVal(args[i], t.shared, fr.locals)
      {
        if i > 0 {
          assert args[i] == args[1..][i - 1];
        }
      }
      forall a | (forall i :: 0 <= i < |args| ==> a != CellAt(ParamOf(g, args[i].key)))
        ensures Fetch(t'.store, a) == Fetch(t.store, a)
      {
        assert forall i :: 0 <= i < |args[1..]| ==> args[1..][i] == args[i + 1];
      }
    }
  }

  lemma ParamStep(p: Program, env: Env, f: Fn, d: nat, x: Local, t: FlatState)
    requires WfProgram(p) && f < |p.funcs| && TopIndex(p, f, d, t.store)
    requires t.pc < |Merged(p)| && Merged(p)[t.pc] == Assign(PlaceOf(p, f, Auto(x)), Read(Module(ParamOf(f, x))))
    ensures FlatStep(Merged(p), env, t) ==
              Next(t.(pc := t.pc + 1,
                      store := t.store[LocalAddr(p, f, x, d) := Fetch(t.store, CellAt(ParamOf(f, x)))]))
  {
    hide WfProgram;
    hide Merged;
    AutoAddr(p, f, x, d, t.store);
  }

  lemma LocalAddrs(p: Program, f: Fn, d: nat, x: Local)
    requires f < |p.funcs|
    ensures forall y | y != x :: LocalAddr(p, f, y, d) != LocalAddr(p, f, x, d)
    ensures forall c: Cell | !c.Moved? :: LocalAddr(p, f, x, d) != CellAt(c)
  {
  }

  /** The locals of activation d hold what was passed to them, and nothing else has changed. */
  ghost predicate Fetched(p: Program, f: Fn, d: nat, params: seq<Local>, store: Store, store': Store)
    requires f < |p.funcs|
  {
    && (forall i :: 0 <= i < |params| ==>
          Fetch(store', LocalAddr(p, f, params[i], d)) == Fetch(store, CellAt(ParamOf(f, params[i]))))
    && (forall a | (forall i :: 0 <= i < |params| ==> a != LocalAddr(p, f, params[i], d)) :: Fetch(store', a) == Fetch(store, a))
  }

  lemma {:induction false} RunParams(p: Program, env: Env, f: Fn, d: nat, params: seq<Local>, t: FlatState)
    returns (t': FlatState)
    requires WfProgram(p) && f < |p.funcs| && TopIndex(p, f, d, t.store)
    requires t.pc + |params| <= |Merged(p)| && Merged(p)[t.pc..t.pc + |params|] == ParamCode(p, f, params)
    requires forall i, j :: 0 <= i < j < |params| ==> params[i] != params[j]
    ensures FlatRun(Merged(p), env, t, |params|) == Next(t')
    ensures t' == t.(pc := t.pc + |params|, store := t'.store)
    ensures Fetched(p, f, d, params, t.store, t'.store)
    decreases |params|
  {
    hide WfProgram;
    hide Merged;
    hide FlatStep;
    hide HasStack;
    hide LocalAddr;
    hide PlaceOf;
    hide Fetch;
    if params == [] {
      t' := t;
    } else {
      assert Merged(p)[t.pc..t.pc + |params|][0] == Merged(p)[t.pc];
      ParamStep(p, env, f, d, params[0], t);
      var t1 := FlatStep(Merged(p), env, t).state;
      IndexStays(p, f, d, params[0], t.store, Fetch(t.store, CellAt(ParamOf(f, params[0]))));
      hide Fetched;
      assert Merged(p)[t1.pc..t1.pc + |params[1..]|] == Merged(p)[t.pc..t.pc + |params|][1..];
      t' := RunParams(p, env, f, d, params[1..], t1);
      FetchFirst(p, f, d, params, t.store, t'.store);
    }
  }

  lemma IndexStays(p: Program, f: Fn, d: nat, x: Local, store: Store, v: Val)
    requires f < |p.funcs| && TopIndex(p, f, d, store)
    ensures TopIndex(p, f, d, store[LocalAddr(p, f, x, d) := v])
  {
    hide LocalAddr;
    LocalAddrs(p, f, d, x);
  }

  /** Fetching the first and then the others. */
  lemma FetchFirst(p: Program, f: Fn, d: nat, params: seq<Local>, store: Store, store': Store)
    requires f < |p.funcs| && params != [] && forall i, j :: 0 <= i < j < |params| ==> params[i] != params[j]
    requires var x := params[0];
             Fetched(p, f, d, params[1..], store[LocalAddr(p, f, x, d) := Fetch(store, CellAt(ParamOf(f, x)))], store')
    ensures Fetched(p, f, d, params, store, store')
  {
    hide LocalAddr;
    LocalAddrs(p, f, d, params[0]);
    assert forall i :: 0 <= i < |params[1..]| ==> params[1..][i] == params[i + 1];
    forall i | 0 <= i < |params|
      ensures Fetch(store', LocalAddr(p, f, params[i], d)) == Fetch(store, CellAt(ParamOf(f, params[i])))
    {
      if i > 0 {
        assert params[i] == params[1..][i - 1];
      }
    }
  }

  lemma ArgCodeLength(p: Program, f: Fn, g: Fn, args: seq<Arg>)
    requires f < |p.funcs|
    ensures |ArgCode(p, f, g, args)| == |args|
  {
  }

  lemma ParamCodeLength(p: Program, f: Fn, params: seq<Local>)
    requires f < |p.funcs|
    ensures |ParamCode(p, f, params)| == |params|
  {
  }

  lemma {:induction false} BindAt(params: seq<Local>, vals: seq<int>, i: nat)
    requires |params| == |vals| && i < |params|
    requires forall j, k :: 0 <= j < k < |params| ==> params[j] != params[k]
    ensures params[i] in Bind(params, vals) && Bind(params, vals)[params[i]] == vals[i]
  {
    if i > 0 {
      BindAt(params[1..], vals[1..], i - 1);
      assert params[i] == params[1..][i - 1];
    }
  }

  /** Cells that no activation keeps anything in. */
  predicate Scratch(a: Addr) {
    a.CellAt? && !a.c.Moved? && !a.c.IndexOf?
  }

  lemma SyncedScratch(p: Program, s: SrcState, t: FlatState, t': FlatState)
    requires WfProgram(p) && Synced(p, s, t) && t'.shared == t.shared && t'.trace == t.trace
    requires forall a :: !Scratch(a) ==> Fetch(t'.store, a) == Fetch(t.store, a)
    ensures Synced(p, s, t')
  {
    hide WfProgram;
    TopFacts(p, s, t);
    var n := |s.stack| - 1;
    var fr, below := s.stack[n], s.stack[..n];
    MirrorFrame(p, below, fr.f, t.store, t'.store);
    var d := Count(below, fr.f) + 1;
    assert forall x :: !Scratch(LocalAddr(p, fr.f, x, d));
  }

  lemma GotoEnter(p: Program, env: Env, g: Fn, t: FlatState) returns (t': FlatState)
    requires WfProgram(p) && 0 < g < |p.funcs|
    requires t.pc < |Merged(p)| && Merged(p)[t.pc] == Goto(LabelOf(Enter(g)))
    ensures t' == t.(pc := Base(p, g)) && FlatRun(Merged(p), env, t, 1) == Next(t')
  {
    hide WfProgram;
    hide Merged;
    hide Base;
    FindEnter(p, g);
    t' := t.(pc := Base(p, g));
    assert FlatStep(Merged(p), env, t) == Next(t');
  }

  /** The thread has reached this call. */
  predicate AtCall(p: Program, s: SrcState, call: Instr) {
    && s.stack != [] && IsStatement(p, Top(s).f, Top(s).pc) && Statement(p, Top(s).f, Top(s).pc) == call
    && call.Call? && 0 < call.f < |p.funcs|
  }

  /** The module variables of g carry these argument values and this link address. */
  ghost predicate Passed(p: Program, g: Fn, vals: seq<int>, site: Site, store: Store)
    requires g < |p.funcs|
  {
    && |p.funcs[g].params| == |vals|
    && (forall i :: 0 <= i < |vals| ==> Fetch(store, CellAt(ParamOf(g, p.funcs[g].params[i]))) == Int(vals[i]))
    && Fetch(store, CellAt(ParamOf(g, Link))) == Lab(LinkAt(site))
  }

  /** The code of a call up to its jump. */
  lemma CallCode(p: Program, f: Fn, i: nat, call: Instr)
    requires IsStatement(p, f, i) && Statement(p, f, i) == call && call.Call?
    ensures var args := call.args + [Arg(Link, LabelOf(LinkAt(call.site)))];
            var q := Pos(p, f, i);
            && q + |args| < |Merged(p)| && Merged(p)[q..q + |args|] == ArgCode(p, f, call.f, args)
            && Merged(p)[q + |args|] == Goto(LabelOf(Enter(call.f)))
  {
    hide Merged;
    hide Expansion;
    hide Pos;
    hide ArgCode;
    var args := call.args + [Arg(Link, LabelOf(LinkAt(call.site)))];
    var q := Pos(p, f, i);
    ExpandCall(p, f, call.site, call.f, call.args, call.res);
    ArgCodeLength(p, f, call.f, args);
    CodeAt(p, f, i);
    CodeIs(p, f, i, |args|);
    assert Merged(p)[q..q + |args|] == Merged(p)[q..Pos(p, f, i + 1)][..|args|];
  }

  /** The caller's part of a call: pass the arguments and the link address, and jump. */
  lemma LeaveCaller(p: Program, env: Env, s: SrcState, t: FlatState, call: Instr, vals: seq<int>)
    returns (k: nat, t': FlatState)
    requires WfProgram(p) && Match(p, s, t) && AtCall(p, s, call)
    requires SrcArgs(call.args, s.shared, Top(s).locals) == Some(vals)
    ensures FlatRun(Merged(p), env, t, k) == Next(t') && Synced(p, s, t') && t'.pc == Base(p, call.f)
    ensures Passed(p, call.f, vals, call.site, t'.store)
  {
    hide WfProgram;
    hide Merged;
    hide Expansion;
    hide Pos;
    hide Mirror;
    hide Base;
    hide FlatRun;
    hide LocalAddr;
    hide ExpOf;
    hide FrameOk;
    hide IndexOk;
    hide Bounded;
    hide Count;
    hide HasStack;
    hide SrcArgs;
    hide ArgOk;
    hide ArgVal;
    hide Passed;
    var fr := Top(s);
    var args := call.args + [Arg(Link, LabelOf(LinkAt(call.site)))];
    CallArgs(p, s, call, vals);
    CallCode(p, fr.f, fr.pc, call);
    TopFacts(p, s, t);
    var t1 := RunArgs(p, env, fr, Count(s.stack, fr.f), call.f, args, t);
    PassedBy(p, s, call, vals, t1.store);
    SyncedScratch(p, s, t, t1);
    k := |args| + 1;
    t' := GotoEnter(p, env, call.f, t1);
    FlatRunSplit(Merged(p), env, t, |args|, 1);
    SyncedScratch(p, s, t1, t');
  }

  /** The arguments of a call and its link address have values, and a module variable each. */
  lemma CallArgs(p: Program, s: SrcState, call: Instr, vals: seq<int>)
    requires WfProgram(p) && AtCall(p, s, call) && SrcArgs(call.args, s.shared, Top(s).locals) == Some(vals)
    ensures var args, params := call.args + [Arg(Link, LabelOf(LinkAt(call.site)))], p.funcs[call.f].params + [Link];
            && |args| == |params| == |vals| + 1
            && (forall i :: 0 <= i < |args| ==> args[i].key == params[i] && ArgOk(args[i], s.shared, Top(s).locals))
            && (forall i, j :: 0 <= i < j < |args| ==> args[i].key != args[j].key)
            && (forall i :: 0 <= i < |vals| ==> ArgVal(args[i], s.shared, Top(s).locals) == Int(vals[i]))
            && ArgVal(args[|vals|], s.shared, Top(s).locals) == Lab(LinkAt(call.site))
  {
    hide WfProgram;
    var args := call.args + [Arg(Link, LabelOf(LinkAt(call.site)))];
    WfStatement(p, Top(s).f, Top(s).pc);
    ParamsDistinct(p, call.f);
    assert forall i :: 0 <= i < |call.args| ==> args[i] == call.args[i];
    assert args[|call.args|] == Arg(Link, LabelOf(LinkAt(call.site)));
    assert forall i :: 0 <= i < |args| ==> args[i].key == (p.funcs[call.f].params + [Link])[i];
  }

  lemma PassedBy(p: Program, s: SrcState, call: Instr, vals: seq<int>, store: Store)
    requires WfProgram(p) && AtCall(p, s, call) && SrcArgs(call.args, s.shared, Top(s).locals) == Some(vals)
    requires var args := call.args + [Arg(Link, LabelOf(LinkAt(call.site)))];
             forall i :: 0 <= i < |args| ==>
               Fetch(store, CellAt(ParamOf(call.f, args[i].key))) == ArgVal(args[i], s.shared, Top(s).locals)
    ensures Passed(p, call.f, vals, call.site, store)
  {
    hide WfProgram;
    hide SrcArgs;
    hide ArgOk;
    hide ArgVal;
    CallArgs(p, s, call, vals);
    var args, params := call.args + [Arg(Link, LabelOf(LinkAt(call.site)))], p.funcs[call.f].params;
    assert forall i :: 0 <= i < |vals| ==> (params + [Link])[i] == params[i] && args[i].key == params[i];
    assert args[|vals|].key == Link;
  }

  lemma ParamsDistinct(p: Program, f: Fn)
    requires WfProgram(p) && f < |p.funcs|
    ensures var params := p.funcs[f].params + [Link];
            && (forall i, j :: 0 <= i < j < |params| ==> params[i] != params[j])
            && (forall i :: 0 <= i < |params| - 1 ==> params[i].User? && params[i] !in p.funcs[f].scopes)
            && (f != 0 ==> p.funcs[f].body != [])
  {
    assert WfFunc(p, f);
  }

  /** Entering a function: step over its label and push its stack index, if it has one. */
  lemma PushIndex(p: Program, env: Env, s: SrcState, t: FlatState, g: Fn) returns (k: nat, t': FlatState)
    requires WfProgram(p) && 0 < g < |p.funcs| && t.pc == Base(p, g) && IndexOk(p, s.stack, t.store)
    requires HasStack(p, g) ==> Count(s.stack, g) <= STACK_SIZE
    ensures k > 0 && FlatRun(Merged(p), env, t, k) == Next(t')
    ensures t' == t.(pc := t'.pc, store := t'.store)
    ensures HasStack(p, g) ==> Fetch(t'.store, CellAt(IndexOf(g))) == Int(Count(s.stack, g) + 1)
    ensures forall a :: a != CellAt(IndexOf(g)) ==> Fetch(t'.store, a) == Fetch(t.store, a)
    ensures var params := p.funcs[g].params + [Link];
            && t'.pc + |params| == Pos(p, g, 0) <= |Merged(p)|
            && Merged(p)[t'.pc..Pos(p, g, 0)] == ParamCode(p, g, params)
  {
    hide WfProgram;
    hide Merged;
    hide Pos;
    hide Base;
    var params, code := p.funcs[g].params + [Link], Merged(p);
    PrologueAt(p, g);
    BackParams(p, g, params);
    ParamCodeLength(p, g, params);
    var pro := code[t.pc..Pos(p, g, 0)];
    assert pro[0] == code[t.pc];
    var t1 := t.(pc := t.pc + 1);
    assert FlatRun(code, env, t, 1) == Next(t1);
    if HasStack(p, g) {
      assert pro == [Declare(Enter(g)), Inc(g)] + ParamCode(p, g, params);
      assert pro[1] == code[t.pc + 1];
      t' := FlatStep(code, env, t1).state;
      assert FlatRun(code, env, t1, 1) == Next(t');
      FlatRunSplit(code, env, t, 1, 1);
      k := 2;
    } else {
      assert pro == [Declare(Enter(g))] + ParamCode(p, g, params);
      t' := t1;
      k := 1;
    }
    assert code[t'.pc..Pos(p, g, 0)] == pro[k..];
  }

  /** The callee's part of a call. */
  lemma EnterCallee(p: Program, env: Env, s: SrcState, t: FlatState, call: Instr, vals: seq<int>, s': SrcState)
    returns (k: nat, t': FlatState)
    requires WfProgram(p) && Synced(p, s, t) && AtCall(p, s, call) && t.pc == Base(p, call.f)
    requires Passed(p, call.f, vals, call.site, t.store)
    requires |vals| == |p.funcs[call.f].params|
    requires s' == s.(stack := s.stack + [Frame(call.f, 0, Bind(p.funcs[call.f].params, vals))])
    requires Bounded(p, s'.stack)
    ensures k > 0 && FlatRun(Merged(p), env, t, k) == Next(t') && Match(p, s', t')
  {
    hide WfProgram;
    hide Merged;
    hide Pos;
    hide Base;
    hide FlatRun;
    hide HasStack;
    hide Bind;
    hide Mirror;
    hide LocalAddr;
    hide Passed;
    CountPush(s.stack, Top(s'));
    assert HasStack(p, call.f) ==> Count(s'.stack, call.f) < STACK_SIZE;
    k, t' := RunEntry(p, env, s, t, call, vals);
    EntryMatch(p, s, t, t', call, vals, s');
  }

  /** What the prologue of the callee leaves in memory. */
  ghost predicate Entered(p: Program, stack: seq<Frame>, call: Instr, vals: seq<int>, store: Store, store': Store)
    requires call.Call? && call.f < |p.funcs|
  {
    var d, params := Count(stack, call.f) + 1, p.funcs[call.f].params;
    && |params| == |vals|
    && (forall i :: 0 <= i < |vals| ==> Fetch(store', LocalAddr(p, call.f, params[i], d)) == Int(vals[i]))
    && Fetch(store', LocalAddr(p, call.f, Link, d)) == Lab(LinkAt(call.site))
    && (HasStack(p, call.f) ==> Fetch(store', CellAt(IndexOf(call.f))) == Int(d))
    && (forall a :: EntryKeeps(call.f, d, a) ==> Fetch(store', a) == Fetch(store, a))
  }

  lemma RunEntry(p: Program, env: Env, s: SrcState, t: FlatState, call: Instr, vals: seq<int>) returns (k: nat, t': FlatState)
    requires WfProgram(p) && AtCall(p, s, call) && t.pc == Base(p, call.f) && IndexOk(p, s.stack, t.store)
    requires HasStack(p, call.f) ==> Count(s.stack, call.f) + 1 < STACK_SIZE
    requires Passed(p, call.f, vals, call.site, t.store)
    ensures k > 0 && FlatRun(Merged(p), env, t, k) == Next(t')
    ensures t' == t.(pc := Pos(p, call.f, 0), store := t'.store) && Entered(p, s.stack, call, vals, t.store, t'.store)
  {
    hide WfProgram;
    hide Merged;
    hide Pos;
    hide Base;
    hide FlatRun;
    hide HasStack;
    hide LocalAddr;
    hide EntryKeeps;
    hide Entered;
    hide IndexOk;
    hide Count;
    hide ParamCode;
    hide Passed;
    hide Fetch;
    hide Fetched;
    var g, params := call.f, p.funcs[call.f].params + [Link];
    var d := Count(s.stack, g) + 1;
    ParamsDistinct(p, g);
    var k1, t1 := PushIndex(p, env, s, t, g);
    t' := RunParams(p, env, g, d, params, t1);
    k := k1 + |params|;
    FlatRunSplit(Merged(p), env, t, k1, |params|);
    EnteredBy(p, s.stack, call, vals, t.store, t1.store, t'.store);
  }

  lemma EnteredBy(p: Program, stack: seq<Frame>, call: Instr, vals: seq<int>, store: Store, store1: Store, store': Store)
    requires call.Call? && call.f < |p.funcs| && Passed(p, call.f, vals, call.site, store)
    requires HasStack(p, call.f) ==> Fetch(store1, CellAt(IndexOf(call.f))) == Int(Count(stack, call.f) + 1)
    requires forall a :: a != CellAt(IndexOf(call.f)) ==> Fetch(store1, a) == Fetch(store, a)
    requires Fetched(p, call.f, Count(stack, call.f) + 1, p.funcs[call.f].params + [Link], store1, store')
    ensures Entered(p, stack, call, vals, store, store')
  {
    hide HasStack;
    hide LocalAddr;
    hide EntryKeeps;
    hide Count;
    var g, params := call.f, p.funcs[call.f].params + [Link];
    assert forall i :: 0 <= i < |params| - 1 ==> params[i] == p.funcs[g].params[i];
    assert params[|params| - 1] == Link;
    EntryKept(p, g, Count(stack, g) + 1, params);
  }

  /** Memory that entering the d-th activation of g leaves alone. */
  predicate EntryKeeps(g: Fn, d: nat, a: Addr) {
    match a
    case Slot(f, _, i) => f != g || i != d
    case CellAt(Moved(f, _)) => f != g
    case CellAt(IndexOf(f)) => f != g
    case _ => false
  }

  lemma EntryKept(p: Program, g: Fn, d: nat, params: seq<Local>)
    requires g < |p.funcs|
    ensures forall a | EntryKeeps(g, d, a) ::
              a != CellAt(IndexOf(g)) && forall i :: 0 <= i < |params| ==> a != LocalAddr(p, g, params[i], d)
    ensures forall i :: 0 <= i < |params| ==> CellAt(IndexOf(g)) != LocalAddr(p, g, params[i], d)
  {
  }

  lemma EntryMatch(p: Program, s: SrcState, t: FlatState, t': FlatState, call: Instr, vals: seq<int>, s': SrcState)
    requires WfProgram(p) && Synced(p, s, t) && AtCall(p, s, call) && |p.funcs[call.f].params| == |vals|
    requires t' == t.(pc := Pos(p, call.f, 0), store := t'.store) && Entered(p, s.stack, call, vals, t.store, t'.store)
    requires s' == s.(stack := s.stack + [Frame(call.f, 0, Bind(p.funcs[call.f].params, vals))])
    requires Bounded(p, s'.stack)
    ensures Match(p, s', t')
  {
    hide WfProgram;
    hide Pos;
    hide HasStack;
    hide Bind;
    hide Holds;
    hide LocalAddr;
    hide FrameOk;
    hide Mirror;
    hide EntryKeeps;
    var g := call.f;
    EntryIndex(p, s.stack, Top(s'), t.store, t'.store);
    CallingOk(p, s.stack, g, t.store);
    EntryMirror(p, s.stack, g, t.store, t'.store);
    NewFrameOk(p, s.stack, g, vals, t'.store);
    MirrorPush(p, s.stack, Top(s'), t'.store);
  }

  lemma EntryIndex(p: Program, stack: seq<Frame>, fr: Frame, store: Store, store': Store)
    requires IndexOk(p, stack, store) && fr.f < |p.funcs|
    requires HasStack(p, fr.f) ==> Fetch(store', CellAt(IndexOf(fr.f))) == Int(Count(stack, fr.f) + 1)
    requires forall a :: EntryKeeps(fr.f, Count(stack, fr.f) + 1, a) ==> Fetch(store', a) == Fetch(store, a)
    ensures IndexOk(p, stack + [fr], store')
  {
    hide HasStack;
    hide Count;
    CountPush(stack, fr);
    assert forall f :: f != fr.f ==> EntryKeeps(fr.f, Count(stack, fr.f) + 1, CellAt(IndexOf(f)));
  }

  lemma EntryMirror(p: Program, stack: seq<Frame>, g: Fn, store: Store, store': Store)
    requires WfProgram(p) && g != 0 && Mirror(p, stack, Some(g), store)
    requires forall a :: EntryKeeps(g, Count(stack, g) + 1, a) ==> Fetch(store', a) == Fetch(store, a)
    ensures Mirror(p, stack, Some(g), store')
  {
    hide WfProgram;
    hide Mirror;
    assert forall a :: Owned(stack, a) ==> EntryKeeps(g, Count(stack, g) + 1, a);
    MirrorFrame(p, stack, g, store, store');
  }

  lemma MirrorPush(p: Program, stack: seq<Frame>, fr: Frame, store: Store)
    requires Mirror(p, stack, Some(fr.f), store) && FrameOk(p, stack, fr, None, store)
    ensures Mirror(p, stack + [fr], None, store)
  {
    hide FrameOk;
    assert (stack + [fr])[..|stack|] == stack;
  }

  lemma CountPush(stack: seq<Frame>, fr: Frame)
    ensures forall f :: Count(stack + [fr], f) == Count(stack, f) + (if fr.f == f then 1 else 0)
  {
    assert (stack + [fr])[..|stack|] == stack;
  }

  /** A running stack that has reached a call to g is a calling stack. */
  lemma CallingOk(p: Program, stack: seq<Frame>, g: Fn, store: Store)
    requires stack != [] && Mirror(p, stack, None, store)
    requires var fr := stack[|stack| - 1];
             IsStatement(p, fr.f, fr.pc) && Statement(p, fr.f, fr.pc).Call? && Statement(p, fr.f, fr.pc).f == g
    ensures Mirror(p, stack, Some(g), store)
  {
  }

  lemma NewFrameOk(p: Program, below: seq<Frame>, g: Fn, vals: seq<int>, store: Store)
    requires WfProgram(p) && 0 < g < |p.funcs| && |p.funcs[g].params| == |vals| && below != []
    requires var d, params := Count(below, g) + 1, p.funcs[g].params;
             && (forall i :: 0 <= i < |params| ==> Fetch(store, LocalAddr(p, g, params[i], d)) == Int(vals[i]))
             && Fetch(store, LocalAddr(p, g, Link, d)) == Lab(LinkAt(SiteOf(p, below[|below| - 1])))
    ensures FrameOk(p, below, Frame(g, 0, Bind(p.funcs[g].params, vals)), None, store)
  {
    hide WfProgram;
    hide LocalAddr;
    hide HasStack;
    var params := p.funcs[g].params;
    var fr := Frame(g, 0, Bind(params, vals));
    ParamsDistinct(p, g);
    assert forall i :: 0 <= i < |params| ==> params[i] == (params + [Link])[i];
    forall x | x in fr.locals
      ensures x.User? && InScope(p.funcs[g], x, 0)
      ensures Fetch(store, LocalAddr(p, g, x, Count(below, g) + 1)) == Int(fr.locals[x])
    {
      var i :| 0 <= i < |params| && params[i] == x;
      BindAt(params, vals, i);
    }
  }

  lemma CallStep(p: Program, env: Env, s: SrcState, t: FlatState, s': SrcState) returns (k: nat, t': FlatState)
    requires WfProgram(p) && Match(p, s, t) && SrcStep(p, env, s) == Next(s') && Bounded(p, s'.stack)
    requires IsStatement(p, Top(s).f, Top(s).pc) && Statement(p, Top(s).f, Top(s).pc).Call?
    ensures k > 0 && FlatRun(Merged(p), env, t, k) == Next(t') && Match(p, s', t')
  {
    hide WfProgram;
    hide Merged;
    hide Pos;
    hide FlatRun;
    hide Mirror;
    hide Synced;
    hide SrcArgs;
    var call := Statement(p, Top(s).f, Top(s).pc);
    WfStatement(p, Top(s).f, Top(s).pc);
    var vals := SrcArgs(call.args, s.shared, Top(s).locals).value;
    var k1, t1 := LeaveCaller(p, env, s, t, call, vals);
    var k2, t2 := EnterCallee(p, env, s, t1, call, vals, s');
    FlatRunSplit(Merged(p), env, t, k1, k2);
    k, t' := k1 + k2, t2;
  }

  // ---------- returns ----------

  lemma AssignScratch(p: Program, env: Env, s: SrcState, t: FlatState, c: Cell, e: Exp, v: Val) returns (t': FlatState)
    requires WfProgram(p) && Synced(p, s, t) && Scratch(CellAt(c))
    requires t.pc < |Merged(p)| && Merged(p)[t.pc] == Assign(Module(c), e) && Eval(e, t.shared, t.store) == Some(v)
    ensures FlatRun(Merged(p), env, t, 1) == Next(t') && Synced(p, s, t')
    ensures t' == t.(pc := t.pc + 1, store := t.store[CellAt(c) := v])
  {
    hide WfProgram;
    hide Merged;
    t' := t.(pc := t.pc + 1, store := t.store[CellAt(c) := v]);
    assert FlatStep(Merged(p), env, t) == Next(t');
    SyncedScratch(p, s, t, t');
  }

  /** Popping the running activation. */
  lemma PopSynced(p: Program, s: SrcState, t: FlatState, t': FlatState)
    requires WfProgram(p) && Synced(p, s, t) && |s.stack| > 1 && t'.shared == t.shared && t'.trace == t.trace
    requires forall a :: a != CellAt(IndexOf(Top(s).f)) ==> Fetch(t'.store, a) == Fetch(t.store, a)
    requires Top(s).f < |p.funcs| && HasStack(p, Top(s).f) ==>
               Fetch(t'.store, CellAt(IndexOf(Top(s).f))) == Int(Count(s.stack, Top(s).f) - 1)
    ensures Synced(p, s.(stack := s.stack[..|s.stack| - 1]), t')
  {
    hide WfProgram;
    TopFacts(p, s, t);
    var n := |s.stack| - 1;
    var below := s.stack[..n];
    CallerOk(p, below[..n - 1], below[n - 1], Top(s).f, t.store);
    MirrorFrame(p, below, Top(s).f, t.store, t'.store);
    CallerOk(p, below[..n - 1], below[n - 1], Top(s).f, t'.store);
    forall f ensures Count(below, f) <= Count(s.stack, f) {
      CountMonotone(s.stack, n, f);
    }
  }

  /** The callee's part of a return: save the value and the link address, and pop. */
  lemma LeaveCallee(p: Program, env: Env, s: SrcState, t: FlatState) returns (k: nat, t': FlatState)
    requires WfProgram(p) && Match(p, s, t) && |s.stack| > 1 && IsStatement(p, Top(s).f, Top(s).pc)
    requires Statement(p, Top(s).f, Top(s).pc).Return?
    requires var val := Statement(p, Top(s).f, Top(s).pc).val;
             val.Some? ==> SrcEval(val.value, s.shared, Top(s).locals).Some?
    ensures FlatRun(Merged(p), env, t, k) == Next(t')
    ensures Synced(p, s.(stack := s.stack[..|s.stack| - 1]), t')
    ensures t'.pc < |Merged(p)| && Merged(p)[t'.pc] == Goto(Read(Module(TempLink(Top(s).f))))
    ensures Fetch(t'.store, CellAt(TempLink(Top(s).f))) == Lab(LinkAt(SiteOf(p, s.stack[|s.stack| - 2])))
    ensures var val := Statement(p, Top(s).f, Top(s).pc).val;
            val.Some? ==> Fetch(t'.store, CellAt(ReturnOf(Top(s).f))) ==
                            Int(SrcEval(val.value, s.shared, Top(s).locals).value)
  {
    hide WfProgram;
    hide Merged;
    hide Expansion;
    hide Pos;
    hide Mirror;
    hide FlatRun;
    hide SrcEval;
    hide Count;
    var fr := Top(s);
    var f, val, d := fr.f, Statement(p, fr.f, fr.pc).val, Count(s.stack, fr.f);
    var code, e := Merged(p), Expansion(p, f, Return(val));
    WfStatement(p, f, fr.pc);
    ExpandReturn(p, f, val);
    TopFacts(p, s, t);
    var k1, t1 := SaveValue(p, env, s, t);
    CodeIs(p, f, fr.pc, k1);
    CodeIs(p, f, fr.pc, k1 + 1);
    AutoAddr(p, f, Link, d, t1.store);
    var link := Lab(LinkAt(SiteOf(p, s.stack[|s.stack| - 2])));
    var t2 := AssignScratch(p, env, s, t1, TempLink(f), Read(PlaceOf(p, f, Auto(Link))), link);
    FlatRunSplit(code, env, t, k1, 1);
    k, t' := k1 + 1, t2;
    if HasStack(p, f) {
      t' := PopIndex(p, env, s, t2);
      FlatRunSplit(code, env, t, k, 1);
      k := k + 1;
      CodeIs(p, f, fr.pc, k);
    }
    PopSynced(p, s, t2, t');
  }

  /** The value of a return, if it has one, is put aside. */
  lemma SaveValue(p: Program, env: Env, s: SrcState, t: FlatState) returns (k: nat, t': FlatState)
    requires WfProgram(p) && Match(p, s, t) && IsStatement(p, Top(s).f, Top(s).pc)
    requires Statement(p, Top(s).f, Top(s).pc).Return?
    requires var val := Statement(p, Top(s).f, Top(s).pc).val;
             val.Some? ==> SrcEval(val.value, s.shared, Top(s).locals).Some?
    ensures FlatRun(Merged(p), env, t, k) == Next(t') && Synced(p, s, t') && t' == t.(pc := t.pc + k, store := t'.store)
    ensures var val := Statement(p, Top(s).f, Top(s).pc).val;
            if val.None? then k == 0 && t' == t
            else k == 1 && t'.store == t.store[CellAt(ReturnOf(Top(s).f)) := Int(SrcEval(val.value, s.shared, Top(s).locals).value)]
  {
    hide WfProgram;
    hide Merged;
    hide Expansion;
    hide Pos;
    hide Mirror;
    hide FlatRun;
    var fr := Top(s);
    var f, val, d := fr.f, Statement(p, fr.f, fr.pc).val, Count(s.stack, fr.f);
    WfStatement(p, f, fr.pc);
    ExpandReturn(p, f, val);
    CodeIs(p, f, fr.pc, 0);
    TopFacts(p, s, t);
    k, t' := 0, t;
    if val.Some? {
      EvalMatches(p, val.value, s.shared, fr, d, t.store);
      t' := AssignScratch(p, env, s, t, ReturnOf(f), ExpOf(p, f, val.value), Int(SrcEval(val.value, s.shared, fr.locals).value));
      k := 1;
    } else {
      FlatRunZero(Merged(p), env, t);
    }
  }

  lemma FlatRunZero(code: seq<Instr>, env: Env, t: FlatState)
    ensures FlatRun(code, env, t, 0) == Next(t)
  {
  }

  lemma PopIndex(p: Program, env: Env, s: SrcState, t: FlatState) returns (t': FlatState)
    requires WfProgram(p) && Synced(p, s, t) && Top(s).f < |p.funcs| && HasStack(p, Top(s).f)
    requires t.pc < |Merged(p)| && Merged(p)[t.pc] == Dec(Top(s).f)
    ensures FlatRun(Merged(p), env, t, 1) == Next(t')
    ensures t' == t.(pc := t.pc + 1, store := t.store[CellAt(IndexOf(Top(s).f)) := Int(Count(s.stack, Top(s).f) - 1)])
  {
    hide WfProgram;
    hide Merged;
    TopFacts(p, s, t);
    t' := FlatStep(Merged(p), env, t).state;
    assert FlatRun(Merged(p), env, t, 1) == FlatStep(Merged(p), env, t);
  }

  /** The caller's part of a return: land on the link label, and fetch the value. */
  lemma EnterCaller(p: Program, env: Env, s: SrcState, t: FlatState, g: Fn, v: int, s': SrcState)
    returns (k: nat, t': FlatState)
    requires WfProgram(p) && Synced(p, s, t) && IsStatement(p, Top(s).f, Top(s).pc)
    requires Statement(p, Top(s).f, Top(s).pc).Call? && Statement(p, Top(s).f, Top(s).pc).f == g
    requires t.pc < |Merged(p)| && Merged(p)[t.pc] == Goto(Read(Module(TempLink(g))))
    requires Fetch(t.store, CellAt(TempLink(g))) == Lab(LinkAt(Statement(p, Top(s).f, Top(s).pc).site))
    requires var res := Statement(p, Top(s).f, Top(s).pc).res;
             if res.Some? then
               Fetch(t.store, CellAt(ReturnOf(g))) == Int(v) && SrcStore(p, s, res.value, v, Top(s).pc + 1) == Next(s')
             else
               s' == s.(stack := Replace(s.stack, MoveTo(p.funcs[Top(s).f], Top(s), Top(s).pc + 1)))
    ensures k > 0 && FlatRun(Merged(p), env, t, k) == Next(t') && Match(p, s', t')
  {
    hide WfProgram;
    hide Merged;
    hide Expansion;
    hide Pos;
    hide Mirror;
    var fr, call := Top(s), Statement(p, Top(s).f, Top(s).pc);
    var code := Merged(p);
    var t1 := LandOnLink(p, env, s, t, g);
    if call.res.Some? {
      WfStatement(p, fr.f, fr.pc);
      t' := FlatStep(code, env, t1).state;
      StoreStep(p, env, s, t1, call.res.value, Read(Module(ReturnOf(g))), v, fr.pc + 1, s');
      assert FlatRun(code, env, t1, 1) == Next(t');
      FlatRunSplit(code, env, t, 2, 1);
      k := 3;
    } else {
      SkipStep(p, s, t1, s', t1);
      k, t' := 2, t1;
    }
  }

  lemma LandOnLink(p: Program, env: Env, s: SrcState, t: FlatState, g: Fn) returns (t': FlatState)
    requires WfProgram(p) && Synced(p, s, t) && IsStatement(p, Top(s).f, Top(s).pc)
    requires Statement(p, Top(s).f, Top(s).pc).Call? && Statement(p, Top(s).f, Top(s).pc).f == g
    requires t.pc < |Merged(p)| && Merged(p)[t.pc] == Goto(Read(Module(TempLink(g))))
    requires Fetch(t.store, CellAt(TempLink(g))) == Lab(LinkAt(Statement(p, Top(s).f, Top(s).pc).site))
    ensures FlatRun(Merged(p), env, t, 2) == Next(t') && t' == t.(pc := t'.pc) && Synced(p, s, t')
    ensures var res := Statement(p, Top(s).f, Top(s).pc).res;
            if res.Some? then
              && t'.pc + 1 == Pos(p, Top(s).f, Top(s).pc + 1) && t'.pc < |Merged(p)|
              && Merged(p)[t'.pc] == Assign(PlaceOf(p, Top(s).f, res.value), Read(Module(ReturnOf(g))))
            else t'.pc == Pos(p, Top(s).f, Top(s).pc + 1)
  {
    hide WfProgram;
    hide Merged;
    hide Expansion;
    hide Pos;
    hide Mirror;
    var fr, call := Top(s), Statement(p, Top(s).f, Top(s).pc);
    var code, l := Merged(p), LinkAt(call.site);
    var args := call.args + [Arg(Link, LabelOf(l))];
    ExpandCall(p, fr.f, call.site, g, call.args, call.res);
    ArgCodeLength(p, fr.f, g, args);
    ArgCodeLabels(p, fr.f, g, args, l);
    FindInBody(p, fr.f, fr.pc, |args| + 1, l);
    CodeIs(p, fr.f, fr.pc, |args| + 1);
    var t1 := t.(pc := Pos(p, fr.f, fr.pc) + |args| + 1);
    assert FlatStep(code, env, t) == Next(t1);
    t' := t1.(pc := t1.pc + 1);
    assert FlatStep(code, env, t1) == Next(t');
    if call.res.Some? {
      CodeIs(p, fr.f, fr.pc, |args| + 2);
    }
  }

  lemma ReturnStep(p: Program, env: Env, s: SrcState, t: FlatState, s': SrcState) returns (k: nat, t': FlatState)
    requires WfProgram(p) && Match(p, s, t) && SrcStep(p, env, s) == Next(s')
    requires IsStatement(p, Top(s).f, Top(s).pc) && Statement(p, Top(s).f, Top(s).pc).Return?
    ensures k > 0 && FlatRun(Merged(p), env, t, k) == Next(t') && Match(p, s', t')
  {
    hide WfProgram;
    hide Merged;
    hide Pos;
    hide FlatRun;
    hide IndexOk;
    hide Bounded;
    hide Count;
    hide HasStack;
    hide Holds;
    hide InScope;
    var n := |s.stack| - 1;
    var val := Statement(p, Top(s).f, Top(s).pc).val;
    var below := s.(stack := s.stack[..n]);
    TopFacts(p, s, t);
    var k1, t1 := LeaveCallee(p, env, s, t);
    var v := if val.Some? then SrcEval(val.value, s.shared, Top(s).locals).value else 0;
    var k2, t2 := EnterCaller(p, env, below, t1, Top(s).f, v, s');
    FlatRunSplit(Merged(p), env, t, k1, k2);
    k, t' := k1 + k2, t2;
  }

  /** One step, whatever it is. */
  lemma MergeStep(p: Program, env: Env, s: SrcState, t: FlatState, s': SrcState) returns (k: nat, t': FlatState)
    requires WfProgram(p) && Match(p, s, t) && SrcStep(p, env, s) == Next(s') && Bounded(p, s'.stack)
    ensures k > 0 && FlatRun(Merged(p), env, t, k) == Next(t') && Match(p, s', t')
  {
    hide WfProgram;
    hide Merged;
    hide Pos;
    hide Mirror;
    var i := Statement(p, Top(s).f, Top(s).pc);
    if i.Call? {
      k, t' := CallStep(p, env, s, t, s');
    } else if i.Return? {
      k, t' := ReturnStep(p, env, s, t, s');
    } else {
      PlainStep(p, env, s, t, s');
      k, t' := 1, FlatStep(Merged(p), env, t).state;
    }
  }
}
