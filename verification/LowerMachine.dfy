/** The machine that runs lowered programs, and the layout of their code. */
module LowerMachine {
  import opened Prelude
  import opened Structured
  import opened LowerPasses

  datatype MState<S> = MState(pc: nat, st: S, values: map<Id, int>) // values of the switch_value variables

  /** Index of the first declaration of a label, or the length of the code. */
  function Position(code: seq<Instr>, l: Label): (k: nat)
    ensures k <= |code| && (k < |code| ==> code[k] == IMark(l))
    ensures forall j :: 0 <= j < k ==> code[j] != IMark(l)
  {
    if code == [] then 0
    else if code[0] == IMark(l) then 0
    else
      var k := Position(code[1..], l);
      assert forall j :: 0 < j < k + 1 ==> code[j] == code[1..][j - 1];
      k + 1
  }

  function EvalTest<S>(m: Interp<S>, t: Test, st: S, values: map<Id, int>): (bool, S) {
    match t
    case Is(c) => m.test(c, st)
    case IsNot(c) => (!m.test(c, st).0, m.test(c, st).1)
    case Within(i, lo, hi) => (i in values && lo <= values[i] <= hi, st)
  }

  function MJump<S>(code: seq<Instr>, t: MState<S>, l: Label): Outcome<MState<S>> {
    if Position(code, l) < |code| then Next(t.(pc := Position(code, l))) else Stuck
  }

  function MStep<S>(m: Interp<S>, code: seq<Instr>, t: MState<S>): Outcome<MState<S>> {
    if t.pc >= |code| then Halted
    else
      match code[t.pc]
      case IAct(a) => Next(t.(pc := t.pc + 1, st := m.act(a, t.st)))
      case ISet(i, e) =>
        var (v, u) := m.value(e, t.st);
        Next(MState(t.pc + 1, u, t.values[i := v]))
      case IMark(_) => Next(t.(pc := t.pc + 1))
      case IGoto(l) => MJump(code, t, l)
      case IBranch(c, l) =>
        var (v, u) := EvalTest(m, c, t.st, t.values);
        if v then MJump(code, t.(st := u), l) else Next(t.(pc := t.pc + 1, st := u))
      case IStructured => Stuck
  }

  function MRun<S>(m: Interp<S>, code: seq<Instr>, t: MState<S>, k: nat): Outcome<MState<S>>
    decreases k
  {
    if k == 0 then Next(t)
    else
      var r := MStep(m, code, t);
      if r.Next? then MRun(m, code, r.state, k - 1) else r
  }

  /** k steps lead from t to u. */
  predicate Goes<S(==)>(m: Interp<S>, code: seq<Instr>, t: MState<S>, k: nat, u: MState<S>) {
    MRun(m, code, t, k) == Next(u)
  }

  lemma {:induction false} Chain<S>(m: Interp<S>, code: seq<Instr>, t: MState<S>, j: nat, u: MState<S>, k: nat, w: MState<S>)
    requires Goes(m, code, t, j, u) && Goes(m, code, u, k, w)
    ensures Goes(m, code, t, j + k, w)
    decreases j
  {
    hide MStep;
    if j > 0 {
      Chain(m, code, MStep(m, code, t).state, j - 1, u, k, w);
    }
  }

  lemma OneStep<S>(m: Interp<S>, code: seq<Instr>, t: MState<S>, u: MState<S>)
    requires MStep(m, code, t) == Next(u)
    ensures Goes(m, code, t, 1, u)
  {
    hide MStep;
    assert MRun(m, code, u, 0) == Next(u);
  }

  /** Nothing happens after the end of the code. */
  lemma {:induction false} EndedStays<S>(m: Interp<S>, code: seq<Instr>, t: MState<S>, j: nat, u: MState<S>, k: nat)
    requires Goes(m, code, t, j, u) && u.pc == |code|
    ensures k > j ==> MRun(m, code, t, k) == Halted
    decreases j
  {
    if j > 0 && k > 0 {
      EndedStays(m, code, MStep(m, code, t).state, j - 1, u, k - 1);
    }
  }

  // ---------- layout ----------

  ghost predicate UniqueMarks(code: seq<Instr>) {
    forall i, j :: 0 <= i < j < |code| && code[i].IMark? ==> code[i] != code[j]
  }

  predicate AtMark(code: seq<Instr>, pc: nat, l: Label) {
    pc < |code| && code[pc] == IMark(l)
  }

  lemma PositionIs(code: seq<Instr>, l: Label, pc: nat)
    requires UniqueMarks(code) && AtMark(code, pc, l)
    ensures Position(code, l) == pc
  {
  }

  lemma SameMark(code: seq<Instr>, l: Label, p: nat, q: nat)
    requires UniqueMarks(code) && AtMark(code, p, l) && AtMark(code, q, l)
    ensures p == q
  {
    PositionIs(code, l, p);
    PositionIs(code, l, q);
  }

  /** The part stands at `at` in the code. */
  predicate CodeAt(code: seq<Instr>, at: nat, part: seq<Instr>) {
    at + |part| <= |code| && forall j :: 0 <= j < |part| ==> code[at + j] == part[j]
  }

  lemma CodeAtSplit(code: seq<Instr>, at: nat, a: seq<Instr>, b: seq<Instr>)
    requires CodeAt(code, at, a + b)
    ensures CodeAt(code, at, a) && CodeAt(code, at + |a|, b)
  {
    forall j | 0 <= j < |a| ensures code[at + j] == a[j] {
      assert (a + b)[j] == a[j];
    }
    forall j | 0 <= j < |b| ensures code[at + |a| + j] == b[j] {
      assert code[at + (|a| + j)] == (a + b)[|a| + j];
    }
  }

  lemma CodeAtWhole(code: seq<Instr>)
    ensures CodeAt(code, 0, code)
  {
  }

  ghost predicate Declared(code: seq<Instr>, l: Label) {
    exists pc: nat :: AtMark(code, pc, l)
  }

  /** Walk over label declarations. */
  lemma {:induction false} Walk<S>(m: Interp<S>, code: seq<Instr>, t: MState<S>, k: nat)
    requires t.pc + k <= |code|
    requires forall j :: t.pc <= j < t.pc + k ==> code[j].IMark?
    ensures Goes(m, code, t, k, t.(pc := t.pc + k))
    decreases k
  {
    if k > 0 {
      var u := t.(pc := t.pc + 1);
      assert MStep(m, code, t) == Next(u);
      Walk(m, code, u, k - 1);
    }
  }

  /** Take a goto or a branch to a declared label. */
  lemma Leap<S>(m: Interp<S>, code: seq<Instr>, t: MState<S>, l: Label) returns (u: MState<S>)
    requires UniqueMarks(code) && Declared(code, l) && t.pc < |code|
    requires code[t.pc] == IGoto(l) || (code[t.pc].IBranch? && code[t.pc].l == l && EvalTest(m, code[t.pc].t, t.st, t.values).0)
    ensures Goes(m, code, t, 1, u) && AtMark(code, u.pc, l)
    ensures u == MState(u.pc, if code[t.pc].IGoto? then t.st else EvalTest(m, code[t.pc].t, t.st, t.values).1, t.values)
  {
    var pc: nat :| AtMark(code, pc, l);
    PositionIs(code, l, pc);
    u := MStep(m, code, t).state;
    OneStep(m, code, t, u);
  }

  /** A branch that is not taken. */
  lemma Pass<S>(m: Interp<S>, code: seq<Instr>, t: MState<S>) returns (u: MState<S>)
    requires t.pc < |code| && code[t.pc].IBranch? && !EvalTest(m, code[t.pc].t, t.st, t.values).0
    ensures Goes(m, code, t, 1, u) && u == MState(t.pc + 1, EvalTest(m, code[t.pc].t, t.st, t.values).1, t.values)
  {
    u := MStep(m, code, t).state;
    OneStep(m, code, t, u);
  }

  // ---------- the code of each construct ----------

  function MarkCode(bs: seq<Id>): seq<Instr> {
    if bs == [] then [] else MarkCode(bs[1..]) + [IMark(BreakOf(bs[0]))]
  }

  lemma {:induction false} EmitMarks(bs: seq<Id>)
    ensures Emit(Marks(bs)) == MarkCode(bs)
  {
    if bs != [] {
      EmitMarks(bs[1..]);
      EmitSeq(Marks(bs[1..]), Mark(BreakOf(bs[0])));
    }
  }

  lemma {:induction false} MarkCodeIs(bs: seq<Id>)
    ensures forall j :: 0 <= j < |MarkCode(bs)| ==> MarkCode(bs)[j].IMark?
    ensures forall b :: b in bs ==> IMark(BreakOf(b)) in MarkCode(bs)
  {
    if bs != [] {
      MarkCodeIs(bs[1..]);
    }
  }

  lemma EmitSeq(a: Stmt, b: Stmt)
    ensures Emit(Seq(a, b)) == Emit(a) + Emit(b)
  {
  }

  function IfCode(i: Id, c: Cond, a: seq<Instr>, b: seq<Instr>): seq<Instr> {
    [IBranch(IsNot(c), Then(i))] + (a + ([IGoto(Else(i)), IMark(Then(i))] + (b + [IMark(Else(i))])))
  }

  lemma EmitIf(i: Id, c: Cond, a: Stmt, b: Stmt)
    ensures Emit(If(i, c, a, b)) == if a.Goto? && b.Skip? then [IBranch(Is(c), a.l)] else IfCode(i, c, Emit(a), Emit(b))
  {
    var x, y := SwitchToIfGoto(a), SwitchToIfGoto(b);
    assert x.Goto? <==> a.Goto?;
    assert y.Skip? <==> b.Skip?;
    if !(a.Goto? && b.Skip?) {
      var p, q := IfToIfGoto(x), IfToIfGoto(y);
      var tail := Seq(q, Mark(Else(i)));
      assert Flat(tail) == Flat(q) + [IMark(Else(i))];
      assert Flat(Seq(Mark(Then(i)), tail)) == [IMark(Then(i))] + Flat(tail);
      assert Flat(Seq(Goto(Else(i)), Seq(Mark(Then(i)), tail))) == [IGoto(Else(i))] + ([IMark(Then(i))] + Flat(tail));
      assert [IGoto(Else(i))] + ([IMark(Then(i))] + Flat(tail)) == [IGoto(Else(i)), IMark(Then(i))] + Flat(tail);
      var rest := Seq(Goto(Else(i)), Seq(Mark(Then(i)), tail));
      assert Flat(Seq(p, rest)) == Flat(p) + Flat(rest);
      assert Flat(Seq(IfGoto(IsNot(c), Then(i)), Seq(p, rest))) == [IBranch(IsNot(c), Then(i))] + Flat(Seq(p, rest));
    }
  }

  function LoopCode(i: Id, c: Cond, body: seq<Instr>): seq<Instr> {
    [IMark(NextOf(i))] + (body + [IMark(DoContinue(i)), IBranch(Is(c), NextOf(i))])
  }

  lemma EmitLooped(i: Id, c: Cond, body: Stmt)
    ensures Emit(Looped(i, c, body)) == LoopCode(i, c, Emit(body))
  {
    var foot := Seq(Mark(DoContinue(i)), IfGoto(Is(c), NextOf(i)));
    EmitSeq(Mark(DoContinue(i)), IfGoto(Is(c), NextOf(i)));
    assert Emit(foot) == [IMark(DoContinue(i)), IBranch(Is(c), NextOf(i))];
    EmitSeq(body, foot);
    EmitSeq(Mark(NextOf(i)), Seq(body, foot));
  }

  /** A round of a loop: the body and, in a for loop, the increment. */
  function RoundCode(i: Id, incs: seq<Action>, b: Stmt): seq<Instr> {
    if incs == [] then Code(b, DoContinue(i)) else Code(b, ForContinue(i)) + [IMark(ForContinue(i)), IAct(incs[0])]
  }

  lemma WhileCode(i: Id, c: Cond, b: Stmt, k: Label)
    ensures Code(While(i, c, b), k) == IfCode(i, c, LoopCode(i, c, RoundCode(i, [], b)), []) + MarkCode(FreeBreaks(b))
  {
    var loop := Looped(i, c, Unlooped(b, DoContinue(i)));
    EmitLooped(i, c, Unlooped(b, DoContinue(i)));
    EmitIf(i, c, loop, Skip);
    EmitSeq(If(i, c, loop, Skip), Marks(FreeBreaks(b)));
    EmitMarks(FreeBreaks(b));
  }

  lemma DoCode(i: Id, c: Cond, b: Stmt, k: Label)
    ensures Code(Do(i, c, b), k) == LoopCode(i, c, RoundCode(i, [], b)) + MarkCode(FreeBreaks(b))
  {
    EmitLooped(i, c, Unlooped(b, DoContinue(i)));
    EmitSeq(Looped(i, c, Unlooped(b, DoContinue(i))), Marks(FreeBreaks(b)));
    EmitMarks(FreeBreaks(b));
  }

  lemma ForCode(i: Id, init: Action, c: Cond, inc: Action, b: Stmt, k: Label)
    ensures Code(For(i, init, c, inc, b), k) ==
            ([IAct(init)] + IfCode(i, c, LoopCode(i, c, RoundCode(i, [inc], b)), [])) + MarkCode(FreeBreaks(b))
  {
    ForRound(i, inc, b);
    var round := Seq(Unlooped(b, ForContinue(i)), Seq(Mark(ForContinue(i)), Act(inc)));
    var loop := Looped(i, c, round);
    EmitLooped(i, c, round);
    EmitIf(i, c, loop, Skip);
    EmitSeq(Act(init), If(i, c, loop, Skip));
    EmitSeq(Seq(Act(init), If(i, c, loop, Skip)), Marks(FreeBreaks(b)));
    EmitMarks(FreeBreaks(b));
  }

  lemma ForRound(i: Id, inc: Action, b: Stmt)
    ensures Emit(Seq(Unlooped(b, ForContinue(i)), Seq(Mark(ForContinue(i)), Act(inc)))) == RoundCode(i, [inc], b)
  {
    var tail := Seq(Mark(ForContinue(i)), Act(inc));
    EmitSeq(Mark(ForContinue(i)), Act(inc));
    assert Emit(tail) == [IMark(ForContinue(i)), IAct(inc)];
    EmitSeq(Unlooped(b, ForContinue(i)), tail);
  }

  /** The body of a switch, with labels for its targets. */
  function ItemsCode(items: Items, k: Label): seq<Instr> {
    match items
    case End => []
    case Entry(t, rest) => [IMark(TargetLabel(t))] + ItemsCode(rest, k)
    case Plain(s, rest) => Code(s, k) + ItemsCode(rest, k)
  }

  /** The jumps at the top of a switch. */
  function JumpCode(i: Id, items: Items, ranges: bool): seq<Instr> {
    match items
    case End => []
    case Entry(t, rest) =>
      JumpCode(i, rest, ranges) +
      (match t
       case Case(_, v) => if ranges then [] else [IBranch(Within(i, v, v), TargetLabel(t))]
       case RangeCase(_, lo, hi) => if ranges then [IBranch(Within(i, lo, hi), TargetLabel(t))] else []
       case Default(_) => [])
    case Plain(_, rest) => JumpCode(i, rest, ranges)
  }

  function DefaultCode(items: Items): seq<Instr> {
    match items
    case End => []
    case Entry(t, rest) => DefaultCode(rest) + (if t.Default? then [IGoto(TargetLabel(t))] else [])
    case Plain(_, rest) => DefaultCode(rest)
  }

  lemma {:induction false} EmitItems(items: Items, k: Label)
    ensures Flat(IfToIfGoto(Relabelled(UnloopedIn(items, k)))) == ItemsCode(items, k)
  {
    match items
    case End =>
    case Entry(_, rest) => EmitItems(rest, k);
    case Plain(_, rest) => EmitItems(rest, k);
  }

  lemma {:induction false} EmitJumps(i: Id, items: Items, k: Label, ranges: bool)
    ensures Flat(IfToIfGoto(Hoisted(i, UnloopedIn(items, k), ranges))) == JumpCode(i, items, ranges)
  {
    match items
    case End =>
    case Entry(_, rest) => EmitJumps(i, rest, k, ranges);
    case Plain(_, rest) => EmitJumps(i, rest, k, ranges);
  }

  lemma {:induction false} EmitDefault(items: Items, k: Label)
    ensures Flat(IfToIfGoto(HoistedDefault(UnloopedIn(items, k)))) == DefaultCode(items)
  {
    match items
    case End =>
    case Entry(_, rest) => EmitDefault(rest, k);
    case Plain(_, rest) => EmitDefault(rest, k);
  }

  function SwitchJumps(i: Id, items: Items): seq<Instr> {
    JumpCode(i, items, true) + (JumpCode(i, items, false) + DefaultCode(items))
  }

  lemma SwitchEmit(i: Id, e: Cond, items: Items, k: Label)
    ensures var x := UnloopedIn(items, k);
            Emit(Switch(i, e, x)) ==
            Flat(IfToIfGoto(Seq(SetValue(i, e), Seq(Hoisted(i, x, true), Seq(Hoisted(i, x, false), Seq(HoistedDefault(x), Relabelled(x)))))))
    ensures Flat(IfToIfGoto(SetValue(i, e))) == [ISet(i, e)]
  {
  }

  lemma SwitchCode(i: Id, e: Cond, items: Items, k: Label)
    ensures Code(Switch(i, e, items), k) ==
            ([ISet(i, e)] + (SwitchJumps(i, items) + ItemsCode(items, k))) + MarkCode(FreeBreaksIn(items))
  {
    hide Flat;
    hide IfToIfGoto;
    hide ItemsCode;
    hide MarkCode;
    SwitchEmit(i, e, items, k);
    var x := UnloopedIn(items, k);
    var a, b, d, f := Hoisted(i, x, true), Hoisted(i, x, false), HoistedDefault(x), Relabelled(x);
    EmitSeq(Switch(i, e, x), Marks(FreeBreaksIn(items)));
    EmitMarks(FreeBreaksIn(items));
    EmitItems(items, k);
    EmitJumps(i, items, k, true);
    EmitJumps(i, items, k, false);
    EmitDefault(items, k);
    FlatFive(SetValue(i, e), a, b, d, f);
    var u, v, w := JumpCode(i, items, true), JumpCode(i, items, false), DefaultCode(items);
    var y := ItemsCode(items, k);
    assert u + (v + (w + y)) == (u + (v + w)) + y;
  }

  lemma FlatPair(a: Stmt, b: Stmt)
    ensures Flat(IfToIfGoto(Seq(a, b))) == Flat(IfToIfGoto(a)) + Flat(IfToIfGoto(b))
  {
  }

  lemma FlatFive(z: Stmt, a: Stmt, b: Stmt, d: Stmt, f: Stmt)
    ensures Flat(IfToIfGoto(Seq(z, Seq(a, Seq(b, Seq(d, f)))))) ==
            Flat(IfToIfGoto(z)) +
            (Flat(IfToIfGoto(a)) + (Flat(IfToIfGoto(b)) + (Flat(IfToIfGoto(d)) + Flat(IfToIfGoto(f)))))
  {
    hide Flat;
    hide IfToIfGoto;
    FlatPair(d, f);
    FlatPair(b, Seq(d, f));
    FlatPair(a, Seq(b, Seq(d, f)));
    FlatPair(z, Seq(a, Seq(b, Seq(d, f))));
  }
}
