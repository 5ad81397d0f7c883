/** What the lowering passes preserve, for whole programs. */
module LowerTheorems {
  import opened Prelude
  import opened Structured
  import opened LowerPasses
  import opened LowerMachine
  import opened SwitchEntry
  import opened LowerSimulation

  // ---------- fresh labels are declared once ----------

  function IdOf(l: Label): Id {
    match l
    case BreakOf(b) => b
    case ForContinue(i) => i
    case NextOf(i) => i
    case DoContinue(i) => i
    case Then(i) => i
    case Else(i) => i
    case CaseOf(t) => t
    case DefaultOf(t) => t
  }

  function One(p: bool): nat {
    if p then 1 else 0
  }

  /** How many statements of a program carry a number. */
  function Uses(s: Stmt, id: Id): nat {
    match s
    case Seq(a, b) => Uses(a, id) + Uses(b, id)
    case If(i, _, a, b) => One(i == id) + Uses(a, id) + Uses(b, id)
    case While(i, _, b) => One(i == id) + Uses(b, id)
    case Do(i, _, b) => One(i == id) + Uses(b, id)
    case For(i, _, _, _, b) => One(i == id) + Uses(b, id)
    case Switch(i, _, items) => One(i == id) + UsesIn(items, id)
    case Break(b) => One(b == id)
    case _ => 0
  }

  function UsesIn(items: Items, id: Id): nat {
    match items
    case End => 0
    case Entry(x, rest) => One(x.t == id) + UsesIn(rest, id)
    case Plain(s, rest) => Uses(s, id) + UsesIn(rest, id)
  }

  function MarkCount(code: seq<Instr>, l: Label): nat {
    if code == [] then 0 else One(code[0] == IMark(l)) + MarkCount(code[1..], l)
  }

  function BreakCount(bs: seq<Id>, l: Label): nat {
    if bs == [] then 0 else One(l == BreakOf(bs[0])) + BreakCount(bs[1..], l)
  }

  lemma {:induction false} MarkCountAppend(a: seq<Instr>, b: seq<Instr>, l: Label)
    ensures MarkCount(a + b, l) == MarkCount(a, l) + MarkCount(b, l)
    decreases a
  {
    if a == [] {
      assert a + b == b;
    } else {
      assert (a + b)[1..] == a[1..] + b;
      MarkCountAppend(a[1..], b, l);
    }
  }

  lemma {:induction false} BreakCountAppend(a: seq<Id>, b: seq<Id>, l: Label)
    ensures BreakCount(a + b, l) == BreakCount(a, l) + BreakCount(b, l)
    decreases a
  {
    if a == [] {
      assert a + b == b;
    } else {
      assert (a + b)[1..] == a[1..] + b;
      BreakCountAppend(a[1..], b, l);
    }
  }

  lemma CountOne(i: Instr, l: Label)
    ensures MarkCount([i], l) == One(i == IMark(l))
  {
    assert MarkCount([i][1..], l) == 0;
  }

  lemma CountTwo(i: Instr, j: Instr, l: Label)
    ensures MarkCount([i, j], l) == One(i == IMark(l)) + One(j == IMark(l))
  {
    assert [i, j] == [i] + [j];
    MarkCountAppend([i], [j], l);
    CountOne(i, l);
    CountOne(j, l);
  }

  lemma {:induction false} CountMarkCode(bs: seq<Id>, l: Label)
    ensures MarkCount(MarkCode(bs), l) == BreakCount(bs, l)
  {
    if bs != [] {
      CountMarkCode(bs[1..], l);
      MarkCountAppend(MarkCode(bs[1..]), [IMark(BreakOf(bs[0]))], l);
      CountOne(IMark(BreakOf(bs[0])), l);
    }
  }

  lemma CountIf(i: Id, c: Cond, a: seq<Instr>, b: seq<Instr>, l: Label)
    ensures MarkCount(IfCode(i, c, a, b), l) == MarkCount(a, l) + MarkCount(b, l) + One(l == Then(i)) + One(l == Else(i))
  {
    hide MarkCount;
    var foot := b + [IMark(Else(i))];
    var mid := [IGoto(Else(i)), IMark(Then(i))];
    MarkCountAppend([IBranch(IsNot(c), Then(i))], a + (mid + foot), l);
    MarkCountAppend(a, mid + foot, l);
    MarkCountAppend(mid, foot, l);
    MarkCountAppend(b, [IMark(Else(i))], l);
    CountOne(IBranch(IsNot(c), Then(i)), l);
    CountTwo(IGoto(Else(i)), IMark(Then(i)), l);
    CountOne(IMark(Else(i)), l);
  }

  lemma CountLoop(i: Id, c: Cond, body: seq<Instr>, l: Label)
    ensures MarkCount(LoopCode(i, c, body), l) == MarkCount(body, l) + One(l == NextOf(i)) + One(l == DoContinue(i))
  {
    hide MarkCount;
    var foot := [IMark(DoContinue(i)), IBranch(Is(c), NextOf(i))];
    MarkCountAppend([IMark(NextOf(i))], body + foot, l);
    MarkCountAppend(body, foot, l);
    CountOne(IMark(NextOf(i)), l);
    CountTwo(foot[0], foot[1], l);
  }

  lemma CountGuarded(i: Id, c: Cond, body: seq<Instr>, bs: seq<Id>, l: Label)
    ensures MarkCount(IfCode(i, c, LoopCode(i, c, body), []) + MarkCode(bs), l) <=
            MarkCount(body, l) + BreakCount(bs, l) + One(IdOf(l) == i && !l.BreakOf? && !l.ForContinue?)
  {
    hide MarkCount;
    MarkCountAppend(IfCode(i, c, LoopCode(i, c, body), []), MarkCode(bs), l);
    CountMarkCode(bs, l);
    CountIf(i, c, LoopCode(i, c, body), [], l);
    CountLoop(i, c, body, l);
    CountNone(l);
  }

  lemma CountNone(l: Label)
    ensures MarkCount([], l) == 0 == BreakCount([], l)
  {
  }

  lemma {:induction false} CountJumps(i: Id, items: Items, ranges: bool, l: Label)
    ensures MarkCount(JumpCode(i, items, ranges), l) == 0 == MarkCount(DefaultCode(items), l)
  {
    match items
    case End =>
    case Plain(_, rest) => CountJumps(i, rest, ranges, l);
    case Entry(t, rest) =>
      CountJumps(i, rest, ranges, l);
      var own, d := OwnJump(i, t, ranges), if t.Default? then [IGoto(TargetLabel(t))] else [];
      MarkCountAppend(JumpCode(i, rest, ranges), own, l);
      MarkCountAppend(DefaultCode(rest), d, l);
      if own != [] {
        CountOne(own[0], l);
      }
      if d != [] {
        CountOne(d[0], l);
      }
  }

  /** A label is declared, or still to be declared for a free break, at most once per statement it was
      made for. */
  lemma {:induction false} CountCode(s: Stmt, k: Label, l: Label)
    requires Source(s)
    ensures MarkCount(Code(s, k), l) + BreakCount(FreeBreaks(s), l) <= Uses(s, IdOf(l))
  {
    hide MarkCount;
    hide BreakCount;
    hide Code;
    CountNone(l);
    match s
    case Act(a) => CountLeaf(s, k, l);
    case Skip => CountLeaf(s, k, l);
    case Break(b) => CountLeaf(s, k, l);
    case Continue => CountLeaf(s, k, l);
    case Seq(a, b) =>
      CountCode(a, k, l);
      CountCode(b, k, l);
      SeqCode(a, b, k);
      MarkCountAppend(Code(a, k), Code(b, k), l);
      BreakCountAppend(FreeBreaks(a), FreeBreaks(b), l);
    case If(i, c, a, b) =>
      CountCode(a, k, l);
      CountCode(b, k, l);
      IfCodeIs(i, c, a, b, k);
      CountOne(IBranch(Is(c), JumpLabel(a, k)), l);
      CountIf(i, c, Code(a, k), Code(b, k), l);
      BreakCountAppend(FreeBreaks(a), FreeBreaks(b), l);
    case While(i, c, b) =>
      CountCode(b, DoContinue(i), l);
      WhileCode(i, c, b, k);
      CountGuarded(i, c, RoundCode(i, [], b), FreeBreaks(b), l);
    case Do(i, c, b) =>
      CountCode(b, DoContinue(i), l);
      DoCode(i, c, b, k);
      MarkCountAppend(LoopCode(i, c, RoundCode(i, [], b)), MarkCode(FreeBreaks(b)), l);
      CountLoop(i, c, RoundCode(i, [], b), l);
      CountMarkCode(FreeBreaks(b), l);
    case For(i, init, c, inc, b) =>
      CountCode(b, ForContinue(i), l);
      CountFor(i, init, c, inc, b, k, l);
    case Switch(i, e, items) =>
      CountItems(items, k, l);
      CountSwitch(i, e, items, k, l);
  }

  lemma CountLeaf(s: Stmt, k: Label, l: Label)
    requires s.Act? || s.Skip? || s.Break? || s.Continue?
    ensures MarkCount(Code(s, k), l) + BreakCount(FreeBreaks(s), l) <= Uses(s, IdOf(l))
  {
    if s.Break? {
      assert BreakCount([s.b][1..], l) == 0;
      CountOne(IGoto(BreakOf(s.b)), l);
    } else if s.Act? {
      CountOne(IAct(s.a), l);
    } else if s.Continue? {
      CountOne(IGoto(k), l);
    }
  }

  lemma CountFor(i: Id, init: Action, c: Cond, inc: Action, b: Stmt, k: Label, l: Label)
    ensures MarkCount(Code(For(i, init, c, inc, b), k), l) <=
            MarkCount(Code(b, ForContinue(i)), l) + BreakCount(FreeBreaks(b), l) + One(IdOf(l) == i)
  {
    hide MarkCount;
    hide BreakCount;
    hide Code;
    hide IfCode;
    ForCode(i, init, c, inc, b, k);
    var round := RoundCode(i, [inc], b);
    var guarded, marks := IfCode(i, c, LoopCode(i, c, round), []), MarkCode(FreeBreaks(b));
    assert ([IAct(init)] + guarded) + marks == [IAct(init)] + (guarded + marks);
    MarkCountAppend([IAct(init)], guarded + marks, l);
    CountOne(IAct(init), l);
    CountGuarded(i, c, round, FreeBreaks(b), l);
    MarkCountAppend(Code(b, ForContinue(i)), [IMark(ForContinue(i)), IAct(inc)], l);
    CountTwo(IMark(ForContinue(i)), IAct(inc), l);
  }

  lemma CountSwitch(i: Id, e: Cond, items: Items, k: Label, l: Label)
    ensures MarkCount(Code(Switch(i, e, items), k), l) == MarkCount(ItemsCode(items, k), l) + BreakCount(FreeBreaksIn(items), l)
  {
    hide MarkCount;
    hide BreakCount;
    hide Code;
    hide ItemsCode;
    SwitchCode(i, e, items, k);
    var a, b, d := JumpCode(i, items, true), JumpCode(i, items, false), DefaultCode(items);
    var body, marks := ItemsCode(items, k), MarkCode(FreeBreaksIn(items));
    MarkCountAppend([ISet(i, e)] + (SwitchJumps(i, items) + body), marks, l);
    MarkCountAppend([ISet(i, e)], SwitchJumps(i, items) + body, l);
    MarkCountAppend(SwitchJumps(i, items), body, l);
    MarkCountAppend(a, b + d, l);
    MarkCountAppend(b, d, l);
    CountOne(ISet(i, e), l);
    CountJumps(i, items, true, l);
    CountJumps(i, items, false, l);
    CountMarkCode(FreeBreaksIn(items), l);
  }

  lemma {:induction false} CountItems(items: Items, k: Label, l: Label)
    requires SourceItems(items)
    ensures MarkCount(ItemsCode(items, k), l) + BreakCount(FreeBreaksIn(items), l) <= UsesIn(items, IdOf(l))
  {
    hide MarkCount;
    hide BreakCount;
    hide Code;
    match items
    case End => CountNone(l);
    case Entry(t, rest) =>
      CountItems(rest, k, l);
      MarkCountAppend([IMark(TargetLabel(t))], ItemsCode(rest, k), l);
      CountOne(IMark(TargetLabel(t)), l);
    case Plain(s, rest) =>
      CountCode(s, k, l);
      CountItems(rest, k, l);
      MarkCountAppend(Code(s, k), ItemsCode(rest, k), l);
      BreakCountAppend(FreeBreaks(s), FreeBreaksIn(rest), l);
  }

  lemma {:induction false} CountAtLeast(code: seq<Instr>, j: nat, l: Label)
    requires j < |code| && code[j] == IMark(l)
    ensures MarkCount(code, l) >= 1
  {
    if j > 0 {
      CountAtLeast(code[1..], j - 1, l);
    }
  }

  lemma CountTwice(code: seq<Instr>, i: nat, j: nat, l: Label)
    requires i < j < |code| && code[i] == code[j] == IMark(l)
    ensures MarkCount(code, l) >= 2
  {
    assert code == code[..j] + code[j..];
    MarkCountAppend(code[..j], code[j..], l);
    CountAtLeast(code[..j], i, l);
    CountAtLeast(code[j..], 0, l);
  }

  lemma UniqueByCount(code: seq<Instr>)
    requires forall l :: MarkCount(code, l) <= 1
    ensures UniqueMarks(code)
  {
    hide MarkCount;
    forall i, j | 0 <= i < j < |code| && code[i].IMark? ensures code[i] != code[j] {
      if code[i] == code[j] {
        CountTwice(code, i, j, code[i].l);
      }
    }
  }

  // ---------- the theorems ----------

  /** A complete program: numbered apart, with nothing left to break out of. */
  ghost predicate Program(s: Stmt) {
    Source(s) && SwitchesOk(s) && FreeBreaks(s) == [] && !FreeContinue(s) && NumberedApart(s)
  }

  ghost predicate NumberedApart(s: Stmt) {
    forall id :: Uses(s, id) <= 1
  }

  lemma ProgramCode(s: Stmt, k: Label)
    requires Source(s) && !FreeContinue(s) && NumberedApart(s)
    ensures Lowered(s) == Code(s, k) && UniqueMarks(Lowered(s))
  {
    LoweredIsCode(s, k);
    forall l ensures MarkCount(Lowered(s), l) <= 1 {
      CountCode(s, k, l);
      assert Uses(s, IdOf(l)) <= 1;
    }
    UniqueByCount(Lowered(s));
  }

  /** The passes, one after the other over the whole program, preserve it: a program that ends takes its
      lowered form to the end with the same data; one that is still looping after n rounds is matched,
      data included, by at least n steps, so a program that never ends has a lowered form that never ends. */
  lemma LoweringPreserves<S>(m: Interp<S>, s: Stmt, n: nat, st: S) returns (k: nat, u: MState<S>)
    requires Program(s)
    ensures Goes(m, Lowered(s), MState(0, st, map[]), k, u) && u.st == Run(m, n, s, st).st
    ensures match Run(m, n, s, st).sig
            case Normal => u.pc == |Lowered(s)|
            case Out => k >= n
            case _ => false
  {
    hide Goes;
    hide UniqueMarks;
    hide Run;
    var l := NextOf(0);
    ProgramCode(s, l);
    CodeAtWhole(Lowered(s));
    k, u := Simulate(m, Lowered(s), 0, s, l, n, MState(0, st, map[]));
    ClosedEnds(m, n, s, st);
  }

  /** A closed statement ends normally or is cut short. */
  lemma {:induction false} ClosedEnds<S>(m: Interp<S>, n: nat, s: Stmt, st: S)
    ensures FreeBreaks(s) == [] ==> !Run(m, n, s, st).sig.Broke?
    ensures !FreeContinue(s) ==> !Run(m, n, s, st).sig.Continued?
    decreases n, s, 0
  {
    match s
    case Seq(a, b) =>
      ClosedEnds(m, n, a, st);
      ClosedEnds(m, n, b, Run(m, n, a, st).st);
    case If(_, c, a, b) =>
      ClosedEnds(m, n, a, m.test(c, st).1);
      ClosedEnds(m, n, b, m.test(c, st).1);
    case While(_, c, b) => LoopCloses(m, n, c, [], b, st);
    case For(_, init, c, inc, b) => LoopCloses(m, n, c, [inc], b, m.act(init, st));
    case Do(_, c, b) =>
      if n > 0 {
        RoundCloses(m, n, c, [], b, st);
      }
    case Switch(_, e, items) =>
      var (v, u) := m.value(e, st);
      SelectSmaller(items, v);
      SelectIs(items, v);
      ItemsClose(m, n, Entered(items, v), u);
      TailContinues(items, Entered(items, v));
    case _ =>
  }

  lemma TailContinues(items: Items, x: Items)
    requires TailOf(x, items)
    ensures FreeContinueIn(x) ==> FreeContinueIn(items)
  {
  }

  lemma {:induction false} LoopCloses<S>(m: Interp<S>, n: nat, c: Cond, incs: seq<Action>, b: Stmt, st: S)
    ensures var r := RunLoop(m, n, c, incs, b, st).sig; r.Normal? || r.Out?
    decreases n, b, 2
  {
    if n > 0 {
      RoundCloses(m, n, c, incs, b, m.test(c, st).1);
    }
  }

  lemma {:induction false} RoundCloses<S>(m: Interp<S>, n: nat, c: Cond, incs: seq<Action>, b: Stmt, st: S)
    requires n > 0
    ensures var r := RunRound(m, n, c, incs, b, st).sig; r.Normal? || r.Out?
    decreases n, b, 1
  {
    var r := Run(m, n - 1, b, st);
    LoopCloses(m, n - 1, c, incs, b, RunActs(m, incs, r.st));
  }

  lemma {:induction false} ItemsClose<S>(m: Interp<S>, n: nat, items: Items, st: S)
    ensures !FreeContinueIn(items) ==> !RunItems(m, n, items, st).sig.Continued?
    decreases n, items, 0
  {
    match items
    case End =>
    case Entry(_, rest) => ItemsClose(m, n, rest, st);
    case Plain(s, rest) =>
      ClosedEnds(m, n, s, st);
      ItemsClose(m, n, rest, Run(m, n, s, st).st);
  }

  /** Conversely, when the lowered program ends, so does the program, with the same data. */
  lemma LoweringReflects<S>(m: Interp<S>, s: Stmt, st: S, j: nat, u: MState<S>)
    requires Program(s) && Goes(m, Lowered(s), MState(0, st, map[]), j, u) && u.pc == |Lowered(s)|
    ensures Run(m, j + 1, s, st) == Result(Normal, u.st)
  {
    hide Run;
    hide MStep;
    hide Program;
    var code, t := Lowered(s), MState(0, st, map[]);
    var k, w := LoweringPreserves(m, s, j + 1, st);
    if Run(m, j + 1, s, st).sig.Out? {
      EndedStays(m, code, t, j, u, k);
      assert false;
    } else {
      EndedStays(m, code, t, j, u, k);
      EndedStays(m, code, t, k, w, j);
    }
  }

  /** A switch without a default, given a value that no case takes, skips its body; its lowered form runs
      the body. */
  lemma SwitchWithoutDefault() returns (k: nat, u: MState<int>)
    ensures Run(Counting(), 0, NoDefault(), 0) == Result(Normal, 0)
    ensures Goes(Counting(), Lowered(NoDefault()), MState(0, 0, map[]), k, u)
    ensures u.pc == |Lowered(NoDefault())| && u.st == 1
  {
    hide Goes;
    hide UniqueMarks;
    hide Run;
    hide RunItems;
    hide Lowered;
    hide FitIn;
    hide Disjoint;
    hide CodeAt;
    hide Code;
    hide NumberedApart;
    NoDefaultIsFit();
    NoDefaultRuns();
    ProgramCode(NoDefault(), NextOf(0));
    CodeAtWhole(Lowered(NoDefault()));
    k, u := SwitchRuns(Counting(), Lowered(NoDefault()), 0, 0, 0, NoDefault().items, NextOf(0), 0, MState(0, 0, map[]));
  }

  lemma NoDefaultIsFit()
    ensures FitIn(NoDefault().items) && Disjoint(NoDefault().items) && !FreeContinueIn(NoDefault().items)
    ensures Source(NoDefault()) && NumberedApart(NoDefault())
  {
    var rest := Plain(Act(0), End);
    assert SourceItems(rest) && SwitchesOkIn(rest) && Disjoint(rest) && !FreeContinueIn(rest);
    forall id ensures Uses(NoDefault(), id) <= 1 {
      assert UsesIn(rest, id) == 0;
      assert UsesIn(NoDefault().items, id) == One(1 == id);
    }
    assert forall v :: Select(rest, v) == End;
  }

  lemma NoDefaultRuns()
    ensures Run(Counting(), 0, NoDefault(), 0) == Result(Normal, 0)
    ensures var items := NoDefault().items;
            Started(items, 7) == items && RunItems(Counting(), 0, items, 0) == Result(Normal, 1)
  {
    var rest := Plain(Act(0), End);
    assert Select(rest, 7) == End == SelectDefault(rest);
    assert RunItems(Counting(), 0, rest, 0) == Result(Normal, 1);
  }

  /** switch(...) { case 5: act } */
  function NoDefault(): (s: Stmt)
    ensures s.Switch?
  {
    Switch(0, 0, Entry(Case(1, 5), Plain(Act(0), End)))
  }

  /** Actions count; the switch expression is always 7. */
  function Counting(): Interp<int> {
    Interp((_, n) => n + 1, (_, n) => (true, n), (_, n) => (7, n))
  }
}
