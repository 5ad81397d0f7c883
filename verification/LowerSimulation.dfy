/** Structured execution, followed step by step by the lowered program. */
module LowerSimulation {
  import opened Prelude
  import opened Structured
  import opened LowerPasses
  import opened LowerMachine
  import opened SwitchEntry

  /** Every switch has disjoint targets and a default. */
  ghost predicate SwitchesOk(s: Stmt) {
    match s
    case Seq(a, b) => SwitchesOk(a) && SwitchesOk(b)
    case If(_, _, a, b) => SwitchesOk(a) && SwitchesOk(b)
    case While(_, _, b) => SwitchesOk(b)
    case Do(_, _, b) => SwitchesOk(b)
    case For(_, _, _, _, b) => SwitchesOk(b)
    case Switch(_, _, items) => Disjoint(items) && SelectDefault(items) != End && SwitchesOkIn(items)
    case _ => true
  }

  ghost predicate SwitchesOkIn(items: Items) {
    match items
    case End => true
    case Entry(_, rest) => SwitchesOkIn(rest)
    case Plain(s, rest) => SwitchesOk(s) && SwitchesOkIn(rest)
  }

  /** A statement that the passes accept: as the user writes it, with switches they translate right. */
  ghost predicate Fit(s: Stmt) {
    Source(s) && SwitchesOk(s)
  }

  ghost predicate FitIn(items: Items) {
    SourceItems(items) && SwitchesOkIn(items)
  }

  /** The labels that breaks and continues leave by are declared. */
  ghost predicate Exits(code: seq<Instr>, bs: seq<Id>, cont: bool, k: Label) {
    (forall b :: b in bs ==> Declared(code, BreakOf(b))) && (cont ==> Declared(code, k))
  }

  ghost predicate AtBreak(code: seq<Instr>, bs: seq<Id>, pc: nat) {
    exists b :: b in bs && AtMark(code, pc, BreakOf(b))
  }

  /** The machine stands where a result says, with the same data; a run cut short after n rounds took at
      least n steps. */
  ghost predicate Ends<S>(code: seq<Instr>, r: Result<S>, bs: seq<Id>, k: Label, fin: nat, n: nat, steps: nat, u: MState<S>) {
    u.st == r.st &&
    match r.sig
    case Normal => u.pc == fin
    case Broke => AtBreak(code, bs, u.pc)
    case Continued => AtMark(code, u.pc, k)
    case Out => steps >= n
  }

  /** A loop ends at the end of its code, or at the label of one of its breaks. */
  ghost predicate LoopEnds<S>(code: seq<Instr>, r: Result<S>, bs: seq<Id>, fin: nat, n: nat, steps: nat, u: MState<S>) {
    u.st == r.st &&
    match r.sig
    case Normal => u.pc == fin || AtBreak(code, bs, u.pc)
    case Out => steps >= n
    case _ => false
  }

  lemma ExitsSplit(code: seq<Instr>, bs: seq<Id>, cs: seq<Id>, p: bool, q: bool, k: Label)
    requires Exits(code, bs + cs, p || q, k)
    ensures Exits(code, bs, p, k) && Exits(code, cs, q, k)
  {
  }

  lemma CodeAtOne(code: seq<Instr>, at: nat, i: Instr)
    requires CodeAt(code, at, [i])
    ensures at < |code| && code[at] == i
  {
    assert code[at + 0] == [i][0];
  }

  lemma CodeAtTwo(code: seq<Instr>, at: nat, i: Instr, j: Instr)
    requires CodeAt(code, at, [i, j])
    ensures at + 1 < |code| && code[at] == i && code[at + 1] == j
  {
    assert code[at + 0] == [i, j][0];
    assert code[at + 1] == [i, j][1];
  }

  lemma SeqCode(a: Stmt, b: Stmt, k: Label)
    ensures Code(Seq(a, b), k) == Code(a, k) + Code(b, k)
  {
  }

  /** An if whose first branch leaves at once and whose second is empty is one conditional jump. */
  predicate IsJump(a: Stmt, b: Stmt) {
    (a.Break? || a.Continue?) && b.Skip?
  }

  function JumpLabel(a: Stmt, k: Label): Label {
    if a.Break? then BreakOf(a.b) else k
  }

  lemma IfCodeIs(i: Id, c: Cond, a: Stmt, b: Stmt, k: Label)
    requires Source(a) && Source(b)
    ensures Code(If(i, c, a, b), k) ==
            if IsJump(a, b) then [IBranch(Is(c), JumpLabel(a, k))] else IfCode(i, c, Code(a, k), Code(b, k))
  {
    EmitIf(i, c, Unlooped(a, k), Unlooped(b, k));
  }

  lemma AtBreakIn(code: seq<Instr>, pc: nat, bs: seq<Id>, cs: seq<Id>)
    requires AtBreak(code, bs, pc) && forall b :: b in bs ==> b in cs
    ensures AtBreak(code, cs, pc)
  {
  }

  // ---------- leaving a breakable construct ----------

  /** From any break's label, or from the first of them, control reaches the end of the construct. */
  lemma LeaveMarks<S>(m: Interp<S>, code: seq<Instr>, at: nat, bs: seq<Id>, t: MState<S>) returns (n: nat)
    requires UniqueMarks(code) && CodeAt(code, at, MarkCode(bs)) && (t.pc == at || AtBreak(code, bs, t.pc))
    ensures Goes(m, code, t, n, t.(pc := at + |MarkCode(bs)|))
  {
    hide Goes;
    var part := MarkCode(bs);
    MarkCodeIs(bs);
    if t.pc != at {
      var b :| b in bs && AtMark(code, t.pc, BreakOf(b));
      var j :| 0 <= j < |part| && part[j] == IMark(BreakOf(b));
      assert code[at + j] == part[j];
      SameMark(code, BreakOf(b), t.pc, at + j);
    }
    assert at <= t.pc <= at + |part|;
    forall j | t.pc <= j < at + |part| ensures code[j].IMark? {
      assert code[at + (j - at)] == part[j - at];
    }
    n := at + |part| - t.pc;
    Walk(m, code, t, n);
  }

  lemma MarksDeclared(code: seq<Instr>, at: nat, bs: seq<Id>, k: Label)
    requires CodeAt(code, at, MarkCode(bs))
    ensures Exits(code, bs, false, k)
  {
    var part := MarkCode(bs);
    MarkCodeIs(bs);
    forall b | b in bs ensures Declared(code, BreakOf(b)) {
      var j :| 0 <= j < |part| && part[j] == IMark(BreakOf(b));
      assert code[at + j] == part[j];
      assert AtMark(code, at + j, BreakOf(b));
    }
  }

  /** A goto, and the label it goes to. */
  lemma JumpOver<S>(m: Interp<S>, code: seq<Instr>, l: Label, to: nat, t: MState<S>)
    requires UniqueMarks(code) && AtMark(code, to, l) && t.pc < |code| && code[t.pc] == IGoto(l)
    ensures Goes(m, code, t, 2, t.(pc := to + 1))
  {
    hide Goes;
    hide UniqueMarks;
    var u := Leap(m, code, t, l);
    SameMark(code, l, u.pc, to);
    Walk(m, code, u, 1);
    Chain(m, code, t, 1, u, 1, u.(pc := to + 1));
  }

  // ---------- loops ----------

  /** Where a loop's code has its test. */
  function TestPc(at: nat, i: Id, incs: seq<Action>, b: Stmt): nat {
    at + 1 + |RoundCode(i, incs, b)| + 1
  }

  function LoopLength(i: Id, incs: seq<Action>, b: Stmt): nat {
    1 + |RoundCode(i, incs, b)| + 2
  }

  ghost predicate LoopAt(code: seq<Instr>, at: nat, i: Id, c: Cond, incs: seq<Action>, b: Stmt) {
    |incs| <= 1 && UniqueMarks(code) && CodeAt(code, at, LoopCode(i, c, RoundCode(i, incs, b))) && Exits(code, FreeBreaks(b), false, NextOf(i))
  }

  lemma LoopParts(code: seq<Instr>, at: nat, i: Id, c: Cond, incs: seq<Action>, b: Stmt)
    requires LoopAt(code, at, i, c, incs, b)
    ensures AtMark(code, at, NextOf(i)) && CodeAt(code, at + 1, RoundCode(i, incs, b))
    ensures var p := TestPc(at, i, incs, b);
            p < |code| && AtMark(code, p - 1, DoContinue(i)) && code[p] == IBranch(Is(c), NextOf(i))
    ensures |LoopCode(i, c, RoundCode(i, incs, b))| == LoopLength(i, incs, b)
  {
    hide UniqueMarks;
    hide Code;
    hide CodeAt;
    hide Exits;
    var round := RoundCode(i, incs, b);
    var foot := [IMark(DoContinue(i)), IBranch(Is(c), NextOf(i))];
    CodeAtSplit(code, at, [IMark(NextOf(i))], round + foot);
    CodeAtSplit(code, at + 1, round, foot);
    CodeAtOne(code, at, IMark(NextOf(i)));
    CodeAtTwo(code, at + 1 + |round|, foot[0], foot[1]);
  }

  /** The end of a round of a for loop. */
  lemma ForFoot(code: seq<Instr>, at: nat, i: Id, incs: seq<Action>, b: Stmt)
    requires |incs| == 1 && CodeAt(code, at, RoundCode(i, incs, b))
    ensures var body := Code(b, ForContinue(i));
            && CodeAt(code, at, body) && AtMark(code, at + |body|, ForContinue(i))
            && at + |body| + 1 < |code| && code[at + |body| + 1] == IAct(incs[0]) && |RoundCode(i, incs, b)| == |body| + 2
  {
    hide Code;
    hide CodeAt;
    var body, foot := Code(b, ForContinue(i)), [IMark(ForContinue(i)), IAct(incs[0])];
    CodeAtSplit(code, at, body, foot);
    CodeAtTwo(code, at + |body|, foot[0], foot[1]);
  }

  /** The end of a round, from the end of the body or from a continue, to the loop's test. */
  lemma FinishRound<S>(m: Interp<S>, code: seq<Instr>, at: nat, i: Id, c: Cond, incs: seq<Action>, b: Stmt, t: MState<S>)
    returns (n: nat)
    requires LoopAt(code, at, i, c, incs, b)
    requires var k := if incs == [] then DoContinue(i) else ForContinue(i);
             t.pc == at + 1 + |Code(b, k)| || AtMark(code, t.pc, k)
    ensures Goes(m, code, t, n, t.(pc := TestPc(at, i, incs, b), st := RunActs(m, incs, t.st)))
  {
    hide Goes;
    hide Code;
    hide Exits;
    hide UniqueMarks;
    hide CodeAt;
    hide LoopCode;
    LoopParts(code, at, i, c, incs, b);
    var p := TestPc(at, i, incs, b);
    if incs == [] {
      if AtMark(code, t.pc, DoContinue(i)) {
        SameMark(code, DoContinue(i), t.pc, p - 1);
      }
      Walk(m, code, t, 1);
      n := 1;
    } else {
      ForFoot(code, at + 1, i, incs, b);
      if AtMark(code, t.pc, ForContinue(i)) {
        SameMark(code, ForContinue(i), t.pc, p - 3);
      }
      Walk(m, code, t, 1);
      var u := t.(pc := p - 2);
      var w := t.(pc := p - 1, st := m.act(incs[0], t.st));
      assert RunActs(m, incs, t.st) == w.st;
      OneStep(m, code, u, w);
      Walk(m, code, w, 1);
      Chain(m, code, t, 1, u, 1, w);
      Chain(m, code, t, 2, w, 1, w.(pc := p));
      n := 3;
    }
  }

  /** A loop at its test. */
  lemma {:induction false} AtTest<S>(m: Interp<S>, code: seq<Instr>, at: nat, i: Id, c: Cond, incs: seq<Action>, b: Stmt, n: nat, t: MState<S>)
    returns (steps: nat, u: MState<S>)
    requires Fit(b) && LoopAt(code, at, i, c, incs, b) && t.pc == TestPc(at, i, incs, b)
    ensures Goes(m, code, t, steps, u)
    ensures LoopEnds(code, RunLoop(m, n, c, incs, b, t.st), FreeBreaks(b), at + LoopLength(i, incs, b), n, steps, u)
    decreases n, b, 2
  {
    hide Goes;
    hide Run;
    hide RunRound;
    hide UniqueMarks;
    hide CodeAt;
    hide Exits;
    hide AtBreak;
    LoopParts(code, at, i, c, incs, b);
    steps, u := 0, t;
    Stay(m, code, t);
    if n > 0 {
      if m.test(c, t.st).0 {
        assert AtMark(code, at, NextOf(i));
        var w := Leap(m, code, t, NextOf(i));
        SameMark(code, NextOf(i), w.pc, at);
        steps, u := AtRound(m, code, at, i, c, incs, b, n, w);
        Chain(m, code, t, 1, w, steps, u);
        steps := steps + 1;
      } else {
        u := Pass(m, code, t);
        steps := 1;
      }
    }
  }

  /** A loop at the start of a round. */
  lemma {:induction false} AtRound<S>(m: Interp<S>, code: seq<Instr>, at: nat, i: Id, c: Cond, incs: seq<Action>, b: Stmt, n: nat, t: MState<S>)
    returns (steps: nat, u: MState<S>)
    requires n > 0 && Fit(b) && LoopAt(code, at, i, c, incs, b) && t.pc == at
    ensures Goes(m, code, t, steps, u)
    ensures LoopEnds(code, RunRound(m, n, c, incs, b, t.st), FreeBreaks(b), at + LoopLength(i, incs, b), n, steps, u)
    decreases n, b, 1
  {
    hide Goes;
    hide Run;
    hide RunLoop;
    hide UniqueMarks;
    hide CodeAt;
    hide AtBreak;
    hide Code;
    LoopParts(code, at, i, c, incs, b);
    var k := if incs == [] then DoContinue(i) else ForContinue(i);
    var w := t.(pc := at + 1);
    Walk(m, code, t, 1);
    RoundBody(code, at, i, c, incs, b);
    var j, x := Simulate(m, code, at + 1, b, k, n - 1, w);
    Chain(m, code, t, 1, w, j, x);
    steps, u := j + 1, x;
    var r := Run(m, n - 1, b, t.st);
    if r.sig.Normal? || r.sig.Continued? {
      var f := FinishRound(m, code, at, i, c, incs, b, x);
      var y := x.(pc := TestPc(at, i, incs, b), st := RunActs(m, incs, x.st));
      var g, z := AtTest(m, code, at, i, c, incs, b, n - 1, y);
      Chain(m, code, t, j + 1, x, f, y);
      Chain(m, code, t, j + 1 + f, y, g, z);
      steps, u := j + 1 + f + g, z;
    }
  }

  /** The body of a loop is in place, and its continues have their label. */
  lemma RoundBody(code: seq<Instr>, at: nat, i: Id, c: Cond, incs: seq<Action>, b: Stmt)
    requires LoopAt(code, at, i, c, incs, b)
    ensures var k := if incs == [] then DoContinue(i) else ForContinue(i);
            CodeAt(code, at + 1, Code(b, k)) && Exits(code, FreeBreaks(b), FreeContinue(b), k)
  {
    hide Code;
    hide UniqueMarks;
    hide CodeAt;
    hide Exits;
    hide FreeBreaks;
    hide FreeContinue;
    hide LoopCode;
    LoopParts(code, at, i, c, incs, b);
    var p := TestPc(at, i, incs, b);
    if incs == [] {
      ExitsVia(code, FreeBreaks(b), NextOf(i), FreeContinue(b), DoContinue(i), p - 1);
    } else {
      ForFoot(code, at + 1, i, incs, b);
      ExitsVia(code, FreeBreaks(b), NextOf(i), FreeContinue(b), ForContinue(i), p - 3);
    }
  }

  lemma ExitsVia(code: seq<Instr>, bs: seq<Id>, l: Label, cont: bool, k: Label, pc: nat)
    requires Exits(code, bs, false, l) && AtMark(code, pc, k)
    ensures Exits(code, bs, cont, k)
  {
  }

  /** A loop behind its first test, as while and for loops are: if( c ) do ... while( c ). */
  lemma AtFirstTest<S>(m: Interp<S>, code: seq<Instr>, at: nat, i: Id, c: Cond, incs: seq<Action>, b: Stmt, n: nat, t: MState<S>)
    returns (steps: nat, u: MState<S>)
    requires Fit(b) && |incs| <= 1 && UniqueMarks(code) && t.pc == at
    requires CodeAt(code, at, IfCode(i, c, LoopCode(i, c, RoundCode(i, incs, b)), []) + MarkCode(FreeBreaks(b)))
    ensures Goes(m, code, t, steps, u)
    ensures var fin := at + |IfCode(i, c, LoopCode(i, c, RoundCode(i, incs, b)), []) + MarkCode(FreeBreaks(b))|;
            LoopEnds(code, RunLoop(m, n, c, incs, b, t.st), [], fin, n, steps, u)
    decreases n, b, 3
  {
    hide Goes;
    hide Run;
    hide RunRound;
    hide UniqueMarks;
    hide CodeAt;
    hide AtBreak;
    hide RoundCode;
    var bs, loop := FreeBreaks(b), LoopCode(i, c, RoundCode(i, incs, b));
    var q := at + 1 + |loop|;
    GuardedParts(code, at, i, c, incs, b);
    steps, u := 0, t;
    Stay(m, code, t);
    if n > 0 {
      if m.test(c, t.st).0 {
        var w := Pass(m, code, t);
        var j, x := AtRound(m, code, at + 1, i, c, incs, b, n, w);
        Chain(m, code, t, 1, w, j, x);
        steps, u := j + 1, x;
        LoopParts(code, at + 1, i, c, incs, b);
        if RunLoop(m, n, c, incs, b, t.st).sig.Normal? {
          var f := LeaveGuarded(m, code, q, i, bs, x);
          var y := x.(pc := q + 3 + |MarkCode(bs)|);
          Chain(m, code, t, j + 1, x, f, y);
          steps, u := j + 1 + f, y;
        }
      } else {
        assert AtMark(code, q + 1, Then(i));
        var w := Leap(m, code, t, Then(i));
        SameMark(code, Then(i), w.pc, q + 1);
        var f := LeaveGuarded(m, code, q, i, bs, w);
        var y := w.(pc := q + 3 + |MarkCode(bs)|);
        Chain(m, code, t, 1, w, f, y);
        steps, u := 1 + f, y;
      }
    }
  }

  lemma GuardedParts(code: seq<Instr>, at: nat, i: Id, c: Cond, incs: seq<Action>, b: Stmt)
    requires |incs| <= 1 && UniqueMarks(code)
    requires CodeAt(code, at, IfCode(i, c, LoopCode(i, c, RoundCode(i, incs, b)), []) + MarkCode(FreeBreaks(b)))
    ensures at < |code| && code[at] == IBranch(IsNot(c), Then(i))
    ensures LoopAt(code, at + 1, i, c, incs, b)
    ensures var loop := LoopCode(i, c, RoundCode(i, incs, b));
            var q := at + 1 + |loop|;
            && GuardEnd(code, q, i, FreeBreaks(b))
            && |IfCode(i, c, loop, []) + MarkCode(FreeBreaks(b))| == 1 + |loop| + 3 + |MarkCode(FreeBreaks(b))|
  {
    hide UniqueMarks;
    hide CodeAt;
    hide LoopCode;
    hide IfCode;
    hide Exits;
    hide FreeBreaks;
    hide MarkCode;
    hide RoundCode;
    var loop := LoopCode(i, c, RoundCode(i, incs, b));
    CodeAtSplit(code, at, IfCode(i, c, loop, []), MarkCode(FreeBreaks(b)));
    IfParts(code, at, i, c, loop, []);
    MarksDeclared(code, at + |loop| + 4, FreeBreaks(b), NextOf(i));
  }

  /** goto ELSE; THEN: ELSE: and the labels of the breaks. */
  ghost predicate GuardEnd(code: seq<Instr>, q: nat, i: Id, bs: seq<Id>) {
    && q + 2 < |code| && code[q] == IGoto(Else(i)) && code[q + 1] == IMark(Then(i)) && code[q + 2] == IMark(Else(i))
    && CodeAt(code, q + 3, MarkCode(bs))
  }

  lemma LeaveGuarded<S>(m: Interp<S>, code: seq<Instr>, q: nat, i: Id, bs: seq<Id>, t: MState<S>) returns (n: nat)
    requires UniqueMarks(code) && GuardEnd(code, q, i, bs)
    requires t.pc == q || t.pc == q + 1 || AtBreak(code, bs, t.pc)
    ensures Goes(m, code, t, n, t.(pc := q + 3 + |MarkCode(bs)|))
  {
    hide Goes;
    hide CodeAt;
    hide AtBreak;
    var u := t.(pc := q + 3);
    var fin := t.(pc := q + 3 + |MarkCode(bs)|);
    if AtBreak(code, bs, t.pc) {
      n := LeaveMarks(m, code, q + 3, bs, t);
    } else {
      var f := LeaveMarks(m, code, q + 3, bs, u);
      if t.pc == q {
        JumpOver(m, code, Else(i), q + 2, t);
      } else {
        Walk(m, code, t, 2);
      }
      Chain(m, code, t, 2, u, f, fin);
      n := 2 + f;
    }
  }

  // ---------- statements ----------

  /** The lowered code does what the statement does, from its first instruction. */
  lemma {:induction false} Simulate<S>(m: Interp<S>, code: seq<Instr>, at: nat, s: Stmt, k: Label, n: nat, t: MState<S>)
    returns (steps: nat, u: MState<S>)
    requires Fit(s) && UniqueMarks(code) && CodeAt(code, at, Code(s, k)) && Exits(code, FreeBreaks(s), FreeContinue(s), k)
    requires t.pc == at
    ensures Goes(m, code, t, steps, u)
    ensures Ends(code, Run(m, n, s, t.st), FreeBreaks(s), k, at + |Code(s, k)|, n, steps, u)
    decreases n, s, 2
  {
    hide Goes;
    hide UniqueMarks;
    hide CodeAt;
    hide AtBreak;
    hide Code;
    hide RunLoop;
    hide RunRound;
    match s
    case Act(a) => steps, u := SimulateLeaf(m, code, at, s, k, n, t);
    case Skip => steps, u := SimulateLeaf(m, code, at, s, k, n, t);
    case Break(b) => steps, u := SimulateLeaf(m, code, at, s, k, n, t);
    case Continue => steps, u := SimulateLeaf(m, code, at, s, k, n, t);
    case Seq(a, b) => steps, u := SimulateSeq(m, code, at, a, b, k, n, t);
    case If(i, c, a, b) => steps, u := SimulateIf(m, code, at, i, c, a, b, k, n, t);
    case While(i, c, b) =>
      WhileCode(i, c, b, k);
      steps, u := AtFirstTest(m, code, at, i, c, [], b, n, t);
      LoopIsStatement(code, m, n, c, [], b, t.st, k, at + |Code(s, k)|, steps, u);
    case For(i, init, c, inc, b) => steps, u := SimulateFor(m, code, at, i, init, c, inc, b, k, n, t);
    case Do(i, c, b) => steps, u := SimulateDo(m, code, at, i, c, b, k, n, t);
    case Switch(i, e, items) => steps, u := SimulateSwitch(m, code, at, i, e, items, k, n, t);
  }

  lemma LoopIsStatement<S>(code: seq<Instr>, m: Interp<S>, n: nat, c: Cond, incs: seq<Action>, b: Stmt, st: S, k: Label, fin: nat, steps: nat, u: MState<S>)
    requires LoopEnds(code, RunLoop(m, n, c, incs, b, st), [], fin, n, steps, u)
    ensures Ends(code, RunLoop(m, n, c, incs, b, st), [], k, fin, n, steps, u)
  {
    hide RunLoop;
  }

  lemma SimulateLeaf<S>(m: Interp<S>, code: seq<Instr>, at: nat, s: Stmt, k: Label, n: nat, t: MState<S>)
    returns (steps: nat, u: MState<S>)
    requires s.Act? || s.Skip? || s.Break? || s.Continue?
    requires UniqueMarks(code) && CodeAt(code, at, Code(s, k)) && Exits(code, FreeBreaks(s), FreeContinue(s), k) && t.pc == at
    ensures Goes(m, code, t, steps, u)
    ensures Ends(code, Run(m, n, s, t.st), FreeBreaks(s), k, at + |Code(s, k)|, n, steps, u)
  {
    hide Goes;
    hide UniqueMarks;
    hide CodeAt;
    hide Declared;
    match s
    case Act(a) =>
      CodeAtOne(code, at, IAct(a));
      steps, u := 1, t.(pc := at + 1, st := m.act(a, t.st));
      OneStep(m, code, t, u);
    case Skip =>
      steps, u := 0, t;
      Stay(m, code, t);
    case Break(b) =>
      CodeAtOne(code, at, IGoto(BreakOf(b)));
      assert b in FreeBreaks(s);
      u := Leap(m, code, t, BreakOf(b));
      steps := 1;
    case Continue =>
      CodeAtOne(code, at, IGoto(k));
      u := Leap(m, code, t, k);
      steps := 1;
  }

  lemma {:induction false} SimulateSeq<S>(m: Interp<S>, code: seq<Instr>, at: nat, a: Stmt, b: Stmt, k: Label, n: nat, t: MState<S>)
    returns (steps: nat, u: MState<S>)
    requires Fit(a) && Fit(b) && UniqueMarks(code) && CodeAt(code, at, Code(Seq(a, b), k))
    requires Exits(code, FreeBreaks(Seq(a, b)), FreeContinue(Seq(a, b)), k) && t.pc == at
    ensures Goes(m, code, t, steps, u)
    ensures var s := Seq(a, b); Ends(code, Run(m, n, s, t.st), FreeBreaks(s), k, at + |Code(s, k)|, n, steps, u)
    decreases n, Seq(a, b), 1
  {
    hide Goes;
    hide UniqueMarks;
    hide CodeAt;
    hide AtBreak;
    hide Code;
    hide Declared;
    hide Fit;
    SeqCode(a, b, k);
    CodeAtSplit(code, at, Code(a, k), Code(b, k));
    steps, u := Simulate(m, code, at, a, k, n, t);
    var r := Run(m, n, a, t.st);
    if r.sig.Normal? {
      var j, w := Simulate(m, code, u.pc, b, k, n, u);
      Chain(m, code, t, steps, u, j, w);
      steps, u := steps + j, w;
      if Run(m, n, b, r.st).sig.Broke? {
        AtBreakIn(code, u.pc, FreeBreaks(b), FreeBreaks(Seq(a, b)));
      }
    } else if r.sig.Broke? {
      AtBreakIn(code, u.pc, FreeBreaks(a), FreeBreaks(Seq(a, b)));
    }
  }

  lemma {:induction false} SimulateIf<S>(m: Interp<S>, code: seq<Instr>, at: nat, i: Id, c: Cond, a: Stmt, b: Stmt, k: Label, n: nat, t: MState<S>)
    returns (steps: nat, u: MState<S>)
    requires Fit(a) && Fit(b) && UniqueMarks(code) && CodeAt(code, at, Code(If(i, c, a, b), k))
    requires Exits(code, FreeBreaks(If(i, c, a, b)), FreeContinue(If(i, c, a, b)), k) && t.pc == at
    ensures Goes(m, code, t, steps, u)
    ensures var s := If(i, c, a, b); Ends(code, Run(m, n, s, t.st), FreeBreaks(s), k, at + |Code(s, k)|, n, steps, u)
    decreases n, If(i, c, a, b), 1
  {
    hide Goes;
    hide UniqueMarks;
    hide CodeAt;
    hide AtBreak;
    hide Code;
    hide Declared;
    IfCodeIs(i, c, a, b, k);
    if IsJump(a, b) {
      steps, u := SimulateJump(m, code, at, i, c, a, k, n, t);
    } else {
      IfParts(code, at, i, c, Code(a, k), Code(b, k));
      if m.test(c, t.st).0 {
        steps, u := SimulateThen(m, code, at, i, c, a, b, k, n, t);
      } else {
        steps, u := SimulateElse(m, code, at, i, c, a, b, k, n, t);
      }
    }
  }

  /** The code of an if, in place. */
  ghost predicate IfAt(code: seq<Instr>, at: nat, i: Id, c: Cond, a: Stmt, b: Stmt, k: Label) {
    var p := at + 1 + |Code(a, k)|;
    && Fit(a) && Fit(b) && UniqueMarks(code)
    && at < |code| && code[at] == IBranch(IsNot(c), Then(i)) && CodeAt(code, at + 1, Code(a, k))
    && p < |code| && code[p] == IGoto(Else(i)) && AtMark(code, p + 1, Then(i)) && CodeAt(code, p + 2, Code(b, k))
    && AtMark(code, p + 2 + |Code(b, k)|, Else(i))
    && Exits(code, FreeBreaks(a) + FreeBreaks(b), FreeContinue(a) || FreeContinue(b), k)
  }

  lemma {:induction false} SimulateThen<S>(m: Interp<S>, code: seq<Instr>, at: nat, i: Id, c: Cond, a: Stmt, b: Stmt, k: Label, n: nat, t: MState<S>)
    returns (steps: nat, u: MState<S>)
    requires IfAt(code, at, i, c, a, b, k) && t.pc == at && m.test(c, t.st).0
    ensures Goes(m, code, t, steps, u)
    ensures Ends(code, Run(m, n, a, m.test(c, t.st).1), FreeBreaks(a) + FreeBreaks(b), k, at + |Code(a, k)| + |Code(b, k)| + 4, n, steps, u)
    decreases n, If(i, c, a, b), 0
  {
    hide Goes;
    hide UniqueMarks;
    hide CodeAt;
    hide AtBreak;
    hide Code;
    hide Declared;
    hide Run;
    hide IfAt;
    IfAtThen(code, at, i, c, a, b, k);
    hide Fit;
    hide Exits;
    hide FreeBreaks;
    hide FreeContinue;
    var fin := at + 3 + |Code(a, k)| + |Code(b, k)|;
    var w := MState(at + 1, m.test(c, t.st).1, t.values);
    Enter(m, code, i, c, t);
    var j, x := Simulate(m, code, at + 1, a, k, n, w);
    Chain(m, code, t, 1, w, j, x);
    steps, u := j + 1, x;
    var r := Run(m, n, a, w.st);
    if r.sig.Normal? {
      JumpOver(m, code, Else(i), fin, x);
      var y := x.(pc := fin + 1);
      Chain(m, code, t, j + 1, x, 2, y);
      steps, u := j + 3, y;
    } else if r.sig.Broke? {
      AtBreakIn(code, u.pc, FreeBreaks(a), FreeBreaks(a) + FreeBreaks(b));
    }
  }

  /** The parts of an if that its first branch uses. */
  lemma IfAtThen(code: seq<Instr>, at: nat, i: Id, c: Cond, a: Stmt, b: Stmt, k: Label)
    requires IfAt(code, at, i, c, a, b, k)
    ensures Fit(a) && UniqueMarks(code) && at < |code| && code[at] == IBranch(IsNot(c), Then(i)) && CodeAt(code, at + 1, Code(a, k))
    ensures var p := at + 1 + |Code(a, k)|;
            p < |code| && code[p] == IGoto(Else(i)) && AtMark(code, p + 2 + |Code(b, k)|, Else(i))
    ensures Exits(code, FreeBreaks(a), FreeContinue(a), k)
  {
    hide UniqueMarks;
    hide Code;
    hide CodeAt;
    ExitsSplit(code, FreeBreaks(a), FreeBreaks(b), FreeContinue(a), FreeContinue(b), k);
  }

  /** The test of an if that holds. */
  lemma Enter<S>(m: Interp<S>, code: seq<Instr>, i: Id, c: Cond, t: MState<S>)
    requires t.pc < |code| && code[t.pc] == IBranch(IsNot(c), Then(i)) && m.test(c, t.st).0
    ensures Goes(m, code, t, 1, MState(t.pc + 1, m.test(c, t.st).1, t.values))
  {
    var u := Pass(m, code, t);
  }

  lemma {:induction false} SimulateElse<S>(m: Interp<S>, code: seq<Instr>, at: nat, i: Id, c: Cond, a: Stmt, b: Stmt, k: Label, n: nat, t: MState<S>)
    returns (steps: nat, u: MState<S>)
    requires IfAt(code, at, i, c, a, b, k) && t.pc == at && !m.test(c, t.st).0
    ensures Goes(m, code, t, steps, u)
    ensures Ends(code, Run(m, n, b, m.test(c, t.st).1), FreeBreaks(a) + FreeBreaks(b), k, at + |Code(a, k)| + |Code(b, k)| + 4, n, steps, u)
    decreases n, If(i, c, a, b), 0
  {
    hide Goes;
    hide UniqueMarks;
    hide CodeAt;
    hide AtBreak;
    hide Code;
    hide Declared;
    hide Run;
    hide Fit;
    hide Exits;
    hide FreeBreaks;
    hide FreeContinue;
    ExitsSplit(code, FreeBreaks(a), FreeBreaks(b), FreeContinue(a), FreeContinue(b), k);
    var q := at + 3 + |Code(a, k)|;
    var fin := q + |Code(b, k)|;
    AtMarkDeclares(code, q - 1, Then(i));
    var w := Leap(m, code, t, Then(i));
    SameMark(code, Then(i), w.pc, q - 1);
    Walk(m, code, w, 1);
    var w' := w.(pc := q);
    Chain(m, code, t, 1, w, 1, w');
    var j, x := Simulate(m, code, q, b, k, n, w');
    Chain(m, code, t, 2, w', j, x);
    steps, u := j + 2, x;
    var r := Run(m, n, b, w.st);
    if r.sig.Normal? {
      Walk(m, code, x, 1);
      Chain(m, code, t, steps, x, 1, x.(pc := fin + 1));
      steps, u := steps + 1, x.(pc := fin + 1);
    } else if r.sig.Broke? {
      AtBreakIn(code, u.pc, FreeBreaks(b), FreeBreaks(a) + FreeBreaks(b));
    }
  }

  lemma AtMarkDeclares(code: seq<Instr>, pc: nat, l: Label)
    requires AtMark(code, pc, l)
    ensures Declared(code, l)
  {
  }

  lemma IfParts(code: seq<Instr>, at: nat, i: Id, c: Cond, a: seq<Instr>, b: seq<Instr>)
    requires CodeAt(code, at, IfCode(i, c, a, b))
    ensures at < |code| && code[at] == IBranch(IsNot(c), Then(i)) && CodeAt(code, at + 1, a)
    ensures var p := at + 1 + |a|;
            p + 1 < |code| && code[p] == IGoto(Else(i)) && AtMark(code, p + 1, Then(i)) && CodeAt(code, p + 2, b) &&
            AtMark(code, p + 2 + |b|, Else(i))
    ensures |IfCode(i, c, a, b)| == |a| + |b| + 4
  {
    hide CodeAt;
    var foot := b + [IMark(Else(i))];
    var mid := [IGoto(Else(i)), IMark(Then(i))];
    CodeAtSplit(code, at, [IBranch(IsNot(c), Then(i))], a + (mid + foot));
    CodeAtSplit(code, at + 1, a, mid + foot);
    CodeAtSplit(code, at + 1 + |a|, mid, foot);
    CodeAtSplit(code, at + 3 + |a|, b, [IMark(Else(i))]);
    CodeAtOne(code, at, IBranch(IsNot(c), Then(i)));
    CodeAtTwo(code, at + 1 + |a|, mid[0], mid[1]);
    CodeAtOne(code, at + 3 + |a| + |b|, IMark(Else(i)));
  }

  lemma SimulateJump<S>(m: Interp<S>, code: seq<Instr>, at: nat, i: Id, c: Cond, a: Stmt, k: Label, n: nat, t: MState<S>)
    returns (steps: nat, u: MState<S>)
    requires (a.Break? || a.Continue?) && UniqueMarks(code) && CodeAt(code, at, [IBranch(Is(c), JumpLabel(a, k))]) && t.pc == at
    requires Exits(code, FreeBreaks(If(i, c, a, Skip)), FreeContinue(If(i, c, a, Skip)), k)
    ensures Goes(m, code, t, steps, u)
    ensures var s := If(i, c, a, Skip); Ends(code, Run(m, n, s, t.st), FreeBreaks(s), k, at + 1, n, steps, u)
  {
    hide Goes;
    hide UniqueMarks;
    hide CodeAt;
    hide Declared;
    CodeAtOne(code, at, IBranch(Is(c), JumpLabel(a, k)));
    steps := 1;
    if m.test(c, t.st).0 {
      if a.Break? {
        assert a.b in FreeBreaks(If(i, c, a, Skip));
      }
      u := Leap(m, code, t, JumpLabel(a, k));
    } else {
      u := Pass(m, code, t);
    }
  }

  lemma {:induction false} SimulateFor<S>(m: Interp<S>, code: seq<Instr>, at: nat, i: Id, init: Action, c: Cond, inc: Action, b: Stmt, k: Label, n: nat, t: MState<S>)
    returns (steps: nat, u: MState<S>)
    requires Fit(b) && UniqueMarks(code) && CodeAt(code, at, Code(For(i, init, c, inc, b), k)) && t.pc == at
    ensures Goes(m, code, t, steps, u)
    ensures var s := For(i, init, c, inc, b); Ends(code, Run(m, n, s, t.st), FreeBreaks(s), k, at + |Code(s, k)|, n, steps, u)
    decreases n, For(i, init, c, inc, b), 1
  {
    hide Goes;
    hide UniqueMarks;
    hide CodeAt;
    hide Code;
    hide Fit;
    hide RunLoop;
    hide IfCode;
    ForCode(i, init, c, inc, b, k);
    var guarded, marks := IfCode(i, c, LoopCode(i, c, RoundCode(i, [inc], b)), []), MarkCode(FreeBreaks(b));
    assert ([IAct(init)] + guarded) + marks == [IAct(init)] + (guarded + marks);
    CodeAtSplit(code, at, [IAct(init)], guarded + marks);
    CodeAtOne(code, at, IAct(init));
    var w := t.(pc := at + 1, st := m.act(init, t.st));
    OneStep(m, code, t, w);
    steps, u := AtFirstTest(m, code, at + 1, i, c, [inc], b, n, w);
    LoopIsStatement(code, m, n, c, [inc], b, w.st, k, at + |Code(For(i, init, c, inc, b), k)|, steps, u);
    Chain(m, code, t, 1, w, steps, u);
    steps := steps + 1;
  }

  lemma {:induction false} SimulateDo<S>(m: Interp<S>, code: seq<Instr>, at: nat, i: Id, c: Cond, b: Stmt, k: Label, n: nat, t: MState<S>)
    returns (steps: nat, u: MState<S>)
    requires Fit(b) && UniqueMarks(code) && CodeAt(code, at, Code(Do(i, c, b), k)) && t.pc == at
    ensures Goes(m, code, t, steps, u)
    ensures var s := Do(i, c, b); Ends(code, Run(m, n, s, t.st), FreeBreaks(s), k, at + |Code(s, k)|, n, steps, u)
    decreases n, Do(i, c, b), 1
  {
    hide Goes;
    hide UniqueMarks;
    hide CodeAt;
    hide Code;
    hide Fit;
    hide RunRound;
    hide LoopCode;
    DoCode(i, c, b, k);
    var loop, bs := LoopCode(i, c, RoundCode(i, [], b)), FreeBreaks(b);
    CodeAtSplit(code, at, loop, MarkCode(bs));
    MarksDeclared(code, at + |loop|, bs, NextOf(i));
    LoopParts(code, at, i, c, [], b);
    steps, u := 0, t;
    Stay(m, code, t);
    if n > 0 {
      steps, u := AtRound(m, code, at, i, c, [], b, n, t);
      if RunRound(m, n, c, [], b, t.st).sig.Normal? {
        var f := LeaveMarks(m, code, at + |loop|, bs, u);
        var w := u.(pc := at + |loop| + |MarkCode(bs)|);
        Chain(m, code, t, steps, u, f, w);
        steps, u := steps + f, w;
      }
    }
  }

  /** Where a lowered switch starts: with nothing selected it runs its whole body. */
  function Started(items: Items, v: int): Items {
    if Entered(items, v) == End then items else Entered(items, v)
  }

  /** A break ends the switch. */
  function SwitchEnds<S>(r: Result<S>): Result<S> {
    if r.sig.Broke? then r.(sig := Normal) else r
  }

  lemma {:induction false} SimulateSwitch<S>(m: Interp<S>, code: seq<Instr>, at: nat, i: Id, e: Cond, items: Items, k: Label, n: nat, t: MState<S>)
    returns (steps: nat, u: MState<S>)
    requires FitIn(items) && Disjoint(items) && SelectDefault(items) != End
    requires UniqueMarks(code) && CodeAt(code, at, Code(Switch(i, e, items), k)) && t.pc == at
    requires FreeContinueIn(items) ==> Declared(code, k)
    ensures Goes(m, code, t, steps, u)
    ensures var s := Switch(i, e, items); Ends(code, Run(m, n, s, t.st), FreeBreaks(s), k, at + |Code(s, k)|, n, steps, u)
    decreases n, Switch(i, e, items), 1
  {
    hide Goes;
    hide UniqueMarks;
    hide CodeAt;
    hide Code;
    hide Declared;
    hide Disjoint;
    hide FitIn;
    hide RunItems;
    SelectIs(items, m.value(e, t.st).0);
    SelectSmaller(items, m.value(e, t.st).0);
    steps, u := SwitchRuns(m, code, at, i, e, items, k, n, t);
  }

  /** A lowered switch runs its body from the selected target, falling through the rest; with no target
      and no default for the value, it runs all of the body. */
  lemma {:induction false} SwitchRuns<S>(m: Interp<S>, code: seq<Instr>, at: nat, i: Id, e: Cond, items: Items, k: Label, n: nat, t: MState<S>)
    returns (steps: nat, u: MState<S>)
    requires FitIn(items) && Disjoint(items)
    requires UniqueMarks(code) && CodeAt(code, at, Code(Switch(i, e, items), k)) && t.pc == at
    requires FreeContinueIn(items) ==> Declared(code, k)
    ensures Goes(m, code, t, steps, u)
    ensures var (v, st) := m.value(e, t.st);
            Ends(code, SwitchEnds(RunItems(m, n, Started(items, v), st)), [], k, at + |Code(Switch(i, e, items), k)|, n, steps, u)
    decreases n, Switch(i, e, items), 0
  {
    hide Goes;
    hide UniqueMarks;
    hide CodeAt;
    hide Code;
    hide AtBreak;
    hide Declared;
    hide Disjoint;
    hide ItemsCode;
    hide SwitchJumps;
    hide FitIn;
    SwitchCode(i, e, items, k);
    var jumps, body, bs := SwitchJumps(i, items), ItemsCode(items, k), FreeBreaksIn(items);
    CodeAtSplit(code, at, [ISet(i, e)] + (jumps + body), MarkCode(bs));
    CodeAtSplit(code, at, [ISet(i, e)], jumps + body);
    CodeAtSplit(code, at + 1, jumps, body);
    CodeAtOne(code, at, ISet(i, e));
    var v := m.value(e, t.st).0;
    var w := MState(at + 1, m.value(e, t.st).1, t.values[i := v]);
    OneStep(m, code, t, w);
    var f, x := EnterSwitch(m, code, i, items, k, v, w);
    Chain(m, code, t, 1, w, f, x);
    var q := at + 1 + |jumps|;
    MarksDeclared(code, q + |body|, bs, k);
    var items' := Started(items, v);
    StartedIs(items, v);
    TailIsFit(items, items');
    TailAt(code, q, items, k, items');
    steps, u := SimulateItems(m, code, x.pc, items', k, n, x);
    Chain(m, code, t, 1 + f, x, steps, u);
    steps := 1 + f + steps;
    var r := RunItems(m, n, items', x.st);
    if r.sig.Broke? || r.sig.Normal? {
      if r.sig.Broke? {
        AtBreakIn(code, u.pc, FreeBreaksIn(items'), bs);
      }
      var g := LeaveMarks(m, code, q + |body|, bs, u);
      var y := u.(pc := q + |body| + |MarkCode(bs)|);
      Chain(m, code, t, steps, u, g, y);
      steps, u := steps + g, y;
    }
  }

  lemma StartedIs(items: Items, v: int)
    ensures TailOf(Started(items, v), items) && (Started(items, v) == items || Started(items, v) < items)
  {
    SelectIs(items, v);
    SelectSmaller(items, v);
  }

  lemma TailIsFit(items: Items, x: Items)
    requires TailOf(x, items) && FitIn(items)
    ensures FitIn(x) && (forall b :: b in FreeBreaksIn(x) ==> b in FreeBreaksIn(items)) && (FreeContinueIn(x) ==> FreeContinueIn(items))
  {
    hide Source;
    hide SwitchesOk;
  }

  lemma {:induction false} SimulateItems<S>(m: Interp<S>, code: seq<Instr>, at: nat, items: Items, k: Label, n: nat, t: MState<S>)
    returns (steps: nat, u: MState<S>)
    requires FitIn(items) && UniqueMarks(code) && CodeAt(code, at, ItemsCode(items, k)) && t.pc == at
    requires Exits(code, FreeBreaksIn(items), FreeContinueIn(items), k)
    ensures Goes(m, code, t, steps, u)
    ensures Ends(code, RunItems(m, n, items, t.st), FreeBreaksIn(items), k, at + |ItemsCode(items, k)|, n, steps, u)
    decreases n, items, 2
  {
    hide Goes;
    hide UniqueMarks;
    hide CodeAt;
    hide Code;
    hide AtBreak;
    hide Declared;
    match items
    case End => steps, u := 0, t; Stay(m, code, t);
    case Entry(x, rest) =>
      CodeAtSplit(code, at, [IMark(TargetLabel(x))], ItemsCode(rest, k));
      CodeAtOne(code, at, IMark(TargetLabel(x)));
      var w := t.(pc := at + 1);
      Walk(m, code, t, 1);
      steps, u := SimulateItems(m, code, at + 1, rest, k, n, w);
      Chain(m, code, t, 1, w, steps, u);
      steps := steps + 1;
    case Plain(s, rest) =>
      CodeAtSplit(code, at, Code(s, k), ItemsCode(rest, k));
      steps, u := Simulate(m, code, at, s, k, n, t);
      var r := Run(m, n, s, t.st);
      if r.sig.Normal? {
        var j, w := SimulateItems(m, code, u.pc, rest, k, n, u);
        Chain(m, code, t, steps, u, j, w);
        steps, u := steps + j, w;
        if RunItems(m, n, rest, r.st).sig.Broke? {
          AtBreakIn(code, u.pc, FreeBreaksIn(rest), FreeBreaksIn(items));
        }
      } else if r.sig.Broke? {
        AtBreakIn(code, u.pc, FreeBreaks(s), FreeBreaksIn(items));
      }
  }
}
