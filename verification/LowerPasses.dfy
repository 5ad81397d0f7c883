/** The lowering passes, each a rewrite of the whole program, in the order the pipeline applies them. */
module LowerPasses {
  import opened Structured

  /** Label declarations after a construct, the last break's first. */
  function Marks(bs: seq<Id>): Stmt {
    if bs == [] then Skip else Seq(Marks(bs[1..]), Mark(BreakOf(bs[0])))
  }

  /** A break becomes a goto to a label of its own after the innermost breakable construct. */
  function BreakToGoto(s: Stmt): Stmt {
    match s
    case Seq(a, b) => Seq(BreakToGoto(a), BreakToGoto(b))
    case If(i, c, a, b) => If(i, c, BreakToGoto(a), BreakToGoto(b))
    case While(i, c, b) => Seq(While(i, c, BreakToGoto(b)), Marks(FreeBreaks(b)))
    case Do(i, c, b) => Seq(Do(i, c, BreakToGoto(b)), Marks(FreeBreaks(b)))
    case For(i, init, c, inc, b) => Seq(For(i, init, c, inc, BreakToGoto(b)), Marks(FreeBreaks(b)))
    case Switch(i, e, items) => Seq(Switch(i, e, BreakToGotoIn(items)), Marks(FreeBreaksIn(items)))
    case Break(b) => Goto(BreakOf(b))
    case _ => s
  }

  function BreakToGotoIn(items: Items): Items {
    match items
    case End => End
    case Entry(t, rest) => Entry(t, BreakToGotoIn(rest))
    case Plain(s, rest) => Plain(BreakToGoto(s), BreakToGotoIn(rest))
  }

  /** Send every continue that is not inside a further loop to a label. */
  function Redirect(s: Stmt, l: Label): Stmt {
    match s
    case Seq(a, b) => Seq(Redirect(a, l), Redirect(b, l))
    case If(i, c, a, b) => If(i, c, Redirect(a, l), Redirect(b, l))
    case Switch(i, e, items) => Switch(i, e, RedirectIn(items, l))
    case Continue => Goto(l)
    case _ => s
  }

  function RedirectIn(items: Items, l: Label): Items {
    match items
    case End => End
    case Entry(t, rest) => Entry(t, RedirectIn(rest, l))
    case Plain(s, rest) => Plain(Redirect(s, l), RedirectIn(rest, l))
  }

  function ForToWhile(s: Stmt): Stmt {
    match s
    case Seq(a, b) => Seq(ForToWhile(a), ForToWhile(b))
    case If(i, c, a, b) => If(i, c, ForToWhile(a), ForToWhile(b))
    case While(i, c, b) => While(i, c, ForToWhile(b))
    case Do(i, c, b) => Do(i, c, ForToWhile(b))
    case For(i, init, c, inc, b) =>
      Seq(Act(init), While(i, c, ForBody(i, ForToWhile(b), inc)))
    case Switch(i, e, items) => Switch(i, e, ForToWhileIn(items))
    case _ => s
  }

  function ForToWhileIn(items: Items): Items {
    match items
    case End => End
    case Entry(t, rest) => Entry(t, ForToWhileIn(rest))
    case Plain(s, rest) => Plain(ForToWhile(s), ForToWhileIn(rest))
  }

  /** Only the first test needs a statement of its own. */
  function WhileToDo(s: Stmt): Stmt {
    match s
    case Seq(a, b) => Seq(WhileToDo(a), WhileToDo(b))
    case If(i, c, a, b) => If(i, c, WhileToDo(a), WhileToDo(b))
    case While(i, c, b) => If(i, c, Do(i, c, WhileToDo(b)), Skip)
    case Do(i, c, b) => Do(i, c, WhileToDo(b))
    case For(i, init, c, inc, b) => For(i, init, c, inc, WhileToDo(b))
    case Switch(i, e, items) => Switch(i, e, WhileToDoIn(items))
    case _ => s
  }

  function WhileToDoIn(items: Items): Items {
    match items
    case End => End
    case Entry(t, rest) => Entry(t, WhileToDoIn(rest))
    case Plain(s, rest) => Plain(WhileToDo(s), WhileToDoIn(rest))
  }

  /** A loop around a body whose continues go to DoContinue(i). */
  function Looped(i: Id, c: Cond, body: Stmt): Stmt {
    Seq(Mark(NextOf(i)), Seq(body, Seq(Mark(DoContinue(i)), IfGoto(Is(c), NextOf(i)))))
  }

  function DoToIfGoto(s: Stmt): Stmt {
    match s
    case Seq(a, b) => Seq(DoToIfGoto(a), DoToIfGoto(b))
    case If(i, c, a, b) => If(i, c, DoToIfGoto(a), DoToIfGoto(b))
    case While(i, c, b) => While(i, c, DoToIfGoto(b))
    case Do(i, c, b) => Looped(i, c, Redirect(DoToIfGoto(b), DoContinue(i)))
    case For(i, init, c, inc, b) => For(i, init, c, inc, DoToIfGoto(b))
    case Switch(i, e, items) => Switch(i, e, DoToIfGotoIn(items))
    case _ => s
  }

  function DoToIfGotoIn(items: Items): Items {
    match items
    case End => End
    case Entry(t, rest) => Entry(t, DoToIfGotoIn(rest))
    case Plain(s, rest) => Plain(DoToIfGoto(s), DoToIfGotoIn(rest))
  }

  /** The conditional jumps hoisted to the top: each new one goes above those already there. */
  function Hoisted(i: Id, items: Items, ranges: bool): Stmt {
    match items
    case End => Skip
    case Entry(Case(t, v), rest) =>
      if ranges then Hoisted(i, rest, ranges) else Seq(Hoisted(i, rest, ranges), IfGoto(Within(i, v, v), CaseOf(t)))
    case Entry(RangeCase(t, lo, hi), rest) =>
      if ranges then Seq(Hoisted(i, rest, ranges), IfGoto(Within(i, lo, hi), CaseOf(t))) else Hoisted(i, rest, ranges)
    case Entry(Default(_), rest) => Hoisted(i, rest, ranges)
    case Plain(_, rest) => Hoisted(i, rest, ranges)
  }

  function HoistedDefault(items: Items): Stmt {
    match items
    case End => Skip
    case Entry(Default(t), rest) => Seq(HoistedDefault(rest), Goto(DefaultOf(t)))
    case Entry(_, rest) => HoistedDefault(rest)
    case Plain(_, rest) => HoistedDefault(rest)
  }

  function TargetLabel(t: Target): Label {
    match t
    case Case(k, _) => CaseOf(k)
    case RangeCase(k, _, _) => CaseOf(k)
    case Default(k) => DefaultOf(k)
  }

  /** Defaults are hoisted first, then cases, then ranges, so a default's plain goto comes last. */
  function SwitchToIfGoto(s: Stmt): Stmt {
    match s
    case Seq(a, b) => Seq(SwitchToIfGoto(a), SwitchToIfGoto(b))
    case If(i, c, a, b) => If(i, c, SwitchToIfGoto(a), SwitchToIfGoto(b))
    case While(i, c, b) => While(i, c, SwitchToIfGoto(b))
    case Do(i, c, b) => Do(i, c, SwitchToIfGoto(b))
    case For(i, init, c, inc, b) => For(i, init, c, inc, SwitchToIfGoto(b))
    case Switch(i, e, items) =>
      Seq(SetValue(i, e), Seq(Hoisted(i, items, true), Seq(Hoisted(i, items, false), Seq(HoistedDefault(items), Relabelled(items)))))
    case _ => s
  }

  /** The switch body with ordinary labels for its targets. */
  function Relabelled(items: Items): Stmt {
    match items
    case End => Skip
    case Entry(t, rest) => Seq(Mark(TargetLabel(t)), Relabelled(rest))
    case Plain(s, rest) => Seq(SwitchToIfGoto(s), Relabelled(rest))
  }

  /** An if that is not a conditional goto already becomes jumps over its branches. */
  function IfToIfGoto(s: Stmt): Stmt {
    match s
    case Seq(a, b) => Seq(IfToIfGoto(a), IfToIfGoto(b))
    case If(i, c, a, b) =>
      if a.Goto? && b.Skip? then IfGoto(Is(c), a.l)
      else
        Seq(IfGoto(IsNot(c), Then(i)),
            Seq(IfToIfGoto(a), Seq(Goto(Else(i)), Seq(Mark(Then(i)), Seq(IfToIfGoto(b), Mark(Else(i)))))))
    case _ => s
  }

  // ---------- the flat program ----------

  datatype Instr =
    | IAct(a: Action)
    | ISet(i: Id, e: Cond)
    | IMark(l: Label)
    | IGoto(l: Label)
    | IBranch(t: Test, l: Label)
    | IStructured // a construct that no pass lowered

  /** Compounds dissolve and empty statements go. */
  function Flat(s: Stmt): seq<Instr> {
    match s
    case Act(a) => [IAct(a)]
    case Skip => []
    case Seq(a, b) => Flat(a) + Flat(b)
    case Goto(l) => [IGoto(l)]
    case Mark(l) => [IMark(l)]
    case IfGoto(t, l) => [IBranch(t, l)]
    case SetValue(i, e) => [ISet(i, e)]
    case _ => [IStructured]
  }

  /** What the passes make of a program. */
  function Lowered(s: Stmt): seq<Instr> {
    Flat(IfToIfGoto(SwitchToIfGoto(DoToIfGoto(WhileToDo(ForToWhile(BreakToGoto(s)))))))
  }

  // ---------- the composition of the loop passes ----------

  function LoopPasses(s: Stmt): Stmt {
    DoToIfGoto(WhileToDo(ForToWhile(BreakToGoto(s))))
  }

  function LoopPassesIn(items: Items): Items {
    DoToIfGotoIn(WhileToDoIn(ForToWhileIn(BreakToGotoIn(items))))
  }

  /** A statement without loops, breaks and continues, whose free continues go to k. */
  function Unlooped(s: Stmt, k: Label): Stmt {
    match s
    case Seq(a, b) => Seq(Unlooped(a, k), Unlooped(b, k))
    case If(i, c, a, b) => If(i, c, Unlooped(a, k), Unlooped(b, k))
    case While(i, c, b) => Seq(If(i, c, Looped(i, c, Unlooped(b, DoContinue(i))), Skip), Marks(FreeBreaks(b)))
    case Do(i, c, b) => Seq(Looped(i, c, Unlooped(b, DoContinue(i))), Marks(FreeBreaks(b)))
    case For(i, init, c, inc, b) =>
      Seq(Seq(Act(init), If(i, c, Looped(i, c, Seq(Unlooped(b, ForContinue(i)), Seq(Mark(ForContinue(i)), Act(inc)))), Skip)),
          Marks(FreeBreaks(b)))
    case Switch(i, e, items) => Seq(Switch(i, e, UnloopedIn(items, k)), Marks(FreeBreaksIn(items)))
    case Break(b) => Goto(BreakOf(b))
    case Continue => Goto(k)
    case _ => s
  }

  function UnloopedIn(items: Items, k: Label): Items {
    match items
    case End => End
    case Entry(t, rest) => Entry(t, UnloopedIn(rest, k))
    case Plain(s, rest) => Plain(Unlooped(s, k), UnloopedIn(rest, k))
  }

  /** A continue that has been sent somewhere stays sent there. */
  lemma RedirectTwice(s: Stmt, l: Label, k: Label)
    ensures Redirect(Redirect(s, l), k) == Redirect(s, l)
  {
    match s
    case Switch(_, _, items) => RedirectTwiceIn(items, l, k);
    case _ =>
  }

  lemma RedirectTwiceIn(items: Items, l: Label, k: Label)
    ensures RedirectIn(RedirectIn(items, l), k) == RedirectIn(items, l)
  {
    match items
    case Plain(s, _) => RedirectTwice(s, l, k);
    case _ =>
  }

  /** The later loop passes leave redirected continues alone. */
  lemma WhileCommutes(s: Stmt, l: Label)
    ensures WhileToDo(Redirect(s, l)) == Redirect(WhileToDo(s), l)
  {
    match s
    case Switch(_, _, items) => WhileCommutesIn(items, l);
    case _ =>
  }

  lemma WhileCommutesIn(items: Items, l: Label)
    ensures WhileToDoIn(RedirectIn(items, l)) == RedirectIn(WhileToDoIn(items), l)
  {
    match items
    case Plain(s, _) => WhileCommutes(s, l);
    case _ =>
  }

  lemma DoCommutes(s: Stmt, l: Label)
    ensures DoToIfGoto(Redirect(s, l)) == Redirect(DoToIfGoto(s), l)
  {
    match s
    case Switch(_, _, items) => DoCommutesIn(items, l);
    case Do(i, c, b) =>
      RedirectTwice(DoToIfGoto(b), DoContinue(i), l);
      RedirectLooped(i, c, Redirect(DoToIfGoto(b), DoContinue(i)), l);
    case _ =>
  }

  lemma DoCommutesIn(items: Items, l: Label)
    ensures DoToIfGotoIn(RedirectIn(items, l)) == RedirectIn(DoToIfGotoIn(items), l)
  {
    match items
    case Plain(s, _) => DoCommutes(s, l);
    case _ =>
  }

  lemma {:induction false} MarksStay(bs: seq<Id>, k: Label)
    ensures DoToIfGoto(WhileToDo(ForToWhile(Marks(bs)))) == Marks(bs) == Redirect(Marks(bs), k)
    ensures !FreeContinue(Marks(bs))
  {
    if bs != [] {
      MarksStay(bs[1..], k);
      var m, a := Mark(BreakOf(bs[0])), Marks(bs[1..]);
      assert ForToWhile(Seq(a, m)) == Seq(ForToWhile(a), m);
      assert WhileToDo(Seq(ForToWhile(a), m)) == Seq(WhileToDo(ForToWhile(a)), m);
    }
  }

  /** What the loop passes do to a construct that has breaks of its own. */
  lemma PassesOnBreakable(x: Stmt, bs: seq<Id>)
    ensures DoToIfGoto(WhileToDo(ForToWhile(Seq(x, Marks(bs))))) == Seq(DoToIfGoto(WhileToDo(ForToWhile(x))), Marks(bs))
  {
    MarksStay(bs, Then(0));
    var y := ForToWhile(x);
    var z := WhileToDo(y);
    assert ForToWhile(Seq(x, Marks(bs))) == Seq(y, ForToWhile(Marks(bs)));
    assert WhileToDo(Seq(y, ForToWhile(Marks(bs)))) == Seq(z, WhileToDo(ForToWhile(Marks(bs))));
  }

  lemma PassesOnWhile(i: Id, c: Cond, b: Stmt)
    ensures LoopPasses(While(i, c, b)) ==
            Seq(If(i, c, Looped(i, c, Redirect(LoopPasses(b), DoContinue(i))), Skip), Marks(FreeBreaks(b)))
  {
    var x := BreakToGoto(b);
    PassesOnBreakable(While(i, c, x), FreeBreaks(b));
    assert WhileToDo(While(i, c, ForToWhile(x))) == If(i, c, Do(i, c, WhileToDo(ForToWhile(x))), Skip);
  }

  lemma PassesOnDo(i: Id, c: Cond, b: Stmt)
    ensures LoopPasses(Do(i, c, b)) == Seq(Looped(i, c, Redirect(LoopPasses(b), DoContinue(i))), Marks(FreeBreaks(b)))
  {
    var x := BreakToGoto(b);
    PassesOnBreakable(Do(i, c, x), FreeBreaks(b));
    assert WhileToDo(Do(i, c, ForToWhile(x))) == Do(i, c, WhileToDo(ForToWhile(x)));
  }

  lemma PassesOnFor(i: Id, init: Action, c: Cond, inc: Action, b: Stmt)
    ensures LoopPasses(For(i, init, c, inc, b)) ==
            Seq(Seq(Act(init), If(i, c, Looped(i, c, ForBody(i, LoopPasses(b), inc)), Skip)),
                Marks(FreeBreaks(b)))
  {
    var x := ForToWhile(BreakToGoto(b));
    var body := ForBody(i, x, inc);
    PassesOnBreakable(For(i, init, c, inc, BreakToGoto(b)), FreeBreaks(b));
    PassesOnForBody(i, x, inc);
    assert WhileToDo(While(i, c, body)) == If(i, c, Do(i, c, WhileToDo(body)), Skip);
    assert WhileToDo(Seq(Act(init), While(i, c, body))) == Seq(Act(init), If(i, c, Do(i, c, WhileToDo(body)), Skip));
    assert DoToIfGoto(If(i, c, Do(i, c, WhileToDo(body)), Skip)) ==
           If(i, c, Looped(i, c, Redirect(DoToIfGoto(WhileToDo(body)), DoContinue(i))), Skip);
  }

  /** The body of the while loop that a for loop becomes. */
  function ForBody(i: Id, x: Stmt, inc: Action): Stmt {
    Seq(Redirect(x, ForContinue(i)), Seq(Mark(ForContinue(i)), Act(inc)))
  }

  lemma PassesOnForBody(i: Id, x: Stmt, inc: Action)
    ensures var y := DoToIfGoto(WhileToDo(ForBody(i, x, inc)));
            y == ForBody(i, DoToIfGoto(WhileToDo(x)), inc) && forall k :: Redirect(y, k) == y
  {
    var tail := Seq(Mark(ForContinue(i)), Act(inc));
    var z := DoToIfGoto(WhileToDo(x));
    WhileCommutes(x, ForContinue(i));
    DoCommutes(WhileToDo(x), ForContinue(i));
    assert WhileToDo(Mark(ForContinue(i))) == Mark(ForContinue(i)) && WhileToDo(Act(inc)) == Act(inc);
    assert DoToIfGoto(Mark(ForContinue(i))) == Mark(ForContinue(i)) && DoToIfGoto(Act(inc)) == Act(inc);
    assert WhileToDo(tail) == tail == DoToIfGoto(tail);
    assert WhileToDo(ForBody(i, x, inc)) == Seq(WhileToDo(Redirect(x, ForContinue(i))), tail);
    assert DoToIfGoto(Seq(Redirect(WhileToDo(x), ForContinue(i)), tail)) == Seq(Redirect(z, ForContinue(i)), tail);
    forall k ensures Redirect(ForBody(i, z, inc), k) == ForBody(i, z, inc) {
      RedirectForBody(i, z, inc, k);
    }
  }

  lemma RedirectForBody(i: Id, x: Stmt, inc: Action, k: Label)
    ensures Redirect(ForBody(i, x, inc), k) == ForBody(i, x, inc)
  {
    var tail := Seq(Mark(ForContinue(i)), Act(inc));
    RedirectTwice(x, ForContinue(i), k);
    assert Redirect(tail, k) == tail;
  }

  lemma PassesOnSwitch(i: Id, e: Cond, items: Items)
    ensures LoopPasses(Switch(i, e, items)) == Seq(Switch(i, e, LoopPassesIn(items)), Marks(FreeBreaksIn(items)))
  {
    var x := BreakToGotoIn(items);
    PassesOnBreakable(Switch(i, e, x), FreeBreaksIn(items));
    assert WhileToDo(Switch(i, e, ForToWhileIn(x))) == Switch(i, e, WhileToDoIn(ForToWhileIn(x)));
  }

  /** The four loop passes one after the other do what one recursive rewrite does, with every break and
      continue bound to its innermost construct. */
  lemma {:induction false} LoopPassesCompose(s: Stmt, k: Label)
    requires Source(s)
    ensures Redirect(LoopPasses(s), k) == Unlooped(s, k)
  {
    hide LoopPasses;
    hide LoopPassesIn;
    match s
    case Seq(a, b) =>
      PassesOnPair(a, b);
      LoopPassesCompose(a, k);
      LoopPassesCompose(b, k);
    case If(i, c, a, b) =>
      PassesOnIf(i, c, a, b);
      LoopPassesCompose(a, k);
      LoopPassesCompose(b, k);
    case While(i, c, b) => WhileComposes(i, c, b, k); LoopPassesCompose(b, DoContinue(i));
    case Do(i, c, b) => DoComposes(i, c, b, k); LoopPassesCompose(b, DoContinue(i));
    case For(i, init, c, inc, b) => ForComposes(i, init, c, inc, b, k); LoopPassesCompose(b, ForContinue(i));
    case Switch(i, e, items) =>
      PassesOnSwitch(i, e, items);
      MarksStay(FreeBreaksIn(items), k);
      LoopPassesComposeIn(items, k);
    case Act(_) => PassesOnLeaf(s);
    case Skip => PassesOnLeaf(s);
    case Break(_) => PassesOnLeaf(s);
    case Continue => PassesOnLeaf(s);
  }

  lemma PassesOnPair(a: Stmt, b: Stmt)
    ensures LoopPasses(Seq(a, b)) == Seq(LoopPasses(a), LoopPasses(b))
  {
  }

  lemma PassesOnIf(i: Id, c: Cond, a: Stmt, b: Stmt)
    ensures LoopPasses(If(i, c, a, b)) == If(i, c, LoopPasses(a), LoopPasses(b))
  {
  }

  lemma PassesOnLeaf(s: Stmt)
    requires s.Act? || s.Skip? || s.Break? || s.Continue?
    ensures LoopPasses(s) == if s.Break? then Goto(BreakOf(s.b)) else s
  {
  }

  /** A loop with its body's continues redirected. */
  lemma WhileComposes(i: Id, c: Cond, b: Stmt, k: Label)
    ensures Redirect(LoopPasses(While(i, c, b)), k) ==
            Seq(If(i, c, Looped(i, c, Redirect(LoopPasses(b), DoContinue(i))), Skip), Marks(FreeBreaks(b)))
  {
    hide LoopPasses;
    PassesOnWhile(i, c, b);
    MarksStay(FreeBreaks(b), k);
    RedirectTwice(LoopPasses(b), DoContinue(i), k);
    RedirectLooped(i, c, Redirect(LoopPasses(b), DoContinue(i)), k);
    var x := Looped(i, c, Redirect(LoopPasses(b), DoContinue(i)));
    assert Redirect(If(i, c, x, Skip), k) == If(i, c, x, Skip);
  }

  lemma RedirectLooped(i: Id, c: Cond, body: Stmt, k: Label)
    ensures Redirect(Looped(i, c, body), k) == Looped(i, c, Redirect(body, k))
  {
    var foot := Seq(Mark(DoContinue(i)), IfGoto(Is(c), NextOf(i)));
    assert Redirect(foot, k) == foot;
    assert Redirect(Seq(body, foot), k) == Seq(Redirect(body, k), foot);
  }

  lemma DoComposes(i: Id, c: Cond, b: Stmt, k: Label)
    ensures Redirect(LoopPasses(Do(i, c, b)), k) == Seq(Looped(i, c, Redirect(LoopPasses(b), DoContinue(i))), Marks(FreeBreaks(b)))
  {
    hide LoopPasses;
    PassesOnDo(i, c, b);
    MarksStay(FreeBreaks(b), k);
    RedirectTwice(LoopPasses(b), DoContinue(i), k);
    RedirectLooped(i, c, Redirect(LoopPasses(b), DoContinue(i)), k);
  }

  lemma ForComposes(i: Id, init: Action, c: Cond, inc: Action, b: Stmt, k: Label)
    ensures Redirect(LoopPasses(For(i, init, c, inc, b)), k) ==
            Seq(Seq(Act(init), If(i, c, Looped(i, c, ForBody(i, LoopPasses(b), inc)), Skip)),
                Marks(FreeBreaks(b)))
  {
    hide LoopPasses;
    var body := ForBody(i, LoopPasses(b), inc);
    PassesOnFor(i, init, c, inc, b);
    MarksStay(FreeBreaks(b), k);
    RedirectForBody(i, LoopPasses(b), inc, k);
    RedirectLooped(i, c, body, k);
    assert Redirect(If(i, c, Looped(i, c, body), Skip), k) == If(i, c, Looped(i, c, body), Skip);
    assert Redirect(Seq(Act(init), If(i, c, Looped(i, c, body), Skip)), k) == Seq(Act(init), If(i, c, Looped(i, c, body), Skip));
  }

  lemma {:induction false} LoopPassesComposeIn(items: Items, k: Label)
    requires SourceItems(items)
    ensures RedirectIn(LoopPassesIn(items), k) == UnloopedIn(items, k)
  {
    match items
    case End =>
    case Entry(_, rest) => LoopPassesComposeIn(rest, k);
    case Plain(s, rest) =>
      LoopPassesCompose(s, k);
      LoopPassesComposeIn(rest, k);
  }

  /** Without free continues there is nothing to redirect. */
  lemma RedirectNothing(s: Stmt, k: Label)
    requires !FreeContinue(s)
    ensures Redirect(s, k) == s
  {
    match s
    case Switch(_, _, items) => RedirectNothingIn(items, k);
    case _ =>
  }

  lemma RedirectNothingIn(items: Items, k: Label)
    requires !FreeContinueIn(items)
    ensures RedirectIn(items, k) == items
  {
    match items
    case Plain(s, _) => RedirectNothing(s, k);
    case _ =>
  }

  lemma RedirectedIsClosed(s: Stmt, l: Label)
    ensures !FreeContinue(Redirect(s, l))
  {
    match s
    case Switch(_, _, items) => RedirectedIsClosedIn(items, l);
    case _ =>
  }

  lemma RedirectedIsClosedIn(items: Items, l: Label)
    ensures !FreeContinueIn(RedirectIn(items, l))
  {
    match items
    case Plain(s, _) => RedirectedIsClosed(s, l);
    case _ =>
  }

  /** The loop passes neither add nor lose a free continue. */
  lemma {:induction false} LoopPassesKeepClosed(s: Stmt)
    requires Source(s) && !FreeContinue(s)
    ensures !FreeContinue(LoopPasses(s))
  {
    match s
    case Seq(a, b) =>
      LoopPassesKeepClosed(a);
      LoopPassesKeepClosed(b);
    case If(_, _, a, b) =>
      LoopPassesKeepClosed(a);
      LoopPassesKeepClosed(b);
    case While(i, c, b) =>
      WhileComposes(i, c, b, Then(i));
      PassesOnWhile(i, c, b);
      RedirectedIsClosed(LoopPasses(s), Then(i));
    case Do(i, c, b) =>
      DoComposes(i, c, b, Then(i));
      PassesOnDo(i, c, b);
      RedirectedIsClosed(LoopPasses(s), Then(i));
    case For(i, init, c, inc, b) =>
      ForComposes(i, init, c, inc, b, Then(i));
      PassesOnFor(i, init, c, inc, b);
      RedirectedIsClosed(LoopPasses(s), Then(i));
    case Switch(i, e, items) =>
      PassesOnSwitch(i, e, items);
      MarksStay(FreeBreaksIn(items), Then(0));
      LoopPassesKeepClosedIn(items);
    case Act(_) =>
    case Skip =>
    case Break(_) =>
  }

  lemma {:induction false} LoopPassesKeepClosedIn(items: Items)
    requires SourceItems(items) && !FreeContinueIn(items)
    ensures !FreeContinueIn(LoopPassesIn(items))
  {
    match items
    case End =>
    case Entry(_, rest) => LoopPassesKeepClosedIn(rest);
    case Plain(s, rest) =>
      LoopPassesKeepClosed(s);
      LoopPassesKeepClosedIn(rest);
  }

  /** The code of a statement in place. */
  function Code(s: Stmt, k: Label): seq<Instr> {
    Emit(Unlooped(s, k))
  }

  function Emit(x: Stmt): seq<Instr> {
    Flat(IfToIfGoto(SwitchToIfGoto(x)))
  }

  /** The whole pipeline, pass after pass, is the direct translation. */
  lemma LoweredIsCode(s: Stmt, k: Label)
    requires Source(s) && !FreeContinue(s)
    ensures Lowered(s) == Code(s, k)
  {
    LoopPassesKeepClosed(s);
    RedirectNothing(LoopPasses(s), k);
    LoopPassesCompose(s, k);
  }
}
