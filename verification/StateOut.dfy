/** Bringing a thread into state machine form: a goto after every wait and before every label, no
    conditional gotos, and every jump through a state variable.

    A configuration holds the statements still to run, so a jump replaces them by those from a label
    on.  Each pass is a rewrite of the whole list. */
module StateOut {
  import opened Prelude

  datatype Label = User(n: nat) | Yield(k: nat) | Proceed(k: nat) // the passes number theirs by what follows

  /** Where a goto goes: a label, the conditional operator, or the state variable. */
  datatype Dest = To(l: Label) | Pick(c: nat, a: Dest, b: Dest) | State

  datatype Instr =
    | Act(a: nat)
    | Wait(w: nat)
    | Mark(l: Label)
    | Goto(d: Dest)
    | IfGoto(c: nat, d: Dest)
    | Assign(d: Dest) // state = d

  /** Actions, waits with whatever the environment does meanwhile, and conditions, on states of any type. */
  datatype Interp<!S> = Interp(act: (nat, S) -> S, wait: (nat, S) -> S, test: (nat, S) -> (bool, S))

  datatype Config<S> = Config(rest: seq<Instr>, st: S, state: Option<Label>)

  /** The statements from a label on. */
  function From(code: seq<Instr>, l: Label): Option<seq<Instr>> {
    if code == [] then None else if code[0] == Mark(l) then Some(code) else From(code[1..], l)
  }

  function EvalDest<S>(m: Interp<S>, d: Dest, st: S, state: Option<Label>): (Option<Label>, S) {
    match d
    case To(l) => (Some(l), st)
    case State => (state, st)
    case Pick(c, a, b) =>
      var (v, u) := m.test(c, st);
      if v then EvalDest(m, a, u, state) else EvalDest(m, b, u, state)
  }

  function Jump<S>(m: Interp<S>, code: seq<Instr>, d: Dest, c: Config<S>): Outcome<Config<S>> {
    var (l, u) := EvalDest(m, d, c.st, c.state);
    if l.Some? && From(code, l.value).Some? then Next(Config(From(code, l.value).value, u, c.state)) else Stuck
  }

  function Step<S>(m: Interp<S>, code: seq<Instr>, c: Config<S>): Outcome<Config<S>> {
    if c.rest == [] then Halted
    else
      var r := c.rest[1..];
      match c.rest[0]
      case Act(a) => Next(c.(rest := r, st := m.act(a, c.st)))
      case Wait(w) => Next(c.(rest := r, st := m.wait(w, c.st)))
      case Mark(_) => Next(c.(rest := r))
      case Goto(d) => Jump(m, code, d, c)
      case IfGoto(p, d) =>
        var (v, u) := m.test(p, c.st);
        if v then Jump(m, code, d, c.(st := u)) else Next(c.(rest := r, st := u))
      case Assign(d) =>
        var (l, u) := EvalDest(m, d, c.st, c.state);
        Next(Config(r, u, l))
  }

  function Run<S>(m: Interp<S>, code: seq<Instr>, c: Config<S>, n: nat): Outcome<Config<S>>
    decreases n
  {
    if n == 0 then Next(c)
    else
      var r := Step(m, code, c);
      if r.Next? then Run(m, code, r.state, n - 1) else r
  }

  // ---------- the passes ----------

  predicate GotoNext(s: seq<Instr>) {
    s != [] && s[0].Goto?
  }

  function GotoAfterWait(s: seq<Instr>): seq<Instr> {
    if s == [] then []
    else if s[0].Wait? && !GotoNext(s[1..]) then
      [s[0], Goto(To(Yield(|s|))), Mark(Yield(|s|))] + GotoAfterWait(s[1..])
    else [s[0]] + GotoAfterWait(s[1..])
  }

  function AddGotoBeforeLabel(s: seq<Instr>, afterGoto: bool): seq<Instr> {
    if s == [] then []
    else if s[0].Mark? && !afterGoto then [Goto(To(s[0].l)), s[0]] + AddGotoBeforeLabel(s[1..], false)
    else [s[0]] + AddGotoBeforeLabel(s[1..], s[0].Goto?)
  }

  function NormaliseConditionalGotos(s: seq<Instr>): seq<Instr> {
    if s == [] then []
    else if s[0].IfGoto? && !GotoNext(s[1..]) then
      [s[0], Goto(To(Proceed(|s|))), Mark(Proceed(|s|))] + NormaliseConditionalGotos(s[1..])
    else [s[0]] + NormaliseConditionalGotos(s[1..])
  }

  function CompactGotos(s: seq<Instr>): seq<Instr>
    decreases |s|
  {
    if s == [] then []
    else if s[0].IfGoto? && GotoNext(s[1..]) then [Goto(Pick(s[0].c, s[0].d, s[1].d))] + CompactGotos(s[2..])
    else [s[0]] + CompactGotos(s[1..])
  }

  function AddStateLabelVar(s: seq<Instr>): seq<Instr> {
    if s == [] then []
    else (if s[0].Goto? && s[0].d != State then [Assign(s[0].d), Goto(State)] else [s[0]]) + AddStateLabelVar(s[1..])
  }

  function Late(s: seq<Instr>): seq<Instr> {
    AddStateLabelVar(CompactGotos(NormaliseConditionalGotos(s)))
  }

  /** The passes one after the other. */
  function StatedOut(s: seq<Instr>, afterGoto: bool): seq<Instr> {
    Late(AddGotoBeforeLabel(GotoAfterWait(s), afterGoto))
  }

  // ---------- what they make of each statement ----------

  predicate UserDest(d: Dest) {
    match d
    case To(l) => l.User?
    case Pick(_, a, b) => UserDest(a) && UserDest(b)
    case State => false
  }

  /** A thread before these passes. */
  predicate Source(s: seq<Instr>) {
    s == [] ||
    (Source(s[1..]) &&
     match s[0]
     case Mark(l) => l.User?
     case Goto(d) => UserDest(d)
     case IfGoto(_, d) => UserDest(d)
     case Assign(_) => false
     case _ => true)
  }

  lemma Cons(x: Instr, r: seq<Instr>)
    ensures ([x] + r)[0] == x && ([x] + r)[1..] == r
  {
  }

  lemma LatePlain(x: Instr, r: seq<Instr>)
    requires x.Act? || x.Wait? || x.Mark?
    ensures Late([x] + r) == [x] + Late(r)
  {
    Cons(x, r);
    Cons(x, NormaliseConditionalGotos(r));
    Cons(x, CompactGotos(NormaliseConditionalGotos(r)));
  }

  lemma LateGoto(d: Dest, r: seq<Instr>)
    requires d != State
    ensures Late([Goto(d)] + r) == [Assign(d), Goto(State)] + Late(r)
  {
    Cons(Goto(d), r);
    Cons(Goto(d), NormaliseConditionalGotos(r));
    Cons(Goto(d), CompactGotos(NormaliseConditionalGotos(r)));
  }

  /** A conditional goto with a goto behind it. */
  lemma LatePair(c: nat, d: Dest, e: Dest, r: seq<Instr>)
    ensures Late([IfGoto(c, d), Goto(e)] + r) == [Assign(Pick(c, d, e)), Goto(State)] + Late(r)
  {
    var n := NormaliseConditionalGotos(r);
    var s := [IfGoto(c, d), Goto(e)] + r;
    assert s[1..] == [Goto(e)] + r;
    Cons(Goto(e), r);
    assert NormaliseConditionalGotos([Goto(e)] + r) == [Goto(e)] + n;
    var t := [IfGoto(c, d)] + ([Goto(e)] + n);
    assert NormaliseConditionalGotos(s) == t;
    assert t[1..] == [Goto(e)] + n && t[2..] == n;
    Cons(Goto(Pick(c, d, e)), CompactGotos(n));
  }

  /** A conditional goto with anything else behind it. */
  lemma LateAlone(c: nat, d: Dest, r: seq<Instr>)
    requires !GotoNext(r)
    ensures var p := Proceed(|r| + 1);
            Late([IfGoto(c, d)] + r) == [Assign(Pick(c, d, To(p))), Goto(State), Mark(p)] + Late(r)
  {
    var p, n := Proceed(|r| + 1), NormaliseConditionalGotos(r);
    Cons(IfGoto(c, d), r);
    var t := [IfGoto(c, d), Goto(To(p)), Mark(p)] + n;
    assert NormaliseConditionalGotos([IfGoto(c, d)] + r) == t;
    assert t[1..][0] == Goto(To(p)) && t[2..] == [Mark(p)] + n;
    assert CompactGotos(t) == [Goto(Pick(c, d, To(p)))] + CompactGotos([Mark(p)] + n);
    Cons(Mark(p), n);
    var u := CompactGotos(n);
    assert CompactGotos([Mark(p)] + n) == [Mark(p)] + u;
    Cons(Goto(Pick(c, d, To(p))), [Mark(p)] + u);
    Cons(Mark(p), u);
    assert AddStateLabelVar([Mark(p)] + u) == [Mark(p)] + AddStateLabelVar(u);
  }

  /** What stands for the first statements of a list, how many they are, and whether a goto was last. */
  datatype Part = Part(code: seq<Instr>, taken: nat, afterGoto: bool)

  /** A label for the place where a conditional goto carries on. */
  function ProceedAt(s: seq<Instr>): Label {
    Proceed(|AddGotoBeforeLabel(GotoAfterWait(s), false)|)
  }

  function FirstPart(s: seq<Instr>, afterGoto: bool): Part
    requires s != []
  {
    match s[0]
    case Act(_) => Part([s[0]], 1, false)
    case Wait(_) =>
      if GotoNext(s[1..]) then Part([s[0]], 1, false)
      else Part([s[0], Assign(To(Yield(|s|))), Goto(State), Mark(Yield(|s|))], 1, false)
    case Mark(l) => Part((if afterGoto then [] else [Assign(To(l)), Goto(State)]) + [s[0]], 1, false)
    case Goto(d) => Part([Assign(d), Goto(State)], 1, true)
    case IfGoto(c, d) =>
      if GotoNext(s[1..]) then Part([Assign(Pick(c, d, s[1].d)), Goto(State)], 2, true)
      else if |s| > 1 && s[1].Mark? then Part([Assign(Pick(c, d, To(s[1].l))), Goto(State), s[1]], 2, false)
      else Part([Assign(Pick(c, d, To(ProceedAt(s)))), Goto(State), Mark(ProceedAt(s))], 1, false)
    case Assign(_) => Part([], 1, false)
  }

  /** The five passes, taken together, replace one part after the other. */
  lemma PassesCompose(s: seq<Instr>, afterGoto: bool)
    requires Source(s) && s != []
    ensures var p := FirstPart(s, afterGoto);
            p.taken <= |s| && StatedOut(s, afterGoto) == p.code + StatedOut(s[p.taken..], p.afterGoto)
  {
    hide Late;
    hide AddGotoBeforeLabel;
    hide Source;
    var x, r := s[0], s[1..];
    assert s == [x] + r;
    DestOf(s);
    match x
    case Act(_) =>
      EarlyPlain(x, r, afterGoto);
      LatePlain(x, AddGotoBeforeLabel(GotoAfterWait(r), false));
    case Wait(_) =>
      if GotoNext(r) {
        EarlyPlain(x, r, afterGoto);
        LatePlain(x, AddGotoBeforeLabel(GotoAfterWait(r), false));
      } else {
        WaitAlone(x, GotoAfterWait(r), Yield(|s|), afterGoto);
      }
    case Mark(l) => MarkParts(l, GotoAfterWait(r), afterGoto);
    case Goto(d) =>
      EarlyPlain(x, r, afterGoto);
      LateGoto(d, AddGotoBeforeLabel(GotoAfterWait(r), true));
    case IfGoto(c, d) => IfGotoParts(s, afterGoto);
  }

  lemma DestOf(s: seq<Instr>)
    requires Source(s) && s != []
    ensures !s[0].Assign? && (s[0].Goto? ==> s[0].d != State)
  {
  }

  /** A statement that the first two passes leave alone. */
  lemma EarlyPlain(x: Instr, r: seq<Instr>, afterGoto: bool)
    requires x.Act? || x.Goto? || (x.Wait? && GotoNext(r))
    ensures AddGotoBeforeLabel(GotoAfterWait([x] + r), afterGoto) == [x] + AddGotoBeforeLabel(GotoAfterWait(r), x.Goto?)
  {
    Cons(x, r);
    Cons(x, GotoAfterWait(r));
  }

  lemma WaitAlone(x: Instr, g: seq<Instr>, y: Label, afterGoto: bool)
    requires x.Wait?
    ensures Late(AddGotoBeforeLabel([x, Goto(To(y)), Mark(y)] + g, afterGoto)) ==
            [x, Assign(To(y)), Goto(State), Mark(y)] + Late(AddGotoBeforeLabel(g, false))
  {
    var h := AddGotoBeforeLabel(g, false);
    var s := [x, Goto(To(y)), Mark(y)] + g;
    assert s[1..] == [Goto(To(y)), Mark(y)] + g && s[1..][1..] == [Mark(y)] + g && s[1..][1..][1..] == g;
    assert AddGotoBeforeLabel([Mark(y)] + g, true) == [Mark(y)] + h;
    assert AddGotoBeforeLabel(s[1..], false) == [Goto(To(y))] + ([Mark(y)] + h);
    assert AddGotoBeforeLabel(s, afterGoto) == [x] + ([Goto(To(y))] + ([Mark(y)] + h));
    LatePlain(x, [Goto(To(y))] + ([Mark(y)] + h));
    LateGoto(To(y), [Mark(y)] + h);
    LatePlain(Mark(y), h);
  }

  lemma MarkParts(l: Label, g: seq<Instr>, afterGoto: bool)
    ensures Late(AddGotoBeforeLabel([Mark(l)] + g, afterGoto)) ==
            (if afterGoto then [] else [Assign(To(l)), Goto(State)]) + [Mark(l)] + Late(AddGotoBeforeLabel(g, false))
  {
    var h := AddGotoBeforeLabel(g, false);
    Cons(Mark(l), g);
    LatePlain(Mark(l), h);
    if !afterGoto {
      assert AddGotoBeforeLabel([Mark(l)] + g, afterGoto) == [Goto(To(l))] + ([Mark(l)] + h);
      LateGoto(To(l), [Mark(l)] + h);
    }
  }

  lemma IfGotoParts(s: seq<Instr>, afterGoto: bool)
    requires Source(s) && s != [] && s[0].IfGoto?
    ensures var p := FirstPart(s, afterGoto);
            p.taken <= |s| && StatedOut(s, afterGoto) == p.code + StatedOut(s[p.taken..], p.afterGoto)
  {
    hide StatedOut;
    hide ProceedAt;
    hide Source;
    var c, d, r := s[0].c, s[0].d, s[1..];
    assert s == [IfGoto(c, d)] + r;
    if r != [] && r[0].Goto? {
      assert s[2..] == r[1..] && r == [Goto(r[0].d)] + r[1..];
      IfThenGoto(c, d, r[0].d, r[1..], afterGoto);
    } else if r != [] && r[0].Mark? {
      assert s[2..] == r[1..] && r == [Mark(r[0].l)] + r[1..];
      IfThenMark(c, d, r[0].l, r[1..], afterGoto);
    } else {
      IfAlone(c, d, r, afterGoto);
    }
  }

  lemma EarlyIf(c: nat, d: Dest, r: seq<Instr>, afterGoto: bool)
    ensures AddGotoBeforeLabel(GotoAfterWait([IfGoto(c, d)] + r), afterGoto) ==
            [IfGoto(c, d)] + AddGotoBeforeLabel(GotoAfterWait(r), false)
  {
    Cons(IfGoto(c, d), r);
    Cons(IfGoto(c, d), GotoAfterWait(r));
  }

  lemma EarlyMark(l: Label, r: seq<Instr>)
    ensures AddGotoBeforeLabel(GotoAfterWait([Mark(l)] + r), false) ==
            [Goto(To(l)), Mark(l)] + AddGotoBeforeLabel(GotoAfterWait(r), false)
  {
    Cons(Mark(l), r);
    Cons(Mark(l), GotoAfterWait(r));
  }

  lemma IfThenGoto(c: nat, d: Dest, e: Dest, r: seq<Instr>, afterGoto: bool)
    ensures StatedOut([IfGoto(c, d)] + ([Goto(e)] + r), afterGoto) ==
            [Assign(Pick(c, d, e)), Goto(State)] + StatedOut(r, true)
  {
    var g := GotoAfterWait(r);
    EarlyIf(c, d, [Goto(e)] + r, afterGoto);
    Cons(Goto(e), r);
    Cons(Goto(e), g);
    var h := AddGotoBeforeLabel(g, true);
    assert [IfGoto(c, d)] + ([Goto(e)] + h) == [IfGoto(c, d), Goto(e)] + h;
    LatePair(c, d, e, h);
  }

  lemma IfThenMark(c: nat, d: Dest, l: Label, r: seq<Instr>, afterGoto: bool)
    ensures StatedOut([IfGoto(c, d)] + ([Mark(l)] + r), afterGoto) ==
            [Assign(Pick(c, d, To(l))), Goto(State), Mark(l)] + StatedOut(r, false)
  {
    hide Late;
    hide GotoAfterWait;
    hide AddGotoBeforeLabel;
    EarlyIf(c, d, [Mark(l)] + r, afterGoto);
    EarlyMark(l, r);
    var h := AddGotoBeforeLabel(GotoAfterWait(r), false);
    assert [IfGoto(c, d)] + ([Goto(To(l)), Mark(l)] + h) == [IfGoto(c, d), Goto(To(l))] + ([Mark(l)] + h);
    LatePair(c, d, To(l), [Mark(l)] + h);
    LatePlain(Mark(l), h);
  }

  lemma IfAlone(c: nat, d: Dest, r: seq<Instr>, afterGoto: bool)
    requires r == [] || !(r[0].Goto? || r[0].Mark?)
    ensures var p := ProceedAt([IfGoto(c, d)] + r);
            StatedOut([IfGoto(c, d)] + r, afterGoto) == [Assign(Pick(c, d, To(p))), Goto(State), Mark(p)] + StatedOut(r, false)
  {
    hide Late;
    EarlyIf(c, d, r, afterGoto);
    EarlyIf(c, d, r, false);
    HeadKept(r);
    LateAlone(c, d, AddGotoBeforeLabel(GotoAfterWait(r), false));
  }

  lemma HeadKept(r: seq<Instr>)
    requires r == [] || !(r[0].Goto? || r[0].Mark?)
    ensures !GotoNext(AddGotoBeforeLabel(GotoAfterWait(r), false))
  {
  }

  // ---------- the form they reach ----------

  /** Waits and jumps as a state machine needs them: every label behind a goto, every goto through the
      state variable right after an assignment to it, no conditional gotos, nothing but a jump after a
      wait. */
  predicate Machine(s: seq<Instr>, afterGoto: bool)
    decreases |s|
  {
    s == [] ||
    match s[0]
    case Act(_) => Machine(s[1..], false)
    case Wait(_) => |s| > 1 && s[1].Assign? && Machine(s[1..], false)
    case Mark(_) => afterGoto && Machine(s[1..], false)
    case Assign(_) => |s| > 1 && s[1] == Goto(State) && Machine(s[2..], true)
    case _ => false
  }

  lemma MachineJump(d: Dest, r: seq<Instr>)
    requires Machine(r, true)
    ensures Machine([Assign(d), Goto(State)] + r, false) && Machine([Assign(d), Goto(State)] + r, true)
  {
    assert ([Assign(d), Goto(State)] + r)[2..] == r;
  }

  lemma MachineJumpMark(d: Dest, l: Label, r: seq<Instr>)
    requires Machine(r, false)
    ensures Machine([Assign(d), Goto(State), Mark(l)] + r, false) && Machine([Assign(d), Goto(State), Mark(l)] + r, true)
  {
    Cons(Mark(l), r);
    MachineJump(d, [Mark(l)] + r);
    assert [Assign(d), Goto(State), Mark(l)] + r == [Assign(d), Goto(State)] + ([Mark(l)] + r);
  }

  /** Whatever the thread, the passes bring it into this form. */
  lemma {:induction false} ReachesMachineForm(s: seq<Instr>, afterGoto: bool)
    requires Source(s)
    ensures Machine(StatedOut(s, afterGoto), afterGoto)
    ensures GotoNext(s) ==> StatedOut(s, afterGoto) != [] && StatedOut(s, afterGoto)[0].Assign?
    decreases |s|
  {
    hide StatedOut;
    hide Machine;
    if s == [] {
      NothingToDo(afterGoto);
    } else {
      var p := FirstPart(s, afterGoto);
      var x, r := s[0], s[p.taken..];
      PassesCompose(s, afterGoto);
      TailIsSource(s, p.taken);
      ReachesMachineForm(r, p.afterGoto);
      var t := StatedOut(r, p.afterGoto);
      match x
      case Act(_) => MachinePlain(x, t, afterGoto);
      case Wait(_) =>
        if GotoNext(s[1..]) {
          MachinePlain(x, t, afterGoto);
        } else {
          var y := Yield(|s|);
          MachineJumpMark(To(y), y, t);
          var u := [Assign(To(y)), Goto(State), Mark(y)] + t;
          MachinePlain(x, u, afterGoto);
          assert p.code + t == [x] + u;
        }
      case Mark(l) =>
        if afterGoto {
          MachinePlain(x, t, afterGoto);
          assert p.code + t == [x] + t;
        } else {
          MachineJumpMark(To(l), l, t);
          assert p.code + t == [Assign(To(l)), Goto(State), Mark(l)] + t;
        }
      case Goto(d) => MachineJump(d, t);
      case IfGoto(c, d) =>
        if GotoNext(s[1..]) {
          MachineJump(Pick(c, d, s[1].d), t);
        } else if |s| > 1 && s[1].Mark? {
          MachineJumpMark(Pick(c, d, To(s[1].l)), s[1].l, t);
        } else {
          MachineJumpMark(Pick(c, d, To(ProceedAt(s))), ProceedAt(s), t);
        }
    }
  }

  lemma NothingToDo(afterGoto: bool)
    ensures StatedOut([], afterGoto) == [] && Machine([], afterGoto)
  {
  }

  lemma MachinePlain(x: Instr, t: seq<Instr>, afterGoto: bool)
    requires (x.Act? || x.Wait? || (x.Mark? && afterGoto)) && Machine(t, false)
    requires x.Wait? ==> t != [] && t[0].Assign?
    ensures Machine([x] + t, afterGoto)
  {
    Cons(x, t);
  }

  lemma {:induction false} TailIsSource(s: seq<Instr>, k: nat)
    requires Source(s) && k <= |s|
    ensures Source(s[k..])
    decreases k
  {
    if k == 0 {
      assert s[0..] == s;
    } else {
      TailIsSource(s[1..], k - 1);
      assert s[1..][k - 1..] == s[k..];
    }
  }

  // ---------- labels ----------

  ghost predicate UniqueMarks(s: seq<Instr>) {
    forall i, j :: 0 <= i < j < |s| && s[i].Mark? ==> s[i] != s[j]
  }

  predicate IsTail(t: seq<Instr>, s: seq<Instr>) {
    |t| <= |s| && s[|s| - |t|..] == t
  }

  lemma {:induction false} FromTail(s: seq<Instr>, l: Label, t: seq<Instr>)
    requires UniqueMarks(s) && IsTail(t, s) && t != [] && t[0] == Mark(l)
    ensures From(s, l) == Some(t)
    decreases |s|
  {
    assert s[|s| - |t|] == Mark(l);
    if |s| > |t| {
      assert s[1..][|s| - 1 - |t|..] == s[|s| - |t|..];
      FromTail(s[1..], l, t);
    }
  }

  lemma {:induction false} FromIsTail(s: seq<Instr>, l: Label)
    requires From(s, l).Some?
    ensures var t := From(s, l).value; IsTail(t, s) && t != [] && t[0] == Mark(l)
    decreases |s|
  {
    if s[0] != Mark(l) {
      FromIsTail(s[1..], l);
      var t := From(s, l).value;
      assert s[1..][|s| - 1 - |t|..] == s[|s| - |t|..];
    }
  }

  lemma {:induction false} FromAppend(a: seq<Instr>, b: seq<Instr>, l: Label)
    requires Mark(l) !in a
    ensures From(a + b, l) == From(b, l)
    decreases |a|
  {
    if a == [] {
      assert a + b == b;
    } else {
      assert (a + b)[1..] == a[1..] + b;
      FromAppend(a[1..], b, l);
    }
  }

  /** The first statement behind each label stays the first. */
  lemma {:induction false} FromStatedOut(s: seq<Instr>, afterGoto: bool, l: Label)
    requires Source(s) && l.User? && From(s, l).Some?
    ensures From(StatedOut(s, afterGoto), l) == Some(StatedOut(From(s, l).value, true))
    decreases |s|
  {
    hide StatedOut;
    var p := FirstPart(s, afterGoto);
    PassesCompose(s, afterGoto);
    var t := StatedOut(s[p.taken..], p.afterGoto);
    if s[0] == Mark(l) {
      PassesCompose(s, true);
      var jump := if afterGoto then [] else [Assign(To(l)), Goto(State)];
      assert FirstPart(s, true).code == [Mark(l)];
      assert p.code + t == jump + ([Mark(l)] + t);
      FromAppend(jump, [Mark(l)] + t, l);
    } else if p.taken == 2 && s[1] == Mark(l) {
      PassesCompose(s[1..], true);
      assert s[1..][1..] == s[2..] && FirstPart(s[1..], true).code == [Mark(l)];
      assert From(s, l) == Some(s[1..]);
      var jump := [Assign(Pick(s[0].c, s[0].d, To(l))), Goto(State)];
      assert p.code + t == jump + ([Mark(l)] + t);
      FromAppend(jump, [Mark(l)] + t, l);
    } else {
      FromAppend(p.code, t, l);
      TailIsSource(s, p.taken);
      if p.taken == 2 {
        assert s[1..][1..] == s[2..];
      }
      FromStatedOut(s[p.taken..], p.afterGoto, l);
    }
  }

  function Size(s: seq<Instr>): nat {
    |AddGotoBeforeLabel(GotoAfterWait(s), false)|
  }

  lemma {:induction false} AfterGotoSaves(s: seq<Instr>)
    ensures |AddGotoBeforeLabel(s, true)| <= |AddGotoBeforeLabel(s, false)| <= |AddGotoBeforeLabel(s, true)| + 1
  {
  }

  lemma SizeFalls(s: seq<Instr>)
    requires s != []
    ensures Size(s[1..]) <= Size(s)
    ensures s[0].IfGoto? ==> Size(s[1..]) < Size(s)
  {
    var x, g := s[0], GotoAfterWait(s[1..]);
    AfterGotoSaves(g);
    if x.Wait? && !GotoNext(s[1..]) {
      var y := Yield(|s|);
      var t := [x, Goto(To(y)), Mark(y)] + g;
      assert t[1..] == [Goto(To(y)), Mark(y)] + g && t[1..][1..] == [Mark(y)] + g && t[1..][1..][1..] == g;
      assert |AddGotoBeforeLabel([Mark(y)] + g, true)| == 1 + |AddGotoBeforeLabel(g, false)|;
      assert |AddGotoBeforeLabel(t[1..], false)| == 2 + |AddGotoBeforeLabel(g, false)|;
    } else {
      Cons(x, g);
    }
  }

  /** Labels that the passes add are numbered by what follows them. */
  ghost predicate MarkBound(s: seq<Instr>, l: Label) {
    match l
    case User(_) => Mark(l) in s
    case Yield(k) => k <= |s|
    case Proceed(k) => k <= Size(s)
  }

  lemma {:induction false} MarksAreBounded(s: seq<Instr>, afterGoto: bool, l: Label)
    requires Source(s) && Mark(l) in StatedOut(s, afterGoto)
    ensures MarkBound(s, l)
    decreases |s|
  {
    hide StatedOut;
    hide Size;
    if s == [] {
      NothingToDo(afterGoto);
      assert false;
    } else {
      var p := FirstPart(s, afterGoto);
      PassesCompose(s, afterGoto);
      SizeFalls(s);
      if Mark(l) in p.code {
        ProceedIsSize(s);
      } else {
        TailIsSource(s, p.taken);
        MarksAreBounded(s[p.taken..], p.afterGoto, l);
        if p.taken == 2 {
          SizeFalls(s[1..]);
          assert s[1..][1..] == s[2..];
        }
      }
    }
  }

  lemma ProceedIsSize(s: seq<Instr>)
    ensures ProceedAt(s) == Proceed(Size(s))
  {
  }

  lemma UniqueAppend(a: seq<Instr>, b: seq<Instr>)
    requires UniqueMarks(a) && UniqueMarks(b) && forall l :: Mark(l) in a ==> Mark(l) !in b
    ensures UniqueMarks(a + b)
  {
    forall i, j | 0 <= i < j < |a + b| && (a + b)[i].Mark? ensures (a + b)[i] != (a + b)[j] {
      if i < |a| <= j {
        assert Mark((a + b)[i].l) in a;
      }
    }
  }

  lemma {:induction false} UniqueStatedOut(s: seq<Instr>, afterGoto: bool)
    requires Source(s) && UniqueMarks(s)
    ensures UniqueMarks(StatedOut(s, afterGoto))
    decreases |s|
  {
    hide StatedOut;
    hide Size;
    if s == [] {
      NothingToDo(afterGoto);
    } else {
      var p := FirstPart(s, afterGoto);
      var r := s[p.taken..];
      PassesCompose(s, afterGoto);
      TailIsSource(s, p.taken);
      UniqueStatedOut(r, p.afterGoto);
      ProceedIsSize(s);
      SizeFalls(s);
      forall l | Mark(l) in p.code ensures Mark(l) !in StatedOut(r, p.afterGoto) {
        if Mark(l) in StatedOut(r, p.afterGoto) {
          MarksAreBounded(r, p.afterGoto, l);
          OwnMark(s, afterGoto, l);
        }
      }
      UniqueAppend(p.code, StatedOut(r, p.afterGoto));
    }
  }

  lemma UserMarkIsOwn(s: seq<Instr>, k: nat, l: Label)
    requires UniqueMarks(s) && 0 < k <= |s| && s[k - 1] == Mark(l)
    ensures Mark(l) !in s[k..]
  {
  }

  /** The label in a part: the user's own, or one numbered by what follows. */
  lemma PartMark(s: seq<Instr>, afterGoto: bool, l: Label)
    requires Source(s) && s != []
    ensures var p := FirstPart(s, afterGoto);
            Mark(l) in p.code ==>
              match l
              case User(_) => 0 < p.taken <= |s| && s[p.taken - 1] == Mark(l)
              case Yield(k) => p.taken == 1 && k == |s|
              case Proceed(_) => p.taken == 1 && l == ProceedAt(s) && s[0].IfGoto?
  {
    hide ProceedAt;
    hide Source;
    hide FirstPart;
    ProceedIsSize(s);
    MarksAreUser(s);
    PartEnds(s, afterGoto);
    var p := FirstPart(s, afterGoto);
    if Mark(l) in p.code {
      var i :| 0 <= i < |p.code| && p.code[i] == Mark(l);
      assert i == |p.code| - 1;
    }
  }

  /** A label is the last statement of its part. */
  lemma PartEnds(s: seq<Instr>, afterGoto: bool)
    requires s != []
    ensures var p := FirstPart(s, afterGoto);
            && (forall i :: 0 <= i < |p.code| - 1 ==> !p.code[i].Mark?)
            && (p.code != [] && p.code[|p.code| - 1].Mark? ==>
                  var x := p.code[|p.code| - 1];
                  || (0 < p.taken <= |s| && p.taken <= 2 && x == s[p.taken - 1])
                  || (p.taken == 1 && x == Mark(Yield(|s|)))
                  || (p.taken == 1 && x == Mark(ProceedAt(s)) && s[0].IfGoto?))
  {
    hide ProceedAt;
  }

  lemma MarksAreUser(s: seq<Instr>)
    requires Source(s) && s != []
    ensures s[0].Mark? ==> s[0].l.User?
    ensures |s| > 1 && s[1].Mark? ==> s[1].l.User?
  {
    if |s| > 1 {
      assert s[1..][0] == s[1];
    }
  }

  /** The label that stands for a part does not come from the rest. */
  lemma OwnMark(s: seq<Instr>, afterGoto: bool, l: Label)
    requires Source(s) && UniqueMarks(s) && s != [] && Mark(l) in FirstPart(s, afterGoto).code
    ensures FirstPart(s, afterGoto).taken <= |s| && !MarkBound(s[FirstPart(s, afterGoto).taken..], l)
  {
    hide Size;
    hide ProceedAt;
    hide UniqueMarks;
    hide Source;
    hide FirstPart;
    ProceedIsSize(s);
    SizeFalls(s);
    PartMark(s, afterGoto, l);
    if l.User? {
      UserMarkIsOwn(s, FirstPart(s, afterGoto).taken, l);
    }
  }

  // ---------- the passes preserve runs ----------

  /** Every label a goto may use is declared. */
  ghost predicate Reachable(code: seq<Instr>, d: Dest) {
    match d
    case To(l) => l.User? && From(code, l).Some?
    case Pick(_, a, b) => Reachable(code, a) && Reachable(code, b)
    case State => false
  }

  ghost predicate JumpsReach(code: seq<Instr>, s: seq<Instr>) {
    forall i :: 0 <= i < |s| ==>
      (s[i].Goto? ==> Reachable(code, s[i].d)) && (s[i].IfGoto? ==> Reachable(code, s[i].d))
  }

  /** A complete thread. */
  ghost predicate Thread(code: seq<Instr>) {
    Source(code) && UniqueMarks(code) && JumpsReach(code, code)
  }

  /** The same data, and the rest of one thread is what the passes make of the rest of the other. */
  ghost predicate Aligned<S>(code: seq<Instr>, c: Config<S>, c': Config<S>, afterGoto: bool) {
    && Source(c.rest) && JumpsReach(code, c.rest)
    && c'.rest == StatedOut(c.rest, afterGoto) && IsTail(c'.rest, StatedOut(code, false)) && c'.st == c.st
  }

  lemma TailOfTail(t: seq<Instr>, k: nat, s: seq<Instr>)
    requires IsTail(t, s) && k <= |t|
    ensures IsTail(t[k..], s)
  {
    assert s[|s| - |t|..][k..] == s[|s| - |t| + k..];
  }

  lemma {:induction false} DestReaches<S>(m: Interp<S>, code: seq<Instr>, d: Dest, st: S, state: Option<Label>, state': Option<Label>)
    requires Reachable(code, d)
    ensures var (l, u) := EvalDest(m, d, st, state);
            EvalDest(m, d, st, state') == (l, u) && l.Some? && l.value.User? && From(code, l.value).Some?
  {
    match d
    case Pick(c, a, b) =>
      DestReaches(m, code, a, m.test(c, st).1, state, state');
      DestReaches(m, code, b, m.test(c, st).1, state, state');
    case To(_) =>
  }

  lemma RunOne<S>(m: Interp<S>, code: seq<Instr>, c: Config<S>)
    ensures Run(m, code, c, 1) == Step(m, code, c)
  {
    var r := Step(m, code, c);
    if r.Next? {
      assert Run(m, code, r.state, 0) == r;
    }
  }

  lemma {:induction false} RunSplit<S>(m: Interp<S>, code: seq<Instr>, c: Config<S>, j: nat, k: nat)
    requires Run(m, code, c, j).Next?
    ensures Run(m, code, c, j + k) == Run(m, code, Run(m, code, c, j).state, k)
    decreases j
  {
    hide Step;
    if j > 0 {
      RunSplit(m, code, Step(m, code, c).state, j - 1, k);
    }
  }

  /** The data after each of the next k steps is st: only the first of them may change it. */
  ghost predicate Kept<S>(m: Interp<S>, code: seq<Instr>, c: Config<S>, k: nat, st: S) {
    forall i: nat :: 1 <= i <= k ==> Run(m, code, c, i).Next? && Run(m, code, c, i).state.st == st
  }

  lemma KeptOn<S>(m: Interp<S>, code: seq<Instr>, c: Config<S>, j: nat, c1: Config<S>, k: nat, st: S)
    requires Run(m, code, c, j) == Next(c1) && Kept(m, code, c, j, st) && Kept(m, code, c1, k, st)
    ensures Kept(m, code, c, j + k, st)
  {
    hide Run;
    forall i: nat | j < i <= j + k ensures Run(m, code, c, i).Next? && Run(m, code, c, i).state.st == st {
      RunSplit(m, code, c, j, i - j);
    }
  }

  /** state = d; goto state */
  lemma TwoSteps<S>(m: Interp<S>, code: seq<Instr>, c: Config<S>, d: Dest)
    requires |c.rest| >= 2 && c.rest[0] == Assign(d) && c.rest[1] == Goto(State)
    ensures var (l, u) := EvalDest(m, d, c.st, c.state);
            l.Some? && From(code, l.value).Some? ==> Run(m, code, c, 2) == Next(Config(From(code, l.value).value, u, l)) && Kept(m, code, c, 2, u)
  {
    var (l, u) := EvalDest(m, d, c.st, c.state);
    var c1 := Config(c.rest[1..], u, l);
    RunOne(m, code, c);
    RunOne(m, code, c1);
    RunSplit(m, code, c, 1, 1);
    assert c.rest[1..][0] == Goto(State);
  }

  /** After a jump to a label of the thread the two are aligned again. */
  lemma Landed<S>(code: seq<Instr>, l: Label, st: S, state: Option<Label>, state': Option<Label>)
    requires Thread(code) && l.User? && From(code, l).Some?
    ensures var code' := StatedOut(code, false);
            From(code', l).Some? && Aligned(code, Config(From(code, l).value, st, state), Config(From(code', l).value, st, state'), true)
  {
    hide StatedOut;
    var t := From(code, l).value;
    FromStatedOut(code, false, l);
    FromIsTail(code, l);
    FromIsTail(StatedOut(code, false), l);
    TailIsSource(code, |code| - |t|);
    JumpsInTail(code, code, t);
  }

  lemma JumpsInTail(code: seq<Instr>, s: seq<Instr>, t: seq<Instr>)
    requires JumpsReach(code, s) && IsTail(t, s)
    ensures JumpsReach(code, t)
  {
    hide Reachable;
    var k := |s| - |t|;
    assert forall i :: 0 <= i < |t| ==> t[i] == s[k + i];
  }

  /** Falling through to a statement that the passes moved behind a label of its own. */
  lemma Fallen<S>(m: Interp<S>, code: seq<Instr>, c': Config<S>, l: Label, t: seq<Instr>)
    requires UniqueMarks(code) && IsTail(c'.rest, code) && c'.rest == [Assign(To(l)), Goto(State), Mark(l)] + t
    ensures Run(m, code, c', 3) == Next(Config(t, c'.st, Some(l))) && IsTail(t, code) && Kept(m, code, c', 3, c'.st)
  {
    PickedFall(m, code, c', To(l), l, t);
  }

  lemma PickedFall<S>(m: Interp<S>, code: seq<Instr>, c': Config<S>, d: Dest, l: Label, t: seq<Instr>)
    requires UniqueMarks(code) && IsTail(c'.rest, code) && c'.rest == [Assign(d), Goto(State), Mark(l)] + t
    requires EvalDest(m, d, c'.st, c'.state).0 == Some(l)
    ensures Run(m, code, c', 3) == Next(Config(t, EvalDest(m, d, c'.st, c'.state).1, Some(l))) && IsTail(t, code)
    ensures Kept(m, code, c', 3, EvalDest(m, d, c'.st, c'.state).1)
  {
    hide Run;
    hide Step;
    hide From;
    hide UniqueMarks;
    hide EvalDest;
    hide IsTail;
    var u := EvalDest(m, d, c'.st, c'.state).1;
    assert c'.rest[2..] == [Mark(l)] + t && c'.rest[3..] == t;
    TailOfTail(c'.rest, 2, code);
    TailOfTail(c'.rest, 3, code);
    FromTail(code, l, [Mark(l)] + t);
    TwoSteps(m, code, c', d);
    var c2 := Config([Mark(l)] + t, u, Some(l));
    Cons(Mark(l), t);
    StepOverMark(m, code, c2);
    RunOne(m, code, c2);
    RunSplit(m, code, c', 2, 1);
    assert Kept(m, code, c2, 1, u);
    KeptOn(m, code, c', 2, c2, 1, u);
  }

  lemma StepOverMark<S>(m: Interp<S>, code: seq<Instr>, c: Config<S>)
    requires c.rest != [] && c.rest[0].Mark?
    ensures Step(m, code, c) == Next(c.(rest := c.rest[1..]))
  {
  }

  /** One or two steps of the thread, and what they become. */
  lemma Together<S>(m: Interp<S>, code: seq<Instr>, c: Config<S>, c': Config<S>, afterGoto: bool)
    returns (j: nat, d: Config<S>, k: nat, d': Config<S>, g: bool)
    requires Thread(code) && Aligned(code, c, c', afterGoto) && c.rest != []
    ensures 1 <= j <= 2 && j <= k <= 4 && Run(m, code, c, j) == Next(d) && Run(m, StatedOut(code, false), c', k) == Next(d')
    ensures Aligned(code, d, d', g) && Kept(m, StatedOut(code, false), c', k, d'.st)
  {
    hide StatedOut;
    hide Run;
    hide FirstPart;
    var s, code' := c.rest, StatedOut(code, false);
    var x := s[0];
    UniqueStatedOut(code, false);
    if x.Goto? || x.IfGoto? {
      j, d, k, d', g := JumpTogether(m, code, c, c', afterGoto);
    } else {
      j, d, k, d', g := PlainTogether(m, code, c, c', afterGoto);
    }
  }

  lemma PlainTogether<S>(m: Interp<S>, code: seq<Instr>, c: Config<S>, c': Config<S>, afterGoto: bool)
    returns (j: nat, d: Config<S>, k: nat, d': Config<S>, g: bool)
    requires Thread(code) && Aligned(code, c, c', afterGoto) && c.rest != [] && !c.rest[0].Goto? && !c.rest[0].IfGoto?
    requires UniqueMarks(StatedOut(code, false))
    ensures j == 1 <= k <= 4 && Run(m, code, c, j) == Next(d) && Run(m, StatedOut(code, false), c', k) == Next(d')
    ensures Aligned(code, d, d', g) && Kept(m, StatedOut(code, false), c', k, d'.st)
  {
    hide StatedOut;
    hide UniqueMarks;
    hide JumpsReach;
    hide Run;
    hide Kept;
    hide IsTail;
    var s := c.rest;
    var x, r := s[0], s[1..];
    PassesCompose(s, afterGoto);
    TailIsSource(s, 1);
    assert IsTail(r, s) by { TailOfTail(s, 1, s); }
    JumpsInTail(code, s, r);
    RunOne(m, code, c);
    j, g, d := 1, false, Step(m, code, c).state;
    k, d' := PartRuns(m, StatedOut(code, false), c', x, FirstPart(s, afterGoto), StatedOut(r, false), d.st);
  }

  /** The part that stands for a statement which is not a jump. */
  lemma PartRuns<S>(m: Interp<S>, code: seq<Instr>, c: Config<S>, x: Instr, p: Part, t: seq<Instr>, st: S)
    returns (k: nat, d: Config<S>)
    requires UniqueMarks(code) && IsTail(c.rest, code) && c.rest == p.code + t
    requires (x.Act? && st == m.act(x.a, c.st)) || (x.Wait? && st == m.wait(x.w, c.st)) || (x.Mark? && st == c.st)
    requires || p.code == [x] || (x.Mark? && p.code == [Assign(To(x.l)), Goto(State), x])
             || (x.Wait? && exists y :: p.code == [x, Assign(To(y)), Goto(State), Mark(y)])
    ensures 1 <= k <= 4 && Run(m, code, c, k) == Next(d) && Kept(m, code, c, k, st)
    ensures d.rest == t && d.st == st && IsTail(t, code)
  {
    hide UniqueMarks;
    hide IsTail;
    hide Run;
    if p.code[0] == x {
      var rest := p.code[1..] + t;
      assert c.rest == [x] + rest;
      d := OneRuns(m, code, c, x, rest, st);
      k := 1;
      if |p.code| > 1 {
        var y :| p.code == [x, Assign(To(y)), Goto(State), Mark(y)];
        assert rest == [Assign(To(y)), Goto(State), Mark(y)] + t;
        Fallen(m, code, d, y, t);
        RunSplit(m, code, c, 1, 3);
        KeptOn(m, code, c, 1, d, 3, st);
        k, d := 4, Config(t, st, Some(y));
      } else {
        assert rest == t;
      }
    } else {
      Fallen(m, code, c, x.l, t);
      k, d := 3, Config(t, st, Some(x.l));
    }
  }

  lemma OneRuns<S>(m: Interp<S>, code: seq<Instr>, c: Config<S>, x: Instr, t: seq<Instr>, st: S) returns (d: Config<S>)
    requires IsTail(c.rest, code) && c.rest == [x] + t
    requires (x.Act? && st == m.act(x.a, c.st)) || (x.Wait? && st == m.wait(x.w, c.st)) || (x.Mark? && st == c.st)
    ensures d == Config(t, st, c.state) && Run(m, code, c, 1) == Next(d) && Kept(m, code, c, 1, st) && IsTail(t, code)
  {
    Cons(x, t);
    d := Config(t, st, c.state);
    RunOne(m, code, c);
    TailOfTail(c.rest, 1, code);
  }

  lemma JumpTogether<S>(m: Interp<S>, code: seq<Instr>, c: Config<S>, c': Config<S>, afterGoto: bool)
    returns (j: nat, d: Config<S>, k: nat, d': Config<S>, g: bool)
    requires Thread(code) && Aligned(code, c, c', afterGoto) && c.rest != [] && (c.rest[0].Goto? || c.rest[0].IfGoto?)
    requires UniqueMarks(StatedOut(code, false))
    ensures 1 <= j <= 2 && j <= k <= 4 && Run(m, code, c, j) == Next(d) && Run(m, StatedOut(code, false), c', k) == Next(d')
    ensures Aligned(code, d, d', g) && Kept(m, StatedOut(code, false), c', k, d'.st)
  {
    hide StatedOut;
    hide UniqueMarks;
    var s, code' := c.rest, StatedOut(code, false);
    var x, p := s[0], FirstPart(s, afterGoto);
    PassesCompose(s, afterGoto);
    RunOne(m, code, c);
    var (l, u) := EvalDest(m, x.d, c.st, c.state);
    if x.Goto? {
      DestReaches(m, code, x.d, c.st, c.state, c'.state);
      TwoSteps(m, code', c', x.d);
      Landed(code, l.value, u, c.state, l);
      j, k, g, d, d' := 1, 2, true, Step(m, code, c).state, Run(m, code', c', 2).state;
    } else {
      var (v, w) := m.test(x.c, c.st);
      if v {
        j, k, g, d, d' := Taken(m, code, c, c', afterGoto);
      } else {
        j, k, g, d, d' := NotTaken(m, code, c, c', afterGoto);
      }
    }
  }

  /** A conditional goto whose condition holds. */
  lemma Taken<S>(m: Interp<S>, code: seq<Instr>, c: Config<S>, c': Config<S>, afterGoto: bool)
    returns (j: nat, k: nat, g: bool, d: Config<S>, d': Config<S>)
    requires Thread(code) && Aligned(code, c, c', afterGoto) && c.rest != [] && c.rest[0].IfGoto? && m.test(c.rest[0].c, c.st).0
    ensures j == 1 && k == 2 && Run(m, code, c, j) == Next(d) && Run(m, StatedOut(code, false), c', k) == Next(d')
    ensures Aligned(code, d, d', g) && Kept(m, StatedOut(code, false), c', k, d'.st)
  {
    hide StatedOut;
    hide UniqueMarks;
    var s, code' := c.rest, StatedOut(code, false);
    var x, p := s[0], FirstPart(s, afterGoto);
    PassesCompose(s, afterGoto);
    RunOne(m, code, c);
    var w := m.test(x.c, c.st).1;
    DestReaches(m, code, x.d, w, c.state, c'.state);
    var (l, u) := EvalDest(m, x.d, w, c.state);
    var pick := p.code[0].d;
    assert EvalDest(m, pick, c'.st, c'.state) == (l, u);
    TwoSteps(m, code', c', pick);
    Landed(code, l.value, u, c.state, l);
    j, k, g, d, d' := 1, 2, true, Step(m, code, c).state, Run(m, code', c', 2).state;
  }

  /** A conditional goto that is passed, with the goto or the label behind it. */
  lemma NotTaken<S>(m: Interp<S>, code: seq<Instr>, c: Config<S>, c': Config<S>, afterGoto: bool)
    returns (j: nat, k: nat, g: bool, d: Config<S>, d': Config<S>)
    requires Thread(code) && Aligned(code, c, c', afterGoto) && c.rest != [] && c.rest[0].IfGoto? && !m.test(c.rest[0].c, c.st).0
    requires UniqueMarks(StatedOut(code, false))
    ensures 1 <= j <= 2 && j <= k <= 4 && Run(m, code, c, j) == Next(d) && Run(m, StatedOut(code, false), c', k) == Next(d')
    ensures Aligned(code, d, d', g) && Kept(m, StatedOut(code, false), c', k, d'.st)
  {
    hide StatedOut;
    hide UniqueMarks;
    var s, code' := c.rest, StatedOut(code, false);
    var x, p, r := s[0], FirstPart(s, afterGoto), s[1..];
    PassesCompose(s, afterGoto);
    TailIsSource(s, p.taken);
    assert IsTail(s[p.taken..], s);
    JumpsInTail(code, s, s[p.taken..]);
    var w := m.test(x.c, c.st).1;
    var c1 := c.(rest := r, st := w);
    RunOne(m, code, c);
    RunOne(m, code, c1);
    RunSplit(m, code, c, 1, 1);
    var pick := p.code[0].d;
    if GotoNext(r) {
      var e := s[1].d;
      DestReaches(m, code, e, w, c.state, c'.state);
      var (l, u) := EvalDest(m, e, w, c.state);
      assert EvalDest(m, pick, c'.st, c'.state) == (l, u);
      TwoSteps(m, code', c', pick);
      Landed(code, l.value, u, c.state, l);
      j, k, g, d, d' := 2, 2, true, Step(m, code, c1).state, Run(m, code', c', 2).state;
    } else {
      var l := if p.taken == 2 then s[1].l else ProceedAt(s);
      var t := StatedOut(s[p.taken..], false);
      assert EvalDest(m, pick, c'.st, c'.state) == (Some(l), w);
      PickedFall(m, code', c', pick, l, t);
      j, k, g, d' := p.taken, 3, false, Config(t, w, Some(l));
      d := Config(s[p.taken..], w, c.state);
    }
  }

  lemma {:induction false} RunsTogether<S>(m: Interp<S>, code: seq<Instr>, c: Config<S>, c': Config<S>, afterGoto: bool, n: nat)
    returns (j: nat, d: Config<S>, k: nat, d': Config<S>)
    requires Thread(code) && Aligned(code, c, c', afterGoto) && Run(m, code, c, n).Next?
    ensures n <= j <= n + 1 && k >= j && Run(m, code, c, j) == Next(d) && Run(m, StatedOut(code, false), c', k) == Next(d')
    ensures d'.st == d.st && (d.rest == [] ==> d'.rest == [])
    decreases n
  {
    hide StatedOut;
    hide Thread;
    hide Step;
    j, d, k, d' := 0, c, 0, c';
    NothingToDo(afterGoto);
    if c.rest == [] {
      HaltsAtEnd(m, code, c);
    }
    if n > 0 {
      var j1, c1, k1, c1', g := Together(m, code, c, c', afterGoto);
      if j1 >= n {
        j, d, k, d' := j1, c1, k1, c1';
        NothingToDo(g);
      } else {
        RunSplit(m, code, c, j1, n - j1);
        var j2, k2;
        j2, d, k2, d' := RunsTogether(m, code, c1, c1', g, n - j1);
        RunSplit(m, code, c, j1, j2);
        RunSplit(m, StatedOut(code, false), c', k1, k2);
        j, k := j1 + j2, k1 + k2;
      }
    }
  }

  lemma HaltsAtEnd<S>(m: Interp<S>, code: seq<Instr>, c: Config<S>)
    requires c.rest == []
    ensures Step(m, code, c) == Halted
  {
  }

  /** Every run of a thread is a run of its state machine form: at n steps, or one more when a conditional
      goto is being passed, the form has the same data after at least as many steps, and it has ended if
      the thread has. */
  lemma StateOutPreserves<S>(m: Interp<S>, code: seq<Instr>, st: S, n: nat) returns (j: nat, d: Config<S>, k: nat, d': Config<S>)
    requires Thread(code) && Run(m, code, Config(code, st, None), n).Next?
    ensures n <= j <= n + 1 && Run(m, code, Config(code, st, None), j) == Next(d)
    ensures k >= j && Run(m, StatedOut(code, false), Config(StatedOut(code, false), st, None), k) == Next(d')
    ensures d'.st == d.st && (d.rest == [] ==> d'.rest == [])
  {
    hide StatedOut;
    j, d, k, d' := RunsTogether(m, code, Config(code, st, None), Config(StatedOut(code, false), st, None), false, n);
  }

  /** Conversely, whatever data the state machine form has at any point, the thread has at some point at
      least a quarter as far on. */
  lemma {:induction false} FormAddsNothing<S>(m: Interp<S>, code: seq<Instr>, c: Config<S>, c': Config<S>, afterGoto: bool, k: nat)
    returns (j: nat, d: Config<S>)
    requires Thread(code) && Aligned(code, c, c', afterGoto) && Run(m, StatedOut(code, false), c', k).Next?
    ensures 4 * j >= k && Run(m, code, c, j) == Next(d) && d.st == Run(m, StatedOut(code, false), c', k).state.st
    decreases k
  {
    hide StatedOut;
    hide Thread;
    hide Step;
    j, d := 0, c;
    if k > 0 {
      if c.rest == [] {
        NothingToDo(afterGoto);
        HaltsAtEnd(m, StatedOut(code, false), c');
      }
      var j1, c1, k1, c1', g := Together(m, code, c, c', afterGoto);
      if k <= k1 {
        j, d := j1, c1;
      } else {
        RunSplit(m, StatedOut(code, false), c', k1, k - k1);
        var j2;
        j2, d := FormAddsNothing(m, code, c1, c1', g, k - k1);
        RunSplit(m, code, c, j1, j2);
        j := j1 + j2;
      }
    }
  }

  /** Every run of the state machine form has the data of a run of the thread. */
  lemma StateOutReflects<S>(m: Interp<S>, code: seq<Instr>, st: S, k: nat) returns (j: nat, d: Config<S>)
    requires Thread(code) && Run(m, StatedOut(code, false), Config(StatedOut(code, false), st, None), k).Next?
    ensures 4 * j >= k && Run(m, code, Config(code, st, None), j) == Next(d)
    ensures d.st == Run(m, StatedOut(code, false), Config(StatedOut(code, false), st, None), k).state.st
  {
    hide StatedOut;
    j, d := FormAddsNothing(m, code, Config(code, st, None), Config(StatedOut(code, false), st, None), false, k);
  }
}
