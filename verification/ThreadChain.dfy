/** From a thread with waits, labels and conditional gotos to the method that replaces it.

    The state machine form that `StateOut` reaches, with its labels numbered as `LabelEnum` places them,
    is a thread as the fall-through passes receive it, whose bodies wait last.  So what is proved about
    superloop and method holds of the original thread. */
module ThreadChain {
  import opened Prelude
  import opened StateMachine
  import opened FallOut
  import opened PolicyRounds
  import opened SuperLoop
  import opened FallThrough
  import opened OpenThread
  import opened ThreadToMethod
  import LabelEnum
  import StateOut

  type Code = seq<StateOut.Instr>
  type Mark = StateOut.Label

  // ---------- threads without dead code ----------

  /** Only a label comes after a goto, the last statement is a goto, and one right behind a wait has a
      single destination. */
  predicate Tidy(s: Code, afterGoto: bool)
    decreases |s|
  {
    if s == [] then afterGoto
    else
      && (afterGoto ==> s[0].Mark?) && (s[0].Wait? && StateOut.GotoNext(s[1..]) ==> s[1].d.To?)
      && Tidy(s[1..], s[0].Goto?)
  }

  /** The reset code waits before anything else but actions, as EnsureResetYield sees to. */
  predicate WaitsFirst(s: Code)
    decreases |s|
  {
    s != [] && (s[0].Wait? || (s[0].Act? && WaitsFirst(s[1..])))
  }

  /** State machine form with nothing dead: actions, perhaps a wait, an assignment to the state variable
      and a goto, over and over, each after the first behind a label. */
  predicate Steady(s: Code, afterGoto: bool)
    decreases |s|
  {
    if s == [] then afterGoto
    else if afterGoto then s[0].Mark? && Steady(s[1..], false)
    else
      match s[0]
      case Act(_) => Steady(s[1..], false)
      case Wait(_) => |s| > 1 && s[1].Assign? && s[1].d.To? && Steady(s[1..], false)
      case Assign(_) => |s| > 1 && s[1] == StateOut.Goto(StateOut.State) && Steady(s[2..], true)
      case _ => false
  }

  lemma SteadyPlain(x: StateOut.Instr, t: Code)
    requires Steady(t, false) && (x.Act? || (x.Wait? && t != [] && t[0].Assign? && t[0].d.To?))
    ensures Steady([x] + t, false)
  {
    StateOut.Cons(x, t);
  }

  lemma SteadyMark(l: Mark, t: Code)
    requires Steady(t, false)
    ensures Steady([StateOut.Mark(l)] + t, true)
  {
    StateOut.Cons(StateOut.Mark(l), t);
  }

  lemma SteadyJump(d: StateOut.Dest, t: Code)
    requires Steady(t, true)
    ensures Steady([StateOut.Assign(d), StateOut.Goto(StateOut.State)] + t, false)
  {
    assert ([StateOut.Assign(d), StateOut.Goto(StateOut.State)] + t)[2..] == t;
  }

  lemma SteadyJumpMark(d: StateOut.Dest, l: Mark, t: Code)
    requires Steady(t, false)
    ensures Steady([StateOut.Assign(d), StateOut.Goto(StateOut.State), StateOut.Mark(l)] + t, false)
  {
    SteadyMark(l, t);
    SteadyJump(d, [StateOut.Mark(l)] + t);
    assert [StateOut.Assign(d), StateOut.Goto(StateOut.State), StateOut.Mark(l)] + t ==
           [StateOut.Assign(d), StateOut.Goto(StateOut.State)] + ([StateOut.Mark(l)] + t);
  }

  /** The passes of `StateOut` leave nothing dead in a thread that has nothing dead. */
  lemma {:induction false} StatedOutIsSteady(s: Code, afterGoto: bool)
    requires StateOut.Source(s) && Tidy(s, afterGoto)
    ensures var t := StateOut.StatedOut(s, afterGoto);
            Steady(t, afterGoto) && (StateOut.GotoNext(s) ==> t != [] && t[0] == StateOut.Assign(s[0].d))
    decreases |s|
  {
    hide StateOut.StatedOut;
    hide Steady;
    if s == [] {
      StateOut.NothingToDo(afterGoto);
      EmptyIsSteady();
    } else {
      var p := StateOut.FirstPart(s, afterGoto);
      var x := s[0];
      StateOut.PassesCompose(s, afterGoto);
      StateOut.TailIsSource(s, p.taken);
      assert p.taken == 2 ==> s[1..][1..] == s[2..];
      StatedOutIsSteady(s[p.taken..], p.afterGoto);
      var t := StateOut.StatedOut(s[p.taken..], p.afterGoto);
      match x
      case Act(_) => SteadyPlain(x, t);
      case Wait(_) =>
        if StateOut.GotoNext(s[1..]) {
          SteadyPlain(x, t);
        } else {
          var y := StateOut.Yield(|s|);
          SteadyJumpMark(StateOut.To(y), y, t);
          var u := [StateOut.Assign(StateOut.To(y)), StateOut.Goto(StateOut.State), StateOut.Mark(y)] + t;
          SteadyPlain(x, u);
          assert p.code + t == [x] + u;
        }
      case Mark(l) =>
        if afterGoto {
          SteadyMark(l, t);
          assert p.code + t == [x] + t;
        } else {
          SteadyJumpMark(StateOut.To(l), l, t);
          assert p.code + t == [StateOut.Assign(StateOut.To(l)), StateOut.Goto(StateOut.State), StateOut.Mark(l)] + t;
        }
      case Goto(d) => SteadyJump(d, t);
      case IfGoto(c, d) =>
        if StateOut.GotoNext(s[1..]) {
          SteadyJump(p.code[0].d, t);
        } else {
          SteadyJumpMark(p.code[0].d, p.code[2].l, t);
        }
    }
  }

  lemma EmptyIsSteady()
    ensures Steady([], true)
  {
  }

  lemma {:induction false} StatedOutWaitsFirst(s: Code, afterGoto: bool)
    requires StateOut.Source(s) && WaitsFirst(s)
    ensures WaitsFirst(StateOut.StatedOut(s, afterGoto))
    decreases |s|
  {
    hide StateOut.StatedOut;
    StateOut.PassesCompose(s, afterGoto);
    if s[0].Act? {
      StateOut.TailIsSource(s, 1);
      StatedOutWaitsFirst(s[1..], false);
      StateOut.Cons(s[0], StateOut.StatedOut(s[1..], false));
    }
  }

  // ---------- numbering ----------

  function Marks(s: Code): seq<Mark> {
    if s == [] then [] else (if s[0].Mark? then [s[0].l] else []) + Marks(s[1..])
  }

  /** lmap: the labels in the order in which they are placed. */
  function Numbers(s: Code): seq<Mark> {
    LabelEnum.TableOf(Marks(s)).lmap
  }

  function Number(ls: seq<Mark>, l: Mark): nat {
    LabelEnum.IndexOfLabel(ls, l)
  }

  function TargetOf(ls: seq<Mark>, d: StateOut.Dest): Target {
    match d
    case To(l) => Const(Number(ls, l))
    case Pick(c, a, b) => Choose(c, TargetOf(ls, a), TargetOf(ls, b))
    case State => Const(0) // not assigned to the state variable
  }

  /** A statement with labels numbered; waits make room for the wait for a delta cycle. */
  function Translate(ls: seq<Mark>, x: StateOut.Instr): Stmt {
    match x
    case Act(a) => Act(Compute(a))
    case Wait(w) => Wait(DELTA + 1 + w)
    case Mark(l) => Label(Number(ls, l), Number(ls, l))
    case Assign(d) => Act(SetState(TargetOf(ls, d)))
    case Goto(_) => Goto
    case IfGoto(_, _) => Goto // none is left
  }

  function TranslateAll(ls: seq<Mark>, s: Code): (p: seq<Stmt>)
    ensures |p| == |s| && forall i :: 0 <= i < |s| ==> p[i] == Translate(ls, s[i])
  {
    seq(|s|, i requires 0 <= i < |s| => Translate(ls, s[i]))
  }

  function FirstJump(s: Code): (j: nat)
    ensures j <= |s|
  {
    if s == [] || s[0].Goto? then 0 else 1 + FirstJump(s[1..])
  }

  /** The statements before the first goto. */
  function Upto(s: Code): Code {
    s[..FirstJump(s)]
  }

  function BodyAt(ls: seq<Mark>, s: Code, l: Mark): seq<Stmt> {
    var t := StateOut.From(s, l);
    if t.None? || t.value == [] then [] else TranslateAll(ls, Upto(t.value[1..]))
  }

  /** lmap as a map: the label of each state bears its number. */
  function Identity(n: nat): (lm: LabelMap)
    ensures forall k: nat :: k in lm <==> k < n
    ensures forall k :: k in lm ==> lm[k] == k
  {
    if n == 0 then map[] else Identity(n - 1)[n - 1 := n - 1]
  }

  /** The parts of a thread as the fall-through passes see them. */
  datatype Numbered = Numbered(b: Blocks, lm: LabelMap, reset: seq<Stmt>, ks: seq<nat>)

  function NumberedThread(s: Code): Numbered {
    var ls := Numbers(s);
    Numbered(map k: nat | k < |ls| :: BodyAt(ls, s, ls[k]), Identity(|ls|), TranslateAll(ls, Upto(s)), seq(|ls|, i => i))
  }

  predicate Distinct(ls: seq<Mark>) {
    forall j, k :: 0 <= j < k < |ls| ==> ls[j] != ls[k]
  }

  lemma {:induction false} MarksAreThose(s: Code, l: Mark)
    ensures l in Marks(s) <==> StateOut.Mark(l) in s
  {
    if s != [] {
      MarksAreThose(s[1..], l);
      assert s == [s[0]] + s[1..];
    }
  }

  lemma {:induction false} MarksDiffer(s: Code)
    requires StateOut.UniqueMarks(s)
    ensures Distinct(Marks(s))
  {
    if s != [] {
      forall i, j | 0 <= i < j < |s[1..]| && s[1..][i].Mark? ensures s[1..][i] != s[1..][j] {
        assert s[i + 1] != s[j + 1];
      }
      MarksDiffer(s[1..]);
      if s[0].Mark? {
        MarksAreThose(s[1..], s[0].l);
        assert StateOut.Mark(s[0].l) !in s[1..];
      }
    }
  }

  /** The labels of a thread are numbered in the order of their declarations. */
  lemma NumbersAreMarks(s: Code)
    requires StateOut.UniqueMarks(s)
    ensures Numbers(s) == Marks(s) && Distinct(Numbers(s))
  {
    MarksDiffer(s);
    assert [] + Marks(s) == Marks(s);
    LabelEnum.DistinctInOrder(LabelEnum.Table([], []), Marks(s));
  }

  lemma NumberAt(ls: seq<Mark>, k: nat)
    requires Distinct(ls) && k < |ls|
    ensures Number(ls, ls[k]) == k
  {
  }

  // ---------- the shape of the numbered thread ----------

  lemma {:induction false} SteadySplit(s: Code)
    requires Steady(s, false)
    ensures var j := FirstJump(s);
            0 < j < |s| && s[j] == StateOut.Goto(StateOut.State) && s[j - 1].Assign? && Steady(s[j + 1..], true)
    ensures Marks(s) == Marks(s[FirstJump(s) + 1..])
    decreases |s|
  {
    if s[0].Assign? {
      assert s[1..][1..] == s[2..];
      assert FirstJump(s[1..]) == 0;
    } else {
      SteadySplit(s[1..]);
      var j := FirstJump(s[1..]);
      assert s[1..][j + 1..] == s[j + 2..] && s[1..][j] == s[j + 1] && s[1..][j - 1] == s[j];
    }
  }

  /** A body either does not wait, or waits once and then only sets the state variable. */
  lemma {:induction false} SteadyBody(ls: seq<Mark>, s: Code)
    requires Steady(s, false)
    ensures var body := TranslateAll(ls, Upto(s));
            (Combable(body) || WaitsLast(body)) && (WaitsFirst(s) ==> WaitsLast(body))
    decreases |s|
  {
    hide WaitsLast;
    var body := TranslateAll(ls, Upto(s));
    SteadySplit(s);
    if s[0].Act? {
      var rest := TranslateAll(ls, Upto(s[1..]));
      assert Upto(s) == [s[0]] + Upto(s[1..]);
      assert body == [Translate(ls, s[0])] + rest;
      SteadyBody(ls, s[1..]);
      if WaitsLast(rest) {
        WaitsLastAppend([Translate(ls, s[0])], rest);
      }
    } else if s[0].Wait? {
      assert s[2] == s[1..][1];
      assert FirstJump(s[2..]) == 0 && s[1..][1..] == s[2..] && FirstJump(s[1..]) == 1;
      assert body == [Translate(ls, s[0]), Translate(ls, s[1])];
      WaitThenSet(body);
    } else {
      assert FirstJump(s[1..]) == 0;
      assert body == [Translate(ls, s[0])];
    }
  }

  lemma WaitThenSet(body: seq<Stmt>)
    requires |body| == 2 && body[0].Wait? && SetsState(body[1])
    ensures WaitsLast(body)
  {
    assert WaitsAt(body, 0);
  }

  lemma WaitsLastYields(body: seq<Stmt>)
    requires WaitsLast(body)
    ensures Yields(body) && Straight(body)
  {
    var w: nat :| WaitsAt(body, w);
    forall i | 0 <= i < |body| && i != w ensures body[i].Act? {
      if i < w {
        assert body[..w][i] == body[i];
      }
    }
  }

  /** The numbered statements are the reset code, a goto, and the states in order. */
  lemma NumberedIsTranslation(s: Code)
    requires Steady(s, false) && StateOut.UniqueMarks(s)
    ensures var t := NumberedThread(s);
            TranslateAll(Numbers(s), s) == InitialThread(t.b, t.lm, t.reset, t.ks)
  {
    hide Steady;
    hide Marks;
    hide TranslateAll;
    hide FirstJump;
    hide Flat;
    var t, ls, j := NumberedThread(s), Numbers(s), FirstJump(s);
    NumbersAreMarks(s);
    SteadySplit(s);
    var r := s[j + 1..];
    StatesInOrder(s);
    assert ls[0..] == ls && t.ks[0..] == t.ks;
    StatesAreTail(s, r, 0);
    TranslateSplit(ls, s, j);
    assert t.reset + [] == t.reset;
  }

  lemma TranslateSplit(ls: seq<Mark>, s: Code, j: nat)
    requires j < |s| && s[j] == StateOut.Goto(StateOut.State)
    ensures TranslateAll(ls, s) == TranslateAll(ls, s[..j]) + [Goto] + TranslateAll(ls, s[j + 1..])
  {
  }

  /** The states from number i on are the part of the thread from there on. */
  lemma {:induction false} StatesAreTail(s: Code, r: Code, i: nat)
    requires StateOut.UniqueMarks(s) && StateOut.IsTail(r, s) && Steady(r, true)
    requires i <= |Numbers(s)| == |NumberedThread(s).ks| && Numbers(s)[i..] == Marks(r)
    ensures var t := NumberedThread(s);
            Flat(t.b, t.lm, t.ks[i..]) == TranslateAll(Numbers(s), r)
    decreases |r|
  {
    hide TranslateAll;
    hide FirstJump;
    hide Numbers;
    hide NumberedThread;
    hide StateOut.UniqueMarks;
    hide StateOut.IsTail;
    hide Flat;
    hide Marks;
    hide Steady;
    hide LabelOf;
    hide Body;
    hide Translate;
    MarksHead(r);
    SteadyHead(r);
    var t, ls := NumberedThread(s), Numbers(s);
    if r == [] {
      assert t.ks[i..] == [];
      FlatNone(t.b, t.lm);
    } else {
      var j, l := FirstJump(r[1..]), r[0].l;
      SteadySplit(r[1..]);
      var r' := r[1..][j + 1..];
      SliceHead(ls, i, l, Marks(r'));
      assert r' == r[j + 2..];
      StateOut.TailOfTail(r, j + 2, s);
      StatesAreTail(s, r', i + 1);
      StateIs(s, r, i);
      TranslateState(ls, r, j);
      StatesFrom(s, i);
      FlatHead(t.b, t.lm, i, t.ks[i + 1..]);
    }
  }

  lemma SliceHead(ls: seq<Mark>, i: nat, l: Mark, rest: seq<Mark>)
    requires i <= |ls| && ls[i..] == [l] + rest
    ensures i < |ls| && ls[i] == l && ls[i + 1..] == rest
  {
    assert ls[i..][0] == l && ls[i..][1..] == rest;
  }

  lemma StatesFrom(s: Code, i: nat)
    requires i < |Numbers(s)|
    ensures var ks := NumberedThread(s).ks; |ks| == |Numbers(s)| && ks[i..] == [i] + ks[i + 1..]
  {
    hide Numbers;
    var ks := NumberedThread(s).ks;
    StatesInOrder(s);
    assert ks[i] == i;
  }

  /** A label, what is behind it up to the goto, and the rest. */
  lemma TranslateState(ls: seq<Mark>, r: Code, j: nat)
    requires r != [] && j < |r[1..]| && r[1..][j] == StateOut.Goto(StateOut.State)
    ensures TranslateAll(ls, r) ==
            [Translate(ls, r[0])] + TranslateAll(ls, r[1..][..j]) + [Goto] + TranslateAll(ls, r[1..][j + 1..])
  {
    hide TranslateAll;
    TranslateSplit(ls, r[1..], j);
    TranslateCons(ls, r);
    Regroup(Translate(ls, r[0]), TranslateAll(ls, r[1..][..j]), TranslateAll(ls, r[1..][j + 1..]));
  }

  lemma MarksHead(s: Code)
    ensures Marks(s) == if s == [] then [] else (if s[0].Mark? then [s[0].l] else []) + Marks(s[1..])
  {
  }

  lemma SteadyHead(s: Code)
    requires Steady(s, true)
    ensures s != [] ==> s[0].Mark? && Steady(s[1..], false)
  {
  }

  lemma FlatNone(b: Blocks, lm: LabelMap)
    ensures Flat(b, lm, []) == []
  {
  }

  lemma FlatHead(b: Blocks, lm: LabelMap, k: nat, ks: seq<nat>)
    ensures Flat(b, lm, [k] + ks) == [LabelOf(lm, k)] + Body(b, k) + [Goto] + Flat(b, lm, ks)
  {
    assert ([k] + ks)[1..] == ks;
  }

  lemma Regroup(x: Stmt, body: seq<Stmt>, rest: seq<Stmt>)
    ensures [x] + (body + [Goto] + rest) == [x] + body + [Goto] + rest
  {
  }

  lemma TranslateCons(ls: seq<Mark>, s: Code)
    requires s != []
    ensures TranslateAll(ls, s) == [Translate(ls, s[0])] + TranslateAll(ls, s[1..])
  {
  }

  lemma StatesInOrder(s: Code)
    ensures var t := NumberedThread(s);
            |t.ks| == |Numbers(s)| && forall k :: 0 <= k < |t.ks| ==> t.ks[k] == k
  {
  }

  /** The state of the label at the head of r. */
  lemma StateIs(s: Code, r: Code, i: nat)
    requires StateOut.UniqueMarks(s) && StateOut.IsTail(r, s) && r != [] && i < |Numbers(s)| && r[0] == StateOut.Mark(Numbers(s)[i])
    ensures var t := NumberedThread(s);
            && Body(t.b, i) == TranslateAll(Numbers(s), r[1..][..FirstJump(r[1..])])
            && LabelOf(t.lm, i) == Translate(Numbers(s), r[0])
  {
    hide Numbers;
    hide StateOut.From;
    var ls := Numbers(s);
    NumbersAreMarks(s);
    NumberAt(ls, i);
    StateOut.FromTail(s, ls[i], r);
  }

  // ---------- destinations ----------

  /** Every label of a destination is declared. */
  predicate Found(s: Code, d: StateOut.Dest) {
    match d
    case To(l) => StateOut.Mark(l) in s
    case Pick(_, a, b) => Found(s, a) && Found(s, b)
    case State => false
  }

  ghost predicate AllFound(s: Code, t: Code) {
    forall i :: 0 <= i < |t| && t[i].Assign? ==> Found(s, t[i].d)
  }

  lemma {:induction false} ReachableIsFound(code: Code, d: StateOut.Dest)
    requires StateOut.Source(code) && StateOut.Reachable(code, d)
    ensures Found(StateOut.StatedOut(code, false), d)
  {
    hide StateOut.StatedOut;
    match d
    case To(l) =>
      StateOut.FromStatedOut(code, false, l);
      StateOut.FromIsTail(StateOut.StatedOut(code, false), l);
    case Pick(_, a, b) =>
      ReachableIsFound(code, a);
      ReachableIsFound(code, b);
  }

  /** Every state that the state machine form may go to has a label. */
  lemma {:induction false} StatesAreFound(code: Code, s: Code, afterGoto: bool)
    requires StateOut.Source(code) && StateOut.Source(s) && StateOut.JumpsReach(code, s)
    requires StateOut.IsTail(StateOut.StatedOut(s, afterGoto), StateOut.StatedOut(code, false))
    ensures AllFound(StateOut.StatedOut(code, false), StateOut.StatedOut(s, afterGoto))
    decreases |s|
  {
    hide StateOut.StatedOut;
    hide StateOut.JumpsReach;
    hide StateOut.FirstPart;
    if s == [] {
      StateOut.NothingToDo(afterGoto);
    } else {
      var p, whole := StateOut.FirstPart(s, afterGoto), StateOut.StatedOut(code, false);
      StateOut.PassesCompose(s, afterGoto);
      var r, t := s[p.taken..], StateOut.StatedOut(s, afterGoto);
      StateOut.TailIsSource(s, p.taken);
      assert StateOut.IsTail(r, s);
      StateOut.JumpsInTail(code, s, r);
      StateOut.TailOfTail(t, |p.code|, whole);
      assert t[|p.code|..] == StateOut.StatedOut(r, p.afterGoto);
      PartShrinks(s, afterGoto);
      StatesAreFound(code, r, p.afterGoto);
      PartIsFound(code, s, afterGoto);
    }
  }

  lemma PartShrinks(s: Code, afterGoto: bool)
    requires s != []
    ensures StateOut.FirstPart(s, afterGoto).taken > 0
  {
  }

  lemma PartIsFound(code: Code, s: Code, afterGoto: bool)
    requires StateOut.Source(code) && StateOut.Source(s) && s != [] && StateOut.JumpsReach(code, s)
    requires var p := StateOut.FirstPart(s, afterGoto);
             p.taken <= |s| && forall l :: StateOut.Mark(l) in p.code ==> StateOut.Mark(l) in StateOut.StatedOut(code, false)
    ensures AllFound(StateOut.StatedOut(code, false), StateOut.FirstPart(s, afterGoto).code)
  {
    hide StateOut.StatedOut;
    hide StateOut.Source;
    hide StateOut.Reachable;
    hide StateOut.ProceedAt;
    var p, whole := StateOut.FirstPart(s, afterGoto), StateOut.StatedOut(code, false);
    if s[0].Goto? || s[0].IfGoto? {
      ReachableIsFound(code, s[0].d);
    }
    if |s| > 1 && s[1].Goto? {
      ReachableIsFound(code, s[1].d);
    }
    var n := |p.code|;
    if n >= 3 {
      assert p.code[n - 1] in p.code;
      PartHasLabel(s, afterGoto);
    }
    forall i | 0 <= i < |p.code| && p.code[i].Assign? ensures Found(whole, p.code[i].d) {
      PartDest(whole, s, afterGoto, i);
    }
  }

  /** A part of three statements or more ends in a label, to which the assignment before it may go. */
  lemma PartHasLabel(s: Code, afterGoto: bool)
    requires s != []
    ensures var c := StateOut.FirstPart(s, afterGoto).code; |c| >= 3 ==> c[|c| - 1].Mark?
  {
    hide StateOut.ProceedAt;
  }

  lemma PartDest(whole: Code, s: Code, afterGoto: bool, i: nat)
    requires StateOut.Source(s) && s != []
    requires (s[0].Goto? || s[0].IfGoto?) ==> Found(whole, s[0].d)
    requires |s| > 1 && s[1].Goto? ==> Found(whole, s[1].d)
    requires var c := StateOut.FirstPart(s, afterGoto).code;
             i < |c| && c[i].Assign? && (|c| >= 3 ==> c[|c| - 1].Mark? && c[|c| - 1] in whole)
    ensures Found(whole, StateOut.FirstPart(s, afterGoto).code[i].d)
  {
    hide StateOut.ProceedAt;
    hide Found;
    FoundTo(whole);
    FoundPick(whole);
  }

  lemma FoundTo(whole: Code)
    ensures forall l :: StateOut.Mark(l) in whole ==> Found(whole, StateOut.To(l))
  {
  }

  lemma FoundPick(whole: Code)
    ensures forall c, a, b :: Found(whole, a) && Found(whole, b) ==> Found(whole, StateOut.Pick(c, a, b))
  {
  }

  // ---------- the numbered thread is one that the fall-through passes take ----------

  /** A state machine form in which everything has its place. */
  ghost predicate Sound(s: Code) {
    Steady(s, false) && StateOut.UniqueMarks(s) && AllFound(s, s) && WaitsFirst(s)
  }

  /** Waits do what they do in the original; in the delta cycles that are put in nothing happens. */
  function SemOf(m: StateOut.Interp<Rest>): Sem {
    Sem(m.act, m.test, (w: Name, r: Rest) => if w > DELTA then m.wait(w - DELTA - 1, r) else r)
  }

  lemma NothingInDelta(m: StateOut.Interp<Rest>)
    ensures QuietDelta(SemOf(m))
  {
  }

  /** What is assigned to the state variable is the number of the label. */
  lemma {:induction false} ChosenIsNumber(m: StateOut.Interp<Rest>, s: Code, ls: seq<Mark>, d: StateOut.Dest, r: Rest, state: Option<Mark>)
    requires Found(s, d)
    ensures var (l, u) := StateOut.EvalDest(m, d, r, state);
            l.Some? && StateOut.Mark(l.value) in s && Chosen(SemOf(m), TargetOf(ls, d), r) == (Number(ls, l.value), u)
  {
    match d
    case To(_) =>
    case Pick(c, a, b) =>
      ChosenIsNumber(m, s, ls, a, m.test(c, r).1, state);
      ChosenIsNumber(m, s, ls, b, m.test(c, r).1, state);
  }

  lemma NumberInRange(s: Code, l: Mark)
    requires StateOut.UniqueMarks(s) && StateOut.Mark(l) in s
    ensures Number(Numbers(s), l) < |Numbers(s)|
  {
    NumbersAreMarks(s);
    MarksAreThose(s, l);
  }

  /** Each body ends by setting the state to one that has a label. */
  lemma BodySetsState(m: StateOut.Interp<Rest>, s: Code, t: Code, d: Data)
    requires StateOut.UniqueMarks(s) && StateOut.IsTail(t, s) && AllFound(s, s) && Steady(t, false)
    ensures RunBody(SemOf(m), TranslateAll(Numbers(s), Upto(t)), d).state < |Numbers(s)|
  {
    hide Numbers;
    hide Steady;
    hide Found;
    hide StateOut.UniqueMarks;
    hide SemOf;
    hide FirstJump;
    SteadySplit(t);
    var ls, j := Numbers(s), FirstJump(t);
    var body := TranslateAll(ls, Upto(t));
    var dest := t[j - 1].d;
    assert s[|s| - |t|..][j - 1] == t[j - 1];
    assert s[|s| - |t| + j - 1] == StateOut.Assign(dest);
    assert body[|body| - 1] == Act(SetState(TargetOf(ls, dest)));
    var e := RunBody(SemOf(m), body[..|body| - 1], d);
    ChosenIsNumber(m, s, ls, dest, e.rest, None);
    NumberInRange(s, StateOut.EvalDest(m, dest, e.rest, None).0.value);
  }

  /** The body of a state, in the code. */
  lemma {:induction false} StateHasBody(s: Code, k: nat) returns (t: Code)
    requires Steady(s, false) && StateOut.UniqueMarks(s) && k < |Numbers(s)|
    ensures StateOut.IsTail(t, s) && Steady(t, false) && Body(NumberedThread(s).b, k) == TranslateAll(Numbers(s), Upto(t))
  {
    hide Numbers;
    var l := Numbers(s)[k];
    NumbersAreMarks(s);
    MarksAreThose(s, l);
    var i :| 0 <= i < |s| && s[i] == StateOut.Mark(l);
    var r := s[i..];
    StateIs(s, r, k);
    SteadyAt(s, false, i);
    t := r[1..];
    StateOut.TailOfTail(r, 1, s);
  }

  lemma {:induction false} SteadyAt(s: Code, afterGoto: bool, i: nat)
    requires Steady(s, afterGoto) && i < |s| && s[i].Mark?
    ensures Steady(s[i..], true)
    decreases |s|
  {
    if i == 0 {
      assert s[0..] == s;
    } else if !afterGoto && s[0].Assign? {
      assert s[2..][i - 2..] == s[i..];
      SteadyAt(s[2..], true, i - 2);
    } else {
      assert s[1..][i - 1..] == s[i..];
      SteadyAt(s[1..], false, i - 1);
    }
  }

  lemma BodyIsOk(s: Code, k: nat)
    requires Sound(s) && k < |Numbers(s)|
    ensures var t := NumberedThread(s);
            StateOk(t.b, t.lm, k) && Straight(t.b[k]) && (Combable(t.b[k]) || WaitsLast(t.b[k]))
  {
    hide Numbers;
    hide Steady;
    hide WaitsLast;
    var t := StateHasBody(s, k);
    SteadyBody(Numbers(s), t);
    var body := TranslateAll(Numbers(s), Upto(t));
    if WaitsLast(body) {
      WaitsLastYields(body);
    }
  }

  /** What the fall-through passes need to know about their thread holds of the numbered one. */
  lemma NumberedIsInitial(s: Code)
    requires Sound(s)
    ensures var t := NumberedThread(s);
            Initial(t.b, t.lm, t.reset, t.ks) && Settled(t.b, t.reset, t.ks)
  {
    hide Steady;
    hide WaitsLast;
    hide Numbers;
    hide Yields;
    hide Combable;
    hide StateOut.UniqueMarks;
    var t, n := NumberedThread(s), |Numbers(s)|;
    StatesInOrder(s);
    forall k: nat | k < n ensures StateOk(t.b, t.lm, k) && Straight(t.b[k]) && (Combable(t.b[k]) || WaitsLast(t.b[k])) {
      BodyIsOk(s, k);
    }
    forall k | k in t.b ensures k in t.lm && k in t.ks {
      assert t.ks[k] == k;
    }
    SteadyBody(Numbers(s), s);
    WaitsLastYields(t.reset);
    HasStates(s);
  }

  lemma HasStates(s: Code)
    requires Sound(s)
    ensures Numbers(s) != []
  {
    hide Steady;
    hide Numbers;
    SteadySplit(s);
    var m := StateOut.Interp((a: nat, r: Rest) => r, (w: nat, r: Rest) => r, (c: nat, r: Rest) => (true, r));
    assert StateOut.IsTail(s, s);
    BodySetsState(m, s, s, Data(0, Rest(map[], []), 0));
  }

  lemma NumberedIsClosed(m: StateOut.Interp<Rest>, s: Code, d: Data)
    requires Sound(s)
    ensures var t := NumberedThread(s);
            Closed(SemOf(m), t.b) && RunBody(SemOf(m), t.reset, d).state in t.b
  {
    hide Steady;
    hide RunBody;
    hide Numbers;
    hide SemOf;
    hide Upto;
    var t := NumberedThread(s);
    assert StateOut.IsTail(s, s);
    BodySetsState(m, s, s, d);
    forall e: Data | e.state in t.b ensures RunBody(SemOf(m), t.b[e.state], e).state in t.b {
      var r := StateHasBody(s, e.state);
      BodySetsState(m, s, r, e);
    }
  }

  // ---------- the two run in step ----------

  ghost predicate Standing(c: StateOut.Config<Rest>) {
    || Steady(c.rest, false) || Steady(c.rest, true)
    || (c.rest != [] && c.rest[0] == StateOut.Goto(StateOut.State) && c.state.Some? && Steady(c.rest[1..], true))
  }

  /** The same place, the same data, and the number of the label in the state variable. */
  ghost predicate Same(s: Code, c: StateOut.Config<Rest>, e: Config) {
    && StateOut.IsTail(c.rest, s) && e.pc == |s| - |c.rest| && e.d.rest == c.st && Standing(c)
    && (c.state.Some? ==> StateOut.Mark(c.state.value) in s && e.d.state == Number(Numbers(s), c.state.value))
  }

  /** A label is found at the same place by its number. */
  lemma FindNumbered(s: Code, l: Mark)
    requires StateOut.UniqueMarks(s) && StateOut.Mark(l) in s
    ensures var p, t := TranslateAll(Numbers(s), s), StateOut.From(s, l);
            t.Some? && t.value != [] && t.value[0] == StateOut.Mark(l) && StateOut.IsTail(t.value, s)
            && FindLabel(p, Number(Numbers(s), l)) == |s| - |t.value| < |p|
  {
    hide Numbers;
    hide Number;
    hide StateOut.From;
    var ls, i :| ls == Numbers(s) && 0 <= i < |s| && s[i] == StateOut.Mark(l);
    assert StateOut.IsTail(s[i..], s);
    StateOut.FromTail(s, l, s[i..]);
    var p := TranslateAll(ls, s);
    assert IsLabel(p[i], Number(ls, l));
    var q := FindLabel(p, Number(ls, l));
    LabelAt(s, q, l);
  }

  lemma LabelAt(s: Code, q: nat, l: Mark)
    requires StateOut.UniqueMarks(s) && StateOut.Mark(l) in s && q < |s| && IsLabel(Translate(Numbers(s), s[q]), Number(Numbers(s), l))
    ensures s[q] == StateOut.Mark(l)
  {
    hide Numbers;
    NumbersAreMarks(s);
    MarksAreThose(s, l);
    MarksAreThose(s, s[q].l);
  }

  /** What the next statement may be, and what follows it. */
  lemma StandingHead(c: StateOut.Config<Rest>)
    requires Standing(c) && c.rest != []
    ensures var x, r := c.rest[0], c.rest[1..];
            match x
            case Goto(d) => d == StateOut.State && c.state.Some?
            case IfGoto(_, _) => false
            case Assign(_) => r != [] && r[0] == StateOut.Goto(StateOut.State) && Steady(r[1..], true)
            case _ => Steady(r, false)
  {
    assert |c.rest| > 1 ==> c.rest[1..][1..] == c.rest[2..];
  }

  function ThreadStep(m: StateOut.Interp<Rest>, s: Code, e: Config): Option<Config> {
    Step(SemOf(m), NumberedThread(s).lm, TranslateAll(Numbers(s), s), e)
  }

  lemma SameGoto(m: StateOut.Interp<Rest>, s: Code, c: StateOut.Config<Rest>, e: Config)
    requires Sound(s) && Same(s, c, e) && c.rest != [] && c.rest[0].Goto?
    ensures var c', e' := StateOut.Step(m, s, c), ThreadStep(m, s, e);
            c'.Next? && e'.Some? && Same(s, c'.state, e'.value)
  {
    hide Numbers;
    hide Number;
    hide StateOut.UniqueMarks;
    hide AllFound;
    hide Steady;
    hide WaitsFirst;
    hide StateOut.From;
    hide StateOut.IsTail;
    hide ThreadStep;
    hide TranslateAll;
    hide StateOut.Step;
    hide FindLabel;
    StandingHead(c);
    var l := c.state.value;
    NumberInRange(s, l);
    FindNumbered(s, l);
    TailAt(s, c.rest);
    var t := StateOut.From(s, l).value;
    TailAt(s, t);
    SteadyAt(s, false, |s| - |t|);
    GotoSteps(m, s, c, e, l, t);
  }

  lemma GotoSteps(m: StateOut.Interp<Rest>, s: Code, c: StateOut.Config<Rest>, e: Config, l: Mark, t: Code)
    requires c.rest != [] && c.rest[0] == StateOut.Goto(StateOut.State) && c.state == Some(l) && StateOut.From(s, l) == Some(t)
    requires e.pc < |s| && s[e.pc] == c.rest[0] && e.d.state < |Numbers(s)|
    requires FindLabel(TranslateAll(Numbers(s), s), e.d.state) == |s| - |t| < |s|
    ensures StateOut.Step(m, s, c) == Next(StateOut.Config(t, c.st, c.state))
    ensures ThreadStep(m, s, e) == Some(e.(pc := |s| - |t|))
  {
    hide Numbers;
    hide FindLabel;
    hide StateOut.From;
  }

  lemma TailAt(s: Code, t: Code)
    requires StateOut.IsTail(t, s) && t != []
    ensures |t| <= |s| && s[|s| - |t|] == t[0] && s[|s| - |t|..] == t && StateOut.IsTail(t[1..], s)
  {
    StateOut.TailOfTail(t, 1, s);
  }

  lemma SameAssign(m: StateOut.Interp<Rest>, s: Code, c: StateOut.Config<Rest>, e: Config)
    requires Sound(s) && Same(s, c, e) && c.rest != [] && c.rest[0].Assign?
    ensures var c', e' := StateOut.Step(m, s, c), ThreadStep(m, s, e);
            c'.Next? && e'.Some? && Same(s, c'.state, e'.value)
  {
    hide Numbers;
    hide Number;
    hide StateOut.UniqueMarks;
    hide Steady;
    hide WaitsFirst;
    hide Found;
    hide SemOf;
    hide StateOut.IsTail;
    StandingHead(c);
    TailAt(s, c.rest);
    assert Found(s, s[e.pc].d);
    ChosenIsNumber(m, s, Numbers(s), c.rest[0].d, c.st, c.state);
  }

  lemma SamePlain(m: StateOut.Interp<Rest>, s: Code, c: StateOut.Config<Rest>, e: Config)
    requires Sound(s) && Same(s, c, e) && c.rest != [] && (c.rest[0].Act? || c.rest[0].Wait? || c.rest[0].Mark?)
    ensures var c', e' := StateOut.Step(m, s, c), ThreadStep(m, s, e);
            c'.Next? && e'.Some? && Same(s, c'.state, e'.value)
  {
    hide Numbers;
    hide Number;
    hide Sound;
    hide Steady;
    hide StateOut.IsTail;
    StandingHead(c);
    TailAt(s, c.rest);
  }

  /** The state machine form takes every step of the numbered thread with it. */
  lemma {:induction false} SameRun(m: StateOut.Interp<Rest>, s: Code, c: StateOut.Config<Rest>, e: Config, k: nat)
    requires Sound(s) && Same(s, c, e)
    requires Run(SemOf(m), NumberedThread(s).lm, TranslateAll(Numbers(s), s), e, k).Some?
    ensures var r, e' := StateOut.Run(m, s, c, k), Run(SemOf(m), NumberedThread(s).lm, TranslateAll(Numbers(s), s), e, k).value;
            r.Next? && Same(s, r.state, e')
    decreases k
  {
    hide Sound;
    hide Standing;
    hide StateOut.Step;
    hide Numbers;
    hide NumberedThread;
    hide TranslateAll;
    hide SemOf;
    if k > 0 {
      AtEnd(m, s, c, e);
      hide Step;
      if c.rest[0].Goto? {
        SameGoto(m, s, c, e);
      } else if c.rest[0].Assign? {
        SameAssign(m, s, c, e);
      } else {
        StandingHead(c);
        SamePlain(m, s, c, e);
      }
      SameRun(m, s, StateOut.Step(m, s, c).state, ThreadStep(m, s, e).value, k - 1);
    }
  }

  lemma AtEnd(m: StateOut.Interp<Rest>, s: Code, c: StateOut.Config<Rest>, e: Config)
    requires Same(s, c, e) && ThreadStep(m, s, e).Some?
    ensures c.rest != []
  {
    hide Standing;
  }

  // ---------- the original thread ----------

  /** A thread that runs for ever, without dead code, and waits first. */
  ghost predicate Regular(code: Code) {
    StateOut.Thread(code) && Tidy(code, false) && WaitsFirst(code)
  }

  /** wait; L: act; if( c ) goto L; wait; goto L */
  lemma SomeThreadIsRegular()
    ensures var l := StateOut.User(0);
            Regular([StateOut.Wait(0), StateOut.Mark(l), StateOut.Act(0), StateOut.IfGoto(0, StateOut.To(l)), StateOut.Wait(1), StateOut.Goto(StateOut.To(l))])
  {
    var l := StateOut.User(0);
    var code := [StateOut.Wait(0), StateOut.Mark(l), StateOut.Act(0), StateOut.IfGoto(0, StateOut.To(l)), StateOut.Wait(1), StateOut.Goto(StateOut.To(l))];
    assert code[1..][0] == StateOut.Mark(l);
    assert StateOut.From(code[1..], l).Some?;
    var c2, c3, c4, c5 := code[2..], code[3..], code[4..], code[5..];
    assert code[1..][1..] == c2 && c2[1..] == c3 && c3[1..] == c4 && c4[1..] == c5 && c5[1..] == [];
    assert StateOut.UserDest(StateOut.To(l)) && c5[0] == StateOut.Goto(StateOut.To(l)) && StateOut.Source(c5[1..]);
    assert StateOut.Source(c5) && StateOut.Source(c4) && StateOut.Source(c3) && StateOut.Source(c2);
    assert StateOut.Source(code[1..]) && StateOut.Source(code);
    assert StateOut.From(code, l).Some? && StateOut.Reachable(code, StateOut.To(l));
    assert Tidy(c5, false) && Tidy(c4, false) && Tidy(c3, false) && Tidy(c2, false);
  }

  function Machined(code: Code): Numbered {
    NumberedThread(StateOut.StatedOut(code, false))
  }

  /** The state machine form of such a thread is sound. */
  lemma FormIsSound(code: Code)
    requires Regular(code)
    ensures Sound(StateOut.StatedOut(code, false))
  {
    hide StateOut.StatedOut;
    hide Tidy;
    hide Steady;
    hide AllFound;
    hide WaitsFirst;
    StatedOutIsSteady(code, false);
    StatedOutWaitsFirst(code, false);
    StateOut.UniqueStatedOut(code, false);
    assert StateOut.IsTail(StateOut.StatedOut(code, false), StateOut.StatedOut(code, false));
    StatesAreFound(code, code, false);
  }

  /** At every point of its run the numbered thread has the data that the original thread has at some
      point at least a quarter as far on. */
  lemma NumberedPreserves(m: StateOut.Interp<Rest>, code: Code, d: Data, k: nat, e: Config) returns (j: nat, c: StateOut.Config<Rest>)
    requires Regular(code)
    requires var t := Machined(code);
             Run(SemOf(m), t.lm, InitialThread(t.b, t.lm, t.reset, t.ks), Config(0, d, []), k) == Some(e)
    ensures 4 * j >= k && StateOut.Run(m, code, StateOut.Config(code, d.rest, None), j) == Next(c) && c.st == e.d.rest
  {
    hide StateOut.StatedOut;
    hide StateOut.Thread;
    hide Tidy;
    hide WaitsFirst;
    hide Steady;
    hide InitialThread;
    hide TranslateAll;
    hide NumberedThread;
    hide Numbers;
    hide Run;
    hide StateOut.Run;
    hide SemOf;
    var s := StateOut.StatedOut(code, false);
    FormIsSound(code);
    NumberedIsTranslation(s);
    var c0 := StateOut.Config(s, d.rest, None);
    assert StateOut.IsTail(s, s);
    SameRun(m, s, c0, Config(0, d, []), k);
    j, c := StateOut.StateOutReflects(m, code, d.rest, k);
  }

  /** From the thread as written to whatever the fall-through passes leave: after any number of iterations
      of a superloop, or at some point at least as far on if gotos are left, the data are those of the
      original thread at some point. */
  lemma PassesOfThread(m: StateOut.Interp<Rest>, code: Code, d: Data, n: nat)
    returns (j: nat, c: StateOut.Config<Rest>, k: nat, e: Config)
    requires Regular(code) && d.deltas == 0
    ensures 4 * j >= n && StateOut.Run(m, code, StateOut.Config(code, d.rest, None), j) == Next(c)
    ensures var t := Machined(code);
            match FallThroughResult(t.b, t.lm, t.reset, t.ks)
            case Looping(loop) => LoopRun(SemOf(m), loop, d, n + 1).0.rest == c.st
            case Gotos(p, lm) => k >= n && Run(SemOf(m), lm, p, Config(0, d, []), k) == Some(e) && e.d.rest == c.st
  {
    hide StateOut.StatedOut;
    hide NumberedThread;
    hide InitialThread;
    hide FallThroughResult;
    hide Initial;
    hide Closed;
    hide Run;
    hide StateOut.Run;
    hide LoopRun;
    hide SemOf;
    hide Regular;
    hide Sound;
    hide RunBody;
    var t, s := Machined(code), StateOut.StatedOut(code, false);
    FormIsSound(code);
    NumberedIsInitial(s);
    NumberedIsClosed(m, s, d);
    var i, e0;
    i, e0, k, e := PassesPreserveThread(SemOf(m), t.b, t.lm, t.reset, t.ks, d, n);
    j, c := NumberedPreserves(m, code, d, i, e0);
  }

  /** From the thread as written to the method: after any number of activations the method's data are
      those of the original thread at some point, in every environment. */
  lemma MethodOfThread(m: StateOut.Interp<Rest>, code: Code, turns: seq<(nat, nat)>, d: Data, n: nat)
    returns (j: nat, c: StateOut.Config<Rest>)
    requires Regular(code) && d.deltas == 0 && Splits(Machined(code).b, Machined(code).ks, ROUNDS)
    ensures var t := Machined(code); FallThroughLoop(t.b, t.lm, t.reset, t.ks).Some?
    ensures 4 * j >= n && StateOut.Run(m, code, StateOut.Config(code, d.rest, None), j) == Next(c)
    ensures var t := Machined(code);
            var r := MethodRun(SemOf(m), FinalLoop(t.b, t.lm, t.reset, t.ks, turns), d, n + 1);
            r.Some? && r.value.0.rest == c.st
  {
    hide StateOut.StatedOut;
    hide NumberedThread;
    hide InitialThread;
    hide FallThroughLoop;
    hide FinalLoop;
    hide Initial;
    hide Settled;
    hide Closed;
    hide QuietDelta;
    hide Run;
    hide StateOut.Run;
    hide MethodRun;
    hide SemOf;
    hide Regular;
    hide Sound;
    hide RunBody;
    hide Splits;
    hide Undelta;
    var t, s := Machined(code), StateOut.StatedOut(code, false);
    FormIsSound(code);
    NumberedIsInitial(s);
    NumberedIsClosed(m, s, d);
    NothingInDelta(m);
    var i, e := MethodPreservesThread(SemOf(m), t.b, t.lm, t.reset, t.ks, turns, d, n);
    j, c := NumberedPreserves(m, code, d, i, e);
  }
}
