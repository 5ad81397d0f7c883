/** Where a lowered switch enters its body. */
module SwitchEntry {
  import opened Prelude
  import opened Structured
  import opened LowerPasses
  import opened LowerMachine

  /** No value matches two targets, and there is at most one default, as C++ demands. */
  ghost predicate Disjoint(items: Items) {
    match items
    case End => true
    case Entry(t, rest) =>
      && (forall v :: Matches(t, v) ==> Select(rest, v) == End)
      && (t.Default? ==> SelectDefault(rest) == End)
      && Disjoint(rest)
    case Plain(_, rest) => Disjoint(rest)
  }

  ghost predicate TargetsDeclared(code: seq<Instr>, items: Items) {
    match items
    case End => true
    case Entry(t, rest) => Declared(code, TargetLabel(t)) && TargetsDeclared(code, rest)
    case Plain(_, rest) => TargetsDeclared(code, rest)
  }

  predicate TailOf(x: Items, items: Items) {
    x == items ||
    match items
    case End => false
    case Entry(_, rest) => TailOf(x, rest)
    case Plain(_, rest) => TailOf(x, rest)
  }

  lemma SelectIs(items: Items, v: int)
    ensures var x := Select(items, v); TailOf(x, items) && (x != End ==> x.Entry? && Matches(x.t, v))
    ensures var x := SelectDefault(items); TailOf(x, items) && (x != End ==> x.Entry? && x.t.Default?)
  {
  }

  /** The code of a tail of the items is the tail of their code. */
  lemma {:induction false} TailAt(code: seq<Instr>, at: nat, items: Items, k: Label, x: Items)
    requires CodeAt(code, at, ItemsCode(items, k)) && TailOf(x, items)
    ensures |ItemsCode(x, k)| <= |ItemsCode(items, k)|
    ensures CodeAt(code, at + |ItemsCode(items, k)| - |ItemsCode(x, k)|, ItemsCode(x, k))
    decreases items
  {
    hide Code;
    hide CodeAt;
    if x != items {
      match items
      case Entry(t, rest) =>
        CodeAtSplit(code, at, [IMark(TargetLabel(t))], ItemsCode(rest, k));
        TailAt(code, at + 1, rest, k, x);
      case Plain(s, rest) =>
        CodeAtSplit(code, at, Code(s, k), ItemsCode(rest, k));
        TailAt(code, at + |Code(s, k)|, rest, k, x);
    }
  }

  lemma {:induction false} BodyDeclares(code: seq<Instr>, at: nat, items: Items, k: Label)
    requires CodeAt(code, at, ItemsCode(items, k))
    ensures TargetsDeclared(code, items)
    decreases items
  {
    hide Code;
    match items
    case End =>
    case Entry(t, rest) =>
      CodeAtSplit(code, at, [IMark(TargetLabel(t))], ItemsCode(rest, k));
      BodyDeclares(code, at + 1, rest, k);
      assert code[at + 0] == [IMark(TargetLabel(t))][0];
      assert AtMark(code, at, TargetLabel(t));
    case Plain(s, rest) =>
      CodeAtSplit(code, at, Code(s, k), ItemsCode(rest, k));
      BodyDeclares(code, at + |Code(s, k)|, rest, k);
  }

  /** The hoisted jumps of one kind take the value to the label of the target it matches. */
  lemma {:induction false} ScanJumps<S>(m: Interp<S>, code: seq<Instr>, i: Id, items: Items, ranges: bool, v: int, t: MState<S>)
    returns (k: nat, u: MState<S>)
    requires CodeAt(code, t.pc, JumpCode(i, items, ranges)) && i in t.values && t.values[i] == v
    requires UniqueMarks(code) && TargetsDeclared(code, items) && Disjoint(items)
    ensures Goes(m, code, t, k, u) && u == t.(pc := u.pc)
    ensures var x := Select(items, v);
            if x != End && x.Entry? && x.t.RangeCase? == ranges then AtMark(code, u.pc, TargetLabel(x.t))
            else u.pc == t.pc + |JumpCode(i, items, ranges)|
    decreases items
  {
    hide CodeAt;
    hide Goes;
    hide UniqueMarks;
    hide Declared;
    hide EvalTest;
    match items
    case End => k, u := 0, t; Stay(m, code, t);
    case Plain(_, rest) => k, u := ScanJumps(m, code, i, rest, ranges, v, t);
    case Entry(x, rest) =>
      var head, mine := JumpCode(i, rest, ranges), OwnJump(i, x, ranges);
      assert JumpCode(i, items, ranges) == head + mine;
      CodeAtSplit(code, t.pc, head, mine);
      k, u := ScanJumps(m, code, i, rest, ranges, v, t);
      SelectIs(rest, v);
      if u.pc == t.pc + |head| && mine != [] {
        var w := TryJump(m, code, i, x, ranges, v, u);
        Chain(m, code, t, k, u, 1, w);
        if Select(rest, v).Entry? && Select(rest, v).t.RangeCase? == ranges {
          AtBranch(code, u.pc, mine, TargetLabel(Select(rest, v).t));
        }
        k, u := k + 1, w;
      }
  }

  lemma Stay<S>(m: Interp<S>, code: seq<Instr>, t: MState<S>)
    ensures Goes(m, code, t, 0, t)
  {
  }

  lemma AtBranch(code: seq<Instr>, pc: nat, part: seq<Instr>, l: Label)
    requires CodeAt(code, pc, part) && part != [] && part[0].IBranch?
    ensures !AtMark(code, pc, l)
  {
    assert code[pc + 0] == part[0];
  }

  function OwnJump(i: Id, t: Target, ranges: bool): seq<Instr> {
    match t
    case Case(_, v) => if ranges then [] else [IBranch(Within(i, v, v), TargetLabel(t))]
    case RangeCase(_, lo, hi) => if ranges then [IBranch(Within(i, lo, hi), TargetLabel(t))] else []
    case Default(_) => []
  }

  lemma TryJump<S>(m: Interp<S>, code: seq<Instr>, i: Id, x: Target, ranges: bool, v: int, t: MState<S>) returns (u: MState<S>)
    requires OwnJump(i, x, ranges) != [] && CodeAt(code, t.pc, OwnJump(i, x, ranges)) && i in t.values && t.values[i] == v
    requires UniqueMarks(code) && Declared(code, TargetLabel(x))
    ensures Goes(m, code, t, 1, u) && u == t.(pc := u.pc) && x.RangeCase? == ranges
    ensures if Matches(x, v) then AtMark(code, u.pc, TargetLabel(x)) else u.pc == t.pc + 1
  {
    hide Goes;
    hide UniqueMarks;
    hide Declared;
    assert code[t.pc + 0] == OwnJump(i, x, ranges)[0];
    if Matches(x, v) {
      u := Leap(m, code, t, TargetLabel(x));
    } else {
      u := Pass(m, code, t);
    }
  }

  lemma {:induction false} DefaultCodeIs(items: Items)
    requires Disjoint(items)
    ensures var x := SelectDefault(items);
            DefaultCode(items) == if x.Entry? then [IGoto(TargetLabel(x.t))] else []
  {
    match items
    case End =>
    case Entry(t, rest) => DefaultCodeIs(rest); SelectIs(items, 0); SelectIs(rest, 0);
    case Plain(_, rest) => DefaultCodeIs(rest);
  }

  lemma TargetDeclared(code: seq<Instr>, items: Items, x: Items)
    requires TargetsDeclared(code, items) && TailOf(x, items) && x.Entry?
    ensures Declared(code, TargetLabel(x.t))
  {
    hide Declared;
  }

  /** Start of the code of the items that a value selects; the start of the body when none is selected. */
  function EntryPoint(body: nat, items: Items, k: Label, v: int): int {
    if Entered(items, v) == End then body
    else body + |ItemsCode(items, k)| - |ItemsCode(Entered(items, v), k)|
  }

  /** The jumps at the top of a switch lead to the code of the selected items, for every value. */
  lemma EnterSwitch<S>(m: Interp<S>, code: seq<Instr>, i: Id, items: Items, k: Label, v: int, t: MState<S>)
    returns (n: nat, u: MState<S>)
    requires CodeAt(code, t.pc, SwitchJumps(i, items) + ItemsCode(items, k)) && i in t.values && t.values[i] == v
    requires UniqueMarks(code) && Disjoint(items)
    ensures Goes(m, code, t, n, u)
    ensures u == t.(pc := u.pc) && u.pc == EntryPoint(t.pc + |SwitchJumps(i, items)|, items, k, v)
  {
    hide CodeAt;
    hide Goes;
    hide UniqueMarks;
    hide Declared;
    hide ItemsCode;
    var body := t.pc + |SwitchJumps(i, items)|;
    var a, b, d := JumpCode(i, items, true), JumpCode(i, items, false), DefaultCode(items);
    CodeAtSplit(code, t.pc, SwitchJumps(i, items), ItemsCode(items, k));
    CodeAtSplit(code, t.pc, a, b + d);
    CodeAtSplit(code, t.pc + |a|, b, d);
    BodyDeclares(code, body, items, k);
    SelectIs(items, v);
    var x := Select(items, v);
    n, u := ScanJumps(m, code, i, items, true, v, t);
    if x.Entry? && x.t.RangeCase? {
      Arrive(code, body, items, k, x, u.pc);
    } else {
      var n', u' := ScanJumps(m, code, i, items, false, v, u);
      Chain(m, code, t, n, u, n', u');
      n, u := n + n', u';
      if x.Entry? {
        Arrive(code, body, items, k, x, u.pc);
      } else {
        var w := EnterDefault(m, code, body, items, k, u);
        var y := SelectDefault(items);
        if y.Entry? {
          Chain(m, code, t, n, u, 1, w);
          n, u := n + 1, w;
        }
      }
    }
  }

  lemma Arrive(code: seq<Instr>, body: nat, items: Items, k: Label, x: Items, pc: nat)
    requires CodeAt(code, body, ItemsCode(items, k)) && TailOf(x, items) && x.Entry?
    requires UniqueMarks(code) && AtMark(code, pc, TargetLabel(x.t))
    ensures pc == body + |ItemsCode(items, k)| - |ItemsCode(x, k)|
  {
    TailAt(code, body, items, k, x);
    var at := body + |ItemsCode(items, k)| - |ItemsCode(x, k)|;
    assert ItemsCode(x, k)[0] == IMark(TargetLabel(x.t));
    assert code[at + 0] == ItemsCode(x, k)[0];
    SameMark(code, TargetLabel(x.t), pc, at);
  }

  lemma EnterDefault<S>(m: Interp<S>, code: seq<Instr>, body: nat, items: Items, k: Label, t: MState<S>) returns (u: MState<S>)
    requires CodeAt(code, body, ItemsCode(items, k)) && UniqueMarks(code) && Disjoint(items) && TargetsDeclared(code, items)
    requires CodeAt(code, t.pc, DefaultCode(items))
    ensures var x := SelectDefault(items);
            if x.Entry? then Goes(m, code, t, 1, u) && u == t.(pc := u.pc) && u.pc == body + |ItemsCode(items, k)| - |ItemsCode(x, k)|
            else x == End && DefaultCode(items) == []
  {
    hide Goes;
    hide UniqueMarks;
    hide Declared;
    hide ItemsCode;
    var x := SelectDefault(items);
    SelectIs(items, 0);
    DefaultCodeIs(items);
    u := t;
    if x.Entry? {
      TargetDeclared(code, items, x);
      assert code[t.pc + 0] == DefaultCode(items)[0];
      u := Leap(m, code, t, TargetLabel(x.t));
      Arrive(code, body, items, k, x, u.pc);
    }
  }

  /** Where the switch statement itself goes on: at the selected items, or after the body. */
  function SourcePoint(body: nat, items: Items, k: Label, v: int): int {
    body + |ItemsCode(items, k)| - |ItemsCode(Entered(items, v), k)|
  }

  /** A lowered switch enters where the switch does exactly when a target or a default takes the value,
      or there is nothing in the body to run by mistake. */
  lemma EntryExactly(body: nat, items: Items, k: Label, v: int)
    ensures EntryPoint(body, items, k, v) == SourcePoint(body, items, k, v) <==>
            Select(items, v) != End || SelectDefault(items) != End || ItemsCode(items, k) == []
  {
  }
}
