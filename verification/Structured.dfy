/** Structured statements, and their execution as ISO C++ defines it.

    A statement without anything uncombable in it is an action: the passes leave it alone, and it
    always terminates.  What actions, conditions and switch expressions do is left to an
    interpretation, over states of any type; a condition may have side effects. */
module Structured {

  type Id = nat     // a statement of the program; a label made for it carries its number
  type Action = nat
  type Cond = nat

  datatype Label =
    | BreakOf(b: Id)     // BREAK, one for each break statement
    | ForContinue(i: Id) // CONTINUE, made from a for loop
    | NextOf(i: Id)        // NEXT
    | DoContinue(i: Id)  // CONTINUE, made from a do loop
    | Then(i: Id)        // THEN
    | Else(i: Id)        // ELSE
    | CaseOf(t: Id)      // CASE
    | DefaultOf(t: Id)   // DEFAULT

  datatype Test = Is(c: Cond) | IsNot(c: Cond) | Within(i: Id, lo: int, hi: int) // of a switch_value

  datatype Stmt =
    | Act(a: Action)
    | Skip
    | Seq(s1: Stmt, s2: Stmt)
    | If(i: Id, c: Cond, s1: Stmt, s2: Stmt)
    | While(i: Id, c: Cond, body: Stmt)
    | Do(i: Id, c: Cond, body: Stmt)
    | For(i: Id, init: Action, c: Cond, inc: Action, body: Stmt)
    | Switch(i: Id, e: Cond, items: Items)
    | Break(b: Id)
    | Continue
    | Goto(l: Label)            // from here on: what the passes produce
    | Mark(l: Label)            // a label declaration
    | IfGoto(t: Test, l: Label)
    | SetValue(i: Id, e: Cond)  // declare a switch_value

  /** The top level of a switch body. */
  datatype Items = End | Entry(t: Target, rest: Items) | Plain(s: Stmt, rest: Items)

  datatype Target = Case(t: Id, v: int) | RangeCase(t: Id, lo: int, hi: int) | Default(t: Id)

  datatype Interp<!S> = Interp(act: (Action, S) -> S, test: (Cond, S) -> (bool, S), value: (Cond, S) -> (int, S))

  /** How a statement ends.  `Out` is a run cut short after the given number of loop rounds. */
  datatype Signal = Normal | Broke | Continued | Out

  datatype Result<S> = Result(sig: Signal, st: S)

  /** A statement as the user writes it: no jumps or labels yet. */
  predicate Source(s: Stmt) {
    match s
    case Seq(a, b) => Source(a) && Source(b)
    case If(_, _, a, b) => Source(a) && Source(b)
    case While(_, _, b) => Source(b)
    case Do(_, _, b) => Source(b)
    case For(_, _, _, _, b) => Source(b)
    case Switch(_, _, items) => SourceItems(items)
    case Goto(_) => false
    case Mark(_) => false
    case IfGoto(_, _) => false
    case SetValue(_, _) => false
    case _ => true
  }

  predicate SourceItems(items: Items) {
    match items
    case End => true
    case Entry(_, rest) => SourceItems(rest)
    case Plain(s, rest) => Source(s) && SourceItems(rest)
  }

  predicate Matches(t: Target, v: int) {
    match t
    case Case(_, w) => v == w
    case RangeCase(_, lo, hi) => lo <= v <= hi
    case Default(_) => false
  }

  /** The items from the target that a value selects. */
  function Select(items: Items, v: int): Items {
    match items
    case End => End
    case Entry(t, rest) => if Matches(t, v) then items else Select(rest, v)
    case Plain(_, rest) => Select(rest, v)
  }

  function SelectDefault(items: Items): Items {
    match items
    case End => End
    case Entry(t, rest) => if t.Default? then items else SelectDefault(rest)
    case Plain(_, rest) => SelectDefault(rest)
  }

  /** Where a switch starts: at the matching case, else at the default, else nowhere. */
  function Entered(items: Items, v: int): Items {
    if Select(items, v) != End then Select(items, v) else SelectDefault(items)
  }

  lemma {:induction false} SelectSmaller(items: Items, v: int)
    ensures Select(items, v) == items || Select(items, v) < items
    ensures SelectDefault(items) == items || SelectDefault(items) < items
  {
    match items
    case End =>
    case Entry(_, rest) => SelectSmaller(rest, v);
    case Plain(_, rest) => SelectSmaller(rest, v);
  }

  /** Execute a statement; n bounds how deep the chain of loop rounds may get. */
  function Run<S>(m: Interp<S>, n: nat, s: Stmt, st: S): Result<S>
    decreases n, s, 0
  {
    match s
    case Act(a) => Result(Normal, m.act(a, st))
    case Seq(a, b) =>
      var r := Run(m, n, a, st);
      if r.sig.Normal? then Run(m, n, b, r.st) else r
    case If(_, c, a, b) =>
      var (v, u) := m.test(c, st);
      if v then Run(m, n, a, u) else Run(m, n, b, u)
    case While(_, c, b) => RunLoop(m, n, c, [], b, st)
    case For(_, init, c, inc, b) => RunLoop(m, n, c, [inc], b, m.act(init, st))
    case Do(_, c, b) => if n == 0 then Result(Out, st) else RunRound(m, n, c, [], b, st)
    case Switch(_, e, items) =>
      var (v, u) := m.value(e, st);
      SelectSmaller(items, v);
      var r := RunItems(m, n, Entered(items, v), u);
      if r.sig.Broke? then r.(sig := Normal) else r
    case Break(_) => Result(Broke, st)
    case Continue => Result(Continued, st)
    case _ => Result(Normal, st)
  }

  /** Test, then a round. */
  function RunLoop<S>(m: Interp<S>, n: nat, c: Cond, incs: seq<Action>, b: Stmt, st: S): Result<S>
    decreases n, b, 2
  {
    if n == 0 then Result(Out, st)
    else
      var (v, u) := m.test(c, st);
      if v then RunRound(m, n, c, incs, b, u) else Result(Normal, u)
  }

  /** The body, the increment, and the rest of the loop. */
  function RunRound<S>(m: Interp<S>, n: nat, c: Cond, incs: seq<Action>, b: Stmt, st: S): Result<S>
    requires n > 0
    decreases n, b, 1
  {
    var r := Run(m, n - 1, b, st);
    match r.sig
    case Out => r
    case Broke => r.(sig := Normal)
    case _ => RunLoop(m, n - 1, c, incs, b, RunActs(m, incs, r.st))
  }

  function RunActs<S>(m: Interp<S>, acts: seq<Action>, st: S): S {
    if acts == [] then st else RunActs(m, acts[1..], m.act(acts[0], st))
  }

  /** Targets have no effect of their own, so control falls through them. */
  function RunItems<S>(m: Interp<S>, n: nat, items: Items, st: S): Result<S>
    decreases n, items, 0
  {
    match items
    case End => Result(Normal, st)
    case Entry(_, rest) => RunItems(m, n, rest, st)
    case Plain(s, rest) =>
      var r := Run(m, n, s, st);
      if r.sig.Normal? then RunItems(m, n, rest, r.st) else r
  }

  /** The breaks that belong to a construct around the statement, in order. */
  function FreeBreaks(s: Stmt): seq<Id> {
    match s
    case Seq(a, b) => FreeBreaks(a) + FreeBreaks(b)
    case If(_, _, a, b) => FreeBreaks(a) + FreeBreaks(b)
    case Break(b) => [b]
    case _ => []
  }

  function FreeBreaksIn(items: Items): seq<Id> {
    match items
    case End => []
    case Entry(_, rest) => FreeBreaksIn(rest)
    case Plain(s, rest) => FreeBreaks(s) + FreeBreaksIn(rest)
  }

  /** A continue that belongs to a loop around the statement. */
  predicate FreeContinue(s: Stmt) {
    match s
    case Seq(a, b) => FreeContinue(a) || FreeContinue(b)
    case If(_, _, a, b) => FreeContinue(a) || FreeContinue(b)
    case Switch(_, _, items) => FreeContinueIn(items)
    case Continue => true
    case _ => false
  }

  predicate FreeContinueIn(items: Items) {
    match items
    case End => false
    case Entry(_, rest) => FreeContinueIn(rest)
    case Plain(s, rest) => FreeContinue(s) || FreeContinueIn(rest)
  }
}
