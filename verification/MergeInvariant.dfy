/** What the memory of the merged thread holds for a given call stack.

    `Match` relates a call stack to a state of the merged machine: slots 1..f_stack_index of the
    arrays of f hold the automatics and link addresses of the live activations of f, oldest first. */
module MergeInvariant {
  import opened Prelude
  import opened CallMachine
  import opened MergePasses
  import opened MergeLayout

  /** Live activations of f. */
  function Count(stack: seq<Frame>, f: Fn): nat {
    if stack == [] then 0
    else Count(stack[..|stack| - 1], f) + (if stack[|stack| - 1].f == f then 1 else 0)
  }

  /** Where automatic x of the d-th live activation of f lives. */
  function LocalAddr(p: Program, f: Fn, x: Local, d: nat): Addr
    requires f < |p.funcs|
  {
    if Stacked(p, f, x) then Slot(f, x, d) else CellAt(Moved(f, x))
  }

  /** The call statement at which a frame waits. */
  function SiteOf(p: Program, fr: Frame): Site {
    if IsStatement(p, fr.f, fr.pc) && Statement(p, fr.f, fr.pc).Call? then Statement(p, fr.f, fr.pc).site else 0
  }

  ghost predicate Holds(p: Program, fr: Frame, d: nat, store: Store)
    requires fr.f < |p.funcs|
  {
    forall x :: x in fr.locals ==> Fetch(store, LocalAddr(p, fr.f, x, d)) == Int(fr.locals[x])
  }

  /** What one frame has in memory, given the frames below it and the function it is calling. */
  ghost predicate FrameOk(p: Program, below: seq<Frame>, fr: Frame, callee: Option<Fn>, store: Store) {
    && fr.f < |p.funcs|
    && fr.pc <= |p.funcs[fr.f].body|
    && (fr.f == 0 <==> below == [])
    && (forall x :: x in fr.locals ==> x.User? && InScope(p.funcs[fr.f], x, fr.pc))
    && (callee.Some? ==>
          IsStatement(p, fr.f, fr.pc) && Statement(p, fr.f, fr.pc).Call? && Statement(p, fr.f, fr.pc).f == callee.value)
    && Holds(p, fr, Count(below, fr.f) + 1, store)
    && (below != [] && (HasStack(p, fr.f) || callee.None?) ==>
          Fetch(store, LocalAddr(p, fr.f, Link, Count(below, fr.f) + 1)) == Lab(LinkAt(SiteOf(p, below[|below| - 1]))))
  }

  ghost predicate Mirror(p: Program, stack: seq<Frame>, callee: Option<Fn>, store: Store)
    decreases |stack|
  {
    stack != [] ==>
      var n := |stack| - 1;
      FrameOk(p, stack[..n], stack[n], callee, store) && Mirror(p, stack[..n], Some(stack[n].f), store)
  }

  ghost predicate IndexOk(p: Program, stack: seq<Frame>, store: Store) {
    forall f :: 0 <= f < |p.funcs| && HasStack(p, f) ==> Fetch(store, CellAt(IndexOf(f))) == Int(Count(stack, f))
  }

  /** No function that has arrays has more live activations than its arrays have usable slots: nine, as
      slot 0 is not used. */
  ghost predicate Bounded(p: Program, stack: seq<Frame>) {
    forall f :: 0 <= f < |p.funcs| && HasStack(p, f) ==> Count(stack, f) <= 9
  }

  /** The two machines agree on everything but the program counter. */
  ghost predicate Synced(p: Program, s: SrcState, t: FlatState) {
    && s.stack != []
    && Mirror(p, s.stack, None, t.store)
    && IndexOk(p, s.stack, t.store)
    && Bounded(p, s.stack)
    && t.shared == s.shared
    && t.trace == s.trace
  }

  ghost predicate Match(p: Program, s: SrcState, t: FlatState) {
    && Synced(p, s, t)
    && var fr := s.stack[|s.stack| - 1];
       fr.f < |p.funcs| && fr.pc <= |p.funcs[fr.f].body| && t.pc == Pos(p, fr.f, fr.pc)
  }

  // ---------- memory that a stack does not depend on ----------

  /** Memory that the live activations use: their slots, and the single cells of the thread. */
  predicate Owned(stack: seq<Frame>, a: Addr) {
    match a
    case Slot(f, _, i) => i <= Count(stack, f)
    case CellAt(Moved(f, _)) => f == 0 && stack != []
    case _ => false
  }

  lemma CallerLocalsStacked(p: Program, below: seq<Frame>, fr: Frame, g: Fn, store: Store, x: Local)
    requires FrameOk(p, below, fr, Some(g), store) && fr.f != 0 && x in fr.locals
    requires WfProgram(p)
    ensures Stacked(p, fr.f, x)
  {
    var fn := p.funcs[fr.f];
    var sc := ScopeOf(fn, x);
    assert WfFunc(p, fr.f);
    assert fn.body[sc.lo..sc.hi][fr.pc - sc.lo].Call?;
  }

  lemma LinkStacked(p: Program, f: Fn)
    requires WfProgram(p) && f < |p.funcs|
    ensures Stacked(p, f, Link) == HasStack(p, f)
    ensures forall x :: x in p.funcs[f].params ==> Stacked(p, f, x) == HasStack(p, f)
    ensures forall x :: Stacked(p, f, x) ==> HasStack(p, f)
  {
    var fn := p.funcs[f];
    assert WfFunc(p, f);
    assert fn.body[0..|fn.body|] == fn.body;
    forall x | Stacked(p, f, x) ensures HasStack(p, f) {
      var sc := ScopeOf(fn, x);
      var i :| 0 <= i < |fn.body[sc.lo..sc.hi]| && fn.body[sc.lo..sc.hi][i].Call?;
      assert fn.body[sc.lo + i].Call?;
    }
  }

  lemma {:induction false} CountMonotone(stack: seq<Frame>, n: nat, f: Fn)
    requires n <= |stack|
    ensures Count(stack[..n], f) <= Count(stack, f)
    decreases |stack|
  {
    if n == |stack| {
      assert stack[..n] == stack;
    } else {
      CountMonotone(stack[..|stack| - 1], n, f);
      assert stack[..|stack| - 1][..n] == stack[..n];
    }
  }

  /** A calling stack is unaffected by changes outside the memory it owns. */
  lemma {:induction false} MirrorFrame(p: Program, stack: seq<Frame>, g: Fn, store: Store, store': Store)
    requires WfProgram(p) && Mirror(p, stack, Some(g), store)
    requires forall a :: Owned(stack, a) ==> Fetch(store', a) == Fetch(store, a)
    ensures Mirror(p, stack, Some(g), store')
    decreases |stack|
  {
    hide WfProgram;
    hide FrameOk;
    if stack != [] {
      var n := |stack| - 1;
      var fr, below := stack[n], stack[..n];
      forall a | Owned(below, a) ensures Owned(stack, a) {
        match a
        case Slot(f, _, i) => CountMonotone(stack, n, f);
        case _ =>
      }
      MirrorFrame(p, below, fr.f, store, store');
      FrameStays(p, stack, g, store, store');
    }
  }

  /** The caller on top keeps what it has in memory. */
  lemma FrameStays(p: Program, stack: seq<Frame>, g: Fn, store: Store, store': Store)
    requires WfProgram(p) && stack != [] && FrameOk(p, stack[..|stack| - 1], stack[|stack| - 1], Some(g), store)
    requires forall a :: Owned(stack, a) ==> Fetch(store', a) == Fetch(store, a)
    ensures FrameOk(p, stack[..|stack| - 1], stack[|stack| - 1], Some(g), store')
  {
    hide WfProgram;
    hide HasStack;
    hide InScope;
    hide SiteOf;
    var n := |stack| - 1;
    var fr, below := stack[n], stack[..n];
    var d := Count(below, fr.f) + 1;
    forall x | x in fr.locals ensures Fetch(store', LocalAddr(p, fr.f, x, d)) == Int(fr.locals[x]) {
      if fr.f != 0 {
        CallerLocalsStacked(p, below, fr, g, store, x);
      }
      assert Owned(stack, LocalAddr(p, fr.f, x, d));
    }
    LinkStacked(p, fr.f);
    assert HasStack(p, fr.f) ==> Owned(stack, LocalAddr(p, fr.f, Link, d));
  }

  ghost predicate TopIndex(p: Program, f: Fn, d: nat, store: Store)
    requires f < |p.funcs|
  {
    HasStack(p, f) ==> d < STACK_SIZE && Fetch(store, CellAt(IndexOf(f))) == Int(d)
  }

  lemma AutoAddr(p: Program, f: Fn, x: Local, d: nat, store: Store)
    requires WfProgram(p) && f < |p.funcs| && TopIndex(p, f, d, store)
    ensures AddrOf(store, PlaceOf(p, f, Auto(x))) == Some(LocalAddr(p, f, x, d))
    ensures !PlaceOf(p, f, Auto(x)).Shared?
  {
    LinkStacked(p, f);
  }

  lemma EvalMatches(p: Program, e: Exp, shared: SharedVars, fr: Frame, d: nat, store: Store)
    requires WfProgram(p) && fr.f < |p.funcs| && WfExp(e)
    requires TopIndex(p, fr.f, d, store) && Holds(p, fr, d, store)
    requires SrcEval(e, shared, fr.locals).Some?
    ensures Eval(ExpOf(p, fr.f, e), shared, store) == Some(Int(SrcEval(e, shared, fr.locals).value))
  {
    hide WfProgram;
    match e
    case Bin(_, a, b) =>
      EvalMatches(p, a, shared, fr, d, store);
      EvalMatches(p, b, shared, fr, d, store);
    case Read(Auto(x)) => AutoAddr(p, fr.f, x, d, store);
    case _ =>
  }

  // ---------- the running activation ----------

  lemma TopFacts(p: Program, s: SrcState, t: FlatState)
    requires WfProgram(p) && Synced(p, s, t)
    ensures var n := |s.stack| - 1;
            && FrameOk(p, s.stack[..n], s.stack[n], None, t.store)
            && Mirror(p, s.stack[..n], Some(s.stack[n].f), t.store)
            && Count(s.stack, s.stack[n].f) == Count(s.stack[..n], s.stack[n].f) + 1
            && TopIndex(p, s.stack[n].f, Count(s.stack, s.stack[n].f), t.store)
            && Holds(p, s.stack[n], Count(s.stack, s.stack[n].f), t.store)
  {
  }

  /** Changing the running activation within its function leaves the relation in place. */
  lemma TopReplaced(p: Program, s: SrcState, fr: Frame, store: Store, s': SrcState, t: FlatState)
    requires WfProgram(p) && s.stack != [] && IndexOk(p, s.stack, store) && Bounded(p, s.stack)
    requires fr.f == s.stack[|s.stack| - 1].f
    requires FrameOk(p, s.stack[..|s.stack| - 1], fr, None, store)
    requires Mirror(p, s.stack[..|s.stack| - 1], Some(fr.f), store)
    requires s'.stack == Replace(s.stack, fr) && t.store == store && t.shared == s'.shared && t.trace == s'.trace
    ensures Synced(p, s', t)
  {
    var n := |s.stack| - 1;
    assert s'.stack[..n] == s.stack[..n];
    forall f ensures Count(s'.stack, f) == Count(s.stack, f) {}
  }

  lemma MoveOk(p: Program, below: seq<Frame>, fr: Frame, store: Store, pc: nat)
    requires FrameOk(p, below, fr, None, store) && pc <= |p.funcs[fr.f].body|
    ensures FrameOk(p, below, MoveTo(p.funcs[fr.f], fr, pc), None, store)
  {
  }

  /** Writing an automatic of the running activation. */
  lemma StoreOk(p: Program, below: seq<Frame>, fr: Frame, store: Store, x: Local, v: int, pc: nat)
    requires WfProgram(p) && FrameOk(p, below, fr, None, store) && Mirror(p, below, Some(fr.f), store)
    requires x.User? && pc <= |p.funcs[fr.f].body|
    ensures var store' := store[LocalAddr(p, fr.f, x, Count(below, fr.f) + 1) := Int(v)];
            && FrameOk(p, below, MoveTo(p.funcs[fr.f], fr.(locals := fr.locals[x := v]), pc), None, store')
            && Mirror(p, below, Some(fr.f), store')
  {
    hide WfProgram;
    hide Mirror;
    hide Count;
    hide HasStack;
    hide InScope;
    hide SiteOf;
    hide MoveTo;
    hide Holds;
    var a := LocalAddr(p, fr.f, x, Count(below, fr.f) + 1);
    var store' := store[a := Int(v)];
    NotOwnedBelow(p, below, fr, store, x);
    assert forall c :: c != a ==> Fetch(store', c) == Fetch(store, c);
    MirrorFrame(p, below, fr.f, store, store');
    StoreFrame(p, below, fr, store, x, v, pc);
  }

  /** The running activation's variables are not those of the activations below it. */
  lemma NotOwnedBelow(p: Program, below: seq<Frame>, fr: Frame, store: Store, x: Local)
    requires FrameOk(p, below, fr, None, store)
    ensures !Owned(below, LocalAddr(p, fr.f, x, Count(below, fr.f) + 1))
  {
    hide Count;
    hide Stacked;
  }

  lemma StoreFrame(p: Program, below: seq<Frame>, fr: Frame, store: Store, x: Local, v: int, pc: nat)
    requires FrameOk(p, below, fr, None, store) && x.User? && pc <= |p.funcs[fr.f].body|
    ensures FrameOk(p, below, MoveTo(p.funcs[fr.f], fr.(locals := fr.locals[x := v]), pc), None,
                    store[LocalAddr(p, fr.f, x, Count(below, fr.f) + 1) := Int(v)])
  {
    hide Count;
    hide Stacked;
    hide HasStack;
    hide SiteOf;
  }

  /** A caller that is about to be resumed. */
  lemma CallerOk(p: Program, below: seq<Frame>, fr: Frame, g: Fn, store: Store)
    requires FrameOk(p, below, fr, Some(g), store)
    ensures FrameOk(p, below, fr, None, store)
  {
    if below != [] {
      assert p.funcs[fr.f].body[fr.pc].Call?;
    }
  }
}
