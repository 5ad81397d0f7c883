/** Threads that call functions, and the flat machine that function merging turns them into.

    One instruction type serves every stage of the merging passes.  Two machines run it:

    - the call-stack machine (`SrcStep`), in which each activation has its own frame of
      automatic variables, and reading a variable before it is assigned is undefined;
    - the flat machine (`FlatStep`), which has one program counter, module variables, and
      per-function arrays of `STACK_SIZE` elements indexed by a stack index.

    Both report the same observables: the writes to shared variables and the waits, in order.
    At a wait the environment may overwrite any shared variable, as a function of everything
    observed so far. */
module CallMachine {
  import opened Prelude

  type Name = string
  type Fn = nat   // position of a function in the program; the thread is function 0
  type Site = nat // identifies a call statement

  const STACK_SIZE := 10
  const UNSIGNED_RANGE := 0x1_0000_0000

  /** An automatic variable: one the user wrote, or the link address added to every function. */
  datatype Local = User(name: Name) | Link

  datatype Label = Enter(f: Fn) | LinkAt(site: Site) | Named(name: Name)

  /** Module variables created by the passes. */
  datatype Cell =
    | ReturnOf(f: Fn)          // f_return
    | ParamOf(f: Fn, x: Local) // f_x, which carries an argument into a parameter
    | IndexOf(f: Fn)           // f_stack_index
    | TempLink(f: Fn)          // temp_link of f
    | Moved(f: Fn, x: Local)   // an automatic of f that became a module variable

  datatype Place =
    | Shared(s: Name)           // a module variable that the environment can see
    | Auto(x: Local)            // an automatic variable of the running activation
    | Module(c: Cell)
    | StackTop(f: Fn, x: Local) // x_stack[f_stack_index]

  datatype Op = Add | Sub | Mul | Less | Equal

  datatype Exp = Num(n: int) | Read(p: Place) | LabelOf(l: Label) | Bin(op: Op, a: Exp, b: Exp)

  datatype Arg = Arg(key: Local, value: Exp)

  datatype Instr =
    | Assign(dst: Place, e: Exp)
    | Call(site: Site, f: Fn, args: seq<Arg>, res: Option<Place>)
    | Return(val: Option<Exp>)
    | Declare(l: Label)
    | Goto(dest: Exp)
    | Branch(c: Exp, target: Label) // if( c ) goto target
    | Inc(g: Fn)                    // g_stack_index++
    | Dec(g: Fn)                    // g_stack_index--
    | Wait

  /** The statements lo..hi-1 of a body, the extent of the compound that declares a variable. */
  datatype Scope = Scope(lo: nat, hi: nat)

  /** Variables that are not in `scopes` belong to the outermost compound of the body. */
  datatype Func = Func(params: seq<Local>, scopes: map<Local, Scope>, body: seq<Instr>)

  datatype Program = Program(funcs: seq<Func>)

  datatype Event = Wrote(x: Name, v: int) | Waited

  type SharedVars = map<Name, int>
  type Env = seq<Event> -> SharedVars

  function SharedValue(shared: SharedVars, x: Name): int {
    if x in shared then shared[x] else 0
  }

  function Apply(op: Op, a: int, b: int): int {
    match op
    case Add => a + b
    case Sub => a - b
    case Mul => a * b
    case Less => if a < b then 1 else 0
    case Equal => if a == b then 1 else 0
  }

  /** Index of the first declaration of a label, or the length of the code when there is none. */
  function Find(code: seq<Instr>, l: Label): (k: nat)
    ensures k <= |code|
    ensures k < |code| ==> code[k] == Declare(l)
    ensures forall j :: 0 <= j < k ==> code[j] != Declare(l)
  {
    if code == [] then 0
    else if code[0] == Declare(l) then 0
    else
      var k := Find(code[1..], l);
      assert forall j :: 0 < j < k + 1 ==> code[j] == code[1..][j - 1];
      k + 1
  }

  // ---------- the call-stack machine ----------

  datatype Frame = Frame(f: Fn, pc: nat, locals: map<Local, int>)

  datatype SrcState = SrcState(shared: SharedVars, stack: seq<Frame>, trace: seq<Event>)

  function ScopeOf(fn: Func, x: Local): Scope {
    if x in fn.scopes then fn.scopes[x] else Scope(0, |fn.body|)
  }

  predicate InScope(fn: Func, x: Local, pc: nat) {
    ScopeOf(fn, x).lo <= pc < ScopeOf(fn, x).hi
  }

  /** Moving within a function ends the lifetime of every variable whose compound is left. */
  function MoveTo(fn: Func, fr: Frame, pc: nat): Frame {
    Frame(fr.f, pc, map x | x in fr.locals && InScope(fn, x, pc) :: fr.locals[x])
  }

  function SrcEval(e: Exp, shared: SharedVars, locals: map<Local, int>): Option<int> {
    match e
    case Num(n) => Some(n)
    case Read(Shared(x)) => Some(SharedValue(shared, x))
    case Read(Auto(x)) => if x in locals then Some(locals[x]) else None
    case Bin(op, a, b) =>
      var u, v := SrcEval(a, shared, locals), SrcEval(b, shared, locals);
      if u.Some? && v.Some? then Some(Apply(op, u.value, v.value)) else None
    case _ => None
  }

  function SrcArgs(args: seq<Arg>, shared: SharedVars, locals: map<Local, int>): (r: Option<seq<int>>)
    ensures r.Some? ==> |r.value| == |args|
    ensures r.Some? ==> forall i :: 0 <= i < |args| ==> SrcEval(args[i].value, shared, locals) == Some(r.value[i])
  {
    if args == [] then Some([])
    else
      var v, rest := SrcEval(args[0].value, shared, locals), SrcArgs(args[1..], shared, locals);
      if v.Some? && rest.Some? then Some([v.value] + rest.value) else None
  }

  function Bind(params: seq<Local>, vals: seq<int>): (m: map<Local, int>)
    requires |params| == |vals|
    ensures forall x :: x in m <==> x in params
  {
    if params == [] then map[]
    else Bind(params[1..], vals[1..])[params[0] := vals[0]]
  }

  function Replace(stack: seq<Frame>, fr: Frame): seq<Frame>
    requires stack != []
  {
    stack[..|stack| - 1] + [fr]
  }

  /** Store a value from the running activation and continue at `pc` of it. */
  function SrcStore(p: Program, s: SrcState, dst: Place, v: int, pc: nat): Outcome<SrcState>
    requires s.stack != [] && s.stack[|s.stack| - 1].f < |p.funcs|
  {
    var fr := s.stack[|s.stack| - 1];
    var fn := p.funcs[fr.f];
    match dst
    case Shared(x) =>
      Next(SrcState(s.shared[x := v], Replace(s.stack, MoveTo(fn, fr, pc)), s.trace + [Wrote(x, v)]))
    case Auto(x) =>
      Next(s.(stack := Replace(s.stack, MoveTo(fn, fr.(locals := fr.locals[x := v]), pc))))
    case _ => Stuck
  }

  function SrcJump(p: Program, s: SrcState, l: Label): Outcome<SrcState>
    requires s.stack != [] && s.stack[|s.stack| - 1].f < |p.funcs|
  {
    var fr := s.stack[|s.stack| - 1];
    var fn := p.funcs[fr.f];
    var k := Find(fn.body, l);
    if k < |fn.body| then Next(s.(stack := Replace(s.stack, MoveTo(fn, fr, k)))) else Stuck
  }

  function SrcReturn(p: Program, s: SrcState, val: Option<Exp>): Outcome<SrcState>
    requires s.stack != [] && s.stack[|s.stack| - 1].f < |p.funcs|
  {
    if |s.stack| == 1 then Stuck
    else
      var fr, caller := s.stack[|s.stack| - 1], s.stack[|s.stack| - 2];
      if caller.f >= |p.funcs| || caller.pc >= |p.funcs[caller.f].body| then Stuck
      else
        var fn := p.funcs[caller.f];
        var v := if val.None? then Some(0) else SrcEval(val.value, s.shared, fr.locals);
        var below := s.(stack := s.stack[..|s.stack| - 1]);
        match fn.body[caller.pc]
        case Call(_, _, _, None) =>
          if v.None? then Stuck
          else Next(below.(stack := Replace(below.stack, MoveTo(fn, caller, caller.pc + 1))))
        case Call(_, _, _, Some(d)) =>
          if v.None? || val.None? then Stuck else SrcStore(p, below, d, v.value, caller.pc + 1)
        case _ => Stuck
  }

  function SrcStep(p: Program, env: Env, s: SrcState): Outcome<SrcState> {
    if s.stack == [] || s.stack[|s.stack| - 1].f >= |p.funcs| then Stuck
    else
      var fr := s.stack[|s.stack| - 1];
      var fn := p.funcs[fr.f];
      if fr.pc >= |fn.body| then (if |s.stack| == 1 then Halted else Stuck)
      else
        match fn.body[fr.pc]
        case Assign(d, e) =>
          var v := SrcEval(e, s.shared, fr.locals);
          if v.None? then Stuck else SrcStore(p, s, d, v.value, fr.pc + 1)
        case Call(_, g, args, _) =>
          var vals := SrcArgs(args, s.shared, fr.locals);
          if vals.None? || g >= |p.funcs| || |p.funcs[g].params| != |args| then Stuck
          else Next(s.(stack := s.stack + [Frame(g, 0, Bind(p.funcs[g].params, vals.value))]))
        case Return(val) => SrcReturn(p, s, val)
        case Declare(_) => Next(s.(stack := Replace(s.stack, MoveTo(fn, fr, fr.pc + 1))))
        case Goto(LabelOf(l)) => SrcJump(p, s, l)
        case Branch(c, l) =>
          var v := SrcEval(c, s.shared, fr.locals);
          if v.None? then Stuck
          else if v.value != 0 then SrcJump(p, s, l)
          else Next(s.(stack := Replace(s.stack, MoveTo(fn, fr, fr.pc + 1))))
        case Wait =>
          var trace := s.trace + [Waited];
          Next(SrcState(s.shared + env(trace), Replace(s.stack, MoveTo(fn, fr, fr.pc + 1)), trace))
        case _ => Stuck
  }

  function SrcRun(p: Program, env: Env, s: SrcState, n: nat): Outcome<SrcState> {
    if n == 0 then Next(s)
    else
      var r := SrcRun(p, env, s, n - 1);
      if r.Next? then SrcStep(p, env, r.state) else r
  }

  // ---------- the flat machine ----------

  datatype Val = Int(n: int) | Lab(l: Label)

  datatype Addr = CellAt(c: Cell) | Slot(f: Fn, x: Local, i: nat)

  type Store = map<Addr, Val>

  datatype FlatState = FlatState(pc: nat, shared: SharedVars, store: Store, trace: seq<Event>)

  /** Memory that was never written holds zero, as module variables do. */
  function Fetch(store: Store, a: Addr): Val {
    if a in store then store[a] else Int(0)
  }

  /** Where a place lives, if it is a valid lvalue; a subscript outside its array is not. */
  function AddrOf(store: Store, p: Place): Option<Addr> {
    match p
    case Module(c) => Some(CellAt(c))
    case StackTop(f, x) =>
      (match Fetch(store, CellAt(IndexOf(f)))
       case Int(i) => if 0 <= i < STACK_SIZE then Some(Slot(f, x, i)) else None
       case Lab(_) => None)
    case _ => None
  }

  function Eval(e: Exp, shared: SharedVars, store: Store): Option<Val> {
    match e
    case Num(n) => Some(Int(n))
    case LabelOf(l) => Some(Lab(l))
    case Read(Shared(x)) => Some(Int(SharedValue(shared, x)))
    case Read(p) =>
      var a := AddrOf(store, p);
      if a.Some? then Some(Fetch(store, a.value)) else None
    case Bin(op, a, b) =>
      var u, v := Eval(a, shared, store), Eval(b, shared, store);
      if u.Some? && u.value.Int? && v.Some? && v.value.Int?
      then Some(Int(Apply(op, u.value.n, v.value.n))) else None
  }

  function FlatAssign(t: FlatState, d: Place, v: Val): Outcome<FlatState> {
    match d
    case Shared(x) =>
      if v.Int?
      then Next(FlatState(t.pc + 1, t.shared[x := v.n], t.store, t.trace + [Wrote(x, v.n)]))
      else Stuck
    case _ =>
      var a := AddrOf(t.store, d);
      if a.Some? then Next(t.(pc := t.pc + 1, store := t.store[a.value := v])) else Stuck
  }

  function FlatJump(code: seq<Instr>, t: FlatState, l: Label): Outcome<FlatState> {
    var k := Find(code, l);
    if k < |code| then Next(t.(pc := k)) else Stuck
  }

  /** Add `delta` to an unsigned stack index. */
  function FlatBump(t: FlatState, f: Fn, delta: int): Outcome<FlatState> {
    match Fetch(t.store, CellAt(IndexOf(f)))
    case Int(i) => Next(t.(pc := t.pc + 1, store := t.store[CellAt(IndexOf(f)) := Int((i + delta) % UNSIGNED_RANGE)]))
    case Lab(_) => Stuck
  }

  /** A stack index counts as an unsigned int of 32 bits does, and wraps round at both ends. */
  lemma IndexIsUnsigned(t: FlatState, f: Fn, i: nat)
    requires i <= 4_294_967_295 && Fetch(t.store, CellAt(IndexOf(f))) == Int(i)
    ensures var r := FlatBump(t, f, 1);
            r.Next? && Fetch(r.state.store, CellAt(IndexOf(f))) == Int(if i == 4_294_967_295 then 0 else i + 1)
    ensures var r := FlatBump(t, f, -1);
            r.Next? && Fetch(r.state.store, CellAt(IndexOf(f))) == Int(if i == 0 then 4_294_967_295 else i - 1)
  {
  }

  function FlatStep(code: seq<Instr>, env: Env, t: FlatState): Outcome<FlatState> {
    if t.pc >= |code| then Halted
    else
      match code[t.pc]
      case Assign(d, e) =>
        var v := Eval(e, t.shared, t.store);
        if v.Some? then FlatAssign(t, d, v.value) else Stuck
      case Declare(_) => Next(t.(pc := t.pc + 1))
      case Goto(e) =>
        var v := Eval(e, t.shared, t.store);
        if v.Some? && v.value.Lab? then FlatJump(code, t, v.value.l) else Stuck
      case Branch(c, l) =>
        var v := Eval(c, t.shared, t.store);
        if v.None? || v.value.Lab? then Stuck
        else if v.value.n != 0 then FlatJump(code, t, l)
        else Next(t.(pc := t.pc + 1))
      case Inc(f) => FlatBump(t, f, 1)
      case Dec(f) => FlatBump(t, f, -1)
      case Wait =>
        var trace := t.trace + [Waited];
        Next(t.(pc := t.pc + 1, shared := t.shared + env(trace), trace := trace))
      case Call(_, _, _, _) => Stuck
      case Return(_) => Stuck
  }

  function FlatRun(code: seq<Instr>, env: Env, t: FlatState, k: nat): Outcome<FlatState>
    decreases k
  {
    if k == 0 then Next(t)
    else
      var r := FlatStep(code, env, t);
      if r.Next? then FlatRun(code, env, r.state, k - 1) else r
  }

  lemma FlatRunSplit(code: seq<Instr>, env: Env, t: FlatState, j: nat, k: nat)
    ensures FlatRun(code, env, t, j).Next? ==>
              FlatRun(code, env, t, j + k) == FlatRun(code, env, FlatRun(code, env, t, j).state, k)
    ensures FlatRun(code, env, t, j + k).Next? ==> FlatRun(code, env, t, j).Next?
    ensures !FlatRun(code, env, t, j).Next? ==> FlatRun(code, env, t, j + k) == FlatRun(code, env, t, j)
    decreases j
  {
    hide FlatStep;
    if j != 0 {
      var r := FlatStep(code, env, t);
      if r.Next? {
        FlatRunSplit(code, env, r.state, j - 1, k);
      }
    }
  }

  lemma FindIs(code: seq<Instr>, l: Label, k: nat)
    requires k < |code| && code[k] == Declare(l)
    requires forall j :: 0 <= j < k ==> code[j] != Declare(l)
    ensures Find(code, l) == k
  {
  }
}
