/** Threads whose jumps all go through the state variable, and what it means to run them.

    A thread is a list of top-level statements.  A combable statement (`Act`) computes, or assigns the
    state variable; a wait hands control to the environment.  What computations, tests and waits do is
    given by `Sem`, over which every theorem quantifies.  They act on everything but the state variable,
    which is private to the thread.

    The reference is the dispatch machine: look at the state variable, run the body of that state,
    repeat.  `Ok` describes every intermediate form of the fall-through passes: states still in the form
    `LABEL: body; goto lmap[state]`, states turned into `if( state==S ){ body }` with or without a goto
    inside, and labels anywhere above the guard they lead to.  Any thread of these forms runs the bodies
    and waits of the dispatch machine, in the same order, for ever (`Implements`). */
module StateMachine {
  import opened Prelude

  type Name = nat // a computation, a condition, a wait or a variable of the program

  /** What the state variable is assigned: an enumerator, or a choice between two by a condition. */
  datatype Target = Const(k: nat) | Choose(c: Name, a: Target, b: Target)

  datatype Action = Compute(n: Name) | SetState(t: Target)

  datatype Stmt =
    | Act(a: Action)                  // combable
    | Wait(w: Name)                   // uncombable
    | Goto                            // goto lmap[state]
    | Label(id: nat, of: nat)         // a state label carries the enumerator of its state
    | Guard(k: nat, body: seq<Stmt>)  // if( state==k ){ body }
    | Once(body: seq<Stmt>)           // if( delta_count==0 ){ body; goto lmap[state] }

  datatype Event = Wrote(x: Name, v: int) | Waited(w: Name)

  /** Everything a thread can see except its own state variable and the delta count. */
  datatype Rest = Rest(vars: map<Name, int>, trace: seq<Event>)

  datatype Data = Data(state: nat, rest: Rest, deltas: nat)

  datatype Sem = Sem(act: (Name, Rest) -> Rest, test: (Name, Rest) -> (bool, Rest), wait: (Name, Rest) -> Rest)

  type Blocks = map<nat, seq<Stmt>>   // the body of each state
  type LabelMap = map<nat, nat>       // lmap: the label of each state

  predicate Straight(s: seq<Stmt>) {
    forall i :: 0 <= i < |s| ==> s[i].Act? || s[i].Wait?
  }

  function Chosen(sem: Sem, t: Target, r: Rest): (nat, Rest) {
    match t
    case Const(k) => (k, r)
    case Choose(c, a, b) =>
      var (v, u) := sem.test(c, r);
      if v then Chosen(sem, a, u) else Chosen(sem, b, u)
  }

  /** A statement without control flow.  Only a wait lets delta cycles go by. */
  function Exec(sem: Sem, s: Stmt, d: Data): Data {
    match s
    case Act(Compute(n)) => d.(rest := sem.act(n, d.rest))
    case Act(SetState(t)) =>
      var (k, r) := Chosen(sem, t, d.rest);
      d.(state := k, rest := r)
    case Wait(w) => d.(rest := sem.wait(w, d.rest), deltas := d.deltas + 1)
    case _ => d
  }

  function RunBody(sem: Sem, body: seq<Stmt>, d: Data): Data {
    if body == [] then d else Exec(sem, body[|body| - 1], RunBody(sem, body[..|body| - 1], d))
  }

  // ---------- the dispatch machine ----------

  predicate WfBlocks(b: Blocks) {
    forall k :: k in b ==> Straight(b[k])
  }

  /** The state variable is only ever given enumerators of the thread. */
  ghost predicate Closed(sem: Sem, b: Blocks) {
    forall d: Data :: d.state in b ==> RunBody(sem, b[d.state], d).state in b
  }

  function Dispatch(sem: Sem, b: Blocks, d: Data, n: nat): Data {
    if n == 0 then d
    else
      var d1 := Dispatch(sem, b, d, n - 1);
      if d1.state in b then RunBody(sem, b[d1.state], d1) else d1
  }

  function DispatchLog(sem: Sem, b: Blocks, d: Data, n: nat): seq<Stmt> {
    if n == 0 then []
    else
      var d1 := Dispatch(sem, b, d, n - 1);
      DispatchLog(sem, b, d, n - 1) + if d1.state in b then b[d1.state] else []
  }

  lemma {:induction false} DispatchStays(sem: Sem, b: Blocks, d: Data, n: nat)
    requires Closed(sem, b) && d.state in b
    ensures Dispatch(sem, b, d, n).state in b
  {
    if n > 0 {
      DispatchStays(sem, b, d, n - 1);
    }
  }

  // ---------- the goto machine ----------

  /** `log` records the combable statements and waits executed so far. */
  datatype Config = Config(pc: nat, d: Data, log: seq<Stmt>)

  predicate IsLabel(s: Stmt, id: nat) {
    s.Label? && s.id == id
  }

  function FindLabel(p: seq<Stmt>, id: nat): (q: nat)
    ensures q <= |p| && (q < |p| ==> IsLabel(p[q], id)) && forall i :: 0 <= i < q ==> !IsLabel(p[i], id)
  {
    if p == [] then 0
    else if IsLabel(p[0], id) then 0
    else
      var q := FindLabel(p[1..], id);
      assert forall i :: 0 < i < q + 1 ==> p[i] == p[1..][i - 1];
      q + 1
  }

  function Jump(lm: LabelMap, p: seq<Stmt>, c: Config): Option<Config> {
    if c.d.state in lm && FindLabel(p, lm[c.d.state]) < |p|
    then Some(c.(pc := FindLabel(p, lm[c.d.state])))
    else None
  }

  function RunGuard(sem: Sem, lm: LabelMap, p: seq<Stmt>, body: seq<Stmt>, c: Config): Option<Config> {
    if body != [] && body[|body| - 1].Goto? then
      var run := body[..|body| - 1];
      Jump(lm, p, Config(c.pc, RunBody(sem, run, c.d), c.log + run))
    else Some(Config(c.pc + 1, RunBody(sem, body, c.d), c.log + body))
  }

  function Step(sem: Sem, lm: LabelMap, p: seq<Stmt>, c: Config): Option<Config> {
    if c.pc >= |p| then None
    else
      match p[c.pc]
      case Act(_) => Some(Config(c.pc + 1, Exec(sem, p[c.pc], c.d), c.log + [p[c.pc]]))
      case Wait(_) => Some(Config(c.pc + 1, Exec(sem, p[c.pc], c.d), c.log + [p[c.pc]]))
      case Goto => Jump(lm, p, c)
      case Label(_, _) => Some(c.(pc := c.pc + 1))
      case Guard(k, body) => if c.d.state == k then RunGuard(sem, lm, p, body, c) else Some(c.(pc := c.pc + 1))
      case Once(body) =>
        if c.d.deltas == 0 then Jump(lm, p, Config(c.pc, RunBody(sem, body, c.d), c.log + body)) else Some(c.(pc := c.pc + 1))
  }

  function Run(sem: Sem, lm: LabelMap, p: seq<Stmt>, c: Config, n: nat): Option<Config>
    decreases n
  {
    if n == 0 then Some(c)
    else
      var r := Step(sem, lm, p, c);
      if r.None? then None else Run(sem, lm, p, r.value, n - 1)
  }

  lemma {:induction false} RunSplit(sem: Sem, lm: LabelMap, p: seq<Stmt>, c: Config, m: nat, n: nat)
    ensures Run(sem, lm, p, c, m).Some? ==>
              Run(sem, lm, p, c, m + n) == Run(sem, lm, p, Run(sem, lm, p, c, m).value, n)
    ensures Run(sem, lm, p, c, m).None? ==> Run(sem, lm, p, c, m + n).None?
    decreases m
  {
    hide Step;
    if m > 0 {
      var r := Step(sem, lm, p, c);
      if r.Some? {
        RunSplit(sem, lm, p, r.value, m - 1, n);
      }
    }
  }

  // ---------- the forms that the passes produce ----------

  /** A run of labels and guards that ends in a goto. */
  predicate Scan(s: seq<Stmt>)
    decreases |s|
  {
    s != [] && (s[0].Goto? || ((s[0].Label? || s[0].Guard?) && Scan(s[1..])))
  }

  /** A run of labels and guards in which the guard of state k comes before any goto. */
  predicate Reaches(s: seq<Stmt>, k: nat)
    decreases |s|
  {
    s != [] &&
    match s[0]
    case Label(_, _) => Reaches(s[1..], k)
    case Guard(j, _) => j == k || Reaches(s[1..], k)
    case _ => false
  }

  predicate LeadsTo(lm: LabelMap, id: nat, k: nat) {
    k in lm && lm[k] == id
  }

  /** The label of a state that is still in raw form. */
  predicate RawLabel(b: Blocks, lm: LabelMap, id: nat, k: nat, s: seq<Stmt>) {
    k in b && b[k] + [Goto] <= s && forall j :: j in b && LeadsTo(lm, id, j) ==> j == k
  }

  /** A label from which every state that uses it meets its guard. */
  predicate GuardLabel(b: Blocks, lm: LabelMap, id: nat, s: seq<Stmt>) {
    forall k :: k in b && LeadsTo(lm, id, k) ==> Reaches(s, k)
  }

  predicate WfGuard(b: Blocks, k: nat, body: seq<Stmt>) {
    k in b && (body == b[k] || body == b[k] + [Goto])
  }

  ghost predicate Ok(b: Blocks, lm: LabelMap, s: seq<Stmt>)
    decreases |s|
  {
    s == [] ||
    match s[0]
    case Goto => Ok(b, lm, s[1..])
    case Guard(k, body) => WfGuard(b, k, body) && Scan(s[1..]) && Ok(b, lm, s[1..])
    case Label(id, _) =>
      || (GuardLabel(b, lm, id, s[1..]) && Ok(b, lm, s[1..]))
      || (exists k :: RawLabel(b, lm, id, k, s[1..]) && Ok(b, lm, s[1 + |b[k]|..]))
    case _ => false
  }

  /** A thread: reset code, then statements of the forms above, with a label for every state. */
  ghost predicate Thread(b: Blocks, lm: LabelMap, p: seq<Stmt>, reset: nat) {
    && reset <= |p| && Straight(p[..reset])
    && Ok(b, lm, p[reset..]) && Scan(p[reset..])
    && forall k :: k in b ==> k in lm && FindLabel(p, lm[k]) < |p|
  }

  // ---------- any such thread implements the dispatch machine ----------

  /** A label behind a raw state is behind its whole body. */
  lemma BehindBody(b: Blocks, lm: LabelMap, id: nat, k: nat, s: seq<Stmt>, q: nat)
    requires WfBlocks(b) && 0 < q < |s| && s[q].Label? && RawLabel(b, lm, id, k, s[1..])
    ensures q > |b[k]| && 1 + |b[k]| <= |s| && s[1 + |b[k]|..][q - 1 - |b[k]|..] == s[q..] && s[1 + |b[k]|..][q - 1 - |b[k]|].Label?
  {
    var body := b[k];
    assert |body + [Goto]| <= |s[1..]|;
    forall i | 0 <= i < |body| ensures s[i + 1] == body[i] {
      assert (body + [Goto])[i] == s[1..][i];
    }
    assert (body + [Goto])[|body|] == s[1..][|body|];
  }

  lemma {:induction false} OkAtLabel(b: Blocks, lm: LabelMap, s: seq<Stmt>, q: nat)
    requires WfBlocks(b) && Ok(b, lm, s) && q < |s| && s[q].Label?
    ensures Ok(b, lm, s[q..])
    decreases |s|
  {
    hide GuardLabel;
    hide Scan;
    hide WfGuard;
    hide WfBlocks;
    TailOfTail(s, q);
    if q > 0 {
      match s[0]
      case Label(id, _) =>
        if GuardLabel(b, lm, id, s[1..]) && Ok(b, lm, s[1..]) {
          OkAtLabel(b, lm, s[1..], q - 1);
        } else {
          var k :| RawLabel(b, lm, id, k, s[1..]) && Ok(b, lm, s[1 + |b[k]|..]);
          BehindBody(b, lm, id, k, s, q);
          OkAtLabel(b, lm, s[1 + |b[k]|..], q - 1 - |b[k]|);
        }
      case Goto => OkAtLabel(b, lm, s[1..], q - 1);
      case Guard(_, _) => OkAtLabel(b, lm, s[1..], q - 1);
      case Act(_) =>
      case Wait(_) =>
      case Once(_) =>
    }
  }

  lemma TailOfTail(s: seq<Stmt>, q: nat)
    requires q < |s|
    ensures s[0..] == s
    ensures q > 0 ==> s[1..][q - 1..] == s[q..] && s[1..][q - 1] == s[q]
  {
  }

  /** At a block boundary: about to scan, or on the label of the current state. */
  ghost predicate Ready(b: Blocks, lm: LabelMap, p: seq<Stmt>, c: Config) {
    && c.pc < |p| && c.d.state in b && Ok(b, lm, p[c.pc..])
    && (Scan(p[c.pc..]) || (p[c.pc].Label? && LeadsTo(lm, p[c.pc].id, c.d.state)))
  }

  lemma ReadyState(b: Blocks, lm: LabelMap, p: seq<Stmt>, c: Config)
    requires Ready(b, lm, p, c)
    ensures c.d.state in b
  {
  }

  lemma JumpReady(b: Blocks, lm: LabelMap, p: seq<Stmt>, reset: nat, c: Config)
    requires WfBlocks(b) && Thread(b, lm, p, reset) && c.d.state in b
    ensures Jump(lm, p, c).Some? && Ready(b, lm, p, Jump(lm, p, c).value)
    ensures var c' := Jump(lm, p, c).value; p[c'.pc].Label? && LeadsTo(lm, p[c'.pc].id, c.d.state)
  {
    var q := FindLabel(p, lm[c.d.state]);
    assert forall i :: 0 <= i < reset ==> p[i] == p[..reset][i];
    OkAtLabel(b, lm, p[reset..], q - reset);
    assert p[reset..][q - reset..] == p[q..];
  }

  /** Straight code is executed statement by statement. */
  lemma {:induction false} RunStraight(sem: Sem, lm: LabelMap, p: seq<Stmt>, body: seq<Stmt>, c: Config)
    requires Straight(body) && c.pc + |body| <= |p| && p[c.pc..c.pc + |body|] == body
    ensures Run(sem, lm, p, c, |body|) == Some(Config(c.pc + |body|, RunBody(sem, body, c.d), c.log + body))
    decreases |body|
  {
    hide Exec;
    if body == [] {
      assert c.log + [] == c.log;
    } else {
      var n := |body| - 1;
      assert p[c.pc..c.pc + n] == body[..n];
      RunStraight(sem, lm, p, body[..n], c);
      RunSplit(sem, lm, p, c, n, 1);
      assert p[c.pc + n] == body[n];
      assert body[..n] + [body[n]] == body;
      var c1 := Config(c.pc + n, RunBody(sem, body[..n], c.d), c.log + body[..n]);
      assert c1.log + [body[n]] == c.log + body;
      assert Run(sem, lm, p, c1, 1) == Step(sem, lm, p, c1);
    }
  }

  /** The outcome of running the body of the current state. */
  ghost predicate Ran(sem: Sem, b: Blocks, lm: LabelMap, p: seq<Stmt>, c: Config, n: nat, c': Config)
    requires c.d.state in b
  {
    && n > 0 && Run(sem, lm, p, c, n) == Some(c')
    && c'.d == RunBody(sem, b[c.d.state], c.d) && c'.log == c.log + b[c.d.state]
    && Ready(b, lm, p, c')
  }

  lemma StepThenRan(sem: Sem, b: Blocks, lm: LabelMap, p: seq<Stmt>, c: Config, c1: Config, n: nat, c': Config)
    requires Step(sem, lm, p, c) == Some(c1) && c1.d == c.d && c1.log == c.log && c.d.state in b
    requires Ran(sem, b, lm, p, c1, n, c')
    ensures Ran(sem, b, lm, p, c, n + 1, c')
  {
  }

  lemma GuardRan(sem: Sem, b: Blocks, lm: LabelMap, p: seq<Stmt>, reset: nat, c: Config) returns (c': Config)
    requires WfBlocks(b) && Closed(sem, b) && Thread(b, lm, p, reset) && c.pc < |p| && c.d.state in b
    requires Ok(b, lm, p[c.pc..]) && p[c.pc].Guard? && p[c.pc].k == c.d.state
    ensures Ran(sem, b, lm, p, c, 1, c')
  {
    hide Thread;
    hide Closed;
    hide Ok;
    hide Scan;
    hide WfBlocks;
    hide RunBody;
    hide Ready;
    hide Step;
    var k, body := p[c.pc].k, p[c.pc].body;
    BehindGuard(b, lm, p, c.pc);
    ClosedAt(sem, b, c.d);
    var after := Config(c.pc, RunBody(sem, b[k], c.d), c.log + b[k]);
    if body == b[k] {
      c' := after.(pc := c.pc + 1);
      ReadyToScan(b, lm, p, c');
    } else {
      JumpReady(b, lm, p, reset, after);
      c' := Jump(lm, p, after).value;
    }
    GuardStep(sem, b, lm, p, c);
    assert Run(sem, lm, p, c, 1) == Some(c');
  }

  lemma BehindGuard(b: Blocks, lm: LabelMap, p: seq<Stmt>, pc: nat)
    requires pc < |p| && Ok(b, lm, p[pc..]) && p[pc].Guard?
    ensures WfGuard(b, p[pc].k, p[pc].body) && Scan(p[pc + 1..]) && Ok(b, lm, p[pc + 1..])
  {
    assert p[pc..][0] == p[pc];
    assert p[pc..][1..] == p[pc + 1..];
  }

  lemma ReadyToScan(b: Blocks, lm: LabelMap, p: seq<Stmt>, c: Config)
    requires c.pc <= |p| && c.d.state in b && Ok(b, lm, p[c.pc..]) && Scan(p[c.pc..])
    ensures Ready(b, lm, p, c)
  {
  }

  /** The guard of the current state runs its body and leaves it, or jumps. */
  lemma GuardStep(sem: Sem, b: Blocks, lm: LabelMap, p: seq<Stmt>, c: Config)
    requires WfBlocks(b) && c.pc < |p| && p[c.pc].Guard? && p[c.pc].k == c.d.state && WfGuard(b, c.d.state, p[c.pc].body)
    ensures var k := c.d.state;
            var after := Config(c.pc, RunBody(sem, b[k], c.d), c.log + b[k]);
            Step(sem, lm, p, c) == if p[c.pc].body == b[k] then Some(after.(pc := c.pc + 1)) else Jump(lm, p, after)
  {
    hide RunBody;
    hide Jump;
    var k, body := c.d.state, p[c.pc].body;
    if body == b[k] {
      assert !(body != [] && body[|body| - 1].Goto?);
    } else {
      assert body[..|body| - 1] == b[k];
    }
  }

  lemma ClosedAt(sem: Sem, b: Blocks, d: Data)
    requires Closed(sem, b) && d.state in b
    ensures RunBody(sem, b[d.state], d).state in b
  {
  }

  /** From a place where the guard of the current state is ahead. */
  lemma {:induction false} FromReaching(sem: Sem, b: Blocks, lm: LabelMap, p: seq<Stmt>, reset: nat, c: Config)
    returns (n: nat, c': Config)
    requires WfBlocks(b) && Closed(sem, b) && Thread(b, lm, p, reset)
    requires c.pc < |p| && c.d.state in b && Ok(b, lm, p[c.pc..]) && Reaches(p[c.pc..], c.d.state)
    ensures Ran(sem, b, lm, p, c, n, c')
    decreases |p| - c.pc
  {
    hide Thread;
    hide Closed;
    hide Ran;
    assert p[c.pc..][1..] == p[c.pc + 1..];
    if p[c.pc].Guard? && p[c.pc].k == c.d.state {
      c' := GuardRan(sem, b, lm, p, reset, c);
      n := 1;
    } else {
      var c1 := c.(pc := c.pc + 1);
      OkNext(b, lm, p[c.pc..], c.d.state);
      n, c' := FromReaching(sem, b, lm, p, reset, c1);
      StepThenRan(sem, b, lm, p, c, c1, n, c');
      n := n + 1;
    }
  }

  lemma AfterLabel(s: seq<Stmt>, k: nat)
    requires s != [] && s[0].Label? && (Scan(s) || Reaches(s, k))
    ensures |s| > 1 && !s[1].Act? && !s[1].Wait?
  {
    assert Scan(s) ==> Scan(s[1..]);
    assert Reaches(s, k) ==> Reaches(s[1..], k);
  }

  lemma OkNext(b: Blocks, lm: LabelMap, s: seq<Stmt>, k: nat)
    requires WfBlocks(b) && Ok(b, lm, s) && s != [] && (Scan(s) || Reaches(s, k)) && (s[0].Label? || s[0].Guard?)
    ensures Ok(b, lm, s[1..])
  {
    if s[0].Label? && !(GuardLabel(b, lm, s[0].id, s[1..]) && Ok(b, lm, s[1..])) {
      var j :| RawLabel(b, lm, s[0].id, j, s[1..]) && Ok(b, lm, s[1 + |b[j]|..]);
      assert (b[j] + [Goto])[0] == s[1..][0];
      AfterLabel(s, k);
      assert b[j] == [];
      assert s[1 + 0..] == s[1..];
    }
  }

  /** A state in raw form runs its body and stops at the goto below it. */
  lemma RawRan(sem: Sem, b: Blocks, lm: LabelMap, p: seq<Stmt>, c: Config) returns (n: nat, c': Config)
    requires WfBlocks(b) && Closed(sem, b) && c.pc <= |p| && c.d.state in b
    requires var body := b[c.d.state];
             body + [Goto] <= p[c.pc..] && Ok(b, lm, p[c.pc..][|body|..])
    ensures Run(sem, lm, p, c, n) == Some(c') && Ready(b, lm, p, c')
    ensures c'.d == RunBody(sem, b[c.d.state], c.d) && c'.log == c.log + b[c.d.state]
  {
    hide Closed;
    hide Ok;
    hide Run;
    var body := b[c.d.state];
    assert body == (body + [Goto])[..|body|] == p[c.pc..c.pc + |body|];
    RunStraight(sem, lm, p, body, c);
    n, c' := |body|, Config(c.pc + |body|, RunBody(sem, body, c.d), c.log + body);
    assert p[c'.pc..] == p[c.pc..][|body|..];
    assert p[c'.pc] == (body + [Goto])[|body|];
    ClosedAt(sem, b, c.d);
  }

  lemma FromLabel(sem: Sem, b: Blocks, lm: LabelMap, p: seq<Stmt>, reset: nat, c: Config) returns (n: nat, c': Config)
    requires WfBlocks(b) && Closed(sem, b) && Thread(b, lm, p, reset)
    requires c.pc < |p| && c.d.state in b && Ok(b, lm, p[c.pc..])
    requires p[c.pc].Label? && LeadsTo(lm, p[c.pc].id, c.d.state)
    ensures Ran(sem, b, lm, p, c, n, c')
  {
    hide Thread;
    hide Closed;
    hide Ready;
    hide WfBlocks;
    hide Scan;
    hide RunBody;
    hide Run;
    hide GuardLabel;
    var s, id, c1 := p[c.pc..], p[c.pc].id, c.(pc := c.pc + 1);
    assert s[1..] == p[c1.pc..];
    if GuardLabel(b, lm, id, s[1..]) && Ok(b, lm, s[1..]) {
      hide Ok;
      GuardReached(b, lm, id, s[1..], c.d.state);
      n, c' := FromReaching(sem, b, lm, p, reset, c1);
    } else {
      var k :| RawLabel(b, lm, id, k, s[1..]) && Ok(b, lm, s[1 + |b[k]|..]);
      hide Ok;
      RawIsOwn(b, lm, id, k, s, c.d.state);
      n, c' := RawRan(sem, b, lm, p, c1);
    }
    RunOnce(sem, lm, p, c, c1, n);
    n := n + 1;
  }

  lemma GuardReached(b: Blocks, lm: LabelMap, id: nat, s: seq<Stmt>, k: nat)
    requires GuardLabel(b, lm, id, s) && k in b && LeadsTo(lm, id, k)
    ensures Reaches(s, k)
  {
  }

  /** The raw state behind a label is the one the label stands for. */
  lemma RawIsOwn(b: Blocks, lm: LabelMap, id: nat, k: nat, s: seq<Stmt>, state: nat)
    requires s != [] && RawLabel(b, lm, id, k, s[1..]) && state in b && LeadsTo(lm, id, state)
    ensures k == state && b[k] + [Goto] <= s[1..] && 1 + |b[k]| <= |s| && s[1..][|b[k]|..] == s[1 + |b[k]|..]
  {
    assert |b[k] + [Goto]| <= |s[1..]|;
  }

  lemma RunOnce(sem: Sem, lm: LabelMap, p: seq<Stmt>, c: Config, c1: Config, n: nat)
    requires Step(sem, lm, p, c) == Some(c1)
    ensures Run(sem, lm, p, c, n + 1) == Run(sem, lm, p, c1, n)
  {
    hide Step;
  }

  lemma {:induction false} FromScan(sem: Sem, b: Blocks, lm: LabelMap, p: seq<Stmt>, reset: nat, c: Config)
    returns (n: nat, c': Config)
    requires WfBlocks(b) && Closed(sem, b) && Thread(b, lm, p, reset)
    requires c.pc < |p| && c.d.state in b && Ok(b, lm, p[c.pc..]) && Scan(p[c.pc..])
    ensures Ran(sem, b, lm, p, c, n, c')
    decreases |p| - c.pc
  {
    hide Thread;
    hide Closed;
    hide Ran;
    assert p[c.pc..][1..] == p[c.pc + 1..];
    if p[c.pc].Goto? {
      JumpReady(b, lm, p, reset, c);
      var c1 := Jump(lm, p, c).value;
      n, c' := FromLabel(sem, b, lm, p, reset, c1);
      StepThenRan(sem, b, lm, p, c, c1, n, c');
      n := n + 1;
    } else if p[c.pc].Guard? && p[c.pc].k == c.d.state {
      c' := GuardRan(sem, b, lm, p, reset, c);
      n := 1;
    } else {
      var c1 := c.(pc := c.pc + 1);
      OkNext(b, lm, p[c.pc..], c.d.state);
      n, c' := FromScan(sem, b, lm, p, reset, c1);
      StepThenRan(sem, b, lm, p, c, c1, n, c');
      n := n + 1;
    }
  }

  /** From one block boundary to the next, the thread runs exactly the body of the current state. */
  lemma RunsOneState(sem: Sem, b: Blocks, lm: LabelMap, p: seq<Stmt>, reset: nat, c: Config) returns (n: nat, c': Config)
    requires WfBlocks(b) && Closed(sem, b) && Thread(b, lm, p, reset) && Ready(b, lm, p, c)
    ensures Ran(sem, b, lm, p, c, n, c')
  {
    hide Thread;
    hide Closed;
    if Scan(p[c.pc..]) {
      n, c' := FromScan(sem, b, lm, p, reset, c);
    } else {
      n, c' := FromLabel(sem, b, lm, p, reset, c);
    }
  }

  function Start(sem: Sem, p: seq<Stmt>, reset: nat, d: Data): Data
    requires reset <= |p|
  {
    RunBody(sem, p[..reset], d)
  }

  lemma AfterReset(sem: Sem, b: Blocks, lm: LabelMap, p: seq<Stmt>, reset: nat, d: Data) returns (c: Config)
    requires Thread(b, lm, p, reset) && Start(sem, p, reset, d).state in b
    ensures c == Config(reset, Start(sem, p, reset, d), p[..reset])
    ensures Run(sem, lm, p, Config(0, d, []), reset) == Some(c) && Ready(b, lm, p, c)
  {
    hide Run;
    assert p[0..0 + reset] == p[..reset];
    RunStraight(sem, lm, p, p[..reset], Config(0, d, []));
    c := Config(reset, RunBody(sem, p[..reset], d), [] + p[..reset]);
  }

  /** From any block boundary the thread passes through every point of the dispatch machine's run. */
  lemma {:induction false} ImplementsFrom(sem: Sem, b: Blocks, lm: LabelMap, p: seq<Stmt>, reset: nat, c0: Config, m: nat)
    returns (n: nat, c: Config)
    requires WfBlocks(b) && Closed(sem, b) && Thread(b, lm, p, reset) && Ready(b, lm, p, c0)
    ensures n >= m && Run(sem, lm, p, c0, n) == Some(c)
    ensures c.d == Dispatch(sem, b, c0.d, m) && c.log == c0.log + DispatchLog(sem, b, c0.d, m)
    ensures Ready(b, lm, p, c)
    decreases m
  {
    hide Step;
    hide Closed;
    hide Run;
    hide Ready;
    hide Ok;
    hide Scan;
    hide RunBody;
    hide FindLabel;
    hide Straight;
    hide WfBlocks;
    if m == 0 {
      n, c := 0, c0;
      RunNone(sem, lm, p, c0);
      assert c0.log + [] == c0.log;
    } else {
      var n1, c1 := ImplementsFrom(sem, b, lm, p, reset, c0, m - 1);
      assert c1.d.state in b by { ReadyState(b, lm, p, c1); }
      var n2, c2 := RunsOneState(sem, b, lm, p, reset, c1);
      RunSplit(sem, lm, p, c0, n1, n2);
      n, c := n1 + n2, c2;
      var body := b[c1.d.state];
      assert c0.log + DispatchLog(sem, b, c0.d, m - 1) + body == c0.log + (DispatchLog(sem, b, c0.d, m - 1) + body);
    }
  }

  lemma RunNone(sem: Sem, lm: LabelMap, p: seq<Stmt>, c: Config)
    ensures Run(sem, lm, p, c, 0) == Some(c)
  {
  }

  /** The thread passes through every point of the dispatch machine's run. */
  lemma Implements(sem: Sem, b: Blocks, lm: LabelMap, p: seq<Stmt>, reset: nat, d: Data, m: nat)
    returns (n: nat, c: Config)
    requires WfBlocks(b) && Closed(sem, b) && Thread(b, lm, p, reset) && Start(sem, p, reset, d).state in b
    ensures n >= m && Run(sem, lm, p, Config(0, d, []), n) == Some(c)
    ensures c.d == Dispatch(sem, b, Start(sem, p, reset, d), m)
    ensures c.log == p[..reset] + DispatchLog(sem, b, Start(sem, p, reset, d), m)
    ensures Ready(b, lm, p, c)
  {
    hide Closed;
    hide Run;
    hide Ready;
    hide Ok;
    hide RunBody;
    hide FindLabel;
    hide Scan;
    var c0 := AfterReset(sem, b, lm, p, reset, d);
    var n1, c1 := ImplementsFrom(sem, b, lm, p, reset, c0, m);
    RunSplit(sem, lm, p, Config(0, d, []), reset, n1);
    n, c := reset + n1, c1;
  }

  lemma {:induction false} LogGrows(sem: Sem, lm: LabelMap, p: seq<Stmt>, c: Config, n: nat)
    requires Run(sem, lm, p, c, n).Some?
    ensures c.log <= Run(sem, lm, p, c, n).value.log
    decreases n
  {
    if n > 0 {
      LogGrows(sem, lm, p, Step(sem, lm, p, c).value, n - 1);
    }
  }

  /** And it does nothing else: after any number of steps it is still running, and what it has executed
      is a prefix of what the dispatch machine executes. */
  lemma ImplementsOnly(sem: Sem, b: Blocks, lm: LabelMap, p: seq<Stmt>, reset: nat, d: Data, n: nat)
    requires WfBlocks(b) && Closed(sem, b) && Thread(b, lm, p, reset) && Start(sem, p, reset, d).state in b
    ensures Run(sem, lm, p, Config(0, d, []), n).Some?
    ensures Run(sem, lm, p, Config(0, d, []), n).value.log <= p[..reset] + DispatchLog(sem, b, Start(sem, p, reset, d), n)
  {
    hide Run;
    hide Ready;
    hide Closed;
    hide Ok;
    var n', c := Implements(sem, b, lm, p, reset, d, n);
    RunSplit(sem, lm, p, Config(0, d, []), n, n' - n);
    LogGrows(sem, lm, p, Run(sem, lm, p, Config(0, d, []), n).value, n' - n);
  }
}
