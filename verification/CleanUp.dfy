/** Removing labels and dead statements.

    Each pass deletes one instruction and may rename labels across the whole function, including those
    stored in variables.  The programs before and after run together: the original may take up to two
    more steps over a deleted label, and otherwise the two move in step. */
module CleanUp {
  import opened Prelude
  import opened CallMachine
  import opened LabelValues

  datatype Pass =
    | Duplicate(l1: Label, l2: Label, m: Label)   // l1: l2:       becomes  m:
    | Ineffectual(l1: Label, l2: Label, m: Label) // l1: goto l2   becomes  goto m
    | Unused(l: Label)                            // l:            is dropped
    | Dead                                        // the statement after an exit is dropped

  function Renaming(pass: Pass): Label -> Label {
    match pass
    case Duplicate(l1, l2, m) => l => if l == l1 || l == l2 then m else l
    case Ineffectual(l1, l2, m) => l => if l == l1 || l == l2 then m else l
    case _ => l => l
  }

  function Values(pass: Pass): Meaning {
    var rho := Renaming(pass);
    l => Lab(rho(l))
  }

  function RenameInstr(pass: Pass, i: Instr): Instr {
    match i
    case Declare(l) => Declare(Renaming(pass)(l))
    case Branch(c, l) => Branch(ReplaceExp(Values(pass), c), Renaming(pass)(l))
    case _ => ReplaceInstr(Values(pass), i)
  }

  /** The code without instruction q, with labels renamed. */
  function Cleaned(pass: Pass, code: seq<Instr>, q: nat): (r: seq<Instr>)
    requires q < |code|
  {
    seq(|code| - 1, i requires 0 <= i < |code| - 1 => RenameInstr(pass, code[if i < q then i else i + 1]))
  }

  predicate MentionsInExp(e: Exp, l: Label) {
    match e
    case LabelOf(k) => k == l
    case Bin(_, a, b) => MentionsInExp(a, l) || MentionsInExp(b, l)
    case _ => false
  }

  /** A use of a label other than its declaration. */
  predicate Mentions(i: Instr, l: Label) {
    match i
    case Assign(_, e) => MentionsInExp(e, l)
    case Goto(e) => MentionsInExp(e, l)
    case Branch(c, k) => MentionsInExp(c, l) || k == l
    case _ => false
  }

  ghost predicate UniqueLabels(code: seq<Instr>) {
    forall i, j :: 0 <= i < j < |code| && code[i].Declare? ==> code[i] != code[j]
  }

  /** A label built for the merge is new, though it may reuse either name. */
  ghost predicate FreshFor(code: seq<Instr>, l1: Label, l2: Label, m: Label) {
    m == l1 || m == l2 || forall i :: 0 <= i < |code| ==> code[i] != Declare(m)
  }

  ghost predicate LabelBeforeGoto(code: seq<Instr>, q: nat, l1: Label, l2: Label, m: Label) {
    && q + 1 < |code| && code[q] == Declare(l1) && code[q + 1] == Goto(LabelOf(l2))
    && UniqueLabels(code) && FreshFor(code, l1, l2, m) && Find(code, l2) < |code|
  }

  /** The pass matches at instruction q. */
  ghost predicate Applies(pass: Pass, code: seq<Instr>, q: nat) {
    match pass
    case Duplicate(l1, l2, m) =>
      q + 1 < |code| && code[q] == Declare(l1) && code[q + 1] == Declare(l2) && UniqueLabels(code) && FreshFor(code, l1, l2, m)
    case Ineffectual(l1, l2, m) => LabelBeforeGoto(code, q, l1, l2, m) && l1 != l2
    case Unused(l) => q < |code| && code[q] == Declare(l) && forall i :: 0 <= i < |code| ==> !Mentions(code[i], l)
    case Dead => 0 < q < |code| && (code[q - 1].Goto? || code[q - 1].Return?) && !code[q].Declare?
  }

  /** When no pass matches any more there are no neighbouring labels, no label that is declared in front of
      a goto to another, no label that nothing uses, and nothing but labels behind a goto or a return. */
  lemma NothingLeft(code: seq<Instr>)
    requires UniqueLabels(code) && forall pass, q :: !Applies(pass, code, q)
    ensures forall q :: 0 <= q && q + 1 < |code| && code[q].Declare? ==> !code[q + 1].Declare?
    ensures forall q, l | 0 <= q && q + 1 < |code| && code[q].Declare? && code[q + 1] == Goto(LabelOf(l)) ::
              l == code[q].l || Declare(l) !in code
    ensures forall q | 0 <= q < |code| && code[q].Declare? :: exists i :: 0 <= i < |code| && Mentions(code[i], code[q].l)
    ensures forall q | 0 < q < |code| && (code[q - 1].Goto? || code[q - 1].Return?) :: code[q].Declare?
  {
    forall q | 0 <= q && q + 1 < |code| && code[q].Declare? ensures !code[q + 1].Declare? {
      if code[q + 1].Declare? {
        assert Applies(Duplicate(code[q].l, code[q + 1].l, code[q].l), code, q);
      }
    }
    forall q, l | 0 <= q && q + 1 < |code| && code[q].Declare? && code[q + 1] == Goto(LabelOf(l))
      ensures l == code[q].l || Declare(l) !in code
    {
      assert !Applies(Ineffectual(code[q].l, l, l), code, q);
    }
    forall q | 0 <= q < |code| && code[q].Declare? ensures exists i :: 0 <= i < |code| && Mentions(code[i], code[q].l) {
      assert !Applies(Unused(code[q].l), code, q);
    }
    forall q | 0 < q < |code| && (code[q - 1].Goto? || code[q - 1].Return?) ensures code[q].Declare? {
      assert !Applies(Dead, code, q);
    }
  }

  /** Where an instruction of the original is in the cleaned code. */
  function Shifted(q: nat, pc: nat): nat {
    if pc <= q then pc else pc - 1
  }

  /** After a jump to a label that stood before a goto, the cleaned program is already at the goto's target. */
  predicate Ahead(pass: Pass, code: seq<Instr>, q: nat, pc: nat, pc': nat) {
    pass.Ineffectual? && q <= pc <= q + 1 && pc' == Shifted(q, Find(code, pass.l2))
  }

  ghost predicate Holds(store: Store, l: Label) {
    exists a :: Fetch(store, a) == Lab(l)
  }

  ghost predicate Related(pass: Pass, code: seq<Instr>, q: nat, t: FlatState, t': FlatState) {
    && Image(Values(pass), t, t')
    && (t'.pc == Shifted(q, t.pc) || Ahead(pass, code, q, t.pc, t'.pc))
    && (pass.Unused? ==> !Holds(t.store, pass.l))
    && (pass.Dead? ==> t.pc != q)
  }

  /** How many steps the original takes before the cleaned program has to move. */
  function Lag(pass: Pass, q: nat, t: FlatState, t': FlatState): nat {
    if t'.pc != Shifted(q, t.pc) then (if t.pc < q + 2 then q + 2 - t.pc else 0)
    else if t.pc == q && !pass.Dead? then 1
    else 0
  }

  lemma CleanedAt(pass: Pass, code: seq<Instr>, q: nat, pc: nat)
    requires q < |code| && pc < |code| && pc != q
    ensures Cleaned(pass, code, q)[Shifted(q, pc)] == RenameInstr(pass, code[pc])
  {
  }

  /** The declaration a jump to `l` arrives at, before and after. */
  lemma FindCleaned(pass: Pass, code: seq<Instr>, q: nat, l: Label)
    requires Applies(pass, code, q) && Find(code, l) < |code|
    requires pass.Unused? ==> l != pass.l
    requires pass.Duplicate? ==> l != pass.l1
    requires pass.Ineffectual? ==> l != pass.l1
    ensures Find(Cleaned(pass, code, q), Renaming(pass)(l)) == Shifted(q, Find(code, l))
  {
    hide UniqueLabels;
    hide FreshFor;
    hide Mentions;
    hide Cleaned;
    hide Find;
    var k, code' := Find(code, l), Cleaned(pass, code, q);
    assert code[k] == Declare(l);
    NotTheDeleted(pass, code, q, l);
    CleanedAt(pass, code, q, k);
    CleanedBound(pass, code, q);
    forall j | 0 <= j < Shifted(q, k) ensures code'[j] != Declare(Renaming(pass)(l)) {
      var i := if j < q then j else j + 1;
      CleanedAt(pass, code, q, i);
      RenamedApart(pass, code, q, k, l, i);
    }
    FindIs(code', Renaming(pass)(l), Shifted(q, k));
  }

  lemma NotTheDeleted(pass: Pass, code: seq<Instr>, q: nat, l: Label)
    requires Applies(pass, code, q) && Find(code, l) < |code|
    requires pass.Unused? ==> l != pass.l
    requires pass.Duplicate? ==> l != pass.l1
    requires pass.Ineffectual? ==> l != pass.l1
    ensures Find(code, l) != q
  {
    assert code[Find(code, l)] == Declare(l);
  }

  /** No other declaration is renamed to the same label. */
  lemma RenamedApart(pass: Pass, code: seq<Instr>, q: nat, k: nat, l: Label, i: nat)
    requires Applies(pass, code, q) && k < |code| && code[k] == Declare(l) && i < |code| && i != q && i != k && code[i] != Declare(l)
    requires pass.Duplicate? ==> l != pass.l1
    requires pass.Ineffectual? ==> l != pass.l1
    ensures RenameInstr(pass, code[i]) != Declare(Renaming(pass)(l))
  {
    if code[i].Declare? && (pass.Duplicate? || pass.Ineffectual?) {
      assert code[i] != code[q];
    }
  }

  /** A jump to the first of two merged labels. */
  lemma FindMerged(pass: Pass, code: seq<Instr>, q: nat)
    requires Applies(pass, code, q) && pass.Duplicate?
    ensures Find(Cleaned(pass, code, q), pass.m) == q == Find(code, pass.l1)
  {
    FindIs(code, pass.l2, q + 1);
    FindIs(code, pass.l1, q);
    FindCleaned(pass, code, q, pass.l2);
  }

  lemma EvalAvoids(e: Exp, shared: SharedVars, store: Store, l: Label)
    requires !Holds(store, l) && !MentionsInExp(e, l)
    ensures Eval(e, shared, store) != Some(Lab(l))
  {
  }

  lemma WriteAvoids(store: Store, a: Addr, v: Val, l: Label)
    requires !Holds(store, l) && v != Lab(l)
    ensures !Holds(store[a := v], l)
  {
    var s := store[a := v];
    forall b ensures Fetch(s, b) != Lab(l) {
      assert Fetch(store, b) != Lab(l);
    }
  }

  /** A label that nothing mentions stays out of memory. */
  lemma StepAvoids(code: seq<Instr>, env: Env, t: FlatState, l: Label)
    requires !Holds(t.store, l) && t.pc < |code| && !Mentions(code[t.pc], l) && FlatStep(code, env, t).Next?
    ensures !Holds(FlatStep(code, env, t).state.store, l)
  {
    hide Holds;
    hide Find;
    match code[t.pc]
    case Assign(d, e) =>
      EvalAvoids(e, t.shared, t.store, l);
      if !d.Shared? {
        WriteAvoids(t.store, AddrOf(t.store, d).value, Eval(e, t.shared, t.store).value, l);
      }
    case Inc(f) => WriteAvoids(t.store, CellAt(IndexOf(f)), Int((Fetch(t.store, CellAt(IndexOf(f))).n + 1) % UNSIGNED_RANGE), l);
    case Dec(f) => WriteAvoids(t.store, CellAt(IndexOf(f)), Int((Fetch(t.store, CellAt(IndexOf(f))).n - 1) % UNSIGNED_RANGE), l);
    case _ =>
  }

  /** While the cleaned program is ahead it waits. */
  lemma LagStep(pass: Pass, code: seq<Instr>, q: nat, env: Env, t: FlatState, t': FlatState)
    requires Applies(pass, code, q) && Related(pass, code, q, t, t') && Lag(pass, q, t, t') > 0
    requires FlatStep(code, env, t).Next?
    ensures Related(pass, code, q, FlatStep(code, env, t).state, t')
    ensures Lag(pass, q, FlatStep(code, env, t).state, t') < Lag(pass, q, t, t')
  {
    hide Image;
    hide Holds;
    var u := FlatStep(code, env, t).state;
    Elsewhere(Values(pass), t, t', u.pc, t'.pc);
  }

  /** Program counters do not matter to the image. */
  lemma Elsewhere(phi: Meaning, t: FlatState, t': FlatState, pc: nat, pc': nat)
    ensures Image(phi, t, t') ==> Image(phi, t.(pc := pc), t'.(pc := pc'))
  {
  }

  lemma JumpTogether(pass: Pass, code: seq<Instr>, q: nat, env: Env, t: FlatState, t': FlatState)
    requires Applies(pass, code, q) && Related(pass, code, q, t, t') && Lag(pass, q, t, t') == 0
    requires t.pc < |code| && t.pc != q && Jumps(code[t.pc]) && FlatStep(code, env, t).Next?
    requires t'.pc == Shifted(q, t.pc)
    ensures var u := FlatStep(Cleaned(pass, code, q), env, t');
            u.Next? && Related(pass, code, q, FlatStep(code, env, t).state, u.state)
  {
    hide Find;
    hide Image;
    hide Holds;
    hide Cleaned;
    hide FlatStep;
    hide UniqueLabels;
    hide FreshFor;
    hide Mentions;
    var code', l := Cleaned(pass, code, q), TargetOf(code[t.pc], t);
    CleanedAt(pass, code, q, t.pc);
    CleanedBound(pass, code, q);
    JumpShape(code, env, t);
    JumpImage(pass, code, code', env, t, t');
    if l.Some? {
      JumpTarget(pass, code, q, t, l.value);
      Elsewhere(Values(pass), t, t', Find(code, l.value), Find(code', Renaming(pass)(l.value)));
    } else {
      DeadBehindExit(pass, code, q, t.pc);
      Elsewhere(Values(pass), t, t', t.pc + 1, t'.pc + 1);
    }
  }

  lemma DeadBehindExit(pass: Pass, code: seq<Instr>, q: nat, pc: nat)
    requires Applies(pass, code, q) && pc < |code| && code[pc].Branch?
    ensures pass.Dead? ==> pc + 1 != q
  {
  }

  /** Corresponding jumps are taken together, to corresponding labels. */
  lemma JumpImage(pass: Pass, code: seq<Instr>, code': seq<Instr>, env: Env, t: FlatState, t': FlatState)
    requires Image(Values(pass), t, t') && t.pc < |code| && t'.pc < |code'| && Jumps(code[t.pc])
    requires code'[t'.pc] == RenameInstr(pass, code[t.pc]) && FlatStep(code, env, t).Next?
    ensures var l := TargetOf(code[t.pc], t);
            if l.None? then FlatStep(code', env, t') == Next(t'.(pc := t'.pc + 1))
            else FlatStep(code', env, t') == FlatJump(code', t', Renaming(pass)(l.value))
  {
    hide Find;
    hide StoreImage;
    var i := code[t.pc];
    EvalImage(Values(pass), if i.Goto? then i.dest else i.c, t.shared, t.store, t'.store);
  }

  /** The target of a jump, and the state each program reaches by it. */
  lemma JumpTarget(pass: Pass, code: seq<Instr>, q: nat, t: FlatState, l: Label)
    requires Applies(pass, code, q) && t.pc < |code| && Jumps(code[t.pc]) && TargetOf(code[t.pc], t) == Some(l)
    requires Find(code, l) < |code| && (pass.Unused? ==> !Holds(t.store, pass.l))
    ensures var k, k' := Find(code, l), Find(Cleaned(pass, code, q), Renaming(pass)(l));
            k' < |Cleaned(pass, code, q)| && (k' == Shifted(q, k) || Ahead(pass, code, q, k, k')) && (pass.Dead? ==> k != q)
  {
    hide Holds;
    hide Cleaned;
    var k := Find(code, l);
    assert code[k] == Declare(l);
    CleanedBound(pass, code, q);
    match pass
    case Duplicate(l1, l2, m) =>
      if l == l1 {
        FindMerged(pass, code, q);
      } else {
        FindCleaned(pass, code, q, l);
      }
    case Ineffectual(l1, l2, m) =>
      if l == l1 {
        FindIs(code, l1, q);
        FindCleaned(pass, code, q, l2);
      } else {
        FindCleaned(pass, code, q, l);
      }
    case Unused(l0) =>
      EvalAvoids(if code[t.pc].Goto? then code[t.pc].dest else code[t.pc].c, t.shared, t.store, l0);
      FindCleaned(pass, code, q, l);
    case Dead => FindCleaned(pass, code, q, l);
  }

  lemma CleanedBound(pass: Pass, code: seq<Instr>, q: nat)
    requires q < |code|
    ensures |Cleaned(pass, code, q)| == |code| - 1
    ensures pass.Ineffectual? && LabelBeforeGoto(code, q, pass.l1, pass.l2, pass.m) ==> Shifted(q, Find(code, pass.l2)) < |code| - 1
  {
  }

  lemma PlainTogether(pass: Pass, code: seq<Instr>, q: nat, env: Env, t: FlatState, t': FlatState)
    requires Applies(pass, code, q) && Related(pass, code, q, t, t') && Lag(pass, q, t, t') == 0
    requires t.pc < |code| && t.pc != q && !Jumps(code[t.pc]) && FlatStep(code, env, t).Next?
    requires t'.pc == Shifted(q, t.pc)
    ensures var u := FlatStep(Cleaned(pass, code, q), env, t');
            u.Next? && Related(pass, code, q, FlatStep(code, env, t).state, u.state)
  {
    hide Find;
    hide Image;
    hide Holds;
    hide Cleaned;
    var code' := Cleaned(pass, code, q);
    CleanedAt(pass, code, q, t.pc);
    CleanedBound(pass, code, q);
    if code[t.pc].Declare? {
      Elsewhere(Values(pass), t, t', t.pc + 1, t'.pc + 1);
    } else {
      StepImage(Values(pass), code, code', env, t, t');
    }
    if pass.Unused? {
      StepAvoids(code, env, t, pass.l);
    }
  }

  /** One step of the original is one step of the cleaned program, or none while it lags. */
  lemma StepTogether(pass: Pass, code: seq<Instr>, q: nat, env: Env, t: FlatState, t': FlatState)
    requires Applies(pass, code, q) && Related(pass, code, q, t, t')
    ensures var r, r' := FlatStep(code, env, t), FlatStep(Cleaned(pass, code, q), env, t');
            && (r.Halted? ==> Lag(pass, q, t, t') == 0 && r'.Halted?)
            && (r.Next? && Lag(pass, q, t, t') == 0 ==> r'.Next? && Related(pass, code, q, r.state, r'.state))
  {
    hide Image;
    hide Holds;
    hide Find;
    hide FlatStep;
    CleanedBound(pass, code, q);
    if t.pc < |code| && FlatStep(code, env, t).Next? && Lag(pass, q, t, t') == 0 {
      if Jumps(code[t.pc]) {
        JumpTogether(pass, code, q, env, t, t');
      } else {
        PlainTogether(pass, code, q, env, t, t');
      }
    }
    HaltsAtEnd(code, env, t);
    HaltsAtEnd(Cleaned(pass, code, q), env, t');
  }

  lemma HaltsAtEnd(code: seq<Instr>, env: Env, t: FlatState)
    ensures FlatStep(code, env, t).Halted? <==> t.pc >= |code|
  {
    hide Find;
  }

  /** Both programs have halted, or both are running in related states with the same observations. */
  ghost predicate Agree(pass: Pass, code: seq<Instr>, q: nat, r: Outcome<FlatState>, r': Outcome<FlatState>) {
    match r
    case Next(u) => r'.Next? && Related(pass, code, q, u, r'.state)
    case Halted => r'.Halted?
    case Stuck => false
  }

  /** Every defined run of the original is a run of the cleaned program with the same observations, at
      least a third as long. */
  lemma {:induction false} CleanedFollows(pass: Pass, code: seq<Instr>, q: nat, env: Env, t: FlatState, t': FlatState, n: nat)
    returns (k: nat)
    requires Applies(pass, code, q) && Related(pass, code, q, t, t') && !FlatRun(code, env, t, n).Stuck?
    ensures Agree(pass, code, q, FlatRun(code, env, t, n), FlatRun(Cleaned(pass, code, q), env, t', k))
    ensures k <= n <= 3 * k + Lag(pass, q, t, t')
    decreases n
  {
    hide FlatStep;
    hide Related;
    hide Cleaned;
    hide Lag;
    k := 0;
    if n > 0 {
      var r, lag := FlatStep(code, env, t), Lag(pass, q, t, t');
      StepTogether(pass, code, q, env, t, t');
      if r.Next? && lag > 0 {
        LagStep(pass, code, q, env, t, t');
        k := CleanedFollows(pass, code, q, env, r.state, t', n - 1);
      } else if r.Next? {
        var r' := FlatStep(Cleaned(pass, code, q), env, t');
        LagBound(pass, code, q, r.state, r'.state);
        k := CleanedFollows(pass, code, q, env, r.state, r'.state, n - 1);
        k := k + 1;
      } else {
        k := n;
      }
    }
  }

  lemma LagBound(pass: Pass, code: seq<Instr>, q: nat, t: FlatState, t': FlatState)
    requires Related(pass, code, q, t, t')
    ensures Lag(pass, q, t, t') <= 2
  {
    hide Image;
    hide Holds;
    hide Find;
  }

  /** The step of the original, one to three moves long, that the next step of the cleaned program copies. */
  lemma {:induction false} Catches(pass: Pass, code: seq<Instr>, q: nat, env: Env, t: FlatState, t': FlatState)
    returns (n: nat)
    requires Applies(pass, code, q) && Related(pass, code, q, t, t')
    ensures 1 <= n <= 1 + Lag(pass, q, t, t')
    ensures var r := FlatRun(code, env, t, n);
            r.Stuck? || Agree(pass, code, q, r, FlatStep(Cleaned(pass, code, q), env, t'))
    decreases Lag(pass, q, t, t')
  {
    hide FlatStep;
    hide Related;
    hide Cleaned;
    hide Lag;
    StepTogether(pass, code, q, env, t, t');
    var r := FlatStep(code, env, t);
    if r.Next? && Lag(pass, q, t, t') > 0 {
      LagStep(pass, code, q, env, t, t');
      n := Catches(pass, code, q, env, r.state, t');
      n := n + 1;
    } else {
      n := 1;
      RunOne(code, env, t);
    }
  }

  lemma RunOne(code: seq<Instr>, env: Env, t: FlatState)
    ensures FlatRun(code, env, t, 1) == FlatStep(code, env, t)
  {
    hide FlatStep;
    var r := FlatStep(code, env, t);
    if r.Next? {
      assert FlatRun(code, env, r.state, 0) == r;
    }
  }

  /** Conversely, every run of the cleaned program is a run of the original, unless that is undefined. */
  lemma {:induction false} OriginalFollows(pass: Pass, code: seq<Instr>, q: nat, env: Env, t: FlatState, t': FlatState, k: nat)
    returns (n: nat)
    requires Applies(pass, code, q) && Related(pass, code, q, t, t')
    ensures k <= n <= 3 * k
    ensures var r := FlatRun(code, env, t, n);
            r.Stuck? || Agree(pass, code, q, r, FlatRun(Cleaned(pass, code, q), env, t', k))
    decreases k
  {
    hide FlatStep;
    hide Related;
    hide Cleaned;
    hide Lag;
    n := 0;
    if k > 0 {
      var j := Catches(pass, code, q, env, t, t');
      LagBound(pass, code, q, t, t');
      var r, r' := FlatRun(code, env, t, j), FlatStep(Cleaned(pass, code, q), env, t');
      if r.Next? {
        n := OriginalFollows(pass, code, q, env, r.state, r'.state, k - 1);
        FlatRunSplit(code, env, t, j, n);
        n := n + j;
      } else {
        n := j + (k - 1);
        FlatRunSplit(code, env, t, j, k - 1);
      }
    }
  }

  /** A label before a goto to itself: the program loops, and its cleaned form has lost the label. */
  lemma {:induction false} SelfLoopRuns(code: seq<Instr>, q: nat, l: Label, m: Label, env: Env, t: FlatState, n: nat)
    requires LabelBeforeGoto(code, q, l, l, m) && q <= t.pc <= q + 1
    ensures FlatRun(code, env, t, n).Next?
    decreases n
  {
    if n > 0 {
      FindIs(code, l, q);
      SelfLoopRuns(code, q, l, m, env, FlatStep(code, env, t).state, n - 1);
    }
  }

  lemma SelfLoopLost(code: seq<Instr>, q: nat, l: Label, m: Label, env: Env, t: FlatState, k: nat)
    requires LabelBeforeGoto(code, q, l, l, m) && t.pc == q && k > 0
    ensures FlatRun(Cleaned(Ineffectual(l, l, m), code, q), env, t, k) == Stuck
  {
    var pass := Ineffectual(l, l, m);
    var code' := Cleaned(pass, code, q);
    CleanedAt(pass, code, q, q + 1);
    assert code'[q] == Goto(LabelOf(m));
    forall j | 0 <= j < |code'| ensures code'[j] != Declare(m) {
      var i := if j < q then j else j + 1;
      assert code'[j] == RenameInstr(pass, code[i]);
      assert i != q && code[i] != Declare(l);
      assert code[i] != Declare(m) || m == l;
    }
  }

  /** Every defined run from a label that stands before a goto has a counterpart that is not stuck. */
  ghost predicate LabelRemovalIsSafe(code: seq<Instr>, q: nat, l1: Label, l2: Label, m: Label)
    requires q < |code|
  {
    forall env: Env, t: FlatState, t': FlatState, n: nat ::
      t.pc == t'.pc == q && Image(Values(Ineffectual(l1, l2, m)), t, t') && !FlatRun(code, env, t, n).Stuck? ==>
        FollowedFrom(code, Cleaned(Ineffectual(l1, l2, m), code, q), env, t, t', n)
  }

  /** Some run of the second program has the outcome and the observations of the first's n steps. */
  ghost predicate FollowedFrom(code: seq<Instr>, code': seq<Instr>, env: Env, t: FlatState, t': FlatState, n: nat) {
    exists k: nat :: n <= 3 * k + 2 && SameSight(FlatRun(code, env, t, n), FlatRun(code', env, t', k))
  }

  predicate SameSight(r: Outcome<FlatState>, r': Outcome<FlatState>) {
    match r
    case Next(u) => r'.Next? && u.trace == r'.state.trace && u.shared == r'.state.shared
    case _ => r' == r
  }

  /** Removing the label keeps every run exactly when the goto is not to that label itself. */
  lemma LabelRemovalExactly(code: seq<Instr>, q: nat, l1: Label, l2: Label, m: Label)
    requires LabelBeforeGoto(code, q, l1, l2, m)
    ensures LabelRemovalIsSafe(code, q, l1, l2, m) <==> l1 != l2
  {
    hide FlatRun;
    hide Cleaned;
    hide StoreImage;
    hide Find;
    var pass := Ineffectual(l1, l2, m);
    if l1 != l2 {
      forall env: Env, t: FlatState, t': FlatState, n: nat
        | t.pc == t'.pc == q && Image(Values(pass), t, t') && !FlatRun(code, env, t, n).Stuck?
        ensures FollowedFrom(code, Cleaned(pass, code, q), env, t, t', n)
      {
        var k := CleanedFollows(pass, code, q, env, t, t', n);
        assert SameSight(FlatRun(code, env, t, n), FlatRun(Cleaned(pass, code, q), env, t', k));
      }
    } else {
      var env: Env, t := _ => map[], FlatState(q, map[], map[], []);
      EmptyImage(Values(pass), t);
      SelfLoopRuns(code, q, l1, m, env, t, 3);
      if LabelRemovalIsSafe(code, q, l1, l2, m) {
        assert FollowedFrom(code, Cleaned(pass, code, q), env, t, t, 3);
        var k: nat :| 3 <= 3 * k + 2 && SameSight(FlatRun(code, env, t, 3), FlatRun(Cleaned(pass, code, q), env, t, k));
        SelfLoopLost(code, q, l1, m, env, t, k);
      }
    }
  }

  lemma EmptyImage(phi: Meaning, t: FlatState)
    requires t.store == map[]
    ensures Image(phi, t, t)
  {
  }
}
