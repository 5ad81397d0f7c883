/** Replacing label values by other values, throughout a program and its memory.

    Labels may be stored in variables, so a pass that renames or numbers labels changes the contents of
    memory as well as the code.  `Image` relates two states of the flat machine under such a
    replacement, and every instruction that does not jump keeps the relation. */
module LabelValues {
  import opened Prelude
  import opened CallMachine

  /** What each label value becomes. */
  type Meaning = Label -> Val

  function Replaced(phi: Meaning, v: Val): Val {
    match v
    case Int(_) => v
    case Lab(l) => phi(l)
  }

  function ReplaceExp(phi: Meaning, e: Exp): Exp {
    match e
    case LabelOf(l) =>
      (match phi(l)
       case Int(n) => Num(n)
       case Lab(m) => LabelOf(m))
    case Bin(op, a, b) => Bin(op, ReplaceExp(phi, a), ReplaceExp(phi, b))
    case _ => e
  }

  /** Declarations and the targets of conditional jumps are names, not values, and are left alone. */
  function ReplaceInstr(phi: Meaning, i: Instr): Instr {
    match i
    case Assign(d, e) => Assign(d, ReplaceExp(phi, e))
    case Goto(e) => Goto(ReplaceExp(phi, e))
    case Branch(c, l) => Branch(ReplaceExp(phi, c), l)
    case _ => i
  }

  ghost predicate StoreImage(phi: Meaning, store: Store, store': Store) {
    forall a :: Fetch(store', a) == Replaced(phi, Fetch(store, a))
  }

  /** Two states that differ in label values and program counters only. */
  ghost predicate Image(phi: Meaning, t: FlatState, t': FlatState) {
    t'.shared == t.shared && t'.trace == t.trace && StoreImage(phi, t.store, t'.store)
  }

  lemma AddrImage(phi: Meaning, store: Store, store': Store, pl: Place)
    requires StoreImage(phi, store, store') && AddrOf(store, pl).Some?
    ensures AddrOf(store', pl) == AddrOf(store, pl)
  {
    match pl
    case StackTop(f, _) => assert Fetch(store', CellAt(IndexOf(f))) == Replaced(phi, Fetch(store, CellAt(IndexOf(f))));
    case _ =>
  }

  lemma EvalImage(phi: Meaning, e: Exp, shared: SharedVars, store: Store, store': Store)
    requires StoreImage(phi, store, store') && Eval(e, shared, store).Some?
    ensures Eval(ReplaceExp(phi, e), shared, store') == Some(Replaced(phi, Eval(e, shared, store).value))
  {
    match e
    case Read(Shared(_)) =>
    case Read(pl) => AddrImage(phi, store, store', pl);
    case Bin(_, a, b) =>
      EvalImage(phi, a, shared, store, store');
      EvalImage(phi, b, shared, store, store');
    case _ =>
  }

  lemma WriteImage(phi: Meaning, store: Store, store': Store, a: Addr, v: Val)
    requires StoreImage(phi, store, store')
    ensures StoreImage(phi, store[a := v], store'[a := Replaced(phi, v)])
  {
    var s, s' := store[a := v], store'[a := Replaced(phi, v)];
    forall b ensures Fetch(s', b) == Replaced(phi, Fetch(s, b)) {
      assert Fetch(store', b) == Replaced(phi, Fetch(store, b));
    }
  }

  predicate Jumps(i: Instr) {
    i.Goto? || i.Branch?
  }

  lemma BumpImage(phi: Meaning, t: FlatState, t': FlatState, f: Fn, delta: int)
    requires Image(phi, t, t') && FlatBump(t, f, delta).Next?
    ensures var u, u' := FlatBump(t, f, delta).state, FlatBump(t', f, delta);
            u'.Next? && u'.state.pc == t'.pc + 1 && Image(phi, u, u'.state)
  {
    var a := CellAt(IndexOf(f));
    assert Fetch(t'.store, a) == Replaced(phi, Fetch(t.store, a));
    WriteImage(phi, t.store, t'.store, a, Int((Fetch(t.store, a).n + delta) % UNSIGNED_RANGE));
  }

  /** An instruction that does not jump moves both machines on by one. */
  lemma StepImage(phi: Meaning, code: seq<Instr>, code': seq<Instr>, env: Env, t: FlatState, t': FlatState)
    requires Image(phi, t, t') && t.pc < |code| && t'.pc < |code'| && !Jumps(code[t.pc])
    requires code'[t'.pc] == ReplaceInstr(phi, code[t.pc])
    ensures FlatStep(code, env, t).Next? ==>
              var u, u' := FlatStep(code, env, t).state, FlatStep(code', env, t');
              u.pc == t.pc + 1 && u'.Next? && u'.state.pc == t'.pc + 1 && Image(phi, u, u'.state)
  {
    hide StoreImage;
    if FlatStep(code, env, t).Next? {
      match code[t.pc]
      case Assign(d, e) =>
        EvalImage(phi, e, t.shared, t.store, t'.store);
        if !d.Shared? {
          AddrImage(phi, t.store, t'.store, d);
          WriteImage(phi, t.store, t'.store, AddrOf(t.store, d).value, Eval(e, t.shared, t.store).value);
        }
      case Inc(f) => BumpImage(phi, t, t', f, 1);
      case Dec(f) => BumpImage(phi, t, t', f, -1);
      case Declare(_) =>
      case Wait =>
    }
  }

  /** Where a jump goes, if the instruction at the program counter takes one. */
  function TargetOf(i: Instr, t: FlatState): Option<Label> {
    match i
    case Goto(e) =>
      var v := Eval(e, t.shared, t.store);
      if v.Some? && v.value.Lab? then Some(v.value.l) else None
    case Branch(c, l) =>
      var v := Eval(c, t.shared, t.store);
      if v.Some? && v.value.Int? && v.value.n != 0 then Some(l) else None
    case _ => None
  }

  /** A jump either goes to its target or falls through, and changes nothing else. */
  lemma JumpShape(code: seq<Instr>, env: Env, t: FlatState)
    requires t.pc < |code| && Jumps(code[t.pc]) && FlatStep(code, env, t).Next?
    ensures var l := TargetOf(code[t.pc], t);
            if l.Some? then Find(code, l.value) < |code| && FlatStep(code, env, t) == Next(t.(pc := Find(code, l.value)))
            else code[t.pc].Branch? && FlatStep(code, env, t) == Next(t.(pc := t.pc + 1))
  {
  }
}
