/** Numbering the labels: the state enumeration and the lmap array.

    PlaceLabelsInArray adds labels to an enumeration and to lmap one at a time; LabelTypeToEnum then
    turns label variables into integers and applies lmap at gotos only. */
module LabelEnum {
  import opened Prelude
  import opened CallMachine
  import opened LabelValues

  /** The enumerators in order with their values, and the array initialiser. */
  datatype Table<L> = Table(enum: seq<(L, nat)>, lmap: seq<L>)

  /** A label that is not in lmap yet gets an enumerator whose value is the size of the enumeration, and a
      place at the end of lmap. */
  function Place<L(==)>(tab: Table<L>, l: L): Table<L> {
    if l in tab.lmap then tab else Table(tab.enum + [(l, |tab.enum|)], tab.lmap + [l])
  }

  /** The k-th enumerator has value k, and lmap[k] is its label; no label has two. */
  ghost predicate WfTable<L>(tab: Table<L>) {
    && |tab.enum| == |tab.lmap|
    && (forall k :: 0 <= k < |tab.enum| ==> tab.enum[k] == (tab.lmap[k], k))
    && (forall j, k :: 0 <= j < k < |tab.lmap| ==> tab.lmap[j] != tab.lmap[k])
  }

  /** Labels are placed in order of declaration. */
  function PlaceAll<L(==)>(tab: Table<L>, ls: seq<L>): Table<L>
    decreases |ls|
  {
    if ls == [] then tab else PlaceAll(Place(tab, ls[0]), ls[1..])
  }

  function TableOf<L(==)>(ls: seq<L>): Table<L> {
    PlaceAll(Table([], []), ls)
  }

  lemma PlaceKeepsTable<L>(tab: Table<L>, l: L)
    requires WfTable(tab)
    ensures WfTable(Place(tab, l)) && l in Place(tab, l).lmap && tab.lmap <= Place(tab, l).lmap
  {
    if l !in tab.lmap {
      assert (tab.lmap + [l])[|tab.lmap|] == l;
    }
  }

  /** Inserting labels one at a time keeps enumeration and lmap in step, and covers every label. */
  lemma {:induction false} PlaceAllIsTable<L>(tab: Table<L>, ls: seq<L>)
    requires WfTable(tab)
    ensures WfTable(PlaceAll(tab, ls)) && tab.lmap <= PlaceAll(tab, ls).lmap
    ensures forall l :: l in ls ==> l in PlaceAll(tab, ls).lmap
    decreases |ls|
  {
    hide WfTable;
    if ls != [] {
      PlaceKeepsTable(tab, ls[0]);
      var tab' := Place(tab, ls[0]);
      PlaceAllIsTable(tab', ls[1..]);
      var k :| 0 <= k < |tab'.lmap| && tab'.lmap[k] == ls[0];
      assert PlaceAll(tab, ls).lmap[k] == ls[0];
      forall l | l in ls ensures l in PlaceAll(tab, ls).lmap {
        if l != ls[0] {
          assert l in ls[1..];
        }
      }
    }
  }

  /** Labels that differ get their places in the order they come in. */
  lemma {:induction false} DistinctInOrder<L>(tab: Table<L>, ls: seq<L>)
    requires forall j, k :: 0 <= j < k < |tab.lmap + ls| ==> (tab.lmap + ls)[j] != (tab.lmap + ls)[k]
    ensures PlaceAll(tab, ls).lmap == tab.lmap + ls
    decreases |ls|
  {
    if ls != [] {
      var all := tab.lmap + ls;
      forall j | 0 <= j < |tab.lmap| ensures tab.lmap[j] != ls[0] {
        assert all[j] != all[|tab.lmap|];
      }
      assert Place(tab, ls[0]).lmap + ls[1..] == all;
      DistinctInOrder(Place(tab, ls[0]), ls[1..]);
    }
  }

  /** The labels that the code declares. */
  function Declared(code: seq<Instr>): (ls: seq<Label>)
    ensures forall i :: 0 <= i < |code| && code[i].Declare? ==> code[i].l in ls
  {
    if code == [] then [] else (if code[0].Declare? then [code[0].l] else []) + Declared(code[1..])
  }

  /** The value of a label's enumerator. */
  function IndexOfLabel<L(==)>(lmap: seq<L>, l: L): (k: nat)
    ensures k <= |lmap| && (k < |lmap| ==> lmap[k] == l) && (l in lmap <==> k < |lmap|)
  {
    if lmap == [] then 0 else if lmap[0] == l then 0 else IndexOfLabel(lmap[1..], l) + 1
  }

  function Numbering(lmap: seq<Label>): Meaning {
    l => Int(IndexOfLabel(lmap, l))
  }

  /** The program with every label value replaced by its enumerator. */
  function Enumerated(lmap: seq<Label>, code: seq<Instr>): seq<Instr> {
    seq(|code|, i requires 0 <= i < |code| => ReplaceInstr(Numbering(lmap), code[i]))
  }

  /** The machine in which a goto applies lmap to a number. */
  function EnumStep(lmap: seq<Label>, code: seq<Instr>, env: Env, t: FlatState): Outcome<FlatState> {
    if t.pc < |code| && code[t.pc].Goto? then
      var v := Eval(code[t.pc].dest, t.shared, t.store);
      if v.Some? && v.value.Int? && 0 <= v.value.n < |lmap| then FlatJump(code, t, lmap[v.value.n]) else Stuck
    else FlatStep(code, env, t)
  }

  function EnumRun(lmap: seq<Label>, code: seq<Instr>, env: Env, t: FlatState, k: nat): Outcome<FlatState>
    decreases k
  {
    if k == 0 then Next(t)
    else
      var r := EnumStep(lmap, code, env, t);
      if r.Next? then EnumRun(lmap, code, env, r.state, k - 1) else r
  }

  /** The numbered program keeps every declaration where it was. */
  lemma FindEnumerated(lmap: seq<Label>, code: seq<Instr>, l: Label)
    ensures Find(Enumerated(lmap, code), l) == Find(code, l)
  {
    var code', k := Enumerated(lmap, code), Find(code, l);
    assert forall i :: 0 <= i < |code| ==> (code'[i] == Declare(l) <==> code[i] == Declare(l));
    if k < |code| {
      FindIs(code', l, k);
    }
  }

  lemma EnumStepMatches(lmap: seq<Label>, code: seq<Instr>, env: Env, t: FlatState, t': FlatState)
    requires Image(Numbering(lmap), t, t') && t'.pc == t.pc && FlatStep(code, env, t).Next?
    requires forall i :: 0 <= i < |code| && code[i].Declare? ==> code[i].l in lmap
    ensures var u, u' := FlatStep(code, env, t).state, EnumStep(lmap, Enumerated(lmap, code), env, t');
            u'.Next? && u'.state.pc == u.pc && Image(Numbering(lmap), u, u'.state)
  {
    hide Find;
    hide StoreImage;
    var phi, code' := Numbering(lmap), Enumerated(lmap, code);
    var i := code[t.pc];
    if !Jumps(i) {
      StepImage(phi, code, code', env, t, t');
    } else {
      JumpShape(code, env, t);
      EvalImage(phi, if i.Goto? then i.dest else i.c, t.shared, t.store, t'.store);
      var l := TargetOf(i, t);
      if l.Some? {
        FindEnumerated(lmap, code, l.value);
        assert code[Find(code, l.value)] == Declare(l.value);
      }
    }
  }

  /** Numbering is a data refinement: whatever the program with labels in its variables does, the numbered
      program does in the same number of steps, at the same places, with each label value in memory
      replaced by the number that lmap turns back into it. */
  lemma {:induction false} NumberingPreservesRuns(code: seq<Instr>, env: Env, t: FlatState, t': FlatState, k: nat)
    requires Image(Numbering(TableOf(Declared(code)).lmap), t, t') && t'.pc == t.pc
    ensures var lmap := TableOf(Declared(code)).lmap;
            var r, r' := FlatRun(code, env, t, k), EnumRun(lmap, Enumerated(lmap, code), env, t', k);
            && (r.Next? ==> r'.Next? && r'.state.pc == r.state.pc && Image(Numbering(lmap), r.state, r'.state))
            && (r.Halted? ==> r'.Halted?)
    decreases k
  {
    hide FlatStep;
    hide EnumStep;
    hide StoreImage;
    var lmap := TableOf(Declared(code)).lmap;
    PlaceAllIsTable(Table([], []), Declared(code));
    EndsTogether(lmap, code, env, t, t');
    if k > 0 && FlatStep(code, env, t).Next? {
      EnumStepMatches(lmap, code, env, t, t');
      NumberingPreservesRuns(code, env, FlatStep(code, env, t).state, EnumStep(lmap, Enumerated(lmap, code), env, t').state, k - 1);
    }
  }

  lemma EndsTogether(lmap: seq<Label>, code: seq<Instr>, env: Env, t: FlatState, t': FlatState)
    requires t'.pc == t.pc
    ensures FlatStep(code, env, t).Halted? ==> EnumStep(lmap, Enumerated(lmap, code), env, t').Halted?
  {
    hide Find;
  }

  /** lmap undoes the numbering. */
  lemma NumberingIsInvertible(code: seq<Instr>, l: Label)
    requires Declare(l) in code
    ensures var tab := TableOf(Declared(code));
            var k := IndexOfLabel(tab.lmap, l);
            k < |tab.lmap| == |tab.enum| && tab.lmap[k] == l && tab.enum[k] == (l, k)
  {
    PlaceAllIsTable(Table([], []), Declared(code));
    var i :| 0 <= i < |code| && code[i] == Declare(l);
  }
}
