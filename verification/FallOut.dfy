/** The goto, label and duplicate-label policies that turn a state machine with gotos into a chain of
    guards, as rewrites of the thread's statement list.

    Each `...Hit` is one application of a step's pattern.  Every hit keeps the thread in the forms that
    implement its dispatch machine, so the passes may be stopped after any number of hits; and the
    alternation of comb and yield passes is shown to stop, and to reach a single goto exactly when the
    states come in few enough runs. */
module FallOut {
  import opened Prelude
  import opened StateMachine

  predicate Uncombable(s: Stmt) {
    s.Wait? || s.Goto? || s.Label?
  }

  function FirstGoto(p: seq<Stmt>): (i: nat)
    ensures i <= |p| && (i < |p| ==> p[i].Goto?) && forall j :: 0 <= j < i ==> !p[j].Goto?
  {
    if p == [] || p[0].Goto? then 0
    else
      var i := FirstGoto(p[1..]);
      assert forall j :: 0 < j < i + 1 ==> p[j] == p[1..][j - 1];
      i + 1
  }

  /** End of the run of combable statements that starts at i. */
  function CombEnd(p: seq<Stmt>, i: nat): (j: nat)
    requires i <= |p|
    ensures i <= j <= |p| && (j < |p| ==> Uncombable(p[j])) && forall l :: i <= l < j ==> !Uncombable(p[l])
    decreases |p| - i
  {
    if i == |p| || Uncombable(p[i]) then i else CombEnd(p, i + 1)
  }

  /** goto; L: body; goto  ->  L: if( state==S ){ body } goto, at the first goto, for a combable body. */
  function CombHit(p: seq<Stmt>): Option<seq<Stmt>> {
    var i := FirstGoto(p);
    if i + 1 >= |p| || !p[i + 1].Label? then None
    else
      var j := CombEnd(p, i + 2);
      if j < |p| && p[j].Goto?
      then Some(p[..i] + [p[i + 1], Guard(p[i + 1].of, p[i + 2..j]), Goto] + p[j + 1..])
      else None
  }

  /** The same for a body with one wait, which keeps a goto inside the guard. */
  function YieldHit(p: seq<Stmt>): Option<seq<Stmt>> {
    var i := FirstGoto(p);
    if i + 1 >= |p| || !p[i + 1].Label? then None
    else
      var w := CombEnd(p, i + 2);
      if w >= |p| || !p[w].Wait? then None
      else
        var j := CombEnd(p, w + 1);
        if j < |p| && p[j].Goto?
        then Some(p[..i] + [p[i + 1], Guard(p[i + 1].of, p[i + 2..j] + [Goto]), Goto] + p[j + 1..])
        else None
  }

  // ---------- termination ----------

  function GotoCount(p: seq<Stmt>): nat {
    if p == [] then 0 else (if p[0].Goto? then 1 else 0) + GotoCount(p[1..])
  }

  lemma {:induction false} GotoCountAppend(p: seq<Stmt>, q: seq<Stmt>)
    ensures GotoCount(p + q) == GotoCount(p) + GotoCount(q)
  {
    if p == [] {
      assert p + q == q;
    } else {
      assert (p + q)[1..] == p[1..] + q;
      GotoCountAppend(p[1..], q);
    }
  }

  lemma SpliceCount(p: seq<Stmt>, i: nat, j: nat, l: Stmt, g: Stmt)
    requires i + 1 < j < |p| && p[i].Goto? && p[j].Goto? && l.Label? && g.Guard?
    ensures GotoCount(p[..i] + [l, g, Goto] + p[j + 1..]) < GotoCount(p)
  {
    hide GotoCount;
    var head, mid, tail := p[..i], p[i + 1..j], p[j + 1..];
    assert p == head + ([Goto] + (mid + ([Goto] + tail)));
    GotoCountAppend(head, [Goto] + (mid + ([Goto] + tail)));
    GotoCountAppend([Goto], mid + ([Goto] + tail));
    GotoCountAppend(mid, [Goto] + tail);
    assert head + [l, g, Goto] + tail == head + ([l, g] + ([Goto] + tail));
    GotoCountAppend(head, [l, g] + ([Goto] + tail));
    GotoCountAppend([l, g], [Goto] + tail);
    SmallCounts(l, g);
  }

  lemma SmallCounts(l: Stmt, g: Stmt)
    requires l.Label? && g.Guard?
    ensures GotoCount([Goto]) == 1 && GotoCount([l, g]) == 0
  {
    assert [Goto][1..] == [];
    assert [l, g][1..] == [g] && [g][1..] == [];
  }

  lemma HitsRemoveGotos(p: seq<Stmt>)
    ensures CombHit(p).Some? ==> GotoCount(CombHit(p).value) < GotoCount(p)
    ensures YieldHit(p).Some? ==> GotoCount(YieldHit(p).value) < GotoCount(p)
  {
    hide GotoCount;
    var i := FirstGoto(p);
    if CombHit(p).Some? {
      var j := CombEnd(p, i + 2);
      SpliceCount(p, i, j, p[i + 1], Guard(p[i + 1].of, p[i + 2..j]));
    }
    if YieldHit(p).Some? {
      var w := CombEnd(p, i + 2);
      var j := CombEnd(p, w + 1);
      SpliceCount(p, i, j, p[i + 1], Guard(p[i + 1].of, p[i + 2..j] + [Goto]));
    }
  }

  /** A step is applied until it no longer matches. */
  function CombPass(p: seq<Stmt>): seq<Stmt>
    decreases GotoCount(p)
  {
    HitsRemoveGotos(p);
    if CombHit(p).Some? then CombPass(CombHit(p).value) else p
  }

  function YieldPass(p: seq<Stmt>): seq<Stmt>
    decreases GotoCount(p)
  {
    HitsRemoveGotos(p);
    if YieldHit(p).Some? then YieldPass(YieldHit(p).value) else p
  }

  function Rounds(p: seq<Stmt>, n: nat): seq<Stmt>
    decreases n
  {
    if n == 0 then p else Rounds(YieldPass(CombPass(p)), n - 1)
  }

  // ---------- the threads they are applied to ----------

  function Body(b: Blocks, k: nat): seq<Stmt> {
    if k in b then b[k] else []
  }

  function LabelOf(lm: LabelMap, k: nat): Stmt {
    Label(if k in lm then lm[k] else 0, k)
  }

  /** States in raw form, in textual order. */
  function Flat(b: Blocks, lm: LabelMap, ks: seq<nat>): seq<Stmt> {
    if ks == [] then [] else [LabelOf(lm, ks[0])] + Body(b, ks[0]) + [Goto] + Flat(b, lm, ks[1..])
  }

  /** Reset code, a run of labels and guards, the first goto, and the states still in raw form. */
  function Form(b: Blocks, lm: LabelMap, reset: seq<Stmt>, front: seq<Stmt>, ks: seq<nat>): seq<Stmt>
  {
    reset + front + [Goto] + Flat(b, lm, ks)
  }

  predicate Combable(body: seq<Stmt>) {
    forall i :: 0 <= i < |body| ==> body[i].Act?
  }

  /** Exactly one wait, as the passes leave it: code up to the next wait belongs to the next state. */
  predicate Yields(body: seq<Stmt>) {
    exists w :: 0 <= w < |body| && body[w].Wait? && forall i :: 0 <= i < |body| && i != w ==> body[i].Act?
  }

  predicate Fronted(s: seq<Stmt>) {
    forall i :: 0 <= i < |s| ==> s[i].Label? || s[i].Guard?
  }

  /** The guard that a state becomes. */
  function GuardOf(b: Blocks, k: nat): Stmt {
    Guard(k, if Combable(Body(b, k)) then Body(b, k) else Body(b, k) + [Goto])
  }

  function Pair(b: Blocks, lm: LabelMap, k: nat): seq<Stmt> {
    [LabelOf(lm, k), GuardOf(b, k)]
  }

  predicate StateOk(b: Blocks, lm: LabelMap, k: nat) {
    k in b && k in lm && (Combable(b[k]) || Yields(b[k]))
  }

  predicate StatesOk(b: Blocks, lm: LabelMap, ks: seq<nat>) {
    forall i :: 0 <= i < |ks| ==> StateOk(b, lm, ks[i])
  }

  predicate WfForm(b: Blocks, lm: LabelMap, reset: seq<Stmt>, front: seq<Stmt>, ks: seq<nat>) {
    Straight(reset) && Fronted(front) && StatesOk(b, lm, ks)
  }

  lemma FormSplit(b: Blocks, lm: LabelMap, reset: seq<Stmt>, front: seq<Stmt>, ks: seq<nat>)
    requires WfForm(b, lm, reset, front, ks) && ks != []
    ensures Form(b, lm, reset, front, ks) ==
              (reset + front) + [Goto, LabelOf(lm, ks[0])] + Body(b, ks[0]) + [Goto] + Flat(b, lm, ks[1..])
    ensures FirstGoto(Form(b, lm, reset, front, ks)) == |reset + front|
  {
    hide StateOk;
    hide LabelOf;
    hide Body;
    FormPieces(reset, front, LabelOf(lm, ks[0]), Body(b, ks[0]), Flat(b, lm, ks[1..]));
  }

  lemma FormPieces(reset: seq<Stmt>, front: seq<Stmt>, lab: Stmt, body: seq<Stmt>, rest: seq<Stmt>)
    requires Straight(reset) && Fronted(front)
    ensures var p := reset + front + [Goto] + ([lab] + body + [Goto] + rest);
            p == (reset + front) + [Goto, lab] + body + [Goto] + rest && FirstGoto(p) == |reset + front|
  {
    var p := reset + front + [Goto] + ([lab] + body + [Goto] + rest);
    assert forall i :: 0 <= i < |reset + front| ==> p[i] == (reset + front)[i] && !p[i].Goto?;
    assert p[|reset + front|].Goto?;
  }

  lemma CombEndIs(p: seq<Stmt>, i: nat, j: nat)
    requires i <= j < |p| && Uncombable(p[j]) && forall l :: i <= l < j ==> !Uncombable(p[l])
    ensures CombEnd(p, i) == j
  {
  }

  /** Where the patterns find the end of a raw state's body. */
  lemma BodyEnd(p: seq<Stmt>, i: nat, j: nat) returns (w: nat)
    requires i <= j < |p| && p[j].Goto? && (Combable(p[i..j]) || Yields(p[i..j]))
    ensures CombEnd(p, i) == w
    ensures if Combable(p[i..j]) then w == j else w < j && p[w].Wait? && CombEnd(p, w + 1) == j
  {
    var body := p[i..j];
    assert forall l :: i <= l < j ==> p[l] == body[l - i];
    if Combable(body) {
      w := j;
    } else {
      var u :| 0 <= u < |body| && body[u].Wait? && forall l :: 0 <= l < |body| && l != u ==> body[l].Act?;
      w := i + u;
      CombEndIs(p, w + 1, j);
    }
    CombEndIs(p, i, w);
  }

  /** What a hit does to a raw state, by the kind of its body. */
  lemma HitAt(p: seq<Stmt>, i: nat, j: nat)
    requires FirstGoto(p) == i && i + 2 <= j < |p| && p[i + 1].Label? && p[j].Goto?
    requires Combable(p[i + 2..j]) || Yields(p[i + 2..j])
    ensures CombHit(p) ==
              if Combable(p[i + 2..j])
              then Some(p[..i] + [p[i + 1], Guard(p[i + 1].of, p[i + 2..j]), Goto] + p[j + 1..]) else None
    ensures YieldHit(p) ==
              if Combable(p[i + 2..j]) then None
              else Some(p[..i] + [p[i + 1], Guard(p[i + 1].of, p[i + 2..j] + [Goto]), Goto] + p[j + 1..])
  {
    hide CombHit;
    hide YieldHit;
    hide Yields;
    hide Combable;
    hide FirstGoto;
    hide CombEnd;
    var w := BodyEnd(p, i + 2, j);
    CombAt(p, i, w);
    YieldAt(p, i, w);
  }

  lemma CombAt(p: seq<Stmt>, i: nat, j: nat)
    requires FirstGoto(p) == i && i + 2 <= |p| && p[i + 1].Label? && CombEnd(p, i + 2) == j
    ensures CombHit(p) ==
              if j < |p| && p[j].Goto?
              then Some(p[..i] + [p[i + 1], Guard(p[i + 1].of, p[i + 2..j]), Goto] + p[j + 1..]) else None
  {
  }

  lemma YieldAt(p: seq<Stmt>, i: nat, w: nat)
    requires FirstGoto(p) == i && i + 2 <= |p| && p[i + 1].Label? && CombEnd(p, i + 2) == w
    ensures YieldHit(p) ==
              if w < |p| && p[w].Wait? && CombEnd(p, w + 1) < |p| && p[CombEnd(p, w + 1)].Goto?
              then Some(p[..i] + [p[i + 1], Guard(p[i + 1].of, p[i + 2..CombEnd(p, w + 1)] + [Goto]), Goto] + p[CombEnd(p, w + 1) + 1..])
              else None
  {
  }

  lemma Pieces(p: seq<Stmt>, head: seq<Stmt>, lab: Stmt, body: seq<Stmt>, rest: seq<Stmt>)
    requires p == head + [Goto, lab] + body + [Goto] + rest
    ensures var i, j := |head|, |head| + 2 + |body|;
            && j < |p| && p[i + 1] == lab && p[j] == Goto
            && p[..i] == head && p[i + 2..j] == body && p[j + 1..] == rest
  {
  }

  lemma Regroup(reset: seq<Stmt>, front: seq<Stmt>, lab: Stmt, g: Stmt, rest: seq<Stmt>)
    ensures (reset + front) + [lab, g, Goto] + rest == reset + (front + [lab, g]) + [Goto] + rest
  {
  }

  lemma HitsOnForm(b: Blocks, lm: LabelMap, reset: seq<Stmt>, front: seq<Stmt>, ks: seq<nat>)
    requires WfForm(b, lm, reset, front, ks) && ks != []
    ensures var p, p' := Form(b, lm, reset, front, ks), Form(b, lm, reset, front + Pair(b, lm, ks[0]), ks[1..]);
            && CombHit(p) == (if Combable(Body(b, ks[0])) then Some(p') else None)
            && YieldHit(p) == (if Combable(Body(b, ks[0])) then None else Some(p'))
  {
    hide Flat;
    hide CombHit;
    hide YieldHit;
    hide Combable;
    hide Yields;
    hide FirstGoto;
    hide Form;
    hide WfForm;
    BodyKind(b, lm, reset, front, ks);
    var k, rest := ks[0], Flat(b, lm, ks[1..]);
    var p := Form(b, lm, reset, front, ks);
    FormSplit(b, lm, reset, front, ks);
    FormAfter(b, lm, reset, front, ks);
    Pieces(p, reset + front, LabelOf(lm, k), Body(b, k), rest);
    HitAt(p, |reset + front|, |reset + front| + 2 + |Body(b, k)|);
  }

  lemma BodyKind(b: Blocks, lm: LabelMap, reset: seq<Stmt>, front: seq<Stmt>, ks: seq<nat>)
    requires WfForm(b, lm, reset, front, ks) && ks != []
    ensures Combable(Body(b, ks[0])) || Yields(Body(b, ks[0]))
    ensures GuardOf(b, ks[0]) == Guard(ks[0], if Combable(Body(b, ks[0])) then Body(b, ks[0]) else Body(b, ks[0]) + [Goto])
    ensures LabelOf(lm, ks[0]).Label? && LabelOf(lm, ks[0]).of == ks[0]
  {
    hide Combable;
    hide Yields;
    assert StateOk(b, lm, ks[0]);
  }

  /** The form that a hit leads to. */
  lemma FormAfter(b: Blocks, lm: LabelMap, reset: seq<Stmt>, front: seq<Stmt>, ks: seq<nat>)
    requires ks != []
    ensures Form(b, lm, reset, front + Pair(b, lm, ks[0]), ks[1..]) ==
            (reset + front) + [LabelOf(lm, ks[0]), GuardOf(b, ks[0]), Goto] + Flat(b, lm, ks[1..])
  {
    hide Flat;
    hide Body;
    Regroup(reset, front, LabelOf(lm, ks[0]), GuardOf(b, ks[0]), Flat(b, lm, ks[1..]));
  }

  lemma NoHitOnForm(b: Blocks, lm: LabelMap, reset: seq<Stmt>, front: seq<Stmt>)
    requires Straight(reset) && Fronted(front)
    ensures CombHit(Form(b, lm, reset, front, [])) == YieldHit(Form(b, lm, reset, front, [])) == None
  {
    var p := Form(b, lm, reset, front, []);
    assert p == (reset + front) + [Goto];
    assert forall i :: 0 <= i < |reset + front| ==> p[i] == (reset + front)[i] && !p[i].Goto?;
  }

  // ---------- each hit keeps the thread's behaviour ----------

  /** Guards in front of the first goto, each state's label above its guard. */
  ghost predicate FrontOk(b: Blocks, lm: LabelMap, front: seq<Stmt>)
    decreases |front|
  {
    front == [] ||
    (FrontOk(b, lm, front[1..]) &&
     match front[0]
     case Guard(k, body) => WfGuard(b, k, body)
     case Label(id, _) => GuardLabel(b, lm, id, front[1..])
     case _ => false)
  }

  predicate Injective(b: Blocks, lm: LabelMap) {
    forall j, k :: j in b && k in b && j in lm && k in lm && lm[j] == lm[k] ==> j == k
  }

  ghost predicate Labelled(b: Blocks, lm: LabelMap, front: seq<Stmt>, ks: seq<nat>) {
    forall k :: k in b ==> k in lm && (k in ks || exists i :: 0 <= i < |front| && IsLabel(front[i], lm[k]))
  }

  /** A thread at some point of the goto policies. */
  ghost predicate Good(b: Blocks, lm: LabelMap, reset: seq<Stmt>, front: seq<Stmt>, ks: seq<nat>) {
    && WfBlocks(b) && Injective(b, lm) && WfForm(b, lm, reset, front, ks)
    && FrontOk(b, lm, front) && Labelled(b, lm, front, ks)
  }

  lemma {:induction false} ReachesAppend(s: seq<Stmt>, t: seq<Stmt>, k: nat)
    requires Reaches(s, k)
    ensures Reaches(s + t, k)
    decreases |s|
  {
    assert (s + t)[1..] == s[1..] + t;
    if !(s[0].Guard? && s[0].k == k) {
      ReachesAppend(s[1..], t, k);
    }
  }

  lemma {:induction false} FrontThenTail(b: Blocks, lm: LabelMap, front: seq<Stmt>, t: seq<Stmt>)
    requires FrontOk(b, lm, front) && Ok(b, lm, t) && Scan(t)
    ensures Ok(b, lm, front + t) && Scan(front + t)
    decreases |front|
  {
    if front == [] {
      assert front + t == t;
    } else {
      FrontThenTail(b, lm, front[1..], t);
      assert (front + t)[1..] == front[1..] + t;
      if front[0].Label? {
        forall k | k in b && LeadsTo(lm, front[0].id, k) ensures Reaches(front[1..] + t, k) {
          ReachesAppend(front[1..], t, k);
        }
      }
    }
  }

  lemma {:induction false} FlatOk(b: Blocks, lm: LabelMap, ks: seq<nat>)
    requires WfBlocks(b) && Injective(b, lm) && StatesOk(b, lm, ks)
    ensures Ok(b, lm, Flat(b, lm, ks)) && Ok(b, lm, [Goto] + Flat(b, lm, ks))
    decreases |ks|
  {
    if ks != [] {
      FlatOk(b, lm, ks[1..]);
      RawOk(b, lm, ks[0], Flat(b, lm, ks[1..]));
    }
    hide Flat;
    var s := Flat(b, lm, ks);
    assert ([Goto] + s)[1..] == s;
  }

  lemma RawOk(b: Blocks, lm: LabelMap, k: nat, rest: seq<Stmt>)
    requires Injective(b, lm) && k in b && k in lm && Ok(b, lm, [Goto] + rest)
    ensures Ok(b, lm, [LabelOf(lm, k)] + Body(b, k) + [Goto] + rest)
  {
    var s := [LabelOf(lm, k)] + b[k] + [Goto] + rest;
    assert s[1..] == b[k] + [Goto] + rest;
    assert b[k] + [Goto] <= s[1..];
    assert RawLabel(b, lm, lm[k], k, s[1..]);
    assert s[1 + |b[k]|..] == [Goto] + rest;
  }

  lemma {:induction false} FlatHasLabel(b: Blocks, lm: LabelMap, ks: seq<nat>, k: nat) returns (i: nat)
    requires k in ks && k in lm
    ensures i < |Flat(b, lm, ks)| && IsLabel(Flat(b, lm, ks)[i], lm[k])
    decreases |ks|
  {
    if ks[0] == k {
      i := 0;
    } else {
      i := FlatHasLabel(b, lm, ks[1..], k);
      i := i + 2 + |Body(b, ks[0])|;
    }
  }

  /** At every point of the goto policies the thread has a form that implements its dispatch machine. */
  lemma GoodIsThread(b: Blocks, lm: LabelMap, reset: seq<Stmt>, front: seq<Stmt>, ks: seq<nat>)
    requires Good(b, lm, reset, front, ks)
    ensures Thread(b, lm, Form(b, lm, reset, front, ks), |reset|)
  {
    hide Ok;
    hide FrontOk;
    hide Flat;
    hide WfBlocks;
    hide Injective;
    var p, tail := Form(b, lm, reset, front, ks), [Goto] + Flat(b, lm, ks);
    assert p[..|reset|] == reset;
    assert p[|reset|..] == front + tail;
    FlatOk(b, lm, ks);
    FrontThenTail(b, lm, front, tail);
    forall k | k in b ensures FindLabel(p, lm[k]) < |p| {
      if k in ks {
        var i := FlatHasLabel(b, lm, ks, k);
        assert p[|reset| + |front| + 1 + i] == Flat(b, lm, ks)[i];
      } else {
        var i :| 0 <= i < |front| && IsLabel(front[i], lm[k]);
        assert p[|reset| + i] == front[i];
      }
    }
  }

  lemma PairOk(b: Blocks, lm: LabelMap, k: nat)
    requires Injective(b, lm) && k in b && k in lm
    ensures FrontOk(b, lm, Pair(b, lm, k))
  {
    var pair, g := Pair(b, lm, k), GuardOf(b, k);
    assert [g][1..] == [] && [g][0] == g;
    assert FrontOk(b, lm, []) && WfGuard(b, g.k, g.body);
    assert FrontOk(b, lm, [g]);
    assert pair[1..] == [g];
    assert Reaches([g], k);
  }

  lemma {:induction false} FrontPush(b: Blocks, lm: LabelMap, front: seq<Stmt>, k: nat)
    requires Injective(b, lm) && FrontOk(b, lm, front) && k in b && k in lm
    ensures FrontOk(b, lm, front + Pair(b, lm, k))
    decreases |front|
  {
    var pair := Pair(b, lm, k);
    if front == [] {
      assert front + pair == pair;
      PairOk(b, lm, k);
    } else {
      FrontPush(b, lm, front[1..], k);
      assert (front + pair)[1..] == front[1..] + pair;
      if front[0].Label? {
        forall j | j in b && LeadsTo(lm, front[0].id, j) ensures Reaches(front[1..] + pair, j) {
          ReachesAppend(front[1..], pair, j);
        }
      }
    }
  }

  /** A hit of either policy leads from one such point to the next. */
  lemma HitKeepsGood(b: Blocks, lm: LabelMap, reset: seq<Stmt>, front: seq<Stmt>, ks: seq<nat>)
    requires Good(b, lm, reset, front, ks) && ks != []
    ensures Good(b, lm, reset, front + Pair(b, lm, ks[0]), ks[1..])
  {
    var front' := front + Pair(b, lm, ks[0]);
    FrontPush(b, lm, front, ks[0]);
    forall k | k in b ensures k in ks[1..] || exists i :: 0 <= i < |front'| && IsLabel(front'[i], lm[k]) {
      if k == ks[0] {
        assert IsLabel(front'[|front|], lm[k]);
      } else if k !in ks {
        var i :| 0 <= i < |front| && IsLabel(front[i], lm[k]);
        assert IsLabel(front'[i], lm[k]);
      }
    }
  }
}
