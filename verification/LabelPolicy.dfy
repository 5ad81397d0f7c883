/** Closing the fall-through machine: the label policy and the merging of duplicate labels, which
    bring every state's label to one place above the guards. */
module LabelPolicy {
  import opened Prelude
  import opened StateMachine
  import opened FallOut
  import opened PolicyRounds

  /** One past the last label. */
  function LabelEnd(p: seq<Stmt>): (f: nat)
    ensures f <= |p| && (f > 0 ==> p[f - 1].Label?) && forall i :: f <= i < |p| ==> !p[i].Label?
  {
    if p == [] then 0
    else if p[|p| - 1].Label? then |p|
    else
      var f := LabelEnd(p[..|p| - 1]);
      assert forall i :: f <= i < |p| - 1 ==> p[i] == p[..|p| - 1][i];
      f
  }

  /** Start of the run of labels that ends at f. */
  function LabelStart(p: seq<Stmt>, f: nat): (e: nat)
    requires f <= |p|
    ensures e <= f && (e > 0 ==> !p[e - 1].Label?) && forall i :: e <= i < f ==> p[i].Label?
  {
    if f == 0 || !p[f - 1].Label? then f else LabelStart(p, f - 1)
  }

  /** L1: if( state==S1 ){..} L2: L3:  ->  L2: L3: L1: if( state==S1 ){..}, for the last labels. */
  function LabelHit(p: seq<Stmt>): Option<seq<Stmt>> {
    var f := LabelEnd(p);
    var e := LabelStart(p, f);
    if e == f || e < 2 || !p[e - 1].Guard? || !p[e - 2].Label? || p[e - 2].of != p[e - 1].k then None
    else Some(p[..e - 2] + p[e..f] + [p[e - 2], p[e - 1]] + p[f..])
  }

  /** The step, applied at most n times. */
  function LabelPass(p: seq<Stmt>, n: nat): seq<Stmt>
    decreases n
  {
    if n == 0 || LabelHit(p).None? then p else LabelPass(LabelHit(p).value, n - 1)
  }

  // ---------- what the label policy produces ----------

  function Labels(lm: LabelMap, ls: seq<nat>): seq<Stmt> {
    seq(|ls|, i requires 0 <= i < |ls| => LabelOf(lm, ls[i]))
  }

  function Guards(b: Blocks, gs: seq<nat>): seq<Stmt> {
    seq(|gs|, i requires 0 <= i < |gs| => GuardOf(b, gs[i]))
  }

  /** States still as label and guard, then the labels brought up so far, then their guards. */
  function Hoisted(b: Blocks, lm: LabelMap, js: seq<nat>, ls: seq<nat>, gs: seq<nat>): seq<Stmt> {
    Pairs(b, lm, js) + Labels(lm, ls) + Guards(b, gs)
  }

  function Closed1(b: Blocks, lm: LabelMap, reset: seq<Stmt>, js: seq<nat>, ls: seq<nat>, gs: seq<nat>): seq<Stmt> {
    reset + Hoisted(b, lm, js, ls, gs) + [Goto]
  }

  lemma LabelHitAt(p: seq<Stmt>, e: nat, f: nat)
    requires 2 <= e < f <= |p| && (forall i :: e <= i < f ==> p[i].Label?) && (forall i :: f <= i < |p| ==> !p[i].Label?)
    requires p[e - 1].Guard? && p[e - 2].Label? && p[e - 2].of == p[e - 1].k
    ensures LabelHit(p) == Some(p[..e - 2] + p[e..f] + [p[e - 2], p[e - 1]] + p[f..])
  {
    assert p[f - 1].Label?;
    assert LabelEnd(p) == f;
    assert LabelStart(p, f) == e;
  }

  lemma PairsSnoc(b: Blocks, lm: LabelMap, js: seq<nat>, j: nat)
    ensures Pairs(b, lm, js + [j]) == Pairs(b, lm, js) + [LabelOf(lm, j), GuardOf(b, j)]
  {
    PairsAppend(b, lm, js, [j]);
    assert Pairs(b, lm, [j]) == Pair(b, lm, j) + Pairs(b, lm, [j][1..]);
  }

  /** One hit brings the labels above one more guard. */
  lemma HoistHit(b: Blocks, lm: LabelMap, reset: seq<Stmt>, js: seq<nat>, j: nat, ls: seq<nat>, gs: seq<nat>)
    requires ls != []
    ensures LabelHit(Closed1(b, lm, reset, js + [j], ls, gs)) == Some(Closed1(b, lm, reset, js, ls + [j], [j] + gs))
  {
    hide LabelHit;
    hide Pairs;
    hide Labels;
    hide Guards;
    var ps := Pairs(b, lm, js);
    var l, g, labs, gds := LabelOf(lm, j), GuardOf(b, j), Labels(lm, ls), Guards(b, gs);
    var p := Closed1(b, lm, reset, js + [j], ls, gs);
    PairsSnoc(b, lm, js, j);
    HoistRegroup(reset, ps, l, g, labs, gds);
    LabelsAndGuards(b, lm, j, ls, gs);
    HoistPieces(p, reset + ps, l, g, labs, gds + [Goto]);
    LabelHitAt(p, |reset + ps| + 2, |reset + ps| + 2 + |labs|);
  }

  lemma LabelsAndGuards(b: Blocks, lm: LabelMap, j: nat, ls: seq<nat>, gs: seq<nat>)
    ensures Labels(lm, ls + [j]) == Labels(lm, ls) + [LabelOf(lm, j)]
    ensures Guards(b, [j] + gs) == [GuardOf(b, j)] + Guards(b, gs)
    ensures |Labels(lm, ls)| == |ls| && AllLabels(Labels(lm, ls)) && AllGuards(Guards(b, gs))
  {
  }

  lemma HoistRegroup(reset: seq<Stmt>, ps: seq<Stmt>, l: Stmt, g: Stmt, labs: seq<Stmt>, gds: seq<Stmt>)
    ensures reset + (ps + [l, g] + labs + gds) + [Goto] == (reset + ps) + [l, g] + labs + (gds + [Goto])
    ensures (reset + ps) + labs + [l, g] + (gds + [Goto]) == reset + (ps + (labs + [l]) + ([g] + gds)) + [Goto]
  {
  }

  lemma HoistPieces(p: seq<Stmt>, head: seq<Stmt>, l: Stmt, g: Stmt, labs: seq<Stmt>, tail: seq<Stmt>)
    requires p == head + [l, g] + labs + tail
    requires (forall i :: 0 <= i < |labs| ==> labs[i].Label?) && (forall i :: 0 <= i < |tail| ==> !tail[i].Label?)
    ensures var e, f := |head| + 2, |head| + 2 + |labs|;
            && f <= |p| && p[e - 2] == l && p[e - 1] == g && p[..e - 2] == head && p[e..f] == labs && p[f..] == tail
            && (forall i :: e <= i < f ==> p[i].Label?) && (forall i :: f <= i < |p| ==> !p[i].Label?)
  {
  }

  /** With every label at the top there is nothing left to do. */
  lemma NoLabelHit(b: Blocks, lm: LabelMap, reset: seq<Stmt>, ls: seq<nat>, gs: seq<nat>)
    requires Straight(reset)
    ensures LabelHit(Closed1(b, lm, reset, [], ls, gs)) == None
  {
    hide LabelHit;
    hide Labels;
    hide Guards;
    var labs, gds := Labels(lm, ls), Guards(b, gs);
    PairsEmpty(b, lm);
    LabelsAndGuards(b, lm, 0, ls, gs);
    assert reset + ([] + labs + gds) + [Goto] == reset + labs + (gds + [Goto]);
    NoHitAbove(reset, labs, gds + [Goto]);
  }

  lemma NoHitAbove(reset: seq<Stmt>, labs: seq<Stmt>, tail: seq<Stmt>)
    requires Straight(reset) && AllLabels(labs) && forall i :: 0 <= i < |tail| ==> !tail[i].Label?
    ensures LabelHit(reset + labs + tail) == None
  {
    var p, e, f := reset + labs + tail, |reset|, |reset| + |labs|;
    forall i | 0 <= i < |p| ensures p[i].Label? <==> e <= i < f {
      assert i < e ==> p[i] == reset[i];
    }
    var end := LabelEnd(p);
    if labs != [] {
      assert p[f - 1].Label?;
      assert end == f;
      if e > 0 {
        assert p[e - 1] == reset[e - 1];
      }
    }
  }

  function Reverse(ks: seq<nat>): seq<nat> {
    seq(|ks|, i requires 0 <= i < |ks| => ks[|ks| - 1 - i])
  }

  lemma {:induction false} HoistAll(b: Blocks, lm: LabelMap, reset: seq<Stmt>, js: seq<nat>, ls: seq<nat>, gs: seq<nat>)
    requires Straight(reset) && ls != []
    ensures LabelPass(Closed1(b, lm, reset, js, ls, gs), |js|) == Closed1(b, lm, reset, [], ls + Reverse(js), js + gs)
    decreases |js|
  {
    hide LabelHit;
    hide Closed1;
    if js == [] {
      assert ls + Reverse(js) == ls && js + gs == gs;
    } else {
      var n := |js| - 1;
      var js', j := js[..n], js[n];
      assert js == js' + [j];
      HoistHit(b, lm, reset, js', j, ls, gs);
      HoistAll(b, lm, reset, js', ls + [j], [j] + gs);
      assert ls + [j] + Reverse(js') == ls + Reverse(js);
      assert js' + ([j] + gs) == js + gs;
    }
  }

  lemma ReverseSnoc(ks: seq<nat>)
    requires ks != []
    ensures [ks[|ks| - 1]] + Reverse(ks[..|ks| - 1]) == Reverse(ks)
  {
  }

  /** The label policy turns the guard chain into labels, then guards, then the goto. */
  lemma LabelPolicyCloses(b: Blocks, lm: LabelMap, reset: seq<Stmt>, ks: seq<nat>)
    requires Straight(reset) && ks != []
    ensures var p := LabelPass(Form(b, lm, reset, Pairs(b, lm, ks), []), |ks| - 1);
            p == reset + Labels(lm, Reverse(ks)) + Guards(b, ks) + [Goto] && LabelHit(p) == None
  {
    hide LabelHit;
    hide LabelPass;
    hide Pairs;
    hide Form;
    hide Closed1;
    hide Labels;
    hide Guards;
    var n := |ks| - 1;
    var js, j := ks[..n], ks[n];
    FormIsClosed(b, lm, reset, ks);
    HoistAll(b, lm, reset, js, [j], [j]);
    ReverseSnoc(ks);
    NoLabelHit(b, lm, reset, Reverse(ks), ks);
    AllHoisted(b, lm, reset, Reverse(ks), ks);
  }

  /** Where the label policy starts. */
  lemma FormIsClosed(b: Blocks, lm: LabelMap, reset: seq<Stmt>, ks: seq<nat>)
    requires ks != []
    ensures var n := |ks| - 1;
            ks == ks[..n] + [ks[n]] &&
            Form(b, lm, reset, Pairs(b, lm, ks), []) == Closed1(b, lm, reset, ks[..n], [ks[n]], [ks[n]])
  {
    hide Pairs;
    hide GuardOf;
    hide LabelOf;
    var n := |ks| - 1;
    var js, j := ks[..n], ks[n];
    assert ks == js + [j];
    PairsSnoc(b, lm, js, j);
    assert Labels(lm, [j]) == [LabelOf(lm, j)] && Guards(b, [j]) == [GuardOf(b, j)];
    OneHoisted(reset, Pairs(b, lm, js), LabelOf(lm, j), GuardOf(b, j));
  }

  lemma OneHoisted(reset: seq<Stmt>, ps: seq<Stmt>, l: Stmt, g: Stmt)
    ensures reset + (ps + [l, g]) + [Goto] + [] == reset + (ps + [l] + [g]) + [Goto]
  {
  }

  /** And where it ends. */
  lemma AllHoisted(b: Blocks, lm: LabelMap, reset: seq<Stmt>, ls: seq<nat>, gs: seq<nat>)
    ensures Closed1(b, lm, reset, [], ls, gs) == reset + Labels(lm, ls) + Guards(b, gs) + [Goto]
  {
    hide Pairs;
    hide Labels;
    hide Guards;
    PairsEmpty(b, lm);
  }
  // ---------- each hit keeps the thread's behaviour ----------

  lemma {:induction false} GuardsReach(b: Blocks, gs: seq<nat>, k: nat)
    requires k in gs
    ensures Reaches(Guards(b, gs), k)
    decreases |gs|
  {
    assert Guards(b, gs)[1..] == Guards(b, gs[1..]);
    if gs[0] != k {
      GuardsReach(b, gs[1..], k);
    }
  }

  lemma {:induction false} LabelsReach(labs: seq<Stmt>, s: seq<Stmt>, k: nat)
    requires (forall i :: 0 <= i < |labs| ==> labs[i].Label?) && Reaches(s, k)
    ensures Reaches(labs + s, k)
    decreases |labs|
  {
    if labs == [] {
      assert labs + s == s;
    } else {
      LabelsReach(labs[1..], s, k);
      assert (labs + s)[1..] == labs[1..] + s;
    }
  }

  lemma {:induction false} GuardsOk(b: Blocks, lm: LabelMap, gs: seq<nat>)
    requires forall i :: 0 <= i < |gs| ==> gs[i] in b
    ensures FrontOk(b, lm, Guards(b, gs))
    decreases |gs|
  {
    if gs != [] {
      assert Guards(b, gs)[1..] == Guards(b, gs[1..]);
      GuardsOk(b, lm, gs[1..]);
    }
  }

  /** Labels above a chain of guards are in order when each state that uses one of them has its guard
      in the chain. */
  lemma {:induction false} LabelsOk(b: Blocks, lm: LabelMap, labs: seq<Stmt>, gs: seq<nat>)
    requires forall i :: 0 <= i < |gs| ==> gs[i] in b
    requires forall i :: 0 <= i < |labs| ==> labs[i].Label?
    requires forall i, k | 0 <= i < |labs| && k in b && LeadsTo(lm, labs[i].id, k) :: k in gs
    ensures FrontOk(b, lm, labs + Guards(b, gs))
    decreases |labs|
  {
    if labs == [] {
      assert labs + Guards(b, gs) == Guards(b, gs);
      GuardsOk(b, lm, gs);
    } else {
      LabelsOk(b, lm, labs[1..], gs);
      assert (labs + Guards(b, gs))[1..] == labs[1..] + Guards(b, gs);
      forall k | k in b && LeadsTo(lm, labs[0].id, k) ensures Reaches(labs[1..] + Guards(b, gs), k) {
        GuardsReach(b, gs, k);
        LabelsReach(labs[1..], Guards(b, gs), k);
      }
    }
  }

  lemma {:induction false} PairsThenOk(b: Blocks, lm: LabelMap, js: seq<nat>, s: seq<Stmt>)
    requires Injective(b, lm) && FrontOk(b, lm, s) && forall i :: 0 <= i < |js| ==> js[i] in b && js[i] in lm
    ensures FrontOk(b, lm, Pairs(b, lm, js) + s)
    decreases |js|
  {
    if js == [] {
      assert Pairs(b, lm, js) + s == s;
    } else {
      var l, g, rest := LabelOf(lm, js[0]), GuardOf(b, js[0]), Pairs(b, lm, js[1..]) + s;
      PairsThenOk(b, lm, js[1..], s);
      assert Pairs(b, lm, js) + s == [l, g] + rest;
      hide Pairs;
      assert ([g] + rest)[1..] == rest;
      assert FrontOk(b, lm, [g] + rest);
      assert ([l, g] + rest)[1..] == [g] + rest;
    }
  }

  /** A thread in the middle of the label policy. */
  lemma HoistedIsThread(b: Blocks, lm: LabelMap, reset: seq<Stmt>, js: seq<nat>, ls: seq<nat>, gs: seq<nat>)
    requires WfBlocks(b) && Injective(b, lm) && Straight(reset) && (forall k :: k in b ==> k in lm && (k in js || k in ls))
    requires (forall i :: 0 <= i < |js| ==> js[i] in b) && (forall i :: 0 <= i < |gs| ==> gs[i] in b)
    requires forall k :: k in ls ==> k in gs
    ensures Thread(b, lm, Closed1(b, lm, reset, js, ls, gs), |reset|)
  {
    hide FrontOk;
    hide Pairs;
    hide WfBlocks;
    hide Injective;
    hide Thread;
    var front, labs, gds := Hoisted(b, lm, js, ls, gs), Labels(lm, ls), Guards(b, gs);
    assert FrontOk(b, lm, front) by {
      HoistedOk(b, lm, js, ls, gs);
    }
    assert Fronted(front) by {
      PairsFronted(b, lm, js);
    }
    assert Labelled(b, lm, front, []) by {
      forall k | k in b ensures exists i :: 0 <= i < |front| && IsLabel(front[i], lm[k]) {
        var i := HoistedHasLabel(b, lm, js, ls, gs, k);
      }
    }
    GoodIsThread(b, lm, reset, front, []);
    assert Form(b, lm, reset, front, []) == Closed1(b, lm, reset, js, ls, gs);
  }

  lemma HoistedOk(b: Blocks, lm: LabelMap, js: seq<nat>, ls: seq<nat>, gs: seq<nat>)
    requires Injective(b, lm) && (forall k :: k in b ==> k in lm) && (forall k :: k in ls ==> k in gs)
    requires (forall i :: 0 <= i < |js| ==> js[i] in b) && (forall i :: 0 <= i < |gs| ==> gs[i] in b)
    ensures FrontOk(b, lm, Hoisted(b, lm, js, ls, gs))
  {
    hide FrontOk;
    hide Pairs;
    var labs, gds := Labels(lm, ls), Guards(b, gs);
    forall i, k | 0 <= i < |labs| && k in b && LeadsTo(lm, labs[i].id, k) ensures k in gs {
      assert ls[i] in ls;
    }
    LabelsOk(b, lm, labs, gs);
    PairsThenOk(b, lm, js, labs + gds);
    assert Hoisted(b, lm, js, ls, gs) == Pairs(b, lm, js) + (labs + gds);
  }

  lemma {:induction false} PairsHaveLabel(b: Blocks, lm: LabelMap, js: seq<nat>, k: nat) returns (i: nat)
    requires k in js && k in lm
    ensures i < |Pairs(b, lm, js)| && IsLabel(Pairs(b, lm, js)[i], lm[k])
    decreases |js|
  {
    if js[0] == k {
      i := 0;
    } else {
      i := PairsHaveLabel(b, lm, js[1..], k);
      i := i + 2;
    }
  }

  lemma HoistedHasLabel(b: Blocks, lm: LabelMap, js: seq<nat>, ls: seq<nat>, gs: seq<nat>, k: nat) returns (i: nat)
    requires k in lm && (k in js || k in ls)
    ensures i < |Hoisted(b, lm, js, ls, gs)| && IsLabel(Hoisted(b, lm, js, ls, gs)[i], lm[k])
  {
    hide Pairs;
    if k in js {
      i := PairsHaveLabel(b, lm, js, k);
    } else {
      var n :| 0 <= n < |ls| && ls[n] == k;
      i := |Pairs(b, lm, js)| + n;
      assert Hoisted(b, lm, js, ls, gs)[i] == Labels(lm, ls)[n];
    }
  }

  // ---------- merging duplicate labels ----------

  /** Index of the first of two labels in succession, or the length when there are none. */
  function FirstDouble(p: seq<Stmt>): (i: nat)
    ensures i <= |p|
    ensures i < |p| ==> i + 1 < |p| && p[i].Label? && p[i + 1].Label?
    ensures forall j :: 0 <= j < i && j + 1 < |p| ==> !(p[j].Label? && p[j + 1].Label?)
  {
    if |p| < 2 then |p|
    else if p[0].Label? && p[1].Label? then 0
    else
      var i := FirstDouble(p[1..]);
      assert forall j :: 0 < j < i + 1 && j + 1 < |p| ==> p[j] == p[1..][j - 1] && p[j + 1] == p[1..][j];
      i + 1
  }

  /** References to either label become references to the one that is kept. */
  function Redirect(lm: LabelMap, from: nat, to: nat): LabelMap {
    map k | k in lm :: if lm[k] == from then to else lm[k]
  }

  function MergeHit(p: seq<Stmt>, lm: LabelMap): Option<(seq<Stmt>, LabelMap)> {
    var i := FirstDouble(p);
    if i == |p| then None else Some((p[..i + 1] + p[i + 2..], Redirect(lm, p[i + 1].id, p[i].id)))
  }

  /** The step, applied at most n times. */
  function MergePass(p: seq<Stmt>, lm: LabelMap, n: nat): (seq<Stmt>, LabelMap)
    decreases n
  {
    if n == 0 || MergeHit(p, lm).None? then (p, lm)
    else MergePass(MergeHit(p, lm).value.0, MergeHit(p, lm).value.1, n - 1)
  }

  /** Labels at the top, guards, goto. */
  function Topped(reset: seq<Stmt>, labs: seq<Stmt>, gds: seq<Stmt>): seq<Stmt> {
    reset + labs + gds + [Goto]
  }

  predicate AllLabels(s: seq<Stmt>) {
    forall i :: 0 <= i < |s| ==> s[i].Label?
  }

  predicate AllGuards(s: seq<Stmt>) {
    forall i :: 0 <= i < |s| ==> s[i].Guard?
  }

  lemma FirstDoubleIs(p: seq<Stmt>, i: nat)
    requires i + 1 < |p| && p[i].Label? && p[i + 1].Label? && forall j :: 0 <= j < i ==> !p[j].Label?
    ensures FirstDouble(p) == i
  {
    var k := FirstDouble(p);
    assert k < |p| ==> p[k].Label?;
  }

  lemma MergeHitTopped(reset: seq<Stmt>, labs: seq<Stmt>, gds: seq<Stmt>, lm: LabelMap)
    requires Straight(reset) && AllLabels(labs) && AllGuards(gds) && labs != []
    ensures MergeHit(Topped(reset, labs, gds), lm) ==
              if |labs| == 1 then None
              else Some((Topped(reset, [labs[0]] + labs[2..], gds), Redirect(lm, labs[1].id, labs[0].id)))
  {
    var p, r, n := Topped(reset, labs, gds), |reset|, |labs|;
    assert forall i :: 0 <= i < r ==> p[i] == reset[i];
    assert forall i :: r <= i < r + n ==> p[i] == labs[i - r];
    assert forall i :: r + n <= i < |p| ==> p[i] == (gds + [Goto])[i - r - n];
    if n > 1 {
      assert p[r + 1] == labs[1];
      FirstDoubleIs(p, r);
      DropSecond(reset, labs, gds);
    } else {
      assert FirstDouble(p) == |p|;
    }
  }

  lemma DropSecond(reset: seq<Stmt>, labs: seq<Stmt>, gds: seq<Stmt>)
    requires |labs| > 1
    ensures var p, r := Topped(reset, labs, gds), |reset|;
            r + 2 <= |p| && p[..r + 1] + p[r + 2..] == Topped(reset, [labs[0]] + labs[2..], gds)
  {
  }

  /** Every state's label is one of these. */
  ghost predicate Covers(b: Blocks, lm: LabelMap, labs: seq<Stmt>) {
    forall k :: k in b ==> k in lm && exists i :: 0 <= i < |labs| && IsLabel(labs[i], lm[k])
  }

  /** Merging leaves a thread of the same dispatch machine, whatever the labels at the top are. */
  lemma ToppedIsThread(b: Blocks, lm: LabelMap, reset: seq<Stmt>, labs: seq<Stmt>, gs: seq<nat>)
    requires Straight(reset) && AllLabels(labs) && Covers(b, lm, labs)
    requires (forall i :: 0 <= i < |gs| ==> gs[i] in b) && (forall k :: k in b ==> k in gs)
    ensures Thread(b, lm, Topped(reset, labs, Guards(b, gs)), |reset|)
  {
    hide FrontOk;
    hide Ok;
    var p, front := Topped(reset, labs, Guards(b, gs)), labs + Guards(b, gs);
    LabelsOk(b, lm, labs, gs);
    assert [Goto][1..] == [];
    GotoOk(b, lm);
    FrontThenTail(b, lm, front, [Goto]);
    assert p[..|reset|] == reset;
    assert p[|reset|..] == front + [Goto];
    forall k | k in b ensures FindLabel(p, lm[k]) < |p| {
      var i :| 0 <= i < |labs| && IsLabel(labs[i], lm[k]);
      assert p[|reset| + i] == labs[i];
    }
  }

  lemma GotoOk(b: Blocks, lm: LabelMap)
    ensures Ok(b, lm, [Goto])
  {
    assert [Goto][1..] == [];
    assert Ok(b, lm, []);
  }

  lemma RedirectCovers(b: Blocks, lm: LabelMap, labs: seq<Stmt>)
    requires AllLabels(labs) && |labs| > 1 && Covers(b, lm, labs)
    ensures Covers(b, Redirect(lm, labs[1].id, labs[0].id), [labs[0]] + labs[2..])
  {
    var lm', labs' := Redirect(lm, labs[1].id, labs[0].id), [labs[0]] + labs[2..];
    forall k | k in b ensures k in lm' && exists i :: 0 <= i < |labs'| && IsLabel(labs'[i], lm'[k]) {
      var i :| 0 <= i < |labs| && IsLabel(labs[i], lm[k]);
      if lm[k] == labs[1].id || i == 0 {
        assert IsLabel(labs'[0], lm'[k]);
      } else {
        assert labs'[i - 1] == labs[i];
      }
    }
  }

  /** Merging to exhaustion leaves one label, which every entry of lmap then holds. */
  lemma {:induction false} MergeToOne(b: Blocks, lm: LabelMap, reset: seq<Stmt>, labs: seq<Stmt>, gs: seq<nat>)
    returns (lm': LabelMap)
    requires Straight(reset) && AllLabels(labs) && labs != [] && Covers(b, lm, labs)
    requires (forall i :: 0 <= i < |gs| ==> gs[i] in b) && (forall k :: k in b ==> k in gs)
    ensures MergePass(Topped(reset, labs, Guards(b, gs)), lm, |labs| - 1) == (Topped(reset, [labs[0]], Guards(b, gs)), lm')
    ensures forall k :: k in b ==> k in lm' && lm'[k] == labs[0].id
    ensures Thread(b, lm', Topped(reset, [labs[0]], Guards(b, gs)), |reset|)
    decreases |labs|
  {
    hide Topped;
    hide MergeHit;
    hide Thread;
    var gds := Guards(b, gs);
    MergeHitTopped(reset, labs, gds, lm);
    if |labs| == 1 {
      assert labs == [labs[0]];
      lm' := lm;
      ToppedIsThread(b, lm, reset, labs, gs);
    } else {
      RedirectCovers(b, lm, labs);
      lm' := MergeToOne(b, Redirect(lm, labs[1].id, labs[0].id), reset, [labs[0]] + labs[2..], gs);
    }
  }
}
