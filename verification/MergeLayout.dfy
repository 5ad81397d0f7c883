/** Where the merged code puts each statement, and where its labels are found. */
module MergeLayout {
  import opened Prelude
  import opened CallMachine
  import opened MergePasses

  // ---------- the programs that function merging accepts ----------

  predicate WfPlace(pl: Place) {
    pl.Shared? || (pl.Auto? && pl.x.User?)
  }

  predicate WfExp(e: Exp) {
    match e
    case Num(_) => true
    case Read(pl) => WfPlace(pl)
    case LabelOf(_) => false
    case Bin(_, a, b) => WfExp(a) && WfExp(b)
  }

  /** The call normal form: a call is a statement of its own, with a value per parameter. */
  predicate WfCall(p: Program, i: Instr)
    requires i.Call?
  {
    && 0 < i.f < |p.funcs|
    && |i.args| == |p.funcs[i.f].params|
    && (forall k :: 0 <= k < |i.args| ==> i.args[k].key == p.funcs[i.f].params[k] && WfExp(i.args[k].value))
    && (i.res.Some? ==> WfPlace(i.res.value))
  }

  predicate WfInstr(p: Program, f: Fn, i: Instr) {
    match i
    case Assign(d, e) => WfPlace(d) && WfExp(e)
    case Call(_, _, _, _) => WfCall(p, i)
    case Return(val) => f != 0 && (val.Some? ==> WfExp(val.value))
    case Declare(l) => l.Named?
    case Goto(e) => e.LabelOf? && e.l.Named?
    case Branch(c, l) => WfExp(c) && l.Named?
    case Wait => true
    case Inc(_) => false
    case Dec(_) => false
  }

  /** A function body ends in a return, which ExplicitiseReturn sees to. */
  predicate WfFunc(p: Program, f: Fn)
    requires f < |p.funcs|
  {
    var fn := p.funcs[f];
    && (forall k :: 0 <= k < |fn.params| ==> fn.params[k].User? && fn.params[k] !in fn.scopes)
    && (forall j, k :: 0 <= j < k < |fn.params| ==> fn.params[j] != fn.params[k])
    && Link !in fn.scopes
    && (forall x :: x in fn.scopes ==> fn.scopes[x].lo <= fn.scopes[x].hi <= |fn.body|)
    && (forall i :: 0 <= i < |fn.body| ==> WfInstr(p, f, fn.body[i]))
    && (f != 0 ==> fn.body != [] && fn.body[|fn.body| - 1].Return?)
  }

  /** The labels that a statement gives rise to. */
  function LabelsOf(i: Instr): set<Label> {
    match i
    case Declare(l) => {l}
    case Call(site, _, _, _) => {LinkAt(site)}
    case _ => {}
  }

  predicate IsStatement(p: Program, f: Fn, i: nat) {
    f < |p.funcs| && i < |p.funcs[f].body|
  }

  function Statement(p: Program, f: Fn, i: nat): Instr
    requires IsStatement(p, f, i)
  {
    p.funcs[f].body[i]
  }

  ghost predicate WfProgram(p: Program) {
    && p.funcs != []
    && p.funcs[0].params == []
    && (forall f :: 0 <= f < |p.funcs| ==> WfFunc(p, f))
    && (forall f, i, g, j, l | IsStatement(p, f, i) && IsStatement(p, g, j) &&
          l in LabelsOf(Statement(p, f, i)) && l in LabelsOf(Statement(p, g, j)) :: f == g && i == j)
  }

  // ---------- layout ----------

  function Base(p: Program, f: Fn): nat
    requires f <= |p.funcs|
  {
    |Blocks(p, f)|
  }

  function Pos(p: Program, f: Fn, i: nat): nat
    requires f < |p.funcs| && i <= |p.funcs[f].body|
  {
    Base(p, f) + |Prologue(p, f)| + |Pipeline(p, f, p.funcs[f].body[..i])|
  }

  lemma {:induction false} BlocksPrefix(p: Program, f: Fn, n: nat)
    requires f < n <= |p.funcs|
    ensures Blocks(p, f) + Block(p, f) <= Blocks(p, n)
    decreases n
  {
    hide Block;
    if f < n - 1 {
      BlocksPrefix(p, f, n - 1);
    }
  }

  lemma MergedPrefix(p: Program, f: Fn, i: nat)
    requires f < |p.funcs| && i <= |p.funcs[f].body|
    ensures Pos(p, f, i) <= |Merged(p)|
    ensures Merged(p)[..Pos(p, f, i)] == Blocks(p, f) + Prologue(p, f) + Pipeline(p, f, p.funcs[f].body[..i])
  {
    hide Pipeline;
    hide Prologue;
    hide Blocks;
    var body := p.funcs[f].body;
    BlocksPrefix(p, f, |p.funcs|);
    assert body == body[..i] + body[i..];
    PipelineAppend(p, f, body[..i], body[i..]);
    assert Blocks(p, f) + Block(p, f) ==
           Blocks(p, f) + Prologue(p, f) + Pipeline(p, f, body[..i]) + Pipeline(p, f, body[i..]);
  }

  lemma CodeAt(p: Program, f: Fn, i: nat)
    requires IsStatement(p, f, i)
    ensures Pos(p, f, i + 1) == Pos(p, f, i) + |Expansion(p, f, Statement(p, f, i))| <= |Merged(p)|
    ensures Merged(p)[Pos(p, f, i)..Pos(p, f, i + 1)] == Expansion(p, f, Statement(p, f, i))
  {
    hide Pipeline;
    hide Prologue;
    hide Blocks;
    hide Merged;
    var body := p.funcs[f].body;
    assert body[..i + 1] == body[..i] + [body[i]];
    PipelineAppend(p, f, body[..i], [body[i]]);
    MergedPrefix(p, f, i);
    MergedPrefix(p, f, i + 1);
    assert Merged(p)[..Pos(p, f, i + 1)] == Merged(p)[..Pos(p, f, i)] + Expansion(p, f, body[i]);
    assert Merged(p)[Pos(p, f, i)..Pos(p, f, i + 1)] == Merged(p)[..Pos(p, f, i + 1)][Pos(p, f, i)..];
  }

  lemma PrologueAt(p: Program, f: Fn)
    requires f < |p.funcs|
    ensures Pos(p, f, 0) == Base(p, f) + |Prologue(p, f)| <= |Merged(p)|
    ensures Merged(p)[Base(p, f)..Pos(p, f, 0)] == Prologue(p, f)
  {
    var body := p.funcs[f].body;
    assert body[..0] == [];
    MergedPrefix(p, f, 0);
    assert Merged(p)[Base(p, f)..Pos(p, f, 0)] == Merged(p)[..Pos(p, f, 0)][Base(p, f)..];
  }

  // ---------- labels ----------

  lemma ArgCodeLabels(p: Program, f: Fn, g: Fn, args: seq<Arg>, l: Label)
    requires f < |p.funcs|
    ensures Declare(l) !in ArgCode(p, f, g, args)
  {
  }

  lemma ParamCodeLabels(p: Program, f: Fn, params: seq<Local>, l: Label)
    requires f < |p.funcs|
    ensures Declare(l) !in ParamCode(p, f, params)
  {
  }

  lemma ExpansionLabels(p: Program, f: Fn, i: Instr, l: Label)
    requires f < |p.funcs|
    ensures Declare(l) in Expansion(p, f, i) ==> l in LabelsOf(i)
  {
    match i
    case Call(site, g, args, res) =>
      ExpandCall(p, f, site, g, args, res);
      ArgCodeLabels(p, f, g, args + [Arg(Link, LabelOf(LinkAt(site)))], l);
    case Return(val) => ExpandReturn(p, f, val);
    case _ => ExpandPlain(p, f, i);
  }

  lemma {:induction false} PipelineLabels(p: Program, f: Fn, s: seq<Instr>, l: Label)
    requires f < |p.funcs| && Declare(l) in Pipeline(p, f, s)
    ensures exists j :: 0 <= j < |s| && l in LabelsOf(s[j])
  {
    if s == [] {
      assert false;
    } else {
      assert s == s[..|s| - 1] + [s[|s| - 1]];
      PipelineAppend(p, f, s[..|s| - 1], [s[|s| - 1]]);
      if Declare(l) in Expansion(p, f, s[|s| - 1]) {
        ExpansionLabels(p, f, s[|s| - 1], l);
      } else {
        PipelineLabels(p, f, s[..|s| - 1], l);
      }
    }
  }

  lemma PrologueLabels(p: Program, f: Fn, l: Label)
    requires f < |p.funcs| && Declare(l) in Prologue(p, f)
    ensures f != 0 && l == Enter(f)
  {
    BackParams(p, f, p.funcs[f].params + [Link]);
    ParamCodeLabels(p, f, p.funcs[f].params + [Link], l);
  }

  /** Every label declared by the first n blocks belongs to one of those functions. */
  lemma {:induction false} BlocksLabels(p: Program, n: nat, l: Label) returns (f: Fn)
    requires n <= |p.funcs| && Declare(l) in Blocks(p, n)
    ensures f < n
    ensures (f != 0 && l == Enter(f)) || exists j :: IsStatement(p, f, j) && l in LabelsOf(Statement(p, f, j))
  {
    hide Prologue;
    hide Pipeline;
    f := n - 1;
    if Declare(l) in Blocks(p, n - 1) {
      f := BlocksLabels(p, n - 1, l);
    } else if Declare(l) in Prologue(p, n - 1) {
      PrologueLabels(p, n - 1, l);
    } else {
      PipelineLabels(p, n - 1, p.funcs[n - 1].body, l);
      var j :| 0 <= j < |p.funcs[f].body| && l in LabelsOf(p.funcs[f].body[j]);
      assert IsStatement(p, f, j) && l in LabelsOf(Statement(p, f, j));
    }
  }

  lemma NoEnterInSource(p: Program, f: Fn, i: nat, g: Fn)
    requires WfProgram(p) && IsStatement(p, f, i)
    ensures Enter(g) !in LabelsOf(Statement(p, f, i))
  {
    assert WfFunc(p, f) && WfInstr(p, f, p.funcs[f].body[i]);
  }

  lemma FindEnter(p: Program, f: Fn)
    requires WfProgram(p) && 0 < f < |p.funcs|
    ensures Find(Merged(p), Enter(f)) == Base(p, f) < |Merged(p)|
  {
    PrologueAt(p, f);
    assert Merged(p)[Base(p, f)..Pos(p, f, 0)][0] == Declare(Enter(f));
    MergedPrefix(p, f, 0);
    forall j | 0 <= j < Base(p, f)
      ensures Merged(p)[j] != Declare(Enter(f))
    {
      if Merged(p)[j] == Declare(Enter(f)) {
        assert Merged(p)[..Pos(p, f, 0)][j] == Blocks(p, f)[j];
        var g := BlocksLabels(p, f, Enter(f));
        forall k | IsStatement(p, g, k) ensures Enter(f) !in LabelsOf(Statement(p, g, k)) {
          NoEnterInSource(p, g, k, f);
        }
        assert false;
      }
    }
    FindIs(Merged(p), Enter(f), Base(p, f));
  }

  /** A label that statement i of f declares is found at the place of that statement. */
  lemma FindInBody(p: Program, f: Fn, i: nat, k: nat, l: Label)
    requires WfProgram(p) && IsStatement(p, f, i) && l in LabelsOf(Statement(p, f, i))
    requires k < |Expansion(p, f, Statement(p, f, i))| && Expansion(p, f, Statement(p, f, i))[k] == Declare(l)
    requires forall j :: 0 <= j < k ==> Expansion(p, f, Statement(p, f, i))[j] != Declare(l)
    ensures Find(Merged(p), l) == Pos(p, f, i) + k < |Merged(p)|
  {
    hide Pipeline;
    hide Prologue;
    hide Blocks;
    hide Merged;
    CodeAt(p, f, i);
    MergedPrefix(p, f, i);
    var body, q := p.funcs[f].body, Pos(p, f, i);
    var code, e := Merged(p), Expansion(p, f, body[i]);
    forall j | 0 <= j <= k ensures code[q + j] == e[j] {
      assert code[q..Pos(p, f, i + 1)][j] == code[q + j];
    }
    NotInBlocks(p, f, i, l);
    NotInPrologue(p, f, i, l);
    NotInPipeline(p, f, i, l);
    forall j | 0 <= j < q ensures code[j] != Declare(l) {
      assert code[j] == code[..q][j];
    }
    forall j | 0 <= j < q + k ensures code[j] != Declare(l) {
      if j >= q {
        assert code[q + (j - q)] == e[j - q];
      }
    }
    assert code[q + k] == e[k];
    FindIs(code, l, q + k);
  }

  lemma NotInBlocks(p: Program, f: Fn, i: nat, l: Label)
    requires WfProgram(p) && IsStatement(p, f, i) && l in LabelsOf(Statement(p, f, i))
    ensures Declare(l) !in Blocks(p, f)
  {
    hide Blocks;
    hide WfProgram;
    if Declare(l) in Blocks(p, f) {
      var g := BlocksLabels(p, f, l);
      NoEnterInSource(p, f, i, g);
      var j :| IsStatement(p, g, j) && l in LabelsOf(Statement(p, g, j));
      LabelsDiffer(p, f, i, g, j, l);
    }
  }

  lemma NotInPrologue(p: Program, f: Fn, i: nat, l: Label)
    requires WfProgram(p) && IsStatement(p, f, i) && l in LabelsOf(Statement(p, f, i))
    ensures Declare(l) !in Prologue(p, f)
  {
    hide Prologue;
    if Declare(l) in Prologue(p, f) {
      PrologueLabels(p, f, l);
      NoEnterInSource(p, f, i, f);
    }
  }

  lemma NotInPipeline(p: Program, f: Fn, i: nat, l: Label)
    requires WfProgram(p) && IsStatement(p, f, i) && l in LabelsOf(Statement(p, f, i))
    ensures Declare(l) !in Pipeline(p, f, p.funcs[f].body[..i])
  {
    hide Pipeline;
    hide WfProgram;
    var body := p.funcs[f].body;
    if Declare(l) in Pipeline(p, f, body[..i]) {
      PipelineLabels(p, f, body[..i], l);
      var j :| 0 <= j < i && l in LabelsOf(body[..i][j]);
      LabelsDiffer(p, f, i, f, j, l);
    }
  }

  lemma LabelsDiffer(p: Program, f: Fn, i: nat, g: Fn, j: nat, l: Label)
    requires WfProgram(p) && IsStatement(p, f, i) && IsStatement(p, g, j)
    requires l in LabelsOf(Statement(p, f, i)) && l in LabelsOf(Statement(p, g, j))
    ensures f == g && i == j
  {
  }
}
