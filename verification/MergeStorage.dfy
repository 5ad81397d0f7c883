/** Which storage function merging gives each automatic variable: an array or a single cell. */
module MergeStorage {
  import opened Prelude
  import opened CallMachine
  import opened MergePasses
  import opened MergeLayout

  // ---------- the variables that code uses ----------

  function PlacesOf(e: Exp): set<Place> {
    match e
    case Read(pl) => {pl}
    case Bin(_, a, b) => PlacesOf(a) + PlacesOf(b)
    case _ => {}
  }

  function PlacesOfArgs(args: seq<Arg>): set<Place> {
    if args == [] then {} else PlacesOf(args[0].value) + PlacesOfArgs(args[1..])
  }

  function PlacesIn(i: Instr): set<Place> {
    match i
    case Assign(d, e) => {d} + PlacesOf(e)
    case Call(_, _, args, res) => PlacesOfArgs(args) + if res.Some? then {res.value} else {}
    case Return(val) => if val.Some? then PlacesOf(val.value) else {}
    case Goto(e) => PlacesOf(e)
    case Branch(c, _) => PlacesOf(c)
    case Inc(g) => {Module(IndexOf(g))}
    case Dec(g) => {Module(IndexOf(g))}
    case _ => {}
  }

  function Places(s: seq<Instr>): set<Place> {
    if s == [] then {} else PlacesIn(s[0]) + Places(s[1..])
  }

  lemma {:induction false} PlacesAppend(s: seq<Instr>, t: seq<Instr>)
    ensures Places(s + t) == Places(s) + Places(t)
  {
    hide PlacesIn;
    if s == [] {
      assert s + t == t;
    } else {
      assert (s + t)[1..] == s[1..] + t;
      PlacesAppend(s[1..], t);
    }
  }

  lemma PlacesOfOne(i: Instr)
    ensures Places([i]) == PlacesIn(i)
  {
    assert [i][1..] == [];
  }

  // ---------- where a variable can be ----------

  /** An array element or a cell that stands for automatic x of f. */
  predicate IsHome(pl: Place, f: Fn, x: Local) {
    pl == StackTop(f, x) || pl == Module(Moved(f, x)) || pl == Auto(x)
  }

  /** An expression of g uses the home of x where the original uses x, if g is the function of x. */
  lemma {:induction false} ExpHome(p: Program, g: Fn, e: Exp, f: Fn, x: Local, pl: Place)
    requires g < |p.funcs| && WfExp(e) && IsHome(pl, f, x)
    ensures pl in PlacesOf(ExpOf(p, g, e)) <==> g == f && pl == PlaceOf(p, g, Auto(x)) && Auto(x) in PlacesOf(e)
  {
    hide Stacked;
    if e.Bin? {
      ExpHome(p, g, e.a, f, x, pl);
      ExpHome(p, g, e.b, f, x, pl);
    }
  }

  lemma {:induction false} ArgsHome(p: Program, g: Fn, h: Fn, args: seq<Arg>, f: Fn, x: Local, pl: Place)
    requires g < |p.funcs| && IsHome(pl, f, x)
    requires forall k :: 0 <= k < |args| ==> WfExp(args[k].value)
    ensures pl in Places(ArgCode(p, g, h, args)) <==> g == f && pl == PlaceOf(p, g, Auto(x)) && Auto(x) in PlacesOfArgs(args)
    decreases |args|
  {
    hide PlaceOf;
    hide ExpOf;
    if args != [] {
      var first := Assign(Module(ParamOf(h, args[0].key)), ExpOf(p, g, args[0].value));
      ExpHome(p, g, args[0].value, f, x, pl);
      ArgsHome(p, g, h, args[1..], f, x, pl);
      PlacesAppend([first], ArgCode(p, g, h, args[1..]));
      PlacesOfOne(first);
    }
  }

  lemma {:induction false} ParamsHome(p: Program, g: Fn, params: seq<Local>, f: Fn, x: Local, pl: Place)
    requires g < |p.funcs| && IsHome(pl, f, x)
    ensures pl in Places(ParamCode(p, g, params)) <==> g == f && pl == PlaceOf(p, g, Auto(x)) && x in params
    decreases |params|
  {
    hide Stacked;
    if params != [] {
      var first := Assign(PlaceOf(p, g, Auto(params[0])), Read(Module(ParamOf(g, params[0]))));
      ParamsHome(p, g, params[1..], f, x, pl);
      PlacesAppend([first], ParamCode(p, g, params[1..]));
      PlacesOfOne(first);
      assert params == [params[0]] + params[1..];
    }
  }

  /** What a statement of the original uses; a return uses the link address as well. */
  predicate Needs(i: Instr, x: Local) {
    Auto(x) in PlacesIn(i) || (i.Return? && x == Link)
  }

  lemma ExpansionHome(p: Program, g: Fn, i: Instr, f: Fn, x: Local, pl: Place)
    requires g < |p.funcs| && WfInstr(p, g, i) && IsHome(pl, f, x)
    ensures pl in Places(Expansion(p, g, i)) <==> g == f && pl == PlaceOf(p, g, Auto(x)) && Needs(i, x)
  {
    hide Expansion;
    hide WfInstr;
    match i
    case Call(site, h, args, res) => CallHome(p, g, site, h, args, res, f, x, pl);
    case Return(val) => ReturnHome(p, g, val, f, x, pl);
    case _ =>
      ExpandPlain(p, g, i);
      PlacesOfOne(Subst(GenerateStacks, p, g, Subst(AutosToModule, p, g, i)));
      PlainHome(p, g, i, f, x, pl);
  }

  lemma PlainHome(p: Program, g: Fn, i: Instr, f: Fn, x: Local, pl: Place)
    requires g < |p.funcs| && WfInstr(p, g, i) && IsHome(pl, f, x) && !i.Call? && !i.Return?
    ensures pl in PlacesIn(Subst(GenerateStacks, p, g, Subst(AutosToModule, p, g, i))) <==>
            g == f && pl == PlaceOf(p, g, Auto(x)) && Auto(x) in PlacesIn(i)
  {
    hide Stacked;
    match i
    case Assign(_, e) => ExpHome(p, g, e, f, x, pl);
    case Branch(c, _) => ExpHome(p, g, c, f, x, pl);
    case _ =>
  }

  lemma ReturnHome(p: Program, g: Fn, val: Option<Exp>, f: Fn, x: Local, pl: Place)
    requires g < |p.funcs| && WfInstr(p, g, Return(val)) && IsHome(pl, f, x)
    ensures pl in Places(Expansion(p, g, Return(val))) <==>
            g == f && pl == PlaceOf(p, g, Auto(x)) && Needs(Return(val), x)
  {
    hide Expansion;
    hide Stacked;
    hide ExpOf;
    ExpandReturn(p, g, val);
    var a := if val.Some? then [Assign(Module(ReturnOf(g)), ExpOf(p, g, val.value))] else [];
    var b := [Assign(Module(TempLink(g)), Read(PlaceOf(p, g, Auto(Link))))];
    var c := if HasStack(p, g) then [Dec(g)] else [];
    var d := [Goto(Read(Module(TempLink(g))))];
    PlacesOfFour(a, b, c, d);
    hide Places;
    hide PlaceOf;
    if val.Some? {
      PlacesOfOne(a[0]);
      ExpHome(p, g, val.value, f, x, pl);
    } else {
      PlacesOfNone();
    }
    PlacesOfOne(b[0]);
    if HasStack(p, g) {
      PlacesOfOne(c[0]);
    } else {
      PlacesOfNone();
    }
    PlacesOfOne(d[0]);
    LinkHome(p, g, f, x, pl);
  }

  lemma PlacesOfNone()
    ensures Places([]) == {}
  {
  }

  lemma PlacesOfFour(a: seq<Instr>, b: seq<Instr>, c: seq<Instr>, d: seq<Instr>)
    ensures Places(a + b + c + d) == Places(a) + Places(b) + Places(c) + Places(d)
  {
    PlacesAppend(a + b + c, d);
    PlacesAppend(a + b, c);
    PlacesAppend(a, b);
  }

  /** Different variables have different homes. */
  lemma LinkHome(p: Program, g: Fn, f: Fn, x: Local, pl: Place)
    requires g < |p.funcs| && IsHome(pl, f, x)
    ensures pl == PlaceOf(p, g, Auto(Link)) <==> g == f && pl == PlaceOf(p, g, Auto(x)) && x == Link
  {
    hide Stacked;
  }

  lemma {:induction false} PlacesOfArgsAppend(a: seq<Arg>, b: seq<Arg>)
    ensures PlacesOfArgs(a + b) == PlacesOfArgs(a) + PlacesOfArgs(b)
  {
    if a == [] {
      assert a + b == b;
    } else {
      assert (a + b)[1..] == a[1..] + b;
      PlacesOfArgsAppend(a[1..], b);
    }
  }

  lemma CallHome(p: Program, g: Fn, site: Site, h: Fn, args: seq<Arg>, res: Option<Place>, f: Fn, x: Local, pl: Place)
    requires g < |p.funcs| && WfInstr(p, g, Call(site, h, args, res)) && IsHome(pl, f, x)
    ensures pl in Places(Expansion(p, g, Call(site, h, args, res))) <==>
            g == f && pl == PlaceOf(p, g, Auto(x)) && Auto(x) in PlacesIn(Call(site, h, args, res))
  {
    hide Expansion;
    hide Stacked;
    hide ArgCode;
    ExpandCall(p, g, site, h, args, res);
    var link := Arg(Link, LabelOf(LinkAt(site)));
    var a := ArgCode(p, g, h, args + [link]);
    var b := [Goto(LabelOf(Enter(h))), Declare(LinkAt(site))];
    var c := if res.Some? then [Assign(PlaceOf(p, g, res.value), Read(Module(ReturnOf(h))))] else [];
    PlacesAppend(a + b, c);
    PlacesAppend(a, b);
    LinkArgs(p, g, h, args, link, f, x, pl);
    assert b[1..] == [b[1]] && Places(b) == PlacesIn(b[0]) + Places(b[1..]);
    PlacesOfOne(b[1]);
    if res.Some? {
      PlacesOfOne(c[0]);
    }
  }

  /** The link address is a label, so passing it uses no variable. */
  lemma LinkArgs(p: Program, g: Fn, h: Fn, args: seq<Arg>, link: Arg, f: Fn, x: Local, pl: Place)
    requires g < |p.funcs| && IsHome(pl, f, x) && link.value.LabelOf?
    requires forall k :: 0 <= k < |args| ==> WfExp(args[k].value)
    ensures pl in Places(ArgCode(p, g, h, args + [link])) <==> g == f && pl == PlaceOf(p, g, Auto(x)) && Auto(x) in PlacesOfArgs(args)
  {
    hide PlaceOf;
    BackArgs(p, g, h, args + [link]);
    BackArgs(p, g, h, args);
    BackArgs(p, g, h, [link]);
    PassArgsAppend(h, args, [link]);
    BackAppend(p, g, PassArgs(h, args), PassArgs(h, [link]));
    PlacesAppend(ArgCode(p, g, h, args), ArgCode(p, g, h, [link]));
    ArgsHome(p, g, h, args, f, x, pl);
    var last := Assign(Module(ParamOf(h, link.key)), link.value);
    assert [link][1..] == [] && ArgCode(p, g, h, [link]) == [last];
    PlacesOfOne(last);
  }

  lemma {:induction false} PassArgsAppend(h: Fn, a: seq<Arg>, b: seq<Arg>)
    ensures PassArgs(h, a + b) == PassArgs(h, a) + PassArgs(h, b)
  {
    if a == [] {
      assert a + b == b;
    } else {
      assert (a + b)[1..] == a[1..] + b;
      PassArgsAppend(h, a[1..], b);
    }
  }

  // ---------- the whole thread ----------

  lemma {:induction false} PipelineHome(p: Program, g: Fn, s: seq<Instr>, f: Fn, x: Local, pl: Place)
    requires g < |p.funcs| && IsHome(pl, f, x) && forall i :: 0 <= i < |s| ==> WfInstr(p, g, s[i])
    ensures pl in Places(Pipeline(p, g, s)) <==>
            g == f && pl == PlaceOf(p, g, Auto(x)) && exists i :: 0 <= i < |s| && Needs(s[i], x)
    decreases |s|
  {
    hide Pipeline;
    hide PlaceOf;
    hide Needs;
    hide WfInstr;
    if s == [] {
      NoPipeline(p, g);
    } else {
      var n := |s| - 1;
      assert s == s[..n] + [s[n]];
      PipelineAppend(p, g, s[..n], [s[n]]);
      PlacesAppend(Pipeline(p, g, s[..n]), Expansion(p, g, s[n]));
      PipelineHome(p, g, s[..n], f, x, pl);
      ExpansionHome(p, g, s[n], f, x, pl);
    }
  }

  lemma NoPipeline(p: Program, g: Fn)
    requires g < |p.funcs|
    ensures Places(Pipeline(p, g, [])) == {}
  {
  }

  /** Function f has a variable x: a parameter, the link address, or one that a statement uses. */
  ghost predicate Uses(p: Program, f: Fn, x: Local)
    requires f < |p.funcs|
  {
    || (f != 0 && x in p.funcs[f].params + [Link])
    || exists i :: 0 <= i < |p.funcs[f].body| && Auto(x) in PlacesIn(p.funcs[f].body[i])
  }

  lemma PrologueHome(p: Program, g: Fn, f: Fn, x: Local, pl: Place)
    requires g < |p.funcs| && IsHome(pl, f, x)
    ensures pl in Places(Prologue(p, g)) <==> g == f && f != 0 && pl == PlaceOf(p, g, Auto(x)) && x in p.funcs[g].params + [Link]
  {
    hide PlaceOf;
    hide HasStack;
    if g != 0 {
      var params := p.funcs[g].params + [Link];
      BackParams(p, g, params);
      ParamsHome(p, g, params, f, x, pl);
      var a, b := [Declare(Enter(g))], if HasStack(p, g) then [Inc(g)] else [];
      PlacesAppend(a + b, ParamCode(p, g, params));
      PlacesAppend(a, b);
      PlacesOfOne(a[0]);
      if HasStack(p, g) {
        PlacesOfOne(b[0]);
      }
    }
  }

  lemma BlockHome(p: Program, g: Fn, f: Fn, x: Local, pl: Place)
    requires WfProgram(p) && g < |p.funcs| && IsHome(pl, f, x)
    ensures pl in Places(Block(p, g)) <==> g == f && pl == PlaceOf(p, g, Auto(x)) && Uses(p, g, x)
  {
    hide PlaceOf;
    hide Prologue;
    hide Pipeline;
    hide PlacesIn;
    assert WfFunc(p, g);
    PrologueHome(p, g, f, x, pl);
    PipelineHome(p, g, p.funcs[g].body, f, x, pl);
    PlacesAppend(Prologue(p, g), Pipeline(p, g, p.funcs[g].body));
    ThreadHasNoReturn(p, g);
  }

  lemma ThreadHasNoReturn(p: Program, g: Fn)
    requires WfProgram(p) && g < |p.funcs|
    ensures forall i :: 0 <= i < |p.funcs[g].body| && p.funcs[g].body[i].Return? ==> g != 0
  {
    assert WfFunc(p, g);
    forall i | 0 <= i < |p.funcs[g].body| && p.funcs[g].body[i].Return? ensures g != 0 {
      assert WfInstr(p, g, p.funcs[g].body[i]);
    }
  }

  lemma {:induction false} BlocksHome(p: Program, n: nat, f: Fn, x: Local, pl: Place)
    requires WfProgram(p) && n <= |p.funcs| && f < |p.funcs| && IsHome(pl, f, x)
    ensures pl in Places(Blocks(p, n)) <==> f < n && pl == PlaceOf(p, f, Auto(x)) && Uses(p, f, x)
    decreases n
  {
    hide WfProgram;
    hide PlaceOf;
    hide Block;
    hide Uses;
    if n > 0 {
      BlocksHome(p, n - 1, f, x, pl);
      BlockHome(p, n - 1, f, x, pl);
      PlacesAppend(Blocks(p, n - 1), Block(p, n - 1));
    }
  }

  /** A call among the statements lo..hi-1 of a function. */
  ghost predicate CallBetween(fn: Func, lo: nat, hi: nat) {
    exists i :: lo <= i < hi && i < |fn.body| && fn.body[i].Call?
  }

  lemma StackedIs(p: Program, f: Fn, x: Local, lo: nat, hi: nat)
    requires WfProgram(p) && f < |p.funcs|
    requires if x in p.funcs[f].scopes then p.funcs[f].scopes[x] == Scope(lo, hi) else lo == 0 && hi == |p.funcs[f].body|
    ensures PlaceOf(p, f, Auto(x)) == if f != 0 && CallBetween(p.funcs[f], lo, hi) then StackTop(f, x) else Module(Moved(f, x))
  {
    var fn := p.funcs[f];
    assert WfFunc(p, f);
    assert lo <= hi <= |fn.body|;
    var extent := fn.body[lo..hi];
    if CallBetween(fn, lo, hi) {
      var i :| lo <= i < hi && i < |fn.body| && fn.body[i].Call?;
      assert extent[i - lo].Call?;
    }
  }

  /** A variable of a function that is declared in a compound with a call is an element of an array
      everywhere; one that is declared in a compound without a call is a single cell everywhere. */
  lemma WhereLocalsLive(p: Program, f: Fn, x: Local, lo: nat, hi: nat)
    requires WfProgram(p) && 0 < f < |p.funcs|
    requires if x in p.funcs[f].scopes then p.funcs[f].scopes[x] == Scope(lo, hi) else lo == 0 && hi == |p.funcs[f].body|
    ensures StackTop(f, x) in Places(Merged(p)) <==> Uses(p, f, x) && CallBetween(p.funcs[f], lo, hi)
    ensures Module(Moved(f, x)) in Places(Merged(p)) <==> Uses(p, f, x) && !CallBetween(p.funcs[f], lo, hi)
    ensures Auto(x) !in Places(Merged(p))
  {
    hide WfProgram;
    hide PlaceOf;
    hide Uses;
    hide CallBetween;
    StackedIs(p, f, x, lo, hi);
    BlocksHome(p, |p.funcs|, f, x, StackTop(f, x));
    BlocksHome(p, |p.funcs|, f, x, Module(Moved(f, x)));
    BlocksHome(p, |p.funcs|, f, x, Auto(x));
  }

  /** A variable of the thread, which has one activation, is a single cell. */
  lemma WhereThreadLocalsLive(p: Program, x: Local)
    requires WfProgram(p)
    ensures StackTop(0, x) !in Places(Merged(p))
    ensures Module(Moved(0, x)) in Places(Merged(p)) <==> Uses(p, 0, x)
  {
    hide Uses;
    hide CallBetween;
    var fn := p.funcs[0];
    assert WfFunc(p, 0);
    var sc := if x in fn.scopes then fn.scopes[x] else Scope(0, |fn.body|);
    StackedIs(p, 0, x, sc.lo, sc.hi);
    hide WfProgram;
    hide PlaceOf;
    BlocksHome(p, |p.funcs|, 0, x, StackTop(0, x));
    BlocksHome(p, |p.funcs|, 0, x, Module(Moved(0, x)));
  }
}
