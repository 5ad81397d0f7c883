/** The function-merging passes, each as a rewrite of instruction lists, and the code that they
    produce together.

    Every pass rewrites statements one at a time, so it distributes over concatenation
    (`RewriteAppend`), and running all of them gives each source statement a fixed expansion
    (`Expansion`), laid out in order (`PipelineAppend`). */
module MergePasses {
  import opened Prelude
  import opened CallMachine

  datatype Pass = ReturnViaTemp | AddLinkAddress | ParamsViaTemps | AutosToModule | GenerateStacks | MergeFunctions

  predicate HasCall(s: seq<Instr>) {
    exists i :: 0 <= i < |s| && s[i].Call?
  }

  /** AutosToModule moves an automatic whose declaring compound contains no call; GenerateStacks
      gives the others an array.  A thread has one activation, so its automatics need no array
      and are single cells whatever they are called. */
  predicate Stacked(p: Program, f: Fn, x: Local)
    requires f < |p.funcs|
  {
    var fn := p.funcs[f];
    var sc := ScopeOf(fn, x);
    f != 0 && sc.lo <= sc.hi <= |fn.body| && HasCall(fn.body[sc.lo..sc.hi])
  }

  /** A function gets a stack index when an automatic is left in it.  The link address belongs to
      the outermost compound, so that is when the body contains a call. */
  predicate HasStack(p: Program, f: Fn)
    requires f < |p.funcs|
  {
    f != 0 && HasCall(p.funcs[f].body)
  }

  function SubstPlace(pass: Pass, p: Program, f: Fn, pl: Place): Place
    requires f < |p.funcs|
  {
    match pl
    case Auto(x) =>
      if pass.AutosToModule? && !Stacked(p, f, x) then Module(Moved(f, x))
      else if pass.GenerateStacks? then StackTop(f, x)
      else pl
    case _ => pl
  }

  function SubstExp(pass: Pass, p: Program, f: Fn, e: Exp): Exp
    requires f < |p.funcs|
  {
    match e
    case Read(pl) => Read(SubstPlace(pass, p, f, pl))
    case Bin(op, a, b) => Bin(op, SubstExp(pass, p, f, a), SubstExp(pass, p, f, b))
    case _ => e
  }

  /** Replace every appearance of the automatics that the pass acts on. */
  function Subst(pass: Pass, p: Program, f: Fn, i: Instr): Instr
    requires f < |p.funcs|
  {
    match i
    case Assign(d, e) => Assign(SubstPlace(pass, p, f, d), SubstExp(pass, p, f, e))
    case Goto(e) => Goto(SubstExp(pass, p, f, e))
    case Branch(c, l) => Branch(SubstExp(pass, p, f, c), l)
    case _ => i
  }

  /** Assignments of the arguments to the module variables that carry them. */
  function PassArgs(g: Fn, args: seq<Arg>): seq<Instr> {
    if args == [] then []
    else [Assign(Module(ParamOf(g, args[0].key)), args[0].value)] + PassArgs(g, args[1..])
  }

  /** What one pass does to one statement of function f. */
  function Rewrite(pass: Pass, p: Program, f: Fn, i: Instr): seq<Instr>
    requires f < |p.funcs|
  {
    match pass
    case ReturnViaTemp =>
      (match i
       case Return(Some(e)) => [Assign(Module(ReturnOf(f)), e), Return(None)]
       case Call(site, g, args, Some(d)) =>
         [Call(site, g, args, None), Assign(d, Read(Module(ReturnOf(g))))]
       case _ => [i])
    case AddLinkAddress =>
      (match i
       case Return(_) => [Assign(Module(TempLink(f)), Read(Auto(Link))), i]
       case Call(site, g, args, res) =>
         [Call(site, g, args + [Arg(Link, LabelOf(LinkAt(site)))], res), Declare(LinkAt(site))]
       case _ => [i])
    case ParamsViaTemps =>
      (match i
       case Call(site, g, args, res) => PassArgs(g, args) + [Call(site, g, [], res)]
       case _ => [i])
    case AutosToModule => [Subst(pass, p, f, i)]
    case GenerateStacks =>
      if i.Return? && HasStack(p, f) then [Dec(f), i] else [Subst(pass, p, f, i)]
    case MergeFunctions =>
      (match i
       case Call(_, g, _, _) => [Goto(LabelOf(Enter(g)))]
       case Return(_) => [Goto(Read(Module(TempLink(f))))]
       case _ => [i])
  }

  function RewriteAll(pass: Pass, p: Program, f: Fn, s: seq<Instr>): seq<Instr>
    requires f < |p.funcs|
  {
    if s == [] then [] else Rewrite(pass, p, f, s[0]) + RewriteAll(pass, p, f, s[1..])
  }

  /** The passes up to ParamsViaTemps. */
  function Front(p: Program, f: Fn, s: seq<Instr>): seq<Instr>
    requires f < |p.funcs|
  {
    RewriteAll(ParamsViaTemps, p, f, RewriteAll(AddLinkAddress, p, f, RewriteAll(ReturnViaTemp, p, f, s)))
  }

  /** The passes from AutosToModule. */
  function Back(p: Program, f: Fn, s: seq<Instr>): seq<Instr>
    requires f < |p.funcs|
  {
    RewriteAll(MergeFunctions, p, f, RewriteAll(GenerateStacks, p, f, RewriteAll(AutosToModule, p, f, s)))
  }

  function Pipeline(p: Program, f: Fn, s: seq<Instr>): seq<Instr>
    requires f < |p.funcs|
  {
    Back(p, f, Front(p, f, s))
  }

  function Expansion(p: Program, f: Fn, i: Instr): seq<Instr>
    requires f < |p.funcs|
  {
    Pipeline(p, f, [i])
  }

  /** The initialisers that ParamsViaTemps puts at the top of a function body. */
  function TakeParams(f: Fn, params: seq<Local>): seq<Instr> {
    if params == [] then []
    else [Assign(Auto(params[0]), Read(Module(ParamOf(f, params[0]))))] + TakeParams(f, params[1..])
  }

  /** The merged form of a function: its label, the index increment, its parameters, its body. */
  function Prologue(p: Program, f: Fn): seq<Instr>
    requires f < |p.funcs|
  {
    if f == 0 then []
    else
      [Declare(Enter(f))] + (if HasStack(p, f) then [Inc(f)] else []) +
      Back(p, f, TakeParams(f, p.funcs[f].params + [Link]))
  }

  function Block(p: Program, f: Fn): seq<Instr>
    requires f < |p.funcs|
  {
    Prologue(p, f) + Pipeline(p, f, p.funcs[f].body)
  }

  /** The thread followed by the functions merged into it. */
  function Blocks(p: Program, n: nat): seq<Instr>
    requires n <= |p.funcs|
  {
    if n == 0 then [] else Blocks(p, n - 1) + Block(p, n - 1)
  }

  function Merged(p: Program): seq<Instr> {
    Blocks(p, |p.funcs|)
  }

  // ---------- passes act statement by statement ----------

  lemma {:induction false} RewriteAppend(pass: Pass, p: Program, f: Fn, s: seq<Instr>, t: seq<Instr>)
    requires f < |p.funcs|
    ensures RewriteAll(pass, p, f, s + t) == RewriteAll(pass, p, f, s) + RewriteAll(pass, p, f, t)
  {
    if s == [] {
      assert s + t == t;
    } else {
      assert (s + t)[1..] == s[1..] + t;
      RewriteAppend(pass, p, f, s[1..], t);
    }
  }

  lemma FrontAppend(p: Program, f: Fn, s: seq<Instr>, t: seq<Instr>)
    requires f < |p.funcs|
    ensures Front(p, f, s + t) == Front(p, f, s) + Front(p, f, t)
  {
    RewriteAppend(ReturnViaTemp, p, f, s, t);
    var s1, t1 := RewriteAll(ReturnViaTemp, p, f, s), RewriteAll(ReturnViaTemp, p, f, t);
    RewriteAppend(AddLinkAddress, p, f, s1, t1);
    RewriteAppend(ParamsViaTemps, p, f, RewriteAll(AddLinkAddress, p, f, s1), RewriteAll(AddLinkAddress, p, f, t1));
  }

  lemma BackAppend(p: Program, f: Fn, s: seq<Instr>, t: seq<Instr>)
    requires f < |p.funcs|
    ensures Back(p, f, s + t) == Back(p, f, s) + Back(p, f, t)
  {
    RewriteAppend(AutosToModule, p, f, s, t);
    var s1, t1 := RewriteAll(AutosToModule, p, f, s), RewriteAll(AutosToModule, p, f, t);
    RewriteAppend(GenerateStacks, p, f, s1, t1);
    RewriteAppend(MergeFunctions, p, f, RewriteAll(GenerateStacks, p, f, s1), RewriteAll(GenerateStacks, p, f, t1));
  }

  lemma PipelineAppend(p: Program, f: Fn, s: seq<Instr>, t: seq<Instr>)
    requires f < |p.funcs|
    ensures Pipeline(p, f, s + t) == Pipeline(p, f, s) + Pipeline(p, f, t)
  {
    hide Front;
    hide Back;
    FrontAppend(p, f, s, t);
    BackAppend(p, f, Front(p, f, s), Front(p, f, t));
  }

  // ---------- the expansion of each kind of statement ----------

  /** Where a place of the source ends up. */
  function PlaceOf(p: Program, f: Fn, pl: Place): Place
    requires f < |p.funcs|
  {
    SubstPlace(GenerateStacks, p, f, SubstPlace(AutosToModule, p, f, pl))
  }

  function ExpOf(p: Program, f: Fn, e: Exp): Exp
    requires f < |p.funcs|
  {
    SubstExp(GenerateStacks, p, f, SubstExp(AutosToModule, p, f, e))
  }

  function ArgCode(p: Program, f: Fn, g: Fn, args: seq<Arg>): seq<Instr>
    requires f < |p.funcs|
  {
    if args == [] then []
    else [Assign(Module(ParamOf(g, args[0].key)), ExpOf(p, f, args[0].value))] + ArgCode(p, f, g, args[1..])
  }

  function ParamCode(p: Program, f: Fn, params: seq<Local>): seq<Instr>
    requires f < |p.funcs|
  {
    if params == [] then []
    else [Assign(PlaceOf(p, f, Auto(params[0])), Read(Module(ParamOf(f, params[0]))))] + ParamCode(p, f, params[1..])
  }

  lemma RewriteOne(pass: Pass, p: Program, f: Fn, i: Instr)
    requires f < |p.funcs|
    ensures RewriteAll(pass, p, f, [i]) == Rewrite(pass, p, f, i)
  {
    assert [i][1..] == [];
  }

  lemma RewriteTwo(pass: Pass, p: Program, f: Fn, i: Instr, j: Instr)
    requires f < |p.funcs|
    ensures RewriteAll(pass, p, f, [i, j]) == Rewrite(pass, p, f, i) + Rewrite(pass, p, f, j)
  {
    assert [i, j] == [i] + [j];
    RewriteAppend(pass, p, f, [i], [j]);
    RewriteOne(pass, p, f, i);
    RewriteOne(pass, p, f, j);
  }

  lemma BackOne(p: Program, f: Fn, i: Instr)
    requires f < |p.funcs|
    ensures Back(p, f, [i]) ==
              if i.Return? then
                (if HasStack(p, f) then [Dec(f)] else []) + [Goto(Read(Module(TempLink(f))))]
              else if i.Call? then [Goto(LabelOf(Enter(i.f)))]
              else [Subst(GenerateStacks, p, f, Subst(AutosToModule, p, f, i))]
  {
    RewriteOne(AutosToModule, p, f, i);
    var i1 := Subst(AutosToModule, p, f, i);
    RewriteOne(GenerateStacks, p, f, i1);
    if i.Return? && HasStack(p, f) {
      RewriteTwo(MergeFunctions, p, f, Dec(f), i1);
    } else {
      RewriteOne(MergeFunctions, p, f, Subst(GenerateStacks, p, f, i1));
    }
  }

  lemma {:induction false} BackArgs(p: Program, f: Fn, g: Fn, args: seq<Arg>)
    requires f < |p.funcs|
    ensures Back(p, f, PassArgs(g, args)) == ArgCode(p, f, g, args)
  {
    if args != [] {
      var first := [Assign(Module(ParamOf(g, args[0].key)), args[0].value)];
      BackAppend(p, f, first, PassArgs(g, args[1..]));
      BackOne(p, f, first[0]);
      BackArgs(p, f, g, args[1..]);
    }
  }

  lemma {:induction false} BackParams(p: Program, f: Fn, params: seq<Local>)
    requires f < |p.funcs|
    ensures Back(p, f, TakeParams(f, params)) == ParamCode(p, f, params)
  {
    if params != [] {
      var first := [Assign(Auto(params[0]), Read(Module(ParamOf(f, params[0]))))];
      BackAppend(p, f, first, TakeParams(f, params[1..]));
      BackOne(p, f, first[0]);
      BackParams(p, f, params[1..]);
    }
  }

  lemma ExpandPlain(p: Program, f: Fn, i: Instr)
    requires f < |p.funcs| && !i.Call? && !i.Return?
    ensures Expansion(p, f, i) == [Subst(GenerateStacks, p, f, Subst(AutosToModule, p, f, i))]
  {
    RewriteOne(ReturnViaTemp, p, f, i);
    RewriteOne(AddLinkAddress, p, f, i);
    RewriteOne(ParamsViaTemps, p, f, i);
    BackOne(p, f, i);
  }

  /** The value if any, then the link address, then the index decrement, then the jump: the value
      and the link address are read while the index still selects this activation. */
  lemma ExpandReturn(p: Program, f: Fn, val: Option<Exp>)
    requires f < |p.funcs|
    ensures Expansion(p, f, Return(val)) ==
              (if val.Some? then [Assign(Module(ReturnOf(f)), ExpOf(p, f, val.value))] else []) +
              [Assign(Module(TempLink(f)), Read(PlaceOf(p, f, Auto(Link))))] +
              (if HasStack(p, f) then [Dec(f)] else []) +
              [Goto(Read(Module(TempLink(f))))]
  {
    hide RewriteAll;
    var link := Assign(Module(TempLink(f)), Read(Auto(Link)));
    RewriteOne(ReturnViaTemp, p, f, Return(val));
    RewriteOne(AddLinkAddress, p, f, Return(None));
    RewriteTwo(ParamsViaTemps, p, f, link, Return(None));
    BackAppend(p, f, [link], [Return(None)]);
    BackOne(p, f, link);
    BackOne(p, f, Return(None));
    assert [link] + [Return(None)] == [link, Return(None)];
    if val.Some? {
      var save := Assign(Module(ReturnOf(f)), val.value);
      RewriteTwo(AddLinkAddress, p, f, save, Return(None));
      assert [save] + [link, Return(None)] == [save, link, Return(None)];
      RewriteAppend(ParamsViaTemps, p, f, [save], [link, Return(None)]);
      RewriteOne(ParamsViaTemps, p, f, save);
      BackAppend(p, f, [save], [link, Return(None)]);
      BackOne(p, f, save);
    }
  }

  /** A call after the passes that put its arguments, link address and result into module variables. */
  lemma FrontCall(p: Program, f: Fn, site: Site, g: Fn, args: seq<Arg>, res: Option<Place>)
    requires f < |p.funcs|
    ensures var args' := args + [Arg(Link, LabelOf(LinkAt(site)))];
            var head := PassArgs(g, args') + ([Call(site, g, [], None)] + [Declare(LinkAt(site))]);
            Front(p, f, [Call(site, g, args, res)]) ==
            if res.Some? then head + [Assign(res.value, Read(Module(ReturnOf(g))))] else head
  {
    hide RewriteAll;
    hide PassArgs;
    var args' := args + [Arg(Link, LabelOf(LinkAt(site)))];
    var call1, call2, call3 := Call(site, g, args, None), Call(site, g, args', None), Call(site, g, [], None);
    var decl := Declare(LinkAt(site));
    RewriteOne(ReturnViaTemp, p, f, Call(site, g, args, res));
    RewriteOne(AddLinkAddress, p, f, call1);
    RewriteTwo(ParamsViaTemps, p, f, call2, decl);
    assert PassArgs(g, args') + [call3] + [decl] == PassArgs(g, args') + ([call3] + [decl]);
    if res.Some? {
      var fetch := Assign(res.value, Read(Module(ReturnOf(g))));
      RewriteTwo(AddLinkAddress, p, f, call1, fetch);
      assert [call2, decl] + [fetch] == [call2, decl, fetch];
      RewriteAppend(ParamsViaTemps, p, f, [call2, decl], [fetch]);
      RewriteOne(ParamsViaTemps, p, f, fetch);
    }
  }

  lemma ExpandCall(p: Program, f: Fn, site: Site, g: Fn, args: seq<Arg>, res: Option<Place>)
    requires f < |p.funcs|
    ensures Expansion(p, f, Call(site, g, args, res)) ==
              ArgCode(p, f, g, args + [Arg(Link, LabelOf(LinkAt(site)))]) +
              [Goto(LabelOf(Enter(g))), Declare(LinkAt(site))] +
              (if res.Some? then [Assign(PlaceOf(p, f, res.value), Read(Module(ReturnOf(g))))] else [])
  {
    hide RewriteAll;
    hide PassArgs;
    var args' := args + [Arg(Link, LabelOf(LinkAt(site)))];
    var call, decl := Call(site, g, [], None), Declare(LinkAt(site));
    var head := PassArgs(g, args') + ([call] + [decl]);
    FrontCall(p, f, site, g, args, res);
    BackAppend(p, f, PassArgs(g, args'), [call] + [decl]);
    BackAppend(p, f, [call], [decl]);
    BackArgs(p, f, g, args');
    BackOne(p, f, call);
    BackOne(p, f, decl);
    if res.Some? {
      var fetch := Assign(res.value, Read(Module(ReturnOf(g))));
      BackAppend(p, f, head, [fetch]);
      BackOne(p, f, fetch);
    }
  }
}
