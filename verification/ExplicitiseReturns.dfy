/** Turning early returns into a flag.

    Every statement that comes after one containing a return is put under a test of a fresh flag, and
    each return then clears the flag instead. */
module ExplicitiseReturns {

  datatype Cond = Enabled | Plain(c: nat) // the flag, or a condition of the program

  datatype Stmt =
    | Skip
    | Act(a: nat)
    | Return
    | Disable                     // enabled = false
    | If(c: Cond, s1: Stmt, s2: Stmt)
    | Block(body: seq<Stmt>)
    | Repeat(n: nat, s: Stmt)     // a loop with a fixed number of rounds

  /** What actions and conditions do, on states of any type; conditions may have side effects. */
  datatype Interp<!S> = Interp(act: (nat, S) -> S, test: (nat, S) -> (bool, S))

  /** Whether a return was taken, the data, and the flag. */
  datatype Result<S> = Result(returned: bool, st: S, enabled: bool)

  function Exec<S>(m: Interp<S>, s: Stmt, st: S, enabled: bool): Result<S>
    decreases s, 0
  {
    match s
    case Skip => Result(false, st, enabled)
    case Act(a) => Result(false, m.act(a, st), enabled)
    case Return => Result(true, st, enabled)
    case Disable => Result(false, st, false)
    case If(Enabled, a, b) => if enabled then Exec(m, a, st, enabled) else Exec(m, b, st, enabled)
    case If(Plain(c), a, b) =>
      var (v, u) := m.test(c, st);
      if v then Exec(m, a, u, enabled) else Exec(m, b, u, enabled)
    case Block(body) => ExecAll(m, body, st, enabled)
    case Repeat(n, b) => ExecRounds(m, n, b, st, enabled)
  }

  function ExecAll<S>(m: Interp<S>, body: seq<Stmt>, st: S, enabled: bool): Result<S>
    decreases body, 0
  {
    if body == [] then Result(false, st, enabled)
    else
      var r := Exec(m, body[0], st, enabled);
      if r.returned then r else ExecAll(m, body[1..], r.st, r.enabled)
  }

  function ExecRounds<S>(m: Interp<S>, n: nat, s: Stmt, st: S, enabled: bool): Result<S>
    decreases s, 1 + n
  {
    if n == 0 then Result(false, st, enabled)
    else
      var r := Exec(m, s, st, enabled);
      if r.returned then r else ExecRounds(m, n - 1, s, r.st, r.enabled)
  }

  predicate HasReturn(s: Stmt) {
    match s
    case Return => true
    case If(_, a, b) => HasReturn(a) || HasReturn(b)
    case Block(body) => AnyReturn(body)
    case Repeat(_, b) => HasReturn(b)
    case _ => false
  }

  predicate AnyReturn(body: seq<Stmt>) {
    body != [] && (HasReturn(body[0]) || AnyReturn(body[1..]))
  }

  /** A program that does not use the flag. */
  predicate Source(s: Stmt) {
    match s
    case Disable => false
    case If(c, a, b) => c.Plain? && Source(a) && Source(b)
    case Block(body) => SourceAll(body)
    case Repeat(_, b) => Source(b)
    case _ => true
  }

  predicate SourceAll(body: seq<Stmt>) {
    body == [] || (Source(body[0]) && SourceAll(body[1..]))
  }

  // ---------- which programs come out right ----------

  /** Some run of the program goes on behind the statement. */
  predicate CanComplete(s: Stmt) {
    match s
    case Return => false
    case If(_, a, b) => CanComplete(a) || CanComplete(b)
    case Block(body) => CanCompleteAll(body)
    case Repeat(n, b) => n == 0 || CanComplete(b)
    case _ => true
  }

  predicate CanCompleteAll(body: seq<Stmt>) {
    body == [] || (CanComplete(body[0]) && CanCompleteAll(body[1..]))
  }

  /** Some run of the statement ends in a return. */
  predicate CanReturn(s: Stmt) {
    match s
    case Return => true
    case If(_, a, b) => CanReturn(a) || CanReturn(b)
    case Block(body) => CanReturnIn(body)
    case Repeat(n, b) => n > 0 && CanReturn(b)
    case _ => false
  }

  predicate CanReturnIn(body: seq<Stmt>) {
    body != [] && (CanReturn(body[0]) || (CanComplete(body[0]) && CanReturnIn(body[1..])))
  }

  /** What the statement leaves outside every test of the flag has no action and no condition in it. */
  predicate Quiet(s: Stmt) {
    match s
    case Act(_) => false
    case If(_, _, _) => false
    case Block(body) => QuietAll(body)
    case Repeat(n, b) => n == 0 || Quiet(b)
    case _ => true
  }

  predicate QuietAll(body: seq<Stmt>) {
    body == [] || (Quiet(body[0]) && (HasReturn(body[0]) || QuietAll(body[1..])))
  }

  /** Each loop that is reached has at most one round, or cannot return, or does nothing in the rounds
      after a return. */
  predicate Right(s: Stmt) {
    match s
    case If(_, a, b) => Right(a) && Right(b)
    case Block(body) => RightAll(body)
    case Repeat(n, b) => n == 0 || (Right(b) && (n == 1 || !CanReturn(b) || Quiet(b)))
    case _ => true
  }

  predicate RightAll(body: seq<Stmt>) {
    body == [] || (Right(body[0]) && (!CanComplete(body[0]) || RightAll(body[1..])))
  }

  // ---------- the transformation ----------

  /** Put the statements behind a possible return under the flag, in every compound. */
  function Guard(s: Stmt): Stmt {
    match s
    case If(c, a, b) => If(c, Guard(a), Guard(b))
    case Block(body) => Block(GuardAll(body, false))
    case Repeat(n, b) => Repeat(n, Guard(b))
    case _ => s
  }

  function GuardAll(body: seq<Stmt>, after: bool): seq<Stmt> {
    if body == [] then []
    else
      [if after then If(Enabled, Guard(body[0]), Skip) else Guard(body[0])] + GuardAll(body[1..], after || HasReturn(body[0]))
  }

  /** Clear the flag instead of returning. */
  function Clear(s: Stmt): Stmt {
    match s
    case Return => Disable
    case If(c, a, b) => If(c, Clear(a), Clear(b))
    case Block(body) => Block(ClearAll(body))
    case Repeat(n, b) => Repeat(n, Clear(b))
    case _ => s
  }

  function ClearAll(body: seq<Stmt>): seq<Stmt> {
    if body == [] then [] else [Clear(body[0])] + ClearAll(body[1..])
  }

  function Explicit(s: Stmt): Stmt {
    Clear(Guard(s))
  }

  // ---------- what it leaves alone ----------

  function Returns(s: Stmt): nat {
    match s
    case Return => 1
    case If(_, a, b) => Returns(a) + Returns(b)
    case Block(body) => ReturnsAll(body)
    case Repeat(_, b) => Returns(b)
    case _ => 0
  }

  function ReturnsAll(body: seq<Stmt>): nat {
    if body == [] then 0 else Returns(body[0]) + ReturnsAll(body[1..])
  }

  /** A statement without a return stays as it is. */
  lemma {:induction false} OthersStay(s: Stmt)
    ensures HasReturn(s) <==> Returns(s) > 0
    ensures Returns(s) == 0 ==> Explicit(s) == s
  {
    match s
    case If(_, a, b) =>
      OthersStay(a);
      OthersStay(b);
    case Block(body) => OtherBlocksStay(body);
    case Repeat(_, b) => OthersStay(b);
    case _ =>
  }

  lemma {:induction false} OtherBlocksStay(body: seq<Stmt>)
    ensures AnyReturn(body) <==> ReturnsAll(body) > 0
    ensures ReturnsAll(body) == 0 ==> ClearAll(GuardAll(body, false)) == body
  {
    hide Guard;
    hide Clear;
    if body != [] {
      OthersStay(body[0]);
      OtherBlocksStay(body[1..]);
      ClearCons(Guard(body[0]), GuardAll(body[1..], false));
    }
  }

  /** In a compound the statements up to the first that contains a return are not put under a test, and
      those behind it are. */
  lemma {:induction false} FirstReturnGuards(body: seq<Stmt>, after: bool, i: nat)
    requires i < |body|
    ensures var e := ClearAll(GuardAll(body, after));
            && |e| == |body|
            && e[i] == if after || ReturnsAll(body[..i]) > 0 then If(Enabled, Explicit(body[i]), Skip) else Explicit(body[i])
    decreases body
  {
    hide Guard;
    hide Clear;
    var after' := after || HasReturn(body[0]);
    var x := if after then If(Enabled, Guard(body[0]), Skip) else Guard(body[0]);
    OthersStay(body[0]);
    ClearCons(x, GuardAll(body[1..], after'));
    ClearOfGuarded(body[0], after);
    if i > 0 {
      FirstReturnGuards(body[1..], after', i - 1);
      assert body[..i][0] == body[0] && body[..i][1..] == body[1..][..i - 1];
    } else {
      assert body[..0] == [];
      Lengths(body, after);
    }
  }

  lemma ClearOfGuarded(s: Stmt, after: bool)
    ensures Clear(if after then If(Enabled, Guard(s), Skip) else Guard(s)) == if after then If(Enabled, Explicit(s), Skip) else Explicit(s)
  {
  }

  lemma {:induction false} Lengths(body: seq<Stmt>, after: bool)
    ensures |ClearAll(GuardAll(body, after))| == |body|
  {
    hide Guard;
    hide Clear;
    if body != [] {
      var x := if after then If(Enabled, Guard(body[0]), Skip) else Guard(body[0]);
      ClearCons(x, GuardAll(body[1..], after || HasReturn(body[0])));
      Lengths(body[1..], after || HasReturn(body[0]));
    }
  }

  lemma ClearCons(x: Stmt, rest: seq<Stmt>)
    ensures ClearAll([x] + rest) == [Clear(x)] + ClearAll(rest)
  {
    assert ([x] + rest)[1..] == rest;
  }

  lemma ExecCons<S>(m: Interp<S>, x: Stmt, rest: seq<Stmt>, st: S, enabled: bool)
    ensures var r := Exec(m, x, st, enabled);
            ExecAll(m, [x] + rest, st, enabled) == if r.returned then r else ExecAll(m, rest, r.st, r.enabled)
  {
    assert ([x] + rest)[1..] == rest;
  }

  /** A program leaves the flag alone, and returns or goes on only if it can. */
  lemma {:induction false} HowItEnds<S>(m: Interp<S>, s: Stmt, st: S, enabled: bool)
    requires Source(s)
    ensures var r := Exec(m, s, st, enabled);
            r.enabled == enabled && (r.returned ==> CanReturn(s) && HasReturn(s)) && (!r.returned ==> CanComplete(s))
    decreases s, 0
  {
    match s
    case If(Plain(c), a, b) =>
      HowItEnds(m, a, m.test(c, st).1, enabled);
      HowItEnds(m, b, m.test(c, st).1, enabled);
    case Block(body) => HowBlocksEnd(m, body, st, enabled);
    case Repeat(n, b) => HowRoundsEnd(m, n, b, st, enabled);
    case _ =>
  }

  lemma {:induction false} HowBlocksEnd<S>(m: Interp<S>, body: seq<Stmt>, st: S, enabled: bool)
    requires SourceAll(body)
    ensures var r := ExecAll(m, body, st, enabled);
            r.enabled == enabled && (r.returned ==> CanReturnIn(body) && AnyReturn(body)) && (!r.returned ==> CanCompleteAll(body))
    decreases body, 0
  {
    if body != [] {
      HowItEnds(m, body[0], st, enabled);
      HowBlocksEnd(m, body[1..], Exec(m, body[0], st, enabled).st, enabled);
    }
  }

  lemma {:induction false} HowRoundsEnd<S>(m: Interp<S>, n: nat, s: Stmt, st: S, enabled: bool)
    requires Source(s)
    ensures var r := ExecRounds(m, n, s, st, enabled);
            && r.enabled == enabled && (r.returned ==> n > 0 && CanReturn(s) && HasReturn(s))
            && (!r.returned ==> n == 0 || CanComplete(s))
    decreases s, 1 + n
  {
    if n > 0 {
      HowItEnds(m, s, st, enabled);
      HowRoundsEnd(m, n - 1, s, Exec(m, s, st, enabled).st, enabled);
    }
  }

  /** The transformed program ends with the data the original returns with, and its flag says whether the
      original returned early. */
  ghost predicate Agrees<S>(m: Interp<S>, s: Stmt, st: S) {
    var r := Exec(m, s, st, true);
    Exec(m, Explicit(s), st, true) == Result(false, r.st, !r.returned)
  }

  /** A program of the right form agrees with its transformed form, whatever its actions and conditions
      do. */
  lemma {:induction false} ReturnsBecomeFlag<S>(m: Interp<S>, s: Stmt, st: S)
    requires Source(s) && Right(s)
    ensures Agrees(m, s, st)
    decreases s, 0
  {
    match s
    case If(Plain(c), a, b) =>
      ReturnsBecomeFlag(m, a, m.test(c, st).1);
      ReturnsBecomeFlag(m, b, m.test(c, st).1);
    case Block(body) => BlockRuns(m, body, false, st);
    case Repeat(n, b) => RoundsRun(m, n, b, st);
    case _ =>
  }

  /** Statements that are reached run as before. */
  lemma {:induction false} BlockRuns<S>(m: Interp<S>, body: seq<Stmt>, after: bool, st: S)
    requires SourceAll(body) && RightAll(body)
    ensures var r := ExecAll(m, body, st, true);
            ExecAll(m, ClearAll(GuardAll(body, after)), st, true) == Result(false, r.st, !r.returned)
    decreases body, 0
  {
    hide Guard;
    hide Clear;
    if body != [] {
      var s, rest, after' := body[0], body[1..], after || HasReturn(body[0]);
      var r := Exec(m, s, st, true);
      ReturnsBecomeFlag(m, s, st);
      HowItEnds(m, s, st, true);
      BlockHead(m, body, after, st, true);
      if r.returned {
        BlockSkips(m, rest, r.st);
      } else {
        BlockRuns(m, rest, after', r.st);
      }
    }
  }

  /** A transformed block runs its first statement, if it may, and then the rest. */
  lemma BlockHead<S>(m: Interp<S>, body: seq<Stmt>, after: bool, st: S, enabled: bool)
    requires body != []
    ensures var r := if after && !enabled then Result(false, st, enabled) else Exec(m, Explicit(body[0]), st, enabled);
            var rest := ClearAll(GuardAll(body[1..], after || HasReturn(body[0])));
            ExecAll(m, ClearAll(GuardAll(body, after)), st, enabled) == if r.returned then r else ExecAll(m, rest, r.st, r.enabled)
  {
    hide Guard;
    hide Clear;
    var rest := GuardAll(body[1..], after || HasReturn(body[0]));
    var x := if after then If(Enabled, Guard(body[0]), Skip) else Guard(body[0]);
    Wrapped(m, body[0], after, st, enabled);
    ClearCons(x, rest);
    ExecCons(m, Clear(x), ClearAll(rest), st, enabled);
  }

  lemma Wrapped<S>(m: Interp<S>, s: Stmt, after: bool, st: S, enabled: bool)
    ensures var x := if after then If(Enabled, Guard(s), Skip) else Guard(s);
            Exec(m, Clear(x), st, enabled) ==
            if after && !enabled then Result(false, st, enabled) else Exec(m, Explicit(s), st, enabled)
  {
  }

  /** Once the flag is cleared the guarded rest does nothing, its conditions included. */
  lemma {:induction false} BlockSkips<S>(m: Interp<S>, body: seq<Stmt>, st: S)
    ensures ExecAll(m, ClearAll(GuardAll(body, true)), st, false) == Result(false, st, false)
    decreases body
  {
    if body != [] {
      BlockHead(m, body, true, st, false);
      BlockSkips(m, body[1..], st);
    }
  }

  lemma {:induction false} RoundsRun<S>(m: Interp<S>, n: nat, s: Stmt, st: S)
    requires Source(s) && (n == 0 || Right(s)) && (n <= 1 || !CanReturn(s) || Quiet(s))
    ensures var r := ExecRounds(m, n, s, st, true);
            ExecRounds(m, n, Explicit(s), st, true) == Result(false, r.st, !r.returned)
    decreases s, 1 + n
  {
    if n > 0 {
      ReturnsBecomeFlag(m, s, st);
      HowItEnds(m, s, st, true);
      var r := Exec(m, s, st, true);
      if !r.returned {
        RoundsRun(m, n - 1, s, r.st);
      } else if n > 1 {
        QuietRounds(m, n - 1, s, r.st);
      }
    }
  }

  /** With the flag cleared a quiet statement does nothing. */
  lemma {:induction false} QuietStays<S>(m: Interp<S>, s: Stmt, st: S)
    requires Source(s) && Quiet(s)
    ensures Exec(m, Explicit(s), st, false) == Result(false, st, false)
    decreases s, 0
  {
    match s
    case Block(body) => QuietBlock(m, body, st);
    case Repeat(n, b) =>
      if n > 0 {
        QuietRounds(m, n, b, st);
      }
    case _ =>
  }

  lemma {:induction false} QuietBlock<S>(m: Interp<S>, body: seq<Stmt>, st: S)
    requires SourceAll(body) && QuietAll(body)
    ensures ExecAll(m, ClearAll(GuardAll(body, false)), st, false) == Result(false, st, false)
    decreases body, 0
  {
    hide Explicit;
    if body != [] {
      BlockHead(m, body, false, st, false);
      QuietStays(m, body[0], st);
      if HasReturn(body[0]) {
        BlockSkips(m, body[1..], st);
      } else {
        QuietBlock(m, body[1..], st);
      }
    }
  }

  lemma {:induction false} QuietRounds<S>(m: Interp<S>, n: nat, s: Stmt, st: S)
    requires Source(s) && Quiet(s)
    ensures ExecRounds(m, n, Explicit(s), st, false) == Result(false, st, false)
    decreases s, 1 + n
  {
    if n > 0 {
      QuietStays(m, s, st);
      QuietRounds(m, n - 1, s, st);
    }
  }

  // ---------- and which do not ----------

  /** Actions and conditions count themselves; the n-th outcome is given by an oracle. */
  function Counting(o: nat -> bool): Interp<nat> {
    Interp((_, n) => n + 1, (_, n) => (o(n), n + 1))
  }

  /** One oracle up to a count, another from there on. */
  function Splice(o: nat -> bool, k: nat, o': nat -> bool): nat -> bool {
    (i: nat) => if i < k then o(i) else o'(i)
  }

  ghost predicate SameFrom(o: nat -> bool, o': nat -> bool, from: nat, to: nat) {
    forall i :: from <= i < to ==> o(i) == o'(i)
  }

  /** The count never falls, and only the outcomes between its old and its new value matter. */
  lemma {:induction false} Local(o: nat -> bool, o': nat -> bool, s: Stmt, n: nat, enabled: bool)
    ensures var r: Result<nat> := Exec(Counting(o), s, n, enabled);
            r.st >= n && (SameFrom(o, o', n, r.st) ==> Exec(Counting(o'), s, n, enabled) == r)
    decreases s, 0
  {
    match s
    case If(Enabled, a, b) => Local(o, o', if enabled then a else b, n, enabled);
    case If(Plain(c), a, b) =>
      Local(o, o', if o(n) then a else b, n + 1, enabled);
    case Block(body) => LocalAll(o, o', body, n, enabled);
    case Repeat(k, b) => LocalRounds(o, o', k, b, n, enabled);
    case _ =>
  }

  lemma {:induction false} LocalAll(o: nat -> bool, o': nat -> bool, body: seq<Stmt>, n: nat, enabled: bool)
    ensures var r: Result<nat> := ExecAll(Counting(o), body, n, enabled);
            r.st >= n && (SameFrom(o, o', n, r.st) ==> ExecAll(Counting(o'), body, n, enabled) == r)
    decreases body, 0
  {
    if body != [] {
      Local(o, o', body[0], n, enabled);
      var r: Result<nat> := Exec(Counting(o), body[0], n, enabled);
      LocalAll(o, o', body[1..], r.st, r.enabled);
    }
  }

  lemma {:induction false} LocalRounds(o: nat -> bool, o': nat -> bool, k: nat, s: Stmt, n: nat, enabled: bool)
    ensures var r: Result<nat> := ExecRounds(Counting(o), k, s, n, enabled);
            r.st >= n && (SameFrom(o, o', n, r.st) ==> ExecRounds(Counting(o'), k, s, n, enabled) == r)
    decreases s, 1 + k
  {
    if k > 0 {
      Local(o, o', s, n, enabled);
      var r: Result<nat> := Exec(Counting(o), s, n, enabled);
      LocalRounds(o, o', k - 1, s, r.st, r.enabled);
    }
  }

  lemma SpliceSame(o: nat -> bool, k: nat, o': nat -> bool, to: nat)
    ensures SameFrom(o, Splice(o, k, o'), 0, k) && SameFrom(o', Splice(o, k, o'), k, to)
  {
  }

  /** A run that goes as one oracle says up to a point and as another says from there on. */
  lemma Joined(o: nat -> bool, s: Stmt, n: nat, o': nat -> bool) returns (p: nat -> bool)
    ensures var r: Result<nat> := Exec(Counting(o), s, n, true);
            Exec(Counting(p), s, n, true) == r && forall to :: SameFrom(o', p, r.st, to)
  {
    var r: Result<nat> := Exec(Counting(o), s, n, true);
    p := Splice(o, r.st, o');
    Local(o, p, s, n, true);
  }

  /** What the statement does when the outcomes are chosen well: it goes on, or it returns. */
  lemma {:induction false} Path(s: Stmt, early: bool, n: nat) returns (o: nat -> bool)
    requires Source(s) && if early then CanReturn(s) else CanComplete(s)
    ensures Exec(Counting(o), s, n, true).returned == early
    decreases s, 0
  {
    o := i => true;
    match s
    case If(Plain(_), a, b) =>
      var first := if early then CanReturn(a) else CanComplete(a);
      var p := Path(if first then a else b, early, n + 1);
      o := Splice(i => first, n + 1, p);
      Local(p, o, if first then a else b, n + 1, true);
    case Block(body) => o := PathAll(body, early, n);
    case Repeat(k, b) =>
      if k > 0 {
        o := PathRounds(k, b, early, n);
      }
    case _ =>
  }

  lemma {:induction false} PathAll(body: seq<Stmt>, early: bool, n: nat) returns (o: nat -> bool)
    requires SourceAll(body) && if early then CanReturnIn(body) else CanCompleteAll(body)
    ensures ExecAll(Counting(o), body, n, true).returned == early
    decreases body, 0
  {
    o := i => true;
    if body != [] {
      if early && CanReturn(body[0]) {
        o := Path(body[0], true, n);
      } else {
        var p := Path(body[0], false, n);
        var r: Result<nat> := Exec(Counting(p), body[0], n, true);
        HowItEnds(Counting(p), body[0], n, true);
        var q := PathAll(body[1..], early, r.st);
        o := Joined(p, body[0], n, q);
        LocalAll(q, o, body[1..], r.st, true);
      }
    }
  }

  lemma {:induction false} PathRounds(k: nat, s: Stmt, early: bool, n: nat) returns (o: nat -> bool)
    requires Source(s) && if early then k > 0 && CanReturn(s) else CanComplete(s)
    ensures ExecRounds(Counting(o), k, s, n, true).returned == early
    decreases s, 1 + k
  {
    o := i => true;
    if k > 0 {
      var p := Path(s, early, n);
      var r: Result<nat> := Exec(Counting(p), s, n, true);
      o := p;
      if !early {
        HowItEnds(Counting(p), s, n, true);
        var q := PathRounds(k - 1, s, early, r.st);
        o := Joined(p, s, n, q);
        LocalRounds(q, o, k - 1, s, r.st, true);
      }
    }
  }

  /** The transformed program does not return. */
  lemma {:induction false} NeverReturns<S>(m: Interp<S>, s: Stmt, st: S, enabled: bool)
    requires Source(s)
    ensures !Exec(m, Explicit(s), st, enabled).returned
    decreases s, 0
  {
    match s
    case If(Plain(c), a, b) =>
      NeverReturns(m, a, m.test(c, st).1, enabled);
      NeverReturns(m, b, m.test(c, st).1, enabled);
    case Block(body) => BlockNeverReturns(m, body, false, st, enabled);
    case Repeat(n, b) => RoundsNeverReturn(m, n, b, st, enabled);
    case _ =>
  }

  lemma {:induction false} BlockNeverReturns<S>(m: Interp<S>, body: seq<Stmt>, after: bool, st: S, enabled: bool)
    requires SourceAll(body)
    ensures !ExecAll(m, ClearAll(GuardAll(body, after)), st, enabled).returned
    decreases body, 0
  {
    hide Explicit;
    if body != [] {
      BlockHead(m, body, after, st, enabled);
      NeverReturns(m, body[0], st, enabled);
      var r := if after && !enabled then Result(false, st, enabled) else Exec(m, Explicit(body[0]), st, enabled);
      BlockNeverReturns(m, body[1..], after || HasReturn(body[0]), r.st, r.enabled);
    }
  }

  lemma {:induction false} RoundsNeverReturn<S>(m: Interp<S>, n: nat, s: Stmt, st: S, enabled: bool)
    requires Source(s)
    ensures !ExecRounds(m, n, Explicit(s), st, enabled).returned
    decreases s, 1 + n
  {
    if n > 0 {
      NeverReturns(m, s, st, enabled);
      var r := Exec(m, Explicit(s), st, enabled);
      RoundsNeverReturn(m, n - 1, s, r.st, r.enabled);
    }
  }

  /** With the flag cleared a statement that is not quiet still does something. */
  lemma {:induction false} Noisy(o: nat -> bool, s: Stmt, n: nat)
    requires Source(s) && !Quiet(s)
    ensures Exec(Counting(o), Explicit(s), n, false).st > n
    decreases s, 0
  {
    match s
    case Act(_) =>
    case If(Plain(_), a, b) => Local(o, o, Explicit(if o(n) then a else b), n + 1, false);
    case Block(body) => NoisyBlock(o, body, n);
    case Repeat(k, b) =>
      Noisy(o, b, n);
      NeverReturns(Counting(o), b, n, false);
      var r: Result<nat> := Exec(Counting(o), Explicit(b), n, false);
      LocalRounds(o, o, k - 1, Explicit(b), r.st, r.enabled);
  }

  lemma {:induction false} NoisyBlock(o: nat -> bool, body: seq<Stmt>, n: nat)
    requires SourceAll(body) && !QuietAll(body)
    ensures ExecAll(Counting(o), ClearAll(GuardAll(body, false)), n, false).st > n
    decreases body, 0
  {
    hide Explicit;
    var m, rest := Counting(o), ClearAll(GuardAll(body[1..], HasReturn(body[0])));
    BlockHead(m, body, false, n, false);
    var r := Exec(m, Explicit(body[0]), n, false);
    if Quiet(body[0]) {
      QuietStays(m, body[0], n);
      NoisyBlock(o, body[1..], n);
    } else {
      Noisy(o, body[0], n);
      LocalAll(o, o, rest, r.st, r.enabled);
    }
  }

  /** A program of the wrong form has a run that returns, in which its transformed form does more. */
  lemma {:induction false} BadPath(s: Stmt, n: nat) returns (o: nat -> bool)
    requires Source(s) && !Right(s)
    ensures var r: Result<nat> := Exec(Counting(o), s, n, true);
            r.returned && Exec(Counting(o), Explicit(s), n, true).st > r.st
    decreases s, 0
  {
    match s
    case If(Plain(_), a, b) =>
      var first := !Right(a);
      var x := if first then a else b;
      var p := BadPath(x, n + 1);
      o := Splice(i => first, n + 1, p);
      Local(p, o, x, n + 1, true);
      Local(p, o, Explicit(x), n + 1, true);
    case Block(body) => o := BadBlock(body, false, n);
    case Repeat(k, b) =>
      if Right(b) {
        o := Path(b, true, n);
        ReturnsBecomeFlag(Counting(o), b, n);
        Noisy(o, b, Exec(Counting(o), b, n, true).st);
      } else {
        o := BadPath(b, n);
      }
      var m := Counting(o);
      var r := Exec(m, Explicit(b), n, true);
      NeverReturns(m, b, n, true);
      LocalRounds(o, o, k - 1, Explicit(b), r.st, r.enabled);
      if k > 1 {
        NeverReturns(m, b, r.st, r.enabled);
        var r' := Exec(m, Explicit(b), r.st, r.enabled);
        LocalRounds(o, o, k - 2, Explicit(b), r'.st, r'.enabled);
      }
  }

  lemma {:induction false} BadBlock(body: seq<Stmt>, after: bool, n: nat) returns (o: nat -> bool)
    requires SourceAll(body) && !RightAll(body)
    ensures var r: Result<nat> := ExecAll(Counting(o), body, n, true);
            r.returned && ExecAll(Counting(o), ClearAll(GuardAll(body, after)), n, true).st > r.st
    decreases body, 0
  {
    hide Explicit;
    var s, after' := body[0], after || HasReturn(body[0]);
    var rest := ClearAll(GuardAll(body[1..], after'));
    if Right(s) {
      var p := Path(s, false, n);
      HowItEnds(Counting(p), s, n, true);
      var r: Result<nat> := Exec(Counting(p), s, n, true);
      var q := BadBlock(body[1..], after', r.st);
      o := Joined(p, s, n, q);
      ReturnsBecomeFlag(Counting(o), s, n);
      LocalAll(q, o, body[1..], r.st, true);
      LocalAll(q, o, rest, r.st, true);
      BlockHead(Counting(o), body, after, n, true);
    } else {
      o := BadPath(s, n);
      BlockHead(Counting(o), body, after, n, true);
      NeverReturns(Counting(o), s, n, true);
      var r: Result<nat> := Exec(Counting(o), Explicit(s), n, true);
      LocalAll(o, o, rest, r.st, r.enabled);
    }
  }

  /** The transformed form agrees with the program, whatever actions and conditions do, if and only if the
      program is of the right form. */
  lemma ReturnsExactly(s: Stmt)
    requires Source(s)
    ensures (forall m: Interp<nat>, st: nat :: Agrees(m, s, st)) <==> Right(s)
  {
    if Right(s) {
      forall m: Interp<nat>, st: nat ensures Agrees(m, s, st) {
        ReturnsBecomeFlag(m, s, st);
      }
    } else {
      var o := BadPath(s, 0);
      assert !Agrees(Counting(o), s, 0);
    }
  }

  /** No return inside a loop. */
  predicate LoopFreeReturns(s: Stmt) {
    match s
    case If(_, a, b) => LoopFreeReturns(a) && LoopFreeReturns(b)
    case Block(body) => LoopFreeReturnsAll(body)
    case Repeat(_, b) => !HasReturn(b)
    case _ => true
  }

  predicate LoopFreeReturnsAll(body: seq<Stmt>) {
    body == [] || (LoopFreeReturns(body[0]) && LoopFreeReturnsAll(body[1..]))
  }

  /** Programs that return outside loops only are of the right form. */
  lemma {:induction false} ReturnsOutsideLoops(s: Stmt)
    ensures LoopFreeReturns(s) ==> Right(s)
    ensures !HasReturn(s) ==> Right(s) && !CanReturn(s)
  {
    match s
    case If(_, a, b) =>
      ReturnsOutsideLoops(a);
      ReturnsOutsideLoops(b);
    case Block(body) => BlocksOutsideLoops(body);
    case Repeat(_, b) => ReturnsOutsideLoops(b);
    case _ =>
  }

  lemma {:induction false} BlocksOutsideLoops(body: seq<Stmt>)
    ensures LoopFreeReturnsAll(body) ==> RightAll(body)
    ensures !AnyReturn(body) ==> RightAll(body) && !CanReturnIn(body)
  {
    if body != [] {
      ReturnsOutsideLoops(body[0]);
      BlocksOutsideLoops(body[1..]);
    }
  }

  /** A loop may return first thing, but not after an action. */
  lemma ReturnInLoop()
    ensures Right(Repeat(2, Block([Return]))) && !Right(Repeat(2, Block([Act(0), Return])))
    ensures exists m: Interp<nat>, st: nat :: !Agrees(m, Repeat(2, Block([Act(0), Return])), st)
  {
    var s := Repeat(2, Block([Act(0), Return]));
    assert [Act(0), Return][1..] == [Return];
    assert CanReturnIn([Return]) && CanReturnIn([Act(0), Return]);
    assert Source(s);
    ReturnsExactly(s);
  }
}
