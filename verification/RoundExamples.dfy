/** Threads that alternate between a state that computes and a state that waits: how many of them the
    default sequence turns into a superloop. */
module RoundExamples {
  import opened Prelude
  import opened StateMachine
  import opened FallOut
  import opened PolicyRounds
  import opened FallThrough
  import opened OpenThread

  /** Before state 0 the thread waits. */
  function ResetCode(): seq<Stmt> {
    [Wait(1), Act(SetState(Const(0)))]
  }

  /** State k computes if k is even and waits if it is odd, and the next state follows. */
  function StateBody(k: nat, n: nat): seq<Stmt> {
    var next := Act(SetState(Const(if k + 1 < n then k + 1 else 0)));
    if k % 2 == 0 then [Act(Compute(k)), next] else [Wait(1), next]
  }

  function StateBodies(n: nat): Blocks {
    map k: nat | k < n :: StateBody(k, n)
  }

  function Labelling(n: nat): (lm: LabelMap)
    ensures forall k: nat :: k in lm <==> k < n
    ensures forall k :: k in lm ==> lm[k] == k
  {
    if n == 0 then map[] else Labelling(n - 1)[n - 1 := n - 1]
  }

  function States(n: nat): (s: seq<nat>)
    ensures |s| == n
  {
    seq(n, i => i)
  }

  lemma BodyIs(k: nat, n: nat)
    ensures if k % 2 == 0 then Combable(StateBody(k, n)) else Yields(StateBody(k, n)) && !Combable(StateBody(k, n))
    ensures Straight(StateBody(k, n))
  {
    if k % 2 != 0 {
      assert StateBody(k, n)[0] == Wait(1);
    }
  }

  lemma AlternatingIsInitial(n: nat)
    requires n > 0
    ensures Initial(StateBodies(n), Labelling(n), ResetCode(), States(n))
  {
    hide StateBody;
    hide Combable;
    forall k | k in StateBodies(n) ensures StateOk(StateBodies(n), Labelling(n), k) && Straight(StateBodies(n)[k]) && k in States(n) {
      BodyIs(k, n);
      assert States(n)[k] == k;
    }
    assert ResetCode()[0] == Wait(1);
    assert Yields(ResetCode());
  }

  lemma {:induction false} EnoughRounds(n: nat, a: nat)
    requires a <= n
    ensures Splits(StateBodies(2 * n), States(2 * n)[2 * a..], n - a)
    decreases n - a
  {
    hide StateBody;
    hide Combable;
    var b, ks := StateBodies(2 * n), States(2 * n)[2 * a..];
    if a < n {
      EnoughRounds(n, a + 1);
      assert ks[2..] == States(2 * n)[2 * (a + 1)..];
      BodyIs(2 * a, 2 * n);
      BodyIs(2 * a + 1, 2 * n);
      assert ks[0] == 2 * a && ks[1] == 2 * a + 1;
      assert CutAt(b, ks, 1, 2);
    }
  }

  /** Each round deals with one pair at most. */
  lemma {:induction false} RoundsNeeded(n: nat, a: nat, m: nat)
    requires a <= n && Splits(StateBodies(2 * n), States(2 * n)[2 * a..], m)
    ensures m >= n - a
    decreases m
  {
    hide StateBodies;
    hide States;
    hide Splits;
    if a < n {
      PairAt(n, a);
      var ks := States(2 * n)[2 * a..];
      OnePairLess(StateBodies(2 * n), ks, m);
      TailOfTail(States(2 * n), 2 * a);
      RoundsNeeded(n, a + 1, m - 1);
    }
  }

  lemma TailOfTail(ks: seq<nat>, i: nat)
    requires i + 2 <= |ks|
    ensures ks[i..][2..] == ks[i + 2..]
  {
  }

  /** A pair at the front takes a round. */
  lemma OnePairLess(b: Blocks, ks: seq<nat>, m: nat)
    requires |ks| >= 2 && IsComb(b, ks[0]) && !IsComb(b, ks[1]) && (|ks| > 2 ==> IsComb(b, ks[2])) && Splits(b, ks, m)
    ensures m > 0 && Splits(b, ks[2..], m - 1)
  {
    hide CutAt;
    hide IsComb;
    var i: nat, j: nat :| j <= |ks| && CutAt(b, ks, i, j) && Splits(b, ks[j..], m - 1);
    CutTakesPair(b, ks, i, j);
    SplitsSuffix(b, ks[j..], m - 1, 2 - j);
    assert ks[j..][2 - j..] == ks[2..];
  }

  lemma CutTakesPair(b: Blocks, ks: seq<nat>, i: nat, j: nat)
    requires |ks| >= 2 && IsComb(b, ks[0]) && !IsComb(b, ks[1]) && (|ks| > 2 ==> IsComb(b, ks[2])) && CutAt(b, ks, i, j)
    ensures j <= 2
  {
    hide IsComb;
  }

  lemma PairAt(n: nat, a: nat)
    requires a < n
    ensures var b, ks := StateBodies(2 * n), States(2 * n)[2 * a..];
            |ks| >= 2 && IsComb(b, ks[0]) && !IsComb(b, ks[1]) && (|ks| > 2 ==> IsComb(b, ks[2]))
  {
    hide StateBody;
    hide Combable;
    BodyIs(2 * a, 2 * n);
    BodyIs(2 * a + 1, 2 * n);
    BodyIs(2 * a + 2, 2 * n);
  }

  /** Of these threads those of at most ten states become a superloop, and the others do not. */
  lemma FivePairsSuffice(n: nat)
    requires n > 0
    ensures FallThroughLoop(StateBodies(2 * n), Labelling(2 * n), ResetCode(), States(2 * n)).Some? <==> n <= 5
  {
    hide StateBodies;
    hide ResetCode;
    hide Labelling;
    hide Splits;
    hide Initial;
    hide FallThroughResult;
    var b, ks := StateBodies(2 * n), States(2 * n);
    AlternatingIsInitial(2 * n);
    LoopExactlyWhenSplit(b, Labelling(2 * n), ResetCode(), ks);
    assert ks[2 * 0..] == ks;
    EnoughRounds(n, 0);
    if Splits(b, ks, ROUNDS) {
      RoundsNeeded(n, 0, ROUNDS);
    } else if n <= 5 {
      MoreRounds(b, ks, n, ROUNDS);
    }
  }

  /** A round may find nothing to do. */
  lemma {:induction false} MoreRounds(b: Blocks, ks: seq<nat>, n: nat, m: nat)
    requires Splits(b, ks, n) && n <= m
    ensures Splits(b, ks, m)
    decreases m
  {
    if n < m {
      MoreRounds(b, ks, n, m - 1);
      assert CutAt(b, ks, 0, 0);
      assert ks[0..] == ks;
    }
  }

  /** Five pairs of states and six. */
  lemma TenStatesButNotTwelve()
    ensures FallThroughLoop(StateBodies(10), Labelling(10), ResetCode(), States(10)).Some?
    ensures FallThroughLoop(StateBodies(12), Labelling(12), ResetCode(), States(12)).None?
  {
    hide FallThroughLoop;
    FivePairsSuffice(5);
    FivePairsSuffice(6);
  }
}
