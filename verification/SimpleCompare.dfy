/** Comparing trees whose nodes hold sequences, collections and single children.

    A collection's elements have no order of their own: the comparison sorts them, by itself, first. */
module SimpleCompare {

  /** `key` stands for a node's type and value, which one total order compares. */
  datatype Node = Node(key: int, items: seq<Item>)

  datatype Item = Sequence(elems: seq<Node>) | Collection(elems: seq<Node>) | Singular(node: Node)

  function Max(a: nat, b: nat): nat {
    if a < b then b else a
  }

  function Height(n: Node): nat {
    1 + HeightItems(n.items)
  }

  function HeightItems(items: seq<Item>): nat {
    if items == [] then 0 else Max(HeightItem(items[0]), HeightItems(items[1..]))
  }

  function HeightItem(x: Item): nat {
    match x
    case Sequence(s) => HeightAll(s)
    case Collection(s) => HeightAll(s)
    case Singular(n) => Height(n)
  }

  function HeightAll(s: seq<Node>): nat {
    if s == [] then 0 else Max(Height(s[0]), HeightAll(s[1..]))
  }

  function Kind(x: Item): int {
    match x
    case Sequence(_) => 0
    case Collection(_) => 1
    case Singular(_) => 2
  }

  /** The first difference decides. */
  function Then(d: int, e: int): int {
    if d != 0 then d else e
  }

  /** Negative, zero or positive: type and value first, then the number of items, then the items. */
  function Compare(l: Node, r: Node): int
    decreases Max(Height(l), Height(r)), 0, 0
  {
    if l.key != r.key then l.key - r.key
    else if |l.items| != |r.items| then |l.items| - |r.items|
    else CompareItems(l.items, r.items)
  }

  function CompareItems(ls: seq<Item>, rs: seq<Item>): int
    requires |ls| == |rs|
    decreases Max(HeightItems(ls), HeightItems(rs)), 6, |ls|
  {
    if ls == [] then 0 else Then(CompareItem(ls[0], rs[0]), CompareItems(ls[1..], rs[1..]))
  }

  /** Nodes of one type have items of the same kinds; other pairs are told apart by kind. */
  function CompareItem(x: Item, y: Item): int
    decreases Max(HeightItem(x), HeightItem(y)), 5, 0
  {
    match (x, y)
    case (Sequence(s), Sequence(t)) => if |s| != |t| then |s| - |t| else CompareSeq(s, t)
    case (Collection(s), Collection(t)) => if |s| != |t| then |s| - |t| else LexDiff(Ordering(s), Ordering(t))
    case (Singular(m), Singular(n)) => Compare(m, n)
    case _ => Kind(x) - Kind(y)
  }

  function CompareSeq(s: seq<Node>, t: seq<Node>): int
    requires |s| == |t|
    decreases Max(HeightAll(s), HeightAll(t)), 1, |s|
  {
    if s == [] then 0 else Then(Compare(s[0], t[0]), CompareSeq(s[1..], t[1..]))
  }

  /** Insert above every element that is not greater, as a multiset does. */
  function Insert(x: Node, s: seq<Node>): (r: seq<Node>)
    ensures |r| == |s| + 1 && HeightAll(r) <= Max(Height(x), HeightAll(s))
    decreases Max(Height(x), HeightAll(s)), 1, |s|
  {
    if s == [] then [x]
    else if Compare(x, s[0]) < 0 then [x] + s
    else [s[0]] + Insert(x, s[1..])
  }

  /** Insert elements one after the other. */
  function Filled(s: seq<Node>, l: seq<Node>): (r: seq<Node>)
    ensures |r| == |s| + |l| && HeightAll(r) <= Max(HeightAll(s), HeightAll(l))
    decreases Max(HeightAll(s), HeightAll(l)), 2, |l|
  {
    if l == [] then s else Filled(Insert(l[0], s), l[1..])
  }

  function Ordering(l: seq<Node>): (r: seq<Node>)
    ensures |r| == |l| && HeightAll(r) <= HeightAll(l)
    decreases HeightAll(l), 3, 0
  {
    Filled([], l)
  }

  /** Whether s comes before t when the first difference decides. */
  predicate LexLess(s: seq<Node>, t: seq<Node>)
    decreases Max(HeightAll(s), HeightAll(t)), 1, |s|
  {
    t != [] && (s == [] || Compare(s[0], t[0]) < 0 || (!(Compare(t[0], s[0]) < 0) && LexLess(s[1..], t[1..])))
  }

  /** Positive for less: the reverse of the order on nodes. */
  function LexDiff(s: seq<Node>, t: seq<Node>): int
    decreases Max(HeightAll(s), HeightAll(t)), 2, |s| + 1
  {
    (if LexLess(s, t) then 1 else 0) - (if LexLess(t, s) then 1 else 0)
  }

  // ---------- the comparison is a total preorder ----------

  /** Turning the arguments round turns the result round. */
  lemma {:induction false} Antisymmetric(l: Node, r: Node)
    ensures Compare(l, r) == -Compare(r, l)
    decreases Max(Height(l), Height(r)), 0, 0
  {
    if l.key == r.key && |l.items| == |r.items| {
      AntisymmetricItems(l.items, r.items);
    }
  }

  lemma {:induction false} AntisymmetricItems(ls: seq<Item>, rs: seq<Item>)
    requires |ls| == |rs|
    ensures CompareItems(ls, rs) == -CompareItems(rs, ls)
    decreases Max(HeightItems(ls), HeightItems(rs)), 6, |ls|
  {
    if ls != [] {
      AntisymmetricItem(ls[0], rs[0]);
      AntisymmetricItems(ls[1..], rs[1..]);
    }
  }

  lemma {:induction false} AntisymmetricItem(x: Item, y: Item)
    ensures CompareItem(x, y) == -CompareItem(y, x)
    decreases Max(HeightItem(x), HeightItem(y)), 5, 0
  {
    match (x, y)
    case (Sequence(s), Sequence(t)) =>
      if |s| == |t| {
        AntisymmetricSeq(s, t);
      }
    case (Singular(m), Singular(n)) => Antisymmetric(m, n);
    case _ =>
  }

  lemma {:induction false} AntisymmetricSeq(s: seq<Node>, t: seq<Node>)
    requires |s| == |t|
    ensures CompareSeq(s, t) == -CompareSeq(t, s)
    decreases Max(HeightAll(s), HeightAll(t)), 1, |s|
  {
    if s != [] {
      Antisymmetric(s[0], t[0]);
      AntisymmetricSeq(s[1..], t[1..]);
    }
  }

  /** The node with the lesser type or value comes first, and of two alike the one with fewer items. */
  lemma LesserComesFirst(l: Node, r: Node)
    ensures l.key < r.key ==> Compare(l, r) < 0
    ensures l.key == r.key && |l.items| < |r.items| ==> Compare(l, r) < 0
  {
  }

  /** Of nodes with as many items the first item that differs decides, with its own sign. */
  lemma {:induction false} FirstItemDecides(l: Node, r: Node, i: nat)
    requires l.key == r.key && i < |l.items| == |r.items|
    requires forall j :: 0 <= j < i ==> CompareItem(l.items[j], r.items[j]) == 0
    requires CompareItem(l.items[i], r.items[i]) != 0
    ensures Compare(l, r) < 0 <==> CompareItem(l.items[i], r.items[i]) < 0
    ensures Compare(l, r) > 0 <==> CompareItem(l.items[i], r.items[i]) > 0
  {
    FirstOfItems(l.items, r.items, i);
  }

  lemma {:induction false} FirstOfItems(ls: seq<Item>, rs: seq<Item>, i: nat)
    requires i < |ls| == |rs|
    requires forall j :: 0 <= j < i ==> CompareItem(ls[j], rs[j]) == 0
    requires CompareItem(ls[i], rs[i]) != 0
    ensures CompareItems(ls, rs) == CompareItem(ls[i], rs[i])
    decreases i
  {
    hide CompareItem;
    if i > 0 {
      FirstOfItems(ls[1..], rs[1..], i - 1);
    }
  }

  /** A shorter container comes first, and a single child decides as its node does. */
  lemma ShorterComesFirst(x: Item, y: Item)
    ensures x.Sequence? && y.Sequence? && |x.elems| < |y.elems| ==> CompareItem(x, y) < 0
    ensures x.Collection? && y.Collection? && |x.elems| < |y.elems| ==> CompareItem(x, y) < 0
    ensures x.Singular? && y.Singular? ==> (CompareItem(x, y) < 0 <==> Compare(x.node, y.node) < 0)
  {
    hide Compare;
  }

  /** Of sequences of one length the first element that differs decides, with its own sign. */
  lemma FirstElementDecides(s: seq<Node>, t: seq<Node>, i: nat)
    requires i < |s| == |t|
    requires forall j :: 0 <= j < i ==> Compare(s[j], t[j]) == 0
    requires Compare(s[i], t[i]) != 0
    ensures CompareItem(Sequence(s), Sequence(t)) < 0 <==> Compare(s[i], t[i]) < 0
    ensures CompareItem(Sequence(s), Sequence(t)) > 0 <==> Compare(s[i], t[i]) > 0
  {
    hide Compare;
    FirstOfSeq(s, t, i);
  }

  lemma {:induction false} FirstOfSeq(s: seq<Node>, t: seq<Node>, i: nat)
    requires i < |s| == |t|
    requires forall j :: 0 <= j < i ==> Compare(s[j], t[j]) == 0
    requires Compare(s[i], t[i]) != 0
    ensures CompareSeq(s, t) == Compare(s[i], t[i])
    decreases i
  {
    hide Compare;
    if i > 0 {
      FirstOfSeq(s[1..], t[1..], i - 1);
    }
  }

  /** Of collections of one length the first element that differs once both are sorted decides, with the
      sign reversed. */
  lemma FirstSortedDecides(s: seq<Node>, t: seq<Node>, i: nat)
    requires i < |s| == |t|
    requires forall j :: 0 <= j < i ==> Compare(Ordering(s)[j], Ordering(t)[j]) == 0
    requires Compare(Ordering(s)[i], Ordering(t)[i]) != 0
    ensures CompareItem(Collection(s), Collection(t)) < 0 <==> Compare(Ordering(s)[i], Ordering(t)[i]) > 0
    ensures CompareItem(Collection(s), Collection(t)) > 0 <==> Compare(Ordering(s)[i], Ordering(t)[i]) < 0
  {
    hide Compare;
    hide LexDiff;
    hide Ordering;
    FirstOfLex(Ordering(s), Ordering(t), i);
  }

  lemma {:induction false} FirstOfLex(s: seq<Node>, t: seq<Node>, i: nat)
    requires i < |s| == |t|
    requires forall j :: 0 <= j < i ==> Compare(s[j], t[j]) == 0
    requires Compare(s[i], t[i]) != 0
    ensures LexDiff(s, t) == if Compare(s[i], t[i]) < 0 then 1 else -1
    decreases i
  {
    hide Compare;
    hide LexDiff;
    LexHead(s, t);
    if i > 0 {
      FirstOfLex(s[1..], t[1..], i - 1);
    }
  }

  /** For sequences of one length the first difference decides, in reverse. */
  lemma LexHead(s: seq<Node>, t: seq<Node>)
    requires |s| == |t|
    ensures s == [] ==> LexDiff(s, t) == 0
    ensures s != [] ==> LexDiff(s, t) == (var d := Compare(s[0], t[0]);
                                          if d < 0 then 1 else if d > 0 then -1 else LexDiff(s[1..], t[1..]))
  {
    hide Compare;
    if s != [] {
      Antisymmetric(s[0], t[0]);
    }
  }

  /** How the comparisons of three things must fit together. */
  predicate Coherent(xy: int, yz: int, xz: int) {
    && (xy <= 0 && yz <= 0 ==> xz <= 0 && (xz == 0 <==> xy == 0 && yz == 0))
    && (xy >= 0 && yz >= 0 ==> xz >= 0 && (xz == 0 <==> xy == 0 && yz == 0))
  }

  function Max3(a: nat, b: nat, c: nat): nat {
    Max(a, Max(b, c))
  }

  /** The comparison is transitive, strictly so when either step is strict. */
  lemma {:induction false} Transitive(a: Node, b: Node, c: Node)
    ensures Coherent(Compare(a, b), Compare(b, c), Compare(a, c))
    decreases Max3(Height(a), Height(b), Height(c)), 0, 0
  {
    hide CompareItems;
    if a.key == b.key == c.key && |a.items| == |b.items| == |c.items| {
      TransitiveItems(a.items, b.items, c.items);
    }
  }

  lemma {:induction false} TransitiveItems(ls: seq<Item>, ms: seq<Item>, rs: seq<Item>)
    requires |ls| == |ms| == |rs|
    ensures Coherent(CompareItems(ls, ms), CompareItems(ms, rs), CompareItems(ls, rs))
    decreases Max3(HeightItems(ls), HeightItems(ms), HeightItems(rs)), 6, |ls|
  {
    hide CompareItem;
    if ls != [] {
      TransitiveItem(ls[0], ms[0], rs[0]);
      TransitiveItems(ls[1..], ms[1..], rs[1..]);
    }
  }

  lemma {:induction false} TransitiveItem(x: Item, y: Item, z: Item)
    ensures Coherent(CompareItem(x, y), CompareItem(y, z), CompareItem(x, z))
    decreases Max3(HeightItem(x), HeightItem(y), HeightItem(z)), 5, 0
  {
    hide Compare;
    hide CompareSeq;
    hide LexDiff;
    hide Ordering;
    if Kind(x) == Kind(y) == Kind(z) {
      match x
      case Singular(n) => Transitive(n, y.node, z.node);
      case Sequence(s) =>
        if |s| == |y.elems| == |z.elems| {
          TransitiveSeq(s, y.elems, z.elems);
        }
      case Collection(s) =>
        if |s| == |y.elems| == |z.elems| {
          TransitiveLex(Ordering(s), Ordering(y.elems), Ordering(z.elems));
        }
    }
  }

  lemma {:induction false} TransitiveSeq(s: seq<Node>, t: seq<Node>, u: seq<Node>)
    requires |s| == |t| == |u|
    ensures Coherent(CompareSeq(s, t), CompareSeq(t, u), CompareSeq(s, u))
    decreases Max3(HeightAll(s), HeightAll(t), HeightAll(u)), 1, |s|
  {
    hide Compare;
    if s != [] {
      Transitive(s[0], t[0], u[0]);
      TransitiveSeq(s[1..], t[1..], u[1..]);
    }
  }

  lemma {:induction false} TransitiveLex(s: seq<Node>, t: seq<Node>, u: seq<Node>)
    requires |s| == |t| == |u|
    ensures Coherent(LexDiff(s, t), LexDiff(t, u), LexDiff(s, u))
    decreases Max3(HeightAll(s), HeightAll(t), HeightAll(u)), 1, |s|
  {
    hide Compare;
    hide LexDiff;
    LexHead(s, t);
    LexHead(t, u);
    LexHead(s, u);
    if s != [] {
      Transitive(s[0], t[0], u[0]);
      TransitiveLex(s[1..], t[1..], u[1..]);
    }
  }

  /** A node compares equal to itself, so comparing addresses first changes nothing. */
  lemma SelfIsEqual(n: Node)
    ensures Compare(n, n) == 0
  {
    Antisymmetric(n, n);
  }

  // ---------- sorting ----------

  ghost predicate Sorted(s: seq<Node>) {
    forall i, j :: 0 <= i < j < |s| ==> Compare(s[i], s[j]) <= 0
  }

  lemma {:induction false} InsertSorts(x: Node, s: seq<Node>)
    requires Sorted(s)
    ensures Sorted(Insert(x, s)) && multiset(Insert(x, s)) == multiset(s) + multiset{x}
    decreases |s|
  {
    hide Compare;
    if s != [] {
      assert s == [s[0]] + s[1..];
      if Compare(x, s[0]) < 0 {
        var r := [x] + s;
        forall i, j | 0 <= i < j < |r| ensures Compare(r[i], r[j]) <= 0 {
          if i == 0 {
            Transitive(x, s[0], s[j - 1]);
            SelfIsEqual(s[0]);
          }
        }
      } else {
        InsertSorts(x, s[1..]);
        var rest := Insert(x, s[1..]);
        Antisymmetric(x, s[0]);
        forall y | y in rest ensures Compare(s[0], y) <= 0 {
          assert y in multiset(rest);
          if y != x {
            assert y in s[1..];
          }
        }
        SortedCons(s[0], rest);
      }
    }
  }

  lemma SortedCons(x: Node, s: seq<Node>)
    requires Sorted(s) && forall y :: y in s ==> Compare(x, y) <= 0
    ensures Sorted([x] + s)
  {
    hide Compare;
  }

  /** The new element goes behind every element that is not greater. */
  lemma {:induction false} InsertedAt(x: Node, s: seq<Node>) returns (i: nat)
    requires Sorted(s)
    ensures i <= |s| && Insert(x, s) == s[..i] + [x] + s[i..]
    ensures forall j :: 0 <= j < |s| ==> (j < i <==> Compare(x, s[j]) >= 0)
    decreases |s|
  {
    hide Compare;
    i := 0;
    if s != [] && Compare(x, s[0]) >= 0 {
      SortedTail(s);
      hide Sorted;
      var k := InsertedAt(x, s[1..]);
      i := k + 1;
      Placed(s, x, k);
      forall j | 0 < j < |s| ensures j < i <==> Compare(x, s[j]) >= 0 {
        assert s[1..][j - 1] == s[j];
      }
    } else {
      forall j | 0 < j < |s| ensures Compare(x, s[j]) < 0 {
        Transitive(x, s[0], s[j]);
      }
    }
  }

  lemma SortedTail(s: seq<Node>)
    requires Sorted(s) && s != []
    ensures Sorted(s[1..])
  {
    hide Compare;
  }

  lemma Placed(s: seq<Node>, x: Node, k: nat)
    requires s != [] && k <= |s[1..]|
    ensures [s[0]] + (s[1..][..k] + [x] + s[1..][k..]) == s[..k + 1] + [x] + s[k + 1..]
  {
  }

  lemma {:induction false} FilledSorts(s: seq<Node>, l: seq<Node>)
    requires Sorted(s)
    ensures Sorted(Filled(s, l)) && multiset(Filled(s, l)) == multiset(s) + multiset(l)
    decreases |l|
  {
    hide Sorted;
    hide Insert;
    if l != [] {
      InsertSorts(l[0], s);
      FilledSorts(Insert(l[0], s), l[1..]);
      assert l == [l[0]] + l[1..];
    }
  }

  /** The multiset holds the collection, in order. */
  lemma OrderingSorts(l: seq<Node>)
    ensures Sorted(Ordering(l)) && multiset(Ordering(l)) == multiset(l)
  {
    FilledSorts([], l);
  }

  // ---------- counting equals ----------

  function One(p: bool): nat {
    if p then 1 else 0
  }

  /** How many elements compare equal to x. */
  function Count(s: seq<Node>, x: Node): nat {
    if s == [] then 0 else One(Compare(x, s[0]) == 0) + Count(s[1..], x)
  }

  ghost predicate SameCounts(s: seq<Node>, t: seq<Node>) {
    forall x :: Count(s, x) == Count(t, x)
  }

  function Without(s: seq<Node>, j: nat): seq<Node>
    requires j < |s|
  {
    s[..j] + s[j + 1..]
  }

  lemma {:induction false} CountAppend(s: seq<Node>, t: seq<Node>, x: Node)
    ensures Count(s + t, x) == Count(s, x) + Count(t, x)
    decreases |s|
  {
    hide Compare;
    if s == [] {
      assert s + t == t;
    } else {
      assert (s + t)[1..] == s[1..] + t;
      CountAppend(s[1..], t, x);
    }
  }

  lemma CountWithout(s: seq<Node>, j: nat, x: Node)
    requires j < |s|
    ensures Count(s, x) == One(Compare(x, s[j]) == 0) + Count(Without(s, j), x)
  {
    hide Compare;
    assert s == s[..j] + s[j..];
    CountAppend(s[..j], s[j..], x);
    CountAppend(s[..j], s[j + 1..], x);
    assert s[j..][1..] == s[j + 1..];
  }

  lemma MultisetWithout(s: seq<Node>, j: nat)
    requires j < |s|
    ensures multiset(Without(s, j)) == multiset(s) - multiset{s[j]}
  {
    assert s == s[..j] + ([s[j]] + s[j + 1..]);
  }

  lemma WithoutIsShorter(s: seq<Node>, j: nat)
    requires j < |s|
    ensures |Without(s, j)| == |s| - 1
  {
  }

  /** Counting does not see the order of the elements. */
  lemma {:induction false} CountOfMultiset(s: seq<Node>, t: seq<Node>, x: Node)
    requires multiset(s) == multiset(t)
    ensures Count(s, x) == Count(t, x)
    decreases |s|
  {
    hide Compare;
    hide Count;
    hide Without;
    if s == [] {
      assert |multiset(t)| == 0;
    } else {
      assert s[0] in multiset(s);
      var j :| 0 <= j < |t| && t[j] == s[0];
      CountWithout(s, 0, x);
      CountWithout(t, j, x);
      MultisetWithout(s, 0);
      MultisetWithout(t, j);
      WithoutIsShorter(s, 0);
      CountOfMultiset(Without(s, 0), Without(t, j), x);
    }
  }

  lemma {:induction false} CountFinds(s: seq<Node>, x: Node) returns (j: nat)
    requires Count(s, x) > 0
    ensures j < |s| && Compare(x, s[j]) == 0
  {
    hide Compare;
    if Compare(x, s[0]) == 0 {
      j := 0;
    } else {
      j := CountFinds(s[1..], x);
      j := j + 1;
    }
  }

  /** Equals are interchangeable when counting. */
  lemma EqualsCountAlike(a: Node, b: Node, x: Node)
    requires Compare(a, b) == 0
    ensures Compare(x, a) == 0 <==> Compare(x, b) == 0
  {
    hide Compare;
    Transitive(x, a, b);
    Antisymmetric(a, b);
    Transitive(x, b, a);
  }

  lemma RemoveEquals(s: seq<Node>, i: nat, t: seq<Node>, j: nat)
    requires i < |s| && j < |t| && Compare(s[i], t[j]) == 0
    ensures SameCounts(s, t) <==> SameCounts(Without(s, i), Without(t, j))
  {
    hide Compare;
    hide Count;
    var p, q := Without(s, i), Without(t, j);
    forall x ensures Count(s, x) == Count(t, x) <==> Count(p, x) == Count(q, x) {
      CountWithout(s, i, x);
      CountWithout(t, j, x);
      EqualsCountAlike(s[i], t[j], x);
    }
  }

  lemma HeadsMeet(s: seq<Node>, t: seq<Node>)
    requires Sorted(s) && Sorted(t) && SameCounts(s, t) && s != [] && t != []
    ensures Compare(s[0], t[0]) == 0
  {
    hide Compare;
    var x, y := s[0], t[0];
    SelfIsEqual(x);
    SelfIsEqual(y);
    assert Count(s, x) > 0 && Count(t, y) > 0;
    var j := CountFinds(t, x);
    var i := CountFinds(s, y);
    Antisymmetric(x, t[j]);
    Antisymmetric(y, s[i]);
    Transitive(y, t[j], x);
    Transitive(x, s[i], y);
    Antisymmetric(x, y);
  }

  /** Sorted sequences with the same elements, up to equality, agree place by place. */
  lemma {:induction false} SortedAgree(s: seq<Node>, t: seq<Node>)
    requires |s| == |t| && Sorted(s) && Sorted(t)
    ensures LexDiff(s, t) == 0 <==> SameCounts(s, t)
    decreases |s|
  {
    hide Compare;
    hide LexDiff;
    LexHead(s, t);
    if s != [] {
      if Compare(s[0], t[0]) == 0 {
        RemoveEquals(s, 0, t, 0);
        assert Without(s, 0) == s[1..] && Without(t, 0) == t[1..];
        SortedAgree(s[1..], t[1..]);
      } else if SameCounts(s, t) {
        HeadsMeet(s, t);
      }
    } else {
      assert SameCounts(s, t);
    }
  }

  /** Collections compare equal exactly when they hold the same elements, up to equality. */
  lemma CollectionsCompare(s: seq<Node>, t: seq<Node>)
    requires |s| == |t|
    ensures LexDiff(Ordering(s), Ordering(t)) == 0 <==> SameCounts(s, t)
  {
    hide Compare;
    hide LexDiff;
    hide Ordering;
    hide Count;
    OrderingSorts(s);
    OrderingSorts(t);
    SortedAgree(Ordering(s), Ordering(t));
    forall x ensures Count(Ordering(s), x) == Count(s, x) && Count(Ordering(t), x) == Count(t, x) {
      CountOfMultiset(Ordering(s), s, x);
      CountOfMultiset(Ordering(t), t, x);
    }
  }

  // ---------- equal means: the same but for the order of collections ----------

  /** Equality of trees up to reordering within collections, without reference to the comparison. */
  ghost predicate Same(l: Node, r: Node) {
    l.key == r.key && SameItems(l.items, r.items)
  }

  ghost predicate SameItems(ls: seq<Item>, rs: seq<Item>) {
    if ls == [] then rs == [] else rs != [] && SameItem(ls[0], rs[0]) && SameItems(ls[1..], rs[1..])
  }

  ghost predicate SameItem(x: Item, y: Item) {
    match x
    case Sequence(s) => y.Sequence? && SameSeq(s, y.elems)
    case Collection(s) => y.Collection? && SameCollection(s, y.elems)
    case Singular(n) => y.Singular? && Same(n, y.node)
  }

  ghost predicate SameSeq(s: seq<Node>, t: seq<Node>) {
    if s == [] then t == [] else t != [] && Same(s[0], t[0]) && SameSeq(s[1..], t[1..])
  }

  /** Each element has a partner of its own. */
  ghost predicate SameCollection(s: seq<Node>, t: seq<Node>) {
    if s == [] then t == []
    else exists j :: 0 <= j < |t| && Same(s[0], t[j]) && SameCollection(s[1..], Without(t, j))
  }

  /** The comparison gives 0 exactly for trees that are equal up to reordering within collections. */
  lemma {:induction false} EqualExactlyWhenSame(l: Node, r: Node)
    ensures Compare(l, r) == 0 <==> Same(l, r)
    decreases l
  {
    hide CompareItems;
    if l.key == r.key {
      SameItemsLength(l.items, r.items);
      if |l.items| == |r.items| {
        ItemsEqualExactlyWhenSame(l.items, r.items);
      }
    }
  }

  lemma {:induction false} SameItemsLength(ls: seq<Item>, rs: seq<Item>)
    ensures SameItems(ls, rs) ==> |ls| == |rs|
    decreases |ls|
  {
    hide SameItem;
    if ls != [] && rs != [] {
      SameItemsLength(ls[1..], rs[1..]);
    }
  }

  lemma {:induction false} ItemsEqualExactlyWhenSame(ls: seq<Item>, rs: seq<Item>)
    requires |ls| == |rs|
    ensures CompareItems(ls, rs) == 0 <==> SameItems(ls, rs)
    decreases ls
  {
    hide CompareItem;
    hide SameItem;
    if ls != [] {
      ItemEqualExactlyWhenSame(ls[0], rs[0]);
      ItemsEqualExactlyWhenSame(ls[1..], rs[1..]);
    }
  }

  lemma {:induction false} ItemEqualExactlyWhenSame(x: Item, y: Item)
    ensures CompareItem(x, y) == 0 <==> SameItem(x, y)
    decreases x
  {
    hide Compare;
    hide CompareSeq;
    hide LexDiff;
    hide Ordering;
    hide SameSeq;
    hide SameCollection;
    hide SameCounts;
    if Kind(x) == Kind(y) {
      match x
      case Singular(n) => EqualExactlyWhenSame(n, y.node);
      case Sequence(s) =>
        SameSeqLength(s, y.elems);
        if |s| == |y.elems| {
          SeqEqualExactlyWhenSame(s, y.elems);
        }
      case Collection(s) =>
        SameCollectionLength(s, y.elems);
        if |s| == |y.elems| {
          CollectionsCompare(s, y.elems);
          CollectionEqualExactlyWhenSame(s, y.elems);
        }
    }
  }

  lemma {:induction false} SameSeqLength(s: seq<Node>, t: seq<Node>)
    ensures SameSeq(s, t) ==> |s| == |t|
    decreases |s|
  {
    hide Same;
    if s != [] && t != [] {
      SameSeqLength(s[1..], t[1..]);
    }
  }

  lemma {:induction false} SameCollectionLength(s: seq<Node>, t: seq<Node>)
    ensures SameCollection(s, t) ==> |s| == |t|
    decreases s
  {
    hide Same;
    if s != [] && SameCollection(s, t) {
      var j :| 0 <= j < |t| && Same(s[0], t[j]) && SameCollection(s[1..], Without(t, j));
      SameCollectionLength(s[1..], Without(t, j));
    }
  }

  lemma {:induction false} SeqEqualExactlyWhenSame(s: seq<Node>, t: seq<Node>)
    requires |s| == |t|
    ensures CompareSeq(s, t) == 0 <==> SameSeq(s, t)
    decreases s
  {
    hide Compare;
    hide Same;
    if s != [] {
      EqualExactlyWhenSame(s[0], t[0]);
      SeqEqualExactlyWhenSame(s[1..], t[1..]);
    }
  }

  lemma {:induction false} CollectionEqualExactlyWhenSame(s: seq<Node>, t: seq<Node>)
    requires |s| == |t|
    ensures SameCounts(s, t) <==> SameCollection(s, t)
    decreases s
  {
    hide Compare;
    hide Same;
    hide SameCounts;
    if s == [] {
      NothingCounts(s, t);
    } else {
      if SameCounts(s, t) {
        var j := Partner(s, t);
        EqualExactlyWhenSame(s[0], t[j]);
        RemovePartner(s, t, j);
        CollectionEqualExactlyWhenSame(s[1..], Without(t, j));
      }
      if SameCollection(s, t) {
        var j :| 0 <= j < |t| && Same(s[0], t[j]) && SameCollection(s[1..], Without(t, j));
        EqualExactlyWhenSame(s[0], t[j]);
        RemovePartner(s, t, j);
        CollectionEqualExactlyWhenSame(s[1..], Without(t, j));
      }
    }
  }

  lemma NothingCounts(s: seq<Node>, t: seq<Node>)
    requires s == [] == t
    ensures SameCounts(s, t)
  {
  }

  lemma Partner(s: seq<Node>, t: seq<Node>) returns (j: nat)
    requires s != [] && SameCounts(s, t)
    ensures j < |t| && Compare(s[0], t[j]) == 0
  {
    hide Compare;
    SelfIsEqual(s[0]);
    assert Count(s, s[0]) > 0;
    j := CountFinds(t, s[0]);
  }

  lemma RemovePartner(s: seq<Node>, t: seq<Node>, j: nat)
    requires s != [] && j < |t| && Compare(s[0], t[j]) == 0
    ensures SameCounts(s, t) <==> SameCounts(s[1..], Without(t, j))
  {
    hide Compare;
    hide SameCounts;
    RemoveEquals(s, 0, t, j);
    assert Without(s, 0) == s[1..];
  }

  /** Neither the order in which a collection was filled nor its position among equals can be seen:
      trees equal up to reordering compare alike with everything. */
  lemma ReorderingIsInvisible(a: Node, b: Node, x: Node)
    requires Same(a, b)
    ensures Compare(a, x) < 0 <==> Compare(b, x) < 0
    ensures Compare(a, x) > 0 <==> Compare(b, x) > 0
  {
    hide Compare;
    EqualExactlyWhenSame(a, b);
    Transitive(a, b, x);
    Antisymmetric(a, b);
    Transitive(b, a, x);
  }

  /** However a multiset breaks ties, its contents compare alike. */
  lemma TiesDoNotMatter(l: seq<Node>, s: seq<Node>, t: seq<Node>)
    requires Sorted(s) && multiset(s) == multiset(l) && |t| == |l|
    ensures |s| == |l|
    ensures LexDiff(s, t) == LexDiff(Ordering(l), t)
  {
    hide Compare;
    hide LexDiff;
    hide Ordering;
    hide Count;
    assert |s| == |multiset(s)| == |l|;
    OrderingSorts(l);
    forall x ensures Count(s, x) == Count(Ordering(l), x) {
      CountOfMultiset(s, Ordering(l), x);
    }
    SortedAgree(s, Ordering(l));
    AgreeingCompareAlike(s, Ordering(l), t);
  }

  lemma {:induction false} AgreeingCompareAlike(s: seq<Node>, u: seq<Node>, t: seq<Node>)
    requires |s| == |u| == |t| && LexDiff(s, u) == 0
    ensures LexDiff(s, t) == LexDiff(u, t)
  {
    hide Compare;
    hide LexDiff;
    LexHead(s, u);
    LexHead(s, t);
    LexHead(u, t);
    if s != [] {
      Transitive(s[0], u[0], t[0]);
      Antisymmetric(s[0], u[0]);
      Transitive(u[0], s[0], t[0]);
      AgreeingCompareAlike(s[1..], u[1..], t[1..]);
    }
  }

  // ---------- the loops ----------

  lemma {:induction false} HeightsOfItems(items: seq<Item>, i: nat)
    requires i < |items|
    ensures HeightItem(items[i]) <= HeightItems(items)
  {
    if i > 0 {
      HeightsOfItems(items[1..], i - 1);
    }
  }

  lemma {:induction false} HeightsOfNodes(s: seq<Node>, i: nat)
    requires i < |s|
    ensures Height(s[i]) <= HeightAll(s)
  {
    if i > 0 {
      HeightsOfNodes(s[1..], i - 1);
    }
  }

  /** Item by item, leaving at the first difference. */
  method CompareNodes(l: Node, r: Node) returns (d: int)
    ensures d == Compare(l, r)
    decreases Max(Height(l), Height(r)), 0
  {
    if l.key != r.key {
      return l.key - r.key;
    }
    if |l.items| != |r.items| {
      return |l.items| - |r.items|;
    }
    var i := 0;
    while i < |l.items|
      invariant 0 <= i <= |l.items| == |r.items|
      invariant CompareItems(l.items, r.items) == CompareItems(l.items[i..], r.items[i..])
    {
      HeightsOfItems(l.items, i);
      HeightsOfItems(r.items, i);
      var x, y := l.items[i], r.items[i];
      if x.Sequence? && y.Sequence? {
        d := CompareSequences(x.elems, y.elems);
      } else if x.Collection? && y.Collection? {
        d := CompareCollections(x.elems, y.elems);
      } else if x.Singular? && y.Singular? {
        d := CompareNodes(x.node, y.node);
      } else {
        d := Kind(x) - Kind(y);
      }
      assert d == CompareItem(x, y);
      assert l.items[i..][1..] == l.items[i + 1..] && r.items[i..][1..] == r.items[i + 1..];
      if d != 0 {
        return;
      }
      i := i + 1;
    }
    d := 0;
  }

  method CompareSequences(s: seq<Node>, t: seq<Node>) returns (d: int)
    ensures d == if |s| != |t| then |s| - |t| else CompareSeq(s, t)
    decreases Max(HeightAll(s), HeightAll(t)), 1
  {
    if |s| != |t| {
      return |s| - |t|;
    }
    var i := 0;
    while i < |s|
      invariant 0 <= i <= |s| == |t| && CompareSeq(s, t) == CompareSeq(s[i..], t[i..])
    {
      HeightsOfNodes(s, i);
      HeightsOfNodes(t, i);
      d := CompareNodes(s[i], t[i]);
      assert s[i..][1..] == s[i + 1..] && t[i..][1..] == t[i + 1..];
      if d != 0 {
        return;
      }
      i := i + 1;
    }
    d := 0;
  }

  method CompareCollections(s: seq<Node>, t: seq<Node>) returns (d: int)
    ensures d == if |s| != |t| then |s| - |t| else LexDiff(Ordering(s), Ordering(t))
    decreases Max(HeightAll(s), HeightAll(t)), 4
  {
    if |s| != |t| {
      return |s| - |t|;
    }
    var a := FillOrdering(s);
    var b := FillOrdering(t);
    var ab := LexicographicalLess(a, b);
    var ba := LexicographicalLess(b, a);
    return (if ab then 1 else 0) - (if ba then 1 else 0);
  }

  /** A multiset filled in a loop. */
  method FillOrdering(c: seq<Node>) returns (ordering: seq<Node>)
    ensures ordering == Ordering(c)
    decreases HeightAll(c), 3
  {
    ordering := [];
    var i := 0;
    while i < |c|
      invariant 0 <= i <= |c| && HeightAll(ordering) <= HeightAll(c) && Filled(ordering, c[i..]) == Ordering(c)
    {
      HeightsOfNodes(c, i);
      assert c[i..][1..] == c[i + 1..];
      ordering := InsertInOrder(c[i], ordering);
      i := i + 1;
    }
  }

  lemma Regroup(s: seq<Node>, i: nat, t: seq<Node>)
    requires i < |s|
    ensures s[..i] + ([s[i]] + t) == s[..i + 1] + t
  {
  }

  /** Insertion at the upper bound of the element. */
  method InsertInOrder(x: Node, s: seq<Node>) returns (r: seq<Node>)
    ensures r == Insert(x, s)
    decreases Max(Height(x), HeightAll(s)), 2
  {
    hide Compare;
    var i := 0;
    while i < |s|
      invariant 0 <= i <= |s| && Insert(x, s) == s[..i] + Insert(x, s[i..])
    {
      HeightsOfNodes(s, i);
      var d := CompareNodes(x, s[i]);
      if d < 0 {
        break;
      }
      assert s[i..][1..] == s[i + 1..];
      Regroup(s, i, Insert(x, s[i + 1..]));
      i := i + 1;
    }
    return s[..i] + ([x] + s[i..]);
  }

  method LexicographicalLess(s: seq<Node>, t: seq<Node>) returns (less: bool)
    ensures less == LexLess(s, t)
    decreases Max(HeightAll(s), HeightAll(t)), 1
  {
    var i := 0;
    while i < |s| && i < |t|
      invariant 0 <= i <= |s| && i <= |t| && LexLess(s, t) == LexLess(s[i..], t[i..])
    {
      HeightsOfNodes(s, i);
      HeightsOfNodes(t, i);
      var d := CompareNodes(s[i], t[i]);
      if d < 0 {
        return true;
      }
      var e := CompareNodes(t[i], s[i]);
      if e < 0 {
        return false;
      }
      assert s[i..][1..] == s[i + 1..] && t[i..][1..] == t[i + 1..];
      i := i + 1;
    }
    return i < |t|;
  }
}
