/** Duplicating a subtree of nodes in memory. */
module SimpleDuplicate {
  import opened SimpleCompare

  type Ref = nat

  datatype Ptrs = SequenceOf(refs: seq<Ref>) | CollectionOf(refs: seq<Ref>) | SingularOf(ref: Ref)

  /** A specific identifier has no children, and its key tells it from every other node, since it compares
      by identity. */
  datatype Cell = Cell(key: int, specific: bool, items: seq<Ptrs>)

  type Heap = map<Ref, Cell>

  function RefsOf(p: Ptrs): seq<Ref> {
    if p.SingularOf? then [p.ref] else p.refs
  }

  /** The references lead to nodes below the bound. */
  ghost predicate Below(h: Heap, rank: map<Ref, nat>, bound: nat, refs: seq<Ref>) {
    forall c :: c in refs ==> c in h && c in rank && rank[c] < bound
  }

  ghost predicate AllBelow(h: Heap, rank: map<Ref, nat>, bound: nat, items: seq<Ptrs>) {
    forall i :: 0 <= i < |items| ==> Below(h, rank, bound, RefsOf(items[i]))
  }

  /** No pointer is null or dangling, and a rank falls along every pointer. */
  ghost predicate Wf(h: Heap, rank: map<Ref, nat>) {
    rank.Keys == h.Keys && (forall r :: r in h ==> WfCell(h, rank, r)) && UniqueIdentifiers(h)
  }

  ghost predicate UniqueIdentifiers(h: Heap) {
    forall r, q :: r in h && q in h && h[r].specific && h[q].key == h[r].key ==> q == r
  }

  ghost predicate WfCell(h: Heap, rank: map<Ref, nat>, r: Ref) {
    r in h && r in rank && (h[r].specific ==> h[r].items == []) && AllBelow(h, rank, rank[r], h[r].items)
  }

  // ---------- the tree that a reference stands for ----------

  ghost function TreeOf(h: Heap, rank: map<Ref, nat>, r: Ref): Node
    requires Wf(h, rank) && r in h
    decreases rank[r], 9, 0
  {
    assert WfCell(h, rank, r);
    Node(h[r].key, ItemsOf(h, rank, rank[r], h[r].items))
  }

  ghost function ItemsOf(h: Heap, rank: map<Ref, nat>, bound: nat, items: seq<Ptrs>): seq<Item>
    requires Wf(h, rank) && AllBelow(h, rank, bound, items)
    decreases bound, 3, |items|
  {
    if items == [] then [] else [ItemOf(h, rank, bound, items[0])] + ItemsOf(h, rank, bound, items[1..])
  }

  ghost function ItemOf(h: Heap, rank: map<Ref, nat>, bound: nat, p: Ptrs): Item
    requires Wf(h, rank) && Below(h, rank, bound, RefsOf(p))
    decreases bound, 2, 0
  {
    match p
    case SequenceOf(refs) => Sequence(NodesOf(h, rank, bound, refs))
    case CollectionOf(refs) => Collection(NodesOf(h, rank, bound, refs))
    case SingularOf(r) => Singular(TreeOf(h, rank, r))
  }

  ghost function NodesOf(h: Heap, rank: map<Ref, nat>, bound: nat, refs: seq<Ref>): seq<Node>
    requires Wf(h, rank) && Below(h, rank, bound, refs)
    decreases bound, 1, |refs|
  {
    if refs == [] then [] else [TreeOf(h, rank, refs[0])] + NodesOf(h, rank, bound, refs[1..])
  }

  /** Everything reached from r is outside `base`, specific identifiers excepted. */
  ghost predicate Own(h: Heap, rank: map<Ref, nat>, base: set<Ref>, r: Ref)
    requires Wf(h, rank) && r in h
    decreases rank[r]
  {
    assert WfCell(h, rank, r);
    (r !in base || h[r].specific) && forall i, c :: 0 <= i < |h[r].items| && c in RefsOf(h[r].items[i]) ==> Own(h, rank, base, c)
  }

  // ---------- what stays when memory changes ----------

  /** Nodes below the bound are as they were. */
  ghost predicate Kept(h: Heap, rank: map<Ref, nat>, h': Heap, rank': map<Ref, nat>, bound: nat) {
    forall r :: r in h && r in rank && rank[r] < bound ==> r in h' && h'[r] == h[r] && r in rank' && rank'[r] == rank[r]
  }

  lemma {:induction false} TreeStays(h: Heap, rank: map<Ref, nat>, h': Heap, rank': map<Ref, nat>, bound: nat, r: Ref)
    requires Wf(h, rank) && Wf(h', rank') && Kept(h, rank, h', rank', bound) && r in h && rank[r] < bound
    ensures r in h' && TreeOf(h', rank', r) == TreeOf(h, rank, r)
    decreases rank[r], 9, 0
  {
    assert WfCell(h, rank, r) && WfCell(h', rank', r);
    ItemsStay(h, rank, h', rank', rank[r], h[r].items);
  }

  lemma {:induction false} ItemsStay(h: Heap, rank: map<Ref, nat>, h': Heap, rank': map<Ref, nat>, bound: nat, items: seq<Ptrs>)
    requires Wf(h, rank) && Wf(h', rank') && Kept(h, rank, h', rank', bound) && AllBelow(h, rank, bound, items)
    ensures AllBelow(h', rank', bound, items) && ItemsOf(h', rank', bound, items) == ItemsOf(h, rank, bound, items)
    decreases bound, 3, |items|
  {
    hide Wf;
    if items != [] {
      ItemStays(h, rank, h', rank', bound, items[0]);
      ItemsStay(h, rank, h', rank', bound, items[1..]);
      assert forall i :: 0 < i < |items| ==> items[i] == items[1..][i - 1];
    }
  }

  lemma {:induction false} ItemStays(h: Heap, rank: map<Ref, nat>, h': Heap, rank': map<Ref, nat>, bound: nat, p: Ptrs)
    requires Wf(h, rank) && Wf(h', rank') && Kept(h, rank, h', rank', bound) && Below(h, rank, bound, RefsOf(p))
    ensures Below(h', rank', bound, RefsOf(p)) && ItemOf(h', rank', bound, p) == ItemOf(h, rank, bound, p)
    decreases bound, 2, 0
  {
    hide Wf;
    match p
    case SequenceOf(refs) => NodesStay(h, rank, h', rank', bound, refs);
    case CollectionOf(refs) => NodesStay(h, rank, h', rank', bound, refs);
    case SingularOf(r) =>
      assert r in RefsOf(p);
      TreeStays(h, rank, h', rank', bound, r);
  }

  lemma {:induction false} NodesStay(h: Heap, rank: map<Ref, nat>, h': Heap, rank': map<Ref, nat>, bound: nat, refs: seq<Ref>)
    requires Wf(h, rank) && Wf(h', rank') && Kept(h, rank, h', rank', bound) && Below(h, rank, bound, refs)
    ensures Below(h', rank', bound, refs) && NodesOf(h', rank', bound, refs) == NodesOf(h, rank, bound, refs)
    decreases bound, 1, |refs|
  {
    hide Wf;
    if refs != [] {
      TreeStays(h, rank, h', rank', bound, refs[0]);
      NodesStay(h, rank, h', rank', bound, refs[1..]);
    }
  }

  lemma {:induction false} OwnStays(h: Heap, rank: map<Ref, nat>, h': Heap, rank': map<Ref, nat>, bound: nat, base: set<Ref>, r: Ref)
    requires Wf(h, rank) && Wf(h', rank') && Kept(h, rank, h', rank', bound) && r in h && rank[r] < bound && Own(h, rank, base, r)
    ensures r in h' && Own(h', rank', base, r)
    decreases rank[r]
  {
    assert WfCell(h, rank, r);
    forall i, c | 0 <= i < |h[r].items| && c in RefsOf(h[r].items[i]) ensures Own(h', rank', base, c) {
      OwnStays(h, rank, h', rank', bound, base, c);
    }
  }

  /** References to parts that are all outside `base`. */
  ghost predicate OwnAll(h: Heap, rank: map<Ref, nat>, base: set<Ref>, refs: seq<Ref>)
    requires Wf(h, rank)
  {
    forall c :: c in refs ==> c in h && Own(h, rank, base, c)
  }

  lemma OwnAllStays(h: Heap, rank: map<Ref, nat>, h': Heap, rank': map<Ref, nat>, bound: nat, base: set<Ref>, refs: seq<Ref>)
    requires Wf(h, rank) && Wf(h', rank') && Kept(h, rank, h', rank', bound)
    requires Below(h, rank, bound, refs) && OwnAll(h, rank, base, refs)
    ensures OwnAll(h', rank', base, refs)
  {
    hide Own;
    forall c | c in refs ensures c in h' && Own(h', rank', base, c) {
      OwnStays(h, rank, h', rank', bound, base, c);
    }
  }

  lemma {:induction false} NodesAppend(h: Heap, rank: map<Ref, nat>, bound: nat, refs: seq<Ref>, r: Ref)
    requires Wf(h, rank) && Below(h, rank, bound, refs) && r in h && rank[r] < bound
    ensures Below(h, rank, bound, refs + [r]) && NodesOf(h, rank, bound, refs + [r]) == NodesOf(h, rank, bound, refs) + [TreeOf(h, rank, r)]
    decreases |refs|
  {
    hide TreeOf;
    if refs == [] {
      assert refs + [r] == [r] && [r][1..] == [];
    } else {
      assert (refs + [r])[1..] == refs[1..] + [r];
      NodesAppend(h, rank, bound, refs[1..], r);
    }
  }

  /** Duplicated items, place by place. */
  ghost predicate ItemsMatch(h: Heap, rank: map<Ref, nat>, items: seq<Ptrs>, h': Heap, rank': map<Ref, nat>, items': seq<Ptrs>, bound: nat, i: nat)
    requires Wf(h, rank) && Wf(h', rank') && AllBelow(h, rank, bound, items) && AllBelow(h', rank', bound, items')
  {
    && |items| == |items'|
    && forall j :: 0 <= j < i && j < |items| ==> ItemOf(h', rank', bound, items'[j]) == ItemOf(h, rank, bound, items[j])
  }

  lemma {:induction false} ItemsAgree(h: Heap, rank: map<Ref, nat>, items: seq<Ptrs>, h': Heap, rank': map<Ref, nat>, items': seq<Ptrs>, bound: nat)
    requires Wf(h, rank) && Wf(h', rank') && AllBelow(h, rank, bound, items) && AllBelow(h', rank', bound, items')
    requires ItemsMatch(h, rank, items, h', rank', items', bound, |items|)
    ensures ItemsOf(h', rank', bound, items') == ItemsOf(h, rank, bound, items)
    decreases |items|
  {
    hide ItemOf;
    hide Wf;
    if items != [] {
      assert forall j :: 0 <= j < |items| - 1 ==> items[1..][j] == items[j + 1] && items'[1..][j] == items'[j + 1];
      ItemsAgree(h, rank, items[1..], h', rank', items'[1..], bound);
    }
  }

  /** Nothing that was allocated has changed. */
  ghost predicate Grew(h: Heap, rank: map<Ref, nat>, h': Heap, rank': map<Ref, nat>) {
    forall r :: r in h && r in rank ==> r in h' && h'[r] == h[r] && r in rank' && rank'[r] == rank[r]
  }

  lemma GrewKeeps(h: Heap, rank: map<Ref, nat>, h': Heap, rank': map<Ref, nat>, bound: nat)
    requires Grew(h, rank, h', rank')
    ensures Kept(h, rank, h', rank', bound)
  {
  }

  /** `copies` duplicate `refs`, and are outside `base`. */
  ghost predicate Copies(h: Heap, rank: map<Ref, nat>, refs: seq<Ref>, h': Heap, rank': map<Ref, nat>, copies: seq<Ref>, bound: nat, base: set<Ref>) {
    && Wf(h, rank) && Wf(h', rank') && Below(h, rank, bound, refs) && Below(h', rank', bound, copies)
    && NodesOf(h', rank', bound, copies) == NodesOf(h, rank, bound, refs)
    && OwnAll(h', rank', base, copies)
  }

  /** One more copy. */
  lemma CopyOne(h: Heap, rank: map<Ref, nat>, refs: seq<Ref>, c: Ref, h1: Heap, rank1: map<Ref, nat>, copies: seq<Ref>,
                h2: Heap, rank2: map<Ref, nat>, r: Ref, bound: nat, base: set<Ref>)
    requires Copies(h, rank, refs, h1, rank1, copies, bound, base) && Grew(h, rank, h1, rank1) && Grew(h1, rank1, h2, rank2)
    requires Wf(h2, rank2) && c in h && rank[c] < bound && c in h1 && r in h2 && rank2[r] == rank1[c]
    requires TreeOf(h2, rank2, r) == TreeOf(h1, rank1, c) && Own(h2, rank2, base, r)
    ensures Copies(h, rank, refs + [c], h2, rank2, copies + [r], bound, base)
  {
    hide TreeOf;
    hide Own;
    hide Wf;
    GrewKeeps(h, rank, h1, rank1, bound);
    GrewKeeps(h1, rank1, h2, rank2, bound);
    TreeStays(h, rank, h1, rank1, bound, c);
    NodesStay(h1, rank1, h2, rank2, bound, copies);
    OwnAllStays(h1, rank1, h2, rank2, bound, base, copies);
    RankStays(h, rank, h1, rank1, c);
    NodesAppend(h2, rank2, bound, copies, r);
    NodesAppend(h, rank, bound, refs, c);
  }

  lemma RankStays(h: Heap, rank: map<Ref, nat>, h': Heap, rank': map<Ref, nat>, c: Ref)
    requires Wf(h, rank) && Grew(h, rank, h', rank') && c in h
    ensures c in rank && c in rank' && rank'[c] == rank[c] && c in h' && h'[c] == h[c]
  {
  }

  lemma GrewKeys(h: Heap, rank: map<Ref, nat>, h': Heap, rank': map<Ref, nat>)
    requires Wf(h, rank) && Grew(h, rank, h', rank')
    ensures h.Keys <= h'.Keys
  {
  }

  lemma GrewTwice(h: Heap, rank: map<Ref, nat>, h1: Heap, rank1: map<Ref, nat>, h2: Heap, rank2: map<Ref, nat>)
    requires Grew(h, rank, h1, rank1) && Grew(h1, rank1, h2, rank2)
    ensures Grew(h, rank, h2, rank2)
  {
  }

  /** The first i members of dest are duplicated, the rest still as in the source. */
  ghost predicate PartCopied(h: Heap, rank: map<Ref, nat>, source: Ref, h': Heap, rank': map<Ref, nat>, dest: Ref, base: set<Ref>, i: nat) {
    && Wf(h, rank) && Wf(h', rank') && source in h && dest in h' && dest !in h && dest !in base && rank'[dest] == rank[source]
    && h'[dest].key == h[source].key && !h'[dest].specific && i <= |h[source].items| == |h'[dest].items|
    && WfCell(h, rank, source) && WfCell(h', rank', dest)
    && ItemsMatch(h, rank, h[source].items, h', rank', h'[dest].items, rank[source], i)
    && (forall j :: 0 <= j < i ==> OwnAll(h', rank', base, RefsOf(h'[dest].items[j])))
    && (forall j :: i <= j < |h[source].items| ==> h'[dest].items[j] == h[source].items[j])
  }

  /** dest with another member. */
  function Stored(h: Heap, dest: Ref, i: nat, q: Ptrs): Heap
    requires dest in h && i < |h[dest].items|
  {
    h[dest := h[dest].(items := h[dest].items[i := q])]
  }

  lemma StoreIsWf(h: Heap, rank: map<Ref, nat>, dest: Ref, i: nat, q: Ptrs)
    requires Wf(h, rank) && dest in h && i < |h[dest].items| && Below(h, rank, rank[dest], RefsOf(q))
    ensures Wf(Stored(h, dest, i, q), rank) && Kept(h, rank, Stored(h, dest, i, q), rank, rank[dest])
  {
    var h' := Stored(h, dest, i, q);
    forall r | r in h' ensures WfCell(h', rank, r) {
      assert WfCell(h, rank, r);
      forall j | 0 <= j < |h'[r].items| ensures Below(h', rank, rank[r], RefsOf(h'[r].items[j])) {
        if r == dest && j == i {
          assert Below(h, rank, rank[dest], RefsOf(q));
        } else {
          assert Below(h, rank, rank[r], RefsOf(h[r].items[j]));
        }
      }
    }
  }

  lemma IdentifierIsOwn(h: Heap, rank: map<Ref, nat>, base: set<Ref>, r: Ref)
    requires Wf(h, rank) && r in h && h[r].specific
    ensures Own(h, rank, base, r)
  {
    assert WfCell(h, rank, r);
  }

  lemma CopyIsStart(h: Heap, rank: map<Ref, nat>, source: Ref, h': Heap, rank': map<Ref, nat>, dest: Ref, base: set<Ref>)
    requires Wf(h, rank) && Wf(h', rank') && source in h && base <= h.Keys && dest !in h && dest in h' && h'[dest] == h[source]
    requires !h[source].specific && source in rank' && rank'[source] == rank[source] == rank'[dest]
    ensures PartCopied(h, rank, source, h', rank', dest, base, 0)
  {
    assert WfCell(h, rank, source) && WfCell(h', rank', dest);
  }

  /** What a member of the source points to, part way through. */
  lemma MemberToCopy(h: Heap, rank: map<Ref, nat>, source: Ref, h': Heap, rank': map<Ref, nat>, dest: Ref, base: set<Ref>, i: nat)
    requires PartCopied(h, rank, source, h', rank', dest, base, i) && Grew(h, rank, h', rank') && i < |h[source].items|
    ensures source in h' && h'[source] == h[source] && source in rank && Below(h', rank', rank[source], RefsOf(h[source].items[i]))
    ensures dest !in h && i < |h'[dest].items|
  {
    assert WfCell(h', rank', source);
  }

  lemma StoreStep(h: Heap, rank: map<Ref, nat>, source: Ref, h1: Heap, rank1: map<Ref, nat>, h2: Heap, rank2: map<Ref, nat>,
                  dest: Ref, base: set<Ref>, i: nat, q: Ptrs)
    requires PartCopied(h, rank, source, h1, rank1, dest, base, i) && i < |h[source].items|
    requires Grew(h, rank, h1, rank1) && Grew(h1, rank1, h2, rank2) && Wf(h2, rank2)
    requires Below(h2, rank2, rank[source], RefsOf(q)) && OwnAll(h2, rank2, base, RefsOf(q))
    requires Below(h1, rank1, rank[source], RefsOf(h[source].items[i]))
    requires ItemOf(h2, rank2, rank[source], q) == ItemOf(h1, rank1, rank[source], h[source].items[i])
    ensures dest in h2 && i < |h2[dest].items| && Wf(Stored(h2, dest, i, q), rank2)
    ensures Grew(h, rank, Stored(h2, dest, i, q), rank2)
    ensures PartCopied(h, rank, source, Stored(h2, dest, i, q), rank2, dest, base, i + 1)
  {
    hide Own;
    hide ItemOf;
    hide OwnAll;
    var bound, items := rank[source], h[source].items;
    var h3 := Stored(h2, dest, i, q);
    StoreIsWf(h2, rank2, dest, i, q);
    GrewKeeps(h, rank, h1, rank1, bound);
    GrewKeeps(h1, rank1, h2, rank2, bound);
    forall j | 0 <= j < i + 1
      ensures Below(h3, rank2, bound, RefsOf(h3[dest].items[j])) && OwnAll(h3, rank2, base, RefsOf(h3[dest].items[j]))
      ensures ItemOf(h3, rank2, bound, h3[dest].items[j]) == ItemOf(h, rank, bound, items[j])
    {
      var p := h3[dest].items[j];
      if j < i {
        ItemStays(h1, rank1, h2, rank2, bound, p);
        OwnAllStays(h1, rank1, h2, rank2, bound, base, RefsOf(p));
      } else {
        ItemStays(h, rank, h1, rank1, bound, items[i]);
      }
      ItemStays(h2, rank2, h3, rank2, bound, p);
      OwnAllStays(h2, rank2, h3, rank2, bound, base, RefsOf(p));
    }
    assert WfCell(h3, rank2, dest);
  }

  lemma AllCopied(h: Heap, rank: map<Ref, nat>, source: Ref, h': Heap, rank': map<Ref, nat>, dest: Ref, base: set<Ref>)
    requires Wf(h, rank) && source in h && PartCopied(h, rank, source, h', rank', dest, base, |h[source].items|)
    ensures TreeOf(h', rank', dest) == TreeOf(h, rank, source) && Own(h', rank', base, dest) && rank'[dest] == rank[source]
  {
    ItemsAgree(h, rank, h[source].items, h', rank', h'[dest].items, rank[source]);
    forall i, c | 0 <= i < |h'[dest].items| && c in RefsOf(h'[dest].items[i]) ensures Own(h', rank', base, c) {
      assert OwnAll(h', rank', base, RefsOf(h'[dest].items[i]));
    }
  }

  class Memory {
    var cells: Heap
    ghost var rank: map<Ref, nat>
    var next: Ref // nothing has been allocated from here on

    ghost predicate Valid()
      reads this
    {
      Wf(cells, rank) && forall r :: r in cells ==> r < next
    }

    /** A copy of a node, pointers included; a specific identifier is its own copy. */
    method DuplicateNode(source: Ref) returns (dest: Ref)
      requires Valid() && source in cells
      modifies this
      ensures Valid() && Grew(old(cells), old(rank), cells, rank) && dest in cells && cells[dest] == old(cells)[source] && rank[dest] == rank[source]
      ensures if cells[source].specific then dest == source else dest !in old(cells)
    {
      if cells[source].specific {
        return source;
      }
      dest := next;
      ghost var h, k := cells, rank;
      cells := cells[dest := cells[source]];
      rank := rank[dest := rank[source]];
      next := next + 1;
      forall r | r in cells ensures WfCell(cells, rank, r) {
        assert WfCell(h, k, if r == dest then source else r);
      }
    }

    /** A new subtree that stands for the same tree, made of nodes that were not in memory before; only
        specific identifiers are shared. */
    method DuplicateSubtree(source: Ref, ghost base: set<Ref>) returns (dest: Ref)
      requires Valid() && source in cells && base <= cells.Keys
      modifies this
      ensures Valid() && Grew(old(cells), old(rank), cells, rank) && dest in cells && rank[dest] == old(rank)[source]
      ensures TreeOf(cells, rank, dest) == old(TreeOf(cells, rank, source))
      ensures Own(cells, rank, base, dest)
      decreases rank[source], 9
    {
      hide Own;
      hide TreeOf;
      hide Wf;
      hide PartCopied;
      ghost var h, k := cells, rank;
      dest := DuplicateNode(source);
      GrewKeys(h, k, cells, rank);
      RankStays(h, k, cells, rank, source);
      if cells[source].specific {
        IdentifierIsOwn(cells, rank, base, source);
        GrewKeeps(h, k, cells, rank, k[source] + 1);
        TreeStays(h, k, cells, rank, k[source] + 1, source);
        return; // no members to go through
      }
      CopyIsStart(h, k, source, cells, rank, dest, base);
      var i := 0;
      while i < |cells[source].items|
        invariant source in cells && cells[source] == h[source] && dest in cells && i <= |h[source].items|
        invariant Valid() && Grew(h, k, cells, rank) && base <= cells.Keys && PartCopied(h, k, source, cells, rank, dest, base, i)
      {
        ghost var h1, k1 := cells, rank;
        MemberToCopy(h, k, source, cells, rank, dest, base, i);
        var q := DuplicateMember(cells[source].items[i], k[source], base);
        GrewKeys(h1, k1, cells, rank);
        StoreStep(h, k, source, h1, k1, cells, rank, dest, base, i, q);
        cells := cells[dest := cells[dest].(items := cells[dest].items[i := q])];
        RankStays(h, k, cells, rank, source);
        i := i + 1;
      }
      AllCopied(h, k, source, cells, rank, dest, base);
    }

    /** A duplicate compares equal to its source and shares only specific identifiers with what was there. */
    method Duplicate(source: Ref) returns (dest: Ref)
      requires Valid() && source in cells
      modifies this
      ensures Valid() && Grew(old(cells), old(rank), cells, rank) && dest in cells
      ensures Compare(old(TreeOf(cells, rank, source)), TreeOf(cells, rank, dest)) == 0
      ensures Own(cells, rank, old(cells).Keys, dest)
    {
      ghost var tree := TreeOf(cells, rank, source);
      dest := DuplicateSubtree(source, cells.Keys);
      SelfIsEqual(tree);
    }

    /** Duplicate what one member of a node points to. */
    method DuplicateMember(p: Ptrs, ghost bound: nat, ghost base: set<Ref>) returns (q: Ptrs)
      requires Valid() && Below(cells, rank, bound, RefsOf(p)) && base <= cells.Keys
      modifies this
      ensures Valid() && Grew(old(cells), old(rank), cells, rank) && Below(cells, rank, bound, RefsOf(q)) && OwnAll(cells, rank, base, RefsOf(q))
      ensures ItemOf(cells, rank, bound, q) == old(ItemOf(cells, rank, bound, p))
      decreases bound, 5
    {
      hide Own;
      hide TreeOf;
      if p.SingularOf? {
        assert p.ref in RefsOf(p);
        var r := DuplicateSubtree(p.ref, base);
        return SingularOf(r);
      }
      var copies := DuplicateContainer(p.refs, bound, base);
      q := if p.SequenceOf? then SequenceOf(copies) else CollectionOf(copies);
    }

    /** Empty a container and fill it with duplicates, in order. */
    method DuplicateContainer(refs: seq<Ref>, ghost bound: nat, ghost base: set<Ref>) returns (copies: seq<Ref>)
      requires Valid() && Below(cells, rank, bound, refs) && base <= cells.Keys
      modifies this
      ensures Valid() && Grew(old(cells), old(rank), cells, rank)
      ensures Copies(old(cells), old(rank), refs, cells, rank, copies, bound, base)
      decreases bound, 4
    {
      hide Own;
      hide TreeOf;
      hide Wf;
      ghost var h, k := cells, rank;
      copies := [];
      var i := 0;
      assert Copies(h, k, refs[..0], cells, rank, copies, bound, base);
      while i < |refs|
        invariant 0 <= i <= |refs| && Valid() && Grew(h, k, cells, rank) && base <= cells.Keys
        invariant Copies(h, k, refs[..i], cells, rank, copies, bound, base)
      {
        ghost var h1, k1, c := cells, rank, refs[i];
        assert c in refs;
        RankStays(h, k, cells, rank, c);
        var r := DuplicateSubtree(refs[i], base);
        CopyOne(h, k, refs[..i], c, h1, k1, copies, cells, rank, r, bound, base);
        GrewTwice(h, k, h1, k1, cells, rank);
        GrewKeys(h1, k1, cells, rank);
        assert refs[..i + 1] == refs[..i] + [c];
        copies := copies + [r];
        i := i + 1;
      }
      assert refs[..i] == refs;
    }
  }
}
