/** Counting pages: a page held by the tree is a bound prefix, so page totals are sizes of
    sets of prefixes (`_cached_page_count`, `_count_pages`). */
module TreeCount {
  import opened Paging
  import opened TreeModel
  import opened TreeOps
  import opened TreeLocks

  lemma {:induction false} BetweenSize(q: Path, s: nat, e: nat)
    requires s <= e <= |q|
    ensures |Between(q, s, e)| == e - s
    decreases e - s
  {
    if s < e {
      BetweenSize(q, s, e - 1);
      BetweenIn(q, s, e - 1, q[..e]);
    }
  }

  lemma DisjointSize<X>(a: set<X>, b: set<X>)
    requires a !! b
    ensures |a + b| == |a| + |b|
  {}

  lemma RemoveSize<X>(a: set<X>, b: set<X>)
    requires b <= a
    ensures |a - b| == |a| - |b|
  {
    assert a == (a - b) + b;
  }

  lemma SplitSize(T: Tree, own: Owners, n: RadixNode, mid: RadixNode, k: nat)
    requires n in T
    ensures |SplitOwn(T, own, n, mid, k)| == |own|
  {
    assert SplitOwn(T, own, n, mid, k).Keys == own.Keys;
  }

  lemma LeafOwnKeys(own: Owners, s: nat, leaf: RadixNode, q: Path)
    requires s <= |q|
    ensures LeafOwn(own, s, leaf, q).Keys == own.Keys + Between(q, s, |q|)
  {
  }

  lemma LeafSize(T: Tree, own: Owners, root: RadixNode, P: nat, n: RadixNode, leaf: RadixNode, q: Path)
    requires WF(T, own, root, P) && n in T && T[n].path <= q && |T[n].path| < |q|
    requires q[|T[n].path|] !in T[n].children
    ensures |LeafOwn(own, |T[n].path|, leaf, q)| == |own| + (|q| - |T[n].path|)
  {
    var s := |T[n].path|;
    FreshPrefixes(T, own, root, P, n, q);
    BetweenSize(q, s, |q|);
    BetweenAll(q, s, |q|);
    LeafOwnKeys(own, s, leaf, q);
    DisjointSize(own.Keys, Between(q, s, |q|));
  }

  lemma EdgeSize(i: NodeInfo)
    requires |i.pages| <= |i.path|
    ensures |Edge(i)| == |i.pages|
  {
    BetweenSize(i.path, Start(i), |i.path|);
  }

  lemma DropSize(T: Tree, own: Owners, root: RadixNode, P: nat, n: RadixNode)
    requires WF(T, own, root, P) && n in T && n != root && EdgeOK(T, n, P) && T[n].children == map[]
    ensures Edge(T[n]) <= own.Keys
    ensures |DropOwn(T, own, n)| == |own| - |T[n].pages|
  {
    DropBind(T, own, root, P, n);
    EdgeSize(T[n]);
    forall p {:trigger p in own} | p in Edge(T[n]) ensures p in own {
      EdgeOwned(T, own, root, P, n, p);
    }
    RemoveSize(own.Keys, Edge(T[n]));
    assert (own - Edge(T[n])).Keys == own.Keys - Edge(T[n]);
  }

  /** The bound prefixes whose page lies on a node of `S` that is locked, or is not. */
  ghost function PagesIn(own: Owners, refs: Refs, S: set<RadixNode>, locked: bool): set<Path> {
    set p | p in own && own[p] in S && own[p] in refs && (if locked then refs[own[p]] > 0 else refs[own[p]] == 0)
  }

  lemma PagesInUnion(own: Owners, refs: Refs, S: set<RadixNode>, S': set<RadixNode>, locked: bool)
    requires S !! S'
    ensures |PagesIn(own, refs, S + S', locked)| == |PagesIn(own, refs, S, locked)| + |PagesIn(own, refs, S', locked)|
  {
    assert PagesIn(own, refs, S + S', locked) == PagesIn(own, refs, S, locked) + PagesIn(own, refs, S', locked);
    DisjointSize(PagesIn(own, refs, S, locked), PagesIn(own, refs, S', locked));
  }

  /** What one node contributes to the count (radix_cache.py:285-291). */
  lemma PagesInOne(T: Tree, own: Owners, root: RadixNode, P: nat, refs: Refs, n: RadixNode, locked: bool)
    requires WF(T, own, root, P) && n in T && n in refs
    ensures |PagesIn(own, refs, {n}, locked)| ==
      if n != root && (if locked then refs[n] > 0 else refs[n] == 0) then |T[n].pages| else 0
  {
    var S := PagesIn(own, refs, {n}, locked);
    if n == root {
      forall p {:trigger p in own} | p in own ensures own[p] != root {
        assert OwnerOK(T, own, p);
      }
      assert S == {};
    } else {
      assert EdgeOK(T, n, P);
      forall p {:trigger p in own} ensures p in Edge(T[n]) <==> p in own && own[p] == n {
        EdgeOwned(T, own, root, P, n, p);
      }
      EdgeSize(T[n]);
      assert S == (if (if locked then refs[n] > 0 else refs[n] == 0) then Edge(T[n]) else {});
    }
  }
}
