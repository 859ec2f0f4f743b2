/** The four structural updates of the radix tree as functions on snapshots, each with the
    proof that it keeps the tree well formed and with its effect on the map from bound
    prefixes to page ids: split an edge, hang a new leaf, drop a leaf, move a node's pages. */
module TreeOps {
  import opened Paging
  import opened TreeModel

  /** The page that node `i` holds for prefix `p`. */
  ghost function PageOf(i: NodeInfo, p: Path): int
    requires Covers(i, p)
  {
    i.pages[|p| - 1 - Start(i)]
  }

  /** What the cache means: a map from page-aligned token prefixes to page ids. */
  ghost function Bind(T: Tree, own: Owners): map<Path, int> {
    map p | p in own && OwnerOK(T, own, p) :: PageOf(T[own[p]], p)
  }

  lemma BindAt(T: Tree, own: Owners)
    requires Owned(T, own)
    ensures Bind(T, own).Keys == own.Keys
  {
    forall p {:trigger p in Bind(T, own)} | p in own ensures p in Bind(T, own) {
      assert OwnerOK(T, own, p);
    }
  }

  /** One entry of the map. */
  lemma BindPoint(T: Tree, own: Owners, p: Path)
    requires Owned(T, own) && p in own
    ensures OwnerOK(T, own, p)
    ensures p in Bind(T, own) && Bind(T, own)[p] == PageOf(T[own[p]], p)
  {
    assert OwnerOK(T, own, p);
  }

  // ---- split (`_split_node`, radix_cache.py:329-358) ----

  ghost function SplitTree(T: Tree, n: RadixNode, mid: RadixNode, k: nat, P: nat): Tree
    requires n in T && EdgeOK(T, n, P) && 0 < k < |T[n].pages| && mid !in T
  {
    var i := T[n];
    var s := Start(i);
    var cut := i.path[..s + k];
    var upper := NodeInfo(i.parent, map[i.path[s + k] := n], Flat(i.path[s..s + k]), i.pages[..k], i.tier, cut);
    var lower := i.(parent := mid, key := Flat(i.path[s + k..]), pages := i.pages[k..]);
    var up := T[i.parent].(children := T[i.parent].children[i.path[s] := mid]);
    T[i.parent := up][n := lower][mid := upper]
  }

  ghost function SplitOwn(T: Tree, own: Owners, n: RadixNode, mid: RadixNode, k: nat): Owners
    requires n in T
  {
    map p | p in own :: if own[p] == n && |p| <= Start(T[n]) + k then mid else own[p]
  }

  lemma SplitEdges(T: Tree, own: Owners, root: RadixNode, P: nat, n: RadixNode, mid: RadixNode, k: nat)
    requires WF(T, own, root, P) && n in T && n != root && mid !in T
    requires EdgeOK(T, n, P) && 0 < k < |T[n].pages|
    ensures var T' := SplitTree(T, n, mid, k, P);
            forall m {:trigger EdgeOK(T', m, P)} :: m in T' && m != root ==> EdgeOK(T', m, P)
  {
    hide Owned;
    var T' := SplitTree(T, n, mid, k, P);
    var i := T[n];
    forall m {:trigger EdgeOK(T', m, P)} | m in T' && m != root ensures EdgeOK(T', m, P) {
      if m == mid {
        assert i.path[..Start(i) + k][Start(i)..] == i.path[Start(i)..Start(i) + k];
        assert i.path[..Start(i) + k][..Start(i)] == i.path[..Start(i)];
      } else if m == n {
      } else {
        assert EdgeOK(T, m, P);
      }
    }
  }

  lemma SplitChildren(T: Tree, own: Owners, root: RadixNode, P: nat, n: RadixNode, mid: RadixNode, k: nat)
    requires WF(T, own, root, P) && n in T && n != root && mid !in T
    requires EdgeOK(T, n, P) && 0 < k < |T[n].pages|
    ensures var T' := SplitTree(T, n, mid, k, P);
            forall m, b {:trigger ChildOK(T', m, b)} :: m in T' && b in T'[m].children ==> ChildOK(T', m, b)
  {
    var T' := SplitTree(T, n, mid, k, P);
    forall m, b {:trigger ChildOK(T', m, b)} | m in T' && b in T'[m].children ensures ChildOK(T', m, b) {
      if m != mid && !(m == T[n].parent && b == T[n].path[Start(T[n])]) {
        assert ChildOK(T, m, b);
      }
    }
  }

  lemma SplitOwned(T: Tree, own: Owners, root: RadixNode, P: nat, n: RadixNode, mid: RadixNode, k: nat)
    requires WF(T, own, root, P) && n in T && n != root && mid !in T
    requires EdgeOK(T, n, P) && 0 < k < |T[n].pages|
    ensures Owned(SplitTree(T, n, mid, k, P), SplitOwn(T, own, n, mid, k))
  {
    var T' := SplitTree(T, n, mid, k, P);
    var own' := SplitOwn(T, own, n, mid, k);
    forall p {:trigger OwnerOK(T', own', p)} | p in own' ensures OwnerOK(T', own', p) {
      assert OwnerOK(T, own, p);
    }
    forall m, p {:trigger Covers(T'[m], p)} | m in T' && Covers(T'[m], p) ensures p in own' && own'[p] == m {
      var was: RadixNode := if m == mid then n else m;
      assert Covers(T[was], p);
    }
  }

  /** Splitting keeps the tree well formed; in particular `mid` sits between the old parent
      and `n`, whose own path does not change. */
  lemma SplitWF(T: Tree, own: Owners, root: RadixNode, P: nat, n: RadixNode, mid: RadixNode, k: nat)
    requires WF(T, own, root, P) && n in T && n != root && mid !in T
    requires EdgeOK(T, n, P) && 0 < k < |T[n].pages|
    ensures WF(SplitTree(T, n, mid, k, P), SplitOwn(T, own, n, mid, k), root, P)
  {
    SplitEdges(T, own, root, P, n, mid, k);
    SplitChildren(T, own, root, P, n, mid, k);
    SplitOwned(T, own, root, P, n, mid, k);
  }

  lemma SplitPoint(T: Tree, own: Owners, root: RadixNode, P: nat, n: RadixNode, mid: RadixNode, k: nat, p: Path)
    requires WF(T, own, root, P) && n in T && n != root && mid !in T
    requires EdgeOK(T, n, P) && 0 < k < |T[n].pages|
    requires p in own && OwnerOK(T, own, p)
    ensures var T' := SplitTree(T, n, mid, k, P);
            var own' := SplitOwn(T, own, n, mid, k);
            p in own' && OwnerOK(T', own', p) && PageOf(T'[own'[p]], p) == PageOf(T[own[p]], p)
  {
    var m := own[p];
    if m == T[n].parent && m != n {
      assert SplitTree(T, n, mid, k, P)[m].pages == T[m].pages;
    }
  }

  /** Splitting an edge does not change what the cache means. */
  lemma SplitBind(T: Tree, own: Owners, root: RadixNode, P: nat, n: RadixNode, mid: RadixNode, k: nat)
    requires WF(T, own, root, P) && n in T && n != root && mid !in T
    requires EdgeOK(T, n, P) && 0 < k < |T[n].pages|
    ensures Bind(SplitTree(T, n, mid, k, P), SplitOwn(T, own, n, mid, k)) == Bind(T, own)
  {
    var T' := SplitTree(T, n, mid, k, P);
    var own' := SplitOwn(T, own, n, mid, k);
    SplitOwned(T, own, root, P, n, mid, k);
    forall p {:trigger p in Bind(T', own')} | p in own
      ensures p in Bind(T', own') && p in Bind(T, own) && Bind(T', own')[p] == Bind(T, own)[p]
    {
      BindPoint(T, own, p);
      BindPoint(T', own', p);
      SplitPoint(T, own, root, P, n, mid, k, p);
    }
    BindAt(T, own);
    BindAt(T', own');
    SameMap(Bind(T', own'), Bind(T, own));
  }

  lemma SameMap<K, V>(a: map<K, V>, b: map<K, V>)
    requires a.Keys == b.Keys
    requires forall k {:trigger k in a} :: k in a ==> k in b && a[k] == b[k]
    ensures a == b
  {}

  // ---- new leaf (`_make_child`, radix_cache.py:315-326) ----

  ghost function LeafTree(T: Tree, n: RadixNode, leaf: RadixNode, q: Path, pages: seq<int>): Tree
    requires n in T && leaf !in T && |T[n].path| < |q| && |pages| == |q| - |T[n].path|
  {
    var s := |T[n].path|;
    T[n := T[n].(children := T[n].children[q[s] := leaf])]
     [leaf := NodeInfo(n, map[], Flat(q[s..]), pages, GPU, q)]
  }

  /** The beginnings of `q` longer than `s` and no longer than `e`. */
  ghost function Between(q: Path, s: int, e: nat): set<Path>
    requires e <= |q|
  {
    if e <= s || e == 0 then {} else Between(q, s, e - 1) + {q[..e]}
  }

  lemma {:induction false} BetweenIn(q: Path, s: int, e: nat, p: Path)
    requires e <= |q| && s >= 0
    ensures p in Between(q, s, e) <==> s < |p| <= e && p <= q
    decreases e
  {
    if e > s {
      BetweenIn(q, s, e - 1, p);
      assert |p| == e && p <= q ==> p == q[..e];
    }
  }

  lemma BetweenAll(q: Path, s: int, e: nat)
    requires e <= |q| && s >= 0
    ensures forall p {:trigger p in Between(q, s, e)} :: p in Between(q, s, e) <==> s < |p| <= e && p <= q
  {
    forall p {:trigger p in Between(q, s, e)} ensures p in Between(q, s, e) <==> s < |p| <= e && p <= q {
      BetweenIn(q, s, e, p);
    }
  }

  /** The nonempty beginnings of a path. */
  ghost function Beginnings(q: Path): set<Path> {
    Between(q, 0, |q|)
  }

  ghost function LeafOwn(own: Owners, s: nat, leaf: RadixNode, q: Path): Owners
  {
    (map p | p in Between(q, s, |q|) :: leaf) + own
  }

  /** Nothing longer than `n`'s path is bound towards `q`. */
  lemma FreshPrefixes(T: Tree, own: Owners, root: RadixNode, P: nat, n: RadixNode, q: Path)
    requires WF(T, own, root, P) && n in T && T[n].path <= q && |T[n].path| < |q|
    requires q[|T[n].path|] !in T[n].children
    ensures forall p :: p <= q && |p| > |T[n].path| ==> p !in own
  {
    var p0 := q[..|T[n].path| + 1];
    assert p0[..|p0| - 1] == T[n].path;
    NoChildNoPrefix(T, own, root, P, n, p0);
    forall p | p <= q && |p| > |T[n].path| ensures p !in own {
      assert p0 <= p;
      if p in own { PrefixClosed(T, own, root, P, p, p0); }
    }
  }

  lemma LeafWF(T: Tree, own: Owners, root: RadixNode, P: nat, n: RadixNode, leaf: RadixNode, q: Path, pages: seq<int>)
    requires WF(T, own, root, P) && n in T && leaf !in T && T[n].path <= q && |T[n].path| < |q|
    requires |pages| == |q| - |T[n].path| && Uniform(q, P)
    requires q[|T[n].path|] !in T[n].children
    ensures WF(LeafTree(T, n, leaf, q, pages), LeafOwn(own, |T[n].path|, leaf, q), root, P)
  {
    var T' := LeafTree(T, n, leaf, q, pages);
    var s := |T[n].path|;
    forall m {:trigger EdgeOK(T', m, P)} | m in T' && m != root ensures EdgeOK(T', m, P) {
      if m != leaf { assert EdgeOK(T, m, P); }
    }
    forall m, b {:trigger ChildOK(T', m, b)} | m in T' && b in T'[m].children ensures ChildOK(T', m, b) {
      if !(m == n && b == q[s]) { assert ChildOK(T, m, b); }
    }
    LeafOwned(T, own, root, P, n, leaf, q, pages);
  }

  lemma LeafOwned(T: Tree, own: Owners, root: RadixNode, P: nat, n: RadixNode, leaf: RadixNode, q: Path,
                  pages: seq<int>)
    requires WF(T, own, root, P) && n in T && leaf !in T && T[n].path <= q && |T[n].path| < |q|
    requires |pages| == |q| - |T[n].path|
    requires q[|T[n].path|] !in T[n].children
    ensures Owned(LeafTree(T, n, leaf, q, pages), LeafOwn(own, |T[n].path|, leaf, q))
  {
    var T' := LeafTree(T, n, leaf, q, pages);
    var own' := LeafOwn(own, |T[n].path|, leaf, q);
    FreshPrefixes(T, own, root, P, n, q);
    BetweenAll(q, |T[n].path|, |q|);
    forall p {:trigger OwnerOK(T', own', p)} | p in own' ensures OwnerOK(T', own', p) {
      if p in own { assert OwnerOK(T, own, p); }
    }
    forall m, p {:trigger Covers(T'[m], p)} | m in T' && Covers(T'[m], p) ensures p in own' && own'[p] == m {
      if m != leaf {
        assert Covers(T[m], p);
      }
    }
  }

  /** The abstract insertion: every missing beginning of `q` is bound to the page at its
      place in `pages`; what was bound stays. */
  ghost function Insert(bind: map<Path, int>, q: Path, pages: seq<int>): map<Path, int>
    requires |pages| >= |q|
  {
    (map p | p in Beginnings(q) && 0 < |p| <= |q| :: pages[|p| - 1]) + bind
  }

  lemma LeafOldPoint(T: Tree, own: Owners, n: RadixNode, leaf: RadixNode, q: Path, pages: seq<int>, p: Path)
    requires n in T && leaf !in T && |T[n].path| < |q| && |pages| == |q| - |T[n].path|
    requires p in own && OwnerOK(T, own, p)
    ensures var T' := LeafTree(T, n, leaf, q, pages);
            OwnerOK(T', own, p) && PageOf(T'[own[p]], p) == PageOf(T[own[p]], p)
  {}

  lemma LeafNewPoint(T: Tree, n: RadixNode, leaf: RadixNode, q: Path, pages: seq<int>, p: Path)
    requires n in T && leaf !in T && |T[n].path| < |q| && |pages| >= |q|
    requires |T[n].path| < |p| <= |q| && p <= q
    ensures var T' := LeafTree(T, n, leaf, q, pages[|T[n].path|..|q|]);
            Covers(T'[leaf], p) && PageOf(T'[leaf], p) == pages[|p| - 1]
  {}

  lemma LeafPoint(T: Tree, own: Owners, n: RadixNode, leaf: RadixNode, q: Path, pages: seq<int>, p: Path)
    requires n in T && leaf !in T && |T[n].path| < |q| && |pages| >= |q| && Owned(T, own)
    requires Owned(LeafTree(T, n, leaf, q, pages[|T[n].path|..|q|]), LeafOwn(own, |T[n].path|, leaf, q))
    requires p in LeafOwn(own, |T[n].path|, leaf, q)
    ensures var B' := Bind(LeafTree(T, n, leaf, q, pages[|T[n].path|..|q|]), LeafOwn(own, |T[n].path|, leaf, q));
            p in B' && B'[p] == if p in own then Bind(T, own)[p] else pages[|p| - 1]
    ensures p !in own ==> |T[n].path| < |p| <= |q| && p <= q
  {
    BetweenIn(q, |T[n].path|, |q|, p);
    BindPoint(LeafTree(T, n, leaf, q, pages[|T[n].path|..|q|]), LeafOwn(own, |T[n].path|, leaf, q), p);
    if p in own {
      BindPoint(T, own, p);
      LeafOldPoint(T, own, n, leaf, q, pages[|T[n].path|..|q|], p);
    } else {
      LeafNewPoint(T, n, leaf, q, pages, p);
    }
  }

  lemma InsertPoint(B: map<Path, int>, q: Path, pages: seq<int>, p: Path)
    requires |pages| >= |q|
    ensures p in Insert(B, q, pages) <==> p in B || (p != [] && p <= q)
    ensures p in B ==> Insert(B, q, pages)[p] == B[p]
    ensures p !in B && p != [] && p <= q ==> Insert(B, q, pages)[p] == pages[|p| - 1]
  {
    BetweenIn(q, 0, |q|, p);
  }

  lemma LeafKey(T: Tree, own: Owners, root: RadixNode, P: nat, n: RadixNode, leaf: RadixNode, q: Path, p: Path)
    requires WF(T, own, root, P) && n in T && T[n].path <= q
    ensures p in LeafOwn(own, |T[n].path|, leaf, q) <==> p in own || (p != [] && p <= q)
  {
    BetweenIn(q, |T[n].path|, |q|, p);
    if p != [] && p <= q && |p| <= |T[n].path| {
      PathOwned(T, own, root, P, n, p);
    }
  }

  lemma LeafBind(T: Tree, own: Owners, root: RadixNode, P: nat, n: RadixNode, leaf: RadixNode, q: Path, pages: seq<int>)
    requires WF(T, own, root, P) && n in T && leaf !in T && T[n].path <= q && |T[n].path| < |q|
    requires |pages| >= |q| && q[|T[n].path|] !in T[n].children
    ensures Bind(LeafTree(T, n, leaf, q, pages[|T[n].path|..|q|]), LeafOwn(own, |T[n].path|, leaf, q))
         == Insert(Bind(T, own), q, pages)
  {
    var own' := LeafOwn(own, |T[n].path|, leaf, q);
    var B := Bind(LeafTree(T, n, leaf, q, pages[|T[n].path|..|q|]), own');
    var B' := Insert(Bind(T, own), q, pages);
    LeafOwned(T, own, root, P, n, leaf, q, pages[|T[n].path|..|q|]);
    BindAt(T, own);
    BindAt(LeafTree(T, n, leaf, q, pages[|T[n].path|..|q|]), own');
    forall p {:trigger p in B} ensures p in B <==> p in B' {
      LeafKey(T, own, root, P, n, leaf, q, p);
      InsertPoint(Bind(T, own), q, pages, p);
    }
    assert B.Keys == B'.Keys;
    forall p {:trigger p in B} | p in B ensures p in B' && B[p] == B'[p] {
      LeafPoint(T, own, n, leaf, q, pages, p);
      InsertPoint(Bind(T, own), q, pages, p);
    }
    SameMap(B, B');
  }

  // ---- drop a leaf (radix_cache.py:240-245) ----

  ghost function DropTree(T: Tree, n: RadixNode, P: nat): Tree
    requires n in T && EdgeOK(T, n, P)
  {
    var up := T[n].parent;
    T[up := T[up].(children := T[up].children - {T[n].path[Start(T[n])]})] - {n}
  }

  ghost function DropOwn(T: Tree, own: Owners, n: RadixNode): Owners {
    map p | p in own && own[p] != n :: own[p]
  }

  lemma DropWF(T: Tree, own: Owners, root: RadixNode, P: nat, n: RadixNode)
    requires WF(T, own, root, P) && n in T && n != root && EdgeOK(T, n, P) && T[n].children == map[]
    ensures WF(DropTree(T, n, P), DropOwn(T, own, n), root, P)
  {
    var T' := DropTree(T, n, P);
    var own' := DropOwn(T, own, n);
    OwnPath(T, own, root, P, T[n].parent);
    assert T[n].parent != n;
    forall m {:trigger EdgeOK(T', m, P)} | m in T' && m != root ensures EdgeOK(T', m, P) {
      assert EdgeOK(T, m, P);
      if T[m].parent == T[n].parent {
        assert T[m].path[Start(T[m])] == T[n].path[Start(T[n])] ==> m == n;
      }
    }
    forall m, b {:trigger ChildOK(T', m, b)} | m in T' && b in T'[m].children ensures ChildOK(T', m, b) {
      assert ChildOK(T, m, b);
    }
    forall p {:trigger OwnerOK(T', own', p)} | p in own' ensures OwnerOK(T', own', p) {
      assert OwnerOK(T, own, p);
    }
    forall m, p {:trigger Covers(T'[m], p)} | m in T' && Covers(T'[m], p) ensures p in own' && own'[p] == m {
      assert Covers(T[m], p);
    }
  }

  /** The prefixes whose page node `n` holds. */
  ghost function Edge(i: NodeInfo): set<Path> {
    Between(i.path, Start(i), |i.path|)
  }

  lemma EdgeOwned(T: Tree, own: Owners, root: RadixNode, P: nat, n: RadixNode, p: Path)
    requires WF(T, own, root, P) && n in T && n != root && EdgeOK(T, n, P)
    ensures p in Edge(T[n]) <==> p in own && own[p] == n
  {
    BetweenIn(T[n].path, Start(T[n]), |T[n].path|, p);
    assert p in Edge(T[n]) <==> Covers(T[n], p);
    if p in own {
      assert OwnerOK(T, own, p);
    }
  }

  lemma DropBind(T: Tree, own: Owners, root: RadixNode, P: nat, n: RadixNode)
    requires WF(T, own, root, P) && n in T && n != root && EdgeOK(T, n, P) && T[n].children == map[]
    ensures Bind(DropTree(T, n, P), DropOwn(T, own, n)) == Bind(T, own) - Edge(T[n])
    ensures DropOwn(T, own, n) == own - Edge(T[n])
  {
    var T' := DropTree(T, n, P);
    var own' := DropOwn(T, own, n);
    DropWF(T, own, root, P, n);
    forall p {:trigger p in Edge(T[n])} ensures p in Edge(T[n]) <==> p in own && own[p] == n {
      EdgeOwned(T, own, root, P, n, p);
    }
    BindAt(T, own);
    BindAt(T', own');
    forall p {:trigger p in Bind(T', own')} | p in own'
      ensures p in Bind(T, own) && Bind(T', own')[p] == Bind(T, own)[p]
    {
      BindPoint(T, own, p);
      BindPoint(T', own', p);
    }
    SameMap(Bind(T', own'), Bind(T, own) - Edge(T[n]));
  }

  // ---- move a node's pages to the other tier (hicache.py:304-335) ----

  ghost function MoveTree(T: Tree, n: RadixNode, pages: seq<int>, tier: Tier): Tree
    requires n in T
  {
    T[n := T[n].(pages := pages, tier := tier)]
  }

  lemma MoveWF(T: Tree, own: Owners, root: RadixNode, P: nat, n: RadixNode, pages: seq<int>, tier: Tier)
    requires WF(T, own, root, P) && n in T && |pages| == |T[n].pages| && n != root
    ensures WF(MoveTree(T, n, pages, tier), own, root, P)
  {
    var T' := MoveTree(T, n, pages, tier);
    forall m {:trigger EdgeOK(T', m, P)} | m in T' && m != root ensures EdgeOK(T', m, P) { assert EdgeOK(T, m, P); }
    forall m, b {:trigger ChildOK(T', m, b)} | m in T' && b in T'[m].children
      ensures ChildOK(T', m, b)
    {
      assert ChildOK(T, m, b);
    }
    forall p {:trigger OwnerOK(T', own, p)} | p in own ensures OwnerOK(T', own, p) { assert OwnerOK(T, own, p); }
    forall m, p {:trigger Covers(T'[m], p)} | m in T' && Covers(T'[m], p)
      ensures p in own && own[p] == m
    {
      assert Covers(T[m], p);
    }
  }

  // ---- which tier holds what ----

  /** The part of the cache's map whose pages live in tier `t`. */
  ghost function TierBind(T: Tree, own: Owners, t: Tier): map<Path, int> {
    map p | p in own && OwnerOK(T, own, p) && T[own[p]].tier == t :: PageOf(T[own[p]], p)
  }

  lemma TierPoint(T: Tree, own: Owners, t: Tier, p: Path)
    requires Owned(T, own)
    ensures p in TierBind(T, own, t) <==> p in own && own[p] in T && T[own[p]].tier == t
    ensures p in TierBind(T, own, t) ==> OwnerOK(T, own, p) && TierBind(T, own, t)[p] == PageOf(T[own[p]], p)
  {
    if p in own { assert OwnerOK(T, own, p); }
  }

  /** Splitting an edge leaves both parts in the tier the edge was in. */
  lemma SplitTier(T: Tree, own: Owners, root: RadixNode, P: nat, n: RadixNode, mid: RadixNode, k: nat, t: Tier)
    requires WF(T, own, root, P) && n in T && n != root && mid !in T
    requires EdgeOK(T, n, P) && 0 < k < |T[n].pages|
    ensures TierBind(SplitTree(T, n, mid, k, P), SplitOwn(T, own, n, mid, k), t) == TierBind(T, own, t)
  {
    var T', own' := SplitTree(T, n, mid, k, P), SplitOwn(T, own, n, mid, k);
    var B, B' := TierBind(T, own, t), TierBind(T', own', t);
    SplitOwned(T, own, root, P, n, mid, k);
    forall p {:trigger p in B'} ensures (p in B' <==> p in B) && (p in B ==> B'[p] == B[p]) {
      TierPoint(T, own, t, p);
      TierPoint(T', own', t, p);
      if p in own {
        assert OwnerOK(T, own, p);
        SplitPoint(T, own, root, P, n, mid, k, p);
      }
    }
    SameMap(B', B);
  }

  /** A new leaf starts on the GPU. */
  lemma LeafTier(T: Tree, own: Owners, root: RadixNode, P: nat, n: RadixNode, leaf: RadixNode, q: Path, pages: seq<int>)
    requires WF(T, own, root, P) && n in T && leaf !in T && T[n].path <= q && |T[n].path| < |q|
    requires |pages| == |q| - |T[n].path| && q[|T[n].path|] !in T[n].children
    ensures TierBind(LeafTree(T, n, leaf, q, pages), LeafOwn(own, |T[n].path|, leaf, q), CPU) == TierBind(T, own, CPU)
  {
    var T', own' := LeafTree(T, n, leaf, q, pages), LeafOwn(own, |T[n].path|, leaf, q);
    var B, B' := TierBind(T, own, CPU), TierBind(T', own', CPU);
    LeafOwned(T, own, root, P, n, leaf, q, pages);
    forall p {:trigger p in B'} ensures (p in B' <==> p in B) && (p in B ==> B'[p] == B[p]) {
      TierPoint(T, own, CPU, p);
      TierPoint(T', own', CPU, p);
      if p in own {
        assert OwnerOK(T, own, p);
        LeafOldPoint(T, own, n, leaf, q, pages, p);
      }
    }
    SameMap(B', B);
  }
}
