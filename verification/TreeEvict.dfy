/** Eviction on snapshots (radix_cache.py:215-255, 272-294): which leaf may go next, what a
    run of evictions does to the tree, and why a leaf-first sweep reaches every unlocked page. */
module TreeEvict {
  import opened Paging
  import opened TreeModel
  import opened TreeOps
  import opened TreeLocks
  import opened TreeCount

  // ---- subtrees ----

  /** `n` and everything below it. */
  ghost function Sub(T: Tree, n: RadixNode): set<RadixNode>
    requires n in T
  {
    set m | m in T && T[n].path <= T[m].path
  }

  /** What hangs below `n` under the child keys `keys`. */
  ghost function Hanging(T: Tree, n: RadixNode, keys: set<Block>): set<RadixNode>
    requires n in T
  {
    set m | m in T && T[n].path <= T[m].path && |T[n].path| < |T[m].path| && T[m].path[|T[n].path|] in keys
  }

  lemma HangingAll(T: Tree, own: Owners, root: RadixNode, P: nat, n: RadixNode)
    requires WF(T, own, root, P) && n in T
    ensures Sub(T, n) - Hanging(T, n, T[n].children.Keys) == {n}
    ensures Hanging(T, n, {}) == {}
  {
    forall m {:trigger m in T} | m in T && T[n].path <= T[m].path && m != n
      ensures m in Hanging(T, n, T[n].children.Keys)
    {
      ChildToward(T, own, root, P, n, m);
    }
  }

  lemma HangingStep(T: Tree, own: Owners, root: RadixNode, P: nat, n: RadixNode, keys: set<Block>, b: Block)
    requires WF(T, own, root, P) && n in T && b in keys && keys <= T[n].children.Keys
    ensures ChildOK(T, n, b)
    ensures var c := T[n].children[b];
      && Hanging(T, n, keys) == Hanging(T, n, keys - {b}) + Sub(T, c)
      && Hanging(T, n, keys - {b}) !! Sub(T, c)
      && Sub(T, c) < Sub(T, n)
  {
    var c := T[n].children[b];
    assert ChildOK(T, n, b);
    OwnPath(T, own, root, P, c);
    assert EdgeOK(T, c, P);
    assert T[n].path <= T[c].path && |T[n].path| < |T[c].path|;
    forall m {:trigger m in T} | m in T && T[n].path <= T[m].path && |T[n].path| < |T[m].path|
      && T[m].path[|T[n].path|] == b
      ensures m in Sub(T, c)
    {
      ChildToward(T, own, root, P, n, m);
    }
    assert n in Sub(T, n) && n !in Sub(T, c);
  }

  lemma HangingCount(T: Tree, own: Owners, root: RadixNode, P: nat, refs: Refs, n: RadixNode, keys: set<Block>,
                     b: Block, locked: bool)
    requires WF(T, own, root, P) && n in T && b in keys && keys <= T[n].children.Keys && T[n].children[b] in T
    ensures |PagesIn(own, refs, Sub(T, n) - Hanging(T, n, keys - {b}), locked)|
         == |PagesIn(own, refs, Sub(T, n) - Hanging(T, n, keys), locked)| +
           |PagesIn(own, refs, Sub(T, T[n].children[b]), locked)|
  {
    HangingStep(T, own, root, P, n, keys, b);
    var seen, next, below := Sub(T, n) - Hanging(T, n, keys), Sub(T, n) - Hanging(T, n, keys - {b}),
      Sub(T, T[n].children[b]);
    assert next == seen + below;
    PagesInUnion(own, refs, seen, below, locked);
  }

  // ---- who may be evicted ----

  ghost predicate UnlockedLeaf(T: Tree, refs: Refs, root: RadixNode, n: RadixNode) {
    n in T && n in refs && n != root && T[n].children == map[] && refs[n] == 0
  }

  ghost function UnlockedLeaves(T: Tree, refs: Refs, root: RadixNode): set<RadixNode> {
    set n | n in T && UnlockedLeaf(T, refs, root, n)
  }

  /** The bound prefixes whose page lies on an unlocked node: what `num_evictable_pages`
      counts. */
  ghost function Evictable(own: Owners, refs: Refs): set<Path> {
    set p | p in own && own[p] in refs && refs[own[p]] == 0
  }

  lemma {:induction false} UnlockedReachesLeaf(T: Tree, own: Owners, root: RadixNode, P: nat, refs: Refs, locks: Locks,
                                               n: RadixNode, k: nat)
    requires WF(T, own, root, P) && Counted(T, root, refs, locks, null)
    requires n in T && n != root && refs[n] == 0
    requires forall m {:trigger m in T} :: m in T ==> |T[m].path| <= |T[n].path| + k
    ensures UnlockedLeaves(T, refs, root) != {}
    decreases k
  {
    if T[n].children == map[] {
      assert n in UnlockedLeaves(T, refs, root);
    } else {
      var b :| b in T[n].children;
      var c := T[n].children[b];
      assert ChildOK(T, n, b);
      OwnPath(T, own, root, P, c);
      assert EdgeOK(T, c, P);
      UnlockedBelow(T, root, refs, locks, null, n, c);
      assert k > 0 by { assert c in T; }
      UnlockedReachesLeaf(T, own, root, P, refs, locks, c, k - 1);
    }
  }

  lemma {:induction false} LongestPath(T: Tree, nodes: set<RadixNode>) returns (k: nat)
    requires nodes <= T.Keys
    ensures forall m {:trigger T[m]} :: m in nodes ==> |T[m].path| <= k
  {
    if nodes == {} {
      k := 0;
    } else {
      var n :| n in nodes;
      k := LongestPath(T, nodes - {n});
      if |T[n].path| > k { k := |T[n].path|; }
      assert nodes == (nodes - {n}) + {n};
    }
  }

  /** An unlocked node has no locked descendant, so while any unlocked page is left there is an
      unlocked leaf to evict. */
  lemma NoLeafNoPage(T: Tree, own: Owners, root: RadixNode, P: nat, refs: Refs, locks: Locks)
    requires WF(T, own, root, P) && Counted(T, root, refs, locks, null)
    requires UnlockedLeaves(T, refs, root) == {}
    ensures Evictable(own, refs) == {}
  {
    if p :| p in Evictable(own, refs) {
      assert OwnerOK(T, own, p);
      OwnPath(T, own, root, P, own[p]);
      var k := LongestPath(T, T.Keys);
      forall m {:trigger m in T} | m in T ensures |T[m].path| <= |T[own[p]].path| + k {
        assert m in T.Keys;
      }
      UnlockedReachesLeaf(T, own, root, P, refs, locks, own[p], k);
    }
  }

  // ---- one eviction ----

  /** A snapshot of the parts of the cache that eviction changes. */
  datatype Snap = Snap(tree: Tree, own: Owners, refs: Refs)

  /** Among the unlocked leaves `v` has the oldest access time. */
  ghost predicate Victim(s: Snap, root: RadixNode, ages: map<RadixNode, int>, v: RadixNode) {
    && UnlockedLeaf(s.tree, s.refs, root, v) && v in ages
    && forall m {:trigger UnlockedLeaf(s.tree, s.refs, root, m)} ::
         m in s.tree && UnlockedLeaf(s.tree, s.refs, root, m) ==> m in ages && ages[v] <= ages[m]
  }

  ghost predicate Good(s: Snap, root: RadixNode, P: nat, locks: Locks) {
    WF(s.tree, s.own, root, P) && Counted(s.tree, root, s.refs, locks, null)
  }

  ghost function Drop(s: Snap, v: RadixNode, P: nat): Snap {
    if v in s.tree && EdgeOK(s.tree, v, P)
    then Snap(DropTree(s.tree, v, P), DropOwn(s.tree, s.own, v), s.refs - {v})
    else s
  }

  lemma DropGood(s: Snap, root: RadixNode, P: nat, locks: Locks, v: RadixNode)
    requires Good(s, root, P, locks) && UnlockedLeaf(s.tree, s.refs, root, v)
    ensures EdgeOK(s.tree, v, P) && Good(Drop(s, v, P), root, P, locks)
    ensures |Drop(s, v, P).own| == |s.own| - |s.tree[v].pages|
  {
    assert EdgeOK(s.tree, v, P);
    DropWF(s.tree, s.own, root, P, v);
    DropCounted(s.tree, s.own, root, P, s.refs, locks, null, v);
    DropSize(s.tree, s.own, root, P, v);
  }

  lemma DropEvictable(s: Snap, root: RadixNode, P: nat, locks: Locks, v: RadixNode)
    requires Good(s, root, P, locks) && UnlockedLeaf(s.tree, s.refs, root, v) && EdgeOK(s.tree, v, P)
    ensures var s' := Drop(s, v, P);
      |Evictable(s'.own, s'.refs)| == |Evictable(s.own, s.refs)| - |s.tree[v].pages|
  {
    var s', e := Drop(s, v, P), Edge(s.tree[v]);
    forall p {:trigger p in e} ensures p in e <==> p in s.own && s.own[p] == v {
      EdgeOwned(s.tree, s.own, root, P, v, p);
    }
    assert e <= Evictable(s.own, s.refs);
    assert Evictable(s'.own, s'.refs) == Evictable(s.own, s.refs) - e;
    EdgeSize(s.tree[v]);
    RemoveSize(Evictable(s.own, s.refs), e);
  }

  /** Dropping a leaf can make only its parent a new leaf. */
  lemma DropLeaves(s: Snap, root: RadixNode, P: nat, locks: Locks, v: RadixNode)
    requires Good(s, root, P, locks) && UnlockedLeaf(s.tree, s.refs, root, v) && EdgeOK(s.tree, v, P)
    ensures var t, up := Drop(s, v, P), s.tree[v].parent;
      && up in t.tree
      && UnlockedLeaves(t.tree, t.refs, root) == UnlockedLeaves(s.tree, s.refs, root) - {v}
           + (if UnlockedLeaf(t.tree, t.refs, root, up) then {up} else {})
  {
    OwnPath(s.tree, s.own, root, P, s.tree[v].parent);
    assert s.tree[v].parent != v;
    assert s.tree[s.tree[v].parent].children != map[];
  }

  // ---- a run of evictions ----

  ghost function DropAll(s: Snap, vs: seq<RadixNode>, P: nat): Snap {
    if vs == [] then s else Drop(DropAll(s, vs[..|vs| - 1], P), vs[|vs| - 1], P)
  }

  /** Each victim is, when its turn comes, a least recently used unlocked leaf. */
  ghost predicate LruRun(s: Snap, root: RadixNode, P: nat, ages: map<RadixNode, int>, vs: seq<RadixNode>) {
    vs == [] ||
    (LruRun(s, root, P, ages, vs[..|vs| - 1]) && Victim(DropAll(s, vs[..|vs| - 1], P), root, ages, vs[|vs| - 1]))
  }

  /** The prefixes a node binds, in the order of its pages. */
  ghost function EdgeSeq(i: NodeInfo): seq<Path>
    requires |i.pages| <= |i.path|
  {
    seq(|i.pages|, j requires 0 <= j < |i.pages| => i.path[..Start(i) + j + 1])
  }

  /** The prefixes a run of evictions unbinds, in order. */
  ghost function Gone(s: Snap, vs: seq<RadixNode>, P: nat): seq<Path> {
    if vs == [] then [] else
      var t, v := DropAll(s, vs[..|vs| - 1], P), vs[|vs| - 1];
      Gone(s, vs[..|vs| - 1], P) + (if v in t.tree
        && |t.tree[v].pages| <= |t.tree[v].path| then EdgeSeq(t.tree[v]) else [])
  }

  /** The pages it frees, in order. */
  ghost function Freed(s: Snap, vs: seq<RadixNode>, P: nat): seq<int> {
    if vs == [] then [] else
      var t, v := DropAll(s, vs[..|vs| - 1], P), vs[|vs| - 1];
      Freed(s, vs[..|vs| - 1], P) + (if v in t.tree then t.tree[v].pages else [])
  }

  /** `vs` is a run of evictions from `s` to `t` that frees `pages`, and without its last
      victim it had not yet freed `need` pages. */
  ghost predicate Run(s: Snap, root: RadixNode, P: nat, ages: map<RadixNode, int>, vs: seq<RadixNode>, t: Snap,
                      pages: seq<int>, need: int)
  {
    && LruRun(s, root, P, ages, vs) && t == DropAll(s, vs, P) && pages == Freed(s, vs, P)
    && (vs != [] ==> |Freed(s, vs[..|vs| - 1], P)| < need)
  }

  lemma RunStart(s: Snap, root: RadixNode, P: nat, ages: map<RadixNode, int>, need: int)
    ensures Run(s, root, P, ages, [], s, [], need)
  {}

  lemma RunStep(s: Snap, root: RadixNode, P: nat, ages: map<RadixNode, int>, vs: seq<RadixNode>, t: Snap,
                pages: seq<int>, need: int, v: RadixNode)
    requires Run(s, root, P, ages, vs, t, pages, need) && Victim(t, root, ages, v) && |pages| < need
    ensures Run(s, root, P, ages, vs + [v], Drop(t, v, P), pages + t.tree[v].pages, need)
  {
    assert (vs + [v])[..|vs + [v]| - 1] == vs;
  }

  lemma {:induction false} RunGood(s: Snap, root: RadixNode, P: nat, locks: Locks, ages: map<RadixNode, int>,
                                   vs: seq<RadixNode>)
    requires Good(s, root, P, locks) && LruRun(s, root, P, ages, vs)
    ensures var t := DropAll(s, vs, P);
      && Good(t, root, P, locks)
      && |t.own| == |s.own| - |Freed(s, vs, P)|
      && |Evictable(t.own, t.refs)| == |Evictable(s.own, s.refs)| - |Freed(s, vs, P)|
  {
    if vs != [] {
      var vs', v := vs[..|vs| - 1], vs[|vs| - 1];
      RunGood(s, root, P, locks, ages, vs');
      DropGood(DropAll(s, vs', P), root, P, locks, v);
      DropEvictable(DropAll(s, vs', P), root, P, locks, v);
    }
  }

  /** `gone` are distinct prefixes, `freed` their pages, and nothing else is unbound. */
  ghost predicate Unbound(B: map<Path, int>, B': map<Path, int>, gone: seq<Path>, freed: seq<int>) {
    && |freed| == |gone|
    && (forall i, j {:trigger gone[i], gone[j]} :: 0 <= i < j < |gone| ==> gone[i] != gone[j])
    && (forall i {:trigger gone[i]} :: 0 <= i < |gone| ==> gone[i] in B && B[gone[i]] == freed[i])
    && B' == B - (set p | p in gone)
  }

  lemma UnboundTrans(B: map<Path, int>, B1: map<Path, int>, B2: map<Path, int>, g1: seq<Path>, f1: seq<int>,
                     g2: seq<Path>, f2: seq<int>)
    requires Unbound(B, B1, g1, f1) && Unbound(B1, B2, g2, f2)
    ensures Unbound(B, B2, g1 + g2, f1 + f2)
  {
    forall i {:trigger g2[i]} | 0 <= i < |g2| ensures g2[i] !in g1 && g2[i] in B && B[g2[i]] == f2[i] {}
    assert (set p | p in g1 + g2) == (set p | p in g1) + (set p | p in g2);
  }

  lemma EdgeSeqUnbound(s: Snap, root: RadixNode, P: nat, locks: Locks, v: RadixNode)
    requires Good(s, root, P, locks) && UnlockedLeaf(s.tree, s.refs, root, v) && EdgeOK(s.tree, v, P)
    ensures var t := Drop(s, v, P);
      Unbound(Bind(s.tree, s.own), Bind(t.tree, t.own), EdgeSeq(s.tree[v]), s.tree[v].pages)
  {
    var i, g, B := s.tree[v], EdgeSeq(s.tree[v]), Bind(s.tree, s.own);
    DropBind(s.tree, s.own, root, P, v);
    forall j {:trigger g[j]} | 0 <= j < |g| ensures g[j] in B && B[g[j]] == i.pages[j] && g[j] in Edge(i) {
      assert Covers(i, g[j]);
      EdgeOwned(s.tree, s.own, root, P, v, g[j]);
      BindPoint(s.tree, s.own, g[j]);
    }
    BetweenAll(i.path, Start(i), |i.path|);
    forall p {:trigger p in Edge(i)} | p in Edge(i) ensures p in g {
      assert p == g[|p| - Start(i) - 1];
    }
    assert (set p | p in g) == Edge(i);
  }

  lemma {:induction false} RunUnbound(s: Snap, root: RadixNode, P: nat, locks: Locks, ages: map<RadixNode, int>,
                                      vs: seq<RadixNode>)
    requires Good(s, root, P, locks) && LruRun(s, root, P, ages, vs)
    ensures var t := DropAll(s, vs, P);
      Unbound(Bind(s.tree, s.own), Bind(t.tree, t.own), Gone(s, vs, P), Freed(s, vs, P))
  {
    if vs == [] {
      assert Bind(s.tree, s.own) == Bind(s.tree, s.own) - (set p | p in Gone(s, vs, P));
    } else {
      var vs', v := vs[..|vs| - 1], vs[|vs| - 1];
      var t := DropAll(s, vs', P);
      RunUnbound(s, root, P, locks, ages, vs');
      RunGood(s, root, P, locks, ages, vs');
      assert EdgeOK(t.tree, v, P);
      EdgeSeqUnbound(t, root, P, locks, v);
      UnboundTrans(Bind(s.tree, s.own), Bind(t.tree, t.own), Bind(Drop(t, v, P).tree, Drop(t, v, P).own),
                   Gone(s, vs', P), Freed(s, vs', P), EdgeSeq(t.tree[v]), t.tree[v].pages);
    }
  }

  /** A run keeps the counts of the nodes it leaves, and only drops unlocked ones. */
  lemma {:induction false} RunRefs(s: Snap, root: RadixNode, P: nat, locks: Locks, ages: map<RadixNode, int>,
                                   vs: seq<RadixNode>, n: RadixNode)
    requires Good(s, root, P, locks) && LruRun(s, root, P, ages, vs) && n in s.tree
    ensures var t := DropAll(s, vs, P);
      if n in t.tree then n in t.refs && n in s.refs && t.refs[n] == s.refs[n] && t.tree[n].path == s.tree[n].path
      else n in s.refs && s.refs[n] == 0
  {
    if vs != [] {
      var vs', v := vs[..|vs| - 1], vs[|vs| - 1];
      RunRefs(s, root, P, locks, ages, vs', n);
      RunGood(s, root, P, locks, ages, vs');
      assert EdgeOK(DropAll(s, vs', P).tree, v, P);
    }
  }

  /** `t` has only nodes of `s`, at the same places and with the same counts. */
  ghost predicate Shrunk(s: Snap, t: Snap) {
    forall n {:trigger n in t.tree} :: n in t.tree ==>
      n in s.tree && t.tree[n].path == s.tree[n].path && n in s.refs && n in t.refs && t.refs[n] == s.refs[n]
  }

  lemma ShrunkSelf(s: Snap)
    requires s.refs.Keys == s.tree.Keys
    ensures Shrunk(s, s)
  {}

  lemma {:induction false} RunShrunk(s: Snap, root: RadixNode, P: nat, locks: Locks, ages: map<RadixNode, int>,
                                     vs: seq<RadixNode>)
    requires Good(s, root, P, locks) && LruRun(s, root, P, ages, vs)
    ensures Shrunk(s, DropAll(s, vs, P))
  {
    if vs != [] {
      var vs', v := vs[..|vs| - 1], vs[|vs| - 1];
      RunShrunk(s, root, P, locks, ages, vs');
      RunGood(s, root, P, locks, ages, vs');
    }
  }

  lemma RootReaches(T: Tree, own: Owners, root: RadixNode, P: nat)
    requires WF(T, own, root, P)
    ensures Sub(T, root) == T.Keys
  {}

  lemma NoLeafNoPageIf(T: Tree, own: Owners, root: RadixNode, P: nat, refs: Refs, locks: Locks)
    requires WF(T, own, root, P) && Counted(T, root, refs, locks, null)
    ensures UnlockedLeaves(T, refs, root) == {} ==> Evictable(own, refs) == {}
  {
    if UnlockedLeaves(T, refs, root) == {} {
      NoLeafNoPage(T, own, root, P, refs, locks);
    }
  }

  // ---- listing every page (`reset`, radix_cache.py:257-270) ----

  /** `gone` lists, without repetition, the prefixes whose page lies on a node of `S`, and
      `pages` their pages. */
  ghost predicate Listed(B: map<Path, int>, own: Owners, S: set<RadixNode>, gone: seq<Path>, pages: seq<int>) {
    && |gone| == |pages|
    && (forall i, j {:trigger gone[i], gone[j]} :: 0 <= i < j < |gone| ==> gone[i] != gone[j])
    && (forall i {:trigger gone[i]} :: 0 <= i < |gone| ==>
       gone[i] in own && own[gone[i]] in S && gone[i] in B && B[gone[i]] == pages[i])
    && (forall p {:trigger p in gone} :: p in own && own[p] in S ==> p in gone)
  }

  lemma ListedOne(T: Tree, own: Owners, root: RadixNode, P: nat, n: RadixNode)
    requires WF(T, own, root, P) && n in T
    ensures |T[n].pages| <= |T[n].path| && Listed(Bind(T, own), own, {n}, EdgeSeq(T[n]), T[n].pages)
  {
    var i, B := T[n], Bind(T, own);
    if n != root { assert EdgeOK(T, n, P); }
    var g := EdgeSeq(i);
    forall j {:trigger g[j]} | 0 <= j < |g|
      ensures g[j] in own && own[g[j]] == n && g[j] in B && B[g[j]] == i.pages[j]
    {
      assert Covers(i, g[j]);
      BindPoint(T, own, g[j]);
    }
    forall p {:trigger p in g} | p in own && own[p] == n ensures p in g {
      assert OwnerOK(T, own, p);
      assert p == g[|p| - Start(i) - 1];
    }
  }

  lemma ListedUnion(B: map<Path, int>, own: Owners, S: set<RadixNode>, S': set<RadixNode>, g: seq<Path>, f: seq<int>,
                    g': seq<Path>, f': seq<int>)
    requires S !! S' && Listed(B, own, S, g, f) && Listed(B, own, S', g', f')
    ensures Listed(B, own, S + S', g + g', f + f')
  {}

  lemma ListedAll(T: Tree, own: Owners, gone: seq<Path>, pages: seq<int>)
    requires Owned(T, own) && Listed(Bind(T, own), own, T.Keys, gone, pages)
    ensures Unbound(Bind(T, own), map[], gone, pages)
  {
    BindAt(T, own);
    forall p {:trigger p in own} | p in own ensures p in gone {
      assert OwnerOK(T, own, p);
    }
    assert Bind(T, own) - (set p | p in gone) == map[];
  }
}
