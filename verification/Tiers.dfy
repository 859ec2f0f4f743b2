/** Two storage tiers on snapshots (hicache.py): which prefixes live where, what each prefix
    contains, and what moving or dropping one node does to both. */
module Tiers {
  import opened KvData
  import opened Paging
  import opened TreeModel
  import opened TreeOps
  import opened TreeLocks
  import opened TreeCount
  import opened TreeEvict
  import opened PageLedger
  import opened Wrappers

  ghost function At(kv: seq<PageData>, x: int): PageData {
    if 0 <= x < |kv| then kv[x] else []
  }

  /** The storage of the two tiers. */
  datatype Storage = Storage(gpu: seq<PageData>, cpu: seq<PageData>)

  ghost function Of(kv: Storage, t: Tier): seq<PageData> {
    if t == GPU then kv.gpu else kv.cpu
  }

  /** What the cache stores for each bound prefix, wherever it is. */
  ghost function Content(T: Tree, own: Owners, kv: Storage): map<Path, PageData> {
    map p | p in own && OwnerOK(T, own, p) :: At(Of(kv, T[own[p]].tier), PageOf(T[own[p]], p))
  }

  lemma ContentPoint(T: Tree, own: Owners, kv: Storage, p: Path)
    requires Owned(T, own) && p in own
    ensures OwnerOK(T, own, p)
    ensures p in Content(T, own, kv) && Content(T, own, kv)[p] == At(Of(kv, T[own[p]].tier), PageOf(T[own[p]], p))
  {
    assert OwnerOK(T, own, p);
  }

  /** Every prefix still bound has what it had. */
  ghost predicate Kept<V>(C: map<Path, V>, C': map<Path, V>) {
    forall p {:trigger p in C'} :: p in C' ==> p in C && C'[p] == C[p]
  }

  /** Nodes that are locked or pinned stay, with their pages. */
  ghost predicate LockedKept(T: Tree, refs: Refs, T': Tree, refs': Refs) {
    forall n {:trigger LockedNodeKept(T, refs, T', refs', n)} :: n in T && n in refs ==>
      LockedNodeKept(T, refs, T', refs', n)
  }

  ghost predicate LockedNodeKept(T: Tree, refs: Refs, T': Tree, refs': Refs, n: RadixNode)
    requires n in T && n in refs
  {
    refs[n] > 0 ==> n in T' && T'[n].pages == T[n].pages && T'[n].tier == T[n].tier && T'[n].path == T[n].path
                    && n in refs' && refs'[n] == refs[n]
  }

  lemma LockedKeptTrans(T: Tree, refs: Refs, T1: Tree, refs1: Refs, T2: Tree, refs2: Refs)
    requires LockedKept(T, refs, T1, refs1) && LockedKept(T1, refs1, T2, refs2)
    ensures LockedKept(T, refs, T2, refs2)
  {
    forall n {:trigger LockedNodeKept(T, refs, T2, refs2, n)} | n in T && n in refs
      ensures LockedNodeKept(T, refs, T2, refs2, n)
    {
      assert LockedNodeKept(T, refs, T1, refs1, n);
      if refs[n] > 0 {
        assert LockedNodeKept(T1, refs1, T2, refs2, n);
      }
    }
  }

  // ---- moving a node between tiers ----

  /** The prefixes of `n` leave the tier they were in. */
  lemma MoveOut(T: Tree, own: Owners, root: RadixNode, P: nat, n: RadixNode, pages: seq<int>, t: Tier)
    requires WF(T, own, root, P) && n in T && n != root && |pages| == |T[n].pages| && t != T[n].tier
      && |T[n].pages| <= |T[n].path|
    ensures var T' := MoveTree(T, n, pages, t);
      Unbound(TierBind(T, own, T[n].tier), TierBind(T', own, T[n].tier), EdgeSeq(T[n]), T[n].pages)
  {
    var T', g, a := MoveTree(T, n, pages, t), EdgeSeq(T[n]), T[n].tier;
    MoveWF(T, own, root, P, n, pages, t);
    EdgeSeqIs(T, own, root, P, n);
    var B, B' := TierBind(T, own, a), TierBind(T', own, a);
    forall j {:trigger g[j]} | 0 <= j < |g| ensures g[j] in B && B[g[j]] == T[n].pages[j] {
      TierPoint(T, own, a, g[j]);
    }
    forall p {:trigger p in B'} ensures p in B' <==> p in B && p !in g {
      TierPoint(T, own, a, p);
      TierPoint(T', own, a, p);
    }
    assert B'.Keys == (B - (set p | p in g)).Keys;
    forall p {:trigger p in B'} | p in B' ensures p in B && B'[p] == B[p] {
      TierPoint(T, own, a, p);
      TierPoint(T', own, a, p);
    }
    SameMap(B', B - (set p | p in g));
  }

  /** The prefixes of `n`, in the order of its pages: those it owns, each once. */
  lemma EdgeSeqIs(T: Tree, own: Owners, root: RadixNode, P: nat, n: RadixNode)
    requires WF(T, own, root, P) && n in T && n != root && |T[n].pages| <= |T[n].path|
    ensures var g := EdgeSeq(T[n]);
      && (forall j {:trigger g[j]} :: 0 <= j < |g| ==> g[j] in own && own[g[j]] == n && PageIdx(T[n], g[j]) == j)
      && (forall p {:trigger p in g} :: p in g <==> p in own && own[p] == n)
      && (forall i, j {:trigger g[i], g[j]} :: 0 <= i < j < |g| ==> g[i] != g[j])
  {
    var i, g := T[n], EdgeSeq(T[n]);
    forall j {:trigger g[j]} | 0 <= j < |g| ensures g[j] in own && own[g[j]] == n && PageIdx(i, g[j]) == j {
      assert Covers(i, g[j]);
    }
    forall p {:trigger p in g} | p in own && own[p] == n ensures p in g {
      assert OwnerOK(T, own, p);
      assert p == g[|p| - Start(i) - 1];
    }
  }

  ghost function PageIdx(i: NodeInfo, p: Path): int {
    |p| - 1 - Start(i)
  }

  lemma EdgeSeqAt(i: NodeInfo, j: nat)
    requires j < |i.pages| <= |i.path|
    ensures EdgeSeq(i)[j] == i.path[..Start(i) + j + 1]
  {}

  /** And they enter the other tier. */
  lemma MoveIn(T: Tree, own: Owners, root: RadixNode, P: nat, n: RadixNode, pages: seq<int>, t: Tier)
    requires WF(T, own, root, P) && n in T && n != root && |pages| == |T[n].pages| && t != T[n].tier
      && |T[n].pages| <= |T[n].path|
    ensures var T' := MoveTree(T, n, pages, t);
      Unbound(TierBind(T', own, t), TierBind(T, own, t), EdgeSeq(T[n]), pages)
  {
    var T' := MoveTree(T, n, pages, t);
    MoveWF(T, own, root, P, n, pages, t);
    var g, g' := EdgeSeq(T[n]), EdgeSeq(T'[n]);
    forall j | 0 <= j < |g| ensures g'[j] == g[j] {
      EdgeSeqAt(T[n], j);
      EdgeSeqAt(T'[n], j);
    }
    assert g' == g;
    MoveOut(T', own, root, P, n, T[n].pages, T[n].tier);
    assert MoveTree(T', n, T[n].pages, T[n].tier) == T;
  }

  /** Copying the pages of `n` and then moving it leaves every prefix its contents, provided the
      target pages hold nothing else. */
  lemma MoveContent(T: Tree, own: Owners, root: RadixNode, P: nat, n: RadixNode, pages: seq<int>, t: Tier, kv: Storage,
                    kv': Storage)
    requires WF(T, own, root, P) && n in T && n != root && |pages| == |T[n].pages| && t != T[n].tier
    requires Of(kv', T[n].tier) == Of(kv, T[n].tier) && |Of(kv', t)| == |Of(kv, t)|
    requires forall j {:trigger pages[j]} :: 0 <= j < |pages| ==>
      At(Of(kv', t), pages[j]) == At(Of(kv, T[n].tier), T[n].pages[j])
    requires forall x {:trigger At(Of(kv', t), x)} :: x !in pages ==> At(Of(kv', t), x) == At(Of(kv, t), x)
    requires forall p {:trigger p in TierBind(T, own, t)} :: p in TierBind(T, own, t) ==>
      TierBind(T, own, t)[p] !in pages
    ensures Content(MoveTree(T, n, pages, t), own, kv') == Content(T, own, kv)
  {
    var T' := MoveTree(T, n, pages, t);
    MoveWF(T, own, root, P, n, pages, t);
    var C, C' := Content(T, own, kv), Content(T', own, kv');
    forall p {:trigger p in C'} | p in own ensures p in C && p in C' && C'[p] == C[p] {
      ContentPoint(T, own, kv, p);
      ContentPoint(T', own, kv', p);
      if own[p] == n {
        MovedPoint(T[n], pages, t, kv, kv', p);
      } else {
        TierPoint(T, own, t, p);
      }
    }
    SameMap(C', C);
  }

  lemma MovedPoint(i: NodeInfo, pages: seq<int>, t: Tier, kv: Storage, kv': Storage, p: Path)
    requires Covers(i, p) && |pages| == |i.pages|
    requires forall j {:trigger pages[j]} :: 0 <= j < |pages| ==>
      At(Of(kv', t), pages[j]) == At(Of(kv, i.tier), i.pages[j])
    ensures Covers(i.(pages := pages, tier := t), p)
    ensures At(Of(kv', t), PageOf(i.(pages := pages, tier := t), p)) == At(Of(kv, i.tier), PageOf(i, p))
  {
    var j := |p| - 1 - Start(i);
    assert PageOf(i.(pages := pages, tier := t), p) == pages[j];
  }

  lemma MoveLocked(T: Tree, refs: Refs, n: RadixNode, pages: seq<int>, t: Tier)
    requires n in T && n in refs && refs[n] <= 0
    ensures LockedKept(T, refs, MoveTree(T, n, pages, t), refs)
  {
    forall m {:trigger LockedNodeKept(T, refs, MoveTree(T, n, pages, t), refs, m)} | m in T && m in refs
      ensures LockedNodeKept(T, refs, MoveTree(T, n, pages, t), refs, m) {}
  }

  // ---- dropping a leaf of either tier ----

  lemma DropTier(T: Tree, own: Owners, root: RadixNode, P: nat, n: RadixNode, t: Tier)
    requires WF(T, own, root, P) && n in T && n != root && EdgeOK(T, n, P) && T[n].children == map[]
    ensures var T', own' := DropTree(T, n, P), DropOwn(T, own, n);
      if t == T[n].tier then Unbound(TierBind(T, own, t), TierBind(T', own', t), EdgeSeq(T[n]), T[n].pages)
      else TierBind(T', own', t) == TierBind(T, own, t)
  {
    var T', own', g := DropTree(T, n, P), DropOwn(T, own, n), EdgeSeq(T[n]);
    DropWF(T, own, root, P, n);
    EdgeSeqIs(T, own, root, P, n);
    var B, B' := TierBind(T, own, t), TierBind(T', own', t);
    forall j {:trigger g[j]} | 0 <= j < |g| && t == T[n].tier ensures g[j] in B && B[g[j]] == T[n].pages[j] {
      TierPoint(T, own, t, g[j]);
    }
    forall p {:trigger p in B'} ensures p in B' <==> p in B && p !in g {
      TierPoint(T, own, t, p);
      TierPoint(T', own', t, p);
    }
    forall p {:trigger p in B'} | p in B' ensures p in B && B'[p] == B[p] {
      TierPoint(T, own, t, p);
      TierPoint(T', own', t, p);
    }
    forall p {:trigger p in g} | p in g && t != T[n].tier ensures p !in B {
      TierPoint(T, own, t, p);
    }
    if t == T[n].tier {
      SameMap(B', B - (set p | p in g));
    } else {
      SameMap(B', B);
    }
  }

  lemma DropContent(T: Tree, own: Owners, root: RadixNode, P: nat, n: RadixNode, kv: Storage)
    requires WF(T, own, root, P) && n in T && n != root && EdgeOK(T, n, P) && T[n].children == map[]
    ensures Kept(Content(T, own, kv), Content(DropTree(T, n, P), DropOwn(T, own, n), kv))
  {
    var T', own' := DropTree(T, n, P), DropOwn(T, own, n);
    DropWF(T, own, root, P, n);
    forall p {:trigger p in Content(T', own', kv)} | p in Content(T', own', kv)
      ensures p in Content(T, own, kv) && Content(T', own', kv)[p] == Content(T, own, kv)[p]
    {
      ContentPoint(T, own, kv, p);
      ContentPoint(T', own', kv, p);
    }
  }

  lemma DropLocked(T: Tree, own: Owners, root: RadixNode, P: nat, refs: Refs, n: RadixNode)
    requires WF(T, own, root, P) && n in T && n in refs && EdgeOK(T, n, P) && refs[n] <= 0
    ensures LockedKept(T, refs, DropTree(T, n, P), refs - {n})
  {
    var T' := DropTree(T, n, P);
    forall m {:trigger LockedNodeKept(T, refs, T', refs - {n}, m)} | m in T && m in refs
      ensures LockedNodeKept(T, refs, T', refs - {n}, m) {}
  }

  // ---- what eviction can reach ----

  /** The prefixes whose page lies on an unlocked node of tier `t`. */
  ghost function EvictableIn(T: Tree, own: Owners, refs: Refs, t: Tier): set<Path> {
    set p | p in own && own[p] in T && own[p] in refs && refs[own[p]] == 0 && T[own[p]].tier == t
  }

  ghost function UnlockedNodes(T: Tree, refs: Refs, root: RadixNode, t: Tier): set<RadixNode> {
    set n | n in T && n in refs && n != root && refs[n] == 0 && T[n].tier == t
  }

  lemma NoNodeNoPage(T: Tree, own: Owners, root: RadixNode, P: nat, refs: Refs, t: Tier)
    requires WF(T, own, root, P) && UnlockedNodes(T, refs, root, t) == {}
    ensures EvictableIn(T, own, refs, t) == {}
  {
    forall p {:trigger p in own} | p in own ensures own[p] in T && own[p] != root {
      assert OwnerOK(T, own, p);
      OwnPath(T, own, root, P, own[p]);
    }
    forall p {:trigger p in EvictableIn(T, own, refs, t)} ensures p !in EvictableIn(T, own, refs, t) {
      if p in own {
        assert own[p] !in UnlockedNodes(T, refs, root, t);
      }
    }
  }

  /** Moving an unlocked node out of a tier takes exactly its pages off the evictable ones. */
  lemma MoveEvictable(T: Tree, own: Owners, root: RadixNode, P: nat, refs: Refs, n: RadixNode, pages: seq<int>, t: Tier)
    requires WF(T, own, root, P) && n in T && n in refs && n != root && refs[n] == 0 && t != T[n].tier
    requires |pages| == |T[n].pages|
    ensures var T', a := MoveTree(T, n, pages, t), T[n].tier;
      && |EvictableIn(T', own, refs, a)| == |EvictableIn(T, own, refs, a)| - |T[n].pages|
      && UnlockedNodes(T', refs, root, a) == UnlockedNodes(T, refs, root, a) - {n}
  {
    var T', a := MoveTree(T, n, pages, t), T[n].tier;
    assert EdgeOK(T, n, P);
    forall p {:trigger p in Edge(T[n])} ensures p in Edge(T[n]) <==> p in own && own[p] == n {
      EdgeOwned(T, own, root, P, n, p);
    }
    assert Edge(T[n]) <= EvictableIn(T, own, refs, a);
    assert EvictableIn(T', own, refs, a) == EvictableIn(T, own, refs, a) - Edge(T[n]);
    EdgeSize(T[n]);
    RemoveSize(EvictableIn(T, own, refs, a), Edge(T[n]));
  }

  /** Dropping an unlocked leaf takes its pages off the evictable ones of its tier. */
  lemma DropEvictableIn(T: Tree, own: Owners, root: RadixNode, P: nat, refs: Refs, n: RadixNode, t: Tier)
    requires WF(T, own, root, P) && refs.Keys == T.Keys && UnlockedLeaf(T, refs, root, n) && EdgeOK(T, n, P)
    ensures var T', own' := DropTree(T, n, P), DropOwn(T, own, n);
      if t != T[n].tier then EvictableIn(T', own', refs - {n}, t) == EvictableIn(T, own, refs, t)
      else |EvictableIn(T', own', refs - {n}, t)| == |EvictableIn(T, own, refs, t)| - |T[n].pages|
  {
    var T', own' := DropTree(T, n, P), DropOwn(T, own, n);
    DropWF(T, own, root, P, n);
    var e, A, B := Edge(T[n]), EvictableIn(T, own, refs, t), EvictableIn(T', own', refs - {n}, t);
    forall p {:trigger p in e} ensures p in e <==> p in own && own[p] == n {
      EdgeOwned(T, own, root, P, n, p);
    }
    forall p {:trigger p in B} ensures p in B <==> p in A && p !in e {
      if p in own {
        assert OwnerOK(T, own, p);
      }
    }
    if t == T[n].tier {
      assert e <= A && B == A - e;
      EdgeSize(T[n]);
      RemoveSize(A, e);
    } else {
      assert A !! e;
      assert B == A;
    }
  }

  // ---- the two-tier cache as one value ----

  datatype Two = Two(tree: Tree, own: Owners, refs: Refs, gpuFree: seq<int>, cpuFree: seq<int>, kv: Storage)

  ghost function GpuBooks(s: Two): Books {
    Books(|s.kv.gpu|, s.gpuFree, TierBind(s.tree, s.own, GPU), map[])
  }

  ghost function CpuBooks(s: Two): Books {
    Books(|s.kv.cpu|, s.cpuFree, TierBind(s.tree, s.own, CPU), map[])
  }

  ghost function Holdings(s: Two): map<Path, PageData> {
    Content(s.tree, s.own, s.kv)
  }

  /** All recorded pages exist. */
  ghost predicate InRange(b: Books) {
    forall l, x {:trigger Holds(b, l, x)} :: Holds(b, l, x) ==> InPool(b, x)
  }

  /** What holds on every run: the CPU ledger, unconditionally, and GPU pages that exist. */
  ghost predicate Sound(s: Two, root: RadixNode, P: nat, locks: Locks, pin: RadixNode?) {
    && WF(s.tree, s.own, root, P) && Counted(s.tree, root, s.refs, locks, pin)
    && Ledger(CpuBooks(s)) && InRange(GpuBooks(s))
  }

  /** The GPU pages on the free list and in the tree are distinct. */
  ghost predicate GpuApart(s: Two) {
    Apart(GpuBooks(s))
  }

  /** What every internal step of the tiered cache guarantees. */
  ghost predicate Preserves(s: Two, t: Two) {
    && LockedKept(s.tree, s.refs, t.tree, t.refs)
    && |t.kv.gpu| == |s.kv.gpu| && |t.kv.cpu| == |s.kv.cpu|
    && t.own.Keys <= s.own.Keys && Kept(GpuBooks(s).tree, GpuBooks(t).tree)
    && (GpuApart(s) ==> GpuApart(t) && Kept(Holdings(s), Holdings(t)))
  }

  lemma PreservesSelf(s: Two)
    ensures Preserves(s, s)
  {
    forall n {:trigger LockedNodeKept(s.tree, s.refs, s.tree, s.refs, n)} | n in s.tree && n in s.refs
      ensures LockedNodeKept(s.tree, s.refs, s.tree, s.refs, n) {}
  }

  lemma PreservesTrans(s: Two, t: Two, u: Two)
    requires Preserves(s, t) && Preserves(t, u)
    ensures Preserves(s, u)
  {
    LockedKeptTrans(s.tree, s.refs, t.tree, t.refs, u.tree, u.refs);
  }

  // ---- demotion (hicache.py:318-335) ----

  ghost predicate Copied(src: seq<PageData>, dst: seq<PageData>, dst': seq<PageData>, from: seq<int>, to: seq<int>) {
    && |from| == |to| && |dst'| == |dst|
    && (forall x {:trigger At(dst', x)} :: x !in to ==> At(dst', x) == At(dst, x))
    && (NoDup(to) ==> forall j {:trigger to[j]} :: 0 <= j < |to| ==> At(dst', to[j]) == At(src, from[j]))
  }

  /** Pages popped off a free list without repetitions are distinct and not bound. */
  lemma PoppedApart(b: Books, got: seq<int>)
    requires Apart(b) && |got| <= |b.free|
    requires got == seq(|got|, i requires 0 <= i < |got| => b.free[|b.free| - 1 - i])
    ensures NoDup(got)
    ensures forall p {:trigger p in b.tree} :: p in b.tree ==> b.tree[p] !in got
    ensures forall j {:trigger got[j]} :: 0 <= j < |got| ==> 0 <= got[j] < b.n
  {
    forall j {:trigger got[j]} | 0 <= j < |got| ensures Holds(b, InFree(|b.free| - 1 - j), got[j]) {}
    forall p {:trigger p in b.tree} | p in b.tree ensures b.tree[p] !in got {
      assert Holds(b, InTree(p), b.tree[p]);
    }
  }

  ghost function Demoted(s: Two, n: RadixNode, got: seq<int>, cpu': seq<PageData>): Two
    requires n in s.tree && |got| <= |s.cpuFree|
  {
    Two(MoveTree(s.tree, n, got, CPU), s.own, s.refs, s.gpuFree + s.tree[n].pages,
        s.cpuFree[..|s.cpuFree| - |got|], Storage(s.kv.gpu, cpu'))
  }

  /** A node may be demoted: unlocked, on the GPU, with room for it on the CPU. */
  ghost predicate CanDemote(s: Two, root: RadixNode, n: RadixNode, got: seq<int>, cpu': seq<PageData>) {
    && n in s.tree && n != root && n in s.refs && s.refs[n] == 0 && s.tree[n].tier == GPU
    && |got| == |s.tree[n].pages| <= |s.cpuFree|
    && got == seq(|got|, i requires 0 <= i < |got| => s.cpuFree[|s.cpuFree| - 1 - i])
    && Copied(s.kv.gpu, s.kv.cpu, cpu', s.tree[n].pages, got)
  }

  lemma DemoteSound(s: Two, root: RadixNode, P: nat, locks: Locks, pin: RadixNode?, n: RadixNode, got: seq<int>,
                    cpu': seq<PageData>)
    requires Sound(s, root, P, locks, pin) && CanDemote(s, root, n, got, cpu')
    ensures Sound(Demoted(s, n, got, cpu'), root, P, locks, pin)
  {
    var t := Demoted(s, n, got, cpu');
    assert EdgeOK(s.tree, n, P);
    MoveWF(s.tree, s.own, root, P, n, got, CPU);
    MoveCounted(s.tree, root, s.refs, locks, pin, n, got, CPU);
    MoveIn(s.tree, s.own, root, P, n, got, CPU);
    BindLedger(CpuBooks(s), CpuBooks(t), EdgeSeq(s.tree[n]), got);
    MoveOut(s.tree, s.own, root, P, n, got, CPU);
    EvictRange(GpuBooks(s), GpuBooks(t), EdgeSeq(s.tree[n]), s.tree[n].pages);
  }

  lemma EvictRange(b: Books, b': Books, gone: seq<Path>, freed: seq<int>)
    requires InRange(b) && Unbound(b.tree, b'.tree, gone, freed)
    requires b'.n == b.n && b'.free == b.free + freed && b'.priv == b.priv
    ensures InRange(b')
  {
    forall s, x {:trigger Holds(b', s, x)} | Holds(b', s, x) ensures InPool(b', x) {
      if s.InFree? && s.i >= |b.free| {
        assert Holds(b, InTree(gone[s.i - |b.free|]), x);
      } else {
        assert Holds(b, s, x);
      }
      assert InPool(b, x);
    }
  }

  lemma DemotePreserves(s: Two, root: RadixNode, P: nat, locks: Locks, pin: RadixNode?, n: RadixNode, got: seq<int>,
                        cpu': seq<PageData>)
    requires Sound(s, root, P, locks, pin) && CanDemote(s, root, n, got, cpu')
    ensures Preserves(s, Demoted(s, n, got, cpu'))
    ensures Holdings(Demoted(s, n, got, cpu')) == Holdings(s)
  {
    var t := Demoted(s, n, got, cpu');
    assert EdgeOK(s.tree, n, P);
    MoveLocked(s.tree, s.refs, n, got, CPU);
    PoppedApart(CpuBooks(s), got);
    MoveContent(s.tree, s.own, root, P, n, got, CPU, s.kv, t.kv);
    MoveOut(s.tree, s.own, root, P, n, got, CPU);
    if GpuApart(s) {
      EvictLedger(GpuBooks(s), GpuBooks(t), EdgeSeq(s.tree[n]), s.tree[n].pages);
    }
  }

  // ---- dropping a leaf (hicache.py:256-270, 349-371) ----

  ghost function Dropped(s: Two, n: RadixNode, P: nat): Two
    requires n in s.tree && EdgeOK(s.tree, n, P)
  {
    var pages := s.tree[n].pages;
    Two(DropTree(s.tree, n, P), DropOwn(s.tree, s.own, n), s.refs - {n},
        if s.tree[n].tier == GPU then s.gpuFree + pages else s.gpuFree,
        if s.tree[n].tier == CPU then s.cpuFree + pages else s.cpuFree, s.kv)
  }

  lemma DropSound(s: Two, root: RadixNode, P: nat, locks: Locks, pin: RadixNode?, n: RadixNode)
    requires Sound(s, root, P, locks, pin) && UnlockedLeaf(s.tree, s.refs, root, n)
    ensures EdgeOK(s.tree, n, P) && Sound(Dropped(s, n, P), root, P, locks, pin)
    ensures |Dropped(s, n, P).own| == |s.own| - |s.tree[n].pages|
  {
    assert EdgeOK(s.tree, n, P);
    var t := Dropped(s, n, P);
    DropWF(s.tree, s.own, root, P, n);
    DropCounted(s.tree, s.own, root, P, s.refs, locks, pin, n);
    DropSize(s.tree, s.own, root, P, n);
    DropTier(s.tree, s.own, root, P, n, GPU);
    DropTier(s.tree, s.own, root, P, n, CPU);
    if s.tree[n].tier == GPU {
      EvictRange(GpuBooks(s), GpuBooks(t), EdgeSeq(s.tree[n]), s.tree[n].pages);
    } else {
      EvictLedger(CpuBooks(s), CpuBooks(t), EdgeSeq(s.tree[n]), s.tree[n].pages);
    }
  }

  lemma DropPreserves(s: Two, root: RadixNode, P: nat, locks: Locks, pin: RadixNode?, n: RadixNode)
    requires Sound(s, root, P, locks, pin) && UnlockedLeaf(s.tree, s.refs, root, n) && EdgeOK(s.tree, n, P)
    ensures Preserves(s, Dropped(s, n, P))
  {
    var t := Dropped(s, n, P);
    DropLocked(s.tree, s.own, root, P, s.refs, n);
    DropContent(s.tree, s.own, root, P, n, s.kv);
    DropTier(s.tree, s.own, root, P, n, GPU);
    if GpuApart(s) && s.tree[n].tier == GPU {
      EvictLedger(GpuBooks(s), GpuBooks(t), EdgeSeq(s.tree[n]), s.tree[n].pages);
    }
  }

  // ---- promotion (hicache.py:304-316) ----

  /** After `got` was popped off the GPU free list `free0`: copy, give the CPU pages back, move. */
  ghost function Promoted(s: Two, n: RadixNode, got: seq<int>, gpu': seq<PageData>): Two
    requires n in s.tree
  {
    Two(MoveTree(s.tree, n, got, GPU), s.own, s.refs, s.gpuFree, s.cpuFree + s.tree[n].pages, Storage(gpu', s.kv.cpu))
  }

  /** `s` is the cache after the pages `got` were popped off; with them back it is `s0`. */
  ghost predicate CanPromote(s0: Two, s: Two, root: RadixNode, n: RadixNode, got: seq<int>, gpu': seq<PageData>) {
    && n in s.tree && n != root && s.tree[n].tier == CPU && |got| == |s.tree[n].pages| <= |s0.gpuFree|
    && got == seq(|got|, i requires 0 <= i < |got| => s0.gpuFree[|s0.gpuFree| - 1 - i])
    && s == s0.(gpuFree := s0.gpuFree[..|s0.gpuFree| - |got|])
    && Copied(s.kv.cpu, s.kv.gpu, gpu', s.tree[n].pages, got)
  }

  lemma PromoteSound(s0: Two, s: Two, root: RadixNode, P: nat, locks: Locks, pin: RadixNode?, n: RadixNode,
                     got: seq<int>, gpu': seq<PageData>)
    requires Sound(s0, root, P, locks, pin) && CanPromote(s0, s, root, n, got, gpu')
    ensures Sound(Promoted(s, n, got, gpu'), root, P, locks, pin)
  {
    var t := Promoted(s, n, got, gpu');
    assert EdgeOK(s.tree, n, P);
    MoveWF(s.tree, s.own, root, P, n, got, GPU);
    MoveCounted(s.tree, root, s.refs, locks, pin, n, got, GPU);
    MoveOut(s.tree, s.own, root, P, n, got, GPU);
    EvictLedger(CpuBooks(s), CpuBooks(t), EdgeSeq(s.tree[n]), s.tree[n].pages);
    MoveIn(s.tree, s.own, root, P, n, got, GPU);
    BindRange(GpuBooks(s0), GpuBooks(t), EdgeSeq(s.tree[n]), got);
  }

  lemma BindRange(b: Books, b': Books, here: seq<Path>, got: seq<int>)
    requires InRange(b) && Unbound(b'.tree, b.tree, here, got) && |got| <= |b.free|
    requires got == seq(|got|, i requires 0 <= i < |got| => b.free[|b.free| - 1 - i])
    requires b'.n == b.n && b'.free == b.free[..|b.free| - |got|] && b'.priv == b.priv
    ensures InRange(b')
  {
    forall s, x {:trigger Holds(b', s, x)} | Holds(b', s, x) ensures InPool(b', x) {
      if s.InTree? && s.p in here {
        var j :| 0 <= j < |here| && here[j] == s.p;
        assert Holds(b, InFree(|b.free| - 1 - j), x);
      } else {
        assert Holds(b, s, x);
      }
      assert InPool(b, x);
    }
  }

  lemma PromotePreserves(s0: Two, s: Two, root: RadixNode, P: nat, locks: Locks, pin: RadixNode?, n: RadixNode,
                         got: seq<int>, gpu': seq<PageData>)
    requires Sound(s0, root, P, locks, pin) && CanPromote(s0, s, root, n, got, gpu') && GpuApart(s0)
    ensures var t := Promoted(s, n, got, gpu'); GpuApart(t) && Holdings(t) == Holdings(s0)
  {
    var t := Promoted(s, n, got, gpu');
    assert EdgeOK(s.tree, n, P);
    PoppedApart(GpuBooks(s0), got);
    MoveContent(s.tree, s.own, root, P, n, got, GPU, s.kv, t.kv);
    MoveIn(s.tree, s.own, root, P, n, got, GPU);
    BindLedger(GpuBooks(s0), GpuBooks(t), EdgeSeq(s.tree[n]), got);
  }
}
