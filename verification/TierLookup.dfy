/** The pages a lookup in the two-tier cache answers with (hicache.py:170-217, 299-316).  It
    collects the pages of an edge and goes on; a promotion further down may demote that edge again
    and reuse its pages. */
module TierLookup {
  import opened Paging
  import opened TreeModel
  import opened TreeOps
  import opened TreeLocks
  import opened TreeWalk
  import opened TreeCount
  import opened TreeEvict
  import opened KvData
  import opened PageLedger
  import opened Tiers
  import opened TierSweep
  import opened TierWalk
  import opened Wrappers

  /** Where each of the first pages was found, if the prefix is still bound there. */
  ghost predicate AnswerAt(B: map<Path, int>, q: Path, pages: seq<int>, i: nat)
    requires i < |pages| <= |q|
  {
    q[..i + 1] in B ==> B[q[..i + 1]] == pages[i]
  }

  ghost predicate Answers(B: map<Path, int>, q: Path, pages: seq<int>) {
    |pages| <= |q| && forall i {:trigger AnswerAt(B, q, pages, i)} :: 0 <= i < |pages| ==> AnswerAt(B, q, pages, i)
  }

  ghost predicate BoundAt(B: map<Path, int>, q: Path, i: nat)
    requires i < |q|
  {
    q[..i + 1] in B
  }

  /** The first `k` prefixes are bound. */
  ghost predicate AllBound(B: map<Path, int>, q: Path, k: nat) {
    k <= |q| && forall i {:trigger BoundAt(B, q, i)} :: 0 <= i < k ==> BoundAt(B, q, i)
  }

  ghost predicate CurrentAt(B: map<Path, int>, q: Path, pages: seq<int>, i: nat)
    requires i < |pages| <= |q|
  {
    q[..i + 1] in B && B[q[..i + 1]] == pages[i]
  }

  /** Every page answered is the page of its prefix: what a request that borrows them relies on. */
  ghost predicate Current(B: map<Path, int>, q: Path, pages: seq<int>) {
    |pages| <= |q| && forall i {:trigger CurrentAt(B, q, pages, i)} :: 0 <= i < |pages| ==> CurrentAt(B, q, pages, i)
  }

  /** That is so if and only if everything matched is still on the GPU. */
  lemma CurrentIff(B: map<Path, int>, q: Path, pages: seq<int>)
    requires Answers(B, q, pages)
    ensures Current(B, q, pages) <==> AllBound(B, q, |pages|)
  {
    if Current(B, q, pages) {
      forall i {:trigger BoundAt(B, q, i)} | 0 <= i < |pages| ensures BoundAt(B, q, i) {
        assert CurrentAt(B, q, pages, i);
      }
    }
    if AllBound(B, q, |pages|) {
      forall i {:trigger CurrentAt(B, q, pages, i)} | 0 <= i < |pages| ensures CurrentAt(B, q, pages, i) {
        assert AnswerAt(B, q, pages, i) && BoundAt(B, q, i);
      }
    }
  }

  // ---- one edge ----

  /** What bringing `node` to the GPU does to the cache; `ok` when no allocation raised. */
  ghost predicate Brought(s: Two, t: Two, node: RadixNode, ok: bool)
    requires node in s.tree
  {
    if s.tree[node].tier == GPU then ok && t == s else Moved(s, t, node, ok)
  }

  ghost predicate Moved(s: Two, t: Two, node: RadixNode, ok: bool)
    requires node in s.tree
  {
    && Kept(GpuBooks(s).tree, GpuBooks(t).tree - Edge(s.tree[node]))
    && (|s.tree[node].pages| <= |s.gpuFree| ==>
          && ok && t.own == s.own && |t.gpuFree| == |s.gpuFree| - |s.tree[node].pages|
          && Kept(GpuBooks(t).tree, GpuBooks(s).tree)
          && CpuBooks(t).tree.Keys == CpuBooks(s).tree.Keys - Edge(s.tree[node]))
    && (node in s.refs && s.refs[node] == 0 ==> Supply(t) == Supply(s))
    && (RoomBelow(s) ==> t.own == s.own && RoomBelow(t) && (ok <==> |s.tree[node].pages| <= Supply(s)))
  }

  lemma EdgeSeqSet(T: Tree, own: Owners, root: RadixNode, P: nat, n: RadixNode)
    requires WF(T, own, root, P) && n in T && n != root && EdgeOK(T, n, P)
    ensures (set p | p in EdgeSeq(T[n])) == Edge(T[n])
  {
    EdgeSeqIs(T, own, root, P, n);
    forall p {:trigger p in Edge(T[n])} ensures p in EdgeSeq(T[n]) <==> p in Edge(T[n]) {
      EdgeOwned(T, own, root, P, n, p);
    }
  }

  /** A promotion whose allocation left the cache as `m`. */
  lemma PromotedMoved(s: Two, m: Two, root: RadixNode, P: nat, locks: Locks, n: RadixNode, got: seq<int>,
                      gpu': seq<PageData>)
    requires Sound(m, root, P, locks, null) && n in s.tree && n in m.tree && n in s.refs && n in m.refs
    requires s.tree[n].tier == CPU && m.refs[n] == s.refs[n] && m.tree[n].path == s.tree[n].path
    requires m.tree[n].pages == s.tree[n].pages && Reclaimed(s, m, |s.tree[n].pages|) && |got| <= |m.gpuFree|
    requires CanPromote(m, AfterPop(m, |got|), root, n, got, gpu')
    ensures Moved(s, Promoted(AfterPop(m, |got|), n, got, gpu'), n, true)
  {
    hide MoveTree, Unbound, TierBind;
    var t := Promoted(AfterPop(m, |got|), n, got, gpu');
    assert EdgeOK(m.tree, n, P);
    EdgeSeqSet(m.tree, m.own, root, P, n);
    MoveIn(m.tree, m.own, root, P, n, got, GPU);
    MoveOut(m.tree, m.own, root, P, n, got, GPU);
    PromotedSupply(m, root, P, n, got, gpu');
  }

  /** An unlocked node can be reclaimed again. */
  lemma PromotedSupply(m: Two, root: RadixNode, P: nat, n: RadixNode, got: seq<int>, gpu': seq<PageData>)
    requires WF(m.tree, m.own, root, P) && n in m.tree && n in m.refs && |got| <= |m.gpuFree|
    requires CanPromote(m, AfterPop(m, |got|), root, n, got, gpu')
    ensures var t := Promoted(AfterPop(m, |got|), n, got, gpu');
      (m.refs[n] == 0 ==> Supply(t) == Supply(m)) && (RoomBelow(m) ==> RoomBelow(t))
  {
    var t := Promoted(AfterPop(m, |got|), n, got, gpu');
    MoveWF(m.tree, m.own, root, P, n, got, GPU);
    if m.refs[n] == 0 {
      MoveEvictable(t.tree, m.own, root, P, m.refs, n, m.tree[n].pages, CPU);
      assert MoveTree(t.tree, n, m.tree[n].pages, CPU) == m.tree;
    } else {
      assert EvictableIn(t.tree, t.own, t.refs, GPU) == EvictableIn(m.tree, m.own, m.refs, GPU);
    }
  }

  /** A promotion that could not get its pages. */
  lemma NotMoved(s: Two, m: Two, n: RadixNode)
    requires n in s.tree && Reclaimed(s, m, |s.tree[n].pages|) && |s.tree[n].pages| > |m.gpuFree|
    ensures Moved(s, m, n, false)
  {}

  // ---- the whole lookup ----

  /** The prefixes on the CPU that are on edges the query goes along, as far as anything is bound. */
  ghost function CpuWay(s: Two, q: Path): set<Path> {
    set p | p in CpuBooks(s).tree && p in s.own && OnQuery(s.own, q, s.own[p])
  }

  ghost predicate OnQuery(own: Owners, q: Path, n: RadixNode) {
    exists i {:trigger q[..i]} :: 0 <= i <= |q| && q[..i] in own && own[q[..i]] == n
  }

  /** There are free pages for all of them. */
  ghost predicate InPlace(s: Two, q: Path) {
    |CpuWay(s, q)| <= |s.gpuFree|
  }

  ghost predicate EdgeFits(own: Owners, q: Path, supply: nat, i: nat)
    requires i <= |q|
  {
    q[..i] in own ==> |set p | p in own && own[p] == own[q[..i]]| <= supply
  }

  /** No lock is held, the CPU tier has room, and each edge of the query can be given pages. */
  ghost predicate Roomy(s: Two, locks: Locks, q: Path) {
    && RoomBelow(s) && locks == map[]
    && forall i {:trigger EdgeFits(s.own, q, Supply(s), i)} :: 0 <= i <= |q| ==> EdgeFits(s.own, q, Supply(s), i)
  }

  /** A lookup that began in `s` is in `t` and has collected `pages`. */
  ghost predicate Looked(s: Two, t: Two, locks: Locks, q: Path, pages: seq<int>) {
    && Answers(GpuBooks(t).tree, q, pages) && (locks == map[] ==> Supply(t) == Supply(s))
    && (InPlace(s, q) ==> t.own == s.own && InPlace(t, q) && AllBound(GpuBooks(t).tree, q, |pages|))
    && (Roomy(s, locks, q) ==> t.own == s.own && Roomy(t, locks, q))
  }

  lemma LookedStart(s: Two, locks: Locks, q: Path)
    ensures Looked(s, s, locks, q, [])
  {}

  /** The child's edge is collected after it was brought to the GPU. */
  lemma AnswersMore(t: Two, u: Two, root: RadixNode, P: nat, q: Path, pages: seq<int>, c: RadixNode, r: nat)
    requires WF(t.tree, t.own, root, P) && WF(u.tree, u.own, root, P) && c != root
    requires OnWay(t.tree, q, |pages|, c) && SamePlace(t.tree, u.tree, c) && u.tree[c].tier == GPU
    requires r <= Shared(t.tree, q, |pages|, c) && Answers(GpuBooks(t).tree, q, pages)
    requires Kept(GpuBooks(t).tree, GpuBooks(u).tree - Edge(t.tree[c]))
    ensures Answers(GpuBooks(u).tree, q, pages + u.tree[c].pages[..r])
  {
    var B, more, k := GpuBooks(u).tree, pages + u.tree[c].pages[..r], |pages|;
    forall i {:trigger AnswerAt(B, q, more, i)} | 0 <= i < |more| ensures AnswerAt(B, q, more, i) {
      var p := q[..i + 1];
      if i < k {
        BetweenIn(t.tree[c].path, Start(t.tree[c]), |t.tree[c].path|, p);
        assert AnswerAt(GpuBooks(t).tree, q, pages, i);
        assert p in B ==> p in B - Edge(t.tree[c]);
      } else {
        SharedCovered(t.tree, q, k, c, i + 1);
        assert Covers(u.tree[c], p);
        TierPoint(u.tree, u.own, GPU, p);
      }
    }
  }

  /** What was bound on the GPU still is, and so is the child's edge. */
  lemma AllBoundMore(t: Two, u: Two, root: RadixNode, P: nat, q: Path, k: nat, c: RadixNode, r: nat)
    requires WF(t.tree, t.own, root, P) && WF(u.tree, u.own, root, P) && c != root
    requires OnWay(t.tree, q, k, c) && SamePlace(t.tree, u.tree, c) && u.tree[c].tier == GPU
    requires r <= Shared(t.tree, q, k, c) && AllBound(GpuBooks(t).tree, q, k)
    requires Kept(GpuBooks(u).tree, GpuBooks(t).tree)
    ensures AllBound(GpuBooks(u).tree, q, k + r)
  {
    var B := GpuBooks(u).tree;
    forall i {:trigger BoundAt(B, q, i)} | 0 <= i < k + r ensures BoundAt(B, q, i) {
      if i < k {
        assert BoundAt(GpuBooks(t).tree, q, i);
      } else {
        SharedCovered(t.tree, q, k, c, i + 1);
        assert Covers(u.tree[c], q[..i + 1]);
        TierPoint(u.tree, u.own, GPU, q[..i + 1]);
      }
    }
  }

  lemma EdgeIs(T: Tree, own: Owners, root: RadixNode, P: nat, n: RadixNode)
    requires WF(T, own, root, P) && n in T && n != root
    ensures Edge(T[n]) == (set p | p in own && own[p] == n) && |Edge(T[n])| == |T[n].pages|
  {
    assert EdgeOK(T, n, P);
    EdgeSize(T[n]);
    forall p {:trigger p in Edge(T[n])} ensures p in Edge(T[n]) <==> p in own && own[p] == n {
      EdgeOwned(T, own, root, P, n, p);
    }
  }

  /** The child is on the query's way. */
  lemma ChildOnQuery(t: Two, root: RadixNode, P: nat, q: Path, k: nat, c: RadixNode)
    requires WF(t.tree, t.own, root, P) && OnWay(t.tree, q, k, c)
    ensures k < |q| && q[..k + 1] in t.own && t.own[q[..k + 1]] == c && OnQuery(t.own, q, c)
  {
    SharedCovered(t.tree, q, k, c, k + 1);
  }

  /** Promoting a child uses up as many free pages as prefixes leave the CPU. */
  lemma InPlaceMoved(t: Two, u: Two, root: RadixNode, P: nat, q: Path, k: nat, c: RadixNode, ok: bool)
    requires WF(t.tree, t.own, root, P) && c != root && OnWay(t.tree, q, k, c) && t.tree[c].tier == CPU
    requires InPlace(t, q) && Moved(t, u, c, ok)
    ensures ok && u.own == t.own && InPlace(u, q) && Kept(GpuBooks(u).tree, GpuBooks(t).tree)
  {
    hide WF;
    var e, w := Edge(t.tree[c]), CpuWay(t, q);
    EdgeIs(t.tree, t.own, root, P, c);
    EdgeOnWay(t, root, P, q, k, c);
    SubsetCard(e, w);
    RemoveSize(w, e);
    CpuWayLess(t, u, q, e);
  }

  lemma CpuWayLess(t: Two, u: Two, q: Path, e: set<Path>)
    requires e <= CpuWay(t, q)
    ensures u.own == t.own && CpuBooks(u).tree.Keys == CpuBooks(t).tree.Keys - e ==> CpuWay(u, q) == CpuWay(t, q) - e
  {}

  lemma EdgeOnWay(t: Two, root: RadixNode, P: nat, q: Path, k: nat, c: RadixNode)
    requires WF(t.tree, t.own, root, P) && c != root && OnWay(t.tree, q, k, c) && t.tree[c].tier == CPU
    ensures Edge(t.tree[c]) <= CpuWay(t, q)
  {
    EdgeIs(t.tree, t.own, root, P, c);
    ChildOnQuery(t, root, P, q, k, c);
    forall p {:trigger p in Edge(t.tree[c])} | p in Edge(t.tree[c]) ensures p in CpuWay(t, q) {
      TierPoint(t.tree, t.own, CPU, p);
    }
  }

  lemma RoomyMoved(t: Two, u: Two, root: RadixNode, P: nat, locks: Locks, q: Path, k: nat, c: RadixNode, ok: bool)
    requires Sound(t, root, P, locks, null) && c != root && OnWay(t.tree, q, k, c) && t.tree[c].tier == CPU
    requires Roomy(t, locks, q) && Moved(t, u, c, ok)
    ensures ok && u.own == t.own && Roomy(u, locks, q)
  {
    EdgeIs(t.tree, t.own, root, P, c);
    ChildOnQuery(t, root, P, q, k, c);
    assert EdgeFits(t.own, q, Supply(t), k + 1);
    NoLockNoCount(t, root, c);
    forall i {:trigger EdgeFits(u.own, q, Supply(u), i)} | 0 <= i <= |q| ensures EdgeFits(u.own, q, Supply(u), i) {
      assert EdgeFits(t.own, q, Supply(t), i);
    }
  }

  /** While no lock is held all counts are 0. */
  lemma NoLockNoCount(s: Two, root: RadixNode, n: RadixNode)
    requires Counted(s.tree, root, s.refs, map[], null) && n in s.tree
    ensures n in s.refs && s.refs[n] == 0
  {
    if n != root {
      assert RefOK(s.tree, s.refs, map[], null, n);
      assert Under(s.tree, map[], n) == {};
    }
  }

  /** One edge further. */
  lemma LookedMore(s: Two, t: Two, u: Two, root: RadixNode, P: nat, locks: Locks, q: Path, pages: seq<int>,
                   c: RadixNode, r: nat)
    requires Looked(s, t, locks, q, pages) && Sound(t, root, P, locks, null) && Sound(u, root, P, locks, null)
    requires c != root && OnWay(t.tree, q, |pages|, c) && SamePlace(t.tree, u.tree, c) && u.tree[c].tier == GPU
    requires Brought(t, u, c, true) && r <= Shared(t.tree, q, |pages|, c)
    ensures Looked(s, u, locks, q, pages + u.tree[c].pages[..r])
  {
    var k := |pages|;
    AnswersMore(t, u, root, P, q, pages, c, r);
    if locks == map[] {
      NoLockNoCount(t, root, c);
    }
    if InPlace(s, q) {
      if t.tree[c].tier == CPU {
        InPlaceMoved(t, u, root, P, q, k, c, true);
      }
      AllBoundMore(t, u, root, P, q, k, c, r);
    }
    if Roomy(s, locks, q) && t.tree[c].tier == CPU {
      RoomyMoved(t, u, root, P, locks, q, k, c, true);
    }
  }

  /** With room a promotion does not raise. */
  lemma LookedOn(s: Two, t: Two, u: Two, root: RadixNode, P: nat, locks: Locks, q: Path, pages: seq<int>,
                 c: RadixNode, ok: bool)
    requires Looked(s, t, locks, q, pages) && Sound(t, root, P, locks, null)
    requires c != root && OnWay(t.tree, q, |pages|, c) && Brought(t, u, c, ok)
    ensures InPlace(s, q) || Roomy(s, locks, q) ==> ok
  {
    if t.tree[c].tier == CPU {
      if InPlace(s, q) {
        InPlaceMoved(t, u, root, P, q, |pages|, c, ok);
      }
      if Roomy(s, locks, q) {
        RoomyMoved(t, u, root, P, locks, q, |pages|, c, ok);
      }
    }
  }

  // ---- when the answer is current ----

  /** A lookup for which the free pages suffice answers with the pages of its prefixes. */
  lemma InPlaceCurrent(s: Two, t: Two, locks: Locks, q: Path, pages: seq<int>)
    requires Looked(s, t, locks, q, pages) && InPlace(s, q)
    ensures Current(GpuBooks(t).tree, q, pages)
  {
    CurrentIff(GpuBooks(t).tree, q, pages);
  }

  /** One that matches more pages than can be had on the GPU never does. */
  lemma TooLong(s: Two, t: Two, root: RadixNode, P: nat, q: Path, pages: seq<int>)
    requires Sound(t, root, P, map[], null) && Looked(s, t, map[], q, pages) && |pages| > Supply(s)
    ensures !Current(GpuBooks(t).tree, q, pages)
  {
    if Current(GpuBooks(t).tree, q, pages) {
      var w, e := Between(q, 0, |pages|), EvictableIn(t.tree, t.own, t.refs, GPU);
      BetweenSize(q, 0, |pages|);
      forall p {:trigger p in w} | p in w ensures p in e {
        BetweenIn(q, 0, |pages|, p);
        assert CurrentAt(GpuBooks(t).tree, q, pages, |p| - 1) && p == q[..|p| - 1 + 1];
        TierPoint(t.tree, t.own, GPU, p);
        NoLockNoCount(t, root, t.own[p]);
      }
      SubsetCard(w, e);
    }
  }

  // ---- a cache in which it is not ----

  /** A two-page prompt whose first page is on the GPU and the second on the CPU. */
  ghost predicate HalfDown(s: Two) {
    && GpuBooks(s).tree.Keys == {[[1]]} && CpuBooks(s).tree.Keys == {[[1], [2]]}
    && s.gpuFree == [] && |s.cpuFree| >= 1
  }

  lemma HalfDownRoomy(s: Two, root: RadixNode)
    requires Sound(s, root, 1, map[], null) && HalfDown(s)
    ensures Supply(s) == 1 && Roomy(s, map[], [[1], [2]]) && s.own.Keys == {[[1]], [[1], [2]]}
  {
    var p, q: Path := [[1]], [[1], [2]];
    forall x {:trigger x in s.own} ensures x in s.own <==> x == p || x == q {
      TierPoint(s.tree, s.own, GPU, x);
      TierPoint(s.tree, s.own, CPU, x);
      assert x in s.own ==> OwnerOK(s.tree, s.own, x);
    }
    TierPoint(s.tree, s.own, GPU, p);
    TierPoint(s.tree, s.own, CPU, q);
    NoLockNoCount(s, root, s.own[p]);
    assert EvictableIn(s.tree, s.own, s.refs, GPU) == {p};
    forall i {:trigger EdgeFits(s.own, q, Supply(s), i)} | 0 <= i <= |q| ensures EdgeFits(s.own, q, Supply(s), i) {
      if q[..i] in s.own {
        assert (set x | x in s.own && s.own[x] == s.own[q[..i]]) == {q[..i]};
      }
    }
  }

  lemma TwoPages()
    ensures Blocks([1, 2], 1) == [[1], [2]]
  {
    var q: Path := [[1], [2]];
    assert q[1..] == [[2]] && q[1..][1..] == [];
    assert Flat(q) == [1, 2];
    BlocksFlat(q, 1);
  }

  /** Such a cache: a page is one token, the GPU has one page and the CPU two. */
  ghost function Half(root: RadixNode, a: RadixNode, b: RadixNode): Tree {
    map[root := NodeInfo(null, map[[1] := a], [], [], GPU, []),
        a := NodeInfo(root, map[[2] := b], [1], [0], GPU, [[1]]),
        b := NodeInfo(a, map[], [2], [0], CPU, [[1], [2]])]
  }

  ghost function HalfOwn(a: RadixNode, b: RadixNode): Owners {
    map[[[1]] := a, [[1], [2]] := b]
  }

  ghost function HalfCache(root: RadixNode, a: RadixNode, b: RadixNode): Two {
    Two(Half(root, a, b), HalfOwn(a, b), map[root := 0, a := 0, b := 0], [], [1],
        Storage([ZeroPage(1)], [ZeroPage(1), ZeroPage(1)]))
  }

  lemma HalfWF(root: RadixNode, a: RadixNode, b: RadixNode)
    requires root != a && root != b && a != b
    ensures WF(Half(root, a, b), HalfOwn(a, b), root, 1)
  {
    var T, own, p: Path := Half(root, a, b), HalfOwn(a, b), [[1], [2]];
    FlatOne([1]);
    FlatOne([2]);
    assert p[..1] == [[1]] && p[1..] == [[2]] && p[..2] == p && p[..1][0..] == [[1]] && p[..1][..0] == [];
    assert EdgeOK(T, a, 1) && EdgeOK(T, b, 1) && T[a].path[..1] == [[1]];
    forall n, q {:trigger Covers(T[n], q)} | n in T && Covers(T[n], q) ensures q in own && own[q] == n {
      assert q == T[n].path[..|q|];
    }
    assert Covers(T[a], [[1]]) && Covers(T[b], p);
  }

  lemma HalfAt(root: RadixNode, a: RadixNode, b: RadixNode, p: Path)
    requires root != a && root != b && a != b && p in HalfOwn(a, b)
    ensures var T, own, t := Half(root, a, b), HalfOwn(a, b), if p == [[1]] then GPU else CPU;
      && p in TierBind(T, own, t) && TierBind(T, own, t)[p] == 0
      && p !in TierBind(T, own, if t == GPU then CPU else GPU)
  {
    var T, own := Half(root, a, b), HalfOwn(a, b);
    HalfWF(root, a, b);
    TierPoint(T, own, GPU, p);
    TierPoint(T, own, CPU, p);
  }

  lemma HalfBooks(root: RadixNode, a: RadixNode, b: RadixNode)
    requires root != a && root != b && a != b
    ensures var s := HalfCache(root, a, b);
      GpuBooks(s).tree == map[[[1]] := 0] && CpuBooks(s).tree == map[[[1], [2]] := 0]
  {
    HalfAt(root, a, b, [[1]]);
    HalfAt(root, a, b, [[1], [2]]);
  }

  lemma HalfLedger(b: Books)
    requires b == Books(1, [], map[[[1]] := 0], map[]) || b == Books(2, [1], map[[[1], [2]] := 0], map[])
    ensures Ledger(b)
  {
    var p: Path := if b.n == 1 then [[1]] else [[1], [2]];
    forall x {:trigger InPool(b, x)} | InPool(b, x) ensures exists l :: Holds(b, l, x) {
      assert if x == 0 then Holds(b, InTree(p), x) else Holds(b, InFree(0), x);
    }
  }

  lemma HalfSound(root: RadixNode, a: RadixNode, b: RadixNode)
    requires root != a && root != b && a != b
    ensures var s := HalfCache(root, a, b); Sound(s, root, 1, map[], null) && GpuApart(s) && HalfDown(s)
  {
    var s := HalfCache(root, a, b);
    HalfWF(root, a, b);
    HalfBooks(root, a, b);
    HalfLedger(GpuBooks(s));
    HalfLedger(CpuBooks(s));
    forall n {:trigger RefOK(s.tree, s.refs, map[], null, n)} | n in s.tree && n != root
      ensures RefOK(s.tree, s.refs, map[], null, n)
    {
      assert Under(s.tree, map[], n) == {};
    }
  }
}
