/** Where the sweep of `evict` falls short (hicache.py:233-272): an older node above a younger one,
    on an edge longer than the whole CPU pool, can neither be demoted nor dropped, and is passed over. */
module TierShort {
  import opened Paging
  import opened TreeModel
  import opened TreeOps
  import opened TreeLocks
  import opened TreeWalk
  import opened TreeEvict
  import opened CacheRuns
  import opened PageLedger
  import opened KvData
  import opened Tiers
  import opened TierRoom
  import opened TierSweep
  import opened Wrappers

  /** Two unlocked GPU nodes, `v` above `c`; `v` is older and has more pages than the CPU pool. */
  ghost predicate Stuck(s: Two, root: RadixNode, ages: Ages, v: RadixNode, c: RadixNode) {
    && v in UnlockedNodes(s.tree, s.refs, root, GPU) && c in UnlockedNodes(s.tree, s.refs, root, GPU)
    && s.tree[c].parent == v && |s.tree[v].pages| > |s.kv.cpu|
    && v in ages && c in ages && ages[v] < ages[c]
  }

  /** In the sweep: `v` is where it was, and if its turn is still to come so is that of `c`. */
  ghost predicate Passed(s: Two, t: Two, root: RadixNode, heap: set<RadixNode>, v: RadixNode, c: RadixNode)
    requires v in s.tree
  {
    && v in UnlockedNodes(t.tree, t.refs, root, GPU) && t.tree[v].pages == s.tree[v].pages
    && |t.kv.cpu| == |s.kv.cpu|
    && (v in heap ==> c in heap && c in UnlockedNodes(t.tree, t.refs, root, GPU) && t.tree[c].parent == v)
  }

  ghost predicate AllPassed(s: Two, t: Two, root: RadixNode, ages: Ages, heap: set<RadixNode>) {
    forall v, c {:trigger Stuck(s, root, ages, v, c)} :: v in s.tree && c in s.tree && Stuck(s, root, ages, v, c) ==>
      Passed(s, t, root, heap, v, c)
  }

  /** One round: the oldest entry `x` of the heap was demoted, skipped or dropped. */
  ghost predicate RoundOK(t: Two, u: Two, root: RadixNode, x: RadixNode) {
    && OthersStay(t, u, x) && |u.kv.cpu| == |t.kv.cpu|
    && (x in UnlockedNodes(t.tree, t.refs, root, GPU) && |t.tree[x].pages| > |t.kv.cpu| && HasGpuChild(t, root, x) ==>
          NodeStays(t, u, x))
  }

  ghost predicate HasGpuChild(t: Two, root: RadixNode, x: RadixNode) {
    exists c {:trigger c in UnlockedNodes(t.tree, t.refs, root, GPU)} ::
      c in UnlockedNodes(t.tree, t.refs, root, GPU) && t.tree[c].parent == x && c != x
  }

  lemma RoundStays(t: Two, u: Two, root: RadixNode, P: nat, locks: Locks, pin: RadixNode?, x: RadixNode)
    requires Sound(t, root, P, locks, pin) && x in t.tree && RoundDone(t, u, root, x)
    ensures RoundOK(t, u, root, x)
  {
    RoomIs(t, root, P, locks, pin);
    if HasGpuChild(t, root, x) {
      var c :| c in UnlockedNodes(t.tree, t.refs, root, GPU) && t.tree[c].parent == x && c != x;
      assert EdgeOK(t.tree, c, P);
      assert HoldsUp(t, GpuNodes(t), x, c);
    }
  }

  /** What is left of a heap when the oldest entries have been taken. */
  ghost predicate Latest(first: set<RadixNode>, heap: set<RadixNode>, ages: Ages) {
    && heap <= first <= ages.Keys
    && forall x, y {:trigger x in first, y in heap} :: x in first && x !in heap && y in heap ==> ages[x] <= ages[y]
  }

  lemma PassStart(s: Two, root: RadixNode, ages: Ages)
    ensures AllPassed(s, s, root, ages, UnlockedNodes(s.tree, s.refs, root, GPU))
  {}

  lemma PassRound(s: Two, t: Two, u: Two, root: RadixNode, ages: Ages, heap: set<RadixNode>, x: RadixNode)
    requires AllPassed(s, t, root, ages, heap) && RoundOK(t, u, root, x) && x in heap
    requires x in ages && forall m {:trigger m in heap} :: m in heap ==> m in ages && ages[x] <= ages[m]
    ensures AllPassed(s, u, root, ages, heap - {x})
  {
    forall v, c {:trigger Stuck(s, root, ages, v, c)} | v in s.tree && c in s.tree && Stuck(s, root, ages, v, c)
      ensures Passed(s, u, root, heap - {x}, v, c)
    {
      assert Passed(s, t, root, heap, v, c);
      assert v in UnlockedNodes(t.tree, t.refs, root, GPU);
      if v == x {
        assert c in UnlockedNodes(t.tree, t.refs, root, GPU) && c != x;
        assert HasGpuChild(t, root, x);
      }
      assert NodeStays(t, u, v);
      if v in heap && v != x {
        assert NodeStays(t, u, c);
      }
    }
  }

  /** So the sweep leaves the pages of `v` evictable, whatever it was asked for. */
  lemma FallsShort(s: Two, t: Two, root: RadixNode, P: nat, ages: Ages, heap: set<RadixNode>, freed: int, need: int,
                   v: RadixNode, c: RadixNode)
    requires SweepDone(s, t, freed, need) && AllPassed(s, t, root, ages, heap) && WF(t.tree, t.own, root, P)
    requires v in s.tree && c in s.tree && Stuck(s, root, ages, v, c)
    ensures freed <= |EvictableIn(s.tree, s.own, s.refs, GPU)| - |s.tree[v].pages|
  {
    NodeEvictable(t.tree, t.own, root, P, t.refs, v, GPU);
  }

  // ---- such a cache ----

  /** Pages 0 and 1 on an edge below the root, page 2 on a leaf below that; a page is one token. */
  ghost function Tall(root: RadixNode, v: RadixNode, c: RadixNode): Tree {
    map[root := NodeInfo(null, map[[1] := v], [], [], GPU, []),
        v := NodeInfo(root, map[[3] := c], [1, 2], [0, 1], GPU, [[1], [2]]),
        c := NodeInfo(v, map[], [3], [2], GPU, [[1], [2], [3]])]
  }

  ghost function TallOwn(v: RadixNode, c: RadixNode): Owners {
    map[[[1]] := v, [[1], [2]] := v, [[1], [2], [3]] := c]
  }

  /** All three pages of the GPU pool in the tree, nothing locked, one page on the CPU, free. */
  ghost function TallCache(root: RadixNode, v: RadixNode, c: RadixNode): Two {
    Two(Tall(root, v, c), TallOwn(v, c), map[root := 0, v := 0, c := 0], [], [0],
        Storage([ZeroPage(1), ZeroPage(1), ZeroPage(1)], [ZeroPage(1)]))
  }

  lemma TallEdges(root: RadixNode, v: RadixNode, c: RadixNode)
    requires root != v && root != c && v != c
    ensures var T := Tall(root, v, c); EdgeOK(T, v, 1) && EdgeOK(T, c, 1)
  {
    var T, p: Path := Tall(root, v, c), [[1], [2], [3]];
    assert Flat([[2]]) == [2] && p[..2] == [[1]] + [[2]] == [[1], [2]];
    FlatConcat([[1]], [[2]]);
    FlatOne([1]);
    FlatOne([2]);
    FlatOne([3]);
    assert T[v].path[0..] == [[1], [2]] && T[v].path[..0] == [];
    assert p[2..] == [[3]];
  }

  lemma TallWF(root: RadixNode, v: RadixNode, c: RadixNode)
    requires root != v && root != c && v != c
    ensures WF(Tall(root, v, c), TallOwn(v, c), root, 1)
  {
    var T, own, p: Path := Tall(root, v, c), TallOwn(v, c), [[1], [2], [3]];
    TallEdges(root, v, c);
    assert p[..1] == [[1]] && p[..2] == [[1], [2]] && p[..3] == p;
    assert T[v].path[..1] == [[1]] && T[v].path[..2] == [[1], [2]];
    forall n, q {:trigger Covers(T[n], q)} | n in T && Covers(T[n], q) ensures q in own && own[q] == n {
      assert q == T[n].path[..|q|];
    }
    assert Covers(T[v], [[1]]) && Covers(T[v], [[1], [2]]) && Covers(T[c], p);
  }

  /** Where the three pages are. */
  lemma TallPages(root: RadixNode, v: RadixNode, c: RadixNode, p: Path)
    requires root != v && root != c && v != c && p in TallOwn(v, c)
    ensures var B := TierBind(Tall(root, v, c), TallOwn(v, c), GPU); p in B && B[p] == |p| - 1
    ensures p !in TierBind(Tall(root, v, c), TallOwn(v, c), CPU)
  {
    TallWF(root, v, c);
    TierPoint(Tall(root, v, c), TallOwn(v, c), GPU, p);
    TierPoint(Tall(root, v, c), TallOwn(v, c), CPU, p);
  }

  lemma TallGpu(root: RadixNode, v: RadixNode, c: RadixNode)
    requires root != v && root != c && v != c
    ensures var s := TallCache(root, v, c); InRange(GpuBooks(s)) && GpuApart(s)
  {
    hide TallOwn;
    var s := TallCache(root, v, c);
    var g := GpuBooks(s);
    forall l, x {:trigger Holds(g, l, x)} | Holds(g, l, x)
      ensures l.InTree? && l.p in s.own && x == |l.p| - 1 && InPool(g, x)
    {
      if l.InTree? && l.p in s.own { TallPages(root, v, c, l.p); }
    }
  }

  lemma TallCpu(root: RadixNode, v: RadixNode, c: RadixNode)
    requires root != v && root != c && v != c
    ensures Ledger(CpuBooks(TallCache(root, v, c)))
  {
    var s := TallCache(root, v, c);
    var h := CpuBooks(s);
    forall l, x {:trigger Holds(h, l, x)} | Holds(h, l, x) ensures l == InFree(0) && InPool(h, x) {
      if l.InTree? && l.p in s.own { TallPages(root, v, c, l.p); }
    }
    forall x {:trigger InPool(h, x)} | InPool(h, x) ensures exists l :: Holds(h, l, x) {
      assert Holds(h, InFree(0), x);
    }
  }

  lemma TallSound(root: RadixNode, v: RadixNode, c: RadixNode)
    requires root != v && root != c && v != c
    ensures Sound(TallCache(root, v, c), root, 1, map[], null) && GpuApart(TallCache(root, v, c))
  {
    var s := TallCache(root, v, c);
    TallWF(root, v, c);
    TallGpu(root, v, c);
    TallCpu(root, v, c);
    forall n {:trigger RefOK(s.tree, s.refs, map[], null, n)} | n in s.tree && n != root
      ensures RefOK(s.tree, s.refs, map[], null, n)
    {
      assert Under(s.tree, map[], n) == {};
    }
  }

  /** Three pages are evictable in it, and any sweep frees one at most. */
  lemma TallFallsShort(root: RadixNode, v: RadixNode, c: RadixNode, ages: Ages, t: Two, heap: set<RadixNode>,
                       freed: int, need: int)
    requires root != v && root != c && v != c && v in ages && c in ages && ages[v] < ages[c]
    requires var s := TallCache(root, v, c); SweepDone(s, t, freed, need) && AllPassed(s, t, root, ages, heap)
    requires WF(t.tree, t.own, root, 1)
    ensures var s := TallCache(root, v, c); |EvictableIn(s.tree, s.own, s.refs, GPU)| == 3 && freed <= 1
  {
    hide SweepDone;
    var s := TallCache(root, v, c);
    var e: set<Path> := {[[1]], [[1], [2]], [[1], [2], [3]]};
    assert EvictableIn(s.tree, s.own, s.refs, GPU) == e;
    assert Stuck(s, root, ages, v, c);
    FallsShort(s, t, root, 1, ages, heap, freed, need, v, c);
  }
}
