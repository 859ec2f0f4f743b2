/** When a lookup in the two-tier cache answers with current pages (hicache.py:170-217): its own
    edges are the last ones an eviction takes, so it is enough that all of them fit the GPU at once. */
module TierFits {
  import opened Paging
  import opened TreeModel
  import opened TreeOps
  import opened TreeLocks
  import opened TreeCount
  import opened TreeWalk
  import opened TreeEvict
  import opened KvData
  import opened PageLedger
  import opened Tiers
  import opened TierRoom
  import opened TierSweep
  import opened TierShort
  import opened TierRun
  import opened TierWalk
  import opened TierLookup
  import opened Wrappers

  // ---- whom an allocation spares ----

  /** The evictable pages on nodes accessed before `x`. */
  ghost function Older(s: Two, ages: Ages, x: RadixNode): set<Path> {
    set p | p in s.own && p in Evicts(s) && s.own[p] in ages && x in ages && ages[s.own[p]] < ages[x]
  }

  /** `x` stays on the GPU with its pages if the free pages and those on older nodes suffice. */
  ghost predicate Spared(s: Two, m: Two, ages: Ages, n: nat, x: RadixNode)
    requires x in s.tree
  {
    n <= |s.gpuFree| + |Older(s, ages, x)| ==>
      x in m.tree && m.tree[x].tier == GPU && m.tree[x].pages == s.tree[x].pages
  }

  ghost predicate Sparing(s: Two, m: Two, root: RadixNode, ages: Ages, n: nat) {
    forall x {:trigger Spared(s, m, ages, n, x)} :: x in UnlockedNodes(s.tree, s.refs, root, GPU) ==>
      Spared(s, m, ages, n, x)
  }

  /** What looking for `n` pages leaves where it was. */
  ghost predicate Chosen(s: Two, m: Two, root: RadixNode, ages: Ages, n: nat) {
    Remains(s, m) && (RoomBelow(s) ==> Sparing(s, m, root, ages, n))
  }

  lemma {:induction false} RunKeeps(run: seq<Two>, root: RadixNode, P: nat, locks: Locks, pin: RadixNode?, ages: Ages,
                                    vs: seq<RadixNode>, need: int, k: nat, x: RadixNode)
    requires SweepRun(run, root, P, locks, pin, ages, vs, need) && k <= |vs|
    requires x in Waiting(run[0], root, vs[..k])
    ensures x in run[k].tree && run[k].tree[x].tier == GPU && run[k].tree[x].pages == run[0].tree[x].pages
  {
    if k == 0 {
      assert vs[..0] == [];
    } else {
      WaitingNext(run[0], root, vs, k - 1);
      RunKeeps(run, root, P, locks, pin, ages, vs, need, k - 1, x);
      assert RoundAt(run, root, ages, vs, need, k - 1) && Sound(run[k - 1], root, P, locks, pin);
      assert NodeStays(run[k - 1], run[k], x);
    }
  }

  /** Before an oldest node is tried everything older was evicted and did not suffice. */
  lemma OlderGone(run: seq<Two>, root: RadixNode, P: nat, locks: Locks, pin: RadixNode?, ages: Ages,
                  vs: seq<RadixNode>, need: int, i: nat)
    requires SweepRun(run, root, P, locks, pin, ages, vs, need) && i < |vs| && RoomBelow(run[0])
    requires UnlockedNodes(run[0].tree, run[0].refs, root, GPU) <= ages.Keys
    ensures |Older(run[0], ages, vs[i])| <= |run[i].gpuFree| - |run[0].gpuFree| < need
  {
    var s, t, x := run[0], run[i], vs[i];
    var A, B, heap := Evicts(s), Evicts(t), Waiting(s, root, vs[..i]);
    RunSwept(run, root, P, locks, pin, ages, vs, need, i);
    assert RoundAt(run, root, ages, vs, need, i);
    assert Sound(s, root, P, locks, pin) && Sound(t, root, P, locks, pin);
    forall p {:trigger p in A} ensures p in B ==> p in A && p !in Older(s, ages, x) {
      if p in B {
        OwnedUnlocked(t, root, P, p);
        assert t.own[p] in heap;
        RunMirrors(run, root, P, locks, pin, ages, vs, need, i);
        assert RemainsAt(s, t, t.own[p]);
      }
    }
    assert B <= A && Older(s, ages, x) <= A - B;
    RemoveSize(A, B);
    SubsetCard(Older(s, ages, x), A - B);
  }

  lemma OwnedUnlocked(t: Two, root: RadixNode, P: nat, p: Path)
    requires WF(t.tree, t.own, root, P) && p in Evicts(t)
    ensures t.own[p] in UnlockedNodes(t.tree, t.refs, root, GPU)
  {
    assert OwnerOK(t.tree, t.own, p);
    OwnPath(t.tree, t.own, root, P, t.own[p]);
  }

  lemma RunChosen(run: seq<Two>, root: RadixNode, P: nat, locks: Locks, pin: RadixNode?, ages: Ages,
                  vs: seq<RadixNode>, n: nat)
    requires |run| > 0 && SweepRun(run, root, P, locks, pin, ages, vs, n - |run[0].gpuFree|)
    requires UnlockedNodes(run[0].tree, run[0].refs, root, GPU) <= ages.Keys
    ensures Chosen(run[0], run[|vs|], root, ages, n)
  {
    var s, t, need := run[0], run[|vs|], n - |run[0].gpuFree|;
    RunMirrors(run, root, P, locks, pin, ages, vs, need, |vs|);
    assert vs[..|vs|] == vs;
    if RoomBelow(s) {
      forall x {:trigger Spared(s, t, ages, n, x)} | x in UnlockedNodes(s.tree, s.refs, root, GPU)
        ensures Spared(s, t, ages, n, x)
      {
        if x in vs {
          var i :| 0 <= i < |vs| && vs[i] == x;
          OlderGone(run, root, P, locks, pin, ages, vs, need, i);
        } else {
          RunKeeps(run, root, P, locks, pin, ages, vs, need, |vs|, x);
        }
      }
    }
  }

  lemma ChosenSelf(s: Two, root: RadixNode, P: nat, locks: Locks, pin: RadixNode?, ages: Ages, n: nat)
    requires Sound(s, root, P, locks, pin)
    ensures Chosen(s, s, root, ages, n)
  {
    RemainsSelf(s, root, P, locks, pin);
    forall x {:trigger Spared(s, s, ages, n, x)} | x in UnlockedNodes(s.tree, s.refs, root, GPU)
      ensures Spared(s, s, ages, n, x) {}
  }

  lemma UnpinChosen(s: Two, m: Two, root: RadixNode, node: RadixNode, ages: Ages, n: nat)
    requires node in s.tree && s.tree[node].tier == CPU && node in s.refs && s.refs[node] >= 0 && node in m.tree
    requires node in m.refs && Chosen(Pinned(s, node, 1), m, root, ages, n)
    ensures Chosen(s, Pinned(m, node, -1), root, ages, n)
  {
    var p, u := Pinned(s, node, 1), Pinned(m, node, -1);
    forall x {:trigger RemainsAt(s, u, x)} | x in u.tree ensures RemainsAt(s, u, x) {
      assert RemainsAt(p, m, x);
    }
    assert Evicts(p) == Evicts(s);
    if RoomBelow(s) {
      forall x {:trigger Spared(s, u, ages, n, x)} | x in UnlockedNodes(s.tree, s.refs, root, GPU)
        ensures Spared(s, u, ages, n, x)
      {
        assert Spared(p, m, ages, n, x);
        assert Older(p, ages, x) == Older(s, ages, x);
      }
    }
  }

  // ---- bringing one edge to the GPU ----

  /** What a promotion of `node` leaves where it was; `ok` when its allocation did not raise. */
  ghost predicate Steady(s: Two, t: Two, root: RadixNode, ages: Ages, node: RadixNode, ok: bool)
    requires node in s.tree
  {
    && Remains(s, t)
    && (RoomBelow(s) ==> Sparing(s, t, root, ages, |s.tree[node].pages|))
    && (ok && node in s.refs && s.refs[node] > 0 ==> Supply(t) == Supply(s) - |s.tree[node].pages|)
    && (forall x {:trigger LockedTier(s, t, x)} :: x in s.tree && x != node ==> LockedTier(s, t, x))
  }

  ghost predicate LockedTier(s: Two, t: Two, x: RadixNode)
    requires x in s.tree
  {
    x in s.refs && s.refs[x] > 0 ==> x in t.tree && t.tree[x].tier == s.tree[x].tier
  }

  /** The allocation left the cache as `m`, in which locked nodes were kept. */
  lemma PromotedSteady(s: Two, m: Two, root: RadixNode, P: nat, locks: Locks, ages: Ages, n: RadixNode,
                       got: seq<int>, gpu': seq<PageData>)
    requires Sound(m, root, P, locks, null) && n in s.tree && n in m.tree && s.tree[n].tier == CPU && n in m.refs
    requires n != root && m.tree[n].pages == s.tree[n].pages && Reclaimed(s, m, |s.tree[n].pages|)
    requires Chosen(s, m, root, ages, |s.tree[n].pages|) && |got| <= |m.gpuFree|
    requires forall x {:trigger LockedTier(s, m, x)} :: x in s.tree && x != n ==> LockedTier(s, m, x)
    requires CanPromote(m, AfterPop(m, |got|), root, n, got, gpu')
    ensures Steady(s, Promoted(AfterPop(m, |got|), n, got, gpu'), root, ages, n, true)
  {
    var t := Promoted(AfterPop(m, |got|), n, got, gpu');
    forall x {:trigger RemainsAt(s, t, x)} | x in t.tree ensures RemainsAt(s, t, x) {
      assert RemainsAt(s, m, x);
    }
    forall x {:trigger LockedTier(s, t, x)} | x in s.tree && x != n ensures LockedTier(s, t, x) {
      assert LockedTier(s, m, x);
    }
    if RoomBelow(s) {
      forall x {:trigger Spared(s, t, ages, |s.tree[n].pages|, x)} | x in UnlockedNodes(s.tree, s.refs, root, GPU)
        ensures Spared(s, t, ages, |s.tree[n].pages|, x)
      {
        assert Spared(s, m, ages, |s.tree[n].pages|, x);
      }
    }
    assert RemainsAt(s, m, n);
    if m.refs[n] > 0 {
      assert Evicts(t) == Evicts(m);
    }
  }

  lemma NotSteady(s: Two, m: Two, root: RadixNode, ages: Ages, n: RadixNode)
    requires n in s.tree && Chosen(s, m, root, ages, |s.tree[n].pages|)
    requires forall x {:trigger LockedTier(s, m, x)} :: x in s.tree && x != n ==> LockedTier(s, m, x)
    ensures Steady(s, m, root, ages, n, false)
  {}

  // ---- the query's edges ----

  /** The pages that all edges of the query take on the GPU, beyond those locked there: of its edges
      on the CPU, and of the unlocked ones. */
  ghost function WayPages(s: Two, q: Path): set<Path> {
    set p | p in s.own && OnQuery(s.own, q, s.own[p]) && ToFit(s, s.own[p])
  }

  ghost predicate ToFit(s: Two, n: RadixNode) {
    n in s.tree && n in s.refs && (s.tree[n].tier == CPU || s.refs[n] == 0)
  }

  /** A lookup in `s` keeps the balance of what can be had and what its edges take. */
  ghost predicate Balanced(s: Two, t: Two, q: Path) {
    RoomBelow(s) ==>
      && t.own == s.own && RoomBelow(t)
      && Supply(t) + |WayPages(s, q)| == Supply(s) + |WayPages(t, q)|
  }

  ghost predicate Fits(s: Two, q: Path) {
    RoomBelow(s) && |WayPages(s, q)| <= Supply(s)
  }

  lemma BalancedTrans(s: Two, t: Two, u: Two, q: Path)
    requires Balanced(s, t, q) && Balanced(t, u, q)
    ensures Balanced(s, u, q)
  {}

  lemma WayMovedAt(t: Two, u: Two, root: RadixNode, P: nat, locks: Locks, c: RadixNode, ages: Ages, p: Path)
    requires Sound(t, root, P, locks, null) && Sound(u, root, P, locks, null) && u.own == t.own && p in t.own
    requires c in t.tree && t.tree[c].tier == CPU && c in u.tree && u.tree[c].tier == GPU
    requires Steady(t, u, root, ages, c, true)
    ensures ToFit(u, t.own[p]) <==> ToFit(t, t.own[p]) && (t.own[p] == c ==> c in t.refs && t.refs[c] == 0)
  {
    var n := t.own[p];
    assert OwnerOK(u.tree, u.own, p) && RemainsAt(t, u, n);
    OwnPath(t.tree, t.own, root, P, n);
    assert OwnerOK(t.tree, t.own, p);
    assert n != root ==> RefOK(t.tree, t.refs, locks, null, n);
    if n != c {
      assert LockedTier(t, u, n);
    }
  }

  lemma WayMoved(t: Two, u: Two, root: RadixNode, P: nat, locks: Locks, q: Path, k: nat, c: RadixNode, ages: Ages,
                 ok: bool)
    requires Sound(t, root, P, locks, null) && Sound(u, root, P, locks, null)
    requires c != root && OnWay(t.tree, q, k, c) && t.tree[c].tier == CPU && c in u.tree
    requires Moved(t, u, c, ok) && Steady(t, u, root, ages, c, ok) && (ok ==> u.tree[c].tier == GPU)
    requires RoomBelow(t)
    ensures Edge(t.tree[c]) <= WayPages(t, q) && |Edge(t.tree[c])| == |t.tree[c].pages|
    ensures ok ==> WayPages(u, q) == if t.refs[c] == 0 then WayPages(t, q) else WayPages(t, q) - Edge(t.tree[c])
  {
    EdgeIs(t.tree, t.own, root, P, c);
    ChildOnQuery(t, root, P, q, k, c);
    if ok {
      forall p: Path
        ensures p in WayPages(u, q) <==> p in WayPages(t, q) && (t.refs[c] == 0 || p !in Edge(t.tree[c]))
      {
        if p in t.own {
          WayMovedAt(t, u, root, P, locks, c, ages, p);
          assert p in Edge(t.tree[c]) <==> t.own[p] == c;
        }
      }
    }
  }

  /** With all of the query's edges fitting a promotion does not raise; either way the balance holds. */
  lemma BalancedMoved(t: Two, u: Two, root: RadixNode, P: nat, locks: Locks, q: Path, k: nat, c: RadixNode,
                      ages: Ages, ok: bool)
    requires Sound(t, root, P, locks, null) && Sound(u, root, P, locks, null) && c in t.refs
    requires c != root && OnWay(t.tree, q, k, c) && t.tree[c].tier == CPU && c in u.tree
    requires Moved(t, u, c, ok) && Steady(t, u, root, ages, c, ok) && (ok ==> u.tree[c].tier == GPU)
    ensures ok ==> Balanced(t, u, q)
    ensures Fits(t, q) ==> ok
  {
    if RoomBelow(t) {
      WayMoved(t, u, root, P, locks, q, k, c, ages, ok);
      SubsetCard(Edge(t.tree[c]), WayPages(t, q));
      if ok && t.refs[c] != 0 {
        RemoveSize(WayPages(t, q), Edge(t.tree[c]));
        assert RefOK(t.tree, t.refs, locks, null, c);
      }
    }
  }

  // ---- the edges crossed stay ----

  ghost predicate AllOlder(was: Ages, now: int) {
    forall n {:trigger was[n]} :: n in was ==> was[n] < now
  }

  /** The evictable pages on the edges already crossed, those not accessed before `now`. */
  lemma CrossedFit(t: Two, root: RadixNode, P: nat, q: Path, k: nat, c: RadixNode, was: Ages, ages: Ages, now: int,
                   x: RadixNode)
    requires WF(t.tree, t.own, root, P) && c != root && OnWay(t.tree, q, k, c) && t.tree[c].tier == CPU
    requires Refreshed(t.tree, was, ages, t.tree[c].path, now) && AllOlder(was, now)
    requires x in t.tree && t.tree[x].path <= t.tree[c].path
    ensures Evicts(t) - Older(t, ages, x) <= WayPages(t, q) - Edge(t.tree[c])
  {
    assert AgeIs(t.tree, was, ages, t.tree[c].path, now, x);
    forall p {:trigger p in Evicts(t)} | p in Evicts(t) && p !in Older(t, ages, x)
      ensures p in WayPages(t, q) && p !in Edge(t.tree[c])
    {
      var y := t.own[p];
      assert AgeIs(t.tree, was, ages, t.tree[c].path, now, y);
      EdgeIs(t.tree, t.own, root, P, c);
      OwnedUnlocked(t, root, P, p);
      CrossedOnQuery(t, root, P, q, k, c, y);
    }
  }

  lemma CrossedOnQuery(t: Two, root: RadixNode, P: nat, q: Path, k: nat, c: RadixNode, y: RadixNode)
    requires WF(t.tree, t.own, root, P) && c != root && OnWay(t.tree, q, k, c)
    requires y in t.tree && y != root && y != c && t.tree[y].path <= t.tree[c].path
    ensures OnQuery(t.own, q, y)
  {
    AncestorStep(t.tree, t.own, root, P, y, c);
    OwnPath(t.tree, t.own, root, P, y);
    var i := |t.tree[y].path|;
    assert t.tree[y].path <= t.tree[c].path[..k];
    assert q[..i] == t.tree[y].path;
  }

  /** So an unlocked edge crossed is spared while all of the query's edges fit. */
  lemma CrossedSpared(t: Two, u: Two, root: RadixNode, P: nat, locks: Locks, q: Path, k: nat, c: RadixNode,
                      was: Ages, ages: Ages, now: int, x: RadixNode)
    requires Sound(t, root, P, locks, null) && Sound(u, root, P, locks, null)
    requires c != root && OnWay(t.tree, q, k, c) && t.tree[c].tier == CPU && c in u.tree && u.tree[c].tier == GPU
    requires Moved(t, u, c, true) && Steady(t, u, root, ages, c, true) && Fits(t, q)
    requires Refreshed(t.tree, was, ages, t.tree[c].path, now) && AllOlder(was, now)
    requires x in UnlockedNodes(t.tree, t.refs, root, GPU) && t.tree[x].path <= t.tree[c].path
    ensures x in u.tree && u.tree[x].tier == GPU
  {
    var e, w, a, o := Edge(t.tree[c]), WayPages(t, q), Evicts(t), Older(t, ages, x);
    CrossedFit(t, root, P, q, k, c, was, ages, now, x);
    WayMoved(t, u, root, P, locks, q, k, c, ages, true);
    assert o <= a;
    SubsetCard(a - o, w - e);
    RemoveSize(a, o);
    RemoveSize(w, e);
    assert Spared(t, u, ages, |t.tree[c].pages|, x);
  }

  /** And a locked one stays anyway. */
  lemma CrossedStays(t: Two, u: Two, root: RadixNode, P: nat, locks: Locks, q: Path, k: nat, c: RadixNode,
                     was: Ages, ages: Ages, now: int, x: RadixNode)
    requires Sound(t, root, P, locks, null) && Sound(u, root, P, locks, null)
    requires c != root && OnWay(t.tree, q, k, c) && t.tree[c].tier == CPU && c in u.tree && u.tree[c].tier == GPU
    requires Moved(t, u, c, true) && Steady(t, u, root, ages, c, true) && Fits(t, q)
    requires Refreshed(t.tree, was, ages, t.tree[c].path, now) && AllOlder(was, now)
    requires x in t.tree && x != root && t.tree[x].tier == GPU && t.tree[x].path <= t.tree[c].path
    ensures x in u.tree && u.tree[x].tier == GPU
  {
    assert RefOK(t.tree, t.refs, locks, null, x);
    if t.refs[x] > 0 {
      assert LockedTier(t, u, x);
    } else {
      CrossedSpared(t, u, root, P, locks, q, k, c, was, ages, now, x);
    }
  }

  /** The prefixes matched so far are still on the GPU. */
  lemma AllBoundStays(t: Two, u: Two, root: RadixNode, P: nat, locks: Locks, q: Path, k: nat, c: RadixNode,
                      was: Ages, ages: Ages, now: int)
    requires Sound(t, root, P, locks, null) && Sound(u, root, P, locks, null)
    requires c != root && OnWay(t.tree, q, k, c) && t.tree[c].tier == CPU && c in u.tree && u.tree[c].tier == GPU
    requires Moved(t, u, c, true) && Steady(t, u, root, ages, c, true) && Fits(t, q)
    requires Refreshed(t.tree, was, ages, t.tree[c].path, now) && AllOlder(was, now)
    requires AllBound(GpuBooks(t).tree, q, k)
    ensures AllBound(GpuBooks(u).tree, q, k)
  {
    forall i {:trigger BoundAt(GpuBooks(u).tree, q, i)} | 0 <= i < k ensures BoundAt(GpuBooks(u).tree, q, i) {
      var p := q[..i + 1];
      assert BoundAt(GpuBooks(t).tree, q, i);
      TierPoint(t.tree, t.own, GPU, p);
      assert p <= t.tree[c].path;
      var x := t.own[p];
      OwnPath(t.tree, t.own, root, P, x);
      CoverDown(t.tree, t.own, root, P, x, p, c);
      CrossedStays(t, u, root, P, locks, q, k, c, was, ages, now, x);
      TierPoint(u.tree, u.own, GPU, p);
    }
  }

  // ---- the whole lookup ----

  ghost predicate Settled(s: Two, t: Two, root: RadixNode, ages: Ages, node: RadixNode, ok: bool)
    requires node in s.tree
  {
    if s.tree[node].tier == GPU then t == s else Steady(s, t, root, ages, node, ok)
  }

  /** A lookup that began in `s`, when nodes had the access times `was`, is in `t` and has matched
      `k` pages: all still on the GPU if everything was older and the query's edges fit. */
  ghost predicate Fitting(s: Two, t: Two, was: Ages, now: int, q: Path, k: nat) {
    Balanced(s, t, q) && (AllOlder(was, now) && Fits(s, q) ==> AllBound(GpuBooks(t).tree, q, k))
  }

  lemma FittingStart(s: Two, was: Ages, now: int, q: Path)
    ensures Fitting(s, s, was, now, q, 0)
  {}

  lemma AllBoundNext(t: Two, u: Two, root: RadixNode, P: nat, q: Path, k: nat, c: RadixNode, r: nat)
    requires WF(t.tree, t.own, root, P) && WF(u.tree, u.own, root, P) && c != root
    requires OnWay(t.tree, q, k, c) && SamePlace(t.tree, u.tree, c) && u.tree[c].tier == GPU
    requires r <= Shared(t.tree, q, k, c) && AllBound(GpuBooks(u).tree, q, k)
    ensures AllBound(GpuBooks(u).tree, q, k + r)
  {
    var B := GpuBooks(u).tree;
    forall i {:trigger BoundAt(B, q, i)} | 0 <= i < k + r ensures BoundAt(B, q, i) {
      if i >= k {
        SharedCovered(t.tree, q, k, c, i + 1);
        assert Covers(u.tree[c], q[..i + 1]);
        TierPoint(u.tree, u.own, GPU, q[..i + 1]);
      }
    }
  }

  /** One edge further. */
  lemma FittingMore(s: Two, t: Two, u: Two, root: RadixNode, P: nat, locks: Locks, q: Path, k: nat, c: RadixNode,
                    r: nat, was: Ages, ages: Ages, now: int)
    requires Fitting(s, t, was, now, q, k) && Sound(t, root, P, locks, null) && Sound(u, root, P, locks, null)
    requires c != root && OnWay(t.tree, q, k, c) && SamePlace(t.tree, u.tree, c) && u.tree[c].tier == GPU
    requires Brought(t, u, c, true) && Settled(t, u, root, ages, c, true) && r <= Shared(t.tree, q, k, c)
    requires Refreshed(t.tree, was, ages, t.tree[c].path, now)
    ensures Fitting(s, u, was, now, q, k + r)
  {
    if t.tree[c].tier == CPU {
      assert RefOK(t.tree, t.refs, locks, null, c);
      BalancedMoved(t, u, root, P, locks, q, k, c, ages, true);
      BalancedTrans(s, t, u, q);
      if AllOlder(was, now) && Fits(s, q) {
        AllBoundStays(t, u, root, P, locks, q, k, c, was, ages, now);
      }
    }
    if AllOlder(was, now) && Fits(s, q) {
      AllBoundNext(t, u, root, P, q, k, c, r);
    }
  }

  /** While the query's edges fit no promotion raises. */
  lemma FittingOn(s: Two, t: Two, u: Two, root: RadixNode, P: nat, locks: Locks, q: Path, k: nat, c: RadixNode,
                  was: Ages, ages: Ages, now: int, ok: bool)
    requires Fitting(s, t, was, now, q, k) && Sound(t, root, P, locks, null) && Sound(u, root, P, locks, null)
    requires c != root && OnWay(t.tree, q, k, c) && SamePlace(t.tree, u.tree, c) && (ok ==> u.tree[c].tier == GPU)
    requires Brought(t, u, c, ok) && Settled(t, u, root, ages, c, ok)
    ensures Fits(s, q) ==> ok
  {
    if t.tree[c].tier == CPU {
      assert RefOK(t.tree, t.refs, locks, null, c);
      BalancedMoved(t, u, root, P, locks, q, k, c, ages, ok);
    }
  }

  /** When everything matched is on the GPU at the end, all of the query's edges fit it. */
  lemma BoundFits(t: Two, root: RadixNode, P: nat, locks: Locks, q: Path, m: nat)
    requires Sound(t, root, P, locks, null) && Longest(Bind(t.tree, t.own), q, m)
    requires AllBound(GpuBooks(t).tree, q, m)
    ensures |WayPages(t, q)| <= Supply(t)
  {
    forall p {:trigger p in WayPages(t, q)} | p in WayPages(t, q) ensures p in Evicts(t) {
      var i :| 0 <= i <= |q| && q[..i] in t.own && t.own[q[..i]] == t.own[p];
      BindPoint(t.tree, t.own, q[..i]);
      assert OwnerOK(t.tree, t.own, q[..i]);
      OwnPath(t.tree, t.own, root, P, t.own[p]);
      assert EdgeOK(t.tree, t.own[p], P);
      assert BoundAt(GpuBooks(t).tree, q, i - 1);
      TierPoint(t.tree, t.own, GPU, q[..i]);
    }
    SubsetCard(WayPages(t, q), Evicts(t));
  }

  /** With room on the CPU and everything else accessed before, a lookup answers with the pages of
      its prefixes if and only if its edges, the last one as a whole, fit the GPU at once. */
  lemma CurrentFits(s: Two, t: Two, root: RadixNode, P: nat, locks: Locks, was: Ages, now: int, q: Path,
                    r: MatchResult)
    requires Sound(t, root, P, locks, null) && RoomBelow(s) && AllOlder(was, now)
    requires TierMatchOK(r, q, t.tree, t.own, root, P) && Answers(GpuBooks(t).tree, q, r.matchedPages)
    requires Fitting(s, t, was, now, q, |r.matchedPages|)
    ensures Current(GpuBooks(t).tree, q, r.matchedPages) <==> |WayPages(s, q)| <= Supply(s)
  {
    CurrentIff(GpuBooks(t).tree, q, r.matchedPages);
    if AllBound(GpuBooks(t).tree, q, |r.matchedPages|) {
      BoundFits(t, root, P, locks, q, |r.matchedPages|);
    }
  }

  /** How a lookup at `now` found the cache. */
  datatype Entry = Entry(cache: Two, was: Ages, now: int)

  /** A lookup is in `t` and has collected `pages`. */
  ghost predicate Tracked(e: Entry, t: Two, locks: Locks, q: Path, pages: seq<int>) {
    Looked(e.cache, t, locks, q, pages) && Fitting(e.cache, t, e.was, e.now, q, |pages|)
  }

  /** What makes sure that no promotion raises. */
  ghost predicate NeverRaises(e: Entry, locks: Locks, q: Path) {
    InPlace(e.cache, q) || Roomy(e.cache, locks, q) || Fits(e.cache, q)
  }

  lemma TrackedStart(e: Entry, locks: Locks, q: Path)
    ensures Tracked(e, e.cache, locks, q, [])
  {
    LookedStart(e.cache, locks, q);
    FittingStart(e.cache, e.was, e.now, q);
  }

  lemma TrackedMore(e: Entry, t: Two, u: Two, root: RadixNode, P: nat, locks: Locks, q: Path, pages: seq<int>,
                    c: RadixNode, r: nat, ages: Ages)
    requires Tracked(e, t, locks, q, pages) && Sound(t, root, P, locks, null) && Sound(u, root, P, locks, null)
    requires c != root && OnWay(t.tree, q, |pages|, c) && SamePlace(t.tree, u.tree, c) && u.tree[c].tier == GPU
    requires Brought(t, u, c, true) && Settled(t, u, root, ages, c, true)
    requires r <= Shared(t.tree, q, |pages|, c) && Refreshed(t.tree, e.was, ages, t.tree[c].path, e.now)
    ensures Tracked(e, u, locks, q, pages + u.tree[c].pages[..r])
  {
    LookedMore(e.cache, t, u, root, P, locks, q, pages, c, r);
    FittingMore(e.cache, t, u, root, P, locks, q, |pages|, c, r, e.was, ages, e.now);
  }

  lemma TrackedOn(e: Entry, t: Two, u: Two, root: RadixNode, P: nat, locks: Locks, q: Path, pages: seq<int>,
                  c: RadixNode, ages: Ages, ok: bool)
    requires Tracked(e, t, locks, q, pages) && Sound(t, root, P, locks, null) && Sound(u, root, P, locks, null)
    requires c != root && OnWay(t.tree, q, |pages|, c) && SamePlace(t.tree, u.tree, c)
    requires Brought(t, u, c, ok) && Settled(t, u, root, ages, c, ok) && (ok ==> u.tree[c].tier == GPU)
    ensures NeverRaises(e, locks, q) ==> ok
  {
    LookedOn(e.cache, t, u, root, P, locks, q, pages, c, ok);
    FittingOn(e.cache, t, u, root, P, locks, q, |pages|, c, e.was, ages, e.now, ok);
  }

  /** Moving pages between tiers and dropping nodes changes no access time. */
  lemma RefreshedAfter(t: Two, u: Two, was: Ages, ages: Ages, ages': Ages, p: Path, now: int)
    requires Refreshed(t.tree, was, ages, p, now) && Remains(t, u)
    requires forall n {:trigger n in ages'} :: n in u.tree ==> n in ages && n in ages' && ages'[n] == ages[n]
    ensures Refreshed(u.tree, was, ages', p, now)
  {
    forall n {:trigger AgeIs(u.tree, was, ages', p, now, n)} | n in u.tree
      ensures AgeIs(u.tree, was, ages', p, now, n)
    {
      assert RemainsAt(t, u, n);
      assert AgeIs(t.tree, was, ages, p, now, n);
    }
  }

  lemma LockedTiers(s: Two, m: Two, node: RadixNode)
    requires node in s.refs && node in m.refs && Preserves(Pinned(s, node, 1), m)
    ensures forall x {:trigger LockedTier(s, Pinned(m, node, -1), x)} :: x in s.tree && x != node ==>
      LockedTier(s, Pinned(m, node, -1), x)
  {
    var p, u := Pinned(s, node, 1), Pinned(m, node, -1);
    forall x {:trigger LockedTier(s, u, x)} | x in s.tree && x != node ensures LockedTier(s, u, x) {
      assert x in p.refs ==> LockedNodeKept(p.tree, p.refs, m.tree, m.refs, x);
    }
  }

  /** `s` after pages were allocated for the CPU node `node`, which was pinned meanwhile. */
  ghost predicate AllocatedFor(s: Two, m: Two, root: RadixNode, ages: Ages, node: RadixNode)
    requires node in s.tree
  {
    && Served(s, m) && Attached(s, m, node)
    && m.tree[node].pages == s.tree[node].pages && m.tree[node].tier == s.tree[node].tier
    && Reclaimed(s, m, |s.tree[node].pages|) && Chosen(s, m, root, ages, |s.tree[node].pages|)
    && (forall x {:trigger LockedTier(s, m, x)} :: x in s.tree && x != node ==> LockedTier(s, m, x))
  }

  lemma Unpinned(s: Two, m: Two, root: RadixNode, P: nat, locks: Locks, node: RadixNode, ages: Ages)
    requires Sound(s, root, P, locks, null) && node in s.tree && node != root && s.tree[node].tier == CPU
    requires node in s.refs && s.refs[node] >= 0 && Sound(m, root, P, locks, node)
    requires RoomMade(Pinned(s, node, 1), m, |s.tree[node].pages|)
    requires Chosen(Pinned(s, node, 1), m, root, ages, |s.tree[node].pages|)
    ensures node in m.tree && node in m.refs && Sound(Pinned(m, node, -1), root, P, locks, null)
    ensures AllocatedFor(s, Pinned(m, node, -1), root, ages, node)
  {
    UnpinServed(s, m, root, P, locks, node);
    UnpinReclaimed(s, m, node, |s.tree[node].pages|);
    UnpinChosen(s, m, root, node, ages, |s.tree[node].pages|);
    LockedTiers(s, m, node);
  }

  lemma AllocatedThere(s: Two, m: Two, root: RadixNode, node: RadixNode, ages: Ages)
    requires node in s.tree && AllocatedFor(s, m, root, ages, node)
    ensures node in m.tree && m.tree[node].tier == s.tree[node].tier && m.tree[node].pages == s.tree[node].pages
  {}

  /** What a promotion does to the cache. */
  ghost predicate PromotedTo(s: Two, t: Two, root: RadixNode, ages: Ages, node: RadixNode, ok: bool)
    requires node in s.tree
  {
    && Served(s, t) && Attached(s, t, node) && Moved(s, t, node, ok) && Steady(s, t, root, ages, node, ok)
    && (if ok then t.tree[node].tier == GPU
        else t.tree[node].tier == CPU && t.tree[node].pages == s.tree[node].pages)
  }

  lemma MovedUp(s: Two, m: Two, root: RadixNode, P: nat, locks: Locks, node: RadixNode, got: seq<int>,
                gpu': seq<PageData>, ages: Ages)
    requires node in s.tree && s.tree[node].tier == CPU && Sound(m, root, P, locks, null)
    requires AllocatedFor(s, m, root, ages, node) && |got| <= |m.gpuFree|
    requires CanPromote(m, AfterPop(m, |got|), root, node, got, gpu')
    ensures var t := Promoted(AfterPop(m, |got|), node, got, gpu');
      Sound(t, root, P, locks, null) && PromotedTo(s, t, root, ages, node, true)
  {
    PromotedMoved(s, m, root, P, locks, node, got, gpu');
    PromotedSteady(s, m, root, P, locks, ages, node, got, gpu');
    PromotedServed(s, m, root, P, locks, node, got, gpu');
  }

  lemma NotMovedUp(s: Two, m: Two, root: RadixNode, node: RadixNode, ages: Ages)
    requires node in s.tree && s.tree[node].tier == CPU && AllocatedFor(s, m, root, ages, node)
    requires |s.tree[node].pages| > |m.gpuFree|
    ensures PromotedTo(s, m, root, ages, node, false)
  {
    NotMoved(s, m, node);
    NotSteady(s, m, root, ages, node);
  }
}
