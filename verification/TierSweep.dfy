/** Runs of demotions and drops on snapshots (hicache.py:219-272, 337-382). */
module TierSweep {
  import opened Paging
  import opened TreeModel
  import opened TreeOps
  import opened TreeLocks
  import opened TreeEvict
  import opened TreeInsert
  import opened Tiers
  import opened TierRoom
  import opened KvData
  import opened PageLedger
  import opened TreeCount
  import opened PrefixCache
  import opened Wrappers

  ghost function LeavesIn(T: Tree, refs: Refs, root: RadixNode, t: Tier): set<RadixNode> {
    set n | n in T && UnlockedLeaf(T, refs, root, n) && T[n].tier == t
  }

  /** Dropping a leaf can make only its parent a new leaf. */
  lemma DropLeavesIn(s: Two, root: RadixNode, P: nat, v: RadixNode, x: Tier)
    requires WF(s.tree, s.own, root, P) && UnlockedLeaf(s.tree, s.refs, root, v) && EdgeOK(s.tree, v, P)
    ensures var t, up := Dropped(s, v, P), s.tree[v].parent;
      && up in t.tree && up in s.tree && up != v && t.tree[up].tier == s.tree[up].tier
      && LeavesIn(t.tree, t.refs, root, x) == LeavesIn(s.tree, s.refs, root, x) - {v}
           + (if UnlockedLeaf(t.tree, t.refs, root, up) && s.tree[up].tier == x then {up} else {})
  {
    OwnPath(s.tree, s.own, root, P, s.tree[v].parent);
    assert s.tree[v].parent != v;
    assert s.tree[s.tree[v].parent].children != map[];
  }

  // ---- reclaiming CPU pages ----

  /** A node that is still there is as it was, and every GPU node is still there. */
  ghost predicate NodeStays(s: Two, t: Two, n: RadixNode)
    requires n in s.tree && n in s.refs
  {
    && (n in t.tree ==> n in t.refs && t.refs[n] == s.refs[n] && t.tree[n].tier == s.tree[n].tier
                        && t.tree[n].pages == s.tree[n].pages && t.tree[n].path == s.tree[n].path
                        && t.tree[n].parent == s.tree[n].parent)
    && (s.tree[n].tier == GPU ==> n in t.tree)
  }

  /** What reclaiming CPU pages may change. */
  ghost predicate CpuSwept(s: Two, t: Two) {
    && t.gpuFree == s.gpuFree && t.kv == s.kv && t.tree.Keys <= s.tree.Keys && Preserves(s, t)
    && EvictableIn(t.tree, t.own, t.refs, GPU) == EvictableIn(s.tree, s.own, s.refs, GPU)
    && Room(t) == Room(s)
    && forall n {:trigger NodeStays(s, t, n)} :: n in s.tree && n in s.refs ==> NodeStays(s, t, n)
  }

  lemma CpuSweptSelf(s: Two)
    ensures CpuSwept(s, s)
  {
    PreservesSelf(s);
    forall n {:trigger NodeStays(s, s, n)} | n in s.tree && n in s.refs ensures NodeStays(s, s, n) {}
  }

  lemma CpuSweptTrans(s: Two, t: Two, u: Two)
    requires CpuSwept(s, t) && CpuSwept(t, u)
    ensures CpuSwept(s, u)
  {
    PreservesTrans(s, t, u);
    forall n {:trigger NodeStays(s, u, n)} | n in s.tree && n in s.refs ensures NodeStays(s, u, n) {
      assert NodeStays(s, t, n);
      if n in t.tree {
        assert NodeStays(t, u, n);
      }
    }
  }

  lemma CpuSweptDrop(s: Two, root: RadixNode, P: nat, locks: Locks, pin: RadixNode?, v: RadixNode)
    requires Sound(s, root, P, locks, pin) && v in LeavesIn(s.tree, s.refs, root, CPU)
    ensures EdgeOK(s.tree, v, P) && CpuSwept(s, Dropped(s, v, P))
  {
    assert EdgeOK(s.tree, v, P);
    var t := Dropped(s, v, P);
    DropPreserves(s, root, P, locks, pin, v);
    DropEvictableIn(s.tree, s.own, root, P, s.refs, v, GPU);
    DropReclaimable(s, root, P, v);
    forall n {:trigger NodeStays(s, t, n)} | n in s.tree && n in s.refs ensures NodeStays(s, t, n) {}
  }

  lemma CpuSweptNodes(s: Two, t: Two, root: RadixNode)
    requires CpuSwept(s, t) && s.refs.Keys == s.tree.Keys
    ensures UnlockedNodes(t.tree, t.refs, root, GPU) == UnlockedNodes(s.tree, s.refs, root, GPU)
  {
    forall n {:trigger n in t.tree} | n in s.tree
      ensures n in UnlockedNodes(t.tree, t.refs, root, GPU) <==> n in UnlockedNodes(s.tree, s.refs, root, GPU)
    {
      assert NodeStays(s, t, n);
    }
  }

  lemma NoCpuLeaf(s: Two, root: RadixNode, P: nat)
    requires WF(s.tree, s.own, root, P)
    ensures LeavesIn(s.tree, s.refs, root, CPU) == {} ==> Reclaimable(s) == {}
  {
    if LeavesIn(s.tree, s.refs, root, CPU) == {} {
      forall v {:trigger UnlockedLeaf(s.tree, s.refs, root, v)}
        | v in s.tree && UnlockedLeaf(s.tree, s.refs, root, v)
        ensures s.tree[v].tier != CPU
      {
        assert v !in LeavesIn(s.tree, s.refs, root, CPU);
      }
      NoLeafNoRoom(s, root, P);
    }
  }

  /** A least recently used unlocked leaf on the CPU. */
  ghost predicate CpuVictim(s: Snap, root: RadixNode, ages: map<RadixNode, int>, v: RadixNode) {
    && v in LeavesIn(s.tree, s.refs, root, CPU) && v in ages
    && forall m {:trigger m in LeavesIn(s.tree, s.refs, root, CPU)} ::
         m in LeavesIn(s.tree, s.refs, root, CPU) ==> m in ages && ages[v] <= ages[m]
  }

  /** Each victim is one when its turn comes. */
  ghost predicate CpuLru(s: Snap, root: RadixNode, P: nat, ages: map<RadixNode, int>, vs: seq<RadixNode>) {
    vs == [] ||
    (CpuLru(s, root, P, ages, vs[..|vs| - 1])
     && CpuVictim(DropAll(s, vs[..|vs| - 1], P), root, ages, vs[|vs| - 1]))
  }

  /** `vs` is a run of such drops from `s` to `t` that frees `pages`, and without its last victim
      it had not yet freed `need` pages. */
  ghost predicate CpuRun(s: Snap, root: RadixNode, P: nat, ages: map<RadixNode, int>, vs: seq<RadixNode>, t: Snap,
                         pages: seq<int>, need: int)
  {
    && CpuLru(s, root, P, ages, vs) && t == DropAll(s, vs, P) && pages == Freed(s, vs, P)
    && (vs != [] ==> |Freed(s, vs[..|vs| - 1], P)| < need)
  }

  lemma CpuRunStart(s: Snap, root: RadixNode, P: nat, ages: map<RadixNode, int>, need: int)
    ensures CpuRun(s, root, P, ages, [], s, [], need)
  {}

  lemma CpuRunStep(s: Snap, root: RadixNode, P: nat, ages: map<RadixNode, int>, vs: seq<RadixNode>, t: Snap,
                   pages: seq<int>, need: int, v: RadixNode)
    requires CpuRun(s, root, P, ages, vs, t, pages, need) && CpuVictim(t, root, ages, v) && |pages| < need
    ensures CpuRun(s, root, P, ages, vs + [v], Drop(t, v, P), pages + t.tree[v].pages, need)
  {
    assert (vs + [v])[..|vs + [v]| - 1] == vs;
  }

  // ---- one node of the GPU sweep ----

  /** All nodes but one are as they were, or gone; none of the GPU nodes is gone. */
  ghost predicate OthersStay(s: Two, t: Two, x: RadixNode) {
    forall n {:trigger NodeStays(s, t, n)} :: n in s.tree && n in s.refs && n != x ==> NodeStays(s, t, n)
  }

  /** What `_demote_node` did to the GPU node `node`: it is still in the tree, and `ok` when it is
      on the CPU now, which it is exactly when the CPU tier can make room for it.  An edge longer
      than the whole CPU pool never is. */
  ghost predicate DemoteResult(s: Two, t: Two, root: RadixNode, node: RadixNode, ok: bool)
    requires node in s.tree
  {
    && Preserves(s, t) && t.tree.Keys <= s.tree.Keys && OthersStay(s, t, node)
    && t.gpuFree == (if ok then s.gpuFree + s.tree[node].pages else s.gpuFree)
    && UnlockedNodes(t.tree, t.refs, root, GPU) ==
       UnlockedNodes(s.tree, s.refs, root, GPU) - (if ok then {node} else {})
    && |EvictableIn(t.tree, t.own, t.refs, GPU)|
         == |EvictableIn(s.tree, s.own, s.refs, GPU)| - (if ok then |s.tree[node].pages| else 0)
    && node in t.tree && t.tree[node].path == s.tree[node].path && t.tree[node].parent == s.tree[node].parent
    && node in s.refs && node in t.refs && t.refs[node] == s.refs[node]
    && (if ok then t.tree[node].tier == CPU && |t.tree[node].pages| == |s.tree[node].pages| <= |s.kv.cpu|
        else t.tree[node].pages == s.tree[node].pages && t.tree[node].tier == s.tree[node].tier)
    && |t.kv.cpu| == |s.kv.cpu|
    && (ok <==> |s.tree[node].pages| <= Room(s)) && (!ok ==> CpuSwept(s, t) && Reclaimable(t) == {})
    && (|s.tree[node].pages| <= |s.cpuFree| ==>
          ok && t.own == s.own && |t.cpuFree| == |s.cpuFree| - |s.tree[node].pages|)
  }

  lemma DemotedResult(s: Two, root: RadixNode, P: nat, locks: Locks, pin: RadixNode?, u: Two, n: RadixNode,
                      got: seq<int>, cpu': seq<PageData>)
    requires Sound(s, root, P, locks, pin) && CpuSwept(s, u) && Sound(u, root, P, locks, pin) && n in s.tree
      && n in s.refs
    requires s.tree[n].tier == GPU
    requires CanDemote(u, root, n, got, cpu') && (|s.tree[n].pages| <= |s.cpuFree| ==> u == s)
    ensures DemoteResult(s, Demoted(u, n, got, cpu'), root, n, true)
  {
    assert NodeStays(s, u, n);
    DemotePreserves(u, root, P, locks, pin, n, got, cpu');
    PreservesTrans(s, u, Demoted(u, n, got, cpu'));
    CpuSweptNodes(s, u, root);
    MoveEvictable(u.tree, u.own, root, P, u.refs, n, got, CPU);
    FreeBound(CpuBooks(u));
    var t := Demoted(u, n, got, cpu');
    forall x {:trigger NodeStays(s, t, x)} | x in s.tree && x in s.refs && x != n ensures NodeStays(s, t, x) {
      assert NodeStays(s, u, x);
    }
  }

  lemma NotDemoted(s: Two, root: RadixNode, P: nat, locks: Locks, pin: RadixNode?, u: Two, n: RadixNode)
    requires Sound(s, root, P, locks, pin) && CpuSwept(s, u) && n in s.tree && n in s.refs && s.tree[n].tier == GPU
    requires |s.tree[n].pages| > |u.cpuFree| && Reclaimable(u) == {} && |s.tree[n].pages| > |s.cpuFree|
    ensures DemoteResult(s, u, root, n, false)
  {
    assert NodeStays(s, u, n);
    CpuSweptNodes(s, u, root);
  }

  // ---- the GPU sweep ----

  /** State of the loop of `evict`: `heap` are the nodes not yet tried. */
  ghost predicate Swept(s: Two, t: Two, root: RadixNode, heap: set<RadixNode>, freed: int) {
    && Preserves(s, t) && heap <= UnlockedNodes(t.tree, t.refs, root, GPU)
    && s.gpuFree <= t.gpuFree && |t.gpuFree| == |s.gpuFree| + freed
    && |EvictableIn(t.tree, t.own, t.refs, GPU)| == |EvictableIn(s.tree, s.own, s.refs, GPU)| - freed
    && (RoomBelow(s) ==>
          && t.own == s.own && heap == UnlockedNodes(t.tree, t.refs, root, GPU)
          && |t.cpuFree| == |s.cpuFree| - freed)
  }

  /** The CPU tier has room for everything evictable on the GPU. */
  ghost predicate RoomBelow(s: Two) {
    |EvictableIn(s.tree, s.own, s.refs, GPU)| <= |s.cpuFree|
  }

  lemma SweptStart(s: Two, root: RadixNode)
    ensures Swept(s, s, root, UnlockedNodes(s.tree, s.refs, root, GPU), 0)
  {
    PreservesSelf(s);
  }

  /** A node's pages are among the evictable ones. */
  lemma NodeEvictable(T: Tree, own: Owners, root: RadixNode, P: nat, refs: Refs, n: RadixNode, t: Tier)
    requires WF(T, own, root, P) && n in UnlockedNodes(T, refs, root, t)
    ensures |T[n].pages| <= |EvictableIn(T, own, refs, t)|
  {
    assert EdgeOK(T, n, P);
    EdgeSize(T[n]);
    forall p {:trigger p in Edge(T[n])} | p in Edge(T[n]) ensures p in EvictableIn(T, own, refs, t) {
      EdgeOwned(T, own, root, P, n, p);
    }
    SubsetCard(Edge(T[n]), EvictableIn(T, own, refs, t));
  }

  /** The cache `t`, its oldest waiting node `x`, and the cache after the round of the sweep that
      tries `x`: demoted when the CPU tier can make room, else passed over when something locked or
      on the GPU hangs below it, else dropped. */
  ghost predicate RoundDone(t: Two, u: Two, root: RadixNode, x: RadixNode)
    requires x in t.tree
  {
    var n, freed := |t.tree[x].pages|, |u.gpuFree| - |t.gpuFree|;
    && Preserves(t, u) && u.tree.Keys <= t.tree.Keys && OthersStay(t, u, x) && |u.kv.cpu| == |t.kv.cpu|
    && t.gpuFree <= u.gpuFree && |Evicts(u)| == |Evicts(t)| - freed
    && UnlockedNodes(u.tree, u.refs, root, GPU) == UnlockedNodes(t.tree, t.refs, root, GPU) -
         (if Passes(t, x) then {} else {x})
    && (x in u.tree ==> u.tree[x].path == t.tree[x].path && |u.tree[x].pages| == n)
    && (x in u.tree ==> x in t.refs && x in u.refs && u.refs[x] == t.refs[x])
    && (if n <= Room(t) then x in u.tree && u.tree[x].tier == CPU && freed == n
        else if Passes(t, x) then x in t.refs && x in u.tree && NodeStays(t, u, x) && freed == 0
        else x !in u.tree && freed == n)
    && (n <= |t.cpuFree| ==> u.own == t.own && |u.cpuFree| == |t.cpuFree| - n)
  }

  /** The evictable GPU prefixes. */
  ghost function Evicts(s: Two): set<Path> {
    EvictableIn(s.tree, s.own, s.refs, GPU)
  }

  /** The guard under which a round passes its node over. */
  ghost predicate Passes(t: Two, x: RadixNode)
    requires x in t.tree
  {
    |t.tree[x].pages| > Room(t) && HeldBelow(t, GpuNodes(t), x)
  }

  /** After a failed demotion the node has children exactly if something held them. */
  lemma ChildrenLeft(t: Two, m: Two, root: RadixNode, P: nat, locks: Locks, pin: RadixNode?, x: RadixNode)
    requires Sound(t, root, P, locks, pin) && Sound(m, root, P, locks, pin) && CpuSwept(t, m) && Reclaimable(m) == {}
    requires x in t.tree && x in t.refs && t.tree[x].tier == GPU
    ensures x in m.tree && (m.tree[x].children == map[] <==> !HeldBelow(t, GpuNodes(t), x))
  {
    var G := GpuNodes(t);
    assert NodeStays(t, m, x);
    if HeldBelow(t, G, x) {
      var y :| y in t.tree && y != x && HoldsUp(t, G, x, y);
      assert NodeStays(t, m, y) && LockedNodeKept(t.tree, t.refs, m.tree, m.refs, y);
      ChildToward(m.tree, m.own, root, P, x, y);
    }
    if m.tree[x].children != map[] {
      var b :| b in m.tree[x].children;
      ChildHeld(t, m, root, P, locks, pin, x, b);
    }
  }

  lemma ChildNotSunk(m: Two, root: RadixNode, P: nat, x: RadixNode, b: Block)
    requires WF(m.tree, m.own, root, P) && Reclaimable(m) == {} && x in m.tree && b in m.tree[x].children
    ensures var c := m.tree[x].children[b];
      c in m.tree && m.tree[x].path < m.tree[c].path && !Sunk(m.tree, m.refs, c)
  {
    var c := m.tree[x].children[b];
    assert ChildOK(m.tree, x, b);
    OwnPath(m.tree, m.own, root, P, root);
    assert EdgeOK(m.tree, c, P);
    OwnPath(m.tree, m.own, root, P, c);
    assert m.tree[c].path !in Reclaimable(m);
  }

  lemma ChildHeld(t: Two, m: Two, root: RadixNode, P: nat, locks: Locks, pin: RadixNode?, x: RadixNode, b: Block)
    requires Sound(t, root, P, locks, pin) && Sound(m, root, P, locks, pin) && CpuSwept(t, m) && Reclaimable(m) == {}
    requires x in t.tree && x in m.tree && t.tree[x].path == m.tree[x].path && b in m.tree[x].children
    ensures HeldBelow(t, GpuNodes(t), x)
  {
    var c := m.tree[x].children[b];
    ChildNotSunk(m, root, P, x, b);
    var y :| y in m.tree && !SunkAt(m.tree, m.refs, c, y);
    assert NodeStays(t, m, y);
    assert y != root ==> RefOK(t.tree, t.refs, locks, pin, y);
    OwnPath(m.tree, m.own, root, P, y);
    assert HoldsUp(t, GpuNodes(t), x, y);
  }

  lemma DemotedRound(t: Two, u: Two, root: RadixNode, x: RadixNode)
    requires x in t.tree && DemoteResult(t, u, root, x, true)
    ensures RoundDone(t, u, root, x)
  {}

  lemma PassedRound(t: Two, u: Two, root: RadixNode, x: RadixNode)
    requires x in t.tree && x in t.refs && DemoteResult(t, u, root, x, false) && HeldBelow(t, GpuNodes(t), x)
    ensures RoundDone(t, u, root, x)
  {
    CpuSweptStays(t, u, x);
  }

  lemma CpuSweptStays(t: Two, u: Two, x: RadixNode)
    requires CpuSwept(t, u) && x in t.tree && x in t.refs
    ensures NodeStays(t, u, x)
  {}

  lemma DropUnlocked(m: Two, root: RadixNode, P: nat, x: RadixNode)
    requires x in m.tree && EdgeOK(m.tree, x, P) && x in LeavesIn(m.tree, m.refs, root, GPU)
    ensures var u := Dropped(m, x, P);
      UnlockedNodes(u.tree, u.refs, root, GPU) == UnlockedNodes(m.tree, m.refs, root, GPU) - {x}
  {
    var u := Dropped(m, x, P);
    forall n {:trigger n in UnlockedNodes(u.tree, u.refs, root, GPU)}
      ensures n in UnlockedNodes(u.tree, u.refs, root, GPU)
        <==> n in UnlockedNodes(m.tree, m.refs, root, GPU) && n != x {}
  }

  lemma OthersDrop(t: Two, m: Two, P: nat, x: RadixNode)
    requires OthersStay(t, m, x) && x in m.tree && EdgeOK(m.tree, x, P)
    ensures OthersStay(t, Dropped(m, x, P), x)
  {
    var u := Dropped(m, x, P);
    forall n {:trigger NodeStays(t, u, n)} | n in t.tree && n in t.refs && n != x ensures NodeStays(t, u, n) {
      assert NodeStays(t, m, n);
    }
  }

  lemma DroppedRound(t: Two, m: Two, root: RadixNode, P: nat, locks: Locks, pin: RadixNode?, x: RadixNode)
    requires x in t.tree && x in t.refs && DemoteResult(t, m, root, x, false) && !HeldBelow(t, GpuNodes(t), x)
    requires Sound(m, root, P, locks, pin) && x in LeavesIn(m.tree, m.refs, root, GPU) && EdgeOK(m.tree, x, P)
    ensures RoundDone(t, Dropped(m, x, P), root, x)
  {
    hide Preserves, OthersStay, CpuSwept;
    DropPreserves(m, root, P, locks, pin, x);
    PreservesTrans(t, m, Dropped(m, x, P));
    DropEvictableIn(m.tree, m.own, root, P, m.refs, x, GPU);
    OthersDrop(t, m, P, x);
    DropUnlocked(m, root, P, x);
  }

  /** A round of the sweep, in the terms of the whole sweep. */
  lemma SweptRound(s: Two, t: Two, u: Two, root: RadixNode, P: nat, heap: set<RadixNode>, freed: int, x: RadixNode)
    requires Swept(s, t, root, heap, freed) && x in heap && x in t.tree && RoundDone(t, u, root, x)
    requires WF(t.tree, t.own, root, P)
    ensures Swept(s, u, root, heap - {x}, freed + |u.gpuFree| - |t.gpuFree|)
  {
    PreservesTrans(s, t, u);
    NodeEvictable(t.tree, t.own, root, P, t.refs, x, GPU);
  }

  /** What is freed is no longer evictable.  `evict(n)` frees at least min(n, evictable) pages and
      drops no prefix when the CPU tier starts with room for all evictable pages, internal nodes
      included. */
  ghost predicate SweepDone(s: Two, t: Two, freed: int, need: int) {
    && Preserves(s, t) && s.gpuFree <= t.gpuFree && |t.gpuFree| == |s.gpuFree| + freed
    && |EvictableIn(t.tree, t.own, t.refs, GPU)| == |EvictableIn(s.tree, s.own, s.refs, GPU)| - freed
    && (RoomBelow(s) ==>
          && t.own == s.own && |t.cpuFree| == |s.cpuFree| - freed
          && (freed >= need || freed == |EvictableIn(s.tree, s.own, s.refs, GPU)|))
  }

  lemma SweptDone(s: Two, t: Two, root: RadixNode, P: nat, heap: set<RadixNode>, freed: int, need: int)
    requires Swept(s, t, root, heap, freed) && WF(t.tree, t.own, root, P) && (freed >= need || heap == {})
    ensures SweepDone(s, t, freed, need)
  {
    if RoomBelow(s) && heap == {} {
      NoNodeNoPage(t.tree, t.own, root, P, t.refs, GPU);
    }
  }

  // ---- promotion, with everything its allocation sets off ----

  /** Locked nodes stay; those on the GPU stay there with their pages. */
  ghost predicate LockedStays(s: Two, t: Two, n: RadixNode)
    requires n in s.tree && n in s.refs
  {
    s.refs[n] > 0 ==>
      && n in t.tree && n in t.refs && t.refs[n] == s.refs[n] && t.tree[n].path == s.tree[n].path
      && (s.tree[n].tier == GPU ==> t.tree[n].tier == GPU && t.tree[n].pages == s.tree[n].pages)
  }

  /** What a promotion, and with it a whole match, guarantees. */
  ghost predicate Served(s: Two, t: Two) {
    && (forall n {:trigger LockedStays(s, t, n)} :: n in s.tree && n in s.refs ==> LockedStays(s, t, n))
    && |t.kv.gpu| == |s.kv.gpu| && |t.kv.cpu| == |s.kv.cpu| && t.own.Keys <= s.own.Keys
    && (GpuApart(s) ==> GpuApart(t) && Kept(Holdings(s), Holdings(t)))
  }

  lemma ServedShrinks(s: Two, t: Two)
    requires Served(s, t)
    ensures t.own.Keys <= s.own.Keys
  {}

  lemma ServedSelf(s: Two)
    ensures Served(s, s)
  {
    forall n {:trigger LockedStays(s, s, n)} | n in s.tree && n in s.refs ensures LockedStays(s, s, n) {}
  }

  lemma ServedTrans(s: Two, t: Two, u: Two)
    requires Served(s, t) && Served(t, u)
    ensures Served(s, u)
  {
    forall n {:trigger LockedStays(s, u, n)} | n in s.tree && n in s.refs ensures LockedStays(s, u, n) {
      assert LockedStays(s, t, n);
      if s.refs[n] > 0 {
        assert LockedStays(t, u, n);
      }
    }
  }

  ghost function Pinned(s: Two, node: RadixNode, d: int): Two
    requires node in s.refs
  {
    s.(refs := s.refs[node := s.refs[node] + d])
  }

  ghost function AfterPop(s: Two, n: nat): Two
    requires n <= |s.gpuFree|
  {
    s.(gpuFree := s.gpuFree[..|s.gpuFree| - n])
  }

  lemma PopSound(s: Two, root: RadixNode, P: nat, locks: Locks, pin: RadixNode?, n: nat)
    requires Sound(s, root, P, locks, pin) && n <= |s.gpuFree|
    ensures Sound(AfterPop(s, n), root, P, locks, pin)
  {
    var b, b' := GpuBooks(s), GpuBooks(AfterPop(s, n));
    forall l, x {:trigger Holds(b', l, x)} | Holds(b', l, x) ensures InPool(b', x) {
      assert Holds(b, l, x);
      assert InPool(b, x);
    }
  }

  /** `t` is `m` after popping `n` pages, or `m` itself when it has too few. */
  ghost predicate PoppedOff(m: Two, t: Two, r: Option<seq<int>>, n: nat) {
    if r.None? then n > |m.gpuFree| && t == m
    else n <= |m.gpuFree| && r.value == Popped(m.gpuFree, n) && t == AfterPop(m, n)
  }

  lemma PoppedPinned(m: Two, t: Two, r: Option<seq<int>>, n: nat, node: RadixNode, d: int)
    requires PoppedOff(m, t, r, n) && node in m.refs
    ensures node in t.refs && PoppedOff(Pinned(m, node, d), Pinned(t, node, d), r, n)
  {}

  /** The GPU pages an allocation can get at. */
  ghost function Supply(s: Two): nat {
    |s.gpuFree| + |EvictableIn(s.tree, s.own, s.refs, GPU)|
  }

  /** Pages for a request of `n` were looked for, and evicted only when the free ones were short:
      nothing came to the GPU, and nothing is lost when the CPU tier has room. */
  ghost predicate Reclaimed(s: Two, m: Two, n: nat) {
    && Kept(GpuBooks(s).tree, GpuBooks(m).tree) && (n <= |s.gpuFree| ==> m == s) && Supply(m) == Supply(s)
    && (RoomBelow(s) ==> m.own == s.own && RoomBelow(m) && (n <= |m.gpuFree| <==> n <= Supply(s)))
  }

  ghost predicate RoomMade(s: Two, m: Two, n: nat) {
    Preserves(s, m) && Reclaimed(s, m, n)
  }

  lemma NoSweep(s: Two, n: nat)
    requires n <= |s.gpuFree|
    ensures RoomMade(s, s, n)
  {
    PreservesSelf(s);
  }

  lemma SweepRoom(s: Two, t: Two, freed: int, n: nat)
    requires n > |s.gpuFree| && SweepDone(s, t, freed, n - |s.gpuFree|)
    ensures RoomMade(s, t, n)
  {}

  /** A pinned node is on the CPU, so the pin takes nothing off the supply. */
  lemma UnpinReclaimed(s: Two, m: Two, node: RadixNode, n: nat)
    requires node in s.tree && s.tree[node].tier == CPU && node in m.tree && m.tree[node].tier == CPU
    requires node in s.refs && node in m.refs && Reclaimed(Pinned(s, node, 1), m, n)
    ensures Reclaimed(s, Pinned(m, node, -1), n)
  {
    var p, u := Pinned(s, node, 1), Pinned(m, node, -1);
    assert EvictableIn(p.tree, p.own, p.refs, GPU) == EvictableIn(s.tree, s.own, s.refs, GPU);
    assert EvictableIn(u.tree, u.own, u.refs, GPU) == EvictableIn(m.tree, m.own, m.refs, GPU);
    if m == p {
      assert u.refs == s.refs;
    }
  }

  /** Pinning the node for the time of the allocation. */
  lemma PinSound(s: Two, root: RadixNode, P: nat, locks: Locks, node: RadixNode)
    requires Sound(s, root, P, locks, null) && node in s.tree && node != root
    ensures node in s.refs && s.refs[node] >= 0 && Sound(Pinned(s, node, 1), root, P, locks, node)
  {
    PinCounted(s.tree, root, s.refs, locks, node);
    assert RefOK(s.tree, s.refs, locks, null, node);
  }

  /** While pinned the node stays attached with its CPU pages; afterwards its count is back. */
  lemma UnpinServed(s: Two, m: Two, root: RadixNode, P: nat, locks: Locks, node: RadixNode)
    requires Sound(s, root, P, locks, null) && node in s.tree && node != root && node in s.refs && s.refs[node] >= 0
    requires Preserves(Pinned(s, node, 1), m) && Sound(m, root, P, locks, node)
    ensures node in m.tree && m.tree[node].pages == s.tree[node].pages && m.tree[node].tier == s.tree[node].tier
    ensures m.tree[node].path == s.tree[node].path
    ensures node in m.refs && m.refs[node] - 1 == s.refs[node]
    ensures Sound(Pinned(m, node, -1), root, P, locks, null) && Served(s, Pinned(m, node, -1))
  {
    var p := Pinned(s, node, 1);
    assert LockedNodeKept(p.tree, p.refs, m.tree, m.refs, node);
    PinCounted(m.tree, root, m.refs, locks, node);
    var u := Pinned(m, node, -1);
    assert GpuBooks(u) == GpuBooks(m) && CpuBooks(u) == CpuBooks(m);
    forall n {:trigger LockedStays(s, u, n)} | n in s.tree && n in s.refs ensures LockedStays(s, u, n) {
      assert LockedNodeKept(p.tree, p.refs, m.tree, m.refs, n);
    }
  }

  lemma PromotedServed(s: Two, m: Two, root: RadixNode, P: nat, locks: Locks, node: RadixNode, got: seq<int>,
                       gpu': seq<PageData>)
    requires Served(s, m) && Sound(m, root, P, locks, null) && |got| <= |m.gpuFree|
    requires CanPromote(m, AfterPop(m, |got|), root, node, got, gpu')
    requires node in s.tree && s.tree[node].tier == CPU
    ensures var t := Promoted(AfterPop(m, |got|), node, got, gpu');
      Sound(t, root, P, locks, null) && Served(s, t) && t.own == m.own
  {
    var p := AfterPop(m, |got|);
    var t := Promoted(p, node, got, gpu');
    PromoteSound(m, p, root, P, locks, null, node, got, gpu');
    if GpuApart(m) {
      PromotePreserves(m, p, root, P, locks, null, node, got, gpu');
    }
    forall n {:trigger LockedStays(s, t, n)} | n in s.tree && n in s.refs ensures LockedStays(s, t, n) {
      assert LockedStays(s, m, n);
    }
  }

  /** The node is still there: same tokens, as many pages, same lock count. */
  ghost predicate Attached(s: Two, t: Two, n: RadixNode) {
    && n in s.tree && n in s.refs && n in t.tree && n in t.refs && t.refs[n] == s.refs[n]
    && t.tree[n].path == s.tree[n].path && |t.tree[n].pages| == |s.tree[n].pages|
  }

  // ---- insertion into the tiered cache (inherited) ----

  /** An insertion leaves the CPU tier alone, so both tiers stay sound. */
  lemma GrownSound(s: Two, t: Two, root: RadixNode, P: nat, locks: Locks, q: Path, pages: seq<int>)
    requires Sound(s, root, P, locks, null) && Grown(s.tree, s.own, t.tree, t.own)
    requires WF(t.tree, t.own, root, P) && Counted(t.tree, root, t.refs, locks, null)
    requires |q| <= |pages| && Bind(t.tree, t.own) == Insert(Bind(s.tree, s.own), q, pages)
    requires t.gpuFree == s.gpuFree && t.cpuFree == s.cpuFree && t.kv == s.kv
    requires forall i {:trigger pages[i]} :: 0 <= i < |pages| ==> 0 <= pages[i] < |s.kv.gpu|
    ensures Sound(t, root, P, locks, null) && Kept(Holdings(t), Holdings(s))
  {
    assert CpuBooks(t) == CpuBooks(s);
    var b, b' := GpuBooks(s), GpuBooks(t);
    forall l, x {:trigger Holds(b', l, x)} | Holds(b', l, x) ensures InPool(b', x) {
      if l.InTree? {
        GrownPoint(s, t, q, pages, l.p);
        if l.p in s.own { assert Holds(b, l, x); assert InPool(b, x); }
      } else {
        assert Holds(b, l, x);
        assert InPool(b, x);
      }
    }
    forall p {:trigger p in Holdings(s)} | p in Holdings(s)
      ensures p in Holdings(t) && Holdings(t)[p] == Holdings(s)[p]
    {
      GrownHolds(s, t, q, pages, p);
    }
  }

  lemma GrownPoint(s: Two, t: Two, q: Path, pages: seq<int>, p: Path)
    requires Owned(s.tree, s.own) && Owned(t.tree, t.own) && Grown(s.tree, s.own, t.tree, t.own)
    requires |q| <= |pages| && Bind(t.tree, t.own) == Insert(Bind(s.tree, s.own), q, pages)
    requires p in TierBind(t.tree, t.own, GPU)
    ensures if p in s.own then p in TierBind(s.tree, s.own, GPU)
      && TierBind(s.tree, s.own, GPU)[p] == TierBind(t.tree, t.own, GPU)[p]
            else 0 < |p| <= |q| && TierBind(t.tree, t.own, GPU)[p] == pages[|p| - 1]
  {
    TierPoint(t.tree, t.own, GPU, p);
    TierPoint(t.tree, t.own, CPU, p);
    TierPoint(s.tree, s.own, CPU, p);
    TierPoint(s.tree, s.own, GPU, p);
    BindPoint(t.tree, t.own, p);
    BindAt(s.tree, s.own);
    InsertPoint(Bind(s.tree, s.own), q, pages, p);
    if p in s.own {
      BindPoint(s.tree, s.own, p);
    }
  }

  lemma GrownHolds(s: Two, t: Two, q: Path, pages: seq<int>, p: Path)
    requires Owned(s.tree, s.own) && Owned(t.tree, t.own) && Grown(s.tree, s.own, t.tree, t.own) && t.kv == s.kv
    requires |q| <= |pages| && Bind(t.tree, t.own) == Insert(Bind(s.tree, s.own), q, pages)
    requires p in s.own
    ensures p in Holdings(s) && p in Holdings(t) && Holdings(t)[p] == Holdings(s)[p]
  {
    BindPoint(s.tree, s.own, p);
    BindAt(t.tree, t.own);
    InsertPoint(Bind(s.tree, s.own), q, pages, p);
    BindPoint(t.tree, t.own, p);
    ContentPoint(s.tree, s.own, s.kv, p);
    ContentPoint(t.tree, t.own, t.kv, p);
    TierPoint(t.tree, t.own, CPU, p);
    TierPoint(s.tree, s.own, CPU, p);
  }

  // ---- counting and listing by tier ----

  ghost function OnTier(T: Tree, tier: Option<Tier>): set<RadixNode> {
    set n | n in T && (tier.None? || T[n].tier == tier.value)
  }

  lemma TierCountStep(T: Tree, own: Owners, root: RadixNode, P: nat, refs: Refs, n: RadixNode, keys: set<Block>,
                      b: Block, locked: bool, tier: Option<Tier>)
    requires WF(T, own, root, P) && n in T && b in keys && keys <= T[n].children.Keys && T[n].children[b] in T
    ensures var X := OnTier(T, tier);
      |PagesIn(own, refs, (Sub(T, n) - Hanging(T, n, keys - {b})) * X, locked)|
      == |PagesIn(own, refs, (Sub(T, n) - Hanging(T, n, keys)) * X, locked)| +
        |PagesIn(own, refs, Sub(T, T[n].children[b]) * X, locked)|
  {
    HangingStep(T, own, root, P, n, keys, b);
    var X := OnTier(T, tier);
    var seen, next, below := Sub(T, n) - Hanging(T, n, keys), Sub(T, n) - Hanging(T, n, keys - {b}),
      Sub(T, T[n].children[b]);
    assert next * X == seen * X + below * X;
    PagesInUnion(own, refs, seen * X, below * X, locked);
  }

  /** What one node contributes to the count of a tier. */
  lemma TierCountOne(T: Tree, own: Owners, root: RadixNode, P: nat, refs: Refs, n: RadixNode, locked: bool,
                     tier: Option<Tier>)
    requires WF(T, own, root, P) && n in T && n in refs
    ensures |PagesIn(own, refs, {n} * OnTier(T, tier), locked)| ==
      if n != root && (tier.None? || T[n].tier == tier.value) && (if locked then refs[n] > 0 else refs[n] == 0)
        then |T[n].pages| else 0
  {
    PagesInOne(T, own, root, P, refs, n, locked);
    if tier.None? || T[n].tier == tier.value {
      assert {n} * OnTier(T, tier) == {n};
    } else {
      assert {n} * OnTier(T, tier) == {};
      assert PagesIn(own, refs, {}, locked) == {};
    }
  }

  lemma TierCountAll(T: Tree, own: Owners, root: RadixNode, P: nat, refs: Refs, t: Tier)
    requires WF(T, own, root, P)
    ensures PagesIn(own, refs, Sub(T, root) * OnTier(T, Some(t)), false) == EvictableIn(T, own, refs, t)
  {
    RootReaches(T, own, root, P);
  }

  /** The owners whose node is in tier `t`. */
  ghost function TierOwn(T: Tree, own: Owners, t: Tier): Owners {
    map p | p in own && own[p] in T && T[own[p]].tier == t :: own[p]
  }

  /** `gone` lists the prefixes of tier `t` on the nodes of `S`, `pages` their pages. */
  ghost predicate TierListed(T: Tree, own: Owners, t: Tier, S: set<RadixNode>, gone: seq<Path>, pages: seq<int>) {
    Listed(TierBind(T, own, t), TierOwn(T, own, t), S, gone, pages)
  }

  lemma TierListedOne(T: Tree, own: Owners, root: RadixNode, P: nat, n: RadixNode, t: Tier)
    requires WF(T, own, root, P) && n in T
    ensures |T[n].pages| <= |T[n].path|
    ensures if T[n].tier == t then TierListed(T, own, t, {n}, EdgeSeq(T[n]), T[n].pages)
      else TierListed(T, own, t, {n}, [], [])
  {
    if n != root {
      assert EdgeOK(T, n, P);
      EdgeSeqIs(T, own, root, P, n);
    } else {
      forall p {:trigger p in own} | p in own ensures own[p] != root {
        assert OwnerOK(T, own, p);
      }
    }
    if T[n].tier == t {
      var g := EdgeSeq(T[n]);
      forall j {:trigger g[j]} | 0 <= j < |g|
        ensures g[j] in TierOwn(T, own, t) && TierOwn(T, own, t)[g[j]] == n
        ensures g[j] in TierBind(T, own, t) && TierBind(T, own, t)[g[j]] == T[n].pages[j]
      {
        TierPoint(T, own, t, g[j]);
      }
    }
  }

  lemma TierListedUnion(T: Tree, own: Owners, t: Tier, S: set<RadixNode>, S': set<RadixNode>, g: seq<Path>, f: seq<int>,
                        g': seq<Path>, f': seq<int>)
    requires S !! S' && TierListed(T, own, t, S, g, f) && TierListed(T, own, t, S', g', f')
    ensures TierListed(T, own, t, S + S', g + g', f + f')
  {
    ListedUnion(TierBind(T, own, t), TierOwn(T, own, t), S, S', g, f, g', f');
  }

  lemma TierListedAll(T: Tree, own: Owners, t: Tier, gone: seq<Path>, pages: seq<int>)
    requires Owned(T, own) && TierListed(T, own, t, T.Keys, gone, pages)
    ensures Unbound(TierBind(T, own, t), map[], gone, pages)
  {
    forall p {:trigger p in TierBind(T, own, t)} | p in TierBind(T, own, t) ensures p in gone {
      TierPoint(T, own, t, p);
      assert p in TierOwn(T, own, t);
    }
    assert TierBind(T, own, t) - (set p | p in gone) == map[];
  }

  /** `reset` gives every page back to the tier it is in. */
  lemma ResetSound(s: Two, t: Two, root: RadixNode, root': RadixNode, P: nat, locks: Locks, pin: RadixNode?,
                   g: seq<Path>, f: seq<int>, g': seq<Path>, f': seq<int>)
    requires Sound(s, root, P, locks, pin) && WF(t.tree, t.own, root', P) && Counted(t.tree, root', t.refs, map[], null)
    requires TierListed(s.tree, s.own, GPU, s.tree.Keys, g, f) && TierListed(s.tree, s.own, CPU, s.tree.Keys, g', f')
    requires t.own == map[] && t.kv == s.kv && t.gpuFree == s.gpuFree + f && t.cpuFree == s.cpuFree + f'
    ensures Sound(t, root', P, map[], null) && (GpuApart(s) ==> GpuApart(t))
  {
    TierListedAll(s.tree, s.own, GPU, g, f);
    TierListedAll(s.tree, s.own, CPU, g', f');
    assert TierBind(t.tree, t.own, GPU) == map[] && TierBind(t.tree, t.own, CPU) == map[];
    EvictLedger(CpuBooks(s), CpuBooks(t), g', f');
    EvictRange(GpuBooks(s), GpuBooks(t), g, f);
    if GpuApart(s) {
      EvictLedger(GpuBooks(s), GpuBooks(t), g, f);
    }
  }
}
