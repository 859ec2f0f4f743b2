/** What the CPU tier can take (hicache.py:318-382): its free pages and those `_evict_cpu_lru` can
    reclaim, which are the pages of the nodes with nothing locked and nothing of the GPU tier at or
    below them. */
module TierRoom {
  import opened Paging
  import opened TreeModel
  import opened TreeOps
  import opened TreeLocks
  import opened TreeCount
  import opened TreeEvict
  import opened PageLedger
  import opened Tiers
  import opened Wrappers

  /** `m` is not one of those at or below `n` that hold it up. */
  ghost predicate SunkAt(T: Tree, refs: Refs, n: RadixNode, m: RadixNode)
    requires n in T && m in T
  {
    T[n].path <= T[m].path ==> m in refs && refs[m] == 0 && T[m].tier == CPU
  }

  /** Everything at and below the node is on the CPU and unlocked. */
  ghost predicate Sunk(T: Tree, refs: Refs, n: RadixNode) {
    n in T && forall m {:trigger SunkAt(T, refs, n, m)} :: m in T ==> SunkAt(T, refs, n, m)
  }

  /** The prefixes whose CPU pages can be reclaimed. */
  ghost function Reclaimable(s: Two): set<Path> {
    set p | p in s.own && Sunk(s.tree, s.refs, s.own[p])
  }

  /** The CPU pages a demotion can get at. */
  ghost function Room(s: Two): nat {
    |s.cpuFree| + |Reclaimable(s)|
  }

  // ---- dropping CPU leaves reaches exactly these ----

  lemma LeafAlone(T: Tree, own: Owners, root: RadixNode, P: nat, v: RadixNode, m: RadixNode)
    requires WF(T, own, root, P) && v in T && T[v].children == map[] && m in T && T[v].path <= T[m].path
    ensures m == v
  {
    if m != v {
      ChildToward(T, own, root, P, v, m);
    }
  }

  /** Dropping an unlocked CPU leaf takes exactly its pages from the reclaimable ones. */
  lemma DropReclaimable(s: Two, root: RadixNode, P: nat, v: RadixNode)
    requires WF(s.tree, s.own, root, P) && UnlockedLeaf(s.tree, s.refs, root, v) && s.tree[v].tier == CPU
    requires EdgeOK(s.tree, v, P)
    ensures |Reclaimable(Dropped(s, v, P))| == |Reclaimable(s)| - |s.tree[v].pages|
  {
    var t, e := Dropped(s, v, P), Edge(s.tree[v]);
    LeafSunk(s, root, P, v);
    forall p {:trigger p in e} ensures p in e <==> p in s.own && s.own[p] == v {
      EdgeOwned(s.tree, s.own, root, P, v, p);
    }
    assert e <= Reclaimable(s);
    forall p {:trigger p in s.own} | p in s.own && s.own[p] != v
      ensures p in Reclaimable(t) <==> p in Reclaimable(s)
    {
      DropSunk(s, P, v, s.own[p]);
    }
    assert Reclaimable(t) == Reclaimable(s) - e;
    EdgeSize(s.tree[v]);
    RemoveSize(Reclaimable(s), e);
  }

  lemma LeafSunk(s: Two, root: RadixNode, P: nat, v: RadixNode)
    requires WF(s.tree, s.own, root, P) && UnlockedLeaf(s.tree, s.refs, root, v) && s.tree[v].tier == CPU
    ensures Sunk(s.tree, s.refs, v)
  {
    forall m {:trigger SunkAt(s.tree, s.refs, v, m)} | m in s.tree ensures SunkAt(s.tree, s.refs, v, m) {
      if s.tree[v].path <= s.tree[m].path {
        LeafAlone(s.tree, s.own, root, P, v, m);
      }
    }
  }

  lemma DropSunk(s: Two, P: nat, v: RadixNode, n: RadixNode)
    requires v in s.tree && v in s.refs && s.refs[v] == 0 && s.tree[v].tier == CPU && EdgeOK(s.tree, v, P) && n != v
    ensures var t := Dropped(s, v, P); Sunk(t.tree, t.refs, n) <==> Sunk(s.tree, s.refs, n)
  {
    var t := Dropped(s, v, P);
    if Sunk(t.tree, t.refs, n) {
      forall m {:trigger SunkAt(s.tree, s.refs, n, m)} | m in s.tree ensures SunkAt(s.tree, s.refs, n, m) {
        assert m != v ==> SunkAt(t.tree, t.refs, n, m);
      }
    }
    if Sunk(s.tree, s.refs, n) {
      forall m {:trigger SunkAt(t.tree, t.refs, n, m)} | m in t.tree ensures SunkAt(t.tree, t.refs, n, m) {
        assert SunkAt(s.tree, s.refs, n, m);
      }
    }
  }

  /** Below a sunk node there is a leaf to drop. */
  lemma {:induction false} SunkLeaf(s: Two, root: RadixNode, P: nat, n: RadixNode) returns (v: RadixNode)
    requires WF(s.tree, s.own, root, P) && n != root && Sunk(s.tree, s.refs, n)
    ensures UnlockedLeaf(s.tree, s.refs, root, v) && s.tree[v].tier == CPU
    decreases Sub(s.tree, n)
  {
    assert SunkAt(s.tree, s.refs, n, n);
    if s.tree[n].children == map[] {
      v := n;
    } else {
      var b :| b in s.tree[n].children;
      var c := s.tree[n].children[b];
      assert ChildOK(s.tree, n, b);
      OwnPath(s.tree, s.own, root, P, root);
      assert EdgeOK(s.tree, c, P) && s.tree[n].path < s.tree[c].path;
      assert Sub(s.tree, c) < Sub(s.tree, n) by {
        assert n in Sub(s.tree, n) && n !in Sub(s.tree, c);
      }
      forall m {:trigger SunkAt(s.tree, s.refs, c, m)} | m in s.tree ensures SunkAt(s.tree, s.refs, c, m) {
        assert SunkAt(s.tree, s.refs, n, m);
      }
      v := SunkLeaf(s, root, P, c);
    }
  }

  /** When no CPU leaf is left to drop, nothing reclaimable is. */
  lemma NoLeafNoRoom(s: Two, root: RadixNode, P: nat)
    requires WF(s.tree, s.own, root, P)
    requires forall v {:trigger UnlockedLeaf(s.tree, s.refs, root, v)} ::
      v in s.tree && UnlockedLeaf(s.tree, s.refs, root, v) ==> s.tree[v].tier != CPU
    ensures Reclaimable(s) == {}
  {
    forall p {:trigger p in s.own} | p in s.own ensures p !in Reclaimable(s) {
      assert OwnerOK(s.tree, s.own, p);
      OwnPath(s.tree, s.own, root, P, s.own[p]);
      if Sunk(s.tree, s.refs, s.own[p]) {
        var v := SunkLeaf(s, root, P, s.own[p]);
      }
    }
  }

  // ---- the same, counted from what cannot be reclaimed ----

  /** `m`, on the GPU or locked, holds up the node `n` at or above it; `G` are the nodes on the GPU. */
  ghost predicate HoldsUp(s: Two, G: set<RadixNode>, n: RadixNode, m: RadixNode) {
    && n in s.tree && m in s.tree && s.tree[n].path <= s.tree[m].path
    && (m in G || (m in s.refs && s.refs[m] > 0))
  }

  ghost predicate Standing(s: Two, G: set<RadixNode>, n: RadixNode) {
    exists m {:trigger HoldsUp(s, G, n, m)} :: m in s.tree && HoldsUp(s, G, n, m)
  }

  /** Something strictly below holds the node up. */
  ghost predicate HeldBelow(s: Two, G: set<RadixNode>, n: RadixNode) {
    exists m {:trigger HoldsUp(s, G, n, m)} :: m in s.tree && m != n && HoldsUp(s, G, n, m)
  }

  /** The prefixes whose CPU pages cannot be reclaimed while the nodes of `G` are on the GPU. */
  ghost function CpuStanding(s: Two, G: set<RadixNode>): set<Path> {
    set p | p in s.own && s.own[p] !in G && Standing(s, G, s.own[p])
  }

  /** The CPU pages a demotion can get at while the nodes of `G` are on the GPU. */
  ghost function Capacity(s: Two, G: set<RadixNode>): int {
    |s.kv.cpu| - |CpuStanding(s, G)|
  }

  ghost function GpuNodes(s: Two): set<RadixNode> {
    set n | n in s.tree && s.tree[n].tier == GPU
  }

  /** Every page of a pool is free or in the tree, so these are as many as the pages. */
  lemma LedgerSize(b: Books)
    requires Ledger(b) && b.priv == map[]
    ensures |b.free| + |b.tree| == b.n
  {
    hide Ledger;
    var F, V := (set x | x in b.free), b.tree.Values;
    ApartSizes(b);
    BelowSize(b.n);
    forall x: int ensures x in F ==> x !in V && x in Below(b.n)
      ensures x in V ==> x in Below(b.n)
      ensures x in Below(b.n) ==> x in F || x in V
    {
      LedgerPoint(b, x);
    }
    SplitCard(Below(b.n), F, V);
  }

  lemma ApartSizes(b: Books)
    requires Ledger(b)
    ensures |set x | x in b.free| == |b.free| && |b.tree.Values| == |b.tree|
  {
    forall i, j {:trigger b.free[i], b.free[j]} | 0 <= i < j < |b.free| ensures b.free[i] != b.free[j] {
      assert Holds(b, InFree(i), b.free[i]) && Holds(b, InFree(j), b.free[j]);
    }
    ListSize(b.free);
    forall p, q {:trigger b.tree[p], b.tree[q]} | p in b.tree && q in b.tree && p != q ensures b.tree[p] != b.tree[q] {
      assert Holds(b, InTree(p), b.tree[p]) && Holds(b, InTree(q), b.tree[q]);
    }
    ValuesSize(b.tree);
  }

  lemma LedgerPoint(b: Books, x: int)
    requires Ledger(b) && b.priv == map[]
    ensures x in b.free ==> x !in b.tree.Values
    ensures 0 <= x < b.n <==> x in b.free || x in b.tree.Values
  {
    if x in b.free {
      var i :| 0 <= i < |b.free| && b.free[i] == x;
      assert Holds(b, InFree(i), x) && InPool(b, x);
    }
    if x in b.tree.Values {
      var p :| p in b.tree && b.tree[p] == x;
      assert Holds(b, InTree(p), x) && InPool(b, x);
    }
    if 0 <= x < b.n {
      assert InPool(b, x);
      var l :| Holds(b, l, x);
    }
  }

  lemma {:induction false} ValuesSize(m: map<Path, int>)
    requires forall p, q {:trigger m[p], m[q]} :: p in m && q in m && p != q ==> m[p] != m[q]
    ensures |m.Values| == |m|
    decreases m.Keys
  {
    if m != map[] {
      var p :| p in m;
      var r := m - {p};
      ValuesSize(r);
      assert m.Values == r.Values + {m[p]};
      assert m.Keys == r.Keys + {p};
    }
  }

  /** So the room is the pool less the standing CPU pages. */
  lemma RoomIs(s: Two, root: RadixNode, P: nat, locks: Locks, pin: RadixNode?)
    requires Sound(s, root, P, locks, pin)
    ensures Room(s) == Capacity(s, GpuNodes(s))
  {
    var B, G := CpuBooks(s).tree, GpuNodes(s);
    LedgerSize(CpuBooks(s));
    forall p {:trigger p in B} ensures p in B <==> p in Reclaimable(s) || p in CpuStanding(s, G)
      ensures p in Reclaimable(s) ==> p !in CpuStanding(s, G)
    {
      RoomPoint(s, root, P, locks, pin, p);
    }
    SplitCard(B.Keys, Reclaimable(s), CpuStanding(s, G));
  }

  lemma SplitCard<X>(a: set<X>, b: set<X>, c: set<X>)
    requires a == b + c && b !! c
    ensures |a| == |b| + |c|
  {}

  lemma RoomPoint(s: Two, root: RadixNode, P: nat, locks: Locks, pin: RadixNode?, p: Path)
    requires WF(s.tree, s.own, root, P) && Counted(s.tree, root, s.refs, locks, pin)
    ensures p in CpuBooks(s).tree <==> p in Reclaimable(s) || p in CpuStanding(s, GpuNodes(s))
    ensures p in Reclaimable(s) ==> p !in CpuStanding(s, GpuNodes(s))
  {
    TierPoint(s.tree, s.own, CPU, p);
    if p in s.own {
      assert OwnerOK(s.tree, s.own, p);
      NotStanding(s, root, locks, pin, s.own[p]);
      if Sunk(s.tree, s.refs, s.own[p]) {
        assert SunkAt(s.tree, s.refs, s.own[p], s.own[p]);
      }
    }
  }

  lemma NotStanding(s: Two, root: RadixNode, locks: Locks, pin: RadixNode?, n: RadixNode)
    requires Counted(s.tree, root, s.refs, locks, pin) && n in s.tree
    ensures Sunk(s.tree, s.refs, n) <==> !Standing(s, GpuNodes(s), n)
  {
    var G := GpuNodes(s);
    if Sunk(s.tree, s.refs, n) {
      forall m {:trigger HoldsUp(s, G, n, m)} | m in s.tree ensures !HoldsUp(s, G, n, m) {
        assert SunkAt(s.tree, s.refs, n, m);
      }
    }
    if !Standing(s, G, n) {
      forall m {:trigger SunkAt(s.tree, s.refs, n, m)} | m in s.tree ensures SunkAt(s.tree, s.refs, n, m) {
        assert !HoldsUp(s, G, n, m);
        assert m != root ==> RefOK(s.tree, s.refs, locks, pin, m);
      }
    }
  }
}
