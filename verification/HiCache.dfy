/** The two-tier radix cache (hicache.py).

    `HiRadixCache` extends `RadixCache`; here it holds one and adds the tier.  It is the cache
    attached to its pool, so `Allocate` below is the pool's `allocate` with the tiered eviction
    in place of the plain one. */
module TieredCache {
  import opened Paging
  import opened TreeModel
  import opened TreeOps
  import opened TreeLocks
  import opened TreeWalk
  import opened TreeInsert
  import opened TreeEvict
  import opened CacheRuns
  import opened PrefixCache
  import opened PageLedger
  import opened KvData
  import opened Tiers
  import opened TierRoom
  import opened TierSweep
  import opened TierWalk
  import opened TierLookup
  import opened TierFits
  import opened TierShort
  import opened TierRun
  import opened TreeCount
  import opened Wrappers

  /** The pages of a node exist in the tier it is in. */
  lemma NodePagesExist(s: Two, root: RadixNode, P: nat, locks: Locks, pin: RadixNode?, n: RadixNode)
    requires Sound(s, root, P, locks, pin) && n in s.tree && n != root
    ensures forall j {:trigger s.tree[n].pages[j]} :: 0 <= j < |s.tree[n].pages| ==>
      0 <= s.tree[n].pages[j] < |Of(s.kv, s.tree[n].tier)|
  {
    assert EdgeOK(s.tree, n, P);
    var g, t := EdgeSeq(s.tree[n]), s.tree[n].tier;
    EdgeSeqIs(s.tree, s.own, root, P, n);
    forall j {:trigger s.tree[n].pages[j]} | 0 <= j < |s.tree[n].pages|
      ensures 0 <= s.tree[n].pages[j] < |Of(s.kv, t)|
    {
      TierPoint(s.tree, s.own, t, g[j]);
      var b := if t == GPU then GpuBooks(s) else CpuBooks(s);
      assert Holds(b, InTree(g[j]), s.tree[n].pages[j]);
      assert InPool(b, s.tree[n].pages[j]);
    }
  }

  lemma PoppedExist(b: Books, n: nat)
    requires InRange(b) && n <= |b.free|
    ensures forall j {:trigger Popped(b.free, n)[j]} :: 0 <= j < n ==> 0 <= Popped(b.free, n)[j] < b.n
  {
    forall j {:trigger Popped(b.free, n)[j]} | 0 <= j < n ensures 0 <= Popped(b.free, n)[j] < b.n {
      assert Holds(b, InFree(|b.free| - 1 - j), Popped(b.free, n)[j]);
      assert InPool(b, Popped(b.free, n)[j]);
    }
  }

  lemma EmptySound(s: Two, root: RadixNode, P: nat)
    requires WF(s.tree, s.own, root, P) && Counted(s.tree, root, s.refs, map[], null) && Bind(s.tree, s.own) == map[]
    requires s.cpuFree == seq(|s.kv.cpu|, i => i)
    requires forall i {:trigger s.gpuFree[i]} :: 0 <= i < |s.gpuFree| ==> 0 <= s.gpuFree[i] < |s.kv.gpu|
    ensures Sound(s, root, P, map[], null) && |s.own| == 0
  {
    BindAt(s.tree, s.own);
    assert s.own.Keys == {};
    assert TierBind(s.tree, s.own, CPU) == map[];
    assert TierBind(s.tree, s.own, GPU) == map[];
    FreshLedger(|s.kv.cpu|);
    assert CpuBooks(s) == Books(|s.kv.cpu|, seq(|s.kv.cpu|, i => i), map[], map[]);
  }

  lemma InsertNothing(T: Tree, own: Owners)
    ensures Insert(Bind(T, own), [], []) == Bind(T, own)
  {}

  /** Locking and unlocking touch the counts only. */
  lemma SoundRelocked(s: Two, t: Two, root: RadixNode, P: nat, locks: Locks, locks': Locks, pin: RadixNode?)
    requires Sound(s, root, P, locks, pin) && t == s.(refs := t.refs) && Counted(t.tree, root, t.refs, locks', pin)
    ensures Sound(t, root, P, locks', pin)
  {
    assert CpuBooks(t) == CpuBooks(s) && GpuBooks(t) == GpuBooks(s);
  }

  class CPUKVPool {
    const numPages: nat
    const kv: array<PageData>
    var free: seq<int>

    constructor (numPages: nat, pageSize: nat)
      ensures this.numPages == numPages && free == seq(numPages, i => i)
      ensures fresh(kv) && kv[..] == seq(numPages, _ => ZeroPage(pageSize))
    {
      this.numPages := numPages;
      free := seq(numPages, i => i);
      kv := new PageData[numPages](_ => ZeroPage(pageSize));
    }

    /** `allocate`: all or nothing, and an empty list when it is nothing. */
    method Allocate(n: nat) returns (pages: seq<int>)
      modifies this`free
      ensures if n == 0 || n > old(|free|) then pages == [] && free == old(free)
              else pages == Popped(old(free), n) && free == old(free)[..old(|free|) - n]
    {
      if n == 0 {
        return [];
      }
      if n > |free| {
        return [];
      }
      pages := [];
      while |pages| < n
        invariant |pages| <= n && pages == Popped(old(free), |pages|)
        invariant free == old(free)[..old(|free|) - |pages|]
        decreases n - |pages|
      {
        pages := pages + [free[|free| - 1]];
        free := free[..|free| - 1];
      }
    }

    /** `free` */
    method Free(pages: seq<int>)
      modifies this`free
      ensures free == old(free) + pages
    {
      free := free + pages;
    }
  }

  /** `_copy_kv`, page by page: later copies win where a target page is repeated. */
  method CopyPages(src: array<PageData>, dst: array<PageData>, from: seq<int>, to: seq<int>)
    requires src != dst && |from| == |to|
    requires forall j {:trigger from[j]} :: 0 <= j < |from| ==> 0 <= from[j] < src.Length
    requires forall j {:trigger to[j]} :: 0 <= j < |to| ==> 0 <= to[j] < dst.Length
    modifies dst
    ensures Copied(src[..], old(dst[..]), dst[..], from, to)
  {
    var i := 0;
    while i < |to|
      invariant 0 <= i <= |to|
      invariant forall x {:trigger dst[x]} :: 0 <= x < dst.Length && x !in to ==> dst[x] == old(dst[..])[x]
      invariant NoDup(to) ==> forall j {:trigger to[j]} :: 0 <= j < i ==> dst[to[j]] == src[from[j]]
    {
      dst[to[i]] := src[from[i]];
      i := i + 1;
    }
  }

  /** How one round of the walk of `match_prefix` ends. */
  datatype Progress =
    | Raised
    | Found(r: MatchResult)
    | Crossed(node: RadixNode, idx: nat, pages: seq<int>)

  /** The pages collected so far. */
  function Collected(p: Progress): seq<int> {
    match p
    case Raised => []
    case Found(r) => r.matchedPages
    case Crossed(node, idx, pages) => pages
  }

  /** A lookup that found the cache as `e` says is in `t`. */
  ghost predicate OnTrack(e: Entry, t: Two, locks: Locks, q: Path, p: Progress) {
    if p.Raised? then !NeverRaises(e, locks, q) else Tracked(e, t, locks, q, Collected(p))
  }

  lemma LookupEnds(e: Entry, t: Two, root: RadixNode, P: nat, locks: Locks, q: Path, r: Option<MatchResult>)
    requires Sound(t, root, P, locks, null) && (NeverRaises(e, locks, q) ==> r.Some?)
    requires r.Some? ==> TierMatchOK(r.value, q, t.tree, t.own, root, P)
    requires r.Some? ==> Tracked(e, t, locks, q, r.value.matchedPages)
    ensures r.Some? ==> Looked(e.cache, t, locks, q, r.value.matchedPages)
    ensures InPlace(e.cache, q) || Roomy(e.cache, locks, q) ==> r.Some?
    ensures RoomBelow(e.cache) && AllOlder(e.was, e.now) ==>
      ((r.Some? && Current(GpuBooks(t).tree, q, r.value.matchedPages))
       <==> |WayPages(e.cache, q)| <= Supply(e.cache))
  {
    if r.Some? && RoomBelow(e.cache) && AllOlder(e.was, e.now) {
      CurrentFits(e.cache, t, root, P, locks, e.was, e.now, q, r.value);
    }
  }

  class HiRadixCache {
    const base: RadixCache
    const pool: KVMemoryPool
    const cpuPool: CPUKVPool

    /** An empty tiered cache with a CPU budget of `cpuPages` pages. */
    constructor (pool: KVMemoryPool, cpuPages: nat, now: int)
      requires pool.pageSize >= 1 && forall i {:trigger pool.free[i]} :: 0 <= i < |pool.free| ==>
        0 <= pool.free[i] < pool.kv.Length
      ensures Valid() && this.pool == pool && fresh(base) && fresh(cpuPool)
      ensures base.Bindings() == map[] && base.locks == map[] && base.pin == null && cpuPool.numPages == cpuPages
    {
      this.pool := pool;
      base := new RadixCache(pool, now);
      cpuPool := new CPUKVPool(cpuPages, pool.pageSize);
      new;
      EmptySound(Now(), base.root, base.pageSize);
    }

    ghost function Now(): Two
      reads base`tree, base`own, base`refs, pool`free, pool.kv, cpuPool`free, cpuPool.kv
    {
      Two(base.tree, base.own, base.refs, pool.free, cpuPool.free, Storage(pool.kv[..], cpuPool.kv[..]))
    }

    ghost predicate Linked()
      reads base, base.tree.Keys`parent, base.tree.Keys`children, base.tree.Keys`key
      reads base.tree.Keys`pages, base.tree.Keys`tier, base.tree.Keys`path, base.tree.Keys`refCount
    {
      && base.pool == pool && pool.kv != cpuPool.kv && base.pageSize == pool.pageSize >= 1
      && base.Synced() && base.cachedPageCount == |base.own|
    }

    ghost predicate SoundNow()
      reads base, pool`free, pool.kv, cpuPool`free, cpuPool.kv
    {
      Sound(Now(), base.root, base.pageSize, base.locks, base.pin)
    }

    /** In particular the CPU free list and the CPU pages in the tree partition the CPU pool,
        and `_cached_page_count` is the number of pages in the tree over both tiers. */
    ghost predicate Valid()
      reads base, base.tree.Keys`parent, base.tree.Keys`children, base.tree.Keys`key
      reads base.tree.Keys`pages, base.tree.Keys`tier, base.tree.Keys`path, base.tree.Keys`refCount
      reads pool`free, pool.kv, cpuPool`free, cpuPool.kv
    {
      Linked() && SoundNow()
    }

    // ---- reclaiming CPU pages ----

    /** `_collect_evictable_leaves_for_tier`, below `node`. */
    method CollectLeaves(node: RadixNode, tier: Tier) returns (leaves: set<RadixNode>)
      requires Valid() && node in base.tree
      ensures leaves == LeavesIn(base.tree, base.refs, base.root, tier) * Sub(base.tree, node)
      decreases Sub(base.tree, node)
    {
      ghost var T, O, root, P := base.tree, base.own, base.root, base.pageSize;
      assert base.InSync(node);
      if node != base.root { assert EdgeOK(T, node, P); }
      leaves := if node != base.root && node.children == map[] && node.refCount == 0 && node.pages != []
        && node.tier == tier
        then {node} else {};
      var keys := node.children.Keys;
      HangingAll(T, O, root, P, node);
      while keys != {}
        invariant keys <= T[node].children.Keys
        invariant leaves == LeavesIn(T, base.refs, root, tier) * (Sub(T, node) - Hanging(T, node, keys))
        decreases keys
      {
        var b :| b in keys;
        HangingStep(T, O, root, P, node, keys, b);
        var more := CollectLeaves(node.children[b], tier);
        leaves := leaves + more;
        keys := keys - {b};
      }
    }

    /** Drops a CPU leaf: its pages go back to the CPU pool and its parent forgets it. */
    method DropCpuLeaf(node: RadixNode) returns (parent: RadixNode)
      requires Linked() && node in base.tree && EdgeOK(base.tree, node, base.pageSize) && base.tree[node].tier == CPU
      requires base.tree[node].parent != node
        && |DropOwn(base.tree, base.own, node)| == |base.own| - |base.tree[node].pages|
      modifies base`tree, base`refs, base`own, base`cachedPageCount, base.tree.Keys`children, cpuPool`free
      ensures Linked() && Now() == Dropped(old(Now()), node, base.pageSize) && parent == old(base.tree)[node].parent
    {
      assert base.InSync(node);
      cpuPool.Free(node.pages);
      parent := base.Detach(node);
    }

    /** One round of `_evict_cpu_lru` for the entry `node`. */
    method EvictCpuNode(node: RadixNode, heap: set<RadixNode>) returns (heap': set<RadixNode>, n: nat)
      requires Valid() && node in heap && heap == LeavesIn(base.tree, base.refs, base.root, CPU)
      modifies base`tree, base`refs, base`own, base`cachedPageCount, base.tree.Keys`children, cpuPool`free
      ensures Valid() && CpuSwept(old(Now()), Now()) && base.tree.Keys == old(base.tree.Keys) - {node}
      ensures heap' == LeavesIn(base.tree, base.refs, base.root, CPU)
      ensures base.State() == Drop(old(base.State()), node, base.pageSize)
      ensures cpuPool.free == old(cpuPool.free) + old(base.tree)[node].pages && n == |old(base.tree)[node].pages|
    {
      hide RadixCache.Valid, CpuSwept, DropOwn, EvictableIn;
      ghost var s, root, P := Now(), base.root, base.pageSize;
      CpuSweptDrop(s, root, P, base.locks, base.pin, node);
      DropSound(s, root, P, base.locks, base.pin, node);
      DropLeavesIn(s, root, P, node, CPU);
      assert base.InSync(node);
      n := |node.pages|;
      var parent := DropCpuLeaf(node);
      heap' := heap - {node};
      assert base.InSync(parent);
      assert parent != root ==> EdgeOK(base.tree, parent, P);
      if parent != base.root && parent.children == map[] && parent.refCount == 0 && parent.pages != []
        && parent.tier == CPU
      {
        heap' := heap' + {parent};
      }
    }

    /** One round: the oldest leaf goes. */
    method EvictCpuRound(heap: set<RadixNode>, ghost s0: Snap, ghost ages: Ages, ghost vs: seq<RadixNode>,
                         ghost pages: seq<int>, ghost need: int)
      returns (heap': set<RadixNode>, n: nat, ghost node: RadixNode)
      requires Valid() && heap != {} && heap == LeavesIn(base.tree, base.refs, base.root, CPU) && |pages| < need
      requires AgesHold(base.tree.Keys, ages)
      requires CpuRun(s0, base.root, base.pageSize, ages, vs, base.State(), pages, need)
      modifies base`tree, base`refs, base`own, base`cachedPageCount, base.tree.Keys`children, cpuPool`free
      ensures Valid() && CpuSwept(old(Now()), Now()) && base.tree.Keys < old(base.tree.Keys)
      ensures heap' == LeavesIn(base.tree, base.refs, base.root, CPU) && node in old(base.tree)
      ensures n == |old(base.tree)[node].pages| && cpuPool.free == old(cpuPool.free) + old(base.tree)[node].pages
      ensures CpuRun(s0, base.root, base.pageSize, ages, vs + [node], base.State(),
                     pages + old(base.tree)[node].pages, need)
    {
      var oldest := base.PopOldest(heap);
      node := oldest;
      CpuRunStep(s0, base.root, base.pageSize, ages, vs, base.State(), pages, need, node);
      heap', n := EvictCpuNode(oldest, heap);
    }

    /** The loop of `_evict_cpu_lru`. */
    method EvictCpuLoop(first: set<RadixNode>, need: int, ghost s0: Snap, ghost ages: Ages)
      returns (freed: int, ghost vs: seq<RadixNode>, ghost pages: seq<int>)
      requires Valid() && first == LeavesIn(base.tree, base.refs, base.root, CPU) && need > 0
      requires s0 == base.State() && AgesHold(base.tree.Keys, ages)
      modifies base`tree, base`refs, base`own, base`cachedPageCount, base.tree.Keys`children, cpuPool`free
      ensures Valid() && CpuSwept(old(Now()), Now()) && freed == |pages|
      ensures cpuPool.free == old(cpuPool.free) + pages
      ensures CpuRun(s0, base.root, base.pageSize, ages, vs, base.State(), pages, need)
      ensures freed >= need || LeavesIn(base.tree, base.refs, base.root, CPU) == {}
    {
      hide Linked, SoundNow, CpuSwept, CpuRun, RadixCache.Valid, LeavesIn;
      var heap := first;
      freed, vs, pages := 0, [], [];
      CpuSweptSelf(Now());
      CpuRunStart(s0, base.root, base.pageSize, ages, need);
      while freed < need && heap != {}
        invariant Valid() && heap == LeavesIn(base.tree, base.refs, base.root, CPU)
        invariant CpuSwept(old(Now()), Now()) && freed == |pages| && AgesHold(base.tree.Keys, ages)
        invariant base.tree.Keys <= old(base.tree.Keys) && cpuPool.free == old(cpuPool.free) + pages
        invariant CpuRun(s0, base.root, base.pageSize, ages, vs, base.State(), pages, need)
        decreases base.tree.Keys
      {
        ghost var s := Now();
        var n;
        ghost var v;
        heap, n, v := EvictCpuRound(heap, s0, ages, vs, pages, need);
        CpuSweptTrans(old(Now()), s, Now());
        freed, vs, pages := freed + n, vs + [v], pages + s.tree[v].pages;
      }
    }

    /** `_evict_cpu_lru`: drops least recently used unlocked CPU leaves, parents becoming leaves in
        turn, until enough is freed or none is left. */
    method EvictCpuLru(need: int) returns (freed: int, ghost vs: seq<RadixNode>, ghost pages: seq<int>)
      requires Valid()
      modifies base`tree, base`refs, base`own, base`cachedPageCount, base.tree.Keys`children, cpuPool`free
      ensures Valid() && CpuSwept(old(Now()), Now()) && freed == |pages|
      ensures cpuPool.free == old(cpuPool.free) + pages
      ensures CpuRun(old(base.State()), base.root, base.pageSize, old(base.AgesNow()), vs, base.State(), pages, need)
      ensures freed >= need || Reclaimable(Now()) == {}
    {
      hide CpuSwept, CpuRun;
      freed, vs, pages := 0, [], [];
      CpuSweptSelf(Now());
      CpuRunStart(base.State(), base.root, base.pageSize, base.AgesNow(), need);
      if need > 0 {
        var heap := CollectLeaves(base.root, CPU);
        RootReaches(base.tree, base.own, base.root, base.pageSize);
        freed, vs, pages := EvictCpuLoop(heap, need, base.State(), base.AgesNow());
        NoCpuLeaf(Now(), base.root, base.pageSize);
      }
    }

    // ---- demotion ----

    /** Both attempts of `_demote_node` to get `n` CPU pages; `u` is the cache before the pop. */
    method AllocateCpu(n: nat) returns (got: seq<int>, ghost u: Two)
      requires Valid() && n > 0
      modifies base`tree, base`refs, base`own, base`cachedPageCount, base.tree.Keys`children, cpuPool`free
      ensures Linked() && Sound(u, base.root, base.pageSize, base.locks, base.pin) && CpuSwept(old(Now()), u)
      ensures n <= old(|cpuPool.free|) ==> u == old(Now()) && got != []
      ensures got == [] ==> Now() == u && n > |u.cpuFree| && Reclaimable(u) == {}
      ensures got != [] ==> n <= |u.cpuFree| && got == Popped(u.cpuFree, n)
      ensures got != [] ==> Now() == u.(cpuFree := u.cpuFree[..|u.cpuFree| - n])
    {
      hide RadixCache.Valid, Linked, CpuSwept, Sound, RadixCache.State;
      u := Now();
      CpuSweptSelf(u);
      got := cpuPool.Allocate(n);
      if got == [] {
        var freed;
        ghost var vs, pages;
        freed, vs, pages := EvictCpuLru(n);
        u := Now();
        got := cpuPool.Allocate(n);
      }
    }

    /** The rest of `_demote_node`: copy, free the GPU pages, move. */
    method MoveDown(node: RadixNode, got: seq<int>, ghost u: Two)
      requires Linked() && Sound(u, base.root, base.pageSize, base.locks, base.pin)
      requires node in u.tree && node != base.root && node in u.refs && u.refs[node] == 0 && u.tree[node].tier == GPU
      requires |got| == |u.tree[node].pages| <= |u.cpuFree| && got == Popped(u.cpuFree, |got|)
      requires Now() == u.(cpuFree := u.cpuFree[..|u.cpuFree| - |got|])
      modifies base`tree, node`pages, node`tier, pool`free, cpuPool.kv
      ensures Linked() && CanDemote(u, base.root, node, got, Now().kv.cpu)
        && Now() == Demoted(u, node, got, Now().kv.cpu)
    {
      hide InRange;
      NodePagesExist(u, base.root, base.pageSize, base.locks, base.pin, node);
      PoppedExist(CpuBooks(u), |got|);
      assert base.InSync(node);
      var gpuPages := node.pages;
      CopyPages(pool.kv, cpuPool.kv, gpuPages, got);
      pool.Free(gpuPages);
      base.MovePages(node, got, CPU);
    }

    method DemoteGpuNode(node: RadixNode) returns (ok: bool)
      requires Valid() && node in UnlockedNodes(base.tree, base.refs, base.root, GPU)
      modifies base`tree, base`refs, base`own, base`cachedPageCount, base.tree.Keys`children, base.tree.Keys`pages
      modifies base.tree.Keys`tier, pool`free, cpuPool`free, cpuPool.kv
      ensures Valid() && DemoteResult(old(Now()), Now(), base.root, node, ok)
    {
      hide Preserves, CanDemote, Demoted;
      ghost var s := Now();
      assert EdgeOK(base.tree, node, base.pageSize);
      assert base.InSync(node);
      var got;
      ghost var u;
      got, u := AllocateCpu(|node.pages|);
      assert NodeStays(s, u, node);
      if got == [] {
        NotDemoted(s, base.root, base.pageSize, base.locks, base.pin, u, node);
        return false;
      }
      MoveDown(node, got, u);
      DemoteSound(u, base.root, base.pageSize, base.locks, base.pin, node, got, Now().kv.cpu);
      DemotedResult(s, base.root, base.pageSize, base.locks, base.pin, u, node, got, Now().kv.cpu);
      return true;
    }

    /** `_demote_node` */
    method DemoteNode(node: RadixNode) returns (ok: bool)
      requires Valid() && node in base.tree && node != base.root && node in base.refs && base.refs[node] == 0
      modifies base`tree, base`refs, base`own, base`cachedPageCount, base.tree.Keys`children, base.tree.Keys`pages
      modifies base.tree.Keys`tier, pool`free, cpuPool`free, cpuPool.kv
      ensures Valid()
      ensures if old(base.tree)[node].tier == CPU then !ok && Now() == old(Now())
              else DemoteResult(old(Now()), Now(), base.root, node, ok)
    {
      assert base.InSync(node);
      if node.tier == CPU {
        return false;
      }
      ok := DemoteGpuNode(node);
    }

    // ---- eviction ----

    /** `_collect_evictable_gpu_nodes`, below `node`: internal nodes included. */
    method CollectGpuNodes(node: RadixNode) returns (nodes: set<RadixNode>)
      requires Valid() && node in base.tree
      ensures nodes == UnlockedNodes(base.tree, base.refs, base.root, GPU) * Sub(base.tree, node)
      decreases Sub(base.tree, node)
    {
      ghost var T, O, root, P := base.tree, base.own, base.root, base.pageSize;
      assert base.InSync(node);
      if node != base.root { assert EdgeOK(T, node, P); }
      nodes := if node != base.root && node.refCount == 0 && node.pages != [] && node.tier == GPU then {node} else {};
      var keys := node.children.Keys;
      HangingAll(T, O, root, P, node);
      while keys != {}
        invariant keys <= T[node].children.Keys
        invariant nodes == UnlockedNodes(T, base.refs, root, GPU) * (Sub(T, node) - Hanging(T, node, keys))
        decreases keys
      {
        var b :| b in keys;
        HangingStep(T, O, root, P, node, keys, b);
        var more := CollectGpuNodes(node.children[b]);
        nodes := nodes + more;
        keys := keys - {b};
      }
    }

    /** Drops a GPU leaf: its pages go back to the GPU pool and its parent forgets it. */
    method DropGpuLeaf(node: RadixNode)
      requires Linked() && node in base.tree && EdgeOK(base.tree, node, base.pageSize) && base.tree[node].tier == GPU
      requires base.tree[node].parent != node
        && |DropOwn(base.tree, base.own, node)| == |base.own| - |base.tree[node].pages|
      modifies base`tree, base`refs, base`own, base`cachedPageCount, base.tree.Keys`children, pool`free
      ensures Linked() && Now() == Dropped(old(Now()), node, base.pageSize)
    {
      assert base.InSync(node);
      var parent := base.DropLeaf(node);
    }

    /** Dropping the GPU leaf `node` that could not be demoted; `t` is the cache before the round. */
    method DropInstead(node: RadixNode, ghost t: Two)
      requires Valid() && node in LeavesIn(base.tree, base.refs, base.root, GPU) && node in t.tree && node in t.refs
      requires DemoteResult(t, Now(), base.root, node, false) && !HeldBelow(t, GpuNodes(t), node)
      modifies base`tree, base`refs, base`own, base`cachedPageCount, base.tree.Keys`children, pool`free
      ensures Valid() && base.tree.Keys <= old(base.tree.Keys) && RoundDone(t, Now(), base.root, node)
      ensures |pool.free| == old(|pool.free|) + |old(base.tree)[node].pages|
    {
      hide DemoteResult, RoundDone;
      ghost var m := Now();
      DropSound(m, base.root, base.pageSize, base.locks, base.pin, node);
      DroppedRound(t, m, base.root, base.pageSize, base.locks, base.pin, node);
      DropLeavesIn(m, base.root, base.pageSize, node, GPU);
      DropGpuLeaf(node);
    }

    /** `node`, just popped, could not be demoted: only a leaf can be dropped entirely. */
    method DropOrSkip(node: RadixNode, ghost t: Two) returns (n: nat)
      requires Valid() && node in t.tree && node in t.refs && t.tree[node].tier == GPU
      requires Sound(t, base.root, base.pageSize, base.locks, base.pin)
      requires node in UnlockedNodes(base.tree, base.refs, base.root, GPU)
      requires DemoteResult(t, Now(), base.root, node, false)
      modifies base`tree, base`refs, base`own, base`cachedPageCount, base.tree.Keys`children, pool`free
      ensures Valid() && base.tree.Keys <= old(base.tree.Keys) && RoundDone(t, Now(), base.root, node)
      ensures |pool.free| == old(|pool.free|) + n
    {
      ChildrenLeft(t, Now(), base.root, base.pageSize, base.locks, base.pin, node);
      assert base.InSync(node);
      if node.children != map[] {
        PassedRound(t, Now(), base.root, node);
        return 0;
      }
      n := |node.pages|;
      DropInstead(node, t);
    }

    /** One round of the loop of `evict`: the oldest entry is demoted, skipped or dropped.  Nothing
        on the heap has been locked, moved or dropped since it was pushed, so the checks that skip
        stale entries never fire. */
    method EvictRound(heap: set<RadixNode>) returns (node: RadixNode, n: nat)
      requires Valid() && heap != {} && heap <= UnlockedNodes(base.tree, base.refs, base.root, GPU)
      modifies base`tree, base`refs, base`own, base`cachedPageCount, base.tree.Keys`children, base.tree.Keys`pages
      modifies base.tree.Keys`tier, pool`free, cpuPool`free, cpuPool.kv
      ensures Valid() && base.tree.Keys <= old(base.tree.Keys) && |pool.free| == old(|pool.free|) + n
      ensures node in heap && (forall m {:trigger m in heap} :: m in heap ==> node.lastAccess <= m.lastAccess)
      ensures RoundDone(old(Now()), Now(), base.root, node)
    {
      node := base.PopOldest(heap);
      n := SweepNode(node);
    }

    /** The round, for the entry popped. */
    method SweepNode(node: RadixNode) returns (n: nat)
      requires Valid() && node in UnlockedNodes(base.tree, base.refs, base.root, GPU)
      modifies base`tree, base`refs, base`own, base`cachedPageCount, base.tree.Keys`children, base.tree.Keys`pages
      modifies base.tree.Keys`tier, pool`free, cpuPool`free, cpuPool.kv
      ensures Valid() && base.tree.Keys <= old(base.tree.Keys) && |pool.free| == old(|pool.free|) + n
      ensures RoundDone(old(Now()), Now(), base.root, node)
    {
      ghost var t := Now();
      assert base.InSync(node);
      n := |node.pages|;
      var ok := DemoteNode(node);
      if ok {
        DemotedRound(t, Now(), base.root, node);
      } else {
        n := DropOrSkip(node, t);
      }
    }

    /** `evict`: demotes least recently used unlocked GPU nodes until the need is met, and no longer,
        and drops a leaf when the CPU tier cannot take it.  `run` are the caches between its rounds
        and `vs` the nodes they tried. */
    method Evict(need: int) returns (freed: int, ghost run: seq<Two>, ghost vs: seq<RadixNode>)
      requires Valid()
      modifies base`tree, base`refs, base`own, base`cachedPageCount, base.tree.Keys`children, base.tree.Keys`pages
      modifies base.tree.Keys`tier, pool`free, cpuPool`free, cpuPool.kv
      ensures Valid() && base.tree.Keys <= old(base.tree.Keys) && freed >= 0
      ensures SweepRun(run, base.root, base.pageSize, base.locks, base.pin, old(base.AgesNow()), vs, need)
      ensures run[0] == old(Now()) && run[|vs|] == Now() && freed == |pool.free| - old(|pool.free|)
      ensures freed >= need || Waiting(old(Now()), base.root, vs) == {}
      ensures vs != [] ==> |run[|vs| - 1].gpuFree| - old(|pool.free|) < need
      ensures SweepDone(old(Now()), Now(), freed, need)
      ensures AllPassed(old(Now()), Now(), base.root, old(base.AgesNow()), Waiting(old(Now()), base.root, vs))
      ensures Latest(old(UnlockedNodes(base.tree, base.refs, base.root, GPU)), Waiting(old(Now()), base.root, vs),
                     old(base.AgesNow()))
    {
      hide SweepRun, SweepDone, AllPassed, Latest, Linked;
      run, vs, freed := [Now()], [], 0;
      RunBegins(Now(), base.root, base.pageSize, base.locks, base.pin, base.AgesNow(), need);
      if need > 0 {
        var heap := CollectGpuNodes(base.root);
        RootReaches(base.tree, base.own, base.root, base.pageSize);
        freed, run, vs := Sweep(heap, need);
      }
      RunDone(run, base.root, base.pageSize, base.locks, base.pin, old(base.AgesNow()), vs, need);
    }

    ghost predicate AgesHold(heap: set<RadixNode>, ages: Ages)
      reads heap`lastAccess
    {
      forall m {:trigger m in heap} :: m in heap ==> m in ages && ages[m] == m.lastAccess
    }

    /** A round that continues the run. */
    method SweepRound(heap: set<RadixNode>, ghost run: seq<Two>, ghost vs: seq<RadixNode>, ghost ages: Ages,
                      ghost need: int)
      returns (node: RadixNode, n: nat)
      requires Valid() && heap != {} && AgesHold(heap, ages)
      requires SweepRun(run, base.root, base.pageSize, base.locks, base.pin, ages, vs, need)
      requires run[|vs|] == Now() && heap == Waiting(run[0], base.root, vs) && |pool.free| - |run[0].gpuFree| < need
      modifies base`tree, base`refs, base`own, base`cachedPageCount, base.tree.Keys`children, base.tree.Keys`pages
      modifies base.tree.Keys`tier, pool`free, cpuPool`free, cpuPool.kv
      ensures Valid() && base.tree.Keys <= old(base.tree.Keys) && node in heap && AgesHold(heap - {node}, ages)
      ensures |pool.free| == old(|pool.free|) + n && heap - {node} == Waiting(run[0], base.root, vs + [node])
      ensures SweepRun(run + [Now()], base.root, base.pageSize, base.locks, base.pin, ages, vs + [node], need)
    {
      hide RoundDone, SweepRun, Linked, Sound, Waiting;
      RunWaits(run, base.root, base.pageSize, base.locks, base.pin, ages, vs, need);
      node, n := EvictRound(heap);
      RunMore(run, Now(), base.root, base.pageSize, base.locks, base.pin, ages, vs, need, node);
    }

    /** The loop of `evict`. */
    method Sweep(first: set<RadixNode>, need: int)
      returns (freed: int, ghost run: seq<Two>, ghost vs: seq<RadixNode>)
      requires Valid() && first == UnlockedNodes(base.tree, base.refs, base.root, GPU)
      modifies base`tree, base`refs, base`own, base`cachedPageCount, base.tree.Keys`children, base.tree.Keys`pages
      modifies base.tree.Keys`tier, pool`free, cpuPool`free, cpuPool.kv
      ensures Valid() && base.tree.Keys <= old(base.tree.Keys) && freed >= 0
      ensures SweepRun(run, base.root, base.pageSize, base.locks, base.pin, old(base.AgesNow()), vs, need)
      ensures run[0] == old(Now()) && run[|vs|] == Now() && freed == |pool.free| - old(|pool.free|)
      ensures freed >= need || Waiting(old(Now()), base.root, vs) == {}
    {
      hide SweepRun, Waiting;
      ghost var ages := base.AgesNow();
      RunBegins(Now(), base.root, base.pageSize, base.locks, base.pin, ages, need);
      var heap := first;
      freed, run, vs := 0, [Now()], [];
      while freed < need && heap != {}
        invariant Valid() && base.tree.Keys <= old(base.tree.Keys) && AgesHold(heap, ages)
        invariant SweepRun(run, base.root, base.pageSize, base.locks, base.pin, ages, vs, need)
        invariant |run| == |vs| + 1 && run[0] == old(Now()) && run[|vs|] == Now()
        invariant heap == Waiting(run[0], base.root, vs) && freed == |pool.free| - old(|pool.free|) >= 0
        decreases heap
      {
        var node, n := SweepRound(heap, run, vs, ages, need);
        run, vs := run + [Now()], vs + [node];
        heap, freed := heap - {node}, freed + n;
      }
    }

    /** The eviction `allocate` asks for when the free list is short. */
    method EvictFor(n: nat)
      requires Valid() && n > |pool.free|
      modifies base`tree, base`refs, base`own, base`cachedPageCount, base.tree.Keys`children, base.tree.Keys`pages
      modifies base.tree.Keys`tier, pool`free, cpuPool`free, cpuPool.kv
      ensures Valid() && base.tree.Keys <= old(base.tree.Keys) && RoomMade(old(Now()), Now(), n)
      ensures Chosen(old(Now()), Now(), base.root, old(base.AgesNow()), n)
    {
      hide SweepDone, AllPassed, Latest, Chosen, RoomMade, RoundAt, Linked;
      ghost var s := Now();
      var freed;
      ghost var run, vs;
      freed, run, vs := Evict(n - |pool.free|);
      SweepRoom(s, Now(), freed, n);
      RunChosen(run, base.root, base.pageSize, base.locks, base.pin, old(base.AgesNow()), vs, n);
    }

    method MakeRoom(n: nat)
      requires Valid()
      modifies base`tree, base`refs, base`own, base`cachedPageCount, base.tree.Keys`children, base.tree.Keys`pages
      modifies base.tree.Keys`tier, pool`free, cpuPool`free, cpuPool.kv
      ensures Valid() && base.tree.Keys <= old(base.tree.Keys) && RoomMade(old(Now()), Now(), n)
      ensures Chosen(old(Now()), Now(), base.root, old(base.AgesNow()), n)
    {
      hide Chosen, RoomMade;
      if n > |pool.free| {
        EvictFor(n);
      } else {
        NoSweep(Now(), n);
        ChosenSelf(Now(), base.root, base.pageSize, base.locks, base.pin, base.AgesNow(), n);
      }
    }

    method PopPages(n: nat) returns (r: Option<seq<int>>)
      requires Valid()
      modifies pool`free
      ensures Valid() && PoppedOff(old(Now()), Now(), r, n)
    {
      if n > |pool.free| {
        return None;
      }
      PopSound(Now(), base.root, base.pageSize, base.locks, base.pin, n);
      var got := pool.Pop(n);
      r := Some(got);
    }

    /** The pool's `allocate` with this cache attached; `None` stands for its `RuntimeError`.
        `mid` is the cache when the pages are popped.  When the CPU tier has room for all that is
        evictable, it succeeds exactly when the free and the evictable pages cover the request,
        and no prefix is dropped. */
    method Allocate(n: nat) returns (r: Option<seq<int>>, ghost mid: Two)
      requires Valid()
      modifies base`tree, base`refs, base`own, base`cachedPageCount, base.tree.Keys`children, base.tree.Keys`pages
      modifies base.tree.Keys`tier, pool`free, cpuPool`free, cpuPool.kv
      ensures Valid() && base.tree.Keys <= old(base.tree.Keys)
      ensures RoomMade(old(Now()), mid, n) && Sound(mid, base.root, base.pageSize, base.locks, base.pin)
      ensures Chosen(old(Now()), mid, base.root, old(base.AgesNow()), n)
      ensures PoppedOff(mid, Now(), r, n)
    {
      MakeRoom(n);
      mid := Now();
      r := PopPages(n);
    }

    // ---- promotion ----

    /** Pins a node while pages are allocated for it. */
    method Pin(node: RadixNode)
      requires Valid() && base.pin == null && node in base.tree && node != base.root
      modifies base`refs, base`pin, node`refCount
      ensures Valid() && base.pin == node
      ensures node in old(base.refs) && old(base.refs)[node] >= 0 && Now() == Pinned(old(Now()), node, 1)
    {
      PinSound(Now(), base.root, base.pageSize, base.locks, node);
      base.AddCount(node, 1);
      base.pin := node;
    }

    /** Takes the pin off again. */
    method Unpin(node: RadixNode)
      requires Linked() && node in base.tree && base.pin == node
      modifies base`refs, base`pin, node`refCount
      ensures Linked() && base.pin == null && node in old(base.refs) && Now() == Pinned(old(Now()), node, -1)
    {
      base.AddCount(node, -1);
      base.pin := null;
    }

    /** The allocation of `_promote_node`, which nests eviction, demotion and CPU eviction. */
    method PinnedAllocate(node: RadixNode) returns (r: Option<seq<int>>, ghost m: Two)
      requires Valid() && base.pin == null && node in base.tree && node != base.root && base.tree[node].tier == CPU
      modifies base`tree, base`refs, base`own, base`cachedPageCount, base`pin, base.tree.Keys`children
      modifies base.tree.Keys`pages
      modifies base.tree.Keys`tier, base.tree.Keys`refCount, pool`free, cpuPool`free, cpuPool.kv
      ensures Linked() && base.pin == null && base.tree.Keys <= old(base.tree.Keys)
      ensures Sound(m, base.root, base.pageSize, base.locks, null)
      ensures AllocatedFor(old(Now()), m, base.root, old(base.AgesNow()), node)
      ensures PoppedOff(m, Now(), r, |old(base.tree)[node].pages|)
    {
      hide AllocatedFor, Chosen, RoomMade, Sound, RadixCache.AgesNow;
      ghost var s := Now();
      assert base.InSync(node);
      var n := |node.pages|;
      Pin(node);
      r, m := Allocate(n);
      Unpinned(s, m, base.root, base.pageSize, base.locks, node, old(base.AgesNow()));
      PoppedPinned(m, Now(), r, n, node, -1);
      Unpin(node);
      m := Pinned(m, node, -1);
    }

    /** The rest of `_promote_node`: copy, free the CPU pages, move. */
    method MoveUp(node: RadixNode, got: seq<int>, ghost m: Two)
      requires Linked() && Sound(m, base.root, base.pageSize, base.locks, null)
      requires node in m.tree && node != base.root && m.tree[node].tier == CPU
      requires |got| == |m.tree[node].pages| <= |m.gpuFree| && got == Popped(m.gpuFree, |got|)
        && Now() == AfterPop(m, |got|)
      modifies base`tree, node`pages, node`tier, cpuPool`free, pool.kv
      ensures Linked() && CanPromote(m, AfterPop(m, |got|), base.root, node, got, Now().kv.gpu)
      ensures Now() == Promoted(AfterPop(m, |got|), node, got, Now().kv.gpu)
    {
      hide InRange, Copied;
      NodePagesExist(m, base.root, base.pageSize, base.locks, null, node);
      PoppedExist(GpuBooks(m), |got|);
      assert base.InSync(node);
      var cpuPages := node.pages;
      CopyPages(cpuPool.kv, pool.kv, cpuPages, got);
      cpuPool.Free(cpuPages);
      base.MovePages(node, got, GPU);
    }

    /** `_promote_node`; the result tells whether the allocation did not raise. */
    method PromoteNode(node: RadixNode) returns (ok: bool)
      requires Valid() && base.pin == null && node in base.tree && node != base.root && base.tree[node].tier == CPU
      modifies base`tree, base`refs, base`own, base`cachedPageCount, base`pin, base.tree.Keys`children
      modifies base.tree.Keys`pages
      modifies base.tree.Keys`tier, base.tree.Keys`refCount, pool`free, pool.kv, cpuPool`free
      modifies cpuPool.kv
      ensures Valid() && base.pin == null && base.tree.Keys <= old(base.tree.Keys)
      ensures PromotedTo(old(Now()), Now(), base.root, old(base.AgesNow()), node, ok)
    {
      hide AllocatedFor, PromotedTo, Sound, AfterPop, RadixCache.Synced;
      ghost var s, ages := Now(), base.AgesNow();
      var r;
      ghost var m;
      r, m := PinnedAllocate(node);
      if r.None? {
        NotMovedUp(s, m, base.root, node, ages);
        return false;
      }
      AllocatedThere(s, m, base.root, node, ages);
      MoveUp(node, r.value, m);
      MovedUp(s, m, base.root, base.pageSize, base.locks, node, r.value, Now().kv.gpu, ages);
      return true;
    }

    /** `_ensure_gpu_pages`; the result tells whether no allocation raised. */
    method EnsureGpuPages(node: RadixNode) returns (ok: bool)
      requires Valid() && base.pin == null && node in base.tree && node != base.root
      modifies base`tree, base`refs, base`own, base`cachedPageCount, base`pin, base.tree.Keys`children
      modifies base.tree.Keys`pages
      modifies base.tree.Keys`tier, base.tree.Keys`refCount, pool`free, pool.kv, cpuPool`free
      modifies cpuPool.kv
      ensures Valid() && base.pin == null && base.tree.Keys <= old(base.tree.Keys)
      ensures Served(old(Now()), Now()) && Attached(old(Now()), Now(), node)
      ensures Brought(old(Now()), Now(), node, ok) && (ok ==> base.tree[node].tier == GPU)
      ensures Settled(old(Now()), Now(), base.root, old(base.AgesNow()), node, ok) && Remains(old(Now()), Now())
    {
      assert base.InSync(node);
      ServedSelf(Now());
      RemainsSelf(Now(), base.root, base.pageSize, base.locks, base.pin);
      if node.pages == [] || node.tier == GPU {
        assert EdgeOK(base.tree, node, base.pageSize);
        return true;
      }
      ok := PromoteNode(node);
    }

    /** `match_prefix`; `None` when a promotion could not get its pages and the error escapes. */
    method MatchPrefix(tokens: seq<int>, now: int) returns (r: Option<MatchResult>)
      requires Valid() && base.pin == null
      modifies base`tree, base`refs, base`own, base`cachedPageCount, base`pin, base.tree.Keys`children
      modifies base.tree.Keys`pages
      modifies base.tree.Keys`tier, base.tree.Keys`refCount, base.tree.Keys`lastAccess, pool`free, pool.kv, cpuPool`free
      modifies cpuPool.kv
      ensures Valid() && base.pin == null && base.tree.Keys <= old(base.tree.Keys) && Served(old(Now()), Now())
      ensures r.Some? ==> TierMatchOK(r.value, Blocks(tokens, base.pageSize), base.tree, base.own, base.root,
        base.pageSize)
      ensures r.Some? ==>
        Looked(old(Now()), Now(), base.locks, Blocks(tokens, base.pageSize), r.value.matchedPages)
      ensures InPlace(old(Now()), Blocks(tokens, base.pageSize)) ==> r.Some?
      ensures Roomy(old(Now()), base.locks, Blocks(tokens, base.pageSize)) ==> r.Some?
      ensures RoomBelow(old(Now())) && AllOlder(old(base.AgesNow()), now) ==>
        ((r.Some? && Current(GpuBooks(Now()).tree, Blocks(tokens, base.pageSize), r.value.matchedPages))
         <==> |WayPages(old(Now()), Blocks(tokens, base.pageSize))| <= Supply(old(Now())))
      ensures if Blocks(tokens, base.pageSize) == [] then base.AgesNow() == old(base.AgesNow())
              else r.Some? ==>
                Refreshed(base.tree, old(base.AgesNow()), base.AgesNow(), base.tree[r.value.lastNode].path, now)
    {
      ghost var e := Entry(Now(), base.AgesNow(), now);
      var alignedLen := PageAlignLen(|tokens|, base.pageSize);
      ghost var q := Blocks(tokens, base.pageSize);
      BlocksOf(tokens, base.pageSize);
      ServedSelf(Now());
      TrackedStart(e, base.locks, q);
      if alignedLen == 0 {
        Multiple(|q|, base.pageSize);
        TierWalkEnds(base.tree, base.own, base.root, base.pageSize, q, 0, base.root, []);
        r := Some(MatchResult([], 0, base.root));
      } else {
        r := WalkDown(tokens[..alignedLen], now, q);
      }
      LookupEnds(e, Now(), base.root, base.pageSize, base.locks, q, r);
    }

    /** One round of the walk: the next child, brought to the GPU. */
    method NextOnGpu(node: RadixNode, rest: seq<int>, now: int, ghost q: Path, ghost k: nat)
      returns (child: RadixNode?, matchLen: nat, whole: bool, ok: bool)
      requires Valid() && base.pin == null && node in base.tree && k < |q| && base.tree[node].path == q[..k]
      requires Uniform(q, base.pageSize) && rest == Flat(q[k..])
      modifies base`tree, base`refs, base`own, base`cachedPageCount, base`pin, base.tree.Keys`children
      modifies base.tree.Keys`pages
      modifies base.tree.Keys`tier, base.tree.Keys`refCount, base.tree.Keys`lastAccess, pool`free, pool.kv, cpuPool`free
      modifies cpuPool.kv
      ensures Valid() && base.pin == null && base.tree.Keys <= old(base.tree.Keys) && Served(old(Now()), Now())
      ensures child == null ==> Now() == old(Now()) && q[..k + 1] !in base.own && base.AgesNow() == old(base.AgesNow())
      ensures child != null ==>
        && OnWay(old(base.tree), q, k, child) && child != base.root && EdgeOK(old(base.tree), child, base.pageSize)
        && (whole <==> Shared(old(base.tree), q, k, child) == |old(base.tree)[child].pages|)
        && matchLen == Shared(old(base.tree), q, k, child) * base.pageSize
           && matchLen / base.pageSize == Shared(old(base.tree), q, k, child)
        && SamePlace(old(base.tree), base.tree, child) && (ok ==> base.tree[child].tier == GPU)
        && Brought(old(Now()), Now(), child, ok) && Remains(old(Now()), Now())
        && Settled(old(Now()), Now(), base.root, old(base.AgesNow())[child := now], child, ok)
        && AgesHold(base.tree.Keys, old(base.AgesNow())[child := now])
    {
      hide Remains, Settled, Served, Brought, Shared;
      whole, ok := true, true;
      child, matchLen := base.FindChild(node, rest, now, q, k);
      if child == null {
        ServedSelf(Now());
        return;
      }
      EdgeNumbers(base.tree, base.pageSize, q, k, child);
      if matchLen < |child.key| {
        matchLen := PageAlignLen(matchLen, base.pageSize);
        assert matchLen > 0;  // a child found by its first page shares at least that page
        whole := false;
      }
      ok := EnsureGpuPages(child);
    }

    /** What a round makes of the child it brought to the GPU, found in the tree `T`. */
    method Collect(child: RadixNode, matchLen: nat, whole: bool, idx: nat, pages: seq<int>, ghost q: Path,
                   ghost T: Tree, ghost O: Owners)
      returns (p: Progress)
      requires Valid() && WF(T, O, base.root, base.pageSize) && base.own.Keys <= O.Keys
      requires OnWay(T, q, |pages|, child) && child != base.root && EdgeOK(T, child, base.pageSize)
        && Uniform(q, base.pageSize)
      requires whole <==> Shared(T, q, |pages|, child) == |T[child].pages|
      requires matchLen == Shared(T, q, |pages|, child) * base.pageSize
        && matchLen / base.pageSize == Shared(T, q, |pages|, child)
      requires SamePlace(T, base.tree, child) && base.tree[child].tier == GPU && idx == |pages| * base.pageSize
      ensures Advanced(p, q, |pages|) && !p.Raised?
      ensures p.Crossed? ==> p.node == child
      ensures p.Found? ==> p.r.lastNode == child
      ensures Collected(p) == pages + base.tree[child].pages[..Shared(T, q, |pages|, child)]
    {
      EdgeNumbers(T, base.pageSize, q, |pages|, child);
      assert base.InSync(child);
      if !whole {
        TierWalkPartial(T, O, base.tree, base.own, base.root, base.pageSize, q, |pages|, child, pages);
        return Found(MatchResult(pages + child.pages[..matchLen / base.pageSize], idx + matchLen, child));
      }
      TierWalkFull(T, base.tree, base.root, q, |pages|, child, pages);
      return Crossed(child, idx + matchLen, pages + child.pages);
    }

    /** What the round makes of the child, in the terms of the whole lookup. */
    method CollectOn(child: RadixNode, matchLen: nat, whole: bool, ok: bool, idx: nat, pages: seq<int>,
                     ghost q: Path, ghost e: Entry, ghost t: Two, ghost ages: Ages)
      returns (p: Progress)
      requires Valid() && base.pin == null && Sound(t, base.root, base.pageSize, base.locks, null)
      requires base.own.Keys <= t.own.Keys && Tracked(e, t, base.locks, q, pages) && Uniform(q, base.pageSize)
      requires OnWay(t.tree, q, |pages|, child) && child != base.root && EdgeOK(t.tree, child, base.pageSize)
      requires whole <==> Shared(t.tree, q, |pages|, child) == |t.tree[child].pages|
      requires matchLen == Shared(t.tree, q, |pages|, child) * base.pageSize
        && matchLen / base.pageSize == Shared(t.tree, q, |pages|, child)
      requires SamePlace(t.tree, base.tree, child) && idx == |pages| * base.pageSize
      requires Brought(t, Now(), child, ok) && (ok ==> base.tree[child].tier == GPU)
      requires Settled(t, Now(), base.root, ages, child, ok)
      requires Refreshed(t.tree, e.was, ages, t.tree[child].path, e.now)
      ensures Advanced(p, q, |pages|) && OnTrack(e, Now(), base.locks, q, p)
      ensures p.Crossed? ==> p.node == child
      ensures p.Found? ==> p.r.lastNode == child
    {
      hide Tracked, Brought, Settled, Refreshed;
      p := Raised;
      TrackedOn(e, t, Now(), base.root, base.pageSize, base.locks, q, pages, child, ages, ok);
      if ok {
        p := Collect(child, matchLen, whole, idx, pages, q, t.tree, t.own);
        TrackedMore(e, t, Now(), base.root, base.pageSize, base.locks, q, pages, child,
                    Shared(t.tree, q, |pages|, child), ages);
      }
    }

    ghost predicate TimedTo(e: Entry, n: RadixNode)
      reads base`tree, base.tree.Keys`lastAccess
    {
      n in base.tree && Refreshed(base.tree, e.was, base.AgesNow(), base.tree[n].path, e.now)
    }

    /** The access times so far: `now` for the nodes from the root to the one the walk has come to,
        as before for the others. */
    ghost predicate Timed(e: Entry, p: Progress)
      reads base`tree, base.tree.Keys`lastAccess
    {
      && (p.Crossed? ==> TimedTo(e, p.node))
      && (p.Found? ==> TimedTo(e, p.r.lastNode))
    }

    ghost predicate Advanced(p: Progress, q: Path, k: int)
      reads base`tree, base`own, base`root
    {
      && (p.Crossed? ==>
            && TierWalkAt(base.tree, base.root, q, |p.pages|, p.node, p.pages)
            && p.idx == |p.pages| * base.pageSize && k < |p.pages| <= |q|)
      && (p.Found? ==> TierMatchOK(p.r, q, base.tree, base.own, base.root, base.pageSize))
    }

    /** One round of the walk. */
    method WalkRound(node: RadixNode, rest: seq<int>, idx: nat, pages: seq<int>, now: int, ghost q: Path,
                     ghost e: Entry)
      returns (p: Progress)
      requires Valid() && base.pin == null && TierWalkAt(base.tree, base.root, q, |pages|, node, pages) && |pages| < |q|
      requires Tracked(e, Now(), base.locks, q, pages) && e.now == now
      requires Refreshed(base.tree, e.was, base.AgesNow(), base.tree[node].path, now)
      requires Uniform(q, base.pageSize) && rest == Flat(q[|pages|..]) && idx == |pages| * base.pageSize
      modifies base`tree, base`refs, base`own, base`cachedPageCount, base`pin, base.tree.Keys`children
      modifies base.tree.Keys`pages
      modifies base.tree.Keys`tier, base.tree.Keys`refCount, base.tree.Keys`lastAccess, pool`free, pool.kv, cpuPool`free
      modifies cpuPool.kv
      ensures Valid() && base.pin == null && base.tree.Keys <= old(base.tree.Keys) && Served(old(Now()), Now())
      ensures Advanced(p, q, |pages|) && OnTrack(e, Now(), base.locks, q, p) && Timed(e, p)
    {
      hide Tracked, Brought, Uniform, Served, EdgeOK, Shared, Settled, Refreshed, Remains;
      hide Linked, Flat, WF, TierMatchOK, Counted;
      ghost var t, ages := Now(), base.AgesNow();
      var child, matchLen, whole, ok := NextOnGpu(node, rest, now, q, |pages|);
      if child == null {
        TierWalkEnds(base.tree, base.own, base.root, base.pageSize, q, |pages|, node, pages);
        p := Found(MatchResult(pages, idx, node));
      } else {
        ServedShrinks(t, Now());
        ChildRefreshed(t.tree, t.own, base.root, base.pageSize, e.was, ages, q, |pages|, node, child, now);
        p := CollectOn(child, matchLen, whole, ok, idx, pages, q, e, t, ages[child := now]);
        RefreshedAfter(t, Now(), e.was, ages[child := now], base.AgesNow(), t.tree[child].path, now);
      }
    }

    method WalkDown(toks: seq<int>, now: int, ghost q: Path) returns (r: Option<MatchResult>)
      requires Valid() && base.pin == null && Uniform(q, base.pageSize) && toks == Flat(q)
      modifies base`tree, base`refs, base`own, base`cachedPageCount, base`pin, base.tree.Keys`children
      modifies base.tree.Keys`pages
      modifies base.tree.Keys`tier, base.tree.Keys`refCount, base.tree.Keys`lastAccess, pool`free, pool.kv, cpuPool`free
      modifies cpuPool.kv
      ensures Valid() && base.pin == null && base.tree.Keys <= old(base.tree.Keys) && Served(old(Now()), Now())
      ensures r.Some? ==> TierMatchOK(r.value, q, base.tree, base.own, base.root, base.pageSize)
      ensures var e := Entry(old(Now()), old(base.AgesNow()), now);
        && (r.Some? ==> Tracked(e, Now(), base.locks, q, r.value.matchedPages))
        && (NeverRaises(e, base.locks, q) ==> r.Some?)
      ensures r.Some? ==>
        Refreshed(base.tree, old(base.AgesNow()), base.AgesNow(), base.tree[r.value.lastNode].path, now)
    {
      hide Tracked, NeverRaises, Refreshed;
      ghost var e := Entry(Now(), base.AgesNow(), now);
      RootRefreshed(base.tree, base.own, base.root, base.pageSize, e.was, now);
      base.root.lastAccess := now;
      assert base.AgesNow() == e.was[base.root := now];
      var p: Progress := Crossed(base.root, 0, []);
      ServedSelf(Now());
      TrackedStart(e, base.locks, q);
      while p.Crossed? && p.idx < |toks|
        invariant Valid() && base.pin == null && base.tree.Keys <= old(base.tree.Keys) && Served(old(Now()), Now())
        invariant Advanced(p, q, -1) && OnTrack(e, Now(), base.locks, q, p) && Timed(e, p)
        decreases if p.Crossed? then |q| - |p.pages| else -1
      {
        FlatRest(q, base.pageSize, |p.pages|);
        ghost var s := Now();
        p := WalkRound(p.node, toks[p.idx..], p.idx, p.pages, now, q, e);
        ServedTrans(old(Now()), s, Now());
      }
      r := if p.Found? then Some(p.r) else None;
      if p.Crossed? {
        FlatRest(q, base.pageSize, |p.pages|);
        TierWalkEnds(base.tree, base.own, base.root, base.pageSize, q, |p.pages|, p.node, p.pages);
        r := Some(MatchResult(p.pages, p.idx, p.node));
      }
    }

    // ---- counting ----

    /** `_count_pages`, below `node`. */
    method CountPages(node: RadixNode, locked: bool, tier: Option<Tier>) returns (total: nat)
      requires Valid() && node in base.tree
      ensures total == |PagesIn(base.own, base.refs, Sub(base.tree, node) * OnTier(base.tree, tier), locked)|
      decreases Sub(base.tree, node)
    {
      ghost var T, O, R, root, P := base.tree, base.own, base.refs, base.root, base.pageSize;
      assert base.InSync(node);
      total := 0;
      if node != base.root && node.pages != [] && (tier.None? || node.tier == tier.value) {
        if (locked && node.refCount > 0) || (!locked && node.refCount == 0) {
          total := |node.pages|;
        }
      }
      TierCountOne(T, O, root, P, R, node, locked, tier);
      var keys := node.children.Keys;
      HangingAll(T, O, root, P, node);
      while keys != {}
        invariant keys <= T[node].children.Keys
        invariant total == |PagesIn(O, R, (Sub(T, node) - Hanging(T, node, keys)) * OnTier(T, tier), locked)|
        decreases keys
      {
        var b :| b in keys;
        HangingStep(T, O, root, P, node, keys, b);
        var more := CountPages(node.children[b], locked, tier);
        TierCountStep(T, O, root, P, R, node, keys, b, locked, tier);
        total := total + more;
        keys := keys - {b};
      }
      assert Sub(T, node) - Hanging(T, node, {}) == Sub(T, node);
    }

    /** `num_evictable_pages` */
    method NumEvictablePages() returns (total: nat)
      requires Valid()
      ensures total == |EvictableIn(base.tree, base.own, base.refs, GPU)|
    {
      total := CountPages(base.root, false, Some(GPU));
      TierCountAll(base.tree, base.own, base.root, base.pageSize, base.refs, GPU);
    }

    // ---- inherited operations ----

    /** `inc_lock_ref`, inherited. */
    method IncLockRef(node: RadixNode?, ghost h: object)
      requires Valid() && (node != null ==> node in base.tree) && h !in base.locks
      modifies base`refs, base`locks, base.tree.Keys`refCount, base.tree.Keys`lastAccess
      ensures Valid() && Now() == old(Now()).(refs := base.refs)
      ensures base.locks == if node == null || node == base.root then old(base.locks) else old(base.locks)[h := node]
    {
      base.IncLockRef(node, h);
      SoundRelocked(old(Now()), Now(), base.root, base.pageSize, old(base.locks), base.locks, base.pin);
    }

    /** `dec_lock_ref`, inherited. */
    method DecLockRef(node: RadixNode?, now: int, ghost h: object)
      requires Valid() && (node != null ==> node in base.tree)
      requires node != null && node != base.root ==> h in base.locks && base.locks[h] == node
      modifies base`refs, base`locks, base.tree.Keys`refCount, base.tree.Keys`lastAccess
      ensures Valid() && Now() == old(Now()).(refs := base.refs)
      ensures base.locks == if node == null || node == base.root then old(base.locks) else old(base.locks) - {h}
    {
      hide RadixCache.Valid, Step, Counted;
      base.DecLockRef(node, now, h);
      SoundRelocked(old(Now()), Now(), base.root, base.pageSize, old(base.locks), base.locks, base.pin);
    }

    /** `insert_and_return`, inherited: the CPU tier is left alone and every prefix bound before
        keeps its contents. */
    method InsertAndReturn(tokens: seq<int>, pages: seq<int>, now: int) returns (r: InsertResult)
      requires Valid() && base.pin == null
      requires forall i {:trigger pages[i]} :: 0 <= i < |pages| ==> 0 <= pages[i] < pool.kv.Length
      modifies base, base.tree.Keys
      ensures Valid() && base.pin == null && base.locks == old(base.locks)
        && Kept(Holdings(Now()), Holdings(old(Now())))
      ensures TierBind(base.tree, base.own, CPU) == old(TierBind(base.tree, base.own, CPU))
      ensures var q := Blocks(tokens, base.pageSize);
        if |q| == 0 then r == Inserted(base.root, pages) && base.Bindings() == old(base.Bindings())
        else if |pages| < |q| then r == TooFewPages && base.Bindings() == old(base.Bindings())
        else && r.Inserted? && r.node in base.tree && base.tree[r.node].path == q
             && base.Bindings() == Insert(old(base.Bindings()), q, pages)
             && r.redundant == RedundantFrom(old(base.tree), old(base.own), q, pages, 0)
    {
      ghost var s, q := Now(), Blocks(tokens, base.pageSize);
      r := base.InsertAndReturn(tokens, pages, now);
      ghost var at, got := if 0 < |q| <= |pages| then q else [], if 0 < |q| <= |pages| then pages else [];
      InsertNothing(s.tree, s.own);
      GrownSound(s, Now(), base.root, base.pageSize, base.locks, at, got);
    }

    // ---- reset ----

    /** The walk of `reset`: the pages of `node` and of everything below it, by tier. */
    method ListPages(node: RadixNode)
      returns (gpu: seq<int>, cpu: seq<int>, ghost goneGpu: seq<Path>, ghost goneCpu: seq<Path>)
      requires Valid() && node in base.tree
      ensures TierListed(base.tree, base.own, GPU, Sub(base.tree, node), goneGpu, gpu)
      ensures TierListed(base.tree, base.own, CPU, Sub(base.tree, node), goneCpu, cpu)
      decreases Sub(base.tree, node)
    {
      ghost var T, O, root, P := base.tree, base.own, base.root, base.pageSize;
      assert base.InSync(node);
      TierListedOne(T, O, root, P, node, GPU);
      TierListedOne(T, O, root, P, node, CPU);
      gpu, cpu, goneGpu, goneCpu := [], [], [], [];
      if node.tier == CPU {
        cpu, goneCpu := node.pages, EdgeSeq(T[node]);
      } else {
        gpu, goneGpu := node.pages, EdgeSeq(T[node]);
      }
      var keys := node.children.Keys;
      HangingAll(T, O, root, P, node);
      while keys != {}
        invariant keys <= T[node].children.Keys
        invariant TierListed(T, O, GPU, Sub(T, node) - Hanging(T, node, keys), goneGpu, gpu)
        invariant TierListed(T, O, CPU, Sub(T, node) - Hanging(T, node, keys), goneCpu, cpu)
        decreases keys
      {
        var b :| b in keys;
        HangingStep(T, O, root, P, node, keys, b);
        ghost var seen, below := Sub(T, node) - Hanging(T, node, keys), Sub(T, node.children[b]);
        var g, c;
        ghost var gg, gc;
        g, c, gg, gc := ListPages(node.children[b]);
        TierListedUnion(T, O, GPU, seen, below, goneGpu, gpu, gg, g);
        TierListedUnion(T, O, CPU, seen, below, goneCpu, cpu, gc, c);
        gpu, cpu, goneGpu, goneCpu := gpu + g, cpu + c, goneGpu + gg, goneCpu + gc;
        keys := keys - {b};
        assert Sub(T, node) - Hanging(T, node, keys) == seen + below;
      }
      assert Sub(T, node) - Hanging(T, node, {}) == Sub(T, node);
    }

    /** `reset`: every page goes back to its own tier.  Locks taken before are void afterwards. */
    method Reset(now: int)
      returns (ghost gpu: seq<int>, ghost cpu: seq<int>, ghost goneGpu: seq<Path>, ghost goneCpu: seq<Path>)
      requires Valid() && base.pin == null
      modifies base, pool`free, cpuPool`free
      ensures Valid() && base.pin == null && base.locks == map[] && fresh(base.tree.Keys) && base.own == map[]
      ensures pool.free == old(pool.free) + gpu && cpuPool.free == old(cpuPool.free) + cpu
      ensures Unbound(old(TierBind(base.tree, base.own, GPU)), map[], goneGpu, gpu)
      ensures Unbound(old(TierBind(base.tree, base.own, CPU)), map[], goneCpu, cpu)
      ensures GpuApart(old(Now())) ==> GpuApart(Now())
    {
      ghost var s, locks, pin, root := Now(), base.locks, base.pin, base.root;
      var gpuPages, cpuPages;
      ghost var g, c;
      gpuPages, cpuPages, g, c := ListPages(base.root);
      RootReaches(base.tree, base.own, base.root, base.pageSize);
      gpu, cpu, goneGpu, goneCpu := gpuPages, cpuPages, g, c;
      TierListedAll(s.tree, s.own, GPU, g, gpuPages);
      TierListedAll(s.tree, s.own, CPU, c, cpuPages);
      if gpuPages != [] {
        pool.Free(gpuPages);
      }
      if cpuPages != [] {
        cpuPool.Free(cpuPages);
      }
      base.Clear(now);
      ResetSound(s, Now(), root, base.root, base.pageSize, locks, pin, g, gpu, c, cpu);
    }
  }

  lemma StaleAnswer(s: Two, t: Two, root: RadixNode, r: MatchResult)
    requires Sound(s, root, 1, map[], null) && Sound(t, root, 1, map[], null) && HalfDown(s)
    requires TierMatchOK(r, [[1], [2]], t.tree, t.own, root, 1) && Looked(s, t, map[], [[1], [2]], r.matchedPages)
    ensures r.matchedTokens == 2 && |r.matchedPages| == 2
    ensures !Current(GpuBooks(t).tree, [[1], [2]], r.matchedPages)
  {
    var q: Path := [[1], [2]];
    HalfDownRoomy(s, root);
    assert q[..2] == q;
    BindPoint(t.tree, t.own, q);
    TooLong(s, t, root, 1, q, r.matchedPages);
  }

  /** Looking the prompt up promotes the second page, and the only GPU page to be had for it is
      that of the first: the lookup answers with two pages, not both those of their prefixes. */
  method StaleLookup(c: HiRadixCache, now: int) returns (r: MatchResult)
    requires c.Valid() && c.base.pin == null && c.base.locks == map[] && c.base.pageSize == 1 && HalfDown(c.Now())
    modifies c.base`tree, c.base`refs, c.base`own, c.base`cachedPageCount, c.base`pin, c.base.tree.Keys`children
    modifies c.base.tree.Keys`pages
    modifies c.base.tree.Keys`tier, c.base.tree.Keys`refCount, c.base.tree.Keys`lastAccess, c.pool`free, c.pool.kv
    modifies c.cpuPool`free, c.cpuPool.kv
    ensures c.Valid() && r.matchedTokens == 2 && |r.matchedPages| == 2
    ensures !Current(GpuBooks(c.Now()).tree, [[1], [2]], r.matchedPages)
  {
    hide Looked, Roomy, Current, TierMatchOK, Sound;
    ghost var s := c.Now();
    TwoPages();
    HalfDownRoomy(s, c.base.root);
    var m := c.MatchPrefix([1, 2], now);
    r := m.value;
    StaleAnswer(s, c.Now(), c.base.root, r);
  }
}
