/** The radix prefix cache over page pool storage (radix_cache.py, kv_memory_pool.py). */
module PrefixCache {
  import opened Paging
  import opened TreeModel
  import opened TreeOps
  import opened TreeLocks
  import opened TreeWalk
  import opened TreeCount
  import opened TreeInsert
  import opened TreeEvict
  import opened CacheRuns
  import opened Wrappers
  import opened KvData

  ghost function Info(n: RadixNode): NodeInfo
    reads n`parent, n`children, n`key, n`pages, n`tier, n`path
  {
    NodeInfo(n.parent, n.children, n.key, n.pages, n.tier, n.path)
  }

  lemma EmptyTree(T: Tree, root: RadixNode, P: nat)
    requires T.Keys == {root} && RootOK(T, root) && T[root].children == map[]
    ensures WF(T, map[], root, P) && Counted(T, root, map[root := 0], map[], null)
    ensures Bind(T, map[]) == map[]
  {}

  lemma CutEdge(i: NodeInfo, P: nat, at: nat)
    requires P >= 1 && 0 < |i.pages| <= |i.path| && Uniform(i.path, P) && i.key == Flat(i.path[Start(i)..])
    requires 0 < at < |i.key| && at % P == 0
    ensures 0 < at / P < |i.pages|
    ensures ChildKey(i.key, P) == i.path[Start(i)]
    ensures ChildKey(i.key[at..], P) == i.path[Start(i) + at / P]
    ensures i.key[..at] == Flat(i.path[Start(i)..Start(i) + at / P])
    ensures i.key[at..] == Flat(i.path[Start(i) + at / P..])
  {
    var e, k := i.path[Start(i)..], at / P;
    CutAligned(e, P, at);
    FirstPage(e, P);
    assert e[..k] == i.path[Start(i)..Start(i) + k] && e[k..] == i.path[Start(i) + k..];
    FirstPage(e[k..], P);
  }

  /** The result of `insert_and_return`; `TooFewPages` stands for its `ValueError`. */
  datatype InsertResult = Inserted(node: RadixNode, redundant: seq<int>) | TooFewPages

  /** `_split_node` field by field, on snapshots. */
  ghost function SplitFields(T: Tree, n: RadixNode, mid: RadixNode, at: nat, P: nat): Tree
    requires P >= 1 && n in T && T[n].parent != null && T[n].parent in T
    requires at <= |T[n].key| && at / P <= |T[n].pages| <= |T[n].path|
  {
    var i, k := T[n], at / P;
    var upper := NodeInfo(i.parent, map[ChildKey(i.key[at..], P) := n], i.key[..at], i.pages[..k], i.tier,
                          i.path[..Start(i) + k]);
    var lower := i.(parent := mid, key := i.key[at..], pages := i.pages[k..]);
    var up := T[i.parent].(children := T[i.parent].children[ChildKey(i.key, P) := mid]);
    T[i.parent := up][n := lower][mid := upper]
  }

  lemma SplitFieldsIsSplit(T: Tree, n: RadixNode, mid: RadixNode, at: nat, P: nat)
    requires P >= 1 && n in T && mid !in T && EdgeOK(T, n, P)
    requires 0 < at < |T[n].key| && at % P == 0
    ensures 0 < at / P < |T[n].pages|
    ensures SplitFields(T, n, mid, at, P) == SplitTree(T, n, mid, at / P, P)
  {
    CutEdge(T[n], P, at);
  }

  /** `ages` records the access times of the nodes of `S`. */
  ghost predicate AgesOf(S: set<RadixNode>, ages: map<RadixNode, int>)
    reads S`lastAccess
  {
    forall m {:trigger m in S} :: m in S ==> m in ages && ages[m] == m.lastAccess
  }

  lemma Joined(a: seq<int>, b: seq<int>, c: seq<int>)
    ensures a + (b + c) == (a + b) + c
  {}

  class RadixCache {
    const pool: KVMemoryPool
    const pageSize: nat
    var root: RadixNode
    var cachedPageCount: int
    /** The snapshot of the nodes reachable from the root, and of their lock counts. */
    ghost var tree: Tree
    ghost var refs: Refs
    /** Which node holds each bound prefix; who holds locks; the node being promoted. */
    ghost var own: Owners
    ghost var locks: Locks
    ghost var pin: RadixNode?

    ghost predicate InSync(n: RadixNode)
      requires n in tree
      reads this`tree, this`refs, n`parent, n`children, n`key, n`pages, n`tier, n`path, n`refCount
    {
      tree[n] == Info(n) && n in refs && refs[n] == n.refCount
    }

    ghost predicate Synced()
      reads this`tree, this`refs, tree.Keys`parent, tree.Keys`children, tree.Keys`key
      reads tree.Keys`pages, tree.Keys`tier, tree.Keys`path, tree.Keys`refCount
    {
      forall n {:trigger InSync(n)} :: n in tree ==> InSync(n)
    }

    ghost predicate Valid()
      reads this, tree.Keys`parent, tree.Keys`children, tree.Keys`key
      reads tree.Keys`pages, tree.Keys`tier, tree.Keys`path, tree.Keys`refCount
    {
      && pageSize == pool.pageSize >= 1
      && Synced()
      && WF(tree, own, root, pageSize)
      && Counted(tree, root, refs, locks, pin)
      && cachedPageCount == |own|
    }

    ghost function Bindings(): map<Path, int>
      reads this`tree, this`own
    {
      Bind(tree, own)
    }

    /** The cache as its users see it. */
    ghost function View(): Cache
      reads this`tree, this`own, this`locks
    {
      Abs(tree, own, locks)
    }

    /** `last_access` of every node. */
    ghost function AgesNow(): Ages
      reads this`tree, tree.Keys`lastAccess
    {
      map n | n in tree :: n.lastAccess
    }

    constructor (pool: KVMemoryPool, now: int)
      requires pool.pageSize >= 1
      ensures Valid() && fresh(tree.Keys) && Bindings() == map[] && locks == map[] && pin == null
      ensures this.pool == pool && pageSize == pool.pageSize
    {
      this.pool := pool;
      pageSize := pool.pageSize;
      root := new RadixNode(now, null, [], [], 0, GPU, []);
      cachedPageCount := 0;
      new;
      tree, refs := map[root := Info(root)], map[root := 0];
      own, locks, pin := map[], map[], null;
      EmptyTree(tree, root, pageSize);
    }

    /** One step of a walk: the child under the next page of the query, if there is one, and how
        many tokens of its edge agree with the rest of the query. */
    method FindChild(node: RadixNode, rest: seq<int>, now: int, ghost q: Path, ghost k: nat)
      returns (child: RadixNode?, matchLen: nat)
      requires pageSize >= 1 && Synced() && WF(tree, own, root, pageSize)
      requires node in tree && k < |q| && tree[node].path == q[..k]
      requires Uniform(q, pageSize) && rest == Flat(q[k..])
      modifies tree.Keys`lastAccess
      ensures Synced() && AgesNow() == if child == null then old(AgesNow()) else old(AgesNow())[child := now]
      ensures child == null ==> q[..k + 1] !in own && q[k] !in tree[node].children
      ensures child != null ==>
        && OnWay(tree, q, k, child) && child != root && EdgeOK(tree, child, pageSize)
        && tree[child] == Info(child)
        && matchLen == Shared(tree, q, k, child) * pageSize
    {
      Lookup(tree, own, root, pageSize, node, q, k);
      FirstPage(q[k..], pageSize);
      assert InSync(node);
      var childKey := ChildKey(rest, pageSize);
      if childKey !in node.children {
        return null, 0;
      }
      child := node.children[childKey];
      assert InSync(child);
      EdgeNumbers(tree, pageSize, q, k, child);
      child.lastAccess := now;
      matchLen := MatchKeys(child.key, rest, pageSize, tree[child].path[k..], q[k..]);
    }

    /** `match_prefix` */
    method MatchPrefix(tokens: seq<int>, now: int) returns (r: MatchResult)
      requires Valid()
      modifies tree.Keys`lastAccess
      ensures Valid()
      ensures MatchOK(r, Blocks(tokens, pageSize), tree, own, root, pageSize)
      ensures if Blocks(tokens, pageSize) == [] then AgesNow() == old(AgesNow())
              else Refreshed(tree, old(AgesNow()), AgesNow(), tree[r.lastNode].path, now)
    {
      var alignedLen := PageAlignLen(|tokens|, pageSize);
      ghost var q := Blocks(tokens, pageSize);
      BlocksOf(tokens, pageSize);
      WalkStart(tree, own, root, pageSize, q);
      if alignedLen == 0 {
        Multiple(|q|, pageSize);
        WalkEnds(tree, own, root, pageSize, q, 0, root, []);
        return MatchResult([], 0, root);
      }
      r := WalkDown(tokens[..alignedLen], now, q);
    }

    method WalkDown(toks: seq<int>, now: int, ghost q: Path) returns (r: MatchResult)
      requires pageSize >= 1 && Synced() && WF(tree, own, root, pageSize) && Uniform(q, pageSize) && toks == Flat(q)
      modifies tree.Keys`lastAccess
      ensures Synced()
      ensures MatchOK(r, q, tree, own, root, pageSize)
      ensures Refreshed(tree, old(AgesNow()), AgesNow(), tree[r.lastNode].path, now)
    {
      ghost var T, O, P, was := tree, own, pageSize, AgesNow();
      var node: RadixNode := root;
      node.lastAccess := now;
      assert AgesNow() == was[root := now];
      RootRefreshed(T, O, root, P, was, now);
      var matchedPages: seq<int> := [];
      var idx := 0;
      ghost var k := 0;
      WalkStart(T, O, root, P, q);
      while idx < |toks|
        invariant WalkAt(T, O, root, q, k, node, matchedPages) && idx == k * P
        invariant Synced() && Refreshed(T, was, AgesNow(), T[node].path, now)
        decreases |q| - k
      {
        FlatRest(q, P, k);
        ghost var ages := AgesNow();
        var child, matchLen := FindChild(node, toks[idx..], now, q, k);
        if child == null {
          break;
        }
        ChildRefreshed(T, O, root, P, was, ages, q, k, node, child, now);
        EdgeNumbers(T, P, q, k, child);
        if matchLen < |child.key| {
          matchLen := PageAlignLen(matchLen, pageSize);
          assert matchLen > 0;  // a child found by its first page shares at least that page
          WalkPartial(T, O, root, P, q, k, node, matchedPages, child);
          return MatchResult(matchedPages + child.pages[..matchLen / pageSize], idx + matchLen, child);
        }
        WalkFull(T, O, root, P, q, k, node, matchedPages, child);
        matchedPages := matchedPages + child.pages;
        idx := idx + matchLen;
        node := child;
        k := k + |child.pages|;
      }
      FlatRest(q, P, k);
      WalkEnds(T, O, root, P, q, k, node, matchedPages);
      r := MatchResult(matchedPages, idx, node);
    }

    /** Changes the count of `n` by `d`. */
    method AddCount(n: RadixNode, d: int)
      requires Synced() && n in tree
      modifies this`refs, n`refCount
      ensures Synced() && n in old(refs) && refs == old(refs)[n := old(refs)[n] + d]
    {
      assert InSync(n);
      n.refCount := n.refCount + d;
      refs := refs[n := refs[n] + d];
      forall m {:trigger InSync(m)} | m in tree ensures InSync(m) {
        assert old(InSync(m));
      }
    }

    /** What a lock walk does to each node it passes. */
    method AddRef(n: RadixNode, d: int, touch: bool, now: int)
      requires Synced() && n in tree
      modifies this`refs, n`refCount, n`lastAccess
      ensures Synced() && n in old(refs) && refs == old(refs)[n := old(refs)[n] + d]
      ensures n.lastAccess == if touch then now else old(n.lastAccess)
      ensures AgesNow() == if touch then old(AgesNow())[n := now] else old(AgesNow())
    {
      AddCount(n, d);
      if touch {
        n.lastAccess := now;
      }
    }

    /** A lock walk from `node` has come to `at`. */
    ghost predicate Climbs(refs0: Refs, was: Ages, node: RadixNode, at: RadixNode, d: int, touch: bool, now: int)
      requires node in tree
      reads this`tree, this`refs, tree.Keys`lastAccess
    {
      && at in tree && tree[at].path <= tree[node].path && refs == BumpBelow(tree, refs0, node, at, d)
      && Climbing(tree, was, AgesNow(), tree[node].path, |tree[at].path|, touch, now)
    }

    method ClimbOne(at: RadixNode, d: int, touch: bool, now: int, ghost refs0: Refs, ghost was: Ages,
                    ghost node: RadixNode)
      returns (up: RadixNode)
      requires pageSize >= 1 && Synced() && WF(tree, own, root, pageSize) && node in tree && refs0.Keys == tree.Keys
      requires at != root && Climbs(refs0, was, node, at, d, touch, now)
      modifies this`refs, at`refCount, at`lastAccess
      ensures Synced() && Climbs(refs0, was, node, up, d, touch, now) && |tree[up].path| < |tree[at].path|
    {
      hide WF, Climbing, BumpBelow;
      ClimbingStep(tree, own, root, pageSize, was, AgesNow(), tree[node].path, at, touch, now);
      BumpStep(tree, own, root, pageSize, refs0, node, at, d);
      assert InSync(at);
      up := at.parent;
      AddRef(at, d, touch, now);
    }

    /** The walk both lock methods make: add `d` to the count of every node from `node` up to,
        not including, the root; a release also refreshes `last_access`. */
    method WalkToRoot(node: RadixNode, d: int, touch: bool, now: int)
      requires pageSize >= 1 && Synced() && WF(tree, own, root, pageSize) && node in tree && refs.Keys == tree.Keys
      modifies this`refs, tree.Keys`refCount, tree.Keys`lastAccess
      ensures Synced() && refs == Bump(tree, root, old(refs), node, d)
      ensures LockAges(tree, root, old(AgesNow()), AgesNow(), tree[node].path, touch, now)
    {
      var at: RadixNode := node;
      ghost var T, O, P, refs0, was := tree, own, pageSize, refs, AgesNow();
      BumpStart(T, refs0, node, d);
      ClimbStart(T, was, T[node].path, now);
      while at != root
        invariant Synced() && Climbs(refs0, was, node, at, d, touch, now)
        decreases |T[at].path|
      {
        at := ClimbOne(at, d, touch, now, refs0, was, node);
      }
      BumpEnd(T, O, root, P, refs0, node, d);
      ClimbingEnd(T, O, root, P, was, AgesNow(), T[node].path, touch, now);
    }

    /** `inc_lock_ref`, on behalf of `h`. */
    method IncLockRef(node: RadixNode?, ghost h: object)
      requires Valid() && (node != null ==> node in tree) && h !in locks
      modifies this`refs, this`locks, tree.Keys`refCount, tree.Keys`lastAccess
      ensures Valid()
      ensures if node == null || node == root then refs == old(refs) && locks == old(locks)
              else && refs == Bump(tree, root, old(refs), node, 1) && locks == old(locks)[h := node]
                   && Step(old(View()), Lock(h, tree[node].path), View())
      ensures AgesNow() == old(AgesNow())
    {
      if node != null && node != root {  // at the root the walk is empty
        LockPath(node, h);
      }
    }

    method LockPath(node: RadixNode, ghost h: object)
      requires Valid() && node in tree && node != root && h !in locks
      modifies this`refs, this`locks, tree.Keys`refCount, tree.Keys`lastAccess
      ensures Valid() && refs == Bump(tree, root, old(refs), node, 1) && locks == old(locks)[h := node]
      ensures Step(old(View()), Lock(h, tree[node].path), View()) && AgesNow() == old(AgesNow())
    {
      hide Bump;
      LockIsStep(tree, own, locks, node, h);
      LockCounted(tree, root, refs, locks, pin, node, h);
      locks := locks[h := node];
      WalkToRoot(node, 1, false, 0);
    }

    /** `dec_lock_ref`, releasing the lock of `h`. */
    method DecLockRef(node: RadixNode?, now: int, ghost h: object)
      requires Valid() && (node != null ==> node in tree)
      requires node != null && node != root ==> h in locks && locks[h] == node
      modifies this`refs, this`locks, tree.Keys`refCount, tree.Keys`lastAccess
      ensures Valid()
      ensures if node == null || node == root then refs == old(refs) && locks == old(locks)
              else && refs == Bump(tree, root, old(refs), node, -1) && locks == old(locks) - {h}
                   && Step(old(View()), Unlock(h), View())
      ensures if node == null || node == root then AgesNow() == old(AgesNow())
              else Released(tree, root, old(AgesNow()), AgesNow(), tree[node].path, now)
    {
      if node != null && node != root {  // at the root the walk is empty
        UnlockPath(node, now, h);
      }
    }

    method UnlockPath(node: RadixNode, now: int, ghost h: object)
      requires Valid() && node in tree && node != root && h in locks && locks[h] == node
      modifies this`refs, this`locks, tree.Keys`refCount, tree.Keys`lastAccess
      ensures Valid() && refs == Bump(tree, root, old(refs), node, -1) && locks == old(locks) - {h}
      ensures Step(old(View()), Unlock(h), View())
        && Released(tree, root, old(AgesNow()), AgesNow(), tree[node].path, now)
    {
      hide Bump, Step, Released, AgesNow, Abs;
      UnlockIsStep(tree, own, locks, h);
      UnlockCounted(tree, root, refs, locks, pin, h);
      locks := locks - {h};
      WalkToRoot(node, -1, true, now);
    }

    /** `_split_node`: the surgery, as the function `SplitTree` on snapshots. */
    method SplitNode(node: RadixNode, splitAt: nat) returns (newNode: RadixNode)
      requires pageSize >= 1 && Synced() && node in tree && EdgeOK(tree, node, pageSize)
      requires 0 < splitAt < |node.key| && splitAt % pageSize == 0
      modifies this, node, node.parent
      ensures newNode !in old(tree) && fresh(newNode)
      ensures 0 < splitAt / pageSize < |old(tree)[node].pages|
      ensures Synced() && tree == SplitTree(old(tree), node, newNode, splitAt / pageSize, pageSize)
      ensures refs == old(refs)[newNode := old(node.refCount)]
      ensures own == SplitOwn(old(tree), old(own), node, newNode, splitAt / pageSize)
      ensures root == old(root) && cachedPageCount == old(cachedPageCount)
      ensures locks == old(locks) && pin == old(pin)
    {
      assert InSync(node);
      var parent := node.parent;
      assert InSync(parent);
      CutEdge(tree[node], pageSize, splitAt);
      newNode := SplitHeap(node, splitAt);
      SplitFieldsIsSplit(old(tree), node, newNode, splitAt, pageSize);
      own := SplitOwn(old(tree), own, node, newNode, splitAt / pageSize);
    }

    method SplitHeap(node: RadixNode, splitAt: nat) returns (newNode: RadixNode)
      requires pageSize >= 1 && Synced() && node in tree && node.parent != null && node.parent in tree
      requires node.parent != node && splitAt <= |node.key| && splitAt / pageSize <= |node.pages| <= |node.path|
      requires Info(node) == tree[node]
      modifies this`tree, this`refs, node, node.parent
      ensures newNode !in old(tree) && fresh(newNode)
      ensures Synced() && tree == SplitFields(old(tree), node, newNode, splitAt, pageSize)
      ensures refs == old(refs)[newNode := old(node.refCount)]
    {
      var parent := node.parent;
      assert InSync(parent);
      var oldChildKey := ChildKey(node.key, pageSize);
      var splitPages := splitAt / pageSize;
      newNode := new RadixNode(node.lastAccess, parent, node.key[..splitAt], node.pages[..splitPages],
                               node.refCount, node.tier, node.path[..Start(tree[node]) + splitPages]);
      node.parent, node.key, node.pages := newNode, node.key[splitAt..], node.pages[splitPages..];
      newNode.children := map[ChildKey(node.key, pageSize) := node];
      parent.children := parent.children[oldChildKey := newNode];
      refs := refs[newNode := node.refCount];
      tree := SplitFields(tree, node, newNode, splitAt, pageSize);
      forall m {:trigger InSync(m)} | m in tree ensures InSync(m) {
        assert m != newNode ==> old(InSync(m));
      }
    }

    /** `_split_node`, on a valid cache: the map is unchanged. */
    method SplitEdge(child: RadixNode, splitAt: nat) returns (mid: RadixNode)
      requires Valid() && pin == null && child in tree && child != root && EdgeOK(tree, child, pageSize)
      requires 0 < splitAt < |child.key| && splitAt % pageSize == 0
      modifies this, child, child.parent
      ensures Valid() && pin == null && locks == old(locks) && root == old(root)
      ensures fresh(mid) && tree.Keys == old(tree.Keys) + {mid} && Grown(old(tree), old(own), tree, own)
      ensures Bindings() == old(Bindings()) && own.Keys == old(own.Keys)
      ensures var at := Start(old(tree)[child]) + splitAt / pageSize;
        0 <= at <= |old(tree)[child].path| && tree[mid].path == old(tree)[child].path[..at]
    {
      ghost var T, O := tree, own;
      assert InSync(child);
      mid := SplitNode(child, splitAt);
      SplitAll(T, O, root, pageSize, old(refs), locks, child, mid, splitAt / pageSize, tree, own);
    }

    /** The split an insertion makes: the edge of `child` is cut where `q` leaves it. */
    method SplitOnWay(child: RadixNode, matchLen: nat, ghost q: Path, ghost k: nat)
      returns (mid: RadixNode, splitAt: nat, ghost k': nat)
      requires Valid() && pin == null && OnWay(tree, q, k, child) && child != root && EdgeOK(tree, child, pageSize)
      requires tree[child] == Info(child)
      requires Shared(tree, q, k, child) < |tree[child].pages| && matchLen == Shared(tree, q, k, child) * pageSize
      modifies this, child, child.parent
      ensures Valid() && pin == null && locks == old(locks) && root == old(root)
      ensures fresh(mid) && tree.Keys == old(tree.Keys) + {mid} && Grown(old(tree), old(own), tree, own)
      ensures Bindings() == old(Bindings()) && own.Keys == old(own.Keys)
      ensures k' == k + Shared(old(tree), q, k, child) <= |q| && tree[mid].path == q[..k']
      ensures splitAt / pageSize == k' - k && k * pageSize + splitAt == k' * pageSize
      ensures k' < |q| ==> q[..k' + 1] !in own
    {
      hide EdgeOK, Shared, Grown;
      ghost var T, O, r := tree, own, Shared(tree, q, k, child);
      k' := k + r;
      SplitPlace(T, pageSize, q, k, child);
      if k' < |q| {
        EdgeDiverges(T, O, root, pageSize, q, k, child);
      }
      splitAt := PageAlignLen(matchLen, pageSize);
      assert splitAt == matchLen > 0;  // a child found by its first page shares at least that page
      mid := SplitEdge(child, splitAt);
    }

    /** `_make_child`, for the pages of `q` below `parent`. */
    method MakeChild(parent: RadixNode, childKey: Block, key: seq<int>, pages: seq<int>, now: int, ghost q: Path)
      returns (child: RadixNode)
      requires Synced() && parent in tree && |tree[parent].path| < |q|
      requires childKey == q[|tree[parent].path|] && key == Flat(q[|tree[parent].path|..])
      requires |pages| == |q| - |tree[parent].path|
      modifies this`tree, this`refs, this`own, parent`children
      ensures fresh(child) && child !in old(tree)
      ensures Synced() && tree == LeafTree(old(tree), parent, child, q, pages) && refs == old(refs)[child := 0]
      ensures own == LeafOwn(old(own), |old(tree)[parent].path|, child, q)
    {
      assert InSync(parent);
      child := new RadixNode(now, parent, key, pages, 0, GPU, q);
      parent.children := parent.children[childKey := child];
      own := LeafOwn(own, |tree[parent].path|, child, q);
      refs := refs[child := 0];
      tree := LeafTree(tree, parent, child, q, pages);
      forall m {:trigger InSync(m)} | m in tree ensures InSync(m) {
        assert m != child ==> old(InSync(m));
      }
    }

    /** The new leaf an insertion ends with. */
    method AttachLeaf(node: RadixNode, suffix: seq<int>, pages: seq<int>, now: int, ghost q: Path, ghost k: nat,
                      ghost all: seq<int>)
      returns (leaf: RadixNode)
      requires Valid() && pin == null && node in tree && k < |q| <= |all| && tree[node].path == q[..k]
      requires q[..k + 1] !in own && Uniform(q, pageSize)
      requires suffix == Flat(q[k..]) && pages == all[k..|q|]
      modifies this, node`children
      ensures Valid() && pin == null && locks == old(locks) && root == old(root)
      ensures fresh(leaf) && tree.Keys == old(tree.Keys) + {leaf} && Grown(old(tree), old(own), tree, own)
      ensures Bindings() == Insert(old(Bindings()), q, all)
      ensures tree[leaf].path == q
    {
      hide LeafTree, LeafOwn, Grown, Insert;
      ghost var T, O := tree, own;
      FirstPage(q[k..], pageSize);
      leaf := MakeChild(node, ChildKey(suffix, pageSize), suffix, pages, now, q);
      cachedPageCount := cachedPageCount + |pages|;
      LeafThere(T, node, leaf, q, pages);
      LeafAll(T, O, root, pageSize, old(refs), locks, node, leaf, q, k, all, tree, own);
    }

    /** `insert_and_return` */
    method InsertAndReturn(tokens: seq<int>, pages: seq<int>, now: int) returns (r: InsertResult)
      requires Valid() && pin == null
      modifies this, tree.Keys
      ensures Valid() && pin == null && locks == old(locks) && root == old(root)
      ensures Grown(old(tree), old(own), tree, own) && fresh(tree.Keys - old(tree.Keys))
      ensures var q := Blocks(tokens, pageSize);
        if |q| == 0 then r == Inserted(root, pages) && Bindings() == old(Bindings())
        else if |pages| < |q| then r == TooFewPages && Bindings() == old(Bindings())
        else && r.Inserted? && r.node in tree && tree[r.node].path == q
             && Bindings() == Insert(old(Bindings()), q, pages)
             && Step(old(View()), Insertion(q, pages), View())
             && r.redundant == RedundantFrom(old(tree), old(own), q, pages, 0)
    {
      ghost var q := Blocks(tokens, pageSize);
      BlocksOf(tokens, pageSize);
      var alignedLen := PageAlignLen(|tokens|, pageSize);
      Multiple(|q|, pageSize);
      if alignedLen == 0 {
        return Inserted(root, pages);
      }
      var numPages := alignedLen / pageSize;
      if |pages| < numPages {
        return TooFewPages;
      }
      r := InsertWalk(tokens[..alignedLen], pages, numPages, now, q);
      InsertIsStep(old(tree), old(own), tree, own, root, old(refs), locks, q, pages);
    }

    /** The part of the insertion loop that crosses whole edges: it ends at the end of the
        query, at a node without a child for the next page, or at an edge to be split. */
    method InsertDescend(toks: seq<int>, pages: seq<int>, now: int, ghost q: Path)
      returns (node: RadixNode, idx: nat, pageIdx: nat, redundant: seq<int>, child: RadixNode?, matchLen: nat)
      requires pageSize >= 1 && Synced() && WF(tree, own, root, pageSize)
      requires Uniform(q, pageSize) && toks == Flat(q) && |q| <= |pages|
      modifies tree.Keys`lastAccess
      ensures Synced()
      ensures pageIdx <= |q| && idx == pageIdx * pageSize && node in tree && tree[node].path == q[..pageIdx]
      ensures redundant == RedundantFrom(tree, own, q, pages, 0)
      ensures child == null && pageIdx < |q| ==> q[..pageIdx + 1] !in own
      ensures child != null ==>
        && OnWay(tree, q, pageIdx, child) && child != root && EdgeOK(tree, child, pageSize)
           && tree[child] == Info(child)
        && matchLen == Shared(tree, q, pageIdx, child) * pageSize
        && Shared(tree, q, pageIdx, child) < |tree[child].pages|
    {
      hide Synced, Flat;
      ghost var T, O, P, all := tree, own, pageSize, RedundantFrom(tree, own, q, pages, 0);
      node, redundant, child, matchLen := root, [], null, 0;
      node.lastAccess := now;
      idx, pageIdx := 0, 0;
      while idx < |toks|
        invariant pageIdx <= |q| && idx == pageIdx * P && node in T && T[node].path == q[..pageIdx]
        invariant redundant + RedundantFrom(T, O, q, pages, pageIdx) == all
        invariant Synced() && child == null
        decreases |q| - pageIdx
      {
        FlatRest(q, P, pageIdx);
        child, matchLen := FindChild(node, toks[idx..], now, q, pageIdx);
        if child == null {
          StopReported(T, O, q, pages, pageIdx);
          return;
        }
        EdgeNumbers(T, P, q, pageIdx, child);
        if matchLen < |child.key| {
          AccountPart(T, O, root, P, q, pages, pageIdx, child);
          return;
        }
        FullEdge(T, q, pageIdx, child);
        AccountFull(T, O, q, pages, pageIdx, child, redundant, all);
        var incoming := pages[pageIdx..pageIdx + |child.pages|];
        if incoming != child.pages {
          redundant := redundant + incoming;
        }
        pageIdx := pageIdx + |child.pages|;
        idx := idx + |child.key|;
        node, child := child, null;
      }
      FlatRest(q, P, pageIdx);
    }

    /** Where the insertion walk ends: what is left of the query becomes a new leaf. */
    method InsertRest(node: RadixNode, toks: seq<int>, idx: nat, pages: seq<int>, numPages: nat, pageIdx: nat, now: int,
                      ghost q: Path)
      returns (last: RadixNode)
      requires Valid() && pin == null && Uniform(q, pageSize) && toks == Flat(q) && numPages == |q| <= |pages|
      requires pageIdx <= |q| && idx == pageIdx * pageSize && node in tree && tree[node].path == q[..pageIdx]
      requires pageIdx < |q| ==> q[..pageIdx + 1] !in own
      modifies this, node`children
      ensures Valid() && pin == null && locks == old(locks) && root == old(root)
      ensures Grown(old(tree), old(own), tree, own) && fresh(tree.Keys - old(tree.Keys))
      ensures last in tree && tree[last].path == q
      ensures Bindings() == Insert(old(Bindings()), q, pages)
    {
      FlatRest(q, pageSize, pageIdx);
      if idx < |toks| {
        last := AttachLeaf(node, toks[idx..], pages[pageIdx..numPages], now, q, pageIdx, pages);
      } else {
        last := node;
        InsertBound(tree, own, root, pageSize, node, q, pages);
      }
    }

    /** The split of the insertion walk, when it stopped inside an edge. */
    method InsertCut(node: RadixNode, idx: nat, pageIdx: nat, child: RadixNode?, matchLen: nat, ghost q: Path)
      returns (node': RadixNode, idx': nat, pageIdx': nat)
      requires Valid() && pin == null && pageIdx <= |q| && idx == pageIdx * pageSize
      requires node in tree && tree[node].path == q[..pageIdx]
      requires child == null && pageIdx < |q| ==> q[..pageIdx + 1] !in own
      requires child != null ==>
        && OnWay(tree, q, pageIdx, child) && child != root && EdgeOK(tree, child, pageSize)
           && tree[child] == Info(child)
        && matchLen == Shared(tree, q, pageIdx, child) * pageSize
        && Shared(tree, q, pageIdx, child) < |tree[child].pages|
      modifies this, tree.Keys
      ensures Valid() && pin == null && locks == old(locks) && root == old(root)
      ensures Grown(old(tree), old(own), tree, own) && fresh(tree.Keys - old(tree.Keys))
      ensures Bindings() == old(Bindings())
      ensures pageIdx' <= |q| && idx' == pageIdx' * pageSize && node' in tree && tree[node'].path == q[..pageIdx']
      ensures pageIdx' < |q| ==> q[..pageIdx' + 1] !in own
    {
      hide Shared, WF;
      if child == null {
        return node, idx, pageIdx;
      }
      var splitAt;
      ghost var k;
      node', splitAt, k := SplitOnWay(child, matchLen, q, pageIdx);
      idx', pageIdx' := idx + splitAt, pageIdx + splitAt / pageSize;
    }

    /** What follows the descent. */
    method InsertTail(node: RadixNode, toks: seq<int>, idx: nat, pages: seq<int>, numPages: nat, pageIdx: nat,
                      child: RadixNode?, matchLen: nat, now: int, ghost q: Path)
      returns (last: RadixNode)
      requires Valid() && pin == null && Uniform(q, pageSize) && toks == Flat(q) && numPages == |q| <= |pages|
      requires pageIdx <= |q| && idx == pageIdx * pageSize
      requires node in tree && tree[node].path == q[..pageIdx]
      requires child == null && pageIdx < |q| ==> q[..pageIdx + 1] !in own
      requires child != null ==>
        && OnWay(tree, q, pageIdx, child) && child != root && EdgeOK(tree, child, pageSize)
           && tree[child] == Info(child)
        && matchLen == Shared(tree, q, pageIdx, child) * pageSize
        && Shared(tree, q, pageIdx, child) < |tree[child].pages|
      modifies this, tree.Keys
      ensures Valid() && pin == null && locks == old(locks) && root == old(root)
      ensures Grown(old(tree), old(own), tree, own) && fresh(tree.Keys - old(tree.Keys))
      ensures last in tree && tree[last].path == q
      ensures Bindings() == Insert(old(Bindings()), q, pages)
    {
      hide Valid;
      var at, i, j := InsertCut(node, idx, pageIdx, child, matchLen, q);
      ghost var T, O := tree, own;
      // After a split the loop comes round once more and finds no child under the next page.
      last := InsertRest(at, toks, i, pages, numPages, j, now, q);
      GrownTrans(old(tree), old(own), T, O, tree, own);
    }

    method InsertWalk(toks: seq<int>, pages: seq<int>, numPages: nat, now: int, ghost q: Path) returns (r: InsertResult)
      requires Valid() && pin == null && Uniform(q, pageSize) && toks == Flat(q) && numPages == |q| <= |pages|
      modifies this, tree.Keys
      ensures Valid() && pin == null && locks == old(locks) && root == old(root)
      ensures Grown(old(tree), old(own), tree, own) && fresh(tree.Keys - old(tree.Keys))
      ensures r.Inserted? && r.node in tree && tree[r.node].path == q
      ensures Bindings() == Insert(old(Bindings()), q, pages)
      ensures r.redundant == RedundantFrom(old(tree), old(own), q, pages, 0)
    {
      var node, idx, pageIdx, redundant, child, matchLen := InsertDescend(toks, pages, now, q);
      node := InsertTail(node, toks, idx, pages, numPages, pageIdx, child, matchLen, now, q);
      r := Inserted(node, redundant);
    }

    // ---- eviction ----

    ghost function State(): Snap
      reads this`tree, this`own, this`refs
    {
      Snap(tree, own, refs)
    }

    /** `_collect_evictable_leaves`, below `node`. */
    method CollectLeaves(node: RadixNode) returns (leaves: set<RadixNode>)
      requires pageSize >= 1 && Synced() && WF(tree, own, root, pageSize) && node in tree && refs.Keys == tree.Keys
      ensures leaves == UnlockedLeaves(tree, refs, root) * Sub(tree, node)
      decreases Sub(tree, node)
    {
      assert InSync(node);
      leaves := if node != root && node.children == map[] && node.refCount == 0 then {node} else {};
      var keys := node.children.Keys;
      HangingAll(tree, own, root, pageSize, node);
      while keys != {}
        invariant keys <= tree[node].children.Keys
        invariant leaves == UnlockedLeaves(tree, refs, root) * (Sub(tree, node) - Hanging(tree, node, keys))
        decreases keys
      {
        var b :| b in keys;
        HangingStep(tree, own, root, pageSize, node, keys, b);
        var more := CollectLeaves(node.children[b]);
        leaves := leaves + more;
        keys := keys - {b};
      }
    }

    /** `_count_pages`, below `node`. */
    method CountPages(node: RadixNode, locked: bool) returns (total: nat)
      requires pageSize >= 1 && Synced() && WF(tree, own, root, pageSize) && node in tree && refs.Keys == tree.Keys
      ensures total == |PagesIn(own, refs, Sub(tree, node), locked)|
      decreases Sub(tree, node)
    {
      assert InSync(node);
      total := 0;
      if node != root && node.pages != [] {
        if locked {
          if node.refCount > 0 {
            total := |node.pages|;
          }
        } else if node.refCount == 0 {
          total := |node.pages|;
        }
      }
      PagesInOne(tree, own, root, pageSize, refs, node, locked);
      var keys := node.children.Keys;
      HangingAll(tree, own, root, pageSize, node);
      while keys != {}
        invariant keys <= tree[node].children.Keys
        invariant total == |PagesIn(own, refs, Sub(tree, node) - Hanging(tree, node, keys), locked)|
        decreases keys
      {
        var b :| b in keys;
        HangingStep(tree, own, root, pageSize, node, keys, b);
        var more := CountPages(node.children[b], locked);
        HangingCount(tree, own, root, pageSize, refs, node, keys, b, locked);
        total := total + more;
        keys := keys - {b};
      }
      assert Sub(tree, node) - Hanging(tree, node, {}) == Sub(tree, node);
    }

    /** `num_evictable_pages` */
    method NumEvictablePages() returns (total: nat)
      requires Valid()
      ensures total == |Evictable(own, refs)|
    {
      total := CountPages(root, false);
      RootReaches(tree, own, root, pageSize);
      forall p {:trigger p in own} | p in own ensures own[p] in tree {
        assert OwnerOK(tree, own, p);
      }
      assert PagesIn(own, refs, tree.Keys, false) == Evictable(own, refs);
    }

    /** The walk of `reset`: the pages of `node` and of everything below it. */
    method ListPages(node: RadixNode) returns (pages: seq<int>, ghost gone: seq<Path>)
      requires pageSize >= 1 && Synced() && WF(tree, own, root, pageSize) && node in tree
      ensures Listed(Bindings(), own, Sub(tree, node), gone, pages)
      decreases Sub(tree, node)
    {
      assert InSync(node);
      ListedOne(tree, own, root, pageSize, node);
      pages, gone := node.pages, EdgeSeq(tree[node]);
      var keys := node.children.Keys;
      HangingAll(tree, own, root, pageSize, node);
      while keys != {}
        invariant keys <= tree[node].children.Keys
        invariant Listed(Bindings(), own, Sub(tree, node) - Hanging(tree, node, keys), gone, pages)
        decreases keys
      {
        var b :| b in keys;
        HangingStep(tree, own, root, pageSize, node, keys, b);
        ghost var seen, below := Sub(tree, node) - Hanging(tree, node, keys), Sub(tree, node.children[b]);
        var more;
        ghost var moreGone;
        more, moreGone := ListPages(node.children[b]);
        ListedUnion(Bindings(), own, seen, below, gone, pages, moreGone, more);
        pages, gone := pages + more, gone + moreGone;
        keys := keys - {b};
        assert Sub(tree, node) - Hanging(tree, node, keys) == seen + below;
      }
      assert Sub(tree, node) - Hanging(tree, node, {}) == Sub(tree, node);
    }

    /** `reset`: every page goes back to the pool.  Locks taken before are void afterwards. */
    method Reset(now: int) returns (ghost gone: seq<Path>, ghost pages: seq<int>)
      requires Valid() && pin == null
      modifies this, pool`free
      ensures Valid() && pin == null && locks == map[] && fresh(tree.Keys) && Bindings() == map[]
      ensures pool.free == old(pool.free) + pages && Unbound(old(Bindings()), map[], gone, pages)
    {
      var all;
      all, gone := ListPages(root);
      pages := all;
      RootReaches(tree, own, root, pageSize);
      ListedAll(tree, own, gone, pages);
      if all != [] {
        pool.Free(all);
      }
      Clear(now);
    }

    method Clear(now: int)
      requires pageSize == pool.pageSize >= 1 && pin == null
      modifies this
      ensures Valid() && pin == null && locks == map[] && fresh(tree.Keys) && own == map[] && Bindings() == map[]
    {
      hide RootOK, WF;
      root := new RadixNode(now, null, [], [], 0, GPU, []);
      cachedPageCount := 0;
      tree, refs, own, locks := map[root := Info(root)], map[root := 0], map[], map[];
      EmptyTree(tree, root, pageSize);
    }

    /** Takes a least recently used entry off the heap. */
    method PopOldest(heap: set<RadixNode>) returns (v: RadixNode)
      requires heap != {}
      ensures v in heap && forall m :: m in heap ==> v.lastAccess <= m.lastAccess
    {
      v :| v in heap;
      var rest := heap - {v};
      while rest != {}
        invariant rest <= heap && v in heap
        invariant forall m :: m in heap - rest ==> v.lastAccess <= m.lastAccess
        decreases rest
      {
        var m :| m in rest;
        if m.lastAccess < v.lastAccess {
          v := m;
        }
        rest := rest - {m};
      }
    }

    /** A leaf's pages are no longer counted and its parent forgets it. */
    method Detach(node: RadixNode) returns (parent: RadixNode)
      requires pageSize >= 1 && Synced() && node in tree && EdgeOK(tree, node, pageSize)
      requires node.parent != null && node.parent != node
      modifies this`tree, this`refs, this`own, this`cachedPageCount, node.parent`children
      ensures Synced() && State() == Drop(old(State()), node, pageSize) && parent == old(tree)[node].parent
      ensures cachedPageCount == old(cachedPageCount) - |old(tree)[node].pages|
    {
      assert InSync(node);
      parent := node.parent;
      assert InSync(parent);
      FirstPage(tree[node].path[Start(tree[node])..], pageSize);
      var childKey := ChildKey(node.key, pageSize);
      cachedPageCount := cachedPageCount - |node.pages|;
      parent.children := parent.children - {childKey};
      own := DropOwn(tree, own, node);
      refs := refs - {node};
      tree := DropTree(tree, node, pageSize);
      forall m {:trigger InSync(m)} | m in tree ensures InSync(m) {
        assert old(InSync(m));
      }
    }

    /** The removal of one leaf (`evict`, from `self.pool.free` to `del parent.children`). */
    method DropLeaf(node: RadixNode) returns (parent: RadixNode)
      requires pageSize >= 1 && Synced() && node in tree && EdgeOK(tree, node, pageSize)
      requires node.parent != null && node.parent != node
      modifies this`tree, this`refs, this`own, this`cachedPageCount, node.parent`children, pool`free
      ensures Synced() && State() == Drop(old(State()), node, pageSize) && parent == old(tree)[node].parent
      ensures pool.free == old(pool.free) + old(tree)[node].pages
      ensures cachedPageCount == old(cachedPageCount) - |old(tree)[node].pages|
    {
      assert InSync(node);
      pool.Free(node.pages);
      parent := Detach(node);
    }

    /** Gives a node other pages on another tier (the tiered cache moving it). */
    method MovePages(node: RadixNode, pages: seq<int>, tier: Tier)
      requires Synced() && node in tree
      modifies this`tree, node`pages, node`tier
      ensures Synced() && tree == MoveTree(old(tree), node, pages, tier)
    {
      assert InSync(node);
      node.pages, node.tier := pages, tier;
      tree := MoveTree(tree, node, pages, tier);
      forall m {:trigger InSync(m)} | m in tree ensures InSync(m) {
        assert old(InSync(m));
      }
    }

    /** The next entry off the heap.  Nothing on the heap has been locked, detached or given
        children since it was pushed, so the checks that skip stale entries never fire. */
    method NextVictim(heap: set<RadixNode>, ghost S: set<RadixNode>, ghost ages: map<RadixNode, int>)
      returns (v: RadixNode)
      requires heap == UnlockedLeaves(tree, refs, root) && heap != {} && AgesOf(S, ages) && tree.Keys <= S
      ensures v in heap && Victim(State(), root, ages, v)
    {
      v := PopOldest(heap);
      forall m {:trigger UnlockedLeaf(tree, refs, root, m)} | m in tree && UnlockedLeaf(tree, refs, root, m)
        ensures m in ages && ages[v] <= ages[m]
      {
        assert m in heap;
        assert m in S;
      }
    }

    /** One round of the eviction loop for the entry `node`. */
    method EvictNode(node: RadixNode, heap: set<RadixNode>) returns (heap': set<RadixNode>, n: nat)
      requires Valid() && pin == null && UnlockedLeaf(tree, refs, root, node)
      requires heap == UnlockedLeaves(tree, refs, root)
      modifies this`tree, this`refs, this`own, this`cachedPageCount, tree.Keys`children, pool`free
      ensures Valid() && State() == Drop(old(State()), node, pageSize)
      ensures heap' == UnlockedLeaves(tree, refs, root)
      ensures n == |old(tree)[node].pages| && pool.free == old(pool.free) + old(tree)[node].pages
    {
      hide UnlockedLeaves;
      ghost var s := State();
      DropGood(s, root, pageSize, locks, node);
      DropLeaves(s, root, pageSize, locks, node);
      OwnPath(tree, own, root, pageSize, tree[node].parent);
      assert InSync(node);
      n := |node.pages|;
      var parent := DropLeaf(node);
      heap' := heap - {node};
      assert InSync(parent);
      assert parent != root ==> EdgeOK(tree, parent, pageSize);
      if parent != root && parent.children == map[] && parent.refCount == 0 && parent.pages != [] {
        heap' := heap' + {parent};
      }
    }

    method EvictAged(node: RadixNode, heap: set<RadixNode>, ghost S: set<RadixNode>, ghost ages: map<RadixNode, int>)
      returns (heap': set<RadixNode>, n: nat)
      requires Valid() && pin == null && UnlockedLeaf(tree, refs, root, node) && AgesOf(S, ages)
      requires heap == UnlockedLeaves(tree, refs, root)
      modifies this`tree, this`refs, this`own, this`cachedPageCount, tree.Keys`children, pool`free
      ensures Valid() && State() == Drop(old(State()), node, pageSize) && AgesOf(S, ages)
      ensures heap' == UnlockedLeaves(tree, refs, root)
      ensures n == |old(tree)[node].pages| && pool.free == old(pool.free) + old(tree)[node].pages
    {
      heap', n := EvictNode(node, heap);
    }

    /** One round of the eviction loop. */
    method EvictRound(heap: set<RadixNode>, ghost s0: Snap, ghost S: set<RadixNode>, ghost ages: map<RadixNode, int>,
                      ghost vs: seq<RadixNode>, ghost base: seq<int>, ghost pages: seq<int>, ghost need: int)
      returns (heap': set<RadixNode>, n: nat, ghost v: RadixNode, ghost pages': seq<int>)
      requires Valid() && pin == null && heap == UnlockedLeaves(tree, refs, root) && heap != {}
      requires AgesOf(S, ages) && tree.Keys <= S && Run(s0, root, pageSize, ages, vs, State(), pages, need)
        && |pages| < need
      requires pool.free == base + pages
      modifies this`tree, this`refs, this`own, this`cachedPageCount, tree.Keys`children, pool`free
      ensures Valid() && heap' == UnlockedLeaves(tree, refs, root)
      ensures v in old(tree) && tree.Keys == old(tree.Keys) - {v} && AgesOf(S, ages)
      ensures n == |pages'| - |pages| && pool.free == base + pages'
      ensures Run(s0, root, pageSize, ages, vs + [v], State(), pages', need)
    {
      var node := NextVictim(heap, S, ages);
      v := node;
      RunStep(s0, root, pageSize, ages, vs, State(), pages, need, node);
      assert EdgeOK(tree, node, pageSize);
      pages' := pages + tree[node].pages;
      Joined(base, pages, tree[node].pages);
      heap', n := EvictAged(node, heap, S, ages);
    }

    method EvictLoop(first: set<RadixNode>, need: int, ghost ages: map<RadixNode, int>)
      returns (freed: int, ghost vs: seq<RadixNode>, ghost pages: seq<int>)
      requires Valid() && pin == null && first == UnlockedLeaves(tree, refs, root) && AgesOf(tree.Keys, ages)
      modifies this`tree, this`refs, this`own, this`cachedPageCount, tree.Keys`children, pool`free
      ensures Valid()
      ensures pool.free == old(pool.free) + pages && freed == |pages|
      ensures Run(old(State()), root, pageSize, ages, vs, State(), pages, need)
      ensures freed >= need || UnlockedLeaves(tree, refs, root) == {}
    {
      var heap := first;
      vs, pages, freed := [], [], 0;
      ghost var s0, S := State(), tree.Keys;
      RunStart(s0, root, pageSize, ages, need);
      while freed < need && heap != {}
        invariant Valid() && tree.Keys <= S
        invariant heap == UnlockedLeaves(tree, refs, root)
        invariant AgesOf(S, ages) && freed == |pages| && pool.free == old(pool.free) + pages
        invariant Run(s0, root, pageSize, ages, vs, State(), pages, need)
        decreases tree.Keys
      {
        var n;
        ghost var v;
        heap, n, v, pages := EvictRound(heap, s0, S, ages, vs, old(pool.free), pages, need);
        freed, vs := freed + n, vs + [v];
      }
    }

    /** `evict`: drops least recently used unlocked leaves, cascading to their parents, until
        enough pages are free or no unlocked page is left. */
    method Evict(need: int) returns (freed: int, ghost vs: seq<RadixNode>, ghost pages: seq<int>)
      requires Valid() && pin == null
      modifies this`tree, this`refs, this`own, this`cachedPageCount, tree.Keys`children, pool`free
      ensures Valid()
      ensures pool.free == old(pool.free) + pages && freed == |pages|
      ensures Run(old(State()), root, pageSize, old(AgesNow()), vs, State(), pages, need)
      ensures Step(old(View()), Eviction(Gone(old(State()), vs, pageSize), pages), View())
      ensures freed >= need || Evictable(own, refs) == {}
    {
      ghost var s, ages := State(), AgesNow();
      if need <= 0 {
        RunStart(s, root, pageSize, ages, need);
        EvictIsStep(s, root, pageSize, locks, ages, [], s, [], need);
        return 0, [], [];
      }
      var heap := CollectLeaves(root);
      RootReaches(tree, own, root, pageSize);
      freed, vs, pages := EvictLoop(heap, need, ages);
      NoLeafNoPageIf(tree, own, root, pageSize, refs, locks);
      EvictIsStep(s, root, pageSize, locks, ages, vs, State(), pages, need);
    }
  }

  /** The last `n` elements, last one first: what popping `n` times yields. */
  ghost function Popped(s: seq<int>, n: nat): seq<int>
    requires n <= |s|
  {
    seq(n, i requires 0 <= i < n => s[|s| - 1 - i])
  }

  class KVMemoryPool {
    const numPages: nat
    const pageSize: nat
    /** The cache tensors of all layers together. */
    const kv: array<PageData>
    var free: seq<int>
    var radixCache: RadixCache?

    constructor (numPages: nat, pageSize: nat)
      ensures this.numPages == numPages && this.pageSize == pageSize && radixCache == null
      ensures free == seq(numPages, i => i)
      ensures fresh(kv) && kv[..] == seq(numPages, _ => ZeroPage(pageSize))
    {
      this.numPages, this.pageSize, radixCache := numPages, pageSize, null;
      free := seq(numPages, i => i);
      kv := new PageData[numPages](_ => ZeroPage(pageSize));
    }

    /** `set_radix_cache` */
    method SetRadixCache(cache: RadixCache?)
      modifies this`radixCache
      ensures radixCache == cache
    {
      radixCache := cache;
    }

    /** `free` */
    method Free(pages: seq<int>)
      modifies this`free
      ensures free == old(free) + pages
    {
      free := free + pages;
    }

    /** Pops that many pages off the end of the free list. */
    method Pop(n: nat) returns (pages: seq<int>)
      requires n <= |free|
      modifies this`free
      ensures pages == Popped(old(free), n) && free == old(free)[..old(|free|) - n]
    {
      pages := [];
      while |pages| < n
        invariant |pages| <= n && pages == Popped(old(free), |pages|)
        invariant free == old(free)[..old(|free|) - |pages|]
        decreases n - |pages|
      {
        pages := pages + [free[|free| - 1]];
        free := free[..|free| - 1];
      }
    }

    /** The pages, if there are enough. */
    method PopIf(n: nat) returns (r: Option<seq<int>>)
      modifies this`free
      ensures if n <= old(|free|) then r == Some(Popped(old(free), n)) && free == old(free)[..old(|free|) - n]
              else r == None && free == old(free)
    {
      r := None;
      if n <= |free| {
        var got := Pop(n);
        r := Some(got);
      }
    }

    ghost function Caches(): set<RadixCache>
      reads this`radixCache
    {
      if radixCache == null then {} else {radixCache}
    }

    ghost function CacheNodes(): set<RadixNode>
      reads this`radixCache, Caches()`tree
    {
      if radixCache == null then {} else radixCache.tree.Keys
    }

    ghost predicate Attached()
      reads this`radixCache, Caches(), CacheNodes()
    {
      radixCache != null ==> radixCache.Valid() && radixCache.pin == null && radixCache.pool == this
    }

    /** `num_evictable` on the specification side: how many pages a sweep could free. */
    ghost function Reclaimable(): nat
      reads this`radixCache, Caches()`own, Caches()`refs
    {
      if radixCache == null then 0 else |Evictable(radixCache.own, radixCache.refs)|
    }

    /** The eviction `allocate` asks for when the free list is short. */
    method MakeRoom(n: nat) returns (ghost vs: seq<RadixNode>, ghost pages: seq<int>)
      requires Attached() && radixCache != null && n > |free|
      modifies this`free, Caches()`tree, Caches()`refs, Caches()`own, Caches()`cachedPageCount, CacheNodes()`children
      ensures Attached() && free == old(free) + pages
      ensures Run(old(radixCache.State()), radixCache.root, pageSize, old(radixCache.AgesNow()), vs, radixCache.State(),
        pages, n - old(|free|))
      ensures Step(old(radixCache.View()), Eviction(Gone(old(radixCache.State()), vs, pageSize), pages),
        radixCache.View())
      ensures Shrunk(old(radixCache.State()), radixCache.State())
      ensures n <= |free| <==> n <= old(|free|) + old(Reclaimable())
    {
      var freed;
      ghost var s := radixCache.State();
      freed, vs, pages := radixCache.Evict(n - |free|);
      RunGood(s, radixCache.root, pageSize, radixCache.locks, old(radixCache.AgesNow()), vs);
      RunShrunk(s, radixCache.root, pageSize, radixCache.locks, old(radixCache.AgesNow()), vs);
    }

    /** `allocate` up to its second test: evict when the free list is short. */
    method Reclaim(n: nat) returns (ghost vs: seq<RadixNode>, ghost gone: seq<Path>, ghost pages: seq<int>)
      requires Attached()
      modifies this`free, Caches()`tree, Caches()`refs, Caches()`own, Caches()`cachedPageCount, CacheNodes()`children
      ensures Attached() && free == old(free) + pages
      ensures n <= |free| <==> n <= old(|free|) + old(Reclaimable())
      ensures radixCache != null && n > old(|free|) ==>
        Run(old(radixCache.State()), radixCache.root, pageSize, old(radixCache.AgesNow()), vs, radixCache.State(),
          pages, n - old(|free|))
      ensures radixCache == null || n <= old(|free|) ==> pages == []
      ensures radixCache != null && n <= old(|free|) ==> radixCache.State() == old(radixCache.State())
      ensures radixCache != null ==>
        && Step(old(radixCache.View()), Eviction(gone, pages), radixCache.View())
        && Shrunk(old(radixCache.State()), radixCache.State())
    {
      if n > |free| && radixCache != null {
        ghost var s := radixCache.State();
        vs, pages := MakeRoom(n);
        gone := Gone(s, vs, pageSize);
      } else {
        vs, gone, pages := [], [], [];
        if radixCache != null {
          IdleEviction(radixCache.View());
          ShrunkSelf(radixCache.State());
        }
      }
    }

    /** `allocate`, with a plain cache or none attached; `None` stands for its `RuntimeError`.
        It succeeds exactly when the request is covered by the free pages and the pages the
        cache could evict.  For `n == 0` nothing is evicted and nothing is popped. */
    method Allocate(n: nat)
      returns (r: Option<seq<int>>, ghost vs: seq<RadixNode>, ghost gone: seq<Path>, ghost pages: seq<int>)
      requires Attached()
      modifies this`free, Caches()`tree, Caches()`refs, Caches()`own, Caches()`cachedPageCount, CacheNodes()`children
      ensures Attached()
      ensures r.Some? <==> n <= old(|free|) + old(Reclaimable())
      ensures var all := old(free) + pages;
        if r.Some? then n <= |all| && r.value == Popped(all, n) && free == all[..|all| - n] else free == all
      ensures radixCache != null && n > old(|free|) ==>
        Run(old(radixCache.State()), radixCache.root, pageSize, old(radixCache.AgesNow()), vs, radixCache.State(),
          pages, n - old(|free|))
      ensures radixCache == null || n <= old(|free|) ==> pages == []
      ensures radixCache != null && n <= old(|free|) ==> radixCache.State() == old(radixCache.State())
      ensures radixCache != null ==>
        && Step(old(radixCache.View()), Eviction(gone, pages), radixCache.View())
        && Shrunk(old(radixCache.State()), radixCache.State())
    {
      hide Caches, Run, CacheNodes, Popped, Step, Shrunk, Evictable, RadixCache.AgesNow;
      vs, gone, pages := Reclaim(n);
      r := PopIf(n);
    }
  }
}
