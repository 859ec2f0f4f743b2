/** The radix tree as a value: a snapshot of its nodes, and what it means to be well formed.

    `RadixNode` is the object of radix_cache.py:34-45 (with the `tier` of hicache.py:33-40).
    A `Tree` maps every node of a cache to a copy of its fields; an `Owners` map says, for
    every page-aligned prefix bound in the tree, which node holds the page of its last block.
    Lock counts live in a separate map, so that locking leaves the `Tree` alone. */
module TreeModel {
  import opened Paging

  datatype Tier = GPU | CPU

  class RadixNode {
    var parent: RadixNode?
    var children: map<Block, RadixNode>
    var key: seq<int>
    var pages: seq<int>
    var refCount: int
    var lastAccess: int
    var tier: Tier
    /** The tokens spelled from the root to the end of this node's edge. */
    ghost var path: Path

    /** A new node, with the fields its caller fills in right after creating it. */
    constructor (now: int, parent: RadixNode?, key: seq<int>, pages: seq<int>, refCount: int, tier: Tier,
                 ghost path: Path)
      ensures this.parent == parent && children == map[] && this.key == key && this.pages == pages
      ensures this.refCount == refCount && lastAccess == now && this.tier == tier && this.path == path
    {
      this.parent, children, this.key, this.pages := parent, map[], key, pages;
      this.refCount, lastAccess, this.tier, this.path := refCount, now, tier, path;
    }
  }

  datatype NodeInfo = NodeInfo(
    parent: RadixNode?, children: map<Block, RadixNode>,
    key: seq<int>, pages: seq<int>, tier: Tier, path: Path)

  type Tree = map<RadixNode, NodeInfo>
  type Owners = map<Path, RadixNode>

  /** Where a node's own edge begins. */
  ghost function Start(i: NodeInfo): int {
    |i.path| - |i.pages|
  }

  /** `p` ends on the edge of node `i`. */
  ghost predicate Covers(i: NodeInfo, p: Path) {
    Start(i) < |p| <= |i.path| && p <= i.path
  }

  // ---- well-formedness, one node at a time ----

  /** What holds of every node except the root: its edge is nonempty and page-aligned, and
      its parent lists it under the first page of the edge. */
  ghost predicate EdgeOK(T: Tree, n: RadixNode, P: nat)
    requires n in T
  {
    var i := T[n];
    && 0 < |i.pages| <= |i.path|
    && Uniform(i.path, P)
    && i.key == Flat(i.path[Start(i)..])
    && i.parent != null && i.parent in T
    && T[i.parent].path == i.path[..Start(i)]
    && i.path[Start(i)] in T[i.parent].children
    && T[i.parent].children[i.path[Start(i)]] == n
  }

  /** What holds of every child entry. */
  ghost predicate ChildOK(T: Tree, n: RadixNode, b: Block)
    requires n in T && b in T[n].children
  {
    var c := T[n].children[b];
    && c in T && T[c].parent == n
    && 0 < |T[c].pages| <= |T[c].path|
    && T[c].path[Start(T[c])] == b
  }

  ghost predicate RootOK(T: Tree, root: RadixNode) {
    root in T && T[root].path == [] && T[root].pages == [] && T[root].parent == null
  }

  ghost predicate Shape(T: Tree, root: RadixNode, P: nat) {
    && RootOK(T, root)
    && (forall n {:trigger EdgeOK(T, n, P)} :: n in T && n != root ==> EdgeOK(T, n, P))
    && (forall n, b {:trigger ChildOK(T, n, b)} :: n in T && b in T[n].children ==> ChildOK(T, n, b))
  }

  ghost predicate OwnerOK(T: Tree, own: Owners, p: Path)
    requires p in own
  {
    own[p] in T && Covers(T[own[p]], p)
  }

  /** `own` lists exactly the prefixes that end on some edge, each with that edge's node. */
  ghost predicate Owned(T: Tree, own: Owners) {
    && (forall p {:trigger OwnerOK(T, own, p)} :: p in own ==> OwnerOK(T, own, p))
    && (forall n, p {:trigger Covers(T[n], p)} :: n in T && Covers(T[n], p) ==> p in own && own[p] == n)
  }

  ghost predicate WF(T: Tree, own: Owners, root: RadixNode, P: nat) {
    Shape(T, root, P) && Owned(T, own)
  }

  // ---- consequences ----

  lemma OwnPath(T: Tree, own: Owners, root: RadixNode, P: nat, n: RadixNode)
    requires WF(T, own, root, P) && n in T
    ensures n != root ==> T[n].path in own && own[T[n].path] == n
    ensures n != root <==> T[n].path != []
  {
    if n != root {
      assert EdgeOK(T, n, P);
      assert Covers(T[n], T[n].path);
    }
  }

  /** No two nodes spell the same tokens. */
  lemma PathsUnique(T: Tree, own: Owners, root: RadixNode, P: nat, a: RadixNode, b: RadixNode)
    requires WF(T, own, root, P) && a in T && b in T && T[a].path == T[b].path
    ensures a == b
  {
    OwnPath(T, own, root, P, a);
    OwnPath(T, own, root, P, b);
  }

  /** A node whose path begins a strictly longer one lies above its parent. */
  lemma AncestorStep(T: Tree, own: Owners, root: RadixNode, P: nat, a: RadixNode, b: RadixNode)
    requires WF(T, own, root, P) && a in T && b in T && a != b && T[a].path <= T[b].path
    ensures b != root && EdgeOK(T, b, P)
    ensures T[a].path <= T[T[b].parent].path
  {
    OwnPath(T, own, root, P, a);
    OwnPath(T, own, root, P, b);
    assert EdgeOK(T, b, P);
    assert !Covers(T[b], T[a].path);
  }

  /** An edge crossed by a node's path belongs to an ancestor of that node. */
  lemma {:induction false} CoverDown(T: Tree, own: Owners, root: RadixNode, P: nat, n: RadixNode, p: Path, m: RadixNode)
    requires WF(T, own, root, P) && n in T && m in T && Covers(T[n], p) && p <= T[m].path
    requires n != root
    ensures T[n].path <= T[m].path
    decreases |T[m].path|
  {
    assert EdgeOK(T, n, P);
    OwnPath(T, own, root, P, m);
    assert EdgeOK(T, m, P);
    if !Covers(T[m], p) {
      CoverDown(T, own, root, P, n, p, T[m].parent);
    }
  }

  /** Every nonempty beginning of a node's path is bound. */
  lemma {:induction false} PathOwned(T: Tree, own: Owners, root: RadixNode, P: nat, m: RadixNode, p: Path)
    requires WF(T, own, root, P) && m in T && p <= T[m].path && p != []
    ensures p in own
    decreases |T[m].path|
  {
    OwnPath(T, own, root, P, m);
    assert EdgeOK(T, m, P);
    if !Covers(T[m], p) {
      PathOwned(T, own, root, P, T[m].parent, p);
    }
  }

  /** The bound prefixes are closed under taking beginnings. */
  lemma PrefixClosed(T: Tree, own: Owners, root: RadixNode, P: nat, p: Path, q: Path)
    requires WF(T, own, root, P) && p in own && q <= p && q != []
    ensures q in own
  {
    assert OwnerOK(T, own, p);
    PathOwned(T, own, root, P, own[p], q);
  }

  /** If a node has no child under the next page, no longer prefix is bound. */
  lemma NoChildNoPrefix(T: Tree, own: Owners, root: RadixNode, P: nat, n: RadixNode, p: Path)
    requires WF(T, own, root, P) && n in T
    requires |p| == |T[n].path| + 1 && p[..|p| - 1] == T[n].path && p[|p| - 1] !in T[n].children
    ensures p !in own
  {
    if p in own {
      var m := own[p];
      assert OwnerOK(T, own, p);
      OwnPath(T, own, root, P, m);
      OwnPath(T, own, root, P, n);
      assert EdgeOK(T, m, P);
      assert Covers(T[m], T[n].path) ==> m == n;
      assert T[T[m].parent].path == T[n].path;
      PathsUnique(T, own, root, P, T[m].parent, n);
      assert false;
    }
  }

  /** Below every proper beginning of a path there is a child leading towards it. */
  lemma {:induction false} ChildToward(T: Tree, own: Owners, root: RadixNode, P: nat, a: RadixNode, b: RadixNode)
    requires WF(T, own, root, P) && a in T && b in T && a != b && T[a].path <= T[b].path
    ensures |T[a].path| < |T[b].path| && T[b].path[|T[a].path|] in T[a].children
    ensures var c := T[a].children[T[b].path[|T[a].path|]]; c in T && c != root && T[c].path <= T[b].path
    decreases |T[b].path|
  {
    AncestorStep(T, own, root, P, a, b);
    var up := T[b].parent;
    if up != a {
      ChildToward(T, own, root, P, a, up);
    }
  }

  ghost predicate PathKept(T: Tree, T': Tree, n: RadixNode)
    requires n in T
  {
    n in T' && T'[n].path == T[n].path
  }

  /** Every node of `T` is still there and spells the same tokens. */
  ghost predicate PathsKept(T: Tree, T': Tree) {
    forall n {:trigger PathKept(T, T', n)} :: n in T ==> PathKept(T, T', n)
  }

  lemma PathsKeptTrans(T: Tree, T1: Tree, T2: Tree)
    requires PathsKept(T, T1) && PathsKept(T1, T2)
    ensures PathsKept(T, T2)
  {
    forall n {:trigger PathKept(T, T2, n)} | n in T ensures PathKept(T, T2, n) {
      assert PathKept(T, T1, n);
      assert PathKept(T1, T2, n);
    }
  }
}
