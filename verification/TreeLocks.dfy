/** Lock accounting (radix_cache.py:132-148).

    `locks` records the outstanding locks: who holds one and on which node.  A node's
    `ref_count` must equal the number of locks held on nodes of its subtree, plus one while
    the tiered cache pins the node for promotion (hicache.py:308-312). */
module TreeLocks {
  import opened Paging
  import opened TreeModel
  import opened TreeOps

  type Refs = map<RadixNode, int>
  type Locks = map<object, RadixNode>

  /** The holders of locks on `n` or on nodes below it. */
  ghost function Under(T: Tree, locks: Locks, n: RadixNode): set<object>
    requires n in T
  {
    set h | h in locks && locks[h] in T && T[n].path <= T[locks[h]].path
  }

  ghost predicate RefOK(T: Tree, refs: Refs, locks: Locks, pin: RadixNode?, n: RadixNode)
    requires n in T
  {
    n in refs && refs[n] == |Under(T, locks, n)| + (if n == pin then 1 else 0)
  }

  ghost predicate HolderOK(T: Tree, root: RadixNode, locks: Locks, h: object)
    requires h in locks
  {
    locks[h] in T && locks[h] != root
  }

  ghost predicate Counted(T: Tree, root: RadixNode, refs: Refs, locks: Locks, pin: RadixNode?) {
    && refs.Keys == T.Keys
    && root in T && refs[root] == 0
    && (forall h {:trigger HolderOK(T, root, locks, h)} :: h in locks ==> HolderOK(T, root, locks, h))
    && (forall n {:trigger RefOK(T, refs, locks, pin, n)} :: n in T && n != root ==> RefOK(T, refs, locks, pin, n))
  }

  lemma SubsetCard<X>(a: set<X>, b: set<X>)
    requires a <= b
    ensures |a| <= |b|
  {
    assert b == a + (b - a);
  }

  lemma EmptyCard<X>(a: set<X>)
    requires |a| == 0
    ensures a == {}
  {}

  /** Counts are never negative, and a parent's count is at least each child's. */
  lemma CountsMonotone(T: Tree, root: RadixNode, refs: Refs, locks: Locks, a: RadixNode, b: RadixNode)
    requires Counted(T, root, refs, locks, null) && a in T && b in T && a != root && b != root
    requires T[a].path <= T[b].path
    ensures 0 <= refs[b] <= refs[a]
  {
    assert RefOK(T, refs, locks, null, a);
    assert RefOK(T, refs, locks, null, b);
    assert Under(T, locks, b) <= Under(T, locks, a);
    SubsetCard(Under(T, locks, b), Under(T, locks, a));
  }

  /** A node without locks has no lock anywhere below it. */
  lemma UnlockedBelow(T: Tree, root: RadixNode, refs: Refs, locks: Locks, pin: RadixNode?, a: RadixNode, b: RadixNode)
    requires Counted(T, root, refs, locks, pin) && a in T && b in T && a != root && b != root
    requires T[a].path <= T[b].path && refs[a] == 0
    ensures Under(T, locks, b) == {} && Under(T, locks, a) == {} && a != pin
    ensures b != pin ==> refs[b] == 0
  {
    assert RefOK(T, refs, locks, pin, a);
    assert RefOK(T, refs, locks, pin, b);
    EmptyCard(Under(T, locks, a));
    assert Under(T, locks, b) <= Under(T, locks, a);
  }

  /** Every prefix of a locked node's path sits on a locked node. */
  lemma LockedPrefix(T: Tree, own: Owners, root: RadixNode, P: nat, refs: Refs, locks: Locks, pin: RadixNode?,
                     h: object, p: Path)
    requires WF(T, own, root, P) && Counted(T, root, refs, locks, pin)
    requires h in locks && locks[h] in T && p in own && p <= T[locks[h]].path
    ensures own[p] in refs && refs[own[p]] > 0
  {
    var n := own[p];
    assert OwnerOK(T, own, p);
    OwnPath(T, own, root, P, n);
    assert n != root;
    CoverDown(T, own, root, P, n, p, locks[h]);
    assert RefOK(T, refs, locks, pin, n);
    assert h in Under(T, locks, n);
    SubsetCard({h}, Under(T, locks, n));
  }

  // ---- taking and releasing a lock ----

  /** The counts with `d` added on every node from `node` up to, not including, the root. */
  ghost function Bump(T: Tree, root: RadixNode, refs: Refs, node: RadixNode, d: int): Refs
    requires node in T
  {
    map n | n in refs :: if n != root && n in T && T[n].path <= T[node].path then refs[n] + d else refs[n]
  }

  /** A walk from `node` towards the root has changed the counts of everything below `at`. */
  ghost function BumpBelow(T: Tree, refs: Refs, node: RadixNode, at: RadixNode, d: int): Refs
    requires node in T && at in T
  {
    map n | n in refs ::
      if n in T && T[n].path <= T[node].path && |T[n].path| > |T[at].path| then refs[n] + d else refs[n]
  }

  lemma BumpStart(T: Tree, refs: Refs, node: RadixNode, d: int)
    requires node in T
    ensures BumpBelow(T, refs, node, node, d) == refs
  {}

  lemma BumpEnd(T: Tree, own: Owners, root: RadixNode, P: nat, refs: Refs, node: RadixNode, d: int)
    requires WF(T, own, root, P) && node in T
    ensures BumpBelow(T, refs, node, root, d) == Bump(T, root, refs, node, d)
    ensures node == root ==> Bump(T, root, refs, node, d) == refs
  {
    forall n {:trigger n in T} | n in T ensures n != root <==> |T[n].path| > 0 {
      OwnPath(T, own, root, P, n);
    }
  }

  /** Going from `at` to its parent passes exactly `at`. */
  lemma BumpStep(T: Tree, own: Owners, root: RadixNode, P: nat, refs: Refs, node: RadixNode, at: RadixNode, d: int)
    requires WF(T, own, root, P) && node in T && at in T && at != root && refs.Keys == T.Keys
    requires T[at].path <= T[node].path
    ensures EdgeOK(T, at, P) && T[T[at].parent].path <= T[node].path && |T[T[at].parent].path| < |T[at].path|
    ensures var done := BumpBelow(T, refs, node, at, d);
      at in done && BumpBelow(T, refs, node, T[at].parent, d) == done[at := done[at] + d]
  {
    assert EdgeOK(T, at, P);
    var up := T[at].parent;
    forall n {:trigger n in T} | n in T && T[n].path <= T[node].path
      ensures |T[n].path| > |T[up].path| <==> |T[n].path| > |T[at].path| || n == at
    {
      if |T[n].path| <= |T[at].path| {
        assert T[n].path <= T[at].path;
        if n != at { AncestorStep(T, own, root, P, n, at); }
      }
    }
  }

  lemma UnderAdd(T: Tree, locks: Locks, node: RadixNode, h: object, n: RadixNode)
    requires node in T && h !in locks && n in T
    ensures T[n].path <= T[node].path ==> Under(T, locks[h := node], n) == Under(T, locks, n) + {h}
    ensures !(T[n].path <= T[node].path) ==> Under(T, locks[h := node], n) == Under(T, locks, n)
    ensures h !in Under(T, locks, n)
  {}

  lemma LockCounted(T: Tree, root: RadixNode, refs: Refs, locks: Locks, pin: RadixNode?, node: RadixNode, h: object)
    requires Counted(T, root, refs, locks, pin) && node in T && node != root && h !in locks
    ensures Counted(T, root, Bump(T, root, refs, node, 1), locks[h := node], pin)
  {
    var refs' := Bump(T, root, refs, node, 1);
    var locks' := locks[h := node];
    forall g {:trigger HolderOK(T, root, locks', g)} | g in locks' ensures HolderOK(T, root, locks', g) {
      if g != h { assert HolderOK(T, root, locks, g); }
    }
    forall n {:trigger RefOK(T, refs', locks', pin, n)} | n in T && n != root ensures RefOK(T, refs', locks', pin, n) {
      assert RefOK(T, refs, locks, pin, n);
      UnderAdd(T, locks, node, h, n);
    }
  }

  lemma UnlockCounted(T: Tree, root: RadixNode, refs: Refs, locks: Locks, pin: RadixNode?, h: object)
    requires Counted(T, root, refs, locks, pin) && h in locks && locks[h] in T
    ensures Counted(T, root, Bump(T, root, refs, locks[h], -1), locks - {h}, pin)
  {
    var node := locks[h];
    var refs' := Bump(T, root, refs, node, -1);
    var locks' := locks - {h};
    forall g {:trigger HolderOK(T, root, locks', g)} | g in locks' ensures HolderOK(T, root, locks', g) {
      assert HolderOK(T, root, locks, g);
    }
    forall n {:trigger RefOK(T, refs', locks', pin, n)} | n in T && n != root ensures RefOK(T, refs', locks', pin, n) {
      assert RefOK(T, refs, locks, pin, n);
      UnderAdd(T, locks', node, h, n);
      assert locks'[h := node] == locks;
    }
  }

  // ---- structural updates keep the counts ----

  lemma SplitCounted(T: Tree, own: Owners, root: RadixNode, P: nat, refs: Refs, locks: Locks, n: RadixNode,
                     mid: RadixNode, k: nat)
    requires WF(T, own, root, P) && Counted(T, root, refs, locks, null)
    requires n in T && n != root && mid !in T && EdgeOK(T, n, P) && 0 < k < |T[n].pages|
    ensures Counted(SplitTree(T, n, mid, k, P), root, refs[mid := refs[n]], locks, null)
  {
    var T' := SplitTree(T, n, mid, k, P);
    var refs' := refs[mid := refs[n]];
    forall h {:trigger HolderOK(T', root, locks, h)} | h in locks ensures HolderOK(T', root, locks, h) {
      assert HolderOK(T, root, locks, h);
    }
    forall m {:trigger RefOK(T', refs', locks, null, m)} | m in T' && m != root
      ensures RefOK(T', refs', locks, null, m)
    {
      if m == mid {
        assert RefOK(T, refs, locks, null, n);
        SplitUnder(T, own, root, P, refs, locks, n, mid, k);
      } else {
        assert RefOK(T, refs, locks, null, m);
        SplitUnderOther(T, root, refs, locks, n, mid, k, P, m);
      }
    }
  }

  lemma SplitUnderOther(T: Tree, root: RadixNode, refs: Refs, locks: Locks, n: RadixNode, mid: RadixNode, k: nat,
                        P: nat, m: RadixNode)
    requires Counted(T, root, refs, locks, null) && m in T
    requires n in T && mid !in T && EdgeOK(T, n, P) && 0 < k < |T[n].pages|
    ensures Under(SplitTree(T, n, mid, k, P), locks, m) == Under(T, locks, m)
  {
    forall h | h in locks ensures locks[h] != mid {
      assert HolderOK(T, root, locks, h);
    }
  }

  lemma SplitUnder(T: Tree, own: Owners, root: RadixNode, P: nat, refs: Refs, locks: Locks, n: RadixNode,
                   mid: RadixNode, k: nat)
    requires WF(T, own, root, P) && Counted(T, root, refs, locks, null)
    requires n in T && n != root && mid !in T && EdgeOK(T, n, P) && 0 < k < |T[n].pages|
    ensures Under(SplitTree(T, n, mid, k, P), locks, mid) == Under(T, locks, n)
  {
    var T' := SplitTree(T, n, mid, k, P);
    var cut := T'[mid].path;
    forall h | h in locks
      ensures locks[h] in T && locks[h] != mid && T'[locks[h]].path == T[locks[h]].path
      ensures cut <= T[locks[h]].path <==> T[n].path <= T[locks[h]].path
    {
      assert HolderOK(T, root, locks, h);
      if cut <= T[locks[h]].path {
        CoverDown(T, own, root, P, n, cut, locks[h]);
      }
    }
  }

  lemma LeafCounted(T: Tree, own: Owners, root: RadixNode, P: nat, refs: Refs, locks: Locks, pin: RadixNode?,
                    n: RadixNode, leaf: RadixNode, q: Path, pages: seq<int>)
    requires WF(T, own, root, P) && Counted(T, root, refs, locks, pin) && leaf != pin
    requires n in T && leaf !in T && T[n].path <= q && |T[n].path| < |q| && |pages| == |q| - |T[n].path|
    requires q[|T[n].path|] !in T[n].children
    ensures Counted(LeafTree(T, n, leaf, q, pages), root, refs[leaf := 0], locks, pin)
  {
    var T' := LeafTree(T, n, leaf, q, pages);
    var refs' := refs[leaf := 0];
    FreshPrefixes(T, own, root, P, n, q);
    forall h {:trigger HolderOK(T', root, locks, h)} | h in locks
      ensures HolderOK(T', root, locks, h) && locks[h] in T && !(q <= T[locks[h]].path)
    {
      assert HolderOK(T, root, locks, h);
      if q <= T[locks[h]].path { PathOwned(T, own, root, P, locks[h], q); }
    }
    forall m {:trigger RefOK(T', refs', locks, pin, m)} | m in T' && m != root ensures RefOK(T', refs', locks, pin, m) {
      forall h | h in locks ensures locks[h] in T && !(q <= T[locks[h]].path) {
        assert HolderOK(T', root, locks, h);
      }
      if m == leaf {
        assert Under(T', locks, leaf) == {};
      } else {
        assert RefOK(T, refs, locks, pin, m);
        assert Under(T', locks, m) == Under(T, locks, m);
      }
    }
  }

  lemma DropCounted(T: Tree, own: Owners, root: RadixNode, P: nat, refs: Refs, locks: Locks, pin: RadixNode?,
                    n: RadixNode)
    requires WF(T, own, root, P) && Counted(T, root, refs, locks, pin)
    requires n in T && n != root && EdgeOK(T, n, P) && refs[n] == 0
    ensures Counted(DropTree(T, n, P), root, refs - {n}, locks, pin)
  {
    var T' := DropTree(T, n, P);
    var refs' := refs - {n};
    UnlockedBelow(T, root, refs, locks, pin, n, n);
    var here := Under(T, locks, n);
    forall h {:trigger HolderOK(T', root, locks, h)} | h in locks
      ensures HolderOK(T', root, locks, h) && locks[h] != n && locks[h] in T
    {
      assert HolderOK(T, root, locks, h);
      assert locks[h] == n ==> h in here;
    }
    OwnPath(T, own, root, P, n);
    forall m {:trigger RefOK(T', refs', locks, pin, m)} | m in T' && m != root ensures RefOK(T', refs', locks, pin, m) {
      forall h | h in locks ensures locks[h] in T && locks[h] != n {
        assert HolderOK(T', root, locks, h);
      }
      assert RefOK(T, refs, locks, pin, m);
      assert Under(T', locks, m) == Under(T, locks, m);
    }
  }

  lemma MoveCounted(T: Tree, root: RadixNode, refs: Refs, locks: Locks, pin: RadixNode?, n: RadixNode, pages: seq<int>,
                    tier: Tier)
    requires Counted(T, root, refs, locks, pin) && n in T
    ensures Counted(MoveTree(T, n, pages, tier), root, refs, locks, pin)
  {
    var T' := MoveTree(T, n, pages, tier);
    forall h {:trigger HolderOK(T', root, locks, h)} | h in locks ensures HolderOK(T', root, locks, h) {
      assert HolderOK(T, root, locks, h);
    }
    forall m {:trigger RefOK(T', refs, locks, pin, m)} | m in T' && m != root ensures RefOK(T', refs, locks, pin, m) {
      assert RefOK(T, refs, locks, pin, m);
      assert Under(T', locks, m) == Under(T, locks, m);
    }
  }

  /** Pinning one node for promotion, and letting it go again. */
  lemma PinCounted(T: Tree, root: RadixNode, refs: Refs, locks: Locks, n: RadixNode)
    requires n in T && n != root && refs.Keys == T.Keys
    ensures Counted(T, root, refs, locks, null) ==> Counted(T, root, refs[n := refs[n] + 1], locks, n)
    ensures Counted(T, root, refs, locks, n) ==> Counted(T, root, refs[n := refs[n] - 1], locks, null)
  {
    var up, down := refs[n := refs[n] + 1], refs[n := refs[n] - 1];
    if Counted(T, root, refs, locks, null) {
      forall m {:trigger RefOK(T, up, locks, n, m)} | m in T && m != root ensures RefOK(T, up, locks, n, m) {
        assert RefOK(T, refs, locks, null, m);
      }
    }
    if Counted(T, root, refs, locks, n) {
      forall m {:trigger RefOK(T, down, locks, null, m)} | m in T && m != root ensures RefOK(T, down, locks, null, m) {
        assert RefOK(T, refs, locks, n, m);
      }
    }
  }
}
