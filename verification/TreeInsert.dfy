/** What `insert_and_return` reports back as redundant (radix_cache.py:173-213). */
module TreeInsert {
  import opened Paging
  import opened TreeModel
  import opened TreeOps
  import opened TreeLocks
  import opened TreeCount
  import opened TreeWalk

  /** The incoming page for position `i` of `q` is reported: `i` lies on an edge that `q`
      crosses to its end, and the run of incoming pages differs somewhere on that edge. */
  ghost predicate Reported(T: Tree, own: Owners, q: Path, S: seq<int>, i: nat)
    requires i < |q| <= |S| && q[..i + 1] in own
  {
    var e := own[q[..i + 1]];
    && e in T && 0 <= Start(T[e]) && |T[e].path| <= |q|
    && T[e].path <= q && S[Start(T[e])..|T[e].path|] != T[e].pages
  }

  /** The reported pages from position `i` on, in order. */
  ghost function RedundantFrom(T: Tree, own: Owners, q: Path, S: seq<int>, i: nat): seq<int>
    requires i <= |q| <= |S|
    decreases |q| - i
  {
    if i == |q| || q[..i + 1] !in own then []
    else (if Reported(T, own, q, S, i) then [S[i]] else []) + RedundantFrom(T, own, q, S, i + 1)
  }

  /** On one edge the answer is the same for every page. */
  lemma SharedReported(T: Tree, own: Owners, q: Path, S: seq<int>, k: nat, c: RadixNode, i: nat)
    requires Owned(T, own) && OnWay(T, q, k, c) && |q| <= |S| && k <= i < k + Shared(T, q, k, c)
    ensures q[..i + 1] in own && own[q[..i + 1]] == c
    ensures Reported(T, own, q, S, i) <==>
      Shared(T, q, k, c) == |T[c].pages| && S[k..k + |T[c].pages|] != T[c].pages
  {
    SharedCovered(T, q, k, c, i + 1);
    if T[c].path <= q {
      assert T[c].path[k..] <= q[k..];
      CommonIs(T[c].path[k..], q[k..], |T[c].path| - k);
    }
    if Shared(T, q, k, c) == |T[c].pages| {
      FullEdge(T, q, k, c);
    }
  }

  lemma {:induction false} CrossReported(T: Tree, own: Owners, q: Path, S: seq<int>, k: nat, c: RadixNode, i: nat)
    requires Owned(T, own) && OnWay(T, q, k, c) && |q| <= |S| && k <= i <= k + Shared(T, q, k, c)
    ensures var e := k + Shared(T, q, k, c);
      var differ := Shared(T, q, k, c) == |T[c].pages| && S[k..k + |T[c].pages|] != T[c].pages;
      RedundantFrom(T, own, q, S, i) == (if differ then S[i..e] else []) + RedundantFrom(T, own, q, S, e)
    decreases k + Shared(T, q, k, c) - i
  {
    var e := k + Shared(T, q, k, c);
    if i < e {
      SharedReported(T, own, q, S, k, c, i);
      CrossReported(T, own, q, S, k, c, i + 1);
      HeadSlice(S, i, e, RedundantFrom(T, own, q, S, e));
    } else {
      assert S[i..e] == [];
    }
  }

  lemma HeadSlice(S: seq<int>, i: nat, e: nat, rest: seq<int>)
    requires i < e <= |S|
    ensures S[i..e] + rest == [S[i]] + (S[i + 1..e] + rest)
  {}

  /** Where the walk of an insertion stops, nothing further is reported. */
  lemma StopReported(T: Tree, own: Owners, q: Path, S: seq<int>, k: nat)
    requires k <= |q| <= |S| && (k < |q| ==> q[..k + 1] !in own)
    ensures RedundantFrom(T, own, q, S, k) == []
  {}

  lemma LeafPaths(T: Tree, n: RadixNode, leaf: RadixNode, q: Path, pages: seq<int>)
    requires n in T && leaf !in T && |T[n].path| < |q| && |pages| == |q| - |T[n].path|
    ensures PathsKept(T, LeafTree(T, n, leaf, q, pages))
  {
    var T' := LeafTree(T, n, leaf, q, pages);
    forall m {:trigger PathKept(T, T', m)} | m in T ensures PathKept(T, T', m) {}
  }

  lemma SplitPaths(T: Tree, P: nat, n: RadixNode, mid: RadixNode, k: nat)
    requires n in T && mid !in T && EdgeOK(T, n, P) && 0 < k < |T[n].pages|
    ensures PathsKept(T, SplitTree(T, n, mid, k, P))
  {
    var T' := SplitTree(T, n, mid, k, P);
    forall m {:trigger PathKept(T, T', m)} | m in T ensures PathKept(T, T', m) {}
  }

  /** What an insertion leaves alone: where the old nodes are, and what the CPU tier holds. */
  ghost predicate Grown(T: Tree, own: Owners, T': Tree, own': Owners) {
    PathsKept(T, T') && TierBind(T', own', CPU) == TierBind(T, own, CPU)
  }

  lemma GrownTrans(T: Tree, own: Owners, T1: Tree, own1: Owners, T2: Tree, own2: Owners)
    requires Grown(T, own, T1, own1) && Grown(T1, own1, T2, own2)
    ensures Grown(T, own, T2, own2)
  {
    PathsKeptTrans(T, T1, T2);
  }

  lemma LeafThere(T: Tree, n: RadixNode, leaf: RadixNode, q: Path, pages: seq<int>)
    requires n in T && leaf !in T && |T[n].path| < |q| && |pages| == |q| - |T[n].path|
    ensures LeafTree(T, n, leaf, q, pages).Keys == T.Keys + {leaf} && LeafTree(T, n, leaf, q, pages)[leaf].path == q
  {}

  lemma LeafAll(T: Tree, own: Owners, root: RadixNode, P: nat, refs: Refs, locks: Locks, n: RadixNode, leaf: RadixNode,
                q: Path, k: nat, all: seq<int>, T': Tree, own': Owners)
    requires WF(T, own, root, P) && Counted(T, root, refs, locks, null) && Uniform(q, P)
    requires n in T && leaf !in T && k < |q| <= |all| && T[n].path == q[..k] && q[..k + 1] !in own
    requires T' == LeafTree(T, n, leaf, q, all[k..|q|]) && own' == LeafOwn(own, k, leaf, q)
    ensures WF(T', own', root, P) && Counted(T', root, refs[leaf := 0], locks, null)
    ensures Bind(T', own') == Insert(Bind(T, own), q, all)
    ensures |own'| == |own| + (|q| - k) && Grown(T, own, T', own')
  {
    if q[k] in T[n].children {
      ChildOnWay(T, own, root, P, n, q, k);
      ChildBinds(T, own, q, k, T[n].children[q[k]]);
    }
    LeafWF(T, own, root, P, n, leaf, q, all[k..|q|]);
    LeafTier(T, own, root, P, n, leaf, q, all[k..|q|]);
    LeafBind(T, own, root, P, n, leaf, q, all);
    LeafCounted(T, own, root, P, refs, locks, null, n, leaf, q, all[k..|q|]);
    LeafSize(T, own, root, P, n, leaf, q);
    LeafPaths(T, n, leaf, q, all[k..|q|]);
  }

  lemma SplitAll(T: Tree, own: Owners, root: RadixNode, P: nat, refs: Refs, locks: Locks, n: RadixNode, mid: RadixNode,
                 k: nat, T': Tree, own': Owners)
    requires WF(T, own, root, P) && Counted(T, root, refs, locks, null)
    requires n in T && n != root && mid !in T && EdgeOK(T, n, P) && 0 < k < |T[n].pages|
    requires T' == SplitTree(T, n, mid, k, P) && own' == SplitOwn(T, own, n, mid, k)
    ensures WF(T', own', root, P) && Counted(T', root, refs[mid := refs[n]], locks, null)
    ensures Bind(T', own') == Bind(T, own) && own'.Keys == own.Keys && |own'| == |own|
    ensures Grown(T, own, T', own') && T'[mid].path == T[n].path[..Start(T[n]) + k]
  {
    SplitTier(T, own, root, P, n, mid, k, CPU);
    SplitWF(T, own, root, P, n, mid, k);
    SplitBind(T, own, root, P, n, mid, k);
    SplitCounted(T, own, root, P, refs, locks, n, mid, k);
    SplitSize(T, own, n, mid, k);
    SplitPaths(T, P, n, mid, k);
  }

  /** When all of `q` is bound, inserting it changes nothing. */
  lemma InsertBound(T: Tree, own: Owners, root: RadixNode, P: nat, n: RadixNode, q: Path, all: seq<int>)
    requires WF(T, own, root, P) && n in T && T[n].path == q && |all| >= |q|
    ensures Insert(Bind(T, own), q, all) == Bind(T, own)
  {
    BindAt(T, own);
    BetweenAll(q, 0, |q|);
    forall p {:trigger p in own} | p in Beginnings(q) ensures p in own {
      PathOwned(T, own, root, P, n, p);
    }
  }

  /** A child on the way binds one page more of the query. */
  lemma ChildBinds(T: Tree, own: Owners, q: Path, k: nat, c: RadixNode)
    requires Owned(T, own) && OnWay(T, q, k, c)
    ensures q[..k + 1] in own
  {
    SharedCovered(T, q, k, c, k + 1);
  }

  /** Crossing a whole edge adds its incoming run to the report when the two runs differ. */
  lemma AccountFull(T: Tree, own: Owners, q: Path, S: seq<int>, k: nat, c: RadixNode, red: seq<int>, all: seq<int>)
    requires Owned(T, own) && OnWay(T, q, k, c) && |q| <= |S| && Shared(T, q, k, c) == |T[c].pages|
    requires red + RedundantFrom(T, own, q, S, k) == all
    ensures var run := S[k..k + |T[c].pages|];
      (if run != T[c].pages then red + run else red) + RedundantFrom(T, own, q, S, k + |T[c].pages|) == all
  {
    CrossReported(T, own, q, S, k, c, k);
  }

  /** An edge that the query leaves, or that it ends inside, adds nothing. */
  lemma AccountPart(T: Tree, own: Owners, root: RadixNode, P: nat, q: Path, S: seq<int>, k: nat, c: RadixNode)
    requires WF(T, own, root, P) && OnWay(T, q, k, c) && c != root && |q| <= |S|
    requires Shared(T, q, k, c) < |T[c].pages|
    ensures k + Shared(T, q, k, c) < |q| ==> q[..k + Shared(T, q, k, c) + 1] !in own
    ensures RedundantFrom(T, own, q, S, k) == []
  {
    var e := k + Shared(T, q, k, c);
    CrossReported(T, own, q, S, k, c, k);
    if e < |q| {
      EdgeDiverges(T, own, root, P, q, k, c);
    }
    StopReported(T, own, q, S, e);
  }
}
