/** Matching against the two-tier tree (hicache.py:170-217).  A promotion on the way may demote
    nodes crossed earlier, so only the last node's pages are sure to be on the GPU and current. */
module TierWalk {
  import opened Paging
  import opened TreeModel
  import opened TreeOps
  import opened TreeWalk

  /** `n` is on the GPU and its pages are the last ones collected. */
  ghost predicate OnGpu(T: Tree, n: RadixNode, pages: seq<int>) {
    n in T && T[n].tier == GPU && |T[n].pages| <= |pages| && pages[|pages| - |T[n].pages|..] == T[n].pages
  }

  ghost predicate TierWalkAt(T: Tree, root: RadixNode, q: Path, k: nat, node: RadixNode, pages: seq<int>) {
    && k <= |q| && |pages| == k && node in T && T[node].path == q[..k]
    && (if k == 0 then node == root else OnGpu(T, node, pages))
  }

  /** What a lookup returns: exactly the longest beginning of `q` bound when it returns, and the
      node that holds the last page of it, which is on the GPU with the returned pages. */
  ghost predicate TierMatchOK(r: MatchResult, q: Path, T: Tree, own: Owners, root: RadixNode, P: nat) {
    var m := |r.matchedPages|;
    && Longest(Bind(T, own), q, m) && r.matchedTokens == m * P && r.lastNode in T
    && (if m == 0 then r.lastNode == root else
          && q[..m] in own && own[q[..m]] == r.lastNode && T[r.lastNode].tier == GPU
          && 0 <= Start(T[r.lastNode]) < m <= Start(T[r.lastNode]) + |T[r.lastNode].pages|
          && r.matchedPages[Start(T[r.lastNode])..] == T[r.lastNode].pages[..m - Start(T[r.lastNode])])
  }

  /** `c` looks as it did, except for where its pages are. */
  ghost predicate SamePlace(T: Tree, T': Tree, c: RadixNode) {
    c in T && c in T' && T'[c].path == T[c].path && |T'[c].pages| == |T[c].pages|
  }

  lemma BoundLongest(T: Tree, own: Owners, root: RadixNode, P: nat, q: Path, m: nat)
    requires WF(T, own, root, P) && m <= |q| && (m > 0 ==> q[..m] in own) && (m < |q| ==> q[..m + 1] !in own)
    ensures Longest(Bind(T, own), q, m)
  {
    var B := Bind(T, own);
    BindAt(T, own);
    forall j {:trigger q[..j]} | 0 < j <= m ensures q[..j] in B {
      assert q[..j] <= q[..m];
      PrefixClosed(T, own, root, P, q[..m], q[..j]);
    }
    forall j {:trigger q[..j]} | m < j <= |q| ensures q[..j] !in B {
      if q[..j] in own {
        assert q[..m + 1] <= q[..j];
        PrefixClosed(T, own, root, P, q[..j], q[..m + 1]);
      }
    }
  }

  lemma TierWalkEnds(T: Tree, own: Owners, root: RadixNode, P: nat, q: Path, k: nat, node: RadixNode, pages: seq<int>)
    requires WF(T, own, root, P) && TierWalkAt(T, root, q, k, node, pages)
    requires k < |q| ==> q[..k + 1] !in own
    ensures TierMatchOK(MatchResult(pages, k * P, node), q, T, own, root, P)
  {
    OwnPath(T, own, root, P, node);
    if k > 0 {
      assert EdgeOK(T, node, P);
    }
    BoundLongest(T, own, root, P, q, k);
    assert k > 0 ==> T[node].pages[..|T[node].pages|] == T[node].pages;
  }

  lemma TierWalkFull(T: Tree, T': Tree, root: RadixNode, q: Path, k: nat, c: RadixNode, pages: seq<int>)
    requires OnWay(T, q, k, c) && Shared(T, q, k, c) == |T[c].pages| && |pages| == k
    requires SamePlace(T, T', c) && T'[c].tier == GPU
    ensures TierWalkAt(T', root, q, k + |T[c].pages|, c, pages + T'[c].pages)
  {
    FullEdge(T, q, k, c);
  }

  lemma TierWalkPartial(T: Tree, own: Owners, T': Tree, own': Owners, root: RadixNode, P: nat, q: Path, k: nat,
                        c: RadixNode, pages: seq<int>)
    requires WF(T, own, root, P) && WF(T', own', root, P) && own'.Keys <= own.Keys
    requires OnWay(T, q, k, c) && Shared(T, q, k, c) < |T[c].pages| && |pages| == k && c != root
    requires SamePlace(T, T', c) && T'[c].tier == GPU
    ensures var r := Shared(T, q, k, c);
      TierMatchOK(MatchResult(pages + T'[c].pages[..r], (k + r) * P, c), q, T', own', root, P)
  {
    var r := Shared(T, q, k, c);
    SharedCovered(T, q, k, c, k + r);
    assert Covers(T'[c], q[..k + r]);
    if k + r < |q| {
      EdgeDiverges(T, own, root, P, q, k, c);
    }
    BoundLongest(T', own', root, P, q, k + r);
  }
}
