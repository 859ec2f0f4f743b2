/** Walking down the tree along a query: what one edge contributes, where the walk stops, and
    what the pages collected on the way mean (radix_cache.py:101-130, 173-213). */
module TreeWalk {
  import opened Paging
  import opened TreeModel
  import opened TreeOps

  /** `pages` are the pages bound to the successive beginnings of `q`. */
  ghost predicate PagesMatch(B: map<Path, int>, q: Path, pages: seq<int>) {
    |pages| <= |q| &&
    forall i {:trigger PageAt(B, q, pages, i)} :: 0 <= i < |pages| ==> PageAt(B, q, pages, i)
  }

  ghost predicate PageAt(B: map<Path, int>, q: Path, pages: seq<int>, i: nat)
    requires i < |pages| <= |q|
  {
    q[..i + 1] in B && B[q[..i + 1]] == pages[i]
  }

  /** `m` pages of `q` are bound and no more. */
  ghost predicate Longest(B: map<Path, int>, q: Path, m: nat) {
    && m <= |q|
    && (forall j {:trigger q[..j]} :: 0 < j <= m ==> q[..j] in B)
    && (forall j {:trigger q[..j]} :: m < j <= |q| ==> q[..j] !in B)
  }

  lemma LongestUnique(B: map<Path, int>, q: Path, m: nat, m': nat)
    requires Longest(B, q, m) && Longest(B, q, m')
    ensures m == m'
  {
    var a, b := q[..m], q[..m'];
  }

  /** The child `c` continues the walk for `q` after `k` pages. */
  ghost predicate OnWay(T: Tree, q: Path, k: nat, c: RadixNode) {
    && c in T && k < |q| && 0 < |T[c].pages| <= |T[c].path|
    && Start(T[c]) == k && T[c].path[..k] == q[..k] && T[c].path[k] == q[k]
  }

  /** How many pages of the edge of `c` the query shares. */
  ghost function Shared(T: Tree, q: Path, k: nat, c: RadixNode): (r: nat)
    requires OnWay(T, q, k, c)
    ensures 0 < r <= |T[c].pages| && r <= |q| - k
  {
    Common(T[c].path[k..], q[k..])
  }

  lemma ChildOnWay(T: Tree, own: Owners, root: RadixNode, P: nat, n: RadixNode, q: Path, k: nat)
    requires WF(T, own, root, P) && n in T && k < |q| && T[n].path == q[..k] && q[k] in T[n].children
    ensures OnWay(T, q, k, T[n].children[q[k]]) && T[n].children[q[k]] != root
    ensures EdgeOK(T, T[n].children[q[k]], P)
  {
    var c := T[n].children[q[k]];
    assert ChildOK(T, n, q[k]);
    OwnPath(T, own, root, P, c);
    assert EdgeOK(T, c, P);
  }

  /** The shared part of the edge binds the next pages of the query. */
  lemma SharedCovered(T: Tree, q: Path, k: nat, c: RadixNode, j: nat)
    requires OnWay(T, q, k, c) && k < j <= k + Shared(T, q, k, c)
    ensures Covers(T[c], q[..j]) && PageOf(T[c], q[..j]) == T[c].pages[j - 1 - k]
  {
    var r := Shared(T, q, k, c);
    assert T[c].path[k..][..r] == q[k..][..r];
    assert forall i {:trigger q[i]} :: k <= i < j ==> T[c].path[i] == T[c].path[k..][i - k] == q[k..][i - k] == q[i];
    assert forall i {:trigger q[i]} :: 0 <= i < k ==> T[c].path[i] == T[c].path[..k][i] == q[i];
    assert q[..j] == T[c].path[..j];
  }

  lemma CrossEdge(T: Tree, own: Owners, q: Path, k: nat, c: RadixNode, pages: seq<int>)
    requires Owned(T, own) && OnWay(T, q, k, c) && |pages| == k && PagesMatch(Bind(T, own), q, pages)
    ensures PagesMatch(Bind(T, own), q, pages + T[c].pages[..Shared(T, q, k, c)])
    ensures q[..k + Shared(T, q, k, c)] in own && own[q[..k + Shared(T, q, k, c)]] == c
  {
    var r := Shared(T, q, k, c);
    var all := pages + T[c].pages[..r];
    forall i {:trigger PageAt(Bind(T, own), q, all, i)} | 0 <= i < |all| ensures PageAt(Bind(T, own), q, all, i) {
      if i < k {
        assert PageAt(Bind(T, own), q, pages, i);
      } else {
        SharedCovered(T, q, k, c, i + 1);
        BindPoint(T, own, q[..i + 1]);
      }
    }
    SharedCovered(T, q, k, c, k + r);
  }

  /** A fully shared edge leads to a node that spells exactly the query so far. */
  lemma FullEdge(T: Tree, q: Path, k: nat, c: RadixNode)
    requires OnWay(T, q, k, c) && Shared(T, q, k, c) == |T[c].pages|
    ensures T[c].path == q[..k + |T[c].pages|]
  {
    SharedCovered(T, q, k, c, k + |T[c].pages|);
  }

  /** The last page of a bound prefix is on the edge of the page before it, or starts the edge
      of a child of the node that ends there. */
  lemma OwnerStep(T: Tree, own: Owners, root: RadixNode, P: nat, p: Path)
    requires WF(T, own, root, P) && p in own && |p| > 1
    ensures p[..|p| - 1] in own && OwnerOK(T, own, p) && OwnerOK(T, own, p[..|p| - 1])
    ensures own[p] == own[p[..|p| - 1]] || T[own[p[..|p| - 1]]].path == p[..|p| - 1]
  {
    var m, up := own[p], p[..|p| - 1];
    assert OwnerOK(T, own, p);
    OwnPath(T, own, root, P, m);
    assert EdgeOK(T, m, P);
    if !Covers(T[m], up) {
      assert T[T[m].parent].path == up;
      OwnPath(T, own, root, P, T[m].parent);
    }
    assert OwnerOK(T, own, up);
  }

  /** Where the query leaves an edge, nothing longer is bound. */
  lemma EdgeDiverges(T: Tree, own: Owners, root: RadixNode, P: nat, q: Path, k: nat, c: RadixNode)
    requires WF(T, own, root, P) && OnWay(T, q, k, c) && c != root
    requires Shared(T, q, k, c) < |T[c].pages| && k + Shared(T, q, k, c) < |q|
    ensures q[..k + Shared(T, q, k, c) + 1] !in own
  {
    var r := Shared(T, q, k, c);
    var p, p' := q[..k + r], q[..k + r + 1];
    SharedCovered(T, q, k, c, k + r);
    assert p in own && own[p] == c && T[c].path != p;
    assert T[c].path[k..][r] != q[k..][r];
    assert T[c].path[k + r] != q[k + r] == p'[k + r];
    if p' in own {
      assert p == p'[..|p'| - 1];
      OwnerStep(T, own, root, P, p');
      assert false;
    }
  }

  lemma StopLongest(T: Tree, own: Owners, root: RadixNode, P: nat, q: Path, pages: seq<int>)
    requires WF(T, own, root, P) && PagesMatch(Bind(T, own), q, pages)
    requires |pages| < |q| ==> q[..|pages| + 1] !in own
    ensures Longest(Bind(T, own), q, |pages|)
  {
    var B, m := Bind(T, own), |pages|;
    BindAt(T, own);
    forall j {:trigger q[..j]} | 0 < j <= m ensures q[..j] in B {
      assert PageAt(B, q, pages, j - 1);
    }
    forall j {:trigger q[..j]} | m < j <= |q| ensures q[..j] !in B {
      if q[..j] in own {
        assert q[..m + 1] <= q[..j];
        PrefixClosed(T, own, root, P, q[..j], q[..m + 1]);
      }
    }
  }

  /** Looking up the next page of the query among the children of `n`. */
  lemma Lookup(T: Tree, own: Owners, root: RadixNode, P: nat, n: RadixNode, q: Path, k: nat)
    requires WF(T, own, root, P) && n in T && k < |q| && T[n].path == q[..k]
    ensures q[k] !in T[n].children ==> q[..k + 1] !in own
    ensures q[k] in T[n].children ==> OnWay(T, q, k, T[n].children[q[k]]) && T[n].children[q[k]] != root
    ensures q[k] in T[n].children ==> EdgeOK(T, T[n].children[q[k]], P)
  {
    if q[k] in T[n].children {
      ChildOnWay(T, own, root, P, n, q, k);
    } else {
      assert q[..k + 1][..k] == q[..k];
      NoChildNoPrefix(T, own, root, P, n, q[..k + 1]);
    }
  }

  /** The numbers the walk compares, in pages. */
  lemma EdgeNumbers(T: Tree, P: nat, q: Path, k: nat, c: RadixNode)
    requires P >= 1 && Uniform(q, P) && OnWay(T, q, k, c) && EdgeOK(T, c, P)
    ensures Uniform(T[c].path[k..], P) && Uniform(q[k..], P) && T[c].key == Flat(T[c].path[k..])
    ensures |T[c].key| == |T[c].pages| * P
    ensures var r := Shared(T, q, k, c);
      && (r < |T[c].pages| <==> r * P < |T[c].key|)
      && PageAlignLen(r * P, P) == r * P && (r * P) / P == r && 0 < r * P
      && k * P + r * P == (k + r) * P
  {
    var r := Shared(T, q, k, c);
    FlatLength(T[c].path[k..], P);
    MultipleLess(r, |T[c].pages|, P);
    Multiple(r, P);
    assert (k + r) * P == k * P + r * P;
  }

  /** The walk for `q` has used `k` pages and stands at `node`, which spells them. */
  ghost predicate WalkAt(T: Tree, own: Owners, root: RadixNode, q: Path, k: nat, node: RadixNode, pages: seq<int>) {
    && k <= |q| && |pages| == k
    && node in T && T[node].path == q[..k]
    && PagesMatch(Bind(T, own), q, pages)
    && (if k == 0 then node == root else q[..k] in own && own[q[..k]] == node)
  }

  lemma WalkStart(T: Tree, own: Owners, root: RadixNode, P: nat, q: Path)
    requires WF(T, own, root, P)
    ensures WalkAt(T, own, root, q, 0, root, [])
  {}

  lemma WalkFull(T: Tree, own: Owners, root: RadixNode, P: nat, q: Path, k: nat, node: RadixNode, pages: seq<int>,
                 c: RadixNode)
    requires WF(T, own, root, P) && WalkAt(T, own, root, q, k, node, pages)
    requires OnWay(T, q, k, c) && Shared(T, q, k, c) == |T[c].pages|
    ensures WalkAt(T, own, root, q, k + |T[c].pages|, c, pages + T[c].pages)
  {
    CrossEdge(T, own, q, k, c, pages);
    FullEdge(T, q, k, c);
    assert T[c].pages[..|T[c].pages|] == T[c].pages;
  }

  /** The three ways a walk ends all return the longest bound prefix. */
  lemma WalkEnds(T: Tree, own: Owners, root: RadixNode, P: nat, q: Path, k: nat, node: RadixNode, pages: seq<int>)
    requires WF(T, own, root, P) && WalkAt(T, own, root, q, k, node, pages)
    requires k < |q| ==> q[..k + 1] !in own
    ensures MatchOK(MatchResult(pages, k * P, node), q, T, own, root, P)
  {
    StopLongest(T, own, root, P, q, pages);
  }

  lemma WalkPartial(T: Tree, own: Owners, root: RadixNode, P: nat, q: Path, k: nat, node: RadixNode, pages: seq<int>,
                    c: RadixNode)
    requires WF(T, own, root, P) && WalkAt(T, own, root, q, k, node, pages)
    requires OnWay(T, q, k, c) && Shared(T, q, k, c) < |T[c].pages| && c != root
    ensures var r := Shared(T, q, k, c);
      MatchOK(MatchResult(pages + T[c].pages[..r], (k + r) * P, c), q, T, own, root, P)
  {
    var r := Shared(T, q, k, c);
    CrossEdge(T, own, q, k, c, pages);
    if k + r < |q| {
      EdgeDiverges(T, own, root, P, q, k, c);
    }
    StopLongest(T, own, root, P, q, pages + T[c].pages[..r]);
  }

  // ---- access times ----

  type Ages = map<RadixNode, int>

  ghost predicate AgeIs(T: Tree, was: Ages, ages: Ages, p: Path, now: int, n: RadixNode)
    requires n in T
  {
    n in was && n in ages && ages[n] == if T[n].path <= p then now else was[n]
  }

  /** The nodes from the root down to the one spelling `p` were accessed at `now`, the others
      when they were before. */
  ghost predicate Refreshed(T: Tree, was: Ages, ages: Ages, p: Path, now: int) {
    forall n {:trigger AgeIs(T, was, ages, p, now, n)} :: n in T ==> AgeIs(T, was, ages, p, now, n)
  }

  lemma RootRefreshed(T: Tree, own: Owners, root: RadixNode, P: nat, was: Ages, now: int)
    requires WF(T, own, root, P) && was.Keys == T.Keys
    ensures Refreshed(T, was, was[root := now], [], now)
  {
    forall n {:trigger AgeIs(T, was, was[root := now], [], now, n)} | n in T
      ensures AgeIs(T, was, was[root := now], [], now, n)
    {
      OwnPath(T, own, root, P, n);
    }
  }

  /** Refreshing a child on the way extends the refreshed path by its edge. */
  lemma ChildRefreshed(T: Tree, own: Owners, root: RadixNode, P: nat, was: Ages, ages: Ages, q: Path, k: nat,
                       node: RadixNode, c: RadixNode, now: int)
    requires WF(T, own, root, P) && OnWay(T, q, k, c) && c != root && node in T && T[node].path == q[..k]
    requires Refreshed(T, was, ages, T[node].path, now)
    ensures Refreshed(T, was, ages[c := now], T[c].path, now)
  {
    assert EdgeOK(T, c, P);
    forall n {:trigger AgeIs(T, was, ages[c := now], T[c].path, now, n)} | n in T
      ensures AgeIs(T, was, ages[c := now], T[c].path, now, n)
    {
      assert AgeIs(T, was, ages, T[node].path, now, n);
      if T[n].path <= T[c].path && n != c {
        AncestorStep(T, own, root, P, n, c);
      }
    }
  }

  /** A release has come from the node spelling `p` up to depth `d`. */
  ghost predicate ClimbedAt(T: Tree, was: Ages, ages: Ages, p: Path, d: nat, now: int, n: RadixNode)
    requires n in T
  {
    n in was && n in ages && ages[n] == if T[n].path <= p && |T[n].path| > d then now else was[n]
  }

  ghost predicate Climbed(T: Tree, was: Ages, ages: Ages, p: Path, d: nat, now: int) {
    forall n {:trigger ClimbedAt(T, was, ages, p, d, now, n)} :: n in T ==> ClimbedAt(T, was, ages, p, d, now, n)
  }

  lemma ClimbStart(T: Tree, was: Ages, p: Path, now: int)
    requires was.Keys == T.Keys
    ensures Climbed(T, was, was, p, |p|, now)
  {}

  lemma ClimbStep(T: Tree, own: Owners, root: RadixNode, P: nat, was: Ages, ages: Ages, p: Path, at: RadixNode,
                  now: int)
    requires WF(T, own, root, P) && at in T && at != root && T[at].path <= p
      && Climbed(T, was, ages, p, |T[at].path|, now)
    ensures EdgeOK(T, at, P) && Climbed(T, was, ages[at := now], p, |T[T[at].parent].path|, now)
  {
    assert EdgeOK(T, at, P);
    var d := |T[T[at].parent].path|;
    forall n {:trigger ClimbedAt(T, was, ages[at := now], p, d, now, n)} | n in T
      ensures ClimbedAt(T, was, ages[at := now], p, d, now, n)
    {
      assert ClimbedAt(T, was, ages, p, |T[at].path|, now, n);
      if T[n].path <= p && |T[n].path| <= |T[at].path| && n != at {
        AncestorStep(T, own, root, P, n, at);
      }
    }
  }

  /** A release refreshes the nodes from the one spelling `p` up to, not including, the root. */
  ghost predicate Released(T: Tree, root: RadixNode, was: Ages, ages: Ages, p: Path, now: int) {
    root in was && root in ages && ages[root] == was[root] && Refreshed(T, was, ages[root := now], p, now)
  }

  lemma ClimbEnd(T: Tree, own: Owners, root: RadixNode, P: nat, was: Ages, ages: Ages, p: Path, now: int)
    requires WF(T, own, root, P) && Climbed(T, was, ages, p, 0, now)
    ensures Released(T, root, was, ages, p, now)
  {
    OwnPath(T, own, root, P, root);
    assert ClimbedAt(T, was, ages, p, 0, now, root);
    forall n {:trigger AgeIs(T, was, ages[root := now], p, now, n)} | n in T
      ensures AgeIs(T, was, ages[root := now], p, now, n)
    {
      assert ClimbedAt(T, was, ages, p, 0, now, n);
      OwnPath(T, own, root, P, n);
    }
  }

  /** A lock walk on its way: a release refreshes what it passes, an acquisition does not. */
  ghost predicate Climbing(T: Tree, was: Ages, ages: Ages, p: Path, d: nat, touch: bool, now: int) {
    if touch then Climbed(T, was, ages, p, d, now) else ages == was
  }

  ghost predicate LockAges(T: Tree, root: RadixNode, was: Ages, ages: Ages, p: Path, touch: bool, now: int) {
    if touch then Released(T, root, was, ages, p, now) else ages == was
  }

  lemma ClimbingStep(T: Tree, own: Owners, root: RadixNode, P: nat, was: Ages, ages: Ages, p: Path, at: RadixNode,
                     touch: bool, now: int)
    requires WF(T, own, root, P) && at in T && at != root && T[at].path <= p
      && Climbing(T, was, ages, p, |T[at].path|, touch, now)
    ensures EdgeOK(T, at, P)
    ensures Climbing(T, was, if touch then ages[at := now] else ages, p, |T[T[at].parent].path|, touch, now)
  {
    assert EdgeOK(T, at, P);
    if touch {
      ClimbStep(T, own, root, P, was, ages, p, at, now);
    }
  }

  lemma ClimbingEnd(T: Tree, own: Owners, root: RadixNode, P: nat, was: Ages, ages: Ages, p: Path, touch: bool,
                    now: int)
    requires WF(T, own, root, P) && Climbing(T, was, ages, p, |T[root].path|, touch, now)
    ensures LockAges(T, root, was, ages, p, touch, now)
  {
    OwnPath(T, own, root, P, root);
    if touch {
      ClimbEnd(T, own, root, P, was, ages, p, now);
    }
  }

  /** `MatchResult` */
  datatype MatchResult = MatchResult(matchedPages: seq<int>, matchedTokens: nat, lastNode: RadixNode)

  /** What a lookup of the pages `q` must return: exactly the longest bound beginning of `q`,
      its pages in order, and the node that holds the last of them. */
  ghost predicate MatchOK(r: MatchResult, q: Path, T: Tree, own: Owners, root: RadixNode, P: nat) {
    var m := |r.matchedPages|;
    && Longest(Bind(T, own), q, m) && PagesMatch(Bind(T, own), q, r.matchedPages)
    && r.matchedTokens == m * P && r.lastNode in T
    && (if m == 0 then r.lastNode == root else q[..m] in own && own[q[..m]] == r.lastNode)
  }

  /** Where an insertion cuts an edge: at a page boundary strictly inside it. */
  lemma SplitPlace(T: Tree, P: nat, q: Path, k: nat, c: RadixNode)
    requires P >= 1 && OnWay(T, q, k, c) && EdgeOK(T, c, P) && Shared(T, q, k, c) < |T[c].pages|
    ensures var r := Shared(T, q, k, c); var at := r * P;
      && 0 < at < |T[c].key| && at % P == 0 && at / P == r && PageAlignLen(at, P) == at
      && k * P + at == (k + r) * P
      && T[c].path[..Start(T[c]) + r] == q[..k + r]
  {
    var r := Shared(T, q, k, c);
    FlatLength(T[c].path[k..], P);
    MultipleLess(r, |T[c].pages|, P);
    Multiple(r, P);
    DivUnique(r * P, P, r, 0);
    assert (k + r) * P == k * P + r * P;
    SharedCovered(T, q, k, c, k + r);
  }
}
