/** Page conservation when a finished request is committed to the cache
    (engine.py:1008-1028 over radix_cache.py:150-213).

    A request's first `M` pages are borrowed from the tree, the rest are its own.  The commit
    inserts the first `|q|` pages, frees what the insertion reports as redundant and frees the
    pages past the committed ones.  The insertion judges a whole edge at a time and reports
    nothing for an edge it splits, so pages are conserved exactly when no crossed edge
    straddles the end of the borrowed prefix and any split falls inside that prefix. */
module CommitLedger {
  import opened Paging
  import opened TreeModel
  import opened TreeOps
  import opened TreeWalk
  import opened TreeInsert
  import opened PageLedger

  /** The tree's answer at position `i`: may be checked before the commit. */
  ghost predicate CleanAt(T: Tree, own: Owners, q: Path, M: nat, i: nat)
    requires i < |q| && q[..i + 1] in own && own[q[..i + 1]] in T
  {
    var e := T[own[q[..i + 1]]];
    if e.path <= q then |e.path| <= M || M <= Start(e) else i < M
  }

  /** No edge crossed by `q` straddles page `M`, and where `q` leaves an edge it does so no later
      than page `M`. */
  ghost predicate CleanWalk(T: Tree, own: Owners, q: Path, M: nat) {
    forall i {:trigger CleanAt(T, own, q, M, i)} ::
      0 <= i < |q| && q[..i + 1] in own && own[q[..i + 1]] in T ==> CleanAt(T, own, q, M, i)
  }

  /** The situation at a commit: the first `M` pages are the tree's, the others private. */
  ghost predicate CommitReady(T: Tree, own: Owners, root: RadixNode, P: nat, b: Books, q: Path, pages: seq<int>, M: nat,
                              k: nat)
  {
    && WF(T, own, root, P) && b.tree == Bind(T, own) && Ledger(b)
    && M <= |q| <= |pages| && k in b.priv && b.priv[k] == pages[M..]
    && PagesMatch(b.tree, q, pages[..M])
  }

  ghost function Committed(T: Tree, own: Owners, b: Books, q: Path, pages: seq<int>, k: nat): Books
    requires |q| <= |pages|
  {
    Books(b.n, b.free + RedundantFrom(T, own, q, pages[..|q|], 0) + pages[|q|..], Insert(b.tree, q, pages[..|q|]),
      b.priv - {k})
  }

  // ---- which pages are reported ----

  /** Position `i` belongs to the request, not to the tree, as soon as it is past `M`. */
  lemma PrivateDiffers(T: Tree, own: Owners, root: RadixNode, P: nat, b: Books, q: Path, pages: seq<int>, M: nat,
                       k: nat, i: nat)
    requires CommitReady(T, own, root, P, b, q, pages, M, k) && i < |q| && q[..i + 1] in own
    ensures q[..i + 1] in b.tree && (b.tree[q[..i + 1]] == pages[i] <==> i < M)
  {
    BindPoint(T, own, q[..i + 1]);
    var x := b.tree[q[..i + 1]];
    assert Holds(b, InTree(q[..i + 1]), x);
    if i < M {
      assert PageAt(b.tree, q, pages[..M], i);
    } else {
      assert Holds(b, InReq(k, i - M), pages[i]);
    }
  }

  lemma ReportedIff(T: Tree, own: Owners, root: RadixNode, P: nat, b: Books, q: Path, pages: seq<int>, M: nat, k: nat,
                    i: nat)
    requires CommitReady(T, own, root, P, b, q, pages, M, k) && i < |q| && q[..i + 1] in own
    ensures own[q[..i + 1]] in T
    ensures var e := T[own[q[..i + 1]]];
      Reported(T, own, q, pages[..|q|], i) <==> e.path <= q && |e.path| > M
  {
    var n, S := own[q[..i + 1]], pages[..|q|];
    assert OwnerOK(T, own, q[..i + 1]);
    OwnPath(T, own, root, P, n);
    assert EdgeOK(T, n, P);
    var e := T[n];
    if e.path <= q {
      var s, t := Start(e), |e.path|;
      forall j {:trigger S[j]} | s <= j < t ensures e.pages[j - s] == S[j] <==> j < M {
        assert q[..j + 1] <= e.path;
        assert Covers(e, q[..j + 1]);
        BindPoint(T, own, q[..j + 1]);
        PrivateDiffers(T, own, root, P, b, q, pages, M, k, j);
      }
      if t <= M {
        assert S[s..t] == e.pages;
      } else {
        assert S[s..t][t - 1 - s] == S[t - 1] != e.pages[t - 1 - s];
      }
    }
  }

  /** The report is right about position `i`: reported just when the page is the request's. */
  ghost predicate RightAt(T: Tree, own: Owners, q: Path, S: seq<int>, M: nat, i: nat)
    requires i < |q| <= |S| && q[..i + 1] in own
  {
    Reported(T, own, q, S, i) <==> M <= i
  }

  ghost predicate Right(T: Tree, own: Owners, q: Path, S: seq<int>, M: nat)
    requires |q| <= |S|
  {
    forall i {:trigger RightAt(T, own, q, S, M, i)} :: 0 <= i < |q| && q[..i + 1] in own ==> RightAt(T, own, q, S, M, i)
  }

  lemma CleanIsRight(T: Tree, own: Owners, root: RadixNode, P: nat, b: Books, q: Path, pages: seq<int>, M: nat, k: nat)
    requires CommitReady(T, own, root, P, b, q, pages, M, k)
    ensures CleanWalk(T, own, q, M) <==> Right(T, own, q, pages[..|q|], M)
  {
    var S := pages[..|q|];
    if CleanWalk(T, own, q, M) {
      forall i {:trigger RightAt(T, own, q, S, M, i)} | 0 <= i < |q| && q[..i + 1] in own
        ensures RightAt(T, own, q, S, M, i)
      {
        ReportedIff(T, own, root, P, b, q, pages, M, k, i);
        assert OwnerOK(T, own, q[..i + 1]);
        assert CleanAt(T, own, q, M, i);
      }
    }
    if Right(T, own, q, S, M) {
      forall i {:trigger CleanAt(T, own, q, M, i)} | 0 <= i < |q| && q[..i + 1] in own && own[q[..i + 1]] in T
        ensures CleanAt(T, own, q, M, i)
      {
        RightIsCleanAt(T, own, root, P, b, q, pages, M, k, i);
      }
    }
  }

  lemma RightIsCleanAt(T: Tree, own: Owners, root: RadixNode, P: nat, b: Books, q: Path, pages: seq<int>, M: nat,
                       k: nat, i: nat)
    requires CommitReady(T, own, root, P, b, q, pages, M, k) && Right(T, own, q, pages[..|q|], M)
    requires i < |q| && q[..i + 1] in own && own[q[..i + 1]] in T
    ensures CleanAt(T, own, q, M, i)
  {
    var S, n := pages[..|q|], own[q[..i + 1]];
    var e := T[n];
    ReportedIff(T, own, root, P, b, q, pages, M, k, i);
    assert RightAt(T, own, q, S, M, i);
    assert OwnerOK(T, own, q[..i + 1]);
    OwnPath(T, own, root, P, n);
    assert EdgeOK(T, n, P);
    if e.path <= q {
      var s := Start(e);
      assert q[..s + 1] <= e.path;
      assert Covers(e, q[..s + 1]);
      ReportedIff(T, own, root, P, b, q, pages, M, k, s);
      assert RightAt(T, own, q, S, M, s);
    }
  }

  // ---- the reported positions ----

  ghost function ReportedAt(T: Tree, own: Owners, q: Path, S: seq<int>, i: nat): seq<nat>
    requires i <= |q| <= |S|
    decreases |q| - i
  {
    if i == |q| || q[..i + 1] !in own then []
    else (if Reported(T, own, q, S, i) then [i] else []) + ReportedAt(T, own, q, S, i + 1)
  }

  lemma {:induction false} ReportedAtSpec(T: Tree, own: Owners, root: RadixNode, P: nat, q: Path, S: seq<int>, i: nat)
    requires WF(T, own, root, P) && i <= |q| <= |S|
    ensures var at := ReportedAt(T, own, q, S, i);
      && |at| == |RedundantFrom(T, own, q, S, i)|
      && (forall j {:trigger at[j]} :: 0 <= j < |at| ==>
         i <= at[j] < |q| && RedundantFrom(T, own, q, S, i)[j] == S[at[j]])
      && (forall j, l {:trigger at[j], at[l]} :: 0 <= j < l < |at| ==> at[j] < at[l])
      && (forall x: nat {:trigger x in at} :: x in at <==>
         i <= x < |q| && q[..x + 1] in own && Reported(T, own, q, S, x))
    decreases |q| - i
  {
    hide WF;
    if i == |q| {
    } else if q[..i + 1] !in own {
      forall x: nat {:trigger q[..x + 1]} | i <= x < |q| ensures q[..x + 1] !in own {
        if q[..x + 1] in own {
          PrefixClosed(T, own, root, P, q[..x + 1], q[..i + 1]);
        }
      }
    } else {
      ReportedAtSpec(T, own, root, P, q, S, i + 1);
      var rest, at := ReportedAt(T, own, q, S, i + 1), ReportedAt(T, own, q, S, i);
      forall x: nat {:trigger x in at} ensures x in at <==> x in rest || (x == i && Reported(T, own, q, S, i)) {}
    }
  }

  // ---- conservation ----

  /** Where a page of the books after the commit was before. */
  ghost function Back(own: Owners, F: nat, R: nat, at: seq<nat>, c: nat, M: nat, k: nat, s: Slot): Slot {
    match s
    case InFree(i) =>
      if i < F then s
      else if i < F + R then (if i - F < |at| && at[i - F] >= M then InReq(k, at[i - F] - M) else s)
      else (if c >= M then InReq(k, c - M + (i - F - R)) else s)
    case InTree(p) => if p in own || |p| <= M then s else InReq(k, |p| - 1 - M)
    case InReq(r, j) => s
  }

  /** Where a page of the books before the commit goes. */
  ghost function Fwd(own: Owners, F: nat, R: nat, at: seq<nat>, q: Path, M: nat, k: nat, s: Slot): Slot {
    match s
    case InReq(r, j) =>
      if r != k then s
      else if M + j >= |q| then InFree(F + R + (M + j - |q|))
      else if q[..M + j + 1] in own then InFree(F + IndexOf(at, M + j))
      else InTree(q[..M + j + 1])
    case _ => s
  }

  lemma BorrowedBound(T: Tree, own: Owners, root: RadixNode, P: nat, b: Books, q: Path, pages: seq<int>, M: nat, k: nat,
                      p: Path)
    requires CommitReady(T, own, root, P, b, q, pages, M, k)
    ensures p != [] && p <= q && |p| <= M ==> p in own
  {
    BindAt(T, own);
    if p != [] && p <= q && |p| <= M {
      assert p == q[..|p| - 1 + 1];
      assert PageAt(b.tree, q, pages[..M], |p| - 1);
    }
  }

  lemma BackFree(T: Tree, own: Owners, root: RadixNode, P: nat, b: Books, q: Path, pages: seq<int>, M: nat, k: nat,
                 i: nat, x: int)
    requires CommitReady(T, own, root, P, b, q, pages, M, k) && Right(T, own, q, pages[..|q|], M)
    requires Holds(Committed(T, own, b, q, pages, k), InFree(i), x)
    ensures var at := ReportedAt(T, own, q, pages[..|q|], 0);
      var s := Back(own, |b.free|, |at|, at, |q|, M, k, InFree(i));
      Holds(b, s, x) && Fwd(own, |b.free|, |at|, at, q, M, k, s) == InFree(i)
  {
    var S, F := pages[..|q|], |b.free|;
    var at := ReportedAt(T, own, q, S, 0);
    var red := RedundantFrom(T, own, q, S, 0);
    ReportedAtSpec(T, own, root, P, q, S, 0);
    if F <= i < F + |at| {
      var y := at[i - F];
      assert y in at;
      assert RightAt(T, own, q, S, M, y);
      assert (b.free + red + pages[|q|..])[i] == red[i - F] == S[y] == pages[y] == pages[M..][y - M];
      IndexOfAt(at, i - F);
    } else if i >= F + |at| {
      assert (b.free + red + pages[|q|..])[i] == pages[|q| + (i - F - |at|)] == pages[M..][|q| - M + (i - F - |at|)];
    }
  }

  lemma BackTree(T: Tree, own: Owners, root: RadixNode, P: nat, b: Books, q: Path, pages: seq<int>, M: nat, k: nat,
                 p: Path, x: int)
    requires CommitReady(T, own, root, P, b, q, pages, M, k)
    requires Holds(Committed(T, own, b, q, pages, k), InTree(p), x)
    ensures var at := ReportedAt(T, own, q, pages[..|q|], 0);
      var s := Back(own, |b.free|, |at|, at, |q|, M, k, InTree(p));
      Holds(b, s, x) && Fwd(own, |b.free|, |at|, at, q, M, k, s) == InTree(p)
  {
    BindAt(T, own);
    InsertPoint(b.tree, q, pages[..|q|], p);
    BorrowedBound(T, own, root, P, b, q, pages, M, k, p);
    if p !in own {
      assert p == q[..|p|];
      assert pages[M..][|p| - 1 - M] == pages[|p| - 1];
    }
  }

  lemma FwdHolds(T: Tree, own: Owners, root: RadixNode, P: nat, b: Books, q: Path, pages: seq<int>, M: nat, k: nat,
                 s: Slot, x: int)
    requires CommitReady(T, own, root, P, b, q, pages, M, k) && Right(T, own, q, pages[..|q|], M) && Holds(b, s, x)
    ensures var at := ReportedAt(T, own, q, pages[..|q|], 0);
      Holds(Committed(T, own, b, q, pages, k), Fwd(own, |b.free|, |at|, at, q, M, k, s), x)
  {
    var S, F := pages[..|q|], |b.free|;
    var at := ReportedAt(T, own, q, S, 0);
    var red := RedundantFrom(T, own, q, S, 0);
    var free' := b.free + red + pages[|q|..];
    BindAt(T, own);
    match s
    case InFree(i) => assert free'[i] == b.free[i];
    case InTree(p) => InsertPoint(b.tree, q, S, p);
    case InReq(r, j) =>
      if r == k {
        FwdOwn(T, own, root, P, b, q, pages, M, k, j);
      }
  }

  lemma SecondPart(a: seq<int>, b: seq<int>, c: seq<int>, i: nat)
    requires i < |b|
    ensures (a + b + c)[|a| + i] == b[i]
  {}

  lemma ThirdPart(a: seq<int>, b: seq<int>, c: seq<int>, i: nat)
    requires i < |c|
    ensures (a + b + c)[|a| + |b| + i] == c[i]
  {}

  lemma FwdOwn(T: Tree, own: Owners, root: RadixNode, P: nat, b: Books, q: Path, pages: seq<int>, M: nat, k: nat,
               j: nat)
    requires CommitReady(T, own, root, P, b, q, pages, M, k) && Right(T, own, q, pages[..|q|], M) && M + j < |pages|
    ensures var at := ReportedAt(T, own, q, pages[..|q|], 0);
      Holds(Committed(T, own, b, q, pages, k), Fwd(own, |b.free|, |at|, at, q, M, k, InReq(k, j)), pages[M + j])
  {
    hide Reported, Owned, Insert;
    var S, i := pages[..|q|], M + j;
    var at := ReportedAt(T, own, q, S, 0);
    var red := RedundantFrom(T, own, q, S, 0);
    ReportedAtSpec(T, own, root, P, q, S, 0);
    if i >= |q| {
      ThirdPart(b.free, red, pages[|q|..], i - |q|);
    } else if q[..i + 1] in own {
      assert RightAt(T, own, q, S, M, i);
      assert i in at;
      var l := IndexOf(at, i);
      SecondPart(b.free, red, pages[|q|..], l);
      assert red[l] == S[at[l]] == pages[i];
    } else {
      BindAt(T, own);
      InsertPoint(b.tree, q, S, q[..i + 1]);
    }
  }

  /** When exactly the request's own pages are reported, the commit conserves pages. */
  lemma RightConserves(T: Tree, own: Owners, root: RadixNode, P: nat, b: Books, q: Path, pages: seq<int>, M: nat,
                       k: nat)
    requires CommitReady(T, own, root, P, b, q, pages, M, k) && Right(T, own, q, pages[..|q|], M)
    ensures Ledger(Committed(T, own, b, q, pages, k))
  {
    var b' := Committed(T, own, b, q, pages, k);
    var at := ReportedAt(T, own, q, pages[..|q|], 0);
    var F, c := |b.free|, |q|;
    var back := (s: Slot) => Back(own, F, |at|, at, c, M, k, s);
    var fwd := (s: Slot) => Fwd(own, F, |at|, at, q, M, k, s);
    forall s, x {:trigger Holds(b', s, x)} | Holds(b', s, x) ensures Holds(b, back(s), x) && fwd(back(s)) == s {
      match s
      case InFree(i) => BackFree(T, own, root, P, b, q, pages, M, k, i, x);
      case InTree(p) => BackTree(T, own, root, P, b, q, pages, M, k, p, x);
      case InReq(r, j) =>
    }
    forall s, x {:trigger Holds(b, s, x)} | Holds(b, s, x) ensures Holds(b', fwd(s), x) {
      FwdHolds(T, own, root, P, b, q, pages, M, k, s, x);
    }
    Transport(b, b', back, fwd);
  }

  // ---- and only then ----

  /** A borrowed page that is reported ends up free while the tree still binds it. */
  lemma DoublyOwned(T: Tree, own: Owners, root: RadixNode, P: nat, b: Books, q: Path, pages: seq<int>, M: nat, k: nat,
                    i: nat)
    requires CommitReady(T, own, root, P, b, q, pages, M, k) && i < M
    requires q[..i + 1] in own && Reported(T, own, q, pages[..|q|], i)
    ensures !Ledger(Committed(T, own, b, q, pages, k))
  {
    var S, F, b' := pages[..|q|], |b.free|, Committed(T, own, b, q, pages, k);
    var at := ReportedAt(T, own, q, S, 0);
    var red := RedundantFrom(T, own, q, S, 0);
    ReportedAtSpec(T, own, root, P, q, S, 0);
    assert i in at;
    var l := IndexOf(at, i);
    assert (b.free + red + pages[|q|..])[F + l] == red[l] == pages[i];
    assert Holds(b', InFree(F + l), pages[i]);
    PrivateDiffers(T, own, root, P, b, q, pages, M, k, i);
    InsertPoint(b.tree, q, S, q[..i + 1]);
    assert Holds(b', InTree(q[..i + 1]), pages[i]);
  }

  /** A page of the request's own that the tree already has a page for, and that is not
      reported, is nowhere afterwards. */
  lemma NowhereSlot(T: Tree, own: Owners, root: RadixNode, P: nat, b: Books, q: Path, pages: seq<int>, M: nat, k: nat,
                    i: nat, s: Slot)
    requires CommitReady(T, own, root, P, b, q, pages, M, k) && M <= i < |q|
    requires q[..i + 1] in own && !Reported(T, own, q, pages[..|q|], i)
    ensures !Holds(Committed(T, own, b, q, pages, k), s, pages[i])
  {
    var S, F, b', x := pages[..|q|], |b.free|, Committed(T, own, b, q, pages, k), pages[i];
    assert x == pages[M..][i - M];
    assert Holds(b, InReq(k, i - M), x);
    match s
    case InFree(l) => NowhereFree(T, own, root, P, b, q, pages, M, k, i, l);
    case InTree(p) =>
      BindAt(T, own);
      InsertPoint(b.tree, q, S, p);
      BorrowedBound(T, own, root, P, b, q, pages, M, k, p);
      if p in own {
        assert Holds(b, InTree(p), x) <==> p in b.tree && b.tree[p] == x;
      } else if p != [] && p <= q {
        assert p == q[..|p|];
        assert pages[M..][|p| - 1 - M] == pages[|p| - 1];
        assert Holds(b, InReq(k, |p| - 1 - M), pages[|p| - 1]);
      }
    case InReq(r, j) =>
      if r != k {
        assert Holds(b', s, x) <==> Holds(b, s, x);
      }
  }

  lemma NowhereFree(T: Tree, own: Owners, root: RadixNode, P: nat, b: Books, q: Path, pages: seq<int>, M: nat, k: nat,
                    i: nat, l: nat)
    requires CommitReady(T, own, root, P, b, q, pages, M, k) && M <= i < |q|
    requires q[..i + 1] in own && !Reported(T, own, q, pages[..|q|], i) && Holds(b, InReq(k, i - M), pages[i])
    ensures !Holds(Committed(T, own, b, q, pages, k), InFree(l), pages[i])
  {
    var S, F := pages[..|q|], |b.free|;
    var at := ReportedAt(T, own, q, S, 0);
    var red := RedundantFrom(T, own, q, S, 0);
    var free' := b.free + red + pages[|q|..];
    ReportedAtSpec(T, own, root, P, q, S, 0);
    if l < F {
      assert free'[l] == b.free[l];
      assert Holds(b, InFree(l), b.free[l]);
    } else if l < F + |at| {
      var y := at[l - F];
      assert y in at;
      assert free'[l] == red[l - F] == pages[y];
      if y < M {
        PrivateDiffers(T, own, root, P, b, q, pages, M, k, y);
        assert Holds(b, InTree(q[..y + 1]), pages[y]);
      } else {
        assert pages[M..][y - M] == pages[y];
        assert Holds(b, InReq(k, y - M), pages[y]);
      }
    } else if l < |free'| {
      var y := |q| + (l - F - |at|);
      assert free'[l] == pages[y] == pages[M..][y - M];
      assert Holds(b, InReq(k, y - M), pages[y]);
    }
  }

  lemma Leaked(T: Tree, own: Owners, root: RadixNode, P: nat, b: Books, q: Path, pages: seq<int>, M: nat, k: nat,
               i: nat)
    requires CommitReady(T, own, root, P, b, q, pages, M, k) && M <= i < |q|
    requires q[..i + 1] in own && !Reported(T, own, q, pages[..|q|], i)
    ensures !Ledger(Committed(T, own, b, q, pages, k))
  {
    var b', x := Committed(T, own, b, q, pages, k), pages[i];
    forall s {:trigger Holds(b', s, x)} ensures !Holds(b', s, x) {
      NowhereSlot(T, own, root, P, b, q, pages, M, k, i, s);
    }
    assert x == pages[M..][i - M];
    assert Holds(b, InReq(k, i - M), x);
    assert InPool(b, x);
    assert InPool(b', x);
  }

  /** The commit keeps the page ledger if and only if the walk is clean. */
  lemma CommitConservesIff(T: Tree, own: Owners, root: RadixNode, P: nat, b: Books, q: Path, pages: seq<int>, M: nat,
                           k: nat)
    requires CommitReady(T, own, root, P, b, q, pages, M, k)
    ensures Ledger(Committed(T, own, b, q, pages, k)) <==> CleanWalk(T, own, q, M)
  {
    var S := pages[..|q|];
    CleanIsRight(T, own, root, P, b, q, pages, M, k);
    if Right(T, own, q, S, M) {
      RightConserves(T, own, root, P, b, q, pages, M, k);
    } else {
      var i :| 0 <= i < |q| && q[..i + 1] in own && !RightAt(T, own, q, S, M, i);
      if i < M {
        DoublyOwned(T, own, root, P, b, q, pages, M, k, i);
      } else {
        Leaked(T, own, root, P, b, q, pages, M, k, i);
      }
    }
  }

  // ---- an unclean commit ----

  /** One edge of two pages below the root: tokens 1, 2 on pages 0, 1, page size 1. */
  ghost function TwoPages(root: RadixNode, n: RadixNode): Tree {
    map[root := NodeInfo(null, map[[1] := n], [], [], GPU, []),
        n := NodeInfo(root, map[], [1, 2], [0, 1], GPU, [[1], [2]])]
  }

  ghost function TwoOwners(n: RadixNode): Owners {
    map[[[1]] := n, [[1], [2]] := n]
  }

  lemma TwoPagesWF(root: RadixNode, n: RadixNode)
    requires root != n
    ensures WF(TwoPages(root, n), TwoOwners(n), root, 1)
    ensures Bind(TwoPages(root, n), TwoOwners(n)) == map[[[1]] := 0, [[1], [2]] := 1]
  {
    var T, own := TwoPages(root, n), TwoOwners(n);
    var p: Path := [[1], [2]];
    assert Flat([[2]]) == [2] && p[0..] == [[1]] + [[2]] && p[1..] == [[2]];
    FlatConcat([[1]], [[2]]);
    FlatOne([1]);
    FlatOne([2]);
    assert p[..1] == [[1]];
    assert p[..2] == p;
    forall q {:trigger Covers(T[n], q)} | Covers(T[n], q) ensures q in own && own[q] == n {
      assert q == p[..|q|] && (|q| == 1 || |q| == 2);
    }
    var B := map[[[1]] := 0, [[1], [2]] := 1];
    assert OwnerOK(T, own, [[1]]) && OwnerOK(T, own, p);
    BindPoint(T, own, [[1]]);
    BindPoint(T, own, p);
    assert Bind(T, own).Keys == B.Keys by { BindAt(T, own); }
    SameMap(Bind(T, own), B);
  }

  /** A request for tokens 1, 2 that borrowed page 0 and computed the second token again on its
      own page 2: its commit frees page 0 while the tree still binds it. */
  lemma UncleanCommit(root: RadixNode, n: RadixNode)
    requires root != n
    ensures var T, own, b, q := TwoPages(root, n), TwoOwners(n),
      Books(3, [], map[[[1]] := 0, [[1], [2]] := 1], map[0 := [2]]), [[1], [2]];
      && CommitReady(T, own, root, 1, b, q, [0, 2], 1, 0)
      && !CleanWalk(T, own, q, 1) && !Ledger(Committed(T, own, b, q, [0, 2], 0))
  {
    var T, own, q := TwoPages(root, n), TwoOwners(n), [[1], [2]];
    var b := Books(3, [], map[[[1]] := 0, [[1], [2]] := 1], map[0 := [2]]);
    TwoPagesWF(root, n);
    assert q[..1] == [[1]] && [0, 2][1..] == [2];
    assert [0, 2][..1] == [0];
    assert PageAt(b.tree, q, [0, 2][..1], 0);
    ThreePages(b);
    assert !CleanAt(T, own, q, 1, 0);
    CommitConservesIff(T, own, root, 1, b, q, [0, 2], 1, 0);
  }

  lemma ThreePages(b: Books)
    requires b == Books(3, [], map[[[1]] := 0, [[1], [2]] := 1], map[0 := [2]])
    ensures Ledger(b)
  {
    forall x {:trigger InPool(b, x)} | InPool(b, x) ensures exists s :: Holds(b, s, x) {
      assert Holds(b, InTree([[1]]), 0) && Holds(b, InTree([[1], [2]]), 1) && Holds(b, InReq(0, 0), 2);
    }
  }
}
