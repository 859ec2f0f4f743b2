/** What a commit binds and what has been computed (engine.py:1008-1028 with scheduler.py:300-346).

    A commit takes its length from the tokens of the request, prompt and outputs, and not from the
    number of tokens whose keys and values are in its pages: the last output token has none when
    the request finishes, and an aborted prompt may have them for its first chunks only. */
module CommitData {
  import opened Paging
  import opened TreeModel
  import opened TreeOps
  import opened TreeWalk
  import opened PageLedger
  import opened CommitLedger
  import opened Requests
  import opened RequestViews
  import opened SchedulerModel
  import opened SchedulerSteps
  import opened KvData
  import opened KvStore
  import opened Wrappers

  /** Of the entries `want` of a request's tokens the first `n` are in its pages. */
  ghost predicate Computed(kv: seq<PageData>, pages: seq<int>, want: seq<TokenKV>, n: nat, P: nat) {
    && n <= |want| && Gathered(kv, pages, n, P) == want[..n]
    && forall j {:trigger pages[j]} :: 0 <= j < |pages| ==> PageOK(kv, pages[j], P)
  }

  /** Page `x` holds the entries of the `i`-th page of tokens. */
  ghost predicate HoldsEntries(kv: seq<PageData>, x: int, want: seq<TokenKV>, i: nat, P: nat) {
    0 <= x < |kv| && kv[x] == Slice(want, i * P, i * P + P)
  }

  /** Whatever the pool and the entries are: with the first `n` of `total` in place, the page bound
      to `p` holds the entries of its tokens. */
  ghost predicate Filled(B: map<Path, int>, p: Path, pages: seq<int>, n: nat, total: nat, poolSize: nat, P: nat)
    requires p in B && p != []
  {
    forall kv: seq<PageData>, want: seq<TokenKV> {:trigger Computed(kv, pages, want, n, P)} ::
      |kv| == poolSize && |want| == total && Computed(kv, pages, want, n, P) ==>
      HoldsEntries(kv, B[p], want, |p| - 1, P)
  }

  ghost predicate FilledAt(B: map<Path, int>, B': map<Path, int>, p: Path, pages: seq<int>, n: nat, total: nat,
                           poolSize: nat, P: nat)
  {
    p in B' && p !in B && p != [] ==> Filled(B', p, pages, n, total, poolSize, P)
  }

  /** Every prefix that inserting `q` newly binds does. */
  ghost predicate NewFilled(B: map<Path, int>, q: Path, pages: seq<int>, n: nat, total: nat, poolSize: nat, P: nat)
    requires |q| <= |pages|
  {
    var B' := Insert(B, q, pages[..|q|]);
    forall p {:trigger FilledAt(B, B', p, pages, n, total, poolSize, P)} ::
      FilledAt(B, B', p, pages, n, total, poolSize, P)
  }

  // ---- one prefix ----

  lemma FullPage(kv: seq<PageData>, pages: seq<int>, want: seq<TokenKV>, n: nat, i: nat, P: nat)
    requires P >= 1 && i < |pages| && Computed(kv, pages, want, n, P) && (i + 1) * P <= n
    ensures HoldsEntries(kv, pages[i], want, i, P)
  {
    assert (i + 1) * P == i * P + P;
    assert PageOK(kv, pages[i], P);
    var page, s := kv[pages[i]], Slice(want, i * P, i * P + P);
    forall j {:trigger page[j]} | 0 <= j < P ensures page[j] == s[j] {
      DivUnique(i * P + j, P, i, j);
      assert Gathered(kv, pages, n, P)[i * P + j] == page[j];
    }
  }

  /** An empty pool, and entries that differ from it from the `n`-th on. */
  lemma UnwrittenPage(pages: seq<int>, n: nat, total: nat, i: nat, poolSize: nat, P: nat)
    requires P >= 1 && i < |pages| && n < (i + 1) * P <= total
    requires forall j {:trigger pages[j]} :: 0 <= j < |pages| ==> 0 <= pages[j] < poolSize
    ensures var kv, want := seq(poolSize, _ => ZeroPage(P)),
        seq(total, t => if t < n then ZeroKV() else TokenKV([1.0], [1.0]));
      Computed(kv, pages, want, n, P) && !HoldsEntries(kv, pages[i], want, i, P)
  {
    var kv := seq(poolSize, _ => ZeroPage(P));
    var want := seq(total, t => if t < n then ZeroKV() else TokenKV([1.0], [1.0]));
    assert (i + 1) * P == i * P + P;
    forall t {:trigger Gathered(kv, pages, n, P)[t]} | 0 <= t < n ensures Gathered(kv, pages, n, P)[t] == want[t] {}
    assert Slice(want, i * P, i * P + P)[P - 1] == TokenKV([1.0], [1.0]);
    assert ZeroPage(P)[P - 1] == ZeroKV();
  }

  /** A newly bound prefix is fully written if and only if its tokens are among those computed. */
  lemma PrefixFilledIff(B: map<Path, int>, q: Path, pages: seq<int>, p: Path, n: nat, total: nat, poolSize: nat, P: nat)
    requires P >= 1 && |q| <= |pages| && |q| * P <= total && n <= total && p != [] && p <= q && p !in B
    requires forall j {:trigger pages[j]} :: 0 <= j < |pages| ==> 0 <= pages[j] < poolSize
    ensures p in Insert(B, q, pages[..|q|])
    ensures Filled(Insert(B, q, pages[..|q|]), p, pages, n, total, poolSize, P) <==> |p| * P <= n
  {
    var B', i := Insert(B, q, pages[..|q|]), |p| - 1;
    InsertPoint(B, q, pages[..|q|], p);
    MulMono(|p|, |q|, P);
    if |p| * P <= n {
      forall kv: seq<PageData>, want: seq<TokenKV> {:trigger Computed(kv, pages, want, n, P)}
        | |kv| == poolSize && |want| == total && Computed(kv, pages, want, n, P)
        ensures HoldsEntries(kv, B'[p], want, i, P)
      {
        FullPage(kv, pages, want, n, i, P);
      }
    } else {
      UnwrittenPage(pages, n, total, i, poolSize, P);
    }
  }

  // ---- a whole commit ----

  /** The pages at a commit are pages of the pool. */
  lemma CommitInPool(T: Tree, own: Owners, root: RadixNode, P: nat, b: Books, q: Path, pages: seq<int>, M: nat, k: nat)
    requires CommitReady(T, own, root, P, b, q, pages, M, k)
    ensures forall j {:trigger pages[j]} :: 0 <= j < |pages| ==> 0 <= pages[j] < b.n
  {
    forall j {:trigger pages[j]} | 0 <= j < |pages| ensures 0 <= pages[j] < b.n {
      if j < M {
        assert PageAt(b.tree, q, pages[..M], j);
        assert Holds(b, InTree(q[..j + 1]), pages[j]);
      } else {
        assert pages[j] == pages[M..][j - M];
        assert Holds(b, InReq(k, j - M), pages[j]);
      }
      assert InPool(b, pages[j]);
    }
  }

  /** A commit of `q` by a request with `n` of its `total` tokens computed binds only pages that
      hold their tokens' entries if and only if it binds nothing new or all of `q` was computed. */
  lemma CommitFilledIff(T: Tree, own: Owners, root: RadixNode, P: nat, b: Books, q: Path, pages: seq<int>, M: nat,
                        k: nat, n: nat, total: nat)
    requires P >= 1 && CommitReady(T, own, root, P, b, q, pages, M, k) && |q| * P <= total && n <= total
    ensures NewFilled(b.tree, q, pages, n, total, b.n, P) <==> q == [] || q in own || |q| * P <= n
  {
    var B, B' := b.tree, Insert(b.tree, q, pages[..|q|]);
    CommitInPool(T, own, root, P, b, q, pages, M, k);
    BindAt(T, own);
    forall p {:trigger FilledAt(B, B', p, pages, n, total, b.n, P)} | p in B' && p !in B && p != []
      ensures q !in own && q != [] && p <= q && |p| * P <= |q| * P
      ensures FilledAt(B, B', p, pages, n, total, b.n, P) <==> |p| * P <= n
    {
      InsertPoint(B, q, pages[..|q|], p);
      if q in own { PrefixClosed(T, own, root, P, q, p); }
      MulMono(|p|, |q|, P);
      PrefixFilledIff(B, q, pages, p, n, total, b.n, P);
    }
    if q != [] && q !in own {
      InsertPoint(B, q, pages[..|q|], q);
      assert FilledAt(B, B', q, pages, n, total, b.n, P) <==> |q| * P <= n;
    }
    if q == [] || q in own || |q| * P <= n {
      forall p {:trigger FilledAt(B, B', p, pages, n, total, b.n, P)}
        ensures FilledAt(B, B', p, pages, n, total, b.n, P) {}
    }
  }

  // ---- the two ways a request ends ----

  /** The entry of the newest token has not been computed. */
  ghost predicate OneBehind(r: Request, s: RS) {
    |r.inputIds| + |s.out| > 0 && s.kv == Some(|r.inputIds| + |s.out| - 1)
  }

  /** So it is when a request finishes, after the prefill that ended its prompt or after a decode
      step, and when a running request is aborted before the next decode step has reached it. */
  lemma EndsOneBehind(r: Request, s: RS, t: int, least: nat)
    ensures PostPrefill(r, s, Some(t)) || FedOK(r, s) ==> OneBehind(r, Tokened(s, t))
    ensures RunOK(r, s, least) ==> OneBehind(r, s)
  {}

  /** Then the commit binds only pages that hold their tokens' entries if and only if it binds
      nothing new or the last token does not fill a page. */
  lemma FinishFilledIff(T: Tree, own: Owners, root: RadixNode, P: nat, b: Books, pages: seq<int>, M: nat, k: nat,
                        r: Request, s: RS)
    requires P >= 1 && OneBehind(r, s) && CommitReady(T, own, root, P, b, Blocks(r.inputIds + s.out, P), pages, M, k)
    ensures var toks := r.inputIds + s.out;
      NewFilled(b.tree, Blocks(toks, P), pages, s.kv.value, |toks|, b.n, P) <==>
      Blocks(toks, P) in own || |toks| % P != 0
  {
    hide Blocks, Insert, NewFilled, CommitReady;
    var toks := r.inputIds + s.out;
    var q := Blocks(toks, P);
    BlocksOf(toks, P);
    CommitFilledIff(T, own, root, P, b, q, pages, M, k, |toks| - 1, |toks|);
    LastPage(|toks|, P);
  }

  lemma LastPage(n: nat, P: nat)
    requires P >= 1 && n > 0
    ensures (n / P) * P <= n - 1 <==> n % P != 0
    ensures n / P == 0 ==> n % P != 0
  {
    assert n == (n / P) * P + n % P;
  }

  lemma DivSmallIff(n: nat, P: nat)
    requires P >= 1 && n / P == 0
    ensures n < P && n % P == n
  {
    assert n == (n / P) * P + n % P;
  }

  /** A prompt given up with `s.offset` tokens computed is committed as a whole: that is sound if
      and only if it binds nothing new or its whole pages were computed. */
  lemma AbortFilledIff(T: Tree, own: Owners, root: RadixNode, P: nat, b: Books, pages: seq<int>, M: nat, k: nat,
                       r: Request, s: RS)
    requires P >= 1 && PrefOK(r, s) && CommitReady(T, own, root, P, b, r.Prompt(P), pages, M, k)
    ensures NewFilled(b.tree, r.Prompt(P), pages, s.offset, |r.inputIds|, b.n, P) <==>
      |r.inputIds| < P || r.Prompt(P) in own || PageAlignLen(|r.inputIds|, P) <= s.offset
  {
    BlocksOf(r.inputIds, P);
    CommitFilledIff(T, own, root, P, b, r.Prompt(P), pages, M, k, s.offset, |r.inputIds|);
    if r.Prompt(P) == [] { DivSmallIff(|r.inputIds|, P); }
    if |r.inputIds| < P { DivSmall(|r.inputIds|, P); }
  }
}
