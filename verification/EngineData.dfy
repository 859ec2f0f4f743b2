/** The pages of a live request as storage for its keys and values. */
module EngineData {
  import opened Paging
  import opened TreeWalk
  import opened CacheRuns
  import opened PageLedger
  import opened Requests
  import opened RequestViews
  import opened KvData
  import opened KvStore
  import opened PagedEngine
  import opened Wrappers

  /** The books of an engine whose live requests have the given loans. */
  ghost predicate BooksOf(b: Books, v: Cache, loans: Loans, P: nat)
    requires P >= 1
  {
    Ledger(b) && b.tree == v.bind && b.priv == Priv(loans) && LoansKept(v, P, loans)
  }

  ghost function PlaceOf(l: Loan, k: nat, P: nat, i: nat): Slot
    requires P >= 1 && (i < l.M ==> i < |l.req.Prompt(P)|)
  {
    if i < l.M then InTree(l.req.Prompt(P)[..i + 1]) else InReq(k, i - l.M)
  }

  /** Where the ledger has the `i`-th page of a live request. */
  lemma LoanHolds(b: Books, v: Cache, loans: Loans, k: nat, P: nat, i: nat)
    requires P >= 1 && BooksOf(b, v, loans, P) && k in loans && i < |loans[k].pages|
    ensures var l := loans[k];
      (i < l.M ==> i < |l.req.Prompt(P)|) && Holds(b, PlaceOf(l, k, P, i), l.pages[i]) && InPool(b, l.pages[i])
  {
    var l := loans[k];
    assert LoanOK(v, P, l);
    if i < l.M {
      assert PageAt(v.bind, l.req.Prompt(P), l.pages[..l.M], i);
    }
    assert Holds(b, PlaceOf(l, k, P, i), l.pages[i]);
  }

  /** The pages of a live request are pages of the pool, all different. */
  lemma LoanNoDup(b: Books, v: Cache, loans: Loans, k: nat, P: nat)
    requires P >= 1 && BooksOf(b, v, loans, P) && k in loans
    ensures NoDup(loans[k].pages)
    ensures forall i {:trigger loans[k].pages[i]} :: 0 <= i < |loans[k].pages| ==> 0 <= loans[k].pages[i] < b.n
  {
    var l := loans[k];
    forall i {:trigger l.pages[i]} | 0 <= i < |l.pages| ensures 0 <= l.pages[i] < b.n {
      LoanHolds(b, v, loans, k, P, i);
    }
    forall i, j {:trigger l.pages[i], l.pages[j]} | 0 <= i < j < |l.pages| ensures l.pages[i] != l.pages[j] {
      LoanHolds(b, v, loans, k, P, i);
      LoanHolds(b, v, loans, k, P, j);
      PlacesDiffer(l, k, P, i, j);
    }
  }

  lemma PlacesDiffer(l: Loan, k: nat, P: nat, i: nat, j: nat)
    requires P >= 1 && i < j && (i < l.M ==> i < |l.req.Prompt(P)|) && (j < l.M ==> j < |l.req.Prompt(P)|)
    ensures PlaceOf(l, k, P, i) != PlaceOf(l, k, P, j)
  {
    if j < l.M {
      var q := l.req.Prompt(P);
      assert |q[..i + 1]| != |q[..j + 1]|;
    }
  }

  /** A pool of pages of `P` slots each. */
  ghost predicate PoolOK(kv: seq<PageData>, n: nat, P: nat) {
    |kv| == n && forall x {:trigger PageOK(kv, x, P)} :: 0 <= x < n ==> PageOK(kv, x, P)
  }

  /** They hold every token the request may ever have. */
  lemma LoanFits(b: Books, v: Cache, loans: Loans, k: nat, P: nat, kv: seq<PageData>, n: nat)
    requires P >= 1 && BooksOf(b, v, loans, P) && k in loans && PoolOK(kv, b.n, P)
    requires n <= |loans[k].req.inputIds| + loans[k].req.maxNewTokens
    ensures Fits(kv, loans[k].pages, n, P)
  {
    var l := loans[k];
    assert LoanOK(v, P, l);
    NeedMono(n, |l.req.inputIds| + l.req.maxNewTokens, P);
    LoanNoDup(b, v, loans, k, P);
    forall j {:trigger l.pages[j]} | 0 <= j < |l.pages| ensures PageOK(kv, l.pages[j], P) {
      assert PageOK(kv, l.pages[j], P) by { assert 0 <= l.pages[j] < b.n; }
    }
  }

  ghost predicate OfRequest(s: Slot, k: nat) {
    s.InReq? && s.k == k
  }

  /** Pages in the tree, on the free list and of other requests than `k` hold what they held. */
  ghost predicate OthersKept(b: Books, kv: seq<PageData>, kv': seq<PageData>, k: nat) {
    && |kv'| == |kv|
    && forall s, x {:trigger Holds(b, s, x)} :: Holds(b, s, x) && !OfRequest(s, k) && 0 <= x < |kv| ==> kv'[x] == kv[x]
  }

  lemma LiveWriteSpares(b: Books, v: Cache, loans: Loans, k: nat, P: nat, kv: seq<PageData>, at: nat,
                        toks: seq<TokenKV>, s: Slot, x: int)
    requires P >= 1 && BooksOf(b, v, loans, P) && k in loans && at / P >= loans[k].M
    requires Holds(b, s, x) && !OfRequest(s, k) && 0 <= x < |kv|
    ensures var kv' := WriteTokens(kv, loans[k].pages, at, toks, P); |kv'| == |kv| && kv'[x] == kv[x]
  {
    var l := loans[k];
    forall j {:trigger l.pages[j]} | at / P <= j < |l.pages| ensures l.pages[j] != x {
      LoanHolds(b, v, loans, k, P, j);
    }
    TokensBefore(kv, l.pages, at, toks, P, x);
  }

  /** Tokens written past the borrowed pages of a live request change nobody else's pages: not the
      tree's, which may be lent to others as well, and not those of any other request. */
  lemma LiveWrites(b: Books, v: Cache, loans: Loans, k: nat, P: nat, kv: seq<PageData>, at: nat, toks: seq<TokenKV>)
    requires P >= 1 && BooksOf(b, v, loans, P) && k in loans && at >= loans[k].M * P
    ensures OthersKept(b, kv, WriteTokens(kv, loans[k].pages, at, toks, P), k)
  {
    hide BooksOf;
    WriteSize(kv, loans[k].pages, at, toks, P);
    DivMono(loans[k].M * P, at, P);
    Multiple(loans[k].M, P);
    forall s, x {:trigger Holds(b, s, x)} | Holds(b, s, x) && !OfRequest(s, k) && 0 <= x < |kv|
      ensures WriteTokens(kv, loans[k].pages, at, toks, P)[x] == kv[x]
    {
      LiveWriteSpares(b, v, loans, k, P, kv, at, toks, s, x);
    }
  }

  /** A prompt stored from the start and then extended token by token is read back exactly; if
      nothing is borrowed everybody else's pages are left alone. */
  lemma LiveRoundTrip(b: Books, v: Cache, loans: Loans, k: nat, P: nat, kv: seq<PageData>, prompt: seq<TokenKV>,
                      decoded: seq<TokenKV>)
    requires P >= 1 && BooksOf(b, v, loans, P) && k in loans && PoolOK(kv, b.n, P)
    requires |prompt| + |decoded| <= |loans[k].req.inputIds| + loans[k].req.maxNewTokens
    ensures var pages := loans[k].pages;
      var kv' := WriteTokens(WriteTokens(kv, pages, 0, prompt, P), pages, |prompt|, decoded, P);
      && Gathered(kv', pages, |prompt| + |decoded|, P) == prompt + decoded
      && (loans[k].M == 0 ==> OthersKept(b, kv, kv', k))
  {
    hide BooksOf;
    LoanFits(b, v, loans, k, P, kv, |prompt| + |decoded|);
    LoanNoDup(b, v, loans, k, P);
    FreshRoundTrip(kv, loans[k].pages, prompt, decoded, P);
    if loans[k].M == 0 {
      LiveWrites(b, v, loans, k, P, kv, 0, prompt + decoded);
      WriteJoin(kv, loans[k].pages, 0, prompt, decoded, P);
    }
  }

  // ---- several live requests at once ----

  /** Tokens stored or appended for request `k`, after those it has. */
  datatype KvOp = KvOp(k: nat, toks: seq<TokenKV>)

  /** What the live requests have written, each in its own pages. */
  type Contents = map<nat, seq<TokenKV>>

  /** Past the borrowed pages and within the reserved ones. */
  ghost predicate OpOK(loans: Loans, c: Contents, P: nat, op: KvOp) {
    && op.k in loans && op.k in c && loans[op.k].M * P <= |c[op.k]|
    && |c[op.k]| + |op.toks| <= |loans[op.k].req.inputIds| + loans[op.k].req.maxNewTokens
  }

  ghost predicate OpsOK(loans: Loans, c: Contents, P: nat, ops: seq<KvOp>) {
    ops == [] ||
    (OpsOK(loans, c, P, ops[..|ops| - 1]) && OpOK(loans, After(c, ops[..|ops| - 1]), P, ops[|ops| - 1]))
  }

  ghost function After(c: Contents, ops: seq<KvOp>): Contents {
    if ops == [] then c else
      var d, op := After(c, ops[..|ops| - 1]), ops[|ops| - 1];
      if op.k in d then d[op.k := d[op.k] + op.toks] else d
  }

  /** The pool after the writes, in any interleaving. */
  ghost function Pool(kv: seq<PageData>, loans: Loans, c: Contents, ops: seq<KvOp>, P: nat): seq<PageData> {
    if ops == [] then kv else
      var d, op := After(c, ops[..|ops| - 1]), ops[|ops| - 1];
      var kv' := Pool(kv, loans, c, ops[..|ops| - 1], P);
      if op.k in loans && op.k in d then WriteTokens(kv', loans[op.k].pages, |d[op.k]|, op.toks, P) else kv'
  }

  ghost predicate HoldsOwn(kv: seq<PageData>, loans: Loans, c: Contents, P: nat, k: nat) {
    k in c && k in loans && |c[k]| <= |loans[k].req.inputIds| + loans[k].req.maxNewTokens
    && Gathered(kv, loans[k].pages, |c[k]|, P) == c[k]
  }

  ghost predicate AllHold(kv: seq<PageData>, loans: Loans, c: Contents, P: nat) {
    forall k {:trigger HoldsOwn(kv, loans, c, P, k)} :: k in loans ==> HoldsOwn(kv, loans, c, P, k)
  }

  /** A request whose pages were left alone reads what it read. */
  lemma OtherReads(b: Books, v: Cache, loans: Loans, k: nat, j: nat, P: nat, kv: seq<PageData>, kv': seq<PageData>,
                   n: nat)
    requires P >= 1 && BooksOf(b, v, loans, P) && k in loans && j in loans && j != k && OthersKept(b, kv, kv', k)
    ensures Gathered(kv', loans[j].pages, n, P) == Gathered(kv, loans[j].pages, n, P)
  {
    var l := loans[j];
    forall t {:trigger Gathered(kv', l.pages, n, P)[t]} | 0 <= t < n
      ensures Gathered(kv', l.pages, n, P)[t] == Gathered(kv, l.pages, n, P)[t]
    {
      if t / P < |l.pages| {
        LoanHolds(b, v, loans, j, P, t / P);
      }
    }
  }

  lemma {:induction false} PoolKept(kv: seq<PageData>, pages: seq<int>, at: nat, toks: seq<TokenKV>, n: nat, P: nat)
    requires PoolOK(kv, n, P)
    ensures PoolOK(WriteTokens(kv, pages, at, toks, P), n, P)
  {
    if toks != [] {
      var k := |toks| - 1;
      PoolKept(kv, pages, at, toks[..k], n, P);
      var mid, kv' := WriteTokens(kv, pages, at, toks[..k], P), WriteTokens(kv, pages, at, toks, P);
      forall x {:trigger PageOK(kv', x, P)} | 0 <= x < n ensures PageOK(kv', x, P) {
        assert PageOK(mid, x, P);
      }
    }
  }

  /** One more write. */
  lemma WriteHolds(b: Books, v: Cache, loans: Loans, P: nat, kv: seq<PageData>, c: Contents, op: KvOp)
    requires P >= 1 && BooksOf(b, v, loans, P) && PoolOK(kv, b.n, P) && AllHold(kv, loans, c, P)
    requires OpOK(loans, c, P, op)
    ensures var kv' := WriteTokens(kv, loans[op.k].pages, |c[op.k]|, op.toks, P);
      AllHold(kv', loans, c[op.k := c[op.k] + op.toks], P) && OthersKept(b, kv, kv', op.k)
  {
    var k, at := op.k, |c[op.k]|;
    var kv', c' := WriteTokens(kv, loans[k].pages, at, op.toks, P), c[k := c[k] + op.toks];
    assert HoldsOwn(kv, loans, c, P, k);
    LiveWrites(b, v, loans, k, P, kv, at, op.toks);
    LoanFits(b, v, loans, k, P, kv, at + |op.toks|);
    LoanNoDup(b, v, loans, k, P);
    AppendRoundTrip(kv, loans[k].pages, at, op.toks, P);
    forall j {:trigger HoldsOwn(kv', loans, c', P, j)} | j in loans ensures HoldsOwn(kv', loans, c', P, j) {
      if j != k {
        assert HoldsOwn(kv, loans, c, P, j);
        OtherReads(b, v, loans, k, j, P, kv, kv', |c[j]|);
      }
    }
  }

  /** However the writes of the live requests are interleaved, each of them reads back exactly its
      own tokens in order, and the pages of the tree and the free list hold what they held. */
  lemma {:induction false} InterleavedExact(b: Books, v: Cache, loans: Loans, P: nat, kv: seq<PageData>, c: Contents,
                                            ops: seq<KvOp>)
    requires P >= 1 && BooksOf(b, v, loans, P) && PoolOK(kv, b.n, P) && AllHold(kv, loans, c, P)
    requires OpsOK(loans, c, P, ops)
    ensures var kv' := Pool(kv, loans, c, ops, P);
      && PoolOK(kv', b.n, P) && AllHold(kv', loans, After(c, ops), P)
      && forall s, x {:trigger Holds(b, s, x)} :: Holds(b, s, x) && !s.InReq? && 0 <= x < |kv| ==> kv'[x] == kv[x]
  {
    if ops != [] {
      var ops', op := ops[..|ops| - 1], ops[|ops| - 1];
      var d, mid := After(c, ops'), Pool(kv, loans, c, ops', P);
      InterleavedExact(b, v, loans, P, kv, c, ops');
      WriteHolds(b, v, loans, P, mid, d, op);
      PoolKept(mid, loans[op.k].pages, |d[op.k]|, op.toks, b.n, P);
    }
  }

  /** Storing a slice of a live request leaves its borrowed pages as they were, for all pools and
      data, if and only if it borrows none. */
  lemma BorrowedSparedIff(b: Books, v: Cache, loans: Loans, k: nat, P: nat, len: nat)
    requires P >= 1 && BooksOf(b, v, loans, P) && k in loans
    requires 0 < len <= |loans[k].req.inputIds| + loans[k].req.maxNewTokens
    ensures StoreSpares(loans[k].pages, loans[k].M, len, b.n, P) <==> loans[k].M == 0
  {
    var l := loans[k];
    assert LoanOK(v, P, l);
    NeedMono(len, |l.req.inputIds| + l.req.maxNewTokens, P);
    LoanNoDup(b, v, loans, k, P);
    StoreSparesIff(l.pages, l.M, len, b.n, P);
  }

  /** A slice becomes the next tokens of a live request if and only if it is the first, or empty. */
  lemma LiveStoreNextIff(b: Books, v: Cache, loans: Loans, k: nat, P: nat, n: nat, len: nat)
    requires P >= 1 && BooksOf(b, v, loans, P) && k in loans
    requires n + len <= |loans[k].req.inputIds| + loans[k].req.maxNewTokens
    ensures StoresNext(loans[k].pages, n, len, b.n, P) <==> n == 0 || len == 0
  {
    var l := loans[k];
    assert LoanOK(v, P, l);
    NeedMono(n + len, |l.req.inputIds| + l.req.maxNewTokens, P);
    LoanNoDup(b, v, loans, k, P);
    StoreNextIff(l.pages, n, len, b.n, P);
  }

  /** Just after a successful init the next slice is such a continuation exactly for a partial hit. */
  lemma PartialHitContinues(r: Request, s: RS, s': RS)
    requires s.kv.None? && Opened(r, s, s')
    ensures Continues(r, s') <==> 0 < s'.hit < |r.inputIds|
  {}
}
