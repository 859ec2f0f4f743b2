/** Paged request bookkeeping over the plain prefix cache (engine.py:216-233, 624-672, 992-1028). */
module PagedEngine {
  import opened Paging
  import opened TreeModel
  import opened TreeOps
  import opened TreeLocks
  import opened TreeWalk
  import opened TreeInsert
  import opened TreeEvict
  import opened CacheRuns
  import opened PrefixCache
  import opened PageLedger
  import opened CommitLedger
  import opened Requests
  import opened RequestViews
  import opened KvStore
  import opened Wrappers

  /** Request `h` borrows the first `M` of `pages` for the beginning of `q`, under a lock that
      covers them. */
  ghost predicate Borrows(v: Cache, h: object, q: Path, pages: seq<int>, M: nat) {
    && M <= |q| && M <= |pages| && PagesMatch(v.bind, q, pages[..M])
    && (if M > 0 then h in v.held && q[..M] <= v.held[h] else h !in v.held)
  }

  lemma BorrowsStep(a: Cache, e: Event, b: Cache, h: object, q: Path, pages: seq<int>, M: nat)
    requires Step(a, e, b) && Borrows(a, h, q, pages, M) && e != Unlock(h) && !(e.Lock? && e.h == h)
    ensures Borrows(b, h, q, pages, M)
  {
    forall i {:trigger PageAt(b.bind, q, pages[..M], i)} | 0 <= i < M ensures PageAt(b.bind, q, pages[..M], i) {
      assert PageAt(a.bind, q, pages[..M], i);
      assert q[..i + 1] <= q[..M];
      assert Protected(a.held, h, q[..i + 1]);
      BorrowStep(a, e, b, h, q[..i + 1]);
    }
    if M > 0 {
      assert PageAt(a.bind, q, pages[..M], 0);
      assert q[..0 + 1] <= q[..M];
      assert Protected(a.held, h, q[..0 + 1]);
      BorrowStep(a, e, b, h, q[..0 + 1]);
    }
  }

  /** A live request's entry: its pages, the first `M` of them borrowed for the beginning of its
      prompt. */
  datatype Loan = Loan(req: Request, pages: seq<int>, M: nat)

  type Loans = map<nat, Loan>

  /** A live request holds exactly its peak number of pages and borrows under its own lock. */
  ghost predicate LoanOK(v: Cache, P: nat, l: Loan)
    requires P >= 1
  {
    |l.pages| == l.req.PeakPages(P) && Borrows(v, l.req, l.req.Prompt(P), l.pages, l.M)
  }

  ghost predicate LoansKept(v: Cache, P: nat, loans: Loans)
    requires P >= 1
  {
    forall k {:trigger LoanOK(v, P, loans[k])} :: k in loans ==> LoanOK(v, P, loans[k])
  }

  /** Every lock is held by a live request. */
  ghost predicate HeldByLive(v: Cache, loans: Loans) {
    forall h {:trigger h in v.held} :: h in v.held ==> exists k :: k in loans && loans[k].req == h
  }

  ghost function Priv(loans: Loans): map<nat, seq<int>> {
    map k | k in loans && loans[k].M <= |loans[k].pages| :: loans[k].pages[loans[k].M..]
  }

  ghost function Reqs(loans: Loans): set<Request> {
    set k | k in loans :: loans[k].req
  }

  lemma ReqsAdded(loans: Loans, k: nat, l: Loan)
    requires k !in loans
    ensures Reqs(loans[k := l]) == Reqs(loans) + {l.req}
  {
    forall r {:trigger r in Reqs(loans)} | r in Reqs(loans) ensures r in Reqs(loans[k := l]) {
      var j :| j in loans && loans[j].req == r;
      assert j in loans[k := l] && loans[k := l][j].req == r;
    }
    assert loans[k := l][k].req == l.req;
  }

  /** Anything others do to the cache leaves every live request's loan intact. */
  lemma LoansStep(a: Cache, e: Event, b: Cache, P: nat, loans: Loans)
    requires P >= 1 && Step(a, e, b) && LoansKept(a, P, loans)
    requires e.Unlock? ==> forall k {:trigger loans[k]} :: k in loans ==> loans[k].req != e.h
    requires e.Lock? ==> forall k {:trigger loans[k]} :: k in loans ==> loans[k].req != e.h
    ensures LoansKept(b, P, loans)
    ensures (e.Insertion? || e.Eviction?) && HeldByLive(a, loans) ==> HeldByLive(b, loans)
  {
    forall k {:trigger LoanOK(b, P, loans[k])} | k in loans ensures LoanOK(b, P, loans[k]) {
      assert LoanOK(a, P, loans[k]);
      BorrowsStep(a, e, b, loans[k].req, loans[k].req.Prompt(P), loans[k].pages, loans[k].M);
    }
  }

  /** What the lock of a match covers. */
  lemma MatchBorrows(T: Tree, own: Owners, root: RadixNode, P: nat, locks: Locks, r: MatchResult, q: Path, h: object)
    requires WF(T, own, root, P) && MatchOK(r, q, T, own, root, P) && h !in locks
    ensures var M := |r.matchedPages|;
      var locks' := if r.lastNode == root then locks else locks[h := r.lastNode];
      (M > 0 <==> r.lastNode != root) && Borrows(Abs(T, own, locks'), h, q, r.matchedPages, M)
  {
    var M := |r.matchedPages|;
    assert r.matchedPages[..M] == r.matchedPages;
    if M > 0 {
      assert OwnerOK(T, own, q[..M]);
      OwnPath(T, own, root, P, r.lastNode);
    }
  }

  /** The books after an allocation, successful or not, and whatever eviction it needed. */
  lemma AllocLedger(b: Books, tree': map<Path, int>, free': seq<int>, gone: seq<Path>, freed: seq<int>, k: nat, n: nat,
                    got: Option<seq<int>>)
    requires Ledger(b) && Unbound(b.tree, tree', gone, freed) && k !in b.priv
    requires var all := b.free + freed;
      if got.Some? then n <= |all| && got.value == Popped(all, n) && free' == all[..|all| - n] else free' == all
    ensures Ledger(Books(b.n, free', tree', if got.Some? then b.priv[k := got.value] else b.priv))
  {
    var m := Books(b.n, b.free + freed, tree', b.priv);
    EvictLedger(b, m, gone, freed);
    if got.Some? {
      TakeLedger(m, Books(b.n, free', tree', b.priv[k := got.value]), k, got.value);
    }
  }

  ghost function Above(s: set<nat>): (m: nat)
    ensures forall k {:trigger k in s} :: k in s ==> k < m
  {
    if s == {} then 0 else
      var k :| k in s;
      var m := Above(s - {k});
      assert s == (s - {k}) + {k};
      if m > k then m else k + 1
  }

  ghost function FreshTicket(loans: Loans): (k: nat)
    ensures k !in loans
  {
    Above(loans.Keys)
  }

  lemma NotHeld(T: Tree, own: Owners, root: RadixNode, refs: Refs, locks: Locks, loans: Loans, r: Request)
    requires Counted(T, root, refs, locks, null) && HeldByLive(Abs(T, own, locks), loans)
    requires forall k {:trigger loans[k]} :: k in loans ==> loans[k].req != r
    ensures r !in locks
  {
    forall h {:trigger h in locks} | h in locks ensures h in Abs(T, own, locks).held {
      assert HolderOK(T, root, locks, h);
    }
  }

  lemma ViewKeys(T: Tree, own: Owners, root: RadixNode, refs: Refs, locks: Locks)
    requires Counted(T, root, refs, locks, null)
    ensures Abs(T, own, locks).held.Keys == locks.Keys
  {
    forall h {:trigger h in locks} | h in locks ensures h in Abs(T, own, locks).held {
      assert HolderOK(T, root, locks, h);
    }
  }

  lemma HeldBack(T: Tree, own: Owners, root: RadixNode, refs: Refs, locks: Locks, v: Cache, loans: Loans)
    requires Counted(T, root, refs, locks, null) && HeldByLive(v, loans) && v.held.Keys == locks.Keys
    ensures HeldByLive(Abs(T, own, locks), loans)
  {
    ViewKeys(T, own, root, refs, locks);
    HeldSame(v, Abs(T, own, locks), loans);
  }

  lemma HeldSame(v: Cache, v': Cache, loans: Loans)
    requires HeldByLive(v, loans) && v'.held.Keys <= v.held.Keys
    ensures HeldByLive(v', loans)
  {
    forall h {:trigger h in v'.held} | h in v'.held ensures exists j :: j in loans && loans[j].req == h {
      assert h in v.held;
    }
  }

  /** A match never exceeds the prompt, nor the pages reserved for the request. */
  lemma MatchFits(r: Request, mr: MatchResult, T: Tree, own: Owners, root: RadixNode, P: nat)
    requires P >= 1 && MatchOK(mr, r.Prompt(P), T, own, root, P)
    ensures mr.matchedTokens <= |r.inputIds| && |mr.matchedPages| <= r.PeakPages(P)
  {
    BlocksOf(r.inputIds, P);
    NeedCovers(|r.inputIds|, |r.inputIds| + r.maxNewTokens, P);
    MulMono(|mr.matchedPages|, |r.inputIds| / P, P);
  }

  lemma LoanAdded(v: Cache, P: nat, loans: Loans, loans': Loans, k: nat, l: Loan)
    requires P >= 1 && LoansKept(v, P, loans) && k !in loans && loans' == loans[k := l] && LoanOK(v, P, l)
    ensures LoansKept(v, P, loans')
    ensures Priv(loans') == Priv(loans)[k := l.pages[l.M..]]
  {
    forall j {:trigger LoanOK(v, P, loans'[j])} | j in loans' ensures LoanOK(v, P, loans'[j]) {
      if j != k { assert LoanOK(v, P, loans[j]); }
    }
  }

  lemma HeldAdded(v: Cache, v': Cache, loans: Loans, loans': Loans, k: nat, l: Loan)
    requires HeldByLive(v, loans) && k !in loans && loans' == loans[k := l]
    requires v'.held.Keys <= v.held.Keys + {l.req as object}
    ensures HeldByLive(v', loans')
  {
    forall h {:trigger h in v'.held} | h in v'.held ensures exists j :: j in loans' && loans'[j].req == h {
      if h == l.req {
        assert k in loans' && loans'[k].req == h;
      } else {
        assert h in v.held;
        var j :| j in loans && loans[j].req == h;
        assert j in loans' && loans'[j].req == h;
      }
    }
  }

  /** The counts of the nodes that are left are what they were. */
  ghost predicate Restored(s: Snap, t: Snap) {
    forall n {:trigger n in t.tree} :: n in t.tree ==> n in s.refs && n in t.refs && t.refs[n] == s.refs[n]
  }

  /** Taking a lock, evicting, and releasing the lock leaves the counts as they were. */
  lemma UndoBump(root: RadixNode, node: RadixNode, s0: Snap, s1: Snap, s2: Snap, s3: Snap)
    requires node in s0.tree && s0.refs.Keys == s0.tree.Keys && s1.tree == s0.tree
    requires s1.refs == Bump(s0.tree, root, s0.refs, node, 1) && Shrunk(s1, s2) && node in s2.tree
    requires s2.refs.Keys == s2.tree.Keys && s3.tree == s2.tree && s3.refs == Bump(s2.tree, root, s2.refs, node, -1)
    ensures Restored(s0, s3)
  {}

  lemma NoLockRestored(s0: Snap, s1: Snap, s2: Snap)
    requires s1.refs == s0.refs && Shrunk(s1, s2)
    ensures Restored(s0, s2)
  {}

  /** `s1` is the cache `s0` with the lock of `r` on `node`, if it took one, on top of `locks0`. */
  ghost predicate LockedOn(root: RadixNode, node: RadixNode?, r: object, locks0: Locks, locks: Locks, s0: Snap,
                           s1: Snap)
  {
    && r !in locks0 && s0.tree == s1.tree && s0.refs.Keys == s0.tree.Keys
    && if node == null then locks == locks0 && s1.refs == s0.refs
       else locks == locks0[r := node] && node in s0.tree && s1.refs == Bump(s0.tree, root, s0.refs, node, 1)
  }

  /** `s3` is the cache `s2` after `r` released its lock on `node`, if it had one. */
  ghost predicate Unlocked(root: RadixNode, node: RadixNode?, r: object, locks: Locks, locks': Locks, s2: Snap,
                           s3: Snap)
  {
    && s3.tree == s2.tree
    && if node == null then s3.refs == s2.refs && locks' == locks
       else node in s2.tree && s3.refs == Bump(s2.tree, root, s2.refs, node, -1) && locks' == locks - {r}
  }

  /** The failing end of an init, on values: locks and counts are back where they were. */
  lemma Undone(root: RadixNode, node: RadixNode?, r: object, locks0: Locks, locks2: Locks, locks3: Locks, s0: Snap,
               s1: Snap, s2: Snap, s3: Snap)
    requires LockedOn(root, node, r, locks0, locks2, s0, s1) && Shrunk(s1, s2)
    requires s2.refs.Keys == s2.tree.Keys && Unlocked(root, node, r, locks2, locks3, s2, s3)
    ensures locks3 == locks0 && Restored(s0, s3)
  {
    if node == null {
      NoLockRestored(s0, s1, s2);
    } else {
      PutRemove<object, RadixNode>(locks0, r, node);
      UndoBump(root, node, s0, s1, s2, s3);
    }
  }

  /** What a commit starts from. */
  lemma CommitSetup(v: Cache, P: nat, l: Loan, outputIds: seq<int>)
    requires P >= 1 && LoanOK(v, P, l) && |outputIds| <= l.req.maxNewTokens
    ensures var q := Blocks(l.req.inputIds + outputIds, P);
      l.M <= |q| <= |l.pages| && PagesMatch(v.bind, q, l.pages[..l.M])
  {
    var p, q := l.req.Prompt(P), Blocks(l.req.inputIds + outputIds, P);
    BlocksPrefix(l.req.inputIds, outputIds, P);
    BlocksOf(l.req.inputIds + outputIds, P);
    NeedCovers(|l.req.inputIds + outputIds|, |l.req.inputIds| + l.req.maxNewTokens, P);
    forall i {:trigger PageAt(v.bind, q, l.pages[..l.M], i)} | 0 <= i < l.M
      ensures PageAt(v.bind, q, l.pages[..l.M], i)
    {
      assert PageAt(v.bind, p, l.pages[..l.M], i);
      assert p[..i + 1] == q[..i + 1];
    }
  }

  lemma KeptSmaller(v: Cache, P: nat, loans: Loans, k: nat)
    requires P >= 1 && LoansKept(v, P, loans)
    ensures LoansKept(v, P, loans - {k})
  {
    var loans' := loans - {k};
    forall j {:trigger LoanOK(v, P, loans'[j])} | j in loans' ensures LoanOK(v, P, loans'[j]) {
      assert LoanOK(v, P, loans[j]);
    }
  }

  lemma LoanRemoved(v: Cache, P: nat, loans: Loans, k: nat)
    requires P >= 1 && k in loans && LoansKept(v, P, loans - {k})
    requires forall j {:trigger loans[j]} :: j in loans && j != k ==> loans[j].req != loans[k].req
    ensures Reqs(loans - {k}) == Reqs(loans) - {loans[k].req}
    ensures Priv(loans - {k}) == Priv(loans) - {k}
  {
    forall r {:trigger r in Reqs(loans)} | r in Reqs(loans) && r != loans[k].req ensures r in Reqs(loans - {k}) {
      var j :| j in loans && loans[j].req == r;
      assert j in loans - {k} && (loans - {k})[j].req == r;
    }
  }

  lemma HeldRemoved(v: Cache, v': Cache, loans: Loans, k: nat)
    requires k in loans && HeldByLive(v, loans) && v'.held.Keys <= v.held.Keys - {loans[k].req as object}
    ensures HeldByLive(v', loans - {k})
  {
    forall h {:trigger h in v'.held} | h in v'.held ensures exists j :: j in loans - {k} && (loans - {k})[j].req == h {
      assert h in v.held;
      var j :| j in loans && loans[j].req == h;
      assert j in loans - {k} && (loans - {k})[j].req == h;
    }
  }

  lemma HeldLess(T: Tree, own: Owners, root: RadixNode, refs: Refs, locks: Locks, v: Cache, loans: Loans, k: nat)
    requires k in loans && HeldByLive(v, loans) && Counted(T, root, refs, locks, null)
    requires locks.Keys <= v.held.Keys - {loans[k].req as object}
    ensures HeldByLive(Abs(T, own, locks), loans - {k})
  {
    ViewKeys(T, own, root, refs, locks);
    HeldRemoved(v, Abs(T, own, locks), loans, k);
  }

  lemma PutRemove<K, V>(m: map<K, V>, k: K, v: V)
    requires k !in m
    ensures m[k := v] - {k} == m
  {}

  /** The request holds nothing: the state a rollback leaves it in. */
  ghost predicate Blank(r: Request)
    reads r`kvCache, r`radixLockNode, r`prefillOffset, r`cacheHitTokens
  {
    r.kvCache == None && r.radixLockNode == null && r.prefillOffset == 0 && r.cacheHitTokens == 0
  }

  /** The request holds exactly its peak number of pages; the first are the ones matched, and
      prefill starts after them. */
  ghost predicate Started(r: Request, matched: seq<int>, P: nat)
    requires P >= 1
    reads r`kvCache, r`prefillOffset, r`borrowed
  {
    && r.kvCache.Some? && |r.kvCache.value.pageIndices| == r.PeakPages(P)
    && matched <= r.kvCache.value.pageIndices && r.borrowed == |matched|
    && r.kvCache.value.kvLen == r.prefillOffset
  }

  /** The reservation covers every decode step: the next token of a running request has a page,
      past the borrowed ones. */
  lemma DecodeFits(l: Loan, v: Cache, P: nat, outputs: nat, kvLen: nat)
    requires P >= 1 && LoanOK(v, P, l) && 0 < outputs < l.req.maxNewTokens && kvLen == |l.req.inputIds| + outputs - 1
    ensures PagesNeeded(kvLen + 1, P) <= |l.pages| && l.M <= kvLen / P < |l.pages|
  {
    BlocksOf(l.req.inputIds, P);
    NeedMono(kvLen + 1, |l.req.inputIds| + l.req.maxNewTokens, P);
    NeedMono(|l.req.inputIds|, kvLen, P);
    TokenPage(kvLen, kvLen + 1, P);
  }

  /** The slot a decode step writes for one request: on a page of the request's own. */
  ghost predicate WritesOwn(loans: Loans, r: Request, k: nat, j: nat, c: Target) {
    k in loans && loans[k].req == r && loans[k].M <= j < |loans[k].pages| && loans[k].pages[j] == c.page
  }

  ghost predicate OwnWrite(loans: Loans, r: Request, c: Target) {
    exists k: nat, j: nat :: WritesOwn(loans, r, k, j, c)
  }

  ghost predicate WritesAll(loans: Loans, reqs: seq<Request>, cells: seq<Target>) {
    |cells| <= |reqs| && forall i {:trigger OwnWrite(loans, reqs[i], cells[i])} :: 0 <= i < |cells| ==>
      OwnWrite(loans, reqs[i], cells[i])
  }

  lemma WritesStep(loans: Loans, reqs: seq<Request>, cells: seq<Target>, c: Target)
    requires WritesAll(loans, reqs, cells) && |cells| < |reqs| && OwnWrite(loans, reqs[|cells|], c)
    ensures WritesAll(loans, reqs, cells + [c])
  {
    forall i {:trigger OwnWrite(loans, reqs[i], (cells + [c])[i])} | 0 <= i < |cells| + 1
      ensures OwnWrite(loans, reqs[i], (cells + [c])[i])
    {
      if i < |cells| { assert OwnWrite(loans, reqs[i], cells[i]); }
    }
  }

  /** As long as no page has two owners, a batch of decode steps writes different slots. */
  lemma WritesDiffer(b: Books, loans: Loans, reqs: seq<Request>, cells: seq<Target>)
    requires Apart(b) && b.priv == Priv(loans) && NoDup(reqs) && WritesAll(loans, reqs, cells)
    ensures NoDup(cells)
  {
    forall i, i' {:trigger cells[i], cells[i']} | 0 <= i < i' < |cells| ensures cells[i] != cells[i'] {
      assert OwnWrite(loans, reqs[i], cells[i]) && OwnWrite(loans, reqs[i'], cells[i']);
      var k: nat, j: nat :| WritesOwn(loans, reqs[i], k, j, cells[i]);
      var k': nat, j': nat :| WritesOwn(loans, reqs[i'], k', j', cells[i']);
      assert Holds(b, InReq(k, j - loans[k].M), cells[i].page);
      assert Holds(b, InReq(k', j' - loans[k'].M), cells[i'].page);
    }
  }

  class Engine {
    const pool: KVMemoryPool
    const cache: RadixCache
    const pageSize: nat
    /** The requests that hold pages, by ledger ticket. */
    ghost var loans: Loans
    /** Has the walk of every commit so far been clean? */
    ghost var clean: bool

    /** A request's own fields agree with its loan. */
    ghost predicate LoanSynced(k: nat)
      requires k in loans
      reads this`loans, loans[k].req`kvCache, loans[k].req`radixLockNode, loans[k].req`borrowed, loans[k].req`ticket
      reads cache`locks
    {
      var l := loans[k];
      && l.req.kvCache.Some? && l.req.kvCache.value.pageIndices == l.pages
      && l.req.borrowed == l.M && l.req.ticket == k
      && (if l.M > 0 then l.req in cache.locks
         && l.req.radixLockNode == cache.locks[l.req] else l.req.radixLockNode == null)
    }

    ghost function Live(): set<Request>
      reads this`loans
    {
      Reqs(loans)
    }

    ghost predicate LoansSynced()
      reads this`loans, Live()`kvCache, Live()`radixLockNode, Live()`borrowed, Live()`ticket, cache`locks
    {
      forall k {:trigger LoanSynced(k)} :: k in loans ==> LoanSynced(k)
    }

    /** The parts of the engine, without the requests. */
    ghost predicate Base()
      reads pool`radixCache, cache, cache.tree.Keys`parent, cache.tree.Keys`children, cache.tree.Keys`key
      reads cache.tree.Keys`pages, cache.tree.Keys`tier, cache.tree.Keys`path, cache.tree.Keys`refCount
    {
      && pool.radixCache == cache && cache.pool == pool && cache.Valid() && cache.pin == null
      && pageSize == cache.pageSize
    }

    ghost predicate Valid()
      reads this`loans, pool`radixCache, cache, cache.tree.Keys`parent, cache.tree.Keys`children, cache.tree.Keys`key
      reads cache.tree.Keys`pages, cache.tree.Keys`tier, cache.tree.Keys`path, cache.tree.Keys`refCount
      reads Live()`kvCache, Live()`radixLockNode, Live()`borrowed, Live()`ticket
    {
      && Base() && LoansSynced()
      && LoansKept(cache.View(), pageSize, loans) && HeldByLive(cache.View(), loans)
    }

    ghost function BooksNow(): Books
      reads this`loans, pool`free, cache`tree, cache`own
    {
      Books(pool.numPages, pool.free, cache.Bindings(), Priv(loans))
    }

    constructor (numPages: nat, pageSize: nat, now: int)
      requires pageSize >= 1
      ensures Valid() && loans == map[] && clean && Ledger(BooksNow())
      ensures this.pageSize == pageSize && pool.numPages == numPages && fresh(pool) && fresh(cache)
        && fresh(cache.tree.Keys)
    {
      this.pageSize := pageSize;
      var p := new KVMemoryPool(numPages, pageSize);
      var c := new RadixCache(p, now);
      pool, cache, loans, clean := p, c, map[], true;
      new;
      pool.SetRadixCache(cache);
      assert Base();
      FreshLedger(numPages);
    }

    /** Locks the node a lookup returned, unless it is the root. */
    method LockMatched(r: Request, node: RadixNode)
      requires Base() && r !in cache.locks && node in cache.tree
      modifies r`radixLockNode, cache`refs, cache`locks, cache.tree.Keys`refCount, cache.tree.Keys`lastAccess
      ensures Base()
      ensures if node != cache.root then
                && Step(old(cache.View()), Lock(r, cache.tree[node].path), cache.View())
                && r.radixLockNode == node && cache.locks == old(cache.locks)[r := node]
                && cache.refs == Bump(cache.tree, cache.root, old(cache.refs), node, 1)
              else r.radixLockNode == null && cache.locks == old(cache.locks) && cache.refs == old(cache.refs)
      ensures LockedOn(cache.root, r.radixLockNode, r, old(cache.locks), cache.locks, old(cache.State()), cache.State())
    {
      hide Step;
      r.radixLockNode := null;
      if node != cache.root {
        r.radixLockNode := node;
        cache.IncLockRef(node, r);
      }
    }

    /** The first half of `_paged_prefill_init`: look the prompt up and lock what was found. */
    method BorrowPrefix(r: Request, now: int) returns (mr: MatchResult)
      requires Base() && r !in cache.locks
      modifies r`cacheHitTokens, r`prefillOffset, r`radixLockNode
      modifies cache`refs, cache`locks, cache.tree.Keys`refCount, cache.tree.Keys`lastAccess
      ensures Base()
      ensures MatchOK(mr, r.Prompt(pageSize), cache.tree, cache.own, cache.root, pageSize)
      ensures Borrows(cache.View(), r, r.Prompt(pageSize), mr.matchedPages, |mr.matchedPages|)
      ensures r.prefillOffset == mr.matchedTokens && r.cacheHitTokens == mr.matchedTokens
      ensures mr.lastNode in cache.tree && (|mr.matchedPages| > 0 <==> mr.lastNode != cache.root)
      ensures if mr.lastNode != cache.root then
                && Step(old(cache.View()), Lock(r, cache.tree[mr.lastNode].path), cache.View())
                && r.radixLockNode == mr.lastNode && cache.locks == old(cache.locks)[r := mr.lastNode]
                && cache.refs == Bump(cache.tree, cache.root, old(cache.refs), mr.lastNode, 1)
              else r.radixLockNode == null && cache.locks == old(cache.locks) && cache.refs == old(cache.refs)
      ensures LockedOn(cache.root, r.radixLockNode, r, old(cache.locks), cache.locks, old(cache.State()), cache.State())
    {
      mr := cache.MatchPrefix(r.inputIds, now);
      r.cacheHitTokens, r.prefillOffset := mr.matchedTokens, mr.matchedTokens;
      LockMatched(r, mr.lastNode);
      MatchBorrows(cache.tree, cache.own, cache.root, pageSize, old(cache.locks), mr, r.Prompt(pageSize), r);
    }

    /** Allocating pages from the pool, seen from the cache. */
    method Draw(n: nat) returns (got: Option<seq<int>>, ghost gone: seq<Path>, ghost freed: seq<int>)
      requires Base() && LoansSynced()
      modifies pool`free, cache`tree, cache`refs, cache`own, cache`cachedPageCount, cache.tree.Keys`children
      ensures Base() && LoansSynced() && Shrunk(old(cache.State()), cache.State())
        && cache.tree.Keys <= old(cache.tree.Keys)
      ensures Step(old(cache.View()), Eviction(gone, freed), cache.View())
      ensures got.Some? <==> n <= old(|pool.free|) + old(|Evictable(cache.own, cache.refs)|)
      ensures var all := old(pool.free) + freed;
        if got.Some? then n <= |all| && got.value == Popped(all, n) && pool.free == all[..|all| - n]
          else pool.free == all
    {
      hide Step, RadixCache.View, Evictable;
      ghost var vs;
      got, vs, gone, freed := pool.Allocate(n);
      LocksKept();
    }

    /** Allocates the pages a request needs beyond its borrowed ones; meanwhile the loans of
        the live requests, and the prefix `r` has just locked, stay as they are. */
    method ReservePages(extra: nat, ghost r: Request, ghost matched: seq<int>, ghost k: nat)
      returns (got: Option<seq<int>>, ghost b: Books)
      requires Base() && LoansSynced() && LoansKept(cache.View(), pageSize, loans) && k !in loans
      requires Borrows(cache.View(), r, r.Prompt(pageSize), matched, |matched|)
      modifies pool`free, cache`tree, cache`refs, cache`own, cache`cachedPageCount, cache.tree.Keys`children
      ensures Base() && LoansSynced() && LoansKept(cache.View(), pageSize, loans)
      ensures Borrows(cache.View(), r, r.Prompt(pageSize), matched, |matched|)
      ensures cache.View().held == old(cache.View().held) && Shrunk(old(cache.State()), cache.State())
      ensures cache.tree.Keys <= old(cache.tree.Keys)
      ensures got.Some? <==> extra <= old(|pool.free|) + old(|Evictable(cache.own, cache.refs)|)
      ensures got.Some? ==> |got.value| == extra
      ensures b == if got.Some? then BooksNow().(priv := BooksNow().priv[k := got.value]) else BooksNow()
      ensures old(Ledger(BooksNow())) ==> Ledger(b)
    {
      ghost var v, was := cache.View(), BooksNow();
      ghost var gone, freed;
      got, gone, freed := Draw(extra);
      LoansStep(v, Eviction(gone, freed), cache.View(), pageSize, loans);
      BorrowsStep(v, Eviction(gone, freed), cache.View(), r, r.Prompt(pageSize), matched, |matched|);
      if Ledger(was) {
        AllocLedger(was, cache.Bindings(), pool.free, gone, freed, k, extra, got);
      }
      b := if got.Some? then BooksNow().(priv := BooksNow().priv[k := got.value]) else BooksNow();
    }

    /** A loan that nothing touches stays in step with its request. */
    twostate lemma SyncedKept(r: Request)
      requires old(LoansSynced()) && loans == old(loans) && old(cache.locks) - {r} == cache.locks - {r}
      requires forall k {:trigger loans[k]} :: k in loans ==> loans[k].req != r
      requires forall k {:trigger loans[k]} :: k in loans ==>
        unchanged(loans[k].req`kvCache, loans[k].req`radixLockNode, loans[k].req`borrowed, loans[k].req`ticket)
      ensures LoansSynced()
    {
      forall j {:trigger LoanSynced(j)} | j in loans ensures LoanSynced(j) {
        assert old(LoanSynced(j)) && loans[j].req != r;
        assert loans[j].req in cache.locks <==> loans[j].req in cache.locks - {r};
        assert loans[j].req in old(cache.locks) <==> loans[j].req in old(cache.locks) - {r};
        assert loans[j].req in cache.locks ==> cache.locks[loans[j].req] == (cache.locks - {r})[loans[j].req];
        assert loans[j].req in old(cache.locks) ==>
          old(cache.locks)[loans[j].req] == (old(cache.locks) - {r})[loans[j].req];
      }
    }

    twostate lemma LocksKept()
      requires old(LoansSynced()) && loans == old(loans) && cache.locks == old(cache.locks)
      requires forall k {:trigger loans[k]} :: k in loans ==>
        unchanged(loans[k].req`kvCache, loans[k].req`radixLockNode, loans[k].req`borrowed, loans[k].req`ticket)
      ensures LoansSynced()
    {
      forall j {:trigger LoanSynced(j)} | j in loans ensures LoanSynced(j) {
        assert old(LoanSynced(j));
      }
    }

    /** Releases the lock of a request that is not (or no longer) counted as live; nothing of
        the live requests changes. */
    method ReleaseLock(r: Request, now: int)
      requires Base() && LoansSynced() && LoansKept(cache.View(), pageSize, loans) && r !in Live()
      requires r.radixLockNode != null ==> r in cache.locks && cache.locks[r] == r.radixLockNode
      modifies r`radixLockNode, cache`refs, cache`locks, cache.tree.Keys`refCount, cache.tree.Keys`lastAccess
      ensures Base() && LoansSynced() && LoansKept(cache.View(), pageSize, loans) && r.radixLockNode == null
      ensures Unlocked(cache.root, old(r.radixLockNode), r, old(cache.locks), cache.locks, old(cache.State()),
        cache.State())
    {
      hide LoansKept, RadixCache.Valid;
      forall k {:trigger loans[k]} | k in loans ensures loans[k].req != r {
        assert loans[k].req in Live();
      }
      if r.radixLockNode != null {
        UnlockNode(r, now);
      }
      r.radixLockNode := null;
      SyncedKept(r);
    }

    method UnlockNode(r: Request, now: int)
      requires Base() && LoansKept(cache.View(), pageSize, loans)
      requires forall k {:trigger loans[k]} :: k in loans ==> loans[k].req != r
      requires r.radixLockNode != null && r in cache.locks && cache.locks[r] == r.radixLockNode
      modifies cache`refs, cache`locks, cache.tree.Keys`refCount, cache.tree.Keys`lastAccess
      ensures Base() && LoansKept(cache.View(), pageSize, loans)
      ensures Unlocked(cache.root, r.radixLockNode, r, old(cache.locks), cache.locks, old(cache.State()), cache.State())
    {
      ghost var v := cache.View();
      assert HolderOK(cache.tree, cache.root, cache.locks, r);
      cache.DecLockRef(r.radixLockNode, now, r);
      LoansStep(v, Unlock(r), cache.View(), pageSize, loans);
    }

    /** `_rollback_paged_prefill_init` */
    method Rollback(r: Request, newPages: seq<int>, now: int)
      requires Base() && LoansSynced() && LoansKept(cache.View(), pageSize, loans) && r !in Live()
      requires r.radixLockNode != null ==> r in cache.locks && cache.locks[r] == r.radixLockNode
      modifies r`kvCache, r`radixLockNode, r`prefillOffset, r`cacheHitTokens, pool`free
      modifies cache`refs, cache`locks, cache.tree.Keys`refCount, cache.tree.Keys`lastAccess
      ensures Base() && LoansSynced() && LoansKept(cache.View(), pageSize, loans)
      ensures pool.free == old(pool.free) + newPages && Blank(r)
      ensures Unlocked(cache.root, old(r.radixLockNode), r, old(cache.locks), cache.locks, old(cache.State()),
        cache.State())
    {
      hide Base;
      r.kvCache, r.prefillOffset, r.cacheHitTokens := None, 0, 0;
      if newPages != [] {
        pool.Free(newPages);
      }
      ReleaseLock(r, now);
    }

    method Register(r: Request, pages: seq<int>, ghost M: nat, ghost k: nat)
      requires LoansSynced() && k !in loans && r !in Live()
      requires if M > 0 then r in cache.locks && r.radixLockNode == cache.locks[r] else r.radixLockNode == null
      modifies r`kvCache, r`borrowed, r`ticket, this`loans
      ensures LoansSynced() && loans == old(loans)[k := Loan(r, pages, M)]
      ensures r.kvCache == Some(PagedState(pages, r.prefillOffset)) && r.borrowed == M
      ensures Live() == old(Live()) + {r}
    {
      ReqsAdded(loans, k, Loan(r, pages, M));
      r.kvCache := Some(PagedState(pages, r.prefillOffset));
      r.borrowed, r.ticket := M, k;
      loans := loans[k := Loan(r, pages, M)];
      forall j {:trigger LoanSynced(j)} | j in loans ensures LoanSynced(j) {
        if j != k { assert old(LoanSynced(j)); }
      }
    }

    /** The end of a successful `_paged_prefill_init`: the request becomes live. */
    method Admit(r: Request, mr: MatchResult, newPages: seq<int>, ghost k: nat, ghost v0: Cache)
      requires Base() && LoansSynced() && LoansKept(cache.View(), pageSize, loans)
      requires HeldByLive(v0, loans) && cache.View().held.Keys <= v0.held.Keys + {r as object}
      requires k !in loans && r !in Live()
      requires Borrows(cache.View(), r, r.Prompt(pageSize), mr.matchedPages, |mr.matchedPages|)
      requires if |mr.matchedPages| > 0 then r in cache.locks && r.radixLockNode == cache.locks[r]
        else r.radixLockNode == null
      requires |mr.matchedPages| + |newPages| == r.PeakPages(pageSize)
      modifies r`kvCache, r`borrowed, r`ticket, this`loans
      ensures Valid() && loans == old(loans)[k := Loan(r, mr.matchedPages + newPages, |mr.matchedPages|)]
      ensures BooksNow() == old(BooksNow()).(priv := old(BooksNow()).priv[k := newPages])
      ensures Started(r, mr.matchedPages, pageSize) && Live() == old(Live()) + {r}
    {
      hide Base;
      ghost var l := Loan(r, mr.matchedPages + newPages, |mr.matchedPages|);
      assert l.pages[..l.M] == mr.matchedPages && mr.matchedPages[..l.M] == mr.matchedPages
        && l.pages[l.M..] == newPages;
      LoanAdded(cache.View(), pageSize, loans, loans[k := l], k, l);
      HeldAdded(v0, cache.View(), loans, loans[k := l], k, l);
      Register(r, mr.matchedPages + newPages, l.M, k);
    }

    /** `BorrowPrefix`, seen from the live requests: nothing of theirs changes. */
    method BorrowAside(r: Request, now: int) returns (mr: MatchResult)
      requires Valid() && r !in Live()
      modifies r`cacheHitTokens, r`prefillOffset, r`radixLockNode
      modifies cache`refs, cache`locks, cache.tree.Keys`refCount, cache.tree.Keys`lastAccess
      ensures Base() && LoansSynced() && LoansKept(cache.View(), pageSize, loans)
      ensures HeldByLive(old(cache.View()), loans)
        && cache.View().held.Keys <= old(cache.View().held.Keys) + {r as object}
      ensures MatchOK(mr, r.Prompt(pageSize), cache.tree, cache.own, cache.root, pageSize)
      ensures Borrows(cache.View(), r, r.Prompt(pageSize), mr.matchedPages, |mr.matchedPages|)
      ensures r.prefillOffset == mr.matchedTokens && r.cacheHitTokens == mr.matchedTokens
      ensures mr.lastNode in cache.tree && (|mr.matchedPages| > 0 <==> mr.lastNode != cache.root)
        && r !in old(cache.locks)
      ensures if mr.lastNode != cache.root then
                && r.radixLockNode == mr.lastNode && cache.locks == old(cache.locks)[r := mr.lastNode]
                && cache.refs == Bump(cache.tree, cache.root, old(cache.refs), mr.lastNode, 1)
              else r.radixLockNode == null && cache.locks == old(cache.locks) && cache.refs == old(cache.refs)
      ensures LockedOn(cache.root, r.radixLockNode, r, old(cache.locks), cache.locks, old(cache.State()), cache.State())
    {
      hide Bump, Counted, Abs;
      ghost var v := cache.View();
      forall k {:trigger loans[k]} | k in loans ensures loans[k].req != r {
        assert loans[k].req in Live();
      }
      NotHeld(cache.tree, cache.own, cache.root, cache.refs, cache.locks, loans, r);
      mr := BorrowPrefix(r, now);
      if mr.lastNode != cache.root {
        LoansStep(v, Lock(r, cache.tree[mr.lastNode].path), cache.View(), pageSize, loans);
      }
      SyncedKept(r);
    }

    /** The failing end of `_paged_prefill_init`. */
    method Abandon(r: Request, now: int, ghost v0: Cache, ghost locks0: Locks, ghost s0: Snap, ghost s1: Snap)
      requires Base() && LoansSynced() && LoansKept(cache.View(), pageSize, loans) && r !in Live()
      requires HeldByLive(v0, loans) && v0.held.Keys == locks0.Keys
      requires LockedOn(cache.root, r.radixLockNode, r, locks0, cache.locks, s0, s1) && Shrunk(s1, cache.State())
      modifies r`kvCache, r`radixLockNode, r`prefillOffset, r`cacheHitTokens, pool`free
      modifies cache`refs, cache`locks, cache.tree.Keys`refCount, cache.tree.Keys`lastAccess
      ensures Valid() && cache.locks == locks0 && BooksNow() == old(BooksNow())
      ensures Restored(s0, cache.State())
      ensures Blank(r)
    {
      ghost var s, locks, node := cache.State(), cache.locks, r.radixLockNode;
      Rollback(r, [], now);
      assert pool.free == old(pool.free);
      Undone(cache.root, node, r, locks0, locks, cache.locks, s0, s1, s, cache.State());
      HeldBack(cache.tree, cache.own, cache.root, cache.refs, cache.locks, v0, loans);
    }

    /** The last step of `_paged_prefill_init`, once `allocate` has returned or raised. */
    method Conclude(r: Request, m: MatchResult, newPages: Option<seq<int>>, now: int, ghost k: nat, ghost b: Books,
                    ghost v0: Cache, ghost locks0: Locks, ghost s0: Snap, ghost s1: Snap)
      requires Base() && LoansSynced() && LoansKept(cache.View(), pageSize, loans) && r !in Live() && k !in loans
      requires HeldByLive(v0, loans) && v0.held.Keys == locks0.Keys
        && cache.View().held.Keys <= v0.held.Keys + {r as object}
      requires LockedOn(cache.root, r.radixLockNode, r, locks0, cache.locks, s0, s1) && Shrunk(s1, cache.State())
      requires Borrows(cache.View(), r, r.Prompt(pageSize), m.matchedPages, |m.matchedPages|)
      requires if |m.matchedPages| > 0 then r in cache.locks && r.radixLockNode == cache.locks[r]
        else r.radixLockNode == null
      requires newPages.Some? ==> |m.matchedPages| + |newPages.value| == r.PeakPages(pageSize)
      requires b == if newPages.Some? then BooksNow().(priv := BooksNow().priv[k := newPages.value]) else BooksNow()
      modifies r`kvCache, r`radixLockNode, r`prefillOffset, r`cacheHitTokens, r`borrowed, r`ticket, this`loans
      modifies pool`free
      modifies cache`refs, cache`locks, cache.tree.Keys`refCount, cache.tree.Keys`lastAccess
      ensures Valid()
      ensures BooksNow() == b
      ensures newPages.Some? ==>
        Live() == old(Live()) + {r} && Started(r, m.matchedPages, pageSize) && r.prefillOffset == old(r.prefillOffset)
        && r.cacheHitTokens == old(r.cacheHitTokens)
      ensures newPages.None? ==>
        loans == old(loans) && cache.locks == locks0 && Restored(s0, cache.State()) && Blank(r)
    {
      hide Base, RadixCache.View, LoansSynced, HeldByLive;
      if newPages.None? {
        Abandon(r, now, v0, locks0, s0, s1);
      } else {
        Admit(r, m, newPages.value, k, v0);
      }
    }

    /** The second half of `_paged_prefill_init`: reserve pages and become live, or give back
        what was taken. */
    method ReserveOrAbandon(r: Request, m: MatchResult, now: int, ghost v0: Cache, ghost locks0: Locks, ghost s0: Snap)
      returns (ok: bool)
      requires Base() && LoansSynced() && LoansKept(cache.View(), pageSize, loans) && r !in Live()
      requires HeldByLive(v0, loans) && v0.held.Keys == locks0.Keys
        && cache.View().held.Keys <= v0.held.Keys + {r as object}
      requires LockedOn(cache.root, r.radixLockNode, r, locks0, cache.locks, s0, cache.State())
        && (|m.matchedPages| > 0 <==> r.radixLockNode != null)
      requires Borrows(cache.View(), r, r.Prompt(pageSize), m.matchedPages, |m.matchedPages|)
      requires |m.matchedPages| <= r.PeakPages(pageSize)
      modifies r`cacheHitTokens, r`prefillOffset, r`radixLockNode, r`kvCache, r`borrowed, r`ticket, this`loans
      modifies pool`free
      modifies cache`tree, cache`refs, cache`own, cache`locks, cache`cachedPageCount
      modifies cache.tree.Keys`children, cache.tree.Keys`refCount, cache.tree.Keys`lastAccess
      ensures Valid()
      ensures old(Ledger(BooksNow())) ==> Ledger(BooksNow())
      ensures cache.tree.Keys <= old(cache.tree.Keys)
      ensures ok <==>
        r.PeakPages(pageSize) - |m.matchedPages| <= old(|pool.free|) + old(|Evictable(cache.own, cache.refs)|)
      ensures ok ==>
        Live() == old(Live()) + {r} && Started(r, m.matchedPages, pageSize) && r.prefillOffset == old(r.prefillOffset)
        && r.cacheHitTokens == old(r.cacheHitTokens)
      ensures !ok ==>
        loans == old(loans) && cache.locks == locks0 && Restored(s0, cache.State()) && Blank(r)
    {
      hide LoansKept, HeldByLive, Restored, Shrunk, Started, Blank, RadixCache.View, Evictable, Request.Prompt;
      hide Valid, Bump;
      ghost var s1 := cache.State();
      var peakPages := r.PeakPages(pageSize);
      var extraPages := if peakPages >= |m.matchedPages| then peakPages - |m.matchedPages| else 0;
      ghost var k := FreshTicket(loans);
      var newPages;
      ghost var b;
      newPages, b := ReservePages(extraPages, r, m.matchedPages, k);
      Conclude(r, m, newPages, now, k, b, v0, locks0, s0, s1);
      ok := newPages.Some?;
    }

    /** `_paged_prefill_init`: look up, lock, reserve.  `mr` is the match it made.  When the
        pages do not suffice, everything the request had taken is given back. */
    method PagedPrefillInit(r: Request, now: int) returns (ok: bool, ghost mr: MatchResult)
      requires Valid() && r !in Live()
      modifies r`cacheHitTokens, r`prefillOffset, r`radixLockNode, r`kvCache, r`borrowed, r`ticket, this`loans
      modifies pool`free
      modifies cache`tree, cache`refs, cache`own, cache`locks, cache`cachedPageCount
      modifies cache.tree.Keys`children, cache.tree.Keys`refCount, cache.tree.Keys`lastAccess
      ensures Valid()
      ensures MatchOK(mr, r.Prompt(pageSize), old(cache.tree), old(cache.own), cache.root, pageSize)
      ensures old(Ledger(BooksNow())) ==> Ledger(BooksNow())
      ensures mr.lastNode in old(cache.tree) && cache.tree.Keys <= old(cache.tree.Keys)
      ensures var refs := if mr.lastNode == cache.root then old(cache.refs)
        else Bump(old(cache.tree), cache.root, old(cache.refs), mr.lastNode, 1);
        ok <==> r.PeakPages(pageSize) - |mr.matchedPages| <= old(|pool.free|) + |Evictable(old(cache.own), refs)|
      ensures ok ==>
        && Live() == old(Live()) + {r} && Started(r, mr.matchedPages, pageSize)
        && r.cacheHitTokens == r.prefillOffset == mr.matchedTokens <= |r.inputIds|
      ensures !ok ==>
        && loans == old(loans) && cache.locks == old(cache.locks) && Restored(old(cache.State()), cache.State())
        && Blank(r)
    {
      hide MatchOK;
      ghost var v0, s0 := cache.View(), cache.State();
      ViewKeys(cache.tree, cache.own, cache.root, cache.refs, cache.locks);
      var m := BorrowAside(r, now);
      mr := m;
      MatchFits(r, m, cache.tree, cache.own, cache.root, pageSize);
      ok := ReserveOrAbandon(r, m, now, v0, old(cache.locks), s0);
    }

    // ---- commit (`free_request_kv`, `_radix_cache_commit_request`) ----

    /** The insertion of a commit; pages the cache already had are given back. */
    method InsertPages(tokens: seq<int>, pages: seq<int>, now: int, ghost q: Path)
      requires Base() && LoansKept(cache.View(), pageSize, loans) && q == Blocks(tokens, pageSize) && 0 < |q| == |pages|
      modifies cache, cache.tree.Keys, pool`free
      ensures Base() && LoansKept(cache.View(), pageSize, loans) && fresh(cache.tree.Keys - old(cache.tree.Keys))
      ensures cache.locks == old(cache.locks) && cache.root == old(cache.root)
        && cache.View().held == old(cache.View().held)
      ensures cache.Bindings() == Insert(old(cache.Bindings()), q, pages)
      ensures pool.free == old(pool.free) + RedundantFrom(old(cache.tree), old(cache.own), q, pages, 0)
    {
      hide RadixCache.View, LoansKept, RedundantFrom;
      ghost var v := cache.View();
      var res := cache.InsertAndReturn(tokens, pages, now);
      LoansStep(v, Insertion(q, pages), cache.View(), pageSize, loans);
      if res.redundant != [] {
        pool.Free(res.redundant);
      }
    }

    /** The insertion of a commit and all the pages it gives back. */
    method CommitPages(tokens: seq<int>, pages: seq<int>, now: int)
      requires Base() && LoansKept(cache.View(), pageSize, loans) && |Blocks(tokens, pageSize)| <= |pages|
      modifies cache, cache.tree.Keys, pool`free
      ensures Base() && LoansKept(cache.View(), pageSize, loans) && fresh(cache.tree.Keys - old(cache.tree.Keys))
      ensures cache.locks == old(cache.locks) && cache.root == old(cache.root)
        && cache.View().held == old(cache.View().held)
      ensures var q := Blocks(tokens, pageSize);
        && cache.Bindings() == Insert(old(cache.Bindings()), q, pages[..|q|])
        && pool.free == old(pool.free) + RedundantFrom(old(cache.tree), old(cache.own), q, pages[..|q|], 0) +
           pages[|q|..]
    {
      ghost var q := Blocks(tokens, pageSize);
      BlocksOf(tokens, pageSize);
      var alignedLen := PageAlignLen(|tokens|, pageSize);
      NeedAligned(|q|, pageSize);
      Multiple(|q|, pageSize);
      var numPages := PagesNeeded(alignedLen, pageSize);
      if alignedLen > 0 {
        BlocksFlat(q, pageSize);
        InsertPages(tokens[..alignedLen], pages[..numPages], now, q);
      }
      var extra := pages[numPages..];
      if extra != [] {
        pool.Free(extra);
      }
    }

    /** The request stops being live, but keeps its lock for the moment. */
    ghost method Unregister(r: Request, k: nat)
      requires LoansSynced() && k in loans && loans[k].req == r && pageSize >= 1
      requires LoansKept(cache.View(), pageSize, loans)
      modifies this`loans
      ensures loans == old(loans) - {k} && LoansSynced() && LoansKept(cache.View(), pageSize, loans)
      ensures r !in Live() && Live() == old(Live()) - {r} && Priv(loans) == Priv(old(loans)) - {k}
      ensures forall j {:trigger loans[j]} :: j in loans ==> loans[j].req != r
    {
      OthersDiffer(k);
      KeptSmaller(cache.View(), pageSize, loans, k);
      LoanRemoved(cache.View(), pageSize, loans, k);
      loans := loans - {k};
      forall j {:trigger LoanSynced(j)} | j in loans ensures LoanSynced(j) {
        assert old(LoanSynced(j));
      }
    }

    /** The request gives up its pages, but keeps its lock for the moment. */
    method Retire(r: Request, ghost k: nat)
      requires Base() && LoansSynced() && LoansKept(cache.View(), pageSize, loans) && k in loans && loans[k].req == r
      modifies r`kvCache, this`loans
      ensures Base() && LoansSynced() && LoansKept(cache.View(), pageSize, loans) && r.kvCache == None
      ensures loans == old(loans) - {k} && r !in Live() && Live() == old(Live()) - {r}
        && Priv(loans) == Priv(old(loans)) - {k}
    {
      Unregister(r, k);
      label Unregistered:
      r.kvCache := None;
      SyncedKept@Unregistered(r);
    }

    /** The end of a commit: the request is live no more and its lock is released. */
    method Release(r: Request, now: int, ghost k: nat)
      requires Base() && LoansSynced() && LoansKept(cache.View(), pageSize, loans) && HeldByLive(cache.View(), loans)
      requires k in loans && loans[k].req == r
      modifies r`kvCache, r`radixLockNode, this`loans
      modifies cache`refs, cache`locks, cache.tree.Keys`refCount, cache.tree.Keys`lastAccess
      ensures Valid() && r.kvCache == None && r.radixLockNode == null
      ensures Live() == old(Live()) - {r} && loans == old(loans) - {k} && Priv(loans) == Priv(old(loans)) - {k}
    {
      hide HeldByLive;
      assert LoanSynced(k) && LoanOK(cache.View(), pageSize, loans[k]);
      ghost var v, loans0 := cache.View(), loans;
      ViewKeys(cache.tree, cache.own, cache.root, cache.refs, cache.locks);
      Retire(r, k);
      ReleaseLock(r, now);
      HeldLess(cache.tree, cache.own, cache.root, cache.refs, cache.locks, v, loans0, k);
    }

    /** Tickets tell live requests apart. */
    lemma OthersDiffer(k: nat)
      requires LoansSynced() && k in loans
      ensures forall j {:trigger loans[j]} :: j in loans && j != k ==> loans[j].req != loans[k].req
    {
      assert LoanSynced(k);
      forall j {:trigger loans[j]} | j in loans && j != k ensures loans[j].req != loans[k].req {
        assert LoanSynced(j);
      }
    }

    /** The first half of a commit: the pages go to the cache or back to the pool. */
    method PayIn(r: Request, now: int, ghost k: nat)
      requires Valid() && k in loans && loans[k].req == r && |r.outputIds| <= r.maxNewTokens
      modifies cache, cache.tree.Keys, pool`free
      ensures Valid() && fresh(cache.tree.Keys - old(cache.tree.Keys))
      ensures var q, pages := Blocks(r.inputIds + r.outputIds, pageSize), loans[k].pages;
        |q| <= |pages| &&
        BooksNow() == Committed(old(cache.tree), old(cache.own), old(BooksNow()), q, pages,
          k).(priv := old(BooksNow()).priv)
    {
      hide Blocks;
      assert LoanSynced(k) && LoanOK(cache.View(), pageSize, loans[k]);
      CommitSetup(cache.View(), pageSize, loans[k], r.outputIds);
      var pages := r.kvCache.value.pageIndices;
      CommitPages(r.inputIds + r.outputIds, pages, now);
      LocksKept();
    }

    /** `_radix_cache_commit_request` */
    method CommitRequest(r: Request, now: int, ghost k: nat)
      requires Valid() && k in loans && loans[k].req == r && |r.outputIds| <= r.maxNewTokens
      modifies r`kvCache, r`radixLockNode, this`loans, cache, cache.tree.Keys, pool`free
      ensures Valid() && r.kvCache == None && r.radixLockNode == null
      ensures fresh(cache.tree.Keys - old(cache.tree.Keys))
      ensures Live() == old(Live()) - {r} && loans == old(loans) - {k}
      ensures var q, pages := Blocks(r.inputIds + r.outputIds, pageSize), old(loans)[k].pages;
        |q| <= |pages| && BooksNow() == Committed(old(cache.tree), old(cache.own), old(BooksNow()), q, pages, k)
    {
      hide Live, Blocks, LoansSynced, RadixCache.View, Priv;
      PayIn(r, now, k);
      Release(r, now, k);
    }

    /** `free_request_kv`: a live request is committed to the cache and is live no more.  The
        page ledger survives exactly when the commit's walk is clean. */
    method FreeRequestKv(r: Request, now: int)
      requires Valid() && (r.kvCache.Some? ==> r in Live()) && |r.outputIds| <= r.maxNewTokens
      modifies r`kvCache, r`radixLockNode, this`loans, cache, cache.tree.Keys, pool`free
      ensures Valid() && r.kvCache == None && Live() == old(Live()) - {r}
      ensures fresh(cache.tree.Keys - old(cache.tree.Keys))
      ensures old(r.kvCache.None?) ==> BooksNow() == old(BooksNow()) && loans == old(loans)
      ensures old(r.kvCache.Some?) && old(Ledger(BooksNow())) ==>
        (Ledger(BooksNow()) <==> CleanWalk(old(cache.tree), old(cache.own), Blocks(r.inputIds + r.outputIds, pageSize),
          old(r.borrowed)))
    {
      if r.kvCache.None? {
        NotLive(r);
        return;
      }
      ghost var k :| k in loans && loans[k].req == r;
      assert LoanSynced(k) && LoanOK(cache.View(), pageSize, loans[k]);
      CommitSetup(cache.View(), pageSize, loans[k], r.outputIds);
      if Ledger(BooksNow()) {
        CommitConservesIff(cache.tree, cache.own, cache.root, pageSize, BooksNow(),
          Blocks(r.inputIds + r.outputIds, pageSize),
                           loans[k].pages, loans[k].M, k);
      }
      CommitRequest(r, now, k);
    }

    /** Live requests hold pages. */
    lemma NotLive(r: Request)
      requires LoansSynced() && r.kvCache.None?
      ensures r !in Live()
    {
      forall k {:trigger loans[k]} | k in loans ensures loans[k].req != r {
        assert LoanSynced(k);
      }
    }

    // ---- admission (engine.py:222-233) ----

    /** All peaks together fit the pool, and the candidate's own could be allocated now. */
    ghost predicate Admissible(active: seq<Request>, candidate: Request)
      requires pageSize >= 1
      reads pool`free, cache`own, cache`refs
    {
      && Load(active, pageSize) + candidate.PeakPages(pageSize) <= pool.numPages
      && candidate.PeakPages(pageSize) <= |pool.free| + |Evictable(cache.own, cache.refs)|
    }

    /** `paged_kv_can_admit` */
    method CanAdmit(active: seq<Request>, candidate: Request) returns (ok: bool)
      requires Valid()
      ensures ok <==> Admissible(active, candidate)
    {
      var total, i := 0, 0;
      while i < |active|
        invariant i <= |active| && total == LoadTo(active, i, pageSize)
      {
        total := total + active[i].PeakPages(pageSize);
        i := i + 1;
      }
      total := total + candidate.PeakPages(pageSize);
      ok := false;
      if total <= pool.numPages {
        var evictable := cache.NumEvictablePages();
        ok := |pool.free| + evictable >= candidate.PeakPages(pageSize);
      }
    }

    // ---- prefill (engine.py:417-622) ----

    /** `_paged_prefill_init`, on values. */
    method InitOne(r: Request, now: int) returns (ok: bool, ghost s: RS)
      requires Valid() && r.kvCache.None?
      modifies r`cacheHitTokens, r`prefillOffset, r`radixLockNode, r`kvCache, r`borrowed, r`ticket, this`loans
      modifies pool`free
      modifies cache`tree, cache`refs, cache`own, cache`locks, cache`cachedPageCount
      modifies cache.tree.Keys`children, cache.tree.Keys`refCount, cache.tree.Keys`lastAccess
      ensures Valid() && s == Snapshot(r) && cache.tree.Keys <= old(cache.tree.Keys)
      ensures if ok then Opened(r, old(Snapshot(r)), s) && Live() == old(Live()) + {r}
              else s == Blanked(old(Snapshot(r))) && Live() == old(Live()) && r !in Live()
      ensures old(Ledger(BooksNow())) ==> Ledger(BooksNow())
    {
      NotLive(r);
      ghost var mr;
      ok, mr := PagedPrefillInit(r, now);
      s := Snapshot(r);
    }

    /** Writing back one request's new value in the view of all requests. */
    lemma Reviewed(v: View, r: Request)
      requires r in v && forall x {:trigger InView(v, x)} :: x in v && x != r ==> InView(v, x)
      ensures Viewed(v[r := Snapshot(r)]) && Only(v, v[r := Snapshot(r)], r)
    {
      var w := v[r := Snapshot(r)];
      forall x {:trigger InView(w, x)} | x in w ensures InView(w, x) {
        if x != r { assert InView(v, x); }
      }
    }

    /** The same, in the view of all requests. */
    method InitInView(r: Request, now: int, ghost v: View) returns (ok: bool, ghost w: View)
      requires Valid() && Viewed(v) && LiveView(v, Live()) && r in v && v[r].kv.None?
      modifies r`cacheHitTokens, r`prefillOffset, r`radixLockNode, r`kvCache, r`borrowed, r`ticket, this`loans
      modifies pool`free
      modifies cache`tree, cache`refs, cache`own, cache`locks, cache`cachedPageCount
      modifies cache.tree.Keys`children, cache.tree.Keys`refCount, cache.tree.Keys`lastAccess
      ensures Valid() && Viewed(w) && LiveView(w, Live()) && Only(v, w, r) && cache.tree.Keys <= old(cache.tree.Keys)
      ensures if ok then Opened(r, v[r], w[r]) else w[r] == Blanked(v[r])
      ensures old(Ledger(BooksNow())) ==> Ledger(BooksNow())
    {
      hide RadixCache.Valid;
      assert InView(v, r);
      ghost var live := Live();
      ghost var s;
      ok, s := InitOne(r, now);
      LiveUpdate(v, live, Live(), r, s);
      w := v[r := s];
      forall x {:trigger InView(v, x)} | x in v && x != r ensures InView(v, x) {
        assert old(InView(v, x));
      }
      Reviewed(v, r);
    }

    /** Moves the length and the offset, which agree before, to `n` together. */
    method SetFilled(r: Request, n: nat, ghost v: View) returns (ghost w: View)
      requires Valid() && Viewed(v) && LiveView(v, Live()) && r in v && v[r].kv.Some?
      modifies r`kvCache, r`prefillOffset
      ensures Valid() && Viewed(w) && LiveView(w, Live()) && Only(v, w, r) && w[r] == Filled(v[r], n)
      ensures r.prefillOffset == n
    {
      assert InView(v, r);
      r.kvCache := Some(r.kvCache.value.(kvLen := n));
      r.prefillOffset := n;
      w := v[r := Filled(v[r], n)];
      forall x {:trigger InView(w, x)} | x in w ensures InView(w, x) {
        assert x != r ==> old(InView(v, x));
      }
      forall j {:trigger LoanSynced(j)} | j in loans ensures LoanSynced(j) {
        assert old(LoanSynced(j));
      }
    }

    /** Flags the request for retraction. */
    method Flag(r: Request, ghost v: View) returns (ghost w: View)
      requires Valid() && Viewed(v) && LiveView(v, Live()) && r in v
      modifies r`needsRetract
      ensures Valid() && Viewed(w) && LiveView(w, Live()) && Only(v, w, r) && w[r] == v[r].(retract := true)
    {
      assert InView(v, r);
      r.needsRetract := true;
      w := v[r := v[r].(retract := true)];
      forall x {:trigger InView(w, x)} | x in w ensures InView(w, x) {
        assert x != r ==> old(InView(v, x));
      }
    }

    /** One forward pass over the next chunk of a prompt (`_prefill_continuation_chunk`, and per
        request `_prefill_packed_chunk_step`); the sampled token is arbitrary. */
    method Chunk(r: Request, chunk: nat, ghost v: View) returns (tok: Option<int>, ghost w: View)
      requires Valid() && Viewed(v) && LiveView(v, Live()) && r in v && v[r].kv == Some(v[r].offset)
        && v[r].offset < |r.inputIds|
      modifies r`kvCache, r`prefillOffset
      ensures Valid() && Viewed(w) && LiveView(w, Live()) && Only(v, w, r)
      ensures w[r] == Filled(v[r], NextOffset(v[r].offset, |r.inputIds|, chunk))
      ensures tok.Some? <==> w[r].offset == |r.inputIds|
    {
      assert InView(v, r);
      var remaining := |r.inputIds| - r.prefillOffset;
      var clen := if chunk == 0 || remaining <= chunk then remaining else chunk;
      w := SetFilled(r, r.prefillOffset + clen, v);
      var sampled: int := *;
      tok := if r.PrefillDone() then Some(sampled) else None;
    }

    /** What follows the init in the first loop of a prefill batch. */
    method Advance(r: Request, chunk: nat, ghost s0: RS, ghost v: View)
      returns (tok: Option<int>, stage: Stage, ghost w: View)
      requires Valid() && Viewed(v) && LiveView(v, Live()) && r in v && Prefillable(r, s0) && Opened(r, s0, v[r])
      modifies r`kvCache, r`prefillOffset
      ensures Valid() && Viewed(w) && LiveView(w, Live()) && Only(v, w, r)
      ensures Staged(r, s0, w[r], tok, stage, chunk)
      ensures stage != Faulted ==>
        (Continues(r, v[r]) <==> stage == Continued || (stage == Settled && v[r].offset < |r.inputIds|))
    {
      assert InView(v, r);
      OnlySelf(v, r);
      w, tok := v, None;
      var raised: bool := *;
      if raised {
        stage := Faulted;
      } else if r.PrefillDone() {
        // `_sample_first_token_cached_prompt`
        w := SetFilled(r, |r.inputIds|, v);
        var sampled: int := *;
        tok, stage := Some(sampled), Settled;
      } else if r.kvCache.value.kvLen > 0 && chunk == 0 {
        tok, w := Chunk(r, chunk, v);
        stage := Settled;
      } else {
        stage := if r.kvCache.value.kvLen > 0 then Continued else Packed;
      }
      // the chunk may be counted already when sampling raises
      raised := *;
      if raised {
        stage := Faulted;
      }
    }

    /** The body of the first loop of a prefill batch, for one request. */
    method StageOne(r: Request, chunk: nat, now: int, ghost v: View)
      returns (tok: Option<int>, stage: Stage, ghost w: View)
      requires Valid() && Viewed(v) && LiveView(v, Live()) && r in v && Prefillable(r, v[r])
      modifies r`cacheHitTokens, r`prefillOffset, r`radixLockNode, r`kvCache, r`borrowed, r`ticket, r`needsRetract
      modifies this`loans, pool`free
      modifies cache`tree, cache`refs, cache`own, cache`locks, cache`cachedPageCount
      modifies cache.tree.Keys`children, cache.tree.Keys`refCount, cache.tree.Keys`lastAccess
      ensures Valid() && Viewed(w) && LiveView(w, Live()) && Only(v, w, r) && cache.tree.Keys <= old(cache.tree.Keys)
      ensures Staged(r, v[r], w[r], tok, stage, chunk)
      ensures old(Ledger(BooksNow())) ==> Ledger(BooksNow())
    {
      hide RadixCache.View, RadixCache.Valid;
      assert InView(v, r);
      OnlySelf(v, r);
      var ok := true;
      w, tok := v, None;
      if r.kvCache.None? {
        ok, w := InitInView(r, now, v);
      }
      ghost var m := w;
      if ok {
        tok, stage, w := Advance(r, chunk, v[r], m);
      } else {
        w := Flag(r, m);
        stage := Settled;
      }
      OnlyTrans(v, m, w, r);
    }

    /** The first loop of a prefill batch. */
    method StageAll(reqs: seq<Request>, chunk: nat, ghost v: View)
      returns (toks: seq<Option<int>>, stages: seq<Stage>, raised: bool, ghost w: View)
      requires Valid() && Viewed(v) && LiveView(v, Live()) && NoDup(reqs) && BatchAt(reqs, v, v, [], [], 0, chunk)
      modifies (set r | r in reqs)`cacheHitTokens, (set r | r in reqs)`prefillOffset, (set r | r in reqs)`radixLockNode
      modifies (set r | r in reqs)`kvCache, (set r | r in reqs)`borrowed, (set r | r in reqs)`ticket
      modifies (set r | r in reqs)`needsRetract, this`loans, pool`free
      modifies cache`tree, cache`refs, cache`own, cache`locks, cache`cachedPageCount
      modifies cache.tree.Keys`children, cache.tree.Keys`refCount, cache.tree.Keys`lastAccess
      ensures Valid() && Viewed(w) && LiveView(w, Live()) && cache.tree.Keys <= old(cache.tree.Keys)
      ensures BatchAt(reqs, v, w, toks, stages, |stages|, chunk)
      ensures !raised ==> |stages| == |reqs| && Faulted !in stages
      ensures old(Ledger(BooksNow())) ==> Ledger(BooksNow())
    {
      toks, stages, raised, w := [], [], false, v;
      while |stages| < |reqs| && !raised
        invariant Valid() && Viewed(w) && LiveView(w, Live()) && cache.tree.Keys <= old(cache.tree.Keys)
        invariant BatchAt(reqs, v, w, toks, stages, |stages|, chunk) && (!raised ==> Faulted !in stages)
        invariant old(Ledger(BooksNow())) ==> Ledger(BooksNow())
        decreases |reqs| - |stages|
      {
        var now: int := *;
        var tok, stage;
        ghost var w';
        tok, stage, w' := StageOne(reqs[|stages|], chunk, now, w);
        BatchStep(reqs, v, w, w', toks, stages, tok, stage, |stages|, chunk);
        toks, stages, raised, w := toks + [tok], stages + [stage], stage == Faulted, w';
      }
    }

    /** One of the forward passes left for later. */
    method ForwardOne(r: Request, reqs: seq<Request>, j: nat, chunk: nat, toks: seq<Option<int>>,
                      ghost stages: seq<Stage>, ghost v: View, ghost w: View)
      returns (toks': seq<Option<int>>, ghost w': View)
      requires Valid() && Viewed(w) && LiveView(w, Live()) && NoDup(reqs)
        && BatchAt(reqs, v, w, toks, stages, |reqs|, chunk)
      requires j < |reqs| && r == reqs[j] && (stages[j] == Packed || stages[j] == Continued)
      modifies r`prefillOffset, r`kvCache
      ensures Valid() && Viewed(w') && LiveView(w', Live())
        && BatchAt(reqs, v, w', toks', stages[j := Settled], |reqs|, chunk)
    {
      var tok;
      assert Staged(r, v[r], w[r], toks[j], stages[j], chunk);
      tok, w' := Chunk(r, chunk, w);
      ChunkSettles(r, v[r], w[r], tok, chunk);
      BatchUpdate(reqs, v, w, w', toks, stages, tok, j, chunk);
      toks' := toks[j := tok];
    }

    /** The forward passes left for later: all packed ones, then all continuations. */
    method ForwardAll(reqs: seq<Request>, chunk: nat, which: Stage, toks0: seq<Option<int>>, stages0: seq<Stage>,
                      ghost v: View, ghost w0: View)
      returns (toks: seq<Option<int>>, stages: seq<Stage>, raised: bool, ghost w: View)
      requires Valid() && Viewed(w0) && LiveView(w0, Live()) && NoDup(reqs)
        && BatchAt(reqs, v, w0, toks0, stages0, |reqs|, chunk)
      requires (which == Packed || which == Continued) && PassedTo(stages0, 0, which)
      modifies (set r | r in reqs)`prefillOffset, (set r | r in reqs)`kvCache
      ensures Valid() && Viewed(w) && LiveView(w, Live()) && BatchAt(reqs, v, w, toks, stages, |reqs|, chunk)
      ensures !raised ==> PassedTo(stages, |stages|, which)
    {
      toks, stages, raised, w := toks0, stages0, false, w0;
      var i := 0;
      while i < |reqs| && !raised
        invariant 0 <= i <= |reqs| && Valid() && Viewed(w) && LiveView(w, Live())
        invariant BatchAt(reqs, v, w, toks, stages, |reqs|, chunk) && (!raised ==> PassedTo(stages, i, which))
        decreases |reqs| - i
      {
        raised := *;
        PassStep(stages, i, which);
        if stages[i] == which && !raised {
          toks, w := ForwardOne(reqs[i], reqs, i, chunk, toks, stages, v, w);
          stages := stages[i := Settled];
        }
        i := i + 1;
      }
      // the last chunk may be counted already when sampling raises
      var late: bool := *;
      raised := raised || late;
    }

    /** `prefill_batch` in paged mode, one-shot for a chunk size of 0: every request comes out
        flagged for retraction or one chunk further.  `raised` stands for an exception anywhere
        in it; then the batch stays where it was, unseen by the clients. */
    method PrefillBatch(reqs: seq<Request>, chunk: nat, ghost v: View)
      returns (toks: seq<Option<int>>, raised: bool, ghost w: View)
      requires Valid() && Viewed(v) && LiveView(v, Live()) && NoDup(reqs)
      requires forall i {:trigger reqs[i]} :: 0 <= i < |reqs| ==> reqs[i] in v && Prefillable(reqs[i], v[reqs[i]])
      modifies (set r | r in reqs)`cacheHitTokens, (set r | r in reqs)`prefillOffset, (set r | r in reqs)`radixLockNode
      modifies (set r | r in reqs)`kvCache, (set r | r in reqs)`borrowed, (set r | r in reqs)`ticket
      modifies (set r | r in reqs)`needsRetract, this`loans, pool`free
      modifies cache`tree, cache`refs, cache`own, cache`locks, cache`cachedPageCount
      modifies cache.tree.Keys`children, cache.tree.Keys`refCount, cache.tree.Keys`lastAccess
      ensures Valid() && Viewed(w) && LiveView(w, Live()) && cache.tree.Keys <= old(cache.tree.Keys)
      ensures UnseenAll(v, w) && Elsewhere(v, w, reqs) && (!raised ==> BatchDone(reqs, v, w, toks, chunk))
      ensures old(Ledger(BooksNow())) ==> Ledger(BooksNow())
    {
      BatchStart(reqs, v, chunk);
      var stages;
      toks, stages, raised, w := StageAll(reqs, chunk, v);
      if !raised {
        toks, stages, raised, w := ForwardAll(reqs, chunk, Packed, toks, stages, v, w);
      }
      if !raised {
        PassEnds(stages, Packed);
        toks, stages, raised, w := ForwardAll(reqs, chunk, Continued, toks, stages, v, w);
      }
      BatchUnseen(reqs, v, w, toks, stages, |stages|, chunk);
      if !raised {
        PassEnds(stages, Continued);
        BatchEnds(reqs, v, w, toks, stages, chunk);
      }
    }

    // ---- decode (engine.py:859-963, 1207-1263) ----

    /** The bookkeeping of one decode append.  `pages_needed(kv_len + 1)` never exceeds the pages
        the request holds, so the branch that would allocate is never taken. */
    method DecodeOne(r: Request, ghost v: View) returns (cell: Target, ghost w: View)
      requires Valid() && Viewed(v) && LiveView(v, Live()) && r in v && Decodable(r, v[r])
      modifies r`kvCache
      ensures Valid() && Viewed(w) && LiveView(w, Live()) && Only(v, w, r) && w[r] == Decoded(v[r])
      ensures OwnWrite(loans, r, cell)
    {
      hide RadixCache.View;
      assert InView(v, r);
      ghost var k :| k in loans && loans[k].req == r;
      assert LoanSynced(k) && LoanOK(cache.View(), pageSize, loans[k]);
      var t, pages := r.kvCache.value.kvLen, r.kvCache.value.pageIndices;
      DecodeFits(loans[k], cache.View(), pageSize, |r.outputIds|, t);
      assert PagesNeeded(t + 1, pageSize) <= |pages|;
      cell := TargetOf(pages, t, pageSize);
      w := SetLength(r, t + 1, v);
      assert WritesOwn(loans, r, k, t / pageSize, cell);
    }

    /** Records that `n` tokens are in the request's pages. */
    method SetLength(r: Request, n: nat, ghost v: View) returns (ghost w: View)
      requires Valid() && Viewed(v) && LiveView(v, Live()) && r in v && v[r].kv.Some?
      modifies r`kvCache
      ensures Valid() && Viewed(w) && LiveView(w, Live()) && Only(v, w, r) && w[r] == v[r].(kv := Some(n))
    {
      assert InView(v, r);
      r.kvCache := Some(r.kvCache.value.(kvLen := n));
      w := v[r := v[r].(kv := Some(n))];
      forall x {:trigger InView(w, x)} | x in w ensures InView(w, x) {
        assert x != r ==> old(InView(v, x));
      }
      forall j {:trigger LoanSynced(j)} | j in loans ensures LoanSynced(j) {
        assert old(LoanSynced(j));
      }
    }

    /** `batched_decode` in paged mode: one token for every running request; the sampled tokens
        are arbitrary.  It touches neither the pool's free list nor the cache.  While the ledger
        holds, the slots written are different. */
    method BatchedDecode(reqs: seq<Request>, ghost v: View)
      returns (toks: seq<int>, cells: seq<Target>, raised: bool, ghost w: View)
      requires Valid() && Viewed(v) && LiveView(v, Live()) && NoDup(reqs) && DecodeAt(reqs, v, v, 0)
      modifies (set r | r in reqs)`kvCache
      ensures Valid() && Viewed(w) && LiveView(w, Live()) && UnseenAll(v, w) && Elsewhere(v, w, reqs)
      ensures !raised ==> |toks| == |cells| == |reqs| && DecodeAt(reqs, v, w, |reqs|)
      ensures WritesAll(loans, reqs, cells) && (Ledger(BooksNow()) ==> NoDup(cells))
    {
      toks, cells, raised, w := [], [], false, v;
      while |toks| < |reqs| && !raised
        invariant Valid() && Viewed(w) && LiveView(w, Live())
        invariant |toks| == |cells| && DecodeAt(reqs, v, w, |toks|) && WritesAll(loans, reqs, cells)
        decreases |reqs| - |toks|, !raised
      {
        raised := *;
        if !raised {
          var cell;
          ghost var w';
          cell, w' := DecodeOne(reqs[|toks|], w);
          DecodeStep(reqs, v, w, w', |toks|);
          WritesStep(loans, reqs, cells, cell);
          w := w';
          var sampled: int := *;
          toks, cells := toks + [sampled], cells + [cell];
        }
      }
      // all lengths may have grown already when sampling raises
      var late: bool := *;
      raised := raised || late;
      DecodeUnseen(reqs, v, w, |toks|);
      if Ledger(BooksNow()) {
        WritesDiffer(BooksNow(), loans, reqs, cells);
      }
    }

    /** While every commit has been clean the page ledger holds. */
    ghost predicate LedgerKept()
      reads this`clean, this`loans, pool`free, cache`tree, cache`own
    {
      clean ==> Ledger(BooksNow())
    }

    /** `free_request_kv`; `clean` records whether its commit was. */
    method FreeClean(r: Request, now: int)
      requires Valid() && (r.kvCache.Some? ==> r in Live()) && |r.outputIds| <= r.maxNewTokens && LedgerKept()
      modifies r`kvCache, r`radixLockNode, this`loans, this`clean, cache, cache.tree.Keys, pool`free
      ensures Valid() && r.kvCache == None && Live() == old(Live()) - {r} && LedgerKept()
      ensures fresh(cache.tree.Keys - old(cache.tree.Keys))
      ensures clean == (old(clean) && (old(r.kvCache.None?) ||
        CleanWalk(old(cache.tree), old(cache.own), Blocks(r.inputIds + r.outputIds, pageSize), old(r.borrowed))))
    {
      hide Live;
      ghost var ok := r.kvCache.Some? ==>
        CleanWalk(cache.tree, cache.own, Blocks(r.inputIds + r.outputIds, pageSize), r.borrowed);
      FreeRequestKv(r, now);
      clean := clean && ok;
    }

    /** The same, in the view of all requests. */
    method FreeInView(r: Request, now: int, ghost v: View) returns (ghost w: View)
      requires Valid() && Viewed(v) && LiveView(v, Live()) && r in v && |v[r].out| <= r.maxNewTokens && LedgerKept()
      modifies r`kvCache, r`radixLockNode, this`loans, this`clean, cache, cache.tree.Keys, pool`free
      ensures Valid() && Viewed(w) && LiveView(w, Live()) && Only(v, w, r) && w[r] == v[r].(kv := None) && LedgerKept()
      ensures fresh(cache.tree.Keys - old(cache.tree.Keys))
    {
      hide RadixCache.View, RadixCache.Valid;
      assert InView(v, r);
      ghost var live := Live();
      FreeClean(r, now);
      w := v[r := v[r].(kv := None)];
      LiveUpdate(v, live, Live(), r, w[r]);
      forall x {:trigger InView(w, x)} | x in w ensures InView(w, x) {
        assert x != r ==> old(InView(v, x));
      }
    }
  }
}
