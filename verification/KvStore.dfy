/** Reading and writing a request's keys and values in the paged pool
    (engine.py:1050-1080, 1103-1263).

    Token `t` of a request lives in slot `t % P` of its page number `t / P`. */
module KvStore {
  import opened KvData
  import opened Paging
  import opened Wrappers

  // ---- one token ----

  ghost predicate PageOK(kv: seq<PageData>, x: int, P: nat) {
    0 <= x < |kv| && |kv[x]| == P
  }

  /** `pages` are pages of the pool, enough of them for `n` tokens. */
  ghost predicate Fits(kv: seq<PageData>, pages: seq<int>, n: nat, P: nat) {
    && P >= 1 && PagesNeeded(n, P) <= |pages|
    && forall j {:trigger pages[j]} :: 0 <= j < |pages| ==> PageOK(kv, pages[j], P)
  }

  function At(kv: seq<PageData>, x: int, s: nat): TokenKV {
    if 0 <= x < |kv| && s < |kv[x]| then kv[x][s] else ZeroKV()
  }

  ghost function Put(kv: seq<PageData>, x: int, s: nat, v: TokenKV): seq<PageData> {
    if 0 <= x < |kv| && s < |kv[x]| then kv[x := kv[x][s := v]] else kv
  }

  lemma PutAt(kv: seq<PageData>, x: int, s: nat, v: TokenKV, y: int, r: nat)
    requires 0 <= x < |kv| && s < |kv[x]|
    ensures At(Put(kv, x, s, v), y, r) == if x == y && s == r then v else At(kv, y, r)
  {}

  /** What the slot of token `t` holds. */
  ghost function Cell(kv: seq<PageData>, pages: seq<int>, t: nat, P: nat): TokenKV {
    if P >= 1 && t / P < |pages| then At(kv, pages[t / P], t % P) else ZeroKV()
  }

  /** The first `n` tokens, in order: what `_gather_kv_from_pool` reads. */
  ghost function Gathered(kv: seq<PageData>, pages: seq<int>, n: nat, P: nat): seq<TokenKV> {
    seq(n, t requires 0 <= t < n => Cell(kv, pages, t, P))
  }

  ghost function WriteAt(kv: seq<PageData>, pages: seq<int>, t: nat, v: TokenKV, P: nat): seq<PageData> {
    if P >= 1 && t / P < |pages| then Put(kv, pages[t / P], t % P, v) else kv
  }

  /** Writing `toks` one after the other, the first as token `at`. */
  ghost function WriteTokens(kv: seq<PageData>, pages: seq<int>, at: nat, toks: seq<TokenKV>, P: nat): seq<PageData> {
    if toks == [] then kv
    else WriteAt(WriteTokens(kv, pages, at, toks[..|toks| - 1], P), pages, at + |toks| - 1, toks[|toks| - 1], P)
  }

  /** Token `t < n` has a page among those needed for `n` tokens. */
  lemma TokenPage(t: nat, n: nat, P: nat)
    requires P >= 1 && t < n
    ensures 0 <= t / P < PagesNeeded(n, P) && 0 <= t % P < P
  {
    if PagesNeeded(n, P) <= t / P {
      MulMono(PagesNeeded(n, P), t / P, P);
    }
  }

  lemma SamePlace(t: nat, u: nat, P: nat)
    requires P >= 1
    ensures t / P == u / P && t % P == u % P ==> t == u
  {
    assert t == (t / P) * P + t % P;
    assert u == (u / P) * P + u % P;
  }

  lemma WriteFits(kv: seq<PageData>, pages: seq<int>, n: nat, t: nat, v: TokenKV, P: nat)
    requires Fits(kv, pages, n, P) && t < n
    ensures t / P < |pages| && PageOK(kv, pages[t / P], P) && t % P < P
    ensures WriteAt(kv, pages, t, v, P) == kv[pages[t / P] := kv[pages[t / P]][t % P := v]]
    ensures Fits(WriteAt(kv, pages, t, v, P), pages, n, P)
  {
    TokenPage(t, n, P);
    var kv' := WriteAt(kv, pages, t, v, P);
    forall j {:trigger pages[j]} | 0 <= j < |pages| ensures PageOK(kv', pages[j], P) {
      assert PageOK(kv, pages[j], P);
    }
  }

  /** With distinct pages a write reaches its own token and no other. */
  lemma WriteCell(kv: seq<PageData>, pages: seq<int>, n: nat, t: nat, v: TokenKV, u: nat, P: nat)
    requires Fits(kv, pages, n, P) && NoDup(pages) && t < n && u < n
    ensures Cell(WriteAt(kv, pages, t, v, P), pages, u, P) == if u == t then v else Cell(kv, pages, u, P)
  {
    WriteFits(kv, pages, n, t, v, P);
    TokenPage(u, n, P);
    SamePlace(t, u, P);
    PlaceCell(kv, pages, t / P, t % P, v, u / P, u % P);
  }

  lemma PlaceCell(kv: seq<PageData>, pages: seq<int>, i: nat, s: nat, v: TokenKV, j: nat, r: nat)
    requires NoDup(pages) && i < |pages| && j < |pages|
    requires 0 <= pages[i] < |kv| && s < |kv[pages[i]]|
    ensures At(Put(kv, pages[i], s, v), pages[j], r) == if i == j && s == r then v else At(kv, pages[j], r)
  {
    assert i != j ==> pages[i] != pages[j];
    PutAt(kv, pages[i], s, v, pages[j], r);
  }

  // ---- many tokens ----

  lemma {:induction false} TokensFit(kv: seq<PageData>, pages: seq<int>, n: nat, at: nat, toks: seq<TokenKV>, P: nat)
    requires Fits(kv, pages, n, P) && at + |toks| <= n
    ensures Fits(WriteTokens(kv, pages, at, toks, P), pages, n, P)
  {
    if toks != [] {
      var k := |toks| - 1;
      TokensFit(kv, pages, n, at, toks[..k], P);
      WriteFits(WriteTokens(kv, pages, at, toks[..k], P), pages, n, at + k, toks[k], P);
    }
  }

  /** The slots of the written tokens hold them, all other slots what they held. */
  lemma {:induction false} TokensCell(kv: seq<PageData>, pages: seq<int>, n: nat, at: nat, toks: seq<TokenKV>, u: nat,
                                      P: nat)
    requires Fits(kv, pages, n, P) && NoDup(pages) && at + |toks| <= n && u < n
    ensures Cell(WriteTokens(kv, pages, at, toks, P), pages, u, P) ==
      if at <= u < at + |toks| then toks[u - at] else Cell(kv, pages, u, P)
  {
    if toks != [] {
      var k := |toks| - 1;
      TokensFit(kv, pages, n, at, toks[..k], P);
      TokensCell(kv, pages, n, at, toks[..k], u, P);
      WriteCell(WriteTokens(kv, pages, at, toks[..k], P), pages, n, at + k, toks[k], u, P);
    }
  }

  lemma WriteElsewhere(kv: seq<PageData>, pages: seq<int>, t: nat, v: TokenKV, P: nat, x: int)
    requires x !in pages && 0 <= x < |kv|
    ensures var kv' := WriteAt(kv, pages, t, v, P); |kv'| == |kv| && kv'[x] == kv[x]
  {
    if P >= 1 && t / P < |pages| {
      assert pages[t / P] in pages;
    }
  }

  /** Pages of the pool that are not the request's are left alone. */
  lemma {:induction false} TokensElsewhere(kv: seq<PageData>, pages: seq<int>, at: nat, toks: seq<TokenKV>, P: nat,
                                           x: int)
    requires x !in pages && 0 <= x < |kv|
    ensures var kv' := WriteTokens(kv, pages, at, toks, P); |kv'| == |kv| && kv'[x] == kv[x]
  {
    if toks != [] {
      var k := |toks| - 1;
      TokensElsewhere(kv, pages, at, toks[..k], P, x);
      WriteElsewhere(WriteTokens(kv, pages, at, toks[..k], P), pages, at + k, toks[k], P, x);
    }
  }

  /** And so are the pages before the first one written. */
  lemma {:induction false} TokensBefore(kv: seq<PageData>, pages: seq<int>, at: nat, toks: seq<TokenKV>, P: nat, x: int)
    requires P >= 1 && 0 <= x < |kv| && forall j {:trigger pages[j]} :: at / P <= j < |pages| ==> pages[j] != x
    ensures var kv' := WriteTokens(kv, pages, at, toks, P); |kv'| == |kv| && kv'[x] == kv[x]
  {
    if toks != [] {
      var k := |toks| - 1;
      TokensBefore(kv, pages, at, toks[..k], P, x);
      DivMono(at, at + k, P);
    }
  }

  lemma {:induction false} WriteJoin(kv: seq<PageData>, pages: seq<int>, at: nat, a: seq<TokenKV>, b: seq<TokenKV>,
                                     P: nat)
    ensures WriteTokens(kv, pages, at, a + b, P) == WriteTokens(WriteTokens(kv, pages, at, a, P), pages, at + |a|, b, P)
    decreases |b|
  {
    if b == [] {
      assert a + b == a;
    } else {
      var k := |b| - 1;
      WriteJoin(kv, pages, at, a, b[..k], P);
      assert (a + b)[..|a + b| - 1] == a + b[..k];
    }
  }

  // ---- round trips ----

  /** Tokens written where the request's data ends are read back after it, in order. */
  lemma AppendRoundTrip(kv: seq<PageData>, pages: seq<int>, n: nat, toks: seq<TokenKV>, P: nat)
    requires Fits(kv, pages, n + |toks|, P) && NoDup(pages)
    ensures Gathered(WriteTokens(kv, pages, n, toks, P), pages, n + |toks|, P) == Gathered(kv, pages, n, P) + toks
  {
    var kv' := WriteTokens(kv, pages, n, toks, P);
    var g, h := Gathered(kv', pages, n + |toks|, P), Gathered(kv, pages, n, P) + toks;
    forall u {:trigger g[u]} | 0 <= u < n + |toks| ensures g[u] == h[u] {
      TokensCell(kv, pages, n + |toks|, n, toks, u, P);
    }
  }

  /** Storing a fresh prompt and then appending tokens one by one is read back exactly, and no
      other page changes. */
  lemma FreshRoundTrip(kv: seq<PageData>, pages: seq<int>, prompt: seq<TokenKV>, decoded: seq<TokenKV>, P: nat)
    requires Fits(kv, pages, |prompt| + |decoded|, P) && NoDup(pages)
    ensures var kv' := WriteTokens(WriteTokens(kv, pages, 0, prompt, P), pages, |prompt|, decoded, P);
      && Gathered(kv', pages, |prompt| + |decoded|, P) == prompt + decoded
      && |kv'| == |kv|
      && forall x {:trigger kv'[x]} :: 0 <= x < |kv| && x !in pages ==> kv'[x] == kv[x]
  {
    WriteJoin(kv, pages, 0, prompt, decoded, P);
    assert |prompt + decoded| == |prompt| + |decoded|;
    AppendRoundTrip(kv, pages, 0, prompt + decoded, P);
    assert Gathered(kv, pages, 0, P) == [];
    var kv' := WriteTokens(kv, pages, 0, prompt + decoded, P);
    WriteSize(kv, pages, 0, prompt + decoded, P);
    forall x {:trigger kv'[x]} | 0 <= x < |kv| && x !in pages ensures kv'[x] == kv[x] {
      TokensElsewhere(kv, pages, 0, prompt + decoded, P, x);
    }
  }

  lemma {:induction false} WriteSize(kv: seq<PageData>, pages: seq<int>, at: nat, toks: seq<TokenKV>, P: nat)
    ensures |WriteTokens(kv, pages, at, toks, P)| == |kv|
  {
    if toks != [] {
      WriteSize(kv, pages, at, toks[..|toks| - 1], P);
    }
  }

  /** Whatever the pool and the slice contain, storing the slice makes it the request's next
      tokens.  The store always begins at token 0 (engine.py:1064). */
  ghost predicate StoresNext(pages: seq<int>, n: nat, len: nat, poolSize: nat, P: nat) {
    forall kv: seq<PageData>, slice: seq<TokenKV> {:trigger WriteTokens(kv, pages, 0, slice, P)} ::
      |kv| == poolSize && |slice| == len && Fits(kv, pages, n + len, P) ==>
      Gathered(WriteTokens(kv, pages, 0, slice, P), pages, n + len, P) == Gathered(kv, pages, n, P) + slice
  }

  /** A slice is stored as the request's next tokens if and only if the request held none
      before, or the slice is empty: a continuation chunk overwrites the beginning. */
  lemma StoreNextIff(pages: seq<int>, n: nat, len: nat, poolSize: nat, P: nat)
    requires P >= 1 && PagesNeeded(n + len, P) <= |pages| && NoDup(pages)
    requires forall j {:trigger pages[j]} :: 0 <= j < |pages| ==> 0 <= pages[j] < poolSize
    ensures StoresNext(pages, n, len, poolSize, P) <==> n == 0 || len == 0
  {
    if n == 0 || len == 0 {
      forall kv: seq<PageData>, slice: seq<TokenKV> {:trigger WriteTokens(kv, pages, 0, slice, P)}
        | |kv| == poolSize && |slice| == len && Fits(kv, pages, n + len, P)
        ensures Gathered(WriteTokens(kv, pages, 0, slice, P), pages, n + len, P) == Gathered(kv, pages, n, P) + slice
      {
        if n == 0 {
          AppendRoundTrip(kv, pages, 0, slice, P);
        } else {
          assert Gathered(kv, pages, n, P) + slice == Gathered(kv, pages, n, P);
        }
      }
    } else {
      var kv, slice := seq(poolSize, _ => ZeroPage(P)), seq(len, _ => TokenKV([1.0], [1.0]));
      assert Fits(kv, pages, n + len, P);
      TokensCell(kv, pages, n + len, 0, slice, 0, P);
      var stored := WriteTokens(kv, pages, 0, slice, P);
      assert Gathered(stored, pages, n + len, P)[0] == slice[0];
      WriteFits(kv, pages, n + len, 0, ZeroKV(), P);
      assert (Gathered(kv, pages, n, P) + slice)[0] == Cell(kv, pages, 0, P) == ZeroKV();
    }
  }

  /** In particular the first page is written, even when it is borrowed from the cache. */
  lemma StoreWritesFirstPage(kv: seq<PageData>, pages: seq<int>, n: nat, slice: seq<TokenKV>, P: nat)
    requires Fits(kv, pages, n + |slice|, P) && NoDup(pages) && slice != []
    ensures |WriteTokens(kv, pages, 0, slice, P)| == |kv| && 0 <= pages[0] < |kv|
    ensures slice[0] != Cell(kv, pages, 0, P) ==> WriteTokens(kv, pages, 0, slice, P)[pages[0]] != kv[pages[0]]
  {
    TokensCell(kv, pages, n + |slice|, 0, slice, 0, P);
    WriteSize(kv, pages, 0, slice, P);
    WriteFits(kv, pages, n + |slice|, 0, ZeroKV(), P);
    TokensFit(kv, pages, n + |slice|, 0, slice, P);
    assert PageOK(WriteTokens(kv, pages, 0, slice, P), pages[0], P);
  }

  ghost predicate PageKept(kv: seq<PageData>, kv': seq<PageData>, x: int) {
    0 <= x < |kv| == |kv'| && kv'[x] == kv[x]
  }

  /** Whatever the pool and the slice contain, storing a slice of `len` tokens leaves the first
      `M` pages, the borrowed ones, as they were. */
  ghost predicate StoreSpares(pages: seq<int>, M: nat, len: nat, poolSize: nat, P: nat) {
    forall kv: seq<PageData>, slice: seq<TokenKV>, j {:trigger WriteTokens(kv, pages, 0, slice, P), pages[j]} ::
      |kv| == poolSize && |slice| == len && Fits(kv, pages, len, P) && 0 <= j < M && j < |pages| ==>
      PageKept(kv, WriteTokens(kv, pages, 0, slice, P), pages[j])
  }

  /** It does so if and only if no page is borrowed. */
  lemma StoreSparesIff(pages: seq<int>, M: nat, len: nat, poolSize: nat, P: nat)
    requires P >= 1 && len > 0 && PagesNeeded(len, P) <= |pages| && NoDup(pages)
    requires forall j {:trigger pages[j]} :: 0 <= j < |pages| ==> 0 <= pages[j] < poolSize
    ensures StoreSpares(pages, M, len, poolSize, P) <==> M == 0
  {
    if M > 0 {
      var kv, slice := seq(poolSize, _ => ZeroPage(P)), seq(len, _ => TokenKV([1.0], [1.0]));
      forall j {:trigger pages[j]} | 0 <= j < |pages| ensures PageOK(kv, pages[j], P) {}
      assert Fits(kv, pages, len, P);
      StoreWritesFirstPage(kv, pages, 0, slice, P);
      WriteFits(kv, pages, len, 0, ZeroKV(), P);
      assert Cell(kv, pages, 0, P) == ZeroKV();
      assert !PageKept(kv, WriteTokens(kv, pages, 0, slice, P), pages[0]);
    }
  }

  // ---- `_store_prefill_slice_to_pool` ----

  /** Writing a run of tokens inside one page at once. */
  lemma {:induction false} RunInPage(kv: seq<PageData>, pages: seq<int>, n: nat, at: nat, toks: seq<TokenKV>, P: nat)
    requires Fits(kv, pages, n, P) && at + |toks| <= n && at < n && at % P + |toks| <= P
    ensures at / P < |pages| && PageOK(kv, pages[at / P], P)
    ensures var p, s := kv[pages[at / P]], at % P;
      WriteTokens(kv, pages, at, toks, P) == kv[pages[at / P] := p[..s] + toks + p[s + |toks|..]]
    decreases |toks|
  {
    TokenPage(at, n, P);
    var x, s := pages[at / P], at % P;
    assert PageOK(kv, x, P);
    var p := kv[x];
    if toks == [] {
      assert p[..s] + toks + p[s..] == p;
    } else {
      var k := |toks| - 1;
      RunInPage(kv, pages, n, at, toks[..k], P);
      SplitDiv(at, k, P);
      RunGrows(p, s, toks);
    }
  }

  lemma SplitDiv(at: nat, k: nat, P: nat)
    requires P >= 1 && at % P + k < P
    ensures (at + k) / P == at / P && (at + k) % P == at % P + k
  {
    assert at == (at / P) * P + at % P;
    DivUnique(at + k, P, at / P, at % P + k);
  }

  lemma RunGrows(p: PageData, s: nat, toks: seq<TokenKV>)
    requires toks != [] && s + |toks| <= |p|
    ensures var k := |toks| - 1;
      (p[..s] + toks[..k] + p[s + k..])[s + k := toks[k]] == p[..s] + toks + p[s + |toks|..]
  {}

  function Shorter(a: nat, b: nat): (c: nat)
    ensures c <= a && c <= b && (c == a || c == b)
  {
    if a <= b then a else b
  }

  /** One round of the store: as much of `src` from `from` on as fits the page of token `at`. */
  method StoreRun(kv: array<PageData>, pages: seq<int>, src: seq<TokenKV>, at: nat, P: nat) returns (toCopy: nat)
    requires at < |src| && Fits(kv[..], pages, |src|, P)
    modifies kv
    ensures 0 < toCopy && at + toCopy <= |src|
    ensures kv[..] == WriteTokens(old(kv[..]), pages, at, src[at..at + toCopy], P)
  {
    var pageOffset, slot := at / P, at % P;
    TokenPage(at, |src|, P);
    assert PageOK(kv[..], pages[pageOffset], P);
    var pageId := pages[pageOffset];
    toCopy := Shorter(|src| - at, P - slot);
    var run := src[at..at + toCopy];
    RunInPage(kv[..], pages, |src|, at, run, P);
    WriteRun(kv, pageId, slot, run);
  }

  method WriteRun(kv: array<PageData>, pageId: int, slot: nat, run: seq<TokenKV>)
    requires 0 <= pageId < kv.Length && slot + |run| <= |kv[pageId]|
    modifies kv
    ensures var p := old(kv[pageId]); kv[..] == old(kv[..])[pageId := p[..slot] + run + p[slot + |run|..]]
  {
    kv[pageId] := kv[pageId][..slot] + run + kv[pageId][slot + |run|..];
  }

  /** `_store_prefill_slice_to_pool`: the slice always goes to token 0 and onwards. */
  method StorePrefillSlice(kv: array<PageData>, pages: seq<int>, src: seq<TokenKV>, srcStart: nat, srcLen: nat, P: nat)
    requires srcStart + srcLen <= |src| && Fits(kv[..], pages, srcLen, P)
    modifies kv
    ensures kv[..] == WriteTokens(old(kv[..]), pages, 0, src[srcStart..srcStart + srcLen], P)
  {
    var all := src[srcStart..srcStart + srcLen];
    ghost var kv0 := kv[..];
    var written := 0;
    while written < srcLen
      invariant written <= srcLen && Fits(kv[..], pages, srcLen, P)
      invariant kv[..] == WriteTokens(kv0, pages, 0, all[..written], P)
    {
      ghost var before := kv[..];
      var toCopy := StoreRun(kv, pages, all, written, P);
      TokensFit(before, pages, srcLen, written, all[written..written + toCopy], P);
      WriteJoin(kv0, pages, 0, all[..written], all[written..written + toCopy], P);
      assert all[..written] + all[written..written + toCopy] == all[..written + toCopy];
      written := written + toCopy;
    }
    assert all[..srcLen] == all;
  }

  /** `_gather_kv_from_pool` */
  method GatherKv(kv: array<PageData>, pages: seq<int>, kvLen: nat, P: nat) returns (out: seq<TokenKV>)
    requires Fits(kv[..], pages, kvLen, P)
    ensures out == Gathered(kv[..], pages, kvLen, P)
  {
    out := [];
    var t := 0;
    while t < kvLen
      invariant t <= kvLen && out == Gathered(kv[..], pages, t, P)
    {
      TokenPage(t, kvLen, P);
      assert PageOK(kv[..], pages[t / P], P);
      var pageOffset, slot := t / P, t % P;
      var pageId := pages[pageOffset];
      out := out + [kv[pageId][slot]];
      t := t + 1;
    }
  }

  // ---- one flat gather for a whole batch (`_build_batched_kv_from_pool`) ----

  /** The page table: one row per request, padded with -1. */
  function TableEntry(row: seq<int>, j: nat): int {
    if j < |row| then row[j] else -1
  }

  function FlatIndex(row: seq<int>, t: nat, P: nat): int
    requires P >= 1
  {
    TableEntry(row, t / P) * P + t % P
  }

  /** The flat index of a token, 0 for the padding past a request's length. */
  function SafeIndex(row: seq<int>, t: nat, len: nat, P: nat): int
    requires P >= 1
  {
    if t < len then FlatIndex(row, t, P) else 0
  }

  /** The pool as one long row of slots, read at one index. */
  function FlatAt(kv: seq<PageData>, i: int, P: nat): TokenKV
    requires P >= 1
  {
    if 0 <= i / P < |kv| && i % P < |kv[i / P]| then kv[i / P][i % P] else ZeroKV()
  }

  /** An index into the flattened pool. */
  ghost predicate InFlat(kv: seq<PageData>, i: int, P: nat) {
    0 <= i < |kv| * P
  }

  lemma FlatInRange(kv: seq<PageData>, i: int, P: nat)
    requires P >= 1 && InFlat(kv, i, P)
    ensures 0 <= i / P < |kv| && 0 <= i % P < P
  {
    assert i == (i / P) * P + i % P;
    MulMono(|kv|, i / P, P);
    MulMono(i / P, -1, P);
  }

  /** The flat index of a valid token is in range and leads to the token's own slot. */
  lemma ValidIndex(kv: seq<PageData>, row: seq<int>, t: nat, len: nat, P: nat)
    requires Fits(kv, row, len, P) && t < len
    ensures var i := SafeIndex(row, t, len, P);
      InFlat(kv, i, P) && i / P == row[t / P] && i % P == t % P && t / P < |row|
  {
    TokenPage(t, len, P);
    assert PageOK(kv, row[t / P], P);
    var i := SafeIndex(row, t, len, P);
    DivUnique(i, P, row[t / P], t % P);
    MulMono(row[t / P] + 1, |kv|, P);
    MulMono(0, row[t / P], P);
    assert (row[t / P] + 1) * P == row[t / P] * P + P;
  }

  /** What the batched gather puts at one position: the slot at the safe index, times the mask. */
  function BatchedAt(kv: seq<PageData>, row: seq<int>, len: nat, t: nat, P: nat): TokenKV
    requires P >= 1
  {
    if t < len then FlatAt(kv, SafeIndex(row, t, len, P), P) else ZeroKV()
  }

  function BatchedGather(kv: seq<PageData>, rows: seq<seq<int>>, lens: seq<nat>, maxLen: nat, P: nat): seq<seq<TokenKV>>
    requires P >= 1 && |rows| == |lens|
  {
    seq(|rows|, i requires 0 <= i < |rows| => seq(maxLen,
      t requires 0 <= t < maxLen => BatchedAt(kv, rows[i], lens[i], t, P)))
  }

  function Widest(rows: seq<seq<int>>): nat {
    if rows == [] then 0 else
      var w := Widest(rows[..|rows| - 1]);
      if w >= |rows[|rows| - 1]| then w else |rows[|rows| - 1]|
  }

  /** Columns of the page table. */
  function TableWidth(rows: seq<seq<int>>, maxLen: nat, P: nat): nat
    requires P >= 1
  {
    if PagesNeeded(maxLen, P) >= Widest(rows) then PagesNeeded(maxLen, P) else Widest(rows)
  }

  lemma {:induction false} RowsFitTable(rows: seq<seq<int>>, i: nat)
    requires i < |rows|
    ensures |rows[i]| <= Widest(rows)
  {
    if i < |rows| - 1 {
      RowsFitTable(rows[..|rows| - 1], i);
    }
  }

  /** All rows of a batch fit, and no request is longer than the padded length. */
  ghost predicate BatchFits(kv: seq<PageData>, rows: seq<seq<int>>, lens: seq<nat>, maxLen: nat, P: nat) {
    && P >= 1 && |kv| > 0 && |rows| == |lens|
       && (forall x {:trigger PageOK(kv, x, P)} :: 0 <= x < |kv| ==> PageOK(kv, x, P))
    && (forall i {:trigger rows[i]} :: 0 <= i < |rows| ==> Fits(kv, rows[i], lens[i], P) && lens[i] <= maxLen)
  }

  lemma SafeInRange(kv: seq<PageData>, rows: seq<seq<int>>, lens: seq<nat>, maxLen: nat, P: nat, i: nat, t: nat)
    requires BatchFits(kv, rows, lens, maxLen, P) && i < |rows|
    ensures var j := SafeIndex(rows[i], t, lens[i], P);
            InFlat(kv, j, P) && 0 <= j / P < |kv| && 0 <= j % P < |kv[j / P]|
  {
    var j := SafeIndex(rows[i], t, lens[i], P);
    if t < lens[i] {
      ValidIndex(kv, rows[i], t, lens[i], P);
    } else {
      MulMono(1, |kv|, P);
    }
    FlatInRange(kv, j, P);
    assert PageOK(kv, j / P, P);
  }

  /** Every index the gather uses is in range: of the page table, and of the flattened pool. */
  lemma GatherInRange(kv: seq<PageData>, rows: seq<seq<int>>, lens: seq<nat>, maxLen: nat, P: nat, i: nat, t: nat)
    requires BatchFits(kv, rows, lens, maxLen, P) && i < |rows| && t < maxLen
    ensures |rows[i]| <= TableWidth(rows, maxLen, P) && t / P < TableWidth(rows, maxLen, P)
    ensures InFlat(kv, SafeIndex(rows[i], t, lens[i], P), P)
  {
    RowsFitTable(rows, i);
    TokenPage(t, maxLen, P);
    SafeInRange(kv, rows, lens, maxLen, P, i, t);
  }

  ghost function Zeros(n: nat): seq<TokenKV> {
    seq(n, _ => ZeroKV())
  }

  /** Row by row the batched gather is the token-by-token gather followed by zeros. */
  lemma BatchedIsGather(kv: seq<PageData>, rows: seq<seq<int>>, lens: seq<nat>, maxLen: nat, P: nat, i: nat)
    requires BatchFits(kv, rows, lens, maxLen, P) && i < |rows|
    ensures lens[i] <= maxLen
    ensures BatchedGather(kv, rows, lens, maxLen, P)[i] == Gathered(kv, rows[i], lens[i], P) + Zeros(maxLen - lens[i])
  {
    assert Fits(kv, rows[i], lens[i], P);
    var row, g := BatchedGather(kv, rows, lens, maxLen, P)[i], Gathered(kv, rows[i], lens[i], P);
    forall t {:trigger row[t]} | 0 <= t < maxLen ensures row[t] == (g + Zeros(maxLen - lens[i]))[t] {
      if t < lens[i] {
        ValidIndex(kv, rows[i], t, lens[i], P);
        TokenPage(t, lens[i], P);
        SafeInRange(kv, rows, lens, maxLen, P, i, t);
      }
    }
  }

  // ---- appending one decoded token ----

  /** The write of `_append_last_token_kv_to_pool`. */
  method AppendToken(kv: array<PageData>, pages: seq<int>, t: nat, v: TokenKV, P: nat)
    requires Fits(kv[..], pages, t + 1, P)
    modifies kv
    ensures kv[..] == WriteAt(old(kv[..]), pages, t, v, P)
  {
    WriteFits(kv[..], pages, t + 1, t, v, P);
    var pageOffset, slot := t / P, t % P;
    var pageId := pages[pageOffset];
    kv[pageId] := kv[pageId][slot := v];
  }

  // ---- appending one token per request in one indexed write ----

  datatype Target = Target(page: int, slot: nat)

  ghost predicate Reaches(kv: seq<PageData>, c: Target, P: nat) {
    PageOK(kv, c.page, P) && c.slot < P
  }

  /** Writing the values one after the other. */
  ghost function OneByOne(kv: seq<PageData>, cells: seq<Target>, vals: seq<TokenKV>): seq<PageData>
    requires |cells| == |vals|
  {
    if cells == [] then kv else
      var k := |cells| - 1;
      Put(OneByOne(kv, cells[..k], vals[..k]), cells[k].page, cells[k].slot, vals[k])
  }

  ghost predicate SameShape(kv: seq<PageData>, kv': seq<PageData>) {
    |kv'| == |kv| && forall x {:trigger kv'[x]} :: 0 <= x < |kv| ==> |kv'[x]| == |kv[x]|
  }

  /** An indexed write in no particular order: untouched slots keep their contents, a written
      slot holds one of the values meant for it. */
  ghost predicate Scattered(kv: seq<PageData>, kv': seq<PageData>, cells: seq<Target>, vals: seq<TokenKV>)
    requires |cells| == |vals|
  {
    && SameShape(kv, kv')
    && (forall x, s: nat {:trigger At(kv', x, s)} :: 0 <= x < |kv| && s < |kv[x]| ==>
          if Target(x, s) in cells then
            exists i {:trigger cells[i]} :: 0 <= i < |cells| && cells[i] == Target(x, s) && At(kv', x, s) == vals[i]
          else At(kv', x, s) == At(kv, x, s))
  }

  lemma {:induction false} OneByOneShape(kv: seq<PageData>, cells: seq<Target>, vals: seq<TokenKV>)
    requires |cells| == |vals|
    ensures SameShape(kv, OneByOne(kv, cells, vals))
  {
    if cells != [] {
      var k := |cells| - 1;
      OneByOneShape(kv, cells[..k], vals[..k]);
    }
  }

  lemma {:induction false} OneByOneAt(kv: seq<PageData>, cells: seq<Target>, vals: seq<TokenKV>, x: int, s: nat)
    requires |cells| == |vals| && NoDup(cells) && 0 <= x < |kv| && s < |kv[x]|
    ensures Target(x, s) !in cells ==> At(OneByOne(kv, cells, vals), x, s) == At(kv, x, s)
    ensures forall i {:trigger cells[i]} :: 0 <= i < |cells| && cells[i] == Target(x, s) ==>
      At(OneByOne(kv, cells, vals), x, s) == vals[i]
  {
    OneByOneShape(kv, cells, vals);
    if cells != [] {
      var k := |cells| - 1;
      OneByOneShape(kv, cells[..k], vals[..k]);
      OneByOneAt(kv, cells[..k], vals[..k], x, s);
      forall i {:trigger cells[i]} | 0 <= i < k && cells[i] == Target(x, s)
        ensures At(OneByOne(kv, cells, vals), x, s) == vals[i]
      {
        assert cells[..k][i] == cells[i];
      }
    }
  }

  /** With different targets the order of the writes does not matter. */
  lemma ScatterIsOneByOne(kv: seq<PageData>, kv': seq<PageData>, cells: seq<Target>, vals: seq<TokenKV>)
    requires |cells| == |vals| && NoDup(cells) && Scattered(kv, kv', cells, vals)
    ensures kv' == OneByOne(kv, cells, vals)
  {
    var one := OneByOne(kv, cells, vals);
    OneByOneShape(kv, cells, vals);
    forall x {:trigger kv'[x]} | 0 <= x < |kv| ensures kv'[x] == one[x] {
      forall s {:trigger kv'[x][s]} | 0 <= s < |kv[x]| ensures kv'[x][s] == one[x][s] {
        OneByOneAt(kv, cells, vals, x, s);
        assert At(kv', x, s) == kv'[x][s] && At(one, x, s) == one[x][s];
      }
    }
  }

  /** Whatever is stored and whichever order the write takes, an indexed assignment to the pool
      does what appending one request at a time does. */
  ghost predicate ScattersAll(cells: seq<Target>, poolSize: nat) {
    forall kv: seq<PageData>, kv': seq<PageData>, vals: seq<TokenKV> {:trigger Scattered(kv, kv', cells, vals)} ::
      |kv| == poolSize && |vals| == |cells| && Scattered(kv, kv', cells, vals) ==> kv' == OneByOne(kv, cells, vals)
  }

  /** Writing one after the other is one of the orders. */
  lemma {:induction false} OneByOneScattered(kv: seq<PageData>, cells: seq<Target>, vals: seq<TokenKV>)
    requires |cells| == |vals|
    ensures Scattered(kv, OneByOne(kv, cells, vals), cells, vals)
  {
    OneByOneShape(kv, cells, vals);
    if cells != [] {
      var k := |cells| - 1;
      OneByOneScattered(kv, cells[..k], vals[..k]);
      ScatterMore(kv, OneByOne(kv, cells[..k], vals[..k]), cells, vals, k);
    }
  }

  /** One more write to a slot the scatter may write. */
  lemma ScatterMore(kv: seq<PageData>, kv': seq<PageData>, cells: seq<Target>, vals: seq<TokenKV>, k: nat)
    requires |cells| == |vals| && k == |cells| - 1 && Scattered(kv, kv', cells[..k], vals[..k])
    ensures Scattered(kv, Put(kv', cells[k].page, cells[k].slot, vals[k]), cells, vals)
  {
    var c, t := cells[k], Put(kv', cells[k].page, cells[k].slot, vals[k]);
    forall x, s: nat {:trigger At(t, x, s)} | 0 <= x < |kv| && s < |kv[x]|
      ensures if Target(x, s) in cells
        then exists i {:trigger cells[i]} :: 0 <= i < |cells| && cells[i] == Target(x, s) && At(t, x, s) == vals[i]
        else At(t, x, s) == At(kv, x, s)
    {
      if Target(x, s) == c {
        assert cells[k] == Target(x, s) && At(t, x, s) == vals[k];
      } else {
        assert At(t, x, s) == At(kv', x, s);
        if Target(x, s) in cells[..k] {
          var i :| 0 <= i < k && cells[..k][i] == Target(x, s) && At(kv', x, s) == vals[..k][i];
          assert cells[i] == Target(x, s) && At(t, x, s) == vals[i];
        }
      }
    }
  }

  /** Among repeated targets the order decides: overwriting the slot with the value of another of
      its writers is a scatter as well. */
  lemma RepeatedScatter(kv: seq<PageData>, kv': seq<PageData>, cells: seq<Target>, vals: seq<TokenKV>, i: nat)
    requires |cells| == |vals| && i < |cells| && Scattered(kv, kv', cells, vals)
    ensures Scattered(kv, Put(kv', cells[i].page, cells[i].slot, vals[i]), cells, vals)
  {
    var t := Put(kv', cells[i].page, cells[i].slot, vals[i]);
    forall x, s: nat {:trigger At(t, x, s)} | 0 <= x < |kv| && s < |kv[x]|
      ensures if Target(x, s) in cells
        then exists j {:trigger cells[j]} :: 0 <= j < |cells| && cells[j] == Target(x, s) && At(t, x, s) == vals[j]
        else At(t, x, s) == At(kv, x, s)
    {
      if Target(x, s) == cells[i] {
        assert At(t, x, s) == vals[i];
      } else {
        assert At(t, x, s) == At(kv', x, s);
      }
    }
  }

  /** An indexed assignment, had the source made one, equals appending one request at a time if
      and only if all targets differ. */
  lemma ScatterAppendIff(cells: seq<Target>, poolSize: nat, P: nat)
    requires forall i {:trigger cells[i]} :: 0 <= i < |cells| ==> 0 <= cells[i].page < poolSize && cells[i].slot < P
    ensures ScattersAll(cells, poolSize) <==> NoDup(cells)
  {
    if NoDup(cells) {
      forall kv: seq<PageData>, kv': seq<PageData>, vals: seq<TokenKV> {:trigger Scattered(kv, kv', cells, vals)}
        | |kv| == poolSize && |vals| == |cells| && Scattered(kv, kv', cells, vals)
        ensures kv' == OneByOne(kv, cells, vals)
      {
        ScatterIsOneByOne(kv, kv', cells, vals);
      }
    } else {
      var i, j :| 0 <= i < j < |cells| && cells[i] == cells[j];
      var kv, vals := seq(poolSize, _ => ZeroPage(P)), seq(|cells|, k => TokenKV([k as real], []));
      var one, c := OneByOne(kv, cells, vals), cells[i];
      OneByOneScattered(kv, cells, vals);
      assert vals[i].keys[0] != vals[j].keys[0];
      var other := if At(one, c.page, c.slot) == vals[i] then j else i;
      RepeatedScatter(kv, one, cells, vals, other);
      var two := Put(one, c.page, c.slot, vals[other]);
      assert |one[c.page]| == |kv[c.page]| == P;
      assert At(two, c.page, c.slot) == vals[other] != At(one, c.page, c.slot);
    }
  }

  // ---- `pool[page_ids, slots].copy_(vals)`: a write to a copy ----

  /** `pool[page_ids, slots]`: indexing by index tensors builds a new tensor of the entries. */
  ghost function Picked(kv: seq<PageData>, cells: seq<Target>): seq<TokenKV> {
    seq(|cells|, i requires 0 <= i < |cells| => At(kv, cells[i].page, cells[i].slot))
  }

  /** Overwrites an array in place, entry by entry. */
  ghost function Overwritten(copied: seq<TokenKV>, vals: seq<TokenKV>): seq<TokenKV> {
    seq(|copied|, i requires 0 <= i < |copied| => if i < |vals| then vals[i] else copied[i])
  }

  /** The pool, and the tensor that indexing it has built. */
  datatype Written = Written(pool: seq<PageData>, copied: seq<TokenKV>)

  ghost function CopyIndexed(kv: seq<PageData>, cells: seq<Target>, vals: seq<TokenKV>): Written {
    Written(kv, Overwritten(Picked(kv, cells), vals))
  }

  method IndexedCopy(kv: array<PageData>, cells: seq<Target>, vals: seq<TokenKV>, P: nat)
    returns (copied: array<TokenKV>)
    requires |cells| == |vals| && forall i {:trigger cells[i]} :: 0 <= i < |cells| ==> Reaches(kv[..], cells[i], P)
    modifies kv
    ensures fresh(copied) && Written(kv[..], copied[..]) == CopyIndexed(old(kv[..]), cells, vals)
  {
    copied := new TokenKV[|cells|](_ => ZeroKV());
    var i := 0;
    while i < |cells|
      invariant 0 <= i <= |cells| && copied[..i] == Picked(kv[..], cells)[..i]
      modifies copied
    {
      assert Reaches(kv[..], cells[i], P);
      copied[i] := kv[cells[i].page][cells[i].slot];
      i := i + 1;
    }
    i := 0;
    while i < |cells|
      invariant 0 <= i <= |cells| && copied[..i] == vals[..i]
      modifies copied
    {
      copied[i] := vals[i];
      i := i + 1;
    }
  }

  /** Whatever is stored, the batched append leaves in the pool what appending one request at a
      time does. */
  ghost predicate AppendsAll(cells: seq<Target>, poolSize: nat) {
    forall kv: seq<PageData>, vals: seq<TokenKV> {:trigger CopyIndexed(kv, cells, vals)} ::
      |kv| == poolSize && |vals| == |cells| ==> CopyIndexed(kv, cells, vals).pool == OneByOne(kv, cells, vals)
  }

  /** It does so if and only if the batch is empty: the tokens go to the copy. */
  lemma BatchAppendIff(cells: seq<Target>, poolSize: nat, P: nat)
    requires forall i {:trigger cells[i]} :: 0 <= i < |cells| ==> 0 <= cells[i].page < poolSize && cells[i].slot < P
    ensures AppendsAll(cells, poolSize) <==> cells == []
  {
    if cells != [] {
      var kv, vals := seq(poolSize, _ => ZeroPage(P)), seq(|cells|, _ => TokenKV([1.0], [1.0]));
      OneByOneScattered(kv, cells, vals);
      var c := cells[0];
      assert Target(c.page, c.slot) in cells && CopyIndexed(kv, cells, vals).pool == kv;
      assert At(OneByOne(kv, cells, vals), c.page, c.slot) != ZeroKV() == At(kv, c.page, c.slot);
    }
  }

  /** The slot the next token of a request goes to. */
  function TargetOf(pages: seq<int>, t: nat, P: nat): Target
    requires P >= 1 && t / P < |pages|
  {
    Target(pages[t / P], t % P)
  }

  ghost predicate TargetAt(cells: seq<Target>, rows: seq<seq<int>>, lens: seq<nat>, P: nat, i: nat)
    requires P >= 1 && i < |cells| == |rows| == |lens|
  {
    lens[i] / P < |rows[i]| && cells[i] == TargetOf(rows[i], lens[i], P)
  }

  ghost predicate Targets(cells: seq<Target>, rows: seq<seq<int>>, lens: seq<nat>, P: nat) {
    && P >= 1 && |cells| == |rows| == |lens|
    && forall i {:trigger TargetAt(cells, rows, lens, P, i)} :: 0 <= i < |rows| ==> TargetAt(cells, rows, lens, P, i)
  }

  /** Appending for one request after the other. */
  ghost function AppendEach(kv: seq<PageData>, rows: seq<seq<int>>, lens: seq<nat>, vals: seq<TokenKV>,
                            P: nat): seq<PageData>
    requires |rows| == |lens| == |vals|
  {
    if rows == [] then kv else
      var k := |rows| - 1;
      WriteAt(AppendEach(kv, rows[..k], lens[..k], vals[..k], P), rows[k], lens[k], vals[k], P)
  }

  lemma {:induction false} AppendEachIsOneByOne(kv: seq<PageData>, cells: seq<Target>, rows: seq<seq<int>>,
                                                lens: seq<nat>, vals: seq<TokenKV>, P: nat)
    requires Targets(cells, rows, lens, P) && |vals| == |rows|
    ensures AppendEach(kv, rows, lens, vals, P) == OneByOne(kv, cells, vals)
    decreases |rows|
  {
    if rows != [] {
      var k := |rows| - 1;
      forall i {:trigger TargetAt(cells[..k], rows[..k], lens[..k], P, i)} | 0 <= i < k
        ensures TargetAt(cells[..k], rows[..k], lens[..k], P, i)
      {
        assert TargetAt(cells, rows, lens, P, i);
      }
      AppendEachIsOneByOne(kv, cells[..k], rows[..k], lens[..k], vals[..k], P);
      assert TargetAt(cells, rows, lens, P, k);
    }
  }

  /** `_append_batched_last_token_kv_to_pool`, for requests that need no more pages: every length
      grows by one, the pool stays as it is. */
  method AppendBatch(kv: array<PageData>, rows: seq<seq<int>>, lens: seq<nat>, vals: seq<TokenKV>, P: nat)
    returns (lens': seq<nat>, ghost cells: seq<Target>)
    requires P >= 1 && |rows| == |lens| == |vals|
    requires forall i {:trigger rows[i]} :: 0 <= i < |rows| ==> Fits(kv[..], rows[i], lens[i] + 1, P)
    modifies kv
    ensures Targets(cells, rows, lens, P) && kv[..] == CopyIndexed(old(kv[..]), cells, vals).pool
    ensures |lens'| == |lens| && forall i {:trigger lens'[i]} :: 0 <= i < |lens| ==> lens'[i] == lens[i] + 1
  {
    lens' := [];
    var targets: seq<Target> := [];
    ghost var kv0 := kv[..];
    while |targets| < |rows|
      invariant kv[..] == kv0
      invariant |lens'| == |targets| <= |rows| && Targets(targets, rows[..|targets|], lens[..|targets|], P)
      invariant forall i {:trigger lens'[i]} :: 0 <= i < |targets| ==> lens'[i] == lens[i] + 1
      invariant forall i {:trigger targets[i]} :: 0 <= i < |targets| ==> Reaches(kv[..], targets[i], P)
      decreases |rows| - |targets|
    {
      var k := |targets|;
      assert Fits(kv[..], rows[k], lens[k] + 1, P);
      TokenPage(lens[k], lens[k] + 1, P);
      assert PageOK(kv[..], rows[k][lens[k] / P], P);
      TargetsMore(targets, rows, lens, P);
      targets, lens' := targets + [TargetOf(rows[k], lens[k], P)], lens' + [lens[k] + 1];
    }
    assert rows[..|rows|] == rows && lens[..|lens|] == lens;
    cells := targets;
    var copied := IndexedCopy(kv, targets, vals, P);
  }

  lemma TargetsMore(cells: seq<Target>, rows: seq<seq<int>>, lens: seq<nat>, P: nat)
    requires P >= 1 && |cells| < |rows| == |lens| && lens[|cells|] / P < |rows[|cells|]|
    requires Targets(cells, rows[..|cells|], lens[..|cells|], P)
    ensures var k := |cells|; Targets(cells + [TargetOf(rows[k], lens[k], P)], rows[..k + 1], lens[..k + 1], P)
  {
    var k := |cells|;
    var more := cells + [TargetOf(rows[k], lens[k], P)];
    forall i {:trigger TargetAt(more, rows[..k + 1], lens[..k + 1], P, i)} | 0 <= i < k + 1
      ensures TargetAt(more, rows[..k + 1], lens[..k + 1], P, i)
    {
      if i < k {
        assert TargetAt(cells, rows[..k], lens[..k], P, i);
      }
    }
  }

  /** Reading a request back after a decode step of the batch: the slot of its new token holds
      what it held before. */
  lemma DecodeReadsStale(kv: seq<PageData>, cells: seq<Target>, vals: seq<TokenKV>, pages: seq<int>, n: nat, v: TokenKV,
                         P: nat)
    ensures var g, g' := Gathered(kv, pages, n, P), Gathered(CopyIndexed(kv, cells, vals).pool, pages, n + 1, P);
      g' == g + [Cell(kv, pages, n, P)] && (g' == g + [v] <==> Cell(kv, pages, n, P) == v)
  {
    var g, g' := Gathered(kv, pages, n, P), Gathered(kv, pages, n + 1, P);
    assert g' == g + [Cell(kv, pages, n, P)];
    assert (g + [v])[n] == v && (g + [Cell(kv, pages, n, P)])[n] == Cell(kv, pages, n, P);
  }

  /** Whatever is stored, every request of the batch reads its old tokens back and then its new one. */
  ghost predicate DecodeReadsBack(rows: seq<seq<int>>, lens: seq<nat>, cells: seq<Target>, poolSize: nat, P: nat)
    requires |rows| == |lens|
  {
    forall kv: seq<PageData>, vals: seq<TokenKV>, i {:trigger CopyIndexed(kv, cells, vals), rows[i]} ::
      |kv| == poolSize && |vals| == |rows| && 0 <= i < |rows| && Fits(kv, rows[i], lens[i] + 1, P) ==>
      Gathered(CopyIndexed(kv, cells, vals).pool, rows[i], lens[i] + 1, P) ==
        Gathered(kv, rows[i], lens[i], P) + [vals[i]]
  }

  /** So the round trip through the fallback decode holds if and only if nobody decodes. */
  lemma DecodeRoundTripIff(rows: seq<seq<int>>, lens: seq<nat>, cells: seq<Target>, poolSize: nat, P: nat)
    requires P >= 1 && |rows| == |lens|
    requires forall i {:trigger rows[i]} :: 0 <= i < |rows| ==> PagesNeeded(lens[i] + 1, P) <= |rows[i]|
    requires forall i, j {:trigger rows[i][j]} :: 0 <= i < |rows| && 0 <= j < |rows[i]| ==> 0 <= rows[i][j] < poolSize
    ensures DecodeReadsBack(rows, lens, cells, poolSize, P) <==> rows == []
  {
    if rows != [] {
      var kv, vals := seq(poolSize, _ => ZeroPage(P)), seq(|rows|, _ => TokenKV([1.0], [1.0]));
      forall j {:trigger rows[0][j]} | 0 <= j < |rows[0]| ensures PageOK(kv, rows[0][j], P) {}
      assert Fits(kv, rows[0], lens[0] + 1, P);
      DecodeReadsStale(kv, cells, vals, rows[0], lens[0], vals[0], P);
      WriteFits(kv, rows[0], lens[0] + 1, lens[0], ZeroKV(), P);
      assert Cell(kv, rows[0], lens[0], P) == ZeroKV();
    }
  }
}
