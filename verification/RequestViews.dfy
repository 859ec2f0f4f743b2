/** Requests as values: what the engine and the scheduler know of each request, and what one
    prefill call, one decode call and one finish do to it (core.py:41-88). */
module RequestViews {
  import opened Paging
  import opened Requests
  import opened Wrappers

  /** A copy of the fields of one request; of its paged state only the length. */
  datatype RS = RS(status: Status, out: seq<int>, queue: seq<TokenOutput>, kv: Option<nat>, offset: nat, hit: nat,
    retract: bool)

  type View = map<Request, RS>

  ghost function Snapshot(r: Request): RS
    reads r`status, r`outputIds, r`tokenQueue, r`kvCache, r`prefillOffset, r`cacheHitTokens, r`needsRetract
  {
    RS(r.status, r.outputIds, r.tokenQueue, if r.kvCache.Some? then Some(r.kvCache.value.kvLen) else None,
       r.prefillOffset, r.cacheHitTokens, r.needsRetract)
  }

  ghost predicate InView(v: View, r: Request)
    requires r in v
    reads r`status, r`outputIds, r`tokenQueue, r`kvCache, r`prefillOffset, r`cacheHitTokens, r`needsRetract
  {
    Snapshot(r) == v[r]
  }

  ghost predicate Viewed(v: View)
    reads v.Keys`status, v.Keys`outputIds, v.Keys`tokenQueue, v.Keys`kvCache, v.Keys`prefillOffset
    reads v.Keys`cacheHitTokens, v.Keys`needsRetract
  {
    forall r {:trigger InView(v, r)} :: r in v ==> InView(v, r)
  }

  /** Exactly the live requests hold pages. */
  ghost predicate LiveView(v: View, live: set<Request>) {
    live <= v.Keys && forall r {:trigger v[r]} :: r in v ==> (v[r].kv.Some? <==> r in live)
  }

  lemma LiveUpdate(v: View, live: set<Request>, live': set<Request>, r: Request, s: RS)
    requires LiveView(v, live) && r in v
    requires live' == if s.kv.Some? then live + {r} else live - {r}
    ensures LiveView(v[r := s], live')
  {}

  /** Only `r` changed. */
  ghost predicate Only(v: View, w: View, r: Request) {
    r in v && w.Keys == v.Keys && forall x {:trigger w[x]} :: x in v && x != r ==> w[x] == v[x]
  }

  lemma OnlyTrans(v: View, w: View, u: View, r: Request)
    requires Only(v, w, r) && Only(w, u, r)
    ensures Only(v, u, r)
  {}

  lemma OnlySelf(v: View, r: Request)
    requires r in v
    ensures Only(v, v, r)
  {}

  lemma OnlyUpdate(v: View, r: Request, s: RS)
    requires r in v
    ensures Only(v, v[r := s], r)
  {}

  // ---- prefill ----

  /** How far one prefill call takes a prompt of `n` tokens from `o`; a chunk size of 0 means no
      limit. */
  function NextOffset(o: nat, n: nat, chunk: nat): nat {
    if o >= n || chunk == 0 || n - o <= chunk then n else o + chunk
  }

  /** Prefill calls needed from offset `o`. */
  function Calls(o: nat, n: nat, chunk: nat): nat {
    if o >= n || chunk == 0 then 1 else PagesNeeded(n - o, chunk)
  }

  /** One call leaves one fewer; the last one ends exactly at the end of the prompt. */
  lemma CallsFall(o: nat, n: nat, chunk: nat)
    requires o < n
    ensures o < NextOffset(o, n, chunk) <= n
    ensures NextOffset(o, n, chunk) == n <==> Calls(o, n, chunk) == 1
    ensures NextOffset(o, n, chunk) < n ==> Calls(NextOffset(o, n, chunk), n, chunk) == Calls(o, n, chunk) - 1
    ensures Calls(o, n, chunk) >= 1
  {
    if chunk > 0 {
      var m := n - o;
      assert m == (m / chunk) * chunk + m % chunk;
      if m <= chunk {
        if m < chunk { DivSmall(m, chunk); } else { DivUnique(m, chunk, 1, 0); }
      } else {
        DivUnique(m - chunk, chunk, m / chunk - 1, m % chunk) by {
          assert (m / chunk - 1) * chunk == (m / chunk) * chunk - chunk;
        }
        MulMono(m / chunk, 1, chunk);
      }
    }
  }

  /** The state a prompt is prefilled from: where it was, or just after a successful init. */
  ghost predicate Opened(r: Request, s: RS, s': RS) {
    if s.kv.Some? then s' == s
    else s'.hit <= |r.inputIds| && s' == s.(kv := Some(s'.hit), offset := s'.hit, hit := s'.hit)
  }

  /** The next slice of the prompt is stored behind tokens that are in the pool already. */
  ghost predicate Continues(r: Request, s: RS) {
    s.kv.Some? && s.kv.value > 0 && s.offset < |r.inputIds|
  }

  /** A failed init leaves nothing behind. */
  ghost function Blanked(s: RS): RS {
    s.(kv := None, offset := 0, hit := 0)
  }

  ghost function Filled(s: RS, n: nat): RS {
    s.(kv := Some(n), offset := n)
  }

  /** What one prefill call made of a request: flagged for retraction, or brought one chunk on;
      `tok` is the first output token, once the prompt is done. */
  ghost predicate Prefilled(r: Request, s: RS, s': RS, tok: Option<int>, chunk: nat) {
    if s'.retract then s.kv.None? && tok.None? && s' == Blanked(s).(retract := true)
    else
      var o := if s.kv.Some? then s.offset else s'.hit;
      && o <= |r.inputIds| && (s.kv.Some? ==> s'.hit == s.hit)
      && s' == Filled(s, NextOffset(o, |r.inputIds|, chunk)).(hit := s'.hit)
      && (tok.Some? <==> s'.offset == |r.inputIds|)
  }

  /** What a prefill call needs of a request. */
  ghost predicate Prefillable(r: Request, s: RS) {
    && |r.inputIds| > 0 && r.maxNewTokens > 0 && !s.retract
    && (s.kv.Some? ==> s.kv == Some(s.offset) && s.offset <= |r.inputIds|)
  }

  /** Nothing the client sees has changed. */
  ghost predicate Unseen(s: RS, s': RS) {
    s'.status == s.status && s'.out == s.out && s'.queue == s.queue
  }

  ghost predicate UnseenAll(v: View, v': View) {
    v'.Keys == v.Keys && forall r {:trigger v'[r]} :: r in v ==> Unseen(v[r], v'[r])
  }

  /** Where one request stands within a prefill batch: done for this call, waiting for its
      forward pass, or lost to an exception. */
  datatype Stage = Settled | Packed | Continued | Faulted

  ghost predicate Staged(r: Request, s: RS, s': RS, tok: Option<int>, stage: Stage, chunk: nat) {
    match stage
    case Settled => Prefilled(r, s, s', tok, chunk)
    case Faulted => Unseen(s, s')
    case _ => Opened(r, s, s') && s'.offset < |r.inputIds| && tok.None?
  }

  /** An open request brought on by its chunk. */
  lemma ChunkSettles(r: Request, s: RS, m: RS, tok: Option<int>, chunk: nat)
    requires Prefillable(r, s) && Opened(r, s, m)
    requires tok.Some? <==> NextOffset(m.offset, |r.inputIds|, chunk) == |r.inputIds|
    ensures Prefilled(r, s, Filled(m, NextOffset(m.offset, |r.inputIds|, chunk)), tok, chunk)
  {}

  /** A prefill batch under way: the first `k` requests have been staged, the others and all
      requests outside the batch are as they were. */
  ghost predicate BatchAt(reqs: seq<Request>, v: View, w: View, toks: seq<Option<int>>, stages: seq<Stage>, k: nat,
                          chunk: nat)
  {
    && |toks| == |stages| == k <= |reqs| && w.Keys == v.Keys
    && (forall i {:trigger reqs[i]} :: 0 <= i < |reqs| ==> reqs[i] in v && Prefillable(reqs[i], v[reqs[i]]))
    && (forall i {:trigger stages[i]} :: 0 <= i < k ==>
       Staged(reqs[i], v[reqs[i]], w[reqs[i]], toks[i], stages[i], chunk))
    && (forall i {:trigger reqs[i]} :: k <= i < |reqs| ==> w[reqs[i]] == v[reqs[i]])
    && (forall x {:trigger w[x]} :: x in v && x !in reqs ==> w[x] == v[x])
  }

  lemma BatchStart(reqs: seq<Request>, v: View, chunk: nat)
    requires forall i {:trigger reqs[i]} :: 0 <= i < |reqs| ==> reqs[i] in v && Prefillable(reqs[i], v[reqs[i]])
    ensures BatchAt(reqs, v, v, [], [], 0, chunk)
  {}

  lemma BatchStep(reqs: seq<Request>, v: View, w: View, w': View, toks: seq<Option<int>>, stages: seq<Stage>,
                  tok: Option<int>, stage: Stage, k: nat, chunk: nat)
    requires NoDup(reqs) && BatchAt(reqs, v, w, toks, stages, k, chunk) && k < |reqs|
    requires Only(w, w', reqs[k]) && Staged(reqs[k], v[reqs[k]], w'[reqs[k]], tok, stage, chunk)
    ensures BatchAt(reqs, v, w', toks + [tok], stages + [stage], k + 1, chunk)
  {
    forall i {:trigger (stages + [stage])[i]} | 0 <= i < k + 1
      ensures Staged(reqs[i], v[reqs[i]], w'[reqs[i]], (toks + [tok])[i], (stages + [stage])[i], chunk)
    {
      if i < k {
        assert stages[i] == (stages + [stage])[i];
        assert reqs[i] != reqs[k];
      }
    }
  }

  lemma BatchUpdate(reqs: seq<Request>, v: View, w: View, w': View, toks: seq<Option<int>>, stages: seq<Stage>,
                    tok: Option<int>, j: nat, chunk: nat)
    requires NoDup(reqs) && BatchAt(reqs, v, w, toks, stages, |reqs|, chunk) && j < |reqs|
    requires Only(w, w', reqs[j]) && Prefilled(reqs[j], v[reqs[j]], w'[reqs[j]], tok, chunk)
    ensures BatchAt(reqs, v, w', toks[j := tok], stages[j := Settled], |reqs|, chunk)
  {
    forall i {:trigger stages[j := Settled][i]} | 0 <= i < |reqs|
      ensures Staged(reqs[i], v[reqs[i]], w'[reqs[i]], toks[j := tok][i], stages[j := Settled][i], chunk)
    {
      if i != j {
        assert Staged(reqs[i], v[reqs[i]], w[reqs[i]], toks[i], stages[i], chunk);
        assert reqs[i] != reqs[j];
      }
    }
  }

  /** No request before `i` is at stage `which`, and none is lost; when the continuations are
      run, the packed ones are done. */
  ghost predicate PassedTo(stages: seq<Stage>, i: nat, which: Stage) {
    && Faulted !in stages && (which == Continued ==> Packed !in stages)
    && forall j {:trigger stages[j]} :: 0 <= j < i < |stages| + 1 ==> stages[j] != which
  }

  lemma PassStep(stages: seq<Stage>, i: nat, which: Stage)
    requires PassedTo(stages, i, which) && i < |stages| && (which == Packed || which == Continued)
    ensures PassedTo(if stages[i] == which then stages[i := Settled] else stages, i + 1, which)
  {
    var next := stages[i := Settled];
    forall j {:trigger next[j]} | 0 <= j < |next| ensures next[j] == Settled || next[j] == stages[j] {}
    assert forall x :: x in next ==> x == Settled || x in stages;
  }

  lemma PassEnds(stages: seq<Stage>, which: Stage)
    requires PassedTo(stages, |stages|, which)
    ensures which !in stages
  {}

  /** Outside the batch nothing changed. */
  ghost predicate Elsewhere(v: View, w: View, L: seq<Request>) {
    w.Keys == v.Keys && forall x {:trigger w[x]} :: x in v && x !in L ==> w[x] == v[x]
  }

  /** Whatever happened in a batch, the client sees nothing of it. */
  lemma BatchUnseen(reqs: seq<Request>, v: View, w: View, toks: seq<Option<int>>, stages: seq<Stage>, k: nat,
                    chunk: nat)
    requires BatchAt(reqs, v, w, toks, stages, k, chunk)
    ensures UnseenAll(v, w) && Elsewhere(v, w, reqs)
  {
    forall x {:trigger w[x]} | x in v ensures Unseen(v[x], w[x]) {
      if x in reqs {
        var i :| 0 <= i < |reqs| && reqs[i] == x;
        if i < k {
          assert Staged(reqs[i], v[reqs[i]], w[reqs[i]], toks[i], stages[i], chunk);
        }
      }
    }
  }

  /** A finished batch. */
  ghost predicate BatchDone(reqs: seq<Request>, v: View, w: View, toks: seq<Option<int>>, chunk: nat) {
    && |toks| == |reqs| && w.Keys == v.Keys
    && (forall i {:trigger reqs[i]} :: 0 <= i < |reqs| ==>
       reqs[i] in v && Prefilled(reqs[i], v[reqs[i]], w[reqs[i]], toks[i], chunk))
    && (forall x {:trigger w[x]} :: x in v && x !in reqs ==> w[x] == v[x])
  }

  lemma BatchEnds(reqs: seq<Request>, v: View, w: View, toks: seq<Option<int>>, stages: seq<Stage>, chunk: nat)
    requires BatchAt(reqs, v, w, toks, stages, |reqs|, chunk)
    requires Faulted !in stages && Packed !in stages && Continued !in stages
    ensures BatchDone(reqs, v, w, toks, chunk)
  {
    forall i {:trigger reqs[i]} | 0 <= i < |reqs| ensures Prefilled(reqs[i], v[reqs[i]], w[reqs[i]], toks[i], chunk) {
      assert stages[i] == Settled;
    }
  }

  // ---- decode ----

  /** A request that can decode: its pages hold everything but the last output token. */
  ghost predicate Decodable(r: Request, s: RS) {
    0 < |s.out| < r.maxNewTokens && s.kv == Some(|r.inputIds| + |s.out| - 1)
  }

  ghost function Decoded(s: RS): RS {
    if s.kv.Some? then s.(kv := Some(s.kv.value + 1)) else s
  }

  /** A decode batch under way: the first `k` requests have one more token in their pages. */
  ghost predicate DecodeAt(reqs: seq<Request>, v: View, w: View, k: nat) {
    && k <= |reqs| && w.Keys == v.Keys
    && (forall i {:trigger reqs[i]} :: 0 <= i < |reqs| ==>
          reqs[i] in v && Decodable(reqs[i], v[reqs[i]]) && w[reqs[i]] == if i < k then Decoded(v[reqs[i]])
            else v[reqs[i]])
    && (forall x {:trigger w[x]} :: x in v && x !in reqs ==> w[x] == v[x])
  }

  lemma DecodeStep(reqs: seq<Request>, v: View, w: View, w': View, k: nat)
    requires NoDup(reqs) && DecodeAt(reqs, v, w, k) && k < |reqs|
    requires Only(w, w', reqs[k]) && w'[reqs[k]] == Decoded(w[reqs[k]])
    ensures DecodeAt(reqs, v, w', k + 1)
  {
    forall i {:trigger reqs[i]} | 0 <= i < |reqs|
      ensures w'[reqs[i]] == if i < k + 1 then Decoded(v[reqs[i]]) else v[reqs[i]]
    {
      if i != k { assert reqs[i] != reqs[k]; }
    }
  }

  lemma DecodeUnseen(reqs: seq<Request>, v: View, w: View, k: nat)
    requires DecodeAt(reqs, v, w, k)
    ensures UnseenAll(v, w) && Elsewhere(v, w, reqs)
  {
    forall x {:trigger w[x]} | x in v ensures Unseen(v[x], w[x]) {
      if x in reqs {
        var i :| 0 <= i < |reqs| && reqs[i] == x;
      }
    }
  }

  // ---- lists of requests ----

  /** Pages reserved for a list of requests in the worst case. */
  function Load(s: seq<Request>, P: nat): nat
    requires P >= 1
  {
    LoadTo(s, |s|, P)
  }

  /** For the first `n` of them. */
  function LoadTo(s: seq<Request>, n: nat, P: nat): nat
    requires P >= 1 && n <= |s|
  {
    if n == 0 then 0 else LoadTo(s, n - 1, P) + s[n - 1].PeakPages(P)
  }

  lemma {:induction false} LoadPrefix(a: seq<Request>, b: seq<Request>, n: nat, P: nat)
    requires P >= 1 && n <= |a| && n <= |b| && a[..n] == b[..n]
    ensures LoadTo(a, n, P) == LoadTo(b, n, P)
  {
    if n > 0 {
      assert a[n - 1] == a[..n][n - 1] == b[n - 1];
      assert a[..n - 1] == a[..n][..n - 1] == b[..n - 1];
      LoadPrefix(a, b, n - 1, P);
    }
  }

  lemma {:induction false} LoadConcat(a: seq<Request>, b: seq<Request>, P: nat)
    requires P >= 1
    ensures Load(a + b, P) == Load(a, P) + Load(b, P)
  {
    LoadConcatTo(a, b, |b|, P);
  }

  lemma {:induction false} LoadConcatTo(a: seq<Request>, b: seq<Request>, n: nat, P: nat)
    requires P >= 1 && n <= |b|
    ensures LoadTo(a + b, |a| + n, P) == Load(a, P) + LoadTo(b, n, P)
  {
    if n == 0 {
      LoadPrefix(a + b, a, |a|, P);
    } else {
      LoadConcatTo(a, b, n - 1, P);
    }
  }
}
