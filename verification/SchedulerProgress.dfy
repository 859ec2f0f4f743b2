/** How far each request in flight is from finishing, and that every step brings it closer
    (core.py:81-88, engine.py:450-622, scheduler.py:236-317). */
module SchedulerProgress {
  import opened Paging
  import opened Requests
  import opened RequestViews
  import opened SchedulerModel
  import opened SchedulerSteps
  import opened Wrappers

  /** Decode steps left once the first token is out; that token's own step decodes as well. */
  function Decodes(r: Request): nat {
    if r.maxNewTokens >= 2 then r.maxNewTokens - 2 else 0
  }

  /** Steps left: prefill calls and then decode steps. */
  ghost function Rest(r: Request, s: RS, chunk: nat): nat {
    if s.out == [] then Calls(s.offset, |r.inputIds|, chunk) + Decodes(r)
    else if r.maxNewTokens >= |s.out| then r.maxNewTokens - |s.out| else 0
  }

  ghost predicate InFlight(S: Sched, r: Request) {
    r in S.prefilling || r in S.running
  }

  /** What a request may still take when the step began: `Rest` then, or, when it was admitted in
      this step, its prefill calls from the matched prefix on and its decode steps. */
  ghost function Budget(S0: Sched, r: Request, s: RS, chunk: nat): nat {
    if InFlight(S0, r) && r in S0.view then Rest(r, S0.view[r], chunk)
    else Calls(s.hit, |r.inputIds|, chunk) + Decodes(r)
  }

  ghost predicate RestAt(S0: Sched, v: View, l: seq<Request>, i: nat, d: nat, chunk: nat)
    requires i < |l|
  {
    l[i] in v && Rest(l[i], v[l[i]], chunk) + d <= Budget(S0, l[i], v[l[i]], chunk)
  }

  ghost predicate RestAll(S0: Sched, v: View, l: seq<Request>, d: nat, chunk: nat) {
    forall i {:trigger RestAt(S0, v, l, i, d, chunk)} :: 0 <= i < |l| ==> RestAt(S0, v, l, i, d, chunk)
  }

  /** The rest of a prefill batch: whoever is not done has come closer, whoever is done is no
      further away. */
  ghost predicate PostRestAt(S0: Sched, v: View, L: seq<Request>, toks: seq<Option<int>>, j: nat, chunk: nat)
    requires j < |L| == |toks|
  {
    && L[j] in v
    && (!v[L[j]].retract ==>
          Rest(L[j], v[L[j]], chunk) + (if toks[j].None? then 1 else 0) <= Budget(S0, L[j], v[L[j]], chunk))
  }

  ghost predicate PostRest(S0: Sched, v: View, L: seq<Request>, toks: seq<Option<int>>, i: nat, chunk: nat) {
    |toks| == |L| && forall j {:trigger PostRestAt(S0, v, L, toks, j, chunk)} :: i <= j < |L| ==>
      PostRestAt(S0, v, L, toks, j, chunk)
  }

  ghost predicate SortRest(S0: Sched, S: Sched, L: seq<Request>, toks: seq<Option<int>>, i: nat, still: seq<Request>,
                           chunk: nat)
  {
    RestAll(S0, S.view, still, 1, chunk) && RestAll(S0, S.view, S.running, 0, chunk)
      && PostRest(S0, S.view, L, toks, i, chunk)
  }

  lemma SameRest(S0: Sched, v: View, w: View, l: seq<Request>, d: nat, chunk: nat)
    requires RestAll(S0, v, l, d, chunk) && SameOn(v, w, l)
    ensures RestAll(S0, w, l, d, chunk)
  {
    forall i {:trigger RestAt(S0, w, l, i, d, chunk)} | 0 <= i < |l| ensures RestAt(S0, w, l, i, d, chunk) {
      assert RestAt(S0, v, l, i, d, chunk) && SameAt(v, w, l, i);
    }
  }

  lemma RestSnoc(S0: Sched, v: View, l: seq<Request>, r: Request, d: nat, chunk: nat)
    requires RestAll(S0, v, l, d, chunk) && r in v && Rest(r, v[r], chunk) + d <= Budget(S0, r, v[r], chunk)
    ensures RestAll(S0, v, l + [r], d, chunk)
  {
    forall i {:trigger RestAt(S0, v, l + [r], i, d, chunk)} | 0 <= i < |l| + 1
      ensures RestAt(S0, v, l + [r], i, d, chunk)
    {
      if i < |l| { assert RestAt(S0, v, l, i, d, chunk); }
    }
  }

  /** One prefill call. */
  lemma CallRest(S0: Sched, r: Request, s: RS, s': RS, tok: Option<int>, chunk: nat)
    requires Prefilled(r, s, s', tok, chunk) && s.out == [] && Served(r) && !s'.retract
    requires if s.kv.Some? then InFlight(S0, r) && r in S0.view && S0.view[r] == s && s.offset < |r.inputIds|
      else !InFlight(S0, r)
    ensures Rest(r, s', chunk) + (if tok.None? then 1 else 0) <= Budget(S0, r, s', chunk)
  {
    var o := if s.kv.Some? then s.offset else s'.hit;
    if o < |r.inputIds| {
      CallsFall(o, |r.inputIds|, chunk);
    }
  }

  lemma RestStart(S0: Sched, S: Sched, pre: seq<Request>, adm: seq<Request>, lim: Limits, w: View,
                  toks: seq<Option<int>>)
    requires Gap(S, pre, adm, lim) && BatchDone(S.prefilling, S.view, w, toks, lim.chunk)
    requires S0.prefilling == pre && S0.running == S.running && SameOn(S.view, S0.view, pre)
      && SameOn(S.view, S0.view, S.running)
    ensures SortRest(S0, S.(view := w), S.prefilling, toks, 0, [], lim.chunk)
  {
    var L := S.prefilling;
    PartedApart(S.arrivals, S.waiting, L, S.running, S.finished);
    PreAdmApart(pre, adm);
    forall j {:trigger PostRestAt(S0, w, L, toks, j, lim.chunk)} | 0 <= j < |L|
      ensures PostRestAt(S0, w, L, toks, j, lim.chunk)
    {
      assert Prefilled(L[j], S.view[L[j]], w[L[j]], toks[j], lim.chunk);
      if j < |pre| {
        assert PrefAt(S.view, pre, j) && SameAt(S.view, S0.view, pre, j);
        assert L[j] in S0.prefilling;
      } else {
        assert AdmittedAt(S.view, adm, j - |pre|) && adm[j - |pre|] in Elems(adm) && L[j] in Elems(L);
        assert L[j] !in Elems(S.running) && L[j] !in Elems(pre);
      }
      if !w[L[j]].retract {
        CallRest(S0, L[j], S.view[L[j]], w[L[j]], toks[j], lim.chunk);
      }
    }
    RunningRest(S0, S, w, toks, lim);
  }

  lemma PreAdmApart(pre: seq<Request>, adm: seq<Request>)
    requires NoDup(pre + adm)
    ensures Elems(pre) !! Elems(adm)
  {
    forall x {:trigger x in Elems(pre)} | x in Elems(pre) ensures x !in Elems(adm) {
      var i :| 0 <= i < |pre| && pre[i] == x;
      forall j {:trigger adm[j]} | 0 <= j < |adm| ensures adm[j] != x {
        assert (pre + adm)[i] != (pre + adm)[|pre| + j];
      }
    }
  }

  lemma RunningRest(S0: Sched, S: Sched, w: View, toks: seq<Option<int>>, lim: Limits)
    requires Parted(S.arrivals, S.waiting, S.prefilling, S.running, S.finished)
      && BatchDone(S.prefilling, S.view, w, toks, lim.chunk)
    requires S0.running == S.running && SameOn(S.view, S0.view, S.running) && RunAll(S.view, S.running, 2)
    ensures RestAll(S0, w, S.running, 0, lim.chunk)
  {
    BatchElsewhere(S, S.prefilling, w, toks, lim.chunk);
    var l := S.running;
    forall i {:trigger RestAt(S0, w, l, i, 0, lim.chunk)} | 0 <= i < |l| ensures RestAt(S0, w, l, i, 0, lim.chunk) {
      assert RunAt(S.view, l, i, 2) && SameAt(S.view, w, l, i) && SameAt(S.view, S0.view, l, i);
      assert l[i] in l;
    }
  }

  // ---- through the loop over the prefill answers ----

  lemma RestFrame(S0: Sched, S: Sched, L: seq<Request>, toks: seq<Option<int>>, i: nat, still: seq<Request>, w: View,
                  chunk: nat)
    requires i < |L| && SortRest(S0, S, L, toks, i, still, chunk) && Only(S.view, w, L[i])
    requires L[i] !in still && L[i] !in S.running && L[i] !in L[i + 1..]
    ensures SortRest(S0, S.(view := w), L, toks, i + 1, still, chunk)
  {
    OnlySame(S.view, w, L[i], still);
    OnlySame(S.view, w, L[i], S.running);
    SameRest(S0, S.view, w, still, 1, chunk);
    SameRest(S0, S.view, w, S.running, 0, chunk);
    forall j {:trigger PostRestAt(S0, w, L, toks, j, chunk)} | i + 1 <= j < |L|
      ensures PostRestAt(S0, w, L, toks, j, chunk)
    {
      assert PostRestAt(S0, S.view, L, toks, j, chunk) && L[j] == L[i + 1..][j - i - 1];
    }
  }

  lemma RestKeep(S0: Sched, S: Sched, L: seq<Request>, toks: seq<Option<int>>, i: nat, still: seq<Request>, chunk: nat)
    requires i < |L| && SortRest(S0, S, L, toks, i, still, chunk) && L[i] in S.view && !S.view[L[i]].retract
      && toks[i].None?
    ensures SortRest(S0, S, L, toks, i + 1, still + [L[i]], chunk)
  {
    assert PostRestAt(S0, S.view, L, toks, i, chunk);
    RestSnoc(S0, S.view, still, L[i], 1, chunk);
  }

  lemma RestMove(S0: Sched, S: Sched, L: seq<Request>, toks: seq<Option<int>>, i: nat, still: seq<Request>, w: View,
                 chunk: nat)
    requires i < |L| && SortRest(S0, S, L, toks, i, still, chunk) && Only(S.view, w, L[i]) && !S.view[L[i]].retract
      && toks[i].Some?
    requires L[i] !in still && L[i] !in S.running && L[i] !in L[i + 1..] && PostAll(S.view, L, toks, i)
    requires w[L[i]] == Tokened(S.view[L[i]], toks[i].value) && 1 < L[i].maxNewTokens
    ensures SortRest(S0, S.(view := w, running := S.running + [L[i]]), L, toks, i + 1, still, chunk)
  {
    RestFrame(S0, S, L, toks, i, still, w, chunk);
    assert PostRestAt(S0, S.view, L, toks, i, chunk) && PostAt(S.view, L, toks, i);
    RestSnoc(S0, w, S.running, L[i], 0, chunk);
  }

  /** Finishing takes the request out of the reckoning. */
  lemma RestDone(S0: Sched, S: Sched, w: View, L: seq<Request>, toks: seq<Option<int>>, i: nat, still: seq<Request>,
                 chunk: nat)
    requires i < |L| && SortRest(S0, S, L, toks, i, still, chunk) && Only(S.view, w, L[i])
    requires L[i] !in still && L[i] !in S.running && L[i] !in L[i + 1..]
    ensures SortRest(S0, Finished(S.(view := w), L[i]), L, toks, i + 1, still, chunk)
  {
    var T := Finished(S.(view := w), L[i]);
    WithoutNone(S.running, L[i]);
    RestFrame(S0, S, L, toks, i, still, T.view, chunk);
  }

  // ---- and through the decode batch ----

  ghost predicate EmitRest(S0: Sched, S: Sched, L: seq<Request>, i: nat, still: seq<Request>, chunk: nat) {
    && i <= |L| && RestAll(S0, S.view, S.prefilling, 1, chunk) && RestAll(S0, S.view, still, 1, chunk)
    && RestAll(S0, S.view, L[i..], 0, chunk)
  }

  lemma EmitRestStart(S0: Sched, S: Sched, w: View, lim: Limits)
    requires MidStep(S, lim) && DecodeAt(S.running, S.view, w, |S.running|)
    requires RestAll(S0, S.view, S.prefilling, 1, lim.chunk) && RestAll(S0, S.view, S.running, 0, lim.chunk)
    ensures EmitRest(S0, S.(view := w), S.running, 0, [], lim.chunk)
  {
    var L := S.running;
    PartedApart(S.arrivals, S.waiting, S.prefilling, L, S.finished);
    DecodeSame(L, S.view, w, S.prefilling);
    SameRest(S0, S.view, w, S.prefilling, 1, lim.chunk);
    Whole(L);
    forall j {:trigger RestAt(S0, w, L, j, 0, lim.chunk)} | 0 <= j < |L| ensures RestAt(S0, w, L, j, 0, lim.chunk) {
      assert RestAt(S0, S.view, L, j, 0, lim.chunk);
    }
  }

  lemma EmitRestFrame(S0: Sched, S: Sched, L: seq<Request>, i: nat, still: seq<Request>, w: View, chunk: nat)
    requires i < |L| && EmitRest(S0, S, L, i, still, chunk) && Only(S.view, w, L[i])
    requires L[i] !in still && L[i] !in S.prefilling && L[i] !in L[i + 1..]
    ensures EmitRest(S0, S.(view := w), L, i + 1, still, chunk)
    ensures Rest(L[i], S.view[L[i]], chunk) <= Budget(S0, L[i], S.view[L[i]], chunk)
  {
    OnlySame(S.view, w, L[i], still);
    OnlySame(S.view, w, L[i], S.prefilling);
    OnlySame(S.view, w, L[i], L[i + 1..]);
    SameRest(S0, S.view, w, still, 1, chunk);
    SameRest(S0, S.view, w, S.prefilling, 1, chunk);
    Head(L, i);
    assert RestAt(S0, S.view, L[i..], 0, 0, chunk);
    forall j {:trigger RestAt(S0, S.view, L[i + 1..], j, 0, chunk)} | 0 <= j < |L| - i - 1
      ensures RestAt(S0, S.view, L[i + 1..], j, 0, chunk)
    {
      assert RestAt(S0, S.view, L[i..], j + 1, 0, chunk);
    }
    SameRest(S0, S.view, w, L[i + 1..], 0, chunk);
  }

  lemma EmitRestKeep(S0: Sched, S: Sched, L: seq<Request>, i: nat, still: seq<Request>, w: View, t: int, chunk: nat)
    requires i < |L| && EmitRest(S0, S, L, i, still, chunk) && Only(S.view, w, L[i])
    requires L[i] !in still && L[i] !in S.prefilling && L[i] !in L[i + 1..]
    requires w[L[i]] == Tokened(S.view[L[i]], t) && 1 <= |S.view[L[i]].out| < |w[L[i]].out| < L[i].maxNewTokens
    ensures EmitRest(S0, S.(view := w), L, i + 1, still + [L[i]], chunk)
  {
    EmitRestFrame(S0, S, L, i, still, w, chunk);
    RestSnoc(S0, w, still, L[i], 1, chunk);
  }

  lemma EmitRestDone(S0: Sched, S: Sched, w: View, L: seq<Request>, i: nat, still: seq<Request>, chunk: nat)
    requires i < |L| && EmitRest(S0, S, L, i, still, chunk) && Only(S.view, w, L[i])
    requires L[i] !in still && L[i] !in S.prefilling && L[i] !in L[i + 1..]
    ensures EmitRest(S0, Finished(S.(view := w), L[i]), L, i + 1, still, chunk)
  {
    var T := Finished(S.(view := w), L[i]);
    WithoutNone(S.prefilling, L[i]);
    EmitRestFrame(S0, S, L, i, still, T.view, chunk);
  }

  // ---- a step as a whole ----

  /** Up to the prefill batch the requests in flight when the step began are as they were. */
  ghost predicate FromStart(S0: Sched, S: Sched, pre: seq<Request>) {
    && S0.prefilling == pre && S0.running == S.running
    && SameOn(S.view, S0.view, pre) && SameOn(S.view, S0.view, S.running)
  }

  lemma FromStartIs(S0: Sched, v: View, S: Sched, adm: seq<Request>, lim: Limits)
    requires Boundary(S0, lim) && Elsewhere(S0.view, v, adm) && S.running == S0.running
    requires v.Keys <= S.view.Keys && forall x {:trigger S.view[x]} :: x in v ==> S.view[x] == v[x]
    requires Parted(S.arrivals, S.waiting, S0.prefilling + adm, S.running, S.finished)
    ensures FromStart(S0, S, S0.prefilling)
  {
    PartedApart(S.arrivals, S.waiting, S0.prefilling + adm, S.running, S.finished);
    PreAdmApart(S0.prefilling, adm);
    ElemsConcat(S0.prefilling, adm);
    NotOn(S0.prefilling, adm);
    NotOn(S.running, adm);
    forall i {:trigger SameAt(S.view, S0.view, S0.prefilling, i)} | 0 <= i < |S0.prefilling|
      ensures SameAt(S.view, S0.view, S0.prefilling, i)
    {
      assert PrefAt(S0.view, S0.prefilling, i);
      assert S0.prefilling[i] !in adm;
    }
    forall i {:trigger SameAt(S.view, S0.view, S.running, i)} | 0 <= i < |S.running|
      ensures SameAt(S.view, S0.view, S.running, i)
    {
      assert RunAt(S0.view, S0.running, i, 2);
      assert S.running[i] !in adm;
    }
  }

  /** Without a prefill batch. */
  lemma RestIdle(S0: Sched, S: Sched, lim: Limits)
    requires MidStep(S, lim) && S.prefilling == [] && FromStart(S0, S, []) && RunAll(S.view, S.running, 2)
    ensures RestAll(S0, S.view, S.prefilling, 1, lim.chunk) && RestAll(S0, S.view, S.running, 0, lim.chunk)
  {
    forall i {:trigger RestAt(S0, S.view, S.running, i, 0, lim.chunk)} | 0 <= i < |S.running|
      ensures RestAt(S0, S.view, S.running, i, 0, lim.chunk)
    {
      assert RunAt(S.view, S.running, i, 2) && SameAt(S.view, S0.view, S.running, i);
    }
  }

  // ---- whole runs ----

  /** Every request in flight after the step is closer to its end than before. */
  ghost predicate Falls(S0: Sched, S1: Sched, chunk: nat) {
    RestAll(S0, S1.view, S1.prefilling, 1, chunk) && RestAll(S0, S1.view, S1.running, 1, chunk)
  }

  lemma FallsFor(S0: Sched, S1: Sched, chunk: nat, r: Request)
    requires Falls(S0, S1, chunk) && InFlight(S1, r)
    ensures r in S1.view && Rest(r, S1.view[r], chunk) < Budget(S0, r, S1.view[r], chunk)
  {
    if r in S1.prefilling {
      var i :| 0 <= i < |S1.prefilling| && S1.prefilling[i] == r;
      assert RestAt(S0, S1.view, S1.prefilling, i, 1, chunk);
    } else {
      var i :| 0 <= i < |S1.running| && S1.running[i] == r;
      assert RestAt(S0, S1.view, S1.running, i, 1, chunk);
    }
  }

  ghost predicate FallsAt(states: seq<Sched>, i: nat, chunk: nat)
    requires i + 1 < |states|
  {
    Falls(states[i], states[i + 1], chunk)
  }

  /** The scheduler's states between steps. */
  ghost predicate IsRun(states: seq<Sched>, lim: Limits) {
    && (forall i {:trigger Boundary(states[i], lim)} :: 0 <= i < |states| ==> Boundary(states[i], lim))
    && (forall i {:trigger FallsAt(states, i, lim.chunk)} :: 0 <= i < |states| - 1 ==> FallsAt(states, i, lim.chunk))
  }

  lemma RunMore(states: seq<Sched>, S: Sched, lim: Limits)
    requires states != [] && IsRun(states, lim) && Boundary(S, lim) && Falls(states[|states| - 1], S, lim.chunk)
    ensures IsRun(states + [S], lim)
  {
    var more := states + [S];
    forall i {:trigger Boundary(more[i], lim)} | 0 <= i < |more| ensures Boundary(more[i], lim) {
      assert i < |states| ==> Boundary(states[i], lim);
    }
    forall i {:trigger FallsAt(more, i, lim.chunk)} | 0 <= i < |more| - 1 ensures FallsAt(more, i, lim.chunk) {
      assert i < |states| - 1 ==> FallsAt(states, i, lim.chunk);
    }
  }

  /** The same requests are in flight, and as far. */
  ghost predicate SameFlight(S: Sched, T: Sched) {
    && T.prefilling == S.prefilling && T.running == S.running
    && HeldOn(S.view, T.view, S.prefilling) && HeldOn(S.view, T.view, S.running)
  }

  ghost predicate HeldAt(v: View, w: View, l: seq<Request>, i: nat)
    requires i < |l|
  {
    l[i] in v && l[i] in w && w[l[i]] == v[l[i]]
  }

  ghost predicate HeldOn(v: View, w: View, l: seq<Request>) {
    forall i {:trigger HeldAt(v, w, l, i)} :: 0 <= i < |l| ==> HeldAt(v, w, l, i)
  }

  lemma FlightSelf(S: Sched, lim: Limits)
    requires Boundary(S, lim)
    ensures SameFlight(S, S)
  {
    forall i {:trigger HeldAt(S.view, S.view, S.prefilling, i)} | 0 <= i < |S.prefilling|
      ensures HeldAt(S.view, S.view, S.prefilling, i)
    {
      assert PrefAt(S.view, S.prefilling, i);
    }
    forall i {:trigger HeldAt(S.view, S.view, S.running, i)} | 0 <= i < |S.running|
      ensures HeldAt(S.view, S.view, S.running, i)
    {
      assert RunAt(S.view, S.running, i, 2);
    }
  }

  lemma HeldMore(u: View, v: View, r: Request, s: RS, l: seq<Request>)
    requires HeldOn(u, v, l) && r !in v
    ensures HeldOn(u, v[r := s], l)
  {
    forall i {:trigger HeldAt(u, v[r := s], l, i)} | 0 <= i < |l| ensures HeldAt(u, v[r := s], l, i) {
      assert HeldAt(u, v, l, i);
    }
  }

  /** Arrivals change nothing about those in flight. */
  lemma FlightArrived(S0: Sched, S: Sched, r: Request, s: RS)
    requires SameFlight(S0, S) && r !in S.view
    ensures SameFlight(S0, Arrived(S, r, s))
  {
    HeldMore(S0.view, S.view, r, s, S0.prefilling);
    HeldMore(S0.view, S.view, r, s, S0.running);
  }

  /** So a step brings them closer to their ends from before the arrivals. */
  lemma FallsBack(S0: Sched, S: Sched, S1: Sched, chunk: nat)
    requires SameFlight(S0, S) && Falls(S, S1, chunk)
    ensures Falls(S0, S1, chunk)
  {
    RestBack(S0, S, S1.view, S1.prefilling, chunk);
    RestBack(S0, S, S1.view, S1.running, chunk);
  }

  lemma BudgetBack(S0: Sched, S: Sched, r: Request, s: RS, chunk: nat)
    requires SameFlight(S0, S)
    ensures Budget(S0, r, s, chunk) == Budget(S, r, s, chunk)
  {
    if r in S0.prefilling {
      var i :| 0 <= i < |S0.prefilling| && S0.prefilling[i] == r;
      assert HeldAt(S0.view, S.view, S0.prefilling, i);
    } else if r in S0.running {
      var i :| 0 <= i < |S0.running| && S0.running[i] == r;
      assert HeldAt(S0.view, S.view, S0.running, i);
    }
  }

  lemma RestBack(S0: Sched, S: Sched, v: View, l: seq<Request>, chunk: nat)
    requires SameFlight(S0, S) && RestAll(S, v, l, 1, chunk)
    ensures RestAll(S0, v, l, 1, chunk)
  {
    forall i {:trigger RestAt(S0, v, l, i, 1, chunk)} | 0 <= i < |l| ensures RestAt(S0, v, l, i, 1, chunk) {
      assert RestAt(S, v, l, i, 1, chunk);
      BudgetBack(S0, S, l[i], v[l[i]], chunk);
    }
  }

  lemma {:induction false} StaysBounded(states: seq<Sched>, lim: Limits, r: Request, k: nat)
    requires IsRun(states, lim) && 1 <= k < |states| && !InFlight(states[0], r)
    requires forall j {:trigger InFlight(states[j], r)} :: 1 <= j <= k ==> InFlight(states[j], r)
    ensures r in states[k].view && r in states[1].view
    ensures Rest(r, states[k].view[r], lim.chunk) + k <= Calls(states[1].view[r].hit, |r.inputIds|, lim.chunk) +
      Decodes(r)
  {
    var S0, S1 := states[k - 1], states[k];
    assert FallsAt(states, k - 1, lim.chunk) && InFlight(S1, r);
    FallsFor(S0, S1, lim.chunk, r);
    if k > 1 {
      assert InFlight(S0, r);
      StaysBounded(states, lim, r, k - 1);
    }
  }

  lemma FlightRest(S: Sched, lim: Limits, r: Request)
    requires Boundary(S, lim) && InFlight(S, r)
    ensures r in S.view && Rest(r, S.view[r], lim.chunk) > 0
  {
    if r in S.prefilling {
      var i :| 0 <= i < |S.prefilling| && S.prefilling[i] == r;
      assert PrefAt(S.view, S.prefilling, i);
      CallsFall(S.view[r].offset, |r.inputIds|, lim.chunk);
    } else {
      var i :| 0 <= i < |S.running| && S.running[i] == r;
      assert RunAt(S.view, S.running, i, 2);
    }
  }

  /** Completion bound: a request admitted in the first step of a run, with `P` prefill calls
      to go from its matched prefix, is in flight no longer after `P + max(0, max_new_tokens - 2)`
      steps.  If it never went back to the queue it is finished. */
  lemma Completes(states: seq<Sched>, lim: Limits, r: Request, n: nat)
    requires IsRun(states, lim) && |states| > 1 && !InFlight(states[0], r) && InFlight(states[1], r)
      && r in states[1].view
    requires n == Calls(states[1].view[r].hit, |r.inputIds|, lim.chunk) + Decodes(r) && n < |states|
    ensures exists k {:trigger InFlight(states[k], r)} :: 1 <= k <= n && !InFlight(states[k], r)
  {
    if forall k {:trigger InFlight(states[k], r)} :: 1 <= k <= n ==> InFlight(states[k], r) {
      assert Boundary(states[1], lim) && InFlight(states[1], r);
      StaysBounded(states, lim, r, 1);
      FlightRest(states[1], lim, r);
      assert Boundary(states[n], lim) && InFlight(states[n], r);
      StaysBounded(states, lim, r, n);
      FlightRest(states[n], lim, r);
    }
  }

  /** In particular, if it never goes back to the queue it is finished by then. */
  lemma FinishesInTime(states: seq<Sched>, lim: Limits, r: Request, n: nat)
    requires IsRun(states, lim) && |states| > 1 && !InFlight(states[0], r) && InFlight(states[1], r)
      && r in states[1].view
    requires n == Calls(states[1].view[r].hit, |r.inputIds|, lim.chunk) + Decodes(r) && n < |states|
    requires forall j {:trigger InFlight(states[j], r)} :: 1 <= j <= n ==>
      r in states[j].arrivals && r !in states[j].waiting
    ensures exists k {:trigger states[k]} :: 1 <= k <= n && r in states[k].finished
  {
    Completes(states, lim, r, n);
    var k :| 1 <= k <= n && !InFlight(states[k], r);
    assert Boundary(states[k], lim);
    Somewhere(states[k], lim, r);
  }

  /** Between steps a request that has arrived is waiting, in flight or finished. */
  lemma Somewhere(S: Sched, lim: Limits, r: Request)
    requires Boundary(S, lim) && r in S.arrivals
    ensures r in S.waiting || InFlight(S, r) || r in S.finished
  {
    PartedOnce(S.arrivals, S.waiting, S.prefilling, S.running, S.finished, r);
  }
}
