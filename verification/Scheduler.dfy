/** The scheduler in paged mode (scheduler.py). */
module PagedScheduler {
  import opened Paging
  import opened PrefixCache
  import opened PagedEngine
  import opened Requests
  import opened RequestViews
  import opened SchedulerModel
  import opened SchedulerSteps
  import opened SchedulerFaults
  import opened SchedulerProgress
  import opened KvStore
  import opened Wrappers

  lemma OutputsNext(v: View, l: seq<Request>, r: Request)
    requires r in v
    ensures Outputs(v, l + [r]) == Outputs(v, l) + |v[r].out|
  {
    assert (l + [r])[..|l|] == l;
  }

  lemma OutputsUnseen(v: View, w: View, l: seq<Request>)
    requires Elems(l) <= v.Keys && UnseenAll(v, w)
    ensures Outputs(w, l) == Outputs(v, l)
  {
    forall i {:trigger l[i]} | 0 <= i < |l| ensures l[i] in v && l[i] in w && w[l[i]].out == v[l[i]].out {
      assert l[i] in Elems(l);
      assert Unseen(v[l[i]], w[l[i]]);
    }
    OutputsSame(v, w, l);
  }

  lemma OutputsFrame(v: View, w: View, r: Request, l: seq<Request>)
    requires Elems(l) <= v.Keys && w.Keys >= v.Keys
    requires forall x {:trigger w[x]} :: x in v && x != r ==> w[x] == v[x]
    requires r in l ==> r in v && w[r].out == v[r].out
    ensures Outputs(w, l) == Outputs(v, l)
  {
    forall i {:trigger l[i]} | 0 <= i < |l| ensures l[i] in v && l[i] in w && w[l[i]].out == v[l[i]].out {
      assert l[i] in Elems(l);
    }
    OutputsSame(v, w, l);
  }

  lemma ElsewhereStep(u: View, v: View, w: View, l: seq<Request>, k: nat)
    requires Elsewhere(u, v, l) && k < |l| && Only(v, w, l[k])
    ensures Elsewhere(u, w, l)
  {
    assert l[k] in l;
  }

  /** `w` knows everything `v` does. */
  ghost predicate Extends(v: View, w: View) {
    v.Keys <= w.Keys && forall x {:trigger w[x]} :: x in v ==> w[x] == v[x]
  }

  lemma SliceNext<X>(a: seq<X>, l: seq<X>, i: nat)
    requires i < |l|
    ensures (a + l[..i]) + [l[i]] == a + l[..i + 1]
  {}

  lemma AdmittedKnown(S: Sched, adm: seq<Request>, lim: Limits)
    requires Popping(S, adm, lim)
    ensures Elems(adm) <= S.view.Keys
  {
    forall r {:trigger r in Elems(adm)} | r in Elems(adm) ensures r in S.view {
      var i :| 0 <= i < |adm| && adm[i] == r;
      assert WaitAt(S.view, adm, i);
    }
  }

  lemma ViewGrows(S: Sched, T: Sched, arriving: seq<Request>)
    requires Known(S) && Known(T) && T.arrivals == S.arrivals + arriving
    ensures T.view.Keys == S.view.Keys + Elems(arriving)
  {
    ElemsConcat(S.arrivals, arriving);
  }

  /** Whoever is on a list is known. */
  lemma GapKnown(S: Sched, pre: seq<Request>, adm: seq<Request>, lim: Limits)
    requires Gap(S, pre, adm, lim)
    ensures Elems(S.prefilling) <= S.view.Keys
  {
    forall r {:trigger r in Elems(S.prefilling)} | r in Elems(S.prefilling) ensures r in S.view {
      InArrivals(S.arrivals, S.waiting, pre + adm, S.running, S.finished, r);
      assert r in Elems(S.arrivals);
    }
  }

  lemma RunningKnown(S: Sched, lim: Limits)
    requires MidStep(S, lim)
    ensures Elems(S.running) <= S.view.Keys
  {
    forall r {:trigger r in Elems(S.running)} | r in Elems(S.running) ensures r in S.view {
      InArrivals(S.arrivals, S.waiting, S.prefilling, S.running, S.finished, r);
      assert r in Elems(S.arrivals);
    }
  }

  lemma FlightKnown(S: Sched, flight: seq<Request>)
    requires Torn(S, flight)
    ensures Elems(S.prefilling + S.running) <= S.view.Keys
  {
    ElemsConcat(S.prefilling, S.running);
    forall r {:trigger r in Elems(flight)} | r in Elems(flight) ensures r in S.view {
      InArrivals(S.arrivals, S.waiting, flight, [], S.finished, r);
      assert r in Elems(S.arrivals);
    }
  }

  /** Handing a token out, streamed or not, adds it to the outputs. */
  lemma HandedOut(v: View, w: View, r: Request, t: int)
    requires Only(v, w, r) && (w[r] == Tokened(v[r], t) || w[r] == Unstreamed(v[r], t))
    ensures Gave(v, w, r, Some(t))
  {}

  /** The clean-up finishes once more exactly who is on both live lists. */
  lemma FinishedAgain(S: Sched, flight: seq<Request>)
    requires Torn(S, flight)
    ensures Repeated(S.finishes + (S.prefilling + S.running)) ==
      Repeated(S.finishes) + Elems(S.prefilling) * Elems(S.running)
  {
    PartedApart(S.arrivals, S.waiting, flight, [], S.finished);
    ElemsConcat(S.prefilling, S.running);
    RepeatedConcat(S.prefilling, S.running);
    RepeatedApart(S.finishes, S.prefilling + S.running);
  }

  lemma FinishedIs(S: Sched, T: Sched, w: View, r: Request)
    requires r in S.view && Only(S.view, w, r) && w[r] == S.view[r].(status := FINISHED) && Only(w, T.view, r)
    requires T.view[r] == w[r].(kv := None, queue := w[r].queue + [TERMINATOR])
    requires T.prefilling == Without(S.prefilling, r) && T.running == Without(S.running, r)
      && T.finishes == S.finishes + [r]
    requires T.finished == if r in S.finished then S.finished else S.finished + [r]
    requires T.waiting == S.waiting && T.arrivals == S.arrivals && T.lost == S.lost
    ensures T == Finished(S, r)
  {
    OnlyTrans(S.view, w, T.view, r);
    OnlyIs(S.view, T.view, r);
  }

  class Scheduler {
    const engine: Engine
    const maxRunning: nat
    /** `prefill_chunk_size`; 0 for none. */
    const chunk: nat
    /** The tokens for which `is_stop_token` holds. */
    const stops: set<int>
    var waiting: seq<Request>
    var running: seq<Request>
    var prefilling: seq<Request>
    var totalFinished: nat
    var totalGeneratedTokens: nat
    ghost var finished: seq<Request>
    ghost var finishes: seq<Request>
    ghost var arrivals: seq<Request>
    ghost var lost: set<Request>
    ghost var view: View

    ghost function Limit(): Limits {
      Limits(maxRunning, engine.pool.numPages, engine.pageSize, chunk)
    }

    ghost function State(): Sched
      reads this`waiting, this`prefilling, this`running, this`finished, this`finishes, this`arrivals, this`lost
      reads this`view
    {
      Sched(waiting, prefilling, running, finished, finishes, arrivals, lost, view)
    }

    ghost predicate Totals()
      reads this`totalFinished, this`totalGeneratedTokens, this`finishes, this`view
    {
      totalFinished == |finishes| && totalGeneratedTokens == Outputs(view, finishes) && Elems(finishes) <= view.Keys
    }

    /** The requests are as the view says, and the counters right. */
    ghost predicate Told()
      reads this`totalFinished, this`totalGeneratedTokens, this`finishes, this`view, engine`loans
      reads view.Keys`status, view.Keys`outputIds, view.Keys`tokenQueue, view.Keys`kvCache, view.Keys`prefillOffset
      reads view.Keys`cacheHitTokens, view.Keys`needsRetract
    {
      Viewed(view) && LiveView(view, engine.Live()) && Totals()
    }

    ghost predicate Linked()
      reads this`totalFinished, this`totalGeneratedTokens, this`finishes, this`view
      reads engine`loans, engine`clean, engine.pool`radixCache, engine.pool`free, engine.cache
      reads engine.cache.tree.Keys`parent, engine.cache.tree.Keys`children
      reads engine.cache.tree.Keys`key, engine.cache.tree.Keys`pages, engine.cache.tree.Keys`tier
      reads engine.cache.tree.Keys`path, engine.cache.tree.Keys`refCount
      reads engine.Live()`kvCache, engine.Live()`radixLockNode, engine.Live()`borrowed, engine.Live()`ticket
      reads view.Keys`status, view.Keys`outputIds, view.Keys`tokenQueue, view.Keys`kvCache, view.Keys`prefillOffset
      reads view.Keys`cacheHitTokens, view.Keys`needsRetract
    {
      engine.Valid() && engine.LedgerKept() && Told()
    }

    /** The nodes of the cache are old ones or new objects. */
    twostate predicate NodesFresh()
      reads engine.cache`tree
    {
      forall n {:trigger n in engine.cache.tree} :: n in engine.cache.tree ==> n in old(engine.cache.tree) || fresh(n)
    }

    constructor (engine: Engine, maxRunning: nat, chunk: nat, stops: set<int>)
      requires engine.Valid() && engine.LedgerKept() && engine.Live() == {} && engine.pageSize >= 1
      ensures Linked() && Boundary(State(), Limit()) && arrivals == [] && this.engine == engine
    {
      this.engine, this.maxRunning, this.chunk, this.stops := engine, maxRunning, chunk, stops;
      waiting, running, prefilling, totalFinished, totalGeneratedTokens := [], [], [], 0, 0;
      finished, finishes, arrivals, lost, view := [], [], [], {}, map[];
    }

    /** `add_request`; the request is as its constructor left it. */
    method AddRequest(r: Request)
      requires Told() && r !in view && WaitOK(r, Snapshot(r))
      modifies this`waiting, this`arrivals, this`view
      ensures Told() && State() == Arrived(old(State()), r, old(Snapshot(r)))
      ensures old(Boundary(State(), Limit())) ==> Boundary(State(), Limit())
    {
      ghost var S := State();
      ghost var v := view;
      waiting := waiting + [r];
      arrivals := arrivals + [r];
      view := view[r := Snapshot(r)];
      forall x {:trigger InView(view, x)} | x in view ensures InView(view, x) {
        assert x != r ==> old(InView(v, x));
      }
      OutputsFrame(v, view, r, finishes);
      assert engine.Live() <= v.Keys;
      if Boundary(S, Limit()) {
        ArriveKeepsBoundary(S, Limit(), r, view[r]);
      }
    }

    // ---- single requests ----

    /** Bringing the entry of one changed request up to date brings the view up to date. */
    twostate lemma ViewedStep(r: Request)
      requires old(Viewed(view)) && Only(old(view), view, r) && InView(view, r)
      requires forall x {:trigger Snapshot(x)} :: x in view && x != r ==> Snapshot(x) == old(Snapshot(x))
      ensures Viewed(view)
    {
      forall x {:trigger InView(view, x)} | x in view ensures InView(view, x) {
        if x != r {
          assert old(InView(view, x)) && old(view)[x] == view[x];
        }
      }
    }

    /** Sets the status of one request. */
    method SetStatus(r: Request, status: Status)
      requires Told() && r in view
      modifies this`view, r`status
      ensures Told() && Only(old(view), view, r) && view[r] == old(view)[r].(status := status)
      ensures State() == old(State()).(view := view)
    {
      ghost var v := view;
      assert InView(v, r);
      r.status := status;
      view := view[r := view[r].(status := status)];
      ViewedStep(r);
      OutputsFrame(v, view, r, finishes);
    }

    /** Takes the retraction flag off. */
    method ClearRetract(r: Request)
      requires Told() && r in view
      modifies this`view, r`needsRetract
      ensures Told() && Only(old(view), view, r) && view[r] == old(view)[r].(retract := false)
      ensures State() == old(State()).(view := view)
    {
      ghost var v := view;
      assert InView(v, r);
      r.needsRetract := false;
      view := view[r := view[r].(retract := false)];
      ViewedStep(r);
      OutputsFrame(v, view, r, finishes);
    }

    /** Puts one token on the request's stream. */
    method Put(r: Request, token: TokenOutput)
      requires Told() && r in view
      modifies this`view, r`tokenQueue
      ensures Told() && Only(old(view), view, r) && view[r] == old(view)[r].(queue := old(view)[r].queue + [token])
      ensures State() == old(State()).(view := view)
    {
      ghost var v := view;
      assert InView(v, r);
      r.tokenQueue := r.tokenQueue + [token];
      view := view[r := view[r].(queue := view[r].queue + [token])];
      ViewedStep(r);
      OutputsFrame(v, view, r, finishes);
    }

    /** Adds one token to the request's outputs. */
    method AppendOutput(r: Request, token: int)
      requires Told() && r in view && r !in finishes
      modifies this`view, r`outputIds
      ensures Told() && Only(old(view), view, r) && view[r] == old(view)[r].(out := old(view)[r].out + [token])
      ensures State() == old(State()).(view := view)
    {
      ghost var v := view;
      assert InView(v, r);
      r.outputIds := r.outputIds + [token];
      view := view[r := view[r].(out := view[r].out + [token])];
      ViewedStep(r);
      OutputsFrame(v, view, r, finishes);
    }

    /** A flagged request waits again, its flag taken off. */
    method TakeBack(r: Request)
      requires Told() && r in view
      modifies this`view, r`status, r`needsRetract
      ensures Told() && Only(old(view), view, r) && view[r] == old(view)[r].(retract := false, status := WAITING)
      ensures State() == old(State()).(view := view)
    {
      ghost var v := view;
      ClearRetract(r);
      ghost var w := view;
      SetStatus(r, WAITING);
      OnlyTrans(v, w, view, r);
    }

    /** Adds a token to the outputs and streams it (`_stream_token`).  Decoding the token
        may raise; then it is in the outputs but not in the stream. */
    method HandOut(r: Request, token: int) returns (raised: bool)
      requires Told() && r in view && r !in finishes
      modifies this`view, this`lost, r`outputIds, r`tokenQueue
      ensures Told() && Only(old(view), view, r)
      ensures if raised then view[r] == Unstreamed(old(view)[r], token) && lost == old(lost) + {r}
              else view[r] == Tokened(old(view)[r], token) && lost == old(lost)
      ensures State() == old(State()).(view := view, lost := lost)
    {
      ghost var v := view;
      AppendOutput(r, token);
      raised := *;
      if raised {
        lost := lost + {r};
      } else {
        ghost var w := view;
        Put(r, TokenOutput(token, false));
        OnlyTrans(v, w, view, r);
      }
    }

    /** `_check_finished` */
    method CheckFinished(r: Request, token: int) returns (done: bool)
      requires Told() && r in view
      ensures done <==> |view[r].out| >= r.maxNewTokens || token in stops
    {
      assert InView(view, r);
      done := r.IsFinished() || token in stops;
    }

    /** Gives the request's pages back, through the engine, and drops its handle on them. */
    method FreePages(r: Request)
      requires Linked() && r in view && |view[r].out| <= r.maxNewTokens
      modifies this`view, r`kvCache, r`radixLockNode, engine`loans, engine`clean, engine.cache, engine.cache.tree.Keys
      modifies engine.pool`free
      ensures Linked() && Only(old(view), view, r) && view[r] == old(view)[r].(kv := None)
      ensures State() == old(State()).(view := view) && totalFinished == old(totalFinished)
        && totalGeneratedTokens == old(totalGeneratedTokens)
      ensures NodesFresh()
    {
      hide Engine.Valid;
      ghost var v := view;
      var now: int := *;
      view := engine.FreeInView(r, now, v);
      OutputsFrame(v, view, r, finishes);
    }

    /** Removal from whichever list the request is on. */
    method Unlist(r: Request)
      modifies this`prefilling, this`running
      ensures State() == old(State()).(prefilling := Without(old(prefilling), r), running := Without(old(running), r))
    {
      if r in prefilling {
        prefilling := Without(prefilling, r);
      } else {
        WithoutNone(prefilling, r);
      }
      if r in running {
        running := Without(running, r);
      } else {
        WithoutNone(running, r);
      }
    }

    /** The pages are freed, then the stream is closed. */
    method Close(r: Request)
      requires Linked() && r in view && |view[r].out| <= r.maxNewTokens
      modifies this`view, r`kvCache, r`radixLockNode, r`tokenQueue
      modifies engine`loans, engine`clean, engine.cache, engine.cache.tree.Keys, engine.pool`free
      ensures Linked() && Only(old(view), view, r)
      ensures view[r] == old(view)[r].(kv := None, queue := old(view)[r].queue + [TERMINATOR])
      ensures State() == old(State()).(view := view)
      ensures NodesFresh()
    {
      hide RadixCache.Valid, Engine.Valid, InView, Engine.LedgerKept;
      ghost var v := view;
      FreePages(r);
      ghost var w := view;
      Put(r, TERMINATOR);
      OnlyTrans(v, w, view, r);
    }

    /** Records the request as finished, with the statistics. */
    method Account(r: Request)
      requires Told() && r in view
      modifies this`finished, this`finishes, this`totalFinished, this`totalGeneratedTokens
      ensures Told() && finishes == old(finishes) + [r]
      ensures finished == if r in old(finished) then old(finished) else old(finished) + [r]
    {
      OutputsNext(view, finishes, r);
      assert InView(view, r);
      finished := if r in finished then finished else finished + [r];
      finishes := finishes + [r];
      totalFinished := totalFinished + 1;
      totalGeneratedTokens := totalGeneratedTokens + |r.outputIds|;
    }

    /** `_finish_request`, once the request is off its list. */
    method Settle(r: Request)
      requires Linked() && r in view && |view[r].out| <= r.maxNewTokens
      modifies this`view, this`finished, this`finishes, this`totalFinished, this`totalGeneratedTokens
      modifies r`tokenQueue, r`kvCache, r`radixLockNode
      modifies engine`loans, engine`clean, engine.cache, engine.cache.tree.Keys, engine.pool`free
      ensures Linked() && Only(old(view), view, r)
      ensures view[r] == old(view)[r].(kv := None, queue := old(view)[r].queue + [TERMINATOR])
      ensures State() == old(State()).(view := view, finishes := old(finishes) + [r],
                                       finished := if r in old(finished) then old(finished) else old(finished) + [r])
      ensures NodesFresh()
    {
      hide Engine.Valid, Engine.LedgerKept, Engine.Live, Viewed;
      Close(r);
      Account(r);
    }

    /** `_finish_request` */
    method FinishRequest(r: Request)
      requires Linked() && r in view && |view[r].out| <= r.maxNewTokens
      modifies this`view, this`prefilling, this`running, this`finished, this`finishes, this`totalFinished
      modifies this`totalGeneratedTokens
      modifies r`status, r`tokenQueue, r`kvCache, r`radixLockNode
      modifies engine`loans, engine`clean, engine.cache, engine.cache.tree.Keys, engine.pool`free
      ensures Linked() && State() == Finished(old(State()), r)
      ensures NodesFresh()
    {
      hide Engine.Valid, Engine.LedgerKept, Finished, Only;
      ghost var S := State();
      SetStatus(r, FINISHED);
      ghost var w := view;
      Unlist(r);
      Settle(r);
      FinishedIs(S, State(), w, r);
    }

    // ---- admission ----

    /** There is room for one more request, and the pool admits it. */
    ghost predicate Fits(adm: seq<Request>, cand: Request)
      requires engine.pageSize >= 1
      reads this`running, this`prefilling, engine.pool`free, engine.cache`own, engine.cache`refs
    {
      |running| + |prefilling| + |adm| < maxRunning && engine.Admissible(running + prefilling + adm, cand)
    }

    ghost predicate FitsAt(adm: seq<Request>, j: nat)
      requires engine.pageSize >= 1 && j < |adm|
      reads this`running, this`prefilling, engine.pool`free, engine.cache`own, engine.cache`refs
    {
      Fits(adm[..j], adm[j])
    }

    /** One round of the admission loop. */
    method PopOne(adm: seq<Request>) returns (more: bool, adm': seq<Request>)
      requires Linked() && Popping(State(), adm, Limit()) && waiting != []
        && |running| + |prefilling| + |adm| < maxRunning
      modifies this`waiting
      ensures Linked() && Popping(State(), adm', Limit()) && State() == old(State()).(waiting := waiting)
      ensures adm' + waiting == adm + old(waiting)
      ensures more <==> Fits(adm, old(waiting)[0])
      ensures if more then adm' == adm + [old(waiting)[0]] && waiting == old(waiting)[1..]
        else adm' == adm && waiting == old(waiting)
    {
      hide Engine.Valid, Engine.LedgerKept, Popping;
      adm' := adm;
      more := engine.CanAdmit(running + prefilling + adm, waiting[0]);
      if more {
        AdmitPop(State(), adm, Limit());
        ShiftHead(adm, waiting);
        adm', waiting := adm + [waiting[0]], waiting[1..];
      }
    }

    /** The first lock region of `_step_paged`: requests leave the queue in order while the engine
        can admit them. */
    method PopAdmissible() returns (adm: seq<Request>)
      requires Linked() && Boundary(State(), Limit())
      modifies this`waiting
      ensures Linked() && Popping(State(), adm, Limit()) && State() == old(State()).(waiting := waiting)
      ensures adm + waiting == old(waiting)
      ensures forall j {:trigger FitsAt(adm, j)} :: 0 <= j < |adm| ==> FitsAt(adm, j)
      ensures waiting == [] || !Fits(adm, waiting[0])
    {
      hide Linked;
      adm := [];
      AdmitStart(State(), Limit());
      var more := true;
      while more && waiting != [] && |running| + |prefilling| + |adm| < maxRunning
        invariant Linked() && Popping(State(), adm, Limit()) && State() == old(State()).(waiting := waiting)
        invariant adm + waiting == old(waiting)
        invariant forall j {:trigger FitsAt(adm, j)} :: 0 <= j < |adm| ==> FitsAt(adm, j)
        invariant !more ==> waiting != [] && !Fits(adm, waiting[0])
        decreases more, |waiting|
      {
        ghost var was := adm;
        more, adm := PopOne(adm);
        forall j {:trigger FitsAt(adm, j)} | 0 <= j < |adm| ensures FitsAt(adm, j) {
          assert j < |was| ==> FitsAt(was, j) && adm[..j] == was[..j] && adm[j] == was[j];
          assert j == |was| ==> adm[..j] == was;
        }
      }
    }

    /** Marks the `k`-th admitted request as running. */
    method StartOne(adm: seq<Request>, k: nat)
      requires Told() && k < |adm| && Admitting(State(), adm, k, Limit())
      modifies this`view, (set r | r in adm)`status
      ensures Told() && Admitting(State(), adm, k + 1, Limit()) && State() == old(State()).(view := view)
      ensures Only(old(view), view, adm[k])
    {
      ghost var S := State();
      assert WaitAt(view, adm[k..], 0);
      SetStatus(adm[k], RUNNING);
      AdmitRun(S, adm, k, Limit(), view);
    }

    method MarkAll(adm: seq<Request>)
      requires Told() && Popping(State(), adm, Limit())
      modifies this`view, (set r | r in adm)`status
      ensures Told() && Admitting(State(), adm, |adm|, Limit())
      ensures State() == old(State()).(view := view) && Elsewhere(old(view), view, adm)
    {
      PopEnd(State(), adm, Limit());
      var k := 0;
      while k < |adm|
        invariant k <= |adm| && Told() && Admitting(State(), adm, k, Limit())
        invariant State() == old(State()).(view := view) && Elsewhere(old(view), view, adm)
      {
        ghost var v := view;
        StartOne(adm, k);
        ElsewhereStep(old(view), v, view, adm, k);
        k := k + 1;
      }
    }

    /** Marks the admitted requests as running and appends them to the prefilling list. */
    method StartAll(adm: seq<Request>)
      requires Told() && Popping(State(), adm, Limit())
      modifies this`view, this`prefilling, (set r | r in adm)`status
      ensures Told() && Gap(State(), old(prefilling), adm, Limit())
      ensures State() == old(State()).(view := view, prefilling := old(prefilling) + adm)
      ensures Elsewhere(old(view), view, adm)
    {
      MarkAll(adm);
      AdmitEnd(State(), adm, Limit());
      prefilling := prefilling + adm;
    }

    /** `add_request` calls of other threads between the two lock regions of a step. */
    method AddAll(arriving: seq<Request>, ghost pre: seq<Request>, ghost adm: seq<Request>)
      requires Told() && Gap(State(), pre, adm, Limit()) && NewOnes(arriving, 0)
      modifies this`waiting, this`arrivals, this`view
      ensures Told() && Gap(State(), pre, adm, Limit())
      ensures State() == old(State()).(view := view, waiting := old(waiting) + arriving, arrivals := old(arrivals) +
        arriving)
      ensures Extends(old(view), view)
    {
      var i := 0;
      assert old(waiting) + arriving[..0] == old(waiting) && old(arrivals) + arriving[..0] == old(arrivals);
      while i < |arriving|
        invariant i <= |arriving| && Told() && Gap(State(), pre, adm, Limit()) && NewOnes(arriving, i)
        invariant State() == old(State()).(view := view, waiting := old(waiting) + arriving[..i],
          arrivals := old(arrivals) + arriving[..i])
        invariant Extends(old(view), view)
      {
        ghost var v := view;
        AddOne(arriving, i, pre, adm);
        SliceNext(old(waiting), arriving, i);
        SliceNext(old(arrivals), arriving, i);
        i := i + 1;
      }
      Whole(arriving);
    }

    /** The requests of `arriving` from the `i`-th on are new, and as their constructor left them. */
    ghost predicate NewOnes(arriving: seq<Request>, i: nat)
      reads this`view, (set r | r in arriving)
    {
      NoDup(arriving) && forall j {:trigger NewOne(arriving[j])} :: i <= j < |arriving| ==> NewOne(arriving[j])
    }

    ghost predicate NewOne(r: Request)
      reads this`view, r
    {
      r !in view && WaitOK(r, Snapshot(r))
    }

    method AddOne(arriving: seq<Request>, i: nat, ghost pre: seq<Request>, ghost adm: seq<Request>)
      requires Told() && Gap(State(), pre, adm, Limit()) && i < |arriving| && NewOnes(arriving, i)
      modifies this`waiting, this`arrivals, this`view
      ensures Told() && Gap(State(), pre, adm, Limit()) && NewOnes(arriving, i + 1) && Extends(old(view), view)
      ensures State() == old(State()).(view := view, waiting := old(waiting) + [arriving[i]],
        arrivals := old(arrivals) + [arriving[i]])
    {
      ghost var S, r := State(), arriving[i];
      assert NewOne(r);
      ArriveKeepsGap(S, pre, adm, Limit(), r, Snapshot(r));
      AddRequest(arriving[i]);
      forall j {:trigger NewOne(arriving[j])} | i + 1 <= j < |arriving| ensures NewOne(arriving[j]) {
        assert old(NewOne(arriving[j])) && arriving[i] != arriving[j];
      }
    }

    // ---- the answers of a prefill batch ----

    /** What the engine made of the requests, taken over into the view. */
    ghost method Adopt(w: View)
      requires engine.Valid() && engine.LedgerKept() && Viewed(w) && LiveView(w, engine.Live())
      requires Totals() && UnseenAll(view, w)
      modifies this`view
      ensures Linked() && view == w && State() == old(State()).(view := w)
    {
      OutputsUnseen(view, w, finishes);
      view := w;
    }

    /** The call of `prefill_batch`. */
    method CallPrefill() returns (toks: seq<Option<int>>, raised: bool)
      requires Linked() && NoDup(prefilling)
      requires forall i {:trigger prefilling[i]} :: 0 <= i < |prefilling| ==>
        prefilling[i] in view && Prefillable(prefilling[i], view[prefilling[i]])
      modifies this`view
      modifies (set r | r in prefilling)`cacheHitTokens, (set r | r in prefilling)`prefillOffset
      modifies (set r | r in prefilling)`radixLockNode
      modifies (set r | r in prefilling)`kvCache, (set r | r in prefilling)`borrowed, (set r | r in prefilling)`ticket
      modifies (set r | r in prefilling)`needsRetract
      modifies engine`loans, engine`clean, engine.cache, engine.cache.tree.Keys, engine.pool`free
      ensures Linked() && State() == old(State()).(view := view)
      ensures UnseenAll(old(view), view) && Elsewhere(old(view), view, prefilling)
      ensures !raised ==> BatchDone(prefilling, old(view), view, toks, chunk)
      ensures NodesFresh()
    {
      ghost var w;
      toks, raised, w := engine.PrefillBatch(prefilling, chunk, view);
      Adopt(w);
    }

    ghost predicate SortsOut(S0: Sched, L: seq<Request>, toks: seq<Option<int>>, i: nat, still: seq<Request>,
                             back: seq<Request>)
      reads this`waiting, this`prefilling, this`running, this`finished, this`finishes, this`arrivals, this`lost
      reads this`view
    {
      Sorting(State(), L, toks, i, still, back, Limit()) && SortRest(S0, State(), L, toks, i, still, chunk)
    }

    /** `if req.needs_retract: ...` */
    method HandleRetracted(L: seq<Request>, ghost toks: seq<Option<int>>, i: nat, ghost still: seq<Request>,
                           back: seq<Request>, ghost S0: Sched)
      returns (back': seq<Request>)
      requires Told() && SortsOut(S0, L, toks, i, still, back) && i < |L| && L[i] in view && view[L[i]].retract
      modifies this`view, (set r | r in L)`status, (set r | r in L)`needsRetract
      ensures Told() && SortsOut(S0, L, toks, i + 1, still, back') && State() == old(State()).(view := view)
      ensures Gave(old(view), view, L[i], None)
    {
      ghost var S := State();
      SortNow(S, L, toks, i, still, back, Limit());
      TakeBack(L[i]);
      SortBack(S, L, toks, i, still, back, Limit(), view);
      RestFrame(S0, S, L, toks, i, still, view, chunk);
      back' := back + [L[i]];
    }

    /** A request finished by its first token. */
    method FinishFirst(L: seq<Request>, ghost toks: seq<Option<int>>, i: nat, ghost still: seq<Request>,
                       ghost back: seq<Request>, ghost S: Sched, ghost S0: Sched)
      requires i < |L| && Sorting(S, L, toks, i, still, back, Limit()) && SortRest(S0, S, L, toks, i, still, chunk)
      requires Linked() && State() == S.(view := view) && Only(S.view, view, L[i])
      requires !S.view[L[i]].retract && toks[i].Some? && view[L[i]] == Tokened(S.view[L[i]], toks[i].value)
      modifies this`view, this`prefilling, this`running, this`finished, this`finishes, this`totalFinished
      modifies this`totalGeneratedTokens
      modifies (set r | r in L)`status, (set r | r in L)`tokenQueue, (set r | r in L)`kvCache
      modifies (set r | r in L)`radixLockNode
      modifies engine`loans, engine`clean, engine.cache, engine.cache.tree.Keys, engine.pool`free
      ensures Linked() && SortsOut(S0, L, toks, i + 1, still, back) && State() == Finished(old(State()), L[i])
      ensures NodesFresh()
      ensures Repeated(finishes) == old(Repeated(finishes))
    {
      SortNow(S, L, toks, i, still, back, Limit());
      SortDone(S, L, toks, i, still, back, Limit(), view);
      RestDone(S0, S, view, L, toks, i, still, chunk);
      RepeatedMore(finishes, L[i]);
      FinishRequest(L[i]);
    }

    /** A request that goes on generating. */
    method JoinRunning(L: seq<Request>, ghost toks: seq<Option<int>>, i: nat, ghost still: seq<Request>,
                       ghost back: seq<Request>, ghost S: Sched, ghost S0: Sched)
      requires i < |L| && Sorting(S, L, toks, i, still, back, Limit()) && SortRest(S0, S, L, toks, i, still, chunk)
      requires State() == S.(view := view) && Only(S.view, view, L[i]) && 1 < L[i].maxNewTokens
      requires !S.view[L[i]].retract && toks[i].Some? && view[L[i]] == Tokened(S.view[L[i]], toks[i].value)
      modifies this`running
      ensures SortsOut(S0, L, toks, i + 1, still, back) && State() == old(State()).(running := old(running) + [L[i]])
      ensures NodesFresh()
    {
      SortNow(S, L, toks, i, still, back, Limit());
      SortMove(S, L, toks, i, still, back, Limit(), view);
      RestMove(S0, S, L, toks, i, still, view, chunk);
      running := running + [L[i]];
    }

    /** After a token was handed out: finish, or join the running requests. */
    method FinishOrRun(L: seq<Request>, toks: seq<Option<int>>, i: nat, done: bool, ghost still: seq<Request>,
                       ghost back: seq<Request>, ghost S: Sched, ghost S0: Sched)
      requires i < |L| && Sorting(S, L, toks, i, still, back, Limit()) && SortRest(S0, S, L, toks, i, still, chunk)
      requires Linked() && State() == S.(view := view) && Only(S.view, view, L[i]) && (!done ==> 1 < L[i].maxNewTokens)
      requires !S.view[L[i]].retract && toks[i].Some? && view[L[i]] == Tokened(S.view[L[i]], toks[i].value)
      modifies this`view, this`prefilling, this`running, this`finished, this`finishes, this`totalFinished
      modifies this`totalGeneratedTokens
      modifies (set r | r in L)`status, (set r | r in L)`tokenQueue, (set r | r in L)`kvCache
      modifies (set r | r in L)`radixLockNode
      modifies engine`loans, engine`clean, engine.cache, engine.cache.tree.Keys, engine.pool`free
      ensures Linked() && SortsOut(S0, L, toks, i + 1, still, back)
      ensures State() == if done then Finished(old(State()), L[i]) else old(State()).(running := old(running) + [L[i]])
      ensures NodesFresh()
      ensures Repeated(finishes) == old(Repeated(finishes))
    {
      hide Sorting;
      if done {
        FinishFirst(L, toks, i, still, back, S, S0);
      } else {
        JoinRunning(L, toks, i, still, back, S, S0);
      }
    }

    /** A first token comes out of prefill. */
    method HandleToken(L: seq<Request>, toks: seq<Option<int>>, i: nat, ghost still: seq<Request>,
                       ghost back: seq<Request>, ghost S0: Sched)
      returns (raised: bool, ghost flight: seq<Request>)
      requires Linked() && SortsOut(S0, L, toks, i, still, back) && i < |L| && L[i] in view && !view[L[i]].retract
        && toks[i].Some?
      modifies this`view, this`prefilling, this`running, this`finished, this`finishes, this`totalFinished
      modifies this`totalGeneratedTokens, this`lost
      modifies (set r | r in L)`status, (set r | r in L)`tokenQueue, (set r | r in L)`kvCache
      modifies (set r | r in L)`radixLockNode, (set r | r in L)`outputIds
      modifies engine`loans, engine`clean, engine.cache, engine.cache.tree.Keys, engine.pool`free
      ensures Linked() && view.Keys == old(view.Keys) && NodesFresh()
      ensures if raised then Torn(State(), flight) else SortsOut(S0, L, toks, i + 1, still, back)
      ensures Repeated(finishes) == old(Repeated(finishes))
      ensures lost == if raised then old(lost) + {L[i]} else old(lost)
      ensures Gave(old(view), view, L[i], toks[i])
    {
      hide Engine.Valid, Engine.LedgerKept, Sorting, Torn, Repeated, Elems, LooseAll, Gave, Limit, Engine.Live, Known;
      ghost var S := State();
      SortNow(S, L, toks, i, still, back, Limit());
      raised := HandOut(L[i], toks[i].value);
      flight := back + (still + L[i..]) + running;
      ghost var m := State();
      HandedOut(S.view, m.view, L[i], toks[i].value);
      if raised {
        SortFault(S, L, toks, i, still, back, Limit(), view, toks[i].value);
      } else {
        var done := CheckFinished(L[i], toks[i].value);
        FinishOrRun(L, toks, i, done, still, back, S, S0);
        FinishedOuts(m, L[i]);
        GaveThen(S.view, m.view, view, L[i], toks[i]);
      }
    }

    /** One round of the loop over the answers of a prefill batch. */
    method HandleOne(L: seq<Request>, toks: seq<Option<int>>, i: nat, still: seq<Request>, back: seq<Request>,
                     ghost S0: Sched)
      returns (raised: bool, still': seq<Request>, back': seq<Request>, ghost flight: seq<Request>)
      requires Linked() && SortsOut(S0, L, toks, i, still, back) && i < |L|
      modifies this`view, this`prefilling, this`running, this`finished, this`finishes, this`totalFinished
      modifies this`totalGeneratedTokens, this`lost
      modifies (set r | r in L)`status, (set r | r in L)`tokenQueue, (set r | r in L)`kvCache
      modifies (set r | r in L)`radixLockNode, (set r | r in L)`outputIds
      modifies (set r | r in L)`needsRetract
      modifies engine`loans, engine`clean, engine.cache, engine.cache.tree.Keys, engine.pool`free
      ensures Linked() && view.Keys == old(view.Keys) && NodesFresh()
      ensures if raised then Torn(State(), flight) else SortsOut(S0, L, toks, i + 1, still', back')
      ensures Repeated(finishes) == old(Repeated(finishes))
      ensures lost == if raised then old(lost) + {L[i]} else old(lost)
      ensures Gave(old(view), view, L[i], toks[i])
    {
      hide Sorting;
      SortNow(State(), L, toks, i, still, back, Limit());
      assert InView(view, L[i]);
      raised, still', back', flight := false, still, back, [];
      if L[i].needsRetract {
        back' := HandleRetracted(L, toks, i, still, back, S0);
      } else if toks[i].None? {
        SortKeep(State(), L, toks, i, still, back, Limit());
        RestKeep(S0, State(), L, toks, i, still, chunk);
        still' := still + [L[i]];
      } else {
        raised, flight := HandleToken(L, toks, i, still, back, S0);
      }
    }

    /** The same, and nobody else is given anything. */
    method HandleRound(L: seq<Request>, toks: seq<Option<int>>, i: nat, still: seq<Request>, back: seq<Request>,
                       ghost S0: Sched, ghost v: View)
      returns (raised: bool, still': seq<Request>, back': seq<Request>, ghost flight: seq<Request>)
      requires Linked() && SortsOut(S0, L, toks, i, still, back) && i < |L| == |toks|
      requires NoDup(L) && Given(v, view, L, toks, i)
      modifies this`view, this`prefilling, this`running, this`finished, this`finishes, this`totalFinished
      modifies this`totalGeneratedTokens, this`lost
      modifies (set r | r in L)`status, (set r | r in L)`tokenQueue, (set r | r in L)`kvCache
      modifies (set r | r in L)`radixLockNode, (set r | r in L)`outputIds
      modifies (set r | r in L)`needsRetract
      modifies engine`loans, engine`clean, engine.cache, engine.cache.tree.Keys, engine.pool`free
      ensures Linked() && view.Keys == old(view.Keys) && NodesFresh()
      ensures if raised then Torn(State(), flight) else SortsOut(S0, L, toks, i + 1, still', back')
      ensures Repeated(finishes) == old(Repeated(finishes))
      ensures if raised then LostOne(old(lost), lost, L) else lost == old(lost)
      ensures Given(v, view, L, toks, i + 1)
    {
      ghost var w := view;
      raised, still', back', flight := HandleOne(L, toks, i, still, back, S0);
      assert L[i] in L;
      GivenStep(v, w, view, L, toks, i);
    }

    /** The loop over the answers of a prefill batch, then the live list is replaced. */
    method SortOut(L: seq<Request>, toks: seq<Option<int>>, ghost S0: Sched)
      returns (raised: bool, still: seq<Request>, back: seq<Request>, ghost flight: seq<Request>)
      requires Linked() && SortsOut(S0, L, toks, 0, [], [])
      modifies this`view, this`prefilling, this`running, this`finished, this`finishes, this`totalFinished
      modifies this`totalGeneratedTokens, this`lost
      modifies (set r | r in L)`status, (set r | r in L)`tokenQueue, (set r | r in L)`kvCache
      modifies (set r | r in L)`radixLockNode, (set r | r in L)`outputIds
      modifies (set r | r in L)`needsRetract
      modifies engine`loans, engine`clean, engine.cache, engine.cache.tree.Keys, engine.pool`free
      ensures Linked() && view.Keys == old(view.Keys) && NodesFresh()
      ensures if raised then Torn(State(), flight) else SortsOut(S0, L, toks, |L|, still, back)
      ensures Repeated(finishes) == old(Repeated(finishes))
      ensures if raised then LostOne(old(lost), lost, L) else lost == old(lost)
      ensures !raised ==> Given(old(view), view, L, toks, |L|)
    {
      SortKnown(State(), L, toks, Limit());
      GivenStart(view, L, toks);
      raised, still, back, flight := SortLoop(L, toks, S0, view);
    }

    /** The loop itself. */
    method SortLoop(L: seq<Request>, toks: seq<Option<int>>, ghost S0: Sched, ghost v: View)
      returns (raised: bool, still: seq<Request>, back: seq<Request>, ghost flight: seq<Request>)
      requires Linked() && SortsOut(S0, L, toks, 0, [], [])
      requires |toks| == |L| && NoDup(L) && Given(v, view, L, toks, 0)
      modifies this`view, this`prefilling, this`running, this`finished, this`finishes, this`totalFinished
      modifies this`totalGeneratedTokens, this`lost
      modifies (set r | r in L)`status, (set r | r in L)`tokenQueue, (set r | r in L)`kvCache
      modifies (set r | r in L)`radixLockNode, (set r | r in L)`outputIds
      modifies (set r | r in L)`needsRetract
      modifies engine`loans, engine`clean, engine.cache, engine.cache.tree.Keys, engine.pool`free
      ensures Linked() && view.Keys == old(view.Keys) && NodesFresh()
      ensures if raised then Torn(State(), flight) else SortsOut(S0, L, toks, |L|, still, back)
      ensures Repeated(finishes) == old(Repeated(finishes))
      ensures if raised then LostOne(old(lost), lost, L) else lost == old(lost)
      ensures !raised ==> Given(v, view, L, toks, |L|)
    {
      hide Linked, Given, Repeated, RadixCache.View, SortsOut;
      raised, still, back, flight := false, [], [], [];
      var i := 0;
      while i < |L| && !raised
        invariant Repeated(finishes) == old(Repeated(finishes))
        invariant if raised then LostOne(old(lost), lost, L) else lost == old(lost)
        invariant Given(v, view, L, toks, i)
        invariant i <= |L| && Linked() && view.Keys == old(view.Keys) && NodesFresh()
        invariant if raised then Torn(State(), flight) else SortsOut(S0, L, toks, i, still, back)
        decreases |L| - i
      {
        raised, still, back, flight := HandleRound(L, toks, i, still, back, S0, v);
        i := i + 1;
      }
    }

    /** The second lock region: retracted requests go to the front of the queue, in their order. */
    method Requeue(back: seq<Request>)
      modifies this`waiting
      ensures State() == old(State()).(waiting := back + old(waiting))
    {
      var j := |back|;
      Whole(back);
      while j > 0
        invariant 0 <= j <= |back| && State() == old(State()).(waiting := back[j..] + old(waiting))
      {
        j := j - 1;
        Head(back, j);
        waiting := [back[j]] + waiting;
      }
    }

    // ---- the answers of a decode batch ----

    ghost predicate Emits(S0: Sched, L: seq<Request>, i: nat, still: seq<Request>)
      reads this`waiting, this`prefilling, this`running, this`finished, this`finishes, this`arrivals, this`lost
      reads this`view
    {
      Emitting(State(), L, i, still, Limit()) && EmitRest(S0, State(), L, i, still, chunk)
    }

    /** A request finished by its latest token. */
    method FinishLater(L: seq<Request>, i: nat, ghost still: seq<Request>, ghost t: int, ghost S: Sched,
                       ghost S0: Sched)
      requires i < |L| && Emitting(S, L, i, still, Limit()) && EmitRest(S0, S, L, i, still, chunk)
      requires Linked() && State() == S.(view := view) && Only(S.view, view, L[i]) && L[i] in S.view
        && view[L[i]] == Tokened(S.view[L[i]], t)
      modifies this`view, this`prefilling, this`running, this`finished, this`finishes, this`totalFinished
      modifies this`totalGeneratedTokens
      modifies (set r | r in L)`status, (set r | r in L)`tokenQueue, (set r | r in L)`kvCache
      modifies (set r | r in L)`radixLockNode
      modifies engine`loans, engine`clean, engine.cache, engine.cache.tree.Keys, engine.pool`free
      ensures Linked() && Emits(S0, L, i + 1, still) && State() == Finished(old(State()), L[i])
      ensures NodesFresh()
      ensures Repeated(finishes) == old(Repeated(finishes))
    {
      EmitNow(S, L, i, still, Limit());
      EmitDone(S, L, i, still, Limit(), view, t);
      EmitRestDone(S0, S, view, L, i, still, chunk);
      RepeatedMore(finishes, L[i]);
      FinishRequest(L[i]);
    }

    /** Finish, or stay among the running requests. */
    method FinishOrStay(L: seq<Request>, i: nat, done: bool, still: seq<Request>, ghost t: int, ghost S: Sched,
                        ghost S0: Sched)
      returns (still': seq<Request>)
      requires i < |L| && Emitting(S, L, i, still, Limit()) && EmitRest(S0, S, L, i, still, chunk)
      requires Linked() && State() == S.(view := view) && Only(S.view, view, L[i]) && L[i] in S.view
        && view[L[i]] == Tokened(S.view[L[i]], t)
      requires !done ==> |view[L[i]].out| < L[i].maxNewTokens
      modifies this`view, this`prefilling, this`running, this`finished, this`finishes, this`totalFinished
      modifies this`totalGeneratedTokens
      modifies (set r | r in L)`status, (set r | r in L)`tokenQueue, (set r | r in L)`kvCache
      modifies (set r | r in L)`radixLockNode
      modifies engine`loans, engine`clean, engine.cache, engine.cache.tree.Keys, engine.pool`free
      ensures Linked() && Emits(S0, L, i + 1, still')
      ensures State() == if done then Finished(old(State()), L[i]) else old(State())
      ensures NodesFresh()
      ensures Repeated(finishes) == old(Repeated(finishes))
    {
      still' := still;
      if done {
        FinishLater(L, i, still, t, S, S0);
      } else {
        EmitNow(S, L, i, still, Limit());
        EmitKeep(S, L, i, still, Limit(), view, t);
        EmitRestKeep(S0, S, L, i, still, view, t, chunk);
        still' := still + [L[i]];
      }
    }

    /** One round of the loop over the answers of a decode batch. */
    method EmitOne(L: seq<Request>, token: int, i: nat, still: seq<Request>, ghost S0: Sched)
      returns (raised: bool, still': seq<Request>, ghost flight: seq<Request>)
      requires Linked() && Emits(S0, L, i, still) && i < |L|
      modifies this`view, this`prefilling, this`running, this`finished, this`finishes, this`totalFinished
      modifies this`totalGeneratedTokens, this`lost
      modifies (set r | r in L)`status, (set r | r in L)`tokenQueue, (set r | r in L)`kvCache
      modifies (set r | r in L)`radixLockNode, (set r | r in L)`outputIds
      modifies engine`loans, engine`clean, engine.cache, engine.cache.tree.Keys, engine.pool`free
      ensures Linked() && view.Keys == old(view.Keys) && NodesFresh()
      ensures if raised then Torn(State(), flight) && Elems(prefilling) !! Elems(running)
        else Emits(S0, L, i + 1, still')
      ensures Repeated(finishes) == old(Repeated(finishes))
      ensures lost == if raised then old(lost) + {L[i]} else old(lost)
      ensures Gave(old(view), view, L[i], Some(token))
    {
      hide Engine.Valid, Engine.LedgerKept, Engine.Live, Emitting, EmitRest, Torn, Elems, Gave, Repeated, Parted;
      hide WaitAll;
      ghost var S := State();
      EmitNow(S, L, i, still, Limit());
      raised := HandOut(L[i], token);
      still', flight := still, prefilling + (still + L[i..]);
      ghost var m := State();
      HandedOut(S.view, m.view, L[i], token);
      if raised {
        EmitFault(S, L, i, still, Limit(), view, token);
      } else {
        var done := CheckFinished(L[i], token);
        still' := FinishOrStay(L, i, done, still, token, S, S0);
        FinishedOuts(m, L[i]);
        GaveThen(S.view, m.view, view, L[i], Some(token));
      }
    }

    /** The same, and nobody else is given anything. */
    method EmitRound(L: seq<Request>, toks: seq<int>, i: nat, still: seq<Request>, ghost S0: Sched, ghost v: View)
      returns (raised: bool, still': seq<Request>, ghost flight: seq<Request>)
      requires Linked() && Emits(S0, L, i, still) && i < |L| == |toks|
      requires NoDup(L) && Given(v, view, L, Certain(toks), i)
      modifies this`view, this`prefilling, this`running, this`finished, this`finishes, this`totalFinished
      modifies this`totalGeneratedTokens, this`lost
      modifies (set r | r in L)`status, (set r | r in L)`tokenQueue, (set r | r in L)`kvCache
      modifies (set r | r in L)`radixLockNode, (set r | r in L)`outputIds
      modifies engine`loans, engine`clean, engine.cache, engine.cache.tree.Keys, engine.pool`free
      ensures Linked() && view.Keys == old(view.Keys) && NodesFresh()
      ensures if raised then Torn(State(), flight) && Elems(prefilling) !! Elems(running)
        else Emits(S0, L, i + 1, still')
      ensures Repeated(finishes) == old(Repeated(finishes))
      ensures if raised then LostOne(old(lost), lost, L) else lost == old(lost)
      ensures Given(v, view, L, Certain(toks), i + 1)
    {
      ghost var w := view;
      raised, still', flight := EmitOne(L, toks[i], i, still, S0);
      assert L[i] in L;
      GivenStep(v, w, view, L, Certain(toks), i);
    }

    /** Every running request is given its own token. */
    method EmitAll(L: seq<Request>, toks: seq<int>, ghost S0: Sched)
      returns (raised: bool, still: seq<Request>, ghost flight: seq<Request>)
      requires Linked() && Emits(S0, L, 0, []) && |toks| == |L|
      modifies this`view, this`prefilling, this`running, this`finished, this`finishes, this`totalFinished
      modifies this`totalGeneratedTokens, this`lost
      modifies (set r | r in L)`status, (set r | r in L)`tokenQueue, (set r | r in L)`kvCache
      modifies (set r | r in L)`radixLockNode, (set r | r in L)`outputIds
      modifies engine`loans, engine`clean, engine.cache, engine.cache.tree.Keys, engine.pool`free
      ensures Linked() && view.Keys == old(view.Keys) && NodesFresh()
      ensures if raised then Torn(State(), flight) && Elems(prefilling) !! Elems(running) else Emits(S0, L, |L|, still)
      ensures Repeated(finishes) == old(Repeated(finishes))
      ensures if raised then LostOne(old(lost), lost, L) else lost == old(lost)
      ensures !raised ==> Given(old(view), view, L, Certain(toks), |L|)
    {
      hide Linked, Torn, Given, EmitRest, Emitting, Repeated;
      raised, still, flight := false, [], [];
      var i := 0;
      EmitKnown(State(), L, Limit());
      GivenStart(view, L, Certain(toks));
      while i < |L| && !raised
        invariant Repeated(finishes) == old(Repeated(finishes))
        invariant if raised then LostOne(old(lost), lost, L) else lost == old(lost)
        invariant NoDup(L) && Given(old(view), view, L, Certain(toks), i)
        invariant i <= |L| && Linked() && view.Keys == old(view.Keys) && NodesFresh()
        invariant if raised then Torn(State(), flight) && Elems(prefilling) !! Elems(running)
          else Emits(S0, L, i, still)
        decreases |L| - i
      {
        raised, still, flight := EmitRound(L, toks, i, still, S0, old(view));
        i := i + 1;
      }
      if !raised {
        assert i == |L|;
      }
    }

    /** One decode call for everything that is running. */
    method CallDecode() returns (toks: seq<int>, raised: bool)
      requires Linked() && NoDup(running) && DecodeAt(running, view, view, 0)
      modifies this`view, (set r | r in running)`kvCache
      ensures Linked() && State() == old(State()).(view := view)
      ensures UnseenAll(old(view), view) && Elsewhere(old(view), view, running)
      ensures !raised ==> |toks| == |running| && DecodeAt(running, old(view), view, |running|)
    {
      hide Engine.Valid, DecodeAt, UnseenAll, NoDup, Elsewhere, RadixCache.View, LiveView, Engine.Live;
      ghost var v := view;
      var cells;
      ghost var w;
      toks, cells, raised, w := engine.BatchedDecode(running, view);
      view := w;
      OutputsUnseen(v, w, finishes);
    }

    // ---- the two phases of a step ----

    /** Nothing is left to prefill but what stays on the list. */
    ghost predicate FirstPhaseDone(S0: Sched)
      reads this`waiting, this`prefilling, this`running, this`finished, this`finishes, this`arrivals, this`lost
      reads this`view
    {
      MidStep(State(), Limit()) && RestAll(S0, view, prefilling, 1, chunk) && RestAll(S0, view, running, 0, chunk)
    }

    /** The loop over the answers of a prefill batch, the new prefilling list, the requeue. */
    method SortPhase(toks: seq<Option<int>>, ghost S0: Sched) returns (raised: bool, ghost flight: seq<Request>)
      requires Linked() && SortsOut(S0, prefilling, toks, 0, [], [])
      modifies this`view, this`waiting, this`prefilling, this`running, this`finished, this`finishes, this`totalFinished
      modifies this`totalGeneratedTokens, this`lost
      modifies (set r | r in prefilling)`status, (set r | r in prefilling)`tokenQueue, (set r | r in prefilling)`kvCache
      modifies (set r | r in prefilling)`radixLockNode
      modifies (set r | r in prefilling)`outputIds, (set r | r in prefilling)`needsRetract
      modifies engine`loans, engine`clean, engine.cache, engine.cache.tree.Keys, engine.pool`free
      ensures Linked() && view.Keys == old(view.Keys) && NodesFresh()
      ensures if raised then Torn(State(), flight) else FirstPhaseDone(S0)
      ensures Repeated(finishes) == old(Repeated(finishes))
      ensures if raised then LostOne(old(lost), lost, old(prefilling)) else lost == old(lost)
      ensures !raised ==> Given(old(view), view, old(prefilling), toks, |old(prefilling)|)
    {
      hide Engine.Valid, Engine.LedgerKept, Sorting, Given;
      var L, still, back := prefilling, [], [];
      raised, still, back, flight := SortOut(L, toks, S0);
      if !raised {
        ApplySorted(L, toks, still, back, S0);
      }
    }

    /** The same, naming the request whose token could not be streamed. */
    method SortFaults(toks: seq<Option<int>>, ghost S0: Sched)
      returns (raised: bool, ghost flight: seq<Request>, ghost fault: Fault)
      requires Linked() && SortsOut(S0, prefilling, toks, 0, [], [])
      modifies this`view, this`waiting, this`prefilling, this`running, this`finished, this`finishes, this`totalFinished
      modifies this`totalGeneratedTokens, this`lost
      modifies (set r | r in prefilling)`status, (set r | r in prefilling)`tokenQueue, (set r | r in prefilling)`kvCache
      modifies (set r | r in prefilling)`radixLockNode
      modifies (set r | r in prefilling)`outputIds, (set r | r in prefilling)`needsRetract
      modifies engine`loans, engine`clean, engine.cache, engine.cache.tree.Keys, engine.pool`free
      ensures Linked() && view.Keys == old(view.Keys) && NodesFresh()
      ensures if raised then Torn(State(), flight) else FirstPhaseDone(S0)
      ensures Repeated(finishes) == old(Repeated(finishes))
      ensures FaultIs(old(lost), lost, raised, fault) && !fault.InEngine?
    {
      fault := NoFault;
      ghost var was, L := lost, prefilling;
      raised, flight := SortPhase(toks, S0);
      if raised {
        ghost var r :| r in L && lost == was + {r};
        fault := InStream(r);
      }
    }

    method ApplySorted(L: seq<Request>, ghost toks: seq<Option<int>>, still: seq<Request>, back: seq<Request>,
                       ghost S0: Sched)
      requires SortsOut(S0, L, toks, |L|, still, back)
      modifies this`waiting, this`prefilling
      ensures FirstPhaseDone(S0) && view == old(view) && engine.cache.tree == old(engine.cache.tree)
    {
      SortEnd(State(), L, toks, still, back, Limit());
      prefilling := still;
      Requeue(back);
    }

    /** Phase 1 after admission. */
    method PrefillPhase(ghost pre: seq<Request>, ghost adm: seq<Request>, ghost S0: Sched)
      returns (raised: bool, ghost flight: seq<Request>, ghost fault: Fault)
      requires Linked() && Gap(State(), pre, adm, Limit()) && FromStart(S0, State(), pre)
      modifies this`view, this`waiting, this`prefilling, this`running, this`finished, this`finishes, this`totalFinished
      modifies this`totalGeneratedTokens, this`lost
      modifies (set r | r in prefilling)`status, (set r | r in prefilling)`tokenQueue, (set r | r in prefilling)`kvCache
      modifies (set r | r in prefilling)`radixLockNode
      modifies (set r | r in prefilling)`outputIds, (set r | r in prefilling)`needsRetract
      modifies (set r | r in prefilling)`cacheHitTokens, (set r | r in prefilling)`prefillOffset
      modifies (set r | r in prefilling)`borrowed, (set r | r in prefilling)`ticket
      modifies engine`loans, engine`clean, engine.cache, engine.cache.tree.Keys, engine.pool`free
      ensures Linked() && view.Keys == old(view.Keys) && NodesFresh()
      ensures if raised then Torn(State(), flight) else FirstPhaseDone(S0)
      ensures Repeated(finishes) == old(Repeated(finishes))
      ensures FaultIs(old(lost), lost, raised, fault) && (fault.InEngine? ==> Elems(prefilling) !! Elems(running))
    {
      raised, flight, fault := false, [], NoFault;
      if prefilling == [] {
        NothingPrefilling(State(), Limit());
        RestIdle(S0, State(), Limit());
      } else {
        raised, flight, fault := PrefillNow(pre, adm, S0);
      }
    }

    method PrefillNow(ghost pre: seq<Request>, ghost adm: seq<Request>, ghost S0: Sched)
      returns (raised: bool, ghost flight: seq<Request>, ghost fault: Fault)
      requires Linked() && Gap(State(), pre, adm, Limit()) && FromStart(S0, State(), pre)
      modifies this`view, this`waiting, this`prefilling, this`running, this`finished, this`finishes, this`totalFinished
      modifies this`totalGeneratedTokens, this`lost
      modifies (set r | r in prefilling)`status, (set r | r in prefilling)`tokenQueue, (set r | r in prefilling)`kvCache
      modifies (set r | r in prefilling)`radixLockNode
      modifies (set r | r in prefilling)`outputIds, (set r | r in prefilling)`needsRetract
      modifies (set r | r in prefilling)`cacheHitTokens, (set r | r in prefilling)`prefillOffset
      modifies (set r | r in prefilling)`borrowed, (set r | r in prefilling)`ticket
      modifies engine`loans, engine`clean, engine.cache, engine.cache.tree.Keys, engine.pool`free
      ensures Linked() && view.Keys == old(view.Keys) && NodesFresh()
      ensures if raised then Torn(State(), flight) else FirstPhaseDone(S0)
      ensures Repeated(finishes) == old(Repeated(finishes))
      ensures FaultIs(old(lost), lost, raised, fault) && (fault.InEngine? ==> Elems(prefilling) !! Elems(running))
    {
      hide Linked, Engine.Valid, Told, Engine.LedgerKept, Torn, Repeated;
      ghost var S := State();
      GapPrefillable(S, pre, adm, Limit());
      var toks;
      toks, raised := CallPrefill();
      flight := prefilling + running;
      fault := if raised then InEngine else NoFault;
      if raised {
        PrefillFault(S, pre, adm, Limit(), view);
        PartedApart(S.arrivals, S.waiting, pre + adm, S.running, S.finished);
      } else {
        SortStart(S, pre, adm, Limit(), view, toks);
        RestStart(S0, S, pre, adm, Limit(), view, toks);
        raised, flight, fault := SortFaults(toks, S0);
      }
    }

    /** The requests that go on are the running ones from here on. */
    method KeepStill(L: seq<Request>, still: seq<Request>, ghost S0: Sched)
      requires Emits(S0, L, |L|, still)
      modifies this`running
      ensures Boundary(State(), Limit()) && Falls(S0, State(), chunk) && view == old(view)
    {
      EmitEnd(State(), L, still, Limit());
      running := still;
    }

    /** The loop over the answers of a decode batch, then the new running list. */
    method EmitPhase(toks: seq<int>, ghost S0: Sched) returns (raised: bool, ghost flight: seq<Request>)
      requires Linked() && Emits(S0, running, 0, []) && |toks| == |running|
      modifies this`view, this`prefilling, this`running, this`finished, this`finishes, this`totalFinished
      modifies this`totalGeneratedTokens, this`lost
      modifies (set r | r in running)`status, (set r | r in running)`tokenQueue, (set r | r in running)`kvCache
      modifies (set r | r in running)`radixLockNode, (set r | r in running)`outputIds
      modifies engine`loans, engine`clean, engine.cache, engine.cache.tree.Keys, engine.pool`free
      ensures Linked() && view.Keys == old(view.Keys) && NodesFresh()
      ensures Repeated(finishes) == old(Repeated(finishes))
      ensures if raised then LostOne(old(lost), lost, old(running)) else lost == old(lost)
      ensures !raised ==> Given(old(view), view, old(running), Certain(toks), |toks|)
      ensures if raised then Torn(State(), flight) && Elems(prefilling) !! Elems(running)
        else Boundary(State(), Limit()) && Falls(S0, State(), chunk)
    {
      hide Engine.Valid, Engine.LedgerKept, Emitting, EmitRest, Boundary, Given;
      var L, still := running, [];
      raised, still, flight := EmitAll(L, toks, S0);
      if !raised {
        KeepStill(L, still, S0);
      }
    }

    /** The same, naming the request whose token could not be streamed. */
    method EmitFaults(toks: seq<int>, ghost S0: Sched)
      returns (raised: bool, ghost flight: seq<Request>, ghost fault: Fault)
      requires Linked() && Emits(S0, running, 0, []) && |toks| == |running|
      modifies this`view, this`prefilling, this`running, this`finished, this`finishes, this`totalFinished
      modifies this`totalGeneratedTokens, this`lost
      modifies (set r | r in running)`status, (set r | r in running)`tokenQueue, (set r | r in running)`kvCache
      modifies (set r | r in running)`radixLockNode, (set r | r in running)`outputIds
      modifies engine`loans, engine`clean, engine.cache, engine.cache.tree.Keys, engine.pool`free
      ensures Linked() && view.Keys == old(view.Keys) && NodesFresh()
      ensures Repeated(finishes) == old(Repeated(finishes))
      ensures FaultIs(old(lost), lost, raised, fault) && !fault.InEngine?
      ensures if raised then Torn(State(), flight) && Elems(prefilling) !! Elems(running)
        else Boundary(State(), Limit()) && Falls(S0, State(), chunk)
    {
      fault := NoFault;
      ghost var was, L := lost, running;
      raised, flight := EmitPhase(toks, S0);
      if raised {
        ghost var r :| r in L && lost == was + {r};
        fault := InStream(r);
      }
    }

    method DecodeNow(ghost S0: Sched) returns (raised: bool, ghost flight: seq<Request>, ghost fault: Fault)
      requires Linked() && FirstPhaseDone(S0)
      modifies this`view, this`prefilling, this`running, this`finished, this`finishes, this`totalFinished
      modifies this`totalGeneratedTokens, this`lost
      modifies (set r | r in running)`status, (set r | r in running)`tokenQueue, (set r | r in running)`kvCache
      modifies (set r | r in running)`radixLockNode, (set r | r in running)`outputIds
      modifies engine`loans, engine`clean, engine.cache, engine.cache.tree.Keys, engine.pool`free
      ensures Linked() && view.Keys == old(view.Keys) && NodesFresh()
      ensures Repeated(finishes) == old(Repeated(finishes))
      ensures FaultIs(old(lost), lost, raised, fault) && (fault.InEngine? ==> Elems(prefilling) !! Elems(running))
      ensures if raised then Torn(State(), flight) && Elems(prefilling) !! Elems(running)
        else Boundary(State(), Limit()) && Falls(S0, State(), chunk)
    {
      ghost var S := State();
      RunningDecodable(S, Limit());
      PartedApart(arrivals, waiting, prefilling, running, finished);
      var toks;
      toks, raised := CallDecode();
      flight := prefilling + running;
      fault := if raised then InEngine else NoFault;
      if raised {
        DecodeFault(S, Limit(), view);
      } else {
        EmitStart(S, Limit(), view);
        EmitRestStart(S0, S, view, Limit());
        raised, flight, fault := EmitFaults(toks, S0);
      }
    }

    /** Phase 2. */
    method DecodePhase(ghost S0: Sched) returns (raised: bool, ghost flight: seq<Request>, ghost fault: Fault)
      requires Linked() && FirstPhaseDone(S0)
      modifies this`view, this`prefilling, this`running, this`finished, this`finishes, this`totalFinished
      modifies this`totalGeneratedTokens, this`lost
      modifies (set r | r in running)`status, (set r | r in running)`tokenQueue, (set r | r in running)`kvCache
      modifies (set r | r in running)`radixLockNode, (set r | r in running)`outputIds
      modifies engine`loans, engine`clean, engine.cache, engine.cache.tree.Keys, engine.pool`free
      ensures Linked() && view.Keys == old(view.Keys) && NodesFresh()
      ensures Repeated(finishes) == old(Repeated(finishes))
      ensures FaultIs(old(lost), lost, raised, fault) && (fault.InEngine? ==> Elems(prefilling) !! Elems(running))
      ensures if raised then Torn(State(), flight) && Elems(prefilling) !! Elems(running)
        else Boundary(State(), Limit()) && Falls(S0, State(), chunk)
    {
      raised, flight, fault := false, [], NoFault;
      if running == [] {
        NothingRunning(State(), Limit());
        assert RestAll(S0, view, running, 1, chunk);
      } else {
        raised, flight, fault := DecodeNow(S0);
      }
    }

    // ---- `_abort_inflight_requests` ----

    method AbortOne(all: seq<Request>, k: nat, ghost flight: seq<Request>)
      requires Linked() && Aborting(State(), all, k, flight) && k < |all|
      modifies this`view, this`prefilling, this`running, this`finished, this`finishes, this`totalFinished
      modifies this`totalGeneratedTokens
      modifies (set r | r in all)`status, (set r | r in all)`tokenQueue, (set r | r in all)`kvCache
      modifies (set r | r in all)`radixLockNode
      modifies engine`loans, engine`clean, engine.cache, engine.cache.tree.Keys, engine.pool`free
      ensures Linked() && Aborting(State(), all, k + 1, Without(flight, all[k])) && NodesFresh()
      ensures finishes == old(finishes) + [all[k]] && lost == old(lost) && arrivals == old(arrivals)
        && waiting == old(waiting)
    {
      AbortNow(State(), all, k, flight);
      AbortStep(State(), all, k, flight);
      FinishRequest(all[k]);
    }

    /** The loop of `_abort_inflight_requests`. */
    method AbortAll(all: seq<Request>, ghost flight: seq<Request>) returns (ghost rest: seq<Request>)
      requires Linked() && Aborting(State(), all, 0, flight)
      modifies this`view, this`prefilling, this`running, this`finished, this`finishes, this`totalFinished
      modifies this`totalGeneratedTokens
      modifies (set r | r in all)`status, (set r | r in all)`tokenQueue, (set r | r in all)`kvCache
      modifies (set r | r in all)`radixLockNode
      modifies engine`loans, engine`clean, engine.cache, engine.cache.tree.Keys, engine.pool`free
      ensures Linked() && Aborting(State(), all, |all|, rest) && NodesFresh()
      ensures finishes == old(finishes) + all && lost == old(lost) && arrivals == old(arrivals)
        && waiting == old(waiting)
    {
      hide Linked, Engine.Valid, Aborting, Torn;
      rest := flight;
      var k := 0;
      while k < |all|
        invariant k <= |all| && Linked() && Aborting(State(), all, k, rest) && NodesFresh()
        invariant finishes == old(finishes) + all[..k] && lost == old(lost) && arrivals == old(arrivals)
          && waiting == old(waiting)
      {
        SliceNext(old(finishes), all, k);
        AbortOne(all, k, rest);
        rest := Without(rest, all[k]);
        k := k + 1;
      }
      Whole(all);
    }

    /** Finishes everything in flight, going through a snapshot of both lists. */
    method Abort(ghost flight: seq<Request>)
      requires Linked() && Torn(State(), flight) && engine.pageSize >= 1
      modifies this`view, this`prefilling, this`running, this`finished, this`finishes, this`totalFinished
      modifies this`totalGeneratedTokens
      modifies (set r | r in prefilling + running)`status, (set r | r in prefilling + running)`tokenQueue
      modifies (set r | r in prefilling + running)`kvCache, (set r | r in prefilling + running)`radixLockNode
      modifies engine`loans, engine`clean, engine.cache, engine.cache.tree.Keys, engine.pool`free
      ensures Linked() && Boundary(State(), Limit()) && prefilling == [] && running == [] && NodesFresh()
      ensures finishes == old(finishes) + old(prefilling + running) && lost == old(lost) && arrivals == old(arrivals)
        && waiting == old(waiting)
    {
      var all := prefilling + running;
      AbortStart(State(), flight);
      ghost var rest := AbortAll(all, flight);
      AbortEnd(State(), all, rest, Limit());
    }

    // ---- one step, one turn of the loop ----

    /** The first lock region, and the admitted requests marked and listed. */
    method StartPhase(ghost arriving: seq<Request>) returns (ghost adm: seq<Request>)
      requires Linked() && Boundary(State(), Limit()) && NewOnes(arriving, 0)
      modifies this`waiting, this`prefilling, this`view, view.Keys`status
      ensures Linked() && Gap(State(), old(prefilling), adm, Limit()) && NewOnes(arriving, 0)
      ensures State() == old(State()).(view := view, waiting := waiting, prefilling := prefilling)
      ensures old(waiting) == adm + waiting && Elsewhere(old(view), view, adm)
    {
      hide Elsewhere, Told, RadixCache.Synced, RadixCache.Valid;
      var admitted := PopAdmissible();
      adm := admitted;
      AdmittedKnown(State(), admitted, Limit());
      StartAll(admitted);
      forall j {:trigger NewOne(arriving[j])} | 0 <= j < |arriving| ensures NewOne(arriving[j]) {
        assert old(NewOne(arriving[j]));
      }
    }

    /** The first lock region and what other threads enqueue until the second one. */
    method AdmissionPhase(arriving: seq<Request>) returns (ghost adm: seq<Request>)
      requires Linked() && Boundary(State(), Limit()) && NewOnes(arriving, 0)
      modifies this`waiting, this`prefilling, this`arrivals, this`view, view.Keys`status
      ensures Linked() && Gap(State(), old(prefilling), adm, Limit())
        && FromStart(old(State()), State(), old(prefilling))
      ensures State() == old(State()).(view := view, waiting := waiting, prefilling := prefilling,
        arrivals := old(arrivals) + arriving)
      ensures view.Keys == old(view.Keys) + Elems(arriving)
    {
      hide Engine.Valid, Engine.LedgerKept, Boundary, Limit, Elems, Extends, Parted;
      ghost var S0 := State();
      adm := StartPhase(arriving);
      ghost var v := view;
      AddAll(arriving, S0.prefilling, adm);
      FromStartIs(S0, v, State(), adm, Limit());
      ViewGrows(S0, State(), arriving);
    }

    /** Both phases. */
    method RunPhases(ghost pre: seq<Request>, ghost adm: seq<Request>, ghost S0: Sched)
      returns (raised: bool, ghost flight: seq<Request>, ghost fault: Fault)
      requires Linked() && Gap(State(), pre, adm, Limit()) && FromStart(S0, State(), pre)
      modifies this`waiting, this`prefilling, this`running, this`totalFinished, this`totalGeneratedTokens
      modifies this`finished, this`finishes, this`lost, this`view
      modifies view.Keys`status, view.Keys`outputIds, view.Keys`tokenQueue
      modifies view.Keys`kvCache, view.Keys`prefillOffset, view.Keys`cacheHitTokens
      modifies view.Keys`needsRetract, view.Keys`radixLockNode, view.Keys`borrowed, view.Keys`ticket
      modifies engine`loans, engine`clean, engine.cache, engine.cache.tree.Keys, engine.pool`free
      ensures Linked() && view.Keys == old(view.Keys) && NodesFresh()
      ensures Repeated(finishes) == old(Repeated(finishes))
      ensures FaultIs(old(lost), lost, raised, fault) && (fault.InEngine? ==> Elems(prefilling) !! Elems(running))
      ensures if raised then Torn(State(), flight) else Boundary(State(), Limit()) && Falls(S0, State(), chunk)
    {
      hide Linked, Engine.Valid, Gap, Repeated;
      GapKnown(State(), pre, adm, Limit());
      raised, flight, fault := PrefillPhase(pre, adm, S0);
      if !raised {
        RunningKnown(State(), Limit());
        raised, flight, fault := DecodePhase(S0);
      }
    }

    /** `_step_paged`, with the requests other threads enqueue meanwhile; `raised` when an
        exception escapes. */
    method StepPaged(arriving: seq<Request>) returns (raised: bool, ghost flight: seq<Request>, ghost fault: Fault)
      requires Linked() && Boundary(State(), Limit()) && NewOnes(arriving, 0)
      modifies this`waiting, this`prefilling, this`running, this`totalFinished, this`totalGeneratedTokens
      modifies this`finished, this`finishes, this`arrivals, this`lost, this`view
      modifies (view.Keys + Elems(arriving))`status, (view.Keys + Elems(arriving))`outputIds
      modifies (view.Keys + Elems(arriving))`tokenQueue
      modifies (view.Keys + Elems(arriving))`kvCache, (view.Keys + Elems(arriving))`prefillOffset
      modifies (view.Keys + Elems(arriving))`cacheHitTokens
      modifies (view.Keys + Elems(arriving))`needsRetract, (view.Keys + Elems(arriving))`radixLockNode
      modifies (view.Keys + Elems(arriving))`borrowed, (view.Keys + Elems(arriving))`ticket
      modifies engine`loans, engine`clean, engine.cache, engine.cache.tree.Keys, engine.pool`free
      ensures Linked() && view.Keys == old(view.Keys) + Elems(arriving) && NodesFresh()
      ensures Repeated(finishes) == old(Repeated(finishes))
      ensures FaultIs(old(lost), lost, raised, fault) && (fault.InEngine? ==> Elems(prefilling) !! Elems(running))
      ensures if raised then Torn(State(), flight)
        else Boundary(State(), Limit()) && Falls(old(State()), State(), chunk)
    {
      ghost var S0 := State();
      ghost var adm := AdmissionPhase(arriving);
      raised, flight, fault := RunPhases(S0.prefilling, adm, S0);
    }

    /** The clean-up of `_loop` after a step that raised. */
    method CleanUp(ghost flight: seq<Request>)
      requires Linked() && Torn(State(), flight) && engine.pageSize >= 1
      modifies this`view, this`prefilling, this`running, this`finished, this`finishes, this`totalFinished
      modifies this`totalGeneratedTokens
      modifies view.Keys`status, view.Keys`tokenQueue, view.Keys`kvCache, view.Keys`radixLockNode
      modifies engine`loans, engine`clean, engine.cache, engine.cache.tree.Keys, engine.pool`free
      ensures Linked() && Boundary(State(), Limit()) && prefilling == [] && running == [] && NodesFresh()
      ensures finishes == old(finishes) + old(prefilling + running) && lost == old(lost)
      ensures Repeated(finishes) == old(Repeated(finishes)) + Elems(old(prefilling)) * Elems(old(running))
    {
      FlightKnown(State(), flight);
      FinishedAgain(State(), flight);
      Abort(flight);
    }

    /** One turn of `_loop` with work to do: a step, and the clean-up if it raised.  `torn` is the
        state in which the step ended.  A turn broken off by an engine call loses no token and
        finishes nobody twice; one broken off by a token finishes twice exactly who was on both
        live lists then. */
    method Turn(arriving: seq<Request>)
      returns (raised: bool, ghost fault: Fault, ghost torn: Sched, ghost flight: seq<Request>)
      requires Linked() && Boundary(State(), Limit()) && NewOnes(arriving, 0)
      modifies this`waiting, this`prefilling, this`running, this`totalFinished, this`totalGeneratedTokens
      modifies this`finished, this`finishes, this`arrivals, this`lost, this`view
      modifies (view.Keys + Elems(arriving))`status, (view.Keys + Elems(arriving))`outputIds
      modifies (view.Keys + Elems(arriving))`tokenQueue
      modifies (view.Keys + Elems(arriving))`kvCache, (view.Keys + Elems(arriving))`prefillOffset
      modifies (view.Keys + Elems(arriving))`cacheHitTokens
      modifies (view.Keys + Elems(arriving))`needsRetract, (view.Keys + Elems(arriving))`radixLockNode
      modifies (view.Keys + Elems(arriving))`borrowed, (view.Keys + Elems(arriving))`ticket
      modifies engine`loans, engine`clean, engine.cache, engine.cache.tree.Keys, engine.pool`free
      ensures Linked() && Boundary(State(), Limit()) && Falls(old(State()), State(), chunk)
      ensures view.Keys == old(view.Keys) + Elems(arriving) && NodesFresh()
      ensures FaultIs(old(lost), lost, raised, fault)
        && (!fault.InStream? ==> Repeated(finishes) == old(Repeated(finishes)))
      ensures if raised then Torn(torn, flight) && prefilling == [] && running == [] else torn == State()
      ensures raised ==> finishes == torn.finishes + (torn.prefilling + torn.running)
      ensures Repeated(finishes) == old(Repeated(finishes)) + if raised
        then Elems(torn.prefilling) * Elems(torn.running) else {}
    {
      hide Linked;
      raised, flight, fault := StepPaged(arriving);
      torn := State();
      if raised {
        CleanUp(flight);
        assert RestAll(old(State()), view, [], 1, chunk);
      }
    }

    // ---- the loop ----

    /** `add_request` calls between two turns. */
    method Enqueue(incoming: seq<Request>, i: nat, k: nat)
      requires Linked() && Boundary(State(), Limit()) && i + k <= |incoming| && NewOnes(incoming, i)
      modifies this`waiting, this`arrivals, this`view
      ensures Linked() && Boundary(State(), Limit()) && NewOnes(incoming, i + k)
      ensures SameFlight(old(State()), State()) && view.Keys == old(view.Keys) + Elems(incoming[i..i + k])
      ensures finishes == old(finishes) && lost == old(lost)
    {
      hide Linked, Boundary, SameFlight;
      var j := 0;
      FlightSelf(State(), Limit());
      assert incoming[i..i] == [];
      while j < k
        invariant j <= k && Linked() && Boundary(State(), Limit()) && NewOnes(incoming, i + j)
        invariant SameFlight(old(State()), State()) && view.Keys == old(view.Keys) + Elems(incoming[i..i + j])
      {
        ghost var S := State();
        EnqueueOne(incoming, i + j);
        FlightArrived(old(State()), S, incoming[i + j], Snapshot(incoming[i + j]));
        assert incoming[i..i + j + 1] == incoming[i..i + j] + [incoming[i + j]];
        ElemsMore(incoming[i..i + j], incoming[i + j]);
        j := j + 1;
      }
    }

    method EnqueueOne(incoming: seq<Request>, i: nat)
      requires Linked() && Boundary(State(), Limit()) && i < |incoming| && NewOnes(incoming, i)
      modifies this`waiting, this`arrivals, this`view
      ensures Linked() && Boundary(State(), Limit()) && NewOnes(incoming, i + 1) && incoming[i] !in old(view)
      ensures State() == Arrived(old(State()), incoming[i], Snapshot(incoming[i]))
    {
      hide Engine.Valid;
      assert NewOne(incoming[i]);
      AddRequest(incoming[i]);
      forall j {:trigger NewOne(incoming[j])} | i + 1 <= j < |incoming| ensures NewOne(incoming[j]) {
        assert old(NewOne(incoming[j])) && incoming[i] != incoming[j];
      }
    }

    /** `k` requests arrive, then a turn during which `m` more do. */
    method Round(incoming: seq<Request>, i: nat, k: nat, m: nat) returns (raised: bool, ghost fault: Fault)
      requires Linked() && Boundary(State(), Limit()) && i + k + m <= |incoming| && NewOnes(incoming, i)
      modifies this`waiting, this`prefilling, this`running, this`totalFinished, this`totalGeneratedTokens
      modifies this`finished, this`finishes, this`arrivals, this`lost, this`view
      modifies (view.Keys + Elems(incoming))`status, (view.Keys + Elems(incoming))`outputIds
      modifies (view.Keys + Elems(incoming))`tokenQueue, (view.Keys + Elems(incoming))`kvCache
      modifies (view.Keys + Elems(incoming))`prefillOffset, (view.Keys + Elems(incoming))`cacheHitTokens
      modifies (view.Keys + Elems(incoming))`needsRetract, (view.Keys + Elems(incoming))`radixLockNode
      modifies (view.Keys + Elems(incoming))`borrowed, (view.Keys + Elems(incoming))`ticket
      modifies engine`loans, engine`clean, engine.cache, engine.cache.tree.Keys, engine.pool`free
      ensures Linked() && Boundary(State(), Limit()) && NewOnes(incoming, i + k + m)
      ensures Falls(old(State()), State(), chunk) && NodesFresh() && view.Keys <= old(view.Keys) + Elems(incoming)
      ensures FaultIs(old(lost), lost, raised, fault)
      ensures !fault.InStream? ==> Repeated(finishes) == old(Repeated(finishes))
    {
      hide Linked, Boundary, Falls, SameFlight, FaultIs;
      Enqueue(incoming, i, k);
      ghost var S := State();
      label Enqueued:
      var arriving := incoming[i + k..i + k + m];
      assert NewOnes(arriving, 0) by {
        forall j {:trigger NewOne(arriving[j])} | 0 <= j < |arriving| ensures NewOne(arriving[j]) {
          assert NewOne(incoming[i + k + j]);
        }
      }
      ghost var torn, flight;
      raised, fault, torn, flight := Turn(arriving);
      FallsBack(old(State()), S, State(), chunk);
      forall j {:trigger NewOne(incoming[j])} | i + k + m <= j < |incoming| ensures NewOne(incoming[j]) {
        assert old@Enqueued(NewOne(incoming[j]));
        assert incoming[j] !in arriving;
      }
    }

    /** The loop of the scheduler thread, `turns` times round, with the requests of `incoming`
        arriving between and during the turns.  Its states between turns make a run; while no
        token was lost in streaming, whatever engine calls raised, every stream is exact. */
    method Serve(incoming: seq<Request>, turns: nat) returns (ghost states: seq<Sched>, ghost faults: seq<Fault>)
      requires Linked() && Boundary(State(), Limit()) && NewOnes(incoming, 0)
      modifies this`waiting, this`prefilling, this`running, this`totalFinished, this`totalGeneratedTokens
      modifies this`finished, this`finishes, this`arrivals, this`lost, this`view
      modifies (view.Keys + Elems(incoming))`status, (view.Keys + Elems(incoming))`outputIds
      modifies (view.Keys + Elems(incoming))`tokenQueue, (view.Keys + Elems(incoming))`kvCache
      modifies (view.Keys + Elems(incoming))`prefillOffset, (view.Keys + Elems(incoming))`cacheHitTokens
      modifies (view.Keys + Elems(incoming))`needsRetract, (view.Keys + Elems(incoming))`radixLockNode
      modifies (view.Keys + Elems(incoming))`borrowed, (view.Keys + Elems(incoming))`ticket
      modifies engine`loans, engine`clean, engine.cache, engine.cache.tree.Keys, engine.pool`free
      ensures Linked() && |states| == turns + 1 && |faults| == turns
      ensures states[0] == old(State()) && states[turns] == State() && IsRun(states, Limit())
      ensures Streamed(faults) && old(lost) == {} && old(Repeated(finishes)) == {} ==> AllExact()
    {
      hide Linked, Boundary, Falls;
      states, faults := [State()], [];
      var i: nat, n: nat := 0, 0;
      while n < turns
        invariant n <= turns && |states| == n + 1 && |faults| == n && states[0] == old(State())
        invariant Linked() && NewOnes(incoming, i) && i <= |incoming| && NodesFresh() && IsRun(states, Limit())
        invariant states[n] == State() && view.Keys <= old(view.Keys) + Elems(incoming)
        invariant Streamed(faults) ==> lost == old(lost) && Repeated(finishes) == old(Repeated(finishes))
      {
        var k: nat, m: nat :| i + k + m <= |incoming|;
        assert Boundary(states[n], Limit());
        var raised;
        ghost var fault;
        raised, fault := Round(incoming, i, k, m);
        RunMore(states, State(), Limit());
        StreamedMore(faults, fault);
        states, faults := states + [State()], faults + [fault];
        i, n := i + k + m, n + 1;
      }
      assert Boundary(states[turns], Limit());
      if lost == {} && Repeated(finishes) == {} {
        QuietExact(State(), Limit());
      }
    }

    ghost predicate AllExact()
      reads this`waiting, this`prefilling, this`running, this`finished, this`finishes, this`arrivals, this`lost
      reads this`view
    {
      StreamsExact(State())
    }
  }
}
