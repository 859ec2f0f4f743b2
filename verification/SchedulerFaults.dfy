/** Steps that are broken off by an exception, and the clean-up after them
    (scheduler.py:113-117, 326-331). */
module SchedulerFaults {
  import opened Paging
  import opened Requests
  import opened RequestViews
  import opened SchedulerModel
  import opened SchedulerSteps
  import opened Wrappers

  /** A step has been broken off: `flight` are the requests in neither the queue nor finished.
      They are on the two live lists, possibly on both. */
  ghost predicate Torn(S: Sched, flight: seq<Request>) {
    && Known(S) && Parted(S.arrivals, S.waiting, flight, [], S.finished)
    && NoDup(S.prefilling) && NoDup(S.running) && Elems(flight) == Elems(S.prefilling) + Elems(S.running)
    && WaitAll(S.view, S.waiting) && LooseAll(S, flight) && DoneList(S) && S.lost <= Elems(S.finished) + Elems(flight)
    && Ascending(S.arrivals, S.waiting)
  }

  lemma LooseSame(S: Sched, w: View, l: seq<Request>)
    requires UnseenAll(S.view, w)
    requires (forall i {:trigger PrefAt(S.view, l, i)} :: 0 <= i < |l| ==> PrefAt(S.view, l, i))
          || (forall i {:trigger AdmittedAt(S.view, l, i)} :: 0 <= i < |l| ==> AdmittedAt(S.view, l, i))
          || (forall i {:trigger RunAt(S.view, l, i, 1)} :: 0 <= i < |l| ==> RunAt(S.view, l, i, 1))
    requires Elems(l) !! S.lost
    ensures LooseAll(S.(view := w), l)
  {
    var T := S.(view := w);
    forall i {:trigger LooseAt(T, l, i)} | 0 <= i < |l| ensures LooseAt(T, l, i) {
      assert PrefAt(S.view, l, i) || AdmittedAt(S.view, l, i) || RunAt(S.view, l, i, 1);
      assert Unseen(S.view[l[i]], w[l[i]]);
      assert l[i] in Elems(l);
    }
  }

  lemma LooseConcat(S: Sched, a: seq<Request>, b: seq<Request>)
    requires LooseAll(S, a) && LooseAll(S, b)
    ensures LooseAll(S, a + b)
  {
    forall i {:trigger LooseAt(S, a + b, i)} | 0 <= i < |a| + |b| ensures LooseAt(S, a + b, i) {
      if i < |a| { assert LooseAt(S, a, i); } else { assert LooseAt(S, b, i - |a|); }
    }
  }

  lemma Two(arrivals: seq<Request>, a: seq<Request>, b: seq<Request>, c: seq<Request>, d: seq<Request>)
    requires Parted(arrivals, a, b, c, d)
    ensures Parted(arrivals, a, b + c, [], d)
  {
    PartedIs(arrivals, a, b, c, d);
    PartedIs(arrivals, a, b + c, [], d);
  }

  lemma ElsewhereSame(v: View, w: View, L: seq<Request>, l: seq<Request>)
    requires Elsewhere(v, w, L) && Elems(l) !! Elems(L)
    ensures SameOn(v, w, l)
  {
    NotOn(l, L);
    forall i {:trigger SameAt(v, w, l, i)} | 0 <= i < |l| ensures SameAt(v, w, l, i) {
      assert l[i] !in L;
    }
  }

  lemma PrefillFault(S: Sched, pre: seq<Request>, adm: seq<Request>, lim: Limits, w: View)
    requires Gap(S, pre, adm, lim) && UnseenAll(S.view, w) && Elsewhere(S.view, w, S.prefilling)
    ensures Torn(S.(view := w), S.prefilling + S.running)
  {
    var L := S.prefilling;
    PartedApart(S.arrivals, S.waiting, L, S.running, S.finished);
    ElsewhereSame(S.view, w, L, S.waiting);
    ElsewhereSame(S.view, w, L, S.finished);
    SameLists(S.view, w, S.waiting, 2);
    SameDone(S, w);
    Two(S.arrivals, S.waiting, L, S.running, S.finished);
    ElemsConcat(L, S.running);
    ElemsConcat(pre, adm);
    RunsWeaken(S.view, S.running);
    AscendingTail(S.arrivals, adm, S.waiting);
    LooseSame(S, w, pre);
    LooseSame(S, w, adm);
    LooseSame(S, w, S.running);
    LooseConcat(S.(view := w), pre, adm);
    LooseConcat(S.(view := w), L, S.running);
  }

  lemma DecodeFault(S: Sched, lim: Limits, w: View)
    requires MidStep(S, lim) && UnseenAll(S.view, w) && Elsewhere(S.view, w, S.running)
    ensures Torn(S.(view := w), S.prefilling + S.running)
  {
    PartedApart(S.arrivals, S.waiting, S.prefilling, S.running, S.finished);
    ElsewhereSame(S.view, w, S.running, S.waiting);
    ElsewhereSame(S.view, w, S.running, S.finished);
    SameLists(S.view, w, S.waiting, 2);
    SameDone(S, w);
    Two(S.arrivals, S.waiting, S.prefilling, S.running, S.finished);
    ElemsConcat(S.prefilling, S.running);
    LooseSame(S, w, S.prefilling);
    LooseSame(S, w, S.running);
    LooseConcat(S.(view := w), S.prefilling, S.running);
  }

  // ---- an exception while streaming ----

  /** The token is in `output_ids` but was not streamed. */
  ghost function Unstreamed(s: RS, t: int): RS {
    s.(out := s.out + [t])
  }

  /** A request handed to the loop, not yet reached. */
  lemma LooseRest(S: Sched, w: View, L: seq<Request>, i: nat, t: int, T: Sched)
    requires i < |L| && Only(S.view, w, L[i]) && w[L[i]] == Unstreamed(S.view[L[i]], t) && L[i] !in L[i + 1..]
    requires forall j {:trigger L[j]} :: i <= j < |L| ==>
      L[j] in S.view && LooseOK(L[j], S.view[L[j]], false) && L[j] !in S.lost
    requires |S.view[L[i]].out| < L[i].maxNewTokens
    requires T.view == w && T.lost == S.lost + {L[i]}
    ensures LooseAll(T, L[i..])
  {
    forall j {:trigger LooseAt(T, L[i..], j)} | 0 <= j < |L| - i ensures LooseAt(T, L[i..], j) {
      assert L[i..][j] == L[i + j];
      if j == 0 {
        assert w[L[i]].out[..|w[L[i]].out| - 1] == S.view[L[i]].out;
      } else {
        assert L[i + j] == L[i + 1..][j - 1];
      }
    }
  }

  /** Requests of the other lists. */
  lemma LooseOthers(S: Sched, w: View, r: Request, l: seq<Request>, T: Sched)
    requires Only(S.view, w, r) && r !in l && T.view == w && T.lost == S.lost + {r} && Elems(l) !! S.lost
    requires WaitAll(S.view, l) || PrefAll(S.view, l) || RunAll(S.view, l, 1)
    ensures LooseAll(T, l)
  {
    OnlySame(S.view, w, r, l);
    forall i {:trigger LooseAt(T, l, i)} | 0 <= i < |l| ensures LooseAt(T, l, i) {
      assert SameAt(S.view, w, l, i);
      assert WaitAt(S.view, l, i) || PrefAt(S.view, l, i) || RunAt(S.view, l, i, 1);
      assert l[i] in Elems(l) && l[i] in l;
    }
  }

  /** Among the requests finished so far a new loss changes nothing. */
  lemma LostDone(S: Sched, w: View, r: Request, T: Sched)
    requires DoneList(S) && Only(S.view, w, r) && r !in S.finished
    requires T.view == w && T.finished == S.finished && T.finishes == S.finishes && T.lost == S.lost + {r}
    ensures DoneList(T)
  {
    OnlySame(S.view, w, r, S.finished);
    forall i {:trigger DoneAt(w, T.finished, T.finishes, T.lost, i)} | 0 <= i < |T.finished|
      ensures DoneAt(w, T.finished, T.finishes, T.lost, i)
    {
      assert DoneAt(S.view, S.finished, S.finishes, S.lost, i) && SameAt(S.view, w, S.finished, i);
      assert S.finished[i] in S.finished;
    }
  }

  lemma AscendingTail(arrivals: seq<Request>, a: seq<Request>, b: seq<Request>)
    requires Ascending(arrivals, a + b)
    ensures Ascending(arrivals, b)
  {
    forall i, j {:trigger Before(arrivals, b[i], b[j])} | 0 <= i < j < |b| ensures Before(arrivals, b[i], b[j]) {
      assert Before(arrivals, (a + b)[|a| + i], (a + b)[|a| + j]);
    }
  }

  lemma ElemsHere<X>(L: seq<X>, i: nat)
    requires i < |L|
    ensures L[i] in Elems(L[i..])
  {
    assert L[i..][0] == L[i];
  }

  lemma Regathered(arrivals: seq<Request>, a: seq<Request>, a': seq<Request>, b: seq<Request>, c: seq<Request>,
                   d: seq<Request>)
    requires Parted(arrivals, a + a', b, c, d)
    ensures Parted(arrivals, a, a' + b + c, [], d)
  {
    PartedIs(arrivals, a + a', b, c, d);
    PartedIs(arrivals, a, a' + b + c, [], d);
  }

  lemma SortFaultLists(S: Sched, L: seq<Request>, i: nat, still: seq<Request>, back: seq<Request>)
    requires i <= |L| && SortLists(S, L, i, still, back)
    ensures var flight := back + (still + L[i..]) + S.running;
      Parted(S.arrivals, S.waiting, flight, [], S.finished) && Elems(flight) == Elems(S.prefilling) + Elems(S.running)
    ensures NoDup(S.running)
    ensures Elems(back) !! Elems(S.finished) && Elems(still) !! Elems(S.finished) && Elems(L[i..]) !! Elems(S.finished)
    ensures Elems(S.running) !! Elems(S.finished)
  {
    Regathered(S.arrivals, S.waiting, back, still + L[i..], S.running, S.finished);
    PartedApart(S.arrivals, S.waiting + back, still + L[i..], S.running, S.finished);
    ElemsConcat(S.waiting, back);
    ElemsConcat(still, L[i..]);
    ElemsConcat(back, still + L[i..]);
    ElemsConcat(back + (still + L[i..]), S.running);
  }

  lemma PostLoose(S: Sched, L: seq<Request>, toks: seq<Option<int>>, i: nat)
    requires i < |L| && PostAll(S.view, L, toks, i) && Elems(L[i..]) !! S.lost
    ensures forall j {:trigger L[j]} :: i <= j < |L| ==>
      L[j] in S.view && LooseOK(L[j], S.view[L[j]], false) && L[j] !in S.lost
    ensures |S.view[L[i]].out| < L[i].maxNewTokens
  {
    forall j {:trigger L[j]} | i <= j < |L|
      ensures L[j] in S.view && LooseOK(L[j], S.view[L[j]], false) && L[j] !in S.lost
        && |S.view[L[j]].out| < L[j].maxNewTokens
    {
      assert PostAt(S.view, L, toks, j);
      assert L[j] == L[i..][j - i];
      assert L[j] in Elems(L[i..]);
    }
  }

  /** The first token of a prompt cannot be streamed: requests moved to the running list in the
      same loop are on the prefilling list as well, and only those. */
  lemma SortFault(S: Sched, L: seq<Request>, toks: seq<Option<int>>, i: nat, still: seq<Request>, back: seq<Request>,
                  lim: Limits, w: View, t: int)
    requires Sorting(S, L, toks, i, still, back, lim) && i < |L|
    requires Only(S.view, w, L[i]) && w[L[i]] == Unstreamed(S.view[L[i]], t)
    ensures Torn(S.(view := w, lost := S.lost + {L[i]}), back + (still + L[i..]) + S.running)
    ensures Elems(S.prefilling) !! Elems(S.running) <==> Elems(L) !! Elems(S.running)
  {
    var r, T := L[i], S.(view := w, lost := S.lost + {L[i]});
    SortHere(S, L, i, still, back);
    FrameLists(S.view, w, r, S.waiting, 2);
    LostDone(S, w, r, T);
    SortFaultLists(S, L, i, still, back);
    LooseOthers(S, w, r, back, T);
    LooseOthers(S, w, r, still, T);
    LooseOthers(S, w, r, S.running, T);
    PostLoose(S, L, toks, i);
    LooseRest(S, w, L, i, t, T);
    LooseConcat(T, still, L[i..]);
    LooseConcat(T, back, still + L[i..]);
    LooseConcat(T, back + (still + L[i..]), S.running);
    AscendingTail(S.arrivals, back + Flagged(S.view, L[i..]), S.waiting);
    ElemsHere(L, i);
  }

  /** A decoded token cannot be streamed. */
  lemma EmitFault(S: Sched, L: seq<Request>, i: nat, still: seq<Request>, lim: Limits, w: View, t: int)
    requires Emitting(S, L, i, still, lim) && i < |L|
    requires Only(S.view, w, L[i]) && w[L[i]] == Unstreamed(S.view[L[i]], t)
    ensures Torn(S.(view := w, lost := S.lost + {L[i]}), S.prefilling + (still + L[i..]))
    ensures Elems(S.prefilling) !! Elems(S.running)
  {
    var r, T := L[i], S.(view := w, lost := S.lost + {L[i]});
    EmitHere(S, L, i, still);
    FrameLists(S.view, w, r, S.waiting, 2);
    LostDone(S, w, r, T);
    EmitFaultLists(S, L, i, still);
    RunsWeaken(S.view, still);
    LooseOthers(S, w, r, S.prefilling, T);
    LooseOthers(S, w, r, still, T);
    FedLoose(S, L, i);
    LooseRest(S, w, L, i, t, T);
    LooseConcat(T, still, L[i..]);
    LooseConcat(T, S.prefilling, still + L[i..]);
    ElemsHere(L, i);
  }

  lemma EmitFaultLists(S: Sched, L: seq<Request>, i: nat, still: seq<Request>)
    requires i <= |L| && EmitLists(S, L, i, still)
    ensures var flight := S.prefilling + (still + L[i..]);
      Parted(S.arrivals, S.waiting, flight, [], S.finished) && Elems(flight) == Elems(S.prefilling) + Elems(S.running)
    ensures NoDup(S.prefilling) && Elems(S.prefilling) !! Elems(S.running)
    ensures Elems(still) !! Elems(S.finished) && Elems(L[i..]) !! Elems(S.finished)
      && Elems(S.prefilling) !! Elems(S.finished)
  {
    Reordered(S.arrivals, S.waiting, still + L[i..], S.prefilling, S.finished);
    Two(S.arrivals, S.waiting, S.prefilling, still + L[i..], S.finished);
    PartedApart(S.arrivals, S.waiting, still + L[i..], S.prefilling, S.finished);
    ElemsConcat(still, L[i..]);
    ElemsConcat(S.prefilling, still + L[i..]);
  }

  lemma FedLoose(S: Sched, L: seq<Request>, i: nat)
    requires i < |L| && FedAll(S.view, L, i) && Elems(L[i..]) !! S.lost
    ensures forall j {:trigger L[j]} :: i <= j < |L| ==>
      L[j] in S.view && LooseOK(L[j], S.view[L[j]], false) && L[j] !in S.lost
    ensures |S.view[L[i]].out| < L[i].maxNewTokens
  {
    forall j {:trigger L[j]} | i <= j < |L|
      ensures L[j] in S.view && LooseOK(L[j], S.view[L[j]], false) && L[j] !in S.lost
        && |S.view[L[j]].out| < L[j].maxNewTokens
    {
      assert FedAt(S.view, L, j);
      assert L[j] == L[i..][j - i];
      assert L[j] in Elems(L[i..]);
    }
  }

  // ---- `_abort_inflight_requests` ----

  /** The loop over the snapshot `all` of both lists, at entry `k`. */
  ghost predicate Aborting(S: Sched, all: seq<Request>, k: nat, flight: seq<Request>) {
    && k <= |all| && Torn(S, flight) && Elems(all) <= S.view.Keys
    && Elems(flight) <= Elems(all[k..]) <= Elems(flight) + Elems(S.finished)
  }

  lemma AbortStart(S: Sched, flight: seq<Request>)
    requires Torn(S, flight)
    ensures Aborting(S, S.prefilling + S.running, 0, flight)
  {
    var all := S.prefilling + S.running;
    Whole(all);
    ElemsConcat(S.prefilling, S.running);
    forall r {:trigger r in flight} | r in Elems(flight) ensures r in S.view {
      var i :| 0 <= i < |flight| && flight[i] == r;
      assert LooseAt(S, flight, i);
    }
  }

  lemma {:induction false} WithoutCount<X>(l: seq<X>, x: X)
    requires x in l
    ensures multiset(Without(l, x)) + multiset{x} == multiset(l)
  {
    assert l == [l[0]] + l[1..];
    if l[0] != x {
      WithoutCount(l[1..], x);
    }
  }

  lemma {:induction false} WithoutLoose(S: Sched, l: seq<Request>, x: Request)
    requires LooseAll(S, l)
    ensures LooseAll(S, Without(l, x))
  {
    if l != [] {
      forall i {:trigger LooseAt(S, l[1..], i)} | 0 <= i < |l| - 1
        ensures LooseAt(S, l[1..], i)
      {
        assert LooseAt(S, l, i + 1);
      }
      if l[0] != x {
        WithoutLoose(S, l[1..], x);
        assert LooseAt(S, l, 0);
        assert LooseAll(S, [l[0]]);
        LooseConcat(S, [l[0]], Without(l[1..], x));
      }
    }
  }

  lemma LooseFrame(S: Sched, T: Sched, l: seq<Request>, r: Request)
    requires LooseAll(S, l) && Only(S.view, T.view, r) && r !in l && T.lost == S.lost
    ensures LooseAll(T, l)
  {
    OnlySame(S.view, T.view, r, l);
    forall i {:trigger LooseAt(T, l, i)} | 0 <= i < |l| ensures LooseAt(T, l, i) {
      assert LooseAt(S, l, i) && SameAt(S.view, T.view, l, i);
    }
  }

  lemma AbortLists(S: Sched, flight: seq<Request>, r: Request)
    requires Torn(S, flight) && (r in flight || r in S.finished) && r in S.view
    ensures var T := Finished(S, r);
      && Parted(T.arrivals, T.waiting, Without(flight, r), [], T.finished)
      && NoDup(T.prefilling) && NoDup(T.running)
      && Elems(Without(flight, r)) == Elems(T.prefilling) + Elems(T.running) == Elems(flight) - {r}
      && r !in S.waiting && (r in flight ==> r !in S.finished) && NoDup(flight)
      && Elems(T.finished) == Elems(S.finished) + {r}
  {
    PartedOnce(S.arrivals, S.waiting, flight, [], S.finished, r);
    WithoutSpec(S.prefilling, r);
    WithoutSpec(S.running, r);
    WithoutSpec(flight, r);
    ElemsSnoc(S.finished, r);
    if r in flight {
      WithoutCount(flight, r);
      PartedIs(S.arrivals, S.waiting, flight, [], S.finished);
      PartedIs(S.arrivals, S.waiting, Without(flight, r), [], S.finished + [r]);
    } else {
      WithoutNone(flight, r);
      assert r in Elems(S.finished);
    }
  }

  lemma AbortStep(S: Sched, all: seq<Request>, k: nat, flight: seq<Request>)
    requires Aborting(S, all, k, flight) && k < |all|
    ensures all[k] in S.view && Aborting(Finished(S, all[k]), all, k + 1, Without(flight, all[k]))
  {
    var r := all[k];
    Head(all, k);
    assert r in Elems(all) && r in Elems(all[k..]);
    var T := Finished(S, r);
    AbortLists(S, flight, r);
    AbortLoose(S, flight, r);
    FinishDone(S, r);
    OnlyUpdate(S.view, r, T.view[r]);
    FrameLists(S.view, T.view, r, S.waiting, 2);
    WithoutLoose(S, flight, r);
    assert r !in Elems(Without(flight, r));
    LooseFrame(S, T, Without(flight, r), r);
    assert Elems(all[k..]) == {r} + Elems(all[k + 1..]);
  }

  /** The next request may be finished. */
  lemma AbortNow(S: Sched, all: seq<Request>, k: nat, flight: seq<Request>)
    requires Aborting(S, all, k, flight) && k < |all|
    ensures all[k] in S.view && |S.view[all[k]].out| <= all[k].maxNewTokens
  {
    var r := all[k];
    Head(all, k);
    assert r in Elems(all) && r in Elems(all[k..]);
    if r in flight {
      var i :| 0 <= i < |flight| && flight[i] == r;
      assert LooseAt(S, flight, i);
    } else {
      assert r in Elems(S.finished);
      var i :| 0 <= i < |S.finished| && S.finished[i] == r;
      assert DoneAt(S.view, S.finished, S.finishes, S.lost, i);
    }
  }

  lemma AbortLoose(S: Sched, flight: seq<Request>, r: Request)
    requires Torn(S, flight) && (r in flight || r in S.finished) && r in S.view
    ensures r !in S.finished ==> LooseOK(r, S.view[r], r in S.lost)
  {
    if r !in S.finished {
      var i :| 0 <= i < |flight| && flight[i] == r;
      assert LooseAt(S, flight, i);
    }
  }

  /** Afterwards nothing is in flight, and everything else is as it must be between steps. */
  lemma AbortEnd(S: Sched, all: seq<Request>, flight: seq<Request>, lim: Limits)
    requires Aborting(S, all, |all|, flight) && lim.P >= 1
    ensures Boundary(S, lim) && S.prefilling == [] && S.running == []
  {
    Whole(all);
    NoElems(flight);
    NoElems(S.prefilling);
    NoElems(S.running);
    assert PrefAll(S.view, []) && RunAll(S.view, [], 2);
  }

  lemma NoElems<X>(l: seq<X>)
    ensures Elems(l) == {} ==> l == []
  {
    if l != [] { assert l[0] in Elems(l); }
  }

  /** The clean-up finishes every request in flight exactly once if and only if no request is on
      both live lists. */
  lemma FinishOnceIff(S: Sched, flight: seq<Request>)
    requires Torn(S, flight) && NoDup(S.finishes)
    ensures NoDup(S.finishes + (S.prefilling + S.running)) <==> Elems(S.prefilling) !! Elems(S.running)
  {
    var all := S.prefilling + S.running;
    PartedApart(S.arrivals, S.waiting, flight, [], S.finished);
    ElemsConcat(S.prefilling, S.running);
    NoDupConcat(S.prefilling, S.running);
    NoDupConcat(S.finishes, all);
  }

  lemma NoDupConcat<X>(a: seq<X>, b: seq<X>)
    ensures NoDup(a + b) <==> NoDup(a) && NoDup(b) && Elems(a) !! Elems(b)
  {
    var m := a + b;
    if NoDup(a) && NoDup(b) && Elems(a) !! Elems(b) {
      forall i, j {:trigger m[i], m[j]} | 0 <= i < j < |m| ensures m[i] != m[j] {
        if i < |a| <= j {
          assert a[i] in Elems(a) && b[j - |a|] in Elems(b);
        }
      }
    }
    if NoDup(m) {
      forall i, j {:trigger a[i], a[j]} | 0 <= i < j < |a| ensures a[i] != a[j] { assert m[i] != m[j]; }
      forall i, j {:trigger b[i], b[j]} | 0 <= i < j < |b| ensures b[i] != b[j] { assert m[|a| + i] != m[|a| + j]; }
      forall x {:trigger x in Elems(a)} | x in Elems(a) ensures x !in Elems(b) {
        var i :| 0 <= i < |a| && a[i] == x;
        forall j {:trigger b[j]} | 0 <= j < |b| ensures b[j] != x { assert m[i] != m[|a| + j]; }
      }
    }
  }

  // ---- what the clients have been sent ----

  /** The stream of `r` is its outputs in order, followed by exactly one terminator if and only if
      it is finished. */
  ghost predicate ExactStream(S: Sched, r: Request)
    requires r in S.view
  {
    S.view[r].queue == Stream(S.view[r].out) + (if r in S.finished then [TERMINATOR] else [])
  }

  /** Between steps the stream of a request is exact if and only if, in case it is finished, its
      last token could be streamed and it was finished once. */
  lemma StreamExact(S: Sched, lim: Limits, r: Request)
    requires Boundary(S, lim) && r in S.arrivals
    ensures r in S.view && (S.view[r].status == FINISHED <==> r in S.finished)
    ensures ExactStream(S, r) <==>
      (r in S.finished ==> (r !in S.lost || S.view[r].out == []) && r !in Repeated(S.finishes))
  {
    TimesRepeated(S.finishes, r);
    assert r in Elems(S.arrivals);
    PartedOnce(S.arrivals, S.waiting, S.prefilling, S.running, S.finished, r);
    assert Stream(S.view[r].out) + [] == Stream(S.view[r].out) && Stream([]) == [];
    if i :| 0 <= i < |S.waiting| && S.waiting[i] == r {
      assert WaitAt(S.view, S.waiting, i);
    } else if i :| 0 <= i < |S.prefilling| && S.prefilling[i] == r {
      assert PrefAt(S.view, S.prefilling, i);
    } else if i :| 0 <= i < |S.running| && S.running[i] == r {
      assert RunAt(S.view, S.running, i, 2);
    } else {
      var i :| 0 <= i < |S.finished| && S.finished[i] == r;
      assert DoneAt(S.view, S.finished, S.finishes, S.lost, i);
      SentExact(S.view[r], r in S.lost, Times(S.finishes, r));
    }
  }

  /** Outputs, of which the last may be missing, and some terminators: exact or not. */
  lemma SentExact(s: RS, lost: bool, times: nat)
    requires times > 0
    ensures Sent(s, lost) + Ends(times) == Stream(s.out) + [TERMINATOR] <==> (!lost || s.out == []) && times == 1
  {
    var a, b := Sent(s, lost) + Ends(times), Stream(s.out) + [TERMINATOR];
    EndsNext(0);
    if lost && s.out != [] {
      assert a[|s.out| - 1] == TERMINATOR != b[|s.out| - 1];
    } else {
      assert |a| == |s.out| + times && |b| == |s.out| + 1;
    }
  }

  ghost predicate StreamsExact(S: Sched) {
    forall r {:trigger ExactStream(S, r)} :: r in S.arrivals && r in S.view ==> ExactStream(S, r)
  }

  /** While no token was lost and nobody was finished again, all streams are exact. */
  lemma QuietExact(S: Sched, lim: Limits)
    requires Boundary(S, lim) && S.lost == {} && Repeated(S.finishes) == {}
    ensures StreamsExact(S)
  {
    forall r {:trigger ExactStream(S, r)} | r in S.arrivals && r in S.view ensures ExactStream(S, r) {
      StreamExact(S, lim, r);
      TimesRepeated(S.finishes, r);
      if r in S.finished {
        assert r in Elems(S.finished);
        assert r in S.finishes;
      }
    }
  }

  // ---- a request finished twice ----

  /** Two requests have come through a prefill batch; the first has been streamed its first
      token and moved to the running list. */
  ghost function OneMoved(a: Request, b: Request): Sched {
    Sched([], [a, b], [a], [], [], [a, b], {},
          map[a := RS(RUNNING, [7], [TokenOutput(7, false)], Some(|a.inputIds|), |a.inputIds|, 0, false),
              b := RS(RUNNING, [], [], Some(|b.inputIds|), |b.inputIds|, 0, false)])
  }

  /** If the second one's token cannot be streamed, the first is on both live lists, and the
      clean-up finishes it twice. */
  lemma FinishedTwice(a: Request, b: Request, lim: Limits)
    requires a != b && Served(a) && Served(b) && a.maxNewTokens > 1 && lim.P >= 1
    requires lim.maxRunning >= 2 && a.PeakPages(lim.P) + b.PeakPages(lim.P) <= lim.numPages
    ensures Sorting(OneMoved(a, b), [a, b], [Some(7), Some(8)], 1, [], [], lim)
    ensures var S := OneMoved(a, b);
      var T := S.(view := S.view[b := Unstreamed(S.view[b], 8)], lost := {b});
      Torn(T, [] + ([] + [a, b][1..]) + [a]) && !NoDup(T.finishes + (T.prefilling + T.running))
  {
    var S, L, toks := OneMoved(a, b), [a, b], [Some(7), Some(8)];
    OneMovedSorting(a, b, lim);
    var w := S.view[b := Unstreamed(S.view[b], 8)];
    SortFault(S, L, toks, 1, [], [], lim, w, 8);
    var T := S.(view := w, lost := S.lost + {b});
    assert a in Elems(L) && a in Elems(S.running);
    FinishOnceIff(T, [] + ([] + L[1..]) + S.running);
  }

  lemma OneMovedSorting(a: Request, b: Request, lim: Limits)
    requires a != b && Served(a) && Served(b) && a.maxNewTokens > 1 && lim.P >= 1
    requires lim.maxRunning >= 2 && a.PeakPages(lim.P) + b.PeakPages(lim.P) <= lim.numPages
    ensures Sorting(OneMoved(a, b), [a, b], [Some(7), Some(8)], 1, [], [], lim)
  {
    var S, L := OneMoved(a, b), [a, b];
    Whole(L);
    OneMovedLists(a, b);
    StreamNext([], 7);
    assert RunAt(S.view, [a], 0, 1) && L[1..] == [b];
    LoadOne(a, lim.P);
    LoadOne(b, lim.P);
    assert LoadTo([], 0, lim.P) == 0;
    NoneFlagged(S.view, [b]);
  }

  lemma OneMovedLists(a: Request, b: Request)
    requires a != b
    ensures SortLists(OneMoved(a, b), [a, b], 1, [], []) && Known(OneMoved(a, b))
  {
    var L := [a, b];
    assert L[1..] == [b] && Elems(L) == {a, b} && Elems([b]) == {b} && Elems([a]) == {a};
    PartedIs(L, [] + [], [] + [b], [a], []);
    assert multiset(L) == multiset([a]) + multiset([b]);
  }
}
