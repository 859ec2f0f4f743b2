/** The parts of one paged step (scheduler.py:199-353) on values, and what each keeps. */
module SchedulerSteps {
  import opened Paging
  import opened Requests
  import opened RequestViews
  import opened SchedulerModel
  import opened Wrappers

  // ---- frames ----

  lemma OnlyIs(v: View, w: View, r: Request)
    requires Only(v, w, r)
    ensures r in w && w == v[r := w[r]]
  {
    assert w.Keys == v[r := w[r]].Keys;
    forall x {:trigger w[x]} | x in w ensures w[x] == v[r := w[r]][x] {}
  }

  ghost predicate SameAt(v: View, w: View, l: seq<Request>, i: nat)
    requires i < |l|
  {
    l[i] in v ==> l[i] in w && w[l[i]] == v[l[i]]
  }

  ghost predicate SameOn(v: View, w: View, l: seq<Request>) {
    forall i {:trigger SameAt(v, w, l, i)} :: 0 <= i < |l| ==> SameAt(v, w, l, i)
  }

  lemma OnlySame(v: View, w: View, r: Request, l: seq<Request>)
    requires Only(v, w, r) && r !in l
    ensures SameOn(v, w, l)
  {
    forall i {:trigger SameAt(v, w, l, i)} | 0 <= i < |l| ensures SameAt(v, w, l, i) {
      assert l[i] in l;
    }
  }

  lemma SameLists(v: View, w: View, l: seq<Request>, least: nat)
    requires SameOn(v, w, l)
    ensures WaitAll(v, l) ==> WaitAll(w, l)
    ensures PrefAll(v, l) ==> PrefAll(w, l)
    ensures AdmittedAll(v, l) ==> AdmittedAll(w, l)
    ensures RunAll(v, l, least) ==> RunAll(w, l, least)
  {
    forall i {:trigger SameAt(v, w, l, i)} | 0 <= i < |l|
      ensures WaitAt(v, l, i) ==> WaitAt(w, l, i)
      ensures PrefAt(v, l, i) ==> PrefAt(w, l, i)
      ensures AdmittedAt(v, l, i) ==> AdmittedAt(w, l, i)
      ensures RunAt(v, l, i, least) ==> RunAt(w, l, i, least)
    {
      assert SameAt(v, w, l, i);
    }
    forall i {:trigger WaitAt(w, l, i)} | 0 <= i < |l| && WaitAll(v, l)
      ensures WaitAt(w, l, i)
    {
      assert SameAt(v, w, l, i) && WaitAt(v, l, i);
    }
    forall i {:trigger PrefAt(w, l, i)} | 0 <= i < |l| && PrefAll(v, l)
      ensures PrefAt(w, l, i)
    {
      assert SameAt(v, w, l, i) && PrefAt(v, l, i);
    }
    forall i {:trigger AdmittedAt(w, l, i)} | 0 <= i < |l| && AdmittedAll(v, l)
      ensures AdmittedAt(w, l, i)
    {
      assert SameAt(v, w, l, i) && AdmittedAt(v, l, i);
    }
    forall i {:trigger RunAt(w, l, i, least)} | 0 <= i < |l| && RunAll(v, l, least)
      ensures RunAt(w, l, i, least)
    {
      assert SameAt(v, w, l, i) && RunAt(v, l, i, least);
    }
  }

  lemma FrameLists(v: View, w: View, r: Request, l: seq<Request>, least: nat)
    requires Only(v, w, r) && r !in l
    ensures WaitAll(v, l) ==> WaitAll(w, l)
    ensures PrefAll(v, l) ==> PrefAll(w, l)
    ensures AdmittedAll(v, l) ==> AdmittedAll(w, l)
    ensures RunAll(v, l, least) ==> RunAll(w, l, least)
  {
    OnlySame(v, w, r, l);
    SameLists(v, w, l, least);
  }

  lemma SameDone(S: Sched, w: View)
    requires DoneAll(S) && SameOn(S.view, w, S.finished)
    ensures DoneAll(S.(view := w))
  {
    forall i {:trigger DoneAt(w, S.finished, S.finishes, S.lost, i)} | 0 <= i < |S.finished|
      ensures DoneAt(w, S.finished, S.finishes, S.lost, i)
    {
      assert DoneAt(S.view, S.finished, S.finishes, S.lost, i) && SameAt(S.view, w, S.finished, i);
    }
  }

  lemma FrameDone(S: Sched, w: View, r: Request)
    requires DoneAll(S) && Only(S.view, w, r) && r !in S.finished
    ensures DoneAll(S.(view := w))
  {
    OnlySame(S.view, w, r, S.finished);
    SameDone(S, w);
  }

  lemma Head(l: seq<Request>, i: nat)
    requires i < |l|
    ensures l[i..] == [l[i]] + l[i + 1..] && l[i] in l[i..]
  {}

  lemma LoadOne(r: Request, P: nat)
    requires P >= 1
    ensures Load([r], P) == r.PeakPages(P)
  {
    assert LoadTo([r], 0, P) == 0;
  }

  lemma LoadHead(l: seq<Request>, i: nat, P: nat)
    requires P >= 1 && i < |l|
    ensures Load(l[i..], P) == l[i].PeakPages(P) + Load(l[i + 1..], P)
  {
    Head(l, i);
    LoadConcat([l[i]], l[i + 1..], P);
    LoadOne(l[i], P);
  }

  lemma LoadSnoc(l: seq<Request>, r: Request, P: nat)
    requires P >= 1
    ensures Load(l + [r], P) == Load(l, P) + r.PeakPages(P)
  {
    LoadConcat(l, [r], P);
    LoadOne(r, P);
  }

  // ---- arrivals ----

  /** Between the two lock regions of a step: `admitted` have just been taken off the queue and
      follow `pre` on the prefilling list. */
  ghost predicate Gap(S: Sched, pre: seq<Request>, admitted: seq<Request>, lim: Limits) {
    && lim.P >= 1 && Known(S) && S.prefilling == pre + admitted
    && Parted(S.arrivals, S.waiting, pre + admitted, S.running, S.finished)
    && WaitAll(S.view, S.waiting) && PrefAll(S.view, pre) && AdmittedAll(S.view, admitted)
       && RunAll(S.view, S.running, 2) && DoneAll(S)
    && Ascending(S.arrivals, admitted + S.waiting)
    && Capped(lim, |pre| + |admitted| + |S.running|, Load(pre, lim.P) + Load(admitted, lim.P) + Load(S.running, lim.P))
  }

  lemma BoundaryIsGap(S: Sched, lim: Limits)
    ensures Boundary(S, lim) <==> Gap(S, S.prefilling, [], lim)
  {
    assert S.prefilling + [] == S.prefilling && [] + S.waiting == S.waiting;
  }

  ghost function Arrived(S: Sched, r: Request, s: RS): Sched {
    S.(waiting := S.waiting + [r], arrivals := S.arrivals + [r], view := S.view[r := s])
  }

  lemma ArrivedParted(arrivals: seq<Request>, a: seq<Request>, b: seq<Request>, c: seq<Request>, d: seq<Request>,
                      r: Request)
    requires Parted(arrivals, a, b, c, d) && r !in arrivals
    ensures Parted(arrivals + [r], a + [r], b, c, d)
  {
    PartedIs(arrivals, a, b, c, d);
    PartedIs(arrivals + [r], a + [r], b, c, d);
    var all := arrivals + [r];
    forall i, j {:trigger all[i], all[j]} | 0 <= i < j < |all| ensures all[i] != all[j] {
      assert arrivals[i] in arrivals;
    }
  }

  lemma {:induction false} InArrivals(arrivals: seq<Request>, a: seq<Request>, b: seq<Request>, c: seq<Request>,
                                      d: seq<Request>, r: Request)
    requires Parted(arrivals, a, b, c, d)
    ensures r in a || r in b || r in c || r in d ==> r in arrivals
  {
    PartedOnce(arrivals, a, b, c, d, r);
  }

  lemma ArriveKeepsGap(S: Sched, pre: seq<Request>, admitted: seq<Request>, lim: Limits, r: Request, s: RS)
    requires Gap(S, pre, admitted, lim) && r !in S.view && WaitOK(r, s)
    ensures Gap(Arrived(S, r, s), pre, admitted, lim)
  {
    var T := Arrived(S, r, s);
    assert r !in Elems(S.arrivals);
    assert r !in S.arrivals;
    ArrivedParted(S.arrivals, S.waiting, pre + admitted, S.running, S.finished, r);
    ArriveViews(S, pre, admitted, r, s);
    forall x {:trigger x in admitted + S.waiting} | x in admitted + S.waiting ensures x in S.arrivals {
      InArrivals(S.arrivals, S.waiting, pre + admitted, S.running, S.finished, x);
    }
    AscendingArrive(S.arrivals, admitted + S.waiting, r);
    assert (admitted + S.waiting) + [r] == admitted + T.waiting;
  }

  /** A request may arrive between steps. */
  lemma ArriveKeepsBoundary(S: Sched, lim: Limits, r: Request, s: RS)
    requires Boundary(S, lim) && r !in S.view && WaitOK(r, s)
    ensures Boundary(Arrived(S, r, s), lim)
  {
    BoundaryIsGap(S, lim);
    ArriveKeepsGap(S, S.prefilling, [], lim, r, s);
    BoundaryIsGap(Arrived(S, r, s), lim);
  }

  lemma ArriveViews(S: Sched, pre: seq<Request>, admitted: seq<Request>, r: Request, s: RS)
    requires WaitAll(S.view, S.waiting) && PrefAll(S.view, pre) && AdmittedAll(S.view, admitted)
      && RunAll(S.view, S.running, 2) && DoneAll(S)
    requires r !in S.view && WaitOK(r, s) && Known(S)
    ensures var T := Arrived(S, r, s);
      WaitAll(T.view, T.waiting) && PrefAll(T.view, pre) && AdmittedAll(T.view, admitted)
        && RunAll(T.view, S.running, 2) && DoneAll(T) && Known(T)
  {
    var T := Arrived(S, r, s);
    assert Elems(T.arrivals) == Elems(S.arrivals) + {r};
    forall i {:trigger DoneAt(T.view, S.finished, S.finishes, S.lost, i)} | 0 <= i < |S.finished|
      ensures DoneAt(T.view, S.finished, S.finishes, S.lost, i)
    {
      assert DoneAt(S.view, S.finished, S.finishes, S.lost, i);
    }
    forall i {:trigger WaitAt(T.view, T.waiting, i)} | 0 <= i < |T.waiting| ensures WaitAt(T.view, T.waiting, i) {
      if i < |S.waiting| { assert WaitAt(S.view, S.waiting, i); }
    }
    forall i {:trigger PrefAt(T.view, pre, i)} | 0 <= i < |pre|
      ensures PrefAt(T.view, pre, i)
    {
      assert PrefAt(S.view, pre, i);
    }
    forall i {:trigger AdmittedAt(T.view, admitted, i)} | 0 <= i < |admitted|
      ensures AdmittedAt(T.view, admitted, i)
    {
      assert AdmittedAt(S.view, admitted, i);
    }
    forall i {:trigger RunAt(T.view, S.running, i, 2)} | 0 <= i < |S.running|
      ensures RunAt(T.view, S.running, i, 2)
    {
      assert RunAt(S.view, S.running, i, 2);
    }
  }

  // ---- admission (scheduler.py:208-234) ----

  /** `adm` have been popped off the queue. */
  ghost predicate Popping(S: Sched, adm: seq<Request>, lim: Limits) {
    && lim.P >= 1 && Known(S)
    && Parted(S.arrivals, S.waiting, S.prefilling + adm, S.running, S.finished)
    && WaitAll(S.view, S.waiting) && PrefAll(S.view, S.prefilling) && WaitAll(S.view, adm)
    && RunAll(S.view, S.running, 2) && DoneAll(S)
    && Ascending(S.arrivals, adm + S.waiting)
    && Capped(lim, |S.prefilling| + |adm| + |S.running|, Load(S.prefilling, lim.P) + Load(adm, lim.P) +
       Load(S.running, lim.P))
  }

  /** And the first `k` of them marked as running. */
  ghost predicate Admitting(S: Sched, adm: seq<Request>, k: nat, lim: Limits) {
    && lim.P >= 1 && Known(S) && k <= |adm|
    && Parted(S.arrivals, S.waiting, S.prefilling + adm, S.running, S.finished)
    && WaitAll(S.view, S.waiting) && PrefAll(S.view, S.prefilling) && AdmittedAll(S.view, adm[..k])
       && WaitAll(S.view, adm[k..])
    && RunAll(S.view, S.running, 2) && DoneAll(S)
    && Ascending(S.arrivals, adm + S.waiting)
    && Capped(lim, |S.prefilling| + |adm| + |S.running|, Load(S.prefilling, lim.P) + Load(adm, lim.P) +
       Load(S.running, lim.P))
  }

  lemma AdmitStart(S: Sched, lim: Limits)
    requires Boundary(S, lim)
    ensures Popping(S, [], lim)
  {
    assert S.prefilling + [] == S.prefilling && [] + S.waiting == S.waiting;
  }

  lemma PopEnd(S: Sched, adm: seq<Request>, lim: Limits)
    requires Popping(S, adm, lim)
    ensures Admitting(S, adm, 0, lim)
  {
    Whole(adm);
  }

  lemma PopParted(arrivals: seq<Request>, waiting: seq<Request>, pre: seq<Request>, adm: seq<Request>, c: seq<Request>,
                  d: seq<Request>)
    requires Parted(arrivals, waiting, pre + adm, c, d) && waiting != []
    ensures Parted(arrivals, waiting[1..], pre + (adm + [waiting[0]]), c, d)
  {
    PartedIs(arrivals, waiting, pre + adm, c, d);
    PartedIs(arrivals, waiting[1..], pre + (adm + [waiting[0]]), c, d);
    assert waiting == [waiting[0]] + waiting[1..];
    assert pre + (adm + [waiting[0]]) == (pre + adm) + [waiting[0]];
  }

  lemma PopWait(v: View, waiting: seq<Request>, adm: seq<Request>)
    requires WaitAll(v, waiting) && WaitAll(v, adm) && waiting != []
    ensures WaitAll(v, waiting[1..]) && WaitAll(v, adm + [waiting[0]])
  {
    forall i {:trigger WaitAt(v, waiting[1..], i)} | 0 <= i < |waiting| - 1 ensures WaitAt(v, waiting[1..], i) {
      assert WaitAt(v, waiting, i + 1);
    }
    forall i {:trigger WaitAt(v, adm + [waiting[0]], i)} | 0 <= i < |adm| + 1 ensures WaitAt(v, adm + [waiting[0]], i) {
      if i < |adm| { assert WaitAt(v, adm, i); } else { assert WaitAt(v, waiting, 0); }
    }
  }

  lemma Whole<X>(a: seq<X>)
    ensures a[0..] == a && a[..0] == [] && a[..|a|] == a && a[|a|..] == []
  {}

  lemma ShiftHead<X>(a: seq<X>, b: seq<X>)
    requires b != []
    ensures (a + [b[0]]) + b[1..] == a + b
  {}

  lemma PopCaps(lim: Limits, running: seq<Request>, pre: seq<Request>, adm: seq<Request>, r: Request)
    requires lim.P >= 1 && |running| + |pre| + |adm| < lim.maxRunning
    requires Load(running + pre + adm, lim.P) + r.PeakPages(lim.P) <= lim.numPages
    ensures Capped(lim, |pre| + |adm + [r]| + |running|, Load(pre, lim.P) + Load(adm + [r], lim.P) +
      Load(running, lim.P))
  {
    LoadConcat(running + pre, adm, lim.P);
    LoadConcat(running, pre, lim.P);
    LoadSnoc(adm, r, lim.P);
  }

  lemma AdmitPop(S: Sched, adm: seq<Request>, lim: Limits)
    requires Popping(S, adm, lim) && S.waiting != [] && |S.running| + |S.prefilling| + |adm| < lim.maxRunning
    requires Load(S.running + S.prefilling + adm, lim.P) + S.waiting[0].PeakPages(lim.P) <= lim.numPages
    ensures Popping(S.(waiting := S.waiting[1..]), adm + [S.waiting[0]], lim)
  {
    PopCaps(lim, S.running, S.prefilling, adm, S.waiting[0]);
    PopParted(S.arrivals, S.waiting, S.prefilling, adm, S.running, S.finished);
    PopWait(S.view, S.waiting, adm);
    ShiftHead(adm, S.waiting);
  }

  /** Marking one popped request as running. */
  lemma RunViews(v: View, w: View, adm: seq<Request>, k: nat)
    requires k < |adm| && AdmittedAll(v, adm[..k]) && WaitAll(v, adm[k..]) && adm[k] !in adm[..k]
      && adm[k] !in adm[k + 1..]
    requires Only(v, w, adm[k]) && w[adm[k]] == v[adm[k]].(status := RUNNING)
    ensures AdmittedAll(w, adm[..k + 1]) && WaitAll(w, adm[k + 1..])
  {
    FrameLists(v, w, adm[k], adm[..k], 2);
    assert WaitAt(v, adm[k..], 0);
    forall i {:trigger WaitAt(v, adm[k + 1..], i)} | 0 <= i < |adm| - k - 1 ensures WaitAt(v, adm[k + 1..], i) {
      assert WaitAt(v, adm[k..], i + 1);
    }
    FrameLists(v, w, adm[k], adm[k + 1..], 2);
    forall i {:trigger AdmittedAt(w, adm[..k + 1], i)} | 0 <= i < k + 1 ensures AdmittedAt(w, adm[..k + 1], i) {
      if i < k { assert AdmittedAt(w, adm[..k], i); }
    }
  }

  lemma NowhereElse(S: Sched, b: seq<Request>, r: Request)
    requires Parted(S.arrivals, S.waiting, b, S.running, S.finished) && r in b
    ensures r !in S.waiting && r !in S.running && r !in S.finished && NoDup(b)
  {
    PartedOnce(S.arrivals, S.waiting, b, S.running, S.finished, r);
  }

  lemma AdmitRun(S: Sched, adm: seq<Request>, k: nat, lim: Limits, w: View)
    requires Admitting(S, adm, k, lim) && k < |adm| && Only(S.view, w, adm[k])
      && w[adm[k]] == S.view[adm[k]].(status := RUNNING)
    ensures Admitting(S.(view := w), adm, k + 1, lim)
  {
    var r := adm[k];
    NowhereElse(S, S.prefilling + adm, r);
    SliceNoDup(S.prefilling, adm, k);
    RunViews(S.view, w, adm, k);
    FrameLists(S.view, w, r, S.waiting, 2);
    FrameLists(S.view, w, r, S.prefilling, 2);
    FrameLists(S.view, w, r, S.running, 2);
    FrameDone(S, w, r);
  }

  lemma SliceNoDup(p: seq<Request>, adm: seq<Request>, k: nat)
    requires NoDup(p + adm) && k < |adm|
    ensures adm[k] !in p && adm[k] !in adm[..k] && adm[k] !in adm[k + 1..]
  {
    var l := p + adm;
    assert l[|p| + k] == adm[k];
    forall i {:trigger l[i]} | 0 <= i < |l| && i != |p| + k ensures l[i] != adm[k] {}
    forall i {:trigger p[i]} | 0 <= i < |p| ensures p[i] != adm[k] { assert l[i] == p[i]; }
    forall i {:trigger adm[i]} | 0 <= i < |adm| && i != k ensures adm[i] != adm[k] { assert l[|p| + i] == adm[i]; }
  }

  lemma AdmitEnd(S: Sched, adm: seq<Request>, lim: Limits)
    requires Admitting(S, adm, |adm|, lim)
    ensures Gap(S.(prefilling := S.prefilling + adm), S.prefilling, adm, lim)
  {
    assert adm[..|adm|] == adm;
  }

  // ---- sorting out a prefill batch (scheduler.py:236-271) ----

  ghost predicate PostAt(v: View, L: seq<Request>, toks: seq<Option<int>>, j: nat)
    requires j < |L| == |toks|
  {
    L[j] in v && PostPrefill(L[j], v[L[j]], toks[j])
  }

  ghost predicate PostAll(v: View, L: seq<Request>, toks: seq<Option<int>>, i: nat) {
    |toks| == |L| && forall j {:trigger PostAt(v, L, toks, j)} :: i <= j < |L| ==> PostAt(v, L, toks, j)
  }

  /** The requests flagged for retraction. */
  ghost function Flagged(v: View, l: seq<Request>): seq<Request> {
    if l == [] then []
    else (if l[0] in v && v[l[0]].retract then [l[0]] else []) + Flagged(v, l[1..])
  }

  lemma {:induction false} FlaggedSame(v: View, w: View, l: seq<Request>)
    requires SameOn(v, w, l) && v.Keys == w.Keys
    ensures Flagged(w, l) == Flagged(v, l)
  {
    if l != [] {
      assert SameAt(v, w, l, 0);
      forall i {:trigger SameAt(v, w, l[1..], i)} | 0 <= i < |l| - 1 ensures SameAt(v, w, l[1..], i) {
        assert SameAt(v, w, l, i + 1);
      }
      FlaggedSame(v, w, l[1..]);
    }
  }

  lemma {:induction false} FlaggedAscends(arrivals: seq<Request>, v: View, p: seq<Request>, l: seq<Request>,
                                          tail: seq<Request>)
    requires Ascending(arrivals, p + l + tail)
    ensures Ascending(arrivals, p + Flagged(v, l) + tail)
    decreases |l|
  {
    if l != [] {
      Regroup(p, l, tail);
      if l[0] in v && v[l[0]].retract {
        FlaggedAscends(arrivals, v, p + [l[0]], l[1..], tail);
        assert p + Flagged(v, l) == (p + [l[0]]) + Flagged(v, l[1..]);
      } else {
        AscendingJoin(arrivals, p, l[1..] + tail, l[0]);
        FlaggedAscends(arrivals, v, p, l[1..], tail);
        assert Flagged(v, l) == Flagged(v, l[1..]);
      }
    }
  }

  lemma Regroup<X>(p: seq<X>, l: seq<X>, tail: seq<X>)
    requires l != []
    ensures p + l + tail == (p + [l[0]]) + l[1..] + tail == p + [l[0]] + (l[1..] + tail)
    ensures p + (l[1..] + tail) == p + l[1..] + tail
  {}

  /** The loop over the answers of a prefill batch, at request `i` of the snapshot `L`: `still`
      stay prefilling, `back` go back to the queue.  The live list loses finished requests only. */
  ghost predicate Sorting(S: Sched, L: seq<Request>, toks: seq<Option<int>>, i: nat, still: seq<Request>,
                          back: seq<Request>, lim: Limits)
  {
    && lim.P >= 1 && Known(S) && i <= |L| && SortLists(S, L, i, still, back)
    && WaitAll(S.view, S.waiting) && WaitAll(S.view, back) && PrefAll(S.view, still) && RunAll(S.view, S.running, 1)
       && DoneAll(S)
    && PostAll(S.view, L, toks, i)
    && Ascending(S.arrivals, back + Flagged(S.view, L[i..]) + S.waiting)
    && Capped(lim, |still| + (|L| - i) + |S.running|, Load(still, lim.P) + Load(L[i..], lim.P) + Load(S.running, lim.P))
  }

  ghost predicate SortLists(S: Sched, L: seq<Request>, i: nat, still: seq<Request>, back: seq<Request>)
    requires i <= |L|
  {
    && Parted(S.arrivals, S.waiting + back, still + L[i..], S.running, S.finished)
    && NoDup(L) && NoDup(S.prefilling) && Elems(S.prefilling) == Elems(L) - Elems(S.finished)
    && Elems(S.prefilling) + Elems(S.running) == Elems(back) + Elems(still) + Elems(L[i..]) + Elems(S.running)
  }

  /** Admitted and prefilling requests may be handed to a prefill batch. */
  lemma GapPrefillable(S: Sched, pre: seq<Request>, adm: seq<Request>, lim: Limits)
    requires Gap(S, pre, adm, lim)
    ensures NoDup(S.prefilling)
    ensures forall i {:trigger S.prefilling[i]} :: 0 <= i < |S.prefilling| ==>
      S.prefilling[i] in S.view && Prefillable(S.prefilling[i], S.view[S.prefilling[i]])
  {
    if S.prefilling != [] {
      NowhereElse(S, S.prefilling, S.prefilling[0]);
    }
    forall i {:trigger S.prefilling[i]} | 0 <= i < |S.prefilling|
      ensures S.prefilling[i] in S.view && Prefillable(S.prefilling[i], S.view[S.prefilling[i]])
    {
      if i < |pre| { assert PrefAt(S.view, pre, i); } else { assert AdmittedAt(S.view, adm, i - |pre|); }
    }
  }

  /** What a prefill batch leaves each of its requests as; older ones are never flagged. */
  lemma BatchPosts(S: Sched, pre: seq<Request>, adm: seq<Request>, lim: Limits, w: View, toks: seq<Option<int>>)
    requires Gap(S, pre, adm, lim) && BatchDone(S.prefilling, S.view, w, toks, lim.chunk)
    ensures PostAll(w, S.prefilling, toks, 0) && Flagged(w, pre) == []
  {
    var L := S.prefilling;
    forall j {:trigger PostAt(w, L, toks, j)} | 0 <= j < |L| ensures PostAt(w, L, toks, j) {
      assert Prefilled(L[j], S.view[L[j]], w[L[j]], toks[j], lim.chunk);
      if j < |pre| { assert PrefAt(S.view, pre, j); } else { assert AdmittedAt(S.view, adm, j - |pre|); }
    }
    forall j {:trigger pre[j]} | 0 <= j < |pre| ensures pre[j] in w && !w[pre[j]].retract {
      assert L[j] == pre[j] && PrefAt(S.view, pre, j);
      assert Prefilled(L[j], S.view[L[j]], w[L[j]], toks[j], lim.chunk);
    }
    NoneFlagged(w, pre);
  }

  lemma {:induction false} NoneFlagged(v: View, l: seq<Request>)
    requires forall j {:trigger l[j]} :: 0 <= j < |l| ==> l[j] in v && !v[l[j]].retract
    ensures Flagged(v, l) == []
  {
    if l != [] {
      assert !v[l[0]].retract;
      forall j {:trigger l[1..][j]} | 0 <= j < |l| - 1 ensures l[1..][j] in v && !v[l[1..][j]].retract {
        assert l[1..][j] == l[j + 1];
      }
      NoneFlagged(v, l[1..]);
    }
  }

  lemma {:induction false} FlaggedConcat(v: View, a: seq<Request>, b: seq<Request>)
    ensures Flagged(v, a + b) == Flagged(v, a) + Flagged(v, b)
    decreases |a|
  {
    if a == [] {
      assert a + b == b;
    } else {
      assert (a + b)[1..] == a[1..] + b && (a + b)[0] == a[0];
      FlaggedConcat(v, a[1..], b);
    }
  }

  lemma BatchSame(L: seq<Request>, v: View, w: View, toks: seq<Option<int>>, chunk: nat, l: seq<Request>)
    requires BatchDone(L, v, w, toks, chunk) && forall i {:trigger l[i]} :: 0 <= i < |l| ==> l[i] !in L
    ensures SameOn(v, w, l)
  {
    forall i {:trigger SameAt(v, w, l, i)} | 0 <= i < |l| ensures SameAt(v, w, l, i) {
      assert l[i] !in L;
    }
  }

  lemma NotOn(l: seq<Request>, L: seq<Request>)
    requires Elems(l) !! Elems(L)
    ensures forall i {:trigger l[i]} :: 0 <= i < |l| ==> l[i] !in L
  {
    forall i {:trigger l[i]} | 0 <= i < |l| ensures l[i] !in L {
      assert l[i] in Elems(l);
    }
  }

  /** The order of the lists does not matter. */
  lemma Reordered(arrivals: seq<Request>, a: seq<Request>, b: seq<Request>, c: seq<Request>, d: seq<Request>)
    requires Parted(arrivals, a, b, c, d)
    ensures Parted(arrivals, b, a, c, d) && Parted(arrivals, c, b, a, d) && Parted(arrivals, a, c, b, d)
  {
    PartedIs(arrivals, a, b, c, d);
    PartedIs(arrivals, b, a, c, d);
    PartedIs(arrivals, c, b, a, d);
    PartedIs(arrivals, a, c, b, d);
  }

  /** The lists of a partition have nothing in common. */
  lemma PartedApart(arrivals: seq<Request>, a: seq<Request>, b: seq<Request>, c: seq<Request>, d: seq<Request>)
    requires Parted(arrivals, a, b, c, d)
    ensures NoDup(b) && NoDup(c)
    ensures Elems(a) !! Elems(b) && Elems(c) !! Elems(b) && Elems(d) !! Elems(b) && Elems(a) !! Elems(d)
      && Elems(c) !! Elems(d)
    ensures Elems(a) !! Elems(c)
  {
    if b != [] { PartedOnce(arrivals, a, b, c, d, b[0]); }
    if c != [] { PartedOnce(arrivals, a, b, c, d, c[0]); }
    ApartPair(arrivals, a, b, c, d);
    Reordered(arrivals, a, b, c, d);
    ApartPair(arrivals, b, a, c, d);
    ApartPair(arrivals, c, b, a, d);
  }

  lemma ApartPair(arrivals: seq<Request>, a: seq<Request>, b: seq<Request>, c: seq<Request>, d: seq<Request>)
    requires Parted(arrivals, a, b, c, d)
    ensures Elems(a) !! Elems(b) && Elems(a) !! Elems(c) && Elems(a) !! Elems(d)
  {
    forall r {:trigger r in Elems(a)} | r in Elems(a) ensures r !in b && r !in c && r !in d {
      PartedOnce(arrivals, a, b, c, d, r);
    }
  }

  lemma ElemsConcat<X>(a: seq<X>, b: seq<X>)
    ensures Elems(a + b) == Elems(a) + Elems(b)
  {}

  lemma RunsWeaken(v: View, l: seq<Request>)
    requires RunAll(v, l, 2)
    ensures RunAll(v, l, 1)
  {
    forall i {:trigger RunAt(v, l, i, 1)} | 0 <= i < |l| ensures RunAt(v, l, i, 1) { assert RunAt(v, l, i, 2); }
  }

  lemma BatchElsewhere(S: Sched, L: seq<Request>, w: View, toks: seq<Option<int>>, chunk: nat)
    requires Parted(S.arrivals, S.waiting, L, S.running, S.finished) && BatchDone(L, S.view, w, toks, chunk)
    ensures SameOn(S.view, w, S.waiting) && SameOn(S.view, w, S.running) && SameOn(S.view, w, S.finished)
    ensures NoDup(L) && Elems(S.finished) !! Elems(L)
  {
    PartedApart(S.arrivals, S.waiting, L, S.running, S.finished);
    NotOn(S.waiting, L);
    NotOn(S.running, L);
    NotOn(S.finished, L);
    BatchSame(L, S.view, w, toks, chunk, S.waiting);
    BatchSame(L, S.view, w, toks, chunk, S.running);
    BatchSame(L, S.view, w, toks, chunk, S.finished);
  }

  lemma SortStart(S: Sched, pre: seq<Request>, adm: seq<Request>, lim: Limits, w: View, toks: seq<Option<int>>)
    requires Gap(S, pre, adm, lim) && BatchDone(S.prefilling, S.view, w, toks, lim.chunk)
    ensures Sorting(S.(view := w), S.prefilling, toks, 0, [], [], lim)
  {
    BatchElsewhere(S, S.prefilling, w, toks, lim.chunk);
    SameLists(S.view, w, S.waiting, 2);
    SameLists(S.view, w, S.running, 2);
    SameDone(S, w);
    RunsWeaken(w, S.running);
    BatchPosts(S, pre, adm, lim, w, toks);
    SortOrder(S, pre, adm, w);
    SortStartLists(S, S.prefilling, lim, pre, adm);
  }

  lemma SortOrder(S: Sched, pre: seq<Request>, adm: seq<Request>, w: View)
    requires Ascending(S.arrivals, adm + S.waiting) && Flagged(w, pre) == [] && S.prefilling == pre + adm
    ensures Ascending(S.arrivals, [] + Flagged(w, S.prefilling[0..]) + S.waiting)
  {
    Whole(S.prefilling);
    FlaggedConcat(w, pre, adm);
    EmptyLeft(adm, S.waiting);
    FlaggedAscends(S.arrivals, w, [], adm, S.waiting);
    assert Flagged(w, S.prefilling) == Flagged(w, adm);
  }

  lemma EmptyLeft<X>(a: seq<X>, b: seq<X>)
    ensures [] + a + b == a + b && a + [] == a
  {}

  lemma SortStartLists(S: Sched, L: seq<Request>, lim: Limits, pre: seq<Request>, adm: seq<Request>)
    requires lim.P >= 1 && L == S.prefilling == pre + adm && Parted(S.arrivals, S.waiting, L, S.running, S.finished)
      && NoDup(L)
    requires Elems(S.finished) !! Elems(L)
    requires Capped(lim, |pre| + |adm| + |S.running|, Load(pre, lim.P) + Load(adm, lim.P) + Load(S.running, lim.P))
    ensures SortLists(S, L, 0, [], [])
    ensures Capped(lim, 0 + (|L| - 0) + |S.running|, Load([], lim.P) + Load(L[0..], lim.P) + Load(S.running, lim.P))
  {
    Whole(L);
    EmptyLeft(S.waiting, []);
    EmptyLeft([], L);
    assert S.waiting + [] == S.waiting && [] + L[0..] == L;
    LoadConcat(pre, adm, lim.P);
  }

  // ---- one answer ----

  lemma SortHere(S: Sched, L: seq<Request>, i: nat, still: seq<Request>, back: seq<Request>)
    requires i < |L| && SortLists(S, L, i, still, back)
    ensures var r := L[i];
      r !in S.waiting && r !in back && r !in still && r !in L[i + 1..] && r !in S.running && r !in S.finished
        && r in S.prefilling
  {
    var r, b := L[i], still + L[i..];
    Head(L, i);
    assert b[|still|] == r;
    OnBatchOnly(S, S.waiting + back, b, r);
    assert r in L;
    assert r in Elems(L);
    assert r in Elems(S.prefilling);
    forall j {:trigger L[i + 1..][j]} | 0 <= j < |L| - i - 1 ensures L[i + 1..][j] != r {
      assert L[i + 1..][j] == L[i + 1 + j];
    }
    forall j {:trigger still[j]} | 0 <= j < |still| ensures still[j] != r {
      assert b[j] == still[j];
    }
  }

  lemma OnBatchOnly(S: Sched, a: seq<Request>, b: seq<Request>, r: Request)
    requires Parted(S.arrivals, a, b, S.running, S.finished) && r in b
    ensures r !in a && r !in S.running && r !in S.finished && NoDup(b)
  {
    PartedOnce(S.arrivals, a, b, S.running, S.finished, r);
  }

  lemma PostFrame(v: View, w: View, L: seq<Request>, toks: seq<Option<int>>, i: nat)
    requires i < |L| && PostAll(v, L, toks, i) && Only(v, w, L[i]) && L[i] !in L[i + 1..]
    ensures PostAll(w, L, toks, i + 1)
  {
    forall j {:trigger PostAt(w, L, toks, j)} | i + 1 <= j < |L| ensures PostAt(w, L, toks, j) {
      assert PostAt(v, L, toks, j) && L[j] == L[i + 1..][j - i - 1];
    }
  }

  /** Handling request `i` changes nothing about the others. */
  lemma SortFrame(S: Sched, L: seq<Request>, toks: seq<Option<int>>, i: nat, still: seq<Request>, back: seq<Request>,
                  lim: Limits, w: View)
    requires Sorting(S, L, toks, i, still, back, lim) && i < |L| && Only(S.view, w, L[i])
    ensures WaitAll(w, S.waiting) && WaitAll(w, back) && PrefAll(w, still) && RunAll(w, S.running, 1)
      && DoneAll(S.(view := w))
    ensures PostAll(w, L, toks, i + 1) && Flagged(w, L[i + 1..]) == Flagged(S.view, L[i + 1..])
  {
    var r := L[i];
    SortHere(S, L, i, still, back);
    FrameLists(S.view, w, r, S.waiting, 1);
    FrameLists(S.view, w, r, back, 1);
    FrameLists(S.view, w, r, still, 1);
    FrameLists(S.view, w, r, S.running, 1);
    FrameDone(S, w, r);
    PostFrame(S.view, w, L, toks, i);
    OnlySame(S.view, w, r, L[i + 1..]);
    FlaggedSame(S.view, w, L[i + 1..]);
  }

  lemma ShiftAt<X>(a: seq<X>, L: seq<X>, i: nat)
    requires i < |L|
    ensures a + L[i..] == (a + [L[i]]) + L[i + 1..]
  {}

  /** The request at the head of the rest goes to another list. */
  lemma MoveHead(arrivals: seq<Request>, a: seq<Request>, b: seq<Request>, L: seq<Request>, i: nat, c: seq<Request>,
                 d: seq<Request>)
    requires i < |L| && Parted(arrivals, a, b + L[i..], c, d)
    ensures Parted(arrivals, a + [L[i]], b + L[i + 1..], c, d)
    ensures Parted(arrivals, a, b + L[i + 1..], c + [L[i]], d)
    ensures Parted(arrivals, a, b + L[i + 1..], c, d + [L[i]])
  {
    PartedIs(arrivals, a, b + L[i..], c, d);
    PartedIs(arrivals, a + [L[i]], b + L[i + 1..], c, d);
    PartedIs(arrivals, a, b + L[i + 1..], c + [L[i]], d);
    PartedIs(arrivals, a, b + L[i + 1..], c, d + [L[i]]);
    Head(L, i);
    assert b + L[i..] == b + [L[i]] + L[i + 1..];
  }

  lemma WaitSnoc(v: View, l: seq<Request>, r: Request)
    requires WaitAll(v, l) && r in v && WaitOK(r, v[r])
    ensures WaitAll(v, l + [r])
  {
    forall i {:trigger WaitAt(v, l + [r], i)} | 0 <= i < |l| + 1 ensures WaitAt(v, l + [r], i) {
      if i < |l| { assert WaitAt(v, l, i); }
    }
  }

  lemma PrefSnoc(v: View, l: seq<Request>, r: Request)
    requires PrefAll(v, l) && r in v && PrefOK(r, v[r])
    ensures PrefAll(v, l + [r])
  {
    forall i {:trigger PrefAt(v, l + [r], i)} | 0 <= i < |l| + 1 ensures PrefAt(v, l + [r], i) {
      if i < |l| { assert PrefAt(v, l, i); }
    }
  }

  lemma RunSnoc(v: View, l: seq<Request>, r: Request, least: nat)
    requires RunAll(v, l, least) && r in v && RunOK(r, v[r], least)
    ensures RunAll(v, l + [r], least)
  {
    forall i {:trigger RunAt(v, l + [r], i, least)} | 0 <= i < |l| + 1 ensures RunAt(v, l + [r], i, least) {
      if i < |l| { assert RunAt(v, l, i, least); }
    }
  }

  lemma PostNext(v: View, L: seq<Request>, toks: seq<Option<int>>, i: nat)
    requires i < |L| && PostAll(v, L, toks, i)
    ensures PostAll(v, L, toks, i + 1) && L[i] in v && PostPrefill(L[i], v[L[i]], toks[i])
  {
    assert PostAt(v, L, toks, i);
  }

  lemma FlaggedHead(v: View, L: seq<Request>, i: nat)
    requires i < |L| && L[i] in v
    ensures Flagged(v, L[i..]) == (if v[L[i]].retract then [L[i]] else []) + Flagged(v, L[i + 1..])
    ensures !v[L[i]].retract ==> Flagged(v, L[i..]) == Flagged(v, L[i + 1..])
  {
    assert L[i..][0] == L[i] && L[i..][1..] == L[i + 1..];
    assert [] + Flagged(v, L[i + 1..]) == Flagged(v, L[i + 1..]);
  }

  /** Still prefilling. */
  lemma SortKeep(S: Sched, L: seq<Request>, toks: seq<Option<int>>, i: nat, still: seq<Request>, back: seq<Request>,
                 lim: Limits)
    requires Sorting(S, L, toks, i, still, back, lim) && i < |L| && L[i] in S.view && !S.view[L[i]].retract
      && toks[i].None?
    ensures Sorting(S, L, toks, i + 1, still + [L[i]], back, lim)
  {
    PostNext(S.view, L, toks, i);
    PrefSnoc(S.view, still, L[i]);
    ShiftAt(still, L, i);
    FlaggedHead(S.view, L, i);
    LoadSnoc(still, L[i], lim.P);
    LoadHead(L, i, lim.P);
  }

  lemma AssocMiddle<X>(a: seq<X>, x: X, b: seq<X>, c: seq<X>)
    ensures a + ([x] + b) + c == (a + [x]) + b + c
  {}

  /** Retracted: back to the queue. */
  lemma SortBack(S: Sched, L: seq<Request>, toks: seq<Option<int>>, i: nat, still: seq<Request>, back: seq<Request>,
                 lim: Limits, w: View)
    requires Sorting(S, L, toks, i, still, back, lim) && i < |L| && L[i] in S.view && S.view[L[i]].retract
    requires Only(S.view, w, L[i]) && w[L[i]] == S.view[L[i]].(retract := false, status := WAITING)
    ensures Sorting(S.(view := w), L, toks, i + 1, still, back + [L[i]], lim)
  {
    SortFrame(S, L, toks, i, still, back, lim, w);
    PostNext(S.view, L, toks, i);
    WaitSnoc(w, back, L[i]);
    MoveHead(S.arrivals, S.waiting + back, still, L, i, S.running, S.finished);
    assert S.waiting + (back + [L[i]]) == (S.waiting + back) + [L[i]];
    FlaggedHead(S.view, L, i);
    AssocMiddle(back, L[i], Flagged(w, L[i + 1..]), S.waiting);
    LoadHead(L, i, lim.P);
  }

  /** Prefill finished, generation goes on. */
  lemma SortMove(S: Sched, L: seq<Request>, toks: seq<Option<int>>, i: nat, still: seq<Request>, back: seq<Request>,
                 lim: Limits, w: View)
    requires Sorting(S, L, toks, i, still, back, lim) && i < |L| && L[i] in S.view && !S.view[L[i]].retract
      && toks[i].Some?
    requires Only(S.view, w, L[i]) && w[L[i]] == Tokened(S.view[L[i]], toks[i].value) && 1 < L[i].maxNewTokens
    ensures Sorting(S.(view := w, running := S.running + [L[i]]), L, toks, i + 1, still, back, lim)
  {
    SortFrame(S, L, toks, i, still, back, lim, w);
    PostNext(S.view, L, toks, i);
    StreamNext([], toks[i].value);
    RunSnoc(w, S.running, L[i], 1);
    MoveHead(S.arrivals, S.waiting + back, still, L, i, S.running, S.finished);
    FlaggedHead(S.view, L, i);
    LoadHead(L, i, lim.P);
    LoadSnoc(S.running, L[i], lim.P);
  }

  /** Finishing a request closes its stream once more. */
  lemma FinishDone(S: Sched, r: Request)
    requires DoneList(S) && r in S.view && (r !in S.finished ==> LooseOK(r, S.view[r], r in S.lost))
    ensures DoneList(Finished(S, r))
  {
    var T := Finished(S, r);
    assert Elems(T.finishes) == Elems(S.finishes) + {r} && Elems(T.finished) == Elems(S.finished) + {r};
    forall i {:trigger DoneAt(T.view, T.finished, T.finishes, T.lost, i)} | 0 <= i < |T.finished|
      ensures DoneAt(T.view, T.finished, T.finishes, T.lost, i)
    {
      FinishAt(S, r, i);
    }
  }

  lemma FinishAt(S: Sched, r: Request, i: nat)
    requires DoneList(S) && r in S.view && (r !in S.finished ==> LooseOK(r, S.view[r], r in S.lost))
    requires i < |Finished(S, r).finished|
    ensures var T := Finished(S, r); DoneAt(T.view, T.finished, T.finishes, T.lost, i)
  {
    var T := Finished(S, r);
    var x, n := T.finished[i], multiset(S.finishes)[T.finished[i]];
    if i < |S.finished| {
      assert DoneAt(S.view, S.finished, S.finishes, S.lost, i);
      EndsNext(n);
      assert Sent(S.view[x], x in S.lost) + Ends(n + 1) == (Sent(S.view[x], x in S.lost) + Ends(n)) + [TERMINATOR];
      assert multiset(T.finishes)[x] == if x == r then n + 1 else n;
    } else {
      assert x == r && r !in Elems(S.finished);
      assert r !in S.finishes;
      EndsNext(0);
      assert multiset(T.finishes)[r] == 1;
    }
  }

  lemma ElemsSnoc<X>(l: seq<X>, x: X)
    ensures Elems(l + [x]) == Elems(l) + {x}
  {}

  /** Finished with its first token. */
  lemma SortDone(S: Sched, L: seq<Request>, toks: seq<Option<int>>, i: nat, still: seq<Request>, back: seq<Request>,
                 lim: Limits, w: View)
    requires Sorting(S, L, toks, i, still, back, lim) && i < |L| && L[i] in S.view && !S.view[L[i]].retract
      && toks[i].Some?
    requires Only(S.view, w, L[i]) && w[L[i]] == Tokened(S.view[L[i]], toks[i].value)
    ensures Sorting(Finished(S.(view := w), L[i]), L, toks, i + 1, still, back, lim)
  {
    var r, S1 := L[i], S.(view := w);
    var T := Finished(S1, r);
    SortHere(S, L, i, still, back);
    PostNext(S.view, L, toks, i);
    StreamNext([], toks[i].value);
    assert r !in Elems(S.finished);
    FrameDone(S, w, r);
    FinishDone(S1, r);
    SortFrame(S, L, toks, i, still, back, lim, T.view);
    FlaggedHead(S.view, L, i);
    LoadHead(L, i, lim.P);
    FinishLists(S, L, i, still, back, T);
  }

  lemma FinishLists(S: Sched, L: seq<Request>, i: nat, still: seq<Request>, back: seq<Request>, T: Sched)
    requires i < |L| && SortLists(S, L, i, still, back)
    requires T.arrivals == S.arrivals && T.waiting == S.waiting && T.prefilling == Without(S.prefilling, L[i])
    requires T.running == Without(S.running, L[i]) && T.finished == S.finished + [L[i]]
    ensures SortLists(T, L, i + 1, still, back) && T.running == S.running
  {
    SortHere(S, L, i, still, back);
    WithoutNone(S.running, L[i]);
    WithoutSpec(S.prefilling, L[i]);
    ElemsSnoc(S.finished, L[i]);
    ElemsHead(L, i);
    MoveHead(S.arrivals, S.waiting + back, still, L, i, S.running, S.finished);
    FinishCover(S, L, i, still, back, T.prefilling);
  }

  lemma ElemsHead<X>(L: seq<X>, i: nat)
    requires i < |L|
    ensures Elems(L[i..]) == {L[i]} + Elems(L[i + 1..])
  {
    assert L[i..] == [L[i]] + L[i + 1..];
  }

  lemma FinishCover(S: Sched, L: seq<Request>, i: nat, still: seq<Request>, back: seq<Request>, left: seq<Request>)
    requires i < |L| && SortLists(S, L, i, still, back) && Elems(left) == Elems(S.prefilling) - {L[i]}
    ensures Elems(left) + Elems(S.running) == Elems(back) + Elems(still) + Elems(L[i + 1..]) + Elems(S.running)
  {
    SortHere(S, L, i, still, back);
    ElemsHead(L, i);
  }

  /** The loop is through: what stays, and what goes back to the front of the queue. */
  lemma SortEnd(S: Sched, L: seq<Request>, toks: seq<Option<int>>, still: seq<Request>, back: seq<Request>, lim: Limits)
    requires Sorting(S, L, toks, |L|, still, back, lim)
    ensures MidStep(S.(prefilling := still, waiting := back + S.waiting), lim)
  {
    Whole(L);
    assert still + [] == still && back + [] == back;
    WaitConcat(S.view, back, S.waiting);
    Swapped(S.arrivals, S.waiting, back, still, S.running, S.finished);
  }

  lemma Swapped(arrivals: seq<Request>, a: seq<Request>, a': seq<Request>, b: seq<Request>, c: seq<Request>,
                d: seq<Request>)
    requires Parted(arrivals, a + a', b, c, d)
    ensures Parted(arrivals, a' + a, b, c, d)
  {
    PartedIs(arrivals, a + a', b, c, d);
    PartedIs(arrivals, a' + a, b, c, d);
  }

  lemma WaitConcat(v: View, a: seq<Request>, b: seq<Request>)
    requires WaitAll(v, a) && WaitAll(v, b)
    ensures WaitAll(v, a + b)
  {
    forall i {:trigger WaitAt(v, a + b, i)} | 0 <= i < |a| + |b| ensures WaitAt(v, a + b, i) {
      if i < |a| { assert WaitAt(v, a, i); } else { assert WaitAt(v, b, i - |a|); }
    }
  }

  /** Between the two phases of a step. */
  ghost predicate MidStep(S: Sched, lim: Limits) {
    && lim.P >= 1 && Known(S) && Parted(S.arrivals, S.waiting, S.prefilling, S.running, S.finished)
    && WaitAll(S.view, S.waiting) && PrefAll(S.view, S.prefilling) && RunAll(S.view, S.running, 1) && DoneAll(S)
    && Ascending(S.arrivals, S.waiting)
    && Capped(lim, |S.prefilling| + |S.running|, Load(S.prefilling, lim.P) + Load(S.running, lim.P))
  }

  // ---- sorting out a decode batch (scheduler.py:293-305) ----

  /** A running request whose next token is in its pages but not yet handed out. */
  ghost predicate FedOK(r: Request, s: RS) {
    && Served(r) && s.status == RUNNING && s.queue == Stream(s.out) && !s.retract
    && 1 <= |s.out| < r.maxNewTokens && s.kv == Some(|r.inputIds| + |s.out|)
  }

  ghost predicate FedAt(v: View, L: seq<Request>, j: nat)
    requires j < |L|
  {
    L[j] in v && FedOK(L[j], v[L[j]])
  }

  ghost predicate FedAll(v: View, L: seq<Request>, i: nat) {
    forall j {:trigger FedAt(v, L, j)} :: i <= j < |L| ==> FedAt(v, L, j)
  }

  /** The loop over the answers of a decode batch, at request `i` of the snapshot `L`. */
  ghost predicate Emitting(S: Sched, L: seq<Request>, i: nat, still: seq<Request>, lim: Limits) {
    && lim.P >= 1 && Known(S) && i <= |L| && EmitLists(S, L, i, still)
    && WaitAll(S.view, S.waiting) && PrefAll(S.view, S.prefilling) && RunAll(S.view, still, 2) && DoneAll(S)
    && FedAll(S.view, L, i)
    && Ascending(S.arrivals, S.waiting)
    && Capped(lim, |S.prefilling| + |still| + (|L| - i), Load(S.prefilling, lim.P) + Load(still, lim.P) +
       Load(L[i..], lim.P))
  }

  ghost predicate EmitLists(S: Sched, L: seq<Request>, i: nat, still: seq<Request>)
    requires i <= |L|
  {
    && Parted(S.arrivals, S.waiting, still + L[i..], S.prefilling, S.finished)
    && NoDup(L) && NoDup(S.running) && Elems(S.running) == Elems(L) - Elems(S.finished) == Elems(still) + Elems(L[i..])
  }

  lemma RunningDecodable(S: Sched, lim: Limits)
    requires MidStep(S, lim)
    ensures NoDup(S.running) && DecodeAt(S.running, S.view, S.view, 0)
  {
    PartedApart(S.arrivals, S.waiting, S.prefilling, S.running, S.finished);
    forall i {:trigger S.running[i]} | 0 <= i < |S.running|
      ensures S.running[i] in S.view && Decodable(S.running[i], S.view[S.running[i]])
    {
      assert RunAt(S.view, S.running, i, 1);
    }
  }

  lemma DecodeSame(L: seq<Request>, v: View, w: View, l: seq<Request>)
    requires DecodeAt(L, v, w, |L|) && Elems(l) !! Elems(L)
    ensures SameOn(v, w, l)
  {
    NotOn(l, L);
    forall i {:trigger SameAt(v, w, l, i)} | 0 <= i < |l| ensures SameAt(v, w, l, i) {
      assert l[i] !in L;
    }
  }

  lemma EmitStart(S: Sched, lim: Limits, w: View)
    requires MidStep(S, lim) && DecodeAt(S.running, S.view, w, |S.running|)
    ensures Emitting(S.(view := w), S.running, 0, [], lim)
  {
    var L := S.running;
    PartedApart(S.arrivals, S.waiting, S.prefilling, L, S.finished);
    DecodeSame(L, S.view, w, S.waiting);
    DecodeSame(L, S.view, w, S.prefilling);
    DecodeSame(L, S.view, w, S.finished);
    SameLists(S.view, w, S.waiting, 2);
    SameLists(S.view, w, S.prefilling, 2);
    SameDone(S, w);
    forall j {:trigger FedAt(w, L, j)} | 0 <= j < |L| ensures FedAt(w, L, j) {
      assert RunAt(S.view, L, j, 1);
    }
    EmitStartLists(S, L);
  }

  lemma EmitStartLists(S: Sched, L: seq<Request>)
    requires L == S.running && Parted(S.arrivals, S.waiting, S.prefilling, L, S.finished) && NoDup(L)
      && Elems(L) !! Elems(S.finished)
    ensures EmitLists(S, L, 0, []) && L[0..] == L
  {
    Whole(L);
    assert [] + L[0..] == L;
    Reordered(S.arrivals, S.waiting, S.prefilling, L, S.finished);
  }

  lemma EmitHere(S: Sched, L: seq<Request>, i: nat, still: seq<Request>)
    requires i < |L| && EmitLists(S, L, i, still)
    ensures var r := L[i];
      r !in S.waiting && r !in still && r !in L[i + 1..] && r !in S.prefilling && r !in S.finished && r in S.running
  {
    var r, b := L[i], still + L[i..];
    Head(L, i);
    assert b[|still|] == r;
    PartedOnce(S.arrivals, S.waiting, b, S.prefilling, S.finished, r);
    assert r in b && r in L;
    assert r in Elems(L);
    assert r in Elems(S.running);
    forall j {:trigger L[i + 1..][j]} | 0 <= j < |L| - i - 1 ensures L[i + 1..][j] != r {
      assert L[i + 1..][j] == L[i + 1 + j];
    }
    forall j {:trigger still[j]} | 0 <= j < |still| ensures still[j] != r {
      assert b[j] == still[j];
    }
  }

  lemma EmitFrame(S: Sched, L: seq<Request>, i: nat, still: seq<Request>, lim: Limits, w: View)
    requires Emitting(S, L, i, still, lim) && i < |L| && Only(S.view, w, L[i])
    ensures WaitAll(w, S.waiting) && PrefAll(w, S.prefilling) && RunAll(w, still, 2) && DoneAll(S.(view := w))
    ensures FedAll(w, L, i + 1) && L[i] in S.view && FedOK(L[i], S.view[L[i]])
  {
    var r := L[i];
    EmitHere(S, L, i, still);
    FrameLists(S.view, w, r, S.waiting, 2);
    FrameLists(S.view, w, r, S.prefilling, 2);
    FrameLists(S.view, w, r, still, 2);
    FrameDone(S, w, r);
    assert FedAt(S.view, L, i);
    forall j {:trigger FedAt(w, L, j)} | i + 1 <= j < |L| ensures FedAt(w, L, j) {
      assert FedAt(S.view, L, j) && L[j] == L[i + 1..][j - i - 1];
    }
  }

  /** Generation goes on. */
  lemma EmitKeep(S: Sched, L: seq<Request>, i: nat, still: seq<Request>, lim: Limits, w: View, t: int)
    requires Emitting(S, L, i, still, lim) && i < |L| && Only(S.view, w, L[i])
    requires w[L[i]] == Tokened(S.view[L[i]], t) && |w[L[i]].out| < L[i].maxNewTokens
    ensures Emitting(S.(view := w), L, i + 1, still + [L[i]], lim)
  {
    EmitFrame(S, L, i, still, lim, w);
    StreamNext(S.view[L[i]].out, t);
    RunSnoc(w, still, L[i], 2);
    ShiftAt(still, L, i);
    LoadHead(L, i, lim.P);
    LoadSnoc(still, L[i], lim.P);
  }

  /** Finished. */
  lemma EmitDone(S: Sched, L: seq<Request>, i: nat, still: seq<Request>, lim: Limits, w: View, t: int)
    requires Emitting(S, L, i, still, lim) && i < |L| && Only(S.view, w, L[i])
    requires L[i] in S.view && w[L[i]] == Tokened(S.view[L[i]], t)
    ensures Emitting(Finished(S.(view := w), L[i]), L, i + 1, still, lim)
  {
    var r, S1 := L[i], S.(view := w);
    var T := Finished(S1, r);
    EmitHere(S, L, i, still);
    EmitFrame(S, L, i, still, lim, w);
    StreamNext(S.view[r].out, t);
    assert r !in Elems(S.finished);
    FinishDone(S1, r);
    EmitFrame(S, L, i, still, lim, T.view);
    LoadHead(L, i, lim.P);
    EmitFinishLists(S, L, i, still, T);
  }

  lemma EmitFinishLists(S: Sched, L: seq<Request>, i: nat, still: seq<Request>, T: Sched)
    requires i < |L| && EmitLists(S, L, i, still)
    requires T.arrivals == S.arrivals && T.waiting == S.waiting && T.prefilling == Without(S.prefilling, L[i])
    requires T.running == Without(S.running, L[i]) && T.finished == S.finished + [L[i]]
    ensures EmitLists(T, L, i + 1, still) && T.prefilling == S.prefilling
  {
    EmitHere(S, L, i, still);
    WithoutNone(S.prefilling, L[i]);
    WithoutSpec(S.running, L[i]);
    ElemsSnoc(S.finished, L[i]);
    MoveHead(S.arrivals, S.waiting, still, L, i, S.prefilling, S.finished);
  }

  lemma EmitEnd(S: Sched, L: seq<Request>, still: seq<Request>, lim: Limits)
    requires Emitting(S, L, |L|, still, lim)
    ensures Boundary(S.(running := still), lim)
  {
    Whole(L);
    assert still + [] == still;
    Reordered(S.arrivals, S.waiting, still, S.prefilling, S.finished);
  }

  lemma NothingRunning(S: Sched, lim: Limits)
    requires MidStep(S, lim) && S.running == []
    ensures Boundary(S, lim)
  {
    assert RunAll(S.view, [], 2);
  }

  /** Without a prefill batch the first phase changes nothing. */
  lemma NothingPrefilling(S: Sched, lim: Limits)
    requires Gap(S, S.prefilling, [], lim)
    ensures MidStep(S, lim)
  {
    BoundaryIsGap(S, lim);
    RunsWeaken(S.view, S.running);
  }

  /** The request at the head has not been finished, and its value is at hand. */
  lemma SortNow(S: Sched, L: seq<Request>, toks: seq<Option<int>>, i: nat, still: seq<Request>, back: seq<Request>,
                lim: Limits)
    requires Sorting(S, L, toks, i, still, back, lim) && i < |L|
    ensures L[i] in S.view && PostPrefill(L[i], S.view[L[i]], toks[i]) && L[i] !in S.finishes && L[i] !in S.finished
    ensures L[i] !in still && L[i] !in S.running && L[i] !in L[i + 1..]
  {
    SortHere(S, L, i, still, back);
    PostNext(S.view, L, toks, i);
    NotFinished(S, L[i]);
  }

  lemma NotFinished(S: Sched, r: Request)
    requires DoneList(S) && r !in S.finished
    ensures r !in S.finishes
  {
    assert r !in Elems(S.finished);
    assert r !in Elems(S.finishes);
  }

  lemma EmitNow(S: Sched, L: seq<Request>, i: nat, still: seq<Request>, lim: Limits)
    requires Emitting(S, L, i, still, lim) && i < |L|
    ensures L[i] in S.view && FedOK(L[i], S.view[L[i]]) && L[i] !in S.finishes && L[i] !in S.finished
    ensures L[i] !in still && L[i] !in S.prefilling && L[i] !in L[i + 1..]
  {
    EmitHere(S, L, i, still);
    assert FedAt(S.view, L, i);
    NotFinished(S, L[i]);
  }

  lemma SortKnown(S: Sched, L: seq<Request>, toks: seq<Option<int>>, lim: Limits)
    requires Sorting(S, L, toks, 0, [], [], lim)
    ensures Elems(L) <= S.view.Keys && NoDup(L) && |toks| == |L|
  {
    forall r {:trigger r in Elems(L)} | r in Elems(L) ensures r in S.view {
      var j :| 0 <= j < |L| && L[j] == r;
      assert PostAt(S.view, L, toks, j);
    }
  }

  lemma EmitKnown(S: Sched, L: seq<Request>, lim: Limits)
    requires Emitting(S, L, 0, [], lim)
    ensures Elems(L) <= S.view.Keys && NoDup(L)
  {
    forall r {:trigger r in Elems(L)} | r in Elems(L) ensures r in S.view {
      var j :| 0 <= j < |L| && L[j] == r;
      assert FedAt(S.view, L, j);
    }
  }
}
