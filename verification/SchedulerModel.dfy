/** The paged scheduler's state on values (scheduler.py:46-118, 199-353): where every request is,
    what its client has been sent, and what each part of a step keeps. */
module SchedulerModel {
  import opened Paging
  import opened Requests
  import opened RequestViews
  import opened Wrappers

  /** The token that ends a stream. */
  const TERMINATOR := TokenOutput(-1, true)

  /** `finished` lists the requests by their first finish, `finishes` every call of
      `_finish_request`; `lost` are the requests whose last token could not be streamed. */
  datatype Sched = Sched(
    waiting: seq<Request>, prefilling: seq<Request>, running: seq<Request>,
    finished: seq<Request>, finishes: seq<Request>, arrivals: seq<Request>, lost: set<Request>, view: View)

  datatype Limits = Limits(maxRunning: nat, numPages: nat, P: nat, chunk: nat)

  // ---- streams ----

  ghost function Stream(out: seq<int>): seq<TokenOutput> {
    seq(|out|, i requires 0 <= i < |out| => TokenOutput(out[i], false))
  }

  ghost function Ends(n: nat): seq<TokenOutput> {
    seq(n, _ => TERMINATOR)
  }

  lemma StreamNext(out: seq<int>, t: int)
    ensures Stream(out + [t]) == Stream(out) + [TokenOutput(t, false)]
  {}

  lemma EndsNext(n: nat)
    ensures Ends(n + 1) == Ends(n) + [TERMINATOR]
  {}

  ghost function Elems<X>(s: seq<X>): set<X> {
    set x | x in s
  }

  // ---- one request, by the list it is on ----

  ghost predicate Served(r: Request) {
    |r.inputIds| > 0 && r.maxNewTokens > 0
  }

  ghost predicate WaitOK(r: Request, s: RS) {
    Served(r) && s.status == WAITING && s.out == [] && s.queue == [] && s.kv == None && !s.retract
  }

  ghost predicate PrefOK(r: Request, s: RS) {
    && Served(r) && s.status == RUNNING && s.out == [] && s.queue == [] && !s.retract
    && s.kv == Some(s.offset) && s.offset < |r.inputIds|
  }

  ghost predicate RunOK(r: Request, s: RS, least: nat) {
    && Served(r) && s.status == RUNNING && s.queue == Stream(s.out) && !s.retract
    && least <= |s.out| < r.maxNewTokens && s.kv == Some(|r.inputIds| + |s.out| - 1)
  }

  /** What was streamed: all outputs, or all but the last. */
  ghost function Sent(s: RS, lost: bool): seq<TokenOutput> {
    Stream(if lost && s.out != [] then s.out[..|s.out| - 1] else s.out)
  }

  ghost predicate DoneOK(r: Request, s: RS, times: nat, lost: bool) {
    && s.status == FINISHED && s.kv == None && |s.out| <= r.maxNewTokens
    && times > 0 && s.queue == Sent(s, lost) + Ends(times)
  }

  /** Just admitted: running, nothing done yet. */
  ghost predicate AdmittedOK(r: Request, s: RS) {
    Served(r) && s.status == RUNNING && s.out == [] && s.queue == [] && s.kv == None && !s.retract
  }

  /** After a prefill batch, which answered `tok`. */
  ghost predicate PostPrefill(r: Request, s: RS, tok: Option<int>) {
    && Served(r) && s.status == RUNNING && s.out == [] && s.queue == []
    && (if s.retract then tok.None? && s.kv == None
        else s.kv == Some(s.offset) && s.offset <= |r.inputIds| && (tok.Some? <==> s.offset == |r.inputIds|))
  }

  /** What can be said of a request in flight when a step is broken off. */
  ghost predicate LooseOK(r: Request, s: RS, lost: bool) {
    |s.out| <= r.maxNewTokens && s.queue == Sent(s, lost)
  }

  // ---- lists of them ----

  ghost predicate WaitAt(v: View, l: seq<Request>, i: nat)
    requires i < |l|
  {
    l[i] in v && WaitOK(l[i], v[l[i]])
  }

  ghost predicate WaitAll(v: View, l: seq<Request>) {
    forall i {:trigger WaitAt(v, l, i)} :: 0 <= i < |l| ==> WaitAt(v, l, i)
  }

  ghost predicate PrefAt(v: View, l: seq<Request>, i: nat)
    requires i < |l|
  {
    l[i] in v && PrefOK(l[i], v[l[i]])
  }

  ghost predicate PrefAll(v: View, l: seq<Request>) {
    forall i {:trigger PrefAt(v, l, i)} :: 0 <= i < |l| ==> PrefAt(v, l, i)
  }

  ghost predicate AdmittedAt(v: View, l: seq<Request>, i: nat)
    requires i < |l|
  {
    l[i] in v && AdmittedOK(l[i], v[l[i]])
  }

  ghost predicate AdmittedAll(v: View, l: seq<Request>) {
    forall i {:trigger AdmittedAt(v, l, i)} :: 0 <= i < |l| ==> AdmittedAt(v, l, i)
  }

  ghost predicate RunAt(v: View, l: seq<Request>, i: nat, least: nat)
    requires i < |l|
  {
    l[i] in v && RunOK(l[i], v[l[i]], least)
  }

  ghost predicate RunAll(v: View, l: seq<Request>, least: nat) {
    forall i {:trigger RunAt(v, l, i, least)} :: 0 <= i < |l| ==> RunAt(v, l, i, least)
  }

  ghost predicate LooseAt(S: Sched, l: seq<Request>, i: nat)
    requires i < |l|
  {
    l[i] in S.view && LooseOK(l[i], S.view[l[i]], l[i] in S.lost)
  }

  ghost predicate LooseAll(S: Sched, l: seq<Request>) {
    forall i {:trigger LooseAt(S, l, i)} :: 0 <= i < |l| ==> LooseAt(S, l, i)
  }

  ghost predicate DoneAt(v: View, finished: seq<Request>, finishes: seq<Request>, lost: set<Request>, i: nat)
    requires i < |finished|
  {
    var r := finished[i];
    r in v && DoneOK(r, v[r], multiset(finishes)[r], r in lost)
  }

  /** Finished requests: their streams are closed, once per finish. */
  ghost predicate DoneList(S: Sched) {
    && (forall i {:trigger DoneAt(S.view, S.finished, S.finishes, S.lost, i)} :: 0 <= i < |S.finished| ==>
          DoneAt(S.view, S.finished, S.finishes, S.lost, i))
    && Elems(S.finishes) == Elems(S.finished)
  }

  ghost predicate DoneAll(S: Sched) {
    DoneList(S) && S.lost <= Elems(S.finished)
  }

  /** `total_generated_tokens`, from the finishes. */
  ghost function Outputs(v: View, l: seq<Request>): nat {
    if l == [] then 0 else Outputs(v, l[..|l| - 1]) + (if l[|l| - 1] in v then |v[l[|l| - 1]].out| else 0)
  }

  lemma {:induction false} OutputsSame(v: View, w: View, l: seq<Request>)
    requires forall i {:trigger l[i]} :: 0 <= i < |l| ==> l[i] in v && l[i] in w && w[l[i]].out == v[l[i]].out
    ensures Outputs(w, l) == Outputs(v, l)
  {
    if l != [] {
      assert l[|l| - 1] in v;
      forall i {:trigger l[..|l| - 1][i]} | 0 <= i < |l| - 1 ensures l[..|l| - 1][i] == l[i] {}
      OutputsSame(v, w, l[..|l| - 1]);
    }
  }

  // ---- the partition ----

  ghost function Times(l: seq<Request>, r: Request): nat {
    multiset(l)[r]
  }

  /** `r` is on the lists as often as it has arrived. */
  ghost predicate CountedAt(arrivals: seq<Request>, a: seq<Request>, b: seq<Request>, c: seq<Request>, d: seq<Request>,
                            r: Request)
  {
    Times(a, r) + Times(b, r) + Times(c, r) + Times(d, r) == Times(arrivals, r)
  }

  ghost function Everyone(arrivals: seq<Request>, a: seq<Request>, b: seq<Request>, c: seq<Request>,
                          d: seq<Request>): set<Request>
  {
    Elems(arrivals) + Elems(a) + Elems(b) + Elems(c) + Elems(d)
  }

  /** Every request ever enqueued is on exactly one of the lists given, once. */
  ghost predicate Parted(arrivals: seq<Request>, a: seq<Request>, b: seq<Request>, c: seq<Request>, d: seq<Request>) {
    NoDup(arrivals) &&
    forall r {:trigger CountedAt(arrivals, a, b, c, d, r)} :: r in Everyone(arrivals, a, b, c, d) ==>
      CountedAt(arrivals, a, b, c, d, r)
  }

  /** The same, for all at once. */
  lemma PartedIs(arrivals: seq<Request>, a: seq<Request>, b: seq<Request>, c: seq<Request>, d: seq<Request>)
    ensures Parted(arrivals, a, b, c, d) <==>
      NoDup(arrivals) && multiset(a) + multiset(b) + multiset(c) + multiset(d) == multiset(arrivals)
  {
    var m, n := multiset(a) + multiset(b) + multiset(c) + multiset(d), multiset(arrivals);
    if Parted(arrivals, a, b, c, d) {
      forall r {:trigger m[r]} ensures m[r] == n[r] {
        if r in Everyone(arrivals, a, b, c, d) {
          assert CountedAt(arrivals, a, b, c, d, r);
        } else {
          NotThere(arrivals, r);
          NotThere(a, r);
          NotThere(b, r);
          NotThere(c, r);
          NotThere(d, r);
        }
      }
      assert m == n;
    }
    if m == n && NoDup(arrivals) {
      forall r {:trigger CountedAt(arrivals, a, b, c, d, r)} | r in Everyone(arrivals, a, b, c, d)
        ensures CountedAt(arrivals, a, b, c, d, r)
      {
        assert m[r] == n[r];
      }
    }
  }

  lemma NotThere(l: seq<Request>, r: Request)
    requires r !in Elems(l)
    ensures multiset(l)[r] == 0
  {
    assert r !in l;
  }

  lemma NoDupCount<X>(s: seq<X>, x: X)
    requires NoDup(s)
    ensures multiset(s)[x] <= 1
  {
    if x in s {
      var i :| 0 <= i < |s| && s[i] == x;
      assert s == s[..i] + [x] + s[i + 1..];
      assert x !in s[..i] && x !in s[i + 1..];
    }
  }

  lemma CountNoDup<X>(s: seq<X>, m: multiset<X>)
    requires multiset(s) <= m && forall x {:trigger m[x]} :: m[x] <= 1
    ensures NoDup(s)
  {
    forall i, j {:trigger s[i], s[j]} | 0 <= i < j < |s| ensures s[i] != s[j] {
      assert s == s[..i] + [s[i]] + s[i + 1..];
      assert s[j] == s[i + 1..][j - i - 1];
      assert multiset(s)[s[i]] <= m[s[i]] <= 1;
    }
  }

  ghost function In(r: Request, l: seq<Request>): nat {
    if r in l then 1 else 0
  }

  /** Exactly one place: the lists have no repetitions and nothing in common. */
  lemma PartedOnce(arrivals: seq<Request>, a: seq<Request>, b: seq<Request>, c: seq<Request>, d: seq<Request>,
                   r: Request)
    requires Parted(arrivals, a, b, c, d)
    ensures NoDup(a) && NoDup(b) && NoDup(c) && NoDup(d)
    ensures In(r, a) + In(r, b) + In(r, c) + In(r, d) == In(r, arrivals)
  {
    PartedIs(arrivals, a, b, c, d);
    var m := multiset(arrivals);
    forall x {:trigger m[x]} ensures m[x] <= 1 {
      NoDupCount(arrivals, x);
    }
    CountNoDup(a, m);
    CountNoDup(b, m);
    CountNoDup(c, m);
    CountNoDup(d, m);
    assert m[r] <= 1;
    assert m[r] == multiset(a)[r] + multiset(b)[r] + multiset(c)[r] + multiset(d)[r];
  }

  // ---- arrival order ----

  ghost predicate Before(arrivals: seq<Request>, a: Request, b: Request) {
    exists i, j {:trigger arrivals[i], arrivals[j]} :: 0 <= i < j < |arrivals| && arrivals[i] == a && arrivals[j] == b
  }

  ghost predicate Ascending(arrivals: seq<Request>, l: seq<Request>) {
    forall i, j {:trigger Before(arrivals, l[i], l[j])} :: 0 <= i < j < |l| ==> Before(arrivals, l[i], l[j])
  }

  lemma AscendingJoin(arrivals: seq<Request>, a: seq<Request>, b: seq<Request>, x: Request)
    requires Ascending(arrivals, a + [x] + b)
    ensures Ascending(arrivals, a + b)
  {
    var l, m := a + b, a + [x] + b;
    forall i, j {:trigger Before(arrivals, l[i], l[j])} | 0 <= i < j < |l| ensures Before(arrivals, l[i], l[j]) {
      var i', j' := if i < |a| then i else i + 1, if j < |a| then j else j + 1;
      assert l[i] == m[i'] && l[j] == m[j'];
      assert Before(arrivals, m[i'], m[j']);
    }
  }

  lemma AscendingArrive(arrivals: seq<Request>, l: seq<Request>, r: Request)
    requires Ascending(arrivals, l) && forall x {:trigger x in l} :: x in l ==> x in arrivals
    ensures Ascending(arrivals + [r], l + [r])
  {
    var m, all := l + [r], arrivals + [r];
    forall i, j {:trigger Before(all, m[i], m[j])} | 0 <= i < j < |m| ensures Before(all, m[i], m[j]) {
      if j < |l| {
        assert Before(arrivals, l[i], l[j]);
        var a, b :| 0 <= a < b < |arrivals| && arrivals[a] == l[i] && arrivals[b] == l[j];
        assert all[a] == m[i] && all[b] == m[j];
      } else {
        assert l[i] in l && l[i] in arrivals;
        var a :| 0 <= a < |arrivals| && arrivals[a] == l[i];
        assert all[a] == m[i] && all[|arrivals|] == r;
      }
    }
  }

  // ---- what holds between steps ----

  ghost predicate Known(S: Sched) {
    S.view.Keys == Elems(S.arrivals)
  }

  ghost predicate Capped(lim: Limits, count: nat, load: nat) {
    count <= lim.maxRunning && load <= lim.numPages
  }

  ghost predicate Boundary(S: Sched, lim: Limits) {
    && lim.P >= 1 && Known(S) && Parted(S.arrivals, S.waiting, S.prefilling, S.running, S.finished)
    && WaitAll(S.view, S.waiting) && PrefAll(S.view, S.prefilling) && RunAll(S.view, S.running, 2) && DoneAll(S)
    && Ascending(S.arrivals, S.waiting)
    && Capped(lim, |S.prefilling| + |S.running|, Load(S.prefilling, lim.P) + Load(S.running, lim.P))
  }

  // ---- what happens to one request ----

  /** One more output token, streamed. */
  ghost function Tokened(s: RS, t: int): RS {
    s.(out := s.out + [t], queue := s.queue + [TokenOutput(t, false)])
  }

  /** `_finish_request` */
  ghost function Ended(s: RS): RS {
    s.(status := FINISHED, kv := None, queue := s.queue + [TERMINATOR])
  }

  /** `list.remove` */
  function Without<X(==)>(l: seq<X>, x: X): seq<X> {
    if l == [] then [] else if l[0] == x then l[1..] else [l[0]] + Without(l[1..], x)
  }

  lemma {:induction false} WithoutSpec<X>(l: seq<X>, x: X)
    requires NoDup(l)
    ensures NoDup(Without(l, x)) && Elems(Without(l, x)) == Elems(l) - {x}
  {
    if l != [] {
      forall i, j {:trigger l[1..][i], l[1..][j]} | 0 <= i < j < |l| - 1 ensures l[1..][i] != l[1..][j] {
        assert l[1..][i] == l[i + 1] && l[1..][j] == l[j + 1];
      }
      assert l == [l[0]] + l[1..];
      forall i {:trigger l[1..][i]} | 0 <= i < |l| - 1 ensures l[1..][i] != l[0] {
        assert l[1..][i] == l[i + 1];
      }
      if l[0] != x {
        WithoutSpec(l[1..], x);
        assert l[0] in Elems(l) && l[0] !in Elems(l[1..]);
        ConsNoDup(l[0], Without(l[1..], x));
      }
    }
  }

  lemma {:induction false} WithoutNone<X>(l: seq<X>, x: X)
    requires x !in l
    ensures Without(l, x) == l
  {
    if l != [] {
      assert l == [l[0]] + l[1..];
      WithoutNone(l[1..], x);
    }
  }

  lemma ConsNoDup<X>(x: X, l: seq<X>)
    requires NoDup(l) && x !in Elems(l)
    ensures NoDup([x] + l) && Elems([x] + l) == {x} + Elems(l)
  {
    var m := [x] + l;
    forall i, j {:trigger m[i], m[j]} | 0 <= i < j < |m| ensures m[i] != m[j] {
      assert m[j] == l[j - 1] && l[j - 1] in Elems(l);
      if i > 0 { assert m[i] == l[i - 1]; }
    }
  }

  /** The state after `_finish_request(r)`. */
  ghost function Finished(S: Sched, r: Request): Sched
    requires r in S.view
  {
    S.(prefilling := Without(S.prefilling, r), running := Without(S.running, r),
       finished := if r in S.finished then S.finished else S.finished + [r], finishes := S.finishes + [r],
       view := S.view[r := Ended(S.view[r])])
  }

  // ---- who was given which token ----

  ghost predicate SameOuts(v: View, w: View) {
    w.Keys == v.Keys && forall x {:trigger w[x]} :: x in v ==> w[x].out == v[x].out
  }

  lemma FinishedOuts(S: Sched, r: Request)
    requires r in S.view
    ensures SameOuts(S.view, Finished(S, r).view)
  {}

  /** The tokens of a decode batch: everybody has one. */
  ghost function Certain(toks: seq<int>): seq<Option<int>> {
    seq(|toks|, i requires 0 <= i < |toks| => Some(toks[i]))
  }

  /** Only the outputs of `r` changed: by the token `t`, if there is one. */
  ghost predicate Gave(v: View, w: View, r: Request, t: Option<int>) {
    && r in v && w.Keys == v.Keys && w[r].out == v[r].out + (if t.Some? then [t.value] else [])
    && forall x {:trigger w[x]} :: x in v && x != r ==> w[x].out == v[x].out
  }

  lemma GaveThen(v: View, m: View, w: View, r: Request, t: Option<int>)
    requires Gave(v, m, r, t) && SameOuts(m, w)
    ensures Gave(v, w, r, t)
  {}

  ghost predicate GivenAt(v: View, w: View, l: seq<Request>, toks: seq<Option<int>>, i: nat, j: nat)
    requires j < |l|
  {
    && l[j] in v && l[j] in w
    && w[l[j]].out == v[l[j]].out + (if j < i && j < |toks| && toks[j].Some? then [toks[j].value] else [])
  }

  /** The first `i` requests of `l` have been given their own tokens, and nobody else anything. */
  ghost predicate Given(v: View, w: View, l: seq<Request>, toks: seq<Option<int>>, i: nat) {
    && w.Keys == v.Keys
    && (forall j {:trigger GivenAt(v, w, l, toks, i, j)} :: 0 <= j < |l| ==> GivenAt(v, w, l, toks, i, j))
    && forall x {:trigger w[x]} :: x in v && x !in l ==> w[x].out == v[x].out
  }

  lemma GivenStart(v: View, l: seq<Request>, toks: seq<Option<int>>)
    requires Elems(l) <= v.Keys
    ensures Given(v, v, l, toks, 0)
  {
    forall j {:trigger GivenAt(v, v, l, toks, 0, j)} | 0 <= j < |l| ensures GivenAt(v, v, l, toks, 0, j) {
      assert l[j] in Elems(l);
    }
  }

  lemma GivenStep(v: View, w: View, w': View, l: seq<Request>, toks: seq<Option<int>>, i: nat)
    requires Given(v, w, l, toks, i) && NoDup(l) && i < |l| && i < |toks| && Gave(w, w', l[i], toks[i])
    ensures Given(v, w', l, toks, i + 1)
  {
    assert l[i] in l;
    forall j {:trigger GivenAt(v, w', l, toks, i + 1, j)} | 0 <= j < |l| ensures GivenAt(v, w', l, toks, i + 1, j) {
      assert GivenAt(v, w, l, toks, i, j);
      assert j != i ==> l[j] != l[i];
    }
  }

  // ---- who was finished how often ----

  lemma ElemsMore(l: seq<Request>, r: Request)
    ensures Elems(l + [r]) == Elems(l) + {r}
  {}

  /** Who occurs in a list once more after his first time. */
  ghost function Repeated(l: seq<Request>): set<Request> {
    if l == [] then {} else
      var k := |l| - 1;
      Repeated(l[..k]) + (if l[k] in l[..k] then {l[k]} else {})
  }

  /** Of two lists without repeats put together, who is on both. */
  lemma {:induction false} RepeatedConcat(a: seq<Request>, b: seq<Request>)
    requires NoDup(a) && NoDup(b)
    ensures Repeated(a + b) == Elems(a) * Elems(b)
    decreases |a| + |b|
  {
    if b != [] {
      var k := |b| - 1;
      RepeatedConcat(a, b[..k]);
      assert (a + b)[..|a| + k] == a + b[..k];
      assert b == b[..k] + [b[k]];
      ElemsMore(b[..k], b[k]);
      assert b[k] !in b[..k];
    } else if a != [] {
      var k := |a| - 1;
      RepeatedConcat(a[..k], b);
      assert (a + b)[..k] == a[..k] + b;
      assert a[k] !in a[..k];
    }
  }

  lemma RepeatedMore(l: seq<Request>, r: Request)
    ensures Repeated(l + [r]) == Repeated(l) + (if r in l then {r} else {})
  {
    assert (l + [r])[..|l|] == l;
  }

  lemma {:induction false} TimesRepeated(l: seq<Request>, r: Request)
    ensures r in Repeated(l) <==> Times(l, r) > 1
  {
    if l != [] {
      var k := |l| - 1;
      TimesRepeated(l[..k], r);
      assert l == l[..k] + [l[k]];
      assert multiset(l)[r] == multiset(l[..k])[r] + multiset{l[k]}[r];
    }
  }

  /** Two lists with nobody in common. */
  lemma {:induction false} RepeatedApart(a: seq<Request>, b: seq<Request>)
    requires Elems(a) !! Elems(b)
    ensures Repeated(a + b) == Repeated(a) + Repeated(b)
    decreases |b|
  {
    if b == [] {
      assert a + b == a;
    } else {
      var k := |b| - 1;
      assert b == b[..k] + [b[k]];
      ElemsMore(b[..k], b[k]);
      RepeatedApart(a, b[..k]);
      assert (a + b)[..|a| + k] == a + b[..k];
      assert b[k] in Elems(b) && b[k] !in a;
    }
  }

  /** What interrupted a step: an engine call, or a token of `r` that could not be streamed. */
  datatype Fault = NoFault | InEngine | InStream(r: Request)

  ghost predicate FaultIs(l: set<Request>, l': set<Request>, raised: bool, fault: Fault) {
    match fault
    case NoFault => !raised && l' == l
    case InEngine => raised && l' == l
    case InStream(r) => raised && l' == l + {r}
  }

  ghost predicate LostOne(l: set<Request>, l': set<Request>, L: seq<Request>) {
    exists r {:trigger r in L} :: r in L && l' == l + {r}
  }

  /** No fault was a token lost in streaming. */
  ghost predicate Streamed(faults: seq<Fault>) {
    forall i {:trigger faults[i]} :: 0 <= i < |faults| ==> !faults[i].InStream?
  }

  lemma StreamedMore(faults: seq<Fault>, fault: Fault)
    ensures Streamed(faults + [fault]) <==> Streamed(faults) && !fault.InStream?
  {
    var more := faults + [fault];
    assert more[|faults|] == fault;
    assert forall i {:trigger faults[i]} :: 0 <= i < |faults| ==> more[i] == faults[i];
  }
}
