/** The sweep of `evict` (hicache.py:219-272) as a run of rounds, and which rounds pass their node
    over, told from the cache the sweep begins with. */
module TierRun {
  import opened Paging
  import opened TreeModel
  import opened TreeOps
  import opened TreeLocks
  import opened TreeWalk
  import opened TreeEvict
  import opened PageLedger
  import opened Tiers
  import opened TierRoom
  import opened TierSweep
  import opened TierShort
  import opened Wrappers

  /** The nodes still on the heap when those of `vs` were popped. */
  ghost function Waiting(s: Two, root: RadixNode, vs: seq<RadixNode>): set<RadixNode> {
    UnlockedNodes(s.tree, s.refs, root, GPU) - (set v | v in vs)
  }

  /** Round `i`: the need is not met yet, and an oldest waiting node is tried. */
  ghost predicate RoundAt(run: seq<Two>, root: RadixNode, ages: Ages, vs: seq<RadixNode>, need: int, i: nat)
    requires i < |vs| && |run| == |vs| + 1
  {
    var heap := Waiting(run[0], root, vs[..i]);
    && vs[i] in heap && heap <= ages.Keys && (forall m {:trigger m in heap} :: m in heap ==> ages[vs[i]] <= ages[m])
    && |run[i].gpuFree| - |run[0].gpuFree| < need
    && vs[i] in run[i].tree && RoundDone(run[i], run[i + 1], root, vs[i])
  }

  /** `run` are the caches between the rounds of a sweep that tried the nodes `vs`. */
  ghost predicate SweepRun(run: seq<Two>, root: RadixNode, P: nat, locks: Locks, pin: RadixNode?, ages: Ages,
                           vs: seq<RadixNode>, need: int)
  {
    && |run| == |vs| + 1
    && (forall i {:trigger Sound(run[i], root, P, locks, pin)} :: 0 <= i < |run| ==> Sound(run[i], root, P, locks, pin))
    && (forall i {:trigger RoundAt(run, root, ages, vs, need, i)} :: 0 <= i < |vs| ==>
          RoundAt(run, root, ages, vs, need, i))
  }

  lemma RunBegins(s: Two, root: RadixNode, P: nat, locks: Locks, pin: RadixNode?, ages: Ages, need: int)
    requires Sound(s, root, P, locks, pin)
    ensures SweepRun([s], root, P, locks, pin, ages, [], need)
    ensures Waiting(s, root, []) == UnlockedNodes(s.tree, s.refs, root, GPU)
  {}

  /** One round more. */
  lemma RunMore(run: seq<Two>, u: Two, root: RadixNode, P: nat, locks: Locks, pin: RadixNode?, ages: Ages,
                vs: seq<RadixNode>, need: int, x: RadixNode)
    requires SweepRun(run, root, P, locks, pin, ages, vs, need) && Sound(u, root, P, locks, pin)
    requires var heap := Waiting(run[0], root, vs);
      x in heap && heap <= ages.Keys && (forall m {:trigger m in heap} :: m in heap ==> ages[x] <= ages[m])
    requires var t := run[|vs|];
      |t.gpuFree| - |run[0].gpuFree| < need && x in t.tree && RoundDone(t, u, root, x)
    ensures SweepRun(run + [u], root, P, locks, pin, ages, vs + [x], need)
    ensures Waiting(run[0], root, vs + [x]) == Waiting(run[0], root, vs) - {x}
  {
    var run', vs' := run + [u], vs + [x];
    forall i {:trigger Sound(run'[i], root, P, locks, pin)} | 0 <= i < |run'|
      ensures Sound(run'[i], root, P, locks, pin)
    {
      assert i < |run| ==> Sound(run[i], root, P, locks, pin);
    }
    forall i {:trigger RoundAt(run', root, ages, vs', need, i)} | 0 <= i < |vs'|
      ensures RoundAt(run', root, ages, vs', need, i)
    {
      assert vs'[..i] == vs[..i];
      if i < |vs| {
        assert RoundAt(run, root, ages, vs, need, i);
      } else {
        assert vs[..i] == vs;
      }
    }
  }

  // ---- what every sweep keeps ----

  lemma {:induction false} RunSwept(run: seq<Two>, root: RadixNode, P: nat, locks: Locks, pin: RadixNode?, ages: Ages,
                                    vs: seq<RadixNode>, need: int, k: nat)
    requires SweepRun(run, root, P, locks, pin, ages, vs, need) && k <= |vs|
    ensures Swept(run[0], run[k], root, Waiting(run[0], root, vs[..k]), |run[k].gpuFree| - |run[0].gpuFree|)
    ensures AllPassed(run[0], run[k], root, ages, Waiting(run[0], root, vs[..k]))
    ensures run[k].tree.Keys <= run[0].tree.Keys
  {
    var s := run[0];
    if k == 0 {
      assert vs[..0] == [];
      assert Waiting(s, root, []) == UnlockedNodes(s.tree, s.refs, root, GPU);
      SweptStart(s, root);
      PassStart(s, root, ages);
    } else {
      RunSwept(run, root, P, locks, pin, ages, vs, need, k - 1);
      assert RoundAt(run, root, ages, vs, need, k - 1);
      assert Sound(run[k - 1], root, P, locks, pin);
      WaitingNext(s, root, vs, k - 1);
      SweptRound(s, run[k - 1], run[k], root, P, Waiting(s, root, vs[..k - 1]),
                 |run[k - 1].gpuFree| - |s.gpuFree|, vs[k - 1]);
      RoundStays(run[k - 1], run[k], root, P, locks, pin, vs[k - 1]);
      PassRound(s, run[k - 1], run[k], root, ages, Waiting(s, root, vs[..k - 1]), vs[k - 1]);
    }
  }

  lemma WaitingNext(s: Two, root: RadixNode, vs: seq<RadixNode>, k: nat)
    requires k < |vs|
    ensures Waiting(s, root, vs[..k + 1]) == Waiting(s, root, vs[..k]) - {vs[k]}
  {
    assert vs[..k + 1] == vs[..k] + [vs[k]];
  }

  /** Nothing waiting has been moved, locked or dropped. */
  lemma RunWaits(run: seq<Two>, root: RadixNode, P: nat, locks: Locks, pin: RadixNode?, ages: Ages,
                 vs: seq<RadixNode>, need: int)
    requires SweepRun(run, root, P, locks, pin, ages, vs, need)
    ensures |run| == |vs| + 1
    ensures Waiting(run[0], root, vs) <= UnlockedNodes(run[|vs|].tree, run[|vs|].refs, root, GPU)
  {
    RunSwept(run, root, P, locks, pin, ages, vs, need, |vs|);
    assert vs[..|vs|] == vs;
  }

  /** The nodes are tried in the order of their access times. */
  lemma RunLatest(run: seq<Two>, root: RadixNode, P: nat, locks: Locks, pin: RadixNode?, ages: Ages,
                  vs: seq<RadixNode>, need: int)
    requires SweepRun(run, root, P, locks, pin, ages, vs, need)
    requires UnlockedNodes(run[0].tree, run[0].refs, root, GPU) <= ages.Keys
    ensures Latest(UnlockedNodes(run[0].tree, run[0].refs, root, GPU), Waiting(run[0], root, vs), ages)
  {
    var s, first, heap := run[0], UnlockedNodes(run[0].tree, run[0].refs, root, GPU), Waiting(run[0], root, vs);
    forall x, y {:trigger x in first, y in heap} | x in first && x !in heap && y in heap ensures ages[x] <= ages[y] {
      var i :| 0 <= i < |vs| && vs[i] == x;
      assert RoundAt(run, root, ages, vs, need, i);
      assert y in Waiting(s, root, vs[..i]);
    }
  }

  /** What a whole sweep leaves, whatever its rounds did. */
  lemma RunDone(run: seq<Two>, root: RadixNode, P: nat, locks: Locks, pin: RadixNode?, ages: Ages,
                vs: seq<RadixNode>, need: int)
    requires SweepRun(run, root, P, locks, pin, ages, vs, need)
    requires UnlockedNodes(run[0].tree, run[0].refs, root, GPU) <= ages.Keys
    requires |run[|vs|].gpuFree| - |run[0].gpuFree| >= need || Waiting(run[0], root, vs) == {}
    ensures SweepDone(run[0], run[|vs|], |run[|vs|].gpuFree| - |run[0].gpuFree|, need)
    ensures AllPassed(run[0], run[|vs|], root, ages, Waiting(run[0], root, vs))
    ensures Latest(UnlockedNodes(run[0].tree, run[0].refs, root, GPU), Waiting(run[0], root, vs), ages)
    ensures vs != [] ==> |run[|vs| - 1].gpuFree| - |run[0].gpuFree| < need
  {
    hide AllPassed, Latest;
    assert vs != [] ==> RoundAt(run, root, ages, vs, need, |vs| - 1);
    RunSwept(run, root, P, locks, pin, ages, vs, need, |vs|);
    assert vs[..|vs|] == vs && Sound(run[|vs|], root, P, locks, pin);
    SweptDone(run[0], run[|vs|], root, P, Waiting(run[0], root, vs), |run[|vs|].gpuFree| - |run[0].gpuFree|, need);
    RunLatest(run, root, P, locks, pin, ages, vs, need);
  }

  // ---- which rounds pass their node over ----

  /** While the nodes of `G` are on the GPU, `x` can neither be demoted nor dropped. */
  ghost predicate PassedOver(s: Two, G: set<RadixNode>, x: RadixNode) {
    x in s.tree && |s.tree[x].pages| > Capacity(s, G) && HeldBelow(s, G, x)
  }

  /** What the nodes `vs`, tried in this order in the cache `s`, leave on the GPU. */
  ghost function StillOnGpu(s: Two, vs: seq<RadixNode>): set<RadixNode> {
    if vs == [] then GpuNodes(s) else
      var G, v := StillOnGpu(s, vs[..|vs| - 1]), vs[|vs| - 1];
      if PassedOver(s, G, v) then G else G - {v}
  }

  /** And what they free. */
  ghost function Yield(s: Two, vs: seq<RadixNode>): nat {
    if vs == [] then 0 else
      var G, v := StillOnGpu(s, vs[..|vs| - 1]), vs[|vs| - 1];
      Yield(s, vs[..|vs| - 1]) + (if v in s.tree && !PassedOver(s, G, v) then |s.tree[v].pages| else 0)
  }

  ghost predicate PassedAt(s: Two, vs: seq<RadixNode>, i: nat)
    requires i < |vs|
  {
    PassedOver(s, StillOnGpu(s, vs[..i]), vs[i])
  }

  // ---- the caches of a run, seen from the first ----

  ghost predicate RemainsAt(s: Two, t: Two, n: RadixNode)
    requires n in t.tree
  {
    && n in s.tree && t.tree[n].path == s.tree[n].path && |t.tree[n].pages| == |s.tree[n].pages|
    && n in s.refs && n in t.refs && t.refs[n] == s.refs[n]
  }

  /** Nodes are at their places, and those gone were not locked. */
  ghost predicate Remains(s: Two, t: Two) {
    && |t.kv.cpu| == |s.kv.cpu|
    && (forall n {:trigger RemainsAt(s, t, n)} :: n in t.tree ==> RemainsAt(s, t, n))
    && (forall n {:trigger n in t.tree} :: n in s.tree && n !in t.tree ==> n in s.refs && s.refs[n] <= 0)
  }

  lemma RemainsSelf(s: Two, root: RadixNode, P: nat, locks: Locks, pin: RadixNode?)
    requires Sound(s, root, P, locks, pin)
    ensures Remains(s, s)
  {
    forall n {:trigger RemainsAt(s, s, n)} | n in s.tree ensures RemainsAt(s, s, n) {}
  }

  lemma RemainsRound(s: Two, t: Two, u: Two, root: RadixNode, x: RadixNode)
    requires Remains(s, t) && t.refs.Keys == t.tree.Keys && x in t.tree && RoundDone(t, u, root, x)
    ensures Remains(s, u)
  {
    forall n {:trigger RemainsAt(s, u, n)} | n in u.tree ensures RemainsAt(s, u, n) {
      assert RemainsAt(s, t, n);
      assert n != x ==> NodeStays(t, u, n);
    }
    forall n {:trigger n in u.tree} | n in s.tree && n !in u.tree ensures n in s.refs && s.refs[n] <= 0 {
      if n in t.tree {
        assert RemainsAt(s, t, n);
        assert LockedNodeKept(t.tree, t.refs, u.tree, u.refs, n);
      }
    }
  }

  /** The prefixes still bound have the owners they had. */
  lemma OwnerRemains(s: Two, t: Two, root: RadixNode, P: nat, p: Path)
    requires Remains(s, t) && WF(s.tree, s.own, root, P) && WF(t.tree, t.own, root, P) && p in t.own
    ensures p in s.own && s.own[p] == t.own[p]
  {
    assert OwnerOK(t.tree, t.own, p) && RemainsAt(s, t, t.own[p]);
    assert Covers(s.tree[t.own[p]], p);
  }

  /** What holds a node up is still there, and so is the node. */
  lemma HolderRemains(s: Two, t: Two, root: RadixNode, P: nat, p: Path, m: RadixNode)
    requires Remains(s, t) && WF(s.tree, s.own, root, P) && WF(t.tree, t.own, root, P)
    requires p in s.own && HoldsUp(s, GpuNodes(t), s.own[p], m)
    ensures p in t.own && t.own[p] == s.own[p] && HoldsUp(t, GpuNodes(t), s.own[p], m)
  {
    assert OwnerOK(s.tree, s.own, p);
    if s.own[p] != root {
      assert EdgeOK(s.tree, s.own[p], P);
    }
    assert m in t.tree;
    assert RemainsAt(s, t, m);
    assert p <= t.tree[m].path && p != [];
    PathOwned(t.tree, t.own, root, P, m, p);
    OwnerRemains(s, t, root, P, p);
    assert OwnerOK(t.tree, t.own, p);
    assert RemainsAt(s, t, t.own[p]);
  }

  lemma StandingRemains(s: Two, t: Two, root: RadixNode, P: nat, p: Path)
    requires Remains(s, t) && WF(s.tree, s.own, root, P) && WF(t.tree, t.own, root, P)
    ensures p in CpuStanding(t, GpuNodes(t)) <==> p in CpuStanding(s, GpuNodes(t))
  {
    var G := GpuNodes(t);
    if p in CpuStanding(t, G) {
      OwnerRemains(s, t, root, P, p);
      var m :| m in t.tree && HoldsUp(t, G, t.own[p], m);
      assert RemainsAt(s, t, m) && RemainsAt(s, t, t.own[p]);
      assert HoldsUp(s, G, s.own[p], m);
    }
    if p in CpuStanding(s, G) {
      var m :| m in s.tree && HoldsUp(s, G, s.own[p], m);
      HolderRemains(s, t, root, P, p, m);
    }
  }

  lemma CapacityRemains(s: Two, t: Two, root: RadixNode, P: nat)
    requires Remains(s, t) && WF(s.tree, s.own, root, P) && WF(t.tree, t.own, root, P)
    ensures Capacity(t, GpuNodes(t)) == Capacity(s, GpuNodes(t))
  {
    forall p: Path ensures p in CpuStanding(t, GpuNodes(t)) <==> p in CpuStanding(s, GpuNodes(t)) {
      StandingRemains(s, t, root, P, p);
    }
    assert CpuStanding(t, GpuNodes(t)) == CpuStanding(s, GpuNodes(t));
  }

  lemma HeldRemains(s: Two, t: Two, x: RadixNode)
    requires Remains(s, t) && x in t.tree
    ensures HeldBelow(t, GpuNodes(t), x) <==> HeldBelow(s, GpuNodes(t), x)
  {
    var G := GpuNodes(t);
    assert RemainsAt(s, t, x);
    if HeldBelow(t, G, x) {
      var m :| m in t.tree && m != x && HoldsUp(t, G, x, m);
      assert RemainsAt(s, t, m);
      assert HoldsUp(s, G, x, m);
    }
    if HeldBelow(s, G, x) {
      var m :| m in s.tree && m != x && HoldsUp(s, G, x, m);
      assert m in t.tree;
      assert RemainsAt(s, t, m);
      assert HoldsUp(t, G, x, m);
    }
  }

  /** The guard of a round, told from the first cache. */
  lemma GuardRemains(s: Two, t: Two, root: RadixNode, P: nat, locks: Locks, pin: RadixNode?, x: RadixNode)
    requires Remains(s, t) && Sound(s, root, P, locks, pin) && Sound(t, root, P, locks, pin) && x in t.tree
    ensures Room(t) == Capacity(s, GpuNodes(t)) && (Passes(t, x) <==> PassedOver(s, GpuNodes(t), x))
  {
    assert RemainsAt(s, t, x);
    RoomIs(t, root, P, locks, pin);
    CapacityRemains(s, t, root, P);
    HeldRemains(s, t, x);
  }

  lemma GpuRound(t: Two, u: Two, root: RadixNode, x: RadixNode)
    requires t.refs.Keys == t.tree.Keys && x in t.tree && t.tree[x].tier == GPU && RoundDone(t, u, root, x)
    ensures GpuNodes(u) == if Passes(t, x) then GpuNodes(t) else GpuNodes(t) - {x}
  {
    forall n {:trigger n in GpuNodes(u)}
      ensures n in GpuNodes(u) <==> n in GpuNodes(t) && (n == x ==> Passes(t, x))
    {
      if n in t.tree && n != x {
        assert NodeStays(t, u, n);
      }
    }
  }

  lemma MirrorStep(s: Two, t: Two, u: Two, root: RadixNode, P: nat, locks: Locks, pin: RadixNode?,
                   vs: seq<RadixNode>, k: nat)
    requires k < |vs| && Remains(s, t) && GpuNodes(t) == StillOnGpu(s, vs[..k])
    requires |t.gpuFree| == |s.gpuFree| + Yield(s, vs[..k])
    requires Sound(s, root, P, locks, pin) && Sound(t, root, P, locks, pin)
    requires vs[k] in UnlockedNodes(t.tree, t.refs, root, GPU) && RoundDone(t, u, root, vs[k])
    ensures Remains(s, u) && GpuNodes(u) == StillOnGpu(s, vs[..k + 1])
    ensures |u.gpuFree| == |s.gpuFree| + Yield(s, vs[..k + 1])
  {
    var x := vs[k];
    assert RemainsAt(s, t, x);
    GuardRemains(s, t, root, P, locks, pin, x);
    RemainsRound(s, t, u, root, x);
    GpuRound(t, u, root, x);
    assert vs[..k + 1][..k] == vs[..k] && vs[..k + 1][k] == x;
    RoundFrees(t, u, root, x);
  }

  lemma RoundFrees(t: Two, u: Two, root: RadixNode, x: RadixNode)
    requires x in t.tree && RoundDone(t, u, root, x)
    ensures |u.gpuFree| == |t.gpuFree| + (if Passes(t, x) then 0 else |t.tree[x].pages|)
  {}

  /** Which nodes are on the GPU after `k` rounds, and what these have freed. */
  lemma {:induction false} RunMirrors(run: seq<Two>, root: RadixNode, P: nat, locks: Locks, pin: RadixNode?,
                                      ages: Ages, vs: seq<RadixNode>, need: int, k: nat)
    requires SweepRun(run, root, P, locks, pin, ages, vs, need) && k <= |vs|
    ensures Remains(run[0], run[k]) && GpuNodes(run[k]) == StillOnGpu(run[0], vs[..k])
    ensures |run[k].gpuFree| == |run[0].gpuFree| + Yield(run[0], vs[..k])
  {
    hide Sound, Remains, RoundDone;
    var s := run[0];
    assert Sound(s, root, P, locks, pin);
    if k == 0 {
      assert vs[..0] == [];
      RemainsSelf(s, root, P, locks, pin);
    } else {
      var t := run[k - 1];
      RunMirrors(run, root, P, locks, pin, ages, vs, need, k - 1);
      assert RoundAt(run, root, ages, vs, need, k - 1) && Sound(t, root, P, locks, pin);
      RunSwept(run, root, P, locks, pin, ages, vs, need, k - 1);
      MirrorStep(s, t, run[k], root, P, locks, pin, vs, k - 1);
    }
  }

  /** Those of the first `k` nodes that are passed over. */
  ghost function PassedNodes(s: Two, vs: seq<RadixNode>, k: nat): set<RadixNode>
    requires k <= |vs|
  {
    if k == 0 then {} else PassedNodes(s, vs, k - 1) + (if PassedAt(s, vs, k - 1) then {vs[k - 1]} else {})
  }

  lemma {:induction false} PassedIn(s: Two, vs: seq<RadixNode>, k: nat)
    requires k <= |vs|
    ensures PassedNodes(s, vs, k) <= set v | v in vs[..k]
    ensures PassedNodes(s, vs, k) != {} <==> exists i {:trigger PassedAt(s, vs, i)} :: 0 <= i < k && PassedAt(s, vs, i)
  {
    if k > 0 {
      PassedIn(s, vs, k - 1);
      assert vs[..k] == vs[..k - 1] + [vs[k - 1]];
    }
  }

  /** After `k` rounds the unlocked nodes on the GPU are those waiting and those passed over. */
  lemma {:induction false} RunLeaves(run: seq<Two>, root: RadixNode, P: nat, locks: Locks, pin: RadixNode?,
                                     ages: Ages, vs: seq<RadixNode>, need: int, k: nat)
    requires SweepRun(run, root, P, locks, pin, ages, vs, need) && k <= |vs|
    ensures UnlockedNodes(run[k].tree, run[k].refs, root, GPU) ==
      Waiting(run[0], root, vs[..k]) + PassedNodes(run[0], vs, k)
  {
    hide Sound, Swept, Remains;
    var s := run[0];
    if k == 0 {
      assert vs[..0] == [];
    } else {
      var t, x := run[k - 1], vs[k - 1];
      RunLeaves(run, root, P, locks, pin, ages, vs, need, k - 1);
      RunMirrors(run, root, P, locks, pin, ages, vs, need, k - 1);
      assert RoundAt(run, root, ages, vs, need, k - 1);
      assert Sound(s, root, P, locks, pin) && Sound(t, root, P, locks, pin);
      GuardRemains(s, t, root, P, locks, pin, x);
      WaitingNext(s, root, vs, k - 1);
      PassedIn(s, vs, k - 1);
    }
  }

  /** What a sweep frees is told by the cache it begins with and the nodes it tries. */
  lemma RunYields(run: seq<Two>, root: RadixNode, P: nat, locks: Locks, pin: RadixNode?, ages: Ages,
                 vs: seq<RadixNode>, need: int, freed: int)
    requires SweepRun(run, root, P, locks, pin, ages, vs, need) && freed == |run[|vs|].gpuFree| - |run[0].gpuFree|
    requires freed >= need || Waiting(run[0], root, vs) == {}
    ensures freed == Yield(run[0], vs)
    ensures freed < need ==>
      (freed < |Evicts(run[0])| <==>
       exists i {:trigger PassedAt(run[0], vs, i)} :: 0 <= i < |vs| && PassedAt(run[0], vs, i))
  {
    var s, t := run[0], run[|vs|];
    RunMirrors(run, root, P, locks, pin, ages, vs, need, |vs|);
    assert vs[..|vs|] == vs;
    if freed < need {
      RunSwept(run, root, P, locks, pin, ages, vs, need, |vs|);
      RunLeaves(run, root, P, locks, pin, ages, vs, need, |vs|);
      PassedIn(s, vs, |vs|);
      assert Sound(t, root, P, locks, pin);
      EvictsIff(t, root, P);
    }
  }

  /** The nodes a sweep can be about to try, in this order. */
  ghost predicate SweepOrder(s: Two, root: RadixNode, order: seq<RadixNode>) {
    NoDup(order) && (set v | v in order) == UnlockedNodes(s.tree, s.refs, root, GPU)
  }

  lemma {:induction false} YieldGrows(s: Two, order: seq<RadixNode>, k: nat)
    requires k <= |order|
    ensures Yield(s, order[..k]) <= Yield(s, order)
    decreases |order|
  {
    if k == |order| {
      assert order[..k] == order;
    } else {
      YieldGrows(s, order[..|order| - 1], k);
      assert order[..|order| - 1][..k] == order[..k];
    }
  }

  lemma NextWaits(s: Two, root: RadixNode, vs: seq<RadixNode>, order: seq<RadixNode>)
    requires SweepOrder(s, root, order) && vs <= order && |vs| < |order|
    ensures order[|vs|] in Waiting(s, root, vs)
  {
    assert order[|vs|] in (set v | v in order);
    assert forall i {:trigger vs[i]} :: 0 <= i < |vs| ==> vs[i] == order[i] != order[|vs|];
  }

  /** A sweep that takes its nodes in the order `order` falls short of what is needed and evictable
      if and only if, told from the cache it begins with, that order yields less than is needed and
      some node of it is passed over. */
  lemma ShortIff(run: seq<Two>, root: RadixNode, P: nat, locks: Locks, pin: RadixNode?, ages: Ages,
                 vs: seq<RadixNode>, need: int, freed: int, order: seq<RadixNode>)
    requires SweepRun(run, root, P, locks, pin, ages, vs, need) && freed == |run[|vs|].gpuFree| - |run[0].gpuFree|
    requires freed >= need || Waiting(run[0], root, vs) == {}
    requires SweepOrder(run[0], root, order) && vs <= order
    ensures freed < need && freed < |Evicts(run[0])| <==>
      Yield(run[0], order) < need &&
      exists i {:trigger PassedAt(run[0], order, i)} :: 0 <= i < |order| && PassedAt(run[0], order, i)
  {
    hide RoundAt, PassedAt, Yield;
    RunYields(run, root, P, locks, pin, ages, vs, need, freed);
    if freed < need {
      if |vs| < |order| { NextWaits(run[0], root, vs, order); }
      assert vs == order;
    } else {
      YieldGrows(run[0], order, |vs|);
      assert order[..|vs|] == vs;
    }
  }

  lemma EvictsIff(t: Two, root: RadixNode, P: nat)
    requires WF(t.tree, t.own, root, P)
    ensures Evicts(t) == {} <==> UnlockedNodes(t.tree, t.refs, root, GPU) == {}
  {
    if UnlockedNodes(t.tree, t.refs, root, GPU) == {} {
      NoNodeNoPage(t.tree, t.own, root, P, t.refs, GPU);
    } else {
      var n :| n in UnlockedNodes(t.tree, t.refs, root, GPU);
      assert EdgeOK(t.tree, n, P);
      NodeEvictable(t.tree, t.own, root, P, t.refs, n, GPU);
    }
  }
}
