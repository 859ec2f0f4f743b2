/** Whole runs of the prefix cache, seen from outside: the map from prefixes to pages and the
    paths that are locked.  The main result is borrow safety (engine.py:650-658): while a
    request holds its lock, every page it matched stays bound at the same prefix, whatever
    insertions, splits and evictions happen meanwhile. */
module CacheRuns {
  import opened Paging
  import opened TreeModel
  import opened TreeOps
  import opened TreeLocks
  import opened TreeEvict

  datatype Cache = Cache(bind: map<Path, int>, held: map<object, Path>)

  datatype Event =
    | Insertion(q: Path, pages: seq<int>)
    | Eviction(gone: seq<Path>, freed: seq<int>)
    | Lock(h: object, p: Path)
    | Unlock(h: object)

  /** `p` lies on a locked path. */
  ghost predicate Protected(held: map<object, Path>, h: object, p: Path) {
    h in held && p <= held[h]
  }

  ghost predicate Step(a: Cache, e: Event, b: Cache) {
    match e
    case Insertion(q, pages) =>
      |q| <= |pages| && b.bind == Insert(a.bind, q, pages) && b.held == a.held
    case Eviction(gone, freed) =>
      && Unbound(a.bind, b.bind, gone, freed) && b.held == a.held
      && forall p, h {:trigger p in gone, Protected(a.held, h, p)} :: p in gone && h in a.held ==>
         !Protected(a.held, h, p)
    case Lock(h, p) =>
      h !in a.held && b == a.(held := a.held[h := p])
    case Unlock(h) =>
      h in a.held && b == a.(held := a.held - {h})
  }

  ghost predicate IsRun(states: seq<Cache>, events: seq<Event>) {
    && |states| == |events| + 1
    && forall i {:trigger events[i]} :: 0 <= i < |events| ==> Step(states[i], events[i], states[i + 1])
  }

  /** One step by anybody, other than releasing `h`, keeps what `h` has borrowed. */
  lemma BorrowStep(a: Cache, e: Event, b: Cache, h: object, p: Path)
    requires Step(a, e, b) && e != Unlock(h)
    requires Protected(a.held, h, p) && p in a.bind
    ensures h in b.held && b.held[h] == a.held[h]
    ensures p in b.bind && b.bind[p] == a.bind[p]
  {
    match e
    case Insertion(q, pages) => InsertPoint(a.bind, q, pages, p);
    case Eviction(gone, freed) => assert p !in gone;
    case Lock(g, r) =>
    case Unlock(g) =>
  }

  /** Borrow safety: from taking the lock to releasing it, every prefix on the locked path
      keeps its page. */
  lemma {:induction false} BorrowSafe(states: seq<Cache>, events: seq<Event>, i: nat, j: nat, h: object, p: Path)
    requires IsRun(states, events) && i <= j < |states|
    requires Protected(states[i].held, h, p) && p in states[i].bind
    requires forall k {:trigger events[k]} :: i <= k < j ==> events[k] != Unlock(h)
    ensures h in states[j].held && states[j].held[h] == states[i].held[h]
    ensures p in states[j].bind && states[j].bind[p] == states[i].bind[p]
    decreases j - i
  {
    if i < j {
      assert Step(states[i], events[i], states[i + 1]);
      BorrowStep(states[i], events[i], states[i + 1], h, p);
      BorrowSafe(states, events, i + 1, j, h, p);
    }
  }

  // ---- the cache's own operations are such steps ----

  ghost function Abs(T: Tree, own: Owners, locks: Locks): Cache {
    Cache(Bind(T, own), map h | h in locks && locks[h] in T :: T[locks[h]].path)
  }

  lemma InsertIsStep(T: Tree, own: Owners, T': Tree, own': Owners, root: RadixNode, refs: Refs, locks: Locks, q: Path,
                     pages: seq<int>)
    requires Counted(T, root, refs, locks, null) && PathsKept(T, T') && |q| <= |pages|
    requires Bind(T', own') == Insert(Bind(T, own), q, pages)
    ensures Step(Abs(T, own, locks), Insertion(q, pages), Abs(T', own', locks))
  {
    var a, b := Abs(T, own, locks), Abs(T', own', locks);
    forall h {:trigger h in a.held} | h in locks ensures h in a.held && h in b.held && a.held[h] == b.held[h] {
      assert HolderOK(T, root, locks, h);
      assert PathKept(T, T', locks[h]);
    }
    SameMap(a.held, b.held);
  }

  lemma {:induction false} GoneUnprotected(s: Snap, root: RadixNode, P: nat, locks: Locks, ages: map<RadixNode, int>,
                                           vs: seq<RadixNode>, p: Path, h: object)
    requires Good(s, root, P, locks) && LruRun(s, root, P, ages, vs)
    requires h in locks && locks[h] in s.tree && p in Gone(s, vs, P)
    ensures !(p <= s.tree[locks[h]].path)
  {
    var vs', v := vs[..|vs| - 1], vs[|vs| - 1];
    var t := DropAll(s, vs', P);
    RunGood(s, root, P, locks, ages, vs');
    assert HolderOK(t.tree, root, locks, h);
    RunRefs(s, root, P, locks, ages, vs', locks[h]);
    if p in Gone(s, vs', P) {
      GoneUnprotected(s, root, P, locks, ages, vs', p, h);
    } else {
      assert EdgeOK(t.tree, v, P);
      var j :| 0 <= j < |EdgeSeq(t.tree[v])| && p == EdgeSeq(t.tree[v])[j];
      assert Covers(t.tree[v], p);
      if p <= t.tree[locks[h]].path {
        LockedPrefix(t.tree, t.own, root, P, t.refs, locks, null, h, p);
        assert false;
      }
    }
  }

  lemma EvictIsStep(s: Snap, root: RadixNode, P: nat, locks: Locks, ages: map<RadixNode, int>, vs: seq<RadixNode>,
                    t: Snap, pages: seq<int>, need: int)
    requires Good(s, root, P, locks) && Run(s, root, P, ages, vs, t, pages, need)
    ensures Step(Abs(s.tree, s.own, locks), Eviction(Gone(s, vs, P), pages), Abs(t.tree, t.own, locks))
  {
    var a, b := Abs(s.tree, s.own, locks), Abs(t.tree, t.own, locks);
    RunUnbound(s, root, P, locks, ages, vs);
    RunGood(s, root, P, locks, ages, vs);
    forall h {:trigger h in a.held} | h in locks ensures h in a.held && h in b.held && a.held[h] == b.held[h] {
      assert HolderOK(s.tree, root, locks, h);
      assert HolderOK(t.tree, root, locks, h);
      RunRefs(s, root, P, locks, ages, vs, locks[h]);
    }
    SameMap(a.held, b.held);
    forall p, h {:trigger p in Gone(s, vs, P), Protected(a.held, h, p)} | p in Gone(s, vs, P) && h in a.held
      ensures !Protected(a.held, h, p)
    {
      GoneUnprotected(s, root, P, locks, ages, vs, p, h);
    }
  }

  lemma LockIsStep(T: Tree, own: Owners, locks: Locks, node: RadixNode, h: object)
    requires node in T && h !in locks
    ensures Step(Abs(T, own, locks), Lock(h, T[node].path), Abs(T, own, locks[h := node]))
  {
    SameMap(Abs(T, own, locks[h := node]).held, Abs(T, own, locks).held[h := T[node].path]);
  }

  lemma UnlockIsStep(T: Tree, own: Owners, locks: Locks, h: object)
    requires h in locks && locks[h] in T
    ensures Step(Abs(T, own, locks), Unlock(h), Abs(T, own, locks - {h}))
  {
    SameMap(Abs(T, own, locks - {h}).held, Abs(T, own, locks).held - {h});
  }

  lemma IdleEviction(v: Cache)
    ensures Step(v, Eviction([], []), v)
  {
    assert v.bind - (set p | p in []) == v.bind;
  }
}
