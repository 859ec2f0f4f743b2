/** The page ledger: every page of the pool is in exactly one place: on the free list, bound in
    the prefix cache, or private to one live request. */
module PageLedger {
  import opened Paging
  import opened TreeOps
  import opened TreeLocks
  import opened TreeEvict
  import opened Wrappers

  /** `priv` lists, by ticket, the pages each live request allocated for itself. */
  datatype Books = Books(n: nat, free: seq<int>, tree: map<Path, int>, priv: map<nat, seq<int>>)

  datatype Slot = InFree(i: nat) | InTree(p: Path) | InReq(k: nat, j: nat)

  ghost predicate Holds(b: Books, s: Slot, x: int) {
    match s
    case InFree(i) => i < |b.free| && b.free[i] == x
    case InTree(p) => p in b.tree && b.tree[p] == x
    case InReq(k, j) => k in b.priv && j < |b.priv[k]| && b.priv[k][j] == x
  }

  ghost predicate InPool(b: Books, x: int) {
    0 <= x < b.n
  }

  /** All recorded pages are pages of the pool, and no page is recorded twice. */
  ghost predicate Apart(b: Books) {
    && (forall s, x {:trigger Holds(b, s, x)} :: Holds(b, s, x) ==> InPool(b, x))
    && (forall s, s', x {:trigger Holds(b, s, x), Holds(b, s', x)} :: Holds(b, s, x) && Holds(b, s', x) ==> s == s')
  }

  ghost predicate Ledger(b: Books) {
    && Apart(b)
    && (forall x {:trigger InPool(b, x)} :: InPool(b, x) ==> exists s :: Holds(b, s, x))
  }

  lemma {:induction false} ListSize(s: seq<int>)
    requires NoDup(s)
    ensures |set x | x in s| == |s|
  {
    if s == [] {
      assert (set x | x in s) == {};
    } else {
      var k := |s| - 1;
      ListSize(s[..k]);
      assert s == s[..k] + [s[k]];
      assert (set x | x in s) == (set x | x in s[..k]) + {s[k]};
      assert s[k] !in s[..k];
    }
  }

  ghost function Below(n: nat): set<int> {
    if n == 0 then {} else Below(n - 1) + {n - 1}
  }

  lemma {:induction false} BelowSize(n: nat)
    ensures |Below(n)| == n && forall x {:trigger x in Below(n)} :: x in Below(n) <==> 0 <= x < n
  {
    if n > 0 {
      BelowSize(n - 1);
      assert n - 1 !in Below(n - 1);
    }
  }

  /** There are at most as many free pages as pages. */
  lemma FreeBound(b: Books)
    requires Apart(b)
    ensures |b.free| <= b.n
  {
    forall i, j {:trigger b.free[i], b.free[j]} | 0 <= i < j < |b.free| ensures b.free[i] != b.free[j] {
      assert Holds(b, InFree(i), b.free[i]) && Holds(b, InFree(j), b.free[j]);
    }
    ListSize(b.free);
    BelowSize(b.n);
    forall x {:trigger x in b.free} | x in b.free ensures 0 <= x < b.n {
      var i :| 0 <= i < |b.free| && b.free[i] == x;
      assert Holds(b, InFree(i), x);
      assert InPool(b, x);
    }
    SubsetCard((set x | x in b.free), Below(b.n));
  }

  /** The pool as it is created: all pages free. */
  lemma FreshLedger(n: nat)
    ensures Ledger(Books(n, seq(n, i => i), map[], map[]))
  {
    var b := Books(n, seq(n, i => i), map[], map[]);
    forall x {:trigger InPool(b, x)} | InPool(b, x) ensures exists s :: Holds(b, s, x) {
      assert Holds(b, InFree(x), x);
    }
  }

  /** Moving pages between places along a bijection of slots keeps the ledger; for keeping
      pages apart the way back is enough. */
  lemma Transport(b: Books, b': Books, back: Slot -> Slot, fwd: Slot -> Slot)
    requires Apart(b) && b'.n == b.n
    requires forall s, x {:trigger Holds(b', s, x)} :: Holds(b', s, x) ==> Holds(b, back(s), x) && fwd(back(s)) == s
    ensures Apart(b')
    ensures Ledger(b) && (forall s, x {:trigger Holds(b, s, x)} :: Holds(b, s, x) ==> Holds(b', fwd(s), x)) ==>
      Ledger(b')
  {
    forall s, x {:trigger Holds(b', s, x)} | Holds(b', s, x) ensures InPool(b', x) {
      assert InPool(b, x);
    }
    if Ledger(b) && forall s, x {:trigger Holds(b, s, x)} :: Holds(b, s, x) ==> Holds(b', fwd(s), x) {
      forall x {:trigger InPool(b', x)} | InPool(b', x) ensures exists s :: Holds(b', s, x) {
        assert InPool(b, x);
        var s :| Holds(b, s, x);
        assert Holds(b', fwd(s), x);
      }
    }
  }

  // ---- eviction, allocation, release ----

  ghost function IndexOf<X>(s: seq<X>, x: X): (i: nat)
    ensures x in s ==> i < |s| && s[i] == x
  {
    if s == [] || s[0] == x then 0 else IndexOf(s[1..], x) + 1
  }

  lemma IndexOfAt<X>(s: seq<X>, i: nat)
    requires i < |s| && forall j {:trigger s[j]} :: 0 <= j < i ==> s[j] != s[i]
    ensures IndexOf(s, s[i]) == i
  {
    if i > 0 {
      assert s[0] != s[i];
      assert forall j {:trigger s[1..][j]} :: 0 <= j < i - 1 ==> s[1..][j] == s[j + 1];
      IndexOfAt(s[1..], i - 1);
    }
  }

  lemma EvictLedger(b: Books, b': Books, gone: seq<Path>, freed: seq<int>)
    requires Apart(b) && Unbound(b.tree, b'.tree, gone, freed)
    requires b'.n == b.n && b'.free == b.free + freed && b'.priv == b.priv
    ensures Apart(b') && (Ledger(b) ==> Ledger(b'))
  {
    var F := |b.free|;
    var back := (s: Slot) => if s.InFree? && F <= s.i < F + |gone| then InTree(gone[s.i - F]) else s;
    var fwd := (s: Slot) => if s.InTree? && s.p in gone then InFree(F + IndexOf(gone, s.p)) else s;
    forall s, x {:trigger Holds(b', s, x)} | Holds(b', s, x) ensures Holds(b, back(s), x) && fwd(back(s)) == s {
      if s.InFree? && s.i >= F { IndexOfAt(gone, s.i - F); }
    }
    forall s, x {:trigger Holds(b, s, x)} | Holds(b, s, x) ensures Holds(b', fwd(s), x) {}
    Transport(b, b', back, fwd);
  }

  /** Popping `got` off the free list for the request with ticket `k`. */
  lemma TakeLedger(b: Books, b': Books, k: nat, got: seq<int>)
    requires Apart(b) && k !in b.priv && |got| <= |b.free|
    requires got == seq(|got|, i requires 0 <= i < |got| => b.free[|b.free| - 1 - i])
    requires b'.n == b.n && b'.free == b.free[..|b.free| - |got|] && b'.tree == b.tree && b'.priv == b.priv[k := got]
    ensures Apart(b') && (Ledger(b) ==> Ledger(b'))
  {
    var F, n := |b.free|, |got|;
    var back := (s: Slot) => if s.InReq? && s.k == k && s.j < n then InFree(F - 1 - s.j) else s;
    var fwd := (s: Slot) => if s.InFree? && F - n <= s.i < F then InReq(k, F - 1 - s.i) else s;
    forall s, x {:trigger Holds(b', s, x)} | Holds(b', s, x) ensures Holds(b, back(s), x) && fwd(back(s)) == s {}
    forall s, x {:trigger Holds(b, s, x)} | Holds(b, s, x) ensures Holds(b', fwd(s), x) {}
    Transport(b, b', back, fwd);
  }

  /** Popping `got` off the free list straight into the tree, for the prefixes `here`. */
  lemma BindLedger(b: Books, b': Books, here: seq<Path>, got: seq<int>)
    requires Apart(b) && Unbound(b'.tree, b.tree, here, got) && |got| <= |b.free|
    requires got == seq(|got|, i requires 0 <= i < |got| => b.free[|b.free| - 1 - i])
    requires b'.n == b.n && b'.free == b.free[..|b.free| - |got|] && b'.priv == b.priv
    ensures Apart(b') && (Ledger(b) ==> Ledger(b'))
  {
    var F, n := |b.free|, |got|;
    var back := (s: Slot) => if s.InTree? && s.p in here
      then InFree(if IndexOf(here, s.p) < F then F - 1 - IndexOf(here, s.p) else 0) else s;
    var fwd := (s: Slot) => if s.InFree? && F - n <= s.i < F then InTree(here[F - 1 - s.i]) else s;
    forall s, x {:trigger Holds(b', s, x)} | Holds(b', s, x) ensures Holds(b, back(s), x) && fwd(back(s)) == s {}
    forall s, x {:trigger Holds(b, s, x)} | Holds(b, s, x) ensures Holds(b', fwd(s), x) {}
    Transport(b, b', back, fwd);
  }
}
