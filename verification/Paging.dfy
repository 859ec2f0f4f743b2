/** Page arithmetic and page-aligned token runs (radix_cache.py:297-312, kv_memory_pool.py:89-91).

    A token list is cut into pages of `P` tokens.  A `Path` is such a list written page by
    page; `Flat` puts the tokens back in a row.  Nodes of the radix tree store flat token
    lists, as the source does; their specification speaks about paths. */
module Paging {

  /** The tokens of one page. */
  type Block = seq<int>
  type Path = seq<Block>

  ghost predicate Uniform(p: Path, P: nat) {
    forall i :: 0 <= i < |p| ==> |p[i]| == P
  }

  ghost function Flat(p: Path): seq<int> {
    if p == [] then [] else p[0] + Flat(p[1..])
  }

  /** The whole pages of a token list; a trailing partial page is dropped. */
  ghost function Blocks(tokens: seq<int>, P: nat): Path
    requires P >= 1
  {
    if |tokens| < P then [] else [tokens[..P]] + Blocks(tokens[P..], P)
  }

  /** `_page_align_len` */
  function PageAlignLen(n: nat, P: nat): nat
    requires P >= 1
  {
    (n / P) * P
  }

  /** `KVMemoryPool.pages_needed`: integer ceiling. */
  function PagesNeeded(n: nat, P: nat): nat
    requires P >= 1
  {
    if n % P == 0 then n / P else n / P + 1
  }

  /** Python's `s[i:j]` for nonnegative bounds: both ends are clamped to the list. */
  function Slice<T>(s: seq<T>, i: nat, j: nat): seq<T> {
    var hi := if j <= |s| then j else |s|;
    if i <= hi then s[i..hi] else []
  }

  /** `_child_key` */
  function ChildKey(tokens: seq<int>, P: nat): Block {
    Slice(tokens, 0, P)
  }

  /** Number of leading pages two paths share. */
  ghost function Common(a: Path, b: Path): (r: nat)
    ensures r <= |a| && r <= |b| && a[..r] == b[..r]
    ensures r == |a| || r == |b| || a[r] != b[r]
  {
    if a == [] || b == [] || a[0] != b[0] then 0
    else
      var r := Common(a[1..], b[1..]);
      assert a[..r + 1] == [a[0]] + a[1..][..r];
      assert b[..r + 1] == [b[0]] + b[1..][..r];
      r + 1
  }

  // ---- flat lists and paths ----

  lemma {:induction false} FlatLength(p: Path, P: nat)
    requires Uniform(p, P)
    ensures |Flat(p)| == |p| * P
  {
    if p != [] {
      FlatLength(p[1..], P);
      calc {
        |Flat(p)|;
        P + (|p| - 1) * P;
        |p| * P;
      }
    }
  }

  lemma {:induction false} FlatConcat(a: Path, b: Path)
    ensures Flat(a + b) == Flat(a) + Flat(b)
  {
    if a == [] {
      assert a + b == b;
    } else {
      FlatConcat(a[1..], b);
      assert (a + b)[0] == a[0] && (a + b)[1..] == a[1..] + b;
    }
  }

  lemma MulLe(i: nat, j: nat, P: nat)
    requires i <= j
    ensures i * P <= j * P && j * P == i * P + (j - i) * P
  {
    assert j * P == (i + (j - i)) * P == i * P + (j - i) * P;
  }

  lemma MulMono(i: int, j: int, P: nat)
    ensures i <= j ==> i * P <= j * P
  {
    if i <= j {
      assert j * P == i * P + (j - i) * P by { assert j * P == (i + (j - i)) * P; }
    }
  }

  /** Cutting a flat list in two at a page boundary is cutting the path. */
  lemma FlatCut(p: Path, P: nat, k: nat)
    requires Uniform(p, P) && k <= |p|
    ensures k * P <= |Flat(p)| == |p| * P
    ensures Flat(p)[..k * P] == Flat(p[..k]) && Flat(p)[k * P..] == Flat(p[k..])
  {
    assert p == p[..k] + p[k..];
    FlatConcat(p[..k], p[k..]);
    FlatLength(p[..k], P);
    FlatLength(p, P);
    MulLe(k, |p|, P);
  }

  /** Cutting a flat list at page boundaries is cutting the path. */
  lemma FlatSlice(p: Path, P: nat, i: nat, j: nat)
    requires Uniform(p, P) && i <= j <= |p|
    ensures i * P <= j * P <= |Flat(p)| == |p| * P
    ensures Flat(p)[i * P..j * P] == Flat(p[i..j])
  {
    FlatCut(p, P, j);
    FlatCut(p[..j], P, i);
    MulLe(i, j, P);
    assert p[..j][i..] == p[i..j];
    SliceOfPrefix(Flat(p), i * P, j * P);
  }

  lemma SliceOfPrefix<X>(s: seq<X>, i: nat, j: nat)
    requires i <= j <= |s|
    ensures s[..j][i..] == s[i..j]
  {}

  lemma FlatOne(b: Block)
    ensures Flat([b]) == b
  {
    assert [b][1..] == [];
    assert Flat([]) == [];
  }

  /** One page of a flat list. */
  lemma FlatPage(p: Path, P: nat, i: nat)
    requires Uniform(p, P) && i < |p|
    ensures i * P + P <= |Flat(p)| == |p| * P
    ensures Flat(p)[i * P..i * P + P] == p[i]
  {
    FlatSlice(p, P, i, i + 1);
    assert (i + 1) * P == i * P + P;
    assert p[i..i + 1] == [p[i]];
    FlatOne(p[i]);
  }

  lemma {:induction false} BlocksOf(tokens: seq<int>, P: nat)
    requires P >= 1
    ensures Uniform(Blocks(tokens, P), P)
    ensures |Blocks(tokens, P)| == |tokens| / P
    ensures PageAlignLen(|tokens|, P) <= |tokens|
    ensures Flat(Blocks(tokens, P)) == tokens[..PageAlignLen(|tokens|, P)]
    decreases |tokens|
  {
    if |tokens| >= P {
      BlocksOf(tokens[P..], P);
      DivStep(|tokens|, P);
      var rest := tokens[P..];
      var k := PageAlignLen(|rest|, P);
      assert tokens[..P] + rest[..k] == tokens[..P + k];
    } else {
      DivSmall(|tokens|, P);
    }
  }

  lemma DivSmall(n: nat, P: nat)
    requires n < P
    ensures n / P == 0 && n % P == n
  {}

  lemma DivStep(n: nat, P: nat)
    requires 1 <= P <= n
    ensures n / P == (n - P) / P + 1
    ensures PageAlignLen(n, P) == PageAlignLen(n - P, P) + P
  {
    var q := (n - P) / P;
    assert n - P == q * P + (n - P) % P;
    assert n == (q + 1) * P + (n - P) % P by { assert (q + 1) * P == q * P + P; }
    DivUnique(n, P, q + 1, (n - P) % P);
    assert (q + 1) * P == q * P + P;
  }

  lemma DivUnique(n: int, P: nat, q: int, r: int)
    requires P >= 1 && 0 <= r < P && n == q * P + r
    ensures n / P == q && n % P == r
  {
    var d := n / P - q;
    assert n == (n / P) * P + n % P;
    assert d * P == r - n % P by { assert (n / P) * P - q * P == d * P; }
    MulMono(1, d, P);
    MulMono(d, -1, P);
  }

  /** Cutting a flat list back into pages gives the path. */
  lemma {:induction false} BlocksFlat(p: Path, P: nat)
    requires P >= 1 && Uniform(p, P)
    ensures Blocks(Flat(p), P) == p
  {
    if p != [] {
      BlocksFlat(p[1..], P);
      assert Flat(p)[..P] == p[0] && Flat(p)[P..] == Flat(p[1..]);
    }
  }

  /** The whole pages of a longer list start with the whole pages of its beginning. */
  lemma {:induction false} BlocksPrefix(a: seq<int>, b: seq<int>, P: nat)
    requires P >= 1
    ensures Blocks(a, P) <= Blocks(a + b, P)
    decreases |a|
  {
    if |a| >= P {
      assert (a + b)[..P] == a[..P] && (a + b)[P..] == a[P..] + b;
      BlocksPrefix(a[P..], b, P);
    }
  }

  lemma ChunkInRange(a: Path, b: Path, k: nat, P: nat)
    requires Uniform(a, P) && Uniform(b, P)
    requires k * P < |Flat(a)| && k * P < |Flat(b)|
    ensures k < |a| && k < |b|
    ensures k * P + P <= |Flat(a)| && k * P + P <= |Flat(b)|
    ensures Flat(a)[k * P..k * P + P] == a[k] && Flat(b)[k * P..k * P + P] == b[k]
  {
    FlatLength(a, P); FlatLength(b, P);
    MulMono(|a|, k, P);
    MulMono(|b|, k, P);
    FlatPage(a, P, k);
    FlatPage(b, P, k);
  }

  /** `_match_keys`: compares page by page and returns the number of leading tokens that
      agree.  Both lists are page-aligned at every call; `a` and `b` are their paths. */
  method MatchKeys(stored: seq<int>, query: seq<int>, P: nat, ghost a: Path, ghost b: Path) returns (i: nat)
    requires P >= 1 && Uniform(a, P) && Uniform(b, P)
    requires stored == Flat(a) && query == Flat(b)
    ensures i == Common(a, b) * P
  {
    var minLen := if |stored| <= |query| then |stored| else |query|;
    i := 0;
    ghost var k := 0;
    FlatLength(a, P); FlatLength(b, P);
    while i < minLen
      invariant k <= |a| && k <= |b| && i == k * P
      invariant a[..k] == b[..k]
      decreases minLen - i
    {
      ChunkInRange(a, b, k, P);
      if Slice(stored, i, i + P) != Slice(query, i, i + P) {
        break;
      }
      assert a[..k + 1] == b[..k + 1];
      NextMultiple(k, P);
      i := i + P;
      k := k + 1;
    }
    MultipleLess(k, |a|, P);
    MultipleLess(k, |b|, P);
    CommonIs(a, b, k);
  }

  lemma CommonIs(a: Path, b: Path, k: nat)
    requires k <= |a| && k <= |b| && a[..k] == b[..k]
    requires k == |a| || k == |b| || a[k] != b[k]
    ensures Common(a, b) == k
  {
    var r := Common(a, b);
    assert forall j :: 0 <= j < k ==> a[j] == a[..k][j] == b[..k][j] == b[j];
    assert forall j :: 0 <= j < r ==> a[j] == a[..r][j] == b[..r][j] == b[j];
  }

  /** The first page of a nonempty flat list is the first block of its path. */
  lemma FirstPage(p: Path, P: nat)
    requires Uniform(p, P) && p != []
    ensures ChildKey(Flat(p), P) == p[0] && |Flat(p)| >= P
  {
    FlatPage(p, P, 0);
  }

  lemma Multiple(c: nat, P: nat)
    requires P >= 1
    ensures (c * P) / P == c && PageAlignLen(c * P, P) == c * P
    ensures c > 0 ==> c * P > 0
  {
    DivUnique(c * P, P, c, 0);
    MulMono(1, c, P);
  }

  lemma MultipleLess(c: nat, e: nat, P: nat)
    requires P >= 1
    ensures c < e <==> c * P < e * P
  {
    MulMono(c + 1, e, P);
    MulMono(e, c, P);
    assert (c + 1) * P == c * P + P;
  }

  /** The rest of a flat list from a page boundary on. */
  lemma FlatRest(q: Path, P: nat, k: nat)
    requires P >= 1 && Uniform(q, P) && k <= |q|
    ensures k * P <= |Flat(q)| == |q| * P
    ensures Flat(q)[k * P..] == Flat(q[k..])
    ensures k < |q| <==> k * P < |Flat(q)|
  {
    FlatCut(q, P, k);
    MultipleLess(k, |q|, P);
  }

  lemma DivExact(n: nat, P: nat)
    requires P >= 1 && n % P == 0
    ensures n == (n / P) * P
  {}

  /** Where a page-aligned cut falls on the path of a flat list. */
  lemma CutAligned(p: Path, P: nat, at: nat)
    requires P >= 1 && Uniform(p, P) && 0 < at < |Flat(p)| && at % P == 0
    ensures 0 < at / P < |p|
    ensures Flat(p)[..at] == Flat(p[..at / P]) && Flat(p)[at..] == Flat(p[at / P..])
  {
    DivExact(at, P);
    CutAt(p, P, at / P, at);
  }

  lemma CutAt(p: Path, P: nat, k: nat, at: nat)
    requires P >= 1 && Uniform(p, P) && 0 < at < |Flat(p)| && at == k * P
    ensures 0 < k < |p|
    ensures Flat(p)[..at] == Flat(p[..k]) && Flat(p)[at..] == Flat(p[k..])
  {
    FlatLength(p, P);
    MultipleLess(k, |p|, P);
    MultipleLess(0, k, P);
    FlatCut(p, P, k);
  }

  /** `k` pages hold `n` tokens exactly when `k` is at least the number needed. */
  lemma NeedIsCeiling(n: nat, P: nat, k: nat)
    requires P >= 1
    ensures PagesNeeded(n, P) <= k <==> n <= k * P
  {
    assert n == (n / P) * P + n % P;
    NextMultiple(n / P, P);
    MulMono(k, n / P, P);
    MulMono(n / P, k, P);
    MulMono(n / P + 1, k, P);
  }

  /** A list of at least `n` tokens needs at least as many pages as `n` tokens fill. */
  lemma NeedCovers(n: nat, m: nat, P: nat)
    requires P >= 1 && n <= m
    ensures n / P <= PagesNeeded(m, P) && (n / P) * P <= n
  {
    assert n == (n / P) * P + n % P;
    assert m == (m / P) * P + m % P;
    MulMono(m / P + 1, n / P, P);
    assert (m / P + 1) * P == (m / P) * P + P;
  }

  /** A page-aligned length needs exactly its whole pages. */
  lemma NeedAligned(c: nat, P: nat)
    requires P >= 1
    ensures PagesNeeded(c * P, P) == c
  {
    DivUnique(c * P, P, c, 0);
  }

  lemma NextMultiple(k: nat, P: nat)
    ensures (k + 1) * P == k * P + P
  {}

  lemma DivMono(n: nat, m: nat, P: nat)
    requires P >= 1 && n <= m
    ensures n / P <= m / P && (n / P == m / P ==> n % P <= m % P)
  {
    assert n == (n / P) * P + n % P;
    assert m == (m / P) * P + m % P;
    MulMono(m / P + 1, n / P, P);
    NextMultiple(m / P, P);
  }

  lemma NeedMono(n: nat, m: nat, P: nat)
    requires P >= 1 && n <= m
    ensures PagesNeeded(n, P) <= PagesNeeded(m, P) && n / P <= m / P
  {
    DivMono(n, m, P);
  }
}
