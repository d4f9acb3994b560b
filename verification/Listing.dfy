/** Every thread of a tidy forest has a depth-first listing: the walks of Traversal.dfy apply
    to it, and they read exactly the articles of the thread. */
module Listing {
  import opened Forest
  import opened Joining
  import opened Ancestry
  import opened Placing
  import opened Settling
  import opened Detaching
  import opened Traversal

  /** Articles in depth-first order, and their depths. */
  datatype Listed = Listed(f: seq<Article>, d: Depths)

  ghost predicate AtDepth(p: ParentMap, a: Article, n: nat) {
    Up(p, a, n) != null && Up(p, a, n + 1) == null
  }

  // ---- How deep a forest can be --------------------------------------------------------------------

  lemma {:induction false} DistinctFit<T>(l: seq<T>, s: set<T>)
    requires NoDup(l) && forall x :: x in l ==> x in s
    ensures |l| <= |s|
  {
    if l != [] {
      var n := |l| - 1;
      DistinctFit(l[..n], s - {l[n]});
    }
  }

  /** Without cycles no article is deeper than there are articles. */
  lemma DepthBound(p: ParentMap, a: Article, n: nat)
    requires Grounded(p) && a in p && AtDepth(p, a, n)
    requires forall q {:trigger ParentKnown(p, q)} :: q in p ==> ParentKnown(p, q)
    ensures n < |p.Keys|
  {
    hide Grounded;
    var l: seq<Article> := seq(n + 1, i requires 0 <= i <= n => UpAt(p, a, n, i));
    forall i, j | 0 <= i < j < |l| ensures l[i] != l[j] {
      assert l[i] == Up(p, a, i) && l[j] == Up(p, a, j);
      NeverTwice(p, a, i, j);
    }
    forall x | x in l ensures x in p.Keys {
      var i :| 0 <= i < |l| && l[i] == x;
      UpIn(p, a, i);
    }
    DistinctFit(l, p.Keys);
  }

  ghost function UpAt(p: ParentMap, a: Article, n: nat, i: nat): (x: Article)
    requires Up(p, a, n) != null && i <= n
    ensures x == Up(p, a, i)
  {
    if Up(p, a, i) == null then UpStaysNull(p, a, i, n); a else Up(p, a, i)
  }

  lemma {:induction false} UpIn(p: ParentMap, a: Article?, n: nat)
    requires a != null ==> a in p
    requires forall q {:trigger ParentKnown(p, q)} :: q in p ==> ParentKnown(p, q)
    ensures Up(p, a, n) != null ==> Up(p, a, n) in p
  {
    if n > 0 && a != null {
      assert ParentKnown(p, a);
      UpIn(p, p[a], n - 1);
    }
  }

  lemma ChildDepth(p: ParentMap, x: Article, q: Article, n: nat)
    requires AtDepth(p, x, n) && q in p && p[q] == x
    ensures AtDepth(p, q, n + 1)
  {
    assert Up(p, q, n + 1) == Up(p, x, n) && Up(p, q, n + 1 + 1) == Up(p, x, n + 1);
  }

  lemma RootDepth(p: ParentMap, q: Article)
    requires q in p && p[q] == null
    ensures AtDepth(p, q, 0)
  {
    assert Up(p, q, 0 + 1) == Up(p, null, 0);
  }

  lemma DepthUnique(p: ParentMap, a: Article, m: nat, n: nat)
    requires AtDepth(p, a, m) && AtDepth(p, a, n)
    ensures m == n
  {
    if m < n {
      UpStaysNull(p, a, m + 1, n);
    } else if n < m {
      UpStaysNull(p, a, n + 1, m);
    }
  }

  // ---- The listing ----------------------------------------------------------------------------------

  /** `l` is siblings at depth `e`. */
  ghost predicate Level(g: State, l: seq<Article>, e: nat) {
    forall x :: x in l ==> x in g.h.parent && AtDepth(g.h.parent, x, e)
  }

  lemma KidsLevel(g: State, x: Article, e: nat)
    requires Wf(g.h, g.s) && Grounded(g.h.parent) && x in g.h.parent && AtDepth(g.h.parent, x, e)
    ensures x in g.s.kids && Level(g, g.s.kids[x], e + 1) && e < |g.h.parent.Keys|
  {
    hide Wf, Grounded, AtDepth;
    WfDomains(g);
    KidsParents(g, x);
    DepthBound(g.h.parent, x, e);
    forall q | q in g.s.kids[x] ensures q in g.h.parent && AtDepth(g.h.parent, q, e + 1) {
      ChildDepth(g.h.parent, x, q, e);
    }
  }

  lemma KidsParents(g: State, x: Article)
    requires Wf(g.h, g.s) && x in g.h.parent
    ensures x in g.s.kids && NoDup(g.s.kids[x]) && x in g.h.child1 && Chain(g.h.sibling, g.h.child1[x], g.s.kids[x])
    ensures forall q :: q in g.s.kids[x] ==> q in g.h.parent && g.h.parent[q] == x && q in g.s.home
  {
    assert KidsOk(g.h, g.s, x);
  }

  ghost function Unfold(g: State, l: seq<Article>, e: nat): (r: Listed)
    requires Wf(g.h, g.s) && Grounded(g.h.parent) && Level(g, l, e)
    ensures |r.f| == |r.d|
    decreases |g.h.parent.Keys| - e, |l|
  {
    hide Wf, Grounded, AtDepth, Up;
    if l == [] then Listed([], []) else
      KidsLevel(g, l[0], e);
      Before1(l[0], Unfold(g, g.s.kids[l[0]], e + 1), Unfold(g, l[1..], e), e)
  }

  ghost function Before1(x: Article, k: Listed, r: Listed, e: nat): Listed {
    Listed([x] + k.f + r.f, [e] + k.d + r.d)
  }

  // ---- It spells out the pointers ----------------------------------------------------------------------

  /** Block `r` lists siblings at depth `e` under `p`, with everything below them. */
  ghost predicate Block(h: Links, r: Listed, p: Article?, e: nat) {
    && |r.f| == |r.d| && Steps(r.d) && (r.d != [] ==> r.d[0] == e) && (forall i :: 0 <= i < |r.d| ==> r.d[i] >= e)
    && (forall i :: 0 <= i < |r.f| ==> BlockAt(h, r, p, i))
  }

  ghost predicate BlockAt(h: Links, r: Listed, p: Article?, i: nat)
    requires |r.f| == |r.d| && i < |r.f|
  {
    var f, d := r.f, r.d;
    && f[i] in h.child1 && h.child1[f[i]] == (if i + 1 < |f| && d[i + 1] > d[i] then f[i + 1] else null)
    && f[i] in h.sibling && h.sibling[f[i]] == (if Skip(d, i) < |f| && d[Skip(d, i)] == d[i] then f[Skip(d, i)] else null)
    && f[i] in h.parent && h.parent[f[i]] == (if ParentAt(d, i) >= 0 then f[ParentAt(d, i)] else p)
  }

  lemma SkipFirst(e: nat, kd: Depths, rd: Depths)
    requires (forall i :: 0 <= i < |kd| ==> kd[i] > e) && (rd != [] ==> rd[0] == e)
    ensures Skip([e] + kd + rd, 0) == 1 + |kd|
  {
    var d := [e] + kd + rd;
    var j := Skip(d, 0);
    forall m | 0 < m < 1 + |kd| ensures d[m] > d[0] {
      assert d[m] == kd[m - 1];
    }
    assert 1 + |kd| < |d| ==> d[1 + |kd|] == e;
  }

  lemma SkipMiddle(e: nat, kd: Depths, rd: Depths, i: nat)
    requires i < |kd| && kd[i] > e && (rd != [] ==> rd[0] == e)
    ensures Skip([e] + kd + rd, 1 + i) == 1 + Skip(kd, i)
  {
    var d := [e] + kd + rd;
    var j := Skip(kd, i);
    forall m | 1 + i < m < 1 + j ensures d[m] > d[1 + i] {
      assert d[m] == kd[m - 1];
    }
    assert j < |kd| ==> d[1 + j] == kd[j];
    assert j == |kd| && rd != [] ==> d[1 + j] == rd[0];
  }

  lemma SkipLast(e: nat, kd: Depths, rd: Depths, i: nat)
    requires i < |rd|
    ensures Skip([e] + kd + rd, 1 + |kd| + i) == 1 + |kd| + Skip(rd, i)
  {
    var d, o := [e] + kd + rd, 1 + |kd|;
    var j := Skip(rd, i);
    forall m | o + i < m < o + j ensures d[m] > d[o + i] {
      assert d[m] == rd[m - o];
    }
    assert j < |rd| ==> d[o + j] == rd[j];
  }

  /** Without a parent in the block an article is at the top of it. */
  lemma NoParentIsTop(d: Depths, e: nat, i: nat)
    requires Steps(d) && i < |d| && d[0] == e && d[i] >= e && ParentAt(d, i) == -1
    ensures d[i] == e
  {
    BelowParent(d, i, 0);
  }

  lemma ParentMiddle(e: nat, kd: Depths, rd: Depths, i: nat)
    requires Steps(kd) && i < |kd| && kd[0] == e + 1 && kd[i] >= e + 1
    ensures ParentAt([e] + kd + rd, 1 + i) == if ParentAt(kd, i) >= 0 then 1 + ParentAt(kd, i) else 0
  {
    var d := [e] + kd + rd;
    var k := ParentAt(kd, i);
    if k == -1 {
      NoParentIsTop(kd, e + 1, i);
    }
    var k' := if k >= 0 then 1 + k else 0;
    forall m | k' < m < 1 + i ensures d[m] + 1 != d[1 + i] {
      assert d[m] == kd[m - 1];
    }
    assert d[k'] + 1 == d[1 + i];
  }

  lemma ParentLast(e: nat, kd: Depths, rd: Depths, i: nat)
    requires Steps(rd) && i < |rd| && rd[0] == e && rd[i] >= e && (forall j :: 0 <= j < |kd| ==> kd[j] > e)
    ensures ParentAt([e] + kd + rd, 1 + |kd| + i) == if ParentAt(rd, i) >= 0 then 1 + |kd| + ParentAt(rd, i) else -1
  {
    var d, o := [e] + kd + rd, 1 + |kd|;
    var k := ParentAt(rd, i);
    if k == -1 {
      NoParentIsTop(rd, e, i);
      forall m | 0 <= m < o + i ensures d[m] + 1 != d[o + i] {
        assert d[m] == if m == 0 then e else if m < o then kd[m - 1] else rd[m - o];
      }
    } else {
      forall m | o + k < m < o + i ensures d[m] + 1 != d[o + i] {
        assert d[m] == rd[m - o];
      }
      assert d[o + k] == rd[k];
    }
  }

  lemma AssembleDepths(e: nat, kd: Depths, rd: Depths)
    requires Steps(kd) && (kd != [] ==> kd[0] == e + 1) && (forall i :: 0 <= i < |kd| ==> kd[i] >= e + 1)
    requires Steps(rd) && (rd != [] ==> rd[0] == e) && (forall i :: 0 <= i < |rd| ==> rd[i] >= e)
    ensures var d := [e] + kd + rd; Steps(d) && d[0] == e && forall i :: 0 <= i < |d| ==> d[i] >= e
  {
    var d, o := [e] + kd + rd, 1 + |kd|;
    forall i | 0 <= i < |d| ensures d[i] >= e && (i + 1 < |d| ==> d[i + 1] <= d[i] + 1) {
      assert d[i] == if i == 0 then e else if i < o then kd[i - 1] else rd[i - o];
      assert i + 1 < |d| ==> d[i + 1] == if i + 1 < o then kd[i] else rd[i + 1 - o];
    }
  }

  lemma AssembleFirst(h: Links, x: Article, p: Article?, e: nat, k: Listed, r: Listed)
    requires Block(h, k, x, e + 1) && Block(h, r, p, e) && x in h.child1 && x in h.sibling && x in h.parent
    requires h.child1[x] == At(k.f, 0) && h.sibling[x] == At(r.f, 0) && h.parent[x] == p
    ensures |Before1(x, k, r, e).f| == |Before1(x, k, r, e).d| > 0
    ensures BlockAt(h, Before1(x, k, r, e), p, 0)
  {
    SkipFirst(e, k.d, r.d);
    var b := Before1(x, k, r, e);
    assert k.f != [] ==> b.f[1] == k.f[0] && b.d[1] == k.d[0];
    assert k.f == [] && r.f != [] ==> b.d[1] == r.d[0];
    assert r.f != [] ==> b.f[1 + |k.f|] == r.f[0];
  }

  lemma AssembleMiddle(h: Links, x: Article, p: Article?, e: nat, k: Listed, r: Listed, i: nat)
    requires Block(h, k, x, e + 1) && Block(h, r, p, e) && i < |k.f|
    ensures |Before1(x, k, r, e).f| == |Before1(x, k, r, e).d| > 1 + i
    ensures BlockAt(h, Before1(x, k, r, e), p, 1 + i)
  {
    var b := Before1(x, k, r, e);
    SkipMiddle(e, k.d, r.d, i);
    ParentMiddle(e, k.d, r.d, i);
    assert BlockAt(h, k, x, i);
    assert b.f[1 + i] == k.f[i] && b.d[1 + i] == k.d[i];
    assert i + 1 < |k.f| ==> b.f[1 + i + 1] == k.f[i + 1] && b.d[1 + i + 1] == k.d[i + 1];
    assert i + 1 == |k.f| && r.f != [] ==> b.d[1 + i + 1] == r.d[0];
    var j := Skip(k.d, i);
    assert j < |k.f| ==> b.f[1 + j] == k.f[j] && b.d[1 + j] == k.d[j];
    assert j == |k.f| && r.f != [] ==> b.d[1 + j] == r.d[0];
    var q := ParentAt(k.d, i);
    assert q >= 0 ==> b.f[1 + q] == k.f[q];
  }

  lemma AssembleLast(h: Links, x: Article, p: Article?, e: nat, k: Listed, r: Listed, i: nat)
    requires Block(h, k, x, e + 1) && Block(h, r, p, e) && i < |r.f|
    ensures |Before1(x, k, r, e).f| == |Before1(x, k, r, e).d| > 1 + |k.f| + i
    ensures BlockAt(h, Before1(x, k, r, e), p, 1 + |k.f| + i)
  {
    hide BlockAt, Block, Skip, ParentAt;
    BlockParts(h, k, x, e + 1);
    BlockParts(h, r, p, e);
    SkipLast(e, k.d, r.d, i);
    ParentLast(e, k.d, r.d, i);
    ShiftedAt(h, [x] + k.f, [e] + k.d, r, p, i);
  }

  lemma BlockParts(h: Links, r: Listed, p: Article?, e: nat)
    requires Block(h, r, p, e)
    ensures |r.f| == |r.d| && Steps(r.d) && (r.d != [] ==> r.d[0] == e) && (forall i :: 0 <= i < |r.d| ==> r.d[i] >= e)
    ensures forall i :: 0 <= i < |r.f| ==> BlockAt(h, r, p, i)
  {
    hide BlockAt;
  }

  /** Reading block `r` behind `f0`. */
  lemma ShiftedAt(h: Links, f0: seq<Article>, d0: Depths, r: Listed, p: Article?, i: nat)
    requires |f0| == |d0| && |r.f| == |r.d| && i < |r.f| && BlockAt(h, r, p, i)
    requires Skip(d0 + r.d, |d0| + i) == |d0| + Skip(r.d, i)
    requires ParentAt(d0 + r.d, |d0| + i) == if ParentAt(r.d, i) >= 0 then |d0| + ParentAt(r.d, i) else -1
    ensures BlockAt(h, Listed(f0 + r.f, d0 + r.d), p, |f0| + i)
  {
  }

  lemma Assemble(h: Links, x: Article, p: Article?, e: nat, k: Listed, r: Listed)
    requires Block(h, k, x, e + 1) && Block(h, r, p, e) && x in h.child1 && x in h.sibling && x in h.parent
    requires h.child1[x] == At(k.f, 0) && h.sibling[x] == At(r.f, 0) && h.parent[x] == p
    ensures Block(h, Before1(x, k, r, e), p, e)
  {
    hide BlockAt;
    var b := Before1(x, k, r, e);
    AssembleDepths(e, k.d, r.d);
    forall i | 0 <= i < |b.f| ensures BlockAt(h, b, p, i) {
      if i == 0 {
        AssembleFirst(h, x, p, e, k, r);
      } else if i < 1 + |k.f| {
        AssembleMiddle(h, x, p, e, k, r, i - 1);
      } else {
        AssembleLast(h, x, p, e, k, r, i - 1 - |k.f|);
      }
    }
  }

  /** The unfolding of a list of siblings spells out their pointers and those below. */
  lemma {:induction false} UnfoldSpells(g: State, l: seq<Article>, e: nat, p: Article?)
    requires Wf(g.h, g.s) && Grounded(g.h.parent) && Level(g, l, e)
    requires Chain(g.h.sibling, At(l, 0), l) && forall x :: x in l ==> x in g.h.parent && g.h.parent[x] == p
    ensures Block(g.h, Unfold(g, l, e), p, e) && At(Unfold(g, l, e).f, 0) == At(l, 0)
    decreases |g.h.parent.Keys| - e, |l|
  {
    hide Wf, Grounded, Block, AtDepth, Chain, Before1;
    if l == [] {
      EmptyBlock(g.h, p, e);
    } else {
      var x := l[0];
      KidsLevel(g, x, e);
      KidsParents(g, x);
      KidsHead(g, x);
      UnfoldSpells(g, g.s.kids[x], e + 1, x);
      TailChain(g.h.sibling, l);
      UnfoldSpells(g, l[1..], e, p);
      FirstOf(x, Unfold(g, g.s.kids[x], e + 1), Unfold(g, l[1..], e), e);
      Assemble(g.h, x, p, e, Unfold(g, g.s.kids[x], e + 1), Unfold(g, l[1..], e));
    }
  }

  lemma KidsHead(g: State, x: Article)
    requires Wf(g.h, g.s) && x in g.h.parent
    ensures x in g.h.child1 && x in g.s.kids && g.h.child1[x] == At(g.s.kids[x], 0)
    ensures Chain(g.h.sibling, At(g.s.kids[x], 0), g.s.kids[x])
  {
    assert KidsOk(g.h, g.s, x);
  }

  lemma FirstOf(x: Article, k: Listed, r: Listed, e: nat)
    ensures At(Before1(x, k, r, e).f, 0) == x
  {
  }

  lemma EmptyBlock(h: Links, p: Article?, e: nat)
    ensures Block(h, Listed([], []), p, e)
  {
  }

  lemma TailChain(m: map<Article, Article?>, l: seq<Article>)
    requires l != [] && Chain(m, At(l, 0), l)
    ensures Chain(m, At(l[1..], 0), l[1..]) && l[0] in m && m[l[0]] == At(l[1..], 0)
  {
  }

  // ---- It lists every article below once ---------------------------------------------------------------

  /** Every listed article is `d` levels deep and hangs below one of `l`. */
  ghost predicate Anchored(p: ParentMap, l: seq<Article>, r: Listed, e: nat) {
    |r.f| == |r.d| && forall i :: 0 <= i < |r.f| ==> AnchoredAt(p, l, r.f[i], r.d[i], e)
  }

  ghost predicate AnchoredAt(p: ParentMap, l: seq<Article>, x: Article, n: nat, e: nat) {
    n >= e && AtDepth(p, x, n) && x in p && Up(p, x, n - e) in l
  }

  lemma AnchorUp(p: ParentMap, l: seq<Article>, x: Article, n: nat, e: nat, a: Article)
    requires AnchoredAt(p, l, x, n, e + 1) && (forall q :: q in l ==> q in p && p[q] == a)
    ensures AnchoredAt(p, [a], x, n, e)
  {
    UpNext(p, x, n - e - 1);
  }

  lemma AnchorIn(p: ParentMap, l: seq<Article>, l': seq<Article>, x: Article, n: nat, e: nat)
    requires AnchoredAt(p, l, x, n, e) && forall q :: q in l ==> q in l'
    ensures AnchoredAt(p, l', x, n, e)
  {
  }

  lemma {:induction false} UnfoldAnchored(g: State, l: seq<Article>, e: nat)
    requires Wf(g.h, g.s) && Grounded(g.h.parent) && Level(g, l, e)
    ensures Anchored(g.h.parent, l, Unfold(g, l, e), e)
    decreases |g.h.parent.Keys| - e, |l|
  {
    hide Wf, Grounded, AtDepth, AnchoredAt, Up;
    if l != [] {
      var x, p := l[0], g.h.parent;
      KidsLevel(g, x, e);
      KidsParents(g, x);
      var k, r := Unfold(g, g.s.kids[x], e + 1), Unfold(g, l[1..], e);
      UnfoldAnchored(g, g.s.kids[x], e + 1);
      UnfoldAnchored(g, l[1..], e);
      AnchorSelf(p, x, e);
      AnchorJoin(p, l, g.s.kids[x], k, r, e);
    }
  }

  lemma AnchorJoin(p: ParentMap, l: seq<Article>, kids: seq<Article>, k: Listed, r: Listed, e: nat)
    requires l != [] && Anchored(p, kids, k, e + 1) && Anchored(p, l[1..], r, e) && AnchoredAt(p, [l[0]], l[0], e, e)
    requires forall q :: q in kids ==> q in p && p[q] == l[0]
    ensures Anchored(p, l, Before1(l[0], k, r, e), e)
  {
    hide AtDepth, AnchoredAt, Up;
    var x, b := l[0], Before1(l[0], k, r, e);
    forall i | 0 <= i < |b.f| ensures AnchoredAt(p, l, b.f[i], b.d[i], e) {
      if i == 0 {
        AnchorIn(p, [x], l, x, e, e);
      } else if i < 1 + |k.f| {
        assert b.f[i] == k.f[i - 1] && b.d[i] == k.d[i - 1];
        AnchorUp(p, kids, k.f[i - 1], k.d[i - 1], e, x);
        AnchorIn(p, [x], l, k.f[i - 1], k.d[i - 1], e);
      } else {
        var j := i - 1 - |k.f|;
        assert b.f[i] == r.f[j] && b.d[i] == r.d[j];
        AnchorIn(p, l[1..], l, r.f[j], r.d[j], e);
      }
    }
  }

  lemma AnchorSelf(p: ParentMap, x: Article, e: nat)
    requires x in p && AtDepth(p, x, e)
    ensures AnchoredAt(p, [x], x, e, e)
  {
    assert Up(p, x, 0) == x;
  }

  /** An article listed below two lists hangs below a common member. */
  lemma AnchorsMeet(p: ParentMap, l: seq<Article>, l': seq<Article>, x: Article, m: nat, n: nat, e: nat)
    requires AnchoredAt(p, l, x, m, e) && AnchoredAt(p, l', x, n, e)
    ensures exists q :: q in l && q in l'
  {
    DepthUnique(p, x, m, n);
  }

  lemma {:induction false} UnfoldNoDup(g: State, l: seq<Article>, e: nat)
    requires Wf(g.h, g.s) && Grounded(g.h.parent) && Level(g, l, e) && NoDup(l)
    ensures NoDup(Unfold(g, l, e).f)
    decreases |g.h.parent.Keys| - e, |l|
  {
    hide Wf, Grounded, AtDepth, AnchoredAt;
    if l != [] {
      var x, p := l[0], g.h.parent;
      KidsLevel(g, x, e);
      KidsParents(g, x);
      var k, r := Unfold(g, g.s.kids[x], e + 1), Unfold(g, l[1..], e);
      UnfoldNoDup(g, g.s.kids[x], e + 1);
      UnfoldNoDup(g, l[1..], e);
      UnfoldAnchored(g, g.s.kids[x], e + 1);
      UnfoldAnchored(g, l[1..], e);
      forall y | y in k.f ensures y != x && y !in r.f {
        var i :| 0 <= i < |k.f| && k.f[i] == y;
        AnchorUp(p, g.s.kids[x], y, k.d[i], e, x);
        NotTheParent(p, y, k.d[i], e, g.s.kids[x], x);
        NotAmong(p, [x], l[1..], y, k.d[i], r, e);
      }
      AnchorSelf(p, x, e);
      NotAmong(p, [x], l[1..], x, e, r, e);
      NoDupConcat([x], k.f);
      NoDupConcat([x] + k.f, r.f);
    }
  }

  lemma NotTheParent(p: ParentMap, y: Article, n: nat, e: nat, kids: seq<Article>, x: Article)
    requires AnchoredAt(p, kids, y, n, e + 1) && AtDepth(p, x, e)
    ensures y != x
  {
    if y == x {
      DepthUnique(p, x, n, e);
    }
  }

  lemma NotAmong(p: ParentMap, l: seq<Article>, l': seq<Article>, y: Article, n: nat, r: Listed, e: nat)
    requires AnchoredAt(p, l, y, n, e) && Anchored(p, l', r, e) && forall q :: q in l ==> q !in l'
    ensures y !in r.f
  {
    hide AnchoredAt;
    if y in r.f {
      var i :| 0 <= i < |r.f| && r.f[i] == y;
      AnchorsMeet(p, l, l', y, n, r.d[i], e);
    }
  }

  /** With an article its children are listed, and nothing else is. */
  lemma {:induction false} UnfoldMembers(g: State, l: seq<Article>, e: nat)
    requires Wf(g.h, g.s) && Grounded(g.h.parent) && Level(g, l, e)
    ensures forall x :: x in l ==> x in Unfold(g, l, e).f
    ensures forall x :: x in Unfold(g, l, e).f ==> x in g.s.kids && forall q :: q in g.s.kids[x] ==> q in Unfold(g, l, e).f
    decreases |g.h.parent.Keys| - e, |l|
  {
    hide Wf, Grounded, AtDepth;
    if l != [] {
      var x := l[0];
      KidsLevel(g, x, e);
      var k, r := Unfold(g, g.s.kids[x], e + 1), Unfold(g, l[1..], e);
      UnfoldMembers(g, g.s.kids[x], e + 1);
      UnfoldMembers(g, l[1..], e);
      assert l == [x] + l[1..];
      assert Unfold(g, l, e).f == [x] + k.f + r.f;
    }
  }

  /** Listed articles are linked in the thread of the siblings the listing starts from. */
  lemma {:induction false} UnfoldInThread(g: State, l: seq<Article>, e: nat, ring: seq<Subject>)
    requires Wf(g.h, g.s) && Grounded(g.h.parent) && Coherent(g, null, null, null, []) && Level(g, l, e)
    requires forall x :: x in l ==> x in g.s.home && HomeRingAt(g, x) == ring
    ensures forall x :: x in Unfold(g, l, e).f ==> x in g.s.home && HomeRingAt(g, x) == ring
    decreases |g.h.parent.Keys| - e, |l|
  {
    hide Wf, Grounded, AtDepth;
    if l != [] {
      var x := l[0];
      KidsLevel(g, x, e);
      KidsParents(g, x);
      forall q | q in g.s.kids[x] ensures HomeRingAt(g, q) == ring {
        assert Placed(g, q, null, null, []);
      }
      UnfoldInThread(g, g.s.kids[x], e + 1, ring);
      UnfoldInThread(g, l[1..], e, ring);
      assert Unfold(g, l, e).f == [x] + Unfold(g, g.s.kids[x], e + 1).f + Unfold(g, l[1..], e).f;
    }
  }

  /** Every linked article of the thread is listed: its parent is. */
  lemma {:induction false} AllListed(g: State, t: Subject, f: seq<Article>, q: Article, n: nat)
    requires Wf(g.h, g.s) && Coherent(g, null, null, null, []) && t in g.h.thread && Up(g.h.parent, q, n) == null
    requires forall x :: x in TopsOf(g, t) ==> x in f
    requires forall x :: x in f ==> x in g.s.kids && forall y :: y in g.s.kids[x] ==> y in f
    requires q in g.s.home && HomeRingAt(g, q) == RingAt(g, t)
    ensures q in f
    decreases n
  {
    hide Wf;
    HomeFacts(g, q);
    assert Placed(g, q, null, null, []);
    var p := g.h.parent[q];
    if p == null {
      SameRingSameTops(g, g.s.home[q], t);
    } else {
      AllListed(g, t, f, p, n - 1);
    }
  }

  /** The whole thread of a subject. */
  ghost function ThreadOf(g: State, t: Subject): Listed
    requires Tidy(g) && t in g.h.thread
  {
    TopsLevel(g, t);
    Unfold(g, TopsOf(g, t), 0)
  }

  lemma TopsLevel(g: State, t: Subject)
    requires Wf(g.h, g.s) && t in g.h.thread
    ensures Level(g, TopsOf(g, t), 0) && NoDup(TopsOf(g, t)) && Chain(g.h.sibling, At(TopsOf(g, t), 0), TopsOf(g, t))
    ensures g.h.thread[t] == At(TopsOf(g, t), 0)
    ensures forall x :: x in TopsOf(g, t) ==> x in g.h.parent && g.h.parent[x] == null && x in g.s.home
    ensures forall x :: x in TopsOf(g, t) ==> HomeRingAt(g, x) == RingAt(g, t)
  {
    assert TopsOk(g.h, g.s, t);
    forall x | x in TopsOf(g, t) ensures AtDepth(g.h.parent, x, 0) {
      RootDepth(g.h.parent, x);
    }
  }

  /** The listing of a thread spells out its pointers, has each linked article of the thread
      exactly once and nothing else, and starts with the lead article. */
  lemma ThreadListed(g: State, t: Subject)
    requires Tidy(g) && t in g.h.thread
    ensures Block(g.h, ThreadOf(g, t), null, 0) && NoDup(ThreadOf(g, t).f)
    ensures At(ThreadOf(g, t).f, 0) == g.h.thread[t]
    ensures forall q :: q in ThreadOf(g, t).f ==> q in g.s.home && HomeRingAt(g, q) == RingAt(g, t)
    ensures forall q :: q in g.s.home && HomeRingAt(g, q) == RingAt(g, t) ==> q in ThreadOf(g, t).f
  {
    hide Wf, Grounded, Coherent, Block, AtDepth, Level;
    TopsLevel(g, t);
    var l := TopsOf(g, t);
    UnfoldSpells(g, l, 0, null);
    UnfoldNoDup(g, l, 0);
    UnfoldMembers(g, l, 0);
    UnfoldInThread(g, l, 0, RingAt(g, t));
    forall q | q in g.s.home && HomeRingAt(g, q) == RingAt(g, t) ensures q in ThreadOf(g, t).f {
      HomeFacts(g, q);
      GroundedEnds(g.h.parent, q);
      var n: nat :| Up(g.h.parent, q, n) == null;
      AllListed(g, t, ThreadOf(g, t).f, q, n);
    }
  }

  /** Every article of the thread leads back to its lead article through its subject. */
  lemma ThreadRooted(g: State, t: Subject, q: Article)
    requires Tidy(g) && t in g.h.thread && q in g.s.home && HomeRingAt(g, q) == RingAt(g, t)
    ensures Subj(g, q) != null && Subj(g, q) in g.h.thread && g.h.thread[Subj(g, q)] == g.h.thread[t]
  {
    hide Wf, Grounded;
    assert Placed(g, q, null, null, []);
    SubjectKnown(g, q);
    SameRingSameTops(g, Subj(g, q), t);
  }
}
