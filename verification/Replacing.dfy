/** The theory of `valid_article` (libtrn/Article.cpp, lines 826-899): putting a real article
    in the place of the fake that stood for it is a renaming of the forest. */
module Replacing {
  import opened Forest
  import opened Joining
  import opened Ancestry
  import opened Placing
  import opened Settling
  import opened Ordering

  /** `x` with the fake renamed. */
  ghost function Swap(x: Article?, f: Article, a: Article): Article? {
    if x == f then a else x
  }

  ghost function SwapIn(l: seq<Article>, f: Article, a: Article): (l': seq<Article>)
    ensures |l'| == |l|
  {
    seq(|l|, i requires 0 <= i < |l| => if l[i] == f then a else l[i])
  }

  /** Whose place `q` has after the renaming. */
  ghost function Source(q: Article, f: Article, a: Article): Article {
    if q == a then f else q
  }

  /** The article `a` is known but in no list, has no parent and nobody's parent. */
  ghost predicate Spare(g: State, f: Article, a: Article) {
    && Wf(g.h, g.s) && f != a && f in g.h.parent && a in g.h.parent && a !in g.s.home
    && (forall q :: q in g.h.parent ==> g.h.parent[q] != a)
  }

  ghost function SwapMap(m: map<Article, Article?>, f: Article, a: Article): (m': map<Article, Article?>)
    requires f in m
    ensures m'.Keys == m.Keys - {f}
    ensures forall q :: q in m' ==> Source(q, f, a) in m && m'[q] == Swap(m[Source(q, f, a)], f, a)
  {
    map q | q in m && q != f :: Swap(m[Source(q, f, a)], f, a)
  }

  /** (The sibling pointer of an unlinked article means nothing.) */
  ghost function SwapSiblings(m: map<Article, Article?>, linked: set<Article>, f: Article, a: Article)
    : (m': map<Article, Article?>)
    requires f in m
    ensures m'.Keys == m.Keys - {f}
    ensures forall q :: q in m' ==> Source(q, f, a) in m
    ensures forall q :: q in m' ==>
      m'[q] == if Source(q, f, a) in linked then Swap(m[Source(q, f, a)], f, a) else m[Source(q, f, a)]
  {
    map q | q in m && q != f :: if Source(q, f, a) in linked then Swap(m[Source(q, f, a)], f, a) else m[Source(q, f, a)]
  }

  ghost function SwapThreads(m: map<Subject, Article?>, f: Article, a: Article): (m': map<Subject, Article?>)
    ensures m'.Keys == m.Keys && forall t :: t in m' ==> m'[t] == Swap(m[t], f, a)
  {
    map t | t in m :: Swap(m[t], f, a)
  }

  ghost function SwapKids(m: map<Article, seq<Article>>, f: Article, a: Article): (m': map<Article, seq<Article>>)
    requires f in m
    ensures m'.Keys == m.Keys - {f}
    ensures forall q :: q in m' ==> Source(q, f, a) in m && m'[q] == SwapIn(m[Source(q, f, a)], f, a)
  {
    map q | q in m && q != f :: SwapIn(m[Source(q, f, a)], f, a)
  }

  ghost function SwapTops(m: map<Subject, seq<Article>>, f: Article, a: Article): (m': map<Subject, seq<Article>>)
    ensures m'.Keys == m.Keys && forall t :: t in m' ==> m'[t] == SwapIn(m[t], f, a)
  {
    map t | t in m :: SwapIn(m[t], f, a)
  }

  ghost function SwapHome(m: map<Article, Subject>, all: set<Article>, f: Article, a: Article): (m': map<Article, Subject>)
    ensures m'.Keys <= all - {f}
    ensures forall q :: q in all && q != f ==> (q in m' <==> Source(q, f, a) in m)
    ensures forall q :: q in m' ==> Source(q, f, a) in m && m'[q] == m[Source(q, f, a)]
  {
    map q | q in all && q != f && Source(q, f, a) in m :: m[Source(q, f, a)]
  }

  /** The forest with fake `f` renamed to `a`. */
  ghost function Renamed(g: State, f: Article, a: Article): State
    requires Domains(g.h, g.s) && f in g.h.parent
  {
    State(
      Links(SwapMap(g.h.parent, f, a), SwapMap(g.h.child1, f, a), SwapSiblings(g.h.sibling, g.s.home.Keys, f, a),
            g.h.subj - {f}, g.h.date - {f}, SwapThreads(g.h.thread, f, a), g.h.link),
      Shape(SwapKids(g.s.kids, f, a), SwapTops(g.s.tops, f, a), g.s.ring, SwapHome(g.s.home, g.h.parent.Keys, f, a)))
  }

  // ---- Lists ----------------------------------------------------------------------------------------

  lemma SwapInMembers(l: seq<Article>, f: Article, a: Article, x: Article)
    requires a !in l && f != a
    ensures x in SwapIn(l, f, a) <==> x != f && Source(x, f, a) in l
  {
    var l' := SwapIn(l, f, a);
    if x in l' {
      var i :| 0 <= i < |l'| && l'[i] == x;
      assert l[i] in l;
    }
    if x != f && Source(x, f, a) in l {
      var i :| 0 <= i < |l| && l[i] == Source(x, f, a);
      assert l'[i] == x;
    }
  }

  lemma SwapInNoDup(l: seq<Article>, f: Article, a: Article)
    requires NoDup(l) && a !in l
    ensures NoDup(SwapIn(l, f, a))
  {
    var l' := SwapIn(l, f, a);
    forall i, j | 0 <= i < j < |l'| ensures l'[i] != l'[j] {
      assert l[i] in l && l[j] in l;
    }
  }

  lemma SwapInChain(m: map<Article, Article?>, linked: set<Article>, f: Article, a: Article, first: Article?, l: seq<Article>)
    requires f in m && a in m && f != a && Chain(m, first, l) && a !in l && forall x :: x in l ==> x in linked
    ensures Chain(SwapSiblings(m, linked, f, a), Swap(first, f, a), SwapIn(l, f, a))
  {
    hide SwapSiblings;
    var l', m' := SwapIn(l, f, a), SwapSiblings(m, linked, f, a);
    forall i | 0 <= i < |l'| ensures l'[i] in m' && m'[l'[i]] == At(l', i + 1) {
      assert l[i] in l && Source(l'[i], f, a) == l[i] && l'[i] in m';
    }
  }

  // ---- The renamed forest is well formed ---------------------------------------------------------------

  /** What the renaming makes of one article. */
  lemma RenamedAt(g: State, f: Article, a: Article, q: Article)
    requires Domains(g.h, g.s) && f in g.h.parent && q in g.h.parent && q != f
    ensures
      var g', z := Renamed(g, f, a), Source(q, f, a);
      && z in g.h.parent && q in g'.h.parent && g'.h.parent[q] == Swap(g.h.parent[z], f, a)
      && q in g'.h.child1 && z in g.h.child1 && g'.h.child1[q] == Swap(g.h.child1[z], f, a)
      && q in g'.s.kids && z in g.s.kids && g'.s.kids[q] == SwapIn(g.s.kids[z], f, a)
      && (q in g'.s.home <==> z in g.s.home) && (z in g.s.home ==> g'.s.home[q] == g.s.home[z])
  {
  }

  lemma RenamedSiblings(g: State, f: Article, a: Article)
    requires Domains(g.h, g.s) && f in g.h.parent
    ensures Renamed(g, f, a).h.sibling == SwapSiblings(g.h.sibling, g.s.home.Keys, f, a)
    ensures Renamed(g, f, a).h.parent == SwapMap(g.h.parent, f, a)
  {
  }

  lemma RenamedSubject(g: State, f: Article, a: Article, t: Subject)
    requires Domains(g.h, g.s) && f in g.h.parent && t in g.h.thread
    ensures
      var g' := Renamed(g, f, a);
      && t in g'.h.thread && g'.h.thread[t] == Swap(g.h.thread[t], f, a)
      && t in g'.s.tops && t in g.s.tops && g'.s.tops[t] == SwapIn(g.s.tops[t], f, a)
      && g'.s.ring == g.s.ring && g'.h.link == g.h.link && g'.s.tops.Keys == g.s.tops.Keys
  {
  }

  lemma RenamedKeySets(g: State, f: Article, a: Article)
    requires Domains(g.h, g.s) && f in g.h.parent
    ensures
      var h', s', all := Renamed(g, f, a).h, Renamed(g, f, a).s, g.h.parent.Keys - {f};
      && h'.parent.Keys == all && h'.child1.Keys == all && h'.sibling.Keys == all && s'.kids.Keys == all
      && h'.subj == g.h.subj - {f} && h'.date == g.h.date - {f} && h'.thread.Keys == g.h.thread.Keys
      && h'.link == g.h.link && s'.ring == g.s.ring && s'.tops.Keys == g.s.tops.Keys && s'.home.Keys <= all
  {
  }

  lemma RenamedDomains(g: State, f: Article, a: Article)
    requires Spare(g, f, a)
    ensures Domains(Renamed(g, f, a).h, Renamed(g, f, a).s) && Targets(Renamed(g, f, a).h, Renamed(g, f, a).s)
  {
    hide Wf, KidsOk, TopsOk, RingOk, Filed, Renamed;
    WfElim(g.h, g.s);
    RenamedKeySets(g, f, a);
    var h', s' := Renamed(g, f, a).h, Renamed(g, f, a).s;
    forall q {:trigger ParentKnown(h'.parent, q)} | q in h'.parent ensures ParentKnown(h'.parent, q) {
      RenamedAt(g, f, a, q);
      assert ParentKnown(g.h.parent, Source(q, f, a));
    }
    forall q | q in s'.home ensures s'.home[q] in h'.thread {
      RenamedAt(g, f, a, q);
    }
  }

  lemma SwappedKid(g: State, f: Article, a: Article, z: Article, x: Article)
    requires Domains(g.h, g.s) && f in g.h.parent && a in g.h.parent && f != a && a !in g.s.home
    requires z in g.s.kids && KidsOk(g.h, g.s, z) && x in SwapIn(g.s.kids[z], f, a) && z != a
    ensures x in Renamed(g, f, a).s.home && x in Renamed(g, f, a).h.parent
    ensures Renamed(g, f, a).h.parent[x] == Swap(z, f, a)
  {
    hide Chain, Renamed;
    SwapInMembers(g.s.kids[z], f, a, x);
    assert Source(x, f, a) in g.s.kids[z];
    RenamedAt(g, f, a, x);
  }

  lemma RenamedKids(g: State, f: Article, a: Article, q: Article)
    requires Spare(g, f, a) && q in g.h.parent && q != f
    ensures KidsOk(Renamed(g, f, a).h, Renamed(g, f, a).s, q)
  {
    hide Wf, Chain, NoDup, Renamed, SwapIn, SwapSiblings, SwapMap;
    WfDomains(g);
    var z, g' := Source(q, f, a), Renamed(g, f, a);
    KidsOf(g, z);
    RenamedAt(g, f, a, q);
    var l := g.s.kids[z];
    SwapInNoDup(l, f, a);
    SwapInChain(g.h.sibling, g.s.home.Keys, f, a, g.h.child1[z], l);
    RenamedSiblings(g, f, a);
    forall x | x in SwapIn(l, f, a) ensures x in g'.s.home && x in g'.h.parent && g'.h.parent[x] == q {
      SwappedKid(g, f, a, z, x);
    }
  }

  lemma KidsOf(g: State, p: Article)
    requires Wf(g.h, g.s) && p in g.h.parent
    ensures KidsOk(g.h, g.s, p)
  {
  }

  lemma TopsAndRing(g: State, t: Subject)
    requires Wf(g.h, g.s) && t in g.h.thread
    ensures TopsOk(g.h, g.s, t) && RingOk(g.h, g.s, t)
  {
  }

  lemma SwappedTop(g: State, f: Article, a: Article, t: Subject, x: Article)
    requires Domains(g.h, g.s) && f in g.h.parent && a in g.h.parent && f != a && a !in g.s.home
    requires TopsOk(g.h, g.s, t) && x in SwapIn(g.s.tops[t], f, a)
    ensures
      var g' := Renamed(g, f, a);
      && x in g'.s.home && x in g'.h.parent && g'.h.parent[x] == null && g'.s.home[x] in g'.s.ring
      && t in g'.s.ring && g'.s.ring[g'.s.home[x]] == g'.s.ring[t]
  {
    hide Chain, NoDup, Renamed;
    SwapInMembers(g.s.tops[t], f, a, x);
    assert Source(x, f, a) in g.s.tops[t];
    RenamedAt(g, f, a, x);
    RenamedSubject(g, f, a, t);
  }

  lemma SpareKeys(g: State, f: Article, a: Article)
    requires Spare(g, f, a)
    ensures f in g.h.sibling && a in g.h.sibling
  {
    hide KidsOk, TopsOk, RingOk, Filed, Targets;
  }

  lemma RenamedTops(g: State, f: Article, a: Article, t: Subject)
    requires Spare(g, f, a) && t in g.h.thread
    ensures TopsOk(Renamed(g, f, a).h, Renamed(g, f, a).s, t)
  {
    hide Wf, Chain, RingOk, NoDup, Renamed, SwapIn, SwapSiblings, SwapMap, Domains, Targets;
    WfDomains(g);
    var g' := Renamed(g, f, a);
    TopsAndRing(g, t);
    RenamedSubject(g, f, a, t);
    var l := g.s.tops[t];
    NeverListed(g, a);
    SpareKeys(g, f, a);
    SwapInNoDup(l, f, a);
    SwapInChain(g.h.sibling, g.s.home.Keys, f, a, g.h.thread[t], l);
    RenamedSiblings(g, f, a);
    forall x | x in SwapIn(l, f, a)
      ensures x in g'.s.home && x in g'.h.parent && g'.h.parent[x] == null && g'.s.home[x] in g'.s.ring
              && g'.s.ring[g'.s.home[x]] == g'.s.ring[t] {
      SwappedTop(g, f, a, t, x);
    }
  }

  lemma RenamedRing(g: State, f: Article, a: Article, t: Subject)
    requires Spare(g, f, a) && t in g.h.thread
    ensures RingOk(Renamed(g, f, a).h, Renamed(g, f, a).s, t)
  {
    hide Wf, Cycle, TopsOk, Renamed;
    TopsAndRing(g, t);
    WfDomains(g);
    var g' := Renamed(g, f, a);
    RenamedSubject(g, f, a, t);
    forall u | u in g.s.ring[t] ensures u in g'.s.tops && g'.s.tops[u] == g'.s.tops[t] {
      RenamedSubject(g, f, a, u);
    }
  }

  lemma RenamedFiled(g: State, f: Article, a: Article, x: Article)
    requires Spare(g, f, a) && x in Renamed(g, f, a).s.home
    ensures Filed(Renamed(g, f, a).h, Renamed(g, f, a).s, x)
  {
    hide Wf, Renamed, SwapIn;
    WfDomains(g);
    var z, g' := Source(x, f, a), Renamed(g, f, a);
    RenamedKeySets(g, f, a);
    RenamedAt(g, f, a, x);
    HomeFacts(g, z);
    NeverListed(g, a);
    var p := g.h.parent[z];
    if p == null {
      RenamedSubject(g, f, a, g.s.home[z]);
      SwapInMembers(g.s.tops[g.s.home[z]], f, a, x);
    } else {
      RenamedAt(g, f, a, if p == f then a else p);
      SwapInMembers(g.s.kids[p], f, a, x);
    }
  }

  lemma NeverListed(g: State, a: Article)
    requires Wf(g.h, g.s) && a !in g.s.home
    ensures forall q :: q in g.s.kids ==> a !in g.s.kids[q]
    ensures forall t :: t in g.s.tops ==> a !in g.s.tops[t]
  {
    forall q | q in g.s.kids ensures a !in g.s.kids[q] { assert KidsOk(g.h, g.s, q); }
    forall t | t in g.s.tops ensures a !in g.s.tops[t] { assert TopsOk(g.h, g.s, t); }
  }

  lemma RenamedWf(g: State, f: Article, a: Article)
    requires Spare(g, f, a)
    ensures Wf(Renamed(g, f, a).h, Renamed(g, f, a).s)
  {
    hide Wf, Domains, Targets, KidsOk, TopsOk, RingOk, Filed, Renamed;
    WfElim(g.h, g.s);
    RenamedKeySets(g, f, a);
    var h', s' := Renamed(g, f, a).h, Renamed(g, f, a).s;
    RenamedDomains(g, f, a);
    forall p | p in h'.parent ensures KidsOk(h', s', p) { RenamedKids(g, f, a, p); }
    forall t | t in h'.thread ensures TopsOk(h', s', t) { RenamedTops(g, f, a, t); }
    forall t | t in h'.thread ensures RingOk(h', s', t) { RenamedRing(g, f, a, t); }
    forall x | x in s'.home ensures Filed(h', s', x) { RenamedFiled(g, f, a, x); }
    WfIntro(h', s');
  }

  // ---- It has no cycles -----------------------------------------------------------------------------------

  /** The walk up after the renaming is the renamed walk. */
  lemma {:induction false} SwappedUp(p: ParentMap, f: Article, a: Article, x: Article?, n: nat)
    requires f in p && a in p && f != a && x != a && (x != null ==> x in p) && forall q :: q in p ==> p[q] != a
    requires forall q {:trigger ParentKnown(p, q)} :: q in p ==> ParentKnown(p, q)
    ensures Up(SwapMap(p, f, a), Swap(x, f, a), n) == Swap(Up(p, x, n), f, a)
    decreases n
  {
    hide SwapMap;
    if n > 0 && x != null {
      var p', x' := SwapMap(p, f, a), Swap(x, f, a);
      assert ParentKnown(p, x);
      assert x' in p' && Source(x', f, a) == x;
      SwappedUp(p, f, a, p[x], n - 1);
    }
  }

  lemma RenamedGrounded(g: State, f: Article, a: Article)
    requires Spare(g, f, a) && Grounded(g.h.parent)
    ensures Grounded(Renamed(g, f, a).h.parent)
  {
    hide Wf, Renamed, SwapMap, Up;
    WfDomains(g);
    RenamedSiblings(g, f, a);
    var p' := SwapMap(g.h.parent, f, a);
    forall q | q in p' ensures Ends(p', q) {
      var z := Source(q, f, a);
      assert Ends(g.h.parent, z);
      var n: nat :| Up(g.h.parent, z, n) == null;
      SwappedUp(g.h.parent, f, a, z, n);
      assert Swap(z, f, a) == q;
    }
  }

  // ---- Everything is in its place ---------------------------------------------------------------------------

  /** A real article with a subject that is not linked yet. */
  ghost predicate Waiting(g: State, a: Article, base: Subject) {
    Chained(g, a, base, [a]) && Kids(g, a) == []
  }

  lemma WaitingWf(g: State, a: Article, base: Subject)
    requires Waiting(g, a, base)
    ensures Wf(g.h, g.s) && Subj(g, a) == base && Chained(g, a, base, [a])
  {
    hide Wf, Chained;
    AloneElim(g, a, base);
  }

  lemma WaitingIsSpare(g: State, a: Article, base: Subject, f: Article)
    requires Waiting(g, a, base) && f in g.h.parent && f != a
    ensures Spare(g, f, a) && Grounded(g.h.parent) && Coherent(g, a, a, base, []) && base in g.h.thread
    ensures Subj(g, a) == base && Par(g, a) == null
  {
    hide Wf, Grounded, Chained;
    AloneElim(g, a, base);
    forall q | q in g.h.parent ensures g.h.parent[q] != a {
      if q in g.s.home {
        HomeFacts(g, q);
      } else {
        assert Loose(g, q, a, a);
      }
    }
  }

  /** Reading the renamed forest. */
  lemma RenamedReads(g: State, f: Article, a: Article, q: Article)
    requires Spare(g, f, a) && q in g.h.parent && q != f
    ensures
      var g', z := Renamed(g, f, a), Source(q, f, a);
      && Par(g', q) == Swap(Par(g, z), f, a) && Subj(g', q) == Subj(g, q) && Date(g', q) == Date(g, q)
      && Kids(g', q) == SwapIn(Kids(g, z), f, a) && g'.s.ring == g.s.ring
      && HomeRingAt(g', q) == HomeRingAt(g, z) && (q in g'.s.home <==> z in g.s.home)
  {
    hide Wf, Renamed, SwapIn, Swap;
    WfDomains(g);
    RenamedAt(g, f, a, q);
    RenamedKeySets(g, f, a);
  }

  lemma RenamedPlaced(g: State, f: Article, a: Article, base: Subject, q: Article)
    requires Spare(g, f, a) && q in Renamed(g, f, a).s.home && q != a && Placed(g, q, a, base, [])
    ensures Placed(Renamed(g, f, a), q, null, null, [])
  {
    hide Wf, Renamed, SwapIn;
    WfDomains(g);
    RenamedKeySets(g, f, a);
    RenamedReads(g, f, a, q);
    var p := Par(g, q);
    if p != null {
      assert p != a && ParentKnown(g.h.parent, q);
      RenamedReads(g, f, a, if p == f then a else p);
    }
  }

  lemma RenamedLoose(g: State, f: Article, a: Article, q: Article)
    requires Spare(g, f, a) && q in g.h.parent && q != f && q != a && Loose(g, q, a, a)
    ensures Loose(Renamed(g, f, a), q, null, null)
  {
    hide Wf, Renamed;
    RenamedReads(g, f, a, q);
  }

  lemma RenamedOthers(g: State, f: Article, a: Article, base: Subject)
    requires Spare(g, f, a) && Coherent(g, a, a, base, [])
    ensures forall q :: q in Renamed(g, f, a).s.home && q != a ==> Placed(Renamed(g, f, a), q, null, null, [])
    ensures forall q :: q in Renamed(g, f, a).h.parent && q !in Renamed(g, f, a).s.home && q != a ==>
      Loose(Renamed(g, f, a), q, null, null)
  {
    hide Wf, Renamed, Placed, Loose;
    WfDomains(g);
    RenamedKeySets(g, f, a);
    forall q | q in Renamed(g, f, a).s.home && q != a ensures Placed(Renamed(g, f, a), q, null, null, []) {
      RenamedReads(g, f, a, q);
      RenamedPlaced(g, f, a, base, q);
    }
    forall q | q in Renamed(g, f, a).h.parent && q !in Renamed(g, f, a).s.home && q != a
      ensures Loose(Renamed(g, f, a), q, null, null) {
      RenamedReads(g, f, a, q);
      RenamedLoose(g, f, a, q);
    }
  }

  /** A fake that was in a thread leaves its place to the article. */
  lemma RenamedReplaced(g: State, f: Article, a: Article, base: Subject)
    requires Waiting(g, a, base) && f in g.h.parent && f != a && Subj(g, f) != null
    ensures Spare(g, f, a) && Replaced(Renamed(g, f, a), a, Subj(g, f)) && Subj(Renamed(g, f, a), a) == base
  {
    hide Wf, Renamed, Waiting, Grounded, Placed, Loose;
    WaitingIsSpare(g, a, base, f);
    RenamedWf(g, f, a);
    RenamedGrounded(g, f, a);
    WfDomains(g);
    RenamedKeySets(g, f, a);
    RenamedOthers(g, f, a, base);
    RenamedSelf(g, f, a, base);
  }

  lemma RenamedSelf(g: State, f: Article, a: Article, base: Subject)
    requires Spare(g, f, a) && Grounded(g.h.parent) && Coherent(g, a, a, base, []) && Subj(g, f) != null && Subj(g, a) == base
    ensures
      var g', p := Renamed(g, f, a), Par(Renamed(g, f, a), a);
      && a in g'.s.home && Subj(g', a) == base && Subj(g, f) in g.h.thread
      && RingAt(g', Subj(g, f)) == HomeRingAt(g', a) && (p != null ==> p in g'.s.home && HomeRingAt(g', a) == HomeRingAt(g', p))
  {
    hide Wf, Renamed, Grounded;
    RenamedReads(g, f, a, a);
    assert f in g.s.home by { assert f !in g.s.home ==> Loose(g, f, a, a); }
    assert Placed(g, f, a, base, []);
    SubjectKnown(g, f);
    var p := Par(g, f);
    if p != null {
      HomeFacts(g, f);
      NotOwnParent(g.h.parent, f);
      RenamedReads(g, f, a, p);
    }
  }

  lemma NotOwnParent(p: ParentMap, x: Article)
    requires Grounded(p) && x in p
    ensures p[x] != x
  {
    if p[x] == x {
      assert Ends(p, x);
      var n: nat :| Up(p, x, n) == null;
      assert Up(p, x, 1) == Up(p, x, 0);
      CycleNeverEnds(p, x, 1, n);
    }
  }

  /** A fake in no thread only hands over its message-id. */
  lemma RenamedWaiting(g: State, f: Article, a: Article, base: Subject)
    requires Waiting(g, a, base) && f in g.h.parent && f != a && Subj(g, f) == null
    ensures Spare(g, f, a) && Waiting(Renamed(g, f, a), a, base)
  {
    hide Wf, Renamed, Waiting, Grounded, Chained;
    WaitingIsSpare(g, a, base, f);
    RenamedWf(g, f, a);
    RenamedGrounded(g, f, a);
    WfDomains(g);
    RenamedKeySets(g, f, a);
    RenamedOthers(g, f, a, base);
    RenamedReads(g, f, a, a);
    assert f !in g.s.home by { assert f in g.s.home ==> Placed(g, f, a, base, []); }
    assert Loose(g, f, a, a);
    WaitingAgain(Renamed(g, f, a), a, base);
  }

  lemma WaitingAgain(g: State, a: Article, base: Subject)
    requires Wf(g.h, g.s) && Grounded(g.h.parent) && a in g.h.parent && base in g.h.thread && Subj(g, a) == base
    requires a !in g.s.home && Par(g, a) == null && Kids(g, a) == []
    requires forall q :: q in g.s.home && q != a ==> Placed(g, q, null, null, [])
    requires forall q :: q in g.h.parent && q !in g.s.home && q != a ==> Loose(g, q, null, null)
    ensures Waiting(g, a, base)
  {
    hide Wf, Grounded, Chained;
    forall q | q in g.s.home ensures Placed(g, q, a, base, []) { assert Placed(g, q, null, null, []); }
    AloneIntro(g, a, base);
  }

  // ---- The pointers the source moves ----------------------------------------------------------------------

  /** Where the fake sits: `linked` if it is in a list at all, then at position `i` of list `l`
      of ring `r`'s thread or of its parent; `kids` are its children. */
  datatype Place = Place(linked: bool, r: seq<Subject>, l: seq<Article>, i: nat, kids: seq<Article>)

  /** The article has copied the fake's pointers. */
  ghost function Copied(h: Links, f: Article, a: Article): Links
    requires f in h.parent && f in h.child1 && f in h.sibling
  {
    h.(parent := h.parent[a := h.parent[f]], child1 := h.child1[a := h.child1[f]], sibling := h.sibling[a := h.sibling[f]])
  }

  /** What pointed at the fake from its list now points at the article. */
  ghost function HandedOver(h: Links, p: Article?, a: Article, w: Place): Links
    requires w.linked ==> w.i < |w.l|
  {
    if !w.linked then h
    else if w.i > 0 then h.(sibling := h.sibling[w.l[w.i - 1] := a])
    else if p != null then h.(child1 := h.child1[p := a])
    else h.(thread := Fill(h.thread, w.r, a))
  }

  /** The children have been adopted and the fake is gone. */
  ghost function Adopted(h: Links, kids: seq<Article>, f: Article, a: Article): Links {
    Links(Fill(h.parent, kids, a) - {f}, h.child1 - {f}, h.sibling - {f}, h.subj - {f}, h.date - {f}, h.thread, h.link)
  }

  ghost function TakenPlace(h: Links, f: Article, a: Article, w: Place): Links
    requires f in h.parent && f in h.child1 && f in h.sibling && (w.linked ==> w.i < |w.l|)
  {
    Adopted(HandedOver(Copied(h, f, a), h.parent[f], a, w), w.kids, f, a)
  }

  /** What is true of the fake's place. */
  ghost predicate Sits(h: Links, f: Article, a: Article, w: Place) {
    && f in h.parent && f in h.child1 && f in h.sibling && a in h.parent && f != a
    && a !in w.kids && f !in w.kids && (forall q :: q in h.parent && q != a ==> (q in w.kids <==> h.parent[q] == f))
    && (forall q :: q in w.kids ==> q in h.parent) && h.parent[f] != f && h.child1[f] != f
    && (w.linked ==>
          && Seat(h, f, w.r, w.l, w.i) && a !in w.l && h.sibling[f] != f && h.parent[f] != a
          && (forall x :: x in w.l ==> x in h.sibling && h.parent[x] == h.parent[f] && x !in w.kids))
    && (forall q :: q in h.child1 && q != a ==>
          (h.child1[q] == f <==> w.linked && w.i == 0 && h.parent[f] == q))
    && (forall t :: t in h.thread ==>
          (h.thread[t] == f <==> w.linked && w.i == 0 && h.parent[f] == null && t in w.r))
  }

  ghost predicate FollowedBy(g: State, f: Article, w: Place) {
    && w.linked == (f in g.s.home) && (w.linked ==> forall x :: x in w.l ==> x in g.s.home)
    && (forall q :: q in g.s.home && q in g.h.sibling ==>
          (g.h.sibling[q] == f <==> w.linked && 0 < w.i <= |w.l| && w.l[w.i - 1] == q))
  }

  /** Moving the pointers renames the fake. */
  lemma PlaceTaken(g: State, f: Article, a: Article, w: Place)
    requires Spare(g, f, a) && Sits(g.h, f, a, w) && FollowedBy(g, f, w)
    ensures Domains(g.h, g.s) && TakenPlace(g.h, f, a, w) == Renamed(g, f, a).h
  {
    hide Wf, Seat, Chain, NoDup, Renamed, TakenPlace, Sits;
    WfDomains(g);
    RenamedKeySets(g, f, a);
    SitsSeat(g.h, f, a, w);
    var h, h' := TakenPlace(g.h, f, a, w), Renamed(g, f, a).h;
    TakenKeys(g, f, a, w);
    assert h.parent == h'.parent by {
      forall q | q in h'.parent ensures h.parent[q] == h'.parent[q] { TakenParent(g, f, a, w, q); }
    }
    assert h.child1 == h'.child1 by {
      forall q | q in h'.child1 ensures h.child1[q] == h'.child1[q] { TakenChild(g, f, a, w, q); }
    }
    assert h.sibling == h'.sibling by {
      forall q | q in h'.sibling ensures h.sibling[q] == h'.sibling[q] { TakenSibling(g, f, a, w, q); }
    }
    assert h.thread == h'.thread by {
      forall t | t in h'.thread ensures h.thread[t] == h'.thread[t] { TakenThread(g, f, a, w, t); }
    }
  }

  lemma SitsSeat(h: Links, f: Article, a: Article, w: Place)
    requires Sits(h, f, a, w)
    ensures f in h.parent && f in h.child1 && f in h.sibling && (w.linked ==> w.i < |w.l|)
  {
    hide Chain, NoDup;
  }

  lemma TakenKeys(g: State, f: Article, a: Article, w: Place)
    requires Domains(g.h, g.s) && Sits(g.h, f, a, w)
    ensures f in g.h.parent && f in g.h.child1 && f in g.h.sibling && (w.linked ==> w.i < |w.l|)
    ensures
      var h, all := TakenPlace(g.h, f, a, w), g.h.parent.Keys - {f};
      && h.parent.Keys == all && h.child1.Keys == all && h.sibling.Keys == all && h.thread.Keys == g.h.thread.Keys
      && h.subj == g.h.subj - {f} && h.date == g.h.date - {f} && h.link == g.h.link
  {
    hide Sits, Seat, TakenPlace;
    SitsSibling(g.h, f, a, w);
    SitsParent(g.h, f, a, w);
    TakenParents(g.h, f, a, w);
    TakenSiblings(g.h, f, a, w);
    TakenOthers(g.h, f, a, w);
  }

  lemma TakenParents(h: Links, f: Article, a: Article, w: Place)
    requires f in h.parent && f in h.child1 && f in h.sibling && (w.linked ==> w.i < |w.l|)
    ensures TakenPlace(h, f, a, w).parent == Fill(h.parent[a := h.parent[f]], w.kids, a) - {f}
    ensures
      var m, p := h.child1[a := h.child1[f]], h.parent[f];
      TakenPlace(h, f, a, w).child1 == (if w.linked && w.i == 0 && p != null then m[p := a] else m) - {f}
  {
  }

  lemma TakenOthers(h: Links, f: Article, a: Article, w: Place)
    requires f in h.parent && f in h.child1 && f in h.sibling && (w.linked ==> w.i < |w.l|)
    ensures
      var h' := TakenPlace(h, f, a, w);
      h'.thread.Keys == h.thread.Keys && h'.subj == h.subj - {f} && h'.date == h.date - {f} && h'.link == h.link
  {
    hide HandedOver, Copied;
    HandedOverOthers(Copied(h, f, a), h.parent[f], a, w);
    CopiedOthers(h, f, a);
  }

  lemma HandedOverOthers(h: Links, p: Article?, a: Article, w: Place)
    requires w.linked ==> w.i < |w.l|
    ensures var h' := HandedOver(h, p, a, w);
      h'.thread.Keys == h.thread.Keys && h'.subj == h.subj && h'.date == h.date && h'.link == h.link
  {
  }

  lemma CopiedOthers(h: Links, f: Article, a: Article)
    requires f in h.parent && f in h.child1 && f in h.sibling
    ensures var h' := Copied(h, f, a);
      h'.thread == h.thread && h'.subj == h.subj && h'.date == h.date && h'.link == h.link
  {
  }

  lemma SitsParent(h: Links, f: Article, a: Article, w: Place)
    requires Sits(h, f, a, w)
    ensures a in h.parent && f in h.parent
    ensures w.linked && h.parent[f] != null ==> h.parent[f] in h.child1
  {
  }

  lemma TakenParent(g: State, f: Article, a: Article, w: Place, q: Article)
    requires Domains(g.h, g.s) && Sits(g.h, f, a, w) && (w.linked ==> w.i < |w.l|) && q in g.h.parent && q != f
    ensures f in g.h.child1 && f in g.h.sibling
    ensures q in TakenPlace(g.h, f, a, w).parent && q in Renamed(g, f, a).h.parent
    ensures TakenPlace(g.h, f, a, w).parent[q] == Renamed(g, f, a).h.parent[q]
  {
    hide Seat, Renamed, TakenPlace;
    TakenParents(g.h, f, a, w);
    RenamedAt(g, f, a, q);
  }

  lemma TakenChild(g: State, f: Article, a: Article, w: Place, q: Article)
    requires Domains(g.h, g.s) && Sits(g.h, f, a, w) && (w.linked ==> w.i < |w.l|) && q in g.h.parent && q != f
    ensures f in g.h.child1 && f in g.h.sibling
    ensures q in TakenPlace(g.h, f, a, w).child1 && q in Renamed(g, f, a).h.child1
    ensures TakenPlace(g.h, f, a, w).child1[q] == Renamed(g, f, a).h.child1[q]
  {
    hide Seat, Renamed, TakenPlace;
    TakenParents(g.h, f, a, w);
    RenamedAt(g, f, a, q);
  }

  lemma TakenSibling(g: State, f: Article, a: Article, w: Place, q: Article)
    requires Domains(g.h, g.s) && Sits(g.h, f, a, w) && FollowedBy(g, f, w) && (w.linked ==> w.i < |w.l|)
    requires q in g.h.parent && q != f && a !in g.s.home
    ensures f in g.h.child1 && f in g.h.sibling
    ensures q in TakenPlace(g.h, f, a, w).sibling && q in Renamed(g, f, a).h.sibling
    ensures TakenPlace(g.h, f, a, w).sibling[q] == Renamed(g, f, a).h.sibling[q]
  {
    hide Sits, Seat, FollowedBy, Renamed, TakenPlace;
    SitsSibling(g.h, f, a, w);
    RenamedSiblings(g, f, a);
    TakenSiblings(g.h, f, a, w);
    FollowedAt(g, f, w, q);
    FollowedAt(g, f, w, f);
  }

  lemma FollowedAt(g: State, f: Article, w: Place, q: Article)
    requires FollowedBy(g, f, w) && q in g.h.sibling
    ensures w.linked == (f in g.s.home) && (w.linked && 0 < w.i <= |w.l| ==> w.l[w.i - 1] in g.s.home)
    ensures q in g.s.home ==> (g.h.sibling[q] == f <==> w.linked && 0 < w.i <= |w.l| && w.l[w.i - 1] == q)
  {
  }

  lemma TakenSiblings(h: Links, f: Article, a: Article, w: Place)
    requires f in h.parent && f in h.child1 && f in h.sibling && (w.linked ==> w.i < |w.l|)
    ensures
      var m := h.sibling[a := h.sibling[f]];
      TakenPlace(h, f, a, w).sibling == (if w.linked && w.i > 0 then m[w.l[w.i - 1] := a] else m) - {f}
  {
  }

  lemma SitsSibling(h: Links, f: Article, a: Article, w: Place)
    requires Sits(h, f, a, w)
    ensures f in h.parent && f in h.child1 && f in h.sibling && f != a
    ensures w.linked ==> w.i < |w.l| && h.sibling[f] != f
    ensures w.linked && w.i > 0 ==> w.l[w.i - 1] != a && w.l[w.i - 1] != f && w.l[w.i - 1] in h.sibling
  {
    if w.linked && w.i > 0 {
      assert w.l[w.i - 1] in w.l && w.l[w.i - 1] != w.l[w.i];
    }
  }

  lemma TakenThread(g: State, f: Article, a: Article, w: Place, t: Subject)
    requires Domains(g.h, g.s) && Sits(g.h, f, a, w) && (w.linked ==> w.i < |w.l|) && t in g.h.thread
    ensures f in g.h.child1 && f in g.h.sibling
    ensures t in TakenPlace(g.h, f, a, w).thread && t in Renamed(g, f, a).h.thread
    ensures TakenPlace(g.h, f, a, w).thread[t] == Renamed(g, f, a).h.thread[t]
  {
    hide Seat, Renamed;
    RenamedSubject(g, f, a, t);
  }

  ghost function PlaceOf(g: State, f: Article): (w: Place)
    requires Wf(g.h, g.s) && f in g.h.parent
    ensures f in g.s.kids
    ensures w.kids == g.s.kids[f] && w.linked == (f in g.s.home)
    ensures w.linked ==> w.r == HomeRing(g, f) && w.l == ListWith(g, f) && w.i == IndexOf(w.l, f)
  {
    WfDomains(g);
    if f in g.s.home then Place(true, HomeRing(g, f), ListWith(g, f), IndexOf(ListWith(g, f), f), g.s.kids[f])
    else Place(false, [], [], 0, g.s.kids[f])
  }

  /** Where the fake sits. */
  lemma ListIn(g: State, f: Article)
    requires Wf(g.h, g.s) && f in g.s.home
    ensures f in g.h.parent && Seat(g.h, f, HomeRing(g, f), ListWith(g, f), IndexOf(ListWith(g, f), f))
    ensures Chain(g.h.sibling, At(ListWith(g, f), 0), ListWith(g, f)) && NoDup(ListWith(g, f))
    ensures forall x :: x in ListWith(g, f) ==> x in g.s.home && x in g.h.parent && x in g.h.sibling && g.h.parent[x] == g.h.parent[f]
    ensures g.h.parent[f] != null ==> g.h.parent[f] in g.s.kids && ListWith(g, f) == g.s.kids[g.h.parent[f]]
    ensures g.h.parent[f] == null ==> forall t :: t in HomeRing(g, f) ==>
      t in g.h.thread && g.h.thread[t] == At(ListWith(g, f), 0)
  {
    hide Cycle;
    UnlinkFacts(g, f);
    HomeFacts(g, f);
    if g.h.parent[f] == null {
      assert TopsOk(g.h, g.s, g.s.home[f]);
    } else {
      assert KidsOk(g.h, g.s, g.h.parent[f]);
    }
  }

  lemma KidsAre(g: State, p: Article)
    requires Wf(g.h, g.s) && p in g.h.parent
    ensures p in g.s.kids && forall x :: x in g.s.kids[p] ==> x in g.h.parent && g.h.parent[x] == p && x in g.s.home
    ensures p in g.h.child1 && g.h.child1[p] == At(g.s.kids[p], 0)
  {
    assert KidsOk(g.h, g.s, p);
  }

  /** An article is the head of its list exactly if it is found there first. */
  lemma HeadIsFirst(g: State, f: Article)
    requires Wf(g.h, g.s) && f in g.s.home
    ensures ListWith(g, f) != []
    ensures At(ListWith(g, f), 0) == f <==> IndexOf(ListWith(g, f), f) == 0
  {
    hide Wf;
  }

  /** `f` is the first child of `q` exactly if it heads its list and `q` is its parent. */
  lemma FirstChild(g: State, f: Article, q: Article)
    requires Wf(g.h, g.s) && f in g.h.parent && q in g.h.parent
    ensures q in g.h.child1
    ensures g.h.child1[q] == f <==> f in g.s.home && IndexOf(ListWith(g, f), f) == 0 && g.h.parent[f] == q
  {
    hide Wf, Cycle, Seat, Chain;
    KidsAre(g, q);
    if g.h.child1[q] == f {
      assert f in g.s.kids[q];
    }
    if f in g.s.home {
      ListIn(g, f);
      HeadIsFirst(g, f);
    }
  }

  /** ... and likewise for the heads of threads. */
  lemma FirstOfThread(g: State, f: Article, t: Subject)
    requires Wf(g.h, g.s) && f in g.h.parent && t in g.h.thread
    ensures g.h.thread[t] == f <==>
      f in g.s.home && IndexOf(ListWith(g, f), f) == 0 && g.h.parent[f] == null && t in HomeRing(g, f)
  {
    hide Wf, Cycle, Seat, Chain;
    if g.h.thread[t] == f {
      HeadHome(g, f, t);
    }
    if f in g.s.home {
      ListIn(g, f);
      HeadIsFirst(g, f);
    }
  }

  /** The head of a thread is filed in it. */
  lemma HeadHome(g: State, f: Article, t: Subject)
    requires Wf(g.h, g.s) && t in g.h.thread && g.h.thread[t] == f && f in g.h.parent
    ensures f in g.s.home && g.h.parent[f] == null && t in HomeRing(g, f)
  {
    TopsAndRing(g, t);
    assert f in g.s.tops[t];
  }

  /** A linked article points at `f` exactly if it is the one in front of it in `f`'s list. */
  lemma SiblingAfter(g: State, q: Article, f: Article)
    requires Wf(g.h, g.s) && q in g.s.home && q in g.h.sibling && f in g.h.parent
    ensures g.h.sibling[q] == f <==>
      f in g.s.home && IndexOf(ListWith(g, f), f) > 0 && ListWith(g, f)[IndexOf(ListWith(g, f), f) - 1] == q
  {
    hide Wf, Cycle;
    ListIn(g, q);
    var l, j := ListWith(g, q), IndexOf(ListWith(g, q), q);
    if f in g.s.home {
      ListIn(g, f);
    }
    if g.h.sibling[q] == f {
      assert l[j + 1] == f && f in l;
      SameList(g, q, f);
      var k := IndexOf(ListWith(g, f), f);
      assert l[k] == f;
    }
  }

  lemma SameList(g: State, q: Article, f: Article)
    requires Wf(g.h, g.s) && q in g.s.home && f in g.h.parent && f in ListWith(g, q)
    ensures f in g.s.home && ListWith(g, f) == ListWith(g, q)
  {
    hide Wf, Cycle;
    ListIn(g, q);
    HomeFacts(g, q);
    HomeFacts(g, f);
    if g.h.parent[q] == null {
      HomeRings(g, q, f);
      SameRingSameTops(g, g.s.home[q], g.s.home[f]);
    }
  }

  lemma HomeRings(g: State, q: Article, f: Article)
    requires Wf(g.h, g.s) && q in g.s.home && q in g.h.parent && g.h.parent[q] == null && f in ListWith(g, q)
    ensures f in g.s.home && HomeRingAt(g, f) == HomeRingAt(g, q)
    ensures g.s.home[q] in g.h.thread && g.s.home[f] in g.h.thread
  {
    HomeFacts(g, q);
    assert TopsOk(g.h, g.s, g.s.home[q]);
    HomeFacts(g, f);
  }

  /** The source finds the fake where it sits. */
  lemma WaitingSits(g: State, a: Article, base: Subject, f: Article)
    requires Waiting(g, a, base) && f in g.h.parent && f != a
    ensures Spare(g, f, a) && Sits(g.h, f, a, PlaceOf(g, f)) && FollowedBy(g, f, PlaceOf(g, f))
  {
    hide Wf, Waiting, Coherent, Grounded, Seat, Chain, PlaceOf, Cycle;
    WaitingIsSpare(g, a, base, f);
    WfDomains(g);
    var w := PlaceOf(g, f);
    KidsAre(g, f);
    NotOwnParent(g.h.parent, f);
    NeverListed(g, a);
    forall q | q in g.h.parent && q != a ensures q in w.kids <==> g.h.parent[q] == f {
      ChildIff(g, a, base, f, q);
    }
    forall q | q in g.h.child1 && q != a ensures g.h.child1[q] == f <==> w.linked && w.i == 0 && g.h.parent[f] == q {
      FirstChild(g, f, q);
    }
    forall t | t in g.h.thread
      ensures g.h.thread[t] == f <==> w.linked && w.i == 0 && g.h.parent[f] == null && t in w.r {
      FirstOfThread(g, f, t);
    }
    if w.linked {
      ListIn(g, f);
      ListDiffers(g, a, f);
    }
    forall q | q in g.s.home && q in g.h.sibling
      ensures g.h.sibling[q] == f <==> w.linked && 0 < w.i <= |w.l| && w.l[w.i - 1] == q {
      SiblingAfter(g, q, f);
    }
  }

  lemma ChildIff(g: State, a: Article, base: Subject, f: Article, q: Article)
    requires Wf(g.h, g.s) && Coherent(g, a, a, base, []) && q in g.h.parent && f in g.s.kids && q != a
    ensures q in g.s.kids[f] <==> g.h.parent[q] == f
  {
    hide Wf;
    if q in g.s.kids[f] {
      KidsLink(g, f, q);
    }
    if g.h.parent[q] == f {
      assert q in g.s.home by { assert q !in g.s.home ==> Loose(g, q, a, a); }
      KidsEmptyOrHome(g, q, f);
    }
  }

  lemma KidsLink(g: State, f: Article, q: Article)
    requires Wf(g.h, g.s) && f in g.s.kids && q in g.s.kids[f]
    ensures q in g.h.parent && g.h.parent[q] == f
  {
    assert KidsOk(g.h, g.s, f);
  }

  lemma ListDiffers(g: State, a: Article, f: Article)
    requires Spare(g, f, a) && f in g.s.home && g.h.parent[f] != f
    ensures f in g.s.kids && g.h.parent[f] != a && a !in ListWith(g, f)
    ensures f in g.h.sibling && g.h.sibling[f] != f
    ensures forall x :: x in ListWith(g, f) ==> x !in g.s.kids[f]
  {
    hide Wf, Cycle;
    ListIn(g, f);
    KidsAre(g, f);
    var l, i := ListWith(g, f), IndexOf(ListWith(g, f), f);
    assert g.h.sibling[f] == At(l, i + 1);
  }

  /** The article's own pointers are in nobody's way. */
  lemma SeatCopied(h: Links, f: Article, a: Article, w: Place)
    requires Sits(h, f, a, w) && w.linked
    ensures Seat(Copied(h, f, a), f, w.r, w.l, w.i)
  {
    var h1 := Copied(h, f, a);
    if h.parent[f] != null {
      ChainFrame(h.sibling, h1.sibling, h.child1[h.parent[f]], w.l);
    } else {
      forall t | t in w.r ensures Chain(h1.sibling, h1.thread[t], w.l) {
        ChainFrame(h.sibling, h1.sibling, h.thread[t], w.l);
      }
    }
  }

  /** The children's chain is untouched while the fake's place is handed over. */
  lemma KidsHandedOver(h: Links, f: Article, a: Article, w: Place)
    requires Sits(h, f, a, w) && Chain(h.sibling, h.child1[f], w.kids)
    ensures w.linked ==> w.i < |w.l|
    ensures
      var h2 := HandedOver(Copied(h, f, a), h.parent[f], a, w);
      Chain(h2.sibling, h.child1[f], w.kids) && a in h2.child1 && h2.child1[a] == h.child1[f]
  {
    var h2 := HandedOver(Copied(h, f, a), h.parent[f], a, w);
    if w.linked && w.i > 0 {
      assert w.l[w.i - 1] in w.l;
    }
    ChainFrame(h.sibling, h2.sibling, h.child1[f], w.kids);
  }

  /** What moving the pointers of the fake needs to know. */
  lemma PlaceFacts(g: State, a: Article, base: Subject, f: Article)
    requires Waiting(g, a, base) && f in g.h.parent && f != a
    ensures Wf(g.h, g.s) && Sits(g.h, f, a, PlaceOf(g, f)) && f in g.h.parent && f in g.h.child1 && f in g.h.sibling
    ensures Chain(g.h.sibling, g.h.child1[f], PlaceOf(g, f).kids)
    ensures PlaceOf(g, f).linked ==> PlaceOf(g, f).i < |PlaceOf(g, f).l|
    ensures PlaceOf(g, f).linked ==> Seat(Copied(g.h, f, a), f, PlaceOf(g, f).r, PlaceOf(g, f).l, PlaceOf(g, f).i)
    ensures PlaceOf(g, f).linked <==> Subj(g, f) != null
    ensures PlaceOf(g, f).linked && g.h.parent[f] == null ==> Subj(g, f) in PlaceOf(g, f).r
    ensures !PlaceOf(g, f).linked ==> g.h.parent[f] == null
    ensures Domains(g.h, g.s) && TakenPlace(g.h, f, a, PlaceOf(g, f)) == Renamed(g, f, a).h
  {
    hide Wf, Waiting, Coherent, Grounded, Seat, Chain, PlaceOf, Cycle, Sits, TakenPlace, Renamed, Copied, Spare;
    WaitingSits(g, a, base, f);
    SpareWf(g, f, a);
    WaitingIsSpare(g, a, base, f);
    PlaceTaken(g, f, a, PlaceOf(g, f));
    SitsSibling(g.h, f, a, PlaceOf(g, f));
    KidsChain(g, f);
    LinkedHasSubject(g, a, base, f);
    if PlaceOf(g, f).linked {
      SeatCopied(g.h, f, a, PlaceOf(g, f));
    }
  }

  lemma SpareWf(g: State, f: Article, a: Article)
    requires Spare(g, f, a)
    ensures Wf(g.h, g.s) && Domains(g.h, g.s)
  {
  }

  lemma KidsChain(g: State, p: Article)
    requires Wf(g.h, g.s) && p in g.h.parent
    ensures p in g.h.child1 && p in g.s.kids && Chain(g.h.sibling, g.h.child1[p], g.s.kids[p])
  {
    assert KidsOk(g.h, g.s, p);
  }

  lemma LinkedHasSubject(g: State, a: Article, base: Subject, f: Article)
    requires Wf(g.h, g.s) && Coherent(g, a, a, base, []) && f in g.h.parent && f != a
    ensures f in g.s.home <==> Subj(g, f) != null
    ensures f in g.s.home ==> Subj(g, f) in HomeRing(g, f)
    ensures f !in g.s.home ==> g.h.parent[f] == null
  {
    hide Wf;
    if f in g.s.home {
      assert Placed(g, f, a, base, []);
      HomeFacts(g, f);
      SubjectKnown(g, f);
      RingFacts(g, Subj(g, f));
    } else {
      assert Loose(g, f, a, a);
    }
  }

  lemma CopiedFields(h: Links, f: Article, a: Article)
    requires f in h.parent && f in h.child1 && f in h.sibling && a != f
    ensures f in Copied(h, f, a).parent && Copied(h, f, a).parent[f] == h.parent[f]
  {
  }

  lemma HandedOverParents(h: Links, p: Article?, a: Article, w: Place)
    requires w.linked ==> w.i < |w.l|
    ensures HandedOver(h, p, a, w).parent == h.parent
  {
  }

  /** The renamed forest, whatever the fake was. */
  lemma RenamedStands(g: State, f: Article, a: Article, base: Subject)
    requires Waiting(g, a, base) && f in g.h.parent && f != a
    ensures Wf(g.h, g.s) && Domains(g.h, g.s) && Wf(Renamed(g, f, a).h, Renamed(g, f, a).s)
    ensures Subj(g, f) != null ==> Replaced(Renamed(g, f, a), a, Subj(g, f)) && Subj(Renamed(g, f, a), a) == base
    ensures Subj(g, f) == null ==> Waiting(Renamed(g, f, a), a, base)
  {
    hide Wf, Waiting, Replaced, Renamed, Spare;
    WaitingIsSpare(g, a, base, f);
    SpareWf(g, f, a);
    RenamedWf(g, f, a);
    if Subj(g, f) != null {
      RenamedReplaced(g, f, a, base);
    } else {
      RenamedWaiting(g, f, a, base);
    }
  }

  // ---- Dates -------------------------------------------------------------------------------------------------

  /** The article may be out of date order where the fake stood; nobody else is. */
  lemma RenamedDated(g: State, f: Article, a: Article)
    requires Spare(g, f, a) && Dated(g)
    ensures DatedBut(Renamed(g, f, a), a)
  {
    hide Wf, Renamed, SwapIn;
    WfDomains(g);
    var g' := Renamed(g, f, a);
    RenamedKeySets(g, f, a);
    forall q | q in g'.s.kids ensures SortedBut(g'.h.date, g'.s.kids[q], a) {
      RenamedAt(g, f, a, q);
      KidsLinked(g, Source(q, f, a));
      SwappedSorted(g.h.date, g.s.kids[Source(q, f, a)], f, a);
    }
    forall t | t in g'.s.tops ensures SortedBut(g'.h.date, g'.s.tops[t], a) {
      RenamedSubject(g, f, a, t);
      TopsLinked(g, t);
      SwappedSorted(g.h.date, g.s.tops[t], f, a);
    }
  }

  lemma SwappedSorted(date: Dates, l: seq<Article>, f: Article, a: Article)
    requires Sorted(date, l) && f != a
    ensures SortedBut(date - {f}, SwapIn(l, f, a), a)
  {
    var l', date' := SwapIn(l, f, a), date - {f};
    forall i, j | 0 <= i < j < |l'| && l'[i] != a && l'[j] != a ensures DateOf(date', l'[i]) <= DateOf(date', l'[j]) {
      assert l'[i] == l[i] && l'[j] == l[j] && l[i] != f && l[j] != f;
    }
  }

  // ---- A new article ------------------------------------------------------------------------------------------

  ghost function Received(g: State, a: Article, date: int, subject: Subject): State {
    State(Links(g.h.parent[a := null], g.h.child1[a := null], g.h.sibling[a := null], g.h.subj[a := subject],
                g.h.date[a := date], g.h.thread, g.h.link),
          g.s.(kids := g.s.kids[a := []]))
  }

  lemma ReceivedIs(g: State, a: Article, date: int, subject: Subject)
    ensures Received(g, a, date, subject) == SetSubj(SetDate(Added(g, a), a, date), a, subject)
  {
    var g1, g2 := Received(g, a, date, subject), SetSubj(SetDate(Added(g, a), a, date), a, subject);
    assert g1.h.subj == g2.h.subj && g1.h.date == g2.h.date;
  }

  /** An article just cached waits to be threaded. */
  lemma ReceivedWaits(g: State, a: Article, date: int, subject: Subject)
    requires Tidy(g) && Unknown(g, a) && a !in g.h.subj && a !in g.h.date && subject in g.h.thread
    ensures Waiting(Received(g, a, date, subject), a, subject)
  {
    hide Wf, Grounded, Unknown, Chained, Received, Placed, Loose;
    ReceivedIs(g, a, date, subject);
    AddedTidy(g, a);
    NewIsLoose(g, a);
    var g1 := Added(g, a);
    SetDateKeepsWf(g1, a, date);
    SetSubjKeepsWf(SetDate(g1, a, date), a, subject);
    OthersStay(g1, a, date, subject);
    WaitingAgain(Received(g, a, date, subject), a, subject);
  }

  /** The date and subject of one article do not matter to the others. */
  lemma OthersStay(g: State, a: Article, date: int, subject: Subject)
    requires Tidy(g)
    ensures
      var g2 := SetSubj(SetDate(g, a, date), a, subject);
      && (forall q :: q in g2.s.home && q != a ==> Placed(g2, q, null, null, []))
      && (forall q :: q in g2.h.parent && q !in g2.s.home && q != a ==> Loose(g2, q, null, null))
  {
    hide Wf, Grounded;
    var g2 := SetSubj(SetDate(g, a, date), a, subject);
    forall q | q in g2.s.home && q != a ensures Placed(g2, q, null, null, []) { assert Placed(g, q, null, null, []); }
    forall q | q in g2.h.parent && q !in g2.s.home && q != a ensures Loose(g2, q, null, null) {
      assert Loose(g, q, null, null);
    }
  }

  lemma ReceivedDated(g: State, a: Article, date: int, subject: Subject)
    requires Tidy(g) && Unknown(g, a) && Dated(g)
    ensures Dated(Received(g, a, date, subject))
  {
    hide Wf, Grounded, Coherent, Received, Dated;
    ReceivedIs(g, a, date, subject);
    AddedTidy(g, a);
    AddedDated(g, a);
    SetDateDated(Added(g, a), a, date);
    SetDated(SetDate(Added(g, a), a, date), a, null, subject);
  }

  /** All that caching an article brings. */
  lemma ReceivedFacts(g: State, a: Article, date: int, subject: Subject)
    requires Tidy(g) && a !in g.h.parent && subject in g.h.thread
    ensures Waiting(Received(g, a, date, subject), a, subject)
    ensures Wf(Received(g, a, date, subject).h, Received(g, a, date, subject).s)
    ensures Dated(g) ==> Dated(Received(g, a, date, subject))
  {
    hide Grounded, Coherent, Wf, Unknown, Waiting, Received, Dated;
    NotYetKnown(g, a);
    WfDomains(g);
    ReceivedWaits(g, a, date, subject);
    WaitingWf(Received(g, a, date, subject), a, subject);
    if Dated(g) { ReceivedDated(g, a, date, subject); }
  }

  lemma NewIsLoose(g: State, a: Article)
    requires Unknown(g, a)
    ensures var g1 := Added(g, a); a in g1.h.parent && a !in g1.s.home && Par(g1, a) == null && Kids(g1, a) == []
  {
  }

  /** Forgetting the article again leaves what was there before. */
  lemma ReceivedAndForgotten(g: State, a: Article, date: int, subject: Subject)
    requires a !in g.h.parent && a !in g.h.child1 && a !in g.h.sibling && a !in g.h.subj && a !in g.h.date
    ensures
      var h := Received(g, a, date, subject).h;
      Links(h.parent - {a}, h.child1 - {a}, h.sibling - {a}, h.subj - {a}, h.date - {a}, h.thread, h.link) == g.h
  {
    PutAndTakenOut(g.h.parent, a, null);
    PutAndTakenOut(g.h.child1, a, null);
    PutAndTakenOut(g.h.sibling, a, null);
    PutAndTakenOut(g.h.subj, a, subject);
    PutAndTakenOut(g.h.date, a, date);
  }

  lemma PutAndTakenOut<V>(m: map<Article, V>, a: Article, v: V)
    requires a !in m
    ensures m[a := v] - {a} == m
  {
  }
}
