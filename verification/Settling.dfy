/** The theory behind the rest of `thread_article` (libtrn/Article.cpp): taking an article
    out of its thread, giving fakes their subject, and cutting a bogus child branch. */
module Settling {
  import opened Forest
  import opened Joining
  import opened Ancestry
  import opened Placing

  /** `a` has been taken out of its list: every field but the list and the sibling pointers. */
  ghost predicate Removed(g: State, a: Article, g': State) {
    && Wf(g'.h, g'.s)
    && g'.h.parent == g.h.parent && g'.h.subj == g.h.subj && g'.h.date == g.h.date && g'.h.link == g.h.link
    && g'.h.thread.Keys == g.h.thread.Keys && g'.s.ring == g.s.ring && g'.s.home == g.s.home - {a}
    && g'.s.kids.Keys == g.s.kids.Keys
    && (forall q :: q in g.s.kids && q != Par(g, a) ==> g'.s.kids[q] == g.s.kids[q])
    && (Par(g, a) != null && Kids(g, Par(g, a)) == [a] ==> Kids(g', Par(g, a)) == [])
  }

  lemma UnlinkRemoves(g: State, a: Article)
    requires Wf(g.h, g.s) && a in g.s.home
    ensures Removed(g, a, AfterUnlink(g, a))
  {
    hide Wf;
    HomeFacts(g, a);
    WfDomains(g);
    AfterUnlinkFields(g, a);
    var l := ListWith(g, a);
    if l == [a] {
      assert Without(l, 0) == [];
    }
    ListIs(g, a);
  }

  lemma UnlinkParents(g: State, a: Article)
    requires Wf(g.h, g.s) && a in g.s.home
    ensures AfterUnlink(g, a).h.parent == g.h.parent
  {
    hide Wf, AfterUnlink;
    UnlinkRemoves(g, a);
  }

  lemma ListIs(g: State, a: Article)
    requires Wf(g.h, g.s) && a in g.s.home
    ensures Par(g, a) != null ==> ListWith(g, a) == Kids(g, Par(g, a))
  {
    HomeFacts(g, a);
  }

  /** `a` has been filed: at the top of `t`'s thread, or under its parent. */
  ghost predicate Placed1(g: State, a: Article, t: Subject, g': State) {
    && Wf(g'.h, g'.s)
    && g'.h.parent == g.h.parent && g'.h.subj == g.h.subj && g'.h.date == g.h.date && g'.h.link == g.h.link
    && g'.h.thread.Keys == g.h.thread.Keys && g'.s.ring == g.s.ring && g'.s.home == g.s.home[a := t]
    && (Par(g, a) == null ==> g'.s.kids == g.s.kids)
  }

  lemma LinkPlaces(g: State, a: Article, t: Subject)
    requires Wf(g.h, g.s) && Linkable(g.h, g.s, a, t)
    ensures Placed1(g, a, t, AfterLink(g, a, t))
  {
    hide Wf;
    AfterLinkFields(g, a, t);
  }

  // ---- The last reference was unknown: its fake heads the thread ----------------------------------

  ghost function Headed(g: State, prev: Article, base: Subject): State
    requires Wf(g.h, g.s) && prev in g.h.parent && prev !in g.s.home && base in g.h.thread
  {
    SetSubjKeepsWf(g, prev, base);
    HeadLinkable(g, prev, base);
    AfterLink(SetSubj(g, prev, base), prev, base)
  }

  lemma HeadLinkable(g: State, prev: Article, base: Subject)
    requires Wf(g.h, g.s) && prev in g.h.parent && prev !in g.s.home && base in g.h.thread
    ensures Linkable(SetSubj(g, prev, base).h, g.s, prev, base)
  {
    assert ParentKnown(g.h.parent, prev);
  }

  lemma HeadSettles(g: State, a: Article, base: Subject, chain: seq<Article>)
    requires Chained(g, a, base, chain) && |chain| > 1
    ensures
      var prev := Last(chain);
      var g' := Headed(g, prev, base);
      && Wf(g'.h, g'.s) && g'.h.parent == g.h.parent && g'.s.home == g.s.home[prev := base] && g'.s.ring == g.s.ring
      && g'.h.subj == g.h.subj[prev := base] && g'.h.thread.Keys == g.h.thread.Keys
      && Coherent(g', null, null, null, chain[1..|chain| - 1])
  {
    hide Wf, Grounded, Rung, Placed, NoDup, Loose, Linkable;
    var prev := Last(chain);
    var g' := Headed(g, prev, base);
    ChainedSubjects(g, a, base, chain);
    ChainedHomes(g, a, base, chain);
    SetSubjKeepsWf(g, prev, base);
    HeadLinkable(g, prev, base);
    LinkPlaces(SetSubj(g, prev, base), prev, base);
    forall q | q in g'.s.home ensures Placed(g', q, null, null, chain[1..|chain| - 1]) {
      HeadedPlaced(g, base, chain, g', q);
    }
    forall q | q in g'.h.parent && q !in g'.s.home ensures Loose(g', q, null, null) {
      HeadedLoose(g, a, prev, base, g', q);
    }
  }

  lemma HeadedPlaced(g: State, base: Subject, chain: seq<Article>, g': State, q: Article)
    requires |chain| > 1 && base in g.s.ring && Last(chain) in g.h.parent && g.h.parent[Last(chain)] == null
    requires Last(chain) !in g.s.home && q in g'.s.home
    requires g'.h.parent == g.h.parent && g'.s.ring == g.s.ring && g'.s.home == g.s.home[Last(chain) := base]
    requires g'.h.subj == g.h.subj[Last(chain) := base]
    requires q != Last(chain) ==> Placed(g, q, Last(chain), base, chain[1..])
    ensures Placed(g', q, null, null, chain[1..|chain| - 1])
  {
    assert chain[1..] == chain[1..|chain| - 1] + [Last(chain)];
  }

  lemma HeadedLoose(g: State, a: Article, prev: Article, base: Subject, g': State, q: Article)
    requires g'.h.parent == g.h.parent && g'.s.kids == g.s.kids && q != prev && q != a
    requires g'.h.subj == g.h.subj[prev := base] && Loose(g, q, a, prev)
    ensures Loose(g', q, null, null)
  {
  }

  // ---- Fakes get the article's subject --------------------------------------------------------------

  lemma SubjectGiven(g: State, f: Article, base: Subject, fakes: seq<Article>, fakes': seq<Article>)
    requires Coherent(g, null, null, null, fakes) && f in g.s.home && f in g.h.subj
    requires HomeRingAt(g, f) == RingAt(g, base)
    requires forall q :: q in fakes ==> q == f || q in fakes'
    ensures Coherent(SetSubj(g, f, base), null, null, null, fakes')
  {
    hide Placed;
    var g' := SetSubj(g, f, base);
    forall q | q in g'.s.home ensures Placed(g', q, null, null, fakes') {
      SubjectGivenAt(g, f, base, fakes, fakes', q);
    }
  }

  lemma SubjectGivenAt(g: State, f: Article, base: Subject, fakes: seq<Article>, fakes': seq<Article>, q: Article)
    requires f in g.s.home && f in g.h.subj && HomeRingAt(g, f) == RingAt(g, base)
    requires Placed(g, q, null, null, fakes) && forall q :: q in fakes ==> q == f || q in fakes'
    ensures Placed(SetSubj(g, f, base), q, null, null, fakes')
  {
  }

  // ---- Cutting a branch loose and hanging it at the top of its thread -------------------------------

  ghost function CutOff(g: State, c: Article): State
    requires Wf(g.h, g.s) && c in g.s.home
  {
    UnlinkRemoves(g, c);
    HomeFacts(g, c);
    SetParentKeepsWf(AfterUnlink(g, c), c, null);
    SetParent(AfterUnlink(g, c), c, null)
  }

  ghost function Rehung(g: State, c: Article): State
    requires Wf(g.h, g.s) && c in g.s.home && Subj(g, c) != null && Subj(g, c) in g.h.thread
  {
    RehangLinkable(g, c);
    AfterLink(CutOff(g, c), c, Subj(g, c))
  }

  lemma RehangLinkable(g: State, c: Article)
    requires Wf(g.h, g.s) && c in g.s.home && Subj(g, c) != null && Subj(g, c) in g.h.thread
    ensures Wf(CutOff(g, c).h, CutOff(g, c).s) && Linkable(CutOff(g, c).h, CutOff(g, c).s, c, Subj(g, c))
  {
    hide Wf;
    UnlinkRemoves(g, c);
    HomeFacts(g, c);
    SetParentKeepsWf(AfterUnlink(g, c), c, null);
  }

  lemma RehungSettled(g: State, c: Article)
    requires Wf(g.h, g.s) && Coherent(g, null, null, null, []) && c in g.s.home
    requires Subj(g, c) != null && Subj(g, c) in g.h.thread
    ensures
      var g' := Rehung(g, c);
      && Wf(g'.h, g'.s) && g'.h.parent == g.h.parent[c := null] && g'.s.home.Keys == g.s.home.Keys
      && Coherent(g', null, null, null, []) && g'.h.subj == g.h.subj && g'.s.ring == g.s.ring && g'.h.date == g.h.date
  {
    hide Wf, Placed, Loose;
    var g1, g2, g' := AfterUnlink(g, c), CutOff(g, c), Rehung(g, c);
    UnlinkRemoves(g, c);
    HomeFacts(g, c);
    RehangLinkable(g, c);
    ParentLinked(g, [], c);
    LinkPlaces(g2, c, Subj(g, c));
    assert g'.s.home.Keys == g.s.home.Keys;
    forall q | q in g'.s.home ensures Placed(g', q, null, null, []) {
      RehungPlaced(g, c, g', q);
    }
    forall q | q in g'.h.parent && q !in g'.s.home ensures Loose(g', q, null, null) {
      RehungLoose(g, c, g1, g', q);
    }
  }

  lemma ParentLinked(g: State, fakes: seq<Article>, c: Article)
    requires Coherent(g, null, null, null, fakes) && c in g.s.home
    ensures Par(g, c) != null ==> Par(g, c) in g.s.home
  {
    assert Placed(g, c, null, null, fakes);
  }

  lemma RehungPlaced(g: State, c: Article, g': State, q: Article)
    requires c in g.s.home && c in g.h.parent && Subj(g, c) != null && q in g.s.home && Placed(g, q, null, null, [])
    requires Placed(g, c, null, null, [])
    requires g'.h.parent == g.h.parent[c := null] && g'.h.subj == g.h.subj && g'.s.ring == g.s.ring
    requires g'.s.home == (g.s.home - {c})[c := Subj(g, c)]
    ensures Placed(g', q, null, null, [])
  {
  }

  lemma RehungLoose(g: State, c: Article, g1: State, g': State, q: Article)
    requires c in g.s.home && q !in g.s.home && Loose(g, q, null, null) && Removed(g, c, g1)
    requires Par(g, c) != q && c in g.h.parent
    requires g'.h.parent == g.h.parent[c := null] && g'.h.subj == g.h.subj && g'.s.kids == g1.s.kids
    ensures Loose(g', q, null, null)
  {
  }

  // ---- Taking an article out of its thread ------------------------------------------------------------

  /** A tidy forest minus the linked article `a`: what `thread_article` starts the chain from. */
  lemma TakenOut(g: State, a: Article)
    requires Tidy(g) && a in g.s.home && Subj(g, a) != null
    ensures Chained(CutOff(g, a), a, Subj(g, a), [a])
  {
    hide Wf, Placed, Loose, Grounded;
    var base, g1, g' := Subj(g, a), AfterUnlink(g, a), CutOff(g, a);
    UnlinkRemoves(g, a);
    HomeFacts(g, a);
    SubjectKnown(g, a);
    SetParentKeepsWf(g1, a, null);
    CutLoose(g.h.parent, a);
    ParentLinked(g, [], a);
    assert [a][1..] == [] && Last([a]) == a;
    forall q | q in g'.s.home ensures Placed(g', q, a, base, []) {
      TakenOutPlaced(g, a, g', q);
    }
    forall q | q in g'.h.parent && q !in g'.s.home ensures Loose(g', q, a, a) {
      TakenOutLoose(g, a, g1, g', q);
    }
  }

  lemma SubjectKnown(g: State, q: Article)
    requires Wf(g.h, g.s)
    ensures Subj(g, q) != null ==> Subj(g, q) in g.h.thread
  {
  }

  lemma TakenOutPlaced(g: State, a: Article, g': State, q: Article)
    requires a in g.s.home && a in g.h.parent && q in g.s.home && q != a && Subj(g, a) != null
    requires Placed(g, q, null, null, []) && Placed(g, a, null, null, [])
    requires g'.h.parent == g.h.parent[a := null] && g'.h.subj == g.h.subj && g'.s.ring == g.s.ring
    requires g'.s.home == g.s.home - {a}
    ensures Placed(g', q, a, Subj(g, a), [])
  {
  }

  lemma TakenOutLoose(g: State, a: Article, g1: State, g': State, q: Article)
    requires q != a ==> q !in g.s.home && Loose(g, q, null, null)
    requires a in g.s.home && Removed(g, a, g1) && a in g.h.parent && (q != a ==> Par(g, a) != q)
    requires g'.h.parent == g.h.parent[a := null] && g'.h.subj == g.h.subj && g'.s.kids == g1.s.kids
    ensures Loose(g', q, a, a)
  {
  }

  /** Freeing a fake that has no child left: out of its list, no subject, no parent. */
  ghost function Freed(g: State, x: Article): State
    requires Wf(g.h, g.s) && x in g.s.home
  {
    var g1 := CutOff(g, x);
    State(g1.h.(subj := g1.h.subj[x := null], date := g1.h.date[x := 0]), g1.s)
  }

  /** `Chained` when the chain is the article alone. */
  lemma AloneIntro(g: State, a: Article, base: Subject)
    requires Wf(g.h, g.s) && Grounded(g.h.parent) && a in g.h.parent && base in g.h.thread && Subj(g, a) == base
    requires a !in g.s.home && Par(g, a) == null && Coherent(g, a, a, base, [])
    ensures Chained(g, a, base, [a])
  {
    hide Wf, Grounded, Coherent;
    assert [a][1..] == [] && Last([a]) == a;
  }

  lemma AloneElim(g: State, a: Article, base: Subject)
    requires Chained(g, a, base, [a])
    ensures Wf(g.h, g.s) && Grounded(g.h.parent) && a in g.h.parent && base in g.h.thread && Subj(g, a) == base
    ensures a !in g.s.home && Par(g, a) == null && Coherent(g, a, a, base, [])
  {
    hide Wf, Grounded, Coherent;
    assert [a][1..] == [] && Last([a]) == a;
  }

  lemma FreedFields(g: State, x: Article)
    requires Wf(g.h, g.s) && x in g.s.home && x in g.h.parent && x in g.h.subj
    ensures
      var g' := Freed(g, x);
      && Removed(g, x, AfterUnlink(g, x)) && Wf(g'.h, g'.s)
      && g'.h.parent == g.h.parent[x := null] && g'.h.subj == g.h.subj[x := null] && g'.h.date == g.h.date[x := 0]
      && g'.s.home == g.s.home - {x} && g'.s.kids == AfterUnlink(g, x).s.kids && g'.s.ring == g.s.ring
      && g'.h.thread.Keys == g.h.thread.Keys
  {
    hide Wf;
    UnlinkRemoves(g, x);
    SetParentKeepsWf(AfterUnlink(g, x), x, null);
    SetSubjKeepsWf(CutOff(g, x), x, null);
    SetDateKeepsWf(SetSubj(CutOff(g, x), x, null), x, 0);
  }

  lemma FreedFake(g: State, a: Article, base: Subject, x: Article)
    requires Chained(g, a, base, [a]) && x in g.s.home && x != a && Kids(g, x) == []
    ensures Chained(Freed(g, x), a, base, [a])
    ensures Freed(g, x).h.parent == g.h.parent[x := null] && Freed(g, x).s.home == g.s.home - {x}
    ensures Par(g, x) != null && Kids(g, Par(g, x)) == [x] ==> Kids(Freed(g, x), Par(g, x)) == []
    ensures forall q :: q in g.s.kids && q != Par(g, x) ==> Kids(Freed(g, x), q) == Kids(g, q)
  {
    hide Wf, Placed, Loose, Grounded, Chained, Freed, AfterUnlink;
    AloneElim(g, a, base);
    var g1, g' := AfterUnlink(g, x), Freed(g, x);
    WfDomains(g);
    HomeFacts(g, x);
    FreedFields(g, x);
    CutLoose(g.h.parent, x);
    ParentHomeOr(g, a, base, x);
    forall q | q in g'.s.home ensures Placed(g', q, a, base, []) {
      FreedPlaced(g, a, base, x, g', q);
    }
    forall q | q in g'.h.parent && q !in g'.s.home ensures Loose(g', q, a, a) {
      FreedLoose(g, a, base, x, g1, g', q);
    }
    AloneIntro(g', a, base);
  }

  lemma ParentHomeOr(g: State, a: Article, base: Subject, x: Article)
    requires Wf(g.h, g.s) && Coherent(g, a, a, base, []) && x in g.s.home && Kids(g, x) == []
    ensures Par(g, x) != x && (Par(g, x) != null && Par(g, x) !in g.s.home ==> Par(g, x) == a)
  {
    hide Wf;
    HomeFacts(g, x);
    assert Placed(g, x, a, base, []);
  }

  lemma FreedPlaced(g: State, a: Article, base: Subject, x: Article, g': State, q: Article)
    requires Wf(g.h, g.s) && x in g.s.home && x in g.h.parent && q in g.s.home && q != x && Kids(g, x) == []
    requires Placed(g, q, a, base, [])
    requires g'.h.parent == g.h.parent[x := null] && g'.s.ring == g.s.ring && x in g.h.subj
    requires g'.h.subj == g.h.subj[x := null] && g'.s.home == g.s.home - {x}
    ensures Placed(g', q, a, base, [])
  {
    hide Wf;
    HomeFacts(g, q);
  }

  lemma FreedLoose(g: State, a: Article, base: Subject, x: Article, g1: State, g': State, q: Article)
    requires q != x ==> q !in g.s.home && Loose(g, q, a, a)
    requires x in g.s.home && x != a && Removed(g, x, g1) && x in g.h.parent && x in g.h.subj && Kids(g, x) == []
    requires Par(g, x) != x && (Par(g, x) != null && Par(g, x) !in g.s.home ==> Par(g, x) == a)
    requires g'.h.parent == g.h.parent[x := null] && g'.h.subj == g.h.subj[x := null] && g'.s.kids == g1.s.kids
    ensures Loose(g', q, a, a)
  {
    hide Wf;
    if q != a {
      assert Par(g', q) == null && Subj(g', q) == null;
      assert Par(g, x) != q;
      assert Kids(g', q) == Kids(g, q);
    }
  }

  // ---- A brand-new fake ---------------------------------------------------------------------------------

  ghost function Added(g: State, f: Article): State {
    State(Links(g.h.parent[f := null], g.h.child1[f := null], g.h.sibling[f := null], g.h.subj[f := null],
                g.h.date[f := 0], g.h.thread, g.h.link),
          g.s.(kids := g.s.kids[f := []]))
  }

  ghost predicate Unknown(g: State, f: Article) {
    && f !in g.h.parent && f !in g.h.child1 && f !in g.h.sibling && f !in g.s.kids && f !in g.s.home
    && (forall q :: q in g.h.parent ==> g.h.parent[q] != f)
  }

  lemma NotYetKnown(g: State, f: Article)
    requires Wf(g.h, g.s) && f !in g.h.parent
    ensures Unknown(g, f)
  {
    hide Wf;
    WfElim(g.h, g.s);
    forall q | q in g.h.parent ensures g.h.parent[q] != f {
      assert ParentKnown(g.h.parent, q);
    }
  }

  lemma AddedWf(g: State, f: Article)
    requires Wf(g.h, g.s) && Unknown(g, f)
    ensures Wf(Added(g, f).h, Added(g, f).s)
  {
    hide Wf, Domains, Targets, KidsOk, TopsOk, RingOk, Filed, Unknown;
    WfElim(g.h, g.s);
    var g' := Added(g, f);
    AddedDomains(g, f);
    forall p | p in g'.h.parent ensures KidsOk(g'.h, g'.s, p) { AddedKids(g, f, p); }
    forall t | t in g'.h.thread ensures TopsOk(g'.h, g'.s, t) { AddedTops(g, f, t); }
    forall t | t in g'.h.thread ensures RingOk(g'.h, g'.s, t) { AddedRing(g, f, t); }
    forall a | a in g'.s.home ensures Filed(g'.h, g'.s, a) { AddedFiled(g, f, a); }
    WfIntro(g'.h, g'.s);
  }

  lemma AddedRing(g: State, f: Article, t: Subject)
    requires RingOk(g.h, g.s, t)
    ensures RingOk(Added(g, f).h, Added(g, f).s, t)
  {
  }

  lemma AddedFiled(g: State, f: Article, a: Article)
    requires Unknown(g, f) && Filed(g.h, g.s, a)
    ensures Filed(Added(g, f).h, Added(g, f).s, a)
  {
  }

  lemma AddedDomains(g: State, f: Article)
    requires Domains(g.h, g.s) && Targets(g.h, g.s) && Unknown(g, f)
    ensures Domains(Added(g, f).h, Added(g, f).s) && Targets(Added(g, f).h, Added(g, f).s)
  {
    var p' := Added(g, f).h.parent;
    forall q {:trigger ParentKnown(p', q)} | q in p' ensures ParentKnown(p', q) {
      assert q != f ==> ParentKnown(g.h.parent, q);
    }
  }

  lemma AddedKids(g: State, f: Article, p: Article)
    requires Unknown(g, f) && (p != f ==> KidsOk(g.h, g.s, p))
    ensures KidsOk(Added(g, f).h, Added(g, f).s, p)
  {
  }

  lemma AddedTops(g: State, f: Article, t: Subject)
    requires Unknown(g, f) && TopsOk(g.h, g.s, t)
    ensures TopsOk(Added(g, f).h, Added(g, f).s, t)
  {
  }

  lemma AddedReads(g: State, f: Article, q: Article)
    requires Unknown(g, f) && q != f && f !in g.h.subj && f !in g.h.date
    ensures Par(Added(g, f), q) == Par(g, q) && Subj(Added(g, f), q) == Subj(g, q) && Date(Added(g, f), q) == Date(g, q)
    ensures Kids(Added(g, f), q) == Kids(g, q) && HomeRingAt(Added(g, f), q) == HomeRingAt(g, q)
    ensures q in Added(g, f).h.parent <==> q in g.h.parent
  {
  }

  lemma AddedCoherent(g: State, f: Article, a: Article?, prev: Article?, base: Subject?, fakes: seq<Article>)
    requires Wf(g.h, g.s) && Unknown(g, f) && Coherent(g, a, prev, base, fakes)
    ensures Coherent(Added(g, f), a, prev, base, fakes)
  {
    hide Wf, Unknown, Placed, Loose;
    WfDomains(g);
    var g' := Added(g, f);
    forall q | q in g'.s.home ensures Placed(g', q, prev, base, fakes) {
      AddedPlaced(g, f, prev, base, fakes, q);
    }
    forall q | q in g'.h.parent && q !in g'.s.home ensures Loose(g', q, a, prev) {
      AddedLoose(g, f, a, prev, q);
    }
  }

  lemma AddedPlaced(g: State, f: Article, prev: Article?, base: Subject?, fakes: seq<Article>, q: Article)
    requires Unknown(g, f) && q in g.s.home && Placed(g, q, prev, base, fakes)
    ensures Placed(Added(g, f), q, prev, base, fakes)
  {
  }

  lemma AddedLoose(g: State, f: Article, a: Article?, prev: Article?, q: Article)
    requires Unknown(g, f) && (q != f ==> Loose(g, q, a, prev))
    ensures Loose(Added(g, f), q, a, prev)
  {
  }

  lemma AddedGrounded(g: State, f: Article)
    requires Unknown(g, f) && Grounded(g.h.parent)
    ensures Grounded(Added(g, f).h.parent)
  {
    NewRoot(g.h.parent, f);
  }

  lemma AddedTidy(g: State, f: Article)
    requires Tidy(g) && Unknown(g, f)
    ensures Tidy(Added(g, f))
  {
    hide Wf, Unknown, Coherent, Grounded;
    AddedWf(g, f);
    AddedCoherent(g, f, null, null, null, []);
    AddedGrounded(g, f);
  }

  lemma AddedChained(g: State, f: Article, a: Article, base: Subject, chain: seq<Article>)
    requires Chained(g, a, base, chain) && Unknown(g, f)
    ensures Chained(Added(g, f), a, base, chain)
  {
    hide Wf, Coherent, Grounded, Rung, NoDup;
    AddedWf(g, f);
    AddedCoherent(g, f, a, Last(chain), base, chain[1..]);
    AddedGrounded(g, f);
    WfDomains(g);
    var g' := Added(g, f);
    assert Last(chain) in chain && f !in chain;
    forall i | 0 <= i < |chain| - 1 ensures Rung(g', base, chain, i) {
      AddedRung(g, f, base, chain, i);
    }
    AddedReads(g, f, a);
    AddedReads(g, f, Last(chain));
  }

  lemma AddedRung(g: State, f: Article, base: Subject, chain: seq<Article>, i: int)
    requires 0 <= i < |chain| - 1 && Rung(g, base, chain, i) && f !in chain && Unknown(g, f)
    requires f !in g.h.subj && f !in g.h.date
    ensures Rung(Added(g, f), base, chain, i)
  {
    AddedReads(g, f, chain[i]);
    AddedReads(g, f, chain[i + 1]);
    AddedReads(g, f, chain[0]);
  }

  // ---- Subjects of the articles to be re-filed ---------------------------------------------------------

  lemma TopSubjectsKnown(g: State, t: Subject)
    requires Wf(g.h, g.s) && t in g.h.thread
    requires forall x :: x in TopsOf(g, t) ==> Subj(g, x) != null && RingAt(g, Subj(g, x)) == HomeRingAt(g, x)
    ensures SubjectsKnown(g, t)
  {
    hide Wf;
    RingFacts(g, t);
    forall a | a in g.s.tops[t] ensures a in g.h.subj && g.h.subj[a] != null && g.h.subj[a] in g.s.ring[t] {
      TopsHomes(g, t, a);
      SubjectKnown(g, a);
      RingFacts(g, Subj(g, a));
    }
  }

  lemma TopsAreTop(g: State, t: Subject, x: Article)
    requires Wf(g.h, g.s) && t in g.h.thread && x in TopsOf(g, t)
    ensures x in g.h.parent && g.h.parent[x] == null && x in g.s.home
  {
    assert TopsOk(g.h, g.s, t);
  }

  lemma KnownSubjects(g: State, x: Article, base: Subject, fakes: seq<Article>, t: Subject)
    requires Wf(g.h, g.s) && CoherentBut(g, x, base, fakes) && t in g.h.thread
    requires forall f :: f in fakes ==> Par(g, f) != null
    ensures SubjectsKnown(g, t)
  {
    hide Wf;
    forall y | y in TopsOf(g, t) ensures Subj(g, y) != null && RingAt(g, Subj(g, y)) == HomeRingAt(g, y) {
      TopsAreTop(g, t, y);
      assert y != x ==> Placed(g, y, null, null, fakes);
    }
    TopSubjectsKnown(g, t);
  }

  // ---- An article that has taken the place of a fake ------------------------------------------------------

  /** The real article `a` stands where a fake of subject `fake` stood, but has a subject of its own. */
  ghost predicate Replaced(g: State, a: Article, fake: Subject) {
    && Wf(g.h, g.s) && Grounded(g.h.parent)
    && (forall q :: q in g.s.home && q != a ==> Placed(g, q, null, null, []))
    && (forall q :: q in g.h.parent && q !in g.s.home ==> Loose(g, q, null, null))
    && a in g.s.home && Subj(g, a) != null && fake in g.h.thread && RingAt(g, fake) == HomeRingAt(g, a)
    && (Par(g, a) != null ==> Par(g, a) in g.s.home && HomeRingAt(g, a) == HomeRingAt(g, Par(g, a)))
  }

  lemma ReplacedParts(g: State, a: Article, fake: Subject)
    requires Replaced(g, a, fake)
    ensures Wf(g.h, g.s) && Domains(g.h, g.s) && Grounded(g.h.parent) && a in g.h.parent
  {
    hide Grounded;
    HomeFacts(g, a);
  }

  lemma ReplacedFollows(g: State, a: Article, fake: Subject)
    requires Replaced(g, a, fake)
    ensures RingsFollow(g, null, Subj(g, a))
    ensures Subj(g, a) in g.h.thread
    ensures g.h.thread[fake] == g.h.thread[Subj(g, a)] <==> RingAt(g, fake) == RingAt(g, Subj(g, a))
  {
    hide Wf, Grounded;
    SubjectKnown(g, a);
    forall q | q in g.s.home && Par(g, q) != null
      ensures if Par(g, q) in g.s.home then HomeRingAt(g, q) == HomeRingAt(g, Par(g, q))
              else Par(g, q) == null && HomeRingAt(g, q) == RingAt(g, Subj(g, a))
    {
      assert q != a ==> Placed(g, q, null, null, []);
    }
    ThreadsTellRings(g, null, Subj(g, a), a, fake);
  }

  lemma ReplacedSame(g: State, a: Article, fake: Subject)
    requires Replaced(g, a, fake) && RingAt(g, fake) == RingAt(g, Subj(g, a))
    ensures Tidy(g)
  {
    hide Wf, Grounded;
  }

  lemma ReplacedMergeable(g: State, a: Article, fake: Subject)
    requires Replaced(g, a, fake) && Subj(g, a) in g.h.thread && RingAt(g, fake) != RingAt(g, Subj(g, a))
    ensures Mergeable(g, fake, Subj(g, a)) && SubjectsKnown(g, Subj(g, a))
  {
    hide Wf, Grounded;
    var base := Subj(g, a);
    RingFacts(g, fake);
    RingFacts(g, base);
    forall y | y in TopsOf(g, base) ensures Subj(g, y) != null && RingAt(g, Subj(g, y)) == HomeRingAt(g, y) {
      TopsHomes(g, base, y);
      assert y != a && Placed(g, y, null, null, []);
    }
    TopSubjectsKnown(g, base);
  }

  lemma ReplacedMerged(g: State, a: Article, fake: Subject, g': State)
    requires Replaced(g, a, fake) && Mergeable(g, fake, Subj(g, a)) && SubjectsKnown(g, Subj(g, a))
    requires Refiled(g, fake, Subj(g, a), |TopsOf(g, Subj(g, a))|, g') && Wf(g'.h, g'.s)
    ensures Tidy(g')
  {
    hide Wf, Mergeable, SubjectsKnown, Refiled, Grounded, Placed;
    var s2 := Subj(g, a);
    SubjectsAfterMerge(g, fake, s2, g', a);
    ParentsAfterMerge(g, fake, s2, g');
    forall q | q in g'.s.home ensures Placed(g', q, null, null, []) {
      HomesAfterMerge(g, fake, s2, g', q);
      if q == a {
        ReplacedPlaced(g, a, fake, g');
      } else {
        PlacedAfterMerge(g, a, fake, s2, [], g', q);
      }
    }
    forall q | q in g'.h.parent && q !in g'.s.home ensures Loose(g', q, null, null) {
      HomesAfterMerge(g, fake, s2, g', q);
      LooseAfterMerge(g, fake, s2, g', q);
    }
  }

  lemma ParentsAfterMerge(g: State, s1: Subject, s2: Subject, g': State)
    requires Mergeable(g, s1, s2) && SubjectsKnown(g, s2) && Refiled(g, s1, s2, |TopsOf(g, s2)|, g')
    ensures g'.h.parent == g.h.parent && g'.h.subj == g.h.subj && g'.h.date == g.h.date && g'.s.kids == g.s.kids
  {
    hide Wf, InsertedTops, Cycle, JoinedRing;
  }

  lemma ReplacedPlaced(g: State, a: Article, fake: Subject, g': State)
    requires Subj(g, a) != null && Mergeable(g, fake, Subj(g, a)) && SubjectsKnown(g, Subj(g, a))
    requires Refiled(g, fake, Subj(g, a), |TopsOf(g, Subj(g, a))|, g')
    requires a in g.s.home && fake in g.h.thread && RingAt(g, fake) == HomeRingAt(g, a)
    requires Par(g, a) != null ==> Par(g, a) in g.s.home && HomeRingAt(g, a) == HomeRingAt(g, Par(g, a))
    ensures Placed(g', a, null, null, [])
  {
    hide Wf, Refiled, SubjectsKnown;
    var s2, h, p := Subj(g, a), g.s.home[a], Par(g, a);
    var k := |TopsOf(g, s2)|;
    SubjectsAfterMerge(g, fake, s2, g', a);
    HomesAfterMerge(g, fake, s2, g', a);
    RingsAfterMerge(g, fake, s2, k, g', h, fake);
    if p != null {
      HomesAfterMerge(g, fake, s2, g', p);
      RingsAfterMerge(g, fake, s2, k, g', h, g.s.home[p]);
    }
  }
}
