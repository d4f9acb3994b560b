/** The theory behind `thread_article` (libtrn/Article.cpp): what is true of the forest
    between its steps while one article is being given its place. */
module Placing {
  import opened Forest
  import opened Joining
  import opened Ancestry

  // Total readings of a state.

  ghost function Par(g: State, q: Article): Article? { if q in g.h.parent then g.h.parent[q] else null }
  ghost function Subj(g: State, q: Article): Subject? { if q in g.h.subj then g.h.subj[q] else null }
  ghost function Date(g: State, q: Article): int { if q in g.h.date then g.h.date[q] else 0 }
  ghost function Kids(g: State, q: Article): seq<Article> { if q in g.s.kids then g.s.kids[q] else [] }
  ghost function RingAt(g: State, t: Subject?): seq<Subject> { if t != null && t in g.s.ring then g.s.ring[t] else [] }
  ghost function HomeRingAt(g: State, q: Article): seq<Subject> {
    if q in g.s.home then RingAt(g, g.s.home[q]) else []
  }

  // ---- What holds of every article -----------------------------------------------------------

  /** A linked article hangs under a linked article of the same thread (or under `prev`,
      which is out of its list for the moment), and its subject, unless it is one of the
      `fakes` still without, belongs to the thread it is filed in. */
  ghost predicate Placed(g: State, q: Article, prev: Article?, base: Subject?, fakes: seq<Article>) {
    var p := Par(g, q);
    && (p != null ==> if p in g.s.home then HomeRingAt(g, q) == HomeRingAt(g, p)
                      else p == prev && HomeRingAt(g, q) == RingAt(g, base))
    && (if Subj(g, q) == null then q in fakes else HomeRingAt(g, q) == RingAt(g, Subj(g, q)))
  }

  /** An unlinked article (other than `prev`) has neither parent nor children, and (other
      than `a`) no subject. */
  ghost predicate Loose(g: State, q: Article, a: Article?, prev: Article?) {
    (q != prev ==> Par(g, q) == null && Kids(g, q) == []) && (q != a ==> Subj(g, q) == null)
  }

  ghost predicate Coherent(g: State, a: Article?, prev: Article?, base: Subject?, fakes: seq<Article>) {
    && (forall q :: q in g.s.home ==> Placed(g, q, prev, base, fakes))
    && (forall q :: q in g.h.parent && q !in g.s.home ==> Loose(g, q, a, prev))
  }

  /** The forest between two calls: well formed, without cycles, every linked article in
      one list of the thread its subject belongs to, everything else on its own. */
  ghost predicate Tidy(g: State) {
    Wf(g.h, g.s) && Grounded(g.h.parent) && Coherent(g, null, null, null, [])
  }

  /** Article `a` and the fakes made from its references so far, each the only child of the
      next; the last one is not linked yet. */
  ghost predicate Chained(g: State, a: Article, base: Subject, chain: seq<Article>) {
    && Wf(g.h, g.s) && Grounded(g.h.parent)
    && chain != [] && chain[0] == a && NoDup(chain) && (forall q :: q in chain ==> q in g.h.parent)
    && base in g.h.thread && Subj(g, a) == base
    && Last(chain) !in g.s.home && Par(g, Last(chain)) == null
    && (forall i :: 0 <= i < |chain| - 1 ==> Rung(g, base, chain, i))
    && Coherent(g, a, Last(chain), base, chain[1..])
  }

  ghost predicate Rung(g: State, base: Subject, chain: seq<Article>, i: int)
    requires 0 <= i < |chain| - 1
  {
    var q, p := chain[i], chain[i + 1];
    && q in g.s.home && Par(g, q) == p && Kids(g, p) == [q] && Subj(g, p) == null
    && HomeRingAt(g, q) == RingAt(g, base) && Date(g, p) == Date(g, chain[0])
  }

  // ---- Assignments to single fields -------------------------------------------------------------

  ghost function SetParent(g: State, x: Article, y: Article?): State {
    State(g.h.(parent := g.h.parent[x := y]), g.s)
  }

  ghost function SetDate(g: State, x: Article, d: int): State {
    State(g.h.(date := g.h.date[x := d]), g.s)
  }

  ghost function SetSubj(g: State, x: Article, t: Subject?): State {
    State(g.h.(subj := g.h.subj[x := t]), g.s)
  }

  /** Parents of unlinked articles, and dates and subjects of any, are not part of the shape. */
  ghost predicate SameShape(h: Links, s: Shape, h': Links) {
    && h'.child1 == h.child1 && h'.sibling == h.sibling && h'.thread == h.thread && h'.link == h.link
    && h'.parent.Keys == h.parent.Keys && h'.subj.Keys == h.subj.Keys && h'.date.Keys == h.date.Keys
    && (forall q :: q in s.home && q in h.parent ==> h'.parent[q] == h.parent[q])
    && (forall q {:trigger ParentKnown(h'.parent, q)} :: q in h'.parent ==> ParentKnown(h'.parent, q))
    && (forall q :: q in h'.subj && h'.subj[q] != null ==> h'.subj[q] in h'.thread)
  }

  lemma SameShapeKids(h: Links, s: Shape, h': Links, p: Article)
    requires SameShape(h, s, h') && KidsOk(h, s, p)
    ensures KidsOk(h', s, p)
  {
    hide ParentKnown, Chain, NoDup;
  }

  lemma SameShapeTops(h: Links, s: Shape, h': Links, t: Subject)
    requires SameShape(h, s, h') && TopsOk(h, s, t)
    ensures TopsOk(h', s, t)
  {
    hide ParentKnown, Chain, NoDup;
  }

  lemma SameShapeFiled(h: Links, s: Shape, h': Links, a: Article)
    requires SameShape(h, s, h') && Filed(h, s, a)
    ensures Filed(h', s, a)
  {
    hide ParentKnown;
  }

  lemma SameShapeDomains(h: Links, s: Shape, h': Links)
    requires SameShape(h, s, h') && Domains(h, s) && Targets(h, s)
    ensures Domains(h', s) && Targets(h', s)
  {
    hide ParentKnown;
  }

  lemma SameShapeKeepsWf(h: Links, s: Shape, h': Links)
    requires Wf(h, s) && SameShape(h, s, h')
    ensures Wf(h', s)
  {
    hide Wf, Domains, Targets, KidsOk, TopsOk, RingOk, Filed, ParentKnown;
    WfElim(h, s);
    SameShapeDomains(h, s, h');
    forall p | p in h'.parent ensures KidsOk(h', s, p) { SameShapeKids(h, s, h', p); }
    forall t | t in h'.thread ensures TopsOk(h', s, t) { SameShapeTops(h, s, h', t); }
    forall t | t in h'.thread ensures RingOk(h', s, t) { SameShapeRing(h, s, h', t); }
    forall a | a in s.home ensures Filed(h', s, a) { SameShapeFiled(h, s, h', a); }
    WfIntro(h', s);
  }

  lemma SameShapeRing(h: Links, s: Shape, h': Links, t: Subject)
    requires SameShape(h, s, h') && RingOk(h, s, t)
    ensures RingOk(h', s, t)
  {
    hide Cycle, ParentKnown;
  }

  lemma ParentsStayKnown(p: ParentMap, x: Article, y: Article?, p': ParentMap)
    requires p' == p[x := y] && x in p && (y != null ==> y in p)
    requires forall q {:trigger ParentKnown(p, q)} :: q in p ==> ParentKnown(p, q)
    ensures forall q {:trigger ParentKnown(p', q)} :: q in p' ==> ParentKnown(p', q)
  {
    forall q {:trigger ParentKnown(p', q)} | q in p' ensures ParentKnown(p', q) {
      assert ParentKnown(p, q);
    }
  }

  lemma SetParentKeepsWf(g: State, x: Article, y: Article?)
    requires Wf(g.h, g.s) && x in g.h.parent && x !in g.s.home && (y != null ==> y in g.h.parent)
    ensures Wf(SetParent(g, x, y).h, g.s)
  {
    hide Wf, KidsOk, TopsOk, RingOk, Filed, ParentKnown;
    WfElim(g.h, g.s);
    var p' := g.h.parent[x := y];
    assert p'.Keys == g.h.parent.Keys;
    ParentsStayKnown(g.h.parent, x, y, p');
    SameShapeKeepsWf(g.h, g.s, SetParent(g, x, y).h);
  }

  lemma SetDateKeepsWf(g: State, x: Article, d: int)
    requires Wf(g.h, g.s) && x in g.h.parent
    ensures Wf(SetDate(g, x, d).h, g.s)
  {
    hide Wf, KidsOk, TopsOk, RingOk, Filed, ParentKnown;
    WfElim(g.h, g.s);
    SameShapeKeepsWf(g.h, g.s, SetDate(g, x, d).h);
  }

  lemma SetSubjKeepsWf(g: State, x: Article, t: Subject?)
    requires Wf(g.h, g.s) && x in g.h.parent && (t != null ==> t in g.h.thread)
    ensures Wf(SetSubj(g, x, t).h, g.s)
  {
    hide Wf, KidsOk, TopsOk, RingOk, Filed, ParentKnown;
    WfElim(g.h, g.s);
    var subj' := g.h.subj[x := t];
    assert subj'.Keys == g.h.subj.Keys;
    forall q | q in subj' && subj'[q] != null ensures subj'[q] in g.h.thread {
    }
    SameShapeKeepsWf(g.h, g.s, SetSubj(g, x, t).h);
  }

  // ---- One more reference -----------------------------------------------------------------------

  /** `a`'s chain once its last article has been put under `ap`. */
  ghost function Attached(g: State, prev: Article, ap: Article, base: Subject): State
    requires Wf(g.h, g.s) && prev in g.h.parent && prev !in g.s.home && ap in g.h.parent && base in g.h.thread
  {
    SetParentKeepsWf(g, prev, ap);
    AfterLink(SetParent(g, prev, ap), prev, base)
  }

  lemma WfDomains(g: State)
    requires Wf(g.h, g.s)
    ensures Domains(g.h, g.s) && Targets(g.h, g.s)
  {
  }

  lemma KidsEmptyOrHome(g: State, q: Article, p: Article)
    requires Wf(g.h, g.s) && q in g.s.home && Par(g, q) == p
    ensures p in g.h.parent && q in Kids(g, p)
  {
    assert Filed(g.h, g.s, q);
  }

  /** `prev` has become the only child of `ap`, which had none. */
  ghost predicate OnlyChildNow(g: State, prev: Article, ap: Article, base: Subject, g': State) {
    && prev in g.h.parent && g'.h.parent == g.h.parent[prev := ap]
    && g'.h.subj == g.h.subj && g'.h.thread == g.h.thread
    && g'.s.kids == g.s.kids[ap := [prev]] && g'.s.ring == g.s.ring && g'.s.home == g.s.home[prev := base]
  }

  lemma AttachedToChildless(g: State, prev: Article, ap: Article, base: Subject)
    requires Wf(g.h, g.s) && prev in g.h.parent && prev !in g.s.home && ap in g.h.parent && base in g.h.thread
    requires Kids(g, ap) == []
    ensures OnlyChildNow(g, prev, ap, base, Attached(g, prev, ap, base))
    ensures Attached(g, prev, ap, base).h.date == g.h.date && Wf(Attached(g, prev, ap, base).h, Attached(g, prev, ap, base).s)
  {
    hide Wf;
    SetParentKeepsWf(g, prev, ap);
    WfDomains(g);
    AfterLinkFields(SetParent(g, prev, ap), prev, base);
    assert Inserted([], 0, prev) == [prev];
  }

  lemma LongerRungs(g: State, a: Article, base: Subject, chain: seq<Article>, ap: Article, g': State, i: nat)
    requires chain != [] && NoDup(chain) && ap !in chain && i < |chain| && chain[0] == a
    requires OnlyChildNow(g, Last(chain), ap, base, g') && base in g.s.ring
    requires g'.h.date == g.h.date[ap := Date(g, a)] && ap in g.s.kids && ap in g.h.subj && g.h.subj[ap] == null
    requires i + 1 < |chain| ==> Rung(g, base, chain, i)
    ensures Rung(g', base, chain + [ap], i)
  {
    var chain' := chain + [ap];
    assert chain[i] == chain'[i] && chain'[0] == a;
    if i + 1 < |chain| {
      assert chain'[i + 1] == chain[i + 1] && chain[i] != Last(chain) && chain[i + 1] != ap && a != ap;
    }
  }

  lemma LongerPlaced(g: State, a: Article, base: Subject, chain: seq<Article>, ap: Article, g': State, q: Article)
    requires chain != [] && chain[0] == a && OnlyChildNow(g, Last(chain), ap, base, g') && q in g'.s.home
    requires base in g.s.ring && ap !in g'.s.home && Subj(g, a) == base
    requires forall x :: x in chain[1..] ==> Subj(g, x) == null
    requires Par(g, Last(chain)) == null && Last(chain) !in g.s.home
    requires q != Last(chain) ==> Placed(g, q, Last(chain), base, chain[1..])
    requires q != Last(chain) && Par(g, q) != null ==> Par(g, q) in g.h.parent
    ensures Placed(g', q, ap, base, (chain + [ap])[1..])
  {
    assert (chain + [ap])[1..] == chain[1..] + [ap];
    var prev := Last(chain);
    if q == prev && |chain| > 1 {
      assert chain[1..][|chain| - 2] == prev;
    }
  }

  lemma ChainedSubjects(g: State, a: Article, base: Subject, chain: seq<Article>)
    requires Chained(g, a, base, chain)
    ensures forall x :: x in chain[1..] ==> Subj(g, x) == null
    ensures base in g.s.ring
  {
    forall x | x in chain[1..] ensures Subj(g, x) == null {
      var j :| 0 <= j < |chain| - 1 && chain[1..][j] == x;
      assert Rung(g, base, chain, j);
    }
  }

  lemma AttachKeepsGround(p: ParentMap, prev: Article, ap: Article)
    requires Grounded(p) && prev in p && ap in p && p[ap] == null && ap != prev
    ensures Grounded(p[prev := ap])
  {
    RootNotBelow(p, ap, prev);
    NewParent(p, prev, ap);
  }

  lemma AttachCoherent(g: State, a: Article, base: Subject, chain: seq<Article>, ap: Article, g': State)
    requires Chained(g, a, base, chain) && ap in g.h.parent && ap !in g.s.home && ap !in chain
    requires OnlyChildNow(g, Last(chain), ap, base, g')
    ensures Coherent(g', a, ap, base, (chain + [ap])[1..])
  {
    hide Wf, Grounded, Rung, Placed;
    WfDomains(g);
    ChainedSubjects(g, a, base, chain);
    var prev, chain' := Last(chain), chain + [ap];
    forall q | q in g'.s.home ensures Placed(g', q, ap, base, chain'[1..]) {
      assert q != prev ==> ParentKnown(g.h.parent, q);
      LongerPlaced(g, a, base, chain, ap, g', q);
    }
    forall q | q in g'.h.parent && q !in g'.s.home ensures Loose(g', q, a, ap) {
      assert Loose(g, q, a, prev);
    }
  }

  lemma AttachUnknown(g: State, a: Article, base: Subject, chain: seq<Article>, ap: Article)
    requires Chained(g, a, base, chain) && ap in g.h.parent && ap !in g.s.home && ap !in chain && Subj(g, ap) == null
    ensures Chained(SetDate(Attached(g, Last(chain), ap, base), ap, Date(g, a)), a, base, chain + [ap])
  {
    hide Wf, Attached, Grounded, Rung, Placed, Coherent;
    WfDomains(g);
    ChainedSubjects(g, a, base, chain);
    var prev, g' := Last(chain), Attached(g, Last(chain), ap, base);
    LooseAt(g, a, prev, base, chain[1..], ap);
    AttachedToChildless(g, prev, ap, base);
    SetDateKeepsWf(g', ap, Date(g, a));
    var g'', chain' := SetDate(g', ap, Date(g, a)), chain + [ap];
    AttachKeepsGround(g.h.parent, prev, ap);
    forall i | 0 <= i < |chain'| - 1 ensures Rung(g'', base, chain', i) {
      LongerRungs(g, a, base, chain, ap, g'', i);
    }
    AttachCoherent(g, a, base, chain, ap, g'');
  }

  lemma LooseAt(g: State, a: Article?, prev: Article?, base: Subject?, fakes: seq<Article>, q: Article)
    requires Coherent(g, a, prev, base, fakes) && q in g.h.parent && q !in g.s.home
    ensures Loose(g, q, a, prev)
  {
  }

  lemma RootNotBelow(p: ParentMap, r: Article, x: Article)
    requires r in p && p[r] == null && r != x
    ensures !Above(p, r, x)
  {
    forall n: nat ensures Up(p, r, n) != x {
      if n > 0 {
        assert Up(p, null, n - 1) == null;
      }
    }
  }

  // ---- A reference to an article already in a thread ------------------------------------------------

  /** `prev` has been filed under `ap`: every field but the list and the sibling pointers. */
  ghost predicate ChildNow(g: State, prev: Article, ap: Article, base: Subject, g': State) {
    && prev in g.h.parent && g'.h.parent == g.h.parent[prev := ap]
    && g'.h.subj == g.h.subj && g'.h.date == g.h.date && g'.h.thread == g.h.thread && g'.h.link == g.h.link
    && g'.s.tops == g.s.tops && g'.s.ring == g.s.ring && g'.s.home == g.s.home[prev := base]
    && g'.s.kids.Keys == g.s.kids.Keys && (forall q :: q in g.s.kids && q != ap ==> g'.s.kids[q] == g.s.kids[q])
  }

  lemma AttachedFields(g: State, prev: Article, ap: Article, base: Subject)
    requires Wf(g.h, g.s) && prev in g.h.parent && prev !in g.s.home && ap in g.h.parent && base in g.h.thread
    ensures ChildNow(g, prev, ap, base, Attached(g, prev, ap, base))
    ensures Wf(Attached(g, prev, ap, base).h, Attached(g, prev, ap, base).s)
  {
    hide Wf;
    SetParentKeepsWf(g, prev, ap);
    WfDomains(g);
    AfterLinkFields(SetParent(g, prev, ap), prev, base);
  }

  /** Everything in its place, but the thread of `x` and that of its parent may differ. */
  ghost predicate CoherentBut(g: State, x: Article, base: Subject, fakes: seq<Article>) {
    && (forall q :: q in g.s.home && q != x ==> Placed(g, q, null, null, fakes))
    && (forall q :: q in g.h.parent && q !in g.s.home ==> Loose(g, q, null, null))
    && x in g.s.home && Par(g, x) != null && Par(g, x) in g.s.home && HomeRingAt(g, x) == RingAt(g, base)
    && (if Subj(g, x) == null then x in fakes else RingAt(g, Subj(g, x)) == HomeRingAt(g, x))
  }

  lemma ChainedHomes(g: State, a: Article, base: Subject, chain: seq<Article>)
    requires Chained(g, a, base, chain)
    ensures a == Last(chain) || a in g.s.home
    ensures forall x :: x in chain ==> x == Last(chain) || (x in g.s.home && HomeRingAt(g, x) == RingAt(g, base))
    ensures |chain| > 1 ==> Last(chain) in chain[1..]
  {
    if |chain| > 1 {
      assert chain[1..][|chain| - 2] == Last(chain);
      assert Rung(g, base, chain, 0);
    }
    forall x | x in chain && x != Last(chain) ensures x in g.s.home && HomeRingAt(g, x) == RingAt(g, base) {
      var i :| 0 <= i < |chain| && chain[i] == x;
      assert Rung(g, base, chain, i);
    }
  }

  lemma KnownPlaced(g: State, prev: Article, ap: Article, base: Subject, fakes: seq<Article>, g': State, q: Article)
    requires ChildNow(g, prev, ap, base, g') && prev !in g.s.home && ap in g.s.home && ap != prev
    requires base in g.s.ring && Placed(g, q, prev, base, fakes) && q != prev && q in g.s.home
    ensures Placed(g', q, null, null, fakes)
  {
  }

  lemma AttachKnownPlaced(g: State, a: Article, base: Subject, chain: seq<Article>, ap: Article, g': State, q: Article)
    requires Chained(g, a, base, chain) && ap in g.s.home && ChildNow(g, Last(chain), ap, base, g')
    requires q in g'.s.home && q != Last(chain)
    ensures Placed(g', q, null, null, chain[1..])
  {
    hide Wf, Grounded, Rung, ChildNow, Placed, NoDup;
    ChainedSubjects(g, a, base, chain);
    HomesGrow(g, Last(chain), ap, base, g', q);
    KnownPlaced(g, Last(chain), ap, base, chain[1..], g', q);
  }

  lemma AttachKnownLoose(g: State, a: Article, base: Subject, chain: seq<Article>, ap: Article, g': State, q: Article)
    requires Chained(g, a, base, chain) && ap in g.s.home && ChildNow(g, Last(chain), ap, base, g')
    requires q in g'.h.parent && q !in g'.s.home
    ensures Loose(g', q, null, null)
  {
    hide Wf, Grounded, Rung, ChildNow, Placed, NoDup, Loose;
    WfDomains(g);
    ChainedHomes(g, a, base, chain);
    HomesGrow(g, Last(chain), ap, base, g', q);
    KnownLoose(g, a, Last(chain), ap, base, g', q);
  }

  lemma AttachKnown(g: State, a: Article, base: Subject, chain: seq<Article>, ap: Article)
    requires Chained(g, a, base, chain) && ap in g.s.home && ap in g.h.parent
    ensures CoherentBut(Attached(g, Last(chain), ap, base), Last(chain), base, chain[1..])
    ensures ChildNow(g, Last(chain), ap, base, Attached(g, Last(chain), ap, base))
  {
    hide Wf, Attached, Coherent, Grounded, Rung, ChildNow, Placed, NoDup, Loose;
    var prev, g', fakes := Last(chain), Attached(g, Last(chain), ap, base), chain[1..];
    ChainedSubjects(g, a, base, chain);
    ChainedHomes(g, a, base, chain);
    AttachedFields(g, prev, ap, base);
    NewcomerPlaced(g, prev, ap, base, fakes, g');
    AttachKnownAll(g, a, base, chain, ap, g');
  }

  lemma AttachKnownAll(g: State, a: Article, base: Subject, chain: seq<Article>, ap: Article, g': State)
    requires Chained(g, a, base, chain) && ap in g.s.home && ChildNow(g, Last(chain), ap, base, g')
    ensures forall q :: q in g'.s.home && q != Last(chain) ==> Placed(g', q, null, null, chain[1..])
    ensures forall q :: q in g'.h.parent && q !in g'.s.home ==> Loose(g', q, null, null)
  {
    hide Wf, Coherent, Grounded, Rung, NoDup, ChildNow, Placed, Loose;
    forall q | q in g'.s.home && q != Last(chain) ensures Placed(g', q, null, null, chain[1..]) {
      AttachKnownPlaced(g, a, base, chain, ap, g', q);
    }
    forall q | q in g'.h.parent && q !in g'.s.home ensures Loose(g', q, null, null) {
      AttachKnownLoose(g, a, base, chain, ap, g', q);
    }
  }

  lemma HomesGrow(g: State, prev: Article, ap: Article, base: Subject, g': State, q: Article)
    requires ChildNow(g, prev, ap, base, g')
    ensures q in g'.s.home <==> q == prev || q in g.s.home
    ensures q in g'.h.parent <==> q in g.h.parent
  {
  }

  lemma NewcomerPlaced(g: State, prev: Article, ap: Article, base: Subject, fakes: seq<Article>, g': State)
    requires ChildNow(g, prev, ap, base, g') && ap in g.s.home && base in g.s.ring
    requires if Subj(g, prev) == null then prev in fakes else Subj(g, prev) == base
    ensures prev in g'.s.home && Par(g', prev) == ap && ap in g'.s.home && HomeRingAt(g', prev) == RingAt(g', base)
    ensures if Subj(g', prev) == null then prev in fakes else RingAt(g', Subj(g', prev)) == HomeRingAt(g', prev)
  {
  }

  lemma KnownLoose(g: State, a: Article, prev: Article, ap: Article, base: Subject, g': State, q: Article)
    requires ChildNow(g, prev, ap, base, g') && Loose(g, q, a, prev) && q != a && q != prev && q != ap && q !in g.s.home
    requires g.s.kids.Keys == g.h.parent.Keys
    ensures Loose(g', q, null, null)
  {
  }

  /** Same thread: nothing more to do. */
  lemma SameThread(g: State, x: Article, base: Subject, fakes: seq<Article>)
    requires CoherentBut(g, x, base, fakes) && HomeRingAt(g, Par(g, x)) == RingAt(g, base)
    ensures Coherent(g, null, null, null, fakes)
  {
  }

  // ---- Threads and rings ----------------------------------------------------------------------------

  /** Walking up stays in one thread, except perhaps from a child of `prev`. */
  ghost predicate RingsFollow(g: State, prev: Article?, base: Subject?) {
    forall q :: q in g.s.home && Par(g, q) != null ==>
      if Par(g, q) in g.s.home then HomeRingAt(g, q) == HomeRingAt(g, Par(g, q))
      else Par(g, q) == prev && HomeRingAt(g, q) == RingAt(g, base)
  }

  lemma HomeFacts(g: State, q: Article)
    requires Wf(g.h, g.s) && q in g.s.home
    ensures q in g.h.parent && ParentKnown(g.h.parent, q)
    ensures g.s.home[q] in g.h.thread && g.s.home[q] in g.s.ring && g.s.home[q] in g.s.tops
    ensures g.h.parent[q] == null ==> q in g.s.tops[g.s.home[q]]
    ensures g.h.parent[q] != null ==> g.h.parent[q] in g.s.kids && q in g.s.kids[g.h.parent[q]]
  {
    assert Filed(g.h, g.s, q) && ParentKnown(g.h.parent, q);
  }

  lemma SameRingSameTops(g: State, t: Subject, u: Subject)
    requires Wf(g.h, g.s) && t in g.h.thread && u in g.h.thread && RingAt(g, t) == RingAt(g, u)
    ensures t in g.s.tops && u in g.s.tops && g.s.tops[t] == g.s.tops[u] && g.h.thread[t] == g.h.thread[u]
    ensures g.h.thread[t] == At(g.s.tops[t], 0)
  {
    RingFacts(g, t);
    RingFacts(g, u);
    assert TopsOk(g.h, g.s, t) && TopsOk(g.h, g.s, u);
  }

  /** Every thread with a linked article has a lead article, unless it is the thread of `base`. */
  lemma {:induction false} Led(g: State, prev: Article?, base: Subject?, q: Article, n: nat)
    requires Wf(g.h, g.s) && RingsFollow(g, prev, base) && q in g.s.home && Up(g.h.parent, q, n) == null
    ensures g.s.home[q] in g.h.thread
    ensures g.h.thread[g.s.home[q]] != null || HomeRingAt(g, q) == RingAt(g, base)
    decreases n
  {
    hide Wf;
    HomeFacts(g, q);
    SameRingSameTops(g, g.s.home[q], g.s.home[q]);
    var p := g.h.parent[q];
    assert Par(g, q) == p;
    if p != null && p in g.s.home {
      Led(g, prev, base, p, n - 1);
      HomeFacts(g, p);
      SameRingSameTops(g, g.s.home[q], g.s.home[p]);
    }
  }

  /** Comparing lead articles, as the source does, tells whether two subjects are of one thread. */
  lemma ThreadsTellRings(g: State, prev: Article?, base: Subject, q: Article, t: Subject)
    requires Wf(g.h, g.s) && RingsFollow(g, prev, base) && Grounded(g.h.parent) && base in g.h.thread
    requires q in g.s.home && t in g.h.thread && RingAt(g, t) == HomeRingAt(g, q)
    ensures g.h.thread[t] == g.h.thread[base] <==> RingAt(g, t) == RingAt(g, base)
  {
    hide Wf, RingsFollow;
    HomeFacts(g, q);
    assert Ends(g.h.parent, q);
    var n: nat :| Up(g.h.parent, q, n) == null;
    Led(g, prev, base, q, n);
    SameRingSameTops(g, t, g.s.home[q]);
    if RingAt(g, t) == RingAt(g, base) {
      SameRingSameTops(g, t, base);
    } else if g.h.thread[t] == g.h.thread[base] {
      SameLead(g, t, base);
    }
  }

  lemma SameLead(g: State, t: Subject, u: Subject)
    requires Wf(g.h, g.s) && t in g.h.thread && u in g.h.thread
    requires g.h.thread[t] != null && g.h.thread[t] == g.h.thread[u]
    ensures RingAt(g, t) == RingAt(g, u)
  {
    assert TopsOk(g.h, g.s, t) && TopsOk(g.h, g.s, u);
    assert g.s.tops[t][0] in g.s.tops[t] && g.s.tops[u][0] in g.s.tops[u];
  }

  // ---- Merging the two threads an article turns out to join -----------------------------------------

  lemma RingsAfterMerge(g: State, s1: Subject, s2: Subject, k: nat, g': State, t: Subject, u: Subject)
    requires Mergeable(g, s1, s2) && SubjectsKnown(g, s2) && k <= |TopsOf(g, s2)| && Refiled(g, s1, s2, k, g')
    requires t in g.h.thread && u in g.h.thread
    ensures RingAt(g, t) == RingAt(g, u) ==> RingAt(g', t) == RingAt(g', u)
    ensures RingAt(g', s1) == RingAt(g', s2)
  {
    hide Wf, InsertedTops, HomesAfter, Cycle, JoinedRing;
    RingFacts(g, s1);
    RingFacts(g, s2);
    RingFacts(g, t);
    RingFacts(g, u);
    JoinedRingFacts(g, s1, s2);
  }

  lemma HomesAfterMerge(g: State, s1: Subject, s2: Subject, g': State, q: Article)
    requires Mergeable(g, s1, s2) && SubjectsKnown(g, s2) && Refiled(g, s1, s2, |TopsOf(g, s2)|, g')
    ensures q in g'.s.home <==> q in g.s.home
    ensures q in g.s.home ==> g.s.home[q] in g.h.thread && HomeRingAt(g', q) == RingAt(g', g.s.home[q])
  {
    hide Wf, InsertedTops, Cycle, JoinedRing;
    var l2 := TopsOf(g, s2);
    assert l2[|l2|..] == [] && l2[..|l2|] == l2;
    TopsDated(g, s1, s2);
    if q in g.s.home {
      HomeFacts(g, q);
      if q in l2 {
        TopsHomes(g, s2, q);
        RingFacts(g, s2);
        RingsAfterMerge(g, s1, s2, |l2|, g', g.s.home[q], g.h.subj[q]);
      }
    }
  }

  lemma TopsHomes(g: State, t: Subject, q: Article)
    requires Wf(g.h, g.s) && t in g.h.thread && q in TopsOf(g, t)
    ensures q in g.s.home && HomeRingAt(g, q) == RingAt(g, t)
  {
    assert TopsOk(g.h, g.s, t);
  }

  /** Once the two threads are one, everything is in its place. */
  lemma MergeSettles(g: State, x: Article, s1: Subject, s2: Subject, fakes: seq<Article>, g': State)
    requires CoherentBut(g, x, s2, fakes)
    requires Mergeable(g, s1, s2) && SubjectsKnown(g, s2) && Refiled(g, s1, s2, |TopsOf(g, s2)|, g')
    requires HomeRingAt(g, Par(g, x)) == RingAt(g, s1)
    ensures Coherent(g', null, null, null, fakes)
  {
    hide Wf, Mergeable, Placed, SubjectsKnown, Refiled;
    forall q | q in g'.s.home ensures Placed(g', q, null, null, fakes) {
      HomesAfterMerge(g, s1, s2, g', q);
      PlacedAfterMerge(g, x, s1, s2, fakes, g', q);
    }
    forall q | q in g'.h.parent && q !in g'.s.home ensures Loose(g', q, null, null) {
      HomesAfterMerge(g, s1, s2, g', q);
      LooseAfterMerge(g, s1, s2, g', q);
    }
  }

  lemma LooseAfterMerge(g: State, s1: Subject, s2: Subject, g': State, q: Article)
    requires Mergeable(g, s1, s2) && SubjectsKnown(g, s2) && Refiled(g, s1, s2, |TopsOf(g, s2)|, g')
    requires q in g'.h.parent
    ensures q in g.h.parent && Par(g', q) == Par(g, q) && Kids(g', q) == Kids(g, q) && Subj(g', q) == Subj(g, q)
  {
    hide Wf, InsertedTops, Cycle, JoinedRing;
  }

  lemma PlacedAfterMerge(g: State, x: Article, s1: Subject, s2: Subject, fakes: seq<Article>, g': State, q: Article)
    requires Mergeable(g, s1, s2) && SubjectsKnown(g, s2) && Refiled(g, s1, s2, |TopsOf(g, s2)|, g') && q in g.s.home
    requires q != x ==> Placed(g, q, null, null, fakes)
    requires q == x ==>
      && Par(g, x) != null && Par(g, x) in g.s.home && HomeRingAt(g, x) == RingAt(g, s2)
      && HomeRingAt(g, Par(g, x)) == RingAt(g, s1)
      && (if Subj(g, x) == null then x in fakes else RingAt(g, Subj(g, x)) == HomeRingAt(g, x))
    ensures Placed(g', q, null, null, fakes)
  {
    hide Wf, Refiled, SubjectsKnown;
    var p, t := Par(g, q), Subj(g, q);
    HomesAfterMerge(g, s1, s2, g', q);
    SubjectsAfterMerge(g, s1, s2, g', q);
    var h := g.s.home[q];
    if p != null {
      HomesAfterMerge(g, s1, s2, g', p);
      var hp := g.s.home[p];
      RingsAfterMerge(g, s1, s2, |TopsOf(g, s2)|, g', h, hp);
      RingsAfterMerge(g, s1, s2, |TopsOf(g, s2)|, g', h, s2);
      RingsAfterMerge(g, s1, s2, |TopsOf(g, s2)|, g', hp, s1);
    }
    if t != null {
      RingsAfterMerge(g, s1, s2, |TopsOf(g, s2)|, g', h, t);
    }
  }

  lemma SubjectsAfterMerge(g: State, s1: Subject, s2: Subject, g': State, q: Article)
    requires Mergeable(g, s1, s2) && SubjectsKnown(g, s2) && Refiled(g, s1, s2, |TopsOf(g, s2)|, g')
    ensures Par(g', q) == Par(g, q) && Subj(g', q) == Subj(g, q)
    ensures Subj(g, q) != null ==> Subj(g, q) in g.h.thread
    ensures s1 in g.h.thread && s2 in g.h.thread
  {
    hide Wf, InsertedTops, Cycle, JoinedRing, KidsOk, TopsOk, RingOk, Filed, ParentKnown;
    WfElim(g.h, g.s);
  }
}
