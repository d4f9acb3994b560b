/** The methods that move the pointers of the article forest
    (libtrn/Article.cpp, libtrn/rt-process.cpp). */
module Threading {
  import opened Forest
  import opened Joining
  import opened Placing
  import opened Settling
  import opened Detaching
  import opened Ancestry
  import opened References
  import opened Walking
  import opened Finishing
  import opened Ordering
  import opened Mixing
  import opened Replacing
  import opened Receiving

  // What a map of pointers says about a set of articles.

  ghost predicate ParentsIn(s: set<Article>, m: map<Article, Article?>) reads s`parent {
    m.Keys == s && forall a :: a in s ==> a.parent == m[a]
  }

  ghost predicate Child1sIn(s: set<Article>, m: map<Article, Article?>) reads s`child1 {
    forall a :: a in s ==> a in m && a.child1 == m[a]
  }

  ghost predicate SiblingsIn(s: set<Article>, m: map<Article, Article?>) reads s`sibling {
    forall a :: a in s ==> a in m && a.sibling == m[a]
  }

  ghost predicate SubjsIn(s: set<Article>, m: map<Article, Subject?>) reads s`subj {
    forall a :: a in s ==> a in m && a.subj == m[a]
  }

  ghost predicate DatesIn(s: set<Article>, m: map<Article, int>) reads s`date {
    forall a :: a in s ==> a in m && a.date == m[a]
  }

  ghost function FakesIn(s: set<Article>): set<Article> reads s`fake {
    set x | x in s && x.fake
  }

  lemma FakesLess(s: set<Article>, f: Article)
    ensures FakesIn(s - {f}) == FakesIn(s) - {f}
  {
  }

  lemma FakesMore(s: set<Article>, a: Article)
    requires !a.fake
    ensures FakesIn(s + {a}) == FakesIn(s)
  {
  }

  lemma TableOneMore(t: Table, known: set<Article>, id: string, a: Article)
    requires TableFits(t, known) && id !in t && a in known && forall i :: i in t ==> t[i] != a
    ensures TableFits(t[id := a], known)
  {
  }

  lemma TableKnows(t: Table, known: set<Article>, id: string)
    requires TableFits(t, known) && id in t
    ensures t[id] in known
  {
  }

  /** The id of the fake passes to the article, and the fake is forgotten. */
  lemma TableTakenOver(t: Table, known: set<Article>, id: string, a: Article)
    requires TableFits(t, known) && id in t && a in known && t[id] != a && forall i :: i in t && i != id ==> t[i] != a
    ensures TableFits(t[id := a], known - {t[id]})
  {
  }

  lemma TableGrows(t: Table, known: set<Article>, a: Article)
    requires TableFits(t, known)
    ensures TableFits(t, known + {a})
  {
  }

  lemma TableKnown(t: Table, known: set<Article>)
    requires TableFits(t, known)
    ensures forall id :: id in t ==> t[id] in known
  {
  }

  lemma TableShrinks(t: Table, known: set<Article>, a: Article)
    requires TableFits(t, known) && forall id :: id in t ==> t[id] != a
    ensures TableFits(t, known - {a})
  {
  }

  lemma OneMoreNumbered(s: set<Article>, f: Article, h: Links)
    requires ParentsIn(s, h.parent) && Child1sIn(s, h.child1) && SiblingsIn(s, h.sibling) && SubjsIn(s, h.subj)
    requires DatesIn(s, h.date) && f !in s && f.parent == null && f.child1 == null && f.sibling == null
    ensures ParentsIn(s + {f}, h.parent[f := null]) && Child1sIn(s + {f}, h.child1[f := null])
    ensures SiblingsIn(s + {f}, h.sibling[f := null]) && SubjsIn(s + {f}, h.subj[f := f.subj])
    ensures DatesIn(s + {f}, h.date[f := f.date])
  {
  }

  lemma FilledNone(m: map<Article, Article?>, kids: seq<Article>, a: Article)
    ensures kids[..0] == [] && Fill(m, kids[..0], a) == m
  {
  }

  lemma FilledOne(m: map<Article, Article?>, kids: seq<Article>, k: nat, a: Article)
    requires k < |kids| && kids[k] in m
    ensures Fill(m, kids[..k], a)[kids[k] := a] == Fill(m, kids[..k + 1], a)
  {
    assert kids[..k + 1] == kids[..k] + [kids[k]];
  }

  lemma OneLess(s: set<Article>, f: Article, h: Links)
    requires ParentsIn(s, h.parent) && Child1sIn(s, h.child1) && SiblingsIn(s, h.sibling) && SubjsIn(s, h.subj)
    requires DatesIn(s, h.date)
    ensures ParentsIn(s - {f}, h.parent - {f}) && Child1sIn(s - {f}, h.child1 - {f})
    ensures SiblingsIn(s - {f}, h.sibling - {f}) && SubjsIn(s - {f}, h.subj - {f}) && DatesIn(s - {f}, h.date - {f})
  {
  }

  lemma OneMore(s: set<Article>, f: Article, h: Links)
    requires ParentsIn(s, h.parent) && Child1sIn(s, h.child1) && SiblingsIn(s, h.sibling) && SubjsIn(s, h.subj)
    requires DatesIn(s, h.date) && f !in s
    requires f.parent == null && f.child1 == null && f.sibling == null && f.subj == null && f.date == 0
    ensures ParentsIn(s + {f}, h.parent[f := null]) && Child1sIn(s + {f}, h.child1[f := null])
    ensures SiblingsIn(s + {f}, h.sibling[f := null]) && SubjsIn(s + {f}, h.subj[f := null])
    ensures DatesIn(s + {f}, h.date[f := 0])
  {
  }

  /** What the arrival of an article has done: it was admitted (`mid`), left the place of the fake
      it replaced, if there was one (`start`), and was filed as its references say. All is in order
      of dates afterwards exactly unless its arrival disturbs that and its references do not lead
      to a third thread. */
  ghost predicate TakenIn(g0: State, t0: Table, fakes: set<Article>, id: string, date: int, subject: Subject,
                          refs: seq<Reference>, a: Article, mid: State, line: seq<Article>, stopper: Article?,
                          start: State, spine: seq<Article>, cut: Article?, g: State, t: Table) {
    var f := Fake(t0, id);
    && Admitted(g0, t0, id, a, date, subject, if f == null then null else Subj(g0, f), mid, t0[id := a])
    && Departed(mid, fakes - {f}, a, if f == null then null else Subj(g0, f), subject, line, stopper, start)
    && Outcome(start, t0[id := a], a, subject, refs, g, t, spine, cut)
    && ThreadsJoined(start, LedTo(start, t0[id := a], subject, WalkOf(start, t0[id := a], a, refs)), subject, g)
    && (Dated(g0) ==> (Dated(g) <==> !Disturbs(g0, f, date, subject) || LedElsewhere(g0, t0, id, subject, refs)))
  }

  lemma TakenInNow(g0: State, t0: Table, fakes: set<Article>, id: string, date: int, subject: Subject,
                   refs: seq<Reference>, a: Article, fakeHadSubj: Subject?, mid: State, line: seq<Article>,
                   stopper: Article?, start: State, spine: seq<Article>, cut: Article?, g: State, t: Table)
    requires Tidy(g0) && subject in g0.h.thread && Admitted(g0, t0, id, a, date, subject, fakeHadSubj, mid, t0[id := a])
    requires Departed(mid, fakes - {Fake(t0, id)}, a, fakeHadSubj, subject, line, stopper, start)
    requires Outcome(start, t0[id := a], a, subject, refs, g, t, spine, cut) && TableFits(t0, g0.h.parent.Keys)
    requires OrderAfter(start, subject, LedTo(start, t0[id := a], subject, WalkOf(start, t0[id := a], a, refs)), false, g)
    ensures TakenIn(g0, t0, fakes, id, date, subject, refs, a, mid, line, stopper, start, spine, cut, g, t)
    ensures id in t && t[id] == a
  {
    hide Tidy, Departed, Outcome, Dated, Mixed, ThreadsJoined, Together, Admitted, Disturbs, LedElsewhere, LedTo, WalkOf,
      Unknown;
    TidyParts(g0);
    AdmittedParts(g0, t0, id, a, date, subject, fakeHadSubj, mid, t0[id := a]);
    NotYetKnown(g0, a);
    TableKeeps(start, t0[id := a], a, subject, refs, g, t, spine, cut, id);
    var f := Fake(t0, id);
    if Dated(g0) {
      ArrivedOrder(g0, t0, fakes - {f}, id, a, date, subject, fakeHadSubj, mid, t0[id := a], line, stopper, start);
      if Disturbs(g0, f, date, subject) {
        DisturbedParts(g0, f, date, subject);
        LedApart(g0, t0, fakes - {f}, id, a, date, subject, mid, line, stopper, start, refs);
        if Mixed(g, subject) { MixedIsNotDated(g, subject); }
      }
    }
  }

  /** Articles and message-ids have been added only for ids that were not known, each a fake. */
  ghost predicate Grown(s0: set<Article>, t0: Table, s: set<Article>, t: Table) {
    && (forall x :: x in s && x !in s0 ==> x.tmpMem)
    && (forall i :: i in t0 ==> i in t && t[i] == t0[i]) && (forall i :: i in t && i !in t0 ==> t[i].tmpMem)
  }

  lemma GrownFromMore(more: set<Article>, s0: set<Article>, t0: Table, s: set<Article>, t: Table)
    requires Grown(s0, t0, s, t) && s0 <= more
    ensures Grown(more, t0, s, t)
  {
  }

  /** The articles and subjects of one newsgroup, the message-id table, and (ghost) the
      forest their pointers spell out. */
  class Group {
    var table: map<string, Article>   // message-id to article
    var index: map<string, Subject>   // subject line to subject
    ghost var arts: set<Article>
    ghost var subs: set<Subject>
    ghost var g: State

    // The maps are what the fields of the objects say.

    ghost predicate ParentsAre(m: map<Article, Article?>) reads `arts, arts`parent { ParentsIn(arts, m) }
    ghost predicate Child1sAre(m: map<Article, Article?>) reads `arts, arts`child1 { Child1sIn(arts, m) }
    ghost predicate SiblingsAre(m: map<Article, Article?>) reads `arts, arts`sibling { SiblingsIn(arts, m) }
    ghost predicate SubjsAre(m: map<Article, Subject?>) reads `arts, arts`subj { SubjsIn(arts, m) }
    ghost predicate DatesAre(m: map<Article, int>) reads `arts, arts`date { DatesIn(arts, m) }

    ghost predicate ThreadsAre(m: map<Subject, Article?>) reads `subs, subs`thread {
      m.Keys == subs && forall t :: t in subs ==> t.thread == m[t]
    }

    ghost predicate ThreadLinksAre(m: map<Subject, Subject>) reads `subs, subs`threadLink {
      forall t :: t in subs ==> t in m && t.threadLink == m[t]
    }

    ghost predicate Mirrors(h: Links)
      reads `arts, `subs, arts`parent, arts`child1, arts`sibling, arts`subj, arts`date, subs`thread, subs`threadLink
    {
      && ParentsAre(h.parent) && Child1sAre(h.child1) && SiblingsAre(h.sibling) && SubjsAre(h.subj) && DatesAre(h.date)
      && ThreadsAre(h.thread) && ThreadLinksAre(h.link)
    }

    ghost predicate Valid()
      reads `g, `arts, `subs, arts`parent, arts`child1, arts`sibling, arts`subj, arts`date, subs`thread, subs`threadLink
    {
      Mirrors(g.h) && Wf(g.h, g.s)
    }

    // ---- The empty group, and its subjects -------------------------------------------------------------

    /** Every key of the index stands for one of the subjects. */
    ghost predicate IndexOk()
      reads `index, `subs
    {
      forall key :: key in index ==> index[key] in subs
    }

    constructor ()
      ensures Valid() && TableOk() && IndexOk() && Tidy(g) && Dated(g)
      ensures table == map[] && index == map[] && arts == {} && subs == {}
    {
      table, index, arts, subs, g := map[], map[], {}, {}, Nothing();
      NothingTidy();
    }

    /** The subject that a key (the subject line without "Re:") stands for, which is a ring of
        its own at first. */
    method FindOrCreate(key: string) returns (sp: Subject)
      requires Valid() && TableOk() && IndexOk() && Tidy(g)
      modifies `index, `subs, `g
      ensures Valid() && TableOk() && IndexOk() && Tidy(g) && (Dated(old(g)) ==> Dated(g))
      ensures sp in subs && key in index && index[key] == sp
      ensures key in old(index) ==> index == old(index) && subs == old(subs) && g == old(g)
      ensures key !in old(index) ==>
        fresh(sp) && index == old(index)[key := sp] && subs == old(subs) + {sp} && g == WithSubject(old(g), sp)
    {
      hide Wf, Tidy, Dated, TableFits, Mirrors;
      if key in index {
        sp := index[key];
      } else {
        sp := new Subject();
        KnownSubject(sp);
        WithSubjectTidy(g, sp);
        WithSubjectIsWf(g, sp);
        EnrolSubject(sp, g.h);
        index := index[key := sp];
        g := WithSubject(g, sp);
      }
    }

    ghost method EnrolSubject(sp: Subject, h: Links)
      requires Mirrors(h) && sp !in subs && sp.thread == null && sp.threadLink == sp
      modifies `subs
      ensures subs == old(subs) + {sp} && Mirrors(h.(thread := h.thread[sp := null], link := h.link[sp := sp]))
    {
      hide ParentsAre, Child1sAre, SiblingsAre, SubjsAre, DatesAre;
      subs := subs + {sp};
    }

    /** The do-while loop around a ring of subjects: every one of them gets `v` as its thread. */
    static method FillFrom(start: Subject, v: Article?, ghost r: seq<Subject>)
      requires |r| > 0 && r[0] == start && NoDup(r)
      requires forall i :: 0 <= i < |r| ==> r[i].threadLink == r[Next(i, |r|)]
      modifies r`thread
      ensures forall t :: t in r ==> t.thread == v
    {
      ghost var at: nat := 0;
      var sp := start;
      sp.thread := v;
      while sp.threadLink != start
        invariant at < |r| && r[at] == sp
        invariant forall i :: 0 <= i <= at ==> r[i].thread == v
        decreases |r| - at
      {
        assert at + 1 < |r|;
        at := at + 1;
        sp := sp.threadLink;
        sp.thread := v;
      }
      assert at + 1 == |r|;
    }

    static method FillRing(start: Subject, v: Article?, ghost r: seq<Subject>, ghost link: map<Subject, Subject>)
      requires start in r && Cycle(link, r) && forall t :: t in r ==> t.threadLink == link[t]
      modifies r`thread
      ensures forall t :: t in r ==> t.thread == v
    {
      hide Cycle, NoDup;
      ghost var around := Rotated(r, IndexOf(r, start));
      RotatedRing(link, r, IndexOf(r, start));
      FillFrom(start, v, around);
    }

    /** Files `a` behind every sibling that is not later: under its parent if it has one, at
        the top of its subject's thread otherwise. */
    method LinkChild(a: Article, ghost subject: Subject)
      requires Valid() && Linkable(g.h, g.s, a, subject)
      requires a.parent == null ==> a.subj == subject
      modifies `g, arts`sibling, arts`child1, subs`thread
      ensures Valid() && g == AfterLink(old(g), a, subject)
      ensures OrderKept(old(g), g, false)
    {
      hide OrderKept, Wf, Spot, Child1sAre, SiblingsAre, SubjsAre, DatesAre, ThreadsAre, ThreadLinksAre;
      ghost var l, i, r := SiblingsOf(g, a, subject), LinkPos(g.h, g.s, a, subject), RingOf(g, subject);
      LinkFacts(g, a, subject);
      Splice(a, g.h, r, l, i);
      AfterLinkFields(g, a, subject);
      LinkKeepsOrder(g, a, subject);
      g := AfterLink(g, a, subject);
    }

    ghost function Spliced(a: Article, p: Article?, h: Links, r: seq<Subject>, l: seq<Article>, i: nat): Links
      requires i <= |l|
    {
      NewLinks(h, r, p, InsertLinks(h.sibling, l, i, a), Inserted(l, i, a))
    }

    /** What the search for a place starts from. */
    lemma SpotReads(a: Article, h: Links, r: seq<Subject>, l: seq<Article>, i: nat)
      requires Mirrors(h) && a in arts && Spot(h, a, r, l, i) && (a.parent == null ==> a.subj != null && a.subj in r)
      ensures a !in l && i <= |l| && (forall x :: x in l ==> x in arts) && Cycle(h.link, r) && forall t :: t in r ==> t in subs
      ensures (forall j :: 0 <= j < i ==> l[j].date <= a.date) && (i < |l| ==> a.date < l[i].date)
      ensures a.parent == null ==> a.subj.thread == At(l, 0) && Chain(h.sibling, a.subj.thread, l)
      ensures a.parent != null ==> a.parent in arts && a.parent.child1 == At(l, 0) && Chain(h.sibling, a.parent.child1, l)
      ensures i > 0 ==> Spliced(a, a.parent, h, r, l, i) == h.(sibling := InsertLinks(h.sibling, l, i, a))
    {
      hide NoDup, Cycle, NewLinks, InsertLinks, Inserted, ThreadLinksAre, SubjsAre, SiblingsAre;
      if i > 0 {
        InsertedHead(l, i, a);
        HeadKept(h, r, a.parent, InsertLinks(h.sibling, l, i, a), Inserted(l, i, a));
      }
    }

    method Splice(a: Article, ghost h: Links, ghost r: seq<Subject>, ghost l: seq<Article>, ghost i: nat)
      requires Mirrors(h) && a in arts && Spot(h, a, r, l, i)
      requires a.parent == null ==> a.subj != null && a.subj in r
      modifies arts`sibling, arts`child1, subs`thread
      ensures Mirrors(Spliced(a, a.parent, h, r, l, i))
    {
      hide Mirrors, Spot, Spliced, Cycle;
      SpotReads(a, h, r, l, i);
      if a.parent == null {
        SpliceTop(a, h, r, l, i);
      } else {
        SpliceChild(a, h, r, l, i);
      }
    }

    method SpliceTop(a: Article, ghost h: Links, ghost r: seq<Subject>, ghost l: seq<Article>, ghost i: nat)
      requires Mirrors(h) && a in arts && a.parent == null && a.subj != null && a.subj in r
      requires a !in l && i <= |l| && (forall x :: x in l ==> x in arts) && Cycle(h.link, r) && forall t :: t in r ==> t in subs
      requires (forall j :: 0 <= j < i ==> l[j].date <= a.date) && (i < |l| ==> a.date < l[i].date)
      requires a.subj.thread == At(l, 0) && Chain(h.sibling, a.subj.thread, l)
      requires i > 0 ==> Spliced(a, a.parent, h, r, l, i) == h.(sibling := InsertLinks(h.sibling, l, i, a))
      modifies arts`sibling, subs`thread
      ensures Mirrors(Spliced(a, a.parent, h, r, l, i))
    {
      hide ParentsAre, Child1sAre, SiblingsIn, SubjsAre, DatesAre, ThreadsAre, ThreadLinksAre, Spliced, Cycle,
        InsertLinks, Chain;
      var ap := a.subj.thread;
      if ap == null || a.date < ap.date {
        SpliceAtTop(a, h, r, l);
      } else {
        InsertAfter(a, ap, h.sibling, l, i);
      }
    }

    method SpliceChild(a: Article, ghost h: Links, ghost r: seq<Subject>, ghost l: seq<Article>, ghost i: nat)
      requires Mirrors(h) && a in arts && a.parent != null && a.parent in arts
      requires a !in l && i <= |l| && forall x :: x in l ==> x in arts
      requires (forall j :: 0 <= j < i ==> l[j].date <= a.date) && (i < |l| ==> a.date < l[i].date)
      requires a.parent.child1 == At(l, 0) && Chain(h.sibling, a.parent.child1, l)
      requires i > 0 ==> Spliced(a, a.parent, h, r, l, i) == h.(sibling := InsertLinks(h.sibling, l, i, a))
      modifies arts`sibling, arts`child1
      ensures Mirrors(Spliced(a, a.parent, h, r, l, i))
    {
      hide ParentsAre, Child1sIn, SiblingsIn, SubjsAre, DatesAre, ThreadsAre, ThreadLinksAre, Spliced, InsertLinks, Chain;
      var ap := a.parent.child1;
      if ap == null || a.date < ap.date {
        SpliceAsFirstChild(a, h, r, l);
      } else {
        InsertAfter(a, ap, h.sibling, l, i);
      }
    }

    method SpliceAtTop(a: Article, ghost h: Links, ghost r: seq<Subject>, ghost l: seq<Article>)
      requires Mirrors(h) && a in arts && a.parent == null && a.subj != null && a.subj in r
      requires a.subj.thread == At(l, 0) && Cycle(h.link, r) && forall t :: t in r ==> t in subs
      modifies arts`sibling, subs`thread
      ensures Mirrors(Spliced(a, a.parent, h, r, l, 0))
    {
      HeadOfThread(h, r, l, a);
      hide ParentsAre, SubjsAre, DatesAre, Child1sAre, SiblingsIn, ThreadsAre, ThreadLinksAre, NewLinks;
      var ap := a.subj.thread;
      SetThread(a.subj, a, r, h);
      WriteSibling(a, ap, arts, h.sibling);
    }

    static method WriteSibling(x: Article, y: Article?, ghost s: set<Article>, ghost m: map<Article, Article?>)
      requires x in s && SiblingsIn(s, m)
      modifies x`sibling
      ensures SiblingsIn(s, m[x := y]) && x.sibling == y
    {
      x.sibling := y;
    }

    method SetThread(start: Subject, v: Article?, ghost r: seq<Subject>, ghost h: Links)
      requires ThreadsAre(h.thread) && ThreadLinksAre(h.link)
      requires start in r && Cycle(h.link, r) && forall t :: t in r ==> t in subs
      modifies subs`thread
      ensures ThreadsAre(Fill(h.thread, r, v))
    {
      FillRing(start, v, r, h.link);
    }

    method SpliceAsFirstChild(a: Article, ghost h: Links, ghost r: seq<Subject>, ghost l: seq<Article>)
      requires Mirrors(h) && a in arts && a.parent != null && a.parent in arts && a.parent.child1 == At(l, 0)
      modifies arts`sibling, arts`child1
      ensures Mirrors(Spliced(a, a.parent, h, r, l, 0))
    {
      hide ParentsAre, SubjsAre, DatesAre, ThreadsAre, ThreadLinksAre;
      a.sibling := a.parent.child1;
      a.parent.child1 := a;
    }

    /** The sibling search: walks from the head of the list to the last article not later
        than `a` and splices `a` in behind it. */
    method InsertAfter(a: Article, first: Article, ghost sib: map<Article, Article?>, ghost l: seq<Article>, ghost i: nat)
      requires SiblingsAre(sib) && a in arts && a !in l && Chain(sib, first, l) && forall x :: x in l ==> x in arts
      requires 0 < i <= |l| && (forall j :: 0 <= j < i ==> l[j].date <= a.date) && (i < |l| ==> a.date < l[i].date)
      modifies arts`sibling
      ensures SiblingsAre(InsertLinks(sib, l, i, a))
    {
      var last := FindLast(a, first, sib, l, i);
      LinkBehind(a, last, sib, l, i);
    }

    method LinkBehind(a: Article, last: Article, ghost sib: map<Article, Article?>, ghost l: seq<Article>, ghost i: nat)
      requires SiblingsAre(sib) && a in arts && last in arts && a != last
      requires 0 < i <= |l| && l[i - 1] == last && sib[last] == At(l, i)
      modifies arts`sibling
      ensures SiblingsAre(InsertLinks(sib, l, i, a))
    {
      a.sibling := last.sibling;
      last.sibling := a;
    }

    method FindLast(a: Article, first: Article, ghost sib: map<Article, Article?>, ghost l: seq<Article>, ghost i: nat)
      returns (ap: Article)
      requires Chain(sib, first, l) && forall x :: x in l ==> x.sibling == sib[x]
      requires 0 < i <= |l| && (forall j :: 0 <= j < i ==> l[j].date <= a.date) && (i < |l| ==> a.date < l[i].date)
      ensures ap == l[i - 1]
    {
      ap := first;
      ghost var k: nat := 0;
      while ap.sibling != null && ap.sibling.date <= a.date
        invariant k < i && ap == l[k]
        decreases |l| - k
      {
        assert ap.sibling == At(l, k + 1);
        k := k + 1;
        ap := ap.sibling;
      }
      assert ap.sibling == At(l, k + 1);
    }
  
    /** Takes `child` out of the one list it is in. Its own pointers are not touched. */
    method UnlinkChild(child: Article)
      requires Valid() && child in g.s.home
      requires child.parent == null ==> child.subj != null && child.subj in HomeRing(g, child)
      modifies `g, arts`sibling, arts`child1, subs`thread
      ensures Valid() && g == AfterUnlink(old(g), child)
      ensures (Dated(g) <==> DatedBut(old(g), child)) && OrderKept(old(g), g, old(child.parent) == null)
      ensures forall t :: t in old(g).s.ring && MixedBut(old(g), child, t) ==> Mixed(g, t)
    {
      hide Dated, DatedBut, Mixed, MixedBut, OrderKept, Wf, Seat, Child1sAre, SiblingsAre, SubjsAre, DatesAre,
        ThreadsAre, ThreadLinksAre;
      UnlinkFacts(g, child);
      Cut(child, g.h, HomeRing(g, child), ListWith(g, child), IndexOf(ListWith(g, child), child));
      AfterUnlinkFields(g, child);
      UnlinkDatedIff(g, child);
      UnlinkOrder(g, child);
      g := AfterUnlink(g, child);
    }

    method Cut(child: Article, ghost h: Links, ghost r: seq<Subject>, ghost l: seq<Article>, ghost i: nat)
      requires Mirrors(h) && child in arts && Seat(h, child, r, l, i)
      requires child.parent == null ==> child.subj != null && child.subj in r
      modifies arts`sibling, arts`child1, subs`thread
      ensures Mirrors(NewLinks(h, r, child.parent, WithoutLinks(h.sibling, l, i), Without(l, i)))
    {
      if i > 0 {
        HeadKept(h, r, child.parent, WithoutLinks(h.sibling, l, i), Without(l, i));
      }
      var last := child.parent;
      if last == null {
        last := child.subj.thread;
        if last == child {
          CutTop(child, h, r, l);
        } else {
          CutAfter(child, last, h.sibling, l, i);
        }
      } else {
        if last.child1 == child {
          CutFirstChild(child, h, r, l);
        } else {
          last := last.child1;
          CutAfter(child, last, h.sibling, l, i);
        }
      }
    }

    method CutTop(child: Article, ghost h: Links, ghost r: seq<Subject>, ghost l: seq<Article>)
      requires Mirrors(h) && child.parent == null && child.subj != null && child.subj in r
      requires l != [] && child.sibling == At(l, 1) && Cycle(h.link, r) && forall t :: t in r ==> t in subs
      modifies subs`thread
      ensures Mirrors(NewLinks(h, r, child.parent, WithoutLinks(h.sibling, l, 0), Without(l, 0)))
    {
      hide ParentsAre, SubjsAre, DatesAre, Child1sAre, ThreadsAre, ThreadLinksAre, SiblingsAre;
      SetThread(child.subj, child.sibling, r, h);
    }

    method CutFirstChild(child: Article, ghost h: Links, ghost r: seq<Subject>, ghost l: seq<Article>)
      requires Mirrors(h) && child.parent != null && child.parent in arts && l != [] && child.sibling == At(l, 1)
      modifies arts`child1
      ensures Mirrors(NewLinks(h, r, child.parent, WithoutLinks(h.sibling, l, 0), Without(l, 0)))
    {
      hide ParentsAre, SubjsAre, DatesAre, ThreadsAre, ThreadLinksAre, SiblingsAre;
      child.parent.child1 := child.sibling;
    }

    /** The sibling search for the article in front of `child`. */
    method CutAfter(child: Article, first: Article?, ghost sib: map<Article, Article?>, ghost l: seq<Article>, ghost i: nat)
      requires SiblingsAre(sib) && Chain(sib, first, l) && NoDup(l) && (forall x :: x in l ==> x in arts)
      requires 0 < i < |l| && l[i] == child
      modifies arts`sibling
      ensures SiblingsAre(WithoutLinks(sib, l, i))
    {
      var last := first;
      ghost var k: nat := 0;
      while last != null && last.sibling != child
        invariant k < i && last == l[k]
        decreases |l| - k
      {
        assert last.sibling == At(l, k + 1) && l[k + 1] != child;
        k := k + 1;
        last := last.sibling;
      }
      assert last.sibling == At(l, k + 1);
      assert l[k + 1] == l[i] && k + 1 == i;
      assert child.sibling == At(l, i + 1);
      if last != null {
        last.sibling := child.sibling;
      }
    }
  
    /** One thread out of two: the rings are joined, and what headed the second is filed among
        the articles at the top of the first. */
    method MergeThreads(s1: Subject, s2: Subject)
      requires Valid() && Mergeable(g, s1, s2) && SubjectsKnown(g, s2)
      modifies `g, arts`sibling, arts`child1, subs`thread, subs`threadLink
      ensures Valid() && Refiled(old(g), s1, s2, |TopsOf(old(g), s2)|, g)
      ensures (Dated(old(g)) ==> Dated(g)) && (Mixed(old(g), s2) ==> Dated(g)) && ThreadsJoined(old(g), s1, s2, g)
    {
      hide Valid, Wf, Mergeable, SubjectsKnown, Refiled, Joined, Dated, Mixed, ThreadsJoined;
      var t2 := JoinRings(s1, s2);
      RelinkAll(s1, s2, t2, old(g));
      if Dated(old(g)) { MergeDated(old(g), s1, s2, g); }
      if Mixed(old(g), s2) { MergeMends(old(g), s1, s2, g); }
      MergeJoins(old(g), s1, s2, g);
    }

    /** Every subject of the second ring takes over the first thread's lead article, and the two
        rings become one. */
    method JoinRings(s1: Subject, s2: Subject) returns (t2: Article?)
      requires Valid() && Mergeable(g, s1, s2)
      modifies `g, subs`thread, subs`threadLink
      ensures Valid() && g == Joined(old(g), s1, s2) && t2 == old(g).h.thread[s2]
    {
      hide Wf, Cycle, Joined, Mergeable, Mirrors;
      JoinFacts(g, s1, s2);
      JoinKeepsWf(g, s1, s2);
      KnownSubject(s1);
      KnownSubject(s2);
      RingKnown(g.s.ring[s2]);
      t2 := s2.thread;
      JoinPointers(s1, s2, g.s.ring[s2], g.h);
      g := Joined(g, s1, s2);
    }

    method JoinPointers(s1: Subject, s2: Subject, ghost r2: seq<Subject>, ghost h: Links)
      requires Mirrors(h) && s1 in h.thread && s1 in h.link && s2 in h.link && s1 in subs && s2 in subs && s1 != s2
      requires s1.thread == h.thread[s1] && s2 in r2 && Cycle(h.link, r2) && forall t :: t in r2 ==> t in subs
      modifies subs`thread, subs`threadLink
      ensures Mirrors(h.(thread := Fill(h.thread, r2, h.thread[s1]), link := h.link[s2 := h.link[s1]][s1 := h.link[s2]]))
    {
      hide ParentsAre, Child1sAre, SiblingsAre, SubjsAre, DatesAre, ThreadsAre, ThreadLinksAre, Cycle;
      SetThread(s2, s1.thread, r2, h);
      SwapLinks(s1, s2, h.link);
    }

    lemma RingKnown(r: seq<Subject>)
      requires Valid() && forall t :: t in r ==> t in g.h.thread
      ensures forall t :: t in r ==> t in subs
    {
      hide Wf;
    }

    /** Exchanges the successors of one member of each ring. */
    method SwapLinks(s1: Subject, s2: Subject, ghost link: map<Subject, Subject>)
      requires ThreadLinksAre(link) && s1 in subs && s2 in subs && s1 != s2
      modifies subs`threadLink
      ensures ThreadLinksAre(link[s2 := link[s1]][s1 := link[s2]])
    {
      var sp := s2.threadLink;
      s2.threadLink := s1.threadLink;
      s1.threadLink := sp;
    }

    /** Re-files what headed the second thread, in its old order. */
    method RelinkAll(s1: Subject, s2: Subject, first: Article?, ghost g0: State)
      requires Mergeable(g0, s1, s2) && SubjectsKnown(g0, s2) && first == g0.h.thread[s2]
      requires Valid() && g == Joined(g0, s1, s2)
      modifies `g, arts`sibling, arts`child1, subs`thread
      ensures Valid() && Refiled(g0, s1, s2, |TopsOf(g0, s2)|, g)
    {
      hide Valid, Wf, Joined, SubjectsKnown, Refiled, NoDup, Chain;
      ghost var l2, k: nat := TopsOf(g0, s2), 0;
      TopsDated(g0, s1, s2);
      RefiledNone(g0, s1, s2);
      var t1 := first;
      while t1 != null
        invariant Valid() && k <= |l2| && t1 == At(l2, k) && Refiled(g0, s1, s2, k, g)
        decreases |l2| - k
      {
        RefiledNext(g0, s1, s2, k, g);
        Known(t1);
        var t2 := t1.sibling;
        RelinkOne(s1, s2, t1, g0, k);
        k := k + 1;
        t1 := t2;
      }
    }

    method RelinkOne(s1: Subject, s2: Subject, t1: Article, ghost g0: State, ghost k: nat)
      requires Mergeable(g0, s1, s2) && SubjectsKnown(g0, s2) && k < |TopsOf(g0, s2)| && t1 == TopsOf(g0, s2)[k]
      requires Valid() && Refiled(g0, s1, s2, k, g)
      modifies `g, arts`sibling, arts`child1, subs`thread
      ensures Valid() && Refiled(g0, s1, s2, k + 1, g)
    {
      hide Valid, Wf, Joined, SubjectsKnown, Refiled, NoDup, Chain, Linkable;
      RefiledNext(g0, s1, s2, k, g);
      Known(t1);
      RefiledOne(g0, s1, s2, k, g);
      LinkChild(t1, t1.subj);
    }

    // ---- Assignments to one field ----------------------------------------------------------------

    /** The maps say what the fields say. */
    lemma Known(x: Article)
      requires Valid()
      ensures Wf(g.h, g.s) && (x in arts <==> x in g.h.parent)
      ensures x in arts ==> x.parent == g.h.parent[x] && x.subj == Subj(g, x) && x.date == Date(g, x)
      ensures x in arts && x.parent != null ==> x.parent in arts
      ensures x in arts ==> x in g.h.child1 && x.child1 == g.h.child1[x] && x in g.h.sibling && x.sibling == g.h.sibling[x]
    {
      hide Wf;
      WfDomains(g);
      assert x in arts ==> ParentKnown(g.h.parent, x);
    }

    lemma KnownSubject(t: Subject)
      requires Valid()
      ensures t in subs <==> t in g.h.thread
      ensures t in subs ==> t.thread == g.h.thread[t]
    {
      hide Wf;
    }

    method AssignParent(x: Article, y: Article?)
      requires Valid() && x in arts && x !in g.s.home && (y != null ==> y in arts)
      modifies `g, arts`parent
      ensures Valid() && g == SetParent(old(g), x, y)
      ensures OrderKept(old(g), g, false)
    {
      hide Dated, OrderKept, Wf, ParentsIn, Child1sAre, SiblingsAre, SubjsAre, DatesAre, ThreadsAre, ThreadLinksAre;
      Known(x);
      if y != null { Known(y); }
      SetParentKeepsWf(g, x, y);
      WriteParent(x, y, arts, g.h.parent);
      SetKeepsOrder(g, x, y, null);
      g := SetParent(g, x, y);
    }

    static method WriteParent(x: Article, y: Article?, ghost s: set<Article>, ghost m: map<Article, Article?>)
      requires x in s && ParentsIn(s, m)
      modifies x`parent
      ensures ParentsIn(s, m[x := y]) && x.parent == y
    {
      x.parent := y;
    }

    method AssignDate(x: Article, d: int)
      requires Valid() && x in arts
      modifies `g, arts`date
      ensures Valid() && g == SetDate(old(g), x, d)
      ensures x !in old(g).s.home ==> OrderKept(old(g), g, false)
    {
      hide OrderKept, Wf, ParentsAre, Child1sAre, SiblingsAre, SubjsAre, DatesIn, ThreadsAre, ThreadLinksAre;
      Known(x);
      SetDateKeepsWf(g, x, d);
      WriteDate(x, d, arts, g.h.date);
      if x !in g.s.home { SetDateKeepsOrder(g, x, d); }
      g := SetDate(g, x, d);
    }

    static method WriteDate(x: Article, d: int, ghost s: set<Article>, ghost m: map<Article, int>)
      requires x in s && DatesIn(s, m)
      modifies x`date
      ensures DatesIn(s, m[x := d])
    {
      x.date := d;
    }

    method AssignSubj(x: Article, t: Subject?)
      requires Valid() && x in arts && (t != null ==> t in subs)
      modifies `g, arts`subj
      ensures Valid() && g == SetSubj(old(g), x, t)
      ensures OrderKept(old(g), g, false)
    {
      hide OrderKept, Wf, ParentsAre, Child1sAre, SiblingsAre, SubjsIn, DatesAre, ThreadsAre, ThreadLinksAre;
      Known(x);
      if t != null { KnownSubject(t); }
      SetSubjKeepsWf(g, x, t);
      WriteSubj(x, t, arts, g.h.subj);
      SetKeepsOrder(g, x, null, t);
      g := SetSubj(g, x, t);
    }

    static method WriteSubj(x: Article, t: Subject?, ghost s: set<Article>, ghost m: map<Article, Subject?>)
      requires x in s && SubjsIn(s, m)
      modifies x`subj
      ensures SubjsIn(s, m[x := t])
    {
      x.subj := t;
    }

    // ---- The message-id table ----------------------------------------------------------------------

    /** Every id names one of the articles, and no article has two. */
    ghost predicate TableOk()
      reads `table, `arts
    {
      TableFits(table, arts)
    }

    /** The article a message-id stands for: the one in the table, or a new fake that is put there. */
    method GetArticle(id: string) returns (ap: Article)
      requires Valid() && TableOk()
      modifies `table, `arts, `g
      ensures Valid() && TableOk() && id in table && table[id] == ap && ap in arts
      ensures OrderKept(old(g), g, false)
      ensures id in old(table) ==> arts == old(arts) && g == old(g) && table == old(table)
      ensures id !in old(table) ==>
        && fresh(ap) && ap.fake && ap.tmpMem && arts == old(arts) + {ap} && table == old(table)[id := ap]
        && Unknown(old(g), ap) && g == Added(old(g), ap)
    {
      hide Dated, Mixed, Wf, Mirrors, Unknown, Added;
      if id in table {
        ap := table[id];
      } else {
        ap := AllocateFake();
        table := table[id := ap];
      }
    }

    method AllocateFake() returns (ap: Article)
      requires Valid()
      modifies `arts, `g
      ensures Valid() && fresh(ap) && ap.fake && ap.tmpMem && arts == old(arts) + {ap}
      ensures OrderKept(old(g), g, false)
      ensures Unknown(old(g), ap) && g == Added(old(g), ap)
    {
      hide OrderKept, Wf, ParentsAre, Child1sAre, SiblingsAre, SubjsAre, DatesAre, ThreadsAre, ThreadLinksAre;
      ap := new Article();
      Register(ap);
    }

    ghost method Register(ap: Article)
      requires Valid() && ap !in arts
      requires ap.parent == null && ap.child1 == null && ap.sibling == null && ap.subj == null && ap.date == 0
      modifies `arts, `g
      ensures Valid() && arts == old(arts) + {ap} && Unknown(old(g), ap) && g == Added(old(g), ap)
      ensures OrderKept(old(g), g, false)
    {
      hide OrderKept, Wf, Unknown, ParentsIn, Child1sIn, SiblingsIn, SubjsIn, DatesIn, ThreadsAre, ThreadLinksAre;
      Known(ap);
      NotYetKnown(g, ap);
      AddedWf(g, ap);
      OneMore(arts, ap, g.h);
      AddedKeepsOrder(g, ap);
      arts := arts + {ap};
      g := Added(g, ap);
    }
  
    /** Out of its list; then under a new parent, or at the top of its subject's thread. */
    method TakeOut(x: Article)
      requires Valid() && x in g.s.home && (x.parent == null ==> x.subj != null && x.subj in HomeRing(g, x))
      modifies `g, arts`sibling, arts`child1, subs`thread
      ensures Valid() && g == AfterUnlink(old(g), x) && OrderKept(old(g), g, old(x.parent) == null)
    {
      hide Valid, Dated, DatedBut, MixedBut, OrderKept, Wf;
      UnlinkChild(x);
    }

    method HangAgain(x: Article, y: Article?, ghost subject: Subject)
      requires Valid() && x in arts && x !in g.s.home && (y != null ==> y in arts) && subject in g.h.thread
      requires y == null ==> Subj(g, x) == subject
      modifies `g, arts`parent, arts`sibling, arts`child1, subs`thread
      ensures Valid() && x in old(g).h.parent && Wf(SetParent(old(g), x, y).h, old(g).s)
      ensures Linkable(SetParent(old(g), x, y).h, old(g).s, x, subject)
      ensures g == AfterLink(SetParent(old(g), x, y), x, subject) && OrderKept(old(g), g, false)
    {
      hide Valid, Dated, Mixed, Wf, AfterLink;
      Known(x);
      if y != null { Known(y); }
      AssignParent(x, y);
      Known(x);
      assert ParentKnown(g.h.parent, x);
      LinkChild(x, subject);
    }

    // ---- thread_article: reading the references ------------------------------------------------------

    /** Puts the end of the chain under `ap`, taking the article out of its old place first
        when it is being threaded again. */
    method AttachTo(a: Article, prev: Article, ap: Article, rethreading: bool, ghost base: Subject, ghost chain: seq<Article>)
      requires Valid() && Standing(g, a, base, rethreading, chain) && ap in arts && ap in g.h.parent
      requires chain != [] && prev == Last(chain) && prev in arts
      modifies `g, arts`parent, arts`sibling, arts`child1, subs`thread
      ensures Valid() && g == AttachedTo(old(g), a, base, rethreading, chain, ap)
      ensures OrderKept(old(g), g, rethreading)
    {
      hide Dated, Mixed, Valid, Wf, Standing, Attached, CutOff, AfterUnlink, AfterLink;
      ghost var g0 := g;
      Known(prev);
      ReadyToAttach(g, a, base, rethreading, chain);
      ChainedReady(Base0(g, a, rethreading, chain), a, base, chain);
      AttachReady(g, a, base, rethreading, chain);
      if rethreading && prev.subj != null {
        TakeOut(prev);
      }
      HangAgain(prev, ap, base);
      AttachedIs(g0, a, base, rethreading, chain, ap);
    }
  
    method LookUp(a: Article, id: string, rethreading: bool, ghost base: Subject,
                  ghost g0: State, ghost t0: Table, ghost w: Walk, ghost chain: seq<Article>) returns (x: Article)
      requires Valid() && TableOk() && WalkInv(g0, t0, a, base, rethreading, g, table, w, chain, {})
      modifies `table, `arts, `g
      ensures Valid() && TableOk() && fresh(arts - old(arts)) && old(arts) <= arts && id in table && table[id] == x && x in arts
      ensures OrderKept(old(g), g, false) && Grown(old(arts), old(table), arts, table)
      ensures WalkInv(g0, t0, a, base, rethreading, g, table, w, chain, {id})
      ensures forall q :: q in old(arts) ==> Date(g, q) == Date(old(g), q)
    {
      hide OrderKept, Wf, Mirrors, WalkInv, Unknown, TableFits;
      ghost var g1, t1 := g, table;
      x := GetArticle(id);
      if id in t1 {
        FoundPending(g0, t0, a, base, rethreading, g, table, w, chain, id);
      } else {
        StepAdded(g0, t0, a, base, rethreading, g1, t1, w, chain, id, x);
        assert table == t1[id := x];
      }
    }

    /** One message-id of the References line: looks the article up and, unless the reference
        is a duplicate or the article itself, hangs the chain under it. */
    method TakeReference(a: Article, prev0: Article, id: string, rethreading: bool, ghost base: Subject,
                         ghost g0: State, ghost t0: Table, ghost w: Walk, ghost chain: seq<Article>)
      returns (ap: Article?, prev: Article, hit: bool, ghost chain': seq<Article>, ghost gs: State)
      requires Valid() && TableOk() && WalkInv(g0, t0, a, base, rethreading, g, table, w, chain, {})
      requires a in arts && chain != [] && prev0 == Last(chain) && prev0 in arts
      requires Date(g, a) != 0 || !Extended(g0, t0, a, w, MessageId(id)).repeated
      modifies `table, `arts, `g, arts`parent, arts`sibling, arts`child1, arts`date, subs`thread
      ensures Valid() && TableOk() && fresh(arts - old(arts)) && old(arts) <= arts
      ensures OrderKept(old(g), g, rethreading) && Grown(old(arts), old(table), arts, table)
      ensures
        Taken(a, base, rethreading, g0, t0, Extended(g0, t0, a, w, MessageId(id)), hit, ap, prev, chain', gs, Date(old(g), a))
    {
      hide Dated, Mixed, Wf, WalkInv, Hit, KindOf, Standing, Base0, ParentsIn, ThreadsAre, ThreadLinksAre, Child1sAre,
        SiblingsAre,
        TableFits, AttachedTo, Extended;
      gs, chain', prev, hit := g, chain, prev0, false;
      var x := LookUp(a, id, rethreading, base, g0, t0, w, chain);
      InvParts(g0, t0, a, base, rethreading, g, table, w, chain, {id});
      Verdict(g0, t0, a, base, rethreading, g, table, w, chain, id);
      if (x.date != 0 && x.subj == null) || x == a {
        StepSkipped(g0, t0, a, base, rethreading, g, table, w, chain, id, Extended(g0, t0, a, w, MessageId(id)));
        ap := if prev == a then null else prev;
      } else {
        prev, hit, chain', gs := HangUnder(a, prev, x, id, rethreading, base, g0, t0, w, chain);
        ap := x;
      }
    }

    /** How things stand after one reference. */
    ghost predicate Taken(a: Article, base: Subject, rethreading: bool, g0: State, t0: Table, w': Walk, hit: bool,
                          ap: Article?, prev: Article, chain': seq<Article>, gs: State, date: int)
      reads this, ap
    {
      && prev in arts
      && (if hit then
            Hit(g0, t0, a, base, rethreading, g, table, w', ap, chain', gs) && w'.stopped && ap in arts && ap.subj != null
          else
            && WalkInv(g0, t0, a, base, rethreading, g, table, w', chain', {})
            && chain' != [] && prev == Last(chain') && ap == Top(chain') && Date(g, a) == date)
    }

    /** The reference counts: its article `x` becomes the parent of the end of the chain. */
    method HangUnder(a: Article, prev0: Article, x: Article, id: string, rethreading: bool, ghost base: Subject,
                     ghost g0: State, ghost t0: Table, ghost w: Walk, ghost chain: seq<Article>)
      returns (prev: Article, hit: bool, ghost chain': seq<Article>, ghost gs: State)
      requires Valid() && TableOk() && WalkInv(g0, t0, a, base, rethreading, g, table, w, chain, {id})
      requires a in arts && chain != [] && prev0 == Last(chain) && prev0 in arts && id in table && table[id] == x && x in arts
      requires KindOf(g0, t0, a, id) == if Subj(g, x) != null then Threaded else Fresh
      requires Subj(g, x) != null || id !in w.path
      modifies `g, arts`parent, arts`sibling, arts`child1, arts`date, subs`thread
      ensures Valid() && TableOk()
      ensures OrderKept(old(g), g, rethreading)
      ensures
        var w' := w.(path := w.path + [id], stopped := KindOf(g0, t0, a, id) == Threaded || w.stopped);
        Taken(a, base, rethreading, g0, t0, w', hit, x, prev, chain', gs, Date(old(g), a))
    {
      hide Dated, Mixed, Valid, Wf, WalkInv, Hit, KindOf, Standing, Base0, TableFits, AttachedTo;
      gs, chain', prev, hit := g, chain, prev0, false;
      ghost var g1 := g;
      InvParts(g0, t0, a, base, rethreading, g, table, w, chain, {id});
      if Subj(g, x) != null {
        HitAt(g0, t0, a, base, rethreading, g1, table, w, chain, id);
      } else {
        FreshAt(g0, t0, a, base, rethreading, g1, table, w, chain, id);
      }
      Known(x);
      Known(a);
      AttachTo(a, prev, x, rethreading, base, chain);
      Known(x);
      Known(a);
      if x.subj != null {
        gs := Base0(g1, a, rethreading, chain);
        hit := true;
      } else {
        AssignDate(x, a.date);
        assert Date(g, a) == Date(old(g), a);
        prev := x;
        chain' := chain + [x];
      }
    }

    /** The walk over the references, nearest first. It ends at the first that names an article
        of a thread, at text that is no message-id, or when none is left. */
    method ReadReferences(a: Article, refs: seq<Reference>, rethreading: bool, ghost base: Subject)
      returns (ap: Article?, hit: bool, ghost chain: seq<Article>, ghost gs: State)
      requires Valid() && TableOk() && a in arts && Standing(g, a, base, rethreading, [a])
      requires Date(g, a) != 0 || !WalkOf(g, table, a, refs).repeated
      modifies `table, `arts, `g, arts`parent, arts`sibling, arts`child1, arts`date, subs`thread
      ensures Valid() && TableOk() && fresh(arts - old(arts)) && old(arts) <= arts
      ensures OrderKept(old(g), g, rethreading) && Grown(old(arts), old(table), arts, table)
      ensures
        var w := WalkOf(old(g), old(table), a, refs);
        if hit then Hit(old(g), old(table), a, base, rethreading, g, table, w, ap, chain, gs) && ap in arts && ap.subj != null
        else Missed(old(g), old(table), a, base, rethreading, g, table, w, ap, chain)
    {
      hide Dated, Mixed, Valid, WalkInv, Hit, Missed, Standing, TableFits, Extended, WalkOf;
      ghost var g0, t0, d := g, table, Date(g, a);
      gs, chain, hit, ap := g, [a], false, null;
      var prev := a;
      ParentKeys();
      WalkStarts(g, table, a, base, rethreading, refs);
      var i := 0;
      while i < |refs|
        invariant 0 <= i <= |refs| && Valid() && TableOk() && fresh(arts - old(arts)) && old(arts) <= arts
        invariant WalkInv(g0, t0, a, base, rethreading, g, table, WalkOf(g0, t0, a, refs[..i]), chain, {})
        invariant chain != [] && prev == Last(chain) && prev in arts && ap == Top(chain) && Date(g, a) == d
        invariant OrderKept(g0, g, rethreading) && Grown(old(arts), t0, arts, table)
      {
        ghost var w := WalkOf(g0, t0, a, refs[..i]);
        WalkSnoc(g0, t0, a, refs, i);
        if refs[i].Garbage? {
          StoppedByGarbage(g0, t0, a, base, rethreading, g, table, refs, i, ap, chain);
          return;
        }
        if d == 0 {
          NoRepeatYet(g0, t0, a, refs, i);
        }
        ap, prev, hit, chain, gs := TakeReference(a, prev, refs[i].id, rethreading, base, g0, t0, w, chain);
        if hit {
          WalkStops(g0, t0, a, refs, i + 1);
          return;
        }
        i := i + 1;
      }
      assert refs[..i] == refs;
      ReadToTheEnd(g0, t0, a, base, rethreading, g, table, WalkOf(g0, t0, a, refs), ap, chain);
    }

    // ---- thread_article: leaving the place of a fake ---------------------------------------------------

    /** The fake's thread and the article's own become one. */
    method MergeFake(a: Article, fake: Subject)
      requires Valid() && a in arts && Replaced(g, a, fake)
      modifies `g, arts`sibling, arts`child1, subs`thread, subs`threadLink
      ensures Valid() && Tidy(g) && a in g.s.home && Subj(old(g), a) != null
      ensures Dated(old(g)) ==> Dated(g)
      ensures DatedBut(old(g), a) ==> (DatedBut(g, a) <==> !OutOfOrder(old(g), a, fake))
      ensures DatedBut(old(g), a) && OutOfOrder(old(g), a, fake) ==> MixedBut(g, a, Subj(old(g), a))
      ensures ThreadsJoined(old(g), fake, Subj(old(g), a), g)
      ensures g.h.parent == old(g).h.parent && g.h.subj == old(g).h.subj && g.h.date == old(g).h.date
      ensures g.s.kids == old(g).s.kids && (old(fake.thread == Subj(g, a).thread) ==> g == old(g))
    {
      hide Dated, DatedBut, Mixed, MixedBut, ThreadsJoined, Clash, Wf, Grounded, Placed, Loose, Mergeable, SubjectsKnown,
        Refiled, ParentsIn, Child1sAre, SiblingsAre, DatesAre,
        ThreadsAre, ThreadLinksAre;
      ghost var g0 := g;
      ReplacedFollows(g, a, fake);
      KnownSubject(fake);
      KnownSubject(a.subj);
      if fake.thread != a.subj.thread {
        ReplacedMergeable(g, a, fake);
        MergeThreads(fake, a.subj);
        ReplacedMerged(g0, a, fake, g);
        ParentsAfterMerge(g0, fake, Subj(g0, a), g);
        if DatedBut(g0, a) { MergeOrder(g0, a, fake, g); }
        if DatedBut(g0, a) && OutOfOrder(g0, a, fake) { MergeMixes(g0, a, fake, g); }
        HomesAfterMerge(g0, fake, Subj(g0, a), g, a);
      } else {
        ReplacedSame(g, a, fake);
        NothingJoined(g, fake, a.subj, g);
      }
    }

    /** What the source's test for an only child reads. */
    lemma OnlyChildTest(line: seq<Article>, a: Article, ap: Article)
      requires Valid() && Tidy(g) && a in g.s.home && FakeLine(g, a, line, ap)
      ensures ap in arts && ap.child1 != null && ap.parent == g.h.parent[ap] && ap in g.h.parent
      ensures ap.child1.sibling == null <==> |Kids(g, ap)| == 1
    {
      hide Wf, Grounded, Coherent;
      LineStep(g, a, line, ap);
      Known(ap.child1);
    }

    ghost function Fakes(): set<Article>
      reads `arts, arts`fake
    {
      FakesIn(arts)
    }

    /** Climbs over the fakes that have no other child. */
    method FindStopper(a: Article) returns (stopper: Article?, ghost line: seq<Article>)
      requires Valid() && Tidy(g) && a in g.s.home
      ensures WholeLine(g, Fakes(), a, line, stopper)
    {
      hide Wf, Grounded, Coherent, Kids, Child1sAre, SiblingsAre, SubjsAre, DatesAre, ThreadsAre, ThreadLinksAre;
      HomeFacts(g, a);
      GroundedEnds(g.h.parent, a);
      ghost var n: nat :| Up(g.h.parent, a, n) == null;
      var ap := a.parent;
      line := [];
      FakeLineStarts(g, a);
      if ap != null { OnlyChildTest(line, a, ap); }
      while ap != null && ap.fake && ap.child1.sibling == null
        invariant FakeLine(g, a, line, ap) && (forall x :: x in line ==> x in arts && x.fake)
        invariant ap != null ==> ap in arts && ap.child1 != null && (ap.child1.sibling == null <==> |Kids(g, ap)| == 1)
        decreases n - |line|
      {
        OnlyChildTest(line, a, ap);
        LineStep(g, a, line, ap);
        LineLonger(g, a, line, ap);
        if n <= |line| + 1 {
          UpStaysNull(g.h.parent, a, n, |line| + 1);
        }
        line := line + [ap];
        ap := ap.parent;
        if ap != null { OnlyChildTest(line, a, ap); }
      }
      stopper := ap;
    }

    /** Frees one fake: out of its list, without date, subject and parent. */
    method FreeFake(ap: Article) returns (above: Article?)
      requires Valid() && ap in arts && ap in g.s.home && Subj(g, ap) != null && Subj(g, ap) in HomeRing(g, ap)
      modifies `g, arts`parent, arts`sibling, arts`child1, arts`subj, arts`date, subs`thread
      ensures Valid() && g == FreedHere(old(g), ap) && above == old(g.h.parent[ap])
      ensures OrderKept(old(g), g, true)
    {
      hide Dated, DatedBut, Mixed, MixedBut, Valid, Wf, AfterUnlink;
      Known(ap);
      UnlinkRemoves(g, ap);
      UnlinkChild(ap);
      Known(ap);
      above := ap.parent;
      AssignDate(ap, 0);
      AssignSubj(ap, null);
      AssignParent(ap, null);
    }

    /** Frees the fakes of the line one after the other. */
    method FreeFakes(a: Article, stopper: Article?, ghost line: seq<Article>, ghost g0: State, ghost base: Subject)
      requires Valid() && a in arts && Freeing(g0, a, base, line, stopper, g, 0)
      requires a.parent == if line == [] then stopper else line[0]
      modifies `g, arts`parent, arts`sibling, arts`child1, arts`subj, arts`date, subs`thread
      ensures Valid() && Freeing(g0, a, base, line, stopper, g, |line|)
      ensures OrderKept(old(g), g, true) && (line == [] ==> g == old(g))
    {
      hide Dated, Mixed, Valid, Wf, Freeing, FreedHere;
      var ap := a.parent;
      ghost var k: nat := 0;
      while ap != stopper
        invariant k <= |line| && ap == (if k < |line| then line[k] else stopper) && OrderKept(old(g), g, true)
        invariant (k == 0 ==> g == old(g)) && Valid() && Freeing(g0, a, base, line, stopper, g, k)
        decreases |line| - k
      {
        FreeReady(g0, a, base, line, stopper, g, k);
        FreeStep(g0, a, base, line, stopper, g, k);
        Known(ap);
        ap := FreeFake(ap);
        k := k + 1;
      }
      if k < |line| {
        LineEnds(g0, a, base, line, stopper, g, k);
      }
    }

    method NeatenUp(a: Article)
      requires Valid() && a in arts && a !in g.s.home
      modifies `g, arts`parent, arts`sibling
      ensures Valid() && g == ClearSibling(SetParent(old(g), a, null), a)
      ensures OrderKept(old(g), g, false)
    {
      hide Dated, Mixed, Valid, Wf;
      AssignParent(a, null);
      UnsetSibling(a);
    }

    method UnsetSibling(a: Article)
      requires Valid() && a in arts && a !in g.s.home
      modifies `g, arts`sibling
      ensures Valid() && g == ClearSibling(old(g), a)
      ensures OrderKept(old(g), g, false)
    {
      hide Dated, OrderKept, Wf, ParentsAre, Child1sAre, SiblingsIn, SubjsAre, DatesAre, ThreadsAre, ThreadLinksAre;
      Known(a);
      ClearSiblingKeepsWf(g, a);
      WriteSibling(a, null, arts, g.h.sibling);
      SetKeepsOrder(g, a, null, null);
      g := ClearSibling(g, a);
    }

    method StepOut(a: Article, ghost base: Subject)
      requires Valid() && a in arts && a in g.s.home && Subj(g, a) == base && base in HomeRing(g, a)
      modifies `g, arts`sibling, arts`child1, subs`thread
      ensures Valid() && g == AfterUnlink(old(g), a) && g.s.ring == old(g).s.ring && base in g.s.ring
      ensures (DatedBut(old(g), a) ==> Dated(g)) && (MixedBut(old(g), a, base) ==> Mixed(g, base))
    {
      hide Valid, Wf, Dated, DatedBut, Mixed, MixedBut, AfterUnlink;
      Known(a);
      SubjectKnown(g, a);
      RingFacts(g, base);
      UnlinkChild(a);
    }

    /** Takes an article out of its thread, and with it the fakes that only it kept alive. */
    method LeaveThread(a: Article, ghost base: Subject) returns (ghost line: seq<Article>, ghost stopper: Article?)
      requires Valid() && a in arts && Tidy(g) && a in g.s.home && Subj(g, a) == base
      modifies `g, arts`parent, arts`sibling, arts`child1, arts`subj, arts`date, subs`thread
      ensures Valid() && LeftFake(old(g), a, base, line, stopper, g)
      ensures DatedBut(old(g), a) ==> Dated(g)
      ensures g.s.ring == old(g).s.ring
      ensures Par(old(g), a) == null && MixedBut(old(g), a, base) ==> Mixed(g, base)
      ensures WholeLine(old(g), Fakes(), a, line, stopper)
    {
      hide Dated, DatedBut, Mixed, MixedBut, Valid, Wf, Tidy, Detached, Freeing, FakeLine, WholeLine, AfterUnlink;
      ghost var g1 := g;
      var stop;
      stop, line := FindStopper(a);
      stopper := stop;
      LeavingFacts(g1, Fakes(), a, base, line, stopper);
      StepOut(a, base);
      FreeLine(a, stop, line, g1, base);
    }

    /** The article is out of its list: the fakes of the line go, and its pointers are cleared. */
    method FreeLine(a: Article, stopper: Article?, ghost line: seq<Article>, ghost g0: State, ghost base: Subject)
      requires Valid() && a in arts && Freeing(g0, a, base, line, stopper, g, 0) && FakeLine(g0, a, line, stopper)
      requires g.h.parent == g0.h.parent && a in g0.h.parent
      modifies `g, arts`parent, arts`sibling, arts`child1, arts`subj, arts`date, subs`thread
      ensures Valid() && Detached(g0, a, base, line, stopper, g)
      ensures OrderKept(old(g), g, line != [])
    {
      hide Dated, Mixed, Valid, Wf, Detached, Freeing, FakeLine;
      Known(a);
      LineFirst(g0, a, line, stopper, g);
      FreeFakes(a, stopper, line, g0, base);
      FreeingEnds(g0, a, base, line, stopper, g);
      NeatenUp(a);
    }

    /** An article that replaced a fake leaves the fake's place. */
    method Detach(a: Article, fake: Subject) returns (ghost line: seq<Article>, ghost stopper: Article?)
      requires Valid() && a in arts && Replaced(g, a, fake)
      modifies `g, arts`parent, arts`sibling, arts`child1, arts`subj, arts`date, subs`thread, subs`threadLink
      ensures Valid() && LeftFake(old(g), a, Subj(old(g), a), line, stopper, g)
      ensures Dated(old(g)) ==> Dated(g)
      ensures DatedBut(old(g), a) ==> if OutOfOrder(old(g), a, fake) then Mixed(g, Subj(old(g), a)) else Dated(g)
      ensures ThreadsJoined(old(g), fake, Subj(old(g), a), g)
      ensures WholeLine(old(g), Fakes(), a, line, stopper)
    {
      hide Dated, DatedBut, Mixed, MixedBut, ThreadsJoined, Clash, Valid, Wf, Tidy, Replaced, LeftFake, WholeLine, OnlyChild;
      ghost var g0, base := g, Subj(g, a);
      Known(a);
      MergeFake(a, fake);
      ghost var g1 := g;
      if Dated(g1) { DatedIsDatedBut(g1, a); }
      line, stopper := LeaveThread(a, base);
      LeftSame(g0, g1, a, base, line, stopper, g);
      JoinedFrom(g0, g0, fake, base, g1, g);
      WholeSame(g0, g1, Fakes(), a, line, stopper);
    }

    // ---- thread_article: joining the threads and settling the chain --------------------------------------

    /** The article spans the gap between two threads, if they are two. */
    method JoinThreads(a: Article, ap: Article, ghost gs: State, ghost base: Subject, ghost chain: seq<Article>)
      requires Valid() && a in arts && ap in arts && Hanging(g, gs, a, base, chain, ap)
      modifies `g, arts`sibling, arts`child1, subs`thread, subs`threadLink
      ensures Valid() && Spined(g, a, base, chain + [ap], 1)
      ensures Subj(old(g), ap) != null && OrderAfter(old(g), base, Subj(old(g), ap), false, g) && base in old(g).s.ring
      ensures g.h.parent == old(g).h.parent && g.h.subj == old(g).h.subj && g.h.date == old(g).h.date
    {
      hide Dated, Mixed, ThreadsJoined, Valid, Wf, Hanging, Spined, Mergeable, SubjectsKnown, Refiled;
      ghost var g1 := g;
      MergeNeeded(g, gs, a, base, chain, ap);
      Known(a);
      Known(ap);
      KnownSubject(base);
      RingFacts(g, base);
      KnownSubject(ap.subj);
      if a.subj.thread != ap.subj.thread {
        HungMergeable(g, gs, a, base, chain, ap);
        MergeThreads(ap.subj, a.subj);
        Known(a);
        HungMerged(g1, gs, a, base, chain, ap, g);
      } else {
        HungSame(g, gs, a, base, chain, ap);
        NothingJoined(g, ap.subj, base, g);
      }
    }

    /** Nobody known was met: the last fake becomes the head of the thread. */
    method HeadThread(a: Article, ap: Article, ghost base: Subject, ghost chain: seq<Article>)
      requires Valid() && a in arts && ap in arts && Chained(g, a, base, chain) && |chain| > 1 && ap == Last(chain)
      modifies `g, arts`sibling, arts`child1, arts`subj, subs`thread
      ensures Valid() && Spined(g, a, base, chain, 1)
      ensures OrderKept(old(g), g, false)
      ensures g.h.parent == old(g).h.parent && g.h.date == old(g).h.date && g.h.subj == old(g).h.subj[ap := base]
    {
      hide Dated, Mixed, Valid, Wf, Chained, Spined, Headed, Linkable;
      ghost var g0 := g;
      HeadedSpine(g, a, base, chain);
      ChainedBase(g, a, base, chain);
      HeadLinkable(g, ap, base);
      HeadedIs(g, ap, base);
      Known(a);
      KnownSubject(base);
      AssignSubj(ap, a.subj);
      Known(ap);
      LinkChild(ap, base);
    }

    /** Hands the article's subject up its new ancestors as far as they have none; returns the
        first that has one. */
    method GiveSubjects(a: Article, ghost base: Subject, ghost spine: seq<Article>) returns (ap: Article?)
      requires Valid() && a in arts && Spined(g, a, base, spine, 1)
      modifies `g, arts`subj
      ensures Valid() && ap in arts && spine != [] && ap == Last(spine) && Spined(g, a, base, spine, |spine| - 1)
      ensures OrderKept(old(g), g, false)
      ensures SubjectsGiven(old(g), g, spine, base)
    {
      hide Dated, Mixed, Valid, Wf, Spined, SubjectsGiven;
      SpineAt(g, a, base, spine, 1);
      Known(a);
      ap := a.parent;
      Known(ap);
      KnownSubject(base);
      NoneGiven(g, base);
      OneGiven(g, g, spine, base, 0);
      ghost var i: nat := 1;
      while ap != null && ap.subj == null
        invariant 1 <= i < |spine| && ap == spine[i] && ap in arts && Valid() && Spined(g, a, base, spine, i)
        invariant ap.subj == Subj(g, ap) && a.subj == base && base in subs
        invariant SubjectsGiven(old(g), g, spine[..i], base) && OrderKept(old(g), g, false)
        decreases |spine| - i
      {
        SpineAt(g, a, base, spine, i);
        Known(ap);
        SubjectPassedOn(g, a, base, spine, i);
        OneGiven(old(g), g, spine, base, i);
        AssignSubj(ap, a.subj);
        i := i + 1;
        ap := ap.parent;
        SpineAt(g, a, base, spine, i);
        Known(a);
        Known(ap);
      }
      SpineAt(g, a, base, spine, i);
      OneGiven(old(g), g, spine, base, i);
      assert spine[..i + 1] == spine;
    }

    /** Climbs until it runs off the top or meets a child of the article. */
    method Climb(a: Article, start: Article, ghost p: ParentMap, ghost chain: seq<Article>)
      returns (c: Article?, ghost m: nat)
      requires Valid() && start in arts && Climbable(p, chain, a, start, g.h.parent)
      ensures Climbed(p, chain, a, start, m, c)
    {
      hide Valid, Wf, Climbable, Climbed, Grounded, Up, OffChain;
      ClimbStarts(p, chain, a, start, g.h.parent);
      ghost var n: nat :| Up(p, start, n) == null;
      c := start;
      m := 0;
      while c != null && c.parent != a
        invariant OffChain(p, chain, start, m) && Up(p, start, m) == c && (c != null ==> c in arts)
        decreases n - m
      {
        Known(c);
        ClimbReads(p, chain, a, start, g.h.parent, m, c);
        ClimbOn(p, chain, a, start, g.h.parent, m, c);
        if n <= m {
          UpStaysNull(p, start, n, m);
        }
        c := c.parent;
        m := m + 1;
      }
      if c == null {
        ClimbEnds(p, chain, a, start, m);
      } else {
        Known(c);
        ClimbReads(p, chain, a, start, g.h.parent, m, c);
      }
    }

    /** A child that turned out to be an ancestor loses its parent and goes to the top of its
        own thread, with everything below it. */
    method CutBranch(c: Article)
      requires Valid() && c in arts && c in g.s.home && Subj(g, c) != null && Subj(g, c) in g.h.thread && c.parent != null
      modifies `g, arts`parent, arts`sibling, arts`child1, subs`thread
      ensures Valid() && g == Rehung(old(g), c)
      ensures OrderKept(old(g), g, false)
    {
      hide Dated, Mixed, Valid, Wf, AfterUnlink, AfterLink, Linkable;
      Known(c);
      RehangLinkable(g, c);
      UnlinkRemoves(g, c);
      TakeOut(c);
      HangAgain(c, null, c.subj);
    }

    /** Gives the fakes of the spine their subject, then makes sure the article was not linked
        circularly to one of its children. */
    method SettleSpine(a: Article, ghost base: Subject, ghost spine: seq<Article>, ghost p: ParentMap,
                       ghost chain: seq<Article>)
      returns (ghost cut: Article?, ghost m: nat)
      requires Valid() && a in arts && Spined(g, a, base, spine, 1) && spine != []
      requires Climbable(p, chain, a, Last(spine), g.h.parent)
      modifies `g, arts`parent, arts`sibling, arts`child1, arts`subj, subs`thread
      ensures Valid() && Tidy(g) && a in g.s.home && Climbed(p, chain, a, Last(spine), m, cut)
      ensures OrderKept(old(g), g, false)
      ensures Settled(old(g), g, spine, base, cut)
    {
      hide Dated, Mixed, Valid, Wf, Spined, SubjectsGiven, Climbable, Climbed, Tidy, Rehung, Settled;
      ghost var g0 := g;
      var ap := GiveSubjects(a, base, spine);
      GivenParents(g0, g, spine, base);
      ghost var gd := g;
      ap, m := Climb(a, ap, p, chain);
      cut := ap;
      SettledNow(g0, gd, g, a, base, spine, p, chain, m, cut);
      if ap != null {
        Known(ap);
        CutBranch(ap);
        SettledNow(g0, gd, g, a, base, spine, p, chain, m, cut);
      }
    }

    /** How an article stands when it is about to be threaded: in the place of a fake of
        subject `fake`, still in its thread from an earlier time, or in no thread yet. */
    ghost predicate Ready(a: Article, fake: Subject?)
      reads `g, a
    {
      if fake != null then Replaced(g, a, fake) && !a.threaded
      else Subj(g, a) != null && Standing(g, a, Subj(g, a), a.threaded, [a])
    }

    /** The walk ended under `ap`, an article of a thread. */
    method SettleUnder(a: Article, ap: Article, ghost base: Subject, ghost chain: seq<Article>, ghost gs: State)
      returns (ghost cut: Article?, ghost m: nat, ghost g1: State)
      requires Valid() && a in arts && ap in arts && Hanging(g, gs, a, base, chain, ap)
      requires Climbable(gs.h.parent, chain, a, ap, g.h.parent)
      modifies `g, arts`parent, arts`sibling, arts`child1, arts`subj, subs`thread, subs`threadLink
      ensures Valid() && Tidy(g) && a in g.s.home
      ensures Subj(old(g), ap) != null && OrderAfter(old(g), base, Subj(old(g), ap), false, g)
      ensures g1.h.parent == old(g).h.parent && g1.h.subj == old(g).h.subj && g1.h.date == old(g).h.date
      ensures Settled(g1, g, chain + [ap], base, cut) && Climbed(gs.h.parent, chain, a, ap, m, cut)
    {
      hide OrderAfter, OrderKept, Valid, Wf, Hanging, Climbable, Spined, Tidy, Settled, Climbed;
      ghost var g0 := g;
      JoinThreads(a, ap, gs, base, chain);
      g1 := g;
      assert Last(chain + [ap]) == ap;
      cut, m := SettleSpine(a, base, chain + [ap], gs.h.parent, chain);
      OrderSettled(g0, g1, base, Subj(g0, ap), g);
    }

    /** The walk met only unknown articles; `ap` is the last of them. */
    method SettleHead(a: Article, ap: Article, ghost base: Subject, ghost chain: seq<Article>)
      returns (ghost cut: Article?, ghost m: nat, ghost g1: State)
      requires Valid() && a in arts && ap in arts && Chained(g, a, base, chain) && |chain| > 1 && ap == Last(chain)
      modifies `g, arts`parent, arts`sibling, arts`child1, arts`subj, subs`thread
      ensures Valid() && Tidy(g) && a in g.s.home
      ensures OrderKept(old(g), g, false)
      ensures g1.h.parent == old(g).h.parent && g1.h.subj == old(g).h.subj[ap := base] && g1.h.date == old(g).h.date
      ensures Settled(g1, g, chain, base, cut) && Climbed(old(g).h.parent, [], a, ap, m, cut)
    {
      hide Dated, Mixed, Valid, Wf, Chained, Climbable, Spined, Tidy, Settled, Climbed;
      HeadClimbable(g, a, base, chain);
      HeadThread(a, ap, base, chain);
      g1 := g;
      cut, m := SettleSpine(a, base, chain, g.h.parent, []);
    }

    /** No reference counts: a new thread, unless the article is in one already. */
    method SettleAlone(a: Article, rethreading: bool, ghost base: Subject)
      requires Valid() && a in arts && Standing(g, a, base, rethreading, [a])
      modifies `g, arts`sibling, arts`child1, subs`thread
      ensures Valid() && Tidy(g) && a in g.s.home
      ensures OrderKept(old(g), g, false)
      ensures g.h.parent == old(g).h.parent && g.h.subj == old(g).h.subj && g.h.date == old(g).h.date
    {
      hide Dated, Mixed, Valid, Wf, Standing, Chained, Tidy, AfterLink, Linkable;
      StandingAlone(g, a, base, rethreading);
      if !rethreading {
        LinkedAlone(g, a, base);
        Known(a);
        LinkChild(a, base);
      }
    }

    /** The walk is over: with a hit the article joins the thread of the article hit, otherwise it
        heads its own together with the fakes made for its references. */
    method Settle(a: Article, ap: Article?, hit: bool, rethreading: bool, ghost refs: seq<Reference>, ghost base: Subject,
                  ghost start: State, ghost t0: Table, ghost chain: seq<Article>, ghost gs: State)
      returns (ghost spine: seq<Article>, ghost cut: Article?)
      requires Valid() && a in arts && Standing(start, a, base, rethreading, [a])
      requires
        var w := WalkOf(start, t0, a, refs);
        if hit then Hit(start, t0, a, base, rethreading, g, table, w, ap, chain, gs) && ap in arts && ap.subj != null
        else Missed(start, t0, a, base, rethreading, g, table, w, ap, chain)
      modifies `g
      modifies arts`parent, arts`sibling, arts`child1, arts`subj, subs`thread, subs`threadLink
      ensures Valid() && Tidy(g) && a in g.s.home
      ensures Outcome(start, t0, a, base, refs, g, table, spine, cut)
      ensures hit ==> ap != null && Subj(old(g), ap) != null && OrderAfter(old(g), base, Subj(old(g), ap), false, g)
      ensures !hit ==> OrderKept(old(g), g, false)
    {
      hide OrderAfter, OrderKept, Valid, Wf, Standing, Hanging, Climbable, Chained, Tidy, Settled, Climbed, Outcome,
        WalkOf, Hit, Missed;
      ghost var gh, g1, m: nat, w := g, g, 0, WalkOf(start, t0, a, refs);
      if hit {
        HitEnds(start, t0, a, base, rethreading, g, table, w, ap, chain, gs);
      } else {
        MissedEnds(start, t0, a, base, rethreading, g, table, w, ap, chain);
      }
      cut := null;
      if ap == null {
        SettleAlone(a, rethreading, base);
        spine := [a];
        AloneOutcome(start, t0, a, base, rethreading, refs, gh, table, ap, chain, g);
      } else {
        Known(ap);
        if ap.subj != null {
          spine := chain + [ap];
          cut, m, g1 := SettleUnder(a, ap, base, chain, gs);
          HitOutcome(start, t0, a, base, rethreading, refs, gh, table, ap, chain, gs, g1, g, m, cut);
        } else {
          spine := chain;
          cut, m, g1 := SettleHead(a, ap, base, chain);
          HeadOutcome(start, t0, a, base, rethreading, refs, gh, table, ap, chain, g1, g, m, cut);
        }
      }
    }

    /** Follows the references of an article that is out of its old place, or in it still when
        it is being threaded again. */
    method FollowReferences(a: Article, refs: seq<Reference>, rethreading: bool, ghost base: Subject)
      returns (ghost spine: seq<Article>, ghost cut: Article?)
      requires Valid() && TableOk() && a in arts && Standing(g, a, base, rethreading, [a])
      requires Date(g, a) != 0 || !WalkOf(g, table, a, refs).repeated
      modifies `table, `arts, `g
      modifies arts`parent, arts`sibling, arts`child1, arts`subj, arts`date, subs`thread, subs`threadLink
      ensures Valid() && TableOk() && fresh(arts - old(arts)) && old(arts) <= arts && Tidy(g) && a in g.s.home
      ensures Grown(old(arts), old(table), arts, table)
      ensures OrderAfter(old(g), base, LedTo(old(g), old(table), base, WalkOf(old(g), old(table), a, refs)), rethreading, g)
      ensures Outcome(old(g), old(table), a, base, refs, g, table, spine, cut)
    {
      hide OrderAfter, OrderKept, LedTo, Grown, Valid, Wf, Standing, Tidy, Outcome, WalkOf, Hit, Missed;
      ghost var start, t0, chain, gs := g, table, [a], g;
      var ap, hit;
      ap, hit, chain, gs := ReadReferences(a, refs, rethreading, base);
      ghost var gh := g;
      spine, cut := Settle(a, ap, hit, rethreading, refs, base, start, t0, chain, gs);
      BaseRing(start, a, base, rethreading);
      if hit {
        HitLed(start, t0, a, base, rethreading, gh, table, WalkOf(start, t0, a, refs), ap, chain, gs);
        OrderWalked(start, gh, base, Subj(gh, ap), rethreading, g);
      } else {
        MissedLed(start, t0, a, base, rethreading, gh, table, WalkOf(start, t0, a, refs), ap, chain);
        OrderTwice(start, gh, rethreading, g);
        LedNowhere(start, base, rethreading, g);
      }
    }

    /** The article is definitely no fake any more, and threaded. */
    method SetFlags(a: Article)
      modifies a`fake, a`threaded
      ensures !a.fake && a.threaded && Fakes() == old(Fakes()) - {a}
    {
      a.fake, a.threaded := false, true;
    }

    lemma ReadySubject(a: Article, fake: Subject?)
      requires Ready(a, fake)
      ensures Subj(g, a) != null && (fake != null ==> !a.threaded && Replaced(g, a, fake))
      ensures fake == null ==> Standing(g, a, Subj(g, a), a.threaded, [a])
    {
      hide Standing;
    }

    /** Where the walk over the references starts from: out of the place of a fake, if the
        article replaced one. (Of the articles `fakes` were fakes, perhaps the article too.) */
    method Depart(a: Article, fakeHadSubj: Subject?, rethreading: bool, ghost refs: seq<Reference>, ghost base: Subject,
                  ghost fakes: set<Article>)
      returns (ghost line: seq<Article>, ghost stopper: Article?)
      requires Valid() && TableOk() && a in arts && Fakes() == fakes - {a}
      requires
        if fakeHadSubj != null then Replaced(g, a, fakeHadSubj) && Subj(g, a) == base && !rethreading
        else Standing(g, a, base, rethreading, [a])
      requires Date(g, a) != 0 || NothingRepeated(g, fakes, table, a, if fakeHadSubj == null then null else a, refs)
      modifies `g, arts`parent, arts`sibling, arts`child1, arts`subj, arts`date, subs`thread, subs`threadLink
      ensures Valid() && TableOk() && Standing(g, a, base, rethreading, [a])
      ensures Departed(old(g), fakes, a, fakeHadSubj, base, line, stopper, g)
      ensures Date(g, a) != 0 || !WalkOf(g, table, a, refs).repeated
    {
      hide Dated, DatedBut, OutOfOrder, Valid, Wf, Domains, LeftFake, OnlyChild, Standing, Replaced, WalkOf, TableFits,
        WholeLine, LineAbove, Forgotten;
      ghost var g0 := g;
      Known(a);
      TableKnown(table, arts);
      ParentKeys();
      line, stopper := [], null;
      if fakeHadSubj != null {
        ReplacedParts(g, a, fakeHadSubj);
        line, stopper := Detach(a, fakeHadSubj);
        LeftLine(g0, a, base, line, stopper, g);
        LeftWalk(g0, a, base, line, stopper, g, table, refs);
        StartsAlone(g0, a, base, line, stopper, g);
        WasWhole(g0, fakes, a, fakeHadSubj, line, stopper);
        WholeIsAbove(g0, fakes, a, line, stopper);
      }
    }

    lemma ParentKeys()
      requires Valid()
      ensures g.h.parent.Keys == arts
    {
      hide Wf;
    }

    /** The whole of `thread_article`: out of the place of a fake (`fakeHadSubj` is the subject
        that fake had), along the references, and into the thread they lead to. (What happens
        to a dateless article with a repeated reference is in Repeats.dfy and Aftermath.dfy.) */
    method ThreadArticle(a: Article, fakeHadSubj: Subject?, refs: seq<Reference>, ghost base: Subject)
      returns (ghost start: State, ghost line: seq<Article>, ghost stopper: Article?,
               ghost spine: seq<Article>, ghost cut: Article?)
      requires Valid() && TableOk() && a in arts && Ready(a, fakeHadSubj) && base == a.subj
      requires a.date != 0 || NothingRepeated(g, Fakes(), table, a, if fakeHadSubj == null then null else a, refs)
      modifies a`fake, a`threaded, `table, `arts, `g
      modifies arts`parent, arts`sibling, arts`child1, arts`subj, arts`date, subs`thread, subs`threadLink
      ensures Valid() && TableOk() && fresh(arts - old(arts)) && old(arts) <= arts && !a.fake && a.threaded
      ensures Tidy(g) && a in g.s.home
      ensures Departed(old(g), old(Fakes()), a, fakeHadSubj, base, line, stopper, start)
      ensures Grown(old(arts), old(table), arts, table)
      ensures OrderAfter(start, base, LedTo(start, old(table), base, WalkOf(start, old(table), a, refs)), old(a.threaded), g)
      ensures Outcome(start, old(table), a, base, refs, g, table, spine, cut)
    {
      hide Dated, OrderAfter, Departed, Valid, Wf, Standing, Replaced, WalkOf, Tidy, TableFits, Outcome, NothingRepeated,
        FakesIn, Ready;
      Known(a);
      ReadySubject(a, fakeHadSubj);
      var rethreading := a.threaded;
      SetFlags(a);
      line, stopper := Depart(a, fakeHadSubj, rethreading, refs, base, old(Fakes()));
      start := g;
      spine, cut := FollowReferences(a, refs, rethreading, base);
    }

    // ---- valid_article: a real article takes the place of a fake ------------------------------------------

    static method WriteChild1(x: Article, y: Article?, ghost s: set<Article>, ghost m: map<Article, Article?>)
      requires x in s && Child1sIn(s, m)
      modifies x`child1
      ensures Child1sIn(s, m[x := y]) && x.child1 == y
    {
      x.child1 := y;
    }

    method CopyPointers(a: Article, fake: Article, ghost h: Links)
      requires Mirrors(h) && a in arts && fake in arts && fake in h.parent && fake in h.child1 && fake in h.sibling
      requires fake.parent == h.parent[fake] && fake.child1 == h.child1[fake] && fake.sibling == h.sibling[fake]
      modifies a`parent, a`child1, a`sibling
      ensures Mirrors(Copied(h, fake, a)) && a.parent == h.parent[fake] && a.child1 == h.child1[fake]
    {
      hide ParentsIn, Child1sIn, SiblingsIn, SubjsAre, DatesAre, ThreadsAre, ThreadLinksAre;
      WriteParent(a, fake.parent, arts, h.parent);
      WriteChild1(a, fake.child1, arts, h.child1);
      WriteSibling(a, fake.sibling, arts, h.sibling);
    }

    /** The sibling search: whoever is in front of the fake gets `a` as next sibling. */
    method ReplaceSibling(first: Article, fake: Article, a: Article, ghost sib: map<Article, Article?>,
                          ghost l: seq<Article>, ghost i: nat)
      requires SiblingsAre(sib) && Chain(sib, first, l) && NoDup(l) && forall x :: x in l ==> x in arts
      requires 0 < i < |l| && l[i] == fake
      modifies arts`sibling
      ensures SiblingsAre(sib[l[i - 1] := a])
    {
      var ap := first;
      ghost var k: nat := 0;
      while ap.sibling != null
        invariant k < i && ap == l[k] && ap.sibling == At(l, k + 1) && SiblingsAre(sib)
        decreases |l| - k
      {
        if ap.sibling == fake {
          assert l[k + 1] == l[i];
          WriteSibling(ap, a, arts, sib);
          return;
        }
        k := k + 1;
        ap := ap.sibling;
      }
    }

    /** Whatever points at the fake from its list is made to point at the article. */
    method HandOver(a: Article, fake: Article, fakeHadSubj: Subject?, ghost h: Links, ghost w: Place)
      requires Mirrors(h) && a in arts && fake in arts && fake in h.parent && a.parent == h.parent[fake]
      requires w.linked ==> w.i < |w.l| && Seat(h, fake, w.r, w.l, w.i)
      requires w.linked <==> fakeHadSubj != null
      requires w.linked && a.parent == null ==> fakeHadSubj in w.r
      requires !w.linked ==> a.parent == null
      modifies arts`sibling, arts`child1, subs`thread
      ensures Mirrors(HandedOver(h, old(a.parent), a, w))
    {
      hide Mirrors, Seat;
      if a.parent != null {
        HandOverChild(a, fake, a.parent, h, w);
      } else if fakeHadSubj != null {
        HandOverTop(a, fake, fakeHadSubj, h, w);
      }
    }

    method HandOverChild(a: Article, fake: Article, p: Article, ghost h: Links, ghost w: Place)
      requires Mirrors(h) && a in arts && fake in h.parent && p == h.parent[fake]
      requires w.linked && w.i < |w.l| && Seat(h, fake, w.r, w.l, w.i)
      modifies arts`sibling, arts`child1
      ensures Mirrors(HandedOver(h, p, a, w))
    {
      hide ParentsIn, Child1sIn, SiblingsIn, SubjsAre, DatesAre, ThreadsAre, ThreadLinksAre, Cycle, NoDup, Seat, Chain;
      HeadsKnown(h, fake, w, p, null);
      if p.child1 == fake {
        WriteChild1(p, a, arts, h.child1);
      } else {
        ReplaceSibling(p.child1, fake, a, h.sibling, w.l, w.i);
      }
    }

    method HandOverTop(a: Article, fake: Article, t: Subject, ghost h: Links, ghost w: Place)
      requires Mirrors(h) && a in arts && fake in h.parent && h.parent[fake] == null && t in w.r
      requires w.linked && w.i < |w.l| && Seat(h, fake, w.r, w.l, w.i)
      modifies arts`sibling, subs`thread
      ensures Mirrors(HandedOver(h, null, a, w))
    {
      hide ParentsAre, Child1sAre, SiblingsIn, SubjsAre, DatesAre, ThreadsAre, ThreadLinksAre, Cycle, NoDup, Seat, Chain;
      HeadsKnown(h, fake, w, null, t);
      if t.thread == fake {
        SetThread(t, a, w.r, h);
      } else {
        ReplaceSibling(t.thread, fake, a, h.sibling, w.l, w.i);
      }
    }

    /** What the search for the fake starts from. */
    lemma HeadsKnown(h: Links, fake: Article, w: Place, p: Article?, t: Subject?)
      requires Mirrors(h) && fake in h.parent && w.linked && w.i < |w.l| && Seat(h, fake, w.r, w.l, w.i)
      requires h.parent[fake] == p && (p == null ==> t != null && t in w.r)
      ensures NoDup(w.l) && (forall x :: x in w.l ==> x in arts) && w.l[w.i] == fake
      ensures forall u :: u in w.r ==> u in subs
      ensures Cycle(h.link, w.r)
      ensures p != null ==> p in arts && p.child1 == w.l[0] && Chain(h.sibling, p.child1, w.l)
      ensures p == null ==> t.thread == w.l[0] && Chain(h.sibling, t.thread, w.l)
      ensures w.l[0] == fake <==> w.i == 0
    {
      hide Cycle;
    }

    /** The children of the fake become those of the article. */
    method AdoptChildren(a: Article, ghost h: Links, ghost kids: seq<Article>)
      requires Mirrors(h) && a in arts && Chain(h.sibling, a.child1, kids)
      requires forall x :: x in kids ==> x in arts && x in h.parent
      modifies arts`parent
      ensures Mirrors(h.(parent := Fill(h.parent, kids, a)))
    {
      hide ParentsIn, Child1sAre, SubjsAre, DatesAre, ThreadsAre, ThreadLinksAre, Fill;
      var ap := a.child1;
      ghost var k: nat := 0;
      FilledNone(h.parent, kids, a);
      while ap != null
        invariant k <= |kids| && ap == At(kids, k) && ParentsIn(arts, Fill(h.parent, kids[..k], a))
        decreases |kids| - k
      {
        assert ap in kids && ap.sibling == At(kids, k + 1);
        WriteParent(ap, a, arts, Fill(h.parent, kids[..k], a));
        FilledOne(h.parent, kids, k, a);
        k := k + 1;
        ap := ap.sibling;
      }
      assert kids[..k] == kids;
    }

    /** Forgets the fake. */
    ghost method Unregister(fake: Article, h: Links)
      requires Mirrors(h)
      modifies `arts
      ensures arts == old(arts) - {fake}
      ensures Mirrors(Links(h.parent - {fake}, h.child1 - {fake}, h.sibling - {fake}, h.subj - {fake}, h.date - {fake},
                            h.thread, h.link))
    {
      hide ParentsIn, Child1sIn, SiblingsIn, SubjsIn, DatesIn, ThreadsAre, ThreadLinksAre;
      OneLess(arts, fake, h);
      arts := arts - {fake};
    }

    /** Puts the article where the fake was. */
    method MovePointers(a: Article, fake: Article, ghost h: Links, ghost w: Place) returns (fakeHadSubj: Subject?)
      requires Mirrors(h) && a in arts && fake in arts && fake != a && fake in h.parent && fake in h.child1 && fake in h.sibling
      requires fake.parent == h.parent[fake] && fake.child1 == h.child1[fake] && fake.sibling == h.sibling[fake]
      requires Sits(h, fake, a, w) && Chain(h.sibling, h.child1[fake], w.kids)
      requires w.linked ==> w.i < |w.l| && Seat(Copied(h, fake, a), fake, w.r, w.l, w.i)
      requires w.linked <==> fake.subj != null
      requires w.linked && fake.parent == null ==> fake.subj in w.r
      requires !w.linked ==> fake.parent == null
      requires forall x :: x in w.kids ==> x in arts && x in h.parent
      modifies `arts, arts`parent, arts`child1, arts`sibling, subs`thread
      ensures arts == old(arts) - {fake} && Mirrors(TakenPlace(h, fake, a, w)) && fakeHadSubj == old(fake.subj)
    {
      hide Mirrors, Sits, Seat, Chain, HandedOver;
      fakeHadSubj := fake.subj;
      CopyPointers(a, fake, h);
      CopiedFields(h, fake, a);
      KidsHandedOver(h, fake, a, w);
      HandOver(a, fake, fakeHadSubj, Copied(h, fake, a), w);
      ghost var h2 := HandedOver(Copied(h, fake, a), h.parent[fake], a, w);
      Child1Known(h2, a);
      HandedOverParents(Copied(h, fake, a), h.parent[fake], a, w);
      AdoptChildren(a, h2, w.kids);
      ghost var h3 := h2.(parent := Fill(h2.parent, w.kids, a));
      Unregister(fake, h3);
    }

    lemma Child1Known(h: Links, a: Article)
      requires Mirrors(h) && a in arts
      ensures a in h.child1 && a.child1 == h.child1[a]
    {
    }

    /** Puts the article where the fake was. */
    method ReplaceFake(a: Article, fake: Article, ghost base: Subject) returns (fakeHadSubj: Subject?)
      requires Valid() && a in arts && fake in arts && fake != a && Waiting(g, a, base) && Domains(g.h, g.s)
      requires fake in g.h.parent
      modifies `g, `arts, arts`parent, arts`child1, arts`sibling, subs`thread
      ensures Valid() && arts == old(arts) - {fake} && g == Renamed(old(g), fake, a)
      ensures fakeHadSubj == Subj(old(g), fake) && (Dated(old(g)) ==> DatedBut(g, a))
      ensures if fakeHadSubj != null then Replaced(g, a, fakeHadSubj) && Subj(g, a) == base else Waiting(g, a, base)
    {
      hide Wf, Domains, Waiting, Replaced, Sits, Seat, Chain, Renamed, PlaceOf, TakenPlace, Mirrors, Copied, Spare,
        Dated, DatedBut;
      ghost var g0 := g;
      Known(a);
      Known(fake);
      PlaceFacts(g, a, base, fake);
      KidsAre(g, fake);
      ghost var w := PlaceOf(g, fake);
      KidsKnown(w.kids);
      fakeHadSubj := MovePointers(a, fake, g.h, w);
      RenamedStands(g0, fake, a, base);
      if Dated(g0) {
        WaitingIsSpare(g0, a, base, fake);
        RenamedDated(g0, fake, a);
      }
      g := Renamed(g0, fake, a);
    }

    lemma KidsKnown(kids: seq<Article>)
      requires Valid() && forall x :: x in kids ==> x in g.h.parent
      ensures forall x :: x in kids ==> x in arts
    {
      hide Wf;
    }

    /** Decides whether the article can be threaded: not if another real article has its
        message-id already; if a fake has it, the article takes the fake's place. */
    method ValidArticle(a: Article, id: string, ghost base: Subject) returns (valid: bool, fakeHadSubj: Subject?)
      requires Valid() && TableOk() && a in arts && (forall i :: i in table && table[i] == a ==> i == id)
      requires (id in table && table[id] == a) || (Waiting(g, a, base) && !a.threaded)
      modifies `table, `g, `arts, arts`parent, arts`child1, arts`sibling, subs`thread
      ensures Valid() && TableOk() && a in arts
      ensures Validated(old(g), old(table), id, a, base, valid, fakeHadSubj, g, table)
      ensures arts == if TakesOver(old(table), id, a) then old(arts) - {old(table)[id]} else old(arts)
      ensures Fakes() == if TakesOver(old(table), id, a) then old(Fakes()) - {old(table)[id]} else old(Fakes())
    {
      hide Valid, Wf, Waiting, TableFits, Validated, FakesIn;
      if !TakesOver(table, id, a) { ValidatedPlain(g, table, id, a, base); }
      if id !in table {
        TableOneMore(table, arts, id, a);
        table := table[id := a];
        return true, null;
      }
      var fake := table[id];
      if fake == a {
        assert table[id := a] == table;
        return true, null;
      }
      if fake.tmpMem {
        fakeHadSubj := TakeOver(a, id, base);
        return true, fakeHadSubj;
      }
      return false, null;
    }

    /** The article takes the place of the fake that has its message-id. */
    method TakeOver(a: Article, id: string, ghost base: Subject) returns (fakeHadSubj: Subject?)
      requires Valid() && TableOk() && a in arts && (forall i :: i in table && table[i] == a ==> i == id)
      requires Waiting(g, a, base) && TakesOver(table, id, a)
      modifies `table, `g, `arts, arts`parent, arts`child1, arts`sibling, subs`thread
      ensures Valid() && TableOk() && a in arts && arts == old(arts) - {old(table)[id]}
      ensures Validated(old(g), old(table), id, a, base, true, fakeHadSubj, g, table)
      ensures Fakes() == old(Fakes()) - {old(table)[id]}
    {
      hide Valid, FakesIn, Wf, Domains, Waiting, Replaced, Renamed, TableFits, Dated, DatedBut;
      var fake := table[id];
      TableKnows(table, arts, id);
      Known(fake);
      WfDomains(g);
      TableTakenOver(table, arts, id, a);
      FakesLess(arts, fake);
      fakeHadSubj := ReplaceFake(a, fake, base);
      table := table[id := a];
    }

    // ---- Any run ------------------------------------------------------------------------------------------

    method CacheArticle(date: int, subject: Subject) returns (a: Article)
      requires Valid() && TableOk() && Tidy(g) && subject in subs
      modifies `arts, `g
      ensures Valid() && TableOk() && fresh(a) && arts == old(arts) + {a} && !a.threaded && !a.tmpMem && !a.fake && a.date == date
      ensures a !in old(g).h.parent && g == Received(old(g), a, date, subject) && Waiting(g, a, subject)
      ensures (Dated(old(g)) ==> Dated(g)) && Fakes() == old(Fakes())
    {
      hide Wf, Tidy, Waiting, Dated, TableFits, Mirrors, FakesIn;
      a := new Article.Numbered(date, subject);
      FakesMore(arts, a);
      Known(a);
      KnownSubject(subject);
      ReceivedFacts(g, a, date, subject);
      TableGrows(table, arts, a);
      Enrol(a, g.h);
      g := Received(g, a, date, subject);
    }

    ghost method Enrol(a: Article, h: Links)
      requires Mirrors(h) && a !in arts && a.parent == null && a.child1 == null && a.sibling == null
      modifies `arts
      ensures arts == old(arts) + {a}
      ensures Mirrors(Links(h.parent[a := null], h.child1[a := null], h.sibling[a := null], h.subj[a := a.subj],
                            h.date[a := a.date], h.thread, h.link))
    {
      hide ParentsIn, Child1sIn, SiblingsIn, SubjsIn, DatesIn, ThreadsAre, ThreadLinksAre;
      OneMoreNumbered(arts, a, h);
      arts := arts + {a};
    }

    /** The article stands as `ThreadArticle` wants it. */
    lemma WaitingReady(a: Article, fake: Subject?, base: Subject)
      requires Valid() && a in arts && !a.threaded
      requires if fake != null then Replaced(g, a, fake) && Subj(g, a) == base else Waiting(g, a, base)
      ensures Ready(a, fake) && a.subj == base
    {
      hide Valid, Wf, Replaced, Waiting, Chained, Tidy;
      Known(a);
      if fake == null {
        WaitingWf(g, a, base);
      }
    }

    ghost method Forget(a: Article, g0: State, date: int, subject: Subject)
      requires Valid() && TableOk() && g == Received(g0, a, date, subject) && Wf(g0.h, g0.s)
      requires a !in g0.h.parent && a !in g0.h.child1 && a !in g0.h.sibling && a !in g0.h.subj && a !in g0.h.date
      requires forall i :: i in table ==> table[i] != a
      modifies `g, `arts
      ensures Valid() && TableOk() && g == g0 && arts == old(arts) - {a}
    {
      hide Wf, Received, TableFits, Mirrors;
      ReceivedAndForgotten(g0, a, date, subject);
      TableShrinks(table, arts, a);
      Unregister(a, g.h);
      g := g0;
    }

    /** An article is cached and takes over its message-id, with the place of the fake that had
        it; if a real article has it, the new one is forgotten. */
    method Admit(id: string, date: int, subject: Subject) returns (a: Article, valid: bool, fakeHadSubj: Subject?)
      requires Valid() && TableOk() && Tidy(g) && subject in subs
      modifies `table, `arts, `g, arts`parent, arts`child1, arts`sibling, subs`thread
      ensures Valid() && TableOk() && valid == (id !in old(table) || old(table)[id].tmpMem)
      ensures !valid ==> g == old(g) && arts == old(arts) && table == old(table)
      ensures valid ==> fresh(a) && a in arts && !a.threaded && a.date == date && a.subj == subject && Ready(a, fakeHadSubj)
      ensures valid ==> arts <= old(arts) + {a} && !a.tmpMem && Fakes() == old(Fakes()) - {Fake(old(table), id)}
      ensures valid ==> Admitted(old(g), old(table), id, a, date, subject, fakeHadSubj, g, table)
    {
      hide Valid, Wf, Tidy, Waiting, Unknown, Received, Replaced, Renamed, TableFits, Dated, DatedBut, Domains, Admitted,
        Validated, FakesIn;
      ghost var g0, t0 := g, table;
      TableKnown(table, arts);
      ParentKeys();
      a := CacheArticle(date, subject);
      ghost var g1 := g;
      valid, fakeHadSubj := ValidArticle(a, id, subject);
      ValidatedParts(g1, t0, id, a, subject, valid, fakeHadSubj, g, table);
      if valid {
        AdmittedNow(g0, t0, id, a, date, subject, fakeHadSubj, g, table);
        WaitingReady(a, fakeHadSubj, subject);
        Known(a);
      } else {
        TidyWf(g0);
        Forget(a, g0, date, subject);
      }
    }

    /** What a caller can tell beforehand: the article has a date, or it will be refused, or no
        reference that counts is repeated. */
    ghost predicate Threadable(id: string, date: int, refs: seq<Reference>)
      reads this, arts`fake
    {
      date != 0 || (id in table && !table[id].tmpMem)
      || NothingRepeated(g, Fakes(), table, null, Leaving(g, Fake(table, id)), Others(refs, id))
    }

    lemma ReadyToThread(g0: State, t0: Table, fakes: set<Article>, id: string, a: Article, date: int, subject: Subject,
                        refs: seq<Reference>, fakeHadSubj: Subject?)
      requires Tidy(g0) && a !in g0.h.parent && subject in g0.h.thread && (id in t0 ==> t0[id].tmpMem)
      requires TableFits(t0, g0.h.parent.Keys) && Admitted(g0, t0, id, a, date, subject, fakeHadSubj, g, table)
      requires NothingRepeated(g0, fakes, t0, null, Leaving(g0, Fake(t0, id)), Others(refs, id))
      ensures NothingRepeated(g, fakes - {Fake(t0, id)}, table, a, if fakeHadSubj == null then null else a, refs)
    {
      hide Tidy, NothingRepeated, Arrived, Unknown, Dated, DatedBut;
      TidyParts(g0);
      NotYetKnown(g0, a);
      ArrivedRepeats(g0, fakes, t0, a, date, subject, id, refs);
    }

    /** An article arrives: it is given its place, unless its message-id is taken. */
    method Receive(id: string, date: int, subject: Subject, refs: seq<Reference>)
      returns (a: Article, valid: bool, ghost mid: State, ghost start: State, ghost line: seq<Article>,
               ghost stopper: Article?, ghost spine: seq<Article>, ghost cut: Article?)
      requires Valid() && TableOk() && Tidy(g) && subject in subs && Threadable(id, date, refs)
      modifies `table, `arts, `g
      modifies arts`parent, arts`sibling, arts`child1, arts`subj, arts`date, subs`thread, subs`threadLink
      ensures Valid() && TableOk() && Tidy(g) && fresh(arts - old(arts)) && valid == (id !in old(table) || old(table)[id].tmpMem)
      ensures !valid ==> g == old(g) && arts == old(arts) && table == old(table)
      ensures valid ==> fresh(a) && a in g.s.home && id in table && table[id] == a && !a.tmpMem && !a.fake
      ensures valid ==> Grown(old(arts) + {a}, old(table)[id := a], arts, table)
      ensures valid ==> TakenIn(old(g), old(table), old(Fakes()), id, date, subject, refs, a, mid, line, stopper, start,
                                spine, cut, g, table)
    {
      hide Valid, Wf, Tidy, Dated, TableFits, Admitted, Departed, Outcome, NothingRepeated, Disturbs, Ready, Grown, TakenIn;
      ghost var g0, t0, fakes := g, table, Fakes();
      mid, start, line, stopper, spine, cut := g, g, [], null, [], null;
      KnownSubject(subject);
      ParentKeys();
      var fakeHadSubj;
      a, valid, fakeHadSubj := Admit(id, date, subject);
      mid := g;
      ghost var arts1 := arts;
      if valid {
        AdmittedParts(g0, t0, id, a, date, subject, fakeHadSubj, g, table);
        if date == 0 {
          ReadyToThread(g0, t0, fakes, id, a, date, subject, refs, fakeHadSubj);
        }
        start, line, stopper, spine, cut := ThreadArticle(a, fakeHadSubj, refs, subject);
        GrownFromMore(old(arts) + {a}, arts1, t0[id := a], arts, table);
        TakenInNow(g0, t0, fakes, id, date, subject, refs, a, fakeHadSubj, mid, line, stopper, start, spine, cut, g, table);
      }
    }
  }
}
