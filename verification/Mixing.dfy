/** What becomes of a thread whose top level has got out of date order, and of the division
    of the subjects into threads, in the steps of `thread_article` (libtrn/Article.cpp, lines
    916-1108). */
module Mixing {
  import opened Forest
  import opened Joining
  import opened Ancestry
  import opened Placing
  import opened Settling
  import opened Detaching
  import opened Ordering
  import opened References

  /** All lists of siblings are in date order but for the top level of the thread of `t`, which
      is not. */
  ghost predicate Mixed(g: State, t: Subject) {
    && t in g.s.tops && !Sorted(g.h.date, g.s.tops[t])
    && (forall p :: p in g.s.kids ==> Sorted(g.h.date, g.s.kids[p]))
    && (forall u :: u in g.s.tops && RingAt(g, u) != RingAt(g, t) ==> Sorted(g.h.date, g.s.tops[u]))
  }

  /** ... when `a` is left out. */
  ghost predicate MixedBut(g: State, a: Article, t: Subject) {
    && t in g.s.tops && !SortedBut(g.h.date, g.s.tops[t], a)
    && (forall p :: p in g.s.kids ==> SortedBut(g.h.date, g.s.kids[p], a))
    && (forall u :: u in g.s.tops && RingAt(g, u) != RingAt(g, t) ==> SortedBut(g.h.date, g.s.tops[u], a))
  }

  lemma MixedIsNotDated(g: State, t: Subject)
    requires Mixed(g, t)
    ensures !Dated(g)
  {
    hide Sorted;
  }

  /** A step that leaves the threads as they are and articles in date order in date order; and,
      unless it takes an article out of a top level (`leaves`), it mends none either. */
  ghost predicate OrderKept(g0: State, g: State, leaves: bool) {
    && g.s.ring == g0.s.ring && (Dated(g0) ==> Dated(g))
    && (!leaves ==> forall t :: t in g0.s.ring && Mixed(g0, t) ==> Mixed(g, t))
  }

  lemma MixedKnown(g: State, t: Subject)
    requires Mixed(g, t)
    ensures t in g.s.tops
  {
  }

  // ---- Linking ---------------------------------------------------------------------------------------

  /** Putting something in mends nothing. */
  lemma InsertedUnsorted(date: Dates, l: seq<Article>, i: nat, a: Article)
    requires i <= |l| && Sorted(date, Inserted(l, i, a))
    ensures Sorted(date, l)
  {
    var l' := Inserted(l, i, a);
    forall j, k | 0 <= j < k < |l| ensures DateOf(date, l[j]) <= DateOf(date, l[k]) {
      assert l[j] == l'[if j < i then j else j + 1] && l[k] == l'[if k < i then k else k + 1];
    }
  }

  lemma NewListMixed(g: State, r: seq<Subject>, p: Article?, subject: Subject, l': seq<Article>, g': State, t: Subject)
    requires Mixed(g, t) && g'.h.date == g.h.date && g'.s.ring == g.s.ring && subject in g.s.ring && g.s.ring[subject] == r
    requires g'.s.kids == (if p == null then g.s.kids else g.s.kids[p := l'])
    requires g'.s.tops == (if p == null then Fill(g.s.tops, r, l') else g.s.tops)
    requires forall u :: u in r ==> u in g.s.ring && g.s.ring[u] == r
    requires forall u :: u in g.s.ring ==> u in g.s.ring[u]
    requires p != null || RingAt(g, subject) != RingAt(g, t) ==> Sorted(g.h.date, l')
    requires p == null && RingAt(g, subject) == RingAt(g, t) ==> !Sorted(g.h.date, l')
    requires t in g.s.ring
    ensures Mixed(g', t)
  {
    hide Sorted;
    forall u | u in g'.s.tops && RingAt(g', u) != RingAt(g', t) ensures Sorted(g'.h.date, g'.s.tops[u]) {
      assert RingAt(g, u) != RingAt(g, t);
    }
  }

  lemma RingsOwn(g: State)
    requires Wf(g.h, g.s)
    ensures g.s.ring.Keys == g.h.thread.Keys && g.s.tops.Keys == g.h.thread.Keys
    ensures forall u :: u in g.s.ring ==> u in g.s.ring[u]
    ensures forall u, v :: u in g.s.ring && v in g.s.ring[u] ==> v in g.s.ring && g.s.ring[v] == g.s.ring[u]
    ensures forall u, v :: u in g.s.ring && v in g.s.ring[u] ==> v in g.s.tops && g.s.tops[v] == g.s.tops[u]
  {
    hide Wf;
    WfDomains(g);
    forall u | u in g.s.ring
      ensures u in g.s.ring[u]
      ensures forall v :: v in g.s.ring[u] ==>
        v in g.s.ring && g.s.ring[v] == g.s.ring[u] && v in g.s.tops && g.s.tops[v] == g.s.tops[u]
    {
      RingFacts(g, u);
    }
  }

  lemma LinkMixed(g: State, a: Article, subject: Subject, t: Subject)
    requires Wf(g.h, g.s) && Linkable(g.h, g.s, a, subject) && Mixed(g, t)
    ensures Mixed(AfterLink(g, a, subject), t)
  {
    hide Wf, Mixed, Sorted, InsertAt, Inserted;
    RingsOwn(g);
    AfterLinkFields(g, a, subject);
    var p, l, i := g.h.parent[a], SiblingsOf(g, a, subject), LinkPos(g.h, g.s, a, subject);
    MixedKnown(g, t);
    LinkList(g, a, subject, t);
    NewListMixed(g, RingOf(g, subject), p, subject, Inserted(l, i, a), AfterLink(g, a, subject), t);
  }

  /** The list the article enters is out of order afterwards exactly if it was before. */
  lemma LinkList(g: State, a: Article, subject: Subject, t: Subject)
    requires Wf(g.h, g.s) && Linkable(g.h, g.s, a, subject) && Mixed(g, t)
    ensures
      var l' := Inserted(SiblingsOf(g, a, subject), LinkPos(g.h, g.s, a, subject), a);
      && subject in g.s.ring && RingOf(g, subject) == g.s.ring[subject]
      && (Sorted(g.h.date, l') <==> g.h.parent[a] != null || RingAt(g, subject) != RingAt(g, t))
  {
    hide Wf, Sorted, InsertAt, Inserted, Mixed;
    WfDomains(g);
    ListDated(g.h, g.s, g.h.parent[a], subject);
    var l, i := SiblingsOf(g, a, subject), LinkPos(g.h, g.s, a, subject);
    MixedList(g, t, g.h.parent[a], subject);
    if Sorted(g.h.date, l) {
      InsertSorted(g.h.date, l, a);
    }
    if Sorted(g.h.date, Inserted(l, i, a)) {
      InsertedUnsorted(g.h.date, l, i, a);
    }
  }

  lemma MixedList(g: State, t: Subject, p: Article?, subject: Subject)
    requires Wf(g.h, g.s) && Mixed(g, t) && subject in g.h.thread && (p != null ==> p in g.h.parent)
    ensures subject in g.s.tops && subject in g.s.ring && (p != null ==> p in g.s.kids)
    ensures Sorted(g.h.date, ListOf(g.s, p, subject)) <==> p != null || RingAt(g, subject) != RingAt(g, t)
  {
    hide Wf, Sorted;
    WfDomains(g);
    RingFacts(g, subject);
    RingFacts(g, t);
  }

  lemma LinkKeepsOrder(g: State, a: Article, subject: Subject)
    requires Wf(g.h, g.s) && Linkable(g.h, g.s, a, subject)
    ensures OrderKept(g, AfterLink(g, a, subject), false)
  {
    hide Wf, Dated, Mixed, Linkable;
    AfterLinkFields(g, a, subject);
    if Dated(g) { LinkDated(g, a, subject); }
    forall t | t in g.s.ring && Mixed(g, t) ensures Mixed(AfterLink(g, a, subject), t) {
      LinkMixed(g, a, subject, t);
    }
  }

  // ---- Single fields, new fakes ------------------------------------------------------------------------

  /** Lists and threads are the same, and so are the dates of all that is in a list. */
  ghost predicate SameLists(g: State, g': State) {
    && g'.s.ring == g.s.ring && g'.s.tops == g.s.tops
    && (forall p :: p in g.s.kids ==> p in g'.s.kids && g'.s.kids[p] == g.s.kids[p])
    && (forall p :: p in g'.s.kids && p !in g.s.kids ==> g'.s.kids[p] == [])
    && (forall x :: x in g.s.home ==> DateOf(g'.h.date, x) == DateOf(g.h.date, x))
  }

  lemma SameSorted(date: Dates, date': Dates, l: seq<Article>)
    requires forall x :: x in l ==> DateOf(date', x) == DateOf(date, x)
    ensures Sorted(date', l) <==> Sorted(date, l)
  {
    assert forall i :: 0 <= i < |l| ==> l[i] in l;
  }

  lemma SameListsKeep(g: State, g': State)
    requires Wf(g.h, g.s) && SameLists(g, g')
    ensures OrderKept(g, g', false)
  {
    hide Wf, Sorted, DateOf;
    forall p | p in g.s.kids ensures Sorted(g'.h.date, g.s.kids[p]) <==> Sorted(g.h.date, g.s.kids[p]) {
      KidsLinked(g, p);
      SameSorted(g.h.date, g'.h.date, g.s.kids[p]);
    }
    forall t | t in g.s.tops ensures Sorted(g'.h.date, g.s.tops[t]) <==> Sorted(g.h.date, g.s.tops[t]) {
      TopsLinked(g, t);
      SameSorted(g.h.date, g'.h.date, g.s.tops[t]);
    }
    EmptySorted(g'.h.date);
    forall t | t in g.s.ring && Mixed(g, t) ensures Mixed(g', t) {
      SameMixed(g, g', t);
    }
  }

  lemma SameMixed(g: State, g': State, t: Subject)
    requires SameLists(g, g') && Mixed(g, t) && Sorted(g'.h.date, [])
    requires forall p :: p in g.s.kids ==> (Sorted(g'.h.date, g.s.kids[p]) <==> Sorted(g.h.date, g.s.kids[p]))
    requires forall u :: u in g.s.tops ==> (Sorted(g'.h.date, g.s.tops[u]) <==> Sorted(g.h.date, g.s.tops[u]))
    ensures Mixed(g', t)
  {
    hide Sorted, DateOf;
    forall u | u in g'.s.tops && RingAt(g', u) != RingAt(g', t) ensures Sorted(g'.h.date, g'.s.tops[u]) {
      assert RingAt(g, u) != RingAt(g, t);
    }
  }

  lemma EmptySorted(date: Dates)
    ensures Sorted(date, [])
  {
  }

  lemma SetKeepsOrder(g: State, x: Article, y: Article?, t: Subject?)
    requires Wf(g.h, g.s)
    ensures OrderKept(g, SetParent(g, x, y), false)
    ensures OrderKept(g, SetSubj(g, x, t), false)
    ensures OrderKept(g, ClearSibling(g, x), false)
  {
    hide Wf, OrderKept, Dated;
    SameListsKeep(g, SetParent(g, x, y));
    SameListsKeep(g, SetSubj(g, x, t));
    SameListsKeep(g, ClearSibling(g, x));
  }

  lemma SetDateKeepsOrder(g: State, x: Article, d: int)
    requires Wf(g.h, g.s) && x !in g.s.home
    ensures OrderKept(g, SetDate(g, x, d), false)
  {
    hide Wf, OrderKept, Dated;
    SameListsKeep(g, SetDate(g, x, d));
  }

  lemma AddedKeepsOrder(g: State, f: Article)
    requires Wf(g.h, g.s) && Unknown(g, f)
    ensures OrderKept(g, Added(g, f), false)
  {
    hide Wf, OrderKept, Dated;
    SameListsKeep(g, Added(g, f));
  }

  // ---- Unlinking ---------------------------------------------------------------------------------------

  lemma UnlinkRings(g: State, a: Article)
    requires Wf(g.h, g.s) && a in g.s.home
    ensures AfterUnlink(g, a).s.ring == g.s.ring
  {
    hide Wf;
    UnlinkRemoves(g, a);
  }

  /** What an article leaves that hangs under another does not touch the top levels. */
  lemma UnlinkMixed(g: State, a: Article, t: Subject)
    requires Wf(g.h, g.s) && a in g.s.home && Mixed(g, t) && Par(g, a) != null
    ensures Mixed(AfterUnlink(g, a), t)
  {
    hide Wf, Sorted, Without, IndexOf;
    AfterUnlinkFields(g, a);
    HomeFacts(g, a);
    ListIs(g, a);
    WithoutKeeps(g, a);
    var g' := AfterUnlink(g, a);
    assert g'.s.tops == g.s.tops && g'.s.ring == g.s.ring;
    forall u | u in g'.s.tops && RingAt(g', u) != RingAt(g', t) ensures Sorted(g'.h.date, g'.s.tops[u]) {
      assert RingAt(g, u) != RingAt(g, t);
    }
  }

  lemma WithoutKeeps(g: State, a: Article)
    requires Wf(g.h, g.s) && a in g.s.home
    ensures a in ListWith(g, a) && NoDup(ListWith(g, a))
    ensures Sorted(g.h.date, ListWith(g, a)) ==> Sorted(g.h.date, Without(ListWith(g, a), IndexOf(ListWith(g, a), a)))
    ensures SortedBut(g.h.date, ListWith(g, a), a) <==>
            Sorted(g.h.date, Without(ListWith(g, a), IndexOf(ListWith(g, a), a)))
  {
    hide Wf, Sorted, SortedBut;
    UnlinkFacts(g, a);
    var l := ListWith(g, a);
    var i := IndexOf(l, a);
    if Sorted(g.h.date, l) { SortedIsBut(g.h.date, l, a); }
    if SortedBut(g.h.date, l, a) { WithoutSorted(g.h.date, l, i); }
    if Sorted(g.h.date, Without(l, i)) { SortedAround(g.h.date, l, i); }
  }

  lemma UnlinkKeepsOrder(g: State, a: Article)
    requires Wf(g.h, g.s) && a in g.s.home
    ensures OrderKept(g, AfterUnlink(g, a), Par(g, a) == null)
  {
    hide Wf, Dated, DatedBut, Mixed, AfterUnlink;
    UnlinkRings(g, a);
    if Dated(g) {
      DatedIsDatedBut(g, a);
      UnlinkDated(g, a);
    }
    if Par(g, a) != null {
      forall t | t in g.s.ring && Mixed(g, t) ensures Mixed(AfterUnlink(g, a), t) {
        UnlinkMixed(g, a, t);
      }
    }
  }

  /** Taking out the article that was left out of account. */
  lemma UnlinkMixedBut(g: State, a: Article, t: Subject)
    requires Wf(g.h, g.s) && a in g.s.home && MixedBut(g, a, t)
    ensures Mixed(AfterUnlink(g, a), t)
  {
    hide Wf, Sorted, SortedBut, Without, IndexOf, MixedBut;
    RingsOwn(g);
    AfterUnlinkFields(g, a);
    HomeFacts(g, a);
    ListDated(g.h, g.s, g.h.parent[a], g.s.home[a]);
    WithoutKeeps(g, a);
    var g', l := AfterUnlink(g, a), ListWith(g, a);
    forall p | p in g'.s.kids ensures Sorted(g'.h.date, g'.s.kids[p]) {
      KidsButSorted(g, a, t, p);
    }
    assert t in g.s.tops by { MixedButKnown(g, a, t); }
    forall u | u in g'.s.tops ensures Sorted(g'.h.date, g'.s.tops[u]) <==> SortedBut(g.h.date, g.s.tops[u], a) {
      TopsButSorted(g, a, u);
    }
    MixedButTops(g, a, t, g');
  }

  lemma MixedButKnown(g: State, a: Article, t: Subject)
    requires MixedBut(g, a, t)
    ensures t in g.s.tops
  {
  }

  lemma KidsButSorted(g: State, a: Article, t: Subject, p: Article)
    requires Wf(g.h, g.s) && a in g.s.home && MixedBut(g, a, t) && p in AfterUnlink(g, a).s.kids
    ensures Sorted(g.h.date, AfterUnlink(g, a).s.kids[p])
  {
    hide Wf, Sorted, SortedBut, Without, IndexOf;
    AfterUnlinkFields(g, a);
    HomeFacts(g, a);
    ListIs(g, a);
    WithoutKeeps(g, a);
    if p != g.h.parent[a] {
      NotInKids(g, a, p);
      SortedWithout(g.h.date, g.s.kids[p], a);
    }
  }

  lemma TopsButSorted(g: State, a: Article, u: Subject)
    requires Wf(g.h, g.s) && a in g.s.home && u in AfterUnlink(g, a).s.tops
    ensures u in g.s.tops
    ensures Sorted(g.h.date, AfterUnlink(g, a).s.tops[u]) <==> SortedBut(g.h.date, g.s.tops[u], a)
  {
    hide Wf, Sorted, SortedBut, Without, IndexOf;
    RingsOwn(g);
    AfterUnlinkFields(g, a);
    HomeFacts(g, a);
    WithoutKeeps(g, a);
    if g.h.parent[a] != null || u !in HomeRing(g, a) {
      NotInTops(g, a, u);
      if SortedBut(g.h.date, g.s.tops[u], a) {
        SortedWithout(g.h.date, g.s.tops[u], a);
      }
      if Sorted(g.h.date, g.s.tops[u]) {
        SortedIsBut(g.h.date, g.s.tops[u], a);
      }
    }
  }

  lemma MixedButTops(g: State, a: Article, t: Subject, g': State)
    requires MixedBut(g, a, t) && g'.s.ring == g.s.ring && g'.s.tops.Keys == g.s.tops.Keys
    requires forall p :: p in g'.s.kids ==> Sorted(g'.h.date, g'.s.kids[p])
    requires forall u :: u in g'.s.tops ==> (Sorted(g'.h.date, g'.s.tops[u]) <==> SortedBut(g.h.date, g.s.tops[u], a))
    ensures Mixed(g', t)
  {
    hide Sorted, SortedBut;
    forall u | u in g'.s.tops && RingAt(g', u) != RingAt(g', t) ensures Sorted(g'.h.date, g'.s.tops[u]) {
      assert RingAt(g, u) != RingAt(g, t);
    }
  }

  lemma UnlinkOrder(g: State, a: Article)
    requires Wf(g.h, g.s) && a in g.s.home
    ensures OrderKept(g, AfterUnlink(g, a), Par(g, a) == null)
    ensures forall t :: t in g.s.ring && MixedBut(g, a, t) ==> Mixed(AfterUnlink(g, a), t)
  {
    hide Wf, Mixed, MixedBut, AfterUnlink, OrderKept;
    UnlinkKeepsOrder(g, a);
    forall t | t in g.s.ring && MixedBut(g, a, t) ensures Mixed(AfterUnlink(g, a), t) {
      UnlinkMixedBut(g, a, t);
    }
  }

  // ---- Merging -----------------------------------------------------------------------------------------

  /** What is filed article by article into a sorted list comes out sorted, whatever its order. */
  lemma {:induction false} InsertAllSorted(date: Dates, l1: seq<Article>, l2: seq<Article>)
    requires Sorted(date, l1) && forall a :: a in l1 + l2 ==> a in date
    ensures Sorted(date, InsertAll(date, l1, l2))
  {
    hide Sorted, InsertAt;
    if l2 != [] {
      var n := |l2| - 1;
      AllButAny(date, l1, l2);
      InsertAllSorted(date, l1, l2[..n]);
      var m := InsertAll(date, l1, l2[..n]);
      InsertSorted(date, m, l2[n]);
    }
  }

  /** Merging a mixed-up thread into one in order mends it. */
  lemma MergeMends(g: State, s1: Subject, s2: Subject, g': State)
    requires Mergeable(g, s1, s2) && SubjectsKnown(g, s2) && Refiled(g, s1, s2, |TopsOf(g, s2)|, g') && Mixed(g, s2)
    ensures Dated(g')
  {
    hide Wf, JoinedRing, Cycle, Sorted, InsertAll;
    var l1, l2 := TopsOf(g, s1), TopsOf(g, s2);
    RingFacts(g, s1);
    RingFacts(g, s2);
    JoinedRingFacts(g, s1, s2);
    TopsDated(g, s1, s2);
    assert l2[..|l2|] == l2;
    assert Sorted(g.h.date, l1);
    InsertAllSorted(g.h.date, l1, l2);
    forall t | t in g'.s.tops ensures Sorted(g'.h.date, g'.s.tops[t]) {
      if t !in JoinedRing(g, s1, s2) {
        TopsElsewhere(g, s1, s2, t);
      }
    }
  }

  lemma TopsElsewhere(g: State, s1: Subject, s2: Subject, t: Subject)
    requires Mergeable(g, s1, s2) && Mixed(g, s2) && t in g.s.tops && t !in JoinedRing(g, s1, s2)
    ensures Sorted(g.h.date, g.s.tops[t])
  {
    hide Wf, JoinedRing, Cycle, Sorted;
    RingsOwn(g);
    JoinedRingFacts(g, s1, s2);
    assert t !in g.s.ring[s2] && t in g.s.ring[t];
  }

  /** The merge puts some other article out of order: the thread is mixed up then. */
  lemma MergeMixes(g: State, a: Article, fake: Subject, g': State)
    requires Replaced(g, a, fake) && DatedBut(g, a) && Mergeable(g, fake, Subj(g, a)) && SubjectsKnown(g, Subj(g, a))
    requires Refiled(g, fake, Subj(g, a), |TopsOf(g, Subj(g, a))|, g') && OutOfOrder(g, a, fake)
    ensures MixedBut(g', a, Subj(g, a))
  {
    hide Wf, Grounded, Coherent, Placed, Loose, JoinedRing, Sorted, SortedBut, InsertAll, Clash, Replaced, DatedBut;
    var base, r := Subj(g, a), JoinedRing(g, fake, Subj(g, a));
    MergeOrder(g, a, fake, g');
    RingFacts(g, fake);
    RingFacts(g, base);
    JoinedRingFacts(g, fake, base);
    MergedTops(g, a, fake, g');
    assert base in r;
    assert forall u :: u in r ==> RingAt(g', u) == r;
  }

  /** Only the joined thread can have got out of order. */
  lemma MergedTops(g: State, a: Article, fake: Subject, g': State)
    requires Replaced(g, a, fake) && DatedBut(g, a) && Mergeable(g, fake, Subj(g, a)) && SubjectsKnown(g, Subj(g, a))
    requires Refiled(g, fake, Subj(g, a), |TopsOf(g, Subj(g, a))|, g') && !DatedBut(g', a)
    ensures
      var r := JoinedRing(g, fake, Subj(g, a));
      && (forall p :: p in g'.s.kids ==> SortedBut(g'.h.date, g'.s.kids[p], a))
      && (forall u :: u in g'.s.tops && u !in r ==> SortedBut(g'.h.date, g'.s.tops[u], a))
      && (forall u :: u in g'.s.tops && u in r ==> !SortedBut(g'.h.date, g'.s.tops[u], a))
      && g'.s.tops.Keys == g.s.tops.Keys && g'.s.ring == Fill(g.s.ring, r, r)
  {
    hide Wf, Replaced, JoinedRing, Sorted, SortedBut, InsertAll, InsertedTops;
    var base := Subj(g, a);
    RingFacts(g, fake);
    RingFacts(g, base);
    JoinedRingFacts(g, fake, base);
  }

  // ---- The division into threads ---------------------------------------------------------------------------

  /** The two subjects belong to one thread. */
  ghost predicate Together(g: State, t: Subject, u: Subject) {
    RingAt(g, t) == RingAt(g, u)
  }

  /** The threads of `s1` and `s2` have become one, if they were two, and nothing else has changed
      in how the subjects fall into threads. */
  ghost predicate ThreadsJoined(g0: State, s1: Subject, s2: Subject, g: State) {
    && g.s.ring.Keys == g0.s.ring.Keys
    && (forall t, u :: t in g0.s.ring && u in g0.s.ring ==>
          (Together(g, t, u) <==>
             || Together(g0, t, u)
             || (Together(g0, t, s1) && Together(g0, u, s2))
             || (Together(g0, t, s2) && Together(g0, u, s1))))
  }

  /** The thread an article of subject `base` is led to by references that come to `w`: that of the
      last article that counts, if it belongs to a thread. */
  ghost function LedTo(g: State, table: map<string, Article>, base: Subject, w: Walk): Subject {
    if w.path != [] && Last(w.path) in table && Subj(g, table[Last(w.path)]) != null then Subj(g, table[Last(w.path)])
    else base
  }

  /** Following references that lead to the thread of `led`: the two threads become one; what was
      in date order stays so, and where the thread of `base` was mixed up it stays that way
      exactly if it is not merged into another. */
  ghost predicate OrderAfter(g0: State, base: Subject, led: Subject, again: bool, g: State) {
    && ThreadsJoined(g0, led, base, g) && (Dated(g0) ==> Dated(g))
    && (!again && Mixed(g0, base) ==> if Together(g0, led, base) then Mixed(g, base) else Dated(g))
  }

  lemma NothingJoined(g0: State, s1: Subject, s2: Subject, g: State)
    requires g.s.ring == g0.s.ring && Together(g0, s1, s2)
    ensures ThreadsJoined(g0, s1, s2, g)
  {
    forall t, u | t in g0.s.ring && u in g0.s.ring ensures Together(g, t, u) <==> Together(g0, t, u) {
    }
  }

  lemma JoinedFrom(g0: State, g1: State, s1: Subject, s2: Subject, g: State, g': State)
    requires ThreadsJoined(g1, s1, s2, g) && g1.s.ring == g0.s.ring && g'.s.ring == g.s.ring
    ensures ThreadsJoined(g0, s1, s2, g')
  {
    forall t, u | t in g0.s.ring && u in g0.s.ring
      ensures Together(g', t, u) <==> Together(g0, t, u) || (Together(g0, t, s1) && Together(g0, u, s2))
                                      || (Together(g0, t, s2) && Together(g0, u, s1))
    {
      assert Together(g, t, u) == Together(g', t, u);
      assert Together(g1, t, u) == Together(g0, t, u);
    }
  }

  /** No references lead anywhere else. */
  lemma LedNowhere(g0: State, base: Subject, again: bool, g: State)
    requires OrderKept(g0, g, again) && base in g0.s.ring
    ensures OrderAfter(g0, base, base, again, g)
  {
    hide Dated, Mixed, ThreadsJoined;
    NothingJoined(g0, base, base, g);
  }

  lemma OrderTwice(g0: State, g1: State, again: bool, g: State)
    requires OrderKept(g0, g1, again) && OrderKept(g1, g, false)
    ensures OrderKept(g0, g, again)
  {
    hide Dated, Mixed;
  }

  lemma OrderWalked(g0: State, g1: State, base: Subject, led: Subject, again: bool, g: State)
    requires OrderKept(g0, g1, again) && OrderAfter(g1, base, led, false, g) && base in g0.s.ring
    ensures OrderAfter(g0, base, led, again, g)
  {
    hide Dated, Mixed, ThreadsJoined;
    JoinedFrom(g0, g1, led, base, g, g);
  }

  lemma OrderSettled(g0: State, g1: State, base: Subject, led: Subject, g: State)
    requires OrderAfter(g0, base, led, false, g1) && OrderKept(g1, g, false) && base in g0.s.ring
    ensures OrderAfter(g0, base, led, false, g)
  {
    hide Dated, Mixed, Together;
    JoinedFrom(g0, g0, led, base, g1, g);
  }

  lemma MergeJoins(g: State, s1: Subject, s2: Subject, g': State)
    requires Mergeable(g, s1, s2) && SubjectsKnown(g, s2) && Refiled(g, s1, s2, |TopsOf(g, s2)|, g')
    ensures ThreadsJoined(g, s1, s2, g')
  {
    hide Wf, JoinedRing, InsertedTops, Cycle, Together;
    forall t, u | t in g.s.ring && u in g.s.ring
      ensures Together(g', t, u) <==> Together(g, t, u) || (Together(g, t, s1) && Together(g, u, s2))
                                      || (Together(g, t, s2) && Together(g, u, s1))
    {
      JoinedTogether(g, s1, s2, g', t, u);
    }
  }

  lemma MemberTogether(g: State, t: Subject, u: Subject)
    requires Wf(g.h, g.s) && t in g.s.ring && u in g.s.ring
    ensures Together(g, t, u) <==> t in g.s.ring[u]
    ensures Together(g, t, u) <==> Together(g, u, t)
    ensures t in g.h.thread && t in g.s.ring[t]
  {
    hide Wf;
    WfDomains(g);
    RingFacts(g, t);
    RingFacts(g, u);
  }

  lemma JoinedTogether(g: State, s1: Subject, s2: Subject, g': State, t: Subject, u: Subject)
    requires Mergeable(g, s1, s2) && SubjectsKnown(g, s2) && Refiled(g, s1, s2, |TopsOf(g, s2)|, g')
    requires t in g.s.ring && u in g.s.ring
    ensures Together(g', t, u) <==> Together(g, t, u) || (Together(g, t, s1) && Together(g, u, s2))
                                    || (Together(g, t, s2) && Together(g, u, s1))
  {
    hide Wf, JoinedRing, InsertedTops, Cycle, Together;
    RingFacts(g, s1);
    RingFacts(g, s2);
    MemberTogether(g, t, u);
    MemberTogether(g, t, s1);
    MemberTogether(g, t, s2);
    MemberTogether(g, u, s1);
    MemberTogether(g, u, s2);
    MemberTogether(g, u, t);
    JoinedRingFacts(g, s1, s2);
    var r := JoinedRing(g, s1, s2);
    assert g'.s.ring == Fill(g.s.ring, r, r);
    FilledTogether(g, g', r, t, u);
    if Together(g, t, u) { RingsMeet(g, s1, s2, t, u); }
  }

  lemma FilledTogether(g: State, g': State, r: seq<Subject>, t: Subject, u: Subject)
    requires g'.s.ring == Fill(g.s.ring, r, r) && t in g.s.ring && u in g.s.ring && t in g.s.ring[t] && u in g.s.ring[u]
    ensures Together(g', t, u) <==> (t in r && u in r) || (t !in r && u !in r && Together(g, t, u))
  {
    assert t in g'.s.ring[t] && u in g'.s.ring[u];
  }

  /** Of two subjects of one thread, either both or none are in the joined ring. */
  lemma RingsMeet(g: State, s1: Subject, s2: Subject, t: Subject, u: Subject)
    requires Mergeable(g, s1, s2) && t in g.s.ring && u in g.s.ring && s1 in g.s.ring && s2 in g.s.ring && Together(g, t, u)
    ensures (t in g.s.ring[s1] <==> u in g.s.ring[s1]) && (t in g.s.ring[s2] <==> u in g.s.ring[s2])
    ensures !(t in g.s.ring[s1] && t in g.s.ring[s2])
  {
    hide Wf;
    MemberTogether(g, t, s1);
    MemberTogether(g, u, s1);
    MemberTogether(g, t, s2);
    MemberTogether(g, u, s2);
  }
}
