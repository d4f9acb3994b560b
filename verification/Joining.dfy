/** The theory of merging two threads (libtrn/rt-process.cpp): joining two rings of subjects
    and re-filing the top-level articles of one thread among those of the other. */
module Joining {
  import opened Forest

  ghost function Last<T>(s: seq<T>): T
    requires s != []
  {
    s[|s| - 1]
  }

  lemma NoDupConcat<T>(a: seq<T>, b: seq<T>)
    requires NoDup(a) && NoDup(b) && forall x :: x in a ==> x !in b
    ensures NoDup(a + b)
  {
    var c := a + b;
    forall i, j | 0 <= i < j < |c| ensures c[i] != c[j] {
      if i < |a| && j >= |a| {
        assert c[i] in a && c[j] in b;
      }
    }
  }

  /** Exchanging the successors of one member of each joins two cycles into one. */
  lemma JoinCycles(link: map<Subject, Subject>, a: seq<Subject>, b: seq<Subject>)
    requires Cycle(link, a) && Cycle(link, b) && a != [] && b != [] && forall x :: x in a ==> x !in b
    ensures Cycle(link[Last(b) := a[0]][Last(a) := b[0]], a + b)
  {
    var c, link' := a + b, link[Last(b) := a[0]][Last(a) := b[0]];
    NoDupConcat(a, b);
    forall i | 0 <= i < |c| ensures c[i] in link' && link'[c[i]] == c[Next(i, |c|)] {
      if i < |a| {
        assert c[i] == a[i];
      } else {
        assert c[i] == b[i - |a|];
      }
      assert Last(a) in a && Last(b) in b;
    }
  }

  // ---- The ring after a merge ----------------------------------------------------------------

  ghost predicate Mergeable(g: State, s1: Subject, s2: Subject) {
    && Wf(g.h, g.s) && s1 in g.h.thread && s2 in g.h.thread
    && g.s.ring[s1] != g.s.ring[s2]
  }

  /** A ring, started just behind `t` so that `t` comes last. */
  ghost function RingBehind(r: seq<Subject>, t: Subject): seq<Subject>
    requires t in r
  {
    Rotated(r, IndexOf(r, t) + 1)
  }

  lemma RingBehindCycle(link: map<Subject, Subject>, r: seq<Subject>, t: Subject)
    requires Cycle(link, r) && t in r
    ensures Cycle(link, RingBehind(r, t)) && RingBehind(r, t) != [] && Last(RingBehind(r, t)) == t
    ensures RingBehind(r, t)[0] == link[t]
    ensures forall u :: u in RingBehind(r, t) <==> u in r
  {
    var k := IndexOf(r, t);
    if k + 1 == |r| {
      assert Rotated(r, k + 1) == r;
    } else {
      RotatedCycle(link, r, k + 1);
    }
  }

  lemma RingFacts(g: State, t: Subject)
    requires Wf(g.h, g.s) && t in g.h.thread
    ensures t in g.s.ring && t in g.s.ring[t] && Cycle(g.h.link, g.s.ring[t])
    ensures t in g.h.link && t in g.s.tops
    ensures forall u :: u in g.s.ring[t] ==> (u in g.h.thread && u in g.s.ring && u in g.s.tops)
    ensures forall u :: u in g.s.ring[t] ==> g.s.ring[u] == g.s.ring[t] && g.s.tops[u] == g.s.tops[t]
  {
    assert RingOk(g.h, g.s, t);
  }

  ghost function JoinedRing(g: State, s1: Subject, s2: Subject): seq<Subject>
    requires Mergeable(g, s1, s2)
  {
    RingFacts(g, s1);
    RingFacts(g, s2);
    RingBehind(g.s.ring[s1], s1) + RingBehind(g.s.ring[s2], s2)
  }

  ghost function JoinedBy(h: Links, s: Shape, s1: Subject, s2: Subject, r2: seq<Subject>, r: seq<Subject>): State
    requires s1 in h.thread && s1 in h.link && s2 in h.link && s1 in s.tops && s2 in s.tops
  {
    State(h.(thread := Fill(h.thread, r2, h.thread[s1]), link := h.link[s2 := h.link[s1]][s1 := h.link[s2]]),
          s.(ring := Fill(s.ring, r, r), tops := Fill(s.tops, r2, s.tops[s1]),
             home := map a | a in s.home && a !in s.tops[s2] :: s.home[a]))
  }

  /** Pointers and shape once the rings are joined and every subject of the second thread
      points at the first thread: the second thread's top-level articles are adrift. */
  ghost function Joined(g: State, s1: Subject, s2: Subject): State
    requires Mergeable(g, s1, s2)
  {
    RingFacts(g, s1);
    RingFacts(g, s2);
    JoinedBy(g.h, g.s, s1, s2, g.s.ring[s2], JoinedRing(g, s1, s2))
  }

  lemma JoinedRingFacts(g: State, s1: Subject, s2: Subject)
    requires Mergeable(g, s1, s2)
    ensures
      var r, r1, r2 := JoinedRing(g, s1, s2), g.s.ring[s1], g.s.ring[s2];
      && (forall u :: u in r <==> u in r1 || u in r2)
      && (forall u :: u in r1 ==> u !in r2)
      && (forall u :: u in r ==> u in g.h.thread && u in g.s.ring && u in g.s.tops)
      && Cycle(Joined(g, s1, s2).h.link, r)
  {
    RingFacts(g, s1);
    RingFacts(g, s2);
    var r1, r2 := g.s.ring[s1], g.s.ring[s2];
    RingBehindCycle(g.h.link, r1, s1);
    RingBehindCycle(g.h.link, r2, s2);
    var a, b := RingBehind(r1, s1), RingBehind(r2, s2);
    JoinCycles(g.h.link, a, b);
    assert g.h.link[s2 := g.h.link[s1]][s1 := g.h.link[s2]] == g.h.link[Last(b) := a[0]][Last(a) := b[0]];
  }

  /** What a method that joins the rings finds when it looks around. */
  lemma JoinFacts(g: State, s1: Subject, s2: Subject)
    requires Mergeable(g, s1, s2)
    ensures s1 in g.h.thread && s2 in g.h.thread && s2 in g.s.ring
    ensures
      var r2, h' := g.s.ring[s2], Joined(g, s1, s2).h;
      && s2 in r2 && Cycle(g.h.link, r2) && (forall t :: t in r2 ==> t in g.h.thread) && s1 != s2
      && s1 in g.h.link && s2 in g.h.link
      && h' == g.h.(thread := Fill(g.h.thread, r2, g.h.thread[s1]),
                    link := g.h.link[s2 := g.h.link[s1]][s1 := g.h.link[s2]])
  {
    RingFacts(g, s1);
    RingFacts(g, s2);
  }

  lemma JoinedDomains(g: State, s1: Subject, s2: Subject)
    requires Mergeable(g, s1, s2)
    ensures Domains(Joined(g, s1, s2).h, Joined(g, s1, s2).s) && Targets(Joined(g, s1, s2).h, Joined(g, s1, s2).s)
  {
    var g' := Joined(g, s1, s2);
    RingFacts(g, s1);
    RingFacts(g, s2);
    assert g'.h.link.Keys == g.h.link.Keys && g'.h.thread.Keys == g.h.thread.Keys;
    assert g'.s.ring.Keys == g.s.ring.Keys && g'.s.tops.Keys == g.s.tops.Keys;
    assert g'.s.home.Keys <= g.s.home.Keys;
  }

  lemma JoinedKids(g: State, s1: Subject, s2: Subject, p: Article)
    requires Mergeable(g, s1, s2) && p in g.h.parent
    ensures KidsOk(Joined(g, s1, s2).h, Joined(g, s1, s2).s, p)
  {
    assert KidsOk(g.h, g.s, p) && TopsOk(g.h, g.s, s2);
  }

  lemma JoinedTops(g: State, s1: Subject, s2: Subject, t: Subject)
    requires Mergeable(g, s1, s2) && t in g.h.thread
    ensures TopsOk(Joined(g, s1, s2).h, Joined(g, s1, s2).s, t)
  {
    var g', r := Joined(g, s1, s2), JoinedRing(g, s1, s2);
    RingFacts(g, s1);
    RingFacts(g, s2);
    RingFacts(g, t);
    JoinedRingFacts(g, s1, s2);
    var u := if t in g.s.ring[s2] then s1 else t;
    assert TopsOk(g.h, g.s, u) && TopsOk(g.h, g.s, s2);
    forall q | q in g.s.tops[u]
      ensures q in g'.s.home && g'.s.home[q] in g'.s.ring && g'.s.ring[g'.s.home[q]] == g'.s.ring[t]
    {
      var w := g.s.home[q];
      assert g.s.ring[w] == g.s.ring[u];
      RingFacts(g, w);
      if q in g.s.tops[s2] {
        assert false;
      }
    }
  }

  lemma JoinedRingHere(g: State, s1: Subject, s2: Subject, t: Subject)
    requires Mergeable(g, s1, s2) && t in JoinedRing(g, s1, s2)
    ensures RingOk(Joined(g, s1, s2).h, Joined(g, s1, s2).s, t)
  {
    hide Wf;
    var g', r := Joined(g, s1, s2), JoinedRing(g, s1, s2);
    RingFacts(g, s1);
    JoinedRingFacts(g, s1, s2);
    hide JoinedRing, Cycle;
    forall u | u in r ensures u in g'.s.ring && u in g'.s.tops && g'.s.ring[u] == r && g'.s.tops[u] == g.s.tops[s1] {
    }
  }

  lemma JoinedRingElsewhere(g: State, s1: Subject, s2: Subject, t: Subject)
    requires Mergeable(g, s1, s2) && t in g.h.thread && t !in JoinedRing(g, s1, s2)
    ensures RingOk(Joined(g, s1, s2).h, Joined(g, s1, s2).s, t)
  {
    hide Wf;
    var g', r := Joined(g, s1, s2), JoinedRing(g, s1, s2);
    RingFacts(g, s1);
    RingFacts(g, s2);
    RingFacts(g, t);
    JoinedRingFacts(g, s1, s2);
    hide JoinedRing, Cycle;
    forall u | u in g.s.ring[t] ensures u !in r {
      if u in g.s.ring[s1] || u in g.s.ring[s2] {
        assert false;
      }
    }
    CycleFrame(g.h.link, g'.h.link, g.s.ring[t]);
  }

  lemma JoinedRings(g: State, s1: Subject, s2: Subject, t: Subject)
    requires Mergeable(g, s1, s2) && t in g.h.thread
    ensures RingOk(Joined(g, s1, s2).h, Joined(g, s1, s2).s, t)
  {
    if t in JoinedRing(g, s1, s2) {
      JoinedRingHere(g, s1, s2, t);
    } else {
      JoinedRingElsewhere(g, s1, s2, t);
    }
  }

  lemma CycleFrame(link: map<Subject, Subject>, link': map<Subject, Subject>, r: seq<Subject>)
    requires Cycle(link, r) && forall u :: u in r ==> u in link' && (u in link ==> link'[u] == link[u])
    ensures Cycle(link', r)
  {
  }

  lemma JoinedFiled(g: State, s1: Subject, s2: Subject, a: Article)
    requires Mergeable(g, s1, s2) && a in Joined(g, s1, s2).s.home
    ensures Filed(Joined(g, s1, s2).h, Joined(g, s1, s2).s, a)
  {
    assert Filed(g.h, g.s, a);
    RingFacts(g, s2);
    if g.h.parent[a] == null {
      RingFacts(g, g.s.home[a]);
    }
  }

  lemma JoinKeepsWf(g: State, s1: Subject, s2: Subject)
    requires Mergeable(g, s1, s2)
    ensures Wf(Joined(g, s1, s2).h, Joined(g, s1, s2).s)
  {
    var g' := Joined(g, s1, s2);
    JoinedDomains(g, s1, s2);
    forall p | p in g'.h.parent ensures KidsOk(g'.h, g'.s, p) { JoinedKids(g, s1, s2, p); }
    forall t | t in g'.h.thread ensures TopsOk(g'.h, g'.s, t) { JoinedTops(g, s1, s2, t); }
    forall t | t in g'.h.thread ensures RingOk(g'.h, g'.s, t) { JoinedRings(g, s1, s2, t); }
    forall a | a in g'.s.home ensures Filed(g'.h, g'.s, a) { JoinedFiled(g, s1, s2, a); }
  }

  // ---- Re-filing the articles of the second thread --------------------------------------------

  /** `l1` with the articles of `l2` put in one after the other, as `link_child` does. */
  ghost function InsertAll(date: map<Article, int>, l1: seq<Article>, l2: seq<Article>): (m: seq<Article>)
    requires forall a :: a in l1 + l2 ==> a in date
    ensures forall a :: a in m ==> a in l1 + l2
  {
    if l2 == [] then l1 else
      var n := |l2| - 1;
      assert forall a :: a in l2[..n] ==> a in l2;
      var m := InsertAll(date, l1, l2[..n]);
      assert l2[n] in l2;
      var i := InsertAt(date, m, date[l2[n]]);
      NewMembers(m, i, l2[n]);
      Inserted(m, i, l2[n])
  }

  lemma NewMembers<T>(l: seq<T>, i: nat, x: T)
    requires i <= |l|
    ensures forall y :: y in Inserted(l, i, x) ==> y == x || y in l
  {
  }

  lemma TopsDated(g: State, s1: Subject, s2: Subject)
    requires Mergeable(g, s1, s2)
    ensures s1 in g.s.tops && s2 in g.s.tops
    ensures forall a :: a in g.s.tops[s1] + g.s.tops[s2] ==> a in g.h.date
    ensures forall a :: a in g.s.tops[s2] ==> a in g.h.parent && g.h.parent[a] == null && a in g.s.home && a in g.h.subj
    ensures NoDup(g.s.tops[s2]) && Chain(g.h.sibling, g.h.thread[s2], g.s.tops[s2])
  {
    assert TopsOk(g.h, g.s, s1) && TopsOk(g.h, g.s, s2);
  }

  /** Every top-level article of the second thread has a subject of that thread. */
  ghost predicate SubjectsKnown(g: State, s2: Subject)
    requires Wf(g.h, g.s) && s2 in g.h.thread
  {
    RingFacts(g, s2);
    forall a :: a in g.s.tops[s2] ==> a in g.h.subj && g.h.subj[a] != null && g.h.subj[a] in g.s.ring[s2]
  }

  /** State `g'` is `g` with the rings joined and the first `k` articles of the second
      thread filed in the first. */
  ghost predicate Refiled(g: State, s1: Subject, s2: Subject, k: nat, g': State)
    requires Mergeable(g, s1, s2) && k <= |TopsOf(g, s2)| && SubjectsKnown(g, s2)
  {
    var l2, r := TopsOf(g, s2), JoinedRing(g, s1, s2);
    && g'.h.parent == g.h.parent && g'.h.child1 == g.h.child1 && g'.h.subj == g.h.subj && g'.h.date == g.h.date
    && g'.h.link == Joined(g, s1, s2).h.link && g'.s.ring == Joined(g, s1, s2).s.ring && g'.s.kids == g.s.kids
    && g'.s.tops == Fill(g.s.tops, r, InsertedTops(g, s1, s2, k))
    && g'.s.home == HomesAfter(g.s.home, g.h.subj, l2, k)
    && g'.h.sibling.Keys == g.h.sibling.Keys
    && (forall j :: k <= j < |l2| ==> l2[j] in g'.h.sibling && g'.h.sibling[l2[j]] == At(l2, j + 1))
  }

  ghost function TopsOf(g: State, t: Subject): seq<Article>
    requires Wf(g.h, g.s) && t in g.h.thread
  {
    RingFacts(g, t);
    g.s.tops[t]
  }

  lemma RefiledNone(g: State, s1: Subject, s2: Subject)
    requires Mergeable(g, s1, s2) && SubjectsKnown(g, s2)
    ensures Refiled(g, s1, s2, 0, Joined(g, s1, s2))
  {
    hide Wf, JoinedRing, Cycle, InsertAt, SubjectsKnown;
    var g', r := Joined(g, s1, s2), JoinedRing(g, s1, s2);
    TopsDated(g, s1, s2);
    RingFacts(g, s1);
    JoinedRingFacts(g, s1, s2);
    assert InsertedTops(g, s1, s2, 0) == g.s.tops[s1];
    assert g'.s.tops == Fill(g.s.tops, r, g.s.tops[s1]);
    assert TopsOf(g, s2)[0..] == TopsOf(g, s2);
  }

  lemma NextLinkable(g: State, s1: Subject, s2: Subject, k: nat, g': State)
    requires Mergeable(g, s1, s2) && SubjectsKnown(g, s2) && k < |TopsOf(g, s2)| && Refiled(g, s1, s2, k, g')
    requires Wf(g'.h, g'.s)
    ensures
      var a := TopsOf(g, s2)[k];
      var subject := g.h.subj[a];
      && subject != null && Linkable(g'.h, g'.s, a, subject) && g'.h.parent[a] == null && a in g'.h.date && a in g.h.date
      && RingOf(g', subject) == JoinedRing(g, s1, s2)
      && a in g'.h.sibling && (forall x :: x in SiblingsOf(g', a, subject) ==> x in g'.h.sibling)
      && SiblingsOf(g', a, subject) == InsertedTops(g, s1, s2, k)
      && forall j :: k < j < |TopsOf(g, s2)| ==> TopsOf(g, s2)[j] != a && TopsOf(g, s2)[j] !in SiblingsOf(g', a, subject)
  {
    TopsDated(g, s1, s2);
    JoinedRingFacts(g, s1, s2);
    RingFacts(g, s2);
    var l2 := TopsOf(g, s2);
    var a := l2[k];
    assert a in l2 && a in l2[k..] by { assert l2[k..][0] == a; }
    var subject := g.h.subj[a];
    assert subject in JoinedRing(g, s1, s2);
    ListDated(g'.h, g'.s, null, subject);
    forall j | k < j < |l2| ensures l2[j] != a && l2[j] !in SiblingsOf(g', a, subject) {
      assert l2[k..][j - k] == l2[j];
    }
  }

  /** What the re-filing loop reads before each step. */
  lemma RefiledNext(g: State, s1: Subject, s2: Subject, k: nat, g': State)
    requires Mergeable(g, s1, s2) && SubjectsKnown(g, s2) && k < |TopsOf(g, s2)| && Refiled(g, s1, s2, k, g')
    ensures
      var l2 := TopsOf(g, s2);
      && l2[k] in g'.h.parent && g'.h.parent[l2[k]] == null && l2[k] in g.h.subj
      && g'.h.subj == g.h.subj && l2[k] in g'.h.sibling && g'.h.sibling[l2[k]] == At(l2, k + 1)
  {
    hide Wf, JoinedRing, InsertedTops, HomesAfter;
    TopsDated(g, s1, s2);
    assert TopsOf(g, s2)[k] in TopsOf(g, s2);
  }

  ghost function InsertedTops(g: State, s1: Subject, s2: Subject, k: nat): seq<Article>
    requires Mergeable(g, s1, s2) && k <= |TopsOf(g, s2)|
  {
    TopsDated(g, s1, s2);
    assert forall a :: a in TopsOf(g, s2)[..k] ==> a in TopsOf(g, s2);
    InsertAll(g.h.date, TopsOf(g, s1), TopsOf(g, s2)[..k])
  }

  lemma InsertAllStep(date: map<Article, int>, l1: seq<Article>, l2: seq<Article>, k: nat)
    requires k < |l2| && (forall a :: a in l1 + l2 ==> a in date)
    ensures (forall a :: a in l1 + l2[..k] ==> a in date) && (forall a :: a in l1 + l2[..k + 1] ==> a in date)
    ensures l2[k] in date
    ensures
      var m := InsertAll(date, l1, l2[..k]);
      InsertAll(date, l1, l2[..k + 1]) == Inserted(m, InsertAt(date, m, date[l2[k]]), l2[k])
  {
    assert l2[k] in l1 + l2;
    assert forall a :: a in l2[..k] || a in l2[..k + 1] ==> a in l1 + l2;
    assert l2[..k + 1][..k] == l2[..k];
  }

  lemma InsertedTopsStep(g: State, s1: Subject, s2: Subject, k: nat)
    requires Mergeable(g, s1, s2) && k < |TopsOf(g, s2)|
    ensures
      var l, a := InsertedTops(g, s1, s2, k), TopsOf(g, s2)[k];
      && (forall x :: x in l ==> x in g.h.date) && a in g.h.date
      && InsertedTops(g, s1, s2, k + 1) == Inserted(l, InsertAt(g.h.date, l, g.h.date[a]), a)
  {
    hide Wf, InsertAll, InsertAt;
    TopsDated(g, s1, s2);
    InsertAllStep(g.h.date, TopsOf(g, s1), TopsOf(g, s2), k);
  }

  ghost function HomesAfter(home: map<Article, Subject>, subj: map<Article, Subject?>, l2: seq<Article>, k: nat)
    : map<Article, Subject>
    requires k <= |l2| && forall a :: a in l2 ==> a in subj && subj[a] != null
  {
    map a | a in home && a !in l2[k..] :: if a in l2[..k] then assert a in l2; subj[a] else home[a]
  }

  lemma HomesStep(home: map<Article, Subject>, subj: map<Article, Subject?>, l2: seq<Article>, k: nat)
    requires k < |l2| && NoDup(l2) && (forall a :: a in l2 ==> a in home && a in subj && subj[a] != null)
    ensures HomesAfter(home, subj, l2, k)[l2[k] := subj[l2[k]]] == HomesAfter(home, subj, l2, k + 1)
  {
    assert l2[k..] == [l2[k]] + l2[k + 1..] && l2[..k + 1] == l2[..k] + [l2[k]];
    assert l2[k] in l2;
  }

  lemma RefiledOne(g: State, s1: Subject, s2: Subject, k: nat, g': State)
    requires Mergeable(g, s1, s2) && SubjectsKnown(g, s2) && k < |TopsOf(g, s2)| && Refiled(g, s1, s2, k, g')
    requires Wf(g'.h, g'.s)
    ensures
      var a := TopsOf(g, s2)[k];
      var subject := g.h.subj[a];
      && subject != null && Linkable(g'.h, g'.s, a, subject)
      && Refiled(g, s1, s2, k + 1, AfterLink(g', a, subject))
  {
    hide Wf, InsertAll, InsertAt, Joined, JoinedRing, HomesAfter, Linkable;
    var l2, r := TopsOf(g, s2), JoinedRing(g, s1, s2);
    var a := l2[k];
    var subject := g.h.subj[a];
    NextLinkable(g, s1, s2, k, g');
    AfterLinkFields(g', a, subject);
    InsertedTopsStep(g, s1, s2, k);
    TopsDated(g, s1, s2);
    HomesStep(g.s.home, g.h.subj, l2, k);
    var g'', l, i := AfterLink(g', a, subject), SiblingsOf(g', a, subject), LinkPos(g'.h, g'.s, a, subject);
    assert g''.s.tops == Fill(g.s.tops, r, InsertedTops(g, s1, s2, k + 1));
    forall j | k + 1 <= j < |l2| ensures l2[j] in g''.h.sibling && g''.h.sibling[l2[j]] == At(l2, j + 1) {
      assert i > 0 ==> l[i - 1] in l;
    }
  }
}
