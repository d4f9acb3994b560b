/** Siblings are kept in date order (libtrn/Article.cpp, lines 1131-1174; libtrn/rt-process.cpp). */
module Ordering {
  import opened Forest
  import opened Joining
  import opened Ancestry
  import opened Placing
  import opened Settling
  import opened Detaching

  type Dates = map<Article, int>

  function DateOf(date: Dates, a: Article): int { if a in date then date[a] else 0 }

  ghost predicate Sorted(date: Dates, l: seq<Article>) {
    forall i, j :: 0 <= i < j < |l| ==> DateOf(date, l[i]) <= DateOf(date, l[j])
  }

  /** All lists of siblings are in date order. */
  ghost predicate Dated(g: State) {
    (forall p :: p in g.s.kids ==> Sorted(g.h.date, g.s.kids[p])) && (forall t :: t in g.s.tops ==> Sorted(g.h.date, g.s.tops[t]))
  }

  /** ... when `a` is left out. */
  ghost predicate DatedBut(g: State, a: Article) {
    && (forall p :: p in g.s.kids ==> SortedBut(g.h.date, g.s.kids[p], a))
    && (forall t :: t in g.s.tops ==> SortedBut(g.h.date, g.s.tops[t], a))
  }

  ghost predicate SortedBut(date: Dates, l: seq<Article>, a: Article) {
    forall i, j :: 0 <= i < j < |l| && l[i] != a && l[j] != a ==> DateOf(date, l[i]) <= DateOf(date, l[j])
  }

  lemma DatedIsDatedBut(g: State, a: Article)
    requires Dated(g)
    ensures DatedBut(g, a)
  {
    forall p | p in g.s.kids ensures SortedBut(g.h.date, g.s.kids[p], a) { assert Sorted(g.h.date, g.s.kids[p]); }
    forall t | t in g.s.tops ensures SortedBut(g.h.date, g.s.tops[t], a) { assert Sorted(g.h.date, g.s.tops[t]); }
  }

  // ---- One list -------------------------------------------------------------------------------------

  lemma InsertSorted(date: Dates, l: seq<Article>, a: Article)
    requires Sorted(date, l) && (forall x :: x in l ==> x in date) && a in date
    ensures Sorted(date, Inserted(l, InsertAt(date, l, date[a]), a))
  {
    var i := InsertAt(date, l, date[a]);
    var l' := Inserted(l, i, a);
    forall j, k | 0 <= j < k < |l'| ensures DateOf(date, l'[j]) <= DateOf(date, l'[k]) {
      assert l'[j] == (if j < i then l[j] else if j == i then a else l[j - 1]);
      assert l'[k] == (if k < i then l[k] else if k == i then a else l[k - 1]);
      assert i < |l| ==> l[i] in date;
      assert j < i ==> l[j] in date;
    }
  }

  /** In a sorted list the place is behind exactly those that are not later: the order of
      arrival decides between equal dates. */
  lemma {:induction false} InsertStable(date: Dates, l: seq<Article>, d: int, j: nat)
    requires Sorted(date, l) && (forall x :: x in l ==> x in date) && j < |l|
    ensures j < InsertAt(date, l, d) <==> date[l[j]] <= d
  {
    var i := InsertAt(date, l, d);
    assert l[j] in date;
    if j >= i {
      assert l[i] in date && DateOf(date, l[i]) <= DateOf(date, l[j]);
    }
  }

  lemma WithoutSorted(date: Dates, l: seq<Article>, i: nat)
    requires NoDup(l) && i < |l| && SortedBut(date, l, l[i])
    ensures Sorted(date, Without(l, i))
  {
    var l' := Without(l, i);
    forall j, k | 0 <= j < k < |l'| ensures DateOf(date, l'[j]) <= DateOf(date, l'[k]) {
      assert l'[j] == if j < i then l[j] else l[j + 1];
      assert l'[k] == if k < i then l[k] else l[k + 1];
    }
  }

  /** Taking out what was just put in gives back the list. */
  lemma LinkUnlink(l: seq<Article>, i: nat, a: Article)
    requires i <= |l| && NoDup(l) && a !in l
    ensures IndexOf(Inserted(l, i, a), a) == i && Without(Inserted(l, i, a), i) == l
  {
    var l' := Inserted(l, i, a);
    NoDupInsert(l, i, a);
    var k := IndexOf(l', a);
    assert l'[i] == a && l'[k] == a;
    assert k == i;
  }

  // ---- Merging two lists ------------------------------------------------------------------------------

  /** The stable merge by date: on equal dates the first list goes first. */
  ghost function Merged(date: Dates, l1: seq<Article>, l2: seq<Article>): seq<Article> {
    if l1 == [] then l2
    else if l2 == [] then l1
    else if DateOf(date, l2[0]) < DateOf(date, l1[0]) then [l2[0]] + Merged(date, l1, l2[1..])
    else [l1[0]] + Merged(date, l1[1..], l2)
  }

  lemma {:induction false} MergedMembers(date: Dates, l1: seq<Article>, l2: seq<Article>, x: Article)
    ensures x in Merged(date, l1, l2) <==> x in l1 || x in l2
  {
    if l1 != [] && l2 != [] {
      assert l1 == [l1[0]] + l1[1..] && l2 == [l2[0]] + l2[1..];
      if DateOf(date, l2[0]) < DateOf(date, l1[0]) {
        MergedMembers(date, l1, l2[1..], x);
      } else {
        MergedMembers(date, l1[1..], l2, x);
      }
    }
  }

  lemma {:induction false} MergedSorted(date: Dates, l1: seq<Article>, l2: seq<Article>)
    requires Sorted(date, l1) && Sorted(date, l2)
    ensures Sorted(date, Merged(date, l1, l2))
  {
    if l1 != [] && l2 != [] {
      var m := Merged(date, l1, l2);
      if DateOf(date, l2[0]) < DateOf(date, l1[0]) {
        MergedSorted(date, l1, l2[1..]);
        HeadLeast(date, l1, l2[1..], l2[0]);
      } else {
        MergedSorted(date, l1[1..], l2);
        HeadLeast(date, l1[1..], l2, l1[0]);
      }
    }
  }

  lemma HeadLeast(date: Dates, l1: seq<Article>, l2: seq<Article>, a: Article)
    requires forall i :: 0 <= i < |l1| ==> DateOf(date, a) <= DateOf(date, l1[i])
    requires forall i :: 0 <= i < |l2| ==> DateOf(date, a) <= DateOf(date, l2[i])
    requires Sorted(date, Merged(date, l1, l2))
    ensures Sorted(date, [a] + Merged(date, l1, l2))
  {
    var m := Merged(date, l1, l2);
    forall k | 0 <= k < |m| ensures DateOf(date, a) <= DateOf(date, m[k]) {
      MergedMembers(date, l1, l2, m[k]);
    }
  }

  /** Merging in one more article that is no earlier than the rest is inserting it. */
  lemma {:induction false} MergedSnoc(date: Dates, l1: seq<Article>, l2: seq<Article>, a: Article)
    requires Sorted(date, l1) && Sorted(date, l2 + [a]) && a in date
    requires (forall x :: x in l1 ==> x in date) && (forall x :: x in l2 ==> x in date)
    ensures forall x :: x in Merged(date, l1, l2) ==> x in date
    ensures
      var m := Merged(date, l1, l2);
      Merged(date, l1, l2 + [a]) == Inserted(m, InsertAt(date, m, date[a]), a)
    decreases |l1| + |l2|
  {
    var m, b := Merged(date, l1, l2), l2 + [a];
    forall x | x in m ensures x in date { MergedMembers(date, l1, l2, x); }
    if l1 == [] {
      AllEarlier(date, l2, a);
      assert Merged(date, l1, b) == b;
    } else if l2 == [] {
      MergedOne(date, l1, a);
      assert b == [a];
    } else if DateOf(date, l2[0]) < DateOf(date, l1[0]) {
      assert b[0] == l2[0] && b[1..] == l2[1..] + [a];
      assert Sorted(date, b[1..]);
      MergedSnoc(date, l1, l2[1..], a);
      assert DateOf(date, b[0]) <= DateOf(date, b[|l2|]);
      InsertBehind(date, l2[0], Merged(date, l1, l2[1..]), a);
    } else {
      assert b[0] == l2[0];
      MergedSnoc(date, l1[1..], l2, a);
      assert DateOf(date, b[0]) <= DateOf(date, b[|l2|]);
      InsertBehind(date, l1[0], Merged(date, l1[1..], l2), a);
    }
  }

  lemma InsertBehind(date: Dates, x: Article, m: seq<Article>, a: Article)
    requires x in date && (forall y :: y in m ==> y in date) && a in date && date[x] <= date[a]
    ensures InsertAt(date, [x] + m, date[a]) == 1 + InsertAt(date, m, date[a])
    ensures Inserted([x] + m, 1 + InsertAt(date, m, date[a]), a) == [x] + Inserted(m, InsertAt(date, m, date[a]), a)
  {
    assert ([x] + m)[1..] == m;
  }

  lemma {:induction false} AllEarlier(date: Dates, l: seq<Article>, a: Article)
    requires Sorted(date, l + [a]) && a in date && forall x :: x in l ==> x in date
    ensures InsertAt(date, l, date[a]) == |l| && Inserted(l, |l|, a) == l + [a]
  {
    var b := l + [a];
    var i := InsertAt(date, l, date[a]);
    assert i < |l| ==> l[i] in l && DateOf(date, b[i]) <= DateOf(date, b[|l|]);
  }

  lemma {:induction false} MergedOne(date: Dates, l: seq<Article>, a: Article)
    requires a in date && forall x :: x in l ==> x in date
    ensures Merged(date, l, [a]) == Inserted(l, InsertAt(date, l, date[a]), a)
  {
    if l != [] {
      if DateOf(date, a) < DateOf(date, l[0]) {
        assert [a][1..] == [];
      } else {
        MergedOne(date, l[1..], a);
        InsertBehind(date, l[0], l[1..], a);
        assert [l[0]] + l[1..] == l;
      }
    }
  }

  /** Re-filing the second list article by article is the stable merge of the two. */
  lemma {:induction false} InsertAllIsMerge(date: Dates, l1: seq<Article>, l2: seq<Article>)
    requires Sorted(date, l1) && Sorted(date, l2) && forall a :: a in l1 + l2 ==> a in date
    ensures InsertAll(date, l1, l2) == Merged(date, l1, l2)
  {
    hide Sorted, Merged, InsertAt;
    if l2 == [] {
      MergedNone(date, l1);
    } else {
      var n := |l2| - 1;
      AllButLast(date, l1, l2);
      InsertAllIsMerge(date, l1, l2[..n]);
      MergedSnoc(date, l1, l2[..n], l2[n]);
    }
  }

  lemma AllButLast(date: Dates, l1: seq<Article>, l2: seq<Article>)
    requires Sorted(date, l2) && l2 != [] && forall a :: a in l1 + l2 ==> a in date
    ensures Sorted(date, l2[..|l2| - 1]) && l2[..|l2| - 1] + [l2[|l2| - 1]] == l2 && l2[|l2| - 1] in date
    ensures forall a :: a in l1 + l2[..|l2| - 1] ==> a in date
    ensures (forall a :: a in l1 ==> a in date) && (forall a :: a in l2[..|l2| - 1] ==> a in date)
  {
    assert l2[|l2| - 1] in l1 + l2;
    forall a | a in l1 || a in l2[..|l2| - 1] ensures a in date {
      assert a in l1 + l2;
    }
  }

  lemma MergedNone(date: Dates, l1: seq<Article>)
    ensures Merged(date, l1, []) == l1
  {
  }

  // ---- The whole forest ---------------------------------------------------------------------------------

  lemma ListSorted(g: State, p: Article?, t: Subject)
    requires Dated(g) && (if p == null then t in g.s.tops else p in g.s.kids)
    ensures Sorted(g.h.date, ListOf(g.s, p, t))
  {
  }

  lemma ListSortedBut(g: State, a: Article, p: Article?, t: Subject)
    requires DatedBut(g, a) && (if p == null then t in g.s.tops else p in g.s.kids)
    ensures SortedBut(g.h.date, ListOf(g.s, p, t), a)
  {
  }

  /** `link_child` keeps siblings in date order. */
  lemma LinkDated(g: State, a: Article, subject: Subject)
    requires Wf(g.h, g.s) && Linkable(g.h, g.s, a, subject) && Dated(g)
    ensures Dated(AfterLink(g, a, subject))
  {
    hide Wf, Dated, Sorted;
    WfDomains(g);
    AfterLinkFields(g, a, subject);
    ListDated(g.h, g.s, g.h.parent[a], subject);
    ListSorted(g, g.h.parent[a], subject);
    InsertSorted(g.h.date, SiblingsOf(g, a, subject), a);
    NewListDated(g, RingOf(g, subject), g.h.parent[a], Inserted(SiblingsOf(g, a, subject), LinkPos(g.h, g.s, a, subject), a),
                 AfterLink(g, a, subject));
  }

  lemma NewListDated(g: State, r: seq<Subject>, p: Article?, l': seq<Article>, g': State)
    requires Dated(g) && Sorted(g.h.date, l') && g'.h.date == g.h.date
    requires g'.s.kids == (if p == null then g.s.kids else g.s.kids[p := l'])
    requires g'.s.tops == (if p == null then Fill(g.s.tops, r, l') else g.s.tops)
    ensures Dated(g')
  {
    hide Sorted;
  }

  /** `unlink_child` keeps siblings in date order, even when the article taken out stood out
      of order. */
  lemma UnlinkDated(g: State, a: Article)
    requires Wf(g.h, g.s) && a in g.s.home && DatedBut(g, a)
    ensures Dated(AfterUnlink(g, a))
  {
    hide Wf, DatedBut, SortedBut, Sorted, Dated;
    WfDomains(g);
    AfterUnlinkFields(g, a);
    HomeFacts(g, a);
    var p, l := g.h.parent[a], ListWith(g, a);
    ListDated(g.h, g.s, p, g.s.home[a]);
    ListSortedBut(g, a, p, g.s.home[a]);
    WithoutSorted(g.h.date, l, IndexOf(l, a));
    OthersSorted(g, a, p, HomeRing(g, a), Without(l, IndexOf(l, a)), AfterUnlink(g, a));
  }

  lemma OthersSorted(g: State, a: Article, p: Article?, r: seq<Subject>, l': seq<Article>, g': State)
    requires Wf(g.h, g.s) && a in g.s.home && DatedBut(g, a) && Sorted(g.h.date, l') && g'.h.date == g.h.date
    requires p == g.h.parent[a] && r == HomeRing(g, a) && ListWith(g, a) == ListOf(g.s, p, g.s.home[a])
    requires g'.s.kids == (if p == null then g.s.kids else g.s.kids[p := l'])
    requires g'.s.tops == (if p == null then Fill(g.s.tops, r, l') else g.s.tops)
    ensures Dated(g')
  {
    hide Wf, Sorted;
    HomeFacts(g, a);
    forall q | q in g'.s.kids ensures Sorted(g'.h.date, g'.s.kids[q]) {
      if q != p {
        NotInKids(g, a, q);
        assert SortedBut(g.h.date, g.s.kids[q], a);
        SortedWithout(g.h.date, g.s.kids[q], a);
      }
    }
    forall t | t in g'.s.tops ensures Sorted(g'.h.date, g'.s.tops[t]) {
      if p != null || t !in r {
        NotInTops(g, a, t);
        assert SortedBut(g.h.date, g.s.tops[t], a);
        SortedWithout(g.h.date, g.s.tops[t], a);
      }
    }
  }

  lemma SortedWithout(date: Dates, l: seq<Article>, a: Article)
    requires SortedBut(date, l, a) && a !in l
    ensures Sorted(date, l)
  {
  }

  lemma NotInKids(g: State, a: Article, q: Article)
    requires Wf(g.h, g.s) && a in g.h.parent && q in g.s.kids && q != g.h.parent[a]
    ensures a !in g.s.kids[q]
  {
    assert KidsOk(g.h, g.s, q);
  }

  lemma NotInTops(g: State, a: Article, t: Subject)
    requires Wf(g.h, g.s) && a in g.s.home && a in g.h.parent && t in g.s.tops
    requires g.h.parent[a] != null || t !in HomeRing(g, a)
    ensures a !in g.s.tops[t]
  {
    assert TopsOk(g.h, g.s, t) && RingOk(g.h, g.s, t);
  }

  /** Merging two threads in date order gives one in date order, and its top level is the
      stable merge of theirs. */
  lemma MergeDated(g: State, s1: Subject, s2: Subject, g': State)
    requires Mergeable(g, s1, s2) && SubjectsKnown(g, s2) && Refiled(g, s1, s2, |TopsOf(g, s2)|, g') && Dated(g)
    ensures Dated(g') && s1 in g'.s.tops && g'.s.tops[s1] == Merged(g.h.date, TopsOf(g, s1), TopsOf(g, s2))
    ensures forall t :: t in g.h.thread && (t in g.s.ring[s1] || t in g.s.ring[s2]) ==> t in g'.s.tops && g'.s.tops[t] == g'.s.tops[s1]
  {
    hide Wf, JoinedRing, Cycle, Sorted, InsertAll;
    var l1, l2 := TopsOf(g, s1), TopsOf(g, s2);
    RingFacts(g, s1);
    RingFacts(g, s2);
    JoinedRingFacts(g, s1, s2);
    TopsDated(g, s1, s2);
    assert l2[..|l2|] == l2;
    assert Sorted(g.h.date, l1) && Sorted(g.h.date, l2);
    InsertAllIsMerge(g.h.date, l1, l2);
    MergedSorted(g.h.date, l1, l2);
  }

  // ---- The other changes ----------------------------------------------------------------------------------

  /** Parents, subjects, and dates of unlinked articles do not matter to the order. */
  lemma SetDated(g: State, x: Article, y: Article?, t: Subject?)
    ensures Dated(SetParent(g, x, y)) == Dated(g) && Dated(SetSubj(g, x, t)) == Dated(g)
    ensures Dated(ClearSibling(g, x)) == Dated(g)
  {
    hide Sorted;
    assert Dated(g) ==> Dated(SetParent(g, x, y)) && Dated(SetSubj(g, x, t)) && Dated(ClearSibling(g, x));
    assert Dated(SetParent(g, x, y)) || Dated(SetSubj(g, x, t)) || Dated(ClearSibling(g, x)) ==> Dated(g);
  }

  lemma SetDateDated(g: State, x: Article, d: int)
    requires Wf(g.h, g.s) && x !in g.s.home && Dated(g)
    ensures Dated(SetDate(g, x, d))
  {
    hide Wf;
    var g' := SetDate(g, x, d);
    WfDomains(g);
    forall p | p in g'.s.kids ensures Sorted(g'.h.date, g'.s.kids[p]) {
      KidsLinked(g, p);
      assert Sorted(g.h.date, g.s.kids[p]);
    }
    forall t | t in g'.s.tops ensures Sorted(g'.h.date, g'.s.tops[t]) {
      TopsLinked(g, t);
      assert Sorted(g.h.date, g.s.tops[t]);
    }
  }

  lemma KidsLinked(g: State, p: Article)
    requires Wf(g.h, g.s) && p in g.s.kids
    ensures forall q :: q in g.s.kids[p] ==> q in g.s.home && q in g.h.parent
  {
    assert KidsOk(g.h, g.s, p);
  }

  lemma TopsLinked(g: State, t: Subject)
    requires Wf(g.h, g.s) && t in g.s.tops
    ensures forall q :: q in g.s.tops[t] ==> q in g.s.home && q in g.h.parent
  {
    assert TopsOk(g.h, g.s, t);
  }

  lemma AddedDated(g: State, f: Article)
    requires Wf(g.h, g.s) && f !in g.h.parent && Dated(g)
    ensures Dated(Added(g, f))
  {
    hide Wf;
    var g' := Added(g, f);
    WfDomains(g);
    forall p | p in g'.s.kids ensures Sorted(g'.h.date, g'.s.kids[p]) {
      if p != f {
        KidsLinked(g, p);
        assert Sorted(g.h.date, g.s.kids[p]);
      }
    }
    forall t | t in g'.s.tops ensures Sorted(g'.h.date, g'.s.tops[t]) {
      TopsLinked(g, t);
      assert Sorted(g.h.date, g.s.tops[t]);
    }
  }

  // ---- Merging while one article stands out of order ----------------------------------------------------

  /** `y` stands behind `a` in `l`. */
  ghost predicate Behind(l: seq<Article>, a: Article, y: Article) {
    exists i, j :: 0 <= i < j < |l| && l[i] == a && l[j] == y
  }

  /** Filing the second list into the first, where `a` may be out of order, puts some `z` of the
      second in front of some earlier `y` behind `a`: the date test stops at `a`. */
  ghost predicate Clash(date: Dates, l1: seq<Article>, l2: seq<Article>, a: Article) {
    exists i, j :: 0 <= i < |l1| && 0 <= j < |l2| && Clashing(date, l1, l2, a, l1[i], l2[j])
  }

  lemma ClashingIsClash(date: Dates, l1: seq<Article>, l2: seq<Article>, a: Article, y: Article, z: Article)
    requires Clashing(date, l1, l2, a, y, z)
    ensures Clash(date, l1, l2, a)
  {
    var i, j :| 0 <= i < j < |l1| && l1[i] == a && l1[j] == y;
    var k :| 0 <= k < |l2| && l2[k] == z;
    assert Clashing(date, l1, l2, a, l1[j], l2[k]);
  }

  ghost predicate Clashing(date: Dates, l1: seq<Article>, l2: seq<Article>, a: Article, y: Article, z: Article) {
    z in l2 && Behind(l1, a, y) && DateOf(date, y) < DateOf(date, z) < DateOf(date, a)
  }

  /** `m` is `front + [a] + back`: in order but for `a`, and what came from `l2` to the back is
      no earlier than `a`. */
  ghost predicate Parted(date: Dates, l1: seq<Article>, l2: seq<Article>, a: Article, front: seq<Article>, back: seq<Article>,
                         m: seq<Article>) {
    && m == front + [a] + back && a !in front && a !in back && Sorted(date, front + back)
    && forall y :: y in back ==> Behind(l1, a, y) || (y in l2 && DateOf(date, y) >= DateOf(date, a))
  }

  lemma PartedStart(date: Dates, l1: seq<Article>, a: Article) returns (front: seq<Article>, back: seq<Article>)
    requires NoDup(l1) && a in l1 && SortedBut(date, l1, a)
    ensures Parted(date, l1, [], a, front, back, l1)
  {
    hide Sorted, SortedBut, Behind;
    var i :| 0 <= i < |l1| && l1[i] == a;
    front, back := l1[..i], l1[i + 1..];
    assert l1 == front + [a] + back;
    forall y | y in back ensures Behind(l1, a, y) {
      var j :| 0 <= j < |back| && back[j] == y;
      BehindAt(l1, a, i, i + 1 + j);
    }
    assert front + back == Without(l1, i);
    WithoutSorted(date, l1, i);
  }

  lemma BehindAt(l: seq<Article>, a: Article, i: nat, j: nat)
    requires i < j < |l| && l[i] == a
    ensures Behind(l, a, l[j])
  {
  }

  lemma InsertedLeft<T>(front: seq<T>, a: T, back: seq<T>, j: nat, z: T)
    requires j <= |front|
    ensures Inserted(front + [a] + back, j, z) == Inserted(front, j, z) + [a] + back
    ensures Inserted(front + back, j, z) == Inserted(front, j, z) + back
  {
    assert (front + [a] + back)[..j] == front[..j] && (front + [a] + back)[j..] == front[j..] + [a] + back;
    assert (front + back)[..j] == front[..j] && (front + back)[j..] == front[j..] + back;
  }

  lemma InsertedRight<T>(front: seq<T>, a: T, back: seq<T>, j: nat, z: T)
    requires j <= |back|
    ensures Inserted(front + [a] + back, |front| + 1 + j, z) == front + [a] + Inserted(back, j, z)
    ensures Inserted(front + back, |front| + j, z) == front + Inserted(back, j, z)
  {
    var m, w, f := front + [a] + back, front + back, |front|;
    assert m[..f + 1 + j] == front + [a] + back[..j] && m[f + 1 + j..] == back[j..];
    assert w[..f + j] == front + back[..j] && w[f + j..] == back[j..];
  }

  /** One more article filed. */
  lemma PartedStep(date: Dates, l1: seq<Article>, l2: seq<Article>, a: Article, front: seq<Article>, back: seq<Article>,
                   m: seq<Article>, z: Article) returns (front': seq<Article>, back': seq<Article>)
    requires Parted(date, l1, l2, a, front, back, m) && z != a && z in date && (forall x :: x in m ==> x in date)
    requires (forall y :: y in l2 ==> DateOf(date, y) <= DateOf(date, z))
    requires forall y :: Behind(l1, a, y) ==> !(DateOf(date, y) < DateOf(date, z) < DateOf(date, a))
    ensures Parted(date, l1, l2 + [z], a, front', back', Inserted(m, InsertAt(date, m, date[z]), z))
  {
    hide Sorted, InsertAt, Inserted, Behind, DateOf;
    var j, f := InsertAt(date, m, date[z]), |front|;
    if j <= f {
      front', back' := Inserted(front, j, z), back;
      NewMembers(front, j, z);
      InsertedLeft(front, a, back, j, z);
      PartedFront(date, l1, l2, a, front, back, m, z, j);
    } else {
      front', back' := front, Inserted(back, j - f - 1, z);
      NewMembers(back, j - f - 1, z);
      InsertedRight(front, a, back, j - f - 1, z);
      PartedBack(date, front, a, back, m, z, j);
    }
  }

  lemma InsertInOrder(date: Dates, w: seq<Article>, j: nat, z: Article)
    requires Sorted(date, w) && j <= |w|
    requires forall p :: 0 <= p < j ==> DateOf(date, w[p]) <= DateOf(date, z)
    requires forall p :: j <= p < |w| ==> DateOf(date, z) <= DateOf(date, w[p])
    ensures Sorted(date, Inserted(w, j, z))
  {
    var w' := Inserted(w, j, z);
    forall p, q | 0 <= p < q < |w'| ensures DateOf(date, w'[p]) <= DateOf(date, w'[q]) {
      assert w'[p] == if p < j then w[p] else if p == j then z else w[p - 1];
      assert w'[q] == if q < j then w[q] else if q == j then z else w[q - 1];
    }
  }

  lemma PartedFront(date: Dates, l1: seq<Article>, l2: seq<Article>, a: Article, front: seq<Article>, back: seq<Article>,
                    m: seq<Article>, z: Article, j: nat)
    requires Parted(date, l1, l2, a, front, back, m) && z in date && (forall x :: x in m ==> x in date)
    requires (forall y :: y in l2 ==> DateOf(date, y) <= DateOf(date, z))
    requires forall y :: Behind(l1, a, y) ==> !(DateOf(date, y) < DateOf(date, z) < DateOf(date, a))
    requires j == InsertAt(date, m, date[z]) && j <= |front|
    ensures Sorted(date, Inserted(front + back, j, z))
  {
    var w, f := front + back, |front|;
    forall p | 0 <= p < j ensures DateOf(date, w[p]) <= DateOf(date, z) {
      assert w[p] == m[p] && m[p] in m;
    }
    assert m[j] in m && date[z] < date[m[j]];
    forall p | j <= p < |w| ensures DateOf(date, z) <= DateOf(date, w[p]) {
      if j < f {
        assert w[j] == m[j];
      } else {
        assert m[j] == a && w[p] == back[p - f] && back[p - f] in back;
      }
    }
    InsertInOrder(date, w, j, z);
  }

  lemma WithoutAt<T>(front: seq<T>, a: T, back: seq<T>, p: nat)
    requires p < |front + back|
    ensures (front + back)[p] == (front + [a] + back)[if p < |front| then p else p + 1]
  {
  }

  /** Where the date test stops. */
  lemma InsertAtReads(date: Dates, m: seq<Article>, z: Article, p: nat)
    requires z in date && (forall x :: x in m ==> x in date) && p < |m|
    ensures p < InsertAt(date, m, date[z]) ==> DateOf(date, m[p]) <= DateOf(date, z)
    ensures p == InsertAt(date, m, date[z]) ==> DateOf(date, z) < DateOf(date, m[p])
  {
    assert m[p] in m;
  }

  lemma PartedBack(date: Dates, front: seq<Article>, a: Article, back: seq<Article>, m: seq<Article>, z: Article, j: nat)
    requires m == front + [a] + back && Sorted(date, front + back) && z in date && (forall x :: x in m ==> x in date)
    requires j == InsertAt(date, m, date[z]) && j > |front|
    ensures Sorted(date, Inserted(front + back, j - 1, z)) && DateOf(date, a) <= DateOf(date, z)
  {
    hide InsertAt, DateOf, Inserted;
    var w, f := front + back, |front|;
    InsertAtReads(date, m, z, f);
    forall p | 0 <= p < j - 1 ensures DateOf(date, w[p]) <= DateOf(date, z) {
      WithoutAt(front, a, back, p);
      InsertAtReads(date, m, z, if p < f then p else p + 1);
    }
    forall p | j - 1 <= p < |w| ensures DateOf(date, z) <= DateOf(date, w[p]) {
      WithoutAt(front, a, back, j - 1);
      InsertAtReads(date, m, z, j);
      assert DateOf(date, w[j - 1]) <= DateOf(date, w[p]) || p == j - 1;
    }
    InsertInOrder(date, w, j - 1, z);
  }

  lemma ClashGrows(date: Dates, l1: seq<Article>, l2: seq<Article>, a: Article)
    requires l2 != [] && Clash(date, l1, l2[..|l2| - 1], a)
    ensures Clash(date, l1, l2, a)
  {
    var rest := l2[..|l2| - 1];
    var i, j :| 0 <= i < |l1| && 0 <= j < |rest| && Clashing(date, l1, rest, a, l1[i], rest[j]);
    assert l2[j] == rest[j];
    ClashingIsClash(date, l1, l2, a, l1[i], l2[j]);
  }

  /** Without a clash the result is in order but for `a`. */
  lemma {:induction false} NoClashParted(date: Dates, l1: seq<Article>, l2: seq<Article>, a: Article)
    returns (front: seq<Article>, back: seq<Article>)
    requires NoDup(l1) && a in l1 && a !in l2 && SortedBut(date, l1, a) && Sorted(date, l2)
    requires (forall x :: x in l1 + l2 ==> x in date) && !Clash(date, l1, l2, a)
    ensures Parted(date, l1, l2, a, front, back, InsertAll(date, l1, l2))
  {
    if l2 == [] {
      front, back := PartedStart(date, l1, a);
    } else {
      var n := |l2| - 1;
      var rest, z := l2[..n], l2[n];
      AllButLast(date, l1, l2);
      if Clash(date, l1, rest, a) { ClashGrows(date, l1, l2, a); }
      front, back := NoClashParted(date, l1, rest, a);
      forall y | y in rest ensures DateOf(date, y) <= DateOf(date, z) {
        var i :| 0 <= i < n && rest[i] == y;
        assert l2[i] == y;
      }
      forall y | Behind(l1, a, y) ensures !(DateOf(date, y) < DateOf(date, z) < DateOf(date, a)) {
        if Clashing(date, l1, l2, a, y, z) {
          ClashingIsClash(date, l1, l2, a, y, z);
        }
      }
      front, back := PartedStep(date, l1, rest, a, front, back, InsertAll(date, l1, rest), z);
      assert rest + [z] == l2;
    }
  }

  lemma InFrontKept(l: seq<Article>, x: Article, w: Article, i: nat, z: Article)
    requires Behind(l, x, w) && i <= |l|
    ensures Behind(Inserted(l, i, z), x, w)
  {
    var p, q :| 0 <= p < q < |l| && l[p] == x && l[q] == w;
    var l' := Inserted(l, i, z);
    assert l'[if p < i then p else p + 1] == x && l'[if q < i then q else q + 1] == w;
  }

  /** A clash puts the later article in front of the earlier one. */
  lemma {:induction false} ClashInFront(date: Dates, l1: seq<Article>, l2: seq<Article>, a: Article, y: Article, z: Article)
    requires a in date && z in date && (forall x :: x in l1 + l2 ==> x in date) && Behind(l1, a, y)
    ensures Behind(InsertAll(date, l1, l2), a, y)
    ensures z in l2 && DateOf(date, z) < DateOf(date, a) ==> Behind(InsertAll(date, l1, l2), z, y)
  {
    hide Behind, InsertAt, Inserted;
    if l2 != [] {
      var n := |l2| - 1;
      AllButAny(date, l1, l2);
      ClashInFront(date, l1, l2[..n], a, y, z);
      var m, x := InsertAll(date, l1, l2[..n]), l2[n];
      var i := InsertAt(date, m, date[x]);
      InFrontKept(m, a, y, i, x);
      if DateOf(date, z) < DateOf(date, a) {
        if z in l2[..n] {
          InFrontKept(m, z, y, i, x);
        } else if z == x {
          FiledInFront(date, m, a, y, z);
        }
      }
      assert l2 == l2[..n] + [x];
    }
  }

  lemma FiledInFront(date: Dates, m: seq<Article>, a: Article, y: Article, z: Article)
    requires Behind(m, a, y) && (forall x :: x in m ==> x in date) && a in date && z in date && date[z] < date[a]
    ensures Behind(Inserted(m, InsertAt(date, m, date[z]), z), z, y)
  {
    var i := InsertAt(date, m, date[z]);
    var p, q :| 0 <= p < q < |m| && m[p] == a && m[q] == y;
    var m' := Inserted(m, i, z);
    assert i <= p;
    assert m'[i] == z && m'[q + 1] == y;
  }

  lemma AllButAny(date: Dates, l1: seq<Article>, l2: seq<Article>)
    requires l2 != [] && forall x :: x in l1 + l2 ==> x in date
    ensures (forall x :: x in l1 + l2[..|l2| - 1] ==> x in date) && l2[|l2| - 1] in date
  {
    assert l2[|l2| - 1] in l1 + l2;
    forall x | x in l1 + l2[..|l2| - 1] ensures x in date {
      assert x in l1 + l2;
    }
  }

  /** Merging keeps all but `a` in order exactly when nothing clashes. */
  lemma MergeOrderIff(date: Dates, l1: seq<Article>, l2: seq<Article>, a: Article)
    requires NoDup(l1) && a in l1 && a !in l2 && SortedBut(date, l1, a) && Sorted(date, l2)
    requires forall x :: x in l1 + l2 ==> x in date
    ensures SortedBut(date, InsertAll(date, l1, l2), a) <==> !Clash(date, l1, l2, a)
  {
    var m := InsertAll(date, l1, l2);
    assert a in l1 + l2;
    if Clash(date, l1, l2, a) {
      var i, j :| 0 <= i < |l1| && 0 <= j < |l2| && Clashing(date, l1, l2, a, l1[i], l2[j]);
      var y, z := l1[i], l2[j];
      assert z in l1 + l2;
      ClashInFront(date, l1, l2, a, y, z);
      var p, q :| 0 <= p < q < |m| && m[p] == z && m[q] == y;
      assert m[p] != a && m[q] != a by { NotItself(l1, a, y); }
    } else {
      var front, back := NoClashParted(date, l1, l2, a);
      PartedSorted(date, front, a, back, m);
    }
  }

  lemma NotItself(l: seq<Article>, a: Article, y: Article)
    requires NoDup(l) && Behind(l, a, y)
    ensures y != a
  {
  }

  lemma PartedSorted(date: Dates, front: seq<Article>, a: Article, back: seq<Article>, m: seq<Article>)
    requires m == front + [a] + back && Sorted(date, front + back)
    ensures SortedBut(date, m, a)
  {
    var w, f := front + back, |front|;
    forall p, q | 0 <= p < q < |m| && m[p] != a && m[q] != a ensures DateOf(date, m[p]) <= DateOf(date, m[q]) {
      assert m[p] == w[if p < f then p else p - 1] && m[q] == w[if q < f then q else q - 1];
    }
  }

  // ---- Merging the threads of a fake and of the article in its place --------------------------------------

  ghost function Tops(g: State, t: Subject?): seq<Article> {
    if t != null && t in g.s.tops then g.s.tops[t] else []
  }

  /** Merging the threads leaves some article out of date order: the threads are two, the
      article that replaced the fake is at the top, and its date hides an earlier article
      behind it from a later one of its own subject's thread. */
  ghost predicate OutOfOrder(g: State, a: Article, fake: Subject) {
    && RingAt(g, fake) != RingAt(g, Subj(g, a)) && Par(g, a) == null
    && Clash(g.h.date, Tops(g, fake), Tops(g, Subj(g, a)), a)
  }

  /** Where `a` stands among the articles to be merged. */
  lemma TopsOfFake(g: State, a: Article, fake: Subject)
    requires Replaced(g, a, fake) && Mergeable(g, fake, Subj(g, a))
    ensures a in g.h.parent && fake in g.s.tops && Subj(g, a) in g.s.tops
    ensures Par(g, a) == null <==> a in TopsOf(g, fake)
    ensures a !in TopsOf(g, Subj(g, a)) && NoDup(TopsOf(g, fake))
    ensures forall t :: t in g.s.tops && t !in JoinedRing(g, fake, Subj(g, a)) ==> a !in g.s.tops[t]
  {
    hide Wf, Grounded, JoinedRing;
    var base := Subj(g, a);
    HomeFacts(g, a);
    RingFacts(g, fake);
    RingFacts(g, base);
    SubjectKnown(g, a);
    JoinedRingFacts(g, fake, base);
    TopsDup(g, fake);
    if Par(g, a) == null {
      SameRingSameTops(g, g.s.home[a], fake);
    } else if a in TopsOf(g, fake) {
      TopsAreTop(g, fake, a);
    }
    if a in TopsOf(g, base) {
      TopsHomes(g, base, a);
    }
    forall t | t in g.s.tops && t !in JoinedRing(g, fake, base) ensures a !in g.s.tops[t] {
      WfDomains(g);
      if a in g.s.tops[t] {
        TopsHomes(g, t, a);
        RingFacts(g, t);
      }
    }
  }

  lemma TopsDup(g: State, t: Subject)
    requires Wf(g.h, g.s) && t in g.h.thread
    ensures NoDup(TopsOf(g, t))
  {
    assert TopsOk(g.h, g.s, t);
  }

  /** Where all but `a` are in order, lists without `a` are. */
  lemma ListWithout(g: State, a: Article, t: Subject)
    requires DatedBut(g, a) && t in g.s.tops
    ensures SortedBut(g.h.date, g.s.tops[t], a) && (a !in g.s.tops[t] ==> Sorted(g.h.date, g.s.tops[t]))
  {
    hide Sorted, SortedBut;
    assert SortedBut(g.h.date, g.s.tops[t], a);
    if a !in g.s.tops[t] {
      SortedWithout(g.h.date, g.s.tops[t], a);
    }
  }

  lemma SortedIsBut(date: Dates, l: seq<Article>, a: Article)
    requires Sorted(date, l)
    ensures SortedBut(date, l, a)
  {
  }

  /** The merge keeps everything but the article in date order exactly unless `OutOfOrder`. */
  lemma MergeOrder(g: State, a: Article, fake: Subject, g': State)
    requires Replaced(g, a, fake) && DatedBut(g, a) && Mergeable(g, fake, Subj(g, a)) && SubjectsKnown(g, Subj(g, a))
    requires Refiled(g, fake, Subj(g, a), |TopsOf(g, Subj(g, a))|, g')
    ensures DatedBut(g', a) <==> !OutOfOrder(g, a, fake)
  {
    hide Wf, Grounded, Coherent, Placed, Loose, JoinedRing, Sorted, SortedBut, InsertAll, Clash;
    var base, date := Subj(g, a), g.h.date;
    var l1, l2, r := TopsOf(g, fake), TopsOf(g, base), JoinedRing(g, fake, base);
    TopsOfFake(g, a, fake);
    TopsDated(g, fake, base);
    RingFacts(g, fake);
    JoinedRingFacts(g, fake, base);
    ListWithout(g, a, fake);
    ListWithout(g, a, base);
    assert l2[..|l2|] == l2;
    var m := InsertAll(date, l1, l2);
    if Par(g, a) == null {
      MergeOrderIff(date, l1, l2, a);
    } else {
      InsertAllIsMerge(date, l1, l2);
      MergedSorted(date, l1, l2);
      SortedIsBut(date, m, a);
    }
    assert g'.s.tops == Fill(g.s.tops, r, m) && fake in r;
    forall t | t in g'.s.tops && t !in r ensures SortedBut(date, g'.s.tops[t], a) {
      ListWithout(g, a, t);
    }
    assert DatedBut(g', a) <==> SortedBut(date, m, a);
  }

  /** Taking out the one article that may be out of order leaves order exactly if it was the
      only one. */
  lemma UnlinkDatedIff(g: State, a: Article)
    requires Wf(g.h, g.s) && a in g.s.home
    ensures Dated(AfterUnlink(g, a)) <==> DatedBut(g, a)
  {
    hide Wf, DatedBut, Dated, AfterUnlink;
    if DatedBut(g, a) {
      UnlinkDated(g, a);
    }
    if Dated(AfterUnlink(g, a)) {
      OrderedBefore(g, a);
    }
  }

  lemma OrderedBefore(g: State, a: Article)
    requires Wf(g.h, g.s) && a in g.s.home && Dated(AfterUnlink(g, a))
    ensures DatedBut(g, a)
  {
    hide Wf, Sorted, SortedBut, AfterUnlink;
    WfDomains(g);
    AfterUnlinkFields(g, a);
    HomeFacts(g, a);
    var g', p, r, l := AfterUnlink(g, a), g.h.parent[a], HomeRing(g, a), ListWith(g, a);
    ListDated(g.h, g.s, p, g.s.home[a]);
    RingFacts(g, g.s.home[a]);
    var l' := Without(l, IndexOf(l, a));
    forall q | q in g.s.kids ensures SortedBut(g.h.date, g.s.kids[q], a) {
      assert q in g'.s.kids && Sorted(g'.h.date, g'.s.kids[q]);
      if q == p {
        SortedAround(g.h.date, l, IndexOf(l, a));
      } else {
        SortedIsBut(g.h.date, g.s.kids[q], a);
      }
    }
    forall t | t in g.s.tops ensures SortedBut(g.h.date, g.s.tops[t], a) {
      assert t in g'.s.tops && Sorted(g'.h.date, g'.s.tops[t]);
      if p == null && t in r {
        SortedAround(g.h.date, l, IndexOf(l, a));
      } else {
        SortedIsBut(g.h.date, g.s.tops[t], a);
      }
    }
  }

  lemma SortedAround(date: Dates, l: seq<Article>, i: nat)
    requires i < |l| && Sorted(date, Without(l, i))
    ensures SortedBut(date, l, l[i])
  {
    var l' := Without(l, i);
    forall p, q | 0 <= p < q < |l| && l[p] != l[i] && l[q] != l[i] ensures DateOf(date, l[p]) <= DateOf(date, l[q]) {
      assert l[p] == l'[if p < i then p else p - 1] && l[q] == l'[if q < i then q else q - 1];
    }
  }
}
