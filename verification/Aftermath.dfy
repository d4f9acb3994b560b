/** What `thread_article` does after the walk over the references (libtrn/Article.cpp, lines
    1052-1108), as relations between any pointers: joining the two threads, handing out the
    subject, the climb, and the branch that is cut off. Nothing of it unties a knot. */
module Aftermath {
  import opened Forest
  import opened Joining
  import opened Ancestry
  import opened Placing
  import opened References
  import opened Walking
  import opened Pointers
  import opened Repeats

  // ---- merge_threads ------------------------------------------------------------------

  /** A merge: the length of the second ring, the articles linked again, and how things stand
      after each. */
  datatype Merge = Merge(n: nat, ts: seq<Article>, hs: seq<Links>)

  ghost function Swapped(h: Links, s1: Subject, s2: Subject, n: nat): Links
    requires s1 in h.thread && s1 in h.link && s2 in h.link
  {
    h.(thread := Fill(h.thread, Round(h.link, s2, n), h.thread[s1]), link := h.link[s2 := h.link[s1]][s1 := h.link[s2]])
  }

  /** The article to be linked after the first `j`. */
  ghost function NextTop(h: Links, s2: Subject, m: Merge, j: nat): Article?
    requires s2 in h.thread && j <= |m.ts| < |m.hs|
  {
    if j == 0 then h.thread[s2]
    else if m.ts[j - 1] in m.hs[j - 1].sibling then m.hs[j - 1].sibling[m.ts[j - 1]] else null
  }

  ghost predicate Merges(h: Links, s1: Subject, s2: Subject, m: Merge, h': Links) {
    && s1 in h.thread && s1 in h.link && s2 in h.thread && s2 in h.link && ComesBack(h.link, s2, m.n)
    && |m.hs| == |m.ts| + 1 && m.hs[0] == Swapped(h, s1, s2, m.n) && m.hs[|m.ts|] == h'
    && (forall j: nat, i :: j < |m.ts| && i == j + 1 ==> m.ts[j] == NextTop(h, s2, m, j) && LinksIn(m.hs[j], m.ts[j], m.hs[i]))
    && NextTop(h, s2, m, |m.ts|) == null
  }

  // ---- Handing out the subject, the climb, the cut --------------------------------------------------------

  /** The first `m - 1` articles above `a` have got its subject. */
  ghost function Given(h: Links, a: Article, base: Subject, m: nat): Links {
    if m <= 1 then h else
      var g, x := Given(h, a, base, m - 1), Up(h.parent, a, m - 1);
      if x == null || x !in g.subj then g else g.(subj := g.subj[x := base])
  }

  /** ... as far as they had none. */
  ghost predicate Gives(h: Links, a: Article, base: Subject, m: nat, h': Links) {
    && m >= 1 && h' == Given(h, a, base, m)
    && (forall j: nat :: 1 <= j < m ==> Lacks(Given(h, a, base, j), Up(h.parent, a, j)))
    && !Lacks(h', Up(h.parent, a, m))
  }

  ghost predicate Lacks(h: Links, x: Article?) {
    x != null && SubjIn(h, x) == null
  }

  ghost predicate Climbs(p: ParentMap, start: Article?, a: Article, n: nat, c: Article?) {
    && c == Up(p, start, n) && (c != null ==> c in p && p[c] == a)
    && forall j: nat :: j < n ==> !Arrives(p, Up(p, start, j), a)
  }

  ghost predicate Arrives(p: ParentMap, x: Article?, a: Article) {
    x == null || (x in p && p[x] == a)
  }

  ghost predicate Cuts(h: Links, c: Article, h1: Links, h': Links) {
    Unlinks(h, c, h1) && c in h1.parent && LinksIn(h1.(parent := h1.parent[c := null]), c, h')
  }

  /** All that is between the end of the walk and the end of the call. */
  datatype Rest = Rest(h1: Links, merge: Merge, m: nat, h2: Links, n: nat, c: Article?, h3: Links)

  /** One completed call from the end of the walk `v` on. */
  ghost predicate Finishes(v: Walker, a: Article, base: Subject, rethreading: bool, r: Rest, h': Links) {
    if v.ap == null then
      if rethreading then h' == v.h else LinksIn(v.h, a, h')
    else
      && Joins(v.h, v.ap, base, r) && Gives(r.h1, a, base, r.m, r.h2)
      && Climbs(r.h2.parent, Up(r.h2.parent, a, r.m), a, r.n, r.c)
      && (if r.c == null then h' == r.h2 else Cuts(r.h2, r.c, r.h3, h'))
  }

  ghost predicate Joins(h: Links, ap: Article, base: Subject, r: Rest) {
    var led := SubjIn(h, ap);
    if led != null then
      && led in h.thread && base in h.thread
      && if h.thread[base] != h.thread[led] then Merges(h, led, base, r.merge, r.h1) else r.h1 == h
    else LinksIn(h.(subj := h.subj[ap := base]), ap, r.h1)
  }

  // ---- What keeps a knot tight ----------------------------------------------------------------------------

  /** The knot, and that nothing but `v[k]` leads to where it closes. */
  ghost predicate Bound(h: Links, v: seq<Article>, k: nat, i: nat, linked: set<Article>) {
    && Tight(h, v, k, i) && Closed(h, linked) && SameKeys(h) && OnlyFrom(h, linked, v[k], v[k - 1])
    && v[k - 1] in h.parent && h.parent[v[k - 1]] == v[k]
    && (forall j :: 0 <= j < |v| ==> DateIn(h, v[j]) == 0)
  }

  /** Only pointers of other articles have changed. */
  lemma StaysTight(h: Links, v: seq<Article>, k: nat, i: nat, h': Links)
    requires Tight(h, v, k, i) && h'.parent.Keys == h.parent.Keys
    requires forall j :: k <= j <= i && v[j] in h.child1 ==> v[j] in h'.child1 && h'.child1[v[j]] == h.child1[v[j]]
    requires v[k - 1] in h'.sibling && h'.sibling[v[k - 1]] == h.sibling[v[k - 1]]
    ensures Tight(h', v, k, i)
  {
    hide Once;
    forall j | k < j <= i ensures Met(h', v, j) {
      assert Met(h, v, j);
    }
  }

  /** `d` has gone among the articles without parent: behind `e`, or in front. */
  ghost predicate AmongTops(h: Links, linked: set<Article>, d: Article, e: Article?, h': Links) {
    && d in h.parent && !IsChild(h, d) && d in h.sibling && h'.parent == h.parent && h'.child1 == h.child1
    && h'.subj == h.subj && h'.date == h.date && h'.thread.Keys == h.thread.Keys
    && (e != null ==> e in linked && !IsChild(h, e) && e in h.sibling && h'.thread == h.thread
                      && h'.sibling == h.sibling[d := h.sibling[e]][e := d])
    && (e == null ==> exists f: Article? :: f in Firsts(h) && h'.sibling == h.sibling[d := f])
    && (forall t :: t in h.thread ==> h'.thread[t] == h.thread[t] || h'.thread[t] == d)
  }

  /** What heads the threads. */
  ghost function Firsts(h: Links): set<Article?> {
    set t | t in h.thread :: h.thread[t]
  }

  lemma TopLinked(h: Links, linked: set<Article>, d: Article, h': Links) returns (e: Article?)
    requires Closed(h, linked) && LinksAtTop(h, d, h')
    ensures AmongTops(h, linked, d, e, h')
  {
    var t := SubjIn(h, d);
    var first := h.thread[t];
    e := null;
    assert first in Firsts(h);
    if first != null && DateIn(h, first) <= DateIn(h, d) {
      var m: nat :| StopsAt(h, first, DateIn(h, d), m) && h' == Behind(h, d, Up(h.sibling, first, m));
      Reached(h, linked, first, m);
      e := Up(h.sibling, first, m);
    }
  }

  lemma TopClosed(h: Links, linked: set<Article>, d: Article, e: Article?, h': Links)
    requires Closed(h, linked) && SameKeys(h) && AmongTops(h, linked, d, e, h')
    ensures Closed(h', linked + {d}) && SameKeys(h')
  {
    assert forall y :: IsChild(h', y) <==> IsChild(h, y);
    forall m | m in linked + {d} && m in h'.sibling && h'.sibling[m] != null
      ensures h'.sibling[m] in linked + {d} && (IsChild(h', h'.sibling[m]) <==> IsChild(h', m))
    {
      if m == d && e == null {
        var f: Article? :| f in Firsts(h) && h'.sibling == h.sibling[d := f];
      }
    }
  }

  lemma TopOnlyFrom(h: Links, linked: set<Article>, w: Article, c: Article, d: Article, e: Article?, h': Links)
    requires Closed(h, linked) && AmongTops(h, linked, d, e, h') && OnlyFrom(h, linked, w, c) && IsChild(h, c)
    ensures OnlyFrom(h', linked + {d}, w, c) && h'.sibling[c] == h.sibling[c]
  {
    forall m | m in linked + {d} && m in h'.sibling ensures h'.sibling[m] != c {
      if m == d && e == null {
        var f: Article? :| f in Firsts(h) && h'.sibling == h.sibling[d := f];
      }
    }
  }

  lemma TopKeeps(h: Links, v: seq<Article>, k: nat, i: nat, linked: set<Article>, d: Article, h': Links)
    requires Bound(h, v, k, i, linked) && LinksAtTop(h, d, h')
    ensures Bound(h', v, k, i, linked + {d}) && h'.parent == h.parent
  {
    hide Tight, Closed, OnlyFrom, LinksAtTop, SameKeys;
    TightParts(h, v, k, i);
    var e := TopLinked(h, linked, d, h');
    TopClosed(h, linked, d, e, h');
    TopOnlyFrom(h, linked, v[k], v[k - 1], d, e, h');
    OnlyFromKnown(h', linked + {d}, v[k], v[k - 1]);
    StaysTight(h, v, k, i, h');
  }

  lemma TightParts(h: Links, v: seq<Article>, k: nat, i: nat)
    requires Tight(h, v, k, i)
    ensures 1 <= k <= i && i + 1 < |v|
  {
  }

  lemma OnlyFromKnown(h: Links, linked: set<Article>, w: Article, c: Article)
    requires OnlyFrom(h, linked, w, c)
    ensures c in h.sibling && c in linked
  {
  }

  /** Linked again under the parent it has. */
  lemma UnderKeeps(h: Links, v: seq<Article>, k: nat, i: nat, linked: set<Article>, d: Article, h': Links)
    requires Bound(h, v, k, i, linked) && LinksUnder(h, d, h') && d != v[k - 1] && DateIn(h, d) == 0
    ensures Bound(h', v, k, i, linked + {d})
  {
    hide Closed, OnlyFrom, SameKeys, Tight;
    TightParts(h, v, k, i);
    var e := UnderWhere(h, v, k, i, linked, d, h');
    ClosedStays(h, linked, d, h.parent[d], e, h');
    OnlyFromStays(h, linked, v[k], v[k - 1], d, h.parent[d], e, h');
    UnderTight(h, v, k, i, linked, d, e, h');
  }

  lemma UnderWhere(h: Links, v: seq<Article>, k: nat, i: nat, linked: set<Article>, d: Article, h': Links)
    returns (e: Article?)
    requires Bound(h, v, k, i, linked) && LinksUnder(h, d, h') && DateIn(h, d) == 0
    ensures Among(h, d, h.parent[d], e, h') && Passed(h, linked, h.parent[d], v[k], v[k - 1], e) && e != v[k - 1]
    ensures IsChild(h, d)
  {
    hide Once, Met;
    var p, c := h.parent[d], v[k - 1];
    var first := h.child1[p];
    e := null;
    assert h.parent[d := p] == h.parent;
    if first != null && DateIn(h, first) <= 0 {
      var m: nat :| StopsAt(h, first, 0, m) && h' == Behind(h, d, Up(h.sibling, first, m));
      e := Up(h.sibling, first, m);
      Reached(h, linked, first, m);
      if e == c {
        NotReached(h, linked, v[k], c, p, m);
        assert false;
      }
    }
  }

  lemma UnderTight(h: Links, v: seq<Article>, k: nat, i: nat, linked: set<Article>, d: Article, e: Article?, h': Links)
    requires Bound(h, v, k, i, linked) && d != v[k - 1] && DateIn(h, d) == 0 && d in h.parent && h.parent[d] != null
    requires Among(h, d, h.parent[d], e, h') && e != v[k - 1]
    ensures Tight(h', v, k, i)
  {
    hide Closed, OnlyFrom, Once;
    assert h.parent[d := h.parent[d]] == h.parent;
    forall j | k < j <= i ensures Met(h', v, j) {
      assert Met(h, v, j) && DateIn(h, v[j - 1]) == 0;
    }
    assert DateIn(h, v[k - 1]) == 0;
  }

  lemma LinkKeeps(h: Links, v: seq<Article>, k: nat, i: nat, linked: set<Article>, d: Article, h': Links)
    requires Bound(h, v, k, i, linked) && LinksIn(h, d, h') && d != v[k - 1] && DateIn(h, d) == 0
    ensures Bound(h', v, k, i, linked + {d})
  {
    hide Bound, LinksUnder, LinksAtTop;
    if d in h.parent && h.parent[d] != null {
      UnderKeeps(h, v, k, i, linked, d, h');
    } else {
      TopKeeps(h, v, k, i, linked, d, h');
    }
  }

  // ---- Each step of the rest -------------------------------------------------------------------------------

  lemma SubjectsDoNotMatter(h: Links, v: seq<Article>, k: nat, i: nat, linked: set<Article>, subj: map<Article, Subject?>)
    requires Bound(h, v, k, i, linked) && subj.Keys == h.subj.Keys
    ensures Bound(h.(subj := subj), v, k, i, linked)
  {
    hide Once;
    var h' := h.(subj := subj);
    assert forall y :: IsChild(h', y) <==> IsChild(h, y);
    forall j | k < j <= i ensures Met(h', v, j) {
      assert Met(h, v, j);
    }
  }

  lemma {:induction false} GivenKeeps(h: Links, v: seq<Article>, k: nat, i: nat, linked: set<Article>,
                                      a: Article, base: Subject, m: nat)
    requires Bound(h, v, k, i, linked)
    ensures Bound(Given(h, a, base, m), v, k, i, linked) && Given(h, a, base, m).parent == h.parent
  {
    hide Bound;
    if m > 1 {
      GivenKeeps(h, v, k, i, linked, a, base, m - 1);
      var g, x := Given(h, a, base, m - 1), Up(h.parent, a, m - 1);
      if x != null && x in g.subj {
        SubjectsDoNotMatter(g, v, k, i, linked, g.subj[x := base]);
      }
    }
  }

  /** Threads may get other heads, from among the old ones, and subjects another order. */
  lemma HeadsMove(h: Links, v: seq<Article>, k: nat, i: nat, linked: set<Article>, h': Links)
    requires Bound(h, v, k, i, linked) && h' == h.(thread := h'.thread, link := h'.link)
    requires forall t :: t in h'.thread ==> h'.thread[t] == null || h'.thread[t] in Firsts(h)
    ensures Bound(h', v, k, i, linked)
  {
    hide Once;
    assert forall y :: IsChild(h', y) <==> IsChild(h, y);
    forall j | k < j <= i ensures Met(h', v, j) {
      assert Met(h, v, j);
    }
    forall t | t in h'.thread && h'.thread[t] != null ensures h'.thread[t] in linked && !IsChild(h', h'.thread[t]) {
      var u :| u in h.thread && h.thread[u] == h'.thread[t];
    }
  }

  lemma SwapKeeps(h: Links, v: seq<Article>, k: nat, i: nat, linked: set<Article>, s1: Subject, s2: Subject, n: nat)
    requires Bound(h, v, k, i, linked) && s1 in h.thread && s1 in h.link && s2 in h.link
    ensures Bound(Swapped(h, s1, s2, n), v, k, i, linked)
  {
    hide Bound;
    var h' := Swapped(h, s1, s2, n);
    forall t | t in h'.thread ensures h'.thread[t] == null || h'.thread[t] in Firsts(h) {
    }
    HeadsMove(h, v, k, i, linked, h');
  }

  lemma MergeStarts(h: Links, s1: Subject, s2: Subject, m: Merge, h': Links)
    requires Merges(h, s1, s2, m, h')
    ensures s1 in h.thread && s1 in h.link && s2 in h.thread && s2 in h.link && |m.hs| == |m.ts| + 1
    ensures m.hs[0] == Swapped(h, s1, s2, m.n) && NextTop(h, s2, m, 0) == h.thread[s2] && m.hs[|m.ts|] == h'
  {
    hide LinksIn, Swapped;
  }

  lemma MergeStep(h: Links, s1: Subject, s2: Subject, m: Merge, h': Links, j: nat)
    requires Merges(h, s1, s2, m, h') && j < |m.ts|
    ensures |m.hs| == |m.ts| + 1 && s2 in h.thread
    ensures NextTop(h, s2, m, j) == m.ts[j] && LinksIn(m.hs[j], m.ts[j], m.hs[j + 1])
    ensures NextTop(h, s2, m, j + 1) == if m.ts[j] in m.hs[j].sibling then m.hs[j].sibling[m.ts[j]] else null
  {
    hide LinksIn, Swapped;
    var i := j + 1;
    assert m.ts[j] == NextTop(h, s2, m, j) && LinksIn(m.hs[j], m.ts[j], m.hs[i]);
  }

  /** After `j` articles have been linked again. */
  lemma {:induction false} MergeKeeps(h: Links, v: seq<Article>, k: nat, i: nat, linked: set<Article>, s1: Subject, s2: Subject,
                                      m: Merge, h': Links, j: nat)
    requires Bound(h, v, k, i, linked) && Merges(h, s1, s2, m, h') && j <= |m.ts|
    ensures |m.hs| == |m.ts| + 1 && s2 in h.thread && Bound(m.hs[j], v, k, i, linked) && m.hs[j].parent == h.parent
    ensures NextTop(h, s2, m, j) != null ==> NextTop(h, s2, m, j) in linked && !IsChild(h, NextTop(h, s2, m, j))
  {
    hide Bound, LinksIn, Swapped, Merges, NextTop;
    MergeStarts(h, s1, s2, m, h');
    if j == 0 {
      SwapKeeps(h, v, k, i, linked, s1, s2, m.n);
      SwappedParents(h, s1, s2, m.n);
      if h.thread[s2] != null { HeadKnown(h, v, k, i, linked, s2); }
    } else {
      MergeKeeps(h, v, k, i, linked, s1, s2, m, h', j - 1);
      MergeStep(h, s1, s2, m, h', j - 1);
      var d, g := m.ts[j - 1], m.hs[j - 1];
      SameChild(h, g, d);
      TopAgain(g, d, m.hs[j]);
      TopKeeps(g, v, k, i, linked, d, m.hs[j]);
      assert linked + {d} == linked;
      if d in g.sibling && g.sibling[d] != null {
        NextKnown(g, v, k, i, linked, d);
        SameChild(h, g, g.sibling[d]);
      }
    }
  }

  lemma SameChild(h: Links, g: Links, x: Article)
    requires g.parent == h.parent
    ensures IsChild(g, x) <==> IsChild(h, x)
  {
  }

  lemma SwappedParents(h: Links, s1: Subject, s2: Subject, n: nat)
    requires s1 in h.thread && s1 in h.link && s2 in h.link
    ensures Swapped(h, s1, s2, n).parent == h.parent
  {
  }

  lemma HeadKnown(h: Links, v: seq<Article>, k: nat, i: nat, linked: set<Article>, t: Subject)
    requires Bound(h, v, k, i, linked) && t in h.thread && h.thread[t] != null
    ensures h.thread[t] in linked && !IsChild(h, h.thread[t])
  {
  }

  lemma TopAgain(h: Links, d: Article, h': Links)
    requires LinksIn(h, d, h') && !IsChild(h, d)
    ensures LinksAtTop(h, d, h')
  {
    hide LinksUnder, LinksAtTop;
  }

  lemma NextKnown(h: Links, v: seq<Article>, k: nat, i: nat, linked: set<Article>, d: Article)
    requires Bound(h, v, k, i, linked) && d in linked && d in h.sibling && h.sibling[d] != null
    ensures h.sibling[d] in linked && (IsChild(h, h.sibling[d]) <==> IsChild(h, d))
  {
  }

  /** The first of the two: the subject step. */
  lemma JoinKeeps(h: Links, v: seq<Article>, k: nat, i: nat, linked: set<Article>, ap: Article, base: Subject, r: Rest)
    returns (linked': set<Article>)
    requires Bound(h, v, k, i, linked) && Joins(h, ap, base, r) && ap in h.subj
    requires SubjIn(h, ap) == null ==> ap != v[k - 1] && DateIn(h, ap) == 0
    ensures Bound(r.h1, v, k, i, linked')
  {
    hide Bound, LinksIn, Merges;
    linked' := linked;
    var led := SubjIn(h, ap);
    if led == null {
      SubjectsDoNotMatter(h, v, k, i, linked, h.subj[ap := base]);
      LinkKeeps(h.(subj := h.subj[ap := base]), v, k, i, linked, ap, r.h1);
      linked' := linked + {ap};
    } else if h.thread[base] != h.thread[led] {
      MergeKeeps(h, v, k, i, linked, led, base, r.merge, r.h1, |r.merge.ts|);
      MergeStarts(h, led, base, r.merge, r.h1);
    }
  }

  /** The branch that is cut off is a child of the article, which nothing of the knot is. */
  lemma CutKeeps(h: Links, v: seq<Article>, k: nat, i: nat, linked: set<Article>, a: Article, c: Article, h1: Links)
    requires Bound(h, v, k, i, linked) && Unlinks(h, c, h1) && c in h.parent && h.parent[c] == a
    requires forall j :: 1 <= j < |v| ==> v[j] != a
    ensures Bound(h1, v, k, i, linked) && h1.parent == h.parent
  {
    hide Once;
    var first := h.child1[a];
    if first == c {
      CutFirst(h, v, k, i, linked, a, c, h1);
    } else if exists m: nat :: InFront(h, first, c, m) && h1 == Closing(h, Up(h.sibling, first, m), c) {
      var m: nat :| InFront(h, first, c, m) && h1 == Closing(h, Up(h.sibling, first, m), c);
      CutBehind(h, v, k, i, linked, a, c, m, h1);
    }
  }

  lemma CutFirst(h: Links, v: seq<Article>, k: nat, i: nat, linked: set<Article>, a: Article, c: Article, h1: Links)
    requires Bound(h, v, k, i, linked) && a in h.child1 && h.child1[a] == c && c in h.sibling
    requires h1 == h.(child1 := h.child1[a := h.sibling[c]]) && forall j :: 1 <= j < |v| ==> v[j] != a
    ensures Bound(h1, v, k, i, linked)
  {
    hide Once;
    StaysTight(h, v, k, i, h1);
    assert forall y :: IsChild(h1, y) <==> IsChild(h, y);
  }

  lemma CutBehind(h: Links, v: seq<Article>, k: nat, i: nat, linked: set<Article>, a: Article, c: Article, m: nat, h1: Links)
    requires Bound(h, v, k, i, linked) && a in h.child1 && c in h.sibling && a != v[k]
    requires InFront(h, h.child1[a], c, m) && h1 == Closing(h, Up(h.sibling, h.child1[a], m), c)
    ensures Bound(h1, v, k, i, linked)
  {
    hide Tight, SameKeys;
    var e := Up(h.sibling, h.child1[a], m);
    TightParts(h, v, k, i);
    Reached(h, linked, h.child1[a], m);
    if e == v[k - 1] {
      NotReached(h, linked, v[k], v[k - 1], a, m);
    }
    Skipped(h, linked, v[k], v[k - 1], e, c);
    StaysTight(h, v, k, i, h1);
    SameKeysStill(h, h1);
  }

  lemma SameKeysStill(h: Links, h1: Links)
    requires SameKeys(h) && h1 == h.(sibling := h1.sibling) && h1.sibling.Keys == h.sibling.Keys
    ensures SameKeys(h1)
  {
  }

  /** `e` gets the sibling of its sibling. */
  lemma Skipped(h: Links, linked: set<Article>, w: Article, x: Article, e: Article, c: Article)
    requires Closed(h, linked) && OnlyFrom(h, linked, w, x) && e in linked && e in h.sibling && h.sibling[e] == c && c in h.sibling
    ensures Closed(h.(sibling := h.sibling[e := h.sibling[c]]), linked)
    ensures OnlyFrom(h.(sibling := h.sibling[e := h.sibling[c]]), linked, w, x)
  {
    assert forall y :: IsChild(h.(sibling := h.sibling[e := h.sibling[c]]), y) <==> IsChild(h, y);
  }

  /** After the cut the branch goes to the top of its thread, and the knot is still there. */
  lemma RehangKeeps(h: Links, v: seq<Article>, k: nat, i: nat, linked: set<Article>, a: Article, c: Article, h': Links)
    requires Bound(h, v, k, i, linked) && c in h.parent && h.parent[c] == a && a != v[k]
    requires LinksIn(h.(parent := h.parent[c := null]), c, h')
    ensures Tight(h', v, k, i)
  {
    hide Once, Met;
    var h0, t := h.(parent := h.parent[c := null]), SubjIn(h, c);
    var first := h0.thread[t];
    if first != null && DateIn(h0, first) <= DateIn(h0, c) {
      var m: nat :| StopsAt(h0, first, DateIn(h0, c), m) && h' == Behind(h0, c, Up(h0.sibling, first, m));
      Reached(h, linked, first, m);
    }
    StaysTight(h, v, k, i, h');
  }

  // ---- From the knot to the end of the call ---------------------------------------------------------------------

  lemma KnotBound(h: Links, a: Article, v: seq<Article>, k: nat, i: nat, linked: set<Article>)
    requires Knot(h, a, v, |v|, k, linked) && Tight(h, v, k, i)
    ensures Bound(h, v, k, i, linked) && forall j :: 1 <= j < |v| ==> v[j] != a
    ensures v[|v| - 1] != v[k - 1] && SubjIn(h, v[|v| - 1]) == null
  {
    hide Tight, Closed, OnlyFrom, Tied, Childless, FakesHang;
    KnotOff(h, a, v, |v|, k, linked);
    TwoFromOnce(v, |v|, k);
    KnotDates(h, a, v, |v|, k, linked);
    assert Faceless(h, v[|v| - 1]);
  }

  /** Once something is hung, the last article looked up is the end of the trail, or it belongs to
      a thread. */
  lemma {:induction false} LastLookedUp(h: Links, table: Table, a: Article, rethreading: bool, refs: seq<Reference>,
                                        turns: seq<Turn>, run: seq<Walker>, j: nat)
    requires Run(h, table, a, rethreading, refs, turns, run) && j <= |refs|
    ensures LooksRight(run[j])
  {
    hide Step;
    if j > 0 {
      LastLookedUp(h, table, a, rethreading, refs, turns, run, j - 1);
      assert Step(a, rethreading, refs[j - 1], run[j - 1], turns[j - 1], run[j]);
      TrailsGrow(h, table, a, rethreading, refs, turns, run, 0, j - 1);
      StepLooksUp(a, rethreading, refs[j - 1], run[j - 1], turns[j - 1], run[j]);
    }
  }

  ghost predicate LooksRight(v: Walker) {
    && v.trail != []
    && (|v.trail| > 1 ==> v.ap != null && (v.ap == Last(v.trail) || SubjIn(v.h, v.ap) != null))
  }

  lemma StepLooksUp(a: Article, rethreading: bool, r: Reference, v: Walker, t: Turn, v': Walker)
    requires Step(a, rethreading, r, v, t, v') && LooksRight(v) && a !in v.trail[1..]
    ensures LooksRight(v')
  {
    hide Hangs, MovesOut;
    var n := |v.trail|;
    assert n > 1 ==> v.trail[1..][n - 2] == Last(v.trail);
  }

  /** A dateless article with a repeated reference: a call that ends, whatever it does after the
      walk, leaves pointers that are no forest. */
  lemma RepeatsAreNotMended(g0: State, t0: Table, a: Article, base: Subject, rethreading: bool, refs: seq<Reference>,
                            turns: seq<Turn>, run: seq<Walker>, r: Rest, h': Links, s: Shape)
    requires Standing(g0, a, base, rethreading, [a]) && TableFits(t0, g0.h.parent.Keys)
    requires Run(g0.h, t0, a, rethreading, refs, turns, run) && Finishes(run[|refs|], a, base, rethreading, r, h')
    requires Date(g0, a) == 0 && WalkOf(g0, t0, a, refs).repeated
    ensures !(Wf(h', s) && Grounded(h'.parent))
  {
    hide Standing, TableFits, WalkOf, Step, Knot, Tight, Bound, Mended, Wf, Grounded, Joins, Gives, Climbs, Cuts;
    var v := run[|refs|];
    var trail := v.trail;
    var k, i, linked := RepeatsTie(g0, t0, a, base, rethreading, refs, turns, run);
    KnotBound(v.h, a, trail, k, i, linked);
    TightParts(v.h, trail, k, i);
    LastLookedUp(g0.h, t0, a, rethreading, refs, turns, run, |refs|);
    ApKnown(v.h, a, trail, k, i, linked, v.ap);
    var linked1 := JoinKeeps(v.h, trail, k, i, linked, v.ap, base, r);
    RestKeeps(trail, k, i, linked1, a, base, r, h');
    TightIsNoForest(h', s, null, a, trail, k, i);
    MendedIsForest(h', s, a);
  }

  lemma MendedIsForest(h: Links, s: Shape, a: Article)
    ensures Mended(h, a, s, null) <==> Wf(h, s) && Grounded(h.parent)
  {
    hide Wf, Grounded;
  }

  lemma ApKnown(h: Links, a: Article, v: seq<Article>, k: nat, i: nat, linked: set<Article>, ap: Article)
    requires Knot(h, a, v, |v|, k, linked) && Bound(h, v, k, i, linked) && v != []
    requires ap == Last(v) || SubjIn(h, ap) != null
    ensures ap in h.subj && (SubjIn(h, ap) == null ==> ap == Last(v) && DateIn(h, ap) == 0)
  {
    hide Closed, OnlyFrom, Tied, Childless, FakesHang, Tight;
    KnotDates(h, a, v, |v|, k, linked);
    assert Faceless(h, v[|v| - 1]);
  }

  lemma RestKeeps(v: seq<Article>, k: nat, i: nat, linked: set<Article>, a: Article, base: Subject, r: Rest, h': Links)
    requires Bound(r.h1, v, k, i, linked) && Gives(r.h1, a, base, r.m, r.h2) && 1 <= k < |v|
    requires Climbs(r.h2.parent, Up(r.h2.parent, a, r.m), a, r.n, r.c)
    requires if r.c == null then h' == r.h2 else Cuts(r.h2, r.c, r.h3, h')
    requires forall j :: 1 <= j < |v| ==> v[j] != a
    ensures Tight(h', v, k, i)
  {
    hide Bound, Given, Unlinks, LinksIn;
    GivenKeeps(r.h1, v, k, i, linked, a, base, r.m);
    if r.c == null {
      BoundTight(r.h2, v, k, i, linked);
    } else {
      CutKeeps(r.h2, v, k, i, linked, a, r.c, r.h3);
      RehangKeeps(r.h3, v, k, i, linked, a, r.c, h');
    }
  }

  lemma BoundTight(h: Links, v: seq<Article>, k: nat, i: nat, linked: set<Article>)
    requires Bound(h, v, k, i, linked)
    ensures Tight(h, v, k, i)
  {
    hide Tight, Closed, OnlyFrom;
  }

  // ---- One such call --------------------------------------------------------------------------------------------

  ghost function TopFirst(h: Links, z: Article, t: Subject): Links {
    h.(subj := h.subj[z := t], sibling := h.sibling[z := null], thread := Fill(h.thread, Round(h.link, t, 1), z))
  }

  /** The call with references x, y, x, z of a dateless article ends: z heads the thread, the climb
      runs off the top of it, and x is in the child lists of both y and z for good. */
  lemma TwiceFinishes(a: Article, x: Article, y: Article, z: Article, t: Subject)
    returns (turns: seq<Turn>, run: seq<Walker>, r: Rest, h': Links)
    requires NoDup([a, x, y, z])
    ensures Run(Lone(a, t).h, map[], a, false, Twice(), turns, run) && Finishes(run[4], a, t, false, r, h')
    ensures forall s: Shape :: !(Wf(h', s) && Grounded(h'.parent))
  {
    hide Wf, Grounded, Step, Lone, After3, After4, TopFirst, Finishes;
    var l := [a, x, y, z];
    assert l[0] != l[1] && l[0] != l[2] && l[0] != l[3] && l[1] != l[2] && l[1] != l[3] && l[2] != l[3];
    turns, run := TwiceRuns(a, x, y, z, t);
    var h1 := TopFirst(run[4].h, z, t);
    h' := h1.(subj := h1.subj[x := t]);
    r := Rest(h1, Merge(0, [], []), 2, h', 1, null, h');
    TwiceRest(a, x, y, z, t, run[4], r, h');
    forall s: Shape ensures !(Wf(h', s) && Grounded(h'.parent)) {
      TwiceIsNotMended(a, t, turns, run, r, h', s);
    }
  }

  lemma TwiceIsNotMended(a: Article, t: Subject, turns: seq<Turn>, run: seq<Walker>, r: Rest, h': Links, s: Shape)
    requires Run(Lone(a, t).h, map[], a, false, Twice(), turns, run) && Finishes(run[4], a, t, false, r, h')
    ensures !(Wf(h', s) && Grounded(h'.parent))
  {
    hide Wf, Grounded, Step, Lone, Finishes, WalkOf, Standing;
    LoneStands(a, t);
    TwiceRepeats(a, t);
    RepeatsAreNotMended(Lone(a, t), map[], a, t, false, Twice(), turns, run, r, h', s);
  }

  lemma TwiceRest(a: Article, x: Article, y: Article, z: Article, t: Subject, v: Walker, r: Rest, h': Links)
    requires a != x && a != y && a != z && x != y && x != z && y != z
    requires v.h == After4(a, x, y, z, t) && v.ap == z
    requires r == Rest(TopFirst(v.h, z, t), Merge(0, [], []), 2, h', 1, null, h')
    requires h' == r.h1.(subj := r.h1.subj[x := t])
    ensures Finishes(v, a, t, false, r, h')
  {
    hide Gives, Climbs, Joins;
    TwiceTop(a, x, y, z, t, v.h, r);
    TwiceGives(a, x, y, z, t, r.h1, h');
  }

  lemma RingOfOne(link: map<Subject, Subject>, t: Subject)
    requires t in link && link[t] == t
    ensures ComesBack(link, t, 1)
  {
    assert Follow(link, t, 1) == Follow(link, link[t], 0);
  }

  lemma TwiceTop(a: Article, x: Article, y: Article, z: Article, t: Subject, h: Links, r: Rest)
    requires a != x && a != y && a != z && x != y && x != z && y != z
    requires h == After4(a, x, y, z, t) && r.h1 == TopFirst(h, z, t)
    ensures Joins(h, z, t, r)
  {
    hide After4;
    After4Reads(a, x, y, z, t);
    var h0 := h.(subj := h.subj[z := t]);
    RingOfOne(h0.link, t);
    assert Leads(h0.(sibling := h0.sibling[z := null]), t, z, r.h1);
  }

  lemma TwiceGives(a: Article, x: Article, y: Article, z: Article, t: Subject, h: Links, h': Links)
    requires a != x && a != y && a != z && x != y && x != z && y != z
    requires h == TopFirst(After4(a, x, y, z, t), z, t) && h' == h.(subj := h.subj[x := t])
    ensures Gives(h, a, t, 2, h') && Climbs(h'.parent, Up(h'.parent, a, 2), a, 1, null)
  {
    hide After4;
    After4Reads(a, x, y, z, t);
    var p := h.parent;
    assert Up(p, a, 1) == Up(p, x, 0) == x;
    assert Up(p, a, 2) == Up(p, x, 1) == Up(p, z, 0) == z;
    assert Up(p, z, 1) == Up(p, null, 0) == null;
    assert Given(h, a, t, 1) == h && Given(h, a, t, 2) == h';
    assert SubjIn(h, x) == null && SubjIn(h', z) == t;
  }
}
