/** What the walk over the references (libtrn/Article.cpp, lines 963-1051) does to the
    pointers whether or not a reference is repeated: the walk as a relation between
    pointers, and exactly when it ends in a forest. (A method cannot state this: with a repeat
    the sibling search may go round for ever, so only runs that end are spoken of.) */
module Repeats {
  import opened Forest
  import opened Joining
  import opened Ancestry
  import opened Placing
  import opened Settling
  import opened References
  import opened Walking
  import opened Finishing
  import opened Pointers

  // ---- The walk ---------------------------------------------------------------------------------------

  /** The walk between two references: the articles hung so far (`trail`, the last of them is
      the source's `prev`), the article the last reference led to, and whether it is over. */
  datatype Walker = Walker(h: Links, table: Table, trail: seq<Article>, ap: Article?, stopped: bool)

  ghost function WithNew(h: Links, x: Article): Links {
    Links(h.parent[x := null], h.child1[x := null], h.sibling[x := null], h.subj[x := null], h.date[x := 0],
          h.thread, h.link)
  }

  /** The message-id is looked up; one not in the table gets a new fake. */
  ghost predicate LooksUp(v: Walker, id: string, x: Article, v': Walker) {
    if id in v.table then x == v.table[id] && v' == v
    else x !in v.h.parent && v' == v.(h := WithNew(v.h, x), table := v.table[id := x])
  }

  ghost predicate Skips(a: Article, h: Links, x: Article) {
    (DateIn(h, x) != 0 && SubjIn(h, x) == null) || x == a
  }

  /** The end of the trail leaves the thread it is in, if it is the article threaded again. */
  ghost predicate MovesOut(h: Links, prev: Article, rethreading: bool, h': Links) {
    if rethreading && SubjIn(h, prev) != null then Unlinks(h, prev, h') else h' == h
  }

  ghost predicate Hangs(h: Links, prev: Article, x: Article, h': Links) {
    prev in h.parent && LinksUnder(h.(parent := h.parent[prev := x]), prev, h')
  }

  /** What one reference brings: its article, the walk once it is looked up, the pointers once
      the end of the trail is out of its thread, and those once it hangs under the article. */
  datatype Turn = Turn(x: Article, found: Walker, out: Links, hung: Links)

  ghost predicate Handles(a: Article, rethreading: bool, t: Turn, v': Walker) {
    && t.found.trail != []
    && var prev := Last(t.found.trail);
       if Skips(a, t.found.h, t.x) then v' == t.found.(ap := if prev == a then null else prev)
       else MovesOut(t.found.h, prev, rethreading, t.out) && Hangs(t.out, prev, t.x, t.hung) && v' == Hung(a, t)
  }

  ghost function Hung(a: Article, t: Turn): Walker {
    var v, x := t.found, t.x;
    if SubjIn(t.hung, x) != null then v.(h := t.hung, ap := x, stopped := true)
    else v.(h := t.hung.(date := t.hung.date[x := DateIn(t.hung, a)]), ap := x, trail := v.trail + [x])
  }

  ghost predicate Step(a: Article, rethreading: bool, r: Reference, v: Walker, t: Turn, v': Walker) {
    if v.stopped then v' == v
    else if r.Garbage? then v' == v.(stopped := true)
    else LooksUp(v, r.id, t.x, t.found) && Handles(a, rethreading, t, v')
  }

  /** One completed walk: `run[i]` is how things stand after `i` references. */
  ghost predicate Run(h: Links, table: Table, a: Article, rethreading: bool, refs: seq<Reference>,
                      turns: seq<Turn>, run: seq<Walker>) {
    && |turns| == |refs| && |run| == |refs| + 1 && run[0] == Walker(h, table, [a], null, false)
    && forall i, j :: 0 <= i < |refs| && j == i + 1 ==> Step(a, rethreading, refs[i], run[i], turns[i], run[j])
  }

  /** The pointers spell out a forest, once child `c` of the article, if there is such a child
      that is one of its ancestors too, is cut off (libtrn/Article.cpp, lines 1081-1097). */
  ghost predicate Mended(h: Links, a: Article, s: Shape, c: Article?) {
    && Wf(h, s) && (c != null ==> c in h.parent && h.parent[c] == a)
    && Grounded(if c == null then h.parent else h.parent[c := null])
  }

  // ---- A repeat leaves a knot ---------------------------------------------------------------------------

  ghost predicate SameKeys(h: Links) {
    && h.child1.Keys == h.parent.Keys && h.sibling.Keys == h.parent.Keys && h.subj.Keys == h.parent.Keys
    && h.date.Keys == h.parent.Keys
  }

  ghost predicate Faceless(h: Links, x: Article) {
    x in h.parent && SubjIn(h, x) == null && DateIn(h, x) == 0
  }

  /** What is before position `k` of the trail is nowhere else on it. */
  ghost predicate Once(v: seq<Article>, k: nat) {
    forall i, j :: 0 <= i < k && i < |v| && 0 <= j < |v| && i != j ==> v[i] != v[j]
  }

  ghost predicate IsChild(h: Links, x: Article) {
    x in h.parent && h.parent[x] != null
  }

  /** `linked` holds whatever the pointers lead to; from children one gets to children, from the
      heads of the threads to articles without parent. */
  ghost predicate Closed(h: Links, linked: set<Article>) {
    linked <= h.parent.Keys && FirstsIn(h, linked) && NextsIn(h, linked) && HeadsIn(h, linked)
  }

  ghost predicate FirstsIn(h: Links, linked: set<Article>) {
    forall y :: y in h.child1 && h.child1[y] != null ==> h.child1[y] in linked && IsChild(h, h.child1[y])
  }

  ghost predicate NextsIn(h: Links, linked: set<Article>) {
    forall m :: m in linked && m in h.sibling && h.sibling[m] != null ==>
      h.sibling[m] in linked && (IsChild(h, h.sibling[m]) <==> IsChild(h, m))
  }

  ghost predicate HeadsIn(h: Links, linked: set<Article>) {
    forall t :: t in h.thread && h.thread[t] != null ==> h.thread[t] in linked && !IsChild(h, h.thread[t])
  }

  /** Fakes are linked as children only. */
  ghost predicate FakesHang(h: Links, linked: set<Article>) {
    forall x :: x in linked && Faceless(h, x) ==> IsChild(h, x)
  }

  /** All on the trail so far are dateless, and all but the article are fakes; each is the
      first child of the next, when that is met for the first time. */
  ghost predicate Trailing(h: Links, v: seq<Article>, n: nat) {
    && 0 < n <= |v|
    && (forall j :: 0 <= j < n ==> v[j] in h.parent && DateIn(h, v[j]) == 0)
    && (forall j :: 1 <= j < n ==> Faceless(h, v[j]))
    && (forall j :: 1 <= j < n ==> Met(h, v, j))
  }

  ghost predicate Met(h: Links, v: seq<Article>, j: int)
    requires 1 <= j < |v|
  {
    v[j] !in v[..j] ==> v[j] in h.child1 && h.child1[v[j]] == v[j - 1]
  }

  /** Only `w`, as first child, leads to `c`. */
  ghost predicate OnlyFrom(h: Links, linked: set<Article>, w: Article, c: Article) {
    && c in linked && c in h.sibling
    && (forall m :: m in linked && m in h.sibling ==> h.sibling[m] != c)
    && (forall y :: y in h.child1 && y != w ==> h.child1[y] != c)
  }

  /** The sibling of `v[k - 1]` is whoever was hung under `v[k]` when that was met again. */
  ghost predicate Tied(h: Links, v: seq<Article>, n: nat, k: nat)
    requires 1 <= k < n <= |v|
  {
    && v[k - 1] in h.sibling
    && if h.sibling[v[k - 1]] == null then forall q :: k < q < n ==> v[q] != v[k]
       else exists q, p :: k < q < n && p == q - 1 && v[q] == v[k] && h.sibling[v[k - 1]] == v[p]
  }

  /** Fakes that were not met have no children yet. */
  ghost predicate Childless(h: Links, v: seq<Article>, n: nat)
    requires n <= |v|
  {
    forall x :: x in h.child1 && Faceless(h, x) && x !in v[..n] ==> h.child1[x] == null
  }

  ghost predicate Knot(h: Links, a: Article, v: seq<Article>, n: nat, k: nat, linked: set<Article>) {
    && 1 <= k < n <= |v| && v[0] == a && a !in v[1..] && Once(v, k) && SameKeys(h) && Closed(h, linked) && Trailing(h, v, n)
    && Childless(h, v, n) && OnlyFrom(h, linked, v[k], v[k - 1]) && Tied(h, v, n, k) && FakesHang(h, linked)
    && v[k - 1] in h.parent && h.parent[v[k - 1]] == v[k]
  }

  lemma {:induction false} Reached(h: Links, linked: set<Article>, first: Article?, k: nat)
    requires Closed(h, linked) && (first != null ==> first in linked)
    ensures Up(h.sibling, first, k) != null ==>
      Up(h.sibling, first, k) in linked && first != null && (IsChild(h, Up(h.sibling, first, k)) <==> IsChild(h, first))
  {
    if k > 0 {
      Reached(h, linked, first, k - 1);
      if Up(h.sibling, first, k - 1) != null && Up(h.sibling, first, k - 1) in h.sibling {
        UpNext(h.sibling, first, k - 1);
      } else {
        UpSum(h.sibling, first, k - 1, 1);
      }
    }
  }

  /** `c` is met by no sibling search but one that starts there, and then only at its start. */
  lemma NotReached(h: Links, linked: set<Article>, w: Article, c: Article, y: Article, k: nat)
    requires Closed(h, linked) && OnlyFrom(h, linked, w, c) && y in h.child1 && Up(h.sibling, h.child1[y], k) == c
    ensures y == w && k == 0
  {
    var first := h.child1[y];
    if k > 0 {
      Reached(h, linked, first, k - 1);
      UpSum(h.sibling, first, k - 1, 1);
    }
  }

  // ---- One more article is hung -------------------------------------------------------------------------

  lemma TwoFromOnce(v: seq<Article>, n: nat, k: nat)
    requires 1 <= k < n <= |v| && Once(v, k)
    ensures v[n - 1] != v[k - 1] && v[k] !in v[..k]
  {
  }

  /** `d`, the end of the trail, has gone among the children of `x`: behind `e`, or first. */
  ghost predicate Among(h: Links, d: Article, x: Article, e: Article?, h': Links) {
    && x in h.child1 && d in h.parent && d in h.sibling
    && (if e == null then
          && h' == h.(parent := h.parent[d := x], child1 := h.child1[x := d], sibling := h.sibling[d := h.child1[x]])
          && (h.child1[x] != null ==> 0 < DateIn(h, h.child1[x]))
        else
          && e in h.sibling && h.child1[x] != null
          && h' == h.(parent := h.parent[d := x], sibling := h.sibling[d := h.sibling[e]][e := d]))
  }

  /** `e` is linked, and `c` only if `c` is the first child of `w` and nobody dateless follows it. */
  ghost predicate Passed(h: Links, linked: set<Article>, x: Article, w: Article, c: Article, e: Article?) {
    && c in h.sibling && x in h.child1
    && (e != null ==> e in linked && IsChild(h, e))
    && (e == c ==> x == w && (h.sibling[c] != null ==> 0 < DateIn(h, h.sibling[c])))
    && (e != null && h.child1[x] == c && h.sibling[c] == null ==> e == c)
  }

  lemma HangsWhere(h: Links, a: Article, v: seq<Article>, n: nat, k: nat, linked: set<Article>, x: Article, h': Links)
    returns (e: Article?)
    requires Knot(h, a, v, n, k, linked) && Hangs(h, v[n - 1], x, h')
    ensures Among(h, v[n - 1], x, e, h') && Passed(h, linked, x, v[k], v[k - 1], e)
  {
    hide Tied, OnlyFrom, Once;
    var d, h1 := v[n - 1], h.(parent := h.parent[v[n - 1] := x]);
    var first := h.child1[x];
    e := null;
    if first != null && DateIn(h, first) <= 0 {
      var m: nat :| StopsAt(h1, first, DateIn(h1, d), m) && h' == Behind(h1, d, Up(h1.sibling, first, m));
      e := Up(h1.sibling, first, m);
      GoesWhere(h, a, v, n, k, linked, x, m, h1);
    } else {
      KnotLinked(h, a, v, n, k, linked);
    }
  }

  lemma KnotLinked(h: Links, a: Article, v: seq<Article>, n: nat, k: nat, linked: set<Article>)
    requires Knot(h, a, v, n, k, linked)
    ensures v[k - 1] in h.sibling
  {
  }

  lemma GoesWhere(h: Links, a: Article, v: seq<Article>, n: nat, k: nat, linked: set<Article>, x: Article, m: nat, h1: Links)
    requires Knot(h, a, v, n, k, linked) && x in h.child1 && h.child1[x] != null
    requires h1 == h.(parent := h1.parent) && StopsAt(h1, h.child1[x], 0, m)
    ensures Up(h.sibling, h.child1[x], m) != null
    ensures Passed(h, linked, x, v[k], v[k - 1], Up(h.sibling, h.child1[x], m))
  {
    hide Tied, Once, Trailing;
    var first, c := h.child1[x], v[k - 1];
    var e := Up(h.sibling, first, m);
    Reached(h, linked, first, m);
    if e == c {
      NotReached(h, linked, v[k], c, x, m);
    }
    EndsAtOnce(h.sibling, c, m);
  }

  lemma EndsAtOnce(sibling: map<Article, Article?>, c: Article, m: nat)
    ensures c in sibling && sibling[c] == null && m > 0 ==> Up(sibling, c, m) == null
  {
    if m > 0 && c in sibling {
      assert Up(sibling, c, m) == Up(sibling, sibling[c], m - 1);
    }
  }

  // ---- What hanging one more article keeps ---------------------------------------------------------------

  lemma ClosedStays(h: Links, linked: set<Article>, d: Article, x: Article, e: Article?, h': Links)
    requires Closed(h, linked) && SameKeys(h) && Among(h, d, x, e, h') && (e != null ==> e in linked && IsChild(h, e))
    requires d in linked ==> IsChild(h, d)
    ensures Closed(h', linked + {d}) && SameKeys(h')
  {
    hide FirstsIn, NextsIn;
    assert forall y :: y != d ==> (IsChild(h', y) <==> IsChild(h, y));
    assert IsChild(h', d);
    FirstsStay(h, linked, d, x, e, h');
    NextsStay(h, linked, d, x, e, h');
    assert forall t :: t in h.thread && h.thread[t] != null ==> h.thread[t] != d;
  }

  lemma FirstsStay(h: Links, linked: set<Article>, d: Article, x: Article, e: Article?, h': Links)
    requires FirstsIn(h, linked) && Among(h, d, x, e, h') && IsChild(h', d)
    requires forall y :: y != d ==> (IsChild(h', y) <==> IsChild(h, y))
    ensures FirstsIn(h', linked + {d})
  {
    hide IsChild;
  }

  lemma NextsStay(h: Links, linked: set<Article>, d: Article, x: Article, e: Article?, h': Links)
    requires FirstsIn(h, linked) && NextsIn(h, linked) && Among(h, d, x, e, h') && IsChild(h', d)
    requires (e != null ==> e in linked && IsChild(h, e)) && (d in linked ==> IsChild(h, d))
    requires forall y :: y != d ==> (IsChild(h', y) <==> IsChild(h, y))
    ensures NextsIn(h', linked + {d})
  {
    hide IsChild;
    forall m | m in linked + {d} && m in h'.sibling && h'.sibling[m] != null
      ensures h'.sibling[m] in linked + {d} && (IsChild(h', h'.sibling[m]) <==> IsChild(h', m))
    {
      if m == d {
        assert e != null ==> h'.sibling[d] == if e == d then d else h.sibling[e];
      }
    }
  }

  lemma OnlyFromStays(h: Links, linked: set<Article>, w: Article, c: Article, d: Article, x: Article, e: Article?, h': Links)
    requires Closed(h, linked) && SameKeys(h) && Among(h, d, x, e, h') && Passed(h, linked, x, w, c, e)
    requires OnlyFrom(h, linked, w, c) && d != c && DateIn(h, c) == 0
    ensures OnlyFrom(h', linked + {d}, w, c)
  {
  }

  /** First children of what was met before stay. */
  lemma TrailingStays(h: Links, v: seq<Article>, n: nat, x: Article, e: Article?, h': Links)
    requires Trailing(h, v, n) && Among(h, v[n - 1], x, e, h')
    ensures Trailing(h', v, n)
    ensures n < |v| && v[n] == x && Faceless(h, x) && (x !in v[..n] ==> h.child1[x] == null) ==> Trailing(h', v, n + 1)
  {
    forall j | 1 <= j < n ensures Met(h', v, j) {
      assert Met(h, v, j) && DateIn(h, v[j - 1]) == 0;
    }
  }

  lemma TiedStays(h: Links, a: Article, v: seq<Article>, n: nat, k: nat, linked: set<Article>, x: Article, e: Article?, h': Links)
    requires Knot(h, a, v, n, k, linked) && Among(h, v[n - 1], x, e, h') && Passed(h, linked, x, v[k], v[k - 1], e)
    ensures x != v[k] ==> Tied(h', v, n, k)
    ensures n < |v| && v[n] == x ==> Tied(h', v, n + 1, k)
  {
    hide Closed, OnlyFrom, FakesHang, Childless;
    var c, w, d := v[k - 1], v[k], v[n - 1];
    TwoFromOnce(v, n, k);
    assert Met(h, v, k) && h.child1[w] == c;
    if h.sibling[c] != null {
      var q, p :| k < q < n && p == q - 1 && v[q] == v[k] && h.sibling[c] == v[p];
      assert h'.sibling[c] == v[p];
    }
  }

  lemma FakesHangNew(h: Links, linked: set<Article>, x: Article)
    requires FakesHang(h, linked) && linked <= h.parent.Keys && x !in h.parent && SameKeys(h)
    ensures FakesHang(WithNew(h, x), linked)
  {
    forall y | y in linked && Faceless(WithNew(h, x), y) ensures IsChild(WithNew(h, x), y) {
      assert Faceless(h, y);
    }
  }

  /** Who hangs stays what he is, and `d` hangs now. */
  lemma FakesHangStay(h: Links, linked: set<Article>, d: Article, x: Article, e: Article?, h': Links)
    requires FakesHang(h, linked) && Among(h, d, x, e, h')
    ensures FakesHang(h', linked + {d})
  {
    forall y | y in linked + {d} && Faceless(h', y) ensures IsChild(h', y) {
      assert y != d ==> Faceless(h, y);
    }
  }

  lemma KnotNew(h: Links, a: Article, v: seq<Article>, n: nat, k: nat, linked: set<Article>, x: Article)
    requires Knot(h, a, v, n, k, linked) && x !in h.parent
    ensures Knot(WithNew(h, x), a, v, n, k, linked)
  {
    hide Once, Tied, Closed, OnlyFrom, Trailing, FakesHang;
    ClosedNew(h, linked, x, v[k], v[k - 1]);
    FakesHangNew(h, linked, x) by { ClosedKnown(h, linked); }
    TrailingNew(h, v, n, x);
    TiedNew(h, v, n, k, x);
  }

  lemma ClosedKnown(h: Links, linked: set<Article>)
    requires Closed(h, linked)
    ensures linked <= h.parent.Keys
  {
    hide FirstsIn, NextsIn, HeadsIn;
  }

  lemma ClosedNew(h: Links, linked: set<Article>, x: Article, w: Article, c: Article)
    requires Closed(h, linked) && SameKeys(h) && x !in h.parent && OnlyFrom(h, linked, w, c)
    ensures Closed(WithNew(h, x), linked) && SameKeys(WithNew(h, x)) && OnlyFrom(WithNew(h, x), linked, w, c)
  {
  }

  lemma TrailingNew(h: Links, v: seq<Article>, n: nat, x: Article)
    requires Trailing(h, v, n) && x !in h.parent
    ensures Trailing(WithNew(h, x), v, n)
  {
    forall j | 1 <= j < n ensures Met(WithNew(h, x), v, j) {
      assert Met(h, v, j);
    }
  }

  lemma TiedNew(h: Links, v: seq<Article>, n: nat, k: nat, x: Article)
    requires 1 <= k < n <= |v| && Tied(h, v, n, k) && SameKeys(h) && x !in h.parent
    ensures Tied(WithNew(h, x), v, n, k)
  {
  }

  lemma FakeHangs(h: Links, linked: set<Article>, d: Article)
    requires FakesHang(h, linked) && Faceless(h, d)
    ensures d in linked ==> IsChild(h, d)
  {
  }

  lemma KnotDates(h: Links, a: Article, v: seq<Article>, n: nat, k: nat, linked: set<Article>)
    requires Knot(h, a, v, n, k, linked)
    ensures DateIn(h, v[k - 1]) == 0 && DateIn(h, a) == 0
    ensures forall j :: 1 <= j < n ==> Faceless(h, v[j])
  {
    hide Once, Tied, Closed, OnlyFrom;
  }

  /** What hanging the end of the trail keeps, whatever it is hung under. */
  lemma Onward(h: Links, a: Article, v: seq<Article>, n: nat, k: nat, linked: set<Article>, x: Article, e: Article?, h': Links)
    requires Knot(h, a, v, n, k, linked) && Among(h, v[n - 1], x, e, h') && Passed(h, linked, x, v[k], v[k - 1], e)
    ensures Closed(h', linked + {v[n - 1]}) && SameKeys(h') && FakesHang(h', linked + {v[n - 1]})
    ensures OnlyFrom(h', linked + {v[n - 1]}, v[k], v[k - 1]) && Trailing(h', v, n)
    ensures v[k - 1] in h'.parent && h'.parent[v[k - 1]] == v[k]
  {
    hide Once, Tied, Closed, OnlyFrom, Trailing, FakesHang;
    var d := v[n - 1];
    TwoFromOnce(v, n, k);
    KnotDates(h, a, v, n, k, linked);
    FakeHangs(h, linked, d);
    ClosedStays(h, linked, d, x, e, h');
    FakesHangStay(h, linked, d, x, e, h');
    OnlyFromStays(h, linked, v[k], v[k - 1], d, x, e, h');
    TrailingStays(h, v, n, x, e, h');
  }

  lemma ChildlessStays(h: Links, v: seq<Article>, n: nat, x: Article, e: Article?, h': Links)
    requires n < |v| && v[n] == x && Childless(h, v, n) && n > 0 && Among(h, v[n - 1], x, e, h')
    ensures Childless(h', v, n + 1)
  {
    assert v[..n + 1] == v[..n] + [x];
    assert forall y :: Faceless(h', y) ==> Faceless(h, y);
  }

  /** A fake that passes the duplicate test is hung under, and the trail gets longer. */
  lemma KnotLonger(h: Links, a: Article, v: seq<Article>, n: nat, k: nat, linked: set<Article>, x: Article, h': Links)
    returns (linked': set<Article>)
    requires Knot(h, a, v, n, k, linked) && Hangs(h, v[n - 1], x, h') && n < |v| && v[n] == x && Faceless(h, x)
    ensures Knot(h', a, v, n + 1, k, linked')
  {
    hide Once, Tied, Closed, OnlyFrom, Trailing, Hangs, FakesHang, Childless, Passed;
    var e := HangsWhere(h, a, v, n, k, linked, x, h');
    linked' := linked + {v[n - 1]};
    Onward(h, a, v, n, k, linked, x, e, h');
    ChildlessStays(h, v, n, x, e, h');
    if x !in v[..n] { ChildlessAt(h, v, n, x); }
    TrailingStays(h, v, n, x, e, h');
    TiedStays(h, a, v, n, k, linked, x, e, h');
  }

  lemma ChildlessAt(h: Links, v: seq<Article>, n: nat, x: Article)
    requires n <= |v| && Childless(h, v, n) && Faceless(h, x) && x !in v[..n] && x in h.child1
    ensures h.child1[x] == null
  {
  }

  lemma ChildlessBeside(h: Links, v: seq<Article>, n: nat, d: Article, x: Article, e: Article?, h': Links)
    requires n <= |v| && Childless(h, v, n) && SubjIn(h, x) != null && Among(h, d, x, e, h')
    ensures Childless(h', v, n)
  {
    assert forall y :: Faceless(h', y) ==> Faceless(h, y) && y != x;
  }

  /** The last link of the walk, under an article of a thread. */
  lemma KnotHit(h: Links, a: Article, v: seq<Article>, n: nat, k: nat, linked: set<Article>, x: Article, h': Links)
    returns (linked': set<Article>)
    requires Knot(h, a, v, n, k, linked) && Hangs(h, v[n - 1], x, h') && SubjIn(h, x) != null
    ensures Knot(h', a, v, n, k, linked')
  {
    hide Once, Tied, Closed, OnlyFrom, Trailing, Hangs, FakesHang, Childless, Among, Passed;
    var e := HangsWhere(h, a, v, n, k, linked, x, h');
    linked' := linked + {v[n - 1]};
    Onward(h, a, v, n, k, linked, x, e, h');
    ChildlessBeside(h, v, n, v[n - 1], x, e, h');
    KnotDates(h, a, v, n, k, linked);
    assert Faceless(h, v[k]);
    TiedStays(h, a, v, n, k, linked, x, e, h');
  }

  /** One more reference keeps the knot. */
  lemma KnotStays(a: Article, rethreading: bool, r: Reference, v: Walker, t: Turn, v': Walker,
                  trail: seq<Article>, k: nat, linked: set<Article>) returns (linked': set<Article>)
    requires Step(a, rethreading, r, v, t, v') && v.trail <= trail && v'.trail <= trail
    requires Knot(v.h, a, trail, |v.trail|, k, linked)
    ensures Knot(v'.h, a, trail, |v'.trail|, k, linked')
  {
    hide Knot, Hangs, Unlinks;
    linked' := linked;
    if !v.stopped && r.MessageId? {
      var n, f := |v.trail|, t.found;
      if r.id !in v.table {
        KnotNew(v.h, a, trail, n, k, linked, t.x);
      }
      if !Skips(a, f.h, t.x) {
        KnotParts(f.h, a, trail, n, k, linked);
        assert Last(f.trail) == trail[n - 1];
        HungKeeps(f.h, trail[n - 1], t.x, t.hung);
        if SubjIn(t.hung, t.x) != null {
          linked' := KnotHit(f.h, a, trail, n, k, linked, t.x, t.hung);
        } else {
          assert v'.trail[n] == trail[n];
          DateGiven(f.h, a, t.x, t.hung);
          linked' := KnotLonger(f.h, a, trail, n, k, linked, t.x, t.hung);
        }
      }
    }
  }

  lemma KnotParts(h: Links, a: Article, v: seq<Article>, n: nat, k: nat, linked: set<Article>)
    requires Knot(h, a, v, n, k, linked)
    ensures 1 <= k < n <= |v| && SubjIn(h, v[n - 1]) == null && DateIn(h, a) == 0 && SameKeys(h)
  {
    KnotDates(h, a, v, n, k, linked);
  }

  lemma HungKeeps(h: Links, d: Article, x: Article, h': Links)
    requires Hangs(h, d, x, h')
    ensures h'.subj == h.subj && h'.date == h.date && x in h.child1
  {
  }

  /** A dateless article passes on no date. */
  lemma DateGiven(h: Links, a: Article, x: Article, h': Links)
    requires !Skips(a, h, x) && SubjIn(h, x) == null && h'.date == h.date && DateIn(h, a) == 0
    ensures x in h'.date ==> h'.(date := h'.date[x := DateIn(h', a)]) == h'
  {
    if x in h'.date {
      assert h'.date[x := 0] == h'.date;
    }
  }

  // ---- A knot is no forest ----------------------------------------------------------------------------------

  ghost predicate Comes(p: ParentMap, w: Article, x: Article) {
    exists m: nat :: Up(p, w, m) == x
  }

  /** What closes the circle: `v[k]` has `v[k - 1]` as first child and `v[i]` as second, and from
      `v[i]` down first children lead back to `v[k]`. */
  ghost predicate Tight(h: Links, v: seq<Article>, k: nat, i: nat) {
    && 1 <= k <= i && i + 1 < |v| && v[i + 1] == v[k] && Once(v, k) && v[k] in h.parent
    && v[k] in h.child1 && h.child1[v[k]] == v[k - 1]
    && v[k - 1] in h.sibling && h.sibling[v[k - 1]] == v[i]
    && (forall j :: k < j <= i ==> Met(h, v, j))
  }

  lemma KnotTight(h: Links, a: Article, v: seq<Article>, n: nat, k: nat, linked: set<Article>, q: nat) returns (i: nat)
    requires Knot(h, a, v, n, k, linked) && k < q < n && v[q] == v[k]
    ensures Tight(h, v, k, i) && i + 1 < n
  {
    hide Closed, OnlyFrom, Childless, FakesHang;
    TwoFromOnce(v, n, k);
    assert Met(h, v, k);
    var q1, p1 :| k < q1 < n && p1 == q1 - 1 && v[q1] == v[k] && h.sibling[v[k - 1]] == v[p1];
    i := p1;
  }

  /** In well-formed pointers each on the trail has the one it was first hung under as parent. */
  lemma FirstParents(h: Links, s: Shape, v: seq<Article>, k: nat, i: nat, j: nat)
    requires Tight(h, v, k, i) && Wf(h, s) && k < j <= i && v[j] !in v[..j]
    ensures v[j - 1] in h.parent && h.parent[v[j - 1]] == v[j]
  {
    hide Once;
    WfElim(h, s);
    KeysAgree(h, s);
    assert Met(h, v, j) && KidsOk(h, s, v[j]);
    assert s.kids[v[j]] != [] && s.kids[v[j]][0] in s.kids[v[j]];
  }

  lemma SecondOf(h: Links, s: Shape, w: Article, c: Article, d: Article)
    requires Wf(h, s) && w in h.child1 && h.child1[w] == c && c in h.sibling && h.sibling[c] == d
    ensures d in h.parent && h.parent[d] == w
  {
    assert KidsOk(h, s, w);
    var l := s.kids[w];
    assert h.child1[w] == At(l, 0) && h.sibling[l[0]] == At(l, 1) && l[1] in l;
  }

  /** From `v[k]` the way up leads to all that was met after it. */
  lemma {:induction false} ComesTo(p: ParentMap, v: seq<Article>, k: nat, j: nat)
    requires k <= j < |v| && Once(v, k)
    requires forall i :: k < i <= j && v[i] !in v[..i] ==> v[i - 1] in p && p[v[i - 1]] == v[i]
    ensures Comes(p, v[k], v[j])
    decreases j
  {
    if j == k {
      assert Up(p, v[k], 0) == v[k];
    } else if v[j] in v[..j] {
      var i: nat :| i < j && v[..j][i] == v[j];
      assert v[i] == v[j];
      ComesTo(p, v, k, i);
    } else {
      ComesTo(p, v, k, j - 1);
      var m: nat :| Up(p, v[k], m) == v[j - 1];
      UpNext(p, v[k], m);
      assert Up(p, v[k], m + 1) == v[j];
    }
  }

  /** Whatever child of the article is cut off. */
  lemma TightIsNoForest(h: Links, s: Shape, c: Article?, a: Article, v: seq<Article>, k: nat, i: nat)
    requires Tight(h, v, k, i) && forall j :: 1 <= j < |v| ==> v[j] != a
    ensures !Mended(h, a, s, c)
  {
    hide Wf, Grounded, Met;
    if Mended(h, a, s, c) {
      var p := if c == null then h.parent else h.parent[c := null];
      SecondOf(h, s, v[k], v[k - 1], v[i]);
      forall j | k < j <= i && v[j] !in v[..j] ensures v[j - 1] in p && p[v[j - 1]] == v[j] {
        FirstParents(h, s, v, k, i, j);
      }
      ComesTo(p, v, k, i);
      var m: nat :| Up(p, v[k], m) == v[i];
      UpNext(p, v[k], m);
      GroundedEnds1(p, v[k]);
      var e: nat :| Up(p, v[k], e) == null;
      CycleNeverEnds(p, v[k], m + 1, e);
    }
  }

  lemma KnotOff(h: Links, a: Article, v: seq<Article>, n: nat, k: nat, linked: set<Article>)
    requires Knot(h, a, v, n, k, linked)
    ensures forall j :: 1 <= j < |v| ==> v[j] != a
  {
    hide Once, Tied, Closed, OnlyFrom, Childless, FakesHang;
    forall j | 1 <= j < |v| ensures v[j] != a {
      assert v[1..][j - 1] == v[j];
    }
  }

  lemma GroundedEnds1(p: ParentMap, a: Article)
    requires Grounded(p) && a in p
    ensures exists n: nat :: Up(p, a, n) == null
  {
    assert Ends(p, a);
  }

  /** The first of what is repeated. */
  lemma {:induction false} FirstRepeated(v: seq<Article>, i: nat, j: nat) returns (k: nat, q: nat)
    requires i < j < |v| && v[i] == v[j]
    ensures k <= i && k < q < |v| && v[k] == v[q] && Once(v, k)
  {
    if i', j' :| 0 <= i' < i && 0 <= j' < |v| && i' != j' && v[i'] == v[j'] {
      k, q := FirstRepeated(v, if i' < j' then i' else j', if i' < j' then j' else i');
    } else {
      k, q := i, j;
    }
  }

  // ---- Where the knot is tied ----------------------------------------------------------------------------------

  lemma ChildLinked(g: State, y: Article)
    requires Wf(g.h, g.s)
    ensures y in g.h.child1 && g.h.child1[y] != null ==> g.h.child1[y] in g.s.home && Par(g, g.h.child1[y]) == y
  {
    hide Wf, NoDup, Domains;
    WfElim(g.h, g.s);
    if y in g.h.child1 && g.h.child1[y] != null {
      KeysAgree(g.h, g.s);
      assert KidsOk(g.h, g.s, y);
      assert g.s.kids[y][0] in g.s.kids[y];
    }
  }

  lemma KeysAgree(h: Links, s: Shape)
    requires Domains(h, s)
    ensures h.child1.Keys == h.parent.Keys
  {
  }

  lemma SiblingLinked(g: State, m: Article)
    requires Wf(g.h, g.s)
    ensures m in g.s.home && m in g.h.sibling && g.h.sibling[m] != null ==>
      g.h.sibling[m] in g.s.home && Par(g, g.h.sibling[m]) == Par(g, m)
  {
    hide Wf, NoDup, Cycle;
    if m in g.s.home && m in g.h.sibling && g.h.sibling[m] != null {
      UnlinkFacts(g, m);
      HomeFacts(g, m);
      RingFacts(g, g.s.home[m]);
      var l := ListWith(g, m);
      var i := IndexOf(l, m);
      assert g.h.sibling[l[i]] == At(l, i + 1) && l[i + 1] in l;
      SiblingParent(g, m, l[i + 1]);
    }
  }

  lemma SiblingParent(g: State, m: Article, y: Article)
    requires Wf(g.h, g.s) && m in g.s.home && y in ListWith(g, m)
    ensures y in g.s.home && Par(g, y) == Par(g, m)
  {
    hide Wf, NoDup, Chain;
    WfElim(g.h, g.s);
    assert Filed(g.h, g.s, m);
    HomeFacts(g, m);
    if g.h.parent[m] == null {
      assert TopsOk(g.h, g.s, g.s.home[m]);
    } else {
      assert KidsOk(g.h, g.s, g.h.parent[m]);
    }
  }

  /** What a rung of the chain is in the pointers. */
  lemma RungPointers(g: State, a: Article, base: Subject, chain: seq<Article>, j: int)
    requires Chained(g, a, base, chain) && 1 <= j < |chain|
    ensures chain[j] in g.h.child1 && g.h.child1[chain[j]] == chain[j - 1] && chain[j - 1] in g.s.home
    ensures chain[j - 1] in g.h.sibling && g.h.sibling[chain[j - 1]] == null && Par(g, chain[j - 1]) == chain[j]
    ensures Kids(g, chain[j]) == [chain[j - 1]]
    ensures Subj(g, chain[j]) == null && Date(g, chain[j]) == Date(g, a) && chain[j] in g.h.parent
  {
    hide Wf, Grounded, Coherent;
    var i := j - 1;
    assert Rung(g, base, chain, i) && chain[j] in chain;
    KidsPointers(g, chain[j]);
  }

  lemma KidsPointers(g: State, p: Article)
    requires Wf(g.h, g.s) && p in g.h.parent
    ensures p in g.h.child1 && Chain(g.h.sibling, g.h.child1[p], Kids(g, p))
  {
    assert KidsOk(g.h, g.s, p);
  }

  lemma ChainTrails(g: State, a: Article, base: Subject, chain: seq<Article>, v: seq<Article>)
    requires Chained(g, a, base, chain) && Date(g, a) == 0 && chain <= v
    ensures Trailing(g.h, v, |chain|) && SameKeys(g.h)
  {
    hide Wf, Grounded, Coherent, Rung, NoDup;
    WfDomains(g);
    forall j | 0 <= j < |chain| ensures v[j] in g.h.parent && DateIn(g.h, v[j]) == 0 && (j > 0 ==> Faceless(g.h, v[j])) {
      assert v[j] == chain[j] && chain[j] in chain;
      if j > 0 {
        RungPointers(g, a, base, chain, j);
      }
    }
    forall j | 1 <= j < |chain| ensures Met(g.h, v, j) {
      RungPointers(g, a, base, chain, j);
    }
  }

  lemma ChildlessOff(g: State, a: Article, base: Subject, chain: seq<Article>, x: Article)
    requires Chained(g, a, base, chain) && x in g.h.parent && Subj(g, x) == null && x !in chain
    ensures x in g.h.child1 && g.h.child1[x] == null
  {
    hide Wf, Grounded, Rung, NoDup;
    assert x !in chain[1..];
    assert x in g.s.home ==> Placed(g, x, Last(chain), base, chain[1..]);
    assert Last(chain) in chain;
    LooseAt(g, a, Last(chain), base, chain[1..], x);
    KidsPointers(g, x);
  }

  lemma ChainClosed(g: State)
    requires Wf(g.h, g.s)
    ensures Closed(g.h, g.s.home.Keys)
  {
    hide Wf, FirstsIn, NextsIn;
    WfDomains(g);
    ChainFirsts(g);
    ChainNexts(g);
    forall t | t in g.h.thread && g.h.thread[t] != null
      ensures g.h.thread[t] in g.s.home.Keys && !IsChild(g.h, g.h.thread[t])
    {
      HeadLinked(g, t);
    }
  }

  lemma ChainFirsts(g: State)
    requires Wf(g.h, g.s)
    ensures FirstsIn(g.h, g.s.home.Keys)
  {
    hide Wf;
    WfDomains(g);
    forall y | y in g.h.child1 && g.h.child1[y] != null
      ensures g.h.child1[y] in g.s.home.Keys && IsChild(g.h, g.h.child1[y])
    {
      ChildLinked(g, y);
    }
  }

  lemma ChainNexts(g: State)
    requires Wf(g.h, g.s)
    ensures NextsIn(g.h, g.s.home.Keys)
  {
    hide Wf;
    forall m | m in g.s.home.Keys && m in g.h.sibling && g.h.sibling[m] != null
      ensures g.h.sibling[m] in g.s.home.Keys && (IsChild(g.h, g.h.sibling[m]) <==> IsChild(g.h, m))
    {
      SiblingLinked(g, m);
    }
  }

  lemma HeadLinked(g: State, t: Subject)
    requires Wf(g.h, g.s) && t in g.h.thread && g.h.thread[t] != null
    ensures g.h.thread[t] in g.s.home && Par(g, g.h.thread[t]) == null
  {
    hide Wf, NoDup;
    WfElim(g.h, g.s);
    assert TopsOk(g.h, g.s, t);
    assert g.s.tops[t][0] in g.s.tops[t];
  }

  /** Who is linked at the top has a subject. */
  lemma ChainFakesHang(g: State, a: Article, base: Subject, chain: seq<Article>)
    requires Chained(g, a, base, chain)
    ensures FakesHang(g.h, g.s.home.Keys)
  {
    hide Wf, Grounded, NoDup;
    forall x | x in g.s.home.Keys && Faceless(g.h, x) ensures IsChild(g.h, x) {
      assert Placed(g, x, Last(chain), base, chain[1..]);
      var j :| 0 <= j < |chain[1..]| && chain[1..][j] == x;
      if j + 1 < |chain| - 1 {
        assert Rung(g, base, chain, j + 1);
      }
    }
  }

  lemma ChainOnlyFrom(g: State, a: Article, base: Subject, chain: seq<Article>, k: nat)
    requires Chained(g, a, base, chain) && 1 <= k < |chain|
    ensures OnlyFrom(g.h, g.s.home.Keys, chain[k], chain[k - 1]) && chain[k - 1] in g.h.sibling && g.h.sibling[chain[k - 1]] == null
  {
    hide Wf, Chained;
    var w, c := chain[k], chain[k - 1];
    RungPointers(g, a, base, chain, k);
    ChainedReady(g, a, base, chain);
    WfDomains(g);
    forall y | y in g.h.child1 && y != w ensures g.h.child1[y] != c {
      ChildLinked(g, y);
    }
    forall m | m in g.s.home.Keys && m in g.h.sibling ensures g.h.sibling[m] != c {
      SiblingLinked(g, m);
      HomeFacts(g, m);
      assert Par(g, m) == w ==> m in Kids(g, w);
    }
  }

  /** Up to the first repeat there is only the chain. */
  lemma ChainIsKnot(g: State, a: Article, base: Subject, chain: seq<Article>, v: seq<Article>, k: nat)
    requires Chained(g, a, base, chain) && Date(g, a) == 0 && chain <= v && 1 <= k < |chain| && Once(v, k) && a !in v[1..]
    ensures Knot(g.h, a, v, |chain|, k, g.s.home.Keys)
  {
    hide Chained, Wf, Once, Closed, OnlyFrom, Trailing, FakesHang;
    ChainTrails(g, a, base, chain, v);
    ChainedReady(g, a, base, chain);
    ChainClosed(g);
    ChainOnlyFrom(g, a, base, chain, k);
    ChainTied(g, a, base, chain, v, k);
    ChainFakesHang(g, a, base, chain);
    RungPointers(g, a, base, chain, k);
    forall x | x in g.h.child1 && Faceless(g.h, x) && x !in v[..|chain|] ensures g.h.child1[x] == null {
      ChildlessOff(g, a, base, chain, x);
    }
  }

  lemma ChainTied(g: State, a: Article, base: Subject, chain: seq<Article>, v: seq<Article>, k: nat)
    requires Chained(g, a, base, chain) && chain <= v && 1 <= k < |chain|
    requires chain[k - 1] in g.h.sibling && g.h.sibling[chain[k - 1]] == null
    ensures Tied(g.h, v, |chain|, k) && v[0] == a && v[k] == chain[k] && v[k - 1] == chain[k - 1]
  {
    hide Wf, Grounded, Rung, Coherent;
  }

  // ---- Without a repeat the walk is the one of `ReadReferences` --------------------------------------------------

  /** The walk stands as the model says (`gs` is the state before the last link of a hit). */
  ghost predicate Agrees(g0: State, t0: Table, a: Article, base: Subject, rethreading: bool, w: Walk, v: Walker,
                         g: State, gs: State) {
    && v.h == g.h
    && if v.stopped then
         && w.stopped
         && (Missed(g0, t0, a, base, rethreading, g, v.table, w, v.ap, v.trail)
             || Hit(g0, t0, a, base, rethreading, g, v.table, w, v.ap, v.trail, gs))
       else WalkInv(g0, t0, a, base, rethreading, g, v.table, w, v.trail, {}) && v.ap == Top(v.trail)
  }

  ghost function CutCandidates(h: Links): set<Article?> {
    {null} + set x <- h.parent.Keys :: x
  }

  lemma LookUpAgrees(g0: State, t0: Table, a: Article, base: Subject, rethreading: bool, w: Walk, v: Walker, g: State,
                     gs: State, id: string, x: Article, v1: Walker) returns (g1: State)
    requires !v.stopped && Agrees(g0, t0, a, base, rethreading, w, v, g, gs) && LooksUp(v, id, x, v1)
    ensures WalkInv(g0, t0, a, base, rethreading, g1, v1.table, w, v1.trail, {id}) && v1.h == g1.h
    ensures id in v1.table && v1.table[id] == x && v1.trail == v.trail && !v1.stopped
  {
    hide WalkInv, KindOf, Unknown;
    if id in v.table {
      g1 := g;
      FoundPending(g0, t0, a, base, rethreading, g, v.table, w, v.trail, id);
    } else {
      g1 := Added(g, x);
      InvWf(g0, t0, a, base, rethreading, g, v.table, w, v.trail, {});
      NotYetKnown(g, x);
      StepAdded(g0, t0, a, base, rethreading, g, v.table, w, v.trail, id, x);
    }
  }

  lemma InvWf(g0: State, t0: Table, a: Article, base: Subject, rethreading: bool,
              g: State, t: Table, w: Walk, chain: seq<Article>, pending: set<string>)
    requires WalkInv(g0, t0, a, base, rethreading, g, t, w, chain, pending)
    ensures Wf(g.h, g.s) && Domains(g.h, g.s) && Date(g, a) == Date(g0, a)
    ensures chain != [] && Last(chain) in g.h.parent
  {
    hide Wf, Grounded, Coherent, Rung, NoDup, TableFits, TableGrew, Domains;
    InvParts(g0, t0, a, base, rethreading, g, t, w, chain, pending);
    StandingWf(g, a, base, rethreading, chain);
    WfDomains(g);
  }

  /** Moving out and hanging is what `AttachedTo` says. */
  lemma HangsAgrees(g: State, a: Article, base: Subject, rethreading: bool, chain: seq<Article>, x: Article, h1: Links, h2: Links)
    requires Standing(g, a, base, rethreading, chain) && chain != [] && x in g.h.parent
    requires MovesOut(g.h, Last(chain), rethreading, h1) && Hangs(h1, Last(chain), x, h2)
    ensures h2 == AttachedTo(g, a, base, rethreading, chain, x).h
  {
    hide Wf, Standing, Attached, CutOff, LinksUnder, Unlinks, AfterUnlink, AfterLink;
    var prev := Last(chain);
    AttachReady(g, a, base, rethreading, chain);
    AttachedIs(g, a, base, rethreading, chain, x);
    var g1 := if rethreading && chain == [a] then AfterUnlink(g, a) else g;
    if rethreading && chain == [a] {
      UnlinksAsModelled(g, a, h1);
    }
    LinksAsModelled(SetParent(g1, prev, x), prev, base, h2);
  }

  /** A reference that counts. */
  lemma HungAgrees(g0: State, t0: Table, a: Article, base: Subject, rethreading: bool, w: Walk, g: State, id: string,
                   t: Turn, v': Walker) returns (g': State, gs: State)
    requires WalkInv(g0, t0, a, base, rethreading, g, t.found.table, w, t.found.trail, {id}) && t.found.h == g.h
    requires Standing(g0, a, base, rethreading, [a]) && !t.found.stopped
    requires id in t.found.table && t.found.table[id] == t.x && Handles(a, rethreading, t, v') && !Skips(a, t.found.h, t.x)
    requires Date(g0, a) != 0 || !Extended(g0, t0, a, w, MessageId(id)).repeated
    ensures Agrees(g0, t0, a, base, rethreading, Extended(g0, t0, a, w, MessageId(id)), v', g', gs)
  {
    hide WalkInv, Standing, KindOf, Extended, Hangs, MovesOut, Unlinks, AttachedTo, Hit, Mended, Wf;
    var v, x := t.found, t.x;
    InvWf(g0, t0, a, base, rethreading, g, v.table, w, v.trail, {id});
    InvParts(g0, t0, a, base, rethreading, g, v.table, w, v.trail, {id});
    Verdict(g0, t0, a, base, rethreading, g, v.table, w, v.trail, id);
    if Subj(g, x) != null {
      HitAt(g0, t0, a, base, rethreading, g, v.table, w, v.trail, id);
      HangsAgrees(g, a, base, rethreading, v.trail, x, t.out, t.hung);
      g' := AttachedTo(g, a, base, rethreading, v.trail, x);
      gs := Base0(g, a, rethreading, v.trail);
    } else {
      FreshAt(g0, t0, a, base, rethreading, g, v.table, w, v.trail, id);
      HangsAgrees(g, a, base, rethreading, v.trail, x, t.out, t.hung);
      var g1 := AttachedTo(g, a, base, rethreading, v.trail, x);
      AttachedDates(g, a, base, rethreading, v.trail, x);
      g' := SetDate(g1, x, Date(g, a));
      gs := g1;
    }
  }

  lemma AttachedDates(g: State, a: Article, base: Subject, rethreading: bool, chain: seq<Article>, x: Article)
    requires Standing(g, a, base, rethreading, chain) && x in g.h.parent
    ensures AttachedTo(g, a, base, rethreading, chain, x).h.date == g.h.date
  {
    hide Wf, Standing, Attached;
    AttachedIs(g, a, base, rethreading, chain, x);
    ReadyToAttach(g, a, base, rethreading, chain);
    AttachedFields(Base0(g, a, rethreading, chain), Last(chain), x, base);
  }

  /** When the walk ended under an article of a thread, the climb finds what to cut off. */
  lemma HitMended(g0: State, t0: Table, a: Article, base: Subject, rethreading: bool,
                  g: State, t: Table, w: Walk, ap: Article?, chain: seq<Article>, gs: State)
    requires Hit(g0, t0, a, base, rethreading, g, t, w, ap, chain, gs) && Standing(g0, a, base, rethreading, [a])
    ensures exists c :: c in CutCandidates(g.h) && Mended(g.h, a, g.s, c)
  {
    hide Wf, Grounded, Chained, Hit, Climbable, Climbed, Up;
    HitEnds(g0, t0, a, base, rethreading, g, t, w, ap, chain, gs);
    HitKnown(g0, t0, a, base, rethreading, g, t, w, ap, chain, gs);
    ClimbStarts(gs.h.parent, chain, a, ap, g.h.parent);
    var n: nat :| Up(gs.h.parent, ap, n) == null;
    var m, c := ClimbTakes(gs.h.parent, chain, a, ap, g.h.parent, n, 0);
    ClimbSettles(gs.h.parent, chain, a, ap, g.h.parent, m, c);
    assert c in CutCandidates(g.h) && Mended(g.h, a, g.s, c);
  }

  lemma ClimbInside(p: ParentMap, chain: seq<Article>, a: Article, start: Article, p': ParentMap, m: nat)
    requires Climbable(p, chain, a, start, p')
    requires forall q {:trigger ParentKnown(p, q)} :: q in p ==> ParentKnown(p, q)
    ensures Up(p, start, m) != null ==> Up(p, start, m) in p
  {
    UpIn(p, start, m);
  }

  lemma HitKnown(g0: State, t0: Table, a: Article, base: Subject, rethreading: bool,
                 g: State, t: Table, w: Walk, ap: Article?, chain: seq<Article>, gs: State)
    requires Hit(g0, t0, a, base, rethreading, g, t, w, ap, chain, gs)
    ensures forall q {:trigger ParentKnown(gs.h.parent, q)} :: q in gs.h.parent ==> ParentKnown(gs.h.parent, q)
    ensures ap != null && Chained(gs, a, base, chain) && ap in gs.h.parent && g == AttachedAt(gs, a, base, chain, ap) && Wf(g.h, g.s)
  {
    hide Wf, Attached;
    ChainedReady(gs, a, base, chain);
    WfDomains(gs);
    AttachedFields(gs, Last(chain), ap, base);
  }

  lemma {:induction false} ClimbTakes(p: ParentMap, chain: seq<Article>, a: Article, start: Article, p': ParentMap, n: nat, m0: nat)
    returns (m: nat, c: Article?)
    requires Climbable(p, chain, a, start, p') && Up(p, start, n) == null && OffChain(p, chain, start, m0)
    requires forall q {:trigger ParentKnown(p, q)} :: q in p ==> ParentKnown(p, q)
    ensures Climbed(p, chain, a, start, m, c)
    decreases n - m0
  {
    hide Climbable, OffChain, Climbed, Grounded;
    var x := Up(p, start, m0);
    if x == null {
      m, c := m0, null;
      ClimbEnds(p, chain, a, start, m0);
    } else {
      ClimbInside(p, chain, a, start, p', m0);
      if p[x] == a {
        m, c := m0, x;
        ClimbReads(p, chain, a, start, p', m0, x);
      } else {
        ClimbOn(p, chain, a, start, p', m0, x);
        if n <= m0 {
          UpStaysNull(p, start, n, m0);
        }
        m, c := ClimbTakes(p, chain, a, start, p', n, m0 + 1);
      }
    }
  }

  lemma StandingGrounded(g: State, a: Article, base: Subject, rethreading: bool, chain: seq<Article>)
    requires Standing(g, a, base, rethreading, chain)
    ensures Grounded(g.h.parent) && Wf(g.h, g.s)
  {
    hide Wf, Grounded, Coherent, Rung, NoDup;
  }

  lemma StepAgrees(g0: State, t0: Table, a: Article, base: Subject, rethreading: bool, w: Walk, v: Walker, g: State,
                   gs: State, r: Reference, t: Turn, v': Walker) returns (g': State, gs': State)
    requires Agrees(g0, t0, a, base, rethreading, w, v, g, gs) && Step(a, rethreading, r, v, t, v')
    requires Standing(g0, a, base, rethreading, [a])
    requires Date(g0, a) != 0 || !Extended(g0, t0, a, w, r).repeated
    ensures Agrees(g0, t0, a, base, rethreading, Extended(g0, t0, a, w, r), v', g', gs')
  {
    hide WalkInv, Standing, KindOf, Hangs, MovesOut, Mended, Wf, Grounded;
    g', gs' := g, gs;
    if !v.stopped && r.Garbage? {
      ReadToTheEnd(g0, t0, a, base, rethreading, g, v.table, w, v.ap, v.trail);
    } else if !v.stopped {
      g' := LookUpAgrees(g0, t0, a, base, rethreading, w, v, g, gs, r.id, t.x, t.found);
      InvNotStopped(g0, t0, a, base, rethreading, g', t.found.table, w, t.found.trail, {r.id});
      if Skips(a, t.found.h, t.x) {
        InvWf(g0, t0, a, base, rethreading, g', t.found.table, w, t.found.trail, {r.id});
        InvParts(g0, t0, a, base, rethreading, g', t.found.table, w, t.found.trail, {r.id});
        Verdict(g0, t0, a, base, rethreading, g', t.found.table, w, t.found.trail, r.id);
        StepSkipped(g0, t0, a, base, rethreading, g', t.found.table, w, t.found.trail, r.id,
                    Extended(g0, t0, a, w, r));
      } else {
        g', gs' := HungAgrees(g0, t0, a, base, rethreading, w, g', r.id, t, v');
      }
    }
  }

  lemma InvNotStopped(g0: State, t0: Table, a: Article, base: Subject, rethreading: bool,
                      g: State, t: Table, w: Walk, chain: seq<Article>, pending: set<string>)
    requires WalkInv(g0, t0, a, base, rethreading, g, t, w, chain, pending)
    ensures !w.stopped
  {
    hide Standing, TableFits, TableGrew, OthersKept;
  }

  lemma IsMended(h: Links, a: Article, s: Shape)
    requires Wf(h, s) && Grounded(h.parent)
    ensures Mended(h, a, s, null)
  {
    hide Wf, Grounded;
  }

  lemma {:induction false} RunAgrees(g0: State, t0: Table, a: Article, base: Subject, rethreading: bool,
                                     refs: seq<Reference>, turns: seq<Turn>, run: seq<Walker>, i: nat) returns (g: State, gs: State)
    requires Standing(g0, a, base, rethreading, [a]) && TableFits(t0, g0.h.parent.Keys) && i <= |refs|
    requires Run(g0.h, t0, a, rethreading, refs, turns, run)
    requires Date(g0, a) != 0 || !WalkOf(g0, t0, a, refs[..i]).repeated
    ensures Agrees(g0, t0, a, base, rethreading, WalkOf(g0, t0, a, refs[..i]), run[i], g, gs)
  {
    hide WalkInv, Standing, TableFits, WalkOf, Step;
    if i == 0 {
      g, gs := g0, g0;
      WalkStarts(g0, t0, a, base, rethreading, refs);
    } else {
      var j := i - 1;
      WalkSnoc(g0, t0, a, refs, j);
      g, gs := RunAgrees(g0, t0, a, base, rethreading, refs, turns, run, j);
      assert Step(a, rethreading, refs[j], run[j], turns[j], run[i]);
      g, gs := StepAgrees(g0, t0, a, base, rethreading, WalkOf(g0, t0, a, refs[..j]), run[j], g, gs, refs[j], turns[j], run[i]);
    }
  }

  /** Without a repeat the walk ends as the model says: with a hit or without. */
  lemma RunEnds(g0: State, t0: Table, a: Article, base: Subject, rethreading: bool,
                refs: seq<Reference>, turns: seq<Turn>, run: seq<Walker>) returns (g: State, gs: State, hit: bool)
    requires Standing(g0, a, base, rethreading, [a]) && TableFits(t0, g0.h.parent.Keys)
    requires Run(g0.h, t0, a, rethreading, refs, turns, run)
    requires Date(g0, a) != 0 || !WalkOf(g0, t0, a, refs).repeated
    ensures
      var v, w := run[|refs|], WalkOf(g0, t0, a, refs);
      && v.h == g.h
      && if hit then Hit(g0, t0, a, base, rethreading, g, v.table, w, v.ap, v.trail, gs)
         else Missed(g0, t0, a, base, rethreading, g, v.table, w, v.ap, v.trail)
  {
    hide Standing, TableFits, WalkOf, Step, WalkInv, Missed, Hit;
    assert refs[..|refs|] == refs;
    var v, w := run[|refs|], WalkOf(g0, t0, a, refs);
    g, gs := RunAgrees(g0, t0, a, base, rethreading, refs, turns, run, |refs|);
    hit := v.stopped && Hit(g0, t0, a, base, rethreading, g, v.table, w, v.ap, v.trail, gs);
    if !v.stopped {
      ReadToTheEnd(g0, t0, a, base, rethreading, g, v.table, w, v.ap, v.trail);
    }
  }

  lemma MissedMended(g0: State, t0: Table, a: Article, base: Subject, rethreading: bool,
                     g: State, t: Table, w: Walk, ap: Article?, chain: seq<Article>)
    requires Missed(g0, t0, a, base, rethreading, g, t, w, ap, chain)
    ensures Mended(g.h, a, g.s, null)
  {
    hide WalkInv, Wf, Grounded, Mended;
    InvParts(g0, t0, a, base, rethreading, g, t, w.(stopped := false), chain, {});
    StandingGrounded(g, a, base, rethreading, chain);
    IsMended(g.h, a, g.s);
  }

  // ---- With a repeat ------------------------------------------------------------------------------------------------

  lemma {:induction false} FirstRepeatAt(g: State, t: Table, a: Article, refs: seq<Reference>, n: nat) returns (i: nat)
    requires n <= |refs| && WalkOf(g, t, a, refs[..n]).repeated
    ensures i < n && !WalkOf(g, t, a, refs[..i]).repeated && WalkOf(g, t, a, refs[..i + 1]).repeated
  {
    hide KindOf;
    i := n - 1;
    WalkSnoc(g, t, a, refs, i);
    if WalkOf(g, t, a, refs[..i]).repeated {
      i := FirstRepeatAt(g, t, a, refs, i);
    }
  }

  /** The trail only gets longer, and never leads back to the article. */
  lemma {:induction false} TrailsGrow(h: Links, table: Table, a: Article, rethreading: bool, refs: seq<Reference>,
                                      turns: seq<Turn>, run: seq<Walker>, i: nat, j: nat)
    requires Run(h, table, a, rethreading, refs, turns, run) && i <= j <= |refs|
    ensures run[i].trail <= run[j].trail && run[j].trail != [] && a !in run[j].trail[1..]
    decreases j
  {
    hide Hangs, MovesOut;
    if j > 0 {
      var m := j - 1;
      TrailsGrow(h, table, a, rethreading, refs, turns, run, if i == j then m else i, m);
      assert Step(a, rethreading, refs[m], run[m], turns[m], run[j]);
      TrailLonger(a, rethreading, refs[m], run[m], turns[m], run[j]);
    }
  }

  lemma TrailLonger(a: Article, rethreading: bool, r: Reference, v: Walker, t: Turn, v': Walker)
    requires Step(a, rethreading, r, v, t, v') && v.trail != [] && a !in v.trail[1..]
    ensures v.trail <= v'.trail && a !in v'.trail[1..]
  {
    hide Hangs, MovesOut;
  }

  /** The first repeat hangs the chain under one of its own. */
  lemma RepeatHung(g0: State, t0: Table, a: Article, base: Subject, rethreading: bool, w: Walk, v: Walker, g: State,
                   gs: State, r: Reference, t: Turn, v': Walker)
    requires Agrees(g0, t0, a, base, rethreading, w, v, g, gs) && Step(a, rethreading, r, v, t, v')
    requires !w.repeated && Extended(g0, t0, a, w, r).repeated && Date(g0, a) == 0
    ensures !v.stopped && v.h == g.h && |v.trail| > 1 && Chained(g, a, base, v.trail) && Date(g, a) == 0
    ensures v'.trail == v.trail + [t.x] && t.x in v.trail
  {
    hide Hangs, Unlinks, KindOf, Mended, Wf, Grounded, Chained, Tidy, OthersKept, TableFits;
    assert !v.stopped;
    FoundPending(g0, t0, a, base, rethreading, g, v.table, w, v.trail, r.id);
    assert r.id in v.table && r.id in w.path;
    Classify(g0, t0, a, base, rethreading, g, v.table, w, v.trail, r.id);
    InvWf(g0, t0, a, base, rethreading, g, v.table, w, v.trail, {});
    InvParts(g0, t0, a, base, rethreading, g, v.table, w, v.trail, {});
    LongChain(g, a, base, rethreading, v.trail, t.x);
    HungKeeps(t.out, Last(v.trail), t.x, t.hung);
  }

  lemma LongChain(g: State, a: Article, base: Subject, rethreading: bool, chain: seq<Article>, x: Article)
    requires Standing(g, a, base, rethreading, chain) && x in chain && x != a && chain != [] && chain[0] == a
    ensures |chain| > 1 && Chained(g, a, base, chain) && Subj(g, Last(chain)) == null
  {
    hide Chained, Tidy;
    assert |chain| > 1;
    LastIsFake(g, a, base, rethreading, chain);
  }

  lemma {:induction false} KnotToTheEnd(h: Links, table: Table, a: Article, rethreading: bool, refs: seq<Reference>,
                                        turns: seq<Turn>, run: seq<Walker>, i: nat, j: nat, k: nat, linked: set<Article>)
    returns (linked': set<Article>)
    requires Run(h, table, a, rethreading, refs, turns, run) && i <= j <= |refs|
    requires Knot(run[i].h, a, run[|refs|].trail, |run[i].trail|, k, linked)
    ensures Knot(run[j].h, a, run[|refs|].trail, |run[j].trail|, k, linked')
    decreases j
  {
    hide Knot, Step;
    linked' := linked;
    if i < j {
      var m := j - 1;
      linked' := KnotToTheEnd(h, table, a, rethreading, refs, turns, run, i, m, k, linked);
      assert Step(a, rethreading, refs[m], run[m], turns[m], run[j]);
      TrailsGrow(h, table, a, rethreading, refs, turns, run, m, |refs|);
      TrailsGrow(h, table, a, rethreading, refs, turns, run, j, |refs|);
      linked' := KnotStays(a, rethreading, refs[m], run[m], turns[m], run[j], run[|refs|].trail, k, linked');
    }
  }

  /** A dateless article with a repeated reference: there is a knot at the end of the walk. */
  lemma RepeatsTie(g0: State, t0: Table, a: Article, base: Subject, rethreading: bool,
                   refs: seq<Reference>, turns: seq<Turn>, run: seq<Walker>)
    returns (k: nat, i: nat, linked: set<Article>)
    requires Standing(g0, a, base, rethreading, [a]) && TableFits(t0, g0.h.parent.Keys)
    requires Run(g0.h, t0, a, rethreading, refs, turns, run)
    requires Date(g0, a) == 0 && WalkOf(g0, t0, a, refs).repeated
    ensures
      var v := run[|refs|];
      Knot(v.h, a, v.trail, |v.trail|, k, linked) && Tight(v.h, v.trail, k, i)
  {
    hide Standing, TableFits, WalkOf, Step, Agrees, Knot, Tight, Once, Chained, Extended;
    var N := |refs|;
    assert refs[..N] == refs;
    var r := FirstRepeatAt(g0, t0, a, refs, N);
    var g, gs := RunAgrees(g0, t0, a, base, rethreading, refs, turns, run, r);
    WalkSnoc(g0, t0, a, refs, r);
    var w, chain, trail := WalkOf(g0, t0, a, refs[..r]), run[r].trail, run[N].trail;
    assert Step(a, rethreading, refs[r], run[r], turns[r], run[r + 1]);
    RepeatHung(g0, t0, a, base, rethreading, w, run[r], g, gs, refs[r], turns[r], run[r + 1]);
    TrailsGrow(g0.h, t0, a, rethreading, refs, turns, run, r + 1, N);
    TrailsGrow(g0.h, t0, a, rethreading, refs, turns, run, 0, N);
    var m, n := IndexOf(chain, turns[r].x), |chain|;
    assert run[r + 1].trail[n] == turns[r].x && run[r + 1].trail[m] == turns[r].x;
    var q;
    k, q := FirstRepeated(trail, m, n);
    assert run[0].trail[0] == a && trail[1..][q - 1] == trail[q];
    ChainIsKnot(g, a, base, chain, trail, k);
    linked := KnotToTheEnd(g0.h, t0, a, rethreading, refs, turns, run, r, N, k, g.s.home.Keys);
    i := KnotTight(run[N].h, a, trail, |trail|, k, linked, q);
  }

  /** Whatever shape one looks for and whatever child of the article is cut off, what the walk
      leaves is no forest. */
  lemma RepeatsLeaveNoForest(g0: State, t0: Table, a: Article, base: Subject, rethreading: bool,
                             refs: seq<Reference>, turns: seq<Turn>, run: seq<Walker>, s: Shape, c: Article?)
    requires Standing(g0, a, base, rethreading, [a]) && TableFits(t0, g0.h.parent.Keys)
    requires Run(g0.h, t0, a, rethreading, refs, turns, run)
    requires Date(g0, a) == 0 && WalkOf(g0, t0, a, refs).repeated
    ensures !Mended(run[|refs|].h, a, s, c)
  {
    hide Standing, TableFits, WalkOf, Step, Mended, Knot, Tight;
    var k, i, linked := RepeatsTie(g0, t0, a, base, rethreading, refs, turns, run);
    var v := run[|refs|];
    KnotOff(v.h, a, v.trail, |v.trail|, k, linked);
    TightIsNoForest(v.h, s, c, a, v.trail, k, i);
  }

  /** The references end in a forest exactly when the article has a date or no reference that
      counts is repeated. */
  lemma ForestIffDatedOrNoRepeat(g0: State, t0: Table, a: Article, base: Subject, rethreading: bool,
                                 refs: seq<Reference>, turns: seq<Turn>, run: seq<Walker>)
    requires Standing(g0, a, base, rethreading, [a]) && TableFits(t0, g0.h.parent.Keys)
    requires Run(g0.h, t0, a, rethreading, refs, turns, run)
    ensures (exists s, c :: Mended(run[|refs|].h, a, s, c))
            <==> Date(g0, a) != 0 || !WalkOf(g0, t0, a, refs).repeated
  {
    hide Standing, TableFits, WalkOf, Mended, Step, WalkInv, Wf, Grounded;
    var h := run[|refs|].h;
    if Date(g0, a) != 0 || !WalkOf(g0, t0, a, refs).repeated {
      var w := WalkOf(g0, t0, a, refs);
      var g, gs, hit := RunEnds(g0, t0, a, base, rethreading, refs, turns, run);
      if hit {
        HitMended(g0, t0, a, base, rethreading, g, run[|refs|].table, w, run[|refs|].ap, run[|refs|].trail, gs);
      } else {
        MissedMended(g0, t0, a, base, rethreading, g, run[|refs|].table, w, run[|refs|].ap, run[|refs|].trail);
      }
    } else {
      forall s, c ensures !Mended(h, a, s, c) {
        RepeatsLeaveNoForest(g0, t0, a, base, rethreading, refs, turns, run, s, c);
      }
    }
  }

  // ---- One such input -----------------------------------------------------------------------------------------------

  /** A dateless article on its own, not linked yet. */
  ghost function Lone(a: Article, t: Subject): State {
    State(Links(map[a := null], map[a := null], map[a := null], map[a := t], map[a := 0], map[t := null], map[t := t]),
          Shape(map[a := []], map[t := []], map[t := [t]], map[]))
  }

  lemma LoneStands(a: Article, t: Subject)
    ensures Standing(Lone(a, t), a, t, false, [a]) && Date(Lone(a, t), a) == 0
  {
    var g := Lone(a, t);
    assert Ends(g.h.parent, a) by {
      assert Up(g.h.parent, a, 1) == null;
    }
    assert [a][1..] == [] && Last([a]) == a;
    assert ParentKnown(g.h.parent, a);
  }

  /** References x, y, x, z of a dateless article, none of them known. */
  ghost function Twice(): seq<Reference> {
    [MessageId("x"), MessageId("y"), MessageId("x"), MessageId("z")]
  }

  lemma TwiceRepeats(a: Article, t: Subject)
    ensures WalkOf(Lone(a, t), map[], a, Twice()).repeated
  {
    var g, refs := Lone(a, t), Twice();
    assert refs[..4] == refs;
    WalkSnoc(g, map[], a, refs, 3);
    WalkSnoc(g, map[], a, refs, 2);
    WalkSnoc(g, map[], a, refs, 1);
    WalkSnoc(g, map[], a, refs, 0);
  }

  ghost function TwiceTurn(a: Article, v: Walker, id: string, x: Article, h: Links): Turn {
    var found := if id in v.table then v else v.(h := WithNew(v.h, x), table := v.table[id := x]);
    Turn(x, found, found.h, h)
  }

  /** `d` hangs under `x`: as its first child, or behind its only child `e`. */
  ghost function HungFirst(h: Links, d: Article, x: Article): Links {
    h.(parent := h.parent[d := x], sibling := h.sibling[d := null], child1 := h.child1[x := d])
  }

  ghost function HungSecond(h: Links, d: Article, x: Article, e: Article): Links {
    h.(parent := h.parent[d := x], sibling := h.sibling[d := null][e := d])
  }

  /** The pointers of the example after its first reference, its second, and so on. */
  ghost function After1(a: Article, x: Article, t: Subject): Links {
    HungFirst(WithNew(Lone(a, t).h, x), a, x)
  }

  ghost function After2(a: Article, x: Article, y: Article, t: Subject): Links {
    HungFirst(WithNew(After1(a, x, t), y), x, y)
  }

  ghost function After3(a: Article, x: Article, y: Article, t: Subject): Links {
    HungSecond(After2(a, x, y, t), y, x, a)
  }

  ghost function After4(a: Article, x: Article, y: Article, z: Article, t: Subject): Links {
    HungFirst(WithNew(After3(a, x, y, t), z), x, z)
  }

  lemma HangsFirst(h: Links, d: Article, x: Article)
    requires d in h.parent && d in h.sibling && x in h.child1 && h.child1[x] == null
    ensures Hangs(h, d, x, HungFirst(h, d, x))
  {
  }

  lemma HangsSecond(h: Links, d: Article, x: Article, e: Article)
    requires d in h.parent && d in h.sibling && x in h.child1 && h.child1[x] == e && e in h.sibling && h.sibling[e] == null
    requires DateIn(h, e) <= DateIn(h, d) && d != e
    ensures Hangs(h, d, x, HungSecond(h, d, x, e))
  {
    var h1 := h.(parent := h.parent[d := x]);
    assert StopsAt(h1, e, DateIn(h1, d), 0);
    assert Behind(h1, d, e) == HungSecond(h, d, x, e);
  }

  /** One reference of the example: a fake, known or new, the last on the trail hangs under. */
  lemma TwiceStep(a: Article, v: Walker, id: string, x: Article, h: Links)
    requires v.trail != [] && !v.stopped && (if id in v.table then v.table[id] == x else x !in v.h.parent) && x != a
    requires
      var f := TwiceTurn(a, v, id, x, h).found.h;
      Faceless(f, x) && DateIn(f, a) == 0 && x in f.date && Hangs(f, Last(v.trail), x, h)
    ensures
      var t := TwiceTurn(a, v, id, x, h);
      Step(a, false, MessageId(id), v, t, Walker(h, t.found.table, v.trail + [x], x, false))
  {
    hide Hangs;
    var t := TwiceTurn(a, v, id, x, h);
    HungKeeps(t.found.h, Last(v.trail), x, h);
    assert h.date[x := 0] == h.date;
  }

  /** The third reference makes x its own grandparent. After the fourth every walk up ends
      again, but x stays in the child lists of both y and z. */
  lemma TwiceIsNoForest(a: Article, x: Article, y: Article, z: Article, t: Subject)
    returns (turns: seq<Turn>, run: seq<Walker>)
    requires NoDup([a, x, y, z])
    ensures Run(Lone(a, t).h, map[], a, false, Twice(), turns, run)
    ensures !Grounded(run[3].h.parent) && Grounded(run[4].h.parent)
    ensures y in run[4].h.child1 && z in run[4].h.child1 && run[4].h.child1[y] == x && run[4].h.child1[z] == x
    ensures forall s, c :: !Mended(run[4].h, a, s, c)
  {
    hide Mended, Grounded, Wf, After3, After4, Step;
    var l := [a, x, y, z];
    assert l[0] != l[1] && l[0] != l[2] && l[0] != l[3] && l[1] != l[2] && l[1] != l[3] && l[2] != l[3];
    turns, run := TwiceRuns(a, x, y, z, t);
    LoneStands(a, t);
    TwiceRepeats(a, t);
    forall s, c ensures !Mended(run[4].h, a, s, c) {
      RepeatsLeaveNoForest(Lone(a, t), map[], a, t, false, Twice(), turns, run, s, c);
    }
    TwiceClimbs(a, x, y, z, t);
    After4Reads(a, x, y, z, t);
  }

  lemma After3Reads(a: Article, x: Article, y: Article, t: Subject)
    requires a != x && a != y && x != y
    ensures
      var p := After3(a, x, y, t).parent;
      p.Keys == {a, x, y} && p[a] == x && p[x] == y && p[y] == x
  {
  }

  lemma After4Reads(a: Article, x: Article, y: Article, z: Article, t: Subject)
    requires a != x && a != y && a != z && x != y && x != z && y != z
    ensures
      var h := After4(a, x, y, z, t);
      && h.parent.Keys == {a, x, y, z} && h.parent[a] == x && h.parent[x] == z && h.parent[y] == x && h.parent[z] == null
      && y in h.child1 && z in h.child1 && h.child1[y] == x && h.child1[z] == x && z in h.sibling
      && h.thread == map[t := null] && h.link == map[t := t]
      && z in h.subj && x in h.subj && SubjIn(h, z) == null && SubjIn(h, x) == null
  {
  }

  lemma TwiceClimbs(a: Article, x: Article, y: Article, z: Article, t: Subject)
    requires a != x && a != y && a != z && x != y && x != z && y != z
    ensures !Grounded(After3(a, x, y, t).parent) && Grounded(After4(a, x, y, z, t).parent)
  {
    hide After3, After4;
    After3Reads(a, x, y, t);
    After4Reads(a, x, y, z, t);
    var p, q := After3(a, x, y, t).parent, After4(a, x, y, z, t).parent;
    assert Up(p, x, 2) == Up(p, y, 1) == Up(p, x, 0);
    forall n: nat ensures Up(p, x, n) != null {
      CycleNeverEnds(p, x, 2, n);
    }
    assert !Ends(p, x);
    assert Up(q, z, 1) == null;
    assert Up(q, x, 2) == Up(q, z, 1);
    assert Up(q, a, 3) == Up(q, x, 2) && Up(q, y, 3) == Up(q, x, 2);
  }

  lemma TwiceRuns(a: Article, x: Article, y: Article, z: Article, t: Subject) returns (turns: seq<Turn>, run: seq<Walker>)
    requires a != x && a != y && a != z && x != y && x != z && y != z
    ensures Run(Lone(a, t).h, map[], a, false, Twice(), turns, run)
    ensures run[3].h == After3(a, x, y, t) && run[4].h == After4(a, x, y, z, t) && run[4].ap == z
  {
    hide Step, Lone, After1, After2, After3, After4, TwiceTurn, WithNew, Hangs;
    var tx, ty := map["x" := x], map["x" := x]["y" := y];
    var v0 := Walker(Lone(a, t).h, map[], [a], null, false);
    var v1 := Walker(After1(a, x, t), tx, [a, x], x, false);
    var v2 := Walker(After2(a, x, y, t), ty, [a, x, y], y, false);
    var v3 := Walker(After3(a, x, y, t), ty, [a, x, y, x], x, false);
    var v4 := Walker(After4(a, x, y, z, t), ty["z" := z], [a, x, y, x, z], z, false);
    turns := [TwiceTurn(a, v0, "x", x, v1.h), TwiceTurn(a, v1, "y", y, v2.h), TwiceTurn(a, v2, "x", x, v3.h),
              TwiceTurn(a, v3, "z", z, v4.h)];
    run := [v0, v1, v2, v3, v4];
    TwiceFirst(a, x, t, v0, v1);
    TwiceSecond(a, x, y, t, v1, v2);
    TwiceThird(a, x, y, t, v2, v3);
    TwiceFourth(a, x, y, z, t, v3, v4);
  }

  lemma TwiceFirst(a: Article, x: Article, t: Subject, v0: Walker, v1: Walker)
    requires a != x && v0 == Walker(Lone(a, t).h, map[], [a], null, false)
    requires v1 == Walker(After1(a, x, t), map["x" := x], [a, x], x, false)
    ensures Step(a, false, MessageId("x"), v0, TwiceTurn(a, v0, "x", x, v1.h), v1)
  {
    hide Step, Hangs, HungFirst;
    HangsFirst(WithNew(v0.h, x), a, x);
    TwiceStep(a, v0, "x", x, v1.h);
    assert map["x" := x] == map[]["x" := x] && [a, x] == [a] + [x];
  }

  lemma TwiceSecond(a: Article, x: Article, y: Article, t: Subject, v1: Walker, v2: Walker)
    requires a != x && a != y && x != y && v1 == Walker(After1(a, x, t), map["x" := x], [a, x], x, false)
    requires v2 == Walker(After2(a, x, y, t), map["x" := x]["y" := y], [a, x, y], y, false)
    ensures Step(a, false, MessageId("y"), v1, TwiceTurn(a, v1, "y", y, v2.h), v2)
  {
    hide Step, Hangs;
    HangsFirst(WithNew(v1.h, y), x, y);
    TwiceStep(a, v1, "y", y, v2.h);
    assert [a, x, y] == [a, x] + [y];
  }

  lemma TwiceThird(a: Article, x: Article, y: Article, t: Subject, v2: Walker, v3: Walker)
    requires a != x && a != y && x != y
    requires v2 == Walker(After2(a, x, y, t), map["x" := x]["y" := y], [a, x, y], y, false)
    requires v3 == Walker(After3(a, x, y, t), map["x" := x]["y" := y], [a, x, y, x], x, false)
    ensures Step(a, false, MessageId("x"), v2, TwiceTurn(a, v2, "x", x, v3.h), v3)
  {
    hide Step, Hangs;
    HangsSecond(v2.h, y, x, a);
    TwiceStep(a, v2, "x", x, v3.h);
    assert [a, x, y, x] == [a, x, y] + [x];
  }

  lemma FourthReads(a: Article, x: Article, y: Article, z: Article, t: Subject)
    requires a != x && a != y && a != z && x != y && x != z && y != z
    ensures
      var h := WithNew(After3(a, x, y, t), z);
      && z !in After3(a, x, y, t).parent && x in h.parent && x in h.sibling && z in h.child1 && h.child1[z] == null
      && Faceless(h, z) && DateIn(h, a) == 0 && z in h.date
  {
  }

  lemma TwiceFourth(a: Article, x: Article, y: Article, z: Article, t: Subject, v3: Walker, v4: Walker)
    requires a != x && a != y && a != z && x != y && x != z && y != z
    requires v3 == Walker(After3(a, x, y, t), map["x" := x]["y" := y], [a, x, y, x], x, false)
    requires v4 == Walker(After4(a, x, y, z, t), map["x" := x]["y" := y]["z" := z], [a, x, y, x, z], z, false)
    ensures Step(a, false, MessageId("z"), v3, TwiceTurn(a, v3, "z", z, v4.h), v4)
  {
    hide Step, Hangs, After3, WithNew, HungFirst;
    FourthReads(a, x, y, z, t);
    HangsFirst(WithNew(v3.h, z), x, z);
    TwiceStep(a, v3, "z", z, v4.h);
    assert [a, x, y, x, z] == [a, x, y, x] + [z];
  }
}
