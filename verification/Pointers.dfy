/** `link_child` and `unlink_child` (libtrn/Article.cpp, lines 1132-1174; libtrn/rt-process.cpp,
    lines 151-192) as what they do to any pointers at all, well formed or not: each
    relates the pointers before to those after a call that returns. On well-formed pointers
    they are what the methods of Threading.dfy promise. */
module Pointers {
  import opened Forest
  import opened Joining
  import opened Ancestry
  import opened Placing

  function DateIn(h: Links, x: Article): int { if x in h.date then h.date[x] else 0 }

  function SubjIn(h: Links, x: Article): Subject? { if x in h.subj then h.subj[x] else null }

  // ---- link_child, for an article that has a parent ---------------------------------------------

  /** The sibling search for date `d` from `first` goes `k` steps and stops there. */
  ghost predicate StopsAt(h: Links, first: Article, d: int, k: nat) {
    && (forall j: nat :: 0 < j <= k ==> Up(h.sibling, first, j) != null && DateIn(h, Up(h.sibling, first, j)) <= d)
    && Up(h.sibling, first, k) != null && Up(h.sibling, first, k) in h.sibling
    && (h.sibling[Up(h.sibling, first, k)] != null ==> d < DateIn(h, h.sibling[Up(h.sibling, first, k)]))
  }

  ghost predicate LinksUnder(h: Links, a: Article, h': Links) {
    && a in h.parent && h.parent[a] != null && h.parent[a] in h.child1 && a in h.sibling
    && var p := h.parent[a];
       var first := h.child1[p];
       if first == null || DateIn(h, a) < DateIn(h, first) then
         h' == h.(sibling := h.sibling[a := first], child1 := h.child1[p := a])
       else
         exists k: nat :: StopsAt(h, first, DateIn(h, a), k) && h' == Behind(h, a, Up(h.sibling, first, k))
  }

  ghost function Behind(h: Links, a: Article, e: Article?): Links {
    if e == null || e !in h.sibling then h else h.(sibling := h.sibling[a := h.sibling[e]][e := a])
  }

  lemma {:induction false} ChainUp(sibling: map<Article, Article?>, first: Article?, l: seq<Article>, i: nat, k: nat)
    requires Chain(sibling, first, l) && i + k <= |l|
    ensures Up(sibling, At(l, i), k) == At(l, i + k)
    decreases k
  {
    if k > 0 {
      ChainUp(sibling, first, l, i + 1, k - 1);
    }
  }

  lemma ChainAt(sibling: map<Article, Article?>, first: Article?, l: seq<Article>, j: nat)
    requires Chain(sibling, first, l)
    ensures Up(sibling, first, j) == At(l, j)
  {
    if j <= |l| {
      ChainUp(sibling, first, l, 0, j);
    } else {
      ChainUp(sibling, first, l, 0, |l|);
      UpStaysNull(sibling, first, |l|, j);
    }
  }

  /** The search stops in front of the first later sibling. */
  lemma StopsBefore(h: Links, a: Article, first: Article, l: seq<Article>, i: nat, k: nat)
    requires a in h.date && (forall x :: x in l ==> x in h.date) && 0 < i <= |l| && Chain(h.sibling, first, l)
    requires (forall j :: 0 <= j < i ==> h.date[l[j]] <= h.date[a]) && (i < |l| ==> h.date[a] < h.date[l[i]])
    requires StopsAt(h, first, h.date[a], k)
    ensures k == i - 1 && Up(h.sibling, first, k) == l[i - 1]
  {
    hide Up;
    ChainAt(h.sibling, first, l, k);
    ChainAt(h.sibling, first, l, i);
    assert l[k] in l && h.sibling[l[k]] == At(l, k + 1);
    assert i < |l| ==> l[i] in l;
    assert k + 1 < |l| ==> l[k + 1] in l;
  }

  // ---- link_child, for an article without parent ----------------------------------------------------

  /** The subject `n` links on from `t`. */
  ghost function Follow(link: map<Subject, Subject>, t: Subject, n: nat): Subject {
    if n == 0 || t !in link then t else Follow(link, link[t], n - 1)
  }

  ghost function Round(link: map<Subject, Subject>, t: Subject, n: nat): (r: seq<Subject>)
    ensures |r| == n && forall j :: 0 <= j < n ==> r[j] == Follow(link, t, j)
  {
    seq(n, j requires 0 <= j => Follow(link, t, j))
  }

  /** The loop once around the ring of `t` gives every subject on it the lead article `v`. */
  ghost predicate Leads(h: Links, t: Subject, v: Article?, h': Links) {
    exists n: nat :: ComesBack(h.link, t, n) && h' == h.(thread := Fill(h.thread, Round(h.link, t, n), v))
  }

  ghost predicate ComesBack(link: map<Subject, Subject>, t: Subject, n: nat) {
    n > 0 && Follow(link, t, n) == t && forall j: nat :: 0 < j < n ==> Follow(link, t, j) != t
  }

  /** Among the top-level articles of its subject's thread. */
  ghost predicate LinksAtTop(h: Links, a: Article, h': Links) {
    && a in h.parent && h.parent[a] == null && a in h.sibling
    && var t := SubjIn(h, a);
       && t != null && t in h.thread
       && var first := h.thread[t];
          if first == null || DateIn(h, a) < DateIn(h, first) then Leads(h.(sibling := h.sibling[a := first]), t, a, h')
          else exists k: nat :: StopsAt(h, first, DateIn(h, a), k) && h' == Behind(h, a, Up(h.sibling, first, k))
  }

  ghost predicate LinksIn(h: Links, a: Article, h': Links) {
    if a in h.parent && h.parent[a] != null then LinksUnder(h, a, h') else LinksAtTop(h, a, h')
  }

  lemma {:induction false} FollowsRing(link: map<Subject, Subject>, r: seq<Subject>, i: nat, n: nat)
    requires Cycle(link, r) && i < |r| && i + n <= |r|
    ensures Follow(link, r[i], n) == if i + n < |r| then r[i + n] else r[0]
    decreases n
  {
    hide NoDup;
    if n > 0 {
      assert r[i] in link && link[r[i]] == r[Next(i, |r|)];
      if i + 1 < |r| {
        FollowsRing(link, r, i + 1, n - 1);
      }
    }
  }

  /** Once around is once around the ring. */
  lemma OnceAround(link: map<Subject, Subject>, r: seq<Subject>, t: Subject, n: nat)
    requires Cycle(link, r) && t in r && ComesBack(link, t, n)
    ensures forall u :: u in Round(link, t, n) <==> u in r
  {
    var k := IndexOf(r, t);
    var q := Rotated(r, k);
    RotatedCycle(link, r, k);
    assert q[0] == t;
    forall j: nat | j <= |q| ensures Follow(link, t, j) == if j < |q| then q[j] else t {
      FollowsRing(link, q, 0, j);
    }
    assert Follow(link, t, |q|) == t;
    assert Round(link, t, n) == q;
  }

  lemma FillSame<K, V>(m: map<K, V>, r1: seq<K>, r2: seq<K>, v: V)
    requires forall u :: u in r1 <==> u in r2
    ensures Fill(m, r1, v) == Fill(m, r2, v)
  {
  }

  /** Not the first: behind the last that is not later. */
  lemma LinksBehind(g: State, a: Article, subject: Subject, first: Article?, k: nat)
    requires Wf(g.h, g.s) && Linkable(g.h, g.s, a, subject)
    requires g.h.parent[a] == null ==> first == g.h.thread[subject]
    requires g.h.parent[a] != null ==> g.h.parent[a] in g.h.child1 && first == g.h.child1[g.h.parent[a]]
    requires first != null && DateIn(g.h, first) <= DateIn(g.h, a) && StopsAt(g.h, first, DateIn(g.h, a), k)
    ensures Behind(g.h, a, Up(g.h.sibling, first, k)) == AfterLink(g, a, subject).h
  {
    hide Wf, StopsAt;
    LinkFacts(g, a, subject);
    AfterLinkFields(g, a, subject);
    var h, p, r := g.h, g.h.parent[a], RingOf(g, subject);
    var l, i := SiblingsOf(g, a, subject), LinkPos(g.h, g.s, a, subject);
    assert Chain(h.sibling, first, l);
    assert i > 0;
    StopsBefore(h, a, first, l, i, k);
    assert l[i - 1] in l && h.sibling[l[i - 1]] == At(l, i);
    InsertedHead(l, i, a);
    HeadKept(h, r, p, InsertLinks(h.sibling, l, i, a), Inserted(l, i, a));
  }

  lemma LinksFirst(g: State, a: Article, subject: Subject, h': Links)
    requires Wf(g.h, g.s) && Linkable(g.h, g.s, a, subject) && LinksIn(g.h, a, h')
    requires g.h.parent[a] == null ==> SubjIn(g.h, a) == subject
    requires
      var first := if g.h.parent[a] == null then g.h.thread[subject] else g.h.child1[g.h.parent[a]];
      first == null || DateIn(g.h, a) < DateIn(g.h, first)
    ensures h' == AfterLink(g, a, subject).h
  {
    hide Wf;
    LinkFacts(g, a, subject);
    AfterLinkFields(g, a, subject);
    var h, p, r := g.h, g.h.parent[a], RingOf(g, subject);
    var l, i := SiblingsOf(g, a, subject), LinkPos(g.h, g.s, a, subject);
    assert l != [] ==> l[0] in l;
    assert i == 0;
    HeadOfThread(h, r, l, a);
    if p == null {
      var h0 := h.(sibling := h.sibling[a := At(l, 0)]);
      var n: nat :| ComesBack(h0.link, subject, n) && h' == h0.(thread := Fill(h0.thread, Round(h0.link, subject, n), a));
      OnceAround(h.link, r, subject, n);
      FillSame(h.thread, Round(h.link, subject, n), r, a);
    }
  }

  /** On well-formed pointers linking is what `AfterLink` says. */
  lemma LinksAsModelled(g: State, a: Article, subject: Subject, h': Links)
    requires Wf(g.h, g.s) && Linkable(g.h, g.s, a, subject) && LinksIn(g.h, a, h')
    requires g.h.parent[a] == null ==> SubjIn(g.h, a) == subject
    ensures h' == AfterLink(g, a, subject).h
  {
    hide Wf, Linkable, StopsAt, Behind, Leads;
    LinkFacts(g, a, subject);
    var first := if g.h.parent[a] == null then g.h.thread[subject] else g.h.child1[g.h.parent[a]];
    if first == null || DateIn(g.h, a) < DateIn(g.h, first) {
      LinksFirst(g, a, subject, h');
    } else {
      var k: nat :| StopsAt(g.h, first, DateIn(g.h, a), k) && h' == Behind(g.h, a, Up(g.h.sibling, first, k));
      LinksBehind(g, a, subject, first, k);
    }
  }

  // ---- unlink_child -------------------------------------------------------------------------------

  /** The sibling search from `first` for whoever is in front of `c`; without such an article
      nothing happens. */
  ghost predicate CutsBehind(h: Links, first: Article?, c: Article, h': Links) {
    || (exists k: nat :: InFront(h, first, c, k) && h' == Closing(h, Up(h.sibling, first, k), c))
    || ((forall k: nat :: !InFront(h, first, c, k)) && h' == h)
  }

  ghost predicate InFront(h: Links, first: Article?, c: Article, k: nat) {
    var e := Up(h.sibling, first, k);
    e != null && e in h.sibling && h.sibling[e] == c
  }

  ghost function Closing(h: Links, e: Article?, c: Article): Links {
    if e == null || c !in h.sibling then h else h.(sibling := h.sibling[e := h.sibling[c]])
  }

  ghost predicate Unlinks(h: Links, c: Article, h': Links) {
    && c in h.parent && c in h.sibling
    && var p := h.parent[c];
       if p == null then
         var t := SubjIn(h, c);
         && t != null && t in h.thread
         && if h.thread[t] == c then Leads(h, t, h.sibling[c], h') else CutsBehind(h, h.thread[t], c, h')
       else
         && p in h.child1
         && if h.child1[p] == c then h' == h.(child1 := h.child1[p := h.sibling[c]])
            else CutsBehind(h, h.child1[p], c, h')
  }

  /** Only the article at position `i - 1` is in front of the one at `i`. */
  lemma CutsOnce(h: Links, first: Article?, l: seq<Article>, i: nat, h': Links)
    requires Chain(h.sibling, first, l) && NoDup(l) && 0 < i < |l| && CutsBehind(h, first, l[i], h')
    ensures h' == h.(sibling := WithoutLinks(h.sibling, l, i))
  {
    forall j: nat | j <= |l| ensures Up(h.sibling, first, j) == At(l, j) {
      ChainUp(h.sibling, first, l, 0, j);
    }
    var k := i - 1;
    assert Up(h.sibling, first, k) == l[k] && h.sibling[l[k]] == At(l, k + 1);
    assert InFront(h, first, l[i], k);
    forall n: nat | InFront(h, first, l[i], n) ensures n == k {
      if n >= |l| {
        UpStaysNull(h.sibling, first, |l|, n);
      } else {
        assert Up(h.sibling, first, n) == l[n] && h.sibling[l[n]] == At(l, n + 1);
      }
    }
  }

  /** On well-formed pointers unlinking is what `AfterUnlink` says. */
  lemma UnlinksAsModelled(g: State, c: Article, h': Links)
    requires Wf(g.h, g.s) && c in g.s.home && Unlinks(g.h, c, h')
    requires Par(g, c) == null ==> Subj(g, c) != null && Subj(g, c) in HomeRing(g, c)
    ensures h' == AfterUnlink(g, c).h
  {
    hide Wf, Cycle, NoDup;
    UnlinkFacts(g, c);
    AfterUnlinkFields(g, c);
    var h, p, r, l := g.h, g.h.parent[c], HomeRing(g, c), ListWith(g, c);
    var i := IndexOf(l, c);
    var first := if p == null then h.thread[SubjIn(h, c)] else h.child1[p];
    assert Chain(h.sibling, first, l);
    if i > 0 {
      LaterNotFirst(l, i);
      CutsOnce(h, first, l, i, h');
      HeadKept(h, r, p, WithoutLinks(h.sibling, l, i), Without(l, i));
    } else {
      assert h.sibling[c] == At(l, 1) && At(Without(l, 0), 0) == At(l, 1);
      if p == null {
        var n: nat :| ComesBack(h.link, SubjIn(h, c), n)
                      && h' == h.(thread := Fill(h.thread, Round(h.link, SubjIn(h, c), n), h.sibling[c]));
        OnceAround(h.link, r, SubjIn(h, c), n);
        FillSame(h.thread, Round(h.link, SubjIn(h, c), n), r, h.sibling[c]);
      }
    }
  }

  lemma LaterNotFirst(l: seq<Article>, i: nat)
    requires NoDup(l) && 0 < i < |l|
    ensures l[0] != l[i]
  {
  }
}
