/** Articles, subjects and the links between them (libtrn/Article.cpp, libtrn/rt-process.cpp),
    and the theory of those links: what a well-formed forest of threads is, and what
    linking, unlinking and joining do to it. Everything here is about snapshots of the
    pointers (`Links`); the methods that move the pointers are in Threading.dfy. */
module Forest {

  class Subject {
    var thread: Article?      // first top-level article of the thread
    var threadLink: Subject   // next subject of the same thread, in a ring

    constructor ()
      ensures thread == null && threadLink == this
    {
      thread, threadLink := null, this;
    }
  }

  class Article {
    var parent: Article?
    var child1: Article?
    var sibling: Article?
    var subj: Subject?
    var date: int
    var fake: bool            // AF_FAKE: known only from References lines
    var threaded: bool        // AF_THREADED
    var present: bool         // AF_EXISTS
    const tmpMem: bool        // AF_TMP_MEM: made for a message-id, not for an article number

    /** A brand-new fake article, as `allocate_article` makes it. */
    constructor ()
      ensures parent == null && child1 == null && sibling == null && subj == null
      ensures date == 0 && fake && !threaded && !present && tmpMem
    {
      parent, child1, sibling, subj, date := null, null, null, null, 0;
      fake, threaded, present, tmpMem := true, false, false, true;
    }

    /** An article that has a number, once its header has been read. */
    constructor Numbered(date: int, subj: Subject)
      ensures parent == null && child1 == null && sibling == null && this.subj == subj
      ensures this.date == date && !fake && !threaded && present && !tmpMem
    {
      parent, child1, sibling, this.subj, this.date := null, null, null, subj, date;
      fake, threaded, present, tmpMem := false, false, true, false;
    }
  }

  /** The pointers of a set of articles and subjects at one moment. */
  datatype Links = Links(
    parent: map<Article, Article?>,
    child1: map<Article, Article?>,
    sibling: map<Article, Article?>,
    subj: map<Article, Subject?>,
    date: map<Article, int>,
    thread: map<Subject, Article?>,
    link: map<Subject, Subject>)

  /** What the pointers spell out: the children of each article and the top-level articles
      of each subject's thread in order, the ring of subjects of each thread, and for each
      linked article a subject of the thread it is filed under. */
  datatype Shape = Shape(
    kids: map<Article, seq<Article>>,
    tops: map<Subject, seq<Article>>,
    ring: map<Subject, seq<Subject>>,
    home: map<Article, Subject>)

  /** Pointers together with what they spell out. */
  datatype State = State(h: Links, s: Shape)

  // ---- Sequences -------------------------------------------------------------------------

  ghost predicate NoDup<T>(l: seq<T>) {
    forall i, j :: 0 <= i < j < |l| ==> l[i] != l[j]
  }

  function At(l: seq<Article>, i: nat): Article? {
    if i < |l| then l[i] else null
  }

  function Inserted<T>(l: seq<T>, i: nat, x: T): seq<T>
    requires i <= |l|
  {
    l[..i] + [x] + l[i..]
  }

  function Without<T>(l: seq<T>, i: nat): seq<T>
    requires i < |l|
  {
    l[..i] + l[i + 1..]
  }

  /** `m` with every key in `ks` sent to `v`. */
  ghost function Fill<K, V>(m: map<K, V>, ks: seq<K>, v: V): (m': map<K, V>)
    ensures m'.Keys == m.Keys
    ensures forall k :: k in m ==> m'[k] == if k in ks then v else m[k]
  {
    map k | k in m :: if k in ks then v else m[k]
  }

  /** Starting at `first` and following siblings visits `l` and ends. */
  ghost predicate Chain(sibling: map<Article, Article?>, first: Article?, l: seq<Article>) {
    && first == At(l, 0)
    && forall i :: 0 <= i < |l| ==> l[i] in sibling && sibling[l[i]] == At(l, i + 1)
  }

  /** Where `link_child` puts an article of date `d`: before the first later one. */
  function InsertAt(date: map<Article, int>, l: seq<Article>, d: int): (i: nat)
    requires forall a :: a in l ==> a in date
    ensures i <= |l|
    ensures forall j :: 0 <= j < i ==> date[l[j]] <= d
    ensures i < |l| ==> d < date[l[i]]
  {
    if l == [] || d < date[l[0]] then 0 else 1 + InsertAt(date, l[1..], d)
  }

  // ---- Well-formed links -------------------------------------------------------------------

  ghost predicate Domains(h: Links, s: Shape) {
    && h.child1.Keys == h.parent.Keys && h.sibling.Keys == h.parent.Keys
    && h.subj.Keys == h.parent.Keys && h.date.Keys == h.parent.Keys && s.kids.Keys == h.parent.Keys
    && h.link.Keys == h.thread.Keys && s.tops.Keys == h.thread.Keys && s.ring.Keys == h.thread.Keys
    && s.home.Keys <= h.parent.Keys
  }

  /** (Asked for by name where it is needed: the walk up has no natural end here.) */
  ghost predicate ParentKnown(parent: map<Article, Article?>, a: Article) {
    a in parent && (parent[a] != null ==> parent[a] in parent)
  }

  ghost predicate Targets(h: Links, s: Shape) {
    && (forall a :: a in s.home ==> s.home[a] in h.thread)
    && (forall a {:trigger ParentKnown(h.parent, a)} :: a in h.parent ==> ParentKnown(h.parent, a))
    && (forall a :: a in h.subj && h.subj[a] != null ==> h.subj[a] in h.thread)
  }

  ghost predicate KidsOk(h: Links, s: Shape, p: Article) {
    && p in s.kids && p in h.child1
    && Chain(h.sibling, h.child1[p], s.kids[p]) && NoDup(s.kids[p])
    && forall q :: q in s.kids[p] ==> q in s.home && q in h.parent && h.parent[q] == p
  }

  ghost predicate TopsOk(h: Links, s: Shape, t: Subject) {
    && t in s.tops && t in h.thread && t in s.ring
    && Chain(h.sibling, h.thread[t], s.tops[t]) && NoDup(s.tops[t])
    && forall q :: q in s.tops[t] ==>
         q in s.home && q in h.parent && h.parent[q] == null && s.home[q] in s.ring && s.ring[s.home[q]] == s.ring[t]
  }

  function Next(i: nat, n: nat): nat
    requires i < n
  {
    if i + 1 < n then i + 1 else 0
  }

  /** Following `link` goes once around `r` and comes back. */
  ghost predicate Cycle(link: map<Subject, Subject>, r: seq<Subject>) {
    && NoDup(r)
    && forall i :: 0 <= i < |r| ==> r[i] in link && link[r[i]] == r[Next(i, |r|)]
  }

  ghost predicate RingOk(h: Links, s: Shape, t: Subject) {
    && t in s.ring && t in s.tops && t in s.ring[t] && Cycle(h.link, s.ring[t])
    && forall u :: u in s.ring[t] ==> u in s.ring && u in s.tops && s.ring[u] == s.ring[t] && s.tops[u] == s.tops[t]
  }

  /** The list article `a` belongs in, given its parent pointer. */
  ghost function Siblings(h: Links, s: Shape, a: Article, subject: Subject): seq<Article>
    requires a in h.parent && (if h.parent[a] == null then subject in s.tops else h.parent[a] in s.kids)
  {
    if h.parent[a] == null then s.tops[subject] else s.kids[h.parent[a]]
  }

  /** A linked article is in the list its parent pointer says. */
  ghost predicate Filed(h: Links, s: Shape, a: Article) {
    && a in s.home && a in h.parent
    && (if h.parent[a] == null then s.home[a] in s.tops else h.parent[a] in s.kids)
    && a in Siblings(h, s, a, s.home[a])
  }

  ghost predicate Wf(h: Links, s: Shape) {
    && Domains(h, s) && Targets(h, s)
    && (forall p :: p in h.parent ==> KidsOk(h, s, p))
    && (forall t :: t in h.thread ==> TopsOk(h, s, t))
    && (forall t :: t in h.thread ==> RingOk(h, s, t))
    && (forall a :: a in s.home ==> Filed(h, s, a))
  }

  function Rotated<T>(r: seq<T>, k: nat): seq<T>
    requires k <= |r|
  {
    r[k..] + r[..k]
  }

  function Unrotate(i: nat, k: nat, n: nat): nat
    requires i < n && k <= n
  {
    if k + i < n then k + i else k + i - n
  }

  lemma RotatedAt<T>(r: seq<T>, k: nat, i: nat)
    requires k <= |r| && i < |r|
    ensures Rotated(r, k)[i] == r[Unrotate(i, k, |r|)]
  {
  }

  lemma RotatedMembers<T>(r: seq<T>, k: nat)
    requires k <= |r|
    ensures forall t :: t in Rotated(r, k) <==> t in r
    ensures NoDup(r) ==> NoDup(Rotated(r, k))
  {
    var r', n := Rotated(r, k), |r|;
    assert r == r[..k] + r[k..];
    if NoDup(r) {
      forall i, j | 0 <= i < j < n ensures r'[i] != r'[j] {
        RotatedAt(r, k, i);
        RotatedAt(r, k, j);
        assert r[Unrotate(i, k, n)] != r[Unrotate(j, k, n)];
      }
    }
  }

  lemma RotatedStep(link: map<Subject, Subject>, r: seq<Subject>, k: nat, i: nat)
    requires Cycle(link, r) && k < |r| && i < |r|
    ensures Rotated(r, k)[i] in link && link[Rotated(r, k)[i]] == Rotated(r, k)[Next(i, |r|)]
  {
    RotatedAt(r, k, i);
    RotatedAt(r, k, Next(i, |r|));
    assert Unrotate(Next(i, |r|), k, |r|) == Next(Unrotate(i, k, |r|), |r|);
  }

  /** A cycle may be entered anywhere. */
  lemma RotatedCycle(link: map<Subject, Subject>, r: seq<Subject>, k: nat)
    requires Cycle(link, r) && k < |r|
    ensures Cycle(link, Rotated(r, k))
    ensures forall t :: t in Rotated(r, k) <==> t in r
  {
    RotatedMembers(r, k);
    forall i | 0 <= i < |r| ensures Rotated(r, k)[i] in link && link[Rotated(r, k)[i]] == Rotated(r, k)[Next(i, |r|)] {
      RotatedStep(link, r, k, i);
    }
  }

  lemma RotatedRing(link: map<Subject, Subject>, r: seq<Subject>, k: nat)
    requires Cycle(link, r) && k < |r|
    ensures
      var q := Rotated(r, k);
      && |q| == |r| && q[0] == r[k] && NoDup(q) && (forall t :: t in q <==> t in r)
      && (forall i :: 0 <= i < |q| ==> q[i] in link && link[q[i]] == q[Next(i, |q|)])
  {
    hide NoDup;
    RotatedCycle(link, r, k);
    assert Cycle(link, Rotated(r, k));
  }

  lemma WfIntro(h: Links, s: Shape)
    requires Domains(h, s) && Targets(h, s)
    requires forall p :: p in h.parent ==> KidsOk(h, s, p)
    requires forall t :: t in h.thread ==> TopsOk(h, s, t)
    requires forall t :: t in h.thread ==> RingOk(h, s, t)
    requires forall a :: a in s.home ==> Filed(h, s, a)
    ensures Wf(h, s)
  {
  }

  lemma WfElim(h: Links, s: Shape)
    requires Wf(h, s)
    ensures Domains(h, s) && Targets(h, s)
    ensures forall p :: p in h.parent ==> KidsOk(h, s, p)
    ensures forall t :: t in h.thread ==> TopsOk(h, s, t)
    ensures forall t :: t in h.thread ==> RingOk(h, s, t)
    ensures forall a :: a in s.home ==> Filed(h, s, a)
  {
  }

  // ---- Changing one list -------------------------------------------------------------------

  /** List of `p`'s children, or of `subject`'s top-level articles when `p` is null. */
  ghost function ListOf(s: Shape, p: Article?, subject: Subject): seq<Article>
    requires if p == null then subject in s.tops else p in s.kids
  {
    if p == null then s.tops[subject] else s.kids[p]
  }

  /** The one list that article `a` may enter or leave becomes `l'`, and `home'` says which it did. */
  datatype Change = Change(a: Article, p: Article?, subject: Subject, l': seq<Article>,
                           sibling': map<Article, Article?>, home': map<Article, Subject>)

  ghost predicate Applies(h: Links, s: Shape, c: Change) {
    && Domains(h, s) && Targets(h, s) && ParentKnown(h.parent, c.a) && h.parent[c.a] == c.p && c.subject in h.thread
    && c.sibling'.Keys == h.sibling.Keys
    && NewHomes(h, s, c)
    && NewList(s, c, ListOf(s, c.p, c.subject))
    && (forall x :: x in h.sibling && x != c.a && x !in ListOf(s, c.p, c.subject) ==> c.sibling'[x] == h.sibling[x])
  }

  ghost predicate NewHomes(h: Links, s: Shape, c: Change) {
    && c.subject in s.ring
    && c.home'.Keys <= h.parent.Keys
    && (forall x :: x in c.home' ==> c.home'[x] in h.thread)
    && (forall x :: x in c.home' && x != c.a ==> x in s.home)
    && (forall x :: x in s.home && x != c.a ==> x in c.home' && c.home'[x] == s.home[x])
    && (c.a in s.home && c.p == null ==> s.home[c.a] in s.ring && s.ring[s.home[c.a]] == s.ring[c.subject])
    && (c.a in c.home' && c.p == null ==> c.home'[c.a] in s.ring && s.ring[c.home'[c.a]] == s.ring[c.subject])
  }

  ghost predicate NewList(s: Shape, c: Change, l: seq<Article>) {
    && NoDup(c.l') && Chain(c.sibling', At(c.l', 0), c.l')
    && (forall x :: x in c.l' && x != c.a ==> x in l)
    && (forall x :: x in l && x != c.a ==> x in c.l')
    && (c.a in c.l' <==> c.a in c.home')
  }

  ghost function Changed(h: Links, s: Shape, c: Change): Links
    requires Applies(h, s, c)
  {
    if c.p != null then h.(sibling := c.sibling', child1 := h.child1[c.p := At(c.l', 0)])
    else h.(sibling := c.sibling', thread := Fill(h.thread, s.ring[c.subject], At(c.l', 0)))
  }

  ghost function ChangedShape(h: Links, s: Shape, c: Change): Shape
    requires Applies(h, s, c)
  {
    if c.p != null then s.(kids := s.kids[c.p := c.l'], home := c.home')
    else s.(tops := Fill(s.tops, s.ring[c.subject], c.l'), home := c.home')
  }

  /** A chain none of whose members' pointers changed is still a chain. */
  lemma ChainFrame(sibling: map<Article, Article?>, sibling': map<Article, Article?>, first: Article?, l: seq<Article>)
    requires Chain(sibling, first, l)
    requires forall x :: x in l ==> x in sibling' && (x in sibling ==> sibling'[x] == sibling[x])
    ensures Chain(sibling', first, l)
  {
  }

  lemma ChangedDomains(h: Links, s: Shape, c: Change)
    requires Applies(h, s, c)
    ensures Domains(Changed(h, s, c), ChangedShape(h, s, c)) && Targets(Changed(h, s, c), ChangedShape(h, s, c))
  {
    var h', s' := Changed(h, s, c), ChangedShape(h, s, c);
    if c.p != null {
      assert h'.thread == h.thread && s'.tops == s.tops;
      assert h'.child1.Keys == h.child1.Keys && s'.kids.Keys == s.kids.Keys;
    } else {
      assert h'.child1 == h.child1 && s'.kids == s.kids;
    }
  }

  lemma ChangedKidsHere(h: Links, s: Shape, c: Change)
    requires Applies(h, s, c) && c.p != null && KidsOk(h, s, c.p)
    ensures KidsOk(Changed(h, s, c), ChangedShape(h, s, c), c.p)
  {
    hide ParentKnown, Chain, NoDup;
    var h', s' := Changed(h, s, c), ChangedShape(h, s, c);
    assert h'.child1[c.p] == At(c.l', 0) && s'.kids[c.p] == c.l';
  }

  lemma ChangedKidsElsewhere(h: Links, s: Shape, c: Change, q: Article)
    requires Applies(h, s, c) && KidsOk(h, s, q) && q != c.p && c.a !in s.kids[q]
    requires forall x :: x in s.kids[q] ==> x !in ListOf(s, c.p, c.subject)
    ensures KidsOk(Changed(h, s, c), ChangedShape(h, s, c), q)
  {
    hide ParentKnown, NoDup, Chain;
    var h', s' := Changed(h, s, c), ChangedShape(h, s, c);
    ChainFrame(h.sibling, h'.sibling, h.child1[q], s.kids[q]);
    assert h'.child1[q] == h.child1[q] && s'.kids[q] == s.kids[q];
  }

  lemma ChangedKids(h: Links, s: Shape, c: Change, q: Article)
    requires Applies(h, s, c) && KidsOk(h, s, q)
    requires if c.p == null then TopsOk(h, s, c.subject) else KidsOk(h, s, c.p)
    requires c.a in s.home ==> Filed(h, s, c.a)
    ensures KidsOk(Changed(h, s, c), ChangedShape(h, s, c), q)
  {
    hide ParentKnown, Chain, NoDup, Changed, ChangedShape;
    if q == c.p {
      ChangedKidsHere(h, s, c);
    } else {
      ChangedKidsElsewhere(h, s, c, q);
    }
  }

  lemma ChangedTopsHere(h: Links, s: Shape, c: Change, t: Subject)
    requires Applies(h, s, c) && TopsOk(h, s, t) && TopsOk(h, s, c.subject)
    requires c.p == null && t in s.ring[c.subject] && s.ring[t] == s.ring[c.subject] && s.tops[t] == s.tops[c.subject]
    ensures TopsOk(Changed(h, s, c), ChangedShape(h, s, c), t)
  {
    var h', s' := Changed(h, s, c), ChangedShape(h, s, c);
    assert h'.thread[t] == At(c.l', 0) && s'.tops[t] == c.l' && s'.ring == s.ring;
  }

  lemma ChangedTopsElsewhere(h: Links, s: Shape, c: Change, t: Subject)
    requires Applies(h, s, c) && TopsOk(h, s, t)
    requires c.p == null ==> t !in s.ring[c.subject]
    requires c.a !in s.tops[t] && forall x :: x in s.tops[t] ==> x !in ListOf(s, c.p, c.subject)
    ensures TopsOk(Changed(h, s, c), ChangedShape(h, s, c), t)
  {
    hide ParentKnown, NoDup, Chain;
    var h', s' := Changed(h, s, c), ChangedShape(h, s, c);
    ChainFrame(h.sibling, h'.sibling, h.thread[t], s.tops[t]);
    assert h'.thread[t] == h.thread[t] && s'.tops[t] == s.tops[t] && s'.ring == s.ring;
  }

  lemma ChangedTops(h: Links, s: Shape, c: Change, t: Subject)
    requires Applies(h, s, c) && TopsOk(h, s, t) && RingOk(h, s, t) && RingOk(h, s, c.subject)
    requires if c.p == null then TopsOk(h, s, c.subject) else KidsOk(h, s, c.p)
    ensures TopsOk(Changed(h, s, c), ChangedShape(h, s, c), t)
  {
    if c.p == null && t in s.ring[c.subject] {
      ChangedTopsHere(h, s, c, t);
    } else {
      ChangedTopsElsewhere(h, s, c, t);
    }
  }

  lemma ChangedRing(h: Links, s: Shape, c: Change, t: Subject)
    requires Applies(h, s, c) && RingOk(h, s, t) && RingOk(h, s, c.subject)
    ensures RingOk(Changed(h, s, c), ChangedShape(h, s, c), t)
  {
    var s' := ChangedShape(h, s, c);
    assert s'.ring == s.ring && Changed(h, s, c).link == h.link;
    if c.p != null {
      assert s'.tops == s.tops;
    }
  }

  lemma ChangedFiled(h: Links, s: Shape, c: Change, x: Article)
    requires Applies(h, s, c) && x in c.home' && RingOk(h, s, c.subject)
    requires x != c.a ==> Filed(h, s, x)
    requires x != c.a && h.parent[x] == null ==> RingOk(h, s, s.home[x])
    requires x == c.a && h.parent[x] == null ==> RingOk(h, s, c.home'[x])
    ensures Filed(Changed(h, s, c), ChangedShape(h, s, c), x)
  {
    var s' := ChangedShape(h, s, c);
    if h.parent[x] == null {
      assert c.home'[x] in s.tops;
      if c.p == null {
        assert s'.tops[c.home'[x]] == if c.home'[x] in s.ring[c.subject] then c.l' else s.tops[c.home'[x]];
      }
    }
  }

  /** Changing one list keeps the forest well formed. */
  lemma ChangeKeepsWf(h: Links, s: Shape, c: Change)
    requires Wf(h, s) && Applies(h, s, c)
    ensures Wf(Changed(h, s, c), ChangedShape(h, s, c))
  {
    hide Wf, KidsOk, TopsOk, RingOk, Filed, ParentKnown, Applies;
    WfElim(h, s);
    var h', s' := Changed(h, s, c), ChangedShape(h, s, c);
    ChangedDomains(h, s, c);
    ChangeWithin(h, s, c);
    forall p | p in h'.parent ensures KidsOk(h', s', p) { ChangedKids(h, s, c, p); }
    forall t | t in h'.thread ensures TopsOk(h', s', t) { ChangedTops(h, s, c, t); }
    forall t | t in h'.thread ensures RingOk(h', s', t) { ChangedRing(h, s, c, t); }
    forall x | x in s'.home ensures Filed(h', s', x) { ChangedFiled(h, s, c, x); }
    WfIntro(h', s');
  }

  lemma ChangeWithin(h: Links, s: Shape, c: Change)
    requires Applies(h, s, c)
    ensures c.subject in h.thread && (c.p != null ==> c.p in h.parent)
    ensures Changed(h, s, c).parent == h.parent && Changed(h, s, c).thread.Keys == h.thread.Keys
    ensures ChangedShape(h, s, c).home == c.home'
    ensures forall x :: x in c.home' && x != c.a ==> x in s.home
    ensures forall x :: x in c.home' ==> c.home'[x] in h.thread && x in h.parent
  {
  }

  // ---- link_child -----------------------------------------------------------------------

  lemma NoDupInsert<T>(l: seq<T>, i: nat, a: T)
    requires NoDup(l) && i <= |l| && a !in l
    ensures NoDup(Inserted(l, i, a))
    ensures forall y :: y in Inserted(l, i, a) <==> y == a || y in l
  {
    var l' := Inserted(l, i, a);
    assert l'[i] == a;
    forall j, k | 0 <= j < k < |l'| ensures l'[j] != l'[k] {
      assert l'[j] == if j < i then l[j] else if j == i then a else l[j - 1];
      assert l'[k] == if k < i then l[k] else if k == i then a else l[k - 1];
    }
    forall y | y in l ensures y in l' {
      var k :| 0 <= k < |l| && l[k] == y;
      assert l'[if k < i then k else k + 1] == y;
    }
  }

  /** The sibling pointers after splicing `a` into `l` at `i`. */
  ghost function InsertLinks(sibling: map<Article, Article?>, l: seq<Article>, i: nat, a: Article): map<Article, Article?>
    requires i <= |l|
  {
    if i > 0 then sibling[a := At(l, i)][l[i - 1] := a] else sibling[a := At(l, i)]
  }

  lemma ChainInsert(sibling: map<Article, Article?>, first: Article?, l: seq<Article>, i: nat, a: Article)
    requires Chain(sibling, first, l) && NoDup(l) && i <= |l| && a !in l
    ensures Chain(InsertLinks(sibling, l, i, a), At(Inserted(l, i, a), 0), Inserted(l, i, a))
    ensures a in sibling ==> InsertLinks(sibling, l, i, a).Keys == sibling.Keys
  {
    var l', sibling' := Inserted(l, i, a), InsertLinks(sibling, l, i, a);
    assert i > 0 ==> l[i - 1] in sibling;
    forall k | 0 <= k < |l'| ensures l'[k] in sibling' && sibling'[l'[k]] == At(l', k + 1) {
      if k + 1 < i {
        assert l'[k] == l[k] && l[k] != l[i - 1];
      } else if k + 1 == i {
        assert l'[k] == l[i - 1];
      } else if k > i {
        assert l'[k] == l[k - 1];
        assert i > 0 ==> l[k - 1] != l[i - 1];
      }
    }
  }

  /** `a` is in no list yet, and `subject` says whose thread it goes to. */
  ghost predicate Linkable(h: Links, s: Shape, a: Article, subject: Subject) {
    ParentKnown(h.parent, a) && a !in s.home && subject in h.thread
  }

  ghost function LinkPos(h: Links, s: Shape, a: Article, subject: Subject): (i: nat)
    requires Wf(h, s) && Linkable(h, s, a, subject)
    ensures i <= |SiblingsOf(State(h, s), a, subject)|
  {
    ListDated(h, s, h.parent[a], subject);
    InsertAt(h.date, ListOf(s, h.parent[a], subject), h.date[a])
  }

  lemma ListDated(h: Links, s: Shape, p: Article?, subject: Subject)
    requires Wf(h, s) && subject in h.thread && (p != null ==> p in h.parent)
    ensures forall x :: x in ListOf(s, p, subject) ==> x in h.date && x in s.home
    ensures NoDup(ListOf(s, p, subject))
    ensures Chain(h.sibling, if p == null then h.thread[subject] else h.child1[p], ListOf(s, p, subject))
  {
    if p == null {
      assert TopsOk(h, s, subject);
    } else {
      assert KidsOk(h, s, p);
    }
  }

  /** Linking `a` under its parent, or at the top of `subject`'s thread, after every
      sibling that is not later. */
  ghost function Link(h: Links, s: Shape, a: Article, subject: Subject): Change
    requires Wf(h, s) && Linkable(h, s, a, subject)
  {
    var l, i := ListOf(s, h.parent[a], subject), LinkPos(h, s, a, subject);
    Change(a, h.parent[a], subject, Inserted(l, i, a), InsertLinks(h.sibling, l, i, a), s.home[a := subject])
  }

  ghost predicate GoodList(h: Links, s: Shape, p: Article?, subject: Subject, l: seq<Article>) {
    && Domains(h, s) && Targets(h, s) && subject in h.thread && (p != null ==> p in h.parent)
    && l == ListOf(s, p, subject) && NoDup(l)
    && Chain(h.sibling, if p == null then h.thread[subject] else h.child1[p], l)
    && forall x :: x in l ==> x in s.home
  }

  lemma InsertHomes(h: Links, s: Shape, c: Change)
    requires Domains(h, s) && Targets(h, s) && c.a in h.parent && c.a !in s.home && c.subject in h.thread
    requires c.home' == s.home[c.a := c.subject]
    ensures NewHomes(h, s, c)
  {
    assert c.home'.Keys == s.home.Keys + {c.a};
  }

  lemma InsertApplies(h: Links, s: Shape, a: Article, subject: Subject, l: seq<Article>, i: nat)
    requires ParentKnown(h.parent, a) && a !in s.home && GoodList(h, s, h.parent[a], subject, l) && i <= |l|
    ensures Applies(h, s, Change(a, h.parent[a], subject, Inserted(l, i, a), InsertLinks(h.sibling, l, i, a),
                                 s.home[a := subject]))
  {
    var c := Change(a, h.parent[a], subject, Inserted(l, i, a), InsertLinks(h.sibling, l, i, a), s.home[a := subject]);
    InsertHomes(h, s, c);
    NoDupInsert(l, i, a);
    ChainInsert(h.sibling, if h.parent[a] == null then h.thread[subject] else h.child1[h.parent[a]], l, i, a);
    assert NewList(s, c, l);
    assert i > 0 ==> l[i - 1] in l;
  }

  lemma LinkApplies(h: Links, s: Shape, a: Article, subject: Subject)
    requires Wf(h, s) && Linkable(h, s, a, subject)
    ensures Applies(h, s, Link(h, s, a, subject))
  {
    ListDated(h, s, h.parent[a], subject);
    InsertApplies(h, s, a, subject, ListOf(s, h.parent[a], subject), LinkPos(h, s, a, subject));
  }

  ghost function AfterLink(g: State, a: Article, subject: Subject): (g': State)
    requires Wf(g.h, g.s) && Linkable(g.h, g.s, a, subject)
    ensures Wf(g'.h, g'.s)
  {
    var c := Link(g.h, g.s, a, subject);
    LinkApplies(g.h, g.s, a, subject);
    ChangeKeepsWf(g.h, g.s, c);
    State(Changed(g.h, g.s, c), ChangedShape(g.h, g.s, c))
  }

  /** The pointers once list `l'` of `p` (of `ring`'s thread when `p` is null) is strung
      together by `sibling'`. */
  ghost function NewLinks(h: Links, ring: seq<Subject>, p: Article?, sibling': map<Article, Article?>,
                          l': seq<Article>): Links
  {
    h.(sibling := sibling',
       child1 := if p == null then h.child1 else h.child1[p := At(l', 0)],
       thread := if p == null then Fill(h.thread, ring, At(l', 0)) else h.thread)
  }

  /** When the head of the list stays, only sibling pointers move. */
  lemma HeadKept(h: Links, r: seq<Subject>, p: Article?, sibling': map<Article, Article?>, l': seq<Article>)
    requires p != null ==> p in h.child1 && h.child1[p] == At(l', 0)
    requires p == null ==> forall t :: t in r ==> t in h.thread && h.thread[t] == At(l', 0)
    ensures NewLinks(h, r, p, sibling', l') == h.(sibling := sibling')
  {
    if p == null {
      assert Fill(h.thread, r, At(l', 0)) == h.thread;
    }
  }

  lemma InsertedHead(l: seq<Article>, i: nat, a: Article)
    requires 0 < i <= |l|
    ensures At(Inserted(l, i, a), 0) == At(l, 0)
  {
  }

  lemma HeadOfThread(h: Links, r: seq<Subject>, l: seq<Article>, a: Article)
    ensures NewLinks(h, r, null, InsertLinks(h.sibling, l, 0, a), Inserted(l, 0, a))
            == h.(sibling := h.sibling[a := At(l, 0)], thread := Fill(h.thread, r, a))
  {
  }

  ghost function NewLists(s: Shape, ring: seq<Subject>, p: Article?, l': seq<Article>,
                          home': map<Article, Subject>): Shape
  {
    s.(home := home', kids := if p == null then s.kids else s.kids[p := l'],
       tops := if p == null then Fill(s.tops, ring, l') else s.tops)
  }

  ghost function SiblingsOf(g: State, a: Article, subject: Subject): seq<Article>
    requires Wf(g.h, g.s) && ParentKnown(g.h.parent, a) && subject in g.h.thread
  {
    ListOf(g.s, g.h.parent[a], subject)
  }

  /** `a` belongs in `l`, the list of its parent or of the thread of ring `r`, at position `i`. */
  ghost predicate Spot(h: Links, a: Article, r: seq<Subject>, l: seq<Article>, i: nat) {
    && NoDup(l) && a !in l && (forall x :: x in l ==> x in h.parent && x in h.date) && a in h.date && a in h.parent
    && i <= |l| && (forall j :: 0 <= j < i ==> h.date[l[j]] <= h.date[a])
    && (i < |l| ==> h.date[a] < h.date[l[i]])
    && Cycle(h.link, r) && (forall t :: t in r ==> t in h.thread)
    && (h.parent[a] != null ==> h.parent[a] in h.parent && h.parent[a] in h.child1
                                && Chain(h.sibling, h.child1[h.parent[a]], l))
    && (h.parent[a] == null ==> forall t :: t in r ==> Chain(h.sibling, h.thread[t], l))
  }

  /** What a method that links `a` finds when it looks around. */
  lemma LinkFacts(g: State, a: Article, subject: Subject)
    requires Wf(g.h, g.s) && Linkable(g.h, g.s, a, subject)
    ensures Spot(g.h, a, RingOf(g, subject), SiblingsOf(g, a, subject), LinkPos(g.h, g.s, a, subject))
    ensures subject in RingOf(g, subject)
  {
    ListDated(g.h, g.s, g.h.parent[a], subject);
    SameHead(g, subject);
  }

  ghost function RingOf(g: State, subject: Subject): seq<Subject>
    requires Wf(g.h, g.s) && subject in g.h.thread
  {
    g.s.ring[subject]
  }

  /** Everything linking changes, field by field. */
  lemma AfterLinkFields(g: State, a: Article, subject: Subject)
    requires Wf(g.h, g.s) && Linkable(g.h, g.s, a, subject)
    ensures
      var g', p, r := AfterLink(g, a, subject), g.h.parent[a], RingOf(g, subject);
      var l, i := SiblingsOf(g, a, subject), LinkPos(g.h, g.s, a, subject);
      && g'.h == NewLinks(g.h, r, p, InsertLinks(g.h.sibling, l, i, a), Inserted(l, i, a))
      && g'.s == NewLists(g.s, r, p, Inserted(l, i, a), g.s.home[a := subject])
  {
    LinkApplies(g.h, g.s, a, subject);
  }

  /** All subjects of a ring share the list of top-level articles. */
  lemma SameHead(g: State, subject: Subject)
    requires Wf(g.h, g.s) && subject in g.h.thread
    ensures subject in g.s.ring && Cycle(g.h.link, g.s.ring[subject]) && subject in g.s.ring[subject]
    ensures forall t :: t in g.s.ring[subject] ==> t in g.h.thread && g.h.thread[t] == At(g.s.tops[subject], 0)
  {
    assert RingOk(g.h, g.s, subject);
    forall t | t in g.s.ring[subject] ensures t in g.h.thread && g.h.thread[t] == At(g.s.tops[subject], 0) {
      assert TopsOk(g.h, g.s, t);
    }
  }

  // ---- unlink_child ------------------------------------------------------------------------

  lemma NoDupWithout<T>(l: seq<T>, i: nat)
    requires NoDup(l) && i < |l|
    ensures NoDup(Without(l, i))
    ensures forall y :: y in Without(l, i) <==> y != l[i] && y in l
  {
    var l' := Without(l, i);
    forall j, k | 0 <= j < k < |l'| ensures l'[j] != l'[k] {
      assert l'[j] == if j < i then l[j] else l[j + 1];
      assert l'[k] == if k < i then l[k] else l[k + 1];
    }
    forall y | y in l && y != l[i] ensures y in l' {
      var k :| 0 <= k < |l| && l[k] == y;
      assert l'[if k < i then k else k - 1] == y;
    }
  }

  ghost function WithoutLinks(sibling: map<Article, Article?>, l: seq<Article>, i: nat): map<Article, Article?>
    requires i < |l|
  {
    if i > 0 then sibling[l[i - 1] := At(l, i + 1)] else sibling
  }

  lemma ChainWithout(sibling: map<Article, Article?>, first: Article?, l: seq<Article>, i: nat)
    requires Chain(sibling, first, l) && NoDup(l) && i < |l|
    ensures Chain(WithoutLinks(sibling, l, i), At(Without(l, i), 0), Without(l, i))
    ensures WithoutLinks(sibling, l, i).Keys == sibling.Keys
  {
    var l', sibling' := Without(l, i), WithoutLinks(sibling, l, i);
    assert i > 0 ==> l[i - 1] in sibling;
    forall k | 0 <= k < |l'| ensures l'[k] in sibling' && sibling'[l'[k]] == At(l', k + 1) {
      if k < i {
        assert l'[k] == l[k];
        assert k + 1 < i ==> l[k] != l[i - 1];
      } else {
        assert l'[k] == l[k + 1];
        assert i > 0 ==> l[k + 1] != l[i - 1];
      }
    }
  }

  ghost function IndexOf<T>(l: seq<T>, x: T): (i: nat)
    requires x in l
    ensures i < |l| && l[i] == x
  {
    if l[0] == x then 0 else 1 + IndexOf(l[1..], x)
  }

  /** Taking `a` out of the list it is in; its own pointers stay. */
  ghost function Unlink(h: Links, s: Shape, a: Article): Change
    requires Wf(h, s) && a in s.home
  {
    assert Filed(h, s, a);
    var l := ListOf(s, h.parent[a], s.home[a]);
    var i := IndexOf(l, a);
    Change(a, h.parent[a], s.home[a], Without(l, i), WithoutLinks(h.sibling, l, i), s.home - {a})
  }

  lemma RemovalApplies(h: Links, s: Shape, a: Article, l: seq<Article>, i: nat)
    requires a in s.home && ParentKnown(h.parent, a) && i < |l| && l[i] == a && GoodList(h, s, h.parent[a], s.home[a], l)
    ensures Applies(h, s, Change(a, h.parent[a], s.home[a], Without(l, i), WithoutLinks(h.sibling, l, i), s.home - {a}))
  {
    var p := h.parent[a];
    NoDupWithout(l, i);
    ChainWithout(h.sibling, if p == null then h.thread[s.home[a]] else h.child1[p], l, i);
    assert i > 0 ==> l[i - 1] in l;
  }

  lemma UnlinkApplies(h: Links, s: Shape, a: Article)
    requires Wf(h, s) && a in s.home
    ensures Applies(h, s, Unlink(h, s, a))
  {
    assert Filed(h, s, a);
    ListDated(h, s, h.parent[a], s.home[a]);
    var l := ListOf(s, h.parent[a], s.home[a]);
    RemovalApplies(h, s, a, l, IndexOf(l, a));
  }

  ghost function AfterUnlink(g: State, a: Article): (g': State)
    requires Wf(g.h, g.s) && a in g.s.home
    ensures Wf(g'.h, g'.s)
  {
    var c := Unlink(g.h, g.s, a);
    UnlinkApplies(g.h, g.s, a);
    ChangeKeepsWf(g.h, g.s, c);
    State(Changed(g.h, g.s, c), ChangedShape(g.h, g.s, c))
  }

  /** `a` sits in `l`, the list of its parent or of the thread of ring `r`, at position `i`. */
  ghost predicate Seat(h: Links, a: Article, r: seq<Subject>, l: seq<Article>, i: nat) {
    && NoDup(l) && i < |l| && l[i] == a && a in h.parent && (forall x :: x in l ==> x in h.parent)
    && Cycle(h.link, r) && (forall t :: t in r ==> t in h.thread)
    && (h.parent[a] != null ==> h.parent[a] in h.parent && h.parent[a] in h.child1
                                && Chain(h.sibling, h.child1[h.parent[a]], l))
    && (h.parent[a] == null ==> forall t :: t in r ==> Chain(h.sibling, h.thread[t], l))
  }

  ghost function ListWith(g: State, a: Article): (l: seq<Article>)
    requires Wf(g.h, g.s) && a in g.s.home
    ensures a in l
  {
    assert Filed(g.h, g.s, a);
    ListOf(g.s, g.h.parent[a], g.s.home[a])
  }

  ghost function HomeRing(g: State, a: Article): seq<Subject>
    requires Wf(g.h, g.s) && a in g.s.home
  {
    g.s.ring[g.s.home[a]]
  }

  lemma UnlinkFacts(g: State, a: Article)
    requires Wf(g.h, g.s) && a in g.s.home
    ensures Seat(g.h, a, HomeRing(g, a), ListWith(g, a), IndexOf(ListWith(g, a), a)) && a in g.h.parent
  {
    assert Filed(g.h, g.s, a);
    ListDated(g.h, g.s, g.h.parent[a], g.s.home[a]);
    SameHead(g, g.s.home[a]);
  }

  /** Everything unlinking changes, field by field. */
  lemma AfterUnlinkFields(g: State, a: Article)
    requires Wf(g.h, g.s) && a in g.s.home
    ensures
      var g', p, r, l := AfterUnlink(g, a), g.h.parent[a], HomeRing(g, a), ListWith(g, a);
      var i := IndexOf(l, a);
      && g'.h == NewLinks(g.h, r, p, WithoutLinks(g.h.sibling, l, i), Without(l, i))
      && g'.s == NewLists(g.s, r, p, Without(l, i), g.s.home - {a})
  {
    assert Filed(g.h, g.s, a);
    UnlinkApplies(g.h, g.s, a);
  }
}
