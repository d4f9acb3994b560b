/** The theory of the loop of `thread_article` that reads the references
    (libtrn/Article.cpp, lines 963-1051): what each step keeps. */
module Walking {
  import opened Forest
  import opened Joining
  import opened Ancestry
  import opened Placing
  import opened Settling
  import opened References

  type Table = map<string, Article>

  ghost predicate TableFits(table: Table, known: set<Article>) {
    && (forall id :: id in table ==> table[id] in known)
    && (forall id, id' :: id in table && id' in table && table[id] == table[id'] ==> id == id')
  }

  /** Where the walk stands: at its start the article is out of its thread already, or still
      in it when it is being threaded again; from the first reference on there is a chain. */
  ghost predicate Standing(g: State, a: Article, base: Subject, rethreading: bool, chain: seq<Article>) {
    if rethreading && chain == [a] then Tidy(g) && a in g.s.home && Subj(g, a) == base
    else Chained(g, a, base, chain)
  }

  /** The message-id table has grown only by the ids on the path, each a new article. */
  ghost predicate TableGrew(g0: State, t0: Table, a: Article, t: Table, path: seq<string>) {
    && (forall id :: id in t0 ==> id in t && t[id] == t0[id] && t0[id] in g0.h.parent)
    && (forall id :: id in t && id !in t0 ==> t[id] !in g0.h.parent)
    && (forall id :: id in path ==> id in t && KindOf(g0, t0, a, id) == Fresh)
  }

  /** Articles off the chain are as they were. */
  ghost predicate OthersKept(g0: State, g: State, chain: seq<Article>) {
    && (forall q :: q in g0.h.parent ==> q in g.h.parent)
    && (forall q :: q in g0.h.parent && q !in chain ==> Par(g, q) == Par(g0, q))
    && (forall q :: q in g0.h.parent && (q !in chain || q == chain[0]) ==>
          Subj(g, q) == Subj(g0, q) && Date(g, q) == Date(g0, q))
  }

  ghost predicate Blank(g: State, x: Article) {
    Subj(g, x) == null && Date(g, x) == 0
  }

  ghost predicate WalkInv(g0: State, t0: Table, a: Article, base: Subject, rethreading: bool,
                          g: State, t: Table, w: Walk, chain: seq<Article>, pending: set<string>) {
    && Standing(g, a, base, rethreading, chain) && a in g0.h.parent
    && TableFits(t, g.h.parent.Keys) && TableGrew(g0, t0, a, t, w.path)
    && (forall id :: id in t ==> id in t0 || id in w.path || id in pending)
    && (forall id :: id in pending && id in t && id !in t0 && id !in w.path ==> Blank(g, t[id]))
    && !w.stopped && chain == [a] + Named(t, w.path)
    && OthersKept(g0, g, chain) && (chain == [a] ==> Par(g, a) == Par(g0, a))
  }

  ghost predicate TableKept(t0: Table, t: Table, path: seq<string>) {
    && (forall id :: id in t <==> id in t0 || id in path) && (forall id :: id in t0 ==> t[id] == t0[id])
  }

  lemma NamedIn(t: Table, path: seq<string>, x: Article)
    requires forall id :: id in path ==> id in t
    ensures x in Named(t, path) <==> exists id :: id in path && t[id] == x
  {
    if x in Named(t, path) {
      var i :| 0 <= i < |path| && Named(t, path)[i] == x;
      assert path[i] in path;
    }
    forall id | id in path && t[id] == x ensures x in Named(t, path) {
      var i :| 0 <= i < |path| && path[i] == id;
      assert Named(t, path)[i] == x;
    }
  }

  /** What the source's test on date and subject finds out about the article just looked up. */
  lemma Classify(g0: State, t0: Table, a: Article, base: Subject, rethreading: bool,
                 g: State, t: Table, w: Walk, chain: seq<Article>, id: string)
    requires WalkInv(g0, t0, a, base, rethreading, g, t, w, chain, {id}) && id in t
    ensures t[id] in g.h.parent
    ensures match KindOf(g0, t0, a, id)
      case Itself => t[id] == a
      case Threaded => t[id] != a && t[id] !in chain && Subj(g, t[id]) != null
      case Stale => t[id] != a && Subj(g, t[id]) == null && Date(g, t[id]) != 0
      case Fresh =>
        (t[id] != a && Subj(g, t[id]) == null &&
         if id in w.path then t[id] in chain && Date(g, t[id]) == Date(g, a)
         else t[id] !in chain && Date(g, t[id]) == 0)
  {
    hide Chained, Tidy, Grounded;
    var x := t[id];
    NamedIn(t, w.path, x);
    assert x in chain <==> x == a || x in Named(t, w.path);
    if id in w.path {
      ChainMember(g, a, base, rethreading, chain, x);
    }
  }

  lemma ChainMember(g: State, a: Article, base: Subject, rethreading: bool, chain: seq<Article>, x: Article)
    requires Standing(g, a, base, rethreading, chain) && x in chain && x != a && chain != [] && chain[0] == a
    ensures Subj(g, x) == null && Date(g, x) == Date(g, a)
  {
    hide Wf, Grounded, Coherent;
    var i :| 0 <= i < |chain| && chain[i] == x;
    assert Rung(g, base, chain, i - 1);
  }

  /** A reference that does not count changes nothing. */
  lemma StepSkipped(g0: State, t0: Table, a: Article, base: Subject, rethreading: bool,
                    g: State, t: Table, w: Walk, chain: seq<Article>, id: string, w': Walk)
    requires WalkInv(g0, t0, a, base, rethreading, g, t, w, chain, {id})
    requires w' == Extended(g0, t0, a, w, MessageId(id)) && w'.path == w.path && !w'.stopped
    ensures WalkInv(g0, t0, a, base, rethreading, g, t, w', chain, {})
  {
    hide Standing, TableFits, TableGrew, OthersKept, KindOf;
    assert id in t ==> id in t0 || id in w.path by {
      SkippedKnown(g0, t0, a, w, id);
    }
  }

  lemma SkippedKnown(g0: State, t0: Table, a: Article, w: Walk, id: string)
    requires !w.stopped && Extended(g0, t0, a, w, MessageId(id)).path == w.path
    ensures id in t0 || id in w.path
  {
  }

  /** Looking up an id never seen makes a new fake. */
  lemma StepAdded(g0: State, t0: Table, a: Article, base: Subject, rethreading: bool,
                  g: State, t: Table, w: Walk, chain: seq<Article>, id: string, f: Article)
    requires WalkInv(g0, t0, a, base, rethreading, g, t, w, chain, {}) && id !in t && Unknown(g, f)
    ensures WalkInv(g0, t0, a, base, rethreading, Added(g, f), t[id := f], w, chain, {id})
  {
    hide Standing, KindOf, OthersKept, Unknown, TableFits, TableGrew, Blank;
    StandingAdded(g, a, base, rethreading, chain, f);
    AddedKept(g0, g, chain, f);
    TableAdded(g0, t0, a, g, t, w.path, id, f);
  }

  lemma TableAdded(g0: State, t0: Table, a: Article, g: State, t: Table, path: seq<string>, id: string, f: Article)
    requires TableFits(t, g.h.parent.Keys) && TableGrew(g0, t0, a, t, path) && id !in t
    requires f !in g.h.parent && f !in g0.h.parent && Added(g, f).h.parent.Keys == g.h.parent.Keys + {f}
    ensures TableFits(t[id := f], Added(g, f).h.parent.Keys) && TableGrew(g0, t0, a, t[id := f], path)
    ensures id !in t0 && id !in path && forall i :: i in path ==> i in t && i in t[id := f]
    ensures Named(t[id := f], path) == Named(t, path)
  {
    hide KindOf, Added;
    TableFitsMore(t, g.h.parent.Keys, id, f);
    assert forall i :: i in path ==> i in t && i != id;
  }

  lemma TableFitsMore(t: Table, known: set<Article>, id: string, f: Article)
    requires TableFits(t, known) && id !in t && f !in known
    ensures TableFits(t[id := f], known + {f})
  {
    var t', all := t[id := f], known + {f};
    forall i, i' | i in t' && i' in t' && t'[i] == t'[i'] ensures i == i' {
      assert i != id ==> t[i] in known;
      assert i' != id ==> t[i'] in known;
    }
  }

  lemma StandingAdded(g: State, a: Article, base: Subject, rethreading: bool, chain: seq<Article>, f: Article)
    requires Standing(g, a, base, rethreading, chain) && Unknown(g, f)
    ensures Standing(Added(g, f), a, base, rethreading, chain)
    ensures Blank(Added(g, f), f) && f !in g.h.parent && Added(g, f).h.parent.Keys == g.h.parent.Keys + {f}
  {
    hide Wf, Grounded, Coherent, Rung, NoDup;
    if rethreading && chain == [a] {
      AddedTidy(g, f);
    } else {
      AddedChained(g, f, a, base, chain);
    }
  }

  lemma AddedKept(g0: State, g: State, chain: seq<Article>, f: Article)
    requires OthersKept(g0, g, chain) && Unknown(g, f) && chain != []
    ensures OthersKept(g0, Added(g, f), chain)
    ensures forall q :: q in g0.h.parent ==> q != f && Par(Added(g, f), q) == Par(g, q)
  {
  }

  lemma FoundPending(g0: State, t0: Table, a: Article, base: Subject, rethreading: bool,
                     g: State, t: Table, w: Walk, chain: seq<Article>, id: string)
    requires WalkInv(g0, t0, a, base, rethreading, g, t, w, chain, {})
    ensures WalkInv(g0, t0, a, base, rethreading, g, t, w, chain, {id})
  {
    hide Standing, TableFits, TableGrew, OthersKept, KindOf;
  }

  /** The article is taken out of its thread, if it was still in one, before it gets a parent. */
  ghost function Base0(g: State, a: Article, rethreading: bool, chain: seq<Article>): State
    requires rethreading && chain == [a] ==> Wf(g.h, g.s) && a in g.s.home
  {
    if rethreading && chain == [a] then CutOff(g, a) else g
  }

  lemma StandingWf(g: State, a: Article, base: Subject, rethreading: bool, chain: seq<Article>)
    requires Standing(g, a, base, rethreading, chain)
    ensures Wf(g.h, g.s) && a in g.h.parent && Subj(g, a) == base && base in g.h.thread
    ensures rethreading && chain == [a] ==> a in g.s.home
    ensures chain != [] && chain[0] == a
  {
    hide Wf, Coherent, Grounded, Rung, NoDup;
    if rethreading && chain == [a] {
      HomeFacts(g, a);
      SubjectKnown(g, a);
    } else {
      assert a in chain;
    }
  }

  lemma ReadyToAttach(g: State, a: Article, base: Subject, rethreading: bool, chain: seq<Article>)
    requires Standing(g, a, base, rethreading, chain)
    ensures rethreading && chain == [a] ==> Wf(g.h, g.s) && a in g.s.home
    ensures
      var gs := Base0(g, a, rethreading, chain);
      && Chained(gs, a, base, chain) && gs.h.subj == g.h.subj && gs.h.date == g.h.date && a in g.h.parent
      && gs.h.parent == g.h.parent[Last(chain) := null]
      && (forall q :: q in gs.s.home <==> q in g.s.home && q != Last(chain))
  {
    hide Wf, Coherent, Grounded, Rung, NoDup;
    StandingWf(g, a, base, rethreading, chain);
    if rethreading && chain == [a] {
      TakenOut(g, a);
      UnlinkRemoves(g, a);
    } else {
      assert Last(chain) in chain;
    }
  }

  lemma StandingAlone(g: State, a: Article, base: Subject, rethreading: bool)
    requires Standing(g, a, base, rethreading, [a])
    ensures if rethreading then Tidy(g) && a in g.s.home else Chained(g, a, base, [a])
  {
    hide Chained, Tidy;
  }

  /** The state after the chain has been put under an unknown article and that article dated. */
  ghost function Lengthened(gs: State, a: Article, base: Subject, chain: seq<Article>, x: Article): State
    requires chain != [] && Wf(gs.h, gs.s) && Last(chain) in gs.h.parent && Last(chain) !in gs.s.home
    requires x in gs.h.parent && base in gs.h.thread
  {
    SetDate(Attached(gs, Last(chain), x, base), x, Date(gs, a))
  }

  lemma ChainedReady(gs: State, a: Article, base: Subject, chain: seq<Article>)
    requires Chained(gs, a, base, chain)
    ensures chain != [] && Wf(gs.h, gs.s) && Last(chain) in gs.h.parent && Last(chain) !in gs.s.home && base in gs.h.thread
    ensures Par(gs, Last(chain)) == null
  {
    hide Wf, Grounded, Coherent, Rung, NoDup;
    assert Last(chain) in chain;
  }

  /** A new unknown reference makes the chain one longer. */
  lemma StepFresh(g0: State, t0: Table, a: Article, base: Subject, rethreading: bool,
                  g: State, t: Table, w: Walk, chain: seq<Article>, id: string, gs: State)
    requires WalkInv(g0, t0, a, base, rethreading, g, t, w, chain, {id}) && id in t
    requires KindOf(g0, t0, a, id) == Fresh && id !in w.path
    requires (rethreading && chain == [a] ==> Wf(g.h, g.s) && a in g.s.home) && gs == Base0(g, a, rethreading, chain)
    ensures Chained(gs, a, base, chain) && t[id] in gs.h.parent && t[id] !in gs.s.home && t[id] !in chain
    ensures chain != [] && Wf(gs.h, gs.s) && Last(chain) in gs.h.parent && Last(chain) !in gs.s.home && base in gs.h.thread
    ensures WalkInv(g0, t0, a, base, rethreading, Lengthened(gs, a, base, chain, t[id]), t,
                    w.(path := w.path + [id]), chain + [t[id]], {})
  {
    hide Wf, Chained, Tidy, KindOf, Grounded, OthersKept, TableFits, TableGrew, Attached, Standing;
    var x := t[id];
    ReadyToAttach(g, a, base, rethreading, chain);
    ChainedReady(gs, a, base, chain);
    Classify(g0, t0, a, base, rethreading, g, t, w, chain, id);
    var g' := Lengthened(gs, a, base, chain, x);
    UnknownUnlinked(g, a, base, rethreading, chain, x);
    AttachUnknown(gs, a, base, chain, x);
    FreshKept(g0, g, gs, a, base, chain, x);
    NamedSnoc(g0, t0, a, t, w.path, id);
    FreshTable(g0, t0, a, g, g', t, w.path, id);
    LongerStanding(g', a, base, rethreading, chain, x);
  }

  lemma LongerStanding(g': State, a: Article, base: Subject, rethreading: bool, chain: seq<Article>, x: Article)
    requires Chained(g', a, base, chain + [x]) && chain != []
    ensures Standing(g', a, base, rethreading, chain + [x])
  {
    hide Chained;
    assert |chain + [x]| > 1;
  }

  lemma NamedSnoc(g0: State, t0: Table, a: Article, t: Table, path: seq<string>, id: string)
    requires TableGrew(g0, t0, a, t, path) && id in t
    ensures forall i :: i in path + [id] ==> i in t
    ensures Named(t, path + [id]) == Named(t, path) + [t[id]]
  {
  }

  lemma FreshTable(g0: State, t0: Table, a: Article, g: State, g': State, t: Table, path: seq<string>, id: string)
    requires TableFits(t, g.h.parent.Keys) && TableGrew(g0, t0, a, t, path) && id in t
    requires g'.h.parent.Keys == g.h.parent.Keys && KindOf(g0, t0, a, id) == Fresh
    ensures TableFits(t, g'.h.parent.Keys) && TableGrew(g0, t0, a, t, path + [id])
  {
  }

  lemma UnknownUnlinked(g: State, a: Article, base: Subject, rethreading: bool, chain: seq<Article>, x: Article)
    requires Standing(g, a, base, rethreading, chain) && x in g.h.parent && Subj(g, x) == null && x !in chain
    ensures x !in g.s.home
  {
    hide Wf, Grounded, Rung, NoDup;
  }

  lemma FreshKept(g0: State, g: State, gs: State, a: Article, base: Subject, chain: seq<Article>, x: Article)
    requires OthersKept(g0, g, chain) && gs.h.subj == g.h.subj && gs.h.date == g.h.date && chain != [] && chain[0] == a
    requires gs.h.parent == g.h.parent[Last(chain) := null] && Last(chain) in g.h.parent && x in gs.h.parent
    requires Chained(gs, a, base, chain) && x !in gs.s.home && x !in chain && Subj(gs, x) == null
    requires Wf(gs.h, gs.s) && Last(chain) in gs.h.parent && Last(chain) !in gs.s.home && base in gs.h.thread
    ensures OthersKept(g0, Lengthened(gs, a, base, chain, x), chain + [x])
    ensures Lengthened(gs, a, base, chain, x).h.parent.Keys == g.h.parent.Keys
  {
    hide Wf, Grounded, Rung, NoDup, Attached, Placed;
    LooseAt(gs, a, Last(chain), base, chain[1..], x);
    assert Last(chain) in chain;
    AttachedToChildless(gs, Last(chain), x, base);
  }

  /** A reference to an article of a thread: the chain can be hung under it. */
  lemma StepThreaded(g0: State, t0: Table, a: Article, base: Subject, rethreading: bool,
                     g: State, t: Table, w: Walk, chain: seq<Article>, id: string, gs: State)
    requires WalkInv(g0, t0, a, base, rethreading, g, t, w, chain, {id}) && id in t && KindOf(g0, t0, a, id) == Threaded
    requires (rethreading && chain == [a] ==> Wf(g.h, g.s) && a in g.s.home) && gs == Base0(g, a, rethreading, chain)
    ensures Chained(gs, a, base, chain) && t[id] in gs.s.home && t[id] in gs.h.parent && t[id] !in chain
    ensures Subj(gs, t[id]) != null && OthersKept(g0, gs, chain)
  {
    hide Wf, Chained, Tidy, KindOf, Grounded, TableFits, TableGrew, Standing;
    ReadyToAttach(g, a, base, rethreading, chain);
    ChainedReady(gs, a, base, chain);
    Classify(g0, t0, a, base, rethreading, g, t, w, chain, id);
    KnownLinked(g, a, base, rethreading, chain, t[id]);
    assert Last(chain) in chain;
  }

  lemma KnownLinked(g: State, a: Article, base: Subject, rethreading: bool, chain: seq<Article>, x: Article)
    requires Standing(g, a, base, rethreading, chain) && x in g.h.parent && Subj(g, x) != null && x !in chain
    ensures x in g.s.home
  {
    hide Wf, Grounded, Rung, NoDup, Placed;
    if !(rethreading && chain == [a]) {
      assert a in chain;
    }
  }

  /** What the source's test for "still in its thread" sees, and what unlinking needs. */
  lemma AttachReady(g: State, a: Article, base: Subject, rethreading: bool, chain: seq<Article>)
    requires Standing(g, a, base, rethreading, chain)
    ensures chain != [] && Wf(g.h, g.s) && Last(chain) in g.h.parent && base in g.h.thread
    ensures (rethreading && Subj(g, Last(chain)) != null) <==> (rethreading && chain == [a])
    ensures rethreading && chain == [a] ==>
      a in g.s.home && Subj(g, a) == base && base in HomeRing(g, a)
      && Wf(AfterUnlink(g, a).h, AfterUnlink(g, a).s) && AfterUnlink(g, a).h.thread.Keys == g.h.thread.Keys
      && a !in AfterUnlink(g, a).s.home && AfterUnlink(g, a).h.parent == g.h.parent
    ensures !(rethreading && chain == [a]) ==> Last(chain) !in g.s.home
  {
    hide Wf, Grounded, Coherent, Rung, NoDup;
    StandingWf(g, a, base, rethreading, chain);
    if rethreading && chain == [a] {
      UnlinkRemoves(g, a);
      HomeOfSubject(g, a, base);
    } else {
      assert Last(chain) in chain;
      if |chain| > 1 {
        LastIsFake(g, a, base, rethreading, chain);
      }
    }
  }

  lemma LastIsFake(g: State, a: Article, base: Subject, rethreading: bool, chain: seq<Article>)
    requires Standing(g, a, base, rethreading, chain) && |chain| > 1
    ensures Subj(g, Last(chain)) == null
  {
    hide Wf, Grounded, Coherent, NoDup;
    assert Rung(g, base, chain, |chain| - 2);
  }

  lemma HomeOfSubject(g: State, a: Article, base: Subject)
    requires Tidy(g) && a in g.s.home && Subj(g, a) == base
    ensures base in HomeRing(g, a)
  {
    hide Wf, Grounded;
    assert Placed(g, a, null, null, []);
    HomeFacts(g, a);
    SubjectKnown(g, a);
    RingFacts(g, base);
    RingFacts(g, g.s.home[a]);
  }

  lemma AttachedIs(g: State, a: Article, base: Subject, rethreading: bool, chain: seq<Article>, ap: Article)
    requires Standing(g, a, base, rethreading, chain) && ap in g.h.parent
    ensures Wf(g.h, g.s) && (rethreading && chain == [a] ==> a in g.s.home)
    ensures chain != [] && Last(chain) in g.h.parent && base in g.h.thread
    ensures
      var gs := Base0(g, a, rethreading, chain);
      var g1 := if rethreading && chain == [a] then AfterUnlink(g, a) else g;
      && Wf(gs.h, gs.s) && Last(chain) in gs.h.parent && Last(chain) !in gs.s.home && ap in gs.h.parent && base in gs.h.thread
      && Wf(g1.h, g1.s) && Last(chain) in g1.h.parent && Last(chain) !in g1.s.home
      && Wf(SetParent(g1, Last(chain), ap).h, g1.s)
      && Linkable(SetParent(g1, Last(chain), ap).h, g1.s, Last(chain), base)
      && Attached(gs, Last(chain), ap, base) == AfterLink(SetParent(g1, Last(chain), ap), Last(chain), base)
  {
    hide Wf, Grounded, Coherent, Rung, NoDup, Chained;
    AttachReady(g, a, base, rethreading, chain);
    ReadyToAttach(g, a, base, rethreading, chain);
    var gs := Base0(g, a, rethreading, chain);
    ChainedReady(gs, a, base, chain);
    var g1 := if rethreading && chain == [a] then AfterUnlink(g, a) else g;
    SetParentKeepsWf(g1, Last(chain), ap);
    assert g1.h.parent[Last(chain) := ap] == gs.h.parent[Last(chain) := ap];
    assert SetParent(g1, Last(chain), ap) == SetParent(gs, Last(chain), ap);
  }

  /** The state once the chain hangs under `ap`. */
  ghost function AttachedTo(g: State, a: Article, base: Subject, rethreading: bool, chain: seq<Article>, ap: Article): State
    requires Standing(g, a, base, rethreading, chain) && ap in g.h.parent
  {
    AttachedIs(g, a, base, rethreading, chain, ap);
    Attached(Base0(g, a, rethreading, chain), Last(chain), ap, base)
  }

  ghost function Top(chain: seq<Article>): Article? {
    if |chain| <= 1 then null else chain[|chain| - 1]
  }

  /** The walk ended under `ap`, an article of a thread: `gs` is the state before the last link. */
  ghost predicate Hit(g0: State, t0: Table, a: Article, base: Subject, rethreading: bool,
                      g: State, t: Table, w: Walk, ap: Article?, chain: seq<Article>, gs: State) {
    && w.path != [] && (forall id :: id in w.path ==> id in t) && ap != null
    && [a] + Named(t, w.path) == chain + [ap]
    && Chained(gs, a, base, chain) && ap in gs.s.home && ap in gs.h.parent && ap !in chain && Subj(gs, ap) != null
    && OthersKept(g0, gs, chain) && TableFits(t, g.h.parent.Keys) && TableKept(t0, t, w.path) && ap in g0.h.parent
    && Last(w.path) in t0 && t0[Last(w.path)] == ap
    && g == AttachedAt(gs, a, base, chain, ap)
  }

  ghost function AttachedAt(gs: State, a: Article, base: Subject, chain: seq<Article>, ap: Article): State
    requires Chained(gs, a, base, chain) && ap in gs.h.parent
  {
    ChainedReady(gs, a, base, chain);
    Attached(gs, Last(chain), ap, base)
  }

  /** The walk met no article of a thread. */
  ghost predicate Missed(g0: State, t0: Table, a: Article, base: Subject, rethreading: bool,
                         g: State, t: Table, w: Walk, ap: Article?, chain: seq<Article>) {
    WalkInv(g0, t0, a, base, rethreading, g, t, w.(stopped := false), chain, {}) && ap == Top(chain)
  }

  lemma HitStands(g0: State, t0: Table, a: Article, base: Subject, rethreading: bool,
                  g: State, t: Table, w: Walk, chain: seq<Article>, id: string)
    requires WalkInv(g0, t0, a, base, rethreading, g, t, w, chain, {id}) && id in t && KindOf(g0, t0, a, id) == Threaded
    ensures t[id] in g.h.parent && t[id] != a && Subj(g, t[id]) != null && Standing(g, a, base, rethreading, chain)
    ensures rethreading && chain == [a] ==> Wf(g.h, g.s) && a in g.s.home
    ensures chain != [] && TableFits(t, g.h.parent.Keys)
    ensures forall i :: i in w.path ==> i in t
    ensures chain == [a] + Named(t, w.path) && TableGrew(g0, t0, a, t, w.path)
    ensures forall i :: i in t ==> i in t0 || i in w.path || i == id
  {
    hide Wf, Chained, Tidy, KindOf, OthersKept, TableFits;
    InvParts(g0, t0, a, base, rethreading, g, t, w, chain, {id});
    StandingWf(g, a, base, rethreading, chain);
    Classify(g0, t0, a, base, rethreading, g, t, w, chain, id);
  }

  lemma HitAt(g0: State, t0: Table, a: Article, base: Subject, rethreading: bool,
              g: State, t: Table, w: Walk, chain: seq<Article>, id: string)
    requires WalkInv(g0, t0, a, base, rethreading, g, t, w, chain, {id}) && id in t && KindOf(g0, t0, a, id) == Threaded
    ensures t[id] in g.h.parent && t[id] != a && Subj(g, t[id]) != null
    ensures Standing(g, a, base, rethreading, chain)
    ensures rethreading && chain == [a] ==> Wf(g.h, g.s) && a in g.s.home
    ensures Hit(g0, t0, a, base, rethreading, AttachedTo(g, a, base, rethreading, chain, t[id]), t,
                w.(path := w.path + [id], stopped := true), t[id], chain, Base0(g, a, rethreading, chain))
    ensures Subj(AttachedTo(g, a, base, rethreading, chain, t[id]), t[id]) == Subj(g, t[id])
  {
    hide Wf, Chained, Tidy, Grounded, KindOf, Attached, Standing, OthersKept, WalkInv, TableGrew, TableFits, TableKept;
    HitStands(g0, t0, a, base, rethreading, g, t, w, chain, id);
    ReadyToAttach(g, a, base, rethreading, chain);
    var gs := Base0(g, a, rethreading, chain);
    StepThreaded(g0, t0, a, base, rethreading, g, t, w, chain, id, gs);
    ChainedReady(gs, a, base, chain);
    AttachedIs(g, a, base, rethreading, chain, t[id]);
    AttachedFields(gs, Last(chain), t[id], base);
    AttachedKeys(gs, Last(chain), t[id], base, g);
    ThreadedPath(g0, t0, a, t, w.path, id);
  }

  lemma AttachedKeys(gs: State, prev: Article, ap: Article, base: Subject, g: State)
    requires Wf(gs.h, gs.s) && prev in gs.h.parent && prev !in gs.s.home && ap in gs.h.parent && base in gs.h.thread
    requires gs.h.parent == g.h.parent[prev := null] && prev in g.h.parent
    ensures Attached(gs, prev, ap, base).h.parent.Keys == g.h.parent.Keys
  {
    hide Wf, Attached;
    AttachedFields(gs, prev, ap, base);
  }

  lemma ThreadedPath(g0: State, t0: Table, a: Article, t: Table, path: seq<string>, id: string)
    requires TableGrew(g0, t0, a, t, path) && id in t
    requires forall i :: i in t ==> i in t0 || i in path || i == id
    ensures forall i :: i in path + [id] ==> i in t
    ensures Named(t, path + [id]) == Named(t, path) + [t[id]] && TableKept(t0, t, path + [id])
    ensures KindOf(g0, t0, a, id) == Threaded ==> t[id] in g0.h.parent && id in t0 && t0[id] == t[id]
  {
  }

  lemma FreshAt(g0: State, t0: Table, a: Article, base: Subject, rethreading: bool,
                g: State, t: Table, w: Walk, chain: seq<Article>, id: string)
    requires WalkInv(g0, t0, a, base, rethreading, g, t, w, chain, {id}) && id in t
    requires KindOf(g0, t0, a, id) == Fresh && id !in w.path
    ensures t[id] in g.h.parent && t[id] != a && Standing(g, a, base, rethreading, chain)
    ensures
      var g1 := AttachedTo(g, a, base, rethreading, chain, t[id]);
      && Subj(g1, t[id]) == null && t[id] !in g1.s.home
      && WalkInv(g0, t0, a, base, rethreading, SetDate(g1, t[id], Date(g, a)), t, w.(path := w.path + [id]),
                 chain + [t[id]], {})
  {
    hide Wf, Chained, Tidy, Grounded, KindOf, Attached, Standing, OthersKept;
    ReadyToAttach(g, a, base, rethreading, chain);
    Classify(g0, t0, a, base, rethreading, g, t, w, chain, id);
    var gs := Base0(g, a, rethreading, chain);
    StepFresh(g0, t0, a, base, rethreading, g, t, w, chain, id, gs);
    AttachedIs(g, a, base, rethreading, chain, t[id]);
    AttachedFields(gs, Last(chain), t[id], base);
  }

  /** The source's duplicate test is right: what passes it is an article of a thread or one
      not met before; what fails it does not count. */
  lemma Verdict(g0: State, t0: Table, a: Article, base: Subject, rethreading: bool,
                g: State, t: Table, w: Walk, chain: seq<Article>, id: string)
    requires WalkInv(g0, t0, a, base, rethreading, g, t, w, chain, {id}) && id in t
    requires Date(g, a) != 0 || !Extended(g0, t0, a, w, MessageId(id)).repeated
    ensures
      var x, w' := t[id], Extended(g0, t0, a, w, MessageId(id));
      if (Date(g, x) != 0 && Subj(g, x) == null) || x == a then w'.path == w.path && !w'.stopped
      else if Subj(g, x) != null then
        KindOf(g0, t0, a, id) == Threaded && w' == w.(path := w.path + [id], stopped := true)
      else KindOf(g0, t0, a, id) == Fresh && id !in w.path && w' == w.(path := w.path + [id])
  {
    hide Standing, TableFits, TableGrew, OthersKept, KindOf;
    Classify(g0, t0, a, base, rethreading, g, t, w, chain, id);
  }

  lemma InvParts(g0: State, t0: Table, a: Article, base: Subject, rethreading: bool,
                 g: State, t: Table, w: Walk, chain: seq<Article>, pending: set<string>)
    requires WalkInv(g0, t0, a, base, rethreading, g, t, w, chain, pending)
    ensures Standing(g, a, base, rethreading, chain) && chain != [] && chain[0] == a && a in g.h.parent
    ensures TableFits(t, g.h.parent.Keys) && Last(chain) in g.h.parent
    ensures |chain| == 1 <==> Last(chain) == a
  {
    hide Wf, Grounded, Coherent, Rung;
    StandingWf(g, a, base, rethreading, chain);
    assert (rethreading && chain == [a]) || Chained(g, a, base, chain);
    assert Last(chain) in chain;
  }

  lemma WalkStarts(g: State, t: Table, a: Article, base: Subject, rethreading: bool, refs: seq<Reference>)
    requires Standing(g, a, base, rethreading, [a]) && TableFits(t, g.h.parent.Keys)
    ensures refs[..0] == [] && WalkInv(g, t, a, base, rethreading, g, t, WalkOf(g, t, a, refs[..0]), [a], {})
  {
    hide Wf, Grounded, Coherent, Rung, KindOf;
    StandingWf(g, a, base, rethreading, [a]);
    assert [a] + Named(t, []) == [a];
  }

  /** Repeats seen later than the next reference do not matter for it. */
  lemma NoRepeatYet(g: State, t: Table, a: Article, refs: seq<Reference>, i: nat)
    requires i < |refs| && refs[i].MessageId? && !WalkOf(g, t, a, refs).repeated
    ensures !Extended(g, t, a, WalkOf(g, t, a, refs[..i]), refs[i]).repeated
  {
    WalkSnoc(g, t, a, refs, i);
    if WalkOf(g, t, a, refs[..i + 1]).repeated {
      RepeatsStay(g, t, a, refs, i + 1);
    }
  }

  lemma ReadToTheEnd(g0: State, t0: Table, a: Article, base: Subject, rethreading: bool,
                     g: State, t: Table, w: Walk, ap: Article?, chain: seq<Article>)
    requires WalkInv(g0, t0, a, base, rethreading, g, t, w, chain, {}) && ap == Top(chain)
    ensures Missed(g0, t0, a, base, rethreading, g, t, w, ap, chain)
  {
    hide Standing, TableFits, TableGrew, OthersKept;
  }

  lemma StoppedByGarbage(g0: State, t0: Table, a: Article, base: Subject, rethreading: bool,
                         g: State, t: Table, refs: seq<Reference>, i: nat, ap: Article?, chain: seq<Article>)
    requires i < |refs| && refs[i].Garbage?
    requires WalkInv(g0, t0, a, base, rethreading, g, t, WalkOf(g0, t0, a, refs[..i]), chain, {}) && ap == Top(chain)
    ensures Missed(g0, t0, a, base, rethreading, g, t, WalkOf(g0, t0, a, refs), ap, chain)
  {
    hide Standing, TableFits, TableGrew, OthersKept;
    WalkSnoc(g0, t0, a, refs, i);
    WalkStops(g0, t0, a, refs, i + 1);
  }

  /** What is known when the walk met no article of a thread. */
  lemma MissedEnds(g0: State, t0: Table, a: Article, base: Subject, rethreading: bool,
                   g: State, t: Table, w: Walk, ap: Article?, chain: seq<Article>)
    requires Missed(g0, t0, a, base, rethreading, g, t, w, ap, chain) && Standing(g0, a, base, rethreading, [a])
    ensures (forall id :: id in w.path ==> id in t) && chain == [a] + Named(t, w.path) && TableKept(t0, t, w.path)
    ensures OthersKept(g0, g, chain) && a in g0.h.parent && Wf(g0.h, g0.s) && a in g.h.parent
    ensures chain == [a] ==> Standing(g, a, base, rethreading, [a]) && Par(g, a) == Par(g0, a) && ap == null
    ensures chain != [a] ==> |chain| > 1 && Chained(g, a, base, chain) && ap == Last(chain) && Last(chain) in g.h.parent
    ensures chain != [a] ==> Subj(g0, Last(chain)) == null && Par(g0, Last(chain)) == null && Subj(g, Last(chain)) == null
  {
    hide Wf, Chained, Tidy, Grounded, KindOf;
    StandingWf(g, a, base, rethreading, chain);
    StandingWf(g0, a, base, rethreading, [a]);
    if chain != [a] {
      LastIsFake(g, a, base, rethreading, chain);
      ChainedReady(g, a, base, chain);
      var id := w.path[|w.path| - 1];
      assert t[id] == Last(chain) && id in w.path;
      FreshHadNothing(g0, t0, a, base, rethreading, t, w.path, id);
    }
  }

  lemma FreshHadNothing(g0: State, t0: Table, a: Article, base: Subject, rethreading: bool, t: Table,
                        path: seq<string>, id: string)
    requires Standing(g0, a, base, rethreading, [a]) && TableGrew(g0, t0, a, t, path) && id in path
    ensures id in t && Subj(g0, t[id]) == null && Par(g0, t[id]) == null
  {
    hide Wf, Grounded, Rung;
    StandingWf(g0, a, base, rethreading, [a]);
    WfDomains(g0);
    assert [a][1..] == [];
  }

  lemma LadderOf(g: State, a: Article, base: Subject, chain: seq<Article>)
    requires Chained(g, a, base, chain)
    ensures Ladder(g.h.parent, chain)
  {
    hide Wf, Grounded;
    var p := g.h.parent;
    assert Last(chain) in chain;
    forall i | 0 <= i < |chain| - 1 ensures p[chain[i]] == chain[i + 1] {
      assert Rung(g, base, chain, i) && chain[i] in chain;
    }
    forall q | q in p && p[q] != null && p[q] in chain[1..] ensures q in chain {
      var j :| 0 <= j < |chain| - 1 && chain[1..][j] == p[q];
      assert Rung(g, base, chain, j);
      if q in g.s.home {
        KidsEmptyOrHome(g, q, p[q]);
      } else {
        assert Loose(g, q, a, Last(chain));
      }
    }
  }

  /** The source tells a repeated reference by its date, so a repeat passes the duplicate test
      exactly when the article threaded has no date; and the link made for an article that
      passes the test closes a cycle exactly if it is a repeat. (What that comes to by the end
      of the walk is in Repeats.dfy.) */
  lemma RepeatWithoutDate(g0: State, t0: Table, a: Article, base: Subject, rethreading: bool,
                          g: State, t: Table, w: Walk, chain: seq<Article>, id: string)
    requires WalkInv(g0, t0, a, base, rethreading, g, t, w, chain, {id}) && id in t
    requires KindOf(g0, t0, a, id) == Fresh && chain != [a]
    ensures (Date(g, t[id]) != 0 && Subj(g, t[id]) == null) || t[id] == a <==> id in w.path && Date(g, a) != 0
    ensures chain != [] && Last(chain) in g.h.parent
    ensures Grounded(g.h.parent[Last(chain) := t[id]]) <==> id !in w.path
  {
    hide Wf, Grounded, Rung, Tidy, KindOf, Coherent, Ladder;
    var x := t[id];
    Classify(g0, t0, a, base, rethreading, g, t, w, chain, id);
    ChainedReady(g, a, base, chain);
    LadderOf(g, a, base, chain);
    if id !in w.path {
      UnknownUnlinked(g, a, base, rethreading, chain, x);
      LooseAt(g, a, Last(chain), base, chain[1..], x);
      LastOfChain(chain, x);
    }
    RepeatMakesCycle(g.h.parent, chain, x);
  }

  lemma LastOfChain(chain: seq<Article>, x: Article)
    requires chain != [] && x !in chain
    ensures x != Last(chain)
  {
    assert Last(chain) in chain;
  }
}
