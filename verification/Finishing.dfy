/** The theory behind the end of `thread_article` (libtrn/Article.cpp, lines 1057-1096):
    joining the two threads, giving the fakes their subject, and the climb that looks for
    a circular link. */
module Finishing {
  import opened Forest
  import opened Joining
  import opened Ancestry
  import opened Placing
  import opened Settling
  import opened Detaching
  import opened References
  import opened Walking
  import opened Mixing

  /** The walk is over and the chain is linked: `spine` goes from the article up parent by
      parent to the first article with a subject; those between still lack theirs. */
  ghost predicate Spined(g: State, a: Article, base: Subject, spine: seq<Article>, i: nat) {
    && Wf(g.h, g.s) && |spine| >= 2 && spine[0] == a && 1 <= i < |spine| && NoDup(spine)
    && (forall q :: q in spine ==> q in g.h.parent)
    && base in g.h.thread && Subj(g, a) == base
    && (forall j :: 0 <= j < |spine| - 1 ==> SpineRung(g, base, spine, j))
    && (forall j :: i <= j < |spine| - 1 ==> Subj(g, spine[j]) == null)
    && Subj(g, spine[|spine| - 1]) != null
    && Coherent(g, null, null, null, spine[i..|spine| - 1])
  }

  ghost predicate SpineRung(g: State, base: Subject, spine: seq<Article>, j: int)
    requires 0 <= j < |spine| - 1
  {
    Par(g, spine[j]) == spine[j + 1] && spine[j] in g.s.home && HomeRingAt(g, spine[j]) == RingAt(g, base)
  }

  /** The next fake gets the article's subject. */
  lemma SubjectPassedOn(g: State, a: Article, base: Subject, spine: seq<Article>, i: nat)
    requires Spined(g, a, base, spine, i) && i < |spine| - 1
    ensures Spined(SetSubj(g, spine[i], base), a, base, spine, i + 1)
  {
    hide Wf, Placed, Loose;
    var f, g' := spine[i], SetSubj(g, spine[i], base);
    assert f in spine;
    WfDomains(g);
    SetSubjKeepsWf(g, f, base);
    assert SpineRung(g, base, spine, i);
    assert spine[i..|spine| - 1] == [f] + spine[i + 1..|spine| - 1];
    SubjectGiven(g, f, base, spine[i..|spine| - 1], spine[i + 1..|spine| - 1]);
    forall j | 0 <= j < |spine| - 1 ensures SpineRung(g', base, spine, j) {
      assert SpineRung(g, base, spine, j);
    }
  }

  // ---- The two ways the spine comes about ----------------------------------------------------------

  lemma HeadedSpine(g: State, a: Article, base: Subject, chain: seq<Article>)
    requires Chained(g, a, base, chain) && |chain| > 1
    ensures Last(chain) in g.h.parent && Last(chain) !in g.s.home && base in g.h.thread && Wf(g.h, g.s)
    ensures
      var g' := Headed(g, Last(chain), base);
      && Spined(g', a, base, chain, 1) && g'.h.parent == g.h.parent && Par(g, Last(chain)) == null
  {
    hide Wf, Grounded, Rung, Coherent, Headed;
    ChainedReady(g, a, base, chain);
    ChainedSubjects(g, a, base, chain);
    var g' := Headed(g, Last(chain), base);
    HeadSettles(g, a, base, chain);
    forall j | 0 <= j < |chain| - 1 ensures SpineRung(g', base, chain, j) {
      HeadedRung(g, base, chain, g', j);
    }
    forall j | 1 <= j < |chain| - 1 ensures Subj(g', chain[j]) == null {
      assert chain[1..][j - 1] == chain[j] && chain[j] != chain[|chain| - 1];
      assert Subj(g, chain[j]) == null;
    }
    WfDomains(g);
    assert chain[0] != Last(chain);
  }

  lemma HeadedRung(g: State, base: Subject, chain: seq<Article>, g': State, j: int)
    requires 0 <= j < |chain| - 1 && Rung(g, base, chain, j) && NoDup(chain)
    requires g'.h.parent == g.h.parent && g'.s.home == g.s.home[Last(chain) := base] && g'.s.ring == g.s.ring
    ensures SpineRung(g', base, chain, j)
  {
  }

  /** What is known once the chain hangs under `ap`, before any merge. */
  ghost predicate Hanging(g: State, gs: State, a: Article, base: Subject, chain: seq<Article>, ap: Article) {
    && Wf(g.h, g.s) && Chained(gs, a, base, chain) && ap in gs.s.home && ap in gs.h.parent && ap !in chain
    && CoherentBut(g, Last(chain), base, chain[1..]) && ChildNow(gs, Last(chain), ap, base, g)
    && Subj(gs, ap) != null
  }

  lemma HungUnder(gs: State, a: Article, base: Subject, chain: seq<Article>, ap: Article)
    requires Chained(gs, a, base, chain) && ap in gs.s.home && ap in gs.h.parent && ap !in chain && Subj(gs, ap) != null
    ensures Hanging(AttachedAt(gs, a, base, chain, ap), gs, a, base, chain, ap)
  {
    hide Wf, Chained, Attached, CoherentBut, ChildNow;
    ChainedReady(gs, a, base, chain);
    AttachKnown(gs, a, base, chain, ap);
    AttachedFields(gs, Last(chain), ap, base);
  }

  /** Comparing lead articles tells whether the two threads must be merged. */
  lemma MergeNeeded(g: State, gs: State, a: Article, base: Subject, chain: seq<Article>, ap: Article)
    requires Hanging(g, gs, a, base, chain, ap)
    ensures Subj(g, ap) != null && Subj(g, ap) in g.h.thread && base in g.h.thread && Subj(g, a) == base
    ensures HomeRingAt(g, ap) == RingAt(g, Subj(g, ap))
    ensures g.h.thread[base] == g.h.thread[Subj(g, ap)] <==> RingAt(g, Subj(g, ap)) == RingAt(g, base)
    ensures ap in g.h.parent && a in g.h.parent
  {
    hide Wf, Grounded, Rung, CoherentBut, NoDup;
    ChainedReady(gs, a, base, chain);
    SubjectKnown(gs, ap);
    KnownPlacedRing(gs, a, base, chain, ap);
    ChainFollows(gs, a, base, chain);
    ThreadsTellRings(gs, Last(chain), base, ap, Subj(gs, ap));
    assert a in chain;
  }

  lemma KnownPlacedRing(gs: State, a: Article, base: Subject, chain: seq<Article>, ap: Article)
    requires Chained(gs, a, base, chain) && ap in gs.s.home && Subj(gs, ap) != null && ap != Last(chain)
    ensures HomeRingAt(gs, ap) == RingAt(gs, Subj(gs, ap)) && ap in gs.s.home
    ensures Subj(gs, ap) in gs.h.thread
  {
    hide Wf, Grounded, Rung, NoDup;
    assert Placed(gs, ap, Last(chain), base, chain[1..]);
    SubjectKnown(gs, ap);
  }

  lemma ChainFollows(gs: State, a: Article, base: Subject, chain: seq<Article>)
    requires Chained(gs, a, base, chain)
    ensures RingsFollow(gs, Last(chain), base)
  {
    hide Wf, Grounded, Rung, NoDup;
    forall q | q in gs.s.home && Par(gs, q) != null
      ensures if Par(gs, q) in gs.s.home then HomeRingAt(gs, q) == HomeRingAt(gs, Par(gs, q))
              else Par(gs, q) == Last(chain) && HomeRingAt(gs, q) == RingAt(gs, base)
    {
      assert Placed(gs, q, Last(chain), base, chain[1..]);
    }
  }

  lemma HungRung(g: State, gs: State, a: Article, base: Subject, chain: seq<Article>, ap: Article, j: int)
    requires Hanging(g, gs, a, base, chain, ap) && 0 <= j < |chain|
    ensures SpineRung(g, base, chain + [ap], j)
  {
    hide Wf, Grounded, Coherent;
    var spine := chain + [ap];
    assert chain[j] != ap;
    if j < |chain| - 1 {
      assert Rung(gs, base, chain, j);
      assert spine[j] == chain[j] && spine[j + 1] == chain[j + 1] && chain[j] != Last(chain);
    } else {
      assert spine[j] == Last(chain) && spine[j + 1] == ap;
    }
  }

  /** What `Spined` asks for apart from rings and coherence. */
  lemma HungSubjects(g: State, gs: State, a: Article, base: Subject, chain: seq<Article>, ap: Article)
    requires Hanging(g, gs, a, base, chain, ap)
    ensures
      var spine := chain + [ap];
      && |spine| >= 2 && spine[0] == a && NoDup(spine) && (forall q :: q in spine ==> q in g.h.parent)
      && base in g.h.thread && Subj(g, a) == base && Subj(g, ap) != null
      && (forall j :: 1 <= j < |spine| - 1 ==> Subj(g, spine[j]) == null)
      && spine[1..|spine| - 1] == chain[1..] && spine[|spine| - 1] == ap
      && (forall f :: f in chain[1..] ==> Par(g, f) != null && f in g.s.home)
  {
    hide Wf, Grounded, Coherent, Rung, CoherentBut;
    ChainedSubjects(gs, a, base, chain);
    NoDupConcat(chain, [ap]);
    forall j | 1 <= j < |chain| ensures Subj(g, chain[j]) == null {
      assert chain[1..][j - 1] == chain[j];
      assert Subj(gs, chain[j]) == null;
    }
    forall f | f in chain[1..] ensures Par(g, f) != null && f in g.s.home {
      var j :| 0 <= j < |chain| - 1 && chain[1..][j] == f;
      HungRung(g, gs, a, base, chain, ap, j + 1);
    }
  }

  lemma HungSame(g: State, gs: State, a: Article, base: Subject, chain: seq<Article>, ap: Article)
    requires Hanging(g, gs, a, base, chain, ap) && RingAt(g, Subj(g, ap)) == RingAt(g, base)
    ensures Spined(g, a, base, chain + [ap], 1)
  {
    hide Wf, Chained, Coherent, NoDup, CoherentBut, SpineRung;
    HungSubjects(g, gs, a, base, chain, ap);
    MergeNeeded(g, gs, a, base, chain, ap);
    ChainedReady(gs, a, base, chain);
    SameThread(g, Last(chain), base, chain[1..]);
    forall j | 0 <= j < |chain| ensures SpineRung(g, base, chain + [ap], j) {
      HungRung(g, gs, a, base, chain, ap, j);
    }
  }

  lemma HungMergeable(g: State, gs: State, a: Article, base: Subject, chain: seq<Article>, ap: Article)
    requires Hanging(g, gs, a, base, chain, ap) && RingAt(g, Subj(g, ap)) != RingAt(g, base)
    ensures Subj(g, ap) != null && Mergeable(g, Subj(g, ap), base) && SubjectsKnown(g, base)
  {
    hide Wf, Chained, Coherent, NoDup, CoherentBut;
    HungSubjects(g, gs, a, base, chain, ap);
    MergeNeeded(g, gs, a, base, chain, ap);
    RingFacts(g, base);
    RingFacts(g, Subj(g, ap));
    KnownSubjects(g, Last(chain), base, chain[1..], base);
  }

  lemma MergedRung(g: State, s1: Subject, base: Subject, g': State, spine: seq<Article>, j: int)
    requires Mergeable(g, s1, base) && SubjectsKnown(g, base) && Refiled(g, s1, base, |TopsOf(g, base)|, g')
    requires 0 <= j < |spine| - 1 && SpineRung(g, base, spine, j)
    ensures SpineRung(g', base, spine, j)
  {
    hide Wf, Refiled, SubjectsKnown;
    var q := spine[j];
    HomesAfterMerge(g, s1, base, g', q);
    SubjectsAfterMerge(g, s1, base, g', q);
    RingsAfterMerge(g, s1, base, |TopsOf(g, base)|, g', g.s.home[q], base);
  }

  lemma HungMerged(g: State, gs: State, a: Article, base: Subject, chain: seq<Article>, ap: Article, g': State)
    requires Hanging(g, gs, a, base, chain, ap) && Subj(g, ap) != null && Mergeable(g, Subj(g, ap), base)
    requires SubjectsKnown(g, base) && Refiled(g, Subj(g, ap), base, |TopsOf(g, base)|, g') && Wf(g'.h, g'.s)
    ensures Spined(g', a, base, chain + [ap], 1) && g'.h.parent == g.h.parent && g'.h.subj == g.h.subj
    ensures g'.h.date == g.h.date
  {
    hide Wf, Chained, Coherent, NoDup, CoherentBut, Mergeable, SubjectsKnown, Refiled, SpineRung;
    HungSubjects(g, gs, a, base, chain, ap);
    MergeNeeded(g, gs, a, base, chain, ap);
    ChainedReady(gs, a, base, chain);
    var s1 := Subj(g, ap);
    ParentsAfterMerge(g, s1, base, g');
    SubjectsAfterMerge(g, s1, base, g', a);
    MergeSettles(g, Last(chain), s1, base, chain[1..], g');
    ThreadsKept(g, s1, base, g');
    forall j | 0 <= j < |chain| ensures SpineRung(g', base, chain + [ap], j) {
      HungRung(g, gs, a, base, chain, ap, j);
      MergedRung(g, s1, base, g', chain + [ap], j);
    }
  }

  lemma ThreadsKept(g: State, s1: Subject, s2: Subject, g': State)
    requires Mergeable(g, s1, s2) && SubjectsKnown(g, s2) && Refiled(g, s1, s2, |TopsOf(g, s2)|, g') && Wf(g'.h, g'.s)
    ensures g'.h.thread.Keys == g.h.thread.Keys
  {
    WfDomains(g);
    WfDomains(g');
    RingFacts(g, s1);
    RingFacts(g, s2);
  }



  /** The forest once every article of the spine has a subject. */
  lemma SpineSettled(g: State, a: Article, base: Subject, spine: seq<Article>, c: Article)
    requires spine != [] && Spined(g, a, base, spine, |spine| - 1)
    ensures Wf(g.h, g.s) && Coherent(g, null, null, null, [])
    ensures Par(g, c) != null ==> c in g.s.home && Subj(g, c) != null && Subj(g, c) in g.h.thread
    ensures a in g.s.home
  {
    hide Wf;
    assert spine[|spine| - 1..|spine| - 1] == [];
    SubjectKnown(g, c);
    assert SpineRung(g, base, spine, 0);
    if Par(g, c) != null {
      assert c in g.h.parent;
      assert c !in g.s.home ==> Loose(g, c, null, null);
      assert Placed(g, c, null, null, []);
    }
  }

  /** Linking the article on its own, when no reference led anywhere. */
  lemma LinkedAlone(g: State, a: Article, base: Subject)
    requires Chained(g, a, base, [a])
    ensures Wf(g.h, g.s) && Linkable(g.h, g.s, a, base) && Par(g, a) == null && Subj(g, a) == base && a in g.h.parent
    ensures
      var g' := AfterLink(g, a, base);
      && Tidy(g') && a in g'.s.home && g'.h.parent == g.h.parent && g'.h.subj == g.h.subj && g'.h.date == g.h.date
  {
    hide Wf, Grounded, Placed, Loose, Chained, AfterLink;
    AloneElim(g, a, base);
    assert ParentKnown(g.h.parent, a);
    LinkPlaces(g, a, base);
    var g' := AfterLink(g, a, base);
    forall q | q in g'.s.home ensures Placed(g', q, null, null, []) { AlonePlaced(g, a, base, g', q); }
    forall q | q in g'.h.parent && q !in g'.s.home ensures Loose(g', q, null, null) { AloneLoose(g, a, base, g', q); }
  }

  lemma AlonePlaced(g: State, a: Article, base: Subject, g': State, q: Article)
    requires Placed1(g, a, base, g') && Par(g, a) == null && Subj(g, a) == base && q in g'.s.home && a !in g.s.home
    requires q != a ==> Placed(g, q, a, base, [])
    ensures Placed(g', q, null, null, [])
  {
    hide Wf;
  }

  lemma AloneLoose(g: State, a: Article, base: Subject, g': State, q: Article)
    requires Placed1(g, a, base, g') && Par(g, a) == null && q != a && Loose(g, q, a, a)
    ensures Loose(g', q, null, null)
  {
    hide Wf;
  }

  // ---- From the spine to a tidy forest -----------------------------------------------------------------

  /** What the climb from `start` goes by: in `p`, where the chain does not hang under `start`
      yet, there is no cycle. (Without a chain nothing is above `start`.) */
  ghost predicate Climbable(p: ParentMap, chain: seq<Article>, a: Article, start: Article, p': ParentMap) {
    && Grounded(p) && start in p && start !in chain
    && (if chain == [] then p' == p && p[start] == null
        else Ladder(p, chain) && chain[0] == a && p' == p[Last(chain) := start])
  }

  /** The climb stopped `m` steps above `start`, at the top or at child `c` of the article. */
  ghost predicate Climbed(p: ParentMap, chain: seq<Article>, a: Article, start: Article, m: nat, c: Article?) {
    && OffChain(p, chain, start, m) && Up(p, start, m) == c
    && (c != null ==> c in p && p[c] == a && c !in chain && chain != [])
  }

  lemma ClimbStarts(p: ParentMap, chain: seq<Article>, a: Article, start: Article, p': ParentMap)
    requires Climbable(p, chain, a, start, p')
    ensures OffChain(p, chain, start, 0) && Up(p, start, 0) == start && exists n: nat :: Up(p, start, n) == null
    ensures p'.Keys == p.Keys
  {
    assert Ends(p, start);
    assert chain != [] ==> Last(chain) in chain;
  }

  lemma ClimbEnds(p: ParentMap, chain: seq<Article>, a: Article, start: Article, m: nat)
    requires OffChain(p, chain, start, m) && Up(p, start, m) == null
    ensures Climbed(p, chain, a, start, m, null)
  {
  }

  /** What can be read off the spine at position `i`. */
  lemma SpineAt(g: State, a: Article, base: Subject, spine: seq<Article>, i: nat)
    requires Spined(g, a, base, spine, i)
    ensures 1 <= i < |spine| && spine[0] == a && spine[i] in g.h.parent && spine[1] in g.h.parent && a in g.h.parent
    ensures base in g.h.thread && Subj(g, a) == base && g.h.parent[a] == spine[1]
    ensures Subj(g, spine[i]) == null <==> i < |spine| - 1
    ensures i < |spine| - 1 ==> g.h.parent[spine[i]] == spine[i + 1] && spine[i + 1] in g.h.parent && spine[i] != a
  {
    hide Wf, Coherent;
    assert SpineRung(g, base, spine, 0) && spine[i] in spine;
    assert i < |spine| - 1 ==> SpineRung(g, base, spine, i);
  }

  lemma ChainedBase(g: State, a: Article, base: Subject, chain: seq<Article>)
    requires Chained(g, a, base, chain)
    ensures Subj(g, a) == base && a in g.h.parent
  {
    hide Wf, Grounded, Coherent, Rung;
    assert chain[0] in chain;
  }

  lemma HeadedIs(g: State, prev: Article, base: Subject)
    requires Wf(g.h, g.s) && prev in g.h.parent && prev !in g.s.home && base in g.h.thread
    ensures Wf(g.h, g.s) && Linkable(SetSubj(g, prev, base).h, g.s, prev, base) && Wf(SetSubj(g, prev, base).h, g.s)
    ensures Headed(g, prev, base) == AfterLink(SetSubj(g, prev, base), prev, base)
    ensures Headed(g, prev, base).h.date == g.h.date && Headed(g, prev, base).h.subj == g.h.subj[prev := base]
    ensures Headed(g, prev, base).h.parent == g.h.parent
  {
    hide Wf, Linkable, AfterLink;
    SetSubjKeepsWf(g, prev, base);
    HeadLinkable(g, prev, base);
    LinkPlaces(SetSubj(g, prev, base), prev, base);
  }

  /** One more step. */
  lemma ClimbOn(p: ParentMap, chain: seq<Article>, a: Article, start: Article, p': ParentMap, m: nat, ap: Article)
    requires Climbable(p, chain, a, start, p') && OffChain(p, chain, start, m) && Up(p, start, m) == ap && ap in p && p[ap] != a
    ensures p'[ap] == p[ap] && OffChain(p, chain, start, m + 1) && Up(p, start, m + 1) == p[ap]
  {
    if chain == [] {
      UpNext(p, start, m);
    } else {
      ClimbStep(p, chain, start, m);
    }
  }

  lemma ClimbReads(p: ParentMap, chain: seq<Article>, a: Article, start: Article, p': ParentMap, m: nat, ap: Article)
    requires Climbable(p, chain, a, start, p') && OffChain(p, chain, start, m) && Up(p, start, m) == ap && ap in p
    ensures p'[ap] == p[ap] && ap !in chain
    ensures p[ap] == a ==> Climbed(p, chain, a, start, m, ap)
  {
    hide Grounded;
    if chain != [] {
      assert Last(chain) in chain;
    }
  }

  /** Cutting the branch the climb ended at, if any, leaves no cycle. */
  lemma ClimbSettles(p: ParentMap, chain: seq<Article>, a: Article, start: Article, p': ParentMap, m: nat, c: Article?)
    requires Climbable(p, chain, a, start, p') && Climbed(p, chain, a, start, m, c)
    ensures Grounded(if c == null then p' else p'[c := null])
    ensures c != null ==> c in p' && p'[c] == a
  {
    hide Grounded, OffChain;
    if c != null {
      assert Last(chain) in chain;
      ClimbedTo(p, chain, start, m, c);
    } else if chain != [] {
      ClimbedOff(p, chain, start, m);
    }
  }

  /** Those of `given` that had no subject have `base` now; nobody else's changed. */
  ghost predicate SubjectsGiven(g0: State, g: State, given: seq<Article>, base: Subject) {
    && g.h.parent == g0.h.parent && g.h.date == g0.h.date
    && (forall q :: q in g.h.parent ==> Subj(g, q) == if q in given && Subj(g0, q) == null then base else Subj(g0, q))
  }

  lemma NoneGiven(g: State, base: Subject)
    ensures SubjectsGiven(g, g, [], base)
  {
  }

  lemma OneGiven(g0: State, g: State, spine: seq<Article>, base: Subject, i: nat)
    requires i < |spine| && SubjectsGiven(g0, g, spine[..i], base) && spine[i] in g.h.parent
    ensures Subj(g, spine[i]) == null ==> SubjectsGiven(g0, SetSubj(g, spine[i], base), spine[..i + 1], base)
    ensures Subj(g, spine[i]) != null ==> SubjectsGiven(g0, g, spine[..i + 1], base)
  {
    assert spine[..i + 1] == spine[..i] + [spine[i]];
  }

  // ---- What the whole of `thread_article` does ---------------------------------------------------------

  /** How many of the spine had no place before. */
  ghost function Unplaced(g0: State, spine: seq<Article>): nat
    requires spine != []
  {
    if |spine| > 1 && Subj(g0, Last(spine)) != null then |spine| - 1 else |spine|
  }

  /** From start `g0` the references have been followed to the end. The articles that count
      (the spine) are each the parent of the one before; those that had no place have the
      article's subject and date, and the last of them, if there is more than the article,
      heads the thread. Everything else is as it was, except that a child of the article that
      would have closed a circle, `cut`, has no parent any more. */
  ghost predicate Outcome(g0: State, t0: Table, a: Article, base: Subject, refs: seq<Reference>,
                          g: State, t: Table, spine: seq<Article>, cut: Article?) {
    var path := WalkOf(g0, t0, a, refs).path;
    && (forall id :: id in path ==> id in t) && spine == [a] + Named(t, path) && TableKept(t0, t, path)
    && Followed(g0, a, base, g, spine, cut)
  }

  ghost predicate Followed(g0: State, a: Article, base: Subject, g: State, spine: seq<Article>, cut: Article?) {
    && spine != [] && spine[0] == a
    && (forall i :: 0 <= i < |spine| - 1 ==> Par(g, spine[i]) == spine[i + 1])
    && Par(g, Last(spine)) == (if (|spine| > 1 && Unplaced(g0, spine) == |spine|) || cut == Last(spine) then null
                               else Par(g0, Last(spine)))
    && (forall q :: q in g0.h.parent && q !in spine && q != cut ==> Par(g, q) == Par(g0, q))
    && (forall i :: 0 <= i < Unplaced(g0, spine) ==> Subj(g, spine[i]) == base && Date(g, spine[i]) == Date(g0, a))
    && (forall q :: q in g0.h.parent && q !in spine[..Unplaced(g0, spine)] ==>
          Subj(g, q) == Subj(g0, q) && Date(g, q) == Date(g0, q))
    && (cut != null <==> |spine| > 1 && Above(g0.h.parent, Last(spine), a))
    && (cut != null ==> Par(g0, cut) == a && Par(g, cut) == null && Above(g0.h.parent, Last(spine), cut))
  }

  /** What settling the spine changes: subjects of those without, and the parent of `cut`. */
  ghost predicate Settled(g0: State, g: State, spine: seq<Article>, base: Subject, cut: Article?) {
    && g.h.parent == (if cut == null then g0.h.parent else g0.h.parent[cut := null])
    && g.h.date == g0.h.date && (cut != null ==> cut in g0.h.parent)
    && (forall q :: q in g0.h.parent ==> Subj(g, q) == if q in spine && Subj(g0, q) == null then base else Subj(g0, q))
  }

  lemma SettledNow(g0: State, gd: State, g: State, a: Article, base: Subject, spine: seq<Article>,
                   p: ParentMap, chain: seq<Article>, m: nat, c: Article?)
    requires spine != [] && SubjectsGiven(g0, gd, spine, base) && Spined(gd, a, base, spine, |spine| - 1)
    requires Climbable(p, chain, a, Last(spine), g0.h.parent) && Climbed(p, chain, a, Last(spine), m, c)
    ensures c == null && g == gd ==> Settled(g0, g, spine, base, c) && Tidy(g) && a in g.s.home
    ensures c != null ==> c in gd.s.home && Subj(gd, c) != null && Subj(gd, c) in gd.h.thread && Wf(gd.h, gd.s)
                          && c in gd.h.parent && gd.h.parent[c] == a
    ensures c != null && g == Rehung(gd, c) ==> Settled(g0, g, spine, base, c) && Tidy(g) && a in g.s.home
  {
    hide Wf, Spined, Climbable, Climbed, Grounded, Coherent, Rehung;
    ClimbSettles(p, chain, a, Last(spine), g0.h.parent, m, c);
    SpineSettled(gd, a, base, spine, if c == null then a else c);
    if c != null {
      RehungSettled(gd, c);
    }
  }

  /** Off the chain the climb before and after the walk is the same. */
  lemma {:induction false} SameClimb(p0: ParentMap, p: ParentMap, chain: seq<Article>, ap: Article?, m: nat, j: nat)
    requires OffChain(p, chain, ap, m) && j <= m + 1 && (ap != null ==> ap in p0)
    requires forall q :: q in p0 && q !in chain ==> q in p && p[q] == p0[q]
    requires forall q {:trigger ParentKnown(p0, q)} :: q in p0 ==> ParentKnown(p0, q)
    ensures j <= m || Up(p, ap, m) != null ==> Up(p0, ap, j) == Up(p, ap, j)
  {
    if j > 0 && ap != null {
      assert Up(p, ap, 0) == ap && ParentKnown(p0, ap);
      if m > 0 {
        assert OffChain(p, chain, p[ap], m - 1) by {
          forall k: nat | k <= m - 1 && Up(p, p[ap], k) != null ensures Up(p, p[ap], k) !in chain {
            assert Up(p, p[ap], k) == Up(p, ap, k + 1);
          }
        }
        SameClimb(p0, p, chain, p[ap], m - 1, j - 1);
      }
    }
  }

  /** A branch is cut exactly when the reference hung under is a descendant of the article. */
  lemma CutIffBelow(p0: ParentMap, p: ParentMap, chain: seq<Article>, a: Article, ap: Article, m: nat, cut: Article?)
    requires ap in p0 && a in chain && Climbed(p, chain, a, ap, m, cut)
    requires forall q :: q in p0 && q !in chain ==> q in p && p[q] == p0[q]
    requires forall q {:trigger ParentKnown(p0, q)} :: q in p0 ==> ParentKnown(p0, q)
    ensures cut != null <==> Above(p0, ap, a)
    ensures cut != null ==> cut in p0 && p0[cut] == a && Above(p0, ap, cut)
  {
    SameClimb(p0, p, chain, ap, m, m);
    if cut == null {
      forall n: nat ensures Up(p0, ap, n) != a {
        if n <= m {
          SameClimb(p0, p, chain, ap, m, n);
        } else {
          UpStaysNull(p0, ap, m, n);
        }
      }
    } else {
      UpIn(p0, ap, m);
      UpNext(p0, ap, m);
      assert Up(p0, ap, m + 1) == a;
    }
  }

  lemma {:induction false} UpIn(p: ParentMap, a: Article?, n: nat)
    requires a != null ==> a in p
    requires forall q {:trigger ParentKnown(p, q)} :: q in p ==> ParentKnown(p, q)
    ensures Up(p, a, n) != null ==> Up(p, a, n) in p
  {
    if n > 0 && a != null {
      assert ParentKnown(p, a);
      UpIn(p, p[a], n - 1);
    }
  }

  /** The walk ended under an article of a thread. */
  lemma FollowedHit(g0: State, gs: State, g1: State, g: State, a: Article, base: Subject, chain: seq<Article>,
                    ap: Article, m: nat, cut: Article?)
    requires Wf(g0.h, g0.s) && a in g0.h.parent && ap in g0.h.parent
    requires Chained(gs, a, base, chain) && OthersKept(g0, gs, chain) && ap !in chain && Subj(gs, ap) != null
    requires g1.h.parent == gs.h.parent[Last(chain) := ap] && g1.h.subj == gs.h.subj && g1.h.date == gs.h.date
    requires Settled(g1, g, chain + [ap], base, cut) && Climbed(gs.h.parent, chain, a, ap, m, cut)
    ensures Followed(g0, a, base, g, chain + [ap], cut)
  {
    hide Wf, Chained, Climbed, Above, Settled, OthersKept;
    var spine := chain + [ap];
    HitChain(g0, gs, a, base, chain, ap);
    assert Unplaced(g0, spine) == |chain| && spine[..|chain|] == chain && Last(spine) == ap;
    CutIffBelow(g0.h.parent, gs.h.parent, chain, a, ap, m, cut);
    ClimbedOffChain(gs.h.parent, chain, a, ap, m, cut);
    forall i | 0 <= i < |chain|
      ensures Par(g, spine[i]) == spine[i + 1] && Subj(g, spine[i]) == base && Date(g, spine[i]) == Date(g0, a)
    {
      HitMember(g0, gs, g1, g, a, base, chain, ap, cut, i);
    }
    HitOthers(g0, gs, g1, g, a, base, chain, ap, cut);
  }

  lemma HitChain(g0: State, gs: State, a: Article, base: Subject, chain: seq<Article>, ap: Article)
    requires Wf(g0.h, g0.s) && Chained(gs, a, base, chain) && OthersKept(g0, gs, chain)
    requires ap in g0.h.parent && ap !in chain && Subj(gs, ap) != null
    ensures chain != [] && chain[0] == a && a in chain && Subj(g0, ap) != null && Last(chain) in gs.h.parent
    ensures forall q :: q in g0.h.parent && q !in chain ==> q in gs.h.parent && gs.h.parent[q] == g0.h.parent[q]
    ensures forall q {:trigger ParentKnown(g0.h.parent, q)} :: q in g0.h.parent ==> ParentKnown(g0.h.parent, q)
  {
    hide Wf, Grounded, Coherent, Rung;
    WfDomains(g0);
    assert Last(chain) in chain;
    forall q | q in g0.h.parent && q !in chain ensures q in gs.h.parent && gs.h.parent[q] == g0.h.parent[q] {
      assert Par(gs, q) == Par(g0, q);
    }
  }

  lemma HitMember(g0: State, gs: State, g1: State, g: State, a: Article, base: Subject, chain: seq<Article>,
                  ap: Article, cut: Article?, i: nat)
    requires Chained(gs, a, base, chain) && OthersKept(g0, gs, chain) && i < |chain| && cut !in chain && a in g0.h.parent
    requires g1.h.parent == gs.h.parent[Last(chain) := ap] && g1.h.subj == gs.h.subj && g1.h.date == gs.h.date
    requires Settled(g1, g, chain + [ap], base, cut)
    ensures
      var spine := chain + [ap];
      Par(g, spine[i]) == spine[i + 1] && Subj(g, spine[i]) == base && Date(g, spine[i]) == Date(g0, a)
  {
    hide Chained;
    SpineMember(gs, a, base, chain, i);
    SpineMember(gs, a, base, chain, 0);
    assert (chain + [ap])[i] == chain[i] && chain[i] in chain + [ap] && chain[i] in chain;
  }

  lemma HitOthers(g0: State, gs: State, g1: State, g: State, a: Article, base: Subject, chain: seq<Article>,
                  ap: Article, cut: Article?)
    requires OthersKept(g0, gs, chain) && chain != [] && ap !in chain && Subj(gs, ap) != null && Last(chain) in gs.h.parent
    requires g1.h.parent == gs.h.parent[Last(chain) := ap] && g1.h.subj == gs.h.subj && g1.h.date == gs.h.date
    requires Settled(g1, g, chain + [ap], base, cut)
    ensures forall q :: q in g0.h.parent && q !in chain && q != cut ==> Par(g, q) == Par(g0, q)
    ensures forall q :: q in g0.h.parent && q !in chain ==> Subj(g, q) == Subj(g0, q) && Date(g, q) == Date(g0, q)
    ensures cut != null ==> Par(g, cut) == null
  {
    assert Last(chain) in chain;
  }

  lemma ClimbedOffChain(p: ParentMap, chain: seq<Article>, a: Article, ap: Article, m: nat, cut: Article?)
    requires Climbed(p, chain, a, ap, m, cut)
    ensures cut !in chain
  {
  }

  lemma SpineMember(gs: State, a: Article, base: Subject, chain: seq<Article>, i: nat)
    requires Chained(gs, a, base, chain) && i < |chain|
    ensures chain[i] in gs.h.parent && Date(gs, chain[i]) == Date(gs, a)
    ensures i == 0 ==> chain[i] == a && Subj(gs, chain[i]) == base
    ensures i > 0 ==> Subj(gs, chain[i]) == null
    ensures i < |chain| - 1 ==> Par(gs, chain[i]) == chain[i + 1] && chain[i] != Last(chain)
    ensures i == |chain| - 1 ==> Par(gs, chain[i]) == null
  {
    hide Wf, Grounded, Coherent;
    assert chain[i] in chain;
    assert i < |chain| - 1 ==> Rung(gs, base, chain, i);
    assert i > 0 ==> Rung(gs, base, chain, i - 1);
  }

  /** The walk met only unknown articles; the last of them heads the thread. */
  lemma FollowedHead(g0: State, gs: State, g1: State, g: State, a: Article, base: Subject, chain: seq<Article>)
    requires Wf(g0.h, g0.s) && a in g0.h.parent && |chain| > 1
    requires Chained(gs, a, base, chain) && OthersKept(g0, gs, chain)
    requires Subj(g0, Last(chain)) == null && Par(g0, Last(chain)) == null
    requires g1.h.parent == gs.h.parent && g1.h.subj == gs.h.subj[Last(chain) := base] && g1.h.date == gs.h.date
    requires Settled(g1, g, chain, base, null)
    ensures Followed(g0, a, base, g, chain, null)
  {
    hide Wf, Grounded, Coherent, Rung;
    assert chain[..|chain|] == chain && Last(chain) in chain && a in chain;
    assert Last(chain) != a;
    NotBelowItself(g0.h.parent, Last(chain), a);
    SpineMember(gs, a, base, chain, |chain| - 1);
    forall i | 0 <= i < |chain| ensures Subj(g, chain[i]) == base && Date(g, chain[i]) == Date(g0, a) {
      SpineMember(gs, a, base, chain, i);
      assert chain[i] in chain;
    }
    forall i | 0 <= i < |chain| - 1 ensures Par(g, chain[i]) == chain[i + 1] {
      SpineMember(gs, a, base, chain, i);
    }
  }

  lemma NotBelowItself(p: ParentMap, x: Article, a: Article)
    requires x != a && (x in p ==> p[x] == null)
    ensures !Above(p, x, a)
  {
    forall n: nat ensures Up(p, x, n) != a {
      if n > 0 && x in p {
        assert Up(p, x, n) == Up(p, null, n - 1);
      }
    }
  }

  /** No reference counts. */
  lemma FollowedAlone(g0: State, gs: State, g: State, a: Article, base: Subject)
    requires a in g0.h.parent && OthersKept(g0, gs, [a]) && Subj(g0, a) == base && Par(gs, a) == Par(g0, a)
    requires g.h.parent == gs.h.parent && g.h.subj == gs.h.subj && g.h.date == gs.h.date
    ensures Followed(g0, a, base, g, [a], null)
  {
    assert [a][..1] == [a];
  }

  lemma HitEnds(g0: State, t0: Table, a: Article, base: Subject, rethreading: bool,
                g: State, t: Table, w: Walk, ap: Article?, chain: seq<Article>, gs: State)
    requires Hit(g0, t0, a, base, rethreading, g, t, w, ap, chain, gs) && Standing(g0, a, base, rethreading, [a])
    ensures ap != null && Hanging(g, gs, a, base, chain, ap) && a in g.h.parent && ap in g.h.parent
    ensures Climbable(gs.h.parent, chain, a, ap, g.h.parent)
    ensures g.h.parent == gs.h.parent[Last(chain) := ap] && g.h.subj == gs.h.subj && g.h.date == gs.h.date
    ensures Wf(g0.h, g0.s) && a in g0.h.parent && ap in g0.h.parent
    ensures (forall id :: id in w.path ==> id in t) && chain + [ap] == [a] + Named(t, w.path) && TableKept(t0, t, w.path)
  {
    hide Wf, Grounded, Chained, Coherent, Rung, OthersKept, Attached, CoherentBut;
    HungUnder(gs, a, base, chain, ap);
    StandingWf(g0, a, base, rethreading, [a]);
    LadderOf(gs, a, base, chain);
    ChainedReady(gs, a, base, chain);
    ChainedBase(gs, a, base, chain);
    ChainGrounded(gs, a, base, chain);
  }

  lemma ChainGrounded(g: State, a: Article, base: Subject, chain: seq<Article>)
    requires Chained(g, a, base, chain)
    ensures Grounded(g.h.parent) && chain[0] == a
  {
    hide Wf, Grounded, Coherent, Rung;
  }

  /** What the end of the walk without a hit needs for the climb. */
  lemma HeadClimbable(g: State, a: Article, base: Subject, chain: seq<Article>)
    requires Chained(g, a, base, chain)
    ensures chain != [] && Climbable(g.h.parent, [], a, Last(chain), g.h.parent)
  {
    hide Wf, Grounded, Coherent, Rung;
    ChainedReady(g, a, base, chain);
  }

  lemma GivenParents(g0: State, g: State, spine: seq<Article>, base: Subject)
    requires SubjectsGiven(g0, g, spine, base)
    ensures g.h.parent == g0.h.parent
  {
  }

  /** An article out of the place of a fake starts the walk on its own. */
  lemma StartsAlone(g0: State, a: Article, base: Subject, line: seq<Article>, stopper: Article?, g: State)
    requires LeftFake(g0, a, base, line, stopper, g)
    ensures Standing(g, a, base, false, [a]) && Date(g, a) == Date(g0, a)
  {
    hide Chained, Tidy;
  }

  lemma HitOutcome(g0: State, t0: Table, a: Article, base: Subject, rethreading: bool, refs: seq<Reference>,
                   gh: State, t: Table, ap: Article, chain: seq<Article>, gs: State,
                   g1: State, g: State, m: nat, cut: Article?)
    requires Hit(g0, t0, a, base, rethreading, gh, t, WalkOf(g0, t0, a, refs), ap, chain, gs)
    requires Standing(g0, a, base, rethreading, [a])
    requires g1.h.parent == gh.h.parent && g1.h.subj == gh.h.subj && g1.h.date == gh.h.date
    requires Settled(g1, g, chain + [ap], base, cut) && Climbed(gs.h.parent, chain, a, ap, m, cut)
    ensures Outcome(g0, t0, a, base, refs, g, t, chain + [ap], cut)
  {
    hide Wf, Grounded, Chained, Coherent, Rung, OthersKept, CoherentBut, Settled, Climbed, Followed, WalkOf;
    HitEnds(g0, t0, a, base, rethreading, gh, t, WalkOf(g0, t0, a, refs), ap, chain, gs);
    FollowedHit(g0, gs, g1, g, a, base, chain, ap, m, cut);
  }

  lemma HeadOutcome(g0: State, t0: Table, a: Article, base: Subject, rethreading: bool, refs: seq<Reference>,
                    gh: State, t: Table, ap: Article?, chain: seq<Article>, g1: State, g: State, m: nat, cut: Article?)
    requires Missed(g0, t0, a, base, rethreading, gh, t, WalkOf(g0, t0, a, refs), ap, chain) && chain != [a]
    requires Standing(g0, a, base, rethreading, [a]) && chain != []
    requires g1.h.parent == gh.h.parent && g1.h.subj == gh.h.subj[Last(chain) := base] && g1.h.date == gh.h.date
    requires Settled(g1, g, chain, base, cut) && Climbed(gh.h.parent, [], a, Last(chain), m, cut)
    ensures Outcome(g0, t0, a, base, refs, g, t, chain, cut)
  {
    hide Wf, Grounded, Chained, Coherent, Rung, OthersKept, Settled, Followed, WalkOf, Missed, Standing;
    MissedEnds(g0, t0, a, base, rethreading, gh, t, WalkOf(g0, t0, a, refs), ap, chain);
    FollowedHead(g0, gh, g1, g, a, base, chain);
  }

  lemma AloneOutcome(g0: State, t0: Table, a: Article, base: Subject, rethreading: bool, refs: seq<Reference>,
                     gh: State, t: Table, ap: Article?, chain: seq<Article>, g: State)
    requires Missed(g0, t0, a, base, rethreading, gh, t, WalkOf(g0, t0, a, refs), ap, chain) && chain == [a]
    requires Standing(g0, a, base, rethreading, [a])
    requires g.h.parent == gh.h.parent && g.h.subj == gh.h.subj && g.h.date == gh.h.date
    ensures Outcome(g0, t0, a, base, refs, g, t, [a], null)
  {
    hide Wf, Grounded, Chained, Coherent, Rung, OthersKept, Settled, Followed, WalkOf, Missed, Standing;
    MissedEnds(g0, t0, a, base, rethreading, gh, t, WalkOf(g0, t0, a, refs), ap, chain);
    StandingWf(g0, a, base, rethreading, [a]);
    FollowedAlone(g0, gh, g, a, base);
  }

  lemma TidyWf(g: State)
    requires Tidy(g)
    ensures Wf(g.h, g.s) && Domains(g.h, g.s)
  {
    hide Grounded, Coherent;
  }

  /** The message-ids known before keep their articles. */
  lemma TableKeeps(g0: State, t0: Table, a: Article, base: Subject, refs: seq<Reference>,
                   g: State, t: Table, spine: seq<Article>, cut: Article?, id: string)
    requires Outcome(g0, t0, a, base, refs, g, t, spine, cut) && id in t0
    ensures id in t && t[id] == t0[id]
  {
    hide WalkOf, Followed;
  }

  lemma BaseRing(g: State, a: Article, base: Subject, rethreading: bool)
    requires Standing(g, a, base, rethreading, [a])
    ensures base in g.s.ring
  {
    hide Wf, Standing;
    StandingWf(g, a, base, rethreading, [a]);
    RingFacts(g, base);
  }

  /** The article hit had its subject before the walk. */
  lemma HitLed(g0: State, t0: Table, a: Article, base: Subject, rethreading: bool,
               g: State, t: Table, w: Walk, ap: Article?, chain: seq<Article>, gs: State)
    requires Hit(g0, t0, a, base, rethreading, g, t, w, ap, chain, gs) && Standing(g0, a, base, rethreading, [a])
    ensures ap != null && Subj(g, ap) == LedTo(g0, t0, base, w)
  {
    hide Standing, OthersKept, Attached, Chained;
    HitEnds(g0, t0, a, base, rethreading, g, t, w, ap, chain, gs);
    SubjectAsBefore(g0, gs, chain, ap);
  }

  lemma SubjectAsBefore(g0: State, g: State, chain: seq<Article>, q: Article)
    requires OthersKept(g0, g, chain) && q in g0.h.parent && q !in chain
    ensures Subj(g, q) == Subj(g0, q)
  {
  }

  lemma MissedLed(g0: State, t0: Table, a: Article, base: Subject, rethreading: bool,
                  g: State, t: Table, w: Walk, ap: Article?, chain: seq<Article>)
    requires Missed(g0, t0, a, base, rethreading, g, t, w, ap, chain) && Standing(g0, a, base, rethreading, [a])
    ensures LedTo(g0, t0, base, w) == base
  {
    hide Standing, Missed, OthersKept, Chained;
    MissedEnds(g0, t0, a, base, rethreading, g, t, w, ap, chain);
    if w.path != [] {
      assert Last(w.path) in w.path && t[Last(w.path)] == Named(t, w.path)[|w.path| - 1] == Last(chain);
    }
  }
}
