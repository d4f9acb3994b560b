/** Where no reference is repeated, or the article has a date, a call of `thread_article` on any
    pointers that spell out the model's forest does what the model says: the steps after the
    walk (libtrn/Article.cpp, lines 1052-1108) one by one. */
module Agreement {
  import opened Forest
  import opened Joining
  import opened Ancestry
  import opened Placing
  import opened Settling
  import opened References
  import opened Walking
  import opened Finishing
  import opened Pointers
  import opened Repeats
  import opened Aftermath

  // ---- Joining the threads ---------------------------------------------------------------------------

  lemma SwappedIsJoined(g: State, s1: Subject, s2: Subject, n: nat)
    requires Mergeable(g, s1, s2) && ComesBack(g.h.link, s2, n)
    ensures s1 in g.h.thread && s1 in g.h.link && s2 in g.h.link && Swapped(g.h, s1, s2, n) == Joined(g, s1, s2).h
  {
    hide Wf, Joined, Cycle;
    JoinFacts(g, s1, s2);
    OnceAround(g.h.link, g.s.ring[s2], s2, n);
    FillSame(g.h.thread, Round(g.h.link, s2, n), g.s.ring[s2], g.h.thread[s1]);
  }

  /** After `j` articles have been linked again. */
  lemma {:induction false} MergedTo(g: State, s1: Subject, s2: Subject, m: Merge, h': Links, j: nat) returns (g': State)
    requires Mergeable(g, s1, s2) && SubjectsKnown(g, s2) && Merges(g.h, s1, s2, m, h') && j <= |m.ts|
    ensures |m.hs| == |m.ts| + 1 && g'.h == m.hs[j] && Wf(g'.h, g'.s)
    ensures j <= |TopsOf(g, s2)| && Refiled(g, s1, s2, j, g') && NextTop(g.h, s2, m, j) == At(TopsOf(g, s2), j)
  {
    hide Wf, Mergeable, SubjectsKnown, Merges, NextTop, Refiled, Joined, Swapped, LinksIn;
    MergeStarts(g.h, s1, s2, m, h');
    TopsDated(g, s1, s2);
    if j == 0 {
      g' := Joined(g, s1, s2);
      MergeComesBack(g.h, s1, s2, m, h');
      SwappedIsJoined(g, s1, s2, m.n);
      JoinKeepsWf(g, s1, s2);
      RefiledNone(g, s1, s2);
    } else {
      var g1 := MergedTo(g, s1, s2, m, h', j - 1);
      MergeStep(g.h, s1, s2, m, h', j - 1);
      g' := LinkedAgain(g, s1, s2, j - 1, g1, m.hs[j]);
    }
  }

  lemma MergeComesBack(h: Links, s1: Subject, s2: Subject, m: Merge, h': Links)
    requires Merges(h, s1, s2, m, h')
    ensures ComesBack(h.link, s2, m.n)
  {
    hide LinksIn, Swapped, ComesBack;
  }

  lemma LinkedAgain(g: State, s1: Subject, s2: Subject, k: nat, g1: State, h': Links) returns (g': State)
    requires Mergeable(g, s1, s2) && SubjectsKnown(g, s2) && k < |TopsOf(g, s2)| && Refiled(g, s1, s2, k, g1)
    requires Wf(g1.h, g1.s) && LinksIn(g1.h, TopsOf(g, s2)[k], h')
    ensures g'.h == h' && Wf(g'.h, g'.s) && Refiled(g, s1, s2, k + 1, g')
    ensures TopsOf(g, s2)[k] in g1.h.sibling && g1.h.sibling[TopsOf(g, s2)[k]] == At(TopsOf(g, s2), k + 1)
  {
    hide Wf, SubjectsKnown, Refiled, LinksIn, Linkable, AfterLink, JoinedRing;
    var a := TopsOf(g, s2)[k];
    RefiledNext(g, s1, s2, k, g1);
    RefiledOne(g, s1, s2, k, g1);
    var subject := g.h.subj[a];
    LinksAsModelled(g1, a, subject, h');
    g' := AfterLink(g1, a, subject);
    AfterLinkIsWf(g1, a, subject);
  }

  lemma AfterLinkIsWf(g: State, a: Article, subject: Subject)
    requires Wf(g.h, g.s) && Linkable(g.h, g.s, a, subject)
    ensures Wf(AfterLink(g, a, subject).h, AfterLink(g, a, subject).s)
  {
  }

  lemma MergesAsModelled(g: State, s1: Subject, s2: Subject, m: Merge, h': Links) returns (g': State)
    requires Mergeable(g, s1, s2) && SubjectsKnown(g, s2) && Merges(g.h, s1, s2, m, h')
    ensures g'.h == h' && Wf(g'.h, g'.s) && Refiled(g, s1, s2, |TopsOf(g, s2)|, g')
  {
    hide Wf, Mergeable, SubjectsKnown, NextTop, Refiled, LinksIn, Swapped;
    g' := MergedTo(g, s1, s2, m, h', |m.ts|);
  }

  // ---- The subject step --------------------------------------------------------------------------------

  lemma JoinsHit(g: State, gs: State, a: Article, base: Subject, chain: seq<Article>, ap: Article, r: Rest) returns (g1: State)
    requires Hanging(g, gs, a, base, chain, ap) && Joins(g.h, ap, base, r)
    ensures g1.h == r.h1 && Spined(g1, a, base, chain + [ap], 1)
    ensures g1.h.parent == g.h.parent && g1.h.subj == g.h.subj && g1.h.date == g.h.date
  {
    hide Wf, Hanging, Spined, Mergeable, SubjectsKnown, Refiled, Merges;
    MergeNeeded(g, gs, a, base, chain, ap);
    var led := Subj(g, ap);
    assert SubjIn(g.h, ap) == led;
    if g.h.thread[base] != g.h.thread[led] {
      HungMergeable(g, gs, a, base, chain, ap);
      g1 := MergesAsModelled(g, led, base, r.merge, r.h1);
      HungMerged(g, gs, a, base, chain, ap, g1);
    } else {
      g1 := g;
      HungSame(g, gs, a, base, chain, ap);
    }
  }

  lemma JoinsHead(g: State, a: Article, base: Subject, chain: seq<Article>, ap: Article, r: Rest) returns (g1: State)
    requires Chained(g, a, base, chain) && |chain| > 1 && ap == Last(chain) && Joins(g.h, ap, base, r) && Subj(g, ap) == null
    ensures g1.h == r.h1 && Spined(g1, a, base, chain, 1)
    ensures g1.h.parent == g.h.parent && g1.h.date == g.h.date && g1.h.subj == g.h.subj[ap := base]
  {
    hide Wf, Chained, Spined, Headed, Linkable, LinksIn, AfterLink;
    HeadedSpine(g, a, base, chain);
    HeadedIs(g, ap, base);
    g1 := Headed(g, ap, base);
    LinksAsModelled(SetSubj(g, ap, base), ap, base, r.h1);
  }

  // ---- Handing out the subject -----------------------------------------------------------------------------

  /** The spine is the way up from the article. */
  lemma {:induction false} SpineIsUp(g: State, a: Article, base: Subject, spine: seq<Article>, i: nat, j: nat)
    requires Spined(g, a, base, spine, i) && j < |spine|
    ensures Up(g.h.parent, a, j) == spine[j] && spine[j] in g.h.parent
    decreases j
  {
    hide Wf, Coherent, NoDup;
    assert spine[j] in spine;
    if j > 0 {
      SpineIsUp(g, a, base, spine, i, j - 1);
      assert SpineRung(g, base, spine, j - 1);
      UpNext(g.h.parent, a, j - 1);
    }
  }

  lemma {:induction false} GivenAsModelled(g: State, a: Article, base: Subject, spine: seq<Article>, j: nat) returns (g': State)
    requires Spined(g, a, base, spine, 1) && 1 <= j < |spine|
    ensures g'.h == Given(g.h, a, base, j) && Spined(g', a, base, spine, j) && SubjectsGiven(g, g', spine[..j], base)
    decreases j
  {
    hide Wf, Spined, SubjectsGiven;
    if j == 1 {
      g' := g;
      SpineAt(g, a, base, spine, 1);
      NoneGiven(g, base);
      OneGiven(g, g, spine, base, 0);
      assert spine[..0] == [];
    } else {
      var g1 := GivenAsModelled(g, a, base, spine, j - 1);
      SpineAt(g1, a, base, spine, j - 1);
      SpineIsUp(g, a, base, spine, 1, j - 1);
      SpineHasSubj(g1, a, base, spine, j - 1);
      SubjectPassedOn(g1, a, base, spine, j - 1);
      OneGiven(g, g1, spine, base, j - 1);
      g' := SetSubj(g1, spine[j - 1], base);
    }
  }

  lemma SpineHasSubj(g: State, a: Article, base: Subject, spine: seq<Article>, i: nat)
    requires Spined(g, a, base, spine, i)
    ensures spine[i] in g.h.subj
  {
    hide Coherent, NoDup;
    assert spine[i] in spine;
  }

  /** The subject goes up to the first that has one, and no further. */
  lemma GivesAsModelled(g: State, a: Article, base: Subject, spine: seq<Article>, m: nat, h': Links) returns (g': State)
    requires Spined(g, a, base, spine, 1) && Gives(g.h, a, base, m, h')
    ensures m == |spine| - 1 && g'.h == h' && Spined(g', a, base, spine, |spine| - 1) && SubjectsGiven(g, g', spine, base)
    ensures spine != [] && Up(g.h.parent, a, m) == Last(spine)
  {
    hide Wf, Spined, SubjectsGiven, Given;
    SpineAt(g, a, base, spine, 1);
    var n := |spine| - 1;
    SpineIsUp(g, a, base, spine, 1, n);
    g' := GivenAsModelled(g, a, base, spine, n);
    SpineAt(g', a, base, spine, n);
    assert !Lacks(g'.h, spine[n]) by { assert SubjIn(g'.h, spine[n]) == Subj(g', spine[n]); }
    if m < n {
      var g1 := GivenAsModelled(g, a, base, spine, m);
      SpineAt(g1, a, base, spine, m);
      SpineIsUp(g, a, base, spine, 1, m);
    }
    OneGiven(g, g', spine, base, n);
    assert spine[..n + 1] == spine;
  }

  // ---- The climb -----------------------------------------------------------------------------------------------

  lemma {:induction false} ClimbsSame(p: ParentMap, chain: seq<Article>, a: Article, start: Article, p': ParentMap, n: nat)
    requires Climbable(p, chain, a, start, p')
    requires forall q {:trigger ParentKnown(p, q)} :: q in p ==> ParentKnown(p, q)
    requires forall j: nat :: j < n ==> !Arrives(p', Up(p', start, j), a)
    ensures OffChain(p, chain, start, n) && Up(p, start, n) == Up(p', start, n)
  {
    hide Climbable, OffChain, Grounded;
    ClimbStarts(p, chain, a, start, p');
    if n > 0 {
      ClimbsSame(p, chain, a, start, p', n - 1);
      var x := Up(p', start, n - 1);
      assert !Arrives(p', x, a);
      ClimbInside(p, chain, a, start, p', n - 1);
      ClimbReads(p, chain, a, start, p', n - 1, x);
      ClimbOn(p, chain, a, start, p', n - 1, x);
      UpNext(p', start, n - 1);
    }
  }

  lemma ClimbsAsModelled(p: ParentMap, chain: seq<Article>, a: Article, start: Article, p': ParentMap, n: nat, c: Article?)
    requires Climbable(p, chain, a, start, p') && Climbs(p', start, a, n, c)
    requires forall q {:trigger ParentKnown(p, q)} :: q in p ==> ParentKnown(p, q)
    ensures Climbed(p, chain, a, start, n, c)
  {
    hide Climbable, OffChain, Grounded, Climbed;
    ClimbsSame(p, chain, a, start, p', n);
    if c == null {
      ClimbEnds(p, chain, a, start, n);
    } else {
      ClimbInside(p, chain, a, start, p', n);
      ClimbReads(p, chain, a, start, p', n, c);
    }
  }

  // ---- The branch that is cut off ----------------------------------------------------------------------------------

  lemma CutsAsModelled(g: State, a: Article, c: Article, h1: Links, h': Links)
    requires Wf(g.h, g.s) && c in g.s.home && c in g.h.parent && g.h.parent[c] == a && Cuts(g.h, c, h1, h')
    requires Subj(g, c) != null && Subj(g, c) in g.h.thread
    ensures h' == Rehung(g, c).h
  {
    hide Wf, Unlinks, LinksIn, AfterUnlink, AfterLink, Linkable;
    UnlinksAsModelled(g, c, h1);
    RehangLinkable(g, c);
    UnlinkRemoves(g, c);
    LinksAsModelled(CutOff(g, c), c, Subj(g, c), h');
  }

  /** From the spine to the end. */
  lemma SettlesAsModelled(g1: State, a: Article, base: Subject, spine: seq<Article>, p: ParentMap, chain: seq<Article>,
                          r: Rest, h': Links) returns (g: State)
    requires spine != [] && Spined(g1, a, base, spine, 1) && r.h1 == g1.h && Climbable(p, chain, a, Last(spine), g1.h.parent)
    requires forall q {:trigger ParentKnown(p, q)} :: q in p ==> ParentKnown(p, q)
    requires Gives(r.h1, a, base, r.m, r.h2) && Climbs(r.h2.parent, Up(r.h2.parent, a, r.m), a, r.n, r.c)
    requires if r.c == null then h' == r.h2 else Cuts(r.h2, r.c, r.h3, h')
    ensures g.h == h' && Tidy(g) && Settled(g1, g, spine, base, r.c) && Climbed(p, chain, a, Last(spine), r.n, r.c)
  {
    hide Wf, Spined, Climbable, Gives, Climbs, Cuts, Tidy, Settled, Climbed, SubjectsGiven, Rehung;
    var gd := GivesAsModelled(g1, a, base, spine, r.m, r.h2);
    GivenParents(g1, gd, spine, base);
    ClimbsAsModelled(p, chain, a, Last(spine), g1.h.parent, r.n, r.c);
    if r.c == null {
      g := gd;
      SettledNow(g1, gd, g, a, base, spine, p, chain, r.n, r.c);
    } else {
      SettledNow(g1, gd, gd, a, base, spine, p, chain, r.n, r.c);
      g := Rehung(gd, r.c);
      CutsAsModelled(gd, a, r.c, r.h3, h');
      SettledNow(g1, gd, g, a, base, spine, p, chain, r.n, r.c);
    }
  }

  // ---- The whole call ----------------------------------------------------------------------------------------------

  lemma HitAsModelled(g0: State, t0: Table, a: Article, base: Subject, rethreading: bool, refs: seq<Reference>, v: Walker,
                      gw: State, gs: State, r: Rest, h': Links) returns (g: State, spine: seq<Article>)
    requires Standing(g0, a, base, rethreading, [a]) && v.h == gw.h && Finishes(v, a, base, rethreading, r, h')
    requires Hit(g0, t0, a, base, rethreading, gw, v.table, WalkOf(g0, t0, a, refs), v.ap, v.trail, gs)
    ensures g.h == h' && Tidy(g) && Outcome(g0, t0, a, base, refs, g, v.table, spine, r.c)
  {
    hide Wf, Standing, Hit, Hanging, Climbable, Climbed, Spined, Tidy, Settled, Outcome, WalkOf, Joins, Gives, Climbs,
      Cuts, Chained;
    var w, chain, ap := WalkOf(g0, t0, a, refs), v.trail, v.ap;
    HitEnds(g0, t0, a, base, rethreading, gw, v.table, w, ap, chain, gs);
    HitKnown(g0, t0, a, base, rethreading, gw, v.table, w, ap, chain, gs);
    spine := chain + [ap];
    assert Last(spine) == ap;
    var g1 := JoinsHit(gw, gs, a, base, chain, ap, r);
    g := SettlesAsModelled(g1, a, base, spine, gs.h.parent, chain, r, h');
    HitOutcome(g0, t0, a, base, rethreading, refs, gw, v.table, ap, chain, gs, g1, g, r.n, r.c);
  }

  lemma HeadAsModelled(g0: State, t0: Table, a: Article, base: Subject, rethreading: bool, refs: seq<Reference>, v: Walker,
                       gw: State, r: Rest, h': Links) returns (g: State, spine: seq<Article>)
    requires Standing(g0, a, base, rethreading, [a]) && v.h == gw.h && Finishes(v, a, base, rethreading, r, h')
    requires Missed(g0, t0, a, base, rethreading, gw, v.table, WalkOf(g0, t0, a, refs), v.ap, v.trail) && v.trail != [a]
    ensures g.h == h' && Tidy(g) && Outcome(g0, t0, a, base, refs, g, v.table, spine, r.c)
  {
    hide Wf, Standing, Missed, Climbable, Climbed, Spined, Tidy, Settled, Outcome, WalkOf, Joins, Gives, Climbs, Cuts,
      Chained;
    var w, chain, ap := WalkOf(g0, t0, a, refs), v.trail, v.ap;
    MissedEnds(g0, t0, a, base, rethreading, gw, v.table, w, ap, chain);
    ChainedKnown(gw, a, base, chain);
    HeadClimbable(gw, a, base, chain);
    spine := chain;
    var g1 := JoinsHead(gw, a, base, chain, ap, r);
    g := SettlesAsModelled(g1, a, base, spine, gw.h.parent, [], r, h');
    HeadOutcome(g0, t0, a, base, rethreading, refs, gw, v.table, ap, chain, g1, g, r.n, r.c);
  }

  lemma ChainedKnown(g: State, a: Article, base: Subject, chain: seq<Article>)
    requires Chained(g, a, base, chain)
    ensures forall q {:trigger ParentKnown(g.h.parent, q)} :: q in g.h.parent ==> ParentKnown(g.h.parent, q)
  {
    hide Wf, Grounded, Coherent, Rung;
    WfDomains(g);
  }

  lemma AloneAsModelled(g0: State, t0: Table, a: Article, base: Subject, rethreading: bool, refs: seq<Reference>, v: Walker,
                        gw: State, r: Rest, h': Links) returns (g: State)
    requires Standing(g0, a, base, rethreading, [a]) && v.h == gw.h && Finishes(v, a, base, rethreading, r, h')
    requires Missed(g0, t0, a, base, rethreading, gw, v.table, WalkOf(g0, t0, a, refs), v.ap, v.trail) && v.trail == [a]
    ensures g.h == h' && Tidy(g) && Outcome(g0, t0, a, base, refs, g, v.table, [a], null)
  {
    hide Wf, Standing, Missed, Tidy, Outcome, WalkOf, Joins, Gives, Climbs, Cuts, Chained, LinksIn, AfterLink, Linkable;
    MissedEnds(g0, t0, a, base, rethreading, gw, v.table, WalkOf(g0, t0, a, refs), v.ap, v.trail);
    StandingAlone(gw, a, base, rethreading);
    if rethreading {
      g := gw;
    } else {
      LinkedAlone(gw, a, base);
      LinksAsModelled(gw, a, base, h');
      g := AfterLink(gw, a, base);
    }
    AloneOutcome(g0, t0, a, base, rethreading, refs, gw, v.table, v.ap, v.trail, g);
  }

  /** With a date, or without a repeat, every call that ends leaves what the model says. */
  lemma CallAsModelled(g0: State, t0: Table, a: Article, base: Subject, rethreading: bool, refs: seq<Reference>,
                       turns: seq<Turn>, run: seq<Walker>, r: Rest, h': Links)
    returns (g: State, spine: seq<Article>, cut: Article?)
    requires Standing(g0, a, base, rethreading, [a]) && TableFits(t0, g0.h.parent.Keys)
    requires Run(g0.h, t0, a, rethreading, refs, turns, run) && Finishes(run[|refs|], a, base, rethreading, r, h')
    requires Date(g0, a) != 0 || !WalkOf(g0, t0, a, refs).repeated
    ensures g.h == h' && Tidy(g) && Outcome(g0, t0, a, base, refs, g, run[|refs|].table, spine, cut)
  {
    hide Standing, TableFits, WalkOf, Step, Missed, Hit, Tidy, Outcome, Finishes;
    var v := run[|refs|];
    var gw, gs, hit := RunEnds(g0, t0, a, base, rethreading, refs, turns, run);
    if hit {
      cut := r.c;
      g, spine := HitAsModelled(g0, t0, a, base, rethreading, refs, v, gw, gs, r, h');
    } else if v.trail == [a] {
      spine, cut := [a], null;
      g := AloneAsModelled(g0, t0, a, base, rethreading, refs, v, gw, r, h');
    } else {
      cut := r.c;
      g, spine := HeadAsModelled(g0, t0, a, base, rethreading, refs, v, gw, r, h');
    }
  }

  /** A call of `thread_article` that ends leaves a forest exactly if the article has a date or no
      reference that counts is repeated. */
  lemma CallLeavesForestIff(g0: State, t0: Table, a: Article, base: Subject, rethreading: bool, refs: seq<Reference>,
                            turns: seq<Turn>, run: seq<Walker>, r: Rest, h': Links)
    requires Standing(g0, a, base, rethreading, [a]) && TableFits(t0, g0.h.parent.Keys)
    requires Run(g0.h, t0, a, rethreading, refs, turns, run) && Finishes(run[|refs|], a, base, rethreading, r, h')
    ensures (exists s: Shape :: Wf(h', s) && Grounded(h'.parent))
            <==> Date(g0, a) != 0 || !WalkOf(g0, t0, a, refs).repeated
  {
    hide Standing, TableFits, WalkOf, Step, Tidy, Outcome, Finishes, Wf, Grounded;
    if Date(g0, a) != 0 || !WalkOf(g0, t0, a, refs).repeated {
      var g, spine, cut := CallAsModelled(g0, t0, a, base, rethreading, refs, turns, run, r, h');
      TidyIsForest(g);
      assert Wf(h', g.s) && Grounded(h'.parent);
    } else {
      forall s: Shape ensures !(Wf(h', s) && Grounded(h'.parent)) {
        RepeatsAreNotMended(g0, t0, a, base, rethreading, refs, turns, run, r, h', s);
      }
    }
  }

  lemma TidyIsForest(g: State)
    requires Tidy(g)
    ensures Wf(g.h, g.s) && Grounded(g.h.parent)
  {
    hide Wf, Grounded, Coherent;
  }
}
