/** The theory of taking an article that replaced a fake out of its thread, together with
    the fakes that only it kept alive (libtrn/Article.cpp, lines 930-961). */
module Detaching {
  import opened Forest
  import opened Joining
  import opened Ancestry
  import opened Placing
  import opened Settling

  /** `line` is the fakes above `a` that have no other child; `stopper` is the article above them. */
  ghost predicate FakeLine(g: State, a: Article, line: seq<Article>, stopper: Article?) {
    && (forall i :: 0 <= i < |line| ==> Up(g.h.parent, a, i + 1) == line[i] && Kids(g, line[i]) == [Below(a, line, i)])
    && Up(g.h.parent, a, |line| + 1) == stopper
  }

  ghost function Below(a: Article, line: seq<Article>, i: int): Article
    requires 0 <= i < |line|
  {
    if i == 0 then a else line[i - 1]
  }

  /** Without cycles nothing is met twice on the way up. */
  lemma NeverTwice(p: ParentMap, a: Article, i: nat, j: nat)
    requires Grounded(p) && a in p && i < j && Up(p, a, i) != null
    ensures Up(p, a, i) != Up(p, a, j)
  {
    if Up(p, a, i) == Up(p, a, j) {
      var x := Up(p, a, i);
      UpSum(p, a, i, j - i);
      assert Ends(p, a);
      var n: nat :| Up(p, a, n) == null;
      UpStaysNull(p, a, n, i + n);
      UpSum(p, a, i, n);
      CycleNeverEnds(p, x, j - i, n);
    }
  }

  lemma LineDiffers(g: State, a: Article, line: seq<Article>, stopper: Article?)
    requires Grounded(g.h.parent) && a in g.h.parent && FakeLine(g, a, line, stopper)
    ensures NoDup(line) && a !in line && (forall x :: x in line ==> x != stopper)
  {
    hide Grounded, Up, Kids;
    forall i, j | 0 <= i < j < |line| ensures line[i] != line[j] {
      LineDiffersAt(g, a, line, stopper, i, j);
    }
    forall x | x in line ensures x != a && x != stopper {
      var i :| 0 <= i < |line| && line[i] == x;
      LineDiffersAt(g, a, line, stopper, i, |line|);
    }
  }

  lemma LineDiffersAt(g: State, a: Article, line: seq<Article>, stopper: Article?, i: nat, j: nat)
    requires Grounded(g.h.parent) && a in g.h.parent && FakeLine(g, a, line, stopper) && i < j <= |line|
    ensures line[i] != a && line[i] != if j < |line| then line[j] else stopper
  {
    hide Grounded, Kids;
    assert Up(g.h.parent, a, 0) == a;
    assert Up(g.h.parent, a, i + 1) == line[i];
    NeverTwice(g.h.parent, a, 0, i + 1);
    NeverTwice(g.h.parent, a, i + 1, j + 1);
  }

  lemma KidsFacts(g: State, p: Article)
    requires Wf(g.h, g.s) && p in g.h.parent
    ensures p in g.h.child1 && p in g.s.kids && Chain(g.h.sibling, g.h.child1[p], g.s.kids[p])
    ensures forall q :: q in g.s.kids[p] ==> q in g.h.parent
  {
    assert KidsOk(g.h, g.s, p);
  }

  /** What one step of the climb sees. */
  lemma LineStep(g: State, a: Article, line: seq<Article>, ap: Article)
    requires Tidy(g) && a in g.s.home && FakeLine(g, a, line, ap)
    ensures ap in g.h.parent && ap in g.s.home && Up(g.h.parent, a, |line| + 2) == g.h.parent[ap]
    ensures ap in g.h.child1 && Chain(g.h.sibling, g.h.child1[ap], Kids(g, ap))
    ensures (if line == [] then a else line[|line| - 1]) in Kids(g, ap)
    ensures g.h.child1[ap] != null && g.h.child1[ap] in g.h.parent && g.h.child1[ap] in g.h.sibling
    ensures g.h.child1[ap] == At(Kids(g, ap), 0) && g.h.sibling[g.h.child1[ap]] == At(Kids(g, ap), 1)
  {
    hide Wf, Grounded;
    var n := |line|;
    var below := if n == 0 then a else line[n - 1];
    LineHome(g, a, line, ap);
    HomeFacts(g, below);
    ParentLinked(g, [], below);
    UpNext(g.h.parent, a, n);
    HomeFacts(g, ap);
    UpNext(g.h.parent, a, n + 1);
    KidsFacts(g, ap);
  }

  lemma LineLonger(g: State, a: Article, line: seq<Article>, ap: Article)
    requires FakeLine(g, a, line, ap) && ap in g.h.parent && Up(g.h.parent, a, |line| + 2) == g.h.parent[ap]
    requires |Kids(g, ap)| == 1 && (if line == [] then a else line[|line| - 1]) in Kids(g, ap)
    ensures FakeLine(g, a, line + [ap], g.h.parent[ap])
  {
    var line' := line + [ap];
    forall i | 0 <= i < |line'| ensures Up(g.h.parent, a, i + 1) == line'[i] && Kids(g, line'[i]) == [Below(a, line', i)] {
      if i < |line| {
        assert line'[i] == line[i] && Below(a, line', i) == Below(a, line, i);
      }
    }
  }

  /** Everything on the line is linked. */
  lemma {:induction false} LineHome(g: State, a: Article, line: seq<Article>, stopper: Article?)
    requires Tidy(g) && a in g.s.home && FakeLine(g, a, line, stopper)
    ensures forall x :: x in line ==> x in g.s.home
  {
    hide Wf, Grounded;
    if line != [] {
      var n := |line| - 1;
      assert Up(g.h.parent, a, n + 1) == line[n];
      LineHome(g, a, line[..n], line[n]) by {
        forall i | 0 <= i < n
          ensures Up(g.h.parent, a, i + 1) == line[..n][i] && Kids(g, line[..n][i]) == [Below(a, line[..n], i)] {
          assert line[..n][i] == line[i] && Below(a, line[..n], i) == Below(a, line, i);
        }
      }
      var below := if n == 0 then a else line[n - 1];
      assert n > 0 ==> line[..n][n - 1] == below;
      UpNext(g.h.parent, a, n) by { HomeFacts(g, below); }
      HomeFacts(g, below);
      ParentLinked(g, [], below);
    }
  }

  /** The first `k` fakes of the line have been freed; `a` is out of its list but still points
      at its old parent. */
  ghost predicate Freeing(g0: State, a: Article, base: Subject, line: seq<Article>, stopper: Article?, g: State, k: nat) {
    && a in g.h.parent && Par(g, a) == Par(g0, a) && Unfreed(g0, a, line, g)
    && Wf(g.h, g.s) && Chained(SetParent(g, a, null), a, base, [a])
    && NoDup(line) && a !in line && (forall x :: x in line ==> x != stopper)
    && RestInLine(g, line, stopper, k)
    && (forall j :: 0 <= j < |line| && j < k ==> Cleared(g, line[j]))
  }

  ghost predicate RestInLine(g: State, line: seq<Article>, stopper: Article?, k: nat) {
    forall j :: k <= j < |line| ==> InLine(g, line, stopper, k, j)
  }

  ghost predicate InLine(g: State, line: seq<Article>, stopper: Article?, k: nat, j: int)
    requires 0 <= j < |line|
  {
    && line[j] in g.s.home && Par(g, line[j]) == (if j + 1 < |line| then line[j + 1] else stopper)
    && Kids(g, line[j]) == if j == k then [] else if j > 0 then [line[j - 1]] else []
  }

  ghost predicate Cleared(g: State, x: Article) {
    x !in g.s.home && Par(g, x) == null && Subj(g, x) == null && Date(g, x) == 0
  }

  lemma FreeingStarts(g0: State, a: Article, line: seq<Article>, stopper: Article?)
    requires Tidy(g0) && a in g0.s.home && Subj(g0, a) != null && FakeLine(g0, a, line, stopper)
    ensures Freeing(g0, a, Subj(g0, a), line, stopper, AfterUnlink(g0, a), 0)
  {
    hide Wf, Grounded, Coherent, Chained;
    var g := AfterUnlink(g0, a);
    UnlinkRemoves(g0, a);
    HomeFacts(g0, a);
    TakenOut(g0, a);
    LineDiffers(g0, a, line, stopper);
    LineHome(g0, a, line, stopper);
    forall j | 0 <= j < |line| ensures InLine(g, line, stopper, 0, j) {
      LineStands(g0, a, line, stopper, j);
      LineStands(g0, a, line, stopper, 0);
      StartStands(g0, a, line, stopper, g, j);
    }
  }

  lemma LineStands(g: State, a: Article, line: seq<Article>, stopper: Article?, j: nat)
    requires Wf(g.h, g.s) && a in g.h.parent && FakeLine(g, a, line, stopper) && j < |line|
    ensures Par(g, line[j]) == if j + 1 < |line| then line[j + 1] else stopper
    ensures Par(g, Below(a, line, j)) == line[j] && Kids(g, line[j]) == [Below(a, line, j)]
  {
    hide Wf;
    var p := g.h.parent;
    assert Up(p, a, j + 1) == line[j] && Up(p, a, j + 1 + 1) == if j + 1 < |line| then line[j + 1] else stopper;
    if j > 0 {
      assert Up(p, a, j) == line[j - 1];
    }
    WfElim(g.h, g.s);
    LineKnown(g, a, line, j);
    UpNext(p, a, j + 1);
    UpNext(p, a, j);
  }

  lemma LineKnown(g: State, a: Article, line: seq<Article>, j: nat)
    requires Targets(g.h, g.s) && a in g.h.parent && j < |line|
    requires forall i :: 0 <= i < |line| ==> Up(g.h.parent, a, i + 1) == line[i]
    ensures line[j] in g.h.parent && Below(a, line, j) in g.h.parent
  {
    var below := Below(a, line, j);
    if j > 0 {
      LineKnown(g, a, line, j - 1);
      assert Up(g.h.parent, a, j - 1 + 1) == below;
    }
    assert ParentKnown(g.h.parent, below);
    assert Up(g.h.parent, a, j) == below && Up(g.h.parent, a, j + 1) == line[j];
    UpNext(g.h.parent, a, j);
  }

  lemma StartStands(g0: State, a: Article, line: seq<Article>, stopper: Article?, g: State, j: nat)
    requires Removed(g0, a, g) && j < |line| && line[j] in g0.s.home && line[j] != a && NoDup(line) && a !in line
    requires Par(g0, line[j]) == if j + 1 < |line| then line[j + 1] else stopper
    requires Par(g0, Below(a, line, j)) == line[j] && Kids(g0, line[j]) == [Below(a, line, j)]
    requires j > 0 ==> Par(g0, a) == line[0]
    ensures InLine(g, line, stopper, 0, j)
  {
  }

  /** Unlinking does not look at the parent pointer of an article in no list. */
  lemma UnlinkIgnores(g: State, a: Article, x: Article)
    requires Wf(g.h, g.s) && a in g.h.parent && a !in g.s.home && x in g.s.home && x != a
    requires Wf(SetParent(g, a, null).h, g.s)
    ensures AfterUnlink(SetParent(g, a, null), x) == SetParent(AfterUnlink(g, x), a, null)
  {
    hide Wf;
    AfterUnlinkFields(g, x);
    AfterUnlinkFields(SetParent(g, a, null), x);
    HomeFacts(g, x);
    ListsAgree(g, a, x);
  }

  lemma ListsAgree(g: State, a: Article, x: Article)
    requires Wf(g.h, g.s) && a in g.h.parent && a !in g.s.home && x in g.s.home && x != a
    requires Wf(SetParent(g, a, null).h, g.s)
    ensures ListWith(SetParent(g, a, null), x) == ListWith(g, x) && HomeRing(SetParent(g, a, null), x) == HomeRing(g, x)
  {
  }

  /** One fake of the line out of its list, its date, subject and parent cleared. */
  ghost function FreedHere(g: State, x: Article): State
    requires Wf(g.h, g.s) && x in g.s.home
  {
    SetParent(SetSubj(SetDate(AfterUnlink(g, x), x, 0), x, null), x, null)
  }

  lemma FreedHereFields(g: State, x: Article)
    requires Wf(g.h, g.s) && x in g.s.home
    ensures x in g.h.parent && x !in AfterUnlink(g, x).s.home && x in AfterUnlink(g, x).h.parent
    ensures Wf(FreedHere(g, x).h, FreedHere(g, x).s) && FreedHere(g, x).h.parent == g.h.parent[x := null]
    ensures FreedHere(g, x).h.subj == g.h.subj[x := null] && FreedHere(g, x).h.date == g.h.date[x := 0]
    ensures FreedHere(g, x).s.home == g.s.home - {x}
  {
    hide Wf, AfterUnlink;
    HomeFacts(g, x);
    UnlinkRemoves(g, x);
    var g1 := AfterUnlink(g, x);
    SetDateKeepsWf(g1, x, 0);
    SetSubjKeepsWf(SetDate(g1, x, 0), x, null);
    SetParentKeepsWf(SetSubj(SetDate(g1, x, 0), x, null), x, null);
  }

  lemma FreedView(g: State, a: Article, x: Article)
    requires Wf(g.h, g.s) && a in g.h.parent && a !in g.s.home && x in g.s.home && x != a
    requires Wf(SetParent(g, a, null).h, g.s)
    ensures SetParent(FreedHere(g, x), a, null) == Freed(SetParent(g, a, null), x)
    ensures Wf(FreedHere(g, x).h, FreedHere(g, x).s) && FreedHere(g, x).h.parent == g.h.parent[x := null]
    ensures FreedHere(g, x).h.subj == g.h.subj[x := null] && FreedHere(g, x).h.date == g.h.date[x := 0]
    ensures FreedHere(g, x).s.home == g.s.home - {x} && x in g.h.parent
  {
    hide Wf, AfterUnlink;
    UnlinkIgnores(g, a, x);
    FreedHereFields(g, x);
    TwoParents(AfterUnlink(g, x).h.parent, a, x);
  }

  lemma TwoParents(p: ParentMap, a: Article, x: Article)
    ensures p[x := null][a := null] == p[a := null][x := null]
  {
  }

  /** What unlinking the next fake needs to know. */
  lemma FreeReady(g0: State, a: Article, base: Subject, line: seq<Article>, stopper: Article?, g: State, k: nat)
    requires Freeing(g0, a, base, line, stopper, g, k) && k < |line|
    ensures Wf(g.h, g.s) && line[k] in g.s.home && line[k] in g.h.parent && line[k] != a
    ensures Subj(g, line[k]) != null && Subj(g, line[k]) in HomeRing(g, line[k])
    ensures Par(g, line[k]) == if k + 1 < |line| then line[k + 1] else stopper
    ensures Kids(g, line[k]) == []
  {
    hide Wf, Grounded;
    var x, v := line[k], SetParent(g, a, null);
    assert InLine(g, line, stopper, k, k);
    assert Placed(v, x, a, base, []) by { assert [a][1..] == [] && Last([a]) == a; }
    HomeFacts(g, x);
    SubjectKnown(g, x);
    RingFacts(g, Subj(g, x));
  }

  lemma FreeStep(g0: State, a: Article, base: Subject, line: seq<Article>, stopper: Article?, g: State, k: nat)
    requires Freeing(g0, a, base, line, stopper, g, k) && k < |line|
    ensures line[k] in g.s.home && Wf(g.h, g.s)
    ensures Freeing(g0, a, base, line, stopper, FreedHere(g, line[k]), k + 1)
  {
    hide Wf, Grounded, Chained, AfterUnlink, CutOff, Freed, FreedHere, RestInLine, Cleared, Unfreed;
    var x, v := line[k], SetParent(g, a, null);
    FreeReady(g0, a, base, line, stopper, g, k);
    AloneElim(v, a, base);
    FreedView(g, a, x);
    FreedFake(v, a, base, x);
    WfDomains(g);
    FreeLine(g, a, line, stopper, k, FreedHere(g, x), v);
    FreeCleared(g, line, k, FreedHere(g, x));
    UnfreedStep(g0, a, line, g, x, FreedHere(g, x));
  }

  /** Articles off the line are as they were (but for the parent of `a`). */
  ghost predicate Unfreed(g0: State, a: Article, line: seq<Article>, g: State) {
    && g.h.parent.Keys == g0.h.parent.Keys && Date(g, a) == Date(g0, a)
    && (forall q :: q in g0.h.parent && q != a && q !in line ==> Par(g, q) == Par(g0, q) && Date(g, q) == Date(g0, q))
    && (forall q :: q in g0.h.parent && q !in line ==> Subj(g, q) == Subj(g0, q))
  }

  lemma UnfreedStep(g0: State, a: Article, line: seq<Article>, g: State, x: Article, g': State)
    requires Unfreed(g0, a, line, g) && x in line && x in g.h.parent && x != a
    requires g'.h.parent == g.h.parent[x := null] && g'.h.subj == g.h.subj[x := null] && g'.h.date == g.h.date[x := 0]
    ensures Unfreed(g0, a, line, g')
  {
    assert g'.h.parent.Keys == g.h.parent.Keys;
  }

  lemma FreeCleared(g: State, line: seq<Article>, k: nat, g': State)
    requires k < |line| && forall j :: 0 <= j < |line| && j < k ==> Cleared(g, line[j])
    requires g'.h.parent == g.h.parent[line[k] := null] && g'.s.home == g.s.home - {line[k]}
    requires g'.h.subj == g.h.subj[line[k] := null] && g'.h.date == g.h.date[line[k] := 0]
    ensures forall j :: 0 <= j < |line| && j < k + 1 ==> Cleared(g', line[j])
  {
    forall j | 0 <= j < |line| && j < k + 1 ensures Cleared(g', line[j]) {
      assert j < k ==> Cleared(g, line[j]);
    }
  }

  lemma FreeLine(g: State, a: Article, line: seq<Article>, stopper: Article?, k: nat, g': State, v: State)
    requires k < |line| && NoDup(line) && a !in line && v == SetParent(g, a, null) && g.s.kids.Keys == g.h.parent.Keys
    requires RestInLine(g, line, stopper, k) && g.s.home.Keys <= g.h.parent.Keys
    requires g'.h.parent == g.h.parent[line[k] := null] && g'.s.home == g.s.home - {line[k]} && a in g.h.parent
    requires Par(v, line[k]) != null && Kids(v, Par(v, line[k])) == [line[k]] ==> Kids(g', Par(v, line[k])) == []
    requires forall q :: q in v.s.kids && q != Par(v, line[k]) ==> Kids(g', q) == Kids(v, q)
    ensures RestInLine(g', line, stopper, k + 1)
  {
    assert InLine(g, line, stopper, k, k);
    var n := k + 1;
    forall j | n <= j < |line| ensures InLine(g', line, stopper, n, j) {
      assert InLine(g, line, stopper, k, j) && line[j] != line[k] && line[j] != a;
      if j > k + 1 {
        assert line[j] != line[k + 1];
      }
    }
  }

  // ---- The sibling pointer of an article in no list ----------------------------------------------

  ghost function ClearSibling(g: State, a: Article): State {
    State(g.h.(sibling := g.h.sibling[a := null]), g.s)
  }

  /** A chain does not notice the sibling pointer of an article that is not in it. */
  lemma ClearedChain(sibling: map<Article, Article?>, first: Article?, l: seq<Article>, a: Article)
    requires Chain(sibling, first, l) && a !in l
    ensures Chain(sibling[a := null], first, l)
  {
  }

  lemma ClearSiblingKeepsWf(g: State, a: Article)
    requires Wf(g.h, g.s) && a in g.h.parent && a !in g.s.home
    ensures Wf(ClearSibling(g, a).h, g.s)
  {
    hide Wf, KidsOk, TopsOk, RingOk, Filed, ParentKnown;
    WfElim(g.h, g.s);
    var h' := ClearSibling(g, a).h;
    assert h'.sibling.Keys == g.h.sibling.Keys;
    forall p | p in h'.parent ensures KidsOk(h', g.s, p) { ClearedKids(g, a, p); }
    forall t | t in h'.thread ensures TopsOk(h', g.s, t) { ClearedTops(g, a, t); }
    forall t | t in h'.thread ensures RingOk(h', g.s, t) { ClearedRing(g, a, t); }
    forall x | x in g.s.home ensures Filed(h', g.s, x) { ClearedFiled(g, a, x); }
    WfIntro(h', g.s);
  }

  lemma ClearedKids(g: State, a: Article, p: Article)
    requires KidsOk(g.h, g.s, p) && a !in g.s.home
    ensures KidsOk(ClearSibling(g, a).h, g.s, p)
  {
    hide Chain, NoDup;
    ClearedChain(g.h.sibling, g.h.child1[p], g.s.kids[p], a);
  }

  lemma ClearedTops(g: State, a: Article, t: Subject)
    requires TopsOk(g.h, g.s, t) && a !in g.s.home
    ensures TopsOk(ClearSibling(g, a).h, g.s, t)
  {
    hide Chain, NoDup;
    ClearedChain(g.h.sibling, g.h.thread[t], g.s.tops[t], a);
  }

  lemma ClearedRing(g: State, a: Article, t: Subject)
    requires RingOk(g.h, g.s, t)
    ensures RingOk(ClearSibling(g, a).h, g.s, t)
  {
    hide Cycle;
  }

  lemma ClearedFiled(g: State, a: Article, x: Article)
    requires Filed(g.h, g.s, x)
    ensures Filed(ClearSibling(g, a).h, g.s, x)
  {
  }

  /** The article is out of its thread, and so are the fakes that only it kept alive. */
  ghost predicate Detached(g0: State, a: Article, base: Subject, line: seq<Article>, stopper: Article?, g: State) {
    && Chained(g, a, base, [a]) && Unfreed(g0, a, line, g)
    && (forall x :: x in line ==> Cleared(g, x))
  }

  lemma FreeingEnds(g0: State, a: Article, base: Subject, line: seq<Article>, stopper: Article?, g: State)
    requires Freeing(g0, a, base, line, stopper, g, |line|)
    ensures a in g.h.parent && a !in g.s.home
    ensures Detached(g0, a, base, line, stopper, ClearSibling(SetParent(g, a, null), a))
  {
    hide Wf, Grounded, Coherent, RestInLine;
    var v := SetParent(g, a, null);
    var g' := ClearSibling(v, a);
    assert Last([a]) == a;
    ClearSiblingKeepsWf(v, a);
    ClearSiblingCoherent(v, a, base);
    forall x | x in line ensures Cleared(g', x) {
      var j :| 0 <= j < |line| && line[j] == x;
      assert Cleared(g, line[j]);
    }
  }

  lemma ClearSiblingCoherent(v: State, a: Article, base: Subject)
    requires Coherent(v, a, a, base, [a][1..])
    ensures Coherent(ClearSibling(v, a), a, a, base, [a][1..])
  {
    var g' := ClearSibling(v, a);
    forall q | q in g'.s.home ensures Placed(g', q, a, base, [a][1..]) { assert Placed(v, q, a, base, [a][1..]); }
    forall q | q in g'.h.parent && q !in g'.s.home ensures Loose(g', q, a, a) { assert Loose(v, q, a, a); }
  }

  ghost predicate OnlyChild(g: State, p: Article?) {
    p != null && |Kids(g, p)| == 1
  }

  /** `line` is the fakes above `a` in `g0` that only `a` kept alive; with `a` they are out of
      the thread in `g`, and everything else is as it was. */
  ghost predicate LeftFake(g0: State, a: Article, base: Subject, line: seq<Article>, stopper: Article?, g: State) {
    FakeLine(g0, a, line, stopper) && Detached(g0, a, base, line, stopper, g)
  }

  /** `line` is all the fakes above `a` that only `a` keeps alive: what is above them, if
      anything, is a real article or has another child. */
  ghost predicate WholeLine(g: State, fakes: set<Article>, a: Article, line: seq<Article>, stopper: Article?) {
    && FakeLine(g, a, line, stopper) && (forall x :: x in line ==> x in fakes)
    && !(stopper in fakes && OnlyChild(g, stopper))
  }

  /** The `n` articles above `a`, nearest first, or all there are. */
  ghost function Ancestors(p: ParentMap, a: Article, n: nat): seq<Article> {
    if n == 0 || a !in p || p[a] == null then [] else [p[a]] + Ancestors(p, p[a], n - 1)
  }

  /** The `n` articles above `a` are that line. */
  ghost predicate LineAbove(g: State, fakes: set<Article>, a: Article, n: nat) {
    WholeLine(g, fakes, a, Ancestors(g.h.parent, a, n), Up(g.h.parent, a, n + 1)) && |Ancestors(g.h.parent, a, n)| == n
  }

  lemma {:induction false} LineIsAncestors(p: ParentMap, a: Article, line: seq<Article>)
    requires forall i :: 0 <= i < |line| ==> Up(p, a, i + 1) == line[i]
    ensures Ancestors(p, a, |line|) == line
  {
    if line != [] {
      assert Up(p, a, 0 + 1) == line[0];
      assert a in p && Up(p, a, 1) == Up(p, p[a], 0);
      forall i | 0 <= i < |line| - 1 ensures Up(p, line[0], i + 1) == line[1..][i] {
        assert Up(p, a, i + 1 + 1) == line[i + 1];
      }
      LineIsAncestors(p, line[0], line[1..]);
    }
  }

  lemma WholeIsAbove(g: State, fakes: set<Article>, a: Article, line: seq<Article>, stopper: Article?)
    requires WholeLine(g, fakes, a, line, stopper)
    ensures LineAbove(g, fakes, a, |line|) && Ancestors(g.h.parent, a, |line|) == line
  {
    hide Up, OnlyChild;
    LineIsAncestors(g.h.parent, a, line);
  }

  lemma WholeSame(g0: State, g1: State, fakes: set<Article>, a: Article, line: seq<Article>, stopper: Article?)
    requires WholeLine(g1, fakes, a, line, stopper) && g1.h.parent == g0.h.parent && g1.s.kids == g0.s.kids
    ensures WholeLine(g0, fakes, a, line, stopper)
  {
    hide FakeLine;
    LineSame(g0, g1, a, line, stopper);
  }

  /** There is only one such line. */
  lemma OneLine(g: State, fakes: set<Article>, a: Article, line: seq<Article>, stopper: Article?,
                line': seq<Article>, stopper': Article?)
    requires WholeLine(g, fakes, a, line, stopper) && WholeLine(g, fakes, a, line', stopper')
    ensures line == line' && stopper == stopper'
  {
    hide Up, Kids;
    if |line| < |line'| {
      StopsTooSoon(g, fakes, a, line, stopper, line', stopper');
    } else if |line'| < |line| {
      StopsTooSoon(g, fakes, a, line', stopper', line, stopper);
    }
    forall i | 0 <= i < |line| && i < |line'| ensures line[i] == line'[i] {
      assert Up(g.h.parent, a, i + 1) == line[i] && Up(g.h.parent, a, i + 1) == line'[i];
    }
  }

  lemma StopsTooSoon(g: State, fakes: set<Article>, a: Article, line: seq<Article>, stopper: Article?,
                     line': seq<Article>, stopper': Article?)
    requires FakeLine(g, a, line, stopper) && WholeLine(g, fakes, a, line', stopper') && |line| < |line'|
    ensures stopper in fakes && OnlyChild(g, stopper)
  {
    hide Up, Kids;
    var i := |line|;
    assert Up(g.h.parent, a, i + 1) == line'[i] && line'[i] in line';
  }

  /** Whether the article itself counts as a fake does not matter. */
  lemma WasWhole(g: State, fakes: set<Article>, a: Article, fake: Subject, line: seq<Article>, stopper: Article?)
    requires Replaced(g, a, fake) && WholeLine(g, fakes - {a}, a, line, stopper)
    ensures WholeLine(g, fakes, a, line, stopper)
  {
    hide FakeLine, OnlyChild;
    ReplacedParts(g, a, fake);
    LineWithout(g, a, line, stopper);
  }

  /** The freeing loop stops no sooner than at the stopper. */
  lemma LineEnds(g0: State, a: Article, base: Subject, line: seq<Article>, stopper: Article?, g: State, k: nat)
    requires Freeing(g0, a, base, line, stopper, g, k) && k < |line|
    ensures line[k] != stopper
  {
    hide Wf, Chained, Unfreed, Cleared, RestInLine;
    assert line[k] in line;
  }

  lemma FakeLineStarts(g: State, a: Article)
    requires a in g.h.parent
    ensures FakeLine(g, a, [], g.h.parent[a])
  {
    assert Up(g.h.parent, a, 0 + 1) == Up(g.h.parent, g.h.parent[a], 0);
  }

  lemma GroundedEnds(p: ParentMap, a: Article)
    requires Grounded(p) && a in p
    ensures exists n: nat :: Up(p, a, n) == null
  {
    assert Ends(p, a);
  }

  /** At the top of its thread an article has no fakes above it. */
  lemma NoLine(g: State, a: Article, line: seq<Article>, stopper: Article?)
    requires FakeLine(g, a, line, stopper) && a in g.h.parent
    ensures Par(g, a) == null ==> line == []
  {
    if line != [] {
      assert Up(g.h.parent, a, 0 + 1) == line[0];
      assert Up(g.h.parent, a, 0 + 1) == Up(g.h.parent, g.h.parent[a], 0);
    }
  }

  /** Neither the line nor what is above it is the article. */
  lemma LineWithout(g: State, a: Article, line: seq<Article>, stopper: Article?)
    requires Grounded(g.h.parent) && a in g.h.parent && FakeLine(g, a, line, stopper)
    ensures a !in line && stopper != a
  {
    hide Grounded, Kids;
    LineDiffers(g, a, line, stopper);
    assert Up(g.h.parent, a, 0) == a;
    NeverTwice(g.h.parent, a, 0, |line| + 1);
  }

  lemma LeftLine(g0: State, a: Article, base: Subject, line: seq<Article>, stopper: Article?, g: State)
    requires LeftFake(g0, a, base, line, stopper, g) && Grounded(g0.h.parent) && a in g0.h.parent
    ensures a !in line && stopper != a
  {
    hide Grounded, FakeLine, Detached;
    LineWithout(g0, a, line, stopper);
  }

  /** Where the freeing loop starts. */
  lemma LineFirst(g0: State, a: Article, line: seq<Article>, stopper: Article?, g: State)
    requires FakeLine(g0, a, line, stopper) && g.h.parent == g0.h.parent && a in g0.h.parent
    ensures g.h.parent[a] == if line == [] then stopper else line[0]
  {
    assert Up(g0.h.parent, a, 0 + 1) == Up(g0.h.parent, g0.h.parent[a], 0);
  }

  lemma TidySubject(g: State, a: Article)
    requires Tidy(g) && a in g.s.home
    ensures a in g.h.parent && Subj(g, a) != null && Subj(g, a) in HomeRing(g, a)
  {
    hide Wf, Grounded;
    assert Placed(g, a, null, null, []);
    HomeFacts(g, a);
    SubjectKnown(g, a);
    RingFacts(g, Subj(g, a));
  }

  /** What leaving a thread goes by. */
  lemma LeavingFacts(g: State, fakes: set<Article>, a: Article, base: Subject, line: seq<Article>, stopper: Article?)
    requires Tidy(g) && a in g.s.home && Subj(g, a) == base && WholeLine(g, fakes, a, line, stopper)
    ensures Wf(g.h, g.s) && a in g.h.parent && Subj(g, a) != null && base in HomeRing(g, a)
    ensures AfterUnlink(g, a).h.parent == g.h.parent && Freeing(g, a, base, line, stopper, AfterUnlink(g, a), 0)
    ensures FakeLine(g, a, line, stopper) && (Par(g, a) == null ==> line == [])
  {
    hide Wf, Grounded, Coherent, FakeLine, OnlyChild, Freeing, AfterUnlink;
    TidySubject(g, a);
    NoLine(g, a, line, stopper);
    FreeingStarts(g, a, line, stopper);
    UnlinkParents(g, a);
  }

  lemma LeftSame(g0: State, g1: State, a: Article, base: Subject, line: seq<Article>, stopper: Article?, g: State)
    requires LeftFake(g1, a, base, line, stopper, g)
    requires g1.h.parent == g0.h.parent && g1.h.subj == g0.h.subj && g1.h.date == g0.h.date && g1.s.kids == g0.s.kids
    ensures LeftFake(g0, a, base, line, stopper, g) && OnlyChild(g0, stopper) == OnlyChild(g1, stopper)
  {
    hide Chained, FakeLine, Cleared;
    LineSame(g0, g1, a, line, stopper);
  }

  lemma LineSame(g0: State, g1: State, a: Article, line: seq<Article>, stopper: Article?)
    requires FakeLine(g1, a, line, stopper) && g1.h.parent == g0.h.parent && g1.s.kids == g0.s.kids
    ensures FakeLine(g0, a, line, stopper)
  {
    hide Up;
  }
}
