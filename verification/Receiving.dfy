/** From the forest before an article arrives to the forest its references are followed in
    (libtrn/Article.cpp, lines 800-961): what a caller can tell beforehand about the fakes
    that will be freed, the references that will count, and the order of dates. */
module Receiving {
  import opened Forest
  import opened Joining
  import opened Ancestry
  import opened Placing
  import opened Settling
  import opened Detaching
  import opened Ordering
  import opened Mixing
  import opened Replacing
  import opened References

  // ---- The fakes above the place of a fake -----------------------------------------------------------

  lemma {:induction false} UpBeside(p: ParentMap, a: Article, x: Article?, n: nat)
    requires a !in p && x != a && forall b :: b in p ==> p[b] != a
    ensures Up(p[a := null], x, n) == Up(p, x, n)
    decreases n
  {
    if n > 0 && x != null && x in p {
      UpBeside(p, a, p[x], n - 1);
    }
  }

  /** The line above an article is the same before another one is cached. */
  lemma ReceivedLine(g: State, a: Article, date: int, subject: Subject, f: Article, line: seq<Article>, stopper: Article?)
    requires Unknown(g, a) && f != a && FakeLine(Received(g, a, date, subject), f, line, stopper)
    requires Domains(g.h, g.s) && Targets(g.h, g.s) && f in g.h.parent
    ensures FakeLine(g, f, line, stopper) && OnlyChild(g, stopper) == OnlyChild(Received(g, a, date, subject), stopper)
  {
    hide Up;
    var p, n := g.h.parent, |line|;
    forall j: nat | j <= n + 1 ensures Up(p, f, j) == Up(p[a := null], f, j) && Up(p, f, j) != a {
      UpBeside(p, a, f, j);
      UpNotTo(p, a, f, j);
    }
    assert Received(g, a, date, subject).h.parent == p[a := null];
    forall i | 0 <= i < n ensures Up(p, f, i + 1) == line[i] && Kids(g, line[i]) == [Below(f, line, i)] {
      assert Up(p[a := null], f, i + 1) == line[i];
    }
  }

  lemma {:induction false} UpNotTo(p: ParentMap, a: Article, x: Article?, n: nat)
    requires x != a && forall b :: b in p ==> p[b] != a
    ensures Up(p, x, n) != a
    decreases n
  {
    if n > 0 && x != null && x in p {
      UpNotTo(p, a, p[x], n - 1);
    }
  }

  /** The line above the article is the one that was above the fake it replaced. */
  lemma RenamedLine(g: State, f: Article, a: Article, line: seq<Article>, stopper: Article?)
    requires Spare(g, f, a) && Grounded(g.h.parent) && Domains(g.h, g.s) && FakeLine(Renamed(g, f, a), a, line, stopper)
    ensures FakeLine(g, f, line, stopper) && OnlyChild(g, stopper) == OnlyChild(Renamed(g, f, a), stopper)
  {
    hide Wf, Grounded, Renamed, Up, SwapIn;
    var p, n := g.h.parent, |line|;
    forall i: nat | i <= n ensures Up(p, f, i + 1) == if i < n then line[i] else stopper {
      RenamedUp(g, f, a, i + 1);
    }
    forall i | 0 <= i < n ensures Up(p, f, i + 1) == line[i] && Kids(g, line[i]) == [Below(f, line, i)] {
      RenamedUp(g, f, a, i + 1);
      RenamedOnly(g, f, a, line[i], Below(a, line, i));
      if i > 0 {
        assert Up(p, f, i - 1 + 1) == line[i - 1];
        RenamedUp(g, f, a, i);
      }
    }
    RenamedUp(g, f, a, n + 1);
    if stopper != null {
      RenamedReads(g, f, a, stopper);
      SwapInLength(Kids(g, stopper), f, a);
    }
  }

  lemma SwapInLength(l: seq<Article>, f: Article, a: Article)
    ensures |SwapIn(l, f, a)| == |l|
  {
  }

  lemma RenamedUp(g: State, f: Article, a: Article, n: nat)
    requires Spare(g, f, a) && Grounded(g.h.parent) && Domains(g.h, g.s) && n > 0
    ensures Up(Renamed(g, f, a).h.parent, a, n) == Up(g.h.parent, f, n) != f && Up(g.h.parent, f, n) != a
    ensures Up(g.h.parent, f, n) != null ==> Up(g.h.parent, f, n) in g.h.parent
  {
    hide Wf, Grounded, Renamed, SwapMap;
    var p := g.h.parent;
    WfDomains(g);
    RenamedSiblings(g, f, a);
    SwappedUp(p, f, a, f, n);
    assert Up(p, f, 0) == f;
    NeverTwice(p, f, 0, n);
    UpNotTo(p, a, f, n);
    UpInside(p, f, n);
  }

  lemma {:induction false} UpInside(p: ParentMap, x: Article?, n: nat)
    requires (x != null ==> x in p) && forall q {:trigger ParentKnown(p, q)} :: q in p ==> ParentKnown(p, q)
    ensures Up(p, x, n) != null ==> Up(p, x, n) in p
    decreases n
  {
    if n > 0 && x != null {
      assert ParentKnown(p, x);
      UpInside(p, p[x], n - 1);
    }
  }

  /** An only child stays one. */
  lemma RenamedOnly(g: State, f: Article, a: Article, q: Article, x: Article)
    requires Spare(g, f, a) && Domains(g.h, g.s) && q in g.h.parent && q != f && q != a && Kids(Renamed(g, f, a), q) == [x]
    ensures Kids(g, q) == [if x == a then f else x]
  {
    hide Wf, Renamed;
    RenamedReads(g, f, a, q);
    NeverListed(g, a);
    var l := Kids(g, q);
    assert |l| == 1 && SwapIn(l, f, a)[0] == x && l[0] in l;
  }

  // ---- The references that will count ------------------------------------------------------------------

  /** The forest once the article `a` is cached and, if its message-id belonged to fake `f`,
      has taken the place of that. */
  ghost function Arrived(g: State, a: Article, date: int, subject: Subject, f: Article?): State
    requires Domains(g.h, g.s) && (f != null ==> f in g.h.parent)
  {
    var g1 := Received(g, a, date, subject);
    if f == null then g1 else ReceivedDomains(g, a, date, subject); Renamed(g1, f, a)
  }

  lemma ReceivedDomains(g: State, a: Article, date: int, subject: Subject)
    requires Domains(g.h, g.s)
    ensures Domains(Received(g, a, date, subject).h, Received(g, a, date, subject).s)
    ensures Received(g, a, date, subject).h.parent.Keys == g.h.parent.Keys + {a}
  {
  }

  /** Nobody else's subject or date changes. */
  lemma ArrivedReads(g: State, a: Article, date: int, subject: Subject, f: Article?, line: seq<Article>, x: Article)
    requires Domains(g.h, g.s) && a !in g.h.parent && (f != null ==> f in g.h.parent) && x in g.h.parent && x != f
    ensures
      var g2 := Forgotten(Arrived(g, a, date, subject, f), line);
      Subj(g2, x) == Subj(Forgotten(g, line), x) && Date(g2, x) == Date(Forgotten(g, line), x)
  {
    hide Renamed, Domains;
    var g1, g2 := Received(g, a, date, subject), Arrived(g, a, date, subject, f);
    ReceivedDomains(g, a, date, subject);
    if f != null {
      RenamedKeySets(g1, f, a);
    }
    KeptReads(g, g2, line, x);
  }

  lemma KeptReads(g: State, g2: State, line: seq<Article>, x: Article)
    requires (x in g.h.subj <==> x in g2.h.subj) && (x in g.h.date <==> x in g2.h.date)
    requires (x in g.h.subj ==> g2.h.subj[x] == g.h.subj[x]) && (x in g.h.date ==> g2.h.date[x] == g.h.date[x])
    ensures Subj(Forgotten(g2, line), x) == Subj(Forgotten(g, line), x)
    ensures Date(Forgotten(g2, line), x) == Date(Forgotten(g, line), x)
  {
  }

  /** Which references count can be told before the article arrives. */
  lemma ArrivedWalk(g: State, table: map<string, Article>, a: Article, date: int, subject: Subject, f: Article?,
                    line: seq<Article>, refs: seq<Reference>, own: string)
    requires Domains(g.h, g.s) && a !in g.h.parent && (f != null ==> f in g.h.parent && own in table && table[own] == f)
    requires f == null ==> own !in table
    requires (forall id :: id in table ==> table[id] in g.h.parent)
    requires forall id, id' :: id in table && id' in table && table[id] == table[id'] ==> id == id'
    ensures WalkOf(Forgotten(Arrived(g, a, date, subject, f), line), table[own := a], a, refs)
            == WalkOf(Forgotten(g, line), table, null, Others(refs, own))
  {
    hide Arrived, Forgotten;
    var g1, g2 := Forgotten(g, line), Forgotten(Arrived(g, a, date, subject, f), line);
    forall id | id != own ensures KindOf(g2, table[own := a], a, id) == KindOf(g1, table, null, id) {
      if id in table {
        ArrivedReads(g, a, date, subject, f, line, table[id]);
      }
    }
    OwnIdIgnored(g1, table, a, g2, table[own := a], refs, own);
  }

  lemma ForgottenNothing(g: State)
    ensures Forgotten(g, []) == g
  {
    assert Fill(g.h.subj, [], null) == g.h.subj && Fill(g.h.date, [], 0) == g.h.date;
  }

  /** The fakes that were freed are what the walk finds without subject and date. */
  lemma LeftWalk(g0: State, a: Article, base: Subject, line: seq<Article>, stopper: Article?, g: State,
                 table: map<string, Article>, refs: seq<Reference>)
    requires LeftFake(g0, a, base, line, stopper, g) && Domains(g0.h, g0.s) && a !in line
    requires forall id :: id in table ==> table[id] in g0.h.parent
    ensures WalkOf(g, table, a, refs) == WalkOf(Forgotten(g0, line), table, a, refs)
  {
    hide FakeLine, Chained;
    forall id | id in table
      ensures Subj(g, table[id]) == Subj(Forgotten(g0, line), table[id]) && Date(g, table[id]) == Date(Forgotten(g0, line), table[id])
    {
      assert table[id] in line ==> Cleared(g, table[id]);
    }
    WalkReads(g, Forgotten(g0, line), table, a, refs);
  }

  /** References that are all different repeat nothing, whatever they mean. */
  lemma DifferentSuffice(g: State, fakes: set<Article>, table: map<string, Article>, place: Article?,
                         refs: seq<Reference>, own: string)
    requires AllDifferent(refs)
    ensures NothingRepeated(g, fakes, table, null, place, Others(refs, own))
  {
    hide LineAbove, WalkOf, Others, AllDifferent;
    OthersDifferent(refs, own);
    DifferentNeverRepeat(g, table, null, Others(refs, own));
    if place != null {
      forall n: nat ensures !WalkOf(Forgotten(g, Ancestors(g.h.parent, place, n)), table, null, Others(refs, own)).repeated {
        DifferentNeverRepeat(Forgotten(g, Ancestors(g.h.parent, place, n)), table, null, Others(refs, own));
      }
    }
  }

  lemma {:induction false} OthersDifferent(refs: seq<Reference>, own: string)
    requires AllDifferent(refs)
    ensures AllDifferent(Others(refs, own)) && forall r :: r in Others(refs, own) ==> r in refs
  {
    if refs != [] {
      var n := |refs| - 1;
      OthersDifferent(refs[..n], own);
      assert refs[n].MessageId? ==> refs[n] !in refs[..n];
    }
  }

  /** No reference that counts is repeated: with `own` being the article itself, and without the
      fakes above `place`, if the article leaves such a place. */
  ghost predicate NothingRepeated(g: State, fakes: set<Article>, table: map<string, Article>, own: Article?,
                                  place: Article?, refs: seq<Reference>) {
    if place == null then !WalkOf(g, table, own, refs).repeated
    else forall n: nat :: LineAbove(g, fakes, place, n) ==>
           !WalkOf(Forgotten(g, Ancestors(g.h.parent, place, n)), table, own, refs).repeated
  }

  /** The fake that an article of this message-id replaces. */
  ghost function Fake(table: map<string, Article>, id: string): Article? {
    if id in table && table[id].tmpMem then table[id] else null
  }

  /** ... and whose place in a thread the article leaves again. */
  ghost function Leaving(g: State, f: Article?): Article? {
    if f != null && Subj(g, f) != null then f else null
  }

  /** What deciding on an article has done: it has its message-id now, unless that is another real
      article's; and the place of the fake that had it. */
  ghost predicate Validated(g0: State, t0: map<string, Article>, id: string, a: Article, base: Subject, valid: bool,
                            fakeHadSubj: Subject?, g: State, t: map<string, Article>) {
    && valid == (id !in t0 || t0[id] == a || t0[id].tmpMem)
    && t == (if valid then t0[id := a] else t0)
    && (if TakesOver(t0, id, a) then
          && Domains(g0.h, g0.s) && t0[id] in g0.h.parent && g == Renamed(g0, t0[id], a) && fakeHadSubj == Subj(g0, t0[id])
          && (if fakeHadSubj != null then Replaced(g, a, fakeHadSubj) && Subj(g, a) == base else Waiting(g, a, base))
        else g == g0 && fakeHadSubj == null)
    && (Dated(g0) ==> DatedBut(g, a))
  }

  ghost predicate TakesOver(t: map<string, Article>, id: string, a: Article) {
    id in t && t[id] != a && t[id].tmpMem
  }

  lemma ValidatedParts(g0: State, t0: map<string, Article>, id: string, a: Article, base: Subject, valid: bool,
                       fakeHadSubj: Subject?, g: State, t: map<string, Article>)
    requires Validated(g0, t0, id, a, base, valid, fakeHadSubj, g, t)
    ensures valid == (id !in t0 || t0[id] == a || t0[id].tmpMem)
    ensures !valid ==> g == g0 && t == t0
    ensures id !in t0 ==> g == g0 && fakeHadSubj == null
  {
    hide Domains, Renamed, Replaced, Waiting, Dated, DatedBut;
  }

  /** Nothing stood in the way, or another article did. */
  lemma ValidatedPlain(g: State, t0: map<string, Article>, id: string, a: Article, base: Subject)
    requires !TakesOver(t0, id, a)
    ensures
      var valid := id !in t0 || t0[id] == a;
      Validated(g, t0, id, a, base, valid, null, g, if valid then t0[id := a] else t0)
  {
    hide Domains, Renamed, Replaced, Waiting, Dated, DatedBut;
    if Dated(g) { DatedIsDatedBut(g, a); }
    assert id in t0 && t0[id] == a ==> t0[id := a] == t0;
  }

  /** The article has arrived, in the place of the fake that had its message-id if there is one. */
  ghost predicate Admitted(g0: State, t0: map<string, Article>, id: string, a: Article, date: int, subject: Subject,
                           fakeHadSubj: Subject?, g: State, t: map<string, Article>) {
    var f := Fake(t0, id);
    && Domains(g0.h, g0.s) && (f != null ==> f in g0.h.parent) && a !in g0.h.parent && t == t0[id := a]
    && g == Arrived(g0, a, date, subject, f) && fakeHadSubj == (if f == null then null else Subj(g0, f))
    && (Dated(g0) ==> DatedBut(g, a))
  }

  lemma AdmittedParts(g0: State, t0: map<string, Article>, id: string, a: Article, date: int, subject: Subject,
                      fakeHadSubj: Subject?, g: State, t: map<string, Article>)
    requires Admitted(g0, t0, id, a, date, subject, fakeHadSubj, g, t)
    ensures a !in g0.h.parent && t == t0[id := a]
    ensures fakeHadSubj == if Fake(t0, id) == null then null else Subj(g0, Fake(t0, id))
  {
    hide Domains, Arrived, Dated, DatedBut;
  }

  lemma AdmittedNow(g0: State, t0: map<string, Article>, id: string, a: Article, date: int, subject: Subject,
                    fakeHadSubj: Subject?, g: State, t: map<string, Article>)
    requires Tidy(g0) && a !in g0.h.parent && (id in t0 ==> t0[id] != a && t0[id] in g0.h.parent)
    requires Validated(Received(g0, a, date, subject), t0, id, a, subject, true, fakeHadSubj, g, t)
    requires Dated(g0) ==> Dated(Received(g0, a, date, subject))
    ensures Admitted(g0, t0, id, a, date, subject, fakeHadSubj, g, t)
    ensures if fakeHadSubj != null then Replaced(g, a, fakeHadSubj) && Subj(g, a) == subject
            else id in t0 ==> Waiting(g, a, subject)
  {
    hide Tidy, Renamed, Dated, DatedBut, Domains, Replaced, Waiting;
    TidyParts(g0);
  }

  lemma ArrivedLine(g: State, fakes: set<Article>, a: Article, date: int, subject: Subject, f: Article, n: nat)
    requires Tidy(g) && Unknown(g, a) && a !in g.h.subj && a !in g.h.date && subject in g.h.thread && f in g.h.parent
    requires Domains(g.h, g.s) && LineAbove(Arrived(g, a, date, subject, f), fakes - {f}, a, n)
    ensures LineAbove(g, fakes, f, n)
    ensures Ancestors(Arrived(g, a, date, subject, f).h.parent, a, n) == Ancestors(g.h.parent, f, n)
  {
    hide Wf, Tidy, Unknown, Received, Renamed, Waiting, Up, OnlyChild, FakeLine, Domains, Spare;
    var g1, g2 := Received(g, a, date, subject), Arrived(g, a, date, subject, f);
    var line, stopper := Ancestors(g2.h.parent, a, n), Up(g2.h.parent, a, n + 1);
    TidyParts(g);
    ReceivedWaits(g, a, date, subject);
    ReceivedDomains(g, a, date, subject);
    KnownApart(g, a, f);
    WaitingIsSpare(g1, a, subject, f);
    RenamedLine(g1, f, a, line, stopper);
    ReceivedLine(g, a, date, subject, f, line, stopper);
    LineWithout(g, f, line, stopper);
    assert WholeLine(g, fakes, f, line, stopper);
    WholeIsAbove(g, fakes, f, line, stopper);
  }

  lemma KnownApart(g: State, a: Article, f: Article)
    requires Unknown(g, a) && f in g.h.parent
    ensures f != a
  {
  }

  lemma TidyParts(g: State)
    requires Tidy(g)
    ensures Wf(g.h, g.s) && Domains(g.h, g.s) && Targets(g.h, g.s) && Grounded(g.h.parent)
  {
    hide Grounded, Coherent;
  }

  /** What was not repeated before the article arrived is not when it is threaded. */
  lemma ArrivedRepeats(g: State, fakes: set<Article>, table: map<string, Article>, a: Article, date: int, subject: Subject,
                       id: string, refs: seq<Reference>)
    requires Tidy(g) && Unknown(g, a) && a !in g.h.subj && a !in g.h.date && subject in g.h.thread
    requires (forall i :: i in table ==> table[i] in g.h.parent)
    requires forall i, i' :: i in table && i' in table && table[i] == table[i'] ==> i == i'
    requires id in table ==> table[id].tmpMem
    requires NothingRepeated(g, fakes, table, null, Leaving(g, Fake(table, id)), Others(refs, id))
    ensures Domains(g.h, g.s)
    ensures
      var f := Fake(table, id);
      NothingRepeated(Arrived(g, a, date, subject, f), fakes - {f}, table[id := a], a,
                      if Leaving(g, f) == null then null else a, refs)
  {
    hide Wf, Tidy, Unknown, Arrived, WalkOf, Forgotten, LineAbove, Domains;
    var f := Fake(table, id);
    TidyParts(g);
    StillUnknown(g, a);
    if Leaving(g, f) == null {
      ForgottenNothing(g);
      ForgottenNothing(Arrived(g, a, date, subject, f));
      ArrivedWalk(g, table, a, date, subject, f, [], refs, id);
    } else {
      var g2 := Arrived(g, a, date, subject, f);
      forall n: nat | LineAbove(g2, fakes - {f}, a, n)
        ensures !WalkOf(Forgotten(g2, Ancestors(g2.h.parent, a, n)), table[id := a], a, refs).repeated
      {
        ArrivedLine(g, fakes, a, date, subject, f, n);
        ArrivedWalk(g, table, a, date, subject, f, Ancestors(g.h.parent, f, n), refs, id);
      }
    }
  }

  lemma StillUnknown(g: State, a: Article)
    requires Unknown(g, a)
    ensures a !in g.h.parent
  {
  }

  /** The article has left the place of the fake it replaced, if it replaced one of subject
      `fake`: with it go the fakes of `line`, and all is in order of dates then exactly unless
      merging the two threads put some other article out of order. */
  ghost predicate Departed(g0: State, fakes: set<Article>, a: Article, fake: Subject?, base: Subject,
                           line: seq<Article>, stopper: Article?, start: State) {
    && (if fake == null then start == g0
        else
          && LeftFake(g0, a, base, line, stopper, start) && WholeLine(g0, fakes, a, line, stopper)
          && ThreadsJoined(g0, fake, base, start))
    && (Dated(g0) ==> Dated(start))
    && (fake != null && DatedBut(g0, a) ==> if OutOfOrder(g0, a, fake) then Mixed(start, base) else Dated(start))
  }

  // ---- The order of dates --------------------------------------------------------------------------------

  /** The fake as it would be with the date and subject of the article that takes its place. */
  ghost function Rewritten(g: State, f: Article, date: int, subject: Subject): State {
    SetSubj(SetDate(g, f, date), f, subject)
  }

  lemma SwappedBehind(l: seq<Article>, f: Article, a: Article, y: Article)
    requires a !in l && f != a && y != f
    ensures y != a && Behind(SwapIn(l, f, a), a, y) <==> Behind(l, f, y) && y != a
  {
    var l' := SwapIn(l, f, a);
    if Behind(l, f, y) {
      var i, j :| 0 <= i < j < |l| && l[i] == f && l[j] == y;
      assert l'[i] == a && l'[j] == y;
    }
    if y != a && Behind(l', a, y) {
      var i, j :| 0 <= i < j < |l'| && l'[i] == a && l'[j] == y;
      assert l[i] in l && l[i] == f && l[j] == y;
    }
  }

  /** Who takes the place makes no difference to a clash, only the date does. */
  lemma SwappedClash(date: Dates, date': Dates, l1: seq<Article>, l2: seq<Article>, f: Article, a: Article)
    requires NoDup(l1) && a !in l1 && a !in l2 && f !in l2 && f != a && DateOf(date', a) == DateOf(date, f)
    requires forall x :: x != f && x != a ==> DateOf(date', x) == DateOf(date, x)
    ensures Clash(date', SwapIn(l1, f, a), l2, a) <==> Clash(date, l1, l2, f)
  {
    hide SwapIn;
    var l1' := SwapIn(l1, f, a);
    if Clash(date, l1, l2, f) {
      var i, j :| 0 <= i < |l1| && 0 <= j < |l2| && Clashing(date, l1, l2, f, l1[i], l2[j]);
      NotItself(l1, f, l1[i]);
      SwappedBehind(l1, f, a, l1[i]);
      assert l1[i] in l1 && l2[j] in l2;
      ClashingIsClash(date', l1', l2, a, l1[i], l2[j]);
    }
    if Clash(date', l1', l2, a) {
      var i, j :| 0 <= i < |l1'| && 0 <= j < |l2| && Clashing(date', l1', l2, a, l1'[i], l2[j]);
      var y := l1'[i];
      SwapInNoDup(l1, f, a);
      NotItself(l1', a, y);
      assert y in l1' && l2[j] in l2;
      SwapInMembers(l1, f, a, y);
      SwappedBehind(l1, f, a, y);
      ClashingIsClash(date, l1, l2, f, y, l2[j]);
    }
  }

  /** The tops of different threads have nobody in common. */
  lemma TopsApart(g: State, f: Article, t: Subject, u: Subject)
    requires Wf(g.h, g.s) && t in g.h.thread && u in g.h.thread && RingAt(g, t) != RingAt(g, u) && f in TopsOf(g, t)
    ensures f !in TopsOf(g, u)
  {
    hide Wf;
    TopsHomes(g, t, f);
    if f in TopsOf(g, u) {
      TopsHomes(g, u, f);
    }
  }

  lemma SwapInNone(l: seq<Article>, f: Article, a: Article)
    requires f !in l
    ensures SwapIn(l, f, a) == l
  {
    forall i | 0 <= i < |l| ensures SwapIn(l, f, a)[i] == l[i] {
      assert l[i] in l;
    }
  }

  /** Whether the merge will leave some article out of date order can be told before the
      article takes the place of the fake. */
  lemma RenamedOutOfOrder(g: State, f: Article, a: Article, base: Subject, date: int)
    requires Waiting(g, a, base) && f in g.h.parent && f != a && Subj(g, f) != null && Date(g, a) == date
    ensures Domains(g.h, g.s)
    ensures OutOfOrder(Renamed(g, f, a), a, Subj(g, f)) <==> OutOfOrder(Rewritten(g, f, date, base), f, Subj(g, f))
  {
    hide Wf, Waiting, Renamed, Clash, Grounded, Coherent, SwapIn;
    WaitingIsSpare(g, a, base, f);
    WfDomains(g);
    var fs, g', w := Subj(g, f), Renamed(g, f, a), Rewritten(g, f, date, base);
    RenamedKeySets(g, f, a);
    RenamedReads(g, f, a, a);
    SubjectKnown(g, f);
    RenamedSubject(g, f, a, fs);
    RenamedSubject(g, f, a, base);
    RewrittenReads(g, f, date, base);
    if RingAt(g, fs) != RingAt(g, base) && Par(g, f) == null {
      TopsOfLinked(g, a, base, f);
      TopsApart(g, f, fs, base);
      NeverListed(g, a);
      TopsDup(g, fs);
      SwapInNone(Tops(g, base), f, a);
      SwappedClash(w.h.date, g'.h.date, Tops(g, fs), Tops(g, base), f, a);
    }
  }

  lemma RewrittenReads(g: State, f: Article, date: int, base: Subject)
    requires Domains(g.h, g.s) && f in g.h.parent
    ensures
      var w := Rewritten(g, f, date, base);
      w.s == g.s && w.h.parent == g.h.parent && Subj(w, f) == base && w.h.date == g.h.date[f := date]
  {
  }

  lemma TopsOfLinked(g: State, a: Article, base: Subject, f: Article)
    requires Wf(g.h, g.s) && Coherent(g, a, a, base, []) && f in g.h.parent && f != a && Subj(g, f) != null && Par(g, f) == null
    ensures Subj(g, f) in g.h.thread && f in TopsOf(g, Subj(g, f))
  {
    hide Wf;
    SubjectKnown(g, f);
    assert f in g.s.home by { assert f !in g.s.home ==> Loose(g, f, a, a); }
    assert Placed(g, f, a, base, []);
    HomeFacts(g, f);
    SameRingSameTops(g, g.s.home[f], Subj(g, f));
  }

  /** ... and before the article is cached. */
  lemma ReceivedOutOfOrder(g: State, a: Article, date: int, subject: Subject, f: Article)
    requires Wf(g.h, g.s) && Unknown(g, a) && f in g.h.parent && Subj(g, f) != null
    ensures OutOfOrder(Rewritten(Received(g, a, date, subject), f, date, subject), f, Subj(g, f))
            <==> OutOfOrder(Rewritten(g, f, date, subject), f, Subj(g, f))
  {
    hide Wf, Clash, Unknown, Received, Rewritten, Domains, OutOfOrder, Targets;
    WfDomains(g);
    var g1, fs := Received(g, a, date, subject), Subj(g, f);
    ReceivedParts(g, a, date, subject, f);
    RewrittenReads(g, f, date, subject);
    ReceivedDomains(g, a, date, subject);
    RewrittenReads(g1, f, date, subject);
    NeverListed(g, a);
    ClashReceived(g.h.date, date, Tops(g, fs), Tops(g, subject), f, a);
    SameOrder(Rewritten(g, f, date, subject), Rewritten(g1, f, date, subject), f, fs, subject);
  }

  lemma ClashReceived(dates: Dates, date: int, l1: seq<Article>, l2: seq<Article>, f: Article, a: Article)
    requires a !in l1 && a !in l2 && f != a
    ensures Clash(dates[a := date][f := date], l1, l2, f) <==> Clash(dates[f := date], l1, l2, f)
  {
    hide Clash;
    ClashReads(dates[f := date], dates[a := date][f := date], l1, l2, f, a);
  }

  lemma SameOrder(w: State, w1: State, f: Article, fs: Subject, subject: Subject)
    requires w.s.tops == w1.s.tops && w.s.ring == w1.s.ring && Subj(w, f) == Subj(w1, f) == subject
    requires (f in w.h.parent <==> f in w1.h.parent) && (f in w.h.parent ==> w.h.parent[f] == w1.h.parent[f])
    requires Clash(w.h.date, Tops(w, fs), Tops(w, subject), f) <==> Clash(w1.h.date, Tops(w, fs), Tops(w, subject), f)
    ensures OutOfOrder(w, f, fs) <==> OutOfOrder(w1, f, fs)
  {
    hide Clash;
  }

  lemma ReceivedParts(g: State, a: Article, date: int, subject: Subject, f: Article)
    requires Domains(g.h, g.s) && Unknown(g, a) && f in g.h.parent
    ensures
      var g1 := Received(g, a, date, subject);
      && g1.s.tops == g.s.tops && g1.s.ring == g.s.ring && f != a && Par(g1, f) == Par(g, f) && Subj(g1, f) == Subj(g, f)
      && g1.h.parent == g.h.parent[a := null]
      && g1.h.date == g.h.date[a := date] && a !in g.s.home
  {
  }

  lemma ClashReads(date: Dates, date': Dates, l1: seq<Article>, l2: seq<Article>, f: Article, a: Article)
    requires a !in l1 && a !in l2 && f != a
    requires forall x :: x != a ==> DateOf(date', x) == DateOf(date, x)
    ensures Clash(date', l1, l2, f) <==> Clash(date, l1, l2, f)
  {
    hide Behind;
    if Clash(date, l1, l2, f) {
      var i, j :| 0 <= i < |l1| && 0 <= j < |l2| && Clashing(date, l1, l2, f, l1[i], l2[j]);
      assert l1[i] in l1 && l2[j] in l2;
      ClashingIsClash(date', l1, l2, f, l1[i], l2[j]);
    }
    if Clash(date', l1, l2, f) {
      var i, j :| 0 <= i < |l1| && 0 <= j < |l2| && Clashing(date', l1, l2, f, l1[i], l2[j]);
      assert l1[i] in l1 && l2[j] in l2;
      ClashingIsClash(date, l1, l2, f, l1[i], l2[j]);
    }
  }

  /** The three lines of the argument together, for the article that arrives. */
  lemma ArrivedOutOfOrder(g: State, a: Article, date: int, subject: Subject, f: Article)
    requires Tidy(g) && Unknown(g, a) && a !in g.h.subj && a !in g.h.date && subject in g.h.thread
    requires f in g.h.parent && Subj(g, f) != null
    ensures Domains(g.h, g.s)
    ensures OutOfOrder(Arrived(g, a, date, subject, f), a, Subj(g, f))
            <==> OutOfOrder(Rewritten(g, f, date, subject), f, Subj(g, f))
  {
    hide Wf, Clash, Unknown, Received, Waiting, Coherent, Grounded, Rewritten, OutOfOrder, Renamed;
    WfDomains(g);
    ReceivedWaits(g, a, date, subject);
    ReceivedParts(g, a, date, subject, f);
    ReceivedDomains(g, a, date, subject);
    ReceivedOutOfOrder(g, a, date, subject, f);
    RenamedOutOfOrder(Received(g, a, date, subject), f, a, subject, date);
  }

  // ---- The arrival of an article, in terms of the forest before -------------------------------------------------

  /** Where only `a` may be out of order and `a` is in no list, all is in order. */
  lemma DatedUnlinked(g: State, a: Article)
    requires Wf(g.h, g.s) && a !in g.s.home && DatedBut(g, a)
    ensures Dated(g)
  {
    hide Wf, Sorted, SortedBut;
    NeverListed(g, a);
    forall p | p in g.s.kids ensures Sorted(g.h.date, g.s.kids[p]) { SortedWithout(g.h.date, g.s.kids[p], a); }
    forall t | t in g.s.tops ensures Sorted(g.h.date, g.s.tops[t]) { SortedWithout(g.h.date, g.s.tops[t], a); }
  }

  /** Merging the thread of the fake with that of the article's own subject will put some other
      article out of order of dates. */
  ghost predicate Disturbs(g: State, f: Article?, date: int, subject: Subject) {
    Leaving(g, f) != null && OutOfOrder(Rewritten(g, f, date, subject), f, Subj(g, f))
  }

  lemma ArrivedUnlinked(g: State, a: Article, date: int, subject: Subject, f: Article?)
    requires Tidy(g) && Unknown(g, a) && a !in g.h.subj && a !in g.h.date && subject in g.h.thread
    requires (f != null ==> f in g.h.parent && Subj(g, f) == null) && Domains(g.h, g.s)
    ensures var g2 := Arrived(g, a, date, subject, f); Wf(g2.h, g2.s) && a !in g2.s.home
  {
    hide Wf, Tidy, Unknown, Received, Renamed, Chained, Domains;
    var g1 := Received(g, a, date, subject);
    ReceivedWaits(g, a, date, subject);
    WaitingWf(g1, a, subject);
    if f == null {
      AloneElim(g1, a, subject);
    } else {
      KnownApart(g, a, f);
      ReceivedDomains(g, a, date, subject);
      ReceivedParts(g, a, date, subject, f);
      RenamedWaiting(g1, f, a, subject);
      WaitingWf(Renamed(g1, f, a), a, subject);
      AloneElim(Renamed(g1, f, a), a, subject);
    }
  }

  /** When the walk over the references starts the thread of the article is mixed up exactly if its
      arrival disturbs the order of dates. */
  lemma ArrivedOrder(g0: State, t0: map<string, Article>, fakes: set<Article>, id: string, a: Article, date: int,
                     subject: Subject, fakeHadSubj: Subject?, g: State, t: map<string, Article>,
                     line: seq<Article>, stopper: Article?, start: State)
    requires Tidy(g0) && Unknown(g0, a) && a !in g0.h.subj && a !in g0.h.date && subject in g0.h.thread && Dated(g0)
    requires Admitted(g0, t0, id, a, date, subject, fakeHadSubj, g, t)
    requires Departed(g, fakes, a, fakeHadSubj, subject, line, stopper, start)
    ensures if Disturbs(g0, Fake(t0, id), date, subject) then Mixed(start, subject) else Dated(start)
  {
    hide Wf, Tidy, Unknown, Arrived, Dated, DatedBut, Mixed, ThreadsJoined, OutOfOrder, Rewritten, LeftFake, WholeLine,
      Domains;
    var f := Fake(t0, id);
    if fakeHadSubj == null {
      ArrivedUnlinked(g0, a, date, subject, f);
      DatedUnlinked(g, a);
    } else {
      ArrivedOutOfOrder(g0, a, date, subject, f);
    }
  }

  /** The references lead to an article of a third thread, neither that of the article's own
      subject nor that of the fake it replaces. */
  ghost predicate LedElsewhere(g: State, table: map<string, Article>, id: string, subject: Subject, refs: seq<Reference>) {
    var f, led := Fake(table, id), LedTo(g, table, subject, WalkOf(g, table, null, Others(refs, id)));
    !Together(g, led, subject) && (f != null ==> RingAt(g, led) != RingAt(g, Subj(g, f)))
  }

  /** All the message-ids that count mean something other than the article itself; where the last
      one does, it is known before the walk. */
  lemma {:induction false} PathKinds(g: State, table: map<string, Article>, a: Article?, refs: seq<Reference>, i: nat)
    requires i < |WalkOf(g, table, a, refs).path|
    ensures
      var w := WalkOf(g, table, a, refs);
      var kind := KindOf(g, table, a, w.path[i]);
      kind == Fresh || (kind == Threaded && i == |w.path| - 1 && w.stopped)
  {
    hide KindOf;
    var rest := WalkOf(g, table, a, refs[..|refs| - 1]);
    if i < |rest.path| {
      PathKinds(g, table, a, refs[..|refs| - 1], i);
    }
  }

  lemma DisturbedParts(g: State, f: Article?, date: int, subject: Subject)
    requires Disturbs(g, f, date, subject)
    ensures f != null && Subj(g, f) != null && Par(g, f) == null && RingAt(g, Subj(g, f)) != RingAt(g, subject)
  {
    hide Clash;
  }

  lemma WholeIsLine(g: State, fakes: set<Article>, a: Article, line: seq<Article>, stopper: Article?)
    requires WholeLine(g, fakes, a, line, stopper)
    ensures FakeLine(g, a, line, stopper)
  {
    hide FakeLine, OnlyChild;
  }

  /** In the place of a fake at the top the article is at the top, and the threads are what they were. */
  lemma ArrivedAtTop(g: State, a: Article, date: int, subject: Subject, f: Article)
    requires Tidy(g) && Unknown(g, a) && a !in g.h.subj && a !in g.h.date && subject in g.h.thread && f in g.h.parent
    requires Domains(g.h, g.s)
    ensures
      var g2 := Arrived(g, a, date, subject, f);
      && a in g2.h.parent && g2.s.ring == g.s.ring && (Par(g, f) == null ==> Par(g2, a) == null)
      && g2.h.parent.Keys == g.h.parent.Keys + {a} - {f} && Domains(g2.h, g2.s)
  {
    hide Tidy, Unknown, Received, Renamed, Waiting, Domains, Wf;
    var g1 := Received(g, a, date, subject);
    KnownApart(g, a, f);
    ReceivedWaits(g, a, date, subject);
    ReceivedDomains(g, a, date, subject);
    ReceivedParts(g, a, date, subject, f);
    WaitingIsSpare(g1, a, subject, f);
    RenamedReads(g1, f, a, a);
    RenamedKeySets(g1, f, a);
    RenamedDomains(g1, f, a);
  }

  /** Where the references lead can be told before the article arrives. */
  lemma SameLead(g0: State, t0: map<string, Article>, id: string, a: Article, g: State, base: Subject, refs: seq<Reference>)
    requires forall i :: i in t0 && i != id ==> Subj(g, t0[i]) == Subj(g0, t0[i])
    ensures
      var w := WalkOf(g, t0[id := a], a, refs);
      LedTo(g, t0[id := a], base, w) == LedTo(g0, t0, base, w)
  {
    hide WalkOf;
    var w := WalkOf(g, t0[id := a], a, refs);
    if w.path != [] {
      PathKinds(g, t0[id := a], a, refs, |w.path| - 1);
    }
  }

  lemma DisturbedWalk(g0: State, t0: map<string, Article>, fakes: set<Article>, id: string, a: Article, date: int,
                      subject: Subject, mid: State, line: seq<Article>, stopper: Article?, start: State, refs: seq<Reference>)
    requires Tidy(g0) && Unknown(g0, a) && a !in g0.h.subj && a !in g0.h.date && subject in g0.h.thread
    requires (forall i :: i in t0 ==> t0[i] in g0.h.parent)
    requires forall i, i' :: i in t0 && i' in t0 && t0[i] == t0[i'] ==> i == i'
    requires Disturbs(g0, Fake(t0, id), date, subject)
    requires Admitted(g0, t0, id, a, date, subject, Subj(g0, Fake(t0, id)), mid, t0[id := a])
    requires Departed(mid, fakes, a, Subj(g0, Fake(t0, id)), subject, line, stopper, start)
    ensures WalkOf(start, t0[id := a], a, refs) == WalkOf(g0, t0, null, Others(refs, id))
    ensures mid.s.ring == g0.s.ring && forall i :: i in t0 && i != id ==> Subj(start, t0[i]) == Subj(g0, t0[i])
  {
    hide Wf, Tidy, Unknown, Arrived, Dated, DatedBut, Mixed, ThreadsJoined, OutOfOrder, Rewritten, LeftFake, WholeLine,
      Domains, Disturbs, WalkOf, Forgotten, Others;
    var f := Fake(t0, id);
    DisturbedParts(g0, f, date, subject);
    ArrivedAtTop(g0, a, date, subject, f);
    WholeIsLine(mid, fakes, a, line, stopper);
    NoLine(mid, a, line, stopper);
    TidyParts(g0);
    ForgottenNothing(g0);
    ForgottenNothing(mid);
    var t := t0[id := a];
    forall i | i in t ensures t[i] in mid.h.parent {
      assert i != id ==> t0[i] != f;
    }
    LeftWalk(mid, a, subject, [], stopper, start, t, refs);
    StillUnknown(g0, a);
    ArrivedWalk(g0, t0, a, date, subject, f, [], refs, id);
    forall i | i in t0 && i != id ensures Subj(start, t0[i]) == Subj(g0, t0[i]) {
      assert t0[i] != f;
      ArrivedReads(g0, a, date, subject, f, [], t0[i]);
      LeftReads(mid, a, subject, stopper, start, t0[i]);
    }
  }

  lemma LeftReads(g0: State, a: Article, base: Subject, stopper: Article?, g: State, q: Article)
    requires LeftFake(g0, a, base, [], stopper, g) && q in g0.h.parent
    ensures Subj(g, q) == Subj(g0, q)
  {
    hide FakeLine, Chained;
  }

  /** What a third thread is once the thread of the fake and that of the article are one. */
  lemma JoinedApart(g: State, g': State, fs: Subject, base: Subject, led: Subject)
    requires ThreadsJoined(g, fs, base, g') && fs in g.s.ring && base in g.s.ring && led in g.s.ring
    ensures Together(g', led, base) <==> Together(g, led, base) || Together(g, led, fs)
  {
  }

  lemma LedKnown(g: State, table: map<string, Article>, base: Subject, w: Walk)
    requires Wf(g.h, g.s) && base in g.h.thread
    ensures LedTo(g, table, base, w) in g.s.ring && base in g.s.ring
  {
    hide Wf;
    WfDomains(g);
    if w.path != [] && Last(w.path) in table {
      SubjectKnown(g, table[Last(w.path)]);
    }
  }

  /** A thread that the arrival has mixed up is mended by the walk exactly if the references lead
      to a third thread. */
  lemma LedApart(g0: State, t0: map<string, Article>, fakes: set<Article>, id: string, a: Article, date: int,
                 subject: Subject, mid: State, line: seq<Article>, stopper: Article?, start: State, refs: seq<Reference>)
    requires Tidy(g0) && Unknown(g0, a) && a !in g0.h.subj && a !in g0.h.date && subject in g0.h.thread
    requires (forall i :: i in t0 ==> t0[i] in g0.h.parent)
    requires forall i, i' :: i in t0 && i' in t0 && t0[i] == t0[i'] ==> i == i'
    requires Disturbs(g0, Fake(t0, id), date, subject)
    requires Admitted(g0, t0, id, a, date, subject, Subj(g0, Fake(t0, id)), mid, t0[id := a])
    requires Departed(mid, fakes, a, Subj(g0, Fake(t0, id)), subject, line, stopper, start)
    ensures Together(start, LedTo(start, t0[id := a], subject, WalkOf(start, t0[id := a], a, refs)), subject)
            <==> !LedElsewhere(g0, t0, id, subject, refs)
  {
    hide Wf, Tidy, Unknown, Admitted, Dated, DatedBut, Mixed, ThreadsJoined, OutOfOrder, LeftFake, WholeLine, Disturbs,
      WalkOf, Others, LedTo;
    var f := Fake(t0, id);
    DisturbedParts(g0, f, date, subject);
    DisturbedWalk(g0, t0, fakes, id, a, date, subject, mid, line, stopper, start, refs);
    SameLead(g0, t0, id, a, start, subject, refs);
    TidyParts(g0);
    SubjectKnown(g0, f);
    var w := WalkOf(start, t0[id := a], a, refs);
    LedKnown(g0, t0, subject, w);
    WfDomains(g0);
    JoinedApart(mid, start, Subj(g0, f), subject, LedTo(g0, t0, subject, w));
  }

  // ---- An empty newsgroup, and a new subject ------------------------------------------------------------------

  ghost function Nothing(): State {
    State(Links(map[], map[], map[], map[], map[], map[], map[]), Shape(map[], map[], map[], map[]))
  }

  lemma NothingTidy()
    ensures Tidy(Nothing()) && Dated(Nothing())
  {
  }

  /** A new subject is a ring of its own, without articles. */
  ghost function WithSubject(g: State, t: Subject): State {
    State(g.h.(thread := g.h.thread[t := null], link := g.h.link[t := t]),
          g.s.(tops := g.s.tops[t := []], ring := g.s.ring[t := [t]]))
  }

  /** Nothing refers to the subject yet. */
  ghost predicate Unused(g: State, t: Subject) {
    t !in g.h.thread && (forall u :: u in g.s.ring ==> t !in g.s.ring[u])
  }

  lemma NotYetUsed(g: State, t: Subject)
    requires Wf(g.h, g.s) && t !in g.h.thread
    ensures Unused(g, t)
  {
    hide Wf, Cycle, NoDup;
    WfElim(g.h, g.s);
    SubjectKeys(g.h, g.s);
    forall u | u in g.s.ring ensures t !in g.s.ring[u] {
      assert RingOk(g.h, g.s, u);
    }
  }

  lemma SubjectKeys(h: Links, s: Shape)
    requires Domains(h, s)
    ensures s.ring.Keys == h.thread.Keys && s.tops.Keys == h.thread.Keys && h.link.Keys == h.thread.Keys
  {
  }

  lemma WithSubjectDomains(g: State, t: Subject)
    requires Domains(g.h, g.s) && Targets(g.h, g.s)
    ensures Domains(WithSubject(g, t).h, WithSubject(g, t).s) && Targets(WithSubject(g, t).h, WithSubject(g, t).s)
  {
    hide ParentKnown;
  }

  lemma WithSubjectKids(g: State, t: Subject, p: Article)
    requires KidsOk(g.h, g.s, p)
    ensures KidsOk(WithSubject(g, t).h, WithSubject(g, t).s, p)
  {
    hide Chain, NoDup;
  }

  lemma WithSubjectTops(g: State, t: Subject, u: Subject)
    requires Domains(g.h, g.s) && Targets(g.h, g.s) && t !in g.h.thread && (u != t ==> TopsOk(g.h, g.s, u))
    ensures TopsOk(WithSubject(g, t).h, WithSubject(g, t).s, u)
  {
    hide ParentKnown;
    SubjectKeys(g.h, g.s);
  }

  lemma WithSubjectRing(g: State, t: Subject, u: Subject)
    requires Unused(g, t) && (u != t ==> RingOk(g.h, g.s, u))
    ensures RingOk(WithSubject(g, t).h, WithSubject(g, t).s, u)
  {
  }

  lemma WithSubjectFiled(g: State, t: Subject, x: Article)
    requires Domains(g.h, g.s) && Targets(g.h, g.s) && t !in g.h.thread && Filed(g.h, g.s, x)
    ensures Filed(WithSubject(g, t).h, WithSubject(g, t).s, x)
  {
    hide ParentKnown;
  }

  lemma WithSubjectWf(g: State, t: Subject)
    requires Wf(g.h, g.s) && t !in g.h.thread
    ensures Wf(WithSubject(g, t).h, WithSubject(g, t).s)
  {
    hide Wf, Domains, Targets, KidsOk, TopsOk, RingOk, Filed, Unused;
    WfElim(g.h, g.s);
    var g' := WithSubject(g, t);
    NotYetUsed(g, t);
    WithSubjectDomains(g, t);
    forall p | p in g'.h.parent ensures KidsOk(g'.h, g'.s, p) { WithSubjectKids(g, t, p); }
    forall u | u in g'.h.thread ensures TopsOk(g'.h, g'.s, u) { WithSubjectTops(g, t, u); }
    forall u | u in g'.h.thread ensures RingOk(g'.h, g'.s, u) { WithSubjectRing(g, t, u); }
    forall a | a in g'.s.home ensures Filed(g'.h, g'.s, a) { WithSubjectFiled(g, t, a); }
    WfIntro(g'.h, g'.s);
  }

  lemma WithSubjectPlaced(g: State, t: Subject, q: Article)
    requires Wf(g.h, g.s) && t !in g.h.thread && q in g.s.home && Placed(g, q, null, null, [])
    ensures Placed(WithSubject(g, t), q, null, null, [])
  {
    hide Wf, Placed;
    var g', p := WithSubject(g, t), Par(g, q);
    SameRingsRead(g, t, q);
    if p != null && p in g.s.home {
      SameRingsRead(g, t, p);
    }
    PlacedAgain(g, g', q);
  }

  lemma SameRingsRead(g: State, t: Subject, q: Article)
    requires Wf(g.h, g.s) && t !in g.h.thread && q in g.s.home
    ensures HomeRingAt(WithSubject(g, t), q) == HomeRingAt(g, q)
    ensures Subj(g, q) != null ==> RingAt(WithSubject(g, t), Subj(g, q)) == RingAt(g, Subj(g, q))
  {
    hide Wf;
    HomeFacts(g, q);
    SubjectKnown(g, q);
  }

  lemma PlacedAgain(g: State, g': State, q: Article)
    requires Placed(g, q, null, null, []) && g'.h.parent == g.h.parent && g'.h.subj == g.h.subj && g'.s.home == g.s.home
    requires HomeRingAt(g', q) == HomeRingAt(g, q)
    requires Par(g, q) != null && Par(g, q) in g.s.home ==> HomeRingAt(g', Par(g, q)) == HomeRingAt(g, Par(g, q))
    requires Subj(g, q) != null ==> RingAt(g', Subj(g, q)) == RingAt(g, Subj(g, q))
    ensures Placed(g', q, null, null, [])
  {
  }

  /** A new subject leaves the forest as it was. */
  lemma WithSubjectTidy(g: State, t: Subject)
    requires Tidy(g) && t !in g.h.thread
    ensures Tidy(WithSubject(g, t)) && (Dated(g) ==> Dated(WithSubject(g, t)))
  {
    hide Wf, Grounded, Placed;
    var g' := WithSubject(g, t);
    WithSubjectWf(g, t);
    forall q | q in g'.s.home ensures Placed(g', q, null, null, []) { WithSubjectPlaced(g, t, q); }
    forall q | q in g'.h.parent && q !in g'.s.home ensures Loose(g', q, null, null) {
      assert Loose(g, q, null, null);
    }
  }

  lemma WithSubjectIsWf(g: State, t: Subject)
    requires Tidy(WithSubject(g, t))
    ensures Wf(WithSubject(g, t).h, WithSubject(g, t).s)
  {
    TidyParts(WithSubject(g, t));
  }
}
