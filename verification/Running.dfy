/** Whole runs: one article after the other arrives in a newsgroup that was empty
    (libtrn/Article.cpp, lines 791-960). */
module Running {
  import opened Forest
  import opened Joining
  import opened Ancestry
  import opened Placing
  import opened Settling
  import opened Detaching
  import opened Ordering
  import opened References
  import opened Mixing
  import opened Replacing
  import opened Receiving
  import opened Walking
  import opened Finishing
  import opened Threading

  /** What is read of an article's header. */
  datatype Arrival = Arrival(id: string, key: string, date: int, refs: seq<Reference>)

  // ---- What an arrival leaves alone ------------------------------------------------------------------

  /** Whoever is known and no fake keeps subject and date. */
  lemma RealsKept(g0: State, t0: Table, fakes: set<Article>, id: string, date: int, subject: Subject,
                  refs: seq<Reference>, a: Article, mid: State, line: seq<Article>, stopper: Article?,
                  start: State, spine: seq<Article>, cut: Article?, g: State, t: Table, x: Article)
    requires TakenIn(g0, t0, fakes, id, date, subject, refs, a, mid, line, stopper, start, spine, cut, g, t)
    requires Tidy(g0) && subject in g0.h.thread && TableFits(t0, g0.h.parent.Keys)
    requires forall i :: i in t && i !in t0 && i != id ==> t[i].tmpMem
    requires x in g0.h.parent && x !in fakes && x != Fake(t0, id) && Subj(g0, x) != null && !x.tmpMem
    ensures Subj(g, x) == Subj(g0, x) && Date(g, x) == Date(g0, x)
  {
    hide Tidy, ThreadsJoined, LedTo, WalkOf, Dated, DatedBut, Disturbs, LedElsewhere, Arrived, LeftFake, WholeLine,
      Mixed, OutOfOrder,
      Domains, Followed;
    KeptUntilStart(g0, t0, fakes, id, date, subject, a, mid, line, stopper, start, x);
    NotOnSpine(start, t0[id := a], a, subject, refs, g, t, spine, cut, x);
  }

  lemma KeptUntilStart(g0: State, t0: Table, fakes: set<Article>, id: string, date: int, subject: Subject, a: Article,
                       mid: State, line: seq<Article>, stopper: Article?, start: State, x: Article)
    requires Tidy(g0) && subject in g0.h.thread && x in g0.h.parent && x !in fakes && x != Fake(t0, id)
    requires
      var f := Fake(t0, id);
      var fs := if f == null then null else Subj(g0, f);
      && Admitted(g0, t0, id, a, date, subject, fs, mid, t0[id := a])
      && Departed(mid, fakes - {f}, a, fs, subject, line, stopper, start)
    ensures x in start.h.parent && Subj(start, x) == Subj(g0, x) && Date(start, x) == Date(g0, x) && x != a
  {
    hide Tidy, Dated, DatedBut, Mixed, ThreadsJoined, OutOfOrder, LeftFake, WholeLine, Arrived, Domains;
    var f := Fake(t0, id);
    ArrivedReads(g0, a, date, subject, f, [], x);
    ForgottenNothing(g0);
    ForgottenNothing(mid);
    ArrivedKeeps(g0, a, date, subject, f, x);
    if f != null && Subj(g0, f) != null {
      LineOfFakes(mid, fakes - {f}, a, line, stopper, x);
      LeftKeeps(mid, a, subject, line, stopper, start, x);
    }
  }

  lemma ArrivedKeeps(g: State, a: Article, date: int, subject: Subject, f: Article?, x: Article)
    requires Domains(g.h, g.s) && a !in g.h.parent && (f != null ==> f in g.h.parent) && x in g.h.parent && x != f
    ensures x in Arrived(g, a, date, subject, f).h.parent
  {
    hide Domains, Renamed;
    ReceivedDomains(g, a, date, subject);
    if f != null {
      RenamedKeySets(Received(g, a, date, subject), f, a);
    }
  }

  lemma LineOfFakes(g: State, fakes: set<Article>, a: Article, line: seq<Article>, stopper: Article?, x: Article)
    requires WholeLine(g, fakes, a, line, stopper) && x !in fakes
    ensures x !in line
  {
    hide FakeLine, OnlyChild;
  }

  lemma LeftKeeps(g0: State, a: Article, base: Subject, line: seq<Article>, stopper: Article?, g: State, x: Article)
    requires LeftFake(g0, a, base, line, stopper, g) && x in g0.h.parent && x != a && x !in line
    ensures x in g.h.parent && Subj(g, x) == Subj(g0, x) && Date(g, x) == Date(g0, x)
  {
    hide FakeLine, Chained, Cleared;
  }

  /** Only fakes without subject are given one by the walk. */
  lemma NotOnSpine(start: State, t0: Table, a: Article, base: Subject, refs: seq<Reference>, g: State, t: Table,
                   spine: seq<Article>, cut: Article?, x: Article)
    requires Outcome(start, t0, a, base, refs, g, t, spine, cut) && (forall i :: i in t && i !in t0 ==> t[i].tmpMem)
    requires x in start.h.parent && x != a && Subj(start, x) != null && !x.tmpMem
    ensures Subj(g, x) == Subj(start, x) && Date(g, x) == Date(start, x)
  {
    hide WalkOf, Above, KindOf;
    if x in spine[..Unplaced(start, spine)] {
      var path := WalkOf(start, t0, a, refs).path;
      var j :| 0 <= j < Unplaced(start, spine) && spine[j] == x;
      assert spine[j] == Named(t, path)[j - 1] == t[path[j - 1]];
      PathKinds(start, t0, a, refs, j - 1);
      KindHas(start, t0, a, path[j - 1]);
    }
  }

  lemma KindHas(g: State, t: Table, a: Article, id: string)
    ensures KindOf(g, t, a, id) == Fresh && id in t ==> Subj(g, t[id]) == null
  {
  }

  // ---- A run -------------------------------------------------------------------------------------------

  /** Only articles made for a message-id are fakes. */
  ghost predicate FakesAreTmp(s: set<Article>) reads s`fake {
    forall x :: x in s && x.fake ==> x.tmpMem
  }

  /** All that a run keeps. */
  ghost predicate Sound(gr: Group)
    reads gr, gr.arts, gr.subs
  {
    gr.Valid() && gr.TableOk() && gr.IndexOk() && Tidy(gr.g) && FakesAreTmp(gr.arts)
  }

  /** What a caller can see of an arrival: it has a date, or references that are all different. */
  ghost predicate WellReferenced(r: Arrival) {
    r.date != 0 || AllDifferent(r.refs)
  }

  lemma WellReferencedIsThreadable(gr: Group, r: Arrival)
    requires WellReferenced(r)
    ensures gr.Threadable(r.id, r.date, r.refs)
  {
    hide NothingRepeated;
    if r.date == 0 {
      DifferentSuffice(gr.g, gr.Fakes(), gr.table, Leaving(gr.g, Fake(gr.table, r.id)), r.refs, r.id);
    }
  }

  /** A real article that is in a thread. */
  ghost predicate Real(g: State, x: Article) {
    !x.tmpMem && x in g.s.home
  }

  /** A real article of this message-id is in a thread, with that date and subject. */
  ghost predicate Holds(g: State, t: Table, id: string, date: int, subject: Subject) {
    id in t && Real(g, t[id]) && Subj(g, t[id]) == subject && Date(g, t[id]) == date
  }

  /** Real articles stay what they are. */
  ghost predicate RealsStay(g0: State, t0: Table, g: State, t: Table) {
    forall id :: id in t0 && Real(g0, t0[id]) ==>
      && id in t && t[id] == t0[id] && Real(g, t[id])
      && Subj(g, t[id]) == Subj(g0, t0[id]) && Date(g, t[id]) == Date(g0, t0[id])
  }

  lemma RealsStayOn(g0: State, t0: Table, g1: State, t1: Table, g: State, t: Table)
    requires RealsStay(g0, t0, g1, t1) && RealsStay(g1, t1, g, t)
    ensures RealsStay(g0, t0, g, t)
  {
  }

  /** An arrival, whatever its references, takes nothing from the real articles. */
  lemma ArrivalKeepsReals(g0: State, t0: Table, fakes: set<Article>, id: string, date: int, subject: Subject,
                          refs: seq<Reference>, a: Article, mid: State, line: seq<Article>, stopper: Article?,
                          start: State, spine: seq<Article>, cut: Article?, g: State, t: Table, s0: set<Article>, s: set<Article>)
    requires TakenIn(g0, t0, fakes, id, date, subject, refs, a, mid, line, stopper, start, spine, cut, g, t)
    requires Tidy(g0) && Tidy(g) && subject in g0.h.thread && TableFits(t0, g0.h.parent.Keys)
    requires Grown(s0, t0[id := a], s, t) && (forall x :: x in fakes ==> x.tmpMem) && (id in t0 ==> t0[id].tmpMem)
    ensures RealsStay(g0, t0, g, t)
  {
    hide TakenIn, Tidy;
    forall id' | id' in t0 && Real(g0, t0[id'])
      ensures id' in t && t[id'] == t0[id'] && Real(g, t[id'])
      ensures Subj(g, t[id']) == Subj(g0, t0[id']) && Date(g, t[id']) == Date(g0, t0[id'])
    {
      LinkedHasSubject(g0, t0[id']);
      RealsKept(g0, t0, fakes, id, date, subject, refs, a, mid, line, stopper, start, spine, cut, g, t, t0[id']);
      WithSubjectLinked(g, t0[id']);
    }
  }

  lemma WithSubjectLinked(g: State, x: Article)
    requires Tidy(g)
    ensures Subj(g, x) != null ==> x in g.s.home && x in g.h.parent
  {
    hide Wf, Grounded, Placed;
    TidyWf(g);
    assert x in g.h.parent && x !in g.s.home ==> Loose(g, x, null, null);
  }

  lemma LinkedHasSubject(g: State, x: Article)
    requires Tidy(g) && x in g.s.home
    ensures Subj(g, x) != null && x in g.h.parent
  {
    hide Wf, Grounded;
    TidyWf(g);
    assert Placed(g, x, null, null, []);
  }

  lemma ArrivedHolds(g0: State, t0: Table, fakes: set<Article>, id: string, date: int, subject: Subject,
                     refs: seq<Reference>, a: Article, mid: State, line: seq<Article>, stopper: Article?,
                     start: State, spine: seq<Article>, cut: Article?, g: State, t: Table)
    requires TakenIn(g0, t0, fakes, id, date, subject, refs, a, mid, line, stopper, start, spine, cut, g, t)
    requires Tidy(g0) && subject in g0.h.thread && id in t && t[id] == a && !a.tmpMem && a in g.s.home
    ensures Holds(g, t, id, date, subject)
  {
    hide Tidy, ThreadsJoined, LedTo, WalkOf, Dated, DatedBut, Disturbs, LedElsewhere, Arrived, LeftFake, WholeLine,
      Mixed, OutOfOrder,
      Above;
    var f := Fake(t0, id);
    TidyParts(g0);
    NotYetKnown(g0, a);
    ArrivedItself(g0, a, date, subject, f);
    if f != null && Subj(g0, f) != null {
      LeftItself(mid, a, subject, line, stopper, start);
    }
  }

  lemma ArrivedItself(g: State, a: Article, date: int, subject: Subject, f: Article?)
    requires Tidy(g) && Unknown(g, a) && a !in g.h.subj && a !in g.h.date && subject in g.h.thread
    requires (f != null ==> f in g.h.parent) && Domains(g.h, g.s)
    ensures var g2 := Arrived(g, a, date, subject, f); Subj(g2, a) == subject && Date(g2, a) == date
  {
    hide Tidy, Unknown, Renamed, Waiting, Domains, Wf;
    var g1 := Received(g, a, date, subject);
    if f != null {
      hide Received;
      KnownApart(g, a, f);
      ReceivedWaits(g, a, date, subject);
      ReceivedDomains(g, a, date, subject);
      WaitingIsSpare(g1, a, subject, f);
      RenamedReads(g1, f, a, a);
    }
  }

  lemma LeftItself(g0: State, a: Article, base: Subject, line: seq<Article>, stopper: Article?, g: State)
    requires LeftFake(g0, a, base, line, stopper, g)
    ensures Subj(g, a) == base && Date(g, a) == Date(g0, a)
  {
    hide FakeLine, Cleared, Wf, Grounded, Coherent, Rung;
  }

  lemma WithSubjectStays(g: State, t: Table, u: Subject)
    ensures RealsStay(g, t, WithSubject(g, u), t)
  {
  }

  /** Apart from `id` the table has grown by fakes only. */
  ghost predicate NewAreTmp(t0: Table, id: string, t: Table) {
    forall i :: i in t && i != id ==> if i in t0 then t[i] == t0[i] else t[i].tmpMem
  }

  lemma GrownTmp(s0: set<Article>, t0: Table, id: string, a: Article, s: set<Article>, t: Table)
    requires Grown(s0, t0[id := a], s, t)
    ensures (forall x :: x in s && x !in s0 ==> x.tmpMem) && NewAreTmp(t0, id, t) && forall i :: i in t0 ==> i in t
  {
  }

  lemma SameTable(t: Table, id: string)
    ensures NewAreTmp(t, id, t)
  {
  }

  lemma SameStay(g: State, t: Table)
    ensures RealsStay(g, t, g, t)
  {
  }

  /** The article is received under a known subject. */
  method Take(gr: Group, r: Arrival, subject: Subject) returns (a: Article, valid: bool)
    requires Sound(gr) && WellReferenced(r) && subject in gr.subs
    modifies gr, gr.arts, gr.subs
    ensures Sound(gr) && fresh(gr.arts - old(gr.arts)) && gr.subs == old(gr.subs) && gr.index == old(gr.index)
    ensures RealsStay(old(gr.g), old(gr.table), gr.g, gr.table)
    ensures valid == (r.id !in old(gr.table) || old(gr.table)[r.id].tmpMem) && NewAreTmp(old(gr.table), r.id, gr.table)
    ensures if valid then Holds(gr.g, gr.table, r.id, r.date, subject) else gr.table == old(gr.table)
  {
    hide Tidy, TakenIn, WellReferenced, RealsStay, Holds, TableFits, Grown, NewAreTmp, Group.Valid, Group.Threadable;
    ghost var g0, t0, fakes := gr.g, gr.table, gr.Fakes();
    ghost var mid, start, line, stopper, spine, cut;
    WellReferencedIsThreadable(gr, r);
    gr.KnownSubject(subject);
    gr.ParentKeys();
    a, valid, mid, start, line, stopper, spine, cut := gr.Receive(r.id, r.date, subject, r.refs);
    if valid {
      GrownTmp(old(gr.arts) + {a}, t0, r.id, a, gr.arts, gr.table);
      ArrivedHolds(g0, t0, fakes, r.id, r.date, subject, r.refs, a, mid, line, stopper, start, spine, cut, gr.g, gr.table);
      ArrivalKeepsReals(g0, t0, fakes, r.id, r.date, subject, r.refs, a, mid, line, stopper, start, spine, cut, gr.g, gr.table,
                        old(gr.arts) + {a}, gr.arts);
    } else {
      SameStay(g0, t0);
      SameTable(t0, r.id);
    }
  }

  ghost predicate IndexGrown(i0: map<string, Subject>, i: map<string, Subject>) {
    forall key :: key in i0 ==> key in i && i[key] == i0[key]
  }

  /** An article arrives by its header: its subject is found or made, and it is received. */
  method ReceiveNext(gr: Group, r: Arrival) returns (a: Article, valid: bool)
    requires Sound(gr) && WellReferenced(r)
    modifies gr, gr.arts, gr.subs
    ensures Sound(gr) && fresh(gr.arts - old(gr.arts)) && fresh(gr.subs - old(gr.subs))
    ensures IndexGrown(old(gr.index), gr.index) && r.key in gr.index && RealsStay(old(gr.g), old(gr.table), gr.g, gr.table)
    ensures valid == (r.id !in old(gr.table) || old(gr.table)[r.id].tmpMem) && NewAreTmp(old(gr.table), r.id, gr.table)
    ensures if valid then Holds(gr.g, gr.table, r.id, r.date, gr.index[r.key]) else gr.table == old(gr.table)
  {
    hide Tidy, WellReferenced, RealsStay, Holds, NewAreTmp, Group.Valid;
    ghost var g0, t0 := gr.g, gr.table;
    var subject := gr.FindOrCreate(r.key);
    ghost var g1 := gr.g;
    SameStay(g0, t0);
    WithSubjectStays(g0, t0, subject);
    a, valid := Take(gr, r, subject);
    RealsStayOn(g0, t0, g1, t0, gr.g, gr.table);
  }

  /** Arrival `n` is the first of its message-id. */
  ghost predicate FirstOf(rs: seq<Arrival>, n: int)
    requires 0 <= n < |rs|
  {
    forall m :: 0 <= m < n ==> rs[m].id != rs[n].id
  }

  /** After the first `k` arrivals: of each message-id the article that arrived first is there,
      in a thread, with its date and subject. */
  ghost predicate AllReceived(rs: seq<Arrival>, k: nat, g: State, t: Table, index: map<string, Subject>)
    requires k <= |rs|
  {
    && (forall n :: 0 <= n < k ==> rs[n].key in index && rs[n].id in t && Real(g, t[rs[n].id]))
    && (forall n :: 0 <= n < k && FirstOf(rs, n) ==> Holds(g, t, rs[n].id, rs[n].date, index[rs[n].key]))
  }

  /** Whoever is known by a message-id that has not arrived is a fake. */
  ghost predicate OthersTmp(rs: seq<Arrival>, k: nat, t: Table)
    requires k <= |rs|
  {
    forall id :: id in t && (forall n :: 0 <= n < k ==> rs[n].id != id) ==> t[id].tmpMem
  }

  /** Any run from an empty group: articles arrive one after the other, with references to anything,
      one another included, in any order. The forest is tidy throughout, and each article is where
      the first arrival of its message-id put it: a later one of the same message-id is refused. */
  method Run(rs: seq<Arrival>) returns (gr: Group)
    requires forall n :: 0 <= n < |rs| ==> WellReferenced(rs[n])
    ensures Sound(gr) && AllReceived(rs, |rs|, gr.g, gr.table, gr.index)
  {
    hide Tidy, WellReferenced, RealsStay, Holds, NewAreTmp, Group.Valid, AllReceived, OthersTmp;
    gr := new Group();
    NoneReceived(rs, gr.g, gr.index);
    var k := 0;
    while k < |rs|
      invariant 0 <= k <= |rs| && Sound(gr) && fresh(gr) && fresh(gr.arts) && fresh(gr.subs)
      invariant AllReceived(rs, k, gr.g, gr.table, gr.index) && OthersTmp(rs, k, gr.table)
    {
      ghost var g0, t0, i0 := gr.g, gr.table, gr.index;
      var a, valid := ReceiveNext(gr, rs[k]);
      OthersStillTmp(rs, k, t0, gr.table);
      OneMoreReceived(rs, k, g0, t0, i0, valid, gr.g, gr.table, gr.index);
      k := k + 1;
    }
  }

  lemma NoneReceived(rs: seq<Arrival>, g: State, index: map<string, Subject>)
    ensures AllReceived(rs, 0, g, map[], index) && OthersTmp(rs, 0, map[])
  {
  }

  lemma OthersStillTmp(rs: seq<Arrival>, k: nat, t0: Table, t: Table)
    requires k < |rs| && OthersTmp(rs, k, t0) && NewAreTmp(t0, rs[k].id, t)
    ensures OthersTmp(rs, k + 1, t)
  {
    forall id | id in t && (forall n :: 0 <= n < k + 1 ==> rs[n].id != id) ensures t[id].tmpMem {
      assert rs[k].id != id;
    }
  }

  lemma OneMoreReceived(rs: seq<Arrival>, k: nat, g0: State, t0: Table, i0: map<string, Subject>, valid: bool,
                        g: State, t: Table, index: map<string, Subject>)
    requires k < |rs| && AllReceived(rs, k, g0, t0, i0) && OthersTmp(rs, k, t0) && RealsStay(g0, t0, g, t) && IndexGrown(i0, index)
    requires valid == (rs[k].id !in t0 || t0[rs[k].id].tmpMem) && rs[k].key in index
    requires if valid then Holds(g, t, rs[k].id, rs[k].date, index[rs[k].key]) else t == t0
    ensures AllReceived(rs, k + 1, g, t, index)
  {
    if !valid {
      var n :| 0 <= n < k && rs[n].id == rs[k].id;
    }
  }

  // ---- A late arrival that disturbs the order of dates -------------------------------------------------------

  /** The subjects fall into the same threads. */
  ghost predicate SameThreads(g0: State, g: State) {
    && g.s.ring.Keys == g0.s.ring.Keys
    && forall t, u :: t in g0.s.ring && u in g0.s.ring ==> (Together(g, t, u) <==> Together(g0, t, u))
  }

  /** The article is at the top of its subject's thread, and nothing else has changed. */
  ghost predicate PlainlyIn(g0: State, a: Article, date: int, subject: Subject, g: State) {
    PlainReads(g0, a, date, subject, g) && SameThreads(g0, g) && (Dated(g0) ==> Dated(g))
  }

  ghost predicate PlainReads(g0: State, a: Article, date: int, subject: Subject, g: State) {
    && Par(g, a) == null && Subj(g, a) == subject && Date(g, a) == date
    && (forall x :: x in g0.h.parent ==> Par(g, x) == Par(g0, x) && Subj(g, x) == Subj(g0, x) && Date(g, x) == Date(g0, x))
  }

  /** An article without references whose message-id nobody has mentioned. */
  lemma PlainArrival(g0: State, t0: Table, fakes: set<Article>, id: string, date: int, subject: Subject, a: Article,
                     mid: State, line: seq<Article>, stopper: Article?, start: State, spine: seq<Article>, cut: Article?,
                     g: State, t: Table)
    requires TakenIn(g0, t0, fakes, id, date, subject, [], a, mid, line, stopper, start, spine, cut, g, t)
    requires id !in t0 && Domains(g0.h, g0.s)
    ensures PlainlyIn(g0, a, date, subject, g) && forall i :: i in t <==> i in t0 || i == id
  {
    hide Dated, DatedBut, OutOfOrder, LedElsewhere, Renamed, LeftFake, Mixed, Domains, Together, Received, PlainReads,
      Followed;
    assert start == mid == Received(g0, a, date, subject);
    assert spine == [a];
    FollowedPlainly(g0, a, date, subject, g, cut);
    SameThreadsStill(g0, Received(g0, a, date, subject), subject, g) by { ReceivedRings(g0, a, date, subject); }
  }

  lemma ReceivedRings(g: State, a: Article, date: int, subject: Subject)
    ensures Received(g, a, date, subject).s.ring == g.s.ring
  {
  }

  lemma SameThreadsStill(g0: State, g1: State, subject: Subject, g: State)
    requires ThreadsJoined(g1, subject, subject, g) && g1.s.ring == g0.s.ring
    ensures SameThreads(g0, g)
  {
    hide Together;
    JoinedFrom(g0, g1, subject, subject, g, g);
    forall t, u | t in g0.s.ring && u in g0.s.ring ensures Together(g, t, u) <==> Together(g0, t, u) {
      OneOfThree(g0, t, u, subject);
    }
  }

  lemma OneOfThree(g: State, t: Subject, u: Subject, s: Subject)
    ensures Together(g, t, s) && Together(g, u, s) ==> Together(g, t, u)
  {
  }

  lemma FollowedPlainly(g0: State, a: Article, date: int, subject: Subject, g: State, cut: Article?)
    requires Followed(Received(g0, a, date, subject), a, subject, g, [a], cut) && a !in g0.h.parent && Domains(g0.h, g0.s)
    ensures PlainReads(g0, a, date, subject, g)
  {
    hide Above;
    assert [a][..1] == [a];
  }

  lemma OneReference(g: State, t: Table, a: Article, r: string)
    requires r !in t
    ensures WalkOf(g, t, a, [MessageId(r)]).path == [r]
  {
    assert [MessageId(r)][..0] == [];
    assert WalkOf(g, t, a, []) == Walk([], false, false);
  }

  /** An article that comes first and names one nobody knows. */
  lemma FirstArrival(g0: State, fakes: set<Article>, id: string, date: int, subject: Subject, r: string, a: Article,
                     mid: State, line: seq<Article>, stopper: Article?, start: State, spine: seq<Article>, cut: Article?,
                     g: State, t: Table)
    requires TakenIn(g0, map[], fakes, id, date, subject, [MessageId(r)], a, mid, line, stopper, start, spine, cut, g, t)
    requires r != id && Domains(g0.h, g0.s) && g0.h.parent == map[] && (r in t ==> t[r] != a)
    ensures r in t && Par(g, t[r]) == null && Subj(g, t[r]) == subject && Date(g, t[r]) == date
    ensures forall i :: i in t ==> i == id || i == r
    ensures SameThreads(g0, g) && (Dated(g0) ==> Dated(g))
  {
    hide Dated, DatedBut, OutOfOrder, LedElsewhere, Renamed, Above, LeftFake, Mixed;
    assert start == mid == Received(g0, a, date, subject);
    OneReference(start, map[id := a], a, r);
    assert spine == [a, t[r]];
    assert Unplaced(start, spine) == 2;
  }

  /** Fake `f` of date 4 and `y` of date 5 are at the top of the thread of `t1`, and `z` of date 7
      at that of `t2`. */
  ghost predicate Staged(g: State, f: Article, y: Article, z: Article, t1: Subject, t2: Subject) {
    && At1(g, f, t1, 4) && At1(g, y, t1, 5) && At1(g, z, t2, 7)
    && t1 in g.s.ring && t2 in g.s.ring && !Together(g, t1, t2)
  }

  ghost predicate At1(g: State, x: Article, t: Subject, date: int) {
    Par(g, x) == null && Subj(g, x) == t && Date(g, x) == date
  }

  lemma AtItsTop(g: State, x: Article)
    requires Tidy(g) && Par(g, x) == null && Subj(g, x) != null
    ensures x in Tops(g, Subj(g, x)) && x in g.h.parent && x in g.h.date
  {
    hide Wf, Grounded;
    TidyWf(g);
    WithSubjectLinked(g, x);
    assert Placed(g, x, null, null, []);
    SubjectKnown(g, x);
    HomeFacts(g, x);
    RingFacts(g, Subj(g, x));
    SameRingSameTops(g, g.s.home[x], Subj(g, x));
  }

  lemma StagedDisturbed(g: State, f: Article, y: Article, z: Article, t1: Subject, t2: Subject)
    requires Tidy(g) && Dated(g) && Staged(g, f, y, z, t1, t2)
    ensures Disturbs(g, f, 10, t2)
  {
    hide Wf, Grounded, Coherent, Tidy, Clash;
    AtItsTop(g, f);
    AtItsTop(g, y);
    AtItsTop(g, z);
    TidyWf(g);
    var w := Rewritten(g, f, 10, t2);
    assert Sorted(g.h.date, g.s.tops[t1]);
    EarlierFirst(g.h.date, Tops(g, t1), f, y);
    ClashingIsClash(w.h.date, Tops(g, t1), Tops(g, t2), f, y, z);
  }

  lemma EarlierFirst(date: Dates, l: seq<Article>, x: Article, y: Article)
    requires Sorted(date, l) && x in l && y in l && DateOf(date, x) < DateOf(date, y)
    ensures Behind(l, x, y)
  {
    var i :| 0 <= i < |l| && l[i] == x;
    var j :| 0 <= j < |l| && l[j] == y;
    assert i < j;
  }

  /** Forgets what is not needed of a sound group. */
  lemma SoundParts(gr: Group)
    requires Sound(gr)
    ensures gr.Valid() && gr.TableOk() && Tidy(gr.g) && Domains(gr.g.h, gr.g.s)
    ensures gr.g.h.parent.Keys == gr.arts && forall i :: i in gr.table ==> gr.table[i] in gr.arts
  {
    hide Group.Valid, TableFits, FakesAreTmp;
    TidyWf(gr.g);
    TableKnown(gr.table, gr.arts);
    gr.ParentKeys();
  }

  /** An article without references of a message-id that nobody has mentioned arrives. */
  method TakePlain(gr: Group, id: string, date: int, subject: Subject) returns (a: Article)
    requires Sound(gr) && subject in gr.subs && id !in gr.table
    modifies gr, gr.arts, gr.subs
    ensures Sound(gr) && fresh(gr.arts - old(gr.arts)) && gr.subs == old(gr.subs) && fresh(a) && a in gr.arts
    ensures PlainlyIn(old(gr.g), a, date, subject, gr.g) && NewAreTmp(old(gr.table), id, gr.table)
    ensures forall i :: i in gr.table <==> i in old(gr.table) || i == id
  {
    hide Tidy, TakenIn, TableFits, Grown, NewAreTmp, PlainlyIn, Group.Valid, Group.Threadable;
    ghost var g0, t0, fakes := gr.g, gr.table, gr.Fakes();
    ghost var mid, start, line, stopper, spine, cut;
    var valid;
    SoundParts(gr);
    WellReferencedIsThreadable(gr, Arrival(id, "", date, []));
    a, valid, mid, start, line, stopper, spine, cut := gr.Receive(id, date, subject, []);
    GrownTmp(old(gr.arts) + {a}, t0, id, a, gr.arts, gr.table);
    TableKnown(gr.table, gr.arts);
    PlainArrival(g0, t0, fakes, id, date, subject, a, mid, line, stopper, start, spine, cut, gr.g, gr.table);
  }

  /** The first article of all arrives, with a reference to an article `r`. */
  method TakeFirst(gr: Group, id: string, date: int, subject: Subject, r: string)
    requires Sound(gr) && subject in gr.subs && r != id && gr.arts == {} && gr.table == map[]
    modifies gr, gr.arts, gr.subs
    ensures Sound(gr) && fresh(gr.arts) && gr.subs == old(gr.subs)
    ensures r in gr.table && gr.table[r] in gr.arts && gr.table[r].tmpMem && NewAreTmp(map[], id, gr.table)
    ensures At1(gr.g, gr.table[r], subject, date) && (Dated(old(gr.g)) ==> Dated(gr.g))
    ensures forall i :: i in gr.table ==> i == id || i == r
    ensures SameThreads(old(gr.g), gr.g)
  {
    hide Tidy, TakenIn, TableFits, Grown, NewAreTmp, Dated, Together, Group.Valid, Group.Threadable;
    ghost var g0, t0, fakes := gr.g, gr.table, gr.Fakes();
    ghost var mid, start, line, stopper, spine, cut;
    var a, valid;
    SoundParts(gr);
    WellReferencedIsThreadable(gr, Arrival(id, "", date, [MessageId(r)]));
    a, valid, mid, start, line, stopper, spine, cut := gr.Receive(id, date, subject, [MessageId(r)]);
    GrownTmp(old(gr.arts) + {a}, t0, id, a, gr.arts, gr.table);
    TableKnown(gr.table, gr.arts);
    NewIsTmp(t0, id, gr.table, r);
    FirstArrival(g0, fakes, id, date, subject, r, a, mid, line, stopper, start, spine, cut, gr.g, gr.table);
  }

  lemma NewIsTmp(t0: Table, id: string, t: Table, r: string)
    requires NewAreTmp(t0, id, t) && r != id && r !in t0
    ensures r in t ==> t[r].tmpMem
  {
  }

  lemma TwoApart(g0: State, t1: Subject, t2: Subject)
    requires t1 != t2
    ensures
      var g := WithSubject(WithSubject(g0, t1), t2);
      t1 in g.s.ring && t2 in g.s.ring && !Together(g, t1, t2)
  {
    var g := WithSubject(WithSubject(g0, t1), t2);
    assert RingAt(g, t1) == [t1] && RingAt(g, t2) == [t2];
    assert [t1][0] != [t2][0];
  }

  /** One more article arrives, and `x` stays what it was. */
  lemma Beside(g0: State, x: Article, y: Article, t: Subject, d: int, e: int, u: Subject, g1: State, g: State)
    requires SameThreads(g0, g1) && At1(g1, x, t, d) && x in g1.h.parent && PlainlyIn(g1, y, e, u, g)
    ensures SameThreads(g0, g) && At1(g, x, t, d) && At1(g, y, u, e) && (Dated(g1) ==> Dated(g))
  {
    hide Dated, Together;
  }

  lemma StillNamed(t0: Table, id: string, t: Table, r: string)
    requires NewAreTmp(t0, id, t) && r in t0 && r in t && r != id
    ensures t[r] == t0[r]
  {
  }

  /** A group of two subjects, where article `x` of the first (`t1`) has arrived, with a reference to
      an article `f` that has not. */
  method Opening(x: string, f: string) returns (gr: Group, t1: Subject, t2: Subject, ghost g0: State)
    requires f != x
    ensures Sound(gr) && fresh(gr) && fresh(gr.arts) && fresh(gr.subs) && t1 in gr.subs && t2 in gr.subs && Dated(gr.g)
    ensures f in gr.table && gr.table[f] in gr.arts && gr.table[f].tmpMem && At1(gr.g, gr.table[f], t1, 4)
    ensures forall i :: i in gr.table ==> i == x || i == f
    ensures t1 in g0.s.ring && t2 in g0.s.ring && !Together(g0, t1, t2) && SameThreads(g0, gr.g)
  {
    hide Tidy, Dated, Together, SameThreads, At1, Group.Valid, WithSubject;
    gr := new Group();
    ghost var none := gr.g;
    t1 := gr.FindOrCreate("a");
    t2 := gr.FindOrCreate("b");
    TwoApart(none, t1, t2);
    g0 := gr.g;
    TakeFirst(gr, x, 4, t1, f);
  }

  /** Article `y` of the first subject has arrived. */
  method Second(x: string, f: string, y: string)
    returns (gr: Group, t2: Subject, ghost yp: Article, ghost t1: Subject, ghost g0: State)
    requires f != x && y != x && y != f
    ensures Sound(gr) && fresh(gr) && fresh(gr.arts) && fresh(gr.subs) && t2 in gr.subs && Dated(gr.g)
    ensures f in gr.table && gr.table[f].tmpMem && gr.table[f] in gr.arts && yp in gr.arts
    ensures forall i :: i in gr.table ==> i == x || i == f || i == y
    ensures t1 in g0.s.ring && t2 in g0.s.ring && !Together(g0, t1, t2) && SameThreads(g0, gr.g)
    ensures At1(gr.g, gr.table[f], t1, 4) && At1(gr.g, yp, t1, 5)
  {
    hide Tidy, Dated, Together, NewAreTmp, PlainlyIn, SameThreads, At1, Group.Valid;
    var s1;
    gr, s1, t2, g0 := Opening(x, f);
    t1 := s1;
    SoundParts(gr);
    ghost var g1, t0 := gr.g, gr.table;
    yp := TakePlain(gr, y, 5, s1);
    StillNamed(t0, y, gr.table, f);
    SoundParts(gr);
    Beside(g0, gr.table[f], yp, s1, 4, 5, s1, g1, gr.g);
  }

  /** ... and `z` of the second. */
  method Stage(x: string, f: string, y: string, z: string)
    returns (gr: Group, t2: Subject, ghost yp: Article, ghost zp: Article, ghost t1: Subject)
    requires f != x && y != x && y != f && z != x && z != f && z != y
    ensures Sound(gr) && fresh(gr) && fresh(gr.arts) && fresh(gr.subs) && t2 in gr.subs && Dated(gr.g)
    ensures f in gr.table && gr.table[f].tmpMem && Staged(gr.g, gr.table[f], yp, zp, t1, t2)
  {
    hide Tidy, Dated, Together, NewAreTmp, PlainlyIn, SameThreads, At1, Group.Valid, Staged;
    ghost var g0;
    gr, t2, yp, t1, g0 := Second(x, f, y);
    SoundParts(gr);
    ghost var g1, t0 := gr.g, gr.table;
    zp := TakePlain(gr, z, 7, t2);
    StillNamed(t0, z, gr.table, f);
    Beside(g0, gr.table[f], zp, t1, 4, 7, t2, g1, gr.g);
    Beside(g0, yp, zp, t1, 5, 7, t2, g1, gr.g);
    AllStaged(g0, gr.table[f], yp, zp, t1, t2, gr.g);
  }

  lemma AllStaged(g0: State, f: Article, y: Article, z: Article, t1: Subject, t2: Subject, g: State)
    requires t1 in g0.s.ring && t2 in g0.s.ring && !Together(g0, t1, t2) && SameThreads(g0, g)
    requires At1(g, f, t1, 4) && At1(g, y, t1, 5) && At1(g, z, t2, 7)
    ensures Staged(g, f, y, z, t1, t2)
  {
    hide Together, At1;
  }

  lemma NoReferences(g: State, t: Table, id: string, subject: Subject)
    ensures !LedElsewhere(g, t, id, subject, [])
  {
  }

  /** An article without references arrives, perhaps in the place of a fake. */
  method TakeUnreferenced(gr: Group, id: string, date: int, subject: Subject)
    requires Sound(gr) && subject in gr.subs && (id in gr.table ==> gr.table[id].tmpMem)
    modifies gr, gr.arts, gr.subs
    ensures Sound(gr)
    ensures Dated(old(gr.g)) ==> (Dated(gr.g) <==> !Disturbs(old(gr.g), Fake(old(gr.table), id), date, subject))
  {
    hide Tidy, TakenIn, TableFits, Grown, NewAreTmp, Dated, Disturbs, Group.Valid, Group.Threadable;
    ghost var g0, t0, fakes := gr.g, gr.table, gr.Fakes();
    ghost var mid, start, line, stopper, spine, cut;
    var a, valid;
    WellReferencedIsThreadable(gr, Arrival(id, "", date, []));
    a, valid, mid, start, line, stopper, spine, cut := gr.Receive(id, date, subject, []);
    GrownTmp(old(gr.arts) + {a}, t0, id, a, gr.arts, gr.table);
    UnreferencedOrder(g0, t0, fakes, id, date, subject, a, mid, line, stopper, start, spine, cut, gr.g, gr.table);
  }

  lemma UnreferencedOrder(g0: State, t0: Table, fakes: set<Article>, id: string, date: int, subject: Subject, a: Article,
                          mid: State, line: seq<Article>, stopper: Article?, start: State, spine: seq<Article>, cut: Article?,
                          g: State, t: Table)
    requires TakenIn(g0, t0, fakes, id, date, subject, [], a, mid, line, stopper, start, spine, cut, g, t)
    ensures Dated(g0) ==> (Dated(g) <==> !Disturbs(g0, Fake(t0, id), date, subject))
  {
    hide Dated, Disturbs, LedElsewhere, Admitted, Departed, Outcome, ThreadsJoined, LedTo, WalkOf;
    NoReferences(g0, t0, id, subject);
  }

  /** Then `f` itself arrives, of the second subject and of date 10. The group it leaves is not in order
      of dates, though it was before. */
  method LateArrival(x: string, f: string, y: string, z: string) returns (gr: Group)
    requires f != x && y != x && y != f && z != x && z != f && z != y
    ensures Sound(gr) && !Dated(gr.g)
  {
    hide Tidy, Dated, Staged, Disturbs, Sound;
    var t2;
    ghost var yp, zp, t1;
    gr, t2, yp, zp, t1 := Stage(x, f, y, z);
    SoundParts(gr);
    StagedDisturbed(gr.g, gr.table[f], yp, zp, t1, t2);
    TakeUnreferenced(gr, f, 10, t2);
  }
}
