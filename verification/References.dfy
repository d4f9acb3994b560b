/** Which references of an article count (libtrn/Article.cpp, lines 961-1051).
    References are listed from the right end of the header line, as the source reads them. */
module References {
  import opened Forest
  import opened Joining
  import opened Ancestry
  import opened Placing

  /** One item of the References line: a message-id, or text that makes the source stop reading. */
  datatype Reference = Garbage | MessageId(id: string)

  /** The message-ids that count, nearest first; whether reading has stopped; and whether an
      unknown article was named twice. */
  datatype Walk = Walk(path: seq<string>, stopped: bool, repeated: bool)

  datatype Kind = Itself | Threaded | Stale | Fresh

  /** What a message-id stands for before the walk: the article itself, an article already in
      a thread, one without subject but with a date, or one nothing is known of. */
  ghost function KindOf(g: State, table: map<string, Article>, a: Article?, id: string): Kind {
    if id !in table then Fresh
    else if table[id] == a then Itself
    else if Subj(g, table[id]) != null then Threaded
    else if Date(g, table[id]) != 0 then Stale
    else Fresh
  }

  ghost function WalkOf(g: State, table: map<string, Article>, a: Article?, refs: seq<Reference>): Walk {
    if refs == [] then Walk([], false, false) else
      Extended(g, table, a, WalkOf(g, table, a, refs[..|refs| - 1]), refs[|refs| - 1])
  }

  ghost function Extended(g: State, table: map<string, Article>, a: Article?, w: Walk, r: Reference): Walk {
    if w.stopped then w
    else if r.Garbage? then w.(stopped := true)
    else match KindOf(g, table, a, r.id)
      case Itself => w
      case Stale => w
      case Threaded => w.(path := w.path + [r.id], stopped := true)
      case Fresh => if r.id in w.path then w.(repeated := true) else w.(path := w.path + [r.id])
  }

  lemma WalkSnoc(g: State, table: map<string, Article>, a: Article?, refs: seq<Reference>, i: nat)
    requires i < |refs|
    ensures WalkOf(g, table, a, refs[..i + 1]) == Extended(g, table, a, WalkOf(g, table, a, refs[..i]), refs[i])
  {
    assert refs[..i + 1][..i] == refs[..i];
  }

  lemma {:induction false} WalkStops(g: State, table: map<string, Article>, a: Article, refs: seq<Reference>, i: nat)
    requires i <= |refs| && WalkOf(g, table, a, refs[..i]).stopped
    ensures WalkOf(g, table, a, refs) == WalkOf(g, table, a, refs[..i])
    decreases |refs| - i
  {
    if i == |refs| {
      assert refs[..i] == refs;
    } else {
      WalkSnoc(g, table, a, refs, i);
      WalkStops(g, table, a, refs, i + 1);
    }
  }

  lemma {:induction false} RepeatsStay(g: State, table: map<string, Article>, a: Article, refs: seq<Reference>, i: nat)
    requires i <= |refs| && WalkOf(g, table, a, refs[..i]).repeated
    ensures WalkOf(g, table, a, refs).repeated
    decreases |refs| - i
  {
    if i == |refs| {
      assert refs[..i] == refs;
    } else {
      WalkSnoc(g, table, a, refs, i);
      RepeatsStay(g, table, a, refs, i + 1);
    }
  }

  // ---- The references that count, told apart from the walk --------------------------------------------

  /** Text that is no message-id, or an article of a thread: the last thing to be read. */
  ghost predicate Halts(g: State, table: map<string, Article>, a: Article?, r: Reference) {
    r.Garbage? || (r.id in table && table[r.id] != a && Subj(g, table[r.id]) != null)
  }

  /** A message-id nothing is known of. */
  ghost predicate Counts(g: State, table: map<string, Article>, a: Article?, r: Reference) {
    r.MessageId? && (r.id !in table || (table[r.id] != a && Subj(g, table[r.id]) == null && Date(g, table[r.id]) == 0))
  }

  /** `ids` are those of the references that count, each once, by first mention. */
  ghost predicate CountedOnce(g: State, table: map<string, Article>, a: Article?, refs: seq<Reference>, ids: seq<string>) {
    && (forall id :: id in ids <==> MessageId(id) in refs && Counts(g, table, a, MessageId(id)))
    && (forall j, k :: 0 <= j < k < |ids| ==> MentionedFirst(refs, ids[j], ids[k]))
  }

  ghost predicate MentionedFirst(refs: seq<Reference>, id: string, id': string) {
    exists i :: 0 <= i < |refs| && refs[i] == MessageId(id) && MessageId(id') !in refs[..i + 1]
  }

  ghost predicate CountsTwice(g: State, table: map<string, Article>, a: Article?, refs: seq<Reference>) {
    exists i, j :: 0 <= i < j < |refs| && refs[i] == refs[j] && Counts(g, table, a, refs[i])
  }

  lemma {:induction false} ReadOn(g: State, table: map<string, Article>, a: Article?, refs: seq<Reference>)
    requires forall r :: r in refs ==> !Halts(g, table, a, r)
    ensures
      var w := WalkOf(g, table, a, refs);
      !w.stopped && CountedOnce(g, table, a, refs, w.path) && (w.repeated <==> CountsTwice(g, table, a, refs))
  {
    hide CountedOnce, CountsTwice, WalkOf, Extended, Halts;
    if refs == [] {
      NothingRead(g, table, a);
    } else {
      var rest, r := refs[..|refs| - 1], refs[|refs| - 1];
      assert refs == rest + [r] && r in refs;
      ReadOn(g, table, a, rest);
      OneRead(g, table, a, rest, r);
    }
  }

  lemma NothingRead(g: State, table: map<string, Article>, a: Article?)
    ensures WalkOf(g, table, a, []) == Walk([], false, false)
    ensures CountedOnce(g, table, a, [], []) && !CountsTwice(g, table, a, [])
  {
  }

  lemma OneRead(g: State, table: map<string, Article>, a: Article?, rest: seq<Reference>, r: Reference)
    requires !Halts(g, table, a, r)
    requires
      var w := WalkOf(g, table, a, rest);
      !w.stopped && CountedOnce(g, table, a, rest, w.path) && (w.repeated <==> CountsTwice(g, table, a, rest))
    ensures
      var refs := rest + [r];
      var w := WalkOf(g, table, a, refs);
      !w.stopped && CountedOnce(g, table, a, refs, w.path) && (w.repeated <==> CountsTwice(g, table, a, refs))
  {
    hide WalkOf, CountedOnce, CountsTwice;
    var refs := rest + [r];
    assert refs[..|rest|] == rest && refs[..|rest| + 1] == refs;
    WalkSnoc(g, table, a, refs, |rest|);
    TwiceMore(g, table, a, rest, r);
    CountedMore(g, table, a, rest, r, WalkOf(g, table, a, rest).path);
  }

  lemma TwiceMore(g: State, table: map<string, Article>, a: Article?, rest: seq<Reference>, r: Reference)
    ensures CountsTwice(g, table, a, rest + [r]) <==> CountsTwice(g, table, a, rest) || (r in rest && Counts(g, table, a, r))
  {
    hide Counts;
    var refs := rest + [r];
    if CountsTwice(g, table, a, rest) {
      var i, j :| 0 <= i < j < |rest| && rest[i] == rest[j] && Counts(g, table, a, rest[i]);
      assert refs[i] == refs[j];
    }
    if r in rest && Counts(g, table, a, r) {
      var i :| 0 <= i < |rest| && rest[i] == r;
      assert refs[i] == refs[|rest|];
    }
  }

  lemma CountedMore(g: State, table: map<string, Article>, a: Article?, rest: seq<Reference>, r: Reference, ids: seq<string>)
    requires CountedOnce(g, table, a, rest, ids)
    ensures r.MessageId? && Counts(g, table, a, r) ==> (r.id in ids <==> r in rest)
    ensures
      var isNew := r.MessageId? && Counts(g, table, a, r) && r.id !in ids;
      CountedOnce(g, table, a, rest + [r], if isNew then ids + [r.id] else ids)
  {
    hide Counts;
    var refs := rest + [r];
    var isNew := r.MessageId? && Counts(g, table, a, r) && r.id !in ids;
    var ids' := if isNew then ids + [r.id] else ids;
    NamesOnly(g, table, a, r);
    forall j, k | 0 <= j < k < |ids'| ensures MentionedFirst(refs, ids'[j], ids'[k]) {
      assert ids'[j] == ids[j] && ids[j] in ids;
      if k < |ids| {
        assert MentionedFirst(rest, ids[j], ids[k]);
        var i :| 0 <= i < |rest| && rest[i] == MessageId(ids[j]) && MessageId(ids[k]) !in rest[..i + 1];
        assert refs[..i + 1] == rest[..i + 1] && refs[i] == rest[i];
      } else {
        var i :| 0 <= i < |rest| && rest[i] == MessageId(ids[j]);
        assert refs[..i + 1] == rest[..i + 1] && refs[i] == rest[i];
      }
    }
  }

  lemma NamesOnly(g: State, table: map<string, Article>, a: Article?, r: Reference)
    ensures Counts(g, table, a, r) ==> r.MessageId? && r == MessageId(r.id)
  {
  }

  /** What the walk reads, without the walk: the message-ids nothing is known of, each once and
      by first mention, up to the first thing that ends it, and that as well if it is an article. */
  lemma PathIs(g: State, table: map<string, Article>, a: Article, refs: seq<Reference>, p: nat)
    requires p <= |refs| && (forall i :: 0 <= i < p ==> !Halts(g, table, a, refs[i]))
    requires p < |refs| ==> Halts(g, table, a, refs[p])
    ensures
      var w := WalkOf(g, table, a, refs);
      var met := if p < |refs| && refs[p].MessageId? then [refs[p].id] else [];
      && (w.stopped <==> p < |refs|) && (w.repeated <==> CountsTwice(g, table, a, refs[..p]))
      && |met| <= |w.path| && w.path[|w.path| - |met|..] == met
      && CountedOnce(g, table, a, refs[..p], w.path[..|w.path| - |met|])
  {
    hide WalkOf, CountedOnce, CountsTwice;
    ReadOn(g, table, a, refs[..p]);
    var w := WalkOf(g, table, a, refs[..p]);
    assert w.path[..|w.path|] == w.path;
    if p == |refs| {
      assert refs[..p] == refs;
    } else {
      WalkSnoc(g, table, a, refs, p);
      WalkStops(g, table, a, refs, p + 1);
      if refs[p].MessageId? {
        assert (w.path + [refs[p].id])[..|w.path|] == w.path;
      }
    }
  }

  ghost predicate Mentions(refs: seq<Reference>, id: string) {
    exists i :: 0 <= i < |refs| && refs[i] == MessageId(id)
  }

  ghost predicate AllDifferent(refs: seq<Reference>) {
    forall i, j :: 0 <= i < j < |refs| && refs[i].MessageId? ==> refs[i] != refs[j]
  }

  /** References that are all different repeat nothing. */
  lemma {:induction false} DifferentNeverRepeat(g: State, table: map<string, Article>, a: Article?, refs: seq<Reference>)
    requires AllDifferent(refs)
    ensures !WalkOf(g, table, a, refs).repeated
    ensures forall id :: id in WalkOf(g, table, a, refs).path ==> Mentions(refs, id)
  {
    if refs != [] {
      var n := |refs| - 1;
      var rest, w := refs[..n], WalkOf(g, table, a, refs[..n]);
      DifferentNeverRepeat(g, table, a, rest);
      assert forall id :: Mentions(rest, id) ==> Mentions(refs, id) by {
        forall id | Mentions(rest, id) ensures Mentions(refs, id) {
          var i :| 0 <= i < |rest| && rest[i] == MessageId(id);
          assert refs[i] == MessageId(id);
        }
      }
      if refs[n].MessageId? {
        assert refs[n] == MessageId(refs[n].id);
      }
    }
  }

  // ---- What the walk goes by ------------------------------------------------------------------------

  /** The fakes of `line` have lost subject and date. */
  ghost function Forgotten(g: State, line: seq<Article>): State {
    State(g.h.(subj := Fill(g.h.subj, line, null), date := Fill(g.h.date, line, 0)), g.s)
  }

  /** Only subjects and dates of the articles in the table matter. */
  lemma {:induction false} WalkReads(g: State, g': State, table: map<string, Article>, a: Article?, refs: seq<Reference>)
    requires forall id :: id in table ==> Subj(g, table[id]) == Subj(g', table[id]) && Date(g, table[id]) == Date(g', table[id])
    ensures WalkOf(g, table, a, refs) == WalkOf(g', table, a, refs)
  {
    if refs != [] {
      WalkReads(g, g', table, a, refs[..|refs| - 1]);
    }
  }

  /** The references but those to `id`. */
  ghost function Others(refs: seq<Reference>, id: string): seq<Reference> {
    if refs == [] then []
    else
      var rest, r := Others(refs[..|refs| - 1], id), refs[|refs| - 1];
      if r == MessageId(id) then rest else rest + [r]
  }

  lemma OthersMore(refs: seq<Reference>, id: string)
    ensures Others([], id) == []
    ensures refs != [] ==>
      var n := |refs| - 1;
      Others(refs, id) == Others(refs[..n], id) + if refs[n] == MessageId(id) then [] else [refs[n]]
  {
  }

  /** An article's references to itself do not count. */
  lemma {:induction false} OwnIdIgnored(g: State, table: map<string, Article>, a: Article, g': State,
                                        table': map<string, Article>, refs: seq<Reference>, own: string)
    requires own in table' && table'[own] == a
    requires forall id :: id != own ==> KindOf(g', table', a, id) == KindOf(g, table, null, id)
    ensures WalkOf(g', table', a, refs) == WalkOf(g, table, null, Others(refs, own))
  {
    hide KindOf, Others, WalkOf;
    OwnKind(g', table', a, own);
    OthersMore(refs, own);
    if refs == [] {
      NothingRead(g, table, null);
      NothingRead(g', table', a);
    } else {
      var n, rest, l := |refs| - 1, Others(refs[..|refs| - 1], own), Others(refs, own);
      OwnIdIgnored(g, table, a, g', table', refs[..n], own);
      WalkSnoc(g', table', a, refs, n);
      assert refs[..n + 1] == refs;
      if refs[n] != MessageId(own) {
        WalkSnoc(g, table, null, l, |rest|);
        assert l[..|rest|] == rest && l[..|rest| + 1] == l;
      } else {
        assert l == rest;
      }
    }
  }

  lemma OwnKind(g: State, table: map<string, Article>, a: Article, own: string)
    requires own in table && table[own] == a
    ensures KindOf(g, table, a, own) == Itself
  {
  }

  /** The articles that a list of message-ids names. */
  ghost function Named(table: map<string, Article>, ids: seq<string>): (l: seq<Article>)
    requires forall id :: id in ids ==> id in table
    ensures |l| == |ids|
  {
    seq(|ids|, i requires 0 <= i < |ids| => assert ids[i] in ids; table[ids[i]])
  }
}
