/** Reading the threads of a group: the walks of Traversal.dfy on the forest that
    Threading.dfy keeps. */
module Reading {
  import opened Forest
  import opened Joining
  import opened Ancestry
  import opened Placing
  import opened Settling
  import opened Traversal
  import opened Listing
  import opened Threading

  /** `f` with depths `d` is the thread of `t`: its linked articles, each once. */
  ghost predicate Reads(group: Group, t: Subject, f: seq<Article>, d: Depths)
    reads group, group.subs, t, f
  {
    && Spelled(f, d) && (f != [] ==> Rooted(f, group.subs)) && t in group.g.h.thread && t.thread == At(f, 0)
    && (forall q :: q in f ==> q in group.g.s.home && HomeRingAt(group.g, q) == RingAt(group.g, t))
    && (forall q :: q in group.g.s.home && HomeRingAt(group.g, q) == RingAt(group.g, t) ==> q in f)
  }

  /** Every thread of a tidy group can be walked. */
  lemma ThreadReads(group: Group, t: Subject) returns (f: seq<Article>, d: Depths)
    requires group.Valid() && Tidy(group.g) && t in group.subs
    ensures Reads(group, t, f, d)
  {
    hide Wf, Grounded, Coherent, Block, ThreadOf;
    group.KnownSubject(t);
    var r := ThreadOf(group.g, t);
    f, d := r.f, r.d;
    ThreadListed(group.g, t);
    BlockSpells(group, f, d);
    forall q | q in f ensures q.subj != null && q.subj in group.subs && q.subj.thread == At(f, 0) {
      ThreadRooted(group.g, t, q);
      HomeFacts(group.g, q);
      group.Known(q);
      group.KnownSubject(q.subj);
    }
  }

  lemma BlockSpells(group: Group, f: seq<Article>, d: Depths)
    requires group.Valid() && Block(group.g.h, Listed(f, d), null, 0) && NoDup(f)
    ensures Spelled(f, d)
  {
    hide Wf;
    forall i | 0 <= i < |f| ensures SpelledAt(f, d, i) {
      assert BlockAt(group.g.h, Listed(f, d), null, i);
    }
  }

  /** The positions `at` are in reading order, and are those of all existing articles read
      before position `k` (of all, if `k` is past the end). */
  ghost predicate ReadUpTo(f: seq<Article>, d: Depths, breadth: bool, at: seq<nat>, k: nat)
    reads f`present
  {
    && |d| == |f| && k <= |f| && (forall i :: 0 <= i < |at| ==> at[i] in Reals(f))
    && (forall i, j :: 0 <= i < j < |at| ==> Before(d, breadth, at[i], at[j]))
    && (k < |f| ==> forall i :: 0 <= i < |at| ==> Before(d, breadth, at[i], k))
    && (forall m: nat :: m in Reals(f) && (k < |f| ==> Before(d, breadth, m, k)) ==> m in at)
  }

  /** The loop over a thread, from `first_art` by `next_article`: it meets every existing
      article of the thread exactly once, in reading order. */
  method ReadThread(group: Group, t: Subject, breadth: bool)
    returns (read: seq<Article>, ghost f: seq<Article>, ghost d: Depths, ghost at: seq<nat>)
    requires group.Valid() && Tidy(group.g) && t in group.subs
    ensures Reads(group, t, f, d) && ReadUpTo(f, d, breadth, at, |f|)
    ensures |read| == |at| && forall i :: 0 <= i < |at| ==> at[i] < |f| && read[i] == f[at[i]]
  {
    hide Tidy, Wf, Spelled, Rooted, Reads, ReadUpTo;
    f, d := ThreadReads(group, t);
    ReadsParts(group, t, f, d);
    if t.thread == null {
      read, at := [], [];
      NothingToRead(group, t, f, d, breadth);
    } else {
      read, at := ReadAll(t, breadth, f, d, group.subs);
    }
  }

  lemma ReadsParts(group: Group, t: Subject, f: seq<Article>, d: Depths)
    requires Reads(group, t, f, d)
    ensures Spelled(f, d) && t.thread == At(f, 0) && (t.thread != null ==> Rooted(f, group.subs))
  {
    hide Spelled, Rooted;
  }

  lemma NothingToRead(group: Group, t: Subject, f: seq<Article>, d: Depths, breadth: bool)
    requires Reads(group, t, f, d) && t.thread == null
    ensures f == [] && ReadUpTo(f, d, breadth, [], |f|)
  {
  }

  method ReadAll(t: Subject, breadth: bool, ghost f: seq<Article>, ghost d: Depths, ghost subjects: set<Subject>)
    returns (read: seq<Article>, ghost at: seq<nat>)
    requires Spelled(f, d) && Rooted(f, subjects) && t.thread == At(f, 0)
    ensures ReadUpTo(f, d, breadth, at, |f|)
    ensures |read| == |at| && forall i :: 0 <= i < |at| ==> at[i] < |f| && read[i] == f[at[i]]
  {
    hide Spelled, Rooted, Rank, NextReal, ReadUpTo;
    SpelledSteps(f, d, subjects);
    read, at := [], [];
    var ap := FirstArt(t, breadth, f, d, subjects);
    ghost var k: nat := if 0 in Reals(f) then 0 else NextReal(d, breadth, Reals(f), 0);
    ReadingStarts(f, d, breadth, k);
    while ap != null
      invariant k <= |f| && ap == Pick(f, k) && ReadUpTo(f, d, breadth, at, k) && (k < |f| ==> k in Reals(f))
      invariant |read| == |at| && forall i :: 0 <= i < |at| ==> at[i] < |f| && read[i] == f[at[i]]
      decreases if k < |f| then |f| - Rank(d, breadth, k) else -1
    {
      read := read + [ap];
      ReadingGoesOn(f, d, breadth, at, k);
      at := at + [k];
      ap := NextArticle(ap, breadth, f, d, k, subjects);
      k := NextReal(d, breadth, Reals(f), k);
    }
  }

  lemma SpelledSteps(f: seq<Article>, d: Depths, subjects: set<Subject>)
    requires Spelled(f, d) && Rooted(f, subjects)
    ensures |d| == |f| > 0 && Stepwise(d)
  {
  }

  lemma ReadingStarts(f: seq<Article>, d: Depths, breadth: bool, k: nat)
    requires |d| == |f| > 0 && Stepwise(d) && k == if 0 in Reals(f) then 0 else NextReal(d, breadth, Reals(f), 0)
    ensures ReadUpTo(f, d, breadth, [], k) && (k < |f| ==> k in Reals(f))
  {
    hide NextReal;
    NextRealIsNext(d, breadth, Reals(f), 0);
    assert forall m: nat :: m < |f| ==> m == 0 || Before(d, breadth, 0, m);
  }

  lemma ReadingGoesOn(f: seq<Article>, d: Depths, breadth: bool, at: seq<nat>, k: nat)
    requires Stepwise(d) && ReadUpTo(f, d, breadth, at, k) && k < |f| && k in Reals(f)
    ensures
      var k' := NextReal(d, breadth, Reals(f), k);
      && ReadUpTo(f, d, breadth, at + [k], k') && (k' < |f| ==> k' in Reals(f) && Rank(d, breadth, k') > Rank(d, breadth, k))
      && Rank(d, breadth, k) < |f|
  {
    hide NextReal;
    NextRealIsNext(d, breadth, Reals(f), k);
    RankBelow(d, breadth, k);
    var k' := NextReal(d, breadth, Reals(f), k);
    if k' < |f| {
      assert Before(d, breadth, k, k');
      assert k in Earlier(d, breadth, k') && k !in Earlier(d, breadth, k);
      SmallerSet(Earlier(d, breadth, k), Earlier(d, breadth, k'), k);
    }
    forall m: nat | m in Reals(f) && (k' < |f| ==> Before(d, breadth, m, k')) ensures m in at + [k] {
      Trichotomy(d, breadth, m, k);
    }
  }

  lemma Trichotomy(d: Depths, breadth: bool, m: nat, k: nat)
    requires m < |d| && k < |d|
    ensures Before(d, breadth, m, k) || m == k || Before(d, breadth, k, m)
  {
  }
}
