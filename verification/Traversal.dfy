/** Walking a thread without stack or queue (libtrn/Article.cpp, lines 344-496;
    libtrn/Subject.cpp, lines 13-75). A thread is pictured by its depth-first listing: the
    articles in that order and the depth of each. Every pointer can be read off the listing,
    and every walk is a walk over its positions. */
module Traversal {
  import opened Forest

  type Depths = seq<nat>

  // ---- What a listing says --------------------------------------------------------------------------

  /** A listing starts at the top and goes down one level at a time. */
  ghost predicate Stepwise(d: Depths) {
    (d != [] ==> d[0] == 0) && Steps(d)
  }

  ghost predicate Steps(d: Depths) {
    forall i :: 0 <= i < |d| - 1 ==> d[i + 1] <= d[i] + 1
  }

  ghost function SkipFrom(d: Depths, e: nat, k: nat): (j: nat)
    requires k <= |d|
    ensures k <= j <= |d| && (forall m :: k <= m < j ==> d[m] > e) && (j < |d| ==> d[j] <= e)
    decreases |d| - k
  {
    if k == |d| || d[k] <= e then k else SkipFrom(d, e, k + 1)
  }

  /** The position behind the descendants of `i`. */
  ghost function Skip(d: Depths, i: nat): (j: nat)
    requires i < |d|
    ensures i < j <= |d| && (forall m :: i < m < j ==> d[m] > d[i]) && (j < |d| ==> d[j] <= d[i])
  {
    SkipFrom(d, d[i], i + 1)
  }

  /** The first position from `k` on at depth `e`. */
  ghost function FirstAt(d: Depths, k: nat, e: int): (j: nat)
    requires k <= |d|
    ensures k <= j <= |d| && (forall m :: k <= m < j ==> d[m] != e) && (j < |d| ==> d[j] == e)
    decreases |d| - k
  {
    if k == |d| || d[k] == e then k else FirstAt(d, k + 1, e)
  }

  /** The last position before `b` at depth `e`, or -1. */
  ghost function LastAt(d: Depths, b: nat, e: int): (j: int)
    requires b <= |d|
    ensures -1 <= j < b && (forall m :: j < m < b ==> d[m] != e) && (j >= 0 ==> d[j] == e)
  {
    if b == 0 || d[b - 1] == e then b - 1 else LastAt(d, b - 1, e)
  }

  /** The position of the parent of `i`, or -1. */
  ghost function ParentAt(d: Depths, i: nat): (k: int)
    requires i < |d|
    ensures -1 <= k < i && (k >= 0 ==> d[k] + 1 == d[i])
    ensures forall m :: k < m < i ==> d[m] + 1 != d[i]
  {
    LastAt(d, i, d[i] as int - 1)
  }

  ghost function Pick(f: seq<Article>, j: int): Article? {
    if 0 <= j < |f| then f[j] else null
  }

  /** The pointers of the articles of `f` are those that the listing with depths `d` says. */
  ghost predicate Spelled(f: seq<Article>, d: Depths)
    reads f`child1, f`sibling, f`parent
  {
    && |d| == |f| && NoDup(f) && Stepwise(d)
    && forall i :: 0 <= i < |f| ==> SpelledAt(f, d, i)
  }

  ghost predicate SpelledAt(f: seq<Article>, d: Depths, i: nat)
    requires |d| == |f| && i < |f|
    reads f`child1, f`sibling, f`parent
  {
    && f[i].child1 == (if i + 1 < |f| && d[i + 1] > d[i] then f[i + 1] else null)
    && f[i].sibling == (if Skip(d, i) < |f| && d[Skip(d, i)] == d[i] then f[Skip(d, i)] else null)
    && f[i].parent == Pick(f, ParentAt(d, i))
  }

  // ---- Facts about listings ----------------------------------------------------------------------------

  /** Every depth on the way down is met. */
  lemma {:induction false} EveryDepth(d: Depths, k: nat, e: nat)
    requires Stepwise(d) && k < |d| && e <= d[k]
    ensures FirstAt(d, 0, e) <= k
  {
    if d[k] > e {
      EveryDepth(d, k - 1, e);
    }
  }

  /** Between the parent and the article everything is as deep as the article. */
  lemma {:induction false} BelowParent(d: Depths, i: nat, m: nat)
    requires Steps(d) && i < |d| && ParentAt(d, i) < m <= i
    ensures d[m] >= d[i]
    decreases i - m
  {
    if m < i {
      BelowParent(d, i, m + 1);
    }
  }

  lemma TopHasNoParent(d: Depths, i: nat)
    requires Stepwise(d) && i < |d|
    ensures ParentAt(d, i) == -1 <==> d[i] == 0
  {
    if d[i] > 0 {
      BelowParentOf(d, i);
    }
  }

  lemma BelowParentOf(d: Depths, i: nat)
    requires Stepwise(d) && i < |d| && d[i] > 0
    ensures ParentAt(d, i) >= 0
  {
    if ParentAt(d, i) == -1 {
      BelowParent(d, i, 0);
    }
  }

  /** Without a next sibling the walk goes on behind the parent. */
  lemma SkipParent(d: Depths, i: nat)
    requires Stepwise(d) && i < |d| && d[i] > 0
    requires !(Skip(d, i) < |d| && d[Skip(d, i)] == d[i])
    ensures 0 <= ParentAt(d, i) < |d| && Skip(d, ParentAt(d, i)) == Skip(d, i)
  {
    BelowParentOf(d, i);
    var k, j := ParentAt(d, i), Skip(d, i);
    forall m | k < m < j ensures d[m] > d[k] {
      if m <= i {
        BelowParent(d, i, m);
      }
    }
    assert Skip(d, k) == j;
  }

  // ---- bump_article ---------------------------------------------------------------------------------------

  /** The next article depth first, or (not descending) the next behind the descendants,
      and its depth relative to where `depth0` was counted from. */
  method BumpArticle(a: Article, depth0: int, descend: bool, ghost f: seq<Article>, ghost d: Depths, ghost i: nat)
    returns (r: Article?, depth: int)
    requires Spelled(f, d) && i < |f| && f[i] == a
    ensures
      var j := if descend then i + 1 else Skip(d, i);
      r == Pick(f, j) && (r != null ==> depth == depth0 + d[j] - d[i])
  {
    depth := depth0;
    assert SpelledAt(f, d, i);
    if descend && a.child1 != null {
      depth := depth + 1;
      return a.child1, depth;
    }
    ghost var j := Skip(d, i);
    assert descend ==> j == i + 1;
    var ap: Article? := a;
    ghost var k: nat := i;
    while ap.sibling == null
      invariant ap != null && k < |f| && f[k] == ap && Skip(d, k) == j && depth == depth0 + d[k] - d[i]
      decreases k
    {
      assert SpelledAt(f, d, k);
      TopHasNoParent(d, k);
      ap := ap.parent;
      depth := depth - 1;
      if ap == null {
        assert d[k] == 0 && j == |d|;
        return null, depth;
      }
      SkipParent(d, k);
      k := ParentAt(d, k);
    }
    assert SpelledAt(f, d, k);
    return ap.sibling, depth;
  }

  /** The next article at `level` below (or beside) `a`, of those behind it in the listing. */
  method NextOnLevel(a: Article, level: nat, ghost f: seq<Article>, ghost d: Depths, ghost i: nat) returns (ap: Article?)
    requires Spelled(f, d) && i < |f| && f[i] == a
    ensures ap == Pick(f, FirstAt(d, i + 1, d[i] + level))
  {
    var depth;
    ap, depth := BumpArticle(a, 0, 0 < level, f, d, i);
    ghost var k := if 0 < level then i + 1 else Skip(d, i);
    while ap != null && depth != level
      invariant i < k <= |f| && ap == Pick(f, k) && (ap != null ==> depth == d[k] - d[i] <= level)
      invariant forall m :: i < m < k ==> d[m] != d[i] + level
      decreases |f| - k
    {
      ap, depth := BumpArticle(ap, depth, depth < level, f, d, k);
      k := k + 1;
    }
  }

  /** The last article on a level before `before`. */
  method LastOnLevel(a: Article, level: nat, before: Article?, ghost f: seq<Article>, ghost d: Depths, ghost b: nat)
    returns (last: Article?)
    requires Spelled(f, d) && |f| > 0 && f[0] == a && b <= |f| && before == Pick(f, b) && (b < |f| ==> d[b] == level)
    ensures last == Pick(f, LastAt(d, b, level))
  {
    last := null;
    var ap: Article? := a;
    if level != 0 {
      ap := NextOnLevel(a, level, f, d, 0);
    }
    ghost var k: nat, l: int := FirstAt(d, 0, level), -1;
    while ap != null && ap != before
      invariant 0 <= k <= |f| && ap == Pick(f, k) && -1 <= l < k && last == Pick(f, l) && k <= b
      invariant k < |f| ==> d[k] == level
      invariant (forall m :: l < m < k ==> d[m] != level) && (l >= 0 ==> d[l] == level)
      decreases |f| - k
    {
      last := ap;
      l := k;
      ap := NextOnLevel(ap, 0, f, d, k);
      k := FirstAt(d, k + 1, d[k]);
    }
    assert k == b;
    LastIs(d, b, level, l);
  }

  lemma LastIs(d: Depths, b: nat, e: int, l: int)
    requires b <= |d| && -1 <= l < b && (forall m :: l < m < b ==> d[m] != e) && (l >= 0 ==> d[l] == e)
    ensures LastAt(d, b, e) == l
  {
  }

  // ---- The two reading orders ------------------------------------------------------------------------------

  /** Position `i` is read before `j`: depth first in listing order, breadth first level by
      level and from left to right. */
  ghost predicate Before(d: Depths, breadth: bool, i: nat, j: nat)
    requires i < |d| && j < |d|
  {
    if breadth then d[i] < d[j] || (d[i] == d[j] && i < j) else i < j
  }

  /** Where the source goes next from `i` (|d| for nowhere). */
  ghost function NextIn(d: Depths, breadth: bool, i: nat): (j: nat)
    requires i < |d|
    ensures j <= |d|
  {
    if !breadth then i + 1
    else if FirstAt(d, i + 1, d[i]) < |d| then FirstAt(d, i + 1, d[i]) else FirstAt(d, 1, d[i] + 1)
  }

  /** Where the source goes back to from `i` (-1 for nowhere). */
  ghost function PrevIn(d: Depths, breadth: bool, i: nat): (j: int)
    requires i < |d|
    ensures -1 <= j < |d|
  {
    if !breadth then i - 1
    else if LastAt(d, i, d[i]) >= 0 || d[i] == 0 then LastAt(d, i, d[i]) else LastAt(d, |d|, d[i] as int - 1)
  }

  /** The next position comes right after this one in the reading order, and there is none
      exactly when this is the last. */
  lemma NextIsSuccessor(d: Depths, breadth: bool, i: nat)
    requires Stepwise(d) && i < |d|
    ensures NextIn(d, breadth, i) < |d| ==>
      var j := NextIn(d, breadth, i);
      Before(d, breadth, i, j) && forall k: nat :: k < |d| && Before(d, breadth, i, k) ==> k == j || Before(d, breadth, j, k)
    ensures NextIn(d, breadth, i) == |d| ==> forall k: nat :: k < |d| ==> !Before(d, breadth, i, k)
  {
    if breadth {
      var j := NextIn(d, true, i);
      forall k: nat | k < |d| && Before(d, true, i, k) ensures j < |d| && (k == j || Before(d, true, j, k)) {
        if d[k] > d[i] {
          EveryDepth(d, k, d[i] + 1);
          assert FirstAt(d, 0, d[i] + 1) == FirstAt(d, 1, d[i] + 1);
        }
      }
    }
  }

  /** ... and likewise backwards. */
  lemma PrevIsPredecessor(d: Depths, breadth: bool, i: nat)
    requires Stepwise(d) && i < |d|
    ensures PrevIn(d, breadth, i) >= 0 ==>
      var j := PrevIn(d, breadth, i);
      Before(d, breadth, j, i) && forall k: nat :: k < |d| && Before(d, breadth, k, i) ==> k == j || Before(d, breadth, k, j)
    ensures PrevIn(d, breadth, i) == -1 ==> forall k: nat :: k < |d| ==> !Before(d, breadth, k, i)
  {
    if breadth {
      var j := PrevIn(d, true, i);
      forall k: nat | k < |d| && Before(d, true, k, i) ensures j >= 0 && (k == j || Before(d, true, k, j)) {
        if d[i] > 0 && LastAt(d, i, d[i]) < 0 {
          EveryDepth(d, i, d[i] - 1);
        }
      }
    }
  }

  /** Going on and going back undo each other. */
  lemma NextPrevInverse(d: Depths, breadth: bool, i: nat, j: nat)
    requires Stepwise(d) && i < |d| && j < |d|
    ensures NextIn(d, breadth, i) == j <==> PrevIn(d, breadth, j) == i
  {
    NextIsSuccessor(d, breadth, i);
    PrevIsPredecessor(d, breadth, j);
    if NextIn(d, breadth, i) == j {
      assert Before(d, breadth, i, j);
      var k := PrevIn(d, breadth, j);
      assert k >= 0;
    }
    if PrevIn(d, breadth, j) == i {
      assert Before(d, breadth, i, j);
      var k := NextIn(d, breadth, i);
      assert k < |d|;
    }
  }

  /** How many positions are read before `i`. */
  ghost function Rank(d: Depths, breadth: bool, i: nat): nat
    requires i < |d|
  {
    |Earlier(d, breadth, i)|
  }

  ghost function Earlier(d: Depths, breadth: bool, i: nat): (s: set<nat>)
    requires i < |d|
    ensures forall k: nat :: k in s <==> k < |d| && Before(d, breadth, k, i)
  {
    set k: nat | 0 <= k < |d| && Before(d, breadth, k, i)
  }

  lemma NextRank(d: Depths, breadth: bool, i: nat)
    requires Stepwise(d) && i < |d| && NextIn(d, breadth, i) < |d|
    ensures Rank(d, breadth, NextIn(d, breadth, i)) == Rank(d, breadth, i) + 1
  {
    var j := NextIn(d, breadth, i);
    NextIsSuccessor(d, breadth, i);
    NextPrevInverse(d, breadth, i, j);
    PrevIsPredecessor(d, breadth, j);
    assert Earlier(d, breadth, j) == Earlier(d, breadth, i) + {i};
  }

  /** The position read after `n` steps from the root of the thread (|d| once past the end). */
  ghost function Nth(d: Depths, breadth: bool, n: nat): (i: nat)
    requires d != []
    ensures i <= |d|
  {
    if n == 0 then 0
    else if Nth(d, breadth, n - 1) == |d| then |d| else NextIn(d, breadth, Nth(d, breadth, n - 1))
  }

  lemma {:induction false} NthHasRank(d: Depths, breadth: bool, n: nat)
    requires d != [] && Stepwise(d)
    ensures Nth(d, breadth, n) < |d| ==> Rank(d, breadth, Nth(d, breadth, n)) == n
  {
    if n == 0 {
      assert Earlier(d, breadth, 0) == {};
    } else if Nth(d, breadth, n - 1) < |d| {
      NthHasRank(d, breadth, n - 1);
      if Nth(d, breadth, n) < |d| {
        NextRank(d, breadth, Nth(d, breadth, n - 1));
      }
    }
  }

  lemma SmallerSet(s: set<nat>, t: set<nat>, x: nat)
    requires s <= t && x in t && x !in s
    ensures |s| < |t|
  {
    var rest := t - {x} - s;
    assert t == s + rest + {x};
  }

  lemma {:induction false} RankBelow(d: Depths, breadth: bool, i: nat)
    requires i < |d|
    ensures Rank(d, breadth, i) < |d|
  {
    var all := UpTo(|d|);
    assert Earlier(d, breadth, i) <= all && i in all && i !in Earlier(d, breadth, i);
    SmallerSet(Earlier(d, breadth, i), all, i);
  }

  ghost function UpTo(n: nat): (s: set<nat>)
    ensures |s| == n && forall k: nat :: k in s <==> k < n
  {
    if n == 0 then {} else UpTo(n - 1) + {n - 1}
  }

  /** The walk from the root reads every position exactly once, in order, and stops after
      the last one. */
  lemma {:induction false} WalkReadsAll(d: Depths, breadth: bool, i: nat)
    requires d != [] && Stepwise(d) && i < |d|
    ensures Nth(d, breadth, Rank(d, breadth, i)) == i
    ensures forall n: nat :: Nth(d, breadth, n) == i ==> n == Rank(d, breadth, i)
    decreases Rank(d, breadth, i)
  {
    forall n: nat | Nth(d, breadth, n) == i ensures n == Rank(d, breadth, i) {
      NthHasRank(d, breadth, n);
    }
    PrevIsPredecessor(d, breadth, i);
    var k := PrevIn(d, breadth, i);
    if k >= 0 {
      NextPrevInverse(d, breadth, k, i);
      NextRank(d, breadth, k);
      WalkReadsAll(d, breadth, k);
    } else {
      assert Earlier(d, breadth, i) == {};
      if i != 0 {
        assert !Before(d, breadth, 0, i);
      }
    }
  }

  lemma WalkStops(d: Depths, breadth: bool)
    requires d != [] && Stepwise(d)
    ensures Nth(d, breadth, |d|) == |d|
  {
    NthHasRank(d, breadth, |d|);
    if Nth(d, breadth, |d|) < |d| {
      RankBelow(d, breadth, Nth(d, breadth, |d|));
    }
  }

  // ---- Real articles only --------------------------------------------------------------------------------------

  /** The positions of the articles that exist. */
  ghost function Reals(f: seq<Article>): (s: set<nat>)
    reads f`present
    ensures forall k: nat :: k in s <==> k < |f| && f[k].present
  {
    set k: nat | 0 <= k < |f| && f[k].present
  }

  /** The next existing position, or |d|. */
  ghost function NextReal(d: Depths, breadth: bool, there: set<nat>, i: nat): (j: nat)
    requires Stepwise(d) && i < |d|
    ensures j <= |d|
    decreases |d| - Rank(d, breadth, i)
  {
    var j := NextIn(d, breadth, i);
    if j == |d| || j in there then j
    else
      NextRank(d, breadth, i);
      RankBelow(d, breadth, j);
      NextReal(d, breadth, there, j)
  }

  /** The previous existing position, or -1. */
  ghost function PrevReal(d: Depths, breadth: bool, there: set<nat>, i: nat): (j: int)
    requires Stepwise(d) && i < |d|
    ensures -1 <= j < |d|
    decreases Rank(d, breadth, i)
  {
    var j := PrevIn(d, breadth, i);
    if j == -1 || j in there then j
    else
      NextPrevInverse(d, breadth, j, i);
      NextRank(d, breadth, j);
      PrevReal(d, breadth, there, j)
  }

  /** Nothing that exists is passed over. */
  lemma {:induction false} NextRealIsNext(d: Depths, breadth: bool, there: set<nat>, i: nat)
    requires Stepwise(d) && i < |d|
    ensures
      var j := NextReal(d, breadth, there, i);
      && (j < |d| ==> j in there && Before(d, breadth, i, j))
      && (forall k: nat :: k < |d| && k in there && Before(d, breadth, i, k) ==>
            j < |d| && (k == j || Before(d, breadth, j, k)))
    decreases |d| - Rank(d, breadth, i)
  {
    var j := NextIn(d, breadth, i);
    NextIsSuccessor(d, breadth, i);
    if j < |d| && j !in there {
      NextRank(d, breadth, i);
      RankBelow(d, breadth, j);
      NextRealIsNext(d, breadth, there, j);
    }
  }

  lemma {:induction false} PrevRealIsPrev(d: Depths, breadth: bool, there: set<nat>, i: nat)
    requires Stepwise(d) && i < |d|
    ensures
      var j := PrevReal(d, breadth, there, i);
      && (j >= 0 ==> j in there && Before(d, breadth, j, i))
      && (forall k: nat :: k < |d| && k in there && Before(d, breadth, k, i) ==>
            j >= 0 && (k == j || Before(d, breadth, k, j)))
    decreases Rank(d, breadth, i)
  {
    var j := PrevIn(d, breadth, i);
    PrevIsPredecessor(d, breadth, i);
    if j >= 0 && j !in there {
      NextPrevInverse(d, breadth, j, i);
      NextRank(d, breadth, j);
      PrevRealIsPrev(d, breadth, there, j);
    }
  }

  /** On existing articles `next_article` and `prev_article` are inverse. */
  lemma RealsInverse(d: Depths, breadth: bool, there: set<nat>, i: nat, j: nat)
    requires Stepwise(d) && i < |d| && j < |d| && i in there && j in there
    ensures NextReal(d, breadth, there, i) == j <==> PrevReal(d, breadth, there, j) == i
  {
    hide NextReal, PrevReal;
    NextRealIsNext(d, breadth, there, i);
    PrevRealIsPrev(d, breadth, there, j);
    var j', i' := NextReal(d, breadth, there, i), PrevReal(d, breadth, there, j);
    if j' == j {
      assert Before(d, breadth, i, j) && i' >= 0;
    }
    if i' == i {
      assert Before(d, breadth, i, j) && j' < |d|;
    }
  }

  /** All articles of the thread point at its lead article through their subjects. */
  ghost predicate Rooted(f: seq<Article>, subjects: set<Subject>)
    reads f`subj, subjects`thread
  {
    f != [] && forall x :: x in f ==> x.subj != null && x.subj in subjects && x.subj.thread == f[0]
  }

  /** How far down `a` is. */
  method DepthOf(a: Article, ghost f: seq<Article>, ghost d: Depths, ghost i: nat) returns (depth: nat)
    requires Spelled(f, d) && i < |f| && f[i] == a
    ensures depth == d[i]
  {
    depth := 0;
    ghost var k: int := i;
    assert SpelledAt(f, d, i);
    TopHasNoParent(d, i);
    var parent := a.parent;
    while parent != null
      invariant 0 <= k <= i && parent == Pick(f, ParentAt(d, k)) && depth + d[k] == d[i]
      decreases k
    {
      k := ParentAt(d, k);
      assert SpelledAt(f, d, k);
      parent := parent.parent;
      depth := depth + 1;
    }
    TopHasNoParent(d, k);
  }

  /** The next article that exists, depth first or breadth first. */
  method NextArticle(a: Article, breadth: bool, ghost f: seq<Article>, ghost d: Depths, ghost i: nat,
                     ghost subjects: set<Subject>) returns (ap: Article?)
    requires Spelled(f, d) && Rooted(f, subjects) && i < |f| && f[i] == a
    ensures ap == Pick(f, NextReal(d, breadth, Reals(f), i))
  {
    ghost var k: nat := i;
    ap := StepNext(a, breadth, f, d, k, subjects);
    while ap != null && !ap.present
      invariant k < |f| && ap == Pick(f, NextIn(d, breadth, k))
      invariant NextReal(d, breadth, Reals(f), i) == NextReal(d, breadth, Reals(f), k)
      decreases |f| - Rank(d, breadth, k)
    {
      NextRank(d, breadth, k);
      RankBelow(d, breadth, NextIn(d, breadth, k));
      k := NextIn(d, breadth, k);
      ap := StepNext(ap, breadth, f, d, k, subjects);
    }
  }

  method StepNext(a: Article, breadth: bool, ghost f: seq<Article>, ghost d: Depths, ghost i: nat,
                  ghost subjects: set<Subject>) returns (ap: Article?)
    requires Spelled(f, d) && Rooted(f, subjects) && i < |f| && f[i] == a
    ensures ap == Pick(f, NextIn(d, breadth, i))
  {
    if breadth {
      ap := NextOnLevel(a, 0, f, d, i);
      if ap == null {
        var depth := DepthOf(a, f, d, i);
        assert a in f;
        ap := NextOnLevel(a.subj.thread, depth + 1, f, d, 0);
      }
    } else {
      var depth;
      ap, depth := BumpArticle(a, 0, true, f, d, i);
    }
  }

  // ---- Backwards ---------------------------------------------------------------------------------------------------

  /** The last of the siblings from `a` on; they and what is below them end at position `i`. */
  method LastSibling(a: Article, ghost f: seq<Article>, ghost d: Depths, ghost s: nat, ghost i: nat)
    returns (ap: Article, ghost k: nat)
    requires Spelled(f, d) && s < i <= |f| && f[s] == a && (forall m :: s <= m < i ==> d[m] >= d[s])
    requires i < |f| ==> d[i] < d[s]
    ensures s <= k < i && f[k] == ap && Skip(d, k) == i
  {
    ap := a;
    k := s;
    assert SpelledAt(f, d, k);
    while ap.sibling != null
      invariant s <= k < i && f[k] == ap && d[k] == d[s] && SpelledAt(f, d, k)
      decreases i - k
    {
      k := Skip(d, k);
      ap := ap.sibling;
      assert SpelledAt(f, d, k);
    }
  }

  /** The last article below `a`, whose descendants end at position `i`. */
  method LastBelow(a: Article, ghost f: seq<Article>, ghost d: Depths, ghost s: nat, ghost i: nat) returns (ap: Article)
    requires Spelled(f, d) && s < i <= |f| && f[s] == a && Skip(d, s) == i
    ensures ap == f[i - 1]
  {
    ap := a;
    ghost var k: nat := s;
    assert SpelledAt(f, d, k);
    while ap.child1 != null
      invariant s <= k < i && f[k] == ap && Skip(d, k) == i && SpelledAt(f, d, k)
      decreases i - k
    {
      ghost var k';
      ap, k' := LastSibling(ap.child1, f, d, k + 1, i);
      k := k';
      assert SpelledAt(f, d, k);
    }
  }

  method StepPrev(a: Article, breadth: bool, ghost f: seq<Article>, ghost d: Depths, ghost i: nat,
                  ghost subjects: set<Subject>) returns (ap: Article?)
    requires Spelled(f, d) && Rooted(f, subjects) && i < |f| && f[i] == a
    ensures ap == Pick(f, PrevIn(d, breadth, i))
  {
    hide Spelled;
    assert a in f;
    if breadth {
      ap := PrevAcross(a, a.subj.thread, f, d, i);
    } else {
      ap := PrevInDepth(a, a.subj.thread, f, d, i);
    }
  }

  method PrevAcross(a: Article, root: Article, ghost f: seq<Article>, ghost d: Depths, ghost i: nat) returns (ap: Article?)
    requires Spelled(f, d) && i < |f| && f[i] == a && f[0] == root
    ensures |d| == |f| && ap == Pick(f, PrevIn(d, true, i))
  {
    var target := DepthOf(a, f, d, i);
    ap := LastOnLevel(root, target, a, f, d, i);
    if ap == null && target != 0 {
      ap := LastOnLevel(root, target - 1, null, f, d, |f|);
    }
  }

  method PrevInDepth(a: Article, root: Article, ghost f: seq<Article>, ghost d: Depths, ghost i: nat) returns (ap: Article?)
    requires Spelled(f, d) && i < |f| && f[i] == a && f[0] == root
    ensures |d| == |f| && ap == Pick(f, i - 1)
  {
    assert SpelledAt(f, d, i);
    TopHasNoParent(d, i);
    FirstBelow(f, d, i);
    ghost var p := ParentAt(d, i);
    assert f[p + 1] == if p >= 0 then f[p].child1 else root;
    var first := if a.parent != null then a.parent.child1 else root;
    if first == a {
      return a.parent;
    }
    ap := PrevBehind(a, first, f, d, i, p);
  }

  /** Some sibling comes before `a`: the last article below the nearest one. */
  method PrevBehind(a: Article, first: Article, ghost f: seq<Article>, ghost d: Depths, ghost i: nat, ghost p: int)
    returns (ap: Article?)
    requires Spelled(f, d) && i < |f| && f[i] == a && p == ParentAt(d, i) && p + 1 < i
    requires f[p + 1] == first && d[p + 1] == d[i]
    ensures ap == f[i - 1]
  {
    var left := first;
    ghost var k: nat := p + 1;
    assert SpelledAt(f, d, k);
    NextSiblingBefore(d, i, k);
    while left.sibling != a
      invariant p < k < i && f[k] == left && d[k] == d[i] && SpelledAt(f, d, k)
      invariant Skip(d, k) <= i && d[Skip(d, k)] == d[k]
      decreases i - k
    {
      k := Skip(d, k);
      left := left.sibling;
      assert SpelledAt(f, d, k);
      NextSiblingBefore(d, i, k);
    }
    ap := LastBelow(left, f, d, k, i);
  }

  /** The article right behind the parent is the first of the siblings. */
  lemma FirstBelow(f: seq<Article>, d: Depths, i: nat)
    requires Spelled(f, d) && i < |f|
    ensures d[ParentAt(d, i) + 1] == d[i]
    ensures ParentAt(d, i) >= 0 ==> f[ParentAt(d, i)].child1 == f[ParentAt(d, i) + 1]
  {
    var p := ParentAt(d, i);
    TopHasNoParent(d, i);
    BelowParent(d, i, p + 1);
    if p >= 0 {
      assert SpelledAt(f, d, p);
    }
  }

  lemma NextSiblingBefore(d: Depths, i: nat, k: nat)
    requires Stepwise(d) && i < |d| && ParentAt(d, i) < k < i && d[k] == d[i]
    ensures Skip(d, k) <= i && d[Skip(d, k)] == d[k]
  {
    assert Skip(d, k) <= i;
    BelowParent(d, i, Skip(d, k));
  }

  /** The previous article that exists. */
  method PrevArticle(a: Article, breadth: bool, ghost f: seq<Article>, ghost d: Depths, ghost i: nat,
                     ghost subjects: set<Subject>) returns (ap: Article?)
    requires Spelled(f, d) && Rooted(f, subjects) && i < |f| && f[i] == a
    ensures ap == Pick(f, PrevReal(d, breadth, Reals(f), i))
  {
    ghost var k: nat := i;
    ap := StepPrev(a, breadth, f, d, k, subjects);
    while ap != null && !ap.present
      invariant k < |f| && ap == Pick(f, PrevIn(d, breadth, k))
      invariant PrevReal(d, breadth, Reals(f), i) == PrevReal(d, breadth, Reals(f), k)
      decreases Rank(d, breadth, k)
    {
      NextPrevInverse(d, breadth, PrevIn(d, breadth, k), k);
      NextRank(d, breadth, PrevIn(d, breadth, k));
      k := PrevIn(d, breadth, k);
      ap := StepPrev(ap, breadth, f, d, k, subjects);
    }
  }

  // ---- The ends of a thread ----------------------------------------------------------------------------------------

  /** The lead article, or the first behind it that exists. */
  method FirstArt(s: Subject, breadth: bool, ghost f: seq<Article>, ghost d: Depths, ghost subjects: set<Subject>)
    returns (ap: Article?)
    requires Spelled(f, d) && Rooted(f, subjects) && s.thread == f[0]
    ensures ap == Pick(f, if 0 in Reals(f) then 0 else NextReal(d, breadth, Reals(f), 0))
  {
    ap := s.thread;
    if ap != null && !ap.present {
      ap := NextArticle(ap, breadth, f, d, 0, subjects);
    }
  }

  /** The last position read. */
  ghost function LastIn(d: Depths, breadth: bool): (i: nat)
    requires d != []
    ensures i < |d|
  {
    if breadth then Deepest(d, |d|) else |d| - 1
  }

  /** The last of the deepest positions below `n`. */
  ghost function Deepest(d: Depths, n: nat): (i: nat)
    requires 0 < n <= |d|
    ensures i < n && forall k: nat :: k < n && k != i ==> d[k] < d[i] || (d[k] == d[i] && k < i)
  {
    if n == 1 || d[n - 1] >= d[Deepest(d, n - 1)] then n - 1 else Deepest(d, n - 1)
  }

  /** The article `last_art` returns is the one from which `next_article` finds nothing more. */
  lemma LastRealHasNoNext(d: Depths, breadth: bool, there: set<nat>, i: nat)
    requires Stepwise(d) && i < |d| && i in there
    ensures NextReal(d, breadth, there, i) == |d| <==>
      i == if LastIn(d, breadth) in there then LastIn(d, breadth) else PrevReal(d, breadth, there, LastIn(d, breadth))
  {
    hide NextReal, PrevReal;
    var l := LastIn(d, breadth);
    NextRealIsNext(d, breadth, there, i);
    PrevRealIsPrev(d, breadth, there, l);
    assert i == l || Before(d, breadth, i, l);
    var j := NextReal(d, breadth, there, i);
    if j < |d| {
      assert j == l || Before(d, breadth, j, l);
    }
  }

  method LastArt(s: Subject, breadth: bool, ghost f: seq<Article>, ghost d: Depths, ghost subjects: set<Subject>)
    returns (ap: Article?)
    requires Spelled(f, d) && Rooted(f, subjects) && s.thread == f[0]
    ensures
      var l := LastIn(d, breadth);
      ap == Pick(f, if l in Reals(f) then l else PrevReal(d, breadth, Reals(f), l))
  {
    var last;
    if breadth {
      last := FindDeepest(s.thread, f, d);
    } else {
      last := FindLast(s.thread, f, d);
    }
    ap := last;
    if !ap.present {
      ap := PrevArticle(last, breadth, f, d, LastIn(d, breadth), subjects);
    }
  }

  method FindDeepest(root: Article, ghost f: seq<Article>, ghost d: Depths) returns (last: Article)
    requires Spelled(f, d) && f != [] && root == f[0]
    ensures last == f[LastIn(d, true)]
  {
    last := root;
    var depth, lastDepth := 0, 0;
    var cursor: Article? := root;
    ghost var k: nat := 0;
    while cursor != null
      invariant k <= |f| && cursor == Pick(f, k) && (cursor != null ==> depth == d[k])
      invariant if k == 0 then last == root && lastDepth == 0 else last == f[Deepest(d, k)] && lastDepth == d[Deepest(d, k)]
      decreases |f| - k
    {
      if depth >= lastDepth {
        last := cursor;
        lastDepth := depth;
      }
      cursor, depth := BumpArticle(cursor, depth, true, f, d, k);
      k := k + 1;
    }
  }

  method FindLast(root: Article, ghost f: seq<Article>, ghost d: Depths) returns (ap: Article)
    requires Spelled(f, d) && f != [] && root == f[0]
    ensures ap == f[|f| - 1]
  {
    ap := root;
    ghost var k: nat := 0;
    assert SpelledAt(f, d, k);
    while ap.sibling != null || ap.child1 != null
      invariant k < |f| && ap == f[k] && SpelledAt(f, d, k)
      invariant forall m :: k <= m < |f| ==> d[m] >= d[k]
      decreases |f| - k
    {
      if ap.sibling != null {
        ap := ap.sibling;
        k := Skip(d, k);
      } else {
        ap := ap.child1;
        k := k + 1;
      }
      assert SpelledAt(f, d, k);
    }
  }
}
