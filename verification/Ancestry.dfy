/** Climbing parent pointers: when does the walk up from every article end? */
module Ancestry {
  import opened Forest

  type ParentMap = map<Article, Article?>

  /** The article `n` parents above `a` (null once the top has been passed). */
  ghost function Up(p: ParentMap, a: Article?, n: nat): Article? {
    if n == 0 || a == null then a else if a in p then Up(p, p[a], n - 1) else null
  }

  /** No cycles: every walk up runs off the top. */
  ghost predicate Grounded(p: ParentMap) {
    forall a :: a in p ==> Ends(p, a)
  }

  ghost predicate Ends(p: ParentMap, a: Article?) {
    exists n: nat :: Up(p, a, n) == null
  }

  /** `x` is `a` or above it. */
  ghost predicate Above(p: ParentMap, a: Article?, x: Article) {
    exists n: nat :: Up(p, a, n) == x
  }

  lemma {:induction false} UpSum(p: ParentMap, a: Article?, m: nat, n: nat)
    ensures Up(p, Up(p, a, m), n) == Up(p, a, m + n)
  {
    if m > 0 && a != null && a in p {
      UpSum(p, p[a], m - 1, n);
    } else if m > 0 {
      assert Up(p, a, m + n) == null;
    }
  }

  lemma UpNext(p: ParentMap, a: Article?, n: nat)
    requires Up(p, a, n) != null && Up(p, a, n) in p
    ensures Up(p, a, n + 1) == p[Up(p, a, n)]
  {
    UpSum(p, a, n, 1);
    assert Up(p, Up(p, a, n), 1) == Up(p, p[Up(p, a, n)], 0);
  }

  lemma {:induction false} UpStaysNull(p: ParentMap, a: Article?, m: nat, n: nat)
    requires m <= n && Up(p, a, m) == null
    ensures Up(p, a, n) == null
  {
    UpSum(p, a, m, n - m);
  }

  /** Walks that never meet `x` do not notice a new parent for `x`. */
  lemma {:induction false} UpAvoids(p: ParentMap, a: Article?, n: nat, x: Article, y: Article?)
    requires x in p && forall k :: 0 <= k < n ==> Up(p, a, k) != x
    ensures Up(p[x := y], a, n) == Up(p, a, n)
  {
    if n > 0 && a != null && a in p {
      assert Up(p, a, 0) == a;
      forall k | 0 <= k < n - 1 ensures Up(p, p[a], k) != x {
        assert Up(p, a, k + 1) == Up(p, p[a], k);
      }
      UpAvoids(p, p[a], n - 1, x, y);
    }
  }

  /** Giving `x` a parent that does not descend from it makes no cycle. */
  lemma NewParent(p: ParentMap, x: Article, y: Article?)
    requires Grounded(p) && x in p && (y != null ==> y in p) && !Above(p, y, x)
    ensures Grounded(p[x := y])
  {
    var p' := p[x := y];
    assert Ends(p, y) by {
      if y == null {
        assert Up(p, y, 0) == null;
      }
    }
    var m: nat :| Up(p, y, m) == null;
    UpAvoids(p, y, m, x, y);
    assert Up(p', y, m) == null;
    forall a | a in p' ensures Ends(p', a) {
      var n: nat :| Up(p, a, n) == null;
      NewParentUp(p, a, n, x, y, m);
    }
  }

  lemma {:induction false} NewParentUp(p: ParentMap, a: Article?, n: nat, x: Article, y: Article?, m: nat)
    requires x in p && Up(p, a, n) == null && Up(p[x := y], y, m) == null
    ensures Ends(p[x := y], a)
  {
    var p' := p[x := y];
    if a == null || a !in p {
      assert Up(p', a, 1) == null;
    } else if a == x {
      assert Up(p', a, m + 1) == null;
    } else {
      NewParentUp(p, p[a], n - 1, x, y, m);
      var k: nat :| Up(p', p[a], k) == null;
      assert Up(p', a, k + 1) == null;
    }
  }

  /** Cutting an article loose makes no cycle. */
  lemma CutLoose(p: ParentMap, x: Article)
    requires Grounded(p) && x in p
    ensures Grounded(p[x := null])
  {
    assert forall n: nat :: Up(p, null, n) == null;
    NewParent(p, x, null);
  }

  /** The walk up from an article that has just been put under `y` passes `y`. */
  lemma NewRoot(p: ParentMap, x: Article)
    requires Grounded(p) && x !in p
    requires forall a :: a in p ==> p[a] != x
    ensures Grounded(p[x := null])
  {
    var p' := p[x := null];
    forall a | a in p' ensures Ends(p', a) {
      if a == x {
        assert Up(p', a, 1) == null;
      } else {
        var n: nat :| Up(p, a, n) == null;
        NewRootUp(p, a, n, x);
      }
    }
  }

  lemma {:induction false} NewRootUp(p: ParentMap, a: Article?, n: nat, x: Article)
    requires x !in p && a != x && (forall b :: b in p ==> p[b] != x) && Up(p, a, n) == null
    ensures Up(p[x := null], a, n) == null
  {
    if n > 0 && a != null && a in p {
      NewRootUp(p, p[a], n - 1, x);
    }
  }

  /** A cycle: an article that is its own proper ancestor makes the walk endless. */
  lemma {:induction false} CycleNeverEnds(p: ParentMap, x: Article, m: nat, n: nat)
    requires m > 0 && Up(p, x, m) == x
    ensures Up(p, x, n) != null
    decreases n
  {
    if n < m {
      if Up(p, x, n) == null {
        UpStaysNull(p, x, n, m);
      }
    } else {
      CycleNeverEnds(p, x, m, n - m);
      UpSum(p, x, m, n - m);
    }
  }

  // ---- Climbing from the end of a chain of references -------------------------------------------------

  /** `chain` goes up parent by parent to a parentless article, and nothing else hangs under
      its upper members. */
  ghost predicate Ladder(p: ParentMap, chain: seq<Article>) {
    && chain != [] && (forall q :: q in chain ==> q in p)
    && (forall i :: 0 <= i < |chain| - 1 ==> p[chain[i]] == chain[i + 1])
    && p[chain[|chain| - 1]] == null
    && (forall q :: q in p && p[q] != null && p[q] in chain[1..] ==> q in chain)
  }

  /** The first `m` steps up from `ap` keep off the chain. */
  ghost predicate OffChain(p: ParentMap, chain: seq<Article>, ap: Article?, m: nat) {
    forall j: nat :: j <= m && Up(p, ap, j) != null ==> Up(p, ap, j) !in chain
  }

  lemma ClimbStep(p: ParentMap, chain: seq<Article>, ap: Article, m: nat)
    requires Ladder(p, chain) && OffChain(p, chain, ap, m)
    requires Up(p, ap, m) != null && Up(p, ap, m) in p && p[Up(p, ap, m)] != chain[0]
    ensures OffChain(p, chain, ap, m + 1) && Up(p, ap, m + 1) == p[Up(p, ap, m)]
  {
    UpNext(p, ap, m);
    var x := Up(p, ap, m);
    assert chain == [chain[0]] + chain[1..];
  }

  /** The climb ran off the top: hanging the chain under `ap` made no cycle. */
  lemma ClimbedOff(p: ParentMap, chain: seq<Article>, ap: Article, m: nat)
    requires Grounded(p) && Ladder(p, chain) && ap in p && OffChain(p, chain, ap, m) && Up(p, ap, m) == null
    ensures Grounded(p[chain[|chain| - 1] := ap])
  {
    var prev := chain[|chain| - 1];
    assert prev in chain;
    forall n: nat ensures Up(p, ap, n) != prev {
      if n > m {
        UpStaysNull(p, ap, m, n);
      }
    }
    NewParent(p, prev, ap);
  }

  /** The climb met child `c` of the article itself: cutting `c` loose removes the cycle. */
  lemma ClimbedTo(p: ParentMap, chain: seq<Article>, ap: Article, m: nat, c: Article)
    requires Grounded(p) && Ladder(p, chain) && ap in p && OffChain(p, chain, ap, m) && Up(p, ap, m) == c
    requires c in p
    ensures Grounded(p[chain[|chain| - 1] := ap][c := null])
  {
    var prev, p0 := chain[|chain| - 1], p[c := null];
    assert prev in chain;
    CutLoose(p, c);
    forall n: nat ensures Up(p0, ap, n) != prev {
      UpToCut(p, ap, m, c, n);
    }
    NewParent(p0, prev, ap);
    assert p0[prev := ap] == p[prev := ap][c := null] by {
      assert c !in chain && c != prev;
    }
  }

  /** After the cut the walk from `ap` is the old one as far as `c`, and ends there at the latest. */
  lemma {:induction false} UpToCut(p: ParentMap, ap: Article?, m: nat, c: Article, n: nat)
    requires c in p && Up(p, ap, m) == c
    ensures Up(p[c := null], ap, n) == null || (n <= m && Up(p[c := null], ap, n) == Up(p, ap, n))
    decreases m
  {
    if ap == c {
      if n > 0 {
        assert Up(p[c := null], null, n - 1) == null;
      }
    } else if n > 0 {
      assert m > 0 && ap != null && ap in p;
      UpToCut(p, p[ap], m - 1, c, n - 1);
    }
  }

  /** Hanging the chain under one more article makes no cycle exactly when that article is
      not in the chain already (and is on its own otherwise). */
  lemma RepeatMakesCycle(p: ParentMap, chain: seq<Article>, x: Article)
    requires Grounded(p) && Ladder(p, chain) && NoDup(chain) && x in p && (x !in chain ==> p[x] == null)
    ensures Grounded(p[chain[|chain| - 1] := x]) <==> x !in chain
  {
    var prev := chain[|chain| - 1];
    var p' := p[prev := x];
    if x !in chain {
      assert prev in chain && forall n: nat :: n > 0 ==> Up(p, x, n) == Up(p, null, n - 1);
      assert Up(p, x, 0) == x;
      assert !Above(p, x, prev);
      NewParent(p, prev, x);
    } else {
      var i :| 0 <= i < |chain| && chain[i] == x;
      UpTheChain(p, chain, x, i);
      forall n: nat ensures Up(p', x, n) != null {
        CycleNeverEnds(p', x, |chain| - i, n);
      }
      assert !Ends(p', x);
    }
  }

  lemma {:induction false} UpTheChain(p: ParentMap, chain: seq<Article>, x: Article, i: nat)
    requires Ladder(p, chain) && NoDup(chain) && i < |chain|
    ensures Up(p[chain[|chain| - 1] := x], chain[i], |chain| - i) == x
    decreases |chain| - i
  {
    var p' := p[chain[|chain| - 1] := x];
    assert chain[i] in chain;
    if i == |chain| - 1 {
      assert Up(p', chain[i], 1) == Up(p', x, 0);
    } else {
      UpTheChain(p, chain, x, i + 1);
    }
  }
}
