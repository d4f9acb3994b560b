/** The doubly linked list of subjects and its table of stripped subject lines
    (libtrn/cache.cpp, lines 324-393 and 469-507). */
module SubjectIndex {

  class Entry {
    var key: string       // the subject line without "Re:"
    var prev: Entry?
    var next: Entry?

    constructor (key: string)
      ensures this.key == key && prev == null && next == null
    {
      this.key, prev, next := key, null, null;
    }
  }

  type Pointers = map<Entry, Entry?>

  /** The pointers of the list at one moment. */
  datatype Ends = Ends(next: Pointers, prev: Pointers, first: Entry?, last: Entry?)

  ghost predicate NoDup<T>(l: seq<T>) {
    forall i, j :: 0 <= i < j < |l| ==> l[i] != l[j]
  }

  /** The entry at `i`, or none. */
  function Nth(l: seq<Entry>, i: int): Entry? {
    if 0 <= i < |l| then l[i] else null
  }

  /** Each of `l` leads to the next and back; `before` and `behind` are what the ends lead to. */
  ghost predicate Linked(e: Ends, l: seq<Entry>, before: Entry?, behind: Entry?) {
    forall i :: 0 <= i < |l| ==> LinkedAt(e, l, i, before, behind)
  }

  ghost predicate LinkedAt(e: Ends, l: seq<Entry>, i: int, before: Entry?, behind: Entry?)
    requires 0 <= i < |l|
  {
    && l[i] in e.next && e.next[l[i]] == (if i + 1 < |l| then l[i + 1] else behind)
    && l[i] in e.prev && e.prev[l[i]] == (if i > 0 then l[i - 1] else before)
  }

  /** Only what the ends lead to has changed. */
  lemma Relinked(e: Ends, e': Ends, l: seq<Entry>, p: Entry?, q: Entry?, p': Entry?, q': Entry?)
    requires Linked(e, l, p, q) && NoDup(l)
    requires forall y :: y in l ==> y in e'.next && y in e'.prev
    requires forall y :: y in l ==> (if y == l[|l| - 1] then e'.next[y] == q' else y in e.next && e'.next[y] == e.next[y])
    requires forall y :: y in l ==> (if y == l[0] then e'.prev[y] == p' else y in e.prev && e'.prev[y] == e.prev[y])
    ensures Linked(e', l, p', q')
  {
    forall i | 0 <= i < |l| ensures LinkedAt(e', l, i, p', q') {
      assert LinkedAt(e, l, i, p, q) && l[i] in l;
      assert (l[i] == l[|l| - 1] <==> i == |l| - 1) && (l[i] == l[0] <==> i == 0);
    }
  }

  lemma LinkedIn(e: Ends, l: seq<Entry>, p: Entry?, q: Entry?)
    requires Linked(e, l, p, q)
    ensures forall y :: y in l ==> y in e.next && y in e.prev
    ensures l != [] ==> e.next[l[|l| - 1]] == q && e.prev[l[0]] == p
  {
    forall y | y in l ensures y in e.next && y in e.prev {
      var i :| 0 <= i < |l| && l[i] == y;
      assert LinkedAt(e, l, i, p, q);
    }
    if l != [] {
      assert LinkedAt(e, l, |l| - 1, p, q) && LinkedAt(e, l, 0, p, q);
    }
  }

  /** From first to last the pointers spell out `l`. */
  ghost predicate Spells(e: Ends, l: seq<Entry>) {
    NoDup(l) && e.first == Nth(l, 0) && e.last == Nth(l, |l| - 1) && Linked(e, l, null, null)
  }

  // ---- Taking out and putting in a range -----------------------------------------------------------------

  /** The range from `f` to `t` is left out. */
  ghost function WithoutRange(e: Ends, f: Entry, t: Entry): Ends
    requires f in e.prev && t in e.next
  {
    var before, behind := e.prev[f], e.next[t];
    Ends(if before == null then e.next else e.next[before := behind],
         if behind == null then e.prev else e.prev[behind := before],
         if before == null then behind else e.first,
         if behind == null then before else e.last)
  }

  /** The range from `f` to `t` comes behind `at`. */
  ghost function WithRange(e: Ends, at: Entry, f: Entry, t: Entry): Ends
    requires at in e.next
  {
    var behind := e.next[at];
    Ends(e.next[t := behind][at := f],
         (if behind == null then e.prev[f := at] else e.prev[f := at][behind := t]),
         e.first, if behind == null then t else e.last)
  }

  lemma NoDupParts<T>(a: seq<T>, b: seq<T>)
    ensures NoDup(a + b) <==> NoDup(a) && NoDup(b) && forall x :: x in a ==> x !in b
  {
    var c := a + b;
    if NoDup(c) {
      forall i, j | 0 <= i < j < |a| ensures a[i] != a[j] { assert c[i] != c[j]; }
      forall i, j | 0 <= i < j < |b| ensures b[i] != b[j] { assert c[|a| + i] != c[|a| + j]; }
      forall i, j | 0 <= i < |a| && 0 <= j < |b| ensures a[i] != b[j] { assert c[i] != c[|a| + j]; }
    }
    if NoDup(a) && NoDup(b) && forall x :: x in a ==> x !in b {
      forall i, j | 0 <= i < j < |c| ensures c[i] != c[j] {
        if i < |a| && j >= |a| {
          assert c[i] in a && c[j] in b;
        }
      }
    }
  }

  /** What a list in three parts spells out. */
  lemma Parts(e: Ends, a: seq<Entry>, r: seq<Entry>, b: seq<Entry>)
    requires Spells(e, a + r + b) && r != []
    ensures NoDup(a) && NoDup(r) && NoDup(b) && (forall x :: x in a ==> x !in r && x !in b) && forall x :: x in r ==> x !in b
    ensures Linked(e, a, null, r[0]) && Linked(e, r, Nth(a, |a| - 1), Nth(b, 0)) && Linked(e, b, r[|r| - 1], null)
    ensures e.first == (if a != [] then a[0] else r[0]) && e.last == if b != [] then b[|b| - 1] else r[|r| - 1]
  {
    hide Linked, NoDup;
    var l := a + r + b;
    NoDupParts(a + r, b);
    NoDupParts(a, r);
    Pieces(a, r, b);
    Slice(e, l, 0, |a|, null, null);
    Slice(e, l, |a|, |a| + |r|, null, null);
    Slice(e, l, |a| + |r|, |l|, null, null);
    assert forall x :: x in a || x in r ==> x in a + r;
  }

  lemma Pieces<T>(a: seq<T>, r: seq<T>, b: seq<T>)
    ensures
      var l, n := a + r + b, |a| + |r|;
      && l[0..|a|] == a && l[|a|..n] == r && l[n..|l|] == b
      && (r != [] ==> r[0] == l[|a|] && r[|r| - 1] == l[n - 1]) && (a != [] ==> a[|a| - 1] == l[|a| - 1] && a[0] == l[0])
      && (b != [] ==> b[0] == l[n] && b[|b| - 1] == l[|l| - 1])
  {
  }

  lemma Slice(e: Ends, l: seq<Entry>, i: nat, j: nat, p: Entry?, q: Entry?)
    requires Linked(e, l, p, q) && i <= j <= |l|
    ensures Linked(e, l[i..j], if i > 0 then l[i - 1] else p, if j < |l| then l[j] else q)
  {
    var r, p', q' := l[i..j], if i > 0 then l[i - 1] else p, if j < |l| then l[j] else q;
    forall k | 0 <= k < |r| ensures LinkedAt(e, r, k, p', q') {
      assert LinkedAt(e, l, i + k, p, q);
    }
  }

  /** ... and what makes two parts spell out a list. */
  lemma Join(e: Ends, a: seq<Entry>, b: seq<Entry>)
    requires NoDup(a + b) && Linked(e, a, null, Nth(b, 0)) && Linked(e, b, Nth(a, |a| - 1), null)
    requires e.first == Nth(a + b, 0) && e.last == Nth(a + b, |a + b| - 1)
    ensures Spells(e, a + b)
  {
    JoinLinked(e, a, b, null, null);
  }

  lemma JoinLinked(e: Ends, a: seq<Entry>, b: seq<Entry>, p: Entry?, q: Entry?)
    requires Linked(e, a, p, if b != [] then b[0] else q) && Linked(e, b, if a != [] then a[|a| - 1] else p, q)
    ensures Linked(e, a + b, p, q)
  {
    var l := a + b;
    forall i | 0 <= i < |l| ensures LinkedAt(e, l, i, p, q) {
      if i < |a| {
        assert LinkedAt(e, a, i, p, if b != [] then b[0] else q);
      } else {
        assert LinkedAt(e, b, i - |a|, if a != [] then a[|a| - 1] else p, q);
      }
    }
  }

  /** Leaving out a range leaves the rest, and the range still hangs together. */
  lemma RangeOut(e: Ends, a: seq<Entry>, r: seq<Entry>, b: seq<Entry>)
    requires Spells(e, a + r + b) && r != []
    ensures r[0] in e.prev && r[|r| - 1] in e.next
    ensures
      var e' := WithoutRange(e, r[0], r[|r| - 1]);
      && Spells(e', a + b) && Linked(e', r, Nth(a, |a| - 1), Nth(b, 0))
      && e'.next.Keys == e.next.Keys && e'.prev.Keys == e.prev.Keys
  {
    Parts(e, a, r, b);
    LinkedIn(e, r, Nth(a, |a| - 1), Nth(b, 0));
    LinkedIn(e, a, null, r[0]);
    LinkedIn(e, b, r[|r| - 1], null);
    assert r[0] in r && r[|r| - 1] in r;
    var e' := WithoutRange(e, r[0], r[|r| - 1]);
    assert a != [] ==> a[|a| - 1] in a;
    assert b != [] ==> b[0] in b;
    assert r[0] in r && r[|r| - 1] in r;
    NoDupParts(a, b);
    OutLinks(e, a, r, b);
    Join(e', a, b);
  }

  lemma OutLinks(e: Ends, a: seq<Entry>, r: seq<Entry>, b: seq<Entry>)
    requires r != [] && r[0] in e.prev && r[|r| - 1] in e.next
    requires NoDup(a) && NoDup(r) && NoDup(b) && (forall x :: x in a ==> x !in r && x !in b) && forall x :: x in r ==> x !in b
    requires Linked(e, a, null, r[0]) && Linked(e, r, Nth(a, |a| - 1), Nth(b, 0)) && Linked(e, b, r[|r| - 1], null)
    ensures
      var e' := WithoutRange(e, r[0], r[|r| - 1]);
      && Linked(e', a, null, Nth(b, 0)) && Linked(e', b, Nth(a, |a| - 1), null)
      && Linked(e', r, Nth(a, |a| - 1), Nth(b, 0))
  {
    var e' := WithoutRange(e, r[0], r[|r| - 1]);
    LinkedIn(e, a, null, r[0]);
    LinkedIn(e, r, Nth(a, |a| - 1), Nth(b, 0));
    LinkedIn(e, b, r[|r| - 1], null);
    assert a != [] ==> a[|a| - 1] in a;
    assert b != [] ==> b[0] in b;
    assert r[0] in r && r[|r| - 1] in r;
    Relinked(e, e', a, null, r[0], null, Nth(b, 0));
    Relinked(e, e', r, Nth(a, |a| - 1), Nth(b, 0), Nth(a, |a| - 1), Nth(b, 0));
    Relinked(e, e', b, r[|r| - 1], null, Nth(a, |a| - 1), null);
  }

  /** Putting a range behind `at` puts it there. */
  lemma RangeIn(e: Ends, a: seq<Entry>, r: seq<Entry>, b: seq<Entry>, p: Entry?, q: Entry?)
    requires Spells(e, a + b) && a != [] && r != [] && NoDup(a + r + b) && Linked(e, r, p, q)
    ensures a[|a| - 1] in e.next
    ensures
      var e' := WithRange(e, a[|a| - 1], r[0], r[|r| - 1]);
      && Spells(e', a + r + b) && e'.next.Keys == e.next.Keys && e'.prev.Keys == e.prev.Keys
  {
    var at, l := a[|a| - 1], a + b;
    NoDupParts(a + r, b);
    NoDupParts(a, r);
    Slice(e, l, 0, |a|, null, null);
    Slice(e, l, |a|, |l|, null, null);
    assert l[0..|a|] == a && l[|a|..|l|] == b;
    LinkedIn(e, a, null, Nth(b, 0));
    LinkedIn(e, r, p, q);
    LinkedIn(e, b, at, null);
    assert at in a && r[0] in r && r[|r| - 1] in r;
    assert b != [] ==> b[0] in b;
    var e' := WithRange(e, at, r[0], r[|r| - 1]);
    Relinked(e, e', a, null, Nth(b, 0), null, r[0]);
    Relinked(e, e', r, p, q, at, Nth(b, 0));
    Relinked(e, e', b, at, null, r[|r| - 1], null);
    JoinLinked(e', a, r, null, Nth(b, 0));
    JoinLinked(e', a + r, b, null, null);
    InEnds(e, a, r, b);
  }

  lemma InEnds(e: Ends, a: seq<Entry>, r: seq<Entry>, b: seq<Entry>)
    requires a != [] && r != [] && a[|a| - 1] in e.next && e.next[a[|a| - 1]] == Nth(b, 0)
    requires e.first == Nth(a + b, 0) && e.last == Nth(a + b, |a + b| - 1)
    ensures
      var e', l := WithRange(e, a[|a| - 1], r[0], r[|r| - 1]), a + r + b;
      e'.first == Nth(l, 0) && e'.last == Nth(l, |l| - 1)
  {
  }

  // ---- Appending, and putting in another order -------------------------------------------------------------

  /** The new entry `x` comes last. */
  ghost function WithLast(e: Ends, x: Entry): Ends {
    var next := e.next[x := null];
    Ends(if e.last == null then next else next[e.last := x], e.prev[x := e.last],
         if e.last == null then x else e.first, x)
  }

  lemma LastAdded(e: Ends, l: seq<Entry>, x: Entry)
    requires Spells(e, l) && x !in l
    ensures Spells(WithLast(e, x), l + [x])
    ensures e.last != null ==> e.last in e.next
    ensures WithLast(e, x).next.Keys == e.next.Keys + {x} && WithLast(e, x).prev.Keys == e.prev.Keys + {x}
  {
    var e' := WithLast(e, x);
    NoDupParts(l, [x]);
    LinkedIn(e, l, null, null);
    assert l != [] ==> l[|l| - 1] in l;
    Relinked(e, e', l, null, null, null, x);
    JoinLinked(e', l, [x], null, null);
  }

  /** The first `k + 1` of `l` are strung together; the last of them still leads anywhere. */
  ghost predicate StrungTo(e: Ends, l: seq<Entry>, k: nat) {
    && k < |l|
    && (forall i :: 0 <= i < k ==> Joined(e, l[i], l[i + 1]))
    && l[0] in e.prev && e.prev[l[0]] == null
  }

  ghost predicate Joined(e: Ends, x: Entry, y: Entry) {
    x in e.next && e.next[x] == y && y in e.prev && e.prev[y] == x
  }

  lemma OneStrung(e: Ends, l: seq<Entry>, k: nat)
    requires StrungTo(e, l, k) && NoDup(l) && k + 1 < |l|
    ensures StrungTo(e.(next := e.next[l[k] := l[k + 1]], prev := e.prev[l[k + 1] := l[k]]), l, k + 1)
  {
    var e' := e.(next := e.next[l[k] := l[k + 1]], prev := e.prev[l[k + 1] := l[k]]);
    forall i | 0 <= i < k + 1 ensures Joined(e', l[i], l[i + 1]) {
      if i < k {
        assert Joined(e, l[i], l[i + 1]) && l[i] != l[k] && l[i + 1] != l[k + 1];
      }
    }
    assert l[0] != l[k + 1];
  }

  lemma AllStrung(e: Ends, l: seq<Entry>)
    requires l != [] && StrungTo(e, l, |l| - 1) && NoDup(l)
    ensures Spells(Ends(e.next[l[|l| - 1] := null], e.prev, l[0], l[|l| - 1]), l)
  {
    var n := |l| - 1;
    var e' := Ends(e.next[l[n] := null], e.prev, l[0], l[n]);
    forall i | 0 <= i < |l| ensures LinkedAt(e', l, i, null, null) {
      assert i < n ==> Joined(e, l[i], l[i + 1]) && l[i] != l[n];
      assert i > 0 ==> Joined(e, l[i - 1], l[i - 1 + 1]);
    }
  }

  // ---- The index -------------------------------------------------------------------------------------------

  ghost predicate NextsIn(s: set<Entry>, m: Pointers) reads s`next {
    m.Keys == s && forall x :: x in s ==> x.next == m[x]
  }

  ghost predicate PrevsIn(s: set<Entry>, m: Pointers) reads s`prev {
    m.Keys == s && forall x :: x in s ==> x.prev == m[x]
  }

  method WriteNext(x: Entry, y: Entry?, ghost s: set<Entry>, ghost m: Pointers)
    requires x in s && NextsIn(s, m)
    modifies x`next
    ensures NextsIn(s, m[x := y])
  {
    x.next := y;
  }

  method WritePrev(x: Entry, y: Entry?, ghost s: set<Entry>, ghost m: Pointers)
    requires x in s && PrevsIn(s, m)
    modifies x`prev
    ensures PrevsIn(s, m[x := y])
  {
    x.prev := y;
  }

  class Index {
    var first: Entry?
    var last: Entry?
    var count: int
    var table: map<string, Entry>
    ghost var arena: set<Entry>     // all entries there are
    ghost var e: Ends
    ghost var order: seq<Entry>     // the list, from first to last

    ghost predicate Mirrors(e: Ends)
      reads `first, `last, `arena, arena`next, arena`prev
    {
      NextsIn(arena, e.next) && PrevsIn(arena, e.prev) && first == e.first && last == e.last
    }

    /** The list, and how long it is. */
    ghost predicate Listed()
      reads `first, `last, `count, `arena, `e, `order, arena`next, arena`prev
    {
      Mirrors(e) && Spells(e, order) && count == |order| && (forall x :: x in order ==> x in arena)
    }

    /** The table has just the entries of the list, each under its key. */
    ghost predicate Tabled()
      reads `table, `order, `arena, arena`key
    {
      TableOf(order)
    }

    ghost predicate TableOf(l: seq<Entry>)
      reads `table, `arena, arena`key
    {
      && (forall x :: x in l ==> x in arena && x.key in table && table[x.key] == x)
      && (forall k :: k in table ==> table[k] in l && table[k] in arena && table[k].key == k)
    }

    lemma SameMembers(l: seq<Entry>, l': seq<Entry>)
      requires TableOf(l) && forall x :: x in l <==> x in l'
      ensures TableOf(l')
    {
    }

    constructor ()
      ensures Listed() && Tabled() && order == [] && arena == {} && table == map[]
    {
      first, last, count, table := null, null, 0, map[];
      arena, e, order := {}, Ends(map[], map[], null, null), [];
    }

    /** Takes the entries from `f` to `t` out of the list. */
    method Unlink(f: Entry, t: Entry, ghost a: seq<Entry>, ghost r: seq<Entry>, ghost b: seq<Entry>)
      requires Mirrors(e) && Spells(e, order) && order == a + r + b && r != [] && f == r[0] && t == r[|r| - 1]
      requires forall x :: x in order ==> x in arena
      modifies `first, `last, `e, `order, arena`next, arena`prev
      ensures Mirrors(e) && Spells(e, order) && order == a + b && Linked(e, r, Nth(a, |a| - 1), Nth(b, 0))
      ensures e.next.Keys == old(e).next.Keys
    {
      hide Spells, Linked, NextsIn, PrevsIn;
      ghost var e0 := e;
      RangeOut(e, a, r, b);
      RangeReads(f, t);
      var before, behind := f.prev, t.next;
      InArena(a, r, b);
      if before == null {
        first := behind;
      } else {
        WriteNext(before, behind, arena, e.next);
      }
      if behind == null {
        last := before;
      } else {
        WritePrev(behind, before, arena, e.prev);
      }
      e := WithoutRange(e0, f, t);
      order := a + b;
    }

    lemma RangeReads(f: Entry, t: Entry)
      requires Mirrors(e) && f in e.prev && t in e.next
      ensures f.prev == e.prev[f] && t.next == e.next[t]
    {
    }

    /** The neighbours of a range are entries of the list. */
    lemma InArena(a: seq<Entry>, r: seq<Entry>, b: seq<Entry>)
      requires Mirrors(e) && Spells(e, a + r + b) && r != [] && forall x :: x in a + r + b ==> x in arena
      ensures r[0] in e.prev && r[|r| - 1] in e.next
      ensures e.prev[r[0]] == Nth(a, |a| - 1) && e.next[r[|r| - 1]] == Nth(b, 0)
      ensures (a != [] ==> a[|a| - 1] in arena) && (b != [] ==> b[0] in arena)
    {
      Parts(e, a, r, b);
      LinkedIn(e, r, Nth(a, |a| - 1), Nth(b, 0));
      assert r[0] in r && r[|r| - 1] in r;
      assert a != [] ==> (a + r + b)[|a| - 1] == a[|a| - 1];
      assert b != [] ==> (a + r + b)[|a| + |r|] == b[0];
    }

    /** Puts the entries from `f` to `t` behind `after`. */
    method Relink(after: Entry, f: Entry, t: Entry, ghost c: seq<Entry>, ghost r: seq<Entry>, ghost d: seq<Entry>,
                  ghost p: Entry?, ghost q: Entry?)
      requires Mirrors(e) && Spells(e, order) && order == c + d && NoDup(c + r + d) && Linked(e, r, p, q)
      requires c != [] && r != [] && after == c[|c| - 1] && f == r[0] && t == r[|r| - 1]
      requires (forall x :: x in order ==> x in arena) && (forall x :: x in r ==> x in arena)
      requires forall x :: x in r ==> x !in c && x !in d
      modifies `first, `last, `e, `order, arena`next, arena`prev
      ensures Mirrors(e) && Spells(e, order) && order == c + r + d
    {
      hide Spells, Linked, NextsIn, PrevsIn, NoDup;
      InPlace(c, r, d, p, q);
      RangeIn(e, c, r, d, p, q);
      ghost var e0 := e;
      WritePrev(f, after, arena, e0.prev);
      WriteNext(t, after.next, arena, e0.next);
      if after.next == null {
        last := t;
      } else {
        WritePrev(after.next, t, arena, e0.prev[f := after]);
      }
      WriteNext(after, f, arena, e0.next[t := e0.next[after]]);
      e := WithRange(e0, after, f, t);
      order := c + r + d;
    }

    /** Moves the entries from `f` to `t` behind `after`, which is not one of them. */
    method SpliceAfter(after: Entry, f: Entry, t: Entry, ghost a: seq<Entry>, ghost r: seq<Entry>, ghost b: seq<Entry>,
                       ghost c: seq<Entry>, ghost d: seq<Entry>)
      requires Listed() && Tabled() && order == a + r + b && r != [] && f == r[0] && t == r[|r| - 1]
      requires a + b == c + d && c != [] && after == c[|c| - 1]
      modifies `first, `last, `e, `order, arena`next, arena`prev
      ensures Listed() && Tabled() && order == c + r + d
    {
      hide Spells, Linked, NextsIn, PrevsIn, NoDup, TableOf;
      Rearranged(a, r, b, c, d);
      SameMembers(order, c + r + d);
      Unlink(f, t, a, r, b);
      Relink(after, f, t, c, r, d, Nth(a, |a| - 1), Nth(b, 0));
    }

    lemma Rearranged(a: seq<Entry>, r: seq<Entry>, b: seq<Entry>, c: seq<Entry>, d: seq<Entry>)
      requires Listed() && Tabled() && order == a + r + b && a + b == c + d
      ensures NoDup(c + r + d) && |c + r + d| == |order|
      ensures forall x :: x in c + r + d <==> x in order
      ensures (forall x :: x in r ==> x !in c && x !in d && x in order) && (forall x :: x in a + b ==> x in order)
    {
      NoDupParts(a + r, b);
      NoDupParts(a, r);
      NoDupParts(a, b);
      NoDupParts(c, d);
      assert |a| + |b| == |a + b| == |c + d| == |c| + |d|;
      forall x ensures x in c + r + d <==> x in order {
        assert x in c + d <==> x in a + b;
      }
      forall x | x in r ensures x !in c && x !in d {
        assert x !in a + b;
        assert x in c || x in d ==> x in c + d;
      }
      NoDupParts(c, r);
      NoDupParts(c + r, d);
    }

    /** What the splice reads and writes. */
    lemma InPlace(c: seq<Entry>, r: seq<Entry>, d: seq<Entry>, p: Entry?, q: Entry?)
      requires Mirrors(e) && Spells(e, c + d) && c != [] && r != [] && Linked(e, r, p, q)
      requires (forall x :: x in r ==> x !in c && x !in d) && (forall x :: x in c + d ==> x in arena)
      requires (forall x :: x in r ==> x in arena)
      ensures r[0] in arena && r[|r| - 1] in arena && c[|c| - 1] in arena && c[|c| - 1].next == e.next[c[|c| - 1]] == Nth(d, 0)
      ensures c[|c| - 1] != r[|r| - 1] && (d != [] ==> d[0] in arena && d[0] != r[0])
    {
      assert r[0] in r && r[|r| - 1] in r && c[|c| - 1] in c;
      assert (c + d)[|c| - 1] == c[|c| - 1];
      assert LinkedAt(e, c + d, |c| - 1, null, null);
      assert d != [] ==> (c + d)[|c|] == d[0] && d[0] in d;
    }

    /** The entry of a key, a new one at the end of the list if there is none. */
    method FindOrCreate(key: string) returns (sp: Entry)
      requires Listed() && Tabled()
      modifies `first, `last, `count, `table, `e, `order, `arena, arena`next
      ensures Listed() && Tabled() && sp in order && sp.key == key && key in table && table[key] == sp
      ensures key in old(table) ==> order == old(order) && table == old(table)
      ensures key !in old(table) ==> fresh(sp) && order == old(order) + [sp] && table == old(table)[key := sp]
      ensures arena == old(arena) || (fresh(sp) && arena == old(arena) + {sp})
    {
      hide Spells, NextsIn, PrevsIn, NoDup;
      if key in table {
        sp := table[key];
      } else {
        sp := new Entry(key);
        Append(sp);
        count := count + 1;
        table := table[key := sp];
      }
    }

    /** A new entry becomes the last. */
    method Append(sp: Entry)
      requires Mirrors(e) && Spells(e, order) && sp !in arena && sp.prev == null && sp.next == null
      requires forall x :: x in order ==> x in arena
      modifies `first, `last, `e, `order, `arena, arena`next, sp`prev
      ensures Mirrors(e) && Spells(e, order) && order == old(order) + [sp] && arena == old(arena) + {sp}
    {
      hide Spells, NextsIn, PrevsIn, NoDup;
      ghost var e0, all := e, arena + {sp};
      LastAdded(e, order, sp);
      OneMore(sp, e0);
      LastKnown();
      WritePrev(sp, last, all, e0.prev[sp := null]);
      assert e0.prev[sp := null][sp := last] == e0.prev[sp := last];
      if last != null {
        WriteNext(last, sp, all, e0.next[sp := null]);
      } else {
        first := sp;
      }
      last := sp;
      arena, e, order := all, WithLast(e0, sp), order + [sp];
    }

    lemma OneMore(sp: Entry, e: Ends)
      requires Mirrors(e) && sp !in arena && sp.prev == null && sp.next == null
      ensures NextsIn(arena + {sp}, e.next[sp := null]) && PrevsIn(arena + {sp}, e.prev[sp := null])
    {
    }

    lemma LastKnown()
      requires Mirrors(e) && Spells(e, order) && forall x :: x in order ==> x in arena
      ensures last == e.last && (last != null ==> last in arena)
    {
      if order != [] {
        assert order[|order| - 1] in order;
      }
    }

    /** A subject without articles goes. */
    method RemoveEmpty(sp: Entry, ghost a: seq<Entry>, ghost b: seq<Entry>)
      requires Listed() && Tabled() && order == a + [sp] + b
      modifies `first, `last, `count, `table, `e, `order, arena`next, arena`prev
      ensures Listed() && Tabled() && order == a + b && table == old(table) - {sp.key}
    {
      hide Spells, Linked, NextsIn, PrevsIn;
      OneOut(a, sp, b);
      Unlink(sp, sp, a, [sp], b);
      table := table - {sp.key};
      count := count - 1;
    }

    lemma OneOut(a: seq<Entry>, sp: Entry, b: seq<Entry>)
      requires Listed() && Tabled() && order == a + [sp] + b
      ensures sp in order && sp !in a + b && forall x :: x in a + b <==> x in order && x != sp
    {
      NoDupParts(a + [sp], b);
      NoDupParts(a, [sp]);
      assert order[|a|] == sp;
      forall x ensures x in a + b <==> x in order && x != sp {
        assert x in order <==> x in a || x == sp || x in b;
      }
    }

    /** The list in another order. */
    method SetOrder(l: seq<Entry>)
      requires Listed() && Tabled() && l != [] && NoDup(l) && |l| == |order| && forall x :: x in l <==> x in order
      modifies `first, `last, `e, `order, arena`next, arena`prev
      ensures Listed() && Tabled() && order == l
    {
      hide Spells, NextsIn, PrevsIn, TableOf, NoDup, StrungTo;
      SameMembers(order, l);
      assert forall x :: x in l ==> x in arena;
      Restring(l);
      order := l;
    }

    method Restring(l: seq<Entry>)
      requires NextsIn(arena, e.next) && PrevsIn(arena, e.prev) && l != [] && NoDup(l) && count == |l|
      requires forall x :: x in l ==> x in arena
      modifies `first, `last, `e, arena`next, arena`prev
      ensures Mirrors(e) && Spells(e, l)
    {
      hide Spells, NextsIn, PrevsIn, NoDup, StrungTo;
      first := l[0];
      ghost var e1 := StringTogether(l);
      AllStrung(e1, l);
      ghost var k := |l| - 1;
      assert l[k] in l;
      last := l[|l| - 1];
      WriteNext(last, null, arena, e1.next);
      e := Ends(e1.next[l[k] := null], e1.prev, l[0], l[k]);
    }

    /** The loop that leads each to the next and back. */
    method StringTogether(l: seq<Entry>) returns (ghost e1: Ends)
      requires NextsIn(arena, e.next) && PrevsIn(arena, e.prev) && l != [] && NoDup(l) && count == |l|
      requires forall x :: x in l ==> x in arena
      modifies arena`next, arena`prev
      ensures NextsIn(arena, e1.next) && PrevsIn(arena, e1.prev) && StrungTo(e1, l, |l| - 1)
    {
      hide NextsIn, PrevsIn, NoDup;
      assert l[0] in l;
      WritePrev(l[0], null, arena, e.prev);
      e1 := e.(prev := e.prev[l[0] := null]);
      var i, k := count - 1, 0;
      while i != 0
        invariant i == |l| - 1 - k && k < |l| && StrungTo(e1, l, k)
        invariant NextsIn(arena, e1.next) && PrevsIn(arena, e1.prev)
        decreases i
      {
        OneStrung(e1, l, k);
        assert l[k] in l && l[k + 1] in l;
        WriteNext(l[k], l[k + 1], arena, e1.next);
        WritePrev(l[k + 1], l[k], arena, e1.prev);
        e1 := e1.(next := e1.next[l[k] := l[k + 1]], prev := e1.prev[l[k + 1] := l[k]]);
        k := k + 1;
        i := i - 1;
      }
    }

    /** A subject gets another key. */
    method Rekey(sp: Entry, key: string)
      requires Listed() && Tabled() && sp in order
      modifies `table, sp`key
      ensures Listed() && sp.key == key && table == (old(table) - {old(sp.key)})[key := sp]
      ensures Tabled() <==> key !in old(table) || old(table)[key] == sp
    {
      hide Spells, NextsIn, PrevsIn;
      table := table - {sp.key};
      sp.key := key;
      table := table[key := sp];
      if key in old(table) && old(table)[key] != sp {
        assert old(table)[key] in order && old(table)[key].key == key;
      }
    }
  }

  /** Two subjects, of which one is rekeyed to the line of the other: the list still has both,
      but the table only one. */
  method TwoOfOneKey(k1: string, k2: string) returns (index: Index)
    requires k1 != k2
    ensures index.Listed() && !index.Tabled() && |index.order| == 2 && index.table.Keys == {k2}
  {
    hide Spells, NextsIn, PrevsIn, Index.TableOf, Index.Listed;
    index := new Index();
    var a := index.FindOrCreate(k1);
    assert index.order == [a];
    var b := index.FindOrCreate(k2);
    assert index.order == [a, b] && a in index.order;
    index.Rekey(a, k2);
  }
}
