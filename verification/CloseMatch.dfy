/** Offering the newsgroups closest to a misspelled name (libtrn/datasrc.cpp). */
module CloseMatch {
  import opened EditDistance
  import opened Trading

  const LENGTH_HACK := 5
  const MAX_NG := 9

  function LengthGap(a: string, b: string): nat {
    if |a| < |b| then |b| - |a| else |a| - |b|
  }

  /** How far a candidate is from the name looked for, in some measure. */
  type Measure = string -> nat

  /** The measure that was promised ... */
  ghost function ByEdits(name: string): Measure { c => Distance(name, c) }

  /** ... and the one that `edit_distn` has. */
  ghost function ByProgram(name: string): Measure { c => Measured(name, c) }

  /** A candidate worth offering: it passes the length filter and is close enough. */
  predicate Eligible(f: Measure, name: string, c: string) {
    LengthGap(name, c) <= LENGTH_HACK && f(c) <= MIN_DIST
  }

  /** The least measure of an eligible candidate, -1 when there is none. */
  function Least(f: Measure, name: string, cs: seq<string>): int {
    if cs == [] then -1 else
      var c, rest := cs[|cs| - 1], Least(f, name, cs[..|cs| - 1]);
      if Eligible(f, name, c) && (rest < 0 || f(c) < rest) then f(c) else rest
  }

  /** The eligible candidates of measure `d`, each once, in order of first appearance. */
  function AllAt(f: Measure, name: string, cs: seq<string>, d: int): seq<string> {
    if cs == [] then [] else
      var c, rest := cs[|cs| - 1], AllAt(f, name, cs[..|cs| - 1], d);
      if Eligible(f, name, c) && f(c) == d && c !in rest then rest + [c] else rest
  }

  function Offered(f: Measure, name: string, cs: seq<string>): seq<string> {
    var all := AllAt(f, name, cs, Least(f, name, cs));
    if |all| <= MAX_NG then all else all[..MAX_NG]
  }

  lemma {:induction false} LeastIsLeast(f: Measure, name: string, cs: seq<string>)
    ensures Least(f, name, cs) >= -1
    ensures Least(f, name, cs) < 0 <==> forall c :: c in cs ==> !Eligible(f, name, c)
    ensures forall c :: c in cs && Eligible(f, name, c) ==> 0 <= Least(f, name, cs) <= f(c)
    ensures Least(f, name, cs) >= 0 ==> exists c :: c in cs && Eligible(f, name, c) && f(c) == Least(f, name, cs)
  {
    if cs != [] {
      var n := |cs| - 1;
      LeastIsLeast(f, name, cs[..n]);
      assert cs == cs[..n] + [cs[n]];
      assert cs[n] in cs;
    }
  }

  lemma {:induction false} AllAtIsAll(f: Measure, name: string, cs: seq<string>, d: int)
    ensures forall c :: c in AllAt(f, name, cs, d) <==> c in cs && Eligible(f, name, c) && f(c) == d
    ensures AllAt(f, name, cs, d) == [] <==> forall c :: c in cs && Eligible(f, name, c) ==> f(c) != d
    ensures forall i, j :: 0 <= i < j < |AllAt(f, name, cs, d)| ==> AllAt(f, name, cs, d)[i] != AllAt(f, name, cs, d)[j]
  {
    if cs != [] {
      var n := |cs| - 1;
      AllAtIsAll(f, name, cs[..n], d);
      assert cs == cs[..n] + [cs[n]];
    }
  }

  /** Where `c` first appears among the candidates. */
  function FirstSeen(cs: seq<string>, c: string): (i: nat)
    requires c in cs
    ensures i < |cs| && cs[i] == c && c !in cs[..i]
  {
    var n := |cs| - 1;
    if c in cs[..n] then
      assert cs[..n][..FirstSeen(cs[..n], c)] == cs[..FirstSeen(cs[..n], c)];
      FirstSeen(cs[..n], c)
    else n
  }

  lemma {:induction false} AllAtInOrder(f: Measure, name: string, cs: seq<string>, d: int, i: nat, j: nat)
    requires i < j < |AllAt(f, name, cs, d)|
    ensures AllAt(f, name, cs, d)[i] in cs && AllAt(f, name, cs, d)[j] in cs
    ensures FirstSeen(cs, AllAt(f, name, cs, d)[i]) < FirstSeen(cs, AllAt(f, name, cs, d)[j])
  {
    AllAtIsAll(f, name, cs, d);
    var n, all, rest := |cs| - 1, AllAt(f, name, cs, d), AllAt(f, name, cs[..|cs| - 1], d);
    AllAtIsAll(f, name, cs[..n], d);
    if j < |rest| {
      AllAtInOrder(f, name, cs[..n], d, i, j);
    } else {
      assert all == rest + [cs[n]] && all[i] in cs[..n] && all[j] !in cs[..n];
    }
  }

  /** What is not offered came too late. */
  lemma NotOfferedIsLater(f: Measure, name: string, cs: seq<string>, c: string, o: string)
    requires c in cs && Eligible(f, name, c) && f(c) == Least(f, name, cs)
    requires c !in Offered(f, name, cs) && o in Offered(f, name, cs)
    ensures o in cs && FirstSeen(cs, o) < FirstSeen(cs, c)
  {
    var all := AllAt(f, name, cs, Least(f, name, cs));
    AllAtIsAll(f, name, cs, Least(f, name, cs));
    var i :| 0 <= i < |Offered(f, name, cs)| && Offered(f, name, cs)[i] == o;
    var j :| 0 <= j < |all| && all[j] == c;
    AllAtInOrder(f, name, cs, Least(f, name, cs), i, j);
  }

  /** What the user is offered: at most `MAX_NG` distinct names in order of appearance, all of
      them eligible and at the least measure of any eligible candidate, and of all such names
      those that appear first. */
  lemma OfferedAreTheClosest(f: Measure, name: string, cs: seq<string>)
    ensures |Offered(f, name, cs)| <= MAX_NG
    ensures forall i, j :: 0 <= i < j < |Offered(f, name, cs)| ==>
      Offered(f, name, cs)[i] in cs && Offered(f, name, cs)[j] in cs
      && FirstSeen(cs, Offered(f, name, cs)[i]) < FirstSeen(cs, Offered(f, name, cs)[j])
    ensures forall c, o ::
      (c in cs && Eligible(f, name, c) && f(c) == Least(f, name, cs) && c !in Offered(f, name, cs)
       && o in Offered(f, name, cs)) ==> o in cs && FirstSeen(cs, o) < FirstSeen(cs, c)
    ensures forall c :: c in Offered(f, name, cs) ==>
      c in cs && Eligible(f, name, c) && forall o :: o in cs && Eligible(f, name, o) ==> f(c) <= f(o)
    ensures forall i, j :: 0 <= i < j < |Offered(f, name, cs)| ==> Offered(f, name, cs)[i] != Offered(f, name, cs)[j]
    ensures |Offered(f, name, cs)| < MAX_NG ==>
      forall c :: c in cs && Eligible(f, name, c) && f(c) == Least(f, name, cs) ==> c in Offered(f, name, cs)
    ensures Offered(f, name, cs) == [] <==> forall c :: c in cs ==> !Eligible(f, name, c)
  {
    LeastIsLeast(f, name, cs);
    AllAtIsAll(f, name, cs, Least(f, name, cs));
    forall i, j | 0 <= i < j < |Offered(f, name, cs)|
      ensures Offered(f, name, cs)[i] in cs && Offered(f, name, cs)[j] in cs
      ensures FirstSeen(cs, Offered(f, name, cs)[i]) < FirstSeen(cs, Offered(f, name, cs)[j]) {
      AllAtInOrder(f, name, cs, Least(f, name, cs), i, j);
    }
    forall c, o | c in cs && Eligible(f, name, c) && f(c) == Least(f, name, cs)
      && c !in Offered(f, name, cs) && o in Offered(f, name, cs)
      ensures o in cs && FirstSeen(cs, o) < FirstSeen(cs, c) {
      NotOfferedIsLater(f, name, cs, c, o);
    }
    if Least(f, name, cs) >= 0 {
      var c :| c in cs && Eligible(f, name, c) && f(c) == Least(f, name, cs);
      assert c in AllAt(f, name, cs, Least(f, name, cs));
    }
  }

  // ---- What the search is for --------------------------------------------------------------

  /** Candidates that may be offered at measure `best`: their length is within five of the
      name's, and no offer is further than seven from it. */
  ghost function CloseAt(f: Measure, name: string, cs: seq<string>, best: int): set<string> {
    set c | c in cs && |name| - 5 <= |c| <= |name| + 5 && f(c) == best <= 7
  }

  /** Of the names in `all` the first nine to appear, in that order. */
  ghost predicate FirstNine(cs: seq<string>, all: set<string>, names: seq<string>)
    requires forall c :: c in all ==> c in cs
  {
    && |names| <= 9 && (names == [] <==> all == {})
    && (forall i :: 0 <= i < |names| ==> names[i] in all)
    && (forall i, j :: 0 <= i < j < |names| ==> FirstSeen(cs, names[i]) < FirstSeen(cs, names[j]))
    && (forall c :: c in all && c !in names ==>
         |names| == 9 && forall i :: 0 <= i < |names| ==> FirstSeen(cs, names[i]) < FirstSeen(cs, c))
  }

  /** The answer told without the search. */
  ghost predicate Closest(f: Measure, name: string, cs: seq<string>, names: seq<string>, best: int) {
    && best >= -1
    && (best < 0 <==> forall c :: c in cs && |name| - 5 <= |c| <= |name| + 5 ==> f(c) > 7)
    && (best >= 0 ==> exists c :: c in CloseAt(f, name, cs, best))
    && (forall c :: c in cs && |name| - 5 <= |c| <= |name| + 5 && f(c) <= 7 ==> best <= f(c))
    && FirstNine(cs, CloseAt(f, name, cs, best), names)
  }

  /** What is offered is just that. */
  lemma OfferedIsClosest(f: Measure, name: string, cs: seq<string>)
    ensures Closest(f, name, cs, Offered(f, name, cs), Least(f, name, cs))
  {
    hide Offered, Least, FirstSeen;
    OfferedAreTheClosest(f, name, cs);
    LeastIsLeast(f, name, cs);
    var all := CloseAt(f, name, cs, Least(f, name, cs));
    assert forall c :: c in all <==> c in cs && Eligible(f, name, c) && f(c) == Least(f, name, cs);
  }

  /** Nothing else is: there is one answer. */
  lemma ClosestIsOne(f: Measure, name: string, cs: seq<string>, m: seq<string>, b: int, m': seq<string>, b': int)
    requires Closest(f, name, cs, m, b) && Closest(f, name, cs, m', b')
    ensures m == m' && b == b'
  {
    hide FirstNine;
    var all := CloseAt(f, name, cs, b);
    if b >= 0 {
      var c :| c in CloseAt(f, name, cs, b);
      var c' :| c' in CloseAt(f, name, cs, b');
    }
    FirstNineAreOne(cs, all, m, m');
  }

  lemma FirstNineAreOne(cs: seq<string>, all: set<string>, m: seq<string>, m': seq<string>)
    requires (forall c :: c in all ==> c in cs) && FirstNine(cs, all, m) && FirstNine(cs, all, m')
    ensures m == m'
  {
    if |m| <= |m'| {
      OneStarts(cs, all, m, m');
    } else {
      OneStarts(cs, all, m', m);
    }
  }

  lemma OneStarts(cs: seq<string>, all: set<string>, m: seq<string>, m': seq<string>)
    requires (forall c :: c in all ==> c in cs) && FirstNine(cs, all, m) && FirstNine(cs, all, m') && |m| <= |m'|
    ensures m == m'
  {
    hide FirstSeen;
    SameStart(cs, all, m, m', |m|);
    if |m| < |m'| {
      var y := m'[|m|];
      assert y in all;
      forall i | 0 <= i < |m| ensures m[i] != y {
        assert m[i] == m'[i];
      }
    }
  }

  lemma {:induction false} SameStart(cs: seq<string>, all: set<string>, m: seq<string>, m': seq<string>, n: nat)
    requires (forall c :: c in all ==> c in cs) && FirstNine(cs, all, m) && FirstNine(cs, all, m')
    requires n <= |m| && n <= |m'|
    ensures forall i :: 0 <= i < n ==> m[i] == m'[i]
  {
    hide FirstNine, FirstSeen;
    if n > 0 {
      SameStart(cs, all, m, m', n - 1);
      NoneEarlier(cs, all, m, m', n - 1);
      NoneEarlier(cs, all, m', m, n - 1);
    }
  }

  /** As long as two answers are the same, neither goes on with an earlier name than the other. */
  lemma NoneEarlier(cs: seq<string>, all: set<string>, m: seq<string>, m': seq<string>, k: nat)
    requires (forall c :: c in all ==> c in cs) && FirstNine(cs, all, m) && FirstNine(cs, all, m')
    requires k < |m| && k < |m'| && forall i :: 0 <= i < k ==> m[i] == m'[i]
    ensures m[k] in all && m'[k] in all && FirstSeen(cs, m[k]) >= FirstSeen(cs, m'[k])
  {
    hide FirstSeen;
    if m[k] in m' {
      var j :| 0 <= j < |m'| && m'[j] == m[k];
      assert j >= k;
    }
  }

  /** How one more candidate changes the answer. */
  lemma OneMoreCandidate(f: Measure, name: string, cs: seq<string>, c: string)
    ensures
      var b, m, d := Least(f, name, cs), Offered(f, name, cs), f(c);
      var b', m' := Least(f, name, cs + [c]), Offered(f, name, cs + [c]);
      if !Eligible(f, name, c) || (b >= 0 && d > b) then b' == b && m' == m
      else if b < 0 || d < b then b' == d && m' == [c]
      else b' == b && m' == if c in m || |m| >= MAX_NG then m else m + [c]
    ensures Least(f, name, cs) >= -1 && (Least(f, name, cs) < 0 ==> Offered(f, name, cs) == [])
    ensures c in Offered(f, name, cs) ==> Eligible(f, name, c) && f(c) == Least(f, name, cs)
  {
    var d := f(c);
    assert (cs + [c])[..|cs|] == cs;
    LeastIsLeast(f, name, cs);
    AllAtIsAll(f, name, cs, d);
    AllAtIsAll(f, name, cs, Least(f, name, cs));
  }

  /** Only the measures of candidates that pass the filter matter, and they only up to the limit. */
  lemma {:induction false} SameOffers(f: Measure, f': Measure, name: string, cs: seq<string>, d: int)
    requires forall c :: c in cs && LengthGap(name, c) <= LENGTH_HACK ==> f(c) == f'(c) || (f(c) > MIN_DIST && f'(c) > MIN_DIST)
    ensures Least(f, name, cs) == Least(f', name, cs) && AllAt(f, name, cs, d) == AllAt(f', name, cs, d)
  {
    if cs != [] {
      var n := |cs| - 1;
      SameOffers(f, f', name, cs[..n], d);
      assert cs[n] in cs;
    }
  }

  // ---- The length filter -----------------------------------------------------------------

  lemma {:induction false} SharedPrefixIsFree(name: string, to: string, r: nat)
    requires r <= |name| <= |to| && to[..|name|] == name
    ensures Dist(name, to, r, r) == 0
  {
    if r > 0 {
      SharedPrefixIsFree(name, to, r - 1);
      assert to[r - 1] == to[..|name|][r - 1];
    }
  }

  lemma {:induction false} AppendedCell(name: string, to: string, r: nat)
    requires |name| <= r <= |to| && to[..|name|] == name
    ensures Dist(name, to, r, |name|) == r - |name|
  {
    CellAtLeastLengthGap(name, to, r, |name|);
    if r == |name| {
      SharedPrefixIsFree(name, to, r);
    } else {
      AppendedCell(name, to, r - 1);
      CellAtMost(Insert(to[r - 1]), name, to, r, |name|);
    }
  }

  lemma AppendingCostsItsLength(name: string, suffix: string)
    ensures Distance(name, name + suffix) == |suffix|
  {
    AppendedCell(name, name + suffix, |name + suffix|);
  }

  /** A length filter of `hack` loses no name within `limit` edits exactly when it is no
      tighter than the limit. */
  lemma FilterLosesNothingIff(hack: nat, limit: nat)
    ensures (forall name: string, c: string :: Distance(name, c) <= limit ==> LengthGap(name, c) <= hack)
            <==> hack >= limit
  {
    if hack >= limit {
      forall name: string, c: string | Distance(name, c) <= limit ensures LengthGap(name, c) <= hack {
        CellAtLeastLengthGap(name, c, |c|, |name|);
      }
    } else {
      var c: string := seq(limit, _ => 'x');
      assert Distance("", c) == limit && LengthGap("", c) == limit;
    }
  }

  /** With the limits the source uses, every name loses the groups that extend it by six or
      seven letters. */
  lemma FilterLosesLongerNames(name: string, suffix: string)
    requires |suffix| == 6 || |suffix| == 7
    ensures Distance(name, name + suffix) <= 7 && !Eligible(ByEdits(name), name, name + suffix)
  {
    AppendingCostsItsLength(name, suffix);
  }

  // ---- Names that are traded ---------------------------------------------------------------

  /** A name of more than 498 letters loses the one group it should be offered: the group two
      to five letters shorter is eligible, but measured beyond the limit. */
  lemma TradedNameIsLost(m: nat, n: nat)
    requires m > 498 && 2 <= m - n <= 5
    ensures Offered(ByEdits(Letters(m)), Letters(m), [Letters(n)]) == [Letters(n)]
    ensures Offered(ByProgram(Letters(m)), Letters(m), [Letters(n)]) == []
  {
    hide Put, Returned, Measured, Dist;
    NearLengthsFail(m, n);
    OneMoreCandidate(ByEdits(Letters(m)), Letters(m), [], Letters(n));
    OneMoreCandidate(ByProgram(Letters(m)), Letters(m), [], Letters(n));
    assert [] + [Letters(n)] == [Letters(n)];
  }

  /** The search finds what it should. */
  ghost predicate SearchRight(name: string, cs: seq<string>) {
    && Offered(ByProgram(name), name, cs) == Offered(ByEdits(name), name, cs)
    && Least(ByProgram(name), name, cs) == Least(ByEdits(name), name, cs)
  }

  ghost predicate OfLengths(cs: seq<string>, lengths: seq<nat>) {
    |cs| == |lengths| && forall i :: 0 <= i < |cs| ==> |cs[i]| == lengths[i]
  }

  /** Two names without a letter in common. */
  lemma {:induction false} ForeignCell(from: string, to: string, r: nat, c: nat)
    requires r <= |to| && c <= |from| && forall i, j :: 0 <= i < |from| && 0 <= j < |to| ==> from[i] != to[j]
    ensures Dist(from, to, r, c) >= c
    decreases r + c
  {
    if r > 0 && c > 0 {
      CellIsOneOf(from, to, r, c);
      ForeignCell(from, to, r - 1, c - 1);
      ForeignCell(from, to, r - 1, c);
      ForeignCell(from, to, r, c - 1);
    }
  }

  function Foreign(n: nat): (s: string)
    ensures |s| == n && forall i :: 0 <= i < n ==> s[i] == 'b'
  {
    seq(n, _ => 'b')
  }

  /** Candidates of the given lengths, one of them of the name's own letter. */
  function OneLike(lengths: seq<nat>, k: nat): seq<string>
    requires k < |lengths|
  {
    seq(|lengths|, i requires 0 <= i < |lengths| => if i == k then Letters(lengths[i]) else Foreign(lengths[i]))
  }

  /** Among names of one other letter the shorter one is the only one to be offered. */
  lemma OneIsClose(m: nat, lengths: seq<nat>, k: nat)
    requires m > STRLENTHRESHOLD && k < |lengths| && 1 <= m - lengths[k] <= LENGTH_HACK
    ensures
      var name, c, cs := Letters(m), Letters(lengths[k]), OneLike(lengths, k);
      && OfLengths(cs, lengths) && c in Offered(ByEdits(name), name, cs)
      && Least(ByEdits(name), name, cs) == m - lengths[k]
  {
    hide Put, Returned, Measured, Dist;
    var name, c, cs := Letters(m), Letters(lengths[k]), OneLike(lengths, k);
    var f := ByEdits(name);
    LettersDistance(m, lengths[k]);
    assert cs[k] == c && c in cs && Eligible(f, name, c);
    forall x | x in cs && x != c ensures !Eligible(f, name, x) {
      var i :| 0 <= i < |cs| && cs[i] == x;
      ForeignCell(name, x, |x|, m);
    }
    LeastIsLeast(f, name, cs);
    OfferedAreTheClosest(f, name, cs);
    AllAtIsAll(f, name, cs, Least(f, name, cs));
    OnlyOne(AllAt(f, name, cs, Least(f, name, cs)), c);
  }

  lemma OnlyOne(l: seq<string>, c: string)
    requires c in l && (forall i, j :: 0 <= i < j < |l| ==> l[i] != l[j]) && forall x :: x in l ==> x == c
    ensures l == [c]
  {
    assert |l| < 2 || l[0] != l[1];
    forall i | 0 <= i < |l| ensures l[i] == c { assert l[i] in l; }
  }

  /** Exactly which searches are right whatever the letters: those for names that are not too
      long, or among candidates none of which is one to five letters shorter. */
  lemma SearchRightIff(m: nat, lengths: seq<nat>)
    ensures (forall name: string, cs: seq<string> :: |name| == m && OfLengths(cs, lengths) ==> SearchRight(name, cs))
            <==> m <= 498 || forall n :: n in lengths ==> !(1 <= m - n <= 5)
  {
    hide Put, Returned, Measured, Dist, Offered, Least;
    if m <= STRLENTHRESHOLD || forall n :: n in lengths ==> !(1 <= m - n <= LENGTH_HACK) {
      forall name: string, cs: seq<string> | |name| == m && OfLengths(cs, lengths) ensures SearchRight(name, cs) {
        forall c | c in cs && LengthGap(name, c) <= LENGTH_HACK ensures !TradesArguments(name, c) {
          var i :| 0 <= i < |cs| && cs[i] == c;
          assert lengths[i] in lengths;
        }
        NoneTraded(name, cs);
      }
    } else {
      var k :| 0 <= k < |lengths| && 1 <= m - lengths[k] <= LENGTH_HACK;
      var name, c, cs := Letters(m), Letters(lengths[k]), OneLike(lengths, k);
      OneIsClose(m, lengths, k);
      NearLengthsFail(m, lengths[k]);
      OfferedAreTheClosest(ByProgram(name), name, cs);
      OneMoreCandidate(ByProgram(name), name, cs, c);
      assert !SearchRight(name, cs);
    }
  }

  /** Where nothing is traded the search is right. */
  lemma NoneTraded(name: string, cs: seq<string>)
    requires forall c :: c in cs && LengthGap(name, c) <= LENGTH_HACK ==> !TradesArguments(name, c)
    ensures SearchRight(name, cs)
  {
    hide Put, Returned, Dist;
    forall c | c in cs && LengthGap(name, c) <= LENGTH_HACK
      ensures Meets(Measured(name, c), Distance(name, c)) {
      MeasuredRight(name, c);
    }
    SameOffers(ByProgram(name), ByEdits(name), name, cs, Least(ByEdits(name), name, cs));
  }

  // ---- The search ------------------------------------------------------------------------

  /** The running state of `find_close_match`: best measure so far and the names at it. */
  class Search {
    const name: string
    var matches: seq<string>
    var bestMatch: int
    ghost var seen: seq<string>

    ghost predicate Valid() reads this {
      bestMatch == Least(ByProgram(name), name, seen) && matches == Offered(ByProgram(name), name, seen)
    }

    constructor (name: string)
      ensures Valid() && seen == [] && this.name == name
    {
      this.name := name;
      matches, bestMatch, seen := [], -1, [];
    }

    method CheckDistance(candidate: string)
      requires Valid()
      modifies this
      ensures Valid() && seen == old(seen) + [candidate]
    {
      hide Measured, Dist, Offered, Least;
      seen := seen + [candidate];
      OneMoreCandidate(ByProgram(name), name, old(seen), candidate);
      if LengthGap(name, candidate) > LENGTH_HACK {
        return;
      }
      var value := EditDistn(name, candidate);
      if value > MIN_DIST {
        return;
      }
      if value < bestMatch {
        matches := [];
      }
      if bestMatch < 0 || value <= bestMatch {
        if candidate in matches {
          return;
        }
        bestMatch := value;
        if |matches| < MAX_NG {
          matches := matches + [candidate];
        }
      }
    }
  }

  /** Runs the search over every candidate, in order. It answers by what `edit_distn` measures,
      which is right for every name that is not too long. */
  method FindCloseMatch(name: string, candidates: seq<string>) returns (matches: seq<string>, bestMatch: int)
    ensures Closest(ByProgram(name), name, candidates, matches, bestMatch)
    ensures |name| <= 498 ==> Closest(ByEdits(name), name, candidates, matches, bestMatch)
    ensures matches == Offered(ByProgram(name), name, candidates) && bestMatch == Least(ByProgram(name), name, candidates)
  {
    var search := new Search(name);
    for i := 0 to |candidates|
      invariant search.Valid() && search.seen == candidates[..i]
      invariant search.name == name
    {
      search.CheckDistance(candidates[i]);
    }
    assert candidates[..|candidates|] == candidates;
    matches, bestMatch := search.matches, search.bestMatch;
    OfferedIsClosest(ByProgram(name), name, candidates);
    if |name| <= STRLENTHRESHOLD {
      NoneTraded(name, candidates);
      OfferedIsClosest(ByEdits(name), name, candidates);
    }
  }
}
