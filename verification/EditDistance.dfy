/** The string distance behind "did you mean this newsgroup?" (libtrn/edit_dist.cpp).

    `Dist` is the recurrence of the source's comment, `EditDistn` the circular-buffer
    loop, and `Script` an independent definition: what a person would call an edit. */
module EditDistance {

  const MIN_DIST := 7
  const STRLENTHRESHOLD := 498

  function Min(a: int, b: int): int { if b < a then b else a }

  function Min3(a: int, b: int, c: int): int { Min(Min(a, b), c) }

  /** Cell (r, c) of the matrix: rows walk over `to`, columns over `from`. */
  function Dist<T(==)>(from: seq<T>, to: seq<T>, r: nat, c: nat): nat
    requires r <= |to| && c <= |from|
    decreases r + c, 1
  {
    if r == 0 then c else if c == 0 then r else Cheapest(from, to, r, c)
  }

  /** The best way to reach an inner cell: change or keep, insert, delete, or swap two neighbours. */
  function Cheapest<T(==)>(from: seq<T>, to: seq<T>, r: nat, c: nat): nat
    requires 1 <= r <= |to| && 1 <= c <= |from|
    decreases r + c, 0
  {
    var plain := Min3(Dist(from, to, r - 1, c - 1) + (if from[c - 1] == to[r - 1] then 0 else 1),
                      Dist(from, to, r - 1, c) + 1, Dist(from, to, r, c - 1) + 1);
    if r >= 2 && c >= 2 && from[c - 1] == to[r - 2] && from[c - 2] == to[r - 1]
    then Min(plain, Dist(from, to, r - 2, c - 2) + 1)
    else plain
  }

  function Distance<T(==)>(from: seq<T>, to: seq<T>): nat {
    Dist(from, to, |to|, |from|)
  }

  // ---- An independent definition: the cheapest script of edits --------------------

  datatype Edit<T> = Keep(x: T) | Change(old_: T, new_: T) | Insert(x: T) | Delete(x: T) | Swap(a: T, b: T) {
    function Before(): seq<T> {
      match this
      case Keep(x) => [x]
      case Change(o, _) => [o]
      case Insert(_) => []
      case Delete(x) => [x]
      case Swap(a, b) => [a, b]
    }

    function After(): seq<T> {
      match this
      case Keep(x) => [x]
      case Change(_, n) => [n]
      case Insert(x) => [x]
      case Delete(_) => []
      case Swap(a, b) => [b, a]
    }

    function Cost(): nat { if Keep? then 0 else 1 }
  }

  type Script<T> = seq<Edit<T>>

  function Before<T>(s: Script<T>): seq<T> {
    if s == [] then [] else Before(s[..|s| - 1]) + s[|s| - 1].Before()
  }

  function After<T>(s: Script<T>): seq<T> {
    if s == [] then [] else After(s[..|s| - 1]) + s[|s| - 1].After()
  }

  function Cost<T>(s: Script<T>): nat {
    if s == [] then 0 else Cost(s[..|s| - 1]) + s[|s| - 1].Cost()
  }

  ghost predicate Turns<T>(s: Script<T>, from: seq<T>, to: seq<T>) {
    Before(s) == from && After(s) == to
  }

  /** Edit `e` consumes the tail of `from[..c]` and yields the tail of `to[..r]`. */
  ghost predicate Fits<T>(e: Edit<T>, from: seq<T>, to: seq<T>, r: nat, c: nat) {
    && |e.After()| <= r <= |to| && |e.Before()| <= c <= |from|
    && from[c - |e.Before()|..c] == e.Before() && to[r - |e.After()|..r] == e.After()
  }

  /** No step to a cell costs more than one. */
  lemma CellBounds<T>(from: seq<T>, to: seq<T>, r: nat, c: nat)
    requires r <= |to| && c <= |from|
    ensures r >= 1 ==> Dist(from, to, r, c) <= Dist(from, to, r - 1, c) + 1
    ensures c >= 1 ==> Dist(from, to, r, c) <= Dist(from, to, r, c - 1) + 1
    ensures r >= 1 && c >= 1 ==>
      Dist(from, to, r, c) <= Dist(from, to, r - 1, c - 1) + if from[c - 1] == to[r - 1] then 0 else 1
    ensures r >= 2 && c >= 2 && from[c - 1] == to[r - 2] && from[c - 2] == to[r - 1] ==>
      Dist(from, to, r, c) <= Dist(from, to, r - 2, c - 2) + 1
  {
  }

  /** A cell costs no more than any fitting last edit after the cell it came from ... */
  lemma CellAtMost<T>(e: Edit<T>, from: seq<T>, to: seq<T>, r: nat, c: nat)
    requires Fits(e, from, to, r, c)
    ensures Dist(from, to, r, c) <= Dist(from, to, r - |e.After()|, c - |e.Before()|) + e.Cost()
  {
    hide Dist;
    CellBounds(from, to, r, c);
    var b, a := from[c - |e.Before()|..c], to[r - |e.After()|..r];
    match e
    case Keep(x) => assert b[0] == x && a[0] == x;
    case Change(o, n) =>
    case Insert(x) =>
    case Delete(x) =>
    case Swap(x, y) => assert b[0] == x && b[1] == y && a[0] == y && a[1] == x;
  }

  lemma CellIsOneOf<T>(from: seq<T>, to: seq<T>, r: nat, c: nat)
    requires 1 <= r <= |to| && 1 <= c <= |from|
    ensures
      var d := Dist(from, to, r, c);
      || d == Dist(from, to, r - 1, c - 1) + (if from[c - 1] == to[r - 1] then 0 else 1)
      || d == Dist(from, to, r - 1, c) + 1
      || d == Dist(from, to, r, c - 1) + 1
      || (r >= 2 && c >= 2 && from[c - 1] == to[r - 2] && from[c - 2] == to[r - 1]
          && d == Dist(from, to, r - 2, c - 2) + 1)
  {
  }

  ghost predicate Attains<T>(e: Edit<T>, from: seq<T>, to: seq<T>, r: nat, c: nat) {
    && Fits(e, from, to, r, c)
    && Dist(from, to, r, c) == Dist(from, to, r - |e.After()|, c - |e.Before()|) + e.Cost()
  }

  lemma OneFromEach<T>(e: Edit<T>, from: seq<T>, to: seq<T>, r: nat, c: nat)
    requires 1 <= r <= |to| && 1 <= c <= |from|
    requires e == if from[c - 1] == to[r - 1] then Keep(to[r - 1]) else Change(from[c - 1], to[r - 1])
    requires Dist(from, to, r, c) == Dist(from, to, r - 1, c - 1) + e.Cost()
    ensures Attains(e, from, to, r, c)
  {
    assert |e.Before()| == |e.After()| == 1;
  }

  lemma OneInserted<T>(from: seq<T>, to: seq<T>, r: nat, c: nat)
    requires 1 <= r <= |to| && c <= |from|
    requires Dist(from, to, r, c) == Dist(from, to, r - 1, c) + 1
    ensures Attains(Insert(to[r - 1]), from, to, r, c)
  {
  }

  lemma OneDeleted<T>(from: seq<T>, to: seq<T>, r: nat, c: nat)
    requires r <= |to| && 1 <= c <= |from|
    requires Dist(from, to, r, c) == Dist(from, to, r, c - 1) + 1
    ensures Attains(Delete(from[c - 1]), from, to, r, c)
  {
  }

  lemma OneSwapped<T>(from: seq<T>, to: seq<T>, r: nat, c: nat)
    requires 2 <= r <= |to| && 2 <= c <= |from| && from[c - 1] == to[r - 2] && from[c - 2] == to[r - 1]
    requires Dist(from, to, r, c) == Dist(from, to, r - 2, c - 2) + 1
    ensures Attains(Swap(from[c - 2], from[c - 1]), from, to, r, c)
  {
    hide Dist;
    var e := Swap(from[c - 2], from[c - 1]);
    assert from[c - 2..c] == e.Before() && to[r - 2..r] == e.After();
  }

  /** ... and exactly as much as the best of them. */
  lemma LastEdit<T>(from: seq<T>, to: seq<T>, r: nat, c: nat) returns (e: Edit<T>)
    requires r <= |to| && c <= |from| && r + c > 0
    ensures Attains(e, from, to, r, c)
  {
    hide Dist, Attains;
    Edges(from, to, r, c);
    if c > 0 && Dist(from, to, r, c) == Dist(from, to, r, c - 1) + 1 {
      OneDeleted(from, to, r, c);
      e := Delete(from[c - 1]);
    } else if r > 0 && Dist(from, to, r, c) == Dist(from, to, r - 1, c) + 1 {
      OneInserted(from, to, r, c);
      e := Insert(to[r - 1]);
    } else {
      CellIsOneOf(from, to, r, c);
      e := if from[c - 1] == to[r - 1] then Keep(to[r - 1]) else Change(from[c - 1], to[r - 1]);
      if Dist(from, to, r, c) == Dist(from, to, r - 1, c - 1) + e.Cost() {
        OneFromEach(e, from, to, r, c);
      } else {
        OneSwapped(from, to, r, c);
        e := Swap(from[c - 2], from[c - 1]);
      }
    }
  }

  lemma Edges<T>(from: seq<T>, to: seq<T>, r: nat, c: nat)
    requires r <= |to| && c <= |from|
    ensures r == 0 && c > 0 ==> Dist(from, to, r, c) == Dist(from, to, r, c - 1) + 1
    ensures c == 0 && r > 0 ==> Dist(from, to, r, c) == Dist(from, to, r - 1, c) + 1
  {
  }

  lemma AppendEdit<T>(s: Script<T>, e: Edit<T>, from: seq<T>, to: seq<T>, r: nat, c: nat)
    requires Fits(e, from, to, r, c)
    requires Turns(s, from[..c - |e.Before()|], to[..r - |e.After()|])
    ensures Turns(s + [e], from[..c], to[..r]) && Cost(s + [e]) == Cost(s) + e.Cost()
  {
    assert (s + [e])[..|s|] == s;
    assert from[..c] == from[..c - |e.Before()|] + from[c - |e.Before()|..c];
    assert to[..r] == to[..r - |e.After()|] + to[r - |e.After()|..r];
  }

  ghost predicate BestAt<T>(s: Script<T>, from: seq<T>, to: seq<T>, r: nat, c: nat) {
    && r <= |to| && c <= |from|
    && Turns(s, from[..c], to[..r]) && Cost(s) == Dist(from, to, r, c)
  }

  lemma BestStep<T>(s: Script<T>, e: Edit<T>, from: seq<T>, to: seq<T>, r: nat, c: nat)
    requires Attains(e, from, to, r, c)
    requires BestAt(s, from, to, r - |e.After()|, c - |e.Before()|)
    ensures BestAt(s + [e], from, to, r, c)
  {
    AppendEdit(s, e, from, to, r, c);
  }

  /** Some script turns `from[..c]` into `to[..r]` at exactly the cost in the cell. */
  lemma {:induction false} BestScript<T>(from: seq<T>, to: seq<T>, r: nat, c: nat) returns (s: Script<T>)
    requires r <= |to| && c <= |from|
    ensures BestAt(s, from, to, r, c)
    decreases r + c
  {
    if r + c == 0 {
      s := [];
    } else {
      var e := LastEdit(from, to, r, c);
      var r', c' := r - |e.After()|, c - |e.Before()|;
      var rest := BestScript(from, to, r', c');
      BestStep(rest, e, from, to, r, c);
      s := rest + [e];
    }
  }

  lemma LastFits<T>(e: Edit<T>, from: seq<T>, to: seq<T>, r: nat, c: nat)
    requires |e.After()| <= r <= |to| && |e.Before()| <= c <= |from|
    requires from[c - |e.Before()|..c] == e.Before() && to[r - |e.After()|..r] == e.After()
    ensures Fits(e, from, to, r, c)
  {
  }

  lemma NothingIsFree<T>(from: seq<T>, to: seq<T>)
    ensures Dist(from, to, 0, 0) == 0
  {
  }

  /** No script is cheaper than the cell. */
  lemma {:induction false} NoCheaperScript<T>(s: Script<T>, from: seq<T>, to: seq<T>, r: nat, c: nat)
    requires r <= |to| && c <= |from|
    requires Turns(s, from[..c], to[..r])
    ensures Dist(from, to, r, c) <= Cost(s)
    decreases |s|
  {
    hide Dist, Fits;
    if s == [] {
      NothingIsFree(from, to);
    } else {
      var e, rest := s[|s| - 1], s[..|s| - 1];
      var b, a := |e.Before()|, |e.After()|;
      assert from[..c] == Before(rest) + e.Before() && to[..r] == After(rest) + e.After();
      assert from[..c][..c - b] == from[..c - b] && from[..c][c - b..] == from[c - b..c];
      assert to[..r][..r - a] == to[..r - a] && to[..r][r - a..] == to[r - a..r];
      LastFits(e, from, to, r, c);
      CellAtMost(e, from, to, r, c);
      NoCheaperScript(rest, from, to, r - a, c - b);
    }
  }

  /** `Distance` is the least cost of a script, and some script attains it. */
  lemma DistanceIsLeastCost<T>(from: seq<T>, to: seq<T>)
    ensures exists s: Script<T> :: Turns(s, from, to) && Cost(s) == Distance(from, to)
    ensures forall s: Script<T> :: Turns(s, from, to) ==> Distance(from, to) <= Cost(s)
  {
    assert from[..|from|] == from && to[..|to|] == to;
    var s := BestScript(from, to, |to|, |from|);
    assert Turns(s, from, to);
    forall s: Script<T> | Turns(s, from, to) ensures Distance(from, to) <= Cost(s) {
      NoCheaperScript(s, from, to, |to|, |from|);
    }
  }

  // ---- Laws the callers rely on ----------------------------------------------------

  /** A cell from its neighbours. */
  function Combined(nw: nat, n: nat, w: nat, nnww: nat, same: bool, swap: bool): nat {
    var plain := Min3(nw + (if same then 0 else 1), n + 1, w + 1);
    if swap then Min(plain, nnww + 1) else plain
  }

  lemma CellIs<T>(from: seq<T>, to: seq<T>, r: nat, c: nat)
    requires 1 <= r <= |to| && 1 <= c <= |from|
    ensures
      var swap := r >= 2 && c >= 2 && from[c - 1] == to[r - 2] && from[c - 2] == to[r - 1];
      Dist(from, to, r, c) == Combined(Dist(from, to, r - 1, c - 1), Dist(from, to, r - 1, c), Dist(from, to, r, c - 1),
                                       if swap then Dist(from, to, r - 2, c - 2) else 0, from[c - 1] == to[r - 1], swap)
  {
  }

  lemma {:induction false} CellSymmetric<T>(from: seq<T>, to: seq<T>, r: nat, c: nat)
    requires r <= |to| && c <= |from|
    ensures Dist(from, to, r, c) == Dist(to, from, c, r)
    decreases r + c
  {
    if r > 0 && c > 0 {
      CellsSymmetric(from, to, r, c);
    }
  }

  lemma {:induction false} CellsSymmetric<T>(from: seq<T>, to: seq<T>, r: nat, c: nat)
    requires 1 <= r <= |to| && 1 <= c <= |from|
    ensures Dist(from, to, r, c) == Dist(to, from, c, r)
    decreases r + c, 0
  {
    hide Dist;
    CellIs(from, to, r, c);
    CellIs(to, from, c, r);
    CellSymmetric(from, to, r - 1, c - 1);
    CellSymmetric(from, to, r - 1, c);
    CellSymmetric(from, to, r, c - 1);
    if r >= 2 && c >= 2 {
      CellSymmetric(from, to, r - 2, c - 2);
    }
  }

  /** Swapping the arguments would be harmless, were the buffer sized after the swap. */
  lemma DistanceSymmetric<T>(from: seq<T>, to: seq<T>)
    ensures Distance(from, to) == Distance(to, from)
  {
    CellSymmetric(from, to, |to|, |from|);
  }

  lemma {:induction false} CellAtLeastLengthGap<T>(from: seq<T>, to: seq<T>, r: nat, c: nat)
    requires r <= |to| && c <= |from|
    ensures Dist(from, to, r, c) >= r - c && Dist(from, to, r, c) >= c - r
    decreases r + c
  {
    if r > 0 && c > 0 {
      CellAtLeastLengthGap(from, to, r - 1, c - 1);
      CellAtLeastLengthGap(from, to, r - 1, c);
      CellAtLeastLengthGap(from, to, r, c - 1);
      if r >= 2 && c >= 2 {
        CellAtLeastLengthGap(from, to, r - 2, c - 2);
      }
    }
  }

  // ---- Why stopping on a row minimum is sound --------------------------------------

  /** Every cell of row `r` outside column zero exceeds `limit`. */
  ghost predicate RowAbove<T>(from: seq<T>, to: seq<T>, r: nat, limit: int)
    requires r <= |to|
  {
    forall c :: 1 <= c <= |from| ==> Dist(from, to, r, c) > limit
  }

  lemma ChangeStep<T>(from: seq<T>, to: seq<T>, r: nat, c: nat)
    requires 1 <= r <= |to| && 1 <= c <= |from|
    ensures Dist(from, to, r, c) <= Dist(from, to, r - 1, c - 1) + 1
  {
  }

  lemma StepAbove<T>(from: seq<T>, to: seq<T>, r: nat, c: nat, limit: int)
    requires 1 <= r <= |to| && 1 <= c <= |from|
    requires Dist(from, to, r - 1, c - 1) > limit
    requires Dist(from, to, r - 1, c) > limit && Dist(from, to, r, c - 1) > limit
    requires r >= 2 && c >= 2 ==> Dist(from, to, r - 2, c - 2) >= limit
    ensures Dist(from, to, r, c) > limit
  {
  }

  /** Once a row is above the limit (column zero unchecked), so is everything below it,
      although a swap reaches two rows back and column zero was never looked at. */
  lemma {:induction false} RowAboveForever<T>(from: seq<T>, to: seq<T>, row: nat, limit: int, r: nat, c: nat)
    requires 1 <= row <= r <= |to| && c <= |from| && |from| > 0
    requires RowAbove(from, to, row, limit)
    ensures Dist(from, to, r, c) > limit
    decreases r + c
  {
    if c == 0 {
      ChangeStep(from, to, row, 1);
    } else if r > row {
      RowAboveForever(from, to, row, limit, r - 1, c - 1);
      RowAboveForever(from, to, row, limit, r - 1, c);
      RowAboveForever(from, to, row, limit, r, c - 1);
      if r >= 2 && c >= 2 {
        if r - 2 >= row {
          RowAboveForever(from, to, row, limit, r - 2, c - 2);
        } else {
          ChangeStep(from, to, row, c - 1);
        }
      }
      StepAbove(from, to, r, c, limit);
    }
  }

  // ---- The circular buffer -----------------------------------------------------------

  /** The slot `j` writes before the write position, in a ring of `radix` slots. */
  function Back(index: nat, j: nat, radix: nat): (slot: nat)
    requires index < radix && j < radix
    ensures slot < radix
  {
    if j <= index then index - j else index + radix - j
  }

  /** The reading offsets of the source's macros: each names the cell it is meant to
      name exactly when the ring was sized for the string now running over the columns. */
  lemma OffsetsNameEarlierCells(index: nat, fromLen: nat, radix: nat)
    requires index < radix && 2 * fromLen + 3 <= radix
    ensures (index + radix - 1) % radix == Back(index, 1, radix)
    ensures (index + fromLen + 2) % radix == Back(index, fromLen + 1, radix) <==> radix == 2 * fromLen + 3
    ensures (index + fromLen + 3) % radix == Back(index, fromLen, radix) <==> radix == 2 * fromLen + 3
    ensures (index + 1) % radix == Back(index, 2 * fromLen + 2, radix) <==> radix == 2 * fromLen + 3
  {
    ModOnce(index + radix - 1, radix);
    ModOnce(index + fromLen + 2, radix);
    ModOnce(index + fromLen + 3, radix);
    ModOnce(index + 1, radix);
  }

  lemma ModOnce(x: nat, radix: nat)
    requires 0 < radix && x < 2 * radix
    ensures x % radix == if x < radix then x else x - radix
  {
    if x >= radix {
      assert x == radix + (x - radix);
    }
  }

  // ---- A ring of any size -------------------------------------------------------------

  predicate Same(from: string, to: string, row: int, col: int) {
    0 <= row < |to| && 0 <= col < |from| && from[col] == to[row]
  }

  predicate Swapped(from: string, to: string, row: int, col: int) {
    Same(from, to, row - 1, col) && Same(from, to, row, col - 1)
  }

  /** What the source writes in its `t`-th write (cell (t / |from|, t % |from|) of the strings)
      when its ring has `radix` slots, and zero for what was there before the first write. */
  ghost function Put(from: string, to: string, radix: nat, t: int): (v: int)
    requires from != "" && radix >= 2 * |from| + 3
    ensures v >= 0
    decreases if t < 0 then 0 else t + 1
  {
    var n := |from|;
    if t < 0 then 0
    else if t < n then
      if t == 0 then if Same(from, to, 0, 0) then 0 else 1
      else Min3(t + (if Same(from, to, 0, t) then 0 else 1), t + 2, Put(from, to, radix, t - 1) + 1)
    else PutAt(from, to, radix, t, t / n, t % n)
  }

  /** ... from the second row on, where cell (row, col) is due. */
  ghost function PutAt(from: string, to: string, radix: nat, t: int, row: int, col: int): (v: int)
    requires from != "" && radix >= 2 * |from| + 3 && t >= |from| && row >= 1 && col >= 0
    ensures v >= 0
    decreases t + 1, 0
  {
    var nw := if col == 0 then row else Put(from, to, radix, t - (radix - |from| - 2));
    var above := Put(from, to, radix, t - (radix - |from| - 3));
    var w := if col == 0 then row + 1 else Put(from, to, radix, t - 1);
    var plain := Min3(nw + (if Same(from, to, row, col) then 0 else 1), above + 1, w + 1);
    if col > 0 && Swapped(from, to, row, col)
    then Min(plain, (if row == 1 then col - 1 else if col == 1 then row - 1 else Put(from, to, radix, t - (radix - 1))) + 1)
    else plain
  }

  lemma PutIs(from: string, to: string, radix: nat, row: nat, col: nat)
    requires from != "" && radix >= 2 * |from| + 3 && row >= 1 && col < |from|
    ensures row * |from| + col >= |from|
    ensures Put(from, to, radix, row * |from| + col) == PutAt(from, to, radix, row * |from| + col, row, col)
  {
    var t := row * |from| + col;
    DivideBack(row, col, |from|);
    assert t >= |from| by { assert row * |from| >= 1 * |from|; }
  }

  lemma DivideBack(row: nat, col: nat, n: nat)
    requires col < n
    ensures (row * n + col) / n == row && (row * n + col) % n == col
  {
    var t := row * n + col;
    OneQuotient(t / n, t % n, row, col, n);
  }

  lemma OneQuotient(q: nat, r: nat, row: nat, col: nat, n: nat)
    requires q * n + r == row * n + col && r < n && col < n
    ensures q == row && r == col
  {
    if q > row {
      Multiples(row, q, n);
    } else if q < row {
      Multiples(q, row, n);
    }
  }

  lemma {:induction false} Multiples(a: nat, b: nat, n: nat)
    requires a < b
    ensures a * n + n <= b * n
    decreases b
  {
    assert (b - 1) * n + n == b * n;
    if a < b - 1 {
      Multiples(a, b - 1, n);
    }
  }

  /** Every slot of the ring but the next to be written holds what was written there last. */
  ghost predicate Ring(buffer: seq<int>, from: string, to: string, index: nat, t: int) {
    && from != "" && |buffer| >= 2 * |from| + 3 && index < |buffer|
    && forall j: nat :: 1 <= j < |buffer| ==> buffer[Back(index, j, |buffer|)] == Put(from, to, |buffer|, t - j)
  }

  function Onward(index: nat, radix: nat): nat
    requires index < radix
  {
    if index + 1 == radix then 0 else index + 1
  }

  lemma RingAfterWrite(buffer: seq<int>, from: string, to: string, index: nat, t: nat)
    requires Ring(buffer, from, to, index, t)
    ensures Ring(buffer[index := Put(from, to, |buffer|, t)], from, to, Onward(index, |buffer|), t + 1)
  {
    hide Put, Back, Onward;
    OnwardIn(index, |buffer|);
    var buffer', index' := buffer[index := Put(from, to, |buffer|, t)], Onward(index, |buffer|);
    forall j: nat | 1 <= j < |buffer'| ensures buffer'[Back(index', j, |buffer'|)] == Put(from, to, |buffer'|, t + 1 - j) {
      SlotAfterWrite(buffer, from, to, index, t, j);
    }
  }

  lemma SlotAfterWrite(buffer: seq<int>, from: string, to: string, index: nat, t: nat, j: nat)
    requires Ring(buffer, from, to, index, t) && 1 <= j < |buffer|
    ensures Onward(index, |buffer|) < |buffer| && Back(Onward(index, |buffer|), j, |buffer|) < |buffer|
    ensures buffer[index := Put(from, to, |buffer|, t)][Back(Onward(index, |buffer|), j, |buffer|)]
            == Put(from, to, |buffer|, t + 1 - j)
  {
    hide Put;
    if j > 1 {
      assert buffer[Back(index, j - 1, |buffer|)] == Put(from, to, |buffer|, t - (j - 1));
    }
  }

  lemma OnwardIn(index: nat, radix: nat)
    requires index < radix
    ensures Onward(index, radix) < radix && Onward(index, radix) == (index + 1) % radix
  {
    ModOnce(index + 1, radix);
  }

  /** The source's reading offsets, in a ring of any size. */
  lemma RingReads(buffer: seq<int>, from: string, to: string, index: nat, t: int)
    requires Ring(buffer, from, to, index, t)
    ensures
      var n, r := |from|, |buffer|;
      && buffer[(index + n + 2) % r] == Put(from, to, r, t - (r - n - 2))
      && buffer[(index + n + 3) % r] == Put(from, to, r, t - (r - n - 3))
      && buffer[(index + r - 1) % r] == Put(from, to, r, t - 1)
      && buffer[(index + 1) % r] == Put(from, to, r, t - (r - 1))
  {
    var n, r := |from|, |buffer|;
    ModOnce(index + n + 2, r);
    ModOnce(index + n + 3, r);
    ModOnce(index + r - 1, r);
    ModOnce(index + 1, r);
    assert (index + n + 2) % r == Back(index, r - n - 2, r);
    assert (index + n + 3) % r == Back(index, r - n - 3, r);
    assert (index + r - 1) % r == Back(index, 1, r);
    assert (index + 1) % r == Back(index, r - 1, r);
  }

  /** The value written for cell (row, col) of the strings. */
  ghost function Cell(from: string, to: string, radix: nat, row: nat, col: nat): (v: int)
    requires from != "" && radix >= 2 * |from| + 3
    ensures v >= 0
  {
    Put(from, to, radix, row * |from| + col)
  }

  /** The least value written in a row up to column `hi`. */
  ghost function RowLow(from: string, to: string, radix: nat, row: nat, hi: nat): (low: int)
    requires from != "" && radix >= 2 * |from| + 3 && hi >= 1
    ensures forall col: nat :: col < hi ==> low <= Cell(from, to, radix, row, col)
    ensures exists col: nat :: col < hi && low == Cell(from, to, radix, row, col)
  {
    var last := Cell(from, to, radix, row, hi - 1);
    if hi == 1 then last else Min(RowLow(from, to, radix, row, hi - 1), last)
  }

  /** What the source returns, whatever the ring: it stops after the first row (from `row` on)
      that lies above the limit, or at the end. */
  ghost function Returned(from: string, to: string, radix: nat, row: nat): nat
    requires from != "" && radix >= 2 * |from| + 3 && 1 <= row <= |to|
    decreases |to| - row
  {
    if row == |to| || (row >= 2 && RowLow(from, to, radix, row - 1, |from|) > MIN_DIST)
    then Put(from, to, radix, row * |from| - 1)
    else Returned(from, to, radix, row + 1)
  }

  // ---- The program ---------------------------------------------------------------------

  /** One inner cell from its neighbours (string indexes `row` and `col`, both of the cell's own). */
  function Relax(from: string, to: string, row: nat, col: nat, nw: int, n: int, w: int, nnww: int): int
    requires 1 <= row < |to| && col < |from|
  {
    var plain := Min3(nw + (if from[col] == to[row] then 0 else 1), n + 1, w + 1);
    if from[col] == to[row - 1] && col > 0 && from[col - 1] == to[row] then Min(plain, nnww + 1) else plain
  }

  lemma RelaxIsDist(from: string, to: string, row: nat, col: nat, nnww: int)
    requires 1 <= row < |to| && col < |from|
    requires col > 0 ==> nnww == Dist(from, to, row - 1, col - 1)
    ensures Relax(from, to, row, col, Dist(from, to, row, col), Dist(from, to, row, col + 1),
                  Dist(from, to, row + 1, col), nnww) == Dist(from, to, row + 1, col + 1)
  {
  }

  /** One inner cell, read from the ring and written to it. The buffer's length is the
      source's `radix`; this is write number `t`. */
  method WriteCell(buffer: array<int>, from: string, to: string, row: nat, col: nat, index: nat, ghost t: nat)
    returns (cell: int)
    requires 1 <= row < |to| && col < |from| && index < buffer.Length && buffer.Length >= 2 * |from| + 3
    requires t == row * |from| + col && Ring(buffer[..], from, to, index, t)
    modifies buffer
    ensures buffer[..] == old(buffer[..])[index := cell]
    ensures Ring(buffer[..], from, to, (index + 1) % buffer.Length, t + 1) && cell == Cell(from, to, buffer.Length, row, col)
  {
    hide Put, PutAt, Ring, Cell;
    ghost var before := buffer[..];
    var fromLen, radix := |from|, buffer.Length;
    var nw := if col == 0 then row else buffer[(index + fromLen + 2) % radix];
    var n := buffer[(index + fromLen + 3) % radix];
    var w := if col == 0 then row + 1 else buffer[(index + radix - 1) % radix];
    cell := Min3(nw + (if from[col] == to[row] then 0 else 1), n + 1, w + 1);
    var nnww := if row == 1 then col - 1 else if col <= 1 then row - 1 else buffer[(index + 1) % radix];
    if from[col] == to[row - 1] && col > 0 && from[col - 1] == to[row] {
      cell := Min(cell, nnww + 1);
    }
    assert cell == Relax(from, to, row, col, nw, n, w, nnww);
    buffer[index] := cell;
    PutFromRing(before, from, to, row, col, index, t, nw, n, w, nnww);
    RingAfterWrite(before, from, to, index, t);
    OnwardIn(index, radix);
  }

  lemma PutFromRing(buffer: seq<int>, from: string, to: string, row: nat, col: nat, index: nat, t: nat,
                    nw: int, n: int, w: int, nnww: int)
    requires 1 <= row < |to| && col < |from| && t == row * |from| + col && Ring(buffer, from, to, index, t)
    requires |buffer| >= 2 * |from| + 3
    requires nw == if col == 0 then row else buffer[(index + |from| + 2) % |buffer|]
    requires n == buffer[(index + |from| + 3) % |buffer|]
    requires w == if col == 0 then row + 1 else buffer[(index + |buffer| - 1) % |buffer|]
    requires nnww == if row == 1 then col - 1 else if col <= 1 then row - 1 else buffer[(index + 1) % |buffer|]
    ensures Relax(from, to, row, col, nw, n, w, nnww) == Put(from, to, |buffer|, t) == Cell(from, to, |buffer|, row, col)
  {
    hide Ring, Put, PutAt, Relax;
    RingReads(buffer, from, to, index, t);
    PutIs(from, to, |buffer|, row, col);
    PutAtIsRelax(from, to, |buffer|, t, row, col, nw, n, w, nnww);
  }

  lemma PutAtIsRelax(from: string, to: string, radix: nat, t: nat, row: nat, col: nat, nw: int, n: int, w: int, nnww: int)
    requires 1 <= row < |to| && col < |from| && radix >= 2 * |from| + 3 && t >= |from|
    requires nw == if col == 0 then row else Put(from, to, radix, t - (radix - |from| - 2))
    requires n == Put(from, to, radix, t - (radix - |from| - 3))
    requires w == if col == 0 then row + 1 else Put(from, to, radix, t - 1)
    requires nnww == if row == 1 then col - 1 else if col <= 1 then row - 1 else Put(from, to, radix, t - (radix - 1))
    ensures Relax(from, to, row, col, nw, n, w, nnww) == PutAt(from, to, radix, t, row, col)
  {
    hide Put;
  }

  /** The inner loop of the source: fills matrix row `row + 1` and reports its minimum
      outside column zero. */
  method FillRow(buffer: array<int>, from: string, to: string, row: nat, start: nat, ghost t: nat)
    returns (index: nat, low: int)
    requires |from| > 0 && 1 <= row < |to| && start < buffer.Length && buffer.Length >= 2 * |from| + 3
    requires t == row * |from| && Ring(buffer[..], from, to, start, t)
    modifies buffer
    ensures index < buffer.Length && Ring(buffer[..], from, to, index, t + |from|)
    ensures low == RowLow(from, to, buffer.Length, row, |from|)
  {
    hide Put, PutAt, Ring, Cell;
    index, low := start, 0;
    for col := 0 to |from|
      invariant index < buffer.Length && Ring(buffer[..], from, to, index, t + col)
      invariant col > 0 ==> low == RowLow(from, to, buffer.Length, row, col)
    {
      var cell := WriteCell(buffer, from, to, row, col, index, t + col);
      if cell < low || col == 0 {
        low := cell;
      }
      index := (index + 1) % buffer.Length;
    }
  }

  /** Matrix row 1, where no swap is possible: fills the first `|from|` slots. */
  method FillFirstRow(buffer: array<int>, from: string, to: string) returns (low: int)
    requires from != "" && to != "" && buffer.Length >= 2 * |from| + 3
    modifies buffer
    ensures buffer[|from|..] == old(buffer[|from|..])
    ensures forall c :: 1 <= c <= |from| ==> buffer[c - 1] == Dist(from, to, 1, c)
    ensures forall c :: 1 <= c <= |from| ==> low <= Dist(from, to, 1, c)
  {
    buffer[0] := Min(2, if from[0] == to[0] then 0 else 1);
    low := buffer[0];
    for col := 1 to |from|
      invariant buffer[|from|..] == old(buffer[|from|..])
      invariant forall c :: 1 <= c <= col ==> buffer[c - 1] == Dist(from, to, 1, c)
      invariant forall c :: 1 <= c <= col ==> low <= Dist(from, to, 1, c)
    {
      buffer[col] := Min3(col + (if from[col] == to[0] then 0 else 1), col + 2, buffer[col - 1] + 1);
      low := Min(buffer[col], low);
      FirstRowCell(from, to, col);
    }
  }

  /** The first row is right whatever the size of the ring. */
  lemma {:induction false} FirstRowPut(from: string, to: string, radix: nat, c: nat)
    requires from != "" && to != "" && radix >= 2 * |from| + 3 && c < |from|
    ensures Put(from, to, radix, c) == Dist(from, to, 1, c + 1)
  {
    if c > 0 {
      FirstRowPut(from, to, radix, c - 1);
      FirstRowCell(from, to, c);
    }
  }

  lemma FirstRowCell(from: string, to: string, col: nat)
    requires 1 <= col < |from| && to != ""
    ensures Dist(from, to, 1, col + 1)
            == Min3(col + (if from[col] == to[0] then 0 else 1), col + 2, Dist(from, to, 1, col) + 1)
  {
    assert Dist(from, to, 1, col + 1) == Cheapest(from, to, 1, col + 1);
    assert Dist(from, to, 0, col) == col && Dist(from, to, 0, col + 1) == col + 1;
  }

  lemma FirstRing(buffer: seq<int>, from: string, to: string)
    requires from != "" && to != "" && |buffer| >= 2 * |from| + 3
    requires forall c :: 1 <= c <= |from| ==> buffer[c - 1] == Dist(from, to, 1, c)
    requires forall c :: |from| <= c < |buffer| ==> buffer[c] == 0
    ensures Ring(buffer, from, to, |from|, |from|)
  {
    hide PutAt, Dist;
    var n, r := |from|, |buffer|;
    forall j: nat | 1 <= j < r ensures buffer[Back(n, j, r)] == Put(from, to, r, n - j) {
      if j <= n {
        FirstRowPut(from, to, r, n - j);
        assert buffer[n - j + 1 - 1] == Dist(from, to, 1, n - j + 1);
      }
    }
  }

  /** The source trades its arguments here, after the ring was sized for the longer one. */
  predicate TradesArguments(from: string, to: string) {
    to != "" && |from| > |to| && |from| > STRLENTHRESHOLD
  }

  /** What the callers of `edit_distn` were promised: exact up to the limit, above it otherwise. */
  predicate Meets(d: int, distance: nat) {
    if distance <= MIN_DIST then d == distance else d > MIN_DIST
  }

  /** What `edit_distn` returns. */
  ghost function Measured(from: string, to: string): nat {
    if from == "" then |to|
    else if to == "" then |from|
    else if TradesArguments(from, to) then Returned(to, from, 2 * |from| + 3, 1) else Returned(from, to, 2 * |from| + 3, 1)
  }

  /** Exact up to the limit and above it otherwise, unless the arguments are traded. */
  method EditDistn(from0: string, to0: string) returns (d: int)
    ensures !TradesArguments(from0, to0) ==> Meets(d, Distance(from0, to0))
    ensures d == Measured(from0, to0)
  {
    hide Put, PutAt, Ring, Returned, Dist;
    var from, to := from0, to0;
    if from == "" || to == "" {
      EmptyName(from, to);
      return if from == "" then |to| else |from|;
    }
    var radix := 2 * |from| + 3;
    if |from| > |to| && |from| > STRLENTHRESHOLD {
      from, to := to, from;
    }
    var buffer := new int[radix](_ => 0);
    var low := FillFirstRow(buffer, from, to);
    FirstRing(buffer[..], from, to);
    d := FillMatrix(buffer, from, to);
    if !TradesArguments(from0, to0) {
      MeasuredRight(from0, to0);
    }
  }

  lemma MeasuredRight(from: string, to: string)
    requires !TradesArguments(from, to)
    ensures Meets(Measured(from, to), Distance(from, to))
  {
    if from == "" || to == "" {
      EmptyName(from, to);
    } else {
      ReturnedMeets(from, to, 1);
    }
  }

  lemma EmptyName(from: string, to: string)
    requires from == "" || to == ""
    ensures Distance(from, to) == if from == "" then |to| else |from|
  {
  }

  /** The rest of the matrix, until a row lies above the limit. */
  method FillMatrix(buffer: array<int>, from: string, to: string) returns (d: int)
    requires from != "" && to != "" && buffer.Length >= 2 * |from| + 3 && Ring(buffer[..], from, to, |from|, |from|)
    modifies buffer
    ensures d == Returned(from, to, buffer.Length, 1)
  {
    hide Put, PutAt, Ring, RowLow;
    var radix, index: nat, row, low := buffer.Length, |from|, 1, 0;
    ghost var t: nat := |from|;
    while row < |to|
      invariant 1 <= row <= |to| && index < radix && t == row * |from| && Ring(buffer[..], from, to, index, t)
      invariant Returned(from, to, radix, row) == Returned(from, to, radix, 1)
      invariant row >= 2 ==> RowLow(from, to, radix, row - 1, |from|) <= MIN_DIST
      decreases |to| - row
    {
      index, low := FillRow(buffer, from, to, row, index, t);
      t := t + |from|;
      assert t == (row + 1) * |from|;
      if low > MIN_DIST {
        RingLast(buffer[..], from, to, index, t);
        return buffer[(index + radix - 1) % radix];
      }
      row := row + 1;
    }
    RingLast(buffer[..], from, to, index, t);
    d := buffer[(index + radix - 1) % radix];
  }

  lemma RingLast(buffer: seq<int>, from: string, to: string, index: nat, t: int)
    requires Ring(buffer, from, to, index, t)
    ensures buffer[(index + |buffer| - 1) % |buffer|] == Put(from, to, |buffer|, t - 1)
  {
    RingReads(buffer, from, to, index, t);
  }

  // ---- A ring of the right size ------------------------------------------------------------

  /** Sized for the string over the columns, the ring makes every write the matrix cell. */
  lemma {:induction false} PutIsDist(from: string, to: string, row: nat, col: nat)
    requires row < |to| && col < |from|
    ensures Put(from, to, 2 * |from| + 3, row * |from| + col) == Dist(from, to, row + 1, col + 1)
    decreases row, col
  {
    hide Put, Dist;
    var n := |from|;
    if row == 0 {
      FirstRowPut(from, to, 2 * n + 3, col);
    } else {
      PutIs(from, to, 2 * n + 3, row, col);
      RowAbove1(row, n);
      PutIsDist(from, to, row - 1, col);
      if col > 0 {
        PutIsDist(from, to, row - 1, col - 1);
        PutIsDist(from, to, row, col - 1);
      }
      if row >= 2 && col >= 2 {
        PutIsDist(from, to, row - 2, col - 2);
      }
      CellPut(from, to, row, col, row * n + col);
    }
  }

  lemma RowAbove1(row: nat, n: nat)
    requires row >= 1
    ensures (row - 1) * n == row * n - n && (row >= 2 ==> (row - 2) * n == row * n - 2 * n)
  {
  }

  lemma CellPut(from: string, to: string, row: nat, col: nat, t: nat)
    requires 1 <= row < |to| && col < |from| && t >= |from|
    requires Put(from, to, 2 * |from| + 3, t - |from|) == Dist(from, to, row, col + 1)
    requires col > 0 ==> Put(from, to, 2 * |from| + 3, t - |from| - 1) == Dist(from, to, row, col)
    requires col > 0 ==> Put(from, to, 2 * |from| + 3, t - 1) == Dist(from, to, row + 1, col)
    requires row >= 2 && col >= 2 ==> Put(from, to, 2 * |from| + 3, t - 2 * |from| - 2) == Dist(from, to, row - 1, col - 1)
    ensures PutAt(from, to, 2 * |from| + 3, t, row, col) == Dist(from, to, row + 1, col + 1)
  {
    hide Put;
    var nnww := if row == 1 then col - 1 else if col <= 1 then row - 1 else Dist(from, to, row - 1, col - 1);
    RelaxIsDist(from, to, row, col, nnww);
    PutAtIsRelax(from, to, 2 * |from| + 3, t, row, col, Dist(from, to, row, col), Dist(from, to, row, col + 1),
                 Dist(from, to, row + 1, col), nnww);
  }

  lemma LowIsAbove(from: string, to: string, row: nat)
    requires from != "" && row < |to| && RowLow(from, to, 2 * |from| + 3, row, |from|) > MIN_DIST
    ensures RowAbove(from, to, row + 1, MIN_DIST)
    ensures Put(from, to, 2 * |from| + 3, (row + 1) * |from| - 1) > MIN_DIST
  {
    hide Put, Dist, RowLow;
    var r := row + 1;
    forall c | 1 <= c <= |from| ensures Dist(from, to, r, c) > MIN_DIST {
      PutIsDist(from, to, row, c - 1);
      assert Cell(from, to, 2 * |from| + 3, row, c - 1) == Put(from, to, 2 * |from| + 3, row * |from| + (c - 1));
    }
    assert (row + 1) * |from| - 1 == row * |from| + (|from| - 1);
    assert Cell(from, to, 2 * |from| + 3, row, |from| - 1) == Put(from, to, 2 * |from| + 3, row * |from| + (|from| - 1));
  }

  /** Stopping on a row minimum is sound. */
  lemma {:induction false} ReturnedMeets(from: string, to: string, row: nat)
    requires from != "" && 1 <= row <= |to|
    ensures Meets(Returned(from, to, 2 * |from| + 3, row), Distance(from, to))
    decreases |to| - row
  {
    hide Put, Dist, RowLow;
    if row >= 2 && RowLow(from, to, 2 * |from| + 3, row - 1, |from|) > MIN_DIST {
      LowIsAbove(from, to, row - 1);
      RowAboveForever(from, to, row, MIN_DIST, |to|, |from|);
    } else if row == |to| {
      PutIsDist(from, to, row - 1, |from| - 1);
      assert (row - 1) * |from| + (|from| - 1) == row * |from| - 1;
    } else {
      ReturnedMeets(from, to, row + 1);
    }
  }
}
