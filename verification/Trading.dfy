/** What `edit_distn` measures once it has traded its arguments (libtrn/edit_dist.cpp, lines
    109-132): the ring was sized for the longer name, the columns run over the shorter, and
    the reading offsets name writes of long ago. */
module Trading {
  import opened EditDistance

  /** A name of one letter repeated. */
  function Letters(n: nat): (s: string)
    ensures |s| == n && forall i :: 0 <= i < n ==> s[i] == 'a'
  {
    seq(n, _ => 'a')
  }

  // ---- No names of given lengths are measured lower than the one-letter ones ---------------------

  lemma SameLetters(from: string, to: string, row: int, col: int)
    ensures Same(from, to, row, col) ==> Same(Letters(|from|), Letters(|to|), row, col)
    ensures Swapped(from, to, row, col) ==> Swapped(Letters(|from|), Letters(|to|), row, col)
  {
  }

  lemma {:induction false} LettersAreLeast(from: string, to: string, radix: nat, t: int)
    requires from != "" && radix >= 2 * |from| + 3
    ensures Put(from, to, radix, t) >= Put(Letters(|from|), Letters(|to|), radix, t)
    decreases if t < 0 then 0 else t + 1
  {
    if 0 <= t < |from| {
      SameLetters(from, to, 0, t);
      LettersAreLeast(from, to, radix, t - 1);
    } else if t >= |from| {
      var row, col := t / |from|, t % |from|;
      RowAtLeastOne(t, |from|);
      LettersLeastAt(from, to, radix, t, row, col);
    }
  }

  lemma RowAtLeastOne(t: nat, n: nat)
    requires t >= n > 0
    ensures t / n >= 1 && t == (t / n) * n + t % n && 0 <= t % n < n
  {
    AtLeastOne(t / n, n, t % n);
  }

  lemma AtLeastOne(q: int, n: nat, r: int)
    requires q * n + r >= n && r < n
    ensures q >= 1
  {
  }

  lemma MinGrows()
    ensures forall a, b, a', b' :: a <= a' && b <= b' ==> Min(a, b) <= Min(a', b')
    ensures forall a, b :: Min(a, b) <= a
    ensures forall a, b, c, a', b', c' :: a <= a' && b <= b' && c <= c' ==> Min3(a, b, c) <= Min3(a', b', c')
  {
  }

  lemma {:induction false} LettersLeastAt(from: string, to: string, radix: nat, t: int, row: int, col: int)
    requires from != "" && radix >= 2 * |from| + 3 && t >= |from| && row >= 1 && col >= 0
    ensures PutAt(from, to, radix, t, row, col) >= PutAt(Letters(|from|), Letters(|to|), radix, t, row, col)
    decreases t + 1, 0
  {
    hide Put, Same, Swapped, Letters, Min, Min3;
    SameLetters(from, to, row, col);
    MinGrows();
    LettersAreLeast(from, to, radix, t - (radix - |from| - 2));
    LettersAreLeast(from, to, radix, t - (radix - |from| - 3));
    LettersAreLeast(from, to, radix, t - 1);
    LettersAreLeast(from, to, radix, t - (radix - 1));
  }

  /** Either the source stops above the limit, or it returns the last value written. */
  lemma {:induction false} ReturnedIs(from: string, to: string, radix: nat, row: nat)
    requires from != "" && radix >= 2 * |from| + 3 && 1 <= row <= |to|
    ensures Returned(from, to, radix, row) > MIN_DIST
            || Returned(from, to, radix, row) == Put(from, to, radix, |to| * |from| - 1)
    decreases |to| - row
  {
    hide Put, RowLow;
    if row < |to| {
      if row >= 2 && RowLow(from, to, radix, row - 1, |from|) > MIN_DIST {
        LastOfRow(from, to, radix, row - 1);
      } else {
        ReturnedIs(from, to, radix, row + 1);
      }
    }
  }

  lemma LastOfRow(from: string, to: string, radix: nat, row: nat)
    requires from != "" && radix >= 2 * |from| + 3
    ensures Put(from, to, radix, (row + 1) * |from| - 1) == Cell(from, to, radix, row, |from| - 1)
    ensures RowLow(from, to, radix, row, |from|) <= Put(from, to, radix, (row + 1) * |from| - 1)
  {
    hide Put, RowLow;
    assert (row + 1) * |from| - 1 == row * |from| + (|from| - 1);
  }

  lemma RowLowLeast(from: string, to: string, radix: nat, row: nat)
    requires from != "" && radix >= 2 * |from| + 3
    ensures RowLow(from, to, radix, row, |from|) >= RowLow(Letters(|from|), Letters(|to|), radix, row, |from|)
  {
    hide Put, RowLow;
    var col: nat :| col < |from| && RowLow(from, to, radix, row, |from|) == Cell(from, to, radix, row, col);
    LettersAreLeast(from, to, radix, row * |from| + col);
    assert Cell(Letters(|from|), Letters(|to|), radix, row, col)
           == Put(Letters(|from|), Letters(|to|), radix, row * |from| + col);
  }

  /** If the one-letter names lie above the limit, so do all names of their lengths. */
  lemma {:induction false} LettersReturnLeast(from: string, to: string, radix: nat, row: nat)
    requires from != "" && radix >= 2 * |from| + 3 && 1 <= row <= |to|
    ensures Returned(Letters(|from|), Letters(|to|), radix, row) > MIN_DIST ==> Returned(from, to, radix, row) > MIN_DIST
    decreases |to| - row
  {
    hide Put, RowLow;
    if row >= 2 {
      RowLowLeast(from, to, radix, row - 1);
      LastOfRow(from, to, radix, row - 1);
    }
    LettersAreLeast(from, to, radix, row * |from| - 1);
    if row < |to| {
      LettersReturnLeast(from, to, radix, row + 1);
    }
  }

  // ---- From below ---------------------------------------------------------------------------------

  /** The first row is right: write `t` is at least `t`. */
  lemma {:induction false} FirstRowAtLeast(from: string, to: string, radix: nat, t: nat)
    requires from != "" && radix >= 2 * |from| + 3 && t < |from|
    ensures Put(from, to, radix, t) >= t
  {
    if t > 0 {
      FirstRowAtLeast(from, to, radix, t - 1);
    }
  }

  /** Reading one ring-length `p` back costs nothing, so what counts is how far a write is,
      modulo `p`, from where the ring still held zeros: below by one for each unit of cost, above
      by at most `s = 2 * gap + 1`. Write `q * p + r` has value `k` or more. */
  ghost predicate Depth(n: nat, gap: nat, r: nat, k: nat) {
    gap >= 1 && r < n + 2 * gap + 1 && k <= r && k * (2 * gap + 1) <= n + 2 * gap + 1 - r
  }

  lemma {:induction false} FarFromZeros(from: string, to: string, gap: nat, q: nat, r: nat, k: nat)
    requires from != "" && Depth(|from|, gap, r, k)
    ensures Put(from, to, 2 * (|from| + gap) + 3, q * (|from| + 2 * gap + 1) + r) >= k
    decreases q * (|from| + 2 * gap + 1) + r, 2
  {
    hide Put, PutAt;
    var t, radix := q * (|from| + 2 * gap + 1) + r, 2 * (|from| + gap) + 3;
    if t < |from| {
      NoWholeRing(q, |from| + 2 * gap + 1, r, |from|);
      FirstRowAtLeast(from, to, radix, t);
    } else if k >= 1 {
      RowAtLeastOne(t, |from|);
      LaterRow(from, to, radix, t);
      FarAt(from, to, gap, q, r, k, t / |from|, t % |from|);
    }
  }

  lemma NoWholeRing(q: nat, p: nat, r: nat, n: nat)
    requires q * p + r < n < p
    ensures q == 0
  {
    if q >= 1 {
      Multiple(q, p);
    }
  }

  lemma LaterRow(from: string, to: string, radix: nat, t: nat)
    requires from != "" && radix >= 2 * |from| + 3 && t >= |from| && t / |from| >= 1 && t % |from| >= 0
    ensures Put(from, to, radix, t) == PutAt(from, to, radix, t, t / |from|, t % |from|)
  {
  }

  /** Two or more above the zeros means at least two steps of `s` away from them. */
  lemma TwoSteps(n: nat, gap: nat, q: nat, r: nat, k: nat)
    requires n > 0 && Depth(n, gap, r, k) && k >= 1 && q * (n + 2 * gap + 1) + r >= n
    ensures r + 2 * gap + 1 <= n + 2 * gap + 1
    ensures k >= 2 ==> q >= 1 && r + 2 * (2 * gap + 1) <= n + 2 * gap + 1
    ensures (k - 1) * (2 * gap + 1) == k * (2 * gap + 1) - (2 * gap + 1)
  {
    var s := 2 * gap + 1;
    Multiple(k, s);
    if k >= 2 {
      Multiple(k - 1, s);
    }
  }

  lemma Multiple(k: nat, s: nat)
    requires k >= 1
    ensures (k - 1) * s == k * s - s && k * s >= s
  {
    assert (k - 1) * s >= 0;
  }

  /** In the first two columns the source reads the row number instead of the ring. */
  lemma FirstColumns(n: nat, gap: nat, q: nat, r: nat, k: nat, row: nat, col: nat)
    requires n > 0 && Depth(n, gap, r, k) && k >= 1 && row >= 1 && col <= 1
    requires q * (n + 2 * gap + 1) + r == row * n + col
    ensures k <= row
  {
    var p, s, e := n + 2 * gap + 1, 2 * gap + 1, row - q;
    assert row * n == row * p - row * s;
    assert e * p == row * p - q * p;
    AtLeastOne(row, s, 0) by { assert row * s >= s by { Multiple(row, s); } }
    Positive(e, p, row * s + r - col);
    assert k * s <= row * s;
    Ordered(k, row, s);
  }

  lemma Positive(e: int, p: nat, x: int)
    requires e * p == x && x > 0
    ensures e >= 1 && x >= p
  {
    if e >= 1 {
      Multiple(e, p);
    }
  }

  lemma Ordered(k: nat, row: nat, s: nat)
    requires k * s <= row * s && s > 0
    ensures k <= row
  {
    if k > row {
      Multiples(row, k, s);
    }
  }

  lemma {:induction false} FarBack(from: string, to: string, gap: nat, q: nat, r: nat, k: nat, row: nat, col: nat)
    requires from != "" && Depth(|from|, gap, r, k) && k >= 1 && row >= 1 && 0 < col < |from|
    requires q * (|from| + 2 * gap + 1) + r == row * |from| + col
    ensures Put(from, to, 2 * (|from| + gap) + 3, q * (|from| + 2 * gap + 1) + r - (|from| + 2 * gap + 1)) >= k
    decreases q * (|from| + 2 * gap + 1) + r, 0
  {
    hide Put;
    var p := |from| + 2 * gap + 1;
    Multiple(row, |from|);
    TwoSteps(|from|, gap, q, r, k);
    assert q >= 1;
    assert (q - 1) * p == q * p - p;
    FarFromZeros(from, to, gap, q - 1, r, k);
  }

  lemma {:induction false} FarAbove(from: string, to: string, gap: nat, q: nat, r: nat, k: nat)
    requires from != "" && Depth(|from|, gap, r, k) && k >= 1 && q * (|from| + 2 * gap + 1) + r >= |from|
    ensures Put(from, to, 2 * (|from| + gap) + 3, q * (|from| + 2 * gap + 1) + r - (|from| + 2 * gap)) + 1 >= k
    decreases q * (|from| + 2 * gap + 1) + r, 0
  {
    hide Put;
    var p := |from| + 2 * gap + 1;
    TwoSteps(|from|, gap, q, r, k);
    if k >= 2 {
      assert (q - 1) * p == q * p - p;
      FarFromZeros(from, to, gap, q - 1, r + 1, k - 1);
    }
  }

  lemma {:induction false} FarLeft(from: string, to: string, gap: nat, q: nat, r: nat, k: nat)
    requires from != "" && Depth(|from|, gap, r, k) && k >= 1 && q * (|from| + 2 * gap + 1) + r >= |from|
    ensures Put(from, to, 2 * (|from| + gap) + 3, q * (|from| + 2 * gap + 1) + r - 1) + 1 >= k
    decreases q * (|from| + 2 * gap + 1) + r, 0
  {
    hide Put;
    TwoSteps(|from|, gap, q, r, k);
    if k >= 2 {
      FarFromZeros(from, to, gap, q, r - 1, k - 1);
    }
  }

  lemma {:induction false} FarSwap(from: string, to: string, gap: nat, q: nat, r: nat, k: nat, row: nat, col: nat)
    requires from != "" && Depth(|from|, gap, r, k) && k >= 1 && row >= 2 && 2 <= col < |from|
    requires q * (|from| + 2 * gap + 1) + r == row * |from| + col
    ensures Put(from, to, 2 * (|from| + gap) + 3, q * (|from| + 2 * gap + 1) + r - (2 * (|from| + gap) + 2)) + 1 >= k
    decreases q * (|from| + 2 * gap + 1) + r, 0
  {
    hide Put;
    var n, p := |from|, |from| + 2 * gap + 1;
    Multiple(row, n);
    Multiple(row - 1, n);
    TwoSteps(n, gap, q, r, k);
    if k >= 2 {
      assert q != 1;
      assert (q - 2) * p == q * p - 2 * p;
      FarFromZeros(from, to, gap, q - 2, r + 2 * gap, k - 1);
    }
  }

  /** A swap in the second row reads the column number. */
  lemma SecondRow(n: nat, gap: nat, q: nat, r: nat, k: nat, col: nat)
    requires Depth(n, gap, r, k) && k >= 1 && 0 < col < n && q * (n + 2 * gap + 1) + r == n + col
    ensures k <= col
  {
    var p := n + 2 * gap + 1;
    TwoSteps(n, gap, q, r, k);
    if q >= 2 {
      Multiple(q, p);
      Multiple(q - 1, p);
      assert false;
    }
  }

  lemma {:induction false} FarAt(from: string, to: string, gap: nat, q: nat, r: nat, k: nat, row: nat, col: nat)
    requires from != "" && Depth(|from|, gap, r, k) && k >= 1 && row >= 1 && col < |from|
    requires q * (|from| + 2 * gap + 1) + r == row * |from| + col >= |from|
    ensures PutAt(from, to, 2 * (|from| + gap) + 3, row * |from| + col, row, col) >= k
    decreases q * (|from| + 2 * gap + 1) + r, 1
  {
    hide Put, Depth;
    if col <= 1 {
      FirstColumns(|from|, gap, q, r, k, row, col);
    }
    FarAbove(from, to, gap, q, r, k);
    FarLeft(from, to, gap, q, r, k);
    if col > 0 {
      FarBack(from, to, gap, q, r, k, row, col);
      if row == 1 {
        SecondRow(|from|, gap, q, r, k, col);
      } else if col >= 2 {
        FarSwap(from, to, gap, q, r, k, row, col);
      }
    }
  }

  // ---- Which lengths are measured right ------------------------------------------------------------

  /** Where the last write stands, counted in ring-lengths. */
  lemma LastWrite(n: nat, gap: nat)
    requires n > gap
    ensures (n - gap - 1) * (n + 2 * gap + 1) + (2 * gap * gap + 3 * gap) == (n + gap) * n - 1
  {
    var a, b := n - gap - 1, n + 2 * gap + 1;
    assert a * b == n * b - gap * b - b;
    assert n * b == n * n + 2 * (n * gap) + n;
    assert gap * b == gap * n + 2 * (gap * gap) + gap;
    assert (n + gap) * n == n * n + gap * n;
  }

  /** Traded names of lengths `n + gap` and `n` are measured `k` or more (or above the limit). */
  lemma MeasuredAtLeast(from: string, to: string, k: nat)
    requires TradesArguments(from, to) && |to| > |from| - |to|
    requires var gap := |from| - |to|; Depth(|to|, gap, 2 * gap * gap + 3 * gap, k)
    ensures Measured(from, to) > MIN_DIST || Measured(from, to) >= k
  {
    hide Put, Depth, Returned;
    var n, gap := |to|, |from| - |to|;
    ReturnedIs(to, from, 2 * |from| + 3, 1);
    LastWrite(n, gap);
    FarFromZeros(to, from, gap, n - gap - 1, 2 * gap * gap + 3 * gap, k);
  }

  lemma {:induction false} LettersCell(m: nat, n: nat, r: nat, c: nat)
    requires r <= n && c <= m
    ensures Dist(Letters(m), Letters(n), r, c) <= if r < c then c - r else r - c
    decreases r + c
  {
    if r > 0 && c > 0 {
      CellBounds(Letters(m), Letters(n), r, c);
      LettersCell(m, n, r - 1, c - 1);
    }
  }

  lemma LettersDistance(m: nat, n: nat)
    requires n <= m
    ensures Distance(Letters(m), Letters(n)) == m - n
  {
    LettersCell(m, n, n, m);
    CellAtLeastLengthGap(Letters(m), Letters(n), n, m);
  }

  /** Names that differ in length by up to the limit: those of one letter are measured wrong. */
  lemma NearLengthsFail(m: nat, n: nat)
    requires m > STRLENTHRESHOLD && 1 <= m - n <= MIN_DIST
    ensures n > 0 && TradesArguments(Letters(m), Letters(n))
    ensures Measured(Letters(m), Letters(n)) > m - n == Distance(Letters(m), Letters(n))
    ensures m - n >= 2 ==> Measured(Letters(m), Letters(n)) > MIN_DIST
  {
    hide Put, Returned, Measured;
    var gap := m - n;
    LettersDistance(m, n);
    assert gap == 1 || gap == 2 || gap == 3 || gap == 4 || gap == 5 || gap == 6 || gap == 7;
    MeasuredAtLeast(Letters(m), Letters(n), if gap == 1 then 5 else MIN_DIST + 1);
  }

  ghost predicate LengthsMeasuredRight(m: nat, n: nat) {
    n > 0 && m > 0 && forall from: string, to: string :: |from| == m && |to| == n ==> Meets(Measured(from, to), Distance(from, to))
  }

  /** Exactly which lengths `edit_distn` gets right: all where it does not trade its arguments,
      and of the others those too far apart to be close, provided the names of one letter
      come out as not close. */
  lemma LengthsRightIff(m: nat, n: nat)
    requires m > 0 && n > 0
    ensures LengthsMeasuredRight(m, n) <==>
      m <= n || m <= STRLENTHRESHOLD || (m - n > MIN_DIST && Measured(Letters(m), Letters(n)) > MIN_DIST)
  {
    hide Put, Returned;
    if m <= n || m <= STRLENTHRESHOLD {
      forall from: string, to: string | |from| == m && |to| == n ensures Meets(Measured(from, to), Distance(from, to)) {
        ReturnedMeets(from, to, 1);
      }
    } else {
      TradedRightIff(m, n);
    }
  }

  /** No caller asks about names further apart than the limit: up to there it is the guard itself. */
  lemma CloseLengthsRightIff(m: nat, n: nat)
    requires m > 0 && n > 0 && m - n <= MIN_DIST
    ensures LengthsMeasuredRight(m, n) <==> m <= n || m <= STRLENTHRESHOLD
  {
    hide LengthsMeasuredRight, Measured;
    LengthsRightIff(m, n);
  }

  lemma TradedRightIff(m: nat, n: nat)
    requires 0 < n < m && m > STRLENTHRESHOLD
    ensures LengthsMeasuredRight(m, n) <==> m - n > MIN_DIST && Measured(Letters(m), Letters(n)) > MIN_DIST
  {
    hide Put, Returned;
    LettersDistance(m, n);
    if m - n <= MIN_DIST {
      NearLengthsFail(m, n);
    } else if Measured(Letters(m), Letters(n)) > MIN_DIST {
      forall from: string, to: string | |from| == m && |to| == n ensures Meets(Measured(from, to), Distance(from, to)) {
        CellAtLeastLengthGap(from, to, n, m);
        LettersReturnLeast(to, from, 2 * m + 3, 1);
      }
    }
  }

  /** Some lengths of each kind: eight letters apart all names are right, ... */
  lemma EightApartIsRight(m: nat)
    requires m > STRLENTHRESHOLD
    ensures LengthsMeasuredRight(m, m - 8)
  {
    hide Put, Returned, Measured;
    MeasuredAtLeast(Letters(m), Letters(m - 8), MIN_DIST + 1);
    TradedRightIff(m, m - 8);
  }

  /** ... and every name is measured one edit away from every one-letter name. */
  lemma OneLetterIsNear(from: string, to: string)
    requires TradesArguments(from, to) && |to| == 1
    ensures Measured(from, to) == 1 && Distance(from, to) > MIN_DIST
  {
    hide Put;
    CellAtLeastLengthGap(from, to, |to|, |from|);
    OneLetterRuns(from, to, 1);
  }

  lemma OneLetterWrite(from: string, to: string, t: nat)
    requires |to| == 1 && 1 <= t < |from|
    ensures Put(to, from, 2 * |from| + 3, t) == 1
  {
    assert t / 1 == t && t % 1 == 0;
    assert Put(to, from, 2 * |from| + 3, t - (2 * |from| + 3 - 4)) == 0;
  }

  lemma {:induction false} OneLetterRuns(from: string, to: string, row: nat)
    requires |to| == 1 && |from| >= 2 && 1 <= row <= |from|
    ensures Returned(to, from, 2 * |from| + 3, row) == 1
    decreases |from| - row
  {
    hide Put;
    if row >= 2 {
      OneLetterWrite(from, to, row - 1);
      assert Cell(to, from, 2 * |from| + 3, row - 1, 0) == Put(to, from, 2 * |from| + 3, row - 1);
    }
    if row < |from| {
      OneLetterRuns(from, to, row + 1);
    }
  }
}
