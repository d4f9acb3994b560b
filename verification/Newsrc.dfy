/** The .newsrc line of a newsgroup (libtrn/bits.cpp, lines 59-298): the unread articles are
    printed as ranges of read ones and parsed back. */
module Newsrc {
  import opened Numbers
  import opened Strings

  // ---- The text ---------------------------------------------------------------------------------------

  /** One item of the list: an article number, or a range of them. */
  datatype Item = Single(min: int) | Span(min: int, max: int)

  function ItemOf(text: string): Item {
    var h := Find(text, '-');
    if h == |text| then Single(ParseNumber(text)) else Span(ParseNumber(text[..h]), ParseNumber(text[h + 1..]))
  }

  /** The items between commas. */
  function ItemsOf(text: string): seq<Item> {
    var c := Find(text, ',');
    if c == |text| then [ItemOf(text)] else [ItemOf(text[..c])] + ItemsOf(text[c + 1..])
  }

  /** A run of read articles, from `min` to `max`. */
  datatype Run = Run(min: nat, max: nat)

  function RunText(r: Run): string {
    if r.max > r.min then Dec(r.min) + "-" + Dec(r.max) else Dec(r.min)
  }

  /** Each run with a comma behind it, as the source appends them. */
  function RunsText(rs: seq<Run>): string {
    if rs == [] then "" else RunText(rs[0]) + "," + RunsText(rs[1..])
  }

  function RunItem(r: Run): Item {
    if r.max > r.min then Span(r.min, r.max) else Single(r.min)
  }

  lemma DigitsOnly(n: nat)
    ensures ',' !in Dec(n) && '-' !in Dec(n) && ' ' !in Dec(n)
  {
  }

  /** A printed run is read back. */
  lemma RunRead(r: Run)
    requires r.min <= r.max <= MaxLong
    ensures ItemOf(RunText(r)) == RunItem(r) && ',' !in RunText(r) && RunText(r) != ""
  {
    DigitsOnly(r.min);
    DigitsOnly(r.max);
    DecParsed(r.min);
    DecParsed(r.max);
    var a, b := Dec(r.min), Dec(r.max);
    if r.max > r.min {
      FindAt(a, '-', b);
      var t := a + "-" + b;
      assert t == a + ['-'] + b && t[..|a|] == a && t[|a| + 1..] == b;
    } else {
      FindAt(a, '-', "");
    }
  }

  ghost predicate Printable(rs: seq<Run>) {
    forall r :: r in rs ==> r.min <= r.max <= MaxLong
  }

  function Items(rs: seq<Run>): seq<Item> {
    seq(|rs|, i requires 0 <= i < |rs| => RunItem(rs[i]))
  }

  lemma {:induction false} OneMoreRun(rs: seq<Run>, r: Run)
    ensures RunsText(rs + [r]) == RunsText(rs) + (RunText(r) + ",")
  {
    hide RunText;
    var l := rs + [r];
    if rs == [] {
      assert l[1..] == [];
      assert RunsText(l) == RunText(r) + "," + "";
    } else {
      OneMoreRun(rs[1..], r);
      assert l[1..] == rs[1..] + [r];
      Regroup(RunText(rs[0]) + ",", RunsText(rs[1..]), RunText(r) + ",");
    }
  }

  lemma NoText()
    ensures RunsText([]) == ""
  {
  }

  /** `text` is `items`, when a comma comes behind it. */
  lemma FirstItem(a: string, b: string)
    requires ',' !in a && b != ""
    ensures (a + "," + b)[..|a + "," + b| - 1] == a + "," + b[..|b| - 1]
    ensures ItemsOf(a + "," + b[..|b| - 1]) == [ItemOf(a)] + ItemsOf(b[..|b| - 1])
  {
    hide ItemOf;
    var t := a + [','] + b[..|b| - 1];
    FindAt(a, ',', b[..|b| - 1]);
    assert t[..|a|] == a && t[|a| + 1..] == b[..|b| - 1];
  }

  lemma LastItem(a: string)
    requires ',' !in a
    ensures (a + ",")[..|a + ","| - 1] == a && ItemsOf(a) == [ItemOf(a)]
  {
    hide ItemOf;
    FindAt(a, ',', "");
  }

  /** The printed runs, without the last comma, are read back item by item. */
  lemma {:induction false} RunsRead(rs: seq<Run>)
    requires rs != [] && Printable(rs)
    ensures |RunsText(rs)| > 0 && ItemsOf(RunsText(rs)[..|RunsText(rs)| - 1]) == Items(rs)
  {
    hide RunText, ItemOf, ItemsOf;
    var a, b := RunText(rs[0]), RunsText(rs[1..]);
    RunRead(rs[0]);
    if |rs| == 1 {
      LastItem(a);
      assert a + "," + "" == a + ",";
      assert Items(rs) == [RunItem(rs[0])];
    } else {
      RunsRead(rs[1..]);
      FirstItem(a, b);
      assert Items(rs) == [RunItem(rs[0])] + Items(rs[1..]);
    }
  }

  // ---- The cached article numbers -----------------------------------------------------------------------

  ghost predicate Increasing(nums: seq<int>) {
    forall i, j :: 0 <= i < j < |nums| ==> nums[i] < nums[j]
  }

  /** The cached number after `n`; behind the last one comes `last + 1`. */
  function Next(nums: seq<int>, n: int, last: int): int {
    if nums == [] then last + 1 else if nums[0] > n then nums[0] else Next(nums[1..], n, last)
  }

  lemma {:induction false} NextIs(nums: seq<int>, n: int, last: int)
    requires Increasing(nums)
    ensures
      var m := Next(nums, n, last);
      && ((m in nums && m > n) || (m == last + 1 && forall x :: x in nums ==> x <= n))
      && (forall x :: x in nums && x > n ==> m <= x)
  {
    if nums != [] && nums[0] <= n {
      NextIs(nums[1..], n, last);
      assert nums == [nums[0]] + nums[1..];
    }
  }

  lemma NextLater(nums: seq<int>, n: int, last: int)
    requires Increasing(nums)
    ensures n <= last ==> Next(nums, n, last) > n
  {
    NextIs(nums, n, last);
  }

  // ---- Printing -------------------------------------------------------------------------------------------

  /** From cached number `n` on, the first unread one, or the first behind the last article. */
  function Head(nums: seq<int>, unread: set<int>, n: int, last: int): int
    requires Increasing(nums)
    decreases last - n
  {
    NextLater(nums, n, last);
    if n > last || n in unread then n else Head(nums, unread, Next(nums, n, last), last)
  }

  lemma {:induction false} HeadIs(nums: seq<int>, unread: set<int>, n: int, last: int)
    requires Increasing(nums)
    ensures
      var h := Head(nums, unread, n, last);
      && h >= n && (h <= last ==> h in unread) && (h == n || h in nums || h == last + 1)
      && (forall x :: x in nums && n <= x < h && x <= last ==> x !in unread)
    decreases last - n
  {
    NextLater(nums, n, last);
    if n <= last && n !in unread {
      NextIs(nums, n, last);
      HeadIs(nums, unread, Next(nums, n, last), last);
    }
  }

  /** The last of the read articles from `i` on, of which `i` is one. */
  function RunEnd(u: set<int>, i: int, last: int): (e: int)
    requires i <= last
    ensures i <= e <= last && (forall x :: i < x <= e ==> x !in u) && (e < last ==> e + 1 in u)
    decreases last - i
  {
    if i < last && i + 1 !in u then RunEnd(u, i + 1, last) else i
  }

  /** The runs of articles from `i` to `last` that are not in `u`. */
  function Runs(u: set<int>, i: nat, last: int): seq<Run>
    decreases last - i
  {
    if i > last then []
    else if i in u then Runs(u, i + 1, last)
    else [Run(i, RunEnd(u, i, last))] + Runs(u, RunEnd(u, i, last) + 1, last)
  }

  ghost predicate In(rs: seq<Run>, x: int) {
    exists k :: 0 <= k < |rs| && rs[k].min <= x <= rs[k].max
  }

  /** The runs are increasing, disjoint and maximal, and hold just what is not in `u`. */
  ghost predicate RunsOf(u: set<int>, i: nat, last: int, rs: seq<Run>) {
    && (forall k :: 0 <= k < |rs| ==> i <= rs[k].min <= rs[k].max <= last)
    && (forall j, k :: 0 <= j < k < |rs| ==> rs[j].max + 1 < rs[k].min)
    && (forall k :: 0 <= k < |rs| ==> (rs[k].min > i ==> rs[k].min - 1 in u) && (rs[k].max < last ==> rs[k].max + 1 in u))
    && (forall x :: i <= x <= last ==> (In(rs, x) <==> x !in u))
  }

  lemma {:induction false} RunsAre(u: set<int>, i: nat, last: int)
    ensures RunsOf(u, i, last, Runs(u, i, last))
    decreases last - i
  {
    hide RunsOf, Runs, RunEnd;
    RunsFrom(u, i, last);
    if i > last {
      NoRuns(u, i, last);
    } else if i in u {
      RunsAre(u, i + 1, last);
      MoreUnread(u, i, last, Runs(u, i + 1, last));
    } else {
      var e := RunEnd(u, i, last);
      RunsAre(u, e + 1, last);
      MoreRead(u, i, e, last, Runs(u, e + 1, last));
    }
  }

  lemma NoRuns(u: set<int>, i: nat, last: int)
    requires i > last
    ensures RunsOf(u, i, last, [])
  {
  }

  lemma MoreUnread(u: set<int>, i: nat, last: int, rs: seq<Run>)
    requires i <= last && i in u && RunsOf(u, i + 1, last, rs)
    ensures RunsOf(u, i, last, rs)
  {
  }

  lemma MoreRead(u: set<int>, i: nat, e: nat, last: int, rest: seq<Run>)
    requires i <= e <= last && (forall x :: i <= x <= e ==> x !in u) && (e < last ==> e + 1 in u) && RunsOf(u, e + 1, last, rest)
    ensures RunsOf(u, i, last, [Run(i, e)] + rest)
  {
    var rs := [Run(i, e)] + rest;
    assert forall k :: 0 < k < |rs| ==> rs[k] == rest[k - 1];
    if rest != [] {
      assert In(rest, rest[0].min) by { assert rest[0].min <= rest[0].min <= rest[0].max; }
    }
    assert rest != [] ==> e + 1 < rest[0].min;
    forall x | i <= x <= last ensures In(rs, x) <==> x !in u {
      InMore(Run(i, e), rest, x);
      if In(rest, x) {
        var k :| 0 <= k < |rest| && rest[k].min <= x <= rest[k].max;
      }
    }
  }

  lemma InMore(r: Run, rest: seq<Run>, x: int)
    ensures In([r] + rest, x) <==> r.min <= x <= r.max || In(rest, x)
  {
    var rs := [r] + rest;
    if r.min <= x <= r.max {
      assert rs[0].min <= x <= rs[0].max;
    }
    if In(rest, x) {
      var k :| 0 <= k < |rest| && rest[k].min <= x <= rest[k].max;
      assert rs[k + 1].min <= x <= rs[k + 1].max;
    }
    if In(rs, x) {
      var k :| 0 <= k < |rs| && rs[k].min <= x <= rs[k].max;
      assert k > 0 ==> rs[k] == rest[k - 1];
    }
  }

  // ---- Reading the line back ---------------------------------------------------------------------------------

  /** What is known of the articles of the group: their cached numbers, which of them exist and
      which have been killed for good, and the bounds of the group. */
  datatype Group = Group(nums: seq<int>, present: set<int>, killed: set<int>, abs: int, last: int)

  /** The number the scan is at, the unread articles, and how many it has counted. */
  datatype Scan = Scan(n: int, unread: set<int>, count: nat)

  ghost function Cached(g: Group, lo: int, hi: int): set<int> {
    set x | x in g.nums && lo <= x < hi
  }

  ghost function Fresh(g: Group, lo: int, hi: int): set<int> {
    set x | x in g.nums && lo <= x < hi && x in g.present && x !in g.killed
  }

  ghost function Dropped(g: Group, lo: int, hi: int): set<int> {
    set x | x in g.nums && lo <= x < hi && x in g.present && x in g.killed
  }

  /** Up to `min` all that exist become unread, but for the killed ones. */
  ghost function Skim(g: Group, s: Scan, min: int): Scan {
    if s.n < min then
      Scan(Next(g.nums, min - 1, g.last), s.unread - Dropped(g, s.n, min) + Fresh(g, s.n, min), s.count + |Fresh(g, s.n, min)|)
    else s
  }

  /** Up to `max` all are read, and the scan goes on behind `max`. */
  ghost function Clear(g: Group, s: Scan, max: int): Scan {
    Scan(Next(g.nums, max, g.last), s.unread - Cached(g, s.n, max + 1), s.count)
  }

  function Max(a: int, b: int): int { if a < b then b else a }
  function Min(a: int, b: int): int { if a < b then a else b }

  function LowOf(it: Item, first: int, last: int): int {
    var min := Max(it.min, first);
    if min > last then last + 1 else min
  }

  function HighOf(it: Item, first: int, last: int): int {
    var min := LowOf(it, first, last);
    Min(if it.Single? then min else if it.max < min then min - 1 else it.max, last)
  }

  ghost function Scanned(g: Group, first: int, s: Scan, items: seq<Item>): Scan
    decreases |items|
  {
    if items == [] then s
    else
      var n := |items| - 1;
      var before, it := Scanned(g, first, s, items[..n]), items[n];
      Clear(g, Skim(g, before, LowOf(it, first, g.last)), HighOf(it, first, g.last))
  }

  /** What the line starts with: the first article to look at, whether that came from a range
      "1-n", and the items to go through. */
  datatype Header = Header(first: int, cut: bool, items: seq<Item>)

  function HeaderOf(text: string, abs: int): Header {
    var t := SkipBlanks(text);
    var c := Find(t, ',');
    if t == "" then Header(abs, false, [])
    else if |t| >= 2 && t[..2] == "1-" then
      Header(Max(FromChars(t[2..]) + 1, abs), true, if c == |t| then [] else ItemsOf(t[c + 1..]))
    else Header(abs, false, ItemsOf(t))
  }

  /** Where the scan starts. */
  function FirstOf(g: Group, text: string): int {
    Next(g.nums, HeaderOf(text, g.abs).first - 1, g.last)
  }

  ghost function Started(g: Group, text: string, unread: set<int>): Scan {
    var h := HeaderOf(text, g.abs);
    Scan(FirstOf(g, text), if h.cut then unread - Cached(g, g.abs, h.first) else unread, 0)
  }

  ghost function Parsed(g: Group, text: string, unread: set<int>): Scan {
    Skim(g, Scanned(g, FirstOf(g, text), Started(g, text, unread), HeaderOf(text, g.abs).items), g.last + 1)
  }

  lemma FreshStep(g: Group, lo: int, n: int)
    requires Increasing(g.nums) && n in g.nums && lo <= n
    ensures
      var m := Next(g.nums, n, g.last);
      && (m > n || n > g.last)
      && (m > n ==>
            && Fresh(g, lo, m) == Fresh(g, lo, n) + (if n in g.present && n !in g.killed then {n} else {})
            && Dropped(g, lo, m) == Dropped(g, lo, n) + (if n in g.present && n in g.killed then {n} else {})
            && Cached(g, lo, m) == Cached(g, lo, n) + {n})
  {
    NextIs(g.nums, n, g.last);
  }

  /** The scan has come to `n`, the first cached number from `min` on. */
  lemma FreshReached(g: Group, lo: int, p: int, min: int)
    requires Increasing(g.nums) && p < min && min <= Next(g.nums, p, g.last)
    ensures
      var n := Next(g.nums, p, g.last);
      && Fresh(g, lo, n) == Fresh(g, lo, min) && Dropped(g, lo, n) == Dropped(g, lo, min)
      && Cached(g, lo, n) == Cached(g, lo, min)
      && (min <= g.last + 1 || n in g.nums ==> n == Next(g.nums, min - 1, g.last))
  {
    NextIs(g.nums, p, g.last);
    NextIs(g.nums, min - 1, g.last);
  }

  // ---- The newsgroup ----------------------------------------------------------------------------------------------

  class Newsgroup {
    var nums: seq<int>       // numbers of the cached articles
    var present: set<int>    // AF_EXISTS
    var unread: set<int>     // AF_UNREAD
    var killed: set<int>     // AUTO_KILL_MASK
    var absFirst: int
    var firstArt: int
    var lastArt: int
    var toRead: int
    var numbers: string      // the .newsrc line behind the name and its colon

    ghost predicate Valid()
      reads this
    {
      Increasing(nums) && absFirst >= 1 && lastArt >= absFirst - 1
    }

    ghost function Data(): Group
      reads this
    {
      Group(nums, present, killed, absFirst, lastArt)
    }

    /** Cached and unread. */
    ghost function Unread(): set<int>
      reads this
    {
      set x | x in nums && x in unread
    }

    method FindHead() returns (i: int)
      requires Valid()
      ensures i == Head(nums, unread, Next(nums, absFirst - 1, lastArt), lastArt) && i >= 1
    {
      NextIs(nums, absFirst - 1, lastArt);
      HeadIs(nums, unread, Next(nums, absFirst - 1, lastArt), lastArt);
      i := Next(nums, absFirst - 1, lastArt);
      while i <= lastArt && i !in unread
        invariant Head(nums, unread, i, lastArt) == Head(nums, unread, Next(nums, absFirst - 1, lastArt), lastArt)
        decreases lastArt - i
      {
        NextLater(nums, i, lastArt);
        i := Next(nums, i, lastArt);
      }
    }

    /** The run of read articles that starts with `first`. */
    method PrintRun(first: nat) returns (i: nat, item: string)
      requires first <= lastArt && first !in Unread()
      ensures i == RunEnd(Unread(), first, lastArt) && item == RunText(Run(first, i)) + ","
    {
      hide RunEnd;
      i := first + 1;
      EndsThere(Unread(), first, lastArt);
      while i <= lastArt && !(i in nums && i in unread)
        invariant first < i <= lastArt + 1 && RunEnd(Unread(), i - 1, lastArt) == RunEnd(Unread(), first, lastArt)
        decreases lastArt - i
      {
        EndsThere(Unread(), i - 1, lastArt);
        i := i + 1;
      }
      i := i - 1;
      EndsThere(Unread(), i, lastArt);
      if i > first {
        item := Dec(first) + "-" + Dec(i) + ",";
      } else {
        item := Dec(first) + ",";
      }
    }

    /** Prints the read articles as ranges, the first of them from 1, and counts the unread. */
    method BitsToRc()
      requires Valid()
      modifies `numbers, `toRead
      ensures
        var i := Head(nums, unread, Next(nums, absFirst - 1, lastArt), lastArt);
        && i >= 1 && numbers == Line(i, Runs(Unread(), i, lastArt)) && toRead == |Within(Unread(), i, lastArt + 1)|
    {
      var i := FindHead();
      numbers, toRead := PrintLine(i);
    }

    method PrintLine(head: nat) returns (line: string, count: nat)
      requires Valid() && head >= 1
      ensures line == Line(head, Runs(Unread(), head, lastArt)) && count == |Within(Unread(), head, lastArt + 1)|
    {
      hide Printing, RunText, Runs, Dec, Within, RunEnd, Line, Increasing;
      var i := head;
      ghost var u, done := Unread(), [];
      var text := "1-" + Dec(i - 1) + ",";
      count := 0;
      PrintStart(u, head, lastArt, text);
      while i <= lastArt
        invariant i >= head && Printing(u, head, lastArt, i, done, text, count)
        decreases lastArt - i
      {
        if i in nums && i in unread {
          PrintUnread(u, head, lastArt, i, done, text, count);
          count := count + 1;
          i := i + 1;
        } else {
          ghost var first := i;
          var item;
          i, item := PrintRun(i);
          PrintRead(u, head, lastArt, first, done, text, count, item);
          text := text + item;
          done := done + [Run(first, i)];
          i := i + 1;
        }
      }
      PrintEnd(u, head, lastArt, i, done, text, count);
      line := " " + text[..|text| - 1];
    }

    /** Whether the line starts with a range from 1, and where to look from. */
    method SetFirstArt(s: string) returns (cut: bool)
      modifies `firstArt
      ensures firstArt == HeaderOf(s, absFirst).first && cut == HeaderOf(s, absFirst).cut
    {
      var t := SkipBlanks(s);
      if t == "" {
        firstArt := absFirst;
        return false;
      }
      if |t| >= 2 && t[..2] == "1-" {
        var firstUnread := FromChars(t[2..]);
        firstArt := Max(firstUnread + 1, absFirst);
        return true;
      }
      firstArt := absFirst;
      return false;
    }

    /** From `start` up to `min`, all that exist become unread, but for the killed ones. */
    method MarkUnread(start: int, min: int, count0: nat) returns (n: int, count: nat)
      requires Valid() && (start in nums || start > lastArt) && min <= lastArt + 1
      modifies `unread
      ensures Scan(n, unread, count) == Skim(Data(), Scan(start, old(unread), count0), min) && (n in nums || n > lastArt)
    {
      hide Walked, Skim;
      ghost var g, p, s0 := Data(), start, Scan(start, unread, count0);
      n, count := start, count0;
      WalkStart(g, s0);
      while n < min
        invariant start <= n && p >= start && (n in nums || n > lastArt)
        invariant n == start || (p < min && n == Next(nums, p, lastArt))
        invariant Scan(n, unread, count) == Walked(g, s0, n)
        decreases min - n
      {
        WalkStep(g, s0, n);
        if n in present {
          if n in killed {
            unread := unread - {n};
          } else {
            unread := unread + {n};
            count := count + 1;
          }
        }
        p := n;
        n := Next(nums, n, lastArt);
      }
      WalkEnd(g, s0, p, n, min);
    }

    /** From `start` to `max` all are read. */
    method MarkRead(start: int, max: int) returns (n: int)
      requires Valid() && (start in nums || start > lastArt) && max <= lastArt
      modifies `unread
      ensures unread == old(unread) - Cached(Data(), start, max + 1)
      ensures n >= start && (n in nums || n > lastArt) && n == if start <= max then Next(nums, max, lastArt) else start
    {
      hide Fresh, Dropped, Cached;
      ghost var g, p := Data(), start;
      n := start;
      FreshNone(g, start);
      while n <= max
        invariant start <= n && p >= start && (n in nums || n > lastArt)
        invariant n == start || (p <= max && n == Next(nums, p, lastArt))
        invariant unread == old(unread) - Cached(g, start, n)
        decreases max - n
      {
        FreshStep(g, start, n);
        unread := unread - {n};
        NextIs(nums, n, lastArt);
        p := n;
        n := Next(nums, n, lastArt);
      }
      if start <= max {
        FreshReached(g, start, p, max + 1);
      } else {
        CachedNone(g, start, max + 1);
      }
    }

    /** Parses the line: what is not in its ranges is unread, unless it was killed. */
    method RcToBits()
      requires Valid() && HeaderOf(numbers, absFirst).first <= lastArt + 1
      modifies `unread, `firstArt, `toRead
      ensures firstArt == FirstOf(Data(), numbers)
      ensures unread == Parsed(Data(), numbers, old(unread)).unread && toRead == Parsed(Data(), numbers, old(unread)).count
    {
      hide Scanned, Skim, Clear, Cached, HeaderOf, Started, ItemsOf, ItemOf, FirstOf, LowOf, HighOf, Increasing, SkipBlanks;
      ghost var g, all, k := Data(), HeaderOf(numbers, absFirst).items, 0;
      ghost var start := Started(g, numbers, unread);
      var rest, more := StartScan();
      var n, count := firstArt, 0;
      assert all[..0] == [] && all[0..] == all;
      ScannedNone(g, firstArt, start);
      while more
        invariant k <= |all| && (if more then all[k..] == ItemsOf(rest) else k == |all|)
        invariant (n in nums || n > lastArt) && firstArt == FirstOf(g, numbers)
        invariant Scan(n, unread, count) == Scanned(g, firstArt, start, all[..k])
        decreases |all| - k
      {
        var comma := Find(rest, ',');
        var range := rest[..comma];
        more := comma < |rest|;
        FirstOfItems(rest, all, k);
        rest := if more then rest[comma + 1..] else "";
        n, count := ReadRange(range, n, count);
        ScannedOneMore(g, firstArt, start, all, k);
        k := k + 1;
      }
      assert all[..k] == all;
      n, count := MarkUnread(n, lastArt + 1, count);
      toRead := count;
    }

    /** The part of the line that is read in one go: a range from 1, if it starts with one. */
    method StartScan() returns (rest: string, more: bool)
      requires Valid() && HeaderOf(numbers, absFirst).first <= lastArt + 1
      modifies `unread, `firstArt
      ensures Started(Data(), numbers, old(unread)) == Scan(firstArt, unread, 0) && firstArt == FirstOf(Data(), numbers)
      ensures firstArt in nums || firstArt > lastArt
      ensures var items := HeaderOf(numbers, absFirst).items; if more then items == ItemsOf(rest) else items == []
    {
      hide Cached, ItemsOf;
      rest := SkipBlanks(numbers);
      more := rest != "";
      var cut := SetFirstArt(numbers);
      NextIs(nums, firstArt - 1, lastArt);
      if cut {
        var comma := Find(rest, ',');
        more := comma < |rest|;
        rest := if more then rest[comma + 1..] else "";
        var n := Next(nums, absFirst - 1, lastArt);
        NextIs(nums, absFirst - 1, lastArt);
        CutIs(Data(), firstArt, n);
        n := MarkRead(n, firstArt - 1);
        firstArt := n;
      } else {
        firstArt := Next(nums, firstArt - 1, lastArt);
      }
    }

    /** One range of the line. */
    method ReadRange(range: string, n0: int, count0: nat) returns (n: int, count: nat)
      requires Valid() && (n0 in nums || n0 > lastArt)
      modifies `unread
      ensures n in nums || n > lastArt
      ensures
        var it, s := ItemOf(range), Scan(n0, old(unread), count0);
        Scan(n, unread, count)
        == Clear(Data(), Skim(Data(), s, LowOf(it, firstArt, lastArt)), HighOf(it, firstArt, lastArt))
    {
      hide Skim, Cached, LowOf, HighOf;
      var min, max := Limits(range);
      n, count := MarkUnread(n0, min, count0);
      n := MarkRead(n, max);
      NextIs(nums, max, lastArt);
      n := Next(nums, max, lastArt);
    }

    /** The bounds of one item, within those of the group. */
    method Limits(range: string) returns (min: int, max: int)
      ensures min == LowOf(ItemOf(range), firstArt, lastArt) && max == HighOf(ItemOf(range), firstArt, lastArt)
      ensures min <= lastArt + 1 && max <= lastArt
    {
      var hyphen := Find(range, '-');
      assert hyphen == |range| ==> range[..hyphen] == range;
      min := ParseNumber(range[..hyphen]);
      min := Max(min, firstArt);
      if min > lastArt {
        min := lastArt + 1;
      }
      if hyphen == |range| {
        max := min;
      } else {
        max := ParseNumber(range[hyphen + 1..]);
        if max < min {
          max := min - 1;
        }
      }
      max := Min(max, lastArt);
    }
  }

  /** The scan on its way, at `n`. */
  ghost function Walked(g: Group, s: Scan, n: int): Scan {
    Scan(n, s.unread - Dropped(g, s.n, n) + Fresh(g, s.n, n), s.count + |Fresh(g, s.n, n)|)
  }

  lemma WalkStart(g: Group, s: Scan)
    ensures Walked(g, s, s.n) == s
  {
    assert Fresh(g, s.n, s.n) == {} && Dropped(g, s.n, s.n) == {};
  }

  lemma WalkStep(g: Group, s: Scan, n: int)
    requires Increasing(g.nums) && n in g.nums && s.n <= n <= g.last
    ensures
      var w, m := Walked(g, s, n), Next(g.nums, n, g.last);
      && m > n && (m in g.nums || m > g.last)
      && Walked(g, s, m) == (if n !in g.present then Scan(m, w.unread, w.count)
                             else if n in g.killed then Scan(m, w.unread - {n}, w.count)
                             else Scan(m, w.unread + {n}, w.count + 1))
  {
    hide Fresh, Dropped, Cached;
    NextIs(g.nums, n, g.last);
    FreshStep(g, s.n, n);
    FreshBelow(g, s.n, n);
  }

  lemma WalkEnd(g: Group, s: Scan, p: int, n: int, min: int)
    requires Increasing(g.nums) && min <= g.last + 1 && n >= min && p >= s.n && (n == s.n || (p < min && n == Next(g.nums, p, g.last)))
    ensures Walked(g, s, n) == Skim(g, s, min)
  {
    hide Fresh, Dropped, Cached;
    if s.n < min {
      FreshReached(g, s.n, p, min);
    } else {
      WalkStart(g, s);
    }
  }

  lemma FreshNone(g: Group, n: int)
    ensures Fresh(g, n, n) == {} && Dropped(g, n, n) == {} && Cached(g, n, n) == {}
  {
  }

  lemma CachedNone(g: Group, lo: int, hi: int)
    requires hi <= lo
    ensures Cached(g, lo, hi) == {}
  {
  }

  lemma FreshBelow(g: Group, lo: int, n: int)
    ensures n !in Fresh(g, lo, n) && n !in Dropped(g, lo, n)
  {
  }

  /** The range from 1 covers all that is cached below its end. */
  lemma CutIs(g: Group, h: int, f: int)
    requires Increasing(g.nums) && h >= g.abs && g.last >= g.abs - 1 && f == Next(g.nums, g.abs - 1, g.last)
    ensures Cached(g, f, h) == Cached(g, g.abs, h)
    ensures f > h - 1 && h <= g.last + 1 ==> f == Next(g.nums, h - 1, g.last)
  {
    NextIs(g.nums, g.abs - 1, g.last);
    NextIs(g.nums, h - 1, g.last);
  }

  lemma ScannedNone(g: Group, first: int, s: Scan)
    ensures Scanned(g, first, s, []) == s
  {
  }

  lemma ScannedOneMore(g: Group, first: int, s: Scan, all: seq<Item>, k: nat)
    requires k < |all|
    ensures Scanned(g, first, s, all[..k + 1])
            == Clear(g, Skim(g, Scanned(g, first, s, all[..k]), LowOf(all[k], first, g.last)), HighOf(all[k], first, g.last))
  {
    assert all[..k + 1][..k] == all[..k];
  }

  lemma FirstOfItems(rest: string, all: seq<Item>, k: nat)
    requires k <= |all| && all[k..] == ItemsOf(rest)
    ensures
      var c := Find(rest, ',');
      && k < |all| && all[k] == ItemOf(rest[..c])
      && (if c < |rest| then all[k + 1..] == ItemsOf(rest[c + 1..]) else k + 1 == |all|)
  {
    hide ItemsOf, ItemOf;
    ItemsFrom(rest);
    var c := Find(rest, ',');
    FrontOf(all, k, ItemOf(rest[..c]), if c == |rest| then [] else ItemsOf(rest[c + 1..]));
  }

  lemma ItemsFrom(rest: string)
    ensures
      var c := Find(rest, ',');
      ItemsOf(rest) == [ItemOf(rest[..c])] + if c == |rest| then [] else ItemsOf(rest[c + 1..])
  {
    hide ItemOf;
    assert rest[..|rest|] == rest;
  }

  lemma FrontOf<T>(all: seq<T>, k: nat, x: T, l: seq<T>)
    requires k <= |all| && all[k..] == [x] + l
    ensures k < |all| && all[k] == x && all[k + 1..] == l
  {
    assert |all[k..]| == 1 + |l|;
    assert all[k] == all[k..][0];
    assert all[k + 1..] == all[k..][1..];
  }

  /** How far the line has been printed: up to `i`, with the runs `done`. */
  ghost predicate Printing(u: set<int>, head: nat, last: int, i: int, done: seq<Run>, text: string, count: nat) {
    && i >= head >= 1 && text == "1-" + Dec(head - 1) + "," + RunsText(done)
    && done + Runs(u, i, last) == Runs(u, head, last)
    && count == |Within(u, head, Min(i, last + 1))|
  }

  lemma PrintStart(u: set<int>, head: nat, last: int, text: string)
    requires head >= 1 && text == "1-" + Dec(head - 1) + ","
    ensures Printing(u, head, last, head, [], text, 0)
  {
    hide Runs, Dec;
    NoText();
    assert text + "" == text && [] + Runs(u, head, last) == Runs(u, head, last);
    assert Within(u, head, Min(head, last + 1)) == {};
  }

  lemma PrintUnread(u: set<int>, head: nat, last: int, i: nat, done: seq<Run>, text: string, count: nat)
    requires Printing(u, head, last, i, done, text, count) && i <= last && i in u
    ensures Printing(u, head, last, i + 1, done, text, count + 1)
  {
    hide Runs, Dec, RunsText, Within;
    RunsFrom(u, i, last);
    WithinMore(u, head, i);
  }

  lemma PrintRead(u: set<int>, head: nat, last: int, i: nat, done: seq<Run>, text: string, count: nat, item: string)
    requires Printing(u, head, last, i, done, text, count) && i <= last && i !in u
    requires item == RunText(Run(i, RunEnd(u, i, last))) + ","
    ensures
      var e := RunEnd(u, i, last);
      Printing(u, head, last, e + 1, done + [Run(i, e)], text + item, count)
  {
    hide Runs, Dec, RunsText, RunText, Within, RunEnd;
    var e := RunEnd(u, i, last);
    RunsFrom(u, i, last);
    OneMoreRun(done, Run(i, e));
    Regroup("1-" + Dec(head - 1) + ",", RunsText(done), item);
    RunsOn(done, Run(i, e), Runs(u, e + 1, last));
    WithinRun(u, head, i, last);
    RunEndIn(u, i, last);
  }

  lemma RunEndIn(u: set<int>, i: int, last: int)
    requires i <= last
    ensures i <= RunEnd(u, i, last) <= last
  {
  }

  lemma PrintEnd(u: set<int>, head: nat, last: int, i: int, done: seq<Run>, text: string, count: nat)
    requires Printing(u, head, last, i, done, text, count) && i > last
    ensures text != "" && " " + text[..|text| - 1] == Line(head, Runs(u, head, last))
    ensures count == |Within(u, head, last + 1)|
  {
    hide Dec, RunsText, RunEnd;
    RunsFrom(u, i, last);
    assert done == Runs(u, head, last);
  }

  ghost function Within(u: set<int>, lo: int, hi: int): set<int> {
    set x | x in u && lo <= x < hi
  }

  lemma WithinMore(u: set<int>, lo: int, i: int)
    requires lo <= i
    ensures i in u ==> |Within(u, lo, i + 1)| == |Within(u, lo, i)| + 1
  {
    if i in u {
      assert Within(u, lo, i + 1) == Within(u, lo, i) + {i};
    }
  }

  lemma WithinRun(u: set<int>, lo: int, i: int, last: int)
    requires lo <= i <= last && i !in u
    ensures Within(u, lo, RunEnd(u, i, last) + 1) == Within(u, lo, i)
  {
    var e := RunEnd(u, i, last);
  }

  lemma EndsThere(u: set<int>, i: int, last: int)
    requires i <= last
    ensures RunEnd(u, i, last) == if i < last && i + 1 !in u then RunEnd(u, i + 1, last) else i
  {
  }

  lemma RunsFrom(u: set<int>, i: nat, last: int)
    ensures Runs(u, i, last) == (if i > last then []
      else if i in u then Runs(u, i + 1, last)
      else [Run(i, RunEnd(u, i, last))] + Runs(u, RunEnd(u, i, last) + 1, last))
  {
  }

  lemma RunsOn(done: seq<Run>, r: Run, rest: seq<Run>)
    ensures (done + [r]) + rest == done + ([r] + rest)
  {
  }

  /** The line for articles read up to `i - 1` and in `rs`. */
  function Line(i: int, rs: seq<Run>): string
    requires i >= 1
  {
    var t := "1-" + Dec(i - 1) + "," + RunsText(rs);
    " " + t[..|t| - 1]
  }

  // ---- The round trip ------------------------------------------------------------------------------------------

  /** The line without its leading blank. */
  function Trimmed(i: nat, rs: seq<Run>): string
    requires i >= 1
  {
    "1-" + Dec(i - 1) + (if RunsText(rs) == "" then "" else "," + RunsText(rs)[..|RunsText(rs)| - 1])
  }

  lemma LineTrimmed(i: nat, rs: seq<Run>)
    requires i >= 1
    ensures Line(i, rs) == " " + Trimmed(i, rs) && (RunsText(rs) == "" <==> rs == [])
  {
    hide Dec, RunText;
    var a, b := "1-" + Dec(i - 1), RunsText(rs);
    if b == "" {
      assert (a + "," + b)[..|a + "," + b| - 1] == a;
    } else {
      assert (a + "," + b)[..|a + "," + b| - 1] == a + ("," + b[..|b| - 1]);
    }
  }

  lemma LineHeader(i: nat, rs: seq<Run>, abs: int)
    requires 1 <= i <= MaxLong && Printable(rs)
    ensures HeaderOf(Line(i, rs), abs) == Header(Max(i, abs), true, Items(rs))
  {
    hide ItemsOf, RunsText, Dec, FromChars;
    var d, t, b := "1-" + Dec(i - 1), Trimmed(i, rs), RunsText(rs);
    var rest := if b == "" then "" else "," + b[..|b| - 1];
    LineTrimmed(i, rs);
    assert (" " + t)[1..] == t && t == d + rest;
    assert t[..2] == "1-" && t[2..] == Dec(i - 1) + rest;
    DecRead(i - 1, rest);
    DigitsOnly(i - 1);
    assert ',' !in d;
    FindAt(d, ',', if b == "" then "" else b[..|b| - 1]);
    assert SkipBlanks(t) == t && SkipBlanks(Line(i, rs)) == t;
    if rs == [] {
      assert t == d && Items(rs) == [];
    } else {
      RunsRead(rs);
      assert t == d + [','] + b[..|b| - 1] && t[|d| + 1..] == b[..|b| - 1];
    }
  }

  /** What should be unread when a line printed for read articles below `i` and in `rs` is parsed. */
  ghost function Wanted(g: Group, i: int, rs: seq<Run>): set<int> {
    set x | x in g.nums && x in g.present && x !in g.killed && g.abs <= x <= g.last && x >= i && !In(rs, x)
  }

  /** The last run that starts before `f` is of a single article: its number is taken for `f`. */
  ghost predicate Lost(rs: seq<Run>, f: int) {
    exists k :: 0 <= k < |rs| && LastBelow(rs, f, k) && rs[k].min == rs[k].max
  }

  ghost predicate LastBelow(rs: seq<Run>, f: int, k: nat)
    requires k < |rs|
  {
    rs[k].min < f && forall j :: k < j < |rs| ==> rs[j].min >= f
  }

  ghost predicate Ordered(rs: seq<Run>) {
    && (forall k :: 0 <= k < |rs| ==> rs[k].min <= rs[k].max)
    && (forall j, k :: 0 <= j < k < |rs| ==> rs[j].max + 1 < rs[k].min)
  }

  /** How many runs start before `f`. */
  ghost function Below(rs: seq<Run>, f: int): (k: nat)
    requires Ordered(rs)
    ensures k <= |rs| && (forall j :: 0 <= j < k ==> rs[j].min < f) && (forall j :: k <= j < |rs| ==> rs[j].min >= f)
  {
    if rs == [] || rs[0].min >= f then 0
    else
      assert Ordered(rs[1..]);
      1 + Below(rs[1..], f)
  }

  lemma LostIs(rs: seq<Run>, f: int)
    requires Ordered(rs)
    ensures Lost(rs, f) <==> Below(rs, f) > 0 && rs[Below(rs, f) - 1].min == rs[Below(rs, f) - 1].max
  {
    hide Ordered;
    var k := Below(rs, f);
    if k > 0 {
      assert LastBelow(rs, f, k - 1);
    }
    if Lost(rs, f) {
      var j :| 0 <= j < |rs| && LastBelow(rs, f, j) && rs[j].min == rs[j].max;
      assert j == k - 1;
    }
  }

  /** The scan stands at a cached number or behind the last article. */
  ghost predicate Stands(g: Group, n: int) {
    n in g.nums || n > g.last
  }

  /** What has been passed is right. */
  ghost predicate Sound(g: Group, first: int, s: Scan, w: set<int>) {
    && Stands(g, s.n)
    && (forall x :: x in g.nums && x in g.present && first <= x < s.n && x <= g.last ==> (x in s.unread <==> x in w))
    && s.count == |set x | x in w && x < s.n|
  }

  lemma HighBelow(g: Group, first: int, r: Run)
    requires r.min <= r.max && r.min < first <= g.last
    ensures LowOf(RunItem(r), first, g.last) == first
    ensures HighOf(RunItem(r), first, g.last)
            == if r.min == r.max then first else if r.max < first then first - 1 else Min(r.max, g.last)
  {
  }

  lemma HighAbove(g: Group, first: int, r: Run)
    requires r.min <= r.max && r.min >= first
    ensures LowOf(RunItem(r), first, g.last) == Min(r.min, g.last + 1) && HighOf(RunItem(r), first, g.last) == Min(r.max, g.last)
  {
  }

  /** Runs before the first article looked at count nothing and make nothing unread. */
  lemma {:induction false} PassBelow(g: Group, first: int, s0: Scan, rs: seq<Run>, k: nat)
    requires Increasing(g.nums) && first in g.nums && first <= g.last && s0.n == first && s0.count == 0
    requires Ordered(rs) && k <= |rs| && forall j :: 0 <= j < k ==> rs[j].min < first
    ensures
      var s := Scanned(g, first, s0, Items(rs)[..k]);
      && s.count == 0 && s.n >= first && Stands(g, s.n)
      && s.n == (if k == 0 then first else Next(g.nums, HighOf(RunItem(rs[k - 1]), first, g.last), g.last))
      && (forall x :: x in g.nums && first <= x < s.n && x <= g.last ==> x !in s.unread)
  {
    hide LowOf, HighOf;
    if k > 0 {
      var r := rs[k - 1];
      PassBelow(g, first, s0, rs, k - 1);
      ScannedOneMore(g, first, s0, Items(rs), k - 1);
      assert Items(rs)[k - 1] == RunItem(r);
      HighBelow(g, first, r);
      NextIs(g.nums, HighOf(RunItem(r), first, g.last), g.last);
    }
  }

  /** With nothing to look at the items change nothing. */
  lemma {:induction false} PassEnd(g: Group, first: int, s0: Scan, items: seq<Item>)
    requires Increasing(g.nums) && first > g.last && s0.n > g.last
    ensures var s := Scanned(g, first, s0, items); s.count == s0.count && s.unread == s0.unread && s.n > g.last
  {
    if items != [] {
      var n := |items| - 1;
      PassEnd(g, first, s0, items[..n]);
      var s, high := Scanned(g, first, s0, items[..n]), HighOf(items[n], first, g.last);
      NextIs(g.nums, high, g.last);
      CachedNone(g, s.n, high + 1);
      assert LowOf(items[n], first, g.last) == g.last + 1 && high == g.last;
    }
  }

  lemma CountStep(w: set<int>, lo: int, hi: int, more: set<int>)
    requires lo <= hi && (forall x :: x in w && lo <= x < hi <==> x in more)
    ensures |set x | x in w && x < hi| == |set x | x in w && x < lo| + |more|
  {
    var a, b := set x | x in w && x < lo, set x | x in w && x < hi;
    forall x ensures x in b <==> x in a || x in more {
      assert x in w && lo <= x < hi <==> x in more;
    }
    assert b == a + more && a !! more;
  }

  /** Between the runs all that exist become unread, but for the killed. */
  lemma SkimSound(g: Group, first: int, s: Scan, w: set<int>, low: int)
    requires Increasing(g.nums) && Sound(g, first, s, w) && first <= s.n && low <= g.last + 1
    requires forall x :: s.n <= x < low && x <= g.last ==> (x in w <==> x in g.nums && x in g.present && x !in g.killed)
    requires forall x :: x in w ==> x in g.nums && first <= x <= g.last
    ensures Sound(g, first, Skim(g, s, low), w)
  {
    if s.n < low {
      var n := Next(g.nums, low - 1, g.last);
      NextIs(g.nums, low - 1, g.last);
      CountStep(w, s.n, low, Fresh(g, s.n, low));
      assert (set x | x in w && x < n) == (set x | x in w && x < low);
    }
  }

  /** In a run all become read. */
  lemma ClearSound(g: Group, first: int, s: Scan, w: set<int>, high: int)
    requires Increasing(g.nums) && Sound(g, first, s, w) && high <= g.last
    requires forall x :: x in w ==> x in g.nums && first <= x <= g.last
    requires forall x :: s.n <= x <= high ==> x !in w
    requires forall x :: x in g.nums && high < x < s.n ==> x > g.last
    ensures Sound(g, first, Clear(g, s, high), w)
  {
    var n := Next(g.nums, high, g.last);
    NextIs(g.nums, high, g.last);
    assert (set x | x in w && x < n) == (set x | x in w && x < s.n);
  }

  /** What is between one run and the next is in none. */
  lemma Gap(rs: seq<Run>, k: nat, x: int)
    requires Ordered(rs) && k <= |rs| && (k > 0 ==> rs[k - 1].max < x) && (k < |rs| ==> x < rs[k].min)
    ensures !In(rs, x)
  {
    forall j | 0 <= j < |rs| ensures !(rs[j].min <= x <= rs[j].max) {
      if j < k {
        assert j == k - 1 || rs[j].max < rs[k - 1].min;
      } else {
        assert j == k || rs[k].min < rs[j].min;
      }
    }
  }

  /** The last run passed lies before the scan, and of the next one nothing does. */
  ghost predicate Passed(g: Group, s: Scan, rs: seq<Run>, k: nat)
    requires k <= |rs|
  {
    && (k > 0 && s.n <= g.last ==> rs[k - 1].max < s.n)
    && (k < |rs| ==> forall x :: x in g.nums && rs[k].min < x < s.n ==> x > g.last)
  }

  ghost function Kept(g: Group, i: int, rs: seq<Run>, first: int): set<int> {
    Wanted(g, i, rs) - if Lost(rs, first) then {first} else {}
  }

  /** Where the runs before the first article end, nothing is lost but that article perhaps. */
  lemma BelowSound(g: Group, i: int, rs: seq<Run>, first: int, s0: Scan)
    requires Increasing(g.nums) && first in g.nums && first <= g.last && s0.n == first && s0.count == 0
    requires Ordered(rs) && (forall x :: x in g.nums && g.abs <= x < first ==> x < i)
    ensures
      var k := Below(rs, first);
      var s := Scanned(g, first, s0, Items(rs)[..k]);
      && Sound(g, first, s, Kept(g, i, rs, first)) && first <= s.n && Passed(g, s, rs, k)
      && (Lost(rs, first) ==> s.n > first)
  {
    hide HighOf, LowOf;
    var k, w := Below(rs, first), Kept(g, i, rs, first);
    var s := Scanned(g, first, s0, Items(rs)[..k]);
    PassBelow(g, first, s0, rs, k);
    LostIs(rs, first);
    if k > 0 {
      var r := rs[k - 1];
      HighBelow(g, first, r);
      NextIs(g.nums, HighOf(RunItem(r), first, g.last), g.last);
      forall x | x in g.nums && first <= x < s.n && x <= g.last ensures x !in w {
        assert x <= HighOf(RunItem(r), first, g.last);
        if x != first || r.min != r.max {
          assert r.min <= x <= r.max;
        }
      }
    }
    assert (set x | x in w && x < s.n) == {};
  }

  lemma {:induction false} AboveSound(g: Group, i: int, rs: seq<Run>, first: int, s0: Scan, k: nat)
    requires Increasing(g.nums) && first in g.nums && first <= g.last && s0.n == first && s0.count == 0
    requires Ordered(rs) && (forall x :: x in g.nums && g.abs <= x < first ==> x < i) && first >= i && first >= g.abs
    requires Below(rs, first) <= k <= |rs|
    ensures
      var s := Scanned(g, first, s0, Items(rs)[..k]);
      && Sound(g, first, s, Kept(g, i, rs, first)) && first <= s.n && Passed(g, s, rs, k)
      && (Lost(rs, first) ==> s.n > first)
  {
    hide HighOf, LowOf, Lost, Sound, Clear, Skim;
    if k == Below(rs, first) {
      BelowSound(g, i, rs, first, s0);
    } else {
      var r, m := rs[k - 1], k - 1;
      var s := Scanned(g, first, s0, Items(rs)[..m]);
      AboveSound(g, i, rs, first, s0, m);
      ScannedOneMore(g, first, s0, Items(rs), m);
      assert Items(rs)[m] == RunItem(r);
      HighAbove(g, first, r);
      RunSound(g, i, rs, first, s, m);
    }
  }

  /** One run from the first article on. */
  lemma RunSound(g: Group, i: int, rs: seq<Run>, first: int, s: Scan, k: nat)
    requires Increasing(g.nums) && first <= g.last && Ordered(rs) && k < |rs| && rs[k].min >= first
    requires (forall x :: x in g.nums && g.abs <= x < first ==> x < i) && first >= i && first >= g.abs
    requires Sound(g, first, s, Kept(g, i, rs, first)) && first <= s.n && Passed(g, s, rs, k) && (Lost(rs, first) ==> s.n > first)
    ensures
      var s' := Clear(g, Skim(g, s, Min(rs[k].min, g.last + 1)), Min(rs[k].max, g.last));
      && Sound(g, first, s', Kept(g, i, rs, first)) && first <= s'.n && Passed(g, s', rs, k + 1)
      && (Lost(rs, first) ==> s'.n > first)
  {
    hide Lost, Sound, Skim, Clear, Kept, Increasing, Passed;
    var r, w := rs[k], Kept(g, i, rs, first);
    var low, high := Min(r.min, g.last + 1), Min(r.max, g.last);
    SoundStands(g, first, s, w);
    KeptAround(g, i, rs, first, s, k);
    SkimSound(g, first, s, w, low);
    var s1 := Skim(g, s, low);
    Later(g, s, low);
    NothingSkipped(g, s, rs, k);
    ClearSound(g, first, s1, w, high);
    PassedOne(g, s1, rs, k);
  }

  /** What is kept in front of a run, and in it. */
  lemma KeptAround(g: Group, i: int, rs: seq<Run>, first: int, s: Scan, k: nat)
    requires Ordered(rs) && k < |rs| && first >= i && first >= g.abs && first <= s.n && Passed(g, s, rs, k)
    requires (Lost(rs, first) ==> s.n > first) && forall x :: x in g.nums && g.abs <= x < first ==> x < i
    ensures
      var w := Kept(g, i, rs, first);
      && (forall x :: s.n <= x < Min(rs[k].min, g.last + 1) ==> (x in w <==> x in g.nums && x in g.present && x !in g.killed))
      && (forall x :: rs[k].min <= x <= rs[k].max ==> x !in w)
      && (forall x :: x in w ==> x in g.nums && first <= x <= g.last)
  {
    hide Lost;
    forall x | s.n <= x < Min(rs[k].min, g.last + 1) ensures !In(rs, x) {
      Gap(rs, k, x);
    }
  }

  lemma NothingSkipped(g: Group, s: Scan, rs: seq<Run>, k: nat)
    requires Increasing(g.nums) && Ordered(rs) && k < |rs| && Passed(g, s, rs, k)
    ensures
      var n := Skim(g, s, Min(rs[k].min, g.last + 1)).n;
      forall x :: x in g.nums && Min(rs[k].max, g.last) < x < n ==> x > g.last
  {
    NextIs(g.nums, Min(rs[k].min, g.last + 1) - 1, g.last);
  }

  lemma PassedOne(g: Group, s: Scan, rs: seq<Run>, k: nat)
    requires Increasing(g.nums) && Ordered(rs) && k < |rs|
    ensures
      var s' := Clear(g, s, Min(rs[k].max, g.last));
      Passed(g, s', rs, k + 1) && s'.n > Min(rs[k].max, g.last)
  {
    NextIs(g.nums, Min(rs[k].max, g.last), g.last);
  }

  lemma SoundStands(g: Group, first: int, s: Scan, w: set<int>)
    requires Sound(g, first, s, w)
    ensures Stands(g, s.n)
  {
  }

  /** The scan does not go back. */
  lemma Later(g: Group, s: Scan, low: int)
    requires Increasing(g.nums) && Stands(g, s.n) && low <= g.last + 1
    ensures var n := Skim(g, s, low).n; n >= low || n > g.last
    ensures var n := Skim(g, s, low).n; n >= s.n && Stands(g, n)
  {
    NextIs(g.nums, low - 1, g.last);
  }

  lemma SkimNothing(g: Group, s: Scan)
    requires s.n > g.last
    ensures Skim(g, s, g.last + 1) == s
  {
  }

  /** What was read before the first article looked at stays so. */
  lemma {:induction false} ReadBefore(g: Group, first: int, s0: Scan, items: seq<Item>)
    requires Increasing(g.nums) && first <= g.last && s0.n >= first
    ensures var s := Scanned(g, first, s0, items); s.n >= first && forall x :: x < first && x in s.unread ==> x in s0.unread
  {
    if items != [] {
      var n := |items| - 1;
      ReadBefore(g, first, s0, items[..n]);
      var s, it := Scanned(g, first, s0, items[..n]), items[n];
      NextIs(g.nums, LowOf(it, first, g.last) - 1, g.last);
      NextIs(g.nums, HighOf(it, first, g.last), g.last);
    }
  }

  /** At the end everything has been passed. */
  lemma AllPassed(g: Group, first: int, s: Scan, w: set<int>)
    requires Increasing(g.nums) && Sound(g, first, s, w) && first <= s.n
    requires forall x :: s.n <= x <= g.last ==> (x in w <==> x in g.nums && x in g.present && x !in g.killed)
    requires forall x :: x in w ==> x in g.nums && first <= x <= g.last
    ensures
      var s' := Skim(g, s, g.last + 1);
      && (forall x :: x in g.nums && x in g.present && first <= x <= g.last ==> (x in s'.unread <==> x in w))
      && s'.count == |w|
      && (forall x :: x < first && x in s'.unread ==> x in s.unread)
  {
    SkimSound(g, first, s, w, g.last + 1);
    NextIs(g.nums, g.last, g.last);
    var s' := Skim(g, s, g.last + 1);
    assert s'.n > g.last;
    assert (set x | x in w && x < s'.n) == w;
  }

  /** A line printed for articles read below `i` and in the runs `rs`, parsed by a group whose
      articles may have changed since: every existing article that was not killed is unread just
      if the line does not hold it, but for the one that may be lost; and that many are counted. */
  lemma ParsedIs(g: Group, i: nat, rs: seq<Run>, unread: set<int>)
    requires Increasing(g.nums) && 1 <= g.abs <= g.last + 1 && 1 <= i <= g.last + 1 && i <= MaxLong
    requires Ordered(rs) && Printable(rs)
    ensures
      var p, first := Parsed(g, Line(i, rs), unread), FirstOf(g, Line(i, rs));
      && first == Next(g.nums, Max(i, g.abs) - 1, g.last)
      && (forall x :: x in g.nums && x in g.present && g.abs <= x <= g.last ==> (x in p.unread <==> x in Kept(g, i, rs, first)))
      && p.count == |Kept(g, i, rs, first)|
  {
    hide Scanned, Skim, Lost, HeaderOf, Line, Kept, Cached, Increasing;
    LineHeader(i, rs, g.abs);
    var items, first := Items(rs), FirstOf(g, Line(i, rs));
    var s0 := Started(g, Line(i, rs), unread);
    BeforeFirst(g, i, unread);
    if first > g.last {
      PassEnd(g, first, s0, items);
      SkimNothing(g, Scanned(g, first, s0, items));
      NothingKept(g, i, rs, first);
    } else {
      PartKept(g, i, rs, first, s0);
    }
  }

  /** The range from 1 makes all below the first article looked at read. */
  lemma BeforeFirst(g: Group, i: nat, unread: set<int>)
    requires Increasing(g.nums) && g.abs <= g.last + 1 && i <= g.last + 1
    ensures
      var h := Max(i, g.abs);
      var first := Next(g.nums, h - 1, g.last);
      && first >= i && first >= g.abs && (first in g.nums || first > g.last)
      && (forall x :: x in g.nums && g.abs <= x < first && x <= g.last ==> x < i && x !in unread - Cached(g, g.abs, h))
  {
    NextIs(g.nums, Max(i, g.abs) - 1, g.last);
  }

  lemma NothingKept(g: Group, i: int, rs: seq<Run>, first: int)
    requires first > g.last && forall x :: x in g.nums && g.abs <= x < first && x <= g.last ==> x < i
    ensures Kept(g, i, rs, first) == {}
  {
    hide Lost;
  }

  /** The scan over all the runs. */
  lemma PartKept(g: Group, i: int, rs: seq<Run>, first: int, s0: Scan)
    requires Increasing(g.nums) && first in g.nums && g.abs <= first <= g.last && first >= i && s0.n == first && s0.count == 0
    requires Ordered(rs) && forall x :: x in g.nums && g.abs <= x < first ==> x < i && x !in s0.unread
    ensures
      var p, w := Skim(g, Scanned(g, first, s0, Items(rs)), g.last + 1), Kept(g, i, rs, first);
      && (forall x :: x in g.nums && x in g.present && g.abs <= x <= g.last ==> (x in p.unread <==> x in w))
      && p.count == |w|
  {
    hide Scanned, Skim, Lost, Sound, Increasing;
    var items := Items(rs);
    var s, w := Scanned(g, first, s0, items), Kept(g, i, rs, first);
    assert items[..|rs|] == items;
    AboveSound(g, i, rs, first, s0, |rs|);
    ReadBefore(g, first, s0, items);
    forall x | s.n <= x <= g.last ensures x in w <==> x in g.nums && x in g.present && x !in g.killed {
      Gap(rs, |rs|, x);
    }
    AllPassed(g, first, s, w);
  }

  /** Exactly what should be unread is unread again, unless the first article looked at should
      be and is lost. */
  lemma RestoredIff(g: Group, i: nat, rs: seq<Run>, unread: set<int>)
    requires Increasing(g.nums) && 1 <= g.abs <= g.last + 1 && 1 <= i <= g.last + 1 && i <= MaxLong
    requires Ordered(rs) && Printable(rs)
    ensures
      var p, first := Parsed(g, Line(i, rs), unread), FirstOf(g, Line(i, rs));
      (forall x :: x in g.nums && x in g.present && g.abs <= x <= g.last ==> (x in p.unread <==> x in Wanted(g, i, rs)))
      && p.count == |Wanted(g, i, rs)|
      <==> !(Lost(rs, first) && first in Wanted(g, i, rs))
  {
    hide Parsed, Line, Lost, FirstOf;
    ParsedIs(g, i, rs, unread);
    var first, w := FirstOf(g, Line(i, rs)), Wanted(g, i, rs);
    if first !in w {
      assert w - {first} == w;
    }
    assert w - {} == w;
  }

  // ---- Lines that do not start with a range from 1 ---------------------------------------------------------------

  predicate Blank(text: string) {
    forall c :: c in text ==> c == ' '
  }

  lemma {:induction false} BlanksSkipped(blanks: string, t: string)
    requires Blank(blanks) && (t != "" ==> t[0] != ' ')
    ensures SkipBlanks(blanks + t) == t
  {
    if blanks != "" {
      assert blanks[0] in blanks && (forall c :: c in blanks[1..] ==> c in blanks);
      assert (blanks + t)[1..] == blanks[1..] + t;
      BlanksSkipped(blanks[1..], t);
    } else {
      assert blanks + t == t;
    }
  }

  /** Blanks in front of a line do not matter. */
  lemma BlanksInFront(g: Group, blanks: string, t: string, unread: set<int>)
    requires Blank(blanks) && (t != "" ==> t[0] != ' ')
    ensures Parsed(g, blanks + t, unread) == Parsed(g, t, unread) && FirstOf(g, blanks + t) == FirstOf(g, t)
  {
    hide Scanned, Skim, ItemsOf, SkipBlanks, Cached, Next, Blank, FromChars, Find;
    BlanksSkipped(blanks, t);
    NoBlanks(t);
    assert HeaderOf(blanks + t, g.abs) == HeaderOf(t, g.abs);
  }

  lemma NoBlanks(t: string)
    requires t != "" ==> t[0] != ' '
    ensures SkipBlanks(t) == t
  {
  }

  /** The first cached article from `lo` on; behind the last one it is `last + 1`. */
  ghost predicate FirstCached(nums: seq<int>, lo: int, last: int, first: int) {
    && (forall x :: x in nums && x >= lo ==> first <= x)
    && (if exists x :: x in nums && x >= lo then first in nums && first >= lo else first == last + 1)
  }

  lemma NextIsFirst(nums: seq<int>, lo: int, last: int)
    requires Increasing(nums)
    ensures FirstCached(nums, lo, last, Next(nums, lo - 1, last))
  {
    NextIs(nums, lo - 1, last);
  }

  /** A line with nothing on it: every existing article that was not killed is unread. */
  lemma BlankLineIs(g: Group, text: string, unread: set<int>)
    requires Increasing(g.nums) && 1 <= g.abs <= g.last + 1 && Blank(text)
    ensures
      var p := Parsed(g, text, unread);
      && FirstCached(g.nums, g.abs, g.last, FirstOf(g, text))
      && (forall x :: x in g.nums && x in g.present && g.abs <= x <= g.last ==> (x in p.unread <==> x !in g.killed))
      && p.count == |set x | x in g.nums && x in g.present && x !in g.killed && g.abs <= x <= g.last|
  {
    hide Scanned, Skim, Lost, Kept, Increasing;
    var first := FirstOf(g, text);
    BlanksSkipped(text, "");
    assert text + "" == text;
    NextIsFirst(g.nums, g.abs, g.last);
    ScannedNone(g, first, Started(g, text, unread));
    UncutIs(g, [], Scan(first, unread, 0));
    NoRunsKept(g, first);
  }

  lemma NoRunsKept(g: Group, first: int)
    requires g.abs >= 1
    ensures Kept(g, 0, [], first) == set x | x in g.nums && x in g.present && x !in g.killed && g.abs <= x <= g.last
    ensures Items([]) == []
  {
  }

  /** The scan of runs from the first article on, nothing being read before. */
  lemma UncutIs(g: Group, rs: seq<Run>, s0: Scan)
    requires Increasing(g.nums) && 1 <= g.abs <= g.last + 1 && Ordered(rs)
    requires FirstCached(g.nums, g.abs, g.last, s0.n) && s0.count == 0
    ensures
      var first := s0.n;
      var p, w := Skim(g, Scanned(g, first, s0, Items(rs)), g.last + 1), Kept(g, 0, rs, first);
      && (forall x :: x in g.nums && x in g.present && g.abs <= x <= g.last ==> (x in p.unread <==> x in w))
      && p.count == |w|
  {
    hide Scanned, Skim, Lost, Kept, Increasing;
    var first := s0.n;
    if first > g.last {
      PassEnd(g, first, s0, Items(rs));
      SkimNothing(g, Scanned(g, first, s0, Items(rs)));
      NothingKept(g, 0, rs, first);
    } else {
      PartKept(g, 0, rs, first, s0);
    }
  }

  /** Runs as they are printed, with nothing behind the last one. */
  function RunsLine(rs: seq<Run>): string
    requires rs != []
  {
    RunsText(rs)[..|RunsText(rs)| - 1]
  }

  lemma FrontRun(rs: seq<Run>)
    requires rs != [] && Printable(rs)
    ensures
      var d, several := Dec(rs[0].min), rs[0].max > rs[0].min;
      var t, mark := RunsLine(rs), if several then '-' else ',';
      && |t| >= |d| && t[..|d|] == d && (|t| > |d| ==> t[|d|] == mark) && (several ==> |t| > |d|)
  {
    hide Dec;
    var d, b := Dec(rs[0].min), RunsText(rs[1..]);
    if rs[0].max > rs[0].min {
      var e := Dec(rs[0].max);
      assert RunsText(rs) == d + ("-" + e + "," + b);
      assert |"-" + e + "," + b| >= 2;
    } else {
      assert RunsText(rs) == d + ("," + b);
    }
  }

  lemma StartOfDec(n: nat)
    ensures Dec(n)[0] != ' ' && (Dec(n) == "1" <==> n == 1) && Dec(n)[0] != '-' && (|Dec(n)| > 1 ==> Dec(n)[1] != '-')
  {
    DigitsOnly(n);
    ValueOfDec(n);
    ValueOfDec(1);
    assert Dec(1) == "1";
  }

  /** Such a line starts with "1-" just if its first run is one of several articles from 1 on. */
  lemma StartsFromOne(rs: seq<Run>)
    requires rs != [] && Printable(rs)
    ensures RunsLine(rs) != "" && RunsLine(rs)[0] != ' '
    ensures |RunsLine(rs)| >= 2 && RunsLine(rs)[..2] == "1-" <==> rs[0].min == 1 && rs[0].max > 1
  {
    hide Dec, RunsLine;
    var d, t := Dec(rs[0].min), RunsLine(rs);
    FrontRun(rs);
    StartOfDec(rs[0].min);
    assert t[0] == t[..|d|][0] == d[0];
    if |d| == 1 {
      assert d == [t[0]];
      assert |t| >= 2 ==> t[..2] == [t[0], t[1]];
    } else {
      assert t[1] == t[..|d|][1] == d[1];
      assert t[..2][1] == t[1];
    }
  }

  /** A line of runs, without a range from 1: what is in none of them is unread, but for the one
      that may be lost to a single number below the first article. */
  lemma RunsLineIs(g: Group, blanks: string, rs: seq<Run>, unread: set<int>)
    requires Increasing(g.nums) && 1 <= g.abs <= g.last + 1 && Blank(blanks)
    requires rs != [] && Ordered(rs) && Printable(rs) && !(rs[0].min == 1 && rs[0].max > 1)
    ensures
      var text := blanks + RunsLine(rs);
      var p, first := Parsed(g, text, unread), FirstOf(g, text);
      && FirstCached(g.nums, g.abs, g.last, first)
      && (forall x :: x in g.nums && x in g.present && g.abs <= x <= g.last ==>
           (x in p.unread <==> x !in g.killed && !In(rs, x) && !(x == first && Lost(rs, first))))
      && p.count == |set x | x in g.nums && x in g.present && x !in g.killed && g.abs <= x <= g.last && !In(rs, x)
                             && !(x == first && Lost(rs, first))|
  {
    hide Scanned, Skim, Lost, Kept, Increasing, RunsLine, FirstOf, ItemsOf, SkipBlanks;
    var t := RunsLine(rs);
    StartsFromOne(rs);
    BlanksInFront(g, blanks, t, unread);
    RunsLineHeader(g, rs, unread);
    NextIsFirst(g.nums, g.abs, g.last);
    UncutIs(g, rs, Scan(FirstOf(g, t), unread, 0));
    KeptIs(g, rs, FirstOf(g, t));
  }

  lemma RunsLineHeader(g: Group, rs: seq<Run>, unread: set<int>)
    requires rs != [] && Printable(rs) && !(rs[0].min == 1 && rs[0].max > 1)
    ensures
      var t := RunsLine(rs);
      && HeaderOf(t, g.abs) == Header(g.abs, false, Items(rs)) && FirstOf(g, t) == Next(g.nums, g.abs - 1, g.last)
      && Started(g, t, unread) == Scan(FirstOf(g, t), unread, 0)
  {
    hide ItemsOf;
    var t := RunsLine(rs);
    StartsFromOne(rs);
    RunsRead(rs);
    assert SkipBlanks(t) == t;
  }

  lemma KeptIs(g: Group, rs: seq<Run>, first: int)
    requires g.abs >= 1
    ensures Kept(g, 0, rs, first) == set x | x in g.nums && x in g.present && x !in g.killed && g.abs <= x <= g.last && !In(rs, x)
                                             && !(x == first && Lost(rs, first))
  {
    hide Lost, In;
  }

  /** The articles a group has cached and unread. */
  ghost function UnreadOf(nums: seq<int>, unread: set<int>): set<int> {
    set x | x in nums && x in unread
  }

  /** What the printed line keeps of a group with numbers up to `last`, for a group `g` later on:
      who was unread then, and whoever has come since. */
  lemma PrintedKeeps(nums: seq<int>, unread: set<int>, abs: int, last: int, g: Group)
    requires Increasing(nums) && 1 <= abs <= last + 1 && last <= MaxLong - 1 && forall x :: x in nums ==> x <= last
    ensures
      var i, u := Head(nums, unread, Next(nums, abs - 1, last), last), UnreadOf(nums, unread);
      && abs <= i <= last + 1 && Ordered(Runs(u, i, last)) && Printable(Runs(u, i, last))
      && (forall x :: x in Wanted(g, i, Runs(u, i, last)) <==>
            && x in g.nums && x in g.present && x !in g.killed && g.abs <= x <= g.last
            && (x > last || (x >= abs && x in u)))
  {
    hide Head, Runs;
    var n0, u := Next(nums, abs - 1, last), UnreadOf(nums, unread);
    NextIs(nums, abs - 1, last);
    HeadIs(nums, unread, n0, last);
    var i := Head(nums, unread, n0, last);
    var rs := Runs(u, i, last);
    RunsAre(u, i, last);
    RunsPrintable(u, i, last, rs);
    forall x | x > last ensures !In(rs, x) {
      Outside(u, i, last, rs, x);
    }
  }

  lemma RunsPrintable(u: set<int>, i: nat, last: int, rs: seq<Run>)
    requires RunsOf(u, i, last, rs) && last <= MaxLong
    ensures Printable(rs) && Ordered(rs)
  {
    forall r | r in rs ensures r.min <= r.max <= MaxLong {
      var k :| 0 <= k < |rs| && rs[k] == r;
    }
  }

  lemma Outside(u: set<int>, i: nat, last: int, rs: seq<Run>, x: int)
    requires RunsOf(u, i, last, rs) && (x > last || x < i)
    ensures !In(rs, x)
  {
  }

  /** The round trip: printed and parsed again by the same group, the same articles are unread,
      the same number of them, and the first is the same. */
  lemma RoundTrip(nums: seq<int>, present: set<int>, unread: set<int>, abs: int, last: int, unread': set<int>)
    requires Increasing(nums) && 1 <= abs <= last + 1 && last <= MaxLong - 1 && forall x :: x in nums ==> x <= last
    requires forall x :: x in nums && x in unread ==> x in present && x >= abs
    ensures
      var i, u := Head(nums, unread, Next(nums, abs - 1, last), last), UnreadOf(nums, unread);
      var g := Group(nums, present, {}, abs, last);
      && 1 <= i <= last + 1
      && var text := Line(i, Runs(u, i, last));
         && (forall x :: x in nums && x in present && x >= abs ==> (x in Parsed(g, text, unread').unread <==> x in unread))
         && Parsed(g, text, unread').count == |u| && (u != {} ==> FirstOf(g, text) == i)
  {
    hide Head, Runs, Parsed, Line, Lost, FirstOf, Kept, Increasing;
    var n0, u, g := Next(nums, abs - 1, last), UnreadOf(nums, unread), Group(nums, present, {}, abs, last);
    var i := Head(nums, unread, n0, last);
    NextIs(nums, abs - 1, last);
    HeadIs(nums, unread, n0, last);
    PrintedKeeps(nums, unread, abs, last, g);
    var rs := Runs(u, i, last);
    assert Wanted(g, i, rs) == u;
    ParsedIs(g, i, rs, unread');
    NextIs(nums, i - 1, last);
    if i <= last {
      RunsAre(u, i, last);
      NoneBefore(u, i, last, rs);
    } else {
      assert u == {};
    }
    RestoredIff(g, i, rs, unread');
  }

  /** No run starts before the first unread article. */
  lemma NoneBefore(u: set<int>, i: nat, last: int, rs: seq<Run>)
    requires RunsOf(u, i, last, rs)
    ensures !Lost(rs, i)
  {
  }

  /** What a line looks like. */
  lemma LineLooks()
    ensures Line(5, [Run(6, 6), Run(9, 12)]) == " 1-4,6,9-12" && Line(1, []) == " 1-0"
  {
    var rs := [Run(6, 6), Run(9, 12)];
    assert Dec(0) == "0" && Dec(4) == "4" && RunText(rs[0]) == "6" && Dec(9) == "9" && Dec(1) == "1";
    assert Dec(12) == "12" && RunText(rs[1]) == "9-12";
    assert rs[1..] == [rs[1]] && rs[1..][1..] == [];
    assert RunsText(rs[1..]) == "9-12,";
    assert RunsText(rs) == "6,9-12,";
  }

  /** Articles 5, 7 and 8 of 1 to 8 are unread, which prints as "1-4,6". Articles 1 to 7 have gone
      since, while the server still counts from 1, so that nobody has touched the line: it makes
      8 a read article, for the 6 is taken for the first there is. */
  lemma ExpiredRunEatsUnread(unread: set<int>)
    ensures
      var u, g := {5, 7, 8}, Group([8], {8}, {}, 1, 8);
      var rs := [Run(6, 6)];
      && RunsOf(u, 5, 8, rs) && 8 in Wanted(g, 5, rs)
      && 8 !in Parsed(g, Line(5, rs), unread).unread && Parsed(g, Line(5, rs), unread).count == 0
  {
    hide Parsed, Line;
    var u, g, rs := {5, 7, 8}, Group([8], {8}, {}, 1, 8), [Run(6, 6)];
    forall x | 5 <= x <= 8 ensures In(rs, x) <==> x !in u {
      assert In(rs, 6) by { assert rs[0].min <= 6 <= rs[0].max; }
    }
    assert Next([8], 4, 8) == 8;
    assert LastBelow(rs, 8, 0);
    ParsedIs(g, 5, rs, unread);
    var kept := Kept(g, 5, rs, 8);
    assert kept == {};
  }
}
