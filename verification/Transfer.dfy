/** An article body on its way through NNTP (section 3.1.1 of RFC 3977): the sender's loop
    (inews/inews.cpp, lines 283-332), the reading of lines in pieces (nntp/nntpclient.cpp, lines
    595-657) and the receiver's loop (libtrn/nntp.cpp, lines 347-381). */
module Transfer {

  import Numbers
  import opened Strings

  // ---- The lines of a body ------------------------------------------------------------------------

  function BodyLines(b: string): (ls: seq<string>)
    ensures forall l :: l in ls ==> '\n' !in l
  {
    if b == "" then []
    else
      var n := Find(b, '\n');
      if n == |b| then [b] else [b[..n]] + BodyLines(b[n + 1..])
  }

  /** The body with a newline at its end. */
  function Text(ls: seq<string>): string {
    if ls == [] then "" else ls[0] + "\n" + Text(ls[1..])
  }

  /** ... which is the body itself if it has one. */
  function Ended(b: string): string {
    if b != "" && b[|b| - 1] != '\n' then b + "\n" else b
  }

  lemma {:induction false} TextIsBody(b: string)
    ensures Text(BodyLines(b)) == Ended(b)
  {
    hide Find, BodyLines, Text;
    if b == "" {
      NoText();
    } else {
      var n := Find(b, '\n');
      LinesOf(b);
      if n < |b| {
        TextIsBody(b[n + 1..]);
        TextFront(b[..n], BodyLines(b[n + 1..]));
        EndedRest(b, n);
      } else {
        NoText();
        TextFront(b, []);
        assert [b] + [] == [b] && b + "\n" + "" == b + "\n";
        assert b[|b| - 1] != '\n';
      }
    }
  }

  lemma NoText()
    ensures BodyLines("") == [] && Text([]) == ""
  {
  }

  lemma LinesOf(b: string)
    requires b != ""
    ensures var n := Find(b, '\n');
      if n == |b| then BodyLines(b) == [b] else BodyLines(b) == [b[..n]] + BodyLines(b[n + 1..])
  {
    hide Find;
  }

  lemma TextFront(l: string, ls: seq<string>)
    ensures Text([l] + ls) == l + "\n" + Text(ls)
  {
    assert ([l] + ls)[1..] == ls;
  }

  lemma EndedRest(b: string, n: nat)
    requires n < |b| && b[n] == '\n'
    ensures b[..n] + "\n" + Ended(b[n + 1..]) == Ended(b)
  {
    assert b == b[..n] + "\n" + b[n + 1..];
  }

  // ---- Sending -------------------------------------------------------------------------------------

  function Dotted(l: string): string {
    if l != "" && l[0] == '.' then "." + l else l
  }

  function AllDotted(ls: seq<string>): seq<string> {
    seq(|ls|, i requires 0 <= i < |ls| => Dotted(ls[i]))
  }

  /** Lines on the wire. */
  function Wire(ls: seq<string>): string {
    if ls == [] then "" else ls[0] + "\r\n" + Wire(ls[1..])
  }

  lemma {:induction false} OneMoreLine(ls: seq<string>, l: string)
    ensures Wire(ls + [l]) == Wire(ls) + (l + "\r\n")
  {
    if ls == [] {
      assert (ls + [l])[1..] == [];
    } else {
      assert (ls + [l])[1..] == ls[1..] + [l];
      OneMoreLine(ls[1..], l);
      Regroup(ls[0] + "\r\n", Wire(ls[1..]), l + "\r\n");
    }
  }

  /** How far the body has been sent: the lines `done`, of which the last may lack its end. */
  ghost predicate Sending(body: string, rest: string, done: seq<string>, wire: string, hadNl: bool) {
    && done + AllDotted(BodyLines(rest)) == AllDotted(BodyLines(body))
    && (if hadNl then wire == Wire(done) else rest == "" && wire + "\r\n" == Wire(done))
  }

  lemma SendStart(body: string)
    ensures Sending(body, body, [], "", true)
  {
  }

  lemma SendLine(body: string, rest: string, done: seq<string>, wire: string)
    requires Sending(body, rest, done, wire, true) && rest != ""
    ensures
      var n := Find(rest, '\n');
      var line := Dotted(rest[..n]);
      if n < |rest| then Sending(body, rest[n + 1..], done + [line], wire + (line + "\r\n"), true)
      else Sending(body, "", done + [line], wire + line, false)
  {
    hide Find, Dotted, BodyLines, AllDotted, Wire;
    var n := Find(rest, '\n');
    var line, after := Dotted(rest[..n]), if n < |rest| then rest[n + 1..] else "";
    LinesFrom(rest);
    OneMoreLine(done, line);
    Regroup(done, [line], AllDotted(BodyLines(after)));
    Regroup(wire, line, "\r\n");
  }

  lemma SendEnd(body: string, done: seq<string>, wire: string, hadNl: bool)
    requires Sending(body, "", done, wire, hadNl)
    ensures (if hadNl then wire else wire + "\r\n") == Wire(AllDotted(BodyLines(body)))
  {
    assert AllDotted(BodyLines("")) == [];
    assert done + [] == done;
  }

  /** Reads the body line by line, puts an extra dot in front of each that starts with one,
      and a line end behind the last if it has none; a single dot ends it. */
  method SendBody(body: string) returns (wire: string)
    ensures wire == Wire(AllDotted(BodyLines(body))) + ".\r\n"
  {
    hide Sending, BodyLines, AllDotted, Wire;
    wire := "";
    var hadNl, rest := true, body;
    ghost var done := [];
    SendStart(body);
    while rest != ""
      invariant Sending(body, rest, done, wire, hadNl) && (hadNl || rest == "")
      decreases |rest|
    {
      SendLine(body, rest, done, wire);
      var n := Find(rest, '\n');
      var foundNl := n < |rest|;
      var line := rest[..n];
      done := done + [Dotted(line)];
      if hadNl && line != "" && line[0] == '.' {
        line := "." + line;
      }
      if foundNl {
        wire := wire + (line + "\r\n");
        hadNl := true;
        rest := rest[n + 1..];
      } else {
        wire := wire + line;
        hadNl := false;
        rest := "";
      }
    }
    SendEnd(body, done, wire, hadNl);
    if !hadNl {
      wire := wire + "\r\n";
    }
    wire := wire + ".\r\n";
  }

  lemma DottedFront(ls: seq<string>)
    requires ls != []
    ensures AllDotted(ls) == [Dotted(ls[0])] + AllDotted(ls[1..])
  {
  }

  lemma NoLines()
    ensures BodyLines("") == [] && AllDotted([]) == []
  {
  }

  lemma LinesFrom(rest: string)
    requires rest != ""
    ensures
      var n := Find(rest, '\n');
      var after := if n < |rest| then rest[n + 1..] else "";
      AllDotted(BodyLines(rest)) == [Dotted(rest[..n])] + AllDotted(BodyLines(after))
  {
    hide Dotted, BodyLines, AllDotted;
    var n := Find(rest, '\n');
    LinesOf(rest);
    DottedFront(BodyLines(rest));
    NoLines();
    assert rest[..|rest|] == rest;
    if n == |rest| {
      assert [rest][1..] == [];
    } else {
      assert ([rest[..n]] + BodyLines(rest[n + 1..]))[1..] == BodyLines(rest[n + 1..]);
    }
  }

  // ---- Receiving ----------------------------------------------------------------------------------------

  predicate AtListEnd(s: string) {
    s != "" && s[0] == '.' && (|s| == 1 || s[1] == '\r')
  }

  function Undotted(s: string): string {
    if s != "" && s[0] == '.' then s[1..] else s
  }

  /** What becomes of the rest of a line that comes in pieces: each piece but the last is one
      short of `limit`, and the reader then goes on behind `limit`. */
  function InPieces(m: string, limit: nat): string
    requires limit > 0
    decreases |m|
  {
    if |m| <= limit then m + "\n" else m[..limit - 1] + InPieces(m[limit..], limit)
  }

  /** The piece a line starts with. */
  function FirstPiece(l: string, limit: nat): string
    requires limit > 0
  {
    if |l| <= limit then l else l[..limit - 1]
  }

  /** What becomes of a line. */
  function OneLine(l: string, limit: nat): string
    requires limit > 0
  {
    if |l| <= limit then Undotted(l) + "\n" else Undotted(l[..limit - 1]) + InPieces(l[limit..], limit)
  }

  /** What is received of the lines of an article: all, or all before one that looks like the end. */
  function Received(ls: seq<string>, limit: nat): string
    requires limit > 0
  {
    if ls == [] || AtListEnd(FirstPiece(ls[0], limit)) then "" else OneLine(ls[0], limit) + Received(ls[1..], limit)
  }

  ghost predicate Fits(ls: seq<string>, limit: nat) {
    forall l :: l in ls ==> |l| <= limit
  }

  /** No character comes twice, and a line that comes in pieces loses one at each joint. */
  lemma {:induction false} PiecesShorter(m: string, limit: nat)
    requires limit > 0
    ensures |InPieces(m, limit)| <= |m| + 1 && (|m| > limit ==> |InPieces(m, limit)| <= |m|)
    decreases |m|
  {
    if |m| > limit {
      PiecesShorter(m[limit..], limit);
    }
  }

  lemma LineShorter(l: string, limit: nat)
    requires limit > 1
    ensures |OneLine(Dotted(l), limit)| <= |l| + 1
    ensures |Dotted(l)| > limit ==> |OneLine(Dotted(l), limit)| <= |l|
    ensures |Dotted(l)| <= limit ==> OneLine(Dotted(l), limit) == l + "\n" && !AtListEnd(FirstPiece(Dotted(l), limit))
  {
    var d := Dotted(l);
    if |d| > limit {
      PiecesShorter(d[limit..], limit);
    }
  }

  /** Lines that fit are received as they were. */
  lemma {:induction false} FittingArrive(ls: seq<string>, limit: nat)
    requires limit > 1 && Fits(AllDotted(ls), limit)
    ensures Received(AllDotted(ls), limit) == Text(ls)
  {
    hide OneLine, FirstPiece, Dotted;
    if ls != [] {
      DottedFront(ls);
      FittingArrive(ls[1..], limit);
      assert Dotted(ls[0]) in AllDotted(ls);
      LineShorter(ls[0], limit);
      assert AllDotted(ls)[1..] == AllDotted(ls[1..]);
    }
  }

  /** Otherwise less arrives than was sent. */
  lemma {:induction false} LongLose(ls: seq<string>, limit: nat)
    requires limit > 1
    ensures |Received(AllDotted(ls), limit)| <= |Text(ls)|
    ensures !Fits(AllDotted(ls), limit) ==> |Received(AllDotted(ls), limit)| < |Text(ls)|
  {
    hide OneLine, FirstPiece, Dotted;
    if ls != [] {
      DottedFront(ls);
      LongLose(ls[1..], limit);
      LineShorter(ls[0], limit);
      assert AllDotted(ls)[1..] == AllDotted(ls[1..]);
    }
  }

  /** A body arrives as it was sent, with a newline at its end, if and only if no line, with its
      extra dot, is longer than the reader's limit. */
  lemma ArrivesIff(body: string, limit: nat)
    requires limit > 1
    ensures Received(AllDotted(BodyLines(body)), limit) == Ended(body) <==> Fits(AllDotted(BodyLines(body)), limit)
  {
    var ls := BodyLines(body);
    TextIsBody(body);
    LongLose(ls, limit);
    if Fits(AllDotted(ls), limit) {
      FittingArrive(ls, limit);
    }
  }

  /** A line one longer than the limit loses the character at the joint. */
  lemma OneTooLong(l: string)
    requires |l| > 2 && '\n' !in l && l[0] != '.'
    ensures
      var limit := |l| - 1;
      Received(AllDotted(BodyLines(l)), limit) == l[..limit - 1] + l[limit..] + "\n"
  {
    hide Find, OneLine, FirstPiece;
    var limit := |l| - 1;
    assert BodyLines(l) == [l] && AllDotted([l]) == [l] && [l][1..] == [];
    LastLost(l);
    assert OneLine(l, limit) + "" == OneLine(l, limit);
  }

  lemma LastLost(l: string)
    requires |l| > 2 && l[0] != '.'
    ensures
      var limit := |l| - 1;
      OneLine(l, limit) == l[..limit - 1] + l[limit..] + "\n" && !AtListEnd(FirstPiece(l, limit))
  {
    var limit := |l| - 1;
    Regroup(l[..limit - 1], l[limit..], "\n");
  }

  // ---- What the lines come to -----------------------------------------------------------------------------------

  lemma NextBlock(j: nat, limit: nat)
    requires 0 < limit <= j
    ensures j / limit == (j - limit) / limit + 1 && j % limit == (j - limit) % limit && 0 <= j % limit < limit
  {
    var q, r := (j - limit) / limit, (j - limit) % limit;
    assert j == limit * q + r + limit == limit * (q + 1) + r;
    Numbers.QuotientIs(j, limit, q + 1, r);
    assert j == limit * (j / limit) + j % limit;
  }

  /** A line that comes in pieces arrives but for the last character of every block of `limit`
      characters that another block follows. */
  lemma {:induction false} PiecesAre(m: string, limit: nat, j: nat)
    requires limit > 0 && j < |m|
    ensures
      var got, joints := InPieces(m, limit), (|m| - 1) / limit;
      && |got| == |m| + 1 - joints && got[|got| - 1] == '\n' && 0 <= j / limit <= joints && j / limit <= j
      && (j % limit < limit - 1 || j / limit == joints ==> j - j / limit < |got| && got[j - j / limit] == m[j])
    decreases |m|
  {
    if |m| > limit {
      var rest := m[limit..];
      PiecesAre(rest, limit, if j < limit then 0 else j - limit);
      NextBlock(|m| - 1, limit);
      if j >= limit {
        NextBlock(j, limit);
        assert rest[j - limit] == m[j];
      } else {
        Numbers.QuotientIs(j, limit, 0, j);
      }
    } else {
      Numbers.QuotientIs(j, limit, 0, j);
      Numbers.QuotientIs(|m| - 1, limit, 0, |m| - 1);
    }
  }

  /** What becomes of any line of a body, `dot` being 1 if it was sent with an extra dot. */
  lemma LineArrives(l: string, limit: nat, j: nat)
    requires limit > 1 && j < |l|
    ensures
      var dot := if l[0] == '.' then 1 else 0;
      var got, joints, block := OneLine(Dotted(l), limit), (|l| + dot - 1) / limit, (j + dot) / limit;
      && |got| == |l| + 1 - joints > 0 && got[|got| - 1] == '\n' && 0 <= block <= j
      && ((j + dot) % limit < limit - 1 || block == joints ==> j - block < |got| && got[j - block] == l[j])
  {
    hide InPieces, OneLine, Undotted;
    var d, dot := Dotted(l), if l[0] == '.' then 1 else 0;
    var all, joints, block := InPieces(d, limit), (|d| - 1) / limit, (j + dot) / limit;
    PiecesAre(d, limit, j + dot);
    UndottedPieces(d, limit);
    BlockBefore(j + dot, limit);
    BlockBefore(|d| - 1, limit);
    UndottedBehind(all, dot);
    assert d[j + dot] == l[j];
    assert dot <= |all| - 1 && all[|all| - 1] == '\n';
  }

  lemma UndottedBehind(s: string, dot: nat)
    requires s != "" && dot == if s[0] == '.' then 1 else 0
    ensures |Undotted(s)| == |s| - dot && forall i :: dot <= i < |s| ==> Undotted(s)[i - dot] == s[i]
  {
  }

  lemma {:induction false} BlockBefore(k: nat, limit: nat)
    requires limit > 1
    ensures 0 <= k / limit <= k && (k > 0 ==> k / limit < k)
  {
    if k < limit {
      Numbers.QuotientIs(k, limit, 0, k);
    } else {
      BlockBefore(k - limit, limit);
      NextBlock(k, limit);
    }
  }

  lemma UndottedPieces(d: string, limit: nat)
    requires limit > 1
    ensures OneLine(d, limit) == Undotted(InPieces(d, limit)) && InPieces(d, limit) != ""
    ensures d != "" ==> InPieces(d, limit)[0] == d[0]
  {
  }

  /** With room for a dot and two characters no line of a body is taken for the end, and all of them arrive. */
  lemma {:induction false} AllArrive(ls: seq<string>, l: string, limit: nat)
    requires limit > 2
    ensures Received(AllDotted([]), limit) == ""
    ensures Received(AllDotted([l] + ls), limit) == OneLine(Dotted(l), limit) + Received(AllDotted(ls), limit)
  {
    hide OneLine;
    DottedFront([l] + ls);
    assert ([l] + ls)[1..] == ls;
    assert AllDotted([l] + ls)[1..] == AllDotted(ls);
  }

  /** Which lines end an article. */
  lemma EndIs(s: string)
    ensures AtListEnd(s) <==> s == "." || exists rest :: s == ".\r" + rest
  {
    if AtListEnd(s) && |s| > 1 {
      assert s == ".\r" + s[2..];
    }
  }

  predicate LineStarts(w: string, i: nat)
    requires i <= |w|
  {
    i == 0 || w[i - 1] == '\n'
  }

  /** On the wire a line of a single dot is nowhere but at the end. */
  lemma {:induction false} EndsOnce(ls: seq<string>, i: nat)
    requires (forall l :: l in ls ==> '\n' !in l) && i <= |Wire(AllDotted(ls))|
    ensures
      var w := Wire(AllDotted(ls)) + ".\r\n";
      LineStarts(w, i) && w[i..i + 3] == ".\r\n" ==> i == |w| - 3
  {
    if ls == [] {
      assert AllDotted(ls) == [];
    } else {
      var d, w := Dotted(ls[0]), Wire(AllDotted(ls[1..])) + ".\r\n";
      DottedFront(ls);
      assert AllDotted(ls)[1..] == AllDotted(ls[1..]);
      assert ls[0] in ls && '\n' !in d;
      Regroup(d + "\r\n", Wire(AllDotted(ls[1..])), ".\r\n");
      assert |Wire(AllDotted(ls))| == |d| + 2 + |Wire(AllDotted(ls[1..]))|;
      EndsOnce(ls[1..], if i >= |d| + 2 then i - |d| - 2 else 0);
      BehindFirst(d, w, i);
    }
  }

  lemma BehindFirst(d: string, w: string, i: nat)
    requires '\n' !in d && (d != "" && d[0] == '.' ==> |d| > 1 && d[1] == '.') && i + 3 <= |d| + 2 + |w|
    ensures
      var all := d + "\r\n" + w;
      LineStarts(all, i) && all[i..i + 3] == ".\r\n" ==>
        i >= |d| + 2 && LineStarts(w, i - |d| - 2) && i - |d| - 2 + 3 <= |w| && w[i - |d| - 2..i - |d| - 2 + 3] == ".\r\n"
  {
    var all := d + "\r\n" + w;
    if LineStarts(all, i) && all[i..i + 3] == ".\r\n" {
      assert all[i] == all[i..i + 3][0] && all[i + 1] == all[i..i + 3][1] && all[i + 2] == all[i..i + 3][2];
      if i >= |d| + 2 {
        assert all[i..i + 3] == w[i - |d| - 2..i - |d| - 2 + 3];
      }
    }
  }

  // ---- The connection -------------------------------------------------------------------------------------------

  datatype Got = FullLine | PartialLine | Failed

  predicate HasLine(wire: string) {
    exists i :: 0 <= i < |wire| - 1 && wire[i] == '\r' && wire[i + 1] == '\n'
  }

  /** The first line on the wire: without its end, if that is the right one. */
  function FrontLine(wire: string): string {
    var t := wire[..Find(wire, '\n')];
    if t != "" && t[|t| - 1] == '\r' then t[..|t| - 1] else t + "\n"
  }

  function BehindLine(wire: string): string {
    var n := Find(wire, '\n');
    if n < |wire| then wire[n + 1..] else ""
  }

  lemma FrontIs(l: string, rest: string)
    requires '\n' !in l
    ensures var w := l + "\r\n" + rest; HasLine(w) && FrontLine(w) == l && BehindLine(w) == rest
  {
    var w, t := l + "\r\n" + rest, l + "\r";
    assert w == t + ['\n'] + rest;
    assert '\n' !in t;
    FindAt(t, '\n', rest);
    assert w[..|t|] == t && w[|t| + 1..] == rest && t[..|t| - 1] == l;
    assert w[|l|] == '\r' && w[|l| + 1] == '\n';
  }

  /** A line that ends without a carriage return keeps its end. */
  lemma BareFrontIs(l: string, rest: string)
    requires '\n' !in l && (l != "" ==> l[|l| - 1] != '\r')
    ensures var w := l + "\n" + rest; FrontLine(w) == l + "\n" && BehindLine(w) == rest
  {
    FindAt(l, '\n', rest);
    assert (l + ['\n'] + rest)[..|l|] == l && (l + ['\n'] + rest)[|l| + 1..] == rest;
  }

  /** What follows the first `k` lines on the wire. */
  function Coming(ls: seq<string>, k: nat, tail: string): string
    requires k <= |ls|
  {
    Wire(ls[k..]) + (".\r\n" + tail)
  }

  lemma NextLine(ls: seq<string>, k: nat, tail: string)
    requires k <= |ls| && forall l :: l in ls ==> '\n' !in l
    ensures
      var w := Coming(ls, k, tail);
      && HasLine(w) && FrontLine(w) == (if k < |ls| then ls[k] else ".")
      && BehindLine(w) == if k < |ls| then Coming(ls, k + 1, tail) else tail
  {
    hide FrontLine, BehindLine, HasLine;
    if k < |ls| {
      assert ls[k..][0] == ls[k] && ls[k..][1..] == ls[k + 1..];
      Regroup(ls[k] + "\r\n", Wire(ls[k + 1..]), ".\r\n" + tail);
      FrontIs(ls[k], Coming(ls, k + 1, tail));
    } else {
      assert "" + (".\r\n" + tail) == "." + "\r\n" + tail;
      FrontIs(".", tail);
    }
  }

  /** None of the first `k` lines looks like the end. */
  ghost predicate GoesOn(ls: seq<string>, k: nat, limit: nat)
    requires limit > 0 && k <= |ls|
  {
    forall i :: 0 <= i < k ==> !AtListEnd(FirstPiece(ls[i], limit))
  }

  lemma {:induction false} ReceivedMore(ls: seq<string>, k: nat, limit: nat)
    requires limit > 0 && k < |ls| && GoesOn(ls, k + 1, limit)
    ensures Received(ls[..k + 1], limit) == Received(ls[..k], limit) + OneLine(ls[k], limit)
  {
    hide OneLine, FirstPiece;
    var l := ls[..k + 1];
    if k == 0 {
      assert l == [ls[0]] && l[1..] == [] && ls[..0] == [];
    } else {
      ReceivedMore(ls[1..], k - 1, limit);
      assert l[1..] == ls[1..][..k] && ls[..k][1..] == ls[1..][..k - 1];
      Regroup(OneLine(ls[0], limit), Received(ls[1..][..k - 1], limit), OneLine(ls[k], limit));
    }
  }

  lemma {:induction false} ReceivedAll(ls: seq<string>, k: nat, limit: nat)
    requires limit > 0 && k <= |ls| && GoesOn(ls, k, limit) && (k < |ls| ==> AtListEnd(FirstPiece(ls[k], limit)))
    ensures Received(ls, limit) == Received(ls[..k], limit)
  {
    hide OneLine, FirstPiece;
    if k > 0 {
      ReceivedAll(ls[1..], k - 1, limit);
      assert ls[..k][1..] == ls[1..][..k - 1];
    }
  }

  class Session {
    var wire: string     // what the server has sent and nobody has read
    var gotten: string   // the rest of a line that came in pieces

    constructor (wire: string)
      ensures this.wire == wire && gotten == ""
    {
      this.wire, gotten := wire, "";
    }

    /** A line from the server, without its end, or a piece of it one short of `limit`. */
    method Gets(limit: nat) returns (result: Got, line: string)
      requires limit > 0
      modifies this
      ensures old(gotten) == "" && !HasLine(old(wire)) ==> result == Failed && wire == old(wire) && gotten == ""
      ensures
        var all := if old(gotten) != "" then old(gotten) else FrontLine(old(wire));
        old(gotten) != "" || HasLine(old(wire)) ==>
          && wire == (if old(gotten) != "" then old(wire) else BehindLine(old(wire)))
          && line == FirstPiece(all, limit)
          && (if |all| <= limit then result == FullLine && gotten == "" else result == PartialLine && gotten == all[limit..])
    {
      if gotten == "" {
        if !HasLine(wire) {
          return Failed, "";
        }
        gotten := FrontLine(wire);
        wire := BehindLine(wire);
      }
      if |gotten| <= limit {
        line := gotten;
        gotten := "";
        result := FullLine;
      } else {
        line := gotten[..limit - 1];
        gotten := gotten[limit..];
        result := PartialLine;
      }
    }

    /** Copies lines to the article file until that is `upTo` long or the list has ended: no line
        more than it takes. */
    method CopyBody(file0: string, limit: nat, upTo: int, ghost ls: seq<string>, ghost tail: string)
      returns (file: string, more: bool, ghost k: nat)
      requires limit > 0 && gotten == "" && wire == Coming(ls, 0, tail) && forall l :: l in ls ==> '\n' !in l
      modifies this
      ensures !more ==> file == file0 + Received(ls, limit) && |file| < upTo
      ensures !more && Fits(ls, limit) && (forall l :: l in ls ==> !AtListEnd(l)) ==> wire == tail && gotten == ""
      ensures more ==> |file| >= upTo && k <= |ls| && file == file0 + Received(ls[..k], limit)
      ensures more ==> forall j :: 0 <= j < k ==> |file0 + Received(ls[..j], limit)| < upTo
      ensures more ==> Copying(ls, tail, limit, k, true, file0, file, wire, gotten)
    {
      hide Coming, FirstPiece, FrontLine, BehindLine, HasLine, Copying, Received, Fits;
      file, k := file0, 0;
      var hadNl := true;
      CopyStart(ls, tail, limit, file0);
      while upTo > |file| || !hadNl
        invariant Copying(ls, tail, limit, k, hadNl, file0, file, wire, gotten)
        invariant k <= |ls| && forall j :: 0 <= j < k ==> |file0 + Received(ls[..j], limit)| < upTo
        decreases |wire| + |gotten|
      {
        ghost var wire0, gotten0 := wire, gotten;
        CopyReady(ls, tail, limit, k, hadNl, file0, file, wire, gotten);
        var result, line := Gets(limit);
        if result == Failed {
          line := ".";
        }
        if hadNl {
          if AtListEnd(line) {
            CopyEnd(ls, tail, k, limit, file0, file, wire0);
            return file, false, k;
          }
          LineTaken(ls, tail, limit, k, file0, file, wire0);
          assert |file0 + Received(ls[..k], limit)| < upTo;
          line := Undotted(line);
          k := k + 1;
        } else {
          PieceTaken(ls, tail, limit, k, file0, file, wire0, gotten0);
        }
        if result == FullLine {
          line := line + "\n";
        }
        file := file + line;
        hadNl := result == FullLine;
      }
      more := true;
      CopyReady(ls, tail, limit, k, true, file0, file, wire, gotten);
    }
  }

  /** Where the copying stands: between lines `k - 1` and `k`, or in the middle of the former. */
  ghost predicate Copying(ls: seq<string>, tail: string, limit: nat, k: nat, hadNl: bool, file0: string, file: string,
                          wire: string, gotten: string)
    requires limit > 0
  {
    && k <= |ls| && wire == Coming(ls, k, tail) && GoesOn(ls, k, limit) && (forall l :: l in ls ==> '\n' !in l)
    && (if hadNl then gotten == "" && file == file0 + Received(ls[..k], limit)
        else gotten != "" && file + InPieces(gotten, limit) == file0 + Received(ls[..k], limit))
  }

  lemma CopyStart(ls: seq<string>, tail: string, limit: nat, file0: string)
    requires limit > 0 && forall l :: l in ls ==> '\n' !in l
    ensures Copying(ls, tail, limit, 0, true, file0, file0, Coming(ls, 0, tail), "")
  {
    assert ls[..0] == [] && file0 + "" == file0;
  }

  lemma CopyReady(ls: seq<string>, tail: string, limit: nat, k: nat, hadNl: bool, file0: string, file: string,
                  wire: string, gotten: string)
    requires limit > 0 && Copying(ls, tail, limit, k, hadNl, file0, file, wire, gotten)
    ensures k <= |ls| && (hadNl ==> file == file0 + Received(ls[..k], limit))
    ensures (hadNl <==> gotten == "") && (hadNl ==> HasLine(wire) && |BehindLine(wire)| + |FrontLine(wire)| < |wire|)
  {
    hide HasLine, BehindLine, FrontLine, Coming, Received, GoesOn, InPieces;
    NextLine(ls, k, tail);
    LineShrinks(ls, k, tail);
  }

  lemma LineShrinks(ls: seq<string>, k: nat, tail: string)
    requires k <= |ls| && forall l :: l in ls ==> '\n' !in l
    ensures var w := Coming(ls, k, tail); |BehindLine(w)| + |FrontLine(w)| < |w|
  {
    hide HasLine, BehindLine, FrontLine;
    NextLine(ls, k, tail);
    if k < |ls| {
      assert ls[k..][0] == ls[k] && ls[k..][1..] == ls[k + 1..];
    }
  }

  /** The line ends the list. */
  lemma CopyEnd(ls: seq<string>, tail: string, k: nat, limit: nat, file0: string, file: string, wire: string)
    requires limit > 0 && Copying(ls, tail, limit, k, true, file0, file, wire, "")
    requires AtListEnd(FirstPiece(FrontLine(wire), limit))
    ensures file == file0 + Received(ls, limit)
    ensures Fits(ls, limit) && (forall l :: l in ls ==> !AtListEnd(l)) ==> BehindLine(wire) == tail && |FrontLine(wire)| <= limit
  {
    hide HasLine, BehindLine, FrontLine, Coming, Received;
    NextLine(ls, k, tail);
    ReceivedAll(ls, k, limit);
    if k < |ls| {
      assert ls[k] in ls;
    }
  }

  /** A new line, or the piece it starts with. */
  lemma LineTaken(ls: seq<string>, tail: string, limit: nat, k: nat, file0: string, file: string, wire: string)
    requires limit > 0 && Copying(ls, tail, limit, k, true, file0, file, wire, "")
    requires !AtListEnd(FirstPiece(FrontLine(wire), limit))
    ensures k < |ls|
    ensures
      var l := FrontLine(wire);
      var line := Undotted(FirstPiece(l, limit));
      if |l| <= limit then Copying(ls, tail, limit, k + 1, true, file0, file + (line + "\n"), BehindLine(wire), "")
      else Copying(ls, tail, limit, k + 1, false, file0, file + line, BehindLine(wire), l[limit..])
  {
    hide HasLine, BehindLine, FrontLine, Coming, Received, InPieces;
    NextLine(ls, k, tail);
    var l := FrontLine(wire);
    ReceivedMore(ls, k, limit);
    Regroup(file0, Received(ls[..k], limit), OneLine(ls[k], limit));
    if |l| > limit {
      Regroup(file, Undotted(FirstPiece(l, limit)), InPieces(l[limit..], limit));
    }
  }

  /** One more piece of a line. */
  lemma PieceTaken(ls: seq<string>, tail: string, limit: nat, k: nat, file0: string, file: string, wire: string, m: string)
    requires limit > 0 && Copying(ls, tail, limit, k, false, file0, file, wire, m)
    ensures
      var line := FirstPiece(m, limit);
      if |m| <= limit then Copying(ls, tail, limit, k, true, file0, file + (line + "\n"), wire, "")
      else Copying(ls, tail, limit, k, false, file0, file + line, wire, m[limit..])
  {
    hide Coming, Received;
    if |m| > limit {
      Regroup(file, m[..limit - 1], InPieces(m[limit..], limit));
    }
  }

  lemma DottedLines(ls: seq<string>)
    requires forall l :: l in ls ==> '\n' !in l
    ensures forall l :: l in AllDotted(ls) ==> '\n' !in l && !AtListEnd(l)
  {
    forall l | l in AllDotted(ls) ensures '\n' !in l && !AtListEnd(l) {
      var i :| 0 <= i < |AllDotted(ls)| && AllDotted(ls)[i] == l;
      assert ls[i] in ls;
      if ls[i] != "" && ls[i][0] == '.' {
        assert l == "." + ls[i];
      }
    }
  }

  lemma {:induction false} NoMoreThanSent(ls: seq<string>, k: nat, limit: nat)
    requires limit > 0 && k <= |ls|
    ensures |Received(ls[..k], limit)| <= |Wire(ls)|
  {
    hide FirstPiece;
    if k > 0 {
      NoMoreThanSent(ls[1..], k - 1, limit);
      assert ls[..k][1..] == ls[1..][..k - 1];
      if |ls[0]| > limit {
        PiecesShorter(ls[0][limit..], limit);
      }
    }
  }

  lemma NotSoMuch(ls: seq<string>, limit: nat, k: nat, file: string, wire: string, gotten: string)
    requires limit > 0 && Copying(ls, "", limit, k, true, "", file, wire, gotten)
    ensures |file| <= |Wire(ls)|
  {
    hide Received, Wire, Coming;
    NoMoreThanSent(ls, k, limit);
  }

  /** Sent by one side and copied by the other, the server in between passing the lines on. */
  method Relay(body: string, limit: nat) returns (file: string)
    requires limit > 1
    ensures file == Received(AllDotted(BodyLines(body)), limit)
    ensures file == Ended(body) <==> Fits(AllDotted(BodyLines(body)), limit)
  {
    hide Received, Ended, BodyLines, AllDotted, Fits;
    ghost var ls := AllDotted(BodyLines(body));
    var wire := SendBody(body);
    DottedLines(BodyLines(body));
    ArrivesIff(body, limit);
    var session := new Session(wire);
    assert ls[0..] == ls && ".\r\n" + "" == ".\r\n";
    var more;
    ghost var k;
    file, more, k := session.CopyBody("", limit, |wire| + 1, ls, "");
    if more {
      NotSoMuch(ls, limit, k, file, session.wire, session.gotten);
    }
    assert "" + Received(ls, limit) == Received(ls, limit);
  }
}
