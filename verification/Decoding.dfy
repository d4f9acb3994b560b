/** The transfer encodings base64 and quoted-printable (sections 6.8 and 6.7 of RFC 2045) as
    libtrn/mime.cpp decodes them (lines 1174-1220 and 1316-1359). */
module Decoding {
  import opened Strings

  type Byte = b: int | 0 <= b < 256 witness 0
  type Sextet = v: int | 0 <= v < 64 witness 0

  const Nul: char := 0 as char

  // ---- Base64 -------------------------------------------------------------------------------------------

  const UPPER := "ABCDEFGHIJKLMNOPQRSTUVWXYZ"
  const LOWER := "abcdefghijklmnopqrstuvwxyz"
  const DIGITS := "0123456789"

  /** The letters of base64, in order (table 1 of RFC 2045). */
  const ALPHABET := UPPER + LOWER + DIGITS + "+/"

  /** The source's table: the sextet of a letter, and 255 for every other byte. */
  function IndexOf(c: char): (v: int)
    ensures 0 <= v < 64 || v == 255
  {
    if 'A' <= c <= 'Z' then c as int - 'A' as int
    else if 'a' <= c <= 'z' then c as int - 'a' as int + 26
    else if '0' <= c <= '9' then c as int - '0' as int + 52
    else if c == '+' then 62 else if c == '/' then 63 else 255
  }

  lemma Consecutive()
    ensures |UPPER| == 26 && forall k :: 0 <= k < 26 ==> UPPER[k] as int == 'A' as int + k
    ensures |LOWER| == 26 && forall k :: 0 <= k < 26 ==> LOWER[k] as int == 'a' as int + k
    ensures |DIGITS| == 10 && forall k :: 0 <= k < 10 ==> DIGITS[k] as int == '0' as int + k
  {
  }

  lemma LetterAt(v: nat)
    requires v < 64
    ensures |ALPHABET| == 64 && IndexOf(ALPHABET[v]) == v
  {
    hide UPPER, LOWER, DIGITS;
    Consecutive();
    assert ALPHABET[v] == if v < 26 then UPPER[v] else if v < 52 then LOWER[v - 26] else if v < 62 then DIGITS[v - 52] else "+/"[v - 62];
  }

  lemma IndexIs(c: char)
    requires IndexOf(c) != 255
    ensures IndexOf(c) < |ALPHABET| && ALPHABET[IndexOf(c)] == c
  {
    hide ALPHABET, UPPER, LOWER, DIGITS;
    var v := IndexOf(c);
    LetterAt(v);
  }

  /** The table numbers the alphabet, and holds nothing else. */
  lemma LetterIndex(c: char)
    ensures |ALPHABET| == 64 && (IndexOf(c) == 255 <==> c !in ALPHABET)
    ensures IndexOf(c) != 255 ==> ALPHABET[IndexOf(c)] == c
    ensures forall v :: 0 <= v < 64 && ALPHABET[v] == c ==> IndexOf(c) == v
  {
    hide ALPHABET, IndexOf;
    LetterAt(0);
    forall v | 0 <= v < 64 ensures IndexOf(ALPHABET[v]) == v {
      LetterAt(v);
    }
    if IndexOf(c) != 255 {
      IndexIs(c);
    }
  }

  /** Three bytes make four sextets; what is left over makes two or three. */
  function Encoded(bs: seq<Byte>): seq<Sextet> {
    if bs == [] then []
    else if |bs| == 1 then [bs[0] / 4, bs[0] % 4 * 16]
    else if |bs| == 2 then [bs[0] / 4, bs[0] % 4 * 16 + bs[1] / 16, bs[1] % 16 * 4]
    else [bs[0] / 4, bs[0] % 4 * 16 + bs[1] / 16, bs[1] % 16 * 4 + bs[2] / 64, bs[2] % 64] + Encoded(bs[3..])
  }

  function Byte1(v: Sextet, w: Sextet): Byte { v * 4 + w / 16 }
  function Byte2(v: Sextet, w: Sextet): Byte { v % 16 * 16 + w / 4 }
  function Byte3(v: Sextet, w: Sextet): Byte { v % 4 * 64 + w }

  function Decoded(vs: seq<Sextet>): seq<Byte> {
    if |vs| < 2 then []
    else if |vs| == 2 then [Byte1(vs[0], vs[1])]
    else if |vs| == 3 then [Byte1(vs[0], vs[1]), Byte2(vs[1], vs[2])]
    else [Byte1(vs[0], vs[1]), Byte2(vs[1], vs[2]), Byte3(vs[2], vs[3])] + Decoded(vs[4..])
  }

  lemma {:induction false} DecodedEncoded(bs: seq<Byte>)
    ensures Decoded(Encoded(bs)) == bs
  {
    hide Byte1, Byte2, Byte3;
    if |bs| > 2 {
      DecodedEncoded(bs[3..]);
      Triple(bs[0], bs[1], bs[2]);
      DecodedFour(Encoded(bs), Encoded(bs[3..]));
      assert bs == [bs[0], bs[1], bs[2]] + bs[3..];
    } else if |bs| == 2 {
      Triple(bs[0], bs[1], 0);
      assert bs == [bs[0], bs[1]];
    } else if |bs| == 1 {
      Triple(bs[0], 0, 0);
      assert bs == [bs[0]];
    }
  }

  lemma DecodedFour(vs: seq<Sextet>, rest: seq<Sextet>)
    requires |vs| >= 4 && vs[4..] == rest
    ensures Decoded(vs) == [Byte1(vs[0], vs[1]), Byte2(vs[1], vs[2]), Byte3(vs[2], vs[3])] + Decoded(rest)
  {
    hide Byte1, Byte2, Byte3;
  }

  lemma Triple(a: Byte, b: Byte, c: Byte)
    ensures Byte1(a / 4, a % 4 * 16 + b / 16) == a
    ensures Byte2(a % 4 * 16 + b / 16, b % 16 * 4 + c / 64) == b
    ensures Byte3(b % 16 * 4 + c / 64, c % 64) == c
  {
  }

  /** What counts of a text: its letters up to the first '=' or NUL. */
  function Sextets(t: string): seq<Sextet> {
    if t == "" || t[0] == '=' || t[0] == Nul then []
    else if IndexOf(t[0]) == 255 then Sextets(t[1..])
    else [IndexOf(t[0])] + Sextets(t[1..])
  }

  predicate AtEnd(t: string, pos: nat)
    requires pos <= |t|
  {
    pos == |t| || t[pos] == Nul || t[pos] == '='
  }

  /** Skips what is no letter: the next sextet, if the text has not ended. */
  method NextSextet(t: string, pos0: nat) returns (pos: nat, v: int)
    requires pos0 <= |t|
    ensures pos0 <= pos <= |t|
    ensures
      var vs := Sextets(t[pos0..]);
      if v == 255 then vs == [] && AtEnd(t, pos)
      else 0 <= v < 64 && vs == [v] + Sextets(t[pos..]) && pos > pos0
  {
    pos := pos0;
    v := 255;
    while v == 255
      invariant pos0 <= pos <= |t| && (v == 255 || 0 <= v < 64)
      invariant if v == 255 then Sextets(t[pos0..]) == Sextets(t[pos..])
                else Sextets(t[pos0..]) == [v] + Sextets(t[pos..]) && pos > pos0
      decreases |t| - pos
    {
      if AtEnd(t, pos) {
        return;
      }
      assert t[pos..][1..] == t[pos + 1..];
      v := IndexOf(t[pos]);
      pos := pos + 1;
    }
  }

  lemma FewDecoded(v1: Sextet, v2: Sextet, v3: Sextet)
    ensures Decoded([]) == [] && Decoded([v1]) == [] && Decoded([v1, v2]) == [Byte1(v1, v2)]
    ensures Decoded([v1, v2, v3]) == [Byte1(v1, v2), Byte2(v2, v3)]
  {
  }

  lemma FourDecoded(v1: Sextet, v2: Sextet, v3: Sextet, v4: Sextet, rest: seq<Sextet>)
    ensures Decoded([v1] + ([v2] + ([v3] + ([v4] + rest)))) == [Byte1(v1, v2), Byte2(v2, v3), Byte3(v3, v4)] + Decoded(rest)
  {
    var vs := [v1] + ([v2] + ([v3] + ([v4] + rest)));
    assert vs[4..] == rest;
  }

  method B64Decode(t: string) returns (result: seq<Byte>)
    ensures result == Decoded(Sextets(t))
  {
    hide Sextets, Decoded, Byte1, Byte2, Byte3;
    result := [];
    var pos := 0;
    assert t[0..] == t;
    while !AtEnd(t, pos)
      invariant pos <= |t| && Decoded(Sextets(t)) == result + Decoded(Sextets(t[pos..]))
      decreases |t| - pos
    {
      var group, over;
      pos, group, over := FourSextets(t, pos);
      Regroup(result, group, if over then [] else Decoded(Sextets(t[pos..])));
      result := result + group;
      if over {
        return;
      }
    }
    NoneLeft(t, pos);
  }

  lemma NoneLeft(t: string, pos: nat)
    requires pos <= |t| && AtEnd(t, pos)
    ensures Decoded(Sextets(t[pos..])) == []
  {
  }

  /** The bytes of the next four sextets, or of what is left when the text ends before. */
  method FourSextets(t: string, pos0: nat) returns (pos: nat, group: seq<Byte>, over: bool)
    requires pos0 <= |t|
    ensures pos0 <= pos <= |t| && (!over ==> pos > pos0)
    ensures Decoded(Sextets(t[pos0..])) == group + if over then [] else Decoded(Sextets(t[pos..]))
  {
    hide Sextets, Decoded, AtEnd, Byte1, Byte2, Byte3;
    var v1, v2, v3, v4;
    group, over := [], true;
    pos, v1 := NextSextet(t, pos0);
    if v1 == 255 {
      FewDecoded(0, 0, 0);
      return;
    }
    pos, v2 := NextSextet(t, pos);
    if v2 == 255 {
      FewDecoded(v1, 0, 0);
      assert [v1] + [] == [v1];
      return;
    }
    group := [Byte1(v1, v2)];
    pos, v3 := NextSextet(t, pos);
    if v3 == 255 {
      FewDecoded(v1, v2, 0);
      assert [v1] + ([v2] + []) == [v1, v2];
      return;
    }
    group := [Byte1(v1, v2), Byte2(v2, v3)];
    pos, v4 := NextSextet(t, pos);
    if v4 == 255 {
      FewDecoded(v1, v2, v3);
      assert [v1] + ([v2] + ([v3] + [])) == [v1, v2, v3];
      return;
    }
    group, over := [Byte1(v1, v2), Byte2(v2, v3), Byte3(v3, v4)], false;
    FourDecoded(v1, v2, v3, v4, Sextets(t[pos..]));
  }

  // ---- What base64 means ------------------------------------------------------------------------------------

  function Letters(vs: seq<Sextet>): string {
    seq(|vs|, i requires 0 <= i < |vs| => ALPHABET[vs[i]])
  }

  /** The text without what is neither a letter nor an end. */
  function Kept(t: string): string {
    if t == "" then "" else
      (if t[0] in ALPHABET || t[0] == '=' || t[0] == Nul then [t[0]] else "") + Kept(t[1..])
  }

  predicate IsEnd(end: string) {
    end != "" ==> end[0] == '=' || end[0] == Nul
  }

  lemma NoLetterEnds()
    ensures '=' !in ALPHABET && Nul !in ALPHABET
  {
    hide ALPHABET;
    LetterIndex('=');
    LetterIndex(Nul);
  }

  /** Whatever is strewn in between, and whatever follows the padding. */
  lemma {:induction false} StrewnSextets(t: string, vs: seq<Sextet>, end: string)
    requires Kept(t) == Letters(vs) + end && IsEnd(end)
    ensures Sextets(t) == vs
  {
    hide IndexOf, ALPHABET;
    if t != "" {
      LetterIndex(t[0]);
      NoLetterEnds();
      if t[0] !in ALPHABET && t[0] != '=' && t[0] != Nul {
        StrewnSextets(t[1..], vs, end);
      } else {
        assert Kept(t)[0] == t[0] && Kept(t)[1..] == Kept(t[1..]);
        if vs == [] {
          assert end[0] == t[0];
        } else {
          assert Letters(vs) == [ALPHABET[vs[0]]] + Letters(vs[1..]);
          assert Kept(t[1..]) == Letters(vs[1..]) + end;
          StrewnSextets(t[1..], vs[1..], end);
        }
      }
    }
  }

  /** Every text is letters up to an end, with other bytes strewn in. */
  lemma {:induction false} LettersAndEnd(t: string) returns (vs: seq<Sextet>, end: string)
    ensures Kept(t) == Letters(vs) + end && IsEnd(end)
  {
    hide IndexOf, ALPHABET;
    vs, end := [], Kept(t);
    if t != "" {
      LetterIndex(t[0]);
      if t[0] !in ALPHABET && t[0] != '=' && t[0] != Nul {
        vs, end := LettersAndEnd(t[1..]);
      } else if t[0] in ALPHABET {
        var v := IndexOf(t[0]);
        vs, end := LettersAndEnd(t[1..]);
        assert Letters([v] + vs) == [ALPHABET[v]] + Letters(vs);
        vs := [v] + vs;
      }
    }
  }

  /** Decoding undoes encoding, with or without padding, with other bytes anywhere in between. */
  lemma Base64RoundTrip(bs: seq<Byte>, t: string, end: string)
    requires Kept(t) == Letters(Encoded(bs)) + end && IsEnd(end)
    ensures Decoded(Sextets(t)) == bs
  {
    StrewnSextets(t, Encoded(bs), end);
    DecodedEncoded(bs);
  }

  /** Digits of the given base as one number, behind those of `n`. */
  function Number(base: int, n: int, ds: seq<int>): int
    decreases |ds|
  {
    if ds == [] then n else Number(base, n * base + ds[0], ds[1..])
  }

  /** Of any letters at all, six bits each, decoding makes bytes of eight bits, as many as are
      full: the same number but for the bits left over. */
  lemma {:induction false} SameNumber(vs: seq<Sextet>, n: nat)
    ensures |Decoded(vs)| == |vs| * 6 / 8
    ensures Number(256, n, Decoded(vs)) == Number(64, n, vs) / [1, 64, 16, 4][|vs| % 4]
  {
    hide Byte1, Byte2, Byte3, Number, Decoded;
    if |vs| >= 4 {
      DecodedFour(vs, vs[4..]);
      SameNumber(vs[4..], (((n * 64 + vs[0]) * 64 + vs[1]) * 64 + vs[2]) * 64 + vs[3]);
      Joined(n, vs[0], vs[1], vs[2], vs[3]);
      LettersFirst(n, vs);
      BytesFirst(n, Byte1(vs[0], vs[1]), Byte2(vs[1], vs[2]), Byte3(vs[2], vs[3]), Decoded(vs[4..]));
    } else {
      FewJoined(n, vs);
    }
  }

  lemma Joined(n: nat, a: Sextet, b: Sextet, c: Sextet, d: Sextet)
    ensures ((n * 256 + Byte1(a, b)) * 256 + Byte2(b, c)) * 256 + Byte3(c, d)
            == (((n * 64 + a) * 64 + b) * 64 + c) * 64 + d
    ensures (n * 256 + Byte1(a, b)) * 256 + Byte2(b, c) == (((n * 64 + a) * 64 + b) * 64 + c) / 4
    ensures n * 256 + Byte1(a, b) == ((n * 64 + a) * 64 + b) / 16
  {
  }

  lemma NumberFirst(base: int, n: int, d: int, rest: seq<int>)
    ensures Number(base, n, [d] + rest) == Number(base, n * base + d, rest)
  {
    assert ([d] + rest)[1..] == rest;
  }

  lemma LettersFirst(n: nat, vs: seq<Sextet>)
    requires |vs| >= 4
    ensures Number(64, n, vs) == Number(64, (((n * 64 + vs[0]) * 64 + vs[1]) * 64 + vs[2]) * 64 + vs[3], vs[4..])
  {
    hide Number;
    var n1 := n * 64 + vs[0];
    var n2 := n1 * 64 + vs[1];
    assert vs == [vs[0]] + vs[1..] && vs[1..] == [vs[1]] + vs[2..];
    assert vs[2..] == [vs[2]] + vs[3..] && vs[3..] == [vs[3]] + vs[4..];
    NumberFirst(64, n, vs[0], vs[1..]);
    NumberFirst(64, n1, vs[1], vs[2..]);
    NumberFirst(64, n2, vs[2], vs[3..]);
    NumberFirst(64, n2 * 64 + vs[2], vs[3], vs[4..]);
  }

  lemma BytesFirst(n: nat, a: Byte, b: Byte, c: Byte, rest: seq<Byte>)
    ensures Number(256, n, [a, b, c] + rest) == Number(256, ((n * 256 + a) * 256 + b) * 256 + c, rest)
  {
    hide Number;
    assert [a, b, c] + rest == [a] + ([b] + ([c] + rest));
    NumberFirst(256, n, a, [b] + ([c] + rest));
    NumberFirst(256, n * 256 + a, b, [c] + rest);
    NumberFirst(256, (n * 256 + a) * 256 + b, c, rest);
  }

  lemma FewDigits(base: int, n: int, a: int, b: int, c: int)
    ensures Number(base, n, []) == n && Number(base, n, [a]) == n * base + a
    ensures Number(base, n, [a, b]) == (n * base + a) * base + b
    ensures Number(base, n, [a, b, c]) == ((n * base + a) * base + b) * base + c
  {
    assert [a, b, c] == [a] + [b, c] && [b, c] == [b] + [c] && [c] == [c] + [] && [a, b] == [a] + [b] && [a] == [a] + [] && [b] == [b] + [];
    NumberFirst(base, n, a, [b, c]);
    NumberFirst(base, n * base + a, b, [c]);
    NumberFirst(base, (n * base + a) * base + b, c, []);
    NumberFirst(base, n, a, [b]);
    NumberFirst(base, n * base + a, b, []);
    NumberFirst(base, n, a, []);
  }

  lemma FewJoined(n: nat, vs: seq<Sextet>)
    requires |vs| < 4
    ensures |Decoded(vs)| == |vs| * 6 / 8
    ensures Number(256, n, Decoded(vs)) == Number(64, n, vs) / [1, 64, 16, 4][|vs|]
  {
    hide Byte1, Byte2, Byte3, Number;
    FewDigits(64, n, if |vs| > 0 then vs[0] else 0, if |vs| > 1 then vs[1] else 0, if |vs| > 2 then vs[2] else 0);
    if |vs| > 1 {
      var v3: Sextet := if |vs| > 2 then vs[2] else 0;
      Joined(n, vs[0], vs[1], v3, 0);
      FewDigits(256, n, Byte1(vs[0], vs[1]), Byte2(vs[1], v3), 0);
    } else {
      FewDigits(256, n, 0, 0, 0);
    }
    assert |vs| == 3 ==> vs == [vs[0], vs[1], vs[2]];
    assert |vs| == 2 ==> vs == [vs[0], vs[1]];
    assert |vs| == 1 ==> vs == [vs[0]];
  }

  // ---- Quoted-printable -------------------------------------------------------------------------------------

  /** The source's table: the value of a hexadecimal digit, and 255 for every other byte. */
  function HexOf(c: char): (v: int)
    ensures 0 <= v < 16 || v == 255
  {
    if '0' <= c <= '9' then c as int - '0' as int
    else if 'A' <= c <= 'F' then c as int - 'A' as int + 10
    else if 'a' <= c <= 'f' then c as int - 'a' as int + 10 else 255
  }

  predicate CodedAt(t: string)
    requires t != ""
  {
    |t| > 2 && HexOf(t[1]) != 255 && HexOf(t[2]) != 255
  }

  function CodedByte(t: string): char
    requires t != "" && CodedAt(t)
  {
    (HexOf(t[1]) * 16 + HexOf(t[2])) as char
  }

  /** What a text stands for: a coded byte unless it is a carriage return, nothing for a soft line
      break, and every other byte itself, with '_' for a blank in a header. */
  function Unquoted(t: string, inHeader: bool): string {
    if t == "" || t[0] == Nul then ""
    else if t[0] == '=' && |t| > 1 && t[1] == '\n' then Unquoted(t[2..], inHeader)
    else if t[0] == '=' && CodedAt(t) then
      (if CodedByte(t) == '\r' then "" else [CodedByte(t)]) + Unquoted(t[3..], inHeader)
    else [if t[0] == '_' && inHeader then ' ' else t[0]] + Unquoted(t[1..], inHeader)
  }

  lemma QpStep(t: string, pos: nat, inHeader: bool)
    requires pos < |t| && t[pos] != Nul
    ensures
      var rest := t[pos..];
      if rest[0] == '=' && |rest| > 1 && rest[1] == '\n' then Unquoted(rest, inHeader) == Unquoted(t[pos + 2..], inHeader)
      else if rest[0] == '=' && CodedAt(rest) then
        Unquoted(rest, inHeader)
        == (if CodedByte(rest) == '\r' then "" else [CodedByte(rest)]) + Unquoted(t[pos + 3..], inHeader)
      else Unquoted(rest, inHeader)
           == [if rest[0] == '_' && inHeader then ' ' else rest[0]] + Unquoted(t[pos + 1..], inHeader)
  {
    var rest := t[pos..];
    if rest[0] == '=' && |rest| > 1 && rest[1] == '\n' {
      assert rest[2..] == t[pos + 2..];
    } else if rest[0] == '=' && CodedAt(rest) {
      assert rest[3..] == t[pos + 3..];
    } else {
      assert rest[1..] == t[pos + 1..];
    }
  }

  method QpDecode(t: string, inHeader: bool) returns (result: string)
    ensures result == Unquoted(t, inHeader)
  {
    hide Unquoted, CodedByte;
    result := "";
    var pos := 0;
    assert t[0..] == t;
    while pos < |t| && t[pos] != Nul
      invariant pos <= |t| && result + Unquoted(t[pos..], inHeader) == Unquoted(t, inHeader)
      decreases |t| - pos
    {
      var rest := t[pos..];
      QpStep(t, pos, inHeader);
      if rest[0] == '=' && |rest| > 1 && rest[1] == '\n' {
        pos := pos + 2;
      } else if rest[0] == '=' && CodedAt(rest) {
        var c := CodedByte(rest);
        var out := if c == '\r' then "" else [c];
        Regroup(result, out, Unquoted(t[pos + 3..], inHeader));
        result := result + out;
        pos := pos + 3;
      } else {
        var out := [if rest[0] == '_' && inHeader then ' ' else rest[0]];
        Regroup(result, out, Unquoted(t[pos + 1..], inHeader));
        result := result + out;
        pos := pos + 1;
      }
    }
    QpOver(t, pos, inHeader);
  }

  lemma QpOver(t: string, pos: nat, inHeader: bool)
    requires pos == |t| || (pos < |t| && t[pos] == Nul)
    ensures Unquoted(t[pos..], inHeader) == ""
  {
  }

  // ---- What quoted-printable means --------------------------------------------------------------------------

  const HIGH_HEX := "0123456789ABCDEF"
  const LOW_HEX := "0123456789abcdef"

  lemma HexDigits()
    ensures forall k :: 0 <= k < 10 ==> HIGH_HEX[k] as int == LOW_HEX[k] as int == '0' as int + k
    ensures forall k :: 10 <= k < 16 ==> HIGH_HEX[k] as int == 'A' as int + (k - 10) && LOW_HEX[k] as int == 'a' as int + (k - 10)
  {
  }

  /** A digit's value is its place in either row of digits, and nothing else is a digit. */
  lemma DigitValue(c: char)
    ensures HexOf(c) == 255 <==> c !in HIGH_HEX && c !in LOW_HEX
    ensures forall v :: 0 <= v < 16 && (HIGH_HEX[v] == c || LOW_HEX[v] == c) ==> HexOf(c) == v
  {
    HexDigits();
    if HexOf(c) != 255 {
      assert HIGH_HEX[HexOf(c)] == c || LOW_HEX[HexOf(c)] == c;
    }
  }

  /** What a text is made of: a byte as it is, a byte in two digits, each in either case, a soft
      line break, or an equals sign that starts neither. */
  datatype Token = Plain(c: char) | Coded(b: Byte, low1: bool, low2: bool) | Soft | Equals

  function HexDigit(v: nat, low: bool): char
    requires v < 16
  {
    if low then LOW_HEX[v] else HIGH_HEX[v]
  }

  function TokenText(k: Token): string {
    match k
    case Plain(c) => [c]
    case Coded(b, low1, low2) => ['=', HexDigit(b / 16, low1), HexDigit(b % 16, low2)]
    case Soft => ['=', '\n']
    case Equals => "="
  }

  function Written(ks: seq<Token>): string {
    if ks == [] then "" else TokenText(ks[0]) + Written(ks[1..])
  }

  predicate IsHex(c: char) {
    c in HIGH_HEX || c in LOW_HEX
  }

  /** A token that cannot be taken for another: an equals sign has no line break and no two digits
      behind it. */
  predicate ProperBefore(k: Token, rest: string) {
    match k
    case Plain(c) => c != '=' && c != Nul
    case Equals => (rest == "" || rest[0] != '\n') && (|rest| < 2 || !IsHex(rest[0]) || !IsHex(rest[1]))
    case _ => true
  }

  predicate Proper(ks: seq<Token>) {
    ks == [] || (ProperBefore(ks[0], Written(ks[1..])) && Proper(ks[1..]))
  }

  /** The bytes meant, without coded carriage returns; in a header '_' is a blank. */
  function TokenMeans(k: Token, inHeader: bool): string {
    match k
    case Plain(c) => [if c == '_' && inHeader then ' ' else c]
    case Coded(b, _, _) => if b == 13 then "" else [b as char]
    case Soft => ""
    case Equals => "="
  }

  function Meant(ks: seq<Token>, inHeader: bool): string {
    if ks == [] then "" else TokenMeans(ks[0], inHeader) + Meant(ks[1..], inHeader)
  }

  lemma NoDigits()
    ensures !IsHex(Nul) && !IsHex('\n') && HexOf('\n') == 255
  {
    hide HIGH_HEX, LOW_HEX;
    DigitValue(Nul);
    DigitValue('\n');
  }

  /** A byte in two digits, read. */
  lemma CodedRead(b: Byte, low1: bool, low2: bool, rest: string, inHeader: bool)
    ensures
      var t := ['=', HexDigit(b / 16, low1), HexDigit(b % 16, low2)] + rest;
      Unquoted(t, inHeader) == (if b == 13 then "" else [b as char]) + Unquoted(rest, inHeader)
  {
    hide HexOf, HIGH_HEX, LOW_HEX;
    var h, l := HexDigit(b / 16, low1), HexDigit(b % 16, low2);
    var t := ['=', h, l] + rest;
    DigitValue(h);
    DigitValue(l);
    NoDigits();
    assert HexOf(h) == b / 16 && HexOf(l) == b % 16 && h != '\n';
    assert t[3..] == rest && CodedAt(t) && CodedByte(t) == b as char;
  }

  /** An equals sign that starts nothing. */
  lemma EqualsRead(rest: string, inHeader: bool)
    requires (rest == "" || rest[0] != '\n') && (|rest| < 2 || !IsHex(rest[0]) || !IsHex(rest[1]))
    ensures Unquoted("=" + rest, inHeader) == "=" + Unquoted(rest, inHeader)
  {
    hide HexOf, HIGH_HEX, LOW_HEX;
    assert ("=" + rest)[1..] == rest;
    if |rest| > 1 {
      DigitValue(rest[0]);
      DigitValue(rest[1]);
    }
  }

  lemma OthersRead(c: char, rest: string, inHeader: bool)
    ensures c != '=' && c != Nul ==>
      Unquoted([c] + rest, inHeader) == [if c == '_' && inHeader then ' ' else c] + Unquoted(rest, inHeader)
    ensures Unquoted(['=', '\n'] + rest, inHeader) == Unquoted(rest, inHeader)
    ensures rest == "" || rest[0] == Nul ==> Unquoted(rest, inHeader) == ""
  {
    hide CodedAt, CodedByte;
    assert ([c] + rest)[1..] == rest && (['=', '\n'] + rest)[2..] == rest;
  }

  /** Decoding gives back the bytes, however they were written and wherever lines were broken, up
      to a NUL. */
  lemma {:induction false} QpRoundTrip(ks: seq<Token>, end: string, inHeader: bool)
    requires Proper(ks) && (end != "" ==> end[0] == Nul)
    ensures Unquoted(Written(ks) + end, inHeader) == Meant(ks, inHeader)
  {
    hide Unquoted, TokenText, TokenMeans, ProperBefore;
    if ks == [] {
      OthersRead('a', end, inHeader);
      assert "" + end == end;
    } else {
      var rest := Written(ks[1..]);
      QpRoundTrip(ks[1..], end, inHeader);
      TokenRead(ks[0], rest, end, inHeader);
      Regroup(TokenText(ks[0]), rest, end);
    }
  }

  lemma TokenRead(k: Token, rest: string, end: string, inHeader: bool)
    requires ProperBefore(k, rest) && (end != "" ==> end[0] == Nul)
    ensures Unquoted(TokenText(k) + (rest + end), inHeader) == TokenMeans(k, inHeader) + Unquoted(rest + end, inHeader)
  {
    hide Unquoted, HexDigit, IsHex;
    var all := rest + end;
    match k
    case Plain(c) => OthersRead(c, all, inHeader);
    case Coded(b, low1, low2) => CodedRead(b, low1, low2, all, inHeader);
    case Soft => OthersRead('a', all, inHeader);
    case Equals =>
      NoDigits();
      EqualsRead(all, inHeader);
  }

  /** Every text is written so, up to its first NUL. */
  lemma {:induction false} TokensOf(t: string) returns (ks: seq<Token>, end: string)
    ensures t == Written(ks) + end && Proper(ks) && (end != "" ==> end[0] == Nul)
    decreases |t|
  {
    hide HIGH_HEX, LOW_HEX, HexDigit;
    if t == "" || t[0] == Nul {
      ks, end := [], t;
    } else if t[0] == '=' && |t| > 1 && t[1] == '\n' {
      ks, end := TokensOf(t[2..]);
      ks := Prefixed(Soft, ks, end);
    } else if t[0] == '=' && |t| > 2 && IsHex(t[1]) && IsHex(t[2]) {
      ks, end := TokensOf(t[3..]);
      var v, low1 := DigitOf(t[1]);
      var w, low2 := DigitOf(t[2]);
      ks := Prefixed(Coded(v * 16 + w, low1, low2), ks, end);
    } else {
      ks, end := TokensOf(t[1..]);
      ks := Prefixed(if t[0] == '=' then Equals else Plain(t[0]), ks, end);
    }
  }

  lemma Prefixed(k: Token, ks: seq<Token>, end: string) returns (all: seq<Token>)
    requires Proper(ks) && ProperBefore(k, Written(ks))
    ensures Proper(all) && Written(all) + end == TokenText(k) + (Written(ks) + end)
  {
    hide TokenText, ProperBefore;
    all := [k] + ks;
    assert all[1..] == ks;
  }

  lemma DigitOf(c: char) returns (v: nat, low: bool)
    requires IsHex(c)
    ensures v < 16 && HexDigit(v, low) == c
  {
    if c in LOW_HEX {
      v :| 0 <= v < 16 && LOW_HEX[v] == c;
      low := true;
    } else {
      v :| 0 <= v < 16 && HIGH_HEX[v] == c;
      low := false;
    }
  }
}
