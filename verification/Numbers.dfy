/** Article numbers in decimal, as the .newsrc line holds them: printing by `fmt`, reading by
    `std::from_chars` and the spaces and sign that libtrn/bits.cpp (lines 63-77) skips first. */
module Numbers {

  const MaxLong := 0x7fff_ffff_ffff_ffff

  predicate IsDigit(c: char) {
    '0' <= c <= '9'
  }

  predicate IsSpace(c: char) {
    c == ' ' || 9 <= c as int <= 13
  }

  predicate AllDigits(s: string) {
    forall i :: 0 <= i < |s| ==> IsDigit(s[i])
  }

  function Digit(d: nat): (c: char)
    requires d < 10
    ensures IsDigit(c) && c as int - '0' as int == d
  {
    '0' + d as char
  }

  /** How `fmt` prints a number that is not negative. */
  function Dec(n: nat): (s: string)
    ensures |s| > 0 && AllDigits(s)
  {
    if n < 10 then [Digit(n)] else Dec(n / 10) + [Digit(n % 10)]
  }

  /** How many digits the text starts with. */
  function LeadingDigits(s: string): (k: nat)
    ensures k <= |s| && AllDigits(s[..k]) && (k < |s| ==> !IsDigit(s[k]))
  {
    if s == "" || !IsDigit(s[0]) then 0
    else
      var k := 1 + LeadingDigits(s[1..]);
      assert s[..k] == [s[0]] + s[1..][..k - 1];
      k
  }

  function Value(s: string): nat
    requires AllDigits(s)
  {
    if s == "" then 0 else Value(s[..|s| - 1]) * 10 + (s[|s| - 1] as int - '0' as int)
  }

  /** `std::from_chars` for a long that is 0 before: text that is no number, and numbers out of
      range, leave it so. */
  function FromChars(s: string): (v: int)
    ensures -MaxLong - 1 <= v <= MaxLong
  {
    var minus := s != "" && s[0] == '-';
    var t := if minus then s[1..] else s;
    var v: int := Value(t[..LeadingDigits(t)]);
    if minus then (if v <= MaxLong + 1 then -v else 0) else if v <= MaxLong then v else 0
  }

  function SkipSpace(s: string): string {
    if s != "" && IsSpace(s[0]) then SkipSpace(s[1..]) else s
  }

  function SkipBlanks(s: string): string {
    if s != "" && s[0] == ' ' then SkipBlanks(s[1..]) else s
  }

  function ParseNumber(s: string): (v: int)
    ensures -MaxLong - 1 <= v <= MaxLong
  {
    var t := SkipSpace(s);
    if t == "" then 0 else FromChars(if t[0] == '+' then t[1..] else t)
  }

  lemma {:induction false} ValueOfDec(n: nat)
    ensures Value(Dec(n)) == n
  {
    var s := Dec(n);
    if n < 10 {
      assert s[..|s| - 1] == "";
    } else {
      ValueOfDec(n / 10);
      assert s[..|s| - 1] == Dec(n / 10);
    }
  }

  lemma {:induction false} AllLeading(s: string, rest: string)
    requires AllDigits(s) && (rest != "" ==> !IsDigit(rest[0]))
    ensures LeadingDigits(s + rest) == |s|
  {
    if s != "" {
      assert (s + rest)[1..] == s[1..] + rest;
      AllLeading(s[1..], rest);
    } else {
      assert s + rest == rest;
    }
  }

  lemma DecLeads(n: nat, rest: string)
    requires rest != "" ==> !IsDigit(rest[0])
    ensures var t := Dec(n) + rest; LeadingDigits(t) == |Dec(n)| && Value(t[..LeadingDigits(t)]) == n
  {
    AllLeading(Dec(n), rest);
    assert (Dec(n) + rest)[..|Dec(n)|] == Dec(n);
    ValueOfDec(n);
  }

  /** What is printed is read back, whatever follows it. */
  lemma DecRead(n: nat, rest: string)
    requires n <= MaxLong && (rest != "" ==> !IsDigit(rest[0]))
    ensures FromChars(Dec(n) + rest) == n
  {
    var s := Dec(n) + rest;
    assert s[0] == Dec(n)[0] && IsDigit(Dec(n)[0]);
    DecLeads(n, rest);
  }

  lemma DecParsed(n: nat)
    requires n <= MaxLong
    ensures ParseNumber(Dec(n)) == n
  {
    assert IsDigit(Dec(n)[0]);
    DecRead(n, "");
    assert Dec(n) + "" == Dec(n);
  }

  // ---- What a decimal number is ----------------------------------------------------------------------

  function Power10(k: nat): nat {
    if k == 0 then 1 else 10 * Power10(k - 1)
  }

  lemma {:induction false} Power10Positive(k: nat)
    ensures Power10(k) > 0
  {
    if k > 0 {
      Power10Positive(k - 1);
    }
  }

  /** The digits stand at their places, the highest first, and none of them is a leading zero. */
  lemma {:induction false} DecPlaces(n: nat, k: nat)
    requires k < |Dec(n)|
    ensures Power10(k) > 0 && Dec(n)[|Dec(n)| - 1 - k] == "0123456789"[n / Power10(k) % 10]
    ensures Dec(n)[0] == '0' <==> n == 0
  {
    Power10Positive(k);
    if n < 10 {
      DigitIs(n);
    } else {
      DecPlaces(n / 10, if k > 0 then k - 1 else 0);
      if k > 0 {
        Power10Positive(k - 1);
        DivideTwice(n, Power10(k - 1));
        assert Dec(n)[|Dec(n)| - 1 - k] == Dec(n / 10)[|Dec(n / 10)| - 1 - (k - 1)];
      } else {
        DigitIs(n % 10);
      }
    }
  }

  lemma DigitIs(d: nat)
    requires d < 10
    ensures Digit(d) == "0123456789"[d]
  {
  }

  lemma DivideTwice(n: nat, p: nat)
    requires p > 0
    ensures n / 10 / p == n / (10 * p)
  {
    var q, r := n / (10 * p), n % (10 * p);
    assert n == 10 * p * q + r;
    assert n / 10 == p * q + r / 10;
    assert r / 10 < p;
    QuotientIs(n / 10, p, q, r / 10);
  }

  lemma QuotientIs(m: nat, p: nat, q: nat, r: nat)
    requires p > 0 && r < p && m == p * q + r
    ensures m / p == q
  {
    var d := m / p;
    assert m == p * d + m % p;
    assert p * (d - q) == p * d - p * q;
    Multiple(p, d - q);
  }

  lemma Multiple(p: nat, k: int)
    ensures k >= 1 ==> p * k >= p
    ensures k <= -1 ==> p * k <= 0 - p
  {
    assert k >= 1 ==> p * k == p * (k - 1) + p;
    assert k <= -1 ==> p * k == p * (k + 1) - p;
  }

  lemma {:induction false} SpacesSkipped(spaces: string, t: string)
    requires (forall i :: 0 <= i < |spaces| ==> spaces[i] in " \t\n\r" || spaces[i] as int in {11, 12}) && t != "" && t[0] in "+-0123456789"
    ensures SkipSpace(spaces + t) == t
  {
    if spaces != "" {
      assert (spaces + t)[1..] == spaces[1..] + t;
      SpacesSkipped(spaces[1..], t);
    } else {
      assert spaces + t == t;
    }
  }

  /** A number is read with white space in front of it, with or without a sign, whatever follows. */
  lemma NumberRead(spaces: string, sign: string, n: nat, rest: string)
    requires (forall i :: 0 <= i < |spaces| ==> spaces[i] in " \t\n\r" || spaces[i] as int in {11, 12})
    requires sign in {"", "+", "-"} && n <= MaxLong && (rest != "" ==> !IsDigit(rest[0]))
    ensures ParseNumber(spaces + (sign + (Dec(n) + rest))) == (if sign == "-" then 0 - n else n)
  {
    hide Dec, Value;
    var t := Dec(n) + rest;
    assert IsDigit(Dec(n)[0]) && t[0] == Dec(n)[0];
    DecLeads(n, rest);
    SpacesSkipped(spaces, sign + t);
    if sign == "" {
      assert sign + t == t;
    } else {
      assert (sign + t)[1..] == t;
    }
  }
}
