/** The string operations of the source's runtime that the parsers rely on. */
module Text {
  /** White space as `str.strip` and the class `\s` of a text pattern see it. */
  predicate IsSpace(c: char) {
    || '\t' <= c <= '\r' || '\U{1c}' <= c <= ' ' || c == '\U{85}' || c == '\U{a0}' || c == '\U{1680}'
    || '\U{2000}' <= c <= '\U{200a}' || c == '\U{2028}' || c == '\U{2029}' || c == '\U{202f}'
    || c == '\U{205f}' || c == '\U{3000}'
  }

  predicate IsDigit(c: char) {
    '0' <= c <= '9'
  }

  predicate IsVisible(c: char) {
    !IsSpace(c)
  }

  predicate NotNewline(c: char) {
    c != '\n'
  }

  predicate All(s: string, p: char -> bool) {
    forall i | 0 <= i < |s| :: p(s[i])
  }

  /** Length of the longest prefix whose characters satisfy `p`. */
  function Span(s: string, p: char -> bool): (n: nat)
    ensures n <= |s| && All(s[..n], p)
    ensures n < |s| ==> !p(s[n])
  {
    if s != "" && p(s[0]) then
      var n := 1 + Span(s[1..], p);
      assert s[..n] == [s[0]] + s[1..][..n - 1];
      n
    else 0
  }

  function TrimLeft(s: string): (r: string)
    ensures |r| <= |s| && r == s[|s| - |r|..]
    ensures r != "" ==> !IsSpace(r[0])
    ensures All(s[..|s| - |r|], IsSpace)
  {
    s[Span(s, IsSpace)..]
  }

  function TrimRight(s: string): (r: string)
    ensures |r| <= |s| && r == s[..|r|]
    ensures r != "" ==> !IsSpace(r[|r| - 1])
  {
    if s != "" && IsSpace(s[|s| - 1]) then TrimRight(s[..|s| - 1]) else s
  }

  /** `s.strip()` */
  function Trim(s: string): (r: string)
    ensures r != "" ==> !IsSpace(r[0]) && !IsSpace(r[|r| - 1])
    ensures |r| <= |s|
    ensures s != "" && !IsSpace(s[0]) && !IsSpace(s[|s| - 1]) ==> r == s
  {
    var t := TrimLeft(s);
    var r := TrimRight(t);
    assert r != "" ==> r[0] == t[0];
    r
  }

  /** The characters of a stripped string all come from the string. */
  lemma {:induction false} TrimKeepsCharacters(s: string, p: char -> bool)
    requires All(s, p)
    ensures All(Trim(s), p)
  {
  }

  /** Stripping leaves a good first character alone and only shortens what follows. */
  lemma {:induction false} TrimAfterHead(head: string, rest: string)
    requires head != "" && !IsSpace(head[0]) && !IsSpace(head[|head| - 1])
    ensures Trim(head + rest) == head + TrimRight(rest)
  {
    var s := head + rest;
    assert TrimLeft(s) == s;
    TrimRightAfter(head, rest);
  }

  lemma {:induction false} TrimRightAfter(head: string, rest: string)
    requires head != "" && !IsSpace(head[|head| - 1])
    ensures TrimRight(head + rest) == head + TrimRight(rest)
  {
    var s := head + rest;
    if rest == "" {
      assert s == head;
    } else if IsSpace(rest[|rest| - 1]) {
      assert s[..|s| - 1] == head + rest[..|rest| - 1];
      TrimRightAfter(head, rest[..|rest| - 1]);
    }
  }

  lemma {:induction false} SpanIs(s: string, n: nat, p: char -> bool)
    requires n <= |s| && All(s[..n], p)
    requires n < |s| ==> !p(s[n])
    ensures Span(s, p) == n
  {
  }

  predicate Suffix(t: string, s: string) {
    |t| <= |s| && s[|s| - |t|..] == t
  }

  lemma {:induction false} SuffixTransitive(a: string, b: string, c: string)
    requires Suffix(a, b) && Suffix(b, c)
    ensures Suffix(a, c)
  {
  }

  /** What a scanner found at the start of a text, and what is left of it. */
  datatype Scan<+T> = NoMatch | Match(value: T, rest: string)

  /** `pattern in s` */
  predicate Contains(s: string, pattern: string) {
    exists i :: 0 <= i <= |s| - |pattern| && s[i..][..|pattern|] == pattern
  }

  lemma {:induction false} ContainsInPart(s: string, from: nat, to: nat, pattern: string)
    requires from <= to <= |s|
    requires Contains(s[from..to], pattern)
    ensures Contains(s, pattern)
  {
    var i :| 0 <= i <= to - from - |pattern| && s[from..to][i..][..|pattern|] == pattern;
    assert s[from + i..][..|pattern|] == s[from..to][i..][..|pattern|];
  }

  function Digit(d: nat): (c: char)
    requires d < 10
    ensures IsDigit(c) && c as int - '0' as int == d
  {
    d as char + '0'
  }

  function PrintNat(n: nat): (s: string)
    ensures s != "" && All(s, IsDigit)
  {
    if n < 10 then [Digit(n)] else PrintNat(n / 10) + [Digit(n % 10)]
  }

  function ParseNat(s: string): nat
    requires All(s, IsDigit)
  {
    if s == "" then 0 else 10 * ParseNat(s[..|s| - 1]) + (s[|s| - 1] as int - '0' as int)
  }

  lemma {:induction false} NatRoundTrip(n: nat)
    ensures ParseNat(PrintNat(n)) == n
  {
    if n >= 10 {
      NatRoundTrip(n / 10);
      assert PrintNat(n)[..|PrintNat(n)| - 1] == PrintNat(n / 10);
    } else {
      assert PrintNat(n)[..0] == "";
    }
  }

  function PrintInt(n: int): string {
    if n < 0 then "-" + PrintNat(-n) else PrintNat(n)
  }
}
