/**
  * The structured data of a syslog record: the grammar of its elements, the scan for key and value
  * pairs, and the escapes of section 6.3.3 of RFC 5424.
  */
module StructuredData {
  import opened Common
  import opened Text

  // ------------------------------------------------------------------ characters

  predicate IsUpper(c: char) {
    'A' <= c <= 'Z'
  }

  predicate IsKeyChar(c: char) {
    IsUpper(c) || 'a' <= c <= 'z' || IsDigit(c) || c == '_' || c == '-' || c == '.'
  }

  /** The key characters by their ASCII codes: hyphen and dot, digits, upper case, underscore, lower case. */
  lemma {:induction false} KeyCharIff(c: char)
    ensures var n := c as int;
            IsKeyChar(c) <==>
            45 <= n <= 46 || 48 <= n <= 57 || 65 <= n <= 90 || n == 95 || 97 <= n <= 122
  {
    assert c == c as int as char;
  }

  /** Characters of an unquoted value. */
  predicate IsBareChar(c: char) {
    !IsSpace(c) && c != ']' && c != '"'
  }

  /** Characters of an element's identifier. */
  predicate IsIdChar(c: char) {
    IsBareChar(c) && c != '='
  }

  predicate IsSpecial(c: char) {
    c == '"' || c == '\\' || c == ']'
  }

  // ------------------------------------------------------------------ escapes

  function Escape(v: string): (r: string)
    ensures |r| >= |v|
  {
    if v == "" then "" else (if IsSpecial(v[0]) then ['\\', v[0]] else [v[0]]) + Escape(v[1..])
  }

  /** Undo the three escapes; any other backslash stays. */
  function Unescape(s: string): (r: string)
    ensures |r| <= |s|
  {
    if s == "" then ""
    else if |s| >= 2 && s[0] == '\\' && IsSpecial(s[1]) then [s[1]] + Unescape(s[2..])
    else [s[0]] + Unescape(s[1..])
  }

  lemma {:induction false} EscapeRoundTrip(v: string)
    ensures Unescape(Escape(v)) == v
  {
    if v != "" {
      var rest, s := Escape(v[1..]), Escape(v);
      EscapeRoundTrip(v[1..]);
      if IsSpecial(v[0]) {
        assert s[2..] == rest;
      } else {
        assert s[1..] == rest;
      }
    }
  }

  /** The closing quote of a value, behind the opening one; inside an element a bare bracket ends it too. */
  function QuotedEnd(s: string, inElement: bool): (r: Option<nat>)
    ensures r.Some? ==> r.value < |s| && s[r.value] == '"'
  {
    if s == "" then None
    else if s[0] == '"' then Some(0)
    else if s[0] == '\\' then
      if |s| < 2 || s[1] == '\n' then None else After(2, QuotedEnd(s[2..], inElement))
    else if inElement && s[0] == ']' then None
    else After(1, QuotedEnd(s[1..], inElement))
  }

  function After(n: nat, end: Option<nat>): (r: Option<nat>) {
    match end case None => None case Some(k) => Some(n + k)
  }

  /** What ends a value inside an element ends it in the pair scan, whatever follows. */
  lemma {:induction false} QuotedEndAgrees(s: string, t: string, inElement: bool)
    requires QuotedEnd(s, true).Some?
    ensures QuotedEnd(s + t, inElement) == QuotedEnd(s, true)
  {
    if s[0] == '"' {
    } else if s[0] == '\\' {
      assert (s + t)[2..] == s[2..] + t;
      QuotedEndAgrees(s[2..], t, inElement);
    } else {
      assert (s + t)[1..] == s[1..] + t;
      QuotedEndAgrees(s[1..], t, inElement);
    }
  }

  /** An escaped value is never ended early. */
  lemma {:induction false} EscapedEnd(v: string, t: string)
    ensures QuotedEnd(Escape(v) + ("\"" + t), true) == Some(|Escape(v)|)
  {
    var s := Escape(v) + ("\"" + t);
    if v != "" {
      EscapedEnd(v[1..], t);
      var n := if IsSpecial(v[0]) then 2 else 1;
      assert s[n..] == Escape(v[1..]) + ("\"" + t);
      assert s[0] == Escape(v)[0] && (n == 2 ==> s[1] == Escape(v)[1]);
    }
  }

  // ------------------------------------------------------------------ elements

  /** One parameter: the white space before it, its key, and the text between the quotes. */
  datatype Param = Param(sep: string, key: string, raw: string)

  datatype Element = Element(id: string, params: seq<Param>)

  /** A quoted value and what is behind it. */
  function ScanQuoted(s: string): (r: Scan<string>)
    ensures r.Match? ==> |r.rest| < |s|
  {
    if !("=\"" <= s) then NoMatch else
    match QuotedEnd(s[2..], true)
    case None => NoMatch
    case Some(n) => Match(s[2..][..n], s[2..][n + 1..])
  }

  function ScanParam(s: string): (r: Scan<Param>)
    ensures r.Match? ==> |r.rest| < |s|
  {
    var w := Span(s, IsSpace);
    var word := s[w..];
    var k := Span(word, IsKeyChar);
    var value := ScanQuoted(word[k..]);
    if w == 0 || k == 0 || value.NoMatch? then NoMatch else Match(Param(s[..w], word[..k], value.value), value.rest)
  }

  /** As many parameters as there are, and what is behind them. */
  datatype Params = Params(list: seq<Param>, rest: string)

  function ScanParams(s: string): (r: Params)
    ensures |r.rest| <= |s|
    decreases |s|
  {
    match ScanParam(s)
    case NoMatch => Params([], s)
    case Match(p, rest) =>
      var more := ScanParams(rest);
      Params([p] + more.list, more.rest)
  }

  function ScanElement(s: string): (r: Scan<Element>)
    ensures r.Match? ==> |r.rest| < |s|
  {
    if !("[" <= s) then NoMatch else
    var n := Span(s[1..], IsIdChar);
    if n == 0 then NoMatch else
    var params := ScanParams(s[1..][n..]);
    if "]" <= params.rest then Match(Element(s[1..][..n], params.list), params.rest[1..]) else NoMatch
  }

  /** All elements in front of the first character that is no opening bracket. */
  function ScanElements(s: string): (r: Scan<seq<Element>>)
    ensures r.Match? ==> r.rest == "" || r.rest[0] != '['
    decreases |s|
  {
    if !("[" <= s) then Match([], s) else
    match ScanElement(s)
    case NoMatch => NoMatch
    case Match(e, rest) =>
      match ScanElements(rest)
      case NoMatch => NoMatch
      case Match(es, after) => Match([e] + es, after)
  }

  // ------------------------------------------------------------------ the texts of elements

  function ParamText(p: Param, rest: string): string {
    p.sep + (p.key + ("=\"" + (p.raw + ("\"" + rest))))
  }

  function ParamsText(ps: seq<Param>, rest: string): string {
    if ps == [] then rest else ParamText(ps[0], ParamsText(ps[1..], rest))
  }

  function ElementText(e: Element, rest: string): string {
    "[" + (e.id + ParamsText(e.params, "]" + rest))
  }

  function ElementsText(es: seq<Element>, rest: string): string {
    if es == [] then rest else ElementText(es[0], ElementsText(es[1..], rest))
  }

  predicate GoodParam(p: Param) {
    && p.sep != "" && All(p.sep, IsSpace)
    && p.key != "" && All(p.key, IsKeyChar)
    && QuotedEnd(p.raw + "\"", true) == Some(|p.raw|)
  }

  predicate GoodParams(ps: seq<Param>) {
    forall i | 0 <= i < |ps| :: GoodParam(ps[i])
  }

  predicate GoodElement(e: Element) {
    e.id != "" && All(e.id, IsIdChar) && GoodParams(e.params)
  }

  predicate GoodElements(es: seq<Element>) {
    forall i | 0 <= i < |es| :: GoodElement(es[i])
  }

  // ------------------------------------------------------------------ scanning inverts printing

  lemma {:induction false} SpanThen(a: string, b: string, p: char -> bool)
    requires All(a, p) && (b == "" || !p(b[0]))
    ensures Span(a + b, p) == |a| && (a + b)[..|a|] == a && (a + b)[|a|..] == b
  {
  }

  lemma {:induction false} QuotedParts(raw: string, rest: string)
    ensures var value := raw + ("\"" + rest);
            && "=\"" <= "=\"" + value && ("=\"" + value)[2..] == value
            && value == (raw + "\"") + rest
            && value[..|raw|] == raw && value[|raw| + 1..] == rest
  {
  }

  lemma {:induction false} ScanQuotedOf(raw: string, rest: string)
    requires QuotedEnd(raw + "\"", true) == Some(|raw|)
    ensures ScanQuoted("=\"" + (raw + ("\"" + rest))) == Match(raw, rest)
  {
    hide QuotedEnd;
    var value := raw + ("\"" + rest);
    QuotedParts(raw, rest);
    QuotedEndAgrees(raw + "\"", rest, true);
    var s := "=\"" + value;
    assert QuotedEnd(s[2..], true) == Some(|raw|);
  }

  lemma {:induction false} ScanParamOf(p: Param, rest: string)
    requires GoodParam(p)
    ensures ScanParam(ParamText(p, rest)) == Match(p, rest)
  {
    hide QuotedEnd, Span, All, ScanQuoted;
    var more := "=\"" + (p.raw + ("\"" + rest));
    var word := p.key + more;
    assert p.key[0] == word[0] && !IsSpace(word[0]) by { KeyIsVisible(p.key); }
    SpanThen(p.sep, word, IsSpace);
    SpanThen(p.key, more, IsKeyChar);
    ScanQuotedOf(p.raw, rest);
    hide IsSpace, IsKeyChar;
  }

  lemma {:induction false} KeyIsVisible(key: string)
    requires key != "" && All(key, IsKeyChar)
    ensures !IsSpace(key[0])
  {
  }

  lemma {:induction false} QuotedEndCut(s: string)
    requires QuotedEnd(s, true).Some?
    ensures var n := QuotedEnd(s, true).value; QuotedEnd(s[..n] + "\"", true) == Some(n)
  {
    var n := QuotedEnd(s, true).value;
    var cut := s[..n] + "\"";
    if s[0] == '"' {
      assert cut == "\"";
    } else if s[0] == '\\' {
      QuotedEndCut(s[2..]);
      assert cut[0] == s[0] && cut[1] == s[1] && cut[2..] == s[2..][..n - 2] + "\"";
    } else {
      QuotedEndCut(s[1..]);
      assert cut[0] == s[0] && cut[1..] == s[1..][..n - 1] + "\"";
    }
  }

  lemma {:induction false} SplitAtQuote(s: string, n: nat)
    requires n < |s| && s[n] == '"'
    ensures s == s[..n] + ("\"" + s[n + 1..])
  {
  }

  lemma {:induction false} ScanQuotedIs(s: string)
    requires ScanQuoted(s).Match?
    ensures var r := ScanQuoted(s);
            QuotedEnd(r.value + "\"", true) == Some(|r.value|) && s == "=\"" + (r.value + ("\"" + r.rest))
  {
    hide QuotedEnd;
    var value := s[2..];
    QuotedEndCut(value);
    SplitAtQuote(value, QuotedEnd(value, true).value);
  }

  lemma {:induction false} ScanParamIs(s: string)
    requires ScanParam(s).Match?
    ensures var r := ScanParam(s); GoodParam(r.value) && s == ParamText(r.value, r.rest)
  {
    hide QuotedEnd, IsSpace, IsKeyChar, ScanQuoted;
    var w := Span(s, IsSpace);
    var word := s[w..];
    var k := Span(word, IsKeyChar);
    ScanQuotedIs(word[k..]);
    assert word == word[..k] + word[k..];
    assert s == s[..w] + word;
  }

  lemma {:induction false} NoParam(s: string)
    requires s != "" && !IsSpace(s[0])
    ensures ScanParam(s) == NoMatch
  {
  }

  lemma {:induction false} ScanParamsOf(ps: seq<Param>, rest: string)
    requires GoodParams(ps) && ScanParam(rest) == NoMatch
    ensures ScanParams(ParamsText(ps, rest)) == Params(ps, rest)
  {
    hide GoodParam, ScanParam, ParamText;
    if ps != [] {
      ScanParamOf(ps[0], ParamsText(ps[1..], rest));
      ScanParamsOf(ps[1..], rest);
    }
  }

  lemma {:induction false} ScanParamsIs(s: string)
    ensures var r := ScanParams(s); GoodParams(r.list) && s == ParamsText(r.list, r.rest)
    decreases |s|
  {
    hide GoodParam, ScanParam, ParamText;
    var first := ScanParam(s);
    if first.Match? {
      ScanParamIs(s);
      ScanParamsIs(first.rest);
    }
  }

  lemma {:induction false} ScanElementOf(e: Element, rest: string)
    requires GoodElement(e)
    ensures ScanElement(ElementText(e, rest)) == Match(e, rest)
  {
    hide ScanParams, GoodParams, ParamsText;
    var params := ParamsText(e.params, "]" + rest);
    var s := ElementText(e, rest);
    assert s[1..] == e.id + params;
    assert (e.id + params)[..|e.id|] == e.id && (e.id + params)[|e.id|..] == params;
    ParamsStart(e.params, "]" + rest);
    SpanIs(e.id + params, |e.id|, IsIdChar);
    NoParam("]" + rest);
    ScanParamsOf(e.params, "]" + rest);
    assert ("]" + rest)[1..] == rest;
  }

  /** Behind the identifier come white space or the closing bracket. */
  lemma {:induction false} ParamsStart(ps: seq<Param>, rest: string)
    requires GoodParams(ps) && rest != "" && rest[0] == ']'
    ensures var s := ParamsText(ps, rest); s != "" && (IsSpace(s[0]) || s[0] == ']') && !IsIdChar(s[0])
  {
  }

  lemma {:induction false} ScanElementIs(s: string)
    requires ScanElement(s).Match?
    ensures var r := ScanElement(s); GoodElement(r.value) && s == ElementText(r.value, r.rest)
  {
    hide ScanParams, GoodParams, ParamsText, IsIdChar;
    var n := Span(s[1..], IsIdChar);
    var params := s[1..][n..];
    ScanParamsIs(params);
    assert s == "[" + (s[1..][..n] + params);
    assert ScanParams(params).rest == "]" + ScanParams(params).rest[1..];
  }

  /** Scanning a text gives an element and a rest iff the text is that well-formed element's, followed by that rest. */
  lemma {:induction false} ElementIff(s: string, e: Element, rest: string)
    ensures ScanElement(s) == Match(e, rest) <==> GoodElement(e) && s == ElementText(e, rest)
  {
    hide ScanElement, GoodElement, ElementText;
    if ScanElement(s).Match? {
      ScanElementIs(s);
    }
    if GoodElement(e) {
      ScanElementOf(e, rest);
    }
  }

  lemma {:induction false} ScanElementsOf(es: seq<Element>, rest: string)
    requires GoodElements(es) && (rest == "" || rest[0] != '[')
    ensures ScanElements(ElementsText(es, rest)) == Match(es, rest)
  {
    hide GoodElement, ScanElement;
    if es != [] {
      ScanElementOf(es[0], ElementsText(es[1..], rest));
      ScanElementsOf(es[1..], rest);
      assert [es[0]] + es[1..] == es;
    }
  }

  lemma {:induction false} ScanElementsIs(s: string)
    requires ScanElements(s).Match?
    ensures var r := ScanElements(s); GoodElements(r.value) && s == ElementsText(r.value, r.rest)
    decreases |s|
  {
    hide GoodElement, ScanElement, ElementText;
    if "[" <= s {
      var first := ScanElement(s);
      ScanElementIs(s);
      ScanElementsIs(first.rest);
      var more := ScanElements(first.rest);
      var es := [first.value] + more.value;
      assert es[1..] == more.value;
      assert ScanElements(s) == Match(es, more.rest);
      assert GoodElements(es);
      assert ElementsText(es, more.rest) == ElementText(first.value, ElementsText(es[1..], more.rest));
    }
  }

  /** The same for the elements of a record: the scanner accepts exactly the printed well-formed ones. */
  lemma {:induction false} ElementsIff(s: string, es: seq<Element>, rest: string)
    ensures ScanElements(s) == Match(es, rest) <==>
            GoodElements(es) && (rest == "" || rest[0] != '[') && s == ElementsText(es, rest)
  {
    hide GoodElements, ElementsText;
    if ScanElements(s).Match? {
      ScanElementsIs(s);
    }
    hide ScanElements;
    if GoodElements(es) && (rest == "" || rest[0] != '[') {
      ScanElementsOf(es, rest);
    }
  }

  // ------------------------------------------------------------------ the scan for pairs

  datatype Pair = Pair(key: string, value: string)

  /** Every pair of a text, left to right; a quoted value is unescaped. */
  function Extract(s: string): seq<Pair>
    decreases |s|
  {
    if s == "" then [] else
    var k := Span(s, IsKeyChar);
    if k == 0 then Extract(s[1..])
    else if k == |s| || s[k] != '=' then Extract(s[k..])
    else ExtractValue(s[..k], s[k + 1..])
  }

  /** The value behind a key and its equals sign, and the pairs behind it; without a value the key is skipped. */
  function ExtractValue(key: string, v: string): seq<Pair>
    decreases |v|
  {
    var end := if "\"" <= v then QuotedEnd(v[1..], false) else None;
    if end.Some? then [Pair(key, Unescape(v[1..][..end.value]))] + Extract(v[1..][end.value + 1..]) else
    var m := Span(v, IsBareChar);
    if m > 0 then [Pair(key, v[..m])] + Extract(v[m..])
    else if v == "" then []
    else Extract(v[1..])
  }

  function PairOf(p: Param): Pair {
    Pair(p.key, Unescape(p.raw))
  }

  function PairsOf(ps: seq<Param>): seq<Pair> {
    if ps == [] then [] else [PairOf(ps[0])] + PairsOf(ps[1..])
  }

  function AllPairs(es: seq<Element>): seq<Pair> {
    if es == [] then [] else PairsOf(es[0].params) + AllPairs(es[1..])
  }

  /** The elements' own texts with a space between two of them. */
  function Joined(es: seq<Element>): string {
    if es == [] then "" else ElementText(es[0], if |es| == 1 then "" else " " + Joined(es[1..]))
  }

  // ------------------------------------------------------------------ the pair scan sees the parameters

  lemma {:induction false} ExtractSkips(id: string, y: string)
    requires All(id, IsIdChar) && y != "" && !IsKeyChar(y[0]) && y[0] != '='
    ensures Extract(id + y) == Extract(y)
    decreases |id|
  {
    var s := id + y;
    if id == "" {
      assert s == y;
    } else {
      var k := Span(id, IsKeyChar);
      assert s[..k] == id[..k];
      SpanIs(s, k, IsKeyChar);
      var n := if k == 0 then 1 else k;
      assert s[n..] == id[n..] + y;
      assert k < |id| ==> s[k] == id[k];
      ExtractSkips(id[n..], y);
    }
  }

  lemma {:induction false} ExtractSkipsSpace(w: string, y: string)
    requires All(w, IsSpace)
    ensures Extract(w + y) == Extract(y)
  {
    var s := w + y;
    if w == "" {
      assert s == y;
    } else {
      assert s[0] == w[0] && !IsKeyChar(w[0]);
      assert s[1..] == w[1..] + y;
      ExtractSkipsSpace(w[1..], y);
    }
  }

  lemma {:induction false} ExtractWord(key: string, v: string)
    requires key != "" && All(key, IsKeyChar)
    ensures Extract(key + ("=" + v)) == ExtractValue(key, v)
  {
    hide ExtractValue, IsKeyChar;
    assert !IsKeyChar('=') by { EqualsIsNoKey(); }
    var word := key + ("=" + v);
    assert word[..|key|] == key && word[|key|] == '=' && word[|key| + 1..] == v;
    SpanIs(word, |key|, IsKeyChar);
  }

  lemma {:induction false} EqualsIsNoKey()
    ensures !IsKeyChar('=')
  {
  }

  lemma {:induction false} ExtractQuoted(key: string, raw: string, rest: string)
    requires QuotedEnd(raw + "\"", true) == Some(|raw|)
    ensures ExtractValue(key, "\"" + (raw + ("\"" + rest))) == [Pair(key, Unescape(raw))] + Extract(rest)
  {
    hide QuotedEnd, Unescape, Extract;
    var value := raw + ("\"" + rest);
    var v := "\"" + value;
    QuotedEndAgrees(raw + "\"", rest, false);
    assert value == (raw + "\"") + rest && v[1..] == value;
    assert value[..|raw|] == raw && value[|raw| + 1..] == rest;
  }

  lemma {:induction false} ExtractParam(p: Param, rest: string)
    requires GoodParam(p)
    ensures Extract(ParamText(p, rest)) == [PairOf(p)] + Extract(rest)
  {
    hide QuotedEnd, All, Unescape, Extract, ExtractValue;
    var v := "\"" + (p.raw + ("\"" + rest));
    ExtractSkipsSpace(p.sep, p.key + ("=" + v));
    ExtractWord(p.key, v);
    ExtractQuoted(p.key, p.raw, rest);
    assert "=" + v == "=\"" + (p.raw + ("\"" + rest));
  }

  lemma {:induction false} ExtractParams(ps: seq<Param>, rest: string)
    requires GoodParams(ps)
    ensures Extract(ParamsText(ps, rest)) == PairsOf(ps) + Extract(rest)
  {
    hide GoodParam, ParamText, Extract;
    if ps != [] {
      ExtractParam(ps[0], ParamsText(ps[1..], rest));
      ExtractParams(ps[1..], rest);
    }
  }

  lemma {:induction false} ExtractOne(c: char, y: string)
    requires !IsKeyChar(c)
    ensures Extract([c] + y) == Extract(y)
  {
  }

  lemma {:induction false} ExtractElement(e: Element, rest: string)
    requires GoodElement(e)
    ensures Extract(ElementText(e, rest)) == PairsOf(e.params) + Extract(rest)
  {
    hide Extract, GoodParams, ParamsText;
    var params := ParamsText(e.params, "]" + rest);
    ExtractOne('[', e.id + params);
    ParamsStart(e.params, "]" + rest);
    ExtractSkips(e.id, params);
    ExtractParams(e.params, "]" + rest);
    ExtractOne(']', rest);
  }

  /** The pair scan never matches inside an identifier or a value: it finds exactly the parameters, in order. */
  lemma {:induction false} ExtractIsParams(es: seq<Element>)
    requires GoodElements(es)
    ensures Extract(Joined(es)) == AllPairs(es)
  {
    hide GoodElement, ElementText, PairsOf;
    if es == [] {
    } else if |es| == 1 {
      ExtractElement(es[0], "");
      assert AllPairs(es[1..]) == [] && Extract("") == [];
    } else {
      ExtractElement(es[0], " " + Joined(es[1..]));
      ExtractOne(' ', Joined(es[1..]));
      ExtractIsParams(es[1..]);
    }
  }
}
